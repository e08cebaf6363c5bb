/** A whole cycle on the simulated exchange while the books stand still: when
    every order of the three legs fills completely. */
module WholeCycle {
  import opened Basics
  import opened Trading
  import opened Execution
  import opened ExecutorInvariant
  import opened ExecutionRuns
  import opened PaperSystem
  import PaperExchange
  import EndToEnd
  import Triangles

  function GainedAsset(setup: Setup, leg: TradeLeg): Asset
    requires leg.index < |setup.markets|
  {
    if leg.buy then setup.markets[leg.index].base else setup.markets[leg.index].quote
  }

  /** Each leg spends what the one before it gained, and no asset or market
      comes up twice. */
  ghost predicate Chained(setup: Setup, path: TradePath) {
    && ValidPath(setup, path)
    && SpentAsset(setup, path[0]) == USDT
    && SpentAsset(setup, path[1]) == GainedAsset(setup, path[0])
    && SpentAsset(setup, path[2]) == GainedAsset(setup, path[1])
    && GainedAsset(setup, path[2]) == USDT
    && path[0].index != path[1].index && path[1].index != path[2].index && path[0].index != path[2].index
  }

  lemma RoundTripChains(setup: Setup, pairs: seq<Triangles.Pair>, ix: seq<nat>, path: TradePath)
    requires |pairs| == |setup.markets| && Triangles.RoundTrip(pairs, ix, path)
    requires forall k :: 0 <= k < |pairs| ==> pairs[k] == Triangles.Pair(setup.markets[k].base, setup.markets[k].quote)
    ensures Chained(setup, path)
  {}

  lemma KnownPathsChain(setup: Setup, pairs: seq<Triangles.Pair>, c: Opportunity)
    requires ValidSetup(setup) && Configured(setup, pairs) && KnownPath(setup, c) && ValidPath(setup, c.path)
    ensures Chained(setup, c.path)
  {
    hide ValidSetup, Triangles.RoundTrip, Chained;
    var group := setup.groups[c.groupIndex];
    var ix :| Triangles.SoundGroup(pairs, ix, group);
    assert c.path == group.paths[0] || c.path == group.paths[1];
    RoundTripChains(setup, pairs, ix, c.path);
  }

  /** The bids that the first two legs sell at are whole ticks. */
  ghost predicate AlignedBids(setup: Setup, path: TradePath, snapshot: Snapshot)
    requires ValidSetup(setup) && ValidPath(setup, path) && |snapshot| == |setup.markets|
  {
    forall k :: 0 <= k < LEGS - 1 && !path[k].buy && snapshot[path[k].index].Some? ==>
      var book := snapshot[path[k].index].value;
      BookPrice(setup.markets[path[k].index], book, false) == PriceOf(book, false)
  }

  /** Nothing has been taken yet from the books of legs i and later. */
  ghost predicate Untouched(d: PaperExchange.Desk, path: TradePath, snapshot: Snapshot, i: nat)
    requires |path| == LEGS
  {
    forall k :: i <= k < LEGS ==>
      && path[k].index < |snapshot| && snapshot[path[k].index].Some?
      && PaperExchange.UsageFor(d.consumed, (path[k].index, path[k].buy), snapshot[path[k].index].value.updateId).used
         == 0.0
  }

  /** What does not change during the cycle. */
  ghost predicate Still(setup: Setup, t: PaperExchange.Terms, opp: Opportunity, snapshot: Snapshot, clock: seq<int>) {
    && Trades(setup, t) && t.fee == setup.commission && !setup.firstLegStop
    && Chained(setup, opp.path) && |opp.prices| == LEGS
    && |snapshot| == |setup.markets| && |clock| == LEGS && AlignedBids(setup, opp.path, snapshot)
  }

  /** The holdings at the current leg against the balances that the dry run of
      preflight had there: no more of the asset to spend, and none yet of the
      assets that later legs spend. */
  ghost predicate WithinDryRun(setup: Setup, s: Exec, dry: Balances)
    requires ValidPath(setup, s.cycle.opportunity.path) && s.legNumber < LEGS
  {
    var path := s.cycle.opportunity.path;
    && Get(s.holdings, SpentAsset(setup, path[s.legNumber])) <= Get(dry, SpentAsset(setup, path[s.legNumber]))
    && forall k :: s.legNumber < k < LEGS ==>
         Get(s.holdings, SpentAsset(setup, path[k])) == 0.0 && Get(dry, SpentAsset(setup, path[k])) == 0.0
  }

  /** The pending order is the one the fast path sizes for the current leg. */
  ghost predicate FastPending(setup: Setup, s: Exec)
    requires ValidSetup(setup) && ValidPath(setup, s.cycle.opportunity.path) && |s.cycle.opportunity.prices| == LEGS
    requires s.legNumber < LEGS
  {
    var leg := s.cycle.opportunity.path[s.legNumber];
    && s.state.LegPending? && !s.waitingGateway && !s.failed && s.cycleSubmitted && s.gatewayBusy
    && s.pending.Some? && s.accounted == EMPTY_REPORT
    && s.pending.value.symbolIndex == leg.index && s.pending.value.buy == leg.buy && !s.pending.value.initialClear
    && PrepareFast(setup, s.cycle.opportunity, s.legNumber, Get(s.holdings, SpentAsset(setup, leg)))
       == Some((s.pending.value.price, s.pending.value.quantity))
  }

  /** The executor's side: leg legNumber is out, sized within the dry run. */
  ghost predicate ExecOnTrack(setup: Setup, t: PaperExchange.Terms, s: Exec, snapshot: Snapshot, clock: seq<int>,
                              dry: Balances)
  {
    && Still(setup, t, s.cycle.opportunity, snapshot, clock) && s.legNumber < LEGS
    && FastPending(setup, s) && WithinDryRun(setup, s, dry)
    && PreflightFrom(setup, s.cycle.opportunity, dry, snapshot, clock, s.legNumber).None?
  }

  ghost predicate OnTrack(setup: Setup, t: PaperExchange.Terms, y: System, snapshot: Snapshot, clock: seq<int>,
                          dry: Balances)
  {
    var s := y.world.exec;
    && SystemInv(setup, y) && ExecOnTrack(setup, t, s, snapshot, clock, dry)
    && y.world.inbox == [s.pending.value]
    && Untouched(y.desk, s.cycle.opportunity.path, snapshot, s.legNumber)
    && forall a :: Get(y.world.base, a) >= Opening(s, a)
  }

  // ------------------------------------------------------------ one leg

  /** What a trade of q units leaves of its proceeds, real and in the dry run. */
  lemma GainWithin(q: real, planned: real, price: real, fee: real)
    requires 0.0 < q <= planned && price > 0.0 && 0.0 <= fee < 1.0
    ensures q - PaperExchange.Times(q, fee) <= PaperExchange.Times(planned, 1.0 - fee)
    ensures var quote := PaperExchange.Times(q, price);
            quote - PaperExchange.Times(quote, fee)
                <= PaperExchange.Times(PaperExchange.Times(planned, price), 1.0 - fee)
  {
    Kept(q, planned, fee);
    ScaleLe(q, planned, price);
    var quote := PaperExchange.Times(q, price);
    assert quote <= PaperExchange.Times(planned, price);
    hide PaperExchange.Times;
    Kept(quote, PaperExchange.Times(planned, price), fee);
  }

  lemma Kept(x: real, y: real, fee: real)
    requires x <= y && fee < 1.0
    ensures x - PaperExchange.Times(x, fee) <= PaperExchange.Times(y, 1.0 - fee)
  {
    assert x - x * fee == x * (1.0 - fee);
    ScaleLe(x, y, 1.0 - fee);
  }

  /** Why the bids have to be whole ticks: the dry run values a sale at the bid
      rounded down, the exchange pays the bid itself. */
  lemma SaleWithinDryRunIff(q: real, bid: real, tick: real, fee: real)
    requires q > 0.0 && tick > 0.0 && fee < 1.0
    ensures q * bid * (1.0 - fee) <= q * Down(bid, tick) * (1.0 - fee) <==> Down(bid, tick) == bid
  {
    DownBounds(bid, tick);
    hide Down;
    var price := Down(bid, tick);
    if price < bid {
      Scaled(q, price, bid);
      Scaled(1.0 - fee, q * price, q * bid);
    }
  }

  lemma Scaled(k: real, x: real, y: real)
    requires k > 0.0 && x < y
    ensures k * x < k * y
  {}

  /** And it matters: one unit sold at a bid of 1.05 with a tick of 0.1 is 1.0 to
      the dry run, which the next level's 1.04 holds; the 1.05 really received
      make an order that the same level does not fill. */
  lemma OddBidOverruns(next: OrderRequest, price: real)
    requires !next.initialClear && next.quantity == Down(1.05, 0.01)
    ensures Down(1.0 * Down(1.05, 0.1), 0.01) <= 1.04
    ensures PaperExchange.Unmatched(next, PaperExchange.Quote(price, 1.04))
  {
    assert 1.05 / 0.1 == 10.5 && 1.05 / 0.01 == 105.0 && 1.0 / 0.01 == 100.0;
  }

  /** The pending order against its book: covered, and within the dry run. */
  lemma PendingIsCovered(setup: Setup, t: PaperExchange.Terms, s: Exec, snapshot: Snapshot, clock: seq<int>,
                         dry: Balances)
    requires ExecOnTrack(setup, t, s, snapshot, clock, dry)
    ensures var order, leg := s.pending.value, s.cycle.opportunity.path[s.legNumber];
            var m := setup.markets[leg.index];
            && snapshot[leg.index].Some? && PaperExchange.WellFormedOrder(m, order)
            && var book := snapshot[leg.index].value;
               && EndToEnd.Covered(order, book, Get(s.holdings, SpentAsset(setup, leg)))
               && order.quantity <= Sized(leg.buy, Get(dry, SpentAsset(setup, leg)), BookPrice(m, book, leg.buy),
                                          m.step)
  {
    hide PrepareFast, PreflightFrom, PaperExchange.WellFormedOrder, EndToEnd.Covered, BookPrice, Sized, AlignedBids;
    var leg := s.cycle.opportunity.path[s.legNumber];
    EndToEnd.SizedOrderIsCovered(setup, s.cycle.opportunity, s.legNumber, dry, Get(s.holdings, SpentAsset(setup, leg)),
                                 snapshot, clock, s.pending.value);
  }

  /** The wallet covers what the executor believes it holds of the asset to spend. */
  lemma WalletCovers(setup: Setup, y: System, a: Asset)
    requires SystemInv(setup, y) && y.world.exec.state.LegPending? && y.world.outbox == []
    requires Get(y.world.base, a) >= Opening(y.world.exec, a)
    ensures Get(y.desk.wallet, a) >= Get(y.world.exec.holdings, a)
  {
    hide Sound, SentInv, KnownIds, PaperExchange.Sound, Shape, Counts, Requests;
    assert OwnGain(y.world, a) == WalletGain(setup, y.world, a) - MissedWorth(setup, y.world, a);
  }

  /** The exchange fills a covered order whole; the report is the one of a trade
      of its full quantity. */
  lemma CoveredOrderFills(t: PaperExchange.Terms, d: PaperExchange.Desk, s: Exec, order: OrderRequest, book: Book,
                          amount: real)
    requires PaperExchange.ValidTerms(t) && order.symbolIndex < |t.markets| && !order.initialClear
    requires PaperExchange.WellFormedOrder(t.markets[order.symbolIndex], order)
    requires EndToEnd.Covered(order, book, amount) && order.clientId !in d.orders
    requires Get(d.wallet, PaperExchange.Spent(t.markets[order.symbolIndex], order)) >= amount
    requires EndToEnd.Unconsumed(d, order, book)
    requires s.pending == Some(order) && s.state.LegPending? && s.accounted == EMPTY_REPORT
    ensures var r := PaperExchange.Fill(t, d, order, Some(book)).1;
            && EndToEnd.WholeFill(s, order, book, r)
            && r == PaperExchange.TradeReport(t.markets[order.symbolIndex], t.fee, order, order.quantity,
                                              PaperExchange.Times(order.quantity, PriceOf(book, order.buy)))
  {
    EndToEnd.SentOrderFills(s, order, book, amount, t, d);
    assert order.quantity > 0.0;
    hide PaperExchange.Fill, EndToEnd.Covered, PaperExchange.WellFormedOrder, PaperExchange.TradeReport;
    WholeIsQuantity(s, order, book, PaperExchange.Fill(t, d, order, Some(book)).1);
    PaperExchange.WholeFillReport(t, d, order, book);
  }

  lemma WholeIsQuantity(s: Exec, order: OrderRequest, book: Book, r: OrderReport)
    requires EndToEnd.WholeFill(s, order, book, r)
    ensures r.filledQty == order.quantity && r.status.Filled? && r.accountingComplete
  {}

  /** The report that the pending order gets on its book. */
  function WholeReport(setup: Setup, t: PaperExchange.Terms, order: OrderRequest, book: Book): OrderReport
    requires order.symbolIndex < |setup.markets|
  {
    PaperExchange.TradeReport(setup.markets[order.symbolIndex], t.fee, order, order.quantity,
                              PaperExchange.Times(order.quantity, PriceOf(book, order.buy)))
  }

  lemma PendingFills(setup: Setup, t: PaperExchange.Terms, y: System, snapshot: Snapshot, clock: seq<int>,
                     dry: Balances)
    requires OnTrack(setup, t, y, snapshot, clock, dry)
    ensures var order := y.world.exec.pending.value;
            && snapshot[order.symbolIndex].Some?
            && var book := snapshot[order.symbolIndex].value;
               var r := PaperExchange.Fill(t, y.desk, order, Some(book)).1;
               EndToEnd.WholeFill(y.world.exec, order, book, r) && r == WholeReport(setup, t, order, book)
  {
    var s := y.world.exec;
    var order, leg := s.pending.value, s.cycle.opportunity.path[s.legNumber];
    PendingIsCovered(setup, t, s, snapshot, clock, dry);
    NextRequestIsFresh(setup, y);
    WalletCovers(setup, y, SpentAsset(setup, leg));
    var book := snapshot[leg.index].value;
    assert EndToEnd.Unconsumed(y.desk, order, book);
    assert PaperExchange.ValidTerms(t);
    hide SystemInv, WithinDryRun, PreflightFrom, PrepareFast, AlignedBids, PaperExchange.Fill, EndToEnd.Covered,
         EndToEnd.WholeFill, EndToEnd.Unconsumed, PaperExchange.WellFormedOrder, PaperExchange.TradeReport, Sized,
         BookPrice, ValidSetup, PaperExchange.ValidTerms, Chained;
    CoveredOrderFills(t, y.desk, s, order, book, Get(s.holdings, SpentAsset(setup, leg)));
  }

  // ------------------------------------------------------------ from one leg to the next

  /** The executor with the fill booked, about to prepare the next leg. */
  function Continued(setup: Setup, s: Exec, r: OrderReport): Exec
    requires Typed(setup, s) && s.pending.Some?
  {
    Account(setup, s.(gatewayBusy := false), r).(pending := None, legNumber := s.legNumber + 1)
  }

  lemma WholeFillContinues(setup: Setup, s: Exec, r: OrderReport)
    requires Typed(setup, s) && s.state.LegPending? && s.pending.Some? && !s.waitingGateway && !setup.firstLegStop
    requires Concerns(s, r) && !Refused(s, r) && FilledWhole(s.pending.value, r) && r.accountingComplete
    ensures Typed(setup, Continued(setup, s, r))
    ensures Callback(setup, s, r, false) == NextLeg(setup, Continued(setup, s, r), false)
  {
    hide ValidSetup, ValidPath, NextLeg, Booked, BadCumulative;
  }

  /** The dry run's balances behind leg i. */
  function DryAfter(setup: Setup, opp: Opportunity, i: nat, dry: Balances, snapshot: Snapshot): Balances
    requires ValidSetup(setup) && ValidPath(setup, opp.path) && i < LEGS && |snapshot| == |setup.markets|
    requires snapshot[opp.path[i].index].Some?
  {
    var leg := opp.path[i];
    var m := setup.markets[leg.index];
    var price := BookPrice(m, snapshot[leg.index].value, leg.buy);
    Simulated(m, dry, leg.buy, price, Sized(leg.buy, Get(dry, SpentAsset(setup, leg)), price, m.step),
              1.0 - setup.commission)
  }

  lemma PreflightContinues(setup: Setup, opp: Opportunity, i: nat, dry: Balances, snapshot: Snapshot, clock: seq<int>)
    requires ValidSetup(setup) && ValidPath(setup, opp.path) && |opp.prices| == LEGS && i < LEGS
    requires |snapshot| == |setup.markets| && |clock| == LEGS && snapshot[opp.path[i].index].Some?
    requires PreflightFrom(setup, opp, dry, snapshot, clock, i).None?
    ensures PreflightFrom(setup, opp, DryAfter(setup, opp, i, dry, snapshot), snapshot, clock, i + 1).None?
  {
    hide Nearest, BookPrice, Sized, QuantityOf, ValidSetup, Simulated, FilterFailure;
  }

  /** What a whole fill does to one asset, against what the dry run did to it. */
  lemma GainedWithin(m: Market, order: OrderRequest, h: Balances, dry: Balances, price: real, bookPrice: real,
                     planned: real, fee: real)
    requires ValidMarket(m) && 0.0 < order.quantity <= planned && price > 0.0 && 0.0 <= fee < 1.0
    requires order.buy || bookPrice == price
    requires Get(h, PaperExchange.Received(m, order)) == 0.0 == Get(dry, PaperExchange.Received(m, order))
    ensures var r := PaperExchange.TradeReport(m, fee, order, order.quantity,
                                               PaperExchange.Times(order.quantity, price));
            var a := PaperExchange.Received(m, order);
            Get(Booked(h, order, m, r, EMPTY_REPORT), a)
              <= Get(Simulated(m, dry, order.buy, bookPrice, planned, 1.0 - fee), a)
  {
    hide PaperExchange.Times, Booked, BookedChange, Simulated, PaperExchange.TradeReport, PaperExchange.Received;
    var a := PaperExchange.Received(m, order);
    var r := PaperExchange.TradeReport(m, fee, order, order.quantity, PaperExchange.Times(order.quantity, price));
    GainWithin(order.quantity, planned, price, fee);
    BookedPointwise(h, order, m, r, EMPTY_REPORT, a);
    RealGain(m, order, price, fee);
    DryGain(m, order, dry, bookPrice, planned, 1.0 - fee);
  }

  lemma RealGain(m: Market, order: OrderRequest, price: real, fee: real)
    requires ValidMarket(m)
    ensures var quote := PaperExchange.Times(order.quantity, price);
            var r := PaperExchange.TradeReport(m, fee, order, order.quantity, quote);
            BookedChange(order, m, r, EMPTY_REPORT, PaperExchange.Received(m, order))
              == if order.buy then order.quantity - PaperExchange.Times(order.quantity, fee)
                 else quote - PaperExchange.Times(quote, fee)
  {
    hide PaperExchange.Times;
  }

  lemma DryGain(m: Market, order: OrderRequest, dry: Balances, price: real, planned: real, kept: real)
    requires ValidMarket(m)
    ensures Get(Simulated(m, dry, order.buy, price, planned, kept), PaperExchange.Received(m, order))
         == Get(dry, PaperExchange.Received(m, order))
            + if order.buy then PaperExchange.Times(planned, kept)
              else PaperExchange.Times(PaperExchange.Times(planned, price), kept)
  {}

  /** Neither a trade nor its dry run touches assets of no concern to its market. */
  lemma ElsewhereNothing(m: Market, order: OrderRequest, h: Balances, dry: Balances, r: OrderReport, price: real,
                         planned: real, kept: real, a: Asset)
    requires a != m.base && a != m.quote && a !in r.commissions
    ensures Get(Booked(h, order, m, r, EMPTY_REPORT), a) == Get(h, a)
    ensures Get(Simulated(m, dry, order.buy, price, planned, kept), a) == Get(dry, a)
  {}

  /** The order buys or sells no more than the dry run planned to, and sells at
      the price the dry run used. */
  lemma PlannedCovers(setup: Setup, t: PaperExchange.Terms, s: Exec, snapshot: Snapshot, clock: seq<int>,
                      dry: Balances, book: Book)
    requires ExecOnTrack(setup, t, s, snapshot, clock, dry) && s.legNumber + 1 < LEGS
    requires snapshot[s.pending.value.symbolIndex] == Some(book)
    ensures var order, leg := s.pending.value, s.cycle.opportunity.path[s.legNumber];
            var m := setup.markets[leg.index];
            var price := BookPrice(m, book, leg.buy);
            && 0.0 < order.quantity <= Sized(leg.buy, Get(dry, SpentAsset(setup, leg)), price, m.step)
            && PriceOf(book, leg.buy) > 0.0 && (leg.buy || price == PriceOf(book, leg.buy))
  {
    PendingIsCovered(setup, t, s, snapshot, clock, dry);
    hide PreflightFrom, PrepareFast, PriceOf, BookPrice, Sized, PaperExchange.WellFormedOrder, WithinDryRun;
  }

  /** Which assets the chain lets a leg's market touch. */
  lemma ChainedAssets(setup: Setup, path: TradePath, i: nat)
    requires ValidSetup(setup) && Chained(setup, path) && i + 1 < LEGS
    ensures var m := setup.markets[path[i].index];
            && SpentAsset(setup, path[i + 1]) == (if path[i].buy then m.base else m.quote)
            && (i == 0 ==> SpentAsset(setup, path[2]) != m.base && SpentAsset(setup, path[2]) != m.quote)
  {
    assert ValidMarket(setup.markets[path[1].index]) && ValidMarket(setup.markets[path[2].index]);
    assert ValidMarket(setup.markets[path[0].index]);
  }

  /** A whole fill of leg i on assets that later legs spend. */
  lemma TradeStaysWithin(setup: Setup, path: TradePath, i: nat, order: OrderRequest, h: Balances, dry: Balances,
                         paid: real, price: real, planned: real, fee: real)
    requires ValidSetup(setup) && Chained(setup, path) && i + 1 < LEGS
    requires order.symbolIndex == path[i].index && order.buy == path[i].buy
    requires 0.0 < order.quantity <= planned && paid > 0.0 && 0.0 <= fee < 1.0 && (order.buy || price == paid)
    requires Get(h, SpentAsset(setup, path[i + 1])) == 0.0 == Get(dry, SpentAsset(setup, path[i + 1]))
    requires Get(h, SpentAsset(setup, path[2])) == 0.0 == Get(dry, SpentAsset(setup, path[2]))
    ensures var m := setup.markets[order.symbolIndex];
            var r := PaperExchange.TradeReport(m, fee, order, order.quantity,
                                               PaperExchange.Times(order.quantity, paid));
            var h' := Booked(h, order, m, r, EMPTY_REPORT);
            var dry' := Simulated(m, dry, order.buy, price, planned, 1.0 - fee);
            && Get(h', SpentAsset(setup, path[i + 1])) <= Get(dry', SpentAsset(setup, path[i + 1]))
            && (i == 0 ==> Get(h', SpentAsset(setup, path[2])) == 0.0 == Get(dry', SpentAsset(setup, path[2])))
  {
    var m := setup.markets[order.symbolIndex];
    ChainedAssets(setup, path, i);
    assert ValidMarket(m);
    hide ValidSetup, Chained, ValidMarket, Booked, Simulated, SpentAsset;
    GainedWithin(m, order, h, dry, paid, price, planned, fee);
    if i == 0 {
      var r := PaperExchange.TradeReport(m, fee, order, order.quantity, PaperExchange.Times(order.quantity, paid));
      ElsewhereNothing(m, order, h, dry, r, price, planned, 1.0 - fee, SpentAsset(setup, path[2]));
    }
  }

  lemma ContinuedFields(setup: Setup, s: Exec, r: OrderReport)
    requires Typed(setup, s) && s.pending.Some?
    ensures var s' := Continued(setup, s, r);
            && s'.holdings == Booked(s.holdings, s.pending.value, setup.markets[s.pending.value.symbolIndex], r,
                                     s.accounted)
            && s'.cycle == s.cycle && s'.legNumber == s.legNumber + 1 && s'.pending.None? && !s'.gatewayBusy
            && s'.waitingGateway == s.waitingGateway && s'.sent == s.sent && s'.tally == s.tally
            && s'.failed == s.failed && s'.cycleSubmitted == s.cycleSubmitted
  {
    hide Booked;
  }

  /** Behind a whole fill the holdings are within the dry run again. */
  lemma ContinuesWithin(setup: Setup, t: PaperExchange.Terms, s: Exec, snapshot: Snapshot, clock: seq<int>,
                        dry: Balances, book: Book)
    requires ExecOnTrack(setup, t, s, snapshot, clock, dry) && Typed(setup, s) && s.legNumber + 1 < LEGS
    requires snapshot[s.pending.value.symbolIndex] == Some(book)
    ensures WithinDryRun(setup, Continued(setup, s, WholeReport(setup, t, s.pending.value, book)),
                         DryAfter(setup, s.cycle.opportunity, s.legNumber, dry, snapshot))
  {
    hide PreflightFrom, PrepareFast, AlignedBids, PriceOf, BookPrice, Sized, Simulated, Booked, Chained, Continued,
         SpentAsset, PaperExchange.TradeReport, PaperExchange.Times;
    var order, path, i := s.pending.value, s.cycle.opportunity.path, s.legNumber;
    var m, leg := setup.markets[order.symbolIndex], path[i];
    PlannedCovers(setup, t, s, snapshot, clock, dry, book);
    ContinuedFields(setup, s, WholeReport(setup, t, order, book));
    var price := BookPrice(m, book, leg.buy);
    hide ValidSetup;
    var planned := Sized(leg.buy, Get(dry, SpentAsset(setup, leg)), price, m.step);
    TradeStaysWithin(setup, path, i, order, s.holdings, dry, PriceOf(book, order.buy), price, planned, t.fee);
    assert WholeReport(setup, t, order, book)
        == PaperExchange.TradeReport(m, t.fee, order, order.quantity,
                                     PaperExchange.Times(order.quantity, PriceOf(book, order.buy)));
  }

  /** The cycle ends without another order: completed behind the third leg,
      failed where the next order would not pass the filters. */
  ghost predicate Over(s: Exec, s': Exec) {
    && s'.state.Idle? && s'.sent == s.sent && s'.cycle == s.cycle
    && (if s.legNumber + 1 == LEGS
        then s'.tally.completed == s.tally.completed + 1 && s'.tally.failures == s.tally.failures
        else s'.tally.completed == s.tally.completed && s'.tally.failures == s.tally.failures + 1)
  }

  /** The next order is out, for the next leg. */
  ghost predicate NextIsOut(setup: Setup, s: Exec, s': Exec)
    requires ValidSetup(setup) && ValidPath(setup, s'.cycle.opportunity.path) && |s'.cycle.opportunity.prices| == LEGS
  {
    && s'.legNumber == s.legNumber + 1 < LEGS && s'.cycle == s.cycle && FastPending(setup, s')
    && s'.sent == s.sent + [s'.pending.value] && s'.tally == s.tally
  }

  lemma NextLegOutcome(setup: Setup, s: Exec, r: OrderReport)
    requires Typed(setup, s) && s.pending.Some? && s.cycleSubmitted && !s.failed && !s.waitingGateway
    requires Typed(setup, Continued(setup, s, r))
    ensures var s' := NextLeg(setup, Continued(setup, s, r), false);
            && Typed(setup, s')
            && (Over(s, s') || (NextIsOut(setup, s, s') && s'.holdings == Continued(setup, s, r).holdings))
  {
    ContinuedFields(setup, s, r);
    hide Continued, PrepareFast, ValidSetup, Booked, SpentAsset;
  }

  /** One leg on its book: the order out is filled whole, and either the cycle
      is over or the next order is out, within the dry run. */
  lemma LegOutcome(setup: Setup, t: PaperExchange.Terms, s: Exec, snapshot: Snapshot, clock: seq<int>, dry: Balances,
                   book: Book)
    requires ExecOnTrack(setup, t, s, snapshot, clock, dry) && Typed(setup, s)
    requires snapshot[s.pending.value.symbolIndex] == Some(book)
    requires EndToEnd.WholeFill(s, s.pending.value, book, WholeReport(setup, t, s.pending.value, book))
    ensures var s' := Callback(setup, s, WholeReport(setup, t, s.pending.value, book), false);
            Over(s, s')
            || (NextIsOutWithin(setup, t, s, s', snapshot, clock,
                                DryAfter(setup, s.cycle.opportunity, s.legNumber, dry, snapshot)))
  {
    var r := WholeReport(setup, t, s.pending.value, book);
    WholeFillContinues(setup, s, r);
    NextLegOutcome(setup, s, r);
    PreflightContinues(setup, s.cycle.opportunity, s.legNumber, dry, snapshot, clock);
    if s.legNumber + 1 < LEGS { ContinuesWithin(setup, t, s, snapshot, clock, dry, book); }
    ContinuedFields(setup, s, r);
    hide Continued, NextLeg, Callback, PrepareFast, PreflightFrom, Booked, DryAfter, AlignedBids, ValidSetup, Chained,
         EndToEnd.WholeFill, WholeReport, Trades;
  }

  ghost predicate NextIsOutWithin(setup: Setup, t: PaperExchange.Terms, s: Exec, s': Exec, snapshot: Snapshot,
                                  clock: seq<int>, dry: Balances)
  {
    && ExecOnTrack(setup, t, s', snapshot, clock, dry) && s'.legNumber == s.legNumber + 1 && s'.cycle == s.cycle
    && s'.sent == s.sent + [s'.pending.value] && s'.tally == s.tally
  }

  // ------------------------------------------------------------ fill and delivery

  /** The book of the leg that is out. */
  function BookOut(y: System, snapshot: Snapshot): Option<Book> {
    var s := y.world.exec;
    if s.pending.Some? && s.pending.value.symbolIndex < |snapshot| then snapshot[s.pending.value.symbolIndex] else None
  }

  /** The exchange's handler on that book, then the executor's. */
  ghost predicate Rounded(setup: Setup, t: PaperExchange.Terms, y: System, snapshot: Snapshot, y': System)
    requires Trades(setup, t) && Typed(setup, y.world.exec)
  {
    var y1 := PaperSystem.Step(setup, t, y, Fills(BookOut(y, snapshot)));
    Typed(setup, y1.world.exec) && y' == PaperSystem.Step(setup, t, y1, Handler(Delivery(false)))
  }

  lemma StillUntouched(t: PaperExchange.Terms, d: PaperExchange.Desk, path: TradePath, snapshot: Snapshot, i: nat,
                       order: OrderRequest, book: Option<Book>)
    requires PaperExchange.ValidTerms(t) && |path| == LEGS && i < LEGS && Untouched(d, path, snapshot, i)
    requires path[0].index != path[1].index && path[1].index != path[2].index && path[0].index != path[2].index
    requires order.symbolIndex == path[i].index
    ensures Untouched(PaperExchange.Fill(t, d, order, book).0, path, snapshot, i + 1)
  {
    hide PaperExchange.Fill, PaperExchange.UsageFor;
    forall k | i < k < LEGS {
      PaperExchange.OtherSidesStay(t, d, order, book, (path[k].index, path[k].buy),
                                   snapshot[path[k].index].value.updateId);
    }
  }

  /** What the two handlers do, put together. */
  lemma RoundStep(setup: Setup, t: PaperExchange.Terms, y: System, snapshot: Snapshot, clock: seq<int>, dry: Balances,
                  y': System)
    requires OnTrack(setup, t, y, snapshot, clock, dry) && Trades(setup, t) && Typed(setup, y.world.exec)
    requires Rounded(setup, t, y, snapshot, y')
    ensures BookOut(y, snapshot).Some?
    ensures var order, book := y.world.exec.pending.value, BookOut(y, snapshot).value;
            var r := WholeReport(setup, t, order, book);
            && SystemInv(setup, y') && EndToEnd.WholeFill(y.world.exec, order, book, r)
            && y'.world.exec == Callback(setup, y.world.exec, r, false)
            && y'.world.inbox == NewOrders(y.world.exec.sent, y'.world.exec.sent) && y'.world.outbox == []
            && y'.world.delivered == y.world.delivered + [r] && y'.world.base == y.world.base
            && Untouched(y'.desk, y.world.exec.cycle.opportunity.path, snapshot, y.world.exec.legNumber + 1)
  {
    var order := y.world.exec.pending.value;
    PendingFills(setup, t, y, snapshot, clock, dry);
    StillUntouched(t, y.desk, y.world.exec.cycle.opportunity.path, snapshot, y.world.exec.legNumber, order,
                   BookOut(y, snapshot));
    hide ExecOnTrack, Untouched, SystemInv, EndToEnd.WholeFill, PaperExchange.Fill, WholeReport, NewOrders;
    FillStep(setup, t, y, BookOut(y, snapshot));
    PaperSystem.StepKeepsInv(setup, t, y, Fills(BookOut(y, snapshot)));
    var y1 := PaperSystem.Step(setup, t, y, Fills(BookOut(y, snapshot)));
    PaperSystem.StepKeepsInv(setup, t, y1, Handler(Delivery(false)));
    DeliveryStep(setup, t, y1, false);
    hide PaperSystem.Step;
  }

  lemma NextOnTrack(setup: Setup, t: PaperExchange.Terms, y: System, snapshot: Snapshot, clock: seq<int>,
                    dry: Balances, y': System)
    requires SystemInv(setup, y') && NextIsOutWithin(setup, t, y.world.exec, y'.world.exec, snapshot, clock, dry)
    requires y'.world.inbox == NewOrders(y.world.exec.sent, y'.world.exec.sent) && y'.world.base == y.world.base
    requires |y'.world.exec.cycle.opportunity.path| == LEGS
    requires Untouched(y'.desk, y'.world.exec.cycle.opportunity.path, snapshot, y'.world.exec.legNumber)
    requires forall a :: Get(y.world.base, a) >= Opening(y.world.exec, a)
    ensures OnTrack(setup, t, y', snapshot, clock, dry)
  {
    var s, s' := y.world.exec, y'.world.exec;
    assert NewOrders(s.sent, s'.sent) == [s'.pending.value];
    hide SystemInv, ExecOnTrack, Untouched, NewOrders;
    forall a ensures Get(y'.world.base, a) >= Opening(s', a) { assert Opening(s', a) == Opening(s, a); }
  }

  /** The cycle goes on: the next order is out and on track. */
  ghost predicate GoesOn(setup: Setup, t: PaperExchange.Terms, s: Exec, y': System, snapshot: Snapshot, clock: seq<int>)
  {
    var s' := y'.world.exec;
    && s'.legNumber == s.legNumber + 1 && s'.cycle == s.cycle && s'.tally == s.tally
    && s'.pending.Some? && s'.sent == s.sent + [s'.pending.value]
    && exists dry :: OnTrack(setup, t, y', snapshot, clock, dry)
  }

  /** What a round needs of OnTrack. */
  lemma TrackFacts(setup: Setup, t: PaperExchange.Terms, y: System, snapshot: Snapshot, clock: seq<int>, dry: Balances)
    requires OnTrack(setup, t, y, snapshot, clock, dry)
    ensures var s := y.world.exec;
            && SystemInv(setup, y) && Trades(setup, t) && Typed(setup, s) && s.legNumber < LEGS
            && s.pending.Some? && s.sent != [] && s.sent[|s.sent| - 1] == s.pending.value
            && s.pending.value.symbolIndex == s.cycle.opportunity.path[s.legNumber].index < |setup.markets|
               == |snapshot|
            && BookOut(y, snapshot) == snapshot[s.cycle.opportunity.path[s.legNumber].index]
            && BookOut(y, snapshot).Some?
            && ExecOnTrack(setup, t, s, snapshot, clock, dry)
            && forall a :: Get(y.world.base, a) >= Opening(s, a)
  {
    hide WithinDryRun, PreflightFrom, PrepareFast, AlignedBids, Chained, ValidSetup, SentInv, KnownIds;
  }

  /** One round: the order out fills whole, and the cycle is over or goes on. */
  lemma RoundOutcome(setup: Setup, t: PaperExchange.Terms, y: System, snapshot: Snapshot, clock: seq<int>,
                     dry: Balances, y': System)
    requires OnTrack(setup, t, y, snapshot, clock, dry) && Trades(setup, t) && Typed(setup, y.world.exec)
    requires Rounded(setup, t, y, snapshot, y')
    ensures var s, s' := y.world.exec, y'.world.exec;
            && SystemInv(setup, y')
            && FilledWhole(s.pending.value, WholeReport(setup, t, s.pending.value, BookOut(y, snapshot).value))
            && y'.world.delivered
               == y.world.delivered + [WholeReport(setup, t, s.pending.value, BookOut(y, snapshot).value)]
            && ((Over(s, s') && y'.world.inbox == [] && y'.world.outbox == [])
                || GoesOn(setup, t, s, y', snapshot, clock))
  {
    hide OnTrack, Callback, SystemInv, WholeReport, Rounded, DryAfter, Untouched, BookOut, Opening;
    TrackFacts(setup, t, y, snapshot, clock, dry);
    RoundStep(setup, t, y, snapshot, clock, dry, y');
    var s, s' := y.world.exec, y'.world.exec;
    var dry' := DryAfter(setup, s.cycle.opportunity, s.legNumber, dry, snapshot);
    LegOutcome(setup, t, s, snapshot, clock, dry, BookOut(y, snapshot).value);
    if Over(s, s') {
      assert NewOrders(s.sent, s'.sent) == [];
    } else {
      NextOnTrack(setup, t, y, snapshot, clock, dry', y');
    }
  }

  // ------------------------------------------------------------ the whole cycle

  /** The books of the legs from i on, as they stood for preflight, one after the
      other: the exchange's handler on each, then the executor's. */
  function Replay(path: TradePath, snapshot: Snapshot, i: nat): seq<Happening>
    requires |path| == LEGS && forall k :: 0 <= k < LEGS ==> path[k].index < |snapshot|
    decreases LEGS - i
  {
    if i >= LEGS then []
    else [Fills(snapshot[path[i].index]), Handler(Delivery(false))] + Replay(path, snapshot, i + 1)
  }

  /** With nothing out, neither handler has anything to do. */
  lemma {:induction false} QuietReplay(setup: Setup, t: PaperExchange.Terms, y: System, path: TradePath,
                                       snapshot: Snapshot, i: nat)
    requires Trades(setup, t) && SystemInv(setup, y) && y.world.inbox == [] && y.world.outbox == []
    requires |path| == LEGS && forall k :: 0 <= k < LEGS ==> path[k].index < |snapshot|
    ensures PaperSystem.Run(setup, t, y, Replay(path, snapshot, i)) == y
    decreases LEGS - i
  {
    if i < LEGS {
      var fills, deliver := Fills(snapshot[path[i].index]), Handler(Delivery(false));
      NothingToFill(setup, t, y, snapshot[path[i].index]);
      NothingToDeliver(setup, t, y);
      RunTwo(setup, t, y, fills, deliver, Replay(path, snapshot, i + 1));
      QuietReplay(setup, t, y, path, snapshot, i + 1);
    }
  }

  lemma NothingToDeliver(setup: Setup, t: PaperExchange.Terms, y: System)
    requires Trades(setup, t) && Typed(setup, y.world.exec) && y.world.outbox == []
    ensures PaperSystem.Step(setup, t, y, Handler(Delivery(false))) == y
  {}

  lemma RunOne(setup: Setup, t: PaperExchange.Terms, y: System, h: Happening, rest: seq<Happening>)
    requires Trades(setup, t) && SystemInv(setup, y)
    ensures SystemInv(setup, PaperSystem.Step(setup, t, y, h))
    ensures PaperSystem.Run(setup, t, y, [h] + rest)
            == PaperSystem.Run(setup, t, PaperSystem.Step(setup, t, y, h), rest)
  {
    PaperSystem.StepKeepsInv(setup, t, y, h);
    hide PaperSystem.Step, SystemInv;
    assert ([h] + rest)[1..] == rest;
  }

  lemma RunTwo(setup: Setup, t: PaperExchange.Terms, y: System, a: Happening, b: Happening, rest: seq<Happening>)
    requires Trades(setup, t) && SystemInv(setup, y)
    ensures SystemInv(setup, PaperSystem.Step(setup, t, y, a))
    ensures var y' := PaperSystem.Step(setup, t, PaperSystem.Step(setup, t, y, a), b);
            SystemInv(setup, y') && PaperSystem.Run(setup, t, y, [a, b] + rest) == PaperSystem.Run(setup, t, y', rest)
  {
    hide PaperSystem.Step, PaperSystem.Run;
    assert [a, b] + rest == [a] + ([b] + rest);
    RunOne(setup, t, y, a, [b] + rest);
    RunOne(setup, t, PaperSystem.Step(setup, t, y, a), b, rest);
  }

  /** The k-th order out since y got the k-th answer since y: a whole fill. */
  ghost predicate FilledAt(y: System, z: System, k: nat) {
    var i, j := |y.world.exec.sent| - 1 + k, |y.world.delivered| + k;
    0 <= i < |z.world.exec.sent| && j < |z.world.delivered| && FilledWhole(z.world.exec.sent[i], z.world.delivered[j])
  }

  /** From y to z every order out was filled whole, in order, and the cycle ended:
      completed if that was all its legs, and otherwise failed where the next
      order would not have passed the filters. */
  ghost predicate CycleFilled(y: System, z: System) {
    var s, s', filled := y.world.exec, z.world.exec, |z.world.delivered| - |y.world.delivered|;
    && s'.state.Idle? && 1 <= filled && s.legNumber + filled <= LEGS
    && 1 <= |s.sent| && s.sent <= s'.sent && |s'.sent| == |s.sent| - 1 + filled
    && y.world.delivered <= z.world.delivered
    && (forall k :: 0 <= k < filled ==> FilledAt(y, z, k))
    && s'.tally.completed == s.tally.completed + (if s.legNumber + filled == LEGS then 1 else 0)
    && s'.tally.failures == s.tally.failures + (if s.legNumber + filled == LEGS then 0 else 1)
  }

  lemma LastRound(y: System, z: System, r: OrderReport)
    requires y.world.exec.sent != [] && y.world.exec.legNumber < LEGS
    requires y.world.exec.pending == Some(y.world.exec.sent[|y.world.exec.sent| - 1])
    requires z.world.delivered == y.world.delivered + [r] && FilledWhole(y.world.exec.pending.value, r)
    requires Over(y.world.exec, z.world.exec)
    ensures CycleFilled(y, z)
  {}

  lemma OneMoreRound(y: System, y': System, z: System, r: OrderReport)
    requires y.world.exec.sent != [] && y.world.exec.pending == Some(y.world.exec.sent[|y.world.exec.sent| - 1])
    requires y'.world.delivered == y.world.delivered + [r] && FilledWhole(y.world.exec.pending.value, r)
    requires y'.world.exec.legNumber == y.world.exec.legNumber + 1 && y'.world.exec.tally == y.world.exec.tally
    requires y'.world.exec.pending.Some? && y'.world.exec.sent == y.world.exec.sent + [y'.world.exec.pending.value]
    requires CycleFilled(y', z)
    ensures CycleFilled(y, z)
  {
    hide FilledWhole;
    forall k | 0 <= k < |z.world.delivered| - |y.world.delivered| ensures FilledAt(y, z, k) {
      if k == 0 {
        var last := |y.world.exec.sent| - 1;
        assert z.world.exec.sent[last] == y'.world.exec.sent[last] == y.world.exec.sent[last];
        assert z.world.delivered[|y.world.delivered|] == y'.world.delivered[|y.world.delivered|] == r;
      } else {
        assert FilledAt(y', z, k - 1);
      }
    }
  }

  /** The round of the leg that is out, as part of the run. */
  lemma RunRound(setup: Setup, t: PaperExchange.Terms, y: System, snapshot: Snapshot, clock: seq<int>, dry: Balances)
    returns (y': System, r: OrderReport)
    requires OnTrack(setup, t, y, snapshot, clock, dry) && Trades(setup, t)
    ensures var s := y.world.exec;
            var path := s.cycle.opportunity.path;
            && SystemInv(setup, y')
            && PaperSystem.Run(setup, t, y, Replay(path, snapshot, s.legNumber))
               == PaperSystem.Run(setup, t, y', Replay(path, snapshot, s.legNumber + 1))
            && s.sent != [] && s.pending == Some(s.sent[|s.sent| - 1])
            && y'.world.delivered == y.world.delivered + [r] && FilledWhole(s.pending.value, r)
            && ((Over(s, y'.world.exec) && y'.world.inbox == [] && y'.world.outbox == [])
                || GoesOn(setup, t, s, y', snapshot, clock))
  {
    TrackFacts(setup, t, y, snapshot, clock, dry);
    assert ValidPath(setup, y.world.exec.cycle.opportunity.path);
    hide PaperSystem.Step, PaperSystem.Run, WholeReport, FilledWhole, GoesOn, Over, OnTrack, SystemInv, Typed, Trades,
         ExecOnTrack, BookOut;
    var s, path := y.world.exec, y.world.exec.cycle.opportunity.path;
    var book := BookOut(y, snapshot);
    RunTwo(setup, t, y, Fills(book), Handler(Delivery(false)), Replay(path, snapshot, s.legNumber + 1));
    y' := PaperSystem.Step(setup, t, PaperSystem.Step(setup, t, y, Fills(book)), Handler(Delivery(false)));
    assert Rounded(setup, t, y, snapshot, y');
    RoundOutcome(setup, t, y, snapshot, clock, dry, y');
    r := WholeReport(setup, t, s.pending.value, book.value);
  }

  /** While the books stand still, every order of the cycle fills completely. */
  lemma {:induction false} OrdersFillWhole(setup: Setup, t: PaperExchange.Terms, y: System, snapshot: Snapshot,
                                           clock: seq<int>, dry: Balances)
    requires OnTrack(setup, t, y, snapshot, clock, dry) && Trades(setup, t)
    ensures var path := y.world.exec.cycle.opportunity.path;
            CycleFilled(y, PaperSystem.Run(setup, t, y, Replay(path, snapshot, y.world.exec.legNumber)))
    decreases LEGS - y.world.exec.legNumber
  {
    hide SystemInv, PaperSystem.Run, Untouched, FilledWhole, CycleFilled, Trades;
    var s, path := y.world.exec, y.world.exec.cycle.opportunity.path;
    var y', r := RunRound(setup, t, y, snapshot, clock, dry);
    if GoesOn(setup, t, s, y', snapshot, clock) {
      var dry' :| OnTrack(setup, t, y', snapshot, clock, dry');
      hide ExecOnTrack;
      OrdersFillWhole(setup, t, y', snapshot, clock, dry');
      OneMoreRound(y, y', PaperSystem.Run(setup, t, y', Replay(path, snapshot, s.legNumber + 1)), r);
    } else {
      hide OnTrack;
      QuietReplay(setup, t, y', path, snapshot, s.legNumber + 1);
      LastRound(y, y', r);
    }
  }

  // ------------------------------------------------------------ from begin

  lemma BegunFields(setup: Setup, s: Exec, account: Balances, snapshot: Snapshot, clock: seq<int>)
    requires Shape(setup, s) && |snapshot| == |setup.markets| && |clock| == LEGS
    requires Begin(setup, s, account, snapshot, clock, false).sent != s.sent
    ensures s.state.Validating? && !s.stopping && Funded(s, account)
    ensures var s' := Begin(setup, s, account, snapshot, clock, false);
            && s'.legNumber == 0 && s'.holdings == map[USDT := s.cycle.budget] && s'.cycle == s.cycle
            && !s'.waitingGateway && !s'.failed && s'.cycleSubmitted
  {
    hide ValidSetup, PreflightFrom, PrepareFast, SpentAsset;
  }

  /** The conditions under which the cycle that begin starts goes through. */
  ghost predicate CalmMarket(setup: Setup, t: PaperExchange.Terms, y: System, snapshot: Snapshot, clock: seq<int>) {
    && Trades(setup, t) && t.fee == setup.commission && !setup.firstLegStop
    && |snapshot| == |setup.markets| && |clock| == LEGS && Typed(setup, y.world.exec)
    && AlignedBids(setup, y.world.exec.cycle.opportunity.path, snapshot)
    && Untouched(y.desk, y.world.exec.cycle.opportunity.path, snapshot, 0)
  }

  lemma BegunExec(setup: Setup, pairs: seq<Triangles.Pair>, t: PaperExchange.Terms, y: System,
                  snapshot: Snapshot, clock: seq<int>)
    requires SystemInv(setup, y) && Configured(setup, pairs) && CalmMarket(setup, t, y, snapshot, clock)
    requires Begin(setup, y.world.exec, y.world.wallet, snapshot, clock, false).sent != y.world.exec.sent
    ensures var s := y.world.exec;
            ExecOnTrack(setup, t, Begin(setup, s, y.world.wallet, snapshot, clock, false), snapshot, clock,
                        map[USDT := s.cycle.budget])
  {
    var s, w := y.world.exec, y.world.wallet;
    var s' := Begin(setup, s, w, snapshot, clock, false);
    BegunFields(setup, s, w, snapshot, clock);
    KnownPathsChain(setup, pairs, s.cycle.opportunity);
    assert SpentAsset(setup, s.cycle.opportunity.path[0]) == USDT;
    EndToEnd.FirstOrder(setup, s, w, snapshot, clock);
    hide Begin, PreflightFrom, PrepareFast, ValidSetup, Configured, AlignedBids, Untouched, SystemInv;
    FirstWithin(setup, s', s.cycle.budget);
    assert Get(map[USDT := s.cycle.budget], USDT) == s.cycle.budget;
  }

  lemma FirstWithin(setup: Setup, s: Exec, budget: real)
    requires Typed(setup, s) && Chained(setup, s.cycle.opportunity.path) && s.legNumber == 0
    requires s.holdings == map[USDT := budget]
    ensures WithinDryRun(setup, s, map[USDT := budget])
  {
    var path := s.cycle.opportunity.path;
    ChainedAssets(setup, path, 0);
    ChainedAssets(setup, path, 1);
    assert ValidMarket(setup.markets[path[0].index]) && ValidMarket(setup.markets[path[2].index]);
    hide Chained, ValidSetup;
  }

  /** Begin moved the wallet of that moment to the base, and the budget is in it. */
  lemma BegunBase(setup: Setup, t: PaperExchange.Terms, y: System, snapshot: Snapshot, clock: seq<int>)
    requires Trades(setup, t) && SystemInv(setup, y) && |snapshot| == |setup.markets| && |clock| == LEGS
    requires Begin(setup, y.world.exec, y.world.wallet, snapshot, clock, false).sent != y.world.exec.sent
    ensures var y1 := PaperSystem.Step(setup, t, y, Handler(PostedBegin(snapshot, clock, false)));
            && y1.desk == y.desk && y1.world.exec.cycle == y.world.exec.cycle
            && forall a :: Get(y1.world.base, a) >= Opening(y1.world.exec, a)
  {
    BegunFields(setup, y.world.exec, y.world.wallet, snapshot, clock);
    BeginStep(setup, t, y, snapshot, clock, false);
    assert PaperExchange.NonNegative(y.desk.wallet) && y.desk.wallet == y.world.wallet;
    hide Begin, PaperSystem.Step, SystemInv, Trades;
  }

  lemma BegunOnTrack(setup: Setup, pairs: seq<Triangles.Pair>, t: PaperExchange.Terms, y: System,
                     snapshot: Snapshot, clock: seq<int>)
    requires SystemInv(setup, y) && Configured(setup, pairs) && CalmMarket(setup, t, y, snapshot, clock)
    requires Begin(setup, y.world.exec, y.world.wallet, snapshot, clock, false).sent != y.world.exec.sent
    ensures OnTrack(setup, t, PaperSystem.Step(setup, t, y, Handler(PostedBegin(snapshot, clock, false))),
                    snapshot, clock, map[USDT := y.world.exec.cycle.budget])
  {
    BegunExec(setup, pairs, t, y, snapshot, clock);
    BegunState(setup, t, y, snapshot, clock);
    BegunBase(setup, t, y, snapshot, clock);
    BegunFields(setup, y.world.exec, y.world.wallet, snapshot, clock);
    hide Begin, PaperSystem.Step, SystemInv, Untouched, AlignedBids, ExecOnTrack, Trades;
  }

  /** End to end over a whole cycle, in every run of a validated configuration that
      lets cycles pass their first leg: if the books stay as they were checked,
      with nothing taken from them before, and the bids that the first two legs
      sell at are whole ticks, then every order the cycle sends fills completely,
      and it ends completed, or failed where an order would not pass the filters. */
  lemma CyclesFillWhole(setup: Setup, pairs: seq<Triangles.Pair>, t: PaperExchange.Terms, wallet: Balances,
                        hs: seq<Happening>, snapshot: Snapshot, clock: seq<int>)
    requires Trades(setup, t) && PaperExchange.NonNegative(wallet) && Configured(setup, pairs)
    ensures var y := PaperSystem.Run(setup, t, FreshSystem(setup, wallet), hs);
            Typed(setup, y.world.exec)
            && (CalmMarket(setup, t, y, snapshot, clock) ==>
                  var y1 := PaperSystem.Step(setup, t, y, Handler(PostedBegin(snapshot, clock, false)));
                  && SystemInv(setup, y1)
                  && (y1.world.exec.sent != y.world.exec.sent ==>
                        CycleFilled(y1, PaperSystem.Run(setup, t, y1,
                                                        Replay(y.world.exec.cycle.opportunity.path, snapshot, 0)))))
  {
    var y := PaperSystem.Run(setup, t, FreshSystem(setup, wallet), hs);
    PaperSystem.RunKeepsInv(setup, t, FreshSystem(setup, wallet), hs);
    if CalmMarket(setup, t, y, snapshot, clock) { BegunCycleFills(setup, pairs, t, y, snapshot, clock); }
  }

  lemma BegunCycleFills(setup: Setup, pairs: seq<Triangles.Pair>, t: PaperExchange.Terms, y: System,
                        snapshot: Snapshot, clock: seq<int>)
    requires SystemInv(setup, y) && Configured(setup, pairs) && CalmMarket(setup, t, y, snapshot, clock)
    ensures var y1 := PaperSystem.Step(setup, t, y, Handler(PostedBegin(snapshot, clock, false)));
            && SystemInv(setup, y1)
            && (y1.world.exec.sent != y.world.exec.sent ==>
                  CycleFilled(y1, PaperSystem.Run(setup, t, y1,
                                                  Replay(y.world.exec.cycle.opportunity.path, snapshot, 0))))
  {
    var y1 := PaperSystem.Step(setup, t, y, Handler(PostedBegin(snapshot, clock, false)));
    BegunState(setup, t, y, snapshot, clock);
    if y1.world.exec.sent != y.world.exec.sent {
      BegunOnTrack(setup, pairs, t, y, snapshot, clock);
      BegunFields(setup, y.world.exec, y.world.wallet, snapshot, clock);
      hide Begin, PaperSystem.Step, PaperSystem.Run, SystemInv, OnTrack, CycleFilled;
      OrdersFillWhole(setup, t, y1, snapshot, clock, map[USDT := y.world.exec.cycle.budget]);
    }
  }
}
