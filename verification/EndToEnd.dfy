/** The executor and the gateways together: both gateways meet the contract the
    runs of ExecutionRuns rely on, and a first leg that passed preflight is
    filled completely by the simulated exchange on the same book. */
module EndToEnd {
  import opened Basics
  import opened Trading
  import opened Execution
  import opened ExecutionRuns
  import opened PaperExchange
  import opened BinanceExchange
  import opened BinanceRequest

  lemma PaperAnswersLegally(t: Terms, d: Desk, req: OrderRequest, book: Option<Book>)
    requires ValidTerms(t) && req.symbolIndex < |t.markets| && req.clientId !in d.orders
    ensures var (d', r) := Fill(t, d, req, book);
            LegalAnswer(t.markets[req.symbolIndex], d.wallet, req, r, d'.wallet)
  {
    FillOutcome(t, d, req, book);
    forall a { FillBooksItsReport(t, d, req, book, a); }
    hide Fill;
  }

  lemma BinanceAnswersLegally(markets: seq<Market>, l: Ledger, req: OrderRequest, t: Transport)
    requires req.symbolIndex < |markets| && req.clientId !in l.accounted
    ensures var (l', r) := BinanceExchange.Submit(markets, l, req, t);
            LegalAnswer(markets[req.symbolIndex], l.wallet, req, r, l'.wallet)
  {
    forall a { SubmitBooksItsReport(markets, l, req, t, a); }
    SubmitRevision(markets, l, req, t);
    hide BinanceExchange.Submit;
  }

  // ------------------------------------------------------------ from preflight to fill

  lemma CostBound(q: real, raw: real, accepted: real, amount: real, budget: real)
    requires 0.0 < q <= amount && raw <= accepted && 0.0 < accepted && amount * accepted == budget
    ensures q * raw <= budget && q * accepted <= budget
  {
    ScaleLe(q, amount, accepted);
    ScaleLe(raw, accepted, q);
  }

  /** Sizing at the accepted price against sizing at the book's own price. */
  lemma AcceptedBuy(budget: real, raw: real, accepted: real, tick: real, step: real)
    requires tick > 0.0 && step > 0.0
    requires 0.0 < Up(raw, tick) <= accepted && Down(budget / accepted, step) > 0.0
    ensures 0.0 < raw <= accepted
    ensures Down(budget / accepted, step) <= Down(budget / Up(raw, tick), step)
    ensures Down(budget / accepted, step) * raw <= budget
    ensures Down(budget / accepted, step) * accepted <= budget
  {
    UpBounds(raw, tick);
    UpSign(raw, tick);
    hide Up, Down;
    AcceptedCost(budget, raw, accepted, step);
    CheaperBuysMore(budget, Up(raw, tick), accepted, step);
  }

  lemma AcceptedCost(budget: real, raw: real, accepted: real, step: real)
    requires step > 0.0 && raw <= accepted && 0.0 < accepted && Down(budget / accepted, step) > 0.0
    ensures budget > 0.0
    ensures Down(budget / accepted, step) * raw <= budget && Down(budget / accepted, step) * accepted <= budget
  {
    ShareBack(budget, accepted);
    AmountCost(budget / accepted, raw, accepted, step, budget) by { hide Down; }
  }

  lemma ShareBack(budget: real, price: real)
    requires price > 0.0
    ensures budget / price * price == budget
  {}

  lemma AmountCost(amount: real, raw: real, accepted: real, step: real, budget: real)
    requires step > 0.0 && raw <= accepted && 0.0 < accepted && amount * accepted == budget && Down(amount, step) > 0.0
    ensures budget > 0.0 && Down(amount, step) * raw <= budget && Down(amount, step) * accepted <= budget
  {
    DownBounds(amount, step);
    hide Down;
    CostBound(Down(amount, step), raw, accepted, amount, budget);
  }

  lemma UpSign(raw: real, tick: real)
    requires tick > 0.0 && Up(raw, tick) > 0.0
    ensures raw > 0.0
  {
    var n := (-(raw / tick)).Floor;
    if raw <= 0.0 {
      assert raw / tick <= 0.0;
      assert n >= 0;
      ScaleLe(-(n as real), 0.0, tick);
    }
  }

  /** What preflight of leg i says when it passes. */
  lemma PassedLeg(setup: Setup, opp: Opportunity, balances: Balances, snapshot: Snapshot, clock: seq<int>, i: nat)
    requires ValidSetup(setup) && ValidPath(setup, opp.path) && |opp.prices| == LEGS
    requires |snapshot| == |setup.markets| && |clock| == LEGS && i < LEGS
    requires PreflightFrom(setup, opp, balances, snapshot, clock, i).None?
    ensures var leg := opp.path[i];
            var m := setup.markets[leg.index];
            var accepted := Nearest(opp.prices[i], m.tick);
            && snapshot[leg.index].Some? && Execution.Fresh(setup, snapshot[leg.index].value, clock[i])
            && var book := snapshot[leg.index].value;
               var price := BookPrice(m, book, leg.buy);
               var quantity := Sized(leg.buy, Get(balances, SpentAsset(setup, leg)), price, m.step);
               && price > 0.0 && 0.0 < quantity <= QuantityOf(book, leg.buy)
               && (if leg.buy then price <= accepted else price >= accepted)
  {
    hide Nearest, BookPrice, Sized, QuantityOf, ValidSetup;
  }

  /** An order sized with budget of the asset it spends, against a book. */
  ghost predicate Covered(order: OrderRequest, book: Book, budget: real) {
    && 0.0 < order.quantity <= QuantityOf(book, order.buy)
    && PriceOf(book, order.buy) > 0.0
    && (if order.buy then PriceOf(book, true) <= order.price else PriceOf(book, false) >= order.price)
    && (if order.buy then order.quantity * PriceOf(book, true) <= budget && order.quantity * order.price <= budget
        else order.quantity <= budget)
  }

  /** The order begin() sends after preflight passes. */
  lemma FirstOrder(setup: Setup, s: Exec, account: Balances, snapshot: Snapshot, clock: seq<int>)
    requires Typed(setup, s) && |snapshot| == |setup.markets| && |clock| == LEGS
    requires Execution.Begin(setup, s, account, snapshot, clock, false).sent != s.sent
    ensures var s' := Execution.Begin(setup, s, account, snapshot, clock, false);
            var leg := s.cycle.opportunity.path[0];
            var fast := PrepareFast(setup, s.cycle.opportunity, 0,
                                    Get(map[USDT := s.cycle.budget], SpentAsset(setup, leg)));
            && PreflightFrom(setup, s.cycle.opportunity, map[USDT := s.cycle.budget], snapshot, clock, 0).None?
            && fast.Some? && s'.pending == Some(NextOrder(s, leg, fast.value.0, fast.value.1))
            && s'.pending.value.symbolIndex == leg.index && s'.pending.value.buy == leg.buy
            && !s'.pending.value.initialClear
            && s'.pending.value.price == fast.value.0 && s'.pending.value.quantity == fast.value.1
            && s'.state.LegPending? && s'.accounted == EMPTY_REPORT && s'.gatewayBusy && Typed(setup, s')
  {
    hide PrepareFast, PreflightFrom, ValidSetup, SpentAsset;
  }

  /** An order sized for leg i with no more of the spent asset than the dry run
      had there, against the book the dry run used. */
  lemma SizedOrderIsCovered(setup: Setup, opp: Opportunity, i: nat, dry: Balances, amount: real,
                            snapshot: Snapshot, clock: seq<int>, order: OrderRequest)
    requires ValidSetup(setup) && ValidPath(setup, opp.path) && |opp.prices| == LEGS && i < LEGS
    requires |snapshot| == |setup.markets| && |clock| == LEGS
    requires PreflightFrom(setup, opp, dry, snapshot, clock, i).None?
    requires amount <= Get(dry, SpentAsset(setup, opp.path[i]))
    requires PrepareFast(setup, opp, i, amount) == Some((order.price, order.quantity))
    requires order.symbolIndex == opp.path[i].index && order.buy == opp.path[i].buy
    ensures var m := setup.markets[order.symbolIndex];
            && snapshot[order.symbolIndex].Some? && WellFormedOrder(m, order)
            && var book := snapshot[order.symbolIndex].value;
               && Covered(order, book, amount)
               && order.quantity <= Sized(order.buy, Get(dry, SpentAsset(setup, opp.path[i])),
                                          BookPrice(m, book, order.buy), m.step)
  {
    var leg := opp.path[i];
    var m := setup.markets[leg.index];
    PassedLeg(setup, opp, dry, snapshot, clock, i);
    FastOrder(setup, opp, i, amount, order);
    var book := snapshot[leg.index].value;
    hide PreflightFrom, PrepareFast, ValidPath, Down, Up, Nearest, Sized, FilterFailure, WellFormedOrder;
    if leg.buy {
      CoveredBuy(m, book, Get(dry, SpentAsset(setup, leg)), amount, order);
    } else {
      CoveredSell(m, book, Get(dry, SpentAsset(setup, leg)), amount, order);
    }
  }

  /** The fast path's price is the accepted one, its sizes pass the filters. */
  lemma FastOrder(setup: Setup, opp: Opportunity, i: nat, amount: real, order: OrderRequest)
    requires ValidSetup(setup) && ValidPath(setup, opp.path) && |opp.prices| == LEGS && i < LEGS
    requires PrepareFast(setup, opp, i, amount) == Some((order.price, order.quantity))
    requires order.symbolIndex == opp.path[i].index && order.buy == opp.path[i].buy
    ensures var m := setup.markets[order.symbolIndex];
            && order.price == Nearest(opp.prices[i], m.tick) && order.price > 0.0 && order.quantity > 0.0
            && order.quantity == Sized(order.buy, amount, order.price, m.step)
            && WellFormedOrder(m, order)
  {
    var m := setup.markets[order.symbolIndex];
    assert FilterFailure(m, order.price, order.quantity).None?;
    hide PrepareFast, ValidPath;
    MultiplesAreWellFormed(m, order, opp.prices[i], if order.buy then amount / order.price else amount);
  }

  /** A larger amount buys at least as many whole steps at the same price. */
  lemma MoreBuysMore(amount: real, dry: real, price: real, step: real)
    requires amount <= dry && price > 0.0 && step > 0.0
    ensures Down(amount / price, step) <= Down(dry / price, step)
  {
    DownMonotone(amount / price, dry / price, step) by {
      hide Down;
      assert amount / price <= dry / price;
    }
  }

  /** What buying the given amount at the accepted price costs and yields. */
  lemma CoveredAmounts(raw: real, accepted: real, dry: real, amount: real, tick: real, step: real)
    requires tick > 0.0 && step > 0.0 && amount <= dry
    requires 0.0 < Up(raw, tick) <= accepted && Down(amount / accepted, step) > 0.0
    ensures 0.0 < raw <= accepted
    ensures Down(amount / accepted, step) * raw <= amount && Down(amount / accepted, step) * accepted <= amount
    ensures Down(amount / accepted, step) <= Down(dry / Up(raw, tick), step)
  {
    AcceptedBuy(amount, raw, accepted, tick, step);
    MoreBuysMore(amount, dry, Up(raw, tick), step);
    hide Down, Up;
  }

  lemma CoveredBuy(m: Market, book: Book, dry: real, amount: real, order: OrderRequest)
    requires ValidMarket(m) && order.buy && order.price > 0.0 && order.quantity > 0.0 && amount <= dry
    requires order.quantity == Sized(true, amount, order.price, m.step)
    requires 0.0 < BookPrice(m, book, true) <= order.price
    requires Sized(true, dry, BookPrice(m, book, true), m.step) <= QuantityOf(book, true)
    ensures Covered(order, book, amount)
    ensures order.quantity <= Sized(true, dry, BookPrice(m, book, true), m.step)
  {
    hide PriceOf, QuantityOf, Up, Down;
    CoveredAmounts(PriceOf(book, true), order.price, dry, amount, m.tick, m.step);
  }

  lemma CoveredSell(m: Market, book: Book, dry: real, amount: real, order: OrderRequest)
    requires ValidMarket(m) && !order.buy && order.price > 0.0 && order.quantity > 0.0 && amount <= dry
    requires order.quantity == Sized(false, amount, order.price, m.step)
    requires order.price <= BookPrice(m, book, false)
    requires Sized(false, dry, BookPrice(m, book, false), m.step) <= QuantityOf(book, false)
    ensures Covered(order, book, amount)
    ensures order.quantity <= Sized(false, dry, BookPrice(m, book, false), m.step)
  {
    hide PriceOf, QuantityOf, Down;
    DownBounds(PriceOf(book, false), m.tick);
    DownBounds(amount, m.step);
    DownMonotone(amount, dry, m.step);
  }

  lemma MultiplesAreWellFormed(m: Market, order: OrderRequest, scanned: real, amount: real)
    requires ValidMarket(m)
    requires order.price == Nearest(scanned, m.tick) && order.quantity == Down(amount, m.step)
    requires FilterFailure(m, order.price, order.quantity).None?
    ensures WellFormedOrder(m, order)
  {
    DownOfMultiple(order.price, (scanned / m.tick + 0.5).Floor, m.tick);
    DownIdempotent(amount, m.step);
    hide Down, Nearest;
    assert Down(order.price, m.tick) == order.price;
    assert Down(order.quantity, m.step) == order.quantity;
    assert order.price * order.quantity == order.quantity * order.price;
  }

  /** r fills the order on that book and will be accounted. */
  ghost predicate WholeFill(s: Exec, order: OrderRequest, book: Book, r: OrderReport) {
    && FilledWhole(order, r) && r.accountingComplete && r.filledQuote == order.quantity * PriceOf(book, order.buy)
    && Concerns(s, r) && !Refused(s, r)
  }

  /** The pending order of s is covered by its book, and the desk, if it does not
      know the order, would fill it there. */
  ghost predicate FillsOnce(t: Terms, s: Exec, d: Desk, budget: real, snapshot: Snapshot)
    requires ValidTerms(t)
  {
    && s.pending.Some?
    && var order := s.pending.value;
       && order.symbolIndex < |snapshot| && snapshot[order.symbolIndex].Some?
       && var book := snapshot[order.symbolIndex].value;
          && Covered(order, book, budget)
          && (order.clientId !in d.orders && Unconsumed(d, order, book) ==>
                WholeFill(s, order, book, Fill(t, d, order, Some(book)).1))
  }

  /** End to end: whatever the account, snapshot and clock, if begin() sends a
      first order then that order costs at most the budget, is marketable and
      fits the snapshot's best level; and the simulated exchange, on that book,
      unconsumed, with at least the budget in USDT, fills it completely with a
      report the executor accounts. */
  lemma FirstLegFillsWhole(setup: Setup, s: Exec, account: Balances, snapshot: Snapshot, clock: seq<int>, t: Terms,
                           d: Desk)
    requires Typed(setup, s) && |snapshot| == |setup.markets| && |clock| == LEGS
    requires SpentAsset(setup, s.cycle.opportunity.path[0]) == USDT
    requires Execution.Begin(setup, s, account, snapshot, clock, false).sent != s.sent
    requires ValidTerms(t) && t.markets == setup.markets && Get(d.wallet, USDT) >= s.cycle.budget
    ensures FillsOnce(t, Execution.Begin(setup, s, account, snapshot, clock, false), d, s.cycle.budget, snapshot)
  {
    hide Execution.Begin, PrepareFast, PreflightFrom, Fill, WellFormedOrder, PriceOf, QuantityOf, Covered,
         ValidMarket, Concerns, Refused, FilledWhole, UsageFor, WholeFill;
    FirstOrder(setup, s, account, snapshot, clock);
    var s' := Execution.Begin(setup, s, account, snapshot, clock, false);
    var order := s'.pending.value;
    var dry := map[USDT := s.cycle.budget];
    assert Get(dry, USDT) == s.cycle.budget;
    SizedOrderIsCovered(setup, s.cycle.opportunity, 0, dry, s.cycle.budget, snapshot, clock, order);
    SentOrderFills(s', order, snapshot[order.symbolIndex].value, s.cycle.budget, t, d);
  }

  lemma SentOrderFills(s: Exec, order: OrderRequest, book: Book, budget: real, t: Terms, d: Desk)
    requires ValidTerms(t) && order.symbolIndex < |t.markets| && !order.initialClear
    requires WellFormedOrder(t.markets[order.symbolIndex], order) && Covered(order, book, budget)
    requires Get(d.wallet, PaperExchange.Spent(t.markets[order.symbolIndex], order)) >= budget
    requires s.pending == Some(order) && s.state.LegPending? && s.accounted == EMPTY_REPORT
    ensures order.clientId !in d.orders && Unconsumed(d, order, book) ==>
              WholeFill(s, order, book, Fill(t, d, order, Some(book)).1)
  {
    hide Fill, WellFormedOrder, PriceOf, Covered, FairReport, Unconsumed;
    if order.clientId !in d.orders && Unconsumed(d, order, book) {
      CoveredOrderFills(t, d, order, book, budget);
      FillOutcome(t, d, order, Some(book));
      WholeFillIsAccounted(s, order, book, d, Fill(t, d, order, Some(book)).1);
    }
  }

  ghost predicate Unconsumed(d: Desk, order: OrderRequest, book: Book) {
    UsageFor(d.consumed, (order.symbolIndex, order.buy), book.updateId).used == 0.0
  }

  lemma WholeFillIsAccounted(s: Exec, order: OrderRequest, book: Book, d: Desk, r: OrderReport)
    requires s.pending == Some(order) && s.state.LegPending? && s.accounted == EMPTY_REPORT
    requires FairReport(d, order, Some(book), r) && FilledWhole(order, r)
    ensures Concerns(s, r) && !Refused(s, r) && r.accountingComplete
  {
    hide PriceOf, QuoteFor;
  }

  lemma CoveredOrderFills(t: Terms, d: Desk, order: OrderRequest, book: Book, budget: real)
    requires ValidTerms(t) && order.symbolIndex < |t.markets| && order.clientId !in d.orders && !order.initialClear
    requires WellFormedOrder(t.markets[order.symbolIndex], order) && Covered(order, book, budget)
    requires Get(d.wallet, PaperExchange.Spent(t.markets[order.symbolIndex], order)) >= budget
    requires Unconsumed(d, order, book)
    ensures var r := Fill(t, d, order, Some(book)).1;
            FilledWhole(order, r) && r.filledQuote == order.quantity * PriceOf(book, order.buy)
  {
    hide WellFormedOrder, PriceOf, QuantityOf, Fill;
    if order.buy {
      assert PriceOf(book, order.buy) == PriceOf(book, true) && QuantityOf(book, order.buy) == QuantityOf(book, true);
    }
    FillsWhenCovered(t, d, order, book);
  }
}
