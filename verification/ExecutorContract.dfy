/** What the executor's handlers do, in terms of prices on the tick grid, order
    sizes on the step grid, statuses and counters, without the functions that
    compute them; and that the handlers do it. */
module ExecutorContract {
  import opened Basics
  import opened Trading
  import opened Execution
  import opened ExecutorInvariant

  // ------------------------------------------------------------ an order for a leg

  /** The largest whole number of steps that amount pays for at this price, or
      that it is worth when sold. */
  ghost predicate LargestSize(quantity: real, amount: real, price: real, buy: bool, step: real) {
    && OnGrid(quantity, step)
    && (if buy then quantity * price <= amount < (quantity + step) * price
        else quantity <= amount < quantity + step)
  }

  /** The order that the fast path has for the current leg: the scanned price on
      the tick grid, everything held of the asset to spend, within the filters. */
  ghost predicate CalledFor(setup: Setup, s: Exec, order: OrderRequest)
    requires Typed(setup, s)
  {
    s.legNumber < LEGS
    && var leg := s.cycle.opportunity.path[s.legNumber];
       var m := setup.markets[leg.index];
       && order.symbolIndex == leg.index && order.buy == leg.buy && !order.initialClear
       && order.clientId == ClientId(s.cycle.wall, s.cycle.number, s.orderNumber + 1)
       && RoundedNear(order.price, s.cycle.opportunity.prices[s.legNumber], m.tick)
       && (order.price > 0.0 ==>
             LargestSize(order.quantity, Get(s.holdings, if leg.buy then m.quote else m.base), order.price, leg.buy,
                         m.step))
       && PassesFilters(m, order.price, order.quantity)
  }

  lemma SizedIsLargest(buy: bool, amount: real, price: real, step: real)
    requires step > 0.0 && price > 0.0
    ensures LargestSize(Sized(buy, amount, price, step), amount, price, buy, step)
  {
    if buy {
      var q := amount / price;
      assert q * price == amount;
      DownBounds(q, step);
      BoughtWithin(Down(q, step), q, step, price, amount);
    } else {
      DownBounds(amount, step);
    }
  }

  lemma BoughtWithin(n: real, q: real, step: real, price: real, amount: real)
    requires price > 0.0 && q * price == amount && n <= q < n + step
    ensures n * price <= amount < (n + step) * price
  {
    ScaleLe(n, q, price);
    var rest := n + step - q;
    PositiveTimes(rest, price);
    SumTimes(rest, q, price);
    assert n + step == rest + q;
  }

  lemma PositiveTimes(x: real, y: real)
    requires x > 0.0 && y > 0.0
    ensures x * y > 0.0
  {}

  lemma SumTimes(x: real, y: real, z: real)
    ensures (x + y) * z == x * z + y * z
  {}

  lemma OneLargestSize(x: real, y: real, amount: real, price: real, buy: bool, step: real)
    requires step > 0.0 && price > 0.0
    requires LargestSize(x, amount, price, buy, step) && LargestSize(y, amount, price, buy, step)
    ensures x == y
  {
    if x < y {
      GridGap(x, y, step);
      ScaleLe(x + step, y, price);
    }
    if y < x {
      GridGap(y, x, step);
      ScaleLe(y + step, x, price);
    }
  }

  /** The fast path finds an order exactly when there is one. */
  lemma FastIsCalledFor(setup: Setup, s: Exec, order: OrderRequest)
    requires Typed(setup, s) && s.legNumber < LEGS
    ensures var leg := s.cycle.opportunity.path[s.legNumber];
            var fast := PrepareFast(setup, s.cycle.opportunity, s.legNumber, Get(s.holdings, SpentAsset(setup, leg)));
            CalledFor(setup, s, order) <==> fast.Some? && order == NextOrder(s, leg, fast.value.0, fast.value.1)
  {
    var leg := s.cycle.opportunity.path[s.legNumber];
    var m := setup.markets[leg.index];
    var amount := Get(s.holdings, SpentAsset(setup, leg));
    var price := Nearest(s.cycle.opportunity.prices[s.legNumber], m.tick);
    var quantity := Sized(leg.buy, amount, price, m.step);
    assert ValidMarket(m);
    NearestBounds(s.cycle.opportunity.prices[s.legNumber], m.tick);
    RoundedOnce(order.price, price, s.cycle.opportunity.prices[s.legNumber], m.tick);
    FiltersMean(m, price, quantity);
    if price > 0.0 {
      SizedIsLargest(leg.buy, amount, price, m.step);
      if order.price == price && LargestSize(order.quantity, amount, price, leg.buy, m.step) {
        OneLargestSize(order.quantity, quantity, amount, price, leg.buy, m.step);
      }
    }
    hide Nearest, Sized, FilterFailure, RoundedNear, LargestSize, ValidSetup;
  }

  // ------------------------------------------------------------ the end of a cycle

  /** The cycle is over, one more failure counted, nothing sent. */
  ghost predicate EndsFailed(s: Exec, after: Exec) {
    && after.state.Idle? && after.pending.None? && after.sent == s.sent
    && after.tally == s.tally.(failures := s.tally.failures + 1)
  }

  ghost predicate EndsCompleted(s: Exec, after: Exec) {
    && after.state.Idle? && after.pending.None? && after.sent == s.sent
    && after.tally == s.tally.(completed := s.tally.completed + 1)
  }

  /** One order is handed to the gateway and pending; the cycle counts as
      submitted from its first order on. */
  ghost predicate Submits(s: Exec, order: OrderRequest, after: Exec) {
    && after.state.LegPending? && after.pending == Some(order) && after.gatewayBusy && after.sent == s.sent + [order]
    && after.accounted == EMPTY_REPORT && after.orderNumber == s.orderNumber + 1 && after.legNumber == s.legNumber
    && after.holdings == s.holdings && after.cycle == s.cycle && after.cycleSubmitted
    && after.tally == s.tally.(submittedCycles := s.tally.submittedCycles + if s.cycleSubmitted then 0 else 1)
  }

  /** What the step to leg legNumber comes to. */
  ghost predicate Advances(setup: Setup, s: Exec, submitThrows: bool, after: Exec)
    requires Typed(setup, s)
  {
    if s.legNumber == LEGS then EndsCompleted(s, after)
    else if submitThrows || forall order :: !CalledFor(setup, s, order) then EndsFailed(s, after)
    else exists order :: CalledFor(setup, s, order) && Submits(s, order, after)
  }

  lemma SendSubmits(s: Exec, order: OrderRequest)
    requires !s.failed && !s.waitingGateway
    ensures Submits(s, order, Send(s, order, false)) && EndsFailed(s, Send(s, order, true))
  {}

  lemma NextLegAdvances(setup: Setup, s: Exec, submitThrows: bool)
    requires Typed(setup, s) && !s.failed && !s.waitingGateway
    ensures Advances(setup, s, submitThrows, NextLeg(setup, s, submitThrows))
  {
    hide PrepareFast, CalledFor, ValidSetup, NextOrder, Send;
    if s.legNumber < LEGS {
      var leg := s.cycle.opportunity.path[s.legNumber];
      var fast := PrepareFast(setup, s.cycle.opportunity, s.legNumber, Get(s.holdings, SpentAsset(setup, leg)));
      forall order ensures CalledFor(setup, s, order)
                      <==> fast.Some? && order == NextOrder(s, leg, fast.value.0, fast.value.1)
      {
        FastIsCalledFor(setup, s, order);
      }
      if fast.Some? {
        var order := NextOrder(s, leg, fast.value.0, fast.value.1);
        SendSubmits(s, order);
        assert CalledFor(setup, s, order);
      }
    }
  }

  // ------------------------------------------------------------ the dry run

  /** What the dry run says of legs i and later: the first leg that fails, with
      what is wrong with it, or nothing. */
  ghost predicate Tells(setup: Setup, opp: Opportunity, balances: Balances, snapshot: Snapshot, clock: seq<int>,
                        i: nat, verdict: Option<(nat, Refusal)>)
    requires ValidSetup(setup) && ValidPath(setup, opp.path) && |opp.prices| == LEGS
    requires |snapshot| == |setup.markets| && |clock| == LEGS && i <= LEGS
    decreases LEGS - i, 1
  {
    if i == LEGS then verdict.None?
    else
      match snapshot[opp.path[i].index]
      case None => verdict == Some((i, MissingOrderbook))
      case Some(book) =>
        if !(book.receivedNs > 0 && 0 <= clock[i] - book.receivedNs <= setup.maxBookAgeNs)
        then verdict == Some((i, StaleOrderbook))
        else exists price, quantity, accepted ::
               && DryPrices(setup, opp, balances, book, i, price, quantity, accepted)
               && DryLeg(setup, opp, balances, snapshot, clock, i, book, price, quantity, accepted, verdict)
  }

  /** The book's price on the tick grid, to the trader's disadvantage; what the
      balances pay for; and the scanned price on the tick grid. */
  ghost predicate DryPrices(setup: Setup, opp: Opportunity, balances: Balances, book: Book, i: nat, price: real,
                            quantity: real, accepted: real)
    requires ValidPath(setup, opp.path) && |opp.prices| == LEGS && i < LEGS
  {
    var leg := opp.path[i];
    var m := setup.markets[leg.index];
    && (if leg.buy then RoundedUp(price, PriceOf(book, true), m.tick)
        else RoundedDown(price, PriceOf(book, false), m.tick))
    && (price > 0.0 ==>
          LargestSize(quantity, Get(balances, if leg.buy then m.quote else m.base), price, leg.buy, m.step))
    && RoundedNear(accepted, opp.prices[i], m.tick)
  }

  /** The leg is filtered, too large for the level, worse than accepted, or done
      with the proceeds less the commission. */
  ghost predicate DryLeg(setup: Setup, opp: Opportunity, balances: Balances, snapshot: Snapshot, clock: seq<int>,
                         i: nat, book: Book, price: real, quantity: real, accepted: real,
                         verdict: Option<(nat, Refusal)>)
    requires ValidSetup(setup) && ValidPath(setup, opp.path) && |opp.prices| == LEGS
    requires |snapshot| == |setup.markets| && |clock| == LEGS && i < LEGS
    decreases LEGS - i, 0
  {
    var leg := opp.path[i];
    var m := setup.markets[leg.index];
    var kept := 1.0 - setup.commission;
    if !PassesFilters(m, price, quantity) then
      && verdict.Some? && verdict.value.0 == i && verdict.value.1.FilterRefusal?
      && FirstFault(m, price, quantity, verdict.value.1.code)
    else if quantity > QuantityOf(book, leg.buy) then verdict == Some((i, InsufficientTopLevelLiquidity))
    else if (if leg.buy then price > accepted else price < accepted) then verdict == Some((i, PriceWorsened))
    else if leg.buy then
      Tells(setup, opp, Credit(Credit(balances, m.quote, -(price * quantity)), m.base, quantity * kept),
            snapshot, clock, i + 1, verdict)
    else
      Tells(setup, opp, Credit(Credit(balances, m.base, -quantity), m.quote, quantity * price * kept),
            snapshot, clock, i + 1, verdict)
  }

  lemma BookPrices(setup: Setup, opp: Opportunity, balances: Balances, book: Book, i: nat)
    requires ValidSetup(setup) && ValidPath(setup, opp.path) && |opp.prices| == LEGS && i < LEGS
    ensures var leg := opp.path[i];
            var m := setup.markets[leg.index];
            var price := BookPrice(m, book, leg.buy);
            DryPrices(setup, opp, balances, book, i, price,
                      Sized(leg.buy, Get(balances, SpentAsset(setup, leg)), price, m.step),
                      Nearest(opp.prices[i], m.tick))
  {
    var leg := opp.path[i];
    var m := setup.markets[leg.index];
    var price := BookPrice(m, book, leg.buy);
    UpBounds(PriceOf(book, true), m.tick);
    DownBounds(PriceOf(book, false), m.tick);
    NearestBounds(opp.prices[i], m.tick);
    if price > 0.0 { SizedIsLargest(leg.buy, Get(balances, SpentAsset(setup, leg)), price, m.step); }
    hide Sized, Nearest, LargestSize, Up, Down, PriceOf, RoundedDown, RoundedUp, RoundedNear;
  }

  /** One leg of the dry run, given what it says of the later ones. */
  lemma PreflightLeg(setup: Setup, opp: Opportunity, balances: Balances, snapshot: Snapshot, clock: seq<int>, i: nat,
                     book: Book, price: real, quantity: real)
    requires ValidSetup(setup) && ValidPath(setup, opp.path) && |opp.prices| == LEGS
    requires |snapshot| == |setup.markets| && |clock| == LEGS && i < LEGS
    requires snapshot[opp.path[i].index] == Some(book) && Execution.Fresh(setup, book, clock[i])
    requires var leg := opp.path[i];
             var m := setup.markets[leg.index];
             var next := Simulated(m, balances, leg.buy, price, quantity, 1.0 - setup.commission);
             && price == BookPrice(m, book, leg.buy)
             && quantity == Sized(leg.buy, Get(balances, SpentAsset(setup, leg)), price, m.step)
             && Tells(setup, opp, next, snapshot, clock, i + 1, PreflightFrom(setup, opp, next, snapshot, clock, i + 1))
    ensures DryLeg(setup, opp, balances, snapshot, clock, i, book, price, quantity,
                   Nearest(opp.prices[i], setup.markets[opp.path[i].index].tick),
                   PreflightFrom(setup, opp, balances, snapshot, clock, i))
  {
    FiltersMean(setup.markets[opp.path[i].index], price, quantity);
    hide BookPrice, Sized, Nearest, FilterFailure, PassesFilters, FirstFault, QuantityOf, ValidSetup, Tells;
  }

  lemma {:induction false} PreflightTells(setup: Setup, opp: Opportunity, balances: Balances, snapshot: Snapshot,
                                          clock: seq<int>, i: nat)
    requires ValidSetup(setup) && ValidPath(setup, opp.path) && |opp.prices| == LEGS
    requires |snapshot| == |setup.markets| && |clock| == LEGS && i <= LEGS
    ensures Tells(setup, opp, balances, snapshot, clock, i, PreflightFrom(setup, opp, balances, snapshot, clock, i))
    decreases LEGS - i
  {
    hide DryPrices, DryLeg, BookPrice, Sized, Nearest, Simulated, FilterFailure, QuantityOf;
    if i < LEGS && snapshot[opp.path[i].index].Some? {
      var leg, book := opp.path[i], snapshot[opp.path[i].index].value;
      var m := setup.markets[leg.index];
      var price := BookPrice(m, book, leg.buy);
      var quantity := Sized(leg.buy, Get(balances, SpentAsset(setup, leg)), price, m.step);
      BookPrices(setup, opp, balances, book, i);
      if Execution.Fresh(setup, book, clock[i]) {
        PreflightTells(setup, opp, Simulated(m, balances, leg.buy, price, quantity, 1.0 - setup.commission),
                       snapshot, clock, i + 1);
        PreflightLeg(setup, opp, balances, snapshot, clock, i, book, price, quantity);
      }
    }
  }

  // ------------------------------------------------------------ the handlers

  ghost predicate Begins(setup: Setup, s: Exec, account: Balances, snapshot: Snapshot, clock: seq<int>,
                         submitThrows: bool, after: Exec)
    requires Typed(setup, s) && |snapshot| == |setup.markets| && |clock| == LEGS
  {
    var funds := map["USDT" := s.cycle.budget];
    if !s.state.Validating? || s.stopping then after == s
    else if "USDT" !in account || account["USDT"] < s.cycle.budget then EndsFailed(s, after)
    else exists verdict ::
           && Tells(setup, s.cycle.opportunity, funds, snapshot, clock, 0, verdict)
           && (if verdict.Some? then EndsFailed(s, after)
               else Advances(setup, s.(holdings := funds, legNumber := 0), submitThrows, after))
  }

  lemma BeginBegins(setup: Setup, s: Exec, account: Balances, snapshot: Snapshot, clock: seq<int>, submitThrows: bool)
    requires Shape(setup, s) && |snapshot| == |setup.markets| && |clock| == LEGS
    ensures Begins(setup, s, account, snapshot, clock, submitThrows,
                   Begin(setup, s, account, snapshot, clock, submitThrows))
  {
    hide ValidSetup, Tells, PreflightFrom, NextLeg, Advances;
    if s.state.Validating? && !s.stopping {
      var funds := map[USDT := s.cycle.budget];
      PreflightTells(setup, s.cycle.opportunity, funds, snapshot, clock, 0);
      NextLegAdvances(setup, s.(holdings := funds, legNumber := 0), submitThrows);
    }
  }

  /** A whole fill, with its fees known. */
  ghost predicate WholeAndKnown(req: OrderRequest, value: OrderReport) {
    value.status == Filled && value.filledQty == req.quantity && value.accountingComplete
  }

  /** What an answer, once booked, does to the cycle, status by status. */
  ghost predicate Settles(setup: Setup, s: Exec, value: OrderReport, submitThrows: bool, after: Exec)
    requires Typed(setup, s) && s.pending.Some?
  {
    if s.waitingGateway then after.state.Idle? && after.pending.None? && after.sent == s.sent && after.tally == s.tally
    else match value.status
      case Open | PartiallyFilled =>
        && after.state.LegPending? && after.pending == s.pending && after.accounted == s.accounted
        && after.sent == s.sent && after.tally == s.tally
      case Canceled | Expired | Rejected => EndsFailed(s, after)
      case Filled =>
        if !WholeAndKnown(s.pending.value, value) || (setup.firstLegStop && s.legNumber == 0) then EndsFailed(s, after)
        else Advances(setup, s.(pending := None, legNumber := s.legNumber + 1), submitThrows, after)
      case Unknown => false
  }

  /** What any answer does. */
  ghost predicate Decides(setup: Setup, s: Exec, value: OrderReport, submitThrows: bool, after: Exec)
    requires Typed(setup, s)
  {
    if s.pending.None? || value.clientId != s.pending.value.clientId then after == s
    else if s.state.Halted? || value.revision <= s.accounted.revision then after == s.(gatewayBusy := false)
    else if value.status == Unknown || value.filledQty < s.accounted.filledQty
            || s.pending.value.quantity < value.filledQty || value.filledQuote < s.accounted.filledQuote then
      && after.state.Idle? && after.pending.None? && after.sent == s.sent && after.holdings == s.holdings
      && after.tally == s.tally.(failures := s.tally.failures + if s.waitingGateway then 0 else 1)
    else
      && BooksTo(s.pending.value, setup.markets[s.pending.value.symbolIndex], value, s.accounted,
                 s.holdings, after.holdings)
      && Settles(setup, s.(gatewayBusy := false, accounted := value, holdings := after.holdings), value, submitThrows,
                 after)
  }

  lemma ConcludeSettles(setup: Setup, s: Exec, value: OrderReport, submitThrows: bool)
    requires Typed(setup, s) && s.state.LegPending? && s.pending.Some? && !s.gatewayBusy
    requires !value.status.Unknown? && (s.failed ==> s.waitingGateway)
    ensures Settles(setup, s, value, submitThrows, Conclude(setup, s, value, submitThrows))
    ensures Conclude(setup, s, value, submitThrows).holdings == s.holdings
  {
    hide ValidSetup, NextLeg, Advances;
    var next := s.(pending := None, legNumber := s.legNumber + 1);
    if !s.waitingGateway && WholeAndKnown(s.pending.value, value) && !(setup.firstLegStop && s.legNumber == 0) {
      NextLegAdvances(setup, next, submitThrows);
      NextLegKeepsHoldings(setup, next, submitThrows);
    }
  }

  lemma NextLegKeepsHoldings(setup: Setup, s: Exec, submitThrows: bool)
    requires Typed(setup, s)
    ensures NextLeg(setup, s, submitThrows).holdings == s.holdings
  {
    forall order: OrderRequest ensures Send(s, order, submitThrows).holdings == s.holdings {
      SendKeepsHoldings(s, order, submitThrows);
    }
    hide ValidSetup, ValidPath, PrepareFast, NextOrder, Get, SpentAsset, Send;
  }

  lemma SendKeepsHoldings(s: Exec, order: OrderRequest, submitThrows: bool)
    ensures Send(s, order, submitThrows).holdings == s.holdings
  {}

  lemma AccountIs(setup: Setup, s: Exec, value: OrderReport)
    requires Typed(setup, s) && s.pending.Some?
    ensures var m := setup.markets[s.pending.value.symbolIndex];
            Account(setup, s, value)
              == s.(holdings := Booked(s.holdings, s.pending.value, m, value, s.accounted), accounted := value)
  {
    hide Booked;
  }

  lemma CallbackDecides(setup: Setup, s: Exec, value: OrderReport, submitThrows: bool)
    requires Shape(setup, s)
    ensures Decides(setup, s, value, submitThrows, Callback(setup, s, value, submitThrows))
  {
    hide ValidSetup, ValidPath, Settles, Conclude, Account, BooksTo, Booked;
    var s0 := s.(gatewayBusy := false);
    if s.pending.Some? && Concerns(s0, value) && value.clientId == s.pending.value.clientId && !Refused(s0, value) {
      AccountIs(setup, s0, value);
      BookedBooksTo(s.pending.value, setup.markets[s.pending.value.symbolIndex], value, s.accounted, s.holdings);
      ConcludeSettles(setup, Account(setup, s0, value), value, submitThrows);
    }
  }

  lemma ReportDecides(setup: Setup, s: Exec, value: OrderReport, submitThrows: bool)
    requires Shape(setup, s) && !s.gatewayBusy
    ensures Decides(setup, s, value, submitThrows, Report(setup, s, value, submitThrows))
  {
    assert Typed(setup, s) && s.(gatewayBusy := false) == s;
    CallbackDecides(setup, s, value, submitThrows);
    hide Shape, Typed, Decides;
    if s.pending.None? || value.clientId != s.pending.value.clientId { IgnoredReport(setup, s, value, submitThrows); }
    hide Report;
  }

  /** A timeout: the cycle has failed, once; its slot is kept while a request is out. */
  ghost predicate TimesOut(s: Exec, after: Exec) {
    if s.state.Idle? || s.state.Halted? then after == s
    else
      after == s.(failed := true, waitingGateway := s.gatewayBusy,
                  state := if s.gatewayBusy then s.state else Idle,
                  pending := if s.gatewayBusy then s.pending else None,
                  tally := s.tally.(failures := s.tally.failures + if s.waitingGateway then 0 else 1))
  }

  ghost predicate Stops(s: Exec, after: Exec) {
    if s.state.Idle? || s.state.Halted? then after == s.(stopping := true)
    else
      after == s.(stopping := true, state := Halted, tally := s.tally.(failures := s.tally.failures + 1))
  }

  /** A candidate is taken when idle, not stopping, below the cap on submitted
      cycles, for an amount within the limit and on a path of its group. */
  ghost predicate Takes(setup: Setup, s: Exec, c: Opportunity) {
    && s.state.Idle? && !s.stopping && (setup.maxCycles == 0 || s.tally.submittedCycles < setup.maxCycles)
    && c.groupIndex < |setup.groups| && 0.0 < c.inputUsdt <= setup.maxArbitrage
    && exists k :: 0 <= k < |setup.groups[c.groupIndex].paths| && setup.groups[c.groupIndex].paths[k] == c.path
  }

  /** A taken candidate's input is the budget of a cycle that starts afresh; a
      refused one moves the counter of its reason, if it has one. */
  ghost predicate Starts(setup: Setup, s: Exec, c: Opportunity, wall: int, taken: bool, after: Exec) {
    && (taken <==> Takes(setup, s, c))
    && (taken ==>
          after == s.(state := Validating, failed := false, cycleSubmitted := false, pending := None, holdings := map[],
                      legNumber := 0, orderNumber := 0, cycle := Cycle(wall, s.cycle.number + 1, c, c.inputUsdt),
                      tally := s.tally.(accepted := s.tally.accepted + 1)))
    && (!taken ==>
          after == s.(tally :=
            if !s.state.Idle? || s.stopping then s.tally.(rejectedBusy := s.tally.rejectedBusy + 1)
            else if setup.maxCycles != 0 && setup.maxCycles <= s.tally.submittedCycles
            then s.tally.(rejectedLimit := s.tally.rejectedLimit + 1)
            else s.tally))
  }

  lemma StartStarts(setup: Setup, s: Exec, c: Opportunity, wall: int)
    ensures var (after, taken) := Start(setup, s, c, wall); Starts(setup, s, c, wall, taken, after)
  {
    hide Occupied;
    assert Occupied(s, c, wall)
        == s.(state := Validating, failed := false, cycleSubmitted := false, pending := None, holdings := map[],
              legNumber := 0, orderNumber := 0, cycle := Cycle(wall, s.cycle.number + 1, c, c.inputUsdt),
              tally := s.tally.(accepted := s.tally.accepted + 1)) by { OccupiedIs(s, c, wall); }
  }

  lemma OccupiedIs(s: Exec, c: Opportunity, wall: int)
    ensures Occupied(s, c, wall)
        == s.(state := Validating, failed := false, cycleSubmitted := false, pending := None, holdings := map[],
              legNumber := 0, orderNumber := 0, cycle := Cycle(wall, s.cycle.number + 1, c, c.inputUsdt),
              tally := s.tally.(accepted := s.tally.accepted + 1))
  {}

  lemma TimeoutAndStop(s: Exec)
    ensures TimesOut(s, Timeout(s)) && Stops(s, Stop(s))
  {}
}
