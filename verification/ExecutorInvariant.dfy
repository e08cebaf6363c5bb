/** What holds of the executor's fields between any two handlers, and how each
    handler keeps it, whatever the gateway reports. */
module ExecutorInvariant {
  import opened Basics
  import opened Trading
  import opened Execution

  /** 1 while the current cycle has neither completed nor been counted as failed. */
  function OpenCycles(s: Exec): nat {
    if (s.state.Validating? || s.state.LegPending?) && !s.waitingGateway then 1 else 0
  }

  /** A halt that hits a cycle already counted as failed counts it again. */
  function HaltSurplus(s: Exec): nat {
    if s.state.Halted? && s.waitingGateway then 1 else 0
  }

  ghost predicate Shape(setup: Setup, s: Exec) {
    && Typed(setup, s)
    && (s.state.Idle? ==> s.pending.None? && !s.gatewayBusy && !s.waitingGateway)
    && (s.state.Validating? ==> s.pending.None? && !s.gatewayBusy && !s.waitingGateway && !s.cycleSubmitted
                                && s.orderNumber == 0 && s.legNumber == 0 && !s.failed)
    && (s.state.LegPending? ==> s.pending.Some? && s.cycleSubmitted && (s.failed ==> s.waitingGateway))
    && (s.gatewayBusy ==> s.pending.Some? && s.accounted == EMPTY_REPORT)
    && (s.waitingGateway ==> s.pending.Some?)
    && (s.pending.Some? ==>
          && s.pending.value.clientId == ClientId(s.cycle.wall, s.cycle.number, s.orderNumber)
          && !s.pending.value.initialClear
          && s.orderNumber == s.legNumber + 1
          && s.pending.value.symbolIndex == s.cycle.opportunity.path[s.legNumber].index
          && s.pending.value.buy == s.cycle.opportunity.path[s.legNumber].buy)
  }

  ghost predicate Counts(setup: Setup, s: Exec) {
    && s.tally.accepted + HaltSurplus(s) == s.tally.completed + s.tally.failures + OpenCycles(s)
    && (setup.maxCycles != 0 ==> s.tally.submittedCycles <= setup.maxCycles)
    && (setup.maxCycles != 0 && s.state.Validating? ==> s.tally.submittedCycles < setup.maxCycles)
    && s.tally.submittedCycles <= s.tally.accepted
    && (s.state.Validating? ==> s.tally.submittedCycles < s.tally.accepted)
    && (setup.firstLegStop ==> s.tally.completed == 0 && s.legNumber == 0)
  }

  // ------------------------------------------------------------ steps inside a handler

  /** Send and NextLeg, seen from a state with no order in flight. */
  ghost predicate Between(setup: Setup, s: Exec) {
    && Typed(setup, s) && s.pending.None? && !s.gatewayBusy && !s.waitingGateway && !s.failed
    && s.orderNumber == s.legNumber
    && (s.state.Validating? || (s.state.LegPending? && s.cycleSubmitted))
    && (s.state.Validating? ==> !s.cycleSubmitted && s.legNumber == 0)
  }

  /** The cycle still owes its outcome to the counters. */
  ghost predicate Owing(setup: Setup, s: Exec) {
    && s.tally.accepted == s.tally.completed + s.tally.failures + 1
    && (setup.maxCycles != 0 ==> s.tally.submittedCycles <= setup.maxCycles)
    && (setup.maxCycles != 0 && !s.cycleSubmitted ==> s.tally.submittedCycles < setup.maxCycles)
    && s.tally.submittedCycles <= s.tally.accepted
    && (!s.cycleSubmitted ==> s.tally.submittedCycles < s.tally.accepted)
    && (setup.firstLegStop ==> s.tally.completed == 0 && s.legNumber == 0)
  }

  /** After NextLeg either one more order is in flight, or the cycle is over. */
  ghost predicate Advanced(s: Exec, after: Exec) {
    && after.holdings == s.holdings && after.cycle == s.cycle && s.orderNumber <= after.orderNumber
    && (|| (after.state.Idle? && after.sent == s.sent && after.pending.None? && !after.gatewayBusy
            && !after.waitingGateway)
        || (after.state.LegPending? && after.gatewayBusy && after.pending.Some?
            && after.sent == s.sent + [after.pending.value]
            && after.pending.value.clientId == ClientId(s.cycle.wall, s.cycle.number, s.orderNumber + 1)
            && after.accounted == EMPTY_REPORT))
  }

  lemma SendEffect(setup: Setup, s: Exec, price: real, quantity: real, throws: bool)
    requires Between(setup, s) && Owing(setup, s) && s.legNumber < LEGS
    ensures var after := Send(s, NextOrder(s, s.cycle.opportunity.path[s.legNumber], price, quantity), throws);
            Shape(setup, after) && Counts(setup, after) && Advanced(s, after)
  {
    hide ValidSetup;
  }

  lemma NextLegEffect(setup: Setup, s: Exec, throws: bool)
    requires Between(setup, s) && Owing(setup, s)
    ensures var after := NextLeg(setup, s, throws);
            Shape(setup, after) && Counts(setup, after) && Advanced(s, after)
  {
    hide PrepareFast, ValidSetup, Send;
    if s.legNumber < LEGS {
      var leg := s.cycle.opportunity.path[s.legNumber];
      var order := PrepareFast(setup, s.cycle.opportunity, s.legNumber, Get(s.holdings, SpentAsset(setup, leg)));
      if order.Some? { SendEffect(setup, s, order.value.0, order.value.1, throws); }
    }
  }

  lemma BeginEffect(setup: Setup, s: Exec, account: Balances, snapshot: Snapshot, clock: seq<int>, throws: bool)
    requires Shape(setup, s) && Counts(setup, s) && |snapshot| == |setup.markets| && |clock| == LEGS
    requires s.state.Validating? && !s.stopping
    ensures var after := Begin(setup, s, account, snapshot, clock, throws);
            && Shape(setup, after) && Counts(setup, after)
            && Advanced(if Funded(s, account) then s.(holdings := map[USDT := s.cycle.budget]) else s, after)
            && (!Funded(s, account) ==> after.state.Idle?)
  {
    hide ValidSetup, PreflightFrom, NextLeg;
    if Funded(s, account)
      && PreflightFrom(setup, s.cycle.opportunity, map[USDT := s.cycle.budget], snapshot, clock, 0).None? {
      NextLegEffect(setup, s.(holdings := map[USDT := s.cycle.budget], legNumber := 0), throws);
    }
  }

  /** An accounted report either closes the cycle, moves it to its next order,
      or (not terminal) leaves the same order pending. */
  ghost predicate Concluded(s: Exec, after: Exec) {
    || Advanced(s, after)
    || (after.state.LegPending? && !after.gatewayBusy && after.sent == s.sent && after.accounted == s.accounted
        && after.holdings == s.holdings && after.cycle == s.cycle && after.pending == s.pending
        && after.orderNumber == s.orderNumber)
  }

  lemma ConcludeEffect(setup: Setup, s: Exec, value: OrderReport, throws: bool)
    requires Shape(setup, s) && Counts(setup, s) && s.state.LegPending? && !s.gatewayBusy
    ensures var after := Conclude(setup, s, value, throws);
            Shape(setup, after) && Counts(setup, after) && Concluded(s, after)
  {
    hide ValidSetup, NextLeg, FilledWhole;
    if !s.waitingGateway && Terminal(value.status) && value.accountingComplete
       && FilledWhole(s.pending.value, value) && !(setup.firstLegStop && s.legNumber == 0) {
      NextLegEffect(setup, s.(pending := None, legNumber := s.legNumber + 1), throws);
    }
  }

  lemma AccountShape(setup: Setup, s: Exec, value: OrderReport)
    requires Shape(setup, s) && Counts(setup, s) && s.state.LegPending?
    ensures var after := Account(setup, s.(gatewayBusy := false), value);
            Shape(setup, after) && Counts(setup, after)
  {
    hide ValidSetup, Booked;
  }

  /** A report of the pending order, first time heard, outside Halted. */
  lemma ReportEffect(setup: Setup, s: Exec, value: OrderReport, throws: bool)
    requires Shape(setup, s) && Counts(setup, s) && s.state.LegPending? && Concerns(s, value)
    ensures var s0 := s.(gatewayBusy := false);
            var after := Report(setup, s0, value, throws);
            && Shape(setup, after) && Counts(setup, after)
            && (if Refused(s, value) then
                  && after.state.Idle? && after.sent == s.sent && after.holdings == s.holdings
                  && after.cycle == s.cycle && after.orderNumber == s.orderNumber
                else Concluded(Account(setup, s0, value), after))
  {
    hide ValidSetup, Conclude, Account, BadCumulative, Concluded;
    var s0 := s.(gatewayBusy := false);
    if !Refused(s, value) {
      AccountShape(setup, s, value);
      AccountKeeps(setup, s0, value);
      ConcludeEffect(setup, Account(setup, s0, value), value, throws);
    }
  }

  lemma AccountKeeps(setup: Setup, s: Exec, value: OrderReport)
    requires Typed(setup, s) && s.pending.Some?
    ensures var after := Account(setup, s, value);
            && after.state == s.state && after.gatewayBusy == s.gatewayBusy && after.sent == s.sent
            && after.cycle == s.cycle
            && after.pending == s.pending && after.orderNumber == s.orderNumber && after.accounted == value
  {
    hide Booked;
  }

  // ------------------------------------------------------------ orders

  /** Orders are for a configured path and a positive amount, and the one the
      gateway is busy with is the last one sent. */
  ghost predicate Orders(setup: Setup, s: Exec) {
    && (s.state.Validating? || s.state.LegPending? ==> KnownPath(setup, s.cycle.opportunity))
    && (s.pending.Some? ==> s.pending.value.quantity > 0.0 && s.pending.value.price > 0.0)
    && (s.gatewayBusy ==> s.pending.Some? && s.sent != [] && s.sent[|s.sent| - 1] == s.pending.value)
  }

  /** A handler submits nothing, or one order that the gateway is then busy with. */
  ghost predicate Sends(s: Exec, after: Exec) {
    || after.sent == s.sent
    || (after.gatewayBusy && after.pending.Some? && after.sent == s.sent + [after.pending.value])
  }

  lemma PreparedIsPositive(setup: Setup, opp: Opportunity, pathLeg: nat, amount: real)
    requires ValidSetup(setup) && pathLeg < LEGS && ValidPath(setup, opp.path) && |opp.prices| == LEGS
    ensures var order := PrepareFast(setup, opp, pathLeg, amount);
            order.Some? ==> order.value.0 > 0.0 && order.value.1 > 0.0
  {
    hide Nearest, Sized;
  }

  lemma SendOrders(setup: Setup, s: Exec, order: OrderRequest, throws: bool)
    requires s.pending.None? && !s.gatewayBusy && order.price > 0.0 && order.quantity > 0.0
    requires KnownPath(setup, s.cycle.opportunity)
    ensures Orders(setup, Send(s, order, throws)) && Sends(s, Send(s, order, throws))
  {
    hide KnownPath;
  }

  lemma NextLegOrders(setup: Setup, s: Exec, throws: bool)
    requires Typed(setup, s) && s.pending.None? && !s.gatewayBusy && KnownPath(setup, s.cycle.opportunity)
    ensures Orders(setup, NextLeg(setup, s, throws)) && Sends(s, NextLeg(setup, s, throws))
  {
    hide ValidSetup, KnownPath, PrepareFast, Send;
    if s.legNumber < LEGS {
      var leg := s.cycle.opportunity.path[s.legNumber];
      var amount := Get(s.holdings, SpentAsset(setup, leg));
      PreparedIsPositive(setup, s.cycle.opportunity, s.legNumber, amount);
      var order := PrepareFast(setup, s.cycle.opportunity, s.legNumber, amount);
      if order.Some? { SendOrders(setup, s, NextOrder(s, leg, order.value.0, order.value.1), throws); }
    }
  }

  lemma BeginOrders(setup: Setup, s: Exec, account: Balances, snapshot: Snapshot, clock: seq<int>, throws: bool)
    requires Typed(setup, s) && Orders(setup, s) && |snapshot| == |setup.markets| && |clock| == LEGS
    requires s.state.Validating? ==> s.pending.None? && !s.gatewayBusy
    ensures var after := Begin(setup, s, account, snapshot, clock, throws);
            Orders(setup, after) && Sends(s, after)
  {
    hide ValidSetup, NextLeg, PreflightFrom;
    if s.state.Validating? {
      NextLegOrders(setup, s.(holdings := map[USDT := s.cycle.budget], legNumber := 0), throws);
    }
  }

  lemma ConcludeOrders(setup: Setup, s: Exec, value: OrderReport, throws: bool)
    requires Typed(setup, s) && Orders(setup, s) && s.state.LegPending? && s.pending.Some? && !s.gatewayBusy
    ensures var after := Conclude(setup, s, value, throws); Orders(setup, after) && Sends(s, after)
  {
    hide ValidSetup, NextLeg, FilledWhole;
    NextLegOrders(setup, s.(pending := None, legNumber := s.legNumber + 1), throws);
  }

  lemma CallbackOrders(setup: Setup, s: Exec, value: OrderReport, throws: bool)
    requires Typed(setup, s) && Orders(setup, s) && (s.pending.Some? && !s.state.Halted? ==> s.state.LegPending?)
    ensures var after := Callback(setup, s, value, throws); Orders(setup, after) && Sends(s, after)
  {
    hide ValidSetup, Conclude, Account, Refused, ValidPath;
    var s0 := s.(gatewayBusy := false);
    if s.pending.Some? && Concerns(s0, value) {
      AccountKeeps(setup, s0, value);
      AccountTyped(setup, s0, value);
      ConcludeOrders(setup, Account(setup, s0, value), value, throws);
    }
  }

  lemma AccountTyped(setup: Setup, s: Exec, value: OrderReport)
    requires Typed(setup, s) && s.pending.Some?
    ensures Typed(setup, Account(setup, s, value))
  {
    hide ValidSetup, ValidPath, Booked;
  }

  /** A gateway that throws takes nothing. */
  lemma ThrowingLegTakesNothing(setup: Setup, s: Exec)
    requires Typed(setup, s)
    ensures NextLeg(setup, s, true).sent == s.sent
  {
    hide ValidSetup, PrepareFast, NextOrder;
  }

  lemma ThrowingBeginTakesNothing(setup: Setup, s: Exec, account: Balances, snapshot: Snapshot, clock: seq<int>)
    requires Typed(setup, s) && |snapshot| == |setup.markets| && |clock| == LEGS
    ensures Begin(setup, s, account, snapshot, clock, true).sent == s.sent
  {
    hide ValidSetup, ValidPath, PreflightFrom, NextLeg;
    ThrowingLegTakesNothing(setup, s.(holdings := map[USDT := s.cycle.budget], legNumber := 0));
  }

  lemma ThrowingCallbackTakesNothing(setup: Setup, s: Exec, value: OrderReport)
    requires Typed(setup, s)
    ensures Callback(setup, s, value, true).sent == s.sent
  {
    hide ValidSetup, ValidPath, NextLeg, Refused, FilledWhole, Booked;
    if s.pending.Some? {
      var s1 := Account(setup, s.(gatewayBusy := false), value);
      ThrowingLegTakesNothing(setup, s1.(pending := None, legNumber := s1.legNumber + 1));
    }
  }

  // ------------------------------------------------------------ whole handlers

  /** The invariant of the executor between handlers. */
  ghost predicate Sound(setup: Setup, s: Exec) {
    Shape(setup, s) && Counts(setup, s) && Orders(setup, s)
  }

  lemma BeginKeepsSound(setup: Setup, s: Exec, account: Balances, snapshot: Snapshot, clock: seq<int>, throws: bool)
    requires Sound(setup, s) && |snapshot| == |setup.markets| && |clock| == LEGS
    ensures var after := Begin(setup, s, account, snapshot, clock, throws); Sound(setup, after) && Sends(s, after)
  {
    BeginOrders(setup, s, account, snapshot, clock, throws);
    hide ValidSetup, Begin, Orders;
    if s.state.Validating? && !s.stopping {
      BeginEffect(setup, s, account, snapshot, clock, throws);
    } else {
      StaleBegin(setup, s, account, snapshot, clock, throws);
    }
  }

  lemma StaleBegin(setup: Setup, s: Exec, account: Balances, snapshot: Snapshot, clock: seq<int>, throws: bool)
    requires Typed(setup, s) && |snapshot| == |setup.markets| && |clock| == LEGS
    requires !s.state.Validating? || s.stopping
    ensures Begin(setup, s, account, snapshot, clock, throws) == s
  {}

  lemma CallbackKeepsSound(setup: Setup, s: Exec, value: OrderReport, throws: bool)
    requires Sound(setup, s)
    ensures var after := Callback(setup, s, value, throws); Sound(setup, after) && Sends(s, after)
  {
    CallbackOrders(setup, s, value, throws);
    hide ValidSetup, Report, Orders, ValidPath;
    if s.pending.Some? && value.clientId == s.pending.value.clientId {
      if Concerns(s, value) {
        ReportEffect(setup, s, value, throws);
      } else {
        IgnoredReport(setup, s.(gatewayBusy := false), value, throws);
      }
    }
  }

  lemma IgnoredReport(setup: Setup, s: Exec, value: OrderReport, throws: bool)
    requires Typed(setup, s) && !Concerns(s, value)
    ensures Report(setup, s, value, throws) == s
  {}

  /** A timeout counts the cycle as failed unless it was counted before. */
  lemma TimeoutKeepsSound(setup: Setup, s: Exec)
    requires Sound(setup, s)
    ensures var after := Timeout(s);
            && Sound(setup, after) && after.sent == s.sent
            && after.tally.failures == s.tally.failures + OpenCycles(s)
            && (after.state.LegPending? <==> s.gatewayBusy && !s.state.Halted?)
  {
    hide ValidSetup, ValidPath, KnownPath;
  }

  lemma StopKeepsShape(setup: Setup, s: Exec)
    requires Shape(setup, s)
    ensures Shape(setup, Stop(s))
  {
    hide ValidSetup, ValidPath;
  }

  lemma StopKeepsCounts(setup: Setup, s: Exec)
    requires Counts(setup, s)
    ensures Counts(setup, Stop(s))
  {}

  lemma StopKeepsSound(setup: Setup, s: Exec)
    requires Sound(setup, s)
    ensures var after := Stop(s);
            && Sound(setup, after) && after.sent == s.sent && (after.state.Idle? || after.state.Halted?)
            && after.tally.failures == s.tally.failures + if s.state.Idle? || s.state.Halted? then 0 else 1
  {
    hide ValidSetup, ValidPath, KnownPath;
    StopKeepsShape(setup, s);
    StopKeepsCounts(setup, s);
    hide Shape, Counts;
  }

  lemma StartKeepsSound(setup: Setup, s: Exec, c: Opportunity, wall: int)
    requires Sound(setup, s) && |c.prices| == LEGS
    ensures var (after, taken) := Start(setup, s, c, wall);
            && Sound(setup, after) && after.sent == s.sent
            && (taken ==>
                  && after.state.Validating? && after.cycle.opportunity == c
                  && after.cycle.number == s.cycle.number + 1)
            && (!taken ==> after == s.(tally := after.tally) && after.tally.accepted == s.tally.accepted)
  {
    hide ValidPath;
    if Acceptable(setup, c) { assert c.path in setup.groups[c.groupIndex].paths; }
  }
}
