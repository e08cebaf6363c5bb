/** The transition functions of src/execution/execution.cpp: preflight, order
    sizing, and every entry point of ArbitrageExecutor::Impl as a function of
    its fields. Startup cleanup is outside. */
module Execution {
  import opened Basics
  import opened Trading

  datatype State = Idle | Validating | LegPending | Halted

  /** firstLegStop is the temporary "stop after the first-leg response" branch;
      the code has it on, and everything below is proved for both values. */
  datatype Setup = Setup(markets: seq<Market>, groups: seq<TradeGroup>, maxArbitrage: real, commission: real,
                         maxBookAgeNs: int, maxCycles: nat, firstLegStop: bool)

  ghost predicate ValidPath(setup: Setup, path: TradePath) {
    |path| == LEGS && forall i :: 0 <= i < LEGS ==> path[i].index < |setup.markets|
  }

  ghost predicate ValidSetup(setup: Setup) {
    && |setup.markets| > 0
    && (forall i :: 0 <= i < |setup.markets| ==> ValidMarket(setup.markets[i]))
    && (forall g, p :: 0 <= g < |setup.groups| && 0 <= p < |setup.groups[g].paths| ==>
          ValidPath(setup, setup.groups[g].paths[p]))
  }

  type Snapshot = seq<Option<Book>>

  // ------------------------------------------------------------ sizing an order

  predicate Fresh(setup: Setup, book: Book, now: int) {
    book.receivedNs > 0 && 0 <= now - book.receivedNs <= setup.maxBookAgeNs
  }

  datatype Refusal = MissingOrderbook | StaleOrderbook | FilterRefusal(code: FilterCode)
                   | InsufficientTopLevelLiquidity | PriceWorsened

  datatype Preparation = Ready(price: real, quantity: real) | NotReady(code: Refusal)

  /** base units that amount buys or sells; a zero price is refused by the
      filters before its (infinite) quantity is looked at. */
  function Sized(buy: bool, amount: real, price: real, step: real): real
    requires step > 0.0
  {
    if buy && price == 0.0 then 0.0 else Down(if buy then amount / price else amount, step)
  }

  function BookPrice(m: Market, book: Book, buy: bool): real
    requires m.tick > 0.0
  {
    if buy then Up(PriceOf(book, true), m.tick) else Down(PriceOf(book, false), m.tick)
  }

  function PrepareFromBook(setup: Setup, leg: TradeLeg, amount: real, book: Option<Book>, now: int): Preparation
    requires ValidSetup(setup) && leg.index < |setup.markets|
  {
    if book.None? then NotReady(MissingOrderbook)
    else if !Fresh(setup, book.value, now) then NotReady(StaleOrderbook)
    else
      var m := setup.markets[leg.index];
      var price := BookPrice(m, book.value, leg.buy);
      var quantity := Sized(leg.buy, amount, price, m.step);
      var failure := FilterFailure(m, price, quantity);
      if failure.Some? then NotReady(FilterRefusal(failure.value))
      else if quantity > QuantityOf(book.value, leg.buy) then NotReady(InsufficientTopLevelLiquidity)
      else Ready(price, quantity)
  }

  /** Price and quantity of the fast path: the scanned price to the nearest tick. */
  function PrepareFast(setup: Setup, opp: Opportunity, pathLeg: nat, amount: real): Option<(real, real)>
    requires ValidSetup(setup) && pathLeg < LEGS && ValidPath(setup, opp.path) && |opp.prices| == LEGS
  {
    var leg := opp.path[pathLeg];
    var m := setup.markets[leg.index];
    var price := Nearest(opp.prices[pathLeg], m.tick);
    var quantity := Sized(leg.buy, amount, price, m.step);
    if FilterFailure(m, price, quantity).Some? then None else Some((price, quantity))
  }

  function SpentAsset(setup: Setup, leg: TradeLeg): Asset
    requires leg.index < |setup.markets|
  {
    if leg.buy then setup.markets[leg.index].quote else setup.markets[leg.index].base
  }

  function Simulated(m: Market, balances: Balances, buy: bool, price: real, quantity: real, kept: real): Balances {
    if buy then Credit(Credit(balances, m.quote, -(price * quantity)), m.base, quantity * kept)
    else Credit(Credit(balances, m.base, -quantity), m.quote, quantity * price * kept)
  }

  /** Outcome of preflight for legs i and later: None when they all pass. */
  function PreflightFrom(setup: Setup, opp: Opportunity, balances: Balances, snapshot: Snapshot, clock: seq<int>,
                         i: nat)
    : Option<(nat, Refusal)>
    requires ValidSetup(setup) && ValidPath(setup, opp.path) && |opp.prices| == LEGS
    requires |snapshot| == |setup.markets| && |clock| == LEGS && i <= LEGS
    decreases LEGS - i
  {
    if i == LEGS then None
    else
      var leg := opp.path[i];
      var m := setup.markets[leg.index];
      match PrepareFromBook(setup, leg, Get(balances, SpentAsset(setup, leg)), snapshot[leg.index], clock[i])
      case NotReady(code) => Some((i, code))
      case Ready(price, quantity) =>
        var acceptedPrice := Nearest(opp.prices[i], m.tick);
        if (leg.buy && price > acceptedPrice) || (!leg.buy && price < acceptedPrice) then Some((i, PriceWorsened))
        else PreflightFrom(setup, opp, Simulated(m, balances, leg.buy, price, quantity, 1.0 - setup.commission),
                           snapshot, clock, i + 1)
  }

  // ------------------------------------------------------------ the executor's fields

  datatype Tally = Tally(accepted: nat, submittedCycles: nat, completed: nat, failures: nat,
                         rejectedBusy: nat, rejectedLimit: nat)

  /** The cycle last accepted: its id parts, opportunity and budget. */
  datatype Cycle = Cycle(wall: int, number: nat, opportunity: Opportunity, budget: real)

  datatype Exec = Exec(state: State, stopping: bool, failed: bool, cycleSubmitted: bool,
                       gatewayBusy: bool, waitingGateway: bool, cycle: Cycle, tally: Tally,
                       orderNumber: nat, legNumber: nat, holdings: Balances,
                       pending: Option<OrderRequest>, accounted: OrderReport,
                       sent: seq<OrderRequest>) // requests gateway.submit has taken, in order

  ghost predicate Typed(setup: Setup, s: Exec) {
    && ValidSetup(setup)
    && ValidPath(setup, s.cycle.opportunity.path) && |s.cycle.opportunity.prices| == LEGS
    && s.legNumber <= LEGS
    && (s.pending.Some? ==> s.legNumber < LEGS && s.pending.value.symbolIndex < |setup.markets|)
  }

  const NO_OPPORTUNITY :=
    Opportunity(0, [TradeLeg(0, false), TradeLeg(0, false), TradeLeg(0, false)], [0.0, 0.0, 0.0], [0.0, 0.0, 0.0],
                [0, 0, 0], [0, 0, 0], 0.0, 0.0, 0.0, 0.0)

  const INITIAL_EXEC :=
    Exec(Idle, false, false, false, false, false, Cycle(0, 0, NO_OPPORTUNITY, 0.0), Tally(0, 0, 0, 0, 0, 0),
         0, 0, map[], None, EMPTY_REPORT, [])

  function Failed(t: Tally): Tally { t.(failures := t.failures + 1) }

  function Halt(s: Exec): Exec {
    s.(state := Halted, tally := Failed(s.tally))
  }

  /** A failed cycle keeps its slot while its gateway request is unanswered. */
  function FailCycle(s: Exec): Exec {
    var s1 := s.(failed := true, tally := if s.waitingGateway then s.tally else Failed(s.tally),
                 waitingGateway := s.gatewayBusy);
    if s.gatewayBusy then s1 else s1.(pending := None, state := Idle)
  }

  function Finish(s: Exec): Exec {
    s.(pending := None, state := Idle,
       tally := if s.failed then Failed(s.tally)
                else if s.legNumber == LEGS then s.tally.(completed := s.tally.completed + 1) else s.tally)
  }

  /** The order is pending and the submission is about to be made. */
  function Placed(s: Exec, order: OrderRequest): Exec {
    s.(orderNumber := s.orderNumber + 1, pending := Some(order), accounted := EMPTY_REPORT, state := LegPending)
  }

  /** The gateway has taken the order. */
  function Taken(s: Exec, order: OrderRequest): Exec {
    s.(gatewayBusy := true, sent := s.sent + [order], cycleSubmitted := true,
       tally := if s.cycleSubmitted then s.tally else s.tally.(submittedCycles := s.tally.submittedCycles + 1))
  }

  function NextOrder(s: Exec, leg: TradeLeg, price: real, quantity: real): OrderRequest {
    OrderRequest(ClientId(s.cycle.wall, s.cycle.number, s.orderNumber + 1), leg.index, leg.buy, price, quantity, false)
  }

  /** submitThrows: gateway.submit raised instead of taking the request. */
  function Send(s: Exec, order: OrderRequest, submitThrows: bool): Exec {
    if submitThrows then FailCycle(Placed(s, order).(gatewayBusy := false)) else Taken(Placed(s, order), order)
  }

  function NextLeg(setup: Setup, s: Exec, submitThrows: bool): Exec
    requires Typed(setup, s)
  {
    if s.legNumber == LEGS then Finish(s)
    else
      var leg := s.cycle.opportunity.path[s.legNumber];
      match PrepareFast(setup, s.cycle.opportunity, s.legNumber, Get(s.holdings, SpentAsset(setup, leg)))
      case None => Finish(s.(failed := true))
      case Some((price, quantity)) => Send(s, NextOrder(s, leg, price, quantity), submitThrows)
  }

  function Funded(s: Exec, account: Balances): bool {
    USDT in account && account[USDT] >= s.cycle.budget
  }

  /** The posted begin(): stale ones find another state and do nothing. */
  function Begin(setup: Setup, s: Exec, account: Balances, snapshot: Snapshot, clock: seq<int>,
                 submitThrows: bool): Exec
    requires Typed(setup, s) && |snapshot| == |setup.markets| && |clock| == LEGS
  {
    if !s.state.Validating? || s.stopping then s
    else if !Funded(s, account) then Finish(s.(failed := true))
    else
      var s1 := s.(holdings := map[USDT := s.cycle.budget]);
      if PreflightFrom(setup, s.cycle.opportunity, s1.holdings, snapshot, clock, 0).Some? then
        Finish(s1.(failed := true))
      else NextLeg(setup, s1.(legNumber := 0), submitThrows)
  }

  predicate BadCumulative(req: OrderRequest, accounted: OrderReport, value: OrderReport) {
    value.filledQty < accounted.filledQty || value.filledQty > req.quantity || value.filledQuote < accounted.filledQuote
  }

  function FilledWhole(req: OrderRequest, value: OrderReport): bool {
    value.status.Filled? && value.filledQty == req.quantity
  }

  /** report() is looking at a report of the pending order it has not seen. */
  predicate Concerns(s: Exec, value: OrderReport) {
    && s.pending.Some? && value.clientId == s.pending.value.clientId && !s.state.Halted?
    && value.revision > s.accounted.revision
  }

  predicate Refused(s: Exec, value: OrderReport)
    requires s.pending.Some?
  {
    value.status.Unknown? || BadCumulative(s.pending.value, s.accounted, value)
  }

  function Account(setup: Setup, s: Exec, value: OrderReport): Exec
    requires Typed(setup, s) && s.pending.Some?
  {
    var req := s.pending.value;
    s.(holdings := Booked(s.holdings, req, setup.markets[req.symbolIndex], value, s.accounted), accounted := value)
  }

  /** What an accounted report does to the cycle it belongs to. */
  function Conclude(setup: Setup, s: Exec, value: OrderReport, submitThrows: bool): Exec
    requires Typed(setup, s) && s.pending.Some?
  {
    if s.waitingGateway then s.(waitingGateway := false, pending := None, state := Idle)
    else if !Terminal(value.status) then s
    else if !value.accountingComplete then FailCycle(s)
    else
      var s1 := s.(pending := None);
      if !FilledWhole(s.pending.value, value) then Finish(s1.(failed := true))
      else if setup.firstLegStop && s.legNumber == 0 then FailCycle(s1)
      else NextLeg(setup, s1.(legNumber := s.legNumber + 1), submitThrows)
  }

  function Report(setup: Setup, s: Exec, value: OrderReport, submitThrows: bool): Exec
    requires Typed(setup, s)
  {
    if !Concerns(s, value) then s
    else if Refused(s, value) then FailCycle(s)
    else Conclude(setup, Account(setup, s, value), value, submitThrows)
  }

  function Callback(setup: Setup, s: Exec, value: OrderReport, submitThrows: bool): Exec
    requires Typed(setup, s)
  {
    if s.pending.None? || value.clientId != s.pending.value.clientId then s
    else Report(setup, s.(gatewayBusy := false), value, submitThrows)
  }

  function Timeout(s: Exec): Exec {
    if s.state.Idle? || s.state.Halted? then s else FailCycle(s)
  }

  function Stop(s: Exec): Exec {
    var s1 := s.(stopping := true);
    if s.state.Idle? || s.state.Halted? then s1 else Halt(s1)
  }

  predicate KnownPath(setup: Setup, candidate: Opportunity) {
    candidate.groupIndex < |setup.groups| && candidate.path in setup.groups[candidate.groupIndex].paths
  }

  predicate LimitReached(setup: Setup, s: Exec) {
    setup.maxCycles != 0 && s.tally.submittedCycles >= setup.maxCycles
  }

  predicate Acceptable(setup: Setup, candidate: Opportunity) {
    && candidate.groupIndex < |setup.groups| && candidate.inputUsdt > 0.0
    && candidate.inputUsdt <= setup.maxArbitrage && KnownPath(setup, candidate)
  }

  /** The per-cycle fields start afresh. */
  function Cleared(s: Exec): Exec {
    s.(failed := false, cycleSubmitted := false, pending := None, holdings := map[], legNumber := 0, orderNumber := 0)
  }

  function Occupied(s: Exec, candidate: Opportunity, wall: int): Exec {
    Cleared(s).(state := Validating, cycle := Cycle(wall, s.cycle.number + 1, candidate, candidate.inputUsdt),
                tally := s.tally.(accepted := s.tally.accepted + 1))
  }

  /** try_start: the new fields and whether the candidate was taken. */
  function Start(setup: Setup, s: Exec, candidate: Opportunity, wall: int): (Exec, bool) {
    if !s.state.Idle? || s.stopping then (s.(tally := s.tally.(rejectedBusy := s.tally.rejectedBusy + 1)), false)
    else if LimitReached(setup, s) then (s.(tally := s.tally.(rejectedLimit := s.tally.rejectedLimit + 1)), false)
    else if !Acceptable(setup, candidate) then (s, false)
    else (Occupied(s, candidate, wall), true)
  }
}
