/** ArbitrageExecutor::Impl of src/execution/execution.cpp as the object it is:
    its fields, and its handlers updating them in place. Every handler keeps the
    executor's invariant, and together they are the transition functions that
    the runs of ExecutionRuns are made of. */
module ExecutorObject {
  import opened Basics
  import opened Trading
  import opened Execution
  import opened ExecutorInvariant
  import opened ExecutorContract

  class Executor {
    const setup: Setup
    var state: State
    var stopping: bool
    var failed: bool
    var cycleSubmitted: bool
    var gatewayBusy: bool
    var waitingGateway: bool
    var cycle: Cycle
    var tally: Tally
    var orderNumber: nat
    var legNumber: nat
    var holdings: Balances
    var pending: Option<OrderRequest>
    var accounted: OrderReport
    var sent: seq<OrderRequest>

    function View(): Exec
      reads this
    {
      Exec(state, stopping, failed, cycleSubmitted, gatewayBusy, waitingGateway, cycle, tally,
           orderNumber, legNumber, holdings, pending, accounted, sent)
    }

    ghost predicate Valid()
      reads this
    {
      Sound(setup, View())
    }

    constructor (s: Setup)
      requires ValidSetup(s)
      ensures Valid() && setup == s && View() == INITIAL_EXEC
    {
      setup := s;
      state, stopping, failed, cycleSubmitted, gatewayBusy, waitingGateway := Idle, false, false, false, false, false;
      cycle, tally := INITIAL_EXEC.cycle, INITIAL_EXEC.tally;
      orderNumber, legNumber, holdings := 0, 0, map[];
      pending, accounted, sent := None, EMPTY_REPORT, [];
    }

    method HaltNow()
      modifies this`state, this`tally
      ensures View() == Halt(old(View()))
    {
      state := Halted;
      tally := Failed(tally);
    }

    method Fail()
      modifies this`failed, this`tally, this`waitingGateway, this`pending, this`state
      ensures View() == FailCycle(old(View()))
    {
      failed := true;
      if !waitingGateway { tally := Failed(tally); }
      waitingGateway := gatewayBusy;
      if !waitingGateway {
        pending := None;
        state := Idle;
      }
    }

    method FinishCycle()
      modifies this`pending, this`tally, this`state
      ensures View() == Finish(old(View()))
      ensures state == Idle && pending.None?
      ensures tally == if failed then old(tally).(failures := old(tally.failures) + 1)
                       else if legNumber == 3 then old(tally).(completed := old(tally.completed) + 1) else old(tally)
    {
      pending := None;
      if failed {
        tally := Failed(tally);
      } else if legNumber == LEGS {
        tally := tally.(completed := tally.completed + 1);
      }
      state := Idle;
    }

    method Place(order: OrderRequest)
      modifies this`orderNumber, this`pending, this`accounted, this`state
      ensures View() == Placed(old(View()), order)
    {
      orderNumber := orderNumber + 1;
      pending := Some(order);
      accounted := EMPTY_REPORT;
      state := LegPending;
    }

    method SendOrder(order: OrderRequest, submitThrows: bool)
      modifies this
      ensures View() == Send(old(View()), order, submitThrows)
      ensures !old(failed) && !old(waitingGateway) ==>
                if submitThrows then EndsFailed(old(View()), View()) else Submits(old(View()), order, View())
    {
      if !failed && !waitingGateway { SendSubmits(View(), order); }
      hide Placed, FailCycle, Taken, EndsFailed, Submits;
      Place(order);
      if submitThrows {
        gatewayBusy := false;
        Fail();
        return;
      }
      Dispatch(order);
    }

    /** The gateway has taken the order. */
    method Dispatch(order: OrderRequest)
      modifies this`gatewayBusy, this`sent, this`cycleSubmitted, this`tally
      ensures View() == Taken(old(View()), order)
    {
      gatewayBusy := true;
      sent := sent + [order];
      if !cycleSubmitted {
        cycleSubmitted := true;
        tally := tally.(submittedCycles := tally.submittedCycles + 1);
      }
    }

    method AdvanceLeg(submitThrows: bool)
      requires Typed(setup, View())
      modifies this
      ensures View() == NextLeg(setup, old(View()), submitThrows)
      ensures !old(failed) && !old(waitingGateway) ==> Advances(setup, old(View()), submitThrows, View())
    {
      if !failed && !waitingGateway { NextLegAdvances(setup, View(), submitThrows); }
      hide Advances;
      if legNumber == LEGS {
        FinishCycle();
        return;
      }
      var leg := cycle.opportunity.path[legNumber];
      var order := PrepareFast(setup, cycle.opportunity, legNumber, Get(holdings, SpentAsset(setup, leg)));
      if order.None? {
        failed := true;
        FinishCycle();
        return;
      }
      SendOrder(NextOrder(View(), leg, order.value.0, order.value.1), submitThrows);
    }

    /** The three-leg dry run; balances is a scratch copy of holdings. */
    method Preflight(snapshot: Snapshot, clock: seq<int>) returns (rejection: Option<(nat, Refusal)>)
      requires Typed(setup, View()) && |snapshot| == |setup.markets| && |clock| == LEGS
      ensures rejection == PreflightFrom(setup, cycle.opportunity, holdings, snapshot, clock, 0)
      ensures Tells(setup, cycle.opportunity, holdings, snapshot, clock, 0, rejection)
    {
      PreflightTells(setup, cycle.opportunity, holdings, snapshot, clock, 0);
      hide Tells, PreflightFrom, ValidSetup;
      rejection := DryRun(snapshot, clock);
    }

    method DryRun(snapshot: Snapshot, clock: seq<int>) returns (rejection: Option<(nat, Refusal)>)
      requires Typed(setup, View()) && |snapshot| == |setup.markets| && |clock| == LEGS
      ensures rejection == PreflightFrom(setup, cycle.opportunity, holdings, snapshot, clock, 0)
    {
      hide PrepareFromBook, Simulated, Nearest;
      var balances := holdings;
      var i := 0;
      while i < LEGS
        invariant 0 <= i <= LEGS
        invariant PreflightFrom(setup, cycle.opportunity, holdings, snapshot, clock, 0)
               == PreflightFrom(setup, cycle.opportunity, balances, snapshot, clock, i)
      {
        var leg := cycle.opportunity.path[i];
        var m := setup.markets[leg.index];
        var order := PrepareFromBook(setup, leg, Get(balances, SpentAsset(setup, leg)), snapshot[leg.index], clock[i]);
        if order.NotReady? { return Some((i, order.code)); }
        var acceptedPrice := Nearest(cycle.opportunity.prices[i], m.tick);
        if (leg.buy && order.price > acceptedPrice) || (!leg.buy && order.price < acceptedPrice) {
          return Some((i, PriceWorsened));
        }
        balances := Simulated(m, balances, leg.buy, order.price, order.quantity, 1.0 - setup.commission);
        i := i + 1;
      }
      rejection := None;
    }

    /** begin: nothing, a failed cycle, or exactly one order that the gateway is
        then busy with. */
    method OnBegin(account: Balances, snapshot: Snapshot, clock: seq<int>, submitThrows: bool)
      requires Valid() && |snapshot| == |setup.markets| && |clock| == LEGS
      modifies this
      ensures Valid() && Sends(old(View()), View())
      ensures View() == Begin(setup, old(View()), account, snapshot, clock, submitThrows)
      ensures Begins(setup, old(View()), account, snapshot, clock, submitThrows, View())
    {
      BeginBegins(setup, View(), account, snapshot, clock, submitThrows);
      hide Begins;
      BeginKeepsSound(setup, View(), account, snapshot, clock, submitThrows);
      hide Finish, NextLeg, PreflightFrom, ValidSetup, Sound;
      if state != Validating || stopping { return; }
      if USDT !in account || account[USDT] < cycle.budget {
        failed := true;
        FinishCycle();
        return;
      }
      holdings := map[USDT := cycle.budget];
      var rejection := Preflight(snapshot, clock);
      if rejection.Some? {
        failed := true;
        FinishCycle();
        return;
      }
      legNumber := 0;
      AdvanceLeg(submitThrows);
    }

    method OnReport(value: OrderReport, submitThrows: bool)
      requires Typed(setup, View())
      modifies this
      ensures View() == Report(setup, old(View()), value, submitThrows)
      ensures old(Shape(setup, View()) && !gatewayBusy) ==> Decides(setup, old(View()), value, submitThrows, View())
    {
      if Shape(setup, View()) && !gatewayBusy { ReportDecides(setup, View(), value, submitThrows); }
      hide Shape, Decides;
      hide Conclude, FailCycle, Booked, PrepareFast, Nearest;
      if pending.None? || value.clientId != pending.value.clientId || state == Halted { return; }
      if value.revision <= accounted.revision { return; }
      var req := pending.value;
      if value.status == Unknown || BadCumulative(req, accounted, value) {
        Fail();
        return;
      }
      holdings := BookReport(holdings, req, setup.markets[req.symbolIndex], value, accounted);
      accounted := value;
      AfterAccounting(value, submitThrows);
    }

    /** The rest of report(), once the holdings are up to date. */
    method AfterAccounting(value: OrderReport, submitThrows: bool)
      requires Typed(setup, View()) && pending.Some?
      modifies this
      ensures View() == Conclude(setup, old(View()), value, submitThrows)
    {
      hide FailCycle, Finish, NextLeg, ValidSetup;
      if waitingGateway {
        waitingGateway := false;
        pending := None;
        state := Idle;
        return;
      }
      if !Terminal(value.status) { return; }
      if !value.accountingComplete {
        Fail();
        return;
      }
      var filled := FilledWhole(pending.value, value);
      pending := None;
      if !filled {
        failed := true;
        FinishCycle();
      } else if setup.firstLegStop && legNumber == 0 {
        Fail();
      } else {
        legNumber := legNumber + 1;
        AdvanceLeg(submitThrows);
      }
    }

    /** The gateway's answer, or anything else that claims to be one: at most one
        order follows, and every cycle stays counted exactly once. */
    method OnCallback(value: OrderReport, submitThrows: bool)
      requires Valid()
      modifies this
      ensures Valid() && Sends(old(View()), View())
      ensures View() == Callback(setup, old(View()), value, submitThrows)
      ensures Decides(setup, old(View()), value, submitThrows, View())
    {
      CallbackDecides(setup, View(), value, submitThrows);
      hide Decides;
      CallbackKeepsSound(setup, View(), value, submitThrows);
      hide Sound, Report;
      if pending.None? || value.clientId != pending.value.clientId { return; }
      gatewayBusy := false;
      OnReport(value, submitThrows);
    }

    /** The timer: the cycle is counted as failed unless it was before, and the
        slot is kept exactly while a request is out. */
    method OnTimeout()
      requires Valid()
      modifies this
      ensures Valid() && sent == old(sent)
      ensures tally.failures == old(tally.failures) + OpenCycles(old(View()))
      ensures state.LegPending? <==> old(gatewayBusy) && old(state) != Halted
      ensures View() == Timeout(old(View())) && TimesOut(old(View()), View())
    {
      TimeoutAndStop(View());
      hide TimesOut, Stops;
      TimeoutKeepsSound(setup, View());
      hide Sound;
      if state != Idle && state != Halted { Fail(); }
    }

    /** stop: idle or halted from now on, nothing sent, a running cycle counted
        as a failure. */
    method RequestStop()
      requires Valid()
      modifies this
      ensures Valid() && sent == old(sent) && (state.Idle? || state.Halted?)
      ensures tally.failures == old(tally.failures) + if old(state) == Idle || old(state) == Halted then 0 else 1
      ensures View() == Stop(old(View())) && Stops(old(View()), View())
    {
      TimeoutAndStop(View());
      hide TimesOut, Stops;
      StopKeepsSound(setup, View());
      hide Sound;
      stopping := true;
      if state != Idle && state != Halted { HaltNow(); }
    }

    method Clear()
      modifies this`failed, this`cycleSubmitted, this`pending, this`holdings, this`legNumber, this`orderNumber
      ensures View() == Cleared(old(View()))
    {
      failed, cycleSubmitted := false, false;
      pending := None;
      holdings := map[];
      legNumber, orderNumber := 0, 0;
    }

    method Occupy(candidate: Opportunity, now: int)
      modifies this
      ensures View() == Occupied(old(View()), candidate, now)
    {
      Clear();
      state := Validating;
      cycle := Cycle(now, cycle.number + 1, candidate, candidate.inputUsdt);
      tally := tally.(accepted := tally.accepted + 1);
    }

    /** try_start: a taken candidate starts a cycle of its own number; a refused
        one only moves a refusal counter. */
    method TryStart(candidate: Opportunity, now: int) returns (taken: bool)
      requires Valid() && |candidate.prices| == LEGS
      modifies this
      ensures Valid() && sent == old(sent)
      ensures taken ==> state.Validating? && cycle.opportunity == candidate && cycle.number == old(cycle.number) + 1
      ensures (View(), taken) == Start(setup, old(View()), candidate, now)
      ensures Starts(setup, old(View()), candidate, now, taken, View())
    {
      StartStarts(setup, View(), candidate, now);
      hide Starts;
      StartKeepsSound(setup, View(), candidate, now);
      hide Sound;
      hide Occupied, Acceptable;
      if state != Idle || stopping {
        tally := tally.(rejectedBusy := tally.rejectedBusy + 1);
        return false;
      }
      if setup.maxCycles != 0 && tally.submittedCycles >= setup.maxCycles {
        tally := tally.(rejectedLimit := tally.rejectedLimit + 1);
        return false;
      }
      if !Acceptable(setup, candidate) { return false; }
      Occupy(candidate, now);
      taken := true;
    }
  }
}
