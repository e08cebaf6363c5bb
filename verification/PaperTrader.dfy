/** The program on the simulated exchange as its objects: the executor and the
    gateway, and between them the handlers posted to the one io_context that runs
    them both. */
module PaperProgram {
  import opened Basics
  import opened Trading
  import opened Execution
  import opened ExecutorInvariant
  import opened ExecutorObject
  import opened ExecutionRuns
  import opened PaperSystem
  import opened PaperExchange

  class PaperTrader {
    const executor: Executor
    const gateway: PaperGateway
    var inbox: seq<OrderRequest>
    var outbox: seq<OrderReport>
    var delivered: seq<OrderReport>
    ghost var trading: bool
    ghost var base: Balances
    ghost var missed: Option<Missed>

    ghost function View(): System
      reads this, executor, gateway
    {
      System(World(executor.View(), gateway.wallet, inbox, outbox, delivered, trading, base, missed), gateway.View())
    }

    ghost predicate Valid()
      reads this, executor, gateway
    {
      Trades(executor.setup, gateway.terms) && SystemInv(executor.setup, View())
    }

    constructor (setup: Setup, terms: Terms, balances: Balances)
      requires Trades(setup, terms) && NonNegative(balances)
      ensures Valid() && fresh(executor) && fresh(gateway)
      ensures executor.setup == setup && gateway.terms == terms && View() == FreshSystem(setup, balances)
    {
      executor := new Executor(setup);
      gateway := new PaperGateway(terms, balances);
      inbox, outbox, delivered := [], [], [];
      trading, base, missed := false, map[], None;
    }

    /** The exchange's handler: fill the oldest request, post its callback. */
    method OnFill(book: Option<Book>)
      requires Valid()
      modifies this`inbox, this`outbox, gateway
      ensures Valid() && View() == PaperSystem.Step(executor.setup, gateway.terms, old(View()), Fills(book))
    {
      ghost var setup, terms, y := executor.setup, gateway.terms, View();
      assert Typed(setup, y.world.exec) && ValidTerms(terms);
      hide SystemInv, PaperExchange.Fill, PaperSystem.Step, Trades, Typed, ValidTerms;
      PaperSystem.StepKeepsInv(setup, terms, y, Fills(book));
      if inbox == [] {
        NothingToFill(setup, terms, y, book);
        return;
      }
      FillStep(setup, terms, y, book);
      NextRequestIsFresh(setup, y);
      var r := gateway.FillOrder(inbox[0], book);
      assert gateway.View() == PaperExchange.Fill(terms, y.desk, inbox[0], book).0;
      assert executor.View() == y.world.exec;
      PostAnswer(r);
      assert View().world == y.world.(wallet := gateway.wallet, inbox := [], outbox := [r]);
    }

    /** The oldest request is done; its callback is posted. */
    method PostAnswer(r: OrderReport)
      requires inbox != []
      modifies this`inbox, this`outbox
      ensures inbox == old(inbox)[1..] && outbox == old(outbox) + [r]
    {
      inbox, outbox := inbox[1..], outbox + [r];
    }

    /** A candidate from the scanner. */
    method OnCandidate(c: Opportunity, wall: int)
      requires Valid()
      modifies executor, this`trading, this`missed
      ensures Valid()
      ensures View() == PaperSystem.Step(executor.setup, gateway.terms, old(View()), Handler(Candidate(c, wall)))
    {
      ghost var y := View();
      PaperSystem.StepKeepsInv(executor.setup, gateway.terms, y, Handler(Candidate(c, wall)));
      assert executor.Valid();
      hide SystemInv, Start, ExecutorInvariant.Sound, Trades;
      if |c.prices| == LEGS {
        var taken := executor.TryStart(c, wall);
        trading := trading && !taken;
        missed := if taken then None else missed;
      }
    }

    /** The posted begin, with the account and the books of that moment. */
    method OnBegin(snapshot: Snapshot, clock: seq<int>, throws: bool)
      requires Valid()
      modifies executor, this`inbox, this`trading, this`base
      ensures Valid()
      ensures View() == PaperSystem.Step(executor.setup, gateway.terms, old(View()),
                                         Handler(PostedBegin(snapshot, clock, throws)))
    {
      ghost var setup, terms, y := executor.setup, gateway.terms, View();
      PaperSystem.StepKeepsInv(setup, terms, y, Handler(PostedBegin(snapshot, clock, throws)));
      assert executor.Valid() && Typed(setup, y.world.exec);
      hide SystemInv, Begin, ExecutorInvariant.Sound, Trades, Typed;
      if |snapshot| != |executor.setup.markets| || |clock| != LEGS { return; }
      BeginStep(setup, terms, y, snapshot, clock, throws);
      hide PaperSystem.Step;
      ghost var starts := StartsTrading(y.world);
      var before := |executor.sent|;
      executor.OnBegin(gateway.wallet, snapshot, clock, throws);
      inbox := inbox + executor.sent[before..];
      base, trading := if starts then gateway.wallet else base, trading || starts;
    }

    method OnTimer()
      requires Valid()
      modifies executor
      ensures Valid() && View() == PaperSystem.Step(executor.setup, gateway.terms, old(View()), Handler(TimerFires))
    {
      PaperSystem.StepKeepsInv(executor.setup, gateway.terms, View(), Handler(TimerFires));
      assert executor.Valid();
      hide SystemInv, Timeout, ExecutorInvariant.Sound, Trades;
      executor.OnTimeout();
    }

    method OnStop()
      requires Valid()
      modifies executor
      ensures Valid() && View() == PaperSystem.Step(executor.setup, gateway.terms, old(View()), Handler(StopCalled))
    {
      PaperSystem.StepKeepsInv(executor.setup, gateway.terms, View(), Handler(StopCalled));
      assert executor.Valid();
      hide SystemInv, Execution.Stop, ExecutorInvariant.Sound, Trades;
      executor.RequestStop();
    }

    /** The oldest posted callback. */
    method OnDelivery(throws: bool)
      requires Valid()
      modifies executor, this`inbox, this`outbox, this`delivered, this`missed
      ensures Valid()
      ensures View() == PaperSystem.Step(executor.setup, gateway.terms, old(View()), Handler(Delivery(throws)))
    {
      ghost var setup, terms, y := executor.setup, gateway.terms, View();
      PaperSystem.StepKeepsInv(setup, terms, y, Handler(Delivery(throws)));
      assert executor.Valid() && Typed(setup, y.world.exec);
      hide SystemInv, Callback, ExecutorInvariant.Sound, Trades, Typed, MissedAfter;
      if outbox == [] { return; }
      DeliveryStep(setup, terms, y, throws);
      hide PaperSystem.Step;
      var answer, before := outbox[0], |executor.sent|;
      executor.OnCallback(answer, throws);
      PostCallback(y, answer, executor.sent[before..]);
    }

    /** The oldest callback has run; the orders it sent are with the exchange. */
    method PostCallback(ghost y: System, answer: OrderReport, newOrders: seq<OrderRequest>)
      requires outbox != [] && answer == outbox[0]
      modifies this`inbox, this`outbox, this`delivered, this`missed
      ensures inbox == old(inbox) + newOrders && outbox == old(outbox)[1..]
      ensures delivered == old(delivered) + [answer] && missed == MissedAfter(y.world, answer)
    {
      inbox, outbox, delivered := inbox + newOrders, outbox[1..], delivered + [answer];
      missed := MissedAfter(y.world, answer);
    }

    /** A callback that runs a second time. */
    method OnRedelivery(i: nat, throws: bool)
      requires Valid()
      modifies executor, this`inbox
      ensures Valid()
      ensures View() == PaperSystem.Step(executor.setup, gateway.terms, old(View()), Handler(Redelivery(i, throws)))
    {
      PaperSystem.StepKeepsInv(executor.setup, gateway.terms, View(), Handler(Redelivery(i, throws)));
      assert executor.Valid();
      hide SystemInv, Callback, ExecutorInvariant.Sound, Trades;
      if i >= |delivered| { return; }
      var before := |executor.sent|;
      executor.OnCallback(delivered[i], throws);
      inbox := inbox + executor.sent[before..];
    }

    /** One turn of the io_context. */
    method Handle(h: Happening)
      requires Valid()
      modifies this, executor, gateway
      ensures Valid() && View() == PaperSystem.Step(executor.setup, gateway.terms, old(View()), h)
    {
      ghost var setup, terms, y := executor.setup, gateway.terms, View();
      assert Trades(setup, terms) && Typed(setup, y.world.exec);
      hide Valid, PaperSystem.Step, Trades, Typed;
      match h {
        case Fills(book) => OnFill(book);
        case Handler(Candidate(c, wall)) => OnCandidate(c, wall);
        case Handler(PostedBegin(snapshot, clock, throws)) => OnBegin(snapshot, clock, throws);
        case Handler(TimerFires) => OnTimer();
        case Handler(StopCalled) => OnStop();
        case Handler(Delivery(throws)) => OnDelivery(throws);
        case Handler(Redelivery(i, throws)) => OnRedelivery(i, throws);
        case Handler(GatewayAnswers(_, _)) =>
          AnswersComeFromTheGateway(setup, terms, y, h);
      }
    }

    /** The io_context until it runs dry: the objects go through the run that the
        theorems about PaperSystem speak of. */
    method RunAll(hs: seq<Happening>)
      requires Valid()
      modifies this, executor, gateway
      ensures Valid()
      ensures View() == PaperSystem.Run(executor.setup, gateway.terms, old(View()), hs)
    {
      ghost var setup, terms, start := executor.setup, gateway.terms, View();
      for k := 0 to |hs|
        invariant Valid()
        invariant PaperSystem.Run(setup, terms, start, hs) == PaperSystem.Run(setup, terms, View(), hs[k..])
      {
        ghost var y := View();
        assert hs[k..][0] == hs[k] && hs[k..][1..] == hs[k + 1..];
        PaperSystem.StepKeepsInv(setup, terms, y, hs[k]);
        hide PaperSystem.Step, SystemInv, Trades;
        Handle(hs[k]);
      }
    }
  }

  lemma AnswersComeFromTheGateway(setup: Setup, t: Terms, y: System, h: Happening)
    requires Trades(setup, t) && Typed(setup, y.world.exec) && h.Handler? && h.e.GatewayAnswers?
    ensures PaperSystem.Step(setup, t, y, h) == y
  {}
}
