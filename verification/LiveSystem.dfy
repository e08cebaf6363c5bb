/** The executor run on the REST gateway: its handlers on one thread, the FIFO
    worker on another, the exchange behind it, in every interleaving. */
module LiveSystem {
  import opened Basics
  import opened Trading
  import opened Execution
  import opened ExecutorInvariant
  import opened ExecutionRuns
  import opened BinanceRequest
  import ExecutorContract
  import Gateway = BinanceExchange
  import EndToEnd

  datatype System = System(world: World, worker: Gateway.Worker)

  datatype Happening =
    | Handler(e: Event)          // an event of the executor; submit throws exactly when the worker is stopping
    | Takes                      // the worker pops a request
    | Completes(sc: Script)      // its POST ends, is booked, and its report is posted
    | GatewayStops | WorkerExits

  function Throwing(e: Event, throws: bool): Event {
    match e
    case PostedBegin(snapshot, clock, _) => PostedBegin(snapshot, clock, throws)
    case Delivery(_) => Delivery(throws)
    case Redelivery(i, _) => Redelivery(i, throws)
    case _ => e
  }

  function EnqueueAll(setup: Setup, k: Gateway.Worker, orders: seq<OrderRequest>): Gateway.Worker
    decreases |orders|
  {
    if orders == [] then k
    else EnqueueAll(setup, Gateway.StepWorker(setup.markets, k, Gateway.Enqueue(orders[0])), orders[1..])
  }

  ghost function Step(setup: Setup, y: System, h: Happening): System
    requires Typed(setup, y.world.exec)
  {
    match h
    case Handler(e) =>
      if e.GatewayAnswers? then y
      else
        var world := ExecutionRuns.Step(setup, y.world, Throwing(e, y.worker.stopping));
        System(world, EnqueueAll(setup, y.worker, NewOrders(y.world.exec.sent, world.exec.sent)))
    case Takes => y.(worker := Gateway.StepWorker(setup.markets, y.worker, Gateway.Take))
    case Completes(sc) =>
      var worker := Gateway.StepWorker(setup.markets, y.worker, Gateway.Complete(sc));
      if worker.delivered == y.worker.delivered then y
      else
        System(ExecutionRuns.Step(setup, y.world,
                                  GatewayAnswers(worker.delivered[|worker.delivered| - 1], worker.ledger.wallet)),
               worker)
    case GatewayStops => y.(worker := Gateway.StepWorker(setup.markets, y.worker, Gateway.BeginStop))
    case WorkerExits => y.(worker := Gateway.StepWorker(setup.markets, y.worker, Gateway.Exit))
  }

  /** One world seen from both sides: the same requests, answers and wallet. */
  ghost predicate Joined(y: System) {
    && y.worker.accepted == y.world.exec.sent
    && Gateway.Outstanding(y.worker) == y.world.inbox
    && y.worker.delivered == y.world.delivered + y.world.outbox
    && y.worker.ledger.wallet == y.world.wallet
  }

  /** The ledger knows only orders that were answered. */
  ghost predicate KnownIds(y: System) {
    && |y.worker.delivered| <= |y.worker.accepted|
    && forall id :: id in y.worker.ledger.accounted ==>
         exists i :: 0 <= i < |y.worker.delivered| && y.worker.accepted[i].clientId == id
  }

  /** The missed answer is one of the worker's reports, to its own request. */
  ghost predicate MissedIsDelivered(y: System) {
    && |y.worker.delivered| <= |y.worker.accepted|
    && (y.world.missed.Some? ==>
          exists i :: 0 <= i < |y.worker.delivered| && y.worker.delivered[i] == y.world.missed.value.answer
                      && y.worker.accepted[i] == y.world.missed.value.req)
  }

  ghost predicate SystemInv(setup: Setup, balances: Balances, y: System) {
    && Inv(setup, y.world) && Sound(setup, y.world.exec) && SentInv(setup, y.world.exec)
    && Gateway.WorkerInv(y.worker) && Gateway.AnswersAll(setup.markets, Gateway.FreshLedger(balances), y.worker)
    && Joined(y) && KnownIds(y) && MissedIsDelivered(y)
  }

  /** The request being answered is the executor's pending one, and new. */
  lemma NextRequestIsFresh(setup: Setup, balances: Balances, y: System)
    requires SystemInv(setup, balances, y) && y.worker.running.Some?
    ensures y.world.inbox == [y.worker.running.value] && y.world.outbox == []
    ensures y.world.exec.pending == Some(y.worker.running.value)
    ensures y.worker.running.value.symbolIndex < |setup.markets|
    ensures y.worker.running.value.clientId !in y.worker.ledger.accounted
    ensures y.worker.queue == []
  {
    var s, k := y.world.exec, y.worker;
    assert Gateway.Outstanding(k)[0] == k.running.value;
    assert y.world.inbox[0] == k.running.value;
    hide LedgerInv, Counts, Gateway.AnswersAll;
    assert k.accepted[|k.delivered|..] == [k.running.value];
    assert s.sent[|s.sent| - 1] == k.running.value;
    forall i | 0 <= i < |s.sent| - 1 ensures s.sent[i].clientId != s.sent[|s.sent| - 1].clientId {
      assert IdBefore(s.sent[i].clientId, s.sent[|s.sent| - 1].clientId);
    }
  }

  // ------------------------------------------------------------ the executor's events

  lemma ThrowingStepSendsNothing(setup: Setup, w: World, e: Event)
    requires Sound(setup, w.exec)
    ensures ExecutionRuns.Step(setup, w, Throwing(e, true)).exec.sent == w.exec.sent
  {
    assert Typed(setup, w.exec);
    hide Begin, Callback, Sound, Typed;
    match e
    case Candidate(c, wall) =>
      if |c.prices| == LEGS { StartKeepsSound(setup, w.exec, c, wall); }
      hide Start;
    case PostedBegin(snapshot, clock, _) =>
      if |snapshot| == |setup.markets| && |clock| == LEGS {
        ThrowingBeginTakesNothing(setup, w.exec, w.wallet, snapshot, clock);
      }
    case TimerFires => TimeoutKeepsSound(setup, w.exec); hide Timeout;
    case StopCalled => StopKeepsSound(setup, w.exec); hide Stop;
    case GatewayAnswers(_, _) =>
    case Delivery(_) => if w.outbox != [] { ThrowingCallbackTakesNothing(setup, w.exec, w.outbox[0]); }
    case Redelivery(i, _) => if i < |w.delivered| { ThrowingCallbackTakesNothing(setup, w.exec, w.delivered[i]); }
  }

  /** Handing over the order just sent. */
  lemma EnqueueOne(setup: Setup, balances: Balances, k: Gateway.Worker, order: OrderRequest)
    requires Gateway.WorkerInv(k) && Gateway.AnswersAll(setup.markets, Gateway.FreshLedger(balances), k) && !k.stopping
    ensures var k' := EnqueueAll(setup, k, [order]);
            && Gateway.WorkerInv(k') && Gateway.AnswersAll(setup.markets, Gateway.FreshLedger(balances), k')
            && k' == k.(queue := k.queue + [order], accepted := k.accepted + [order])
            && Gateway.Outstanding(k') == Gateway.Outstanding(k) + [order]
  {
    Gateway.StepKeepsWorkerInv(setup.markets, k, Gateway.Enqueue(order));
    Gateway.StepKeepsAnswers(setup.markets, Gateway.FreshLedger(balances), k, Gateway.Enqueue(order));
    assert [order][1..] == [];
    hide Gateway.WorkerInv, Gateway.AnswersAll;
  }

  /** An event leaves the missed answer, forgets it, or misses the one delivered. */
  ghost predicate MissedMoves(w: World, w': World) {
    || w'.missed == w.missed || w'.missed.None?
    || (w.outbox != [] && w.exec.pending.Some? && w'.missed == Some(Missed(w.exec.pending.value, w.outbox[0])))
  }

  /** The answer in the outbox is the worker's last report, to the last request. */
  lemma OutboxIsLast(setup: Setup, y: System)
    requires Requests(y.world) && Orders(setup, y.world.exec) && Joined(y) && y.world.outbox != []
    requires Gateway.WorkerInv(y.worker)
    ensures var n := |y.worker.delivered|;
            && |y.worker.accepted| == n > 0 && y.worker.delivered[n - 1] == y.world.outbox[0]
            && y.world.exec.pending == Some(y.worker.accepted[n - 1])
  {
    assert y.world.outbox == [y.world.outbox[0]];
  }

  lemma MissedStays(setup: Setup, y: System, y': System)
    requires MissedIsDelivered(y) && MissedMoves(y.world, y'.world)
    requires y.world.outbox != [] ==>
               var n := |y.worker.delivered|;
               && |y.worker.accepted| == n > 0 && y.worker.delivered[n - 1] == y.world.outbox[0]
               && y.world.exec.pending == Some(y.worker.accepted[n - 1])
    requires y.worker.delivered <= y'.worker.delivered && y.worker.accepted <= y'.worker.accepted
    requires |y'.worker.delivered| <= |y'.worker.accepted|
    ensures MissedIsDelivered(y')
  {
    if y'.world.missed.Some? {
      if y'.world.missed == y.world.missed {
        var i :| 0 <= i < |y.worker.delivered| && y.worker.delivered[i] == y.world.missed.value.answer
                 && y.worker.accepted[i] == y.world.missed.value.req;
        assert y'.worker.delivered[i] == y'.world.missed.value.answer
            && y'.worker.accepted[i] == y'.world.missed.value.req;
      } else {
        var i := |y.worker.delivered| - 1;
        assert y'.worker.delivered[i] == y'.world.missed.value.answer
            && y'.worker.accepted[i] == y'.world.missed.value.req;
      }
    }
  }

  /** The world's side of an event of the executor. */
  lemma HandlerWorld(setup: Setup, w: World, e: Event)
    requires Inv(setup, w) && Sound(setup, w.exec) && SentInv(setup, w.exec) && !e.GatewayAnswers?
    ensures var w' := ExecutionRuns.Step(setup, w, e);
            && Inv(setup, w') && Sound(setup, w'.exec) && SentInv(setup, w'.exec) && Sends(w.exec, w'.exec)
            && w'.wallet == w.wallet && w'.inbox == w.inbox + NewOrders(w.exec.sent, w'.exec.sent)
            && w'.delivered + w'.outbox == w.delivered + w.outbox && MissedMoves(w, w')
  {
    var w' := ExecutionRuns.Step(setup, w, e);
    HandlerFacts(setup, w, e);
    ExecutionRuns.StepKeepsInv(setup, w, e);
    StepKeepsSound(setup, w, e);
    StepKeepsSentInv(setup, w, e);
    hide ExecutionRuns.Step, SentInv, Inv, Sound;
    OutboxMoves(setup, w, w', e);
  }

  /** The worker's side of it: the order just sent, if any, is in the queue. */
  lemma HandedOver(setup: Setup, balances: Balances, y: System, w': World)
    requires Gateway.WorkerInv(y.worker) && Gateway.AnswersAll(setup.markets, Gateway.FreshLedger(balances), y.worker)
    requires Joined(y) && KnownIds(y) && Sends(y.world.exec, w'.exec)
    requires w'.wallet == y.world.wallet && w'.inbox == y.world.inbox + NewOrders(y.world.exec.sent, w'.exec.sent)
    requires w'.delivered + w'.outbox == y.world.delivered + y.world.outbox
    requires y.worker.stopping ==> w'.exec.sent == y.world.exec.sent
    ensures var y' := System(w', EnqueueAll(setup, y.worker, NewOrders(y.world.exec.sent, w'.exec.sent)));
            && Gateway.WorkerInv(y'.worker)
            && Gateway.AnswersAll(setup.markets, Gateway.FreshLedger(balances), y'.worker)
            && Joined(y') && KnownIds(y')
            && y'.worker.delivered == y.worker.delivered && y.worker.accepted <= y'.worker.accepted
            && |y.worker.delivered| <= |y.worker.accepted|
  {
    hide Gateway.WorkerInv, Gateway.AnswersAll, Gateway.Outstanding, KnownIds, EnqueueAll;
    DeliveredUpTo(y);
    if w'.exec.sent != y.world.exec.sent {
      var order := w'.exec.pending.value;
      assert NewOrders(y.world.exec.sent, w'.exec.sent) == [order];
      EnqueueOne(setup, balances, y.worker, order);
      KnownAfterEnqueue(y, System(w', EnqueueAll(setup, y.worker, [order])), order);
    } else {
      assert NewOrders(y.world.exec.sent, w'.exec.sent) == [];
      NothingEnqueued(setup, y, w');
    }
  }

  /** Both sides again. */
  lemma Rejoin(setup: Setup, balances: Balances, y: System, w': World)
    requires SystemInv(setup, balances, y)
    requires Inv(setup, w') && Sound(setup, w'.exec) && SentInv(setup, w'.exec) && Sends(y.world.exec, w'.exec)
    requires w'.wallet == y.world.wallet && w'.inbox == y.world.inbox + NewOrders(y.world.exec.sent, w'.exec.sent)
    requires w'.delivered + w'.outbox == y.world.delivered + y.world.outbox && MissedMoves(y.world, w')
    requires y.worker.stopping ==> w'.exec.sent == y.world.exec.sent
    ensures SystemInv(setup, balances,
                      System(w', EnqueueAll(setup, y.worker, NewOrders(y.world.exec.sent, w'.exec.sent))))
  {
    if y.world.outbox != [] { OutboxIsLast(setup, y); }
    hide SentInv, Inv, Sound, Gateway.WorkerInv, Gateway.AnswersAll, KnownIds, EnqueueAll, NewOrders, Sends, Joined,
         MissedIsDelivered, MissedMoves;
    HandedOver(setup, balances, y, w');
    MissedStays(setup, y, System(w', EnqueueAll(setup, y.worker, NewOrders(y.world.exec.sent, w'.exec.sent))));
  }

  lemma DeliveredUpTo(y: System)
    requires KnownIds(y)
    ensures |y.worker.delivered| <= |y.worker.accepted|
  {}

  lemma HandlerKeepsInv(setup: Setup, balances: Balances, y: System, e: Event)
    requires ValidSetup(setup) && SystemInv(setup, balances, y) && !e.GatewayAnswers?
    ensures SystemInv(setup, balances, Step(setup, y, Handler(e)))
  {
    assert Typed(setup, y.world.exec);
    HandlerWorld(setup, y.world, Throwing(e, y.worker.stopping));
    if y.worker.stopping { ThrowingStepSendsNothing(setup, y.world, e); }
    Rejoin(setup, balances, y, ExecutionRuns.Step(setup, y.world, Throwing(e, y.worker.stopping)));
    hide ExecutionRuns.Step, Throwing, EnqueueAll, SystemInv, Typed;
  }

  lemma NothingEnqueued(setup: Setup, y: System, w': World)
    requires KnownIds(y)
    ensures KnownIds(System(w', y.worker)) && EnqueueAll(setup, y.worker, []) == y.worker
  {}

  lemma OutboxMoves(setup: Setup, w: World, w': World, e: Event)
    requires if e.Delivery? && w.outbox != []
             then w'.outbox == w.outbox[1..] && w'.delivered == w.delivered + [w.outbox[0]]
             else w'.outbox == w.outbox && w'.delivered == w.delivered
    ensures w'.delivered + w'.outbox == w.delivered + w.outbox
  {}

  lemma KnownAfterEnqueue(y: System, y': System, order: OrderRequest)
    requires KnownIds(y)
    requires y'.worker == y.worker.(queue := y.worker.queue + [order], accepted := y.worker.accepted + [order])
    ensures KnownIds(y')
  {
    forall id | id in y'.worker.ledger.accounted
      ensures exists i :: 0 <= i < |y'.worker.delivered| && y'.worker.accepted[i].clientId == id
    {
      var i :| 0 <= i < |y.worker.delivered| && y.worker.accepted[i].clientId == id;
      assert y'.worker.accepted[i].clientId == id;
    }
  }

  // ------------------------------------------------------------ the worker's steps

  /** The worker's side of a completed POST. */
  lemma CompletedWorker(setup: Setup, k: Gateway.Worker, sc: Script)
    requires k.running.Some?
    ensures var k' := Gateway.StepWorker(setup.markets, k, Gateway.Complete(sc));
            var t := Gateway.Attempt(setup.markets, k.running.value, k.connected, sc).transport;
            var (l', r) := Gateway.Submit(setup.markets, k.ledger, k.running.value, t);
            && k'.delivered == k.delivered + [r] && k'.ledger == l' && k'.accepted == k.accepted
            && k'.running.None? && k'.queue == k.queue
  {
    hide Gateway.Submit, Gateway.Attempt;
  }

  /** The world takes a legal answer. */
  lemma LegalAnswerIsTaken(setup: Setup, w: World, answer: OrderReport, walletAfter: Balances)
    requires Typed(setup, w.exec) && |w.inbox| == 1 && w.outbox == [] && w.inbox[0].symbolIndex < |setup.markets|
    requires LegalAnswer(setup.markets[w.inbox[0].symbolIndex], w.wallet, w.inbox[0], answer, walletAfter)
    ensures ExecutionRuns.Step(setup, w, GatewayAnswers(answer, walletAfter))
         == w.(wallet := walletAfter, inbox := [], outbox := [answer])
  {
    hide LegalAnswer, Typed;
  }

  /** The report of a completed POST is a legal answer, so the world takes it. */
  lemma CompleteStep(setup: Setup, balances: Balances, y: System, sc: Script)
    requires ValidSetup(setup) && SystemInv(setup, balances, y) && y.worker.running.Some?
    ensures var k' := Gateway.StepWorker(setup.markets, y.worker, Gateway.Complete(sc));
            && |k'.delivered| == |y.worker.delivered| + 1
            && var r := k'.delivered[|k'.delivered| - 1];
               && ExecutionRuns.Step(setup, y.world, GatewayAnswers(r, k'.ledger.wallet))
                  == y.world.(wallet := k'.ledger.wallet, inbox := [], outbox := [r])
               && Step(setup, y, Completes(sc))
                  == System(y.world.(wallet := k'.ledger.wallet, inbox := [], outbox := [r]), k')
  {
    NextRequestIsFresh(setup, balances, y);
    CompletedWorker(setup, y.worker, sc);
    var req := y.worker.running.value;
    var t := Gateway.Attempt(setup.markets, req, y.worker.connected, sc).transport;
    EndToEnd.BinanceAnswersLegally(setup.markets, y.worker.ledger, req, t);
    assert Typed(setup, y.world.exec) && Joined(y);
    hide Gateway.Submit, Gateway.Attempt, Gateway.StepWorker, LegalAnswer, SystemInv, Typed, Gateway.Outstanding,
         ExecutionRuns.Step;
    var k' := Gateway.StepWorker(setup.markets, y.worker, Gateway.Complete(sc));
    LegalAnswerIsTaken(setup, y.world, k'.delivered[|k'.delivered| - 1], k'.ledger.wallet);
  }

  lemma AccountedGrows(setup: Setup, l: Gateway.Ledger, req: OrderRequest, t: Transport)
    ensures Gateway.Submit(setup.markets, l, req, t).0.accounted.Keys <= l.accounted.Keys + {req.clientId}
  {
    hide CheckedPost, Booked;
  }

  lemma KnownAfterComplete(y: System, y': System)
    requires KnownIds(y) && y.worker.running.Some? && |y.worker.delivered| < |y.worker.accepted|
    requires y.worker.accepted[|y.worker.delivered|] == y.worker.running.value
    requires y'.worker.accepted == y.worker.accepted && |y'.worker.delivered| == |y.worker.delivered| + 1
    requires y'.worker.ledger.accounted.Keys <= y.worker.ledger.accounted.Keys + {y.worker.running.value.clientId}
    ensures KnownIds(y')
  {
    forall id | id in y'.worker.ledger.accounted
      ensures exists i :: 0 <= i < |y'.worker.delivered| && y'.worker.accepted[i].clientId == id
    {
      if id in y.worker.ledger.accounted {
        var i :| 0 <= i < |y.worker.delivered| && y.worker.accepted[i].clientId == id;
        assert y'.worker.accepted[i].clientId == id;
      } else {
        assert y'.worker.accepted[|y.worker.delivered|].clientId == id;
      }
    }
  }

  lemma CompletesKeepsInv(setup: Setup, balances: Balances, y: System, sc: Script)
    requires ValidSetup(setup) && SystemInv(setup, balances, y)
    ensures SystemInv(setup, balances, Step(setup, y, Completes(sc)))
  {
    if y.worker.running.Some? {
      var k, step := y.worker, Gateway.Complete(sc);
      CompleteStep(setup, balances, y, sc);
      CompletedWorker(setup, k, sc);
      Gateway.StepKeepsWorkerInv(setup.markets, k, step);
      Gateway.StepKeepsAnswers(setup.markets, Gateway.FreshLedger(balances), k, step);
      AccountedGrows(setup, k.ledger, k.running.value,
                     Gateway.Attempt(setup.markets, k.running.value, k.connected, sc).transport);
      var k' := Gateway.StepWorker(setup.markets, k, step);
      AnswerKeepsInv(setup, y.world, k'.delivered[|k'.delivered| - 1], k'.ledger.wallet);
      hide Step, ExecutionRuns.Step, SystemInv, Gateway.StepWorker, Gateway.WorkerInv, Gateway.AnswersAll,
           Gateway.Submit, Gateway.Attempt, Inv;
      RejoinCompleted(setup, balances, y, k');
    }
  }

  /** Both sides again, once the report of the running request is posted. */
  lemma RejoinCompleted(setup: Setup, balances: Balances, y: System, k': Gateway.Worker)
    requires SystemInv(setup, balances, y) && y.worker.running.Some?
    requires k'.accepted == y.worker.accepted && k'.running.None? && k'.queue == y.worker.queue
    requires |k'.delivered| == |y.worker.delivered| + 1 && y.worker.delivered <= k'.delivered
    requires k'.ledger.accounted.Keys <= y.worker.ledger.accounted.Keys + {y.worker.running.value.clientId}
    requires Gateway.WorkerInv(k') && Gateway.AnswersAll(setup.markets, Gateway.FreshLedger(balances), k')
    requires Inv(setup, y.world.(wallet := k'.ledger.wallet, inbox := [], outbox := [k'.delivered[|k'.delivered| - 1]]))
    ensures SystemInv(setup, balances,
              System(y.world.(wallet := k'.ledger.wallet, inbox := [], outbox := [k'.delivered[|k'.delivered| - 1]]),
                     k'))
  {
    var k, r := y.worker, k'.delivered[|k'.delivered| - 1];
    NextRequestIsFresh(setup, balances, y);
    assert k.accepted[|k.delivered|] == k.accepted[|k.delivered|..][0] == k.running.value;
    hide Inv, Sound, SentInv, Gateway.WorkerInv, Gateway.AnswersAll;
    var y' := System(y.world.(wallet := k'.ledger.wallet, inbox := [], outbox := [r]), k');
    DeliveredUpTo(y);
    KnownAfterComplete(y, y');
    MissedStays(setup, y, y');
    assert k'.delivered == k.delivered + [r];
    hide KnownIds, MissedIsDelivered;
  }

  lemma StepKeepsInv(setup: Setup, balances: Balances, y: System, h: Happening)
    requires ValidSetup(setup) && SystemInv(setup, balances, y)
    ensures SystemInv(setup, balances, Step(setup, y, h))
  {
    match h
    case Handler(e) => if !e.GatewayAnswers? { HandlerKeepsInv(setup, balances, y, e); }
    case Completes(sc) => CompletesKeepsInv(setup, balances, y, sc);
    case Takes => QuietStepKeepsInv(setup, balances, y, h, Gateway.Take);
    case GatewayStops => QuietStepKeepsInv(setup, balances, y, h, Gateway.BeginStop);
    case WorkerExits => QuietStepKeepsInv(setup, balances, y, h, Gateway.Exit);
  }

  lemma QuietMissed(y: System, y': System)
    requires KnownIds(y) && MissedIsDelivered(y) && y'.world == y.world
    requires y'.worker.delivered == y.worker.delivered && y'.worker.accepted == y.worker.accepted
    requires y'.worker.ledger == y.worker.ledger
    ensures KnownIds(y') && MissedIsDelivered(y')
  {}

  /** Popping a request, stopping and exiting change nothing that is shared. */
  lemma QuietStepKeepsInv(setup: Setup, balances: Balances, y: System, h: Happening, step: Gateway.WorkerStep)
    requires ValidSetup(setup) && SystemInv(setup, balances, y)
    requires step.Take? || step.BeginStop? || step.Exit?
    requires Step(setup, y, h) == y.(worker := Gateway.StepWorker(setup.markets, y.worker, step))
    ensures SystemInv(setup, balances, Step(setup, y, h))
  {
    Gateway.StepKeepsWorkerInv(setup.markets, y.worker, step);
    Gateway.StepKeepsAnswers(setup.markets, Gateway.FreshLedger(balances), y.worker, step);
    hide Step, Inv, Sound, SentInv, Gateway.WorkerInv, Gateway.AnswersAll;
    var k' := Gateway.StepWorker(setup.markets, y.worker, step);
    assert Gateway.Outstanding(k') == Gateway.Outstanding(y.worker);
    hide MissedIsDelivered, KnownIds;
    QuietMissed(y, y.(worker := k'));
  }

  // ------------------------------------------------------------ all runs

  ghost function Run(setup: Setup, balances: Balances, y: System, hs: seq<Happening>): System
    requires ValidSetup(setup) && SystemInv(setup, balances, y)
    decreases |hs|
  {
    if hs == [] then y
    else
      StepKeepsInv(setup, balances, y, hs[0]);
      Run(setup, balances, Step(setup, y, hs[0]), hs[1..])
  }

  lemma {:induction false} RunKeepsInv(setup: Setup, balances: Balances, y: System, hs: seq<Happening>)
    requires ValidSetup(setup) && SystemInv(setup, balances, y)
    ensures SystemInv(setup, balances, Run(setup, balances, y, hs))
    decreases |hs|
  {
    if hs != [] {
      StepKeepsInv(setup, balances, y, hs[0]);
      hide Step;
      RunKeepsInv(setup, balances, Step(setup, y, hs[0]), hs[1..]);
    }
  }

  ghost function FreshSystem(setup: Setup, balances: Balances, connected: bool): (y: System)
    requires ValidSetup(setup)
    ensures SystemInv(setup, balances, y)
  {
    Gateway.FreshWorkerIsSound(setup.markets, balances, connected);
    System(InitialWorld(setup, balances), Gateway.FreshWorker(balances, connected))
  }

  /** The whole program on the REST gateway, in every run: both sides see the same
      requests, answers and wallet; the request being answered is new to the
      ledger; and once a cycle trades the executor's books are the wallet's, less
      what is undelivered and what was missed. */
  lemma LiveTrading(setup: Setup, balances: Balances, connected: bool, hs: seq<Happening>, a: Asset)
    requires ValidSetup(setup)
    ensures var y := Run(setup, balances, FreshSystem(setup, balances, connected), hs);
            && Joined(y)
            && (y.worker.running.Some? ==> y.worker.running.value.clientId !in y.worker.ledger.accounted)
            && (y.world.trading ==>
                  OwnGain(y.world, a) == WalletGain(setup, y.world, a) - MissedWorth(setup, y.world, a))
  {
    var y := Run(setup, balances, FreshSystem(setup, balances, connected), hs);
    RunKeepsInv(setup, balances, FreshSystem(setup, balances, connected), hs);
    if y.worker.running.Some? { NextRequestIsFresh(setup, balances, y); }
    hide Run, FreshSystem, Worth, Sound, KnownIds, SentInv, Gateway.WorkerInv, Gateway.AnswersAll;
  }

  /** A failed submission is worth nothing: there is nothing to account. */
  lemma FailuresAreWorthless(markets: seq<Market>, l: Gateway.Ledger, req: OrderRequest, t: Transport, a: Asset)
    requires req.symbolIndex < |markets| && !Gateway.Decoded(markets, req, t)
    ensures Worth(req, markets[req.symbolIndex], Gateway.Submit(markets, l, req, t).1, a) == 0.0
  {}

  /** The exchange's own answer to req fills it: status FILLED, the whole quantity,
      and fills that add up to it. */
  ghost predicate FilledBy(req: OrderRequest, order: OrderBody) {
    && order.status == "FILLED" && order.executedQty == req.quantity && order.quoteQty >= 0.0
    && order.fills.Some? && Gateway.TradedQty(order.fills.value) == req.quantity
  }

  /** r is a whole fill with the quantity, quote amount and fees of that answer. */
  ghost predicate WholeFillOf(order: OrderBody, r: OrderReport) {
    && r.status == Filled && r.filledQty == order.executedQty && r.filledQuote == order.quoteQty && r.accountingComplete
    && order.fills.Some? && forall a :: Get(r.commissions, a) == Gateway.FeesIn(order.fills.value, a)
  }

  /** End to end on the live gateway: when the exchange's answer to the request in
      flight says that it is filled, the callback posted carries exactly that, the
      executor accounts it, and, unless the cycle had timed out or stops after its
      first leg, goes on to the next. */
  lemma FilledAnswerGoesOn(setup: Setup, balances: Balances, y: System, sc: Script, status: nat, note: Option<nat>,
                           order: OrderBody, throws: bool)
    requires ValidSetup(setup) && SystemInv(setup, balances, y) && y.worker.running.Some?
    requires sc.signs && Answered(y.worker.connected, sc)
    requires Served(sc).said == Some(Processed(status, note, Some(order))) && FilledBy(y.worker.running.value, order)
    ensures var y' := Step(setup, y, Completes(sc));
            && |y'.world.outbox| == 1 && WholeFillOf(order, y'.world.outbox[0]) && y'.world.exec == y.world.exec
            && Typed(setup, y'.world.exec) && y'.world.exec.pending.Some?
            && (!y.world.exec.state.Halted? ==>
                  && Accounts(y'.world.exec, y'.world.outbox[0])
                  && ExecutorContract.WholeAndKnown(y'.world.exec.pending.value, y'.world.outbox[0])
                  && ExecutorContract.Decides(setup, y'.world.exec, y'.world.outbox[0], throws,
                                              ExecutionRuns.Step(setup, y'.world, Delivery(throws)).exec))
  {
    var s, k := y.world.exec, y.worker;
    NextRequestIsFresh(setup, balances, y);
    CompleteStep(setup, balances, y, sc);
    CompletedWorker(setup, k, sc);
    FilledIsDelivered(setup, k, sc, status, note, order);
    assert Shape(setup, s) && s.gatewayBusy && s.pending == Some(k.running.value) && s.accounted == EMPTY_REPORT;
    hide SystemInv, Gateway.Submit, Gateway.Attempt, Gateway.StepWorker, Served, Answered, Shape;
    var y' := Step(setup, y, Completes(sc));
    ExecutorContract.CallbackDecides(setup, s, y'.world.outbox[0], throws);
    DeliveryIsCallback(setup, y'.world, throws);
    hide Step, ExecutionRuns.Step, ExecutorContract.Decides, Callback;
  }

  lemma DeliveryIsCallback(setup: Setup, w: World, throws: bool)
    requires Typed(setup, w.exec) && w.outbox != []
    ensures ExecutionRuns.Step(setup, w, Delivery(throws)).exec == Callback(setup, w.exec, w.outbox[0], throws)
  {
    hide Callback, Typed;
  }

  lemma FilledIsDelivered(setup: Setup, k: Gateway.Worker, sc: Script, status: nat, note: Option<nat>, order: OrderBody)
    requires k.running.Some? && k.running.value.symbolIndex < |setup.markets|
    requires sc.signs && Answered(k.connected, sc)
    requires Served(sc).said == Some(Processed(status, note, Some(order))) && FilledBy(k.running.value, order)
    ensures var t := Gateway.Attempt(setup.markets, k.running.value, k.connected, sc).transport;
            var r := Gateway.Submit(setup.markets, k.ledger, k.running.value, t).1;
            WholeFillOf(order, r) && r.revision >= 1 && r.clientId == k.running.value.clientId
  {
    var req := k.running.value;
    StagesMean(k.connected, sc);
    hide Perform, Served, Answered, Gateway.ApplyReport, Gateway.ReportFor;
    Gateway.ReportCarries(req.clientId, Gateway.RevisionOf(k.ledger, req.clientId) + 1, order);
    Gateway.SubmitRevision(setup.markets, k.ledger, req,
                           Gateway.Attempt(setup.markets, req, k.connected, sc).transport);
    assert Gateway.Says(order.status, Filled);
  }

  /** Which answers part the two books: only one that the exchange gave in full,
      that decoded as an order, and that reports a fill or a fee; a plain failure,
      Unknown or Rejected, never does. */
  lemma OnlyDecodedAnswersPartTheBooks(setup: Setup, balances: Balances, connected: bool, hs: seq<Happening>, a: Asset)
    requires ValidSetup(setup)
    ensures var y := Run(setup, balances, FreshSystem(setup, balances, connected), hs);
            y.world.trading && OwnGain(y.world, a) != WalletGain(setup, y.world, a) ==>
              exists i :: 0 <= i < |y.worker.delivered| == |y.worker.outcomes| <= |y.worker.accepted|
                          && y.world.missed == Some(Missed(y.worker.accepted[i], y.worker.delivered[i]))
                          && Gateway.Decoded(setup.markets, y.worker.accepted[i], y.worker.outcomes[i].transport)
  {
    var y := Run(setup, balances, FreshSystem(setup, balances, connected), hs);
    RunKeepsInv(setup, balances, FreshSystem(setup, balances, connected), hs);
    hide Run, FreshSystem;
    if y.world.trading && OwnGain(y.world, a) != WalletGain(setup, y.world, a) {
      PartedByDecoded(setup, balances, y, a);
    }
  }

  lemma PartedByDecoded(setup: Setup, balances: Balances, y: System, a: Asset)
    requires SystemInv(setup, balances, y) && y.world.trading && OwnGain(y.world, a) != WalletGain(setup, y.world, a)
    ensures exists i :: 0 <= i < |y.worker.delivered| == |y.worker.outcomes| <= |y.worker.accepted|
                        && y.world.missed == Some(Missed(y.worker.accepted[i], y.worker.delivered[i]))
                        && Gateway.Decoded(setup.markets, y.worker.accepted[i], y.worker.outcomes[i].transport)
  {
    var k := y.worker;
    assert MissedWorth(setup, y.world, a) != 0.0;
    var i :| 0 <= i < |k.delivered| && k.delivered[i] == y.world.missed.value.answer
             && k.accepted[i] == y.world.missed.value.req;
    assert Gateway.Answers(setup.markets, Gateway.FreshLedger(balances), k, i);
    hide Worth, Gateway.Submit, Gateway.Decoded, Sound, SentInv, Inv, Gateway.WorkerInv, Gateway.Possible;
    if !Gateway.Decoded(setup.markets, k.accepted[i], k.outcomes[i].transport) {
      FailuresAreWorthless(setup.markets,
        Gateway.LedgerAfter(setup.markets, Gateway.FreshLedger(balances), k.accepted[..i], k.outcomes[..i]),
        k.accepted[i], k.outcomes[i].transport, a);
    }
  }

  /** Such answers exist: a status the gateway does not know, with a fill. The
      wallet books it, the executor refuses it. */
  lemma UnknownStatusPartsTheBooks(markets: seq<Market>, l: Gateway.Ledger, s: Exec, req: OrderRequest)
    requires req.symbolIndex < |markets| && markets[req.symbolIndex].base != markets[req.symbolIndex].quote
    requires s.pending == Some(req) && s.accounted == EMPTY_REPORT
    ensures var m := markets[req.symbolIndex];
            var t := Response(200, Json(None, Some(OrderBody("HELD", 1.0, 2.0, None))));
            var r := Gateway.Submit(markets, l, req, t).1;
            Refused(s, r) && Worth(req, m, r, m.base) == (if req.buy then 1.0 else -1.0)
  {}
}
