/** Every run of the executor together with a gateway: candidates, posted
    begins, timers, stop, gateway answers, their delivery and re-delivery, in
    any order and any number, with submit throwing whenever it likes. */
module ExecutionRuns {
  import opened Basics
  import opened Trading
  import opened Execution
  import opened ExecutorInvariant

  /** An answer that was delivered and not accounted, with the order it answers. */
  datatype Missed = Missed(req: OrderRequest, answer: OrderReport)

  /** inbox: requests the gateway has taken and not answered; outbox: answers it
      has booked in its wallet but not delivered; delivered: answers delivered at
      least once. trading says that the last cycle has begun trading, base is the
      wallet at that moment, and missed the answer delivered since then that the
      executor did not account. */
  datatype World = World(exec: Exec, wallet: Balances, inbox: seq<OrderRequest>, outbox: seq<OrderReport>,
                         delivered: seq<OrderReport>, trading: bool, base: Balances, missed: Option<Missed>)

  datatype Event =
    | Candidate(candidate: Opportunity, wall: int)
    | PostedBegin(snapshot: Snapshot, clock: seq<int>, submitThrows: bool)
    | TimerFires
    | StopCalled
    | GatewayAnswers(answer: OrderReport, walletAfter: Balances)
    | Delivery(submitThrows: bool)
    | Redelivery(i: nat, submitThrows: bool)

  /** What an answer is worth to the wallet: its cumulative effect, or nothing
      when it claims a negative fill. */
  function Worth(req: OrderRequest, m: Market, answer: OrderReport, a: Asset): real {
    if answer.filledQty >= 0.0 && answer.filledQuote >= 0.0 then Effect(req, m, answer, a) else 0.0
  }

  /** The contract both gateways meet for a request they see for the first time. */
  ghost predicate LegalAnswer(m: Market, wallet: Balances, req: OrderRequest, answer: OrderReport,
                              walletAfter: Balances)
  {
    && answer.clientId == req.clientId && answer.revision >= 1
    && forall a :: Get(walletAfter, a) == Get(wallet, a) + Worth(req, m, answer, a)
  }

  function NewOrders(before: seq<OrderRequest>, after: seq<OrderRequest>): seq<OrderRequest> {
    if |before| <= |after| then after[|before|..] else []
  }

  /** The executor has moved to after; what it newly sent is in the gateway's inbox. */
  function Moved(w: World, after: Exec): World {
    w.(exec := after, inbox := w.inbox + NewOrders(w.exec.sent, after.sent))
  }

  /** The executor books this answer. */
  predicate Accounts(s: Exec, answer: OrderReport) {
    Concerns(s, answer) && !Refused(s, answer)
  }

  function Heard(setup: Setup, w: World, answer: OrderReport, submitThrows: bool): World
    requires Typed(setup, w.exec)
  {
    Moved(w, Callback(setup, w.exec, answer, submitThrows))
  }

  function MissedAfter(w: World, answer: OrderReport): Option<Missed> {
    if w.exec.pending.Some? && !Accounts(w.exec, answer) then Some(Missed(w.exec.pending.value, answer)) else w.missed
  }

  ghost function Step(setup: Setup, w: World, e: Event): World
    requires Typed(setup, w.exec)
  {
    match e
    case Candidate(c, wall) =>
      if |c.prices| != LEGS then w
      else
        var (after, taken) := Start(setup, w.exec, c, wall);
        w.(exec := after, trading := w.trading && !taken, missed := if taken then None else w.missed)
    case PostedBegin(snapshot, clock, throws) =>
      if |snapshot| != |setup.markets| || |clock| != LEGS then w
      else
        var trading := w.exec.state.Validating? && !w.exec.stopping && Funded(w.exec, w.wallet);
        Moved(w, Begin(setup, w.exec, w.wallet, snapshot, clock, throws))
          .(base := if trading then w.wallet else w.base, trading := w.trading || trading)
    case TimerFires => w.(exec := Timeout(w.exec))
    case StopCalled => w.(exec := Stop(w.exec))
    case GatewayAnswers(answer, walletAfter) =>
      if w.inbox == [] || w.inbox[0].symbolIndex >= |setup.markets|
         || !LegalAnswer(setup.markets[w.inbox[0].symbolIndex], w.wallet, w.inbox[0], answer, walletAfter) then w
      else w.(wallet := walletAfter, inbox := w.inbox[1..], outbox := w.outbox + [answer])
    case Delivery(throws) =>
      if w.outbox == [] then w
      else Heard(setup, w.(outbox := w.outbox[1..], delivered := w.delivered + [w.outbox[0]],
                           missed := MissedAfter(w, w.outbox[0])), w.outbox[0], throws)
    case Redelivery(i, throws) =>
      if i >= |w.delivered| then w else Heard(setup, w, w.delivered[i], throws)
  }

  // ------------------------------------------------------------ the invariant

  ghost predicate OldId(s: Exec, id: ClientId) {
    id.cycle < s.cycle.number || (id.cycle == s.cycle.number && id.order <= s.orderNumber)
  }

  /** Hearing this answer again cannot do anything. */
  ghost predicate Spent(s: Exec, answer: OrderReport) {
    || s.pending.None? || answer.clientId != s.pending.value.clientId
    || (!s.gatewayBusy && (s.state.Halted? || answer.revision <= s.accounted.revision))
  }

  ghost predicate Requests(w: World) {
    && |w.inbox| + |w.outbox| == (if w.exec.gatewayBusy then 1 else 0)
    && (w.inbox != [] ==> w.exec.gatewayBusy && w.exec.pending.Some? && w.inbox[0] == w.exec.pending.value)
    && (w.outbox != [] ==> w.exec.gatewayBusy && w.exec.pending.Some?
                           && w.outbox[0].clientId == w.exec.pending.value.clientId && w.outbox[0].revision >= 1)
    && (forall i :: 0 <= i < |w.delivered| ==> OldId(w.exec, w.delivered[i].clientId) && Spent(w.exec, w.delivered[i]))
  }

  function Undelivered(setup: Setup, w: World, a: Asset): real {
    if w.outbox != [] && w.exec.pending.Some? && w.exec.pending.value.symbolIndex < |setup.markets| then
      Worth(w.exec.pending.value, setup.markets[w.exec.pending.value.symbolIndex], w.outbox[0], a)
    else 0.0
  }

  function Opening(s: Exec, a: Asset): real {
    if a == USDT then s.cycle.budget else 0.0
  }

  /** What the wallet has of the answer the executor did not account. */
  function MissedWorth(setup: Setup, w: World, a: Asset): real {
    if w.missed.Some? && w.missed.value.req.symbolIndex < |setup.markets| then
      Worth(w.missed.value.req, setup.markets[w.missed.value.req.symbolIndex], w.missed.value.answer, a)
    else 0.0
  }

  /** What the cycle has gained or lost of an asset, by the executor's books and
      by the wallet, less what the wallet has from an undelivered answer. */
  function OwnGain(w: World, a: Asset): real { Get(w.exec.holdings, a) - Opening(w.exec, a) }
  function WalletGain(setup: Setup, w: World, a: Asset): real {
    Get(w.wallet, a) - Get(w.base, a) - Undelivered(setup, w, a)
  }

  ghost predicate BooksAgree(setup: Setup, w: World) {
    forall a :: OwnGain(w, a) == WalletGain(setup, w, a)
  }

  /** The books differ by the missed answer and by nothing else. */
  ghost predicate BooksBalance(setup: Setup, w: World) {
    forall a :: OwnGain(w, a) == WalletGain(setup, w, a) - MissedWorth(setup, w, a)
  }

  ghost predicate LedgerInv(setup: Setup, w: World) {
    && (w.exec.state.LegPending? ==> w.trading)
    && (w.exec.state.Validating? ==> !w.trading)
    && (w.exec.state.LegPending? || w.exec.state.Validating? || w.exec.gatewayBusy ==> w.missed.None?)
    && (w.trading ==> BooksBalance(setup, w))
  }

  ghost predicate Inv(setup: Setup, w: World) {
    Shape(setup, w.exec) && Counts(setup, w.exec) && Requests(w) && LedgerInv(setup, w)
  }

  ghost function InitialWorld(setup: Setup, wallet: Balances): (w: World)
    requires ValidSetup(setup)
    ensures Inv(setup, w)
  {
    World(INITIAL_EXEC, wallet, [], [], [], false, map[], None)
  }

  // ------------------------------------------------------------ one event

  lemma TakenCandidate(setup: Setup, w: World, c: Opportunity, wall: int)
    requires Inv(setup, w) && w.exec.state.Idle? && !LimitReached(setup, w.exec) && Acceptable(setup, c)
          && |c.prices| == LEGS
    ensures Inv(setup, w.(exec := Occupied(w.exec, c, wall), trading := false, missed := None))
  {
    var after := Occupied(w.exec, c, wall);
    assert Shape(setup, after) by {
      hide Counts, Requests, LedgerInv;
      assert c.path in setup.groups[c.groupIndex].paths;
    }
    assert Counts(setup, after) by {
      hide Shape, Requests, LedgerInv, ValidSetup, Acceptable;
    }
  }

  /** Nothing that the books are made of has changed. */
  lemma SameBooks(setup: Setup, w: World, w': World)
    requires w.trading ==> BooksBalance(setup, w)
    requires w'.trading == w.trading && w'.wallet == w.wallet && w'.base == w.base && w'.missed == w.missed
    requires w'.exec.holdings == w.exec.holdings && w'.exec.cycle == w.exec.cycle && w'.outbox == w.outbox
    requires w.outbox != [] ==> w'.exec.pending == w.exec.pending
    ensures w'.trading ==> BooksBalance(setup, w')
  {
    hide Worth;
    if w.trading {
      forall a ensures OwnGain(w', a) == WalletGain(setup, w', a) - MissedWorth(setup, w', a) {
        assert OwnGain(w, a) == WalletGain(setup, w, a) - MissedWorth(setup, w, a);
      }
    }
  }

  /** A refused candidate only moves the refusal counters. */
  lemma RefusedCandidate(setup: Setup, w: World, t: Tally)
    requires Inv(setup, w)
    requires t.accepted == w.exec.tally.accepted && t.submittedCycles == w.exec.tally.submittedCycles
    requires t.completed == w.exec.tally.completed && t.failures == w.exec.tally.failures
    ensures Inv(setup, w.(exec := w.exec.(tally := t)))
  {
    hide ValidSetup, Worth;
    var w' := w.(exec := w.exec.(tally := t));
    assert Shape(setup, w'.exec) && Counts(setup, w'.exec);
    SameBooks(setup, w, w');
    hide BooksBalance;
  }

  lemma CandidateKeepsInv(setup: Setup, w: World, c: Opportunity, wall: int)
    requires Inv(setup, w) && |c.prices| == LEGS
    ensures var (after, taken) := Start(setup, w.exec, c, wall);
            Inv(setup, w.(exec := after, trading := w.trading && !taken, missed := if taken then None else w.missed))
  {
    hide Inv, Occupied, Acceptable;
    var s := w.exec;
    if !s.state.Idle? || s.stopping {
      RefusedCandidate(setup, w, s.tally.(rejectedBusy := s.tally.rejectedBusy + 1));
    } else if LimitReached(setup, s) {
      RefusedCandidate(setup, w, s.tally.(rejectedLimit := s.tally.rejectedLimit + 1));
    } else if Acceptable(setup, c) {
      TakenCandidate(setup, w, c, wall);
    } else {
      assert w == w.(exec := s, trading := w.trading, missed := w.missed);
    }
  }

  lemma FreshBeginKeepsInv(setup: Setup, w: World, snapshot: Snapshot, clock: seq<int>, throws: bool)
    requires Inv(setup, w) && |snapshot| == |setup.markets| && |clock| == LEGS
    requires w.exec.state.Validating? && !w.exec.stopping
    ensures Inv(setup, Step(setup, w, PostedBegin(snapshot, clock, throws)))
  {
    hide ValidSetup, Begin;
    BeginEffect(setup, w.exec, w.wallet, snapshot, clock, throws);
    hide Shape, Counts;
  }

  lemma BeginKeepsInv(setup: Setup, w: World, snapshot: Snapshot, clock: seq<int>, throws: bool)
    requires Inv(setup, w)
    ensures Inv(setup, Step(setup, w, PostedBegin(snapshot, clock, throws)))
  {
    hide ValidSetup, Begin;
    if |snapshot| == |setup.markets| && |clock| == LEGS {
      var s := w.exec;
      if s.state.Validating? && !s.stopping {
        FreshBeginKeepsInv(setup, w, snapshot, clock, throws);
      } else {
        StaleBegin(setup, s, w.wallet, snapshot, clock, throws);
        assert w.inbox + [] == w.inbox;
        assert Step(setup, w, PostedBegin(snapshot, clock, throws)) == w;
      }
    }
  }

  lemma TimerKeepsInv(setup: Setup, w: World)
    requires Inv(setup, w)
    ensures Inv(setup, Step(setup, w, TimerFires))
  {
    hide ValidSetup, BooksBalance;
    SameBooks(setup, w, Step(setup, w, TimerFires));
  }

  lemma StopKeepsInv(setup: Setup, w: World)
    requires Inv(setup, w)
    ensures Inv(setup, Step(setup, w, StopCalled))
  {
    hide ValidSetup, ValidPath, BooksBalance;
    SameBooks(setup, w, Step(setup, w, StopCalled));
  }

  lemma AnswerKeepsInv(setup: Setup, w: World, answer: OrderReport, walletAfter: Balances)
    requires Inv(setup, w)
    ensures Inv(setup, Step(setup, w, GatewayAnswers(answer, walletAfter)))
  {
    hide ValidSetup, Worth, BooksBalance;
    var w' := Step(setup, w, GatewayAnswers(answer, walletAfter));
    if w' != w && w.trading { AnswerBalances(setup, w, answer, walletAfter); }
  }

  lemma AnswerBalances(setup: Setup, w: World, answer: OrderReport, walletAfter: Balances)
    requires Requests(w) && BooksBalance(setup, w) && w.inbox != [] && w.inbox[0].symbolIndex < |setup.markets|
    requires LegalAnswer(setup.markets[w.inbox[0].symbolIndex], w.wallet, w.inbox[0], answer, walletAfter)
    ensures BooksBalance(setup, w.(wallet := walletAfter, inbox := w.inbox[1..], outbox := w.outbox + [answer]))
  {
    hide Worth;
    var w' := w.(wallet := walletAfter, inbox := w.inbox[1..], outbox := w.outbox + [answer]);
    assert w.outbox == [] && w'.outbox[0] == answer;
    forall a ensures OwnGain(w', a) == WalletGain(setup, w', a) - MissedWorth(setup, w', a) {
      assert OwnGain(w, a) == WalletGain(setup, w, a) - MissedWorth(setup, w, a);
      assert Get(walletAfter, a) == Get(w.wallet, a) + Undelivered(setup, w', a);
    }
  }

  /** Accounting a delivered answer settles exactly what was undelivered. */
  lemma AccountingSettles(setup: Setup, w: World)
    requires Inv(setup, w) && w.outbox != [] && w.exec.state.LegPending? && !Refused(w.exec, w.outbox[0])
    ensures var s := w.exec;
            var holdings := Account(setup, s, w.outbox[0]).holdings;
            forall a :: Get(holdings, a) - Opening(s, a) == Get(w.wallet, a) - Get(w.base, a)
  {
    var s, answer := w.exec, w.outbox[0];
    var m := setup.markets[s.pending.value.symbolIndex];
    BookingIsExactIffFeesKept(s.holdings, s.pending.value, m, answer, EMPTY_REPORT);
    forall a
      ensures Get(Account(setup, s, answer).holdings, a) - Opening(s, a) == Get(w.wallet, a) - Get(w.base, a)
    {
      assert Effect(s.pending.value, m, EMPTY_REPORT, a) == 0.0;
      assert Undelivered(setup, w, a) == Effect(s.pending.value, m, answer, a);
      assert MissedWorth(setup, w, a) == 0.0;
    }
  }

  /** An answer that is delivered and not accounted becomes the missed one, worth
      what was undelivered before. */
  lemma MissingSettles(setup: Setup, w: World, w': World)
    requires Requests(w) && w.outbox != [] && w.exec.pending.Some? && w.missed.None? && BooksBalance(setup, w)
    requires w'.missed == Some(Missed(w.exec.pending.value, w.outbox[0])) && w'.outbox == []
    requires w'.wallet == w.wallet && w'.base == w.base
    requires w'.exec.holdings == w.exec.holdings && w'.exec.cycle == w.exec.cycle
    ensures BooksBalance(setup, w')
  {
    hide Worth;
    forall a ensures OwnGain(w', a) == WalletGain(setup, w', a) - MissedWorth(setup, w', a) {
      assert MissedWorth(setup, w', a) == Undelivered(setup, w, a);
      assert OwnGain(w, a) == WalletGain(setup, w, a) - MissedWorth(setup, w, a);
    }
  }

  /** After a halt an answer only clears gatewayBusy. */
  lemma HaltedDeliveryKeepsInv(setup: Setup, w: World, throws: bool)
    requires Inv(setup, w) && w.outbox != [] && w.exec.state.Halted?
    ensures Inv(setup, Step(setup, w, Delivery(throws)))
    ensures Step(setup, w, Delivery(throws)).exec == w.exec.(gatewayBusy := false)
    ensures Step(setup, w, Delivery(throws)).missed == Some(Missed(w.exec.pending.value, w.outbox[0]))
  {
    hide ValidSetup, Report, BooksBalance;
    assert w.outbox == [w.outbox[0]];
    IgnoredReport(setup, w.exec.(gatewayBusy := false), w.outbox[0], throws);
    if w.trading { MissingSettles(setup, w, Step(setup, w, Delivery(throws))); }
  }

  lemma DeliveryKeepsInv(setup: Setup, w: World, throws: bool)
    requires Inv(setup, w) && w.outbox != [] && w.exec.state.LegPending?
    ensures Inv(setup, Step(setup, w, Delivery(throws)))
  {
    hide ValidSetup, Report, Account, BooksBalance, Undelivered, Refused, Counts;
    var s, answer := w.exec, w.outbox[0];
    var w' := Step(setup, w, Delivery(throws));
    assert w.outbox == [answer] && w.inbox == [];
    ReportEffect(setup, s, answer, throws);
    assert Requests(w') by { AccountKeeps(setup, s.(gatewayBusy := false), answer); }
    if !Refused(s, answer) {
      AccountingSettles(setup, w);
      AccountKeeps(setup, s.(gatewayBusy := false), answer);
      AccountIgnoresBusy(setup, s, answer);
      BooksAfterDelivery(setup, w, w');
    } else {
      MissingSettles(setup, w, w');
    }
  }

  lemma AccountIgnoresBusy(setup: Setup, s: Exec, value: OrderReport)
    requires Typed(setup, s) && s.pending.Some?
    ensures Account(setup, s.(gatewayBusy := false), value).holdings == Account(setup, s, value).holdings
  {}

  lemma BooksAfterDelivery(setup: Setup, w: World, w': World)
    requires w'.outbox == [] && w'.missed.None? && w'.wallet == w.wallet && w'.base == w.base
          && w'.exec.cycle == w.exec.cycle
    requires forall a :: Get(w'.exec.holdings, a) - Opening(w.exec, a) == Get(w.wallet, a) - Get(w.base, a)
    ensures BooksBalance(setup, w')
  {
    forall a ensures OwnGain(w', a) == WalletGain(setup, w', a) - MissedWorth(setup, w', a) {
      assert Opening(w'.exec, a) == Opening(w.exec, a);
    }
  }

  /** Re-delivering an answer that was delivered before changes nothing at all. */
  lemma RedeliveryIsNoOp(setup: Setup, w: World, i: nat, throws: bool)
    requires Inv(setup, w)
    ensures Step(setup, w, Redelivery(i, throws)) == w
  {
    hide ValidSetup, Report, Counts, BooksBalance;
    if i < |w.delivered| {
      var s, answer := w.exec, w.delivered[i];
      assert Spent(s, answer);
      if s.pending.Some? && answer.clientId == s.pending.value.clientId {
        assert s.(gatewayBusy := false) == s;
        IgnoredReport(setup, s, answer, throws);
      }
      assert Callback(setup, s, answer, throws) == s;
      assert w.inbox + NewOrders(s.sent, s.sent) == w.inbox;
    }
  }

  lemma StepKeepsInv(setup: Setup, w: World, e: Event)
    requires Inv(setup, w)
    ensures Inv(setup, Step(setup, w, e))
  {
    match e
    case Candidate(c, wall) =>
      if |c.prices| == LEGS { CandidateKeepsInv(setup, w, c, wall); }
    case PostedBegin(snapshot, clock, throws) => BeginKeepsInv(setup, w, snapshot, clock, throws);
    case TimerFires => TimerKeepsInv(setup, w);
    case StopCalled => StopKeepsInv(setup, w);
    case GatewayAnswers(answer, walletAfter) => AnswerKeepsInv(setup, w, answer, walletAfter);
    case Delivery(throws) =>
      if w.outbox != [] {
        if w.exec.state.Halted? {
          HaltedDeliveryKeepsInv(setup, w, throws);
        } else {
          DeliveryKeepsInv(setup, w, throws);
        }
      }
    case Redelivery(i, throws) => RedeliveryIsNoOp(setup, w, i, throws);
  }

  // ------------------------------------------------------------ all runs

  ghost function Run(setup: Setup, w: World, events: seq<Event>): World
    requires Inv(setup, w)
    decreases |events|
  {
    if events == [] then w
    else
      StepKeepsInv(setup, w, events[0]);
      Run(setup, Step(setup, w, events[0]), events[1..])
  }

  lemma {:induction false} RunKeepsInv(setup: Setup, w: World, events: seq<Event>)
    requires Inv(setup, w)
    ensures Inv(setup, Run(setup, w, events))
    decreases |events|
  {
    hide Step, ValidSetup, Counts, Requests, LedgerInv;
    if events != [] {
      StepKeepsInv(setup, w, events[0]);
      RunKeepsInv(setup, Step(setup, w, events[0]), events[1..]);
    }
  }

  lemma StepKeepsSound(setup: Setup, w: World, e: Event)
    requires Sound(setup, w.exec)
    ensures Sound(setup, Step(setup, w, e).exec) && Sends(w.exec, Step(setup, w, e).exec)
  {
    hide Sound, Begin, Callback, Timeout, Stop, LegalAnswer;
    assert Sends(w.exec, w.exec);
    match e
    case Candidate(c, wall) =>
      if |c.prices| == LEGS { StartKeepsSound(setup, w.exec, c, wall); }
      hide Start;
    case PostedBegin(snapshot, clock, throws) =>
      if |snapshot| == |setup.markets| && |clock| == LEGS {
        BeginKeepsSound(setup, w.exec, w.wallet, snapshot, clock, throws);
      }
    case TimerFires => TimeoutKeepsSound(setup, w.exec);
    case StopCalled => StopKeepsSound(setup, w.exec);
    case GatewayAnswers(answer, walletAfter) =>
    case Delivery(throws) => if w.outbox != [] { CallbackKeepsSound(setup, w.exec, w.outbox[0], throws); }
    case Redelivery(i, throws) => if i < |w.delivered| { CallbackKeepsSound(setup, w.exec, w.delivered[i], throws); }
  }

  /** What the executor's own events can do to the gateway's side of the world:
      hand over the orders just sent, and take the answer delivered. */
  lemma HandlerFacts(setup: Setup, w: World, e: Event)
    requires Sound(setup, w.exec) && !e.GatewayAnswers?
    ensures var w' := Step(setup, w, e);
            && w'.wallet == w.wallet
            && w'.inbox == w.inbox + NewOrders(w.exec.sent, w'.exec.sent)
            && (if e.Delivery? && w.outbox != []
                then w'.outbox == w.outbox[1..] && w'.delivered == w.delivered + [w.outbox[0]]
                     && w'.missed == MissedAfter(w, w.outbox[0])
                else w'.outbox == w.outbox && w'.delivered == w.delivered && (w'.missed == w.missed || w'.missed.None?))
  {
    hide Begin, Callback, Sound;
    match e
    case Candidate(c, wall) =>
      if |c.prices| == LEGS { StartKeepsSound(setup, w.exec, c, wall); }
      hide Start;
    case TimerFires => TimeoutKeepsSound(setup, w.exec); hide Timeout;
    case StopCalled => StopKeepsSound(setup, w.exec); hide Stop;
    case _ =>
  }

  /** At most one gateway request is unanswered, and the executor knows whether
      there is one; it is Idle only when there is none. */
  lemma OneRequestAtATime(setup: Setup, wallet: Balances, events: seq<Event>)
    requires ValidSetup(setup)
    ensures var w := Run(setup, InitialWorld(setup, wallet), events);
            && |w.inbox| + |w.outbox| <= 1
            && (w.exec.gatewayBusy <==> |w.inbox| + |w.outbox| == 1)
            && (w.exec.state.Idle? ==> w.inbox == [] && w.outbox == [] && w.exec.pending.None?)
            && (w.exec.state.LegPending? ==> w.exec.pending.Some?)
  {
    var w := Run(setup, InitialWorld(setup, wallet), events);
    RunKeepsInv(setup, InitialWorld(setup, wallet), events);
  }

  /** Every accepted cycle is counted once, as completed or failed, or is still
      open; a timed-out cycle is not open, so its late answer cannot count again.
      Only a halt on top of a timed-out cycle adds one. The cap on submitted
      cycles holds, and with the first-leg stop on no cycle ever completes. */
  lemma CycleAccounting(setup: Setup, wallet: Balances, events: seq<Event>)
    requires ValidSetup(setup)
    ensures var s := Run(setup, InitialWorld(setup, wallet), events).exec;
            && s.tally.accepted + HaltSurplus(s) == s.tally.completed + s.tally.failures + OpenCycles(s)
            && (setup.maxCycles != 0 ==> s.tally.submittedCycles <= setup.maxCycles)
            && s.tally.submittedCycles <= s.tally.accepted
            && (setup.firstLegStop ==> s.tally.completed == 0)
  {
    var w := Run(setup, InitialWorld(setup, wallet), events);
    RunKeepsInv(setup, InitialWorld(setup, wallet), events);
  }

  /** When a cycle is counted twice: stopping adds the surplus exactly when the
      running cycle had timed out with its request still out. */
  lemma StopCountsTwiceIff(setup: Setup, w: World)
    requires Inv(setup, w) && !w.exec.state.Idle? && !w.exec.state.Halted?
    ensures var s := Step(setup, w, StopCalled).exec;
            s.tally.failures == w.exec.tally.failures + 1 && (HaltSurplus(s) == 1 <==> w.exec.waitingGateway)
  {
    hide ValidSetup, ValidPath, LedgerInv, Requests;
  }

  /** The failing input: any world with a request out, a timeout, then a stop. */
  lemma TimeoutThenStopCountsTwice(setup: Setup, w: World)
    requires Inv(setup, w) && w.exec.state.LegPending? && w.exec.gatewayBusy && !w.exec.waitingGateway
    ensures var s := Run(setup, w, [TimerFires, StopCalled]).exec;
            HaltSurplus(s) == 1 && s.tally.failures == w.exec.tally.failures + 2
  {
    var late := Step(setup, w, TimerFires);
    TimerKeepsInv(setup, w);
    StopCountsTwiceIff(setup, late);
    StopKeepsInv(setup, late);
    assert [TimerFires, StopCalled][1..] == [StopCalled];
    assert late.exec.waitingGateway && late.exec.tally.failures == w.exec.tally.failures + 1;
    hide Inv, Step;
  }

  // ------------------------------------------------------------ throwing observers

  /** send(), when an observer throws after the gateway took the order: the catch
      clears gateway_busy as if the submission had failed. */
  function SendThenThrow(s: Exec, order: OrderRequest): Exec {
    FailCycle(Taken(Placed(s, order), order).(gatewayBusy := false))
  }

  /** Why the runs above have no such event: it leaves a request with the gateway
      that the executor does not know of, and an idle executor free to send
      another. This is so whenever it happens. */
  lemma ThrowingObserverLosesTheRequest(setup: Setup, w: World, order: OrderRequest)
    requires Inv(setup, w) && w.inbox == [] && w.outbox == [] && !w.exec.waitingGateway
    ensures var w' := Moved(w, SendThenThrow(w.exec, order));
            && w'.inbox == [order] && !w'.exec.gatewayBusy && w'.exec.state.Idle? && w'.exec.pending.None?
            && !(w'.exec.gatewayBusy <==> |w'.inbox| + |w'.outbox| == 1)
  {
    hide Shape, Counts, LedgerInv, Requests;
  }

  /** Double entry across the whole system, in every run and every state once a
      cycle has begun trading, halted ones included: the executor's books are the
      wallet's, less the answer the gateway has booked but not yet delivered, less
      the delivered answer the executor did not account. */
  lemma LedgerBalances(setup: Setup, wallet: Balances, events: seq<Event>, a: Asset)
    requires ValidSetup(setup)
    ensures var w := Run(setup, InitialWorld(setup, wallet), events);
            w.trading ==> OwnGain(w, a) == WalletGain(setup, w, a) - MissedWorth(setup, w, a)
  {
    RunKeepsInv(setup, InitialWorld(setup, wallet), events);
  }

  /** So the two books agree exactly when no answer was missed or the missed one
      is worth nothing; outside Halted only a refused answer is ever missed. */
  lemma LedgerAgrees(setup: Setup, wallet: Balances, events: seq<Event>)
    requires ValidSetup(setup)
    ensures var w := Run(setup, InitialWorld(setup, wallet), events);
            && (w.trading ==> (BooksAgree(setup, w) <==> forall a :: MissedWorth(setup, w, a) == 0.0))
            && (w.exec.state.LegPending? ==> BooksAgree(setup, w))
  {
    RunKeepsInv(setup, InitialWorld(setup, wallet), events);
    var w := Run(setup, InitialWorld(setup, wallet), events);
    hide Worth, WalletGain, OwnGain, Run;
    if w.trading {
      assert forall a :: OwnGain(w, a) == WalletGain(setup, w, a) - MissedWorth(setup, w, a);
      if BooksAgree(setup, w) {
        forall a ensures MissedWorth(setup, w, a) == 0.0 {
          assert OwnGain(w, a) == WalletGain(setup, w, a);
        }
      }
    }
  }

  /** Where agreement ends: the delivery of an answer that the executor refuses,
      or of one that finds it halted, keeps the books together exactly when that
      answer is worth nothing on every asset. */
  lemma UnaccountedDeliveryIff(setup: Setup, w: World, throws: bool)
    requires Inv(setup, w) && w.outbox != [] && w.trading && !Accounts(w.exec, w.outbox[0])
    ensures BooksAgree(setup, Step(setup, w, Delivery(throws)))
       <==> var req := w.exec.pending.value;
            forall a :: Worth(req, setup.markets[req.symbolIndex], w.outbox[0], a) == 0.0
  {
    var w' := Step(setup, w, Delivery(throws));
    var req, answer := w.exec.pending.value, w.outbox[0];
    if w.exec.state.Halted? {
      HaltedDeliveryKeepsInv(setup, w, throws);
    } else {
      DeliveryKeepsInv(setup, w, throws);
      RefusedDelivery(setup, w, throws);
    }
    assert w'.trading && w'.missed == Some(Missed(req, answer));
    hide Worth, WalletGain, OwnGain, Step;
    assert forall a :: MissedWorth(setup, w', a) == Worth(req, setup.markets[req.symbolIndex], answer, a);
    assert forall a :: OwnGain(w', a) == WalletGain(setup, w', a) - MissedWorth(setup, w', a);
    if BooksAgree(setup, w') {
      forall a ensures Worth(req, setup.markets[req.symbolIndex], answer, a) == 0.0 {
        assert OwnGain(w', a) == WalletGain(setup, w', a);
        assert MissedWorth(setup, w', a) == 0.0;
      }
    }
  }

  lemma RefusedDelivery(setup: Setup, w: World, throws: bool)
    requires Inv(setup, w) && w.outbox != [] && w.exec.state.LegPending? && Refused(w.exec, w.outbox[0])
    ensures var w' := Step(setup, w, Delivery(throws));
            w'.trading && w'.missed == Some(Missed(w.exec.pending.value, w.outbox[0])) && w'.exec.state.Idle?
  {
    hide ValidSetup, Report, BooksBalance;
    ReportEffect(setup, w.exec, w.outbox[0], throws);
  }

  /** Once halted, always halted, and nothing is submitted again. */
  lemma {:induction false} HaltedIsFinal(setup: Setup, w: World, events: seq<Event>)
    requires Inv(setup, w) && w.exec.state.Halted?
    ensures var w' := Run(setup, w, events);
            w'.exec.state.Halted? && w'.exec.sent == w.exec.sent && |w'.inbox| <= |w.inbox|
            && w'.exec.tally.failures == w.exec.tally.failures && w'.exec.tally.completed == w.exec.tally.completed
    decreases |events|
  {
    hide Step;
    if events != [] {
      HaltedStep(setup, w, events[0]);
      StepKeepsInv(setup, w, events[0]);
      HaltedIsFinal(setup, Step(setup, w, events[0]), events[1..]);
    }
  }

  /** Nothing the executor or the counters care about has moved. */
  ghost predicate StaysHalted(w: World, w': World) {
    && w'.exec.state.Halted? && w'.exec.sent == w.exec.sent && |w'.inbox| <= |w.inbox|
    && w'.exec.tally.failures == w.exec.tally.failures && w'.exec.tally.completed == w.exec.tally.completed
  }

  lemma HaltedStep(setup: Setup, w: World, e: Event)
    requires Inv(setup, w) && w.exec.state.Halted?
    ensures StaysHalted(w, Step(setup, w, e))
  {
    match e
    case PostedBegin(snapshot, clock, throws) => HaltedBegin(setup, w, snapshot, clock, throws);
    case Delivery(throws) =>
      hide ValidSetup, Report, Begin, BooksBalance, Counts;
      if w.outbox != [] { HaltedDeliveryKeepsInv(setup, w, throws); }
    case Redelivery(i, throws) => RedeliveryIsNoOp(setup, w, i, throws);
    case Candidate(c, wall) => HaltedCandidate(setup, w, c, wall);
    case GatewayAnswers(answer, walletAfter) => HaltedAnswer(setup, w, answer, walletAfter);
    case _ => HaltedSignal(setup, w, e);
  }

  lemma HaltedBegin(setup: Setup, w: World, snapshot: Snapshot, clock: seq<int>, throws: bool)
    requires Typed(setup, w.exec) && w.exec.state.Halted?
    ensures StaysHalted(w, Step(setup, w, PostedBegin(snapshot, clock, throws)))
  {
    hide ValidSetup, Begin;
    if |snapshot| == |setup.markets| && |clock| == LEGS {
      StaleBegin(setup, w.exec, w.wallet, snapshot, clock, throws);
    }
  }

  lemma HaltedCandidate(setup: Setup, w: World, c: Opportunity, wall: int)
    requires Typed(setup, w.exec) && w.exec.state.Halted?
    ensures StaysHalted(w, Step(setup, w, Candidate(c, wall)))
  {
    BusyRefuses(setup, w.exec, c, wall);
    hide ValidSetup, Start, ValidPath;
  }

  lemma BusyRefuses(setup: Setup, s: Exec, c: Opportunity, wall: int)
    requires !s.state.Idle?
    ensures var (after, taken) := Start(setup, s, c, wall);
            !taken && after == s.(tally := s.tally.(rejectedBusy := s.tally.rejectedBusy + 1))
  {}

  lemma HaltedAnswer(setup: Setup, w: World, answer: OrderReport, walletAfter: Balances)
    requires Typed(setup, w.exec) && w.exec.state.Halted?
    ensures StaysHalted(w, Step(setup, w, GatewayAnswers(answer, walletAfter)))
  {
    hide ValidSetup, LegalAnswer;
  }

  lemma HaltedSignal(setup: Setup, w: World, e: Event)
    requires Typed(setup, w.exec) && w.exec.state.Halted? && (e.TimerFires? || e.StopCalled?)
    ensures StaysHalted(w, Step(setup, w, e))
  {
    hide ValidSetup;
  }

  /** The late answer to a timed-out cycle frees the executor: it becomes Idle,
      no counter moves and no further leg is sent. */
  lemma LateAnswerReleases(setup: Setup, w: World, throws: bool)
    requires Inv(setup, w) && w.exec.state.LegPending? && w.exec.waitingGateway && w.outbox != []
    ensures var w' := Step(setup, w, Delivery(throws));
            w'.exec.state.Idle? && w'.exec.tally == w.exec.tally && w'.exec.sent == w.exec.sent && w'.inbox == []
  {
    LateReport(setup, w.exec.(gatewayBusy := false), w.outbox[0], throws);
    hide Inv, Report;
  }

  lemma LateReport(setup: Setup, s: Exec, value: OrderReport, throws: bool)
    requires Typed(setup, s) && Concerns(s, value) && s.waitingGateway && !s.gatewayBusy
    ensures var after := Report(setup, s, value, throws);
            after.state.Idle? && after.tally == s.tally && after.sent == s.sent
  {
    hide ValidSetup, Account, Refused;
    AccountKeeps(setup, s, value);
    AccountTally(setup, s, value);
  }

  lemma AccountTally(setup: Setup, s: Exec, value: OrderReport)
    requires Typed(setup, s) && s.pending.Some?
    ensures var after := Account(setup, s, value);
            after.tally == s.tally && after.waitingGateway == s.waitingGateway && after.legNumber == s.legNumber
  {
    hide Booked;
  }

  // ------------------------------------------------------------ which orders are sent

  /** The only two ways an order reaches the gateway. */
  ghost predicate Justified(setup: Setup, w: World, e: Event, order: OrderRequest)
    requires Inv(setup, w)
  {
    var s := w.exec;
    && order.clientId.wall == s.cycle.wall && order.clientId.cycle == s.cycle.number
    && order.clientId.order == s.orderNumber + 1
    && match e
       case PostedBegin(snapshot, clock, _) =>
         // first leg: funded, and all three legs pass preflight on this snapshot
         && s.state.Validating? && !s.stopping && Funded(s, w.wallet)
         && |snapshot| == |setup.markets| && |clock| == LEGS
         && PreflightFrom(setup, s.cycle.opportunity, map[USDT := s.cycle.budget], snapshot, clock, 0).None?
       case Delivery(_) =>
         // next leg: the previous order has filled completely, with its fees known, in time
         && s.state.LegPending? && !s.waitingGateway && w.outbox != []
         && FilledWhole(s.pending.value, w.outbox[0]) && w.outbox[0].accountingComplete
         && s.legNumber + 1 < LEGS && !setup.firstLegStop
       case _ => false
  }

  lemma OrdersAreJustified(setup: Setup, w: World, e: Event)
    requires Inv(setup, w)
    ensures var w' := Step(setup, w, e);
            || w'.exec.sent == w.exec.sent
            || (w'.exec.pending.Some? && w'.exec.sent == w.exec.sent + [w'.exec.pending.value]
                && Justified(setup, w, e, w'.exec.pending.value))
  {
    match e
    case PostedBegin(snapshot, clock, throws) => BeginIsJustified(setup, w, snapshot, clock, throws);
    case Delivery(throws) =>
      if w.outbox != [] {
        if w.exec.state.Halted? {
          HaltedDeliveryKeepsInv(setup, w, throws);
        } else {
          DeliveryIsJustified(setup, w, throws);
        }
      }
    case Redelivery(i, throws) => RedeliveryIsNoOp(setup, w, i, throws);
    case _ => OtherEventsSendNothing(setup, w, e);
  }

  lemma OtherEventsSendNothing(setup: Setup, w: World, e: Event)
    requires Typed(setup, w.exec) && !e.PostedBegin? && !e.Delivery? && !e.Redelivery?
    ensures Step(setup, w, e).exec.sent == w.exec.sent
  {
    hide ValidSetup, ValidPath, LegalAnswer;
    if e.Candidate? { StartSendsNothing(setup, w.exec, e.candidate, e.wall); }
    hide Start;
  }

  lemma StartSendsNothing(setup: Setup, s: Exec, c: Opportunity, wall: int)
    ensures Start(setup, s, c, wall).0.sent == s.sent
  {}

  lemma BeginIsJustified(setup: Setup, w: World, snapshot: Snapshot, clock: seq<int>, throws: bool)
    requires Inv(setup, w)
    ensures var e := PostedBegin(snapshot, clock, throws);
            var w' := Step(setup, w, e);
            || w'.exec.sent == w.exec.sent
            || (w'.exec.pending.Some? && w'.exec.sent == w.exec.sent + [w'.exec.pending.value]
                && Justified(setup, w, e, w'.exec.pending.value))
  {
    hide ValidSetup, PreflightFrom, NextLeg, BooksBalance;
    var s := w.exec;
    if |snapshot| == |setup.markets| && |clock| == LEGS && s.state.Validating? && !s.stopping {
      BeginEffect(setup, s, w.wallet, snapshot, clock, throws);
    }
  }

  lemma DeliveryIsJustified(setup: Setup, w: World, throws: bool)
    requires Inv(setup, w) && w.exec.state.LegPending? && w.outbox != []
    ensures var e := Delivery(throws);
            var w' := Step(setup, w, e);
            || w'.exec.sent == w.exec.sent
            || (w'.exec.pending.Some? && w'.exec.sent == w.exec.sent + [w'.exec.pending.value]
                && Justified(setup, w, e, w'.exec.pending.value))
  {
    hide ValidSetup, Account, Report;
    var s, answer := w.exec, w.outbox[0];
    ReportEffect(setup, s, answer, throws);
    AccountKeeps(setup, s.(gatewayBusy := false), answer);
    if !Refused(s, answer) && Step(setup, w, Delivery(throws)).exec.sent != s.sent {
      OnlyWholeFillsContinue(setup, s, answer, throws);
    }
    hide Shape, Counts, LedgerInv;
  }

  lemma OnlyWholeFillsContinue(setup: Setup, s: Exec, value: OrderReport, throws: bool)
    requires Typed(setup, s) && Concerns(s, value) && !Refused(s, value)
    requires Report(setup, s.(gatewayBusy := false), value, throws).sent != s.sent
    requires setup.firstLegStop ==> s.legNumber == 0
    ensures !s.waitingGateway && FilledWhole(s.pending.value, value) && value.accountingComplete
    ensures s.legNumber + 1 < LEGS && !setup.firstLegStop
  {
    hide ValidSetup, Account, NextLeg, Refused, FilledWhole;
    var s0 := s.(gatewayBusy := false);
    AccountKeeps(setup, s0, value);
    AccountTally(setup, s0, value);
    if s.legNumber + 1 == LEGS { LastLegSendsNothing(setup, Account(setup, s0, value), value, throws); }
  }

  lemma LastLegSendsNothing(setup: Setup, s: Exec, value: OrderReport, throws: bool)
    requires Typed(setup, s) && s.pending.Some? && s.legNumber + 1 == LEGS
    ensures Conclude(setup, s, value, throws).sent == s.sent
  {
    hide ValidSetup, ValidPath, NextLeg, FilledWhole;
    assert Typed(setup, s.(pending := None, legNumber := s.legNumber + 1));
    NoLegLeft(setup, s.(pending := None, legNumber := s.legNumber + 1), throws);
  }

  lemma NoLegLeft(setup: Setup, s: Exec, throws: bool)
    requires Typed(setup, s) && s.legNumber == LEGS
    ensures NextLeg(setup, s, throws).sent == s.sent
  {}

  ghost predicate IdBefore(x: ClientId, y: ClientId) {
    x.cycle < y.cycle || (x.cycle == y.cycle && x.order < y.order)
  }

  /** Client ids never repeat, and a cycle sends at most three orders; with the
      first-leg stop on, only one. */
  ghost predicate SentInv(setup: Setup, s: Exec) {
    && (forall i :: 0 <= i < |s.sent| ==>
          && OldId(s, s.sent[i].clientId)
          && 1 <= s.sent[i].clientId.order <= (if setup.firstLegStop then 1 else LEGS))
    && (forall i, j :: 0 <= i < j < |s.sent| ==> IdBefore(s.sent[i].clientId, s.sent[j].clientId))
  }

  lemma {:induction false} RunKeepsSentInv(setup: Setup, w: World, events: seq<Event>)
    requires Inv(setup, w) && SentInv(setup, w.exec)
    ensures SentInv(setup, Run(setup, w, events).exec)
    decreases |events|
  {
    if events != [] {
      StepKeepsInv(setup, w, events[0]);
      StepKeepsSentInv(setup, w, events[0]);
      RunKeepsSentInv(setup, Step(setup, w, events[0]), events[1..]);
    }
  }

  lemma StepKeepsSentInv(setup: Setup, w: World, e: Event)
    requires Inv(setup, w) && SentInv(setup, w.exec)
    ensures SentInv(setup, Step(setup, w, e).exec)
  {
    StepKeepsInv(setup, w, e);
    OrdersAreJustified(setup, w, e);
    IdsGrow(setup, w, e);
    var before, after := w.exec, Step(setup, w, e).exec;
    hide Step, Typed, Counts, Requests, LedgerInv;
    AppendedIds(setup, before, after);
  }

  lemma AppendedIds(setup: Setup, before: Exec, after: Exec)
    requires SentInv(setup, before) && Shape(setup, after) && Counts(setup, after)
    requires IdsUpTo(before, after)
    requires || after.sent == before.sent
             || (&& after.pending.Some? && after.sent == before.sent + [after.pending.value]
                 && after.pending.value.clientId.cycle == before.cycle.number
                 && after.pending.value.clientId.order == before.orderNumber + 1)
    ensures SentInv(setup, after)
  {
    hide ValidSetup, ValidPath;
    if after.sent != before.sent {
      forall i | 0 <= i < |before.sent| ensures IdBefore(before.sent[i].clientId, after.pending.value.clientId) {
        assert OldId(before, before.sent[i].clientId);
      }
    }
  }

  ghost predicate IdsUpTo(before: Exec, after: Exec) {
    before.cycle.number < after.cycle.number
    || (before.cycle.number == after.cycle.number && before.orderNumber <= after.orderNumber)
  }

  lemma BeginGrowsIds(setup: Setup, w: World, snapshot: Snapshot, clock: seq<int>, throws: bool)
    requires Inv(setup, w)
    ensures IdsUpTo(w.exec, Step(setup, w, PostedBegin(snapshot, clock, throws)).exec)
  {
    hide ValidSetup, Begin, LedgerInv, Requests;
    if |snapshot| == |setup.markets| && |clock| == LEGS {
      if w.exec.state.Validating? && !w.exec.stopping {
        BeginEffect(setup, w.exec, w.wallet, snapshot, clock, throws);
      } else {
        StaleBegin(setup, w.exec, w.wallet, snapshot, clock, throws);
      }
    }
  }

  lemma DeliveryGrowsIds(setup: Setup, w: World, throws: bool)
    requires Inv(setup, w) && w.outbox != []
    ensures IdsUpTo(w.exec, Step(setup, w, Delivery(throws)).exec)
  {
    hide ValidSetup, Report, LedgerInv, Counts;
    if w.exec.state.Halted? {
      HaltedDeliveryKeepsInv(setup, w, throws);
    } else {
      ReportEffect(setup, w.exec, w.outbox[0], throws);
      AccountKeeps(setup, w.exec.(gatewayBusy := false), w.outbox[0]);
      hide Account, Refused;
    }
  }

  /** Cycle numbers grow, and within a cycle so do order numbers. */
  lemma IdsGrow(setup: Setup, w: World, e: Event)
    requires Inv(setup, w)
    ensures IdsUpTo(w.exec, Step(setup, w, e).exec)
  {
    match e
    case PostedBegin(snapshot, clock, throws) => BeginGrowsIds(setup, w, snapshot, clock, throws);
    case Delivery(throws) => if w.outbox != [] { DeliveryGrowsIds(setup, w, throws); }
    case Redelivery(i, throws) => RedeliveryIsNoOp(setup, w, i, throws);
    case _ => OtherEventsGrowIds(setup, w, e);
  }

  lemma OtherEventsGrowIds(setup: Setup, w: World, e: Event)
    requires Typed(setup, w.exec) && !e.PostedBegin? && !e.Delivery? && !e.Redelivery?
    ensures IdsUpTo(w.exec, Step(setup, w, e).exec)
  {
    hide ValidSetup, LegalAnswer, ValidPath;
    if e.Candidate? { StartGrowsIds(setup, w.exec, e.candidate, e.wall); }
    hide Start;
  }

  lemma StartGrowsIds(setup: Setup, s: Exec, c: Opportunity, wall: int)
    ensures IdsUpTo(s, Start(setup, s, c, wall).0)
  {}

  lemma ClientIdsNeverRepeat(setup: Setup, wallet: Balances, events: seq<Event>)
    requires ValidSetup(setup)
    ensures var sent := Run(setup, InitialWorld(setup, wallet), events).exec.sent;
            && (forall i, j :: 0 <= i < j < |sent| ==> sent[i].clientId != sent[j].clientId)
            && (setup.firstLegStop ==> forall i :: 0 <= i < |sent| ==> sent[i].clientId.order == 1)
  {
    RunKeepsSentInv(setup, InitialWorld(setup, wallet), events);
    var sent := Run(setup, InitialWorld(setup, wallet), events).exec.sent;
    forall i, j | 0 <= i < j < |sent| ensures sent[i].clientId != sent[j].clientId {
      assert IdBefore(sent[i].clientId, sent[j].clientId);
    }
  }

  // ------------------------------------------------------------ many reports of one order

  /** The executor hears reports about the order it has in flight, one callback
      after another, until that order is no longer the pending one; the second
      result is the subsequence it accounted. */
  ghost function Listen(setup: Setup, s: Exec, reports: seq<OrderReport>): (Exec, seq<OrderReport>)
    requires Sound(setup, s)
    decreases |reports|
  {
    if reports == [] || !s.state.LegPending? || s.pending.None? then (s, [])
    else
      var after := Callback(setup, s, reports[0], false);
      var heard := if Concerns(s, reports[0]) && !Refused(s, reports[0]) then [reports[0]] else [];
      CallbackKeepsSound(setup, s, reports[0], false);
      if after.pending != s.pending then (after, heard)
      else var (last, more) := Listen(setup, after, reports[1..]); (last, heard + more)
  }

  /** Cumulative fills and fees, with stale revisions, repeats, refused reports
      and foreign client ids mixed in: whatever is heard about an order, the
      holdings end up moved by the effect of the last report accounted, less the
      fees that accounted reports dropped from their lists. */
  lemma {:induction false} HoldingsTelescope(setup: Setup, s: Exec, reports: seq<OrderReport>, a: Asset)
    requires Sound(setup, s) && s.state.LegPending?
    ensures var req := s.pending.value;
            var m := setup.markets[req.symbolIndex];
            var (last, heard) := Listen(setup, s, reports);
            Get(last.holdings, a) == Get(s.holdings, a)
              + Effect(req, m, LastReport(s.accounted, heard), a) - Effect(req, m, s.accounted, a)
              - DroppedFees(s.accounted, heard, a)
    decreases |reports|
  {
    if reports != [] {
      var req := s.pending.value;
      var m := setup.markets[req.symbolIndex];
      var (last, heard) := Listen(setup, s, reports);
      var after := Callback(setup, s, reports[0], false);
      CallbackKeepsSound(setup, s, reports[0], false);
      if Concerns(s, reports[0]) {
        HeardOnce(setup, s, reports[0], a);
      } else {
        NotConcerned(setup, s, reports[0]);
      }
      if after.pending == s.pending {
        var more := Listen(setup, after, reports[1..]).1;
        if Concerns(s, reports[0]) && !Refused(s, reports[0]) {
          assert heard == [reports[0]] + more;
          assert heard[1..] == more;
        } else {
          assert heard == more;
        }
        HoldingsTelescope(setup, after, reports[1..], a);
      }
    }
  }

  lemma NotConcerned(setup: Setup, s: Exec, value: OrderReport)
    requires Sound(setup, s) && s.state.LegPending? && !Concerns(s, value)
    ensures var after := Callback(setup, s, value, false);
            after.holdings == s.holdings && after.pending == s.pending && after.accounted == s.accounted
            && after.state.LegPending?
  {
    hide ValidSetup, Report;
    IgnoredReport(setup, s.(gatewayBusy := false), value, false);
  }

  lemma HeardOnce(setup: Setup, s: Exec, value: OrderReport, a: Asset)
    requires Sound(setup, s) && s.state.LegPending? && Concerns(s, value)
    ensures var req := s.pending.value;
            var m := setup.markets[req.symbolIndex];
            var after := Callback(setup, s, value, false);
            && (after.pending == s.pending ==>
                  !Refused(s, value) && after.state.LegPending? && after.accounted == value)
            && Get(after.holdings, a) == Get(s.holdings, a)
                 + (if Refused(s, value) then 0.0
                    else Effect(req, m, value, a) - Effect(req, m, s.accounted, a)
                         - DroppedFees(s.accounted, [value], a))
  {
    hide ValidSetup, Report, Account, Refused, Orders;
    var s0 := s.(gatewayBusy := false);
    ReportEffect(setup, s, value, false);
    AccountKeeps(setup, s0, value);
    if !Refused(s, value) {
      AccountedHoldings(setup, s0, value, a);
    }
  }

  lemma AccountedHoldings(setup: Setup, s: Exec, value: OrderReport, a: Asset)
    requires Typed(setup, s) && s.pending.Some?
    ensures var req := s.pending.value;
            var m := setup.markets[req.symbolIndex];
            Get(Account(setup, s, value).holdings, a) == Get(s.holdings, a)
              + Effect(req, m, value, a) - Effect(req, m, s.accounted, a) - DroppedFees(s.accounted, [value], a)
  {
    BookedOnce(s.holdings, s.pending.value, setup.markets[s.pending.value.symbolIndex], value, s.accounted, a);
  }
}
