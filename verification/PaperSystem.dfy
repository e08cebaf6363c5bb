/** The executor run on the simulated exchange: one world, one desk, and every
    interleaving of candidates, timers, stops, fills and deliveries. */
module PaperSystem {
  import opened Basics
  import opened Trading
  import opened Execution
  import opened ExecutorInvariant
  import opened ExecutionRuns
  import PaperExchange
  import EndToEnd
  import Triangles

  datatype System = System(world: World, desk: PaperExchange.Desk)

  /** An event of the executor, or the exchange's handler for the oldest request
      against the book of that moment. */
  datatype Happening = Handler(e: Event) | Fills(book: Option<Book>)

  ghost predicate Trades(setup: Setup, t: PaperExchange.Terms) {
    ValidSetup(setup) && PaperExchange.ValidTerms(t) && t.markets == setup.markets
  }

  ghost function Step(setup: Setup, t: PaperExchange.Terms, y: System, h: Happening): System
    requires Trades(setup, t) && Typed(setup, y.world.exec)
  {
    match h
    case Handler(e) => if e.GatewayAnswers? then y else y.(world := ExecutionRuns.Step(setup, y.world, e))
    case Fills(book) =>
      if y.world.inbox == [] then y
      else
        var (desk, r) := PaperExchange.Fill(t, y.desk, y.world.inbox[0], book);
        System(ExecutionRuns.Step(setup, y.world, GatewayAnswers(r, desk.wallet)), desk)
  }

  /** The desk has seen exactly requests the executor sent and is not waiting for. */
  ghost predicate KnownIds(y: System) {
    && |y.world.inbox| <= |y.world.exec.sent|
    && forall id :: id in y.desk.orders ==>
         exists i :: 0 <= i < |y.world.exec.sent| - |y.world.inbox| && y.world.exec.sent[i].clientId == id
  }

  /** The executor will account this answer unless it has halted. */
  ghost predicate WillAccount(s: Exec, answer: OrderReport) {
    s.pending.Some? && !Refused(s, answer)
  }

  ghost predicate SystemInv(setup: Setup, y: System) {
    && Inv(setup, y.world) && Sound(setup, y.world.exec) && SentInv(setup, y.world.exec)
    && y.world.wallet == y.desk.wallet && PaperExchange.Sound(y.desk) && KnownIds(y)
    && (y.world.outbox != [] ==> WillAccount(y.world.exec, y.world.outbox[0]))
    && (y.world.missed.Some? ==> y.world.exec.state.Halted?)
  }

  /** The request the desk is about to see is one it has not seen. */
  lemma NextRequestIsFresh(setup: Setup, y: System)
    requires SystemInv(setup, y) && y.world.inbox != []
    ensures y.world.inbox[0].clientId !in y.desk.orders
    ensures y.world.exec.pending == Some(y.world.inbox[0]) && y.world.inbox[0].symbolIndex < |setup.markets|
    ensures y.world.inbox[0].quantity > 0.0 && |y.world.inbox| == 1 && y.world.outbox == []
  {
    var s := y.world.exec;
    hide LedgerInv, Counts, PaperExchange.Sound;
    assert s.sent[|s.sent| - 1] == y.world.inbox[0];
    forall i | 0 <= i < |s.sent| - 1 ensures s.sent[i].clientId != s.sent[|s.sent| - 1].clientId {
      assert IdBefore(s.sent[i].clientId, s.sent[|s.sent| - 1].clientId);
    }
  }

  /** A fair report of an order of positive size is never refused. */
  lemma FairIsNotRefused(s: Exec, d: PaperExchange.Desk, book: Option<Book>, r: OrderReport)
    requires s.pending.Some? && s.accounted == EMPTY_REPORT && s.pending.value.quantity > 0.0
    requires PaperExchange.FairReport(d, s.pending.value, book, r)
    ensures !Refused(s, r)
  {
    hide PaperExchange.QuoteFor, PriceOf;
  }

  /** What the desk answers is a legal answer, so the world takes it. */
  lemma FillStep(setup: Setup, t: PaperExchange.Terms, y: System, book: Option<Book>)
    requires Trades(setup, t) && SystemInv(setup, y) && y.world.inbox != []
    ensures var (desk, r) := PaperExchange.Fill(t, y.desk, y.world.inbox[0], book);
            Step(setup, t, y, Fills(book)) == System(y.world.(wallet := desk.wallet, inbox := [], outbox := [r]), desk)
  {
    NextRequestIsFresh(setup, y);
    EndToEnd.PaperAnswersLegally(t, y.desk, y.world.inbox[0], book);
    assert y.world.exec.gatewayBusy && y.world.outbox == [];
    hide PaperExchange.Fill, PaperExchange.Sound, Sound, SentInv, LegalAnswer, LedgerInv, KnownIds;
  }

  /** The answer is one the executor will account. */
  lemma FillWillBeAccounted(setup: Setup, t: PaperExchange.Terms, y: System, book: Option<Book>)
    requires Trades(setup, t) && SystemInv(setup, y) && y.world.inbox != []
    ensures WillAccount(y.world.exec, PaperExchange.Fill(t, y.desk, y.world.inbox[0], book).1)
  {
    NextRequestIsFresh(setup, y);
    assert y.world.exec.gatewayBusy;
    hide PaperExchange.Fill, PaperExchange.Sound, SentInv, LedgerInv, KnownIds, Counts, Refused;
    PaperExchange.FillOutcome(t, y.desk, y.world.inbox[0], book);
    FairIsNotRefused(y.world.exec, y.desk, book, PaperExchange.Fill(t, y.desk, y.world.inbox[0], book).1);
  }

  lemma FillKeepsInv(setup: Setup, t: PaperExchange.Terms, y: System, book: Option<Book>)
    requires Trades(setup, t) && SystemInv(setup, y)
    ensures SystemInv(setup, Step(setup, t, y, Fills(book)))
  {
    if y.world.inbox != [] {
      var req := y.world.inbox[0];
      var (desk, r) := PaperExchange.Fill(t, y.desk, req, book);
      NextRequestIsFresh(setup, y);
      FillStep(setup, t, y, book);
      FillWillBeAccounted(setup, t, y, book);
      PaperExchange.FillKeepsSound(t, y.desk, req, book);
      FillAddsTheId(t, y.desk, req, book);
      AnswerKeepsInv(setup, y.world, r, desk.wallet);
      AnsweredKeepsInv(setup, y, Step(setup, t, y, Fills(book)), r) by {
        hide PaperExchange.Fill, PaperExchange.Sound, Inv, Sound, SentInv, WillAccount, KnownIds;
      }
    }
  }

  /** The parts of the invariant that an answer touches, put together again. */
  lemma AnsweredKeepsInv(setup: Setup, y: System, y': System, r: OrderReport)
    requires SystemInv(setup, y) && |y.world.inbox| == 1 && WillAccount(y.world.exec, r)
    requires Inv(setup, y'.world) && y'.world.exec == y.world.exec && y'.world.missed == y.world.missed
    requires y'.world.inbox == [] && y'.world.outbox == [r]
    requires y'.world.wallet == y'.desk.wallet && PaperExchange.Sound(y'.desk)
    requires y'.desk.orders.Keys == y.desk.orders.Keys + {y.world.inbox[0].clientId}
    ensures SystemInv(setup, y')
  {
    hide WillAccount, SentInv, PaperExchange.Sound, KnownIds;
    FilledIdsKnown(y, y');
  }

  lemma FillAddsTheId(t: PaperExchange.Terms, d: PaperExchange.Desk, req: OrderRequest, book: Option<Book>)
    requires PaperExchange.ValidTerms(t)
    ensures PaperExchange.Fill(t, d, req, book).0.orders.Keys == d.orders.Keys + {req.clientId}
  {
    hide PaperExchange.Fillable, PaperExchange.WellFormedOrder, PriceOf, QuantityOf, PaperExchange.TradeWallet,
         PaperExchange.Times;
  }

  lemma FilledIdsKnown(y: System, y': System)
    requires KnownIds(y) && |y.world.inbox| == 1 && y.world.exec.sent != []
    requires y.world.exec.sent[|y.world.exec.sent| - 1].clientId == y.world.inbox[0].clientId
    requires y'.world.exec.sent == y.world.exec.sent && y'.world.inbox == []
    requires y'.desk.orders.Keys == y.desk.orders.Keys + {y.world.inbox[0].clientId}
    ensures KnownIds(y')
  {
    forall id | id in y'.desk.orders
      ensures exists i :: 0 <= i < |y'.world.exec.sent| - |y'.world.inbox| && y'.world.exec.sent[i].clientId == id
    {
      if id in y.desk.orders {
        var i :| 0 <= i < |y.world.exec.sent| - 1 && y.world.exec.sent[i].clientId == id;
        assert y'.world.exec.sent[i].clientId == id;
      } else {
        assert y'.world.exec.sent[|y.world.exec.sent| - 1].clientId == id;
      }
    }
  }

  /** Sending an order moves it from nowhere to the inbox: what the desk has seen
      stays where it was in the list. */
  lemma SentIdsKnown(y: System, y': System)
    requires KnownIds(y) && y'.desk == y.desk && y.world.exec.sent <= y'.world.exec.sent
    requires y'.world.inbox == y.world.inbox + NewOrders(y.world.exec.sent, y'.world.exec.sent)
    ensures KnownIds(y')
  {
    var n := |y.world.exec.sent| - |y.world.inbox|;
    assert |y'.world.exec.sent| - |y'.world.inbox| == n;
    forall id | id in y'.desk.orders ensures exists i :: 0 <= i < n && y'.world.exec.sent[i].clientId == id {
      var i :| 0 <= i < n && y.world.exec.sent[i].clientId == id;
      assert y'.world.exec.sent[i] == y.world.exec.sent[i];
    }
  }

  lemma HandlerKeepsInv(setup: Setup, t: PaperExchange.Terms, y: System, e: Event)
    requires Trades(setup, t) && SystemInv(setup, y)
    ensures SystemInv(setup, Step(setup, t, y, Handler(e)))
  {
    if !e.GatewayAnswers? {
      var w, w' := y.world, ExecutionRuns.Step(setup, y.world, e);
      HandlerFacts(setup, w, e);
      ExecutionRuns.StepKeepsInv(setup, w, e);
      StepKeepsSound(setup, w, e);
      StepKeepsSentInv(setup, w, e);
      if w.exec.state.Halted? { HaltedStep(setup, w, e); }
      hide ExecutionRuns.Step, Inv, Sound, PaperExchange.Sound, SentInv, KnownIds, NewOrders, MissedAfter, SystemInv;
      HandledKeepsInv(setup, y, e, w');
    }
  }

  lemma HandledKeepsInv(setup: Setup, y: System, e: Event, w': World)
    requires SystemInv(setup, y) && Inv(setup, w') && Sound(setup, w'.exec) && SentInv(setup, w'.exec)
    requires w'.wallet == y.world.wallet && Sends(y.world.exec, w'.exec)
    requires w'.inbox == y.world.inbox + NewOrders(y.world.exec.sent, w'.exec.sent)
    requires if e.Delivery? && y.world.outbox != []
             then w'.outbox == y.world.outbox[1..] && w'.missed == MissedAfter(y.world, y.world.outbox[0])
             else w'.outbox == y.world.outbox && (w'.missed == y.world.missed || w'.missed.None?)
    requires y.world.exec.state.Halted? ==> w'.exec.state.Halted?
    ensures SystemInv(setup, y.(world := w'))
  {
    hide Inv, Sound, PaperExchange.Sound, SentInv, KnownIds, NewOrders, MissedAfter, WillAccount;
    SentIdsKnown(y, y.(world := w'));
    HandledOutbox(setup, y.world, w');
    HandledMissed(setup, y.world, e, w');
  }

  /** What is left in the outbox after a handler will still be accounted. */
  lemma HandledOutbox(setup: Setup, w: World, w': World)
    requires Inv(setup, w) && Inv(setup, w') && Sound(setup, w.exec) && Sound(setup, w'.exec)
    requires Sends(w.exec, w'.exec) && w'.inbox == w.inbox + NewOrders(w.exec.sent, w'.exec.sent)
    requires w.outbox != [] ==> w'.outbox == w.outbox || w'.outbox == w.outbox[1..]
    requires w.outbox == [] ==> w'.outbox == []
    requires w.outbox != [] ==> WillAccount(w.exec, w.outbox[0])
    ensures w'.outbox != [] ==> WillAccount(w'.exec, w'.outbox[0])
  {
    hide LedgerInv, Counts, WillAccount;
    if w'.outbox != [] { OutboxStays(setup, w, w'); }
  }

  lemma HandledMissed(setup: Setup, w: World, e: Event, w': World)
    requires Inv(setup, w) && (w.outbox != [] ==> WillAccount(w.exec, w.outbox[0]))
    requires w.missed.Some? ==> w.exec.state.Halted?
    requires w.exec.state.Halted? ==> w'.exec.state.Halted?
    requires if e.Delivery? && w.outbox != [] then w'.missed == MissedAfter(w, w.outbox[0])
             else w'.missed == w.missed || w'.missed.None?
    ensures w'.missed.Some? ==> w'.exec.state.Halted?
  {
    hide LedgerInv, Counts, Refused;
    assert e.Delivery? && w.outbox != [] && !w.exec.state.Halted? ==> Accounts(w.exec, w.outbox[0]);
  }

  /** An answer still waiting is for the same order as before. */
  lemma OutboxStays(setup: Setup, w: World, w': World)
    requires Requests(w) && Requests(w') && Orders(setup, w.exec) && Orders(setup, w'.exec) && Shape(setup, w.exec)
    requires Shape(setup, w'.exec)
    requires Sends(w.exec, w'.exec) && w'.inbox == w.inbox + NewOrders(w.exec.sent, w'.exec.sent)
    requires w'.outbox != [] && w'.outbox == w.outbox
    requires WillAccount(w.exec, w.outbox[0])
    ensures WillAccount(w'.exec, w'.outbox[0])
  {}

  /** The posted begin will find its cycle to be begun. */
  ghost predicate StartsTrading(w: World) {
    w.exec.state.Validating? && !w.exec.stopping && Funded(w.exec, w.wallet)
  }

  /** What the two busiest handlers make of the world, field by field. */
  lemma BeginStep(setup: Setup, t: PaperExchange.Terms, y: System, snapshot: Snapshot, clock: seq<int>, throws: bool)
    requires Trades(setup, t) && Typed(setup, y.world.exec) && |snapshot| == |setup.markets| && |clock| == LEGS
    ensures var w, starts := y.world, StartsTrading(y.world);
            var after := Begin(setup, w.exec, w.wallet, snapshot, clock, throws);
            Step(setup, t, y, Handler(PostedBegin(snapshot, clock, throws)))
              == y.(world := w.(exec := after, inbox := w.inbox + NewOrders(w.exec.sent, after.sent),
                           trading := w.trading || starts, base := if starts then w.wallet else w.base))
  {
    hide Begin, Typed, Trades;
  }

  lemma DeliveryStep(setup: Setup, t: PaperExchange.Terms, y: System, throws: bool)
    requires Trades(setup, t) && Typed(setup, y.world.exec) && y.world.outbox != []
    ensures var w, answer := y.world, y.world.outbox[0];
            var after := Callback(setup, w.exec, answer, throws);
            Step(setup, t, y, Handler(Delivery(throws)))
              == y.(world := w.(exec := after, inbox := w.inbox + NewOrders(w.exec.sent, after.sent),
                           outbox := w.outbox[1..], delivered := w.delivered + [answer],
                           missed := MissedAfter(w, answer)))
  {
    hide Callback, Typed, Trades, MissedAfter;
  }

  lemma NothingToFill(setup: Setup, t: PaperExchange.Terms, y: System, book: Option<Book>)
    requires Trades(setup, t) && Typed(setup, y.world.exec) && y.world.inbox == []
    ensures Step(setup, t, y, Fills(book)) == y
  {}

  // ------------------------------------------------------------ all runs

  lemma StepKeepsInv(setup: Setup, t: PaperExchange.Terms, y: System, h: Happening)
    requires Trades(setup, t) && SystemInv(setup, y)
    ensures SystemInv(setup, Step(setup, t, y, h))
  {
    match h
    case Handler(e) => HandlerKeepsInv(setup, t, y, e);
    case Fills(book) => FillKeepsInv(setup, t, y, book);
  }

  ghost function Run(setup: Setup, t: PaperExchange.Terms, y: System, hs: seq<Happening>): System
    requires Trades(setup, t) && SystemInv(setup, y)
    decreases |hs|
  {
    if hs == [] then y
    else
      StepKeepsInv(setup, t, y, hs[0]);
      Run(setup, t, Step(setup, t, y, hs[0]), hs[1..])
  }

  lemma {:induction false} RunKeepsInv(setup: Setup, t: PaperExchange.Terms, y: System, hs: seq<Happening>)
    requires Trades(setup, t) && SystemInv(setup, y)
    ensures SystemInv(setup, Run(setup, t, y, hs))
    decreases |hs|
  {
    if hs != [] {
      StepKeepsInv(setup, t, y, hs[0]);
      hide Step;
      RunKeepsInv(setup, t, Step(setup, t, y, hs[0]), hs[1..]);
    }
  }

  ghost function FreshSystem(setup: Setup, wallet: Balances): (y: System)
    requires ValidSetup(setup) && PaperExchange.NonNegative(wallet)
    ensures SystemInv(setup, y)
  {
    System(InitialWorld(setup, wallet), PaperExchange.Desk(wallet, map[], map[]))
  }

  /** The whole program on the simulated exchange, in every run: each request the
      desk meets is new to it and gets its own answer, every answer is one the
      executor accounts unless it has halted, the wallet never goes negative, and
      outside Halted the executor's books agree with it once a cycle trades. */
  lemma PaperTrading(setup: Setup, t: PaperExchange.Terms, wallet: Balances, hs: seq<Happening>)
    requires Trades(setup, t) && PaperExchange.NonNegative(wallet)
    ensures var y := Run(setup, t, FreshSystem(setup, wallet), hs);
            && y.world.wallet == y.desk.wallet && PaperExchange.NonNegative(y.desk.wallet)
            && (y.world.inbox != [] ==> y.world.inbox[0].clientId !in y.desk.orders)
            && (y.world.outbox != [] ==> WillAccount(y.world.exec, y.world.outbox[0]))
            && (y.world.trading && !y.world.exec.state.Halted? ==> BooksAgree(setup, y.world))
  {
    var y := Run(setup, t, FreshSystem(setup, wallet), hs);
    RunKeepsInv(setup, t, FreshSystem(setup, wallet), hs);
    if y.world.inbox != [] { NextRequestIsFresh(setup, y); }
    hide Run, FreshSystem, Worth, Sound, KnownIds, SentInv, Requests;
    if y.world.trading && !y.world.exec.state.Halted? {
      forall a ensures OwnGain(y.world, a) == WalletGain(setup, y.world, a) {
        assert MissedWorth(setup, y.world, a) == 0.0;
      }
    }
  }

  // ------------------------------------------------------------ from configuration to fill

  /** The setup is what validate_arbitrage made of the markets' assets. */
  ghost predicate Configured(setup: Setup, pairs: seq<Triangles.Pair>) {
    && |pairs| == |setup.markets|
    && (forall k :: 0 <= k < |pairs| ==> pairs[k] == Triangles.Pair(setup.markets[k].base, setup.markets[k].quote))
    && (forall g :: 0 <= g < |setup.groups| ==> exists ix :: Triangles.SoundGroup(pairs, ix, setup.groups[g]))
  }

  /** So every candidate that try_start takes spends USDT first. */
  lemma KnownPathsSpendUsdt(setup: Setup, pairs: seq<Triangles.Pair>, c: Opportunity)
    requires ValidSetup(setup) && Configured(setup, pairs) && KnownPath(setup, c) && ValidPath(setup, c.path)
    ensures SpentAsset(setup, c.path[0]) == USDT
  {
    var group := setup.groups[c.groupIndex];
    var ix :| Triangles.SoundGroup(pairs, ix, group);
    assert c.path == group.paths[0] || c.path == group.paths[1];
  }

  lemma OnlyFundedCyclesSend(setup: Setup, s: Exec, account: Balances, snapshot: Snapshot, clock: seq<int>)
    requires Typed(setup, s) && |snapshot| == |setup.markets| && |clock| == LEGS
    requires Begin(setup, s, account, snapshot, clock, false).sent != s.sent
    ensures s.state.Validating? && Funded(s, account) && Get(account, USDT) >= s.cycle.budget
  {
    hide ValidSetup, ValidPath, PreflightFrom, NextLeg;
  }

  /** End to end, in every run of a validated configuration: when begin sends a
      first order, it costs at most the budget and is marketable within the best
      level of the book it was checked with, and if the exchange's next handler
      meets that book, unconsumed, it fills the order completely with a report
      that the executor accounts. */
  lemma FirstOrdersFill(setup: Setup, pairs: seq<Triangles.Pair>, t: PaperExchange.Terms, wallet: Balances,
                        hs: seq<Happening>, snapshot: Snapshot, clock: seq<int>)
    requires Trades(setup, t) && PaperExchange.NonNegative(wallet) && Configured(setup, pairs)
    requires |snapshot| == |setup.markets| && |clock| == LEGS
    ensures var y := Run(setup, t, FreshSystem(setup, wallet), hs);
            Typed(setup, y.world.exec)
            && var y1 := Step(setup, t, y, Handler(PostedBegin(snapshot, clock, false)));
               y1.world.exec.sent != y.world.exec.sent ==> FillsWhole(setup, t, y1, y.world.exec.cycle.budget, snapshot)
  {
    var y := Run(setup, t, FreshSystem(setup, wallet), hs);
    RunKeepsInv(setup, t, FreshSystem(setup, wallet), hs);
    BegunFills(setup, pairs, t, y, snapshot, clock);
  }

  /** The order just sent is covered by its book and filled on it. */
  ghost predicate FillsWhole(setup: Setup, t: PaperExchange.Terms, y: System, budget: real, snapshot: Snapshot)
    requires Trades(setup, t)
  {
    && Typed(setup, y.world.exec) && y.world.exec.pending.Some? && y.world.inbox == [y.world.exec.pending.value]
    && var order := y.world.exec.pending.value;
       && order.symbolIndex < |snapshot| && snapshot[order.symbolIndex].Some?
       && var book := snapshot[order.symbolIndex].value;
          && EndToEnd.Covered(order, book, budget)
          && (EndToEnd.Unconsumed(y.desk, order, book) ==>
                var y2 := Step(setup, t, y, Fills(Some(book)));
                |y2.world.outbox| == 1 && EndToEnd.WholeFill(y2.world.exec, order, book, y2.world.outbox[0]))
  }

  lemma BegunState(setup: Setup, t: PaperExchange.Terms, y: System, snapshot: Snapshot, clock: seq<int>)
    requires Trades(setup, t) && SystemInv(setup, y)
    requires |snapshot| == |setup.markets| && |clock| == LEGS
    ensures var y1 := Step(setup, t, y, Handler(PostedBegin(snapshot, clock, false)));
            && SystemInv(setup, y1) && y1.desk == y.desk
            && y1.world.exec == Begin(setup, y.world.exec, y.world.wallet, snapshot, clock, false)
            && (y1.world.exec.sent != y.world.exec.sent ==>
                  y1.world.exec.pending.Some? && y1.world.inbox == [y1.world.exec.pending.value])
  {
    var begin := PostedBegin(snapshot, clock, false);
    var y1 := Step(setup, t, y, Handler(begin));
    HandlerKeepsInv(setup, t, y, begin);
    StepKeepsSound(setup, y.world, begin);
    HandlerFacts(setup, y.world, begin);
    BegunIsBegin(setup, y.world, snapshot, clock);
    hide ExecutionRuns.Step, Begin, Sends, LedgerInv, Counts, Sound, SentInv, KnownIds;
    if y1.world.exec.sent != y.world.exec.sent { BegunInbox(setup, y.world, y1.world); }
  }

  lemma BegunFills(setup: Setup, pairs: seq<Triangles.Pair>, t: PaperExchange.Terms, y: System,
                   snapshot: Snapshot, clock: seq<int>)
    requires Trades(setup, t) && SystemInv(setup, y) && Configured(setup, pairs)
    requires |snapshot| == |setup.markets| && |clock| == LEGS
    ensures var y1 := Step(setup, t, y, Handler(PostedBegin(snapshot, clock, false)));
            y1.world.exec.sent != y.world.exec.sent ==> FillsWhole(setup, t, y1, y.world.exec.cycle.budget, snapshot)
  {
    BegunState(setup, t, y, snapshot, clock);
    var y1 := Step(setup, t, y, Handler(PostedBegin(snapshot, clock, false)));
    hide Step, Begin, Configured, EndToEnd.FillsOnce, FillsWhole;
    if y1.world.exec.sent != y.world.exec.sent {
      BegunOrderFills(setup, pairs, t, y, snapshot, clock);
      SnapshotBookFills(setup, t, y1, y.world.exec.cycle.budget, snapshot);
    }
  }

  lemma BegunIsBegin(setup: Setup, w: World, snapshot: Snapshot, clock: seq<int>)
    requires Typed(setup, w.exec) && |snapshot| == |setup.markets| && |clock| == LEGS
    ensures ExecutionRuns.Step(setup, w, PostedBegin(snapshot, clock, false)).exec
         == Begin(setup, w.exec, w.wallet, snapshot, clock, false)
  {
    hide Begin;
  }

  lemma BegunOrderFills(setup: Setup, pairs: seq<Triangles.Pair>, t: PaperExchange.Terms, y: System,
                        snapshot: Snapshot, clock: seq<int>)
    requires Trades(setup, t) && SystemInv(setup, y) && Configured(setup, pairs)
    requires |snapshot| == |setup.markets| && |clock| == LEGS
    requires Begin(setup, y.world.exec, y.world.wallet, snapshot, clock, false).sent != y.world.exec.sent
    ensures EndToEnd.FillsOnce(t, Begin(setup, y.world.exec, y.world.wallet, snapshot, clock, false), y.desk,
                      y.world.exec.cycle.budget, snapshot)
  {
    var s := y.world.exec;
    OnlyFundedCyclesSend(setup, s, y.world.wallet, snapshot, clock);
    KnownPathsSpendUsdt(setup, pairs, s.cycle.opportunity);
    EndToEnd.FirstLegFillsWhole(setup, s, y.desk.wallet, snapshot, clock, t, y.desk);
  }

  lemma SnapshotBookFills(setup: Setup, t: PaperExchange.Terms, y: System, budget: real, snapshot: Snapshot)
    requires Trades(setup, t) && SystemInv(setup, y) && EndToEnd.FillsOnce(t, y.world.exec, y.desk, budget, snapshot)
    requires y.world.exec.pending.Some? && y.world.inbox == [y.world.exec.pending.value]
    ensures FillsWhole(setup, t, y, budget, snapshot)
  {
    NextRequestIsFresh(setup, y);
    FillStep(setup, t, y, snapshot[y.world.exec.pending.value.symbolIndex]);
    assert Typed(setup, y.world.exec);
    hide Step, EndToEnd.Covered, EndToEnd.Unconsumed, PaperExchange.Fill, EndToEnd.WholeFill, SystemInv, Typed;
  }

  lemma BegunInbox(setup: Setup, w: World, w': World)
    requires Requests(w') && Sends(w.exec, w'.exec) && w'.exec.sent != w.exec.sent
    requires w'.inbox == w.inbox + NewOrders(w.exec.sent, w'.exec.sent)
    ensures w'.exec.pending.Some? && w'.inbox == [w'.exec.pending.value] && w'.outbox == []
  {}
}
