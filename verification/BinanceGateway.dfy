/** The REST gateway of src/execution/binance_gateway.cpp: the report decoded
    from a response, the wallet it books, what the outcome of one POST allows it
    to say, and the FIFO worker that runs the requests. */
module BinanceExchange {
  import opened Basics
  import opened Trading
  import opened BinanceRequest

  function OrderStatusOf(s: string): OrderStatus {
    if s == "NEW" || s == "PENDING_NEW" then Open
    else if s == "PARTIALLY_FILLED" then PartiallyFilled
    else if s == "FILLED" then Filled
    else if s == "CANCELED" || s == "PENDING_CANCEL" then Canceled
    else if s == "EXPIRED" || s == "EXPIRED_IN_MATCH" then Expired
    else if s == "REJECTED" then Rejected
    else Unknown
  }

  // ------------------------------------------------------------ parse_order

  function TradedQty(fills: seq<FillRow>): real {
    if fills == [] then 0.0 else TradedQty(fills[..|fills| - 1]) + fills[|fills| - 1].qty
  }

  function FeesIn(fills: seq<FillRow>, a: Asset): real {
    if fills == [] then 0.0
    else FeesIn(fills[..|fills| - 1], a)
         + (if fills[|fills| - 1].commissionAsset == a then fills[|fills| - 1].commission else 0.0)
  }

  function FeeAssets(fills: seq<FillRow>): set<Asset> {
    set i | 0 <= i < |fills| :: fills[i].commissionAsset
  }

  function ReportFor(id: ClientId, revision: nat, order: OrderBody): OrderReport {
    var fills := if order.fills.Some? then order.fills.value else [];
    OrderReport(id, revision, OrderStatusOf(order.status), order.executedQty, order.quoteQty,
                map a | a in FeeAssets(fills) :: FeesIn(fills, a),
                if order.fills.Some? then TradedQty(fills) == order.executedQty else order.executedQty == 0.0)
  }

  /** The fill loop: per-asset fees and the traded quantity, one row at a time. */
  method ParseFills(fills: seq<FillRow>) returns (tradeQty: real, commissions: Balances)
    ensures tradeQty == TradedQty(fills)
    ensures commissions.Keys == FeeAssets(fills)
    ensures forall a :: Get(commissions, a) == FeesIn(fills, a)
  {
    tradeQty, commissions := 0.0, map[];
    var i := 0;
    while i < |fills|
      invariant 0 <= i <= |fills|
      invariant tradeQty == TradedQty(fills[..i])
      invariant commissions.Keys == FeeAssets(fills[..i])
      invariant forall a :: Get(commissions, a) == FeesIn(fills[..i], a)
    {
      assert fills[..i + 1][..i] == fills[..i];
      assert FeeAssets(fills[..i + 1]) == FeeAssets(fills[..i]) + {fills[i].commissionAsset} by {
        forall x | x in FeeAssets(fills[..i]) ensures x in FeeAssets(fills[..i + 1]) {
          var k :| 0 <= k < i && fills[..i][k].commissionAsset == x;
          assert fills[..i + 1][k].commissionAsset == x;
        }
        assert fills[..i + 1][i].commissionAsset == fills[i].commissionAsset;
      }
      tradeQty := tradeQty + fills[i].qty;
      commissions := Credit(commissions, fills[i].commissionAsset, fills[i].commission);
      i := i + 1;
    }
    assert fills[..|fills|] == fills;
  }

  /** More fills on the same order never drop a fee, so successive responses of
      an order whose fill list only grows always book exactly. */
  lemma GrowingFillsKeepFees(id: ClientId, r1: nat, r2: nat, first: OrderBody, second: OrderBody)
    requires first.fills.Some? && second.fills.Some? && first.fills.value <= second.fills.value
    ensures KeepsFees(ReportFor(id, r1, first), ReportFor(id, r2, second))
  {
    var f, g := first.fills.value, second.fills.value;
    forall x | x in FeeAssets(f) ensures x in FeeAssets(g) {
      var k :| 0 <= k < |f| && f[k].commissionAsset == x;
      assert g[k] == f[k];
    }
  }

  /** The sums over the fills: nothing for none, the row itself for one, and the
      parts' sums for a list put together. */
  lemma {:induction false} SumsAdd(front: seq<FillRow>, back: seq<FillRow>, row: FillRow, a: Asset)
    ensures TradedQty([]) == 0.0 && TradedQty([row]) == row.qty
    ensures TradedQty(front + back) == TradedQty(front) + TradedQty(back)
    ensures FeesIn([], a) == 0.0 && FeesIn([row], a) == if row.commissionAsset == a then row.commission else 0.0
    ensures FeesIn(front + back, a) == FeesIn(front, a) + FeesIn(back, a)
    decreases |back|
  {
    assert [row][..0] == [];
    if back == [] {
      assert front + back == front;
    } else {
      var n := |back| - 1;
      SumsAdd(front, back[..n], row, a);
      assert (front + back)[..|front + back| - 1] == front + back[..n];
    }
  }

  /** The exchange's text for a status. */
  ghost predicate Says(text: string, status: OrderStatus) {
    match status
    case Open => text == "NEW" || text == "PENDING_NEW"
    case PartiallyFilled => text == "PARTIALLY_FILLED"
    case Filled => text == "FILLED"
    case Canceled => text == "CANCELED" || text == "PENDING_CANCEL"
    case Expired => text == "EXPIRED" || text == "EXPIRED_IN_MATCH"
    case Rejected => text == "REJECTED"
    case Unknown =>
      text !in {"NEW", "PENDING_NEW", "PARTIALLY_FILLED", "FILLED", "CANCELED", "PENDING_CANCEL", "EXPIRED",
                "EXPIRED_IN_MATCH", "REJECTED"}
  }

  /** The report carries an order response: its status text, its cumulative
      amounts, each asset's fees, and whether the fills account for it. */
  ghost predicate Carries(order: OrderBody, report: OrderReport) {
    && (forall status :: report.status == status <==> Says(order.status, status))
    && report.filledQty == order.executedQty && report.filledQuote == order.quoteQty
    && (match order.fills
        case Some(fills) =>
          && (forall a :: a in report.commissions <==> exists k :: 0 <= k < |fills| && fills[k].commissionAsset == a)
          && (forall a :: Get(report.commissions, a) == FeesIn(fills, a))
          && (report.accountingComplete <==> TradedQty(fills) == order.executedQty)
        case None => report.commissions == map[] && (report.accountingComplete <==> order.executedQty == 0.0))
  }

  lemma ReportCarries(id: ClientId, revision: nat, order: OrderBody)
    ensures Carries(order, ReportFor(id, revision, order))
  {
    if order.fills.Some? {
      var fills := order.fills.value;
      forall a ensures a in FeeAssets(fills) <==> exists k :: 0 <= k < |fills| && fills[k].commissionAsset == a {}
      forall a | a !in FeeAssets(fills) ensures FeesIn(fills, a) == 0.0 { NoFee(fills, a); }
    }
  }

  lemma {:induction false} NoFee(fills: seq<FillRow>, a: Asset)
    requires forall k :: 0 <= k < |fills| ==> fills[k].commissionAsset != a
    ensures FeesIn(fills, a) == 0.0
  {
    if fills != [] { NoFee(fills[..|fills| - 1], a); }
  }

  // ------------------------------------------------------------ ledger

  datatype Ledger = Ledger(wallet: Balances, revisions: map<ClientId, nat>, accounted: map<ClientId, OrderReport>)

  function RevisionOf(l: Ledger, id: ClientId): nat {
    if id in l.revisions then l.revisions[id] else 0
  }

  function AccountedFor(l: Ledger, id: ClientId): OrderReport {
    if id in l.accounted then l.accounted[id] else EMPTY_REPORT
  }

  predicate Advances(previous: OrderReport, report: OrderReport) {
    report.filledQty >= previous.filledQty && report.filledQuote >= previous.filledQuote
  }

  function ApplyReport(m: Market, l: Ledger, req: OrderRequest, report: OrderReport): Ledger {
    var previous := AccountedFor(l, report.clientId);
    if !Advances(previous, report) then l
    else l.(wallet := Booked(l.wallet, req, m, report, previous),
            accounted := l.accounted[report.clientId := report])
  }

  /** The accepted subsequence of a stream of reports for one order. */
  function AppliedReports(previous: OrderReport, reports: seq<OrderReport>): seq<OrderReport>
    decreases |reports|
  {
    if reports == [] then []
    else if Advances(previous, reports[0]) then [reports[0]] + AppliedReports(reports[0], reports[1..])
    else AppliedReports(previous, reports[1..])
  }

  function ApplyAll(m: Market, l: Ledger, req: OrderRequest, reports: seq<OrderReport>): Ledger
    decreases |reports|
  {
    if reports == [] then l else ApplyAll(m, ApplyReport(m, l, req, reports[0]), req, reports[1..])
  }

  lemma {:induction false} ApplyAllIsBookAll(m: Market, l: Ledger, req: OrderRequest, reports: seq<OrderReport>)
    requires forall i :: 0 <= i < |reports| ==> reports[i].clientId == req.clientId
    ensures var prev := AccountedFor(l, req.clientId);
            var accepted := AppliedReports(prev, reports);
            && ApplyAll(m, l, req, reports).wallet == BookAll(l.wallet, req, m, prev, accepted)
            && AccountedFor(ApplyAll(m, l, req, reports), req.clientId) == LastReport(prev, accepted)
    decreases |reports|
  {
    if reports != [] {
      var prev := AccountedFor(l, req.clientId);
      assert reports[0].clientId == req.clientId;
      ApplyAllIsBookAll(m, ApplyReport(m, l, req, reports[0]), req, reports[1..]);
      if Advances(prev, reports[0]) {
        var rest := AppliedReports(reports[0], reports[1..]);
        assert AppliedReports(prev, reports)[1..] == rest;
      }
    }
  }

  /** Wallet telescoping: after any stream of reports for one order, stale and
      repeated ones included, the wallet has moved by the effect of the last
      report applied, less the fees that applied reports dropped. */
  lemma WalletTelescopes(m: Market, l: Ledger, req: OrderRequest, reports: seq<OrderReport>, a: Asset)
    requires forall i :: 0 <= i < |reports| ==> reports[i].clientId == req.clientId
    ensures var l' := ApplyAll(m, l, req, reports);
            Get(l'.wallet, a) - Effect(req, m, AccountedFor(l', req.clientId), a)
            == Get(l.wallet, a) - Effect(req, m, AccountedFor(l, req.clientId), a)
               - DroppedFees(AccountedFor(l, req.clientId), AppliedReports(AccountedFor(l, req.clientId), reports), a)
  {
    var prev := AccountedFor(l, req.clientId);
    ApplyAllIsBookAll(m, l, req, reports);
    BookingTelescopes(l.wallet, req, m, prev, AppliedReports(prev, reports), a);
  }

  // ------------------------------------------------------------ one queued submission

  function Bump(l: Ledger, id: ClientId): Ledger {
    l.(revisions := l.revisions[id := RevisionOf(l, id) + 1])
  }

  function FailureReport(l: Ledger, req: OrderRequest, uncertain: bool): OrderReport {
    OrderReport(req.clientId, RevisionOf(l, req.clientId), if uncertain then Unknown else Rejected,
                0.0, 0.0, map[], true)
  }

  /** The queued closure of submit(): the new ledger and the report it delivers. */
  function Submit(markets: seq<Market>, l: Ledger, req: OrderRequest, t: Transport): (Ledger, OrderReport) {
    var id := req.clientId;
    var l1 := Bump(l, id);
    if req.symbolIndex >= |markets| || t.SigningFailed? then (l1, FailureReport(l1, req, false))
    else match CheckedPost(t)
      case RequestError(uncertain) => (l1, FailureReport(l1, req, uncertain))
      case Accepted(None) => var l2 := Bump(l1, id); (l2, FailureReport(l2, req, true))
      case Accepted(Some(order)) =>
        var report := ReportFor(id, RevisionOf(l1, id), order);
        (ApplyReport(markets[req.symbolIndex], l1, req, report), report)
  }

  /** The report carries the exchange's own answer rather than a failure. */
  predicate Decoded(markets: seq<Market>, req: OrderRequest, t: Transport) {
    req.symbolIndex < |markets| && !t.SigningFailed? && CheckedPost(t).Accepted? && CheckedPost(t).order.Some?
  }

  /** One submission as far as the outside is concerned: without parameters or a
      signature no request is made. */
  function Attempt(markets: seq<Market>, req: OrderRequest, connected: bool, sc: Script): Outcome {
    if req.symbolIndex >= |markets| || !sc.signs then Outcome(SigningFailed, UNTOUCHED, connected)
    else Perform(connected, sc)
  }

  /** The exchange knows nothing of the order, or has said so in full. */
  predicate Untaken(x: Exchange) {
    !x.took && (x.received == 0 || (x.said.Some? && (Refusal(x.said.value) || TurnedAway(x.said.value))))
  }

  /** The outcome contract of Gateway, "an uncertain submission is Unknown, never
      Rejected": a Rejected report means that not a byte reached the exchange, or
      that its complete answer was a refusal. */
  lemma RejectedIsUntaken(markets: seq<Market>, l: Ledger, req: OrderRequest, connected: bool, sc: Script)
    ensures var o := Attempt(markets, req, connected, sc);
            Submit(markets, l, req, o.transport).1.status.Rejected? ==> Untaken(o.exchange)
  {
    FlagIsHonest(Stages(connected), sc, AT_REST);
    hide Stages, Try, ApplyReport;
  }

  /** An answer that decodes is what the exchange said of the order it took, or
      turned away at the engine, and the report carries it. */
  lemma DecodedIsLive(markets: seq<Market>, l: Ledger, req: OrderRequest, connected: bool, sc: Script)
    requires Decoded(markets, req, Attempt(markets, req, connected, sc).transport)
    ensures var o := Attempt(markets, req, connected, sc);
            && o.exchange.received == sc.size && o.exchange.said.Some? && o.exchange.said.value.Processed?
            && o.exchange.said.value.order.Some?
            && var order := o.exchange.said.value.order.value;
               && o.exchange.took == (order.status != "REJECTED")
               && Submit(markets, l, req, o.transport).1
                  == ReportFor(req.clientId, RevisionOf(l, req.clientId) + 1, order)
               && Carries(order, Submit(markets, l, req, o.transport).1)
  {
    hide Carries, ReportFor, Perform, ApplyReport;
    StagesMean(connected, sc);
    ReportCarries(req.clientId, RevisionOf(l, req.clientId) + 1,
                  CheckedPost(Perform(connected, sc).transport).order.value);
  }

  /** The same request and transport outcome, with an exchange that took the order. */
  ghost predicate CouldBeTaken(markets: seq<Market>, req: OrderRequest, t: Transport) {
    exists connected, sc :: var o := Attempt(markets, req, connected, sc); o.transport == t && o.exchange.took
  }

  /** And it is no more cautious than it must be: among the failures, Rejected is
      reported exactly when no exchange that took the order could have led to what
      the client saw. */
  lemma RejectedIffImpossible(markets: seq<Market>, l: Ledger, req: OrderRequest, connected: bool, sc: Script)
    requires !Decoded(markets, req, Attempt(markets, req, connected, sc).transport)
    ensures var t := Attempt(markets, req, connected, sc).transport;
            var r := Submit(markets, l, req, t).1;
            && (r.status.Rejected? || r.status.Unknown?)
            && (r.status.Rejected? <==> !CouldBeTaken(markets, req, t))
            && r.filledQty == 0.0 && r.filledQuote == 0.0 && r.commissions == map[]
  {
    var t := Attempt(markets, req, connected, sc).transport;
    var r := Submit(markets, l, req, t).1;
    if r.status.Rejected? {
      forall c, other | Attempt(markets, req, c, other).transport == t
        ensures !Attempt(markets, req, c, other).exchange.took {
        RejectedIsUntaken(markets, l, req, c, other);
      }
    } else {
      UnknownCouldBeTaken(markets, l, req, connected, sc);
    }
  }

  /** The witness: all stages work up to the read, or the same answer is given
      by an exchange that did take the order. */
  lemma UnknownCouldBeTaken(markets: seq<Market>, l: Ledger, req: OrderRequest, connected: bool, sc: Script)
    requires var t := Attempt(markets, req, connected, sc).transport;
             !Decoded(markets, req, t) && Submit(markets, l, req, t).1.status.Unknown?
    ensures CouldBeTaken(markets, req, Attempt(markets, req, connected, sc).transport)
  {
    StagesMean(connected, sc);
    var taken := Script(true, if Attempt(markets, req, connected, sc).transport.Response? then {} else {HttpRead},
                        1, 1, true, Perform(connected, sc).exchange.said, true);
    StagesMean(true, taken);
    hide Perform, ApplyReport;
    assert Attempt(markets, req, true, taken).exchange.took;
    assert Attempt(markets, req, true, taken).transport == Attempt(markets, req, connected, sc).transport;
  }

  /** First submission of a client id: the wallet moves by exactly the effect of
      the report delivered, unless that report carries a negative fill, which
      moves nothing. */
  lemma SubmitBooksItsReport(markets: seq<Market>, l: Ledger, req: OrderRequest, t: Transport, a: Asset)
    requires req.symbolIndex < |markets| && req.clientId !in l.accounted
    ensures var (l', r) := Submit(markets, l, req, t);
            Get(l'.wallet, a) == Get(l.wallet, a)
              + (if Advances(EMPTY_REPORT, r) then Effect(req, markets[req.symbolIndex], r, a) else 0.0)
  {
    var (l', r) := Submit(markets, l, req, t);
    if Decoded(markets, req, t) && Advances(EMPTY_REPORT, r) {
      BookingIsExactIffFeesKept(l.wallet, req, markets[req.symbolIndex], r, EMPTY_REPORT);
      assert Effect(req, markets[req.symbolIndex], EMPTY_REPORT, a) == 0.0;
    }
  }

  lemma SubmitRevision(markets: seq<Market>, l: Ledger, req: OrderRequest, t: Transport)
    ensures var (l', r) := Submit(markets, l, req, t);
            && r.clientId == req.clientId
            && RevisionOf(l, req.clientId) < r.revision == RevisionOf(l', req.clientId)
            && forall id :: id != req.clientId ==> RevisionOf(l', id) == RevisionOf(l, id)
  {}

  // ------------------------------------------------------------ FIFO worker

  /** queue is the deque under queue_mutex, running the operation the worker has
      popped, connected whether a connection is open, delivered the reports posted
      so far; accepted and outcomes record, for specification, every request that
      enqueue() took and how each POST ended. */
  datatype Worker = Worker(ledger: Ledger, queue: seq<OrderRequest>, running: Option<OrderRequest>, connected: bool,
                           stopping: bool, exited: bool, delivered: seq<OrderReport>,
                           accepted: seq<OrderRequest>, outcomes: seq<Outcome>)

  datatype WorkerStep = Enqueue(req: OrderRequest) | Take | Complete(sc: Script) | BeginStop | Exit

  function StepWorker(markets: seq<Market>, w: Worker, s: WorkerStep): Worker {
    match s
    case Enqueue(req) =>
      if w.stopping then w else w.(queue := w.queue + [req], accepted := w.accepted + [req])
    case Take =>
      if w.exited || w.running.Some? || w.queue == [] then w
      else w.(running := Some(w.queue[0]), queue := w.queue[1..])
    case Complete(sc) =>
      if w.running.None? then w
      else
        var o := Attempt(markets, w.running.value, w.connected, sc);
        var (l', r) := Submit(markets, w.ledger, w.running.value, o.transport);
        w.(ledger := l', running := None, connected := o.connected, delivered := w.delivered + [r],
           outcomes := w.outcomes + [o])
    case BeginStop => w.(stopping := true)
    case Exit =>
      if w.running.None? && w.queue == [] && w.stopping then w.(exited := true) else w
  }

  function RunWorker(markets: seq<Market>, w: Worker, steps: seq<WorkerStep>): Worker
    decreases |steps|
  {
    if steps == [] then w else RunWorker(markets, StepWorker(markets, w, steps[0]), steps[1..])
  }

  function Outstanding(w: Worker): seq<OrderRequest> {
    (if w.running.Some? then [w.running.value] else []) + w.queue
  }

  /** The ledger after a list of submissions. */
  function LedgerAfter(markets: seq<Market>, l: Ledger, reqs: seq<OrderRequest>, outcomes: seq<Outcome>): Ledger
    requires |reqs| == |outcomes|
  {
    if reqs == [] then l
    else
      var n := |reqs| - 1;
      Submit(markets, LedgerAfter(markets, l, reqs[..n], outcomes[..n]), reqs[n], outcomes[n].transport).0
  }

  ghost predicate Possible(markets: seq<Market>, req: OrderRequest, o: Outcome) {
    exists connected, sc :: o == Attempt(markets, req, connected, sc)
  }

  /** Delivered report i is what submission i makes of accepted request i and of
      the way its POST ended. */
  ghost predicate Answers(markets: seq<Market>, l: Ledger, w: Worker, i: nat)
    requires i < |w.delivered| == |w.outcomes| <= |w.accepted|
  {
    && Possible(markets, w.accepted[i], w.outcomes[i])
    && w.delivered[i] == Submit(markets, LedgerAfter(markets, l, w.accepted[..i], w.outcomes[..i]),
                                w.accepted[i], w.outcomes[i].transport).1
  }

  ghost predicate AnswersAll(markets: seq<Market>, l: Ledger, w: Worker) {
    && |w.delivered| == |w.outcomes| <= |w.accepted|
    && w.ledger == LedgerAfter(markets, l, w.accepted[..|w.outcomes|], w.outcomes)
    && forall i :: 0 <= i < |w.delivered| ==> Answers(markets, l, w, i)
  }

  lemma CompleteKeepsAnswers(markets: seq<Market>, l: Ledger, w: Worker, sc: Script)
    requires WorkerInv(w) && AnswersAll(markets, l, w) && w.running.Some?
    ensures AnswersAll(markets, l, StepWorker(markets, w, Complete(sc)))
  {
    var w', n := StepWorker(markets, w, Complete(sc)), |w.outcomes|;
    assert w.accepted[n] == w.accepted[n..][0] == w.running.value;
    hide Submit, Attempt, WorkerInv;
    assert w'.accepted[..n + 1][..n] == w.accepted[..n] && w'.outcomes[..n] == w.outcomes == w.outcomes[..n];
    assert Answers(markets, l, w', n);
    forall i | 0 <= i < n ensures Answers(markets, l, w', i) {
      OtherAnswersStay(markets, l, w, w', i);
    }
    hide Answers;
    assert w'.accepted[..n + 1][n] == w.running.value;
  }

  lemma OtherAnswersStay(markets: seq<Market>, l: Ledger, w: Worker, w': Worker, i: nat)
    requires i < |w.delivered| == |w.outcomes| <= |w.accepted| && Answers(markets, l, w, i)
    requires |w'.delivered| == |w'.outcomes| <= |w'.accepted|
    requires w.delivered <= w'.delivered && w.outcomes <= w'.outcomes && w.accepted <= w'.accepted
    ensures Answers(markets, l, w', i)
  {
    hide Submit, Attempt;
    assert w'.accepted[..i] == w.accepted[..i] && w'.outcomes[..i] == w.outcomes[..i];
  }

  lemma StepKeepsAnswers(markets: seq<Market>, l: Ledger, w: Worker, s: WorkerStep)
    requires WorkerInv(w) && AnswersAll(markets, l, w)
    ensures AnswersAll(markets, l, StepWorker(markets, w, s))
  {
    hide Submit, Attempt, WorkerInv, Answers;
    if s.Complete? && w.running.Some? {
      CompleteKeepsAnswers(markets, l, w, s.sc);
    } else {
      var w', n := StepWorker(markets, w, s), |w.outcomes|;
      assert w'.accepted[..n] == w.accepted[..n];
      forall i | 0 <= i < n ensures Answers(markets, l, w', i) {
        OtherAnswersStay(markets, l, w, w', i);
      }
    }
  }

  ghost predicate WorkerInv(w: Worker) {
    && |w.delivered| <= |w.accepted|
    && w.accepted[|w.delivered|..] == Outstanding(w)
    && (forall i :: 0 <= i < |w.delivered| ==> w.delivered[i].clientId == w.accepted[i].clientId)
    && (forall i :: 0 <= i < |w.delivered| ==>
          1 <= w.delivered[i].revision <= RevisionOf(w.ledger, w.delivered[i].clientId))
    && (forall i, j :: 0 <= i < j < |w.delivered| && w.delivered[i].clientId == w.delivered[j].clientId ==>
          w.delivered[i].revision < w.delivered[j].revision)
    && (w.exited ==> w.stopping && Outstanding(w) == [])
  }

  lemma CompleteKeepsWorkerInv(markets: seq<Market>, w: Worker, sc: Script)
    requires WorkerInv(w)
    ensures WorkerInv(StepWorker(markets, w, Complete(sc)))
  {
    hide Submit, RevisionOf, Attempt;
    if w.running.Some? {
      var w' := StepWorker(markets, w, Complete(sc));
      SubmitRevision(markets, w.ledger, w.running.value, Attempt(markets, w.running.value, w.connected, sc).transport);
      assert Outstanding(w)[0] == w.running.value;
      assert w.accepted[|w.delivered|] == w.accepted[|w.delivered|..][0];
      assert w'.accepted[|w'.delivered|..] == w.accepted[|w.delivered|..][1..];
      assert Outstanding(w') == Outstanding(w)[1..];
    }
  }

  lemma StepKeepsWorkerInv(markets: seq<Market>, w: Worker, s: WorkerStep)
    requires WorkerInv(w)
    ensures WorkerInv(StepWorker(markets, w, s))
  {
    var w' := StepWorker(markets, w, s);
    match s {
      case Enqueue(req) =>
        if !w.stopping {
          assert w'.accepted[|w'.delivered|..] == w.accepted[|w.delivered|..] + [req];
          assert Outstanding(w') == Outstanding(w) + [req];
        }
      case Take =>
        if w' != w { assert Outstanding(w') == Outstanding(w); }
      case Complete(sc) => CompleteKeepsWorkerInv(markets, w, sc);
      case BeginStop =>
      case Exit =>
    }
  }

  function FreshLedger(balances: Balances): Ledger { Ledger(balances, map[], map[]) }

  function FreshWorker(balances: Balances, connected: bool): Worker {
    Worker(FreshLedger(balances), [], None, connected, false, false, [], [], [])
  }

  lemma {:induction false} RunKeepsWorkerInv(markets: seq<Market>, l: Ledger, w: Worker, steps: seq<WorkerStep>)
    requires WorkerInv(w) && AnswersAll(markets, l, w)
    ensures WorkerInv(RunWorker(markets, w, steps)) && AnswersAll(markets, l, RunWorker(markets, w, steps))
    decreases |steps|
  {
    hide WorkerInv, AnswersAll, StepWorker;
    if steps != [] {
      StepKeepsWorkerInv(markets, w, steps[0]);
      StepKeepsAnswers(markets, l, w, steps[0]);
      RunKeepsWorkerInv(markets, l, StepWorker(markets, w, steps[0]), steps[1..]);
    }
  }

  lemma FreshWorkerIsSound(markets: seq<Market>, balances: Balances, connected: bool)
    ensures WorkerInv(FreshWorker(balances, connected))
    ensures AnswersAll(markets, FreshLedger(balances), FreshWorker(balances, connected))
  {
    hide Answers, Submit;
    var w := FreshWorker(balances, connected);
    assert w.accepted[|w.delivered|..] == [] && w.accepted[..|w.outcomes|] == [];
  }

  /** Every request accepted by the queue is answered exactly once, in order, by
      the report that its own POST and the earlier ones determine; revisions of an
      order grow; a worker that has exited owes nothing. */
  lemma OneReportPerRequestInOrder(markets: seq<Market>, balances: Balances, connected: bool, steps: seq<WorkerStep>)
    ensures var w := RunWorker(markets, FreshWorker(balances, connected), steps);
            && |w.accepted| == |w.delivered| + |Outstanding(w)| && |w.outcomes| == |w.delivered|
            && (forall i :: 0 <= i < |w.delivered| ==> w.delivered[i].clientId == w.accepted[i].clientId)
            && (forall i :: 0 <= i < |w.delivered| ==> Answers(markets, FreshLedger(balances), w, i))
            && (forall i, j :: 0 <= i < j < |w.delivered| && w.delivered[i].clientId == w.delivered[j].clientId ==>
                  0 < w.delivered[i].revision < w.delivered[j].revision)
            && (w.exited ==> |w.delivered| == |w.accepted|)
  {
    FreshWorkerIsSound(markets, balances, connected);
    RunKeepsWorkerInv(markets, FreshLedger(balances), FreshWorker(balances, connected), steps);
    hide Answers, FreshWorker, RunWorker, FreshLedger;
  }

  /** Over all interleavings, no order that the exchange took is ever reported
      Rejected, and one that is reported Rejected never reached it or was refused
      in full; every other failure is Unknown. */
  lemma TakenIsNeverRejected(markets: seq<Market>, balances: Balances, connected: bool, steps: seq<WorkerStep>, i: nat)
    requires i < |RunWorker(markets, FreshWorker(balances, connected), steps).delivered|
    ensures var w := RunWorker(markets, FreshWorker(balances, connected), steps);
            && i < |w.outcomes| && i < |w.accepted|
            && (w.delivered[i].status.Rejected? ==> Untaken(w.outcomes[i].exchange))
            && (w.outcomes[i].exchange.took ==> !w.delivered[i].status.Rejected?)
            && (!Decoded(markets, w.accepted[i], w.outcomes[i].transport) ==>
                  && (w.delivered[i].status.Rejected? || w.delivered[i].status.Unknown?)
                  && (w.delivered[i].status.Rejected?
                      <==> !CouldBeTaken(markets, w.accepted[i], w.outcomes[i].transport)))
  {
    OneReportPerRequestInOrder(markets, balances, connected, steps);
    var w := RunWorker(markets, FreshWorker(balances, connected), steps);
    hide RunWorker, FreshWorker, Submit, Attempt, Decoded, CouldBeTaken;
    assert Answers(markets, FreshLedger(balances), w, i);
    var c, sc :| w.outcomes[i] == Attempt(markets, w.accepted[i], c, sc);
    var l := LedgerAfter(markets, FreshLedger(balances), w.accepted[..i], w.outcomes[..i]);
    RejectedIsUntaken(markets, l, w.accepted[i], c, sc);
    if !Decoded(markets, w.accepted[i], w.outcomes[i].transport) {
      RejectedIffImpossible(markets, l, w.accepted[i], c, sc);
    }
  }

  /** The gateway object: its dictionaries, and the queue its worker drains. */
  class BinanceGateway {
    const markets: seq<Market>
    var wallet: Balances
    var revisions: map<ClientId, nat>
    var accounted: map<ClientId, OrderReport>
    var queue: seq<OrderRequest>
    var running: Option<OrderRequest>
    var connection: bool
    var stopping: bool
    var exited: bool
    var delivered: seq<OrderReport>
    ghost var accepted: seq<OrderRequest>
    ghost var outcomes: seq<Outcome>

    function LedgerView(): Ledger
      reads this
    {
      Ledger(wallet, revisions, accounted)
    }

    ghost function View(): Worker
      reads this
    {
      Worker(LedgerView(), queue, running, connection, stopping, exited, delivered, accepted, outcomes)
    }

    /** refresh_balances() may have left a connection open. */
    constructor (m: seq<Market>, balances: Balances, connected: bool)
      ensures markets == m && View() == FreshWorker(balances, connected)
    {
      markets := m;
      wallet, revisions, accounted := balances, map[], map[];
      queue, running, connection, stopping, exited := [], None, connected, false, false;
      delivered, accepted, outcomes := [], [], [];
    }

    method Enqueue(req: OrderRequest) returns (threw: bool)
      modifies this
      ensures View() == StepWorker(markets, old(View()), WorkerStep.Enqueue(req))
      ensures threw == old(stopping)
    {
      if stopping { return true; }
      queue := queue + [req];
      accepted := accepted + [req];
      threw := false;
    }

    /** One turn of run(): wait, then pop or return. */
    method Take()
      requires running.None? && !exited
      modifies this
      ensures View() == StepWorker(markets, old(View()), if old(queue) == [] then Exit else WorkerStep.Take)
    {
      if queue == [] {
        if stopping { exited := true; }
      } else {
        running := Some(queue[0]);
        queue := queue[1..];
      }
    }

    method BumpRevision(id: ClientId) returns (revision: nat)
      modifies this`revisions
      ensures LedgerView() == Bump(old(LedgerView()), id)
      ensures revision == RevisionOf(LedgerView(), id)
    {
      revision := (if id in revisions then revisions[id] else 0) + 1;
      revisions := revisions[id := revision];
    }

    method ApplyOne(req: OrderRequest, report: OrderReport)
      requires req.symbolIndex < |markets| && markets[req.symbolIndex].base != markets[req.symbolIndex].quote
      modifies this`wallet, this`accounted
      ensures LedgerView() == ApplyReport(markets[req.symbolIndex], old(LedgerView()), req, report)
      ensures var last := if report.clientId in old(accounted) then old(accounted)[report.clientId] else EMPTY_REPORT;
              if report.filledQty < last.filledQty || report.filledQuote < last.filledQuote then
                wallet == old(wallet) && accounted == old(accounted)
              else
                && accounted == old(accounted)[report.clientId := report]
                && BooksTo(req, markets[req.symbolIndex], report, last, old(wallet), wallet)
    {
      BookedBooksTo(req, markets[req.symbolIndex], report, AccountedFor(LedgerView(), report.clientId), wallet);
      hide Booked, BooksTo;
      var previous := AccountedFor(LedgerView(), report.clientId);
      if report.filledQty < previous.filledQty || report.filledQuote < previous.filledQuote { return; }
      wallet := BookReport(wallet, req, markets[req.symbolIndex], report, previous);
      accounted := accounted[report.clientId := report];
    }

    /** The stages inside the try block of request(): whether an exception was
        thrown, whether the write had begun by then, and the response. */
    method TryStages(sc: Script) returns (response: Option<Reply>, writeStarted: bool)
      modifies this`connection
      ensures writeStarted == Writes(old(connection), sc)
      ensures response == if Answered(old(connection), sc) then Served(sc).said else None
      ensures response.Some? ==> connection == sc.keepAlive
    {
      StagesMean(connection, sc);
      hide Perform, Served;
      writeStarted, response := false, None;
      if !connection {
        if TlsSetup in sc.fails { return; }
        connection := true;
        if DnsResolve in sc.fails || TcpConnect in sc.fails || TlsHandshake in sc.fails { return; }
      }
      if RequestBuild in sc.fails { return; }
      writeStarted := true;
      if HttpWrite in sc.fails || WriteObserver in sc.fails || HttpRead in sc.fails { return; }
      response := Served(sc).said;
      if !sc.keepAlive { connection := false; }
    }

    /** request(): what is thrown or returned, and the connection it leaves. */
    method Request(sc: Script) returns (t: Transport)
      modifies this`connection
      ensures t == Perform(old(connection), sc).transport && connection == Perform(old(connection), sc).connected
    {
      StagesMean(connection, sc);
      hide Perform, Served;
      var response, writeStarted := TryStages(sc);
      if response.Some? { return Sent(response.value); }
      connection := false;
      t := if writeStarted then FailedAfterWriteBegan else FailedBeforeWrite;
    }

    /** The report of one submission, booked. */
    method Answer(req: OrderRequest, sc: Script) returns (report: OrderReport)
      requires forall i :: 0 <= i < |markets| ==> markets[i].base != markets[i].quote
      modifies this`connection, this`wallet, this`revisions, this`accounted
      ensures connection == Attempt(markets, req, old(connection), sc).connected
      ensures (LedgerView(), report)
           == Submit(markets, old(LedgerView()), req, Attempt(markets, req, old(connection), sc).transport)
    {
      hide Perform, CheckedPost, ReportFor, Booked;
      var revision := BumpRevision(req.clientId);
      if req.symbolIndex >= |markets| || !sc.signs {
        return OrderReport(req.clientId, revision, Rejected, 0.0, 0.0, map[], true);
      }
      var t := Request(sc);
      var answer := CheckedPost(t);
      if answer.RequestError? {
        report := OrderReport(req.clientId, revision, if answer.uncertain then Unknown else Rejected,
                              0.0, 0.0, map[], true);
      } else if answer.order.None? {
        revision := BumpRevision(req.clientId);
        report := OrderReport(req.clientId, revision, Unknown, 0.0, 0.0, map[], true);
      } else {
        report := ParseOrder(req.clientId, revision, answer.order.value);
        ApplyOne(req, report);
      }
    }

    /** The queued closure: sign, send, decode, book, deliver. */
    method Complete(sc: Script)
      requires running.Some?
      requires forall i :: 0 <= i < |markets| ==> markets[i].base != markets[i].quote
      modifies this
      ensures View() == StepWorker(markets, old(View()), WorkerStep.Complete(sc))
    {
      var req := running.value;
      hide Submit, Attempt;
      ghost var o := Attempt(markets, req, connection, sc);
      running := None;
      var report := Answer(req, sc);
      delivered := delivered + [report];
      outcomes := outcomes + [o];
    }
  }

  method ParseOrder(id: ClientId, revision: nat, order: OrderBody) returns (report: OrderReport)
    ensures report == ReportFor(id, revision, order)
    ensures report.clientId == id && report.revision == revision && Carries(order, report)
  {
    ReportCarries(id, revision, order);
    var complete := order.executedQty == 0.0;
    var commissions: Balances := map[];
    if order.fills.Some? {
      var tradeQty;
      tradeQty, commissions := ParseFills(order.fills.value);
      complete := tradeQty == order.executedQty;
    }
    SameBalances(commissions, ReportFor(id, revision, order).commissions);
    report := OrderReport(id, revision, OrderStatusOf(order.status), order.executedQty, order.quoteQty, commissions,
                          complete);
  }
}
