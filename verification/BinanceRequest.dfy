/** One signed POST of src/execution/binance_gateway.cpp: the stages of request(),
    any of which may throw, the exchange at the other end with its own state, and
    what checked() makes of the result. TLS, HTTP and JSON text are outside; a
    stage either works or throws, and a response arrives whole or not at all. */
module BinanceRequest {
  import opened Basics
  import opened Trading

  datatype FillRow = FillRow(qty: real, commissionAsset: Asset, commission: real)

  /** A decoded order response. */
  datatype OrderBody = OrderBody(status: string, executedQty: real, quoteQty: real, fills: Option<seq<FillRow>>)

  /** Body of a complete response: not JSON, or JSON with an optional integer
      "code" and, when every required field decodes, an order. */
  datatype Body = Garbled | Json(code: Option<int>, order: Option<OrderBody>)

  datatype Transport =
    | SigningFailed                       // exception before the request is handed to the transport
    | FailedBeforeWrite                   // connect, handshake or request building failed
    | FailedAfterWriteBegan               // the POST write started, no complete response arrived
    | Response(status: nat, body: Body)

  // ------------------------------------------------------------ the exchange

  /** A complete response by what the exchange means with it: the order was
      processed, the request was refused, or one of the answers that its
      documentation calls "execution status unknown". */
  datatype Reply =
    | Processed(status: nat, note: Option<nat>, order: Option<OrderBody>)
    | ClientError(status: nat, body: Body)     // 4XX and other statuses that are neither success nor 5XX
    | ErrorCode(status: nat, body: Body)       // a negative code under a success status
    | StatusUnknown(status: nat, body: Body)   // -1006 and -1007
    | ServerError(status: nat, body: Body)     // 5XX
    | Unreadable(status: nat)                  // success, with a body that is not JSON

  const UNEXPECTED_RESPONSE := -1006
  const BACKEND_TIMEOUT := -1007

  predicate Success(status: nat) { 200 <= status < 300 }

  predicate UnknownCode(code: int) { code == UNEXPECTED_RESPONSE || code == BACKEND_TIMEOUT }

  predicate WellFormed(r: Reply) {
    match r
    case Processed(status, note, order) => Success(status)
    case ClientError(status, body) => !Success(status) && status < 500 && !UnknownCode(CodeOf(body))
    case ErrorCode(status, body) => Success(status) && CodeOf(body) < 0 && !UnknownCode(CodeOf(body))
    case StatusUnknown(status, body) => status < 500 && UnknownCode(CodeOf(body))
    case ServerError(status, body) => status >= 500
    case Unreadable(status) => Success(status)
  }

  predicate Refusal(r: Reply) { r.ClientError? || r.ErrorCode? }

  /** The answer is an order that the matching engine did not let in. */
  predicate TurnedAway(r: Reply) { r.Processed? && r.order.Some? && r.order.value.status == "REJECTED" }

  /** Whether an exchange that did or did not take the order may answer so. */
  predicate MaySay(r: Reply, took: bool) {
    if Refusal(r) || TurnedAway(r) then !took
    else r.Processed? && r.order.Some? ==> took
  }

  function Sent(r: Reply): Transport {
    match r
    case Processed(status, note, order) =>
      Response(status, Json(if note.Some? then Some(note.value as int) else None, order))
    case Unreadable(status) => Response(status, Garbled)
    case _ => Response(r.status, r.body)
  }

  /** Nothing a server can send is left out. */
  lemma EveryResponseIsAReply(status: nat, body: Body)
    ensures exists r :: WellFormed(r) && Sent(r) == Response(status, body)
  {
    var code := CodeOf(body);
    var r :=
      if status >= 500 then ServerError(status, body)
      else if UnknownCode(code) then StatusUnknown(status, body)
      else if !Success(status) then ClientError(status, body)
      else if body.Garbled? then Unreadable(status)
      else if code < 0 then ErrorCode(status, body)
      else Processed(status, if body.code.Some? then Some(code) else None, body.order);
    assert WellFormed(r) && Sent(r) == Response(status, body);
  }

  /** What the exchange has got and done: bytes of the request, whether the order
      was taken, and the response it sent. */
  datatype Exchange = Exchange(received: nat, took: bool, said: Option<Reply>)

  const UNTOUCHED := Exchange(0, false, None)

  // ------------------------------------------------------------ request()

  datatype Stage = TlsSetup | DnsResolve | TcpConnect | TlsHandshake | RequestBuild
                 | HttpWrite | WriteObserver | HttpRead

  type Size = n: nat | n > 0 witness 1

  /** Everything outside the client decides about one request: whether it can be
      signed, which stages throw when they are reached, how many of its bytes
      arrive once they are being written, and what the exchange does. */
  datatype Script = Script(signs: bool, fails: set<Stage>, size: Size, arrives: nat, takes: bool,
                           reply: Option<Reply>, keepAlive: bool)

  datatype Outcome = Outcome(transport: Transport, exchange: Exchange, connected: bool)

  /** The stages in order; an open connection is reused. */
  function Stages(connected: bool): seq<Stage> {
    (if connected then [] else [TlsSetup, DnsResolve, TcpConnect, TlsHandshake])
    + [RequestBuild, HttpWrite, WriteObserver, HttpRead]
  }

  /** The exchange, once bytes are on their way to it. It takes an order only from
      a whole request, and answers as it may. */
  function Served(sc: Script): Exchange {
    var received := if sc.arrives < sc.size then sc.arrives else sc.size;
    var took := received == sc.size && sc.takes;
    Exchange(received, took,
             if received > 0 && sc.reply.Some? && WellFormed(sc.reply.value) && MaySay(sc.reply.value, took)
                && (sc.reply.value.Processed? ==> received == sc.size)
             then sc.reply else None)
  }

  /** Nothing arrives beyond the request; an order is taken from a whole request
      only; and an answer, if there is one, is to something that arrived, one the
      exchange may give, and about an order only where all of it arrived. */
  ghost predicate Plausible(x: Exchange, size: nat) {
    && x.received <= size && (x.took ==> x.received == size)
    && (x.said.Some? ==>
          && 1 <= x.received && WellFormed(x.said.value) && MaySay(x.said.value, x.took)
          && (x.said.value.Processed? ==> x.received == size))
  }

  /** The exchange may do all of that, and nothing else. */
  lemma ServedIff(x: Exchange, size: Size)
    ensures (exists sc: Script :: sc.size == size && Served(sc) == x) <==> Plausible(x, size)
  {
    hide WellFormed, MaySay;
    if Plausible(x, size) {
      var sc := Script(true, {}, size, x.received, x.took, x.said, true);
      assert sc.size == size && Served(sc) == x;
    }
  }

  /** What request() and the exchange know as the stages go by. */
  datatype Progress = Progress(writeStarted: bool, exchange: Exchange)

  const AT_REST := Progress(false, UNTOUCHED)

  /** A stage begins: the flag is set before the first byte is written. */
  function Entered(stage: Stage, sc: Script, p: Progress): Progress {
    if stage.HttpWrite? then Progress(true, Served(sc)) else p
  }

  predicate Throws(stage: Stage, sc: Script, p: Progress) {
    stage in sc.fails || (stage.HttpRead? && p.exchange.said.None?)
  }

  /** The body of the try block: how far it got, and whether it threw. */
  function Try(path: seq<Stage>, sc: Script, p: Progress): (r: (Progress, bool))
    ensures path != [] && path[|path| - 1].HttpRead? && !r.1 ==> r.0.exchange.said.Some?
  {
    if path == [] then (p, false)
    else
      var p' := Entered(path[0], sc, p);
      if Throws(path[0], sc, p') then (p', true) else Try(path[1..], sc, p')
  }

  /** request(): any exception after the write has begun is an uncertain one. */
  function Perform(connected: bool, sc: Script): (o: Outcome)
    ensures !o.transport.SigningFailed?
  {
    var (p, threw) := Try(Stages(connected), sc, AT_REST);
    if threw then Outcome(if p.writeStarted then FailedAfterWriteBegan else FailedBeforeWrite, p.exchange, false)
    else Outcome(Sent(p.exchange.said.value), p.exchange, sc.keepAlive)
  }

  // ------------------------------------------------------------ checked()

  datatype Checked = Accepted(order: Option<OrderBody>) | RequestError(uncertain: bool)

  function CodeOf(body: Body): int {
    if body.Json? && body.code.Some? then body.code.value else 0
  }

  /** checked() with submission = true, over the outcomes request() can have. */
  function CheckedPost(t: Transport): Checked
    requires !t.SigningFailed?
  {
    match t
    case FailedBeforeWrite => RequestError(false)
    case FailedAfterWriteBegan => RequestError(true)
    case Response(status, body) =>
      var code := CodeOf(body);
      if status < 200 || status >= 300 || body.Garbled? || code < 0 then
        RequestError(status >= 500 || code == -1006 || code == -1007 || (body.Garbled? && 200 <= status < 300))
      else Accepted(body.order)
  }

  // ------------------------------------------------------------ what the stages come to

  /** Whatever the order of stages and whichever throws: as long as the flag is
      not set the exchange has not a byte, and behind it the exchange is as served. */
  lemma {:induction false} FlagIsHonest(path: seq<Stage>, sc: Script, p: Progress)
    requires p.exchange == if p.writeStarted then Served(sc) else UNTOUCHED
    ensures var (p', _) := Try(path, sc, p); p'.exchange == if p'.writeStarted then Served(sc) else UNTOUCHED
  {
    hide Served;
    if path != [] { FlagIsHonest(path[1..], sc, Entered(path[0], sc, p)); }
  }

  /** The write is begun: everything before it goes through. */
  predicate Writes(connected: bool, sc: Script) {
    RequestBuild !in sc.fails && (connected || sc.fails !! {TlsSetup, DnsResolve, TcpConnect, TlsHandshake})
  }

  /** All stages go through and there is a response to read. */
  predicate Answered(connected: bool, sc: Script) {
    Writes(connected, sc) && sc.fails !! {HttpWrite, WriteObserver, HttpRead} && Served(sc).said.Some?
  }

  /** The staged request in closed form. */
  lemma StagesMean(connected: bool, sc: Script)
    ensures Perform(connected, sc) ==
              if !Writes(connected, sc) then Outcome(FailedBeforeWrite, UNTOUCHED, false)
              else if !Answered(connected, sc) then Outcome(FailedAfterWriteBegan, Served(sc), false)
              else Outcome(Sent(Served(sc).said.value), Served(sc), sc.keepAlive)
  {
    TryWrite(sc);
    TryConnect(sc);
    hide Try, Served, Sent, Stages;
  }

  lemma TryCons(stage: Stage, rest: seq<Stage>, sc: Script, p: Progress)
    ensures Try([stage] + rest, sc, p) ==
              var p' := Entered(stage, sc, p);
              if Throws(stage, sc, p') then (p', true) else Try(rest, sc, p')
  {
    assert ([stage] + rest)[1..] == rest;
  }

  /** The four stages of a fresh connection. */
  lemma TryConnect(sc: Script)
    ensures Try(Stages(false), sc, AT_REST) ==
              if sc.fails !! {TlsSetup, DnsResolve, TcpConnect, TlsHandshake} then Try(Stages(true), sc, AT_REST)
              else (AT_REST, true)
  {
    var last := [TlsHandshake] + Stages(true);
    var third := [TcpConnect] + last;
    var second := [DnsResolve] + third;
    assert Stages(false) == [TlsSetup] + second;
    TryCons(TlsSetup, second, sc, AT_REST);
    TryCons(DnsResolve, third, sc, AT_REST);
    TryCons(TcpConnect, last, sc, AT_REST);
    TryCons(TlsHandshake, Stages(true), sc, AT_REST);
    hide Try, Stages;
  }

  /** The four stages of the request itself. */
  lemma TryWrite(sc: Script)
    ensures Try(Stages(true), sc, AT_REST) ==
              if RequestBuild in sc.fails then (AT_REST, true)
              else (Progress(true, Served(sc)),
                    !(sc.fails !! {HttpWrite, WriteObserver, HttpRead}) || Served(sc).said.None?)
  {
    var written := Progress(true, Served(sc));
    var read, observe := [HttpRead] + [], [WriteObserver] + ([HttpRead] + []);
    assert Stages(true) == [RequestBuild] + ([HttpWrite] + observe);
    TryCons(RequestBuild, [HttpWrite] + observe, sc, AT_REST);
    TryCons(HttpWrite, observe, sc, AT_REST);
    TryCons(WriteObserver, read, sc, written);
    TryCons(HttpRead, [], sc, written);
    assert Try([], sc, written) == (written, false);
    hide Try, Stages, Served;
  }
}
