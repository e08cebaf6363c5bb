/** The single-producer single-consumer ring of src/receiver.cpp. The network
    thread publishes complete messages, the caller's thread consumes them; each
    sees the other's index through a load that may be stale but never goes back.
    The 64-bit indices wrap. */
module ReceiverRing {

  const CAPACITY := 1024
  const MAX_MESSAGE_BYTES := 16 * 1024
  const WRAP := 0x1_0000_0000_0000_0000

  datatype Message = Message(sequence: nat, payload: string)

  /** Where the network thread is in its read handler. */
  datatype Producer =
    | Rest
    | Arrived(msg: Message, write: nat)               // counted, own index loaded
    | Compared(msg: Message, write: nat, read: nat)   // read_index loaded
    | Filling(msg: Message, write: nat, read: nat)    // there is room; slot is about to be written
    | Filled(msg: Message, write: nat, read: nat)     // slot written, not yet published
    | Stored(write: nat, read: nat)                   // published, high water not yet noted

  /** Where the caller's thread is in its loop body. */
  datatype Consumer = Waiting | Reading(read: nat) | Done(read: nat)

  /** The shared memory and both threads, followed by the history the
      specification needs: how many messages were ever published and consumed
      (the indices before wrapping), the newest value of the other index each
      side has loaded, and the messages received, published and consumed. */
  datatype Ring = Ring(slots: seq<Message>, writeIndex: nat, readIndex: nat,
                       wireReceived: nat, queueFull: nat, oversized: nat, highWater: nat,
                       producer: Producer, consumer: Consumer,
                       pushed: nat, popped: nat, readSeen: nat, writeSeen: nat,
                       received: seq<Message>, published: seq<Message>, consumed: seq<Message>)

  datatype Action =
    | Receive(payload: string) | LoadRead(seen: nat) | Decide | WriteSlot | Publish | NoteDepth
    | LoadWrite(seen: nat) | ReadSlot | Advance

  /** Unsigned 64-bit subtraction. */
  function Minus(x: nat, y: nat): nat
    requires x < WRAP && y < WRAP
  {
    (x + WRAP - y) % WRAP
  }

  function Plus1(x: nat): (r: nat)
    ensures r < WRAP
  {
    (x + 1) % WRAP
  }

  predicate Bounded(s: Ring) {
    && |s.slots| == CAPACITY && s.writeIndex < WRAP && s.readIndex < WRAP
    && match s.producer
       case Rest => true
       case Arrived(_, w) => w < WRAP
       case Compared(_, w, r) => w < WRAP && r < WRAP
       case Filling(_, w, r) => w < WRAP && r < WRAP
       case Filled(_, w, r) => w < WRAP && r < WRAP
       case Stored(w, r) => w < WRAP && r < WRAP
  }

  function Step(s: Ring, a: Action): Ring
    requires Bounded(s)
  {
    match a
    case Receive(payload) =>
      if !s.producer.Rest? then s
      else
        var msg := Message(s.wireReceived + 1, payload);
        s.(wireReceived := s.wireReceived + 1, received := s.received + [msg], producer := Arrived(msg, s.writeIndex))
    case LoadRead(seen) =>
      if !s.producer.Arrived? || !(s.readSeen <= seen <= s.popped) then s
      else s.(readSeen := seen, producer := Compared(s.producer.msg, s.producer.write, seen % WRAP))
    case Decide =>
      if !s.producer.Compared? then s
      else if |s.producer.msg.payload| > MAX_MESSAGE_BYTES then s.(oversized := s.oversized + 1, producer := Rest)
      else if Minus(s.producer.write, s.producer.read) == CAPACITY then
        s.(queueFull := s.queueFull + 1, producer := Rest)
      else s.(producer := Filling(s.producer.msg, s.producer.write, s.producer.read))
    case WriteSlot =>
      if !s.producer.Filling? then s
      else s.(slots := s.slots[s.producer.write % CAPACITY := s.producer.msg],
              producer := Filled(s.producer.msg, s.producer.write, s.producer.read))
    case Publish =>
      if !s.producer.Filled? then s
      else s.(writeIndex := Plus1(s.producer.write), pushed := s.pushed + 1,
              published := s.published + [s.producer.msg],
              producer := Stored(s.producer.write, s.producer.read))
    case NoteDepth =>
      if !s.producer.Stored? then s
      else
        var depth := Minus(Plus1(s.producer.write), s.producer.read);
        s.(highWater := if depth > s.highWater then depth else s.highWater, producer := Rest)
    case LoadWrite(seen) =>
      if !s.consumer.Waiting? || !(s.writeSeen <= seen <= s.pushed) then s
      else s.(writeSeen := seen, consumer := if s.readIndex == seen % WRAP then Waiting else Reading(s.readIndex))
    case ReadSlot =>
      if !s.consumer.Reading? then s
      else s.(consumed := s.consumed + [s.slots[s.consumer.read % CAPACITY]], consumer := Done(s.consumer.read))
    case Advance =>
      if !s.consumer.Done? then s
      else s.(readIndex := Plus1(s.consumer.read), popped := s.popped + 1, consumer := Waiting)
  }

  // ------------------------------------------------------------ arithmetic of wrapping indices

  lemma WrapLemmas(w: nat, r: nat)
    requires r <= w <= r + CAPACITY
    ensures Minus(w % WRAP, r % WRAP) == w - r
    ensures w % WRAP == r % WRAP <==> w == r
  {
    var qw, qr := w / WRAP, r / WRAP;
    assert w == qw * WRAP + w % WRAP && r == qr * WRAP + r % WRAP;
    if qw == qr {
      assert (w % WRAP + WRAP - r % WRAP) == WRAP + (w - r);
    } else {
      assert qw == qr + 1;
      assert (w % WRAP + WRAP - r % WRAP) == w - r;
    }
  }

  lemma SlotOfWrapped(k: nat)
    ensures (k % WRAP) % CAPACITY == k % CAPACITY
    ensures Plus1(k % WRAP) == (k + 1) % WRAP
  {
    var q := k / WRAP;
    assert k == q * WRAP + k % WRAP;
    assert WRAP == 0x40_0000_0000_0000 * CAPACITY;
    assert k == (q * 0x40_0000_0000_0000) * CAPACITY + k % WRAP;
  }

  lemma DistinctSlots(j: nat, k: nat)
    requires j < k < j + CAPACITY
    ensures j % CAPACITY != k % CAPACITY
  {
    assert j == (j / CAPACITY) * CAPACITY + j % CAPACITY;
    assert k == (k / CAPACITY) * CAPACITY + k % CAPACITY;
  }

  // ------------------------------------------------------------ the invariant

  ghost predicate Indices(s: Ring) {
    && s.writeIndex == s.pushed % WRAP && s.readIndex == s.popped % WRAP
    && s.readSeen <= s.popped <= s.pushed <= s.readSeen + CAPACITY
    && s.popped <= s.writeSeen <= s.pushed
    && (s.consumer.Waiting? || s.popped < s.writeSeen)
  }

  ghost predicate Threads(s: Ring) {
    && |s.slots| == CAPACITY
    && (match s.producer
        case Rest => true
        case Arrived(_, w) => w == s.writeIndex
        case Compared(_, w, r) => w == s.writeIndex && r == s.readSeen % WRAP
        case Filling(m, w, r) => w == s.writeIndex && r == s.readSeen % WRAP && s.pushed < s.readSeen + CAPACITY
        case Filled(m, w, r) => w == s.writeIndex && r == s.readSeen % WRAP && s.pushed < s.readSeen + CAPACITY
                                && s.slots[w % CAPACITY] == m
        case Stored(w, r) => Plus1(w) == s.writeIndex && r == s.readSeen % WRAP)
    && (match s.consumer
        case Waiting => |s.consumed| == s.popped
        case Reading(r) => r == s.readIndex && |s.consumed| == s.popped
        case Done(r) => r == s.readIndex && |s.consumed| == s.popped + 1)
  }

  /** The live slots hold exactly the published, unconsumed messages. */
  ghost predicate Contents(s: Ring) {
    && |s.slots| == CAPACITY
    && |s.published| == s.pushed && |s.consumed| <= s.pushed
    && s.consumed == s.published[..|s.consumed|]
    && (forall k :: s.popped <= k < s.pushed ==> s.slots[k % CAPACITY] == s.published[k])
  }

  /** The message the producer holds and has not yet published or dropped. */
  function InHand(s: Ring): nat {
    if s.producer.Rest? || s.producer.Stored? then 0 else 1
  }

  /** Published messages are received ones, in order and without repeats. */
  ghost predicate History(s: Ring) {
    && |s.received| == s.wireReceived
    && s.wireReceived == s.pushed + s.queueFull + s.oversized + InHand(s)
    && (forall k :: 0 <= k < |s.received| ==> s.received[k].sequence == k + 1)
    && (forall k :: 0 <= k < |s.published| ==> Listed(s, s.published[k]))
    && (forall j, k :: 0 <= j < k < |s.published| ==> s.published[j].sequence < s.published[k].sequence)
    && (InHand(s) == 1 ==> s.wireReceived > 0 && s.producer.msg == s.received[s.wireReceived - 1])
    && (InHand(s) == 1 ==> forall k :: 0 <= k < |s.published| ==> s.published[k].sequence < s.wireReceived)
  }

  ghost predicate Listed(s: Ring, m: Message) {
    1 <= m.sequence <= |s.received| && s.received[m.sequence - 1] == m && |m.payload| <= MAX_MESSAGE_BYTES
  }

  /** highWater bounds the depth whenever the producer is at rest. */
  ghost predicate Depths(s: Ring) {
    && s.highWater <= CAPACITY
    && (!s.producer.Stored? ==> s.pushed - s.popped <= s.highWater)
    && (s.producer.Filling? || s.producer.Filled? ==> |s.producer.msg.payload| <= MAX_MESSAGE_BYTES)
  }

  ghost predicate Inv(s: Ring) {
    Bounded(s) && Indices(s) && Threads(s) && Contents(s) && History(s) && Depths(s)
  }

  function InitialRing(slots: seq<Message>): Ring
    requires |slots| == CAPACITY
  {
    Ring(slots, 0, 0, 0, 0, 0, 0, Rest, Waiting, 0, 0, 0, 0, [], [], [])
  }

  lemma ReceiveKeepsInv(s: Ring, payload: string)
    requires Inv(s)
    ensures Inv(Step(s, Receive(payload)))
  {
    var s' := Step(s, Receive(payload));
    forall k | 0 <= k < |s'.published| ensures Listed(s', s'.published[k]) {
      assert Listed(s, s.published[k]);
    }
  }

  lemma LoadKeepsInv(s: Ring, seen: nat)
    requires Inv(s)
    ensures Inv(Step(s, LoadRead(seen)))
  {
    assert forall m :: Listed(Step(s, LoadRead(seen)), m) == Listed(s, m);
  }

  /** The producer's comparison sees exactly whether all slots are taken. */
  lemma ComparisonMeansFull(s: Ring)
    requires Bounded(s) && Indices(s) && Threads(s) && s.producer.Compared?
    ensures Minus(s.producer.write, s.producer.read) == CAPACITY <==> s.pushed == s.readSeen + CAPACITY
  {
    WrapLemmas(s.pushed, s.readSeen);
  }

  lemma DecideKeepsInv(s: Ring)
    requires Inv(s)
    ensures Inv(Step(s, Decide))
  {
    if s.producer.Compared? {
      ComparisonMeansFull(s);
      hide Minus, Plus1;
      DecideKeepsHistory(s);
      hide History;
    }
  }

  lemma DecideKeepsHistory(s: Ring)
    requires Bounded(s) && History(s) && s.producer.Compared?
    ensures History(Step(s, Decide))
  {
    hide Minus;
    assert forall m :: Listed(Step(s, Decide), m) == Listed(s, m);
  }

  lemma NoteKeepsInv(s: Ring)
    requires Inv(s)
    ensures Inv(Step(s, NoteDepth))
  {
    WrapLemmas(s.pushed, s.readSeen);
    assert forall m :: Listed(Step(s, NoteDepth), m) == Listed(s, m);
  }

  lemma WriteSlotKeepsInv(s: Ring)
    requires Inv(s)
    ensures Inv(Step(s, WriteSlot))
  {
    if s.producer.Filling? {
      SlotOfWrapped(s.pushed);
      forall k | s.popped <= k < s.pushed ensures k % CAPACITY != s.pushed % CAPACITY {
        DistinctSlots(k, s.pushed);
      }
    }
  }

  lemma PublishKeepsInv(s: Ring)
    requires Inv(s)
    ensures Inv(Step(s, Publish))
  {
    if s.producer.Filled? {
      PublishKeepsHistory(s);
      PublishKeepsContents(s);
      hide Contents, History;
      SlotOfWrapped(s.pushed);
    }
  }

  lemma PublishKeepsContents(s: Ring)
    requires Bounded(s) && Indices(s) && Threads(s) && Contents(s) && s.producer.Filled?
    ensures Contents(Step(s, Publish))
  {
    var s' := Step(s, Publish);
    SlotOfWrapped(s.pushed);
    assert forall k :: 0 <= k < s.pushed ==> s'.published[k] == s.published[k];
    assert s'.published[..|s'.consumed|] == s.published[..|s.consumed|];
  }

  lemma PublishKeepsHistory(s: Ring)
    requires Bounded(s) && History(s) && Depths(s) && |s.published| == s.pushed && s.producer.Filled?
    ensures History(Step(s, Publish))
  {
    var s' := Step(s, Publish);
    hide Plus1;
    forall k | 0 <= k < |s'.published| ensures Listed(s', s'.published[k]) {
      if k < s.pushed { assert Listed(s, s.published[k]) && s'.published[k] == s.published[k]; }
    }
    forall j, k | 0 <= j < k < |s'.published| ensures s'.published[j].sequence < s'.published[k].sequence {
      assert s'.published[j] == s.published[j];
    }
  }

  /** The consumer does not touch what the history and depth clauses speak of,
      except that it only ever lowers the depth. */
  lemma HistoryKept(s: Ring, s': Ring)
    requires History(s) && Depths(s)
    requires s'.received == s.received && s'.published == s.published && s'.wireReceived == s.wireReceived
    requires s'.queueFull == s.queueFull && s'.oversized == s.oversized && s'.pushed == s.pushed
    requires s'.producer == s.producer && s'.highWater == s.highWater && s'.popped >= s.popped
    ensures History(s') && Depths(s')
  {
    forall k | 0 <= k < |s'.published| ensures Listed(s', s'.published[k]) {
      assert Listed(s, s.published[k]);
    }
  }

  lemma ConsumerKeepsInv(s: Ring, a: Action)
    requires Inv(s) && (a.LoadWrite? || a.ReadSlot? || a.Advance?)
    ensures Inv(Step(s, a))
  {
    hide History, Depths;
    SlotOfWrapped(s.popped);
    HistoryKept(s, Step(s, a));
    match a
    case LoadWrite(seen) =>
      if s.popped <= seen <= s.pushed { WrapLemmas(seen, s.popped); }
    case ReadSlot =>
      if s.consumer.Reading? {
        assert s.slots[s.popped % CAPACITY] == s.published[s.popped];
        assert s.published[..s.popped + 1] == s.published[..s.popped] + [s.published[s.popped]];
      }
    case Advance =>
  }

  lemma StepKeepsInv(s: Ring, a: Action)
    requires Inv(s)
    ensures Inv(Step(s, a))
  {
    if a.WriteSlot? {
      WriteSlotKeepsInv(s);
    } else if a.Publish? {
      PublishKeepsInv(s);
    } else if a.LoadWrite? || a.ReadSlot? || a.Advance? {
      ConsumerKeepsInv(s, a);
    } else if a.Receive? {
      ReceiveKeepsInv(s, a.payload);
    } else if a.LoadRead? {
      LoadKeepsInv(s, a.seen);
    } else if a.Decide? {
      DecideKeepsInv(s);
    } else {
      NoteKeepsInv(s);
    }
  }

  // ------------------------------------------------------------ all interleavings

  ghost function Run(s: Ring, actions: seq<Action>): Ring
    requires Inv(s)
    decreases |actions|
  {
    if actions == [] then s
    else
      StepKeepsInv(s, actions[0]);
      Run(Step(s, actions[0]), actions[1..])
  }

  lemma {:induction false} RunKeepsInv(s: Ring, actions: seq<Action>)
    requires Inv(s)
    ensures Inv(Run(s, actions))
    decreases |actions|
  {
    hide Step, Contents, History, Depths;
    if actions != [] {
      StepKeepsInv(s, actions[0]);
      RunKeepsInv(Step(s, actions[0]), actions[1..]);
    }
  }

  /** In every interleaving: the slot being written is not a live one, nor the
      one the consumer may be reading. */
  lemma NeverTouchesLiveSlots(slots: seq<Message>, actions: seq<Action>, k: nat)
    requires |slots| == CAPACITY
    ensures var s := Run(InitialRing(slots), actions);
            s.producer.Filling? || s.producer.Filled? ==>
              && (s.popped <= k < s.pushed ==> s.producer.write % CAPACITY != k % CAPACITY)
              && (s.consumer.Reading? ==> s.producer.write % CAPACITY != s.consumer.read % CAPACITY)
  {
    var s := Run(InitialRing(slots), actions);
    RunKeepsInv(InitialRing(slots), actions);
    if s.producer.Filling? || s.producer.Filled? {
      SlotOfWrapped(s.pushed);
      SlotOfWrapped(s.popped);
      if s.popped <= k < s.pushed { DistinctSlots(k, s.pushed); }
      if s.popped < s.pushed { DistinctSlots(s.popped, s.pushed); }
    }
  }

  /** What is consumed is what was published, in order and once each; what is
      published is an order-preserving, duplicate-free selection of what was
      received; and nothing received is unaccounted for. */
  lemma ConsumedInOrder(slots: seq<Message>, actions: seq<Action>)
    requires |slots| == CAPACITY
    ensures var s := Run(InitialRing(slots), actions);
            && s.consumed <= s.published
            && (forall k :: 0 <= k < |s.published| ==> Listed(s, s.published[k]))
            && (forall j, k :: 0 <= j < k < |s.published| ==> s.published[j].sequence < s.published[k].sequence)
            && (s.producer.Rest? ==> s.wireReceived == |s.published| + s.queueFull + s.oversized)
            && (s.producer.Rest? ==> |s.published| - s.popped <= s.highWater <= CAPACITY)
  {
    var s := Run(InitialRing(slots), actions);
    RunKeepsInv(InitialRing(slots), actions);
  }

  // ------------------------------------------------------------ refinement of a bounded FIFO

  /** The abstract queue: published and not yet released by the consumer. */
  ghost function Fifo(s: Ring): seq<Message>
    requires Inv(s)
  {
    s.published[s.popped..]
  }

  datatype FifoStep = Enqueue(m: Message) | Dequeue | Skip

  ghost function Abstract(s: Ring, a: Action): FifoStep
    requires Inv(s)
  {
    if a.Publish? && s.producer.Filled? then Enqueue(s.producer.msg)
    else if a.Advance? && s.consumer.Done? then Dequeue
    else Skip
  }

  /** Every step of the ring is a step of a FIFO of at most CAPACITY messages:
      only publishing enqueues, and never into a full queue; only releasing a
      slot dequeues, and what was handed to the caller is the head. */
  lemma RefinesBoundedFifo(s: Ring, a: Action)
    requires Inv(s)
    ensures Inv(Step(s, a)) && |Fifo(s)| <= CAPACITY
    ensures FifoStepTaken(Fifo(s), Fifo(Step(s, a)), s, Abstract(s, a))
  {
    StepKeepsInv(s, a);
    hide History, Depths;
    if a.Publish? {
      PublishEnqueues(s);
    } else if a.Advance? {
      AdvanceDequeues(s);
    } else {
      OnlyThoseMoveTheQueue(s, a);
    }
    hide Step, Threads, Indices;
  }

  lemma PublishEnqueues(s: Ring)
    requires Inv(s) && Inv(Step(s, Publish))
    ensures FifoStepTaken(Fifo(s), Fifo(Step(s, Publish)), s, Abstract(s, Publish))
  {
    hide History, Depths, Minus, Plus1;
  }

  lemma AdvanceDequeues(s: Ring)
    requires Inv(s) && Inv(Step(s, Advance))
    ensures FifoStepTaken(Fifo(s), Fifo(Step(s, Advance)), s, Abstract(s, Advance))
  {
    hide History, Depths, Minus, Plus1;
  }

  lemma OnlyThoseMoveTheQueue(s: Ring, a: Action)
    requires Bounded(s) && !a.Publish? && !a.Advance?
    ensures Step(s, a).published == s.published && Step(s, a).popped == s.popped
  {}

  ghost predicate FifoStepTaken(before: seq<Message>, after: seq<Message>, s: Ring, step: FifoStep) {
    match step
    case Enqueue(m) => |before| < CAPACITY && after == before + [m]
    case Dequeue =>
      before != [] && s.consumed != [] && s.consumed[|s.consumed| - 1] == before[0] && after == before[1..]
    case Skip => after == before
  }

  /** A message is dropped for lack of room only when the newest index the
      producer has loaded says that all slots are taken. */
  lemma DropsOnlyWhenFull(s: Ring)
    requires Inv(s) && s.producer.Compared?
    ensures Step(s, Decide).queueFull > s.queueFull <==>
              |s.producer.msg.payload| <= MAX_MESSAGE_BYTES && s.pushed == s.readSeen + CAPACITY
  {
    ComparisonMeansFull(s);
  }

  // ------------------------------------------------------------ whole handlers, in place

  /** The read handler of the network thread, from count to high water. */
  ghost function Handled(s: Ring, payload: string, seen: nat): (s': Ring)
    requires Inv(s)
    ensures Inv(s')
  {
    StepKeepsInv(s, Receive(payload));
    var s1 := Step(s, Receive(payload));
    StepKeepsInv(s1, LoadRead(seen));
    var s2 := Step(s1, LoadRead(seen));
    StepKeepsInv(s2, Decide);
    var s3 := Step(s2, Decide);
    StepKeepsInv(s3, WriteSlot);
    var s4 := Step(s3, WriteSlot);
    StepKeepsInv(s4, Publish);
    var s5 := Step(s4, Publish);
    StepKeepsInv(s5, NoteDepth);
    Step(s5, NoteDepth)
  }

  function Stored1(s: Ring, msg: Message, read: nat): Ring
    requires |s.slots| == CAPACITY && s.writeIndex < WRAP && read < WRAP
  {
    var depth := Minus(Plus1(s.writeIndex), read);
    s.(slots := s.slots[s.writeIndex % CAPACITY := msg], writeIndex := Plus1(s.writeIndex),
       pushed := s.pushed + 1, published := s.published + [msg],
       highWater := if depth > s.highWater then depth else s.highWater)
  }

  function Counted(s: Ring, payload: string, seen: nat): Ring {
    s.(wireReceived := s.wireReceived + 1, received := s.received + [Message(s.wireReceived + 1, payload)],
       readSeen := seen)
  }

  /** Counting a message and loading the other index. */
  lemma CountedThenLoaded(s: Ring, payload: string, seen: nat)
    requires Bounded(s) && s.producer.Rest? && s.readSeen <= seen <= s.popped
    ensures Step(Step(s, Receive(payload)), LoadRead(seen))
         == Counted(s, payload, seen)
              .(producer := Compared(Message(s.wireReceived + 1, payload), s.writeIndex, seen % WRAP))
  {}

  lemma RestIsQuiet(s: Ring)
    requires Bounded(s) && s.producer.Rest?
    ensures Step(s, WriteSlot) == s && Step(s, Publish) == s && Step(s, NoteDepth) == s
  {}

  /** The branch with room, step by step. */
  lemma RoomOutcome(s: Ring, msg: Message, read: nat)
    requires Bounded(s) && read < WRAP && s.producer == Compared(msg, s.writeIndex, read)
    requires |msg.payload| <= MAX_MESSAGE_BYTES && Minus(s.writeIndex, read) != CAPACITY
    ensures var filled := Step(Step(s, Decide), WriteSlot);
            Bounded(Step(s, Decide)) && Bounded(filled) && Bounded(Step(filled, Publish))
            && Step(Step(filled, Publish), NoteDepth) == Stored1(s, msg, read).(producer := Rest)
  {
    hide Minus, Plus1;
    assert Step(s, Decide) == s.(producer := Filling(msg, s.writeIndex, read));
  }

  /** The three outcomes of the handler, written out. */
  lemma HandlerOutcomes(s: Ring, payload: string, seen: nat)
    requires Inv(s) && s.producer.Rest? && s.readSeen <= seen <= s.popped
    ensures s.writeIndex < WRAP && |s.slots| == CAPACITY
    ensures Minus(s.writeIndex, seen % WRAP) == CAPACITY <==> s.pushed == seen + CAPACITY
    ensures var msg := Message(s.wireReceived + 1, payload);
            var counted := Counted(s, payload, seen);
            Handled(s, payload, seen) ==
              if |payload| > MAX_MESSAGE_BYTES then counted.(oversized := s.oversized + 1)
              else if Minus(s.writeIndex, seen % WRAP) == CAPACITY then counted.(queueFull := s.queueFull + 1)
              else Stored1(counted, msg, seen % WRAP)
  {
    WrapLemmas(s.pushed, seen);
    CountedThenLoaded(s, payload, seen);
    var msg, read := Message(s.wireReceived + 1, payload), seen % WRAP;
    var counted := Counted(s, payload, seen);
    var loaded := counted.(producer := Compared(msg, s.writeIndex, read));
    HandledFromLoaded(s, payload, seen, loaded);
    hide Handled, Indices, Threads, Contents, History, Depths;
    if |payload| > MAX_MESSAGE_BYTES {
      assert Step(loaded, Decide) == counted.(oversized := s.oversized + 1);
      RestIsQuiet(Step(loaded, Decide));
    } else if Minus(s.writeIndex, read) == CAPACITY {
      assert Step(loaded, Decide) == counted.(queueFull := s.queueFull + 1);
      RestIsQuiet(Step(loaded, Decide));
    } else {
      RoomOutcome(loaded, msg, read);
      hide Step;
      assert Stored1(loaded, msg, read).(producer := Rest) == Stored1(counted, msg, read);
    }
  }

  lemma HandledFromLoaded(s: Ring, payload: string, seen: nat, loaded: Ring)
    requires Inv(s) && Step(Step(s, Receive(payload)), LoadRead(seen)) == loaded
    ensures Bounded(loaded) && Bounded(Step(loaded, Decide))
    ensures var written := Step(Step(loaded, Decide), WriteSlot);
            Bounded(written) && Bounded(Step(written, Publish))
            && Handled(s, payload, seen) == Step(Step(written, Publish), NoteDepth)
  {
    StepKeepsInv(s, Receive(payload));
    StepKeepsInv(Step(s, Receive(payload)), LoadRead(seen));
    StepKeepsInv(loaded, Decide);
    StepKeepsInv(Step(loaded, Decide), WriteSlot);
    StepKeepsInv(Step(Step(loaded, Decide), WriteSlot), Publish);
    hide Step, Indices, Threads, Contents, History, Depths;
  }

  /** The fixed array and the counters; the two methods that change them are the
      bodies of the two threads, each run while the other is between steps. */
  class SpscQueue {
    const queue: array<Message>
    var writeIndex: nat
    var readIndex: nat
    var wireReceived: nat
    var queueFull: nat
    var oversized: nat
    var highWater: nat
    var consumed: seq<Message>
    ghost var pushed: nat
    ghost var popped: nat
    ghost var readSeen: nat
    ghost var writeSeen: nat
    ghost var received: seq<Message>
    ghost var published: seq<Message>

    ghost function View(): Ring
      reads this, queue
    {
      Ring(queue[..], writeIndex, readIndex, wireReceived, queueFull, oversized, highWater, Rest, Waiting,
           pushed, popped, readSeen, writeSeen, received, published, consumed)
    }

    ghost predicate Valid()
      reads this, queue
    {
      queue.Length == CAPACITY && Inv(View())
    }

    constructor ()
      ensures Valid() && fresh(queue) && View() == InitialRing(queue[..])
    {
      queue := new Message[CAPACITY](i => Message(0, ""));
      writeIndex, readIndex, wireReceived, queueFull, oversized, highWater := 0, 0, 0, 0, 0, 0;
      consumed, pushed, popped, readSeen, writeSeen, received, published := [], 0, 0, 0, 0, [], [];
    }

    /** One message from the wire; read is what the acquire load of read_index
        returned, an index the consumer has really had (seen, before wrapping). */
    method OnMessage(payload: string, read: nat, ghost seen: nat)
      requires Valid() && readSeen <= seen <= popped && read == seen % WRAP
      modifies this, queue
      ensures Valid()
      ensures View() == Handled(old(View()), payload, seen)
      ensures wireReceived == old(wireReceived) + 1
      ensures received == old(received) + [Message(wireReceived, payload)] && readSeen == seen
      ensures oversized == old(oversized) + if |payload| > 16384 then 1 else 0
      ensures queueFull == old(queueFull) + if |payload| <= 16384 && old(pushed) - seen == 1024 then 1 else 0
      ensures |payload| <= 16384 && old(pushed) - seen != 1024 ==>
                && pushed == old(pushed) + 1 && published == old(published) + [Message(wireReceived, payload)]
                && queue[..] == old(queue[..])[old(pushed) % 1024 := Message(wireReceived, payload)]
                && highWater == if pushed - seen > old(highWater) then pushed - seen else old(highWater)
      ensures |payload| > 16384 || old(pushed) - seen == 1024 ==>
                && pushed == old(pushed) && published == old(published) && queue[..] == old(queue[..])
                && highWater == old(highWater)
      ensures writeIndex == pushed % 0x1_0000_0000_0000_0000
      ensures popped == old(popped) && readIndex == old(readIndex) && consumed == old(consumed)
    {
      hide Handled, Inv, Minus;
      ghost var s := View();
      HandlerOutcomes(s, payload, seen);
      IndexIsWrapped(s);
      SlotOfWrapped(pushed);
      if pushed < seen + CAPACITY { WrapLemmas(pushed + 1, seen); }
      var msg := Count(payload, seen);
      if |payload| > MAX_MESSAGE_BYTES {
        oversized := oversized + 1;
      } else if Minus(writeIndex, read) == CAPACITY {
        queueFull := queueFull + 1;
      } else {
        Store(msg, read);
      }
    }

    method Count(payload: string, ghost seen: nat) returns (msg: Message)
      modifies this`wireReceived, this`received, this`readSeen
      ensures View() == Counted(old(View()), payload, seen) && msg == Message(wireReceived, payload)
    {
      wireReceived := wireReceived + 1;
      msg := Message(wireReceived, payload);
      received, readSeen := received + [msg], seen;
    }

    /** The branch with room: copy, publish, note the depth. */
    method Store(msg: Message, read: nat)
      requires queue.Length == CAPACITY && writeIndex < WRAP && read < WRAP
      modifies queue, this`writeIndex, this`pushed, this`published, this`highWater
      ensures View() == Stored1(old(View()), msg, read)
    {
      var write := writeIndex;
      queue[write % CAPACITY] := msg;
      writeIndex := Plus1(write);
      pushed, published := pushed + 1, published + [msg];
      var depth := Minus(Plus1(write), read);
      if depth > highWater { highWater := depth; }
      assert queue[..] == old(queue[..])[write % CAPACITY := msg];
    }

    /** process() handing one message to the caller, when the index it has loaded
        is beyond its own. */
    method TakeOne(ghost seen: nat)
      requires Valid() && writeSeen <= seen <= pushed && popped < seen
      modifies this`readIndex, this`consumed, this`popped, this`writeSeen
      ensures Valid() && popped == old(popped) + 1 && writeSeen == seen
      ensures readIndex == popped % 0x1_0000_0000_0000_0000
      ensures consumed == old(consumed) + [published[old(popped)]]
    {
      hide Inv;
      ConsumeOne(View(), seen);
      IndexIsWrapped(View());
      SlotOfWrapped(popped);
      consumed := consumed + [queue[readIndex % CAPACITY]];
      readIndex := Plus1(readIndex);
      popped, writeSeen := popped + 1, seen;
    }

    /** One pass of process(). Its loads of write_index return views, wrapped from
        seen: as stale as they like, but never going back. It consumes the oldest
        messages in order, and stops before maxBatch of them only where the index
        it loads says that the queue is empty. */
    method Process(maxBatch: nat, views: seq<nat>, ghost seen: seq<nat>)
      requires Valid() && |views| == |seen| == maxBatch
      requires forall i :: 0 <= i < maxBatch ==> views[i] == seen[i] % WRAP && writeSeen <= seen[i] <= pushed
      requires forall i, j :: 0 <= i < j < maxBatch ==> seen[i] <= seen[j]
      modifies this`readIndex, this`consumed, this`popped, this`writeSeen
      ensures Valid()
      ensures old(popped) <= popped <= pushed && readIndex == popped % 0x1_0000_0000_0000_0000
      ensures |published| == pushed && consumed == old(consumed) + published[old(popped)..popped]
      ensures var n := popped - old(popped);
              && n <= maxBatch && n <= |old(Fifo(View()))| && consumed == old(consumed) + old(Fifo(View()))[..n]
              && (n < maxBatch ==> seen[n] == popped)
    {
      hide Inv;
      FifoShape(View());
      ghost var fifo := Fifo(View());
      var n := 0;
      while n < maxBatch
        invariant 0 <= n <= maxBatch && Valid()
        invariant popped == old(popped) + n && n <= |fifo|
        invariant consumed == old(consumed) + fifo[..n]
        invariant forall i :: n <= i < maxBatch ==> writeSeen <= seen[i]
      {
        ConsumeOne(View(), seen[n]);
        if readIndex == views[n] { break; }
        assert published[popped] == fifo[n];
        TakeOne(seen[n]);
        n := n + 1;
      }
      IndexIsWrapped(View());
      FifoShape(View());
      assert fifo[..n] == published[old(popped)..popped];
    }

    /** stop(): the producer has been joined, so one pass of CAPACITY drains
        everything published, and every received message is accounted for. */
    method Stop()
      requires Valid()
      modifies this`readIndex, this`consumed, this`popped, this`writeSeen
      ensures Valid()
      ensures consumed == published && popped == pushed && readIndex == writeIndex
      ensures wireReceived == |consumed| + queueFull + oversized
    {
      hide History, Threads, Depths;
      assert |Fifo(View())| <= CAPACITY;
      ghost var newest := pushed;
      var write := writeIndex;
      IndexIsWrapped(View());
      Process(CAPACITY, seq(CAPACITY, _ => write), seq(CAPACITY, _ => newest));
      Drained(View());
    }
  }

  lemma IndexIsWrapped(s: Ring)
    requires Inv(s)
    ensures s.writeIndex == s.pushed % WRAP && s.readIndex == s.popped % WRAP
    ensures s.writeSeen <= s.pushed && s.popped <= s.pushed <= s.readSeen + CAPACITY
  {}

  lemma FifoShape(s: Ring)
    requires Inv(s)
    ensures |s.published| == s.pushed && s.popped <= s.pushed && Fifo(s) == s.published[s.popped..]
  {}

  lemma Drained(s: Ring)
    requires Inv(s) && s.producer.Rest? && s.consumer.Waiting? && s.popped == s.pushed
    ensures s.consumed == s.published && s.wireReceived == |s.consumed| + s.queueFull + s.oversized
  {
    assert s.published[..s.pushed] == s.published;
  }

  function Taken(s: Ring, seen: nat): Ring
    requires |s.slots| == CAPACITY
  {
    s.(consumed := s.consumed + [s.slots[s.readIndex % CAPACITY]], readIndex := Plus1(s.readIndex),
       popped := s.popped + 1, writeSeen := seen)
  }

  /** A full turn of the consumer, by the write index it has loaded. */
  lemma ConsumeOne(s: Ring, seen: nat)
    requires Inv(s) && s.consumer.Waiting? && s.writeSeen <= seen <= s.pushed
    ensures |s.slots| == CAPACITY && s.popped <= seen
    ensures s.readIndex == seen % WRAP <==> s.popped == seen
    ensures s.popped < seen ==> s.slots[s.readIndex % CAPACITY] == s.published[s.popped] && Inv(Taken(s, seen))
  {
    WrapLemmas(seen, s.popped);
    SlotOfWrapped(s.popped);
    hide History, Depths, Threads;
    if s.popped < seen { ThreeSteps(s, seen); }
  }

  lemma ThreeSteps(s: Ring, seen: nat)
    requires Inv(s) && s.consumer.Waiting? && s.writeSeen <= seen <= s.pushed && s.popped < seen
    ensures Inv(Taken(s, seen))
  {
    WrapLemmas(seen, s.popped);
    StepKeepsInv(s, LoadWrite(seen));
    var s1 := Step(s, LoadWrite(seen));
    assert s1 == s.(writeSeen := seen, consumer := Reading(s.readIndex)) by { hide Contents, History, Depths, Threads; }
    StepKeepsInv(s1, ReadSlot);
    var s2 := Step(s1, ReadSlot);
    StepKeepsInv(s2, Advance);
    hide Inv;
    assert Step(s2, Advance) == Taken(s, seen);
  }
}
