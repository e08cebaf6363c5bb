/** clean_samples of tools/observation_overhead.py: which data segments get an
    acknowledgement delay, found through per-direction indexes. */
module CleanSamples {
  import opened Basics
  import opened Ordering

  datatype Endpoint = Endpoint(ip: string, port: string)
  datatype Direction = Direction(src: Endpoint, dst: Endpoint)
  datatype Segment = Segment(seqno: int, length: int)

  datatype Packet = Packet(frame: int, time: real, direction: Direction, segment: Segment, ack: int, flags: bv16,
                           hash: string, retransmission: bool, outOfOrder: bool, lostSegment: bool)

  datatype Key = Key(direction: Direction, segment: Segment, hash: string)
  datatype Sample = Sample(key: Key, dataFrame: int, ackFrame: int, dataTime: real, ackTime: real, delayUs: real)

  const ACK: bv16 := 0x10
  const FIN_SYN_RST: bv16 := 0x07

  predicate ByFrame(p: Packet, q: Packet) { p.frame <= q.frame }
  predicate AtMost(a: int, b: int) { a <= b }

  function Back(d: Direction): Direction { Direction(d.dst, d.src) }

  predicate PureAck(p: Packet) {
    p.segment.length == 0 && p.flags & ACK != 0 && p.flags & FIN_SYN_RST == 0
  }

  predicate CleanData(p: Packet) {
    p.segment.length > 0 && !p.retransmission && !p.outOfOrder && !p.lostSegment
  }

  /** The acknowledgement number that confirms exactly this segment. */
  function Confirming(s: Segment): int { s.seqno + s.length }

  predicate Unresolved(d: Direction) { d.src.port == "0" || d.dst.port == "0" }

  // ------------------------------------------------------------ the quadratic specification

  function Along(packets: seq<Packet>, d: Direction): seq<Packet> { Filter(packets, (p: Packet) => p.direction == d) }

  function Copies(ps: seq<Packet>, s: Segment): nat { |Filter(ps, (p: Packet) => p.segment == s)| }

  function AcksOf(ps: seq<Packet>, number: int): seq<Packet> { Filter(ps, p => PureAck(p) && p.ack == number) }

  /** The packet of least frame behind after; of several, the one captured first. */
  function EarliestAfter(ps: seq<Packet>, after: int): Option<Packet> {
    if ps == [] then None
    else
      var best, q := EarliestAfter(ps[..|ps| - 1], after), ps[|ps| - 1];
      if q.frame > after && (best.None? || q.frame < best.value.frame) then Some(q) else best
  }

  /** A reverse data packet strictly between two frames. */
  ghost predicate DataBetween(ps: seq<Packet>, from: int, to: int) {
    exists q :: q in ps && q.segment.length > 0 && from < q.frame < to
  }

  function MakeSample(data: Packet, ack: Packet): Sample {
    Sample(Key(data.direction, data.segment, data.hash), data.frame, ack.frame, data.time, ack.time,
           (ack.time - data.time) * 1000000.0)
  }

  ghost function SampleOf(packets: seq<Packet>, data: Packet): Option<Sample> {
    var back := Along(packets, Back(data.direction));
    var ack := EarliestAfter(AcksOf(back, Confirming(data.segment)), data.frame);
    if CleanData(data) && Copies(Along(packets, data.direction), data.segment) <= 1
       && ack.Some? && !DataBetween(back, data.frame, ack.value.frame)
    then Some(MakeSample(data, ack.value)) else None
  }

  function Appended<T>(s: seq<T>, x: Option<T>): seq<T> { if x.Some? then s + [x.value] else s }

  ghost function SamplesOf(packets: seq<Packet>, ps: seq<Packet>): seq<Sample> {
    if ps == [] then [] else Appended(SamplesOf(packets, ps[..|ps| - 1]), SampleOf(packets, ps[|ps| - 1]))
  }

  /** Directions in order of first appearance. */
  function Directions(packets: seq<Packet>): seq<Direction> {
    if packets == [] then []
    else
      var seen, d := Directions(packets[..|packets| - 1]), packets[|packets| - 1].direction;
      if d in seen then seen else seen + [d]
  }

  ghost function SamplesAlong(packets: seq<Packet>, d: Direction): seq<Sample> {
    if Unresolved(d) then [] else SamplesOf(packets, Along(packets, d))
  }

  ghost function SamplesBy(packets: seq<Packet>, order: seq<Direction>): seq<Sample> {
    if order == [] then []
    else SamplesBy(packets, order[..|order| - 1]) + SamplesAlong(packets, order[|order| - 1])
  }

  ghost function Samples(packets: seq<Packet>): seq<Sample> { SamplesBy(packets, Directions(packets)) }

  // ------------------------------------------------------------ what the specification says

  lemma {:induction false} EarliestMeans(ps: seq<Packet>, after: int)
    ensures EarliestAfter(ps, after).None? <==> forall q :: q in ps ==> q.frame <= after
    ensures EarliestAfter(ps, after).Some? ==>
              var a := EarliestAfter(ps, after).value;
              a in ps && a.frame > after && forall q :: q in ps && q.frame > after ==> a.frame <= q.frame
  {
    if ps != [] {
      EarliestMeans(ps[..|ps| - 1], after);
      assert ps == ps[..|ps| - 1] + [ps[|ps| - 1]];
    }
  }

  lemma AlongHas(packets: seq<Packet>, d: Direction)
    ensures forall p :: p in Along(packets, d) <==> p in packets && p.direction == d
  {
    FilterKeepsMembers(packets, (p: Packet) => p.direction == d);
  }

  lemma AcksOfHas(ps: seq<Packet>, number: int)
    ensures forall p :: p in AcksOf(ps, number) <==> p in ps && PureAck(p) && p.ack == number
  {
    FilterKeepsMembers(ps, p => PureAck(p) && p.ack == number);
  }

  /** ack confirms exactly data, follows it, and no reverse data comes between. */
  ghost predicate CleanlyAcked(packets: seq<Packet>, data: Packet, ack: Packet) {
    && ack in packets && ack.direction == Back(data.direction)
    && PureAck(ack) && ack.ack == Confirming(data.segment) && data.frame < ack.frame
    && forall q :: q in packets && q.direction == Back(data.direction) && q.segment.length > 0
                   ==> !(data.frame < q.frame < ack.frame)
  }

  /** A segment is sampled exactly when it is clean, is the only one of its
      sequence number and length, and some acknowledgement is clean; the sample
      carries the first of those. */
  lemma SampledIff(packets: seq<Packet>, data: Packet)
    ensures SampleOf(packets, data).Some?
       <==> CleanData(data) && Copies(Along(packets, data.direction), data.segment) <= 1
            && exists ack :: CleanlyAcked(packets, data, ack)
    ensures SampleOf(packets, data).Some? ==>
              exists ack :: CleanlyAcked(packets, data, ack) && SampleOf(packets, data) == Some(MakeSample(data, ack))
                            && forall other :: CleanlyAcked(packets, data, other) ==> ack.frame <= other.frame
  {
    var back, number := Along(packets, Back(data.direction)), Confirming(data.segment);
    AlongHas(packets, Back(data.direction));
    AcksOfHas(back, number);
    var acks := AcksOf(back, number);
    EarliestMeans(acks, data.frame);
    hide Copies, Along, PureAck, AcksOf, EarliestAfter;
    var first := EarliestAfter(acks, data.frame);
    if first.Some? {
      assert !DataBetween(back, data.frame, first.value.frame) <==> CleanlyAcked(packets, data, first.value);
    }
  }

  lemma {:induction false} EarliestIsFirstOfItsFrame(ps: seq<Packet>, after: int)
    requires EarliestAfter(ps, after).Some?
    ensures var a := EarliestAfter(ps, after).value;
            var same := Filter(ps, (q: Packet) => q.frame == a.frame);
            same != [] && same[0] == a
  {
    var front, q := ps[..|ps| - 1], ps[|ps| - 1];
    assert ps == front + [q];
    var a := EarliestAfter(ps, after).value;
    var keep := (p: Packet) => p.frame == a.frame;
    FilterSnoc(front, q, keep);
    EarliestMeans(front, after);
    if EarliestAfter(front, after) == Some(a) {
      EarliestIsFirstOfItsFrame(front, after);
    } else {
      NothingKept(front, keep);
    }
  }

  /** Bisecting the sorted acknowledgements finds the specified one. */
  lemma BisectedIsEarliest(ps: seq<Packet>, after: int, first: nat)
    requires first <= |Sort(ps, ByFrame)|
    requires forall i :: 0 <= i < first ==> Sort(ps, ByFrame)[i].frame <= after
    requires forall i :: first <= i < |Sort(ps, ByFrame)| ==> after < Sort(ps, ByFrame)[i].frame
    ensures EarliestAfter(ps, after) == if first < |Sort(ps, ByFrame)| then Some(Sort(ps, ByFrame)[first]) else None
  {
    var sorted := Sort(ps, ByFrame);
    SortSorts(ps, ByFrame);
    SortKeepsMembers(ps, ByFrame);
    EarliestMeans(ps, after);
    var found := EarliestAfter(ps, after);
    hide Sort, EarliestAfter;
    if first < |sorted| {
      var x := sorted[first];
      assert x in ps;
      var a := found.value;
      assert a in sorted;
      var j :| 0 <= j < |sorted| && sorted[j] == a;
      assert j == first || ByFrame(x, sorted[j]);
      var keep := (q: Packet) => q.frame == a.frame;
      EarliestIsFirstOfItsFrame(ps, after);
      SortIsStable(ps, ByFrame, keep);
      FilterHead(sorted, keep, first);
    }
  }

  // ------------------------------------------------------------ the indexes

  datatype Index = Index(duplicates: set<Segment>, acks: map<int, seq<Packet>>, ackFrames: map<int, seq<int>>,
                         dataFrames: seq<int>)

  function Frames(ps: seq<Packet>): (r: seq<int>)
    ensures |r| == |ps| && forall i :: 0 <= i < |ps| ==> r[i] == ps[i].frame
  {
    seq(|ps|, i requires 0 <= i < |ps| => ps[i].frame)
  }

  function At<V>(m: map<int, seq<V>>, n: int): seq<V> { if n in m then m[n] else [] }

  function DataFrames(ps: seq<Packet>): seq<int> { Frames(Filter(ps, (p: Packet) => p.segment.length > 0)) }

  ghost predicate IndexOf(x: Index, ps: seq<Packet>) {
    && (forall s :: s in x.duplicates <==> Copies(ps, s) > 1)
    && (forall n :: At(x.acks, n) == Sort(AcksOf(ps, n), ByFrame))
    && (forall n :: At(x.ackFrames, n) == Frames(At(x.acks, n)))
    && x.dataFrames == Sort(DataFrames(ps), AtMost)
  }

  function Group(byDirection: map<Direction, seq<Packet>>, d: Direction): seq<Packet> {
    if d in byDirection then byDirection[d] else []
  }

  method GroupByDirection(packets: seq<Packet>)
    returns (order: seq<Direction>, byDirection: map<Direction, seq<Packet>>)
    ensures order == Directions(packets)
    ensures forall d :: d in byDirection <==> d in order
    ensures forall d :: Group(byDirection, d) == Along(packets, d)
  {
    order, byDirection := [], map[];
    for i := 0 to |packets|
      invariant order == Directions(packets[..i])
      invariant forall d :: d in byDirection <==> d in order
      invariant forall d :: Group(byDirection, d) == Along(packets[..i], d)
    {
      var d := packets[i].direction;
      assert packets[..i + 1][..i] == packets[..i];
      assert forall e :: Along(packets[..i + 1], e)
                      == if e == d then Along(packets[..i], e) + [packets[i]] else Along(packets[..i], e);
      if d !in byDirection { order := order + [d]; }
      ghost var was := byDirection;
      byDirection := byDirection[d := Group(byDirection, d) + [packets[i]]];
      assert forall e :: Group(byDirection, e) == if e == d then Group(was, e) + [packets[i]] else Group(was, e);
    }
    assert packets[..|packets|] == packets;
  }

  /** The keys that occur more than once. */
  method Duplicates(ps: seq<Packet>) returns (duplicates: set<Segment>)
    ensures forall s :: s in duplicates <==> Copies(ps, s) > 1
  {
    var counts: map<Segment, nat> := map[];
    for i := 0 to |ps|
      invariant forall s :: Copies(ps[..i], s) == if s in counts then counts[s] else 0
    {
      var s := ps[i].segment;
      assert ps[..i + 1][..i] == ps[..i];
      assert forall e :: Copies(ps[..i + 1], e) == Copies(ps[..i], e) + if e == s then 1 else 0;
      counts := counts[s := (if s in counts then counts[s] else 0) + 1];
    }
    assert ps[..|ps|] == ps;
    duplicates := set s | s in counts && counts[s] > 1;
  }

  /** The pure acknowledgements by number and the frames of the data packets,
      both in capture order. */
  method Collect(ps: seq<Packet>) returns (acks: map<int, seq<Packet>>, dataFrames: seq<int>)
    ensures forall n :: At(acks, n) == AcksOf(ps, n)
    ensures dataFrames == DataFrames(ps)
  {
    hide PureAck, Confirming;
    acks, dataFrames := map[], [];
    NoneCollected();
    assert ps[..0] == [];
    for i := 0 to |ps|
      invariant forall n :: At(acks, n) == AcksOf(ps[..i], n)
      invariant dataFrames == DataFrames(ps[..i])
    {
      hide AcksOf, DataFrames, At;
      var p := ps[i];
      assert ps[..i + 1] == ps[..i] + [p];
      AcksSnoc(ps[..i], p);
      DataFramesSnoc(ps[..i], p);
      if PureAck(p) {
        ghost var was := acks;
        acks := acks[p.ack := At(acks, p.ack) + [p]];
        AtUpdated(was, p.ack, At(was, p.ack) + [p]);
      }
      if p.segment.length > 0 { dataFrames := dataFrames + [p.frame]; }
    }
    assert ps[..|ps|] == ps;
  }

  lemma AtUpdated<V>(m: map<int, seq<V>>, k: int, v: seq<V>)
    ensures forall n :: At(m[k := v], n) == if n == k then v else At(m, n)
  {
    forall n ensures At(m[k := v], n) == if n == k then v else At(m, n) {}
  }

  /** The index of one direction. */
  method IndexPackets(ps: seq<Packet>) returns (x: Index)
    ensures IndexOf(x, ps)
  {
    hide AcksOf, DataFrames, Copies, Sort;
    var acks, dataFrames := Collect(ps);
    acks := SortEntries(acks);
    var ackFrames := map n | n in acks :: Frames(acks[n]);
    assert forall n :: At(ackFrames, n) == Frames(At(acks, n)) by { assert Frames([]) == []; }
    var duplicates := Duplicates(ps);
    x := Index(duplicates, acks, ackFrames, Sort(dataFrames, AtMost));
  }

  lemma NoneCollected()
    ensures forall n :: AcksOf([], n) == []
    ensures DataFrames([]) == []
  {}

  lemma AcksSnoc(ps: seq<Packet>, p: Packet)
    ensures forall n :: AcksOf(ps + [p], n) == if PureAck(p) && p.ack == n then AcksOf(ps, n) + [p] else AcksOf(ps, n)
  {
    assert (ps + [p])[..|ps|] == ps;
  }

  lemma DataFramesSnoc(ps: seq<Packet>, p: Packet)
    ensures DataFrames(ps + [p]) == if p.segment.length > 0 then DataFrames(ps) + [p.frame] else DataFrames(ps)
  {
    FilterSnoc(ps, p, (p: Packet) => p.segment.length > 0);
  }

  /** Every list of a map put in frame order. */
  method SortEntries(entries: map<int, seq<Packet>>) returns (sorted: map<int, seq<Packet>>)
    ensures forall n :: At(sorted, n) == Sort(At(entries, n), ByFrame)
  {
    sorted := entries;
    var left := entries.Keys;
    assert Sort<Packet>([], ByFrame) == [];
    hide Sort;
    while left != {}
      invariant left <= entries.Keys && sorted.Keys == entries.Keys
      invariant forall n :: n in entries ==> sorted[n] == if n in left then entries[n] else Sort(entries[n], ByFrame)
      decreases |left|
    {
      assert (forall n :: n !in left) ==> left == {};
      var n :| n in left;
      sorted := sorted[n := Sort(sorted[n], ByFrame)];
      left := left - {n};
    }
  }

  lemma SortedFramesAscend(ps: seq<Packet>)
    ensures Ascending(Frames(Sort(ps, ByFrame)))
  {
    SortSorts(ps, ByFrame);
    var sorted := Sort(ps, ByFrame);
    forall i, j | 0 <= i < j < |sorted| ensures sorted[i].frame <= sorted[j].frame {
      assert ByFrame(sorted[i], sorted[j]);
    }
  }

  lemma FramesAscend(frames: seq<int>, ps: seq<Packet>)
    requires frames == Sort(DataFrames(ps), AtMost)
    ensures Ascending(frames)
  {
    SortSorts(DataFrames(ps), AtMost);
    forall i, j | 0 <= i < j < |frames| ensures frames[i] <= frames[j] { assert AtMost(frames[i], frames[j]); }
  }

  lemma DataFramesMean(ps: seq<Packet>, frame: int)
    ensures frame in Sort(DataFrames(ps), AtMost) <==> exists q :: q in ps && q.segment.length > 0 && q.frame == frame
  {
    SortKeepsMembers(DataFrames(ps), AtMost);
    FilterKeepsMembers(ps, (p: Packet) => p.segment.length > 0);
    var data := Filter(ps, (p: Packet) => p.segment.length > 0);
    hide Sort, Filter;
    if frame in Frames(data) {
      var i :| 0 <= i < |data| && data[i].frame == frame;
      assert data[i] in data;
    }
    if q :| q in ps && q.segment.length > 0 && q.frame == frame {
      assert q in data;
      var i :| 0 <= i < |data| && data[i] == q;
      assert Frames(data)[i] == frame;
    }
  }

  /** Where the data frames are sorted and next is the first behind from, some
      lies before to exactly if that one does. */
  lemma NextDataDecides(ps: seq<Packet>, frames: seq<int>, next: nat, from: int, to: int)
    requires frames == Sort(DataFrames(ps), AtMost) && next <= |frames|
    requires forall i :: 0 <= i < next ==> frames[i] <= from
    requires forall i :: next <= i < |frames| ==> from < frames[i]
    ensures Ascending(frames)
    ensures next < |frames| && frames[next] < to <==> DataBetween(ps, from, to)
  {
    FramesAscend(frames, ps);
    hide Sort, DataFrames;
    if next < |frames| && frames[next] < to {
      DataFramesMean(ps, frames[next]);
    }
    if q :| q in ps && q.segment.length > 0 && from < q.frame < to {
      DataFramesMean(ps, q.frame);
      var j :| 0 <= j < |frames| && frames[j] == q.frame;
    }
  }

  /** The loop body for one data packet, by the indexes of its direction and of
      the reverse one. */
  method Consider(ghost packets: seq<Packet>, data: Packet, own: Index, back: Index) returns (s: Option<Sample>)
    requires IndexOf(own, Along(packets, data.direction))
    requires IndexOf(back, Along(packets, Back(data.direction)))
    ensures s == SampleOf(packets, data)
  {
    ghost var reverse := Along(packets, Back(data.direction));
    hide Along, Copies;
    if data.segment.length <= 0 || data.retransmission || data.outOfOrder || data.lostSegment { return None; }
    if data.segment in own.duplicates { return None; }
    var number := Confirming(data.segment);
    var candidates, ackFrames := At(back.acks, number), At(back.ackFrames, number);
    SortedFramesAscend(AcksOf(reverse, number));
    var first := BisectRight(ackFrames, data.frame);
    BisectedIsEarliest(AcksOf(reverse, number), data.frame, first);
    if first == |candidates| { return None; }
    var ack := candidates[first];
    FramesAscend(back.dataFrames, reverse);
    var nextData := BisectRight(back.dataFrames, data.frame);
    NextDataDecides(reverse, back.dataFrames, nextData, data.frame, ack.frame);
    if nextData < |back.dataFrames| && back.dataFrames[nextData] < ack.frame { return None; }
    s := Some(MakeSample(data, ack));
  }

  ghost predicate Indexed(indexes: map<Direction, Index>, packets: seq<Packet>, order: seq<Direction>) {
    && (forall d :: d in indexes <==> d in order)
    && (forall d :: d in indexes ==> IndexOf(indexes[d], Along(packets, d)))
  }

  method BuildIndexes(ghost packets: seq<Packet>, order: seq<Direction>, byDirection: map<Direction, seq<Packet>>)
    returns (indexes: map<Direction, Index>)
    requires forall d :: d in byDirection <==> d in order
    requires forall d :: Group(byDirection, d) == Along(packets, d)
    ensures Indexed(indexes, packets, order)
  {
    hide Along, IndexOf;
    indexes := map[];
    for i := 0 to |order|
      invariant Indexed(indexes, packets, order[..i])
    {
      var d := order[i];
      assert Group(byDirection, d) == Along(packets, d);
      assert order[..i + 1] == order[..i] + [d];
      var x := IndexPackets(byDirection[d]);
      indexes := indexes[d := x];
    }
    assert order[..|order|] == order;
  }

  /** The samples of one direction. */
  method SampleDirection(ghost packets: seq<Packet>, d: Direction, data: seq<Packet>, own: Index, back: Index)
    returns (samples: seq<Sample>)
    requires data == Along(packets, d) && IndexOf(own, data) && IndexOf(back, Along(packets, Back(d)))
    ensures samples == SamplesOf(packets, data)
  {
    AlongHas(packets, d);
    hide Along, IndexOf, SampleOf;
    samples := [];
    assert data[..0] == [];
    for k := 0 to |data|
      invariant samples == SamplesOf(packets, data[..k])
    {
      assert data[..k + 1][..k] == data[..k];
      assert data[k] in data;
      var s := Consider(packets, data[k], own, back);
      samples := Appended(samples, s);
    }
    assert data[..|data|] == data;
  }

  /** clean_samples: the indexes once per direction, then one pass. */
  method CleanSamples(packets: seq<Packet>) returns (samples: seq<Sample>)
    ensures samples == Samples(packets)
    ensures Sampled(packets, samples)
  {
    SamplesAreSampled(packets);
    hide Sampled;
    hide Along, IndexOf, SamplesOf, Directions;
    var order, byDirection := GroupByDirection(packets);
    var indexes := BuildIndexes(packets, order, byDirection);
    samples := [];
    assert order[..0] == [];
    for i := 0 to |order|
      invariant samples == SamplesBy(packets, order[..i])
    {
      var d := order[i];
      assert order[..i + 1][..i] == order[..i];
      if Unresolved(d) { continue; }
      var data := byDirection[d];
      assert data == Group(byDirection, d) == Along(packets, d);
      assert Group(byDirection, Back(d)) == Along(packets, Back(d));
      var back := if Back(d) in indexes then indexes[Back(d)] else Index({}, map[], map[], []);
      NoneIsIndexed();
      var found := SampleDirection(packets, d, data, indexes[d], back);
      samples := samples + found;
    }
    assert order[..|order|] == order;
  }

  lemma NoneIsIndexed()
    ensures IndexOf(Index({}, map[], map[], []), [])
  {}

  // ------------------------------------------------------------ which samples there are

  lemma {:induction false} SamplesOfMeans(packets: seq<Packet>, ps: seq<Packet>)
    ensures forall s :: s in SamplesOf(packets, ps) <==> exists data :: data in ps && SampleOf(packets, data) == Some(s)
  {
    if ps != [] {
      var front, p := ps[..|ps| - 1], ps[|ps| - 1];
      assert ps == front + [p];
      SamplesOfMeans(packets, front);
      hide SampleOf;
      var last := SampleOf(packets, p);
      assert SamplesOf(packets, ps) == Appended(SamplesOf(packets, front), last);
      hide SamplesOf;
      forall s
        ensures s in SamplesOf(packets, ps) <==> exists data :: data in ps && SampleOf(packets, data) == Some(s)
      {
        assert s in SamplesOf(packets, ps) <==> s in SamplesOf(packets, front) || last == Some(s);
      }
    }
  }

  lemma {:induction false} DirectionsMeans(packets: seq<Packet>)
    ensures forall d :: d in Directions(packets) <==> exists p :: p in packets && p.direction == d
    ensures forall i, j :: 0 <= i < j < |Directions(packets)| ==> Directions(packets)[i] != Directions(packets)[j]
  {
    if packets != [] {
      DirectionsMeans(packets[..|packets| - 1]);
      assert packets == packets[..|packets| - 1] + [packets[|packets| - 1]];
    }
  }

  lemma {:induction false} SamplesByMeans(packets: seq<Packet>, order: seq<Direction>)
    ensures forall s :: s in SamplesBy(packets, order) <==> exists d :: d in order && s in SamplesAlong(packets, d)
  {
    if order != [] {
      var front, last := order[..|order| - 1], order[|order| - 1];
      assert order == front + [last];
      SamplesByMeans(packets, front);
      hide SamplesAlong;
    }
  }

  /** The samples are those of the data segments between two known ports, and
      of no others. */
  lemma SamplesAreTheCleanSegments(packets: seq<Packet>, s: Sample)
    ensures s in Samples(packets)
       <==> exists data :: data in packets && !Unresolved(data.direction) && SampleOf(packets, data) == Some(s)
  {
    var order := Directions(packets);
    SamplesByMeans(packets, order);
    DirectionsMeans(packets);
    hide Directions, SampleOf, SamplesBy;
    forall d ensures s in SamplesAlong(packets, d)
                <==> !Unresolved(d) && exists data ::
                       data in packets && data.direction == d && SampleOf(packets, data) == Some(s)
    {
      SamplesOfMeans(packets, Along(packets, d));
      AlongHas(packets, d);
    }
    hide SamplesAlong, Unresolved;
    if data :| data in packets && !Unresolved(data.direction) && SampleOf(packets, data) == Some(s) {
      assert data.direction in order && s in SamplesAlong(packets, data.direction);
    }
  }

  ghost predicate KeysDiffer(samples: seq<Sample>) {
    forall i, j :: 0 <= i < j < |samples| ==> samples[i].key != samples[j].key
  }

  lemma {:induction false} TwoCopies(ps: seq<Packet>, i: nat, p: Packet)
    requires i < |ps| && ps[i].segment == p.segment
    ensures Copies(ps + [p], p.segment) > 1
  {
    var keep := (q: Packet) => q.segment == p.segment;
    FilterSnoc(ps, p, keep);
    FilterKeepsMembers(ps, keep);
    assert ps[i] in Filter(ps, keep);
  }

  lemma NoEarlierCopy(ps: seq<Packet>, p: Packet, q: Packet)
    requires Copies(ps + [p], p.segment) <= 1 && q in ps
    ensures q.segment != p.segment
  {
    var i :| 0 <= i < |ps| && ps[i] == q;
    if q.segment == p.segment { TwoCopies(ps, i, p); }
  }

  lemma {:induction false} CopiesGrow(ps: seq<Packet>, more: seq<Packet>, s: Segment)
    ensures Copies(ps, s) <= Copies(ps + more, s)
  {
    if more == [] {
      assert ps + more == ps;
    } else {
      var front, last := more[..|more| - 1], more[|more| - 1];
      CopiesGrow(ps, front, s);
      assert ps + more == (ps + front) + [last];
      FilterSnoc(ps + front, last, (q: Packet) => q.segment == s);
    }
  }

  lemma SampleHasItsKey(packets: seq<Packet>, data: Packet)
    requires SampleOf(packets, data).Some?
    ensures SampleOf(packets, data).value.key == Key(data.direction, data.segment, data.hash)
    ensures Copies(Along(packets, data.direction), data.segment) <= 1
  {}

  /** A sampled segment occurs once in its direction, so no earlier sample
      carries it. */
  lemma NewSegment(packets: seq<Packet>, ps: seq<Packet>, p: Packet, rest: seq<Packet>)
    requires Along(packets, p.direction) == ps + [p] + rest && SampleOf(packets, p).Some?
    ensures forall s :: s in SamplesOf(packets, ps) ==> s.key.segment != p.segment
  {
    SampleHasItsKey(packets, p);
    CopiesGrow(ps + [p], rest, p.segment);
    SamplesOfMeans(packets, ps);
    hide Along, SamplesOf, Copies;
    forall s | s in SamplesOf(packets, ps) ensures s.key.segment != p.segment {
      var q :| q in ps && SampleOf(packets, q) == Some(s);
      SampleHasItsKey(packets, q);
      NoEarlierCopy(ps, p, q);
    }
  }

  /** Within one direction no two samples share a segment, as a sampled segment
      has no second copy. */
  lemma {:induction false} SegmentsDiffer(packets: seq<Packet>, d: Direction, n: nat)
    requires n <= |Along(packets, d)|
    ensures KeysDiffer(SamplesOf(packets, Along(packets, d)[..n]))
    ensures forall s :: s in SamplesOf(packets, Along(packets, d)[..n]) ==> s.key.direction == d
  {
    var all := Along(packets, d);
    if n > 0 {
      var front, p := all[..n - 1], all[n - 1];
      SegmentsDiffer(packets, d, n - 1);
      assert p.direction == d by {
        AlongHas(packets, d);
        assert p in all;
      }
      hide Along, SampleOf;
      assert all[..n][..n - 1] == front && all == front + [p] + all[n..];
      if SampleOf(packets, p).Some? {
        SampleHasItsKey(packets, p);
        NewSegment(packets, front, p, all[n..]);
      }
    }
  }

  /** No two samples of a capture share a key, so indexing them by key loses
      none. */
  lemma {:induction false} KeysAreUnique(packets: seq<Packet>, n: nat)
    requires n <= |Directions(packets)|
    ensures KeysDiffer(SamplesBy(packets, Directions(packets)[..n]))
    ensures forall s :: s in SamplesBy(packets, Directions(packets)[..n]) ==>
              s.key.direction in Directions(packets)[..n]
    ensures n == |Directions(packets)| ==> KeysDiffer(Samples(packets))
  {
    var order := Directions(packets);
    if n > 0 {
      assert order[..n][..n - 1] == order[..n - 1] && order[..n] == order[..n - 1] + [order[n - 1]];
      KeysAreUnique(packets, n - 1);
      DirectionsMeans(packets);
      var d := order[n - 1];
      var all := Along(packets, d);
      SegmentsDiffer(packets, d, |all|);
      assert all[..|all|] == all;
      hide Directions, SamplesOf;
    }
    assert order[..|order|] == order;
  }

  // ------------------------------------------------------------ the samples in the capture's own terms

  /** The segment is carried by one packet of the direction at most. */
  ghost predicate Once(packets: seq<Packet>, d: Direction, s: Segment) {
    forall i, j :: 0 <= i < j < |packets| && packets[i].direction == d && packets[i].segment == s
                   ==> !(packets[j].direction == d && packets[j].segment == s)
  }

  ghost predicate Measurable(packets: seq<Packet>, data: Packet) {
    && data in packets && data.direction.src.port != "0" && data.direction.dst.port != "0"
    && data.segment.length > 0 && !data.retransmission && !data.outOfOrder && !data.lostSegment
    && Once(packets, data.direction, data.segment)
  }

  /** Going the other way without payload, with ACK and without FIN, SYN and RST,
      for the byte behind data, later, and before any payload going that way. */
  ghost predicate Confirms(packets: seq<Packet>, data: Packet, ack: Packet) {
    && ack in packets && ack.direction == Direction(data.direction.dst, data.direction.src)
    && ack.segment.length == 0 && ack.flags & 0x17 == 0x10
    && ack.ack == data.segment.seqno + data.segment.length && data.frame < ack.frame
    && forall q :: q in packets && q.direction == ack.direction && q.segment.length > 0
                   ==> q.frame <= data.frame || ack.frame <= q.frame
  }

  /** s is the delay from data to the first packet that confirms it. */
  ghost predicate Measures(packets: seq<Packet>, data: Packet, s: Sample) {
    && s.key == Key(data.direction, data.segment, data.hash) && s.dataFrame == data.frame && s.dataTime == data.time
    && s.delayUs == (s.ackTime - s.dataTime) * 1000000.0
    && exists ack :: Confirms(packets, data, ack) && s.ackFrame == ack.frame && s.ackTime == ack.time
                     && forall other :: Confirms(packets, data, other) ==> ack.frame <= other.frame
  }

  ghost predicate Carried(packets: seq<Packet>, d: Direction, s: Segment) {
    exists i :: 0 <= i < |packets| && packets[i].direction == d && packets[i].segment == s
  }

  lemma {:induction false} OnceMeans(packets: seq<Packet>, d: Direction, s: Segment)
    ensures Copies(Along(packets, d), s) > 0 <==> Carried(packets, d, s)
    ensures Copies(Along(packets, d), s) <= 1 <==> Once(packets, d, s)
  {
    if packets == [] {
      assert Copies(Along(packets, d), s) == 0;
    } else {
      var front, p := packets[..|packets| - 1], packets[|packets| - 1];
      assert packets == front + [p];
      OnceMeans(front, d, s);
      CopiesSnoc(front, p, d, s);
      OneMoreCopy(front, p, d, s);
      hide Copies, Along, Once, Carried;
    }
  }

  lemma CopiesSnoc(front: seq<Packet>, p: Packet, d: Direction, s: Segment)
    ensures Copies(Along(front + [p], d), s)
         == Copies(Along(front, d), s) + if p.direction == d && p.segment == s then 1 else 0
  {
    FilterSnoc(front, p, (q: Packet) => q.direction == d);
    if p.direction == d { FilterSnoc(Along(front, d), p, (q: Packet) => q.segment == s); }
    hide Filter;
  }

  lemma OneMoreCopy(front: seq<Packet>, p: Packet, d: Direction, s: Segment)
    ensures Carried(front + [p], d, s) <==> Carried(front, d, s) || (p.direction == d && p.segment == s)
    ensures Once(front + [p], d, s)
       <==> Once(front, d, s) && (p.direction == d && p.segment == s ==> !Carried(front, d, s))
  {
    var ps := front + [p];
    assert forall i :: 0 <= i < |front| ==> ps[i] == front[i];
    assert ps[|front|] == p;
    if Carried(front, d, s) {
      var i :| 0 <= i < |front| && front[i].direction == d && front[i].segment == s;
      assert ps[i].direction == d && ps[i].segment == s;
    }
    if Once(ps, d, s) {
      forall i, j | 0 <= i < j < |front| && front[i].direction == d && front[i].segment == s
        ensures !(front[j].direction == d && front[j].segment == s)
      {
        assert ps[i] == front[i] && ps[j] == front[j];
      }
    }
  }

  lemma FlagsMean(flags: bv16)
    ensures flags & 0x10 != 0 && flags & 0x07 == 0 <==> flags & 0x17 == 0x10
  {}

  lemma ConfirmsMeans(packets: seq<Packet>, data: Packet, ack: Packet)
    ensures CleanlyAcked(packets, data, ack) <==> Confirms(packets, data, ack)
  {
    FlagsMean(ack.flags);
  }

  /** What is sampled, and as what. */
  lemma SampleMeans(packets: seq<Packet>, data: Packet)
    requires data in packets
    ensures Measurable(packets, data) && (exists ack :: Confirms(packets, data, ack))
       <==> !Unresolved(data.direction) && SampleOf(packets, data).Some?
    ensures SampleOf(packets, data).Some? ==> Measures(packets, data, SampleOf(packets, data).value)
  {
    SampledIff(packets, data);
    OnceMeans(packets, data.direction, data.segment);
    forall ack ensures CleanlyAcked(packets, data, ack) <==> Confirms(packets, data, ack) {
      ConfirmsMeans(packets, data, ack);
    }
    hide SampleOf, Copies, Along, Once, CleanlyAcked, Confirms;
  }

  /** The samples, said in full: each measures one segment, and every segment
      that can be measured and is confirmed has its sample. */
  ghost predicate Sampled(packets: seq<Packet>, samples: seq<Sample>) {
    && (forall s :: s in samples ==> exists data :: Measurable(packets, data) && Measures(packets, data, s))
    && (forall data, ack :: Measurable(packets, data) && Confirms(packets, data, ack) ==>
          exists s :: s in samples && Measures(packets, data, s))
    && KeysDiffer(samples)
  }

  lemma SamplesAreSampled(packets: seq<Packet>)
    ensures Sampled(packets, Samples(packets))
  {
    var samples := Samples(packets);
    KeysAreUnique(packets, |Directions(packets)|);
    hide Samples, SampleOf, Measures, Measurable, Confirms, Unresolved, KeysDiffer;
    forall s | s in samples ensures exists data :: Measurable(packets, data) && Measures(packets, data, s) {
      SamplesAreTheCleanSegments(packets, s);
      var data :| data in packets && !Unresolved(data.direction) && SampleOf(packets, data) == Some(s);
      SampleMeans(packets, data);
    }
    forall data, ack | Measurable(packets, data) && Confirms(packets, data, ack)
      ensures exists s :: s in samples && Measures(packets, data, s)
    {
      MeasurableIsCaptured(packets, data);
      SampleMeans(packets, data);
      SamplesAreTheCleanSegments(packets, SampleOf(packets, data).value);
    }
  }

  lemma MeasurableIsCaptured(packets: seq<Packet>, data: Packet)
    requires Measurable(packets, data)
    ensures data in packets
  {}
}
