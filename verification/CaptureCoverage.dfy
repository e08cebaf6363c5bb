/** The byte-coverage proof of tools/capture_boundaries.py and the sequence
    index that spares it a scan of the whole stream. */
module CaptureCoverage {
  import opened Basics
  import opened Ordering

  datatype Packet = Packet(frame: int, seqno: int, time: real, data: seq<Byte>, truncated: bool)
  type Direction = string

  datatype Error = NonMonotonicTimestamps | ConflictingOverlap | TruncatedFrame | MissingBytes

  /** One contributing packet and the stretch [lo, hi) it was credited with. */
  datatype Part = Part(frame: int, lo: int, hi: int, time: real)

  datatype Proof = Proof(start: int, end: int, size: nat, parts: seq<Part>, completionFrame: int, completionTime: real)

  predicate ByFrame(p: Packet, q: Packet) { p.frame <= q.frame }

  predicate ByPlace(p: Packet, q: Packet) { p.seqno < q.seqno || (p.seqno == q.seqno && p.frame <= q.frame) }

  function End(p: Packet): int { p.seqno + |p.data| }

  predicate Covers(p: Packet, at: int) { p.seqno <= at < p.seqno + |p.data| }

  // ------------------------------------------------------------ the scan

  /** The bytes to be proved: data, starting at sequence number start. */
  datatype Target = Target(start: int, data: seq<Byte>) {
    function end(): int { start + |data| }
  }

  function Lo(p: Packet, t: Target): int { if p.seqno > t.start then p.seqno else t.start }
  function Hi(p: Packet, t: Target): int { if End(p) < t.end() then End(p) else t.end() }

  predicate Reaches(p: Packet, t: Target) { Lo(p, t) < Hi(p, t) }

  /** Packet and target have the same bytes where they overlap. */
  predicate Agrees(p: Packet, t: Target)
    requires Reaches(p, t)
  {
    p.data[Lo(p, t) - p.seqno..Hi(p, t) - p.seqno] == t.data[Lo(p, t) - t.start..Hi(p, t) - t.start]
  }

  datatype Scan = Scan(seen: seq<bool>, parts: seq<Part>, complete: Option<Packet>, last: Option<real>)

  function Fresh(t: Target): Scan { Scan(seq(|t.data|, _ => false), [], None, None) }

  function Mark(seen: seq<bool>, lo: nat, hi: nat): (r: seq<bool>)
    requires lo <= hi <= |seen|
  {
    seq(|seen|, i requires 0 <= i < |seen| => lo <= i < hi || seen[i])
  }

  /** Why an overlapping packet disproves the record. */
  function Refusal(last: Option<real>, p: Packet, t: Target): Option<Error>
    requires Reaches(p, t)
  {
    if last.Some? && p.time < last.value then Some(NonMonotonicTimestamps)
    else if !Agrees(p, t) then Some(ConflictingOverlap)
    else if p.truncated then Some(TruncatedFrame)
    else None
  }

  /** A packet is credited when it shows a byte nobody showed before. */
  function Credited(s: Scan, p: Packet, t: Target): (r: Scan)
    requires |s.seen| == |t.data| && Reaches(p, t)
    ensures |r.seen| == |t.data|
  {
    var lo, hi := Lo(p, t), Hi(p, t);
    if false !in s.seen[lo - t.start..hi - t.start] then s.(last := Some(p.time))
    else
      var seen := Mark(s.seen, lo - t.start, hi - t.start);
      Scan(seen, s.parts + [Part(p.frame, lo, hi, p.time)],
           if s.complete.None? && false !in seen then Some(p) else s.complete, Some(p.time))
  }

  /** One packet: skipped, refused or taken into account. */
  function Step(s: Scan, p: Packet, t: Target): (r: Result<Scan, Error>)
    requires |s.seen| == |t.data|
    ensures r.Ok? ==> |r.value.seen| == |t.data|
  {
    if !Reaches(p, t) then Ok(s)
    else if Refusal(s.last, p, t).Some? then Err(Refusal(s.last, p, t).value)
    else Ok(Credited(s, p, t))
  }

  function Scanned(ps: seq<Packet>, t: Target): (r: Result<Scan, Error>)
    ensures r.Ok? ==> |r.value.seen| == |t.data|
  {
    if ps == [] then Ok(Fresh(t))
    else
      match Scanned(ps[..|ps| - 1], t)
      case Err(e) => Err(e)
      case Ok(s) => Step(s, ps[|ps| - 1], t)
  }

  function Verdict(ps: seq<Packet>, t: Target): Result<Proof, Error> {
    match Scanned(ps, t)
    case Err(e) => Err(e)
    case Ok(s) =>
      if s.complete.None? then Err(MissingBytes)
      else Ok(Proof(t.start, t.end(), |t.data|, s.parts, s.complete.value.frame, s.complete.value.time))
  }

  /** The slice assignment that marks [lo, hi) as seen. */
  method SetSeen(seen: array<bool>, lo: nat, hi: nat)
    requires lo <= hi <= seen.Length
    modifies seen
    ensures seen[..] == Mark(old(seen[..]), lo, hi)
  {
    for k := lo to hi
      invariant forall i :: 0 <= i < seen.Length ==> seen[i] == (lo <= i < k || old(seen[i]))
    {
      seen[k] := true;
    }
  }

  /** Crediting a packet that was not refused. */
  method Credit(seen: array<bool>, p: Packet, t: Target, parts: seq<Part>, complete: Option<Packet>,
                ghost last: Option<real>)
    returns (nowParts: seq<Part>, nowComplete: Option<Packet>)
    requires seen.Length == |t.data| && Reaches(p, t)
    modifies seen
    ensures Scan(seen[..], nowParts, nowComplete, Some(p.time))
            == Credited(Scan(old(seen[..]), parts, complete, last), p, t)
  {
    nowParts, nowComplete := parts, complete;
    var lo, hi := Lo(p, t), Hi(p, t);
    assert seen[..][lo - t.start..hi - t.start] == seen[lo - t.start..hi - t.start];
    hide Mark, Reaches;
    if false in seen[lo - t.start..hi - t.start] {
      SetSeen(seen, lo - t.start, hi - t.start);
      nowParts := parts + [Part(p.frame, lo, hi, p.time)];
      if complete.None? && false !in seen[..] { nowComplete := Some(p); }
    }
  }

  /** coverage, on packets already in frame order. */
  method Coverage(ps: seq<Packet>, t: Target) returns (r: Result<Proof, Error>)
    ensures r == Verdict(ps, t)
    ensures Certifies(ps, t, r)
  {
    VerdictCertifies(ps, t);
    hide Certifies;
    hide Scanned, Mark, Agrees, Credited, Reaches;
    var seen := new bool[|t.data|](_ => false);
    var parts: seq<Part> := [];
    var complete: Option<Packet> := None;
    var last: Option<real> := None;
    assert seen[..] == Fresh(t).seen;
    NoneYet(ps, t);
    for i := 0 to |ps|
      invariant Scanned(ps[..i], t) == Ok(Scan(seen[..], parts, complete, last))
    {
      var p := ps[i];
      OneMore(ps, i, Scan(seen[..], parts, complete, last), t);
      if Reaches(p, t) {
        var refused := Refusal(last, p, t);
        if refused.Some? {
          PrefixDecides(ps, i + 1, t);
          return Err(refused.value);
        }
        parts, complete := Credit(seen, p, t, parts, complete, last);
        last := Some(p.time);
      }
    }
    assert ps[..|ps|] == ps;
    if complete.None? { return Err(MissingBytes); }
    r := Ok(Proof(t.start, t.end(), |t.data|, parts, complete.value.frame, complete.value.time));
  }

  lemma NoneYet(ps: seq<Packet>, t: Target)
    ensures Scanned(ps[..0], t) == Ok(Fresh(t))
  {}

  lemma OneMore(ps: seq<Packet>, i: nat, s: Scan, t: Target)
    requires i < |ps| && Scanned(ps[..i], t) == Ok(s)
    ensures Scanned(ps[..i + 1], t) == Step(s, ps[i], t)
  {
    assert ps[..i + 1][..i] == ps[..i];
  }

  /** An error found in a prefix is the error of the whole. */
  lemma {:induction false} PrefixDecides(ps: seq<Packet>, i: nat, t: Target)
    requires i <= |ps| && Scanned(ps[..i], t).Err?
    ensures Scanned(ps, t) == Scanned(ps[..i], t)
    decreases |ps| - i
  {
    if i == |ps| {
      assert ps[..i] == ps;
    } else {
      assert ps[..i + 1][..i] == ps[..i];
      PrefixDecides(ps, i + 1, t);
    }
  }

  // ------------------------------------------------------------ what a proof means

  ghost predicate Shown(ps: seq<Packet>, at: int) { exists p :: p in ps && Covers(p, at) }

  ghost predicate AllShown(ps: seq<Packet>, t: Target) {
    forall at :: t.start <= at < t.start + |t.data| ==> Shown(ps, at)
  }

  /** Nothing that overlaps the target contradicts it: its bytes agree, it is
      whole, and timestamps follow the frames. */
  ghost predicate Clean(ps: seq<Packet>, t: Target) {
    && (forall i :: 0 <= i < |ps| && Reaches(ps[i], t) ==> Agrees(ps[i], t) && !ps[i].truncated)
    && (forall i, j :: 0 <= i < j < |ps| && Reaches(ps[i], t) && Reaches(ps[j], t) ==> ps[i].time <= ps[j].time)
  }

  /** p is the packet of ps that shows the last missing byte. */
  ghost predicate Completes(ps: seq<Packet>, t: Target, p: Packet) {
    exists k :: 0 <= k < |ps| && ps[k] == p && AllShown(ps[..k + 1], t) && !AllShown(ps[..k], t)
  }

  lemma ReachesMeans(p: Packet, t: Target)
    ensures Reaches(p, t) <==> exists at :: t.start <= at < t.end() && Covers(p, at)
    ensures forall at :: t.start <= at < t.end() ==> (Covers(p, at) <==> Lo(p, t) <= at < Hi(p, t))
  {
    if Reaches(p, t) { assert Covers(p, Lo(p, t)); }
  }

  lemma ShownSnoc(ps: seq<Packet>, p: Packet)
    ensures forall at :: Shown(ps + [p], at) <==> Shown(ps, at) || Covers(p, at)
  {
    forall at ensures Shown(ps + [p], at) <==> Shown(ps, at) || Covers(p, at) {
      if Covers(p, at) { assert p in ps + [p]; }
      if Shown(ps, at) { var q :| q in ps && Covers(q, at); assert q in ps + [p]; }
    }
  }

  lemma MarkedMeans(seen: seq<bool>, lo: nat, hi: nat)
    requires lo <= hi <= |seen|
    ensures false !in seen[lo..hi] ==> Mark(seen, lo, hi) == seen
  {
    if false !in seen[lo..hi] {
      forall i | lo <= i < hi ensures seen[i] { assert seen[lo..hi][i - lo] == seen[i]; }
    }
  }

  /** Credited, whichever way it goes, marks the bytes the packet shows. */
  lemma CreditedMarks(s: Scan, p: Packet, t: Target)
    requires |s.seen| == |t.data| && Reaches(p, t)
    ensures Credited(s, p, t).seen == Mark(s.seen, Lo(p, t) - t.start, Hi(p, t) - t.start)
    ensures Credited(s, p, t).last == Some(p.time)
    ensures s.complete.Some? ==> Credited(s, p, t).complete == s.complete
  {
    MarkedMeans(s.seen, Lo(p, t) - t.start, Hi(p, t) - t.start);
  }

  /** What has been seen so far is exactly what the packets so far show. */
  lemma {:induction false} SeenIsShown(ps: seq<Packet>, t: Target)
    requires Scanned(ps, t).Ok?
    ensures forall i :: 0 <= i < |t.data| ==> (Scanned(ps, t).value.seen[i] <==> Shown(ps, t.start + i))
  {
    if ps != [] {
      var front, p := ps[..|ps| - 1], ps[|ps| - 1];
      assert ps == front + [p];
      SeenIsShown(front, t);
      ShownSnoc(front, p);
      ReachesMeans(p, t);
      if Reaches(p, t) { CreditedMarks(Scanned(front, t).value, p, t); }
      hide Credited, Reaches;
    }
  }

  lemma SeenMeansAllShown(ps: seq<Packet>, t: Target)
    requires Scanned(ps, t).Ok?
    ensures false !in Scanned(ps, t).value.seen <==> AllShown(ps, t)
  {
    SeenIsShown(ps, t);
    var seen := Scanned(ps, t).value.seen;
    hide Scanned, Shown;
    if false !in seen {
      forall at | t.start <= at < t.end() ensures Shown(ps, at) { assert seen[at - t.start]; }
    }
    if AllShown(ps, t) {
      forall i | 0 <= i < |seen| ensures seen[i] { assert Shown(ps, t.start + i); }
    }
  }

  /** complete is set exactly when everything has been shown, to the packet
      that showed the last missing byte. */
  lemma {:induction false} CompleteMeans(ps: seq<Packet>, t: Target)
    requires Scanned(ps, t).Ok?
    ensures Scanned(ps, t).value.complete.Some? <==> t.data != [] && AllShown(ps, t)
    ensures Scanned(ps, t).value.complete.Some? ==> Completes(ps, t, Scanned(ps, t).value.complete.value)
  {
    if ps == [] {
      if t.data != [] { assert !Shown(ps, t.start); }
    } else {
      var front, p := ps[..|ps| - 1], ps[|ps| - 1];
      assert ps == front + [p];
      CompleteMeans(front, t);
      SeenMeansAllShown(front, t);
      SeenMeansAllShown(ps, t);
      if Reaches(p, t) { CreditedCompletes(Scanned(front, t).value, p, t); }
      hide Credited, AllShown, Completes;
      CompletesGrows(front, p, t);
    }
  }

  /** Crediting keeps "complete" in step with "every byte seen". */
  lemma CreditedCompletes(s: Scan, p: Packet, t: Target)
    requires |s.seen| == |t.data| && Reaches(p, t) && (s.complete.Some? <==> false !in s.seen)
    ensures var r := Credited(s, p, t);
            && (r.complete.Some? <==> false !in r.seen)
            && r.complete == if s.complete.Some? then s.complete else if r.complete.Some? then Some(p) else None
  {
    CreditedMarks(s, p, t);
  }

  lemma CompletesGrows(front: seq<Packet>, p: Packet, t: Target)
    ensures forall q :: Completes(front, t, q) ==> Completes(front + [p], t, q)
    ensures !AllShown(front, t) && AllShown(front + [p], t) ==> Completes(front + [p], t, p)
  {
    var ps := front + [p];
    hide AllShown;
    forall q | Completes(front, t, q) ensures Completes(ps, t, q) {
      var k :| 0 <= k < |front| && front[k] == q && AllShown(front[..k + 1], t) && !AllShown(front[..k], t);
      assert ps[k] == q && ps[..k + 1] == front[..k + 1] && ps[..k] == front[..k];
    }
    assert ps[..|front| + 1] == ps && ps[..|front|] == front;
  }

  /** last is the latest timestamp among the overlapping packets so far. */
  ghost predicate Latest(ps: seq<Packet>, t: Target, last: Option<real>) {
    && (last.None? ==> forall i :: 0 <= i < |ps| ==> !Reaches(ps[i], t))
    && (last.Some? ==> exists i :: 0 <= i < |ps| && Reaches(ps[i], t) && ps[i].time == last.value)
    && (last.Some? ==> forall i :: 0 <= i < |ps| && Reaches(ps[i], t) ==> ps[i].time <= last.value)
  }

  lemma LatestSnoc(front: seq<Packet>, p: Packet, t: Target, last: Option<real>)
    requires Latest(front, t, last)
    ensures !Reaches(p, t) ==> Latest(front + [p], t, last)
    ensures Reaches(p, t) && (last.Some? ==> last.value <= p.time) ==> Latest(front + [p], t, Some(p.time))
  {
    hide Reaches;
    var ps := front + [p];
    if last.Some? {
      var i :| 0 <= i < |front| && Reaches(front[i], t) && front[i].time == last.value;
      assert ps[i] == front[i];
    }
    if Reaches(p, t) { assert ps[|front|] == p; }
  }

  lemma CleanSnoc(front: seq<Packet>, p: Packet, t: Target, last: Option<real>)
    requires Latest(front, t, last)
    ensures Clean(front + [p], t) <==> Clean(front, t) && (Reaches(p, t) ==> Refusal(last, p, t).None?)
  {
    hide Agrees, Reaches;
    var ps := front + [p];
    assert forall i :: 0 <= i < |front| ==> ps[i] == front[i];
    if last.Some? {
      var i :| 0 <= i < |front| && Reaches(front[i], t) && front[i].time == last.value;
      assert ps[i] == front[i];
    }
    if Clean(ps, t) && Reaches(p, t) {
      assert ps[|front|] == p;
      assert Refusal(last, p, t).None?;
    }
  }

  /** The scan goes through exactly when nothing contradicts the target. */
  lemma {:induction false} ScannedIffClean(ps: seq<Packet>, t: Target)
    ensures Scanned(ps, t).Ok? <==> Clean(ps, t)
    ensures Scanned(ps, t).Ok? ==> Latest(ps, t, Scanned(ps, t).value.last)
  {
    hide Credited, Reaches, Refusal, Latest, Clean;
    if ps == [] {
      NothingContradicts(t);
    } else {
      var front, p := ps[..|ps| - 1], ps[|ps| - 1];
      assert ps == front + [p];
      ScannedIffClean(front, t);
      if Clean(front, t) {
        var s := Scanned(front, t).value;
        CleanSnoc(front, p, t, s.last);
        LatestSnoc(front, p, t, s.last);
        if Reaches(p, t) {
          CreditedMarks(s, p, t);
          RefusalOrder(s.last, p, t);
        }
      } else {
        assert !Clean(ps, t) by { DirtyStaysDirty(front, p, t); }
      }
    }
  }

  lemma NothingContradicts(t: Target)
    ensures Clean([], t) && Latest([], t, None)
  {}

  lemma RefusalOrder(last: Option<real>, p: Packet, t: Target)
    requires Reaches(p, t)
    ensures Refusal(last, p, t).None? && last.Some? ==> last.value <= p.time
  {}

  lemma DirtyStaysDirty(front: seq<Packet>, p: Packet, t: Target)
    requires !Clean(front, t)
    ensures !Clean(front + [p], t)
  {
    hide Agrees, Reaches;
    var ps := front + [p];
    assert forall i :: 0 <= i < |front| ==> ps[i] == front[i];
  }

  // ------------------------------------------------------------ contributing frames

  predicate Within(part: Part, at: int) { part.lo <= at < part.hi }

  /** A part is the whole overlap of one of the packets. */
  ghost predicate PartOf(ps: seq<Packet>, t: Target, part: Part) {
    exists p :: p in ps && Reaches(p, t) && part == Part(p.frame, Lo(p, t), Hi(p, t), p.time)
  }

  ghost predicate InParts(parts: seq<Part>, at: int) { exists k :: 0 <= k < |parts| && Within(parts[k], at) }

  /** Part k has a byte that no earlier part has. */
  ghost predicate Novel(parts: seq<Part>, k: nat)
    requires k < |parts|
  {
    exists at :: Within(parts[k], at) && !InParts(parts[..k], at)
  }

  ghost predicate Tiles(ps: seq<Packet>, t: Target, parts: seq<Part>) {
    && (forall k :: 0 <= k < |parts| ==> PartOf(ps, t, parts[k]) && Novel(parts, k))
    && (forall at :: t.start <= at < t.end() ==> (InParts(parts, at) <==> Shown(ps, at)))
  }

  lemma TilesGrow(front: seq<Packet>, p: Packet, t: Target, parts: seq<Part>, more: bool)
    requires Tiles(front, t, parts)
    requires more ==> Reaches(p, t) && exists at :: Lo(p, t) <= at < Hi(p, t) && !Shown(front, at)
    requires !more ==> forall at :: t.start <= at < t.end() && Covers(p, at) ==> Shown(front, at)
    ensures Tiles(front + [p], t, if more then parts + [Part(p.frame, Lo(p, t), Hi(p, t), p.time)] else parts)
  {
    var ps, part := front + [p], Part(p.frame, Lo(p, t), Hi(p, t), p.time);
    var now := if more then parts + [part] else parts;
    ShownSnoc(front, p);
    ReachesMeans(p, t);
    hide Shown, Covers, Reaches;
    forall k | 0 <= k < |now| ensures PartOf(ps, t, now[k]) && Novel(now, k) {
      assert now[..k] == parts[..k];
      if k < |parts| {
        assert PartOf(front, t, parts[k]) && Novel(parts, k);
        assert forall q :: q in front ==> q in ps;
      } else {
        assert p in ps;
        var at :| Lo(p, t) <= at < Hi(p, t) && !Shown(front, at);
        assert parts[..k] == parts;
        assert Within(now[k], at);
      }
    }
    forall at | t.start <= at < t.end() ensures InParts(now, at) <==> Shown(ps, at) {
      InPartsSnoc(parts, part, at);
    }
  }

  lemma InPartsSnoc(parts: seq<Part>, part: Part, at: int)
    ensures InParts(parts + [part], at) <==> InParts(parts, at) || Within(part, at)
  {
    var now := parts + [part];
    if InParts(parts, at) {
      var k :| 0 <= k < |parts| && Within(parts[k], at);
      assert now[k] == parts[k];
    }
    if Within(part, at) { assert now[|parts|] == part; }
  }

  /** The contributing frames together show exactly what was captured of the
      record, and each of them shows a byte none before it did. */
  lemma {:induction false} ContributionsTile(ps: seq<Packet>, t: Target)
    requires Scanned(ps, t).Ok?
    ensures Tiles(ps, t, Scanned(ps, t).value.parts)
  {
    hide Tiles;
    if ps == [] {
      NothingTiles(t);
    } else {
      var front, p := ps[..|ps| - 1], ps[|ps| - 1];
      assert ps == front + [p];
      ContributionsTile(front, t);
      SeenIsShown(front, t);
      var s := Scanned(front, t).value;
      NewBytes(front, s.seen, p, t);
      StepCredits(s, p, t);
      hide Scanned, Step, Shown, Covers;
      var more := Reaches(p, t) && false in s.seen[Lo(p, t) - t.start..Hi(p, t) - t.start];
      TilesGrow(front, p, t, s.parts, more);
    }
  }

  lemma StepCredits(s: Scan, p: Packet, t: Target)
    requires |s.seen| == |t.data| && Step(s, p, t).Ok?
    ensures Step(s, p, t).value.parts
         == if Reaches(p, t) && false in s.seen[Lo(p, t) - t.start..Hi(p, t) - t.start]
            then s.parts + [Part(p.frame, Lo(p, t), Hi(p, t), p.time)] else s.parts
  {
    hide Mark, Refusal;
    if Reaches(p, t) {
      CreditedParts(s, p, t);
      hide Credited;
    }
  }

  lemma CreditedParts(s: Scan, p: Packet, t: Target)
    requires |s.seen| == |t.data| && Reaches(p, t)
    ensures Credited(s, p, t).parts
         == if false in s.seen[Lo(p, t) - t.start..Hi(p, t) - t.start]
            then s.parts + [Part(p.frame, Lo(p, t), Hi(p, t), p.time)] else s.parts
  {
    hide Mark, Refusal;
  }

  lemma NothingTiles(t: Target)
    ensures Tiles([], t, [])
  {}

  lemma NewBytes(front: seq<Packet>, seen: seq<bool>, p: Packet, t: Target)
    requires |seen| == |t.data| && forall i :: 0 <= i < |seen| ==> (seen[i] <==> Shown(front, t.start + i))
    ensures Reaches(p, t) && false in seen[Lo(p, t) - t.start..Hi(p, t) - t.start]
        <==> exists at :: t.start <= at < t.end() && Covers(p, at) && !Shown(front, at)
    ensures Reaches(p, t) && false in seen[Lo(p, t) - t.start..Hi(p, t) - t.start]
         ==> exists at :: Lo(p, t) <= at < Hi(p, t) && !Shown(front, at)
  {
    ReachesMeans(p, t);
    hide Shown;
    if Reaches(p, t) {
      var lo := Lo(p, t) - t.start;
      var part := seen[lo..Hi(p, t) - t.start];
      if false in part {
        var i :| 0 <= i < |part| && !part[i];
        assert !Shown(front, t.start + (lo + i));
      }
      if at :| t.start <= at < t.end() && Covers(p, at) && !Shown(front, at) {
        var j := at - t.start;
        assert !seen[j] by { assert Shown(front, t.start + j) == Shown(front, at); }
        assert part[j - lo] == seen[j];
      }
    }
  }

  // ------------------------------------------------------------ what an answer says

  /** p has some of the target's bytes. */
  ghost predicate Overlaps(p: Packet, t: Target) {
    exists at :: t.start <= at < t.start + |t.data| && Covers(p, at)
  }

  /** Where p has bytes of the target, they are the target's. */
  ghost predicate SameBytes(p: Packet, t: Target) {
    forall at :: t.start <= at < t.start + |t.data| && Covers(p, at) ==> p.data[at - p.seqno] == t.data[at - t.start]
  }

  /** An overlapping packet before k has a later timestamp. */
  ghost predicate Early(ps: seq<Packet>, k: nat, t: Target)
    requires k < |ps|
  {
    exists i :: 0 <= i < k && Overlaps(ps[i], t) && ps[k].time < ps[i].time
  }

  /** What is wrong with an overlapping packet: its timestamp, or else its bytes,
      or else that it was cut short. */
  ghost predicate Faulty(ps: seq<Packet>, k: nat, t: Target, e: Error)
    requires k < |ps|
  {
    Overlaps(ps[k], t)
    && match e
       case NonMonotonicTimestamps => Early(ps, k, t)
       case ConflictingOverlap => !Early(ps, k, t) && !SameBytes(ps[k], t)
       case TruncatedFrame => !Early(ps, k, t) && SameBytes(ps[k], t) && ps[k].truncated
       case MissingBytes => false
  }

  ghost predicate Faultless(ps: seq<Packet>, n: nat, t: Target)
    requires n <= |ps|
  {
    forall k, e :: 0 <= k < n ==> !Faulty(ps, k, t, e)
  }

  /** Packet k shows a byte that none before it showed. */
  ghost predicate Adds(ps: seq<Packet>, k: nat, t: Target)
    requires k < |ps|
  {
    exists at :: t.start <= at < t.start + |t.data| && Covers(ps[k], at) && !Shown(ps[..k], at)
  }

  /** part is the stretch of the target that p shows. */
  ghost predicate Stretch(part: Part, p: Packet, t: Target) {
    && part.frame == p.frame && part.time == p.time && part.lo < part.hi
    && forall at :: part.lo <= at < part.hi <==> t.start <= at < t.start + |t.data| && Covers(p, at)
  }

  /** parts are the stretches of the packets that add something, in order. */
  ghost predicate Credits(ps: seq<Packet>, t: Target, parts: seq<Part>) {
    if ps == [] then parts == []
    else if Adds(ps, |ps| - 1, t) then
      && parts != [] && Stretch(parts[|parts| - 1], ps[|ps| - 1], t)
      && Credits(ps[..|ps| - 1], t, parts[..|parts| - 1])
    else Credits(ps[..|ps| - 1], t, parts)
  }

  /** r, in full: a proof names the record, the packets that add something to it
      and the one that completes it; otherwise the first fault, or that bytes are
      missing where there is none. */
  ghost predicate Certifies(ps: seq<Packet>, t: Target, r: Result<Proof, Error>) {
    match r
    case Ok(proof) =>
      && Faultless(ps, |ps|, t) && Credits(ps, t, proof.parts)
      && proof.start == t.start && proof.end == t.start + |t.data| && proof.size == |t.data|
      && exists k :: 0 <= k < |ps| && AllShown(ps[..k + 1], t) && !AllShown(ps[..k], t)
                     && proof.completionFrame == ps[k].frame && proof.completionTime == ps[k].time
    case Err(e) =>
      if e.MissingBytes? then Faultless(ps, |ps|, t) && (t.data == [] || !AllShown(ps, t))
      else exists k :: 0 <= k < |ps| && Faultless(ps, k, t) && Faulty(ps, k, t, e)
  }

  lemma AgreesMeans(p: Packet, t: Target)
    ensures Reaches(p, t) <==> Overlaps(p, t)
    ensures Reaches(p, t) ==> (Agrees(p, t) <==> SameBytes(p, t))
  {
    ReachesMeans(p, t);
    if Reaches(p, t) {
      if Agrees(p, t) { AgreeSame(p, t); }
      if SameBytes(p, t) { SameAgree(p, t); }
    }
    hide Covers, Agrees, Lo, Hi, SameBytes;
  }

  lemma AgreeSame(p: Packet, t: Target)
    requires Reaches(p, t) && Agrees(p, t)
    ensures SameBytes(p, t)
  {
    hide Agrees, Lo, Hi, Reaches;
    forall at | t.start <= at < t.start + |t.data| && Covers(p, at)
      ensures p.data[at - p.seqno] == t.data[at - t.start]
    {
      AgreesAt(p, t, at);
    }
  }

  lemma SameAgree(p: Packet, t: Target)
    requires Reaches(p, t) && SameBytes(p, t)
    ensures Agrees(p, t)
  {
    var lo, hi := Lo(p, t), Hi(p, t);
    var mine, theirs := p.data[lo - p.seqno..hi - p.seqno], t.data[lo - t.start..hi - t.start];
    forall i | 0 <= i < hi - lo ensures mine[i] == theirs[i] {
      assert Covers(p, lo + i);
      assert p.data[lo + i - p.seqno] == t.data[lo + i - t.start];
    }
    assert mine == theirs;
  }

  /** The scan's check of a packet finds what is wrong with it. */
  lemma RefusalMeans(front: seq<Packet>, p: Packet, t: Target, last: Option<real>, e: Error)
    requires Latest(front, t, last) && Reaches(p, t)
    ensures Refusal(last, p, t) == Some(e) <==> Faulty(front + [p], |front|, t, e)
  {
    var ps := front + [p];
    AgreesMeans(p, t);
    forall i | 0 <= i < |front| ensures ps[i] == front[i] && (Reaches(front[i], t) <==> Overlaps(front[i], t)) {
      AgreesMeans(front[i], t);
    }
    hide Agrees, Reaches, Overlaps, SameBytes;
    assert Early(ps, |front|, t) <==> last.Some? && p.time < last.value;
  }

  lemma FaultyInPrefix(front: seq<Packet>, p: Packet, t: Target)
    ensures forall k, e :: 0 <= k < |front| ==> (Faulty(front + [p], k, t, e) <==> Faulty(front, k, t, e))
  {
    hide Overlaps, SameBytes;
    var ps := front + [p];
    assert forall k :: 0 <= k < |front| ==> ps[k] == front[k];
    forall k, e | 0 <= k < |front| ensures Faulty(ps, k, t, e) <==> Faulty(front, k, t, e) {
      assert Early(ps, k, t) <==> Early(front, k, t);
    }
  }

  /** The scan stops at the first fault and for no other reason. */
  lemma {:induction false} ScanFindsFirstFault(ps: seq<Packet>, t: Target)
    ensures Scanned(ps, t).Ok? ==> Faultless(ps, |ps|, t)
    ensures Scanned(ps, t).Err? ==> !Scanned(ps, t).error.MissingBytes?
    ensures Scanned(ps, t).Err? ==>
              exists k :: 0 <= k < |ps| && Faultless(ps, k, t) && Faulty(ps, k, t, Scanned(ps, t).error)
  {
    hide Credited, Reaches, Refusal, Latest, Faulty;
    if ps != [] {
      var front, p := ps[..|ps| - 1], ps[|ps| - 1];
      assert ps == front + [p];
      ScanFindsFirstFault(front, t);
      FaultyInPrefix(front, p, t);
      if Scanned(front, t).Ok? {
        var last := Scanned(front, t).value.last;
        ScannedIffClean(front, t);
        forall e ensures Faulty(ps, |front|, t, e) <==> Reaches(p, t) && Refusal(last, p, t) == Some(e) {
          FaultOfLast(front, p, t, last, e);
        }
        NeverSaysMissing(ps, t);
      } else {
        var e := Scanned(front, t).error;
        var k :| 0 <= k < |front| && Faultless(front, k, t) && Faulty(front, k, t, e);
        assert Faultless(ps, k, t) && Faulty(ps, k, t, e);
      }
    }
  }

  lemma FaultOfLast(front: seq<Packet>, p: Packet, t: Target, last: Option<real>, e: Error)
    requires Latest(front, t, last)
    ensures Faulty(front + [p], |front|, t, e) <==> Reaches(p, t) && Refusal(last, p, t) == Some(e)
  {
    AgreesMeans(p, t);
    if Reaches(p, t) { RefusalMeans(front, p, t, last, e); }
    assert (front + [p])[|front|] == p;
  }

  lemma AddsMeans(front: seq<Packet>, seen: seq<bool>, p: Packet, t: Target)
    requires |seen| == |t.data| && forall i :: 0 <= i < |seen| ==> (seen[i] <==> Shown(front, t.start + i))
    ensures Adds(front + [p], |front|, t)
       <==> Reaches(p, t) && false in seen[Lo(p, t) - t.start..Hi(p, t) - t.start]
  {
    NewBytes(front, seen, p, t);
    assert (front + [p])[..|front|] == front && (front + [p])[|front|] == p;
    hide Shown, Covers, Reaches, Lo, Hi;
  }

  /** What the scan credits are the stretches that add something. */
  lemma {:induction false} ScanCredits(ps: seq<Packet>, t: Target)
    requires Scanned(ps, t).Ok?
    ensures Credits(ps, t, Scanned(ps, t).value.parts)
  {
    if ps != [] {
      var front, p := ps[..|ps| - 1], ps[|ps| - 1];
      assert ps == front + [p];
      var s := Scanned(front, t).value;
      assert Scanned(ps, t) == Step(s, p, t);
      ScanCredits(front, t);
      SeenIsShown(front, t);
      AddsMeans(front, s.seen, p, t);
      StepCredits(s, p, t);
      if Reaches(p, t) { LoHiStretch(p, t); }
      hide Scanned, Step, Shown, Stretch, Adds, Reaches, Lo, Hi;
      LastCredit(front, p, t, s.parts, Part(p.frame, Lo(p, t), Hi(p, t), p.time));
    }
  }

  lemma LastCredit(front: seq<Packet>, p: Packet, t: Target, parts: seq<Part>, part: Part)
    requires Credits(front, t, parts)
    ensures var ps := front + [p];
            && (!Adds(ps, |front|, t) ==> Credits(ps, t, parts))
            && (Adds(ps, |front|, t) && Stretch(part, p, t) ==> Credits(ps, t, parts + [part]))
  {
    hide Adds, Stretch;
    assert (front + [p])[..|front|] == front && (parts + [part])[..|parts|] == parts;
  }

  lemma LoHiStretch(p: Packet, t: Target)
    requires Reaches(p, t)
    ensures Stretch(Part(p.frame, Lo(p, t), Hi(p, t), p.time), p, t)
  {
    ReachesMeans(p, t);
  }

  lemma VerdictCertifies(ps: seq<Packet>, t: Target)
    ensures Certifies(ps, t, Verdict(ps, t))
  {
    ScanFindsFirstFault(ps, t);
    if Scanned(ps, t).Ok? {
      ScanCredits(ps, t);
      CompleteMeans(ps, t);
    }
    hide Scanned, Faultless, Faulty, Credits, AllShown;
  }

  // ------------------------------------------------------------ skipped packets

  /** Packets that miss the target make no difference. */
  lemma {:induction false} OnlyOverlapsCount(ps: seq<Packet>, t: Target)
    ensures Scanned(Filter(ps, p => Reaches(p, t)), t) == Scanned(ps, t)
  {
    if ps != [] {
      var front, p := ps[..|ps| - 1], ps[|ps| - 1];
      assert ps == front + [p];
      OnlyOverlapsCount(front, t);
      FilterSnoc(front, p, q => Reaches(q, t));
      var r := Filter(front, q => Reaches(q, t));
      assert (r + [p])[..|r|] == r;
    }
  }

  // ------------------------------------------------------------ the reference

  /** Every packet of the direction up to a frame, in frame order. */
  function InFrameOrder(stream: seq<Packet>, frame: int): seq<Packet> {
    Sort(Filter(stream, (p: Packet) => p.frame <= frame), ByFrame)
  }

  function FullScan(stream: seq<Packet>, frame: int, t: Target): Result<Proof, Error> {
    Verdict(InFrameOrder(stream, frame), t)
  }

  ghost predicate ShownBy(stream: seq<Packet>, frame: int, at: int) {
    exists p :: p in stream && p.frame <= frame && Covers(p, at)
  }

  ghost predicate AllShownBy(stream: seq<Packet>, frame: int, t: Target) {
    forall at :: t.start <= at < t.end() ==> ShownBy(stream, frame, at)
  }

  lemma FrameOrders()
    ensures Orders(ByFrame) && Orders(ByPlace)
  {}

  lemma InFrameOrderHas(stream: seq<Packet>, frame: int)
    ensures SortedBy(InFrameOrder(stream, frame), ByFrame)
    ensures forall p :: p in InFrameOrder(stream, frame) <==> p in stream && p.frame <= frame
  {
    FrameOrders();
    var upTo := Filter(stream, (p: Packet) => p.frame <= frame);
    FilterKeepsMembers(stream, (p: Packet) => p.frame <= frame);
    SortSorts(upTo, ByFrame);
    SortKeepsMembers(upTo, ByFrame);
  }

  /** A proof exists exactly when nothing contradicts the record and every one
      of its bytes was captured by the given frame; missing bytes are reported
      exactly when that alone is wrong. */
  lemma ProofIffCaptured(stream: seq<Packet>, frame: int, t: Target)
    ensures FullScan(stream, frame, t).Ok?
       <==> Clean(InFrameOrder(stream, frame), t) && t.data != [] && AllShownBy(stream, frame, t)
    ensures FullScan(stream, frame, t) == Err(MissingBytes)
       <==> Clean(InFrameOrder(stream, frame), t) && (t.data == [] || !AllShownBy(stream, frame, t))
  {
    var ps := InFrameOrder(stream, frame);
    ScannedIffClean(ps, t);
    NeverSaysMissing(ps, t);
    if Scanned(ps, t).Ok? { CompleteMeans(ps, t); }
    InFrameOrderHas(stream, frame);
    hide Scanned, Clean, Covers, InFrameOrder;
    assert forall at :: Shown(ps, at) <==> ShownBy(stream, frame, at);
  }

  lemma {:induction false} NeverSaysMissing(ps: seq<Packet>, t: Target)
    ensures Scanned(ps, t) != Err(MissingBytes)
  {
    if ps != [] { NeverSaysMissing(ps[..|ps| - 1], t); }
  }

  /** The completion frame is the least frame by which the whole record had
      been captured. */
  lemma CompletionIsLeast(stream: seq<Packet>, frame: int, t: Target)
    requires FullScan(stream, frame, t).Ok?
    ensures var proof := FullScan(stream, frame, t).value;
            && AllShownBy(stream, proof.completionFrame, t)
            && (forall f :: f < proof.completionFrame ==> !AllShownBy(stream, f, t))
            && (exists p :: p in stream && p.frame == proof.completionFrame <= frame && p.time == proof.completionTime)
  {
    var ps := InFrameOrder(stream, frame);
    CompleteMeans(ps, t);
    InFrameOrderHas(stream, frame);
    var done := Scanned(ps, t).value.complete.value;
    hide Scanned, InFrameOrder;
    CompletesMeans(stream, frame, ps, t, done);
  }

  lemma CompletesMeans(stream: seq<Packet>, frame: int, ps: seq<Packet>, t: Target, done: Packet)
    requires SortedBy(ps, ByFrame) && forall p :: p in ps <==> p in stream && p.frame <= frame
    requires Completes(ps, t, done)
    ensures done in stream && done.frame <= frame
    ensures AllShownBy(stream, done.frame, t)
    ensures forall f :: f < done.frame ==> !AllShownBy(stream, f, t)
  {
    hide Covers;
    var k :| 0 <= k < |ps| && ps[k] == done && AllShown(ps[..k + 1], t) && !AllShown(ps[..k], t);
    assert done in ps;
    forall at | t.start <= at < t.end() ensures ShownBy(stream, done.frame, at) {
      assert Shown(ps[..k + 1], at);
      var p :| p in ps[..k + 1] && Covers(p, at);
      PlacedUpTo(ps, k, p);
    }
    var missed :| t.start <= missed < t.end() && !Shown(ps[..k], missed);
    forall f | f < done.frame ensures !AllShownBy(stream, f, t) {
      if ShownBy(stream, f, missed) {
        var p :| p in stream && p.frame <= f && Covers(p, missed);
        assert p in ps;
        PlacedBefore(ps, k, p);
      }
    }
  }

  lemma PlacedUpTo(ps: seq<Packet>, k: nat, p: Packet)
    requires SortedBy(ps, ByFrame) && k < |ps| && p in ps[..k + 1]
    ensures p in ps && p.frame <= ps[k].frame
  {
    var i :| 0 <= i < k + 1 && ps[i] == p;
    assert i == k || ByFrame(ps[i], ps[k]);
  }

  lemma PlacedBefore(ps: seq<Packet>, k: nat, p: Packet)
    requires SortedBy(ps, ByFrame) && k < |ps| && p in ps && p.frame < ps[k].frame
    ensures p in ps[..k]
  {
    var i :| 0 <= i < |ps| && ps[i] == p;
    assert k < i ==> ByFrame(ps[k], ps[i]);
    assert ps[..k][i] == p;
  }

  /** Every byte of a proved record is a byte of a packet captured by the
      completion frame. */
  lemma ProvedBytesWereCaptured(stream: seq<Packet>, frame: int, t: Target, at: int)
    requires FullScan(stream, frame, t).Ok? && t.start <= at < t.end()
    ensures exists p :: p in stream && p.frame <= FullScan(stream, frame, t).value.completionFrame
                     && Covers(p, at) && p.data[at - p.seqno] == t.data[at - t.start]
  {
    var ps := InFrameOrder(stream, frame);
    CompletionIsLeast(stream, frame, t);
    var last := FullScan(stream, frame, t).value.completionFrame;
    ProofIffCaptured(stream, frame, t);
    InFrameOrderHas(stream, frame);
    hide FullScan, InFrameOrder;
    assert ShownBy(stream, last, at);
    var p :| p in stream && p.frame <= last && Covers(p, at);
    assert p in ps;
    var i :| 0 <= i < |ps| && ps[i] == p;
    ReachesMeans(p, t);
    AgreesAt(p, t, at);
  }

  lemma AgreesAt(p: Packet, t: Target, at: int)
    requires Reaches(p, t) && Agrees(p, t) && t.start <= at < t.end() && Covers(p, at)
    ensures p.data[at - p.seqno] == t.data[at - t.start]
  {
    var lo, hi := Lo(p, t), Hi(p, t);
    assert p.data[lo - p.seqno..hi - p.seqno][at - lo] == p.data[at - p.seqno];
    assert t.data[lo - t.start..hi - t.start][at - lo] == t.data[at - t.start];
  }

  // ------------------------------------------------------------ the index

  datatype Index = Index(bySequence: seq<Packet>, starts: seq<int>, prefixEnd: seq<int>)

  /** h is the highest end among the first n packets, or zero. */
  ghost predicate Highest(ps: seq<Packet>, n: nat, h: int)
    requires n <= |ps|
  {
    && h >= 0 && (forall i :: 0 <= i < n ==> End(ps[i]) <= h)
    && (h == 0 || exists i :: 0 <= i < n && h == End(ps[i]))
  }

  /** Sorted by sequence number and, where that is the same, by frame. */
  ghost predicate InPlace(ps: seq<Packet>) {
    forall i, j :: 0 <= i < j < |ps| ==>
      ps[i].seqno < ps[j].seqno || (ps[i].seqno == ps[j].seqno && ps[i].frame <= ps[j].frame)
  }

  ghost predicate IndexOf(x: Index, stream: seq<Packet>) {
    && x.bySequence == Sort(stream, ByPlace)
    && |x.starts| == |x.prefixEnd| == |x.bySequence|
    && (forall i :: 0 <= i < |x.starts| ==> x.starts[i] == x.bySequence[i].seqno)
    && (forall i :: 0 <= i < |x.prefixEnd| ==> Highest(x.bySequence, i + 1, x.prefixEnd[i]))
  }

  lemma HighestSnoc(ps: seq<Packet>, n: nat, h: int)
    requires n < |ps| && Highest(ps, n, h)
    ensures Highest(ps, n + 1, if End(ps[n]) > h then End(ps[n]) else h)
  {
    if h != 0 {
      var i :| 0 <= i < n && h == End(ps[i]);
      assert 0 <= i < n + 1;
    }
  }

  /** The index of one direction: its packets by sequence number, with the
      running maximum of their ends. */
  method BuildIndex(stream: seq<Packet>) returns (x: Index)
    ensures IndexOf(x, stream)
    ensures multiset(x.bySequence) == multiset(stream) && InPlace(x.bySequence)
  {
    InPlaceMeans(stream);
    hide InPlace;
    var bySequence := Sort(stream, ByPlace);
    var prefixEnd, starts: seq<int> := [], [];
    var highestEnd := 0;
    hide Highest;
    assert Highest(bySequence, 0, 0) by { NoneHighest(bySequence); }
    for i := 0 to |bySequence|
      invariant |prefixEnd| == |starts| == i
      invariant forall k :: 0 <= k < i ==> starts[k] == bySequence[k].seqno
      invariant Highest(bySequence, i, highestEnd)
      invariant forall k :: 0 <= k < i ==> Highest(bySequence, k + 1, prefixEnd[k])
    {
      HighestSnoc(bySequence, i, highestEnd);
      highestEnd := if End(bySequence[i]) > highestEnd then End(bySequence[i]) else highestEnd;
      prefixEnd := prefixEnd + [highestEnd];
      starts := starts + [bySequence[i].seqno];
    }
    x := Index(bySequence, starts, prefixEnd);
  }

  lemma InPlaceMeans(stream: seq<Packet>)
    ensures multiset(Sort(stream, ByPlace)) == multiset(stream) && InPlace(Sort(stream, ByPlace))
  {
    FrameOrders();
    SortSorts(stream, ByPlace);
    var ps := Sort(stream, ByPlace);
    forall i, j | 0 <= i < j < |ps|
      ensures ps[i].seqno < ps[j].seqno || (ps[i].seqno == ps[j].seqno && ps[i].frame <= ps[j].frame)
    {
      assert ByPlace(ps[i], ps[j]);
    }
  }

  lemma NoneHighest(ps: seq<Packet>)
    ensures Highest(ps, 0, 0)
  {}

  /** Both key lists of an index are fit for bisection. */
  lemma IndexAscends(x: Index, stream: seq<Packet>)
    requires IndexOf(x, stream)
    ensures Ascending(x.starts) && Ascending(x.prefixEnd)
    ensures forall i :: 0 <= i < |x.prefixEnd| ==> End(x.bySequence[i]) <= x.prefixEnd[i]
  {
    FrameOrders();
    SortSorts(stream, ByPlace);
    forall i, j | 0 <= i < j < |x.starts| ensures x.starts[i] <= x.starts[j] {
      assert ByPlace(x.bySequence[i], x.bySequence[j]);
    }
    forall i, j | 0 <= i < j < |x.prefixEnd| ensures x.prefixEnd[i] <= x.prefixEnd[j] {
      assert Highest(x.bySequence, i + 1, x.prefixEnd[i]) && Highest(x.bySequence, j + 1, x.prefixEnd[j]);
    }
    forall i | 0 <= i < |x.prefixEnd| ensures End(x.bySequence[i]) <= x.prefixEnd[i] {
      assert Highest(x.bySequence, i + 1, x.prefixEnd[i]);
    }
  }

  function Overlapping(ps: seq<Packet>, t: Target): seq<Packet> { Filter(ps, (q: Packet) => Reaches(q, t)) }

  /** Dropping a prefix that ends before the target and a suffix that starts
      behind it loses no overlapping packet. */
  lemma SliceKeepsOverlaps(all: seq<Packet>, first: nat, last: nat, t: Target)
    requires first <= |all| && last <= |all|
    requires forall i :: 0 <= i < first ==> End(all[i]) <= t.start
    requires forall i :: last <= i < |all| ==> t.end() <= all[i].seqno
    ensures Overlapping(if first <= last then all[first..last] else [], t) == Overlapping(all, t)
  {
    var keep := (q: Packet) => Reaches(q, t);
    SkippedMiss(all, first, last, t);
    hide Reaches, Filter;
    if first <= last {
      assert all == (all[..first] + all[first..last]) + all[last..];
      FilterConcat(all[..first] + all[first..last], all[last..], keep);
      FilterConcat(all[..first], all[first..last], keep);
      NothingKept(all[..first], keep);
      NothingKept(all[last..], keep);
    } else {
      NothingKept(all, keep);
    }
  }

  lemma SkippedMiss(all: seq<Packet>, first: nat, last: nat, t: Target)
    requires first <= |all| && last <= |all|
    requires forall i :: 0 <= i < first ==> End(all[i]) <= t.start
    requires forall i :: last <= i < |all| ==> t.end() <= all[i].seqno
    ensures forall i :: 0 <= i < first || last <= i < |all| ==> !Reaches(all[i], t)
  {}

  /** Only the overlapping packets matter to a full scan. */
  lemma OverlapsDecide(a: seq<Packet>, b: seq<Packet>, frame: int, t: Target)
    requires Overlapping(a, t) == Overlapping(b, t)
    ensures FullScan(a, frame, t) == FullScan(b, frame, t)
  {
    OverlapsInOrder(a, frame, t);
    OverlapsInOrder(b, frame, t);
    OnlyOverlapsCount(InFrameOrder(a, frame), t);
    OnlyOverlapsCount(InFrameOrder(b, frame), t);
    hide Scanned, Overlapping, InFrameOrder;
  }

  lemma OverlapsInOrder(ps: seq<Packet>, frame: int, t: Target)
    ensures Filter(InFrameOrder(ps, frame), q => Reaches(q, t)) == InFrameOrder(Overlapping(ps, t), frame)
  {
    var keep, upTo := (q: Packet) => Reaches(q, t), (q: Packet) => q.frame <= frame;
    FrameOrders();
    FilterSort(Filter(ps, upTo), ByFrame, keep);
    FiltersCommute(ps, upTo, keep);
    hide Orders;
  }

  /** The packets that matter have frame numbers of their own. */
  ghost predicate DistinctFrames(stream: seq<Packet>, frame: int, t: Target) {
    TellsApart(Filter(InFrameOrder(stream, frame), q => Reaches(q, t)), ByFrame)
  }

  lemma CountIn(ps: seq<Packet>, frame: int, t: Target, p: Packet)
    ensures multiset(Filter(InFrameOrder(ps, frame), q => Reaches(q, t)))[p]
         == if Reaches(p, t) && p.frame <= frame then multiset(ps)[p] else 0
  {
    FrameOrders();
    FilterKeepsCount(InFrameOrder(ps, frame), q => Reaches(q, t), p);
    SortSorts(Filter(ps, (q: Packet) => q.frame <= frame), ByFrame);
    FilterKeepsCount(ps, (q: Packet) => q.frame <= frame, p);
  }

  /** Then the order by sequence number and the order of capture put the
      overlapping packets into the same frame order, and the scans agree. */
  lemma CaptureOrderDoesNotMatter(stream: seq<Packet>, frame: int, t: Target)
    requires DistinctFrames(stream, frame, t)
    ensures FullScan(Sort(stream, ByPlace), frame, t) == FullScan(stream, frame, t)
  {
    var slice := Sort(stream, ByPlace);
    FrameOrders();
    SortSorts(stream, ByPlace);
    var a := Filter(InFrameOrder(slice, frame), q => Reaches(q, t));
    var b := Filter(InFrameOrder(stream, frame), q => Reaches(q, t));
    OnlyOverlapsCount(InFrameOrder(slice, frame), t);
    OnlyOverlapsCount(InFrameOrder(stream, frame), t);
    forall p ensures multiset(a)[p] == multiset(b)[p] {
      CountIn(slice, frame, t, p);
      CountIn(stream, frame, t, p);
    }
    assert multiset(a) == multiset(b);
    InFrameOrderHas(slice, frame);
    InFrameOrderHas(stream, frame);
    FilterKeepsOrder(InFrameOrder(slice, frame), q => Reaches(q, t), ByFrame);
    FilterKeepsOrder(InFrameOrder(stream, frame), q => Reaches(q, t), ByFrame);
    SortedIsUnique(b, a, ByFrame);
  }

  /** The packets of a direction up to a frame, by frame. */
  ghost predicate CapturedBy(stream: seq<Packet>, frame: int, ps: seq<Packet>) {
    && (forall i, j :: 0 <= i < j < |ps| ==> ps[i].frame <= ps[j].frame)
    && forall p :: p in ps <==> p in stream && p.frame <= frame
  }

  lemma IndexedCertifies(stream: seq<Packet>, frame: int, t: Target)
    ensures exists ps :: CapturedBy(stream, frame, ps) && Certifies(ps, t, FullScan(Sort(stream, ByPlace), frame, t))
  {
    var ps := InFrameOrder(Sort(stream, ByPlace), frame);
    InFrameOrderHas(Sort(stream, ByPlace), frame);
    SortKeepsMembers(stream, ByPlace);
    VerdictCertifies(ps, t);
    hide Certifies, Verdict, InFrameOrder;
    forall i, j | 0 <= i < j < |ps| ensures ps[i].frame <= ps[j].frame { assert ByFrame(ps[i], ps[j]); }
    assert CapturedBy(stream, frame, ps);
  }

  /** The index of every direction of one capture. */
  class BoundaryIndex {
    const streams: map<Direction, seq<Packet>>
    var sequenceIndex: map<Direction, Index>

    ghost predicate Valid()
      reads this
    {
      sequenceIndex.Keys == streams.Keys && forall d :: d in streams ==> IndexOf(sequenceIndex[d], streams[d])
    }

    function Stream(d: Direction): seq<Packet> { if d in streams then streams[d] else [] }

    constructor (streams: map<Direction, seq<Packet>>)
      ensures Valid() && this.streams == streams
    {
      this.streams := streams;
      sequenceIndex := map[];
      new;
      var left := streams.Keys;
      while left != {}
        invariant left <= streams.Keys && sequenceIndex.Keys == streams.Keys - left
        invariant forall d :: d in sequenceIndex ==> IndexOf(sequenceIndex[d], streams[d])
        decreases left
      {
        var d :| d in left;
        var x := BuildIndex(streams[d]);
        sequenceIndex := sequenceIndex[d := x];
        left := left - {d};
      }
    }

    /** The end of record: the proof for a target, from the bisected slice. The
        answer, for every target and frame, is that of scanning the whole
        direction in the order of the index; and that of scanning it in the order
        of capture whenever the packets overlapping the target have frame numbers
        of their own. */
    method Prove(d: Direction, frame: int, t: Target) returns (r: Result<Proof, Error>)
      requires Valid()
      ensures r == FullScan(Sort(Stream(d), ByPlace), frame, t)
      ensures DistinctFrames(Stream(d), frame, t) ==> r == FullScan(Stream(d), frame, t)
      ensures exists ps :: CapturedBy(Stream(d), frame, ps) && Certifies(ps, t, r)
    {
      IndexedCertifies(Stream(d), frame, t);
      hide CapturedBy, Certifies;
      hide DistinctFrames, FullScan, Overlapping;
      var x := if d in sequenceIndex then sequenceIndex[d] else Index([], [], []);
      assert IndexOf(x, Stream(d));
      IndexAscends(x, Stream(d));
      var first := BisectRight(x.prefixEnd, t.start);
      var last := BisectLeft(x.starts, t.end());
      var slice := if first <= last then x.bySequence[first..last] else [];
      SliceKeepsOverlaps(x.bySequence, first, last, t);
      OverlapsDecide(slice, x.bySequence, frame, t);
      r := Coverage(InFrameOrder(slice, frame), t);
      assert r == FullScan(slice, frame, t) by { IsFullScan(slice, frame, t); }
      if DistinctFrames(Stream(d), frame, t) { CaptureOrderDoesNotMatter(Stream(d), frame, t); }
    }
  }

  lemma IsFullScan(ps: seq<Packet>, frame: int, t: Target)
    ensures FullScan(ps, frame, t) == Verdict(InFrameOrder(ps, frame), t)
  {}

  /** Without that the two orders need not agree: with two packets under one
      number, which no capture file has, what Prove returns can differ from the
      scan in the order of capture. */
  lemma SharedFrameNumbersDisagree()
    ensures exists stream, t :: FullScan(stream, 0, t) != FullScan(Sort(stream, ByPlace), 0, t)
  {
    var p, q := Packet(0, 1, 0.0, [7], true), Packet(0, 0, 0.0, [8], false);
    var t := Target(0, [7, 7]);
    FirstDecides(p, q, t, TruncatedFrame);
    FirstDecides(q, p, t, ConflictingOverlap) by {
      assert q.data[0..1] == [8] && t.data[0..1] == [7];
    }
    PairSorts(p, q);
    PairSorts(q, p);
    PairByPlace(p, q);
    hide Scanned, InFrameOrder, Sort;
    assert FullScan([p, q], 0, t) != FullScan([q, p], 0, t);
  }

  lemma PairByPlace(p: Packet, q: Packet)
    requires q.seqno < p.seqno
    ensures Sort([p, q], ByPlace) == [q, p]
  {
    assert [p, q][..1] == [p] && [p][..0] == [] && [p][..0] + [q] == [q];
    assert Sort([p], ByPlace) == [p];
    assert Insert([p], q, ByPlace) == [q] + [p];
  }

  lemma FirstDecides(p: Packet, q: Packet, t: Target, e: Error)
    requires Reaches(p, t) && Refusal(None, p, t) == Some(e)
    ensures Scanned([p, q], t) == Err(e)
  {
    assert [p, q][..1] == [p];
    assert [p][..0] == [];
    assert Scanned([p], t) == Err(e);
  }

  lemma PairSorts(p: Packet, q: Packet)
    requires p.frame == q.frame == 0
    ensures InFrameOrder([p, q], 0) == [p, q]
  {
    var upTo := (r: Packet) => r.frame <= 0;
    assert [p, q][..1] == [p] && [p][..0] == [];
    assert Filter([p], upTo) == [p] && Filter([p, q], upTo) == [p, q];
    assert Sort([p], ByFrame) == [p];
  }
}
