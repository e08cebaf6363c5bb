/** The asynchronous logger of src/logger.cpp: producers append under a mutex,
    one writer swaps the buffer out, writes it and confirms it. Each action
    below is one critical section or one file write, so a sequence of actions is
    an interleaving of the producers, stop() and the writer. */
module AsyncLog {

  datatype Record = Record(sequence: nat, body: string)

  /** Where the writer is in run(). */
  datatype Writer =
    | Waiting      // about to wait and swap
    | Holding      // batch taken, not yet on file
    | Written      // batch on file, not yet confirmed in the counters
    | Confirmed    // the diagnostic row is next
    | Closing      // loop left, the final row is next
    | Failing      // an exception is on its way to the catch block
    | Exited

  /** The logger's fields, the writer, the data rows of the file, and, for
      specification, every record ever accepted. */
  datatype Log = Log(capacity: nat, pending: seq<Record>, batch: seq<Record>, inFlight: nat,
                     submitted: nat, accepted: nat, dropped: nat, written: nat, writeLost: nat, batches: nat,
                     highWater: nat, failed: bool, stopping: bool,
                     writer: Writer, rows: seq<Record>, history: seq<Record>)

  datatype Action =
    | Submit(body: string) | BeginStop | Swap | WriteBatch | WriteBreaks(whole: nat) | SerializeBreaks
    | Confirm | Diagnose | DiagnoseBreaks | Close | CloseBreaks | Recover

  predicate Refuses(s: Log) {
    s.stopping || s.failed || |s.pending| >= s.capacity
  }

  function Dropped(s: Log): Log { s.(submitted := s.submitted + 1, dropped := s.dropped + 1) }

  function Accepted(s: Log, body: string): Log {
    var record := Record(s.accepted + 1, body);
    var depth := |s.pending| + 1;
    s.(submitted := s.submitted + 1, accepted := s.accepted + 1, pending := s.pending + [record],
       highWater := if depth > s.highWater then depth else s.highWater, history := s.history + [record])
  }

  function Settled(s: Log): Log {
    s.(written := s.written + |s.batch|, inFlight := 0, batches := s.batches + 1, writer := Confirmed)
  }

  function Lost(s: Log): Log {
    s.(failed := true, writeLost := s.writeLost + s.inFlight + |s.pending|, inFlight := 0, pending := [],
       writer := Exited)
  }

  function Step(s: Log, a: Action): Log {
    match a
    case Submit(body) => if Refuses(s) then Dropped(s) else Accepted(s, body)
    case BeginStop => s.(stopping := true)
    case Swap =>
      if !s.writer.Waiting? then s
      else s.(pending := s.batch, batch := s.pending, inFlight := |s.pending|,
              writer := if s.pending == [] && s.stopping then Closing else Holding)
    case WriteBatch =>
      if !s.writer.Holding? then s
      else if s.batch == [] then s.(writer := Confirmed)
      else s.(rows := s.rows + s.batch, writer := Written)
    case WriteBreaks(whole) =>
      if !s.writer.Holding? || s.batch == [] || whole > |s.batch| then s
      else s.(rows := s.rows + s.batch[..whole], writer := Failing)
    case SerializeBreaks => if s.writer.Holding? then s.(writer := Failing) else s
    case Confirm =>
      if !s.writer.Written? then s
      else Settled(s)
    case Diagnose => if s.writer.Confirmed? then s.(batch := [], writer := Waiting) else s
    case DiagnoseBreaks => if s.writer.Confirmed? then s.(writer := Failing) else s
    case Close => if s.writer.Closing? then s.(writer := Exited) else s
    case CloseBreaks => if s.writer.Closing? then s.(writer := Failing) else s
    case Recover =>
      if !s.writer.Failing? then s
      else Lost(s)
  }

  // ------------------------------------------------------------ the invariant

  ghost predicate Counters(s: Log) {
    && s.submitted == s.accepted + s.dropped && s.accepted == |s.history|
    && s.accepted == s.written + s.inFlight + |s.pending| + s.writeLost
    && (!s.failed ==> s.writeLost == 0)
    && |s.pending| <= s.highWater <= s.capacity
    && (forall k :: 0 <= k < |s.history| ==> s.history[k].sequence == k + 1)
  }

  /** Until a failure, the accepted records are: those confirmed, then those in
      flight, then those pending; the file holds a prefix of them, at least the
      confirmed ones. */
  ghost predicate Layout(s: Log) {
    && s.written <= |s.rows| <= |s.history| && s.rows == s.history[..|s.rows|]
    && (!s.failed ==> s.written + s.inFlight <= |s.history| && s.pending == s.history[s.written + s.inFlight..])
    && (match s.writer
        case Waiting => s.batch == [] && s.inFlight == 0 && |s.rows| == s.written
        case Holding => s.written + s.inFlight <= |s.history|
            && s.batch == s.history[s.written..s.written + s.inFlight] && |s.rows| == s.written
        case Written => s.written + s.inFlight <= |s.history| && s.batch == s.history[s.written..s.written + s.inFlight]
                        && |s.rows| == s.written + s.inFlight && s.batch != []
        case Confirmed => s.inFlight == 0 && |s.rows| == s.written
        case Closing => s.inFlight == 0 && s.pending == [] && s.stopping && |s.rows| == s.written
        case Failing => |s.rows| <= s.written + s.inFlight
        case Exited => s.inFlight == 0 && s.pending == [] && (s.failed || (s.stopping && |s.rows| == s.written)))
    && (s.failed ==> s.writer.Exited?)
  }

  ghost predicate Inv(s: Log) {
    Counters(s) && Layout(s)
  }

  function InitialLog(capacity: nat): Log {
    Log(capacity, [], [], 0, 0, 0, 0, 0, 0, 0, 0, false, false, Waiting, [], [])
  }

  lemma SubmitKeepsInv(s: Log, body: string)
    requires Inv(s)
    ensures Inv(Step(s, Submit(body)))
  {
    if !Refuses(s) {
      var h := Step(s, Submit(body)).history;
      assert forall i, j :: 0 <= i <= j <= |s.history| ==> h[i..j] == s.history[i..j];
    }
  }

  lemma WriterKeepsCounters(s: Log, a: Action)
    requires Inv(s) && !a.Submit?
    ensures Counters(Step(s, a))
  {}

  lemma WriteKeepsLayout(s: Log)
    requires Inv(s)
    ensures Layout(Step(s, WriteBatch))
  {
    var h := s.history;
    if s.writer.Holding? {
      assert h[..s.written] + h[s.written..s.written + s.inFlight] == h[..s.written + s.inFlight];
    }
  }

  lemma BrokenWriteKeepsLayout(s: Log, whole: nat)
    requires Inv(s)
    ensures Layout(Step(s, WriteBreaks(whole)))
  {
    var h := s.history;
    if s.writer.Holding? && whole <= |s.batch| {
      assert h[..s.written] + h[s.written..s.written + s.inFlight][..whole] == h[..s.written + whole];
    }
  }

  lemma SwapKeepsLayout(s: Log)
    requires Inv(s)
    ensures Layout(Step(s, Swap))
  {}

  lemma WriterKeepsLayout(s: Log, a: Action)
    requires Inv(s) && !a.Submit?
    ensures Layout(Step(s, a))
  {
    match a
    case WriteBatch => WriteKeepsLayout(s);
    case WriteBreaks(whole) => BrokenWriteKeepsLayout(s, whole);
    case Swap => SwapKeepsLayout(s);
    case _ => OtherStepsKeepLayout(s, a);
  }

  lemma OtherStepsKeepLayout(s: Log, a: Action)
    requires Inv(s) && !a.Submit? && !a.WriteBatch? && !a.WriteBreaks? && !a.Swap?
    ensures Layout(Step(s, a))
  {}

  lemma StepKeepsInv(s: Log, a: Action)
    requires Inv(s)
    ensures Inv(Step(s, a))
  {
    if a.Submit? {
      SubmitKeepsInv(s, a.body);
    } else {
      WriterKeepsCounters(s, a);
      WriterKeepsLayout(s, a);
    }
  }

  // ------------------------------------------------------------ all interleavings

  function Run(s: Log, actions: seq<Action>): Log
    decreases |actions|
  {
    if actions == [] then s else Run(Step(s, actions[0]), actions[1..])
  }

  lemma {:induction false} RunKeepsInv(s: Log, actions: seq<Action>)
    requires Inv(s)
    ensures Inv(Run(s, actions))
    decreases |actions|
  {
    hide Inv, Step;
    if actions != [] {
      StepKeepsInv(s, actions[0]);
      RunKeepsInv(Step(s, actions[0]), actions[1..]);
    }
  }

  /** Exact accounting whenever the mutex is free. */
  lemma ExactAccounting(capacity: nat, actions: seq<Action>)
    ensures var s := Run(InitialLog(capacity), actions);
            && s.submitted == s.accepted + s.dropped
            && s.accepted == s.written + s.inFlight + |s.pending| + s.writeLost
            && (s.writeLost > 0 ==> s.failed)
            && |s.pending| <= s.highWater <= capacity
  {
    var s := Run(InitialLog(capacity), actions);
    RunKeepsInv(InitialLog(capacity), actions);
    CapacityFixed(InitialLog(capacity), actions);
  }

  lemma {:induction false} CapacityFixed(s: Log, actions: seq<Action>)
    ensures Run(s, actions).capacity == s.capacity
    decreases |actions|
  {
    if actions != [] {
      CapacityFixed(Step(s, actions[0]), actions[1..]);
    }
  }

  /** Order refinement: the file is at every moment a prefix of the accepted
      records in acceptance order, numbered from one, and covers every record
      confirmed as written. */
  lemma FileIsPrefixOfAccepted(capacity: nat, actions: seq<Action>)
    ensures var s := Run(InitialLog(capacity), actions);
            && s.rows <= s.history && s.written <= |s.rows|
            && (forall k :: 0 <= k < |s.rows| ==> s.rows[k].sequence == k + 1)
  {
    var s := Run(InitialLog(capacity), actions);
    RunKeepsInv(InitialLog(capacity), actions);
  }

  /** Clean shutdown: once the writer has returned without failing, stop() had
      been requested and the file is the whole accepted sequence. */
  lemma StopDrainsEverything(capacity: nat, actions: seq<Action>)
    ensures var s := Run(InitialLog(capacity), actions);
            s.writer.Exited? && !s.failed ==>
              s.stopping && s.rows == s.history && s.written == s.accepted && s.writeLost == 0
  {
    var s := Run(InitialLog(capacity), actions);
    RunKeepsInv(InitialLog(capacity), actions);
    if s.writer.Exited? && !s.failed { DrainedAtExit(s); }
  }

  /** After stop() or a failure no record is accepted any more. */
  lemma {:induction false} ClosedForGood(s: Log, actions: seq<Action>)
    requires s.stopping || s.failed
    ensures var s' := Run(s, actions); s'.history == s.history && s'.accepted == s.accepted
    decreases |actions|
  {
    if actions != [] {
      ClosedForGood(Step(s, actions[0]), actions[1..]);
    }
  }

  // ------------------------------------------------------------ the logger object

  /** Fields of AsyncLogger and the locals of its writer. Each method is the
      body of one critical section, or one file operation of the writer. */
  class AsyncLogger {
    const capacity: nat
    const batchThreshold: nat
    var pending: seq<Record>
    var batch: seq<Record>
    var inFlight: nat
    var submitted: nat
    var accepted: nat
    var dropped: nat
    var written: nat
    var writeLost: nat
    var batches: nat
    var highWater: nat
    var failed: bool
    var stopping: bool
    var writer: Writer
    var rows: seq<Record>
    ghost var history: seq<Record>

    ghost function View(): Log
      reads this
    {
      Log(capacity, pending, batch, inFlight, submitted, accepted, dropped, written, writeLost, batches, highWater,
          failed, stopping, writer, rows, history)
    }

    /** The counters add up, the file is a prefix of what was accepted, and the
        writer stands where its fields say. */
    ghost predicate Valid()
      reads this
    {
      Inv(View())
    }

    /** On other options the constructor throws before anything else happens. */
    constructor (c: nat, threshold: nat)
      requires 0 < threshold <= c
      ensures Valid() && View() == InitialLog(c) && batchThreshold == threshold
    {
      capacity, batchThreshold := c, threshold;
      pending, batch, rows, history := [], [], [], [];
      inFlight, submitted, accepted, dropped, written, writeLost, batches, highWater := 0, 0, 0, 0, 0, 0, 0, 0;
      failed, stopping, writer := false, false, Waiting;
    }

    /** log(): taken tells the caller whether the record was accepted, wake
        whether the writer should be notified. */
    method LogRecord(body: string) returns (taken: bool, wake: bool)
      requires Valid()
      modifies this`submitted, this`dropped, this`accepted, this`pending, this`highWater, this`history
      ensures Valid() && View() == Step(old(View()), Submit(body))
      ensures taken <==> !stopping && !failed && |old(pending)| < capacity
      ensures wake <==> taken && |pending| >= batchThreshold
      ensures submitted == old(submitted) + 1
      ensures taken ==>
                && pending == old(pending) + [Record(old(accepted) + 1, body)]
                && history == old(history) + [Record(old(accepted) + 1, body)]
                && accepted == old(accepted) + 1 && dropped == old(dropped)
                && highWater == if |pending| > old(highWater) then |pending| else old(highWater)
      ensures !taken ==>
                && pending == old(pending) && history == old(history) && accepted == old(accepted)
                && dropped == old(dropped) + 1 && highWater == old(highWater)
    {
      SubmitMeans(View(), body);
      StepKeepsInv(View(), Submit(body));
      hide Inv, Step, Refuses;
      taken := Append(body);
      wake := taken && |pending| >= batchThreshold;
    }

    /** The critical section of log(). */
    method Append(body: string) returns (taken: bool)
      modifies this`submitted, this`dropped, this`accepted, this`pending, this`highWater, this`history
      ensures View() == Step(old(View()), Submit(body))
      ensures taken <==> !Refuses(old(View()))
    {
      taken := !(stopping || failed || |pending| >= capacity);
      assert taken <==> !Refuses(View());
      if !taken {
        Drop();
        return;
      }
      Accept(body);
    }

    method Drop()
      modifies this`submitted, this`dropped
      ensures View() == Dropped(old(View()))
    {
      submitted, dropped := submitted + 1, dropped + 1;
    }

    method Accept(body: string)
      modifies this`submitted, this`accepted, this`pending, this`highWater, this`history
      ensures View() == Accepted(old(View()), body)
    {
      submitted := submitted + 1;
      var record := Record(accepted + 1, body);
      pending, history := pending + [record], history + [record];
      accepted := accepted + 1;
      if |pending| > highWater { highWater := |pending|; }
    }

    method RequestStop()
      requires Valid()
      modifies this`stopping
      ensures Valid() && View() == Step(old(View()), BeginStop) && stopping
    {
      StepKeepsInv(View(), BeginStop);
      hide Inv, Counters, Layout;
      stopping := true;
    }

    /** The writer's turn under the lock: a constant-time handoff. */
    method TakeBatch() returns (leave: bool)
      requires Valid() && writer == Waiting
      modifies this`pending, this`batch, this`inFlight, this`writer
      ensures Valid() && View() == Step(old(View()), Swap)
      ensures leave <==> old(pending) == [] && stopping
      ensures batch == old(pending) && inFlight == |batch|
      ensures pending == [] && !failed && writer == if leave then Closing else Holding
    {
      SwapEmpties(View());
      StepKeepsInv(View(), Swap);
      hide Inv, Counters, Layout;
      pending, batch := batch, pending;
      inFlight := |batch|;
      leave := batch == [] && stopping;
      writer := if leave then Closing else Holding;
    }

    /** Writing the batch; a failure may leave any number of whole rows behind. */
    method WriteOut(breaks: bool, whole: nat)
      requires Valid() && writer == Holding && whole <= |batch|
      modifies this`rows, this`writer
      ensures Valid() && View() == Step(old(View()), if breaks && batch != [] then WriteBreaks(whole) else WriteBatch)
      ensures writer == if batch == [] then Confirmed else if breaks then Failing else Written
      ensures rows == old(rows) + if breaks then batch[..whole] else batch
    {
      StepKeepsInv(View(), if breaks && batch != [] then WriteBreaks(whole) else WriteBatch);
      hide Inv, Counters, Layout;
      if batch == [] {
        writer := Confirmed;
      } else if breaks {
        rows := rows + batch[..whole];
        writer := Failing;
      } else {
        rows := rows + batch;
        writer := Written;
      }
    }

    /** Building the rows throws. */
    method FailToSerialize()
      requires Valid() && writer == Holding
      modifies this`writer
      ensures Valid() && View() == Step(old(View()), SerializeBreaks) && writer == Failing
    {
      StepKeepsInv(View(), SerializeBreaks);
      hide Inv, Counters, Layout;
      writer := Failing;
    }

    method ConfirmBatch()
      requires Valid() && writer == Written
      modifies this`written, this`inFlight, this`batches, this`writer
      ensures Valid() && View() == Step(old(View()), Confirm) && writer == Confirmed
      ensures written == old(written) + |batch| && inFlight == 0 && batches == old(batches) + 1
    {
      StepKeepsInv(View(), Confirm);
      assert Step(View(), Confirm) == Settled(View());
      hide Inv, Counters, Layout, Step;
      written := written + |batch|;
      inFlight := 0;
      batches := batches + 1;
      writer := Confirmed;
    }

    method WriteDiagnostic(breaks: bool)
      requires Valid() && writer == Confirmed
      modifies this`batch, this`writer
      ensures Valid() && View() == Step(old(View()), if breaks then DiagnoseBreaks else Diagnose)
      ensures writer == if breaks then Failing else Waiting
      ensures batch == if breaks then old(batch) else []
    {
      StepKeepsInv(View(), if breaks then DiagnoseBreaks else Diagnose);
      assert Step(View(), if breaks then DiagnoseBreaks else Diagnose)
          == if breaks then View().(writer := Failing) else View().(batch := [], writer := Waiting);
      hide Inv, Counters, Layout, Step;
      if breaks {
        writer := Failing;
      } else {
        batch := [];
        writer := Waiting;
      }
    }

    /** The final row. */
    method WriteFinal(breaks: bool)
      requires Valid() && writer == Closing
      modifies this`writer
      ensures Valid() && View() == Step(old(View()), if breaks then CloseBreaks else Close)
      ensures writer == if breaks then Failing else Exited
    {
      StepKeepsInv(View(), if breaks then CloseBreaks else Close);
      hide Inv, Counters, Layout;
      writer := if breaks then Failing else Exited;
    }

    /** The catch block: everything not confirmed counts as lost. */
    method RecordFailure()
      requires Valid() && writer == Failing
      modifies this`failed, this`writeLost, this`inFlight, this`pending, this`writer
      ensures Valid() && View() == Step(old(View()), Recover)
      ensures failed && writer == Exited && accepted == written + writeLost
      ensures writeLost == old(writeLost) + old(inFlight) + |old(pending)| && pending == [] && inFlight == 0
    {
      RecoverLoses(View());
      hide Inv, Counters, Layout, Step;
      failed, writer := true, Exited;
      writeLost := writeLost + inFlight + |pending|;
      inFlight, pending := 0, [];
    }

    /** One turn of run(), with what breaks in it: the swap, the rows of the batch,
        the diagnostic row; or, after the last turn, the final row. Whatever
        happens, the writer is ready for its next turn or has left for good. */
    method Turn(fault: Fault)
      requires Valid() && writer == Waiting
      modifies this`pending, this`batch, this`inFlight, this`writer, this`rows, this`written, this`batches,
               this`failed, this`writeLost
      ensures Valid() && (writer == Waiting || writer == Exited)
      ensures failed ==> fault != NoFault && writer == Exited
      ensures !failed && writer == Waiting ==> pending == [] && written == accepted
      ensures !failed ==> (writer == Exited <==> old(pending) == [] && stopping)
      ensures failed <==> match fault
                          case NoFault => false
                          case Serializing => true
                          case Writing(_) => old(pending) != [] || stopping
                          case Diagnosing => true
      ensures !failed || fault == Diagnosing ==>
                && rows == old(rows) + old(pending) && written == old(written) + |old(pending)|
                && batches == old(batches) + (if old(pending) == [] then 0 else 1) && writeLost == old(writeLost)
      ensures failed && fault != Diagnosing ==>
                && old(rows) <= rows <= old(rows) + old(pending) && written == old(written) && batches == old(batches)
                && writeLost == old(writeLost) + |old(pending)|
      ensures pending == [] && (failed ==> inFlight == 0)
    {
      hide Valid, Step;
      var leave := TakeBatch();
      if leave {
        WriteFinal(fault != NoFault);
      } else {
        WriteTurn(fault);
      }
      if writer == Failing { RecordFailure(); }
    }

    lemma HeldIsInFlight()
      requires Valid() && writer == Holding
      ensures inFlight == |batch|
    {}

    lemma WaitingMeansWritten()
      requires Valid() && writer == Waiting && pending == []
      ensures written == accepted
    {}

    /** The turn's writes. */
    method WriteTurn(fault: Fault)
      requires Valid() && writer == Holding && pending == []
      modifies this`batch, this`inFlight, this`writer, this`rows, this`written, this`batches
      ensures Valid()
      ensures writer == Failing || (writer == Waiting && written == accepted)
      ensures writer == Failing <==> fault == Serializing || fault == Diagnosing || (fault.Writing? && old(batch) != [])
      ensures writer == Waiting || fault == Diagnosing ==>
                && rows == old(rows) + old(batch) && written == old(written) + |old(batch)|
                && batches == old(batches) + (if old(batch) == [] then 0 else 1)
      ensures writer == Failing ==> inFlight == if fault == Diagnosing then 0 else |old(batch)|
      ensures writer == Failing && fault != Diagnosing ==>
                && old(rows) <= rows <= old(rows) + old(batch) && written == old(written) && batches == old(batches)
    {
      HeldIsInFlight();
      hide Valid, Step;
      if fault == Serializing {
        FailToSerialize();
        return;
      }
      WriteOut(fault.Writing?, if fault.Writing? && fault.whole <= |batch| then fault.whole else 0);
      if writer == Failing { return; }
      if writer == Written { ConfirmBatch(); }
      WriteDiagnostic(fault == Diagnosing);
      if writer == Waiting { WaitingMeansWritten(); }
    }

    /** stop() once the producers are done: the flag, then the writer's turns until
        it leaves. Without a fault the file is everything ever accepted. */
    method Shutdown()
      requires Valid() && writer == Waiting && !failed
      modifies this
      ensures Valid() && writer == Exited && !failed
      ensures rows == history && written == accepted && writeLost == 0
      ensures history == old(history)
    {
      RequestStop();
      Turn(NoFault);
      if writer == Waiting { Turn(NoFault); }
      DrainedAtExit(View());
    }
  }

  /** Where a turn of the writer breaks. */
  datatype Fault = NoFault | Serializing | Writing(whole: nat) | Diagnosing

  lemma SubmitMeans(s: Log, body: string)
    ensures Refuses(s) <==> s.stopping || s.failed || |s.pending| >= s.capacity
    ensures var t, record := Step(s, Submit(body)), Record(s.accepted + 1, body);
            if Refuses(s) then t == s.(submitted := s.submitted + 1, dropped := s.dropped + 1)
            else
              && t.pending == s.pending + [record] && t.history == s.history + [record]
              && t.submitted == s.submitted + 1 && t.accepted == s.accepted + 1 && t.dropped == s.dropped
              && t.highWater == if |t.pending| > s.highWater then |t.pending| else s.highWater
  {}

  lemma SwapEmpties(s: Log)
    requires Inv(s) && s.writer.Waiting?
    ensures s.batch == [] && !s.failed
  {}

  lemma RecoverLoses(s: Log)
    requires Inv(s) && s.writer.Failing?
    ensures Step(s, Recover) == Lost(s) && Inv(Lost(s)) && s.accepted == Lost(s).written + Lost(s).writeLost
  {
    StepKeepsInv(s, Recover);
  }

  lemma DrainedAtExit(s: Log)
    requires Inv(s) && s.writer.Exited? && !s.failed
    ensures s.rows == s.history && s.written == s.accepted && s.writeLost == 0
  {
    assert s.rows == s.history[..|s.history|];
  }
}
