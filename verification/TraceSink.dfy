/**
 A trace file's queue: any number of producers, bounded by bytes, one thread
 that writes records to the file, and a close that waits for it.
 */
module TraceSinks {
  import opened Wrappers
  import opened TraceCodec

  /**
   `waiting` holds batches whose producers wait for room; `accepted` everything
   ever queued, `written` how many of those are in the file, `last` the batch
   queued last and `intoEmpty` whether the queue was empty then.  `flushAfter`
   is what the thread decided when it took the record it is writing.
   */
  datatype Sink = Sink(
    queue: seq<Record>, queuedBytes: int, closing: bool, flush: bool, waiting: seq<seq<Record>>,
    writing: Option<Record>, flushAfter: bool, file: Bytes8, ended: bool,
    accepted: seq<Record>, written: nat, last: seq<Record>, intoEmpty: bool)

  datatype Limits = Limits(capacity: nat, flushThreshold: nat)

  const NewSink := Sink([], 0, false, false, [], None, false, [], false, [], 0, [], true)

  function Size(records: seq<Record>): nat {
    |Stream(records)|
  }

  /** The condition `record` waits for, apart from closing. */
  predicate CanAdmit(limits: Limits, s: Sink, batch: seq<Record>) {
    if Size(batch) > limits.capacity then s.queue == [] && s.queuedBytes == 0
    else s.queuedBytes + Size(batch) <= limits.capacity
  }

  datatype Step = Propose(batch: seq<Record>) | Admit(producer: nat) | Refuse(refused: nat) | Pop | Write | Idle | Flush | Close | Stop

  function Without(waiting: seq<seq<Record>>, i: nat): (left: seq<seq<Record>>)
    requires i < |waiting|
    ensures |left| == |waiting| - 1
  {
    waiting[..i] + waiting[i + 1..]
  }

  /** One step of a producer, the thread or the closer; a step that is not possible changes nothing. */
  function After(limits: Limits, s: Sink, step: Step): Sink {
    match step
    case Propose(batch) => s.(waiting := s.waiting + [batch])
    case Admit(i) =>
      if i >= |s.waiting| || s.closing || !CanAdmit(limits, s, s.waiting[i]) then s
      else
        var batch := s.waiting[i];
        s.(queue := s.queue + batch, queuedBytes := s.queuedBytes + Size(batch), waiting := Without(s.waiting, i),
           flush := s.flush || s.queuedBytes + Size(batch) >= limits.flushThreshold,
           accepted := s.accepted + batch, last := batch, intoEmpty := s.queue == [])
    case Refuse(i) => if i >= |s.waiting| || !s.closing then s else s.(waiting := Without(s.waiting, i))
    case Pop =>
      if s.ended || s.writing.Some? || s.queue == [] then s
      else s.(queue := s.queue[1..], queuedBytes := s.queuedBytes - |EncodeRecord(s.queue[0])|, writing := Some(s.queue[0]),
              flushAfter := s.flush && |s.queue| == 1)
    case Write =>
      if s.writing.None? then s
      else s.(writing := None, file := s.file + EncodeRecord(s.writing.value), written := s.written + 1,
              flush := s.flush && !s.flushAfter)
    case Idle => if s.ended || s.writing.Some? || s.queue != [] || s.closing then s else s.(flush := false)
    case Flush => s.(flush := true)
    case Close => s.(closing := true, flush := true)
    case Stop => if s.writing.None? && s.queue == [] && s.closing then s.(ended := true) else s
  }

  /** What the thread holds and the queue behind it. */
  function Unwritten(s: Sink): seq<Record> {
    (if s.writing.Some? then [s.writing.value] else []) + s.queue
  }

  /** What is not in the file yet is still to be written, in order. */
  ghost predicate InFile(s: Sink) {
    s.written <= |s.accepted| && s.accepted[s.written..] == Unwritten(s) && s.file == Stream(s.accepted[..s.written])
  }

  /** Over capacity only while what is left of one batch, admitted into an empty queue, is queued. */
  ghost predicate OneBatch(limits: Limits, s: Sink) {
    s.queuedBytes > limits.capacity ==> s.intoEmpty && |s.queue| <= |s.last| && s.last[|s.last| - |s.queue|..] == s.queue
  }

  /** What every interleaving keeps. */
  ghost predicate Sound(limits: Limits, s: Sink) {
    && s.queuedBytes == Size(s.queue) && InFile(s) && OneBatch(limits, s)
    && (s.ended ==> s.closing && s.queue == [] && s.writing.None?)
  }

  lemma {:induction false} StreamJoins(xs: seq<Record>, ys: seq<Record>)
    ensures Stream(xs + ys) == Stream(xs) + Stream(ys)
  {
    hide EncodeRecord;
    if xs == [] {
      assert xs + ys == ys;
    } else {
      StreamJoins(xs[1..], ys);
      assert (xs + ys)[1..] == xs[1..] + ys && (xs + ys)[0] == xs[0];
      assert Stream(xs + ys) == EncodeRecord(xs[0]) + Stream((xs + ys)[1..]);
    }
  }

  lemma StreamOne(r: Record)
    ensures Stream([r]) == EncodeRecord(r)
  {
    hide EncodeRecord;
    assert [r][1..] == [];
  }

  lemma AdmitInFile(limits: Limits, s: Sink, i: nat)
    requires InFile(s)
    ensures InFile(After(limits, s, Admit(i)))
  {
    hide Stream;
    var s' := After(limits, s, Admit(i));
    if s' != s {
      var batch := s.waiting[i];
      assert s'.accepted[s'.written..] == s.accepted[s.written..] + batch;
      assert Unwritten(s) + batch == Unwritten(s');
      assert s'.accepted[..s'.written] == s.accepted[..s.written];
    }
  }

  lemma AdmitOneBatch(limits: Limits, s: Sink, i: nat)
    requires OneBatch(limits, s)
    ensures OneBatch(limits, After(limits, s, Admit(i)))
  {
    hide Stream;
    if i < |s.waiting| && s.queue == [] {
      assert s.queue + s.waiting[i] == s.waiting[i] == s.waiting[i][0..];
    }
  }

  lemma AdmitSound(limits: Limits, s: Sink, i: nat)
    requires Sound(limits, s)
    ensures Sound(limits, After(limits, s, Admit(i)))
  {
    hide Stream, InFile, OneBatch, CanAdmit;
    AdmitInFile(limits, s, i);
    AdmitOneBatch(limits, s, i);
    if i < |s.waiting| {
      StreamJoins(s.queue, s.waiting[i]);
    }
  }

  lemma StreamHead(records: seq<Record>)
    requires records != []
    ensures Size(records) == |EncodeRecord(records[0])| + Size(records[1..])
  {
  }

  lemma ShorterSuffix(last: seq<Record>, queue: seq<Record>)
    requires queue != [] && |queue| <= |last| && last[|last| - |queue|..] == queue
    ensures last[|last| - |queue[1..]|..] == queue[1..]
  {
    assert last[|last| - |queue|..][1..] == last[|last| - |queue| + 1..];
  }

  lemma PopInFile(limits: Limits, s: Sink)
    requires InFile(s)
    ensures InFile(After(limits, s, Pop))
  {
    hide EncodeRecord, Stream;
    if !s.ended && s.writing.None? && s.queue != [] {
      assert Unwritten(s) == [] + s.queue == s.queue;
      assert [s.queue[0]] + s.queue[1..] == s.queue;
    }
  }

  lemma PopSound(limits: Limits, s: Sink)
    requires Sound(limits, s)
    ensures Sound(limits, After(limits, s, Pop))
  {
    hide EncodeRecord, Stream, InFile;
    PopInFile(limits, s);
    if !s.ended && s.writing.None? && s.queue != [] {
      StreamHead(s.queue);
      if s.queuedBytes > limits.capacity {
        ShorterSuffix(s.last, s.queue);
      }
    }
  }

  lemma WriteInFile(limits: Limits, s: Sink)
    requires InFile(s)
    ensures InFile(After(limits, s, Write))
  {
    hide EncodeRecord, Stream;
    if s.writing.Some? {
      var r := s.writing.value;
      assert s.accepted[s.written..][0] == r;
      assert s.accepted[..s.written + 1] == s.accepted[..s.written] + [r];
      assert s.accepted[s.written + 1..] == s.accepted[s.written..][1..];
      assert Unwritten(After(limits, s, Write)) == [] + s.queue == s.queue;
      StreamJoins(s.accepted[..s.written], [r]);
      StreamOne(r);
    }
  }

  lemma WriteSound(limits: Limits, s: Sink)
    requires Sound(limits, s)
    ensures Sound(limits, After(limits, s, Write))
  {
    hide EncodeRecord, Stream, InFile;
    WriteInFile(limits, s);
  }

  /** Every step of every thread keeps the queue, the count and the file in agreement. */
  lemma StepSound(limits: Limits, s: Sink, step: Step)
    requires Sound(limits, s)
    ensures Sound(limits, After(limits, s, step))
  {
    hide Stream;
    match step
    case Admit(i) => AdmitSound(limits, s, i);
    case Pop => PopSound(limits, s);
    case Write => WriteSound(limits, s);
    case _ =>
  }

  function Run(limits: Limits, s: Sink, steps: seq<Step>): Sink {
    if steps == [] then s else After(limits, Run(limits, s, steps[..|steps| - 1]), steps[|steps| - 1])
  }

  lemma {:induction false} RunSound(limits: Limits, s: Sink, steps: seq<Step>)
    requires Sound(limits, s)
    ensures Sound(limits, Run(limits, s, steps))
  {
    hide Sound, After;
    if steps != [] {
      RunSound(limits, s, steps[..|steps| - 1]);
      StepSound(limits, Run(limits, s, steps[..|steps| - 1]), steps[|steps| - 1]);
    }
  }

  /**
   The main result: for every interleaving, the byte count is the length of
   the queued records; it is over capacity only while what is left of one
   batch admitted into an empty queue is queued; and once the thread has ended
   after close, the file holds every accepted record once, in order of
   acceptance.
   */
  lemma SinkDelivers(limits: Limits, steps: seq<Step>)
    ensures var s := Run(limits, NewSink, steps);
            && s.queuedBytes == Size(s.queue)
            && (s.queuedBytes > limits.capacity ==>
                  s.intoEmpty && |s.queue| <= |s.last| && s.last[|s.last| - |s.queue|..] == s.queue && Size(s.last) > limits.capacity)
            && (s.ended ==> s.file == Stream(s.accepted))
  {
    hide Run, After, Sound, Stream;
    NewSound(limits);
    RunSound(limits, NewSink, steps);
    var s := Run(limits, NewSink, steps);
    OverCapacity(limits, s);
    AllWritten(limits, s);
  }

  lemma NewSound(limits: Limits)
    ensures Sound(limits, NewSink)
  {
    assert NewSink.accepted[NewSink.written..] == [] && NewSink.accepted[..NewSink.written] == [];
  }

  lemma OverCapacity(limits: Limits, s: Sink)
    requires Sound(limits, s)
    ensures s.queuedBytes == Size(s.queue)
    ensures s.queuedBytes > limits.capacity ==>
              s.intoEmpty && |s.queue| <= |s.last| && s.last[|s.last| - |s.queue|..] == s.queue && Size(s.last) > limits.capacity
  {
    hide Stream;
    if s.queuedBytes > limits.capacity {
      StreamJoins(s.last[..|s.last| - |s.queue|], s.queue);
      assert s.last[..|s.last| - |s.queue|] + s.queue == s.last;
    }
  }

  /** With nothing in hand and nothing queued, everything accepted is in the file. */
  lemma AllWritten(limits: Limits, s: Sink)
    requires Sound(limits, s)
    ensures s.ended || (s.queue == [] && s.writing.None?) ==> s.written == |s.accepted| && s.file == Stream(s.accepted)
  {
    hide Stream;
    if s.ended || (s.queue == [] && s.writing.None?) {
      assert s.accepted[s.written..] == [];
      assert s.accepted[..s.written] == s.accepted;
    }
  }

  /** At any moment, and cut off anywhere, the file reads back as the first of the accepted records. */
  lemma FileReadsBack(limits: Limits, steps: seq<Step>, k: nat)
    requires var s := Run(limits, NewSink, steps);
             k <= |s.file| && forall i | 0 <= i < |s.accepted| :: RecordFits(s.accepted[i])
    ensures var s := Run(limits, NewSink, steps);
            && s.written <= |s.accepted| && ReadAll(s.file[..k]) == Some(s.accepted[..Whole(s.accepted[..s.written], k)])
            && ReadAll(s.file) == Some(s.accepted[..s.written])
            && (s.ended ==> ReadAll(s.file) == Some(s.accepted))
  {
    hide Run, After, Sound, Stream, ReadAll, Whole, RecordFits, Size;
    NewSound(limits);
    RunSound(limits, NewSink, steps);
    StateReadsBack(limits, Run(limits, NewSink, steps), k);
  }

  lemma StateReadsBack(limits: Limits, s: Sink, k: nat)
    requires Sound(limits, s) && k <= |s.file| && forall i | 0 <= i < |s.accepted| :: RecordFits(s.accepted[i])
    ensures s.written <= |s.accepted| && ReadAll(s.file[..k]) == Some(s.accepted[..Whole(s.accepted[..s.written], k)])
    ensures ReadAll(s.file) == Some(s.accepted[..s.written])
    ensures s.ended ==> ReadAll(s.file) == Some(s.accepted)
  {
    hide Stream, ReadAll, Whole, RecordFits, Size;
    var done := s.accepted[..s.written];
    AllWritten(limits, s);
    PrefixDecodes(done, k);
    WholeStreamDecodes(done);
    assert done[..Whole(done, k)] == s.accepted[..Whole(done, k)];
    if s.ended {
      assert done == s.accepted;
    }
  }

  // ---------------------------------------------------------------- progress

  function DrainSteps(count: nat): seq<Step> {
    if count == 0 then [Write] else DrainSteps(count - 1) + [Pop, Write]
  }

  lemma {:induction false} RunOn(limits: Limits, s: Sink, steps: seq<Step>, a: Step, b: Step)
    ensures Run(limits, s, steps + [a, b]) == After(limits, After(limits, Run(limits, s, steps), a), b)
  {
    hide After;
    assert (steps + [a, b])[..|steps| + 1] == steps + [a];
    assert (steps + [a])[..|steps|] == steps;
  }

  /** The thread alone empties the queue, one record per turn. */
  lemma {:induction false} Drains(limits: Limits, s: Sink, count: nat)
    requires !s.ended && count <= |s.queue|
    ensures var s' := Run(limits, s, DrainSteps(count));
            s'.queue == s.queue[count..] && s'.writing.None? && !s'.ended && s'.closing == s.closing && s'.waiting == s.waiting
  {
    hide EncodeRecord, After, Run, DrainSteps;
    if count == 0 {
      NoTurn(limits, s);
    } else {
      var before := Run(limits, s, DrainSteps(count - 1));
      Drains(limits, s, count - 1);
      MoreTurns(limits, s, count);
      OneTurn(limits, before);
      SuffixTail(s.queue, count);
    }
  }

  lemma SuffixTail(queue: seq<Record>, count: nat)
    requires 0 < count <= |queue|
    ensures queue[count - 1..] != [] && queue[count - 1..][1..] == queue[count..]
  {
  }

  lemma NoTurn(limits: Limits, s: Sink)
    requires !s.ended
    ensures var s' := Run(limits, s, DrainSteps(0));
            s'.queue == s.queue[0..] && s'.writing.None? && !s'.ended && s'.closing == s.closing && s'.waiting == s.waiting
  {
    hide EncodeRecord;
    assert [Write][..0] == [];
    assert Run(limits, s, [Write]) == After(limits, s, Write);
  }

  lemma MoreTurns(limits: Limits, s: Sink, count: nat)
    requires count > 0
    ensures Run(limits, s, DrainSteps(count)) == After(limits, After(limits, Run(limits, s, DrainSteps(count - 1)), Pop), Write)
  {
    hide After, Run;
    RunOn(limits, s, DrainSteps(count - 1), Pop, Write);
  }

  lemma OneTurn(limits: Limits, s: Sink)
    requires !s.ended && s.writing.None? && s.queue != []
    ensures var s' := After(limits, After(limits, s, Pop), Write);
            s'.queue == s.queue[1..] && s'.writing.None? && !s'.ended && s'.closing == s.closing && s'.waiting == s.waiting
  {
    hide EncodeRecord;
  }

  /**
   Whenever the thread gets to run, its turns make room for any waiting batch,
   however large.  Whether it is woken to run at all is another matter: see `TraceWakeups`.
   */
  lemma RoomIsMade(limits: Limits, s: Sink, i: nat)
    requires Sound(limits, s) && !s.ended && !s.closing && i < |s.waiting|
    ensures var s' := Run(limits, s, DrainSteps(|s.queue|));
            s'.waiting == s.waiting && !s'.closing && CanAdmit(limits, s', s.waiting[i])
  {
    Drains(limits, s, |s.queue|);
    RunSound(limits, s, DrainSteps(|s.queue|));
  }

  /** Once closing, the thread's turns end it with everything written. */
  lemma CloseEnds(limits: Limits, s: Sink)
    requires Sound(limits, s) && !s.ended && s.closing
    ensures var s' := After(limits, Run(limits, s, DrainSteps(|s.queue|)), Stop);
            s'.ended && s'.file == Stream(s'.accepted)
  {
    hide Run, DrainSteps, Sound, Stream;
    Drains(limits, s, |s.queue|);
    RunSound(limits, s, DrainSteps(|s.queue|));
    AllWritten(limits, Run(limits, s, DrainSteps(|s.queue|)));
  }
}
