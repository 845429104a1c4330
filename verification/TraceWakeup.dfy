/**
 Who is awake around a trace file's queue.  Producers and the writing thread
 wait on one condition variable; a producer that queued something wakes one of
 them, after it has let go of the lock.
 */
module TraceWakeups {
  import opened TraceCodec
  import opened TraceSinks

  /**
   `asleep` says which of the waiting producers are blocked, `owed` how many
   `notify_one` calls are still to come from producers that queued something,
   and `owedAll` whether close has its `notify_all` to come.
   */
  datatype Monitor = Monitor(sink: Sink, asleep: seq<bool>, threadAsleep: bool, owed: nat, owedAll: bool)

  const NewMonitor := Monitor(NewSink, [], false, 0, false)

  datatype Wake = Thread | Producer(i: nat) | Nobody

  /**
   `Enter` and `Check` are a producer's, `Look` and `WriteOut` the thread's;
   a notification wakes any one that is blocked, and `Spurious` needs none.
   */
  datatype Event =
    | Enter(batch: seq<Record>)
    | Check(producer: nat)
    | Notify(woken: Wake)
    | NotifyAll
    | Look
    | WriteOut
    | RequestFlush(flushed: Wake)
    | RequestClose
    | Spurious(roused: Wake)

  predicate Asleep(m: Monitor, i: nat) {
    i < |m.asleep| && m.asleep[i]
  }

  predicate Legal(m: Monitor, w: Wake) {
    match w
    case Thread => m.threadAsleep
    case Producer(i) => Asleep(m, i)
    case Nobody => !m.threadAsleep && forall i | 0 <= i < |m.asleep| :: !m.asleep[i]
  }

  function Woken(m: Monitor, w: Wake): Monitor {
    match w
    case Thread => m.(threadAsleep := false)
    case Producer(i) => if i < |m.asleep| then m.(asleep := m.asleep[i := false]) else m
    case Nobody => m
  }

  function AllAwake(m: Monitor): Monitor {
    m.(asleep := seq(|m.asleep|, _ => false), threadAsleep := false)
  }

  function Gone(asleep: seq<bool>, i: nat): (left: seq<bool>)
    requires i < |asleep|
    ensures |left| == |asleep| - 1
  {
    asleep[..i] + asleep[i + 1..]
  }

  /** One critical section, or one notification; an event that is not possible changes nothing. */
  function Next(limits: Limits, m: Monitor, e: Event): Monitor {
    match e
    case Enter(batch) => m.(sink := TraceSinks.After(limits, m.sink, Propose(batch)), asleep := m.asleep + [false])
    case Check(i) =>
      if i >= |m.asleep| || i >= |m.sink.waiting| || m.asleep[i] then m
      else if m.sink.closing then m.(sink := TraceSinks.After(limits, m.sink, Refuse(i)), asleep := Gone(m.asleep, i))
      else if CanAdmit(limits, m.sink, m.sink.waiting[i]) then
        m.(sink := TraceSinks.After(limits, m.sink, Admit(i)), asleep := Gone(m.asleep, i), owed := m.owed + 1)
      else m.(asleep := m.asleep[i := true])
    case Notify(w) => if m.owed == 0 || !Legal(m, w) then m else Woken(m.(owed := m.owed - 1), w)
    case NotifyAll => if !m.owedAll then m else AllAwake(m.(owedAll := false))
    case Look =>
      if m.threadAsleep || m.sink.ended || m.sink.writing.Some? then m
      else if m.sink.queue != [] then AllAwake(m.(sink := TraceSinks.After(limits, m.sink, Pop)))
      else if m.sink.closing then m.(sink := TraceSinks.After(limits, m.sink, Stop))
      else if m.sink.flush then m.(sink := TraceSinks.After(limits, m.sink, Idle))
      else m.(threadAsleep := true)
    case WriteOut => m.(sink := TraceSinks.After(limits, m.sink, Write))
    case RequestFlush(w) => if !Legal(m, w) then m else Woken(m.(sink := TraceSinks.After(limits, m.sink, Flush)), w)
    case RequestClose => m.(sink := TraceSinks.After(limits, m.sink, Close), owedAll := true)
    case Spurious(w) => if Legal(m, w) then Woken(m, w) else m
  }

  function Events(limits: Limits, m: Monitor, es: seq<Event>): Monitor {
    if es == [] then m else Next(limits, Events(limits, m, es[..|es| - 1]), es[|es| - 1])
  }

  // -------------------------------------------------------------- safety

  /** The queue stays sound, the thread sleeps only with nothing in hand, and no producer sleeps while there is room for it. */
  ghost predicate MonitorSound(limits: Limits, m: Monitor) {
    && |m.asleep| == |m.sink.waiting| && Sound(limits, m.sink)
    && (m.threadAsleep ==> m.sink.writing.None? && !m.sink.ended)
    && (forall i | 0 <= i < |m.asleep| && m.asleep[i] :: !CanAdmit(limits, m.sink, m.sink.waiting[i]))
  }

  lemma SameRoom(limits: Limits, s: Sink, t: Sink, batch: seq<Record>)
    requires s.queue == t.queue && s.queuedBytes == t.queuedBytes
    ensures CanAdmit(limits, s, batch) == CanAdmit(limits, t, batch)
  {
  }

  /** Admitting a batch makes no room for another. */
  lemma LessRoom(limits: Limits, s: Sink, i: nat, batch: seq<Record>)
    requires Sound(limits, s) && !CanAdmit(limits, s, batch)
    ensures !CanAdmit(limits, TraceSinks.After(limits, s, Admit(i)), batch)
  {
    hide Stream;
  }

  lemma CheckSound(limits: Limits, m: Monitor, i: nat)
    requires MonitorSound(limits, m)
    ensures MonitorSound(limits, Next(limits, m, Check(i)))
  {
    hide Sound, CanAdmit, Size;
    StepSound(limits, m.sink, Refuse(i));
    StepSound(limits, m.sink, Admit(i));
    var m' := Next(limits, m, Check(i));
    if i < |m.asleep| && !m.asleep[i] {
      forall k | 0 <= k < |m'.asleep| && m'.asleep[k] ensures !CanAdmit(limits, m'.sink, m'.sink.waiting[k]) {
        if m.sink.closing || CanAdmit(limits, m.sink, m.sink.waiting[i]) {
          var was := if k < i then k else k + 1;
          assert m'.sink.waiting[k] == m.sink.waiting[was] && m'.asleep[k] == m.asleep[was];
          if m.sink.closing {
            SameRoom(limits, m.sink, m'.sink, m.sink.waiting[was]);
          } else {
            LessRoom(limits, m.sink, i, m.sink.waiting[was]);
          }
        }
      }
    }
  }

  lemma LookSound(limits: Limits, m: Monitor)
    requires MonitorSound(limits, m)
    ensures MonitorSound(limits, Next(limits, m, Look))
  {
    hide Sound, CanAdmit, Size, EncodeRecord;
    StepSound(limits, m.sink, Pop);
    StepSound(limits, m.sink, Stop);
    StepSound(limits, m.sink, Idle);
    var m' := Next(limits, m, Look);
    forall k | 0 <= k < |m'.asleep| && m'.asleep[k] ensures !CanAdmit(limits, m'.sink, m'.sink.waiting[k]) {
      SameRoom(limits, m.sink, m'.sink, m.sink.waiting[k]);
    }
  }

  lemma OutsideSound(limits: Limits, m: Monitor, e: Event)
    requires MonitorSound(limits, m) && (e.Enter? || e.WriteOut? || e.RequestFlush? || e.RequestClose?)
    ensures MonitorSound(limits, Next(limits, m, e))
  {
    hide Sound, CanAdmit, Size, EncodeRecord;
    match e {
      case Enter(batch) => StepSound(limits, m.sink, Propose(batch));
      case WriteOut => StepSound(limits, m.sink, Write);
      case RequestFlush(_) => StepSound(limits, m.sink, Flush);
      case RequestClose => StepSound(limits, m.sink, Close);
    }
    var m' := Next(limits, m, e);
    forall k | 0 <= k < |m'.asleep| && m'.asleep[k] ensures !CanAdmit(limits, m'.sink, m'.sink.waiting[k]) {
      assert m'.sink.waiting[k] == m.sink.waiting[k] && m.asleep[k];
      SameRoom(limits, m.sink, m'.sink, m.sink.waiting[k]);
    }
  }

  lemma NextSound(limits: Limits, m: Monitor, e: Event)
    requires MonitorSound(limits, m)
    ensures MonitorSound(limits, Next(limits, m, e))
  {
    match e
    case Check(i) => CheckSound(limits, m, i);
    case Look => LookSound(limits, m);
    case Enter(_) => OutsideSound(limits, m, e);
    case WriteOut => OutsideSound(limits, m, e);
    case RequestFlush(_) => OutsideSound(limits, m, e);
    case RequestClose => OutsideSound(limits, m, e);
    case _ => WokenSound(limits, m, e);
  }

  lemma WokenSound(limits: Limits, m: Monitor, e: Event)
    requires MonitorSound(limits, m) && (e.Notify? || e.NotifyAll? || e.Spurious?)
    ensures MonitorSound(limits, Next(limits, m, e))
  {
    hide Sound, CanAdmit;
  }

  lemma {:induction false} EventsSound(limits: Limits, m: Monitor, es: seq<Event>)
    requires MonitorSound(limits, m)
    ensures MonitorSound(limits, Events(limits, m, es))
  {
    hide MonitorSound, Next;
    if es != [] {
      EventsSound(limits, m, es[..|es| - 1]);
      NextSound(limits, Events(limits, m, es[..|es| - 1]), es[|es| - 1]);
    }
  }

  lemma NewMonitorSound(limits: Limits)
    ensures MonitorSound(limits, NewMonitor)
  {
    NewSound(limits);
  }

  // ------------------------------------------------------------ wake-ups

  /** The thread is blocked although there is something for it to do. */
  predicate MustWake(m: Monitor) {
    m.threadAsleep && (m.sink.queue != [] || m.sink.flush || m.sink.closing)
  }

  /** Then a notification is on its way. */
  predicate Heard(m: Monitor) {
    MustWake(m) ==> m.owed > 0 || m.owedAll
  }

  /** The last notification on its way, or a flush, goes to a producer while it is the thread that has something to do. */
  predicate Stolen(m: Monitor, e: Event) {
    match e
    case Notify(Producer(i)) => Legal(m, Producer(i)) && MustWake(m) && m.owed == 1 && !m.owedAll
    case RequestFlush(Producer(i)) => Legal(m, Producer(i)) && m.threadAsleep && m.owed == 0 && !m.owedAll
    case _ => false
  }

  /** What every step does to the promise that the thread will be woken: only a stolen notification breaks it. */
  lemma StepHeardIff(limits: Limits, m: Monitor, e: Event)
    requires MonitorSound(limits, m) && Heard(m)
    ensures Heard(Next(limits, m, e)) <==> !Stolen(m, e)
  {
    hide Sound, CanAdmit, Stream;
  }

  /**
   In every run, the thread is always awake or about to be woken while there is
   something for it to do, if and only if no notification in it is stolen.
   */
  lemma HeardThroughoutIff(limits: Limits, es: seq<Event>)
    ensures (forall n | 0 <= n <= |es| :: Heard(Events(limits, NewMonitor, es[..n])))
            <==> forall n | 0 <= n < |es| :: !Stolen(Events(limits, NewMonitor, es[..n]), es[n])
  {
    hide Heard, Stolen, Next, MonitorSound;
    NewMonitorSound(limits);
    if forall n | 0 <= n <= |es| :: Heard(Events(limits, NewMonitor, es[..n])) {
      forall n | 0 <= n < |es| ensures !Stolen(Events(limits, NewMonitor, es[..n]), es[n]) {
        StepOf(limits, es, n);
        assert Heard(Events(limits, NewMonitor, es[..n])) && Heard(Events(limits, NewMonitor, es[..n + 1]));
      }
    } else if forall n | 0 <= n < |es| :: !Stolen(Events(limits, NewMonitor, es[..n]), es[n]) {
      forall n | 0 <= n <= |es| ensures Heard(Events(limits, NewMonitor, es[..n])) {
        NeverStolen(limits, es, n);
      }
    }
  }

  lemma StepOf(limits: Limits, es: seq<Event>, n: nat)
    requires n < |es| && Heard(Events(limits, NewMonitor, es[..n]))
    ensures Heard(Events(limits, NewMonitor, es[..n + 1])) <==> !Stolen(Events(limits, NewMonitor, es[..n]), es[n])
  {
    hide Heard, Stolen, Next, MonitorSound;
    NewMonitorSound(limits);
    EventsSound(limits, NewMonitor, es[..n]);
    assert es[..n + 1][..n] == es[..n];
    StepHeardIff(limits, Events(limits, NewMonitor, es[..n]), es[n]);
  }

  lemma {:induction false} NeverStolen(limits: Limits, es: seq<Event>, n: nat)
    requires n <= |es| && forall k | 0 <= k < |es| :: !Stolen(Events(limits, NewMonitor, es[..k]), es[k])
    ensures Heard(Events(limits, NewMonitor, es[..n]))
  {
    hide Stolen, Next, Heard;
    if n == 0 {
      StartsHeard();
      assert es[..0] == [];
    } else {
      NeverStolen(limits, es, n - 1);
      StepOf(limits, es, n - 1);
    }
  }

  lemma StartsHeard()
    ensures Heard(NewMonitor)
  {
  }

  /** A producer's look at the queue finds room, or that it is closing. */
  predicate Roomy(limits: Limits, m: Monitor, e: Event) {
    e.Check? && e.producer < |m.sink.waiting| ==> m.sink.closing || CanAdmit(limits, m.sink, m.sink.waiting[e.producer])
  }

  /** What a caller can see to: while every batch finds room at once, no wake-up is ever stolen. */
  lemma {:induction false} RoomyRunsAreHeard(limits: Limits, es: seq<Event>)
    requires forall n | 0 <= n < |es| :: Roomy(limits, Events(limits, NewMonitor, es[..n]), es[n])
    ensures Heard(Events(limits, NewMonitor, es))
    ensures forall i | 0 <= i < |Events(limits, NewMonitor, es).asleep| :: !Events(limits, NewMonitor, es).asleep[i]
  {
    if es != [] {
      var init := es[..|es| - 1];
      forall n | 0 <= n < |init| ensures Roomy(limits, Events(limits, NewMonitor, init[..n]), init[n]) {
        assert init[..n] == es[..n];
        assert Roomy(limits, Events(limits, NewMonitor, es[..n]), es[n]);
      }
      RoomyRunsAreHeard(limits, init);
      NewMonitorSound(limits);
      EventsSound(limits, NewMonitor, init);
      assert Roomy(limits, Events(limits, NewMonitor, es[..|es| - 1]), es[|es| - 1]);
      RoomyStep(limits, Events(limits, NewMonitor, init), es[|es| - 1]);
    }
  }

  lemma RoomyStep(limits: Limits, m: Monitor, e: Event)
    requires MonitorSound(limits, m) && Heard(m) && Roomy(limits, m, e) && forall i | 0 <= i < |m.asleep| :: !m.asleep[i]
    ensures var m' := Next(limits, m, e); Heard(m') && forall i | 0 <= i < |m'.asleep| :: !m'.asleep[i]
  {
    hide Sound, CanAdmit, Stream;
    StepHeardIff(limits, m, e);
  }

  // ------------------------------------------------------- lost wake-ups

  /** The thread sleeps on a queue with something in it, nobody is going to wake it, and nobody waiting fits. */
  predicate Stuck(limits: Limits, m: Monitor) {
    && |m.asleep| == |m.sink.waiting| && m.threadAsleep && m.sink.queue != [] && m.sink.writing.None? && !m.sink.closing
    && m.owed == 0 && !m.owedAll
    && (forall i | 0 <= i < |m.sink.waiting| :: !CanAdmit(limits, m.sink, m.sink.waiting[i]))
  }

  /** Anything but close, a spurious wake-up, a batch that fits, or a flush that wakes the thread. */
  predicate Helpless(limits: Limits, m: Monitor, e: Event) {
    match e
    case Enter(batch) => !CanAdmit(limits, m.sink, batch)
    case RequestFlush(w) => w != Thread
    case RequestClose => false
    case Spurious(_) => false
    case _ => true
  }

  lemma StuckStays(limits: Limits, m: Monitor, e: Event)
    requires Stuck(limits, m) && Helpless(limits, m, e)
    ensures var m' := Next(limits, m, e); Stuck(limits, m') && m'.sink.queue == m.sink.queue && m'.sink.file == m.sink.file
                                          && m'.sink.queuedBytes == m.sink.queuedBytes
  {
    hide Size, EncodeRecord;
  }

  ghost predicate HelplessRun(limits: Limits, m: Monitor, es: seq<Event>) {
    forall n | 0 <= n < |es| :: Helpless(limits, Events(limits, m, es[..n]), es[n])
  }

  /** Once stuck, the queue is never written: no run without such help changes it. */
  lemma {:induction false} StuckForever(limits: Limits, m: Monitor, es: seq<Event>)
    requires Stuck(limits, m) && HelplessRun(limits, m, es)
    ensures var m' := Events(limits, m, es);
            Stuck(limits, m') && m'.sink.queue == m.sink.queue && m'.sink.file == m.sink.file && m'.sink.queuedBytes == m.sink.queuedBytes
  {
    hide Next, Helpless, CanAdmit;
    if es != [] {
      var init := es[..|es| - 1];
      assert forall n | 0 <= n < |init| :: init[..n] == es[..n] && init[n] == es[n];
      StuckForever(limits, m, init);
      assert Helpless(limits, Events(limits, m, es[..|es| - 1]), es[|es| - 1]);
      StuckStays(limits, Events(limits, m, init), es[|es| - 1]);
    }
  }

  /**
   How that comes about: the thread sleeps on an empty queue; one producer
   queues a batch and lets go of the lock; another finds no room and sleeps, and
   takes the first one's notification.
   */
  lemma WakeUpIsLost(limits: Limits, first: seq<Record>, second: seq<Record>)
    requires first != [] && Size(first) <= limits.capacity < Size(first) + Size(second)
    ensures Stuck(limits, Events(limits, NewMonitor,
                                 [Look, Enter(first), Check(0), Enter(second), Check(0), Notify(Producer(0)), Check(0)]))
  {
    hide Size, Events, Next, Stuck;
    var m1 := Next(limits, NewMonitor, Look);
    var m2 := Next(limits, m1, Enter(first));
    var m3 := Next(limits, m2, Check(0));
    FirstEnters(limits, first);
    FirstAdmitted(limits, first, m2, m3);
    var m4 := Next(limits, m3, Enter(second));
    var m5 := Next(limits, m4, Check(0));
    var m6 := Next(limits, m5, Notify(Producer(0)));
    var m7 := Next(limits, m6, Check(0));
    SecondSteals(limits, m3, second);
    SevenEvents(limits, [Look, Enter(first), Check(0), Enter(second), Check(0), Notify(Producer(0)), Check(0)], [NewMonitor, m1, m2, m3, m4, m5, m6, m7]);
  }

  lemma FirstEnters(limits: Limits, first: seq<Record>)
    ensures Next(limits, Next(limits, NewMonitor, Look), Enter(first)) == Monitor(NewSink.(waiting := [first]), [false], true, 0, false)
  {
    assert Next(limits, NewMonitor, Look) == NewMonitor.(threadAsleep := true);
    assert [] + [first] == [first] && [] + [false] == [false];
  }

  /** A second producer finds no room and takes the notification that was meant for the thread. */
  lemma SecondSteals(limits: Limits, m: Monitor, second: seq<Record>)
    requires m.sink.waiting == [] && m.asleep == [] && m.threadAsleep && m.owed == 1 && !m.owedAll
    requires !m.sink.closing && m.sink.writing.None? && m.sink.queue != [] && m.sink.queuedBytes + Size(second) > limits.capacity
    ensures Stuck(limits, Next(limits, Next(limits, Next(limits, Next(limits, m, Enter(second)), Check(0)), Notify(Producer(0))), Check(0)))
  {
    hide Size;
    var m4 := Next(limits, m, Enter(second));
    assert m4 == m.(sink := m.sink.(waiting := [second]), asleep := [false]);
    var m5 := Next(limits, m4, Check(0));
    assert m5 == m4.(asleep := [true]);
    var m6 := Next(limits, m5, Notify(Producer(0)));
    assert m6 == m4.(asleep := [false], owed := 0);
    assert Next(limits, m6, Check(0)) == m4.(asleep := [true], owed := 0);
  }

  lemma FirstAdmitted(limits: Limits, first: seq<Record>, m: Monitor, m': Monitor)
    requires first != [] && Size(first) <= limits.capacity && m == Monitor(NewSink.(waiting := [first]), [false], true, 0, false)
    requires m' == Next(limits, m, Check(0))
    ensures m'.sink.queue == first && m'.sink.queuedBytes == Size(first) && m'.sink.waiting == [] && m'.sink.writing.None?
    ensures !m'.sink.closing && m'.asleep == [] && m'.threadAsleep && m'.owed == 1 && !m'.owedAll
  {
    hide Size;
    NothingQueued();
  }

  lemma NothingQueued()
    ensures Size([]) == 0
  {
  }

  lemma {:induction false} SevenEvents(limits: Limits, es: seq<Event>, ms: seq<Monitor>)
    requires |ms| == |es| + 1
    requires forall i | 0 <= i < |es| :: ms[i + 1] == Next(limits, ms[i], es[i])
    ensures Events(limits, ms[0], es) == ms[|es|]
  {
    hide Next;
    if es != [] {
      SevenEvents(limits, es[..|es| - 1], ms[..|ms| - 1]);
    }
  }

  // ----------------------------------------------- exactly when it can be

  predicate Inner(e: Event) {
    e.Check? || e.Notify?
  }

  function Steal(count: nat): seq<Event> {
    if count == 0 then [] else Steal(count - 1) + [Notify(Producer(0)), Check(0)]
  }

  lemma TwoMore(limits: Limits, m: Monitor, es: seq<Event>, a: Event, b: Event)
    ensures Events(limits, m, es + [a, b]) == Next(limits, Next(limits, Events(limits, m, es), a), b)
  {
    hide Next;
    assert (es + [a, b])[..|es| + 1] == es + [a];
    assert (es + [a])[..|es|] == es;
  }

  lemma OneSteal(limits: Limits, m: Monitor)
    requires |m.asleep| == |m.sink.waiting| > 0 && m.asleep[0] && m.owed > 0 && !m.sink.closing
    requires !CanAdmit(limits, m.sink, m.sink.waiting[0])
    ensures Next(limits, Next(limits, m, Notify(Producer(0))), Check(0)) == m.(owed := m.owed - 1)
  {
    hide CanAdmit;
    var n := Next(limits, m, Notify(Producer(0)));
    assert n == m.(owed := m.owed - 1, asleep := m.asleep[0 := false]);
    assert m.asleep[0 := false][0 := true] == m.asleep;
  }

  /** A sleeping producer without room takes one notification after the other. */
  lemma {:induction false} Steals(limits: Limits, m: Monitor, count: nat)
    requires |m.asleep| == |m.sink.waiting| > 0 && m.asleep[0] && count <= m.owed && !m.sink.closing
    requires !CanAdmit(limits, m.sink, m.sink.waiting[0])
    ensures Events(limits, m, Steal(count)) == m.(owed := m.owed - count)
    ensures forall e <- Steal(count) :: Inner(e)
  {
    hide CanAdmit, Next;
    if count > 0 {
      Steals(limits, m, count - 1);
      TwoMore(limits, m, Steal(count - 1), Notify(Producer(0)), Check(0));
      OneSteal(limits, m.(owed := m.owed - (count - 1)));
    }
  }

  /** With no producer about, every notification reaches the thread. */
  lemma {:induction false} Reaches(limits: Limits, m: Monitor, es: seq<Event>)
    requires m.sink.waiting == [] && m.asleep == [] && m.threadAsleep && m.owed > 0 && forall e <- es :: Inner(e)
    ensures var m' := Events(limits, m, es); m'.asleep == [] && m'.sink == m.sink && (m'.threadAsleep ==> m'.owed == m.owed)
  {
    hide CanAdmit;
    if es != [] {
      Reaches(limits, m, es[..|es| - 1]);
      assert Inner(es[|es| - 1]);
    }
  }

  /**
   While the thread sleeps on something and a notification is on its way, that
   it will be lost, by notifications and looks at the queue alone, is possible
   exactly when some producer waits.
   */
  lemma WakeUpCanBeLostIff(limits: Limits, m: Monitor)
    requires MonitorSound(limits, m) && m.threadAsleep && m.sink.queue != [] && m.owed > 0 && !m.owedAll && !m.sink.closing
    requires forall i | 0 <= i < |m.sink.waiting| :: !CanAdmit(limits, m.sink, m.sink.waiting[i])
    ensures (exists es :: (forall e <- es :: Inner(e)) && Stuck(limits, Events(limits, m, es))) <==> m.sink.waiting != []
  {
    hide Sound, CanAdmit, Inner, Events;
    if m.sink.waiting == [] {
      forall es | forall e <- es :: Inner(e) ensures !Stuck(limits, Events(limits, m, es)) {
        Reaches(limits, m, es);
      }
    } else if m.asleep[0] {
      Steals(limits, m, m.owed);
      assert Stuck(limits, Events(limits, m, Steal(m.owed)));
    } else {
      var n := Next(limits, m, Check(0));
      assert n == m.(asleep := m.asleep[0 := true]);
      Steals(limits, n, n.owed);
      FirstThen(limits, m, Check(0), Steal(n.owed));
      var es := [Check(0)] + Steal(n.owed);
      assert Stuck(limits, Events(limits, m, es));
      assert Inner(Check(0)) by { CheckIsInner(); }
      assert forall e <- es :: Inner(e);
    }
  }

  lemma CheckIsInner()
    ensures Inner(Check(0))
  {
  }

  lemma {:induction false} FirstThen(limits: Limits, m: Monitor, e: Event, es: seq<Event>)
    ensures Events(limits, m, [e] + es) == Events(limits, Next(limits, m, e), es)
  {
    hide Next;
    if es == [] {
      assert [e] + es == [e] && [e][..0] == [];
      assert Events(limits, m, [e]) == Next(limits, Events(limits, m, []), e);
    } else {
      FirstThen(limits, m, e, es[..|es| - 1]);
      assert ([e] + es)[..|es|] == [e] + es[..|es| - 1];
    }
  }

  // ---------------------------------------------------------------- room

  function Turns(count: nat): seq<Event> {
    if count == 0 then [WriteOut] else Turns(count - 1) + [Look, WriteOut]
  }

  /** The thread, once awake, empties the queue record by record and wakes everybody as it goes. */
  lemma {:induction false} TurnsDrain(limits: Limits, m: Monitor, count: nat)
    requires !m.threadAsleep && !m.sink.ended && count <= |m.sink.queue|
    ensures var m' := Events(limits, m, Turns(count));
            && m'.sink.queue == m.sink.queue[count..] && m'.sink.writing.None? && !m'.sink.ended && !m'.threadAsleep
            && m'.sink.waiting == m.sink.waiting && m'.sink.closing == m.sink.closing
            && |m'.asleep| == |m.asleep|
            && (count > 0 ==> forall i | 0 <= i < |m'.asleep| :: !m'.asleep[i])
            && (count == 0 ==> m'.asleep == m.asleep)
  {
    hide EncodeRecord, CanAdmit, Next, Events, Turns;
    if count == 0 {
      NoTurns(limits, m);
    } else {
      TurnsDrain(limits, m, count - 1);
      MoreTurns(limits, m, count);
      TakesTurn(limits, Events(limits, m, Turns(count - 1)));
      SuffixTail(m.sink.queue, count);
    }
  }

  lemma NoTurns(limits: Limits, m: Monitor)
    requires !m.threadAsleep && !m.sink.ended
    ensures var m' := Events(limits, m, Turns(0));
            && m'.sink.queue == m.sink.queue[0..] && m'.sink.writing.None? && !m'.sink.ended && !m'.threadAsleep
            && m'.sink.waiting == m.sink.waiting && m'.sink.closing == m.sink.closing && m'.asleep == m.asleep
  {
    hide EncodeRecord, CanAdmit;
    assert [WriteOut][..0] == [];
    assert Events(limits, m, [WriteOut]) == Next(limits, m, WriteOut);
  }

  lemma MoreTurns(limits: Limits, m: Monitor, count: nat)
    requires count > 0
    ensures Events(limits, m, Turns(count)) == Next(limits, Next(limits, Events(limits, m, Turns(count - 1)), Look), WriteOut)
  {
    hide Next, Events;
    TwoMore(limits, m, Turns(count - 1), Look, WriteOut);
  }

  lemma TakesTurn(limits: Limits, m: Monitor)
    requires !m.threadAsleep && !m.sink.ended && m.sink.writing.None? && m.sink.queue != []
    ensures var m' := Next(limits, Next(limits, m, Look), WriteOut);
            && m'.sink.queue == m.sink.queue[1..] && m'.sink.writing.None? && !m'.sink.ended && !m'.threadAsleep
            && m'.sink.waiting == m.sink.waiting && m'.sink.closing == m.sink.closing
            && |m'.asleep| == |m.asleep| && (forall i | 0 <= i < |m'.asleep| :: !m'.asleep[i])
  {
    hide EncodeRecord, CanAdmit, Legal, Woken, Gone, TraceSinks.After;
    TraceSinks.OneTurn(limits, m.sink);
    var popped := TraceSinks.After(limits, m.sink, Pop);
    assert Next(limits, m, Look) == AllAwake(m.(sink := popped));
    assert Next(limits, AllAwake(m.(sink := popped)), WriteOut) == AllAwake(m.(sink := popped)).(sink := TraceSinks.After(limits, popped, Write));
  }

  predicate Within(e: Event) {
    e.Check? || e.Notify? || e.Look? || e.WriteOut?
  }

  lemma {:induction false} TurnsWithin(count: nat)
    ensures forall e <- Turns(count) :: Within(e)
  {
    if count > 0 {
      TurnsWithin(count - 1);
    }
  }

  lemma EmptyAdmits(limits: Limits, s: Sink, batch: seq<Record>)
    requires Sound(limits, s) && s.queue == []
    ensures CanAdmit(limits, s, batch)
  {
  }

  /**
   When producers wait and none of them fits, what is already under way
   (notifications, looks at the queue and the thread's turns) can make room for
   them and wake them exactly when the thread is awake or about to be woken.
   */
  lemma RoomIffHeard(limits: Limits, m: Monitor, i: nat)
    requires MonitorSound(limits, m) && !m.sink.ended && !m.sink.closing && !m.owedAll && i < |m.sink.waiting|
    requires m.sink.queue != [] && forall k | 0 <= k < |m.sink.waiting| :: !CanAdmit(limits, m.sink, m.sink.waiting[k])
    ensures (exists es :: (forall e <- es :: Within(e))
                          && var m' := Events(limits, m, es);
                             m'.sink.waiting == m.sink.waiting && CanAdmit(limits, m'.sink, m.sink.waiting[i]) && !Asleep(m', i))
            <==> Heard(m)
  {
    hide Sound, CanAdmit, Events, Turns;
    var n := |m.sink.queue|;
    TurnsWithin(n);
    if !m.threadAsleep {
      TurnsMakeRoom(limits, m, i);
    } else if m.owed > 0 {
      var awake := Next(limits, m, Notify(Thread));
      NextSound(limits, m, Notify(Thread));
      TurnsMakeRoom(limits, awake, i);
      FirstThen(limits, m, Notify(Thread), Turns(n));
      var es := [Notify(Thread)] + Turns(n);
      assert forall e <- es :: Within(e);
      var m' := Events(limits, m, es);
      assert m'.sink.waiting == m.sink.waiting && CanAdmit(limits, m'.sink, m.sink.waiting[i]) && !Asleep(m', i);
    } else {
      assert Stuck(limits, m);
      forall es | forall e <- es :: Within(e) ensures !CanAdmit(limits, Events(limits, m, es).sink, m.sink.waiting[i]) {
        WithinHelpless(limits, m, es);
        StuckForever(limits, m, es);
        SameRoom(limits, m.sink, Events(limits, m, es).sink, m.sink.waiting[i]);
      }
    }
  }

  lemma TurnsMakeRoom(limits: Limits, m: Monitor, i: nat)
    requires MonitorSound(limits, m) && !m.threadAsleep && !m.sink.ended && i < |m.sink.waiting| && m.sink.queue != []
    ensures var m' := Events(limits, m, Turns(|m.sink.queue|));
            m'.sink.waiting == m.sink.waiting && CanAdmit(limits, m'.sink, m.sink.waiting[i]) && !Asleep(m', i)
  {
    hide Sound, CanAdmit, Events, Turns, Next;
    TurnsDrain(limits, m, |m.sink.queue|);
    EventsSound(limits, m, Turns(|m.sink.queue|));
    EmptyAdmits(limits, Events(limits, m, Turns(|m.sink.queue|)).sink, m.sink.waiting[i]);
  }

  lemma WithinHelpless(limits: Limits, m: Monitor, es: seq<Event>)
    requires forall e <- es :: Within(e)
    ensures HelplessRun(limits, m, es)
  {
    hide Events;
    forall n | 0 <= n < |es| ensures Helpless(limits, Events(limits, m, es[..n]), es[n]) {
      assert Within(es[n]);
    }
  }
}
