/**
 One replicated entity between the server and a client: which baseline the
 server takes differences from, which one the client finds for it, and that
 the two agree through every loss, reordering and change of replication mask.
 */
module BaselineRuns {
  import opened Wrappers
  import opened Bits
  import opened World
  import opened FrameLayouts
  import opened Records
  import opened DeltaRecords
  import opened BaselineRings

  const RETAINED := 64

  datatype Snapshot = Snapshot(frame: nat, data: Frame)

  datatype PendingSend = PendingSend(frame: nat, data: Frame, epoch: nat)

  datatype ServerEnd = ServerEnd(mask: BitString, baseline: Option<Snapshot>, epoch: nat, pending: seq<PendingSend>, newest: nat)

  /** `frame` is the last one received, zero before the first. */
  datatype ClientEnd = ClientEnd(baselines: Baselines, frame: nat)

  datatype Message = Message(frame: nat, full: bool, baseline: nat, bits: BitString)

  /** What a frame was sent as. */
  datatype Sending = Sending(data: Frame, mask: BitString, epoch: nat)

  /** `messages` and `acks` hold everything ever put on the network. */
  datatype System = System(
    server: ServerEnd, client: ClientEnd, messages: seq<Message>, acks: seq<nat>, sent: map<nat, Sending>, received: map<nat, Frame>)

  predicate Covers(wide: BitString, narrow: BitString) {
    forall i | 0 <= i < MASK :: i < |narrow| && narrow[i] ==> i < |wide| && wide[i]
  }

  /** `invalidate_entity_baseline`. */
  function Invalidated(s: ServerEnd): ServerEnd {
    s.(baseline := None, epoch := s.epoch + 1)
  }

  /** `refresh_replication_decision_if_due`: a component that is sent again needs a baseline both ends have. */
  function Decide(s: ServerEnd, mask: BitString): ServerEnd {
    var t := s.(mask := mask);
    if Covers(s.mask, mask) then t else Invalidated(t)
  }

  function Newest64(pending: seq<PendingSend>): seq<PendingSend> {
    if |pending| > RETAINED then pending[|pending| - RETAINED..] else pending
  }

  function Base(s: ServerEnd): Option<Frame> {
    match s.baseline case None => None case Some(b) => Some(b.data)
  }

  ghost predicate CanSend(a: Archetype, s: ServerEnd, frame: nat, data: Frame) {
    && frame > s.newest && Sendable(a, data, s.mask)
    && (s.baseline.Some? ==> Sendable(a, s.baseline.value.data, s.mask))
  }

  /** A record that fitted: written against the baseline, which a full record gives up. */
  ghost function Send(a: Archetype, s: ServerEnd, frame: nat, data: Frame): (ServerEnd, Message)
    requires CanSend(a, s, frame, data)
  {
    var (full, bits) := WriteRecord(a, data, Base(s), s.mask);
    var t := if full && s.baseline.Some? then Invalidated(s) else s;
    (t.(pending := Newest64(t.pending + [PendingSend(frame, data, t.epoch)]), newest := frame),
     Message(frame, full, if full || s.baseline.None? then 0 else s.baseline.value.frame, bits))
  }

  function FirstOf(pending: seq<PendingSend>, frame: nat): Option<PendingSend> {
    if pending == [] then None else if pending[0].frame == frame then Some(pending[0]) else FirstOf(pending[1..], frame)
  }

  function After(pending: seq<PendingSend>, frame: nat): seq<PendingSend> {
    if pending == [] then []
    else (if pending[0].frame > frame then [pending[0]] else []) + After(pending[1..], frame)
  }

  /** `acknowledge_entity`: a send of the present epoch becomes the baseline. */
  function Acknowledge(s: ServerEnd, frame: nat): ServerEnd {
    match FirstOf(s.pending, frame)
    case None => s
    case Some(p) =>
      s.(baseline := if p.epoch == s.epoch then Some(Snapshot(p.frame, p.data)) else s.baseline, pending := After(s.pending, frame))
  }

  /** `apply_upsert`, up to what is remembered: the client afterwards, and the decoded frame if it was accepted. */
  function Receive(a: Archetype, c: ClientEnd, m: Message): (ClientEnd, Option<Frame>)
    requires |a.tags| <= MASK
  {
    if m.frame <= c.frame then (c, None)
    else if m.full then
      match ReadRecord(a, true, Init(Sizes(a)), m.bits)
      case None => (c, None)
      case Some((d, _)) => (ClientEnd(Remember(c.baselines, m.frame, d), m.frame), Some(d))
    else if c.frame == 0 then (c, None)
    else
      match Find(c.baselines, m.baseline)
      case None => (c, None)
      case Some(b) =>
        match ReadRecord(a, false, b, m.bits)
        case None => (c, None)
        case Some((d, _)) => (ClientEnd(Remember(Protect(c.baselines, m.baseline), m.frame, d), m.frame), Some(d))
  }

  datatype Step = Decides(mask: BitString) | Sends(frame: nat, data: Frame) | Delivers(message: nat) | Acknowledged(ack: nat)

  function Begin(mask: BitString): System {
    System(ServerEnd(mask, None, 0, [], 0), ClientEnd(NoBaselines, 0), [], [], map[], map[])
  }

  /** Any message or acknowledgement may arrive next, again, or never; a step that is not possible changes nothing. */
  ghost function Next(a: Archetype, sys: System, step: Step): System
    requires |a.tags| <= MASK
  {
    match step
    case Decides(mask) => if |mask| != MASK then sys else sys.(server := Decide(sys.server, mask))
    case Sends(frame, data) =>
      if !CanSend(a, sys.server, frame, data) then sys
      else
        var (s, m) := Send(a, sys.server, frame, data);
        sys.(server := s, messages := sys.messages + [m], sent := sys.sent[frame := Sending(data, s.mask, s.epoch)])
    case Delivers(i) =>
      if i >= |sys.messages| then sys
      else
        var (c, d) := Receive(a, sys.client, sys.messages[i]);
        if d.None? then sys.(client := c)
        else
          var f := sys.messages[i].frame;
          sys.(client := c, acks := sys.acks + [f], received := sys.received[f := d.value])
    case Acknowledged(i) => if i >= |sys.acks| then sys else sys.(server := Acknowledge(sys.server, sys.acks[i]))
  }

  // -------------------------------------------------------------- invariant

  ghost predicate SendingSound(a: Archetype, s: ServerEnd, f: nat, x: Sending) {
    && 0 < f <= s.newest && Sendable(a, x.data, x.mask) && x.epoch <= s.epoch && (x.epoch == s.epoch ==> Covers(x.mask, s.mask))
  }

  ghost predicate ReceivedSound(a: Archetype, sent: map<nat, Sending>, f: nat, d: Frame) {
    f in sent && |sent[f].mask| == MASK && Shaped(Sizes(a), d) && Agree(a, d, sent[f].data, sent[f].mask)
  }

  ghost predicate MessageSound(a: Archetype, sys: System, m: Message) {
    && m.frame in sys.sent && Sendable(a, sys.sent[m.frame].data, sys.sent[m.frame].mask)
    && (var x := sys.sent[m.frame];
        if m.full then m.bits == WriteFull(a, x.data, x.mask, ChoosesList(a, x.data, x.mask))
        else
          && m.baseline in sys.sent && m.baseline in sys.received
          && (var y := sys.sent[m.baseline];
              && Sendable(a, y.data, y.mask) && Covers(y.mask, x.mask) && y.data.present == x.data.present
              && |a.ops| == |a.components| && |a.tags| <= |x.data.tags| && |a.tags| <= |y.data.tags|
              && m.bits == WriteDelta(a, x.data, y.data, x.mask)))
  }

  ghost predicate ServerSound(a: Archetype, sys: System) {
    && |sys.server.mask| == MASK
    && (forall f <- sys.sent :: SendingSound(a, sys.server, f, sys.sent[f]))
    && (forall i | 0 <= i < |sys.server.pending| ::
          var p := sys.server.pending[i]; p.frame in sys.sent && p.data == sys.sent[p.frame].data && p.epoch == sys.sent[p.frame].epoch)
    && (sys.server.baseline.Some? ==>
          var b := sys.server.baseline.value;
          b.frame in sys.sent && b.frame in sys.received && b.data == sys.sent[b.frame].data && Covers(sys.sent[b.frame].mask, sys.server.mask))
  }

  ghost predicate ClientSound(a: Archetype, sys: System) {
    && BaselineRings.Sound(sys.client.baselines, sys.client.frame, sys.received)
    && (sys.received != map[] ==> sys.client.frame > 0)
    && (forall f <- sys.received :: ReceivedSound(a, sys.sent, f, sys.received[f]))
    && (sys.client.baselines.referenced.Some? ==> Find(sys.client.baselines, sys.client.baselines.referenced.value).Some?)
    && (forall i | 0 <= i < |sys.acks| :: sys.acks[i] in sys.received)
  }

  /** What every run keeps. */
  ghost predicate SystemSound(a: Archetype, sys: System) {
    a.WellFormed() && ServerSound(a, sys) && ClientSound(a, sys) && forall i | 0 <= i < |sys.messages| :: MessageSound(a, sys, sys.messages[i])
  }

  lemma CoversItself(x: BitString)
    ensures Covers(x, x)
  {
  }

  lemma CoversTrans(x: BitString, y: BitString, z: BitString)
    requires Covers(x, y) && Covers(y, z)
    ensures Covers(x, z)
  {
  }

  lemma AgreeNarrower(a: Archetype, x: Frame, y: Frame, wide: BitString, narrow: BitString)
    requires |wide| == |narrow| == MASK && Agree(a, x, y, wide) && Covers(wide, narrow)
    ensures Agree(a, x, y, narrow)
  {
  }

  lemma DecideSound(a: Archetype, sys: System, mask: BitString)
    requires SystemSound(a, sys) && |mask| == MASK
    ensures SystemSound(a, Next(a, sys, Decides(mask)))
  {
    hide BaselineRings.Sound, Agree, WriteFull, WriteDelta, Sendable;
    var sys' := Next(a, sys, Decides(mask));
    forall f <- sys'.sent ensures SendingSound(a, sys'.server, f, sys'.sent[f]) {
      assert SendingSound(a, sys.server, f, sys.sent[f]);
      if Covers(sys.server.mask, mask) && sys.sent[f].epoch == sys.server.epoch {
        CoversTrans(sys.sent[f].mask, sys.server.mask, mask);
      }
    }
    if Covers(sys.server.mask, mask) && sys.server.baseline.Some? {
      CoversTrans(sys.sent[sys.server.baseline.value.frame].mask, sys.server.mask, mask);
    }
    forall i | 0 <= i < |sys'.messages| ensures MessageSound(a, sys', sys'.messages[i]) {
      assert MessageSound(a, sys, sys.messages[i]);
    }
  }

  lemma WellFormedTags(a: Archetype)
    requires a.WellFormed()
    ensures |a.tags| <= MASK && |a.ops| == |a.components|
  {
  }

  lemma SendMessageSound(a: Archetype, sys: System, frame: nat, data: Frame)
    requires SystemSound(a, sys) && CanSend(a, sys.server, frame, data)
    ensures |a.tags| <= MASK
    ensures MessageSound(a, Next(a, sys, Sends(frame, data)), Send(a, sys.server, frame, data).1)
  {
    hide WriteFull, WriteDelta, BaselineRings.Sound, Agree;
    WellFormedTags(a);
    if sys.server.baseline.Some? {
      var b := sys.server.baseline.value;
      assert SendingSound(a, sys.server, b.frame, sys.sent[b.frame]);
    }
  }

  lemma SendSound(a: Archetype, sys: System, frame: nat, data: Frame)
    requires SystemSound(a, sys) && CanSend(a, sys.server, frame, data)
    ensures |a.tags| <= MASK
    ensures SystemSound(a, Next(a, sys, Sends(frame, data)))
  {
    hide BaselineRings.Sound, Agree, WriteFull, WriteDelta, Sendable, Covers, WriteRecord, MessageSound, ReceivedSound;
    WellFormedTags(a);
    SendMessageSound(a, sys, frame, data);
    var sys' := Next(a, sys, Sends(frame, data));
    CoversItself(sys.server.mask);
    forall f <- sys'.sent ensures SendingSound(a, sys'.server, f, sys'.sent[f]) {
      if f != frame {
        assert SendingSound(a, sys.server, f, sys.sent[f]);
      }
    }
    forall f <- sys'.received ensures ReceivedSound(a, sys'.sent, f, sys'.received[f]) {
      SentEarlier(a, sys, frame, f);
      ReceivedStill(a, sys.sent, frame, sys'.sent[frame], f, sys.received[f]);
    }
    forall i | 0 <= i < |sys'.messages| ensures MessageSound(a, sys', sys'.messages[i]) {
      if i < |sys.messages| {
        MessageStill(a, sys, frame, data, i);
      }
    }
  }

  lemma SentEarlier(a: Archetype, sys: System, frame: nat, f: nat)
    requires SystemSound(a, sys) && frame > sys.server.newest
    ensures f in sys.sent ==> f < frame
    ensures f in sys.received ==> f in sys.sent && ReceivedSound(a, sys.sent, f, sys.received[f])
  {
    hide BaselineRings.Sound, Agree, Sendable, Covers, MessageSound;
    if f in sys.received {
      assert ReceivedSound(a, sys.sent, f, sys.received[f]);
    }
    if f in sys.sent {
      assert SendingSound(a, sys.server, f, sys.sent[f]);
    }
  }

  lemma ReceivedStill(a: Archetype, sent: map<nat, Sending>, frame: nat, x: Sending, f: nat, d: Frame)
    requires ReceivedSound(a, sent, f, d) && f != frame
    ensures ReceivedSound(a, sent[frame := x], f, d)
  {
    hide Agree;
  }

  lemma MessageStill(a: Archetype, sys: System, frame: nat, data: Frame, i: nat)
    requires SystemSound(a, sys) && CanSend(a, sys.server, frame, data) && i < |sys.messages|
    ensures |a.tags| <= MASK
    ensures MessageSound(a, Next(a, sys, Sends(frame, data)), sys.messages[i])
  {
    hide BaselineRings.Sound, Agree, WriteFull, WriteDelta, Sendable, Covers, WriteRecord, ReceivedSound, ServerSound, ClientSound;
    WellFormedTags(a);
    var m := sys.messages[i];
    assert MessageSound(a, sys, m);
    SentBefore(a, sys, frame, m.frame);
    if !m.full {
      SentBefore(a, sys, frame, m.baseline);
    }
  }

  lemma SentBefore(a: Archetype, sys: System, frame: nat, f: nat)
    requires SystemSound(a, sys) && frame > sys.server.newest && f in sys.sent
    ensures f < frame
  {
    hide BaselineRings.Sound, Agree, Sendable, Covers, MessageSound, ReceivedSound;
    assert SendingSound(a, sys.server, f, sys.sent[f]);
  }

  lemma FirstIn(pending: seq<PendingSend>, frame: nat)
    ensures FirstOf(pending, frame).Some? ==> FirstOf(pending, frame).value in pending && FirstOf(pending, frame).value.frame == frame
  {
  }

  lemma AfterIn(pending: seq<PendingSend>, frame: nat)
    ensures forall p <- After(pending, frame) :: p in pending
  {
  }

  lemma AcknowledgeSound(a: Archetype, sys: System, i: nat)
    requires SystemSound(a, sys)
    ensures |a.tags| <= MASK
    ensures SystemSound(a, Next(a, sys, Acknowledged(i)))
  {
    hide BaselineRings.Sound, Agree, WriteFull, WriteDelta, Sendable, Covers;
    WellFormedTags(a);
    if i < |sys.acks| {
      var sys' := Next(a, sys, Acknowledged(i));
      FirstIn(sys.server.pending, sys.acks[i]);
      AfterIn(sys.server.pending, sys.acks[i]);
      forall f <- sys'.sent ensures SendingSound(a, sys'.server, f, sys'.sent[f]) {
        assert SendingSound(a, sys.server, f, sys.sent[f]);
      }
      forall j | 0 <= j < |sys'.server.pending|
        ensures var q := sys'.server.pending[j]; q.frame in sys.sent && q.data == sys.sent[q.frame].data && q.epoch == sys.sent[q.frame].epoch
      {
        assert sys'.server.pending[j] in sys.server.pending;
      }
      var first := FirstOf(sys.server.pending, sys.acks[i]);
      if first.Some? && first.value.epoch == sys.server.epoch {
        assert SendingSound(a, sys.server, first.value.frame, sys.sent[first.value.frame]);
      }
      forall j | 0 <= j < |sys'.messages| ensures MessageSound(a, sys', sys'.messages[j]) {
        assert MessageSound(a, sys, sys.messages[j]);
      }
    }
  }

  /** A record arriving with its baseline found, or full, is decoded to what was sent under its mask; any other is refused. */
  lemma Arrives(a: Archetype, sys: System, m: Message)
    requires SystemSound(a, sys) && MessageSound(a, sys, m)
    ensures |a.tags| <= MASK
    ensures var (c, d) := Receive(a, sys.client, m);
            && (d.Some? <==> m.frame > sys.client.frame && (m.full || Find(sys.client.baselines, m.baseline).Some?))
            && (d.None? ==> c == sys.client)
            && (d.Some? ==>
                  && ReceivedSound(a, sys.sent, m.frame, d.value)
                  && c == ClientEnd(Remember(if m.full then sys.client.baselines else Protect(sys.client.baselines, m.baseline), m.frame, d.value), m.frame))
  {
    hide WriteFull, WriteDelta, ReadFull, ReadDelta, Agree, ReadRecord, Remember, Find, SendingSound, Uncovered;
    WellFormedTags(a);
    var x := sys.sent[m.frame];
    if m.full {
      FullArrives(a, x, m);
    } else if m.frame > sys.client.frame && Find(sys.client.baselines, m.baseline).Some? {
      FoundExactly(sys.client.baselines, sys.client.frame, sys.received, m.baseline);
      assert ReceivedSound(a, sys.sent, m.baseline, sys.received[m.baseline]);
      DeltaArrives(a, x, sys.sent[m.baseline], sys.received[m.baseline], m);
    }
  }

  lemma FullArrives(a: Archetype, x: Sending, m: Message)
    requires Sendable(a, x.data, x.mask) && |a.tags| <= MASK && m.full
    requires m.bits == WriteFull(a, x.data, x.mask, ChoosesList(a, x.data, x.mask))
    ensures var r := ReadRecord(a, true, Init(Sizes(a)), m.bits);
            r.Some? && Shaped(Sizes(a), r.value.0) && Agree(a, r.value.0, x.data, x.mask)
  {
    hide WriteFull, ReadFull, ReadDelta, Agree, ReadRecord, ChoosesList;
    InitGet(Sizes(a), 0);
    assert m.bits + [] == m.bits;
    RecordDelivers(a, x.data, None, Init(Sizes(a)), x.mask, []);
  }

  lemma DeltaArrives(a: Archetype, x: Sending, y: Sending, received: Frame, m: Message)
    requires Sendable(a, x.data, x.mask) && Sendable(a, y.data, y.mask) && |a.tags| <= MASK && |a.ops| == |a.components| && !m.full
    requires Covers(y.mask, x.mask) && y.data.present == x.data.present && Shaped(Sizes(a), received) && Agree(a, received, y.data, y.mask)
    requires |a.tags| <= |x.data.tags| && |a.tags| <= |y.data.tags| && m.bits == WriteDelta(a, x.data, y.data, x.mask)
    ensures var r := ReadRecord(a, false, received, m.bits);
            r.Some? && Shaped(Sizes(a), r.value.0) && Agree(a, r.value.0, x.data, x.mask)
  {
    hide WriteDelta, ReadFull, ReadDelta, Agree, ReadRecord;
    AgreeNarrower(a, received, y.data, y.mask, x.mask);
    assert m.bits + [] == m.bits;
    RecordDelivers(a, x.data, Some(y.data), received, x.mask, []);
  }

  lemma ProtectSound(b: Baselines, newest: nat, log: map<nat, Frame>, frame: nat)
    requires BaselineRings.Sound(b, newest, log)
    ensures BaselineRings.Sound(Protect(b, frame), newest, log)
  {
    hide Uncovered;
  }

  lemma ReferencedFound(b: Baselines, newest: nat, log: map<nat, Frame>, frame: nat, data: Frame)
    requires BaselineRings.Sound(b, newest, log) && frame > newest
    requires b.referenced.Some? ==> Find(b, b.referenced.value).Some?
    ensures var b' := Remember(b, frame, data); b'.referenced.Some? ==> Find(b', b'.referenced.value).Some?
  {
    hide Uncovered;
    if b.referenced.Some? {
      RememberKeepsReferenced(b, newest, log, frame, data, b.referenced.value);
    }
  }

  lemma DeliverSound(a: Archetype, sys: System, i: nat)
    requires SystemSound(a, sys)
    ensures |a.tags| <= MASK
    ensures SystemSound(a, Next(a, sys, Delivers(i)))
  {
    hide BaselineRings.Sound, Agree, WriteFull, WriteDelta, Sendable, Covers, Receive, Remember, Find, SendingSound;
    WellFormedTags(a);
    if i < |sys.messages| {
      var m := sys.messages[i];
      Arrives(a, sys, m);
      var (c, d) := Receive(a, sys.client, m);
      var sys' := Next(a, sys, Delivers(i));
      if d.Some? {
        var b := if m.full then sys.client.baselines else Protect(sys.client.baselines, m.baseline);
        if !m.full {
          ProtectSound(sys.client.baselines, sys.client.frame, sys.received, m.baseline);
          SameFind(sys.client.baselines, m.baseline);
        }
        RememberSound(b, sys.client.frame, sys.received, m.frame, d.value);
        ReferencedFound(b, sys.client.frame, sys.received, m.frame, d.value);
        forall j | 0 <= j < |sys'.messages| ensures MessageSound(a, sys', sys'.messages[j]) {
          assert MessageSound(a, sys, sys.messages[j]);
        }
      } else {
        assert sys' == sys;
      }
    }
  }

  lemma SameFind(b: Baselines, frame: nat)
    ensures Find(Protect(b, frame), frame) == Find(b, frame)
  {
  }

  /** Every step keeps the two ends in agreement. */
  lemma StepSound(a: Archetype, sys: System, step: Step)
    requires SystemSound(a, sys)
    ensures |a.tags| <= MASK
    ensures SystemSound(a, Next(a, sys, step))
  {
    hide SystemSound, Send, Decide, Acknowledge, Receive;
    WellFormedTags(a) by { SoundArchetype(a, sys); }
    match step
    case Decides(mask) => if |mask| == MASK { DecideSound(a, sys, mask); }
    case Sends(frame, data) => if CanSend(a, sys.server, frame, data) { SendSound(a, sys, frame, data); }
    case Delivers(i) => DeliverSound(a, sys, i);
    case Acknowledged(i) => AcknowledgeSound(a, sys, i);
  }

  lemma SoundArchetype(a: Archetype, sys: System)
    requires SystemSound(a, sys)
    ensures a.WellFormed()
  {
  }

  ghost function Run(a: Archetype, sys: System, steps: seq<Step>): System
    requires |a.tags| <= MASK
  {
    if steps == [] then sys else Next(a, Run(a, sys, steps[..|steps| - 1]), steps[|steps| - 1])
  }

  lemma {:induction false} RunSound(a: Archetype, sys: System, steps: seq<Step>)
    requires SystemSound(a, sys)
    ensures |a.tags| <= MASK
    ensures SystemSound(a, Run(a, sys, steps))
  {
    hide SystemSound, Next;
    SoundArchetype(a, sys);
    WellFormedTags(a);
    if steps != [] {
      RunSound(a, sys, steps[..|steps| - 1]);
      StepSound(a, Run(a, sys, steps[..|steps| - 1]), steps[|steps| - 1]);
    }
  }

  /**
   The main result, for every run: the client's record of the server's
   baseline agrees with it under the mask the server replicates now; every
   record on the network that is later than the last one received is accepted
   exactly when it is full or its baseline is still found, and then decodes to
   what was sent under its mask; and the baseline is found exactly while no
   later frame took its place, or it is the one set aside.
   */
  lemma BaselinesAgree(a: Archetype, mask: BitString, steps: seq<Step>)
    requires a.WellFormed() && |mask| == MASK
    ensures |a.tags| <= MASK
    ensures var sys := Run(a, Begin(mask), steps);
            && |sys.server.mask| == MASK
            && (sys.server.baseline.Some? ==>
                  var b := sys.server.baseline.value;
                  && b.frame in sys.received && Agree(a, sys.received[b.frame], b.data, sys.server.mask)
                  && (Find(sys.client.baselines, b.frame).Some? ==> Find(sys.client.baselines, b.frame) == Some(sys.received[b.frame]))
                  && (Find(sys.client.baselines, b.frame).Some? <==>
                        Uncovered(sys.received, b.frame)
                        || (sys.client.baselines.pinned.valid && sys.client.baselines.pinned.frame == b.frame)))
            && (forall m <- sys.messages | m.frame > sys.client.frame ::
                  var d := Receive(a, sys.client, m).1;
                  && (d.Some? <==> m.full || Find(sys.client.baselines, m.baseline).Some?)
                  && (d.Some? ==> ReceivedSound(a, sys.sent, m.frame, d.value)))
  {
    hide Run, Receive, ReceivedSound, BaselineRings.Sound, Find, Uncovered, SendingSound;
    BeginSound(a, mask);
    RunSound(a, Begin(mask), steps);
    var sys := Run(a, Begin(mask), steps);
    if sys.server.baseline.Some? {
      BaselineAgrees(a, sys);
      FoundExactly(sys.client.baselines, sys.client.frame, sys.received, sys.server.baseline.value.frame);
    }
    forall m <- sys.messages | m.frame > sys.client.frame
      ensures var d := Receive(a, sys.client, m).1;
              && (d.Some? <==> m.full || Find(sys.client.baselines, m.baseline).Some?)
              && (d.Some? ==> ReceivedSound(a, sys.sent, m.frame, d.value))
    {
      Arrives(a, sys, m);
    }
  }

  lemma BeginSound(a: Archetype, mask: BitString)
    requires a.WellFormed() && |mask| == MASK
    ensures SystemSound(a, Begin(mask))
  {
  }

  lemma BaselineAgrees(a: Archetype, sys: System)
    requires SystemSound(a, sys) && sys.server.baseline.Some?
    ensures var b := sys.server.baseline.value;
            b.frame in sys.received && |sys.server.mask| == MASK && Agree(a, sys.received[b.frame], b.data, sys.server.mask)
  {
    hide Agree, MessageSound, BaselineRings.Sound;
    var b := sys.server.baseline.value;
    assert ReceivedSound(a, sys.sent, b.frame, sys.received[b.frame]);
    AgreeNarrower(a, sys.received[b.frame], b.data, sys.sent[b.frame].mask, sys.server.mask);
  }

  // --------------------------------------------- where the baseline is lost

  lemma RunNext(a: Archetype, sys: System, steps: seq<Step>, step: Step)
    requires |a.tags| <= MASK
    ensures Run(a, sys, steps + [step]) == Next(a, Run(a, sys, steps), step)
  {
    assert (steps + [step])[..|steps|] == steps;
  }

  /** A frame sent in full and received, when neither end has a baseline in use. */
  lemma FullExchange(a: Archetype, sys: System, frame: nat, data: Frame)
    requires SystemSound(a, sys) && CanSend(a, sys.server, frame, data) && sys.server.baseline.None?
    requires sys.client.frame < frame && sys.client.baselines.referenced.None? && |sys.server.pending| < RETAINED
    ensures |a.tags| <= MASK
    ensures var sent := Next(a, sys, Sends(frame, data));
            var got := Next(a, sent, Delivers(|sys.messages|));
            && SystemSound(a, got) && got.client.frame == frame && got.acks == sys.acks + [frame]
            && got.client.baselines.referenced.None? && got.client.baselines.pinned == sys.client.baselines.pinned
            && got.server == sys.server.(pending := sys.server.pending + [PendingSend(frame, data, sys.server.epoch)], newest := frame)
            && got.received.Keys == sys.received.Keys + {frame} && |got.messages| == |sys.messages| + 1
  {
    hide SystemSound, Receive, WriteFull, BaselineRings.Sound, SendingSound, ReceivedSound;
    WellFormedTags(a) by { SoundArchetype(a, sys); }
    var sent := Next(a, sys, Sends(frame, data));
    StepSound(a, sys, Sends(frame, data));
    StepSound(a, sent, Delivers(|sys.messages|));
    var m := sent.messages[|sys.messages|];
    MessageIsSound(a, sent, |sys.messages|);
    Arrives(a, sent, m);
  }

  lemma MessageIsSound(a: Archetype, sys: System, i: nat)
    requires SystemSound(a, sys) && i < |sys.messages|
    ensures MessageSound(a, sys, sys.messages[i])
  {
  }

  /**
   Why an acknowledgement must not be a whole ring late: a run after which the
   server takes differences from a frame whose place in the client's ring has
   been taken.
   */
  lemma LateAcknowledgementStrands(a: Archetype, mask: BitString, data: Frame)
    requires Sendable(a, data, mask)
    ensures |a.tags| <= MASK
    ensures var steps := [Sends(1, data), Delivers(0), Sends(1 + HISTORY, data), Delivers(1), Acknowledged(0)];
            var sys := Run(a, Begin(mask), steps);
            && SystemSound(a, sys) && sys.server.baseline == Some(Snapshot(1, data))
            && Find(sys.client.baselines, 1).None? && sys.client.frame == 1 + HISTORY
  {
    hide Next, Run, SystemSound, Sendable;
    WellFormedTags(a) by { Archetypical(a, data, mask); }
    var s0 := Begin(mask);
    BeginSound(a, mask) by { Archetypical(a, data, mask); }
    FullExchange(a, s0, 1, data);
    var s1 := Next(a, s0, Sends(1, data));
    var s2 := Next(a, s1, Delivers(0));
    FullExchange(a, s2, 1 + HISTORY, data);
    var s3 := Next(a, s2, Sends(1 + HISTORY, data));
    var s4 := Next(a, s3, Delivers(1));
    var s5 := Next(a, s4, Acknowledged(0));
    StepSound(a, s4, Acknowledged(0));
    Strands(a, s4, s5, data);
    FiveSteps(a, s0, Sends(1, data), Delivers(0), Sends(1 + HISTORY, data), Delivers(1), Acknowledged(0));
  }

  lemma FiveSteps(a: Archetype, sys: System, v: Step, w: Step, x: Step, y: Step, z: Step)
    requires |a.tags| <= MASK
    ensures Run(a, sys, [v, w, x, y, z]) == Next(a, Next(a, Next(a, Next(a, Next(a, sys, v), w), x), y), z)
  {
    hide Next, Run;
    NoStep(a, sys);
    RunNext(a, sys, [], v);
    assert [] + [v] == [v];
    RunNext(a, sys, [v], w);
    assert [v] + [w] == [v, w];
    RunNext(a, sys, [v, w], x);
    assert [v, w] + [x] == [v, w, x];
    RunNext(a, sys, [v, w, x], y);
    assert [v, w, x] + [y] == [v, w, x, y];
    RunNext(a, sys, [v, w, x, y], z);
    assert [v, w, x, y] + [z] == [v, w, x, y, z];
  }

  lemma NoStep(a: Archetype, sys: System)
    requires |a.tags| <= MASK
    ensures Run(a, sys, []) == sys
  {
  }

  lemma Archetypical(a: Archetype, data: Frame, mask: BitString)
    requires Sendable(a, data, mask)
    ensures a.WellFormed() && |mask| == MASK
  {
  }

  lemma Strands(a: Archetype, s4: System, s5: System, data: Frame)
    requires |a.tags| <= MASK && SystemSound(a, s4) && s5 == Next(a, s4, Acknowledged(0)) && s4.acks == [1, 1 + HISTORY]
    requires s4.server.pending == [PendingSend(1, data, s4.server.epoch), PendingSend(1 + HISTORY, data, s4.server.epoch)]
    requires s4.received.Keys == {1, 1 + HISTORY} && !s4.client.baselines.pinned.valid
    ensures s5.server.baseline == Some(Snapshot(1, data)) && Find(s5.client.baselines, 1).None? && s5.client == s4.client
  {
    hide MessageSound, SendingSound, ReceivedSound, BaselineRings.Sound;
    FoundExactly(s4.client.baselines, s4.client.frame, s4.received, 1);
    assert 1 + HISTORY in s4.received && Place(1 + HISTORY) == Place(1);
  }

  /** A delta against the server's baseline, or the arrival of anything: neither an acknowledgement nor a new mask. */
  ghost predicate Rescueless(sys: System, step: Step) {
    match step
    case Sends(_, data) => sys.server.baseline.Some? && data.present == sys.server.baseline.value.data.present
    case Delivers(_) => true
    case _ => false
  }

  /** Such a step leaves a lost baseline lost, and every difference from it is refused. */
  lemma StaysStranded(a: Archetype, sys: System, step: Step)
    requires SystemSound(a, sys) && sys.server.baseline.Some? && Find(sys.client.baselines, sys.server.baseline.value.frame).None?
    requires Rescueless(sys, step)
    ensures |a.tags| <= MASK
    ensures var sys' := Next(a, sys, step);
            && SystemSound(a, sys') && sys'.server.baseline == sys.server.baseline
            && Find(sys'.client.baselines, sys.server.baseline.value.frame).None?
            && (forall m <- sys'.messages | !m.full && m.baseline == sys.server.baseline.value.frame ::
                  Receive(a, sys'.client, m) == (sys'.client, None))
  {
    hide SystemSound, MessageSound, SendingSound, ReceivedSound, Receive, WriteDelta, WriteFull, BaselineRings.Sound, Uncovered, Sendable;
    WellFormedTags(a) by { SoundArchetype(a, sys); }
    StepSound(a, sys, step);
    var sys' := Next(a, sys, step);
    var f := sys.server.baseline.value.frame;
    BaselineAgrees(a, sys);
    if step.Delivers? && step.message < |sys.messages| {
      var m := sys.messages[step.message];
      MessageIsSound(a, sys, step.message);
      Arrives(a, sys, m);
      if Receive(a, sys.client, m).1.Some? {
        LostStays(a, sys, if m.full then sys.client.baselines else Protect(sys.client.baselines, m.baseline), m.frame, sys'.received[m.frame], f);
      }
    }
    forall m <- sys'.messages | !m.full && m.baseline == f ensures Receive(a, sys'.client, m) == (sys'.client, None) {
      var i :| 0 <= i < |sys'.messages| && sys'.messages[i] == m;
      MessageIsSound(a, sys', i);
      Arrives(a, sys', m);
    }
  }

  lemma LostStays(a: Archetype, sys: System, b: Baselines, frame: nat, data: Frame, f: nat)
    requires SystemSound(a, sys) && b == sys.client.baselines.(referenced := b.referenced) && frame > sys.client.frame
    requires f in sys.received && Find(sys.client.baselines, f).None?
    ensures Find(Remember(b, frame, data), f).None?
  {
    hide MessageSound, SendingSound, ReceivedSound, Uncovered;
    assert BaselineRings.Sound(sys.client.baselines, sys.client.frame, sys.received);
    assert f <= sys.client.frame;
  }

  ghost predicate RescuelessRun(a: Archetype, sys: System, steps: seq<Step>)
    requires |a.tags| <= MASK
  {
    forall n | 0 <= n < |steps| :: Rescueless(Run(a, sys, steps[..n]), steps[n])
  }

  /** So nothing but an acknowledgement, a mask or a change of presence helps, however long the run. */
  lemma {:induction false} NeverRescued(a: Archetype, sys: System, steps: seq<Step>)
    requires SystemSound(a, sys) && sys.server.baseline.Some? && Find(sys.client.baselines, sys.server.baseline.value.frame).None?
    requires |a.tags| <= MASK && RescuelessRun(a, sys, steps)
    ensures var sys' := Run(a, sys, steps);
            && SystemSound(a, sys') && sys'.server.baseline == sys.server.baseline
            && Find(sys'.client.baselines, sys.server.baseline.value.frame).None?
            && (steps != [] ==> forall m <- sys'.messages | !m.full && m.baseline == sys.server.baseline.value.frame ::
                  Receive(a, sys'.client, m) == (sys'.client, None))
  {
    hide SystemSound, Next, Receive, Rescueless, Find;
    if steps != [] {
      var init := steps[..|steps| - 1];
      assert forall n | 0 <= n < |init| :: init[..n] == steps[..n] && init[n] == steps[n];
      NeverRescued(a, sys, init);
      assert Rescueless(Run(a, sys, steps[..|steps| - 1]), steps[|steps| - 1]);
      StaysStranded(a, Run(a, sys, init), steps[|steps| - 1]);
    }
  }
}
