/** Runs of a buffered entity: updates arriving, frames being filled in between, frames being shown in any order. */
module BufferedRuns {
  import opened Wrappers
  import opened Bits
  import opened World
  import opened FrameLayouts
  import opened BufferedApplies

  /** `blend` stands for the components' interpolation; `smooth` says which components use it. */
  datatype Config = Config(sizes: seq<nat>, tags: nat, smooth: seq<bool>, blend: (nat, Bytes, Bytes, real) -> Bytes, capacity: nat) {
    ghost predicate WellFormed() {
      && |sizes| <= MAX_COMPONENTS && |smooth| == |sizes| && tags <= MASK && capacity > 0
      && forall i, x, y, alpha | 0 <= i < |sizes| && |x| == |y| == sizes[i] :: |blend(i, x, y, alpha)| == sizes[i]
    }
  }

  /** `written` remembers every sample ever written, for the statements below. */
  datatype Buffer = Buffer(entity: Entity, ring: seq<Option<Sample>>, baseline: Frame, frame: nat, written: map<nat, Sample>)

  const Cleared := Frame(Clear(), Clear(), [])
  const NoBuffer := Buffer(NoEntity, [], Cleared, 0, map[])

  function View(ring: seq<Option<Sample>>, frame: nat): Option<Sample> {
    if ring != [] && ring[frame % |ring|].Some? && ring[frame % |ring|].value.frame == frame then ring[frame % |ring|] else None
  }

  // ----------------------------------------------------------------- filling

  /** One component of a frame between two updates. */
  function BetweenValue(cfg: Config, from: Frame, to: Option<Frame>, alpha: real, i: nat): Option<Bytes>
    requires i < |cfg.sizes| == |cfg.smooth|
  {
    match Get(cfg.sizes, from, i)
    case None => None
    case Some(x) =>
      if to.Some? && Get(cfg.sizes, to.value, i).Some? && cfg.smooth[i]
      then Some(cfg.blend(i, x, Get(cfg.sizes, to.value, i).value, alpha)) else Some(x)
  }

  /** A frame between two updates: the earlier one's tags and components, the smooth ones blended. */
  function Between(cfg: Config, from: Frame, to: Option<Frame>, alpha: real, count: nat): (f: Frame)
    requires cfg.WellFormed() && count <= |cfg.sizes| && |from.tags| == MASK
    ensures Shaped(cfg.sizes, f) && f.tags == from.tags
    ensures forall i: nat :: Get(cfg.sizes, f, i) == if i < count then BetweenValue(cfg, from, to, alpha, i) else None
  {
    if count == 0 then
      var f := Init(cfg.sizes).(tags := from.tags);
      assert forall i: nat :: Get(cfg.sizes, f, i) == None;
      f
    else
      var f := Between(cfg, from, to, alpha, count - 1);
      match BetweenValue(cfg, from, to, alpha, count - 1)
      case None => f
      case Some(value) =>
        GetSize(cfg, from, count - 1);
        if to.Some? then GetSize(cfg, to.value, count - 1); PutAll(cfg.sizes, f, count - 1, value); Put(cfg.sizes, f, count - 1, value)
        else PutAll(cfg.sizes, f, count - 1, value); Put(cfg.sizes, f, count - 1, value)
  }

  lemma GetSize(cfg: Config, f: Frame, i: nat)
    requires i < |cfg.sizes|
    ensures Get(cfg.sizes, f, i).Some? ==> |Get(cfg.sizes, f, i).value| == cfg.sizes[i]
  {
  }

  lemma PutAll(sizes: seq<nat>, f: Frame, i: nat, value: Bytes)
    requires Shaped(sizes, f) && i < |sizes| && |value| == sizes[i]
    ensures var g := Put(sizes, f, i, value);
            Shaped(sizes, g) && g.tags == f.tags && forall j: nat :: Get(sizes, g, j) == if j == i then Some(value) else Get(sizes, f, j)
  {
    forall j: nat ensures Get(sizes, Put(sizes, f, i, value), j) == if j == i then Some(value) else Get(sizes, f, j) {
      PutGet(sizes, f, i, value, j);
    }
    PutGet(sizes, f, i, value, i);
  }

  function Grown(cfg: Config, ring: seq<Option<Sample>>): seq<Option<Sample>> {
    if ring == [] then seq(cfg.capacity, _ => None) else ring
  }

  /** What is written for a frame: a blank, or its content with what changed since the frame before. */
  function NewSample(cfg: Config, grown: seq<Option<Sample>>, frame: nat, present: bool, data: Frame): (s: Sample)
    requires cfg.WellFormed() && frame > 0 && |grown| == cfg.capacity
    ensures s.frame == frame && s.present == present && (present ==> s.data == data)
  {
    var blank := Sample(frame, false, Clear(), Init(cfg.sizes));
    var before := View(grown[frame % cfg.capacity := Some(blank)], frame - 1);
    if !present then blank
    else Sample(frame, true, if before.Some? && before.value.present then Changed(cfg.sizes, before.value.data, data) else data.present, data)
  }

  /** `write_buffered_frame` once its content is known. */
  function Write(cfg: Config, b: Buffer, frame: nat, present: bool, data: Frame): Buffer
    requires cfg.WellFormed() && frame > 0 && (b.ring == [] || |b.ring| == cfg.capacity)
  {
    var grown := Grown(cfg, b.ring);
    var sample := NewSample(cfg, grown, frame, present, data);
    b.(ring := grown[frame % cfg.capacity := Some(sample)], written := b.written[frame := sample])
  }

  /** What `fill_buffered_frames` puts at `current` on the way to `frame`. */
  function Content(cfg: Config, from: Frame, fromFrame: nat, current: nat, frame: nat, decoded: Option<Frame>): Frame
    requires cfg.WellFormed() && |from.tags| == MASK && (fromFrame == 0 || fromFrame < frame)
  {
    if current == frame && decoded.Some? then decoded.value
    else if fromFrame == 0 then Init(cfg.sizes)
    else Between(cfg, from, decoded, (current - fromFrame) as real / (frame - fromFrame) as real, |cfg.sizes|)
  }

  function FillFrom(cfg: Config, b: Buffer, fromPresent: bool, current: nat, frame: nat, decoded: Option<Frame>): (b': Buffer)
    requires cfg.WellFormed() && 0 < current && (b.ring == [] || |b.ring| == cfg.capacity)
    requires |b.baseline.tags| == MASK && (b.frame == 0 || b.frame < frame)
    decreases frame + 1 - current
  {
    if current > frame then b
    else
      var present := if current == frame then decoded.Some? else fromPresent;
      FillFrom(cfg, Write(cfg, b, current, present, Content(cfg, b.baseline, b.frame, current, frame, decoded)),
               fromPresent, current + 1, frame, decoded)
  }

  predicate AnyPresent(f: Frame) {
    exists p <- f.present :: p
  }

  /** `fill_buffered_frames`; a missing `decoded` is the entity going away. */
  function Fill(cfg: Config, b: Buffer, frame: nat, decoded: Option<Frame>): (Buffer, bool)
    requires cfg.WellFormed() && 0 < frame && (b.ring == [] || |b.ring| == cfg.capacity) && |b.baseline.tags| == MASK
  {
    if b.frame != 0 && frame <= b.frame then (b, false)
    else
      var fromPresent := b.entity.local.Some? || (b.frame != 0 && AnyPresent(b.baseline));
      (FillFrom(cfg, b, fromPresent, if b.frame != 0 then b.frame + 1 else frame, frame, decoded), true)
  }

  /**
   An update for a buffered entity: filling, then recording the new baseline.
   `marks` says whether the update also records the applied components, as
   `record_authoritative_present` and `record_authoritative_absent` do.
   */
  function Receive(cfg: Config, b: Buffer, frame: nat, decoded: Option<Frame>, marks: bool): Buffer
    requires cfg.WellFormed() && 0 < frame && (b.ring == [] || |b.ring| == cfg.capacity) && |b.baseline.tags| == MASK
  {
    var (filled, ok) := Fill(cfg, b, frame, decoded);
    if !ok then b
    else
      var baseline := if decoded.Some? then decoded.value else Cleared;
      filled.(baseline := baseline, frame := frame,
              entity := if marks then filled.entity.(appliedMask := baseline.present) else filled.entity)
  }

  /** Showing one buffered frame; nothing when the buffer does not have it. */
  function Show(cfg: Config, b: Buffer, frame: nat): Buffer
    requires cfg.WellFormed() && Sound(cfg, b)
  {
    match View(b.ring, frame)
    case None => b
    case Some(s) => b.(entity := Apply(cfg.sizes, cfg.tags, b.entity, s))
  }

  // ------------------------------------------------------------- correctness

  predicate SampleSound(cfg: Config, written: map<nat, Sample>, g: nat, s: Sample) {
    && 0 < g == s.frame
    && (s.present ==> Shaped(cfg.sizes, s.data) && |s.mask| == MASK
                      && (s.mask == s.data.present
                          || (g - 1 in written && written[g - 1].present && s.mask == Changed(cfg.sizes, written[g - 1].data, s.data))))
  }

  /** The entity shows at least the sample: all its components with their bytes, perhaps stale ones beside them. */
  ghost predicate Covers(cfg: Config, e: Entity, s: Sample)
    requires cfg.WellFormed()
  {
    if !s.present then e.local.None?
    else
      && Shaped(cfg.sizes, s.data) && e.local.Some? && e.local.value.tags == s.data.tags[..cfg.tags]
      && (forall i <- e.local.value.components :: i < |cfg.sizes|)
      && (forall i: nat | Get(cfg.sizes, s.data, i).Some? ::
            i in e.local.value.components && e.local.value.components[i] == Get(cfg.sizes, s.data, i).value)
  }

  /** What every run keeps. */
  predicate RingSound(cfg: Config, b: Buffer) {
    && (b.ring == [] || |b.ring| == cfg.capacity) && |b.entity.appliedMask| == |b.baseline.tags| == |b.baseline.present| == MASK
    && (forall i | 0 <= i < |b.ring| && b.ring[i].Some? ::
          b.ring[i].value.frame % cfg.capacity == i && b.ring[i].value.frame in b.written && b.written[b.ring[i].value.frame] == b.ring[i].value)
    && (forall g <- b.written :: g <= b.frame && SampleSound(cfg, b.written, g, b.written[g]))
  }

  ghost predicate Sound(cfg: Config, b: Buffer) {
    && cfg.WellFormed() && cfg.capacity > 0 && RingSound(cfg, b)
    && (if b.entity.lastApplied == 0 then b.entity.local.None?
        else b.entity.lastApplied in b.written && Covers(cfg, b.entity, b.written[b.entity.lastApplied]))
  }

  /** The entity shows exactly the sample, and is recorded as showing it. */
  ghost predicate ShowsExactly(cfg: Config, e: Entity, s: Sample)
    requires cfg.WellFormed()
  {
    if !s.present then e.local.None? && e.appliedMask == Clear()
    else Shaped(cfg.sizes, s.data) && e.local == Some(Whole(cfg.sizes, cfg.tags, s.data)) && e.appliedMask == s.data.present
  }

  ghost predicate Exact(cfg: Config, b: Buffer)
    requires Sound(cfg, b)
  {
    if b.entity.lastApplied == 0 then b.entity == NoEntity
    else ShowsExactly(cfg, b.entity, b.written[b.entity.lastApplied])
  }

  lemma ViewIsWritten(cfg: Config, b: Buffer, frame: nat)
    requires cfg.WellFormed() && RingSound(cfg, b) && View(b.ring, frame).Some?
    ensures frame in b.written && View(b.ring, frame) == Some(b.written[frame])
  {
  }

  lemma WriteSound(cfg: Config, b: Buffer, frame: nat, present: bool, data: Frame)
    requires cfg.WellFormed() && RingSound(cfg, b.(frame := frame)) && frame > 0 && frame !in b.written
    requires present ==> Shaped(cfg.sizes, data)
    ensures RingSound(cfg, Write(cfg, b, frame, present, data).(frame := frame))
    ensures var b' := Write(cfg, b, frame, present, data);
            && b' == b.(ring := b'.ring, written := b'.written) && (forall g <- b.written :: g in b'.written && b'.written[g] == b.written[g])
            && b'.written[frame].present == present && (present ==> b'.written[frame].data == data) && View(b'.ring, frame) == Some(b'.written[frame])
            && b'.written.Keys == b.written.Keys + {frame}
  {
    assert cfg.capacity > 0;
    hide NewSample, SampleSound, Config.WellFormed;
    var b' := Write(cfg, b, frame, present, data);
    var sample := NewSample(cfg, Grown(cfg, b.ring), frame, present, data);
    NewSampleSound(cfg, b, frame, present, data);
    forall g <- b'.written ensures SampleSound(cfg, b'.written, g, b'.written[g]) {
      if g != frame {
        assert SampleSound(cfg, b.written, g, b.written[g]);
        SampleStill(cfg, b.written, frame, sample, g);
      }
    }
  }

  lemma NewSampleSound(cfg: Config, b: Buffer, frame: nat, present: bool, data: Frame)
    requires cfg.WellFormed() && RingSound(cfg, b.(frame := frame)) && frame > 0 && frame !in b.written
    requires present ==> Shaped(cfg.sizes, data)
    ensures var s := NewSample(cfg, Grown(cfg, b.ring), frame, present, data); SampleSound(cfg, b.written[frame := s], frame, s)
  {
    hide Changed, Get, Init;
    var grown := Grown(cfg, b.ring);
    var before := View(grown[frame % cfg.capacity := Some(Sample(frame, false, Clear(), Init(cfg.sizes)))], frame - 1);
    if before.Some? {
      assert before == View(b.ring, frame - 1);
      ViewIsWritten(cfg, b.(frame := frame), frame - 1);
    }
  }

  lemma SampleStill(cfg: Config, written: map<nat, Sample>, frame: nat, sample: Sample, g: nat)
    requires frame !in written && g in written && SampleSound(cfg, written, g, written[g])
    ensures SampleSound(cfg, written[frame := sample], g, written[g])
  {
    hide Changed;
  }

  lemma ContentShaped(cfg: Config, from: Frame, fromFrame: nat, current: nat, frame: nat, decoded: Option<Frame>)
    requires cfg.WellFormed() && |from.tags| == MASK && (fromFrame == 0 || fromFrame < frame)
    requires decoded.Some? ==> Shaped(cfg.sizes, decoded.value)
    ensures Shaped(cfg.sizes, Content(cfg, from, fromFrame, current, frame, decoded))
  {
    InitGet(cfg.sizes, 0);
  }

  /** Filling writes every frame up to the update's, each once, and keeps what was written before. */
  lemma {:induction false} FillFromSound(cfg: Config, b: Buffer, fromPresent: bool, current: nat, frame: nat, decoded: Option<Frame>)
    requires cfg.WellFormed() && RingSound(cfg, b.(frame := frame)) && 0 < current <= frame + 1 && (b.frame == 0 || b.frame < frame)
    requires forall g <- b.written :: g < current
    requires decoded.Some? ==> Shaped(cfg.sizes, decoded.value)
    ensures var b' := FillFrom(cfg, b, fromPresent, current, frame, decoded);
            && RingSound(cfg, b'.(frame := frame)) && b' == b.(ring := b'.ring, written := b'.written)
            && (forall g <- b.written :: g in b'.written && b'.written[g] == b.written[g])
            && (forall g | current <= g <= frame ::
                  && g in b'.written && b'.written[g].present == (if g == frame then decoded.Some? else fromPresent)
                  && (b'.written[g].present ==> b'.written[g].data == Content(cfg, b.baseline, b.frame, g, frame, decoded)))
            && (current <= frame ==> View(b'.ring, frame) == Some(b'.written[frame]))
    decreases frame + 1 - current
  {
    hide Content, Shaped, Write, View, SampleSound;
    if current <= frame {
      var present := if current == frame then decoded.Some? else fromPresent;
      var data := Content(cfg, b.baseline, b.frame, current, frame, decoded);
      ContentShaped(cfg, b.baseline, b.frame, current, frame, decoded);
      WriteHere(cfg, b, current, frame, present, data);
      FillFromSound(cfg, Write(cfg, b, current, present, data), fromPresent, current + 1, frame, decoded);
    }
  }

  lemma WriteHere(cfg: Config, b: Buffer, current: nat, frame: nat, present: bool, data: Frame)
    requires cfg.WellFormed() && RingSound(cfg, b.(frame := frame)) && 0 < current <= frame && Shaped(cfg.sizes, data)
    requires forall g <- b.written :: g < current
    ensures var b' := Write(cfg, b, current, present, data);
            && RingSound(cfg, b'.(frame := frame)) && b' == b.(ring := b'.ring, written := b'.written)
            && (forall g <- b.written :: g in b'.written && b'.written[g] == b.written[g])
            && (forall g <- b'.written :: g < current + 1)
            && current in b'.written && b'.written[current].present == present && (present ==> b'.written[current].data == data)
            && View(b'.ring, current) == Some(b'.written[current])
  {
    hide Shaped, SampleSound;
    WriteSound(cfg, b.(frame := current), current, present, data);
    var b' := Write(cfg, b, current, present, data);
    assert Write(cfg, b.(frame := current), current, present, data) == b'.(frame := current);
  }

  /**
   Receiving an update: the buffer has every frame from the last update's to
   this one's, this one exactly as decoded, and shows what it showed.
   */
  lemma ReceiveSound(cfg: Config, b: Buffer, frame: nat, decoded: Option<Frame>, marks: bool)
    requires Sound(cfg, b) && frame > 0 && (decoded.Some? ==> Shaped(cfg.sizes, decoded.value))
    ensures var b' := Receive(cfg, b, frame, decoded, marks);
            && Sound(cfg, b') && b'.entity.local == b.entity.local && b'.entity.lastApplied == b.entity.lastApplied
            && (forall g <- b.written :: g in b'.written && b'.written[g] == b.written[g])
            && (!marks ==> b'.entity == b.entity)
            && (if b.frame != 0 && frame <= b.frame then b' == b
                else && frame in b'.written && View(b'.ring, frame) == Some(b'.written[frame])
                     && b'.written[frame].present == decoded.Some? && (decoded.Some? ==> b'.written[frame].data == decoded.value)
                     && (forall g | b.frame != 0 && b.frame < g < frame :: g in b'.written))
  {
    hide FillFrom, SampleSound, View, Covers, Between, Config.WellFormed, AnyPresent;
    if !(b.frame != 0 && frame <= b.frame) {
      var fromPresent := b.entity.local.Some? || (b.frame != 0 && AnyPresent(b.baseline));
      FillFromSound(cfg, b, fromPresent, if b.frame != 0 then b.frame + 1 else frame, frame, decoded);
      var b' := Receive(cfg, b, frame, decoded, marks);
      SameCover(cfg, b, b');
    }
  }

  lemma SameCover(cfg: Config, b: Buffer, b': Buffer)
    requires Sound(cfg, b) && b'.entity.local == b.entity.local && b'.entity.lastApplied == b.entity.lastApplied
    requires forall g <- b.written :: g in b'.written && b'.written[g] == b.written[g]
    ensures if b'.entity.lastApplied == 0 then b'.entity.local.None?
            else b'.entity.lastApplied in b'.written && Covers(cfg, b'.entity, b'.written[b'.entity.lastApplied])
  {
  }

  lemma WholeAt(cfg: Config, f: Frame, i: nat)
    requires cfg.WellFormed() && Shaped(cfg.sizes, f)
    ensures var w := Whole(cfg.sizes, cfg.tags, f).components;
            (i in w <==> i < |cfg.sizes| && Get(cfg.sizes, f, i).Some?) && (i in w ==> Some(w[i]) == Get(cfg.sizes, f, i))
  {
  }

  /** The mask an apply uses leaves out only what is already there. */
  lemma MaskLeavesOutShown(cfg: Config, b: Buffer, s: Sample, i: nat)
    requires Sound(cfg, b) && View(b.ring, s.frame) == Some(s) && s.present && i < |cfg.sizes| && s.data.present[i]
    requires b.entity.lastApplied + 1 == s.frame && !s.mask[i]
    ensures b.entity.local.Some? && i in b.entity.local.value.components
            && Some(b.entity.local.value.components[i]) == Get(cfg.sizes, s.data, i)
  {
    ViewIsWritten(cfg, b, s.frame);
    assert SampleSound(cfg, b.written, s.frame, s);
    PresentGets(cfg.sizes, s.data, i);
    var before := b.written[s.frame - 1];
    assert Get(cfg.sizes, before.data, i) == Get(cfg.sizes, s.data, i);
  }

  /**
   However updates and shown frames alternate, showing a frame shows all of
   its components with their bytes and its tags; it shows nothing else exactly
   when no component it lacks is left over unrecorded.
   */
  lemma ShowCovers(cfg: Config, b: Buffer, frame: nat)
    requires Sound(cfg, b) && View(b.ring, frame).Some?
    ensures var s, b' := View(b.ring, frame).value, Show(cfg, b, frame);
            && Sound(cfg, b') && Covers(cfg, b'.entity, s) && b'.entity.lastApplied == frame && b' == b.(entity := b'.entity)
            && (s.present ==>
                  (b'.entity.local == Some(Whole(cfg.sizes, cfg.tags, s.data)) <==>
                    (b.entity.local.Some? ==>
                       forall i <- b.entity.local.value.components | !s.data.present[i] :: b.entity.appliedMask[i])))
  {
    hide Push, RemoveMissing, View, Changed, Whole, Get, SampleSound, ApplyFrame, Config.WellFormed;
    var s := View(b.ring, frame).value;
    ViewIsWritten(cfg, b, frame);
    ShownShaped(cfg, b, frame);
    if s.present {
      ShownCovers(cfg, b, s);
    }
  }

  lemma ShownShaped(cfg: Config, b: Buffer, frame: nat)
    requires Sound(cfg, b) && View(b.ring, frame).Some?
    ensures var s := View(b.ring, frame).value;
            && 0 < s.frame == frame && cfg.tags <= MASK && (s.present ==> Shaped(cfg.sizes, s.data) && |s.mask| == MASK)
  {
    hide Changed, Covers;
    ViewIsWritten(cfg, b, frame);
    assert SampleSound(cfg, b.written, frame, View(b.ring, frame).value);
  }

  lemma ShownCovers(cfg: Config, b: Buffer, s: Sample)
    requires Sound(cfg, b) && View(b.ring, s.frame) == Some(s) && s.present
    requires cfg.tags <= MASK && Shaped(cfg.sizes, s.data) && |s.mask| == MASK
    ensures var e := Apply(cfg.sizes, cfg.tags, b.entity, s);
            && Covers(cfg, e, s)
            && (e.local == Some(Whole(cfg.sizes, cfg.tags, s.data)) <==>
                  (b.entity.local.Some? ==>
                     forall i <- b.entity.local.value.components | !s.data.present[i] :: b.entity.appliedMask[i]))
  {
    hide Push, RemoveMissing, View, Changed, Whole, Get, RingSound;
    var mask := if b.entity.lastApplied + 1 == s.frame then s.mask else s.data.present;
    var components := if b.entity.local.Some? then b.entity.local.value.components else map[];
    forall i | 0 <= i < |cfg.sizes| && s.data.present[i] && !mask[i]
      ensures i in components && Some(components[i]) == Get(cfg.sizes, s.data, i)
    {
      MaskLeavesOutShown(cfg, b, s, i);
    }
    MasksFit(cfg, b);
    MaskedApplyIsWhole(cfg.sizes, cfg.tags, b.entity.local, s.data, mask, b.entity.appliedMask);
    AppliedCovers(cfg, b.entity.local, s.data, mask, b.entity.appliedMask);
  }

  lemma MasksFit(cfg: Config, b: Buffer)
    requires Sound(cfg, b)
    ensures |b.entity.appliedMask| == MASK
    ensures b.entity.local.Some? ==> forall i <- b.entity.local.value.components :: i < |cfg.sizes|
  {
  }

  lemma AppliedCovers(cfg: Config, local: Option<Local>, f: Frame, mask: BitString, previous: BitString)
    requires cfg.WellFormed() && Shaped(cfg.sizes, f) && |mask| == |previous| == MASK
    requires local.Some? ==> forall i <- local.value.components :: i < |cfg.sizes|
    requires var components := if local.Some? then local.value.components else map[];
             forall i | 0 <= i < |cfg.sizes| && f.present[i] && !mask[i] :: i in components && Some(components[i]) == Get(cfg.sizes, f, i)
    ensures var applied := ApplyFrame(cfg.sizes, cfg.tags, local, f, mask, previous);
            && applied.tags == f.tags[..cfg.tags] && (forall i <- applied.components :: i < |cfg.sizes|)
            && (forall i: nat | Get(cfg.sizes, f, i).Some? :: i in applied.components && applied.components[i] == Get(cfg.sizes, f, i).value)
  {
    hide Push, RemoveMissing;
    var components := if local.Some? then local.value.components else map[];
    var removed := RemoveMissing(components, previous, f.present, |cfg.sizes|);
    var applied := ApplyFrame(cfg.sizes, cfg.tags, local, f, mask, previous).components;
    forall i: nat
      ensures i in applied ==> i < |cfg.sizes|
      ensures Get(cfg.sizes, f, i).Some? ==> i in applied && applied[i] == Get(cfg.sizes, f, i).value
    {
      RemovedAt(components, previous, f.present, |cfg.sizes|, i);
      PushedAt(cfg.sizes, removed, f, mask, |cfg.sizes|, i);
    }
  }

  datatype Step = Received(frame: nat, decoded: Option<Frame>, marks: bool) | Shown(frame: nat)

  ghost predicate Allowed(cfg: Config, step: Step) {
    step.Received? ==> step.frame > 0 && (step.decoded.Some? ==> Shaped(cfg.sizes, step.decoded.value))
  }

  ghost predicate AllAllowed(cfg: Config, steps: seq<Step>) {
    forall n | 0 <= n < |steps| :: Allowed(cfg, steps[n])
  }

  ghost function After(cfg: Config, b: Buffer, step: Step): (b': Buffer)
    requires Sound(cfg, b) && Allowed(cfg, step)
    ensures Sound(cfg, b')
  {
    match step
    case Received(frame, decoded, marks) =>
      ReceiveSound(cfg, b, frame, decoded, marks);
      Receive(cfg, b, frame, decoded, marks)
    case Shown(frame) =>
      if View(b.ring, frame).Some? then ShowCovers(cfg, b, frame); Show(cfg, b, frame) else b
  }

  ghost function Run(cfg: Config, b: Buffer, steps: seq<Step>): (b': Buffer)
    requires Sound(cfg, b) && AllAllowed(cfg, steps)
    ensures Sound(cfg, b')
  {
    if steps == [] then b else After(cfg, Run(cfg, b, steps[..|steps| - 1]), steps[|steps| - 1])
  }

  /** If only shown frames record what is applied, showing a frame shows exactly that frame. */
  lemma ShowExact(cfg: Config, b: Buffer, frame: nat)
    requires Sound(cfg, b) && Exact(cfg, b) && View(b.ring, frame).Some?
    ensures var b' := Show(cfg, b, frame);
            && Sound(cfg, b') && Exact(cfg, b') && b'.entity.lastApplied == frame
            && ShowsExactly(cfg, b'.entity, View(b.ring, frame).value)
  {
    ShowCovers(cfg, b, frame);
    var s := View(b.ring, frame).value;
    ViewIsWritten(cfg, b, frame);
    assert SampleSound(cfg, b.written, frame, s);
    if s.present && b.entity.local.Some? {
      var last := b.written[b.entity.lastApplied];
      forall i <- b.entity.local.value.components | !s.data.present[i] ensures b.entity.appliedMask[i] {
        WholeAt(cfg, last.data, i);
      }
    }
  }

  /**
   The main result: if what is recorded as applied is changed only by showing
   frames, then after every run, frames shown in any order and with any gaps,
   the entity is exactly what applying the whole of the last shown frame gives.
   */
  lemma {:induction false} ShownFrameIsWhole(cfg: Config, steps: seq<Step>)
    requires cfg.WellFormed() && AllAllowed(cfg, steps) && forall step <- steps :: step.Received? ==> !step.marks
    ensures Sound(cfg, NoBuffer) && Exact(cfg, Run(cfg, NoBuffer, steps))
  {
    assert Sound(cfg, NoBuffer);
    if steps != [] {
      hide Sound, Exact, ShowsExactly;
      var init, last := steps[..|steps| - 1], steps[|steps| - 1];
      ShownFrameIsWhole(cfg, init);
      var b := Run(cfg, NoBuffer, init);
      match last
      case Received(frame, decoded, marks) =>
        ReceiveSound(cfg, b, frame, decoded, marks);
        StillExact(cfg, b, Receive(cfg, b, frame, decoded, marks));
      case Shown(frame) =>
        if View(b.ring, frame).Some? {
          ShowExact(cfg, b, frame);
        }
    } else {
      assert Exact(cfg, NoBuffer);
    }
  }

  lemma StillExact(cfg: Config, b: Buffer, b': Buffer)
    requires Sound(cfg, b) && Exact(cfg, b) && Sound(cfg, b') && b'.entity == b.entity
    requires forall g <- b.written :: g in b'.written && b'.written[g] == b.written[g]
    ensures Exact(cfg, b')
  {
  }

  // ------------------------------------------- when updates record as well

  /** Every component in the registry is among those recorded as applied. */
  ghost predicate Recorded(cfg: Config, b: Buffer)
    requires Sound(cfg, b)
  {
    b.entity.local.Some? ==> forall i <- b.entity.local.value.components :: i < MASK && b.entity.appliedMask[i]
  }

  /** An update that is taken and records what it brings leaves out no component the registry shows now. */
  ghost predicate LeavesOutNothing(cfg: Config, b: Buffer, step: Step)
    requires Sound(cfg, b) && Allowed(cfg, step)
  {
    step.Received? && step.marks && (b.frame == 0 || step.frame > b.frame) && b.entity.local.Some? ==>
      forall i <- b.entity.local.value.components :: step.decoded.Some? && step.decoded.value.present[i]
  }

  /** While everything shown is recorded, showing a frame leaves exactly that frame. */
  lemma RecordedShowsWhole(cfg: Config, b: Buffer, frame: nat)
    requires Sound(cfg, b) && Recorded(cfg, b) && View(b.ring, frame).Some?
    ensures var s, b' := View(b.ring, frame).value, Show(cfg, b, frame);
            && Sound(cfg, b') && Recorded(cfg, b')
            && b'.entity.local == if s.present then Some(Whole(cfg.sizes, cfg.tags, s.data)) else None
  {
    ShowCovers(cfg, b, frame);
    var s, b' := View(b.ring, frame).value, Show(cfg, b, frame);
    ViewIsWritten(cfg, b, frame);
    assert SampleSound(cfg, b.written, frame, s);
    if s.present {
      forall i <- b'.entity.local.value.components ensures i < MASK && b'.entity.appliedMask[i] {
        WholeAt(cfg, s.data, i);
      }
    }
  }

  /** A step keeps everything shown recorded exactly when it leaves out nothing shown. */
  lemma RecordedStepIff(cfg: Config, b: Buffer, step: Step)
    requires Sound(cfg, b) && Recorded(cfg, b) && Allowed(cfg, step)
    ensures Recorded(cfg, After(cfg, b, step)) <==> LeavesOutNothing(cfg, b, step)
  {
    match step
    case Received(frame, decoded, marks) =>
      ReceiveSound(cfg, b, frame, decoded, marks);
      ReceiveMarks(cfg, b, frame, decoded, marks);
      LocalInRange(cfg, b);
    case Shown(frame) =>
      if View(b.ring, frame).Some? {
        RecordedShowsWhole(cfg, b, frame);
      }
  }

  lemma LocalInRange(cfg: Config, b: Buffer)
    requires Sound(cfg, b)
    ensures b.entity.local.Some? ==> forall i <- b.entity.local.value.components :: i < MASK
  {
  }

  lemma ReceiveMarks(cfg: Config, b: Buffer, frame: nat, decoded: Option<Frame>, marks: bool)
    requires Sound(cfg, b) && frame > 0 && (decoded.Some? ==> Shaped(cfg.sizes, decoded.value))
    ensures var b' := Receive(cfg, b, frame, decoded, marks);
            && b'.entity.local == b.entity.local
            && b'.entity.appliedMask == if marks && (b.frame == 0 || frame > b.frame)
                                        then (if decoded.Some? then decoded.value else Cleared).present else b.entity.appliedMask
  {
    if b.frame == 0 || frame > b.frame {
      FillFromSound(cfg, b, b.entity.local.Some? || (b.frame != 0 && AnyPresent(b.baseline)), if b.frame != 0 then b.frame + 1 else frame, frame, decoded);
    }
  }

  lemma StartsSound(cfg: Config)
    requires cfg.WellFormed()
    ensures Sound(cfg, NoBuffer)
  {
  }

  /** After the first `n` steps everything shown is recorded. */
  ghost predicate RecordedAfter(cfg: Config, steps: seq<Step>, n: nat)
    requires cfg.WellFormed() && AllAllowed(cfg, steps) && n <= |steps|
  {
    StartsSound(cfg);
    Recorded(cfg, Run(cfg, NoBuffer, steps[..n]))
  }

  /** Step `n` is no update that leaves out a component shown when it arrives. */
  ghost predicate NothingLeftOutAt(cfg: Config, steps: seq<Step>, n: nat)
    requires cfg.WellFormed() && AllAllowed(cfg, steps) && n < |steps|
  {
    StartsSound(cfg);
    LeavesOutNothing(cfg, Run(cfg, NoBuffer, steps[..n]), steps[n])
  }

  /**
   With updates recording what they bring as they arrive, as they do: over every
   run, everything shown stays recorded, so that every frame shown is shown
   whole, if and only if no update leaves out a component shown at its arrival.
   */
  lemma RecordedThroughoutIff(cfg: Config, steps: seq<Step>)
    requires cfg.WellFormed() && AllAllowed(cfg, steps)
    ensures (forall n | 0 <= n <= |steps| :: RecordedAfter(cfg, steps, n)) <==> forall n | 0 <= n < |steps| :: NothingLeftOutAt(cfg, steps, n)
  {
    hide AllAllowed, RecordedAfter, NothingLeftOutAt, Config.WellFormed;
    if forall n | 0 <= n <= |steps| :: RecordedAfter(cfg, steps, n) {
      forall n | 0 <= n < |steps| ensures NothingLeftOutAt(cfg, steps, n) {
        assert RecordedAfter(cfg, steps, n) && RecordedAfter(cfg, steps, n + 1);
        RecordedNext(cfg, steps, n);
      }
    } else if forall n | 0 <= n < |steps| :: NothingLeftOutAt(cfg, steps, n) {
      forall n | 0 <= n <= |steps| ensures RecordedAfter(cfg, steps, n) {
        NothingLeftOut(cfg, steps, n);
      }
      assert false;
    }
  }

  lemma RecordedNext(cfg: Config, steps: seq<Step>, n: nat)
    requires cfg.WellFormed() && AllAllowed(cfg, steps) && n < |steps| && RecordedAfter(cfg, steps, n)
    ensures RecordedAfter(cfg, steps, n + 1) <==> NothingLeftOutAt(cfg, steps, n)
  {
    hide Sound, Recorded, LeavesOutNothing, After, Allowed, Config.WellFormed;
    StartsSound(cfg);
    assert steps[..n + 1][..n] == steps[..n];
    RecordedStepIff(cfg, Run(cfg, NoBuffer, steps[..n]), steps[n]);
  }

  lemma NothingRecorded(cfg: Config, steps: seq<Step>)
    requires cfg.WellFormed() && AllAllowed(cfg, steps)
    ensures RecordedAfter(cfg, steps, 0)
  {
    StartsSound(cfg);
    assert steps[..0] == [];
  }

  lemma {:induction false} NothingLeftOut(cfg: Config, steps: seq<Step>, n: nat)
    requires cfg.WellFormed() && AllAllowed(cfg, steps) && n <= |steps| && forall k | 0 <= k < |steps| :: NothingLeftOutAt(cfg, steps, k)
    ensures RecordedAfter(cfg, steps, n)
  {
    hide AllAllowed, RecordedAfter, NothingLeftOutAt, Config.WellFormed;
    if n == 0 {
      NothingRecorded(cfg, steps);
    } else {
      NothingLeftOut(cfg, steps, n - 1);
      RecordedNext(cfg, steps, n - 1);
    }
  }

  /**
   Updates do record their own components as applied on arrival, before any
   frame with them is shown.  A component that the next update lacks is then
   not removed when that update's frame is shown.
   */
  lemma MarkedUpdateLeavesComponent(cfg: Config, first: Frame, second: Frame, i: nat)
    requires cfg.WellFormed() && Shaped(cfg.sizes, first) && Shaped(cfg.sizes, second)
    requires i < |cfg.sizes| && first.present[i] && !second.present[i]
    ensures Sound(cfg, NoBuffer)
    ensures var b := Run(cfg, NoBuffer, [Received(1, Some(first), true), Shown(1), Received(2, Some(second), true), Shown(2)]);
            && b.entity.lastApplied == 2 && 2 in b.written && b.written[2].data == second
            && b.entity.local.Some? && b.entity.local != Some(Whole(cfg.sizes, cfg.tags, second))
  {
    assert Sound(cfg, NoBuffer);
    hide Sound, Receive, Show, View, Covers, Run, Whole, Get;
    ReceiveSound(cfg, NoBuffer, 1, Some(first), true);
    FrameOf(cfg, NoBuffer, 1, Some(first), true);
    var b1 := Receive(cfg, NoBuffer, 1, Some(first), true);
    ShowCovers(cfg, b1, 1);
    var b2 := Show(cfg, b1, 1);
    ReceiveSound(cfg, b2, 2, Some(second), true);
    FrameOf(cfg, b2, 2, Some(second), true);
    var b3 := Receive(cfg, b2, 2, Some(second), true);
    PresentGets(cfg.sizes, first, i);
    CoversHas(cfg, b2.entity, b1.written[1], i);
    ShowCovers(cfg, b3, 2);
    var b4 := Show(cfg, b3, 2);
    CoversLocal(cfg, b4.entity, b3.written[2]);
    FourSteps(cfg, NoBuffer, Received(1, Some(first), true), Shown(1), Received(2, Some(second), true), Shown(2), b1, b2, b3, b4);
  }

  lemma FourSteps(cfg: Config, b0: Buffer, w: Step, x: Step, y: Step, z: Step, b1: Buffer, b2: Buffer, b3: Buffer, b4: Buffer)
    requires Allowed(cfg, w) && Allowed(cfg, x) && Allowed(cfg, y) && Allowed(cfg, z)
    requires Sound(cfg, b0) && After(cfg, b0, w) == b1 && After(cfg, b1, x) == b2 && After(cfg, b2, y) == b3 && After(cfg, b3, z) == b4
    ensures AllAllowed(cfg, [w, x, y, z]) && Run(cfg, b0, [w, x, y, z]) == b4
  {
    hide Sound, After, Allowed, AllAllowed, Run;
    NothingRuns(cfg, b0);
    RunsOn(cfg, b0, [], w);
    assert [] + [w] == [w];
    RunsOn(cfg, b0, [w], x);
    assert [w] + [x] == [w, x];
    RunsOn(cfg, b0, [w, x], y);
    assert [w, x] + [y] == [w, x, y];
    RunsOn(cfg, b0, [w, x, y], z);
    assert [w, x, y] + [z] == [w, x, y, z];
  }

  lemma NothingRuns(cfg: Config, b: Buffer)
    requires Sound(cfg, b)
    ensures AllAllowed(cfg, []) && Run(cfg, b, []) == b
  {
  }

  lemma RunsOn(cfg: Config, b: Buffer, steps: seq<Step>, step: Step)
    requires Sound(cfg, b) && AllAllowed(cfg, steps) && Allowed(cfg, step)
    ensures AllAllowed(cfg, steps + [step])
    ensures Run(cfg, b, steps + [step]) == After(cfg, Run(cfg, b, steps), step)
  {
    hide Sound, After, Allowed;
    assert (steps + [step])[..|steps|] == steps;
  }

  lemma FrameOf(cfg: Config, b: Buffer, frame: nat, decoded: Option<Frame>, marks: bool)
    requires Sound(cfg, b) && frame > 0 && (b.frame == 0 || b.frame < frame)
    ensures var b' := Receive(cfg, b, frame, decoded, marks);
            b'.frame == frame && (marks && decoded.Some? ==> b'.entity.appliedMask == decoded.value.present)
  {
    hide FillFrom, Covers;
  }

  lemma CoversHas(cfg: Config, e: Entity, s: Sample, i: nat)
    requires cfg.WellFormed() && Covers(cfg, e, s) && s.present && Get(cfg.sizes, s.data, i).Some?
    ensures e.local.Some? && i in e.local.value.components
  {
  }

  lemma CoversLocal(cfg: Config, e: Entity, s: Sample)
    requires cfg.WellFormed() && Covers(cfg, e, s) && s.present
    ensures e.local.Some?
  {
  }
}
