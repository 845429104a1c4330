/** The client's side of input delivery: recording, filling ahead, acknowledging and packing inputs. */
module InputClients {
  import opened Wrappers
  import opened World
  import opened InputBuffers

  datatype ClientInput = ClientInput(
    ring: seq<StoredInput>, latest: Bytes, hasLatest: bool, baseline: Bytes, hasBaseline: bool,
    lastRecorded: nat, acked: nat, retired: nat, discontinuous: bool)

  function NewClient(size: nat): ClientInput {
    ClientInput([], [], false, Zeros(size), true, 0, 0, 0, false)
  }

  /** `set_latest`; it also declares the acknowledged baseline present. */
  function SetLatest(c: ClientInput, bytes: Bytes): ClientInput {
    c.(latest := bytes, hasLatest := true, hasBaseline := true)
  }

  function GrowClient(c: ClientInput, capacity: nat): ClientInput {
    if c.ring == [] then c.(ring := EmptyRing(capacity)) else c
  }

  /** Storing the latest input for `frame`; overwriting an unacknowledged frame breaks the history. */
  function Write(c: ClientInput, frame: nat): ClientInput
    requires c.ring != []
  {
    var was := c.ring[frame % |c.ring|];
    c.(ring := c.ring[frame % |c.ring| := StoredInput(frame, true, c.latest)],
       lastRecorded := Max(c.lastRecorded, frame),
       discontinuous := c.discontinuous || (was.valid && was.frame != frame && was.frame > c.acked))
  }

  /** `record_frame`. */
  function Record(c: ClientInput, capacity: nat, frame: nat): ClientInput
    requires capacity > 0
  {
    if !c.hasLatest || frame <= c.acked then c else Write(GrowClient(c, capacity), frame)
  }

  function FillFrom(c: ClientInput, current: nat, frame: nat): ClientInput
    requires c.ring != []
    decreases frame + 1 - current
  {
    if current > frame then c
    else if Has(c.ring, current) then FillFrom(c.(lastRecorded := Max(c.lastRecorded, current)), current + 1, frame)
    else FillFrom(Write(c, current), current + 1, frame)
  }

  /** `fill_frames_through`. */
  function Fill(c: ClientInput, capacity: nat, frame: nat): ClientInput
    requires capacity > 0
  {
    if !c.hasLatest || frame <= c.acked then c
    else FillFrom(GrowClient(c, capacity), Max(c.acked + 1, c.lastRecorded + 1), frame)
  }

  /** `acknowledge_frame`. */
  function Acknowledge(c: ClientInput, frame: nat): ClientInput {
    if frame <= c.acked || frame > c.lastRecorded then c
    else
      var found := Has(c.ring, frame);
      c.(baseline := if found then c.ring[frame % |c.ring|].bytes else c.baseline, hasBaseline := found,
         acked := frame, retired := Max(c.retired, frame))
  }

  function Retire(c: ClientInput, frame: nat): ClientInput {
    c.(retired := Max(c.retired, frame))
  }

  /** The bytes held for `frame`. */
  function Held(ring: seq<StoredInput>, frame: nat): Bytes
    requires Has(ring, frame)
  {
    ring[frame % |ring|].bytes
  }

  /** The first frame of the longest recorded run that ends at `frame` and does not go below `oldest`. */
  function RunStart(ring: seq<StoredInput>, frame: nat, oldest: nat): (first: nat)
    requires oldest > 0
    ensures first <= frame + 1 && (first <= frame ==> oldest <= first)
    ensures forall f | first <= f <= frame :: Has(ring, f)
  {
    if frame < oldest || !Has(ring, frame) then frame + 1 else RunStart(ring, frame - 1, oldest)
  }

  /** `must_encode_first_frame_in_full`. */
  predicate MustEncodeFull(c: ClientInput, first: nat) {
    c.discontinuous || first != c.acked + 1 || !(c.acked == 0 || c.hasBaseline)
  }

  /**
   `append_input_packet`; `fits` is how many of the newest inputs the packet has
   room for, and, when it has none, `tried` how many the last attempt began with.
   */
  function Pack(c: ClientInput, fits: nat, tried: nat): (ClientInput, Option<InputPacket>) {
    var floor := Max(c.acked, c.retired);
    if !c.hasLatest || c.lastRecorded <= floor then (c, None)
    else
      var oldest := if c.lastRecorded - floor > MAX_INPUTS then c.lastRecorded - MAX_INPUTS + 1 else floor + 1;
      var count := c.lastRecorded + 1 - RunStart(c.ring, c.lastRecorded, oldest);
      var k := if fits < count then fits else count;
      if count == 0 then (c, Some(InputPacket(c.acked, false, 0, c.baseline, [])))
      else if k == 0 then
        var first := c.lastRecorded + 1 - (if 1 <= tried <= count then tried else count);
        (c, Some(InputPacket(c.acked, MustEncodeFull(c, first), first, c.baseline, [])))
      else
        var first := c.lastRecorded + 1 - k;
        (c.(discontinuous := false),
         Some(InputPacket(c.acked, MustEncodeFull(c, first), first, c.baseline,
                          seq(k, i requires 0 <= i < k => Held(c.ring, first + i)))))
  }

  /** The client tells one story: what it holds for a transmitted frame is what it transmitted. */
  ghost predicate Consistent(c: ClientInput, sent: map<nat, Bytes>, size: nat, capacity: nat) {
    && (c.ring == [] || |c.ring| == capacity)
    && (forall i | 0 <= i < |c.ring| && c.ring[i].valid ::
          && c.ring[i].frame % |c.ring| == i && 0 < c.ring[i].frame <= c.lastRecorded && |c.ring[i].bytes| == size
          && (c.ring[i].frame in sent ==> c.ring[i].bytes == sent[c.ring[i].frame]))
    && (forall f <- sent :: 0 < f <= c.lastRecorded && |sent[f]| == size)
    && c.acked <= c.lastRecorded < FRAMES - 1 && |c.baseline| == size && (c.hasLatest ==> |c.latest| == size)
    && (if c.acked == 0 then c.baseline == Zeros(size)
        else c.acked in sent && (c.hasBaseline ==> c.baseline == sent[c.acked]))
  }

  lemma WriteConsistent(c: ClientInput, frame: nat, sent: map<nat, Bytes>, size: nat, capacity: nat)
    requires Consistent(c, sent, size, capacity) && c.ring != [] && c.hasLatest && 0 < frame < FRAMES - 1
    requires frame in sent ==> c.latest == sent[frame]
    ensures Consistent(Write(c, frame), sent, size, capacity)
  {
  }

  /** A frame may be recorded again, until it is acknowledged, only with the bytes it was sent with. */
  predicate CanRecord(c: ClientInput, sent: map<nat, Bytes>, frame: nat) {
    c.hasLatest && frame > c.acked ==> frame < FRAMES - 1 && (frame in sent ==> c.latest == sent[frame])
  }

  /** Recording keeps the client's story straight exactly when the frame may be recorded. */
  lemma RecordConsistent(c: ClientInput, frame: nat, sent: map<nat, Bytes>, size: nat, capacity: nat)
    requires capacity > 0 && Consistent(c, sent, size, capacity)
    ensures Consistent(Record(c, capacity, frame), sent, size, capacity) <==> CanRecord(c, sent, frame)
  {
    if c.hasLatest && frame > c.acked {
      var g := GrowClient(c, capacity);
      assert Consistent(g, sent, size, capacity);
      if CanRecord(c, sent, frame) {
        WriteConsistent(g, frame, sent, size, capacity);
      } else {
        assert Write(g, frame).ring[frame % |g.ring|] == StoredInput(frame, true, c.latest);
      }
    }
  }

  /** The acknowledged baseline the client holds, or is about to declare present, is the one it acknowledged. */
  predicate BaselineKept(c: ClientInput, sent: map<nat, Bytes>) {
    c.hasBaseline || c.acked == 0 || (c.acked in sent && c.baseline == sent[c.acked])
  }

  /** Setting the latest input, which declares the baseline present, keeps the story straight exactly when it is. */
  lemma LatestConsistent(c: ClientInput, bytes: Bytes, sent: map<nat, Bytes>, size: nat, capacity: nat)
    requires Consistent(c, sent, size, capacity)
    ensures Consistent(SetLatest(c, bytes), sent, size, capacity) <==> |bytes| == size && BaselineKept(c, sent)
  {
  }

  predicate CanFill(c: ClientInput, frame: nat) {
    c.hasLatest && frame > c.acked ==> frame < FRAMES - 1
  }

  lemma {:induction false} FillReaches(c: ClientInput, current: nat, frame: nat)
    requires c.ring != [] && current <= c.lastRecorded + 1
    ensures FillFrom(c, current, frame).lastRecorded >= frame
    decreases frame + 1 - current
  {
    if current <= frame {
      FillReaches(if Has(c.ring, current) then c.(lastRecorded := Max(c.lastRecorded, current)) else Write(c, current), current + 1, frame);
    }
  }

  lemma {:induction false} FillFromConsistent(c: ClientInput, current: nat, frame: nat, sent: map<nat, Bytes>, size: nat, capacity: nat)
    requires Consistent(c, sent, size, capacity) && c.ring != [] && c.hasLatest && frame < FRAMES - 1
    requires current > 0 && forall f <- sent :: f < current
    ensures Consistent(FillFrom(c, current, frame), sent, size, capacity)
    decreases frame + 1 - current
  {
    if current <= frame {
      if Has(c.ring, current) {
        FillFromConsistent(c.(lastRecorded := Max(c.lastRecorded, current)), current + 1, frame, sent, size, capacity);
      } else {
        WriteConsistent(c, current, sent, size, capacity);
        FillFromConsistent(Write(c, current), current + 1, frame, sent, size, capacity);
      }
    }
  }

  /** Filling ahead only writes frames that were never transmitted; it must stop short of the last frame number. */
  lemma FillConsistent(c: ClientInput, frame: nat, sent: map<nat, Bytes>, size: nat, capacity: nat)
    requires capacity > 0 && Consistent(c, sent, size, capacity)
    ensures Consistent(Fill(c, capacity, frame), sent, size, capacity) <==> CanFill(c, frame)
  {
    if c.hasLatest && frame > c.acked {
      if CanFill(c, frame) {
        FillFromConsistent(GrowClient(c, capacity), Max(c.acked + 1, c.lastRecorded + 1), frame, sent, size, capacity);
      } else {
        FillReaches(GrowClient(c, capacity), Max(c.acked + 1, c.lastRecorded + 1), frame);
      }
    }
  }

  lemma AcknowledgeConsistent(c: ClientInput, frame: nat, sent: map<nat, Bytes>, size: nat, capacity: nat)
    requires Consistent(c, sent, size, capacity) && (frame == 0 || frame in sent)
    ensures Consistent(Acknowledge(c, frame), sent, size, capacity)
  {
  }

  ghost predicate Grows(sent: map<nat, Bytes>, sent': map<nat, Bytes>) {
    forall f <- sent :: f in sent' && sent'[f] == sent[f]
  }

  function Added(sent: map<nat, Bytes>, first: nat, inputs: seq<Bytes>): (r: map<nat, Bytes>)
    ensures forall f: nat :: f in r <==> f in sent || first <= f < first + |inputs|
    ensures forall f <- sent :: r[f] == sent[f]
    ensures forall f: nat | f in r && f !in sent :: r[f] == inputs[f - first]
  {
    if inputs == [] then sent
    else
      var before := Added(sent, first, inputs[..|inputs| - 1]);
      var f := first + |inputs| - 1;
      if f in before then before else before[f := inputs[|inputs| - 1]]
  }

  /** What is known to be transmitted after a packet; the first transmission of a frame is what counts. */
  function Transmitted(sent: map<nat, Bytes>, p: InputPacket): map<nat, Bytes> {
    Added(sent, p.first, p.inputs)
  }

  /** A packet's inputs are what the ring holds for its frames. */
  lemma PackContents(c: ClientInput, fits: nat, tried: nat)
    ensures var (c', packed) := Pack(c, fits, tried);
            && (packed.None? ==> c' == c)
            && (packed.Some? && packed.value.inputs == [] ==>
                  c' == c && packed.value.baseline == c.acked && (packed.value.full ==> 0 < packed.value.first <= c.lastRecorded))
            && (packed.Some? && packed.value.inputs != [] ==>
              var p := packed.value;
              && c' == c.(discontinuous := false) && p.baseline == c.acked && p.previous == c.baseline
              && p.full == MustEncodeFull(c, p.first) && |p.inputs| <= MAX_INPUTS
              && 0 < p.first && p.first + |p.inputs| == c.lastRecorded + 1
              && (forall f | p.first <= f < p.first + |p.inputs| :: Has(c.ring, f) && p.inputs[f - p.first] == Held(c.ring, f)))
  {
    hide RunStart, Has, Held, MustEncodeFull;
    var (c', packed) := Pack(c, fits, tried);
    if packed.Some? && packed.value.inputs != [] {
      var p := packed.value;
      forall f | p.first <= f < p.first + |p.inputs|
        ensures Has(c.ring, f) && p.inputs[f - p.first] == Held(c.ring, f)
      {
        assert p.first + (f - p.first) == f;
      }
    }
  }

  lemma EntryConsistent(c: ClientInput, sent: map<nat, Bytes>, size: nat, capacity: nat, f: nat)
    requires Consistent(c, sent, size, capacity) && Has(c.ring, f)
    ensures var bytes := Held(c.ring, f); |bytes| == size && (f in sent ==> bytes == sent[f])
  {
  }

  ghost predicate Carries(c: ClientInput, sent: map<nat, Bytes>, p: InputPacket, size: nat, f: nat) {
    && p.first <= f < p.first + |p.inputs| && Has(c.ring, f) && |p.inputs[f - p.first]| == size
    && p.inputs[f - p.first] == Held(c.ring, f) && f in sent && sent[f] == p.inputs[f - p.first]
  }

  /** A consistent client sends honest packets and stays consistent. */
  lemma PackHonest(c: ClientInput, fits: nat, tried: nat, sent: map<nat, Bytes>, size: nat, capacity: nat)
    requires Consistent(c, sent, size, capacity)
    ensures var (c', p) := Pack(c, fits, tried);
            && c'.acked == c.acked
            && (p.None? ==> c' == c)
            && (p.Some? ==>
                  && p.value.baseline == c.acked && Consistent(c', Transmitted(sent, p.value), size, capacity)
                  && HonestPacket(p.value, Transmitted(sent, p.value), size) && Grows(sent, Transmitted(sent, p.value)))
  {
    hide Pack, Has, Held, Added;
    PackContents(c, fits, tried);
    var (c', packed) := Pack(c, fits, tried);
    if packed.Some? && packed.value.inputs != [] {
      var p := packed.value;
      forall f: nat | p.first <= f < p.first + |p.inputs| ensures Carries(c, Transmitted(sent, p), p, size, f) {
        EntryConsistent(c, sent, size, capacity, f);
      }
      AddedConsistent(c, sent, p, size, capacity);
      CarriedHonest(c, sent, p, size, capacity);
    }
  }

  lemma CarriedHonest(c: ClientInput, sent: map<nat, Bytes>, p: InputPacket, size: nat, capacity: nat)
    requires Consistent(c, sent, size, capacity) && p.inputs != [] && |p.inputs| <= MAX_INPUTS
    requires p.baseline == c.acked && p.previous == c.baseline && p.full == MustEncodeFull(c, p.first)
    requires 0 < p.first && p.first + |p.inputs| == c.lastRecorded + 1
    requires forall f: nat | p.first <= f < p.first + |p.inputs| :: Carries(c, Transmitted(sent, p), p, size, f)
    ensures HonestPacket(p, Transmitted(sent, p), size)
  {
    hide Added, Has;
    forall f | p.first <= f < p.first + |p.inputs|
      ensures f in Transmitted(sent, p) && Transmitted(sent, p)[f] == p.inputs[f - p.first]
    {
      assert Carries(c, Transmitted(sent, p), p, size, f);
    }
  }

  lemma AddedConsistent(c: ClientInput, sent: map<nat, Bytes>, p: InputPacket, size: nat, capacity: nat)
    requires Consistent(c, sent, size, capacity)
    requires 0 < p.first && p.first + |p.inputs| == c.lastRecorded + 1
    requires forall f: nat | p.first <= f < p.first + |p.inputs| :: Carries(c, Transmitted(sent, p), p, size, f)
    ensures Consistent(c.(discontinuous := false), Transmitted(sent, p), size, capacity)
  {
    var t := Transmitted(sent, p);
    hide Added;
    forall i | 0 <= i < |c.ring| && c.ring[i].valid && c.ring[i].frame in t ensures c.ring[i].bytes == t[c.ring[i].frame] {
      var f := c.ring[i].frame;
      if f !in sent {
        assert Carries(c, t, p, size, f);
      }
    }
    forall f <- t ensures 0 < f <= c.lastRecorded && |t[f]| == size {
      if f !in sent {
        assert Carries(c, t, p, size, f);
      }
    }
  }

  /** A client that is consistent but for what it declares its baseline to be. */
  ghost predicate Declared(c: ClientInput, was: ClientInput, bytes: Bytes, sent: map<nat, Bytes>, size: nat, capacity: nat) {
    Consistent(was, sent, size, capacity) && |bytes| == size && c == SetLatest(was, bytes)
  }

  /**
   After `set_latest`, the next packet is honest exactly when it carries no
   difference from the acknowledged baseline, or that baseline was still held.
   */
  lemma LatestHonestIff(c: ClientInput, was: ClientInput, bytes: Bytes, fits: nat, tried: nat, sent: map<nat, Bytes>, size: nat, capacity: nat)
    requires Declared(c, was, bytes, sent, size, capacity) && Pack(c, fits, tried).1.Some?
    ensures var p := Pack(c, fits, tried).1.value;
            HonestPacket(p, Transmitted(sent, p), size) <==> p.full || p.inputs == [] || BaselineKept(was, sent)
  {
    hide Pack, Has, Held, Added;
    PackContents(c, fits, tried);
    var p := Pack(c, fits, tried).1.value;
    if BaselineKept(was, sent) {
      LatestConsistent(was, bytes, sent, size, capacity);
      PackHonest(c, fits, tried, sent, size, capacity);
    } else if p.inputs != [] {
      forall f: nat | p.first <= f < p.first + |p.inputs| ensures Carries(c, Transmitted(sent, p), p, size, f) {
        EntryConsistent(was, sent, size, capacity, f);
      }
      CarriedEither(c, was, sent, p, size);
    }
  }

  lemma CarriedEither(c: ClientInput, was: ClientInput, sent: map<nat, Bytes>, p: InputPacket, size: nat)
    requires c.acked == was.acked && c.baseline == was.baseline && was.acked in sent && was.acked > 0 && c.baseline != sent[c.acked]
    requires p.inputs != [] && |p.inputs| <= MAX_INPUTS && c.lastRecorded < FRAMES - 1 && c.acked < FRAMES
    requires p.baseline == c.acked && p.previous == c.baseline && p.full == MustEncodeFull(c, p.first)
    requires 0 < p.first && p.first + |p.inputs| == c.lastRecorded + 1
    requires forall f: nat | p.first <= f < p.first + |p.inputs| :: Carries(c, Transmitted(sent, p), p, size, f)
    ensures HonestPacket(p, Transmitted(sent, p), size) <==> p.full
  {
    hide Added, Has;
    forall f | p.first <= f < p.first + |p.inputs|
      ensures f in Transmitted(sent, p) && Transmitted(sent, p)[f] == p.inputs[f - p.first]
    {
      assert Carries(c, Transmitted(sent, p), p, size, f);
    }
    assert Transmitted(sent, p)[c.acked] == sent[c.acked];
  }
}
