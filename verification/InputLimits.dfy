/**
 Exactly when a delivered packet of differences keeps the server's ring true,
 and the two ways a client can break that condition, each shown by a run that
 ends with the server holding an input nobody sent.
 */
module InputLimits {
  import opened Wrappers
  import opened Bits
  import opened World
  import opened InputBuffers
  import opened InputClients
  import opened InputSystems

  function Xor(x: bv8, y: bv8): bv8 {
    x ^ y
  }

  function ByteBits(x: bv8): (bits: BitString)
    ensures |bits| == 8
  {
    [x & 1 != 0, x & 2 != 0, x & 4 != 0, x & 8 != 0, x & 16 != 0, x & 32 != 0, x & 64 != 0, x & 128 != 0]
  }

  function BitsByte(bits: BitString): bv8
    requires |bits| == 8
  {
    (if bits[0] then 1 else 0) | (if bits[1] then 2 else 0) | (if bits[2] then 4 else 0) | (if bits[3] then 8 else 0)
    | (if bits[4] then 16 else 0) | (if bits[5] then 32 else 0) | (if bits[6] then 64 else 0) | (if bits[7] then 128 else 0)
  }

  lemma ByteRoundTrip(x: bv8)
    ensures BitsByte(ByteBits(x)) == x
  {
  }

  function BytesBits(bytes: Bytes): (bits: BitString)
    ensures |bits| == 8 * |bytes|
  {
    if bytes == [] then [] else ByteBits(bytes[0]) + BytesBits(bytes[1..])
  }

  function ReadBytes(bits: BitString, count: nat): Option<(Bytes, BitString)> {
    if count == 0 then Some(([], bits))
    else if |bits| < 8 then None
    else
      match ReadBytes(bits[8..], count - 1)
      case None => None
      case Some((bytes, rest)) => Some(([BitsByte(bits[..8])] + bytes, rest))
  }

  lemma {:induction false} ReadBytesBack(bytes: Bytes, rest: BitString)
    ensures ReadBytes(BytesBits(bytes) + rest, |bytes|) == Some((bytes, rest))
  {
    hide ByteBits, BitsByte;
    if bytes == [] {
      assert BytesBits(bytes) + rest == rest;
    } else {
      var bits := BytesBits(bytes) + rest;
      ByteRoundTrip(bytes[0]);
      assert bits[..8] == ByteBits(bytes[0]);
      assert bits[8..] == BytesBits(bytes[1..]) + rest;
      ReadBytesBack(bytes[1..], rest);
      assert bytes == [bytes[0]] + bytes[1..];
    }
  }

  function XorBytes(x: Bytes, y: Bytes): (z: Bytes)
    requires |x| == |y|
    ensures |z| == |x|
  {
    seq(|x|, i requires 0 <= i < |x| => Xor(x[i], y[i]))
  }

  function BaseBytes(previous: Option<Bytes>, size: nat): (base: Bytes)
    ensures |base| == size
  {
    if previous.Some? && |previous.value| == size then previous.value else Zeros(size)
  }

  function WriteDifference(size: nat, previous: Option<Bytes>, bytes: Bytes): BitString {
    if |bytes| == size then BytesBits(XorBytes(bytes, BaseBytes(previous, size))) else []
  }

  function ReadDifference(size: nat, previous: Option<Bytes>, bits: BitString): Option<(Bytes, BitString)> {
    match ReadBytes(bits, size)
    case None => None
    case Some((bytes, rest)) => if |bytes| == size then Some((XorBytes(bytes, BaseBytes(previous, size)), rest)) else None
  }

  /** A codec of `size` bytes, sent as the bits that differ from the previous value. */
  function Differences(size: nat): ComponentOps {
    ComponentOps(
      size, (v: int) => seq(size, _ => (v % 256) as bv8),
      (previous: Option<Bytes>, bytes: Bytes) => WriteDifference(size, previous, bytes),
      (previous: Option<Bytes>, bits: BitString) => ReadDifference(size, previous, bits))
  }

  const Difference := Differences(1)

  lemma Cancels(x: bv8, y: bv8)
    ensures Xor(Xor(x, y), y) == x
  {
  }

  lemma CancelBytes(x: Bytes, y: Bytes)
    requires |x| == |y|
    ensures XorBytes(XorBytes(x, y), y) == x
  {
    hide Xor;
    forall i | 0 <= i < |x| ensures XorBytes(XorBytes(x, y), y)[i] == x[i] {
      Cancels(x[i], y[i]);
    }
  }

  /** Reading a difference from another base than it was written from is off by what the bases differ in. */
  lemma ReadFromBase(written: Option<Bytes>, read: Option<Bytes>, bytes: Bytes, rest: BitString)
    ensures var size := |bytes|;
            && |WriteDifference(size, written, bytes)| == 8 * size
            && ReadDifference(size, read, WriteDifference(size, written, bytes) + rest)
               == Some((XorBytes(XorBytes(bytes, BaseBytes(written, size)), BaseBytes(read, size)), rest))
  {
    hide Xor, BytesBits, ReadBytes;
    ReadBytesBack(XorBytes(bytes, BaseBytes(written, |bytes|)), rest);
  }

  lemma DifferencesLawful(size: nat)
    requires 0 < size < 8192
    ensures InputOps(Differences(size))
  {
    hide XorBytes, BytesBits, ReadBytes, BaseBytes, WriteDifference, ReadDifference;
    var ops := Differences(size);
    forall v ensures |ops.quantize(v)| == size {
    }
    forall previous, bytes | |bytes| == size ensures 0 < |ops.serialize(previous, bytes)| < 0x10000 {
      ReadFromBase(previous, previous, bytes, []);
    }
    forall previous, bytes, rest | |bytes| == size
      ensures ops.deserialize(previous, ops.serialize(previous, bytes) + rest) == Some((bytes, rest))
    {
      ReadFromBase(previous, previous, bytes, rest);
      CancelBytes(bytes, BaseBytes(previous, size));
    }
  }

  /** What the server decodes an input as, from its own base. */
  function Misread(bytes: Bytes, written: Bytes, read: Bytes): (misread: Bytes)
    requires |bytes| == |written| == |read|
    ensures |misread| == |bytes|
  {
    XorBytes(XorBytes(bytes, written), read)
  }

  lemma OneByte(x: bv8, y: bv8, z: bv8)
    ensures Misread([x], [y], [z]) == [Xor(Xor(x, y), z)]
  {
    hide Xor;
  }

  /** Reading goes wrong exactly when the bases differ. */
  lemma MisreadIff(bytes: Bytes, written: Bytes, read: Bytes)
    requires |bytes| == |written| == |read|
    ensures Misread(bytes, written, read) == bytes <==> written == read
  {
    hide Xor;
    CancelBytes(bytes, written);
    if written != read {
      var i :| 0 <= i < |written| && written[i] != read[i];
      XorDiffers(bytes[i], written[i], read[i]);
      assert Misread(bytes, written, read)[i] != bytes[i];
    }
  }

  lemma XorDiffers(x: bv8, y: bv8, z: bv8)
    ensures Xor(Xor(x, y), z) == x <==> y == z
  {
    hide Xor;
    Cancels(x, y);
    Cancels(Xor(x, y), z);
    Recovers(x, y);
    Recovers(x, z);
  }

  lemma Recovers(x: bv8, y: bv8)
    ensures Xor(x, Xor(x, y)) == y
  {
  }

  lemma DecodeNext(s: ServerInput, frame: nat, written: Bytes, read: Bytes, inputs: seq<Bytes>)
    requires s.ring != [] && inputs != [] && |inputs[0]| == |written| == |read| > 0 && frame + 1 < FRAMES
    ensures var ops, x := Differences(|read|), Misread(inputs[0], written, read);
            DecodeInputs(s, ops, frame, |inputs|, Some(read), EncodeInputs(ops, Some(written), inputs))
            == DecodeInputs(Accept(s, frame, x), ops, frame + 1, |inputs| - 1, Some(x), EncodeInputs(ops, Some(inputs[0]), inputs[1..]))
  {
    hide XorBytes, BytesBits, ReadBytes, Accept, ReadDifference, WriteDifference;
    var more := EncodeInputs(Differences(|read|), Some(inputs[0]), inputs[1..]);
    ReadFromBase(Some(written), Some(read), inputs[0], more);
  }

  /** Delivering a packet of differences whose baseline the server acknowledged last and holds. */
  lemma DeliverDifferences(s: ServerInput, capacity: nat, p: InputPacket)
    requires capacity > 0 && !p.full && 0 < |p.inputs| <= MAX_INPUTS && p.baseline + 1 < FRAMES && s.ack == p.baseline
    requires p.baseline != 0 ==> Has(s.ring, p.baseline) && |s.ring[p.baseline % |s.ring|].bytes| == 1
    ensures var base := if p.baseline == 0 then Zeros(1) else s.ring[p.baseline % |s.ring|].bytes;
            Process(s, Difference, capacity, EncodePacket(Difference, p)).0
            == DecodeInputs(Grow(s, capacity), Difference, p.baseline + 1, |p.inputs|, Some(base),
                            EncodeInputs(Difference, Some(p.previous), p.inputs)).0
  {
    hide EncodePacket, Process, DecodeInputs, EncodeInputs;
    ProcessEncoded(s, Difference, capacity, p);
  }

  /** Decoding differences from the wrong base gets every input wrong, the last one included. */
  lemma {:induction false} MisreadToTheEnd(s: ServerInput, frame: nat, written: Bytes, read: Bytes, inputs: seq<Bytes>)
    requires s.ring != [] && inputs != [] && frame + |inputs| < FRAMES
    requires |written| == |read| > 0 && written != read && forall k | 0 <= k < |inputs| :: |inputs[k]| == |read|
    requires frame + |inputs| - 1 > s.ack
    ensures var ops := Differences(|read|);
            var s' := DecodeInputs(s, ops, frame, |inputs|, Some(read), EncodeInputs(ops, Some(written), inputs)).0;
            var last := frame + |inputs| - 1;
            && s'.ring != [] && s'.ack == last && Has(s'.ring, last)
            && s'.ring[last % |s'.ring|].bytes != inputs[|inputs| - 1]
    decreases |inputs|
  {
    hide XorBytes, DecodeInputs, EncodeInputs, Differences;
    var ops, x := Differences(|read|), Misread(inputs[0], written, read);
    MisreadIff(inputs[0], written, read);
    DecodeNext(s, frame, written, read, inputs);
    if |inputs| == 1 {
      NothingLeft(Accept(s, frame, x), ops, frame, Some(x), EncodeInputs(ops, Some(inputs[0]), inputs[1..]));
    } else {
      MisreadToTheEnd(Accept(s, frame, x), frame + 1, inputs[0], x, inputs[1..]);
    }
  }

  /** A delta packet of sent inputs that brings something new, whose baseline the server can look up. */
  ghost predicate Deliverable(s: ServerInput, capacity: nat, size: nat, p: InputPacket, sent: map<nat, Bytes>) {
    && capacity > 0 && 0 < size < 8192 && Truthful(s, sent, size, capacity) && p.baseline <= s.ack
    && !p.full && 0 < |p.inputs| <= MAX_INPUTS && p.baseline + 1 + |p.inputs| < FRAMES && |p.previous| == size
    && SentFrom(sent, p.baseline + 1, p.inputs) && s.ack < p.baseline + |p.inputs|
    && (p.baseline != 0 ==> FindBaseline(s, size, p.baseline).Some?)
  }

  function LookedUp(s: ServerInput, size: nat, baseline: nat): Bytes {
    if baseline == 0 then Zeros(size)
    else match FindBaseline(s, size, baseline) case None => [] case Some(b) => b
  }

  lemma DeliveryDecodes(s: ServerInput, ops: ComponentOps, capacity: nat, p: InputPacket, sent: map<nat, Bytes>)
    requires Deliverable(s, capacity, ops.size, p, sent)
    ensures Grow(s, capacity).ring != [] && Truthful(Grow(s, capacity), sent, ops.size, capacity) && Grow(s, capacity).ack == s.ack
    ensures Process(s, ops, capacity, EncodePacket(ops, p)).0
            == DecodeInputs(Grow(s, capacity), ops, p.baseline + 1, |p.inputs|, Some(LookedUp(s, ops.size, p.baseline)),
                            EncodeInputs(ops, Some(p.previous), p.inputs)).0
  {
    hide EncodePacket, Process, DecodeInputs, EncodeInputs, Truthful, SentFrom, FindBaseline, ProcessBody;
    ProcessEncoded(s, ops, capacity, p);
    GrowTruthful(s, sent, ops.size, capacity);
    BodyDecodes(s, ops, capacity, p, EncodeInputs(ops, Some(p.previous), p.inputs));
  }

  lemma BodyDecodes(s: ServerInput, ops: ComponentOps, capacity: nat, p: InputPacket, bits: BitString)
    requires capacity > 0 && 0 < |p.inputs| && p.baseline + 1 < FRAMES && p.baseline <= s.ack && Grow(s, capacity).ring != []
    requires p.baseline != 0 ==> FindBaseline(s, ops.size, p.baseline).Some?
    ensures ProcessBody(s, ops, capacity, p.baseline, false, (p.baseline + 1) % FRAMES, |p.inputs|, bits)
            == DecodeInputs(Grow(s, capacity), ops, p.baseline + 1, |p.inputs|, Some(LookedUp(s, ops.size, p.baseline)), bits)
  {
    hide DecodeInputs, FindBaseline;
    assert (p.baseline + 1) % FRAMES == p.baseline + 1;
  }

  /** With the wrong base, the codec of differences stores something else than was sent. */
  lemma DeliveryMisread(s: ServerInput, capacity: nat, size: nat, p: InputPacket, sent: map<nat, Bytes>)
    requires Deliverable(s, capacity, size, p, sent) && p.previous != LookedUp(s, size, p.baseline)
    ensures !Truthful(Process(s, Differences(size), capacity, EncodePacket(Differences(size), p)).0, sent, size, capacity)
  {
    hide EncodePacket, Process, DecodeInputs, EncodeInputs, Differences;
    var first, base := p.baseline + 1, LookedUp(s, size, p.baseline);
    assert Differences(size).size == size by { SizeOf(size); }
    DeliveryDecodes(s, Differences(size), capacity, p, sent);
    forall k | 0 <= k < |p.inputs| ensures |p.inputs[k]| == size {
      assert sent[first + k] == p.inputs[k];
    }
    assert |base| == size;
    MisreadToTheEnd(Grow(s, capacity), first, p.previous, base, p.inputs);
    assert sent[first + |p.inputs| - 1] == p.inputs[|p.inputs| - 1];
  }

  lemma SizeOf(size: nat)
    ensures Differences(size).size == size
  {
  }

  /**
   When differences survive a delivery: for a packet that brings something new,
   the ring stays true to what was sent, whatever lawful codec the inputs have,
   exactly when the bytes the client took the first difference from are those
   the server looks up for the baseline.
   */
  lemma DeliveryTruthfulIff(s: ServerInput, capacity: nat, size: nat, p: InputPacket, sent: map<nat, Bytes>)
    requires Deliverable(s, capacity, size, p, sent)
    ensures (forall ops: ComponentOps | InputOps(ops) && ops.size == size ::
               Truthful(Process(s, ops, capacity, EncodePacket(ops, p)).0, sent, size, capacity))
            <==> p.previous == LookedUp(s, size, p.baseline)
  {
    hide EncodePacket, Process, DecodeInputs, EncodeInputs, InputOps, Truthful, Differences;
    if p.previous == LookedUp(s, size, p.baseline) {
      forall ops: ComponentOps | InputOps(ops) && ops.size == size
        ensures Truthful(Process(s, ops, capacity, EncodePacket(ops, p)).0, sent, size, capacity)
      {
        DeliveryDecodes(s, ops, capacity, p, sent);
        DecodeEncoded(Grow(s, capacity), ops, p.baseline + 1, Some(p.previous), p.inputs, sent, capacity);
      }
    } else {
      DifferencesLawful(size);
      SizeOf(size);
      DeliveryMisread(s, capacity, size, p, sent);
    }
  }

  lemma DeliverFirst(bytes: Bytes)
    requires |bytes| == 1
    ensures Process(NoInput, Difference, 2, EncodePacket(Difference, InputPacket(0, false, 1, Zeros(1), [bytes]))).0
            == Accept(Grow(NoInput, 2), 1, bytes)
  {
    hide Process, EncodePacket, DecodeInputs, EncodeInputs;
    var p := InputPacket(0, false, 1, Zeros(1), [bytes]);
    DeliverDifferences(NoInput, 2, p);
    DecodeNext(Grow(NoInput, 2), 1, Zeros(1), Zeros(1), [bytes]);
    MisreadIff(bytes, Zeros(1), Zeros(1));
    NothingLeft(Accept(Grow(NoInput, 2), 1, bytes), Difference, 1, Some(bytes), EncodeInputs(Difference, Some(bytes), [bytes][1..]));
  }

  // A client and server with rings of two, after the client has sent `bytes` for frame 1.
  function AfterFirst(bytes: Bytes): System {
    System(ClientInput([StoredInput(0, false, []), StoredInput(1, true, bytes)], bytes, true, Zeros(1), true, 1, 0, 0, false),
           NoInput, [InputPacket(0, false, 1, Zeros(1), [bytes])], [], map[1 := bytes])
  }

  lemma FirstFrame(bytes: Bytes)
    requires |bytes| == 1
    ensures Run(Begin(1), Difference, 2, [Latest(bytes), Recorded(1), Sent(1, 0)]) == AfterFirst(bytes)
  {
    hide Differences, Pack, Record;
    FirstPacked(bytes);
    var steps := [Latest(bytes), Recorded(1), Sent(1, 0)];
    assert steps[..2] == [Latest(bytes), Recorded(1)] && steps[..2][..1] == [Latest(bytes)] && steps[..1][..0] == [];
    assert Run(Begin(1), Difference, 2, [Latest(bytes)]) == After(Begin(1), Difference, 2, Latest(bytes));
    assert Run(Begin(1), Difference, 2, steps[..2]) == Begin(1).(client := Record(SetLatest(NewClient(1), bytes), 2, 1));
    assert AfterFirst(bytes).packets == [] + [InputPacket(0, false, 1, Zeros(1), [bytes])];
  }

  lemma FirstPacked(bytes: Bytes)
    requires |bytes| == 1
    ensures var c := Record(SetLatest(NewClient(1), bytes), 2, 1);
            var p := InputPacket(0, false, 1, Zeros(1), [bytes]);
            && Pack(c, 1, 0) == (c, Some(p)) && c == AfterFirst(bytes).client && Transmitted(map[], p) == map[1 := bytes]
  {
    var c := Record(SetLatest(NewClient(1), bytes), 2, 1);
    assert c.ring == [StoredInput(0, false, []), StoredInput(1, true, bytes)];
    assert RunStart(c.ring, 1, 1) == 1;
    assert Held(c.ring, 1) == bytes;
    assert Pack(c, 1, 0).1.value.inputs == [bytes];
  }

  lemma RunNext(sys: System, capacity: nat, steps: seq<Step>, step: Step)
    requires capacity > 0
    ensures Run(sys, Difference, capacity, steps + [step]) == After(Run(sys, Difference, capacity, steps), Difference, capacity, step)
  {
    assert (steps + [step])[..|steps|] == steps;
  }

  const First := StoredInput(1, true, [1])

  /** The server's state once the first packet, for frame 1, has arrived. */
  function HoldsFirst(): ServerInput {
    ServerInput([StoredInput(0, false, []), First], [1], true, 1, [], 0, false, InputStats(0, 0, 0, 1, 0))
  }

  lemma FirstDelivered(sys: System)
    requires sys.server == NoInput && |sys.packets| > 0 && sys.packets[0] == InputPacket(0, false, 1, Zeros(1), [[1]])
    ensures After(sys, Difference, 2, Delivered(0)) == sys.(server := HoldsFirst())
  {
    hide Process, EncodePacket, Accept, Grow, Pack, Acknowledge;
    DeliverFirst([1]);
    AcceptFirst();
  }

  lemma AcceptFirst()
    ensures Grow(NoInput, 2).ring != [] && Accept(Grow(NoInput, 2), 1, [1]) == HoldsFirst()
  {
    assert Accept(Grow(NoInput, 2), 1, [1]).ring == HoldsFirst().ring;
  }

  lemma FillIsRecord(bytes: Bytes)
    ensures var c := SetLatest(NewClient(1), bytes); Fill(c, 2, 1) == Record(c, 2, 1)
  {
    var c := GrowClient(SetLatest(NewClient(1), bytes), 2);
    assert !Has(c.ring, 1);
    assert FillFrom(Write(c, 1), 2, 1) == Write(c, 1);
  }

  /** Filling ahead through frame 1 writes what recording it would. */
  lemma FilledFirst(bytes: Bytes)
    requires |bytes| == 1
    ensures Run(Begin(1), Difference, 2, [Latest(bytes), Filled(1), Sent(1, 0)]) == AfterFirst(bytes)
  {
    hide Differences, Pack, Fill, Record;
    FirstFrame(bytes);
    var filled, recorded := [Latest(bytes), Filled(1)], [Latest(bytes), Recorded(1)];
    var start := Run(Begin(1), Difference, 2, [Latest(bytes)]);
    RunNext(Begin(1), 2, [], Latest(bytes));
    assert [] + [Latest(bytes)] == [Latest(bytes)];
    FillIsRecord(bytes);
    assert start.client == SetLatest(NewClient(1), bytes);
    assert filled[..1] == [Latest(bytes)] && recorded[..1] == [Latest(bytes)];
    assert Run(Begin(1), Difference, 2, filled) == Run(Begin(1), Difference, 2, recorded);
    RunNext(Begin(1), 2, filled, Sent(1, 0));
    RunNext(Begin(1), 2, recorded, Sent(1, 0));
    assert filled + [Sent(1, 0)] == [Latest(bytes), Filled(1), Sent(1, 0)];
    assert recorded + [Sent(1, 0)] == [Latest(bytes), Recorded(1), Sent(1, 0)];
  }

  /** Frame 1 was sent as 1 and recorded as 2 before its acknowledgement arrived: the two ends hold different bytes for it. */
  function TwoStories(): System {
    System(ClientInput([StoredInput(0, false, []), StoredInput(1, true, [2])], [2], true, [2], true, 1, 1, 1, false),
           HoldsFirst(), [InputPacket(0, false, 1, Zeros(1), [[1]])], [1], map[1 := [1]])
  }

  lemma TwoStoriesReached()
    ensures Run(Begin(1), Difference, 2, [Latest([1]), Filled(1), Sent(1, 0), Latest([2]), Recorded(1), Delivered(0), Announced, Heard(0)])
            == TwoStories()
  {
    hide Run, Process, EncodePacket, DecodeInputs, EncodeInputs, Pack, Differences, XorBytes, Transmitted;
    var steps0 := [Latest([1]), Filled(1), Sent(1, 0)];
    FilledFirst([1]);
    var again := AfterFirst([1]).client.(latest := [2], ring := [StoredInput(0, false, []), StoredInput(1, true, [2])]);
    RunNext(Begin(1), 2, steps0, Latest([2]));
    RunNext(Begin(1), 2, steps0 + [Latest([2])], Recorded(1));
    var b := AfterFirst([1]).(client := again);
    var steps1 := steps0 + [Latest([2])] + [Recorded(1)];
    assert Run(Begin(1), Difference, 2, steps1) == b;
    FirstDelivered(b);
    RunNext(Begin(1), 2, steps1, Delivered(0));
    RunNext(Begin(1), 2, steps1 + [Delivered(0)], Announced);
    RunNext(Begin(1), 2, steps1 + [Delivered(0)] + [Announced], Heard(0));
    assert steps1 + [Delivered(0)] + [Announced] + [Heard(0)]
        == [Latest([1]), Filled(1), Sent(1, 0), Latest([2]), Recorded(1), Delivered(0), Announced, Heard(0)];
  }

  /**
   Frame 1 is filled ahead, sent as 1 and then recorded as 2 before its
   acknowledgement arrives: frame 2, sent as 7, is stored as 4.
   */
  lemma ReRecordedFrameIsMisread()
    ensures var steps := [Latest([1]), Filled(1), Sent(1, 0), Latest([2]), Recorded(1), Delivered(0), Announced, Heard(0),
                          Latest([7]), Recorded(2), Sent(1, 0), Delivered(1)];
            var sys := Run(Begin(1), Difference, 2, steps);
            sys.sent == map[1 := [1], 2 := [7]] && sys.server.ring == [StoredInput(2, true, [4]), First]
  {
    hide Run, Process, EncodePacket, DecodeInputs, EncodeInputs, Pack, Differences, XorBytes, Transmitted;
    var steps2 := [Latest([1]), Filled(1), Sent(1, 0), Latest([2]), Recorded(1), Delivered(0), Announced, Heard(0)];
    TwoStoriesReached();
    var c := TwoStories();
    RunNext(Begin(1), 2, steps2, Latest([7]));
    RunNext(Begin(1), 2, steps2 + [Latest([7])], Recorded(2));
    var steps3 := steps2 + [Latest([7])] + [Recorded(2)];
    var d := c.(client := c.client.(latest := [7], lastRecorded := 2, ring := [StoredInput(2, true, [7]), StoredInput(1, true, [2])]));
    assert Run(Begin(1), Difference, 2, steps3) == d;
    RunNext(Begin(1), 2, steps3, Sent(1, 0));
    SecondPacked(d);
    var steps4 := steps3 + [Sent(1, 0)];
    RunNext(Begin(1), 2, steps4, Delivered(1));
    OneByte(7, 2, 1);
    SecondMisread([7], [2], [4]);
    assert steps4 + [Delivered(1)] == [Latest([1]), Filled(1), Sent(1, 0), Latest([2]), Recorded(1), Delivered(0), Announced, Heard(0),
                                       Latest([7]), Recorded(2), Sent(1, 0), Delivered(1)];
  }

  lemma SecondPacked(sys: System)
    requires sys.client.ring == [StoredInput(2, true, [7]), StoredInput(1, true, [2])] && sys.client.lastRecorded == 2
    requires sys.client.acked == sys.client.retired == 1 && sys.client.hasLatest && sys.client.hasBaseline && !sys.client.discontinuous
    requires sys.client.baseline == [2] && |sys.packets| == 1 && sys.sent == map[1 := [1]]
    ensures var sys' := After(sys, Difference, 2, Sent(1, 0));
            && sys'.packets == sys.packets + [InputPacket(1, false, 2, [2], [[7]])] && sys'.sent == map[1 := [1], 2 := [7]]
            && sys'.server == sys.server
  {
    assert RunStart(sys.client.ring, 2, 2) == 2;
    assert Held(sys.client.ring, 2) == [7];
    assert Pack(sys.client, 1, 0).1.value.inputs == [[7]];
  }

  lemma SecondMisread(bytes: Bytes, written: Bytes, stored: Bytes)
    requires |bytes| == |written| == 1 && stored == Misread(bytes, written, [1])
    ensures Process(HoldsFirst(), Difference, 2, EncodePacket(Difference, InputPacket(1, false, 2, written, [bytes]))).0.ring
            == [StoredInput(2, true, stored), First]
  {
    hide Process, EncodePacket, DecodeInputs, EncodeInputs;
    var p := InputPacket(1, false, 2, written, [bytes]);
    DeliverDifferences(HoldsFirst(), 2, p);
    DecodeNext(HoldsFirst(), 2, written, [1], [bytes]);
    var s := Accept(HoldsFirst(), 2, stored);
    NothingLeft(s, Difference, 2, Some(stored), EncodeInputs(Difference, Some(bytes), [bytes][1..]));
  }

  /**
   Frame 1's place is reused before its acknowledgement arrives, so its bytes
   are gone; the next input set declares the stale baseline present again, and
   the difference taken from it is misread: frames 2 and 3, sent as 1, are
   stored as 0.
   */
  lemma StaleBaselineIsMisread()
    ensures var steps := [Latest([1]), Recorded(1), Sent(1, 0), Recorded(2), Recorded(3), Sent(2, 0), Delivered(0), Announced, Heard(0),
                          Latest([9]), Sent(2, 0), Delivered(2)];
            var sys := Run(Begin(1), Difference, 2, steps);
            && sys.sent == map[1 := [1], 2 := [1], 3 := [1]]
            && sys.server.ring == [StoredInput(2, true, [0]), StoredInput(3, true, [0])]
  {
    hide Run, Process, EncodePacket, DecodeInputs, EncodeInputs, Pack, Differences, Transmitted;
    var steps0 := [Latest([1]), Recorded(1), Sent(1, 0)];
    FirstFrame([1]);
    var a := AfterFirst([1]);
    RunNext(Begin(1), 2, steps0, Recorded(2));
    RunNext(Begin(1), 2, steps0 + [Recorded(2)], Recorded(3));
    var steps1 := steps0 + [Recorded(2)] + [Recorded(3)];
    var b := a.(client := a.client.(ring := Both(), lastRecorded := 3, discontinuous := true));
    assert Run(Begin(1), Difference, 2, steps1) == b;
    PackBoth(b.client);
    var p1, p2 := InputPacket(0, true, 2, Zeros(1), [[1], [1]]), InputPacket(1, false, 2, Zeros(1), [[1], [1]]);
    RunNext(Begin(1), 2, steps1, Sent(2, 0));
    var sent := map[1 := [1], 2 := [1], 3 := [1]];
    SentBoth(map[1 := [1]], p1);
    var c := b.(client := b.client.(discontinuous := false), packets := [a.packets[0], p1], sent := sent);
    var steps2 := steps1 + [Sent(2, 0)];
    assert Run(Begin(1), Difference, 2, steps2) == c;
    FirstDelivered(c);
    RunNext(Begin(1), 2, steps2, Delivered(0));
    RunNext(Begin(1), 2, steps2 + [Delivered(0)], Announced);
    RunNext(Begin(1), 2, steps2 + [Delivered(0)] + [Announced], Heard(0));
    var steps3 := steps2 + [Delivered(0)] + [Announced] + [Heard(0)];
    var d := c.(server := HoldsFirst(), acks := [1], client := c.client.(hasBaseline := false, acked := 1, retired := 1));
    assert Run(Begin(1), Difference, 2, steps3) == d;
    RunNext(Begin(1), 2, steps3, Latest([9]));
    RunNext(Begin(1), 2, steps3 + [Latest([9])], Sent(2, 0));
    PackBoth(SetLatest(d.client, [9]));
    SentBoth(sent, p2);
    var steps4 := steps3 + [Latest([9])] + [Sent(2, 0)];
    var e := Run(Begin(1), Difference, 2, steps4);
    assert e.packets == c.packets + [p2] && e.server == HoldsFirst() && e.sent == sent;
    RunNext(Begin(1), 2, steps4, Delivered(2));
    BothMisread();
    assert steps4 + [Delivered(2)] == [Latest([1]), Recorded(1), Sent(1, 0), Recorded(2), Recorded(3), Sent(2, 0), Delivered(0), Announced,
                                       Heard(0), Latest([9]), Sent(2, 0), Delivered(2)];
  }

  function Both(): seq<StoredInput> {
    [StoredInput(2, true, [1]), StoredInput(3, true, [1])]
  }

  lemma SentBoth(sent: map<nat, Bytes>, p: InputPacket)
    requires sent == map[1 := [1]] || sent == map[1 := [1], 2 := [1], 3 := [1]]
    requires p.first == 2 && p.inputs == [[1], [1]]
    ensures Transmitted(sent, p) == map[1 := [1], 2 := [1], 3 := [1]]
  {
  }

  lemma PackBoth(c: ClientInput)
    requires c.ring == Both() && c.lastRecorded == 3 && c.hasLatest && c.acked == c.retired <= 1 && c.hasBaseline
    requires c.acked == 0 ==> c.discontinuous
    requires c.acked == 1 ==> !c.discontinuous
    ensures Pack(c, 2, 0) == (c.(discontinuous := false), Some(InputPacket(c.acked, c.acked == 0, 2, c.baseline, [[1], [1]])))
  {
    assert RunStart(c.ring, 3, 1) == 2 && RunStart(c.ring, 3, 2) == 2 by {
      assert RunStart(c.ring, 1, 1) == 2 && RunStart(c.ring, 1, 2) == 2;
      assert RunStart(c.ring, 2, 1) == 2 && RunStart(c.ring, 2, 2) == 2;
    }
    assert Held(c.ring, 2) == [1] && Held(c.ring, 3) == [1];
    assert Pack(c, 2, 0).1.value.inputs == [[1], [1]];
  }

  lemma BothMisread()
    ensures Process(HoldsFirst(), Difference, 2, EncodePacket(Difference, InputPacket(1, false, 2, Zeros(1), [[1], [1]]))).0.ring
            == [StoredInput(2, true, [0]), StoredInput(3, true, [0])]
  {
    hide Process, EncodePacket, DecodeInputs, EncodeInputs;
    var inputs: seq<Bytes> := [[1], [1]];
    OneByte(1, 0, 1);
    OneByte(1, 1, 0);
    assert Zeros(1) == [0];
    DeliverDifferences(HoldsFirst(), 2, InputPacket(1, false, 2, Zeros(1), inputs));
    DecodeNext(HoldsFirst(), 2, Zeros(1), [1], inputs);
    var s := Accept(HoldsFirst(), 2, [0]);
    assert inputs[1..] == [[1]];
    DecodeNext(s, 3, [1], [0], [[1]]);
    var s' := Accept(s, 3, [0]);
    NothingLeft(s', Difference, 3, Some([0]), EncodeInputs(Difference, Some([1]), [[1]][1..]));
  }
}
