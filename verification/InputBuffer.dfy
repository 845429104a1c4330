/**
 The server's buffer of one client's inputs: a power-of-two ring filled from
 packets that carry inputs in full or as differences, and the choice of the
 input that is due on a frame.
 */
module InputBuffers {
  import opened Wrappers
  import opened Bits
  import opened World

  const FRAMES := 0x1_0000_0000
  const MAX_INPUTS := 31

  datatype StoredInput = StoredInput(frame: nat, valid: bool, bytes: Bytes)

  datatype InputStats = InputStats(applied: nat, starvation: nat, reused: nat, latestReceived: nat, latestApplied: nat)

  datatype ServerInput = ServerInput(
    ring: seq<StoredInput>, latest: Bytes, hasLatest: bool, ack: nat,
    applied: Bytes, appliedFrame: nat, hasApplied: bool, stats: InputStats)

  const NoInput := ServerInput([], [], false, 0, [], 0, false, InputStats(0, 0, 0, 0, 0))

  /** The ring's slot for `frame` holds that frame. */
  predicate Has(ring: seq<StoredInput>, frame: nat) {
    ring != [] && ring[frame % |ring|].valid && ring[frame % |ring|].frame == frame
  }

  function Zeros(size: nat): (z: Bytes)
    ensures |z| == size
  {
    seq(size, _ => 0 as bv8)
  }

  function EmptyRing(capacity: nat): seq<StoredInput> {
    seq(capacity, _ => StoredInput(0, false, []))
  }

  function Grow(s: ServerInput, capacity: nat): ServerInput {
    if s.ring == [] then s.(ring := EmptyRing(capacity)) else s
  }

  // ------------------------------------------------------------- the packets

  /** `previous` is what the writer took the first difference from; it is not on the wire. */
  datatype InputPacket = InputPacket(baseline: nat, full: bool, first: nat, previous: Bytes, inputs: seq<Bytes>)

  function EncodeInputs(ops: ComponentOps, previous: Option<Bytes>, inputs: seq<Bytes>): BitString
    decreases |inputs|
  {
    if inputs == [] then [] else ops.serialize(previous, inputs[0]) + EncodeInputs(ops, Some(inputs[0]), inputs[1..])
  }

  function Base(p: InputPacket): Option<Bytes> {
    if p.full then None else Some(p.previous)
  }

  function ExplicitFirst(p: InputPacket): BitString {
    if p.full then Encode(p.first, 32) else []
  }

  /** The input section of a client packet. */
  function EncodePacket(ops: ComponentOps, p: InputPacket): BitString {
    Encode(p.baseline, 32)
    + ([p.full] + (ExplicitFirst(p) + (Encode(|p.inputs|, 5) + EncodeInputs(ops, Base(p), p.inputs))))
  }

  // --------------------------------------------------------------- receiving

  /** A decoded input is kept when it is later than everything acknowledged. */
  function Accept(s: ServerInput, frame: nat, bytes: Bytes): ServerInput
    requires s.ring != []
  {
    if frame <= s.ack then s
    else s.(ring := s.ring[frame % |s.ring| := StoredInput(frame, true, bytes)],
            latest := bytes, hasLatest := true, ack := frame, stats := s.stats.(latestReceived := frame))
  }

  function DecodeInputs(s: ServerInput, ops: ComponentOps, frame: nat, count: nat, previous: Option<Bytes>, bits: BitString): (ServerInput, bool)
    requires s.ring != []
    decreases count
  {
    if count == 0 then (s, true)
    else
      match ops.deserialize(previous, bits)
      case None => (s, false)
      case Some((bytes, rest)) =>
        if |rest| == |bits| then (s, false)
        else DecodeInputs(Accept(s, frame, bytes), ops, (frame + 1) % FRAMES, count - 1, Some(bytes), rest)
  }

  /** The bytes a difference from `baseline` applies to: the ring's, else the latest input's. */
  function FindBaseline(s: ServerInput, size: nat, baseline: nat): Option<Bytes> {
    if Has(s.ring, baseline) && |s.ring[baseline % |s.ring|].bytes| == size then Some(s.ring[baseline % |s.ring|].bytes)
    else if s.hasLatest && baseline == s.ack && |s.latest| == size then Some(s.latest)
    else None
  }

  /** The rest of `process_packet_payload` once the header is read. */
  function ProcessBody(s: ServerInput, ops: ComponentOps, capacity: nat, baseline: nat, full: bool, first: nat, count: nat, bits: BitString): (ServerInput, bool)
    requires capacity > 0
  {
    var s1 := if baseline > s.ack then s.(ack := baseline) else s;
    var previous := if baseline != 0 && !full then FindBaseline(s1, ops.size, baseline) else Some(Zeros(ops.size));
    if previous.None? || first == 0 || count == 0 then (s1, true)
    else DecodeInputs(Grow(s1, capacity), ops, first, count, if full then None else previous, bits)
  }

  /** `process_packet_payload`: the new state, and whether the packet was well formed. */
  function Process(s: ServerInput, ops: ComponentOps, capacity: nat, bits: BitString): (ServerInput, bool)
    requires capacity > 0
  {
    match ReadField(bits, 32)
    case None => (s, false)
    case Some((baseline, bits1)) =>
      match ReadField(bits1, 1)
      case None => (s, false)
      case Some((full, bits2)) =>
        match ReadField(bits2, if full == 1 then 32 else 0)
        case None => (s, false)
        case Some((explicit, bits3)) =>
          match ReadField(bits3, 5)
          case None => (s, false)
          case Some((count, bits4)) =>
            var first := if full == 1 then explicit else (baseline + 1) % FRAMES;
            if count > MAX_INPUTS then (s, false)
            else ProcessBody(s, ops, capacity, baseline, full == 1, first, count, bits4)
  }

  // ------------------------------------------------------------ correctness

  /** Inputs survive the wire and every one takes at least a bit. */
  ghost predicate InputOps(ops: ComponentOps) {
    ops.Lawful() && forall previous, bytes | |bytes| == ops.size :: 0 < |ops.serialize(previous, bytes)|
  }

  /** Every entry is the input the client sent for its frame, and the latest is that of the acknowledged frame. */
  ghost predicate Truthful(s: ServerInput, sent: map<nat, Bytes>, size: nat, capacity: nat) {
    && (s.ring == [] || |s.ring| == capacity)
    && (forall i | 0 <= i < |s.ring| && s.ring[i].valid ::
          && s.ring[i].frame % |s.ring| == i && 0 < s.ring[i].frame <= s.ack
          && s.ring[i].frame in sent && s.ring[i].bytes == sent[s.ring[i].frame])
    && (s.ack > 0 ==> Has(s.ring, s.ack) && s.hasLatest && s.ack in sent && s.latest == sent[s.ack])
    && (forall f <- sent :: |sent[f]| == size)
  }

  /** Frames less than a ring behind the acknowledged one are not lost. */
  ghost predicate Keeps(s: ServerInput, s': ServerInput, capacity: nat) {
    && s.ack <= s'.ack
    && (forall f: nat | Has(s.ring, f) && f + capacity > s'.ack :: Has(s'.ring, f))
    && s' == s.(ring := s'.ring, latest := s'.latest, hasLatest := s'.hasLatest, ack := s'.ack, stats := s'.stats)
  }

  lemma SameSlot(f: nat, g: nat, n: nat)
    requires n > 0 && f < g && f % n == g % n
    ensures f + n <= g
  {
    var a, b := f / n, g / n;
    assert f == n * a + f % n && g == n * b + f % n;
    if b <= a {
      Distribute(n, b, a - b);
      if a > b { AtLeastOnce(n, a - b); }
    } else {
      Distribute(n, a, b - a);
      AtLeastOnce(n, b - a);
    }
  }

  lemma AcceptTruthful(s: ServerInput, frame: nat, bytes: Bytes, sent: map<nat, Bytes>, size: nat, capacity: nat)
    requires Truthful(s, sent, size, capacity) && s.ring != [] && frame in sent && bytes == sent[frame]
    ensures var s' := Accept(s, frame, bytes);
            && Truthful(s', sent, size, capacity) && s'.ring != [] && Keeps(s, s', capacity)
            && s'.ack == (if frame > s.ack then frame else s.ack)
            && (frame > s.ack ==> Has(s'.ring, frame))
  {
    if frame > s.ack {
      var s' := Accept(s, frame, bytes);
      assert s'.ring[frame % |s.ring|] == StoredInput(frame, true, bytes);
      forall f: nat | Has(s.ring, f) && f + capacity > frame ensures Has(s'.ring, f) {
        if f % |s.ring| == frame % |s.ring| {
          SameSlot(f, frame, |s.ring|);
        }
      }
    }
  }

  lemma KeepsTrans(a: ServerInput, b: ServerInput, c: ServerInput, capacity: nat)
    requires Keeps(a, b, capacity) && Keeps(b, c, capacity)
    ensures Keeps(a, c, capacity)
  {
  }

  ghost predicate SentFrom(sent: map<nat, Bytes>, first: nat, inputs: seq<Bytes>) {
    forall f | first <= f < first + |inputs| :: f in sent && sent[f] == inputs[f - first]
  }

  lemma SentHead(sent: map<nat, Bytes>, first: nat, inputs: seq<Bytes>)
    requires SentFrom(sent, first, inputs) && inputs != []
    ensures first in sent && sent[first] == inputs[0]
  {
  }

  lemma SentTail(sent: map<nat, Bytes>, first: nat, inputs: seq<Bytes>)
    requires SentFrom(sent, first, inputs) && inputs != []
    ensures SentFrom(sent, first + 1, inputs[1..])
  {
  }

  function Max(a: nat, b: nat): nat {
    if a > b then a else b
  }

  /** The packet's new frames that are still inside the window are stored. */
  ghost predicate Stores(s: ServerInput, s': ServerInput, first: nat, count: nat, capacity: nat) {
    forall f | first <= f < first + count && f > s.ack && f + capacity > s'.ack :: Has(s'.ring, f)
  }

  lemma DecodeStep(s: ServerInput, ops: ComponentOps, first: nat, previous: Option<Bytes>, inputs: seq<Bytes>)
    requires InputOps(ops) && s.ring != [] && inputs != [] && |inputs[0]| == ops.size
    ensures var s1 := Accept(s, first, inputs[0]);
            DecodeInputs(s, ops, first, |inputs|, previous, EncodeInputs(ops, previous, inputs))
            == DecodeInputs(s1, ops, (first + 1) % FRAMES, |inputs| - 1, Some(inputs[0]), EncodeInputs(ops, Some(inputs[0]), inputs[1..]))
  {
    hide Has;
    var more := EncodeInputs(ops, Some(inputs[0]), inputs[1..]);
    var payload := ops.serialize(previous, inputs[0]);
    assert ops.deserialize(previous, payload + more) == Some((inputs[0], more));
    assert |payload + more| != |more|;
  }

  /** Decoding what was encoded with the same base stores exactly the inputs sent. */
  lemma {:induction false} DecodeEncoded(s: ServerInput, ops: ComponentOps, first: nat, previous: Option<Bytes>, inputs: seq<Bytes>,
                                         sent: map<nat, Bytes>, capacity: nat)
    requires InputOps(ops) && Truthful(s, sent, ops.size, capacity) && s.ring != []
    requires SentFrom(sent, first, inputs) && inputs != [] && first + |inputs| <= FRAMES
    ensures var (s', ok) := DecodeInputs(s, ops, first, |inputs|, previous, EncodeInputs(ops, previous, inputs));
            && ok && Truthful(s', sent, ops.size, capacity) && Keeps(s, s', capacity)
            && s'.ack == Max(s.ack, first + |inputs| - 1) && Stores(s, s', first, |inputs|, capacity)
    decreases |inputs|
  {
    hide Has, Truthful, Keeps, Accept, DecodeInputs, EncodeInputs, InputOps, Stores, SentFrom;
    SentHead(sent, first, inputs);
    var bytes, more := inputs[0], EncodeInputs(ops, Some(inputs[0]), inputs[1..]);
    SentSize(s, sent, ops.size, capacity, first);
    DecodeStep(s, ops, first, previous, inputs);
    AcceptTruthful(s, first, bytes, sent, ops.size, capacity);
    var s1 := Accept(s, first, bytes);
    if |inputs| > 1 {
      SentTail(sent, first, inputs);
      DecodeEncoded(s1, ops, first + 1, Some(bytes), inputs[1..], sent, capacity);
      var s' := DecodeInputs(s1, ops, first + 1, |inputs| - 1, Some(bytes), more).0;
      KeepsTrans(s, s1, s', capacity);
      StoresOneMore(s, s1, s', first, |inputs|, capacity);
    } else {
      NothingLeft(s1, ops, first, Some(bytes), more);
      StoresOne(s, s1, first, capacity);
    }
  }

  lemma NothingLeft(s: ServerInput, ops: ComponentOps, first: nat, previous: Option<Bytes>, bits: BitString)
    requires s.ring != []
    ensures DecodeInputs(s, ops, (first + 1) % FRAMES, 0, previous, bits) == (s, true)
  {
  }

  lemma StoresOne(s: ServerInput, s1: ServerInput, first: nat, capacity: nat)
    requires first > s.ack ==> Has(s1.ring, first)
    ensures Stores(s, s1, first, 1, capacity)
  {
  }

  lemma StoresOneMore(s: ServerInput, s1: ServerInput, s': ServerInput, first: nat, count: nat, capacity: nat)
    requires first > s.ack ==> Has(s1.ring, first)
    requires s1.ack == Max(s.ack, first) && Keeps(s1, s', capacity) && count > 0 && Stores(s1, s', first + 1, count - 1, capacity)
    ensures Stores(s, s', first, count, capacity)
  {
  }

  lemma SentSize(s: ServerInput, sent: map<nat, Bytes>, size: nat, capacity: nat, f: nat)
    requires Truthful(s, sent, size, capacity) && f in sent
    ensures |sent[f]| == size
  {
  }

  /** What a client that only tells the truth puts in a packet. */
  ghost predicate HonestPacket(p: InputPacket, sent: map<nat, Bytes>, size: nat) {
    && p.baseline < FRAMES && |p.inputs| <= MAX_INPUTS
    && (p.full ==> 0 < p.first < FRAMES)
    && (p.inputs != [] ==>
          && 0 < p.first && p.first + |p.inputs| <= FRAMES && SentFrom(sent, p.first, p.inputs)
          && (!p.full ==> p.first == p.baseline + 1
                          && (if p.baseline == 0 then p.previous == Zeros(size)
                              else p.baseline in sent && p.previous == sent[p.baseline])))
  }

  lemma ReadFlag(flag: bool, rest: BitString)
    ensures ReadField([flag] + rest, 1) == Some((if flag then 1 else 0, rest))
  {
    ReadAppended([flag], rest);
    assert [flag][1..] == [];
    assert Decode([flag]) == if flag then 1 else 0;
    assert Read([flag] + rest, 1) == Some(([flag], rest));
  }

  lemma ReadExplicit(p: InputPacket, rest: BitString)
    requires p.full ==> p.first < FRAMES
    ensures ReadField(ExplicitFirst(p) + rest, if p.full then 32 else 0) == Some((if p.full then p.first else 0, rest))
  {
    FieldWidths();
    hide Encode, Decode, Read, ReadField;
    if p.full {
      ReadFieldAppended(p.first, 32, rest);
    } else {
      ReadNothing(rest);
    }
  }

  lemma ReadNothing(rest: BitString)
    ensures ReadField([] + rest, 0) == Some((0, rest))
  {
    ReadAppended([], rest);
  }

  lemma FiveBits()
    ensures Pow2(5) == 32
  {
  }

  /** Reading back a packet's header. */
  lemma ProcessEncoded(s: ServerInput, ops: ComponentOps, capacity: nat, p: InputPacket)
    requires capacity > 0 && p.baseline < FRAMES && |p.inputs| <= MAX_INPUTS && (p.full ==> p.first < FRAMES)
    ensures Process(s, ops, capacity, EncodePacket(ops, p)) ==
            ProcessBody(s, ops, capacity, p.baseline, p.full, if p.full then p.first else (p.baseline + 1) % FRAMES,
                        |p.inputs|, EncodeInputs(ops, Base(p), p.inputs))
  {
    hide Read, ReadField, Encode, Decode, Pow2, EncodeInputs, ProcessBody, ExplicitFirst;
    FieldWidths();
    FiveBits();
    var rest4 := EncodeInputs(ops, Base(p), p.inputs);
    var rest3 := Encode(|p.inputs|, 5) + rest4;
    ReadFieldAppended(p.baseline, 32, [p.full] + (ExplicitFirst(p) + rest3));
    ReadFlag(p.full, ExplicitFirst(p) + rest3);
    ReadExplicit(p, rest3);
    ReadFieldAppended(|p.inputs|, 5, rest4);
  }

  /** A packet is passed over when the frame its differences start from is gone. */
  predicate PassedOver(s: ServerInput, p: InputPacket) {
    p.inputs == [] || (!p.full && p.baseline != 0 && !Has(s.ring, p.baseline))
  }

  /**
   Any honest packet, whenever and however often it arrives, is accepted: the
   ring stays truthful, the acknowledgement moves to the packet's last frame
   or stays, and every new frame still inside the window is stored.
   */
  lemma ProcessHonest(s: ServerInput, ops: ComponentOps, capacity: nat, p: InputPacket, sent: map<nat, Bytes>)
    requires capacity > 0 && InputOps(ops) && Truthful(s, sent, ops.size, capacity)
    requires HonestPacket(p, sent, ops.size) && p.baseline <= s.ack
    ensures var (s', ok) := Process(s, ops, capacity, EncodePacket(ops, p));
            && ok && Truthful(s', sent, ops.size, capacity) && Keeps(s, s', capacity)
            && (if PassedOver(s, p) then s' == s
                else s'.ack == Max(s.ack, p.first + |p.inputs| - 1) && Stores(s, s', p.first, |p.inputs|, capacity))
  {
    hide DecodeInputs, EncodeInputs, EncodePacket, Process, ProcessBody, InputOps, Max, Stores, Truthful, Keeps, Has;
    ProcessEncoded(s, ops, capacity, p);
    BodyCases(s, ops, capacity, p, sent, EncodeInputs(ops, Base(p), p.inputs));
    KeepsSelf(s, capacity);
    if !PassedOver(s, p) {
      GrowTruthful(s, sent, ops.size, capacity);
      DecodeEncoded(Grow(s, capacity), ops, p.first, Base(p), p.inputs, sent, capacity);
      var s' := DecodeInputs(Grow(s, capacity), ops, p.first, |p.inputs|, Base(p), EncodeInputs(ops, Base(p), p.inputs)).0;
      KeepsTrans(s, Grow(s, capacity), s', capacity);
      StoresSame(s, Grow(s, capacity), s', p.first, |p.inputs|, capacity);
    }
  }

  /** With an honest header, a packet is passed over or decoded from the right base. */
  lemma BodyCases(s: ServerInput, ops: ComponentOps, capacity: nat, p: InputPacket, sent: map<nat, Bytes>, bits: BitString)
    requires capacity > 0 && Truthful(s, sent, ops.size, capacity)
    requires HonestPacket(p, sent, ops.size) && p.baseline <= s.ack
    ensures var body := ProcessBody(s, ops, capacity, p.baseline, p.full, if p.full then p.first else (p.baseline + 1) % FRAMES,
                                    |p.inputs|, bits);
            body == if PassedOver(s, p) then (s, true) else DecodeInputs(Grow(s, capacity), ops, p.first, |p.inputs|, Base(p), bits)
  {
    hide DecodeInputs;
  }

  lemma KeepsSelf(s: ServerInput, capacity: nat)
    ensures Keeps(s, s, capacity)
  {
  }

  lemma StoresSame(s: ServerInput, s1: ServerInput, s': ServerInput, first: nat, count: nat, capacity: nat)
    requires Stores(s1, s', first, count, capacity) && s1.ack == s.ack
    ensures Stores(s, s', first, count, capacity)
  {
  }

  lemma GrowTruthful(s: ServerInput, sent: map<nat, Bytes>, size: nat, capacity: nat)
    requires capacity > 0 && Truthful(s, sent, size, capacity)
    ensures Truthful(Grow(s, capacity), sent, size, capacity) && Grow(s, capacity).ring != []
    ensures Keeps(s, Grow(s, capacity), capacity) && Grow(s, capacity).ack == s.ack
  {
  }

  // ------------------------------------------------------------- local input

  /** `set_local_frame`: the local player's own input, stored whatever was acknowledged. */
  function SetLocal(s: ServerInput, frame: nat, bytes: Bytes, capacity: nat): (ServerInput, bool) {
    if frame == 0 || bytes == [] || capacity == 0 then (s, false)
    else
      var g := Grow(s, capacity);
      (g.(ring := g.ring[frame % |g.ring| := StoredInput(frame, true, bytes)],
          latest := bytes, hasLatest := true, ack := Max(s.ack, frame),
          stats := s.stats.(latestReceived := Max(s.stats.latestReceived, frame))),
       true)
  }

  /**
   A local input keeps the latest input that of the acknowledged frame exactly
   when it is not older than that frame, or equal to that frame's input.
   */
  lemma SetLocalLatest(s: ServerInput, frame: nat, bytes: Bytes, sent: map<nat, Bytes>, size: nat, capacity: nat)
    requires Truthful(s, sent, size, capacity) && frame > 0 && bytes != [] && capacity > 0
    requires frame in sent && bytes == sent[frame]
    ensures var s' := SetLocal(s, frame, bytes, capacity).0;
            && s'.ack in sent && (s'.latest == sent[s'.ack] <==> frame >= s.ack || bytes == sent[s.ack])
            && (frame >= s.ack ==> Truthful(s', sent, size, capacity) && Keeps(s, s', capacity))
  {
    GrowTruthful(s, sent, size, capacity);
    var g, s' := Grow(s, capacity), SetLocal(s, frame, bytes, capacity).0;
    if frame > s.ack {
      AcceptTruthful(g, frame, bytes, sent, size, capacity);
      KeepsTrans(s, g, Accept(g, frame, bytes), capacity);
      assert s'.ring == Accept(g, frame, bytes).ring;
    } else if frame == s.ack {
      assert s'.ring == g.ring;
    }
  }

  // --------------------------------------------------------------- selection

  /** Whether the ring has `frame`'s input in the expected size. */
  predicate Usable(ring: seq<StoredInput>, frame: nat, size: nat) {
    Has(ring, frame) && |ring[frame % |ring|].bytes| == size
  }

  function WindowBegin(s: ServerInput, due: nat): nat {
    Max(s.appliedFrame + 1, if due > |s.ring| then due - |s.ring| + 1 else 1)
  }

  /** The newest usable frame from `begin` to `due`, or zero. */
  function Newest(ring: seq<StoredInput>, begin: nat, due: nat, size: nat): (f: nat)
    requires begin > 0
    ensures f != 0 ==> begin <= f <= due && Usable(ring, f, size)
    ensures forall g | Max(f + 1, begin) <= g <= due :: !Usable(ring, g, size)
    decreases due
  {
    if due < begin then 0
    else if Usable(ring, due, size) then due
    else Newest(ring, begin, due - 1, size)
  }

  /** `select_input_for_frame`; the result is the input to apply, if there is one yet. */
  function Select(s: ServerInput, due: nat, size: nat): (ServerInput, Option<Bytes>) {
    var best := if s.ring == [] then 0 else Newest(s.ring, WindowBegin(s, due), due, size);
    if best != 0 then
      var bytes := s.ring[best % |s.ring|].bytes;
      (s.(applied := bytes, appliedFrame := best, hasApplied := true,
          stats := s.stats.(applied := s.stats.applied + 1, latestApplied := best,
                            starvation := s.stats.starvation + if best < due then 1 else 0)),
       Some(bytes))
    else if s.hasApplied && |s.applied| == size then
      (s.(stats := s.stats.(starvation := s.stats.starvation + 1, reused := s.stats.reused + 1)), Some(s.applied))
    else (s.(stats := s.stats.(starvation := s.stats.starvation + 1)), None)
  }

  /** Whether the call found the due frame's own input. */
  predicate Exact(s: ServerInput, due: nat, size: nat) {
    due > s.appliedFrame && Usable(s.ring, due, size)
  }

  /**
   A new input is applied exactly when some frame in the window, later than
   the last applied, has one; it is the newest such frame's own input, and the
   call counts as starved exactly when that is not the due frame.
   */
  lemma SelectNewest(s: ServerInput, due: nat, size: nat, sent: map<nat, Bytes>, capacity: nat)
    requires Truthful(s, sent, size, capacity)
    ensures var (s', bytes) := Select(s, due, size);
            var found := exists f :: WindowBegin(s, due) <= f <= due && Has(s.ring, f);
            && s'.stats.starvation == s.stats.starvation + (if Exact(s, due, size) then 0 else 1)
            && (if found then
                  && s.appliedFrame < s'.appliedFrame <= due && Has(s.ring, s'.appliedFrame)
                  && (forall f | s'.appliedFrame < f <= due && WindowBegin(s, due) <= f :: !Has(s.ring, f))
                  && s'.appliedFrame in sent && bytes == Some(sent[s'.appliedFrame])
                  && s'.stats.applied == s.stats.applied + 1
                else
                  && s'.appliedFrame == s.appliedFrame && s'.applied == s.applied && s'.stats.applied == s.stats.applied
                  && bytes == (if s.hasApplied && |s.applied| == size then Some(s.applied) else None))
  {
    assert forall f: nat :: Has(s.ring, f) <==> Usable(s.ring, f, size);
    if s.ring != [] {
      var best := Newest(s.ring, WindowBegin(s, due), due, size);
      if Exact(s, due, size) {
        assert WindowBegin(s, due) <= due;
      }
    }
  }

  /** The state and the number of exact applications after a sequence of calls. */
  function Selections(s: ServerInput, dues: seq<nat>, size: nat): (ServerInput, nat) {
    if dues == [] then (s, 0)
    else
      var (before, exact) := Selections(s, dues[..|dues| - 1], size);
      var due := dues[|dues| - 1];
      (Select(before, due, size).0, exact + if Exact(before, due, size) then 1 else 0)
  }

  /** Over any calls, starved and exact ones add up, and the applied frame never goes back. */
  lemma {:induction false} StarvationAddsUp(s: ServerInput, dues: seq<nat>, size: nat)
    ensures var (s', exact) := Selections(s, dues, size);
            && s'.stats.starvation - s.stats.starvation + exact == |dues|
            && s'.appliedFrame >= s.appliedFrame && s'.ring == s.ring
  {
    if dues != [] {
      StarvationAddsUp(s, dues[..|dues| - 1], size);
      var before := Selections(s, dues[..|dues| - 1], size).0;
      var due := dues[|dues| - 1];
      if Exact(before, due, size) {
        assert WindowBegin(before, due) <= due;
      }
    }
  }
}
