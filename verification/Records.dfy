/**
 One entity's record in an update: in full, with the present slots named by a
 mask or by a list, or as the differences from a baseline.
 */
module Records {
  import opened Wrappers
  import opened Bits
  import opened World
  import opened FrameLayouts

  function Sizes(a: Archetype): (s: seq<nat>)
    ensures |s| == |a.ops| && forall i | 0 <= i < |s| :: s[i] == a.ops[i].size
  {
    seq(|a.ops|, i requires 0 <= i < |a.ops| => a.ops[i].size)
  }

  /** An archetype's frames and the replication mask they are sent under. */
  ghost predicate Sendable(a: Archetype, f: Frame, mask: BitString) {
    a.WellFormed() && Shaped(Sizes(a), f) && |mask| == MASK
  }

  predicate Included(f: Frame, mask: BitString, i: nat) {
    i < |f.present| && i < |mask| && f.present[i] && mask[i]
  }

  function SlotCount(a: Archetype): nat {
    |a.components| + 1
  }

  // ------------------------------------------------------------ field widths

  /** `bits_for_range`. */
  function BitsForRange(count: nat): (bits: nat)
    ensures bits >= 1
  {
    if count <= 1 then 1 else BitLength(count - 1)
  }

  function BitLength(value: nat): (bits: nat)
    ensures value > 0 ==> bits >= 1
  {
    if value == 0 then 0 else 1 + BitLength(value / 2)
  }

  lemma {:induction false} BitLengthFits(value: nat)
    ensures value < Pow2(BitLength(value))
  {
    if value > 0 {
      BitLengthFits(value / 2);
    }
  }

  lemma {:induction false} Pow2Grows(m: nat, n: nat)
    requires m <= n
    ensures Pow2(m) <= Pow2(n)
  {
    if m < n {
      Pow2Grows(m, n - 1);
    }
  }

  /** Every slot number fits the width used for slot numbers. */
  lemma SlotFits(a: Archetype, slot: nat)
    requires slot < SlotCount(a)
    ensures slot < Pow2(BitsForRange(SlotCount(a)))
  {
    BitLengthFits(SlotCount(a) - 1);
  }

  // ----------------------------------------------------------- baseline frame

  /** `write_baseline_frame`: the distance when it fits `width` bits, else the frame. */
  function WriteBaselineFrame(current: nat, baseline: nat, width: nat): BitString {
    if current >= baseline && current - baseline < Pow2(width) then [false] + Encode(current - baseline, width)
    else [true] + Encode(baseline, 32)
  }

  /** `read_baseline_frame`. */
  function ReadBaselineFrame(bits: BitString, current: nat, width: nat): Option<(nat, BitString)> {
    if bits == [] then None
    else
      match ReadField(bits[1..], if bits[0] then 32 else width)
      case None => None
      case Some((value, rest)) =>
        if bits[0] then Some((value, rest)) else if value > current then None else Some((current - value, rest))
  }

  lemma BaselineFrameRoundTrip(current: nat, baseline: nat, width: nat, rest: BitString)
    requires current < 0x1_0000_0000 && baseline < 0x1_0000_0000
    ensures ReadBaselineFrame(WriteBaselineFrame(current, baseline, width) + rest, current, width) == Some((baseline, rest))
  {
    hide Read, ReadField, Encode, Decode, Pow2;
    FieldWidths();
    var bits := WriteBaselineFrame(current, baseline, width) + rest;
    if current >= baseline && current - baseline < Pow2(width) {
      assert bits[1..] == Encode(current - baseline, width) + rest;
      ReadFieldAppended(current - baseline, width, rest);
    } else {
      assert bits[1..] == Encode(baseline, 32) + rest;
      ReadFieldAppended(baseline, 32, rest);
    }
  }

  // -------------------------------------------------------------- full record

  function CountIncluded(a: Archetype, f: Frame, mask: BitString, i: nat): nat
    decreases |a.components| - i
  {
    if i >= |a.components| then 0 else (if Included(f, mask, i) then 1 else 0) + CountIncluded(a, f, mask, i + 1)
  }

  function SlotsPresent(a: Archetype, f: Frame, mask: BitString): (slots: BitString)
    ensures |slots| == SlotCount(a)
    ensures slots[0] == a.HasTagSlot() && forall i | 0 <= i < |a.components| :: slots[i + 1] == Included(f, mask, i)
  {
    [a.HasTagSlot()] + seq(|a.components|, i requires 0 <= i < |a.components| => Included(f, mask, i))
  }

  function SlotNumber(a: Archetype, slot: nat, listed: bool): BitString {
    if listed then Encode(slot, BitsForRange(SlotCount(a))) else []
  }

  /** The components from `i` on. */
  function FullTail(a: Archetype, f: Frame, mask: BitString, listed: bool, i: nat): BitString
    requires |a.ops| == |a.components|
    decreases |a.components| - i
  {
    if i >= |a.components| then []
    else
      (if Included(f, mask, i) && Get(Sizes(a), f, i).Some?
       then SlotNumber(a, i + 1, listed) + a.ops[i].serialize(None, Get(Sizes(a), f, i).value) else [])
      + FullTail(a, f, mask, listed, i + 1)
  }

  function SlotTotal(a: Archetype, f: Frame, mask: BitString): nat {
    (if a.HasTagSlot() then 1 else 0) + CountIncluded(a, f, mask, 0)
  }

  function TagPart(a: Archetype, f: Frame, listed: bool): BitString
    requires |a.tags| <= |f.tags|
  {
    if a.HasTagSlot() then SlotNumber(a, 0, listed) + f.tags[..|a.tags|] else []
  }

  /** A full record after its header, with the given presence encoding. */
  function WriteFull(a: Archetype, f: Frame, mask: BitString, listed: bool): BitString
    requires |a.ops| == |a.components| && |a.tags| <= |f.tags|
  {
    [!listed] + ((if listed then Encode(SlotTotal(a, f, mask), 16) else SlotsPresent(a, f, mask))
    + (TagPart(a, f, listed) + FullTail(a, f, mask, listed, 0)))
  }

  /** The encoding `write_entity_record` chooses. */
  predicate ChoosesList(a: Archetype, f: Frame, mask: BitString) {
    SlotCount(a) >= 16 + SlotTotal(a, f, mask) * BitsForRange(SlotCount(a))
  }

  lemma {:induction false} TailLengths(a: Archetype, f: Frame, mask: BitString, i: nat)
    requires Sendable(a, f, mask) && i <= |a.components|
    ensures |FullTail(a, f, mask, true, i)| == |FullTail(a, f, mask, false, i)| + CountIncluded(a, f, mask, i) * BitsForRange(SlotCount(a))
    decreases |a.components| - i
  {
    hide Sizes, BitsForRange, Encode, Get, Shaped, Included, FullTail, CountIncluded;
    ShapedTags(a, f, mask);
    LengthStep(a, f, mask, i);
    if i < |a.components| {
      TailLengths(a, f, mask, i + 1);
      TimesOneMore(CountIncluded(a, f, mask, i + 1), BitsForRange(SlotCount(a)));
    }
  }

  lemma TimesOneMore(n: nat, w: nat)
    ensures (n + 1) * w == n * w + w
  {
  }

  /** A listed slot takes its number more than an unlisted one. */
  lemma LengthStep(a: Archetype, f: Frame, mask: BitString, i: nat)
    requires Sendable(a, f, mask) && i <= |a.components|
    ensures |a.ops| == |a.components|
    ensures i == |a.components| ==> FullTail(a, f, mask, true, i) == FullTail(a, f, mask, false, i) == [] && CountIncluded(a, f, mask, i) == 0
    ensures i < |a.components| ==>
              var more := if Included(f, mask, i) then 1 else 0;
              && CountIncluded(a, f, mask, i) == CountIncluded(a, f, mask, i + 1) + more
              && |FullTail(a, f, mask, true, i)| - |FullTail(a, f, mask, false, i)|
                 == |FullTail(a, f, mask, true, i + 1)| - |FullTail(a, f, mask, false, i + 1)| + (if more == 1 then BitsForRange(SlotCount(a)) else 0)
  {
    hide Sizes, BitsForRange, Encode, Get, Shaped, Included;
    ShapedTags(a, f, mask);
    if i < |a.components| {
      IncludedGets(a, f, mask, i);
    }
  }

  lemma IncludedGets(a: Archetype, f: Frame, mask: BitString, i: nat)
    requires Sendable(a, f, mask) && i < |a.components|
    ensures Included(f, mask, i) ==> Get(Sizes(a), f, i).Some?
  {
    PresentGets(Sizes(a), f, i);
  }

  /** The chosen encoding is never the longer one. */
  lemma ChosenIsShortest(a: Archetype, f: Frame, mask: BitString)
    requires Sendable(a, f, mask)
    ensures |WriteFull(a, f, mask, ChoosesList(a, f, mask))| <= |WriteFull(a, f, mask, !ChoosesList(a, f, mask))|
  {
    hide FullTail, CountIncluded, BitsForRange, Shaped, Sizes;
    ShapedTags(a, f, mask);
    TailLengths(a, f, mask, 0);
    var w, k := BitsForRange(SlotCount(a)), CountIncluded(a, f, mask, 0);
    assert (1 + k) * w == w + k * w;
  }

  // ------------------------------------------------------ reading a full record

  /** The frame decoded so far, the slots seen, and the bits left. */
  datatype Decoded = Decoded(frame: Frame, slots: set<nat>, rest: BitString)

  /** A tag mask of fewer than 64 tags, read into a machine word. */
  function Widen(tags: BitString): (w: BitString)
    requires |tags| <= MASK
    ensures |w| == MASK && forall i | 0 <= i < MASK :: w[i] == (i < |tags| && tags[i])
  {
    seq(MASK, i requires 0 <= i < MASK => i < |tags| && tags[i])
  }

  /** `read_slot`: one slot's content. */
  function ReadSlot(a: Archetype, d: Decoded, slot: nat): Option<Decoded>
    requires |a.tags| <= MASK
  {
    if slot >= SlotCount(a) then None
    else if slot == 0 then
      if !a.HasTagSlot() || |d.rest| < |a.tags| then None
      else Some(Decoded(d.frame.(tags := Widen(d.rest[..|a.tags|])), d.slots + {0}, d.rest[|a.tags|..]))
    else if slot - 1 >= |a.ops| then None
    else
      match a.ops[slot - 1].deserialize(None, d.rest)
      case None => None
      case Some((bytes, rest)) =>
        if Shaped(Sizes(a), d.frame) && |bytes| == a.ops[slot - 1].size
        then Some(Decoded(Put(Sizes(a), d.frame, slot - 1, bytes), d.slots + {slot}, rest)) else None
  }

  function ReadMasked(a: Archetype, d: Decoded, present: BitString, slot: nat): Option<Decoded>
    requires |a.tags| <= MASK
    decreases |present| - slot
  {
    if slot >= |present| then Some(d)
    else if !present[slot] then ReadMasked(a, d, present, slot + 1)
    else
      match ReadSlot(a, d, slot)
      case None => None
      case Some(d') => ReadMasked(a, d', present, slot + 1)
  }

  function ReadListed(a: Archetype, d: Decoded, count: nat): Option<Decoded>
    requires |a.tags| <= MASK
    decreases count
  {
    if count == 0 then Some(d)
    else
      match ReadField(d.rest, BitsForRange(SlotCount(a)))
      case None => None
      case Some((slot, rest)) =>
        match ReadSlot(a, d.(rest := rest), slot)
        case None => None
        case Some(d') => ReadListed(a, d', count - 1)
  }

  /** `decode_full_upsert_record_payload`. */
  function ReadFull(a: Archetype, bits: BitString): Option<Decoded>
    requires |a.tags| <= MASK
  {
    if bits == [] then None
    else if bits[0] then
      match Read(bits[1..], SlotCount(a))
      case None => None
      case Some((present, rest)) => ReadMasked(a, Decoded(Init(Sizes(a)), {}, rest), present, 0)
    else
      match ReadField(bits[1..], 16)
      case None => None
      case Some((count, rest)) => ReadListed(a, Decoded(Init(Sizes(a)), {}, rest), count)
  }

  // -------------------------------------------------------- the round trips

  /** What a receiver can know of a frame: its own tags, and the included components. */
  function Visible(a: Archetype, f: Frame, mask: BitString, count: nat): (v: Frame)
    requires a.WellFormed() && Shaped(Sizes(a), f) && |mask| == MASK && count <= |a.components|
    ensures Shaped(Sizes(a), v)
    ensures v.tags == if a.HasTagSlot() then Widen(f.tags[..|a.tags|]) else Clear()
    ensures forall i: nat :: Get(Sizes(a), v, i) == if i < count && Included(f, mask, i) then Get(Sizes(a), f, i) else None
  {
    if count == 0 then
      var v := Init(Sizes(a)).(tags := if a.HasTagSlot() then Widen(f.tags[..|a.tags|]) else Clear());
      InitShaped(Sizes(a), v);
      v
    else
      var v := Visible(a, f, mask, count - 1);
      PresentGets(Sizes(a), f, count - 1);
      if Included(f, mask, count - 1) then
        PutEach(Sizes(a), v, count - 1, Get(Sizes(a), f, count - 1).value);
        Put(Sizes(a), v, count - 1, Get(Sizes(a), f, count - 1).value)
      else v
  }

  lemma InitShaped(sizes: seq<nat>, v: Frame)
    requires |sizes| <= MAX_COMPONENTS && |v.tags| == MASK && v == Init(sizes).(tags := v.tags)
    ensures Shaped(sizes, v) && forall i: nat :: Get(sizes, v, i) == None
  {
  }

  lemma PutEach(sizes: seq<nat>, f: Frame, i: nat, value: Bytes)
    requires Shaped(sizes, f) && i < |sizes| && |value| == sizes[i]
    ensures var g := Put(sizes, f, i, value);
            Shaped(sizes, g) && g.tags == f.tags && forall j: nat :: Get(sizes, g, j) == if j == i then Some(value) else Get(sizes, f, j)
  {
    forall j: nat ensures Get(sizes, Put(sizes, f, i, value), j) == if j == i then Some(value) else Get(sizes, f, j) {
      PutGet(sizes, f, i, value, j);
    }
    PutGet(sizes, f, i, value, i);
  }

  /** The slots a full record carries, up to component `count`. */
  function SlotSet(a: Archetype, f: Frame, mask: BitString, count: nat): set<nat> {
    (if a.HasTagSlot() then {0} else {}) + set i: nat | i < count && Included(f, mask, i) :: i + 1
  }

  lemma SlotSetStep(a: Archetype, f: Frame, mask: BitString, i: nat)
    ensures SlotSet(a, f, mask, i + 1) == if Included(f, mask, i) then SlotSet(a, f, mask, i) + {i + 1} else SlotSet(a, f, mask, i)
  {
  }

  /** Everything up to component `i` has been read, and `more` is left. */
  function DecodedUpTo(a: Archetype, f: Frame, mask: BitString, i: nat, more: BitString): Decoded
    requires a.WellFormed() && Shaped(Sizes(a), f) && |mask| == MASK && i <= |a.components|
  {
    Decoded(Visible(a, f, mask, i), SlotSet(a, f, mask, i), more)
  }

  lemma ReadComponent(a: Archetype, f: Frame, mask: BitString, i: nat, more: BitString)
    requires Sendable(a, f, mask) && i < |a.components| && Included(f, mask, i)
    ensures Get(Sizes(a), f, i).Some?
    ensures ReadSlot(a, DecodedUpTo(a, f, mask, i, a.ops[i].serialize(None, Get(Sizes(a), f, i).value) + more), i + 1)
            == Some(DecodedUpTo(a, f, mask, i + 1, more))
  {
    PresentGets(Sizes(a), f, i);
    SlotSetStep(a, f, mask, i);
    var x := Get(Sizes(a), f, i).value;
    assert a.ops[i].Lawful();
    assert a.ops[i].deserialize(None, a.ops[i].serialize(None, x) + more) == Some((x, more));
    VisibleStep(a, f, mask, i);
  }

  lemma VisibleStep(a: Archetype, f: Frame, mask: BitString, i: nat)
    requires Sendable(a, f, mask) && i < |a.components|
    ensures Included(f, mask, i) ==> Get(Sizes(a), f, i).Some? && |Get(Sizes(a), f, i).value| == Sizes(a)[i]
    ensures Visible(a, f, mask, i + 1)
            == if Included(f, mask, i) then Put(Sizes(a), Visible(a, f, mask, i), i, Get(Sizes(a), f, i).value) else Visible(a, f, mask, i)
  {
    PresentGets(Sizes(a), f, i);
  }

  lemma TailStep(a: Archetype, f: Frame, mask: BitString, listed: bool, i: nat, rest: BitString)
    requires Sendable(a, f, mask) && i < |a.components| && Included(f, mask, i)
    ensures Get(Sizes(a), f, i).Some?
    ensures FullTail(a, f, mask, listed, i) + rest
            == SlotNumber(a, i + 1, listed) + (a.ops[i].serialize(None, Get(Sizes(a), f, i).value) + (FullTail(a, f, mask, listed, i + 1) + rest))
  {
    hide Get, BitsForRange, Encode;
    PresentGets(Sizes(a), f, i);
  }

  lemma TailEnd(a: Archetype, f: Frame, mask: BitString, listed: bool, rest: BitString)
    requires |a.ops| == |a.components|
    ensures FullTail(a, f, mask, listed, |a.components|) + rest == rest
  {
  }

  lemma {:induction false} MaskedTail(a: Archetype, f: Frame, mask: BitString, i: nat, rest: BitString)
    requires Sendable(a, f, mask) && i <= |a.components|
    ensures ReadMasked(a, DecodedUpTo(a, f, mask, i, FullTail(a, f, mask, false, i) + rest), SlotsPresent(a, f, mask), i + 1)
            == Some(DecodedUpTo(a, f, mask, |a.components|, rest))
    decreases |a.components| - i
  {
    hide Visible, SlotSet, Get, ReadSlot, Archetype.WellFormed, Shaped, FullTail, SlotsPresent, Sizes, Included;
    ShapedTags(a, f, mask);
    if i < |a.components| {
      var more := FullTail(a, f, mask, false, i + 1) + rest;
      MaskedTail(a, f, mask, i + 1, rest);
      if Included(f, mask, i) {
        ReadComponent(a, f, mask, i, more);
        TailStep(a, f, mask, false, i, rest);
        assert [] + (a.ops[i].serialize(None, Get(Sizes(a), f, i).value) + more) == a.ops[i].serialize(None, Get(Sizes(a), f, i).value) + more;
      } else {
        Skipped(a, f, mask, i, false, rest);
      }
    } else {
      TailEnd(a, f, mask, false, rest);
    }
  }

  lemma Skipped(a: Archetype, f: Frame, mask: BitString, i: nat, listed: bool, rest: BitString)
    requires Sendable(a, f, mask) && i < |a.components| && !Included(f, mask, i)
    ensures DecodedUpTo(a, f, mask, i, FullTail(a, f, mask, listed, i) + rest)
            == DecodedUpTo(a, f, mask, i + 1, FullTail(a, f, mask, listed, i + 1) + rest)
  {
    SlotSetStep(a, f, mask, i);
    VisibleStep(a, f, mask, i);
    assert FullTail(a, f, mask, listed, i) == FullTail(a, f, mask, listed, i + 1);
  }

  lemma {:induction false} ListedTail(a: Archetype, f: Frame, mask: BitString, i: nat, rest: BitString)
    requires Sendable(a, f, mask) && i <= |a.components|
    ensures ReadListed(a, DecodedUpTo(a, f, mask, i, FullTail(a, f, mask, true, i) + rest), CountIncluded(a, f, mask, i))
            == Some(DecodedUpTo(a, f, mask, |a.components|, rest))
    decreases |a.components| - i
  {
    hide Visible, SlotSet, Get, ReadSlot, Archetype.WellFormed, Shaped, ReadField, Encode, BitsForRange, FullTail, Sizes, Included;
    ShapedTags(a, f, mask);
    if i < |a.components| {
      var more := FullTail(a, f, mask, true, i + 1) + rest;
      ListedTail(a, f, mask, i + 1, rest);
      if Included(f, mask, i) {
        ReadComponent(a, f, mask, i, more);
        var payload := a.ops[i].serialize(None, Get(Sizes(a), f, i).value);
        TailStep(a, f, mask, true, i, rest);
        SlotFits(a, i + 1);
        ReadFieldAppended(i + 1, BitsForRange(SlotCount(a)), payload + more);
      } else {
        Skipped(a, f, mask, i, true, rest);
      }
    } else {
      TailEnd(a, f, mask, true, rest);
    }
  }

  /** Slot 0, the tags. */
  lemma ReadTags(a: Archetype, f: Frame, mask: BitString, more: BitString)
    requires Sendable(a, f, mask) && a.HasTagSlot()
    ensures ReadSlot(a, Decoded(Init(Sizes(a)), {}, f.tags[..|a.tags|] + more), 0) == Some(DecodedUpTo(a, f, mask, 0, more))
  {
    assert (f.tags[..|a.tags|] + more)[..|a.tags|] == f.tags[..|a.tags|];
    assert (f.tags[..|a.tags|] + more)[|a.tags|..] == more;
    assert SlotSet(a, f, mask, 0) == {} + {0};
    assert DecodedUpTo(a, f, mask, 0, more).frame == Init(Sizes(a)).(tags := Widen(f.tags[..|a.tags|]));
  }

  lemma NoTags(a: Archetype, f: Frame, mask: BitString, more: BitString)
    requires Sendable(a, f, mask) && !a.HasTagSlot()
    ensures Decoded(Init(Sizes(a)), {}, more) == DecodedUpTo(a, f, mask, 0, more)
  {
    assert SlotSet(a, f, mask, 0) == {};
  }

  lemma {:induction false} CountBound(a: Archetype, f: Frame, mask: BitString, i: nat)
    requires i <= |a.components|
    ensures CountIncluded(a, f, mask, i) <= |a.components| - i
    decreases |a.components| - i
  {
    if i < |a.components| {
      CountBound(a, f, mask, i + 1);
    }
  }

  lemma MaskedRoundTrip(a: Archetype, f: Frame, mask: BitString, rest: BitString)
    requires Sendable(a, f, mask)
    ensures ReadFull(a, WriteFull(a, f, mask, false) + rest) == Some(DecodedUpTo(a, f, mask, |a.components|, rest))
  {
    hide Visible, SlotSet, ReadSlot, Shaped, FullTail, Archetype.WellFormed;
    ShapedTags(a, f, mask);
    var slots := SlotsPresent(a, f, mask);
    var tail := FullTail(a, f, mask, false, 0) + rest;
    var bits := WriteFull(a, f, mask, false) + rest;
    assert bits[1..] == slots + (TagPart(a, f, false) + tail);
    ReadAppended(slots, TagPart(a, f, false) + tail);
    MaskedTail(a, f, mask, 0, rest);
    if a.HasTagSlot() {
      assert TagPart(a, f, false) == f.tags[..|a.tags|];
      ReadTags(a, f, mask, tail);
    } else {
      NoTags(a, f, mask, tail);
      assert TagPart(a, f, false) + tail == tail;
    }
  }

  lemma ShapedTags(a: Archetype, f: Frame, mask: BitString)
    requires Sendable(a, f, mask)
    ensures |a.tags| <= MASK == |f.tags| && |a.ops| == |a.components| <= MAX_COMPONENTS
  {
  }

  lemma ListedRoundTrip(a: Archetype, f: Frame, mask: BitString, rest: BitString)
    requires Sendable(a, f, mask)
    ensures ReadFull(a, WriteFull(a, f, mask, true) + rest) == Some(DecodedUpTo(a, f, mask, |a.components|, rest))
  {
    hide Visible, SlotSet, ReadSlot, Shaped, FullTail, Archetype.WellFormed, ReadField, Encode, CountIncluded, BitsForRange;
    ShapedTags(a, f, mask);
    var tail := FullTail(a, f, mask, true, 0) + rest;
    var total := SlotTotal(a, f, mask);
    var bits := WriteFull(a, f, mask, true) + rest;
    CountBound(a, f, mask, 0);
    FieldWidths();
    assert bits[1..] == Encode(total, 16) + (TagPart(a, f, true) + tail);
    ReadFieldAppended(total, 16, TagPart(a, f, true) + tail);
    ListedTail(a, f, mask, 0, rest);
    if a.HasTagSlot() {
      SlotFits(a, 0);
      assert TagPart(a, f, true) + tail == Encode(0, BitsForRange(SlotCount(a))) + (f.tags[..|a.tags|] + tail);
      ReadFieldAppended(0, BitsForRange(SlotCount(a)), f.tags[..|a.tags|] + tail);
      ReadTags(a, f, mask, tail);
    } else {
      NoTags(a, f, mask, tail);
      assert TagPart(a, f, true) + tail == tail;
    }
  }

  /**
   A full record decodes to the same slots and the same frame whichever
   presence encoding was chosen: the tags, and exactly the components that are
   present and replicated, each with its bytes.
   */
  lemma FullRoundTrip(a: Archetype, f: Frame, mask: BitString, listed: bool, rest: BitString)
    requires Sendable(a, f, mask)
    ensures var d := ReadFull(a, WriteFull(a, f, mask, listed) + rest);
            && d.Some? && d == ReadFull(a, WriteFull(a, f, mask, !listed) + rest)
            && d.value.rest == rest && Shaped(Sizes(a), d.value.frame)
            && (forall slot: nat :: slot in d.value.slots <==>
                  if slot == 0 then a.HasTagSlot() else slot <= |a.components| && Included(f, mask, slot - 1))
            && (forall i: nat :: Get(Sizes(a), d.value.frame, i) == if i < |a.components| && Included(f, mask, i) then Get(Sizes(a), f, i) else None)
            && (forall t | 0 <= t < MASK :: d.value.frame.tags[t] <==> t < |a.tags| && f.tags[t])
  {
    hide ReadFull, WriteFull, Get, Visible, Included, Sizes, SlotSet, Shaped, Archetype.WellFormed;
    ShapedTags(a, f, mask);
    MaskedRoundTrip(a, f, mask, rest);
    ListedRoundTrip(a, f, mask, rest);
    SlotSetIs(a, f, mask);
  }

  lemma SlotSetIs(a: Archetype, f: Frame, mask: BitString)
    ensures forall slot: nat :: slot in SlotSet(a, f, mask, |a.components|) <==>
              if slot == 0 then a.HasTagSlot() else slot <= |a.components| && Included(f, mask, slot - 1)
  {
    hide Included;
    forall slot: nat
      ensures slot in SlotSet(a, f, mask, |a.components|) <==>
                if slot == 0 then a.HasTagSlot() else slot <= |a.components| && Included(f, mask, slot - 1)
    {
      if slot > 0 {
        assert slot == (slot - 1) + 1;
      }
    }
  }
}
