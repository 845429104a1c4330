/** A record as differences from a baseline both ends know, and the choice between the two kinds of record. */
module DeltaRecords {
  import opened Wrappers
  import opened Bits
  import opened World
  import opened FrameLayouts
  import opened Records

  predicate TagsChanged(a: Archetype, f: Frame, base: Frame)
    requires |a.tags| <= |f.tags| && |a.tags| <= |base.tags|
  {
    a.HasTagSlot() && f.tags[..|a.tags|] != base.tags[..|a.tags|]
  }

  predicate Differs(a: Archetype, f: Frame, base: Frame, mask: BitString, i: nat) {
    Included(f, mask, i) && Get(Sizes(a), f, i) != Get(Sizes(a), base, i)
  }

  function ChangedSlots(a: Archetype, f: Frame, base: Frame, mask: BitString): (slots: BitString)
    requires |a.tags| <= |f.tags| && |a.tags| <= |base.tags|
    ensures |slots| == SlotCount(a)
    ensures slots[0] == TagsChanged(a, f, base) && forall i | 0 <= i < |a.components| :: slots[i + 1] == Differs(a, f, base, mask, i)
  {
    [TagsChanged(a, f, base)] + seq(|a.components|, i requires 0 <= i < |a.components| => Differs(a, f, base, mask, i))
  }

  function DeltaTail(a: Archetype, f: Frame, base: Frame, mask: BitString, i: nat): BitString
    requires |a.ops| == |a.components|
    decreases |a.components| - i
  {
    if i >= |a.components| then []
    else
      (if Differs(a, f, base, mask, i) && Get(Sizes(a), f, i).Some?
       then a.ops[i].serialize(Get(Sizes(a), base, i), Get(Sizes(a), f, i).value) else [])
      + DeltaTail(a, f, base, mask, i + 1)
  }

  /** A delta record after its header. */
  function WriteDelta(a: Archetype, f: Frame, base: Frame, mask: BitString): BitString
    requires |a.ops| == |a.components| && |a.tags| <= |f.tags| && |a.tags| <= |base.tags|
  {
    ChangedSlots(a, f, base, mask)
    + ((if TagsChanged(a, f, base) then f.tags[..|a.tags|] else []) + DeltaTail(a, f, base, mask, 0))
  }

  /** The component loop of `decode_delta_upsert_record_payload`. */
  function ReadChanged(a: Archetype, baseline: Frame, changed: BitString, i: nat, frame: Frame, bits: BitString): Option<(Frame, BitString)>
    decreases |a.components| - i
  {
    if i >= |a.components| then Some((frame, bits))
    else if !(i + 1 < |changed| && changed[i + 1]) then ReadChanged(a, baseline, changed, i + 1, frame, bits)
    else if i >= |a.ops| || Get(Sizes(a), baseline, i).None? then None
    else
      match a.ops[i].deserialize(Get(Sizes(a), baseline, i), bits)
      case None => None
      case Some((bytes, rest)) =>
        if Shaped(Sizes(a), frame) && |bytes| == a.ops[i].size
        then ReadChanged(a, baseline, changed, i + 1, Put(Sizes(a), frame, i, bytes), rest) else None
  }

  /** `decode_delta_upsert_record_payload`. */
  function ReadDelta(a: Archetype, baseline: Frame, bits: BitString): Option<(Frame, BitString)>
    requires |a.tags| <= MASK
  {
    match Read(bits, SlotCount(a))
    case None => None
    case Some((changed, rest)) =>
      if !changed[0] then ReadChanged(a, baseline, changed, 0, baseline, rest)
      else if !a.HasTagSlot() then None
      else
        match Read(rest, |a.tags|)
        case None => None
        case Some((tags, rest')) => ReadChanged(a, baseline, changed, 0, baseline.(tags := Widen(tags)), rest')
  }

  // ------------------------------------------------------------- correctness

  /** Two frames of an archetype look the same through a replication mask. */
  ghost predicate Agree(a: Archetype, x: Frame, y: Frame, mask: BitString)
    requires |mask| == MASK
  {
    && |a.tags| <= |x.tags| && |a.tags| <= |y.tags| && x.tags[..|a.tags|] == y.tags[..|a.tags|]
    && (forall i | 0 <= i < |a.components| && i < MASK && mask[i] :: Get(Sizes(a), x, i) == Get(Sizes(a), y, i))
  }

  /** The receiver's baseline with the first changed components replaced. */
  function Patched(a: Archetype, received: Frame, f: Frame, base: Frame, mask: BitString, count: nat): (p: Frame)
    requires a.WellFormed() && Shaped(Sizes(a), f) && Shaped(Sizes(a), received) && |mask| == MASK && count <= |a.components|
    ensures Shaped(Sizes(a), p) && p.tags == received.tags
    ensures forall i: nat :: Get(Sizes(a), p, i) == if i < count && Differs(a, f, base, mask, i) then Get(Sizes(a), f, i) else Get(Sizes(a), received, i)
  {
    if count == 0 then received
    else
      var p := Patched(a, received, f, base, mask, count - 1);
      if Differs(a, f, base, mask, count - 1) then
        PresentGets(Sizes(a), f, count - 1);
        PutEach(Sizes(a), p, count - 1, Get(Sizes(a), f, count - 1).value);
        Put(Sizes(a), p, count - 1, Get(Sizes(a), f, count - 1).value)
      else p
  }

  /** The sender's and receiver's baselines, as the delta between them needs them. */
  ghost predicate Deltable(a: Archetype, f: Frame, base: Frame, received: Frame, mask: BitString) {
    && Sendable(a, f, mask) && Sendable(a, base, mask) && Shaped(Sizes(a), received)
    && base.present == f.present && Agree(a, received, base, mask)
  }

  lemma PatchStep(a: Archetype, f: Frame, base: Frame, received: Frame, start: Frame, mask: BitString, i: nat)
    requires Deltable(a, f, base, received, mask) && Shaped(Sizes(a), start) && i < |a.components| && Differs(a, f, base, mask, i)
    ensures Get(Sizes(a), f, i).Some? && |Get(Sizes(a), f, i).value| == a.ops[i].size
    ensures Get(Sizes(a), received, i) == Get(Sizes(a), base, i) && Get(Sizes(a), base, i).Some?
    ensures Patched(a, start, f, base, mask, i + 1) == Put(Sizes(a), Patched(a, start, f, base, mask, i), i, Get(Sizes(a), f, i).value)
  {
    PresentGets(Sizes(a), f, i);
    PresentGets(Sizes(a), base, i);
  }

  lemma DeltaStep(a: Archetype, f: Frame, base: Frame, mask: BitString, i: nat, rest: BitString)
    requires |a.ops| == |a.components| && i < |a.components| && Get(Sizes(a), f, i).Some?
    ensures DeltaTail(a, f, base, mask, i) + rest
            == if Differs(a, f, base, mask, i)
               then a.ops[i].serialize(Get(Sizes(a), base, i), Get(Sizes(a), f, i).value) + (DeltaTail(a, f, base, mask, i + 1) + rest)
               else DeltaTail(a, f, base, mask, i + 1) + rest
  {
    hide Get, Differs;
  }

  lemma DeltaSkip(a: Archetype, f: Frame, base: Frame, mask: BitString, i: nat)
    requires |a.ops| == |a.components| && i < |a.components| && !Differs(a, f, base, mask, i)
    ensures DeltaTail(a, f, base, mask, i) == DeltaTail(a, f, base, mask, i + 1)
  {
    hide Get, Differs;
  }

  lemma {:induction false} ChangedRoundTrip(a: Archetype, f: Frame, base: Frame, received: Frame, start: Frame, mask: BitString, i: nat, rest: BitString)
    requires Deltable(a, f, base, received, mask) && Shaped(Sizes(a), start) && i <= |a.components|
    ensures |a.tags| <= |f.tags| && |a.tags| <= |base.tags| && |a.ops| == |a.components|
    ensures ReadChanged(a, received, ChangedSlots(a, f, base, mask), i, Patched(a, start, f, base, mask, i), DeltaTail(a, f, base, mask, i) + rest)
            == Some((Patched(a, start, f, base, mask, |a.components|), rest))
    decreases |a.components| - i
  {
    hide Get, Differs, Shaped, Sizes, ChangedSlots, Agree, DeltaTail, Archetype.WellFormed;
    ShapedTags(a, f, mask);
    ShapedTags(a, base, mask);
    if i < |a.components| {
      ChangedRoundTrip(a, f, base, received, start, mask, i + 1, rest);
      if Differs(a, f, base, mask, i) {
        PatchStep(a, f, base, received, start, mask, i);
        DeltaStep(a, f, base, mask, i, rest);
        LawfulAt(a, i);
        var more := DeltaTail(a, f, base, mask, i + 1) + rest;
        var x := Get(Sizes(a), f, i).value;
        assert a.ops[i].deserialize(Get(Sizes(a), base, i), a.ops[i].serialize(Get(Sizes(a), base, i), x) + more) == Some((x, more));
      } else {
        DeltaSkip(a, f, base, mask, i);
      }
    } else {
      EndOfDelta(a, f, base, mask, rest);
    }
  }

  lemma LawfulAt(a: Archetype, i: nat)
    requires a.WellFormed() && i < |a.ops|
    ensures a.ops[i].Lawful()
  {
  }

  lemma EndOfDelta(a: Archetype, f: Frame, base: Frame, mask: BitString, rest: BitString)
    requires |a.ops| == |a.components|
    ensures DeltaTail(a, f, base, mask, |a.components|) + rest == rest
  {
  }

  lemma DeltaReads(a: Archetype, f: Frame, base: Frame, received: Frame, mask: BitString, rest: BitString)
    requires Deltable(a, f, base, received, mask)
    ensures |a.tags| <= |f.tags| && |a.tags| <= |base.tags| && |a.ops| == |a.components| && |a.tags| <= MASK
    ensures ReadDelta(a, received, WriteDelta(a, f, base, mask) + rest)
            == Some((Patched(a, Retagged(a, f, base, received), f, base, mask, |a.components|), rest))
  {
    hide Get, Differs, Sizes, ChangedSlots, Agree, DeltaTail, ReadChanged, Patched, Archetype.WellFormed;
    ShapedTags(a, f, mask);
    ShapedTags(a, base, mask);
    var slots, tail := ChangedSlots(a, f, base, mask), DeltaTail(a, f, base, mask, 0) + rest;
    var tags := if TagsChanged(a, f, base) then f.tags[..|a.tags|] else [];
    assert WriteDelta(a, f, base, mask) + rest == slots + (tags + tail);
    ReadAppended(slots, tags + tail);
    var start := Retagged(a, f, base, received);
    ChangedRoundTrip(a, f, base, received, start, mask, 0, rest);
    NothingPatched(a, start, f, base, mask);
    if TagsChanged(a, f, base) {
      ReadAppended(tags, tail);
    } else {
      assert tags + tail == tail;
    }
  }

  lemma NothingPatched(a: Archetype, start: Frame, f: Frame, base: Frame, mask: BitString)
    requires a.WellFormed() && Shaped(Sizes(a), f) && Shaped(Sizes(a), start) && |mask| == MASK
    ensures Patched(a, start, f, base, mask, 0) == start
  {
  }

  /** The receiver's baseline with the tags the delta carries, if it carries any. */
  function Retagged(a: Archetype, f: Frame, base: Frame, received: Frame): Frame
    requires |a.tags| <= |f.tags| && |a.tags| <= |base.tags| && |a.tags| <= MASK
  {
    if TagsChanged(a, f, base) then received.(tags := Widen(f.tags[..|a.tags|])) else received
  }

  /**
   A delta applied to a baseline that agrees with the sender's gives the
   current frame on every replicated component, and leaves every other
   component at the baseline.
   */
  lemma DeltaPatches(a: Archetype, f: Frame, base: Frame, received: Frame, mask: BitString, rest: BitString)
    requires Deltable(a, f, base, received, mask)
    ensures |a.tags| <= |f.tags| && |a.tags| <= |base.tags| && |a.ops| == |a.components| && |a.tags| <= MASK
    ensures var d := ReadDelta(a, received, WriteDelta(a, f, base, mask) + rest);
            && d.Some? && d.value.1 == rest && Shaped(Sizes(a), d.value.0) && Agree(a, d.value.0, f, mask)
            && (forall i: nat | i >= |a.components| || !mask[i] :: Get(Sizes(a), d.value.0, i) == Get(Sizes(a), received, i))
  {
    hide ReadDelta, WriteDelta, Sizes;
    ShapedTags(a, f, mask);
    ShapedTags(a, base, mask);
    DeltaReads(a, f, base, received, mask, rest);
    var start := Retagged(a, f, base, received);
    SameTags(a, f, base, received, mask);
    var p := Patched(a, start, f, base, mask, |a.components|);
    hide Get, Patched;
    forall i: nat
      ensures i < |a.components| && mask[i] ==> Get(Sizes(a), p, i) == Get(Sizes(a), f, i)
      ensures i >= |a.components| || !mask[i] ==> Get(Sizes(a), p, i) == Get(Sizes(a), received, i)
    {
      RetaggedGets(a, f, base, received, i);
      if i < |a.components| {
        PresentGets(Sizes(a), f, i);
        PresentGets(Sizes(a), base, i);
      }
    }
  }

  lemma RetaggedGets(a: Archetype, f: Frame, base: Frame, received: Frame, i: nat)
    requires |a.tags| <= |f.tags| && |a.tags| <= |base.tags| && |a.tags| <= MASK
    ensures Get(Sizes(a), Retagged(a, f, base, received), i) == Get(Sizes(a), received, i)
  {
  }

  lemma SameTags(a: Archetype, f: Frame, base: Frame, received: Frame, mask: BitString)
    requires Deltable(a, f, base, received, mask) && |a.tags| <= MASK
    ensures |a.tags| <= |f.tags| && |a.tags| <= |base.tags|
    ensures var start := Retagged(a, f, base, received);
            Shaped(Sizes(a), start) && start.tags[..|a.tags|] == f.tags[..|a.tags|]
  {
    hide Get, Sizes, Differs;
    if !TagsChanged(a, f, base) && !a.HasTagSlot() {
      assert |a.tags| == 0;
    }
  }

  // --------------------------------------------------------- the whole record

  /** `write_entity_record` after its header: a delta when there is a baseline with the same components present. */
  function WriteRecord(a: Archetype, f: Frame, base: Option<Frame>, mask: BitString): (bool, BitString)
    requires Sendable(a, f, mask) && (base.Some? ==> Sendable(a, base.value, mask))
  {
    if base.Some? && base.value.present == f.present then (false, WriteDelta(a, f, base.value, mask))
    else (true, WriteFull(a, f, mask, ChoosesList(a, f, mask)))
  }

  /** The receiver's side, given the baseline a delta refers to. */
  function ReadRecord(a: Archetype, full: bool, received: Frame, bits: BitString): Option<(Frame, BitString)>
    requires |a.tags| <= MASK
  {
    if full then
      match ReadFull(a, bits)
      case None => None
      case Some(d) => Some((d.frame, d.rest))
    else ReadDelta(a, received, bits)
  }

  /**
   Whichever kind of record the sender chooses, a receiver whose baseline
   agrees with the sender's ends up agreeing with the current frame.
   */
  lemma RecordDelivers(a: Archetype, f: Frame, base: Option<Frame>, received: Frame, mask: BitString, rest: BitString)
    requires Sendable(a, f, mask) && Shaped(Sizes(a), received)
    requires base.Some? ==> Sendable(a, base.value, mask) && Agree(a, received, base.value, mask)
    ensures |a.tags| <= MASK
    ensures var (full, bits) := WriteRecord(a, f, base, mask);
            var r := ReadRecord(a, full, received, bits + rest);
            r.Some? && r.value.1 == rest && Shaped(Sizes(a), r.value.0) && Agree(a, r.value.0, f, mask)
  {
    hide WriteDelta, WriteFull, ReadDelta, ReadFull, Sizes, ChoosesList;
    ShapedTags(a, f, mask);
    if base.Some? && base.value.present == f.present {
      DeltaPatches(a, f, base.value, received, mask, rest);
    } else {
      FullRoundTrip(a, f, mask, ChoosesList(a, f, mask), rest);
      hide Get;
      forall i | 0 <= i < |a.components| && mask[i] && !f.present[i] ensures Get(Sizes(a), f, i) == None {
        PresentGets(Sizes(a), f, i);
      }
    }
  }
}
