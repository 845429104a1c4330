/** The loops that write and read records, proved against the functions that specify them. */
module RecordLoops {
  import opened Wrappers
  import opened Bits
  import opened World
  import opened FrameLayouts
  import opened Records
  import opened DeltaRecords

  lemma Join(x: BitString, y: BitString, z: BitString)
    ensures x + (y + z) == x + y + z
  {
  }

  /** The presence loop: how many slots a full record has and which. */
  method CollectSlots(a: Archetype, f: Frame, mask: BitString) returns (count: nat, slots: BitString)
    ensures count == SlotTotal(a, f, mask) && slots == SlotsPresent(a, f, mask)
  {
    count, slots := 0, [a.HasTagSlot()];
    if a.HasTagSlot() {
      count := 1;
    }
    var i := 0;
    while i < |a.components|
      invariant i <= |a.components| && |slots| == i + 1 && slots[0] == a.HasTagSlot()
      invariant forall j | 0 <= j < i :: slots[j + 1] == Included(f, mask, j)
      invariant count + CountIncluded(a, f, mask, i) == SlotTotal(a, f, mask)
    {
      if Included(f, mask, i) {
        count := count + 1;
      }
      slots := slots + [Included(f, mask, i)];
      i := i + 1;
    }
    assert forall j | 0 <= j < |slots| :: slots[j] == SlotsPresent(a, f, mask)[j] by {
      forall j | 0 <= j < |slots| ensures slots[j] == SlotsPresent(a, f, mask)[j] {
        if j > 0 {
          assert slots[(j - 1) + 1] == Included(f, mask, j - 1);
        }
      }
    }
  }

  /** `write_entity_record`, full state: presence, tags, then every component. */
  method WriteFullRecord(a: Archetype, f: Frame, mask: BitString) returns (out: BitString)
    requires Sendable(a, f, mask)
    ensures out == WriteFull(a, f, mask, ChoosesList(a, f, mask))
  {
    hide Get, Included, Sizes, Encode, BitsForRange, FullTail, SlotsPresent, CountIncluded;
    ShapedTags(a, f, mask);
    var count, slots := CollectSlots(a, f, mask);
    var width := BitsForRange(SlotCount(a));
    var listed := SlotCount(a) >= 16 + count * width;
    assert listed == ChoosesList(a, f, mask);
    out := [!listed];
    out := out + if listed then Encode(count, 16) else slots;
    if a.HasTagSlot() {
      if listed {
        out := out + Encode(0, width);
      }
      out := out + f.tags[..|a.tags|];
    }
    HeadAndTail(a, f, mask, listed, out);
    out := AppendComponents(a, f, mask, listed, out);
  }

  /** The component loop of a full record. */
  method AppendComponents(a: Archetype, f: Frame, mask: BitString, listed: bool, head: BitString) returns (out: BitString)
    requires |a.ops| == |a.components|
    ensures out == head + FullTail(a, f, mask, listed, 0)
  {
    hide Get, Included, Sizes, Encode, BitsForRange, FullTail;
    out := head;
    ghost var whole := head + FullTail(a, f, mask, listed, 0);
    var i := 0;
    while i < |a.components|
      invariant i <= |a.components| && out + FullTail(a, f, mask, listed, i) == whole
    {
      FullTailStep(a, f, mask, listed, i);
      var bytes := Get(Sizes(a), f, i);
      var part := [];
      if Included(f, mask, i) && bytes.Some? {
        if listed {
          part := SlotNumber(a, i + 1, listed);
        }
        part := part + a.ops[i].serialize(None, bytes.value);
      }
      Join(out, part, FullTail(a, f, mask, listed, i + 1));
      out := out + part;
      i := i + 1;
    }
    NoTail(a, f, mask, listed);
    assert out + [] == out;
  }

  lemma NoTail(a: Archetype, f: Frame, mask: BitString, listed: bool)
    requires |a.ops| == |a.components|
    ensures FullTail(a, f, mask, listed, |a.components|) == []
  {
  }

  lemma HeadAndTail(a: Archetype, f: Frame, mask: BitString, listed: bool, out: BitString)
    requires |a.ops| == |a.components| && |a.tags| <= |f.tags|
    requires out == [!listed] + (if listed then Encode(SlotTotal(a, f, mask), 16) else SlotsPresent(a, f, mask)) + TagPart(a, f, listed)
    ensures out + FullTail(a, f, mask, listed, 0) == WriteFull(a, f, mask, listed)
  {
    hide Encode, SlotsPresent, SlotTotal, FullTail;
  }

  lemma FullTailStep(a: Archetype, f: Frame, mask: BitString, listed: bool, i: nat)
    requires |a.ops| == |a.components| && i < |a.components|
    ensures FullTail(a, f, mask, listed, i)
            == (if Included(f, mask, i) && Get(Sizes(a), f, i).Some?
                then SlotNumber(a, i + 1, listed) + a.ops[i].serialize(None, Get(Sizes(a), f, i).value) else [])
               + FullTail(a, f, mask, listed, i + 1)
  {
  }

  /** The loop that says which slots changed. */
  method WriteChangedSlots(a: Archetype, f: Frame, base: Frame, mask: BitString) returns (out: BitString)
    requires |a.tags| <= |f.tags| && |a.tags| <= |base.tags|
    ensures out == ChangedSlots(a, f, base, mask)
  {
    hide Differs;
    var i := 0;
    out := [a.HasTagSlot() && f.tags[..|a.tags|] != base.tags[..|a.tags|]];
    while i < |a.components|
      invariant i <= |a.components| && |out| == i + 1 && out[0] == TagsChanged(a, f, base)
      invariant forall j | 0 <= j < i :: out[j + 1] == Differs(a, f, base, mask, j)
    {
      out := out + [Differs(a, f, base, mask, i)];
      i := i + 1;
    }
    forall j | 0 <= j < |out| ensures out[j] == ChangedSlots(a, f, base, mask)[j] {
      if j > 0 {
        assert out[(j - 1) + 1] == Differs(a, f, base, mask, j - 1);
      }
    }
  }

  /** The component loop of a delta record. */
  method AppendDifferences(a: Archetype, f: Frame, base: Frame, mask: BitString, head: BitString) returns (out: BitString)
    requires |a.ops| == |a.components|
    ensures out == head + DeltaTail(a, f, base, mask, 0)
  {
    hide Get, Differs, Sizes, DeltaTail;
    out := head;
    ghost var whole := head + DeltaTail(a, f, base, mask, 0);
    var i := 0;
    while i < |a.components|
      invariant i <= |a.components| && out + DeltaTail(a, f, base, mask, i) == whole
    {
      DeltaTailStep(a, f, base, mask, i);
      var bytes := Get(Sizes(a), f, i);
      var part := [];
      if Differs(a, f, base, mask, i) && bytes.Some? {
        part := a.ops[i].serialize(Get(Sizes(a), base, i), bytes.value);
      }
      Join(out, part, DeltaTail(a, f, base, mask, i + 1));
      out := out + part;
      i := i + 1;
    }
    NoDifference(a, f, base, mask);
    assert out + [] == out;
  }

  lemma NoDifference(a: Archetype, f: Frame, base: Frame, mask: BitString)
    requires |a.ops| == |a.components|
    ensures DeltaTail(a, f, base, mask, |a.components|) == []
  {
  }

  /** `write_entity_record`, delta: which slots changed, then their content. */
  method WriteDeltaRecord(a: Archetype, f: Frame, base: Frame, mask: BitString) returns (out: BitString)
    requires Sendable(a, f, mask) && Sendable(a, base, mask)
    ensures |a.ops| == |a.components| && |a.tags| <= |f.tags| && |a.tags| <= |base.tags| && out == WriteDelta(a, f, base, mask)
  {
    hide Get, Differs, Sizes, ChangedSlots, DeltaTail, Shaped;
    ShapedTags(a, f, mask);
    ShapedTags(a, base, mask);
    out := WriteChangedSlots(a, f, base, mask);
    ghost var tags := if TagsChanged(a, f, base) then f.tags[..|a.tags|] else [];
    Join(out, tags, DeltaTail(a, f, base, mask, 0));
    if a.HasTagSlot() && f.tags[..|a.tags|] != base.tags[..|a.tags|] {
      out := out + f.tags[..|a.tags|];
    } else {
      assert out + [] == out;
    }
    out := AppendDifferences(a, f, base, mask, out);
  }

  lemma DeltaTailStep(a: Archetype, f: Frame, base: Frame, mask: BitString, i: nat)
    requires |a.ops| == |a.components| && i < |a.components|
    ensures DeltaTail(a, f, base, mask, i)
            == (if Differs(a, f, base, mask, i) && Get(Sizes(a), f, i).Some?
                then a.ops[i].serialize(Get(Sizes(a), base, i), Get(Sizes(a), f, i).value) else [])
               + DeltaTail(a, f, base, mask, i + 1)
  {
  }

  /** `decode_full_upsert_record_payload`. */
  method DecodeFullRecord(a: Archetype, bits: BitString) returns (d: Option<Decoded>)
    requires |a.tags| <= MASK
    ensures d == ReadFull(a, bits)
  {
    hide ReadSlot, ReadField;
    if bits == [] {
      return None;
    }
    if bits[0] {
      var read := Read(bits[1..], SlotCount(a));
      if read.None? {
        return None;
      }
      var present := read.value.0;
      var current, slot := Decoded(Init(Sizes(a)), {}, read.value.1), 0;
      while slot < |present|
        invariant slot <= |present| && ReadMasked(a, current, present, slot) == ReadFull(a, bits)
      {
        if present[slot] {
          var next := ReadSlot(a, current, slot);
          if next.None? {
            return None;
          }
          current := next.value;
        }
        slot := slot + 1;
      }
      return Some(current);
    }
    var counted := ReadField(bits[1..], 16);
    if counted.None? {
      return None;
    }
    var current, component := Decoded(Init(Sizes(a)), {}, counted.value.1), 0;
    while component < counted.value.0
      invariant component <= counted.value.0 && ReadListed(a, current, counted.value.0 - component) == ReadFull(a, bits)
    {
      var slot := ReadField(current.rest, BitsForRange(SlotCount(a)));
      if slot.None? {
        return None;
      }
      var next := ReadSlot(a, current.(rest := slot.value.1), slot.value.0);
      if next.None? {
        return None;
      }
      current := next.value;
      component := component + 1;
    }
    return Some(current);
  }

  /** `decode_delta_upsert_record_payload`. */
  method DecodeDeltaRecord(a: Archetype, baseline: Frame, bits: BitString) returns (r: Option<(Frame, BitString)>)
    requires |a.tags| <= MASK
    ensures r == ReadDelta(a, baseline, bits)
  {
    hide Get, Shaped, Put, Sizes, Widen;
    var read := Read(bits, SlotCount(a));
    if read.None? {
      return None;
    }
    var changed, rest, frame := read.value.0, read.value.1, baseline;
    if changed[0] {
      if !a.HasTagSlot() {
        return None;
      }
      var tags := Read(rest, |a.tags|);
      if tags.None? {
        return None;
      }
      frame, rest := frame.(tags := Widen(tags.value.0)), tags.value.1;
    }
    var i := 0;
    while i < |a.components|
      invariant i <= |a.components| && ReadChanged(a, baseline, changed, i, frame, rest) == ReadDelta(a, baseline, bits)
    {
      if changed[i + 1] {
        var previous := if i < |a.ops| then Get(Sizes(a), baseline, i) else None;
        if i >= |a.ops| || previous.None? {
          return None;
        }
        var decoded := a.ops[i].deserialize(previous, rest);
        if decoded.None? {
          return None;
        }
        var (bytes, more) := decoded.value;
        if !Shaped(Sizes(a), frame) || |bytes| != a.ops[i].size {
          return None;
        }
        MatchingSize(a, i);
        frame, rest := Put(Sizes(a), frame, i, bytes), more;
      }
      i := i + 1;
    }
    return Some((frame, rest));
  }

  lemma MatchingSize(a: Archetype, i: nat)
    requires i < |a.ops|
    ensures |Sizes(a)| == |a.ops| && Sizes(a)[i] == a.ops[i].size
  {
  }
}
