/** The writer object: pending state updated in place, and a payload built with back-patched counts. */
module ReplayRecorder {
  import opened Wrappers
  import opened Bits
  import opened World
  import opened ReplayWire
  import opened ReplayWriting

  /** `overwrite_unsigned_bits`: a 16-bit count put over the placeholder at `offset`. */
  function Patch(payload: BitString, offset: nat, count: nat): BitString
    requires offset + 16 <= |payload|
  {
    payload[..offset] + Encode(count % 0x10000, 16) + payload[offset + 16..]
  }

  lemma PatchPlaceholder(before: BitString, body: BitString, count: nat)
    ensures Patch(before + Encode(0, 16) + body, |before|, count) == before + Encode(count % 0x10000, 16) + body
  {
    var payload := before + Encode(0, 16) + body;
    assert payload[..|before|] == before;
    assert payload[|before| + 16..] == body;
  }

  class ReplayWriter {
    const settings: Settings
    const options: Options
    var pendingDirty: set<nat>
    var pendingSlots: seq<nat>
    var pendingDestroyed: seq<nat>
    var hasWritten: bool
    var lastFullFrame: nat

    ghost predicate Valid()
      reads this
    {
      settings.WellFormed() && pendingDirty == set s <- pendingSlots
    }

    ghost function State(): WriterState
      reads this
    {
      WriterState(pendingSlots, pendingDestroyed, hasWritten, lastFullFrame)
    }

    constructor (settings: Settings, options: Options)
      requires settings.WellFormed()
      ensures Valid() && State() == Fresh && this.settings == settings && this.options == options
    {
      this.settings := settings;
      this.options := options;
      pendingDirty, pendingSlots, pendingDestroyed, hasWritten, lastFullFrame := {}, [], [], false, 0;
    }

    method MarkPending(marks: seq<nat>, slotCount: nat)
      requires Valid()
      modifies this`pendingDirty, this`pendingSlots
      ensures Valid() && pendingSlots == Mark(old(pendingSlots), marks, slotCount)
    {
      for k := 0 to |marks|
        invariant Valid() && pendingSlots == Mark(old(pendingSlots), marks[..k], slotCount)
      {
        var s := marks[k];
        assert marks[..k + 1][..k] == marks[..k];
        if s < slotCount && s !in pendingDirty {
          pendingDirty := pendingDirty + {s};
          pendingSlots := pendingSlots + [s];
        }
      }
      assert marks[..|marks|] == marks;
    }

    /** The component loop of a record, with its count patched in afterwards. */
    method WriteComponents(a: Archetype, components: seq<Option<Bytes>>, payload: BitString) returns (out: BitString)
      requires |components| <= |a.ops|
      ensures var cs := ComponentRecords(a, components);
              out == payload + (Encode(|cs| % 0x10000, 16) + EncodeComponents(cs))
    {
      hide Encode, EncodeComponent;
      var offset := |payload|;
      out := payload + Encode(0, 16);
      var count := 0;
      ghost var cs: seq<ComponentRecord> := [];
      assert components[..0] == [];
      assert payload + Encode(0, 16) + [] == payload + Encode(0, 16);
      for i := 0 to |components|
        invariant out == payload + Encode(0, 16) + EncodeComponents(cs)
        invariant cs == ComponentRecords(a, components[..i]) && count == |cs|
      {
        assert components[..i + 1][..i] == components[..i];
        if components[i].Some? {
          var record := ComponentRecord(i, a.ops[i].serialize(None, components[i].value));
          ComponentsAppend(cs, record, payload + Encode(0, 16));
          out := out + EncodeComponent(record);
          count := count + 1;
          cs := cs + [record];
        }
      }
      assert components[..|components|] == components;
      PatchPlaceholder(payload, EncodeComponents(cs), count);
      out := Patch(out, offset, count);
      assert payload + Encode(count % 0x10000, 16) + EncodeComponents(cs) == payload + (Encode(count % 0x10000, 16) + EncodeComponents(cs));
    }

    /** One slot's item, counted unless only its header was written. */
    method WriteSlot(f: ServerFrame, s: nat, payload: BitString) returns (out: BitString, counted: bool)
      requires settings.WellFormed()
      ensures out == payload + EncodeItem(ItemFor(settings, f, s)) && counted == !ItemFor(settings, f, s).Header?
    {
      hide Encode, EncodeComponents;
      var active := Replicable(f, s);
      out := payload + ([!active] + Encode(s + 1, 32));
      counted := true;
      if active {
        var view := Quantize(settings, f.registry, f.table.slots[s]);
        if view.None? {
          counted := false;
        } else {
          var archetype := view.value.archetype;
          var masks := Word(view.value.tags) + Word(PresentMask(view.value.components));
          ghost var header := out;
          out := out + (Encode(archetype, 32) + masks);
          ghost var cs := ComponentRecords(settings.archetypes[archetype], view.value.components);
          out := WriteComponents(settings.archetypes[archetype], view.value.components, out);
          ghost var counts := Encode(|cs| % 0x10000, 16) + EncodeComponents(cs);
          assert header + (Encode(archetype, 32) + masks) + counts
              == header + (Encode(archetype, 32) + (masks + counts));
          assert payload + ([false] + Encode(s + 1, 32)) + EncodeBody(archetype, masks, cs)
              == payload + ([false] + Encode(s + 1, 32) + EncodeBody(archetype, masks, cs));
        }
      }
    }

    /** The destroy loop of a Delta frame. */
    method WriteDestroys(payload: BitString) returns (out: BitString, count: nat, emitted: set<nat>)
      ensures var gone := DestroyItems(pendingDestroyed);
              out == payload + EncodeItems(gone) && count == |gone| <= MAX_COUNT && (forall s: nat :: s in emitted <==> Destroy(s + 1) in gone)
    {
      hide EncodeItem, EncodeItems, DestroyItems;
      out, count, emitted := payload, 0, {};
      ghost var gone: seq<Item> := [];
      NothingDestroyed(pendingDestroyed, payload);
      for k := 0 to |pendingDestroyed|
        invariant gone == DestroyItems(pendingDestroyed[..k])
        invariant out == payload + EncodeItems(gone) && count == |gone| <= MAX_COUNT
        invariant forall s: nat :: s in emitted <==> Destroy(s + 1) in gone
      {
        var s := pendingDestroyed[k];
        NextDestroy(pendingDestroyed, k);
        if count != MAX_COUNT && s !in emitted {
          ItemsAppend(gone, Destroy(s + 1), payload);
          out := out + EncodeItem(Destroy(s + 1));
          count := count + 1;
          emitted := emitted + {s};
          gone := gone + [Destroy(s + 1)];
        }
      }
      assert pendingDestroyed[..|pendingDestroyed|] == pendingDestroyed;
    }

    static lemma NothingDestroyed(destroyed: seq<nat>, payload: BitString)
      ensures DestroyItems(destroyed[..0]) == [] && payload + EncodeItems([]) == payload
    {
      assert destroyed[..0] == [];
      assert payload + [] == payload;
    }

    static lemma NextDestroy(destroyed: seq<nat>, k: nat)
      requires k < |destroyed|
      ensures var before, item := DestroyItems(destroyed[..k]), Destroy(destroyed[k] + 1);
              DestroyItems(destroyed[..k + 1]) == if |before| == MAX_COUNT || item in before then before else before + [item]
    {
      assert destroyed[..k + 1][..k] == destroyed[..k];
    }

    /** The slot loop. */
    method WriteSlots(f: ServerFrame, full: bool, ghost gone: seq<Item>, emitted: set<nat>, slots: seq<nat>, payload: BitString, count: nat)
      returns (out: BitString, total: nat)
      requires settings.WellFormed() && payload == Encode(0, 16) + EncodeItems(gone)
      requires count == Counted(gone) <= MAX_COUNT && forall s: nat :: s in emitted <==> Destroy(s + 1) in gone
      ensures var items := SlotItems(settings, f, full, gone, slots);
              total == Counted(items) <= MAX_COUNT && out == Encode(0, 16) + EncodeItems(items)
    {
      hide EncodeItem, EncodeItems, ItemFor, Encode, SlotItems, Counted, Replicable, Settings.WellFormed;
      out, total := payload, count;
      ghost var items := gone;
      SlotItemsStart(settings, f, full, gone, slots);
      for k := 0 to |slots|
        invariant items == SlotItems(settings, f, full, gone, slots[..k])
        invariant total == Counted(items) <= MAX_COUNT
        invariant out == Encode(0, 16) + EncodeItems(items)
      {
        var s := slots[k];
        SlotItemsStep(settings, f, full, gone, slots, k);
        var active := Replicable(f, s);
        if s >= |f.table.slots| || (!active && (full || s in emitted)) || total == MAX_COUNT {
          continue;
        }
        ghost var item := ItemFor(settings, f, s);
        ItemsAppend(items, item, Encode(0, 16));
        var counted;
        out, counted := WriteSlot(f, s, out);
        total := if counted then total + 1 else total;
        items := items + [item];
      }
      assert slots[..|slots|] == slots;
    }

    /** The slot list of a Full frame: the scan over all slots. */
    method CollectReplicable(f: ServerFrame) returns (slots: seq<nat>)
      ensures slots == ReplicableSlots(f, |f.table.slots|)
    {
      slots := [];
      for s := 0 to |f.table.slots|
        invariant slots == ReplicableSlots(f, s)
      {
        if Replicable(f, s) {
          slots := slots + [s];
        }
      }
    }

    /** `on_server_registry_dirty_frame`: the state and the written frame are those of `Observe`. */
    method OnServerRegistryDirtyFrame(f: ServerFrame) returns (out: Option<ReplayFrame>)
      requires Valid()
      modifies this
      ensures Valid() && (State(), out) == Observe(settings, options, old(State()), f)
    {
      hide Settings.WellFormed, SlotItems, Mark, Encode, EncodeItems, DirtySlots, Patch;
      pendingDestroyed := pendingDestroyed + f.table.destroyed;
      MarkPending(DirtySlots(settings, f.table, f.dirty), |f.table.slots|);
      if !(!hasWritten || options.writeInterval <= 1 || f.frame % options.writeInterval == 0) {
        return None;
      }
      var full := !hasWritten
        || (options.fullInterval != 0 && FrameDistance(f.frame, lastFullFrame) >= options.fullInterval);
      var payload := Encode(0, 16);
      ghost var items;
      var count;
      if full {
        var slots := CollectReplicable(f);
        assert Encode(0, 16) + EncodeItems([]) == Encode(0, 16) by { EncodeNothing(); }
        payload, count := WriteSlots(f, true, [], {}, slots, payload, 0);
        items := SlotItems(settings, f, true, [], slots);
      } else {
        var emitted;
        payload, count, emitted := WriteDestroys(payload);
        ghost var gone := DestroyItems(pendingDestroyed);
        DestroysCounted(pendingDestroyed);
        payload, count := WriteSlots(f, false, gone, emitted, pendingSlots, payload, count);
        items := SlotItems(settings, f, false, gone, pendingSlots);
      }
      assert items == FrameItems(settings, f, full, pendingSlots, pendingDestroyed);
      PatchCount(items, count);
      payload := Patch(payload, 0, count) + [false];
      out := Some(ReplayFrame(f.frame, if full then Full else Delta, payload));
      pendingDirty, pendingSlots, pendingDestroyed, hasWritten := {}, [], [], true;
      if full {
        lastFullFrame := f.frame;
      }
    }
  }

  lemma SlotItemsStart(settings: Settings, f: ServerFrame, full: bool, gone: seq<Item>, slots: seq<nat>)
    requires settings.WellFormed()
    ensures SlotItems(settings, f, full, gone, slots[..0]) == gone
  {
    assert slots[..0] == [];
  }

  lemma SlotItemsStep(settings: Settings, f: ServerFrame, full: bool, gone: seq<Item>, slots: seq<nat>, k: nat)
    requires settings.WellFormed() && k < |slots|
    ensures var before, s := SlotItems(settings, f, full, gone, slots[..k]), slots[k];
            SlotItems(settings, f, full, gone, slots[..k + 1]) ==
            if s >= |f.table.slots| || (!Replicable(f, s) && (full || Destroy(s + 1) in gone)) || Counted(before) == MAX_COUNT
            then before else before + [ItemFor(settings, f, s)]
  {
    hide ItemFor, Replicable, Settings.WellFormed, Counted;
    assert slots[..k + 1][..k] == slots[..k];
  }

  lemma EncodeNothing()
    ensures EncodeItems([]) == []
  {
  }

  lemma ComponentsAppend(cs: seq<ComponentRecord>, c: ComponentRecord, prefix: BitString)
    ensures prefix + EncodeComponents(cs + [c]) == prefix + EncodeComponents(cs) + EncodeComponent(c)
  {
    hide EncodeComponent;
    assert (cs + [c])[..|cs|] == cs;
  }

  lemma ItemsAppend(items: seq<Item>, item: Item, prefix: BitString)
    ensures prefix + EncodeItems(items + [item]) == prefix + EncodeItems(items) + EncodeItem(item)
    ensures Counted(items + [item]) == Counted(items) + (if item.Header? then 0 else 1)
  {
    hide EncodeItem;
    assert (items + [item])[..|items|] == items;
  }

  lemma {:induction false} DestroysCounted(destroyed: seq<nat>)
    ensures Counted(DestroyItems(destroyed)) == |DestroyItems(destroyed)|
    ensures forall item <- DestroyItems(destroyed) :: item.Destroy?
  {
    if destroyed != [] {
      DestroysCounted(destroyed[..|destroyed| - 1]);
    }
  }

  lemma PatchCount(items: seq<Item>, count: nat)
    requires count == Counted(items) <= MAX_COUNT
    ensures Patch(Encode(0, 16) + EncodeItems(items), 0, count) + [false] == EncodePayload(items)
  {
    hide EncodeItems, Encode, Counted, Patch;
    PatchPlaceholder([], EncodeItems(items), count);
    assert [] + Encode(0, 16) == Encode(0, 16);
    assert [] + Encode(count, 16) == Encode(count, 16);
    assert count % 0x10000 == count;
  }
}
