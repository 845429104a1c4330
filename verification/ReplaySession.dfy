/** What the items of a replay frame do to a session, slot by slot. */
module ReplaySession {
  import opened Wrappers
  import opened SlotTable
  import opened World
  import opened ReplayWire
  import opened ReplayDecoding
  import opened ReplayWriting
  import opened ReplayCoverage

  /** What a session shows for a slot: the archetype's tags and components on the slot's replay entity. */
  ghost function SessionSlot(settings: Settings, s: Session, slot: int): Option<SlotView> {
    var id := slot + 1;
    if 1 <= id && id in s.entities && s.entities[id] in s.registry then
      var e := s.registry[s.entities[id]];
      if e.archetype.Some? && e.archetype.value < |settings.archetypes| then Some(EntityView(settings, e)) else None
    else None
  }

  ghost function EntityView(settings: Settings, e: SessionEntity): SlotView
    requires e.archetype.Some? && e.archetype.value < |settings.archetypes|
  {
    var a := settings.archetypes[e.archetype.value];
    SlotView(
      e.archetype.value,
      seq(|a.tags|, i requires 0 <= i < |a.tags| => a.tags[i] in e.tags),
      seq(|a.components|, i requires 0 <= i < |a.components| =>
        if a.components[i] in e.components then Some(e.components[a.components[i]]) else None))
  }

  /** The session shows exactly what the server replicates, for every slot. */
  ghost predicate Agrees(settings: Settings, s: Session, r: Registry, t: Table)
    requires settings.WellFormed()
  {
    forall slot: int :: SessionSlot(settings, s, slot) == ServerSlot(settings, r, t, slot)
  }

  // --------------------------------------------------------- one record

  /** A replicable slot of a known archetype whose entity quantises. */
  ghost predicate Quantises(settings: Settings, f: ServerFrame, s: nat)
    requires settings.WellFormed()
  {
    Replicable(f, s) && Quantize(settings, f.registry, f.table.slots[s]).Some?
  }

  lemma {:induction false} ComponentRecordsReadable(a: Archetype, components: seq<Option<Bytes>>)
    requires a.WellFormed() && |components| <= |a.ops|
    requires forall i | 0 <= i < |components| && components[i].Some? :: |components[i].value| == a.ops[i].size
    ensures var cs := ComponentRecords(a, components);
            |cs| <= |components| && forall i | 0 <= i < |cs| :: ReadableComponent(a, cs[i])
  {
    if components != [] {
      var i := |components| - 1;
      ComponentRecordsReadable(a, components[..i]);
      if components[i].Some? {
        ComponentRoundTrip(a, i, components[i].value);
      }
    }
  }

  lemma ComponentRoundTrip(a: Archetype, i: nat, v: Bytes)
    requires a.WellFormed() && i < |a.ops| && |v| == a.ops[i].size
    ensures ReadableComponent(a, ComponentRecord(i, a.ops[i].serialize(None, v)))
    ensures a.ops[i].deserialize(None, a.ops[i].serialize(None, v)) == Some((v, []))
  {
    assert a.ops[i].Lawful();
    assert a.ops[i].serialize(None, v) + [] == a.ops[i].serialize(None, v);
  }

  /** Pushing the records of a component list sets the present ones and leaves the rest. */
  lemma {:induction false} PushedComponent(a: Archetype, base: map<nat, Bytes>, components: seq<Option<Bytes>>, i: nat)
    requires a.WellFormed() && |components| <= |a.ops| && i < |a.ops|
    requires forall k | 0 <= k < |components| && components[k].Some? :: |components[k].value| == a.ops[k].size
    requires forall k | 0 <= k < |ComponentRecords(a, components)| :: ReadableComponent(a, ComponentRecords(a, components)[k])
    ensures var p := Pushed(a, base, ComponentRecords(a, components));
            var c := a.components[i];
            if i < |components| && components[i].Some? then c in p && p[c] == components[i].value
            else (c in p <==> c in base) && (c in base ==> p[c] == base[c])
  {
    if components != [] {
      hide Pushed, ComponentRecords, ReadableComponent, Archetype.WellFormed;
      var last := |components| - 1;
      ComponentRecordsReadable(a, components[..last]);
      PushedComponent(a, base, components[..last], i);
      OneMorePushed(a, base, components, ComponentRecords(a, components[..last]));
      DistinctComponents(a, i, last);
    }
  }

  lemma DistinctComponents(a: Archetype, i: nat, j: nat)
    requires a.WellFormed() && i < |a.components| && j < |a.components|
    ensures i != j ==> a.components[i] != a.components[j]
  {
  }

  lemma OneMorePushed(a: Archetype, base: map<nat, Bytes>, components: seq<Option<Bytes>>, init: seq<ComponentRecord>)
    requires a.WellFormed() && 0 < |components| <= |a.ops|
    requires forall k | 0 <= k < |components| && components[k].Some? :: |components[k].value| == a.ops[k].size
    requires forall k | 0 <= k < |ComponentRecords(a, components)| :: ReadableComponent(a, ComponentRecords(a, components)[k])
    requires init == ComponentRecords(a, components[..|components| - 1]) && forall k | 0 <= k < |init| :: ReadableComponent(a, init[k])
    ensures |a.components| == |a.ops|
    ensures var last := |components| - 1;
            var before := Pushed(a, base, init);
            Pushed(a, base, ComponentRecords(a, components))
            == if components[last].Some? then before[a.components[last] := components[last].value] else before
  {
    var last := |components| - 1;
    if components[last].Some? {
      ComponentRoundTrip(a, last, components[last].value);
      assert ComponentRecords(a, components)[..|init|] == init;
    } else {
      assert ComponentRecords(a, components) == init;
    }
  }

  lemma WordBits(bits: seq<bool>)
    requires |bits| <= 64
    ensures |Word(bits)| == 64 && Word(bits)[..|bits|] == bits
  {
  }

  lemma QuantizedSizes(a: Archetype, r: Registry, e: Entity)
    requires a.WellFormed()
    ensures forall i | 0 <= i < |a.components| && ComponentsOf(a, r, e)[i].Some? ::
              |ComponentsOf(a, r, e)[i].value| == a.ops[i].size
  {
    forall i | 0 <= i < |a.components| && ComponentsOf(a, r, e)[i].Some?
      ensures |ComponentsOf(a, r, e)[i].value| == a.ops[i].size
    {
      assert a.ops[i].Lawful();
    }
  }

  lemma RecordReadable(settings: Settings, f: ServerFrame, s: nat)
    requires settings.WellFormed() && Quantises(settings, f, s) && |f.table.slots| < 0xFFFF_FFFF
    ensures Readable(settings, ItemFor(settings, f, s))
  {
    var slot := f.table.slots[s];
    var a := settings.archetypes[slot.archetype];
    QuantizedSizes(a, f.registry, slot.entity);
    ComponentRecordsReadable(a, ComponentsOf(a, f.registry, slot.entity));
    WordBits(TagsOf(a, f.registry, slot.entity));
    WordBits(PresentMask(ComponentsOf(a, f.registry, slot.entity)));
  }

  /** The entity an applied record leaves behind shows exactly the slot's contents, whatever was there before. */
  lemma RecordView(settings: Settings, f: ServerFrame, s: nat, e: SessionEntity)
    requires settings.WellFormed() && Quantises(settings, f, s) && |f.table.slots| < 0xFFFF_FFFF
    requires Readable(settings, ItemFor(settings, f, s))
    ensures var item := ItemFor(settings, f, s);
            var a := settings.archetypes[item.archetype];
            Some(EntityView(settings, SessionEntity(
              Some(item.archetype), ApplyTags(a, e.tags, item.tagMask),
              DropAbsent(a, Pushed(a, e.components, item.components), item.presentMask))))
            == ServerSlot(settings, f.registry, f.table, s)
  {
    var slot := f.table.slots[s];
    var item := ItemFor(settings, f, s);
    var a := settings.archetypes[slot.archetype];
    var components := ComponentsOf(a, f.registry, slot.entity);
    var tags := TagsOf(a, f.registry, slot.entity);
    QuantizedSizes(a, f.registry, slot.entity);
    WordBits(tags);
    WordBits(PresentMask(components));
    var e' := SessionEntity(Some(item.archetype), ApplyTags(a, e.tags, item.tagMask),
                            DropAbsent(a, Pushed(a, e.components, item.components), item.presentMask));
    forall i | 0 <= i < |a.tags| ensures (a.tags[i] in e'.tags) == tags[i] {
      TagFollowsMask(a, e.tags, tags, i);
    }
    forall i | 0 <= i < |a.components|
      ensures (if a.components[i] in e'.components then Some(e'.components[a.components[i]]) else None) == components[i]
    {
      PushedComponent(a, e.components, components, i);
      PresentFollowsMask(a, Pushed(a, e.components, item.components), components, i);
    }
    assert EntityView(settings, e') == SlotView(slot.archetype, tags, components);
  }

  lemma TagFollowsMask(a: Archetype, base: set<nat>, tags: seq<bool>, i: nat)
    requires a.WellFormed() && |tags| == |a.tags| && i < |tags|
    ensures a.tags[i] in ApplyTags(a, base, Word(tags)) <==> tags[i]
  {
    assert Word(tags)[i] == tags[i];
  }

  lemma PresentFollowsMask(a: Archetype, pushed: map<nat, Bytes>, components: seq<Option<Bytes>>, i: nat)
    requires a.WellFormed() && |components| == |a.components| && i < |components|
    ensures var d := DropAbsent(a, pushed, Word(PresentMask(components)));
            var c := a.components[i];
            (c in d <==> c in pushed && components[i].Some?) && (c in d ==> d[c] == pushed[c])
  {
    assert forall k | 0 <= k < |components| :: Word(PresentMask(components))[k] == components[k].Some?;
  }

  /** Putting an entity of a known archetype under an id changes what is shown for that id's slot alone. */
  lemma PutEffect(settings: Settings, session: Session, id: nat, e: SessionEntity, slot: int)
    requires session.Valid(settings) && id >= 1 && e.archetype.Some? && e.archetype.value < |settings.archetypes|
    ensures var s1 := session.Ensure(id);
            && id in s1.entities && s1.entities[id] in s1.registry
            && var after := s1.Put(s1.entities[id], e);
            && after.Valid(settings) && id in after.entities
            && SessionSlot(settings, after, slot) == if slot + 1 == id then Some(EntityView(settings, e)) else SessionSlot(settings, session, slot)
  {
    hide EntityView;
  }

  lemma ArchetypeFits(settings: Settings, i: nat)
    requires settings.WellFormed() && i < |settings.archetypes|
    ensures var a := settings.archetypes[i]; |a.tags| <= 64 && |a.components| == |a.ops| <= 63
  {
  }

  /** A record sets its own slot to the server's contents and leaves every other slot alone. */
  lemma RecordEffect(settings: Settings, f: ServerFrame, s: nat, session: Session, slot: int)
    requires settings.WellFormed() && Quantises(settings, f, s) && |f.table.slots| < 0xFFFF_FFFF
    requires session.Valid(settings)
    requires Readable(settings, ItemFor(settings, f, s))
    ensures var after := ApplyItem(settings, session, ItemFor(settings, f, s));
            && after.Valid(settings)
            && (s + 1) in after.entities
            && SessionSlot(settings, after, slot) ==
               if slot == s then ServerSlot(settings, f.registry, f.table, s) else SessionSlot(settings, session, slot)
  {
    hide SessionSlot, EntityView, ServerSlot, Session.Valid, Settings.WellFormed, Pushed, ApplyTags, DropAbsent, ComponentRecords, Word;
    var s1 := session.Ensure(s + 1);
    var item := ItemFor(settings, f, s);
    assert item.Record? && item.id == s + 1;
    var e := s1.registry[s1.entities[s + 1]];
    ArchetypeFits(settings, item.archetype);
    RecordView(settings, f, s, e);
    var a := settings.archetypes[item.archetype];
    PutEffect(settings, session, s + 1, SessionEntity(
                Some(item.archetype), ApplyTags(a, e.tags, item.tagMask),
                DropAbsent(a, Pushed(a, e.components, item.components), item.presentMask)), slot);
  }

  /** A destroy record empties its own slot and leaves every other slot alone. */
  lemma DestroyEffect(settings: Settings, s: nat, session: Session, slot: int)
    requires session.Valid(settings)
    ensures var after := session.Remove(s + 1);
            && after.Valid(settings)
            && SessionSlot(settings, after, slot) == if slot == s then None else SessionSlot(settings, session, slot)
  {
  }
}
