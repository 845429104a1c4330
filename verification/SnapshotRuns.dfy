/** Whole runs of a replicating server: passes, sends, acknowledgements, invalidations, clients joining and leaving. */
module SnapshotRuns {
  import opened Wrappers
  import opened SlotTable
  import opened World
  import opened Discovery
  import opened ReplayWriting
  import opened ReplayCoverage
  import opened Snapshots
  import opened SnapshotPool
  import opened SnapshotCorrectness
  import opened SnapshotSends

  // -------------------------------------------------------------- generations

  /** Generations only grow, and nothing else about the slots changes. */
  ghost predicate Grew(slots: seq<SlotCache>, slots': seq<SlotCache>) {
    && |slots'| == |slots|
    && (forall s | 0 <= s < |slots| ::
          slots'[s] == slots[s].(generations := slots'[s].generations) && |slots'[s].generations| == |slots[s].generations|)
    && (forall s, g | 0 <= s < |slots| && 0 <= g < |slots[s].generations| :: slots[s].generations[g] <= slots'[s].generations[g])
  }

  lemma GrewTrans(a: seq<SlotCache>, b: seq<SlotCache>, c: seq<SlotCache>)
    requires Grew(a, b) && Grew(b, c)
    ensures Grew(a, c)
  {
    forall s, g | 0 <= s < |a| && 0 <= g < |a[s].generations| ensures a[s].generations[g] <= c[s].generations[g] {
      assert a[s].generations[g] <= b[s].generations[g] <= c[s].generations[g];
    }
  }

  lemma BumpGrows(slots: seq<SlotCache>, s: nat, g: nat)
    ensures Grew(slots, Bump(slots, s, g))
    ensures s < |slots| && g < |slots[s].generations| ==> slots[s].generations[g] < Bump(slots, s, g)[s].generations[g]
  {
  }

  lemma {:induction false} MarkComponentSlotsGrows(settings: Settings, t: Table, slots: seq<SlotCache>, visits: seq<nat>, c: nat)
    ensures Grew(slots, MarkComponentSlots(settings, t, slots, visits, c))
  {
    hide Grew, ComponentIndex;
    if visits == [] {
      GrewRefl(slots);
    } else {
      var before := MarkComponentSlots(settings, t, slots, visits[..|visits| - 1], c);
      var s := visits[|visits| - 1];
      MarkComponentSlotsGrows(settings, t, slots, visits[..|visits| - 1], c);
      GrewRefl(before);
      forall g: nat ensures Grew(before, Bump(before, s, g)) {
        BumpGrows(before, s, g);
      }
      GrewTrans(slots, before, MarkComponent(settings, t, before, s, c));
    }
  }

  lemma GrewRefl(slots: seq<SlotCache>)
    ensures Grew(slots, slots)
  {
  }

  lemma {:induction false} MarkComponentsGrows(settings: Settings, t: Table, slots: seq<SlotCache>, d: DirtyView, tracked: seq<nat>)
    ensures Grew(slots, MarkComponents(settings, t, slots, d, tracked))
  {
    hide Grew;
    if tracked == [] {
      GrewRefl(slots);
    } else {
      var init, c := tracked[..|tracked| - 1], tracked[|tracked| - 1];
      var before := MarkComponents(settings, t, slots, d, init);
      MarkComponentsGrows(settings, t, slots, d, init);
      var visits := ByEntity(t, d.Component(c).dirty) + ByIndex(t, d.Component(c).removed);
      MarkComponentSlotsGrows(settings, t, before, visits, c);
      GrewTrans(slots, before, MarkComponentSlots(settings, t, before, visits, c));
    }
  }

  lemma {:induction false} MarkTagSlotsGrows(settings: Settings, t: Table, slots: seq<SlotCache>, visits: seq<nat>, tag: nat)
    ensures Grew(slots, MarkTagSlots(settings, t, slots, visits, tag))
  {
    hide Grew, Bump;
    if visits == [] {
      GrewRefl(slots);
    } else {
      var before := MarkTagSlots(settings, t, slots, visits[..|visits| - 1], tag);
      MarkTagSlotsGrows(settings, t, slots, visits[..|visits| - 1], tag);
      BumpGrows(before, visits[|visits| - 1], 0);
      GrewRefl(before);
      GrewTrans(slots, before, MarkTagSlots(settings, t, slots, visits, tag));
    }
  }

  lemma {:induction false} MarkTagsGrows(settings: Settings, t: Table, slots: seq<SlotCache>, d: DirtyView, tags: seq<nat>)
    ensures Grew(slots, MarkTags(settings, t, slots, d, tags))
  {
    hide Grew;
    if tags == [] {
      GrewRefl(slots);
    } else {
      var tag := tags[|tags| - 1];
      var before := MarkTags(settings, t, slots, d, tags[..|tags| - 1]);
      MarkTagsGrows(settings, t, slots, d, tags[..|tags| - 1]);
      MarkTagSlotsGrows(settings, t, before, ByEntity(t, d.Tag(tag).dirty) + ByIndex(t, d.Tag(tag).removed), tag);
      GrewTrans(slots, before, MarkTags(settings, t, slots, d, tags));
    }
  }

  lemma {:induction false} MarkArchetypeTagsGrows(settings: Settings, t: Table, slots: seq<SlotCache>, d: DirtyView, archetypes: seq<Archetype>)
    ensures Grew(slots, MarkArchetypeTags(settings, t, slots, d, archetypes))
  {
    hide Grew;
    if archetypes == [] {
      GrewRefl(slots);
    } else {
      var init := archetypes[..|archetypes| - 1];
      var before := MarkArchetypeTags(settings, t, slots, d, init);
      MarkArchetypeTagsGrows(settings, t, slots, d, init);
      MarkTagsGrows(settings, t, before, d, archetypes[|archetypes| - 1].tags);
      GrewTrans(slots, before, MarkArchetypeTags(settings, t, slots, d, archetypes));
    }
  }

  lemma {:induction false} MarkRestrictedGrows(a: Archetype, slots: seq<SlotCache>, s: nat, count: nat)
    requires count <= |a.componentAudience|
    ensures Grew(slots, MarkRestricted(a, slots, s, count))
  {
    hide Grew, Bump;
    GrewRefl(slots);
    if count == 0 {
      BumpGrows(slots, s, 0);
    } else {
      var before := MarkRestricted(a, slots, s, count - 1);
      MarkRestrictedGrows(a, slots, s, count - 1);
      BumpGrows(before, s, count);
      GrewRefl(before);
      GrewTrans(slots, before, MarkRestricted(a, slots, s, count));
    }
  }

  lemma {:induction false} MarkOwnersGrows(settings: Settings, t: Table, slots: seq<SlotCache>, visits: seq<nat>)
    ensures Grew(slots, MarkOwners(settings, t, slots, visits))
  {
    hide Grew, MarkRestricted;
    if visits == [] {
      GrewRefl(slots);
    } else {
      var before := MarkOwners(settings, t, slots, visits[..|visits| - 1]);
      var s := visits[|visits| - 1];
      MarkOwnersGrows(settings, t, slots, visits[..|visits| - 1]);
      GrewRefl(before);
      if t.Active(s) && t.slots[s].archetype < |settings.archetypes| {
        var a := settings.archetypes[t.slots[s].archetype];
        MarkRestrictedGrows(a, before, s, |a.componentAudience|);
      }
      GrewTrans(slots, before, MarkOwners(settings, t, slots, visits));
    }
  }

  lemma CaptureGrows(settings: Settings, t: Table, slots: seq<SlotCache>, d: DirtyView)
    ensures Grew(slots, CaptureGenerations(settings, t, slots, d))
  {
    hide Grew;
    var tagged := MarkArchetypeTags(settings, t, slots, d, settings.archetypes);
    var marked := MarkComponents(settings, t, tagged, d, settings.tracked);
    MarkArchetypeTagsGrows(settings, t, slots, d, settings.archetypes);
    MarkComponentsGrows(settings, t, tagged, d, settings.tracked);
    MarkOwnersGrows(settings, t, marked, ByEntity(t, d.owner.dirty) + ByIndex(t, d.owner.removed));
    GrewTrans(slots, tagged, marked);
    GrewTrans(slots, marked, CaptureGenerations(settings, t, slots, d));
  }

  lemma {:induction false} ComponentIndexOf(components: seq<nat>, i: nat)
    requires i < |components| && forall j, k | 0 <= j < k < |components| :: components[j] != components[k]
    ensures ComponentIndex(components, components[i]) == Some(i)
  {
    if i < |components| - 1 {
      ComponentIndexOf(components[..|components| - 1], i);
    } else {
      NoIndex(components[..i], components[i]);
    }
  }

  lemma {:induction false} NoIndex(components: seq<nat>, c: nat)
    requires c !in components
    ensures ComponentIndex(components, c) == None
  {
    if components != [] {
      NoIndex(components[..|components| - 1], c);
    }
  }

  /** A visited slot's generation for the component really moves. */
  lemma {:induction false} VisitBumps(settings: Settings, t: Table, slots: seq<SlotCache>, visits: seq<nat>, s: nat, i: nat)
    requires settings.WellFormed() && t.Active(s) && t.slots[s].archetype < |settings.archetypes| && s < |slots| && s in visits
    requires var a := settings.archetypes[t.slots[s].archetype];
             i < |a.components| && |slots[s].generations| == |a.components| + 1
    ensures var c := settings.archetypes[t.slots[s].archetype].components[i];
            var m := MarkComponentSlots(settings, t, slots, visits, c);
            |m| == |slots| && |m[s].generations| == |slots[s].generations| && slots[s].generations[i + 1] < m[s].generations[i + 1]
  {
    var c := settings.archetypes[t.slots[s].archetype].components[i];
    var init := visits[..|visits| - 1];
    var before := MarkComponentSlots(settings, t, slots, init, c);
    MarkComponentSlotsGrows(settings, t, slots, init, c);
    MarkComponentSlotsGrows(settings, t, slots, visits, c);
    if visits[|visits| - 1] == s {
      ComponentIndexOf(settings.archetypes[t.slots[s].archetype].components, i);
      BumpGrows(before, s, i + 1);
    } else {
      VisitBumps(settings, t, slots, init, s, i);
      MarkComponentSlotsGrows(settings, t, before, [visits[|visits| - 1]], c);
      assert [visits[|visits| - 1]][..0] == [];
    }
  }

  lemma GrewAt(a: seq<SlotCache>, b: seq<SlotCache>, s: nat, g: nat)
    requires Grew(a, b) && s < |a| && g < |a[s].generations|
    ensures |b| == |a| && |b[s].generations| == |a[s].generations| && a[s].generations[g] <= b[s].generations[g]
  {
  }

  /** Every tracked component whose slot is visited moves on, through the whole capture. */
  lemma {:induction false} TrackedBumps(settings: Settings, t: Table, slots: seq<SlotCache>, d: DirtyView, tracked: seq<nat>, s: nat, i: nat)
    requires settings.WellFormed() && t.Active(s) && t.slots[s].archetype < |settings.archetypes| && s < |slots|
    requires var a := settings.archetypes[t.slots[s].archetype];
             && i < |a.components| && |slots[s].generations| == |a.components| + 1 && a.components[i] in tracked
             && s in ByEntity(t, d.Component(a.components[i]).dirty) + ByIndex(t, d.Component(a.components[i]).removed)
    ensures var m := MarkComponents(settings, t, slots, d, tracked);
            |m| == |slots| && |m[s].generations| == |slots[s].generations| && slots[s].generations[i + 1] < m[s].generations[i + 1]
  {
    hide Grew, MarkComponentSlots, Settings.WellFormed;
    var mine := settings.archetypes[t.slots[s].archetype].components[i];
    var init, c := tracked[..|tracked| - 1], tracked[|tracked| - 1];
    var before := MarkComponents(settings, t, slots, d, init);
    var visits := ByEntity(t, d.Component(c).dirty) + ByIndex(t, d.Component(c).removed);
    MarkComponentsGrows(settings, t, slots, d, init);
    GrewAt(slots, before, s, i + 1);
    MarkComponentSlotsGrows(settings, t, before, visits, c);
    GrewAt(before, MarkComponentSlots(settings, t, before, visits, c), s, i + 1);
    if c == mine {
      VisitBumps(settings, t, before, visits, s, i);
    } else {
      TrackedBumps(settings, t, slots, d, init, s, i);
    }
  }

  lemma CaptureBumps(settings: Settings, t: Table, slots: seq<SlotCache>, d: DirtyView, s: nat, i: nat)
    requires settings.WellFormed() && t.Active(s) && t.slots[s].archetype < |settings.archetypes| && s < |slots|
    requires var a := settings.archetypes[t.slots[s].archetype];
             && i < |a.components| && |slots[s].generations| == |a.components| + 1 && a.components[i] in settings.tracked
             && s in ByEntity(t, d.Component(a.components[i]).dirty) + ByIndex(t, d.Component(a.components[i]).removed)
    ensures var m := CaptureGenerations(settings, t, slots, d);
            |m| == |slots| && |m[s].generations| == |slots[s].generations| && slots[s].generations[i + 1] < m[s].generations[i + 1]
  {
    hide Grew, MarkArchetypeTags, MarkComponents, MarkOwners, ByEntity, ByIndex, Settings.WellFormed;
    var tagged := MarkArchetypeTags(settings, t, slots, d, settings.archetypes);
    MarkArchetypeTagsGrows(settings, t, slots, d, settings.archetypes);
    GrewAt(slots, tagged, s, i + 1);
    TrackedBumps(settings, t, tagged, d, settings.tracked, s, i);
    var marked := MarkComponents(settings, t, tagged, d, settings.tracked);
    var visits := ByEntity(t, d.owner.dirty) + ByIndex(t, d.owner.removed);
    MarkOwnersGrows(settings, t, marked, visits);
    GrewAt(marked, MarkOwners(settings, t, marked, visits), s, i + 1);
  }

  /** An unchanged generation means an unchanged component. */
  lemma UnbumpedUnchanged(settings: Settings, r: Registry, d: DirtyView, r': Registry, t: Table, slots: seq<SlotCache>, s: nat, i: nat)
    requires settings.WellFormed() && settings.Tracks() && Faithful(r, d, r') && t.Valid()
    requires t.Active(s) && t.slots[s].archetype < |settings.archetypes| && s < |slots|
    requires var a := settings.archetypes[t.slots[s].archetype];
             && i < |a.components| && |slots[s].generations| == |a.components| + 1
    requires |CaptureGenerations(settings, t, slots, d)| == |slots|
    requires var g := CaptureGenerations(settings, t, slots, d)[s].generations;
             |g| == |slots[s].generations| && g[i + 1] == slots[s].generations[i + 1]
    ensures var a := settings.archetypes[t.slots[s].archetype];
            var e := t.slots[s].entity;
            ComponentOf(r, e, a.components[i]).Some? ==> ComponentOf(r, e, a.components[i]) == ComponentOf(r', e, a.components[i])
  {
    var a := settings.archetypes[t.slots[s].archetype];
    var e, c := t.slots[s].entity, a.components[i];
    if ComponentOf(r, e, c).Some? && ComponentOf(r, e, c) != ComponentOf(r', e, c) {
      assert e in d.Component(c).dirty || e in d.Component(c).removed;
      if e in d.Component(c).dirty {
        ByEntityVisits(t, d.Component(c).dirty, e);
      } else {
        ByIndexVisits(t, d.Component(c).removed, e);
      }
      assert c in settings.tracked;
      hide Grew, MarkArchetypeTags, MarkComponents, MarkOwners, ByEntity, ByIndex, Faithful, Settings.WellFormed;
      CaptureBumps(settings, t, slots, d, s, i);
      assert false;
    }
  }

  // ------------------------------------------------- untracked components

  lemma {:induction false} NothingMarked(settings: Settings, t: Table, slots: seq<SlotCache>, d: DirtyView, archetypes: seq<Archetype>, tracked: seq<nat>)
    requires forall tag :: d.Tag(tag) == Touched([], [], [])
    requires forall c <- tracked :: d.Component(c) == Touched([], [], [])
    ensures MarkArchetypeTags(settings, t, slots, d, archetypes) == slots
    ensures MarkComponents(settings, t, slots, d, tracked) == slots
    decreases |archetypes| + |tracked|
  {
    if archetypes != [] {
      NoTagMarked(settings, t, slots, d, archetypes[|archetypes| - 1].tags);
      NothingMarked(settings, t, slots, d, archetypes[..|archetypes| - 1], tracked);
    } else if tracked != [] {
      NothingMarked(settings, t, slots, d, archetypes, tracked[..|tracked| - 1]);
    }
  }

  lemma {:induction false} NoTagMarked(settings: Settings, t: Table, slots: seq<SlotCache>, d: DirtyView, tags: seq<nat>)
    requires forall tag :: d.Tag(tag) == Touched([], [], [])
    ensures MarkTags(settings, t, slots, d, tags) == slots
  {
    if tags != [] {
      NoTagMarked(settings, t, slots, d, tags[..|tags| - 1]);
    }
  }

  /** A pass, over any registry, view, table and bookkeeping, that changes component `i` of a slot behind its generation. */
  ghost predicate Stale(settings: Settings, r: Registry, d: DirtyView, r': Registry, t: Table, slots: seq<SlotCache>, s: nat, i: nat) {
    && Faithful(r, d, r') && t.Valid() && t.Active(s) && t.slots[s].archetype < |settings.archetypes| && s < |slots|
    && (var a := settings.archetypes[t.slots[s].archetype];
        var c, e := if i < |a.components| then a.components[i] else 0, t.slots[s].entity;
        var after := CaptureGenerations(settings, t, slots, d);
        && i < |a.components| && |slots[s].generations| == |a.components| + 1
        && |after| == |slots| && |after[s].generations| == |slots[s].generations|
        && after[s].generations[i + 1] == slots[s].generations[i + 1]
        && ComponentOf(r, e, c).Some? && ComponentOf(r, e, c) != ComponentOf(r', e, c))
  }

  /** Changing an untracked component leaves its generation alone. */
  lemma ChangeIsStale(settings: Settings, i: nat, j: nat)
    requires settings.WellFormed() && i < |settings.archetypes| && j < |settings.archetypes[i].components|
    requires settings.archetypes[i].components[j] !in settings.tracked
    ensures var a := settings.archetypes[i];
            var c := a.components[j];
            Stale(settings, Lone(i, map[c := 0]), Only(c, Touched([Entity(0, 0)], [], [])), Lone(i, map[c := 1]), LoneTable(i),
                  [SlotCache([], seq(|a.components| + 1, _ => 0), None, 0, false)], 0, j)
  {
    hide Settings.WellFormed, MarkArchetypeTags, MarkComponents;
    var a := settings.archetypes[i];
    var c, x := a.components[j], Touched([Entity(0, 0)], [], []);
    var d, slots := Only(c, x), [SlotCache([], seq(|a.components| + 1, _ => 0), None, 0, false)];
    NothingMarked(settings, LoneTable(i), slots, d, settings.archetypes, settings.tracked);
    assert d.Component(c) == x;
    assert CaptureGenerations(settings, LoneTable(i), slots, d) == slots;
  }

  /** Tracking every replicated component is exactly what it takes for generations to be trustworthy. */
  lemma NothingStaleIff(settings: Settings)
    requires settings.WellFormed()
    ensures settings.Tracks() <==> forall r, d, r', t, slots, s, i :: !Stale(settings, r, d, r', t, slots, s, i)
  {
    if settings.Tracks() {
      forall r, d, r', t, slots, s: nat, i: nat ensures !Stale(settings, r, d, r', t, slots, s, i) {
        if Stale(settings, r, d, r', t, slots, s, i) {
          UnbumpedUnchanged(settings, r, d, r', t, slots, s, i);
          assert false;
        }
      }
    } else {
      var i, j :| 0 <= i < |settings.archetypes| && 0 <= j < |settings.archetypes[i].components|
                  && settings.archetypes[i].components[j] !in settings.tracked;
      ChangeIsStale(settings, i, j);
    }
  }

  // ------------------------------------------------------------------- passes

  /** A frame that matched its slot before the pass still matches it afterwards. */
  lemma StillGood(settings: Settings, c: Cache, r': Registry, d: DirtyView, frame: nat, s: nat, q: nat)
    requires settings.WellFormed() && settings.Tracks() && Faithful(c.registry, d, r') && c.table.Valid()
    requires |c.slots| == |c.table.slots| && Good(settings, c, s, q)
    ensures var c' := c.(registry := r', frame := frame, slots := CaptureGenerations(settings, c.table, c.slots, d));
            |c'.slots| == |c.slots| && Good(settings, c', s, q)
  {
    hide CaptureGenerations, Faithful, Settings.Tracks, Table.Valid, ComponentOps.Lawful;
    var slots' := CaptureGenerations(settings, c.table, c.slots, d);
    CaptureGrows(settings, c.table, c.slots, d);
    var a := settings.archetypes[c.table.slots[s].archetype];
    var f, e := c.frames[q], c.table.slots[s].entity;
    forall g | 1 <= g <= |a.components| ensures f.generations[g] <= slots'[s].generations[g] {
      GrewAt(c.slots, slots', s, g);
    }
    forall i | 0 <= i < |a.components| && f.data.components[i].Some? && f.generations[i + 1] == slots'[s].generations[i + 1]
      ensures f.data.components[i] == QuantizedComponent(a, r', e, i)
    {
      GrewAt(c.slots, slots', s, i + 1);
      assert f.generations[i + 1] <= c.slots[s].generations[i + 1];
      UnbumpedUnchanged(settings, c.registry, d, r', c.table, c.slots, s, i);
    }
  }

  /** The end of a pass: new registry, later frame, bumped generations. */
  lemma CaptureSound(settings: Settings, c: Cache, r': Registry, d: DirtyView, frame: nat)
    requires settings.WellFormed() && settings.Tracks() && Faithful(c.registry, d, r')
    requires Sound(settings, c) && frame > c.frame
    ensures Ready(settings, c.(registry := r', frame := frame, slots := CaptureGenerations(settings, c.table, c.slots, d)))
  {
    hide CaptureGenerations, Faithful, Own, AllRefs, Good, CurrentFrame, Settings.WellFormed, Settings.Tracks, Table.Valid;
    var c' := c.(registry := r', frame := frame, slots := CaptureGenerations(settings, c.table, c.slots, d));
    CaptureGrows(settings, c.table, c.slots, d);
    assert |c'.slots| == |c.slots|;
    forall k, s | 0 <= k < |c'.clients| && 0 <= s < |c'.clients[k].states|
      ensures StateGood(settings, c', s, c'.clients[k].states[s])
    {
      StateIsGood(settings, c, k, s);
      forall q | q in Own(c'.clients[k].states[s]) ensures Good(settings, c', s, q) {
        StillGood(settings, c, r', d, frame, s, q);
      }
    }
    forall s ensures SlotSound(settings, c', s) {
      assert SlotSound(settings, c, s);
    }
  }

  /** What a run keeps. */
  ghost predicate Running(settings: Settings, c: Cache)
    requires settings.WellFormed()
  {
    Ready(settings, c) && Synced(c.registry, c.table, |settings.archetypes|)
  }

  lemma PassRunning(settings: Settings, c: Cache, r': Registry, d: DirtyView, frame: nat)
    requires settings.WellFormed() && settings.Tracks() && Running(settings, c)
    requires Faithful(c.registry, d, r') && DistinctIndices(r') && frame > c.frame
    ensures var u := Capture(settings, c, r', d, frame); u.Some? ==> Running(settings, u.value)
  {
    hide Faithful, Synced, Settings.WellFormed, Settings.Tracks, CaptureGenerations, SoundBut, Ready, RemovedAll, UpsertedAll, RemoveAll, UpsertAll, Table.Valid;
    var c0 := c.(table := c.table.(destroyed := []));
    ReadySound(settings, c);
    ForgetDestroyed(settings, c);
    SoundShaped(settings, c0);
    var list, c1 := d.replicated.added + d.replicated.dirty, RemovedAll(c0, d.replicated.removed);
    RemovedAllSound(settings, c0, d.replicated.removed);
    SoundShaped(settings, c1);
    UpsertedAllSound(settings, c1, r', list);
    RediscoverSyncs(c0.table, c.registry, d, r', |settings.archetypes|);
    var c2 := UpsertedAll(settings, c1, r', list);
    if c2.Some? {
      CaptureSound(settings, c2.value, r', d, frame);
    }
  }

  lemma ForgetDestroyed(settings: Settings, c: Cache)
    requires settings.WellFormed() && Running(settings, c)
    ensures var c0 := c.(table := c.table.(destroyed := []));
            Sound(settings, c0) && Synced(c.registry, c0.table, |settings.archetypes|)
  {
    hide Own, Good, Pool, Settings.WellFormed, CurrentSound, AllRefs, Table.MapsValid, Table.FreeValid;
    var c0 := c.(table := c.table.(destroyed := []));
    SamePool(c, c0);
    SyncedAnyway(c.registry, c.table, |settings.archetypes|);
    forall k, s | 0 <= k < |c0.clients| && 0 <= s < |c0.clients[k].states|
      ensures StateGood(settings, c0, s, c0.clients[k].states[s])
    {
      StateIsGood(settings, c, k, s);
      forall q | q in Own(c0.clients[k].states[s]) ensures Good(settings, c0, s, q) {
        GoodAnyway(settings, c, s, q);
      }
    }
    forall s ensures SlotSound(settings, c0, s) {
      assert SlotSound(settings, c, s);
    }
  }

  lemma GoodAnyway(settings: Settings, c: Cache, s: int, q: int)
    requires settings.WellFormed() && |c.slots| == |c.table.slots| && Good(settings, c, s, q)
    ensures Good(settings, c.(table := c.table.(destroyed := [])), s, q)
  {
    hide Matches;
  }

  // ------------------------------------------------- slots freed between passes

  /**
   `deactivate_replicated_slot` for a slot whose entity is gone or no longer
   marked: the next dirty view starts from a registry without that marker.
   */
  function FreedSlot(c: Cache, s: nat): Cache
    requires Shaped(c)
  {
    if !c.table.Active(s) then c
    else
      var e := c.table.slots[s].entity;
      DeactivatedIndex(c, e.index).(registry := Unmarked(c.registry, e))
  }

  lemma UnmarkedGood(settings: Settings, c: Cache, e: Entity, s: int, q: int)
    requires settings.WellFormed() && |c.slots| == |c.table.slots| && Good(settings, c, s, q)
    ensures Good(settings, c.(registry := Unmarked(c.registry, e)), s, q)
  {
    var r' := Unmarked(c.registry, e);
    var a := settings.archetypes[c.frames[q].archetype];
    forall i | 0 <= i < |a.components|
      ensures QuantizedComponent(a, r', c.table.slots[s].entity, i) == QuantizedComponent(a, c.registry, c.table.slots[s].entity, i)
    {
    }
  }

  lemma UnmarkedFresh(a: Archetype, r: Registry, e: Entity, of: Entity, client: nat)
    requires |a.tagAudience| == |a.tags| && |a.componentAudience| == |a.components| == |a.ops|
    ensures FreshData(a, Unmarked(r, e), of, client) == FreshData(a, r, of, client)
  {
    var r' := Unmarked(r, e);
    assert OwnerClient(r', of) == OwnerClient(r, of);
    assert forall x :: HasTag(r', of, x) == HasTag(r, of, x);
    assert forall x :: ComponentOf(r', of, x) == ComponentOf(r, of, x);
    forall i | 0 <= i < |a.components| ensures FreshComponent(a, r', of, client, i) == FreshComponent(a, r, of, client, i) {
    }
  }

  /** Whether an entity is marked makes no difference to what a snapshot of it holds. */
  lemma UnmarkedReady(settings: Settings, c: Cache, e: Entity)
    requires settings.WellFormed() && Ready(settings, c)
    ensures Ready(settings, c.(registry := Unmarked(c.registry, e)))
  {
    hide Own, AllRefs, Matches, FreshData, NothingVisible, Unmarked, Good, Settings.WellFormed, Table.Valid;
    var c' := c.(registry := Unmarked(c.registry, e));
    forall k, s | 0 <= k < |c'.clients| && 0 <= s < |c'.clients[k].states|
      ensures StateGood(settings, c', s, c'.clients[k].states[s])
    {
      StateIsGood(settings, c, k, s);
      forall q | q in Own(c'.clients[k].states[s]) ensures Good(settings, c', s, q) {
        UnmarkedGood(settings, c, e, s, q);
      }
    }
    forall s ensures SlotSound(settings, c', s) {
      assert SlotSound(settings, c, s);
    }
    forall q | 0 <= q < |c'.frames| && c'.frames[q].active && c'.frames[q].frame == c'.frame && c'.table.Active(c'.frames[q].slot)
      ensures CurrentFrame(settings, c', q)
    {
      UnmarkedCurrent(settings, c, e, q);
    }
  }

  lemma UnmarkedCurrent(settings: Settings, c: Cache, e: Entity, q: nat)
    requires settings.WellFormed() && |c.slots| == |c.table.slots| && q < |c.frames| && CurrentFrame(settings, c, q)
    ensures CurrentFrame(settings, c.(registry := Unmarked(c.registry, e)), q)
  {
    hide FreshData, NothingVisible, Unmarked, Matches;
    var s := c.frames[q].slot;
    UnmarkedGood(settings, c, e, s, q);
    var a := settings.archetypes[c.frames[q].archetype];
    var client :| c.frames[q].data == FreshData(a, c.registry, c.table.slots[s].entity, client);
    UnmarkedFresh(a, c.registry, e, c.table.slots[s].entity, client);
  }

  lemma FreedReady(settings: Settings, c: Cache, s: nat)
    requires settings.WellFormed() && Ready(settings, c)
    ensures Ready(settings, FreedSlot(c, s))
  {
    hide Sound, CurrentSound, DeactivatedIndex, Unmarked, Settings.WellFormed;
    ReadySound(settings, c);
    if c.table.Active(s) {
      var e := c.table.slots[s].entity;
      DeactivatedSound(settings, c, e.index);
      DeactivatedCurrent(settings, c, e.index);
      UnmarkedReady(settings, DeactivatedIndex(c, e.index), e);
    }
  }

  lemma FreedRunning(settings: Settings, c: Cache, s: nat)
    requires settings.WellFormed() && Running(settings, c)
    ensures Running(settings, FreedSlot(c, s))
  {
    hide Ready, Synced, Unmarked, DeactivatedIndex, Table.Valid, Settings.WellFormed;
    FreedReady(settings, c, s);
    ReadySound(settings, c);
    if c.table.Active(s) {
      FreeValid(c.table, s);
      FreeSyncs(c.registry, c.table, |settings.archetypes|, s);
    }
  }
}
