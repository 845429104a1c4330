/** Every slot whose replicated contents change in a pass is marked or reported destroyed. */
module ReplayCoverage {
  import opened Wrappers
  import opened SlotTable
  import opened World
  import opened Discovery
  import opened ReplayWire
  import opened ReplayWriting

  /** What the server replicates of a slot. */
  ghost function ServerSlot(settings: Settings, r: Registry, t: Table, s: int): Option<SlotView>
    requires settings.WellFormed()
  {
    if t.Active(s) && t.slots[s].archetype < |settings.archetypes| then
      var slot := t.slots[s];
      var a := settings.archetypes[slot.archetype];
      Some(SlotView(slot.archetype, TagsOf(a, r, slot.entity), ComponentsOf(a, r, slot.entity)))
    else None
  }

  lemma {:induction false} ByEntityVisits(t: Table, list: seq<Entity>, e: Entity)
    requires e in list && e in t.byEntity
    ensures t.byEntity[e] in ByEntity(t, list)
  {
    if list[|list| - 1] != e {
      ByEntityVisits(t, list[..|list| - 1], e);
    }
  }

  lemma {:induction false} ByIndexVisits(t: Table, list: seq<Entity>, e: Entity)
    requires e in list && e.index in t.byIndex
    ensures t.byIndex[e.index] in ByIndex(t, list)
  {
    if list[|list| - 1] != e {
      ByIndexVisits(t, list[..|list| - 1], e);
    }
  }

  /** A change that is reported marks the slot of its entity. */
  lemma ReportedIsVisited(t: Table, x: Touched, s: int, present: bool)
    requires t.Valid() && t.Active(s) && Reports(x, t.slots[s].entity, present)
    ensures s in TouchedSlots(t, x)
  {
    var e := t.slots[s].entity;
    if e in x.dirty {
      ByEntityVisits(t, x.dirty, e);
    }
    if e in x.added {
      ByEntityVisits(t, x.added, e);
    }
    if e in x.removed {
      ByIndexVisits(t, x.removed, e);
    }
  }

  lemma {:induction false} TagVisited(t: Table, d: DirtyView, tags: seq<nat>, i: nat, s: nat)
    requires i < |tags| && s in TouchedSlots(t, d.Tag(tags[i]))
    ensures s in TagSlots(t, d, tags)
  {
    if i < |tags| - 1 {
      TagVisited(t, d, tags[..|tags| - 1], i, s);
    }
  }

  lemma {:induction false} ArchetypeVisited(t: Table, d: DirtyView, archetypes: seq<Archetype>, a: nat, i: nat, s: nat)
    requires a < |archetypes| && i < |archetypes[a].tags| && s in TouchedSlots(t, d.Tag(archetypes[a].tags[i]))
    ensures s in ArchetypeSlots(t, d, archetypes)
  {
    if a < |archetypes| - 1 {
      ArchetypeVisited(t, d, archetypes[..|archetypes| - 1], a, i, s);
    } else {
      TagVisited(t, d, archetypes[a].tags, i, s);
    }
  }

  lemma {:induction false} ComponentVisited(t: Table, d: DirtyView, tracked: seq<nat>, c: nat, s: nat)
    requires c in tracked && s in TouchedSlots(t, d.Component(c))
    ensures s in ComponentSlots(t, d, tracked)
  {
    if tracked[|tracked| - 1] != c {
      ComponentVisited(t, d, tracked[..|tracked| - 1], c, s);
    }
  }

  /** A slot that keeps its occupant but not its contents is marked. */
  lemma ContentChangeMarked(settings: Settings, r: Registry, d: DirtyView, r': Registry, t: Table, t': Table, s: int)
    requires settings.WellFormed() && settings.Tracks() && Faithful(r, d, r') && t'.Valid()
    requires t.Active(s) && t'.Active(s) && t.slots[s] == t'.slots[s]
    requires ServerSlot(settings, r, t, s) != ServerSlot(settings, r', t', s)
    ensures s in DirtySlots(settings, t', d)
  {
    hide Settings.WellFormed, Settings.Tracks, Faithful, DirtySlots, TagsOf, ComponentsOf, Table.Valid;
    var a, e := settings.archetypes[t.slots[s].archetype], t.slots[s].entity;
    if TagsOf(a, r, e) != TagsOf(a, r', e) {
      TagChangeMarked(settings, r, d, r', t', s);
    } else {
      ComponentChangeMarked(settings, r, d, r', t', s);
    }
  }

  lemma TagChangeMarked(settings: Settings, r: Registry, d: DirtyView, r': Registry, t': Table, s: int)
    requires Faithful(r, d, r') && t'.Valid() && t'.Active(s) && t'.slots[s].archetype < |settings.archetypes|
    requires var a, e := settings.archetypes[t'.slots[s].archetype], t'.slots[s].entity; TagsOf(a, r, e) != TagsOf(a, r', e)
    ensures s in DirtySlots(settings, t', d)
  {
    hide TouchedSlots, ComponentSlots, Table.Valid;
    var a, e := settings.archetypes[t'.slots[s].archetype], t'.slots[s].entity;
    var i :| 0 <= i < |a.tags| && TagsOf(a, r, e)[i] != TagsOf(a, r', e)[i];
    assert Reports(d.Tag(a.tags[i]), e, HasTag(r', e, a.tags[i]));
    ReportedIsVisited(t', d.Tag(a.tags[i]), s, HasTag(r', e, a.tags[i]));
    ArchetypeVisited(t', d, settings.archetypes, t'.slots[s].archetype, i, s);
  }

  lemma ComponentChangeMarked(settings: Settings, r: Registry, d: DirtyView, r': Registry, t': Table, s: int)
    requires settings.WellFormed() && settings.Tracks()
    requires Faithful(r, d, r') && t'.Valid() && t'.Active(s) && t'.slots[s].archetype < |settings.archetypes|
    requires var a, e := settings.archetypes[t'.slots[s].archetype], t'.slots[s].entity; ComponentsOf(a, r, e) != ComponentsOf(a, r', e)
    ensures s in DirtySlots(settings, t', d)
  {
    hide TouchedSlots, ArchetypeSlots, Table.Valid;
    var a, e := settings.archetypes[t'.slots[s].archetype], t'.slots[s].entity;
    var i :| 0 <= i < |a.components| && ComponentsOf(a, r, e)[i] != ComponentsOf(a, r', e)[i];
    var c := a.components[i];
    assert Reports(d.Component(c), e, ComponentOf(r', e, c).Some?);
    ReportedIsVisited(t', d.Component(c), s, ComponentOf(r', e, c).Some?);
    assert c in settings.tracked;
    ComponentVisited(t', d, settings.tracked, c, s);
  }

  /** A slot whose occupant was registered in this pass is marked. */
  lemma NewOccupantMarked(settings: Settings, d: DirtyView, t': Table, s: int)
    requires t'.Valid() && t'.Active(s) && t'.slots[s].entity in d.replicated.added + d.replicated.dirty
    ensures s in DirtySlots(settings, t', d)
  {
    ReportedIsVisited(t', d.replicated, s, true);
  }

  /**
   Coverage of one pass: a slot whose replicated contents changed is marked or
   reported destroyed, and one that was destroyed and is in use again is marked.
   */
  lemma PassCovers(settings: Settings, r: Registry, d: DirtyView, r': Registry, t: Table, t': Table, s: int)
    requires settings.WellFormed() && settings.Tracks() && Faithful(r, d, r')
    requires t.Valid() && t.destroyed == [] && t'.Valid()
    requires Evolved(t, t', d.replicated.added + d.replicated.dirty)
    ensures ServerSlot(settings, r, t, s) != ServerSlot(settings, r', t', s) ==>
              s in DirtySlots(settings, t', d) || s in t'.destroyed
    ensures s in t'.destroyed && t'.Active(s) ==> s in DirtySlots(settings, t', d)
  {
    if t'.Active(s) {
      if t'.slots[s].entity in d.replicated.added + d.replicated.dirty {
        NewOccupantMarked(settings, d, t', s);
      } else if ServerSlot(settings, r, t, s) != ServerSlot(settings, r', t', s) {
        ContentChangeMarked(settings, r, d, r', t, t', s);
      }
    }
  }

  // -------------------------------------------------- untracked components

  lemma {:induction false} NothingVisited(t: Table, d: DirtyView, archetypes: seq<Archetype>, tracked: seq<nat>)
    requires forall a | 0 <= a < |archetypes| :: forall tag <- archetypes[a].tags :: d.Tag(tag) == Touched([], [], [])
    requires forall c <- tracked :: d.Component(c) == Touched([], [], [])
    ensures ArchetypeSlots(t, d, archetypes) == [] && ComponentSlots(t, d, tracked) == []
    decreases |archetypes| + |tracked|
  {
    if archetypes != [] {
      NoTagVisited(t, d, archetypes[|archetypes| - 1].tags);
      NothingVisited(t, d, archetypes[..|archetypes| - 1], tracked);
    } else if tracked != [] {
      NothingVisited(t, d, archetypes, tracked[..|tracked| - 1]);
    }
  }

  lemma {:induction false} NoTagVisited(t: Table, d: DirtyView, tags: seq<nat>)
    requires forall tag <- tags :: d.Tag(tag) == Touched([], [], [])
    ensures TagSlots(t, d, tags) == []
  {
    if tags != [] {
      NoTagVisited(t, d, tags[..|tags| - 1]);
    }
  }

  /**
   Why replicated components must be tracked: a frame in which only a component
   outside `SyncSettings::component_ops` changed marks no slot at all, whatever changed.
   A component that an archetype uses through a serializer profile alone is such a component.
   */
  lemma UntrackedChangeIsMissed(settings: Settings, t: Table, c: nat, x: Touched)
    requires c !in settings.tracked
    ensures var nothing := Touched([], [], []);
            DirtySlots(settings, t, DirtyView(nothing, map[], map[c := x], nothing)) == []
  {
    var nothing := Touched([], [], []);
    var d := DirtyView(nothing, map[], map[c := x], nothing);
    NothingVisited(t, d, settings.archetypes, settings.tracked);
  }

  /** A pass, over any registry, view and table, that leaves a changed slot unmarked. */
  ghost predicate Missed(settings: Settings, r: Registry, d: DirtyView, r': Registry, t: Table, t': Table, s: int)
    requires settings.WellFormed()
  {
    && Faithful(r, d, r') && DistinctIndices(r') && t.Valid() && t.destroyed == [] && t'.Valid()
    && Evolved(t, t', d.replicated.added + d.replicated.dirty)
    && ServerSlot(settings, r, t, s) != ServerSlot(settings, r', t', s)
    && s !in DirtySlots(settings, t', d) && s !in t'.destroyed
  }

  /** A world of one entity of archetype `i`, with or without component `c`. */
  function Lone(i: nat, components: map<nat, int>): Registry {
    map[Entity(0, 0) := EntityData(Some(i), {}, components, None)]
  }

  function LoneTable(i: nat): Table {
    Table([Slot(Entity(0, 0), i, true)], map[Entity(0, 0) := 0], map[0 := 0], [], 1, [])
  }

  /** The view in which only `x` is reported, for component `c`. */
  function Only(c: nat, x: Touched): DirtyView {
    var nothing := Touched([], [], []);
    DirtyView(nothing, map[], map[c := x], nothing)
  }

  lemma LoneTableValid(i: nat)
    ensures LoneTable(i).Valid() && Evolved(LoneTable(i), LoneTable(i), [])
  {
  }

  /** Reporting the loss of a component is all there is to report. */
  lemma LossReported(i: nat, c: nat)
    ensures Faithful(Lone(i, map[c := 0]), Only(c, Touched([], [], [Entity(0, 0)])), Lone(i, map[]))
  {
    var e := Entity(0, 0);
    var r, r', d := Lone(i, map[c := 0]), Lone(i, map[]), Only(c, Touched([], [], [e]));
    assert d.Component(c) == Touched([], [], [e]);
    forall f, x ensures ComponentOf(r', f, x) == None && (ComponentOf(r, f, x).Some? ==> f == e && x == c) {
    }
    forall f, t ensures !HasTag(r, f, t) && !HasTag(r', f, t) {
    }
    forall f ensures ReplicatedAs(r, f) == ReplicatedAs(r', f) {
    }
  }

  lemma LossShows(settings: Settings, i: nat, j: nat)
    requires settings.WellFormed() && i < |settings.archetypes| && j < |settings.archetypes[i].components|
    ensures var c := settings.archetypes[i].components[j];
            ServerSlot(settings, Lone(i, map[c := 0]), LoneTable(i), 0) != ServerSlot(settings, Lone(i, map[]), LoneTable(i), 0)
  {
    var a := settings.archetypes[i];
    var c, e := a.components[j], Entity(0, 0);
    var r, r' := Lone(i, map[c := 0]), Lone(i, map[]);
    assert QuantizedComponent(a, r, e, j).Some? && QuantizedComponent(a, r', e, j).None?;
    assert ComponentsOf(a, r, e)[j] != ComponentsOf(a, r', e)[j];
  }

  /** Losing an untracked component is missed. */
  lemma LossIsMissed(settings: Settings, i: nat, j: nat)
    requires settings.WellFormed() && i < |settings.archetypes| && j < |settings.archetypes[i].components|
    requires settings.archetypes[i].components[j] !in settings.tracked
    ensures var c := settings.archetypes[i].components[j];
            Missed(settings, Lone(i, map[c := 0]), Only(c, Touched([], [], [Entity(0, 0)])), Lone(i, map[]), LoneTable(i), LoneTable(i), 0)
  {
    hide Settings.WellFormed, Faithful, ServerSlot, Table.Valid, Evolved, DirtySlots;
    var c := settings.archetypes[i].components[j];
    LoneTableValid(i);
    var d := Only(c, Touched([], [], [Entity(0, 0)]));
    assert d.replicated.added + d.replicated.dirty == [];
    LossReported(i, c);
    LossShows(settings, i, j);
    UntrackedChangeIsMissed(settings, LoneTable(i), c, Touched([], [], [Entity(0, 0)]));
  }

  /** Tracking every replicated component is exactly what it takes for no pass to miss a change. */
  lemma NothingMissedIff(settings: Settings)
    requires settings.WellFormed()
    ensures settings.Tracks() <==> forall r, d, r', t, t', s :: !Missed(settings, r, d, r', t, t', s)
  {
    if settings.Tracks() {
      forall r, d, r', t, t', s: int ensures !Missed(settings, r, d, r', t, t', s) {
        if Missed(settings, r, d, r', t, t', s) {
          PassCovers(settings, r, d, r', t, t', s);
          assert false;
        }
      }
    } else {
      var i, j :| 0 <= i < |settings.archetypes| && 0 <= j < |settings.archetypes[i].components|
                  && settings.archetypes[i].components[j] !in settings.tracked;
      LossIsMissed(settings, i, j);
    }
  }
}
