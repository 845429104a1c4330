/**
 The server's table of replicated slots: which entity occupies which slot, the
 two lookup maps, the free list and the slots deactivated in the current pass.
 */
module SlotTable {

  /** An entity handle: a reusable index and the generation that makes the handle unique. */
  datatype Entity = Entity(index: nat, generation: nat)

  datatype Slot = Slot(entity: Entity, archetype: nat, active: bool)

  datatype Table = Table(
    slots: seq<Slot>,
    byEntity: map<Entity, nat>,
    byIndex: map<nat, nat>,
    free: seq<nat>,
    activeCount: int,
    destroyed: seq<nat>)
  {
    predicate Active(s: int) {
      0 <= s < |slots| && slots[s].active
    }

    /** Active slots are in bijection with both maps. */
    ghost predicate MapsValid() {
      && (forall e <- byEntity :: Active(byEntity[e]) && slots[byEntity[e]].entity == e)
      && (forall i <- byIndex :: Active(byIndex[i]) && slots[byIndex[i]].entity.index == i)
      && (forall s | 0 <= s < |slots| && slots[s].active ::
            && slots[s].entity in byEntity && byEntity[slots[s].entity] == s
            && slots[s].entity.index in byIndex && byIndex[slots[s].entity.index] == s)
    }

    /** The free list is the inactive slots, once each. */
    ghost predicate FreeValid() {
      && (forall k | 0 <= k < |free| :: free[k] < |slots| && !slots[free[k]].active)
      && (forall s | 0 <= s < |slots| && !slots[s].active :: s in free)
      && (forall j, k | 0 <= j < k < |free| :: free[j] != free[k])
    }

    ghost predicate Valid() {
      MapsValid() && FreeValid() && activeCount == |slots| - |free|
    }
  }

  const Empty := Table([], map[], map[], [], 0, [])

  /** Number of active slots, counted one by one. */
  function CountActive(slots: seq<Slot>): nat {
    if slots == [] then 0
    else CountActive(slots[..|slots| - 1]) + (if slots[|slots| - 1].active then 1 else 0)
  }

  /** `deactivate_replicated`: frees an active slot and reports it as destroyed. */
  function Deactivate(t: Table, s: nat): Table {
    if !t.Active(s) then t
    else
      var e := t.slots[s].entity;
      t.(slots := t.slots[s := t.slots[s].(active := false)],
         byEntity := t.byEntity - {e},
         byIndex := t.byIndex - {e.index},
         free := t.free + [s],
         activeCount := t.activeCount - 1,
         destroyed := t.destroyed + [s])
  }

  /** `deactivate_entity_index`. */
  function DeactivateIndex(t: Table, index: nat): Table {
    if index in t.byIndex then Deactivate(t, t.byIndex[index]) else t
  }

  /** `allocate_replicated_slot` and the map updates that follow it: the last freed slot is reused first. */
  function Allocate(t: Table, e: Entity, archetype: nat): Table
    requires forall k | 0 <= k < |t.free| :: t.free[k] < |t.slots|
  {
    var reuse := t.free != [];
    var s := if reuse then t.free[|t.free| - 1] else |t.slots|;
    var record := Slot(e, archetype, true);
    t.(slots := if reuse then t.slots[s := record] else t.slots + [record],
       byEntity := t.byEntity[e := s],
       byIndex := t.byIndex[e.index := s],
       free := if reuse then t.free[..|t.free| - 1] else t.free,
       activeCount := t.activeCount + 1)
  }

  datatype UpsertResult = Done(table: Table, registered: bool) | ArchetypeChanged

  /** `upsert_replicated`; the exception for a changed archetype is `ArchetypeChanged`. */
  function Upsert(t: Table, e: Entity, alive: bool, archetype: nat, archetypes: nat): UpsertResult
    requires t.Valid()
  {
    if !alive || archetype >= archetypes then Done(DeactivateIndex(t, e.index), false)
    else if e in t.byEntity then
      if t.slots[t.byEntity[e]].archetype != archetype then ArchetypeChanged else Done(t, true)
    else
      DeactivateValid(t, e.index);
      Done(Allocate(DeactivateIndex(t, e.index), e, archetype), true)
  }

  lemma DeactivateValid(t: Table, index: nat)
    requires t.Valid()
    ensures var t' := DeactivateIndex(t, index);
            t'.Valid() && index !in t'.byIndex && forall e <- t'.byEntity :: e.index != index
  {
    if index in t.byIndex {
      var s := t.byIndex[index];
      var t' := DeactivateIndex(t, index);
      assert t'.free == t.free + [s];
      forall r | 0 <= r < |t'.slots| && !t'.slots[r].active ensures r in t'.free {
        assert r == s || r in t.free;
      }
    }
  }

  /** Allocation fills one free slot, new or reused, and leaves the others alone. */
  lemma OnlySlotAllocated(t: Table, e: Entity, archetype: nat)
    requires t.FreeValid()
    ensures var t', s := Allocate(t, e, archetype), Allocate(t, e, archetype).byEntity[e];
            && s <= |t.slots| && !t.Active(s) && |t'.slots| == (if s < |t.slots| then |t.slots| else |t.slots| + 1)
            && t'.slots[s] == Slot(e, archetype, true) && t'.destroyed == t.destroyed
            && t'.byEntity == t.byEntity[e := s] && t'.byIndex == t.byIndex[e.index := s] && t'.activeCount == t.activeCount + 1
            && forall x | 0 <= x < |t.slots| && x != s :: t'.slots[x] == t.slots[x]
  {
  }

  lemma AllocateFree(t: Table, e: Entity, archetype: nat)
    requires t.FreeValid()
    ensures Allocate(t, e, archetype).FreeValid()
  {
    var t' := Allocate(t, e, archetype);
    if t.free != [] {
      var s := t.free[|t.free| - 1];
      assert t.free == t'.free + [s];
      forall r | 0 <= r < |t'.slots| && !t'.slots[r].active ensures r in t'.free {
        assert r in t.free && r != s;
      }
    }
  }

  lemma AllocateMaps(t: Table, e: Entity, archetype: nat)
    requires t.Valid() && e.index !in t.byIndex
    ensures Allocate(t, e, archetype).MapsValid()
  {
    OnlySlotAllocated(t, e, archetype);
    hide Allocate, Table.FreeValid;
    var t' := Allocate(t, e, archetype);
    var s := t'.byEntity[e];
    forall f <- t'.byEntity ensures t'.Active(t'.byEntity[f]) && t'.slots[t'.byEntity[f]].entity == f {
      assert f != e ==> t.Active(t.byEntity[f]);
    }
    forall i <- t'.byIndex ensures t'.Active(t'.byIndex[i]) && t'.slots[t'.byIndex[i]].entity.index == i {
      assert i != e.index ==> t.Active(t.byIndex[i]);
    }
    forall r | 0 <= r < |t'.slots| && t'.slots[r].active
      ensures t'.slots[r].entity in t'.byEntity && t'.byEntity[t'.slots[r].entity] == r
      ensures t'.slots[r].entity.index in t'.byIndex && t'.byIndex[t'.slots[r].entity.index] == r
    {
      assert r != s ==> t'.slots[r] == t.slots[r];
    }
  }

  lemma AllocateValid(t: Table, e: Entity, archetype: nat)
    requires t.Valid() && e.index !in t.byIndex
    ensures Allocate(t, e, archetype).Valid()
    ensures e in Allocate(t, e, archetype).byEntity
  {
    AllocateFree(t, e, archetype);
    AllocateMaps(t, e, archetype);
  }

  /** Every upsert keeps the table valid; a registered entity has its own active slot with its archetype. */
  lemma UpsertValid(t: Table, e: Entity, alive: bool, archetype: nat, archetypes: nat)
    requires t.Valid()
    ensures var u := Upsert(t, e, alive, archetype, archetypes);
            u.Done? ==>
              && u.table.Valid()
              && (u.registered <==> alive && archetype < archetypes)
              && (u.registered ==> e in u.table.byEntity && u.table.slots[u.table.byEntity[e]].archetype == archetype)
              && (!u.registered ==> e.index !in u.table.byIndex)
  {
    DeactivateValid(t, e.index);
    if alive && archetype < archetypes && e !in t.byEntity {
      AllocateValid(DeactivateIndex(t, e.index), e, archetype);
    }
  }

  ghost function Inactive(slots: seq<Slot>): set<nat> {
    set s: nat | s < |slots| && !slots[s].active
  }

  lemma {:induction false} CountsAddUp(slots: seq<Slot>)
    ensures CountActive(slots) + |Inactive(slots)| == |slots|
  {
    if slots != [] {
      var init, last := slots[..|slots| - 1], |slots| - 1;
      CountsAddUp(init);
      assert Inactive(slots) == Inactive(init) + (if slots[last].active then {} else {last});
    }
  }

  ghost function Elements(xs: seq<nat>): set<nat> {
    set x <- xs
  }

  lemma {:induction false} DistinctElements(xs: seq<nat>)
    requires forall j, k | 0 <= j < k < |xs| :: xs[j] != xs[k]
    ensures |Elements(xs)| == |xs|
  {
    if xs != [] {
      var init, last := xs[..|xs| - 1], xs[|xs| - 1];
      DistinctElements(init);
      assert xs == init + [last];
      assert Elements(xs) == Elements(init) + {last};
    }
  }

  /** The counter that `active_replicated_slot_count` reports is the number of active slots. */
  lemma ActiveCountExact(t: Table)
    requires t.Valid()
    ensures t.activeCount == CountActive(t.slots)
  {
    CountsAddUp(t.slots);
    DistinctElements(t.free);
    assert Elements(t.free) == Inactive(t.slots);
  }

  /** No two active slots share an entity index. */
  lemma DistinctActiveIndices(t: Table, a: int, b: int)
    requires t.MapsValid() && t.Active(a) && t.Active(b) && t.slots[a].entity.index == t.slots[b].entity.index
    ensures a == b
  {
    assert t.byIndex[t.slots[a].entity.index] == a;
  }

  /** The table as the server object holds it: vectors, maps and counters updated in place. */
  class ReplicatedSlots {
    var slots: seq<Slot>
    var byEntity: map<Entity, nat>
    var byIndex: map<nat, nat>
    var free: seq<nat>
    var activeCount: int
    var destroyed: seq<nat>

    function Model(): Table
      reads this
    {
      Table(slots, byEntity, byIndex, free, activeCount, destroyed)
    }

    constructor ()
      ensures Model() == Empty && Model().Valid()
    {
      slots, byEntity, byIndex, free, activeCount, destroyed := [], map[], map[], [], 0, [];
    }

    method DeactivateReplicated(s: nat)
      requires Model().Valid()
      modifies this
      ensures Model() == Deactivate(old(Model()), s) && Model().Valid()
    {
      ghost var before := Model();
      if s >= |slots| || !slots[s].active {
        return;
      }
      var e := slots[s].entity;
      DeactivateValid(before, e.index);
      destroyed := destroyed + [s];
      byEntity := byEntity - {e};
      byIndex := byIndex - {e.index};
      slots := slots[s := slots[s].(active := false)];
      free := free + [s];
      activeCount := activeCount - 1;
    }

    method DeactivateEntityIndex(index: nat)
      requires Model().Valid()
      modifies this
      ensures Model() == DeactivateIndex(old(Model()), index) && Model().Valid()
    {
      if index in byIndex {
        DeactivateReplicated(byIndex[index]);
      }
    }

    /** `allocate_replicated_slot`. */
    method AllocateSlot(e: Entity, archetype: nat) returns (s: nat)
      requires Model().FreeValid()
      modifies `slots, `free
      ensures slots == Allocate(old(Model()), e, archetype).slots && free == Allocate(old(Model()), e, archetype).free
      ensures s == Allocate(old(Model()), e, archetype).byEntity[e]
    {
      if free != [] {
        s := free[|free| - 1];
        free := free[..|free| - 1];
        slots := slots[s := Slot(e, archetype, true)];
      } else {
        s := |slots|;
        slots := slots + [Slot(e, archetype, true)];
      }
    }

    /** The allocation and the map updates after it. */
    method Register(e: Entity, archetype: nat)
      requires Model().Valid() && e.index !in byIndex
      modifies this
      ensures Model() == Allocate(old(Model()), e, archetype) && Model().Valid()
    {
      ghost var before := Model();
      AllocateValid(before, e, archetype);
      OnlySlotAllocated(before, e, archetype);
      hide Allocate, Table.MapsValid;
      var s := AllocateSlot(e, archetype);
      byEntity := byEntity[e := s];
      byIndex := byIndex[e.index := s];
      activeCount := activeCount + 1;
      assert Model() == Allocate(before, e, archetype);
    }

    /**
     `ok` is the return value; `threw` stands for the exception on a changed archetype, which changes nothing.
     A map entry for an inactive slot, which the original would erase here, does not occur.
     */
    method UpsertReplicated(e: Entity, alive: bool, archetype: nat, archetypes: nat) returns (ok: bool, threw: bool)
      requires Model().Valid()
      modifies this
      ensures Model().Valid()
      ensures var u := Upsert(old(Model()), e, alive, archetype, archetypes);
              if threw then u.ArchetypeChanged? && Model() == old(Model()) else u == Done(Model(), ok)
    {
      ghost var before := Model();
      UpsertValid(before, e, alive, archetype, archetypes);
      ok, threw := false, false;
      if !alive || archetype >= archetypes {
        DeactivateEntityIndex(e.index);
        return;
      }
      if e in byEntity {
        threw := slots[byEntity[e]].archetype != archetype;
        ok := !threw;
        return;
      }
      DeactivateValid(before, e.index);
      DeactivateEntityIndex(e.index);
      Register(e, archetype);
      ok := true;
    }
  }
}
