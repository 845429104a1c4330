/**
 Rediscovery of replicated entities from a dirty view: which slots a dirty
 pass deactivates, allocates and keeps, and that afterwards the active slots
 are exactly the replicated entities of the registry.
 */
module Discovery {
  import opened Wrappers
  import opened SlotTable
  import opened World

  /** The `each_removed<Replicated>` loop. */
  function RemoveAll(t: Table, removed: seq<Entity>): (t': Table)
    requires t.Valid()
    ensures t'.Valid()
  {
    if removed == [] then t
    else
      var last := |removed| - 1;
      var u := RemoveAll(t, removed[..last]);
      DeactivateValid(u, removed[last].index);
      DeactivateIndex(u, removed[last].index)
  }

  /** An upsert loop over `list`; nothing when an upsert throws. */
  function UpsertAll(t: Table, r: Registry, list: seq<Entity>, archetypes: nat): (u: Option<Table>)
    requires t.Valid()
    ensures u.Some? ==> u.value.Valid()
  {
    if list == [] then Some(t)
    else
      var e := list[|list| - 1];
      match UpsertAll(t, r, list[..|list| - 1], archetypes)
      case None => None
      case Some(u) =>
        if ReplicatedAs(r, e).None? then Some(u)
        else
          UpsertValid(u, e, true, ReplicatedAs(r, e).value, archetypes);
          match Upsert(u, e, true, ReplicatedAs(r, e).value, archetypes)
          case ArchetypeChanged => None
          case Done(u', _) => Some(u')
  }

  /** `rediscover_replicated_entities`; `everyone` is the order in which a registry view visits the marked entities. */
  function Rediscover(t: Table, initialized: bool, r: Registry, d: DirtyView, everyone: seq<Entity>, archetypes: nat): (u: Option<Table>)
    requires t.Valid()
    ensures u.Some? ==> u.value.Valid()
  {
    if !initialized then UpsertAll(t, r, everyone, archetypes)
    else UpsertAll(RemoveAll(t, d.replicated.removed), r, d.replicated.added + d.replicated.dirty, archetypes)
  }

  /** The active slots are exactly the live, replicated entities of a known archetype. */
  ghost predicate Synced(r: Registry, t: Table, archetypes: nat) {
    && (forall s | t.Active(s) :: t.slots[s].archetype < archetypes && ReplicatedAs(r, t.slots[s].entity) == Some(t.slots[s].archetype))
    && (forall e | ReplicatedAs(r, e).Some? && ReplicatedAs(r, e).value < archetypes :: e in t.byEntity)
  }

  /** How a pass may change the table: outside `touched` a slot is kept as it was or reported destroyed. */
  ghost predicate Evolved(t: Table, t': Table, touched: seq<Entity>) {
    && |t.slots| <= |t'.slots|
    && (forall s | s in t.destroyed :: s in t'.destroyed)
    && (forall s | t'.Active(s) && t'.slots[s].entity !in touched ::
          t.Active(s) && t.slots[s] == t'.slots[s] && (s in t'.destroyed ==> s in t.destroyed))
    && (forall s | t.Active(s) :: s in t'.destroyed || (t'.Active(s) && t'.slots[s] == t.slots[s]))
    && (forall s | s in t'.destroyed :: s in t.destroyed || s < |t'.slots|)
  }

  lemma EvolvedTrans(t: Table, u: Table, t': Table, touched: seq<Entity>)
    requires Evolved(t, u, touched) && Evolved(u, t', touched)
    ensures Evolved(t, t', touched)
  {
  }

  lemma EvolvedWeaken(t: Table, t': Table, some: seq<Entity>, more: seq<Entity>)
    requires Evolved(t, t', some) && forall e <- some :: e in more
    ensures Evolved(t, t', more)
  {
  }

  lemma DeactivateEvolves(t: Table, index: nat)
    requires t.Valid()
    ensures Evolved(t, DeactivateIndex(t, index), [])
  {
  }

  lemma AllocateEvolves(t: Table, e: Entity, archetype: nat)
    requires t.Valid()
    ensures Evolved(t, Allocate(t, e, archetype), [e])
  {
    OnlySlotAllocated(t, e, archetype);
    hide Allocate, Table.MapsValid, Table.FreeValid;
    var t' := Allocate(t, e, archetype);
    forall s: int | t'.Active(s) && t'.slots[s].entity != e ensures t.Active(s) && t.slots[s] == t'.slots[s] {
      assert s != t'.byEntity[e];
    }
  }

  lemma UpsertEvolves(t: Table, e: Entity, alive: bool, archetype: nat, archetypes: nat)
    requires t.Valid()
    ensures var u := Upsert(t, e, alive, archetype, archetypes); u.Done? ==> Evolved(t, u.table, [e])
  {
    DeactivateValid(t, e.index);
    DeactivateEvolves(t, e.index);
    var t1 := DeactivateIndex(t, e.index);
    EvolvedWeaken(t, t1, [], [e]);
    AllocateEvolves(t1, e, archetype);
    EvolvedTrans(t, t1, Allocate(t1, e, archetype), [e]);
  }

  /** An upsert leaves every entity with another index registered. */
  lemma UpsertKeepsOthers(t: Table, e: Entity, archetype: nat, archetypes: nat, other: Entity)
    requires t.Valid() && other in t.byEntity && other.index != e.index
    ensures var u := Upsert(t, e, true, archetype, archetypes); u.Done? ==> other in u.table.byEntity
  {
  }

  lemma DeactivateEffect(t: Table, index: nat)
    requires t.Valid()
    ensures var t' := DeactivateIndex(t, index);
            && t'.Valid()
            && (forall s: int | t'.Active(s) :: t.Active(s) && t'.slots[s] == t.slots[s] && t'.slots[s].entity.index != index)
            && (forall e <- t.byEntity | e.index != index :: e in t'.byEntity)
  {
    DeactivateValid(t, index);
  }

  lemma {:induction false} RemoveAllEffect(t: Table, removed: seq<Entity>)
    requires t.Valid()
    ensures var t' := RemoveAll(t, removed);
            && Evolved(t, t', [])
            && (forall s, e | t'.Active(s) && e in removed :: t'.slots[s].entity.index != e.index)
            && (forall e | e in t.byEntity && (forall gone <- removed :: gone.index != e.index) :: e in t'.byEntity)
  {
    if removed != [] {
      var init, last := removed[..|removed| - 1], removed[|removed| - 1];
      var u := RemoveAll(t, init);
      RemoveAllEffect(t, init);
      DeactivateEvolves(u, last.index);
      DeactivateEffect(u, last.index);
      EvolvedTrans(t, u, RemoveAll(t, removed), []);
      hide DeactivateIndex, Table.Valid, Evolved;
      forall e | e in removed ensures e in init || e == last {
      }
      assert forall e <- init :: e in removed;
    }
  }

  lemma {:induction false} UpsertAllEffect(t: Table, r: Registry, list: seq<Entity>, archetypes: nat)
    requires t.Valid()
    ensures var u := UpsertAll(t, r, list, archetypes); u.Some? ==>
              && Evolved(t, u.value, list)
              && (forall s | u.value.Active(s) ::
                    var e := u.value.slots[s].entity;
                    if e in list && ReplicatedAs(r, e).Some?
                    then ReplicatedAs(r, e) == Some(u.value.slots[s].archetype) && u.value.slots[s].archetype < archetypes
                    else t.Active(s) && t.slots[s] == u.value.slots[s])
  {
    if list != [] {
      hide Upsert, Table.Valid;
      var init, e := list[..|list| - 1], list[|list| - 1];
      UpsertAllEffect(t, r, init, archetypes);
      var u := UpsertAll(t, r, init, archetypes);
      if u.Some? {
        EvolvedWeaken(t, u.value, init, list);
        if ReplicatedAs(r, e).Some? {
          var u' := Upsert(u.value, e, true, ReplicatedAs(r, e).value, archetypes);
          UpsertValid(u.value, e, true, ReplicatedAs(r, e).value, archetypes);
          UpsertEvolves(u.value, e, true, ReplicatedAs(r, e).value, archetypes);
          if u'.Done? {
            EvolvedWeaken(u.value, u'.table, [e], list);
            EvolvedTrans(t, u.value, u'.table, list);
          }
        }
      }
    }
  }

  lemma {:induction false} UpsertAllRegisters(t: Table, r: Registry, list: seq<Entity>, archetypes: nat, e: Entity)
    requires t.Valid() && DistinctIndices(r)
    requires ReplicatedAs(r, e).Some? && ReplicatedAs(r, e).value < archetypes
    requires e in list || e in t.byEntity
    ensures var u := UpsertAll(t, r, list, archetypes); u.Some? ==> e in u.value.byEntity
  {
    if list != [] {
      var init, last := list[..|list| - 1], list[|list| - 1];
      var u := UpsertAll(t, r, init, archetypes);
      if u.Some? && e != last {
        assert e in init || e in t.byEntity;
        UpsertAllRegisters(t, r, init, archetypes, e);
        if ReplicatedAs(r, last).Some? {
          UpsertKeepsOthers(u.value, last, ReplicatedAs(r, last).value, archetypes, e);
        }
      } else if u.Some? {
        UpsertValid(u.value, last, true, ReplicatedAs(r, last).value, archetypes);
      }
    }
  }

  lemma RediscoverEvolves(t: Table, d: DirtyView, r': Registry, archetypes: nat)
    requires t.Valid()
    ensures var u := Rediscover(t, true, r', d, [], archetypes);
            u.Some? ==> Evolved(t, u.value, d.replicated.added + d.replicated.dirty)
  {
    var list := d.replicated.added + d.replicated.dirty;
    var t1 := RemoveAll(t, d.replicated.removed);
    RemoveAllEffect(t, d.replicated.removed);
    UpsertAllEffect(t1, r', list, archetypes);
    EvolvedWeaken(t, t1, [], list);
    var u := UpsertAll(t1, r', list, archetypes);
    if u.Some? {
      EvolvedTrans(t, t1, u.value, list);
    }
  }

  lemma SlotSynced(t: Table, r: Registry, d: DirtyView, r': Registry, archetypes: nat, s: int)
    requires t.Valid() && Synced(r, t, archetypes) && Faithful(r, d, r')
    ensures var u := Rediscover(t, true, r', d, [], archetypes); u.Some? && u.value.Active(s) ==>
              && u.value.slots[s].archetype < archetypes
              && ReplicatedAs(r', u.value.slots[s].entity) == Some(u.value.slots[s].archetype)
  {
    hide RemoveAll, UpsertAll, Table.Valid;
    var list := d.replicated.added + d.replicated.dirty;
    var t1 := RemoveAll(t, d.replicated.removed);
    RemoveAllEffect(t, d.replicated.removed);
    UpsertAllEffect(t1, r', list, archetypes);
    var u := UpsertAll(t1, r', list, archetypes);
    if u.Some? && u.value.Active(s) {
      var e := u.value.slots[s].entity;
      if !(e in list && ReplicatedAs(r', e).Some?) {
        assert t1.Active(s) && t.Active(s) && t.slots[s] == t1.slots[s] == u.value.slots[s];
      }
    }
  }

  lemma EntityRegistered(t: Table, r: Registry, d: DirtyView, r': Registry, archetypes: nat, e: Entity)
    requires t.Valid() && Synced(r, t, archetypes) && Faithful(r, d, r') && DistinctIndices(r')
    requires ReplicatedAs(r', e).Some? && ReplicatedAs(r', e).value < archetypes
    ensures var u := Rediscover(t, true, r', d, [], archetypes); u.Some? ==> e in u.value.byEntity
  {
    var list := d.replicated.added + d.replicated.dirty;
    var t1 := RemoveAll(t, d.replicated.removed);
    RemoveAllEffect(t, d.replicated.removed);
    if e !in list {
      assert ReplicatedAs(r, e) == ReplicatedAs(r', e);
      assert e in t.byEntity;
    }
    UpsertAllRegisters(t1, r', list, archetypes, e);
  }

  /** After a pass over a faithful dirty view, the active slots are again exactly the replicated entities. */
  lemma RediscoverSyncs(t: Table, r: Registry, d: DirtyView, r': Registry, archetypes: nat)
    requires t.Valid() && Synced(r, t, archetypes)
    requires Faithful(r, d, r') && DistinctIndices(r')
    ensures var u := Rediscover(t, true, r', d, [], archetypes); u.Some? ==> Synced(r', u.value, archetypes)
  {
    var u := Rediscover(t, true, r', d, [], archetypes);
    if u.Some? {
      forall s | u.value.Active(s)
        ensures u.value.slots[s].archetype < archetypes
        ensures ReplicatedAs(r', u.value.slots[s].entity) == Some(u.value.slots[s].archetype)
      {
        SlotSynced(t, r, d, r', archetypes, s);
      }
      forall e | ReplicatedAs(r', e).Some? && ReplicatedAs(r', e).value < archetypes
        ensures e in u.value.byEntity
      {
        EntityRegistered(t, r, d, r', archetypes, e);
      }
    }
  }

  /** The first pass registers every replicated entity. */
  lemma FirstDiscoverySyncs(r: Registry, d: DirtyView, everyone: seq<Entity>, archetypes: nat)
    requires DistinctIndices(r) && forall e :: e in everyone <==> ReplicatedAs(r, e).Some?
    ensures var u := Rediscover(Empty, false, r, d, everyone, archetypes); u.Some? ==> Synced(r, u.value, archetypes)
  {
    UpsertAllEffect(Empty, r, everyone, archetypes);
    forall e | ReplicatedAs(r, e).Some? && ReplicatedAs(r, e).value < archetypes
      ensures var u := Rediscover(Empty, false, r, d, everyone, archetypes); u.Some? ==> e in u.value.byEntity
    {
      UpsertAllRegisters(Empty, r, everyone, archetypes, e);
    }
  }

  // ------------------------------------------------ slots freed between passes

  /** The registry as far as the next dirty view is concerned, once the slot of `e` is freed: a marker still there will be reported anew. */
  function Unmarked(r: Registry, e: Entity): Registry {
    if e in r then r[e := r[e].(replicated := None)] else r
  }

  lemma FreeValid(t: Table, s: nat)
    requires t.Valid() && t.Active(s)
    ensures Deactivate(t, s) == DeactivateIndex(t, t.slots[s].entity.index) && Deactivate(t, s).Valid()
  {
    DeactivateValid(t, t.slots[s].entity.index);
  }

  /** Freeing a slot between passes keeps the table in step with what the next view starts from. */
  lemma FreeSyncs(r: Registry, t: Table, archetypes: nat, s: nat)
    requires t.Valid() && Synced(r, t, archetypes) && t.Active(s)
    ensures Synced(Unmarked(r, t.slots[s].entity), Deactivate(t, s), archetypes)
  {
    var e := t.slots[s].entity;
    var r', t' := Unmarked(r, e), Deactivate(t, s);
    assert t.byEntity[e] == s;
    forall x: int | t'.Active(x)
      ensures t'.slots[x].archetype < archetypes && ReplicatedAs(r', t'.slots[x].entity) == Some(t'.slots[x].archetype)
    {
      assert t.Active(x) && t'.slots[x] == t.slots[x] && x != s;
      assert t.byEntity[t.slots[x].entity] == x;
    }
    forall f | ReplicatedAs(r', f).Some? && ReplicatedAs(r', f).value < archetypes ensures f in t'.byEntity {
      assert f != e && ReplicatedAs(r', f) == ReplicatedAs(r, f);
    }
  }

  /** What was reported destroyed is no part of what a pass starts from. */
  lemma SyncedAnyway(r: Registry, t: Table, archetypes: nat)
    requires t.Valid() && Synced(r, t, archetypes)
    ensures t.(destroyed := []).Valid() && Synced(r, t.(destroyed := []), archetypes)
  {
  }
}
