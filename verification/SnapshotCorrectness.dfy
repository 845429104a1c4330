/**
 The pooled snapshot handed to a client equals quantising everything the
 client may see afresh, in every run of dirty passes, sends, acknowledgements,
 invalidations and client changes.
 */
module SnapshotCorrectness {
  import opened SlotTable
  import opened World
  import opened ReplayWriting
  import opened Snapshots
  import opened SnapshotPool

  /** Where a stored generation is still current, the stored component is what quantising now would give. */
  ghost predicate Matches(a: Archetype, r: Registry, e: Entity, f: QuantizedFrame, generations: seq<nat>)
    requires |a.components| == |a.ops|
  {
    && |f.generations| == |generations| == |a.components| + 1
    && |f.data.components| == |a.components|
    && (forall g | 1 <= g <= |a.components| :: f.generations[g] <= generations[g])
    && (forall i | 0 <= i < |a.components| && f.data.components[i].Some? && f.generations[i + 1] == generations[i + 1] ::
          f.data.components[i] == QuantizedComponent(a, r, e, i))
  }

  ghost predicate SlotSound(settings: Settings, c: Cache, s: int)
    requires settings.WellFormed() && |c.slots| == |c.table.slots|
  {
    c.table.Active(s) ==>
      && c.table.slots[s].archetype < |settings.archetypes|
      && (var a := settings.archetypes[c.table.slots[s].archetype];
          |c.slots[s].generations| == |a.components| + 1 && (c.slots[s].cacheable ==> SameFrameCacheable(a)))
  }

  /** A frame of slot `s` that may be a baseline: it belongs to the slot's present occupant and matches it. */
  ghost predicate Good(settings: Settings, c: Cache, s: int, q: int)
    requires settings.WellFormed() && |c.slots| == |c.table.slots|
  {
    && 0 <= q && ActiveFrame(c, q) && c.table.Active(s)
    && c.frames[q].slot == s && c.frames[q].archetype == c.table.slots[s].archetype < |settings.archetypes|
    && Matches(settings.archetypes[c.frames[q].archetype], c.registry, c.table.slots[s].entity, c.frames[q], c.slots[s].generations)
  }

  ghost predicate StateGood(settings: Settings, c: Cache, s: int, st: EntityState)
    requires settings.WellFormed() && |c.slots| == |c.table.slots|
  {
    forall q :: q in Own(st) ==> Good(settings, c, s, q)
  }

  /** Every state is good, except those for slot `but`, which is changing hands (-1 for none). */
  ghost predicate StatesGood(settings: Settings, c: Cache, but: int)
    requires settings.WellFormed() && |c.slots| == |c.table.slots|
  {
    forall k, s | 0 <= k < |c.clients| && 0 <= s < |c.clients[k].states| && s != but :: StateGood(settings, c, s, c.clients[k].states[s])
  }

  /** What every operation keeps, and what holds while slot `but` changes hands. */
  ghost predicate SoundBut(settings: Settings, c: Cache, but: int)
    requires settings.WellFormed()
  {
    && Shaped(c) && Pool(c, AllRefs(c.clients)) && StatesGood(settings, c, but)
    && (forall s :: SlotSound(settings, c, s))
    && (forall q | 0 <= q < |c.frames| && c.frames[q].active :: c.frames[q].frame <= c.frame)
  }

  ghost predicate Sound(settings: Settings, c: Cache)
    requires settings.WellFormed()
  {
    SoundBut(settings, c, -1)
  }

  /** A frame of the current server frame holds exactly what some client may see now. */
  ghost predicate CurrentFrame(settings: Settings, c: Cache, q: int)
    requires settings.WellFormed() && |c.slots| == |c.table.slots| && 0 <= q < |c.frames|
  {
    var s := c.frames[q].slot;
    && Good(settings, c, s, q)
    && (var a := settings.archetypes[c.frames[q].archetype];
        && !NothingVisible(a, c.frames[q].data)
        && exists client :: c.frames[q].data == FreshData(a, c.registry, c.table.slots[s].entity, client))
  }

  /** Once its slot is freed nothing leads to a frame any more. */
  ghost predicate CurrentSound(settings: Settings, c: Cache)
    requires settings.WellFormed() && |c.slots| == |c.table.slots|
  {
    forall q | 0 <= q < |c.frames| && c.frames[q].active && c.frames[q].frame == c.frame && c.table.Active(c.frames[q].slot) ::
      CurrentFrame(settings, c, q)
  }

  /** Moving references around inside the pool keeps everything sound. */
  ghost predicate Settled(c: Cache, c': Cache) {
    && |c'.slots| == |c.slots| == |c.table.slots| && |c'.frames| == |c.frames|
    && c' == c.(frames := c'.frames, free := c'.free, slots := c'.slots, clients := c'.clients)
    && (forall s | 0 <= s < |c.slots| :: c'.slots[s] == c.slots[s].(list := c'.slots[s].list))
    && (forall q | 0 <= q < |c.frames| && c'.frames[q].active :: c.frames[q].active && SameContent(c.frames[q], c'.frames[q]))
  }

  lemma SettledGood(settings: Settings, c: Cache, c': Cache, s: int, q: int)
    requires settings.WellFormed() && Settled(c, c')
    requires Good(settings, c, s, q) && ActiveFrame(c', q)
    ensures Good(settings, c', s, q)
  {
  }

  lemma SettledCurrent(settings: Settings, c: Cache, c': Cache)
    requires settings.WellFormed() && Settled(c, c') && CurrentSound(settings, c)
    ensures CurrentSound(settings, c')
  {
    forall q | 0 <= q < |c'.frames| && c'.frames[q].active && c'.frames[q].frame == c'.frame && c'.table.Active(c'.frames[q].slot)
      ensures CurrentFrame(settings, c', q)
    {
      assert CurrentFrame(settings, c, q);
      SettledGood(settings, c, c', c.frames[q].slot, q);
    }
  }

  /** Replacing one client's state for one slot, with the counts already adjusted, keeps everything sound. */
  lemma StateReplaced(settings: Settings, c: Cache, mid: Cache, k: nat, s: nat, st: EntityState, but: int)
    requires settings.WellFormed() && SoundBut(settings, c, but) && HasState(c, k, s)
    requires Settled(c, mid) && mid.clients == c.clients
    requires StateGood(settings, c, s, st)
    requires Pool(mid, AllRefs(PutState(c, k, s, st).clients))
    ensures SoundBut(settings, PutState(mid, k, s, st), but) && Settled(c, PutState(mid, k, s, st))
    ensures CurrentSound(settings, c) ==> CurrentSound(settings, PutState(mid, k, s, st))
  {
    hide Own, AllRefs, Good, Pool, CurrentFrame, StatesGood, Settings.WellFormed, Table.Valid;
    var c' := PutState(mid, k, s, st);
    assert c'.clients == PutState(c, k, s, st).clients;
    PoolAnyway(mid, c', AllRefs(c'.clients));
    StatesReplaced(settings, c, mid, k, s, st, but);
    forall s' ensures SlotSound(settings, c', s') {
      assert SlotSound(settings, c, s');
    }
    if CurrentSound(settings, c) {
      SettledCurrent(settings, c, c');
    }
  }

  lemma PoolAnyway(c: Cache, c': Cache, refs: multiset<nat>)
    requires Pool(c, refs) && c'.frames == c.frames && c'.free == c.free
    ensures Pool(c', refs)
  {
  }

  lemma StatesReplaced(settings: Settings, c: Cache, mid: Cache, k: nat, s: nat, st: EntityState, but: int)
    requires settings.WellFormed() && |c.slots| == |c.table.slots| && StatesGood(settings, c, but) && HasState(c, k, s)
    requires Settled(c, mid) && mid.clients == c.clients && StateGood(settings, c, s, st)
    requires Pool(mid, AllRefs(PutState(c, k, s, st).clients))
    ensures StatesGood(settings, PutState(mid, k, s, st), but)
  {
    hide Own, AllRefs, Good, Settings.WellFormed;
    var c' := PutState(mid, k, s, st);
    assert c'.clients == PutState(c, k, s, st).clients;
    forall k', s' | 0 <= k' < |c'.clients| && 0 <= s' < |c'.clients[k'].states| && s' != but
      ensures StateGood(settings, c', s', c'.clients[k'].states[s'])
    {
      var mine := c'.clients[k'].states[s'];
      OwnInAll(c', k', s');
      assert (k' == k && s' == s) || StateGood(settings, c, s', c.clients[k'].states[s']);
      forall q | q in Own(mine) ensures Good(settings, c', s', q) {
        assert ActiveFrame(mid, q);
        SettledGood(settings, c, c', s', q);
      }
    }
  }

  lemma ShrinksSettles(c: Cache, c': Cache, refs: multiset<nat>)
    requires Shrinks(c, c', refs) && |c.slots| == |c.table.slots|
    ensures Settled(c, c') && c'.clients == c.clients
  {
  }

  lemma Minus(all: multiset<nat>, rest: multiset<nat>, a: multiset<nat>, b: multiset<nat>)
    requires rest + (a + b) == all
    ensures a <= all && b <= all - a && all - a - b == rest
  {
    forall q ensures (all - a - b)[q] == rest[q] && a[q] <= all[q] && b[q] <= (all - a)[q] {
      assert all[q] == (rest + (a + b))[q];
    }
  }

  /** Clearing one client's state for a slot. */
  lemma ClearStateSound(settings: Settings, c: Cache, k: nat, s: nat, but: int)
    requires settings.WellFormed() && SoundBut(settings, c, but)
    ensures SoundBut(settings, ClearState(c, k, s), but) && Settled(c, ClearState(c, k, s))
    ensures CurrentSound(settings, c) ==> CurrentSound(settings, ClearState(c, k, s))
  {
    if HasState(c, k, s) {
      hide AllRefs, ReleaseAll, ReleaseBaseline, Own, OfBaseline, Ids, Shrinks, Pool, StatesGood, SlotSound, CurrentSound, Settled;
      var st, all, rest := c.clients[k].states[s], AllRefs(c.clients), AllRefs(PutState(c, k, s, NoState).clients);
      ClearedRefs(c, k, s);
      ReleaseBaselineShrinks(c, st, all);
      var c1 := ReleaseBaseline(c, st);
      ReleaseAllShrinks(c1, st.pending, all - OfBaseline(st));
      var mid := ReleaseAll(c1, st.pending);
      ShrinksTrans(c, c1, mid, all - OfBaseline(st), rest);
      ShrinksSettles(c, mid, rest);
      NothingGood(settings, c, s);
      StateReplaced(settings, c, mid, k, s, NoState, but);
    } else {
      assert Settled(c, c);
    }
  }

  /** Giving back everything a state holds leaves what the others hold. */
  lemma ClearedRefs(c: Cache, k: nat, s: nat)
    requires HasState(c, k, s)
    ensures var st, all := c.clients[k].states[s], AllRefs(c.clients);
            && OfBaseline(st) <= all && Ids(st.pending) <= all - OfBaseline(st)
            && all - OfBaseline(st) - Ids(st.pending) == AllRefs(PutState(c, k, s, NoState).clients)
  {
    hide AllRefs, OfBaseline, Ids;
    PutStateRefs(c, k, s, NoState);
    NothingOwned();
    var st := c.clients[k].states[s];
    Minus(AllRefs(c.clients), AllRefs(PutState(c, k, s, NoState).clients), OfBaseline(st), Ids(st.pending));
  }

  lemma NothingGood(settings: Settings, c: Cache, s: nat)
    requires settings.WellFormed() && |c.slots| == |c.table.slots|
    ensures StateGood(settings, c, s, NoState)
  {
    NothingOwned();
  }

  lemma NothingOwned()
    ensures Own(NoState) == multiset{}
  {
  }

  lemma {:induction false} ClearSlotSound(settings: Settings, c: Cache, s: nat, count: nat, but: int)
    requires settings.WellFormed() && SoundBut(settings, c, but) && count <= |c.clients|
    ensures SoundBut(settings, ClearSlot(c, s, count), but)
  {
    hide SoundBut, ClearState, CurrentSound, Settled, Settings.WellFormed;
    if count > 0 {
      ClearSlotSound(settings, c, s, count - 1, but);
      ClearStateSound(settings, ClearSlot(c, s, count - 1), count - 1, s, but);
    }
  }

  /** Once every client's state for the changing slot is cleared, everything is sound again. */
  lemma SlotHandedOver(settings: Settings, c: Cache, s: nat)
    requires settings.WellFormed() && SoundBut(settings, c, s)
    ensures Sound(settings, ClearSlot(c, s, |c.clients|))
  {
    hide Good, Pool, AllRefs, ClearSlot;
    var c' := ClearSlot(c, s, |c.clients|);
    ClearSlotSound(settings, c, s, |c.clients|, s);
    ClearSlotShape(c, s, |c.clients|);
    NothingOwned();
    forall k', s' | 0 <= k' < |c'.clients| && 0 <= s' < |c'.clients[k'].states|
      ensures StateGood(settings, c', s', c'.clients[k'].states[s'])
    {
      if s' == s {
        assert c'.clients[k'].states[s'] == NoState;
      }
    }
  }

  lemma QuietedShape(c: Cache, index: nat)
    requires Shaped(c) && index in c.table.byIndex
    ensures var c1, s := Quieted(c, index), c.table.byIndex[index];
            && Shaped(c1) && |c1.slots| == |c.slots| == |c.table.slots| && !c1.table.Active(s) && s < |c.slots|
            && DeactivatedIndex(c, index) == ClearSlot(c1, s, |c1.clients|)
            && forall x | 0 <= x < |c.slots| && x != s :: c1.table.slots[x] == c.table.slots[x] && c1.slots[x] == c.slots[x]
  {
    hide ClearSlot;
    DeactivateValid(c.table, index);
    OnlySlotChanges(c.table, index);
  }

  lemma QuietedSound(settings: Settings, c: Cache, index: nat)
    requires settings.WellFormed() && Sound(settings, c) && index in c.table.byIndex
    ensures SoundBut(settings, Quieted(c, index), c.table.byIndex[index])
  {
    hide Pool, AllRefs, Matches, StatesGood, DeactivateIndex, Settings.WellFormed, Table.Valid, Table.MapsValid;
    var c1, s := Quieted(c, index), c.table.byIndex[index];
    QuietedShape(c, index);
    SamePool(c, c1);
    OthersUntouched(settings, c, c1, s);
    forall x ensures SlotSound(settings, c1, x) {
      assert SlotSound(settings, c, x);
    }
  }

  lemma DeactivatedSound(settings: Settings, c: Cache, index: nat)
    requires settings.WellFormed() && Sound(settings, c)
    ensures Sound(settings, DeactivatedIndex(c, index))
  {
    if index in c.table.byIndex {
      QuietedShape(c, index);
      QuietedSound(settings, c, index);
      SlotHandedOver(settings, Quieted(c, index), c.table.byIndex[index]);
    }
  }

  /** The other slots' current frames stay current. */
  lemma QuietedCurrent(settings: Settings, c: Cache, index: nat)
    requires settings.WellFormed() && Sound(settings, c) && CurrentSound(settings, c) && index in c.table.byIndex
    ensures CurrentSound(settings, Quieted(c, index))
  {
    hide Pool, AllRefs, Matches, StatesGood, DeactivateIndex, Settings.WellFormed, Table.Valid, Table.MapsValid, FreshData, NothingVisible;
    var c1 := Quieted(c, index);
    QuietedShape(c, index);
    forall q | 0 <= q < |c1.frames| && c1.frames[q].active && c1.frames[q].frame == c1.frame && c1.table.Active(c1.frames[q].slot)
      ensures CurrentFrame(settings, c1, q)
    {
      assert CurrentFrame(settings, c, q);
    }
  }

  lemma {:induction false} ClearSlotCurrent(settings: Settings, c: Cache, s: nat, count: nat, but: int)
    requires settings.WellFormed() && SoundBut(settings, c, but) && CurrentSound(settings, c) && count <= |c.clients|
    ensures SoundBut(settings, ClearSlot(c, s, count), but) && CurrentSound(settings, ClearSlot(c, s, count))
  {
    hide SoundBut, ClearState, CurrentSound, Settled, Settings.WellFormed;
    if count > 0 {
      ClearSlotCurrent(settings, c, s, count - 1, but);
      ClearStateSound(settings, ClearSlot(c, s, count - 1), count - 1, s, but);
    }
  }

  lemma DeactivatedCurrent(settings: Settings, c: Cache, index: nat)
    requires settings.WellFormed() && Sound(settings, c) && CurrentSound(settings, c)
    ensures CurrentSound(settings, DeactivatedIndex(c, index))
  {
    if index in c.table.byIndex {
      hide ClearSlot, CurrentSound, DeactivatedIndex, Quieted, Settings.WellFormed;
      QuietedShape(c, index);
      QuietedSound(settings, c, index);
      QuietedCurrent(settings, c, index);
      var c1, s := Quieted(c, index), c.table.byIndex[index];
      ClearSlotCurrent(settings, c1, s, |c1.clients|, s);
    }
  }

  lemma OnlySlotChanges(t: Table, index: nat)
    requires index in t.byIndex && t.Active(t.byIndex[index])
    ensures var t', s := DeactivateIndex(t, index), t.byIndex[index];
            && |t'.slots| == |t.slots| && !t'.Active(s)
            && forall x | 0 <= x < |t.slots| && x != s :: t'.slots[x] == t.slots[x]
  {
  }

  lemma SamePool(c: Cache, c': Cache)
    requires Pool(c, AllRefs(c.clients)) && c'.frames == c.frames && c'.free == c.free && AllRefs(c'.clients) == AllRefs(c.clients)
    ensures Pool(c', AllRefs(c'.clients))
  {
  }

  /** A change confined to slot `s` leaves the states of the other slots good. */
  lemma OthersUntouched(settings: Settings, c: Cache, c': Cache, s: nat)
    requires settings.WellFormed() && |c.slots| == |c.table.slots| <= |c'.slots| == |c'.table.slots|
    requires StatesGood(settings, c, -1)
    requires c'.frames == c.frames && c'.registry == c.registry && |c'.clients| == |c.clients|
    requires forall x | 0 <= x < |c.slots| && x != s :: c'.table.slots[x] == c.table.slots[x] && c'.slots[x] == c.slots[x]
    requires forall k, x | 0 <= k < |c.clients| && 0 <= x < |c'.clients[k].states| && x != s ::
               c'.clients[k].states[x] == NoState || (x < |c.clients[k].states| && c'.clients[k].states[x] == c.clients[k].states[x])
    ensures StatesGood(settings, c', s)
  {
    hide Own, Matches, Settings.WellFormed;
    NothingOwned();
    forall k, x | 0 <= k < |c'.clients| && 0 <= x < |c'.clients[k].states| && x != s
      ensures StateGood(settings, c', x, c'.clients[k].states[x])
    {
      var st := c'.clients[k].states[x];
      if st != NoState {
        assert StateGood(settings, c, x, st);
        forall q | q in Own(st) ensures Good(settings, c', x, q) {
          assert Good(settings, c, x, q);
        }
      }
    }
  }

  lemma {:induction false} EmptyRow(n: nat)
    ensures RowRefs(seq(n, _ => NoState)) == multiset{}
  {
    if n > 0 {
      EmptyRow(n - 1);
      NothingOwned();
      assert seq(n, _ => NoState)[..n - 1] == seq(n - 1, _ => NoState);
    }
  }

  lemma {:induction false} RowConcat(left: seq<EntityState>, right: seq<EntityState>)
    ensures RowRefs(left + right) == RowRefs(left) + RowRefs(right)
  {
    hide Own;
    if right == [] {
      assert left + right == left;
    } else {
      var init := right[..|right| - 1];
      assert (left + right)[..|left + right| - 1] == left + init;
      RowConcat(left, init);
      Associate(RowRefs(left), RowRefs(init), Own(right[|right| - 1]));
    }
  }

  lemma GrownClientRefs(client: Client, count: nat)
    ensures RowRefs(GrownClient(client, count).states) == RowRefs(client.states)
  {
    hide RowRefs;
    if |client.states| < count {
      EmptyRow(count - |client.states|);
      RowConcat(client.states, seq(count - |client.states|, _ => NoState));
    }
  }

  lemma {:induction false} GrownRefs(clients: seq<Client>, count: nat)
    ensures AllRefs(Grown(clients, count)) == AllRefs(clients)
  {
    if clients != [] {
      hide RowRefs, GrownClient;
      var init := clients[..|clients| - 1];
      GrownRefs(init, count);
      GrownClientRefs(clients[|clients| - 1], count);
      assert Grown(clients, count)[..|clients| - 1] == Grown(init, count);
    }
  }

  lemma HousedShape(settings: Settings, c: Cache, e: Entity, archetype: nat)
    requires Shaped(c) && e.index !in c.table.byIndex && archetype < |settings.archetypes|
    ensures var a := settings.archetypes[archetype];
            var c1, s := Housed(c, a, e, archetype), Housed(c, a, e, archetype).table.byEntity[e];
            && |c.slots| == |c.table.slots| <= |c1.slots| == |c1.table.slots|
            && s < |c1.slots| && c1.slots[s] == EmptyCacheSlot(a) && c1.table.slots[s] == Slot(e, archetype, true)
            && (forall x | 0 <= x < |c1.slots| && x != s :: x < |c.slots| && c1.table.slots[x] == c.table.slots[x] && c1.slots[x] == c.slots[x])
            && AllRefs(c1.clients) == AllRefs(c.clients) && c1.clients == Grown(c.clients, |c1.table.slots|)
  {
    hide Allocate, Grown, AllRefs, Table.MapsValid;
    OnlySlotAllocated(c.table, e, archetype);
    GrownRefs(c.clients, |Allocate(c.table, e, archetype).slots|);
  }

  lemma HousedSound(settings: Settings, c: Cache, e: Entity, archetype: nat)
    requires settings.WellFormed() && Sound(settings, c) && e.index !in c.table.byIndex && archetype < |settings.archetypes|
    ensures var c1 := Housed(c, settings.archetypes[archetype], e, archetype); SoundBut(settings, c1, c1.table.byEntity[e])
  {
    hide Pool, AllRefs, Matches, StatesGood, Allocate, Grown, SameFrameCacheable, Settings.WellFormed, Table.Valid;
    HousedShape(settings, c, e, archetype);
    var c1 := Housed(c, settings.archetypes[archetype], e, archetype);
    SamePool(c, c1);
    GrownStates(c, |c1.table.slots|);
    OthersUntouched(settings, c, c1, c1.table.byEntity[e]);
    forall x ensures SlotSound(settings, c1, x) {
      assert SlotSound(settings, c, x);
    }
  }

  lemma GrownStates(c: Cache, count: nat)
    requires Shaped(c)
    ensures var g := Grown(c.clients, count);
            |g| == |c.clients| && forall k, x | 0 <= k < |g| && 0 <= x < |g[k].states| ::
              g[k].states[x] == NoState || (x < |c.clients[k].states| && g[k].states[x] == c.clients[k].states[x])
  {
  }

  lemma SoundShaped(settings: Settings, c: Cache)
    requires settings.WellFormed() && Sound(settings, c)
    ensures Shaped(c) && c.table.Valid()
  {
  }

  lemma RegisteredSound(settings: Settings, c: Cache, e: Entity, archetype: nat)
    requires settings.WellFormed() && Sound(settings, c) && e.index !in c.table.byIndex && archetype < |settings.archetypes|
    ensures Sound(settings, Registered(c, settings.archetypes[archetype], e, archetype))
  {
    SoundShaped(settings, c);
    hide SoundBut, Housed, ClearSlot, Settings.WellFormed;
    var c1 := Housed(c, settings.archetypes[archetype], e, archetype);
    HousedSound(settings, c, e, archetype);
    SlotHandedOver(settings, c1, c1.table.byEntity[e]);
  }

  lemma UpsertedSound(settings: Settings, c: Cache, e: Entity, archetype: nat)
    requires settings.WellFormed() && Sound(settings, c)
    ensures var u := Upserted(settings, c, e, archetype); u.Some? ==> Sound(settings, u.value)
  {
    hide Pool, StatesGood, SlotSound, Registered;
    DeactivateValid(c.table, e.index);
    DeactivatedSound(settings, c, e.index);
    if archetype < |settings.archetypes| && e !in c.table.byEntity {
      RegisteredSound(settings, DeactivatedIndex(c, e.index), e, archetype);
    }
  }

  lemma {:induction false} RemovedAllSound(settings: Settings, c: Cache, removed: seq<Entity>)
    requires settings.WellFormed() && Sound(settings, c)
    ensures Sound(settings, RemovedAll(c, removed))
  {
    if removed != [] {
      RemovedAllSound(settings, c, removed[..|removed| - 1]);
      DeactivatedSound(settings, RemovedAll(c, removed[..|removed| - 1]), removed[|removed| - 1].index);
    }
  }

  lemma {:induction false} UpsertedAllSound(settings: Settings, c: Cache, r: Registry, list: seq<Entity>)
    requires settings.WellFormed() && Sound(settings, c)
    ensures var u := UpsertedAll(settings, c, r, list); u.Some? ==> Sound(settings, u.value)
  {
    if list != [] {
      var init, e := list[..|list| - 1], list[|list| - 1];
      UpsertedAllSound(settings, c, r, init);
      var u := UpsertedAll(settings, c, r, init);
      if u.Some? && ReplicatedAs(r, e).Some? {
        UpsertedSound(settings, u.value, e, ReplicatedAs(r, e).value);
      }
    }
  }
}
