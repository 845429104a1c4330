/** The snapshot half of the server object, updated in place; every method computes the function that specifies it. */
module SnapshotServers {
  import opened Wrappers
  import opened SlotTable
  import opened World
  import opened ReplayWriting
  import opened Snapshots
  import opened SnapshotRuns
  import opened SnapshotService

  lemma WithoutStep(list: seq<nat>, q: nat, i: nat)
    requires i < |list|
    ensures Without(list[..i + 1], q) == Without(list[..i], q) + (if list[i] == q then [] else [list[i]])
  {
    assert list[..i + 1][..i] == list[..i];
  }

  lemma ReleaseStep(c: Cache, pending: seq<PendingFrame>, i: nat)
    requires i < |pending|
    ensures ReleaseAll(c, pending[..i + 1]) == Release(ReleaseAll(c, pending[..i]), pending[i].id)
  {
    assert pending[..i + 1][..i] == pending[..i];
  }

  lemma AckStep(pending: seq<PendingFrame>, i: nat, frame: nat)
    requires i < |pending|
    ensures Acked(pending[..i + 1], frame) == Acked(pending[..i], frame) + (if pending[i].frame <= frame then [pending[i]] else [])
    ensures Unacked(pending[..i + 1], frame) == Unacked(pending[..i], frame) + (if pending[i].frame <= frame then [] else [pending[i]])
  {
    assert pending[..i + 1][..i] == pending[..i];
  }

  lemma ReleaseOneMore(c: Cache, gone: seq<PendingFrame>, p: PendingFrame)
    ensures ReleaseAll(c, gone + [p]) == Release(ReleaseAll(c, gone), p.id)
  {
    assert (gone + [p])[..|gone|] == gone;
  }

  lemma {:induction false} PendingFrom(pending: seq<PendingFrame>, i: nat, frame: nat)
    requires i <= |pending| && forall j | 0 <= j < i :: pending[j].frame != frame
    ensures FindPending(pending, frame) == i + FindPending(pending[i..], frame)
  {
    if i == 0 {
      assert pending[0..] == pending;
    } else {
      PendingFrom(pending[1..], i - 1, frame);
      assert pending[1..][i - 1..] == pending[i..];
    }
  }

  /** The state after the erasing loop has looked at the first `n` pending sends. */
  ghost function Erased(c: Cache, k: nat, s: nat, all: seq<PendingFrame>, n: nat, acked: nat): Cache
    requires HasState(c, k, s) && n <= |all|
  {
    PutState(ReleaseAll(c, Acked(all[..n], acked)), k, s, c.clients[k].states[s].(pending := Unacked(all[..n], acked) + all[n..]))
  }

  lemma ErasedStart(c: Cache, k: nat, s: nat, acked: nat)
    requires HasState(c, k, s)
    ensures Erased(c, k, s, c.clients[k].states[s].pending, 0, acked) == c
    ensures Unacked(c.clients[k].states[s].pending[..0], acked) == []
  {
    var all := c.clients[k].states[s].pending;
    assert all[..0] == [] && Unacked(all[..0], acked) + all[0..] == all;
    PutSame(c, k, s);
  }

  lemma ErasedStep(c: Cache, k: nat, s: nat, all: seq<PendingFrame>, n: nat, acked: nat)
    requires HasState(c, k, s) && n < |all|
    ensures var e, e', p := Erased(c, k, s, all, n, acked), Erased(c, k, s, all, n + 1, acked), all[n];
            var at := |Unacked(all[..n], acked)|;
            && HasState(e, k, s) && HasState(e', k, s) && HasState(Release(e, p.id), k, s)
            && (var pending := e.clients[k].states[s].pending;
                && at < |pending| && pending == Unacked(all[..n], acked) + all[n..] && pending[at] == p
                && e'.clients[k].states[s].pending == Unacked(all[..n + 1], acked) + all[n + 1..]
                && (if p.frame <= acked
                    then && |Unacked(all[..n + 1], acked)| == at
                         && e' == PutState(Release(e, p.id), k, s,
                                           Release(e, p.id).clients[k].states[s].(pending := pending[..at] + pending[at + 1..]))
                    else e' == e && |Unacked(all[..n + 1], acked)| == at + 1))
  {
    AckStep(all, n, acked);
    var gone, kept, p := Acked(all[..n], acked), Unacked(all[..n], acked), all[n];
    var st := c.clients[k].states[s];
    var c1 := ReleaseAll(c, gone);
    ReleaseAllFrame(c, gone);
    ReleaseAllFrame(c, Acked(all[..n + 1], acked));
    var here, next := st.(pending := kept + all[n..]), st.(pending := kept + all[n + 1..]);
    hide ReleaseAll, Acked, Unacked;
    if p.frame <= acked {
      ReleaseOneMore(c, gone, p);
      assert Acked(all[..n + 1], acked) == gone + [p] && Unacked(all[..n + 1], acked) == kept;
      assert Release(c1, p.id) == ReleaseAll(c, gone + [p]);
      ReleaseCommutes(c1, k, s, here, p.id);
      PutAgain(Release(c1, p.id), k, s, here, next);
      var pending := kept + all[n..];
      assert pending[..|kept|] + pending[|kept| + 1..] == kept + all[n + 1..];
      assert Release(PutState(c1, k, s, here), p.id).clients[k].states[s] == here;
    } else {
      assert Acked(all[..n + 1], acked) == gone;
      assert Unacked(all[..n + 1], acked) == kept + [p];
      assert kept + [p] + all[n + 1..] == kept + all[n..];
    }
  }

  lemma {:induction false} FirstIndex(components: seq<nat>, c: nat, i: nat)
    requires i <= |components| && c !in components[..i] && (i < |components| ==> components[i] == c)
    ensures ComponentIndex(components, c) == if i < |components| then Some(i) else None
  {
    if i == |components| {
      assert components[..i] == components;
      NoIndex(components, c);
    } else if i < |components| - 1 {
      assert components[..|components| - 1][..i] == components[..i];
      FirstIndex(components[..|components| - 1], c, i);
    } else {
      NoIndex(components[..i], c);
    }
  }

  lemma ErasedEnd(c: Cache, k: nat, s: nat, acked: nat)
    requires HasState(c, k, s)
    ensures var st := c.clients[k].states[s];
            Erased(c, k, s, st.pending, |st.pending|, acked)
            == PutState(ReleaseAll(c, Acked(st.pending, acked)), k, s, st.(pending := Unacked(st.pending, acked)))
  {
    var all := c.clients[k].states[s].pending;
    assert all[..|all|] == all && Unacked(all, acked) + all[|all|..] == Unacked(all, acked);
  }

  /** The state after the oldest `n` of the pending sends `all` were released and erased. */
  ghost function Trimmed(c: Cache, k: nat, s: nat, all: seq<PendingFrame>, n: nat): Cache
    requires HasState(c, k, s) && n <= |all|
  {
    PutState(ReleaseAll(c, all[..n]), k, s, c.clients[k].states[s].(pending := all[n..]))
  }

  function Excess(n: nat): nat {
    if n > MAX_PENDING then n - MAX_PENDING else 0
  }

  lemma TrimmedNone(c: Cache, k: nat, s: nat)
    requires HasState(c, k, s)
    ensures var all := c.clients[k].states[s].pending; Trimmed(c, k, s, all, 0) == c && all[0..] == all
  {
    PutSame(c, k, s);
  }

  /** Queueing a send first and trimming afterwards is what `RecordSend` does at once. */
  lemma QueuedTrims(c: Cache, k: nat, s: nat, p: PendingFrame)
    requires HasState(c, k, s)
    ensures var st := c.clients[k].states[s];
            var all := st.pending + [p];
            var queued := PutState(c, k, s, st.(pending := all));
            && HasState(queued, k, s) && queued.clients[k].states[s].pending == all
            && Trimmed(queued, k, s, all, Excess(|all|))
               == PutState(ReleaseAll(c, all[..Excess(|all|)]), k, s, st.(pending := all[Excess(|all|)..]))
  {
    hide ReleaseAll;
    var st := c.clients[k].states[s];
    var all := st.pending + [p];
    var drop := Excess(|all|);
    ReleaseAllCommutes(c, k, s, st.(pending := all), all[..drop]);
    ReleaseAllFrame(c, all[..drop]);
    PutAgain(ReleaseAll(c, all[..drop]), k, s, st.(pending := all), st.(pending := all[drop..]));
  }

  lemma TrimmedStep(c: Cache, k: nat, s: nat, all: seq<PendingFrame>, n: nat)
    requires HasState(c, k, s) && n < |all|
    ensures var e, e', q := Trimmed(c, k, s, all, n), Trimmed(c, k, s, all, n + 1), all[n].id;
            && HasState(e, k, s) && HasState(e', k, s) && HasState(Release(e, q), k, s)
            && e.clients[k].states[s].pending == all[n..] && e'.clients[k].states[s].pending == all[n + 1..] == all[n..][1..]
            && e' == PutState(Release(e, q), k, s, Release(e, q).clients[k].states[s].(pending := all[n + 1..]))
  {
    var st := c.clients[k].states[s];
    var c1 := ReleaseAll(c, all[..n]);
    ReleaseAllFrame(c, all[..n]);
    ReleaseAllFrame(c, all[..n + 1]);
    ReleaseStep(c, all, n);
    hide ReleaseAll;
    var here, next := st.(pending := all[n..]), st.(pending := all[n + 1..]);
    ReleaseCommutes(c1, k, s, here, all[n].id);
    PutAgain(Release(c1, all[n].id), k, s, here, next);
    assert Release(PutState(c1, k, s, here), all[n].id).clients[k].states[s] == here;
  }

  lemma {:induction false} DuplicateFrom(c: Cache, s: nat, list: seq<nat>, i: nat, data: FrameData, generations: seq<nat>)
    requires i <= |list| && forall j | 0 <= j < i :: !Duplicate(c, s, list[j], data, generations)
    ensures FindDuplicate(c, s, list, data, generations) == FindDuplicate(c, s, list[i..], data, generations)
  {
    if i == 0 {
      assert list[0..] == list;
    } else {
      DuplicateFrom(c, s, list[1..], i - 1, data, generations);
      assert list[1..][i - 1..] == list[i..];
    }
  }

  class SnapshotServer {
    var registry: Registry
    var frame: nat
    var table: Table
    var slots: seq<SlotCache>
    var frames: seq<QuantizedFrame>
    var free: seq<nat>
    var clients: seq<Client>

    function Model(): Cache
      reads this
    {
      Cache(registry, frame, table, slots, frames, free, clients)
    }

    constructor ()
      ensures Model() == Idle
    {
      registry, frame, table, slots, frames, free, clients := map[], 0, Empty, [], [], [], [];
    }

    method RetainQuantizedFrame(q: nat)
      modifies `frames
      ensures Model() == Retain(old(Model()), q)
    {
      if q < |frames| && frames[q].active {
        frames := frames[q := frames[q].(refCount := frames[q].refCount + 1)];
      }
    }

    static method Erase(list: seq<nat>, q: nat) returns (kept: seq<nat>)
      ensures kept == Without(list, q)
    {
      kept := [];
      var i := 0;
      while i < |list|
        invariant i <= |list| && kept == Without(list[..i], q)
      {
        WithoutStep(list, q, i);
        if list[i] != q {
          kept := kept + [list[i]];
        }
        i := i + 1;
      }
      assert list[..|list|] == list;
    }

    method ReleaseQuantizedFrame(q: nat)
      modifies `frames, `free, `slots
      ensures Model() == Release(old(Model()), q)
    {
      if q >= |frames| || !frames[q].active {
        return;
      }
      if frames[q].refCount != 0 {
        frames := frames[q := frames[q].(refCount := frames[q].refCount - 1)];
        if frames[q].refCount != 0 {
          return;
        }
      }
      var s := frames[q].slot;
      if s < |slots| {
        var kept := Erase(slots[s].list, q);
        slots := slots[s := slots[s].(list := kept)];
      }
      frames := frames[q := frames[q].(active := false, data := FrameData([], []), generations := [])];
      free := free + [q];
    }

    method SetState(k: nat, s: nat, st: EntityState)
      modifies `clients
      ensures Model() == PutState(old(Model()), k, s, st)
    {
      if k < |clients| && s < |clients[k].states| {
        clients := clients[k := clients[k].(states := clients[k].states[s := st])];
      }
    }

    method ReleaseBaselineOf(st: EntityState)
      modifies `frames, `free, `slots
      ensures Model() == ReleaseBaseline(old(Model()), st)
    {
      if st.baseline.Some? {
        ReleaseQuantizedFrame(st.baseline.value);
      }
    }

    method ReleaseEach(pending: seq<PendingFrame>)
      modifies `frames, `free, `slots
      ensures Model() == ReleaseAll(old(Model()), pending)
    {
      var i := 0;
      while i < |pending|
        invariant i <= |pending| && Model() == ReleaseAll(old(Model()), pending[..i])
        invariant registry == old(registry) && frame == old(frame) && table == old(table) && clients == old(clients)
      {
        ReleaseStep(old(Model()), pending, i);
        ReleaseQuantizedFrame(pending[i].id);
        i := i + 1;
      }
      assert pending[..|pending|] == pending;
    }

    method ClearClientEntityState(k: nat, s: nat)
      modifies `frames, `free, `slots, `clients
      ensures Model() == ClearState(old(Model()), k, s)
    {
      if k < |clients| && s < |clients[k].states| {
        var st := clients[k].states[s];
        ReleaseBaselineOf(st);
        ReleaseEach(st.pending);
        SetState(k, s, NoState);
      }
    }

    /** The loop over the clients when a slot is deactivated or newly occupied. */
    method ClearSlotOfClients(s: nat)
      modifies `frames, `free, `slots, `clients
      ensures Model() == ClearSlot(old(Model()), s, |old(clients)|)
    {
      var k := 0;
      while k < |clients|
        invariant k <= |clients| == |old(clients)| && Model() == ClearSlot(old(Model()), s, k)
        invariant registry == old(registry) && frame == old(frame) && table == old(table)
      {
        ClearClientEntityState(k, s);
        k := k + 1;
      }
    }

    method DeactivateReplicated(index: nat)
      requires Shaped(Model())
      modifies this
      ensures Shaped(Model()) && Model() == DeactivatedIndex(old(Model()), index)
    {
      DeactivateValid(table, index);
      if index in table.byIndex {
        var s := table.byIndex[index];
        table := DeactivateIndex(table, index);
        slots := slots[s := slots[s].(list := [], sameFrame := None, sameFrameFrame := 0, cacheable := false)];
        ClearSlotOfClients(s);
      }
      assert Model() == DeactivatedIndex(old(Model()), index);
    }

    method InvalidateEntityBaseline(k: nat, s: nat)
      modifies `frames, `free, `slots, `clients
      ensures Model() == Invalidate(old(Model()), k, s)
    {
      if k < |clients| && s < |clients[k].states| {
        var st := clients[k].states[s];
        ReleaseBaselineOf(st);
        SetState(k, s, st.(baseline := None, epoch := st.epoch + 1));
      }
    }

    method FindPendingFrame(pending: seq<PendingFrame>, acked: nat) returns (i: nat)
      ensures i == FindPending(pending, acked)
    {
      i := 0;
      while i < |pending| && pending[i].frame != acked
        invariant i <= |pending| && forall j | 0 <= j < i :: pending[j].frame != acked
      {
        i := i + 1;
      }
      PendingFrom(pending, i, acked);
    }

    /** Releases and erases the pending sends up to `acked`, one position at a time. */
    method EraseAcked(k: nat, s: nat, acked: nat)
      requires HasState(Model(), k, s)
      modifies `frames, `free, `slots, `clients
      ensures var st := old(Model()).clients[k].states[s];
              Model() == Erased(old(Model()), k, s, st.pending, |st.pending|, acked)
    {
      hide Release, ReleaseAll, Acked, Unacked, Erased, ClearState, DeactivatedIndex;
      ghost var was := Model();
      ghost var st := clients[k].states[s];
      ghost var all, n := st.pending, 0;
      var at := 0;
      ErasedStart(was, k, s, acked);
      while at < |clients[k].states[s].pending|
        invariant n <= |all| && at == |Unacked(all[..n], acked)| && HasState(Model(), k, s)
        invariant clients[k].states[s].pending == Unacked(all[..n], acked) + all[n..]
        invariant Model() == Erased(was, k, s, all, n, acked)
        decreases |all| - n
      {
        var pending := clients[k].states[s].pending;
        assert pending[at] == all[n];
        ErasedStep(was, k, s, all, n, acked);
        if pending[at].frame <= acked {
          ReleaseQuantizedFrame(pending[at].id);
          SetState(k, s, clients[k].states[s].(pending := pending[..at] + pending[at + 1..]));
        } else {
          at := at + 1;
        }
        n := n + 1;
      }
    }

    method AcknowledgeEntity(k: nat, s: nat, acked: nat)
      modifies `frames, `free, `slots, `clients
      ensures Model() == Acknowledge(old(Model()), k, s, acked)
    {
      if k >= |clients| || s >= |clients[k].states| {
        return;
      }
      var st := clients[k].states[s];
      var i := FindPendingFrame(st.pending, acked);
      if i == |st.pending| {
        return;
      }
      var q := st.pending[i].id;
      if q >= |frames| || !frames[q].active {
        return;
      }
      if st.pending[i].epoch == st.epoch && st.baseline != Some(q) {
        ReleaseBaselineOf(st);
        SetState(k, s, st.(baseline := Some(q)));
        RetainQuantizedFrame(q);
      }
      ghost var promoted := Model();
      assert promoted == Promote(old(Model()), k, s, q, st.pending[i].epoch == st.epoch);
      EraseAcked(k, s, acked);
      ErasedEnd(promoted, k, s, acked);
    }

    /** `mark_dirty_component`: the first component of the slot's archetype that is `c`. */
    method MarkDirtyComponent(settings: Settings, s: nat, c: nat)
      modifies `slots
      ensures slots == MarkComponent(settings, table, old(slots), s, c)
    {
      if !table.Active(s) || table.slots[s].archetype >= |settings.archetypes| {
        return;
      }
      var components := settings.archetypes[table.slots[s].archetype].components;
      var i := 0;
      while i < |components| && components[i] != c
        invariant i <= |components| && c !in components[..i] && slots == old(slots)
      {
        i := i + 1;
      }
      FirstIndex(components, c, i);
      if i < |components| && s < |slots| && i + 1 < |slots[s].generations| {
        slots := slots[s := slots[s].(generations := slots[s].generations[i + 1 := slots[s].generations[i + 1] + 1])];
      }
    }

    method MarkDirtyTag(settings: Settings, s: nat, tag: nat)
      modifies `slots
      ensures slots == MarkTagSlots(settings, table, old(slots), [s], tag)
    {
      assert [s][..0] == [];
      assert MarkTagSlots(settings, table, slots, [], tag) == slots;
      if !table.Active(s) || table.slots[s].archetype >= |settings.archetypes| {
        return;
      }
      if tag in settings.archetypes[table.slots[s].archetype].tags && s < |slots| && slots[s].generations != [] {
        slots := slots[s := slots[s].(generations := slots[s].generations[0 := slots[s].generations[0] + 1])];
      }
    }

    /** `mark_owner_visibility_dirty`: the tags' generation and those of every component not visible to all. */
    method MarkOwnerVisibilityDirty(settings: Settings, s: nat)
      modifies `slots
      ensures slots == MarkOwners(settings, table, old(slots), [s])
    {
      assert [s][..0] == [];
      assert MarkOwners(settings, table, slots, []) == slots;
      if !table.Active(s) || table.slots[s].archetype >= |settings.archetypes| {
        return;
      }
      var a := settings.archetypes[table.slots[s].archetype];
      if exists x <- a.tagAudience :: x != All {
        slots := Bump(slots, s, 0);
      }
      var i := 0;
      while i < |a.componentAudience|
        invariant i <= |a.componentAudience| && slots == MarkRestricted(a, old(slots), s, i)
      {
        if a.componentAudience[i] != All {
          slots := Bump(slots, s, i + 1);
        }
        i := i + 1;
      }
    }

    method MarkTag(settings: Settings, d: DirtyView, tag: nat)
      modifies `slots
      ensures slots == MarkTagSlots(settings, table, old(slots), ByEntity(table, d.Tag(tag).dirty) + ByIndex(table, d.Tag(tag).removed), tag)
    {
      var visits, i := ByEntity(table, d.Tag(tag).dirty) + ByIndex(table, d.Tag(tag).removed), 0;
      while i < |visits|
        invariant i <= |visits| && slots == MarkTagSlots(settings, table, old(slots), visits[..i], tag)
      {
        assert visits[..i + 1][..i] == visits[..i] && [visits[i]][..0] == [];
        MarkDirtyTag(settings, visits[i], tag);
        i := i + 1;
      }
      assert visits[..i] == visits;
    }

    method MarkArchetype(settings: Settings, d: DirtyView, tags: seq<nat>)
      modifies `slots
      ensures slots == MarkTags(settings, table, old(slots), d, tags)
    {
      var i := 0;
      while i < |tags|
        invariant i <= |tags| && slots == MarkTags(settings, table, old(slots), d, tags[..i])
      {
        assert tags[..i + 1][..i] == tags[..i];
        MarkTag(settings, d, tags[i]);
        i := i + 1;
      }
      assert tags[..i] == tags;
    }

    method MarkTrackedComponent(settings: Settings, d: DirtyView, c: nat)
      modifies `slots
      ensures slots == MarkComponentSlots(settings, table, old(slots),
                                          ByEntity(table, d.Component(c).dirty) + ByIndex(table, d.Component(c).removed), c)
    {
      var visits, i := ByEntity(table, d.Component(c).dirty) + ByIndex(table, d.Component(c).removed), 0;
      while i < |visits|
        invariant i <= |visits| && slots == MarkComponentSlots(settings, table, old(slots), visits[..i], c)
      {
        assert visits[..i + 1][..i] == visits[..i];
        MarkDirtyComponent(settings, visits[i], c);
        i := i + 1;
      }
      assert visits[..i] == visits;
    }

    /** `capture_dirty_generations`: tags archetype by archetype, tracked components, then owner changes. */
    method CaptureDirtyGenerations(settings: Settings, d: DirtyView)
      modifies `slots
      ensures slots == CaptureGenerations(settings, table, old(slots), d)
    {
      hide MarkArchetypeTags, MarkComponents, MarkOwners, ByEntity, ByIndex;
      CaptureTags(settings, d);
      CaptureComponents(settings, d);
      CaptureOwners(settings, ByEntity(table, d.owner.dirty) + ByIndex(table, d.owner.removed));
    }

    method CaptureTags(settings: Settings, d: DirtyView)
      modifies `slots
      ensures slots == MarkArchetypeTags(settings, table, old(slots), d, settings.archetypes)
    {
      var i := 0;
      while i < |settings.archetypes|
        invariant i <= |settings.archetypes|
        invariant slots == MarkArchetypeTags(settings, table, old(slots), d, settings.archetypes[..i])
      {
        assert settings.archetypes[..i + 1][..i] == settings.archetypes[..i];
        MarkArchetype(settings, d, settings.archetypes[i].tags);
        i := i + 1;
      }
      assert settings.archetypes[..i] == settings.archetypes;
    }

    method CaptureComponents(settings: Settings, d: DirtyView)
      modifies `slots
      ensures slots == MarkComponents(settings, table, old(slots), d, settings.tracked)
    {
      var i := 0;
      while i < |settings.tracked|
        invariant i <= |settings.tracked| && slots == MarkComponents(settings, table, old(slots), d, settings.tracked[..i])
      {
        assert settings.tracked[..i + 1][..i] == settings.tracked[..i];
        MarkTrackedComponent(settings, d, settings.tracked[i]);
        i := i + 1;
      }
      assert settings.tracked[..i] == settings.tracked;
    }

    method CaptureOwners(settings: Settings, visits: seq<nat>)
      modifies `slots
      ensures slots == MarkOwners(settings, table, old(slots), visits)
    {
      var i := 0;
      while i < |visits|
        invariant i <= |visits| && slots == MarkOwners(settings, table, old(slots), visits[..i])
      {
        assert visits[..i + 1][..i] == visits[..i] && [visits[i]][..0] == [];
        MarkOwnerVisibilityDirty(settings, visits[i]);
        i := i + 1;
      }
      assert visits[..i] == visits;
    }

    /** The part of `send_client` after a record fitted: the reference moves into the pending list. */
    method RecordSent(k: nat, s: nat, q: nat, full: bool)
      modifies `frames, `free, `slots, `clients
      ensures Model() == RecordSend(old(Model()), k, s, q, full)
    {
      if k >= |clients| || s >= |clients[k].states| {
        return;
      }
      if full && clients[k].states[s].baseline.Some? {
        InvalidateEntityBaseline(k, s);
      }
      var st := clients[k].states[s];
      QueuedTrims(Model(), k, s, PendingFrame(q, frame, st.epoch));
      SetState(k, s, st.(pending := st.pending + [PendingFrame(q, frame, st.epoch)]));
      TrimPending(k, s);
    }

    /** Only the newest pending sends are kept; the others give back their references. */
    method TrimPending(k: nat, s: nat)
      requires HasState(Model(), k, s)
      modifies `frames, `free, `slots, `clients
      ensures Model() == Trimmed(old(Model()), k, s, old(clients[k].states[s].pending), Excess(old(|clients[k].states[s].pending|)))
    {
      hide ReleaseAll, Release;
      ghost var c, all, n := Model(), clients[k].states[s].pending, 0;
      TrimmedNone(c, k, s);
      while |clients[k].states[s].pending| > MAX_PENDING
        invariant n <= Excess(|all|) && HasState(Model(), k, s)
        invariant Model() == Trimmed(c, k, s, all, n) && clients[k].states[s].pending == all[n..]
        decreases Excess(|all|) - n
      {
        var pending := clients[k].states[s].pending;
        TrimmedStep(c, k, s, all, n);
        ReleaseQuantizedFrame(pending[0].id);
        SetState(k, s, clients[k].states[s].(pending := pending[1..]));
        n := n + 1;
      }
    }

    /** Fills the scratch frame: tags, then each visible component copied from the baseline or quantised. */
    method BuildScratch(a: Archetype, k: nat, s: nat) returns (data: FrameData, generations: seq<nat>)
      requires |a.tagAudience| == |a.tags| && |a.componentAudience| == |a.components| == |a.ops|
      requires k < |clients| && s < |table.slots| && s < |slots|
      ensures data == ScratchData(a, Model(), k, s) && generations == ScratchGenerations(a, data, slots[s].generations)
    {
      hide ReusedComponent, VisibleTags, UsableBaseline;
      var e, client := table.slots[s].entity, clients[k].id;
      var components := [];
      generations := [if a.HasTagSlot() then GenerationAt(slots[s].generations, 0) else 0];
      var i := 0;
      while i < |a.components|
        invariant i <= |a.components| && |components| == i && |generations| == i + 1
        invariant generations[0] == if a.HasTagSlot() then GenerationAt(slots[s].generations, 0) else 0
        invariant forall j | 0 <= j < i :: components[j] == ReusedComponent(a, Model(), k, s, j)
        invariant forall j | 0 <= j < i :: generations[1..][j] == if components[j].Some? then GenerationAt(slots[s].generations, j + 1) else 0
      {
        var written, generation := ScratchComponent(a, k, s, i);
        components := components + [written];
        generations := generations + [generation];
        i := i + 1;
      }
      data := FrameData(VisibleTags(a, registry, e, client), components);
      assert data.components == ScratchData(a, Model(), k, s).components;
      assert generations == [generations[0]] + generations[1..];
      assert generations == ScratchGenerations(a, data, slots[s].generations);
    }

    /** One round of the component loop: copied from the baseline where its generation is current, else quantised. */
    method ScratchComponent(a: Archetype, k: nat, s: nat, i: nat) returns (written: Option<Bytes>, generation: nat)
      requires |a.componentAudience| == |a.components| == |a.ops| && i < |a.components|
      requires k < |clients| && s < |table.slots| && s < |slots|
      ensures written == ReusedComponent(a, Model(), k, s, i)
      ensures generation == if written.Some? then GenerationAt(slots[s].generations, i + 1) else 0
    {
      hide AudienceMatches, OwnerClient;
      written, generation := None, 0;
      var visible := VisibleComponent(a, registry, table.slots[s].entity, clients[k].id, i);
      if visible.Some? {
        var baseline := UsableBaseline(Model(), k, s);
        generation := GenerationAt(slots[s].generations, i + 1);
        if baseline.Some? && i + 1 < |baseline.value.generations| && i < |baseline.value.data.components|
           && baseline.value.generations[i + 1] == generation && baseline.value.data.components[i].Some? {
          written := baseline.value.data.components[i];
        } else {
          written := Some(a.ops[i].quantize(visible.value));
        }
      }
    }

    /** The dedupe loop over the slot's frames. */
    method FindSameFrame(s: nat, data: FrameData, generations: seq<nat>) returns (q: Option<nat>)
      requires s < |slots|
      ensures q == FindDuplicate(Model(), s, slots[s].list, data, generations)
    {
      var list, i := slots[s].list, 0;
      while i < |list|
        invariant i <= |list| && forall j | 0 <= j < i :: !Duplicate(Model(), s, list[j], data, generations)
      {
        if Duplicate(Model(), s, list[i], data, generations) {
          DuplicateFrom(Model(), s, list, i, data, generations);
          return Some(list[i]);
        }
        i := i + 1;
      }
      DuplicateFrom(Model(), s, list, i, data, generations);
      return None;
    }

    /** A place for a new frame, the last freed one first, and the frame in it. */
    method StoreFrame(s: nat, data: FrameData, generations: seq<nat>) returns (id: nat)
      requires s < |table.slots| && s < |slots|
      requires forall i | 0 <= i < |free| :: free[i] < |frames|
      modifies `frames, `free, `slots
      ensures (Model(), id) == Store(old(Model()), s, data, generations)
    {
      id := |frames|;
      var stored := QuantizedFrame(s, frame, table.slots[s].archetype, 0, true, data, generations);
      if free != [] {
        id := free[|free| - 1];
        free := free[..|free| - 1];
        frames := frames[id := stored];
      } else {
        frames := frames + [stored];
      }
      var slot := slots[s].(list := slots[s].list + [id]);
      if slot.cacheable {
        slot := slot.(sameFrame := Some(id), sameFrameFrame := frame);
      }
      slots := slots[s := slot];
    }

    /** `find_or_create_quantized_frame`. */
    method FindOrCreateQuantizedFrame(settings: Settings, k: nat, s: nat) returns (q: Option<nat>)
      requires settings.WellFormed() && k < |clients| && |slots| == |table.slots|
      requires forall i | 0 <= i < |free| :: free[i] < |frames|
      requires s < |table.slots| ==> table.slots[s].archetype < |settings.archetypes|
      modifies `frames, `free, `slots
      ensures (Model(), q) == FindOrCreate(settings, old(Model()), k, s)
    {
      if s >= |table.slots| {
        return None;
      }
      if SameFrameHit(Model(), s) {
        return slots[s].sameFrame;
      }
      var a := settings.archetypes[table.slots[s].archetype];
      var data, generations := BuildScratch(a, k, s);
      if (forall x <- data.components :: x.None?) && !a.HasTagSlot() {
        return None;
      }
      q := FindSameFrame(s, data, generations);
      if q.Some? {
        return;
      }
      var id := StoreFrame(s, data, generations);
      return Some(id);
    }

    /** One entity's turn in `send_client`; the guard's reference is given back unless the record is sent. */
    method SendEntity(settings: Settings, k: nat, s: nat, outcome: Outcome)
      requires settings.WellFormed() && k < |clients| && |slots| == |table.slots|
      requires forall i | 0 <= i < |free| :: free[i] < |frames|
      requires s < |table.slots| ==> table.slots[s].archetype < |settings.archetypes|
      modifies `frames, `free, `slots, `clients
      ensures Model() == Send(settings, old(Model()), k, s, outcome)
    {
      hide FindOrCreate, Retain, Release, RecordSend;
      var found := FindOrCreateQuantizedFrame(settings, k, s);
      if found.None? || outcome.Unwritten? {
        return;
      }
      RetainQuantizedFrame(found.value);
      if outcome.Refused? {
        ReleaseQuantizedFrame(found.value);
      } else {
        RecordSent(k, s, found.value, outcome.full);
      }
    }
  }
}
