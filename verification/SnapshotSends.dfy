/** Acknowledging, invalidating and sending keep the pool sound, and the search returns the fresh snapshot. */
module SnapshotSends {
  import opened Wrappers
  import opened SlotTable
  import opened World
  import opened Snapshots
  import opened SnapshotPool
  import opened SnapshotCorrectness

  /** A server between passes: everything sound, and frames of the current server frame up to date. */
  ghost predicate Ready(settings: Settings, c: Cache)
    requires settings.WellFormed()
  {
    Sound(settings, c) && CurrentSound(settings, c)
  }

  lemma ReadySound(settings: Settings, c: Cache)
    requires settings.WellFormed() && Ready(settings, c)
    ensures Shaped(c) && c.table.Valid() && SoundBut(settings, c, -1) && CurrentSound(settings, c)
    ensures forall j | 0 <= j < |c.clients| :: |c.clients[j].states| == |c.table.slots|
  {
  }

  lemma StateIsGood(settings: Settings, c: Cache, k: nat, s: nat)
    requires settings.WellFormed() && Sound(settings, c) && HasState(c, k, s)
    ensures StateGood(settings, c, s, c.clients[k].states[s])
  {
  }

  lemma Available(c: Cache, k: nat, s: nat, st: EntityState, dropped: multiset<nat>)
    requires HasState(c, k, s) && Own(st) + dropped == Own(c.clients[k].states[s])
    ensures dropped <= AllRefs(c.clients)
  {
    hide Own, AllRefs;
    OwnInAll(c, k, s);
    Within(dropped, Own(st), Own(c.clients[k].states[s]), AllRefs(c.clients));
  }

  /** Replacing a state whose new references are among its old ones, after releasing the difference. */
  lemma Reduced(settings: Settings, c: Cache, mid: Cache, k: nat, s: nat, st: EntityState, dropped: multiset<nat>)
    requires settings.WellFormed() && Ready(settings, c) && HasState(c, k, s)
    requires Own(st) + dropped == Own(c.clients[k].states[s])
    requires Pool(mid, AllRefs(c.clients) - dropped) && Shrinks(c, mid, AllRefs(c.clients) - dropped)
    ensures Ready(settings, PutState(mid, k, s, st))
  {
    hide AllRefs, Pool, Good, Shrinks, Own, Settings.WellFormed;
    var old', all := c.clients[k].states[s], AllRefs(c.clients);
    Available(c, k, s, st, dropped);
    PutStateRefs(c, k, s, st);
    Difference(AllRefs(PutState(c, k, s, st).clients), Own(old'), all, Own(st), dropped);
    ShrinksSettles(c, mid, all - dropped);
    StateIsGood(settings, c, k, s);
    forall q | q in Own(st) ensures Good(settings, c, s, q) {
      assert q in Own(st) + dropped;
    }
    StateReplaced(settings, c, mid, k, s, st, -1);
  }

  /** Releasing a state's baseline. */
  lemma BaselineDropped(settings: Settings, c: Cache, k: nat, s: nat, st: EntityState)
    requires settings.WellFormed() && Ready(settings, c) && HasState(c, k, s)
    requires st.baseline.None? && st.pending == c.clients[k].states[s].pending
    ensures Ready(settings, PutState(ReleaseBaseline(c, c.clients[k].states[s]), k, s, st))
  {
    var was := c.clients[k].states[s];
    OwnParts(was);
    OwnParts(st);
    hide AllRefs, Pool, Shrinks, ReleaseBaseline, Own, Ids, OfBaseline, Settings.WellFormed, Ready;
    Available(c, k, s, st, OfBaseline(was));
    ReadyPool(settings, c);
    ReleaseBaselineShrinks(c, was, AllRefs(c.clients));
    Reduced(settings, c, ReleaseBaseline(c, was), k, s, st, OfBaseline(was));
  }

  /** Releasing some of a state's pending sends. */
  lemma PendingDropped(settings: Settings, c: Cache, k: nat, s: nat, gone: seq<PendingFrame>, kept: seq<PendingFrame>)
    requires settings.WellFormed() && Ready(settings, c) && HasState(c, k, s)
    requires Ids(gone) + Ids(kept) == Ids(c.clients[k].states[s].pending)
    ensures Ready(settings, PutState(ReleaseAll(c, gone), k, s, c.clients[k].states[s].(pending := kept)))
  {
    var was := c.clients[k].states[s];
    var st := was.(pending := kept);
    OwnParts(was);
    OwnParts(st);
    hide AllRefs, Pool, Shrinks, ReleaseAll, Own, Ids, OfBaseline, Settings.WellFormed, Ready;
    Regroup(OfBaseline(was), Ids(kept), Ids(gone), Ids(was.pending));
    Available(c, k, s, st, Ids(gone));
    ReadyPool(settings, c);
    ReleaseAllShrinks(c, gone, AllRefs(c.clients));
    Reduced(settings, c, ReleaseAll(c, gone), k, s, st, Ids(gone));
  }

  lemma Within(a: multiset<nat>, b: multiset<nat>, sum: multiset<nat>, all: multiset<nat>)
    requires b + a == sum && sum <= all
    ensures a <= all
  {
    forall q ensures a[q] <= all[q] {
      assert (b + a)[q] == sum[q];
    }
  }

  lemma Difference(all': multiset<nat>, own: multiset<nat>, all: multiset<nat>, own': multiset<nat>, dropped: multiset<nat>)
    requires all' + own == all + own' && own' + dropped == own && dropped <= all
    ensures all' == all - dropped
  {
    forall q ensures all'[q] == (all - dropped)[q] {
      assert (all' + own)[q] == (all + own')[q];
      assert (own' + dropped)[q] == own[q];
    }
  }

  lemma InvalidateReady(settings: Settings, c: Cache, k: nat, s: nat)
    requires settings.WellFormed() && Ready(settings, c)
    ensures Ready(settings, Invalidate(c, k, s))
  {
    hide Ready, ReleaseBaseline, Settings.WellFormed;
    if HasState(c, k, s) {
      var st := c.clients[k].states[s];
      BaselineDropped(settings, c, k, s, st.(baseline := None, epoch := st.epoch + 1));
    }
  }

  lemma ReadyPool(settings: Settings, c: Cache)
    requires settings.WellFormed() && Ready(settings, c)
    ensures Pool(c, AllRefs(c.clients))
  {
  }

  /** Taking one more reference, to a frame that is good for the slot. */
  lemma Extended(settings: Settings, c: Cache, k: nat, s: nat, st: EntityState, q: nat)
    requires settings.WellFormed() && Ready(settings, c) && HasState(c, k, s)
    requires Good(settings, c, s, q)
    requires Own(st) == Own(c.clients[k].states[s]) + multiset{q}
    ensures Ready(settings, PutState(Retain(c, q), k, s, st))
  {
    hide AllRefs, Settings.WellFormed, Good, Own, Pool, StatesGood, SlotSound, CurrentSound, Settled;
    var old', all := c.clients[k].states[s], AllRefs(c.clients);
    PutStateRefs(c, k, s, st);
    Added(AllRefs(PutState(c, k, s, st).clients), Own(old'), all, q);
    GoodActive(settings, c, s, q);
    RetainPool(c, q, all);
    RetainSettles(c, q);
    StateIsGood(settings, c, k, s);
    forall x | x in Own(st) ensures Good(settings, c, s, x) {
      assert x in Own(old') + multiset{q};
    }
    StateReplaced(settings, c, Retain(c, q), k, s, st, -1);
  }

  lemma GoodActive(settings: Settings, c: Cache, s: nat, q: nat)
    requires settings.WellFormed() && |c.slots| == |c.table.slots| && Good(settings, c, s, q)
    ensures ActiveFrame(c, q)
  {
  }

  lemma RetainSettles(c: Cache, q: nat)
    requires |c.slots| == |c.table.slots|
    ensures Settled(c, Retain(c, q)) && Retain(c, q).clients == c.clients
  {
  }

  lemma Added(all': multiset<nat>, own: multiset<nat>, all: multiset<nat>, q: nat)
    requires all' + own == all + (own + multiset{q})
    ensures all' == all + multiset{q}
  {
    forall x ensures all'[x] == (all + multiset{q})[x] {
      assert (all' + own)[x] == (all + (own + multiset{q}))[x];
    }
  }

  /** Promotion seen as dropping the old baseline, then taking a reference to the new one. */
  lemma PromoteReady(settings: Settings, c: Cache, k: nat, s: nat, i: nat, eligible: bool)
    requires settings.WellFormed() && Ready(settings, c) && HasState(c, k, s) && i < |c.clients[k].states[s].pending|
    ensures var c' := Promote(c, k, s, c.clients[k].states[s].pending[i].id, eligible);
            && Ready(settings, c') && HasState(c', k, s)
            && c'.clients[k].states[s].pending == c.clients[k].states[s].pending
  {
    hide Ready, ReleaseBaseline, Settings.WellFormed, Good, Own, Retain;
    var st := c.clients[k].states[s];
    var q := st.pending[i].id;
    if eligible && st.baseline != Some(q) {
      var without := st.(baseline := None);
      OwnParts(without);
      OwnParts(st.(baseline := Some(q)));
      BaselineDropped(settings, c, k, s, without);
      var mid := ReleaseBaseline(c, st);
      BaselineKeepsClients(c, st);
      var c1 := PutState(mid, k, s, without);
      IdOf(st.pending, i);
      ReadyState(settings, c1, k, s, q);
      Extended(settings, c1, k, s, st.(baseline := Some(q)), q);
      PutTwice(mid, k, s, without, st.(baseline := Some(q)), q);
      RetainKeepsClients(PutState(mid, k, s, st.(baseline := Some(q))), q);
    }
  }

  lemma ReadyState(settings: Settings, c: Cache, k: nat, s: nat, q: nat)
    requires settings.WellFormed() && Ready(settings, c) && HasState(c, k, s) && q in Own(c.clients[k].states[s])
    ensures |c.slots| == |c.table.slots| && Good(settings, c, s, q)
  {
    hide Own, Good;
    StateIsGood(settings, c, k, s);
  }

  lemma RetainKeepsClients(c: Cache, q: nat)
    ensures Retain(c, q).clients == c.clients
  {
  }

  lemma OwnParts(st: EntityState)
    ensures Own(st) == OfBaseline(st) + Ids(st.pending)
    ensures Own(st) == Ids(st.pending) + OfBaseline(st)
    ensures st.baseline.None? ==> Own(st) == Ids(st.pending)
    ensures forall q :: q in Ids(st.pending) ==> q in Own(st)
  {
  }

  lemma BaselineKeepsClients(c: Cache, st: EntityState)
    ensures ReleaseBaseline(c, st).clients == c.clients
  {
  }

  lemma PutTwice(c: Cache, k: nat, s: nat, st1: EntityState, st2: EntityState, q: nat)
    requires HasState(c, k, s)
    ensures PutState(Retain(PutState(c, k, s, st1), q), k, s, st2) == Retain(PutState(c, k, s, st2), q)
  {
    assert c.clients[k].states[s := st1][s := st2] == c.clients[k].states[s := st2];
  }

  lemma AcknowledgeReady(settings: Settings, c: Cache, k: nat, s: nat, frame: nat)
    requires settings.WellFormed() && Ready(settings, c)
    ensures Ready(settings, Acknowledge(c, k, s, frame))
  {
    hide Ready, ReleaseAll, Ids, Settings.WellFormed, Promote, Acked, Unacked;
    if HasState(c, k, s) {
      var st := c.clients[k].states[s];
      var i := FindPending(st.pending, frame);
      if i < |st.pending| && ActiveFrame(c, st.pending[i].id) {
        PromoteReady(settings, c, k, s, i, st.pending[i].epoch == st.epoch);
        var c1 := Promote(c, k, s, st.pending[i].id, st.pending[i].epoch == st.epoch);
        var pending := c1.clients[k].states[s].pending;
        IdsSplit(pending, frame);
        PendingDropped(settings, c1, k, s, Acked(pending, frame), Unacked(pending, frame));
      }
    }
  }

  lemma Regroup(base: multiset<nat>, kept: multiset<nat>, gone: multiset<nat>, pending: multiset<nat>)
    requires gone + kept == pending
    ensures base + kept + gone == base + pending
  {
    forall q ensures (base + kept + gone)[q] == (base + pending)[q] {
      assert (gone + kept)[q] == pending[q];
    }
  }

  // --------------------------------------------------------------- the search

  /** The reference answer: nothing visible gives nothing, otherwise everything quantised afresh. */
  function FreshSnapshot(settings: Settings, c: Cache, k: nat, s: nat): Option<FrameData>
    requires settings.WellFormed() && k < |c.clients|
    requires s < |c.table.slots| && c.table.slots[s].archetype < |settings.archetypes|
  {
    var a := settings.archetypes[c.table.slots[s].archetype];
    var data := FreshData(a, c.registry, c.table.slots[s].entity, c.clients[k].id);
    if NothingVisible(a, data) then None else Some(data)
  }

  lemma CacheableIgnoresClient(a: Archetype, r: Registry, e: Entity, x: nat, y: nat)
    requires a.WellFormed() && SameFrameCacheable(a)
    ensures FreshData(a, r, e, x) == FreshData(a, r, e, y)
  {
    forall i | 0 <= i < |a.tags| ensures VisibleTags(a, r, e, x)[i] == VisibleTags(a, r, e, y)[i] {
      assert a.tagAudience[i] in a.tagAudience;
    }
    forall i | 0 <= i < |a.components| ensures FreshComponent(a, r, e, x, i) == FreshComponent(a, r, e, y, i) {
      assert a.componentAudience[i] in a.componentAudience;
    }
  }

  lemma BaselineOwned(st: EntityState)
    requires st.baseline.Some?
    ensures st.baseline.value in Own(st)
  {
  }

  /** Copying from an unchanged baseline gives what quantising would. */
  lemma ScratchIsFresh(settings: Settings, c: Cache, k: nat, s: nat)
    requires settings.WellFormed() && Sound(settings, c) && HasState(c, k, s) && c.table.Active(s)
    ensures c.table.slots[s].archetype < |settings.archetypes|
    ensures var a := settings.archetypes[c.table.slots[s].archetype];
            ScratchData(a, c, k, s) == FreshData(a, c.registry, c.table.slots[s].entity, c.clients[k].id)
  {
    hide Own, Pool, Table.Valid, ComponentOps.Lawful;
    assert SlotSound(settings, c, s);
    var a := settings.archetypes[c.table.slots[s].archetype];
    var e := c.table.slots[s].entity;
    var b := UsableBaseline(c, k, s);
    if b.Some? {
      var st := c.clients[k].states[s];
      StateIsGood(settings, c, k, s);
      BaselineOwned(st);
      assert Good(settings, c, s, st.baseline.value);
    }
    forall i | 0 <= i < |a.components|
      ensures ReusedComponent(a, c, k, s, i) == FreshComponent(a, c.registry, e, c.clients[k].id, i)
    {
    }
  }

  /** A frame just built from fresh data matches its slot. */
  lemma ScratchMatches(a: Archetype, r: Registry, e: Entity, client: nat, f: QuantizedFrame, generations: seq<nat>)
    requires a.WellFormed() && |generations| == |a.components| + 1
    requires f.data == FreshData(a, r, e, client) && f.generations == ScratchGenerations(a, f.data, generations)
    ensures Matches(a, r, e, f, generations)
  {
    forall g | 1 <= g <= |a.components| ensures f.generations[g] <= generations[g] {
      var i := g - 1;
      assert f.generations[i + 1] == if f.data.components[i].Some? then generations[i + 1] else 0;
    }
  }

  /**
   The answer to a search equals quantising afresh, whichever way it was found
   (the same-frame cache, the dedupe list, a new frame with components copied
   from the baseline), and the frame may serve as the slot's baseline.
   */
  lemma SearchIsFresh(settings: Settings, c: Cache, k: nat, s: nat)
    requires settings.WellFormed() && Ready(settings, c) && HasState(c, k, s) && c.table.Active(s)
    ensures c.table.slots[s].archetype < |settings.archetypes|
    ensures var (c', q) := FindOrCreate(settings, c, k, s);
            && (q.None? <==> FreshSnapshot(settings, c, k, s).None?)
            && (q.Some? ==>
                  && ActiveFrame(c', q.value) && c'.frames[q.value].frame == c.frame
                  && FreshSnapshot(settings, c, k, s) == Some(c'.frames[q.value].data)
                  && |c'.slots| == |c'.table.slots| && Good(settings, c', s, q.value))
  {
    ScratchIsFresh(settings, c, k, s);
    assert SlotSound(settings, c, s);
    var a := settings.archetypes[c.table.slots[s].archetype];
    var e := c.table.slots[s].entity;
    var data := ScratchData(a, c, k, s);
    if SameFrameHit(c, s) {
      var q := c.slots[s].sameFrame.value;
      assert CurrentFrame(settings, c, q);
      var client :| c.frames[q].data == FreshData(a, c.registry, e, client);
      CacheableIgnoresClient(a, c.registry, e, client, c.clients[k].id);
    } else if !NothingVisible(a, data) {
      var generations := ScratchGenerations(a, data, c.slots[s].generations);
      var found := FindDuplicate(c, s, c.slots[s].list, data, generations);
      if found.Some? {
        assert CurrentFrame(settings, c, found.value);
      } else {
        var (c', q) := Store(c, s, data, generations);
        ScratchMatches(a, c.registry, e, c.clients[k].id, c'.frames[q], c.slots[s].generations);
      }
    }
  }
}
