/** Every step of a replicating server keeps its snapshots exact: passes, sends, acknowledgements, clients coming and going. */
module SnapshotService {
  import opened Wrappers
  import opened SlotTable
  import opened World
  import opened Discovery
  import opened Snapshots
  import opened SnapshotPool
  import opened SnapshotCorrectness
  import opened SnapshotSends
  import opened SnapshotRuns

  // -------------------------------------------------------------- operations

  /** What becomes of a snapshot that was looked up for a client. */
  datatype Outcome = Unwritten | Refused | Sent(full: bool)

  /** One entity's turn in `send_client`: look up its snapshot, and keep or drop the reference to it. */
  function Send(settings: Settings, c: Cache, k: nat, s: nat, outcome: Outcome): Cache
    requires settings.WellFormed() && k < |c.clients| && |c.slots| == |c.table.slots|
    requires forall i | 0 <= i < |c.free| :: c.free[i] < |c.frames|
    requires s < |c.table.slots| ==> c.table.slots[s].archetype < |settings.archetypes|
  {
    var (c1, found) := FindOrCreate(settings, c, k, s);
    match found
    case None => c1
    case Some(q) =>
      match outcome
      case Unwritten => c1
      case Refused => Release(Retain(c1, q), q)
      case Sent(full) => RecordSend(Retain(c1, q), k, s, q, full)
  }

  function Join(c: Cache, id: nat): Cache {
    c.(clients := c.clients + [Client(id, seq(|c.table.slots|, _ => NoState))])
  }

  function ClearClient(c: Cache, k: nat, count: nat): (c': Cache)
    ensures |c'.clients| == |c.clients|
    ensures c' == c.(frames := c'.frames, free := c'.free, slots := c'.slots, clients := c'.clients)
  {
    if count == 0 then c else ClearState(ClearClient(c, k, count - 1), k, count - 1)
  }

  /** `remove_client`: every state is cleared and the last client takes the place. */
  function Leave(c: Cache, k: nat): Cache
    requires k < |c.clients|
  {
    var c1 := ClearClient(c, k, |c.clients[k].states|);
    var last := |c1.clients| - 1;
    c1.(clients := c1.clients[k := c1.clients[last]][..last])
  }

  // ------------------------------------------------------------------ search

  /** A frame taken from the pool for new content was referenced by nobody. */
  lemma StorePool(c: Cache, s: nat, data: FrameData, generations: seq<nat>, refs: multiset<nat>)
    requires Pool(c, refs) && s < |c.table.slots| && s < |c.slots|
    ensures var (c', q) := Store(c, s, data, generations);
            && Pool(c', refs)
            && (forall p: nat | ActiveFrame(c, p) :: p != q && ActiveFrame(c', p) && c'.frames[p] == c.frames[p])
            && (forall p: nat | ActiveFrame(c', p) :: p == q || ActiveFrame(c, p))
  {
    var (c', q) := Store(c, s, data, generations);
    assert !ActiveFrame(c, q);
    assert refs[q] == 0;
    if c.free != [] {
      assert c.free[|c.free| - 1] == q;
    }
  }

  lemma StoredGood(settings: Settings, c: Cache, c': Cache, s: int, q: int)
    requires settings.WellFormed() && |c.slots| == |c.table.slots| == |c'.slots|
    requires c' == c.(frames := c'.frames, free := c'.free, slots := c'.slots)
    requires forall x | 0 <= x < |c.slots| :: c'.slots[x].generations == c.slots[x].generations
    requires Good(settings, c, s, q) && ActiveFrame(c', q) && c'.frames[q] == c.frames[q]
    ensures Good(settings, c', s, q)
  {
  }

  /** Storing a frame that is good and current keeps everything ready. */
  lemma StoreReady(settings: Settings, c: Cache, s: nat, data: FrameData, generations: seq<nat>)
    requires settings.WellFormed() && Ready(settings, c) && s < |c.table.slots| && s < |c.slots|
    requires Pool(c, AllRefs(c.clients))
    requires var (c', q) := Store(c, s, data, generations); |c'.slots| == |c'.table.slots| && q < |c'.frames| && CurrentFrame(settings, c', q)
    ensures Ready(settings, Store(c, s, data, generations).0)
  {
    hide Own, AllRefs, Matches, NothingVisible, Settings.WellFormed, Table.Valid;
    var (c', q) := Store(c, s, data, generations);
    StorePool(c, s, data, generations, AllRefs(c.clients));
    forall k, x | 0 <= k < |c'.clients| && 0 <= x < |c'.clients[k].states|
      ensures StateGood(settings, c', x, c'.clients[k].states[x])
    {
      StateIsGood(settings, c, k, x);
      forall p | p in Own(c'.clients[k].states[x]) ensures Good(settings, c', x, p) {
        StoredGood(settings, c, c', x, p);
      }
    }
    forall x ensures SlotSound(settings, c', x) {
      assert SlotSound(settings, c, x);
    }
    forall p | 0 <= p < |c'.frames| && c'.frames[p].active && c'.frames[p].frame == c'.frame && c'.table.Active(c'.frames[p].slot)
      ensures CurrentFrame(settings, c', p)
    {
      if p != q {
        assert ActiveFrame(c', p) && ActiveFrame(c, p);
        assert CurrentFrame(settings, c, p);
        StoredGood(settings, c, c', c.frames[p].slot, p);
      }
    }
  }

  /** What a search stores, when there is something to see, is what some client may see now. */
  lemma ScratchStored(settings: Settings, c: Cache, k: nat, s: nat)
    requires settings.WellFormed() && Ready(settings, c) && HasState(c, k, s) && c.table.Active(s)
    ensures c.table.slots[s].archetype < |settings.archetypes| && |c.slots| == |c.table.slots|
    ensures forall i | 0 <= i < |c.free| :: c.free[i] < |c.frames|
    ensures var a := settings.archetypes[c.table.slots[s].archetype];
            && |a.tagAudience| == |a.tags| && |a.componentAudience| == |a.components| == |a.ops|
            && var data := ScratchData(a, c, k, s);
            && |data.components| == |a.components|
            && (!NothingVisible(a, data) ==>
                  var (c', q) := Store(c, s, data, ScratchGenerations(a, data, c.slots[s].generations));
                  |c'.slots| == |c'.table.slots| && q < |c'.frames| && CurrentFrame(settings, c', q))
  {
    hide Pool, AllRefs, ScratchData, ScratchGenerations, FreshData, StatesGood, NothingVisible, Matches, Table.Valid, ComponentOps.Lawful;
    ScratchIsFresh(settings, c, k, s);
    ReadyPool(settings, c);
    FreePlaces(c, AllRefs(c.clients));
    assert SlotSound(settings, c, s);
    var a, e := settings.archetypes[c.table.slots[s].archetype], c.table.slots[s].entity;
    var data := ScratchData(a, c, k, s);
    ScratchShape(a, c, k, s);
    var (c', q) := Store(c, s, data, ScratchGenerations(a, data, c.slots[s].generations));
    ScratchMatches(a, c.registry, e, c.clients[k].id, c'.frames[q], c.slots[s].generations);
  }

  lemma FreePlaces(c: Cache, refs: multiset<nat>)
    requires Pool(c, refs)
    ensures forall i | 0 <= i < |c.free| :: c.free[i] < |c.frames|
  {
  }

  lemma ScratchShape(a: Archetype, c: Cache, k: nat, s: nat)
    requires |a.tagAudience| == |a.tags| && |a.componentAudience| == |a.components| == |a.ops|
    requires s < |c.table.slots| && s < |c.slots| && k < |c.clients|
    ensures |ScratchData(a, c, k, s).components| == |a.components|
  {
  }

  lemma SearchReady(settings: Settings, c: Cache, k: nat, s: nat)
    requires settings.WellFormed() && Ready(settings, c) && HasState(c, k, s) && c.table.Active(s)
    ensures c.table.slots[s].archetype < |settings.archetypes|
    ensures var (c', q) := FindOrCreate(settings, c, k, s);
            Ready(settings, c') && c'.clients == c.clients && c'.frame == c.frame && c'.table == c.table
  {
    hide Ready, Store, ScratchData, ScratchGenerations, NothingVisible, FindDuplicate, CurrentFrame, Settings.WellFormed;
    ScratchStored(settings, c, k, s);
    ReadyPool(settings, c);
    var a := settings.archetypes[c.table.slots[s].archetype];
    var data := ScratchData(a, c, k, s);
    if !NothingVisible(a, data) {
      var generations := ScratchGenerations(a, data, c.slots[s].generations);
      StoreReady(settings, c, s, data, generations);
      StoreFrame(c, s, data, generations);
    }
  }

  lemma StoreFrame(c: Cache, s: nat, data: FrameData, generations: seq<nat>)
    requires s < |c.table.slots| && s < |c.slots| && forall i | 0 <= i < |c.free| :: c.free[i] < |c.frames|
    ensures var c' := Store(c, s, data, generations).0; c'.clients == c.clients && c'.frame == c.frame && c'.table == c.table
  {
  }

  // ------------------------------------------------------------------- sends

  /** Taking and giving back a reference; an unreferenced frame is freed. */
  lemma RefusedReady(settings: Settings, c: Cache, k: nat, s: nat, q: nat)
    requires settings.WellFormed() && Ready(settings, c) && HasState(c, k, s) && ActiveFrame(c, q)
    ensures Ready(settings, Release(Retain(c, q), q))
  {
    hide AllRefs, StatesGood, Settings.WellFormed;
    var refs, st := AllRefs(c.clients), c.clients[k].states[s];
    var mid := Retain(c, q);
    RetainPool(c, q, refs);
    ReleaseShrinks(mid, q, refs + multiset{q});
    assert refs + multiset{q} - multiset{q} == refs;
    var c' := Release(mid, q);
    assert c.clients[k].states[s := st] == c.clients[k].states;
    assert c.clients[k := c.clients[k].(states := c.clients[k].states[s := st])] == c.clients;
    StateIsGood(settings, c, k, s);
    StateReplaced(settings, c, c', k, s, st, -1);
    assert PutState(c', k, s, st) == c';
  }

  lemma ReleaseCommutes(c: Cache, k: nat, s: nat, st: EntityState, q: nat)
    ensures Release(PutState(c, k, s, st), q) == PutState(Release(c, q), k, s, st)
  {
  }

  lemma {:induction false} ReleaseAllCommutes(c: Cache, k: nat, s: nat, st: EntityState, gone: seq<PendingFrame>)
    ensures ReleaseAll(PutState(c, k, s, st), gone) == PutState(ReleaseAll(c, gone), k, s, st)
  {
    if gone != [] {
      var init := gone[..|gone| - 1];
      ReleaseAllCommutes(c, k, s, st, init);
      ReleaseCommutes(ReleaseAll(c, init), k, s, st, gone[|gone| - 1].id);
    }
  }

  lemma PutAgain(c: Cache, k: nat, s: nat, st1: EntityState, st2: EntityState)
    ensures PutState(PutState(c, k, s, st1), k, s, st2) == PutState(c, k, s, st2)
  {
    if HasState(c, k, s) {
      assert c.clients[k].states[s := st1][s := st2] == c.clients[k].states[s := st2];
    }
  }

  lemma PutSame(c: Cache, k: nat, s: nat)
    requires HasState(c, k, s)
    ensures PutState(c, k, s, c.clients[k].states[s]) == c
  {
    assert c.clients[k].states[s := c.clients[k].states[s]] == c.clients[k].states;
  }

  /** Only the newest pending sends are kept. */
  lemma TrimReady(settings: Settings, c: Cache, k: nat, s: nat, st: EntityState, drop: nat)
    requires settings.WellFormed() && HasState(c, k, s) && drop <= |st.pending|
    requires Ready(settings, PutState(c, k, s, st))
    ensures Ready(settings, PutState(ReleaseAll(c, st.pending[..drop]), k, s, st.(pending := st.pending[drop..])))
  {
    hide Ready, Ids, ReleaseAll, Settings.WellFormed;
    var e := PutState(c, k, s, st);
    var gone, kept := st.pending[..drop], st.pending[drop..];
    IdsCut(st.pending, drop);
    PendingDropped(settings, e, k, s, gone, kept);
    ReleaseAllCommutes(c, k, s, st, gone);
    PutAgain(ReleaseAll(c, gone), k, s, st, st.(pending := kept));
  }

  /** The send's reference moves into the pending list, and a full send drops the baseline. */
  lemma QueuedReady(settings: Settings, c: Cache, k: nat, s: nat, q: nat, full: bool)
    requires settings.WellFormed() && Ready(settings, c) && HasState(c, k, s)
    requires |c.slots| == |c.table.slots| && Good(settings, c, s, q)
    ensures var st := c.clients[k].states[s];
            var reset := full && st.baseline.Some?;
            var c1 := if reset then Invalidate(Retain(c, q), k, s) else Retain(c, q);
            && HasState(c1, k, s) && c1.clients[k].states[s].pending == st.pending
            && var st1 := c1.clients[k].states[s];
               Ready(settings, PutState(c1, k, s, st1.(pending := st.pending + [PendingFrame(q, c.frame, st1.epoch)])))
  {
    hide Ready, Good, Settings.WellFormed, Ids, Own, ReleaseBaseline;
    var st := c.clients[k].states[s];
    var reset := full && st.baseline.Some?;
    var epoch := if reset then st.epoch + 1 else st.epoch;
    var pending := st.pending + [PendingFrame(q, c.frame, epoch)];
    var queued := st.(pending := pending);
    OwnQueued(st, PendingFrame(q, c.frame, epoch));
    Extended(settings, c, k, s, queued, q);
    RetainKeepsClients(c, q);
    var mid := Retain(c, q);
    if reset {
      var e := PutState(mid, k, s, queued);
      var dropped := queued.(baseline := None, epoch := epoch);
      BaselineDropped(settings, e, k, s, dropped);
      BaselineCommutes(mid, k, s, queued, st);
      PutAgain(ReleaseBaseline(mid, st), k, s, queued, dropped);
      BaselineKeepsClients(mid, st);
      PutAgain(ReleaseBaseline(mid, st), k, s, st.(baseline := None, epoch := epoch), dropped);
    }
  }

  lemma BaselineCommutes(c: Cache, k: nat, s: nat, st: EntityState, was: EntityState)
    requires st.baseline == was.baseline
    ensures ReleaseBaseline(PutState(c, k, s, st), st) == PutState(ReleaseBaseline(c, was), k, s, st)
  {
    if st.baseline.Some? {
      ReleaseCommutes(c, k, s, st, st.baseline.value);
    }
  }

  lemma OwnQueued(st: EntityState, p: PendingFrame)
    ensures Own(st.(pending := st.pending + [p])) == Own(st) + multiset{p.id}
  {
    IdsAppend(st.pending, p);
    hide Ids;
    Associate(OfBaseline(st), Ids(st.pending), multiset{p.id});
  }

  lemma RecordSendReady(settings: Settings, c: Cache, k: nat, s: nat, q: nat, full: bool)
    requires settings.WellFormed() && Ready(settings, c) && HasState(c, k, s)
    requires |c.slots| == |c.table.slots| && Good(settings, c, s, q)
    ensures Ready(settings, RecordSend(Retain(c, q), k, s, q, full))
  {
    hide Ready, Good, Settings.WellFormed, ReleaseAll, ReleaseBaseline, PutState;
    QueuedReady(settings, c, k, s, q, full);
    RetainKeepsClients(c, q);
    var st := c.clients[k].states[s];
    var c1 := if full && st.baseline.Some? then Invalidate(Retain(c, q), k, s) else Retain(c, q);
    var st1 := c1.clients[k].states[s];
    var pending := st.pending + [PendingFrame(q, c.frame, st1.epoch)];
    var drop := if |pending| > MAX_PENDING then |pending| - MAX_PENDING else 0;
    TrimReady(settings, c1, k, s, st1.(pending := pending), drop);
  }

  lemma SendReady(settings: Settings, c: Cache, k: nat, s: nat, outcome: Outcome)
    requires settings.WellFormed() && Ready(settings, c) && HasState(c, k, s) && c.table.Active(s)
    ensures c.table.slots[s].archetype < |settings.archetypes|
    ensures Ready(settings, Send(settings, c, k, s, outcome))
  {
    SearchIsFresh(settings, c, k, s);
    SearchReady(settings, c, k, s);
    ReadyPool(settings, c);
    assert SlotSound(settings, c, s);
    hide Sound, SoundBut, CurrentSound, Settings.WellFormed, RecordSend, Release, Retain, FindOrCreate, Good, SlotSound, AllRefs;
    var (c1, found) := FindOrCreate(settings, c, k, s);
    if found.Some? {
      RecordOrRefuse(settings, c1, k, s, found.value, outcome);
    }
  }

  lemma RecordOrRefuse(settings: Settings, c: Cache, k: nat, s: nat, q: nat, outcome: Outcome)
    requires settings.WellFormed() && Ready(settings, c) && HasState(c, k, s)
    requires |c.slots| == |c.table.slots| && Good(settings, c, s, q)
    ensures outcome.Refused? ==> Ready(settings, Release(Retain(c, q), q))
    ensures outcome.Sent? ==> Ready(settings, RecordSend(Retain(c, q), k, s, q, outcome.full))
  {
    match outcome
    case Unwritten =>
    case Refused => RefusedReady(settings, c, k, s, q);
    case Sent(full) => RecordSendReady(settings, c, k, s, q, full);
  }

  // ----------------------------------------------------------------- clients

  /** Rearranging the clients, each state kept at its slot or empty, keeps everything ready. */
  lemma Rehoused(settings: Settings, c: Cache, c': Cache)
    requires settings.WellFormed() && Ready(settings, c) && c' == c.(clients := c'.clients)
    requires AllRefs(c'.clients) == AllRefs(c.clients)
    requires forall j | 0 <= j < |c'.clients| :: |c'.clients[j].states| == |c.table.slots|
    requires forall j, s | 0 <= j < |c'.clients| && 0 <= s < |c'.clients[j].states| ::
               c'.clients[j].states[s] == NoState || exists k :: HeldAt(c, k, s, c'.clients[j].states[s])
    ensures Ready(settings, c')
  {
    hide Matches, NothingVisible, Settings.WellFormed, Table.Valid, Own, AllRefs, Good, CurrentSound;
    NothingOwned();
    SamePool(c, c');
    forall j, s | 0 <= j < |c'.clients| && 0 <= s < |c'.clients[j].states|
      ensures StateGood(settings, c', s, c'.clients[j].states[s])
    {
      var st := c'.clients[j].states[s];
      if st != NoState {
        var k :| HeldAt(c, k, s, st);
        StateIsGood(settings, c, k, s);
        SameGood(settings, c, c', s, st);
      }
    }
    forall s ensures SlotSound(settings, c', s) {
      assert SlotSound(settings, c, s);
    }
    SameCurrent(settings, c, c');
  }

  ghost predicate HeldAt(c: Cache, k: int, s: int, st: EntityState) {
    0 <= k && 0 <= s && HasState(c, k, s) && c.clients[k].states[s] == st
  }

  lemma JoinedRefs(c: Cache, id: nat)
    ensures AllRefs(Join(c, id).clients) == AllRefs(c.clients)
  {
    hide RowRefs;
    assert Join(c, id).clients[..|c.clients|] == c.clients;
    EmptyRow(|c.table.slots|);
  }

  lemma JoinReady(settings: Settings, c: Cache, id: nat)
    requires settings.WellFormed() && Ready(settings, c)
    ensures Ready(settings, Join(c, id))
  {
    hide Ready, Sound, SoundBut, CurrentSound, Settings.WellFormed, RowRefs, Pool, StatesGood, SlotSound, Table.Valid, AllRefs;
    var c' := Join(c, id);
    ReadySound(settings, c);
    JoinedRefs(c, id);
    forall j, s | 0 <= j < |c'.clients| && 0 <= s < |c'.clients[j].states|
      ensures c'.clients[j].states[s] == NoState || exists k :: HeldAt(c, k, s, c'.clients[j].states[s])
    {
      if j < |c.clients| {
        assert HeldAt(c, j, s, c'.clients[j].states[s]);
      }
    }
    Rehoused(settings, c, c');
  }

  lemma SameGood(settings: Settings, c: Cache, c': Cache, s: int, st: EntityState)
    requires settings.WellFormed() && |c.slots| == |c.table.slots| && StateGood(settings, c, s, st)
    requires c' == c.(clients := c'.clients)
    ensures StateGood(settings, c', s, st)
  {
    hide Own;
    forall q | q in Own(st) ensures Good(settings, c', s, q) {
      assert Good(settings, c, s, q);
    }
  }

  lemma SameCurrent(settings: Settings, c: Cache, c': Cache)
    requires settings.WellFormed() && |c.slots| == |c.table.slots| && CurrentSound(settings, c)
    requires c' == c.(clients := c'.clients)
    ensures CurrentSound(settings, c')
  {
    forall q | 0 <= q < |c'.frames| && c'.frames[q].active && c'.frames[q].frame == c'.frame && c'.table.Active(c'.frames[q].slot)
      ensures CurrentFrame(settings, c', q)
    {
      assert CurrentFrame(settings, c, q);
    }
  }

  lemma {:induction false} ClearClientStates(c: Cache, k: nat, count: nat)
    requires k < |c.clients| && count <= |c.clients[k].states|
    ensures var states := ClearClient(c, k, count).clients[k].states;
            |states| == |c.clients[k].states| && forall s | 0 <= s < count :: states[s] == NoState
  {
    if count > 0 {
      hide ClearState, HasState;
      ClearClientStates(c, k, count - 1);
      StateCleared(ClearClient(c, k, count - 1), k, count - 1);
    }
  }

  lemma StateCleared(c: Cache, k: nat, s: nat)
    requires k < |c.clients| && s < |c.clients[k].states|
    ensures var c' := ClearState(c, k, s); |c'.clients| == |c.clients| && c'.clients[k].states == c.clients[k].states[s := NoState]
  {
  }

  lemma {:induction false} ClearClientReady(settings: Settings, c: Cache, k: nat, count: nat)
    requires settings.WellFormed() && Ready(settings, c)
    ensures Ready(settings, ClearClient(c, k, count))
  {
    hide Ready, Settings.WellFormed, ClearState;
    if count > 0 {
      ClearClientReady(settings, c, k, count - 1);
      ClearedReady(settings, ClearClient(c, k, count - 1), k, count - 1);
    }
  }

  lemma ClearedReady(settings: Settings, c: Cache, k: nat, s: nat)
    requires settings.WellFormed() && Ready(settings, c)
    ensures Ready(settings, ClearState(c, k, s))
  {
    hide SoundBut, CurrentSound, Settings.WellFormed, Settled, ClearState;
    ReadySound(settings, c);
    ClearStateSound(settings, c, k, s, -1);
  }

  lemma {:induction false} QuietRow(states: seq<EntityState>)
    requires forall s | 0 <= s < |states| :: states[s] == NoState
    ensures RowRefs(states) == multiset{}
  {
    if states != [] {
      QuietRow(states[..|states| - 1]);
      NothingOwned();
    }
  }

  /** Swapping the last client into the place of one without references keeps the total. */
  lemma SwapRemoveRefs(clients: seq<Client>, k: nat)
    requires k < |clients| && RowRefs(clients[k].states) == multiset{}
    ensures AllRefs(clients[k := clients[|clients| - 1]][..|clients| - 1]) == AllRefs(clients)
  {
    hide RowRefs, AllRefs;
    var last := |clients| - 1;
    var moved := clients[k := clients[last]];
    AllUpdate(clients, k, clients[last]);
    AllLast(moved);
    assert moved[last] == clients[last];
    Cancel(AllRefs(moved[..last]), RowRefs(clients[last].states), AllRefs(clients), RowRefs(clients[k].states));
  }

  lemma AllLast(clients: seq<Client>)
    requires clients != []
    ensures AllRefs(clients) == AllRefs(clients[..|clients| - 1]) + RowRefs(clients[|clients| - 1].states)
  {
  }

  lemma Cancel(rest: multiset<nat>, row: multiset<nat>, all: multiset<nat>, none: multiset<nat>)
    requires rest + row + none == all + row && none == multiset{}
    ensures rest == all
  {
    forall q ensures rest[q] == all[q] {
      assert (rest + row + none)[q] == (all + row)[q];
    }
  }

  lemma LeaveReady(settings: Settings, c: Cache, k: nat)
    requires settings.WellFormed() && Ready(settings, c) && k < |c.clients|
    ensures Ready(settings, Leave(c, k))
  {
    hide Sound, SoundBut, CurrentSound, Settings.WellFormed, ClearClient, RowRefs, AllRefs, Pool;
    ClearClientReady(settings, c, k, |c.clients[k].states|);
    ClearClientStates(c, k, |c.clients[k].states|);
    var c1 := ClearClient(c, k, |c.clients[k].states|);
    var c' := Leave(c, k);
    QuietRow(c1.clients[k].states);
    SwapRemoveRefs(c1.clients, k);
    ReadySound(settings, c1);
    forall j, s | 0 <= j < |c'.clients| && 0 <= s < |c'.clients[j].states|
      ensures exists from :: HeldAt(c1, from, s, c'.clients[j].states[s])
    {
      assert HeldAt(c1, if j == k then |c1.clients| - 1 else j, s, c'.clients[j].states[s]);
    }
    Rehoused(settings, c1, c');
  }

  // -------------------------------------------------------------------- runs

  /** What can happen to a running server between one observation and the next. */
  datatype Step =
    | Pass(registry: Registry, dirty: DirtyView, frame: nat)
    | Sending(k: nat, s: nat, outcome: Outcome)
    | Acknowledged(k: nat, s: nat, frame: nat)
    | Invalidated(k: nat, s: nat)
    | Joined(id: nat)
    | Left(k: nat)
    | Freed(slot: nat)

  /** Later frames, faithful dirty views, and sends only of occupied slots to present clients. */
  ghost predicate Allowed(settings: Settings, c: Cache, step: Step)
    requires settings.WellFormed() && Running(settings, c)
  {
    match step
    case Pass(r', d, frame) => Faithful(c.registry, d, r') && DistinctIndices(r') && frame > c.frame
    case Sending(k, s, _) => k < |c.clients| && c.table.Active(s)
    case Left(k) => k < |c.clients|
    case _ => true
  }

  lemma ActiveSlot(settings: Settings, c: Cache, k: nat, s: nat)
    requires settings.WellFormed() && Running(settings, c) && k < |c.clients| && c.table.Active(s)
    ensures HasState(c, k, s) && Ready(settings, c) && |c.slots| == |c.table.slots|
    ensures s < |c.table.slots| && c.table.slots[s].archetype < |settings.archetypes|
    ensures forall i | 0 <= i < |c.free| :: c.free[i] < |c.frames|
  {
    assert SlotSound(settings, c, s);
  }

  lemma Occupied(settings: Settings, c: Cache, s: nat)
    requires settings.WellFormed() && Running(settings, c) && c.table.Active(s)
    ensures ReplicatedAs(c.registry, c.table.slots[s].entity) == Some(c.table.slots[s].archetype)
  {
  }

  /** The state after a step; nothing when a changed archetype makes rediscovery throw. */
  ghost function After(settings: Settings, c: Cache, step: Step): Option<Cache>
    requires settings.WellFormed() && Running(settings, c) && Allowed(settings, c, step)
  {
    match step
    case Pass(r', d, frame) => Capture(settings, c, r', d, frame)
    case Sending(k, s, outcome) => ActiveSlot(settings, c, k, s); Some(Send(settings, c, k, s, outcome))
    case Acknowledged(k, s, frame) => Some(Acknowledge(c, k, s, frame))
    case Invalidated(k, s) => Some(Invalidate(c, k, s))
    case Joined(id) => Some(Join(c, id))
    case Left(k) => Some(Leave(c, k))
    case Freed(s) => Some(FreedSlot(c, s))
  }

  predicate SameWorld(c: Cache, c': Cache) {
    c'.registry == c.registry && c'.table == c.table
  }

  lemma ReleaseAllWorld(c: Cache, pending: seq<PendingFrame>)
    ensures SameWorld(c, ReleaseAll(c, pending))
  {
    ReleaseAllFrame(c, pending);
  }

  lemma InvalidateWorld(c: Cache, k: nat, s: nat)
    ensures SameWorld(c, Invalidate(c, k, s))
  {
  }

  lemma RecordSendWorld(c: Cache, k: nat, s: nat, q: nat, full: bool)
    ensures SameWorld(c, RecordSend(c, k, s, q, full))
  {
    hide Invalidate, ReleaseAll;
    InvalidateWorld(c, k, s);
    var c1 := if full && HasState(c, k, s) && c.clients[k].states[s].baseline.Some? then Invalidate(c, k, s) else c;
    if HasState(c1, k, s) {
      var pending := c1.clients[k].states[s].pending + [PendingFrame(q, c.frame, c1.clients[k].states[s].epoch)];
      ReleaseAllWorld(c1, pending[..if |pending| > MAX_PENDING then |pending| - MAX_PENDING else 0]);
    }
  }

  lemma PromoteWorld(c: Cache, k: nat, s: nat, q: nat, eligible: bool)
    ensures SameWorld(c, Promote(c, k, s, q, eligible))
  {
  }

  lemma AcknowledgeWorld(c: Cache, k: nat, s: nat, frame: nat)
    ensures SameWorld(c, Acknowledge(c, k, s, frame))
  {
    hide Promote, ReleaseAll, Acked, Unacked;
    if HasState(c, k, s) {
      var st := c.clients[k].states[s];
      var i := FindPending(st.pending, frame);
      if i < |st.pending| {
        PromoteWorld(c, k, s, st.pending[i].id, st.pending[i].epoch == st.epoch);
        var c1 := Promote(c, k, s, st.pending[i].id, st.pending[i].epoch == st.epoch);
        if HasState(c1, k, s) {
          ReleaseAllWorld(c1, Acked(c1.clients[k].states[s].pending, frame));
        }
      }
    }
  }

  lemma StepWorld(settings: Settings, c: Cache, step: Step)
    requires settings.WellFormed() && Running(settings, c) && Allowed(settings, c, step) && !step.Pass? && !step.Freed?
    ensures var c' := After(settings, c, step); c'.Some? && SameWorld(c, c'.value)
  {
    hide Ready, Synced, Invalidate, Acknowledge, RecordSend, FindOrCreate, Settings.WellFormed;
    match step
    case Pass(_, _, _) =>
    case Sending(k, s, outcome) =>
      ActiveSlot(settings, c, k, s);
      SearchReady(settings, c, k, s);
      SearchWorld(settings, c, k, s);
      var (c1, found) := FindOrCreate(settings, c, k, s);
      if found.Some? && outcome.Sent? {
        RecordSendWorld(Retain(c1, found.value), k, s, found.value, outcome.full);
      }
    case Acknowledged(k, s, frame) => AcknowledgeWorld(c, k, s, frame);
    case Invalidated(k, s) => InvalidateWorld(c, k, s);
    case Joined(_) =>
    case Left(_) =>
  }

  lemma SearchWorld(settings: Settings, c: Cache, k: nat, s: nat)
    requires settings.WellFormed() && k < |c.clients| && |c.slots| == |c.table.slots|
    requires forall i | 0 <= i < |c.free| :: c.free[i] < |c.frames|
    requires s < |c.table.slots| && c.table.slots[s].archetype < |settings.archetypes|
    ensures SameWorld(c, FindOrCreate(settings, c, k, s).0)
  {
    hide ScratchData, ScratchGenerations, FindDuplicate, NothingVisible;
  }

  /** Every step keeps the server running. */
  lemma StepRunning(settings: Settings, c: Cache, step: Step)
    requires settings.WellFormed() && settings.Tracks() && Running(settings, c) && Allowed(settings, c, step)
    ensures var c' := After(settings, c, step); c'.Some? ==> Running(settings, c'.value)
  {
    hide Ready, Synced, Settings.WellFormed, Settings.Tracks, Capture, Send, Acknowledge, Invalidate, Leave, FreedSlot, Faithful;
    if !step.Pass? && !step.Freed? {
      StepWorld(settings, c, step);
    }
    match step
    case Pass(r', d, frame) => PassRunning(settings, c, r', d, frame);
    case Sending(k, s, outcome) =>
      ActiveSlot(settings, c, k, s);
      SendReady(settings, c, k, s, outcome);
    case Acknowledged(k, s, frame) => AcknowledgeReady(settings, c, k, s, frame);
    case Invalidated(k, s) => InvalidateReady(settings, c, k, s);
    case Joined(id) => JoinReady(settings, c, id);
    case Left(k) => LeaveReady(settings, c, k);
    case Freed(s) => FreedRunning(settings, c, s);
  }

  const Idle := Cache(map[], 0, Empty, [], [], [], [])

  /** The first tick: every replicated entity is registered, and the first dirty view captured. */
  function Start(settings: Settings, r: Registry, everyone: seq<Entity>, d: DirtyView, frame: nat): Option<Cache> {
    match UpsertedAll(settings, Idle, r, everyone)
    case None => None
    case Some(c) => Some(c.(registry := r, frame := frame, slots := CaptureGenerations(settings, c.table, c.slots, d)))
  }

  lemma IdleSound(settings: Settings)
    requires settings.WellFormed()
    ensures Sound(settings, Idle)
  {
  }

  /** What a server is given on its first pass: `everyone` is the order in which a view visits the marked entities. */
  ghost predicate FirstPass(settings: Settings, r: Registry, everyone: seq<Entity>, d: DirtyView, frame: nat) {
    && settings.WellFormed() && settings.Tracks() && frame > 0
    && Faithful(map[], d, r) && DistinctIndices(r) && forall e :: e in everyone <==> ReplicatedAs(r, e).Some?
  }

  lemma StartRunning(settings: Settings, r: Registry, everyone: seq<Entity>, d: DirtyView, frame: nat)
    requires FirstPass(settings, r, everyone, d, frame)
    ensures var c := Start(settings, r, everyone, d, frame); c.Some? ==> Running(settings, c.value)
  {
    hide Sound, Ready, Faithful, Synced, CaptureGenerations, Settings.WellFormed, Settings.Tracks;
    IdleSound(settings);
    UpsertedAllSound(settings, Idle, r, everyone);
    FirstDiscoverySyncs(r, d, everyone, |settings.archetypes|);
    var c := UpsertedAll(settings, Idle, r, everyone);
    if c.Some? {
      CaptureSound(settings, c.value, r, d, frame);
    }
  }

  /** The state a sequence of steps leads to; nothing when one of them is not allowed or throws. */
  ghost function RunOf(settings: Settings, c0: Cache, steps: seq<Step>): Option<Cache>
    requires settings.WellFormed()
  {
    if steps == [] then Some(c0)
    else
      match RunOf(settings, c0, steps[..|steps| - 1])
      case None => None
      case Some(c) =>
        if Running(settings, c) && Allowed(settings, c, steps[|steps| - 1]) then After(settings, c, steps[|steps| - 1]) else None
  }

  /** Whatever the steps, a server that got through them is running. */
  lemma {:induction false} RunRunning(settings: Settings, c0: Cache, steps: seq<Step>)
    requires settings.WellFormed() && settings.Tracks() && Running(settings, c0)
    ensures var c := RunOf(settings, c0, steps); c.Some? ==> Running(settings, c.value)
  {
    hide Running, Allowed, After, Settings.WellFormed, Settings.Tracks;
    if steps != [] {
      var init, last := steps[..|steps| - 1], steps[|steps| - 1];
      RunRunning(settings, c0, init);
      var c := RunOf(settings, c0, init);
      if c.Some? && Allowed(settings, c.value, last) {
        StepRunning(settings, c.value, last);
      }
    }
  }

  /**
   The main result: from the first pass on, in every state of every run, the snapshot any client would
   be handed for any occupied slot has the tags, presence and bytes that
   quantising everything visible to that client afresh would give, and there
   is no snapshot exactly when nothing is visible.
   */
  lemma EverySnapshotIsFresh(settings: Settings, r: Registry, everyone: seq<Entity>, d: DirtyView, frame: nat, steps: seq<Step>,
                             c: Cache, k: nat, s: nat)
    requires FirstPass(settings, r, everyone, d, frame) && Start(settings, r, everyone, d, frame).Some?
    requires RunOf(settings, Start(settings, r, everyone, d, frame).value, steps) == Some(c)
    requires k < |c.clients| && c.table.Active(s)
    ensures |c.slots| == |c.table.slots| && c.table.slots[s].archetype < |settings.archetypes|
    ensures forall i | 0 <= i < |c.free| :: c.free[i] < |c.frames|
    ensures ReplicatedAs(c.registry, c.table.slots[s].entity) == Some(c.table.slots[s].archetype)
    ensures var (c', q) := FindOrCreate(settings, c, k, s);
            && (q.None? <==> FreshSnapshot(settings, c, k, s).None?)
            && (q.Some? ==> ActiveFrame(c', q.value) && FreshSnapshot(settings, c, k, s) == Some(c'.frames[q.value].data))
  {
    hide Running, Ready, FindOrCreate, FreshSnapshot, RunOf, Good, Start, Settings.WellFormed, Settings.Tracks;
    StartRunning(settings, r, everyone, d, frame);
    RunRunning(settings, Start(settings, r, everyone, d, frame).value, steps);
    Occupied(settings, c, s);
    ActiveSlot(settings, c, k, s);
    SearchIsFresh(settings, c, k, s);
  }

  /** Conservation: from the first pass on, in every state of every run a frame is kept exactly while it is referenced as often as it is counted. */
  lemma EveryCountIsExact(settings: Settings, r: Registry, everyone: seq<Entity>, d: DirtyView, frame: nat, steps: seq<Step>,
                          c: Cache, q: nat)
    requires FirstPass(settings, r, everyone, d, frame) && Start(settings, r, everyone, d, frame).Some?
    requires RunOf(settings, Start(settings, r, everyone, d, frame).value, steps) == Some(c)
    ensures q in AllRefs(c.clients) ==> ActiveFrame(c, q)
    ensures ActiveFrame(c, q) ==> c.frames[q].refCount == AllRefs(c.clients)[q] && q !in c.free
  {
    hide AllRefs, RunOf, StatesGood, CurrentSound, Start, Settings.WellFormed, Settings.Tracks;
    StartRunning(settings, r, everyone, d, frame);
    RunRunning(settings, Start(settings, r, everyone, d, frame).value, steps);
  }
}
