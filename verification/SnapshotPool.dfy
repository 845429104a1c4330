/** Reference counting in the frame pool: counts are exact, and releasing keeps every frame still referenced. */
module SnapshotPool {
  import opened Snapshots

  ghost function Ids(pending: seq<PendingFrame>): multiset<nat> {
    if pending == [] then multiset{} else Ids(pending[..|pending| - 1]) + multiset{pending[|pending| - 1].id}
  }

  ghost function OfBaseline(st: EntityState): multiset<nat> {
    if st.baseline.Some? then multiset{st.baseline.value} else multiset{}
  }

  /** The references one client state holds. */
  ghost function Own(st: EntityState): multiset<nat> {
    OfBaseline(st) + Ids(st.pending)
  }

  ghost function RowRefs(states: seq<EntityState>): multiset<nat> {
    if states == [] then multiset{} else RowRefs(states[..|states| - 1]) + Own(states[|states| - 1])
  }

  ghost function AllRefs(clients: seq<Client>): multiset<nat> {
    if clients == [] then multiset{} else AllRefs(clients[..|clients| - 1]) + RowRefs(clients[|clients| - 1].states)
  }

  lemma Exchange(a: multiset<nat>, b: multiset<nat>, c: multiset<nat>)
    ensures a + b + c == a + c + b
  {
  }

  lemma Carry(a: multiset<nat>, b: multiset<nat>, c: multiset<nat>, d: multiset<nat>, more: multiset<nat>)
    requires a + b == c + d
    ensures a + more + b == c + more + d
  {
    Exchange(a, more, b);
    Exchange(c, more, d);
  }

  lemma {:induction false} RowUpdate(states: seq<EntityState>, s: nat, st: EntityState)
    requires s < |states|
    ensures RowRefs(states[s := st]) + Own(states[s]) == RowRefs(states) + Own(st)
  {
    hide Own;
    var last := |states| - 1;
    if s < last {
      RowUpdate(states[..last], s, st);
      assert states[s := st][..last] == states[..last][s := st];
      Carry(RowRefs(states[..last][s := st]), Own(states[s]), RowRefs(states[..last]), Own(st), Own(states[last]));
    } else {
      assert states[s := st][..last] == states[..last];
      Exchange(RowRefs(states[..last]), Own(st), Own(states[s]));
    }
  }

  lemma {:induction false} AllUpdate(clients: seq<Client>, k: nat, client: Client)
    requires k < |clients|
    ensures AllRefs(clients[k := client]) + RowRefs(clients[k].states) == AllRefs(clients) + RowRefs(client.states)
  {
    hide RowRefs;
    var last := |clients| - 1;
    if k < last {
      AllUpdate(clients[..last], k, client);
      assert clients[k := client][..last] == clients[..last][k := client];
      Carry(AllRefs(clients[..last][k := client]), RowRefs(clients[k].states), AllRefs(clients[..last]), RowRefs(client.states),
            RowRefs(clients[last].states));
    } else {
      assert clients[k := client][..last] == clients[..last];
      Exchange(AllRefs(clients[..last]), RowRefs(client.states), RowRefs(clients[k].states));
    }
  }

  /** From two exchanges, one at the row and one at the total, to the exchange at the total. */
  lemma Chain(all': multiset<nat>, row: multiset<nat>, all: multiset<nat>, row': multiset<nat>, old': multiset<nat>, new': multiset<nat>)
    requires all' + row == all + row' && row' + old' == row + new'
    ensures all' + old' == all + new'
  {
    forall q ensures (all' + old')[q] == (all + new')[q] {
      assert (all' + row)[q] == (all + row')[q];
      assert (row' + old')[q] == (row + new')[q];
    }
  }

  /** Replacing one state changes the total by what the state held and now holds. */
  lemma PutStateRefs(c: Cache, k: nat, s: nat, st: EntityState)
    requires HasState(c, k, s)
    ensures AllRefs(PutState(c, k, s, st).clients) + Own(c.clients[k].states[s]) == AllRefs(c.clients) + Own(st)
  {
    hide Own, RowRefs, AllRefs;
    var client := c.clients[k].(states := c.clients[k].states[s := st]);
    RowUpdate(c.clients[k].states, s, st);
    AllUpdate(c.clients, k, client);
    Chain(AllRefs(c.clients[k := client]), RowRefs(c.clients[k].states), AllRefs(c.clients), RowRefs(client.states),
          Own(c.clients[k].states[s]), Own(st));
  }

  lemma {:induction false} OwnInRow(states: seq<EntityState>, s: nat)
    requires s < |states|
    ensures Own(states[s]) <= RowRefs(states)
  {
    if s < |states| - 1 {
      OwnInRow(states[..|states| - 1], s);
    }
  }

  lemma {:induction false} RowInAll(clients: seq<Client>, k: nat)
    requires k < |clients|
    ensures RowRefs(clients[k].states) <= AllRefs(clients)
  {
    if k < |clients| - 1 {
      RowInAll(clients[..|clients| - 1], k);
    }
  }

  lemma OwnInAll(c: Cache, k: nat, s: nat)
    requires HasState(c, k, s)
    ensures Own(c.clients[k].states[s]) <= AllRefs(c.clients)
  {
    OwnInRow(c.clients[k].states, s);
    RowInAll(c.clients, k);
  }

  lemma Associate(a: multiset<nat>, b: multiset<nat>, c: multiset<nat>)
    ensures a + b + c == a + (b + c)
  {
  }

  lemma {:induction false} IdsConcat(left: seq<PendingFrame>, right: seq<PendingFrame>)
    ensures Ids(left + right) == Ids(left) + Ids(right)
  {
    if right == [] {
      assert left + right == left;
      assert Ids(right) == multiset{};
    } else {
      var init, p := right[..|right| - 1], right[|right| - 1];
      assert (left + right)[..|left + right| - 1] == left + init;
      IdsConcat(left, init);
      Associate(Ids(left), Ids(init), multiset{p.id});
    }
  }

  lemma IdsCut(pending: seq<PendingFrame>, n: nat)
    requires n <= |pending|
    ensures Ids(pending[..n]) + Ids(pending[n..]) == Ids(pending)
  {
    hide Ids;
    IdsConcat(pending[..n], pending[n..]);
    assert pending[..n] + pending[n..] == pending;
  }

  lemma IdsAppend(pending: seq<PendingFrame>, p: PendingFrame)
    ensures Ids(pending + [p]) == Ids(pending) + multiset{p.id}
  {
    assert (pending + [p])[..|pending|] == pending;
  }

  lemma AckedStep(pending: seq<PendingFrame>, frame: nat)
    requires pending != []
    ensures var init, p := pending[..|pending| - 1], pending[|pending| - 1];
            if p.frame <= frame
            then Acked(pending, frame) == Acked(init, frame) + [p] && Unacked(pending, frame) == Unacked(init, frame)
            else Acked(pending, frame) == Acked(init, frame) && Unacked(pending, frame) == Unacked(init, frame) + [p]
  {
  }

  /** One more reference on either side of a split, or on both sides of the sum, is the same. */
  lemma SplitMore(a: multiset<nat>, u: multiset<nat>, all: multiset<nat>, more: multiset<nat>)
    requires a + u == all
    ensures a + more + u == all + more && a + (u + more) == all + more
  {
    Exchange(a, more, u);
    Associate(a, u, more);
  }

  lemma NothingSplit(frame: nat)
    ensures Ids(Acked([], frame)) + Ids(Unacked([], frame)) == Ids([])
  {
  }

  lemma {:induction false} IdsSplit(pending: seq<PendingFrame>, frame: nat)
    ensures Ids(Acked(pending, frame)) + Ids(Unacked(pending, frame)) == Ids(pending)
  {
    hide Ids, Acked, Unacked;
    if pending == [] {
      NothingSplit(frame);
    } else {
      var init, p := pending[..|pending| - 1], pending[|pending| - 1];
      IdsSplit(init, frame);
      AckedStep(pending, frame);
      assert pending == init + [p];
      IdsAppend(init, p);
      IdsAppend(Acked(init, frame), p);
      IdsAppend(Unacked(init, frame), p);
      SplitMore(Ids(Acked(init, frame)), Ids(Unacked(init, frame)), Ids(init), multiset{p.id});
    }
  }

  lemma {:induction false} IdOf(pending: seq<PendingFrame>, i: nat)
    requires i < |pending|
    ensures pending[i].id in Ids(pending)
  {
    if i < |pending| - 1 {
      IdOf(pending[..|pending| - 1], i);
    }
  }

  // ----------------------------------------------------------------- the pool

  ghost predicate FreeSound(c: Cache) {
    && (forall i | 0 <= i < |c.free| :: c.free[i] < |c.frames| && !c.frames[c.free[i]].active)
    && (forall i, j | 0 <= i < j < |c.free| :: c.free[i] != c.free[j])
  }

  /** Every reference is to a live frame and every live frame's count is its number of references. */
  ghost predicate Pool(c: Cache, refs: multiset<nat>) {
    && (forall q :: q in refs ==> ActiveFrame(c, q))
    && (forall q | 0 <= q < |c.frames| && c.frames[q].active :: c.frames[q].refCount == refs[q])
    && FreeSound(c)
  }

  predicate SameContent(f: QuantizedFrame, g: QuantizedFrame) {
    f == g.(refCount := f.refCount)
  }

  /** What a release may change: counts, and frames nobody refers to any more. */
  ghost predicate Shrinks(c: Cache, c': Cache, refs: multiset<nat>) {
    && c' == c.(frames := c'.frames, free := c'.free, slots := c'.slots)
    && |c'.slots| == |c.slots| && |c'.frames| == |c.frames|
    && (forall s | 0 <= s < |c.slots| :: c'.slots[s] == c.slots[s].(list := c'.slots[s].list))
    && (forall q | 0 <= q < |c.frames| && c'.frames[q].active :: c.frames[q].active && SameContent(c.frames[q], c'.frames[q]))
    && (forall q :: q in refs ==> ActiveFrame(c', q))
  }

  lemma ShrinksTrans(c: Cache, d: Cache, e: Cache, refs: multiset<nat>, fewer: multiset<nat>)
    requires Shrinks(c, d, refs) && Shrinks(d, e, fewer)
    ensures Shrinks(c, e, fewer)
  {
  }

  lemma ReleaseShrinks(c: Cache, q: nat, refs: multiset<nat>)
    requires Pool(c, refs) && q in refs
    ensures Pool(Release(c, q), refs - multiset{q}) && Shrinks(c, Release(c, q), refs - multiset{q})
  {
    var c' := Release(c, q);
    if c.frames[q].refCount <= 1 {
      assert q !in refs - multiset{q};
      assert c'.free == c.free + [q];
    }
  }

  lemma {:induction false} ReleaseAllShrinks(c: Cache, pending: seq<PendingFrame>, refs: multiset<nat>)
    requires Pool(c, refs) && Ids(pending) <= refs
    ensures Pool(ReleaseAll(c, pending), refs - Ids(pending)) && Shrinks(c, ReleaseAll(c, pending), refs - Ids(pending))
  {
    if pending != [] {
      var init, p := pending[..|pending| - 1], pending[|pending| - 1];
      ReleaseAllShrinks(c, init, refs);
      var c1 := ReleaseAll(c, init);
      ReleaseShrinks(c1, p.id, refs - Ids(init));
      assert refs - Ids(init) - multiset{p.id} == refs - Ids(pending);
      ShrinksTrans(c, c1, ReleaseAll(c, pending), refs - Ids(init), refs - Ids(pending));
    }
  }

  lemma ReleaseBaselineShrinks(c: Cache, st: EntityState, refs: multiset<nat>)
    requires Pool(c, refs) && OfBaseline(st) <= refs
    ensures Pool(ReleaseBaseline(c, st), refs - OfBaseline(st)) && Shrinks(c, ReleaseBaseline(c, st), refs - OfBaseline(st))
  {
    if st.baseline.Some? {
      assert st.baseline.value in OfBaseline(st);
      ReleaseShrinks(c, st.baseline.value, refs);
    }
  }

  lemma RetainPool(c: Cache, q: nat, refs: multiset<nat>)
    requires Pool(c, refs) && ActiveFrame(c, q)
    ensures Pool(Retain(c, q), refs + multiset{q})
  {
  }
}
