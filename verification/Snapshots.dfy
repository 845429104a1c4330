/**
 The server's pool of quantised frames: per-slot dirty generations, reference
 counts held by client baselines and pending sends, and the search that reuses
 a frame instead of quantising again.
 */
module Snapshots {
  import opened Wrappers
  import opened SlotTable
  import opened World
  import opened Discovery
  import opened ReplayWriting

  const INVALID_CLIENT := 255
  const MAX_PENDING := 64

  /** The visible tags and quantised components of one entity for one client. */
  datatype FrameData = FrameData(tags: seq<bool>, components: seq<Option<Bytes>>)

  datatype QuantizedFrame = QuantizedFrame(
    slot: nat, frame: nat, archetype: nat, refCount: nat, active: bool, data: FrameData, generations: seq<nat>)

  /** Per-slot bookkeeping: generation 0 is the tags', generation i + 1 component i's. */
  datatype SlotCache = SlotCache(list: seq<nat>, generations: seq<nat>, sameFrame: Option<nat>, sameFrameFrame: nat, cacheable: bool)

  datatype PendingFrame = PendingFrame(id: nat, frame: nat, epoch: nat)

  datatype EntityState = EntityState(baseline: Option<nat>, epoch: nat, pending: seq<PendingFrame>)

  const NoState := EntityState(None, 0, [])

  datatype Client = Client(id: nat, states: seq<EntityState>)

  datatype Cache = Cache(
    registry: Registry, frame: nat, table: Table, slots: seq<SlotCache>,
    frames: seq<QuantizedFrame>, free: seq<nat>, clients: seq<Client>)

  // ------------------------------------------------- quantising from scratch

  function OwnerClient(r: Registry, e: Entity): nat {
    match OwnerOf(r, e) case None => INVALID_CLIENT case Some(c) => c
  }

  predicate AudienceMatches(audience: Audience, owner: nat, client: nat) {
    match audience
    case Owner => owner != INVALID_CLIENT && owner == client
    case EveryoneExceptOwner => owner == INVALID_CLIENT || owner != client
    case All => true
  }

  function VisibleTags(a: Archetype, r: Registry, e: Entity, client: nat): seq<bool>
    requires |a.tagAudience| == |a.tags|
  {
    seq(|a.tags|, i requires 0 <= i < |a.tags| =>
      AudienceMatches(a.tagAudience[i], OwnerClient(r, e), client) && HasTag(r, e, a.tags[i]))
  }

  function VisibleComponent(a: Archetype, r: Registry, e: Entity, client: nat, i: nat): Option<int>
    requires |a.componentAudience| == |a.components| && i < |a.components|
  {
    if AudienceMatches(a.componentAudience[i], OwnerClient(r, e), client) then ComponentOf(r, e, a.components[i]) else None
  }

  function FreshComponent(a: Archetype, r: Registry, e: Entity, client: nat, i: nat): Option<Bytes>
    requires |a.componentAudience| == |a.components| == |a.ops| && i < |a.components|
  {
    match VisibleComponent(a, r, e, client, i)
    case None => None
    case Some(v) => Some(a.ops[i].quantize(v))
  }

  /** The reference: everything the client may see, quantised afresh. */
  function FreshData(a: Archetype, r: Registry, e: Entity, client: nat): FrameData
    requires |a.tagAudience| == |a.tags| && |a.componentAudience| == |a.components| == |a.ops|
  {
    FrameData(VisibleTags(a, r, e, client),
              seq(|a.components|, i requires 0 <= i < |a.components| => FreshComponent(a, r, e, client, i)))
  }

  predicate SameFrameCacheable(a: Archetype) {
    (forall x <- a.tagAudience :: x == All) && (forall x <- a.componentAudience :: x == All)
  }

  // -------------------------------------------------------- reference counts

  predicate ActiveFrame(c: Cache, q: nat) {
    q < |c.frames| && c.frames[q].active
  }

  function Without(list: seq<nat>, q: nat): seq<nat> {
    if list == [] then []
    else Without(list[..|list| - 1], q) + (if list[|list| - 1] == q then [] else [list[|list| - 1]])
  }

  function Retain(c: Cache, q: nat): Cache {
    if !ActiveFrame(c, q) then c
    else c.(frames := c.frames[q := c.frames[q].(refCount := c.frames[q].refCount + 1)])
  }

  /** `release_quantized_frame`: the last reference frees the frame and takes it off its slot's list. */
  function Release(c: Cache, q: nat): Cache {
    if !ActiveFrame(c, q) then c
    else if c.frames[q].refCount > 1 then
      c.(frames := c.frames[q := c.frames[q].(refCount := c.frames[q].refCount - 1)])
    else
      var s := c.frames[q].slot;
      c.(frames := c.frames[q := c.frames[q].(refCount := 0, active := false, data := FrameData([], []), generations := [])],
         free := c.free + [q],
         slots := if s < |c.slots| then c.slots[s := c.slots[s].(list := Without(c.slots[s].list, q))] else c.slots)
  }

  function ReleaseBaseline(c: Cache, st: EntityState): Cache {
    match st.baseline case None => c case Some(q) => Release(c, q)
  }

  function ReleaseAll(c: Cache, pending: seq<PendingFrame>): Cache {
    if pending == [] then c
    else Release(ReleaseAll(c, pending[..|pending| - 1]), pending[|pending| - 1].id)
  }

  predicate HasState(c: Cache, k: nat, s: nat) {
    k < |c.clients| && s < |c.clients[k].states|
  }

  function PutState(c: Cache, k: nat, s: nat, st: EntityState): Cache {
    if !HasState(c, k, s) then c
    else c.(clients := c.clients[k := c.clients[k].(states := c.clients[k].states[s := st])])
  }

  /** `clear_client_entity_state`. */
  function ClearState(c: Cache, k: nat, s: nat): (c': Cache)
    ensures c'.clients == if HasState(c, k, s) then PutState(c, k, s, NoState).clients else c.clients
    ensures c' == c.(frames := c'.frames, free := c'.free, slots := c'.slots, clients := c'.clients)
    ensures |c'.slots| == |c.slots|
  {
    if !HasState(c, k, s) then c
    else
      var st := c.clients[k].states[s];
      ReleaseAllFrame(ReleaseBaseline(c, st), st.pending);
      PutState(ReleaseAll(ReleaseBaseline(c, st), st.pending), k, s, NoState)
  }

  lemma {:induction false} ReleaseAllFrame(c: Cache, pending: seq<PendingFrame>)
    ensures var c' := ReleaseAll(c, pending);
            c' == c.(frames := c'.frames, free := c'.free, slots := c'.slots) && |c'.slots| == |c.slots|
  {
    if pending != [] {
      ReleaseAllFrame(c, pending[..|pending| - 1]);
    }
  }

  /** The loop over the first `count` clients that a deactivated or newly occupied slot goes through. */
  function ClearSlot(c: Cache, s: nat, count: nat): (c': Cache)
    ensures |c'.clients| == |c.clients| && |c'.slots| == |c.slots|
    ensures c' == c.(frames := c'.frames, free := c'.free, slots := c'.slots, clients := c'.clients)
  {
    if count == 0 then c else ClearState(ClearSlot(c, s, count - 1), count - 1, s)
  }

  // ------------------------------------------------- acknowledgement, sending

  /** `invalidate_entity_baseline`. */
  function Invalidate(c: Cache, k: nat, s: nat): Cache {
    if !HasState(c, k, s) then c
    else
      var st := c.clients[k].states[s];
      PutState(ReleaseBaseline(c, st), k, s, st.(baseline := None, epoch := st.epoch + 1))
  }

  /** The position of the first pending send of `frame`, or the length. */
  function FindPending(pending: seq<PendingFrame>, frame: nat): (i: nat)
    ensures i <= |pending|
    ensures i < |pending| ==> pending[i].frame == frame
  {
    if pending == [] || pending[0].frame == frame then 0 else 1 + FindPending(pending[1..], frame)
  }

  function Acked(pending: seq<PendingFrame>, frame: nat): seq<PendingFrame> {
    if pending == [] then []
    else Acked(pending[..|pending| - 1], frame) + (if pending[|pending| - 1].frame <= frame then [pending[|pending| - 1]] else [])
  }

  function Unacked(pending: seq<PendingFrame>, frame: nat): seq<PendingFrame> {
    if pending == [] then []
    else Unacked(pending[..|pending| - 1], frame) + (if pending[|pending| - 1].frame <= frame then [] else [pending[|pending| - 1]])
  }

  /** The acknowledged frame becomes the baseline, unless the baseline was invalidated since it was sent. */
  function Promote(c: Cache, k: nat, s: nat, q: nat, eligible: bool): Cache {
    if !HasState(c, k, s) then c
    else
      var st := c.clients[k].states[s];
      if !eligible || st.baseline == Some(q) then c
      else Retain(PutState(ReleaseBaseline(c, st), k, s, st.(baseline := Some(q))), q)
  }

  /** `acknowledge_entity` on the frame pool. */
  function Acknowledge(c: Cache, k: nat, s: nat, frame: nat): Cache {
    if !HasState(c, k, s) then c
    else
      var st := c.clients[k].states[s];
      var i := FindPending(st.pending, frame);
      if i == |st.pending| || !ActiveFrame(c, st.pending[i].id) then c
      else
        var c1 := Promote(c, k, s, st.pending[i].id, st.pending[i].epoch == st.epoch);
        if !HasState(c1, k, s) then c1
        else
          var st1 := c1.clients[k].states[s];
          PutState(ReleaseAll(c1, Acked(st1.pending, frame)), k, s, st1.(pending := Unacked(st1.pending, frame)))
  }

  /** Recording a send: a full send drops the baseline, and only the newest pending sends are kept. */
  function RecordSend(c: Cache, k: nat, s: nat, q: nat, full: bool): Cache {
    var c1 := if full && HasState(c, k, s) && c.clients[k].states[s].baseline.Some? then Invalidate(c, k, s) else c;
    if !HasState(c1, k, s) then c1
    else
      var st := c1.clients[k].states[s];
      var pending := st.pending + [PendingFrame(q, c.frame, st.epoch)];
      var drop := if |pending| > MAX_PENDING then |pending| - MAX_PENDING else 0;
      PutState(ReleaseAll(c1, pending[..drop]), k, s, st.(pending := pending[drop..]))
  }

  // ------------------------------------------------------------- dirty pass

  /** Every slot has its bookkeeping and every client a state for it. */
  ghost predicate Shaped(c: Cache) {
    && c.table.Valid() && |c.slots| == |c.table.slots|
    && forall k | 0 <= k < |c.clients| :: |c.clients[k].states| == |c.table.slots|
  }

  function EmptyCacheSlot(a: Archetype): SlotCache {
    SlotCache([], seq(|a.components| + 1, _ => 1), None, 0, SameFrameCacheable(a))
  }

  lemma {:induction false} ClearSlotShape(c: Cache, s: nat, count: nat)
    requires count <= |c.clients|
    ensures var c' := ClearSlot(c, s, count);
            && |c'.clients| == |c.clients|
            && forall k | 0 <= k < |c.clients| ::
                 c'.clients[k] == if k < count && s < |c.clients[k].states|
                                  then c.clients[k].(states := c.clients[k].states[s := NoState]) else c.clients[k]
  {
    if count > 0 {
      ClearSlotShape(c, s, count - 1);
    }
  }

  lemma ClearSlotShaped(c: Cache, s: nat)
    requires Shaped(c)
    ensures Shaped(ClearSlot(c, s, |c.clients|))
  {
    hide ClearSlot, Table.Valid;
    ClearSlotShape(c, s, |c.clients|);
  }

  /** The table and the slot's bookkeeping as a deactivation leaves them, before the clients are told. */
  function Quieted(c: Cache, index: nat): (c': Cache)
    requires Shaped(c) && index in c.table.byIndex
    ensures Shaped(c') && |c'.slots| == |c.slots|
  {
    DeactivateValid(c.table, index);
    var s := c.table.byIndex[index];
    var quiet := c.slots[s].(list := [], sameFrame := None, sameFrameFrame := 0, cacheable := false);
    c.(table := DeactivateIndex(c.table, index), slots := c.slots[s := quiet])
  }

  /** `deactivate_replicated` with what it does to the slot's cache and to every client. */
  function DeactivatedIndex(c: Cache, index: nat): (c': Cache)
    requires Shaped(c)
    ensures Shaped(c') && c'.table == DeactivateIndex(c.table, index)
    ensures c'.registry == c.registry && c'.frame == c.frame
  {
    if index !in c.table.byIndex then c
    else
      var c1 := Quieted(c, index);
      ClearSlotShaped(c1, c.table.byIndex[index]);
      ClearSlot(c1, c.table.byIndex[index], |c1.clients|)
  }

  function GrownClient(client: Client, count: nat): Client {
    if |client.states| >= count then client
    else client.(states := client.states + seq(count - |client.states|, _ => NoState))
  }

  /** Every client's state vector reaches the slot count. */
  function Grown(clients: seq<Client>, count: nat): (g: seq<Client>)
    ensures |g| == |clients| && forall k | 0 <= k < |clients| :: g[k] == GrownClient(clients[k], count)
  {
    if clients == [] then []
    else Grown(clients[..|clients| - 1], count) + [GrownClient(clients[|clients| - 1], count)]
  }

  /** The slot given to `e`, with fresh bookkeeping and room for it in every client, before the clients are told. */
  function Housed(c: Cache, a: Archetype, e: Entity, archetype: nat): (c': Cache)
    requires Shaped(c) && e.index !in c.table.byIndex
    ensures Shaped(c') && c'.table == Allocate(c.table, e, archetype) && e in c'.table.byEntity && c'.table.byEntity[e] < |c'.slots|
  {
    hide Table.Valid, Allocate, Grown, Shaped, EmptyCacheSlot;
    ShapedParts(c);
    AllocateValid(c.table, e, archetype);
    AllocatesOne(c.table, e, archetype);
    var t := Allocate(c.table, e, archetype);
    HousedFits(c, t, t.byEntity[e], EmptyCacheSlot(a));
    WithSlot(c, t, t.byEntity[e], EmptyCacheSlot(a))
  }

  function WithSlot(c: Cache, t: Table, s: nat, initial: SlotCache): Cache {
    c.(table := t, slots := if s < |c.slots| then c.slots[s := initial] else c.slots + [initial], clients := Grown(c.clients, |t.slots|))
  }

  lemma ShapedParts(c: Cache)
    requires Shaped(c)
    ensures c.table.Valid() && |c.slots| == |c.table.slots|
  {
  }

  lemma HousedFits(c: Cache, t: Table, s: nat, initial: SlotCache)
    requires Shaped(c) && t.Valid() && s <= |c.slots| && |t.slots| == if s < |c.slots| then |c.slots| else |c.slots| + 1
    ensures Shaped(WithSlot(c, t, s, initial)) && s < |WithSlot(c, t, s, initial).slots|
  {
    hide Table.Valid;
  }

  lemma AllocatesOne(t: Table, e: Entity, archetype: nat)
    requires t.Valid()
    ensures var t', s := Allocate(t, e, archetype), Allocate(t, e, archetype).byEntity[e];
            s <= |t.slots| && |t'.slots| == if s < |t.slots| then |t.slots| else |t.slots| + 1
  {
    OnlySlotAllocated(t, e, archetype);
  }

  /** The registration branch of `upsert_replicated`. */
  function Registered(c: Cache, a: Archetype, e: Entity, archetype: nat): (c': Cache)
    requires Shaped(c) && e.index !in c.table.byIndex
    ensures Shaped(c') && c'.table == Allocate(c.table, e, archetype)
    ensures c'.registry == c.registry && c'.frame == c.frame
  {
    var c1 := Housed(c, a, e, archetype);
    ClearSlotShaped(c1, c1.table.byEntity[e]);
    ClearSlot(c1, c1.table.byEntity[e], |c1.clients|)
  }

  /** `upsert_replicated` for a live entity; nothing when it throws. */
  function Upserted(settings: Settings, c: Cache, e: Entity, archetype: nat): (u: Option<Cache>)
    requires Shaped(c)
    ensures u.Some? ==> Shaped(u.value) && u.value.registry == c.registry && u.value.frame == c.frame
    ensures var t := Upsert(c.table, e, true, archetype, |settings.archetypes|);
            u.Some? == t.Done? && (u.Some? ==> u.value.table == t.table)
  {
    DeactivateValid(c.table, e.index);
    if archetype >= |settings.archetypes| then Some(DeactivatedIndex(c, e.index))
    else if e in c.table.byEntity then
      if c.table.slots[c.table.byEntity[e]].archetype != archetype then None else Some(c)
    else Some(Registered(DeactivatedIndex(c, e.index), settings.archetypes[archetype], e, archetype))
  }

  function RemovedAll(c: Cache, removed: seq<Entity>): (c': Cache)
    requires Shaped(c)
    ensures Shaped(c') && c'.table == RemoveAll(c.table, removed)
    ensures c'.registry == c.registry && c'.frame == c.frame
  {
    if removed == [] then c
    else DeactivatedIndex(RemovedAll(c, removed[..|removed| - 1]), removed[|removed| - 1].index)
  }

  function UpsertedAll(settings: Settings, c: Cache, r: Registry, list: seq<Entity>): (u: Option<Cache>)
    requires Shaped(c)
    ensures u.Some? ==> Shaped(u.value) && u.value.registry == c.registry && u.value.frame == c.frame
    ensures var t := UpsertAll(c.table, r, list, |settings.archetypes|);
            u.Some? == t.Some? && (u.Some? ==> u.value.table == t.value)
  {
    if list == [] then Some(c)
    else
      var e := list[|list| - 1];
      match UpsertedAll(settings, c, r, list[..|list| - 1])
      case None => None
      case Some(before) =>
        if ReplicatedAs(r, e).None? then Some(before) else Upserted(settings, before, e, ReplicatedAs(r, e).value)
  }

  // -------------------------------------------------------- dirty generations

  function Bump(slots: seq<SlotCache>, s: nat, g: nat): seq<SlotCache> {
    if s >= |slots| || g >= |slots[s].generations| then slots
    else slots[s := slots[s].(generations := slots[s].generations[g := slots[s].generations[g] + 1])]
  }

  /** The generation of component `c` in the archetype of slot `s`, if it has one. */
  function ComponentIndex(components: seq<nat>, c: nat): Option<nat> {
    if components == [] then None
    else
      match ComponentIndex(components[..|components| - 1], c)
      case Some(i) => Some(i)
      case None => if components[|components| - 1] == c then Some(|components| - 1) else None
  }

  /** `mark_dirty_component`. */
  function MarkComponent(settings: Settings, t: Table, slots: seq<SlotCache>, s: nat, c: nat): seq<SlotCache> {
    if !t.Active(s) || t.slots[s].archetype >= |settings.archetypes| then slots
    else
      match ComponentIndex(settings.archetypes[t.slots[s].archetype].components, c)
      case None => slots
      case Some(i) => Bump(slots, s, i + 1)
  }

  function MarkComponentSlots(settings: Settings, t: Table, slots: seq<SlotCache>, visits: seq<nat>, c: nat): seq<SlotCache> {
    if visits == [] then slots
    else MarkComponent(settings, t, MarkComponentSlots(settings, t, slots, visits[..|visits| - 1], c), visits[|visits| - 1], c)
  }

  /** The component loop of `capture_dirty_generations`. */
  function MarkComponents(settings: Settings, t: Table, slots: seq<SlotCache>, d: DirtyView, tracked: seq<nat>): seq<SlotCache> {
    if tracked == [] then slots
    else
      var c := tracked[|tracked| - 1];
      MarkComponentSlots(settings, t, MarkComponents(settings, t, slots, d, tracked[..|tracked| - 1]),
                         ByEntity(t, d.Component(c).dirty) + ByIndex(t, d.Component(c).removed), c)
  }

  /** `mark_dirty_tags` for every visited slot whose archetype has the tag. */
  function MarkTagSlots(settings: Settings, t: Table, slots: seq<SlotCache>, visits: seq<nat>, tag: nat): seq<SlotCache> {
    if visits == [] then slots
    else
      var before := MarkTagSlots(settings, t, slots, visits[..|visits| - 1], tag);
      var s := visits[|visits| - 1];
      if t.Active(s) && t.slots[s].archetype < |settings.archetypes| && tag in settings.archetypes[t.slots[s].archetype].tags
      then Bump(before, s, 0) else before
  }

  function MarkTags(settings: Settings, t: Table, slots: seq<SlotCache>, d: DirtyView, tags: seq<nat>): seq<SlotCache> {
    if tags == [] then slots
    else
      var tag := tags[|tags| - 1];
      MarkTagSlots(settings, t, MarkTags(settings, t, slots, d, tags[..|tags| - 1]),
                   ByEntity(t, d.Tag(tag).dirty) + ByIndex(t, d.Tag(tag).removed), tag)
  }

  function MarkArchetypeTags(settings: Settings, t: Table, slots: seq<SlotCache>, d: DirtyView, archetypes: seq<Archetype>): seq<SlotCache> {
    if archetypes == [] then slots
    else MarkTags(settings, t, MarkArchetypeTags(settings, t, slots, d, archetypes[..|archetypes| - 1]), d,
                  archetypes[|archetypes| - 1].tags)
  }

  /** The restricted-audience part of `mark_owner_visibility_dirty`, up to component `count`. */
  function MarkRestricted(a: Archetype, slots: seq<SlotCache>, s: nat, count: nat): seq<SlotCache>
    requires count <= |a.componentAudience|
  {
    if count == 0 then (if exists x <- a.tagAudience :: x != All then Bump(slots, s, 0) else slots)
    else
      var before := MarkRestricted(a, slots, s, count - 1);
      if a.componentAudience[count - 1] != All then Bump(before, s, count) else before
  }

  function MarkOwners(settings: Settings, t: Table, slots: seq<SlotCache>, visits: seq<nat>): seq<SlotCache> {
    if visits == [] then slots
    else
      var before := MarkOwners(settings, t, slots, visits[..|visits| - 1]);
      var s := visits[|visits| - 1];
      if t.Active(s) && t.slots[s].archetype < |settings.archetypes| then
        var a := settings.archetypes[t.slots[s].archetype];
        MarkRestricted(a, before, s, |a.componentAudience|)
      else before
  }

  /** `capture_dirty_generations`. */
  function CaptureGenerations(settings: Settings, t: Table, slots: seq<SlotCache>, d: DirtyView): seq<SlotCache> {
    MarkOwners(settings, t,
               MarkComponents(settings, t, MarkArchetypeTags(settings, t, slots, d, settings.archetypes), d, settings.tracked),
               ByEntity(t, d.owner.dirty) + ByIndex(t, d.owner.removed))
  }

  /** One dirty pass over a running server: rediscovery, then the generations; nothing when rediscovery throws. */
  function Capture(settings: Settings, c: Cache, r: Registry, d: DirtyView, frame: nat): (u: Option<Cache>)
    requires Shaped(c)
  {
    var c0 := c.(table := c.table.(destroyed := []));
    match UpsertedAll(settings, RemovedAll(c0, d.replicated.removed), r, d.replicated.added + d.replicated.dirty)
    case None => None
    case Some(c1) => Some(c1.(registry := r, frame := frame, slots := CaptureGenerations(settings, c1.table, c1.slots, d)))
  }

  // ------------------------------------------------------------------ search

  /** The client's baseline, when it is a live frame of the slot's archetype. */
  function UsableBaseline(c: Cache, k: nat, s: nat): Option<QuantizedFrame> {
    if HasState(c, k, s) && c.clients[k].states[s].baseline.Some?
       && ActiveFrame(c, c.clients[k].states[s].baseline.value)
       && s < |c.table.slots|
       && c.frames[c.clients[k].states[s].baseline.value].archetype == c.table.slots[s].archetype
    then Some(c.frames[c.clients[k].states[s].baseline.value])
    else None
  }

  function GenerationAt(generations: seq<nat>, i: nat): nat {
    if i < |generations| then generations[i] else 0
  }

  /** One component: copied from the baseline when its generation is unchanged, quantised otherwise. */
  function ReusedComponent(a: Archetype, c: Cache, k: nat, s: nat, i: nat): Option<Bytes>
    requires |a.componentAudience| == |a.components| == |a.ops| && i < |a.components|
    requires s < |c.table.slots| && s < |c.slots| && k < |c.clients|
  {
    match VisibleComponent(a, c.registry, c.table.slots[s].entity, c.clients[k].id, i)
    case None => None
    case Some(v) =>
      var b := UsableBaseline(c, k, s);
      if b.Some? && i + 1 < |b.value.generations| && i < |b.value.data.components|
         && b.value.generations[i + 1] == GenerationAt(c.slots[s].generations, i + 1)
         && b.value.data.components[i].Some?
      then b.value.data.components[i]
      else Some(a.ops[i].quantize(v))
  }

  function ScratchData(a: Archetype, c: Cache, k: nat, s: nat): FrameData
    requires |a.tagAudience| == |a.tags| && |a.componentAudience| == |a.components| == |a.ops|
    requires s < |c.table.slots| && s < |c.slots| && k < |c.clients|
  {
    FrameData(VisibleTags(a, c.registry, c.table.slots[s].entity, c.clients[k].id),
              seq(|a.components|, i requires 0 <= i < |a.components| => ReusedComponent(a, c, k, s, i)))
  }

  function ScratchGenerations(a: Archetype, data: FrameData, generations: seq<nat>): seq<nat>
    requires |data.components| == |a.components|
  {
    [if a.HasTagSlot() then GenerationAt(generations, 0) else 0]
    + seq(|a.components|, i requires 0 <= i < |a.components| =>
        if data.components[i].Some? then GenerationAt(generations, i + 1) else 0)
  }

  predicate NothingVisible(a: Archetype, data: FrameData) {
    (forall x <- data.components :: x.None?) && !a.HasTagSlot()
  }

  predicate SameFrameHit(c: Cache, s: nat) {
    s < |c.slots| && s < |c.table.slots| && c.slots[s].cacheable && c.slots[s].sameFrameFrame == c.frame && c.slots[s].sameFrame.Some?
    && (var q := c.slots[s].sameFrame.value;
        ActiveFrame(c, q) && c.frames[q].slot == s && c.frames[q].frame == c.frame && c.frames[q].archetype == c.table.slots[s].archetype)
  }

  /** A listed frame that may stand for the scratch one. */
  predicate Duplicate(c: Cache, s: nat, q: nat, data: FrameData, generations: seq<nat>) {
    ActiveFrame(c, q) && s < |c.table.slots| && c.frames[q].slot == s && c.frames[q].frame == c.frame
    && c.frames[q].archetype == c.table.slots[s].archetype
    && c.frames[q].data == data && c.frames[q].generations == generations
  }

  /** The dedupe search over the slot's list. */
  function FindDuplicate(c: Cache, s: nat, list: seq<nat>, data: FrameData, generations: seq<nat>): (q: Option<nat>)
    ensures q.Some? ==> q.value in list && Duplicate(c, s, q.value, data, generations)
  {
    if list == [] then None
    else if Duplicate(c, s, list[0], data, generations) then Some(list[0])
    else FindDuplicate(c, s, list[1..], data, generations)
  }

  /** Storing a new frame: a freed place first, then a new one. */
  function Store(c: Cache, s: nat, data: FrameData, generations: seq<nat>): (Cache, nat)
    requires s < |c.table.slots| && s < |c.slots|
    requires forall i | 0 <= i < |c.free| :: c.free[i] < |c.frames|
  {
    var reuse := c.free != [];
    var q := if reuse then c.free[|c.free| - 1] else |c.frames|;
    var frame := QuantizedFrame(s, c.frame, c.table.slots[s].archetype, 0, true, data, generations);
    var slot := c.slots[s].(list := c.slots[s].list + [q]);
    (c.(frames := if reuse then c.frames[q := frame] else c.frames + [frame],
        free := if reuse then c.free[..|c.free| - 1] else c.free,
        slots := c.slots[s := if slot.cacheable then slot.(sameFrame := Some(q), sameFrameFrame := c.frame) else slot]),
     q)
  }

  /** `find_or_create_quantized_frame` at the server's current frame: the frame's id, or nothing. */
  function FindOrCreate(settings: Settings, c: Cache, k: nat, s: nat): (Cache, Option<nat>)
    requires settings.WellFormed() && k < |c.clients| && |c.slots| == |c.table.slots|
    requires forall i | 0 <= i < |c.free| :: c.free[i] < |c.frames|
    requires s < |c.table.slots| ==> c.table.slots[s].archetype < |settings.archetypes|
  {
    if s >= |c.table.slots| then (c, None)
    else if SameFrameHit(c, s) then (c, c.slots[s].sameFrame)
    else
      var a := settings.archetypes[c.table.slots[s].archetype];
      var data := ScratchData(a, c, k, s);
      var generations := ScratchGenerations(a, data, c.slots[s].generations);
      if NothingVisible(a, data) then (c, None)
      else
        match FindDuplicate(c, s, c.slots[s].list, data, generations)
        case Some(q) => (c, Some(q))
        case None => var (c', q) := Store(c, s, data, generations); (c', Some(q))
  }
}
