/**
 The replay writer: which slots a dirty frame marks, when a frame is written,
 and what is written into it.
 */
module ReplayWriting {
  import opened Wrappers
  import opened Bits
  import opened SlotTable
  import opened World
  import opened ReplayWire

  /** What a listener is given: the registry and slot table after rediscovery, and the dirty view. */
  datatype ServerFrame = ServerFrame(frame: nat, registry: Registry, table: Table, dirty: DirtyView)

  datatype Options = Options(fullInterval: nat, writeInterval: nat)

  // ---------------------------------------------------------- dirty marking

  function ByEntity(t: Table, list: seq<Entity>): seq<nat> {
    if list == [] then []
    else
      var e := list[|list| - 1];
      ByEntity(t, list[..|list| - 1]) + (if e in t.byEntity then [t.byEntity[e]] else [])
  }

  function ByIndex(t: Table, list: seq<Entity>): seq<nat> {
    if list == [] then []
    else
      var i := list[|list| - 1].index;
      ByIndex(t, list[..|list| - 1]) + (if i in t.byIndex then [t.byIndex[i]] else [])
  }

  function TouchedSlots(t: Table, x: Touched): seq<nat> {
    ByEntity(t, x.dirty) + ByEntity(t, x.added) + ByIndex(t, x.removed)
  }

  function TagSlots(t: Table, d: DirtyView, tags: seq<nat>): seq<nat> {
    if tags == [] then []
    else TagSlots(t, d, tags[..|tags| - 1]) + TouchedSlots(t, d.Tag(tags[|tags| - 1]))
  }

  function ArchetypeSlots(t: Table, d: DirtyView, archetypes: seq<Archetype>): seq<nat> {
    if archetypes == [] then []
    else ArchetypeSlots(t, d, archetypes[..|archetypes| - 1]) + TagSlots(t, d, archetypes[|archetypes| - 1].tags)
  }

  function ComponentSlots(t: Table, d: DirtyView, tracked: seq<nat>): seq<nat> {
    if tracked == [] then []
    else ComponentSlots(t, d, tracked[..|tracked| - 1]) + TouchedSlots(t, d.Component(tracked[|tracked| - 1]))
  }

  /** The slots `each_dirty_replicated_slot` visits, in order. */
  function DirtySlots(settings: Settings, t: Table, d: DirtyView): seq<nat> {
    TouchedSlots(t, d.replicated) + ArchetypeSlots(t, d, settings.archetypes)
    + ComponentSlots(t, d, settings.tracked) + TouchedSlots(t, d.owner)
  }

  // --------------------------------------------------------------- contents

  /** The slot's entity is alive and carries the replication marker. */
  predicate Replicable(f: ServerFrame, s: nat) {
    f.table.Active(s) && ReplicatedAs(f.registry, f.table.slots[s].entity).Some?
  }

  function TagsOf(a: Archetype, r: Registry, e: Entity): seq<bool> {
    seq(|a.tags|, i requires 0 <= i < |a.tags| => HasTag(r, e, a.tags[i]))
  }

  function QuantizedComponent(a: Archetype, r: Registry, e: Entity, i: nat): Option<Bytes>
    requires i < |a.components| == |a.ops|
  {
    match ComponentOf(r, e, a.components[i])
    case None => None
    case Some(v) => Some(a.ops[i].quantize(v))
  }

  function ComponentsOf(a: Archetype, r: Registry, e: Entity): seq<Option<Bytes>>
    requires |a.components| == |a.ops|
  {
    seq(|a.components|, i requires 0 <= i < |a.components| => QuantizedComponent(a, r, e, i))
  }

  function PresentMask(components: seq<Option<Bytes>>): seq<bool> {
    seq(|components|, i requires 0 <= i < |components| => components[i].Some?)
  }

  /** A mask in a 64-bit word. */
  function Word(bits: seq<bool>): BitString {
    if |bits| >= 64 then bits[..64] else bits + seq(64 - |bits|, _ => false)
  }

  function ComponentRecords(a: Archetype, components: seq<Option<Bytes>>): seq<ComponentRecord>
    requires |components| <= |a.ops|
  {
    if components == [] then []
    else
      var i := |components| - 1;
      ComponentRecords(a, components[..i])
      + (if components[i].Some? then [ComponentRecord(i, a.ops[i].serialize(None, components[i].value))] else [])
  }

  /** `quantize_replay_entity`: nothing for an entity with no present component and no tag slot. */
  function Quantize(settings: Settings, r: Registry, slot: Slot): Option<SlotView>
    requires settings.WellFormed()
  {
    if slot.archetype >= |settings.archetypes| then None
    else
      var a := settings.archetypes[slot.archetype];
      var view := SlotView(slot.archetype, TagsOf(a, r, slot.entity), ComponentsOf(a, r, slot.entity));
      if true !in PresentMask(view.components) && !a.HasTagSlot() then None else Some(view)
  }

  /** The item written for a slot that is neither skipped nor beyond the count limit. */
  function ItemFor(settings: Settings, f: ServerFrame, s: nat): Item
    requires settings.WellFormed()
  {
    if !Replicable(f, s) then Destroy(s + 1)
    else
      match Quantize(settings, f.registry, f.table.slots[s])
      case None => Header(s + 1)
      case Some(view) =>
        Record(s + 1, view.archetype, Word(view.tags), Word(PresentMask(view.components)),
               ComponentRecords(settings.archetypes[view.archetype], view.components))
  }

  /** The destroy records: each destroyed slot once, up to the count limit. */
  function DestroyItems(destroyed: seq<nat>): seq<Item> {
    if destroyed == [] then []
    else
      var before := DestroyItems(destroyed[..|destroyed| - 1]);
      var item := Destroy(destroyed[|destroyed| - 1] + 1);
      if |before| == MAX_COUNT || item in before then before else before + [item]
  }

  /** The slot loop, continuing after the destroy records `gone`. */
  function SlotItems(settings: Settings, f: ServerFrame, full: bool, gone: seq<Item>, slots: seq<nat>): seq<Item>
    requires settings.WellFormed()
  {
    if slots == [] then gone
    else
      var before := SlotItems(settings, f, full, gone, slots[..|slots| - 1]);
      var s := slots[|slots| - 1];
      if s >= |f.table.slots| || (!Replicable(f, s) && (full || Destroy(s + 1) in gone)) || Counted(before) == MAX_COUNT
      then before
      else before + [ItemFor(settings, f, s)]
  }

  /** The replicable slots in slot order. */
  function ReplicableSlots(f: ServerFrame, count: nat): seq<nat> {
    if count == 0 then []
    else ReplicableSlots(f, count - 1) + (if Replicable(f, count - 1) then [count - 1] else [])
  }

  function FrameItems(settings: Settings, f: ServerFrame, full: bool, pending: seq<nat>, destroyed: seq<nat>): seq<Item>
    requires settings.WellFormed()
  {
    if full then SlotItems(settings, f, true, [], ReplicableSlots(f, |f.table.slots|))
    else SlotItems(settings, f, false, DestroyItems(destroyed), pending)
  }

  // ------------------------------------------------------------------ state

  datatype WriterState = WriterState(
    pending: seq<nat>,
    pendingDestroyed: seq<nat>,
    hasWritten: bool,
    lastFull: nat)

  const Fresh := WriterState([], [], false, 0)

  /** The marking callback applied to each visited slot. */
  function Mark(pending: seq<nat>, marks: seq<nat>, slotCount: nat): seq<nat> {
    if marks == [] then pending
    else
      var before := Mark(pending, marks[..|marks| - 1], slotCount);
      var s := marks[|marks| - 1];
      if s >= slotCount || s in before then before else before + [s]
  }

  function Accumulate(settings: Settings, ws: WriterState, f: ServerFrame): WriterState {
    ws.(pending := Mark(ws.pending, DirtySlots(settings, f.table, f.dirty), |f.table.slots|),
        pendingDestroyed := ws.pendingDestroyed + f.table.destroyed)
  }

  predicate WriteDue(options: Options, ws: WriterState, frame: nat) {
    !ws.hasWritten || options.writeInterval <= 1 || frame % options.writeInterval == 0
  }

  /** The 32-bit difference of two frame numbers. */
  function FrameDistance(frame: nat, earlier: nat): nat {
    (frame - earlier) % 0x1_0000_0000
  }

  predicate FullDue(options: Options, ws: WriterState, frame: nat) {
    !ws.hasWritten || (options.fullInterval != 0 && FrameDistance(frame, ws.lastFull) >= options.fullInterval)
  }

  /** `on_server_registry_dirty_frame`: the state afterwards and the frame handed to `write`, if any. */
  function Observe(settings: Settings, options: Options, ws: WriterState, f: ServerFrame): (WriterState, Option<ReplayFrame>)
    requires settings.WellFormed()
  {
    var acc := Accumulate(settings, ws, f);
    if !WriteDue(options, ws, f.frame) then (acc, None)
    else
      var full := FullDue(options, ws, f.frame);
      var items := FrameItems(settings, f, full, acc.pending, acc.pendingDestroyed);
      (WriterState([], [], true, if full then f.frame else ws.lastFull),
       Some(ReplayFrame(f.frame, if full then Full else Delta, EncodePayload(items))))
  }
}
