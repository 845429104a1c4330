/**
 The entity registry as the synchronisation layer sees it: component values,
 tags, replication markers and owners per live entity; the archetypes that say
 what of an entity is replicated; and the dirty view a frame reports.
 */
module World {
  import opened Wrappers
  import opened Bits
  import opened SlotTable

  type Bytes = seq<bv8>

  /** One component's operations.  `deserialize` returns the value and the unread bits. */
  datatype ComponentOps = ComponentOps(
    size: nat,
    quantize: int -> Bytes,
    serialize: (Option<Bytes>, Bytes) -> BitString,
    deserialize: (Option<Bytes>, BitString) -> Option<(Bytes, BitString)>)
  {
    /** What a component's traits must provide: quantised values of a fixed size that survive the wire. */
    ghost predicate Lawful() {
      && size > 0
      && (forall v :: |quantize(v)| == size)
      && (forall prev, cur, rest | |cur| == size ::
            deserialize(prev, serialize(prev, cur) + rest) == Some((cur, rest)))
      && (forall cur | |cur| == size :: 0 < |serialize(None, cur)| < 0x10000)
    }
  }

  datatype Audience = Owner | All | EveryoneExceptOwner

  datatype Archetype = Archetype(
    tags: seq<nat>,
    tagAudience: seq<Audience>,
    components: seq<nat>,
    componentAudience: seq<Audience>,
    ops: seq<ComponentOps>)
  {
    predicate HasTagSlot() {
      tags != []
    }

    /** What `define_archetype` accepts. */
    ghost predicate WellFormed() {
      && |tags| == |tagAudience| <= 64
      && |components| == |componentAudience| == |ops| <= 63
      && (forall i, j | 0 <= i < j < |tags| :: tags[i] != tags[j])
      && (forall i, j | 0 <= i < j < |components| :: components[i] != components[j])
      && (forall i | 0 <= i < |ops| :: ops[i].Lawful())
    }
  }

  /** `tracked` holds the keys of `SyncSettings::component_ops`, the components whose changes are observed. */
  datatype Settings = Settings(archetypes: seq<Archetype>, tracked: seq<nat>) {
    ghost predicate WellFormed() {
      |archetypes| < 0x1_0000_0000 && forall i | 0 <= i < |archetypes| :: archetypes[i].WellFormed()
    }

    /** Every replicated component is one whose changes are observed. */
    ghost predicate Tracks() {
      forall i, j | 0 <= i < |archetypes| && 0 <= j < |archetypes[i].components| ::
        archetypes[i].components[j] in tracked
    }
  }

  datatype EntityData = EntityData(
    replicated: Option<nat>,
    tags: set<nat>,
    components: map<nat, int>,
    owner: Option<nat>)

  /** The live entities.  No two live entities share an index. */
  type Registry = map<Entity, EntityData>

  ghost predicate DistinctIndices(r: Registry) {
    forall e, f | e in r && f in r && e.index == f.index :: e == f
  }

  function ReplicatedAs(r: Registry, e: Entity): Option<nat> {
    if e in r then r[e].replicated else None
  }

  predicate HasTag(r: Registry, e: Entity, tag: nat) {
    e in r && tag in r[e].tags
  }

  function ComponentOf(r: Registry, e: Entity, c: nat): Option<int> {
    if e in r && c in r[e].components then Some(r[e].components[c]) else None
  }

  function OwnerOf(r: Registry, e: Entity): Option<nat> {
    if e in r then r[e].owner else None
  }

  /** The entities a dirty view reports for one component or tag type. */
  datatype Touched = Touched(dirty: seq<Entity>, added: seq<Entity>, removed: seq<Entity>)

  datatype DirtyView = DirtyView(
    replicated: Touched,
    tags: map<nat, Touched>,
    components: map<nat, Touched>,
    owner: Touched)
  {
    function Tag(t: nat): Touched {
      if t in tags then tags[t] else Touched([], [], [])
    }
    function Component(c: nat): Touched {
      if c in components then components[c] else Touched([], [], [])
    }
  }

  /** A change that leaves the value present is reported as dirty or added, one that leaves it absent as removed. */
  predicate Reports(t: Touched, e: Entity, present: bool) {
    if present then e in t.dirty || e in t.added else e in t.removed
  }

  /**
   The registry's contract for a dirty view `d` between two states: every
   change since the last view is reported, and an index whose replication
   marker was removed and is in use again has its new holder reported.
   */
  ghost predicate Faithful(r: Registry, d: DirtyView, r': Registry) {
    && (forall e | ReplicatedAs(r, e) != ReplicatedAs(r', e) ::
          Reports(d.replicated, e, ReplicatedAs(r', e).Some?))
    && (forall gone, e | gone in d.replicated.removed && e in r' && e.index == gone.index && r'[e].replicated.Some? ::
          e in d.replicated.dirty || e in d.replicated.added)
    && (forall e, t | HasTag(r, e, t) != HasTag(r', e, t) :: Reports(d.Tag(t), e, HasTag(r', e, t)))
    && (forall e, c | ComponentOf(r, e, c) != ComponentOf(r', e, c) ::
          Reports(d.Component(c), e, ComponentOf(r', e, c).Some?))
    && (forall e, c | ComponentOf(r, e, c).Some? && ComponentOf(r', e, c).Some? && ComponentOf(r, e, c) != ComponentOf(r', e, c) ::
          e in d.Component(c).dirty || e in d.Component(c).removed)
  }
}
