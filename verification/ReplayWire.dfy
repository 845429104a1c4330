/**
 The replay frame format: what a frame's payload holds, how it is laid out in
 bits, and how the streamer reads it back into a session registry.
 */
module ReplayWire {
  import opened Wrappers
  import opened Bits
  import opened World

  datatype FrameKind = Full | Delta

  datatype ReplayFrame = ReplayFrame(frame: nat, kind: FrameKind, payload: BitString)

  /** What is replicated of one slot. */
  datatype SlotView = SlotView(archetype: nat, tags: seq<bool>, components: seq<Option<Bytes>>)

  datatype ComponentRecord = ComponentRecord(index: nat, payload: BitString)

  /**
   One item of a payload.  `Header` is the header of a slot that then failed
   to quantise: its bits are written but it is not counted as a record.
   */
  datatype Item =
    | Destroy(id: nat)
    | Header(id: nat)
    | Record(id: nat, archetype: nat, tagMask: BitString, presentMask: BitString, components: seq<ComponentRecord>)

  const MAX_COUNT := 65535

  function EncodeComponent(c: ComponentRecord): BitString {
    Encode(c.index, 16) + (Encode(if |c.payload| > MAX_COUNT then MAX_COUNT else |c.payload|, 16) + c.payload)
  }

  function EncodeComponents(cs: seq<ComponentRecord>): BitString {
    if cs == [] then [] else EncodeComponents(cs[..|cs| - 1]) + EncodeComponent(cs[|cs| - 1])
  }

  function EncodeBody(archetype: nat, masks: BitString, components: seq<ComponentRecord>): BitString {
    Encode(archetype, 32) + (masks + (Encode(|components| % 0x10000, 16) + EncodeComponents(components)))
  }

  function EncodeItem(item: Item): BitString {
    match item
    case Destroy(id) => [true] + Encode(id, 32)
    case Header(id) => [false] + Encode(id, 32)
    case Record(id, archetype, tagMask, presentMask, components) =>
      [false] + Encode(id, 32) + EncodeBody(archetype, tagMask + presentMask, components)
  }

  function EncodeItems(items: seq<Item>): BitString {
    if items == [] then [] else EncodeItems(items[..|items| - 1]) + EncodeItem(items[|items| - 1])
  }

  /** The record count of a payload. */
  function Counted(items: seq<Item>): nat {
    if items == [] then 0
    else Counted(items[..|items| - 1]) + (if items[|items| - 1].Header? then 0 else 1)
  }

  /** A frame payload without cues: record count, items, and the bit that ends the cue list. */
  function EncodePayload(items: seq<Item>): BitString {
    Encode(Counted(items), 16) + EncodeItems(items) + [false]
  }

  // ---------------------------------------------------------------- session

  datatype SessionEntity = SessionEntity(archetype: Option<nat>, tags: set<nat>, components: map<nat, Bytes>)

  /** The replay registry and the session's map from replay id to entity handle. */
  datatype Session = Session(registry: map<nat, SessionEntity>, next: nat, entities: map<nat, nat>) {
    /** Every replay id has its own live entity of a known archetype. */
    ghost predicate Valid(settings: Settings) {
      && (forall h <- registry :: h < next)
      && (forall id <- entities ::
            && id >= 1 && entities[id] in registry
            && registry[entities[id]].archetype.Some?
            && registry[entities[id]].archetype.value < |settings.archetypes|)
      && (forall i, j | i in entities && j in entities && i != j :: entities[i] != entities[j])
    }

    /** `entity_for_replay_id`: the mapped live entity, or a fresh one. */
    function Ensure(id: nat): Session {
      if id in entities && entities[id] in registry then this
      else Session(registry[next := SessionEntity(None, {}, map[])], next + 1, entities[id := next])
    }

    /** `destroy_replay_entity`. */
    function Remove(id: nat): Session {
      if id in entities then this.(registry := registry - {entities[id]}, entities := entities - {id}) else this
    }

    function Put(h: nat, e: SessionEntity): Session {
      this.(registry := registry[h := e])
    }
  }

  /** `apply_tags`: the archetype's tags follow the mask, other tags stay. */
  function ApplyTags(a: Archetype, tags: set<nat>, mask: BitString): set<nat>
    requires |a.tags| <= |mask|
  {
    (set t <- tags | t !in a.tags) + (set i | 0 <= i < |a.tags| && mask[i] :: a.tags[i])
  }

  /** The removal loop of `apply_components`. */
  function DropAbsent(a: Archetype, components: map<nat, Bytes>, present: BitString): map<nat, Bytes>
    requires |a.components| <= |present|
  {
    map c <- components | forall i | 0 <= i < |a.components| && a.components[i] == c :: present[i] :: components[c]
  }

  datatype ComponentCursor = ComponentCursor(ok: bool, rest: BitString, components: map<nat, Bytes>)

  function ReadComponent(a: Archetype, c: ComponentCursor): ComponentCursor
    requires |a.components| == |a.ops|
  {
    var failed := c.(ok := false);
    match ReadField(c.rest, 16)
    case None => failed
    case Some((index, rest1)) =>
      match ReadField(rest1, 16)
      case None => failed
      case Some((width, rest2)) =>
        match Read(rest2, width)
        case None => failed
        case Some((payload, rest3)) =>
          if index >= |a.components| then c.(rest := rest3)
          else
            match a.ops[index].deserialize(None, payload)
            case None => failed
            case Some((value, _)) => c.(rest := rest3, components := c.components[a.components[index] := value])
  }

  /** The component loop of `apply_components` after `count` rounds. */
  function ReadComponents(a: Archetype, c: ComponentCursor, count: nat): ComponentCursor
    requires |a.components| == |a.ops|
  {
    if count == 0 then c
    else
      var before := ReadComponents(a, c, count - 1);
      if before.ok then ReadComponent(a, before) else before
  }

  datatype Cursor = Cursor(ok: bool, rest: BitString, session: Session, listed: set<nat>)

  /** The part of a record after its header. */
  function ReadBody(settings: Settings, c: Cursor, id: nat): Cursor
    requires settings.WellFormed()
  {
    var failed := c.(ok := false);
    match ReadField(c.rest, 32)
    case None => failed
    case Some((archetype, rest1)) =>
      match Read(rest1, 64)
      case None => failed
      case Some((tagMask, rest2)) =>
        match Read(rest2, 64)
        case None => failed
        case Some((present, rest3)) =>
          if archetype >= |settings.archetypes| || id == 0 then failed
          else ReadEntity(settings, c.(rest := rest3), id, archetype, tagMask, present)
  }

  /** Applying one entity record to the session. */
  function ReadEntity(settings: Settings, c: Cursor, id: nat, archetype: nat, tagMask: BitString, present: BitString): Cursor
    requires settings.WellFormed() && archetype < |settings.archetypes| && |tagMask| == |present| == 64
  {
    var a := settings.archetypes[archetype];
    var s := c.session.Ensure(id);
    var h := s.entities[id];
    var tagged := s.registry[h].(archetype := Some(archetype), tags := ApplyTags(a, s.registry[h].tags, tagMask));
    match ReadField(c.rest, 16)
    case None => c.(ok := false, session := s.Put(h, tagged))
    case Some((count, rest)) =>
      var read := ReadComponents(a, ComponentCursor(true, rest, tagged.components), count);
      if !read.ok then c.(ok := false, session := s.Put(h, tagged.(components := read.components)))
      else c.(rest := read.rest, session := s.Put(h, tagged.(components := DropAbsent(a, read.components, present))))
  }

  /** One round of the record loop of `apply_frame`. */
  function ReadRecord(settings: Settings, kind: FrameKind, c: Cursor): Cursor
    requires settings.WellFormed()
  {
    var failed := c.(ok := false);
    match Read(c.rest, 1)
    case None => failed
    case Some((destroy, rest1)) =>
      match ReadField(rest1, 32)
      case None => failed
      case Some((id, rest2)) =>
        if destroy[0] then c.(rest := rest2, session := c.session.Remove(id))
        else ReadBody(settings, c.(rest := rest2, listed := if kind.Full? then c.listed + {id} else c.listed), id)
  }

  /** The record loop after `count` rounds. */
  function ReadRecords(settings: Settings, kind: FrameKind, c: Cursor, count: nat): Cursor
    requires settings.WellFormed()
  {
    if count == 0 then c
    else
      var before := ReadRecords(settings, kind, c, count - 1);
      if before.ok then ReadRecord(settings, kind, before) else before
  }

  /** The stale pass of a Full frame: every mapped id that the frame did not list is destroyed. */
  function DropStale(s: Session, listed: set<nat>): Session {
    var stale := set id <- s.entities | id !in listed;
    s.(registry := s.registry - (set id <- stale :: s.entities[id]), entities := s.entities - stale)
  }

  datatype Applied = Applied(ok: bool, session: Session)

  /** `apply_frame`; with `cues` the end of the (empty) cue list is checked as well. */
  function ApplyPayload(settings: Settings, kind: FrameKind, payload: BitString, s: Session, cues: bool): Applied
    requires settings.WellFormed()
  {
    match ReadField(payload, 16)
    case None => Applied(false, s)
    case Some((count, rest)) =>
      var c := ReadRecords(settings, kind, Cursor(true, rest, s, {}), count);
      if !c.ok then Applied(false, c.session)
      else
        var s' := if kind.Full? then DropStale(c.session, c.listed) else c.session;
        Applied(cues ==> c.rest != [] && !c.rest[0], s')
  }
}
