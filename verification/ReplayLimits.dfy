/**
 Exactly when a written frame, Full or Delta, is enough: what a slot that does
 not quantise and a slot deactivated between passes do to a recording.
 */
module ReplayLimits {
  import opened Wrappers
  import opened Bits
  import opened SlotTable
  import opened World
  import opened ReplayWire
  import opened ReplayDecoding
  import opened ReplayWriting
  import opened ReplayCoverage
  import opened ReplaySession
  import opened ReplayFrames

  // ------------------------------------------------------------ Full frames

  /** Whatever the bits, `count` rounds list at most `count` ids. */
  lemma {:induction false} ListedBounded(settings: Settings, kind: FrameKind, c: Cursor, count: nat)
    requires settings.WellFormed()
    ensures |ReadRecords(settings, kind, c, count).listed| <= |c.listed| + count
  {
    if count > 0 {
      ListedBounded(settings, kind, c, count - 1);
      hide ReadEntity;
      ListedOnce(settings, kind, ReadRecords(settings, kind, c, count - 1));
    }
  }

  lemma ListedOnce(settings: Settings, kind: FrameKind, c: Cursor)
    requires settings.WellFormed()
    ensures |ReadRecord(settings, kind, c).listed| <= |c.listed| + 1
  {
  }

  /** A slot that does not quantise takes a place in the list but not in the count. */
  lemma {:induction false} HeadersUncounted(settings: Settings, f: ServerFrame, slots: seq<nat>)
    requires settings.WellFormed()
    ensures Counted(SlotItems(settings, f, true, [], slots)) <= MAX_COUNT
    ensures Counted(SlotItems(settings, f, true, [], slots)) <= |slots|
    ensures (exists s <- slots :: s < |f.table.slots| && Replicable(f, s) && Quantize(settings, f.registry, f.table.slots[s]).None?) ==>
              Counted(SlotItems(settings, f, true, [], slots)) < |slots|
  {
    if slots != [] {
      var init, s := slots[..|slots| - 1], slots[|slots| - 1];
      assert slots == init + [s];
      HeadersUncounted(settings, f, init);
      var before := SlotItems(settings, f, true, [], init);
      assert (before + [ItemFor(settings, f, s)])[..|before|] == before;
      if exists x <- init :: x < |f.table.slots| && Replicable(f, x) && Quantize(settings, f.registry, f.table.slots[x]).None? {
      }
    }
  }

  lemma NoIds()
    ensures Ids([]) == {}
  {
  }

  lemma OneMoreId(slots: seq<nat>, s: nat)
    requires s !in slots
    ensures |Ids(slots + [s])| == |Ids(slots)| + 1
  {
    IdsAppend(slots, s);
    assert s + 1 !in Ids(slots);
  }

  lemma {:induction false} ReplicableSlotsDistinct(f: ServerFrame, count: nat)
    requires count <= |f.table.slots|
    ensures |Ids(ReplicableSlots(f, count))| == |ReplicableSlots(f, count)|
  {
    hide Ids, Replicable;
    if count == 0 {
      NoIds();
    } else {
      ReplicableSlotsDistinct(f, count - 1);
      ReplicableSlotsMembers(f, count - 1);
      if Replicable(f, count - 1) {
        OneMoreId(ReplicableSlots(f, count - 1), count - 1);
      } else {
        assert ReplicableSlots(f, count) == ReplicableSlots(f, count - 1);
      }
    }
  }

  /** A session shows nothing but what a Full frame listed, so a frame that counts too few records cannot be enough. */
  lemma TooFewRecords(settings: Settings, f: ServerFrame, session: Session, cues: bool)
    requires settings.WellFormed() && |f.table.slots| < 0xFFFF_FFFF
    requires forall s: nat | f.table.Active(s) :: Replicable(f, s) && f.table.slots[s].archetype < |settings.archetypes|
    requires Counted(FrameItems(settings, f, true, [], [])) < |ReplicableSlots(f, |f.table.slots|)|
    ensures var a := ApplyPayload(settings, Full, EncodePayload(FrameItems(settings, f, true, [], [])), session, cues);
            a.ok ==> !Agrees(settings, a.session, f.registry, f.table)
  {
    hide ReadRecords, ReplicableSlots, SlotItems, EncodeItems, Ids, Agrees, DropStale, Counted, Settings.WellFormed;
    var slots := ReplicableSlots(f, |f.table.slots|);
    var items := FrameItems(settings, f, true, [], []);
    var count := Counted(items);
    var a := ApplyPayload(settings, Full, EncodePayload(items), session, cues);
    HeadersUncounted(settings, f, slots);
    FieldWidths();
    assert EncodePayload(items) == Encode(count, 16) + (EncodeItems(items) + [false]);
    ReadFieldAppended(count, 16, EncodeItems(items) + [false]);
    var c := ReadRecords(settings, Full, Cursor(true, EncodeItems(items) + [false], session, {}), count);
    ListedBounded(settings, Full, Cursor(true, EncodeItems(items) + [false], session, {}), count);
    ReplicableSlotsDistinct(f, |f.table.slots|);
    ReplicableSlotsMembers(f, |f.table.slots|);
    if a.ok && Agrees(settings, a.session, f.registry, f.table) {
      AllListed(settings, f, c.session, c.listed);
      SubsetSize(Ids(slots), c.listed);
      assert false;
    }
  }

  lemma AllListed(settings: Settings, f: ServerFrame, session: Session, listed: set<nat>)
    requires settings.WellFormed()
    requires forall s: nat | f.table.Active(s) :: f.table.slots[s].archetype < |settings.archetypes|
    requires Agrees(settings, DropStale(session, listed), f.registry, f.table)
    ensures Ids(ReplicableSlots(f, |f.table.slots|)) <= listed
  {
    hide EntityView, TagsOf, ComponentsOf, Settings.WellFormed;
    var slots := ReplicableSlots(f, |f.table.slots|);
    ReplicableSlotsMembers(f, |f.table.slots|);
    forall id <- Ids(slots) ensures id in listed {
      var s :| s in slots && id == s + 1;
      assert ServerSlot(settings, f.registry, f.table, s).Some?;
      assert SessionSlot(settings, DropStale(session, listed), s).Some?;
    }
  }

  lemma SubsetSize(xs: set<nat>, ys: set<nat>)
    requires xs <= ys
    ensures |xs| <= |ys|
  {
    assert ys == xs + (ys - xs);
  }

  /**
   What a Full frame does to a session, whatever it showed: it brings it to the
   server's slots exactly when every replicated slot quantises and the records
   can be counted.  A slot that does not quantise (no present component, and an
   archetype without tags) has its header written but not counted.
   */
  lemma FullFrameExact(settings: Settings, f: ServerFrame, session: Session, cues: bool)
    requires settings.WellFormed() && session.Valid(settings) && |f.table.slots| < 0xFFFF_FFFF
    requires forall s: nat | f.table.Active(s) :: Replicable(f, s) && f.table.slots[s].archetype < |settings.archetypes|
    ensures var a := ApplyPayload(settings, Full, EncodePayload(FrameItems(settings, f, true, [], [])), session, cues);
            a.ok && Agrees(settings, a.session, f.registry, f.table) <==>
              && (forall s: nat | f.table.Active(s) :: Quantize(settings, f.registry, f.table.slots[s]).Some?)
              && |ReplicableSlots(f, |f.table.slots|)| <= MAX_COUNT
  {
    hide ApplyPayload, EncodePayload, Agrees, Quantize, SlotItems, ReplicableSlots, Session.Valid;
    var slots := ReplicableSlots(f, |f.table.slots|);
    if (forall s: nat | f.table.Active(s) :: Quantize(settings, f.registry, f.table.slots[s]).Some?) && |slots| <= MAX_COUNT {
      FullFrameEffect(settings, f, session, cues);
    } else {
      HeadersUncounted(settings, f, slots);
      ReplicableSlotsMembers(f, |f.table.slots|);
      TooFewRecords(settings, f, session, cues);
    }
  }

  // ----------------------------------------------------------- Delta frames

  /** Rounds after rounds. */
  lemma {:induction false} ReadOn(settings: Settings, kind: FrameKind, c: Cursor, m: nat, n: nat)
    requires settings.WellFormed()
    ensures ReadRecords(settings, kind, c, m + n) == ReadRecords(settings, kind, ReadRecords(settings, kind, c, m), n)
  {
    hide ReadRecord, Settings.WellFormed;
    if n > 0 {
      assert m + n - 1 == m + (n - 1);
      ReadOn(settings, kind, c, m, n - 1);
    }
  }

  /** The slot whose id the next record's header holds; -1 if it cannot be read. */
  function HeaderSlot(c: Cursor): int {
    match Read(c.rest, 1)
    case None => -1
    case Some((_, rest)) =>
      match ReadField(rest, 32)
      case None => -1
      case Some((id, _)) => id - 1
  }

  /** Whatever the bits, one round changes what is shown for no slot but the one it names. */
  lemma RoundTouches(settings: Settings, kind: FrameKind, c: Cursor, slot: int)
    requires settings.WellFormed() && c.session.Valid(settings)
    ensures var c' := ReadRecord(settings, kind, c);
            c'.ok ==>
              && c'.session.Valid(settings)
              && (slot != HeaderSlot(c) ==> SessionSlot(settings, c'.session, slot) == SessionSlot(settings, c.session, slot))
  {
    hide ReadField, ReadBody, SessionSlot, Session.Valid, Session.Remove, Settings.WellFormed;
    var rest1 := Read(c.rest, 1);
    if rest1.Some? && ReadField(rest1.value.1, 32).Some? {
      var (id, rest2) := ReadField(rest1.value.1, 32).value;
      if rest1.value.0[0] {
        Removes(settings, c.session, id, slot);
      } else {
        BodyTouches(settings, c.(rest := rest2, listed := if kind.Full? then c.listed + {id} else c.listed), id, slot);
      }
    }
  }

  lemma Removes(settings: Settings, session: Session, id: nat, slot: int)
    requires session.Valid(settings)
    ensures session.Remove(id).Valid(settings)
    ensures slot + 1 != id ==> SessionSlot(settings, session.Remove(id), slot) == SessionSlot(settings, session, slot)
  {
    hide EntityView;
  }

  lemma BodyTouches(settings: Settings, c: Cursor, id: nat, slot: int)
    requires settings.WellFormed() && c.session.Valid(settings)
    ensures var c' := ReadBody(settings, c, id);
            c'.ok ==> c'.session.Valid(settings)
                      && (slot + 1 != id ==> SessionSlot(settings, c'.session, slot) == SessionSlot(settings, c.session, slot))
  {
    hide ReadField, ReadEntity, SessionSlot, Session.Valid, Settings.WellFormed;
    var archetype := ReadField(c.rest, 32);
    if archetype.Some? {
      var tags := Read(archetype.value.1, 64);
      if tags.Some? {
        var present := Read(tags.value.1, 64);
        if present.Some? && archetype.value.0 < |settings.archetypes| && id != 0 {
          EntityTouches(settings, c.(rest := present.value.1), id, archetype.value.0, tags.value.0, present.value.0, slot);
        }
      }
    }
  }

  lemma EntityTouches(settings: Settings, c: Cursor, id: nat, archetype: nat, tags: BitString, present: BitString, slot: int)
    requires settings.WellFormed() && c.session.Valid(settings) && archetype < |settings.archetypes| && |tags| == |present| == 64 && id >= 1
    ensures var c' := ReadEntity(settings, c, id, archetype, tags, present);
            c'.ok ==> c'.session.Valid(settings)
                      && (slot + 1 != id ==> SessionSlot(settings, c'.session, slot) == SessionSlot(settings, c.session, slot))
  {
    hide ReadField, ReadComponents, ApplyTags, DropAbsent, SessionSlot, EntityView, Session.Valid, Settings.WellFormed;
    var a, s := settings.archetypes[archetype], c.session.Ensure(id);
    ArchetypeFits(settings, archetype);
    PutEffect(settings, c.session, id, SessionEntity(Some(archetype), {}, map[]), slot);
    var tagged := s.registry[s.entities[id]].(archetype := Some(archetype), tags := ApplyTags(a, s.registry[s.entities[id]].tags, tags));
    match ReadField(c.rest, 16)
    case None =>
    case Some((count, rest)) =>
      var read := ReadComponents(a, ComponentCursor(true, rest, tagged.components), count);
      PutEffect(settings, c.session, id, tagged.(components := DropAbsent(a, read.components, present)), slot);
  }

  ghost function Touched(settings: Settings, kind: FrameKind, c: Cursor, count: nat): set<int>
    requires settings.WellFormed()
  {
    if count == 0 then {}
    else Touched(settings, kind, c, count - 1) + {HeaderSlot(ReadRecords(settings, kind, c, count - 1))}
  }

  /** So `count` rounds change what is shown for at most `count` slots. */
  lemma {:induction false} RoundsTouch(settings: Settings, kind: FrameKind, c: Cursor, count: nat, slot: int)
    requires settings.WellFormed() && c.session.Valid(settings)
    ensures |Touched(settings, kind, c, count)| <= count
    ensures var c' := ReadRecords(settings, kind, c, count);
            c'.ok ==>
              && c'.session.Valid(settings)
              && (slot !in Touched(settings, kind, c, count) ==> SessionSlot(settings, c'.session, slot) == SessionSlot(settings, c.session, slot))
  {
    if count > 0 {
      hide ReadRecord, HeaderSlot, SessionSlot, Session.Valid, Settings.WellFormed;
      RoundsTouch(settings, kind, c, count - 1, slot);
      var before := ReadRecords(settings, kind, c, count - 1);
      if before.ok {
        RoundTouches(settings, kind, before, slot);
      }
    }
  }

  /** The pending slots the slot loop writes something for. */
  ghost function Rewritten(f: ServerFrame, gone: seq<Item>, slots: seq<nat>): set<int> {
    set s <- slots | Replicable(f, s) || Destroy(s + 1) !in gone :: s as int
  }

  ghost predicate Unquantised(settings: Settings, f: ServerFrame, s: nat)
    requires settings.WellFormed()
  {
    Replicable(f, s) && Quantize(settings, f.registry, f.table.slots[s]).None?
  }

  lemma RewrittenStep(f: ServerFrame, gone: seq<Item>, init: seq<nat>, s: nat)
    requires s !in init
    ensures |Rewritten(f, gone, init + [s])|
            == |Rewritten(f, gone, init)| + (if Replicable(f, s) || Destroy(s + 1) !in gone then 1 else 0)
  {
    var all := Rewritten(f, gone, init + [s]);
    assert forall x :: x in init + [s] <==> x in init || x == s;
    forall x <- Rewritten(f, gone, init) ensures x in all {
      assert x in init + [s];
    }
    assert s in init + [s];
    if Replicable(f, s) || Destroy(s + 1) !in gone {
      assert all == Rewritten(f, gone, init) + {s as int};
    } else {
      assert all == Rewritten(f, gone, init);
    }
  }

  /** Behind `pre`, what is counted falls short of what must be rewritten by the slots that do not quantise. */
  lemma {:induction false} DeltaCounted(settings: Settings, f: ServerFrame, gone: seq<Item>, pre: seq<nat>, post: seq<nat>)
    requires settings.WellFormed() && Counted(SlotItems(settings, f, false, gone, pre)) + |post| < MAX_COUNT
    requires forall i | 0 <= i < |post| :: post[i] < |f.table.slots|
    requires forall i, j | 0 <= i < j < |post| :: post[i] != post[j]
    ensures var base, count := Counted(SlotItems(settings, f, false, gone, pre)), Counted(SlotItems(settings, f, false, gone, pre + post));
            && base <= count <= base + |post| && count <= base + |Rewritten(f, gone, post)|
            && ((exists s <- post :: Unquantised(settings, f, s)) ==> count < base + |Rewritten(f, gone, post)|)
  {
    hide Quantize, Rewritten, Counted, SlotItems, Unquantised;
    if post == [] {
      assert pre + post == pre;
    } else {
      var init, s := post[..|post| - 1], post[|post| - 1];
      assert post == init + [s];
      assert s !in init;
      DeltaCounted(settings, f, gone, pre, init);
      RewrittenStep(f, gone, init, s);
      CountedStep(settings, f, gone, pre + init, s);
      assert pre + post == pre + init + [s];
      hide Replicable;
      assert (exists x <- post :: Unquantised(settings, f, x)) ==> Unquantised(settings, f, s) || exists x <- init :: Unquantised(settings, f, x);
    }
  }

  lemma CountedStep(settings: Settings, f: ServerFrame, gone: seq<Item>, slots: seq<nat>, s: nat)
    requires settings.WellFormed() && s < |f.table.slots|
    ensures Unquantised(settings, f, s) ==> Replicable(f, s)
    ensures var before, all := SlotItems(settings, f, false, gone, slots), SlotItems(settings, f, false, gone, slots + [s]);
            Counted(before) < MAX_COUNT ==>
              Counted(all) == Counted(before) + (if (Replicable(f, s) || Destroy(s + 1) !in gone) && !Unquantised(settings, f, s) then 1 else 0)
  {
    hide Quantize;
    var before := SlotItems(settings, f, false, gone, slots);
    assert (slots + [s])[..|slots|] == slots;
    assert (before + [ItemFor(settings, f, s)])[..|before|] == before;
    assert Unquantised(settings, f, s) <==> ItemFor(settings, f, s).Header?;
  }

  lemma {:induction false} FirstSlotsFirst(settings: Settings, f: ServerFrame, gone: seq<Item>, pre: seq<nat>, post: seq<nat>)
    returns (tail: BitString)
    requires settings.WellFormed()
    ensures EncodeItems(SlotItems(settings, f, false, gone, pre + post)) == EncodeItems(SlotItems(settings, f, false, gone, pre)) + tail
  {
    hide EncodeItem, ItemFor;
    if post == [] {
      assert pre + post == pre;
      tail := [];
    } else {
      var init, s := post[..|post| - 1], post[|post| - 1];
      assert (pre + post)[..|pre + post| - 1] == pre + init;
      var more := FirstSlotsFirst(settings, f, gone, pre, init);
      var before := SlotItems(settings, f, false, gone, pre + init);
      if SlotItems(settings, f, false, gone, pre + post) == before {
        tail := more;
      } else {
        tail := more + EncodeItem(ItemFor(settings, f, s));
        assert (before + [ItemFor(settings, f, s)])[..|before|] == before;
      }
    }
  }

  /**
   A Delta frame whose first `n` pending slots quantise and whose others changed.
   Where every pending slot quantises, that says nothing more.
   */
  ghost predicate Due(settings: Settings, f: ServerFrame, pending: seq<nat>, destroyed: seq<nat>, n: nat, session: Session) {
    && settings.WellFormed() && |f.table.slots| < 0xFFFF_FFFF && |DestroyItems(destroyed)| + |pending| < MAX_COUNT
    && (forall i | 0 <= i < |pending| :: pending[i] < |f.table.slots|)
    && (forall i, j | 0 <= i < j < |pending| :: pending[i] != pending[j])
    && (forall i | 0 <= i < |destroyed| :: destroyed[i] < |f.table.slots|)
    && (forall s <- pending | f.table.Active(s) :: Replicable(f, s) && f.table.slots[s].archetype < |settings.archetypes|)
    && n <= |pending| && (forall s <- pending[..n] | f.table.Active(s) :: Quantises(settings, f, s))
    && (forall s <- pending[n..] | s !in destroyed :: ServerSlot(settings, f.registry, f.table, s) != SessionSlot(settings, session, s))
  }

  /** What a Delta payload does is what its counted rounds do. */
  lemma DeltaReads(settings: Settings, items: seq<Item>, session: Session, cues: bool)
    requires settings.WellFormed() && Counted(items) < 65536
    ensures var a := ApplyPayload(settings, Delta, EncodePayload(items), session, cues);
            var c := ReadRecords(settings, Delta, Cursor(true, EncodeItems(items) + [false], session, {}), Counted(items));
            a.ok ==> c.ok && a.session == c.session
  {
    hide ReadRecords, EncodeItems, Counted, Settings.WellFormed;
    FieldWidths();
    var count := Counted(items);
    assert EncodePayload(items) == Encode(count, 16) + (EncodeItems(items) + [false]);
    ReadFieldAppended(count, 16, EncodeItems(items) + [false]);
  }

  lemma SubsetCount(xs: set<int>, ys: set<int>)
    requires xs <= ys
    ensures |xs| <= |ys|
  {
    assert ys == xs + (ys - xs);
  }

  /** The reader after the destroy records and the first `n` slots, all of which it reads as they were meant. */
  lemma FirstSlotsRead(settings: Settings, f: ServerFrame, pending: seq<nat>, destroyed: seq<nat>, n: nat, session: Session)
    returns (m: nat, c: Cursor)
    requires Due(settings, f, pending, destroyed, n, session) && session.Valid(settings)
    ensures var gone := DestroyItems(destroyed);
            var start := Cursor(true, EncodeItems(SlotItems(settings, f, false, gone, pending)) + [false], session, {});
            && m == Counted(SlotItems(settings, f, false, gone, pending[..n])) && m + (|pending| - n) < MAX_COUNT
            && c == ReadRecords(settings, Delta, start, m) && c.ok && c.session.Valid(settings)
            && (forall s <- pending[n..] :: SessionSlot(settings, c.session, s) == if s in destroyed then None else SessionSlot(settings, session, s))
  {
    hide ReadRecords, SlotItems, EncodeItems, Counted, Quantises, Session.Valid, Settings.WellFormed, DestroyItems, ApplyItems, SessionSlot, ServerSlot, Readable;
    var gone, pre := DestroyItems(destroyed), pending[..n];
    var items := SlotItems(settings, f, false, gone, pre);
    DestroyMembers(settings, destroyed);
    DestroysEffect(settings, session, destroyed, 0);
    assert Loopable(settings, f, false, gone, pre);
    SlotItemsReadable(settings, f, false, gone, pre);
    m := |items|;
    var tail := FirstSlotsFirst(settings, f, gone, pre, pending[n..]);
    assert pre + pending[n..] == pending;
    var start := Cursor(true, EncodeItems(SlotItems(settings, f, false, gone, pending)) + [false], session, {});
    assert start.rest == EncodeItems(items) + (tail + [false]);
    c := ReadRecords(settings, Delta, start, m);
    ReadRecordsEncoded(settings, Delta, start, items, tail + [false]);
    SlotItemsEffect(settings, f, false, gone, pre, session, -1);
    forall s <- pending[n..]
      ensures SessionSlot(settings, c.session, s) == if s in destroyed then None else SessionSlot(settings, session, s)
    {
      assert s !in pre;
      DestroysEffect(settings, session, destroyed, s);
      SlotItemsEffect(settings, f, false, gone, pre, session, s);
    }
  }

  /** With a slot that does not quantise, the reader reads too few records to bring every changed slot up to date. */
  lemma DeltaFallsShort(settings: Settings, f: ServerFrame, pending: seq<nat>, destroyed: seq<nat>, n: nat, session: Session, cues: bool)
    requires Due(settings, f, pending, destroyed, n, session) && session.Valid(settings)
    requires exists s <- pending[n..] :: Unquantised(settings, f, s)
    ensures var a := ApplyPayload(settings, Delta, EncodePayload(FrameItems(settings, f, false, pending, destroyed)), session, cues);
            a.ok ==> !Agrees(settings, a.session, f.registry, f.table)
  {
    hide ReadRecords, SlotItems, EncodeItems, EncodePayload, ApplyPayload, Agrees, Counted, Rewritten, Unquantised, Session.Valid, Settings.WellFormed, DestroyItems, Touched, SessionSlot, ServerSlot;
    var gone, post := DestroyItems(destroyed), pending[n..];
    var items := SlotItems(settings, f, false, gone, pending);
    var count := Counted(items);
    var m, c := FirstSlotsRead(settings, f, pending, destroyed, n, session);
    assert pending[..n] + post == pending;
    DeltaCounted(settings, f, gone, pending[..n], post);
    DeltaReads(settings, items, session, cues);
    ReadOn(settings, Delta, Cursor(true, EncodeItems(items) + [false], session, {}), m, count - m);
    RoundsTouch(settings, Delta, c, count - m, 0);
    var after := ReadRecords(settings, Delta, c, count - m);
    if after.ok && Agrees(settings, after.session, f.registry, f.table) {
      DestroyMembers(settings, destroyed);
      forall s <- Rewritten(f, gone, post) ensures s in Touched(settings, Delta, c, count - m) {
        MustBeTouched(settings, f, pending, destroyed, n, session, c, count - m, s);
      }
      SubsetCount(Rewritten(f, gone, post), Touched(settings, Delta, c, count - m));
      assert false;
    }
  }

  /** A changed slot that is written for must be among those the later rounds touch. */
  lemma MustBeTouched(settings: Settings, f: ServerFrame, pending: seq<nat>, destroyed: seq<nat>, n: nat,
                      session: Session, c: Cursor, count: nat, s: int)
    requires Due(settings, f, pending, destroyed, n, session) && c.session.Valid(settings)
    requires forall s <- pending[n..] :: SessionSlot(settings, c.session, s) == if s in destroyed then None else SessionSlot(settings, session, s)
    requires s in Rewritten(f, DestroyItems(destroyed), pending[n..])
    requires forall s: nat :: Destroy(s + 1) in DestroyItems(destroyed) <==> s in destroyed
    requires var after := ReadRecords(settings, Delta, c, count); after.ok && Agrees(settings, after.session, f.registry, f.table)
    ensures s in Touched(settings, Delta, c, count)
  {
    hide ReadRecords, SessionSlot, Session.Valid, Settings.WellFormed, DestroyItems, Touched, TagsOf, ComponentsOf, Quantises;
    RoundsTouch(settings, Delta, c, count, s);
    assert s in pending[n..] && s in pending && (Replicable(f, s) || s !in destroyed);
    assert Replicable(f, s) ==> ServerSlot(settings, f.registry, f.table, s).Some?;
  }

  /**
   What a Delta frame does to a session, whatever it shows, if the pending
   slots from the first one on that does not quantise have all changed: it
   brings it to the server's state exactly when there is no such slot and what
   the frame does not rewrite is right already or, if reported destroyed,
   empty.  A slot that does not quantise has its header written but not counted.
   */
  lemma DeltaHeadersExact(settings: Settings, f: ServerFrame, pending: seq<nat>, destroyed: seq<nat>, n: nat, session: Session, cues: bool)
    requires Due(settings, f, pending, destroyed, n, session) && session.Valid(settings)
    ensures var a := ApplyPayload(settings, Delta, EncodePayload(FrameItems(settings, f, false, pending, destroyed)), session, cues);
            a.ok && Agrees(settings, a.session, f.registry, f.table) <==>
              && (forall s <- pending | f.table.Active(s) :: Quantize(settings, f.registry, f.table.slots[s]).Some?)
              && (forall s: int | s !in pending ::
                    ServerSlot(settings, f.registry, f.table, s) == if s in destroyed then None else SessionSlot(settings, session, s))
  {
    hide ApplyPayload, EncodePayload, FrameItems, Quantize, Session.Valid, ServerSlot, SessionSlot, Settings.WellFormed;
    if forall s <- pending | f.table.Active(s) :: Quantize(settings, f.registry, f.table.slots[s]).Some? {
      DeltaFrameSlots(settings, f, pending, destroyed, session, cues);
    } else {
      var s :| s in pending && f.table.Active(s) && Quantize(settings, f.registry, f.table.slots[s]).None?;
      assert s in pending[..n] || s in pending[n..];
      assert Unquantised(settings, f, s);
      DeltaFallsShort(settings, f, pending, destroyed, n, session, cues);
    }
  }

  lemma LoneItem(settings: Settings, f: ServerFrame, s: nat)
    requires settings.WellFormed() && s < |f.table.slots| && Unquantised(settings, f, s)
    ensures FrameItems(settings, f, false, [s], []) == [Header(s + 1)]
  {
    hide Quantize, Settings.WellFormed;
    assert [s][..|[s]| - 1] == [];
    assert SlotItems(settings, f, false, [], []) == [];
    assert [] + [ItemFor(settings, f, s)] == [ItemFor(settings, f, s)];
  }

  /** Nothing counted, and a header before the bit that ends the cues. */
  lemma HeaderBits(id: nat)
    ensures Counted([Header(id)]) == 0
    ensures EncodePayload([Header(id)]) == Encode(0, 16) + ([false] + Encode(id, 32) + [false])
  {
    hide Encode;
    var items := [Header(id)];
    assert items[..0] == [];
    assert Counted(items) == 0;
    assert EncodeItems(items) == [] + EncodeItem(items[0]);
    assert [] + EncodeItem(items[0]) == [false] + Encode(id, 32);
  }

  /**
   The shortest such run of bits: when all that is pending is one slot that
   does not quantise, as after its last component was removed, the frame counts
   no records, its header's first bit is read as the end of the cues, and the
   session keeps what it showed.
   */
  lemma LoneHeaderIsLost(settings: Settings, f: ServerFrame, s: nat, session: Session, cues: bool)
    requires settings.WellFormed() && s < |f.table.slots| && Unquantised(settings, f, s)
    ensures ApplyPayload(settings, Delta, EncodePayload(FrameItems(settings, f, false, [s], [])), session, cues) == Applied(true, session)
  {
    hide Quantize, Encode, FrameItems, EncodePayload, ReadRecord, Settings.WellFormed;
    LoneItem(settings, f, s);
    HeaderBits(s + 1);
    FieldWidths();
    ReadFieldAppended(0, 16, [false] + Encode(s + 1, 32) + [false]);
  }

  // ------------------------------------------------- despawns between passes

  lemma {:induction false} NotByEntity(t: Table, list: seq<Entity>, s: nat)
    requires t.MapsValid() && !t.Active(s)
    ensures s !in ByEntity(t, list)
  {
    if list != [] {
      NotByEntity(t, list[..|list| - 1], s);
    }
  }

  lemma {:induction false} NotByIndex(t: Table, list: seq<Entity>, s: nat)
    requires t.MapsValid() && !t.Active(s)
    ensures s !in ByIndex(t, list)
  {
    if list != [] {
      NotByIndex(t, list[..|list| - 1], s);
    }
  }

  lemma NotTouched(t: Table, x: Touched, s: nat)
    requires t.MapsValid() && !t.Active(s)
    ensures s !in TouchedSlots(t, x)
  {
    NotByEntity(t, x.dirty, s);
    NotByEntity(t, x.added, s);
    NotByIndex(t, x.removed, s);
  }

  lemma {:induction false} NotTagged(t: Table, d: DirtyView, tags: seq<nat>, s: nat)
    requires t.MapsValid() && !t.Active(s)
    ensures s !in TagSlots(t, d, tags)
  {
    hide TouchedSlots;
    if tags != [] {
      NotTagged(t, d, tags[..|tags| - 1], s);
      NotTouched(t, d.Tag(tags[|tags| - 1]), s);
    }
  }

  lemma {:induction false} NotOfArchetypes(t: Table, d: DirtyView, archetypes: seq<Archetype>, s: nat)
    requires t.MapsValid() && !t.Active(s)
    ensures s !in ArchetypeSlots(t, d, archetypes)
  {
    if archetypes != [] {
      NotOfArchetypes(t, d, archetypes[..|archetypes| - 1], s);
      NotTagged(t, d, archetypes[|archetypes| - 1].tags, s);
    }
  }

  lemma {:induction false} NotOfComponents(t: Table, d: DirtyView, tracked: seq<nat>, s: nat)
    requires t.MapsValid() && !t.Active(s)
    ensures s !in ComponentSlots(t, d, tracked)
  {
    hide TouchedSlots;
    if tracked != [] {
      NotOfComponents(t, d, tracked[..|tracked| - 1], s);
      NotTouched(t, d.Component(tracked[|tracked| - 1]), s);
    }
  }

  /** No dirty view visits an inactive slot: the lookup maps no longer lead to it. */
  lemma InactiveNotVisited(settings: Settings, t: Table, d: DirtyView, s: nat)
    requires t.MapsValid() && !t.Active(s)
    ensures s !in DirtySlots(settings, t, d)
  {
    hide TouchedSlots, ArchetypeSlots, ComponentSlots;
    NotTouched(t, d.replicated, s);
    NotOfArchetypes(t, d, settings.archetypes, s);
    NotOfComponents(t, d, settings.tracked, s);
    NotTouched(t, d.owner, s);
  }

  lemma {:induction false} NotMarked(pending: seq<nat>, marks: seq<nat>, count: nat, s: nat)
    requires s !in pending && s !in marks
    ensures s !in Mark(pending, marks, count)
  {
    if marks != [] {
      NotMarked(pending, marks[..|marks| - 1], count, s);
    }
  }

  /**
   Why despawns must be seen inside the dirty pass: a slot deactivated between
   passes is not reported destroyed in the next one and no dirty view leads to
   it, so unless that pass gives the slot to another entity, a Delta frame says
   nothing about it, whatever else it writes, and the session keeps showing it.
   */
  lemma DeactivationBetweenPassesIsMissed(
    settings: Settings, f: ServerFrame, ws: WriterState, r0: Registry, t0: Table, s: nat, session: Session, cues: bool)
    requires settings.WellFormed() && session.Valid(settings) && Agrees(settings, session, r0, t0)
    requires t0.Active(s) && t0.slots[s].archetype < |settings.archetypes|
    requires f.table.Valid() && !f.table.Active(s) && s !in f.table.destroyed
    requires s !in ws.pending && s !in ws.pendingDestroyed
    requires var acc := Accumulate(settings, ws, f);
             && Writable(settings, f, false, acc.pending, acc.pendingDestroyed)
             && (forall i | 0 <= i < |acc.pending| :: acc.pending[i] < |f.table.slots|)
             && (forall i | 0 <= i < |acc.pendingDestroyed| :: acc.pendingDestroyed[i] < |f.table.slots|)
    ensures var acc := Accumulate(settings, ws, f);
            var a := ApplyPayload(settings, Delta, EncodePayload(FrameItems(settings, f, false, acc.pending, acc.pendingDestroyed)), session, cues);
            && s !in acc.pending && s !in acc.pendingDestroyed
            && a.ok && SessionSlot(settings, a.session, s) == SessionSlot(settings, session, s)
            && !Agrees(settings, a.session, f.registry, f.table)
  {
    hide ApplyPayload, EncodePayload, FrameItems, Writable, Mark, DirtySlots, Session.Valid, SessionSlot, Settings.WellFormed;
    var acc := Accumulate(settings, ws, f);
    InactiveNotVisited(settings, f.table, f.dirty, s);
    NotMarked(ws.pending, DirtySlots(settings, f.table, f.dirty), |f.table.slots|, s);
    DeltaFrameSlots(settings, f, acc.pending, acc.pendingDestroyed, session, cues);
    assert ServerSlot(settings, f.registry, f.table, s) == None && ServerSlot(settings, r0, t0, s).Some?;
    assert SessionSlot(settings, session, s) == ServerSlot(settings, r0, t0, s);
  }

  /** `push_dirty_info_to_listeners` forgets it: such a slot is inactive and unreported when the next pass begins. */
  lemma DeactivatedIsForgotten(t: Table, index: nat)
    requires t.Valid() && index in t.byIndex
    ensures var s, t' := t.byIndex[index], DeactivateIndex(t, index).(destroyed := []);
            t'.Valid() && t.Active(s) && !t'.Active(s) && s !in t'.destroyed && index !in t'.byIndex
  {
    DeactivateValid(t, index);
  }
}
