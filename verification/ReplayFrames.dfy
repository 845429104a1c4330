/** What one written frame, Full or Delta, does to a session that reads it. */
module ReplayFrames {
  import opened Wrappers
  import opened SlotTable
  import opened World
  import opened ReplayWire
  import opened ReplayDecoding
  import opened ReplayWriting
  import opened ReplayCoverage
  import opened ReplaySession

  /**
   What a frame must satisfy to be written whole: slot ids fit 32 bits, every
   active slot it writes is replicable and quantises, and the records stay
   below the 16-bit count.
   */
  ghost predicate Writable(settings: Settings, f: ServerFrame, full: bool, pending: seq<nat>, destroyed: seq<nat>)
    requires settings.WellFormed()
  {
    && |f.table.slots| < 0xFFFF_FFFF
    && (forall s: nat | f.table.Active(s) && (full || s in pending) :: Quantises(settings, f, s))
    && (if full then |ReplicableSlots(f, |f.table.slots|)| <= MAX_COUNT
        else |DestroyItems(destroyed)| + |pending| < MAX_COUNT)
  }

  ghost predicate AllReadable(settings: Settings, items: seq<Item>) {
    forall i | 0 <= i < |items| :: Readable(settings, items[i])
  }

  lemma ApplySnoc(settings: Settings, session: Session, items: seq<Item>, item: Item)
    requires settings.WellFormed() && AllReadable(settings, items) && Readable(settings, item)
    ensures AllReadable(settings, items + [item])
    ensures ApplyItems(settings, session, items + [item]) == ApplyItem(settings, ApplyItems(settings, session, items), item)
  {
    assert (items + [item])[..|items|] == items;
  }

  /** The destroy records are the destroyed slots, once each. */
  lemma {:induction false} DestroyMembers(settings: Settings, destroyed: seq<nat>)
    requires forall i | 0 <= i < |destroyed| :: destroyed[i] < 0xFFFF_FFFF
    requires |DestroyItems(destroyed)| < MAX_COUNT
    ensures forall s: nat :: Destroy(s + 1) in DestroyItems(destroyed) <==> s in destroyed
    ensures AllReadable(settings, DestroyItems(destroyed))
  {
    if destroyed != [] {
      DestroyMembers(settings, destroyed[..|destroyed| - 1]);
      assert destroyed == destroyed[..|destroyed| - 1] + [destroyed[|destroyed| - 1]];
    }
  }

  lemma DestroyStep(destroyed: seq<nat>)
    requires destroyed != [] && |DestroyItems(destroyed)| < MAX_COUNT
    ensures var before, item := DestroyItems(destroyed[..|destroyed| - 1]), Destroy(destroyed[|destroyed| - 1] + 1);
            |before| < MAX_COUNT && DestroyItems(destroyed) == if item in before then before else before + [item]
  {
  }

  /** The destroy records empty exactly the destroyed slots. */
  lemma {:induction false} DestroysEffect(settings: Settings, session: Session, destroyed: seq<nat>, slot: int)
    requires settings.WellFormed() && session.Valid(settings)
    requires forall i | 0 <= i < |destroyed| :: destroyed[i] < 0xFFFF_FFFF
    requires |DestroyItems(destroyed)| < MAX_COUNT && AllReadable(settings, DestroyItems(destroyed))
    ensures var after := ApplyItems(settings, session, DestroyItems(destroyed));
            && after.Valid(settings)
            && SessionSlot(settings, after, slot) == if slot in destroyed then None else SessionSlot(settings, session, slot)
  {
    if destroyed != [] {
      hide AllReadable, Settings.WellFormed, SessionSlot, Session.Valid, DestroyItems, ApplyItems;
      var init, s := destroyed[..|destroyed| - 1], destroyed[|destroyed| - 1];
      assert destroyed == init + [s];
      DestroyStep(destroyed);
      DestroyMembers(settings, init);
      DestroysEffect(settings, session, init, slot);
      OneMoreDestroyed(settings, session, DestroyItems(init), s, slot);
    }
  }

  lemma OneMoreDestroyed(settings: Settings, session: Session, before: seq<Item>, s: nat, slot: int)
    requires settings.WellFormed() && AllReadable(settings, before) && s < 0xFFFF_FFFF
    requires ApplyItems(settings, session, before).Valid(settings)
    ensures var after := ApplyItems(settings, session, before + [Destroy(s + 1)]);
            && after.Valid(settings)
            && SessionSlot(settings, after, slot) ==
               if slot == s then None else SessionSlot(settings, ApplyItems(settings, session, before), slot)
  {
    hide Settings.WellFormed, SessionSlot, Session.Valid, ApplyItems;
    ApplySnoc(settings, session, before, Destroy(s + 1));
    DestroyEffect(settings, s, ApplyItems(settings, session, before), slot);
  }

  /** The part of `Writable` and of the list that the slot loop relies on. */
  ghost predicate Loopable(settings: Settings, f: ServerFrame, full: bool, gone: seq<Item>, slots: seq<nat>)
    requires settings.WellFormed()
  {
    && |f.table.slots| < 0xFFFF_FFFF
    && (forall s <- slots | f.table.Active(s) :: Quantises(settings, f, s))
    && AllReadable(settings, gone) && |gone| + |slots| <= MAX_COUNT
    && (forall i | 0 <= i < |slots| :: slots[i] < |f.table.slots| && (full ==> Replicable(f, slots[i])))
  }

  /** The item of any slot is readable and brings exactly that slot up to date. */
  lemma ItemEffect(settings: Settings, f: ServerFrame, s: nat, session: Session, slot: int)
    requires settings.WellFormed() && session.Valid(settings)
    requires s < |f.table.slots| < 0xFFFF_FFFF && (f.table.Active(s) ==> Quantises(settings, f, s))
    ensures var item := ItemFor(settings, f, s);
            && Readable(settings, item)
            && ApplyItem(settings, session, item).Valid(settings)
            && SessionSlot(settings, ApplyItem(settings, session, item), slot) ==
               if slot == s then ServerSlot(settings, f.registry, f.table, s) else SessionSlot(settings, session, slot)
  {
    if Replicable(f, s) {
      RecordReadable(settings, f, s);
      RecordEffect(settings, f, s, session, slot);
    } else {
      DestroyEffect(settings, s, session, slot);
    }
  }

  lemma {:induction false} SlotItemsReadable(settings: Settings, f: ServerFrame, full: bool, gone: seq<Item>, slots: seq<nat>)
    requires settings.WellFormed() && Loopable(settings, f, full, gone, slots)
    ensures var items := SlotItems(settings, f, full, gone, slots);
            AllReadable(settings, items) && |items| <= |gone| + |slots| && Counted(items) == |items|
  {
    if slots != [] {
      var init, s := slots[..|slots| - 1], slots[|slots| - 1];
      SlotItemsReadable(settings, f, full, gone, init);
      ItemEffect(settings, f, s, Session(map[], 0, map[]), 0);
    }
    CountedAll(SlotItems(settings, f, full, gone, slots));
  }

  /** One round of the slot loop: a slot is skipped only when the destroy records already empty it. */
  lemma SlotStep(settings: Settings, f: ServerFrame, full: bool, gone: seq<Item>, slots: seq<nat>)
    requires settings.WellFormed() && Loopable(settings, f, full, gone, slots) && slots != []
    ensures var init, s := slots[..|slots| - 1], slots[|slots| - 1];
            var before, all := SlotItems(settings, f, full, gone, init), SlotItems(settings, f, full, gone, slots);
            && Loopable(settings, f, full, gone, init)
            && s < |f.table.slots| < 0xFFFF_FFFF && (f.table.Active(s) ==> Quantises(settings, f, s))
            && AllReadable(settings, before) && Readable(settings, ItemFor(settings, f, s))
            && (|| all == before + [ItemFor(settings, f, s)]
                || (all == before && ServerSlot(settings, f.registry, f.table, s) == None && Destroy(s + 1) in gone))
  {
    hide Readable, Settings.WellFormed;
    var init, s := slots[..|slots| - 1], slots[|slots| - 1];
    SlotItemsReadable(settings, f, full, gone, init);
    ItemEffect(settings, f, s, Session(map[], 0, map[]), 0);
  }

  /** `items`, which begin with the records `gone`, bring the slots of the list up to date and leave this slot as `gone` did, or not. */
  ghost predicate Brings(settings: Settings, f: ServerFrame, gone: seq<Item>, slots: seq<nat>, items: seq<Item>, session: Session, slot: int)
    requires settings.WellFormed()
  {
    && AllReadable(settings, gone) && AllReadable(settings, items)
    && ApplyItems(settings, session, items).Valid(settings)
    && SessionSlot(settings, ApplyItems(settings, session, items), slot) ==
       if slot in slots then ServerSlot(settings, f.registry, f.table, slot)
       else SessionSlot(settings, ApplyItems(settings, session, gone), slot)
  }

  lemma NextBrings(settings: Settings, f: ServerFrame, gone: seq<Item>, slots: seq<nat>, before: seq<Item>, items: seq<Item>, session: Session, slot: int)
    requires settings.WellFormed() && slots != [] && Brings(settings, f, gone, slots[..|slots| - 1], before, session, slot)
    requires var s := slots[|slots| - 1];
             && s < |f.table.slots| < 0xFFFF_FFFF && (f.table.Active(s) ==> Quantises(settings, f, s))
             && Readable(settings, ItemFor(settings, f, s))
             && (|| items == before + [ItemFor(settings, f, s)]
                 || (items == before && ServerSlot(settings, f.registry, f.table, s) == None && Destroy(s + 1) in gone))
    requires slot >= 0 && AllReadable(settings, gone) && Destroy(slot + 1) in gone ==> SessionSlot(settings, ApplyItems(settings, session, gone), slot) == None
    ensures Brings(settings, f, gone, slots, items, session, slot)
  {
    hide Readable, Settings.WellFormed, SessionSlot, ServerSlot, Session.Valid, ApplyItems, ApplyItem, ItemFor, Quantises;
    LastMember(slots, slot);
    if items != before {
      var s := slots[|slots| - 1];
      ItemEffect(settings, f, s, ApplyItems(settings, session, before), slot);
      ApplySnoc(settings, session, before, ItemFor(settings, f, s));
    }
  }

  lemma NothingBrings(settings: Settings, f: ServerFrame, gone: seq<Item>, session: Session, slot: int)
    requires settings.WellFormed() && AllReadable(settings, gone) && ApplyItems(settings, session, gone).Valid(settings)
    ensures Brings(settings, f, gone, [], gone, session, slot)
  {
  }

  lemma {:induction false} SlotItemsBring(
    settings: Settings, f: ServerFrame, full: bool, gone: seq<Item>, slots: seq<nat>, session: Session, slot: int)
    requires settings.WellFormed() && Loopable(settings, f, full, gone, slots)
    requires ApplyItems(settings, session, gone).Valid(settings)
    requires slot >= 0 && Destroy(slot + 1) in gone ==> SessionSlot(settings, ApplyItems(settings, session, gone), slot) == None
    ensures Brings(settings, f, gone, slots, SlotItems(settings, f, full, gone, slots), session, slot)
  {
    if slots == [] {
      NothingBrings(settings, f, gone, session, slot);
    } else {
      hide Brings, Loopable, ItemFor, SessionSlot, ServerSlot, Readable, Settings.WellFormed, Session.Valid, Quantises, SlotItems;
      SlotStep(settings, f, full, gone, slots);
      SlotItemsBring(settings, f, full, gone, slots[..|slots| - 1], session, slot);
      NextBrings(settings, f, gone, slots, SlotItems(settings, f, full, gone, slots[..|slots| - 1]), SlotItems(settings, f, full, gone, slots),
                 session, slot);
    }
  }

  /** The slot loop brings every listed slot up to date and leaves the others as the destroy records left them. */
  lemma SlotItemsEffect(
    settings: Settings, f: ServerFrame, full: bool, gone: seq<Item>, slots: seq<nat>, session: Session, slot: int)
    requires settings.WellFormed() && Loopable(settings, f, full, gone, slots)
    requires AllReadable(settings, SlotItems(settings, f, full, gone, slots))
    requires ApplyItems(settings, session, gone).Valid(settings)
    requires slot >= 0 && Destroy(slot + 1) in gone ==> SessionSlot(settings, ApplyItems(settings, session, gone), slot) == None
    ensures var after := ApplyItems(settings, session, SlotItems(settings, f, full, gone, slots));
            && after.Valid(settings)
            && SessionSlot(settings, after, slot) ==
               if slot in slots then ServerSlot(settings, f.registry, f.table, slot)
               else SessionSlot(settings, ApplyItems(settings, session, gone), slot)
  {
    hide SlotItems, SessionSlot, ServerSlot, Session.Valid, ApplyItems, Readable;
    SlotItemsBring(settings, f, full, gone, slots, session, slot);
  }

  lemma LastMember(slots: seq<nat>, x: int)
    requires slots != []
    ensures x in slots <==> x in slots[..|slots| - 1] || x == slots[|slots| - 1]
  {
    assert slots == slots[..|slots| - 1] + [slots[|slots| - 1]];
  }

  lemma {:induction false} ReplicableSlotsMembers(f: ServerFrame, count: nat)
    requires count <= |f.table.slots|
    ensures forall s: nat :: s in ReplicableSlots(f, count) <==> s < count && Replicable(f, s)
  {
    if count > 0 {
      ReplicableSlotsMembers(f, count - 1);
    }
  }

  /** The replay ids of a slot list. */
  ghost function Ids(slots: seq<nat>): set<nat> {
    set s <- slots :: s + 1
  }

  lemma IdsAppend(slots: seq<nat>, s: nat)
    ensures Ids(slots + [s]) == Ids(slots) + {s + 1}
  {
    assert forall k :: k in slots + [s] <==> k in slots || k == s;
    assert s in slots + [s];
    forall id | id in Ids(slots) ensures id in Ids(slots + [s]) {
      var k :| k in slots && id == k + 1;
      assert k in slots + [s];
    }
  }

  lemma FullStep(settings: Settings, f: ServerFrame, slots: seq<nat>)
    requires settings.WellFormed() && Loopable(settings, f, true, [], slots) && slots != []
    ensures var init, s := slots[..|slots| - 1], slots[|slots| - 1];
            var item := ItemFor(settings, f, s);
            && Loopable(settings, f, true, [], init) && item.Record? && item.id == s + 1
            && SlotItems(settings, f, true, [], slots) == SlotItems(settings, f, true, [], init) + [item]
  {
    var init, s := slots[..|slots| - 1], slots[|slots| - 1];
    SlotItemsReadable(settings, f, true, [], init);
    assert Quantises(settings, f, s);
  }

  lemma {:induction false} FullRecordIds(settings: Settings, f: ServerFrame, slots: seq<nat>)
    requires settings.WellFormed() && Loopable(settings, f, true, [], slots)
    ensures RecordIds(SlotItems(settings, f, true, [], slots)) == Ids(slots)
  {
    if slots != [] {
      hide RecordIds, Ids, ItemFor, Loopable, SlotItems, Settings.WellFormed;
      FullStep(settings, f, slots);
      FullRecordIds(settings, f, slots[..|slots| - 1]);
      OneMoreRecord(SlotItems(settings, f, true, [], slots[..|slots| - 1]), ItemFor(settings, f, slots[|slots| - 1]), slots);
    } else {
      assert RecordIds([]) == {} == Ids([]);
    }
  }

  lemma OneMoreRecord(items: seq<Item>, item: Item, slots: seq<nat>)
    requires slots != [] && RecordIds(items) == Ids(slots[..|slots| - 1]) && item.Record? && item.id == slots[|slots| - 1] + 1
    ensures RecordIds(items + [item]) == Ids(slots)
  {
    hide RecordIds, Ids;
    RecordIdsAppend(items, item);
    IdsAppend(slots[..|slots| - 1], slots[|slots| - 1]);
    assert slots == slots[..|slots| - 1] + [slots[|slots| - 1]];
  }

  lemma RecordIdsAppend(items: seq<Item>, item: Item)
    ensures RecordIds(items + [item]) == RecordIds(items) + (if item.Record? then {item.id} else {})
  {
    RecordIdsSnoc(items + [item]);
    assert (items + [item])[..|items|] == items;
  }

  /** Dropping the stale ids empties exactly the slots the frame did not list. */
  lemma DropStaleEffect(settings: Settings, session: Session, listed: set<nat>, slot: int)
    requires session.Valid(settings)
    ensures var after := DropStale(session, listed);
            && after.Valid(settings)
            && SessionSlot(settings, after, slot) ==
               if slot >= 0 && (slot + 1) in listed then SessionSlot(settings, session, slot) else None
  {
    var after := DropStale(session, listed);
    forall id <- after.entities ensures after.entities[id] in after.registry {
    }
  }

  /** A Full frame brings any session, whatever it showed, to exactly the server's slots. */
  lemma FullFrameEffect(settings: Settings, f: ServerFrame, session: Session, cues: bool)
    requires settings.WellFormed() && session.Valid(settings)
    requires Writable(settings, f, true, [], [])
    ensures var a := ApplyPayload(settings, Full, EncodePayload(FrameItems(settings, f, true, [], [])), session, cues);
            a.ok && a.session.Valid(settings) && Agrees(settings, a.session, f.registry, f.table)
  {
    hide ApplyPayload, EncodePayload, DropStale, ApplyItem, ApplyItems, ItemFor, SlotItems, RecordIds, SessionSlot, ServerSlot, Session.Valid;
    hide Settings.WellFormed, Readable, Quantize;
    var slots := ReplicableSlots(f, |f.table.slots|);
    var items := SlotItems(settings, f, true, [], slots);
    ReplicableSlotsMembers(f, |f.table.slots|);
    assert forall i | 0 <= i < |slots| :: slots[i] in slots;
    SlotItemsReadable(settings, f, true, [], slots);
    ApplyPayloadEncoded(settings, Full, items, session, cues);
    FullRecordIds(settings, f, slots);
    forall slot: int ensures DropStale(ApplyItems(settings, session, items), RecordIds(items)).Valid(settings)
      ensures SessionSlot(settings, DropStale(ApplyItems(settings, session, items), RecordIds(items)), slot)
              == ServerSlot(settings, f.registry, f.table, slot)
    {
      FullSlot(settings, f, session, items, slots, slot);
    }
    assert DropStale(ApplyItems(settings, session, items), RecordIds(items)).Valid(settings) by {
      FullSlot(settings, f, session, items, slots, 0);
    }
  }

  lemma FullSlot(settings: Settings, f: ServerFrame, session: Session, items: seq<Item>, slots: seq<nat>, slot: int)
    requires settings.WellFormed() && session.Valid(settings) && Loopable(settings, f, true, [], slots)
    requires forall s: nat :: s in slots <==> s < |f.table.slots| && Replicable(f, s)
    requires forall s: nat | f.table.Active(s) :: Quantises(settings, f, s)
    requires items == SlotItems(settings, f, true, [], slots) && AllReadable(settings, items)
    requires RecordIds(items) == Ids(slots)
    ensures var final := DropStale(ApplyItems(settings, session, items), RecordIds(items));
            final.Valid(settings) && SessionSlot(settings, final, slot) == ServerSlot(settings, f.registry, f.table, slot)
  {
    hide SessionSlot, DropStale, SlotItems, RecordIds, Session.Valid, Readable, Quantize;
    assert ApplyItems(settings, session, []) == session;
    SlotItemsEffect(settings, f, true, [], slots, session, slot);
    DropStaleEffect(settings, ApplyItems(settings, session, items), RecordIds(items), slot);
    assert f.table.Active(slot) ==> Quantises(settings, f, slot);
    if slot >= 0 && (slot + 1) in RecordIds(items) {
      var s :| s in slots && s + 1 == slot + 1;
    } else {
      assert slot >= 0 && slot in slots ==> (slot + 1) in RecordIds(items);
    }
  }

  /** What the session shows is what the server replicates, but for the lost slots: it shows something there, the server nothing. */
  ghost predicate Shows(settings: Settings, session: Session, r: Registry, t: Table, lost: set<nat>)
    requires settings.WellFormed()
  {
    forall s: int ::
      if s in lost then SessionSlot(settings, session, s).Some? && ServerSlot(settings, r, t, s).None?
      else SessionSlot(settings, session, s) == ServerSlot(settings, r, t, s)
  }

  /** So it agrees with the server exactly when nothing is lost. */
  lemma ShowsAll(settings: Settings, session: Session, r: Registry, t: Table, lost: set<nat>)
    requires settings.WellFormed() && Shows(settings, session, r, t, lost)
    ensures Agrees(settings, session, r, t) <==> lost == {}
  {
    hide SessionSlot, ServerSlot;
    if lost != {} {
      var s :| s in lost;
      assert SessionSlot(settings, session, s) != ServerSlot(settings, r, t, s);
    }
  }

  /**
   The slots whose contents are not those last written, or that were lost then,
   are pending, destroyed or still lost; and nothing is pending or destroyed of
   the lost ones, which are free.
   */
  ghost predicate PendingCovers(settings: Settings, r0: Registry, t0: Table, lost0: set<nat>, r: Registry, t: Table, lost: set<nat>,
                                pending: seq<nat>, destroyed: seq<nat>)
    requires settings.WellFormed()
  {
    && (forall i | 0 <= i < |pending| :: pending[i] < |t.slots|)
    && (forall i | 0 <= i < |destroyed| :: destroyed[i] < |t.slots|)
    && (forall s: int | s !in pending && s !in destroyed && s !in lost ::
          s !in lost0 && ServerSlot(settings, r0, t0, s) == ServerSlot(settings, r, t, s))
    && (forall s <- destroyed | t.Active(s) :: s in pending)
    && (forall s <- lost ::
          !t.Active(s) && s !in pending && s !in destroyed && (s in lost0 || ServerSlot(settings, r0, t0, s).Some?))
  }

  /** What a Delta frame does to a session, slot by slot: it rewrites the pending slots and empties the other destroyed ones. */
  lemma DeltaFrameSlots(settings: Settings, f: ServerFrame, pending: seq<nat>, destroyed: seq<nat>, session: Session, cues: bool)
    requires settings.WellFormed() && session.Valid(settings)
    requires Writable(settings, f, false, pending, destroyed)
    requires forall i | 0 <= i < |pending| :: pending[i] < |f.table.slots|
    requires forall i | 0 <= i < |destroyed| :: destroyed[i] < |f.table.slots|
    ensures var a := ApplyPayload(settings, Delta, EncodePayload(FrameItems(settings, f, false, pending, destroyed)), session, cues);
            && a.ok && a.session.Valid(settings)
            && (forall s: int :: SessionSlot(settings, a.session, s) ==
                  if s in pending then ServerSlot(settings, f.registry, f.table, s)
                  else if s in destroyed then None else SessionSlot(settings, session, s))
  {
    hide ApplyPayload, EncodePayload, ApplyItem, ApplyItems, ItemFor, ServerSlot, Quantises, SessionSlot, Session.Valid, Settings.WellFormed, DestroyItems, SlotItems;
    var gone := DestroyItems(destroyed);
    DestroyMembers(settings, destroyed);
    DestroysEffect(settings, session, destroyed, 0);
    var items := SlotItems(settings, f, false, gone, pending);
    SlotItemsReadable(settings, f, false, gone, pending);
    ApplyPayloadEncoded(settings, Delta, items, session, cues);
    var after := ApplyItems(settings, session, items);
    SlotItemsEffect(settings, f, false, gone, pending, session, -1);
    forall slot: int
      ensures SessionSlot(settings, after, slot) ==
              if slot in pending then ServerSlot(settings, f.registry, f.table, slot)
              else if slot in destroyed then None else SessionSlot(settings, session, slot)
    {
      DestroysEffect(settings, session, destroyed, slot);
      SlotItemsEffect(settings, f, false, gone, pending, session, slot);
    }
  }

  /**
   So a Delta frame brings a session that shows the last written state to the
   current one exactly when every slot it does not rewrite is unchanged or, if
   reported destroyed, empty.
   */
  lemma DeltaFrameExact(
    settings: Settings, f: ServerFrame, pending: seq<nat>, destroyed: seq<nat>, r0: Registry, t0: Table, session: Session, cues: bool)
    requires settings.WellFormed() && session.Valid(settings)
    requires Writable(settings, f, false, pending, destroyed)
    requires forall i | 0 <= i < |pending| :: pending[i] < |f.table.slots|
    requires forall i | 0 <= i < |destroyed| :: destroyed[i] < |f.table.slots|
    requires Agrees(settings, session, r0, t0)
    ensures var a := ApplyPayload(settings, Delta, EncodePayload(FrameItems(settings, f, false, pending, destroyed)), session, cues);
            && a.ok && a.session.Valid(settings)
            && (Agrees(settings, a.session, f.registry, f.table) <==>
                forall s: int | s !in pending ::
                  ServerSlot(settings, f.registry, f.table, s) == if s in destroyed then None else ServerSlot(settings, r0, t0, s))
  {
    hide ApplyPayload, EncodePayload, FrameItems, ServerSlot, SessionSlot, Session.Valid, Settings.WellFormed, Writable;
    DeltaFrameSlots(settings, f, pending, destroyed, session, cues);
    assert forall s: int :: SessionSlot(settings, session, s) == ServerSlot(settings, r0, t0, s);
  }

  /** With everything else pending or destroyed, a Delta frame leaves a session wrong about the lost slots alone. */
  lemma DeltaFrameEffect(settings: Settings, f: ServerFrame, pending: seq<nat>, destroyed: seq<nat>, lost: set<nat>,
                         r0: Registry, t0: Table, lost0: set<nat>, session: Session, cues: bool)
    requires settings.WellFormed() && session.Valid(settings)
    requires Writable(settings, f, false, pending, destroyed)
    requires PendingCovers(settings, r0, t0, lost0, f.registry, f.table, lost, pending, destroyed)
    requires Shows(settings, session, r0, t0, lost0)
    ensures var a := ApplyPayload(settings, Delta, EncodePayload(FrameItems(settings, f, false, pending, destroyed)), session, cues);
            a.ok && a.session.Valid(settings) && Shows(settings, a.session, f.registry, f.table, lost)
  {
    hide ApplyPayload, EncodePayload, FrameItems, SessionSlot, Session.Valid, Writable, ServerSlot, Settings.WellFormed;
    DeltaFrameSlots(settings, f, pending, destroyed, session, cues);
    var a := ApplyPayload(settings, Delta, EncodePayload(FrameItems(settings, f, false, pending, destroyed)), session, cues);
    forall s: int
      ensures if s in lost then SessionSlot(settings, a.session, s).Some? && ServerSlot(settings, f.registry, f.table, s).None?
              else SessionSlot(settings, a.session, s) == ServerSlot(settings, f.registry, f.table, s)
    {
      FreeSlot(settings, f.registry, f.table, s);
      assert if s in lost0 then SessionSlot(settings, session, s).Some? else SessionSlot(settings, session, s) == ServerSlot(settings, r0, t0, s);
    }
  }

  lemma FreeSlot(settings: Settings, r: Registry, t: Table, s: int)
    requires settings.WellFormed()
    ensures !t.Active(s) ==> ServerSlot(settings, r, t, s).None?
  {
  }
}
