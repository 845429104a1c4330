/** Reading a replay payload gives back the items it was built from. */
module ReplayDecoding {
  import opened Wrappers
  import opened Bits
  import opened World
  import opened ReplayWire

  /** A component record that the reader accepts. */
  ghost predicate ReadableComponent(a: Archetype, c: ComponentRecord) {
    && |a.components| == |a.ops| <= 63
    && c.index < |a.components|
    && |c.payload| <= MAX_COUNT
    && a.ops[c.index].deserialize(None, c.payload).Some?
  }

  /** An item that the reader accepts. */
  ghost predicate Readable(settings: Settings, item: Item) {
    && 1 <= item.id < 0x1_0000_0000
    && !item.Header?
    && (item.Record? ==>
          && item.archetype < |settings.archetypes|
          && |item.tagMask| == |item.presentMask| == 64
          && |item.components| <= MAX_COUNT
          && forall i | 0 <= i < |item.components| ::
               ReadableComponent(settings.archetypes[item.archetype], item.components[i]))
  }

  /** Component values after pushing the records in order. */
  ghost function Pushed(a: Archetype, components: map<nat, Bytes>, cs: seq<ComponentRecord>): map<nat, Bytes>
    requires forall i | 0 <= i < |cs| :: ReadableComponent(a, cs[i])
  {
    if cs == [] then components
    else
      var c := cs[|cs| - 1];
      assert ReadableComponent(a, cs[|cs| - 1]);
      Pushed(a, components, cs[..|cs| - 1])[a.components[c.index] := a.ops[c.index].deserialize(None, c.payload).value.0]
  }

  /** What one item does to a session. */
  ghost function ApplyItem(settings: Settings, s: Session, item: Item): Session
    requires settings.WellFormed() && Readable(settings, item)
  {
    if item.Destroy? then s.Remove(item.id)
    else
      var a := settings.archetypes[item.archetype];
      var s1 := s.Ensure(item.id);
      var h := s1.entities[item.id];
      var e := s1.registry[h];
      s1.Put(h, SessionEntity(
                  Some(item.archetype),
                  ApplyTags(a, e.tags, item.tagMask),
                  DropAbsent(a, Pushed(a, e.components, item.components), item.presentMask)))
  }

  ghost function ApplyItems(settings: Settings, s: Session, items: seq<Item>): Session
    requires settings.WellFormed() && forall i | 0 <= i < |items| :: Readable(settings, items[i])
  {
    if items == [] then s
    else ApplyItem(settings, ApplyItems(settings, s, items[..|items| - 1]), items[|items| - 1])
  }

  /** The ids a Full frame lists. */
  ghost function RecordIds(items: seq<Item>): set<nat> {
    set i | 0 <= i < |items| && items[i].Record? :: items[i].id
  }

  lemma ReadComponentEncoded(a: Archetype, c: ComponentCursor, r: ComponentRecord, rest: BitString)
    requires ReadableComponent(a, r) && c.rest == EncodeComponent(r) + rest
    ensures ReadComponent(a, c) ==
            c.(rest := rest, components := c.components[a.components[r.index] := a.ops[r.index].deserialize(None, r.payload).value.0])
  {
    hide Read, ReadField, Encode, Decode, Pow2;
    FieldWidths();
    var tail := Encode(|r.payload|, 16) + (r.payload + rest);
    assert c.rest == Encode(r.index, 16) + tail;
    ReadFieldAppended(r.index, 16, tail);
    ReadFieldAppended(|r.payload|, 16, r.payload + rest);
    ReadAppended(r.payload, rest);
  }

  lemma {:induction false} ReadComponentsEncoded(a: Archetype, c: ComponentCursor, cs: seq<ComponentRecord>, rest: BitString)
    requires |a.components| == |a.ops|
    requires forall i | 0 <= i < |cs| :: ReadableComponent(a, cs[i])
    requires c.ok && c.rest == EncodeComponents(cs) + rest
    ensures ReadComponents(a, c, |cs|) == ComponentCursor(true, rest, Pushed(a, c.components, cs))
  {
    if cs != [] {
      var init, last := cs[..|cs| - 1], cs[|cs| - 1];
      assert c.rest == EncodeComponents(init) + (EncodeComponent(last) + rest);
      ReadComponentsEncoded(a, c, init, EncodeComponent(last) + rest);
      ReadComponentEncoded(a, ReadComponents(a, c, |init|), last, rest);
    } else {
      assert EncodeComponents(cs) + rest == rest;
    }
  }

  lemma ReadEntityEncoded(settings: Settings, c: Cursor, item: Item, rest: BitString)
    requires settings.WellFormed() && Readable(settings, item) && item.Record?
    requires c.ok && c.rest == Encode(|item.components|, 16) + (EncodeComponents(item.components) + rest)
    ensures ReadEntity(settings, c, item.id, item.archetype, item.tagMask, item.presentMask)
            == c.(rest := rest, session := ApplyItem(settings, c.session, item))
  {
    FieldWidths();
    var a := settings.archetypes[item.archetype];
    var s := c.session.Ensure(item.id);
    var e := s.registry[s.entities[item.id]];
    ReadFieldAppended(|item.components|, 16, EncodeComponents(item.components) + rest);
    ReadComponentsEncoded(a, ComponentCursor(true, EncodeComponents(item.components) + rest, e.components), item.components, rest);
  }

  lemma Reassociate(a: BitString, b: BitString, c: BitString, d: BitString, e: BitString, rest: BitString)
    ensures a + (b + c + (d + e)) + rest == a + (b + (c + (d + (e + rest))))
  {
    assert a + (b + c + (d + e)) + rest == a + ((b + c) + ((d + e) + rest));
    assert (b + c) + ((d + e) + rest) == b + (c + ((d + e) + rest));
    assert (d + e) + rest == d + (e + rest);
  }

  lemma ReadBodyEncoded(settings: Settings, c: Cursor, item: Item, rest: BitString)
    requires settings.WellFormed() && Readable(settings, item) && item.Record?
    requires c.ok && c.rest == EncodeBody(item.archetype, item.tagMask + item.presentMask, item.components) + rest
    ensures ReadBody(settings, c, item.id) == c.(rest := rest, session := ApplyItem(settings, c.session, item))
  {
    hide Read, ReadField, ReadEntity, ApplyItem, Encode, Decode, Pow2;
    FieldWidths();
    var rest3 := Encode(|item.components|, 16) + (EncodeComponents(item.components) + rest);
    var rest2 := item.presentMask + rest3;
    var rest1 := item.tagMask + rest2;
    Reassociate(Encode(item.archetype, 32), item.tagMask, item.presentMask, Encode(|item.components|, 16), EncodeComponents(item.components), rest);
    ReadFieldAppended(item.archetype, 32, rest1);
    ReadAppended(item.tagMask, rest2);
    ReadAppended(item.presentMask, rest3);
    ReadEntityEncoded(settings, c.(rest := rest3), item, rest);
  }

  lemma ReadHeader(settings: Settings, kind: FrameKind, c: Cursor, destroy: bool, id: nat, rest: BitString)
    requires settings.WellFormed() && id < 0x1_0000_0000
    requires c.rest == [destroy] + (Encode(id, 32) + rest)
    ensures ReadRecord(settings, kind, c) ==
            if destroy then c.(rest := rest, session := c.session.Remove(id))
            else ReadBody(settings, c.(rest := rest, listed := if kind.Full? then c.listed + {id} else c.listed), id)
  {
    FieldWidths();
    ReadAppended([destroy], Encode(id, 32) + rest);
    ReadFieldAppended(id, 32, rest);
  }

  lemma ReadRecordEncoded(settings: Settings, kind: FrameKind, c: Cursor, item: Item, rest: BitString)
    requires settings.WellFormed() && Readable(settings, item)
    requires c.ok && c.rest == EncodeItem(item) + rest
    ensures ReadRecord(settings, kind, c)
            == c.(rest := rest, session := ApplyItem(settings, c.session, item),
                  listed := if kind.Full? && item.Record? then c.listed + {item.id} else c.listed)
  {
    hide Read, ReadField, ReadRecord, ReadBody, EncodeBody, Encode, Decode, Pow2, EncodeComponents, Pushed;
    if item.Destroy? {
      assert c.rest == [true] + (Encode(item.id, 32) + rest);
      ReadHeader(settings, kind, c, true, item.id, rest);
    } else {
      var body := EncodeBody(item.archetype, item.tagMask + item.presentMask, item.components);
      assert [false] + Encode(item.id, 32) + body + rest == [false] + (Encode(item.id, 32) + (body + rest));
      ReadHeader(settings, kind, c, false, item.id, body + rest);
      ReadBodyEncoded(settings, c.(rest := body + rest, listed := if kind.Full? then c.listed + {item.id} else c.listed), item, rest);
    }
  }

  lemma {:induction false} ReadRecordsEncoded(settings: Settings, kind: FrameKind, c: Cursor, items: seq<Item>, rest: BitString)
    requires settings.WellFormed() && forall i | 0 <= i < |items| :: Readable(settings, items[i])
    requires c.ok && c.rest == EncodeItems(items) + rest
    ensures ReadRecords(settings, kind, c, |items|)
            == c.(rest := rest, session := ApplyItems(settings, c.session, items),
                  listed := if kind.Full? then c.listed + RecordIds(items) else c.listed)
  {
    hide ReadRecord, ApplyItem, EncodeItem, Readable;
    if items == [] {
      assert EncodeItems(items) + rest == rest;
      assert c.listed + RecordIds(items) == c.listed;
    } else {
      var init, last := items[..|items| - 1], items[|items| - 1];
      assert c.rest == EncodeItems(init) + (EncodeItem(last) + rest);
      ReadRecordsEncoded(settings, kind, c, init, EncodeItem(last) + rest);
      ReadRecordEncoded(settings, kind, ReadRecords(settings, kind, c, |init|), last, rest);
      RecordIdsSnoc(items);
    }
  }

  lemma RecordIdsSnoc(items: seq<Item>)
    requires items != []
    ensures var last := items[|items| - 1];
            RecordIds(items) == RecordIds(items[..|items| - 1]) + (if last.Record? then {last.id} else {})
  {
    assert items == items[..|items| - 1] + [items[|items| - 1]];
  }

  lemma {:induction false} CountedAll(items: seq<Item>)
    requires forall i | 0 <= i < |items| :: !items[i].Header?
    ensures Counted(items) == |items|
  {
    if items != [] {
      CountedAll(items[..|items| - 1]);
    }
  }

  /** Applying the payload built from readable items applies exactly those items, in order. */
  lemma ApplyPayloadEncoded(settings: Settings, kind: FrameKind, items: seq<Item>, s: Session, cues: bool)
    requires settings.WellFormed() && |items| <= MAX_COUNT
    requires forall i | 0 <= i < |items| :: Readable(settings, items[i])
    ensures var s' := ApplyItems(settings, s, items);
            ApplyPayload(settings, kind, EncodePayload(items), s, cues)
            == Applied(true, if kind.Full? then DropStale(s', RecordIds(items)) else s')
  {
    assert forall i | 0 <= i < |items| :: !items[i].Header?;
    hide ReadRecords, ReadField, EncodePayload, EncodeItems, ApplyItems, RecordIds, DropStale, Readable, Settings.WellFormed;
    CountRead(items);
    ReadRecordsEncoded(settings, kind, Cursor(true, EncodeItems(items) + [false], s, {}), items, [false]);
    assert {} + RecordIds(items) == RecordIds(items);
  }

  /** The payload's count is read back, with the items and the bit that ends the cues behind it. */
  lemma CountRead(items: seq<Item>)
    requires |items| <= MAX_COUNT && forall i | 0 <= i < |items| :: !items[i].Header?
    ensures ReadField(EncodePayload(items), 16) == Some((|items|, EncodeItems(items) + [false]))
  {
    hide Encode, Decode, Pow2, EncodeItems, Read, ReadField;
    FieldWidths();
    CountedAll(items);
    assert EncodePayload(items) == Encode(|items|, 16) + (EncodeItems(items) + [false]);
    ReadFieldAppended(|items|, 16, EncodeItems(items) + [false]);
  }
}
