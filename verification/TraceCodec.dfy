/** The trace file's records as bytes: little-endian numbers, length-prefixed strings, nested scopes. */
module TraceCodec {
  import opened Wrappers

  type Byte = x: int | 0 <= x < 256
  type Bytes8 = seq<Byte>

  function Power256(width: nat): (p: nat)
    ensures p >= 1
  {
    if width == 0 then 1 else 256 * Power256(width - 1)
  }

  // ------------------------------------------------------------ primitives

  /** `append_pod` of a number `width` bytes wide. */
  function Pod(value: nat, width: nat): (bytes: Bytes8)
    ensures |bytes| == width
  {
    if width == 0 then [] else [value % 256] + Pod(value / 256, width - 1)
  }

  function PodValue(bytes: Bytes8): nat {
    if bytes == [] then 0 else bytes[0] + 256 * PodValue(bytes[1..])
  }

  /** `read_pod`; nothing when the bytes run out. */
  function ReadPod(bytes: Bytes8, width: nat): Option<(nat, Bytes8)> {
    if |bytes| < width then None else Some((PodValue(bytes[..width]), bytes[width..]))
  }

  lemma {:induction false} PodRoundTrip(value: nat, width: nat)
    requires value < Power256(width)
    ensures PodValue(Pod(value, width)) == value
  {
    if width > 0 {
      PodRoundTrip(value / 256, width - 1);
      assert Pod(value, width)[1..] == Pod(value / 256, width - 1);
    }
  }

  lemma ReadPodBack(value: nat, width: nat, rest: Bytes8)
    requires value < Power256(width)
    ensures ReadPod(Pod(value, width) + rest, width) == Some((value, rest))
  {
    PodRoundTrip(value, width);
    var bytes := Pod(value, width) + rest;
    assert bytes[..width] == Pod(value, width) && bytes[width..] == rest;
  }

  lemma Widths()
    ensures Power256(0) == 1 && Power256(1) == 256 && Power256(2) == 0x1_0000 && Power256(4) == 0x1_0000_0000
    ensures Power256(8) == 0x1_0000_0000_0000_0000
  {
    assert Power256(2) == 0x1_0000;
    assert Power256(4) == 0x1_0000_0000;
    assert Power256(6) == 0x1_0000_0000_0000;
  }

  function String(value: Bytes8): Bytes8 {
    Pod(|value|, 4) + value
  }

  function ReadString(bytes: Bytes8): Option<(Bytes8, Bytes8)> {
    match ReadPod(bytes, 4)
    case None => None
    case Some((size, rest)) => if size > |rest| then None else Some((rest[..size], rest[size..]))
  }

  lemma ReadStringBack(value: Bytes8, rest: Bytes8)
    requires |value| < 0x1_0000_0000
    ensures ReadString(String(value) + rest) == Some((value, rest))
  {
    hide Pod, PodValue, ReadPod, Power256;
    Widths();
    ReadPodBack(|value|, 4, value + rest);
    assert String(value) + rest == Pod(|value|, 4) + (value + rest);
    assert (value + rest)[..|value|] == value && (value + rest)[|value|..] == rest;
  }

  /** A run of numbers, each with its own width. */
  function Pods(values: seq<nat>, widths: seq<nat>): Bytes8
    requires |values| == |widths|
  {
    if values == [] then [] else Pod(values[0], widths[0]) + Pods(values[1..], widths[1..])
  }

  function ReadPods(bytes: Bytes8, widths: seq<nat>): (r: Option<(seq<nat>, Bytes8)>)
    ensures r.Some? ==> |r.value.0| == |widths|
  {
    if widths == [] then Some(([], bytes))
    else
      match ReadPod(bytes, widths[0])
      case None => None
      case Some((value, rest)) =>
        match ReadPods(rest, widths[1..])
        case None => None
        case Some((values, rest')) => Some(([value] + values, rest'))
  }

  predicate Fit(values: seq<nat>, widths: seq<nat>) {
    |values| == |widths| && forall i | 0 <= i < |values| :: values[i] < Power256(widths[i])
  }

  lemma {:induction false} ReadPodsBack(values: seq<nat>, widths: seq<nat>, rest: Bytes8)
    requires Fit(values, widths)
    ensures ReadPods(Pods(values, widths) + rest, widths) == Some((values, rest))
    decreases |values|
  {
    hide Pod, ReadPod, Power256;
    if values != [] {
      var more := Pods(values[1..], widths[1..]) + rest;
      ReadPodBack(values[0], widths[0], more);
      ReadPodsBack(values[1..], widths[1..], rest);
      assert Pods(values, widths) + rest == Pod(values[0], widths[0]) + more;
      assert [values[0]] + values[1..] == values;
    } else {
      assert Pods(values, widths) + rest == rest;
    }
  }

  // ---------------------------------------------------------------- events

  datatype Scope = Scope(id: nat, parent: nat, name: Bytes8, beginBits: nat, endBits: nat, payloadBits: nat)

  datatype Event = Event(
    kind: nat, role: nat, client: nat, frame: nat, serverEntity: nat, localEntity: nat, clientNetworkId: nat,
    wireNetworkId: nat, networkVersion: nat, archetype: nat, component: nat, tag: nat, cueType: nat,
    previousMode: nat, mode: nat, remove: bool, data: Bytes8, componentName: Bytes8,
    payloadSource: nat, wireBits: nat, payloadBits: nat, payloadTagBits: nat, scopes: seq<Scope>)

  const HEAD_WIDTHS: seq<nat> := [1, 8, 4, 8, 8, 8, 4, 4, 4, 8, 8, 2, 1, 1, 1]
  const TAIL_WIDTHS: seq<nat> := [1, 8, 8, 1]

  function Head(e: Event): (h: seq<nat>)
    ensures |h| == |HEAD_WIDTHS|
  {
    [e.role, e.client, e.frame, e.serverEntity, e.localEntity, e.clientNetworkId, e.wireNetworkId, e.networkVersion, e.archetype,
     e.component, e.tag, e.cueType, e.previousMode, e.mode, if e.remove then 1 else 0]
  }

  function Tail(e: Event): (t: seq<nat>)
    ensures |t| == |TAIL_WIDTHS|
  {
    [e.payloadSource, e.wireBits, e.payloadBits, e.payloadTagBits]
  }

  function Rebuilt(kind: nat, h: seq<nat>, data: Bytes8, name: Bytes8, t: seq<nat>, scopes: seq<Scope>): Event
    requires |h| == |HEAD_WIDTHS| && |t| == |TAIL_WIDTHS|
  {
    Event(kind, h[0], h[1] % 256, h[2], h[3], h[4], h[5], h[6], h[7], h[8], h[9], h[10], h[11], h[12], h[13], h[14] != 0,
          data, name, t[0], t[1], t[2], t[3], scopes)
  }

  function ScopeBytes(s: Scope): Bytes8 {
    Pods([s.id, s.parent], [4, 4]) + (String(s.name) + Pods([s.beginBits, s.endBits, s.payloadBits], [8, 8, 8]))
  }

  function ScopeList(scopes: seq<Scope>): Bytes8 {
    if scopes == [] then [] else ScopeBytes(scopes[0]) + ScopeList(scopes[1..])
  }

  function ReadScope(bytes: Bytes8): Option<(Scope, Bytes8)> {
    match ReadPods(bytes, [4, 4])
    case None => None
    case Some((ids, rest1)) =>
      match ReadString(rest1)
      case None => None
      case Some((name, rest2)) =>
        match ReadPods(rest2, [8, 8, 8])
        case None => None
        case Some((bits, rest3)) => Some((Scope(ids[0], ids[1], name, bits[0], bits[1], bits[2]), rest3))
  }

  function ReadScopes(bytes: Bytes8, count: nat): Option<(seq<Scope>, Bytes8)>
    decreases count
  {
    if count == 0 then Some(([], bytes))
    else
      match ReadScope(bytes)
      case None => None
      case Some((scope, rest)) =>
        match ReadScopes(rest, count - 1)
        case None => None
        case Some((scopes, rest')) => Some(([scope] + scopes, rest'))
  }

  /** `append_event_payload`. */
  function Payload(e: Event): Bytes8 {
    Pods(Head(e), HEAD_WIDTHS) + (String(e.data) + (String(e.componentName)
    + (Pods(Tail(e), TAIL_WIDTHS) + (Pod(|e.scopes|, 4) + ScopeList(e.scopes)))))
  }

  /** `read_event_payload`; nothing stands for the exception on a malformed payload. */
  function ReadPayload(kind: nat, bytes: Bytes8): Option<Event> {
    match ReadPods(bytes, HEAD_WIDTHS)
    case None => None
    case Some((head, rest1)) =>
      match ReadString(rest1)
      case None => None
      case Some((data, rest2)) =>
        match ReadString(rest2)
        case None => None
        case Some((name, rest3)) =>
          match ReadPods(rest3, TAIL_WIDTHS)
          case None => None
          case Some((tail, rest4)) =>
            match ReadPod(rest4, 4)
            case None => None
            case Some((count, rest5)) =>
              match ReadScopes(rest5, count)
              case None => None
              case Some((scopes, rest6)) => if rest6 != [] then None else Some(Rebuilt(kind, head, data, name, tail, scopes))
  }

  ghost predicate ScopeFits(s: Scope) {
    Fit([s.id, s.parent], [4, 4]) && |s.name| < 0x1_0000_0000 && Fit([s.beginBits, s.endBits, s.payloadBits], [8, 8, 8])
  }

  /** Every field fits the type it has, and every length its four bytes. */
  ghost predicate EventFits(e: Event) {
    && e.kind < 256 && e.client < 256 && Fit(Head(e), HEAD_WIDTHS) && Fit(Tail(e), TAIL_WIDTHS)
    && |e.data| < 0x1_0000_0000 && |e.componentName| < 0x1_0000_0000 && |e.scopes| < 0x1_0000_0000
    && (forall i | 0 <= i < |e.scopes| :: ScopeFits(e.scopes[i]))
    && |Payload(e)| < 0x1_0000_0000
  }

  lemma ReadScopeBack(s: Scope, rest: Bytes8)
    requires ScopeFits(s)
    ensures ReadScope(ScopeBytes(s) + rest) == Some((s, rest))
  {
    hide Pods, ReadPods, String, ReadString, Fit;
    var bits := Pods([s.beginBits, s.endBits, s.payloadBits], [8, 8, 8]) + rest;
    assert ScopeBytes(s) + rest == Pods([s.id, s.parent], [4, 4]) + (String(s.name) + bits);
    ReadPodsBack([s.id, s.parent], [4, 4], String(s.name) + bits);
    ReadStringBack(s.name, bits);
    ReadPodsBack([s.beginBits, s.endBits, s.payloadBits], [8, 8, 8], rest);
  }

  lemma {:induction false} ReadScopesBack(scopes: seq<Scope>, rest: Bytes8)
    requires forall i | 0 <= i < |scopes| :: ScopeFits(scopes[i])
    ensures ReadScopes(ScopeList(scopes) + rest, |scopes|) == Some((scopes, rest))
    decreases |scopes|
  {
    hide ReadScope, ScopeBytes, ScopeFits;
    if scopes != [] {
      ReadScopeBack(scopes[0], ScopeList(scopes[1..]) + rest);
      ReadScopesBack(scopes[1..], rest);
      assert ScopeList(scopes) + rest == ScopeBytes(scopes[0]) + (ScopeList(scopes[1..]) + rest);
      assert [scopes[0]] + scopes[1..] == scopes;
    } else {
      assert ScopeList(scopes) + rest == rest;
    }
  }

  /** Every event that fits its format is read back exactly, whatever its strings and scopes hold. */
  lemma PayloadRoundTrip(e: Event)
    requires EventFits(e)
    ensures ReadPayload(e.kind, Payload(e)) == Some(e)
  {
    hide Pods, ReadPods, Pod, ReadPod, String, ReadString, ScopeList, ReadScopes, Fit, Power256;
    Widths();
    var part5 := ScopeList(e.scopes) + [];
    assert part5 == ScopeList(e.scopes);
    var part4 := Pod(|e.scopes|, 4) + part5;
    var part3 := Pods(Tail(e), TAIL_WIDTHS) + part4;
    var part2 := String(e.componentName) + part3;
    ReadPodsBack(Head(e), HEAD_WIDTHS, String(e.data) + part2);
    ReadStringBack(e.data, part2);
    ReadStringBack(e.componentName, part3);
    ReadPodsBack(Tail(e), TAIL_WIDTHS, part4);
    ReadPodBack(|e.scopes|, 4, part5);
    ReadScopesBack(e.scopes, []);
  }

  // ---------------------------------------------------------------- streams

  datatype Record = Record(event: Event, timestamp: nat)

  const HEADER := 13

  /** `encode_v2_record`. */
  function EncodeRecord(r: Record): Bytes8 {
    Pods([r.event.kind, r.timestamp, |Payload(r.event)|], [1, 8, 4]) + Payload(r.event)
  }

  datatype Next = End | Malformed | Read(record: Record, rest: Bytes8)

  /** `KTraceStreamReader::read_next`: a cut-off record ends the stream, a malformed payload throws. */
  function ReadNext(bytes: Bytes8): (n: Next)
    ensures n.Read? ==> |n.rest| < |bytes|
  {
    match ReadPods(bytes, [1, 8, 4])
    case None => End
    case Some((header, rest)) =>
      ReadPodsShrinks(bytes, [1, 8, 4]);
      if header[2] > |rest| then End
      else
        match ReadPayload(header[0], rest[..header[2]])
        case None => Malformed
        case Some(event) => Read(Record(event, header[1]), rest[header[2]..])
  }

  lemma {:induction false} ReadPodsShrinks(bytes: Bytes8, widths: seq<nat>)
    ensures ReadPods(bytes, widths).Some? ==> |ReadPods(bytes, widths).value.1| <= |bytes|
    ensures ReadPods(bytes, widths).Some? && widths != [] && widths[0] > 0 ==> |ReadPods(bytes, widths).value.1| < |bytes|
    decreases |widths|
  {
    if widths != [] && |bytes| >= widths[0] {
      ReadPodsShrinks(bytes[widths[0]..], widths[1..]);
    }
  }

  /** The reading loop: nothing when a payload is malformed. */
  function ReadAll(bytes: Bytes8): Option<seq<Record>>
    decreases |bytes|
  {
    match ReadNext(bytes)
    case End => Some([])
    case Malformed => None
    case Read(record, rest) =>
      match ReadAll(rest)
      case None => None
      case Some(records) => Some([record] + records)
  }

  function Stream(records: seq<Record>): Bytes8 {
    if records == [] then [] else EncodeRecord(records[0]) + Stream(records[1..])
  }

  ghost predicate RecordFits(r: Record) {
    EventFits(r.event) && r.timestamp < 0x1_0000_0000_0000_0000
  }

  /** How many whole records the first `k` bytes hold. */
  function Whole(records: seq<Record>, k: nat): (m: nat)
    ensures m <= |records|
  {
    if records == [] || k < |EncodeRecord(records[0])| then 0 else 1 + Whole(records[1..], k - |EncodeRecord(records[0])|)
  }

  lemma ReadNextBack(r: Record, rest: Bytes8)
    requires RecordFits(r)
    ensures ReadNext(EncodeRecord(r) + rest) == Read(r, rest)
  {
    hide Pods, ReadPods, Payload, ReadPayload, Power256;
    Widths();
    var payload := Payload(r.event);
    assert EncodeRecord(r) + rest == Pods([r.event.kind, r.timestamp, |payload|], [1, 8, 4]) + (payload + rest);
    ReadPodsBack([r.event.kind, r.timestamp, |payload|], [1, 8, 4], payload + rest);
    assert (payload + rest)[..|payload|] == payload && (payload + rest)[|payload|..] == rest;
    PayloadRoundTrip(r.event);
  }

  lemma {:induction false} PodsLength(values: seq<nat>, widths: seq<nat>)
    requires |values| == |widths|
    ensures |Pods(values, widths)| == Sum(widths)
    decreases |values|
  {
    if values != [] {
      PodsLength(values[1..], widths[1..]);
    }
  }

  function Sum(widths: seq<nat>): nat {
    if widths == [] then 0 else widths[0] + Sum(widths[1..])
  }

  lemma {:induction false} ReadPodsShort(bytes: Bytes8, widths: seq<nat>)
    requires |bytes| < Sum(widths)
    ensures ReadPods(bytes, widths) == None
    decreases |widths|
  {
    if |bytes| >= widths[0] {
      ReadPodsShort(bytes[widths[0]..], widths[1..]);
    }
  }

  /** A record cut off anywhere ends the stream. */
  lemma CutOffEnds(r: Record, k: nat)
    requires RecordFits(r) && k < |EncodeRecord(r)|
    ensures ReadNext(EncodeRecord(r)[..k]) == End
  {
    var payload := Payload(r.event);
    var header := Pods([r.event.kind, r.timestamp, |payload|], [1, 8, 4]);
    var bytes := EncodeRecord(r)[..k];
    PodsLength([r.event.kind, r.timestamp, |payload|], [1, 8, 4]);
    assert Sum([1, 8, 4]) == HEADER;
    if k < HEADER {
      ReadPodsShort(bytes, [1, 8, 4]);
    } else {
      hide Pods, ReadPods, Payload, ReadPayload, Power256;
      Widths();
      assert bytes == header + payload[..k - HEADER];
      ReadPodsBack([r.event.kind, r.timestamp, |payload|], [1, 8, 4], payload[..k - HEADER]);
    }
  }

  /**
   The main result on the codec: any byte prefix of a stream of records decodes
   to exactly the records that are whole in it, and the whole stream to all.
   */
  lemma {:induction false} PrefixDecodes(records: seq<Record>, k: nat)
    requires k <= |Stream(records)| && forall i | 0 <= i < |records| :: RecordFits(records[i])
    ensures ReadAll(Stream(records)[..k]) == Some(records[..Whole(records, k)])
    ensures k == |Stream(records)| ==> Whole(records, k) == |records|
    decreases |records|
  {
    hide ReadNext, EncodeRecord, RecordFits;
    if records == [] {
      EmptyEnds();
    } else {
      var first, rest := EncodeRecord(records[0]), Stream(records[1..]);
      if k < |first| {
        assert Stream(records)[..k] == first[..k];
        CutOffEnds(records[0], k);
        assert records[..0] == [];
      } else {
        PrefixDecodes(records[1..], k - |first|);
        assert Stream(records)[..k] == first + rest[..k - |first|];
        ReadNextBack(records[0], rest[..k - |first|]);
        assert records[..Whole(records, k)] == [records[0]] + records[1..][..Whole(records[1..], k - |first|)];
      }
    }
  }

  lemma EmptyEnds()
    ensures ReadNext([]) == End
  {
  }

  lemma WholeStreamDecodes(records: seq<Record>)
    requires forall i | 0 <= i < |records| :: RecordFits(records[i])
    ensures ReadAll(Stream(records)) == Some(records)
  {
    PrefixDecodes(records, |Stream(records)|);
    assert Stream(records)[..|Stream(records)|] == Stream(records);
    assert records[..|records|] == records;
  }

  // -------------------------------------------------------- the byte loops

  /** The loop of `append_pod`: one byte of the value per turn, lowest first. */
  method AppendPod(out: Bytes8, value: nat, width: nat) returns (appended: Bytes8)
    ensures appended == out + Pod(value, width)
  {
    appended := out;
    var index, rest: nat := 0, value;
    while index < width
      invariant index <= width && appended + Pod(rest, width - index) == out + Pod(value, width)
    {
      assert appended + ([rest % 256] + Pod(rest / 256, width - index - 1)) == appended + [rest % 256] + Pod(rest / 256, width - index - 1);
      appended := appended + [rest % 256];
      rest := rest / 256;
      index := index + 1;
    }
  }

  /** Reading a file record by record, as `KTraceReader::read_file` does. */
  method ReadFile(bytes: Bytes8) returns (records: Option<seq<Record>>)
    ensures records == ReadAll(bytes)
  {
    hide ReadNext;
    Nothing(ReadAll(bytes));
    var rest, read := bytes, [];
    while true
      invariant ReadAll(bytes) == After(read, ReadAll(rest))
      decreases |rest|
    {
      var next := ReadNext(rest);
      match next
      case End =>
        assert read + [] == read;
        return Some(read);
      case Malformed => return None;
      case Read(record, after) =>
        Joined(read, record, ReadAll(after));
        read := read + [record];
        rest := after;
    }
  }

  function After(read: seq<Record>, more: Option<seq<Record>>): Option<seq<Record>> {
    match more case None => None case Some(records) => Some(read + records)
  }

  lemma Nothing(more: Option<seq<Record>>)
    ensures After([], more) == more
  {
    assert more.Some? ==> [] + more.value == more.value;
  }

  lemma Joined(read: seq<Record>, record: Record, more: Option<seq<Record>>)
    ensures more.Some? ==> read + ([record] + more.value) == read + [record] + more.value
  {
  }
}
