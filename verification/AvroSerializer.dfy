/** Flow events on the wire: the Confluent header, then the record of schemas/FlowEvent.avsc in the
    binary encoding of the Apache Avro 1.11 specification (section "Binary Encoding"), and a
    reader of that format that knows nothing of the writer. */
module AvroSerializer {
  import opened Numbers
  import opened Events
  import opened Options
  import opened AddressText
  import opened FlowNames
  import opened Sequences

  // ---------------------------------------------------------------- primitive values

  /** Small magnitudes of either sign become small naturals. */
  function ZigZag(n: int): nat {
    if n >= 0 then 2 * n else -2 * n - 1
  }

  function UnZigZag(n: nat): int {
    if n % 2 == 0 then n / 2 else -(n + 1) / 2
  }

  /** Seven bits a byte, low bits first, the high bit set on all bytes but the last. */
  function Varint(n: nat): seq<u8> {
    if n < 128 then [n] else [128 + n % 128] + Varint(n / 128)
  }

  function EncodeLong(n: int): seq<u8> {
    Varint(ZigZag(n))
  }

  /** Text here is ASCII, of which UTF-8 makes one byte a character. */
  function Utf8(s: string): seq<u8> {
    seq(|s|, i requires 0 <= i < |s| => s[i] as int % 256)
  }

  function EncodeString(s: string): seq<u8> {
    EncodeLong(|s|) + Utf8(s)
  }

  // ---------------------------------------------------------------- the record

  datatype Datum =
    | DString(s: string)
    | DEnum(index: nat)
    | DInt(i: i32)
    | DLong(l: i64)
    | DNull
    | DUnionString(s: string)

  function EncodeDatum(d: Datum): seq<u8> {
    match d
    case DString(s) => EncodeString(s)
    case DEnum(index) => EncodeLong(index)
    case DInt(i) => EncodeLong(i)
    case DLong(l) => EncodeLong(l)
    case DNull => EncodeLong(0)
    case DUnionString(s) => EncodeLong(1) + EncodeString(s)
  }

  function EncodeRecord(fields: seq<Datum>): seq<u8> {
    if fields == [] then [] else EncodeDatum(fields[0]) + EncodeRecord(fields[1..])
  }

  const EVENT_TYPES := ["FLOW_START", "FLOW_END", "FLOW_STATS"]

  function Symbol(t: FlowEventType): (sym: string)
    ensures sym in EVENT_TYPES
  {
    match t
    case Start => "FLOW_START"
    case End => "FLOW_END"
    case Stats => "FLOW_STATS"
  }

  /** Where a symbol stands in the schema's list, which is all the symbols there are. */
  function SymbolIndex(sym: string): (i: nat)
    requires sym in EVENT_TYPES
    ensures i < |EVENT_TYPES| && EVENT_TYPES[i] == sym
  {
    if sym == EVENT_TYPES[0] then 0 else if sym == EVENT_TYPES[1] then 1 else 2
  }

  function ReasonText(r: ExpireReason): string {
    if r.IdleTimeout? then "idle_timeout" else "tcp_teardown"
  }

  /** Conversion of an unsigned counter to a signed 64-bit integer. */
  function ToI64(x: u64): i64 {
    if x < 0x8000_0000_0000_0000 then x else x - TWO64
  }

  function Fields(e: FlowEvent, mixed: bool): seq<Datum> {
    var k := e.state.key;
    [DString("1.0"), DEnum(SymbolIndex(Symbol(e.eventType))),
     DString(FlowId(k, mixed)), DString(IpText(k.srcIp, mixed)), DString(IpText(k.dstIp, mixed)),
     DInt(k.srcPort), DInt(k.dstPort), DInt(k.protocol),
     DLong(e.state.startUs), DLong(e.eventTimestampUs),
     DLong(ToI64(e.state.packetCount)), DLong(ToI64(e.state.byteCount)),
     if e.eventType.End? then DUnionString(ReasonText(e.reason)) else DNull]
  }

  function Be32(x: u32): seq<u8> {
    var high, low := x / 0x1_0000, x % 0x1_0000;
    [high / 256, high % 256, low / 256, low % 256]
  }

  function Wire(schemaId: i32, e: FlowEvent, mixed: bool): seq<u8> {
    [0] + Be32(schemaId % 0x1_0000_0000) + EncodeRecord(Fields(e, mixed))
  }

  lemma {:induction false} EncodeRecordConcat(a: seq<Datum>, b: seq<Datum>)
    ensures EncodeRecord(a + b) == EncodeRecord(a) + EncodeRecord(b)
  {
    hide EncodeDatum;
    if a == [] {
      assert a + b == b;
    } else {
      assert (a + b)[0] == a[0] && (a + b)[1..] == a[1..] + b;
      EncodeRecordConcat(a[1..], b);
      ConcatAssoc(EncodeDatum(a[0]), EncodeRecord(a[1..]), EncodeRecord(b));
    }
  }

  lemma EncodeRecordSnoc(fields: seq<Datum>, d: Datum)
    ensures EncodeRecord(fields + [d]) == EncodeRecord(fields) + EncodeDatum(d)
  {
    hide EncodeDatum;
    EncodeRecordConcat(fields, [d]);
    assert EncodeRecord([d]) == EncodeDatum(d) + [];
  }

  /** Fills the record field by field, encodes it and puts the header in front. */
  method Serialize(schemaId: i32, evt: FlowEvent, mixed: bool) returns (result: seq<u8>)
    ensures result == Wire(schemaId, evt, mixed)
  {
    hide EncodeRecord, Fields;
    var rec := FilledRecord(evt, mixed);
    ThirteenFields(evt, mixed);
    assert rec[..] == Fields(evt, mixed);
    var payload := Encoded(rec);
    result := [];
    result := result + [0];
    var id: u32 := schemaId % 0x1_0000_0000;
    var idBytes := Be32(id);
    result := result + [idBytes[0]];
    result := result + [idBytes[1]];
    result := result + [idBytes[2]];
    result := result + [idBytes[3]];
    assert result == [0] + idBytes;
    result := result + payload;
  }

  lemma ThirteenFields(e: FlowEvent, mixed: bool)
    ensures |Fields(e, mixed)| == 13
  {
  }

  method FilledRecord(evt: FlowEvent, mixed: bool) returns (rec: array<Datum>)
    ensures fresh(rec) && rec.Length == 13 && forall i | 0 <= i < 13 :: rec[i] == Fields(evt, mixed)[i]
  {
    hide FlowId, IpText, ToI64, SymbolIndex, Symbol, ReasonText;
    rec := new Datum[13](_ => DNull);
    FillFlow(rec, evt, mixed);
    rec[8] := DLong(evt.state.startUs);
    rec[9] := DLong(evt.eventTimestampUs);
    rec[10] := DLong(ToI64(evt.state.packetCount));
    rec[11] := DLong(ToI64(evt.state.byteCount));
    var sym := Symbol(evt.eventType);
    rec[1] := DEnum(SymbolIndex(sym));
    if evt.eventType.End? {
      rec[12] := DUnionString(ReasonText(evt.reason));
    } else {
      rec[12] := DNull;
    }
  }

  method FillFlow(rec: array<Datum>, evt: FlowEvent, mixed: bool)
    requires rec.Length == 13
    modifies rec
    ensures forall i | 0 <= i < 8 && i != 1 :: rec[i] == Fields(evt, mixed)[i]
  {
    hide FlowId, IpText, ToI64, SymbolIndex, Symbol, ReasonText;
    var fid := FlowId(evt.state.key, mixed);
    rec[0] := DString("1.0");
    rec[2] := DString(fid);
    rec[3] := DString(IpText(evt.state.key.srcIp, mixed));
    rec[4] := DString(IpText(evt.state.key.dstIp, mixed));
    rec[5] := DInt(evt.state.key.srcPort);
    rec[6] := DInt(evt.state.key.dstPort);
    rec[7] := DInt(evt.state.key.protocol);
  }

  method Encoded(rec: array<Datum>) returns (payload: seq<u8>)
    ensures payload == EncodeRecord(rec[..])
  {
    payload := [];
    var i := 0;
    while i < rec.Length
      invariant 0 <= i <= rec.Length && payload == EncodeRecord(rec[..i])
    {
      assert rec[..i + 1] == rec[..i] + [rec[i]];
      EncodeRecordSnoc(rec[..i], rec[i]);
      payload := payload + EncodeDatum(rec[i]);
      i := i + 1;
    }
    assert rec[..i] == rec[..];
  }

  // ---------------------------------------------------------------- the reader

  /** What a consumer of the topic sees. */
  datatype Record = Record(
    schemaVersion: string, eventType: int, flowId: string, srcIp: string, dstIp: string,
    srcPort: int, dstPort: int, protocol: int,
    startUs: int, eventUs: int, packetCount: int, byteCount: int, reason: Option<string>)

  function ReadVarint(b: seq<u8>): Option<(nat, seq<u8>)> {
    if b == [] then None
    else if b[0] < 128 then Some((b[0], b[1..]))
    else
      var (n, rest) :- ReadVarint(b[1..]);
      Some((b[0] - 128 + 128 * n, rest))
  }

  function ReadLong(b: seq<u8>): Option<(int, seq<u8>)> {
    var (n, rest) :- ReadVarint(b);
    Some((UnZigZag(n), rest))
  }

  function Text(b: seq<u8>): string {
    seq(|b|, i requires 0 <= i < |b| => b[i] as char)
  }

  function ReadString(b: seq<u8>): Option<(string, seq<u8>)> {
    var (n, rest) :- ReadLong(b);
    if 0 <= n <= |rest| then Some((Text(rest[..n]), rest[n..])) else None
  }

  function ReadReason(b: seq<u8>): Option<(Option<string>, seq<u8>)> {
    var (branch, rest) :- ReadLong(b);
    if branch == 0 then Some((None, rest))
    else if branch == 1 then
      var (s, rest2) :- ReadString(rest);
      Some((Some(s), rest2))
    else None
  }

  datatype Head = Head(schemaVersion: string, eventType: int, flowId: string, srcIp: string, dstIp: string)

  function ReadHead(b: seq<u8>): Option<(Head, seq<u8>)> {
    var (schemaVersion, b1) :- ReadString(b);
    var (eventType, b2) :- ReadLong(b1);
    var (flowId, b3) :- ReadString(b2);
    var (srcIp, b4) :- ReadString(b3);
    var (dstIp, b5) :- ReadString(b4);
    Some((Head(schemaVersion, eventType, flowId, srcIp, dstIp), b5))
  }

  function ReadLongs(b: seq<u8>, count: nat): Option<(seq<int>, seq<u8>)>
    decreases count
  {
    if count == 0 then Some(([], b))
    else
      var (n, rest) :- ReadLong(b);
      var (ns, rest2) :- ReadLongs(rest, count - 1);
      Some(([n] + ns, rest2))
  }

  lemma {:induction false} ReadLongsCount(b: seq<u8>, count: nat)
    ensures ReadLongs(b, count).Some? ==> |ReadLongs(b, count).value.0| == count
    decreases count
  {
    if count > 0 && ReadLong(b).Some? {
      ReadLongsCount(ReadLong(b).value.1, count - 1);
    }
  }

  /** Reads the record and returns it with the bytes behind it. */
  function ReadRecord(b: seq<u8>): Option<(Record, seq<u8>)> {
    var (h, b1) :- ReadHead(b);
    var (ns, b2) :- ReadLongs(b1, 7);
    var (reason, b3) :- ReadReason(b2);
    ReadLongsCount(b1, 7);
    Some((Record(h.schemaVersion, h.eventType, h.flowId, h.srcIp, h.dstIp,
                 ns[0], ns[1], ns[2], ns[3], ns[4], ns[5], ns[6], reason), b3))
  }

  function FromBe32(b: seq<u8>): u32
    requires |b| == 4
  {
    Be16(b[0], b[1]) as int * 0x1_0000 + Be16(b[2], b[3])
  }

  /** Reads the header and the record: schema id, record, and what follows. */
  function ReadWire(b: seq<u8>): Option<(u32, Record, seq<u8>)> {
    if |b| < 5 || b[0] != 0 then None
    else
      var (r, rest) :- ReadRecord(b[5..]);
      Some((FromBe32(b[1..5]), r, rest))
  }

  // ---------------------------------------------------------------- reading undoes writing

  lemma ZigZagRoundTrip(n: int)
    ensures UnZigZag(ZigZag(n)) == n
  {
  }

  lemma {:induction false} VarintRoundTrip(n: nat, rest: seq<u8>)
    ensures ReadVarint(Varint(n) + rest) == Some((n, rest))
  {
    var b := Varint(n) + rest;
    if n >= 128 {
      assert b[1..] == Varint(n / 128) + rest;
      VarintRoundTrip(n / 128, rest);
    }
  }

  lemma LongRoundTrip(n: int, rest: seq<u8>)
    ensures ReadLong(EncodeLong(n) + rest) == Some((n, rest))
  {
    ZigZagRoundTrip(n);
    VarintRoundTrip(ZigZag(n), rest);
  }

  lemma TextRoundTrip(s: string)
    requires Ascii(s)
    ensures Text(Utf8(s)) == s
  {
  }

  lemma StringRoundTrip(s: string, rest: seq<u8>)
    requires Ascii(s)
    ensures ReadString(EncodeString(s) + rest) == Some((s, rest))
  {
    hide EncodeLong, ReadLong, Utf8, Text, Ascii;
    assert EncodeString(s) + rest == EncodeLong(|s|) + (Utf8(s) + rest);
    LongRoundTrip(|s|, Utf8(s) + rest);
    TextRoundTrip(s);
    Utf8Length(s);
    assert (Utf8(s) + rest)[..|s|] == Utf8(s) && (Utf8(s) + rest)[|s|..] == rest;
  }

  lemma Utf8Length(s: string)
    ensures |Utf8(s)| == |s|
  {
  }

  lemma ReasonRoundTrip(d: Datum, rest: seq<u8>)
    requires d.DNull? || (d.DUnionString? && Ascii(d.s))
    ensures ReadReason(EncodeDatum(d) + rest) == Some((if d.DNull? then None else Some(d.s), rest))
  {
    hide EncodeLong, ReadLong, EncodeString, ReadString, Ascii;
    if d.DNull? {
      LongRoundTrip(0, rest);
    } else {
      assert EncodeDatum(d) + rest == EncodeLong(1) + (EncodeString(d.s) + rest);
      LongRoundTrip(1, EncodeString(d.s) + rest);
      StringRoundTrip(d.s, rest);
    }
  }

  lemma HeadRoundTrip(h: Head, rest: seq<u8>)
    requires Ascii(h.schemaVersion) && Ascii(h.flowId) && Ascii(h.srcIp) && Ascii(h.dstIp)
    ensures ReadHead(EncodeString(h.schemaVersion) + (EncodeLong(h.eventType) + (EncodeString(h.flowId) +
                     (EncodeString(h.srcIp) + (EncodeString(h.dstIp) + rest))))) == Some((h, rest))
  {
    hide EncodeLong, ReadLong, EncodeString, ReadString, Ascii;
    var b5 := rest;
    var b4 := EncodeString(h.dstIp) + b5;
    var b3 := EncodeString(h.srcIp) + b4;
    var b2 := EncodeString(h.flowId) + b3;
    var b1 := EncodeLong(h.eventType) + b2;
    StringRoundTrip(h.schemaVersion, b1);
    LongRoundTrip(h.eventType, b2);
    StringRoundTrip(h.flowId, b3);
    StringRoundTrip(h.srcIp, b4);
    StringRoundTrip(h.dstIp, b5);
  }

  function EncodeLongs(ns: seq<int>): seq<u8> {
    if ns == [] then [] else EncodeLong(ns[0]) + EncodeLongs(ns[1..])
  }

  lemma {:induction false} LongsRoundTrip(ns: seq<int>, rest: seq<u8>)
    ensures ReadLongs(EncodeLongs(ns) + rest, |ns|) == Some((ns, rest))
    decreases |ns|
  {
    hide EncodeLong, ReadLong;
    if ns == [] {
      assert EncodeLongs(ns) + rest == rest;
    } else {
      assert EncodeLongs(ns) + rest == EncodeLong(ns[0]) + (EncodeLongs(ns[1..]) + rest);
      LongRoundTrip(ns[0], EncodeLongs(ns[1..]) + rest);
      LongsRoundTrip(ns[1..], rest);
      assert [ns[0]] + ns[1..] == ns;
    }
  }

  predicate IsNumber(d: Datum, n: int) {
    (d.DInt? && d.i == n) || (d.DLong? && d.l == n)
  }

  lemma {:induction false} NumbersAsLongs(ds: seq<Datum>, ns: seq<int>)
    requires |ds| == |ns| && forall i | 0 <= i < |ds| :: IsNumber(ds[i], ns[i])
    ensures EncodeRecord(ds) == EncodeLongs(ns)
    decreases |ds|
  {
    if ds != [] {
      assert IsNumber(ds[0], ns[0]);
      NumbersAsLongs(ds[1..], ns[1..]);
    }
  }

  function HeadOf(e: FlowEvent, mixed: bool): Head {
    var k := e.state.key;
    Head("1.0", SymbolIndex(Symbol(e.eventType)), FlowId(k, mixed), IpText(k.srcIp, mixed), IpText(k.dstIp, mixed))
  }

  function NumbersOf(e: FlowEvent): seq<int> {
    var k := e.state.key;
    [k.srcPort, k.dstPort, k.protocol, e.state.startUs, e.eventTimestampUs,
     ToI64(e.state.packetCount), ToI64(e.state.byteCount)]
  }

  function ReasonOf(e: FlowEvent): Datum {
    if e.eventType.End? then DUnionString(ReasonText(e.reason)) else DNull
  }

  /** What the reader should see: the named fields of the schema. */
  function RecordOf(e: FlowEvent, mixed: bool): Record {
    var k := e.state.key;
    Record("1.0", match e.eventType case Start => 0 case End => 1 case Stats => 2,
           FlowId(k, mixed), IpText(k.srcIp, mixed), IpText(k.dstIp, mixed), k.srcPort, k.dstPort, k.protocol,
           e.state.startUs, e.eventTimestampUs, ToI64(e.state.packetCount), ToI64(e.state.byteCount),
           if e.eventType.End? then Some(if e.reason.IdleTimeout? then "idle_timeout" else "tcp_teardown") else None)
  }

  function EncodeHead(h: Head, rest: seq<u8>): seq<u8>
    requires h.eventType >= 0
  {
    EncodeString(h.schemaVersion) + (EncodeLong(h.eventType) + (EncodeString(h.flowId) +
    (EncodeString(h.srcIp) + (EncodeString(h.dstIp) + rest))))
  }

  lemma FirstField(d: Datum, ds: seq<Datum>, rest: seq<u8>)
    ensures EncodeRecord([d] + ds) + rest == EncodeDatum(d) + (EncodeRecord(ds) + rest)
  {
    assert ([d] + ds)[1..] == ds;
    ConcatAssoc(EncodeDatum(d), EncodeRecord(ds), rest);
  }

  lemma FiveFields(a: Datum, b: Datum, c: Datum, d: Datum, e: Datum, rest: seq<u8>)
    ensures EncodeRecord([a, b, c, d, e]) + rest ==
            EncodeDatum(a) + (EncodeDatum(b) + (EncodeDatum(c) + (EncodeDatum(d) + (EncodeDatum(e) + rest))))
  {
    hide EncodeDatum;
    assert [a, b, c, d, e] == [a] + [b, c, d, e] && [b, c, d, e] == [b] + [c, d, e] && [c, d, e] == [c] + [d, e];
    assert [d, e] == [d] + [e] && [e] == [e] + [] && EncodeRecord([]) + rest == rest;
    FirstField(a, [b, c, d, e], rest);
    FirstField(b, [c, d, e], rest);
    FirstField(c, [d, e], rest);
    FirstField(d, [e], rest);
    FirstField(e, [], rest);
  }

  /** The seven numbers stand together, in schema order. */
  lemma NumberFields(e: FlowEvent, mixed: bool)
    ensures EncodeRecord(Fields(e, mixed)[5..12]) == EncodeLongs(NumbersOf(e))
  {
    hide FlowId, IpText, EncodeRecord, EncodeLongs, ToI64, SymbolIndex;
    var fields := Fields(e, mixed);
    var numbers := fields[5..12];
    assert numbers == [fields[5], fields[6], fields[7], fields[8], fields[9], fields[10], fields[11]];
    forall i | 0 <= i < 7
      ensures IsNumber(numbers[i], NumbersOf(e)[i])
    {
      if i < 3 {
        assert i == 0 || i == 1 || i == 2;
      } else {
        assert i == 3 || i == 4 || i == 5 || i == 6;
      }
    }
    NumbersAsLongs(numbers, NumbersOf(e));
  }

  lemma HeadFields(e: FlowEvent, mixed: bool, tail: seq<u8>)
    ensures EncodeRecord(Fields(e, mixed)[..5]) + tail == EncodeHead(HeadOf(e, mixed), tail)
  {
    hide FlowId, IpText, EncodeString, EncodeLong, EncodeRecord, SymbolIndex;
    var fields := Fields(e, mixed);
    assert fields[..5] == [fields[0], fields[1], fields[2], fields[3], fields[4]];
    FiveFields(fields[0], fields[1], fields[2], fields[3], fields[4], tail);
  }

  lemma ReasonField(e: FlowEvent, mixed: bool)
    ensures EncodeRecord(Fields(e, mixed)[12..]) == EncodeDatum(ReasonOf(e))
  {
    hide FlowId, IpText, EncodeDatum;
    var reason := Fields(e, mixed)[12..];
    assert reason == [ReasonOf(e)] && reason[1..] == [];
    assert EncodeRecord(reason) == EncodeDatum(ReasonOf(e)) + [];
  }

  lemma RecordInThree(fields: seq<Datum>)
    requires |fields| == 13
    ensures EncodeRecord(fields) ==
            (EncodeRecord(fields[..5]) + EncodeRecord(fields[5..12])) + EncodeRecord(fields[12..])
  {
    hide EncodeRecord;
    assert fields[..5] + fields[5..12] == fields[..12];
    assert fields[..12] + fields[12..] == fields;
    EncodeRecordConcat(fields[..5], fields[5..12]);
    EncodeRecordConcat(fields[..12], fields[12..]);
  }

  lemma RecordLayout(e: FlowEvent, mixed: bool, rest: seq<u8>)
    ensures EncodeRecord(Fields(e, mixed)) + rest ==
            EncodeHead(HeadOf(e, mixed), EncodeLongs(NumbersOf(e)) + (EncodeDatum(ReasonOf(e)) + rest))
  {
    var fields := Fields(e, mixed);
    assert |fields| == 13;
    hide Fields, HeadOf, NumbersOf, ReasonOf, EncodeRecord, EncodeHead, EncodeLongs, EncodeDatum;
    RecordInThree(fields);
    NumberFields(e, mixed);
    ReasonField(e, mixed);
    HeadFields(e, mixed, EncodeLongs(NumbersOf(e)) + (EncodeDatum(ReasonOf(e)) + rest));
    FourParts(EncodeRecord(fields[..5]), EncodeLongs(NumbersOf(e)), EncodeDatum(ReasonOf(e)), rest);
  }

  lemma FourParts(a: seq<u8>, b: seq<u8>, c: seq<u8>, d: seq<u8>)
    ensures ((a + b) + c) + d == a + (b + (c + d))
  {
  }

  lemma PlainTexts(e: FlowEvent, mixed: bool)
    ensures Ascii(HeadOf(e, mixed).schemaVersion) && Ascii(FlowId(e.state.key, mixed))
    ensures Ascii(IpText(e.state.key.srcIp, mixed)) && Ascii(IpText(e.state.key.dstIp, mixed))
    ensures e.eventType.End? ==> Ascii(ReasonText(e.reason))
  {
    hide FlowId, IpText, Symbol, SymbolIndex;
    FlowIdAscii(e.state.key, mixed);
    IpTextAscii(e.state.key.srcIp, mixed);
    IpTextAscii(e.state.key.dstIp, mixed);
  }

  lemma RecordRoundTrip(e: FlowEvent, mixed: bool, rest: seq<u8>)
    ensures ReadRecord(EncodeRecord(Fields(e, mixed)) + rest) == Some((RecordOf(e, mixed), rest))
  {
    hide FlowId, IpText, EncodeString, EncodeLong, ToI64, EncodeRecord, Fields, ReadHead, ReadLongs, ReadReason, Ascii;
    var numbers, reason := EncodeLongs(NumbersOf(e)), EncodeDatum(ReasonOf(e));
    PlainTexts(e, mixed);
    RecordLayout(e, mixed, rest);
    HeadRoundTrip(HeadOf(e, mixed), numbers + (reason + rest));
    LongsRoundTrip(NumbersOf(e), reason + rest);
    ReasonRoundTrip(ReasonOf(e), rest);
  }

  lemma Be32RoundTrip(x: u32)
    ensures FromBe32(Be32(x)) == x
  {
  }

  /** A reader of the published format recovers the schema id and every field of the record, and
      consumes exactly the message, whatever follows it. */
  lemma WireRoundTrip(schemaId: i32, e: FlowEvent, mixed: bool, rest: seq<u8>)
    ensures ReadWire(Wire(schemaId, e, mixed) + rest) ==
            Some((schemaId % 0x1_0000_0000, RecordOf(e, mixed), rest))
  {
    hide EncodeRecord, Fields, ReadRecord, RecordOf;
    var id := schemaId % 0x1_0000_0000;
    var b := Wire(schemaId, e, mixed) + rest;
    assert b[5..] == EncodeRecord(Fields(e, mixed)) + rest;
    assert b[1..5] == Be32(id);
    Be32RoundTrip(id);
    RecordRoundTrip(e, mixed, rest);
  }

  /** A consumer reads the reason "idle_timeout" for an idle end, "tcp_teardown" for a TCP teardown,
      and none for any other event. */
  lemma ReasonOnWire(schemaId: i32, e: FlowEvent, mixed: bool, rest: seq<u8>)
    ensures var message := ReadWire(Wire(schemaId, e, mixed) + rest);
      && message.Some?
      && var reason := message.value.1.reason;
         && (reason == Some("idle_timeout") <==> e.eventType.End? && e.reason.IdleTimeout?)
         && (reason == Some("tcp_teardown") <==> e.eventType.End? && e.reason.TcpTeardown?)
         && (reason == None <==> !e.eventType.End?)
  {
    WireRoundTrip(schemaId, e, mixed, rest);
    hide FlowId, IpText, Wire, ReadWire;
    assert "idle_timeout"[0] != "tcp_teardown"[0];
  }

  // ---------------------------------------------------------------- back to the event

  /** The event a record describes, as far as it can be told: the last-seen time is not on the
      wire, and the reason only for an end. */
  function EventOf(r: Record): FlowEvent {
    FlowEvent(if r.eventType == 0 then Start else if r.eventType == 1 then End else Stats,
              FlowState(ParseFlowId(r.flowId), ClampI64(r.startUs), 0, Wrap64(r.packetCount), Wrap64(r.byteCount)),
              ClampI64(r.eventUs),
              if r.reason == Some("tcp_teardown") then TcpTeardown else IdleTimeout)
  }

  function ClampI64(n: int): i64 {
    Max(-0x8000_0000_0000_0000, Min(n, 0x7fff_ffff_ffff_ffff))
  }

  /** The event without what the wire leaves out. */
  function OnWire(e: FlowEvent): FlowEvent {
    e.(state := e.state.(lastSeenUs := 0), reason := if e.eventType.End? then e.reason else IdleTimeout)
  }

  lemma EventRoundTrip(e: FlowEvent, mixed: bool)
    ensures EventOf(RecordOf(e, mixed)) == OnWire(e)
  {
    hide FlowId, IpText, ParseFlowId;
    FlowIdRoundTrip(e.state.key, mixed);
  }

  /** Two events are the same message exactly when they agree on everything but the last-seen time
      and, unless they are ends, the reason; so no key, counter or timestamp is ever confused. */
  lemma SameMessageIffSameOnWire(schemaId: i32, a: FlowEvent, b: FlowEvent, mixed: bool)
    ensures Wire(schemaId, a, mixed) == Wire(schemaId, b, mixed) <==> OnWire(a) == OnWire(b)
  {
    if Wire(schemaId, a, mixed) == Wire(schemaId, b, mixed) {
      hide Wire, ReadWire, RecordOf, EventOf, OnWire;
      WireRoundTrip(schemaId, a, mixed, []);
      WireRoundTrip(schemaId, b, mixed, []);
      EventRoundTrip(a, mixed);
      EventRoundTrip(b, mixed);
    }
    if OnWire(a) == OnWire(b) {
      hide EncodeRecord, FlowId, IpText;
      assert a.state.key == OnWire(a).state.key && b.state.key == OnWire(b).state.key;
      assert Fields(a, mixed) == Fields(b, mixed);
    }
  }
}
