/** The record codec of an uncompressed block: encoding, batch decoding and incremental scanning. */
module RawBlock {
  import opened CatalogTypes

  type Byte = x: int | 0 <= x < 256
  type U32 = x: int | 0 <= x <= MAX_U32
  type U64 = x: int | 0 <= x <= MAX_U64
  type I64 = x: int | -0x8000_0000_0000_0000 <= x < 0x8000_0000_0000_0000

  const RECORD_HEADER: nat := 16
  const MAX_RAW_BLOCK: nat := 0x100_0000
  const MAX_STORED_BLOCK: nat := 0x140_0000
  const MAX_HEADERS: nat := 64
  const MAX_HEADER_BYTES: nat := 0x4_0000
  const MAX_HEADER_KEY: nat := 1024
  const MAX_HEADER_VALUE: nat := 0xFFFF
  const MAX_VALUE: nat := 0x40_0000

  // ---- Big-endian numbers ----

  function Pow256(w: nat): nat { if w == 0 then 1 else 256 * Pow256(w - 1) }

  function Put(w: nat, n: nat): (s: seq<Byte>)
    ensures |s| == w
  {
    if w == 0 then [] else Put(w - 1, n / 256) + [n % 256]
  }

  function Get(s: seq<Byte>): nat { if s == [] then 0 else Get(s[..|s|-1]) * 256 + s[|s|-1] }

  lemma {:induction false} GetPut(w: nat, n: nat)
    requires n < Pow256(w)
    ensures Get(Put(w, n)) == n
  {
    if w > 0 {
      GetPut(w - 1, n / 256);
      var s := Put(w, n);
      assert s[..|s|-1] == Put(w - 1, n / 256);
    }
  }

  lemma {:induction false} PutGet(s: seq<Byte>)
    ensures Get(s) < Pow256(|s|) && Put(|s|, Get(s)) == s
  {
    if s != [] {
      var n := |s| - 1;
      PutGet(s[..n]);
      assert (Get(s[..n]) * 256 + s[n]) / 256 == Get(s[..n]) && (Get(s[..n]) * 256 + s[n]) % 256 == s[n];
      assert s == s[..n] + [s[n]];
    }
  }

  lemma Widths()
    ensures Pow256(2) == 0x1_0000 && Pow256(4) == MAX_U32 + 1 && Pow256(8) == MAX_U64 + 1
  {
    assert Pow256(2) == 0x1_0000;
    assert Pow256(4) == 0x1_0000_0000;
    assert Pow256(6) == 0x1_0000_0000_0000;
  }

  /** Signed timestamps travel as their 64-bit two's complement. */
  function Unsigned(x: I64): U64 { if x < 0 then x + MAX_U64 + 1 else x }

  function Signed(u: U64): I64 { if u >= 0x8000_0000_0000_0000 then u - MAX_U64 - 1 else u }

  lemma SignedRoundTrip(x: I64, u: U64)
    ensures Signed(Unsigned(x)) == x && Unsigned(Signed(u)) == u
  {
  }

  /** A number field reads back as written, and writes back as read. */
  lemma FieldRoundTrip(w: nat, n: nat, s: seq<Byte>)
    requires w == 2 || w == 4 || w == 8
    ensures n < Pow256(w) ==> Get(Put(w, n)) == n
    ensures |s| == w ==> Put(w, Get(s)) == s && Get(s) < Pow256(w)
  {
    if n < Pow256(w) { GetPut(w, n); }
    if |s| == w { PutGet(s); }
  }

  // ---- Records ----

  datatype Header = Header(key: seq<Byte>, value: seq<Byte>)

  datatype RawRecord = RawRecord(timestamp: I64, headers: seq<Header>, value: seq<Byte>)

  datatype Record = Record(lsn: nat, timestamp: I64, headers: seq<Header>, value: seq<Byte>)

  predicate ValidHeader(h: Header) { 0 < |h.key| <= MAX_HEADER_KEY && |h.value| <= MAX_HEADER_VALUE }

  predicate ValidEntries(hs: seq<Header>) { |hs| <= MAX_HEADERS && forall i :: 0 <= i < |hs| ==> ValidHeader(hs[i]) }

  function EntryBytes(h: Header): seq<Byte> { Put(2, |h.key|) + Put(2, |h.value|) + h.key + h.value }

  function EntriesBytes(hs: seq<Header>): seq<Byte> { if hs == [] then [] else EntryBytes(hs[0]) + EntriesBytes(hs[1..]) }

  function HeaderBytes(hs: seq<Header>): seq<Byte> { if hs == [] then [] else Put(2, |hs|) + EntriesBytes(hs) }

  function RecordBytes(r: RawRecord): seq<Byte> {
    Put(8, Unsigned(r.timestamp)) + Put(4, |HeaderBytes(r.headers)|) + Put(4, |r.value|) + HeaderBytes(r.headers) + r.value
  }

  function RecordsBytes(rs: seq<RawRecord>): seq<Byte> { if rs == [] then [] else RecordBytes(rs[0]) + RecordsBytes(rs[1..]) }

  predicate ValidRecord(r: RawRecord) {
    ValidEntries(r.headers) && |HeaderBytes(r.headers)| <= MAX_HEADER_BYTES && |r.value| <= MAX_VALUE
  }

  predicate Ordered(rs: seq<RawRecord>) { forall i, j :: 0 <= i < |rs| && i < j < |rs| && j == i + 1 ==> rs[i].timestamp <= rs[j].timestamp }

  /** What the encoder takes: at least one record, each within its limits, timestamps in order, the block not too large. */
  predicate Encodable(rs: seq<RawRecord>) {
    rs != [] && (forall i :: 0 <= i < |rs| ==> ValidRecord(rs[i])) && Ordered(rs) && |RecordsBytes(rs)| <= MAX_RAW_BLOCK
  }

  lemma {:induction false} EntriesConcat(a: seq<Header>, b: seq<Header>)
    ensures EntriesBytes(a + b) == EntriesBytes(a) + EntriesBytes(b)
  {
    hide EntryBytes;
    if a == [] {
      assert a + b == b;
    } else {
      assert (a + b)[1..] == a[1..] + b;
      EntriesConcat(a[1..], b);
      assert EntryBytes(a[0]) + (EntriesBytes(a[1..]) + EntriesBytes(b)) == (EntryBytes(a[0]) + EntriesBytes(a[1..])) + EntriesBytes(b);
    }
  }

  lemma {:induction false} RecordsConcat(a: seq<RawRecord>, b: seq<RawRecord>)
    ensures RecordsBytes(a + b) == RecordsBytes(a) + RecordsBytes(b)
  {
    hide RecordBytes;
    if a == [] {
      assert a + b == b;
    } else {
      assert (a + b)[1..] == a[1..] + b;
      RecordsConcat(a[1..], b);
      assert RecordBytes(a[0]) + (RecordsBytes(a[1..]) + RecordsBytes(b)) == (RecordBytes(a[0]) + RecordsBytes(a[1..])) + RecordsBytes(b);
    }
  }

  lemma EntriesOne(h: Header)
    ensures EntriesBytes([h]) == EntryBytes(h)
  {
    hide EntryBytes;
    assert [h][1..] == [];
    assert EntriesBytes([]) == [];
  }

  lemma RecordsOne(r: RawRecord)
    ensures RecordsBytes([r]) == RecordBytes(r)
  {
    hide RecordBytes;
    assert [r][1..] == [];
    assert RecordsBytes([]) == [];
  }

  // ---- Encoding ----

  datatype SegError = InvalidSegment | RecordTooLarge | BlockTooLarge | IndexMismatch

  datatype Res<+T> = Fine(value: T) | Bad(error: SegError) {
    predicate IsFailure() { Bad? }
    function PropagateFailure<U>(): Res<U>
      requires Bad?
    {
      Bad(error)
    }
    function Extract(): T
      requires Fine?
    {
      value
    }
  }

  lemma EntryLength(h: Header)
    ensures |EntryBytes(h)| == 4 + |h.key| + |h.value|
  {
  }

  lemma {:induction false} EntriesLength(hs: seq<Header>, n: nat)
    requires n <= |hs|
    ensures |EntriesBytes(hs[..n])| <= |EntriesBytes(hs)|
  {
    assert hs == hs[..n] + hs[n..];
    EntriesConcat(hs[..n], hs[n..]);
  }

  /** The encoded length of a record's headers, when they are within the limits. */
  method EncodedHeadersLen(hs: seq<Header>) returns (r: Res<nat>)
    ensures r.Fine? <==> ValidEntries(hs) && |HeaderBytes(hs)| <= MAX_HEADER_BYTES
    ensures r.Fine? ==> r.value == |HeaderBytes(hs)|
  {
    hide EntryBytes, EntriesBytes;
    if |hs| == 0 { return Fine(0); }
    if |hs| > MAX_HEADERS { return Bad(RecordTooLarge); }
    var total, i := 2, 0;
    assert hs[..0] == [];
    NoEntries();
    while i < |hs|
      invariant 0 <= i <= |hs| && total == 2 + |EntriesBytes(hs[..i])| <= MAX_HEADER_BYTES
      invariant forall j :: 0 <= j < i ==> ValidHeader(hs[j])
    {
      var h := hs[i];
      if |h.key| == 0 { return Bad(InvalidSegment); }
      if |h.key| > MAX_HEADER_KEY || |h.value| > MAX_HEADER_VALUE { return Bad(RecordTooLarge); }
      total := total + 4 + |h.key| + |h.value|;
      assert hs[..i+1] == hs[..i] + [h];
      EntriesConcat(hs[..i], [h]);
      EntriesOne(h);
      EntryLength(h);
      if total > MAX_HEADER_BYTES {
        EntriesLength(hs, i + 1);
        return Bad(RecordTooLarge);
      }
      i := i + 1;
    }
    assert hs[..i] == hs;
    return Fine(total);
  }

  lemma NoEntries()
    ensures EntriesBytes([]) == []
  {
  }

  lemma NoRecords()
    ensures RecordsBytes([]) == []
  {
  }

  lemma RecordLength(r: RawRecord)
    ensures |RecordBytes(r)| == RECORD_HEADER + |HeaderBytes(r.headers)| + |r.value|
  {
    hide HeaderBytes;
  }

  method RawRecordSize(r: RawRecord) returns (n: Res<nat>)
    ensures n.Fine? <==> ValidRecord(r)
    ensures n.Fine? ==> n.value == |RecordBytes(r)|
  {
    hide HeaderBytes, RecordBytes;
    RecordLength(r);
    if |r.value| > MAX_VALUE { return Bad(RecordTooLarge); }
    var headers :- EncodedHeadersLen(r.headers);
    return Fine(RECORD_HEADER + headers + |r.value|);
  }

  lemma {:induction false} RecordsLength(rs: seq<RawRecord>, n: nat)
    requires n <= |rs|
    ensures |RecordsBytes(rs[..n])| <= |RecordsBytes(rs)|
  {
    assert rs == rs[..n] + rs[n..];
    RecordsConcat(rs[..n], rs[n..]);
  }

  /** The bytes of a block: exactly the records' encodings one after another, or an error when they do not qualify. */
  method EncodeRawBlock(rs: seq<RawRecord>) returns (r: Res<seq<Byte>>)
    ensures r.Fine? <==> Encodable(rs)
    ensures r.Fine? ==> r.value == RecordsBytes(rs)
  {
    hide RecordBytes, RecordsBytes, HeaderBytes;
    if rs == [] { return Bad(InvalidSegment); }
    var total, i := 0, 0;
    assert rs[..0] == [];
    NoRecords();
    while i < |rs|
      invariant 0 <= i <= |rs| && total == |RecordsBytes(rs[..i])| <= MAX_RAW_BLOCK
      invariant forall j :: 0 <= j < i ==> ValidRecord(rs[j])
      invariant forall j, k :: 0 <= j < i && j < k < i && k == j + 1 ==> rs[j].timestamp <= rs[k].timestamp
    {
      var size :- RawRecordSize(rs[i]);
      if i > 0 && rs[i].timestamp < rs[i-1].timestamp {
        assert !Ordered(rs);
        return Bad(InvalidSegment);
      }
      assert rs[..i+1] == rs[..i] + [rs[i]];
      RecordsConcat(rs[..i], [rs[i]]);
      RecordsOne(rs[i]);
      total := total + size;
      if total > MAX_RAW_BLOCK {
        RecordsLength(rs, i + 1);
        return Bad(BlockTooLarge);
      }
      i := i + 1;
    }
    assert rs[..i] == rs;
    var raw := [];
    var k := 0;
    while k < |rs|
      invariant 0 <= k <= |rs| && raw == RecordsBytes(rs[..k])
    {
      assert rs[..k+1] == rs[..k] + [rs[k]];
      RecordsConcat(rs[..k], [rs[k]]);
      RecordsOne(rs[k]);
      raw := raw + RecordBytes(rs[k]);
      k := k + 1;
    }
    assert rs[..k] == rs;
    return Fine(raw);
  }

  // ---- Decoding headers ----

  /** These bytes are the encoding of exactly these headers. */
  ghost predicate HeadersOf(buf: seq<Byte>, hs: seq<Header>) { ValidEntries(hs) && HeaderBytes(hs) == buf }

  /** An entry at the front of the remaining bytes: its fields read back, and the rest follows it. */
  lemma EntryAt(buf: seq<Byte>, off: nat, h: Header, rest: seq<Byte>)
    requires off <= |buf| && buf[off..] == EntryBytes(h) + rest && ValidHeader(h)
    ensures var k, v := |h.key|, |h.value|;
            && off + 4 + k + v <= |buf| && Get(buf[off..off+2]) == k && Get(buf[off+2..off+4]) == v
            && buf[off+4..off+4+k] == h.key && buf[off+4+k..off+4+k+v] == h.value && buf[off+4+k+v..] == rest
  {
    hide Put, Get;
    var k, v := |h.key|, |h.value|;
    Widths();
    FieldRoundTrip(2, k, []);
    FieldRoundTrip(2, v, []);
    var s := EntryBytes(h) + rest;
    var tail := buf[off..];
    assert s == Put(2, k) + Put(2, v) + h.key + h.value + rest;
    assert tail[..2] == Put(2, k) && tail[2..4] == Put(2, v) && tail[4..4+k] == h.key && tail[4+k..4+k+v] == h.value && tail[4+k+v..] == rest;
    assert buf[off..off+2] == tail[..2] && buf[off+2..off+4] == tail[2..4] && buf[off+4..off+4+k] == tail[4..4+k];
    assert buf[off+4+k..off+4+k+v] == tail[4+k..4+k+v] && buf[off+4+k+v..] == tail[4+k+v..];
  }

  /** Reading an entry and writing it back gives the same bytes. */
  lemma EntryBack(buf: seq<Byte>, off: nat, k: nat, v: nat)
    requires off + 4 + k + v <= |buf| && Get(buf[off..off+2]) == k && Get(buf[off+2..off+4]) == v
    ensures EntryBytes(Header(buf[off+4..off+4+k], buf[off+4+k..off+4+k+v])) == buf[off..off+4+k+v]
  {
    hide Put, Get;
    FieldRoundTrip(2, 0, buf[off..off+2]);
    FieldRoundTrip(2, 0, buf[off+2..off+4]);
    var s := buf[off..off+4+k+v];
    assert s == buf[off..off+2] + buf[off+2..off+4] + buf[off+4..off+4+k] + buf[off+4+k..off+4+k+v];
  }

  lemma EntriesFront(hs: seq<Header>, i: nat)
    requires i < |hs|
    ensures EntriesBytes(hs[i..]) == EntryBytes(hs[i]) + EntriesBytes(hs[i+1..])
  {
    hide EntryBytes;
    assert hs[i..][1..] == hs[i+1..];
  }

  lemma HeadersStart(buf: seq<Byte>, hs: seq<Header>)
    requires HeadersOf(buf, hs)
    ensures buf == [] <==> hs == []
    ensures buf != [] ==> |buf| >= 2 && Get(buf[0..2]) == |hs| && buf[2..] == EntriesBytes(hs)
  {
    hide Put, Get, EntriesBytes;
    Widths();
    FieldRoundTrip(2, |hs|, []);
    if hs != [] { assert buf[0..2] == Put(2, |hs|); }
  }

  /** What remains of any headers these bytes encode, after the first i entries have been read. */
  ghost predicate Remaining(buf: seq<Byte>, hs: seq<Header>, count: nat, headers: seq<Header>, off: nat) {
    off <= |buf| && |hs| == count && |headers| <= count && hs[..|headers|] == headers && buf[off..] == EntriesBytes(hs[|headers|..])
  }

  /** The next entry of such headers is the one that stands at the offset. */
  ghost predicate NextEntry(buf: seq<Byte>, hs: seq<Header>, count: nat, headers: seq<Header>, off: nat) {
    && |headers| < |hs|
    && var h := hs[|headers|];
       var k, v := |h.key|, |h.value|;
       && ValidHeader(h) && off + 4 + k + v <= |buf| && Get(buf[off..off+2]) == k && Get(buf[off+2..off+4]) == v
       && h == Header(buf[off+4..off+4+k], buf[off+4+k..off+4+k+v]) && Remaining(buf, hs, count, headers + [h], off + 4 + k + v)
  }

  lemma RemainingEntry(buf: seq<Byte>, hs: seq<Header>, count: nat, headers: seq<Header>, off: nat)
    requires ValidEntries(hs) && Remaining(buf, hs, count, headers, off) && |headers| < count
    ensures NextEntry(buf, hs, count, headers, off)
  {
    hide EntryBytes, EntriesBytes, Get;
    var i := |headers|;
    var h := hs[i];
    EntriesFront(hs, i);
    EntryAt(buf, off, h, EntriesBytes(hs[i+1..]));
    assert hs[..i+1] == headers + [h];
  }

  lemma RemainingNone(buf: seq<Byte>, hs: seq<Header>, count: nat, headers: seq<Header>, off: nat)
    requires Remaining(buf, hs, count, headers, off) && |headers| == count
    ensures off == |buf|
  {
    assert hs[count..] == [];
  }

  /** Decodes a record's headers; succeeds exactly on the encodings of valid headers, with those headers. */
  method DecodeHeaders(buf: seq<Byte>) returns (r: Res<seq<Header>>)
    ensures r.Fine? ==> HeadersOf(buf, r.value)
    ensures r.Bad? ==> forall hs :: !HeadersOf(buf, hs)
  {
    hide EntryBytes, EntriesBytes, Get, Put, HeadersOf, Remaining;
    if |buf| == 0 {
      NoHeaders();
      return Fine([]);
    }
    forall hs | HeadersOf(buf, hs)
      ensures |buf| >= 2 && Get(buf[0..2]) == |hs| && 0 < |hs| <= MAX_HEADERS && ValidEntries(hs) && Remaining(buf, hs, |hs|, [], 2)
    {
      HeadersBegin(buf, hs);
    }
    if |buf| < 2 { return Bad(InvalidSegment); }
    var count := Get(buf[0..2]);
    if count == 0 { return Bad(InvalidSegment); }
    if count > MAX_HEADERS { return Bad(RecordTooLarge); }
    var headers: seq<Header> := [];
    var off := 2;
    NoEntries();
    assert buf[2..2] == [];
    while |headers| < count
      invariant 2 <= off <= |buf| && |headers| <= count && ValidEntries(headers)
      invariant EntriesBytes(headers) == buf[2..off]
      invariant forall hs :: HeadersOf(buf, hs) ==> ValidEntries(hs) && Remaining(buf, hs, count, headers, off)
      decreases count - |headers|
    {
      forall hs | HeadersOf(buf, hs) ensures NextEntry(buf, hs, count, headers, off) { RemainingEntry(buf, hs, count, headers, off); }
      if |buf| - off < 4 { return Bad(InvalidSegment); }
      var k, v := Get(buf[off..off+2]), Get(buf[off+2..off+4]);
      if k == 0 { return Bad(InvalidSegment); }
      if k > MAX_HEADER_KEY || v > MAX_HEADER_VALUE { return Bad(RecordTooLarge); }
      if |buf| - off - 4 < k + v { return Bad(InvalidSegment); }
      var h := Header(buf[off+4..off+4+k], buf[off+4+k..off+4+k+v]);
      EntryBack(buf, off, k, v);
      EntriesConcat(headers, [h]);
      EntriesOne(h);
      assert buf[2..off] + buf[off..off+4+k+v] == buf[2..off+4+k+v];
      headers := headers + [h];
      off := off + 4 + k + v;
    }
    forall hs | HeadersOf(buf, hs) ensures off == |buf| { RemainingNone(buf, hs, count, headers, off); }
    if off != |buf| { return Bad(InvalidSegment); }
    HeadersBack(buf, headers);
    return Fine(headers);
  }

  lemma NoHeaders()
    ensures HeadersOf([], [])
  {
  }

  lemma HeadersBegin(buf: seq<Byte>, hs: seq<Header>)
    requires HeadersOf(buf, hs) && buf != []
    ensures |buf| >= 2 && Get(buf[0..2]) == |hs| && 0 < |hs| <= MAX_HEADERS && ValidEntries(hs) && Remaining(buf, hs, |hs|, [], 2)
  {
    hide EntryBytes, EntriesBytes, Get, Put;
    HeadersStart(buf, hs);
    assert hs[..0] == [] && hs[0..] == hs;
  }

  lemma HeadersBack(buf: seq<Byte>, headers: seq<Header>)
    requires |buf| >= 2 && ValidEntries(headers) && headers != [] && Get(buf[0..2]) == |headers| && EntriesBytes(headers) == buf[2..]
    ensures HeadersOf(buf, headers)
  {
    hide EntryBytes, EntriesBytes, Get, Put;
    FieldRoundTrip(2, 0, buf[0..2]);
    assert buf == buf[0..2] + buf[2..];
  }

  // ---- Decoding one record ----

  /** A valid record's bytes stand at this offset. */
  ghost predicate RecordAt(raw: seq<Byte>, off: nat, r: RawRecord) {
    ValidRecord(r) && off + |RecordBytes(r)| <= |raw| && raw[off..off+|RecordBytes(r)|] == RecordBytes(r)
  }

  /** The three fields and two parts of a record, as slices of the block. */
  ghost predicate Fields(raw: seq<Byte>, off: nat, ts: I64, hl: nat, vl: nat, headers: seq<Byte>, value: seq<Byte>) {
    && off + RECORD_HEADER + hl + vl <= |raw|
    && Get(raw[off..off+8]) == Unsigned(ts) && Get(raw[off+8..off+12]) == hl && Get(raw[off+12..off+16]) == vl
    && raw[off+16..off+16+hl] == headers && raw[off+16+hl..off+16+hl+vl] == value
  }

  lemma Sub(raw: seq<Byte>, off: nat, n: nat, a: nat, b: nat)
    requires off + n <= |raw| && a <= b <= n
    ensures raw[off..off+n][a..b] == raw[off+a..off+b]
  {
    var x, y := raw[off..off+n][a..b], raw[off+a..off+b];
    assert |x| == |y|;
    forall i | 0 <= i < |x| ensures x[i] == y[i] { assert x[i] == raw[off..off+n][a+i] == raw[off+a+i]; }
  }

  lemma FieldsOf(raw: seq<Byte>, off: nat, r: RawRecord)
    requires RecordAt(raw, off, r)
    ensures Fields(raw, off, r.timestamp, |HeaderBytes(r.headers)|, |r.value|, HeaderBytes(r.headers), r.value)
  {
    hide Put, Get, HeaderBytes;
    var hb := HeaderBytes(r.headers);
    var hl, vl := |hb|, |r.value|;
    Widths();
    FieldRoundTrip(8, Unsigned(r.timestamp), []);
    FieldRoundTrip(4, hl, []);
    FieldRoundTrip(4, vl, []);
    var s := RecordBytes(r);
    assert s == Put(8, Unsigned(r.timestamp)) + Put(4, hl) + Put(4, vl) + hb + r.value;
    assert s[..8] == Put(8, Unsigned(r.timestamp)) && s[8..12] == Put(4, hl) && s[12..16] == Put(4, vl) && s[16..16+hl] == hb && s[16+hl..] == r.value;
    Sub(raw, off, |s|, 0, 8);
    Sub(raw, off, |s|, 8, 12);
    Sub(raw, off, |s|, 12, 16);
    Sub(raw, off, |s|, 16, 16 + hl);
    Sub(raw, off, |s|, 16 + hl, |s|);
  }

  lemma RecordBack(raw: seq<Byte>, off: nat, r: RawRecord)
    requires ValidRecord(r) && Fields(raw, off, r.timestamp, |HeaderBytes(r.headers)|, |r.value|, HeaderBytes(r.headers), r.value)
    ensures RecordAt(raw, off, r) && |RecordBytes(r)| == RECORD_HEADER + |HeaderBytes(r.headers)| + |r.value|
  {
    hide Put, Get, HeaderBytes;
    var hl, vl := |HeaderBytes(r.headers)|, |r.value|;
    FieldRoundTrip(8, 0, raw[off..off+8]);
    FieldRoundTrip(4, 0, raw[off+8..off+12]);
    FieldRoundTrip(4, 0, raw[off+12..off+16]);
    var s := raw[off..off+16+hl+vl];
    assert s == raw[off..off+8] + raw[off+8..off+12] + raw[off+12..off+16] + raw[off+16..off+16+hl] + raw[off+16+hl..off+16+hl+vl];
  }

  /** The headers and their length are determined by the bytes, and so is the record. */
  lemma SameRecord(raw: seq<Byte>, off: nat, r: RawRecord, r': RawRecord)
    requires RecordAt(raw, off, r) && RecordAt(raw, off, r')
    ensures r == r'
  {
    hide Put, Get, HeaderBytes, RecordAt;
    FieldsOf(raw, off, r);
    FieldsOf(raw, off, r');
    SignedRoundTrip(r.timestamp, 0);
    SignedRoundTrip(r'.timestamp, 0);
    AtValid(raw, off, r);
    AtValid(raw, off, r');
    HeadersInjective(r.headers, r'.headers);
  }

  lemma AtValid(raw: seq<Byte>, off: nat, r: RawRecord)
    requires RecordAt(raw, off, r)
    ensures ValidRecord(r)
  {
  }

  lemma HeadersInjective(a: seq<Header>, b: seq<Header>)
    requires ValidEntries(a) && ValidEntries(b) && HeaderBytes(a) == HeaderBytes(b)
    ensures a == b
  {
    hide Put, Get, EntriesBytes;
    var buf := HeaderBytes(a);
    HeadersStart(buf, a);
    HeadersStart(buf, b);
    if a != [] { EntriesInjective(a, b); }
  }

  lemma {:induction false} EntriesInjective(a: seq<Header>, b: seq<Header>)
    requires |a| == |b| && EntriesBytes(a) == EntriesBytes(b)
    requires (forall i :: 0 <= i < |a| ==> ValidHeader(a[i])) && (forall i :: 0 <= i < |b| ==> ValidHeader(b[i]))
    ensures a == b
  {
    hide EntryBytes, EntriesBytes, Get;
    if a != [] {
      var buf := EntriesBytes(a);
      EntriesFront(a, 0);
      EntriesFront(b, 0);
      assert a[0..] == a && b[0..] == b && buf[0..] == buf;
      EntryAt(buf, 0, a[0], EntriesBytes(a[1..]));
      EntryAt(buf, 0, b[0], EntriesBytes(b[1..]));
      EntriesInjective(a[1..], b[1..]);
      assert a == [a[0]] + a[1..] && b == [b[0]] + b[1..];
    }
  }

  /** Reads the record at an offset; succeeds exactly when a valid record's bytes stand there. */
  method ScanRawRecord(raw: seq<Byte>, off: nat) returns (res: Res<(RawRecord, nat)>)
    requires off + RECORD_HEADER <= |raw|
    ensures res.Fine? ==> RecordAt(raw, off, res.value.0) && res.value.1 == off + |RecordBytes(res.value.0)|
    ensures res.Bad? ==> forall r :: !RecordAt(raw, off, r)
  {
    hide Put, Get, HeaderBytes, RecordBytes, RecordAt, HeadersOf;
    forall r | RecordAt(raw, off, r)
      ensures ValidRecord(r) && Fields(raw, off, r.timestamp, |HeaderBytes(r.headers)|, |r.value|, HeaderBytes(r.headers), r.value)
    {
      FieldsOf(raw, off, r);
      AtValid(raw, off, r);
    }
    U64Field(raw[off..off+8]);
    var ts := Signed(Get(raw[off..off+8]));
    var hl, vl := Get(raw[off+8..off+12]), Get(raw[off+12..off+16]);
    if hl > MAX_HEADER_BYTES || vl > MAX_VALUE { return Bad(RecordTooLarge); }
    var at := off + RECORD_HEADER;
    if |raw| - at < hl + vl { return Bad(InvalidSegment); }
    var headers := DecodeHeaders(raw[at..at+hl]);
    forall r | RecordAt(raw, off, r) ensures HeadersOf(raw[at..at+hl], r.headers) { HeadersAt(raw[at..at+hl], r.headers); }
    if headers.Bad? { return Bad(headers.error); }
    var r := RawRecord(ts, headers.value, raw[at+hl..at+hl+vl]);
    OfHeaders(raw[at..at+hl], headers.value);
    SignedRoundTrip(0, Get(raw[off..off+8]));
    RecordBack(raw, off, r);
    return Fine((r, at + hl + vl));
  }

  lemma U64Field(s: seq<Byte>)
    requires |s| == 8
    ensures Get(s) <= MAX_U64
  {
    hide Get;
    PutGet(s);
    Widths();
  }

  lemma HeadersAt(buf: seq<Byte>, hs: seq<Header>)
    requires ValidEntries(hs) && buf == HeaderBytes(hs)
    ensures HeadersOf(buf, hs)
  {
  }

  lemma OfHeaders(buf: seq<Byte>, hs: seq<Header>)
    requires HeadersOf(buf, hs)
    ensures ValidEntries(hs) && buf == HeaderBytes(hs)
  {
  }

  // ---- Decoding a block ----

  datatype BlockPreamble = BlockPreamble(flags: nat, storedSize: U32, rawSize: U32, recordCount: U32, baseLSN: U64, minTS: I64, maxTS: I64, hash: U64)

  predicate ValidPreamble(p: BlockPreamble) {
    && p.flags == 0 && 0 < p.storedSize <= MAX_STORED_BLOCK && 0 < p.rawSize <= MAX_RAW_BLOCK
    && 0 < p.recordCount <= p.rawSize / RECORD_HEADER && p.baseLSN + (p.recordCount - 1) <= MAX_RECORD_LSN && p.minTS <= p.maxTS
  }

  /** The block fits its preamble from outside. */
  predicate Envelope(raw: seq<Byte>, p: BlockPreamble) {
    ValidPreamble(p) && |raw| == p.rawSize && p.recordCount <= |raw| / RECORD_HEADER
  }

  function Strip(r: Record): RawRecord { RawRecord(r.timestamp, r.headers, r.value) }

  function Stripped(rs: seq<Record>): (s: seq<RawRecord>)
    ensures |s| == |rs| && forall i :: 0 <= i < |rs| ==> s[i] == Strip(rs[i])
  {
    seq(|rs|, i requires 0 <= i < |rs| => Strip(rs[i]))
  }

  /** Records with consecutive LSNs, timestamps in order and in range. */
  ghost predicate Fits(p: BlockPreamble, rs: seq<Record>) {
    && (forall i :: 0 <= i < |rs| ==> rs[i].lsn == p.baseLSN + i && p.minTS <= rs[i].timestamp <= p.maxTS && ValidRecord(Strip(rs[i])))
    && (forall i, j :: 0 <= i < |rs| && i < j < |rs| && j == i + 1 ==> rs[i].timestamp <= rs[j].timestamp)
  }

  /** These bytes are a block holding exactly these records. */
  ghost predicate BlockOf(raw: seq<Byte>, p: BlockPreamble, rs: seq<Record>) {
    Envelope(raw, p) && |rs| == p.recordCount && Fits(p, rs) && RecordsBytes(Stripped(rs)) == raw
  }

  /** Any records of the block, given that the first ones have been read up to an offset. */
  ghost predicate Left(raw: seq<Byte>, p: BlockPreamble, rs: seq<Record>, read: seq<Record>, off: nat) {
    && |rs| == p.recordCount && Fits(p, rs) && |read| <= |rs| && rs[..|read|] == read
    && off <= |raw| && raw[off..] == RecordsBytes(Stripped(rs[|read|..]))
  }

  lemma LeftStart(raw: seq<Byte>, p: BlockPreamble, rs: seq<Record>)
    requires BlockOf(raw, p, rs)
    ensures Left(raw, p, rs, [], 0)
  {
    hide RecordsBytes;
    assert rs[0..] == rs && rs[..0] == [] && raw[0..] == raw;
  }

  lemma RecordsFront(rs: seq<Record>)
    requires rs != []
    ensures RecordsBytes(Stripped(rs)) == RecordBytes(Strip(rs[0])) + RecordsBytes(Stripped(rs[1..]))
  {
    hide RecordBytes;
    assert Stripped(rs)[1..] == Stripped(rs[1..]);
  }

  /** The next record of the block is the one that stands at the offset. */
  lemma LeftNext(raw: seq<Byte>, p: BlockPreamble, rs: seq<Record>, read: seq<Record>, off: nat)
    requires Left(raw, p, rs, read, off) && |read| < |rs|
    ensures var r := rs[|read|]; var n := |RecordBytes(Strip(r))|;
            && RecordAt(raw, off, Strip(r)) && n >= RECORD_HEADER && r.lsn == p.baseLSN + |read| && p.minTS <= r.timestamp <= p.maxTS
            && (read != [] ==> read[|read|-1].timestamp <= r.timestamp)
            && Left(raw, p, rs, read + [r], off + n)
  {
    hide RecordBytes, RecordsBytes;
    var i := |read|;
    var rest := rs[i..];
    var r := rs[i];
    RecordsFront(rest);
    RecordLength(Strip(r));
    var b, t := RecordBytes(Strip(r)), RecordsBytes(Stripped(rest[1..]));
    assert raw[off..] == b + t;
    assert raw[off..][..|b|] == b && raw[off..][|b|..] == t;
    assert raw[off..off+|b|] == raw[off..][..|b|] && raw[off+|b|..] == raw[off..][|b|..];
    assert rest[1..] == rs[i+1..] && rs[..i+1] == read + [r];
    if read != [] { assert read[i-1] == rs[i-1]; }
  }

  lemma LeftEnd(raw: seq<Byte>, p: BlockPreamble, rs: seq<Record>, read: seq<Record>, off: nat)
    requires Left(raw, p, rs, read, off) && |read| == |rs|
    ensures off == |raw| && rs == read
  {
    hide RecordBytes;
    assert rs[|read|..] == [];
    assert Stripped([]) == [];
  }

  /** What has been read so far is right. */
  ghost predicate ReadSoFar(raw: seq<Byte>, p: BlockPreamble, read: seq<Record>, off: nat) {
    && |read| <= p.recordCount && off <= |raw| && Fits(p, read) && RecordsBytes(Stripped(read)) == raw[..off]
    && forall rs :: BlockOf(raw, p, rs) ==> Left(raw, p, rs, read, off)
  }

  lemma ReadStart(raw: seq<Byte>, p: BlockPreamble)
    ensures ReadSoFar(raw, p, [], 0)
  {
    hide RecordsBytes;
    NoRecords();
    assert Stripped([]) == [] && raw[..0] == [];
    forall rs | BlockOf(raw, p, rs) ensures Left(raw, p, rs, [], 0) { LeftStart(raw, p, rs); }
  }

  /** One more record read keeps everything right; if it may not be next, these bytes are no block. */
  lemma ReadNext(raw: seq<Byte>, p: BlockPreamble, read: seq<Record>, off: nat, r: RawRecord)
    requires ReadSoFar(raw, p, read, off) && |read| < p.recordCount && RecordAt(raw, off, r)
    ensures var ok := p.minTS <= r.timestamp <= p.maxTS && (read != [] ==> read[|read|-1].timestamp <= r.timestamp);
            var x := Record(p.baseLSN + |read|, r.timestamp, r.headers, r.value);
            && (ok ==> ReadSoFar(raw, p, read + [x], off + |RecordBytes(r)|))
            && (!ok ==> forall rs :: !BlockOf(raw, p, rs))
  {
    hide RecordBytes, RecordsBytes, BlockOf, Fits, Left, RecordAt;
    var n := |RecordBytes(r)|;
    var x := Record(p.baseLSN + |read|, r.timestamp, r.headers, r.value);
    forall rs | BlockOf(raw, p, rs)
      ensures p.minTS <= r.timestamp <= p.maxTS && (read != [] ==> read[|read|-1].timestamp <= r.timestamp) && Left(raw, p, rs, read + [x], off + n)
    {
      LeftSame(raw, p, rs, read, off, r);
    }
    AtValid(raw, off, r);
    if p.minTS <= r.timestamp <= p.maxTS && (read != [] ==> read[|read|-1].timestamp <= r.timestamp) {
      FitsNext(p, read, x);
      BytesNext(raw, off, read, x);
    }
  }

  lemma LeftSame(raw: seq<Byte>, p: BlockPreamble, rs: seq<Record>, read: seq<Record>, off: nat, r: RawRecord)
    requires Left(raw, p, rs, read, off) && |read| < p.recordCount && RecordAt(raw, off, r)
    ensures p.minTS <= r.timestamp <= p.maxTS && (read != [] ==> read[|read|-1].timestamp <= r.timestamp)
    ensures Left(raw, p, rs, read + [Record(p.baseLSN + |read|, r.timestamp, r.headers, r.value)], off + |RecordBytes(r)|)
  {
    hide RecordBytes, RecordsBytes, Fits, RecordAt;
    LeftNext(raw, p, rs, read, off);
    SameRecord(raw, off, r, Strip(rs[|read|]));
    assert rs[|read|] == Record(p.baseLSN + |read|, r.timestamp, r.headers, r.value);
  }

  lemma BytesNext(raw: seq<Byte>, off: nat, read: seq<Record>, x: Record)
    requires off <= |raw| && RecordsBytes(Stripped(read)) == raw[..off] && RecordAt(raw, off, Strip(x))
    ensures off + |RecordBytes(Strip(x))| <= |raw| && RecordsBytes(Stripped(read + [x])) == raw[..off + |RecordBytes(Strip(x))|]
  {
    hide RecordBytes, RecordsBytes;
    var n := |RecordBytes(Strip(x))|;
    assert Stripped(read + [x]) == Stripped(read) + [Strip(x)];
    RecordsConcat(Stripped(read), [Strip(x)]);
    RecordsOne(Strip(x));
    assert raw[..off] + raw[off..off+n] == raw[..off+n];
  }

  lemma FitsNext(p: BlockPreamble, read: seq<Record>, x: Record)
    requires Fits(p, read) && x.lsn == p.baseLSN + |read| && p.minTS <= x.timestamp <= p.maxTS && ValidRecord(Strip(x))
    requires read != [] ==> read[|read|-1].timestamp <= x.timestamp
    ensures Fits(p, read + [x])
  {
    hide ValidRecord;
    var rs := read + [x];
    forall i | 0 <= i < |rs| ensures rs[i].lsn == p.baseLSN + i && p.minTS <= rs[i].timestamp <= p.maxTS && ValidRecord(Strip(rs[i])) {
      if i < |read| { assert rs[i] == read[i]; }
    }
    forall i, j | 0 <= i < |rs| && i < j < |rs| && j == i + 1 ensures rs[i].timestamp <= rs[j].timestamp {
      assert rs[i] == read[i];
      if j < |read| { assert rs[j] == read[j]; }
    }
  }

  /** Nothing valid stands at the offset: these bytes are no block. */
  lemma ReadStuck(raw: seq<Byte>, p: BlockPreamble, read: seq<Record>, off: nat)
    requires ReadSoFar(raw, p, read, off) && |read| < p.recordCount
    requires off + RECORD_HEADER > |raw| || forall r :: !RecordAt(raw, off, r)
    ensures forall rs :: !BlockOf(raw, p, rs)
  {
    hide RecordBytes, RecordsBytes, BlockOf, Fits, RecordAt;
    forall rs | BlockOf(raw, p, rs) ensures false {
      LeftNext(raw, p, rs, read, off);
      AtLength(raw, off, Strip(rs[|read|]));
    }
  }

  lemma AtLength(raw: seq<Byte>, off: nat, r: RawRecord)
    requires RecordAt(raw, off, r)
    ensures off + RECORD_HEADER <= |raw|
  {
    hide RecordBytes;
    RecordLength(r);
  }

  lemma ReadEnd(raw: seq<Byte>, p: BlockPreamble, read: seq<Record>, off: nat)
    requires ReadSoFar(raw, p, read, off) && |read| == p.recordCount && Envelope(raw, p)
    ensures off == |raw| ==> BlockOf(raw, p, read)
    ensures off != |raw| ==> forall rs :: !BlockOf(raw, p, rs)
    ensures forall rs :: BlockOf(raw, p, rs) ==> rs == read
  {
    hide RecordBytes, RecordsBytes, Fits;
    if off == |raw| { assert raw[..off] == raw; }
    forall rs | BlockOf(raw, p, rs) ensures off == |raw| && rs == read { LeftEnd(raw, p, rs, read, off); }
  }

  /** Batch decoding: succeeds exactly on blocks, with their records. */
  method DecodeRawBlock(raw: seq<Byte>, p: BlockPreamble) returns (r: Res<seq<Record>>)
    ensures r.Fine? ==> BlockOf(raw, p, r.value)
    ensures r.Bad? ==> forall rs :: !BlockOf(raw, p, rs)
  {
    hide ReadSoFar, BlockOf, RecordAt, RecordBytes;
    if !Envelope(raw, p) {
      NoEnvelope(raw, p);
      return Bad(InvalidSegment);
    }
    var records: seq<Record> := [];
    var offset := 0;
    ReadStart(raw, p);
    while |records| < p.recordCount
      invariant |records| <= p.recordCount && offset <= |raw| && ReadSoFar(raw, p, records, offset)
      decreases p.recordCount - |records|
    {
      if |raw| - offset < RECORD_HEADER {
        ReadStuck(raw, p, records, offset);
        return Bad(InvalidSegment);
      }
      var s := ScanRawRecord(raw, offset);
      if s.Bad? {
        ReadStuck(raw, p, records, offset);
        return Bad(s.error);
      }
      var (rec, next) := s.value;
      ReadNext(raw, p, records, offset, rec);
      if rec.timestamp < p.minTS || rec.timestamp > p.maxTS || (|records| > 0 && rec.timestamp < records[|records|-1].timestamp) {
        return Bad(InvalidSegment);
      }
      AtEnd(raw, offset, rec);
      records := records + [Record(p.baseLSN + |records|, rec.timestamp, rec.headers, rec.value)];
      offset := next;
    }
    ReadEnd(raw, p, records, offset);
    if offset != |raw| { return Bad(InvalidSegment); }
    return Fine(records);
  }

  lemma AtEnd(raw: seq<Byte>, off: nat, r: RawRecord)
    requires RecordAt(raw, off, r)
    ensures off + |RecordBytes(r)| <= |raw|
  {
  }

  lemma NoEnvelope(raw: seq<Byte>, p: BlockPreamble)
    requires !Envelope(raw, p)
    ensures forall rs :: !BlockOf(raw, p, rs)
  {
  }

  // ---- The codec as a whole ----

  /** Number the records of a block from a base LSN. */
  function Stamped(rs: seq<RawRecord>, base: nat): (s: seq<Record>)
    ensures |s| == |rs| && forall i :: 0 <= i < |rs| ==> s[i] == Record(base + i, rs[i].timestamp, rs[i].headers, rs[i].value)
  {
    seq(|rs|, i requires 0 <= i < |rs| => Record(base + i, rs[i].timestamp, rs[i].headers, rs[i].value))
  }

  /** An encoded block, under any preamble that describes it, holds exactly the encoded records, numbered from its base. */
  lemma EncodedDecodes(rs: seq<RawRecord>, p: BlockPreamble)
    requires Encodable(rs) && ValidPreamble(p) && p.rawSize == |RecordsBytes(rs)| && p.recordCount == |rs|
    requires forall i :: 0 <= i < |rs| ==> p.minTS <= rs[i].timestamp <= p.maxTS
    ensures BlockOf(RecordsBytes(rs), p, Stamped(rs, p.baseLSN))
  {
    hide RecordsBytes, ValidRecord;
    var x := Stamped(rs, p.baseLSN);
    assert Stripped(x) == rs;
    forall i, j | 0 <= i < |x| && i < j < |x| && j == i + 1 ensures x[i].timestamp <= x[j].timestamp { assert rs[i].timestamp <= rs[j].timestamp; }
    forall i | 0 <= i < |x| ensures ValidRecord(Strip(x[i])) { assert Strip(x[i]) == rs[i]; }
  }

  /** Encoding the records of any block gives back its bytes: there is only one encoding. */
  lemma DecodedEncodes(raw: seq<Byte>, p: BlockPreamble, rs: seq<Record>)
    requires BlockOf(raw, p, rs)
    ensures Encodable(Stripped(rs)) && RecordsBytes(Stripped(rs)) == raw
  {
    hide RecordsBytes, ValidRecord;
    var s := Stripped(rs);
    forall i, j | 0 <= i < |s| && i < j < |s| && j == i + 1 ensures s[i].timestamp <= s[j].timestamp { assert rs[i].timestamp <= rs[j].timestamp; }
  }

  /** A block holds one list of records only, so everything that decodes it agrees. */
  lemma BlockUnique(raw: seq<Byte>, p: BlockPreamble, a: seq<Record>, b: seq<Record>)
    requires BlockOf(raw, p, a) && BlockOf(raw, p, b)
    ensures a == b
  {
    hide RecordsBytes, ValidRecord;
    RecordsInjective(Stripped(a), Stripped(b));
    forall i | 0 <= i < |a| ensures a[i] == b[i] { assert Stripped(a)[i] == Strip(a[i]) && Stripped(b)[i] == Strip(b[i]); }
  }

  lemma {:induction false} RecordsInjective(a: seq<RawRecord>, b: seq<RawRecord>)
    requires |a| == |b| && RecordsBytes(a) == RecordsBytes(b)
    requires (forall i :: 0 <= i < |a| ==> ValidRecord(a[i])) && (forall i :: 0 <= i < |b| ==> ValidRecord(b[i]))
    ensures a == b
  {
    hide RecordBytes, ValidRecord;
    if a != [] {
      var raw := RecordsBytes(a);
      assert raw == RecordBytes(a[0]) + RecordsBytes(a[1..]) && raw == RecordBytes(b[0]) + RecordsBytes(b[1..]);
      var x, y := RecordBytes(a[0]), RecordBytes(b[0]);
      assert raw[0..|x|] == x && raw[0..|y|] == y;
      SameRecord(raw, 0, a[0], b[0]);
      assert raw[|x|..] == RecordsBytes(a[1..]) && raw[|x|..] == RecordsBytes(b[1..]);
      RecordsInjective(a[1..], b[1..]);
      assert a == [a[0]] + a[1..] && b == [b[0]] + b[1..];
    }
  }

  // ---- The incremental scanner ----

  class RawBlockScanner {
    const raw: seq<Byte>
    const block: BlockPreamble
    var offset: nat
    var index: nat
    var previous: I64
    /** The records returned so far. */
    ghost var read: seq<Record>

    ghost predicate Valid()
      reads this
    {
      && Envelope(raw, block) && offset <= |raw| && index == |read| <= block.recordCount && ReadSoFar(raw, block, read, offset)
      && (read != [] ==> previous == read[|read|-1].timestamp)
      && (index == block.recordCount ==> offset == |raw|)
    }

    constructor (raw: seq<Byte>, block: BlockPreamble)
      requires Envelope(raw, block)
      ensures Valid() && this.raw == raw && this.block == block && read == []
    {
      this.raw, this.block := raw, block;
      offset, index, previous, read := 0, 0, 0, [];
      ReadStart(raw, block);
    }

    /** The next record, or none after the last. An error means these bytes are no block; the scanner then stays put. */
    method Next() returns (r: Res<Option<Record>>)
      requires Valid()
      modifies this
      ensures r.Bad? ==> unchanged(this) && forall rs :: !BlockOf(raw, block, rs)
      ensures Valid()
      ensures r.Fine? && r.value.Some? ==> read == old(read) + [r.value.value] && index == old(index) + 1
      ensures r.Fine? && r.value.None? ==> read == old(read) && BlockOf(raw, block, read)
    {
      hide ReadSoFar, BlockOf, RecordAt, RecordBytes, Envelope;
      if index >= block.recordCount {
        ReadEnd(raw, block, read, offset);
        return Fine(None);
      }
      if |raw| - offset < RECORD_HEADER {
        ReadStuck(raw, block, read, offset);
        return Bad(InvalidSegment);
      }
      var s := ScanRawRecord(raw, offset);
      if s.Bad? {
        ReadStuck(raw, block, read, offset);
        return Bad(s.error);
      }
      var (rec, next) := s.value;
      ReadNext(raw, block, read, offset, rec);
      AtEnd(raw, offset, rec);
      if rec.timestamp < block.minTS || rec.timestamp > block.maxTS { return Bad(InvalidSegment); }
      if index > 0 && rec.timestamp < previous { return Bad(InvalidSegment); }
      var x := Record(block.baseLSN + index, rec.timestamp, rec.headers, rec.value);
      if index + 1 == block.recordCount {
        ReadEnd(raw, block, read + [x], next);
        if next != |raw| { return Bad(InvalidSegment); }
      }
      offset, index, previous, read := next, index + 1, rec.timestamp, read + [x];
      return Fine(Some(x));
    }
  }

  /** The scanner run to its end: it succeeds with the same records exactly when the batch decoder does. */
  method ScanAll(raw: seq<Byte>, p: BlockPreamble) returns (r: Res<seq<Record>>)
    ensures r.Fine? ==> BlockOf(raw, p, r.value)
    ensures r.Bad? ==> forall rs :: !BlockOf(raw, p, rs)
  {
    hide ReadSoFar, BlockOf, Envelope;
    if !Envelope(raw, p) {
      NoEnvelope(raw, p);
      return Bad(InvalidSegment);
    }
    var scanner := new RawBlockScanner(raw, p);
    var records: seq<Record> := [];
    while true
      invariant scanner.Valid() && scanner.raw == raw && scanner.block == p && scanner.read == records && fresh(scanner)
      decreases p.recordCount - scanner.index
    {
      var x := scanner.Next();
      if x.Bad? { return Bad(x.error); }
      if x.value.None? { return Fine(records); }
      records := records + [x.value.value];
    }
  }
}
