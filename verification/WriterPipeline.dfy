/** The append pipeline of one partition writer: segments are cut, finalized and published in order by concurrent
    goroutines under one mutex and an in-flight budget. Each method is one critical section. */
module WriterPipeline {
  import opened CatalogTypes

  // ---- The in-flight estimate, in 64-bit arithmetic ----

  datatype Codec = Uncompressed | Zstd

  const TWO_64: nat := MAX_U64 + 1

  /** Bytes of a segment object that do not depend on its records, and bytes each block adds. */
  const FIXED_OVERHEAD: nat := 320
  const BLOCK_OVERHEAD: nat := 128

  function SatAdd(a: nat, b: nat): (r: nat)
    requires a <= MAX_U64 && b <= MAX_U64
    ensures r == if a + b <= MAX_U64 then a + b else MAX_U64
  {
    if MAX_U64 - a < b then MAX_U64 else a + b
  }

  function SatMul(a: nat, b: nat): (r: nat)
    requires a <= MAX_U64 && b <= MAX_U64
    ensures r == if a * b <= MAX_U64 then a * b else MAX_U64
  {
    if a == 0 || b == 0 then 0
    else
      MulBound(a, b);
      if a > MAX_U64 / b then MAX_U64 else a * b
  }

  lemma MulBound(a: nat, b: nat)
    requires b > 0
    ensures a > MAX_U64 / b <==> a * b > MAX_U64
  {
    var q := MAX_U64 / b;
    assert q * b <= MAX_U64 < (q + 1) * b;
    if a > q { TimesMonotone(q + 1, a, b); } else { TimesMonotone(a, q, b); }
  }

  lemma TimesMonotone(a: nat, b: nat, c: nat)
    requires a <= b
    ensures a * c <= b * c
  {
  }

  /** What storing the raw bytes may take; the addition of three wraps around as in the source. */
  function StoredUpper(raw: nat, codec: Codec): (r: nat)
    requires raw <= MAX_U64
    ensures raw <= r <= MAX_U64
  {
    if codec == Zstd && raw > 0 then SatAdd(raw, ((raw + 3) % TWO_64) / 4) else raw
  }

  function Estimate(raw: nat, records: nat, codec: Codec): (r: nat)
    requires raw <= MAX_U64 && records <= MAX_U32
    ensures r <= MAX_U64
  {
    SatAdd(FIXED_OVERHEAD, SatAdd(StoredUpper(raw, codec), SatMul(BLOCK_OVERHEAD, if records == 0 then 1 else records)))
  }

  lemma SatAddMonotone(a: nat, b: nat, a': nat, b': nat)
    requires a <= a' <= MAX_U64 && b <= b' <= MAX_U64
    ensures SatAdd(a, b) <= SatAdd(a', b')
  {
  }

  lemma BlocksMonotone(n: nat, n': nat)
    requires 1 <= n <= n' <= MAX_U32
    ensures BLOCK_OVERHEAD <= SatMul(BLOCK_OVERHEAD, n) <= SatMul(BLOCK_OVERHEAD, n')
  {
  }

  lemma StoredMonotone(raw: nat, raw': nat, codec: Codec)
    requires raw <= raw' && raw' + 3 < TWO_64
    ensures StoredUpper(raw, codec) <= StoredUpper(raw', codec)
  {
    assert (raw + 3) / 4 <= (raw' + 3) / 4;
  }

  /** The estimate is monotone: where the wrap-around makes the stored part smaller, the block overhead saturates the sum. */
  lemma EstimateMonotone(raw: nat, records: nat, raw': nat, records': nat, codec: Codec)
    requires raw <= raw' <= MAX_U64 && records <= records' <= MAX_U32
    ensures Estimate(raw, records, codec) <= Estimate(raw', records', codec)
  {
    hide StoredUpper, SatMul;
    var n, n' := if records == 0 then 1 else records, if records' == 0 then 1 else records';
    BlocksMonotone(n, n');
    if raw' + 3 < TWO_64 {
      StoredMonotone(raw, raw', codec);
      SatAddMonotone(StoredUpper(raw, codec), SatMul(BLOCK_OVERHEAD, n), StoredUpper(raw', codec), SatMul(BLOCK_OVERHEAD, n'));
    } else {
      assert SatAdd(StoredUpper(raw', codec), SatMul(BLOCK_OVERHEAD, n')) == MAX_U64;
    }
  }

  /** Size of an uncompressed segment object with these raw bytes in this many blocks. */
  function ObjectSize(raw: nat, blocks: nat): nat { FIXED_OVERHEAD + raw + BLOCK_OVERHEAD * blocks }

  /** Without compression the estimate covers the object, unless both exceed 64 bits. */
  lemma EstimateCovers(raw: nat, records: nat, blocks: nat)
    requires raw <= MAX_U64 && blocks <= records <= MAX_U32 && records > 0 && ObjectSize(raw, blocks) <= MAX_U64
    ensures ObjectSize(raw, blocks) <= Estimate(raw, records, Uncompressed)
  {
    TimesMonotone(blocks, records, BLOCK_OVERHEAD);
  }

  // ---- Options ----

  datatype Options = Options(maxRecords: nat, maxRaw: nat, maxSegments: int, maxBytes: nat, codec: Codec)

  const DEFAULT_RECORDS: nat := 16_384
  const DEFAULT_RAW: nat := 0x400_0000
  const DEFAULT_SEGMENTS: nat := 4
  const DEFAULT_BYTES: nat := 0x1000_0000

  /** Fills in defaults and refuses a budget that could not hold one full segment. */
  function Normalize(o: Options): (r: Option<Options>)
    requires o.maxRecords <= MAX_U32 && o.maxRaw <= MAX_U64 && o.maxBytes <= MAX_U64
    ensures r.Some? ==> Usable(r.value)
  {
    var a := if o.maxRecords == 0 then o.(maxRecords := DEFAULT_RECORDS) else o;
    var b := if a.maxRaw == 0 then a.(maxRaw := DEFAULT_RAW) else a;
    var d := if b.maxSegments == 0 then b.(maxSegments := DEFAULT_SEGMENTS) else b;
    var e := if d.maxBytes == 0 then d.(maxBytes := DEFAULT_BYTES) else d;
    if e.maxSegments < 0 || Estimate(e.maxRaw, e.maxRecords, e.codec) > e.maxBytes then None else Some(e)
  }

  predicate Usable(o: Options) {
    && 0 < o.maxRecords <= MAX_U32 && 0 < o.maxRaw <= MAX_U64 && o.maxSegments > 0 && 0 < o.maxBytes <= MAX_U64
    && Estimate(o.maxRaw, o.maxRecords, o.codec) <= o.maxBytes
  }

  // ---- Segments on their way ----

  datatype Active = Active(base: nat, records: nat, raw: nat)

  /** A segment between its cut and its publication: bytes is what it counts for in the budget, the estimate until it
      is finalized, the object size from then on. */
  datatype Piece = Piece(seqNo: nat, base: nat, records: nat, raw: nat, est: nat, bytes: nat)

  /** The active segment as it is cut, counted with its estimate. */
  function Cut(seqNo: nat, a: Active, est: nat): Piece { Piece(seqNo, a.base, a.records, a.raw, est, est) }

  /** Consecutive non-empty segments from one LSN to another. */
  ghost predicate Tiles(ps: seq<Piece>, from: nat, to: nat) {
    if ps == [] then from == to else ps[0].base == from && ps[0].records > 0 && Tiles(ps[1..], from + ps[0].records, to)
  }

  function Bytes(ps: seq<Piece>): nat { if ps == [] then 0 else ps[0].bytes + Bytes(ps[1..]) }

  lemma {:induction false} TilesSnoc(ps: seq<Piece>, from: nat, to: nat, p: Piece)
    requires Tiles(ps, from, to) && p.base == to && p.records > 0
    ensures Tiles(ps + [p], from, to + p.records)
  {
    if ps != [] {
      assert (ps + [p])[1..] == ps[1..] + [p];
      TilesSnoc(ps[1..], from + ps[0].records, to, p);
    } else {
      assert ([p])[1..] == [] && ps + [p] == [p];
    }
  }

  lemma {:induction false} TilesOrdered(ps: seq<Piece>, from: nat, to: nat)
    requires Tiles(ps, from, to)
    ensures from <= to && (from == to ==> ps == []) && (ps != [] ==> ps[0].base == from)
  {
    if ps != [] { TilesOrdered(ps[1..], from + ps[0].records, to); }
  }

  lemma {:induction false} BytesConcat(a: seq<Piece>, b: seq<Piece>)
    ensures Bytes(a + b) == Bytes(a) + Bytes(b)
  {
    if a == [] {
      assert a + b == b;
    } else {
      assert (a + b)[1..] == a[1..] + b;
      BytesConcat(a[1..], b);
    }
  }

  /** Replacing one segment by a finalized form of itself changes neither the tiling nor the rest of the sum. */
  lemma {:induction false} Finalized(a: seq<Piece>, p: Piece, b: seq<Piece>, size: nat, from: nat, to: nat)
    requires Tiles(a + [p] + b, from, to)
    ensures Tiles(a + [p.(bytes := size)] + b, from, to)
    ensures Bytes(a + [p.(bytes := size)] + b) == Bytes(a + [p] + b) - p.bytes + size
    ensures Bytes(a + [p] + b) >= p.bytes
  {
    var q := p.(bytes := size);
    var s, t := a + [p] + b, a + [q] + b;
    if a == [] {
      assert s == [p] + b && t == [q] + b;
      assert s[1..] == b && t[1..] == b;
    } else {
      assert s[1..] == a[1..] + [p] + b && t[1..] == a[1..] + [q] + b;
      Finalized(a[1..], p, b, size, from + a[0].records, to);
    }
  }

  lemma FirstWithin(ps: seq<Piece>, from: nat, to: nat)
    requires Tiles(ps, from, to) && ps != []
    ensures from + ps[0].records <= to
  {
    TilesOrdered(ps[1..], from + ps[0].records, to);
  }

  /** An estimate below the largest number is a true sum. */
  lemma Unsaturated(raw: nat, records: nat, codec: Codec)
    requires raw <= MAX_U64 && 0 < records <= MAX_U32 && Estimate(raw, records, codec) < MAX_U64
    ensures ObjectSize(raw, records) <= MAX_U64
  {
    hide StoredUpper;
  }

  ghost predicate GoodPiece(o: Options, p: Piece) {
    && Usable(o) && 0 < p.records <= o.maxRecords && p.raw <= MAX_U64
    && p.est == Estimate(p.raw, p.records, o.codec) && p.est <= o.maxBytes
    && (o.codec == Uncompressed ==> p.bytes <= p.est)
  }

  ghost predicate Numbered(ps: seq<Piece>, nextSeq: nat) {
    |ps| <= nextSeq && forall i :: 0 <= i < |ps| ==> ps[i].seqNo == nextSeq - |ps| + i
  }

  /** The segments in flight tile the uncommitted range in cut order, and the counters are their sums. */
  ghost predicate InFlight(o: Options, ps: seq<Piece>, from: nat, to: nat, nextSeq: nat, count: nat, bytes: nat) {
    && Tiles(ps, from, to) && Numbered(ps, nextSeq) && (forall i :: 0 <= i < |ps| ==> GoodPiece(o, ps[i]))
    && count == |ps| <= o.maxSegments && bytes == Bytes(ps) && (o.codec == Uncompressed ==> bytes <= o.maxBytes)
  }

  lemma CutPiece(o: Options, ps: seq<Piece>, from: nat, to: nat, nextSeq: nat, count: nat, bytes: nat, p: Piece)
    requires InFlight(o, ps, from, to, nextSeq, count, bytes) && GoodPiece(o, p) && p.base == to && p.seqNo == nextSeq
    requires count + 1 <= o.maxSegments && bytes + p.bytes <= o.maxBytes
    ensures InFlight(o, ps + [p], from, to + p.records, nextSeq + 1, count + 1, bytes + p.bytes)
  {
    hide Tiles, Bytes, Estimate;
    TilesSnoc(ps, from, to, p);
    BytesConcat(ps, [p]);
    OneByte(p);
  }

  /** A cut of an active segment that fits the budget. */
  lemma CutActive(o: Options, ps: seq<Piece>, from: nat, a: Active, nextSeq: nat, count: nat, bytes: nat, est: nat)
    requires Usable(o) && InFlight(o, ps, from, a.base, nextSeq, count, bytes)
    requires 0 < a.records <= o.maxRecords && a.raw <= MAX_U64 && est == Estimate(a.raw, a.records, o.codec)
    requires count + 1 <= o.maxSegments && bytes + est <= o.maxBytes
    ensures InFlight(o, ps + [Piece(nextSeq, a.base, a.records, a.raw, est, est)], from, a.base + a.records, nextSeq + 1, count + 1, bytes + est)
  {
    hide InFlight, Tiles, Bytes, Estimate;
    CutPiece(o, ps, from, a.base, nextSeq, count, bytes, Piece(nextSeq, a.base, a.records, a.raw, est, est));
  }

  lemma CountInFlight(o: Options, ps: seq<Piece>, from: nat, to: nat, nextSeq: nat, count: nat, bytes: nat)
    requires InFlight(o, ps, from, to, nextSeq, count, bytes)
    ensures count == |ps|
  {
    hide Tiles, Bytes, Estimate;
  }

  lemma FinalPiece(o: Options, a: seq<Piece>, p: Piece, b: seq<Piece>, size: nat, from: nat, to: nat, nextSeq: nat, count: nat, bytes: nat)
    requires InFlight(o, a + [p] + b, from, to, nextSeq, count, bytes) && p.bytes == p.est
    requires o.codec == Uncompressed ==> size <= p.est
    ensures GoodPiece(o, p) && bytes >= p.bytes
    ensures InFlight(o, a + [p.(bytes := size)] + b, from, to, nextSeq, count, bytes - p.bytes + size)
  {
    hide Tiles, Bytes, Estimate;
    var s, t := a + [p] + b, a + [p.(bytes := size)] + b;
    assert s[|a|] == p;
    assert GoodPiece(o, p);
    Finalized(a, p, b, size, from, to);
    forall i | 0 <= i < |t| ensures GoodPiece(o, t[i]) && t[i].seqNo == s[i].seqNo { assert GoodPiece(o, s[i]); }
  }

  lemma PublishPiece(o: Options, p: Piece, rest: seq<Piece>, from: nat, to: nat, nextSeq: nat, count: nat, bytes: nat)
    requires InFlight(o, [p] + rest, from, to, nextSeq, count, bytes)
    ensures p.base == from && p.records > 0 && count > 0 && bytes >= p.bytes
    ensures InFlight(o, rest, from + p.records, to, nextSeq, count - 1, bytes - p.bytes)
  {
    hide Estimate;
    var s := [p] + rest;
    assert s[0] == p && s[1..] == rest;
    forall i | 0 <= i < |rest| ensures GoodPiece(o, rest[i]) && rest[i].seqNo == nextSeq - |rest| + i { assert rest[i] == s[i+1]; }
  }

  lemma SizeFits(o: Options, a: seq<Piece>, p: Piece, b: seq<Piece>, blocks: nat, size: nat, from: nat, to: nat, nextSeq: nat, count: nat, bytes: nat)
    requires InFlight(o, a + [p] + b, from, to, nextSeq, count, bytes) && p.bytes == p.est && 0 < blocks <= p.records
    requires ObjectSize(p.raw, blocks) <= MAX_U64 && (o.codec == Uncompressed ==> size == ObjectSize(p.raw, blocks))
    ensures bytes >= p.est && InFlight(o, (a + [p.(bytes := size)]) + b, from, to, nextSeq, count, bytes - p.est + size)
  {
    hide InFlight, Tiles, Bytes, Estimate;
    FinalPiece(o, a, p, b, p.est, from, to, nextSeq, count, bytes);
    if o.codec == Uncompressed { EstimateCovers(p.raw, p.records, blocks); }
    FinalPiece(o, a, p, b, size, from, to, nextSeq, count, bytes);
  }

  lemma NothingInFlight(o: Options, from: nat, to: nat, nextSeq: nat, count: nat, bytes: nat)
    requires InFlight(o, [], from, to, nextSeq, count, bytes)
    ensures from == to && count == 0 && bytes == 0
  {
  }

  // ---- The writer ----

  datatype Status = Done | Waiting | Refused | NeedsCut | TooLarge

  /** How the segment writer answered a record. */
  datatype Taken = Accepted | NotAccepted | Broken

  class Writer {
    const opts: Options
    /** NextLSN of the committed head, the adapter session's own view of it, and the LSN the next record gets. */
    var committed: nat
    var session: nat
    var optimistic: nat
    var active: Option<Active>
    var nextSeq: nat
    var transition: bool
    /** The estimate a cut under way is reserving. */
    var cutting: Option<nat>
    var lastTimestamp: Option<int>
    var inflightSegments: nat
    var inflightBytes: nat
    var detached: seq<Piece>
    var finalizing: Option<Piece>
    var ready: seq<Piece>
    var publishing: Option<Piece>
    var aborted: bool
    var closed: bool
    ghost const begun: nat
    ghost var published: seq<Piece>

    constructor (opts: Options, next: nat, lastTimestamp: Option<int>)
      requires Usable(opts) && next <= MAX_U64
      ensures Valid() && this.opts == opts && committed == optimistic == begun == next && !aborted && !closed && active == None
      ensures Pieces() == [] && ready == [] && detached == [] && finalizing == publishing == None && !transition && this.lastTimestamp == lastTimestamp
    {
      this.opts := opts;
      committed, session, optimistic, begun := next, next, next, next;
      active, nextSeq, transition, cutting := None, 0, false, None;
      this.lastTimestamp := lastTimestamp;
      inflightSegments, inflightBytes, detached, finalizing, ready, publishing := 0, 0, [], None, [], None;
      aborted, closed, published := false, false, [];
    }

    ghost function Middle(): seq<Piece>
      reads this
    {
      if finalizing.Some? then [finalizing.value] else []
    }

    /** Everything cut and not yet published, oldest first. */
    ghost function Pieces(): seq<Piece>
      reads this
    {
      ready + Middle() + detached
    }

    /** Where the active segment begins, or would begin. */
    ghost function Edge(): nat
      reads this
    {
      if active.Some? then active.value.base else optimistic
    }

    ghost predicate GoodActive(a: Active)
      reads this
    {
      && a.base + a.records == optimistic && a.records <= opts.maxRecords && opts.maxRecords <= MAX_U32 && a.raw <= MAX_U64
      && (a.records == 0 ==> a.raw == 0)
      && (a.records > 0 ==> Estimate(a.raw, a.records, opts.codec) <= opts.maxBytes)
    }

    /** What every critical section keeps while the writer is live. */
    ghost predicate Live()
      reads this
    {
      && session == committed && InFlight(opts, Pieces(), committed, Edge(), nextSeq, inflightSegments, inflightBytes)
      && (active.Some? ==> GoodActive(active.value))
      && (forall i :: 0 <= i < |detached| ==> detached[i].bytes == detached[i].est)
      && (finalizing.Some? ==> finalizing.value.bytes == finalizing.value.est)
      && (cutting.Some? <==> transition)
      && (cutting.Some? ==> active.Some? && active.value.records > 0 && cutting.value == Estimate(active.value.raw, active.value.records, opts.codec))
      && (publishing.Some? ==> ready != [] && ready[0] == publishing.value)
    }

    ghost predicate Valid()
      reads this
    {
      Usable(opts) && optimistic <= MAX_U64 && Tiles(published, begun, committed) && (!aborted ==> Live())
    }

    /** A terminal error: everything not published is given up. */
    method Fail()
      requires Usable(opts) && optimistic <= MAX_U64 && Tiles(published, begun, committed)
      modifies this`aborted, this`active, this`detached, this`ready
      ensures Valid() && aborted
    {
      aborted := true;
      active, detached, ready := None, [], [];
    }

    // ---- Cutting ----

    /** Takes ownership of the active segment, if there is something to cut. */
    method BeginCut() returns (r: Status)
      requires Valid()
      modifies this`transition, this`cutting
      ensures Valid()
      ensures r == NeedsCut <==> old(!transition && !closed && !aborted && active.Some? && active.value.records > 0)
      ensures r == NeedsCut ==> cutting == Some(Estimate(active.value.raw, active.value.records, opts.codec)) && !aborted
      ensures old(cutting).Some? ==> cutting == old(cutting)
      ensures r == Done ==> !aborted && !closed && !transition && cutting == old(cutting) && (active.None? || active.value.records == 0)
    {
      hide InFlight, Tiles, Estimate, Bytes, GoodPiece;
      if transition { return Waiting; }
      if closed || aborted { return Refused; }
      if active.None? || active.value.records == 0 { return Done; }
      transition := true;
      cutting := Some(Estimate(active.value.raw, active.value.records, opts.codec));
      return NeedsCut;
    }

    predicate CanReserve(bytes: nat)
      requires bytes <= opts.maxBytes
      reads this
    {
      !(inflightSegments > opts.maxSegments - 1) && !(inflightBytes > opts.maxBytes - bytes)
    }

    /** Reserves budget for the segment and detaches it, opening a successor unless the writer is being flushed. The
        estimate never exceeds the budget, so waiting can always succeed. */
    method FinishCut(successor: bool, started: bool) returns (r: Status)
      requires Valid() && cutting.Some?
      modifies this`inflightSegments, this`inflightBytes, this`detached, this`active, this`nextSeq, this`cutting, this`transition
      ensures Valid()
      ensures r == Waiting ==> unchanged(this)
      ensures r != Waiting ==> cutting.None? && !transition
      ensures r == Done ==> !aborted && active == if successor then Some(Active(optimistic, 0, 0)) else None
      ensures r == Done ==> old(active.Some?) && detached == old(detached) + [Cut(old(nextSeq), old(active).value, old(cutting).value)]
      ensures r == Refused && !aborted ==> active == old(active) && Pieces() == old(Pieces()) && inflightBytes == old(inflightBytes)
      ensures !old(aborted) && old(Pieces()) == [] && (successor ==> started) ==> r == Done
      ensures r in {Waiting, Done, Refused} && (r == Refused ==> aborted || (successor && !started))
      ensures r == Done ==> inflightSegments == old(inflightSegments) + 1
      ensures !aborted ==> old(Edge()) <= Edge()
    {
      hide InFlight, Tiles, Estimate, Bytes, GoodPiece;
      if aborted {
        cutting, transition := None, false;
        return Refused;
      }
      var est, a := cutting.value, active.value;
      assert est <= opts.maxBytes;
      ghost var before := Pieces();
      if before == [] { NothingInFlight(opts, committed, Edge(), nextSeq, inflightSegments, inflightBytes); }
      if !CanReserve(est) { return Waiting; }
      if successor && !started {
        cutting, transition := None, false;
        return Refused;
      }
      Detach(successor, a, est);
      return Done;
    }

    /** The reservation is granted: the active segment joins the queue. */
    method Detach(successor: bool, a: Active, est: nat)
      requires Valid() && !aborted && cutting == Some(est) && active == Some(a) && est <= opts.maxBytes && CanReserve(est)
      modifies this`inflightSegments, this`inflightBytes, this`detached, this`active, this`nextSeq, this`cutting, this`transition
      ensures Valid() && cutting.None? && !transition && active == if successor then Some(Active(optimistic, 0, 0)) else None
      ensures detached == old(detached) + [Cut(old(nextSeq), a, est)] && inflightSegments == old(inflightSegments) + 1
    {
      hide InFlight, Tiles, Estimate, Bytes, GoodPiece, Usable;
      ghost var before := Pieces();
      var p := Cut(nextSeq, a, est);
      CutActive(opts, before, committed, a, nextSeq, inflightSegments, inflightBytes, est);
      assert (ready + Middle()) + (detached + [p]) == before + [p];
      inflightSegments, inflightBytes, detached, nextSeq, cutting, transition, active :=
        inflightSegments + 1, inflightBytes + est, detached + [p], nextSeq + 1, None, false, if successor then Some(Active(optimistic, 0, 0)) else None;
    }

    /** The caller stopped waiting for budget. */
    method CancelCut()
      requires Valid() && cutting.Some?
      modifies this`cutting, this`transition
      ensures Valid() && cutting.None? && !transition
    {
      hide InFlight, Tiles, Estimate, Bytes, GoodPiece;
      cutting, transition := None, false;
    }

    // ---- Appending ----

    predicate CutBefore(size: nat, aged: bool)
      reads this
    {
      active.Some? && active.value.records > 0 &&
      (active.value.records >= opts.maxRecords || aged || active.value.raw >= opts.maxRaw || size > opts.maxRaw - active.value.raw)
    }

    /** What lets a record in, apart from the segment writer's own answer. */
    predicate Admits(size: nat, timestamp: int, aged: bool, started: bool)
      requires 0 < size <= MAX_U64
      reads this
    {
      && !transition && !closed && !aborted && optimistic < MAX_U64 && (lastTimestamp.Some? ==> lastTimestamp.value <= timestamp)
      && Estimate(size, 1, opts.codec) <= opts.maxBytes && !CutBefore(size, aged) && (active.Some? || started)
    }

    /** One record. It is accepted only into a segment whose estimate still fits the budget. */
    method Append(size: nat, timestamp: int, aged: bool, started: bool, taken: Taken) returns (r: Status, lsn: nat)
      requires Valid() && 0 < size <= MAX_U64
      modifies this`optimistic, this`lastTimestamp, this`active, this`aborted, this`detached, this`ready
      ensures r == Done <==> old(Admits(size, timestamp, aged, started)) && taken == Accepted
      ensures r == Done ==> detached == old(detached) && ready == old(ready)
      ensures r == Done ==> var a := if old(active).Some? then old(active).value else Active(lsn, 0, 0); active == Some(Active(a.base, a.records + 1, a.raw + size))
      ensures Valid() && committed == old(committed) && published == old(published) && (old(aborted) ==> aborted)
      ensures r == Done ==> lsn == old(optimistic) && optimistic == lsn + 1 && !aborted && active.Some? && active.value.records > 0
      ensures r == Done ==> lastTimestamp == Some(timestamp) && (old(lastTimestamp).Some? ==> old(lastTimestamp).value <= timestamp)
      ensures r != Done ==> optimistic == old(optimistic)
      ensures r == TooLarge ==> unchanged(this)
      ensures Pieces() == old(Pieces()) || aborted
      ensures !aborted ==> Edge() == old(Edge())
    {
      hide InFlight, Tiles, Estimate, Bytes, GoodPiece;
      lsn := 0;
      if transition { return Waiting, 0; }
      if closed || aborted { return Refused, 0; }
      if optimistic == MAX_U64 || (lastTimestamp.Some? && timestamp < lastTimestamp.value) {
        Fail();
        return Refused, 0;
      }
      if Estimate(size, 1, opts.codec) > opts.maxBytes { return TooLarge, 0; }
      if CutBefore(size, aged) { return NeedsCut, 0; }
      if active.None? {
        if !started { return Refused, 0; }
        active := Some(Active(optimistic, 0, 0));
      }
      if taken == NotAccepted { return Refused, 0; }
      if taken == Broken {
        Fail();
        return Refused, 0;
      }
      var a := active.value;
      if a.records > 0 { EstimateMonotone(a.raw + size, a.records + 1, opts.maxRaw, opts.maxRecords, opts.codec); }
      lsn := optimistic;
      optimistic, lastTimestamp, active := optimistic + 1, Some(timestamp), Some(Active(a.base, a.records + 1, a.raw + size));
      return Done, lsn;
    }

    // ---- Finalizing and publishing ----

    method TakeDetached()
      requires Valid()
      modifies this`detached, this`finalizing
      ensures Valid() && (!aborted ==> Pieces() == old(Pieces()))
      ensures if old(finalizing.None? && detached != []) then finalizing == Some(old(detached)[0]) && detached == old(detached)[1..] else finalizing == old(finalizing) && detached == old(detached)
    {
      hide InFlight, Tiles, Estimate, Bytes, GoodPiece;
      if finalizing.Some? || detached == [] { return; }
      assert [detached[0]] + detached[1..] == detached;
      assert ready + [] + detached == ready + [detached[0]] + detached[1..];
      finalizing := Some(detached[0]);
      detached := detached[1..];
    }

    /** The object is written: the reservation becomes its real size. A segment has at most one block per record. */
    method FinishFinalize(ok: bool, blocks: nat, compressed: nat)
      requires Valid() && finalizing.Some? && 0 < blocks <= finalizing.value.records && compressed <= MAX_U64
      requires ObjectSize(finalizing.value.raw, blocks) <= MAX_U64
      modifies this`finalizing, this`inflightBytes, this`ready, this`aborted, this`active, this`detached
      ensures Valid() && finalizing.None? && (old(aborted) ==> aborted)
      ensures ok && !old(aborted) ==> !aborted && ready == old(ready) + [old(finalizing).value.(bytes := if opts.codec == Uncompressed then ObjectSize(old(finalizing).value.raw, blocks) else compressed)]
      ensures (active == old(active) && detached == old(detached)) || aborted
    {
      hide InFlight, Tiles, Estimate, Bytes, GoodPiece;
      var p := finalizing.value;
      if !ok {
        Fail();
        finalizing := None;
        return;
      }
      var size := if opts.codec == Uncompressed then ObjectSize(p.raw, blocks) else compressed;
      if !aborted { SizeFits(opts, ready, p, detached, blocks, size, committed, Edge(), nextSeq, inflightSegments, inflightBytes); }
      if size > p.est {
        inflightBytes := inflightBytes + (size - p.est);
      } else if p.est > size {
        assert !aborted ==> inflightBytes >= p.est - size;
        inflightBytes := if inflightBytes >= p.est - size then inflightBytes - (p.est - size) else 0;
      }
      finalizing := None;
      ready := ready + [p.(bytes := size)];
      assert Pieces() == ready + detached;
    }

    method BeginPublish()
      requires Valid()
      modifies this`publishing
      ensures Valid() && publishing == if ready != [] && old(publishing).None? then Some(ready[0]) else old(publishing)
    {
      hide InFlight, Tiles, Estimate, Bytes, GoodPiece;
      if ready != [] && publishing.None? { publishing := Some(ready[0]); }
    }

    /** The adapter and the catalog answer. While the writer is live the adapter's expected-LSN check cannot fail, and an
        accepted segment extends the published run exactly where it ended. */
    method FinishPublish(answer: Option<nat>)
      requires Valid() && publishing.Some? && (answer.Some? ==> answer.value <= MAX_U64)
      modifies this`publishing, this`session, this`committed, this`published, this`ready, this`inflightSegments, this`inflightBytes, this`aborted, this`active, this`detached
      ensures Valid() && publishing.None? && (old(aborted) ==> aborted)
      ensures (committed == old(committed) && published == old(published)) || (published == old(published) + [old(publishing).value] && committed == old(committed) + old(publishing).value.records)
      ensures !old(aborted) ==> old(publishing).value.base == old(session)
      ensures !old(aborted) && answer == Some(old(committed) + old(publishing).value.records) ==>
                !aborted && committed == answer.value && published == old(published) + [old(publishing).value] && |Pieces()| == |old(Pieces())| - 1
                && old(ready) != [] && ready == old(ready)[1..] && detached == old(detached)
      ensures active == old(active) || aborted
    {
      hide InFlight, Tiles, Estimate, Bytes, GoodPiece, Usable;
      var item := publishing.value;
      OldestFits();
      publishing := None;
      if item.base != session || answer.None? {
        Fail();
        return;
      }
      session := answer.value;
      if item.base != committed || answer.value != item.base + item.records || item.records == 0 {
        Fail();
        return;
      }
      Accept(item);
    }

    /** A live writer publishes its oldest segment, which starts where the committed log ends. */
    lemma OldestFits()
      requires Valid() && publishing.Some?
      ensures !aborted ==> ready != [] && publishing.value.base == committed == session && publishing.value.records > 0 && publishing.value == ready[0]
    {
      hide InFlight, Tiles, Estimate, Bytes, GoodPiece, Usable;
      if !aborted {
        var rest := ready[1..] + Middle() + detached;
        assert Pieces() == [ready[0]] + rest;
        PublishPiece(opts, ready[0], rest, committed, Edge(), nextSeq, inflightSegments, inflightBytes);
      }
    }

    method Accept(item: Piece)
      requires Usable(opts) && optimistic <= MAX_U64 && Tiles(published, begun, committed) && publishing.None?
      requires item.base == committed && item.records > 0 && session == item.base + item.records
      requires !aborted ==> ready != [] && ready[0] == item && InFlight(opts, Pieces(), committed, Edge(), nextSeq, inflightSegments, inflightBytes)
      requires !aborted ==> (active.Some? ==> GoodActive(active.value))
      requires !aborted ==> (forall i :: 0 <= i < |detached| ==> detached[i].bytes == detached[i].est) && (finalizing.Some? ==> finalizing.value.bytes == finalizing.value.est)
      requires !aborted ==> (cutting.Some? <==> transition) && (cutting.Some? ==> active.Some? && active.value.records > 0 && cutting.value == Estimate(active.value.raw, active.value.records, opts.codec))
      modifies this`ready, this`inflightSegments, this`inflightBytes, this`published, this`committed
      ensures Valid() && published == old(published) + [item] && committed == old(committed) + item.records
      ensures !aborted ==> |Pieces()| == |old(Pieces())| - 1 && ready == old(ready)[1..]
    {
      hide InFlight, Tiles, Estimate, Bytes, GoodPiece, Usable;
      ghost var rest := if ready == [] then [] else ready[1..] + Middle() + detached;
      if !aborted {
        assert Pieces() == [item] + rest;
        PublishPiece(opts, item, rest, committed, Edge(), nextSeq, inflightSegments, inflightBytes);
      }
      assert !aborted ==> inflightSegments > 0 && inflightBytes >= item.bytes;
      TilesSnoc(published, begun, committed, item);
      if ready != [] && ready[0].seqNo == item.seqNo {
        ready, inflightSegments, inflightBytes :=
          ready[1..], if inflightSegments > 0 then inflightSegments - 1 else 0, if inflightBytes >= item.bytes then inflightBytes - item.bytes else 0;
      }
      published, committed := published + [item], committed + item.records;
    }

    // ---- Progress ----

    /** The steps still to be made for everything in flight: each segment is taken, finalized, picked and published. */
    ghost function Work(): int
      reads this
    {
      4 * |detached| + (if finalizing.Some? then 3 else 0) + 2 * |ready| - (if publishing.Some? then 1 else 0)
    }

    /** The background goroutines make their next step and it succeeds. The object written for a segment has the given
        number of blocks, if the segment has as many records. */
    method Progress(blocks: nat, compressed: nat)
      requires Valid() && !aborted && opts.maxBytes < MAX_U64 && compressed <= MAX_U64
      modifies this`publishing, this`session, this`committed, this`published, this`ready, this`inflightSegments, this`inflightBytes, this`aborted, this`active, this`detached, this`finalizing
      ensures Valid() && !aborted && active == old(active) && old(published) <= published
      ensures Work() == if old(Work()) > 0 then old(Work()) - 1 else 0
    {
      hide InFlight, Tiles, Estimate, Bytes, GoodPiece;
      if publishing.Some? {
        OldestFits();
        RoomForOldest();
        FinishPublish(Some(committed + publishing.value.records));
      } else if ready != [] {
        BeginPublish();
      } else if finalizing.Some? {
        ObjectFits(finalizing.value);
        FinishFinalize(true, if 0 < blocks <= finalizing.value.records then blocks else 1, compressed);
      } else {
        TakeDetached();
      }
    }

    lemma ObjectFits(p: Piece)
      requires Valid() && !aborted && opts.maxBytes < MAX_U64 && finalizing == Some(p)
      ensures p.records > 0 && forall blocks :: 0 <= blocks <= p.records ==> ObjectSize(p.raw, blocks) <= MAX_U64
    {
      hide Tiles, Bytes;
      assert Pieces()[|ready|] == p;
      assert GoodPiece(opts, p);
      Unsaturated(p.raw, p.records, opts.codec);
      forall blocks | 0 <= blocks <= p.records ensures ObjectSize(p.raw, blocks) <= MAX_U64 { TimesMonotone(blocks, p.records, BLOCK_OVERHEAD); }
    }

    lemma RoomForOldest()
      requires Valid() && !aborted && publishing.Some?
      ensures committed + publishing.value.records <= MAX_U64
    {
      hide Tiles, Bytes, Estimate, GoodPiece;
      var ps := Pieces();
      assert ps[0] == publishing.value;
      FirstWithin(ps, committed, Edge());
    }

    /** A segment has at most four steps to go, and with none to go nothing is in flight. */
    lemma WorkBounds()
      requires Valid() && !aborted
      ensures 0 <= Work() <= 4 * inflightSegments <= 4 * opts.maxSegments && (Work() == 0 ==> inflightSegments == 0 && Pieces() == [])
    {
      hide Tiles, Bytes, Estimate, GoodPiece;
    }

    // ---- Flushing ----

    method DropEmpty()
      requires Valid() && !transition
      modifies this`active
      ensures Valid() && (active == old(active) || (active.None? && old(active).value.records == 0)) && (active.Some? ==> active.value.records > 0)
    {
      hide InFlight, Tiles, Estimate, Bytes, GoodPiece;
      if active.Some? && active.value.records == 0 { active := None; }
    }

    /** With nothing in flight everything up to the active segment is committed. */
    method Drained() returns (r: Option<nat>)
      requires Valid()
      ensures r.Some? ==> r.value == committed == Edge() && committed <= optimistic && Tiles(published, begun, committed)
      ensures r.Some? ==> (committed == optimistic <==> active.None? || active.value.records == 0)
      ensures r.Some? <==> !aborted && inflightSegments == 0
    {
      hide Estimate, Bytes;
      if aborted || inflightSegments != 0 { return None; }
      assert Pieces() == [];
      return Some(committed);
    }

    method MarkClosed()
      requires Valid()
      modifies this`closed
      ensures Valid() && closed
    {
      hide InFlight, Tiles, Estimate, Bytes, GoodPiece;
      closed := true;
    }
  }

  lemma NoBytes()
    ensures Bytes([]) == 0
  {
  }

  lemma OneByte(p: Piece)
    ensures Bytes([p]) == p.bytes
  {
    assert [p][1..] == [];
  }

  // ---- Any interleaving ----

  datatype Section =
    | AppendSection(size: nat, timestamp: int, aged: bool, started: bool, taken: Taken)
    | BeginCutSection
    | FinishCutSection(successor: bool, started: bool)
    | CancelCutSection
    | TakeSection
    | FinalizeSection(ok: bool, blocks: nat, compressed: nat)
    | BeginPublishSection
    | FinishPublishSection(answer: Option<nat>)
    | DropEmptySection
    | ProgressSection(blocks: nat, compressed: nat)
    | FailSection
    | CloseSection

  /** Enough successful background steps to see through everything the budget can hold. */
  ghost predicate Enough(script: seq<Section>, segments: int) {
    |script| >= 4 * segments && forall i :: 0 <= i < |script| ==> script[i].ProgressSection? && script[i].compressed <= MAX_U64
  }

  /** A section that does not belong to the cut under way: only its owner ends that. */
  predicate Others(a: Section) { !a.FinishCutSection? && !a.CancelCutSection? }

  method Perform(w: Writer, a: Section)
    requires w.Valid()
    modifies w
    ensures w.Valid() && (old(w.aborted) ==> w.aborted)
    ensures w.optimistic == old(w.optimistic) || (a.AppendSection? && w.optimistic == old(w.optimistic) + 1)
    ensures old(w.published) <= w.published
    ensures !w.aborted ==> old(w.Edge()) <= w.Edge()
    ensures Others(a) && old(w.cutting).Some? ==> w.cutting == old(w.cutting)
    ensures a.ProgressSection? && a.compressed <= MAX_U64 && w.opts.maxBytes < MAX_U64 && !old(w.aborted) ==>
              && !w.aborted && w.active == old(w.active) && w.closed == old(w.closed) && w.transition == old(w.transition) && w.cutting == old(w.cutting)
              && w.Work() == if old(w.Work()) > 0 then old(w.Work()) - 1 else 0
  {
    hide Tiles, InFlight, Estimate, Usable;
    match a
    case AppendSection(size, timestamp, aged, started, taken) =>
      if 0 < size <= MAX_U64 { var _, _ := w.Append(size, timestamp, aged, started, taken); }
    case BeginCutSection => var _ := w.BeginCut();
    case FinishCutSection(successor, started) => if w.cutting.Some? { var _ := w.FinishCut(successor, started); }
    case CancelCutSection => if w.cutting.Some? { w.CancelCut(); }
    case TakeSection => w.TakeDetached();
    case FinalizeSection(ok, blocks, compressed) =>
      if w.finalizing.Some? && 0 < blocks <= w.finalizing.value.records && compressed <= MAX_U64 && ObjectSize(w.finalizing.value.raw, blocks) <= MAX_U64 {
        w.FinishFinalize(ok, blocks, compressed);
      }
    case BeginPublishSection => w.BeginPublish();
    case FinishPublishSection(answer) =>
      if w.publishing.Some? && (answer.Some? ==> answer.value <= MAX_U64) { w.FinishPublish(answer); }
    case DropEmptySection => if !w.transition { w.DropEmpty(); }
    case ProgressSection(blocks, compressed) =>
      if !w.aborted && w.opts.maxBytes < MAX_U64 && compressed <= MAX_U64 { w.Progress(blocks, compressed); }
    case FailSection => w.Fail();
    case CloseSection => w.MarkClosed();
  }

  /** Any critical sections of other callers and of the background goroutines, one after another. */
  method PerformAll(w: Writer, script: seq<Section>)
    requires w.Valid()
    modifies w
    ensures w.Valid() && (old(w.aborted) ==> w.aborted) && old(w.optimistic) <= w.optimistic && old(w.published) <= w.published
    ensures !w.aborted ==> old(w.Edge()) <= w.Edge()
    ensures script == [] ==> unchanged(w)
  {
    hide Tiles, InFlight, Estimate, Usable;
    for i := 0 to |script|
      invariant w.Valid() && (old(w.aborted) ==> w.aborted) && old(w.optimistic) <= w.optimistic && old(w.published) <= w.published
      invariant !w.aborted ==> old(w.Edge()) <= w.Edge()
      invariant i == 0 ==> unchanged(w)
    {
      Perform(w, script[i]);
    }
  }

  /** How the waits of a flush or close pass: what others do while a cut of theirs ends, while budget is short, between the
      cut and the drain, and during the drain. A wait that outlasts its list is given up, as a cancelled call is. */
  datatype Waits = Waits(transition: seq<Section>, budget: seq<Section>, between: seq<Section>, drain: seq<Section>)

  /** Detaches the active segment without a successor and drops an empty one. Success leaves no active segment. */
  method DetachActive(w: Writer, waits: Waits) returns (ok: bool, dropped: bool)
    requires w.Valid() && !w.closed && !w.aborted
    modifies w
    ensures w.Valid() && old(w.optimistic) <= w.optimistic && old(w.published) <= w.published
    ensures ok ==> !w.aborted && w.active.None? && w.Edge() == w.optimistic
    ensures old(w.active.None?) ==> ok && !dropped && w.inflightSegments == old(w.inflightSegments)
    ensures old(!w.transition) && w.opts.maxBytes < MAX_U64 && Enough(waits.budget, w.opts.maxSegments) ==> ok && w.optimistic == old(w.optimistic)
  {
    hide Tiles, InFlight, Estimate, Usable, Bytes;
    if w.active.Some? && w.active.value.records > 0 {
      var i := 0;
      while w.transition && i < |waits.transition|
        invariant 0 <= i <= |waits.transition| && w.Valid() && old(w.optimistic) <= w.optimistic && old(w.published) <= w.published
        invariant old(!w.transition) ==> unchanged(w)
      {
        Perform(w, waits.transition[i]);
        i := i + 1;
      }
      var cut := w.BeginCut();
      if cut == NeedsCut {
        ok := ReserveAndDetach(w, waits.budget);
        if !ok { return false, false; }
      } else if cut != Done {
        return false, false;
      }
    }
    dropped := w.active.Some?;
    w.DropEmpty();
    return true, dropped;
  }

  /** Waits for budget while others run, then detaches. */
  method ReserveAndDetach(w: Writer, others: seq<Section>) returns (ok: bool)
    requires w.Valid() && w.cutting.Some? && !w.aborted
    modifies w
    ensures w.Valid() && old(w.optimistic) <= w.optimistic && old(w.published) <= w.published
    ensures ok ==> !w.aborted && w.active.None? && !w.transition
    ensures w.opts.maxBytes < MAX_U64 && Enough(others, w.opts.maxSegments) ==> ok && w.optimistic == old(w.optimistic)
  {
    hide Tiles, InFlight, Estimate, Usable, Bytes;
    var i := 0;
    w.WorkBounds();
    ghost var smooth := w.opts.maxBytes < MAX_U64 && Enough(others, w.opts.maxSegments);
    while true
      invariant 0 <= i <= |others| && w.Valid() && w.cutting.Some? && old(w.optimistic) <= w.optimistic && old(w.published) <= w.published
      invariant smooth ==> !w.aborted && w.optimistic == old(w.optimistic) && w.Work() <= |others| - i
      decreases |others| - i
    {
      if !w.aborted { w.WorkBounds(); }
      var r := w.FinishCut(false, true);
      if r != Waiting { return r == Done; }
      ghost var from := i;
      while i < |others| && !Others(others[i])
        invariant from <= i <= |others| && (smooth ==> i == from)
      {
        i := i + 1;
      }
      if i == |others| {
        w.CancelCut();
        return false;
      }
      Perform(w, others[i]);
      i := i + 1;
    }
  }

  /** Waits until nothing is in flight while others run. */
  method WaitDrained(w: Writer, others: seq<Section>) returns (r: Option<nat>)
    requires w.Valid()
    modifies w
    ensures w.Valid() && old(w.optimistic) <= w.optimistic && old(w.published) <= w.published
    ensures r.Some? ==> !old(w.aborted) && !w.aborted && old(w.Edge()) <= w.Edge() == w.committed == r.value <= w.optimistic
    ensures r.Some? ==> Tiles(w.published, w.begun, w.committed) && (w.committed == w.optimistic <==> w.active.None? || w.active.value.records == 0)
    ensures old(!w.aborted && w.inflightSegments == 0) ==> r.Some?
    ensures old(!w.aborted) && w.opts.maxBytes < MAX_U64 && Enough(others, w.opts.maxSegments) ==> r.Some? && w.optimistic == old(w.optimistic)
  {
    hide Tiles, InFlight, Estimate, Usable, Bytes;
    var i := 0;
    ghost var smooth := !w.aborted && w.opts.maxBytes < MAX_U64 && Enough(others, w.opts.maxSegments);
    if smooth { w.WorkBounds(); }
    while i < |others| && !w.aborted && w.inflightSegments != 0
      invariant 0 <= i <= |others| && w.Valid() && old(w.optimistic) <= w.optimistic && old(w.published) <= w.published
      invariant (old(w.aborted) ==> w.aborted) && (!w.aborted ==> old(w.Edge()) <= w.Edge())
      invariant i > 0 ==> old(w.aborted || w.inflightSegments != 0)
      invariant smooth ==> !w.aborted && w.optimistic == old(w.optimistic) && w.Work() <= |others| - i
      invariant i == 0 ==> unchanged(w)
    {
      Perform(w, others[i]);
      i := i + 1;
    }
    if smooth { w.WorkBounds(); }
    r := w.Drained();
  }

  /** A flush, with any sections of appends, age cuts, finalizers, publishers and other flushes before, during and after its
      own cut. Success means that every record accepted before it began is committed; every record at all is, unless one
      was accepted meanwhile. `cleaned` says whether an empty active segment could be discarded. A flush of a live writer
      that nobody else uses does succeed when the background steps it waits for do. */
  method Flush(w: Writer, waits: Waits, cleaned: bool) returns (r: Option<nat>)
    requires w.Valid()
    modifies w
    ensures w.Valid() && old(w.optimistic) <= w.optimistic && old(w.published) <= w.published
    ensures r.Some? ==> !w.aborted && r.value == w.committed && old(w.optimistic) <= w.committed <= w.optimistic && Tiles(w.published, w.begun, w.committed)
    ensures r.Some? ==> (w.committed == w.optimistic <==> w.active.None? || w.active.value.records == 0)
    ensures r.Some? && w.optimistic == old(w.optimistic) ==> w.committed == w.optimistic
    ensures old(w.closed || w.aborted) ==> r.None?
    ensures old(!w.closed && !w.aborted && w.active.None? && w.inflightSegments == 0) && waits.between == [] ==> r.Some?
    ensures old(!w.closed && !w.aborted && !w.transition) && w.opts.maxBytes < MAX_U64 && cleaned && waits.between == []
            && Enough(waits.budget, w.opts.maxSegments) && Enough(waits.drain, w.opts.maxSegments) ==>
              r == Some(old(w.optimistic)) && w.committed == w.optimistic == old(w.optimistic)
  {
    hide Tiles, InFlight, Estimate, Usable, Bytes;
    if w.closed || w.aborted { return None; }
    var detached, dropped := DetachActive(w, waits);
    if !detached { return None; }
    if dropped && !cleaned {
      w.Fail();
      return None;
    }
    PerformAll(w, waits.between);
    r := WaitDrained(w, waits.drain);
  }

  /** A close: a flush whose drain also closes the writer. A writer already closed answers with what is committed. */
  method Close(w: Writer, waits: Waits, cleaned: bool) returns (r: Option<nat>)
    requires w.Valid()
    modifies w
    ensures w.Valid() && old(w.optimistic) <= w.optimistic && old(w.published) <= w.published
    ensures r.Some? ==> w.closed && r.value == w.committed && Tiles(w.published, w.begun, w.committed)
    ensures r.Some? && !old(w.closed) ==> !w.aborted && old(w.optimistic) <= w.committed <= w.optimistic
    ensures r.Some? && !old(w.closed) ==> (w.committed == w.optimistic <==> w.active.None? || w.active.value.records == 0)
    ensures old(w.closed) ==> r.Some?
    ensures old(!w.closed && !w.aborted && !w.transition) && w.opts.maxBytes < MAX_U64 && cleaned && waits.between == []
            && Enough(waits.budget, w.opts.maxSegments) && Enough(waits.drain, w.opts.maxSegments) ==>
              r == Some(old(w.optimistic)) && w.committed == w.optimistic == old(w.optimistic) && w.closed
  {
    hide InFlight, Estimate, Usable, Bytes;
    if w.closed { return Some(w.committed); }
    r := Flush(w, waits, cleaned);
    if r.Some? { w.MarkClosed(); }
  }

  lemma SmallBudget()
    ensures Usable(Options(10, 1000, 4, 1_000_000, Uncompressed)) && Estimate(10, 1, Uncompressed) <= 1_000_000
  {
  }

  /** A new writer takes one record and cuts it off. */
  method CutOne() returns (w: Writer)
    ensures fresh(w) && w.Valid() && !w.aborted && !w.closed && !w.transition && w.active.None? && w.committed == 0 && w.optimistic == 1
    ensures |w.detached| == 1 && w.detached[0].records == 1 && w.detached[0].raw == 10 && w.ready == [] && w.finalizing.None? && w.publishing.None?
    ensures w.lastTimestamp == Some(0) && w.opts == Options(10, 1000, 4, 1_000_000, Uncompressed)
  {
    hide InFlight, Tiles, Bytes, GoodPiece, Estimate, Usable, Writer.Valid, Writer.Live;
    SmallBudget();
    w := new Writer(Options(10, 1000, 4, 1_000_000, Uncompressed), 0, None);
    var first, _ := w.Append(10, 0, false, true, Accepted);
    var begun := w.BeginCut();
    var cut := w.FinishCut(false, true);
  }

  /** The one segment in flight is finalized and published. */
  method PublishOne(w: Writer)
    requires w.Valid() && !w.aborted && |w.detached| == 1 && w.detached[0].records == 1 && w.detached[0].raw == 10
    requires w.ready == [] && w.finalizing.None? && w.publishing.None? && w.committed < MAX_U64
    modifies w`detached, w`finalizing, w`inflightBytes, w`ready, w`aborted, w`active, w`publishing, w`session, w`committed, w`published, w`inflightSegments
    ensures w.Valid() && !w.aborted && w.Pieces() == [] && w.committed == old(w.committed) + 1 && w.active == old(w.active)
  {
    hide InFlight, Tiles, Bytes, GoodPiece, Estimate, Usable, Writer.Valid, Writer.Live;
    w.TakeDetached();
    w.FinishFinalize(true, 1, 0);
    w.BeginPublish();
    w.FinishPublish(Some(w.committed + 1));
  }

  /** A close answers with success while a record accepted during its drain stays uncommitted: the sections of a close in
      order, with one append of another caller after its cut. */
  method SlippedRecord() returns (w: Writer, snapshot: Option<nat>)
    ensures w.Valid() && w.closed && !w.aborted && snapshot == Some(w.committed) && w.committed < w.optimistic
  {
    hide InFlight, Tiles, Bytes, GoodPiece, Estimate, Usable, Writer.Valid, Writer.Live;
    SmallBudget();
    w := CutOne();
    w.DropEmpty();
    var second, _ := w.Append(10, 0, false, true, Accepted);
    PublishOne(w);
    NoneCounted(w);
    snapshot := w.Drained();
    w.MarkClosed();
  }

  lemma NoneCounted(w: Writer)
    requires w.Valid() && !w.aborted && w.Pieces() == []
    ensures w.inflightSegments == 0
  {
    hide Tiles, Estimate, Usable;
    CountInFlight(w.opts, w.Pieces(), w.committed, w.Edge(), w.nextSeq, w.inflightSegments, w.inflightBytes);
  }

  /** Whatever order the critical sections of callers and background goroutines take, a live writer's ready, finalizing,
      detached and active segments tile the range from the committed LSN to the next one in cut order, its counters are
      their sums within the budget, and what was published tiles the range before. */
  method Drive(w: Writer, script: seq<Section>)
    requires w.Valid()
    modifies w
    ensures w.Valid()
    ensures !w.aborted ==> Tiles(w.Pieces(), w.committed, w.Edge()) && w.inflightSegments == |w.Pieces()| && w.inflightBytes == Bytes(w.Pieces())
    ensures !w.aborted && w.opts.codec == Uncompressed ==> w.inflightBytes <= w.opts.maxBytes
    ensures Tiles(w.published, w.begun, w.committed)
    ensures !w.aborted && w.active.None? && w.inflightSegments == 0 ==> w.committed == w.optimistic
  {
    var i := 0;
    while i < |script|
      invariant 0 <= i <= |script| && w.Valid()
    {
      Perform(w, script[i]);
      i := i + 1;
    }
  }
}
