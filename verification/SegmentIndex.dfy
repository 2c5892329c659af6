/** The block index of a segment object and its validation. */
module SegmentIndex {
  import opened CatalogTypes
  import opened RawBlock

  const FILE_PREAMBLE: nat := 64
  const BLOCK_PREAMBLE: nat := 64
  const INDEX_PREAMBLE: nat := 64
  const INDEX_ENTRY: nat := 64
  const TRAILER: nat := 192
  const MAX_BLOCKS: nat := 0x3FF_FFFE

  datatype Entry = Entry(offset: U64, storedSize: U32, rawSize: U32, recordCount: U32, baseLSN: U64, minTS: I64, maxTS: I64, hash: U64)

  /** The summary at the end of a segment, without the fields that only identify it. */
  datatype Trailer = Trailer(baseLSN: U64, lastLSN: U64, minTS: I64, maxTS: I64, recordCount: U32, blockCount: U32,
                             indexOffset: U64, indexLength: U32, totalSize: U64)

  predicate ValidEntry(e: Entry) {
    && 0 < e.storedSize <= MAX_STORED_BLOCK && 0 < e.rawSize <= MAX_RAW_BLOCK
    && 0 < e.recordCount <= e.rawSize / RECORD_HEADER && e.baseLSN + (e.recordCount - 1) <= MAX_RECORD_LSN && e.minTS <= e.maxTS
  }

  function Last(e: Entry): int { e.baseLSN + e.recordCount - 1 }

  function After(e: Entry): nat { e.offset + BLOCK_PREAMBLE + e.storedSize }

  /** The next block starts where this one ends, in LSNs and in bytes, and not earlier in time. */
  predicate Abuts(a: Entry, b: Entry) { b.baseLSN == Last(a) + 1 && b.offset == After(a) && b.minTS >= a.maxTS }

  function Records(es: seq<Entry>): nat { if es == [] then 0 else Records(es[..|es|-1]) + es[|es|-1].recordCount }

  /** An index and a trailer that agree: the blocks lie end to end from the file preamble to the index, cover the
      trailer's LSNs without gap or overlap, and have its bounds and record count. */
  predicate IndexOk(es: seq<Entry>, t: Trailer) {
    && es != [] && |es| == t.blockCount
    && es[0].offset == FILE_PREAMBLE && es[0].baseLSN == t.baseLSN && es[0].minTS == t.minTS
    && (forall i :: 0 <= i < |es| ==> ValidEntry(es[i]))
    && (forall i, j :: 0 <= i < |es| && i < j < |es| && j == i + 1 ==> Abuts(es[i], es[j]))
    && var z := es[|es|-1];
       Last(z) == t.lastLSN && After(z) == t.indexOffset && z.maxTS == t.maxTS && Records(es) == t.recordCount
  }

  function NextLSN(base: U64, count: U32): Res<nat> {
    if count == 0 || base > MAX_RECORD_LSN - (count - 1) then Bad(InvalidSegment) else Fine(base + count)
  }

  function NextBlockOffset(offset: U64, stored: U32): Res<nat> {
    if offset > MAX_U64 - BLOCK_PREAMBLE then Bad(InvalidSegment)
    else if offset + BLOCK_PREAMBLE > MAX_U64 - stored then Bad(InvalidSegment)
    else Fine(offset + BLOCK_PREAMBLE + stored)
  }

  /** The reader's check of an index; it accepts exactly the indexes that agree with the trailer. */
  method ValidateIndex(es: seq<Entry>, t: Trailer) returns (r: Res<bool>)
    requires |es| <= MAX_U32
    ensures r.Fine? <==> IndexOk(es, t)
  {
    if |es| == 0 || |es| != t.blockCount || es[0].offset != FILE_PREAMBLE { return Bad(IndexMismatch); }
    var records := 0;
    var i := 0;
    assert Records(es[..0]) == 0;
    while i < |es|
      invariant 0 <= i <= |es| && records == Records(es[..i])
      invariant forall j :: 0 <= j < i ==> ValidEntry(es[j])
      invariant i > 0 ==> es[0].baseLSN == t.baseLSN && es[0].minTS == t.minTS
      invariant forall j, k :: 0 <= j < i && j < k < i && k == j + 1 ==> Abuts(es[j], es[k])
    {
      if !ValidEntry(es[i]) { return Bad(InvalidSegment); }
      assert es[..i+1][..i] == es[..i];
      records := records + es[i].recordCount;
      if i == 0 {
        if es[i].baseLSN != t.baseLSN || es[i].minTS != t.minTS { return Bad(IndexMismatch); }
      } else {
        var prev := es[i-1];
        var lsn := NextLSN(prev.baseLSN, prev.recordCount);
        assert lsn.Fine?;
        if es[i].baseLSN != lsn.value {
          assert !Abuts(es[i-1], es[i]);
          return Bad(IndexMismatch);
        }
        var offset := NextBlockOffset(prev.offset, prev.storedSize);
        if offset.Bad? || es[i].offset != offset.value || es[i].minTS < prev.maxTS {
          assert !Abuts(es[i-1], es[i]);
          return Bad(IndexMismatch);
        }
      }
      i := i + 1;
    }
    assert es[..i] == es;
    var z := es[|es|-1];
    if Last(z) != t.lastLSN { return Bad(IndexMismatch); }
    var end := NextBlockOffset(z.offset, z.storedSize);
    if end.Bad? || end.value != t.indexOffset { return Bad(IndexMismatch); }
    if z.maxTS != t.maxTS || records != t.recordCount { return Bad(IndexMismatch); }
    return Fine(true);
  }

  // ---- What an agreed index means ----

  /** Blocks further along hold later LSNs, later bytes and no earlier timestamps. */
  lemma {:induction false} EntriesOrder(es: seq<Entry>, t: Trailer, i: nat, j: nat)
    requires IndexOk(es, t) && i < j < |es|
    ensures Last(es[i]) < es[j].baseLSN && After(es[i]) <= es[j].offset && es[i].maxTS <= es[j].minTS
    decreases j
  {
    hide ValidEntry;
    assert Abuts(es[j-1], es[j]) && ValidEntry(es[j-1]);
    if i < j - 1 {
      EntriesOrder(es, t, i, j - 1);
      ValidSpan(es[j-1]);
    }
  }

  lemma ValidSpan(e: Entry)
    requires ValidEntry(e)
    ensures e.baseLSN <= Last(e) && e.minTS <= e.maxTS && e.offset < After(e)
  {
  }

  /** The first block that ends at or after an LSN of the segment is the one block that holds it. */
  lemma BlockOfLSN(es: seq<Entry>, t: Trailer, lsn: nat, k: nat)
    requires IndexOk(es, t) && t.baseLSN <= lsn <= t.lastLSN
    requires k <= |es| && (forall i :: 0 <= i < k ==> Last(es[i]) < lsn) && (k < |es| ==> lsn <= Last(es[k]))
    ensures k < |es| && es[k].baseLSN <= lsn <= Last(es[k])
    ensures forall i :: 0 <= i < |es| && es[i].baseLSN <= lsn <= Last(es[i]) ==> i == k
  {
    hide ValidEntry;
    assert Last(es[|es|-1]) >= lsn;
    if k > 0 { assert Abuts(es[k-1], es[k]); }
    forall i: nat | i < |es| && es[i].baseLSN <= lsn <= Last(es[i]) ensures i == k {
      if k < i { EntriesOrder(es, t, k, i); }
    }
  }
}
