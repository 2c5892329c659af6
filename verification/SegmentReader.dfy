/** Reading a segment object from any LSN or timestamp. */
module SegmentReader {
  import opened CatalogTypes
  import opened RawBlock
  import opened SegmentIndex
  import opened SegmentWriter
  import Flat = CatalogReader

  // ---- Finding a block's bytes ----

  /** The block that starts at an offset of the object, when one does. */
  function Locate(blocks: seq<Block>, at: nat, offset: nat): Option<Block> {
    if blocks == [] then None
    else if at == offset then Some(blocks[0])
    else Locate(blocks[1..], at + BLOCK_PREAMBLE + |blocks[0].stored|, offset)
  }

  lemma {:induction false} LocatePlaced(st: Storage, blocks: seq<Block>, index: seq<Entry>, cuts: seq<seq<Record>>, i: nat, k: nat)
    requires Placed(blocks, index) && AllSealed(st, blocks, cuts) && i <= k < |blocks|
    ensures Locate(blocks[i..], index[i].offset, index[k].offset) == Some(blocks[k])
    ensures i < k ==> index[i].offset < index[k].offset
    decreases k - i
  {
    hide SealedOf;
    assert blocks[i..][0] == blocks[i] && blocks[i..][1..] == blocks[i+1..];
    if i < k {
      assert index[i+1].offset == After(index[i]) && index[i] == EntryFor(index[i].offset, blocks[i].preamble);
      StoredSize(st, blocks[i], cuts[i]);
      LocatePlaced(st, blocks, index, cuts, i + 1, k);
    }
  }

  lemma StoredSize(st: Storage, b: Block, rs: seq<Record>)
    requires SealedOf(st, b, rs)
    ensures |b.stored| == b.preamble.storedSize
  {
  }

  predicate Matches(p: BlockPreamble, e: Entry) {
    p.storedSize == e.storedSize && p.rawSize == e.rawSize && p.recordCount == e.recordCount && p.baseLSN == e.baseLSN
    && p.minTS == e.minTS && p.maxTS == e.maxTS && p.hash == e.hash
  }

  /** Reads, verifies and decodes one block: its raw bytes and its preamble. */
  function OpenBlock(st: Storage, s: Segment, maxBlock: nat, k: nat): Res<(seq<Byte>, BlockPreamble)>
    requires k < |s.index|
  {
    var e := s.index[k];
    if BLOCK_PREAMBLE + e.storedSize > maxBlock then Bad(BlockTooLarge)
    else
      match Locate(s.blocks, FILE_PREAMBLE, e.offset)
      case None => Bad(InvalidSegment)
      case Some(b) =>
        if |b.stored| != e.storedSize || !Matches(b.preamble, e) then Bad(IndexMismatch)
        else if !ValidPreamble(b.preamble) || st.hash(b.stored) != b.preamble.hash then Bad(InvalidSegment)
        else
          match st.decode(b.stored)
          case None => Bad(InvalidSegment)
          case Some(raw) => if |raw| != b.preamble.rawSize || !Envelope(raw, b.preamble) then Bad(InvalidSegment) else Fine((raw, b.preamble))
  }

  /** On a segment as written, every block opens and holds exactly its records. */
  lemma OpenWritten(st: Storage, s: Segment, cuts: seq<seq<Record>>, maxBlock: nat, k: nat)
    requires Lawful(st) && Holds(st, s, cuts) && k < |cuts| && maxBlock >= BLOCK_BOUND
    ensures OpenBlock(st, s, maxBlock, k).Fine? && BlockOf(OpenBlock(st, s, maxBlock, k).value.0, OpenBlock(st, s, maxBlock, k).value.1, cuts[k])
    ensures Envelope(OpenBlock(st, s, maxBlock, k).value.0, OpenBlock(st, s, maxBlock, k).value.1)
  {
    hide IndexOk, SealedOf, BlockOf;
    LocatePlaced(st, s.blocks, s.index, cuts, 0, k);
    assert s.blocks[0..] == s.blocks;
    assert s.index[k] == EntryFor(s.index[k].offset, s.blocks[k].preamble);
    StoredSize(st, s.blocks[k], cuts[k]);
    StoredBound(st, s.blocks[k], cuts[k]);
    SealedDecodes(st, s.blocks[k], cuts[k]);
    BlockEnvelope(st.decode(s.blocks[k].stored).value, s.blocks[k].preamble, cuts[k]);
  }

  lemma BlockEnvelope(raw: seq<Byte>, p: BlockPreamble, rs: seq<Record>)
    requires BlockOf(raw, p, rs)
    ensures Envelope(raw, p) && |rs| == p.recordCount
  {
  }

  /** What a scanner has returned is the beginning of the block. */
  lemma ReadPrefix(raw: seq<Byte>, p: BlockPreamble, read: seq<Record>, off: nat, rs: seq<Record>)
    requires ReadSoFar(raw, p, read, off) && BlockOf(raw, p, rs)
    ensures |read| <= |rs| && rs[..|read|] == read
  {
    hide BlockOf, Fits, RecordsBytes;
  }

  // ---- Scanning ----

  function Max(a: int, b: int): int { if a > b then a else b }

  /** A stored segment together with what it holds. */
  class Reader {
    const st: Storage
    const segment: Segment
    const maxBlock: nat
    ghost const cuts: seq<seq<Record>>

    ghost predicate Valid() {
      Lawful(st) && Holds(st, segment, cuts) && maxBlock >= BLOCK_BOUND && RunOf(Concat(cuts), segment.trailer.baseLSN) && Concat(cuts) != []
    }

    constructor (st: Storage, segment: Segment, maxBlock: nat, ghost cuts: seq<seq<Record>>)
      requires Lawful(st) && Holds(st, segment, cuts) && maxBlock >= BLOCK_BOUND && RunOf(Concat(cuts), segment.trailer.baseLSN) && Concat(cuts) != []
      ensures Valid() && this.st == st && this.segment == segment && this.cuts == cuts
    {
      this.st, this.segment, this.maxBlock, this.cuts := st, segment, maxBlock, cuts;
    }

    ghost function Records(): seq<Record> { Concat(cuts) }
  }

  /** Where block k begins among all records. */
  ghost function Begin(cuts: seq<seq<Record>>, k: nat): nat
    requires k <= |cuts|
  {
    |Concat(cuts[..k])|
  }

  lemma BeginFacts(cuts: seq<seq<Record>>, k: nat)
    requires k < |cuts|
    ensures Begin(cuts, k + 1) == Begin(cuts, k) + |cuts[k]| <= |Concat(cuts)|
    ensures forall i :: 0 <= i < |cuts[k]| ==> Concat(cuts)[Begin(cuts, k) + i] == cuts[k][i]
  {
    hide Concat;
    CutAt(cuts, k);
    var a := |Concat(cuts[..k])|;
    forall i | 0 <= i < |cuts[k]| ensures Concat(cuts)[a + i] == cuts[k][i] { assert Concat(cuts)[a..a+|cuts[k]|][i] == Concat(cuts)[a+i]; }
  }

  lemma BeginEnd(cuts: seq<seq<Record>>)
    ensures Begin(cuts, |cuts|) == |Concat(cuts)|
  {
    assert cuts[..|cuts|] == cuts;
  }

  class Scanner {
    const r: Reader
    var nextBlock: nat
    var fromLSN: nat
    var block: RawBlockScanner?
    var closed: bool
    /** The position of the first record wanted, and of the next record the blocks will yield. */
    ghost const start: nat
    ghost var pos: nat

    /** The position of the record the next call returns. */
    ghost function At(): nat
      reads this
    {
      if pos > start then pos else start
    }

    ghost predicate Valid()
      reads this, block
    {
      && r.Valid()
      && (closed ==> At() >= |r.Records()|)
      && (!closed ==>
            && nextBlock <= |r.cuts| && start < |r.Records()|
            && (block == null ==> pos == Begin(r.cuts, nextBlock))
            && (block != null ==> nextBlock > 0 && block.Valid() && BlockOf(block.raw, block.block, r.cuts[nextBlock-1])
                                  && pos == Begin(r.cuts, nextBlock - 1) + |block.read|)
            && (fromLSN == 0 ==> pos >= start || r.segment.trailer.baseLSN + start == 0)
            && (fromLSN != 0 ==> fromLSN == r.segment.trailer.baseLSN + start && (block == null ==> nextBlock < |r.cuts| && start < Begin(r.cuts, nextBlock + 1))
                                 && (block != null ==> start < Begin(r.cuts, nextBlock))))
    }

    constructor (r: Reader, first: Option<nat>, from: nat)
      requires r.Valid()
      requires first.Some? ==> first.value < |r.cuts| && from >= r.segment.trailer.baseLSN
                               && Begin(r.cuts, first.value) <= from - r.segment.trailer.baseLSN < Begin(r.cuts, first.value + 1) <= |r.Records()|
      ensures Valid() && this.r == r && block == null && At() == if first.Some? then from - r.segment.trailer.baseLSN else |r.Records()|
    {
      hide Reader.Valid, Concat, Begin, BlockOf;
      this.r := r;
      nextBlock := if first.Some? then first.value else 0;
      fromLSN := from;
      block := null;
      closed := first.None?;
      start := if first.Some? then from - r.segment.trailer.baseLSN else |Concat(r.cuts)|;
      pos := if first.Some? then Begin(r.cuts, first.value) else 0;
    }

    /** Takes the next record of the open block, or leaves the block when it is done. */
    method FromBlock() returns (x: Option<Record>)
      requires Valid() && !closed && block != null
      modifies this`block, this`fromLSN, this`pos, block
      ensures Valid() && !closed
      ensures x.Some? ==> block == old(block) && old(pos) < |r.Records()| && x.value == r.Records()[old(pos)] && pos == old(pos) + 1 && fromLSN == old(fromLSN)
                          && block.index == old(block.index) + 1
      ensures x.None? ==> block == null && pos == old(pos) && pos >= start
    {
      hide Concat, BlockOf, Begin, Reader.Valid, ReadSoFar, Envelope, Holds, RunOf, Lawful;
      var y := block.Next();
      BeginFacts(r.cuts, nextBlock - 1);
      ReadPrefix(block.raw, block.block, block.read, block.offset, r.cuts[nextBlock-1]);
      assert y.Fine?;
      if y.value.Some? {
        pos := pos + 1;
        return y.value;
      }
      BlockUnique(block.raw, block.block, block.read, r.cuts[nextBlock-1]);
      block := null;
      fromLSN := 0;
      return None;
    }

    method OpenNext()
      requires Valid() && !closed && block == null && nextBlock < |r.segment.index|
      modifies this`block, this`nextBlock
      ensures Valid() && !closed && block != null && fresh(block) && nextBlock == old(nextBlock) + 1 && At() == old(At())
    {
      hide Concat, BlockOf, Begin, ReadSoFar, Envelope, RunOf, OpenBlock, Reader.Valid, Lawful, Holds;
      var o := OpenBlock(r.st, r.segment, r.maxBlock, nextBlock);
      OpenReader(r, nextBlock);
      var (raw, p) := o.value;
      block := new RawBlockScanner(raw, p);
      nextBlock := nextBlock + 1;
    }

    /** The next record wanted, or none after the last one. */
    method Next() returns (x: Option<Record>)
      requires Valid()
      modifies this, block
      ensures Valid() && (block == old(block) || block == null || fresh(block))
      ensures x.Some? ==> old(At()) < |r.Records()| && x.value == r.Records()[old(At())] && At() == old(At()) + 1
      ensures x.None? ==> old(At()) >= |r.Records()| && At() == old(At())
    {
      hide Concat, BlockOf, Begin, ReadSoFar, Envelope, RunOf, Lawful, Reader.Valid;
      if closed { return None; }
      while true
        invariant Valid() && !closed && At() == old(At()) && (block == old(block) || block == null || fresh(block))
        decreases |r.segment.index| - nextBlock, if block == null then 0 else 1 + block.block.recordCount - block.index
      {
        IndexSize(r);
        if block != null {
          var y := FromBlock();
          if y.Some? {
            WantedLSN(r, pos - 1);
            if y.value.lsn >= fromLSN { return y; }
          }
        } else if nextBlock >= |r.segment.index| {
          BeginEnd(r.cuts);
          closed := true;
          return None;
        } else {
          OpenNext();
        }
      }
    }
  }

  lemma OpenReader(r: Reader, k: nat)
    requires r.Valid() && k < |r.segment.index|
    ensures |r.segment.index| == |r.cuts|
    ensures var o := OpenBlock(r.st, r.segment, r.maxBlock, k); o.Fine? && BlockOf(o.value.0, o.value.1, r.cuts[k]) && Envelope(o.value.0, o.value.1)
  {
    hide RunOf, Lawful, IndexOk, AllSealed, BlockOf, Envelope, OpenBlock;
    OpenWritten(r.st, r.segment, r.cuts, r.maxBlock, k);
  }

  lemma IndexSize(r: Reader)
    requires r.Valid()
    ensures |r.segment.index| == |r.cuts| > 0
  {
    hide AllSealed, IndexOk, RunOf, Lawful;
    NoCuts(r.cuts);
  }

  lemma WantedLSN(r: Reader, i: nat)
    requires r.Valid() && i < |r.Records()|
    ensures r.Records()[i].lsn == r.segment.trailer.baseLSN + i
  {
    hide Concat, Holds, Lawful;
  }

  // ---- Reading ----

  /** The position of the first record at or after an LSN. */
  function Position(base: nat, count: nat, from: nat): nat { if from <= base then 0 else if from - base >= count then count else from - base }

  /** At most `limit` records from a position; no limit reads to the end. */
  function Slice(rs: seq<Record>, k: nat, limit: int): seq<Record>
    requires k <= |rs|
  {
    if limit <= 0 || k + limit >= |rs| then rs[k..] else rs[k..k+limit]
  }

  lemma EntryRange(r: Reader, k: nat)
    requires r.Valid() && k < |r.segment.index|
    ensures |r.segment.index| == |r.cuts| && Begin(r.cuts, k) < Begin(r.cuts, k + 1) <= |r.Records()|
    ensures r.segment.index[k].baseLSN == r.segment.trailer.baseLSN + Begin(r.cuts, k)
    ensures Last(r.segment.index[k]) == r.segment.trailer.baseLSN + Begin(r.cuts, k + 1) - 1
    ensures r.segment.index[k].minTS == r.Records()[Begin(r.cuts, k)].timestamp && r.segment.index[k].maxTS == r.Records()[Begin(r.cuts, k+1)-1].timestamp
  {
    hide AllSealed, IndexOk, RunOf, Lawful, Placed, Concat;
    IndexSize(r);
    EntryFacts(r.st, r.cuts, r.segment.blocks, r.segment.index, Concat(r.cuts), r.segment.trailer.baseLSN, k);
  }

  lemma TrailerRange(r: Reader)
    requires r.Valid()
    ensures |r.Records()| > 0 && r.segment.trailer.lastLSN == r.segment.trailer.baseLSN + |r.Records()| - 1 && |r.segment.index| > 0
    ensures r.segment.trailer.minTS == r.Records()[0].timestamp && r.segment.trailer.maxTS == r.Records()[|r.Records()|-1].timestamp
  {
    hide Reader.Valid, Concat;
    IndexSize(r);
    EntryRange(r, 0);
    EntryRange(r, |r.cuts| - 1);
    TrailerEnds(r);
    BeginEnd(r.cuts);
    assert r.cuts[..0] == [];
    NoCuts(r.cuts);
  }

  lemma TrailerEnds(r: Reader)
    requires r.Valid()
    ensures var t, x := r.segment.trailer, r.segment.index;
            x != [] && t.lastLSN == Last(x[|x|-1]) && t.minTS == x[0].minTS && t.maxTS == x[|x|-1].maxTS
  {
    hide AllSealed, RunOf, Lawful, Placed, Concat, ValidEntry;
  }

  method Scan(r: Reader, fromLSN: nat) returns (s: Scanner)
    requires r.Valid()
    ensures fresh(s) && s.Valid() && s.r == r && s.block == null && s.At() == Position(r.segment.trailer.baseLSN, |r.Records()|, fromLSN)
  {
    hide Reader.Valid, Concat, Begin, Flat.LowerBound;
    TrailerRange(r);
    if fromLSN > r.segment.trailer.lastLSN {
      s := new Scanner(r, None, fromLSN);
      return;
    }
    var from := if fromLSN < r.segment.trailer.baseLSN then r.segment.trailer.baseLSN else fromLSN;
    var keys := seq(|r.segment.index|, i requires 0 <= i < |r.segment.index| => Last(r.segment.index[i]));
    LastsAscend(r, keys);
    var k := Flat.Search(keys, from);
    BlockFrom(r, keys, from, k);
    s := new Scanner(r, Some(k), from);
  }

  lemma LastsAscend(r: Reader, keys: seq<int>)
    requires r.Valid() && |keys| == |r.segment.index| && forall i :: 0 <= i < |keys| ==> keys[i] == Last(r.segment.index[i])
    ensures Flat.Ascending(keys)
  {
    hide Concat, AllSealed, Placed, RunOf, Lawful;
    forall i, j | 0 <= i < j < |keys| ensures keys[i] <= keys[j] { EntriesOrder(r.segment.index, r.segment.trailer, i, j); }
  }

  /** The block the search finds is the one that holds the LSN. */
  lemma BlockFrom(r: Reader, keys: seq<int>, from: nat, k: nat)
    requires r.Valid() && |keys| == |r.segment.index| && (forall i :: 0 <= i < |keys| ==> keys[i] == Last(r.segment.index[i]))
    requires r.segment.trailer.baseLSN <= from <= r.segment.trailer.lastLSN && k == Flat.LowerBound(keys, from) && Flat.Ascending(keys)
    ensures k < |r.cuts| && Begin(r.cuts, k) <= from - r.segment.trailer.baseLSN < Begin(r.cuts, k + 1) <= |r.Records()|
  {
    hide Reader.Valid, Concat, Flat.LowerBound;
    IndexSize(r);
    Indexed(r, from, k);
    EntryRange(r, k);
  }

  lemma Indexed(r: Reader, from: nat, k: nat)
    requires r.Valid() && r.segment.trailer.baseLSN <= from <= r.segment.trailer.lastLSN && k <= |r.segment.index|
    requires (forall i :: 0 <= i < k ==> Last(r.segment.index[i]) < from) && (k < |r.segment.index| ==> from <= Last(r.segment.index[k]))
    ensures k < |r.segment.index| && r.segment.index[k].baseLSN <= from <= Last(r.segment.index[k])
  {
    hide Concat;
    BlockOfLSN(r.segment.index, r.segment.trailer, from, k);
  }

  /** Reads up to `limit` records from an LSN: exactly that run of the segment's records. */
  method Read(r: Reader, fromLSN: nat, limit: int) returns (out: seq<Record>)
    requires r.Valid()
    ensures out == Slice(r.Records(), Position(r.segment.trailer.baseLSN, |r.Records()|, fromLSN), limit)
  {
    hide Reader.Valid, Concat, BlockOf, ReadSoFar;
    var s := Scan(r, fromLSN);
    out := [];
    ghost var k := s.At();
    while limit <= 0 || |out| < limit
      invariant fresh(s) && s.Valid() && s.r == r && (s.block != null ==> fresh(s.block)) && s.At() == k + |out| <= |r.Records()|
      invariant out == r.Records()[k..k+|out|] && (limit > 0 ==> |out| <= limit)
      decreases |r.Records()| - |out|
    {
      var x := s.Next();
      if x.None? { break; }
      out := out + [x.value];
    }
  }

  /** Whether a position is the first one at or after a timestamp. */
  ghost predicate FirstAtOrAfter(rs: seq<Record>, ts: int, i: nat) {
    i < |rs| && rs[i].timestamp >= ts && forall j :: 0 <= j < i ==> rs[j].timestamp < ts
  }

  lemma Sorted(r: Reader, i: nat, j: nat)
    requires r.Valid() && i <= j < |r.Records()|
    ensures r.Records()[i].timestamp <= r.Records()[j].timestamp
  {
    hide Concat, Holds, Lawful, RunOf;
    RunOrder(Concat(r.cuts), r.segment.trailer.baseLSN, i, j);
  }

  /** All records before a block are older than a timestamp that the block before it does not reach. */
  lemma OlderBefore(r: Reader, k: nat, ts: int)
    requires r.Valid() && k < |r.segment.index| && (k > 0 ==> r.segment.index[k-1].maxTS < ts)
    ensures k < |r.cuts| && Begin(r.cuts, k) <= |r.Records()| && forall j :: 0 <= j < Begin(r.cuts, k) ==> r.Records()[j].timestamp < ts
  {
    hide Reader.Valid, Concat, Begin;
    IndexSize(r);
    EntryRange(r, k);
    if k > 0 {
      EntryRange(r, k - 1);
      forall j | 0 <= j < Begin(r.cuts, k) ensures r.Records()[j].timestamp < ts { Sorted(r, j, Begin(r.cuts, k) - 1); }
    } else {
      BeginZero(r.cuts);
    }
  }

  lemma BeginZero(cuts: seq<seq<Record>>)
    ensures Begin(cuts, 0) == 0
  {
    assert cuts[..0] == [];
    NoCuts(cuts);
  }

  /** The first match of a block is the first match of the segment when nothing before the block matches. */
  lemma FirstOverall(r: Reader, k: nat, ts: int, i: nat)
    requires r.Valid() && k < |r.cuts| && FirstAtOrAfter(r.cuts[k], ts, i) && (forall j :: 0 <= j < Begin(r.cuts, k) <= |r.Records()| ==> r.Records()[j].timestamp < ts)
    ensures FirstAtOrAfter(r.Records(), ts, Begin(r.cuts, k) + i) && r.cuts[k][i].lsn == r.segment.trailer.baseLSN + Begin(r.cuts, k) + i
  {
    hide Reader.Valid, Concat, Begin;
    BeginFacts(r.cuts, k);
    WantedLSN(r, Begin(r.cuts, k) + i);
    var b := Begin(r.cuts, k);
    forall j | 0 <= j < b + i ensures r.Records()[j].timestamp < ts { if j >= b { assert r.Records()[b + (j - b)] == r.cuts[k][j - b]; } }
  }

  /** The LSN of the first record at or after a timestamp, if there is one. */
  method FindLSNByTimestamp(r: Reader, ts: int) returns (lsn: Option<nat>)
    requires r.Valid()
    ensures lsn.None? ==> forall i :: 0 <= i < |r.Records()| ==> r.Records()[i].timestamp < ts
    ensures lsn.Some? ==> lsn.value >= r.segment.trailer.baseLSN && FirstAtOrAfter(r.Records(), ts, lsn.value - r.segment.trailer.baseLSN)
  {
    hide Reader.Valid, Concat, Begin, Flat.LowerBound, OpenBlock, BlockOf, ReadSoFar, Envelope;
    TrailerRange(r);
    if ts > r.segment.trailer.maxTS {
      forall i | 0 <= i < |r.Records()| ensures r.Records()[i].timestamp < ts { Sorted(r, i, |r.Records()| - 1); }
      return None;
    }
    if ts <= r.segment.trailer.minTS { return Some(r.segment.trailer.baseLSN); }
    var keys := seq(|r.segment.index|, i requires 0 <= i < |r.segment.index| => r.segment.index[i].maxTS);
    MaximaAscend(r, keys);
    var k := Flat.Search(keys, ts);
    TrailerEnds(r);
    assert k < |r.segment.index|;
    var e := r.segment.index[k];
    EntryRange(r, k);
    assert k > 0 ==> keys[k-1] < ts;
    OlderBefore(r, k, ts);
    if ts <= e.minTS {
      assert FirstAtOrAfter(r.Records(), ts, Begin(r.cuts, k));
      return Some(e.baseLSN);
    }
    OpenReader(r, k);
    var (raw, p) := OpenBlock(r.st, r.segment, r.maxBlock, k).value;
    var scanner := new RawBlockScanner(raw, p);
    BeginFacts(r.cuts, k);
    lsn := FirstInBlock(scanner, r.cuts[k], ts);
    ghost var i :| 0 <= i < |r.cuts[k]| && lsn.value == r.cuts[k][i].lsn && FirstAtOrAfter(r.cuts[k], ts, i);
    FirstOverall(r, k, ts, i);
  }

  lemma MaximaAscend(r: Reader, keys: seq<int>)
    requires r.Valid() && |keys| == |r.segment.index| && forall i :: 0 <= i < |keys| ==> keys[i] == r.segment.index[i].maxTS
    ensures Flat.Ascending(keys)
  {
    hide Concat, AllSealed, Placed, RunOf, Lawful;
    forall i, j | 0 <= i < j < |keys| ensures keys[i] <= keys[j] {
      EntriesOrder(r.segment.index, r.segment.trailer, i, j);
      ValidSpan(r.segment.index[j]);
    }
  }

  /** Scans one block for the first record at or after a timestamp its last record reaches. */
  method FirstInBlock(s: RawBlockScanner, ghost rs: seq<Record>, ts: int) returns (lsn: Option<nat>)
    requires s.Valid() && s.read == [] && BlockOf(s.raw, s.block, rs) && rs != [] && rs[|rs|-1].timestamp >= ts
    modifies s
    ensures lsn.Some? && exists i :: 0 <= i < |rs| && lsn.value == rs[i].lsn && FirstAtOrAfter(rs, ts, i)
  {
    hide BlockOf, ReadSoFar, Envelope;
    while true
      invariant s.Valid() && |s.read| <= |rs| && rs[..|s.read|] == s.read
      invariant forall j :: 0 <= j < |s.read| ==> rs[j].timestamp < ts
      decreases s.block.recordCount - s.index
    {
      ghost var n := |s.read|;
      var x := s.Next();
      assert x.Fine?;
      ReadPrefix(s.raw, s.block, s.read, s.offset, rs);
      if x.value.None? { BlockUnique(s.raw, s.block, s.read, rs); }
      assert x.value.Some?;
      assert rs[n] == x.value.value;
      if x.value.value.timestamp >= ts { return Some(x.value.value.lsn); }
    }
  }

  // ---- Writing and reading back ----

  /** What reading back gives: the run from the LSN, and the LSN of the first record at or after the timestamp, if any. */
  ghost predicate ReadsBack(records: seq<Record>, fromLSN: nat, limit: int, ts: int, run: seq<Record>, first: Option<nat>) {
    && records != [] && run == Slice(records, Position(records[0].lsn, |records|, fromLSN), limit)
    && (first.None? ==> forall i :: 0 <= i < |records| ==> records[i].timestamp < ts)
    && (first.Some? ==> first.value >= records[0].lsn && FirstAtOrAfter(records, ts, first.value - records[0].lsn))
  }

  /** Any accepted records, cut at any block size and sealed in any order, read back exactly, from any LSN and with any
      limit; and a timestamp finds its first record. */
  method WriteThenRead(st: Storage, target: nat, records: seq<Record>, seals: seq<nat>, order: seq<nat>, fromLSN: nat, limit: int, ts: int)
    returns (r: Res<(seq<Record>, Option<nat>)>)
    requires Lawful(st)
    ensures r.Fine? ==> ReadsBack(records, fromLSN, limit, ts, r.value.0, r.value.1)
    ensures records != [] && RunOf(records, records[0].lsn) && |records| <= MAX_BLOCKS && Compact(st) ==> r.Fine?
  {
    hide Pipeline, Accepted, Concat, Holds, Acceptable, Summarizes, SummaryAfter, Lawful, RunOf, Compact, ReadsBack;
    var w := new Writer(st, target);
    var i := 0;
    while i < |records|
      invariant 0 <= i <= |records| && w.Valid() && fresh(w) && w.st == st && !w.aborted && !w.closed && w.log.records == records[..i]
    {
      if RunOf(records, records[0].lsn) && |records| <= MAX_BLOCKS { RunAccepted(w.active, w.sum, w.log, records, records[0].lsn); }
      var ok := w.Append(records[i]);
      if ok.Bad? { return Bad(ok.error); }
      if i < |seals| && seals[i] in w.queued {
        w.SealOne(seals[i]);
        if w.aborted { return Bad(InvalidSegment); }
      }
      i := i + 1;
    }
    assert records[..i] == records;
    AcceptedFacts(w.active, w.sum, w.log);
    var s :- w.Close(order);
    r := ReadBack(st, s, w.log.cuts, records, w.active, w.sum, w.log, fromLSN, limit, ts);
  }

  method ReadBack(st: Storage, s: Segment, ghost cuts: seq<seq<Record>>, ghost records: seq<Record>, ghost active: Buffer, ghost sum: Summary, ghost log: Log,
                  fromLSN: nat, limit: int, ts: int) returns (r: Res<(seq<Record>, Option<nat>)>)
    requires Lawful(st) && Holds(st, s, cuts) && Concat(cuts) == records && log.records == records && Accepted(active, sum, log) && Summarizes(s.trailer, sum)
    ensures r.Fine? && ReadsBack(records, fromLSN, limit, ts, r.value.0, r.value.1)
  {
    hide Concat, Holds, Lawful, Accepted, Reader.Valid, RunOf;
    HoldsSome(st, s, cuts);
    RunOfAll(active, sum, log);
    var reader := new Reader(st, s, BLOCK_BOUND, cuts);
    TrailerRange(reader);
    WantedLSN(reader, 0);
    var out := Read(reader, fromLSN, limit);
    var first := FindLSNByTimestamp(reader, ts);
    return Fine((out, first));
  }

  lemma RunOfAll(active: Buffer, sum: Summary, log: Log)
    requires Accepted(active, sum, log) && log.records != []
    ensures RunOf(log.records, sum.baseLSN)
  {
  }

  lemma HoldsSome(st: Storage, s: Segment, cuts: seq<seq<Record>>)
    requires Holds(st, s, cuts)
    ensures Concat(cuts) != []
  {
    ConcatLast(cuts);
    StoredBound(st, s.blocks[|cuts|-1], cuts[|cuts|-1]);
  }
}
