/** Writing one segment: records are cut into blocks, sealed out of order by parallel workers and emitted in order. */
module SegmentWriter {
  import opened CatalogTypes
  import opened RawBlock
  import opened SegmentIndex

  // ---- Blocks ----

  /** How a block's bytes are stored: a codec that decodes what it encodes, and a hash. */
  datatype Storage = Storage(encode: seq<Byte> -> seq<Byte>, decode: seq<Byte> -> Option<seq<Byte>>, hash: seq<Byte> -> U64)

  ghost predicate Lawful(st: Storage) { forall raw :: st.decode(st.encode(raw)) == Some(raw) }

  datatype Block = Block(preamble: BlockPreamble, stored: seq<Byte>)

  /** A block being filled. */
  datatype Buffer = Buffer(raw: seq<Byte>, base: U64, count: U32, minTS: I64, maxTS: I64)

  const EmptyBuffer: Buffer := Buffer([], 0, 0, 0, 0)

  /** Consecutive records with timestamps in order, each within its limits. */
  ghost predicate RunOf(rs: seq<Record>, base: nat) {
    && (forall i :: 0 <= i < |rs| ==> rs[i].lsn == base + i && ValidRecord(Strip(rs[i])))
    && (forall i, j :: 0 <= i < |rs| && i < j < |rs| && j == i + 1 ==> rs[i].timestamp <= rs[j].timestamp)
    && base + |rs| <= MAX_RECORD_LSN + 1
  }

  /** The records of one block. */
  ghost predicate Cut(rs: seq<Record>) {
    rs != [] && RunOf(rs, rs[0].lsn) && |RecordsBytes(Stripped(rs))| <= MAX_RAW_BLOCK && |rs| <= MAX_U32
  }

  ghost predicate BufferOf(b: Buffer, rs: seq<Record>) {
    && b.raw == RecordsBytes(Stripped(rs)) && b.count == |rs|
    && (rs != [] ==> Cut(rs) && b.base == rs[0].lsn && b.minTS == rs[0].timestamp && b.maxTS == rs[|rs|-1].timestamp)
  }

  /** A block that stores exactly these records. */
  ghost predicate SealedOf(st: Storage, b: Block, rs: seq<Record>) {
    var raw := RecordsBytes(Stripped(rs));
    && Cut(rs) && b.stored == st.encode(raw) && 0 < |b.stored| <= MAX_STORED_BLOCK && ValidPreamble(b.preamble)
    && b.preamble == BlockPreamble(0, |b.stored|, |raw|, |rs|, rs[0].lsn, rs[0].timestamp, rs[|rs|-1].timestamp, st.hash(b.stored))
  }

  function SealBlock(st: Storage, b: Buffer): Res<Block> {
    if |b.raw| == 0 || |b.raw| > MAX_RAW_BLOCK || b.count == 0 || b.base > MAX_RECORD_LSN - (b.count - 1)
       || b.count > |b.raw| / RECORD_HEADER || b.maxTS < b.minTS then Bad(InvalidSegment)
    else
      var stored := st.encode(b.raw);
      if |stored| > MAX_STORED_BLOCK then Bad(BlockTooLarge)
      else
        var p := BlockPreamble(0, |stored|, |b.raw|, b.count, b.base, b.minTS, b.maxTS, st.hash(stored));
        if !ValidPreamble(p) then Bad(InvalidSegment) else Fine(Block(p, stored))
  }

  /** A record takes at least its fixed header. */
  lemma {:induction false} RecordsAtLeast(rs: seq<RawRecord>)
    ensures |RecordsBytes(rs)| >= RECORD_HEADER * |rs|
  {
    hide RecordBytes;
    if rs != [] {
      RecordLength(rs[0]);
      RecordsAtLeast(rs[1..]);
    }
  }

  lemma {:induction false} RunOrder(rs: seq<Record>, base: nat, i: nat, j: nat)
    requires RunOf(rs, base) && i <= j < |rs|
    ensures rs[i].timestamp <= rs[j].timestamp
    decreases j
  {
    hide ValidRecord;
    if i < j {
      RunOrder(rs, base, i, j - 1);
      assert rs[j-1].timestamp <= rs[j].timestamp;
    }
  }

  /** Sealing a filled buffer fails only if the codec yields nothing or too much. */
  lemma SealGood(st: Storage, b: Buffer, rs: seq<Record>)
    requires BufferOf(b, rs) && rs != []
    ensures SealBlock(st, b).Fine? ==> SealedOf(st, SealBlock(st, b).value, rs)
    ensures 0 < |st.encode(b.raw)| <= MAX_STORED_BLOCK ==> SealBlock(st, b).Fine?
  {
    hide RecordsBytes, ValidRecord;
    RecordsAtLeast(Stripped(rs));
    RunOrder(rs, rs[0].lsn, 0, |rs| - 1);
    assert |rs| <= |b.raw| / RECORD_HEADER;
  }

  /** Opening a sealed block gives back exactly its records. */
  lemma SealedDecodes(st: Storage, b: Block, rs: seq<Record>)
    requires Lawful(st) && SealedOf(st, b, rs)
    ensures st.hash(b.stored) == b.preamble.hash && st.decode(b.stored).Some? && BlockOf(st.decode(b.stored).value, b.preamble, rs)
  {
    hide RecordsBytes, ValidRecord;
    var s := Stripped(rs);
    forall i | 0 <= i < |s| ensures b.preamble.minTS <= s[i].timestamp <= b.preamble.maxTS {
      RunOrder(rs, rs[0].lsn, 0, i);
      RunOrder(rs, rs[0].lsn, i, |rs| - 1);
    }
    CutEncodable(rs);
    EncodedDecodes(s, b.preamble);
    StampedBack(rs);
  }

  lemma CutEncodable(rs: seq<Record>)
    requires Cut(rs)
    ensures Encodable(Stripped(rs))
  {
    hide RecordsBytes, ValidRecord;
    var s := Stripped(rs);
    forall i, j | 0 <= i < |s| && i < j < |s| && j == i + 1 ensures s[i].timestamp <= s[j].timestamp { assert rs[i].timestamp <= rs[j].timestamp; }
    forall i | 0 <= i < |s| ensures ValidRecord(s[i]) { assert ValidRecord(Strip(rs[i])); }
  }

  lemma StampedBack(rs: seq<Record>)
    requires rs != [] && RunOf(rs, rs[0].lsn)
    ensures Stamped(Stripped(rs), rs[0].lsn) == rs
  {
    hide ValidRecord;
    var x := Stamped(Stripped(rs), rs[0].lsn);
    forall i | 0 <= i < |rs| ensures x[i] == rs[i] { assert Stripped(rs)[i] == Strip(rs[i]); }
  }

  // ---- The blocks of a segment ----

  function Concat(cuts: seq<seq<Record>>): seq<Record> {
    if cuts == [] then [] else Concat(cuts[..|cuts|-1]) + cuts[|cuts|-1]
  }

  lemma {:induction false} ConcatAtLeast(cuts: seq<seq<Record>>)
    requires forall k :: 0 <= k < |cuts| ==> cuts[k] != []
    ensures |Concat(cuts)| >= |cuts|
  {
    if cuts != [] { ConcatAtLeast(cuts[..|cuts|-1]); }
  }

  lemma ConcatSnoc(cuts: seq<seq<Record>>, c: seq<Record>)
    ensures Concat(cuts + [c]) == Concat(cuts) + c
  {
    assert (cuts + [c])[..|cuts|] == cuts;
  }

  function EntryFor(offset: nat, p: BlockPreamble): Entry
    requires offset <= MAX_U64
  {
    Entry(offset, p.storedSize, p.rawSize, p.recordCount, p.baseLSN, p.minTS, p.maxTS, p.hash)
  }

  /** Block k lies at its index entry's offset, right behind block k - 1. */
  ghost predicate Placed(blocks: seq<Block>, index: seq<Entry>) {
    && |index| == |blocks|
    && (forall k :: 0 <= k < |index| ==> index[k] == EntryFor(index[k].offset, blocks[k].preamble))
    && (index != [] ==> index[0].offset == FILE_PREAMBLE)
    && (forall i, j :: 0 <= i < |index| && i < j < |index| && j == i + 1 ==> index[j].offset == After(index[i]))
  }

  function End(index: seq<Entry>): nat { if index == [] then FILE_PREAMBLE else After(index[|index|-1]) }

  ghost predicate AllSealed(st: Storage, blocks: seq<Block>, cuts: seq<seq<Record>>) {
    |blocks| <= |cuts| && forall k :: 0 <= k < |blocks| ==> SealedOf(st, blocks[k], cuts[k])
  }

  const BLOCK_BOUND: nat := BLOCK_PREAMBLE + MAX_STORED_BLOCK

  lemma {:induction false} EndBound(st: Storage, blocks: seq<Block>, index: seq<Entry>, cuts: seq<seq<Record>>)
    requires Placed(blocks, index) && AllSealed(st, blocks, cuts)
    ensures FILE_PREAMBLE <= End(index) <= FILE_PREAMBLE + BLOCK_BOUND * |blocks|
  {
    hide SealedOf, Placed, AllSealed;
    PlacedSize(blocks, index);
    if index != [] {
      var n := |index| - 1;
      PlacedFront(st, blocks, index, cuts, n);
      EndBound(st, blocks[..n], index[..n], cuts);
    }
  }

  lemma PlacedSize(blocks: seq<Block>, index: seq<Entry>)
    requires Placed(blocks, index)
    ensures |blocks| == |index|
  {
  }

  /** All blocks but the last are placed too, and the last one starts where they end. */
  lemma PlacedFront(st: Storage, blocks: seq<Block>, index: seq<Entry>, cuts: seq<seq<Record>>, n: nat)
    requires Placed(blocks, index) && AllSealed(st, blocks, cuts) && |index| == n + 1
    ensures Placed(blocks[..n], index[..n]) && AllSealed(st, blocks[..n], cuts)
    ensures End(index) == End(index[..n]) + BLOCK_PREAMBLE + |blocks[n].stored| && |blocks[n].stored| <= MAX_STORED_BLOCK
  {
    hide SealedOf;
    var bs, xs := blocks[..n], index[..n];
    forall k | 0 <= k < |xs| ensures xs[k] == EntryFor(xs[k].offset, bs[k].preamble) { assert xs[k] == index[k] && bs[k] == blocks[k]; }
    forall i, j | 0 <= i < |xs| && i < j < |xs| && j == i + 1 ensures xs[j].offset == After(xs[i]) { assert index[j].offset == After(index[i]); }
    assert SealedOf(st, blocks[n], cuts[n]);
    StoredBound(st, blocks[n], cuts[n]);
    if n > 0 { assert index[n].offset == After(index[n-1]); }
    assert index[n] == EntryFor(index[n].offset, blocks[n].preamble);
  }

  lemma StoredBound(st: Storage, b: Block, rs: seq<Record>)
    requires SealedOf(st, b, rs)
    ensures |b.stored| == b.preamble.storedSize <= MAX_STORED_BLOCK && b.preamble.recordCount == |rs| && b.preamble.baseLSN == rs[0].lsn
    ensures rs != [] && b.preamble.minTS == rs[0].timestamp && b.preamble.maxTS == rs[|rs|-1].timestamp
  {
  }

  // ---- The pipeline between cutting and emitting ----

  /** The emitter: the number of the next block to write, what is written, and sealed blocks waiting for their turn. */
  datatype Emitter = Emitter(next: nat, blocks: seq<Block>, index: seq<Entry>, offset: nat, pending: map<nat, Block>)

  /** Blocks are numbered when cut. Those below the emitter's next one are written in order; each of the others is either
      still with a seal worker or sealed and waiting for its turn. */
  ghost predicate Pipeline(st: Storage, cuts: seq<seq<Record>>, out: Emitter, queued: map<nat, Buffer>) {
    && |out.blocks| == out.next <= |cuts| && Placed(out.blocks, out.index) && AllSealed(st, out.blocks, cuts) && out.offset == End(out.index)
    && (forall k :: 0 <= k < |cuts| ==> Cut(cuts[k]))
    && (forall k :: k in queued ==> out.next <= k < |cuts| && k !in out.pending && BufferOf(queued[k], cuts[k]))
    && (forall k :: k in out.pending ==> out.next <= k < |cuts| && SealedOf(st, out.pending[k], cuts[k]))
    && (forall k :: out.next <= k < |cuts| ==> k in queued || k in out.pending)
  }

  lemma Enqueued(st: Storage, cuts: seq<seq<Record>>, out: Emitter, queued: map<nat, Buffer>, b: Buffer, rs: seq<Record>)
    requires Pipeline(st, cuts, out, queued) && BufferOf(b, rs) && rs != []
    ensures Pipeline(st, cuts + [rs], out, queued[|cuts| := b])
  {
    hide BufferOf, SealedOf, Placed, End;
    CutOf(b, rs);
    var all := cuts + [rs];
    forall k | 0 <= k < |cuts| ensures all[k] == cuts[k] {}
  }

  lemma CutOf(b: Buffer, rs: seq<Record>)
    requires BufferOf(b, rs) && rs != []
    ensures Cut(rs)
  {
  }

  lemma SealedOne(st: Storage, cuts: seq<seq<Record>>, out: Emitter, queued: map<nat, Buffer>, k: nat, b: Block)
    requires Pipeline(st, cuts, out, queued) && k in queued && SealBlock(st, queued[k]) == Fine(b)
    ensures Pipeline(st, cuts, out.(pending := out.pending[k := b]), queued - {k})
  {
    hide BufferOf, SealedOf, Placed, SealBlock, End;
    SealGood(st, queued[k], cuts[k]);
  }

  lemma PlacedNext(blocks: seq<Block>, index: seq<Entry>, b: Block)
    requires Placed(blocks, index) && End(index) <= MAX_U64
    ensures Placed(blocks + [b], index + [EntryFor(End(index), b.preamble)])
  {
    var xs, bs := index + [EntryFor(End(index), b.preamble)], blocks + [b];
    forall k | 0 <= k < |xs| ensures xs[k] == EntryFor(xs[k].offset, bs[k].preamble) { if k < |index| { assert xs[k] == index[k] && bs[k] == blocks[k]; } }
    forall i, j | 0 <= i < |xs| && i < j < |xs| && j == i + 1 ensures xs[j].offset == After(xs[i]) {
      assert xs[i] == index[i];
      if j < |index| { assert index[j].offset == After(index[i]); }
    }
  }

  lemma SealedNext(st: Storage, blocks: seq<Block>, cuts: seq<seq<Record>>, b: Block)
    requires AllSealed(st, blocks, cuts) && |blocks| < |cuts| && SealedOf(st, b, cuts[|blocks|])
    ensures AllSealed(st, blocks + [b], cuts)
  {
    hide SealedOf;
  }

  lemma EndFits(st: Storage, blocks: seq<Block>, index: seq<Entry>, cuts: seq<seq<Record>>)
    requires Placed(blocks, index) && AllSealed(st, blocks, cuts) && (forall k :: 0 <= k < |cuts| ==> Cut(cuts[k])) && |Concat(cuts)| <= MAX_U32
    ensures End(index) + 0x100_0000_0000 <= MAX_U64
  {
    hide SealedOf, Placed, RunOf, RecordsBytes;
    EndBound(st, blocks, index, cuts);
    ConcatAtLeast(cuts);
  }

  function EmitNext(out: Emitter): Emitter
    requires out.next in out.pending && out.offset <= MAX_U64
  {
    var b := out.pending[out.next];
    Emitter(out.next + 1, out.blocks + [b], out.index + [EntryFor(out.offset, b.preamble)], out.offset + BLOCK_PREAMBLE + b.preamble.storedSize,
            out.pending - {out.next})
  }

  lemma EmittedOne(st: Storage, cuts: seq<seq<Record>>, out: Emitter, queued: map<nat, Buffer>)
    requires Pipeline(st, cuts, out, queued) && out.next in out.pending && |Concat(cuts)| <= MAX_U32
    ensures out.offset <= MAX_U64 && Pipeline(st, cuts, EmitNext(out), queued)
  {
    hide BufferOf, SealedOf, Placed, AllSealed, Cut, Concat;
    EndFits(st, out.blocks, out.index, cuts);
    PlacedNext(out.blocks, out.index, out.pending[out.next]);
    SealedNext(st, out.blocks, cuts, out.pending[out.next]);
  }

  lemma Fewer(m: map<nat, Block>, k: nat)
    requires k in m
    ensures |m - {k}| < |m|
  {
    assert (m - {k}).Keys == m.Keys - {k};
    assert |m| == |m.Keys| && |m - {k}| == |(m - {k}).Keys|;
  }

  /** The emitter's loop: writes sealed blocks as long as the next one in order is there. */
  method Emit(ghost st: Storage, ghost cuts: seq<seq<Record>>, out: Emitter, ghost queued: map<nat, Buffer>) returns (r: Emitter)
    requires Pipeline(st, cuts, out, queued) && |Concat(cuts)| <= MAX_U32
    ensures Pipeline(st, cuts, r, queued) && r.next !in r.pending
  {
    hide Pipeline, Concat, EntryFor;
    r := out;
    while r.next in r.pending
      invariant Pipeline(st, cuts, r, queued)
      decreases |r.pending|
    {
      EmittedOne(st, cuts, r, queued);
      Fewer(r.pending, r.next);
      r := EmitNext(r);
    }
  }

  /** A finished segment: its blocks, index and trailer. */
  datatype Segment = Segment(blocks: seq<Block>, index: seq<Entry>, trailer: Trailer)

  /** The segment holds exactly these blocks of records, and its index agrees with its trailer. */
  ghost predicate Holds(st: Storage, s: Segment, cuts: seq<seq<Record>>) {
    && |s.blocks| == |cuts| && Placed(s.blocks, s.index) && AllSealed(st, s.blocks, cuts) && IndexOk(s.index, s.trailer)
    && s.trailer.totalSize == s.trailer.indexOffset + s.trailer.indexLength + TRAILER
    && s.trailer.indexLength == INDEX_PREAMBLE + INDEX_ENTRY * |s.blocks|
  }

  /** The running summary of the accepted records. */
  datatype Summary = Summary(baseLSN: U64, nextLSN: nat, count: nat, minTS: I64, maxTS: I64)

  /** All accepted records, the blocks they were cut into and the records of the block being filled. */
  datatype Log = Log(cuts: seq<seq<Record>>, tail: seq<Record>, records: seq<Record>)

  ghost predicate Accepted(active: Buffer, sum: Summary, log: Log) {
    && BufferOf(active, log.tail) && log.records == Concat(log.cuts) + log.tail && |log.records| == sum.count <= MAX_U32
    && (log.records != [] ==> RunOf(log.records, sum.baseLSN) && sum.nextLSN == sum.baseLSN + sum.count
                              && sum.minTS == log.records[0].timestamp && sum.maxTS == log.records[sum.count-1].timestamp)
  }

  function BufferAfter(b: Buffer, r: Record): Buffer
    requires b.count < MAX_U32 && r.lsn <= MAX_U64
  {
    Buffer(b.raw + RecordBytes(Strip(r)), if b.count == 0 then r.lsn else b.base, b.count + 1, if b.count == 0 then r.timestamp else b.minTS, r.timestamp)
  }

  function SummaryAfter(s: Summary, r: Record): Summary
    requires r.lsn <= MAX_U64
  {
    Summary(if s.count == 0 then r.lsn else s.baseLSN, r.lsn + 1, s.count + 1, if s.count == 0 then r.timestamp else s.minTS, r.timestamp)
  }

  /** A record there is no reason to refuse. */
  ghost predicate Acceptable(sum: Summary, r: Record) {
    ValidRecord(Strip(r)) && r.lsn <= MAX_RECORD_LSN && sum.count < MAX_U32 && (sum.count > 0 ==> r.lsn == sum.nextLSN && r.timestamp >= sum.maxTS)
  }

  lemma AcceptedNext(active: Buffer, sum: Summary, log: Log, r: Record)
    requires Accepted(active, sum, log) && Acceptable(sum, r) && |active.raw| + |RecordBytes(Strip(r))| <= MAX_RAW_BLOCK
    ensures active.count < MAX_U32
    ensures Accepted(BufferAfter(active, r), SummaryAfter(sum, r), Log(log.cuts, log.tail + [r], log.records + [r]))
  {
    hide RunOf, RecordsBytes, RecordBytes, Concat, ValidRecord, BufferOf;
    BufferEmpty(active, log.tail);
    assert log.tail == log.records[|log.records|-|log.tail|..];
    BufferNext(active, log.tail, r, log.records, sum.baseLSN);
    RunNext(log.records, sum.baseLSN, r);
    assert (Concat(log.cuts) + log.tail) + [r] == Concat(log.cuts) + (log.tail + [r]);
  }

  lemma AcceptedFacts(active: Buffer, sum: Summary, log: Log)
    requires Accepted(active, sum, log)
    ensures BufferOf(active, log.tail) && |log.records| == sum.count <= MAX_U32 && |Concat(log.cuts)| <= MAX_U32
    ensures (|active.raw| == 0 <==> log.tail == []) && |active.raw| <= MAX_RAW_BLOCK
    ensures sum.count > 0 ==> sum.nextLSN == sum.baseLSN + sum.count <= MAX_RECORD_LSN + 1
  {
    hide RecordsBytes, Concat, Cut, BufferOf, ValidRecord;
    BufferEmpty(active, log.tail);
  }

  lemma AcceptedCut(active: Buffer, sum: Summary, log: Log)
    requires Accepted(active, sum, log)
    ensures Accepted(EmptyBuffer, sum, Log(log.cuts + [log.tail], [], log.records))
  {
    hide RunOf, RecordsBytes, Concat, Cut;
    ConcatSnoc(log.cuts, log.tail);
    NoRecords();
    assert Stripped([]) == [];
    assert Concat(log.cuts) + log.tail == (Concat(log.cuts) + log.tail) + [];
  }

  // ---- The writer ----

  class Writer {
    const st: Storage
    const target: nat
    var active: Buffer
    var sum: Summary
    var queued: map<nat, Buffer>
    var nextSeq: nat
    var out: Emitter
    var aborted: bool
    var closed: bool
    ghost var log: Log

    /** All accepted records are in the cut blocks or the active one, and the cut blocks are all in the pipeline. */
    ghost predicate Valid()
      reads this
    {
      !aborted ==> |log.cuts| == nextSeq && Accepted(active, sum, log) && Pipeline(st, log.cuts, out, queued) && out.next !in out.pending
    }

    constructor (st: Storage, target: nat)
      ensures Valid() && this.st == st && log == Log([], [], []) && sum.count == 0 && !aborted && !closed
    {
      this.st := st;
      this.target := if target == 0 then 0x10_0000 else if target > MAX_RAW_BLOCK then MAX_RAW_BLOCK else target;
      active, sum, queued, nextSeq := EmptyBuffer, Summary(0, 0, 0, 0, 0), map[], 0;
      out := Emitter(0, [], [], FILE_PREAMBLE, map[]);
      aborted, closed, log := false, false, Log([], [], []);
      new;
      assert Stripped([]) == [];
      NoRecords();
    }

    predicate CanAppend(size: nat, limit: nat)
      reads this
    {
      0 < size <= MAX_RAW_BLOCK && |active.raw| + size <= MAX_RAW_BLOCK && (|active.raw| == 0 || |active.raw| + size <= limit)
    }

    /** Hands the active block to the seal workers. */
    method EnqueueActive()
      requires Valid() && !aborted && log.tail != []
      modifies this`active, this`queued, this`nextSeq, this`log
      ensures Valid() && log == Log(old(log).cuts + [old(log).tail], [], old(log).records) && active == EmptyBuffer
      ensures queued == old(queued)[old(nextSeq) := old(active)]
    {
      hide Pipeline, Accepted, BufferOf, Concat;
      AcceptedFacts(active, sum, log);
      Enqueued(st, log.cuts, out, queued, active, log.tail);
      AcceptedCut(active, sum, log);
      queued, nextSeq, active, log := queued[nextSeq := active], nextSeq + 1, EmptyBuffer, Log(log.cuts + [log.tail], [], log.records);
    }

    /** Adds one record to the block being filled, starting a new block when it would grow beyond the target. */
    method Append(r: Record) returns (ok: Res<bool>)
      requires Valid()
      modifies this`active, this`sum, this`queued, this`nextSeq, this`aborted, this`log
      ensures Valid() && (old(aborted) ==> aborted)
      ensures ok.Fine? ==> !aborted && log.records == old(log).records + [r] && sum == SummaryAfter(old(sum), r)
      ensures ok.Bad? ==> log == old(log)
      ensures ok.Fine? <==> !old(aborted) && !closed && Acceptable(old(sum), r)
    {
      hide Pipeline, Accepted, RecordBytes, ValidRecord, BufferOf, Concat;
      if closed || aborted { return Bad(InvalidSegment); }
      AcceptedFacts(active, sum, log);
      var size := RawRecordSize(Strip(r));
      if size.Bad? || r.lsn > MAX_RECORD_LSN || sum.count == MAX_U32
         || (sum.count > 0 && (sum.nextLSN > MAX_RECORD_LSN || r.lsn != sum.nextLSN || r.timestamp < sum.maxTS)) {
        aborted := true;
        return Bad(if size.Bad? then size.error else InvalidSegment);
      }
      SizeBound(Strip(r));
      if |active.raw| > 0 && !CanAppend(size.value, target) { EnqueueActive(); }
      AcceptedNext(active, sum, log, r);
      active, sum, log := BufferAfter(active, r), SummaryAfter(sum, r), Log(log.cuts, log.tail + [r], log.records + [r]);
      return Fine(true);
    }

    /** A seal worker finishes block k, whichever it is; the emitter then writes every block whose turn has come. */
    method SealOne(k: nat)
      requires Valid() && !aborted && k in queued
      modifies this`queued, this`out, this`aborted
      ensures Valid() && (!aborted ==> queued == old(queued) - {k})
      ensures Compact(st) ==> !aborted
    {
      hide Pipeline, Accepted, Concat, SealBlock;
      var b := SealBlock(st, queued[k]);
      if b.Bad? {
        SealWorks(st, log.cuts, out, queued, k);
        aborted := true;
        return;
      }
      AcceptedFacts(active, sum, log);
      SealedOne(st, log.cuts, out, queued, k, b.value);
      var next := Emit(st, log.cuts, out.(pending := out.pending[k := b.value]), queued - {k});
      queued, out := queued - {k}, next;
    }

    /** Seals what is left in any order and finishes the object with its index and trailer. */
    method Close(order: seq<nat>) returns (r: Res<Segment>)
      requires Valid()
      modifies this`active, this`queued, this`nextSeq, this`out, this`aborted, this`closed, this`log
      ensures Valid() && log.records == old(log).records
      ensures r.Fine? ==> !aborted && closed && Holds(st, r.value, log.cuts) && Concat(log.cuts) == log.records && Summarizes(r.value.trailer, sum)
      ensures r.Bad? && Compact(st) && !old(aborted) && !old(closed) && sum.count > 0 ==> r.error == BlockTooLarge && |log.records| > MAX_BLOCKS
    {
      hide Pipeline, Accepted, Concat, BufferOf, Holds, Compact;
      if closed || aborted || sum.count == 0 {
        aborted := true;
        return Bad(InvalidSegment);
      }
      AcceptedFacts(active, sum, log);
      if |active.raw| > 0 { EnqueueActive(); }
      var i := 0;
      while queued != map[]
        invariant Valid() && !aborted && log.tail == [] && log.records == old(log).records && 0 <= i
        decreases |queued|
      {
        NextQueued(st, log.cuts, out, queued);
        var k := if i < |order| && order[i] in queued then order[i] else out.next;
        FewerBuffers(queued, k);
        SealOne(k);
        if aborted { return Bad(InvalidSegment); }
        i := i + 1;
      }
      if |out.blocks| > MAX_BLOCKS {
        BlocksAtMost(st, out, queued, active, sum, log);
        aborted := true;
        return Bad(BlockTooLarge);
      }
      AllEmitted(st, log.cuts, out);
      var t := MakeTrailer(st, log.cuts, out, active, sum, log);
      closed := true;
      return Fine(Segment(out.blocks, out.index, t));
    }
  }

  /** The trailer repeats the summary of the records. */
  ghost predicate Summarizes(t: Trailer, s: Summary) {
    t.baseLSN == s.baseLSN && t.lastLSN == s.nextLSN - 1 && t.minTS == s.minTS && t.maxTS == s.maxTS && t.recordCount == s.count
  }

  method MakeTrailer(ghost st: Storage, ghost cuts: seq<seq<Record>>, out: Emitter, active: Buffer, sum: Summary, ghost log: Log) returns (t: Trailer)
    requires Accepted(active, sum, log) && log.tail == [] && log.cuts == cuts && sum.count > 0
    requires Pipeline(st, cuts, out, map[]) && out.next == |cuts| && |out.blocks| <= MAX_BLOCKS
    ensures Holds(st, Segment(out.blocks, out.index, t), cuts) && Concat(cuts) == log.records && Summarizes(t, sum)
  {
    hide Placed, AllSealed, BufferOf, Concat, RunOf;
    AcceptedFacts(active, sum, log);
    EndFits(st, out.blocks, out.index, cuts);
    assert Concat(cuts) + [] == Concat(cuts);
    var length := INDEX_PREAMBLE + INDEX_ENTRY * |out.blocks|;
    t := Trailer(sum.baseLSN, sum.nextLSN - 1, sum.minTS, sum.maxTS, sum.count, |out.blocks|, out.offset, length, out.offset + length + TRAILER);
    IndexAgrees(st, cuts, out.blocks, out.index, log.records, sum.baseLSN, t);
  }

  /** A block holds at least one record. */
  lemma BlocksAtMost(st: Storage, out: Emitter, queued: map<nat, Buffer>, active: Buffer, sum: Summary, log: Log)
    requires Accepted(active, sum, log) && Pipeline(st, log.cuts, out, queued)
    ensures |out.blocks| <= |log.records|
  {
    hide Placed, AllSealed, BufferOf, SealedOf, End, RunOf, RecordsBytes;
    ConcatAtLeast(log.cuts);
  }

  /** The next record of a run is acceptable. */
  lemma RunAccepted(active: Buffer, sum: Summary, log: Log, records: seq<Record>, base: nat)
    requires Accepted(active, sum, log) && RunOf(records, base) && |log.records| < |records| <= MAX_U32 && log.records == records[..|log.records|]
    ensures Acceptable(sum, records[|log.records|])
  {
    hide BufferOf, Concat, ValidRecord;
    var i := |log.records|;
    assert ValidRecord(Strip(records[i])) && records[i].lsn == base + i;
    if i > 0 {
      assert log.records[i-1] == records[i-1] && log.records[0] == records[0];
      assert log.records[0].lsn == sum.baseLSN && records[0].lsn == base;
      assert records[i-1].timestamp <= records[i].timestamp;
    }
  }

  lemma NextQueued(st: Storage, cuts: seq<seq<Record>>, out: Emitter, queued: map<nat, Buffer>)
    requires Pipeline(st, cuts, out, queued) && out.next !in out.pending && queued != map[]
    ensures out.next in queued
  {
    hide Placed, AllSealed, BufferOf, SealedOf, Cut, End;
    var k :| k in queued;
    assert out.next <= k < |cuts|;
  }

  lemma FewerBuffers(m: map<nat, Buffer>, k: nat)
    requires k in m
    ensures |m - {k}| < |m|
  {
    assert (m - {k}).Keys == m.Keys - {k};
    assert |m| == |m.Keys| && |m - {k}| == |(m - {k}).Keys|;
  }

  lemma AllEmitted(st: Storage, cuts: seq<seq<Record>>, out: Emitter)
    requires Pipeline(st, cuts, out, map[]) && out.next !in out.pending
    ensures out.next == |cuts|
  {
    hide Placed, AllSealed, BufferOf, SealedOf, Cut, End;
    var none: map<nat, Buffer> := map[];
    assert out.next < |cuts| ==> out.next in none || out.next in out.pending;
  }

  // ---- The index agrees with the records ----

  /** Block k starts behind all records of the blocks before it. */
  lemma {:induction false} CutAt(cuts: seq<seq<Record>>, k: nat)
    requires k < |cuts|
    ensures var off := |Concat(cuts[..k])|;
            off + |cuts[k]| <= |Concat(cuts)| && Concat(cuts)[off..off+|cuts[k]|] == cuts[k] && |Concat(cuts[..k+1])| == off + |cuts[k]|
  {
    hide Concat;
    ConcatLast(cuts[..k+1]);
    assert cuts[..k+1][..k] == cuts[..k];
    if k < |cuts| - 1 {
      var n := |cuts| - 1;
      CutAt(cuts[..n], k);
      ConcatLast(cuts);
      assert cuts[..n][..k] == cuts[..k];
    } else {
      ConcatLast(cuts);
      assert cuts[..k+1] == cuts;
    }
  }

  lemma ConcatLast(cuts: seq<seq<Record>>)
    requires cuts != []
    ensures Concat(cuts) == Concat(cuts[..|cuts|-1]) + cuts[|cuts|-1]
  {
  }

  /** What entry k says, in terms of all the records. */
  lemma EntryFacts(st: Storage, cuts: seq<seq<Record>>, blocks: seq<Block>, index: seq<Entry>, records: seq<Record>, base: nat, k: nat)
    requires Placed(blocks, index) && AllSealed(st, blocks, cuts) && |blocks| == |cuts| && Concat(cuts) == records && RunOf(records, base) && k < |cuts|
    ensures var a, e := |Concat(cuts[..k])|, index[k];
            && ValidEntry(e) && e.recordCount == |cuts[k]| && a + |cuts[k]| <= |records| && |cuts[k]| > 0 && e.baseLSN == base + a
            && e.minTS == records[a].timestamp && e.maxTS == records[a + |cuts[k]| - 1].timestamp
            && |Concat(cuts[..k+1])| == a + |cuts[k]|
  {
    hide RecordsBytes, ValidRecord, Concat;
    CutAt(cuts, k);
    var a := |Concat(cuts[..k])|;
    var c := cuts[k];
    assert SealedOf(st, blocks[k], c);
    assert c[0] == records[a] && c[|c|-1] == records[a + |c| - 1];
    assert index[k] == EntryFor(index[k].offset, blocks[k].preamble);
  }

  lemma {:induction false} IndexRecords(st: Storage, cuts: seq<seq<Record>>, blocks: seq<Block>, index: seq<Entry>, n: nat)
    requires Placed(blocks, index) && AllSealed(st, blocks, cuts) && |blocks| == |cuts| && n <= |cuts|
    ensures Records(index[..n]) == |Concat(cuts[..n])|
  {
    hide SealedOf;
    if n > 0 {
      IndexRecords(st, cuts, blocks, index, n - 1);
      assert index[..n][..n-1] == index[..n-1] && cuts[..n][..n-1] == cuts[..n-1];
      assert index[n-1] == EntryFor(index[n-1].offset, blocks[n-1].preamble);
      StoredBound(st, blocks[n-1], cuts[n-1]);
    }
  }

  lemma IndexAgrees(st: Storage, cuts: seq<seq<Record>>, blocks: seq<Block>, index: seq<Entry>, records: seq<Record>, base: nat, t: Trailer)
    requires Placed(blocks, index) && AllSealed(st, blocks, cuts) && |blocks| == |cuts| && Concat(cuts) == records && RunOf(records, base) && records != []
    requires t.baseLSN == base && t.lastLSN == base + |records| - 1 && t.minTS == records[0].timestamp && t.maxTS == records[|records|-1].timestamp
    requires t.recordCount == |records| && t.blockCount == |blocks| && t.indexOffset == End(index)
    ensures IndexOk(index, t)
  {
    hide RunOf, SealedOf, Concat, ValidEntry, AllSealed;
    var n := |cuts|;
    NoCuts(cuts);
    assert cuts[..n] == cuts && index[..n] == index;
    IndexRecords(st, cuts, blocks, index, n);
    forall k | 0 <= k < n ensures ValidEntry(index[k]) { EntryFacts(st, cuts, blocks, index, records, base, k); }
    forall i, j | 0 <= i < n && i < j < n && j == i + 1 ensures Abuts(index[i], index[j]) {
      EntryFacts(st, cuts, blocks, index, records, base, i);
      EntryFacts(st, cuts, blocks, index, records, base, j);
      RunOrder(records, base, |Concat(cuts[..j])| - 1, |Concat(cuts[..j])|);
    }
    EntryFacts(st, cuts, blocks, index, records, base, 0);
    assert cuts[..0] == [];
    EntryFacts(st, cuts, blocks, index, records, base, n - 1);
  }

  lemma NoCuts(cuts: seq<seq<Record>>)
    ensures cuts == [] ==> Concat(cuts) == []
    ensures Concat([]) == []
  {
  }

  /** A codec that never turns a block into nothing or into more than a stored block may have. */
  ghost predicate Compact(st: Storage) {
    forall raw :: 0 < |raw| <= MAX_RAW_BLOCK ==> 0 < |st.encode(raw)| <= MAX_STORED_BLOCK
  }

  lemma SealWorks(st: Storage, cuts: seq<seq<Record>>, out: Emitter, queued: map<nat, Buffer>, k: nat)
    requires Pipeline(st, cuts, out, queued) && k in queued
    ensures Compact(st) ==> SealBlock(st, queued[k]).Fine?
  {
    hide RecordsBytes, SealBlock, RunOf, SealedOf, Placed, End;
    SealGood(st, queued[k], cuts[k]);
    BufferEmpty(queued[k], cuts[k]);
  }

  lemma SizeBound(r: RawRecord)
    requires ValidRecord(r)
    ensures 0 < |RecordBytes(r)| <= MAX_RAW_BLOCK
  {
    hide RecordBytes, HeaderBytes;
    RecordLength(r);
  }

  lemma BufferEmpty(b: Buffer, rs: seq<Record>)
    requires BufferOf(b, rs)
    ensures |b.raw| == 0 <==> rs == []
    ensures b.count == |rs| && |b.raw| <= MAX_RAW_BLOCK
  {
    hide RecordsBytes, ValidRecord;
    RecordsAtLeast(Stripped(rs));
    if rs == [] { NoRecords(); assert Stripped(rs) == []; }
  }

  /** A record that continues a run makes a longer run. */
  lemma RunNext(rs: seq<Record>, base: nat, r: Record)
    requires (rs != [] ==> RunOf(rs, base) && r.lsn == base + |rs| && rs[|rs|-1].timestamp <= r.timestamp) && ValidRecord(Strip(r)) && r.lsn <= MAX_RECORD_LSN
    ensures RunOf(rs + [r], if rs == [] then r.lsn else base)
  {
    hide ValidRecord;
    var x := rs + [r];
    forall i | 0 <= i < |x| ensures x[i].lsn == (if rs == [] then r.lsn else base) + i && ValidRecord(Strip(x[i])) { if i < |rs| { assert x[i] == rs[i]; } }
    forall i, j | 0 <= i < |x| && i < j < |x| && j == i + 1 ensures x[i].timestamp <= x[j].timestamp {
      assert x[i] == rs[i];
      if j < |rs| { assert x[j] == rs[j]; }
    }
  }

  lemma BufferNext(b: Buffer, rs: seq<Record>, r: Record, records: seq<Record>, base: nat)
    requires BufferOf(b, rs) && |b.raw| + |RecordBytes(Strip(r))| <= MAX_RAW_BLOCK && ValidRecord(Strip(r)) && r.lsn <= MAX_RECORD_LSN
    requires |rs| <= |records| && rs == records[|records|-|rs|..] && |records| < MAX_U32
    requires records != [] ==> RunOf(records, base) && r.lsn == base + |records| && records[|records|-1].timestamp <= r.timestamp
    ensures BufferOf(Buffer(b.raw + RecordBytes(Strip(r)), if b.count == 0 then r.lsn else b.base, b.count + 1,
                            if b.count == 0 then r.timestamp else b.minTS, r.timestamp), rs + [r])
  {
    hide RecordBytes, RecordsBytes, RunOf, ValidRecord;
    assert Stripped(rs + [r]) == Stripped(rs) + [Strip(r)];
    RecordsConcat(Stripped(rs), [Strip(r)]);
    RecordsOne(Strip(r));
    if rs != [] {
      SuffixRun(records, base, |records| - |rs|);
      RunNext(rs, rs[0].lsn, r);
      LastLSN(rs);
    } else {
      RunNext([], 0, r);
      assert [] + [r] == [r];
    }
  }

  lemma SuffixRun(rs: seq<Record>, base: nat, k: nat)
    requires RunOf(rs, base) && k < |rs|
    ensures RunOf(rs[k..], base + k) && rs[k].lsn == base + k
  {
    hide ValidRecord;
    var t := rs[k..];
    forall i | 0 <= i < |t| ensures t[i].lsn == base + k + i && ValidRecord(Strip(t[i])) { assert t[i] == rs[k+i]; }
    forall i, j | 0 <= i < |t| && i < j < |t| && j == i + 1 ensures t[i].timestamp <= t[j].timestamp { assert t[i] == rs[k+i] && t[j] == rs[k+j]; }
  }

  lemma LastLSN(rs: seq<Record>)
    requires rs != [] && RunOf(rs, rs[0].lsn)
    ensures rs[|rs|-1].lsn == rs[0].lsn + |rs| - 1
  {
  }
}
