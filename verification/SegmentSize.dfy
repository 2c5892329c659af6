/** The size of a finished segment object, and why the writer's in-flight estimate covers it. */
module SegmentSize {
  import opened CatalogTypes
  import opened RawBlock
  import opened SegmentIndex
  import opened SegmentWriter
  import W = WriterPipeline

  function StoredBytes(blocks: seq<Block>): nat {
    if blocks == [] then 0 else StoredBytes(blocks[..|blocks|-1]) + |blocks[|blocks|-1].stored|
  }

  /** The blocks end where the preambles and stored bytes of all of them add up to. */
  lemma {:induction false} EndSum(st: Storage, blocks: seq<Block>, index: seq<Entry>, cuts: seq<seq<Record>>)
    requires Placed(blocks, index) && AllSealed(st, blocks, cuts)
    ensures End(index) == FILE_PREAMBLE + BLOCK_PREAMBLE * |blocks| + StoredBytes(blocks)
  {
    hide SealedOf, Placed, AllSealed, End;
    PlacedSize(blocks, index);
    if blocks != [] {
      var n := |blocks| - 1;
      PlacedFront(st, blocks, index, cuts, n);
      EndSum(st, blocks[..n], index[..n], cuts);
    } else {
      EndEmpty();
    }
  }

  lemma EndEmpty()
    ensures End([]) == FILE_PREAMBLE
  {
  }

  lemma Stored(st: Storage, b: Block, rs: seq<Record>)
    requires SealedOf(st, b, rs)
    ensures |b.stored| == b.preamble.storedSize && b.stored == st.encode(RecordsBytes(Stripped(rs))) && rs != []
  {
  }

  /** Without compression the stored bytes of all blocks are the bytes of all records. */
  lemma {:induction false} StoredIsRaw(st: Storage, blocks: seq<Block>, cuts: seq<seq<Record>>, n: nat)
    requires AllSealed(st, blocks, cuts) && |blocks| == |cuts| && n <= |cuts| && forall raw :: st.encode(raw) == raw
    ensures StoredBytes(blocks[..n]) == |RecordsBytes(Stripped(Concat(cuts[..n])))| && n <= |Concat(cuts[..n])|
  {
    hide SealedOf, RecordsBytes;
    if n == 0 {
      assert cuts[..0] == [] && blocks[..0] == [];
      assert Stripped([]) == [];
      NoRecords();
    } else {
      StoredIsRaw(st, blocks, cuts, n - 1);
      Stored(st, blocks[n-1], cuts[n-1]);
      assert blocks[..n][..n-1] == blocks[..n-1] && cuts[..n][..n-1] == cuts[..n-1];
      var a, b := Concat(cuts[..n-1]), cuts[n-1];
      assert Concat(cuts[..n]) == a + b;
      assert Stripped(a + b) == Stripped(a) + Stripped(b);
      RecordsConcat(Stripped(a), Stripped(b));
    }
  }

  /** The estimate a writer reserves for a segment covers the object it becomes. */
  lemma EstimateCoversObject(st: Storage, s: Segment, cuts: seq<seq<Record>>)
    requires Holds(st, s, cuts) && |Concat(cuts)| <= MAX_U32 && forall raw :: st.encode(raw) == raw
    ensures var raw := |RecordsBytes(Stripped(Concat(cuts)))|;
            && s.trailer.totalSize == W.ObjectSize(raw, |s.blocks|) && 0 < |s.blocks| <= |Concat(cuts)| && raw <= MAX_U64
            && s.trailer.totalSize <= W.Estimate(raw, |Concat(cuts)|, W.Uncompressed)
  {
    hide SealedOf, RecordsBytes, AllSealed, Concat, W.Estimate;
    var n := |cuts|;
    EndSum(st, s.blocks, s.index, cuts);
    StoredIsRaw(st, s.blocks, cuts, n);
    assert cuts[..n] == cuts && s.blocks[..n] == s.blocks;
    W.EstimateCovers(|RecordsBytes(Stripped(Concat(cuts)))|, |Concat(cuts)|, |s.blocks|);
  }
}
