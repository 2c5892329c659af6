/** The meaning of a catalog tree: the run of segments it stands for. */
module CatalogFlat {
  import opened CatalogTypes

  /** Valid segments with consecutive LSN ranges and nondecreasing timestamps. */
  ghost predicate Run(f: seq<LeafEntry>) {
    && (forall i :: 0 <= i < |f| ==> ValidLeaf(f[i]))
    && (forall i, j :: 0 <= i < j < |f| && j == i + 1 ==> Follows(f[i], f[j]))
  }

  ghost predicate EpochsOrdered(f: seq<LeafEntry>) {
    forall i, j :: 0 <= i < j < |f| ==> f[i].writerEpoch <= f[j].writerEpoch
  }

  ghost predicate EpochsAtMost(f: seq<LeafEntry>, e: nat) {
    forall i :: 0 <= i < |f| ==> f[i].writerEpoch <= e
  }

  ghost predicate RefsTile(rs: seq<IndexEntry>) {
    forall i, j :: 0 <= i < j < |rs| && j == i + 1 ==> RefFollows(rs[i], rs[j])
  }

  function FlatRef(r: IndexEntry): seq<LeafEntry>
    decreases r, 1
  {
    match r.id.page
    case LeafPage(_, es) => es
    case IndexPage(_, rs) => FlatRefs(rs)
  }

  function FlatRefs(rs: seq<IndexEntry>): seq<LeafEntry>
    decreases rs, 0
  {
    if rs == [] then [] else FlatRef(rs[0]) + FlatRefs(rs[1..])
  }

  function Flat(h: Head): seq<LeafEntry> { FlatRefs(SectionRefs(h.sections)) + h.active }

  /** Every load below r passes its checks: pages parse, match their references,
      and carry epochs that never increase on the way down. */
  ghost predicate Good(c: Config, r: IndexEntry, maxEpoch: nat)
    decreases r
  {
    var p := r.id.page;
    && ValidRef(r) && ValidPage(p) && MatchesRef(c, p.header, r) && p.header.writerEpoch <= maxEpoch
    && (p.IndexPage? ==> forall i :: 0 <= i < |p.refs| ==> Good(c, p.refs[i], p.header.writerEpoch))
  }

  ghost predicate AllGood(c: Config, rs: seq<IndexEntry>, maxEpoch: nat) {
    forall i :: 0 <= i < |rs| ==> Good(c, rs[i], maxEpoch)
  }

  lemma GoodLater(c: Config, r: IndexEntry, e: nat, e': nat)
    requires Good(c, r, e) && e <= e'
    ensures Good(c, r, e')
  {
  }

  // ---- Runs ----

  lemma RunConcat(a: seq<LeafEntry>, b: seq<LeafEntry>)
    requires Run(a) && Run(b)
    requires a != [] && b != [] ==> Follows(a[|a|-1], b[0])
    ensures Run(a + b)
  {
    var f := a + b;
    forall i, j | 0 <= i < j < |f| && j == i + 1
      ensures Follows(f[i], f[j])
    {
      if j < |a| {
        assert f[i] == a[i] && f[j] == a[j];
      } else if i >= |a| {
        assert f[i] == b[i - |a|] && f[j] == b[j - |a|];
      } else {
        assert f[i] == a[|a|-1] && f[j] == b[0];
      }
    }
  }

  lemma RunParts(a: seq<LeafEntry>, b: seq<LeafEntry>)
    requires Run(a + b)
    ensures Run(a) && Run(b)
    ensures a != [] && b != [] ==> Follows(a[|a|-1], b[0])
  {
    var f := a + b;
    forall i, j | 0 <= i < j < |a| && j == i + 1
      ensures Follows(a[i], a[j])
    {
      assert a[i] == f[i] && a[j] == f[j];
    }
    forall i, j | 0 <= i < j < |b| && j == i + 1
      ensures Follows(b[i], b[j])
    {
      assert b[i] == f[i + |a|] && b[j] == f[j + |a|];
    }
    forall i | 0 <= i < |a| ensures ValidLeaf(a[i]) { assert a[i] == f[i]; }
    forall i | 0 <= i < |b| ensures ValidLeaf(b[i]) { assert b[i] == f[i + |a|]; }
    if a != [] && b != [] {
      assert f[|a|-1] == a[|a|-1] && f[|a|] == b[0];
    }
  }

  lemma RunOrder(f: seq<LeafEntry>, i: nat, j: nat)
    requires Run(f) && i < j < |f|
    ensures f[i].lastLSN < f[j].baseLSN && f[i].maxTS <= f[j].minTS
    ensures f[j].baseLSN - f[i].lastLSN >= j - i
    decreases j
  {
    assert Follows(f[j-1], f[j]);
    if i < j - 1 {
      RunOrder(f, i, j - 1);
    }
  }

  /** A run is no longer than the LSN span it covers. */
  lemma RunSpan(f: seq<LeafEntry>)
    requires Run(f) && f != []
    ensures |f| <= f[|f|-1].lastLSN - f[0].baseLSN + 1
    ensures f[0].minTS <= f[|f|-1].maxTS
  {
    if |f| > 1 {
      RunOrder(f, 0, |f| - 1);
    }
  }

  lemma EpochsConcat(a: seq<LeafEntry>, e: LeafEntry)
    requires EpochsOrdered(a) && EpochsAtMost(a, e.writerEpoch)
    ensures EpochsOrdered(a + [e])
  {
  }

  // ---- Flattening ----

  lemma FlatRefsConcat(a: seq<IndexEntry>, b: seq<IndexEntry>)
    ensures FlatRefs(a + b) == FlatRefs(a) + FlatRefs(b)
  {
    if a == [] {
      assert a + b == b;
    } else {
      var first, rest := FlatRef(a[0]), FlatRefs(a[1..]);
      assert (a + b)[1..] == a[1..] + b && (a + b)[0] == a[0];
      FlatRefsConcat(a[1..], b);
      assert first + (rest + FlatRefs(b)) == (first + rest) + FlatRefs(b);
    }
  }

  lemma FlatRefsOne(r: IndexEntry)
    ensures FlatRefs([r]) == FlatRef(r)
  {
    assert [r][1..] == [];
  }

  lemma SumCountsConcat(a: seq<IndexEntry>, b: seq<IndexEntry>)
    ensures SumCounts(a + b) == SumCounts(a) + SumCounts(b)
  {
    if a == [] {
      assert a + b == b;
    } else {
      assert (a + b)[1..] == a[1..] + b;
      SumCountsConcat(a[1..], b);
    }
  }

  /** What an index entry says about its subtree is true of the segments below it. */
  ghost predicate Describes(r: IndexEntry, f: seq<LeafEntry>) {
    && Run(f) && f != []
    && f[0].baseLSN == r.seqLo && f[|f|-1].lastLSN == r.seqHi
    && f[0].minTS == r.minTS && f[|f|-1].maxTS == r.maxTS
    && |f| == r.segmentCount
  }

  ghost predicate DescribesAll(rs: seq<IndexEntry>, f: seq<LeafEntry>) {
    && Run(f) && |f| == SumCounts(rs)
    && (rs == [] ==> f == [])
    && (rs != [] ==>
      && f != [] && f[0].baseLSN == rs[0].seqLo && f[|f|-1].lastLSN == rs[|rs|-1].seqHi
      && f[0].minTS == rs[0].minTS && f[|f|-1].maxTS == rs[|rs|-1].maxTS)
  }

  lemma {:induction false} GoodDescribes(c: Config, r: IndexEntry, e: nat)
    requires Good(c, r, e)
    ensures Describes(r, FlatRef(r))
    decreases r, 1
  {
    match r.id.page
    case LeafPage(h, es) =>
    case IndexPage(h, rs) =>
      TileDescribes(c, rs, h.writerEpoch);
  }

  lemma {:induction false} TileDescribes(c: Config, rs: seq<IndexEntry>, e: nat)
    requires AllGood(c, rs, e) && RefsTile(rs)
    ensures DescribesAll(rs, FlatRefs(rs))
    decreases rs, 0
  {
    if rs != [] {
      var tail := rs[1..];
      GoodDescribes(c, rs[0], e);
      assert RefsTile(tail) by {
        forall i, j | 0 <= i < j < |tail| && j == i + 1 ensures RefFollows(tail[i], tail[j]) {
          assert RefFollows(rs[i+1], rs[j+1]);
        }
      }
      TileDescribes(c, tail, e);
      if tail != [] {
        assert RefFollows(rs[0], rs[1]);
      }
      RunConcat(FlatRef(rs[0]), FlatRefs(tail));
    }
  }

  /** The converse: entries over one run of segments tile its LSN range. */
  lemma {:induction false} RunTiles(c: Config, rs: seq<IndexEntry>, e: nat)
    requires AllGood(c, rs, e) && Run(FlatRefs(rs))
    ensures RefsTile(rs) && DescribesAll(rs, FlatRefs(rs))
  {
    if rs != [] {
      var tail := rs[1..];
      GoodDescribes(c, rs[0], e);
      RunParts(FlatRef(rs[0]), FlatRefs(tail));
      RunTiles(c, tail, e);
      if tail != [] {
        assert FlatRefs(tail) != [];
        assert RefFollows(rs[0], rs[1]);
      }
      forall i, j | 0 <= i < j < |rs| && j == i + 1
        ensures RefFollows(rs[i], rs[j])
      {
        if i > 0 {
          assert rs[i] == tail[i-1] && rs[j] == tail[j-1];
        }
      }
    }
  }
}
