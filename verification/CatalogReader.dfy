/** Lookups that descend the tree, against the same lookups on the flattened run. */
module CatalogReader {
  import opened CatalogTypes
  import opened CatalogFlat
  import opened CatalogTree

  // ---- Search ----

  /** The least index whose key is at least x, or the length. */
  function LowerBound(keys: seq<int>, x: int): (r: nat)
    ensures r <= |keys| && (forall i :: 0 <= i < r ==> keys[i] < x) && (r < |keys| ==> keys[r] >= x)
  {
    if keys == [] || keys[0] >= x then 0 else 1 + LowerBound(keys[1..], x)
  }

  ghost predicate Ascending(keys: seq<int>) {
    forall i, j :: 0 <= i < j < |keys| ==> keys[i] <= keys[j]
  }

  /** Binary search finds the least index on ascending keys. */
  method Search(keys: seq<int>, x: int) returns (r: nat)
    requires Ascending(keys)
    ensures r == LowerBound(keys, x)
  {
    var i, j := 0, |keys|;
    while i < j
      invariant 0 <= i <= j <= |keys|
      invariant i <= LowerBound(keys, x) <= j
    {
      var h := (i + j) / 2;
      if keys[h] < x {
        i := h + 1;
      } else {
        j := h;
      }
    }
    return i;
  }

  // ---- Keys ----

  /** Segments are looked up by last LSN or by largest timestamp; both ascend along a run. */
  datatype Order = ByLSN | ByTime

  function LeafKey(o: Order, e: LeafEntry): int { if o.ByLSN? then e.lastLSN else e.maxTS }
  function RefKey(o: Order, r: IndexEntry): int { if o.ByLSN? then r.seqHi else r.maxTS }
  function RootKey(o: Order, r: Root): int { if o.ByLSN? then r.Hi() else r.MaxTS() }

  function LeafKeys(o: Order, es: seq<LeafEntry>): (ks: seq<int>)
    ensures |ks| == |es| && forall i :: 0 <= i < |es| ==> ks[i] == LeafKey(o, es[i])
  { seq(|es|, i requires 0 <= i < |es| => LeafKey(o, es[i])) }

  function RefKeys(o: Order, rs: seq<IndexEntry>): (ks: seq<int>)
    ensures |ks| == |rs| && forall i :: 0 <= i < |rs| ==> ks[i] == RefKey(o, rs[i])
  { seq(|rs|, i requires 0 <= i < |rs| => RefKey(o, rs[i])) }

  function RootKeys(o: Order, rs: seq<Root>): (ks: seq<int>)
    ensures |ks| == |rs| && forall i :: 0 <= i < |rs| ==> ks[i] == RootKey(o, rs[i])
  { seq(|rs|, i requires 0 <= i < |rs| => RootKey(o, rs[i])) }

  lemma LeafKeysAscend(o: Order, es: seq<LeafEntry>)
    requires Run(es)
    ensures Ascending(LeafKeys(o, es))
  {
    forall i, j | 0 <= i < j < |es| ensures LeafKey(o, es[i]) <= LeafKey(o, es[j]) { RunOrder(es, i, j); }
  }

  lemma RootKeysAscend(o: Order, roots: seq<Root>)
    requires RootsTile(roots) && forall i :: 0 <= i < |roots| ==> roots[i].Lo() <= roots[i].Hi() && roots[i].MinTS() <= roots[i].MaxTS()
    ensures Ascending(RootKeys(o, roots))
  {
    forall i: nat, j: nat | i < j < |roots| ensures RootKey(o, roots[i]) <= RootKey(o, roots[j]) { RootKeysStep(o, roots, i, j); }
  }

  lemma {:induction false} RootKeysStep(o: Order, roots: seq<Root>, i: nat, j: nat)
    requires RootsTile(roots) && forall i :: 0 <= i < |roots| ==> roots[i].Lo() <= roots[i].Hi() && roots[i].MinTS() <= roots[i].MaxTS()
    requires i < j < |roots|
    ensures RootKey(o, roots[i]) <= RootKey(o, roots[j])
    decreases j
  {
    assert roots[j].Lo() == roots[j-1].Hi() + 1 && roots[j-1].MaxTS() <= roots[j].MinTS();
    if i < j - 1 {
      RootKeysStep(o, roots, i, j - 1);
    }
  }

  /** A binary search over the roots of a well-formed head finds the least index, by LSN and by timestamp. */
  lemma HeadSearchable(c: Config, h: Head, o: Order)
    requires WellFormed(c, h)
    ensures Ascending(RootKeys(o, Roots(h)))
  {
    hide SectionsGood, Run, EpochsOrdered, EpochsAtMost, Flat;
    RootsOfRun(c, h);
    RootRanges(c, h);
    RootKeysAscend(o, Roots(h));
  }

  lemma RootRanges(c: Config, h: Head)
    requires WellFormed(c, h)
    ensures forall i :: 0 <= i < |Roots(h)| ==> Roots(h)[i].Lo() <= Roots(h)[i].Hi() && Roots(h)[i].MinTS() <= Roots(h)[i].MaxTS()
  {
    hide SectionsGood, EpochsOrdered, EpochsAtMost, FlatRefs;
    var rs := SectionRefs(h.sections);
    SectionRefsGood(c, h.sections, h.writerEpoch, h.generation);
    RunParts(FlatRefs(rs), h.active);
    forall i | 0 <= i < |Roots(h)| ensures Roots(h)[i].Lo() <= Roots(h)[i].Hi() && Roots(h)[i].MinTS() <= Roots(h)[i].MaxTS() {
      if i < |rs| { assert Good(c, rs[i], h.writerEpoch); } else { assert ValidLeaf(h.active[i - |rs|]); }
    }
  }

  /** The same inside every page a load accepts. */
  lemma PageSearchable(p: Page, o: Order)
    requires ValidPage(p)
    ensures p.LeafPage? ==> Ascending(LeafKeys(o, p.leaves))
    ensures p.IndexPage? ==> Ascending(RefKeys(o, p.refs))
  {
    match p
    case LeafPage(h, es) => LeafKeysAscend(o, es);
    case IndexPage(h, rs) =>
      var roots := RefRoots(rs);
      RootKeysAscend(o, roots);
      assert RefKeys(o, rs) == RootKeys(o, roots);
  }

  // ---- The flat reference ----

  /** The segments whose key is at least x. */
  function Keep(o: Order, f: seq<LeafEntry>, x: int): seq<LeafEntry> {
    if f == [] then [] else (if LeafKey(o, f[0]) >= x then [f[0]] else []) + Keep(o, f[1..], x)
  }

  lemma {:induction false} KeepStep(o: Order, e: LeafEntry, f: seq<LeafEntry>, x: int)
    ensures Keep(o, [e] + f, x) == (if LeafKey(o, e) >= x then [e] else []) + Keep(o, f, x)
  {
    assert ([e] + f)[1..] == f;
  }

  lemma {:induction false} KeepConcat(o: Order, a: seq<LeafEntry>, b: seq<LeafEntry>, x: int)
    ensures Keep(o, a + b, x) == Keep(o, a, x) + Keep(o, b, x)
  {
    hide Keep;
    if a == [] {
      assert a + b == b;
      NoneKept(o, x);
    } else {
      var rest := a[1..];
      assert a == [a[0]] + rest && a + b == [a[0]] + (rest + b);
      KeepStep(o, a[0], rest, x);
      KeepStep(o, a[0], rest + b, x);
      KeepConcat(o, rest, b, x);
    }
  }

  lemma {:induction false} NoneKept(o: Order, x: int)
    ensures Keep(o, [], x) == []
  {
  }

  lemma {:induction false} KeepAll(o: Order, f: seq<LeafEntry>, x: int)
    requires forall i :: 0 <= i < |f| ==> LeafKey(o, f[i]) >= x
    ensures Keep(o, f, x) == f
  {
    if f != [] {
      KeepAll(o, f[1..], x);
    }
  }

  lemma {:induction false} KeepNone(o: Order, f: seq<LeafEntry>, x: int)
    requires forall i :: 0 <= i < |f| ==> LeafKey(o, f[i]) < x
    ensures Keep(o, f, x) == []
  {
    if f != [] {
      KeepNone(o, f[1..], x);
    }
  }

  /** On a run the kept segments are the suffix found by binary search. */
  lemma KeepSuffix(o: Order, f: seq<LeafEntry>, x: int)
    requires Run(f)
    ensures Keep(o, f, x) == f[LowerBound(LeafKeys(o, f), x)..]
  {
    var k := LowerBound(LeafKeys(o, f), x);
    LeafKeysAscend(o, f);
    assert f == f[..k] + f[k..];
    KeepConcat(o, f[..k], f[k..], x);
    forall i | 0 <= i < k ensures LeafKey(o, f[..k][i]) < x { assert LeafKeys(o, f)[i] < x; }
    KeepNone(o, f[..k], x);
    forall i | 0 <= i < |f[k..]| ensures LeafKey(o, f[k..][i]) >= x {
      assert LeafKeys(o, f)[k] >= x && LeafKeys(o, f)[k + i] == LeafKey(o, f[k + i]);
    }
    KeepAll(o, f[k..], x);
  }

  /** The segment holding lsn: the first whose last LSN reaches it, unless it starts later. */
  function FindFlat(f: seq<LeafEntry>, lsn: nat): Option<LeafEntry> {
    var k := Keep(ByLSN, f, lsn);
    if k == [] || k[0].baseLSN > lsn then None else Some(k[0])
  }

  /** The earliest segment with a record at or after ts. */
  function TimeFlat(f: seq<LeafEntry>, ts: int): Option<LeafEntry> {
    var k := Keep(ByTime, f, ts);
    if k == [] then None else Some(k[0])
  }

  /** What FindFlat means: membership of the LSN in a unique segment, both ways. */
  lemma FindFlatMeaning(f: seq<LeafEntry>, lsn: nat)
    requires Run(f)
    ensures FindFlat(f, lsn).Some? ==> FindFlat(f, lsn).value in f && FindFlat(f, lsn).value.baseLSN <= lsn <= FindFlat(f, lsn).value.lastLSN
    ensures forall i :: 0 <= i < |f| && f[i].baseLSN <= lsn <= f[i].lastLSN ==> FindFlat(f, lsn) == Some(f[i])
  {
    KeepSuffix(ByLSN, f, lsn);
    var k := LowerBound(LeafKeys(ByLSN, f), lsn);
    if k < |f| {
      assert Keep(ByLSN, f, lsn)[0] == f[k] && LeafKeys(ByLSN, f)[k] >= lsn;
    }
    forall i | 0 <= i < |f| && f[i].baseLSN <= lsn <= f[i].lastLSN
      ensures FindFlat(f, lsn) == Some(f[i])
    {
      if k < i { RunOrder(f, k, i); }
      assert k == i;
    }
  }

  // ---- Descending one list of references ----

  /** Dropping references that end too early drops exactly the segments that do. */
  lemma {:induction false} KeepRefs(c: Config, o: Order, rs: seq<IndexEntry>, e: nat, x: int)
    requires AllGood(c, rs, e) && RefsTile(rs)
    ensures var i := LowerBound(RefKeys(o, rs), x);
            if i == |rs| then Keep(o, FlatRefs(rs), x) == []
            else Keep(o, FlatRefs(rs), x) == Keep(o, FlatRef(rs[i]), x) + FlatRefs(rs[i+1..]) && Keep(o, FlatRef(rs[i]), x) != []
  {
    hide Good, ValidLeaf, Run, Keep, LowerBound, Describes, DescribesAll;
    if rs == [] {
      KeepNone(o, FlatRefs(rs), x);
    } else {
      var tail := rs[1..];
      TileTail(rs);
      KeepConcat(o, FlatRef(rs[0]), FlatRefs(tail), x);
      RefKeysTail(o, rs, x);
      KeepFirstRef(c, o, rs, e, x);
      if RefKey(o, rs[0]) < x {
        KeepRefs(c, o, tail, e, x);
        var i := LowerBound(RefKeys(o, tail), x);
        if i < |tail| {
          assert rs[i+1] == tail[i] && rs[i+2..] == tail[i+1..];
        }
      }
    }
  }

  lemma RefKeysTail(o: Order, rs: seq<IndexEntry>, x: int)
    requires rs != []
    ensures LowerBound(RefKeys(o, rs), x) == if RefKey(o, rs[0]) >= x then 0 else 1 + LowerBound(RefKeys(o, rs[1..]), x)
  {
    assert RefKeys(o, rs)[1..] == RefKeys(o, rs[1..]);
  }

  /** What the first reference's key decides about its own segments and about those after it. */
  lemma KeepFirstRef(c: Config, o: Order, rs: seq<IndexEntry>, e: nat, x: int)
    requires AllGood(c, rs, e) && RefsTile(rs) && rs != []
    ensures RefKey(o, rs[0]) < x ==> Keep(o, FlatRef(rs[0]), x) == []
    ensures RefKey(o, rs[0]) >= x ==> Keep(o, FlatRef(rs[0]), x) != [] && Keep(o, FlatRefs(rs[1..]), x) == FlatRefs(rs[1..])
  {
    hide Good, ValidLeaf, Run, Keep;
    TileDescribes(c, rs, e);
    GoodDescribes(c, rs[0], e);
    if RefKey(o, rs[0]) < x {
      KeepBelow(o, FlatRef(rs[0]), x);
    } else {
      KeepLast(o, FlatRef(rs[0]), x);
      KeepAfter(o, FlatRef(rs[0]), FlatRefs(rs[1..]), x);
    }
  }

  lemma TileTail(rs: seq<IndexEntry>)
    requires RefsTile(rs) && rs != []
    ensures RefsTile(rs[1..])
  {
    forall i, j | 0 <= i < j < |rs[1..]| && j == i + 1 ensures RefFollows(rs[1..][i], rs[1..][j]) {
      assert RefFollows(rs[i+1], rs[j+1]);
    }
  }

  lemma KeepBelow(o: Order, f: seq<LeafEntry>, x: int)
    requires Run(f) && f != [] && LeafKey(o, f[|f|-1]) < x
    ensures Keep(o, f, x) == []
  {
    LeafKeysAscend(o, f);
    forall i | 0 <= i < |f| ensures LeafKey(o, f[i]) < x {
      assert LeafKeys(o, f)[i] <= LeafKeys(o, f)[|f|-1];
    }
    KeepNone(o, f, x);
  }

  lemma KeepLast(o: Order, f: seq<LeafEntry>, x: int)
    requires f != [] && LeafKey(o, f[|f|-1]) >= x
    ensures Keep(o, f, x) != []
  {
    var n := |f| - 1;
    assert f == f[..n] + [f[n]];
    KeepConcat(o, f[..n], [f[n]], x);
  }

  lemma KeepAfter(o: Order, a: seq<LeafEntry>, b: seq<LeafEntry>, x: int)
    requires Run(a + b) && a != [] && LeafKey(o, a[|a|-1]) >= x
    ensures Keep(o, b, x) == b
  {
    LeafKeysAscend(o, a + b);
    forall i | 0 <= i < |b| ensures LeafKey(o, b[i]) >= x {
      assert LeafKeys(o, a + b)[|a| - 1] <= LeafKeys(o, a + b)[|a| + i];
    }
    KeepAll(o, b, x);
  }

  // ---- Page descent ----

  /** Every page under r is in the store under its key. */
  ghost predicate Stored(src: PageSource, r: IndexEntry)
    decreases r
  {
    && src(KeyOf(r)) == Some(r.id.page)
    && (r.id.page.IndexPage? ==> forall i :: 0 <= i < |r.id.page.refs| ==> Stored(src, r.id.page.refs[i]))
  }

  ghost predicate HeadStored(src: PageSource, h: Head) {
    forall i :: 0 <= i < |SectionRefs(h.sections)| ==> Stored(src, SectionRefs(h.sections)[i])
  }

  lemma LoadStored(c: Config, src: PageSource, r: IndexEntry, e: nat)
    requires Good(c, r, e) && Stored(src, r)
    ensures Load(c, src, r, e) == Ok(r.id.page)
  {
  }

  function FindInPage(c: Config, src: PageSource, r: IndexEntry, lsn: nat, maxEpoch: nat): Result<Option<LeafEntry>>
    decreases r.level
  {
    var p :- Load(c, src, r, maxEpoch);
    match p
    case LeafPage(_, es) =>
      var i := LowerBound(LeafKeys(ByLSN, es), lsn);
      if i == |es| || es[i].baseLSN > lsn then Ok(None) else Ok(Some(es[i]))
    case IndexPage(h, rs) =>
      var i := LowerBound(RefKeys(ByLSN, rs), lsn);
      if i == |rs| || rs[i].seqLo > lsn then Ok(None) else FindInPage(c, src, rs[i], lsn, h.writerEpoch)
  }

  function TimeInPage(c: Config, src: PageSource, r: IndexEntry, ts: int, maxEpoch: nat): Result<Option<LeafEntry>>
    decreases r.level
  {
    var p :- Load(c, src, r, maxEpoch);
    match p
    case LeafPage(_, es) =>
      var i := LowerBound(LeafKeys(ByTime, es), ts);
      if i == |es| then Ok(None) else Ok(Some(es[i]))
    case IndexPage(h, rs) =>
      var i := LowerBound(RefKeys(ByTime, rs), ts);
      if i == |rs| then Ok(None) else TimeInPage(c, src, rs[i], ts, h.writerEpoch)
  }

  /** Whatever the store answers, a descent that succeeds agrees with the flat search. */
  lemma {:induction false} FindInPageSound(c: Config, src: PageSource, r: IndexEntry, lsn: nat, maxEpoch: nat, e: nat)
    requires Good(c, r, e) && FindInPage(c, src, r, lsn, maxEpoch).Ok?
    ensures FindInPage(c, src, r, lsn, maxEpoch).value == FindFlat(FlatRef(r), lsn)
    decreases r
  {
    GoodDescribes(c, r, e);
    match r.id.page
    case LeafPage(h, es) =>
      KeepSuffix(ByLSN, es, lsn);
    case IndexPage(h, rs) =>
      KeepRefs(c, ByLSN, rs, h.writerEpoch, lsn);
      var i := LowerBound(RefKeys(ByLSN, rs), lsn);
      if i < |rs| {
        FirstKept(c, rs[i], h.writerEpoch, lsn);
        if rs[i].seqLo <= lsn {
          FindInPageSound(c, src, rs[i], lsn, h.writerEpoch, h.writerEpoch);
        }
      }
  }

  /** The first kept segment of a page starts no earlier than the page. */
  lemma FirstKept(c: Config, r: IndexEntry, e: nat, lsn: nat)
    requires Good(c, r, e)
    ensures Keep(ByLSN, FlatRef(r), lsn) != [] ==> Keep(ByLSN, FlatRef(r), lsn)[0].baseLSN >= r.seqLo
  {
    GoodDescribes(c, r, e);
    var f := FlatRef(r);
    KeepSuffix(ByLSN, f, lsn);
    var k := LowerBound(LeafKeys(ByLSN, f), lsn);
    if 0 < k < |f| {
      RunOrder(f, 0, k);
    }
  }

  lemma {:induction false} TimeInPageSound(c: Config, src: PageSource, r: IndexEntry, ts: int, maxEpoch: nat, e: nat)
    requires Good(c, r, e) && TimeInPage(c, src, r, ts, maxEpoch).Ok?
    ensures TimeInPage(c, src, r, ts, maxEpoch).value == TimeFlat(FlatRef(r), ts)
    decreases r
  {
    GoodDescribes(c, r, e);
    match r.id.page
    case LeafPage(h, es) =>
      KeepSuffix(ByTime, es, ts);
    case IndexPage(h, rs) =>
      KeepRefs(c, ByTime, rs, h.writerEpoch, ts);
      var i := LowerBound(RefKeys(ByTime, rs), ts);
      if i < |rs| {
        TimeInPageSound(c, src, rs[i], ts, h.writerEpoch, h.writerEpoch);
      }
  }

  lemma {:induction false} FindInPageComplete(c: Config, src: PageSource, r: IndexEntry, lsn: nat, e: nat)
    requires Good(c, r, e) && Stored(src, r)
    ensures FindInPage(c, src, r, lsn, e).Ok?
    decreases r
  {
    LoadStored(c, src, r, e);
    match r.id.page
    case LeafPage(_, _) =>
    case IndexPage(h, rs) =>
      var i := LowerBound(RefKeys(ByLSN, rs), lsn);
      if i < |rs| {
        FindInPageComplete(c, src, rs[i], lsn, h.writerEpoch);
      }
  }

  lemma {:induction false} TimeInPageComplete(c: Config, src: PageSource, r: IndexEntry, ts: int, e: nat)
    requires Good(c, r, e) && Stored(src, r)
    ensures TimeInPage(c, src, r, ts, e).Ok?
    decreases r
  {
    LoadStored(c, src, r, e);
    match r.id.page
    case LeafPage(_, _) =>
    case IndexPage(h, rs) =>
      var i := LowerBound(RefKeys(ByTime, rs), ts);
      if i < |rs| {
        TimeInPageComplete(c, src, rs[i], ts, h.writerEpoch);
      }
  }

  // ---- Head lookups ----

  function FindSegment(c: Config, src: PageSource, h: Head, lsn: nat): Result<Option<LeafEntry>> {
    if h.config != c then Err(Identity)
    else if h.last.None? || lsn < h.oldestLSN || lsn >= h.nextLSN then Ok(None)
    else
      var roots := Roots(h);
      var i := LowerBound(RootKeys(ByLSN, roots), lsn);
      if i == |roots| || roots[i].Lo() > lsn then Ok(None)
      else if roots[i].LeafRoot? then Ok(Some(roots[i].leaf))
      else FindInPage(c, src, roots[i].ref, lsn, h.writerEpoch)
  }

  function LookupTimestamp(c: Config, src: PageSource, h: Head, ts: int): Result<Option<LeafEntry>> {
    if h.config != c then Err(Identity)
    else if h.last.None? || h.oldestLSN == h.nextLSN || ts > h.last.value.maxTS then Ok(None)
    else
      var roots := Roots(h);
      var i := LowerBound(RootKeys(ByTime, roots), ts);
      if i == |roots| then Ok(None)
      else if roots[i].LeafRoot? then Ok(Some(roots[i].leaf))
      else TimeInPage(c, src, roots[i].ref, ts, h.writerEpoch)
  }

  lemma KeepMixed(c: Config, o: Order, rs: seq<IndexEntry>, es: seq<LeafEntry>, e: nat, x: int)
    requires AllGood(c, rs, e) && RefsTile(rs) && Run(FlatRefs(rs) + es)
    ensures var i := LowerBound(RefKeys(o, rs) + LeafKeys(o, es), x);
            var kept := Keep(o, FlatRefs(rs) + es, x);
            && (i < |rs| ==> kept != [] && Keep(o, FlatRef(rs[i]), x) != [] && kept[0] == Keep(o, FlatRef(rs[i]), x)[0])
            && (i >= |rs| ==> kept == es[i - |rs|..])
  {
    hide Good, ValidLeaf, Run, Keep, LowerBound, FlatRefs;
    RunParts(FlatRefs(rs), es);
    KeepRefs(c, o, rs, e, x);
    KeepConcat(o, FlatRefs(rs), es, x);
    KeepSuffix(o, es, x);
    LowerBoundConcat(RefKeys(o, rs), LeafKeys(o, es), x);
  }

  /** Where binary search over the roots leads: to the first kept segment or the page that holds it. */
  ghost predicate LeadsTo(o: Order, roots: seq<Root>, i: nat, kept: seq<LeafEntry>, x: int)
    requires i <= |roots|
  {
    if i == |roots| then kept == []
    else
      && kept != []
      && (roots[i].LeafRoot? ==> kept[0] == roots[i].leaf)
      && (roots[i].PageRoot? ==> Keep(o, FlatRef(roots[i].ref), x) != [] && kept[0] == Keep(o, FlatRef(roots[i].ref), x)[0])
  }

  lemma KeepRoots(c: Config, o: Order, h: Head, x: int)
    requires Shape(c, h) && Run(Flat(h))
    ensures LeadsTo(o, Roots(h), LowerBound(RootKeys(o, Roots(h)), x), Keep(o, Flat(h), x), x)
  {
    hide Good, ValidLeaf, Run, SectionsGood, FlatRefs, FlatRef, SectionRefs, LowerBound, Keep;
    var rs := SectionRefs(h.sections);
    SectionRefsGood(c, h.sections, h.writerEpoch, h.generation);
    RunParts(FlatRefs(rs), h.active);
    RunTiles(c, rs, h.writerEpoch);
    KeepMixed(c, o, rs, h.active, h.writerEpoch, x);
    KeysOfRoots(o, rs, h.active);
  }

  lemma KeysOfRoots(o: Order, rs: seq<IndexEntry>, es: seq<LeafEntry>)
    ensures RootKeys(o, RefRoots(rs) + LeafRoots(es)) == RefKeys(o, rs) + LeafKeys(o, es)
  {
  }

  lemma {:induction false} LowerBoundConcat(a: seq<int>, b: seq<int>, x: int)
    ensures LowerBound(a + b, x) == if LowerBound(a, x) < |a| then LowerBound(a, x) else |a| + LowerBound(b, x)
  {
    if a == [] {
      assert a + b == b;
    } else if a[0] < x {
      assert (a + b)[1..] == a[1..] + b;
      LowerBoundConcat(a[1..], b, x);
    }
  }

  /** FindSegment never disagrees with the flat search, for any answers of the store,
      and never fails while the head's pages are stored. */
  lemma FindSegmentRefines(c: Config, src: PageSource, h: Head, lsn: nat)
    requires WellFormed(c, h)
    ensures FindSegment(c, src, h, lsn).Ok? ==> FindSegment(c, src, h, lsn).value == FindFlat(Flat(h), lsn)
    ensures HeadStored(src, h) ==> FindSegment(c, src, h, lsn).Ok?
  {
    hide ValidLeaf, Run, EpochsOrdered, EpochsAtMost, SectionsGood, FlatRefs, SectionRefs, LowerBound, Stored, Keep, FindInPage, Roots;
    if h.last.None? || lsn < h.oldestLSN || lsn >= h.nextLSN {
      OutOfRange(Flat(h), lsn);
    } else {
      KeepRoots(c, ByLSN, h, lsn);
      FindAtRoot(c, src, h, lsn);
    }
  }

  lemma OutOfRange(f: seq<LeafEntry>, lsn: nat)
    requires Run(f) && (f != [] ==> lsn < f[0].baseLSN || lsn > f[|f|-1].lastLSN)
    ensures FindFlat(f, lsn) == None
  {
    KeepSuffix(ByLSN, f, lsn);
    if f != [] && lsn > f[|f|-1].lastLSN {
      KeepBelow(ByLSN, f, lsn);
    }
  }

  lemma RootRef(c: Config, h: Head, i: nat)
    requires Shape(c, h) && i < |Roots(h)| && Roots(h)[i].PageRoot?
    ensures i < |SectionRefs(h.sections)| && Roots(h)[i].ref == SectionRefs(h.sections)[i] && Good(c, Roots(h)[i].ref, h.writerEpoch)
  {
    hide Good, SectionsGood, SectionRefs;
    SectionRefsGood(c, h.sections, h.writerEpoch, h.generation);
  }

  lemma FindAtRoot(c: Config, src: PageSource, h: Head, lsn: nat)
    requires WellFormed(c, h)
    requires LeadsTo(ByLSN, Roots(h), LowerBound(RootKeys(ByLSN, Roots(h)), lsn), Keep(ByLSN, Flat(h), lsn), lsn)
    requires h.last.Some? && h.oldestLSN <= lsn < h.nextLSN
    ensures FindSegment(c, src, h, lsn).Ok? ==> FindSegment(c, src, h, lsn).value == FindFlat(Flat(h), lsn)
    ensures HeadStored(src, h) ==> FindSegment(c, src, h, lsn).Ok?
  {
    hide Good, ValidLeaf, Run, EpochsOrdered, EpochsAtMost, SectionsGood, Flat, SectionRefs, LowerBound, Stored, Keep, FindInPage, Roots, Counts;
    var i := LowerBound(RootKeys(ByLSN, Roots(h)), lsn);
    if i < |Roots(h)| && Roots(h)[i].PageRoot? {
      RootRef(c, h, i);
      var r := Roots(h)[i].ref;
      FirstKept(c, r, h.writerEpoch, lsn);
      if r.seqLo <= lsn {
        if FindInPage(c, src, r, lsn, h.writerEpoch).Ok? {
          FindInPageSound(c, src, r, lsn, h.writerEpoch, h.writerEpoch);
        }
        if HeadStored(src, h) {
          FindInPageComplete(c, src, r, lsn, h.writerEpoch);
        }
      }
    }
  }

  /** Likewise for timestamps: the earliest retained segment whose largest timestamp reaches ts. */
  lemma LookupTimestampRefines(c: Config, src: PageSource, h: Head, ts: int)
    requires WellFormed(c, h)
    ensures LookupTimestamp(c, src, h, ts).Ok? ==> LookupTimestamp(c, src, h, ts).value == TimeFlat(Flat(h), ts)
    ensures HeadStored(src, h) ==> LookupTimestamp(c, src, h, ts).Ok?
  {
    hide Good, ValidLeaf, Run, EpochsOrdered, EpochsAtMost, SectionsGood, SectionRefs, FlatRefs, LowerBound, Stored, Keep, TimeInPage, Roots;
    if h.last.None? || h.oldestLSN == h.nextLSN || ts > h.last.value.maxTS {
      TimeOutOfRange(c, h, ts);
    } else {
      KeepRoots(c, ByTime, h, ts);
      var i := LowerBound(RootKeys(ByTime, Roots(h)), ts);
      if i < |Roots(h)| && Roots(h)[i].PageRoot? {
        RootRef(c, h, i);
        var r := Roots(h)[i].ref;
        if TimeInPage(c, src, r, ts, h.writerEpoch).Ok? {
          TimeInPageSound(c, src, r, ts, h.writerEpoch, h.writerEpoch);
        }
        if HeadStored(src, h) {
          TimeInPageComplete(c, src, r, ts, h.writerEpoch);
        }
      }
    }
  }

  lemma TimeOutOfRange(c: Config, h: Head, ts: int)
    requires WellFormed(c, h)
    requires h.last.None? || h.oldestLSN == h.nextLSN || ts > h.last.value.maxTS
    ensures TimeFlat(Flat(h), ts) == None
  {
    hide SectionsGood;
    if Flat(h) != [] {
      RunSpan(Flat(h));
      KeepBelow(ByTime, Flat(h), ts);
    }
  }
}
