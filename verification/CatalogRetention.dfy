/** Retention: trimming a prefix of the history by rewriting the left spine of the tree. */
module CatalogRetention {
  import opened CatalogTypes
  import opened CatalogFlat
  import opened CatalogTree
  import opened CatalogReader

  // ---- The trim ----

  function VisitLevel(rs: seq<IndexEntry>, eff: nat): nat {
    var i := LowerBound(RefKeys(ByLSN, rs), eff);
    if i < |rs| then rs[i].level else 0
  }

  /** The page holding eff rewritten to start there, with the page objects written for it. */
  function TrimRef(c: Config, src: PageSource, r: IndexEntry, eff: nat, generation: nat, epoch: nat): Result<(IndexEntry, seq<IndexEntry>)>
    decreases r.level, 1
  {
    if eff <= r.seqLo then Ok((r, []))
    else if eff > r.seqHi then Err(Corrupt)
    else
      var p :- Load(c, src, r, epoch);
      match p
      case LeafPage(_, es) =>
        var start := LowerBound(LeafKeys(ByLSN, es), eff);
        if start == |es| || es[start].baseLSN != eff then Err(Corrupt)
        else
          var t :- SealLeaf(c, generation, epoch, es[start..]);
          Ok((t, [t]))
      case IndexPage(_, rs) =>
        var (entries, objects) :- TrimEntries(c, src, rs, eff, generation, epoch);
        if entries == [] || entries[0].seqLo != eff then Err(Corrupt)
        else
          var t :- SealIndex(c, generation, epoch, r.level, entries);
          Ok((t, objects + [t]))
  }

  /** Drops the entries that end before eff and rewrites the one that straddles it. */
  function TrimEntries(c: Config, src: PageSource, rs: seq<IndexEntry>, eff: nat, generation: nat, epoch: nat): Result<(seq<IndexEntry>, seq<IndexEntry>)>
    decreases VisitLevel(rs, eff), 2
  {
    var i := LowerBound(RefKeys(ByLSN, rs), eff);
    if i == |rs| then Ok(([], []))
    else
      var (t, objects) :- TrimRef(c, src, rs[i], eff, generation, epoch);
      Ok(([t] + rs[i+1..], objects))
  }

  function TrimSections(c: Config, src: PageSource, ss: seq<seq<IndexEntry>>, eff: nat, generation: nat, epoch: nat): Result<(seq<seq<IndexEntry>>, seq<IndexEntry>)> {
    if ss == [] then Ok(([], []))
    else
      var n := |ss| - 1;
      var (front, pages) :- TrimSections(c, src, ss[..n], eff, generation, epoch);
      var (entries, objects) :- TrimEntries(c, src, ss[n], eff, generation, epoch);
      Ok((front + [entries], pages + objects))
  }

  function DropTrailing(ss: seq<seq<IndexEntry>>): seq<seq<IndexEntry>> {
    if ss != [] && ss[|ss|-1] == [] then DropTrailing(ss[..|ss|-1]) else ss
  }

  function TrimHead(c: Config, src: PageSource, h: Head, eff: nat): Result<Mutation> {
    var (sections, pages) :- TrimSections(c, src, h.sections, eff, h.generation, h.writerEpoch);
    var start := LowerBound(LeafKeys(ByLSN, h.active), eff);
    var h' := h.(sections := DropTrailing(sections), active := h.active[start..]);
    var roots := Roots(h');
    if roots == [] || roots[0].Lo() != eff then Err(Corrupt) else Ok(Mutation(h', pages))
  }

  function ReachableCount(h: Head): nat { SumCounts(SectionRefs(h.sections)) + |h.active| }

  function Target(h: Head, before: nat): nat { if before > h.nextLSN then h.nextLSN else before }

  function ApplyRetention(c: Config, src: PageSource, h: Head, before: nat, version: nat): Result<Mutation> {
    if h.config != c then Err(Identity)
    else if version == 0 then Err(InvalidRequest)
    else if version == h.retentionVersion && before == h.retentionLSN then
      var same :- Marshalled(h);
      Ok(Mutation(same, []))
    else if version <= h.retentionVersion || before < h.retentionLSN then Err(RetentionRegression)
    else if h.generation == MAX_U64 then Err(GenerationExhausted)
    else
      var target := Target(h, before);
      var next := h.(generation := h.generation + 1, retentionLSN := target, retentionVersion := version);
      var m :-
        if target <= h.oldestLSN then Ok(Mutation(next, []))
        else if target >= h.nextLSN then Ok(Mutation(next.(oldestLSN := h.nextLSN, active := [], sections := []), []))
        else
          var found :- FindSegment(c, src, h, target);
          match found
          case None => Err(Corrupt)
          case Some(e) =>
            if e.baseLSN > h.oldestLSN then
              var t :- TrimHead(c, src, next, e.baseLSN);
              Ok(t.(head := t.head.(oldestLSN := e.baseLSN)))
            else Ok(Mutation(next, []));
      var done :- Marshalled(m.head.(reachableCount := ReachableCount(m.head)));
      Ok(Mutation(done, m.pages))
  }

  // ---- Boundaries ----

  /** No segment straddles eff. */
  ghost predicate Boundary(f: seq<LeafEntry>, eff: nat) {
    forall i :: 0 <= i < |f| ==> f[i].lastLSN < eff || f[i].baseLSN >= eff
  }

  lemma BoundaryParts(a: seq<LeafEntry>, b: seq<LeafEntry>, eff: nat)
    requires Boundary(a + b, eff)
    ensures Boundary(a, eff) && Boundary(b, eff)
  {
    forall i | 0 <= i < |a| ensures a[i].lastLSN < eff || a[i].baseLSN >= eff { assert a[i] == (a + b)[i]; }
    forall i | 0 <= i < |b| ensures b[i].lastLSN < eff || b[i].baseLSN >= eff { assert b[i] == (a + b)[|a| + i]; }
  }

  /** A boundary inside a run is the start of the first kept segment. */
  lemma BoundaryCut(f: seq<LeafEntry>, eff: nat)
    requires Run(f) && Boundary(f, eff) && f != [] && f[0].baseLSN < eff <= f[|f|-1].lastLSN
    ensures var k := LowerBound(LeafKeys(ByLSN, f), eff);
            0 < k < |f| && f[k].baseLSN == eff && Keep(ByLSN, f, eff) == f[k..]
  {
    KeepSuffix(ByLSN, f, eff);
    var k := LowerBound(LeafKeys(ByLSN, f), eff);
    assert LeafKeys(ByLSN, f)[|f|-1] >= eff;
    assert 0 < k < |f|;
    assert LeafKeys(ByLSN, f)[k-1] < eff && Follows(f[k-1], f[k]);
  }

  /** The start of any segment of a run is a boundary of it. */
  lemma StartIsBoundary(f: seq<LeafEntry>, k: nat)
    requires Run(f) && k < |f|
    ensures Boundary(f, f[k].baseLSN)
  {
    forall i | 0 <= i < |f| ensures f[i].lastLSN < f[k].baseLSN || f[i].baseLSN >= f[k].baseLSN {
      if i < k { RunOrder(f, i, k); }
      if k < i { RunOrder(f, k, i); }
    }
  }

  lemma RunSuffix(f: seq<LeafEntry>, k: nat)
    requires Run(f) && k <= |f|
    ensures Run(f[k..])
  {
    assert f == f[..k] + f[k..];
    RunParts(f[..k], f[k..]);
  }

  lemma KeepRun(f: seq<LeafEntry>, x: int)
    requires Run(f)
    ensures Run(Keep(ByLSN, f, x))
  {
    KeepSuffix(ByLSN, f, x);
    RunSuffix(f, LowerBound(LeafKeys(ByLSN, f), x));
  }

  // ---- Trimming one page ----

  ghost predicate Trimmed(c: Config, r: IndexEntry, t: IndexEntry, eff: nat, generation: nat, epoch: nat) {
    && Good(c, t, epoch) && t.level == r.level && t.generation <= generation
    && FlatRef(t) == Keep(ByLSN, FlatRef(r), eff)
    && t.seqLo == (if r.seqLo < eff then eff else r.seqLo)
  }

  ghost predicate Trimmable(c: Config, r: IndexEntry, eff: nat, generation: nat, epoch: nat) {
    && ValidConfig(c) && generation > 0 && epoch > 0
    && Good(c, r, epoch) && r.generation <= generation && eff <= r.seqHi && Boundary(FlatRef(r), eff)
  }

  lemma {:induction false} AdjacentEpochs(es: seq<LeafEntry>, i: nat, j: nat)
    requires forall i, j :: 0 <= i < |es| && i < j < |es| && j == i + 1 ==> es[i].writerEpoch <= es[j].writerEpoch
    requires i < j < |es|
    ensures es[i].writerEpoch <= es[j].writerEpoch
    decreases j
  {
    assert es[j-1].writerEpoch <= es[j].writerEpoch;
    if i < j - 1 { AdjacentEpochs(es, i, j - 1); }
  }

  lemma LeafPageOrdered(h: PageHeader, es: seq<LeafEntry>, epoch: nat)
    requires ValidLeafPage(h, es) && h.writerEpoch <= epoch
    ensures Ordered(es, epoch)
  {
    forall i: nat, j: nat | i < j < |es| ensures es[i].writerEpoch <= es[j].writerEpoch { AdjacentEpochs(es, i, j); }
  }

  lemma KeepWhole(c: Config, r: IndexEntry, eff: nat, epoch: nat)
    requires Good(c, r, epoch) && eff <= r.seqLo
    ensures Keep(ByLSN, FlatRef(r), eff) == FlatRef(r)
  {
    hide Good;
    GoodDescribes(c, r, epoch);
    var f := FlatRef(r);
    forall i | 0 <= i < |f| ensures LeafKey(ByLSN, f[i]) >= eff { if i > 0 { RunOrder(f, 0, i); } }
    KeepAll(ByLSN, f, eff);
  }

  lemma TrimLeaf(c: Config, src: PageSource, r: IndexEntry, eff: nat, generation: nat, epoch: nat)
    requires Trimmable(c, r, eff, generation, epoch) && r.seqLo < eff && r.id.page.LeafPage?
    ensures TrimRef(c, src, r, eff, generation, epoch).Ok? ==>
              Trimmed(c, r, TrimRef(c, src, r, eff, generation, epoch).value.0, eff, generation, epoch)
    ensures Stored(src, r) ==> TrimRef(c, src, r, eff, generation, epoch).Ok?
  {
    hide SealLeaf, Run, ValidLeaf, Keep, LowerBound, Good, EpochsOrdered, EpochsAtMost, Boundary;
    var es := r.id.page.leaves;
    LeafCut(c, r, eff, epoch);
    LoadLeaf(c, src, r, epoch);
    SealLeafGood(c, generation, epoch, es[LowerBound(LeafKeys(ByLSN, es), eff)..]);
  }

  /** The boundary cuts a leaf page between two segments, leaving an ordered run. */
  lemma LeafCut(c: Config, r: IndexEntry, eff: nat, epoch: nat)
    requires Good(c, r, epoch) && r.seqLo < eff <= r.seqHi && Boundary(FlatRef(r), eff) && r.id.page.LeafPage?
    ensures var es := r.id.page.leaves;
            var k := LowerBound(LeafKeys(ByLSN, es), eff);
            && FlatRef(r) == es && r.level == 0 && 0 < k < |es| <= MAX_LEAF_ENTRIES && es[k].baseLSN == eff && Keep(ByLSN, es, eff) == es[k..]
            && Run(es[k..]) && EpochsOrdered(es[k..]) && EpochsAtMost(es[k..], epoch)
  {
    hide Run, ValidLeaf, Keep, LowerBound;
    var es := r.id.page.leaves;
    GoodDescribes(c, r, epoch);
    BoundaryCut(es, eff);
    var k := LowerBound(LeafKeys(ByLSN, es), eff);
    LeafPageOrdered(r.id.page.header, es, epoch);
    assert es == es[..k] + es[k..];
    OrderedSuffix(es[..k], es[k..], epoch);
  }

  lemma LoadLeaf(c: Config, src: PageSource, r: IndexEntry, epoch: nat)
    requires Good(c, r, epoch)
    ensures Load(c, src, r, epoch).Ok? ==> Load(c, src, r, epoch).value == r.id.page
    ensures Stored(src, r) ==> Load(c, src, r, epoch).Ok?
  {
  }

  /** References kept whole and one rewritten: sound, of one level, over the kept run. */
  ghost predicate TrimmedList(c: Config, rs: seq<IndexEntry>, ts: seq<IndexEntry>, level: nat, eff: nat, generation: nat, epoch: nat) {
    && LevelGood(c, ts, level, epoch, generation) && |ts| <= |rs|
    && FlatRefs(ts) == Keep(ByLSN, FlatRefs(rs), eff)
  }

  lemma TrimmedTail(c: Config, rs: seq<IndexEntry>, t: IndexEntry, level: nat, eff: nat, generation: nat, epoch: nat)
    requires LevelGood(c, rs, level, epoch, generation) && RefsTile(rs)
    requires var i := LowerBound(RefKeys(ByLSN, rs), eff); i < |rs| && Trimmed(c, rs[i], t, eff, generation, epoch)
    ensures var i := LowerBound(RefKeys(ByLSN, rs), eff);
            TrimmedList(c, rs, [t] + rs[i+1..], level, eff, generation, epoch)
  {
    hide Good, Run, Keep, LowerBound;
    var i := LowerBound(RefKeys(ByLSN, rs), eff);
    KeepRefs(c, ByLSN, rs, epoch, eff);
    FlatRefsConcat([t], rs[i+1..]);
    FlatRefsOne(t);
  }

  lemma VisitedBoundary(rs: seq<IndexEntry>, i: nat, eff: nat)
    requires i < |rs| && Boundary(FlatRefs(rs), eff)
    ensures Boundary(FlatRef(rs[i]), eff)
  {
    assert rs == rs[..i] + ([rs[i]] + rs[i+1..]);
    FlatRefsConcat(rs[..i], [rs[i]] + rs[i+1..]);
    FlatRefsConcat([rs[i]], rs[i+1..]);
    FlatRefsOne(rs[i]);
    BoundaryParts(FlatRefs(rs[..i]), FlatRef(rs[i]) + FlatRefs(rs[i+1..]), eff);
    BoundaryParts(FlatRef(rs[i]), FlatRefs(rs[i+1..]), eff);
  }

  ghost predicate AllStored(src: PageSource, rs: seq<IndexEntry>) {
    forall i :: 0 <= i < |rs| ==> Stored(src, rs[i])
  }

  lemma {:induction false} TrimEntriesGood(c: Config, src: PageSource, rs: seq<IndexEntry>, level: nat, eff: nat, generation: nat, epoch: nat)
    requires ValidConfig(c) && generation > 0 && epoch > 0
    requires LevelGood(c, rs, level, epoch, generation) && RefsTile(rs) && Boundary(FlatRefs(rs), eff)
    ensures TrimEntries(c, src, rs, eff, generation, epoch).Ok? ==>
              TrimmedList(c, rs, TrimEntries(c, src, rs, eff, generation, epoch).value.0, level, eff, generation, epoch)
    ensures TrimEntries(c, src, rs, eff, generation, epoch).Ok? && LowerBound(RefKeys(ByLSN, rs), eff) < |rs| ==>
              var ts := TrimEntries(c, src, rs, eff, generation, epoch).value.0;
              ts != [] && ts[0].seqLo == (var r := rs[LowerBound(RefKeys(ByLSN, rs), eff)]; if r.seqLo < eff then eff else r.seqLo)
    ensures AllStored(src, rs) ==> TrimEntries(c, src, rs, eff, generation, epoch).Ok?
    decreases rs, 0
  {
    hide Good, Run, Keep, Stored, TrimRef, LowerBound, FlatRefs, FlatRef, Boundary;
    var i := LowerBound(RefKeys(ByLSN, rs), eff);
    if i == |rs| {
      KeepRefs(c, ByLSN, rs, epoch, eff);
      NothingLeft(c, level, epoch, generation);
    } else {
      VisitedBoundary(rs, i, eff);
      TrimRefGood(c, src, rs[i], eff, generation, epoch);
      if TrimRef(c, src, rs[i], eff, generation, epoch).Ok? {
        TrimmedTail(c, rs, TrimRef(c, src, rs[i], eff, generation, epoch).value.0, level, eff, generation, epoch);
      }
    }
  }

  lemma NothingLeft(c: Config, level: nat, epoch: nat, generation: nat)
    ensures LevelGood(c, [], level, epoch, generation) && FlatRefs([]) == []
  {
  }

  /** What a page's references inherit from it. */
  lemma ChildrenGood(c: Config, r: IndexEntry, epoch: nat, generation: nat)
    requires Good(c, r, epoch) && r.id.page.IndexPage? && r.generation <= generation
    ensures var rs := r.id.page.refs;
            && 0 < |rs| <= MAX_INDEX_ENTRIES && 0 < r.level <= MAX_INDEX_LEVEL
            && LevelGood(c, rs, r.level - 1, epoch, generation) && RefsTile(rs)
            && rs[0].seqLo == r.seqLo && rs[|rs|-1].seqHi == r.seqHi && FlatRef(r) == FlatRefs(rs)
  {
    var p := r.id.page;
    forall i | 0 <= i < |p.refs| ensures Good(c, p.refs[i], epoch) { GoodLater(c, p.refs[i], p.header.writerEpoch, epoch); }
  }

  /** The visited child of an index page: the boundary falls in it or at its start. */
  lemma VisitedChild(rs: seq<IndexEntry>, eff: nat)
    requires RefsTile(rs) && rs != [] && rs[0].seqLo < eff <= rs[|rs|-1].seqHi
    ensures var i := LowerBound(RefKeys(ByLSN, rs), eff); i < |rs| && rs[i].seqLo <= eff
  {
    var i := LowerBound(RefKeys(ByLSN, rs), eff);
    assert RefKeys(ByLSN, rs)[|rs|-1] >= eff;
    if i > 0 { assert RefKeys(ByLSN, rs)[i-1] < eff && RefFollows(rs[i-1], rs[i]); }
  }

  lemma TrimIndex(c: Config, src: PageSource, r: IndexEntry, eff: nat, generation: nat, epoch: nat, ts: seq<IndexEntry>)
    requires Trimmable(c, r, eff, generation, epoch) && r.seqLo < eff && r.id.page.IndexPage?
    requires ts != [] && ts[0].seqLo == eff && TrimmedList(c, r.id.page.refs, ts, r.level - 1, eff, generation, epoch)
    ensures SealIndex(c, generation, epoch, r.level, ts).Ok?
    ensures Trimmed(c, r, SealIndex(c, generation, epoch, r.level, ts).value, eff, generation, epoch)
  {
    hide Run, Keep, SealIndex, ValidPage, LevelGood;
    ChildrenGood(c, r, epoch, generation);
    GoodDescribes(c, r, epoch);
    KeepRun(FlatRef(r), eff);
    SealIndexGood(c, generation, epoch, r.level, ts);
  }

  /** Trimming a sound page at a segment boundary keeps exactly the segments from there on;
      its own checks never fail on it, so only a missing page can. */
  lemma {:induction false} TrimRefGood(c: Config, src: PageSource, r: IndexEntry, eff: nat, generation: nat, epoch: nat)
    requires Trimmable(c, r, eff, generation, epoch)
    ensures TrimRef(c, src, r, eff, generation, epoch).Ok? ==>
              Trimmed(c, r, TrimRef(c, src, r, eff, generation, epoch).value.0, eff, generation, epoch)
    ensures Stored(src, r) ==> TrimRef(c, src, r, eff, generation, epoch).Ok?
    decreases r, 1
  {
    if eff <= r.seqLo {
      KeepWhole(c, r, eff, epoch);
    } else if r.id.page.LeafPage? {
      TrimLeaf(c, src, r, eff, generation, epoch);
    } else {
      TrimRefIndex(c, src, r, eff, generation, epoch);
    }
  }

  lemma TrimRefIndex(c: Config, src: PageSource, r: IndexEntry, eff: nat, generation: nat, epoch: nat)
    requires Trimmable(c, r, eff, generation, epoch) && r.seqLo < eff && r.id.page.IndexPage?
    ensures TrimRef(c, src, r, eff, generation, epoch).Ok? ==>
              Trimmed(c, r, TrimRef(c, src, r, eff, generation, epoch).value.0, eff, generation, epoch)
    ensures Stored(src, r) ==> TrimRef(c, src, r, eff, generation, epoch).Ok?
    decreases r, 0
  {
    hide Good, Run, Keep, Stored, TrimEntries, LowerBound, SealIndex, Load, FlatRefs, Boundary;
    var rs := r.id.page.refs;
    LoadOrFail(c, src, r, epoch);
    ChildrenGood(c, r, epoch, generation);
    VisitedChild(rs, eff);
    TrimEntriesGood(c, src, rs, r.level - 1, eff, generation, epoch);
    var te := TrimEntries(c, src, rs, eff, generation, epoch);
    if te.Ok? {
      TrimIndex(c, src, r, eff, generation, epoch, te.value.0);
    }
  }

  lemma LoadOrFail(c: Config, src: PageSource, r: IndexEntry, e: nat)
    requires Good(c, r, e)
    ensures Load(c, src, r, e).Ok? ==> Load(c, src, r, e).value == r.id.page
    ensures Stored(src, r) ==> Load(c, src, r, e) == Ok(r.id.page)
    ensures Stored(src, r) && r.id.page.IndexPage? ==> AllStored(src, r.id.page.refs)
  {
  }

  // ---- Trimming the sections ----

  ghost predicate NoLarger(a: seq<seq<IndexEntry>>, b: seq<seq<IndexEntry>>) {
    |a| <= |b| && forall i :: 0 <= i < |a| ==> |a[i]| <= |b[i]|
  }

  lemma {:induction false} WeightShrinks(c: Config, a: seq<seq<IndexEntry>>, b: seq<seq<IndexEntry>>)
    requires NoLarger(a, b)
    ensures Weight(c, a) <= Weight(c, b)
    decreases |b|
  {
    if b != [] {
      var n := |b| - 1;
      if |a| == |b| {
        WeightShrinks(c, a[..n], b[..n]);
        TimesAtLeast(|a[n]|, |b[n]|, Capacity(c, n));
      } else {
        WeightShrinks(c, a, b[..n]);
        TimesAtLeast(0, |b[n]|, Capacity(c, n));
      }
    }
  }

  lemma {:induction false} DropTrailingKeeps(c: Config, ss: seq<seq<IndexEntry>>, epoch: nat, generation: nat)
    requires SectionsGood(c, ss, epoch, generation)
    ensures SectionsGood(c, DropTrailing(ss), epoch, generation) && SectionRefs(DropTrailing(ss)) == SectionRefs(ss)
    ensures NoLarger(DropTrailing(ss), ss)
  {
    if ss != [] && ss[|ss|-1] == [] {
      DropTrailingKeeps(c, ss[..|ss|-1], epoch, generation);
    }
  }

  ghost predicate TrimmedSections(c: Config, ss: seq<seq<IndexEntry>>, ts: seq<seq<IndexEntry>>, eff: nat, generation: nat, epoch: nat) {
    && SectionsGood(c, ts, epoch, generation) && |ts| == |ss| && NoLarger(ts, ss)
    && FlatRefs(SectionRefs(ts)) == Keep(ByLSN, FlatRefs(SectionRefs(ss)), eff)
  }

  /** How a section list splits into its top section and the rest. */
  lemma TopSection(c: Config, ss: seq<seq<IndexEntry>>, eff: nat, generation: nat, epoch: nat)
    requires SectionsGood(c, ss, epoch, generation) && ss != []
    requires Run(FlatRefs(SectionRefs(ss))) && Boundary(FlatRefs(SectionRefs(ss)), eff)
    ensures var n := |ss| - 1;
            && SectionsGood(c, ss[..n], epoch, generation) && LevelGood(c, ss[n], n, epoch, generation)
            && FlatRefs(SectionRefs(ss)) == FlatRefs(ss[n]) + FlatRefs(SectionRefs(ss[..n]))
            && Run(FlatRefs(SectionRefs(ss[..n]))) && Boundary(FlatRefs(SectionRefs(ss[..n])), eff)
            && RefsTile(ss[n]) && Boundary(FlatRefs(ss[n]), eff)
  {
    hide Good, Run, Boundary;
    var n := |ss| - 1;
    FlatRefsConcat(ss[n], SectionRefs(ss[..n]));
    RunParts(FlatRefs(ss[n]), FlatRefs(SectionRefs(ss[..n])));
    BoundaryParts(FlatRefs(ss[n]), FlatRefs(SectionRefs(ss[..n])), eff);
    assert LevelGood(c, ss[n], n, epoch, generation);
    RunTiles(c, ss[n], epoch);
  }

  lemma AddTopSection(c: Config, ss: seq<seq<IndexEntry>>, front: seq<seq<IndexEntry>>, top: seq<IndexEntry>, eff: nat, generation: nat, epoch: nat)
    requires SectionsGood(c, ss, epoch, generation) && ss != []
    requires FlatRefs(SectionRefs(ss)) == FlatRefs(ss[|ss|-1]) + FlatRefs(SectionRefs(ss[..|ss|-1]))
    requires TrimmedSections(c, ss[..|ss|-1], front, eff, generation, epoch)
    requires TrimmedList(c, ss[|ss|-1], top, |ss| - 1, eff, generation, epoch)
    ensures TrimmedSections(c, ss, front + [top], eff, generation, epoch)
  {
    hide Keep, LevelGood, FlatRefs, SectionsGood, SectionRefs;
    var n := |ss| - 1;
    SectionsSnoc(c, ss, front, top, generation, epoch);
    SectionRefsSnoc(front, top);
    FlatRefsConcat(top, SectionRefs(front));
    KeepConcat(ByLSN, FlatRefs(ss[n]), FlatRefs(SectionRefs(ss[..n])), eff);
  }

  lemma SectionRefsSnoc(front: seq<seq<IndexEntry>>, top: seq<IndexEntry>)
    ensures SectionRefs(front + [top]) == top + SectionRefs(front)
  {
    assert (front + [top])[..|front|] == front;
  }

  lemma SectionsSnoc(c: Config, ss: seq<seq<IndexEntry>>, front: seq<seq<IndexEntry>>, top: seq<IndexEntry>, generation: nat, epoch: nat)
    requires SectionsGood(c, ss, epoch, generation) && |ss| == |front| + 1
    requires SectionsGood(c, front, epoch, generation) && NoLarger(front, ss[..|front|])
    requires LevelGood(c, top, |front|, epoch, generation) && |top| <= |ss[|front|]|
    ensures SectionsGood(c, front + [top], epoch, generation) && NoLarger(front + [top], ss)
  {
    hide LevelGood;
    var ts := front + [top];
    forall i | 0 <= i < |ts| ensures |ts[i]| <= |ss[i]| && |ts[i]| < c.indexLimit && LevelGood(c, ts[i], i, epoch, generation) {
      if i < |front| { assert ts[i] == front[i] && ss[..|front|][i] == ss[i]; }
    }
  }

  lemma {:induction false} TrimSectionsGood(c: Config, src: PageSource, ss: seq<seq<IndexEntry>>, eff: nat, generation: nat, epoch: nat)
    requires ValidConfig(c) && generation > 0 && epoch > 0 && SectionsGood(c, ss, epoch, generation)
    requires Run(FlatRefs(SectionRefs(ss))) && Boundary(FlatRefs(SectionRefs(ss)), eff)
    ensures TrimSections(c, src, ss, eff, generation, epoch).Ok? ==>
              TrimmedSections(c, ss, TrimSections(c, src, ss, eff, generation, epoch).value.0, eff, generation, epoch)
    ensures AllStored(src, SectionRefs(ss)) ==> TrimSections(c, src, ss, eff, generation, epoch).Ok?
  {
    hide Run, Keep, Stored, TrimEntries, FlatRefs, Boundary, LevelGood, SectionsGood, LowerBound;
    if ss == [] {
      NoSections(c, eff, generation, epoch);
    } else {
      var n := |ss| - 1;
      TopSection(c, ss, eff, generation, epoch);
      TrimSectionsGood(c, src, ss[..n], eff, generation, epoch);
      TrimEntriesGood(c, src, ss[n], n, eff, generation, epoch);
      StoredParts(src, ss);
      var front := TrimSections(c, src, ss[..n], eff, generation, epoch);
      var top := TrimEntries(c, src, ss[n], eff, generation, epoch);
      if front.Ok? && top.Ok? {
        AddTopSection(c, ss, front.value.0, top.value.0, eff, generation, epoch);
      }
    }
  }

  lemma NoSections(c: Config, eff: nat, generation: nat, epoch: nat)
    ensures TrimmedSections(c, [], [], eff, generation, epoch)
  {
  }

  lemma StoredParts(src: PageSource, ss: seq<seq<IndexEntry>>)
    requires ss != []
    ensures AllStored(src, SectionRefs(ss)) ==> AllStored(src, ss[|ss|-1]) && AllStored(src, SectionRefs(ss[..|ss|-1]))
  {
    hide Stored;
    var top, rest := ss[|ss|-1], SectionRefs(ss[..|ss|-1]);
    if AllStored(src, SectionRefs(ss)) {
      forall i | 0 <= i < |top| ensures Stored(src, top[i]) { assert top[i] == SectionRefs(ss)[i]; }
      forall i | 0 <= i < |rest| ensures Stored(src, rest[i]) { assert rest[i] == SectionRefs(ss)[|top| + i]; }
    }
  }

  // ---- Trimming the head ----

  ghost predicate HeadTrimmed(c: Config, h: Head, h': Head, eff: nat) {
    && h' == h.(sections := h'.sections, active := h'.active)
    && Shape(c, h') && Flat(h') == Keep(ByLSN, Flat(h), eff)
    && NoLarger(h'.sections, h.sections) && |h'.active| <= |h.active|
  }

  ghost predicate CanTrim(c: Config, h: Head, eff: nat) {
    && Shape(c, h) && h.generation > 0 && h.writerEpoch > 0
    && Run(Flat(h)) && Boundary(Flat(h), eff)
    && Flat(h) != [] && Flat(h)[0].baseLSN < eff <= Flat(h)[|Flat(h)|-1].lastLSN
  }

  lemma TrimmedShape(c: Config, h: Head, ts: seq<seq<IndexEntry>>, eff: nat)
    requires CanTrim(c, h, eff) && TrimmedSections(c, h.sections, ts, eff, h.generation, h.writerEpoch)
    ensures HeadTrimmed(c, h, h.(sections := DropTrailing(ts), active := h.active[LowerBound(LeafKeys(ByLSN, h.active), eff)..]), eff)
  {
    hide Run, Keep, FlatRefs, Boundary, LevelGood, SectionsGood, LowerBound, SectionRefs, DropTrailing;
    DropTrailingKeeps(c, ts, h.writerEpoch, h.generation);
    RunParts(FlatRefs(SectionRefs(h.sections)), h.active);
    KeepSuffix(ByLSN, h.active, eff);
    KeepConcat(ByLSN, FlatRefs(SectionRefs(h.sections)), h.active, eff);
  }

  lemma TrimHeadGood(c: Config, src: PageSource, h: Head, eff: nat)
    requires CanTrim(c, h, eff)
    ensures TrimHead(c, src, h, eff).Ok? ==> HeadTrimmed(c, h, TrimHead(c, src, h, eff).value.head, eff)
    ensures HeadStored(src, h) ==> TrimHead(c, src, h, eff).Ok?
  {
    hide Run, Keep, FlatRefs, Boundary, SectionsGood, LowerBound, SectionRefs, DropTrailing, Roots, Stored, TrimSections, EpochsOrdered, EpochsAtMost, ValidLeaf;
    RunParts(FlatRefs(SectionRefs(h.sections)), h.active);
    BoundaryParts(FlatRefs(SectionRefs(h.sections)), h.active, eff);
    TrimSectionsGood(c, src, h.sections, eff, h.generation, h.writerEpoch);
    var ts := TrimSections(c, src, h.sections, eff, h.generation, h.writerEpoch);
    if ts.Ok? {
      TrimmedShape(c, h, ts.value.0, eff);
      var h' := h.(sections := DropTrailing(ts.value.0), active := h.active[LowerBound(LeafKeys(ByLSN, h.active), eff)..]);
      BoundaryCut(Flat(h), eff);
      KeepRun(Flat(h), eff);
      RootsOfRun(c, h');
    }
  }

  // ---- The retention step ----

  /** The flat effect of retention: everything that ends before the target is gone, nothing else changes. */
  ghost predicate Retained(h: Head, h': Head, target: nat, version: nat) {
    var f := Keep(ByLSN, Flat(h), target);
    && Flat(h') == f
    && h' == h.(generation := h.generation + 1, retentionLSN := target, retentionVersion := version,
                oldestLSN := if f == [] then h.nextLSN else f[0].baseLSN, reachableCount := |f|,
                active := h'.active, sections := h'.sections)
  }

  lemma OrderedKeep(f: seq<LeafEntry>, x: int, epoch: nat)
    requires Ordered(f, epoch)
    ensures Ordered(Keep(ByLSN, f, x), epoch)
    ensures |Keep(ByLSN, f, x)| <= |f|
    ensures Keep(ByLSN, f, x) != [] ==> Keep(ByLSN, f, x)[|Keep(ByLSN, f, x)|-1] == f[|f|-1] && f[0].baseLSN <= Keep(ByLSN, f, x)[0].baseLSN <= f[|f|-1].lastLSN
  {
    hide EpochsOrdered, EpochsAtMost, Keep, LowerBound;
    KeepSuffix(ByLSN, f, x);
    var k := LowerBound(LeafKeys(ByLSN, f), x);
    assert f == f[..k] + f[k..];
    OrderedSuffix(f[..k], f[k..], epoch);
    if 0 < k < |f| { RunOrder(f, 0, k); }
    if k < |f| - 1 { RunOrder(f, k, |f| - 1); }
  }

  lemma RetainedWellFormed(c: Config, h: Head, h': Head, target: nat, version: nat)
    requires WellFormed(c, h) && Retained(h, h', target, version)
    requires version > 0 && target <= h.nextLSN && h.generation < MAX_U64
    requires |h'.active| < c.leafLimit && SectionsGood(c, h'.sections, h'.writerEpoch, h'.generation)
    ensures WellFormed(c, h') && ValidHead(h')
  {
    hide Run, EpochsOrdered, EpochsAtMost, SectionsGood, ValidHead, ValidLeaf, Keep, FlatRefs, SectionRefs;
    OrderedKeep(Flat(h), target, h.writerEpoch);
    WellFormedValid(c, h');
  }

  lemma CountReachable(c: Config, h: Head)
    requires Shape(c, h) && Run(Flat(h))
    ensures ReachableCount(h) == |Flat(h)|
  {
    hide Good, SectionsGood, FlatRefs, SectionRefs;
    var rs := SectionRefs(h.sections);
    SectionRefsGood(c, h.sections, h.writerEpoch, h.generation);
    RunParts(FlatRefs(rs), h.active);
    RunTiles(c, rs, h.writerEpoch);
  }

  predicate RetentionAccepts(c: Config, h: Head, before: nat, version: nat) {
    h.config == c && version > h.retentionVersion && before >= h.retentionLSN && h.generation < MAX_U64
  }

  /** What the head becomes before its reachable count is recomputed, when no page has to be rewritten. */
  lemma KeepExtremes(c: Config, h: Head, target: nat)
    requires WellFormed(c, h)
    ensures target <= h.oldestLSN ==> Keep(ByLSN, Flat(h), target) == Flat(h)
    ensures target >= h.nextLSN ==> Keep(ByLSN, Flat(h), target) == []
  {
    hide SectionsGood, FlatRefs, SectionRefs;
    var f := Flat(h);
    if target >= h.nextLSN && f != [] {
      KeepBelow(ByLSN, f, target);
    } else if target <= h.oldestLSN {
      forall i | 0 <= i < |f| ensures LeafKey(ByLSN, f[i]) >= target { if i > 0 { RunOrder(f, 0, i); } }
      KeepAll(ByLSN, f, target);
    }
  }

  /** The segment holding the target: cutting at its start is cutting at the target. */
  lemma CutAtSegment(f: seq<LeafEntry>, target: nat)
    requires Run(f) && f != [] && f[0].baseLSN < target <= f[|f|-1].lastLSN
    ensures var e := FindFlat(f, target);
            && e.Some? && f[0].baseLSN <= e.value.baseLSN <= f[|f|-1].lastLSN
            && Keep(ByLSN, f, e.value.baseLSN) == Keep(ByLSN, f, target) && Boundary(f, e.value.baseLSN)
  {
    hide ValidLeaf, Keep, LowerBound;
    var ks := LeafKeys(ByLSN, f);
    var k := LowerBound(ks, target);
    assert ks[|f|-1] >= target;
    KeepSuffix(ByLSN, f, target);
    SegmentBounds(f, k);
    if k > 0 { assert ks[k-1] < target && Follows(f[k-1], f[k]); }
    assert Keep(ByLSN, f, target)[0] == f[k];
    StartIsBoundary(f, k);
    KeepFromStart(f, k);
  }

  lemma SegmentBounds(f: seq<LeafEntry>, k: nat)
    requires Run(f) && k < |f|
    ensures f[0].baseLSN <= f[k].baseLSN <= f[k].lastLSN <= f[|f|-1].lastLSN
  {
    if k > 0 { RunOrder(f, 0, k); }
    if k < |f| - 1 { RunOrder(f, k, |f| - 1); }
  }

  lemma KeepFromStart(f: seq<LeafEntry>, k: nat)
    requires Run(f) && k < |f|
    ensures Keep(ByLSN, f, f[k].baseLSN) == f[k..]
  {
    hide Keep;
    var b := f[k].baseLSN;
    var ks := LeafKeys(ByLSN, f);
    KeepSuffix(ByLSN, f, b);
    forall i | 0 <= i < k ensures ks[i] < b { RunOrder(f, i, k); }
    assert ks[k] >= b;
    assert LowerBound(ks, b) == k;
  }

  /** The outcome of the middle branch: the boundary found, and the head trimmed at it when it moves. */
  lemma RetainInside(c: Config, src: PageSource, h: Head, next: Head, target: nat)
    requires WellFormed(c, h) && h.oldestLSN < target < h.nextLSN && h.generation < MAX_U64
    requires next == h.(generation := h.generation + 1, retentionLSN := next.retentionLSN, retentionVersion := next.retentionVersion)
    ensures var e := FindFlat(Flat(h), target);
            && e.Some? && e.value.baseLSN >= h.oldestLSN
            && (e.value.baseLSN > h.oldestLSN ==>
                  && (TrimHead(c, src, next, e.value.baseLSN).Ok? ==> HeadTrimmed(c, next, TrimHead(c, src, next, e.value.baseLSN).value.head, target))
                  && (HeadStored(src, h) ==> TrimHead(c, src, next, e.value.baseLSN).Ok?)
                  && Keep(ByLSN, Flat(h), target) != [] && Keep(ByLSN, Flat(h), target)[0].baseLSN == e.value.baseLSN)
            && (e.value.baseLSN == h.oldestLSN ==> Keep(ByLSN, Flat(h), target) == Flat(h))
  {
    hide Run, Keep, EpochsOrdered, EpochsAtMost, SectionsGood, FlatRefs, SectionRefs, LowerBound, Boundary, TrimHead, ValidLeaf;
    var f := Flat(h);
    NonEmptyBounds(c, h, target);
    CutAtSegment(f, target);
    var b := FindFlat(f, target).value.baseLSN;
    assert Flat(next) == f;
    SectionsLater(c, h.sections, h.writerEpoch, h.generation, h.writerEpoch, h.generation + 1);
    if b > h.oldestLSN {
      TrimHeadGood(c, src, next, b);
      BoundaryCut(f, b);
    } else {
      KeepExtremes(c, h, b);
    }
  }

  lemma NonEmptyBounds(c: Config, h: Head, target: nat)
    requires WellFormed(c, h) && h.oldestLSN < target < h.nextLSN
    ensures Flat(h) != [] && h.writerEpoch > 0 && Flat(h)[0].baseLSN == h.oldestLSN && target <= Flat(h)[|Flat(h)|-1].lastLSN
  {
    hide SectionsGood;
  }

  /** Retention on a well-formed head: any success keeps exactly the segments that end at or after the
      target and a well-formed head; it can only fail for a stale policy, an exhausted counter or a missing page. */
  lemma ApplyRetentionRefines(c: Config, src: PageSource, h: Head, before: nat, version: nat)
    requires WellFormed(c, h) && Spacious(c, h)
    requires !(version == h.retentionVersion && before == h.retentionLSN)
    ensures var m := ApplyRetention(c, src, h, before, version);
            && (m.Ok? ==>
                  && RetentionAccepts(c, h, before, version)
                  && WellFormed(c, m.value.head) && Spacious(c, m.value.head)
                  && Retained(h, m.value.head, Target(h, before), version))
            && (HeadStored(src, h) && RetentionAccepts(c, h, before, version) ==> m.Ok?)
  {
    if RetentionAccepts(c, h, before, version) {
      RetentionAccepted(c, src, h, before, version);
    }
  }

  /** The head a retention builds before its reachable count is recomputed. */
  ghost predicate Cut(c: Config, h: Head, g: Head, target: nat, version: nat) {
    && Shape(c, g) && Flat(g) == Keep(ByLSN, Flat(h), target)
    && NoLarger(g.sections, h.sections) && |g.active| <= |h.active|
    && g == h.(generation := h.generation + 1, retentionLSN := target, retentionVersion := version,
               oldestLSN := if Flat(g) == [] then h.nextLSN else Flat(g)[0].baseLSN,
               active := g.active, sections := g.sections)
  }

  lemma CutDone(c: Config, h: Head, g: Head, target: nat, version: nat)
    requires WellFormed(c, h) && Spacious(c, h) && Cut(c, h, g, target, version)
    requires version > 0 && target <= h.nextLSN && h.generation < MAX_U64
    ensures var h' := g.(reachableCount := ReachableCount(g));
            WellFormed(c, h') && Spacious(c, h') && ValidHead(h') && Retained(h, h', target, version)
  {
    hide Run, Keep, EpochsOrdered, EpochsAtMost, SectionsGood, FlatRefs, SectionRefs, ValidHead, Weight, ReachableCount;
    KeepRun(Flat(h), target);
    CountReachable(c, g);
    WeightShrinks(c, g.sections, h.sections);
    var h' := g.(reachableCount := ReachableCount(g));
    assert Flat(h') == Flat(g);
    RetainedWellFormed(c, h, h', target, version);
  }

  lemma CutEdges(c: Config, h: Head, target: nat, version: nat)
    requires WellFormed(c, h) && h.generation < MAX_U64
    ensures var next := h.(generation := h.generation + 1, retentionLSN := target, retentionVersion := version);
            && (Keep(ByLSN, Flat(h), target) == Flat(h) ==> Cut(c, h, next, target, version))
            && (target >= h.nextLSN ==> Cut(c, h, next.(oldestLSN := h.nextLSN, active := [], sections := []), target, version))
  {
    hide Run, Keep, EpochsOrdered, EpochsAtMost, SectionsGood, ValidLeaf;
    SectionsLater(c, h.sections, h.writerEpoch, h.generation, h.writerEpoch, h.generation + 1);
    KeepExtremes(c, h, target);
    NoSections(c, 0, h.generation + 1, h.writerEpoch);
  }

  lemma RetentionAccepted(c: Config, src: PageSource, h: Head, before: nat, version: nat)
    requires WellFormed(c, h) && Spacious(c, h) && RetentionAccepts(c, h, before, version)
    ensures var m := ApplyRetention(c, src, h, before, version);
            && (m.Ok? ==> WellFormed(c, m.value.head) && Spacious(c, m.value.head) && Retained(h, m.value.head, Target(h, before), version))
            && (HeadStored(src, h) ==> m.Ok?)
  {
    hide WellFormed, Spacious, Retained, Cut, ReachableCount, ValidHead, FindSegment, TrimHead, Keep, Flat, HeadStored;
    var target := Target(h, before);
    var next := h.(generation := h.generation + 1, retentionLSN := target, retentionVersion := version);
    CutEdges(c, h, target, version);
    KeepExtremes(c, h, target);
    if target <= h.oldestLSN {
      CutDone(c, h, next, target, version);
    } else if target >= h.nextLSN {
      CutDone(c, h, next.(oldestLSN := h.nextLSN, active := [], sections := []), target, version);
    } else {
      FindSegmentRefines(c, src, h, target);
      RetainInside(c, src, h, next, target);
      var b := FindFlat(Flat(h), target).value.baseLSN;
      if b == h.oldestLSN {
        CutDone(c, h, next, target, version);
      } else if TrimHead(c, src, next, b).Ok? {
        var t := TrimHead(c, src, next, b).value.head;
        TrimmedIsCut(c, h, next, t, b, target, version);
        CutDone(c, h, t.(oldestLSN := b), target, version);
      }
    }
  }

  lemma TrimmedIsCut(c: Config, h: Head, next: Head, t: Head, b: nat, target: nat, version: nat)
    requires WellFormed(c, h)
    requires next == h.(generation := h.generation + 1, retentionLSN := target, retentionVersion := version)
    requires HeadTrimmed(c, next, t, target)
    requires Keep(ByLSN, Flat(h), target) != [] && Keep(ByLSN, Flat(h), target)[0].baseLSN == b
    ensures Cut(c, h, t.(oldestLSN := b), target, version)
  {
    hide Keep, SectionsGood, FlatRefs, SectionRefs, WellFormed;
    assert Flat(t.(oldestLSN := b)) == Flat(t) && Flat(next) == Flat(h);
  }

  /** Re-applying the policy already in force returns the head unchanged. */
  lemma ReapplyIsIdentity(c: Config, src: PageSource, h: Head)
    requires WellFormed(c, h) && h.retentionVersion > 0
    ensures ApplyRetention(c, src, h, h.retentionLSN, h.retentionVersion) == Ok(Mutation(h, []))
  {
    hide ValidHead, SectionsGood, Run;
    WellFormedValid(c, h);
  }
}
