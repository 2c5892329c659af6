/** The in-place form of the head edits: a cloned head whose sections, inline run and list of new pages
    are updated step by step, proved against the value functions. */
module CatalogEditor {
  import opened CatalogTypes
  import opened CatalogFlat
  import Tree = CatalogTree
  import opened CatalogReader
  import Retention = CatalogRetention
  import opened CatalogListing

  class HeadEditor {
    const c: Config
    const generation: nat
    const epoch: nat
    var sections: seq<seq<IndexEntry>>
    var active: seq<LeafEntry>
    var pages: seq<IndexEntry>

    constructor (c: Config, h: Head)
      ensures this.c == c && this.generation == h.generation && this.epoch == h.writerEpoch
      ensures sections == h.sections && active == h.active && pages == []
    {
      this.c, this.generation, this.epoch := c, h.generation, h.writerEpoch;
      sections, active, pages := h.sections, h.active, [];
    }

    /** Pushes a sealed page, growing the section list as needed and carrying full sections upwards. */
    method Push(level: nat, ref: IndexEntry) returns (res: Result<bool>)
      modifies this
      ensures active == old(active)
      ensures match Tree.Push(c, generation, epoch, old(sections), level, ref, old(pages))
              case Ok(r) => res.Ok? && sections == r.0 && pages == r.1
              case Err(e) => res == Err(e)
      decreases MAX_OPEN_INDEX_LEVEL + 1 - level
    {
      if level == 0 || level > MAX_OPEN_INDEX_LEVEL {
        return Err(IndexFull);
      }
      while |sections| < level
        invariant active == old(active) && pages == old(pages)
        invariant Tree.Extend(sections, level) == Tree.Extend(old(sections), level)
        decreases level - |sections|
      {
        sections := sections + [[]];
      }
      if level == MAX_OPEN_INDEX_LEVEL && |sections[level-1]| + 1 >= c.indexLimit {
        return Err(IndexFull);
      }
      sections := sections[level-1 := sections[level-1] + [ref]];
      if |sections[level-1]| < c.indexLimit {
        return Ok(true);
      }
      var parent :- Tree.SealIndex(c, generation, epoch, level, sections[level-1]);
      pages := pages + [parent];
      sections := sections[level-1 := []];
      assert sections == Tree.Extend(old(sections), level)[level-1 := []];
      res := Push(level + 1, parent);
    }

    /** Cuts the sections and the inline run at eff, writing the pages of the left spine. */
    method TrimHead(src: PageSource, h: Head, eff: nat) returns (res: Result<bool>)
      requires sections == h.sections && active == h.active && pages == [] && c == h.config
      requires generation == h.generation && epoch == h.writerEpoch
      requires Retention.CanTrim(c, h, eff)
      modifies this
      ensures match Retention.TrimHead(c, src, h, eff)
              case Ok(m) => res.Ok? && sections == m.head.sections && active == m.head.active && pages == m.pages
              case Err(e) => res.Err?
    {
      hide Good, Run, Retention.TrimSections, Tree.SectionsGood, FlatRefs, SectionRefs, Retention.Boundary, LowerBound, Retention.DropTrailing, Roots;
      var _ :- TrimSections(src, h, eff);
      DropTrailing();
      ActiveRun(h);
      LeafKeysAscend(ByLSN, h.active);
      var start := Search(LeafKeys(ByLSN, active), eff);
      active := active[start..];
      var roots := HeadRoots(h.(sections := sections, active := active));
      if roots == [] || roots[0].Lo() != eff {
        return Err(Corrupt);
      }
      return Ok(true);
    }

    method TrimSections(src: PageSource, h: Head, eff: nat) returns (res: Result<bool>)
      requires sections == h.sections && pages == [] && c == h.config
      requires generation == h.generation && epoch == h.writerEpoch
      requires Tree.Shape(c, h) && Run(Flat(h))
      modifies this`sections, this`pages
      ensures match Retention.TrimSections(c, src, h.sections, eff, generation, epoch)
              case Ok(r) => res.Ok? && sections == r.0 && pages == r.1
              case Err(e) => res.Err?
    {
      hide Good, Run, Retention.TrimEntries, Tree.SectionsGood, FlatRefs;
      var i := 0;
      while i < |h.sections|
        invariant 0 <= i <= |h.sections| && |sections| == |h.sections|
        invariant sections[i..] == h.sections[i..]
        invariant Retention.TrimSections(c, src, h.sections[..i], eff, generation, epoch) == Ok((sections[..i], pages))
      {
        assert h.sections[..i+1][..i] == h.sections[..i] && h.sections[..i+1][i] == sections[i];
        TrimFails(src, h.sections, i + 1, eff);
        var entries :- TrimEntries(src, h, i, eff);
        sections := sections[i := entries];
        i := i + 1;
        assert sections[..i] == sections[..i-1] + [entries];
      }
      assert h.sections[..i] == h.sections && sections[..i] == sections;
      return Ok(true);
    }

    method DropTrailing()
      modifies this`sections
      ensures sections == Retention.DropTrailing(old(sections))
    {
      while |sections| > 0 && sections[|sections|-1] == []
        invariant Retention.DropTrailing(sections) == Retention.DropTrailing(old(sections))
        decreases |sections|
      {
        sections := sections[..|sections|-1];
      }
    }

    lemma {:induction false} TrimFails(src: PageSource, ss: seq<seq<IndexEntry>>, k: nat, eff: nat)
      requires k <= |ss|
      ensures Retention.TrimSections(c, src, ss[..k], eff, generation, epoch).Err? ==>
                Retention.TrimSections(c, src, ss, eff, generation, epoch).Err?
      decreases |ss|
    {
      hide Retention.TrimEntries;
      if k == |ss| {
        assert ss[..k] == ss;
      } else {
        assert ss[..|ss|-1][..k] == ss[..k];
        TrimFails(src, ss[..|ss|-1], k, eff);
      }
    }

    method TrimEntries(src: PageSource, h: Head, i: nat, eff: nat) returns (res: Result<seq<IndexEntry>>)
      requires i < |h.sections| == |sections| && sections[i] == h.sections[i] && c == h.config && epoch == h.writerEpoch
      requires Tree.Shape(c, h) && Run(Flat(h))
      modifies this`pages
      ensures match Retention.TrimEntries(c, src, sections[i], eff, generation, epoch)
              case Ok(r) => res == Ok(r.0) && pages == old(pages) + r.1
              case Err(e) => res == Err(e) && pages == old(pages)
    {
      hide Good, Run, Retention.TrimRef, FlatRefs, Tree.SectionsGood;
      var entries := sections[i];
      SectionTiles(h, i);
      RefKeysAscend(c, entries, epoch);
      var start := Search(RefKeys(ByLSN, entries), eff);
      if start == |entries| {
        return Ok([]);
      }
      var trim :- Retention.TrimRef(c, src, entries[start], eff, generation, epoch);
      pages := pages + trim.1;
      return Ok([trim.0] + entries[start+1..]);
    }

    lemma ActiveRun(h: Head)
      requires Run(Flat(h))
      ensures Run(h.active)
    {
      RunParts(FlatRefs(SectionRefs(h.sections)), h.active);
    }

    lemma SectionTiles(h: Head, i: nat)
      requires c == h.config && i < |h.sections| && Tree.Shape(c, h) && Run(Flat(h))
      ensures AllGood(c, h.sections[i], h.writerEpoch) && RefsTile(h.sections[i])
    {
      hide Good, Run, FlatRefs;
      RunParts(FlatRefs(SectionRefs(h.sections)), h.active);
      SectionRun(h.sections, i);
      assert Tree.LevelGood(c, h.sections[i], i, h.writerEpoch, h.generation);
      RunTiles(c, h.sections[i], h.writerEpoch);
    }

    lemma {:induction false} SectionRun(ss: seq<seq<IndexEntry>>, i: nat)
      requires i < |ss| && Run(FlatRefs(SectionRefs(ss)))
      ensures Run(FlatRefs(ss[i]))
      decreases |ss|
    {
      hide Run, FlatRefs;
      var n := |ss| - 1;
      FlatRefsConcat(ss[n], SectionRefs(ss[..n]));
      RunParts(FlatRefs(ss[n]), FlatRefs(SectionRefs(ss[..n])));
      if i < n { SectionRun(ss[..n], i); }
    }
  }

  /** The recount after a trim. Each partial sum stays within 64 bits, so the overflow panic is dead code. */
  method ReachableSegmentCount(h: Head) returns (count: nat)
    requires Tree.Shape(h.config, h) && Run(Flat(h))
    ensures count == |Flat(h)| <= MAX_U64
  {
    hide Good, Run, FlatRefs, Tree.SectionsGood;
    Retention.CountReachable(h.config, h);
    BoundedRun(Flat(h));
    count := 0;
    var i := 0;
    assert h.sections[i..] == h.sections;
    while i < |h.sections|
      invariant 0 <= i <= |h.sections|
      invariant count + SumCounts(SectionRefs(h.sections[i..])) == SumCounts(SectionRefs(h.sections))
    {
      var entries := h.sections[i];
      FirstSection(h.sections, i);
      SumCountsConcat(SectionRefs(h.sections[i+1..]), entries);
      ghost var before := count;
      var j := 0;
      while j < |entries|
        invariant 0 <= j <= |entries|
        invariant count + SumCounts(entries[j..]) == before + SumCounts(entries)
      {
        assert entries[j..][1..] == entries[j+1..];
        assert MAX_U64 - count >= entries[j].segmentCount;
        count := count + entries[j].segmentCount;
        j := j + 1;
      }
      i := i + 1;
    }
    assert MAX_U64 - count >= |h.active|;
    count := count + |h.active|;
  }

  lemma FirstSection(ss: seq<seq<IndexEntry>>, i: nat)
    requires i < |ss|
    ensures SectionRefs(ss[i..]) == SectionRefs(ss[i+1..]) + ss[i]
  {
    assert ss[i..] == [ss[i]] + ss[i+1..];
    Tree.SectionRefsConcat([ss[i]], ss[i+1..]);
    assert [ss[i]][..0] == [];
    assert SectionRefs([ss[i]]) == ss[i] + SectionRefs([]);
  }

  lemma BoundedRun(f: seq<LeafEntry>)
    requires Run(f)
    ensures |f| <= MAX_U64
  {
    if f != [] { RunSpan(f); }
  }
}
