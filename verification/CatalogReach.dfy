/** Which page objects a head keeps alive, and how each mutation changes that set. */
module CatalogReach {
  import opened CatalogTypes
  import opened CatalogFlat
  import opened CatalogTree
  import opened CatalogReader
  import opened CatalogRetention
  import opened CatalogListing

  ghost function ReachRef(r: IndexEntry): set<PageKey>
    decreases r, 1
  {
    {KeyOf(r)} + (match r.id.page case LeafPage(_, _) => {} case IndexPage(_, rs) => ReachRefs(rs))
  }

  ghost function ReachRefs(rs: seq<IndexEntry>): set<PageKey>
    decreases rs, 0
  {
    if rs == [] then {} else ReachRef(rs[0]) + ReachRefs(rs[1..])
  }

  /** The keys of every page object reachable from the head. */
  ghost function Reach(h: Head): set<PageKey> { ReachRefs(SectionRefs(h.sections)) }

  ghost function Keys(ps: seq<IndexEntry>): set<PageKey> { set p | p in ps :: KeyOf(p) }

  lemma {:induction false} ReachConcat(a: seq<IndexEntry>, b: seq<IndexEntry>)
    ensures ReachRefs(a + b) == ReachRefs(a) + ReachRefs(b)
  {
    if a == [] {
      assert a + b == b;
    } else {
      assert (a + b)[1..] == a[1..] + b && (a + b)[0] == a[0];
      ReachConcat(a[1..], b);
    }
  }

  lemma ReachOne(r: IndexEntry)
    ensures ReachRefs([r]) == ReachRef(r)
  {
    assert [r][1..] == [];
  }

  /** A key is reachable exactly when it is listed among the pages of its level. */
  lemma {:induction false} ReachIsListed(c: Config, r: IndexEntry, e: nat, key: PageKey)
    requires Good(c, r, e)
    ensures key in ReachRef(r) <==> HasKey(PagesUnder(r, key.level), key)
    decreases r, 1
  {
    hide HasKey;
    match r.id.page
    case LeafPage(_, _) =>
      HasKeyOne(r, key);
      HasKeyNone(key);
    case IndexPage(h, rs) =>
      ReachAllListed(c, rs, h.writerEpoch, r.level, key);
      HasKeyOne(r, key);
      HasKeyNone(key);
  }

  lemma HasKeyOne(r: IndexEntry, key: PageKey)
    ensures HasKey([r], key) <==> KeyOf(r) == key
  {
    assert [r][0] == r;
  }

  lemma HasKeyNone(key: PageKey)
    ensures !HasKey([], key)
  {
  }

  lemma {:induction false} ReachAllListed(c: Config, rs: seq<IndexEntry>, e: nat, top: nat, key: PageKey)
    requires AllGood(c, rs, e) && forall i :: 0 <= i < |rs| ==> rs[i].level < top
    ensures key in ReachRefs(rs) <==> HasKey(PagesIn(rs, key.level), key)
    ensures key in ReachRefs(rs) ==> key.level < top
    decreases rs, 0
  {
    hide Good, HasKey;
    HasKeyNone(key);
    if rs != [] {
      ReachIsListed(c, rs[0], e, key);
      if key in ReachRef(rs[0]) { ReachBelow(c, rs[0], e, key); }
      ReachAllListed(c, rs[1..], e, top, key);
      HasKeyConcat(PagesUnder(rs[0], key.level), PagesIn(rs[1..], key.level), key);
    }
  }

  lemma {:induction false} ReachBelow(c: Config, r: IndexEntry, e: nat, key: PageKey)
    requires Good(c, r, e) && key in ReachRef(r)
    ensures key.level <= r.level
    decreases r, 0
  {
    if key != KeyOf(r) {
      ReachBelowAll(c, r.id.page.refs, r.id.page.header.writerEpoch, r.level, key);
    }
  }

  lemma {:induction false} ReachBelowAll(c: Config, rs: seq<IndexEntry>, e: nat, top: nat, key: PageKey)
    requires AllGood(c, rs, e) && (forall i :: 0 <= i < |rs| ==> rs[i].level < top) && key in ReachRefs(rs)
    ensures key.level < top
    decreases rs, 0
  {
    hide Good;
    if key in ReachRef(rs[0]) {
      ReachBelow(c, rs[0], e, key);
    } else {
      ReachBelowAll(c, rs[1..], e, top, key);
    }
  }

  lemma ReachOfHead(c: Config, h: Head, key: PageKey)
    requires WellFormed(c, h)
    ensures key in Reach(h) <==> HasKey(PagesOf(h, key.level), key)
  {
    hide Good, HasKey, SectionRefs, WellFormed, ReachRefs, PagesIn;
    HeadRefsTile(c, h);
    ReachAllListed(c, SectionRefs(h.sections), h.writerEpoch, MAX_INDEX_LEVEL + 1, key);
  }

  /** Bounds of a reachable page: inside the retained range, and no newer than the head. */
  lemma {:induction false} ReachBounds(c: Config, r: IndexEntry, e: nat, key: PageKey)
    requires Good(c, r, e) && key in ReachRef(r)
    ensures r.seqLo <= key.seqLo <= key.seqHi <= r.seqHi && key.generation <= r.generation
    decreases r, 1
  {
    if key != KeyOf(r) {
      ReachAllBounds(c, r.id.page.refs, r.id.page.header.writerEpoch, r.generation, key);
    }
  }

  lemma {:induction false} ReachAllBounds(c: Config, rs: seq<IndexEntry>, e: nat, generation: nat, key: PageKey)
    requires AllGood(c, rs, e) && RefsTile(rs) && key in ReachRefs(rs) && forall i :: 0 <= i < |rs| ==> rs[i].generation <= generation
    ensures rs[0].seqLo <= key.seqLo <= key.seqHi <= rs[|rs|-1].seqHi && key.generation <= generation
    decreases rs, 0
  {
    hide Good;
    SpanOrder(c, rs, e);
    if key in ReachRef(rs[0]) {
      ReachBounds(c, rs[0], e, key);
    } else {
      TileTail(rs);
      ReachAllBounds(c, rs[1..], e, generation, key);
    }
  }

  lemma SpanOrder(c: Config, rs: seq<IndexEntry>, e: nat)
    requires AllGood(c, rs, e) && RefsTile(rs) && rs != []
    ensures rs[0].seqHi <= rs[|rs|-1].seqHi && rs[0].seqLo <= rs[|rs|-1].seqLo
    ensures |rs| > 1 ==> rs[0].seqLo <= rs[1].seqLo
  {
    assert Good(c, rs[0], e) && Good(c, rs[|rs|-1], e);
    if |rs| > 1 {
      RefsOrder(c, rs, e, 0, |rs| - 1);
      RefsOrder(c, rs, e, 0, 1);
    }
  }

  lemma ReachHeadBounds(c: Config, h: Head, key: PageKey)
    requires WellFormed(c, h) && key in Reach(h)
    ensures h.oldestLSN <= key.seqLo <= key.seqHi < h.nextLSN && key.generation <= h.generation
  {
    hide Good, SectionRefs, WellFormed, FlatRefs;
    HeadRefsTile(c, h);
    HeadRefsBounds(c, h);
    ReachAllBounds(c, SectionRefs(h.sections), h.writerEpoch, h.generation, key);
  }

  lemma HeadRefsBounds(c: Config, h: Head)
    requires WellFormed(c, h)
    ensures var rs := SectionRefs(h.sections);
            && (forall i :: 0 <= i < |rs| ==> rs[i].generation <= h.generation)
            && (rs != [] ==> h.oldestLSN == rs[0].seqLo && rs[|rs|-1].seqHi < h.nextLSN)
  {
    hide Good, Run, EpochsOrdered, EpochsAtMost, ValidLeaf, FlatRefs;
    var rs := SectionRefs(h.sections);
    SectionGenerations(c, h.sections, h.writerEpoch, h.generation);
    HeadRefsTile(c, h);
    RunParts(FlatRefs(rs), h.active);
    RunTiles(c, rs, h.writerEpoch);
    if rs != [] {
      var a := FlatRefs(rs);
      assert a != [] && a[0].baseLSN == rs[0].seqLo && a[|a|-1].lastLSN == rs[|rs|-1].seqHi;
      assert Flat(h)[0] == a[0];
      EndOfPages(h);
    }
  }

  lemma EndOfPages(h: Head)
    requires Run(Flat(h)) && FlatRefs(SectionRefs(h.sections)) != []
    ensures var a := FlatRefs(SectionRefs(h.sections)); a[|a|-1].lastLSN <= Flat(h)[|Flat(h)|-1].lastLSN
  {
    var a := FlatRefs(SectionRefs(h.sections));
    if h.active != [] {
      assert Flat(h)[|a|-1] == a[|a|-1];
      RunOrder(Flat(h), |a| - 1, |Flat(h)| - 1);
    }
  }

  lemma {:induction false} SectionGenerations(c: Config, ss: seq<seq<IndexEntry>>, epoch: nat, generation: nat)
    requires SectionsGood(c, ss, epoch, generation)
    ensures forall i :: 0 <= i < |SectionRefs(ss)| ==> SectionRefs(ss)[i].generation <= generation
  {
    hide Good;
    if ss != [] {
      var n := |ss| - 1;
      SectionGenerations(c, ss[..n], epoch, generation);
      assert LevelGood(c, ss[n], n, epoch, generation);
    }
  }

  // ---- Reach after a push ----

  ghost predicate AllOf(ps: seq<IndexEntry>, generation: nat) { forall i :: 0 <= i < |ps| ==> ps[i].generation == generation }

  lemma {:induction false} PushReach(c: Config, generation: nat, epoch: nat, ss: seq<seq<IndexEntry>>, level: nat, ref: IndexEntry, pages: seq<IndexEntry>)
    requires Push(c, generation, epoch, ss, level, ref, pages).Ok? && AllOf(pages, generation)
    requires forall k :: 0 <= k < level - 1 && k < |ss| ==> ss[k] == []
    ensures var (ss', pages') := Push(c, generation, epoch, ss, level, ref, pages).value;
            && ReachRefs(SectionRefs(ss')) <= ReachRefs(SectionRefs(ss)) + ReachRef(ref) + Keys(pages')
            && AllOf(pages', generation) && Keys(pages) <= Keys(pages')
    decreases MAX_OPEN_INDEX_LEVEL + 1 - level
  {
    hide ReachRefs, ReachRef, SectionRefs, ValidPage;
    var ext := Extend(ss, level);
    var entries := ext[level-1] + [ref];
    PushedReach(ss, level, ref);
    if |entries| >= c.indexLimit {
      var parent := SealIndex(c, generation, epoch, level, entries).value;
      SealedReach(c, generation, epoch, level, entries);
      LowerEmpty(ss, level);
      PushReach(c, generation, epoch, ext[level-1 := []], level + 1, parent, pages + [parent]);
      KeysSnoc(pages, parent);
    }
  }

  lemma KeysSnoc(ps: seq<IndexEntry>, p: IndexEntry)
    ensures Keys(ps + [p]) == Keys(ps) + {KeyOf(p)}
  {
    assert forall q :: q in ps + [p] <==> q in ps || q == p;
  }

  lemma LowerEmpty(ss: seq<seq<IndexEntry>>, level: nat)
    requires 1 <= level && forall k :: 0 <= k < level - 1 && k < |ss| ==> ss[k] == []
    ensures var cleared := Extend(ss, level)[level-1 := []]; forall k :: 0 <= k < level ==> cleared[k] == []
  {
    var ext := Extend(ss, level);
    forall k | 0 <= k < level - 1 ensures ext[k] == [] {
      if k < |ss| { assert ext[k] == ext[..|ss|][k]; }
    }
  }

  lemma SealedReach(c: Config, generation: nat, epoch: nat, level: nat, rs: seq<IndexEntry>)
    requires rs != [] && SealIndex(c, generation, epoch, level, rs).Ok?
    ensures var r := SealIndex(c, generation, epoch, level, rs).value;
            ReachRef(r) == {KeyOf(r)} + ReachRefs(rs) && r.generation == generation
  {
  }

  lemma PushedReach(ss: seq<seq<IndexEntry>>, level: nat, ref: IndexEntry)
    requires 1 <= level && forall k :: 0 <= k < level - 1 && k < |ss| ==> ss[k] == []
    ensures var ext := Extend(ss, level);
            var entries := ext[level-1] + [ref];
            && ReachRefs(SectionRefs(ext[level-1 := entries])) == ReachRefs(SectionRefs(ss)) + ReachRef(ref)
            && ReachRefs(SectionRefs(ext[level-1 := []])) + ReachRefs(entries) == ReachRefs(SectionRefs(ss)) + ReachRef(ref)
  {
    hide ReachRefs, ReachRef, SectionRefs;
    var ext := Extend(ss, level);
    var prior := ext[level-1];
    var upper := SectionRefs(ext[level..]);
    LowerEmpty(ss, level);
    forall k | 0 <= k < level - 1 ensures ext[k] == [] { assert ext[level-1 := []][k] == []; }
    SectionRefsExtend(ss, level);
    SectionRefsAt(ext, level - 1, prior);
    assert ext[level-1 := prior] == ext;
    SectionRefsAt(ext, level - 1, prior + [ref]);
    SectionRefsAt(ext, level - 1, []);
    assert upper + [] == upper;
    ReachConcat(upper, prior + [ref]);
    ReachConcat(upper, prior);
    ReachConcat(prior, [ref]);
    ReachOne(ref);
  }

  /** An append adds to the reachable set only the pages it writes, all of the new generation. */
  lemma AppendReach(c: Config, h: Head, e: LeafEntry)
    requires Append(c, h, e).Ok?
    ensures var m := Append(c, h, e).value;
            && Reach(m.head) <= Reach(h) + Keys(m.pages) && AllOf(m.pages, m.head.generation)
  {
    hide ReachRefs, ReachRef, SectionRefs, ValidHead, ValidPage, Push;
    if |h.active| + 1 == c.leafLimit {
      var leaf := SealLeaf(c, h.generation + 1, h.writerEpoch, h.active + [e]).value;
      PushReach(c, h.generation + 1, h.writerEpoch, h.sections, 1, leaf, [leaf]);
      LeafReach(c, h.generation + 1, h.writerEpoch, h.active + [e]);
      assert KeyOf(leaf) in Keys([leaf]) by { assert leaf in [leaf]; }
    }
  }

  lemma LeafReach(c: Config, generation: nat, epoch: nat, es: seq<LeafEntry>)
    requires es != [] && SealLeaf(c, generation, epoch, es).Ok?
    ensures var r := SealLeaf(c, generation, epoch, es).value; ReachRef(r) == {KeyOf(r)} && r.generation == generation
  {
  }

  // ---- Reach after a trim ----

  lemma {:induction false} TrimReach(c: Config, src: PageSource, r: IndexEntry, eff: nat, generation: nat, epoch: nat)
    requires TrimRef(c, src, r, eff, generation, epoch).Ok?
    ensures var (t, objects) := TrimRef(c, src, r, eff, generation, epoch).value;
            ReachRef(t) <= ReachRef(r) + Keys(objects) && AllOf(objects, generation)
    decreases r.level, 1
  {
    hide ReachRefs, ValidPage, LowerBound, Load;
    if eff > r.seqLo {
      var p := Load(c, src, r, epoch).value;
      if p.LeafPage? {
        var start := LowerBound(LeafKeys(ByLSN, p.leaves), eff);
        LeafReach(c, generation, epoch, p.leaves[start..]);
        var t := SealLeaf(c, generation, epoch, p.leaves[start..]).value;
        assert t in [t];
      } else {
        PageLevels(p, r.level);
        TrimAllReach(c, src, p.refs, r.level, eff, generation, epoch);
        var (entries, objects) := TrimEntries(c, src, p.refs, eff, generation, epoch).value;
        SealedReach(c, generation, epoch, r.level, entries);
        KeysSnoc(objects, SealIndex(c, generation, epoch, r.level, entries).value);
      }
    }
  }

  lemma PageLevels(p: Page, level: nat)
    requires p.IndexPage? && ValidPage(p) && p.header.level == level
    ensures forall i :: 0 <= i < |p.refs| ==> p.refs[i].level < level
  {
  }

  lemma {:induction false} TrimAllReach(c: Config, src: PageSource, rs: seq<IndexEntry>, top: nat, eff: nat, generation: nat, epoch: nat)
    requires TrimEntries(c, src, rs, eff, generation, epoch).Ok? && forall i :: 0 <= i < |rs| ==> rs[i].level < top
    ensures var (ts, objects) := TrimEntries(c, src, rs, eff, generation, epoch).value;
            ReachRefs(ts) <= ReachRefs(rs) + Keys(objects) && AllOf(objects, generation)
    decreases top, 0
  {
    hide ReachRef, TrimRef, LowerBound;
    var i := LowerBound(RefKeys(ByLSN, rs), eff);
    if i < |rs| {
      TrimReach(c, src, rs[i], eff, generation, epoch);
      var t := TrimRef(c, src, rs[i], eff, generation, epoch).value.0;
      ReachConcat([t], rs[i+1..]);
      ReachOne(t);
      ReachSplit(rs, i);
    }
  }

  lemma ReachSplit(rs: seq<IndexEntry>, i: nat)
    requires i < |rs|
    ensures ReachRef(rs[i]) + ReachRefs(rs[i+1..]) <= ReachRefs(rs)
  {
    hide ReachRefs, ReachRef;
    assert rs == rs[..i] + ([rs[i]] + rs[i+1..]);
    ReachConcat(rs[..i], [rs[i]] + rs[i+1..]);
    ReachConcat([rs[i]], rs[i+1..]);
    ReachOne(rs[i]);
  }

  lemma {:induction false} TrimSectionsReach(c: Config, src: PageSource, ss: seq<seq<IndexEntry>>, eff: nat, generation: nat, epoch: nat)
    requires TrimSections(c, src, ss, eff, generation, epoch).Ok?
    ensures var (ts, pages) := TrimSections(c, src, ss, eff, generation, epoch).value;
            ReachRefs(SectionRefs(ts)) <= ReachRefs(SectionRefs(ss)) + Keys(pages) && AllOf(pages, generation)
  {
    hide ReachRefs, ReachRef, TrimEntries;
    if ss == [] {
      assert SectionRefs([]) == [];
    } else {
      var n := |ss| - 1;
      TrimSectionsReach(c, src, ss[..n], eff, generation, epoch);
      var (front, pages) := TrimSections(c, src, ss[..n], eff, generation, epoch).value;
      TrimAllReach(c, src, ss[n], MaxLevel(ss[n]), eff, generation, epoch);
      var (top, objects) := TrimEntries(c, src, ss[n], eff, generation, epoch).value;
      SectionRefsSnoc(front, top);
      ReachConcat(top, SectionRefs(front));
      ReachConcat(ss[n], SectionRefs(ss[..n]));
      KeysConcat(pages, objects);
    }
  }

  ghost function MaxLevel(rs: seq<IndexEntry>): (m: nat)
    ensures forall i :: 0 <= i < |rs| ==> rs[i].level < m
  {
    if rs == [] then 0
    else
      var m := MaxLevel(rs[1..]);
      if rs[0].level < m then m else rs[0].level + 1
  }

  lemma KeysConcat(a: seq<IndexEntry>, b: seq<IndexEntry>)
    ensures Keys(a + b) == Keys(a) + Keys(b)
  {
    assert forall q :: q in a + b <==> q in a || q in b;
  }

  lemma {:induction false} DropTrailingRefs(ss: seq<seq<IndexEntry>>)
    ensures SectionRefs(DropTrailing(ss)) == SectionRefs(ss)
  {
    if ss != [] && ss[|ss|-1] == [] { DropTrailingRefs(ss[..|ss|-1]); }
  }

  /** A retention likewise: everything new carries the new generation. */
  lemma RetentionReach(c: Config, src: PageSource, h: Head, before: nat, version: nat)
    requires ApplyRetention(c, src, h, before, version).Ok?
    ensures var m := ApplyRetention(c, src, h, before, version).value;
            Reach(m.head) <= Reach(h) + Keys(m.pages) && AllOf(m.pages, m.head.generation)
  {
    hide ReachRefs, TrimSections, ValidHead, FindSegment, Roots, LowerBound, ReachableCount, DropTrailing;
    var next := h.(generation := h.generation + 1, retentionLSN := Target(h, before), retentionVersion := version);
    var found := FindSegment(c, src, h, Target(h, before));
    assert SectionRefs([]) == [] && ReachRefs([]) == {} by { EmptyReach(); }
    if found.Ok? && found.value.Some? && TrimHead(c, src, next, found.value.value.baseLSN).Ok? {
      var eff := found.value.value.baseLSN;
      TrimSectionsReach(c, src, h.sections, eff, next.generation, next.writerEpoch);
      DropTrailingRefs(TrimSections(c, src, h.sections, eff, next.generation, next.writerEpoch).value.0);
    }
  }

  lemma EmptyReach()
    ensures SectionRefs([]) == [] && ReachRefs([]) == {}
  {
  }

  // ---- Storage ----

  /** A store that answers every reachable key serves every read of the head. */
  lemma {:induction false} StoredByKeys(src: PageSource, r: IndexEntry)
    requires forall k :: k in ReachRef(r) ==> src(k) == Some(k.id.page)
    ensures Stored(src, r)
    decreases r, 1
  {
    assert KeyOf(r) in ReachRef(r);
    if r.id.page.IndexPage? {
      var rs := r.id.page.refs;
      forall i | 0 <= i < |rs| ensures Stored(src, rs[i]) {
        ReachSplit(rs, i);
        StoredByKeys(src, rs[i]);
      }
    }
  }

  lemma HeadStoredByKeys(src: PageSource, h: Head)
    requires forall k :: k in Reach(h) ==> src(k) == Some(k.id.page)
    ensures HeadStored(src, h)
  {
    hide ReachRefs, ReachRef, Stored;
    var rs := SectionRefs(h.sections);
    forall i | 0 <= i < |rs| ensures Stored(src, rs[i]) {
      ReachSplit(rs, i);
      StoredByKeys(src, rs[i]);
    }
  }
}
