/** Orphan scrubbing: which of the objects found in the store one durable head refers to, paged over several head loads. */
module GcScrub {
  import opened CatalogTypes
  import opened CatalogFlat
  import opened CatalogReader
  import opened CatalogListing
  import opened CatalogReach
  import M = CatalogMemory
  import opened CatalogHistory
  import opened GcSafety
  import Tree = CatalogTree
  import S = GcState
  import P = Protocol

  // ---- Paging a listing against a set of objects ----

  /** Between positions lo and hi of a list, exactly the wanted keys have been found. */
  ghost predicate Covers<K>(ks: seq<K>, lo: nat, hi: nat, wanted: set<K>, found: set<K>) {
    && hi <= |ks|
    && (forall k :: k in found ==> k in wanted && k in ks)
    && (forall i :: lo <= i < hi && ks[i] in wanted ==> ks[i] in found)
  }

  ghost function SegmentKeys(f: seq<LeafEntry>): (ks: seq<SegmentKey>)
    ensures |ks| == |f|
  {
    seq(|f|, i requires 0 <= i < |f| => SegmentKeyOf(f[i]))
  }

  ghost function PageKeys(ps: seq<IndexEntry>): (ks: seq<PageKey>)
    ensures |ks| == |ps|
  {
    seq(|ps|, i requires 0 <= i < |ps| => KeyOf(ps[i]))
  }

  /** One page of items at positions n on: keeps those that are wanted. */
  method MatchSegments(ghost f: seq<LeafEntry>, ghost lo: nat, ghost n: nat, items: seq<LeafEntry>, wanted: set<SegmentKey>, through: nat, before: set<SegmentKey>)
    returns (found: set<SegmentKey>)
    requires n + |items| <= |f| && items == f[n..n+|items|] && Laid(SegmentSpan(), items) && forall k :: k in wanted ==> k.baseLSN <= through
    requires Covers(SegmentKeys(f), lo, n, wanted, before)
    ensures Covers(SegmentKeys(f), lo, n + |items|, wanted, found)
  {
    hide Covers;
    found := before;
    var i := 0;
    while i < |items|
      invariant 0 <= i <= |items| && before <= found
      invariant forall k :: k in found ==> k in before || (k in wanted && k in SegmentKeys(items))
      invariant forall j :: 0 <= j < i && SegmentKeyOf(items[j]) in wanted ==> SegmentKeyOf(items[j]) in found
    {
      if items[i].baseLSN > through {
        forall j | i <= j < |items| ensures SegmentKeyOf(items[j]) !in wanted { AscendingBase(items, i, j); }
        break;
      }
      if SegmentKeyOf(items[i]) in wanted {
        assert SegmentKeys(items)[i] == SegmentKeyOf(items[i]);
        found := found + {SegmentKeyOf(items[i])};
      }
      i := i + 1;
    }
    Covered(SegmentKeys(f), lo, n, SegmentKeys(items), wanted, before, found);
  }

  lemma AscendingBase(items: seq<LeafEntry>, i: nat, j: nat)
    requires Laid(SegmentSpan(), items) && i <= j < |items|
    ensures items[i].baseLSN <= items[j].baseLSN
  {
    var sp := SegmentSpan();
    if i < j { assert sp.lo(items[i]) <= sp.hi(items[i]) < sp.lo(items[j]); }
  }

  /** Heads of one generation hold the same log and the same pages. */
  ghost predicate Consistent(c: Config, heads: seq<Head>) {
    && (forall i :: 0 <= i < |heads| ==> heads[i].config == c && M.Sound(c, heads[i]))
    && (forall i, j :: 0 <= i < |heads| && 0 <= j < |heads| && heads[i].generation == heads[j].generation ==>
          Flat(heads[i]) == Flat(heads[j]) && forall level :: PagesOf(heads[i], level) == PagesOf(heads[j], level))
  }

  /** No writer changes the head between the calls, and every page it refers to can be read. */
  ghost predicate Steady(src: PageSource, heads: seq<Head>) {
    forall i :: 0 <= i < |heads| ==> heads[i].generation == heads[0].generation && HeadStored(src, heads[i])
  }

  function MinBase(ks: seq<SegmentKey>): (m: nat)
    requires ks != []
    ensures forall i :: 0 <= i < |ks| ==> m <= ks[i].baseLSN
  {
    if |ks| == 1 then ks[0].baseLSN
    else
      var m := MinBase(ks[1..]);
      assert forall i :: 1 <= i < |ks| ==> ks[i] == ks[1..][i-1];
      if ks[0].baseLSN < m then ks[0].baseLSN else m
  }

  function MaxBase(ks: seq<SegmentKey>): (m: nat)
    requires ks != []
    ensures forall i :: 0 <= i < |ks| ==> ks[i].baseLSN <= m
  {
    if |ks| == 1 then ks[0].baseLSN
    else
      var m := MaxBase(ks[1..]);
      assert forall i :: 1 <= i < |ks| ==> ks[i] == ks[1..][i-1];
      if ks[0].baseLSN > m then ks[0].baseLSN else m
  }

  function SetOf<K(==)>(ks: seq<K>): set<K> { set k | k in ks }

  /** Which of these segment objects the log refers to. heads are what the successive catalog calls load; a change of
      generation between two of them is an error, so the answer is about one head, the first. */
  method ReferencedSegments(c: Config, src: PageSource, heads: seq<Head>, objects: seq<SegmentKey>)
    returns (r: Result<(Head, set<SegmentKey>)>)
    requires objects != [] && Consistent(c, heads)
    ensures r.Ok? ==> heads != [] && r.value.0 == heads[0] && forall key :: key in objects ==> (key in r.value.1 <==> Referenced(heads[0], key))
    ensures heads != [] && Steady(src, heads) && |heads| * MAX_LIMIT >= |Flat(heads[0])| ==> r.Ok?
  {
    hide Flat, M.Sound, Tree.WellFormed, Slice, Laid, FirstFrom, Covers, SegmentKeys, Consistent, Referenced, HeadStored;
    var from, through, wanted := MinBase(objects), MaxBase(objects), SetOf(objects);
    var next, k, found := from, 0, {};
    ghost var f := if heads == [] then [] else Flat(heads[0]);
    if heads == [] { return Err(NotFound); }
    SameLog(c, heads, 0);
    NothingCovered(SegmentKeys(f), FirstFrom(SegmentSpan(), f, from), wanted);
    while true
      invariant 0 <= k <= |heads| && next >= from
      invariant Covers(SegmentKeys(f), FirstFrom(SegmentSpan(), f, from), FirstFrom(SegmentSpan(), f, next), wanted, found)
      invariant k * MAX_LIMIT <= FirstFrom(SegmentSpan(), f, next) && (k > 0 ==> k * MAX_LIMIT < |f|)
      decreases |heads| - k
    {
      if k == |heads| { return Err(NotFound); }
      SameLog(c, heads, k);
      var page :- ListSegments(c, src, heads[k], next, MAX_LIMIT);
      if heads[k].generation != heads[0].generation { return Err(Conflict); }
      SliceCovers(SegmentSpan(), f, next, page);
      found := MatchSegments(f, FirstFrom(SegmentSpan(), f, from), FirstFrom(SegmentSpan(), f, next), page.items, wanted, through, found);
      if !page.more || page.next > through {
        SegmentsResolved(heads[0], from, through, next, page, objects, found);
        return Ok((heads[0], found));
      }
      assert page.next > next;
      next := page.next;
      k := k + 1;
    }
  }

  lemma NothingCovered<K>(ks: seq<K>, lo: nat, wanted: set<K>)
    requires lo <= |ks|
    ensures Covers(ks, lo, lo, wanted, {})
  {
  }

  lemma SameLog(c: Config, heads: seq<Head>, k: nat)
    requires Consistent(c, heads) && k < |heads|
    ensures heads[k].config == c && Tree.WellFormed(c, heads[k]) && Laid(SegmentSpan(), Flat(heads[k]))
    ensures heads[k].generation == heads[0].generation ==> Flat(heads[k]) == Flat(heads[0])
  {
    hide Flat, M.Sound, Laid;
    WholeHead(c, heads[k]);
    FlatLaid(c, heads[k]);
  }

  lemma WholeHead(c: Config, h: Head)
    requires M.Sound(c, h)
    ensures Tree.WellFormed(c, h)
  {
  }

  lemma FlatLaid(c: Config, h: Head)
    requires M.Sound(c, h)
    ensures Laid(SegmentSpan(), Flat(h))
  {
    hide Flat, Laid;
    P.SoundRun(c, h);
    LeavesLaid(Flat(h));
  }

  /** One page of a listing, as a range of positions. */
  lemma SliceCovers<T>(sp: Span<T>, s: seq<T>, next: nat, page: Listing<T>)
    requires Laid(sp, s) && page == Slice(sp, s, next, MAX_LIMIT)
    ensures var n := FirstFrom(sp, s, next);
            && n + |page.items| <= |s| && page.items == s[n..n+|page.items|] && Laid(sp, page.items)
            && (page.more ==> page.next > next && FirstFrom(sp, s, page.next) == n + |page.items|)
            && (!page.more ==> n + |page.items| == |s|)
            && (page.more ==> n + |page.items| < |s| && |page.items| == MAX_LIMIT && page.next == sp.lo(s[n + |page.items|]))
  {
    hide Laid, FirstFrom;
    var n := FirstFrom(sp, s, next);
    SliceRange(sp, s, next, page);
    LaidRange(sp, s, n, n + |page.items|);
    if page.more { SliceContinues(sp, s, next, MAX_LIMIT); }
  }

  lemma SliceRange<T>(sp: Span<T>, s: seq<T>, next: nat, page: Listing<T>)
    requires page == Slice(sp, s, next, MAX_LIMIT)
    ensures var n := FirstFrom(sp, s, next);
            && n + |page.items| <= |s| && page.items == s[n..n+|page.items|] && (!page.more ==> n + |page.items| == |s|)
            && (page.more ==> n + |page.items| < |s| && |page.items| == MAX_LIMIT && page.next == sp.lo(s[n + |page.items|]))
  {
    hide FirstFrom;
    var n := FirstFrom(sp, s, next);
    var kept := s[n..];
    if |kept| <= MAX_LIMIT { assert page.items == s[n..|s|]; } else {
      assert page.items == s[n..n+MAX_LIMIT] && kept[MAX_LIMIT] == s[n + MAX_LIMIT];
    }
  }

  lemma LaidRange<T>(sp: Span<T>, s: seq<T>, a: nat, b: nat)
    requires Laid(sp, s) && a <= b <= |s|
    ensures Laid(sp, s[a..b])
  {
    var t := s[a..b];
    forall i, j | 0 <= i < j < |t| ensures sp.hi(t[i]) < sp.lo(t[j]) { assert t[i] == s[a+i] && t[j] == s[a+j]; }
  }

  /** After one page, covering positions n on, the wanted keys found reach to its end. */
  lemma Covered<K>(ks: seq<K>, lo: nat, n: nat, items: seq<K>, wanted: set<K>, found: set<K>, more: set<K>)
    requires n + |items| <= |ks| && items == ks[n..n+|items|] && Covers(ks, lo, n, wanted, found)
    requires found <= more && (forall k :: k in more ==> k in found || (k in wanted && k in items))
    requires forall i :: 0 <= i < |items| && items[i] in wanted ==> items[i] in more
    ensures Covers(ks, lo, n + |items|, wanted, more)
  {
    forall k | k in more ensures k in wanted && k in ks {
      if k !in found {
        var i :| 0 <= i < |items| && items[i] == k;
        assert ks[n+i] == k;
      }
    }
    forall i | lo <= i < n + |items| && ks[i] in wanted ensures ks[i] in more {
      if i >= n { assert items[i-n] == ks[i]; }
    }
  }

  /** Items before the range end too early to be wanted, items behind it begin too late. */
  lemma AllCovered<T, K>(sp: Span<T>, s: seq<T>, ks: seq<K>, from: nat, through: nat, end: nat, wanted: set<K>, found: set<K>)
    requires Laid(sp, s) && |ks| == |s| && Covers(ks, FirstFrom(sp, s, from), end, wanted, found)
    requires end == |s| || (end < |s| && sp.lo(s[end]) > through)
    requires forall i :: 0 <= i < |s| && ks[i] in wanted ==> from <= sp.lo(s[i]) <= through
    ensures Covers(ks, 0, |ks|, wanted, found)
  {
    forall i | end <= i < |s| ensures sp.lo(s[i]) > through {
      if i > end { assert sp.lo(s[end]) <= sp.hi(s[end]) < sp.lo(s[i]); }
    }
    forall i | 0 <= i < |s| && ks[i] in wanted ensures ks[i] in found {
      assert sp.lo(s[i]) <= sp.hi(s[i]);
    }
  }

  /** At the last page, what was found is what the log refers to. */
  lemma SegmentsResolved(h: Head, from: nat, through: nat, next: nat, page: Listing<LeafEntry>, objects: seq<SegmentKey>, found: set<SegmentKey>)
    requires Laid(SegmentSpan(), Flat(h)) && page == Slice(SegmentSpan(), Flat(h), next, MAX_LIMIT) && (!page.more || page.next > through)
    requires forall i :: 0 <= i < |objects| ==> from <= objects[i].baseLSN <= through
    requires Covers(SegmentKeys(Flat(h)), FirstFrom(SegmentSpan(), Flat(h), from), FirstFrom(SegmentSpan(), Flat(h), next) + |page.items|, SetOf(objects), found)
    ensures forall key :: key in objects ==> (key in found <==> Referenced(h, key))
  {
    hide Flat, Slice, Laid, FirstFrom, Covers, SegmentKeys, Referenced;
    var f := Flat(h);
    SliceCovers(SegmentSpan(), f, next, page);
    WantedBases(f, objects, from, through);
    AllCovered(SegmentSpan(), f, SegmentKeys(f), from, through, FirstFrom(SegmentSpan(), f, next) + |page.items|, SetOf(objects), found);
    FoundReferenced(h, f, objects, found);
  }

  lemma WantedBases(f: seq<LeafEntry>, objects: seq<SegmentKey>, from: nat, through: nat)
    requires forall i :: 0 <= i < |objects| ==> from <= objects[i].baseLSN <= through
    ensures forall i :: 0 <= i < |f| && SegmentKeys(f)[i] in SetOf(objects) ==> from <= f[i].baseLSN <= through
  {
  }

  lemma FoundReferenced(h: Head, f: seq<LeafEntry>, objects: seq<SegmentKey>, found: set<SegmentKey>)
    requires f == Flat(h) && Covers(SegmentKeys(f), 0, |f|, SetOf(objects), found)
    ensures forall key :: key in objects ==> (key in found <==> Referenced(h, key))
  {
    hide Flat;
    var ks := SegmentKeys(f);
    forall key | key in objects ensures key in found <==> Referenced(h, key) {
      if key in found {
        var i :| 0 <= i < |ks| && ks[i] == key;
        assert f[i] in Flat(h);
      }
      if Referenced(h, key) {
        var e :| e in f && SegmentKeyOf(e) == key;
        var i :| 0 <= i < |f| && f[i] == e;
        assert ks[i] == key;
      }
    }
  }

  // ---- Pages ----

  method MatchPages(ghost ps: seq<IndexEntry>, ghost lo: nat, ghost n: nat, items: seq<IndexEntry>, wanted: set<PageKey>, before: set<PageKey>)
    returns (found: set<PageKey>)
    requires n + |items| <= |ps| && items == ps[n..n+|items|] && Covers(PageKeys(ps), lo, n, wanted, before)
    ensures Covers(PageKeys(ps), lo, n + |items|, wanted, found)
  {
    hide Covers;
    found := before;
    var i := 0;
    while i < |items|
      invariant 0 <= i <= |items| && before <= found
      invariant forall k :: k in found ==> k in before || (k in wanted && k in PageKeys(items))
      invariant forall j :: 0 <= j < i && KeyOf(items[j]) in wanted ==> KeyOf(items[j]) in found
    {
      if KeyOf(items[i]) in wanted {
        assert PageKeys(items)[i] == KeyOf(items[i]);
        found := found + {KeyOf(items[i])};
      }
      i := i + 1;
    }
    Covered(PageKeys(ps), lo, n, PageKeys(items), wanted, before, found);
  }

  function MinSeqLo(ks: seq<PageKey>): (m: nat)
    requires ks != []
    ensures forall i :: 0 <= i < |ks| ==> m <= ks[i].seqLo
  {
    if |ks| == 1 then ks[0].seqLo
    else
      var m := MinSeqLo(ks[1..]);
      assert forall i :: 1 <= i < |ks| ==> ks[i] == ks[1..][i-1];
      if ks[0].seqLo < m then ks[0].seqLo else m
  }

  function MaxSeqLo(ks: seq<PageKey>): (m: nat)
    requires ks != []
    ensures forall i :: 0 <= i < |ks| ==> ks[i].seqLo <= m
  {
    if |ks| == 1 then ks[0].seqLo
    else
      var m := MaxSeqLo(ks[1..]);
      assert forall i :: 1 <= i < |ks| ==> ks[i] == ks[1..][i-1];
      if ks[0].seqLo > m then ks[0].seqLo else m
  }

  /** Which of these page objects, all of one level, are reachable from the head first loaded. */
  method ReachablePages(c: Config, src: PageSource, heads: seq<Head>, level: nat, objects: seq<PageKey>) returns (r: Result<(Head, set<PageKey>)>)
    requires objects != [] && Consistent(c, heads) && forall i :: 0 <= i < |objects| ==> objects[i].level == level
    ensures r.Ok? ==> heads != [] && r.value.0 == heads[0] && forall key :: key in objects ==> (key in r.value.1 <==> key in Reach(heads[0]))
    ensures heads != [] && Steady(src, heads) && level <= MAX_INDEX_LEVEL && |heads| * MAX_LIMIT >= |PagesOf(heads[0], level)| ==> r.Ok?
  {
    hide Flat, M.Sound, Tree.WellFormed, Slice, Reach, PagesOf, Laid, FirstFrom, Covers, PageKeys, Consistent, HeadStored;
    var from, through, wanted := MinSeqLo(objects), MaxSeqLo(objects), SetOf(objects);
    var next, k, found := from, 0, {};
    ghost var ps := if heads == [] then [] else PagesOf(heads[0], level);
    if heads == [] { return Err(NotFound); }
    SamePages(c, heads, 0, level);
    NothingCovered(PageKeys(ps), FirstFrom(PageSpan(), ps, from), wanted);
    while true
      invariant 0 <= k <= |heads| && next >= from
      invariant Covers(PageKeys(ps), FirstFrom(PageSpan(), ps, from), FirstFrom(PageSpan(), ps, next), wanted, found)
      invariant k * MAX_LIMIT <= FirstFrom(PageSpan(), ps, next) && (k > 0 ==> k * MAX_LIMIT < |ps|)
      decreases |heads| - k
    {
      if k == |heads| { return Err(NotFound); }
      SamePages(c, heads, k, level);
      var page :- ListPagePaths(c, src, heads[k], level, next, MAX_LIMIT);
      if heads[k].generation != heads[0].generation { return Err(Conflict); }
      SliceCovers(PageSpan(), ps, next, page);
      found := MatchPages(ps, FirstFrom(PageSpan(), ps, from), FirstFrom(PageSpan(), ps, next), page.items, wanted, found);
      if !page.more || page.next > through {
        PagesResolved(c, heads[0], level, from, through, next, page, objects, found);
        return Ok((heads[0], found));
      }
      assert page.next > next;
      next := page.next;
      k := k + 1;
    }
  }

  lemma SamePages(c: Config, heads: seq<Head>, k: nat, level: nat)
    requires Consistent(c, heads) && k < |heads|
    ensures heads[k].config == c && M.Sound(c, heads[k]) && Tree.WellFormed(c, heads[k]) && Laid(PageSpan(), PagesOf(heads[k], level))
    ensures heads[k].generation == heads[0].generation ==> PagesOf(heads[k], level) == PagesOf(heads[0], level)
  {
    hide Flat, M.Sound, Laid, PagesOf;
    WholeHead(c, heads[k]);
    PagesLaid(c, heads[k], level);
  }

  lemma PagesResolved(c: Config, h: Head, level: nat, from: nat, through: nat, next: nat, page: Listing<IndexEntry>, objects: seq<PageKey>, found: set<PageKey>)
    requires M.Sound(c, h) && Laid(PageSpan(), PagesOf(h, level)) && page == Slice(PageSpan(), PagesOf(h, level), next, MAX_LIMIT)
    requires (!page.more || page.next > through) && forall i :: 0 <= i < |objects| ==> from <= objects[i].seqLo <= through && objects[i].level == level
    requires Covers(PageKeys(PagesOf(h, level)), FirstFrom(PageSpan(), PagesOf(h, level), from), FirstFrom(PageSpan(), PagesOf(h, level), next) + |page.items|, SetOf(objects), found)
    ensures forall key :: key in objects ==> (key in found <==> key in Reach(h))
  {
    hide Flat, M.Sound, Slice, Reach, PagesOf, Laid, FirstFrom, Covers, PageKeys;
    var ps := PagesOf(h, level);
    SliceCovers(PageSpan(), ps, next, page);
    WantedPages(ps, objects, from, through);
    AllCovered(PageSpan(), ps, PageKeys(ps), from, through, FirstFrom(PageSpan(), ps, next) + |page.items|, SetOf(objects), found);
    FoundReachable(c, h, level, objects, found);
  }

  lemma WantedPages(ps: seq<IndexEntry>, objects: seq<PageKey>, from: nat, through: nat)
    requires forall i :: 0 <= i < |objects| ==> from <= objects[i].seqLo <= through
    ensures forall i :: 0 <= i < |ps| && PageKeys(ps)[i] in SetOf(objects) ==> from <= ps[i].seqLo <= through
  {
  }

  lemma PagesLaid(c: Config, h: Head, level: nat)
    requires M.Sound(c, h)
    ensures Laid(PageSpan(), PagesOf(h, level))
  {
    hide Flat, SectionRefs, PagesIn, Tree.WellFormed, Tree.Spacious;
    HeadRefsTile(c, h);
    PagesInWithin(c, SectionRefs(h.sections), h.writerEpoch, level);
  }

  lemma FoundReachable(c: Config, h: Head, level: nat, objects: seq<PageKey>, found: set<PageKey>)
    requires M.Sound(c, h) && (forall i :: 0 <= i < |objects| ==> objects[i].level == level)
    requires Covers(PageKeys(PagesOf(h, level)), 0, |PagesOf(h, level)|, SetOf(objects), found)
    ensures forall key :: key in objects ==> (key in found <==> key in Reach(h))
  {
    hide Flat, PagesOf, Reach, Tree.WellFormed, Tree.Spacious;
    var ps := PagesOf(h, level);
    var ks := PageKeys(ps);
    forall key | key in objects ensures key in found <==> key in Reach(h) {
      ReachOfHead(c, h, key);
      if key in found {
        var i :| 0 <= i < |ks| && ks[i] == key;
        assert KeyOf(ps[i]) == key;
      }
      if HasKey(ps, key) {
        var i :| 0 <= i < |ps| && KeyOf(ps[i]) == key;
        assert ks[i] == key;
      }
    }
  }

  // ---- What the loads of a pass may be ----

  /** Successive loads return durable heads, or the fresh head while nothing is stored; equal generations mean equal
      contents. */
  lemma LoadsConsistent(c: Config, s: P.System, heads: seq<Head>)
    requires P.Inv(c, s) && forall i :: 0 <= i < |heads| ==> heads[i] in s.hist || heads[i] == Fresh(c, 0)
    ensures Consistent(c, heads)
  {
    hide Flat, M.Sound, PagesOf, P.Inv, Chain, M.TreeStep;
    P.InvTruthful(c, s);
    forall i | 0 <= i < |heads| ensures heads[i].config == c && M.Sound(c, heads[i]) && (heads[i].generation == 0 ==> Bare(heads[i])) {
      LoadSound(c, s, heads[i]);
    }
    forall i, j | 0 <= i < |heads| && 0 <= j < |heads| && heads[i].generation == heads[j].generation
      ensures Flat(heads[i]) == Flat(heads[j]) && forall level :: PagesOf(heads[i], level) == PagesOf(heads[j], level)
    {
      if heads[i].generation > 0 { SameDurable(c, s, heads[i], heads[j]); }
    }
  }

  ghost predicate Bare(h: Head) { Flat(h) == [] && forall level :: PagesOf(h, level) == [] }

  lemma LoadSound(c: Config, s: P.System, h: Head)
    requires P.Durable(c, s) && (h in s.hist || h == Fresh(c, 0))
    ensures h.config == c && M.Sound(c, h) && (h.generation == 0 ==> Bare(h))
  {
    hide Flat, M.Sound, PagesOf, M.TreeStep;
    if h in s.hist {
      var k :| 0 <= k < |s.hist| && s.hist[k] == h;
      ChainSound(c, s.hist, s.steps, k);
      SoundConfig(c, h);
      if h.generation == 0 {
        var n: nat :| n <= MAX_RECORD_LSN && s.hist[0] == Fresh(c, n);
        FreshBare(c, n);
      }
    } else {
      FreshSound(c, 0);
      FreshBare(c, 0);
    }
  }

  lemma SoundConfig(c: Config, h: Head)
    requires M.Sound(c, h)
    ensures h.config == c
  {
  }

  lemma FreshBare(c: Config, n: nat)
    requires ValidConfig(c) && n <= MAX_RECORD_LSN
    ensures Bare(Fresh(c, n))
  {
    FreshSound(c, n);
    assert SectionRefs([]) == [];
    assert forall level :: PagesIn([], level) == [];
  }

  lemma SameDurable(c: Config, s: P.System, a: Head, b: Head)
    requires P.Durable(c, s) && a.generation == b.generation > 0
    requires (a in s.hist || a == Fresh(c, 0)) && (b in s.hist || b == Fresh(c, 0))
    ensures a == b
  {
    hide M.Sound, M.TreeStep;
    var i :| 0 <= i < |s.hist| && s.hist[i] == a;
    var j :| 0 <= j < |s.hist| && s.hist[j] == b;
    ChainSound(c, s.hist, s.steps, i);
    ChainSound(c, s.hist, s.steps, j);
  }

  // ---- Segment orphans ----

  datatype SegmentObject = SegmentObject(key: SegmentKey, createdMS: Option<int>)

  predicate OldEnough(created: Option<int>, now: int, delay: nat) { created.Some? && created.value <= now && created.value + delay <= now }

  ghost predicate Orphan(h: Head, objects: seq<SegmentObject>, now: int, delay: nat, safeFloor: nat, key: SegmentKey) {
    && OrphanSegmentEligible(key.baseLSN, key.writerEpoch, safeFloor, h) && !Referenced(h, key)
    && exists o :: o in objects && o.key == key && OldEnough(o.createdMS, now, delay)
  }

  /** The orphans of one listed page of segment objects: exactly those that are old enough, can no longer be appended
      and are not referenced by the head they were checked against. */
  method OrphanSegments(c: Config, src: PageSource, heads: seq<Head>, objects: seq<SegmentObject>, now: int, delay: nat, safeFloor: nat)
    returns (r: Result<seq<SegmentKey>>)
    requires Consistent(c, heads) && objects != []
    ensures r.Ok? ==> heads != [] && forall key :: key in r.value <==> Orphan(heads[0], objects, now, delay, safeFloor, key)
  {
    hide Flat, M.Sound, Consistent, Referenced, OrphanSegmentEligible;
    var keys := seq(|objects|, i requires 0 <= i < |objects| => objects[i].key);
    var seen :- ReferencedSegments(c, src, heads, keys);
    var orphans := [];
    var i := 0;
    while i < |objects|
      invariant 0 <= i <= |objects|
      invariant forall key :: key in orphans <==> Orphan(heads[0], objects[..i], now, delay, safeFloor, key)
    {
      var o := objects[i];
      assert keys[i] == o.key;
      if OldEnough(o.createdMS, now, delay) && OrphanSegmentEligible(o.key.baseLSN, o.key.writerEpoch, safeFloor, seen.0) && o.key !in seen.1 {
        orphans := orphans + [o.key];
      }
      assert objects[..i+1] == objects[..i] + [o];
      i := i + 1;
    }
    assert objects[..i] == objects;
    return Ok(orphans);
  }

  // ---- Page quarantine ----

  /** Pages of one listing that go to quarantine: unreachable, older than the head, not there yet. */
  method QuarantinePages(c: Config, src: PageSource, heads: seq<Head>, level: nat, objects: seq<PageKey>, now: int, room: nat, held: seq<S.Quarantined>,
                         sizes: PageKey -> nat) returns (r: Result<seq<S.Quarantined>>)
    requires Consistent(c, heads) && objects != [] && forall i :: 0 <= i < |objects| ==> objects[i].level == level
    ensures r.Ok? ==> heads != [] && |r.value| <= room
    ensures r.Ok? ==> forall i :: 0 <= i < |r.value| ==>
              PageDead(heads[0], r.value[i].page) && r.value[i].observedGeneration == heads[0].generation && r.value[i].observedMS == now && r.value[i].page in objects
    ensures r.Ok? ==> forall i, j :: 0 <= i < |r.value| && 0 <= j < |held| ==> r.value[i].page != held[j].page
    ensures r.Ok? && |r.value| < room ==> forall key :: key in objects && key !in Reach(heads[0]) && key.generation < heads[0].generation ==>
              (exists i :: 0 <= i < |r.value| && r.value[i].page == key) || (exists j :: 0 <= j < |held| && held[j].page == key)
  {
    hide Flat, M.Sound, Consistent, Reach;
    var seen :- ReachablePages(c, src, heads, level, objects);
    var added: seq<S.Quarantined> := [];
    var i := 0;
    while i < |objects|
      invariant 0 <= i <= |objects| && |added| <= room
      invariant forall k :: 0 <= k < |added| ==>
                  PageDead(heads[0], added[k].page) && added[k].observedGeneration == heads[0].generation && added[k].observedMS == now && added[k].page in objects
      invariant forall k, j :: 0 <= k < |added| && 0 <= j < |held| ==> added[k].page != held[j].page
      invariant |added| < room ==> forall k :: 0 <= k < i && objects[k] !in Reach(heads[0]) && objects[k].generation < heads[0].generation ==>
                  Among(added, objects[k]) || Among(held, objects[k])
    {
      var key := objects[i];
      if key.generation < seen.0.generation && key !in seen.1 {
        var already := Holds(held, key);
        var again := Holds(added, key);
        if !already && !again {
          if |added| >= room { return Ok(added); }
          var grown := added + [S.Quarantined(key, sizes(key), seen.0.generation, now)];
          assert grown[|added|].page == key;
          AmongGrows(added, grown);
          added := grown;
        }
      }
      i := i + 1;
    }
    return Ok(added);
  }

  ghost predicate Among(qs: seq<S.Quarantined>, key: PageKey) { exists i :: 0 <= i < |qs| && qs[i].page == key }

  lemma AmongGrows(a: seq<S.Quarantined>, b: seq<S.Quarantined>)
    requires a <= b
    ensures forall key :: Among(a, key) ==> Among(b, key)
  {
    forall key | Among(a, key) ensures Among(b, key) {
      var i :| 0 <= i < |a| && a[i].page == key;
      assert b[i].page == key;
    }
  }

  method Holds(qs: seq<S.Quarantined>, key: PageKey) returns (found: bool)
    ensures found <==> Among(qs, key)
  {
    found := false;
    var i := 0;
    while i < |qs|
      invariant 0 <= i <= |qs| && !found && forall j :: 0 <= j < i ==> qs[j].page != key
    {
      if qs[i].page == key { return true; }
      i := i + 1;
    }
  }

  predicate Due(q: S.Quarantined, now: int, delay: nat) { now >= q.observedMS + delay }

  /** The due entries among the first ones, up to a limit, in order. */
  method SelectDue(held: seq<S.Quarantined>, now: int, delay: nat, limit: nat) returns (chosen: seq<nat>)
    ensures |chosen| <= limit && |chosen| <= |held| && forall k :: 0 <= k < |chosen| ==> chosen[k] < |held| && Due(held[chosen[k]], now, delay)
    ensures |chosen| < limit ==> forall i :: 0 <= i < |held| && Due(held[i], now, delay) ==> i in chosen
  {
    chosen := [];
    var i := 0;
    while i < |held|
      invariant 0 <= i <= |held| && |chosen| <= limit && |chosen| <= i
      invariant forall k :: 0 <= k < |chosen| ==> chosen[k] < |held| && Due(held[chosen[k]], now, delay)
      invariant |chosen| < limit ==> forall j :: 0 <= j < i && Due(held[j], now, delay) ==> j in chosen
    {
      if |chosen| >= limit { return; }
      if Due(held[i], now, delay) { chosen := chosen + [i]; }
      i := i + 1;
    }
  }

  /** The chosen pages of one level. */
  function OfLevel(held: seq<S.Quarantined>, chosen: seq<nat>, level: nat): (ks: seq<PageKey>)
    requires forall k :: 0 <= k < |chosen| ==> chosen[k] < |held|
    ensures forall i :: 0 <= i < |ks| ==> ks[i].level == level
    ensures forall k :: 0 <= k < |chosen| && held[chosen[k]].page.level == level ==> held[chosen[k]].page in ks
  {
    if chosen == [] then []
    else
      var n := |chosen| - 1;
      var rest := OfLevel(held, chosen[..n], level);
      assert forall k :: 0 <= k < n ==> chosen[..n][k] == chosen[k];
      if held[chosen[n]].page.level == level then rest + [held[chosen[n]].page] else rest
  }

  /** What one pass over the quarantine decides about each entry. */
  datatype Decision = Keep | Drop | Delete

  /** A due entry is checked against the head its level was resolved with: dropped when it is reachable after all, kept
      while it may be part of a commit under way, deleted when it is dead. */
  function Decide(q: S.Quarantined, head: Head, reachable: set<PageKey>): Decision {
    if q.page in reachable then Drop else if q.page.generation >= head.generation then Keep else Delete
  }

  /** What is right for an entry, by the head its level was resolved with. */
  ghost function Right(heads: seq<Head>, key: PageKey): Decision {
    if heads == [] then Keep else if key in Reach(heads[0]) then Drop else if key.generation < heads[0].generation then Delete else Keep
  }

  /** The chosen entries of lower levels, and the first k of this level, are decided right; the others are kept. */
  ghost predicate Decided(ds: seq<Decision>, held: seq<S.Quarantined>, loads: nat -> seq<Head>, chosen: seq<nat>, level: nat, k: nat)
    requires k <= |chosen|
  {
    && |ds| == |held|
    && forall i :: 0 <= i < |held| ==>
         ds[i] == if (i in chosen && held[i].page.level < level) || (i in chosen[..k] && held[i].page.level == level)
                  then Right(loads(held[i].page.level), held[i].page) else Keep
  }

  lemma DecideOne(ds: seq<Decision>, held: seq<S.Quarantined>, loads: nat -> seq<Head>, chosen: seq<nat>, level: nat, k: nat, reachable: set<PageKey>)
    requires k < |chosen| && chosen[k] < |held| && Decided(ds, held, loads, chosen, level, k)
    requires held[chosen[k]].page.level == level ==> loads(level) != [] && (held[chosen[k]].page in reachable <==> held[chosen[k]].page in Reach(loads(level)[0]))
    ensures var i := chosen[k];
            Decided(if held[i].page.level == level then ds[i := Decide(held[i], loads(level)[0], reachable)] else ds, held, loads, chosen, level, k + 1)
  {
    hide Reach;
    var at := chosen[k];
    var ds' := if held[at].page.level == level then ds[at := Decide(held[at], loads(level)[0], reachable)] else ds;
    assert chosen[..k+1] == chosen[..k] + [at];
    assert forall i :: i in chosen[..k+1] <==> i in chosen[..k] || i == at;
    assert held[at].page.level == level ==> ds'[at] == Right(loads(level), held[at].page);
  }

  lemma NextLevel(ds: seq<Decision>, held: seq<S.Quarantined>, loads: nat -> seq<Head>, chosen: seq<nat>, level: nat, k: nat)
    requires k <= |chosen| && Decided(ds, held, loads, chosen, level, k)
    requires k == |chosen| || forall j :: 0 <= j < |chosen| ==> chosen[j] < |held| && held[chosen[j]].page.level != level
    ensures Decided(ds, held, loads, chosen, level + 1, 0)
  {
    hide Right;
    assert k == |chosen| ==> chosen[..k] == chosen;
  }

  /** Resolves the due entries level by level; loads(level) are the heads the calls for that level find. An entry is
      dropped or deleted only when due and right, and every due entry is when the limit does not stop it. */
  method ProcessQuarantine(c: Config, src: PageSource, loads: nat -> seq<Head>, held: seq<S.Quarantined>, now: int, delay: nat, limit: nat)
    returns (r: Result<seq<Decision>>)
    requires forall level :: Consistent(c, loads(level))
    requires forall i :: 0 <= i < |held| ==> held[i].page.level <= MAX_INDEX_LEVEL
    ensures r.Ok? ==> |r.value| == |held|
    ensures r.Ok? ==> forall i :: 0 <= i < |held| ==> r.value[i] == Keep || (Due(held[i], now, delay) && r.value[i] == Right(loads(held[i].page.level), held[i].page))
    ensures r.Ok? ==> forall i :: 0 <= i < |held| && r.value[i] == Delete ==> loads(held[i].page.level) != [] && PageDead(loads(held[i].page.level)[0], held[i].page)
    ensures r.Ok? && |held| < limit ==> forall i :: 0 <= i < |held| && Due(held[i], now, delay) ==> r.value[i] == Right(loads(held[i].page.level), held[i].page)
  {
    hide Flat, M.Sound, Consistent, Reach, Right, Decide, Decided;
    var chosen := SelectDue(held, now, delay, limit);
    var decisions := seq(|held|, i => Keep);
    var level := 0;
    assert Decided(decisions, held, loads, chosen, 0, 0) by { NoneDecided(held, loads, chosen); }
    while level <= MAX_INDEX_LEVEL
      invariant 0 <= level <= MAX_INDEX_LEVEL + 1 && |decisions| == |held| && Decided(decisions, held, loads, chosen, level, 0)
    {
      var objects := OfLevel(held, chosen, level);
      ghost var done := 0;
      if objects != [] {
        var seen :- ReachablePages(c, src, loads(level), level, objects);
        var k := 0;
        while k < |chosen|
          invariant 0 <= k <= |chosen| && |decisions| == |held| && Decided(decisions, held, loads, chosen, level, k)
        {
          var i := chosen[k];
          DecideOne(decisions, held, loads, chosen, level, k, seen.1);
          if held[i].page.level == level {
            if seen.0.generation < held[i].observedGeneration { return Err(Corrupt); }
            decisions := decisions[i := Decide(held[i], seen.0, seen.1)];
          }
          k := k + 1;
        }
        done := k;
      }
      NextLevel(decisions, held, loads, chosen, level, done);
      level := level + 1;
    }
    AllDecided(decisions, held, loads, chosen, now, delay);
    forall i | 0 <= i < |held| && decisions[i] == Delete ensures loads(held[i].page.level) != [] && PageDead(loads(held[i].page.level)[0], held[i].page) {
      RightlyDead(loads(held[i].page.level), held[i].page);
    }
    return Ok(decisions);
  }

  lemma RightlyDead(heads: seq<Head>, key: PageKey)
    requires Right(heads, key) == Delete
    ensures heads != [] && PageDead(heads[0], key)
  {
    hide Reach;
  }

  lemma NoneDecided(held: seq<S.Quarantined>, loads: nat -> seq<Head>, chosen: seq<nat>)
    ensures Decided(seq(|held|, i => Keep), held, loads, chosen, 0, 0)
  {
    hide Right;
  }

  lemma AllDecided(ds: seq<Decision>, held: seq<S.Quarantined>, loads: nat -> seq<Head>, chosen: seq<nat>, now: int, delay: nat)
    requires Decided(ds, held, loads, chosen, MAX_INDEX_LEVEL + 1, 0) && forall i :: 0 <= i < |held| ==> held[i].page.level <= MAX_INDEX_LEVEL
    requires forall k :: 0 <= k < |chosen| ==> chosen[k] < |held| && Due(held[chosen[k]], now, delay)
    ensures |ds| == |held|
    ensures forall i :: 0 <= i < |held| ==> ds[i] == Keep || (Due(held[i], now, delay) && ds[i] == Right(loads(held[i].page.level), held[i].page))
    ensures forall i :: 0 <= i < |held| && i in chosen ==> ds[i] == Right(loads(held[i].page.level), held[i].page)
  {
    hide Right;
  }

  /** A page put in quarantine is dead for good: checked again against any later durable head it is never found
      reachable, so the second look only waits for it. */
  lemma QuarantineStays(c: Config, s: P.System, k: nat, j: nat, q: S.Quarantined)
    requires P.Inv(c, s) && k <= j < |s.hist| && PageDead(s.hist[k], q.page)
    ensures q.page !in Reach(s.hist[j])
    ensures s.hist[k].generation <= s.hist[j].generation
  {
    hide Flat, Reach, P.Inv, Chain, PageDead;
    P.InvTruthful(c, s);
    DeadPageStays(c, s.hist, s.steps, k, j, q.page);
    ChainMonotone(c, s.hist, s.steps, k, j);
  }
}
