/** Bounded listings of segments and pages, walked through a mutable collector, and page reachability. */
module CatalogListing {
  import opened CatalogTypes
  import opened CatalogFlat
  import opened CatalogTree
  import opened CatalogReader

  const DEFAULT_LIMIT: nat := 128
  const MAX_LIMIT: nat := 1024

  function NormalLimit(limit: int): (r: nat)
    ensures 1 <= r <= MAX_LIMIT
  {
    if limit <= 0 || limit > MAX_LIMIT then DEFAULT_LIMIT else limit
  }

  // ---- Collectors ----

  /** One bounded answer: the items, and where the next call continues if there are more. */
  datatype Listing<T> = Listing(items: seq<T>, next: nat, more: bool)

  /** Items carry an LSN range; segments and index entries are the two kinds listed. */
  datatype Span<!T> = Span(lo: T -> nat, hi: T -> nat)

  function SegmentSpan(): Span<LeafEntry> { Span((e: LeafEntry) => e.baseLSN, (e: LeafEntry) => e.lastLSN) }
  function PageSpan(): Span<IndexEntry> { Span((r: IndexEntry) => r.seqLo, (r: IndexEntry) => r.seqHi) }

  function AddItem<T>(sp: Span<T>, from: nat, limit: nat, st: Listing<T>, e: T): Listing<T> {
    if st.more || sp.hi(e) < from then st
    else if |st.items| == limit then Listing(st.items, sp.lo(e), true)
    else Listing(st.items + [e], st.next, st.more)
  }

  function Feed<T>(sp: Span<T>, from: nat, limit: nat, st: Listing<T>, s: seq<T>): Listing<T>
    decreases |s|
  {
    if s == [] then st else Feed(sp, from, limit, AddItem(sp, from, limit, st, s[0]), s[1..])
  }

  lemma {:induction false} FeedConcat<T>(sp: Span<T>, from: nat, limit: nat, st: Listing<T>, a: seq<T>, b: seq<T>)
    ensures Feed(sp, from, limit, st, a + b) == Feed(sp, from, limit, Feed(sp, from, limit, st, a), b)
    decreases |a|
  {
    if a == [] {
      assert a + b == b;
    } else {
      assert (a + b)[1..] == a[1..] + b && (a + b)[0] == a[0];
      FeedConcat(sp, from, limit, AddItem(sp, from, limit, st, a[0]), a[1..], b);
    }
  }

  lemma FeedOne<T>(sp: Span<T>, from: nat, limit: nat, st: Listing<T>, e: T)
    ensures Feed(sp, from, limit, st, [e]) == AddItem(sp, from, limit, st, e)
  {
    var st' := AddItem(sp, from, limit, st, e);
    assert [e][1..] == [];
    assert Feed(sp, from, limit, st', []) == st';
  }

  /** A full listing, and items that end before the start, leave the collector as it is. */
  lemma {:induction false} FeedIgnored<T>(sp: Span<T>, from: nat, limit: nat, st: Listing<T>, s: seq<T>)
    requires st.more || forall i :: 0 <= i < |s| ==> sp.hi(s[i]) < from
    ensures Feed(sp, from, limit, st, s) == st
  {
    if s != [] {
      assert sp.hi(s[0]) < from || st.more;
      FeedIgnored(sp, from, limit, st, s[1..]);
    }
  }

  ghost predicate Laid<T>(sp: Span<T>, s: seq<T>) {
    && (forall i :: 0 <= i < |s| ==> sp.lo(s[i]) <= sp.hi(s[i]))
    && (forall i, j :: 0 <= i < j < |s| ==> sp.hi(s[i]) < sp.lo(s[j]))
  }

  /** The first item that reaches `from`. */
  function FirstFrom<T>(sp: Span<T>, s: seq<T>, from: nat): (k: nat)
    ensures k <= |s| && (forall i :: 0 <= i < k ==> sp.hi(s[i]) < from) && (k < |s| ==> sp.hi(s[k]) >= from)
  {
    if s == [] || sp.hi(s[0]) >= from then 0 else 1 + FirstFrom(sp, s[1..], from)
  }

  /** The bounded slice of an ordered list, as an index computation. */
  function Slice<T>(sp: Span<T>, s: seq<T>, from: nat, limit: nat): Listing<T> {
    var kept := s[FirstFrom(sp, s, from)..];
    if |kept| <= limit then Listing(kept, 0, false) else Listing(kept[..limit], sp.lo(kept[limit]), true)
  }

  lemma {:induction false} FeedAccepts<T>(sp: Span<T>, from: nat, limit: nat, items: seq<T>, s: seq<T>)
    requires |items| <= limit && forall i :: 0 <= i < |s| ==> sp.hi(s[i]) >= from
    ensures Feed(sp, from, limit, Listing(items, 0, false), s) ==
            if |items + s| <= limit then Listing(items + s, 0, false)
            else Listing((items + s)[..limit], sp.lo((items + s)[limit]), true)
    decreases |s|
  {
    if s == [] {
      assert items + s == items;
    } else {
      assert sp.hi(s[0]) >= from;
      assert items + s == (items + [s[0]]) + s[1..];
      if |items| == limit {
        assert (items + s)[..limit] == items;
        FeedIgnored(sp, from, limit, Listing(items, sp.lo(s[0]), true), s[1..]);
      } else {
        FeedAccepts(sp, from, limit, items + [s[0]], s[1..]);
      }
    }
  }

  lemma LaidAt<T>(sp: Span<T>, s: seq<T>, i: nat, j: nat)
    requires Laid(sp, s) && i <= j < |s|
    ensures sp.lo(s[i]) <= sp.hi(s[i]) && (i < j ==> sp.hi(s[i]) < sp.lo(s[j])) && sp.hi(s[i]) <= sp.hi(s[j])
  {
    assert sp.lo(s[i]) <= sp.hi(s[i]) && sp.lo(s[j]) <= sp.hi(s[j]);
    if i < j { assert sp.hi(s[i]) < sp.lo(s[j]); }
  }

  lemma {:induction false} FirstFromIs<T>(sp: Span<T>, s: seq<T>, from: nat, k: nat)
    requires k <= |s| && (forall i :: 0 <= i < k ==> sp.hi(s[i]) < from) && (k < |s| ==> sp.hi(s[k]) >= from)
    ensures FirstFrom(sp, s, from) == k
  {
    if k > 0 {
      assert sp.hi(s[0]) < from;
      forall i | 0 <= i < k - 1 ensures sp.hi(s[1..][i]) < from { assert s[1..][i] == s[i+1]; }
      FirstFromIs(sp, s[1..], from, k - 1);
    }
  }

  /** Feeding a whole ordered list through a fresh collector gives exactly its bounded slice. */
  lemma FeedIsSlice<T>(sp: Span<T>, s: seq<T>, from: nat, limit: nat)
    requires Laid(sp, s)
    ensures Feed(sp, from, limit, Listing([], 0, false), s) == Slice(sp, s, from, limit)
  {
    hide Feed, Laid, FirstFrom;
    var k := FirstFrom(sp, s, from);
    var a, b := s[..k], s[k..];
    assert s == a + b;
    FeedConcat(sp, from, limit, Listing([], 0, false), a, b);
    FeedIgnored(sp, from, limit, Listing([], 0, false), a);
    forall i | 0 <= i < |b| ensures sp.hi(b[i]) >= from { LaidAt(sp, s, k, k + i); }
    FeedAccepts(sp, from, limit, [], b);
    assert [] + b == b;
  }

  /** Continuing at `next` resumes exactly after the items returned: paging to the end yields every item once, in order. */
  lemma SliceContinues<T>(sp: Span<T>, s: seq<T>, from: nat, limit: nat)
    requires Laid(sp, s) && limit >= 1 && Slice(sp, s, from, limit).more
    ensures var p := Slice(sp, s, from, limit);
            && |p.items| == limit && p.next > from
            && FirstFrom(sp, s, p.next) == FirstFrom(sp, s, from) + limit
            && s[FirstFrom(sp, s, from)..] == p.items + s[FirstFrom(sp, s, p.next)..]
  {
    hide Laid, FirstFrom;
    var k := FirstFrom(sp, s, from);
    var p := Slice(sp, s, from, limit);
    var m := k + limit;
    assert m < |s| && p.next == sp.lo(s[m]) && p.items == s[k..m];
    LaidAt(sp, s, k, m);
    forall i | 0 <= i < m ensures sp.hi(s[i]) < p.next { LaidAt(sp, s, i, m); }
    LaidAt(sp, s, m, m);
    FirstFromIs(sp, s, p.next, m);
    assert s[k..] == s[k..m] + s[m..];
  }

  class Collector<T> {
    const span: Span<T>
    const from: nat
    const limit: nat
    var items: seq<T>
    var next: nat
    var more: bool

    constructor (span: Span<T>, from: nat, limit: nat)
      ensures this.span == span && this.from == from && this.limit == limit
      ensures State() == Listing([], 0, false)
    {
      this.span, this.from, this.limit := span, from, limit;
      items, next, more := [], 0, false;
    }

    function State(): Listing<T>
      reads this
    {
      Listing(items, next, more)
    }

    method Add(e: T)
      modifies this
      ensures State() == AddItem(span, from, limit, old(State()), e)
    {
      if more || span.hi(e) < from {
        return;
      }
      if |items| == limit {
        more, next := true, span.lo(e);
        return;
      }
      items := items + [e];
    }
  }

  // ---- Segment listing ----

  ghost predicate ForSegments(col: Collector<LeafEntry>) { col.span == SegmentSpan() }

  lemma LeavesLaid(f: seq<LeafEntry>)
    requires Run(f)
    ensures Laid(SegmentSpan(), f)
  {
    forall i, j | 0 <= i < j < |f| ensures f[i].lastLSN < f[j].baseLSN { RunOrder(f, i, j); }
  }

  lemma RunEndsBefore(f: seq<LeafEntry>, from: nat)
    requires Run(f) && (f != [] ==> f[|f|-1].lastLSN < from)
    ensures forall i :: 0 <= i < |f| ==> f[i].lastLSN < from
  {
    forall i | 0 <= i < |f| ensures f[i].lastLSN < from { if i < |f| - 1 { RunOrder(f, i, |f| - 1); } }
  }

  /** The references that end before `from` contribute nothing. */
  lemma SkippedRefs(c: Config, rs: seq<IndexEntry>, e: nat, from: nat, limit: nat, st: Listing<LeafEntry>)
    requires AllGood(c, rs, e) && RefsTile(rs)
    ensures var start := LowerBound(RefKeys(ByLSN, rs), from);
            Feed(SegmentSpan(), from, limit, st, FlatRefs(rs[..start])) == st
  {
    hide Feed, FlatRefs, Good, Run;
    var start := LowerBound(RefKeys(ByLSN, rs), from);
    var skipped := rs[..start];
    assert RefsTile(skipped) by {
      forall i, j | 0 <= i < j < |skipped| && j == i + 1 ensures RefFollows(skipped[i], skipped[j]) { assert RefFollows(rs[i], rs[j]); }
    }
    TileDescribes(c, skipped, e);
    if start > 0 { assert RefKeys(ByLSN, rs)[start-1] < from; }
    RunEndsBefore(FlatRefs(skipped), from);
    FeedIgnored(SegmentSpan(), from, limit, st, FlatRefs(skipped));
  }

  lemma FlatRefsSnoc(rs: seq<IndexEntry>, i: nat)
    requires i < |rs|
    ensures FlatRefs(rs[..i+1]) == FlatRefs(rs[..i]) + FlatRef(rs[i])
  {
    assert rs[..i+1] == rs[..i] + [rs[i]];
    FlatRefsConcat(rs[..i], [rs[i]]);
    FlatRefsOne(rs[i]);
  }

  method CollectLeaves(col: Collector<LeafEntry>, es: seq<LeafEntry>)
    requires ForSegments(col) && Run(es)
    modifies col
    ensures col.State() == Feed(SegmentSpan(), col.from, col.limit, old(col.State()), es)
  {
    LeafKeysAscend(ByLSN, es);
    var start := Search(LeafKeys(ByLSN, es), col.from);
    ghost var st := col.State();
    forall i | 0 <= i < start ensures es[..start][i].lastLSN < col.from { assert LeafKeys(ByLSN, es)[i] < col.from; }
    FeedIgnored(SegmentSpan(), col.from, col.limit, st, es[..start]);
    var i := start;
    while i < |es| && !col.more
      invariant start <= i <= |es|
      invariant col.State() == Feed(SegmentSpan(), col.from, col.limit, st, es[..i])
    {
      assert es[..i+1] == es[..i] + [es[i]];
      FeedConcat(SegmentSpan(), col.from, col.limit, st, es[..i], [es[i]]);
      FeedOne(SegmentSpan(), col.from, col.limit, col.State(), es[i]);
      col.Add(es[i]);
      i := i + 1;
    }
    assert es == es[..i] + es[i..];
    FeedConcat(SegmentSpan(), col.from, col.limit, st, es[..i], es[i..]);
    FeedIgnored(SegmentSpan(), col.from, col.limit, col.State(), es[i..]);
  }

  /** The recursive walk of one page. The level falls at every step, so it ends. */
  method CollectPage(c: Config, src: PageSource, r: IndexEntry, maxEpoch: nat, col: Collector<LeafEntry>) returns (res: Result<bool>)
    requires ForSegments(col) && Good(c, r, maxEpoch)
    modifies col
    ensures res.Ok? ==> col.State() == Feed(SegmentSpan(), col.from, col.limit, old(col.State()), FlatRef(r))
    ensures Stored(src, r) ==> res.Ok?
    decreases r.level
  {
    hide Feed;
    ghost var st := col.State();
    GoodDescribes(c, r, maxEpoch);
    if col.more || r.seqHi < col.from {
      RunEndsBefore(FlatRef(r), if col.more then r.seqHi + 1 else col.from);
      FeedIgnored(SegmentSpan(), col.from, col.limit, st, FlatRef(r));
      return Ok(true);
    }
    var page :- Load(c, src, r, maxEpoch);
    if page.LeafPage? {
      CollectLeaves(col, page.leaves);
      return Ok(true);
    }
    res := CollectRefs(c, src, page.refs, page.header.writerEpoch, r.level, col);
  }

  method CollectRefs(c: Config, src: PageSource, rs: seq<IndexEntry>, epoch: nat, level: nat, col: Collector<LeafEntry>) returns (res: Result<bool>)
    requires ForSegments(col) && AllGood(c, rs, epoch) && RefsTile(rs) && forall i :: 0 <= i < |rs| ==> rs[i].level < level
    modifies col
    ensures res.Ok? ==> col.State() == Feed(SegmentSpan(), col.from, col.limit, old(col.State()), FlatRefs(rs))
    ensures (forall i :: 0 <= i < |rs| ==> Stored(src, rs[i])) ==> res.Ok?
    decreases level, 0
  {
    hide Feed, Good, Stored, FlatRefs;
    ghost var st := col.State();
    RefKeysAscend(c, rs, epoch);
    var start := Search(RefKeys(ByLSN, rs), col.from);
    SkippedRefs(c, rs, epoch, col.from, col.limit, st);
    var i := start;
    while i < |rs| && !col.more
      invariant start <= i <= |rs|
      invariant col.State() == Feed(SegmentSpan(), col.from, col.limit, st, FlatRefs(rs[..i]))
    {
      FlatRefsSnoc(rs, i);
      FeedConcat(SegmentSpan(), col.from, col.limit, st, FlatRefs(rs[..i]), FlatRef(rs[i]));
      var _ :- CollectPage(c, src, rs[i], epoch, col);
      i := i + 1;
    }
    assert rs == rs[..i] + rs[i..];
    FlatRefsConcat(rs[..i], rs[i..]);
    FeedConcat(SegmentSpan(), col.from, col.limit, st, FlatRefs(rs[..i]), FlatRefs(rs[i..]));
    assert i == |rs| ==> FlatRefs(rs[i..]) == [] by { NoFlat(rs[i..]); }
    FeedIgnored(SegmentSpan(), col.from, col.limit, col.State(), FlatRefs(rs[i..]));
    return Ok(true);
  }

  lemma NoFlat(rs: seq<IndexEntry>)
    ensures rs == [] ==> FlatRefs(rs) == []
  {
  }

  lemma RefKeysAscend(c: Config, rs: seq<IndexEntry>, e: nat)
    requires AllGood(c, rs, e) && RefsTile(rs)
    ensures Ascending(RefKeys(ByLSN, rs))
  {
    forall i: nat, j: nat | i < j < |rs| ensures rs[i].seqHi < rs[j].seqLo { RefsOrder(c, rs, e, i, j); }
    forall i | 0 <= i < |rs| ensures rs[i].seqLo <= rs[i].seqHi { assert Good(c, rs[i], e); }
  }

  lemma {:induction false} RefsOrder(c: Config, rs: seq<IndexEntry>, e: nat, i: nat, j: nat)
    requires AllGood(c, rs, e) && RefsTile(rs) && i < j < |rs|
    ensures rs[i].seqHi < rs[j].seqLo
    decreases j
  {
    assert RefFollows(rs[j-1], rs[j]) && Good(c, rs[j-1], e);
    if i < j - 1 { RefsOrder(c, rs, e, i, j - 1); }
  }

  lemma {:induction false} SectionRefsTop(ss: seq<seq<IndexEntry>>, i: nat)
    requires i < |ss|
    ensures SectionRefs(ss[..i+1]) == ss[i] + SectionRefs(ss[..i])
  {
    assert ss[..i+1][..i] == ss[..i];
  }

  lemma {:induction false} NoSections(ss: seq<seq<IndexEntry>>)
    ensures ss == [] ==> SectionRefs(ss) == []
  {
  }

  lemma {:induction false} RefRootsJoin(a: seq<IndexEntry>, b: seq<IndexEntry>)
    ensures RefRoots(a + b) == RefRoots(a) + RefRoots(b)
  {
  }

  lemma {:induction false} LeafRootsJoin(a: seq<LeafEntry>, b: seq<LeafEntry>)
    ensures LeafRoots(a + b) == LeafRoots(a) + LeafRoots(b)
  {
  }

  method SectionRoots(refs: seq<IndexEntry>) returns (roots: seq<Root>)
    ensures roots == RefRoots(refs)
  {
    hide RefRoots;
    roots := [];
    var j := 0;
    NoRoots();
    assert refs[..0] == [];
    while j < |refs|
      invariant 0 <= j <= |refs| && roots == RefRoots(refs[..j])
    {
      assert refs[..j+1] == refs[..j] + [refs[j]];
      RefRootsJoin(refs[..j], [refs[j]]);
      OneRef(refs[j]);
      roots := roots + [PageRoot(refs[j])];
      j := j + 1;
    }
    assert refs[..j] == refs;
  }

  lemma {:induction false} OneRef(r: IndexEntry)
    ensures RefRoots([r]) == [PageRoot(r)]
  {
  }

  lemma {:induction false} OneLeaf(e: LeafEntry)
    ensures LeafRoots([e]) == [LeafRoot(e)]
  {
  }

  lemma {:induction false} NoRoots()
    ensures RefRoots([]) == [] && LeafRoots([]) == []
  {
  }

  /** The head's roots in LSN order: highest section first, the inline run last. */
  method HeadRoots(h: Head) returns (roots: seq<Root>)
    ensures roots == Roots(h)
  {
    hide RefRoots, LeafRoots, SectionRefs;
    roots := [];
    NoRoots();
    var i := |h.sections|;
    assert h.sections[..i] == h.sections;
    ghost var all := RefRoots(SectionRefs(h.sections));
    assert roots + RefRoots(SectionRefs(h.sections[..i])) == all;
    while i > 0
      invariant 0 <= i <= |h.sections|
      invariant roots + RefRoots(SectionRefs(h.sections[..i])) == all
    {
      i := i - 1;
      SectionRefsTop(h.sections, i);
      RefRootsJoin(h.sections[i], SectionRefs(h.sections[..i]));
      var section := SectionRoots(h.sections[i]);
      assert (roots + section) + RefRoots(SectionRefs(h.sections[..i])) == roots + (section + RefRoots(SectionRefs(h.sections[..i])));
      roots := roots + section;
    }
    NoSections(h.sections[..i]);
    assert roots + [] == roots;
    var j := 0;
    assert h.active[..0] == [];
    while j < |h.active|
      invariant 0 <= j <= |h.active|
      invariant roots == all + LeafRoots(h.active[..j])
    {
      assert h.active[..j+1] == h.active[..j] + [h.active[j]];
      LeafRootsJoin(h.active[..j], [h.active[j]]);
      OneLeaf(h.active[j]);
      roots := roots + [LeafRoot(h.active[j])];
      j := j + 1;
    }
    assert h.active[..j] == h.active;
  }

  /** A bounded page of segments from one head: the slice of its flattened run, whatever the store answers. */
  method ListSegments(c: Config, src: PageSource, h: Head, from: nat, limit: int) returns (res: Result<Listing<LeafEntry>>)
    requires h.config == c ==> WellFormed(c, h)
    ensures h.config != c ==> res == Err(Identity)
    ensures res.Ok? ==> res.value == Slice(SegmentSpan(), Flat(h), from, NormalLimit(limit))
    ensures h.config == c && HeadStored(src, h) ==> res.Ok?
  {
    hide Good, Feed, Stored, FlatRefs, SectionRefs, SectionsGood, Run, EpochsOrdered, EpochsAtMost, ValidLeaf;
    if h.config != c {
      return Err(Identity);
    }
    LeavesLaid(Flat(h));
    FeedIsSlice(SegmentSpan(), Flat(h), from, NormalLimit(limit));
    if h.last.None? || from >= h.nextLSN {
      BeyondEnd(c, h, from);
      FeedIgnored(SegmentSpan(), from, NormalLimit(limit), Listing([], 0, false), Flat(h));
      return Ok(Listing([], 0, false));
    }
    var col := new Collector<LeafEntry>(SegmentSpan(), from, NormalLimit(limit));
    var _ :- CollectHead(c, src, h, col);
    return Ok(col.State());
  }

  lemma BeyondEnd(c: Config, h: Head, from: nat)
    requires WellFormed(c, h) && (h.last.None? || from >= h.nextLSN)
    ensures forall i :: 0 <= i < |Flat(h)| ==> Flat(h)[i].lastLSN < from
  {
    hide SectionsGood, FlatRefs, SectionRefs;
    RunEndsBefore(Flat(h), from);
  }

  function FlatRoot(r: Root): seq<LeafEntry> { if r.PageRoot? then FlatRef(r.ref) else [r.leaf] }

  function FlatRoots(rs: seq<Root>): seq<LeafEntry> {
    if rs == [] then [] else FlatRoots(rs[..|rs|-1]) + FlatRoot(rs[|rs|-1])
  }

  lemma {:induction false} FlatRootsConcat(a: seq<Root>, b: seq<Root>)
    ensures FlatRoots(a + b) == FlatRoots(a) + FlatRoots(b)
    decreases |b|
  {
    if b == [] {
      assert a + b == a;
    } else {
      var n := |b| - 1;
      assert (a + b)[..|a + b| - 1] == a + b[..n] && (a + b)[|a + b| - 1] == b[n];
      FlatRootsConcat(a, b[..n]);
      assert FlatRoots(a) + (FlatRoots(b[..n]) + FlatRoot(b[n])) == (FlatRoots(a) + FlatRoots(b[..n])) + FlatRoot(b[n]);
    }
  }

  lemma {:induction false} FlatRefRoots(rs: seq<IndexEntry>)
    ensures FlatRoots(RefRoots(rs)) == FlatRefs(rs)
    decreases |rs|
  {
    if rs != [] {
      var n := |rs| - 1;
      assert RefRoots(rs)[..n] == RefRoots(rs[..n]);
      FlatRefRoots(rs[..n]);
      FlatRefsSnoc(rs, n);
      assert rs[..n+1] == rs;
    }
  }

  lemma {:induction false} FlatLeafRoots(es: seq<LeafEntry>)
    ensures FlatRoots(LeafRoots(es)) == es
  {
    if es != [] {
      var n := |es| - 1;
      assert LeafRoots(es)[..n] == LeafRoots(es[..n]);
      FlatLeafRoots(es[..n]);
    }
  }

  lemma FlatByRoots(h: Head)
    ensures FlatRoots(Roots(h)) == Flat(h)
  {
    FlatRootsConcat(RefRoots(SectionRefs(h.sections)), LeafRoots(h.active));
    FlatRefRoots(SectionRefs(h.sections));
    FlatLeafRoots(h.active);
  }

  method CollectHead(c: Config, src: PageSource, h: Head, col: Collector<LeafEntry>) returns (res: Result<bool>)
    requires WellFormed(c, h) && ForSegments(col)
    modifies col
    ensures res.Ok? ==> col.State() == Feed(SegmentSpan(), col.from, col.limit, old(col.State()), Flat(h))
    ensures HeadStored(src, h) ==> res.Ok?
  {
    hide Good, Feed, Stored, FlatRefs, SectionRefs, SectionsGood, Run, EpochsOrdered, EpochsAtMost, ValidLeaf, Flat, Counts, Roots, FlatRoots;
    ghost var st := col.State();
    var roots := HeadRoots(h);
    FlatByRoots(h);
    FeedIgnored(SegmentSpan(), col.from, col.limit, st, []);
    var i := 0;
    FlatRootsNone(roots[..i]);
    while i < |roots| && !col.more
      invariant 0 <= i <= |roots|
      invariant col.State() == Feed(SegmentSpan(), col.from, col.limit, st, FlatRoots(roots[..i]))
    {
      var root := roots[i];
      FlatRootsSnoc(roots, i);
      FeedConcat(SegmentSpan(), col.from, col.limit, st, FlatRoots(roots[..i]), FlatRoot(root));
      if root.Hi() < col.from {
        RootEndsBefore(c, h, i, col.from);
        FeedIgnored(SegmentSpan(), col.from, col.limit, col.State(), FlatRoot(root));
      } else if root.LeafRoot? {
        FeedOne(SegmentSpan(), col.from, col.limit, col.State(), root.leaf);
        col.Add(root.leaf);
      } else {
        RootRef(c, h, i);
        var _ :- CollectPage(c, src, root.ref, h.writerEpoch, col);
      }
      i := i + 1;
    }
    assert roots == roots[..i] + roots[i..];
    FlatRootsConcat(roots[..i], roots[i..]);
    FeedConcat(SegmentSpan(), col.from, col.limit, st, FlatRoots(roots[..i]), FlatRoots(roots[i..]));
    FlatRootsNone(roots[i..]);
    FeedIgnored(SegmentSpan(), col.from, col.limit, col.State(), FlatRoots(roots[i..]));
    return Ok(true);
  }

  lemma FlatRootsNone(rs: seq<Root>)
    ensures rs == [] ==> FlatRoots(rs) == []
  {
  }

  lemma {:induction false} FlatRootsSnoc(rs: seq<Root>, i: nat)
    requires i < |rs|
    ensures FlatRoots(rs[..i+1]) == FlatRoots(rs[..i]) + FlatRoot(rs[i])
  {
    hide FlatRoot;
    assert rs[..i+1][..i] == rs[..i];
  }

  lemma RootEndsBefore(c: Config, h: Head, i: nat, from: nat)
    requires Shape(c, h) && i < |Roots(h)| && Roots(h)[i].Hi() < from
    ensures forall k :: 0 <= k < |FlatRoot(Roots(h)[i])| ==> FlatRoot(Roots(h)[i])[k].lastLSN < from
  {
    hide Good, SectionsGood, Roots;
    if Roots(h)[i].PageRoot? {
      RootRef(c, h, i);
      GoodDescribes(c, Roots(h)[i].ref, h.writerEpoch);
      RunEndsBefore(FlatRef(Roots(h)[i].ref), from);
    }
  }

  // ---- Page listing ----

  /** The pages of one level under a reference, in LSN order. */
  function PagesUnder(r: IndexEntry, level: nat): seq<IndexEntry>
    decreases r, 1
  {
    if r.level < level then []
    else if r.level == level then [r]
    else match r.id.page
      case LeafPage(_, _) => []
      case IndexPage(_, rs) => PagesIn(rs, level)
  }

  function PagesIn(rs: seq<IndexEntry>, level: nat): seq<IndexEntry>
    decreases rs, 0
  {
    if rs == [] then [] else PagesUnder(rs[0], level) + PagesIn(rs[1..], level)
  }

  /** Every immutable page of one level that the head reaches. */
  function PagesOf(h: Head, level: nat): seq<IndexEntry> { PagesIn(SectionRefs(h.sections), level) }

  ghost predicate Within(c: Config, ps: seq<IndexEntry>, level: nat, lo: nat, hi: nat) {
    && Laid(PageSpan(), ps)
    && forall i :: 0 <= i < |ps| ==> ps[i].level == level && lo <= ps[i].seqLo && ps[i].seqHi <= hi
  }

  lemma WithinConcat(c: Config, a: seq<IndexEntry>, b: seq<IndexEntry>, level: nat, lo: nat, mid: nat, mid': nat, hi: nat)
    requires Within(c, a, level, lo, mid) && Within(c, b, level, mid', hi) && lo <= mid < mid' <= hi
    ensures Within(c, a + b, level, lo, hi)
  {
    var ps := a + b;
    forall i, j | 0 <= i < j < |ps| ensures ps[i].seqHi < ps[j].seqLo {
      if j < |a| { assert PageSpan().hi(a[i]) < PageSpan().lo(a[j]); }
      else if i >= |a| { assert PageSpan().hi(b[i - |a|]) < PageSpan().lo(b[j - |a|]); }
    }
    forall i | 0 <= i < |ps| ensures ps[i].seqLo <= ps[i].seqHi {
      if i < |a| { assert PageSpan().lo(a[i]) <= PageSpan().hi(a[i]); }
      else { assert PageSpan().lo(b[i - |a|]) <= PageSpan().hi(b[i - |a|]); }
    }
  }

  /** Pages of a level are ordered, disjoint and inside the range of the reference above them. */
  lemma {:induction false} PagesUnderWithin(c: Config, r: IndexEntry, e: nat, level: nat)
    requires Good(c, r, e)
    ensures Within(c, PagesUnder(r, level), level, r.seqLo, r.seqHi)
    decreases r, 1
  {
    if r.level > level {
      PagesInWithin(c, r.id.page.refs, r.id.page.header.writerEpoch, level);
    }
  }

  lemma {:induction false} PagesInWithin(c: Config, rs: seq<IndexEntry>, e: nat, level: nat)
    requires AllGood(c, rs, e) && RefsTile(rs)
    ensures rs == [] ==> PagesIn(rs, level) == []
    ensures rs != [] ==> rs[0].seqLo <= rs[|rs|-1].seqHi && Within(c, PagesIn(rs, level), level, rs[0].seqLo, rs[|rs|-1].seqHi)
    decreases rs, 0
  {
    if rs != [] {
      PagesUnderWithin(c, rs[0], e, level);
      TileTail(rs);
      PagesInWithin(c, rs[1..], e, level);
      assert rs[0].seqLo <= rs[0].seqHi by { assert Good(c, rs[0], e); }
      if |rs| > 1 {
        assert RefFollows(rs[0], rs[1]);
        WithinConcat(c, PagesUnder(rs[0], level), PagesIn(rs[1..], level), level, rs[0].seqLo, rs[0].seqHi, rs[1].seqLo, rs[|rs|-1].seqHi);
      }
    }
  }

  lemma {:induction false} PagesInConcat(a: seq<IndexEntry>, b: seq<IndexEntry>, level: nat)
    ensures PagesIn(a + b, level) == PagesIn(a, level) + PagesIn(b, level)
  {
    if a == [] {
      assert a + b == b;
    } else {
      var first, rest := PagesUnder(a[0], level), PagesIn(a[1..], level);
      assert (a + b)[1..] == a[1..] + b && (a + b)[0] == a[0];
      PagesInConcat(a[1..], b, level);
      assert first + (rest + PagesIn(b, level)) == (first + rest) + PagesIn(b, level);
    }
  }

  lemma PagesInSnoc(rs: seq<IndexEntry>, i: nat, level: nat)
    requires i < |rs|
    ensures PagesIn(rs[..i+1], level) == PagesIn(rs[..i], level) + PagesUnder(rs[i], level)
  {
    assert rs[..i+1] == rs[..i] + [rs[i]];
    PagesInConcat(rs[..i], [rs[i]], level);
    assert [rs[i]][1..] == [];
    assert PagesIn([rs[i]], level) == PagesUnder(rs[i], level) + PagesIn([], level);
  }

  ghost predicate ForPages(col: Collector<IndexEntry>) { col.span == PageSpan() }

  lemma SkippedPages(c: Config, rs: seq<IndexEntry>, e: nat, level: nat, from: nat, limit: nat, st: Listing<IndexEntry>)
    requires AllGood(c, rs, e) && RefsTile(rs)
    ensures var start := LowerBound(RefKeys(ByLSN, rs), from);
            Feed(PageSpan(), from, limit, st, PagesIn(rs[..start], level)) == st
  {
    hide Feed;
    var start := LowerBound(RefKeys(ByLSN, rs), from);
    var skipped := rs[..start];
    assert RefsTile(skipped) by {
      forall i, j | 0 <= i < j < |skipped| && j == i + 1 ensures RefFollows(skipped[i], skipped[j]) { assert RefFollows(rs[i], rs[j]); }
    }
    PagesInWithin(c, skipped, e, level);
    if start > 0 { assert RefKeys(ByLSN, rs)[start-1] < from; }
    FeedIgnored(PageSpan(), from, limit, st, PagesIn(skipped, level));
  }

  method CollectPagePath(c: Config, src: PageSource, r: IndexEntry, level: nat, maxEpoch: nat, col: Collector<IndexEntry>) returns (res: Result<bool>)
    requires ForPages(col) && Good(c, r, maxEpoch)
    modifies col
    ensures res.Ok? ==> col.State() == Feed(PageSpan(), col.from, col.limit, old(col.State()), PagesUnder(r, level))
    ensures Stored(src, r) ==> res.Ok?
    decreases r.level
  {
    hide Feed;
    ghost var st := col.State();
    if col.more || r.seqHi < col.from || r.level < level {
      PagesUnderWithin(c, r, maxEpoch, level);
      FeedIgnored(PageSpan(), col.from, col.limit, st, PagesUnder(r, level));
      return Ok(true);
    }
    if r.level == level {
      FeedOne(PageSpan(), col.from, col.limit, st, r);
      col.Add(r);
      return Ok(true);
    }
    var page :- Load(c, src, r, maxEpoch);
    res := CollectPagePaths(c, src, page.refs, level, page.header.writerEpoch, r.level, col);
  }

  method CollectPagePaths(c: Config, src: PageSource, rs: seq<IndexEntry>, level: nat, epoch: nat, top: nat, col: Collector<IndexEntry>) returns (res: Result<bool>)
    requires ForPages(col) && AllGood(c, rs, epoch) && RefsTile(rs) && forall i :: 0 <= i < |rs| ==> rs[i].level < top
    modifies col
    ensures res.Ok? ==> col.State() == Feed(PageSpan(), col.from, col.limit, old(col.State()), PagesIn(rs, level))
    ensures (forall i :: 0 <= i < |rs| ==> Stored(src, rs[i])) ==> res.Ok?
    decreases top, 0
  {
    hide Feed, Good, Stored, PagesIn, PagesUnder;
    ghost var st := col.State();
    RefKeysAscend(c, rs, epoch);
    var start := Search(RefKeys(ByLSN, rs), col.from);
    SkippedPages(c, rs, epoch, level, col.from, col.limit, st);
    var i := start;
    while i < |rs| && !col.more
      invariant start <= i <= |rs|
      invariant col.State() == Feed(PageSpan(), col.from, col.limit, st, PagesIn(rs[..i], level))
    {
      PagesInSnoc(rs, i, level);
      FeedConcat(PageSpan(), col.from, col.limit, st, PagesIn(rs[..i], level), PagesUnder(rs[i], level));
      var _ :- CollectPagePath(c, src, rs[i], level, epoch, col);
      i := i + 1;
    }
    assert rs == rs[..i] + rs[i..];
    PagesInConcat(rs[..i], rs[i..], level);
    FeedConcat(PageSpan(), col.from, col.limit, st, PagesIn(rs[..i], level), PagesIn(rs[i..], level));
    NoPages(rs[i..], level);
    FeedIgnored(PageSpan(), col.from, col.limit, col.State(), PagesIn(rs[i..], level));
    return Ok(true);
  }

  lemma NoPages(rs: seq<IndexEntry>, level: nat)
    ensures rs == [] ==> PagesIn(rs, level) == []
  {
  }

  lemma HeadRefsTile(c: Config, h: Head)
    requires WellFormed(c, h)
    ensures AllGood(c, SectionRefs(h.sections), h.writerEpoch) && RefsTile(SectionRefs(h.sections))
    ensures forall i :: 0 <= i < |SectionRefs(h.sections)| ==> SectionRefs(h.sections)[i].level <= MAX_INDEX_LEVEL
  {
    hide Good, SectionsGood, SectionRefs, FlatRefs, Run, EpochsOrdered, EpochsAtMost, ValidLeaf;
    var rs := SectionRefs(h.sections);
    SectionRefsGood(c, h.sections, h.writerEpoch, h.generation);
    RunParts(FlatRefs(rs), h.active);
    RunTiles(c, rs, h.writerEpoch);
    forall i | 0 <= i < |rs| ensures rs[i].level <= MAX_INDEX_LEVEL { GoodLevel(c, rs[i], h.writerEpoch); }
  }

  lemma GoodLevel(c: Config, r: IndexEntry, e: nat)
    requires Good(c, r, e)
    ensures r.level <= MAX_INDEX_LEVEL
  {
  }

  /** A bounded page of the reachable page objects of one level, from exactly this head. */
  method ListPagePaths(c: Config, src: PageSource, h: Head, level: nat, from: nat, limit: int) returns (res: Result<Listing<IndexEntry>>)
    requires h.config == c ==> WellFormed(c, h)
    ensures level > MAX_INDEX_LEVEL ==> res == Err(InvalidRequest)
    ensures level <= MAX_INDEX_LEVEL && h.config != c ==> res == Err(Identity)
    ensures res.Ok? ==> res.value == Slice(PageSpan(), PagesOf(h, level), from, NormalLimit(limit))
    ensures level <= MAX_INDEX_LEVEL && h.config == c && HeadStored(src, h) ==> res.Ok?
  {
    hide Good, Feed, Stored, SectionRefs, PagesIn, WellFormed;
    if level > MAX_INDEX_LEVEL {
      return Err(InvalidRequest);
    }
    if h.config != c {
      return Err(Identity);
    }
    var col := new Collector<IndexEntry>(PageSpan(), from, NormalLimit(limit));
    var roots := HeadRoots(h);
    var rs := SectionRefs(h.sections);
    HeadRefsTile(c, h);
    PagesInWithin(c, rs, h.writerEpoch, level);
    FeedIsSlice(PageSpan(), PagesIn(rs, level), from, NormalLimit(limit));
    FeedIgnored(PageSpan(), from, NormalLimit(limit), Listing([], 0, false), []);
    NoPages(rs[..0], level);
    var i := 0;
    ghost var k := 0;
    while i < |roots| && !col.more
      invariant 0 <= i <= |roots| && k == (if i < |rs| then i else |rs|)
      invariant col.State() == Feed(PageSpan(), col.from, col.limit, Listing([], 0, false), PagesIn(rs[..k], level))
    {
      if roots[i].PageRoot? {
        PagesInSnoc(rs, i, level);
        FeedConcat(PageSpan(), col.from, col.limit, Listing([], 0, false), PagesIn(rs[..i], level), PagesUnder(rs[i], level));
        var _ :- CollectPagePath(c, src, roots[i].ref, level, h.writerEpoch, col);
        k := k + 1;
      }
      i := i + 1;
    }
    assert rs == rs[..k] + rs[k..];
    PagesInConcat(rs[..k], rs[k..], level);
    FeedConcat(PageSpan(), col.from, col.limit, Listing([], 0, false), PagesIn(rs[..k], level), PagesIn(rs[k..], level));
    NoPages(rs[k..], level);
    FeedIgnored(PageSpan(), col.from, col.limit, col.State(), PagesIn(rs[k..], level));
    return Ok(col.State());
  }

  // ---- Reachability of one page ----

  predicate OutOfRange(r: IndexEntry, key: PageKey) { key.seqHi < r.seqLo || key.seqLo > r.seqHi }

  /** Follows only the branches whose level and range could hold the key. */
  function PageReachable(c: Config, src: PageSource, r: IndexEntry, key: PageKey, maxEpoch: nat): Result<bool>
    decreases r.level, 0
  {
    if KeyOf(r) == key then Ok(true)
    else if OutOfRange(r, key) || key.level >= r.level || r.level == 0 then Ok(false)
    else
      var p :- Load(c, src, r, maxEpoch);
      AnyReachable(c, src, p.refs, key, p.header.writerEpoch, r.level)
  }

  function AnyReachable(c: Config, src: PageSource, rs: seq<IndexEntry>, key: PageKey, epoch: nat, top: nat): Result<bool>
    requires forall i :: 0 <= i < |rs| ==> rs[i].level < top
    decreases top, 0, |rs|
  {
    if rs == [] then Ok(false)
    else if OutOfRange(rs[0], key) then AnyReachable(c, src, rs[1..], key, epoch, top)
    else
      var found :- PageReachable(c, src, rs[0], key, epoch);
      if found then Ok(true) else AnyReachable(c, src, rs[1..], key, epoch, top)
  }

  function RootsReachable(c: Config, src: PageSource, rs: seq<IndexEntry>, key: PageKey, epoch: nat): Result<bool> {
    if rs == [] then Ok(false)
    else
      var found :- PageReachable(c, src, rs[0], key, epoch);
      if found then Ok(true) else RootsReachable(c, src, rs[1..], key, epoch)
  }

  function IsPageReachable(c: Config, src: PageSource, h: Head, key: PageKey): Result<bool> {
    if key.level > MAX_INDEX_LEVEL || key.seqHi < key.seqLo then Err(InvalidRequest)
    else if h.config != c then Err(Identity)
    else RootsReachable(c, src, SectionRefs(h.sections), key, h.writerEpoch)
  }

  ghost predicate HasKey(ps: seq<IndexEntry>, key: PageKey) { exists i :: 0 <= i < |ps| && KeyOf(ps[i]) == key }

  lemma HasKeyConcat(a: seq<IndexEntry>, b: seq<IndexEntry>, key: PageKey)
    ensures HasKey(a + b, key) <==> HasKey(a, key) || HasKey(b, key)
  {
    if HasKey(a, key) {
      var i :| 0 <= i < |a| && KeyOf(a[i]) == key;
      assert (a + b)[i] == a[i];
    }
    if HasKey(b, key) {
      var i :| 0 <= i < |b| && KeyOf(b[i]) == key;
      assert (a + b)[|a| + i] == b[i];
    }
  }

  /** Pruning loses nothing: a page of another level or range cannot be under the reference. */
  lemma PrunedHasNone(c: Config, r: IndexEntry, e: nat, key: PageKey)
    requires Good(c, r, e) && KeyOf(r) != key && (OutOfRange(r, key) || key.level >= r.level || r.level == 0)
    ensures !HasKey(PagesUnder(r, key.level), key)
  {
    PagesUnderWithin(c, r, e, key.level);
    var ps := PagesUnder(r, key.level);
    forall i | 0 <= i < |ps| ensures KeyOf(ps[i]) != key {
      assert PageSpan().lo(ps[i]) <= PageSpan().hi(ps[i]);
    }
  }

  lemma {:induction false} PageReachableSound(c: Config, src: PageSource, r: IndexEntry, key: PageKey, maxEpoch: nat, e: nat)
    requires Good(c, r, e) && PageReachable(c, src, r, key, maxEpoch).Ok?
    ensures PageReachable(c, src, r, key, maxEpoch).value <==> HasKey(PagesUnder(r, key.level), key)
    decreases r, 1
  {
    if KeyOf(r) == key {
      assert PagesUnder(r, key.level)[0] == r;
    } else if OutOfRange(r, key) || key.level >= r.level || r.level == 0 {
      PrunedHasNone(c, r, e, key);
    } else {
      AnyReachableSound(c, src, r.id.page.refs, key, r.id.page.header.writerEpoch, r.level);
    }
  }

  lemma {:induction false} AnyReachableSound(c: Config, src: PageSource, rs: seq<IndexEntry>, key: PageKey, epoch: nat, top: nat)
    requires AllGood(c, rs, epoch) && (forall i :: 0 <= i < |rs| ==> rs[i].level < top) && AnyReachable(c, src, rs, key, epoch, top).Ok?
    ensures AnyReachable(c, src, rs, key, epoch, top).value <==> HasKey(PagesIn(rs, key.level), key)
    decreases rs, 0
  {
    hide Good, PagesUnder;
    if rs != [] {
      HasKeyConcat(PagesUnder(rs[0], key.level), PagesIn(rs[1..], key.level), key);
      if OutOfRange(rs[0], key) {
        SkippedHasNone(c, rs[0], epoch, key);
        AnyReachableSound(c, src, rs[1..], key, epoch, top);
      } else {
        PageReachableSound(c, src, rs[0], key, epoch, epoch);
        if !PageReachable(c, src, rs[0], key, epoch).value {
          AnyReachableSound(c, src, rs[1..], key, epoch, top);
        }
      }
    }
  }

  lemma SkippedHasNone(c: Config, r: IndexEntry, e: nat, key: PageKey)
    requires Good(c, r, e) && OutOfRange(r, key)
    ensures !HasKey(PagesUnder(r, key.level), key)
  {
    PrunedHasNone(c, r, e, key);
  }

  lemma {:induction false} RootsReachableSound(c: Config, src: PageSource, rs: seq<IndexEntry>, key: PageKey, epoch: nat)
    requires AllGood(c, rs, epoch) && RootsReachable(c, src, rs, key, epoch).Ok?
    ensures RootsReachable(c, src, rs, key, epoch).value <==> HasKey(PagesIn(rs, key.level), key)
  {
    hide Good, PagesUnder;
    if rs != [] {
      HasKeyConcat(PagesUnder(rs[0], key.level), PagesIn(rs[1..], key.level), key);
      PageReachableSound(c, src, rs[0], key, epoch, epoch);
      if !PageReachable(c, src, rs[0], key, epoch).value {
        RootsReachableSound(c, src, rs[1..], key, epoch);
      }
    }
  }

  lemma {:induction false} PageReachableComplete(c: Config, src: PageSource, r: IndexEntry, key: PageKey, e: nat)
    requires Good(c, r, e) && Stored(src, r)
    ensures PageReachable(c, src, r, key, e).Ok?
    decreases r, 1
  {
    if !(KeyOf(r) == key || OutOfRange(r, key) || key.level >= r.level || r.level == 0) {
      LoadStored(c, src, r, e);
      AnyReachableComplete(c, src, r.id.page.refs, key, r.id.page.header.writerEpoch, r.level);
    }
  }

  lemma {:induction false} AnyReachableComplete(c: Config, src: PageSource, rs: seq<IndexEntry>, key: PageKey, epoch: nat, top: nat)
    requires AllGood(c, rs, epoch) && (forall i :: 0 <= i < |rs| ==> rs[i].level < top && Stored(src, rs[i]))
    ensures AnyReachable(c, src, rs, key, epoch, top).Ok?
    decreases rs, 0
  {
    hide Good, Stored;
    if rs != [] {
      PageReachableComplete(c, src, rs[0], key, epoch);
      AnyReachableComplete(c, src, rs[1..], key, epoch, top);
    }
  }

  lemma {:induction false} RootsReachableComplete(c: Config, src: PageSource, rs: seq<IndexEntry>, key: PageKey, epoch: nat)
    requires AllGood(c, rs, epoch) && forall i :: 0 <= i < |rs| ==> Stored(src, rs[i])
    ensures RootsReachable(c, src, rs, key, epoch).Ok?
  {
    hide Good, Stored;
    if rs != [] {
      PageReachableComplete(c, src, rs[0], key, epoch);
      RootsReachableComplete(c, src, rs[1..], key, epoch);
    }
  }

  /** The pruned walk answers exactly whether the key is among the pages the head reaches, and
      does answer while they are stored. */
  lemma IsPageReachableExact(c: Config, src: PageSource, h: Head, key: PageKey)
    requires WellFormed(c, h) && key.level <= MAX_INDEX_LEVEL && key.seqLo <= key.seqHi
    ensures IsPageReachable(c, src, h, key).Ok? ==>
              (IsPageReachable(c, src, h, key).value <==> HasKey(PagesOf(h, key.level), key))
    ensures HeadStored(src, h) ==> IsPageReachable(c, src, h, key).Ok?
  {
    hide Good, Stored, SectionRefs, PagesIn, RootsReachable, Run, SectionsGood;
    HeadRefsTile(c, h);
    if RootsReachable(c, src, SectionRefs(h.sections), key, h.writerEpoch).Ok? {
      RootsReachableSound(c, src, SectionRefs(h.sections), key, h.writerEpoch);
    }
    if HeadStored(src, h) {
      RootsReachableComplete(c, src, SectionRefs(h.sections), key, h.writerEpoch);
    }
  }
}
