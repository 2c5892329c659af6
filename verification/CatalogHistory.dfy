/** Whole histories of durable heads: what one accepted mutation after another keeps. */
module CatalogHistory {
  import opened CatalogTypes
  import opened CatalogFlat
  import opened CatalogReader
  import opened CatalogMemory
  import Tree = CatalogTree
  import Retention = CatalogRetention
  import opened CatalogReach

  // ---- Results do not depend on what the store held, only on whether the reads succeeded ----

  lemma LoadWhole(c: Config, src: PageSource, r: IndexEntry, e: nat)
    requires Load(c, src, r, e).Ok?
    ensures Load(c, WholeStore(), r, e) == Load(c, src, r, e)
  {
  }

  lemma {:induction false} FindWhole(c: Config, src: PageSource, r: IndexEntry, lsn: nat, e: nat)
    requires FindInPage(c, src, r, lsn, e).Ok?
    ensures FindInPage(c, WholeStore(), r, lsn, e) == FindInPage(c, src, r, lsn, e)
    decreases r.level
  {
    hide LowerBound;
    LoadWhole(c, src, r, e);
    var p := Load(c, src, r, e).value;
    if p.IndexPage? {
      var i := LowerBound(RefKeys(ByLSN, p.refs), lsn);
      if i < |p.refs| && p.refs[i].seqLo <= lsn {
        FindWhole(c, src, p.refs[i], lsn, p.header.writerEpoch);
      }
    }
  }

  lemma {:induction false} TrimWhole(c: Config, src: PageSource, r: IndexEntry, eff: nat, generation: nat, epoch: nat)
    requires Retention.TrimRef(c, src, r, eff, generation, epoch).Ok?
    ensures Retention.TrimRef(c, WholeStore(), r, eff, generation, epoch) == Retention.TrimRef(c, src, r, eff, generation, epoch)
    decreases r.level, 1
  {
    hide LowerBound, Load, ValidPage, Retention.TrimEntries;
    if eff > r.seqLo {
      LoadWhole(c, src, r, epoch);
      var p := Load(c, src, r, epoch).value;
      if p.IndexPage? {
        PageLevels(p, r.level);
        TrimAllWhole(c, src, p.refs, r.level, eff, generation, epoch);
      }
    }
  }

  lemma {:induction false} TrimAllWhole(c: Config, src: PageSource, rs: seq<IndexEntry>, top: nat, eff: nat, generation: nat, epoch: nat)
    requires Retention.TrimEntries(c, src, rs, eff, generation, epoch).Ok? && forall i :: 0 <= i < |rs| ==> rs[i].level < top
    ensures Retention.TrimEntries(c, WholeStore(), rs, eff, generation, epoch) == Retention.TrimEntries(c, src, rs, eff, generation, epoch)
    decreases top, 0
  {
    hide LowerBound, Retention.TrimRef;
    var i := LowerBound(RefKeys(ByLSN, rs), eff);
    if i < |rs| {
      TrimWhole(c, src, rs[i], eff, generation, epoch);
    }
  }

  lemma {:induction false} TrimSectionsWhole(c: Config, src: PageSource, ss: seq<seq<IndexEntry>>, eff: nat, generation: nat, epoch: nat)
    requires Retention.TrimSections(c, src, ss, eff, generation, epoch).Ok?
    ensures Retention.TrimSections(c, WholeStore(), ss, eff, generation, epoch) == Retention.TrimSections(c, src, ss, eff, generation, epoch)
  {
    hide Retention.TrimEntries;
    if ss != [] {
      var n := |ss| - 1;
      TrimSectionsWhole(c, src, ss[..n], eff, generation, epoch);
      TrimAllWhole(c, src, ss[n], MaxLevel(ss[n]), eff, generation, epoch);
    }
  }

  lemma FindSegmentWhole(c: Config, src: PageSource, h: Head, lsn: nat)
    requires FindSegment(c, src, h, lsn).Ok?
    ensures FindSegment(c, WholeStore(), h, lsn) == FindSegment(c, src, h, lsn)
  {
    hide LowerBound, FindInPage, Roots;
    if !(h.last.None? || lsn < h.oldestLSN || lsn >= h.nextLSN) {
      var roots := Roots(h);
      var i := LowerBound(RootKeys(ByLSN, roots), lsn);
      if i < |roots| && roots[i].Lo() <= lsn && roots[i].PageRoot? {
        FindWhole(c, src, roots[i].ref, lsn, h.writerEpoch);
      }
    }
  }

  lemma TrimHeadWhole(c: Config, src: PageSource, h: Head, eff: nat)
    requires Retention.TrimHead(c, src, h, eff).Ok?
    ensures Retention.TrimHead(c, WholeStore(), h, eff) == Retention.TrimHead(c, src, h, eff)
  {
    hide LowerBound, Roots, Retention.TrimSections, Retention.DropTrailing;
    TrimSectionsWhole(c, src, h.sections, eff, h.generation, h.writerEpoch);
  }

  /** Any two successful computations of a retention, over any stores, give the same mutation. */
  lemma RetentionWhole(c: Config, src: PageSource, h: Head, before: nat, version: nat)
    requires Retention.ApplyRetention(c, src, h, before, version).Ok?
    ensures TreeStep(c, h, RetainStep(before, version)) == Retention.ApplyRetention(c, src, h, before, version)
  {
    hide ValidHead, FindSegment, Retention.TrimHead, Retention.ReachableCount;
    var target := Retention.Target(h, before);
    var next := h.(generation := h.generation + 1, retentionLSN := target, retentionVersion := version);
    if FindSegment(c, src, h, target).Ok? {
      FindSegmentWhole(c, src, h, target);
      var found := FindSegment(c, src, h, target).value;
      if found.Some? && Retention.TrimHead(c, src, next, found.value.baseLSN).Ok? {
        TrimHeadWhole(c, src, next, found.value.baseLSN);
      }
    }
  }

  // ---- One step ----

  /** h' is exactly the mutation s of h, one generation later. */
  ghost predicate Advances(c: Config, h: Head, s: Step, h': Head) {
    TreeStep(c, h, s).Ok? && TreeStep(c, h, s).value.head == h' && h'.generation == h.generation + 1
  }

  ghost predicate NoEarlier(h: Head, h': Head) {
    && h.generation <= h'.generation && h.nextLSN <= h'.nextLSN && h.oldestLSN <= h'.oldestLSN
    && h.writerEpoch <= h'.writerEpoch && h.retentionVersion <= h'.retentionVersion && h.retentionLSN <= h'.retentionLSN
  }

  /** What a step may add: one segment at the end, under the current fence. */
  ghost predicate AddsAtMost(h: Head, s: Step, h': Head) {
    && (forall e :: e in Flat(h') ==> e in Flat(h) || s == AppendStep(e))
    && (s.AppendStep? ==>
          && s.entry.baseLSN == h.nextLSN && s.entry.writerEpoch == h.writerEpoch == h'.writerEpoch
          && s.entry.writerTag == h.writerID && h'.nextLSN > h.nextLSN && Flat(h') == Flat(h) + [s.entry])
  }

  ghost predicate PagesAdvance(h: Head, h': Head, pages: seq<IndexEntry>) {
    Reach(h') <= Reach(h) + Keys(pages) && AllOf(pages, h'.generation)
  }

  lemma TakeoverAdvances(c: Config, h: Head, w: nat)
    requires Sound(c, h) && TreeStep(c, h, TakeoverStep(w)).Ok?
    ensures var m := TreeStep(c, h, TakeoverStep(w)).value;
            Sound(c, m.head) && NoEarlier(h, m.head) && AddsAtMost(h, TakeoverStep(w), m.head) && PagesAdvance(h, m.head, m.pages)
  {
    hide Tree.WellFormed, Tree.Spacious, ValidHead, FlatRefs, SectionRefs, ReachRefs;
    Tree.TakeoverWellFormed(c, h, w);
  }

  lemma AppendAdvances(c: Config, h: Head, e: LeafEntry)
    requires Sound(c, h) && TreeStep(c, h, AppendStep(e)).Ok?
    ensures var m := TreeStep(c, h, AppendStep(e)).value;
            Sound(c, m.head) && NoEarlier(h, m.head) && AddsAtMost(h, AppendStep(e), m.head) && PagesAdvance(h, m.head, m.pages)
  {
    hide Tree.Spacious, Tree.Append, ReachRefs, FlatRefs, SectionRefs, Tree.Shape, Run, EpochsOrdered, EpochsAtMost;
    Tree.AppendWellFormed(c, h, e);
    AppendReach(c, h, e);
  }

  lemma RetainAdvances(c: Config, h: Head, before: nat, version: nat)
    requires Sound(c, h) && TreeStep(c, h, RetainStep(before, version)).Ok?
    requires !(version == h.retentionVersion && before == h.retentionLSN)
    ensures var m := TreeStep(c, h, RetainStep(before, version)).value;
            Sound(c, m.head) && NoEarlier(h, m.head) && AddsAtMost(h, RetainStep(before, version), m.head) && PagesAdvance(h, m.head, m.pages)
  {
    hide Tree.Spacious, Retention.ApplyRetention, ReachRefs, FlatRefs, SectionRefs, Tree.Shape, Run, EpochsOrdered, EpochsAtMost, Keep, ValidLeaf;
    Retention.ApplyRetentionRefines(c, WholeStore(), h, before, version);
    RetentionReach(c, WholeStore(), h, before, version);
    KeptSegments(c, h, Retention.Target(h, before));
  }

  lemma KeptSegments(c: Config, h: Head, target: nat)
    requires Tree.WellFormed(c, h)
    ensures var f := Keep(ByLSN, Flat(h), target);
            && (forall e :: e in f ==> e in Flat(h))
            && (f != [] ==> f[0].baseLSN >= h.oldestLSN)
  {
    hide Tree.Shape, FlatRefs, SectionRefs, Keep;
    KeepSuffix(ByLSN, Flat(h), target);
    if Keep(ByLSN, Flat(h), target) != [] {
      Retention.OrderedKeep(Flat(h), target, h.writerEpoch);
    }
  }

  /** Every accepted mutation keeps heads sound, moves no bound back, adds at most its own segment,
      and adds only pages of its own generation. */
  lemma StepAdvances(c: Config, h: Head, s: Step, h': Head)
    requires Sound(c, h) && Advances(c, h, s, h')
    ensures Sound(c, h') && NoEarlier(h, h') && AddsAtMost(h, s, h')
    ensures PagesAdvance(h, h', TreeStep(c, h, s).value.pages)
  {
    hide Sound, NoEarlier, AddsAtMost, PagesAdvance;
    match s
    case TakeoverStep(w) => TakeoverAdvances(c, h, w);
    case AppendStep(e) => AppendAdvances(c, h, e);
    case RetainStep(b, v) =>
      if v == h.retentionVersion && b == h.retentionLSN {
        SameGeneration(c, h, b, v);
      } else {
        RetainAdvances(c, h, b, v);
      }
  }

  /** Dropping the segments below a boundary leaves every one that ends at or above the new oldest LSN. */
  lemma KeepDrops(f: seq<LeafEntry>, x: int, next: nat, e: LeafEntry)
    requires Run(f) && e in f && e.lastLSN < next
    ensures var k := Keep(ByLSN, f, x); e in k || e.lastLSN < (if k == [] then next else k[0].baseLSN)
  {
    hide Keep, LowerBound;
    KeepSuffix(ByLSN, f, x);
    var n := LowerBound(LeafKeys(ByLSN, f), x);
    var i :| 0 <= i < |f| && f[i] == e;
    if i >= n {
      assert f[n..][i - n] == e;
    } else if n < |f| {
      RunOrder(f, i, n);
    }
  }

  lemma SoundSegment(c: Config, h: Head, e: LeafEntry)
    requires Sound(c, h) && e in Flat(h)
    ensures Run(Flat(h)) && h.oldestLSN <= e.baseLSN <= e.lastLSN < h.nextLSN
  {
    hide Tree.Spacious, FlatRefs, SectionRefs, EpochsOrdered, EpochsAtMost;
    var f := Flat(h);
    var i :| 0 <= i < |f| && f[i] == e;
    if i > 0 { RunOrder(f, 0, i); }
    if i < |f| - 1 { RunOrder(f, i, |f| - 1); }
  }

  /** A step drops a segment only by moving the oldest LSN past it. */
  lemma StepKeeps(c: Config, h: Head, s: Step, h': Head, e: LeafEntry)
    requires Sound(c, h) && Advances(c, h, s, h') && e in Flat(h)
    ensures e in Flat(h') || e.lastLSN < h'.oldestLSN
  {
    hide Sound, Flat, Run, Keep;
    SoundSegment(c, h, e);
    match s
    case TakeoverStep(w) => TakeoverKeepsFlat(c, h, w);
    case AppendStep(a) => StepAdvances(c, h, s, h');
    case RetainStep(b, v) =>
      if v == h.retentionVersion && b == h.retentionLSN {
        SameGeneration(c, h, b, v);
      } else {
        RetainedBy(c, h, b, v);
        KeepDrops(Flat(h), Retention.Target(h, b), h.nextLSN, e);
      }
  }

  lemma TakeoverKeepsFlat(c: Config, h: Head, w: nat)
    requires Sound(c, h) && TreeStep(c, h, TakeoverStep(w)).Ok?
    ensures Flat(TreeStep(c, h, TakeoverStep(w)).value.head) == Flat(h)
  {
    hide Tree.WellFormed, Tree.Spacious, ValidHead, FlatRefs, SectionRefs;
    Tree.TakeoverWellFormed(c, h, w);
  }

  lemma RetainedBy(c: Config, h: Head, before: nat, version: nat)
    requires Sound(c, h) && TreeStep(c, h, RetainStep(before, version)).Ok?
    requires !(version == h.retentionVersion && before == h.retentionLSN)
    ensures var h' := TreeStep(c, h, RetainStep(before, version)).value.head;
            var f := Keep(ByLSN, Flat(h), Retention.Target(h, before));
            Flat(h') == f && h'.oldestLSN == if f == [] then h.nextLSN else f[0].baseLSN
  {
    hide Retention.ApplyRetention, Flat, Keep, Tree.WellFormed, Tree.Spacious;
    Retention.ApplyRetentionRefines(c, WholeStore(), h, before, version);
  }

  lemma SameGeneration(c: Config, h: Head, before: nat, version: nat)
    requires version == h.retentionVersion && before == h.retentionLSN && TreeStep(c, h, RetainStep(before, version)).Ok?
    ensures TreeStep(c, h, RetainStep(before, version)).value.head == h
  {
    hide ValidHead;
  }

  // ---- Chains ----

  /** A history: a fresh head followed by exactly one accepted mutation per generation. */
  ghost predicate Chain(c: Config, hs: seq<Head>, steps: seq<Step>) {
    && ValidConfig(c) && |hs| == |steps| + 1
    && (exists n: nat :: n <= MAX_RECORD_LSN && hs[0] == Fresh(c, n))
    && (forall i, j :: 0 <= i < |steps| && j == i + 1 ==> Advances(c, hs[i], steps[i], hs[j]))
  }

  function Fresh(c: Config, n: nat): Head { Head(c, n, n, 0, 0, 0, 0, 0, 0, 0, None, [], []) }

  lemma FreshSound(c: Config, n: nat)
    requires ValidConfig(c) && n <= MAX_RECORD_LSN
    ensures Sound(c, Fresh(c, n)) && Tree.NewHead(c, n) == Ok(Fresh(c, n)) && Reach(Fresh(c, n)) == {} && Flat(Fresh(c, n)) == []
  {
    hide ValidHead, Tree.WellFormed, Tree.Spacious;
    Tree.NewHeadWellFormed(c, n);
  }

  /** Every durable head is well formed, and its generation is its place in the history. */
  lemma {:induction false} ChainSound(c: Config, hs: seq<Head>, steps: seq<Step>, i: nat)
    requires Chain(c, hs, steps) && i < |hs|
    ensures Sound(c, hs[i]) && hs[i].generation == i
    decreases i
  {
    hide Sound, TreeStep;
    if i == 0 {
      var n: nat :| n <= MAX_RECORD_LSN && hs[0] == Fresh(c, n);
      FreshSound(c, n);
    } else {
      ChainSound(c, hs, steps, i - 1);
      assert Advances(c, hs[i-1], steps[i-1], hs[i]);
      StepAdvances(c, hs[i-1], steps[i-1], hs[i]);
    }
  }

  /** NextLSN, OldestLSN, epoch and applied retention never go back. */
  lemma {:induction false} ChainMonotone(c: Config, hs: seq<Head>, steps: seq<Step>, i: nat, j: nat)
    requires Chain(c, hs, steps) && i <= j < |hs|
    ensures NoEarlier(hs[i], hs[j])
    decreases j
  {
    hide Sound, TreeStep;
    if i < j {
      ChainMonotone(c, hs, steps, i, j - 1);
      ChainSound(c, hs, steps, j - 1);
      assert Advances(c, hs[j-1], steps[j-1], hs[j]);
      StepAdvances(c, hs[j-1], steps[j-1], hs[j]);
    }
  }

  /** A segment of a later head was there already or was appended since, at the end and under a fence no older. */
  lemma {:induction false} ChainSegments(c: Config, hs: seq<Head>, steps: seq<Step>, i: nat, j: nat, e: LeafEntry)
    requires Chain(c, hs, steps) && i <= j < |hs| && e in Flat(hs[j])
    ensures e in Flat(hs[i]) ||
            (e.baseLSN >= hs[i].nextLSN && e.writerEpoch >= hs[i].writerEpoch && exists k :: i <= k < j && steps[k] == AppendStep(e))
    decreases j
  {
    hide Sound, TreeStep, Flat;
    if i < j {
      ChainSound(c, hs, steps, j - 1);
      assert Advances(c, hs[j-1], steps[j-1], hs[j]);
      StepAdvances(c, hs[j-1], steps[j-1], hs[j]);
      if e in Flat(hs[j-1]) {
        ChainSegments(c, hs, steps, i, j - 1, e);
      } else {
        ChainMonotone(c, hs, steps, i, j - 1);
        assert steps[j-1] == AppendStep(e);
      }
    }
  }

  /** A segment stays in the log until the oldest LSN passes it: a later head holds it exactly when its base is
      not below that head's oldest LSN. */
  lemma {:induction false} ChainKeeps(c: Config, hs: seq<Head>, steps: seq<Step>, i: nat, j: nat, e: LeafEntry)
    requires Chain(c, hs, steps) && i <= j < |hs| && e in Flat(hs[i])
    ensures e in Flat(hs[j]) <==> e.baseLSN >= hs[j].oldestLSN
    ensures e in Flat(hs[j]) || e.lastLSN < hs[j].oldestLSN
    decreases j
  {
    hide Sound, TreeStep, Flat;
    ChainSound(c, hs, steps, i);
    SoundSegment(c, hs[i], e);
    ChainSound(c, hs, steps, j);
    if e in Flat(hs[j]) { SoundSegment(c, hs[j], e); }
    if i < j {
      ChainKeeps(c, hs, steps, i, j - 1, e);
      ChainSound(c, hs, steps, j - 1);
      assert Advances(c, hs[j-1], steps[j-1], hs[j]);
      if e in Flat(hs[j-1]) {
        StepKeeps(c, hs[j-1], steps[j-1], hs[j], e);
      } else {
        ChainMonotone(c, hs, steps, j - 1, j);
      }
    }
  }

  /** A page of a later head was reachable already or was written by a later generation. */
  lemma {:induction false} ChainPages(c: Config, hs: seq<Head>, steps: seq<Step>, i: nat, j: nat, key: PageKey)
    requires Chain(c, hs, steps) && i <= j < |hs| && key in Reach(hs[j])
    ensures key in Reach(hs[i]) || key.generation > hs[i].generation
    decreases j
  {
    hide Sound, TreeStep, Reach;
    if i < j {
      ChainSound(c, hs, steps, j - 1);
      ChainSound(c, hs, steps, i);
      assert Advances(c, hs[j-1], steps[j-1], hs[j]);
      StepAdvances(c, hs[j-1], steps[j-1], hs[j]);
      if key in Reach(hs[j-1]) {
        ChainPages(c, hs, steps, i, j - 1, key);
      } else {
        NewKeys(TreeStep(c, hs[j-1], steps[j-1]).value.pages, hs[j].generation, key);
      }
    }
  }

  lemma NewKeys(ps: seq<IndexEntry>, generation: nat, key: PageKey)
    requires AllOf(ps, generation) && key in Keys(ps)
    ensures key.generation == generation
  {
  }

  /** No segment is added twice, and each is added under the fence of its own epoch. */
  lemma AppendOnce(c: Config, hs: seq<Head>, steps: seq<Step>, i: nat, j: nat, e: LeafEntry)
    requires Chain(c, hs, steps) && i < |steps| && j < |steps| && steps[i] == AppendStep(e) && steps[j] == AppendStep(e)
    ensures i == j && e.writerEpoch == hs[i].writerEpoch && e.baseLSN == hs[i].nextLSN
  {
    hide Sound, TreeStep;
    AppendedAt(c, hs, steps, i, e);
    AppendedAt(c, hs, steps, j, e);
    if i < j {
      ChainMonotone(c, hs, steps, i + 1, j);
    } else if j < i {
      ChainMonotone(c, hs, steps, j + 1, i);
    }
  }

  lemma AppendedAt(c: Config, hs: seq<Head>, steps: seq<Step>, i: nat, e: LeafEntry)
    requires Chain(c, hs, steps) && i < |steps| && steps[i] == AppendStep(e)
    ensures e.baseLSN == hs[i].nextLSN < hs[i+1].nextLSN && e.writerEpoch == hs[i].writerEpoch && Flat(hs[i+1]) == Flat(hs[i]) + [e]
  {
    hide Sound, TreeStep, Flat;
    ChainSound(c, hs, steps, i);
    assert Advances(c, hs[i], steps[i], hs[i+1]);
    StepAdvances(c, hs[i], steps[i], hs[i+1]);
  }

  // ---- The tree refines the list over whole runs ----

  /** The list after the same steps, as long as it accepts them all. */
  function ListRun(v: View, steps: seq<Step>): Result<View> {
    if steps == [] then Ok(v)
    else
      var w :- ListRun(v, steps[..|steps|-1]);
      ListStep(w, steps[|steps|-1])
  }

  /** No segment is appended under an ID that a segment still in the log has. */
  ghost predicate FreshIDs(hs: seq<Head>, steps: seq<Step>)
    requires |hs| == |steps| + 1
  {
    forall i :: 0 <= i < |steps| && steps[i].AppendStep? ==> Unique(Flat(hs[i]), steps[i].entry)
  }

  /** A step the tree accepted is refused by the list only for a repeated segment ID. */
  lemma AdvanceRefines(c: Config, h: Head, s: Step, h': Head)
    requires Sound(c, h) && Advances(c, h, s, h')
    ensures ListStep(Abs(h), s).Ok? <==> (s.AppendStep? ==> Unique(Flat(h), s.entry))
    ensures ListStep(Abs(h), s).Ok? ==> ListStep(Abs(h), s) == Ok(Abs(h'))
  {
    hide Sound, TreeStep, ListStep, Abs, Unique, Flat, Fits;
    StepRefines(c, h, s);
    match s
    case TakeoverStep(w) => TakeoverRoom(c, h, w);
    case AppendStep(e) =>
      AppendRefines(c, h, e);
      AppendRoom(c, h, e);
    case RetainStep(b, v) => RetainRoom(c, h, b, v, h');
  }

  lemma TakeoverRoom(c: Config, h: Head, w: nat)
    requires Sound(c, h) && TreeStep(c, h, TakeoverStep(w)).Ok?
    ensures h.generation < MAX_U64 && h.writerEpoch < MAX_U64
  {
    hide Tree.WellFormed, Tree.Spacious, Tree.Takeover;
    Tree.TakeoverWellFormed(c, h, w);
  }

  lemma AppendRoom(c: Config, h: Head, e: LeafEntry)
    requires Sound(c, h) && TreeStep(c, h, AppendStep(e)).Ok?
    ensures h.generation < MAX_U64 && e.lastLSN < MAX_RECORD_LSN
  {
    hide Tree.WellFormed, Tree.Spacious, Tree.Append;
    Tree.AppendWellFormed(c, h, e);
  }

  lemma RetainRoom(c: Config, h: Head, b: nat, v: nat, h': Head)
    requires Sound(c, h) && Advances(c, h, RetainStep(b, v), h')
    ensures h.generation < MAX_U64 && !(v == h.retentionVersion && b == h.retentionLSN)
  {
    hide Tree.WellFormed, Tree.Spacious, Retention.ApplyRetention;
    if v == h.retentionVersion && b == h.retentionLSN {
      SameGeneration(c, h, b, v);
    } else {
      Retention.ApplyRetentionRefines(c, WholeStore(), h, b, v);
    }
  }

  /** Over any history the flattened tree is exactly what the in-memory catalog holds after the same steps, unless a step
      repeats a segment ID, which only that catalog refuses. */
  lemma {:induction false} RunRefines(c: Config, hs: seq<Head>, steps: seq<Step>)
    requires Chain(c, hs, steps)
    ensures |hs| == |steps| + 1
    ensures ListRun(Abs(hs[0]), steps).Ok? <==> FreshIDs(hs, steps)
    ensures FreshIDs(hs, steps) ==> ListRun(Abs(hs[0]), steps) == Ok(Abs(hs[|hs|-1]))
    decreases |steps|
  {
    hide Sound, TreeStep, ListStep, Abs, Unique, Flat;
    if steps != [] {
      var n := |steps| - 1;
      ChainPrefix(c, hs, steps, n);
      var hp, sp := hs[..n+1], steps[..n];
      RunRefines(c, hp, sp);
      assert FreshIDs(hs, steps) <==> FreshIDs(hp, sp) && (steps[n].AppendStep? ==> Unique(Flat(hs[n]), steps[n].entry)) by {
        assert forall i :: 0 <= i < n ==> hp[i] == hs[i] && sp[i] == steps[i];
      }
      ChainSound(c, hs, steps, n);
      assert Advances(c, hs[n], steps[n], hs[n+1]);
      AdvanceRefines(c, hs[n], steps[n], hs[n+1]);
    }
  }

  // ---- Where they differ ----

  function Sample(lsn: nat): LeafEntry { LeafEntry(lsn, lsn, 0, 0, 1, 7, 5, Detail(1, 1, 1, 0, 1, 0, 0, 0, 0)) }

  /** A segment ID used twice, one record each: the tree takes both segments, the list refuses the second. */
  lemma RepeatedID() returns (c: Config, h: Head, e: LeafEntry)
    ensures Sound(c, h) && TreeStep(c, h, AppendStep(e)).Ok? && ListStep(Abs(h), AppendStep(e)).Err?
  {
    hide Sound, TreeStep, ListStep, Abs, Flat;
    c, h := Begun(0);
    var first := Sample(0);
    AppendAllowed(c, h, first);
    AppendedHead(c, h, first);
    StepAdvances(c, h, AppendStep(first), TreeStep(c, h, AppendStep(first)).value.head);
    h, e := TreeStep(c, h, AppendStep(first)).value.head, Sample(1);
    AppendAllowed(c, h, e);
    assert !Unique(Flat(h), e) by { assert Flat(h)[|Flat(h)|-1] == first; }
    AppendRefines(c, h, e);
  }

  /** The last LSN a record may have: the list takes it, the tree does not. */
  lemma LastLSN() returns (c: Config, h: Head, e: LeafEntry)
    ensures Sound(c, h) && TreeStep(c, h, AppendStep(e)).Err? && ListStep(Abs(h), AppendStep(e)).Ok?
  {
    hide Sound, TreeStep, ListStep, Abs, Flat;
    c, h := Begun(MAX_RECORD_LSN);
    e := Sample(MAX_RECORD_LSN);
    AppendRefines(c, h, e);
    if TreeStep(c, h, AppendStep(e)).Ok? { AppendRoom(c, h, e); }
  }

  /** A log with a writer and no segment yet. */
  lemma Begun(n: nat) returns (c: Config, h: Head)
    requires n <= MAX_RECORD_LSN
    ensures ValidConfig(c) && Sound(c, h) && h.config == c && h.nextLSN == n && h.writerEpoch == 1 && h.writerID == 5 && h.last.None? && h.generation == 1 && Flat(h) == []
  {
    hide Tree.WellFormed, Tree.Spacious, ValidHead, Flat;
    c := Config(0, 1, 1, 0, 2, 2);
    var g := Fresh(c, n);
    FreshSound(c, n);
    Tree.TakeoverWellFormed(c, g, 5);
    h := Tree.Takeover(c, g, 5).value.head;
  }

  lemma AppendAllowed(c: Config, h: Head, e: LeafEntry)
    requires Sound(c, h) && h.config == c && h.generation < MAX_U64 && Fits(h, e) && e.lastLSN < MAX_RECORD_LSN
    ensures TreeStep(c, h, AppendStep(e)).Ok?
  {
    hide Tree.WellFormed, Tree.Spacious, Tree.Append;
    Tree.AppendWellFormed(c, h, e);
  }

  lemma AppendedHead(c: Config, h: Head, e: LeafEntry)
    requires Sound(c, h) && TreeStep(c, h, AppendStep(e)).Ok?
    ensures var h' := TreeStep(c, h, AppendStep(e)).value.head;
            && h'.config == h.config && h'.generation == h.generation + 1 && h'.nextLSN == e.lastLSN + 1 && h'.last == Some(e)
            && h'.writerEpoch == h.writerEpoch && h'.writerID == h.writerID && Flat(h') == Flat(h) + [e]
  {
    hide Tree.WellFormed, Tree.Spacious, Tree.Append;
    Tree.AppendWellFormed(c, h, e);
  }

  lemma ChainPrefix(c: Config, hs: seq<Head>, steps: seq<Step>, n: nat)
    requires Chain(c, hs, steps) && n <= |steps|
    ensures Chain(c, hs[..n+1], steps[..n])
  {
    hide TreeStep;
    var hp, sp := hs[..n+1], steps[..n];
    assert hp[0] == hs[0];
    forall i, j | 0 <= i < |sp| && j == i + 1 ensures Advances(c, hp[i], sp[i], hp[j]) {
      assert Advances(c, hs[i], steps[i], hs[j]);
    }
  }

  lemma ChainExtend(c: Config, hs: seq<Head>, steps: seq<Step>, s: Step, h': Head)
    requires Chain(c, hs, steps) && Advances(c, hs[|hs|-1], s, h')
    ensures Chain(c, hs + [h'], steps + [s])
  {
    hide TreeStep;
    var hp, sp := hs + [h'], steps + [s];
    assert hp[0] == hs[0];
    forall i, j | 0 <= i < |sp| && j == i + 1 ensures Advances(c, hp[i], sp[i], hp[j]) {
      if j < |hs| { assert Advances(c, hs[i], steps[i], hs[j]); }
    }
  }
}
