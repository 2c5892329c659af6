/** Pass after pass of a reclaimer over one partition: budgets run out, deletes and saves fail, passes crash, and the next
    one starts from whatever record was left in the store. */
module SweepRuns {
  import opened CatalogTypes
  import opened KeyLayout
  import opened Sweep
  import opened GcState
  import opened Reclaim
  import Tree = CatalogTree
  import Reach = CatalogReach
  import Listing = CatalogListing

  /** A record from which a sweep may resume. */
  ghost predicate Resumable(segments: string, pages: string, left: set<string>, s: State) {
    ValidState(s) && SegmentsSwept(segments, left, s) && PagesSwept(pages, left, s)
  }

  /** Without a checkpoint any valid record is one. */
  lemma FreshRecord(segments: string, pages: string, left: set<string>, s: State)
    requires ValidState(s) && s.segmentAfter == "" && s.pageLevel == 0 && s.pageAfter == ""
    ensures Resumable(segments, pages, left, s)
  {
    hide Passed, Cleared, LowerBound, ValidState;
    FreshSweep(Segments(segments), left, s.segmentThrough);
    FreshSweep(Pages(pages, 0), left, s.pageThrough);
  }

  /** What later records of a partition have over an earlier one: no watermark falls, and nothing of the start is left
      between the watermarks, for pages on the levels the later record knows. */
  ghost predicate Moved(segments: string, pages: string, left: set<string>, s: State, t: State) {
    && s.segmentThrough <= t.segmentThrough && s.pageThrough <= t.pageThrough && s.safeFloor <= t.safeFloor && s.maxPageLevel <= t.maxPageLevel
    && Cleared(Segments(segments), left, s.segmentThrough, t.segmentThrough)
    && LevelsCleared(pages, left, s.pageThrough, t.pageThrough, t.maxPageLevel + 1)
  }

  lemma NothingBetween(t: Target, left: set<string>, at: nat)
    ensures Cleared(t, left, at, at)
  {
    hide Position;
  }

  lemma ClearedJoin(t: Target, left: set<string>, a: nat, b: nat, c: nat)
    requires Cleared(t, left, a, b) && Cleared(t, left, b, c)
    ensures Cleared(t, left, a, c)
  {
    hide Position;
  }

  lemma LevelsJoin(pages: string, left: set<string>, a: nat, b: nat, c: nat, n: nat, m: nat)
    requires LevelsCleared(pages, left, a, b, n) && LevelsCleared(pages, left, b, c, m) && n <= m
    ensures LevelsCleared(pages, left, a, c, n)
  {
    hide Cleared;
    forall level | 0 <= level < n ensures Cleared(Pages(pages, level), left, a, c) { ClearedJoin(Pages(pages, level), left, a, b, c); }
  }

  lemma LevelsShrink(pages: string, before: set<string>, left: set<string>, a: nat, b: nat, n: nat)
    requires LevelsCleared(pages, before, a, b, n) && left <= before
    ensures LevelsCleared(pages, left, a, b, n)
  {
    hide Cleared;
    forall level | 0 <= level < n ensures Cleared(Pages(pages, level), left, a, b) { ClearedShrinks(Pages(pages, level), before, left, a, b); }
  }

  lemma MovedNot(segments: string, pages: string, left: set<string>, s: State)
    ensures Moved(segments, pages, left, s, s)
  {
    hide Cleared;
    NothingBetween(Segments(segments), left, s.segmentThrough);
    forall level | 0 <= level < s.maxPageLevel + 1 ensures Cleared(Pages(pages, level), left, s.pageThrough, s.pageThrough) {
      NothingBetween(Pages(pages, level), left, s.pageThrough);
    }
  }

  /** A record that differs in no watermark has moved nothing. */
  lemma MovedLike(segments: string, pages: string, left: set<string>, s: State, t: State)
    requires t.segmentThrough == s.segmentThrough && t.pageThrough == s.pageThrough && s.safeFloor <= t.safeFloor && s.maxPageLevel <= t.maxPageLevel
    ensures Moved(segments, pages, left, s, t)
  {
    hide Cleared;
    MovedNot(segments, pages, left, t);
  }

  lemma MovedShrinks(segments: string, pages: string, before: set<string>, left: set<string>, s: State, t: State)
    requires Moved(segments, pages, before, s, t) && left <= before
    ensures Moved(segments, pages, left, s, t)
  {
    hide Cleared, LevelsCleared;
    ClearedShrinks(Segments(segments), before, left, s.segmentThrough, t.segmentThrough);
    LevelsShrink(pages, before, left, s.pageThrough, t.pageThrough, t.maxPageLevel + 1);
  }

  lemma ResumableShrinks(segments: string, pages: string, before: set<string>, left: set<string>, s: State)
    requires Resumable(segments, pages, before, s) && left <= before
    ensures Resumable(segments, pages, left, s)
  {
    hide SegmentsSwept, PagesSwept, ValidState;
    SweptShrinks(segments, before, left, s);
    SweptShrinks(pages, before, left, s);
  }

  // ---- One pass ----

  /** Everything asked to be deleted since lies below the floor; pages are of levels up to `top`. */
  ghost predicate AskedBelow(segments: string, pages: string, asked: set<string>, requested: set<string>, floor: nat, top: nat) {
    forall k :: k in requested && k !in asked ==> Below(Segments(segments), k, floor) || BelowOnLevel(pages, k, floor, top)
  }

  lemma SegmentsMoved(segments: string, pages: string, left: set<string>, s: State, t: State)
    requires ValidState(s) && t == s.(segmentThrough := t.segmentThrough, segmentAfter := t.segmentAfter)
    requires t.segmentThrough != s.segmentThrough ==> t.segmentThrough == s.safeFloor && Cleared(Segments(segments), left, s.segmentThrough, s.safeFloor)
    ensures ValidState(t) && Moved(segments, pages, left, s, t) && (PagesSwept(pages, left, s) ==> PagesSwept(pages, left, t))
  {
    hide Cleared, Passed, LowerBound;
    MovedNot(segments, pages, left, s);
  }

  lemma PagesMoved(segments: string, pages: string, left: set<string>, s: State, t: State)
    requires ValidState(s) && t == s.(pageThrough := t.pageThrough, pageLevel := t.pageLevel, pageAfter := t.pageAfter) && t.pageLevel <= s.maxPageLevel
    requires t.pageThrough != s.pageThrough ==> t.pageThrough == s.safeFloor && LevelsCleared(pages, left, s.pageThrough, s.safeFloor, s.maxPageLevel + 1)
    ensures ValidState(t) && Moved(segments, pages, left, s, t) && (SegmentsSwept(segments, left, s) ==> SegmentsSwept(segments, left, t))
  {
    hide Cleared, Passed, LowerBound;
    MovedNot(segments, pages, left, s);
  }

  lemma MovedThen(segments: string, pages: string, left: set<string>, s: State, m: State, t: State)
    requires Moved(segments, pages, left, s, m) && Moved(segments, pages, left, m, t) && t.maxPageLevel == m.maxPageLevel
    ensures Moved(segments, pages, left, s, t)
  {
    hide Cleared, LevelsCleared;
    ClearedJoin(Segments(segments), left, s.segmentThrough, m.segmentThrough, t.segmentThrough);
    LevelsJoin(pages, left, s.pageThrough, m.pageThrough, t.pageThrough, m.maxPageLevel + 1, t.maxPageLevel + 1);
  }

  /** The sweeps of a pass, once the head is observed: segments, then pages. */
  method SweepBoth(r: Reclaimer, segments: string, pages: string) returns (ok: bool)
    requires r.Valid() && r.state == r.saved && Resumable(segments, pages, r.backend.Left(), r.state)
    modifies r`state, r`saved, r`saves, r`looks
    modifies r.backend`objects, r.backend`noise, r.backend`outcomes, r.backend`requested
    modifies r.budget`scanned, r.budget`deleted, r.budget`bytes, r.budget`exhausted
    ensures r.backend.Valid() && r.backend.Left() <= old(r.backend.Left())
    ensures r.state.safeFloor == r.saved.safeFloor == old(r.state.safeFloor) && r.state.maxPageLevel == r.saved.maxPageLevel == old(r.state.maxPageLevel)
    ensures Resumable(segments, pages, r.backend.Left(), r.state) && Resumable(segments, pages, r.backend.Left(), r.saved)
    ensures Moved(segments, pages, r.backend.Left(), old(r.state), r.state) && Moved(segments, pages, r.backend.Left(), old(r.state), r.saved)
    ensures AskedBelow(segments, pages, old(r.backend.requested), r.backend.requested, r.state.safeFloor, r.state.maxPageLevel)
    ensures ok && r.budget.Available() ==> r.state == r.saved && r.state.segmentThrough == r.state.pageThrough == r.state.safeFloor
    ensures old(r.Smooth()) ==> ok
  {
    hide SegmentsSwept, PagesSwept, ValidState, Moved, Below, BelowOnLevel, PagesBelow, Cleared, LevelsCleared;
    ghost var s := r.state;
    ghost var b := r.backend;
    MovedNot(segments, pages, b.Left(), s);
    FloorOrder(s);
    if r.state.segmentThrough < r.state.safeFloor && r.budget.Available() {
      ghost var left := b.Left();
      ok := r.ReclaimSegments(segments);
      SweptShrinks(pages, left, b.Left(), s);
      SegmentsMoved(segments, pages, b.Left(), s, r.state);
      SegmentsMoved(segments, pages, b.Left(), s, r.saved);
      if !ok { return; }
    }
    ghost var m := r.state;
    if r.state.pageThrough < r.state.safeFloor && r.budget.Available() {
      ghost var left, mid := b.Left(), b.requested;
      FloorOrder(m);
      ok := r.ReclaimPages(pages);
      SweptShrinks(segments, left, b.Left(), m);
      MovedShrinks(segments, pages, left, b.Left(), s, m);
      AskedMore(segments, pages, old(r.backend.requested), mid, b.requested, m.safeFloor, m.maxPageLevel);
      PagesMoved(segments, pages, b.Left(), m, r.state);
      PagesMoved(segments, pages, b.Left(), m, r.saved);
      MovedThen(segments, pages, b.Left(), s, m, r.state);
      MovedThen(segments, pages, b.Left(), s, m, r.saved);
      if !ok { return; }
    }
    FloorOrder(r.state);
    ok := true;
  }

  lemma AskedMore(segments: string, pages: string, asked: set<string>, middle: set<string>, requested: set<string>, floor: nat, top: nat)
    requires AskedBelow(segments, pages, asked, middle, floor, top) && PagesBelow(pages, middle, requested, floor, top)
    ensures AskedBelow(segments, pages, asked, requested, floor, top)
  {
    hide Below, BelowOnLevel;
  }

  lemma FloorOrder(s: State)
    requires ValidState(s)
    ensures s.segmentThrough <= s.safeFloor && s.pageThrough <= s.safeFloor && (s.pageLevel <= s.maxPageLevel || s.pageThrough == s.safeFloor)
  {
  }

  /** One pass as the outside world deals it: the head it loads and when, its budget, and how saves, looks and deletes go.
      `landed` says whether the record in memory got into the store in the end, by a save reported as failed or by the
      release. A crash is a pass from some point on of which everything fails. */
  datatype Visit = Visit(head: Head, now: int, maxObjects: nat, maxDeletes: nat, maxBytes: nat, saves: seq<SaveOutcome>, looks: seq<Option<nat>>,
                         cancels: seq<bool>, landed: bool)

  /** The pass: observe the head and save what that changes, then sweep. */
  method RunPartition(r: Reclaimer, segments: string, pages: string, head: Head, now: int, delay: nat) returns (ok: bool)
    requires r.Valid() && r.state == r.saved && Resumable(segments, pages, r.backend.Left(), r.state)
    modifies r`state, r`saved, r`saves, r`looks
    modifies r.backend`objects, r.backend`noise, r.backend`outcomes, r.backend`requested
    modifies r.budget`scanned, r.budget`deleted, r.budget`bytes, r.budget`exhausted
    ensures r.backend.Valid() && r.backend.Left() <= old(r.backend.Left())
    ensures Resumable(segments, pages, r.backend.Left(), r.state) && Resumable(segments, pages, r.backend.Left(), r.saved)
    ensures Moved(segments, pages, r.backend.Left(), old(r.state), r.state) && Moved(segments, pages, r.backend.Left(), old(r.state), r.saved)
    ensures HeadPageLevel(head) <= r.state.maxPageLevel
    ensures ok || r.saved.pageThrough != old(r.state.pageThrough) ==> HeadPageLevel(head) <= r.saved.maxPageLevel
    ensures var seen := ObserveHead(old(r.state), head, now, delay);
            AskedBelow(segments, pages, old(r.backend.requested), r.backend.requested, seen.safeFloor, seen.maxPageLevel)
    ensures ok && r.budget.Available() ==> r.state == r.saved && r.state.segmentThrough == r.state.pageThrough == r.state.safeFloor
    ensures old(r.Smooth()) ==> ok
  {
    hide SegmentsSwept, PagesSwept, ValidState, Moved, AskedBelow, Cleared, LevelsCleared, ObserveHead, HeadPageLevel;
    ghost var s, left := r.state, r.backend.Left();
    var seen := ObserveHead(r.state, head, now, delay);
    ObserveKeepsSwept(segments, pages, left, s, head, now, delay);
    Observed(segments, pages, left, s, head, now, delay);
    MovedNot(segments, pages, left, s);
    if seen != r.state {
      r.state := seen;
      ok := r.Save();
      if !ok {
        NothingAsked(segments, pages, r.backend.requested, seen.safeFloor, seen.maxPageLevel);
        return;
      }
    }
    ok := SweepBoth(r, segments, pages);
    MovedShrinks(segments, pages, left, r.backend.Left(), s, seen);
    MovedThen(segments, pages, r.backend.Left(), s, seen, r.state);
    MovedThen(segments, pages, r.backend.Left(), s, seen, r.saved);
  }

  lemma Observed(segments: string, pages: string, left: set<string>, s: State, head: Head, now: int, delay: nat)
    requires ValidState(s)
    ensures var t := ObserveHead(s, head, now, delay); ValidState(t) && Moved(segments, pages, left, s, t) && HeadPageLevel(head) <= t.maxPageLevel
  {
    hide Moved, ObserveHead, ValidState, HeadPageLevel;
    ObserveValid(s, head, now, delay);
    assert Floors(s) by { FloorsOf(s); }
    ObserveKeeps(s, head, now, delay);
    MovedLike(segments, pages, left, s, ObserveHead(s, head, now, delay));
  }

  lemma FloorsOf(s: State)
    requires ValidState(s)
    ensures Floors(s)
  {
  }

  lemma NothingAsked(segments: string, pages: string, asked: set<string>, floor: nat, top: nat)
    ensures AskedBelow(segments, pages, asked, asked, floor, top)
  {
    hide Below, BelowOnLevel;
  }

  // ---- Pass after pass ----

  /** The stored records in order, each with everything the ones before promise: the earlier watermarks, on the page
      levels known once the pass that followed had looked at the head. */
  ghost predicate Trail(segments: string, pages: string, left: set<string>, trail: seq<State>) {
    && (forall i :: 0 <= i < |trail| ==> Resumable(segments, pages, left, trail[i]))
    && (forall i, j :: 0 <= i < j < |trail| ==> Between(segments, pages, left, trail[i], trail[i+1], trail[j]))
  }

  ghost predicate Between(segments: string, pages: string, left: set<string>, s: State, next: State, t: State) {
    && s.segmentThrough <= t.segmentThrough && s.pageThrough <= t.pageThrough && s.safeFloor <= t.safeFloor && s.maxPageLevel <= next.maxPageLevel <= t.maxPageLevel
    && Cleared(Segments(segments), left, s.segmentThrough, t.segmentThrough)
    && LevelsCleared(pages, left, s.pageThrough, t.pageThrough, next.maxPageLevel + 1)
  }

  lemma TrailNext(segments: string, pages: string, before: set<string>, left: set<string>, trail: seq<State>, t: State)
    requires Trail(segments, pages, before, trail) && trail != [] && left <= before
    requires Resumable(segments, pages, left, t) && Moved(segments, pages, left, trail[|trail|-1], t)
    ensures Trail(segments, pages, left, trail + [t])
  {
    hide Resumable, Between, Moved;
    var n, more := |trail| - 1, trail + [t];
    forall i | 0 <= i < |more| ensures Resumable(segments, pages, left, more[i]) {
      if i <= n { ResumableShrinks(segments, pages, before, left, trail[i]); }
    }
    forall i, j | 0 <= i < j < |more| ensures Between(segments, pages, left, more[i], more[i+1], more[j]) {
      if j <= n {
        BetweenShrinks(segments, pages, before, left, trail[i], trail[i+1], trail[j]);
      } else if i == n {
        BetweenFirst(segments, pages, left, trail[n], t);
      } else {
        BetweenShrinks(segments, pages, before, left, trail[i], trail[i+1], trail[n]);
        BetweenThen(segments, pages, left, trail[i], trail[i+1], trail[n], t);
      }
    }
  }

  lemma BetweenShrinks(segments: string, pages: string, before: set<string>, left: set<string>, s: State, next: State, t: State)
    requires Between(segments, pages, before, s, next, t) && left <= before
    ensures Between(segments, pages, left, s, next, t)
  {
    hide Cleared, LevelsCleared;
    ClearedShrinks(Segments(segments), before, left, s.segmentThrough, t.segmentThrough);
    LevelsShrink(pages, before, left, s.pageThrough, t.pageThrough, next.maxPageLevel + 1);
  }

  lemma BetweenFirst(segments: string, pages: string, left: set<string>, s: State, t: State)
    requires Moved(segments, pages, left, s, t)
    ensures Between(segments, pages, left, s, t, t)
  {
    hide Cleared, LevelsCleared;
  }

  lemma BetweenThen(segments: string, pages: string, left: set<string>, s: State, next: State, m: State, t: State)
    requires Between(segments, pages, left, s, next, m) && Moved(segments, pages, left, m, t)
    ensures Between(segments, pages, left, s, next, t)
  {
    hide Cleared, LevelsCleared;
    ClearedJoin(Segments(segments), left, s.segmentThrough, m.segmentThrough, t.segmentThrough);
    LevelsJoin(pages, left, s.pageThrough, m.pageThrough, t.pageThrough, next.maxPageLevel + 1, t.maxPageLevel + 1);
  }

  /** Some pass asked for the key: it lies below the floor that pass worked with, a page on a level it knew. */
  ghost predicate AskedBy(segments: string, pages: string, trail: seq<State>, visits: seq<Visit>, delay: nat, n: nat, key: string)
    requires n <= |visits| && n <= |trail|
  {
    exists i :: 0 <= i < n && AskedIn(segments, pages, trail[i], visits[i], delay, key)
  }

  ghost predicate AskedIn(segments: string, pages: string, s: State, v: Visit, delay: nat, key: string) {
    var seen := ObserveHead(s, v.head, v.now, delay);
    Below(Segments(segments), key, seen.safeFloor) || BelowOnLevel(pages, key, seen.safeFloor, seen.maxPageLevel)
  }

  lemma AskedNext(segments: string, pages: string, trail: seq<State>, t: State, visits: seq<Visit>, delay: nat, n: nat, asked: set<string>, middle: set<string>, requested: set<string>)
    requires n < |visits| && |trail| == n + 1 && (forall k :: k in middle && k !in asked ==> AskedBy(segments, pages, trail, visits, delay, n, k))
    requires forall k :: k in requested && k !in middle ==> AskedIn(segments, pages, trail[n], visits[n], delay, k)
    ensures forall k :: k in requested && k !in asked ==> AskedBy(segments, pages, trail + [t], visits, delay, n + 1, k)
  {
    hide AskedIn;
    var more := trail + [t];
    forall k | k in requested && k !in asked ensures AskedBy(segments, pages, more, visits, delay, n + 1, k) {
      if k in middle {
        var i :| 0 <= i < n && AskedIn(segments, pages, trail[i], visits[i], delay, k);
        assert more[i] == trail[i];
      } else {
        assert more[n] == trail[n];
      }
    }
  }

  lemma AskedAs(segments: string, pages: string, s: State, v: Visit, delay: nat, middle: set<string>, requested: set<string>)
    requires var seen := ObserveHead(s, v.head, v.now, delay); AskedBelow(segments, pages, middle, requested, seen.safeFloor, seen.maxPageLevel)
    ensures forall k :: k in requested && k !in middle ==> AskedIn(segments, pages, s, v, delay, k)
  {
    hide ObserveHead, Below, BelowOnLevel;
  }

  /** What a pass leaves in the store about the levels of the head it looked at: it knows them if the record in memory got
      there, and whenever a page watermark has moved. */
  predicate Learned(s: State, t: State, v: Visit) {
    v.landed || t.pageThrough != s.pageThrough ==> HeadPageLevel(v.head) <= t.maxPageLevel
  }

  /** Any passes one after another, stopped by budgets, failed deletes, failed saves or crashes, each from the record the
      one before left in the store: every stored record may be resumed from; and between the watermarks of any two of
      them nothing of the start is left, of segments at all and of pages on every level known by then. Nothing is asked to
      be deleted that some pass did not find below its floor, no page on a level it did not know. No page watermark moves
      in a pass without the record knowing every level of the head that pass looked at. */
  method Drive(b: Backend, segments: string, pages: string, first: State, visits: seq<Visit>, delay: nat, pageSize: nat, batch: nat)
    returns (ghost trail: seq<State>, stored: State)
    requires b.Valid() && pageSize > 0 && batch > 0 && Resumable(segments, pages, b.Left(), first)
    requires forall v :: v in visits ==> v.maxBytes <= MAX_U64
    modifies b`objects, b`noise, b`outcomes, b`requested
    ensures b.Valid() && b.Left() <= old(b.Left())
    ensures |trail| == |visits| + 1 && trail[0] == first && trail[|visits|] == stored && Trail(segments, pages, b.Left(), trail)
    ensures Cleared(Segments(segments), b.Left(), first.segmentThrough, stored.segmentThrough)
    ensures forall i :: 0 <= i < |visits| ==> Learned(trail[i], trail[i+1], visits[i])
    ensures forall k :: k in b.requested && k !in old(b.requested) ==> AskedBy(segments, pages, trail, visits, delay, |visits|, k)
  {
    hide Resumable, Moved, AskedBelow, Cleared, Between, AskedBy, AskedIn, ObserveHead, HeadPageLevel;
    trail, stored := [first], first;
    for n := 0 to |visits|
      invariant b.Valid() && b.Left() <= old(b.Left())
      invariant |trail| == n + 1 && trail[0] == first && trail[n] == stored && Trail(segments, pages, b.Left(), trail)
      invariant forall i :: 0 <= i < n ==> Learned(trail[i], trail[i+1], visits[i])
      invariant forall k :: k in b.requested && k !in old(b.requested) ==> AskedBy(segments, pages, trail, visits, delay, n, k)
    {
      var v := visits[n];
      ghost var left, asked := b.Left(), b.requested;
      var budget := new Budget(v.maxObjects, v.maxDeletes, v.maxBytes);
      var r := new Reclaimer(b, budget, pageSize, batch, stored, v.saves, v.looks, v.cancels);
      var ok := RunPartition(r, segments, pages, v.head, v.now, delay);
      AskedAs(segments, pages, stored, v, delay, asked, b.requested);
      stored := if v.landed then r.state else r.saved;
      AskedNext(segments, pages, trail, stored, visits, delay, n, old(b.requested), asked, b.requested);
      TrailNext(segments, pages, left, b.Left(), trail, stored);
      trail := trail + [stored];
    }
    if |visits| > 0 { Ends(segments, pages, b.Left(), trail); } else { NothingBetween(Segments(segments), b.Left(), first.segmentThrough); }
  }

  lemma Ends(segments: string, pages: string, left: set<string>, trail: seq<State>)
    requires Trail(segments, pages, left, trail) && |trail| > 1
    ensures Cleared(Segments(segments), left, trail[0].segmentThrough, trail[|trail|-1].segmentThrough)
  {
    hide Resumable, Cleared, LevelsCleared;
    assert Between(segments, pages, left, trail[0], trail[1], trail[|trail|-1]);
  }

  // ---- Levels that were known, and levels no pass knew ----

  /** The level noted for a head bounds the level of every page it keeps alive. */
  lemma HeadLevels(c: Config, h: Head, key: PageKey)
    requires Tree.WellFormed(c, h) && key in Reach.Reach(h)
    ensures key.level <= HeadPageLevel(h)
  {
    hide Tree.WellFormed, Reach.ReachRefs, MaxPageLevel;
    Listing.HeadRefsTile(c, h);
    Reach.ReachBelowAll(c, SectionRefs(h.sections), h.writerEpoch, HeadPageLevel(h) + 1, key);
  }

  /** A page on the level of any page of a head whose observation got into the store is gone once a later watermark has
      passed it, whatever became of the head meanwhile. */
  lemma SeenIsGone(c: Config, segments: string, pages: string, left: set<string>, trail: seq<State>, visits: seq<Visit>, i: nat, j: nat, key: PageKey, name: string)
    requires Trail(segments, pages, left, trail) && |trail| == |visits| + 1 && i < j < |trail|
    requires Learned(trail[i], trail[i+1], visits[i]) && (visits[i].landed || trail[i+1].pageThrough != trail[i].pageThrough)
    requires Tree.WellFormed(c, visits[i].head) && key in Reach.Reach(visits[i].head)
    requires Position(Pages(pages, key.level), name).Some?
    requires trail[i].pageThrough <= Position(Pages(pages, key.level), name).value < trail[j].pageThrough
    ensures name !in left
  {
    hide Resumable, Position, HeadPageLevel, Tree.WellFormed;
    HeadLevels(c, visits[i].head, key);
    assert Between(segments, pages, left, trail[i], trail[i+1], trail[j]);
    assert Cleared(Pages(pages, key.level), left, trail[i].pageThrough, trail[j].pageThrough);
  }

  /** A page, which is no segment object, is asked for only by a pass that knows its level and finds it below the floor. */
  lemma AskedKnown(segments: string, pages: string, s: State, v: Visit, delay: nat, key: string, level: nat)
    requires AskedIn(segments, pages, s, v, delay, key) && Position(Pages(pages, level), key).Some? && Position(Segments(segments), key).None?
    ensures var seen := ObserveHead(s, v.head, v.now, delay); level <= seen.maxPageLevel && Position(Pages(pages, level), key).value < seen.safeFloor
  {
    hide ObserveHead, ParsePagePath, ParseSegmentName;
  }

  /** So a watermark says nothing about levels above the ones known: a page of level 1 that ends at 5 stays behind one that
      has moved from 0 to 10 while only level 0 was known. */
  method UnknownLevel() returns (b: Backend, s: State, key: string)
    ensures b.Valid() && ValidState(s) && s.maxPageLevel == 0 && s.pageThrough == 10
    ensures key in b.Left() && Position(Pages("p/", 1), key) == Some(5)
  {
    hide ParsePagePath, FormatPagePath, PagesSwept, SegmentsSwept, LowerBound, Position, NoneListed, Below, PagesBelow, LevelsCleared;
    var name := PageName(1, 5, 0, 1, 0);
    key := "p/" + FormatPagePath(name);
    LevelOne(name, key);
    b := new Backend({key}, [], [], _ => 0);
    var budget := new Budget(10, 10, 10);
    s := Absent.(safeFloor := 10);
    var r := new Reclaimer(b, budget, 1, 1, s, [], [], []);
    FreshRecord("s/", "p/", b.Left(), s);
    var ok := r.ReclaimPages("p/");
    s := r.state;
  }

  lemma LevelOne(name: PageName, key: string)
    requires name == PageName(1, 5, 0, 1, 0) && key == "p/" + FormatPagePath(name)
    ensures Position(Pages("p/", 1), key) == Some(5) && NoneListed(Pages("p/", 0), {key})
  {
    hide ParsePagePath, Padded, Field;
    SixteenPositive(32);
    PagePathRoundTrip(name);
    assert key[2..] == FormatPagePath(name);
    var zero, one := Padded(10, 2, 0), Padded(10, 2, 1);
    PaddedValue(10, 2, 0);
    PaddedValue(10, 2, 1);
    var lp := ListPrefix(Pages("p/", 0));
    assert lp[3..5] == zero && key[3..5] == one;
  }

  lemma {:induction false} SixteenPositive(w: nat)
    ensures Pow(16, w) > 0
  {
    if w > 0 { SixteenPositive(w - 1); }
  }
}
