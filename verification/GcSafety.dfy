/** Object deletion beside running writers: what may be deleted given one durable head, and why nothing that is deleted
    is referenced by the current head or by any later one. */
module GcSafety {
  import opened CatalogTypes
  import opened CatalogFlat
  import opened CatalogReader
  import opened CatalogMemory
  import opened CatalogHistory
  import opened CatalogReach
  import P = Protocol
  import opened ProtocolSafety
  import Tree = CatalogTree

  /** The identity a segment object carries in its key. */
  datatype SegmentKey = SegmentKey(baseLSN: nat, writerEpoch: nat, uuid: nat)

  function SegmentKeyOf(e: LeafEntry): SegmentKey { SegmentKey(e.baseLSN, e.writerEpoch, e.uuid) }

  ghost predicate Referenced(h: Head, key: SegmentKey) { exists e :: e in Flat(h) && SegmentKeyOf(e) == key }

  // ---- What one durable head allows to be deleted ----

  /** An unreferenced segment may go when it can no longer be appended: its place is taken or its writer is fenced off.
      Objects between the safe floor and the oldest LSN are left to the delayed sweep. */
  predicate OrphanSegmentEligible(baseLSN: nat, writerEpoch: nat, safeFloor: nat, h: Head) {
    if baseLSN < h.oldestLSN && baseLSN >= safeFloor then false
    else if writerEpoch > h.writerEpoch then false
    else baseLSN < h.nextLSN || writerEpoch < h.writerEpoch
  }

  ghost predicate SegmentDead(h: Head, key: SegmentKey, safeFloor: nat) {
    || (OrphanSegmentEligible(key.baseLSN, key.writerEpoch, safeFloor, h) && !Referenced(h, key))
    || key.baseLSN < safeFloor <= h.oldestLSN
  }

  /** A page may go when it is unreachable and older than the head, or when it ends below the oldest LSN. */
  ghost predicate PageDead(h: Head, key: PageKey) {
    (key !in Reach(h) && key.generation < h.generation) || key.seqHi < h.oldestLSN
  }

  /** Seen dead in one durable head, a segment is in no later head. */
  lemma DeadSegmentStays(c: Config, hs: seq<Head>, steps: seq<Step>, k: nat, j: nat, key: SegmentKey, safeFloor: nat)
    requires Chain(c, hs, steps) && k <= j < |hs| && SegmentDead(hs[k], key, safeFloor)
    ensures !Referenced(hs[j], key)
  {
    hide TreeStep, Sound, Flat, Chain;
    forall e | e in Flat(hs[j]) ensures SegmentKeyOf(e) != key {
      ChainSegments(c, hs, steps, k, j, e);
      ChainSound(c, hs, steps, j);
      SoundSegment(c, hs[j], e);
      ChainMonotone(c, hs, steps, k, j);
    }
  }

  /** Seen dead in one durable head, a page is reachable from no later head. */
  lemma DeadPageStays(c: Config, hs: seq<Head>, steps: seq<Step>, k: nat, j: nat, key: PageKey)
    requires Chain(c, hs, steps) && k <= j < |hs| && PageDead(hs[k], key)
    ensures key !in Reach(hs[j])
  {
    hide TreeStep, Sound, Reach, Chain;
    if key in Reach(hs[j]) {
      ChainPages(c, hs, steps, k, j, key);
      ChainSound(c, hs, steps, j);
      PageBounds(c, hs[j], key);
      ChainMonotone(c, hs, steps, k, j);
      assert false;
    }
  }

  lemma PageBounds(c: Config, h: Head, key: PageKey)
    requires Sound(c, h) && key in Reach(h)
    ensures h.oldestLSN <= key.seqLo <= key.seqHi
  {
    hide Reach, Tree.WellFormed, Tree.Spacious;
    ReachHeadBounds(c, h, key);
  }

  // ---- Writers and any number of reclaimers together ----

  /** The writers' system with the objects actually stored; uploaded records every segment object ever written. */
  datatype World = World(sys: P.System, livePages: set<PageKey>, uploaded: set<SegmentKey>, liveSegments: set<SegmentKey>)

  /** A reclaimer acts on a head it loaded some time ago: the k-th durable one, for any k. */
  datatype Action =
    | Write(event: P.Event)
    | Upload(segment: SegmentKey)
    | DeletePage(page: PageKey, k: nat)
    | DeleteSegment(segment: SegmentKey, k: nat, safeFloor: nat)

  const Empty: World := World(P.Initial, {}, {}, {})

  /** A segment is offered to the catalog only after its object was uploaded. */
  predicate Permitted(w: World, ev: P.Event) {
    ev.Invoke? && ev.call.AppendCall? ==> SegmentKeyOf(ev.call.entry) in w.uploaded
  }

  function Stores(s: P.System, ev: P.Event): set<PageKey> {
    if ev.PutPage? && ev.i in s.sessions && s.sessions[ev.i].phase.Putting? then {KeyOf(ev.page)} else {}
  }

  ghost function Act(c: Config, w: World, a: Action): World {
    match a
    case Write(ev) =>
      if Permitted(w, ev) then w.(sys := P.Next(c, w.sys, ev), livePages := w.livePages + Stores(w.sys, ev)) else w
    case Upload(key) => w.(uploaded := w.uploaded + {key}, liveSegments := w.liveSegments + {key})
    case DeletePage(key, k) =>
      if k < |w.sys.hist| && PageDead(w.sys.hist[k], key) then w.(livePages := w.livePages - {key}) else w
    case DeleteSegment(key, k, floor) =>
      if k < |w.sys.hist| && SegmentDead(w.sys.hist[k], key, floor) then w.(liveSegments := w.liveSegments - {key}) else w
  }

  ghost function Acts(c: Config, actions: seq<Action>): World {
    if actions == [] then Empty else Act(c, Acts(c, actions[..|actions|-1]), actions[|actions|-1])
  }

  /** Whatever is gone was dead in some durable head. */
  ghost predicate PageGone(s: P.System, key: PageKey) { exists k :: 0 <= k < |s.hist| && PageDead(s.hist[k], key) }

  ghost predicate SegmentGone(s: P.System, key: SegmentKey) {
    exists k, floor: nat :: 0 <= k < |s.hist| && SegmentDead(s.hist[k], key, floor)
  }

  ghost predicate Kept(c: Config, w: World) {
    && P.Inv(c, w.sys)
    && (forall e :: e in w.sys.offered ==> SegmentKeyOf(e) in w.uploaded)
    && (forall key :: key in w.sys.puts ==> key in w.livePages || PageGone(w.sys, key))
    && (forall key :: key in w.uploaded ==> key in w.liveSegments || SegmentGone(w.sys, key))
  }

  lemma GoneStays(s: P.System, t: P.System)
    requires s.hist <= t.hist
    ensures forall key :: PageGone(s, key) ==> PageGone(t, key)
    ensures forall key :: SegmentGone(s, key) ==> SegmentGone(t, key)
  {
    hide PageDead, SegmentDead;
    forall key | PageGone(s, key) ensures PageGone(t, key) {
      var k :| 0 <= k < |s.hist| && PageDead(s.hist[k], key);
      assert t.hist[k] == s.hist[k];
    }
    forall key | SegmentGone(s, key) ensures SegmentGone(t, key) {
      var k, floor: nat :| 0 <= k < |s.hist| && SegmentDead(s.hist[k], key, floor);
      assert t.hist[k] == s.hist[k];
    }
  }

  /** A step offers at most the segment of the call it makes, and stores at most the page it puts. */
  lemma NextOffers(c: Config, s: P.System, ev: P.Event)
    ensures forall e :: e in P.Next(c, s, ev).offered ==> e in s.offered || (ev.Invoke? && ev.call == P.AppendCall(e))
    ensures P.Next(c, s, ev).puts <= s.puts + Stores(s, ev)
  {
    hide TreeStep, P.AfterLoad, P.AfterReply, P.Start, P.Landed, P.AllPut;
    match ev
    case Land(r) => LandedOffers(c, s, r);
    case Invoke(i, call) => if i in s.sessions { StartOffers(c, P.Offer(s, call), i, s.sessions[i], call); }
    case Load(i, readable) => if i in s.sessions { LoadOffers(c, s, i, s.sessions[i], readable); }
    case Reply(i, readable) => if i in s.sessions { ReplyOffers(c, s, i, s.sessions[i], readable); }
    case _ =>
  }

  ghost predicate SameOffers(s: P.System, t: P.System) { t.offered == s.offered && t.puts == s.puts }

  lemma LandedOffers(c: Config, s: P.System, r: P.Request)
    ensures SameOffers(s, P.Landed(c, s, r))
  {
    hide TreeStep;
  }

  lemma ProceedOffers(c: Config, s: P.System, i: nat, x: P.Session, call: P.Call)
    ensures SameOffers(s, P.Proceed(c, s, i, x, call))
  {
    hide TreeStep;
  }

  lemma StartOffers(c: Config, s: P.System, i: nat, x: P.Session, call: P.Call)
    ensures SameOffers(s, P.Start(c, s, i, x, call))
  {
    hide TreeStep, P.Proceed;
    ProceedOffers(c, s, i, x, call);
  }

  lemma SucceedOffers(c: Config, s: P.System, i: nat, x: P.Session, job: P.Job)
    ensures SameOffers(s, P.Succeed(c, s, i, x, job))
  {
    hide TreeStep, P.Proceed;
    if job.purpose.ResolveJob? && x.pending.Some? {
      ProceedOffers(c, s, i, x.(pending := Some(x.pending.value.(resolved := true))), job.purpose.call);
    }
  }

  lemma JudgeOffers(c: Config, s: P.System, i: nat, y: P.Session, job: P.Job, o: Head, readable: bool, mayRetry: bool)
    ensures SameOffers(s, P.Judge(c, s, i, y, job, o, readable, mayRetry))
  {
    hide TreeStep, P.Succeed, P.Applied;
    SucceedOffers(c, s, i, P.Observe(y, o).(head := o), job);
  }

  lemma LoadOffers(c: Config, s: P.System, i: nat, x: P.Session, readable: bool)
    ensures SameOffers(s, P.AfterLoad(c, s, i, x, readable))
  {
    hide TreeStep, P.Proceed, P.Judge, FindSegment;
    var o := P.Loaded(c, s);
    match x.phase
    case Resolving(call) =>
      if x.pending.Some? {
        ProceedOffers(c, s, i, P.Observe(x, o).(head := o, pending := Some(x.pending.value.(resolved := true))), call);
      }
    case CommitLost(job) => JudgeOffers(c, s, i, x, job, o, readable, false);
    case _ =>
  }

  lemma ReplyOffers(c: Config, s: P.System, i: nat, x: P.Session, readable: bool)
    ensures SameOffers(s, P.AfterReply(c, s, i, x, readable))
  {
    hide TreeStep, P.Judge, P.Succeed, P.Landed;
    match x.phase
    case OpenWait(w, base, token) => LandedOffers(c, s, P.Swap(token, base, TakeoverStep(w), P.Claimed(w, base)));
    case CommitWait(job) =>
      var r := P.Swap(Some(job.previous), job.previous, job.step, P.Holder(x));
      LandedOffers(c, s, r);
      if P.Proposes(c, job.previous, job.step) {
        SucceedOffers(c, P.Landed(c, s, r), i, x.(head := P.Proposed(c, job.previous, job.step).head), job);
        if s.cur.Some? { JudgeOffers(c, s, i, x, job, s.cur.value, readable, true); }
      }
    case _ =>
  }

  lemma ActKept(c: Config, w: World, a: Action)
    requires Kept(c, w)
    ensures Kept(c, Act(c, w, a)) && Continues(w.sys, Act(c, w, a).sys)
  {
    hide TreeStep, P.Inv, P.Next, PageDead, SegmentDead;
    match a
    case Write(ev) =>
      if Permitted(w, ev) {
        P.NextInv(c, w.sys, ev);
        NextContinues(c, w.sys, ev);
        NextOffers(c, w.sys, ev);
        GoneStays(w.sys, P.Next(c, w.sys, ev));
      }
    case _ =>
  }

  lemma {:induction false} ActsKept(c: Config, actions: seq<Action>)
    requires ValidConfig(c)
    ensures Kept(c, Acts(c, actions))
  {
    hide P.Inv, Act;
    if actions == [] {
      P.RunInv(c, []);
    } else {
      ActsKept(c, actions[..|actions|-1]);
      ActKept(c, Acts(c, actions[..|actions|-1]), actions[|actions|-1]);
    }
  }

  lemma {:induction false} ActsContinue(c: Config, actions: seq<Action>, more: seq<Action>)
    requires ValidConfig(c)
    ensures Continues(Acts(c, actions).sys, Acts(c, actions + more).sys)
    decreases |more|
  {
    hide P.Inv, Act, Kept;
    if more == [] {
      assert actions + more == actions;
    } else {
      var n := |more| - 1;
      ActsContinue(c, actions, more[..n]);
      assert (actions + more)[..|actions + more| - 1] == actions + more[..n];
      ActsKept(c, actions + more[..n]);
      ActKept(c, Acts(c, actions + more[..n]), more[n]);
    }
  }

  /** Whatever writers and reclaimers do, every page reachable from the durable head and every segment object the log
      refers to is stored. */
  lemma NothingReferencedIsDeleted(c: Config, w: World)
    requires Kept(c, w) && w.sys.cur.Some?
    ensures Reach(w.sys.cur.value) <= w.livePages
    ensures forall e :: e in Flat(w.sys.cur.value) ==> SegmentKeyOf(e) in w.liveSegments
  {
    hide TreeStep, P.Inv, Flat, Reach, Chain, PageDead, SegmentDead;
    var s := w.sys;
    P.InvTruthful(c, s);
    var n := |s.hist| - 1;
    forall key | key in Reach(s.cur.value) ensures key in w.livePages {
      if PageGone(s, key) {
        var k :| 0 <= k < |s.hist| && PageDead(s.hist[k], key);
        DeadPageStays(c, s.hist, s.steps, k, n, key);
      }
    }
    forall e | e in Flat(s.cur.value) ensures SegmentKeyOf(e) in w.liveSegments {
      OnlyOffered(c, s, n, e);
      if SegmentGone(s, SegmentKeyOf(e)) {
        var k, floor: nat :| 0 <= k < |s.hist| && SegmentDead(s.hist[k], SegmentKeyOf(e), floor);
        DeadSegmentStays(c, s.hist, s.steps, k, n, SegmentKeyOf(e), floor);
      }
    }
  }

  /** End to end: once a segment is acknowledged, at any later time of any run with any number of writers and
      reclaimers, reading through what is actually stored finds it, and its object is stored, until retention moves the
      oldest LSN past it. */
  lemma AcknowledgedSurvivesGc(c: Config, actions: seq<Action>, more: seq<Action>, src: PageSource, e: LeafEntry)
    requires ValidConfig(c) && e in Acts(c, actions).sys.acked && Holds(src, Acts(c, actions + more).livePages)
    ensures Acts(c, actions + more).sys.cur.Some?
    ensures var w := Acts(c, actions + more);
            var h := w.sys.cur.value;
            && (FindSegment(c, src, h, e.baseLSN) == Ok(Some(e)) <==> h.oldestLSN <= e.baseLSN)
            && (h.oldestLSN <= e.baseLSN ==> SegmentKeyOf(e) in w.liveSegments)
  {
    hide P.Inv, Act, FindSegment, HeadStored, Flat, Reach;
    var w := Acts(c, actions + more);
    ActsKept(c, actions + more);
    ActsContinue(c, actions, more);
    if w.sys.cur.Some? {
      NothingReferencedIsDeleted(c, w);
      HeadStoredByKeys(src, w.sys.cur.value);
    }
    AcknowledgedFound(c, w.sys, src, e);
  }
}
