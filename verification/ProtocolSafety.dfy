/** What the commit protocol guarantees over whole runs: one history, acknowledgements that are never undone,
    fences that are never passed, and pages that are always there to be read. */
module ProtocolSafety {
  import opened CatalogTypes
  import opened CatalogFlat
  import opened CatalogReader
  import opened CatalogMemory
  import opened CatalogHistory
  import opened CatalogReach
  import P = Protocol

  /** t continues s: its history is an extension, and nothing told to a caller is taken back. */
  ghost predicate Continues(s: P.System, t: P.System) {
    && s.hist <= t.hist && s.steps <= t.steps && s.authors <= t.authors && s.offered <= t.offered && s.acked <= t.acked && s.retained <= t.retained
    && s.puts <= t.puts
    && (s.cur.Some? ==> t.cur.Some?)
  }

  lemma LandedContinues(c: Config, s: P.System, r: P.Request)
    requires P.Durable(c, s)
    ensures Continues(s, P.Landed(c, s, r))
  {
    hide TreeStep, Chain, Reach;
  }

  lemma ProceedContinues(c: Config, s: P.System, i: nat, x: P.Session, call: P.Call)
    ensures Continues(s, P.Proceed(c, s, i, x, call))
  {
    hide TreeStep;
  }

  lemma SucceedContinues(c: Config, s: P.System, i: nat, x: P.Session, job: P.Job)
    ensures Continues(s, P.Succeed(c, s, i, x, job))
  {
    hide TreeStep, P.Proceed;
    if job.purpose.ResolveJob? && !x.stale && x.pending.Some? {
      ProceedContinues(c, s, i, x.(pending := Some(x.pending.value.(resolved := true))), job.purpose.call);
    }
  }

  lemma JudgeContinues(c: Config, s: P.System, i: nat, y: P.Session, job: P.Job, o: Head, readable: bool, mayRetry: bool)
    ensures Continues(s, P.Judge(c, s, i, y, job, o, readable, mayRetry))
  {
    hide TreeStep, P.Succeed, P.Applied;
    SucceedContinues(c, s, i, P.Observe(y, o).(head := o), job);
  }

  lemma LoadContinues(c: Config, s: P.System, i: nat, x: P.Session, readable: bool)
    ensures Continues(s, P.AfterLoad(c, s, i, x, readable))
  {
    hide TreeStep, P.Proceed, P.Judge, FindSegment;
    var o := P.Loaded(c, s);
    match x.phase
    case Resolving(call) =>
      if x.pending.Some? {
        ProceedContinues(c, s, i, P.Observe(x, o).(head := o, pending := Some(x.pending.value.(resolved := true))), call);
      }
    case CommitLost(job) => JudgeContinues(c, s, i, x, job, o, readable, false);
    case _ =>
  }

  lemma ReplyContinues(c: Config, s: P.System, i: nat, x: P.Session, readable: bool)
    requires P.Durable(c, s)
    ensures Continues(s, P.AfterReply(c, s, i, x, readable))
  {
    hide TreeStep, P.Judge, P.Succeed, P.Landed, P.Durable;
    match x.phase
    case OpenWait(w, base, token) => LandedContinues(c, s, P.Swap(token, base, TakeoverStep(w), P.Claimed(w, base)));
    case CommitWait(job) =>
      var r := P.Swap(Some(job.previous), job.previous, job.step, P.Holder(x));
      LandedContinues(c, s, r);
      if P.Proposes(c, job.previous, job.step) {
        SucceedContinues(c, P.Landed(c, s, r), i, x.(head := P.Proposed(c, job.previous, job.step).head), job);
        if s.cur.Some? { JudgeContinues(c, s, i, x, job, s.cur.value, readable, true); }
      }
    case _ =>
  }

  lemma StartContinues(c: Config, s: P.System, i: nat, x: P.Session, call: P.Call)
    ensures Continues(s, P.Start(c, P.Offer(s, call), i, x, call))
  {
    hide TreeStep, P.Proceed;
    ProceedContinues(c, P.Offer(s, call), i, x, call);
  }

  lemma LocalContinues(c: Config, s: P.System, i: nat, x: P.Session, flag: bool)
    ensures Continues(s, P.AfterPut(c, s, i, x)) && Continues(s, P.AfterIssue(c, s, i, x))
    ensures Continues(s, P.AfterLost(c, s, i, x, flag)) && Continues(s, P.AfterFail(s, i, x, flag))
  {
    hide TreeStep;
  }

  lemma NextContinues(c: Config, s: P.System, ev: P.Event)
    requires P.Inv(c, s)
    ensures Continues(s, P.Next(c, s, ev))
  {
    hide TreeStep, P.Inv, P.Landed, P.AfterLoad, P.AfterReply, P.Start, P.AllPut, P.AfterPut, P.AfterIssue, P.AfterLost, P.AfterFail, P.Durable, P.Truthful;
    P.InvTruthful(c, s);
    match ev
    case Land(r) => LandedContinues(c, s, r);
    case Load(i, readable) => if i in s.sessions { LoadContinues(c, s, i, s.sessions[i], readable); }
    case Reply(i, readable) => if i in s.sessions { ReplyContinues(c, s, i, s.sessions[i], readable); }
    case Invoke(i, call) => if i in s.sessions { StartContinues(c, s, i, s.sessions[i], call); }
    case PutDone(i) => if i in s.sessions { LocalContinues(c, s, i, s.sessions[i], true); }
    case Issue(i) => if i in s.sessions { LocalContinues(c, s, i, s.sessions[i], true); }
    case Lost(i, again) => if i in s.sessions { LocalContinues(c, s, i, s.sessions[i], again); }
    case Fail(i, keep) => if i in s.sessions { LocalContinues(c, s, i, s.sessions[i], keep); }
    case _ =>
  }

  /** Every run continues its own beginning. */
  lemma {:induction false} RunContinues(c: Config, evs: seq<P.Event>, more: seq<P.Event>)
    requires ValidConfig(c)
    ensures P.Inv(c, P.Run(c, evs)) && P.Inv(c, P.Run(c, evs + more)) && Continues(P.Run(c, evs), P.Run(c, evs + more))
    decreases |more|
  {
    hide P.Inv, P.Next;
    P.RunInv(c, evs);
    P.RunInv(c, evs + more);
    if more == [] {
      assert evs + more == evs;
    } else {
      var n := |more| - 1;
      RunContinues(c, evs, more[..n]);
      assert (evs + more)[..|evs + more| - 1] == evs + more[..n];
      NextContinues(c, P.Run(c, evs + more[..n]), more[n]);
    }
  }

  /** In every reachable state the durable heads form one chain: a fresh head, then exactly one takeover, append or
      retention per generation, each of them bounded from below by all before it. */
  lemma OneHistory(c: Config, evs: seq<P.Event>, i: nat, j: nat)
    requires ValidConfig(c) && i <= j < |P.Run(c, evs).hist|
    ensures var s := P.Run(c, evs);
            && Chain(c, s.hist, s.steps) && s.cur == Some(s.hist[|s.hist|-1])
            && Sound(c, s.hist[j]) && s.hist[j].generation == j && NoEarlier(s.hist[i], s.hist[j])
  {
    hide TreeStep, Sound, P.Inv;
    var s := P.Run(c, evs);
    P.RunInv(c, evs);
    P.InvTruthful(c, s);
    ChainSound(c, s.hist, s.steps, j);
    ChainMonotone(c, s.hist, s.steps, i, j);
  }

  /** Once a takeover is durable, no segment of an epoch it superseded is ever added. */
  lemma NoSupersededAppend(c: Config, evs: seq<P.Event>, i: nat, j: nat, w: nat, e: LeafEntry)
    requires ValidConfig(c) && i < j < |P.Run(c, evs).steps|
    requires P.Run(c, evs).steps[i] == TakeoverStep(w) && P.Run(c, evs).steps[j] == AppendStep(e)
    ensures |P.Run(c, evs).hist| == |P.Run(c, evs).steps| + 1 && e.writerEpoch > P.Run(c, evs).hist[i].writerEpoch
  {
    hide Sound, P.Inv;
    var s := P.Run(c, evs);
    P.RunInv(c, evs);
    P.InvTruthful(c, s);
    P.ChainLength(c, s.hist, s.steps);
    TakeoverRaises(c, s.hist, s.steps, i, w);
    ChainMonotone(c, s.hist, s.steps, i + 1, j);
    AppendedAt(c, s.hist, s.steps, j, e);
  }

  lemma TakeoverRaises(c: Config, hs: seq<Head>, steps: seq<Step>, i: nat, w: nat)
    requires Chain(c, hs, steps) && i < |steps| && steps[i] == TakeoverStep(w)
    ensures hs[i+1].writerEpoch == hs[i].writerEpoch + 1 && hs[i+1].writerID == w
  {
    hide ValidHead;
    assert Advances(c, hs[i], steps[i], hs[i+1]);
  }

  /** A store that holds every page ever put, or at least every page reachable from the head. */
  ghost predicate Holds(src: PageSource, keys: set<PageKey>) {
    forall k :: k in keys ==> src(k) == Some(k.id.page)
  }

  /** Pages are stored before the head that refers to them, so reading the durable head through any store that keeps
      the pages put finds exactly the segment of the flat log. */
  lemma ReadersFindPages(c: Config, evs: seq<P.Event>, src: PageSource, lsn: nat)
    requires ValidConfig(c) && P.Run(c, evs).cur.Some? && Holds(src, P.Run(c, evs).puts)
    ensures var h := P.Run(c, evs).cur.value;
            HeadStored(src, h) && FindSegment(c, src, h, lsn) == Ok(FindFlat(Flat(h), lsn))
  {
    hide TreeStep, P.Inv, FindSegment, FindFlat, HeadStored, Reach, Chain;
    var s := P.Run(c, evs);
    P.RunInv(c, evs);
    P.InvTruthful(c, s);
    P.CurSound(c, s);
    HeadStoredByKeys(src, s.cur.value);
    FindSegmentRefines(c, src, s.cur.value, lsn);
  }

  /** A segment acknowledged to a caller was added exactly once, at its base LSN and under its own epoch. */
  lemma AcknowledgedOnce(c: Config, s: P.System, e: LeafEntry) returns (k: nat)
    requires P.Inv(c, s) && e in s.acked
    ensures k < |s.steps| && |s.hist| == |s.steps| + 1 && s.steps[k] == AppendStep(e) && e in s.offered
    ensures e.baseLSN == s.hist[k].nextLSN && e.writerEpoch == s.hist[k].writerEpoch && Flat(s.hist[k+1]) == Flat(s.hist[k]) + [e]
    ensures forall i :: 0 <= i < |s.steps| && s.steps[i] == AppendStep(e) ==> i == k
  {
    hide TreeStep, P.Inv, Flat, Chain;
    P.InvTruthful(c, s);
    AckedDurable(c, s, e);
    P.ChainLength(c, s.hist, s.steps);
    k :| 0 <= k < |s.steps| && s.steps[k] == AppendStep(e);
    AppendedAt(c, s.hist, s.steps, k, e);
    forall i | 0 <= i < |s.steps| && s.steps[i] == AppendStep(e) ensures i == k {
      AppendOnce(c, s.hist, s.steps, i, k, e);
    }
  }

  lemma AckedDurable(c: Config, s: P.System, e: LeafEntry)
    requires P.Durable(c, s) && P.Truthful(s) && e in s.acked
    ensures s.cur.Some? && Chain(c, s.hist, s.steps) && AppendStep(e) in s.steps
  {
    hide TreeStep;
  }

  /** An acknowledged segment is found by its base LSN in the durable head, unless retention has moved past it. */
  lemma AcknowledgedFound(c: Config, t: P.System, src: PageSource, e: LeafEntry)
    requires P.Inv(c, t) && e in t.acked && (t.cur.Some? ==> HeadStored(src, t.cur.value))
    ensures t.cur.Some?
    ensures FindSegment(c, src, t.cur.value, e.baseLSN) == Ok(Some(e)) <==> t.cur.value.oldestLSN <= e.baseLSN
    ensures t.cur.value.oldestLSN <= e.baseLSN <==> e in Flat(t.cur.value)
  {
    hide TreeStep, P.Inv, Flat, FindSegment, FindFlat, Chain, Sound, HeadStored;
    var k := AcknowledgedOnce(c, t, e);
    P.InvTruthful(c, t);
    AckedDurable(c, t, e);
    var n := |t.hist| - 1;
    assert t.hist[n] == t.cur.value;
    LastOf(Flat(t.hist[k]), e);
    ChainKeeps(c, t.hist, t.steps, k + 1, n, e);
    ChainSound(c, t.hist, t.steps, n);
    FoundIn(c, src, t.cur.value, e);
  }

  lemma FoundIn(c: Config, src: PageSource, h: Head, e: LeafEntry)
    requires Sound(c, h) && HeadStored(src, h)
    ensures FindSegment(c, src, h, e.baseLSN) == Ok(Some(e)) <==> e in Flat(h)
  {
    hide FindSegment, FindFlat, Flat, Tree.WellFormed, Tree.Spacious, HeadStored;
    FindSegmentRefines(c, src, h, e.baseLSN);
    FoundExactly(c, h, e);
  }

  /** An acknowledgement is never undone: at any later time a lookup of the segment's base LSN finds that very segment,
      unless retention has moved the oldest LSN past it. */
  lemma AcknowledgedStays(c: Config, evs: seq<P.Event>, more: seq<P.Event>, src: PageSource, e: LeafEntry)
    requires ValidConfig(c) && e in P.Run(c, evs).acked && Holds(src, P.Run(c, evs + more).puts)
    ensures P.Run(c, evs + more).cur.Some?
    ensures var h := P.Run(c, evs + more).cur.value;
            FindSegment(c, src, h, e.baseLSN) == Ok(Some(e)) <==> h.oldestLSN <= e.baseLSN
  {
    hide TreeStep, P.Inv, Flat, FindSegment, FindFlat, HeadStored;
    RunContinues(c, evs, more);
    var t := P.Run(c, evs + more);
    if t.cur.Some? { ReadersFindPages(c, evs + more, src, e.baseLSN); }
    AcknowledgedFound(c, t, src, e);
  }

  /** Only segments some caller offered ever become part of the log. */
  lemma OnlyOffered(c: Config, s: P.System, j: nat, e: LeafEntry)
    requires P.Inv(c, s) && j < |s.hist| && e in Flat(s.hist[j])
    ensures e in s.offered
  {
    hide TreeStep, P.Inv, Flat, Chain;
    P.InvTruthful(c, s);
    P.SeenWasAppended(c, s, s.hist[j], e);
  }

  lemma LastOf(f: seq<LeafEntry>, e: LeafEntry)
    ensures e in f + [e]
  {
    assert (f + [e])[|f|] == e;
  }

  lemma FoundExactly(c: Config, h: Head, e: LeafEntry)
    requires Sound(c, h)
    ensures e in Flat(h) ==> FindFlat(Flat(h), e.baseLSN) == Some(e)
    ensures FindFlat(Flat(h), e.baseLSN) == Some(e) ==> e in Flat(h)
  {
    hide Tree.WellFormed, Tree.Spacious, Flat, FindFlat, Sound;
    P.SoundRun(c, h);
    FindFlatMeaning(Flat(h), e.baseLSN);
    if e in Flat(h) { SoundSegment(c, h, e); }
  }

  /** A retention reported as applied stays applied. */
  lemma RetentionStays(c: Config, evs: seq<P.Event>, more: seq<P.Event>, v: nat, oldest: nat)
    requires ValidConfig(c) && (v, oldest) in P.Run(c, evs).retained
    ensures P.Run(c, evs + more).cur.Some?
    ensures P.Run(c, evs + more).cur.value.retentionVersion >= v && P.Run(c, evs + more).cur.value.oldestLSN >= oldest
  {
    hide TreeStep, P.Inv, Chain, Reach;
    RunContinues(c, evs, more);
    var t := P.Run(c, evs + more);
    P.InvTruthful(c, t);
    assert P.RetentionHeld(t, v, oldest);
    var h :| h in t.hist && h.retentionVersion >= v && h.oldestLSN >= oldest;
    var k :| 0 <= k < |t.hist| && t.hist[k] == h;
    ChainMonotone(c, t.hist, t.steps, k, |t.hist| - 1);
  }
}
