/** Fencing over whole runs: a session holds the fence its own takeover set, nothing lands under another one, and a session
    that has seen another fence is done. */
module ProtocolFence {
  import opened CatalogTypes
  import opened CatalogFlat
  import opened CatalogReader
  import opened CatalogMemory
  import opened CatalogHistory
  import opened ProtocolSafety
  import P = Protocol
  import Tree = CatalogTree
  import Retention = CatalogRetention

  // ---- Fences along a history ----

  lemma StepFence(c: Config, h: Head, s: Step, h': Head)
    requires Sound(c, h) && Advances(c, h, s, h')
    ensures P.FenceOf(h') == if s.TakeoverStep? then P.Claimed(s.writerID, h) else P.FenceOf(h)
  {
    hide Tree.WellFormed, Tree.Spacious, Tree.Append, Retention.ApplyRetention, Flat, ValidHead;
    match s
    case TakeoverStep(w) =>
    case AppendStep(e) => Tree.AppendWellFormed(c, h, e);
    case RetainStep(b, v) =>
      if v == h.retentionVersion && b == h.retentionLSN {
        SameGeneration(c, h, b, v);
      } else {
        Retention.ApplyRetentionRefines(c, WholeStore(), h, b, v);
      }
  }

  lemma ChainFence(c: Config, hs: seq<Head>, steps: seq<Step>, i: nat)
    requires Chain(c, hs, steps) && i < |steps|
    ensures |hs| == |steps| + 1
    ensures P.FenceOf(hs[i+1]) == if steps[i].TakeoverStep? then P.Claimed(steps[i].writerID, hs[i]) else P.FenceOf(hs[i])
  {
    hide TreeStep, Sound;
    ChainSound(c, hs, steps, i);
    assert Advances(c, hs[i], steps[i], hs[i+1]);
    StepFence(c, hs[i], steps[i], hs[i+1]);
  }

  /** Within an epoch there is one writer. */
  lemma {:induction false} OneFence(c: Config, hs: seq<Head>, steps: seq<Step>, i: nat, j: nat)
    requires Chain(c, hs, steps) && i <= j < |hs| && hs[i].writerEpoch == hs[j].writerEpoch
    ensures hs[i].writerID == hs[j].writerID
    decreases j
  {
    hide Chain;
    if i < j {
      P.ChainLength(c, hs, steps);
      ChainFence(c, hs, steps, j - 1);
      ChainMonotone(c, hs, steps, i, j - 1);
      OneFence(c, hs, steps, i, j - 1);
    }
  }

  /** Every fence was set by a takeover of its writer. */
  lemma {:induction false} SetByTakeover(c: Config, hs: seq<Head>, steps: seq<Step>, j: nat) returns (k: nat)
    requires Chain(c, hs, steps) && j < |hs| && hs[j].writerEpoch > 0
    ensures |hs| == |steps| + 1 && k < j && steps[k] == TakeoverStep(hs[j].writerID) && P.FenceOf(hs[k+1]) == P.FenceOf(hs[j])
    decreases j
  {
    hide Chain;
    P.ChainLength(c, hs, steps);
    if j == 0 {
      FreshFence(c, hs, steps);
    } else {
      ChainFence(c, hs, steps, j - 1);
      if steps[j-1].TakeoverStep? { k := j - 1; } else { k := SetByTakeover(c, hs, steps, j - 1); }
    }
  }

  lemma FreshFence(c: Config, hs: seq<Head>, steps: seq<Step>)
    requires Chain(c, hs, steps)
    ensures hs[0].writerEpoch == 0
  {
    hide TreeStep;
  }

  // ---- The invariant ----

  /** Some durable head had the fence. */
  ghost predicate Began(s: P.System, f: P.Fence) { exists h :: h in s.hist && P.FenceOf(h) == f }

  /** A session in the making is for its owner; work under way builds on a head of the session's own fence. */
  predicate PhaseFenced(x: P.Session) {
    match x.phase
    case Opening(w, _, _) => w == x.owner && !x.open
    case OpenWait(w, _, _) => w == x.owner && !x.open
    case OpenLost(w, epoch) => w == x.owner && !x.open && epoch > 0
    case Putting(job) => x.open && P.FenceOf(job.previous) == P.Holder(x)
    case Committing(job) => x.open && P.FenceOf(job.previous) == P.Holder(x)
    case CommitWait(job) => x.open && P.FenceOf(job.previous) == P.Holder(x)
    case CommitLost(job) => x.open && P.FenceOf(job.previous) == P.Holder(x)
    case _ => true
  }

  /** An open session holds a fence of its owner that was durable; its head has that fence, until it has seen a later one,
      and then it has nothing under way. */
  ghost predicate Fenced(s: P.System, x: P.Session) {
    && (x.open ==> x.writerID == x.owner && x.epoch > 0 && Began(s, P.Holder(x)))
    && (x.open && !x.stale ==> P.FenceOf(x.head) == P.Holder(x))
    && (x.open && x.stale ==> x.phase == P.Idle && s.cur.Some? && x.epoch < s.cur.value.writerEpoch)
    && PhaseFenced(x)
  }

  /** A takeover carries the fence it claims, any other request that of the head it builds on. */
  predicate Signed(r: P.Request) {
    r.Swap? ==> r.fence == if r.step.TakeoverStep? then P.Claimed(r.step.writerID, r.base) else P.FenceOf(r.base)
  }

  ghost predicate Authored(s: P.System) {
    |s.authors| == |s.steps| && forall k :: 0 <= k < |s.steps| && k + 1 < |s.hist| ==> s.authors[k] == P.FenceOf(s.hist[k+1])
  }

  ghost predicate FInv(s: P.System) {
    && Authored(s)
    && (forall r :: r in s.inflight ==> Signed(r))
    && (forall i :: i in s.sessions ==> Fenced(s, s.sessions[i]))
  }

  /** A head that is current and has another fence than one that began has a later epoch. */
  lemma LaterFence(c: Config, s: P.System, f: P.Fence, o: Head)
    requires P.Durable(c, s) && Began(s, f) && s.cur == Some(o) && P.FenceOf(o) != f
    ensures f.epoch < o.writerEpoch
  {
    hide Chain;
    var h :| h in s.hist && P.FenceOf(h) == f;
    var i :| 0 <= i < |s.hist| && s.hist[i] == h;
    var n := |s.hist| - 1;
    ChainMonotone(c, s.hist, s.steps, i, n);
    if h.writerEpoch == o.writerEpoch { OneFence(c, s.hist, s.steps, i, n); }
  }

  lemma ObserveFenced(c: Config, s: P.System, x: P.Session, o: Head)
    requires P.Durable(c, s) && Fenced(s, x) && x.open && !x.stale && s.cur == Some(o)
    ensures Fenced(s, P.Observe(x, o).(head := o, phase := P.Idle))
    ensures P.Observe(x, o).stale <==> P.FenceOf(o) != P.Holder(x)
    ensures P.Observe(x, o).stale ==> x.epoch < o.writerEpoch
  {
    hide P.Durable;
    if P.FenceOf(o) != P.Holder(x) { LaterFence(c, s, P.Holder(x), o); }
  }

  // ---- Steps that change one session ----

  ghost predicate OneMoves(s: P.System, t: P.System, i: nat) {
    && t.cur == s.cur && t.hist == s.hist && t.steps == s.steps && t.authors == s.authors && t.inflight == s.inflight
    && (forall j :: j in t.sessions ==> j == i || (j in s.sessions && t.sessions[j] == s.sessions[j]))
    && (i in t.sessions ==> Fenced(t, t.sessions[i]))
  }

  lemma OneMovesInv(s: P.System, t: P.System, i: nat)
    requires FInv(s) && OneMoves(s, t, i)
    ensures FInv(t)
  {
    hide PhaseFenced, Signed;
    forall j | j in t.sessions ensures Fenced(t, t.sessions[j]) { if j != i { assert Fenced(s, s.sessions[j]); } }
  }

  lemma ProceedFenced(c: Config, s: P.System, i: nat, x: P.Session, call: P.Call)
    requires Fenced(s, x.(phase := P.Idle)) && x.open && !x.stale
    ensures OneMoves(s, P.Proceed(c, s, i, x, call), i)
  {
    hide TreeStep;
  }

  lemma SucceedFenced(c: Config, s: P.System, i: nat, x: P.Session, job: P.Job)
    requires Fenced(s, x.(phase := P.Idle)) && x.open
    ensures OneMoves(s, P.Succeed(c, s, i, x, job), i)
  {
    hide TreeStep, P.Proceed;
    if job.purpose.ResolveJob? && !x.stale && x.pending.Some? {
      ProceedFenced(c, s, i, x.(pending := Some(x.pending.value.(resolved := true))), job.purpose.call);
    }
  }

  lemma JudgeFenced(c: Config, s: P.System, i: nat, x: P.Session, job: P.Job, o: Head, readable: bool, mayRetry: bool)
    requires P.Durable(c, s) && Fenced(s, x) && x.open && !x.stale && s.cur == Some(o) && P.FenceOf(job.previous) == P.Holder(x)
    ensures OneMoves(s, P.Judge(c, s, i, x, job, o, readable, mayRetry), i)
  {
    hide TreeStep, P.Durable, P.Succeed, P.Applied;
    ObserveFenced(c, s, x, o);
    SucceedFenced(c, s, i, P.Observe(x, o).(head := o), job);
  }

  lemma LoadResolvingFenced(c: Config, s: P.System, i: nat, readable: bool)
    requires P.Inv(c, s) && FInv(s) && i in s.sessions && s.sessions[i].phase.Resolving?
    ensures OneMoves(s, P.AfterLoad(c, s, i, s.sessions[i], readable), i)
  {
    hide TreeStep, P.Inv, P.Durable, P.Truthful, P.Proceed, P.Judge, FindSegment;
    var x, o := s.sessions[i], P.Loaded(c, s);
    P.InvTruthful(c, s);
    P.InvSession(c, s, i);
    NotStale(s, x);
    P.LoadedDurable(c, s);
    ObserveFenced(c, s, x, o);
    var y := P.Observe(x, o).(head := o);
    if !y.stale && y.pending.Some? { ProceedFenced(c, s, i, y.(pending := Some(y.pending.value.(resolved := true))), x.phase.call); }
  }

  lemma LoadObservedFenced(c: Config, s: P.System, i: nat, readable: bool)
    requires P.Inv(c, s) && FInv(s) && i in s.sessions && (s.sessions[i].phase.Confirming? || s.sessions[i].phase.Refreshing?)
    ensures OneMoves(s, P.AfterLoad(c, s, i, s.sessions[i], readable), i)
  {
    hide TreeStep, P.Inv, P.Durable, P.Truthful, P.Proceed, P.Judge, P.Retained, FindSegment;
    P.InvTruthful(c, s);
    P.InvSession(c, s, i);
    NotStale(s, s.sessions[i]);
    P.LoadedDurable(c, s);
    ObserveFenced(c, s, s.sessions[i], P.Loaded(c, s));
  }

  lemma LoadFenced(c: Config, s: P.System, i: nat, readable: bool)
    requires P.Inv(c, s) && FInv(s) && i in s.sessions
    ensures OneMoves(s, P.AfterLoad(c, s, i, s.sessions[i], readable), i)
  {
    hide TreeStep, P.Inv, P.Durable, P.Truthful, P.Proceed, P.Judge, P.Retained, P.Proposed, FindSegment;
    var x, o := s.sessions[i], P.Loaded(c, s);
    P.InvTruthful(c, s);
    P.InvSession(c, s, i);
    assert Fenced(s, x);
    match x.phase
    case OpenLost(w, epoch) =>
      if s.cur.Some? && o.writerID == w && o.writerEpoch == epoch { OpenedFenced(c, s, x.owner, o); }
    case Resolving(call) => LoadResolvingFenced(c, s, i, readable);
    case Confirming(e) => LoadObservedFenced(c, s, i, readable);
    case Refreshing(b, v) => LoadObservedFenced(c, s, i, readable);
    case CommitLost(job) =>
      NotStale(s, x);
      P.LoadedDurable(c, s);
      JudgeFenced(c, s, i, x, job, o, readable, false);
    case _ =>
  }

  lemma NotStale(s: P.System, x: P.Session)
    requires Fenced(s, x) && x.open && x.phase != P.Idle
    ensures !x.stale
  {
  }

  lemma OpenedFenced(c: Config, s: P.System, w: nat, h: Head)
    requires h in s.hist && h.writerID == w && h.writerEpoch > 0
    ensures Fenced(s, P.Opened(w, h))
  {
  }

  lemma StartFenced(c: Config, s: P.System, i: nat, call: P.Call)
    requires FInv(s) && i in s.sessions && s.sessions[i].open && s.sessions[i].phase == P.Idle
    ensures OneMoves(s, P.Start(c, P.Offer(s, call), i, s.sessions[i], call), i)
  {
    hide TreeStep, P.Proceed;
    var x := s.sessions[i];
    assert Fenced(s, x);
    if !x.stale {
      assert Fenced(P.Offer(s, call), x);
      ProceedFenced(c, P.Offer(s, call), i, x, call);
    }
  }

  lemma PutFenced(c: Config, s: P.System, i: nat, flag: bool)
    requires FInv(s) && i in s.sessions
    ensures OneMoves(s, P.AfterPut(c, s, i, s.sessions[i]), i)
    ensures OneMoves(s, P.AfterLost(c, s, i, s.sessions[i], flag), i)
    ensures OneMoves(s, P.AfterFail(s, i, s.sessions[i], flag), i)
  {
    hide TreeStep;
    assert Fenced(s, s.sessions[i]);
  }

  // ---- Requests ----

  lemma TakeoverFence(c: Config, h: Head, w: nat)
    requires TreeStep(c, h, TakeoverStep(w)).Ok?
    ensures P.FenceOf(TreeStep(c, h, TakeoverStep(w)).value.head) == P.Claimed(w, h)
  {
  }

  /** Adding good requests and changing one session. */
  lemma SentInv(s: P.System, t: P.System, i: nat)
    requires FInv(s) && OneMoves(s, t.(inflight := s.inflight), i)
    requires forall r :: r in t.inflight && r !in s.inflight ==> Signed(r)
    ensures FInv(t)
  {
    hide PhaseFenced, Signed;
    OneMovesInv(s, t.(inflight := s.inflight), i);
    forall j | j in t.sessions ensures Fenced(t, t.sessions[j]) { assert Fenced(t.(inflight := s.inflight), t.sessions[j]); }
    forall r | r in t.inflight ensures Signed(r) { if r in s.inflight { assert Signed(r); } }
  }

  lemma IssueFenced(c: Config, s: P.System, i: nat)
    requires FInv(s) && P.Inv(c, s) && i in s.sessions
    ensures FInv(P.AfterIssue(c, s, i, s.sessions[i]))
  {
    hide TreeStep, P.Inv;
    var x, t := s.sessions[i], P.AfterIssue(c, s, i, s.sessions[i]);
    assert Fenced(s, x);
    P.InvSession(c, s, i);
    if x.phase.Committing? { NoTakeoverJob(c, s, x, x.phase.job); }
    SentInv(s, t, i);
  }

  lemma NoTakeoverJob(c: Config, s: P.System, x: P.Session, job: P.Job)
    requires P.GoodJob(c, s, x, job)
    ensures !job.step.TakeoverStep?
  {
    hide TreeStep;
  }

  /** Time passes for a session: the history grows and the current epoch does not fall. */
  lemma FencedLater(s: P.System, t: P.System, x: P.Session)
    requires Fenced(s, x) && (forall h :: h in s.hist ==> h in t.hist)
    requires s.cur.Some? ==> t.cur.Some? && s.cur.value.writerEpoch <= t.cur.value.writerEpoch
    ensures Fenced(t, x)
  {
    if x.open {
      var h :| h in s.hist && P.FenceOf(h) == P.Holder(x);
      assert h in t.hist;
    }
  }

  lemma LandFenced(c: Config, s: P.System, r: P.Request)
    requires P.Inv(c, s) && FInv(s) && P.GoodRequest(c, s, r) && Signed(r)
    ensures FInv(P.Landed(c, s, r))
  {
    hide TreeStep, P.Inv, P.Durable, P.Truthful, P.GoodRequest, Fenced, P.Landed;
    var t := P.Landed(c, s, r);
    P.InvTruthful(c, s);
    P.LandedGrows(c, s, r);
    LandAuthored(c, s, r);
    forall i | i in t.sessions ensures Fenced(t, t.sessions[i]) {
      assert Fenced(s, s.sessions[i]);
      FencedLater(s, t, s.sessions[i]);
    }
  }

  lemma LandAuthored(c: Config, s: P.System, r: P.Request)
    requires P.Durable(c, s) && Authored(s) && P.GoodRequest(c, s, r) && Signed(r)
    ensures var t := P.Landed(c, s, r);
            Authored(t) && (s.cur.Some? ==> t.cur.Some? && s.cur.value.writerEpoch <= t.cur.value.writerEpoch)
  {
    hide TreeStep, Chain, Sound;
    if r.Swap? && s.cur == r.expected {
      if s.cur.Some? {
        P.KnownSound(c, s, r.base);
        P.ChainLength(c, s.hist, s.steps);
      } else {
        FreshSound(c, 0);
      }
      assert Advances(c, r.base, r.step, P.Proposed(c, r.base, r.step).head);
      StepFence(c, r.base, r.step, P.Proposed(c, r.base, r.step).head);
    }
  }

  lemma ReplyOpenFenced(c: Config, s: P.System, i: nat, w: nat, base: Head, token: Option<Head>, readable: bool)
    requires P.Inv(c, s) && FInv(s) && i in s.sessions && s.sessions[i].phase == P.OpenWait(w, base, token)
    ensures FInv(P.AfterReply(c, s, i, s.sessions[i], readable))
  {
    hide TreeStep, P.Inv, P.Durable, P.Truthful, P.Landed;
    var x := s.sessions[i];
    assert Fenced(s, x);
    P.InvTruthful(c, s);
    P.InvSession(c, s, i);
    if P.Proposes(c, base, TakeoverStep(w)) {
      var next := P.Proposed(c, base, TakeoverStep(w)).head;
      TakeoverFence(c, base, w);
      P.TakeoverPages(c, base, w);
      var r := P.Swap(token, base, TakeoverStep(w), P.Claimed(w, base));
      if s.cur == token {
        LandFenced(c, s, r);
        P.LandedGrows(c, s, r);
        var t := P.Landed(c, s, r);
        OpenedFenced(c, t, w, next);
        OneMovesInv(t, P.Put(t, i, P.Opened(x.owner, next)), i);
      } else if s.cur.Some? {
        P.CurDurable(c, s);
        if s.cur.value == next { OpenedFenced(c, s, w, next); }
        OneMovesInv(s, P.AfterReply(c, s, i, x, readable), i);
      }
    }
  }

  lemma ReplyCommitFenced(c: Config, s: P.System, i: nat, job: P.Job, readable: bool)
    requires P.Inv(c, s) && FInv(s) && i in s.sessions && s.sessions[i].phase == P.CommitWait(job)
    ensures FInv(P.AfterReply(c, s, i, s.sessions[i], readable))
  {
    hide TreeStep, P.Inv, P.Durable, P.Truthful, P.Landed, P.Judge, P.Succeed;
    var x := s.sessions[i];
    assert Fenced(s, x);
    NotStale(s, x);
    P.InvTruthful(c, s);
    P.InvSession(c, s, i);
    NoTakeoverJob(c, s, x, job);
    P.LoadedDurable(c, s);
    if s.cur == Some(job.previous) {
      var r := P.Swap(Some(job.previous), job.previous, job.step, P.Holder(x));
      LandFenced(c, s, r);
      P.LandedGrows(c, s, r);
      var t, next := P.Landed(c, s, r), P.Proposed(c, job.previous, job.step).head;
      assert Fenced(t, x);
      P.KnownSound(c, s, job.previous);
      assert Advances(c, job.previous, job.step, next);
      StepFence(c, job.previous, job.step, next);
      SucceedFenced(c, t, i, x.(head := next), job);
      OneMovesInv(t, P.Succeed(c, t, i, x.(head := next), job), i);
    } else {
      JudgeFenced(c, s, i, x, job, s.cur.value, readable, true);
      OneMovesInv(s, P.Judge(c, s, i, x, job, s.cur.value, readable, true), i);
    }
  }

  lemma NextFenced(c: Config, s: P.System, ev: P.Event)
    requires P.Inv(c, s) && FInv(s)
    ensures FInv(P.Next(c, s, ev))
  {
    hide TreeStep, P.Inv, P.Landed, P.Start, P.AfterLoad, P.AfterPut, P.AfterIssue, P.AfterReply, P.AfterLost, P.AfterFail, P.AllPut, FInv, OneMoves;
    match ev
    case Initialize(n) => StoreFenced(s, s.(inflight := s.inflight + {P.Create(n)}));
    case Land(r) => if r in s.inflight { P.InvRequest(c, s, r); SignedOf(s, r); LandFenced(c, s, r); }
    case Open(i, w) => OpenFenced(c, s, i, w);
    case Invoke(i, call) =>
      if i in s.sessions && s.sessions[i].open && s.sessions[i].phase == P.Idle {
        StartFenced(c, s, i, call);
        OneMovesInv(s, P.Next(c, s, ev), i);
      }
    case Load(i, readable) => if i in s.sessions { LoadFenced(c, s, i, readable); OneMovesInv(s, P.Next(c, s, ev), i); }
    case PutPage(i, p) => StoreFenced(s, s.(puts := s.puts + {KeyOf(p)}));
    case PutDone(i) => if i in s.sessions { PutFenced(c, s, i, true); if P.AllPut(c, s, s.sessions[i]) { OneMovesInv(s, P.Next(c, s, ev), i); } }
    case Issue(i) => if i in s.sessions { IssueFenced(c, s, i); }
    case Reply(i, readable) => if i in s.sessions { ReplyFenced(c, s, i, readable); }
    case Lost(i, again) => if i in s.sessions { PutFenced(c, s, i, again); OneMovesInv(s, P.Next(c, s, ev), i); }
    case Fail(i, keep) => if i in s.sessions { PutFenced(c, s, i, keep); OneMovesInv(s, P.Next(c, s, ev), i); }
  }

  lemma ReplyFenced(c: Config, s: P.System, i: nat, readable: bool)
    requires P.Inv(c, s) && FInv(s) && i in s.sessions
    ensures FInv(P.AfterReply(c, s, i, s.sessions[i], readable))
  {
    hide TreeStep, P.Inv, P.Landed, P.Judge, P.Succeed, FInv;
    match s.sessions[i].phase
    case OpenWait(w, base, token) => ReplyOpenFenced(c, s, i, w, base, token, readable);
    case CommitWait(job) => ReplyCommitFenced(c, s, i, job, readable);
    case _ =>
  }

  lemma SignedOf(s: P.System, r: P.Request)
    requires FInv(s) && r in s.inflight
    ensures Signed(r)
  {
  }

  lemma StoreFenced(s: P.System, t: P.System)
    requires FInv(s) && t == s.(inflight := t.inflight, puts := t.puts) && forall r :: r in t.inflight ==> r in s.inflight || r.Create?
    ensures FInv(t)
  {
    forall i | i in t.sessions ensures Fenced(t, t.sessions[i]) { assert Fenced(s, s.sessions[i]); }
  }

  lemma OpenFenced(c: Config, s: P.System, i: nat, w: nat)
    requires FInv(s)
    ensures FInv(P.Put(s, i, P.NewSession(c, s, w)))
  {
    OneMovesInv(s, P.Put(s, i, P.NewSession(c, s, w)), i);
  }

  /** The fences hold in every state any interleaving of events can reach. */
  lemma {:induction false} RunFenced(c: Config, evs: seq<P.Event>)
    requires ValidConfig(c)
    ensures P.Inv(c, P.Run(c, evs)) && FInv(P.Run(c, evs))
  {
    hide P.Next, P.Inv;
    P.RunInv(c, evs);
    if evs != [] {
      RunFenced(c, evs[..|evs|-1]);
      NextFenced(c, P.Run(c, evs[..|evs|-1]), evs[|evs|-1]);
    }
  }

  // ---- Whose session it is ----

  /** An open session is its owner's, under the epoch that a takeover of that very writer began. */
  lemma OpenedForOwner(c: Config, evs: seq<P.Event>, i: nat) returns (k: nat)
    requires ValidConfig(c) && i in P.Run(c, evs).sessions && P.Run(c, evs).sessions[i].open
    ensures var s := P.Run(c, evs);
            var x := s.sessions[i];
            && x.writerID == x.owner && |s.hist| == |s.steps| + 1 && k < |s.steps|
            && s.steps[k] == TakeoverStep(x.owner) && P.FenceOf(s.hist[k+1]) == P.Holder(x)
  {
    hide P.Inv, Chain;
    RunFenced(c, evs);
    var s := P.Run(c, evs);
    var x := s.sessions[i];
    P.InvTruthful(c, s);
    assert Fenced(s, x);
    var h :| h in s.hist && P.FenceOf(h) == P.Holder(x);
    var j :| 0 <= j < |s.hist| && s.hist[j] == h;
    k := SetByTakeover(c, s.hist, s.steps, j);
  }

  /** Only session i may change, and not its owner. */
  ghost predicate Touches(s: P.System, t: P.System, i: nat, owner: nat) {
    && (forall j :: j in s.sessions ==> j in t.sessions)
    && (forall j :: j in t.sessions && j != i ==> j in s.sessions && t.sessions[j] == s.sessions[j])
    && (i in t.sessions ==> t.sessions[i].owner == owner)
  }

  lemma ProceedTouches(c: Config, s: P.System, i: nat, x: P.Session, call: P.Call)
    ensures var t := P.Proceed(c, s, i, x, call); Touches(s, t, i, x.owner) && i in t.sessions && t.sessions[i].stale == x.stale
  {
    hide TreeStep;
  }

  lemma SucceedTouches(c: Config, s: P.System, i: nat, x: P.Session, job: P.Job)
    ensures var t := P.Succeed(c, s, i, x, job); Touches(s, t, i, x.owner) && i in t.sessions && t.sessions[i].stale == x.stale
  {
    hide TreeStep, P.Proceed;
    if job.purpose.ResolveJob? && !x.stale && x.pending.Some? {
      ProceedTouches(c, s, i, x.(pending := Some(x.pending.value.(resolved := true))), job.purpose.call);
    }
  }

  lemma JudgeTouches(c: Config, s: P.System, i: nat, x: P.Session, job: P.Job, o: Head, readable: bool, mayRetry: bool)
    ensures var t := P.Judge(c, s, i, x, job, o, readable, mayRetry); Touches(s, t, i, x.owner) && i in t.sessions && t.sessions[i].stale == P.Observe(x, o).stale
  {
    hide TreeStep, P.Succeed, P.Applied;
    SucceedTouches(c, s, i, P.Observe(x, o).(head := o), job);
  }

  lemma LoadResolvingTouches(c: Config, s: P.System, i: nat, x: P.Session, readable: bool)
    requires i in s.sessions && s.sessions[i] == x && x.phase.Resolving?
    ensures var t := P.AfterLoad(c, s, i, x, readable);
            Touches(s, t, i, x.owner) && i in t.sessions && t.sessions[i].stale == P.Observe(x, P.Loaded(c, s)).stale
  {
    hide TreeStep, P.Proceed, P.Judge, P.Loaded, P.Retained, P.Proposed, FindSegment;
    var o := P.Loaded(c, s);
    if x.pending.Some? { ProceedTouches(c, s, i, P.Observe(x, o).(head := o, pending := Some(x.pending.value.(resolved := true))), x.phase.call); }
  }

  lemma LoadTouches(c: Config, s: P.System, i: nat, x: P.Session, readable: bool)
    requires i in s.sessions && s.sessions[i] == x
    ensures var t := P.AfterLoad(c, s, i, x, readable);
            && Touches(s, t, i, x.owner) && i in t.sessions
            && (x.phase.Resolving? || x.phase.Confirming? || x.phase.Refreshing? || x.phase.CommitLost? ==> t.sessions[i].stale == P.Observe(x, P.Loaded(c, s)).stale)
  {
    hide TreeStep, P.Proceed, P.Judge, P.Loaded, P.Retained, P.Proposed, P.Proposes, FindSegment;
    var o := P.Loaded(c, s);
    match x.phase
    case Resolving(call) => LoadResolvingTouches(c, s, i, x, readable);
    case CommitLost(job) => JudgeTouches(c, s, i, x, job, o, readable, false);
    case _ =>
  }

  lemma ReplyTouches(c: Config, s: P.System, i: nat, x: P.Session, readable: bool)
    requires i in s.sessions && s.sessions[i] == x
    ensures var t := P.AfterReply(c, s, i, x, readable);
            && Touches(s, t, i, x.owner) && i in t.sessions
            && (x.phase.CommitWait? && P.Proposes(c, x.phase.job.previous, x.phase.job.step) && s.cur.Some? && s.cur != Some(x.phase.job.previous) ==>
                  t.sessions[i].stale == P.Observe(x, s.cur.value).stale)
  {
    hide TreeStep, P.Judge, P.Succeed, P.Landed;
    match x.phase
    case OpenWait(w, base, token) => LandedTouches(c, s, P.Swap(token, base, TakeoverStep(w), P.Claimed(w, base)));
    case CommitWait(job) =>
      var r := P.Swap(Some(job.previous), job.previous, job.step, P.Holder(x));
      LandedTouches(c, s, r);
      if P.Proposes(c, job.previous, job.step) {
        SucceedTouches(c, P.Landed(c, s, r), i, x.(head := P.Proposed(c, job.previous, job.step).head), job);
        if s.cur.Some? { JudgeTouches(c, s, i, x, job, s.cur.value, readable, true); }
      }
    case _ =>
  }

  lemma LandedTouches(c: Config, s: P.System, r: P.Request)
    ensures P.Landed(c, s, r).sessions == s.sessions
  {
    hide TreeStep;
  }

  lemma StartTouches(c: Config, s: P.System, i: nat, x: P.Session, call: P.Call)
    requires i in s.sessions && s.sessions[i] == x
    ensures Touches(s, P.Start(c, P.Offer(s, call), i, x, call), i, x.owner)
  {
    hide TreeStep, P.Proceed;
    ProceedTouches(c, P.Offer(s, call), i, x, call);
  }

  lemma LocalTouches(c: Config, s: P.System, i: nat, x: P.Session, flag: bool)
    requires i in s.sessions && s.sessions[i] == x
    ensures Touches(s, P.AfterPut(c, s, i, x), i, x.owner) && Touches(s, P.AfterIssue(c, s, i, x), i, x.owner)
    ensures Touches(s, P.AfterLost(c, s, i, x, flag), i, x.owner) && Touches(s, P.AfterFail(s, i, x, flag), i, x.owner)
  {
    hide TreeStep;
  }

  /** The session an event is about, if any. */
  function About(ev: P.Event): Option<nat> {
    match ev
    case Initialize(_) => None
    case Land(_) => None
    case Open(i, _) => Some(i)
    case Invoke(i, _) => Some(i)
    case Load(i, _) => Some(i)
    case PutPage(i, _) => Some(i)
    case PutDone(i) => Some(i)
    case Issue(i) => Some(i)
    case Reply(i, _) => Some(i)
    case Lost(i, _) => Some(i)
    case Fail(i, _) => Some(i)
  }

  lemma NextTouches(c: Config, s: P.System, ev: P.Event)
    ensures var t := P.Next(c, s, ev);
            if About(ev).None? then t.sessions == s.sessions
            else
              var i := About(ev).value;
              && (forall j :: j in s.sessions ==> j in t.sessions)
              && (forall j :: j in t.sessions && j != i ==> j in s.sessions && t.sessions[j] == s.sessions[j])
              && (i in t.sessions && !(ev.Open? && ev.writer == t.sessions[i].owner) ==> i in s.sessions && t.sessions[i].owner == s.sessions[i].owner)
  {
    hide TreeStep, P.Landed, P.Start, P.AfterLoad, P.AfterPut, P.AfterIssue, P.AfterReply, P.AfterLost, P.AfterFail, P.AllPut;
    match ev
    case Land(r) => LandedTouches(c, s, r);
    case Invoke(i, call) => if i in s.sessions { StartTouches(c, s, i, s.sessions[i], call); }
    case Load(i, readable) => if i in s.sessions { LoadTouches(c, s, i, s.sessions[i], readable); }
    case Reply(i, readable) => if i in s.sessions { ReplyTouches(c, s, i, s.sessions[i], readable); }
    case PutDone(i) => if i in s.sessions { LocalTouches(c, s, i, s.sessions[i], true); }
    case Issue(i) => if i in s.sessions { LocalTouches(c, s, i, s.sessions[i], true); }
    case Lost(i, again) => if i in s.sessions { LocalTouches(c, s, i, s.sessions[i], again); }
    case Fail(i, keep) => if i in s.sessions { LocalTouches(c, s, i, s.sessions[i], keep); }
    case _ =>
  }

  /** The owner is the writer the last accepted open of the session named. */
  lemma OwnerKept(c: Config, s: P.System, ev: P.Event, i: nat)
    ensures i in s.sessions ==> i in P.Next(c, s, ev).sessions
    ensures i in P.Next(c, s, ev).sessions ==>
              || ev == P.Open(i, P.Next(c, s, ev).sessions[i].owner)
              || (i in s.sessions && P.Next(c, s, ev).sessions[i].owner == s.sessions[i].owner)
  {
    hide P.Next;
    NextTouches(c, s, ev);
  }

  lemma {:induction false} OwnerAsked(c: Config, evs: seq<P.Event>, i: nat)
    requires i in P.Run(c, evs).sessions
    ensures P.Open(i, P.Run(c, evs).sessions[i].owner) in evs
  {
    hide P.Next;
    if evs != [] {
      var n := |evs| - 1;
      OwnerKept(c, P.Run(c, evs[..n]), evs[n], i);
      if evs[n] != P.Open(i, P.Run(c, evs).sessions[i].owner) { OwnerAsked(c, evs[..n], i); }
    }
  }

  /** Sessions opened for distinct writers never share an epoch. */
  lemma FencesApart(c: Config, evs: seq<P.Event>, i: nat, j: nat)
    requires ValidConfig(c) && i in P.Run(c, evs).sessions && j in P.Run(c, evs).sessions
    requires P.Run(c, evs).sessions[i].open && P.Run(c, evs).sessions[j].open && P.Run(c, evs).sessions[i].epoch == P.Run(c, evs).sessions[j].epoch
    ensures P.Run(c, evs).sessions[i].owner == P.Run(c, evs).sessions[j].owner
  {
    hide P.Inv, Chain, P.Run;
    RunFenced(c, evs);
    var s := P.Run(c, evs);
    P.InvTruthful(c, s);
    var k := OpenedForOwner(c, evs, i);
    var m := OpenedForOwner(c, evs, j);
    if k <= m { OneFence(c, s.hist, s.steps, k + 1, m + 1); } else { OneFence(c, s.hist, s.steps, m + 1, k + 1); }
  }

  // ---- Who may write ----

  /** Every step of the history was sent under the fence of the head it made, and, unless it is a takeover, of the head it
      changed: nobody appends to or trims a log whose fence is not theirs. */
  lemma StepsAuthored(c: Config, evs: seq<P.Event>, k: nat)
    requires ValidConfig(c) && k < |P.Run(c, evs).steps|
    ensures var s := P.Run(c, evs);
            && |s.hist| == |s.steps| + 1 == |s.authors| + 1 && s.authors[k] == P.FenceOf(s.hist[k+1])
            && (!s.steps[k].TakeoverStep? ==> s.authors[k] == P.FenceOf(s.hist[k]))
  {
    hide P.Inv, Chain, P.Run;
    RunFenced(c, evs);
    var s := P.Run(c, evs);
    P.InvTruthful(c, s);
    P.ChainLength(c, s.hist, s.steps);
    ChainFence(c, s.hist, s.steps, k);
  }

  /** An event of one session other than opening it. */
  predicate ByCaller(ev: P.Event, i: nat) { About(ev) == Some(i) && !ev.Open? }

  lemma OpenNext(c: Config, s: P.System, i: nat, readable: bool)
    requires i in s.sessions && s.sessions[i].open
    ensures P.Next(c, s, P.Load(i, readable)) == P.AfterLoad(c, s, i, s.sessions[i], readable)
    ensures P.Next(c, s, P.Reply(i, readable)) == P.AfterReply(c, s, i, s.sessions[i], readable)
  {
    hide TreeStep, P.Landed, P.Start, P.AfterLoad, P.AfterPut, P.AfterIssue, P.AfterReply, P.AfterLost, P.AfterFail, P.AllPut;
  }

  /** A session notices: every head it loads decides whether it is still the writer. */
  lemma Notices(c: Config, s: P.System, i: nat, readable: bool)
    requires P.Inv(c, s) && FInv(s) && i in s.sessions && s.sessions[i].open
    requires var phase := s.sessions[i].phase; phase.Resolving? || phase.Confirming? || phase.Refreshing? || phase.CommitLost?
    ensures i in P.Next(c, s, P.Load(i, readable)).sessions
    ensures P.Next(c, s, P.Load(i, readable)).sessions[i].stale <==> P.FenceOf(P.Loaded(c, s)) != P.Holder(s.sessions[i])
  {
    hide TreeStep, P.Inv, P.Loaded, P.Next, P.AfterLoad, P.AfterReply;
    OpenNext(c, s, i, readable);
    assert Fenced(s, s.sessions[i]);
    NotStale(s, s.sessions[i]);
    LoadTouches(c, s, i, s.sessions[i], readable);
  }

  /** A head that answers a refused swap is such a head too. */
  lemma RefusalNoticed(c: Config, s: P.System, i: nat, readable: bool)
    requires P.Inv(c, s) && FInv(s) && i in s.sessions && s.sessions[i].open && s.sessions[i].phase.CommitWait?
    requires s.cur != Some(s.sessions[i].phase.job.previous)
    ensures s.cur.Some? && i in P.Next(c, s, P.Reply(i, readable)).sessions
    ensures P.Next(c, s, P.Reply(i, readable)).sessions[i].stale <==> P.FenceOf(s.cur.value) != P.Holder(s.sessions[i])
  {
    hide TreeStep, P.Inv, P.Durable, P.Truthful, P.Next, P.AfterLoad, P.AfterReply;
    OpenNext(c, s, i, readable);
    P.InvTruthful(c, s);
    P.InvSession(c, s, i);
    assert Fenced(s, s.sessions[i]);
    NotStale(s, s.sessions[i]);
    ReplyTouches(c, s, i, s.sessions[i], readable);
  }

  /** A session that has seen another fence sends nothing, trims nothing, acknowledges no retention and stays as it is. It
      confirms its own last append once more when asked to, if the head it knows still reaches back to it, and no other. */
  lemma StaleSilent(c: Config, s: P.System, ev: P.Event, i: nat)
    requires FInv(s) && i in s.sessions && s.sessions[i].open && s.sessions[i].stale && ByCaller(ev, i)
    ensures var t := P.Next(c, s, ev);
            && t.retained == s.retained && t.inflight == s.inflight && t.steps == s.steps && t.hist == s.hist && t.puts == s.puts
            && i in t.sessions && t.sessions[i] == s.sessions[i]
            && t.acked == if ev.Invoke? && ev.call.AppendCall? && s.sessions[i].lastAppend == Some(ev.call.entry) && ev.call.entry.baseLSN >= s.sessions[i].head.oldestLSN
                          then s.acked + {ev.call.entry} else s.acked
  {
    hide TreeStep;
    assert Fenced(s, s.sessions[i]);
    assert s.sessions[i].(phase := P.Idle) == s.sessions[i];
  }

  lemma OtherCaller(c: Config, s: P.System, ev: P.Event, i: nat)
    requires i in s.sessions && !ByCaller(ev, i) && !(ev.Open? && ev.i == i)
    ensures i in P.Next(c, s, ev).sessions && P.Next(c, s, ev).sessions[i] == s.sessions[i]
  {
    hide P.Next;
    NextTouches(c, s, ev);
  }

  /** Once a session has seen another fence it is done, whatever happens: until its slot is opened anew it stays stale, and
      every later step of the history is of a later epoch than its own. */
  lemma {:induction false} SupersededIsDone(c: Config, evs: seq<P.Event>, more: seq<P.Event>, i: nat)
    requires ValidConfig(c) && i in P.Run(c, evs).sessions && P.Run(c, evs).sessions[i].open && P.Run(c, evs).sessions[i].stale
    requires forall w :: P.Open(i, w) !in more
    ensures var s, t := P.Run(c, evs), P.Run(c, evs + more);
            && i in t.sessions && t.sessions[i] == s.sessions[i] && |s.steps| <= |t.steps| == |t.authors|
            && forall k :: |s.steps| <= k < |t.steps| ==> t.authors[k].epoch > s.sessions[i].epoch
    decreases |more|
  {
    hide P.Inv, P.Next, Chain, P.Durable, P.Truthful, ByCaller;
    StaleStays(c, evs, more, i);
    RunContinues(c, evs, more);
    var s, t := P.Run(c, evs), P.Run(c, evs + more);
    RunFenced(c, evs);
    assert Fenced(s, s.sessions[i]);
    P.InvTruthful(c, s);
    P.InvTruthful(c, t);
    forall k | |s.steps| <= k < |t.steps| ensures t.authors[k].epoch > s.sessions[i].epoch {
      StepsAuthored(c, evs + more, k);
      LaterStep(c, s, t, k);
    }
    RunFenced(c, evs + more);
  }

  lemma LaterStep(c: Config, s: P.System, t: P.System, k: nat)
    requires P.Durable(c, s) && P.Durable(c, t) && s.hist <= t.hist && s.cur.Some? && |s.steps| <= k < |t.steps|
    ensures k + 1 < |t.hist| && s.cur.value.writerEpoch <= t.hist[k+1].writerEpoch
  {
    hide Chain;
    P.ChainLength(c, s.hist, s.steps);
    P.ChainLength(c, t.hist, t.steps);
    ChainMonotone(c, t.hist, t.steps, |s.hist| - 1, k + 1);
  }

  lemma {:induction false} StaleStays(c: Config, evs: seq<P.Event>, more: seq<P.Event>, i: nat)
    requires ValidConfig(c) && i in P.Run(c, evs).sessions && P.Run(c, evs).sessions[i].open && P.Run(c, evs).sessions[i].stale
    requires forall w :: P.Open(i, w) !in more
    ensures i in P.Run(c, evs + more).sessions && P.Run(c, evs + more).sessions[i] == P.Run(c, evs).sessions[i]
    decreases |more|
  {
    hide P.Inv, P.Next;
    if more == [] {
      assert evs + more == evs;
    } else {
      var n := |more| - 1;
      StaleStays(c, evs, more[..n], i);
      assert (evs + more)[..|evs + more| - 1] == evs + more[..n];
      var s := P.Run(c, evs + more[..n]);
      RunFenced(c, evs + more[..n]);
      assert more[n] in more;
      if ByCaller(more[n], i) { StaleSilent(c, s, more[n], i); } else { OtherCaller(c, s, more[n], i); }
    }
  }
}
