/** Competing reclaimers sharing one state record through compare-and-swap, beside running writers. */
module GcWorkers {
  import opened CatalogTypes
  import opened CatalogFlat
  import opened CatalogHistory
  import opened CatalogReach
  import opened CatalogMemory
  import opened GcState
  import opened GcSafety
  import P = Protocol

  /** A head load of a pass: the oldest LSN found, the clock when the pass began, the clock at the load. */
  datatype Observation = Observation(floor: nat, began: int, loaded: int)

  datatype Swap = Swap(expected: Option<State>, next: State)

  datatype WorkerPhase =
    | Resting
    | Starting(began: int)
    | Loaded(began: int, found: Option<State>)
    | AcquireWait(began: int, swap: Swap)
    | Holding(began: int, state: State, token: Option<State>)
    | SaveWait(began: int, swap: Swap)

  /** The partition's writers and objects, the state record, swaps that may still land, the workers and one clock. */
  datatype Shared = Shared(world: World, record: Option<State>, inflight: set<Swap>, workers: map<nat, WorkerPhase>, clock: int,
                           observations: set<Observation>)

  datatype Move =
    | Outside(action: Action)
    | Tick(ms: nat)
    | Begin(i: nat)
    | Fetch(i: nat)
    | Acquire(i: nat)
    | Observe(i: nat)
    | Work(i: nat, state: State)
    | Save(i: nat)
    | Release(i: nat)
    | Reply(i: nat)
    | Lost(i: nat)
    | Land(swap: Swap)
    | Crash(i: nat)
    | SweepSegment(i: nat, segment: SegmentKey)
    | SweepPage(i: nat, page: PageKey)

  function Found(record: Option<State>): State { if record.None? then Absent else record.value }

  /** What the sweeps and scrubs may change between two saves: a watermark jumps to the floor, cursors move freely, floors
      stay, and the quarantine loses entries and gains pages found dead in a durable head. */
  ghost predicate Progress(g: Shared, s: State, t: State) {
    && (forall q :: q in t.quarantine ==> q in s.quarantine || FoundDead(g, q))
    && t.safeFloor == s.safeFloor && t.pendingFloor == s.pendingFloor && t.pendingSinceMS == s.pendingSinceMS && t.hasPending == s.hasPending
    && (t.segmentThrough == s.segmentThrough || t.segmentThrough == s.safeFloor)
    && (t.pageThrough == s.pageThrough || t.pageThrough == s.safeFloor)
  }

  /** The page was dead in the durable head of that generation. */
  ghost predicate FoundDead(g: Shared, q: Quarantined) {
    exists k :: 0 <= k < |g.world.sys.hist| && g.world.sys.hist[k].generation == q.observedGeneration && PageDead(g.world.sys.hist[k], q.page)
  }

  function Apply(g: Shared, w: Swap): Shared { if g.record == w.expected then g.(record := Some(w.next)) else g }

  function Phase(g: Shared, i: nat, p: WorkerPhase): Shared { g.(workers := g.workers[i := p]) }

  /** Sending a swap: an invalid record is refused before it is sent. */
  function Send(g: Shared, i: nat, w: Swap, p: WorkerPhase): Shared {
    if ValidState(w.next) then Phase(g.(inflight := g.inflight + {w}), i, p) else Phase(g, i, Resting)
  }

  function AfterReply(g: Shared, i: nat): Shared
    requires i in g.workers
  {
    match g.workers[i]
    case AcquireWait(began, w) =>
      if g.record == w.expected then Phase(Apply(g, w), i, Holding(began, w.next, Some(w.next)))
      else Phase(g, i, Starting(began))
    case SaveWait(began, w) =>
      if g.record == w.expected then Phase(Apply(g, w), i, if w.next.owner == 0 then Resting else Holding(began, w.next, Some(w.next)))
      else Phase(g, i, if w.next.owner == 0 then Resting else Holding(began, w.next, w.expected))
    case _ => g
  }

  /** A swap reported as failed may have landed or may land later; a pass that was saving still tries to release. */
  function AfterLost(g: Shared, i: nat): Shared
    requires i in g.workers
  {
    match g.workers[i]
    case AcquireWait(_, _) => Phase(g, i, Resting)
    case SaveWait(began, w) => Phase(g, i, if w.next.owner == 0 then Resting else Holding(began, w.next, w.expected))
    case _ => g
  }

  ghost function Step(c: Config, lease: nat, delay: nat, g: Shared, m: Move): Shared {
    match m
    case Outside(a) => g.(world := Act(c, g.world, a))
    case Tick(ms) => g.(clock := g.clock + ms)
    case Begin(i) => if i > 0 && (i in g.workers ==> g.workers[i].Resting?) then Phase(g, i, Starting(g.clock)) else g
    case Fetch(i) => if i in g.workers && g.workers[i].Starting? then Phase(g, i, Loaded(g.workers[i].began, g.record)) else g
    case Acquire(i) =>
      if i in g.workers && g.workers[i].Loaded? then
        var s, began := Found(g.workers[i].found), g.workers[i].began;
        if s.owner != 0 && s.owner != i && s.leaseUntilMS > began then Phase(g, i, Resting)
        else
          var w := Swap(g.workers[i].found, s.(owner := i, leaseUntilMS := began + lease, updatedMS := began));
          Send(g, i, w, AcquireWait(began, w))
      else g
    case Observe(i) =>
      if i in g.workers && g.workers[i].Holding? then
        var h := P.Loaded(c, g.world.sys);
        var p := g.workers[i];
        Phase(g.(observations := g.observations + {Observation(h.oldestLSN, p.began, g.clock)}), i, p.(state := ObserveHead(p.state, h, p.began, delay)))
      else g
    case Work(i, t) =>
      if i in g.workers && g.workers[i].Holding? && Progress(g, g.workers[i].state, t) then Phase(g, i, g.workers[i].(state := t)) else g
    case Save(i) =>
      if i in g.workers && g.workers[i].Holding? then
        var p := g.workers[i];
        var w := Swap(p.token, p.state.(owner := i, leaseUntilMS := g.clock + lease, updatedMS := g.clock));
        Send(g, i, w, SaveWait(p.began, w))
      else g
    case Release(i) =>
      if i in g.workers && g.workers[i].Holding? then
        var p := g.workers[i];
        var w := Swap(p.token, p.state.(owner := 0, leaseUntilMS := 0, updatedMS := g.clock));
        Send(g, i, w, SaveWait(p.began, w))
      else g
    case Reply(i) => if i in g.workers then AfterReply(g, i) else g
    case Lost(i) => if i in g.workers then AfterLost(g, i) else g
    case Land(w) => if w in g.inflight then Apply(g, w) else g
    case Crash(i) => if i in g.workers then Phase(g, i, Resting) else g
    case SweepSegment(i, key) =>
      if i in g.workers && g.workers[i].Holding? && key.baseLSN < g.workers[i].state.safeFloor then
        g.(world := g.world.(liveSegments := g.world.liveSegments - {key}))
      else g
    case SweepPage(i, key) =>
      if i in g.workers && g.workers[i].Holding? && key.seqHi < g.workers[i].state.safeFloor then
        g.(world := g.world.(livePages := g.world.livePages - {key}))
      else g
  }

  ghost function Steps(c: Config, lease: nat, delay: nat, moves: seq<Move>): Shared {
    if moves == [] then Shared(Empty, None, {}, map[], 0, {})
    else Step(c, lease, delay, Steps(c, lease, delay, moves[..|moves|-1]), moves[|moves|-1])
  }

  // ---- Invariant ----

  /** Some durable head has its oldest LSN at or beyond the floor. */
  ghost predicate Durable(g: Shared, floor: nat) {
    floor == 0 || exists k :: 0 <= k < |g.world.sys.hist| && g.world.sys.hist[k].oldestLSN >= floor
  }

  ghost predicate Recorded(g: Shared, floor: nat, began: int) {
    exists o :: o in g.observations && o.floor == floor && o.began == began
  }

  /** A floor that was recorded at least the delay ago. */
  ghost predicate Waited(g: Shared, delay: nat, floor: nat) {
    floor == 0 || exists o :: o in g.observations && o.floor == floor && o.began + delay <= g.clock
  }

  ghost predicate GoodState(g: Shared, delay: nat, s: State) {
    && Floors(s) && Durable(g, s.safeFloor) && Waited(g, delay, s.safeFloor)
    && (s.hasPending ==> Durable(g, s.pendingFloor) && Recorded(g, s.pendingFloor, s.pendingSinceMS))
    && (forall q :: q in s.quarantine ==> FoundDead(g, q))
  }

  ghost predicate GoodWorker(g: Shared, delay: nat, p: WorkerPhase) {
    match p
    case Resting => true
    case Starting(began) => began <= g.clock
    case Loaded(began, found) => began <= g.clock && (found.Some? ==> GoodState(g, delay, found.value))
    case AcquireWait(began, w) => began <= g.clock && w in g.inflight
    case Holding(began, s, _) => began <= g.clock && GoodState(g, delay, s)
    case SaveWait(began, w) => began <= g.clock && w in g.inflight
  }

  ghost predicate GInv(c: Config, delay: nat, g: Shared) {
    && Kept(c, g.world)
    && (g.record.Some? ==> GoodState(g, delay, g.record.value) && ValidState(g.record.value))
    && (forall w :: w in g.inflight ==> GoodState(g, delay, w.next) && ValidState(w.next))
    && (forall i :: i in g.workers ==> GoodWorker(g, delay, g.workers[i]))
    && (forall o :: o in g.observations ==> o.began <= o.loaded <= g.clock)
  }

  ghost predicate Later(g: Shared, h: Shared) {
    g.world.sys.hist <= h.world.sys.hist && g.observations <= h.observations && g.clock <= h.clock && g.inflight <= h.inflight
  }

  lemma LaterState(g: Shared, h: Shared, delay: nat, s: State)
    requires Later(g, h) && GoodState(g, delay, s)
    ensures GoodState(h, delay, s)
  {
    hide PageDead;
    forall q | q in s.quarantine ensures FoundDead(h, q) { LaterDead(g, h, q); }
    LaterDurable(g, h, s.safeFloor);
    if s.hasPending { LaterDurable(g, h, s.pendingFloor); }
    if s.safeFloor > 0 { var o :| o in g.observations && o.floor == s.safeFloor && o.began + delay <= g.clock; assert o in h.observations; }
    if s.hasPending { var o :| o in g.observations && o.floor == s.pendingFloor && o.began == s.pendingSinceMS; assert o in h.observations; }
  }

  lemma LaterDead(g: Shared, h: Shared, q: Quarantined)
    requires Later(g, h) && FoundDead(g, q)
    ensures FoundDead(h, q)
  {
    hide PageDead;
    var k :| 0 <= k < |g.world.sys.hist| && g.world.sys.hist[k].generation == q.observedGeneration && PageDead(g.world.sys.hist[k], q.page);
    assert h.world.sys.hist[k] == g.world.sys.hist[k];
  }

  lemma LaterDurable(g: Shared, h: Shared, floor: nat)
    requires Later(g, h) && Durable(g, floor)
    ensures Durable(h, floor)
  {
    if floor > 0 {
      var k :| 0 <= k < |g.world.sys.hist| && g.world.sys.hist[k].oldestLSN >= floor;
      assert h.world.sys.hist[k] == g.world.sys.hist[k];
    }
  }

  /** Moving one worker, and adding swaps, observations or time, keeps the invariant when the additions are good. */
  lemma LaterInv(c: Config, delay: nat, g: Shared, h: Shared, i: nat)
    requires GInv(c, delay, g) && Later(g, h) && Kept(c, h.world)
    requires h.record.Some? ==> h.record == g.record || (GoodState(h, delay, h.record.value) && ValidState(h.record.value))
    requires forall w :: w in h.inflight && w !in g.inflight ==> GoodState(h, delay, w.next) && ValidState(w.next)
    requires forall j :: j in h.workers ==> j == i || (j in g.workers && h.workers[j] == g.workers[j])
    requires i in h.workers ==> GoodWorker(h, delay, h.workers[i])
    requires forall o :: o in h.observations && o !in g.observations ==> o.began <= o.loaded <= h.clock
    ensures GInv(c, delay, h)
  {
    hide GoodState, ValidState, Kept;
    if h.record.Some? && h.record == g.record { LaterState(g, h, delay, g.record.value); }
    forall w | w in h.inflight ensures GoodState(h, delay, w.next) && ValidState(w.next) {
      if w in g.inflight { LaterState(g, h, delay, w.next); }
    }
    forall j | j in h.workers ensures GoodWorker(h, delay, h.workers[j]) {
      if j != i { LaterWorker(g, h, delay, g.workers[j]); }
    }
  }

  lemma LaterWorker(g: Shared, h: Shared, delay: nat, p: WorkerPhase)
    requires Later(g, h) && GoodWorker(g, delay, p)
    ensures GoodWorker(h, delay, p)
  {
    hide GoodState;
    match p
    case Resting =>
    case Starting(_) =>
    case Loaded(_, found) => if found.Some? { LaterState(g, h, delay, found.value); }
    case AcquireWait(_, _) =>
    case Holding(_, s, _) => LaterState(g, h, delay, s);
    case SaveWait(_, _) =>
  }

  lemma SendInv(c: Config, delay: nat, g: Shared, i: nat, w: Swap, p: WorkerPhase)
    requires p.AcquireWait? || p.SaveWait?
    requires GInv(c, delay, g) && GoodState(g, delay, w.next) && p.began <= g.clock && (p == AcquireWait(p.began, w) || p == SaveWait(p.began, w))
    ensures GInv(c, delay, Send(g, i, w, p))
  {
    hide GoodState, ValidState, Kept;
    var h := Send(g, i, w, p);
    LaterState(g, h, delay, w.next);
    LaterInv(c, delay, g, h, i);
  }

  lemma PhaseInv(c: Config, delay: nat, g: Shared, i: nat, p: WorkerPhase)
    requires GInv(c, delay, g) && GoodWorker(g, delay, p)
    ensures GInv(c, delay, Phase(g, i, p))
  {
    hide GoodState, ValidState, Kept;
    LaterWorker(g, Phase(g, i, p), delay, p);
    LaterInv(c, delay, g, Phase(g, i, p), i);
  }

  lemma ApplyInv(c: Config, delay: nat, g: Shared, w: Swap)
    requires GInv(c, delay, g) && GoodState(g, delay, w.next) && ValidState(w.next)
    ensures GInv(c, delay, Apply(g, w))
  {
    hide GoodState, ValidState, Kept;
    var h := Apply(g, w);
    LaterState(g, h, delay, w.next);
    if 0 in h.workers { LaterWorker(g, h, delay, h.workers[0]); }
    LaterInv(c, delay, g, h, 0);
  }

  /** The same record under another owner, lease or time stamp. */
  lemma SameFloors(g: Shared, delay: nat, s: State, owner: nat, lease: int, updated: int)
    requires GoodState(g, delay, s)
    ensures GoodState(g, delay, s.(owner := owner, leaseUntilMS := lease, updatedMS := updated))
  {
    hide Durable, Waited, Recorded, FoundDead;
  }

  lemma AcquireInv(c: Config, lease: nat, delay: nat, g: Shared, i: nat)
    requires GInv(c, delay, g) && i in g.workers && g.workers[i].Loaded?
    ensures GInv(c, delay, Step(c, lease, delay, g, Acquire(i)))
  {
    hide GoodState, ValidState, Kept, Durable, Waited, Recorded;
    var p := g.workers[i];
    assert GoodWorker(g, delay, p);
    var s, began := Found(p.found), p.began;
    AbsentGood(g, delay);
    if s.owner != 0 && s.owner != i && s.leaseUntilMS > began {
      PhaseInv(c, delay, g, i, Resting);
    } else {
      SameFloors(g, delay, s, i, began + lease, began);
      var w := Swap(p.found, s.(owner := i, leaseUntilMS := began + lease, updatedMS := began));
      SendInv(c, delay, g, i, w, AcquireWait(began, w));
    }
  }

  lemma AbsentGood(g: Shared, delay: nat)
    ensures GoodState(g, delay, Absent)
  {
  }

  lemma ObserveInv(c: Config, lease: nat, delay: nat, g: Shared, i: nat)
    requires GInv(c, delay, g) && i in g.workers && g.workers[i].Holding?
    ensures GInv(c, delay, Step(c, lease, delay, g, Observe(i)))
  {
    hide ValidState, Kept, ObserveHead, GoodState;
    var p, h := g.workers[i], P.Loaded(c, g.world.sys);
    assert GoodWorker(g, delay, p);
    var o := Observation(h.oldestLSN, p.began, g.clock);
    var seen := g.(observations := g.observations + {o});
    var t := ObserveHead(p.state, h, p.began, delay);
    var next := Phase(seen, i, p.(state := t));
    ObservedGood(c, delay, g, p.state, h, p.began);
    LaterState(seen, next, delay, t);
    LaterInv(c, delay, g, next, i);
  }

  lemma ObservedGood(c: Config, delay: nat, g: Shared, s: State, h: Head, began: int)
    requires GoodState(g, delay, s) && Kept(c, g.world) && began <= g.clock && h == P.Loaded(c, g.world.sys)
    ensures GoodState(g.(observations := g.observations + {Observation(h.oldestLSN, began, g.clock)}), delay, ObserveHead(s, h, began, delay))
  {
    hide Kept, ObserveHead, P.Inv, FoundDead;
    var o := Observation(h.oldestLSN, began, g.clock);
    var seen := g.(observations := g.observations + {o});
    LaterState(g, seen, delay, s);
    ObserveKeeps(s, h, began, delay);
    var t := ObserveHead(s, h, began, delay);
    if t.hasPending && t.pendingFloor == h.oldestLSN { LoadedIsDurable(c, seen, h); }
    if t.hasPending && t.pendingSinceMS == began && t.pendingFloor == h.oldestLSN { assert o in seen.observations; }
    if t.safeFloor != s.safeFloor {
      var q :| q in seen.observations && q.floor == s.pendingFloor && q.began == s.pendingSinceMS;
      assert q.began + delay <= seen.clock;
    }
  }

  lemma LoadedIsDurable(c: Config, g: Shared, h: Head)
    requires Kept(c, g.world) && h == P.Loaded(c, g.world.sys)
    ensures Durable(g, h.oldestLSN)
  {
    hide P.Inv, Chain;
    P.InvTruthful(c, g.world.sys);
    if g.world.sys.cur.Some? {
      var n := |g.world.sys.hist| - 1;
      assert g.world.sys.hist[n] == h;
    }
  }

  lemma WorkGood(g: Shared, delay: nat, s: State, t: State)
    requires GoodState(g, delay, s) && Progress(g, s, t)
    ensures GoodState(g, delay, t)
  {
    hide Durable, Waited, Recorded, FoundDead;
  }

  lemma StoreInv(c: Config, lease: nat, delay: nat, g: Shared, i: nat)
    requires GInv(c, delay, g) && i in g.workers && g.workers[i].Holding?
    ensures GInv(c, delay, Step(c, lease, delay, g, Save(i))) && GInv(c, delay, Step(c, lease, delay, g, Release(i)))
  {
    hide GoodState, ValidState, Kept, Durable, Waited, Recorded;
    var p := g.workers[i];
    assert GoodWorker(g, delay, p);
    SameFloors(g, delay, p.state, i, g.clock + lease, g.clock);
    SameFloors(g, delay, p.state, 0, 0, g.clock);
    var w := Swap(p.token, p.state.(owner := i, leaseUntilMS := g.clock + lease, updatedMS := g.clock));
    SendInv(c, delay, g, i, w, SaveWait(p.began, w));
    var r := Swap(p.token, p.state.(owner := 0, leaseUntilMS := 0, updatedMS := g.clock));
    SendInv(c, delay, g, i, r, SaveWait(p.began, r));
  }

  lemma ReplyInv(c: Config, delay: nat, g: Shared, i: nat)
    requires GInv(c, delay, g) && i in g.workers
    ensures GInv(c, delay, AfterReply(g, i)) && GInv(c, delay, AfterLost(g, i))
  {
    hide GoodState, ValidState, Kept;
    var p := g.workers[i];
    assert GoodWorker(g, delay, p);
    PhaseInv(c, delay, g, i, Resting);
    if p.AcquireWait? || p.SaveWait? {
      var w := p.swap;
      ApplyInv(c, delay, g, w);
      var h := Apply(g, w);
      LaterState(g, h, delay, w.next);
      PhaseInv(c, delay, h, i, Holding(p.began, w.next, Some(w.next)));
      PhaseInv(c, delay, h, i, Resting);
      PhaseInv(c, delay, g, i, Starting(p.began));
      PhaseInv(c, delay, g, i, Holding(p.began, w.next, w.expected));
    }
  }

  /** A sweep below a worker's safe floor deletes only what some durable head has left behind. */
  lemma SweptSegment(c: Config, delay: nat, g: Shared, s: State, key: SegmentKey)
    requires GInv(c, delay, g) && GoodState(g, delay, s) && key.baseLSN < s.safeFloor
    ensures Kept(c, g.world.(liveSegments := g.world.liveSegments - {key}))
  {
    hide Kept, Waited, Recorded, Floors, FoundDead;
    var k: nat :| k < |g.world.sys.hist| && g.world.sys.hist[k].oldestLSN >= s.safeFloor;
    ActKept(c, g.world, DeleteSegment(key, k, s.safeFloor));
  }

  lemma SweptPage(c: Config, delay: nat, g: Shared, s: State, key: PageKey)
    requires GInv(c, delay, g) && GoodState(g, delay, s) && key.seqHi < s.safeFloor
    ensures Kept(c, g.world.(livePages := g.world.livePages - {key}))
  {
    hide Kept, Waited, Recorded, Floors, FoundDead;
    var k: nat :| k < |g.world.sys.hist| && g.world.sys.hist[k].oldestLSN >= s.safeFloor;
    ActKept(c, g.world, DeletePage(key, k));
  }

  lemma WorldInv(c: Config, delay: nat, g: Shared, w: World)
    requires GInv(c, delay, g) && Kept(c, w) && g.world.sys.hist <= w.sys.hist
    ensures GInv(c, delay, g.(world := w))
  {
    hide GoodState, ValidState, Kept;
    var h := g.(world := w);
    if 0 in h.workers { LaterWorker(g, h, delay, h.workers[0]); }
    LaterInv(c, delay, g, h, 0);
  }

  lemma StepInv(c: Config, lease: nat, delay: nat, g: Shared, m: Move)
    requires GInv(c, delay, g)
    ensures GInv(c, delay, Step(c, lease, delay, g, m))
  {
    hide GoodState, ValidState, Kept, Act, ObserveHead, AfterReply, AfterLost, Send, Progress;
    match m
    case Outside(a) => ActKept(c, g.world, a); WorldInv(c, delay, g, Act(c, g.world, a));
    case Tick(ms) =>
      var h := g.(clock := g.clock + ms);
      if 0 in h.workers { LaterWorker(g, h, delay, h.workers[0]); }
      LaterInv(c, delay, g, h, 0);
    case Begin(i) => PhaseInv(c, delay, g, i, Starting(g.clock));
    case Fetch(i) =>
      if i in g.workers && g.workers[i].Starting? {
        assert GoodWorker(g, delay, g.workers[i]);
        PhaseInv(c, delay, g, i, Loaded(g.workers[i].began, g.record));
      }
    case Acquire(i) => if i in g.workers && g.workers[i].Loaded? { AcquireInv(c, lease, delay, g, i); }
    case Observe(i) => if i in g.workers && g.workers[i].Holding? { ObserveInv(c, lease, delay, g, i); }
    case Work(i, t) =>
      if i in g.workers && g.workers[i].Holding? && Progress(g, g.workers[i].state, t) {
        assert GoodWorker(g, delay, g.workers[i]);
        WorkGood(g, delay, g.workers[i].state, t);
        PhaseInv(c, delay, g, i, g.workers[i].(state := t));
      }
    case Save(i) => if i in g.workers && g.workers[i].Holding? { StoreInv(c, lease, delay, g, i); }
    case Release(i) => if i in g.workers && g.workers[i].Holding? { StoreInv(c, lease, delay, g, i); }
    case Reply(i) => if i in g.workers { ReplyInv(c, delay, g, i); }
    case Lost(i) => if i in g.workers { ReplyInv(c, delay, g, i); }
    case Land(w) => if w in g.inflight { ApplyInv(c, delay, g, w); }
    case Crash(i) => PhaseInv(c, delay, g, i, Resting);
    case SweepSegment(i, key) =>
      if i in g.workers && g.workers[i].Holding? && key.baseLSN < g.workers[i].state.safeFloor {
        assert GoodWorker(g, delay, g.workers[i]);
        SweptSegment(c, delay, g, g.workers[i].state, key);
        WorldInv(c, delay, g, g.world.(liveSegments := g.world.liveSegments - {key}));
      }
    case SweepPage(i, key) =>
      if i in g.workers && g.workers[i].Holding? && key.seqHi < g.workers[i].state.safeFloor {
        assert GoodWorker(g, delay, g.workers[i]);
        SweptPage(c, delay, g, g.workers[i].state, key);
        WorldInv(c, delay, g, g.world.(livePages := g.world.livePages - {key}));
      }
  }

  lemma {:induction false} StepsInv(c: Config, lease: nat, delay: nat, moves: seq<Move>)
    requires ValidConfig(c)
    ensures GInv(c, delay, Steps(c, lease, delay, moves))
  {
    hide Step, Kept;
    if moves == [] {
      ActsKept(c, []);
    } else {
      StepsInv(c, lease, delay, moves[..|moves|-1]);
      StepInv(c, lease, delay, Steps(c, lease, delay, moves[..|moves|-1]), moves[|moves|-1]);
    }
  }

  // ---- What competing workers guarantee ----

  /** The oldest LSN of the durable head, or 0 while there is none. */
  function Oldest(g: Shared): nat { if g.world.sys.cur.Some? then g.world.sys.cur.value.oldestLSN else 0 }

  lemma DurableFloor(c: Config, g: Shared, floor: nat)
    requires Kept(c, g.world) && Durable(g, floor)
    ensures floor <= Oldest(g)
  {
    hide P.Inv, Chain;
    var s := g.world.sys;
    P.InvTruthful(c, s);
    if floor > 0 {
      var k :| 0 <= k < |s.hist| && s.hist[k].oldestLSN >= floor;
      ChainMonotone(c, s.hist, s.steps, k, |s.hist| - 1);
    }
  }

  /** In every run: both watermarks stay at or below the safe floor, which stays below the pending floor, which stays at
      or below the durable oldest LSN. And a floor is safe only once the clock is the delay past the start of the pass that
      recorded it. */
  lemma FloorsHold(c: Config, lease: nat, delay: nat, moves: seq<Move>)
    requires ValidConfig(c) && Steps(c, lease, delay, moves).record.Some?
    ensures var g := Steps(c, lease, delay, moves);
            var s := g.record.value;
            && s.segmentThrough <= s.safeFloor && s.pageThrough <= s.safeFloor && s.safeFloor <= Oldest(g)
            && (s.hasPending ==> s.safeFloor < s.pendingFloor <= Oldest(g))
            && (s.safeFloor > 0 ==> exists o :: o in g.observations && o.floor == s.safeFloor && o.began + delay <= g.clock)
            && (s.hasPending ==> exists o :: o in g.observations && o.floor == s.pendingFloor && o.began == s.pendingSinceMS <= o.loaded)
  {
    hide Step, Kept;
    StepsInv(c, lease, delay, moves);
    var g := Steps(c, lease, delay, moves);
    var s := g.record.value;
    DurableFloor(c, g, s.safeFloor);
    if s.hasPending { DurableFloor(c, g, s.pendingFloor); }
  }

  /** The floor a worker sweeps with is never above the durable oldest LSN either, whatever became of its lease: the look
      at the head before each delete never finds it below the floor. */
  lemma RecheckNeverFails(c: Config, lease: nat, delay: nat, moves: seq<Move>, i: nat)
    requires ValidConfig(c) && i in Steps(c, lease, delay, moves).workers && Steps(c, lease, delay, moves).workers[i].Holding?
    ensures var g := Steps(c, lease, delay, moves);
            g.workers[i].state.safeFloor <= Oldest(g) && g.workers[i].state.safeFloor <= P.Loaded(c, g.world.sys).oldestLSN
  {
    hide Step, Kept;
    StepsInv(c, lease, delay, moves);
    var g := Steps(c, lease, delay, moves);
    assert GoodWorker(g, delay, g.workers[i]);
    DurableFloor(c, g, g.workers[i].state.safeFloor);
  }

  /** If heads are loaded within some time of the start of their pass, the delay falls short of the load by at most that. */
  lemma DelayFromLoad(c: Config, lease: nat, delay: nat, moves: seq<Move>, within: nat)
    requires ValidConfig(c) && Steps(c, lease, delay, moves).record.Some?
    requires forall o :: o in Steps(c, lease, delay, moves).observations ==> o.loaded <= o.began + within
    ensures var g := Steps(c, lease, delay, moves);
            g.record.value.safeFloor > 0 ==> exists o :: o in g.observations && o.floor == g.record.value.safeFloor && o.loaded + delay <= g.clock + within
  {
    hide Step, Steps;
    FloorsHold(c, lease, delay, moves);
  }

  /** A page in quarantine, in the stored record, in a worker's hands or in a write on its way, is reachable from no head
      that is durable now: looking again never finds it reachable, nor a generation older than the one it was found in. */
  lemma QuarantineHolds(c: Config, lease: nat, delay: nat, moves: seq<Move>, s: State, q: Quarantined)
    requires ValidConfig(c) && Handled(Steps(c, lease, delay, moves), s) && q in s.quarantine
    ensures var cur := Steps(c, lease, delay, moves).world.sys.cur;
            cur.Some? && q.page !in Reach(cur.value) && q.observedGeneration <= cur.value.generation
  {
    hide Step, Kept, Reach, P.Inv, Chain, PageDead;
    StepsInv(c, lease, delay, moves);
    var g := Steps(c, lease, delay, moves);
    HandledGood(c, delay, g, s);
    var sys := g.world.sys;
    assert FoundDead(g, q);
    var k :| 0 <= k < |sys.hist| && sys.hist[k].generation == q.observedGeneration && PageDead(sys.hist[k], q.page);
    assert P.Inv(c, sys) by { KeptInv(c, g.world); }
    P.InvTruthful(c, sys);
    DeadPageStays(c, sys.hist, sys.steps, k, |sys.hist| - 1, q.page);
    ChainMonotone(c, sys.hist, sys.steps, k, |sys.hist| - 1);
  }

  /** The records there are: stored, read, held by a worker, or in a write that may still land. */
  ghost predicate Handled(g: Shared, s: State) {
    || g.record == Some(s)
    || (exists w :: w in g.inflight && w.next == s)
    || (exists i :: i in g.workers && ((g.workers[i].Holding? && g.workers[i].state == s) || (g.workers[i].Loaded? && g.workers[i].found == Some(s))))
  }

  lemma HandledGood(c: Config, delay: nat, g: Shared, s: State)
    requires GInv(c, delay, g) && Handled(g, s)
    ensures GoodState(g, delay, s)
  {
    hide GoodState, ValidState, Kept;
  }

  lemma KeptInv(c: Config, w: World)
    requires Kept(c, w)
    ensures P.Inv(c, w.sys)
  {
  }

  /** With any number of reclaimers sweeping and scrubbing at once, whatever the durable head refers to is stored. */
  lemma SweepsAreSafe(c: Config, lease: nat, delay: nat, moves: seq<Move>)
    requires ValidConfig(c) && Steps(c, lease, delay, moves).world.sys.cur.Some?
    ensures var w := Steps(c, lease, delay, moves).world;
            && Reach(w.sys.cur.value) <= w.livePages
            && forall e :: e in Flat(w.sys.cur.value) ==> SegmentKeyOf(e) in w.liveSegments
  {
    hide Step, Reach, Flat;
    StepsInv(c, lease, delay, moves);
    NothingReferencedIsDeleted(c, Steps(c, lease, delay, moves).world);
  }

  // ---- A delay that counts from the start of a pass ----

  lemma StepsNext(c: Config, lease: nat, delay: nat, moves: seq<Move>, m: Move)
    ensures Steps(c, lease, delay, moves + [m]) == Step(c, lease, delay, Steps(c, lease, delay, moves), m)
  {
    hide Step;
    assert (moves + [m])[..|moves|] == moves;
  }

  lemma NoPages(c: Config)
    ensures HeadPageLevel(Fresh(c, 5)) == 0
  {
    assert SectionRefs([]) == [];
  }

  /** Nothing but a log that starts at 5. */
  lemma LogAtFive(c: Config, lease: nat) returns (moves: seq<Move>)
    ensures var g := Steps(c, lease, 100, moves);
            g.record.None? && g.workers == map[] && g.clock == 0 && g.observations == {} && g.world.sys.cur == Some(Fresh(c, 5))
  {
    hide TreeStep;
    var a, b := Outside(Write(P.Initialize(5))), Outside(Write(P.Land(P.Create(5))));
    StepsNext(c, lease, 100, [], a);
    assert [] + [a] == [a];
    StepsNext(c, lease, 100, [a], b);
    moves := [a] + [b];
    assert Steps(c, lease, 100, []) == Shared(Empty, None, {}, map[], 0, {});
    var g := Steps(c, lease, 100, [a]);
    assert g.world.sys == P.Initial.(inflight := {P.Create(5)});
  }

  /** A worker takes the lease. */
  lemma TakeLease(c: Config, lease: nat, moves: seq<Move>) returns (more: seq<Move>)
    requires var g := Steps(c, lease, 100, moves); (1 in g.workers ==> g.workers[1].Resting?) && Found(g.record).owner == 0 && ValidState(Found(g.record))
    ensures var g, h := Steps(c, lease, 100, moves), Steps(c, lease, 100, more);
            var s := Found(g.record).(owner := 1, leaseUntilMS := g.clock + lease, updatedMS := g.clock);
            && h.record == Some(s) && 1 in h.workers && h.workers[1] == Holding(g.clock, s, Some(s))
            && h.clock == g.clock && h.observations == g.observations && h.world == g.world
  {
    hide ObserveHead, Steps, Act, Progress, AfterLost, ValidState;
    var g := Steps(c, lease, 100, moves);
    SameValid(Found(g.record), 1, g.clock + lease, g.clock);
    StepsNext(c, lease, 100, moves, Begin(1));
    StepsNext(c, lease, 100, moves + [Begin(1)], Fetch(1));
    StepsNext(c, lease, 100, moves + [Begin(1)] + [Fetch(1)], Acquire(1));
    StepsNext(c, lease, 100, moves + [Begin(1)] + [Fetch(1)] + [Acquire(1)], Reply(1));
    more := moves + [Begin(1)] + [Fetch(1)] + [Acquire(1)] + [Reply(1)];
  }

  lemma SameValid(s: State, owner: nat, lease: int, updated: int)
    requires ValidState(s)
    ensures ValidState(s.(owner := owner, leaseUntilMS := lease, updatedMS := updated))
  {
  }

  /** A worker observes the head and saves what it then holds. */
  lemma ObserveAndSave(c: Config, lease: nat, moves: seq<Move>) returns (more: seq<Move>)
    requires var g := Steps(c, lease, 100, moves);
             && 1 in g.workers && g.workers[1].Holding? && g.record.Some? && g.workers[1].token == g.record
             && ValidState(ObserveHead(g.workers[1].state, P.Loaded(c, g.world.sys), g.workers[1].began, 100))
    ensures var g, h := Steps(c, lease, 100, moves), Steps(c, lease, 100, more);
            var p, head := g.workers[1], P.Loaded(c, g.world.sys);
            var s := ObserveHead(p.state, head, p.began, 100).(owner := 1, leaseUntilMS := g.clock + lease, updatedMS := g.clock);
            && h.record == Some(s) && 1 in h.workers && h.workers[1] == Holding(p.began, s, Some(s))
            && h.clock == g.clock && h.observations == g.observations + {Observation(head.oldestLSN, p.began, g.clock)} && h.world == g.world
  {
    hide ObserveHead, Steps, Act, Progress, AfterLost, ValidState;
    var g := Steps(c, lease, 100, moves);
    SameValid(ObserveHead(g.workers[1].state, P.Loaded(c, g.world.sys), g.workers[1].began, 100), 1, g.clock + lease, g.clock);
    StepsNext(c, lease, 100, moves, Observe(1));
    StepsNext(c, lease, 100, moves + [Observe(1)], Save(1));
    StepsNext(c, lease, 100, moves + [Observe(1)] + [Save(1)], Reply(1));
    more := moves + [Observe(1)] + [Save(1)] + [Reply(1)];
  }

  /** The worker gives the lease back. */
  lemma GiveBack(c: Config, lease: nat, moves: seq<Move>) returns (more: seq<Move>)
    requires var g := Steps(c, lease, 100, moves);
             1 in g.workers && g.workers[1].Holding? && g.record.Some? && g.workers[1].token == g.record && ValidState(g.workers[1].state)
    ensures var g, h := Steps(c, lease, 100, moves), Steps(c, lease, 100, more);
            && h.record == Some(g.workers[1].state.(owner := 0, leaseUntilMS := 0, updatedMS := g.clock)) && 1 in h.workers && h.workers[1].Resting?
            && h.clock == g.clock && h.observations == g.observations && h.world == g.world
  {
    hide ObserveHead, Steps, Act, Progress, AfterLost, ValidState;
    var g := Steps(c, lease, 100, moves);
    SameValid(g.workers[1].state, 0, 0, g.clock);
    StepsNext(c, lease, 100, moves, Release(1));
    StepsNext(c, lease, 100, moves + [Release(1)], Reply(1));
    more := moves + [Release(1)] + [Reply(1)];
  }

  /** With a delay of 100 a floor becomes safe at the very instant its head was loaded: the first pass begins at 0 and
      loads the head at 100, the second begins at 100. */
  lemma ShortDelay(c: Config, lease: nat) returns (moves: seq<Move>)
    ensures var g := Steps(c, lease, 100, moves);
            && g.record.Some? && g.record.value.safeFloor == 5 && g.clock == 100
            && forall o :: o in g.observations && o.floor == 5 ==> o.loaded + 100 > g.clock
  {
    hide Step, Steps;
    moves := LogAtFive(c, lease);
    moves := TakeLease(c, lease, moves);
    StepsTick(c, lease, moves, 100);
    moves := moves + [Tick(100)];
    NoPages(c);
    moves := ObserveAndSave(c, lease, moves);
    moves := GiveBack(c, lease, moves);
    moves := TakeLease(c, lease, moves);
    moves := ObserveAndSave(c, lease, moves);
  }

  lemma StepsTick(c: Config, lease: nat, moves: seq<Move>, ms: nat)
    ensures Steps(c, lease, 100, moves + [Tick(ms)]) == Steps(c, lease, 100, moves).(clock := Steps(c, lease, 100, moves).clock + ms)
  {
    StepsNext(c, lease, 100, moves, Tick(ms));
  }
}
