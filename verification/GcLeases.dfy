/** The lease in the shared state record: whose it is over any run of competing reclaimers. */
module GcLeases {
  import opened CatalogTypes
  import opened GcState
  import opened GcSafety
  import opened GcWorkers

  /** An owned record is leased for the full time from its last update. */
  predicate Leased(lease: nat, clock: int, s: State) {
    s.owner != 0 ==> s.leaseUntilMS == s.updatedMS + lease && s.updatedMS <= clock
  }

  /** A record that may be replaced by one of the next owner: nobody's, the owner's own, or one whose lease has run out. */
  predicate Free(found: Option<State>, next: State) {
    found.None? || found.value.owner == 0 || found.value.owner == next.owner || found.value.leaseUntilMS <= next.updatedMS
  }

  predicate Rightful(lease: nat, clock: int, w: Swap) {
    Leased(lease, clock, w.next) && (w.next.owner != 0 ==> Free(w.expected, w.next))
  }

  /** A worker holds, saves and releases only records that are its own. */
  predicate Own(i: nat, clock: int, p: WorkerPhase) {
    match p
    case Resting => true
    case Starting(began) => i > 0 && began <= clock
    case Loaded(began, _) => i > 0 && began <= clock
    case AcquireWait(began, w) => i > 0 && began <= clock && w.next.owner == i
    case Holding(_, _, token) => i > 0 && token.Some? && token.value.owner == i
    case SaveWait(_, w) => i > 0 && w.expected.Some? && w.expected.value.owner == i && (w.next.owner == 0 || w.next.owner == i)
  }

  ghost predicate LInv(lease: nat, g: Shared) {
    && (g.record.Some? ==> Leased(lease, g.clock, g.record.value))
    && (forall w :: w in g.inflight ==> Rightful(lease, g.clock, w))
    && (forall i :: i in g.workers ==> Own(i, g.clock, g.workers[i]) && (g.workers[i].AcquireWait? || g.workers[i].SaveWait? ==> g.workers[i].swap in g.inflight))
  }

  /** A move of worker i that sends at most good swaps and replaces the record by a good one. */
  lemma Moved(lease: nat, g: Shared, h: Shared, i: nat)
    requires LInv(lease, g) && g.clock <= h.clock && g.inflight <= h.inflight
    requires h.record == g.record || (h.record.Some? && Leased(lease, h.clock, h.record.value))
    requires forall w :: w in h.inflight && w !in g.inflight ==> Rightful(lease, h.clock, w)
    requires forall j :: j in h.workers && j != i ==> j in g.workers && h.workers[j] == g.workers[j]
    requires i in h.workers ==> Own(i, h.clock, h.workers[i]) && (h.workers[i].AcquireWait? || h.workers[i].SaveWait? ==> h.workers[i].swap in h.inflight)
    ensures LInv(lease, h)
  {
    forall w | w in h.inflight ensures Rightful(lease, h.clock, w) { if w in g.inflight { assert Rightful(lease, g.clock, w); } }
    forall j | j in h.workers && j != i ensures Own(j, h.clock, h.workers[j]) { assert Own(j, g.clock, g.workers[j]); }
  }

  lemma Idle(lease: nat, g: Shared, h: Shared)
    requires LInv(lease, g) && h == g.(world := h.world, clock := h.clock) && g.clock <= h.clock
    ensures LInv(lease, h)
  {
    if 0 in g.workers { assert Own(0, g.clock, g.workers[0]); }
    Moved(lease, g, h, 0);
  }

  lemma Applied(lease: nat, g: Shared, w: Swap)
    requires LInv(lease, g) && w in g.inflight
    ensures LInv(lease, Apply(g, w))
  {
    assert Rightful(lease, g.clock, w);
    if 0 in g.workers { assert Own(0, g.clock, g.workers[0]); }
    Moved(lease, g, Apply(g, w), 0);
  }

  lemma Sent(lease: nat, g: Shared, i: nat, w: Swap, p: WorkerPhase)
    requires LInv(lease, g) && Rightful(lease, g.clock, w) && Own(i, g.clock, p) && (p.AcquireWait? || p.SaveWait?) && p.swap == w
    ensures LInv(lease, Send(g, i, w, p))
  {
    hide ValidState, Rightful;
    Moved(lease, g, Send(g, i, w, p), i);
  }

  lemma Phased(lease: nat, g: Shared, i: nat, p: WorkerPhase)
    requires LInv(lease, g) && Own(i, g.clock, p) && !p.AcquireWait? && !p.SaveWait?
    ensures LInv(lease, Phase(g, i, p))
  {
    Moved(lease, g, Phase(g, i, p), i);
  }

  lemma OwnAt(lease: nat, g: Shared, i: nat)
    requires LInv(lease, g) && i in g.workers
    ensures Own(i, g.clock, g.workers[i])
  {
  }

  lemma Acquires(c: Config, lease: nat, delay: nat, g: Shared, i: nat)
    requires LInv(lease, g) && i in g.workers && g.workers[i].Loaded?
    ensures LInv(lease, Step(c, lease, delay, g, Acquire(i)))
  {
    hide LInv, ValidState, Send, Phase;
    OwnAt(lease, g, i);
    var p := g.workers[i];
    var s, began := Found(p.found), p.began;
    if s.owner != 0 && s.owner != i && s.leaseUntilMS > began {
      Phased(lease, g, i, Resting);
    } else {
      var w := Swap(p.found, s.(owner := i, leaseUntilMS := began + lease, updatedMS := began));
      Sent(lease, g, i, w, AcquireWait(began, w));
    }
  }

  lemma Saves(c: Config, lease: nat, delay: nat, g: Shared, i: nat)
    requires LInv(lease, g) && i in g.workers && g.workers[i].Holding?
    ensures LInv(lease, Step(c, lease, delay, g, Save(i)))
  {
    hide LInv, ValidState, Send;
    OwnAt(lease, g, i);
    var p := g.workers[i];
    var w := Swap(p.token, p.state.(owner := i, leaseUntilMS := g.clock + lease, updatedMS := g.clock));
    Sent(lease, g, i, w, SaveWait(p.began, w));
  }

  lemma Releases(c: Config, lease: nat, delay: nat, g: Shared, i: nat)
    requires LInv(lease, g) && i in g.workers && g.workers[i].Holding?
    ensures LInv(lease, Step(c, lease, delay, g, Release(i)))
  {
    hide LInv, ValidState, Send;
    OwnAt(lease, g, i);
    var p := g.workers[i];
    var w := Swap(p.token, p.state.(owner := 0, leaseUntilMS := 0, updatedMS := g.clock));
    Sent(lease, g, i, w, SaveWait(p.began, w));
  }

  lemma Replies(lease: nat, g: Shared, i: nat)
    requires LInv(lease, g) && i in g.workers
    ensures LInv(lease, AfterReply(g, i)) && LInv(lease, AfterLost(g, i))
  {
    assert Own(i, g.clock, g.workers[i]);
    if g.workers[i].AcquireWait? || g.workers[i].SaveWait? {
      var w := g.workers[i].swap;
      assert Rightful(lease, g.clock, w);
    }
    Moved(lease, g, AfterReply(g, i), i);
    Moved(lease, g, AfterLost(g, i), i);
  }

  lemma StepLeased(c: Config, lease: nat, delay: nat, g: Shared, m: Move)
    requires LInv(lease, g)
    ensures LInv(lease, Step(c, lease, delay, g, m))
  {
    hide LInv, ValidState, ObserveHead, Act, GcWorkers.Progress;
    var h := Step(c, lease, delay, g, m);
    match m
    case Outside(a) => Idle(lease, g, h);
    case Tick(ms) => Idle(lease, g, h);
    case SweepSegment(i, key) => Idle(lease, g, h);
    case SweepPage(i, key) => Idle(lease, g, h);
    case Acquire(i) => if i in g.workers && g.workers[i].Loaded? { Acquires(c, lease, delay, g, i); }
    case Save(i) => if i in g.workers && g.workers[i].Holding? { Saves(c, lease, delay, g, i); }
    case Release(i) => if i in g.workers && g.workers[i].Holding? { Releases(c, lease, delay, g, i); }
    case Reply(i) => if i in g.workers { Replies(lease, g, i); }
    case Lost(i) => if i in g.workers { Replies(lease, g, i); }
    case Land(w) => if w in g.inflight { Applied(lease, g, w); }
    case Begin(i) => Quiet(c, lease, delay, g, m, i);
    case Fetch(i) => Quiet(c, lease, delay, g, m, i);
    case Observe(i) => Quiet(c, lease, delay, g, m, i);
    case Work(i, _) => Quiet(c, lease, delay, g, m, i);
    case Crash(i) => Quiet(c, lease, delay, g, m, i);
  }

  lemma Quiet(c: Config, lease: nat, delay: nat, g: Shared, m: Move, i: nat)
    requires LInv(lease, g) && (m == Begin(i) || m == Fetch(i) || m == Observe(i) || (m.Work? && m.i == i) || m == Crash(i))
    ensures LInv(lease, Step(c, lease, delay, g, m))
  {
    hide LInv, ValidState, ObserveHead, GcWorkers.Progress;
    if i in g.workers { OwnAt(lease, g, i); }
    match m
    case Begin(_) => if i > 0 { Phased(lease, g, i, Starting(g.clock)); }
    case Fetch(_) => if i in g.workers && g.workers[i].Starting? { Phased(lease, g, i, Loaded(g.workers[i].began, g.record)); }
    case Observe(_) =>
      var h := Step(c, lease, delay, g, m);
      if i in g.workers && g.workers[i].Holding? {
        Phased(lease, g, i, h.workers[i]);
        Noted(lease, Phase(g, i, h.workers[i]), h);
      }
    case Work(_, t) => if i in g.workers && g.workers[i].Holding? { Phased(lease, g, i, g.workers[i].(state := t)); }
    case Crash(_) => Phased(lease, g, i, Resting);
  }

  lemma Noted(lease: nat, g: Shared, h: Shared)
    requires LInv(lease, g) && h == g.(observations := h.observations)
    ensures LInv(lease, h)
  {
  }

  /** Leases hold in every state any interleaving of workers, writers, losses and crashes can reach. */
  lemma {:induction false} RunLeased(c: Config, lease: nat, delay: nat, moves: seq<Move>)
    ensures LInv(lease, Steps(c, lease, delay, moves))
  {
    hide Step;
    if moves != [] {
      RunLeased(c, lease, delay, moves[..|moves|-1]);
      StepLeased(c, lease, delay, Steps(c, lease, delay, moves[..|moves|-1]), moves[|moves|-1]);
    }
  }

  /** A lease is exclusive: whatever happens next in any run, the record of an owner is replaced by that of another worker
      only once the full lease has passed since the owner's last update. */
  lemma LeaseExclusive(c: Config, lease: nat, delay: nat, moves: seq<Move>, m: Move)
    requires var r := Steps(c, lease, delay, moves).record; r.Some? && r.value.owner != 0
    ensures var g := Steps(c, lease, delay, moves);
            var h := Step(c, lease, delay, g, m);
            && h.record.Some?
            && (h.record.value.owner != 0 && h.record.value.owner != g.record.value.owner ==>
                  g.record.value.leaseUntilMS == g.record.value.updatedMS + lease <= g.clock)
  {
    hide ValidState, ObserveHead, Act, GcWorkers.Progress, Steps;
    RunLeased(c, lease, delay, moves);
    var g := Steps(c, lease, delay, moves);
    match m
    case Land(w) => if w in g.inflight { assert Rightful(lease, g.clock, w); }
    case Reply(i) =>
      if i in g.workers && (g.workers[i].AcquireWait? || g.workers[i].SaveWait?) { assert Rightful(lease, g.clock, g.workers[i].swap); }
    case _ =>
  }

  /** At most one worker can still save: of two that hold the record as it is in the store, one is the other. */
  lemma OneHolder(c: Config, lease: nat, delay: nat, moves: seq<Move>, i: nat, j: nat)
    requires var g := Steps(c, lease, delay, moves);
             && i in g.workers && j in g.workers && g.workers[i].Holding? && g.workers[j].Holding?
             && g.workers[i].token == g.record && g.workers[j].token == g.record
    ensures i == j
  {
    hide Steps;
    RunLeased(c, lease, delay, moves);
    var g := Steps(c, lease, delay, moves);
    assert Own(i, g.clock, g.workers[i]) && Own(j, g.clock, g.workers[j]);
  }
}
