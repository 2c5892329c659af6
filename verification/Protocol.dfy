/** Writer sessions sharing one head object through compare-and-swap. Every network interaction is a step
    of its own, so sessions interleave freely; a swap whose reply is lost stays in flight and may land at any time. */
module Protocol {
  import opened CatalogTypes
  import opened CatalogFlat
  import opened CatalogReader
  import opened CatalogMemory
  import opened CatalogHistory
  import opened CatalogReach
  import Tree = CatalogTree
  import Retention = CatalogRetention

  /** A conditional write. The token of a head is the head itself: heads never repeat, so a token
      identifies one content whether the provider derives it from versions or from bytes. */
  datatype Request = Create(nextLSN: nat) | Swap(expected: Option<Head>, base: Head, step: Step, fence: Fence)

  /** The right to write: a writer and the epoch its takeover began. A request carries the fence of the session that sent
      it, or the one its takeover claims; the store does not look at it. */
  datatype Fence = Fence(writerID: nat, epoch: nat)

  function FenceOf(h: Head): Fence { Fence(h.writerID, h.writerEpoch) }

  function Claimed(w: nat, base: Head): Fence { Fence(w, base.writerEpoch + 1) }

  /** A retention whose commit outcome is not yet known to its caller. */
  datatype Pending = Pending(previous: Head, step: Step, resolved: bool)

  datatype Call = AppendCall(entry: LeafEntry) | AcknowledgeCall | RetainCall(before: nat, version: nat)

  datatype Purpose = AppendJob | RetainJob(prior: Option<Pending>) | ResolveJob(call: Call)

  /** One commit: the head it was built from, the mutation, and what to do when it succeeds. */
  datatype Job = Job(previous: Head, step: Step, purpose: Purpose)

  /** Where a session stands between network interactions. */
  datatype Phase =
    | Idle
    | Opening(writer: nat, base: Head, token: Option<Head>)
    | OpenWait(writer: nat, base: Head, token: Option<Head>)
    | OpenLost(writer: nat, epoch: nat)
    | Resolving(call: Call)
    | Confirming(entry: LeafEntry)
    | Refreshing(before: nat, version: nat)
    | Putting(job: Job)
    | Committing(job: Job)
    | CommitWait(job: Job)
    | CommitLost(job: Job)

  /** owner is the writer the session is being or was opened for. */
  datatype Session = Session(owner: nat, open: bool, epoch: nat, writerID: nat, head: Head, stale: bool,
                             lastAppend: Option<LeafEntry>, pending: Option<Pending>, phase: Phase)

  /** The store and all sessions. hist and steps record every head that ever became durable and the mutation
      that made it, authors the fence each was made under; offered records the segments callers asked to append, acked and retained what they were told succeeded. */
  datatype System = System(cur: Option<Head>, hist: seq<Head>, steps: seq<Step>, authors: seq<Fence>, inflight: set<Request>, puts: set<PageKey>,
                           sessions: map<nat, Session>, offered: set<LeafEntry>, acked: set<LeafEntry>, retained: set<(nat, nat)>)

  const Initial: System := System(None, [], [], [], {}, {}, map[], {}, {}, {})

  // ---- The store ----

  function Proposed(c: Config, base: Head, step: Step): Mutation
    requires TreeStep(c, base, step).Ok?
  {
    TreeStep(c, base, step).value
  }

  /** A mutation worth committing: accepted, and not the no-op of a policy already applied. */
  predicate Proposes(c: Config, base: Head, step: Step) {
    TreeStep(c, base, step).Ok? && TreeStep(c, base, step).value.head.generation == base.generation + 1
  }

  /** The store processes a request: it takes effect only if the head is still the one expected. */
  function Landed(c: Config, s: System, r: Request): System {
    match r
    case Create(n) =>
      if s.cur.None? then s.(cur := Some(Fresh(c, n)), hist := [Fresh(c, n)], steps := [], authors := []) else s
    case Swap(expected, base, step, fence) =>
      if s.cur == expected && Proposes(c, base, step) then
        var next := Proposed(c, base, step).head;
        if expected.None? then s.(cur := Some(next), hist := [base, next], steps := [step], authors := [fence])
        else s.(cur := Some(next), hist := s.hist + [next], steps := s.steps + [step], authors := s.authors + [fence])
      else s
  }

  /** What a load returns: the head, or a fresh one with an empty token while there is no object. */
  function Loaded(c: Config, s: System): Head { if s.cur.None? then Fresh(c, 0) else s.cur.value }

  // ---- Session actions ----

  function Put(s: System, i: nat, x: Session): System { s.(sessions := s.sessions[i := x]) }

  function Observe(x: Session, h: Head): Session {
    x.(stale := x.stale || h.writerEpoch != x.epoch || h.writerID != x.writerID)
  }

  function Holder(x: Session): Fence { Fence(x.writerID, x.epoch) }

  function Opened(owner: nat, h: Head): Session { Session(owner, true, h.writerEpoch, h.writerID, h, false, None, None, Idle) }

  function Retained(h: Head, m: Head): bool { h.retentionVersion >= m.retentionVersion && h.oldestLSN >= m.oldestLSN }

  /** Whether an observed head shows that the mutation took effect. */
  function Applied(c: Config, o: Head, previous: Head, step: Step): bool
    requires TreeStep(c, previous, step).Ok?
  {
    if step.AppendStep? then FindSegment(c, WholeStore(), o, step.entry.baseLSN) == Ok(Some(step.entry))
    else Retained(o, Proposed(c, previous, step).head)
  }

  function Offer(s: System, call: Call): System { if call.AppendCall? then s.(offered := s.offered + {call.entry}) else s }

  function Ack(s: System, e: LeafEntry): System { s.(acked := s.acked + {e}) }

  function AckRetention(c: Config, s: System, previous: Head, step: Step): System {
    if TreeStep(c, previous, step).Ok? then
      var m := Proposed(c, previous, step).head;
      s.(retained := s.retained + {(m.retentionVersion, m.oldestLSN)})
    else s
  }

  /** The part of a call that follows once no retention is left unresolved. */
  function Proceed(c: Config, s: System, i: nat, x: Session, call: Call): System {
    match call
    case AppendCall(e) =>
      if x.head.last == Some(e) then Put(s, i, x.(phase := Confirming(e)))
      else if Proposes(c, x.head, AppendStep(e)) then Put(s, i, x.(phase := Putting(Job(x.head, AppendStep(e), AppendJob))))
      else Put(s, i, x.(phase := Idle))
    case AcknowledgeCall =>
      if x.pending.Some? then
        Put(AckRetention(c, s, x.pending.value.previous, x.pending.value.step), i, x.(pending := None, phase := Idle))
      else Put(s, i, x.(phase := Idle))
    case RetainCall(b, v) => Put(s, i, x.(phase := Refreshing(b, v)))
  }

  /** A call begins: a stale session only confirms its last append; an unresolved retention is resolved first. */
  function Start(c: Config, s: System, i: nat, x: Session, call: Call): System {
    if x.stale then
      if call.AppendCall? && x.lastAppend == Some(call.entry) && call.entry.baseLSN >= x.head.oldestLSN then Ack(s, call.entry) else s
    else if x.pending.Some? && !x.pending.value.resolved then Put(s, i, x.(phase := Resolving(call)))
    else Proceed(c, s, i, x, call)
  }

  function Succeed(c: Config, s: System, i: nat, x: Session, job: Job): System {
    match job.purpose
    case AppendJob =>
      if job.step.AppendStep? then Put(Ack(s, job.step.entry), i, x.(lastAppend := Some(job.step.entry), phase := Idle))
      else Put(s, i, x.(phase := Idle))
    case RetainJob(_) => Put(AckRetention(c, s, job.previous, job.step), i, x.(pending := None, phase := Idle))
    case ResolveJob(call) =>
      if x.stale || x.pending.None? then Put(s, i, x.(phase := Idle))
      else Proceed(c, s, i, x.(pending := Some(x.pending.value.(resolved := true))), call)
  }

  /** A commit looks at a head that is not its own: it succeeded, or failed for good, or may be retried. */
  function Judge(c: Config, s: System, i: nat, y: Session, job: Job, o: Head, readable: bool, mayRetry: bool): System {
    var x := Observe(y, o);
    if !readable || !TreeStep(c, job.previous, job.step).Ok? then Put(s, i, x.(phase := Idle))
    else if o == Proposed(c, job.previous, job.step).head || Applied(c, o, job.previous, job.step) then
      Succeed(c, s, i, x.(head := o), job)
    else if mayRetry && !x.stale && o == job.previous then Put(s, i, x.(phase := Committing(job)))
    else Put(s, i, x.(phase := Idle))
  }

  /** The loads a session waits for. */
  function AfterLoad(c: Config, s: System, i: nat, x: Session, readable: bool): System {
    var o := Loaded(c, s);
    match x.phase
    case OpenLost(w, epoch) =>
      if s.cur.Some? && o.writerID == w && o.writerEpoch == epoch then Put(s, i, Opened(x.owner, o)) else Put(s, i, x.(phase := Idle))
    case Resolving(call) =>
      var y := Observe(x, o).(head := o);
      if y.stale || y.pending.None? || !TreeStep(c, y.pending.value.previous, y.pending.value.step).Ok? then Put(s, i, y.(phase := Idle))
      else
        var p := y.pending.value;
        if Retained(o, Proposed(c, p.previous, p.step).head) then Proceed(c, s, i, y.(pending := Some(p.(resolved := true))), call)
        else if p.previous != o then Put(s, i, y.(phase := Idle))
        else Put(s, i, y.(phase := Committing(Job(p.previous, p.step, ResolveJob(call)))))
    case Confirming(e) =>
      var y := Observe(x, o).(head := o, phase := Idle);
      if e.baseLSN >= o.oldestLSN && readable && FindSegment(c, WholeStore(), o, e.baseLSN) == Ok(Some(e)) then Ack(Put(s, i, y), e)
      else Put(s, i, y)
    case Refreshing(b, v) =>
      var y := Observe(x, o).(head := o);
      if y.stale || !TreeStep(c, o, RetainStep(b, v)).Ok? then Put(s, i, y.(phase := Idle))
      else if Proposes(c, o, RetainStep(b, v)) then Put(s, i, y.(phase := Putting(Job(o, RetainStep(b, v), RetainJob(y.pending)))))
      else Put(AckRetention(c, s, o, RetainStep(b, v)), i, y.(pending := None, phase := Idle))
    case CommitLost(job) => Judge(c, s, i, x, job, o, readable, false)
    case _ => s
  }

  /** The page objects are stored before the head that refers to them; a retention is remembered before it is committed. */
  function AfterPut(c: Config, s: System, i: nat, x: Session): System {
    match x.phase
    case Putting(job) =>
      if !TreeStep(c, job.previous, job.step).Ok? then s
      else
        var pending := if job.purpose.RetainJob? then Some(Pending(job.previous, job.step, false)) else x.pending;
        Put(s, i, x.(pending := pending, phase := Committing(job)))
    case _ => s
  }

  function AfterIssue(c: Config, s: System, i: nat, x: Session): System {
    match x.phase
    case Opening(w, base, token) =>
      if Proposes(c, base, TakeoverStep(w)) then
        Put(s.(inflight := s.inflight + {Swap(token, base, TakeoverStep(w), Claimed(w, base))}), i, x.(phase := OpenWait(w, base, token)))
      else Put(s, i, x.(phase := Idle))
    case Committing(job) =>
      Put(s.(inflight := s.inflight + {Swap(Some(job.previous), job.previous, job.step, Holder(x))}), i, x.(phase := CommitWait(job)))
    case _ => s
  }

  /** The store processes the session's request now and the reply arrives. */
  function AfterReply(c: Config, s: System, i: nat, x: Session, readable: bool): System {
    match x.phase
    case OpenWait(w, base, token) =>
      if !Proposes(c, base, TakeoverStep(w)) then s
      else
        var next := Proposed(c, base, TakeoverStep(w)).head;
        if s.cur == token then Put(Landed(c, s, Swap(token, base, TakeoverStep(w), Claimed(w, base))), i, Opened(x.owner, next))
        else if s.cur.None? then s
        else if s.cur.value == next then Put(s, i, Opened(x.owner, next))
        else Put(s, i, x.(phase := Opening(w, s.cur.value, s.cur)))
    case CommitWait(job) =>
      if !Proposes(c, job.previous, job.step) then s
      else if s.cur == Some(job.previous) then
        var t := Landed(c, s, Swap(Some(job.previous), job.previous, job.step, Holder(x)));
        Succeed(c, t, i, x.(head := Proposed(c, job.previous, job.step).head), job)
      else if s.cur.None? then s
      else Judge(c, s, i, x, job, s.cur.value, readable, true)
    case _ => s
  }

  /** The reply is lost: try again, or give up and look at the head. */
  function AfterLost(c: Config, s: System, i: nat, x: Session, again: bool): System {
    match x.phase
    case OpenWait(w, base, token) => Put(s, i, x.(phase := if again then Opening(w, base, token) else OpenLost(w, base.writerEpoch + 1)))
    case CommitWait(job) => Put(s, i, x.(phase := if again then Committing(job) else CommitLost(job)))
    case _ => s
  }

  /** Any error or cancellation ends the call; a retention known not to have committed is forgotten. */
  function AfterFail(s: System, i: nat, x: Session, keep: bool): System {
    var pending := match x.phase
      case Committing(Job(_, _, RetainJob(prior))) => if keep then x.pending else prior
      case CommitWait(Job(_, _, RetainJob(prior))) => if keep then x.pending else prior
      case CommitLost(Job(_, _, RetainJob(prior))) => if keep then x.pending else prior
      case _ => x.pending;
    Put(s, i, x.(pending := pending, phase := Idle))
  }

  datatype Event =
    | Initialize(nextLSN: nat)
    | Land(request: Request)
    | Open(i: nat, writer: nat)
    | Invoke(i: nat, call: Call)
    | Load(i: nat, readable: bool)
    | PutPage(i: nat, page: IndexEntry)
    | PutDone(i: nat)
    | Issue(i: nat)
    | Reply(i: nat, readable: bool)
    | Lost(i: nat, again: bool)
    | Fail(i: nat, keep: bool)

  function NewSession(c: Config, s: System, writer: nat): Session {
    Session(writer, false, 0, 0, Loaded(c, s), false, None, None, Opening(writer, Loaded(c, s), s.cur))
  }

  predicate AllPut(c: Config, s: System, x: Session) {
    x.phase.Putting? && TreeStep(c, x.phase.job.previous, x.phase.job.step).Ok? &&
    forall p :: p in TreeStep(c, x.phase.job.previous, x.phase.job.step).value.pages ==> KeyOf(p) in s.puts
  }

  /** One step of the system; an event that does not apply changes nothing. */
  function Next(c: Config, s: System, ev: Event): System {
    match ev
    case Initialize(n) => if n <= MAX_RECORD_LSN then s.(inflight := s.inflight + {Create(n)}) else s
    case Land(r) => if r in s.inflight then Landed(c, s, r) else s
    case Open(i, w) => if w != 0 && (i in s.sessions ==> s.sessions[i].phase == Idle) then Put(s, i, NewSession(c, s, w)) else s
    case Invoke(i, call) =>
      if i in s.sessions && s.sessions[i].open && s.sessions[i].phase == Idle then Start(c, Offer(s, call), i, s.sessions[i], call) else s
    case Load(i, readable) => if i in s.sessions then AfterLoad(c, s, i, s.sessions[i], readable) else s
    case PutPage(i, p) => if i in s.sessions && s.sessions[i].phase.Putting? then s.(puts := s.puts + {KeyOf(p)}) else s
    case PutDone(i) => if i in s.sessions && AllPut(c, s, s.sessions[i]) then AfterPut(c, s, i, s.sessions[i]) else s
    case Issue(i) => if i in s.sessions then AfterIssue(c, s, i, s.sessions[i]) else s
    case Reply(i, readable) => if i in s.sessions then AfterReply(c, s, i, s.sessions[i], readable) else s
    case Lost(i, again) => if i in s.sessions then AfterLost(c, s, i, s.sessions[i], again) else s
    case Fail(i, keep) => if i in s.sessions then AfterFail(s, i, s.sessions[i], keep) else s
  }

  function Run(c: Config, evs: seq<Event>): System {
    if evs == [] then Initial else Next(c, Run(c, evs[..|evs|-1]), evs[|evs|-1])
  }

  // ---- Invariant ----

  /** The head in the store is the last of one chain in which each head is exactly one mutation of its predecessor. */
  ghost predicate Durable(c: Config, s: System) {
    && ValidConfig(c)
    && (s.cur.None? <==> s.hist == [])
    && (s.cur.Some? ==> s.cur.value == s.hist[|s.hist|-1] && Chain(c, s.hist, s.steps) && Reach(s.cur.value) <= s.puts)
    && (s.cur.None? ==> s.steps == [])
    && |s.authors| == |s.steps|
  }

  ghost predicate PagesPut(c: Config, s: System, base: Head, step: Step)
    requires TreeStep(c, base, step).Ok?
  {
    Keys(Proposed(c, base, step).pages) <= s.puts
  }

  /** A head a session may build on: durable, or the fresh head of a store still empty. */
  ghost predicate Known(c: Config, s: System, base: Head, token: Option<Head>) {
    (token == Some(base) && base in s.hist) || (token == None && base == Fresh(c, 0))
  }

  ghost predicate StepOffered(s: System, step: Step) { step.AppendStep? ==> step.entry in s.offered }

  ghost predicate CallOffered(s: System, call: Call) { call.AppendCall? ==> call.entry in s.offered }

  ghost predicate GoodRequest(c: Config, s: System, r: Request) {
    match r
    case Create(n) => n <= MAX_RECORD_LSN
    case Swap(expected, base, step, fence) =>
      Known(c, s, base, expected) && Proposes(c, base, step) && PagesPut(c, s, base, step) && StepOffered(s, step)
  }

  ghost predicate GoodPending(c: Config, s: System, p: Option<Pending>) {
    p.Some? ==> p.value.previous in s.hist && p.value.step.RetainStep? && Proposes(c, p.value.previous, p.value.step)
                && PagesPut(c, s, p.value.previous, p.value.step)
                && (p.value.resolved ==> InForce(s, Proposed(c, p.value.previous, p.value.step).head))
  }

  /** A retention is in force once some durable head reflects it. */
  ghost predicate InForce(s: System, m: Head) {
    exists h :: h in s.hist && Retained(h, m)
  }

  ghost predicate GoodJob(c: Config, s: System, x: Session, job: Job) {
    && x.open && job.previous in s.hist && Proposes(c, job.previous, job.step) && StepOffered(s, job.step)
    && match job.purpose
       case AppendJob => job.step.AppendStep?
       case RetainJob(prior) => job.step.RetainStep? && GoodPending(c, s, prior)
       case ResolveJob(call) => CallOffered(s, call) && x.pending == Some(Pending(job.previous, job.step, false)) && GoodPending(c, s, x.pending)
  }

  ghost predicate GoodPhase(c: Config, s: System, x: Session) {
    match x.phase
    case Idle => true
    case Opening(w, base, token) => w != 0 && Known(c, s, base, token)
    case OpenWait(w, base, token) => w != 0 && Known(c, s, base, token)
    case OpenLost(w, _) => w != 0
    case Resolving(call) => CallOffered(s, call) && x.open && x.pending.Some? && !x.pending.value.resolved
    case Confirming(_) => x.open
    case Refreshing(_, _) => x.open
    case Putting(job) => GoodJob(c, s, x, job)
    case Committing(job) => GoodJob(c, s, x, job) && PagesPut(c, s, job.previous, job.step)
    case CommitWait(job) => GoodJob(c, s, x, job) && PagesPut(c, s, job.previous, job.step)
    case CommitLost(job) => GoodJob(c, s, x, job) && PagesPut(c, s, job.previous, job.step)
  }

  ghost predicate GoodSession(c: Config, s: System, x: Session) {
    && (x.open ==> x.head in s.hist)
    && (x.lastAppend.Some? ==> x.lastAppend.value in s.acked)
    && GoodPending(c, s, x.pending)
    && GoodPhase(c, s, x)
  }

  ghost predicate RetentionHeld(s: System, v: nat, oldest: nat) {
    exists h :: h in s.hist && h.retentionVersion >= v && h.oldestLSN >= oldest
  }

  /** What callers asked for and were told: only offered segments are appended, acknowledged segments were appended,
      acknowledged retentions are in force. */
  ghost predicate Truthful(s: System) {
    && (forall e :: AppendStep(e) in s.steps ==> e in s.offered)
    && (forall e :: e in s.acked ==> AppendStep(e) in s.steps)
    && (forall p :: p in s.retained ==> RetentionHeld(s, p.0, p.1))
  }

  ghost predicate Inv(c: Config, s: System) {
    && Durable(c, s) && Truthful(s)
    && (forall r :: r in s.inflight ==> GoodRequest(c, s, r))
    && (forall i :: i in s.sessions ==> GoodSession(c, s, s.sessions[i]))
  }

  /** Nothing recorded is ever forgotten. */
  ghost predicate Grows(s: System, t: System) {
    && (forall h :: h in s.hist ==> h in t.hist) && (forall x :: x in s.steps ==> x in t.steps)
    && s.inflight <= t.inflight && s.puts <= t.puts && s.offered <= t.offered && s.acked <= t.acked
    && s.retained <= t.retained
  }

  lemma GrowsSession(c: Config, s: System, t: System, x: Session)
    requires GoodSession(c, s, x) && Grows(s, t)
    ensures GoodSession(c, t, x)
  {
    hide TreeStep;
  }

  lemma GrowsAll(c: Config, s: System, t: System, i: nat)
    requires Inv(c, s) && Grows(s, t) && Durable(c, t) && Truthful(t)
    requires forall r :: r in t.inflight && r !in s.inflight ==> GoodRequest(c, t, r)
    requires forall k :: k in t.sessions ==> k == i || (k in s.sessions && t.sessions[k] == s.sessions[k])
    requires i in t.sessions ==> GoodSession(c, t, t.sessions[i])
    ensures Inv(c, t)
  {
    hide TreeStep, GoodSession, Durable, Truthful;
    forall k | k in t.sessions ensures GoodSession(c, t, t.sessions[k]) {
      if k != i { GrowsSession(c, s, t, s.sessions[k]); }
    }
    forall r | r in t.inflight ensures GoodRequest(c, t, r) {
      if r in s.inflight { assert GoodRequest(c, s, r); }
    }
  }

  // ---- Landing ----

  /** A request takes effect only on the very head it was built from, extending the chain by its own mutation. */
  lemma LandedGrows(c: Config, s: System, r: Request)
    requires Durable(c, s) && Truthful(s) && GoodRequest(c, s, r)
    ensures var t := Landed(c, s, r);
            && Durable(c, t) && Truthful(t) && Grows(s, t)
            && t.inflight == s.inflight && t.puts == s.puts && t.sessions == s.sessions && t.offered == s.offered && t.acked == s.acked
            && t.retained == s.retained
            && (t.cur.Some? ==> t.cur.value in t.hist)
            && (r.Swap? && s.cur == r.expected ==> t.cur == Some(Proposed(c, r.base, r.step).head) && t.cur.value in t.hist)
  {
    hide TreeStep, Sound;
    match r
    case Create(n) =>
      if s.cur.None? { CreateLands(c, s, n); }
    case Swap(expected, base, step, fence) =>
      if s.cur == expected && expected.None? {
        FirstLands(c, s, base, step, fence);
      } else if s.cur == expected {
        SwapLands(c, s, base, step, fence);
      }
  }

  lemma CreateLands(c: Config, s: System, n: nat)
    requires Durable(c, s) && Truthful(s) && s.cur.None? && n <= MAX_RECORD_LSN
    ensures var t := Landed(c, s, Create(n)); Durable(c, t) && Truthful(t) && Grows(s, t)
  {
    hide TreeStep, Sound;
    FreshSound(c, n);
    NoneHeld(s);
    var t := Landed(c, s, Create(n));
    assert t.hist[0] == Fresh(c, n);
  }

  lemma NoneHeld(s: System)
    requires Truthful(s) && s.hist == [] && s.steps == []
    ensures s.acked == {} && s.retained == {}
  {
    assert forall v, o :: !RetentionHeld(s, v, o);
  }

  lemma FirstLands(c: Config, s: System, base: Head, step: Step, fence: Fence)
    requires Durable(c, s) && Truthful(s) && s.cur.None? && GoodRequest(c, s, Swap(None, base, step, fence))
    ensures var t := Landed(c, s, Swap(None, base, step, fence)); Durable(c, t) && Truthful(t) && Grows(s, t)
  {
    hide TreeStep, Sound, Reach;
    NoneHeld(s);
    FreshSound(c, 0);
    var next := Proposed(c, base, step).head;
    var one := [base];
    assert one[0] == Fresh(c, 0);
    assert Chain(c, one, []);
    assert Advances(c, base, step, next);
    ChainExtend(c, one, [], step, next);
    assert one + [next] == [base, next] && [] + [step] == [step];
    StepAdvances(c, base, step, next);
  }

  lemma SwapLands(c: Config, s: System, base: Head, step: Step, fence: Fence)
    requires Durable(c, s) && Truthful(s) && s.cur == Some(base) && GoodRequest(c, s, Swap(Some(base), base, step, fence))
    ensures var t := Landed(c, s, Swap(Some(base), base, step, fence)); Durable(c, t) && Truthful(t) && Grows(s, t)
  {
    hide TreeStep, Sound, Reach, Chain;
    var next := Proposed(c, base, step).head;
    var t := Landed(c, s, Swap(Some(base), base, step, fence));
    CurSound(c, s);
    assert Advances(c, base, step, next);
    ChainLength(c, s.hist, s.steps);
    ChainExtend(c, s.hist, s.steps, step, next);
    StepAdvances(c, base, step, next);
    TruthfulGrows(s, t);
  }

  lemma ChainLength(c: Config, hs: seq<Head>, steps: seq<Step>)
    requires Chain(c, hs, steps)
    ensures |hs| == |steps| + 1
  {
  }

  lemma CurSound(c: Config, s: System)
    requires Durable(c, s) && s.cur.Some?
    ensures Sound(c, s.cur.value)
  {
    hide Sound;
    ChainSound(c, s.hist, s.steps, |s.hist| - 1);
  }

  lemma KnownSound(c: Config, s: System, h: Head)
    requires Durable(c, s) && h in s.hist
    ensures Sound(c, h)
  {
    hide Sound;
    var k :| 0 <= k < |s.hist| && s.hist[k] == h;
    ChainSound(c, s.hist, s.steps, k);
  }

  lemma TruthfulGrows(s: System, t: System)
    requires Truthful(s) && Grows(s, t) && t.acked == s.acked && t.retained == s.retained
    requires forall e :: AppendStep(e) in t.steps ==> e in t.offered
    ensures Truthful(t)
  {
    forall p | p in t.retained ensures RetentionHeld(t, p.0, p.1) {
      assert RetentionHeld(s, p.0, p.1);
    }
  }

  // ---- Acknowledgements ----

  /** A segment seen in a durable head was appended by a step of the history. */
  lemma SeenWasAppended(c: Config, s: System, o: Head, e: LeafEntry)
    requires Durable(c, s) && o in s.hist && e in Flat(o)
    ensures AppendStep(e) in s.steps
  {
    hide TreeStep, Sound, Flat;
    var k :| 0 <= k < |s.hist| && s.hist[k] == o;
    ChainSegments(c, s.hist, s.steps, 0, k, e);
    var n: nat :| n <= MAX_RECORD_LSN && s.hist[0] == Fresh(c, n);
    FreshSound(c, n);
  }

  lemma FoundWasAppended(c: Config, s: System, o: Head, e: LeafEntry)
    requires Durable(c, s) && o in s.hist && FindSegment(c, WholeStore(), o, e.baseLSN) == Ok(Some(e))
    ensures AppendStep(e) in s.steps
  {
    hide TreeStep, Chain, FindSegment, Flat;
    KnownSound(c, s, o);
    FindSegmentRefines(c, WholeStore(), o, e.baseLSN);
    SoundRun(c, o);
    FindFlatMeaning(Flat(o), e.baseLSN);
    SeenWasAppended(c, s, o, e);
  }

  lemma SoundRun(c: Config, h: Head)
    requires Sound(c, h)
    ensures CatalogFlat.Run(Flat(h))
  {
  }

  /** A committed append is in the history. */
  lemma CommittedWasAppended(c: Config, s: System, previous: Head, e: LeafEntry)
    requires Durable(c, s) && previous in s.hist && Proposes(c, previous, AppendStep(e)) && Proposed(c, previous, AppendStep(e)).head in s.hist
    ensures AppendStep(e) in s.steps
  {
    hide TreeStep, Chain, Flat, Sound;
    KnownSound(c, s, previous);
    var next := Proposed(c, previous, AppendStep(e)).head;
    StepAdvances(c, previous, AppendStep(e), next);
    assert e in Flat(next) by { assert (Flat(previous) + [e])[|Flat(previous)|] == e; }
    SeenWasAppended(c, s, next, e);
  }

  /** Success of a commit, however it was learned, means the mutation or its effect is durable. */
  ghost predicate Proven(c: Config, s: System, job: Job, o: Head)
    requires TreeStep(c, job.previous, job.step).Ok?
  {
    o in s.hist && (o == Proposed(c, job.previous, job.step).head || Applied(c, o, job.previous, job.step))
  }

  lemma ProvenAppend(c: Config, s: System, x: Session, job: Job, o: Head)
    requires Durable(c, s) && GoodJob(c, s, x, job) && job.step.AppendStep? && Proven(c, s, job, o)
    ensures AppendStep(job.step.entry) in s.steps
  {
    hide TreeStep, Chain, FindSegment;
    if Applied(c, o, job.previous, job.step) {
      FoundWasAppended(c, s, o, job.step.entry);
    } else {
      CommittedWasAppended(c, s, job.previous, job.step.entry);
    }
  }

  lemma ProvenRetention(c: Config, s: System, previous: Head, step: Step)
    requires TreeStep(c, previous, step).Ok? && InForce(s, Proposed(c, previous, step).head) && Truthful(s)
    ensures Truthful(AckRetention(c, s, previous, step))
  {
    hide TreeStep, Chain;
    var m := Proposed(c, previous, step).head;
    var t := AckRetention(c, s, previous, step);
    var o :| o in s.hist && Retained(o, m);
    forall p | p in t.retained ensures RetentionHeld(t, p.0, p.1) {
      if p in s.retained { assert RetentionHeld(s, p.0, p.1); }
      else { assert o in t.hist; }
    }
  }

  // ---- Every step keeps the invariant ----

  /** Replacing one session, and telling its caller more, keeps the invariant when the new session is good. */
  lemma PutInv(c: Config, s: System, t: System, i: nat, x: Session)
    requires Inv(c, s) && Truthful(t) && GoodSession(c, t, x)
    requires s.acked <= t.acked && s.retained <= t.retained && t == s.(acked := t.acked, retained := t.retained)
    ensures Inv(c, Put(t, i, x))
  {
    hide TreeStep, GoodSession;
    var u := Put(t, i, x);
    DurableSame(c, s, u);
    TruthfulSame(t, u);
    GrowsSession(c, t, u, x);
    GrowsAll(c, s, u, i);
  }

  lemma DurableSame(c: Config, s: System, t: System)
    requires Durable(c, s) && t.cur == s.cur && t.hist == s.hist && t.steps == s.steps && t.authors == s.authors && t.puts >= s.puts
    ensures Durable(c, t)
  {
    hide Chain, Reach;
  }

  lemma TruthfulSame(s: System, t: System)
    requires Truthful(s) && t.hist == s.hist && t.steps == s.steps && t.offered >= s.offered && t.acked == s.acked && t.retained == s.retained
    ensures Truthful(t)
  {
    forall p | p in t.retained ensures RetentionHeld(t, p.0, p.1) { assert RetentionHeld(s, p.0, p.1); }
  }

  /** What is known of an open session apart from its phase. */
  ghost predicate Settled(c: Config, s: System, x: Session) {
    x.open && x.head in s.hist && (x.lastAppend.Some? ==> x.lastAppend.value in s.acked) && GoodPending(c, s, x.pending)
  }

  lemma AckInv(c: Config, s: System, i: nat, x: Session, e: LeafEntry)
    requires Inv(c, s) && AppendStep(e) in s.steps && GoodSession(c, Ack(s, e), x)
    ensures Inv(c, Put(Ack(s, e), i, x))
  {
    hide TreeStep, GoodSession, GoodRequest, Durable;
    assert Truthful(Ack(s, e)) by {
      forall p | p in s.retained ensures RetentionHeld(Ack(s, e), p.0, p.1) { assert RetentionHeld(s, p.0, p.1); }
    }
    PutInv(c, s, Ack(s, e), i, x);
  }

  lemma ProceedInv(c: Config, s: System, i: nat, x: Session, call: Call)
    requires Inv(c, s) && Settled(c, s, x) && (x.pending.Some? ==> x.pending.value.resolved) && CallOffered(s, call)
    ensures Inv(c, Proceed(c, s, i, x, call))
  {
    hide TreeStep, Inv, Truthful, Durable, GoodSession;
    InvTruthful(c, s);
    var p := x.pending;
    if call.AcknowledgeCall? && p.Some? {
      ProvenRetention(c, s, p.value.previous, p.value.step);
      SettledGood(c, AckRetention(c, s, p.value.previous, p.value.step), x.(pending := None, phase := Idle));
      PutInv(c, s, AckRetention(c, s, p.value.previous, p.value.step), i, x.(pending := None, phase := Idle));
    } else if call.AppendCall? && x.head.last != Some(call.entry) && Proposes(c, x.head, AppendStep(call.entry)) {
      AppendGood(c, s, x, call.entry);
      PutInv(c, s, s, i, x.(phase := Putting(Job(x.head, AppendStep(call.entry), AppendJob))));
    } else {
      var t := Proceed(c, s, i, x, call);
      SettledGood(c, s, t.sessions[i]);
      PutInv(c, s, s, i, t.sessions[i]);
    }
  }

  lemma SettledGood(c: Config, s: System, x: Session)
    requires Settled(c, s, x) && (x.phase.Idle? || x.phase.Confirming? || x.phase.Refreshing?)
    ensures GoodSession(c, s, x)
  {
    hide TreeStep;
  }

  lemma AppendGood(c: Config, s: System, x: Session, e: LeafEntry)
    requires Settled(c, s, x) && e in s.offered && Proposes(c, x.head, AppendStep(e))
    ensures GoodSession(c, s, x.(phase := Putting(Job(x.head, AppendStep(e), AppendJob))))
  {
    hide TreeStep;
  }

  lemma InvTruthful(c: Config, s: System)
    requires Inv(c, s)
    ensures Truthful(s) && Durable(c, s)
  {
  }

  lemma InvSession(c: Config, s: System, i: nat)
    requires Inv(c, s) && i in s.sessions
    ensures GoodSession(c, s, s.sessions[i])
  {
  }

  lemma StartInv(c: Config, s: System, i: nat, call: Call)
    requires Inv(c, s) && i in s.sessions && s.sessions[i].open && s.sessions[i].phase == Idle && CallOffered(s, call)
    ensures Inv(c, Start(c, s, i, s.sessions[i], call))
  {
    hide TreeStep, Inv;
    var x := s.sessions[i];
    InvSession(c, s, i);
    InvTruthful(c, s);
    if x.stale {
      if call.AppendCall? && x.lastAppend == Some(call.entry) && call.entry.baseLSN >= x.head.oldestLSN {
        assert Ack(s, call.entry) == s by { assert s.acked + {call.entry} == s.acked; }
      }
    } else if x.pending.Some? && !x.pending.value.resolved {
      PutInv(c, s, s, i, x.(phase := Resolving(call)));
    } else {
      ProceedInv(c, s, i, x, call);
    }
  }

  lemma SucceedInv(c: Config, s: System, i: nat, x: Session, job: Job)
    requires Inv(c, s) && Settled(c, s, x) && GoodJob(c, s, x, job) && Proven(c, s, job, x.head)
    ensures Inv(c, Succeed(c, s, i, x, job))
  {
    hide TreeStep, Inv, Truthful, Durable, Applied, Chain;
    InvTruthful(c, s);
    match job.purpose
    case AppendJob =>
      ProvenAppend(c, s, x, job, x.head);
      AckInv(c, s, i, x.(lastAppend := Some(job.step.entry), phase := Idle), job.step.entry);
    case RetainJob(_) =>
      ProvenInForce(c, s, x, job);
      ProvenRetention(c, s, job.previous, job.step);
      PutInv(c, s, AckRetention(c, s, job.previous, job.step), i, x.(pending := None, phase := Idle));
    case ResolveJob(call) =>
      ProvenInForce(c, s, x, job);
      if x.stale || x.pending.None? {
        PutInv(c, s, s, i, x.(phase := Idle));
      } else {
        ProceedInv(c, s, i, x.(pending := Some(x.pending.value.(resolved := true))), call);
      }
  }

  lemma ProvenInForce(c: Config, s: System, x: Session, job: Job)
    requires GoodJob(c, s, x, job) && job.step.RetainStep? && Proven(c, s, job, x.head)
    ensures InForce(s, Proposed(c, job.previous, job.step).head)
  {
    hide TreeStep;
  }

  lemma JudgeInv(c: Config, s: System, i: nat, y: Session, job: Job, o: Head, readable: bool, mayRetry: bool)
    requires Inv(c, s) && Settled(c, s, y) && GoodJob(c, s, y, job) && PagesPut(c, s, job.previous, job.step) && o in s.hist
    ensures Inv(c, Judge(c, s, i, y, job, o, readable, mayRetry))
  {
    hide TreeStep, Inv, Truthful, Durable, Applied, Chain, Succeed;
    var x := Observe(y, o);
    InvTruthful(c, s);
    if !readable {
      PutInv(c, s, s, i, x.(phase := Idle));
    } else if o == Proposed(c, job.previous, job.step).head || Applied(c, o, job.previous, job.step) {
      SucceedInv(c, s, i, x.(head := o), job);
    } else if mayRetry && !x.stale && o == job.previous {
      PutInv(c, s, s, i, x.(phase := Committing(job)));
    } else {
      PutInv(c, s, s, i, x.(phase := Idle));
    }
  }

  lemma OpenedGood(c: Config, s: System, owner: nat, h: Head)
    requires h in s.hist
    ensures GoodSession(c, s, Opened(owner, h))
  {
    hide TreeStep;
  }

  /** A session that is waiting on a loaded head has one: something is durable. */
  lemma LoadedDurable(c: Config, s: System)
    requires Durable(c, s) && s.hist != []
    ensures s.cur.Some? && Loaded(c, s) == s.cur.value && s.cur.value in s.hist
  {
    hide Chain, Reach;
  }

  lemma LoadResolvingInv(c: Config, s: System, i: nat, call: Call, readable: bool)
    requires Inv(c, s) && i in s.sessions && s.sessions[i].phase == Resolving(call)
    ensures Inv(c, AfterLoad(c, s, i, s.sessions[i], readable))
  {
    hide TreeStep, Inv, Truthful, Durable, Proceed;
    var x := s.sessions[i];
    InvTruthful(c, s);
    InvSession(c, s, i);
    LoadedDurable(c, s);
    var o := Loaded(c, s);
    var y := Observe(x, o).(head := o);
    if y.stale || y.pending.None? || !TreeStep(c, y.pending.value.previous, y.pending.value.step).Ok? {
      PutInv(c, s, s, i, y.(phase := Idle));
    } else {
      var p := y.pending.value;
      if Retained(o, Proposed(c, p.previous, p.step).head) {
        ProceedInv(c, s, i, y.(pending := Some(p.(resolved := true))), call);
      } else if p.previous != o {
        PutInv(c, s, s, i, y.(phase := Idle));
      } else {
        ResolveGood(c, s, y, call);
        PutInv(c, s, s, i, y.(phase := Committing(Job(p.previous, p.step, ResolveJob(call)))));
      }
    }
  }

  lemma ResolveGood(c: Config, s: System, y: Session, call: Call)
    requires Settled(c, s, y) && y.pending.Some? && !y.pending.value.resolved && CallOffered(s, call)
    ensures GoodSession(c, s, y.(phase := Committing(Job(y.pending.value.previous, y.pending.value.step, ResolveJob(call)))))
  {
    hide TreeStep;
  }

  lemma LoadConfirmingInv(c: Config, s: System, i: nat, e: LeafEntry, readable: bool)
    requires Inv(c, s) && i in s.sessions && s.sessions[i].phase == Confirming(e)
    ensures Inv(c, AfterLoad(c, s, i, s.sessions[i], readable))
  {
    hide TreeStep, Inv, Truthful, Durable, FindSegment;
    var x := s.sessions[i];
    InvTruthful(c, s);
    InvSession(c, s, i);
    LoadedDurable(c, s);
    var o := Loaded(c, s);
    var y := Observe(x, o).(head := o, phase := Idle);
    if e.baseLSN >= o.oldestLSN && readable && FindSegment(c, WholeStore(), o, e.baseLSN) == Ok(Some(e)) {
      FoundWasAppended(c, s, o, e);
      AckInv(c, s, i, y, e);
      assert Ack(Put(s, i, y), e) == Put(Ack(s, e), i, y);
    } else {
      PutInv(c, s, s, i, y);
    }
  }

  lemma LoadRefreshingInv(c: Config, s: System, i: nat, b: nat, v: nat, readable: bool)
    requires Inv(c, s) && i in s.sessions && s.sessions[i].phase == Refreshing(b, v)
    ensures Inv(c, AfterLoad(c, s, i, s.sessions[i], readable))
  {
    hide TreeStep, Inv, Truthful, Durable;
    var x := s.sessions[i];
    InvTruthful(c, s);
    InvSession(c, s, i);
    LoadedDurable(c, s);
    var o := Loaded(c, s);
    var y := Observe(x, o).(head := o);
    if y.stale || !TreeStep(c, o, RetainStep(b, v)).Ok? {
      PutInv(c, s, s, i, y.(phase := Idle));
    } else if Proposes(c, o, RetainStep(b, v)) {
      PutInv(c, s, s, i, y.(phase := Putting(Job(o, RetainStep(b, v), RetainJob(y.pending)))));
    } else {
      AlreadyInForce(c, s, o, b, v);
      ProvenRetention(c, s, o, RetainStep(b, v));
      PutInv(c, s, AckRetention(c, s, o, RetainStep(b, v)), i, y.(pending := None, phase := Idle));
    }
  }

  /** A retention that would not make a new head is in force already. */
  lemma AlreadyInForce(c: Config, s: System, o: Head, b: nat, v: nat)
    requires Durable(c, s) && o in s.hist && TreeStep(c, o, RetainStep(b, v)).Ok? && !Proposes(c, o, RetainStep(b, v))
    ensures InForce(s, Proposed(c, o, RetainStep(b, v)).head)
  {
    hide TreeStep, Chain, Sound;
    var i :| 0 <= i < |s.hist| && s.hist[i] == o;
    ChainSound(c, s.hist, s.steps, i);
    NoNewHead(c, o, b, v);
    assert Retained(o, Proposed(c, o, RetainStep(b, v)).head);
  }

  lemma NoNewHead(c: Config, o: Head, b: nat, v: nat)
    requires Sound(c, o) && TreeStep(c, o, RetainStep(b, v)).Ok? && TreeStep(c, o, RetainStep(b, v)).value.head.generation != o.generation + 1
    ensures TreeStep(c, o, RetainStep(b, v)).value.head == o
  {
    hide Tree.WellFormed, Tree.Spacious, Retention.ApplyRetention;
    if v == o.retentionVersion && b == o.retentionLSN {
      SameGeneration(c, o, b, v);
    } else {
      Retention.ApplyRetentionRefines(c, WholeStore(), o, b, v);
    }
  }

  lemma LoadInv(c: Config, s: System, i: nat, readable: bool)
    requires Inv(c, s) && i in s.sessions
    ensures Inv(c, AfterLoad(c, s, i, s.sessions[i], readable))
  {
    hide TreeStep, Inv, Truthful, Durable, Judge;
    var x := s.sessions[i];
    match x.phase
    case OpenLost(w, epoch) =>
      InvTruthful(c, s);
      InvSession(c, s, i);
      if s.cur.Some? && Loaded(c, s).writerID == w && Loaded(c, s).writerEpoch == epoch {
        CurDurable(c, s);
        OpenedGood(c, s, x.owner, Loaded(c, s));
        PutInv(c, s, s, i, Opened(x.owner, Loaded(c, s)));
      } else {
        PutInv(c, s, s, i, x.(phase := Idle));
      }
    case Resolving(call) => LoadResolvingInv(c, s, i, call, readable);
    case Confirming(e) => LoadConfirmingInv(c, s, i, e, readable);
    case Refreshing(b, v) => LoadRefreshingInv(c, s, i, b, v, readable);
    case CommitLost(job) =>
      InvTruthful(c, s);
      InvSession(c, s, i);
      LoadedDurable(c, s);
      JudgeInv(c, s, i, x, job, Loaded(c, s), readable, false);
    case _ =>
  }

  lemma CurDurable(c: Config, s: System)
    requires Durable(c, s) && s.cur.Some?
    ensures s.cur.value in s.hist && Loaded(c, s) == s.cur.value
  {
    hide Chain, Reach;
  }

  lemma PutDoneInv(c: Config, s: System, i: nat)
    requires Inv(c, s) && i in s.sessions && AllPut(c, s, s.sessions[i])
    ensures Inv(c, AfterPut(c, s, i, s.sessions[i]))
  {
    hide TreeStep, Inv, Truthful, Durable;
    var x := s.sessions[i];
    InvTruthful(c, s);
    InvSession(c, s, i);
    PutDoneGood(c, s, x);
    PutInv(c, s, s, i, AfterPut(c, s, i, x).sessions[i]);
  }

  lemma PutDoneGood(c: Config, s: System, x: Session)
    requires GoodSession(c, s, x) && AllPut(c, s, x)
    ensures var job := x.phase.job;
            GoodSession(c, s, x.(pending := if job.purpose.RetainJob? then Some(Pending(job.previous, job.step, false)) else x.pending,
                                 phase := Committing(job)))
  {
    hide TreeStep;
    var job := x.phase.job;
    KeysWithin(Proposed(c, job.previous, job.step).pages, s.puts);
  }

  lemma KeysWithin(ps: seq<IndexEntry>, keys: set<PageKey>)
    requires forall p :: p in ps ==> KeyOf(p) in keys
    ensures Keys(ps) <= keys
  {
  }

  lemma IssueInv(c: Config, s: System, i: nat)
    requires Inv(c, s) && i in s.sessions
    ensures Inv(c, AfterIssue(c, s, i, s.sessions[i]))
  {
    hide TreeStep, Inv, Truthful, Durable;
    var x := s.sessions[i];
    InvTruthful(c, s);
    InvSession(c, s, i);
    match x.phase
    case Opening(w, base, token) =>
      if Proposes(c, base, TakeoverStep(w)) {
        TakeoverPages(c, base, w);
        IssuedInv(c, s, i, Swap(token, base, TakeoverStep(w), Claimed(w, base)), x.(phase := OpenWait(w, base, token)));
      } else {
        PutInv(c, s, s, i, x.(phase := Idle));
      }
    case Committing(job) =>
      IssuedInv(c, s, i, Swap(Some(job.previous), job.previous, job.step, Holder(x)), x.(phase := CommitWait(job)));
    case _ =>
  }

  lemma TakeoverPages(c: Config, h: Head, w: nat)
    requires TreeStep(c, h, TakeoverStep(w)).Ok?
    ensures Keys(TreeStep(c, h, TakeoverStep(w)).value.pages) == {}
  {
  }

  lemma IssuedInv(c: Config, s: System, i: nat, r: Request, x: Session)
    requires Inv(c, s) && GoodRequest(c, s, r) && GoodSession(c, s, x)
    ensures Inv(c, Put(s.(inflight := s.inflight + {r}), i, x))
  {
    hide TreeStep, GoodSession, Proposes;
    var t := Put(s.(inflight := s.inflight + {r}), i, x);
    DurableSame(c, s, t);
    TruthfulSame(s, t);
    GrowsSession(c, s, t, x);
    GrowsAll(c, s, t, i);
  }

  lemma LandInv(c: Config, s: System, r: Request)
    requires Inv(c, s) && GoodRequest(c, s, r)
    ensures Inv(c, Landed(c, s, r)) && Grows(s, Landed(c, s, r))
  {
    hide TreeStep, GoodSession, Durable, Truthful, GoodRequest, Landed;
    LandedGrows(c, s, r);
    var t := Landed(c, s, r);
    if 0 in s.sessions { GrowsSession(c, s, t, s.sessions[0]); }
    GrowsAll(c, s, t, 0);
  }

  lemma ReplyOpenInv(c: Config, s: System, i: nat, w: nat, base: Head, token: Option<Head>, readable: bool)
    requires Inv(c, s) && i in s.sessions && s.sessions[i].phase == OpenWait(w, base, token)
    ensures Inv(c, AfterReply(c, s, i, s.sessions[i], readable))
  {
    hide TreeStep, Inv, Truthful, Durable, Landed;
    var x := s.sessions[i];
    InvTruthful(c, s);
    InvSession(c, s, i);
    if Proposes(c, base, TakeoverStep(w)) {
      var next := Proposed(c, base, TakeoverStep(w)).head;
      TakeoverPages(c, base, w);
      var r := Swap(token, base, TakeoverStep(w), Claimed(w, base));
      if s.cur == token {
        LandInv(c, s, r);
        LandedGrows(c, s, r);
        var t := Landed(c, s, r);
        OpenedGood(c, t, x.owner, next);
        InvTruthful(c, t);
        PutInv(c, t, t, i, Opened(x.owner, next));
      } else if s.cur.Some? {
        CurDurable(c, s);
        if s.cur.value == next {
          OpenedGood(c, s, x.owner, next);
          PutInv(c, s, s, i, Opened(x.owner, next));
        } else {
          PutInv(c, s, s, i, x.(phase := Opening(w, s.cur.value, s.cur)));
        }
      }
    }
  }

  lemma ReplyCommitInv(c: Config, s: System, i: nat, job: Job, readable: bool)
    requires Inv(c, s) && i in s.sessions && s.sessions[i].phase == CommitWait(job)
    ensures Inv(c, AfterReply(c, s, i, s.sessions[i], readable))
  {
    hide TreeStep, Inv, Truthful, Durable, Landed, Judge, Succeed;
    var x := s.sessions[i];
    InvTruthful(c, s);
    InvSession(c, s, i);
    if s.cur == Some(job.previous) {
      var r := Swap(Some(job.previous), job.previous, job.step, Holder(x));
      LandInv(c, s, r);
      LandedGrows(c, s, r);
      var t := Landed(c, s, r);
      GrowsSession(c, s, t, x);
      SucceedInv(c, t, i, x.(head := Proposed(c, job.previous, job.step).head), job);
    } else {
      LoadedDurable(c, s);
      JudgeInv(c, s, i, x, job, s.cur.value, readable, true);
    }
  }

  lemma LostInv(c: Config, s: System, i: nat, again: bool)
    requires Inv(c, s) && i in s.sessions
    ensures Inv(c, AfterLost(c, s, i, s.sessions[i], again))
  {
    hide TreeStep, Inv, Truthful, Durable;
    var x := s.sessions[i];
    InvTruthful(c, s);
    InvSession(c, s, i);
    if x.phase.OpenWait? || x.phase.CommitWait? {
      PutInv(c, s, s, i, AfterLost(c, s, i, x, again).sessions[i]);
    }
  }

  lemma FailInv(c: Config, s: System, i: nat, keep: bool)
    requires Inv(c, s) && i in s.sessions
    ensures Inv(c, AfterFail(s, i, s.sessions[i], keep))
  {
    hide TreeStep, Inv, Truthful, Durable;
    var x := s.sessions[i];
    InvTruthful(c, s);
    InvSession(c, s, i);
    PutInv(c, s, s, i, AfterFail(s, i, x, keep).sessions[i]);
  }

  lemma OpenInv(c: Config, s: System, i: nat, w: nat)
    requires Inv(c, s) && w != 0
    ensures Inv(c, Put(s, i, NewSession(c, s, w)))
  {
    hide TreeStep, Inv, Truthful, Durable;
    InvTruthful(c, s);
    if s.cur.Some? { CurDurable(c, s); }
    PutInv(c, s, s, i, NewSession(c, s, w));
  }

  lemma StoreInv(c: Config, s: System, t: System)
    requires Inv(c, s) && s.inflight <= t.inflight && s.puts <= t.puts && s.offered <= t.offered
    requires t == s.(inflight := t.inflight, puts := t.puts, offered := t.offered)
    requires forall r :: r in t.inflight && r !in s.inflight ==> GoodRequest(c, t, r)
    ensures Inv(c, t)
  {
    hide TreeStep, GoodSession, GoodRequest;
    DurableSame(c, s, t);
    TruthfulSame(s, t);
    if 0 in s.sessions { GrowsSession(c, s, t, s.sessions[0]); }
    GrowsAll(c, s, t, 0);
  }

  lemma NextInv(c: Config, s: System, ev: Event)
    requires Inv(c, s)
    ensures Inv(c, Next(c, s, ev))
  {
    hide TreeStep, Inv, Landed, Start, AfterLoad, AfterPut, AfterIssue, AfterReply, AfterLost, AfterFail, NewSession, AllPut;
    match ev
    case Initialize(n) => if n <= MAX_RECORD_LSN { StoreInv(c, s, s.(inflight := s.inflight + {Create(n)})); }
    case Land(r) => if r in s.inflight { InvRequest(c, s, r); LandInv(c, s, r); }
    case Open(i, w) => if w != 0 { OpenInv(c, s, i, w); }
    case Invoke(i, call) =>
      if i in s.sessions && s.sessions[i].open && s.sessions[i].phase == Idle {
        StoreInv(c, s, Offer(s, call));
        StartInv(c, Offer(s, call), i, call);
      }
    case Load(i, readable) => if i in s.sessions { LoadInv(c, s, i, readable); }
    case PutPage(i, p) => StoreInv(c, s, s.(puts := s.puts + {KeyOf(p)}));
    case PutDone(i) => if i in s.sessions && AllPut(c, s, s.sessions[i]) { PutDoneInv(c, s, i); }
    case Issue(i) => if i in s.sessions { IssueInv(c, s, i); }
    case Reply(i, readable) => if i in s.sessions { ReplyInv(c, s, i, readable); }
    case Lost(i, again) => if i in s.sessions { LostInv(c, s, i, again); }
    case Fail(i, keep) => if i in s.sessions { FailInv(c, s, i, keep); }
  }

  lemma InvRequest(c: Config, s: System, r: Request)
    requires Inv(c, s) && r in s.inflight
    ensures GoodRequest(c, s, r)
  {
  }

  lemma ReplyInv(c: Config, s: System, i: nat, readable: bool)
    requires Inv(c, s) && i in s.sessions
    ensures Inv(c, AfterReply(c, s, i, s.sessions[i], readable))
  {
    hide TreeStep, Inv, Landed, Judge, Succeed;
    match s.sessions[i].phase
    case OpenWait(w, base, token) => ReplyOpenInv(c, s, i, w, base, token, readable);
    case CommitWait(job) => ReplyCommitInv(c, s, i, job, readable);
    case _ =>
  }

  /** The invariant holds in every state any interleaving of events can reach. */
  lemma {:induction false} RunInv(c: Config, evs: seq<Event>)
    requires ValidConfig(c)
    ensures Inv(c, Run(c, evs))
  {
    hide Next;
    if evs != [] {
      RunInv(c, evs[..|evs|-1]);
      NextInv(c, Run(c, evs[..|evs|-1]), evs[|evs|-1]);
    }
  }
}
