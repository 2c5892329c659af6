/** The in-process catalog: one flat list of segments updated in place. It is the reference the tree refines. */
module CatalogMemory {
  import opened CatalogTypes
  import opened CatalogFlat
  import opened CatalogReader
  import Tree = CatalogTree
  import Retention = CatalogRetention
  import Listing = CatalogListing

  /** The public head of a partition with the writer that holds it and the retained segments. */
  datatype View = View(nextLSN: nat, oldestLSN: nat, retentionLSN: nat, retentionVersion: nat, writerEpoch: nat, writerID: nat,
                       segmentCount: nat, reachableCount: nat, last: Option<LeafEntry>, segments: seq<LeafEntry>)

  function FirstAtOrAfter(f: seq<LeafEntry>, lsn: nat): nat { LowerBound(LeafKeys(ByLSN, f), lsn) }

  predicate Unique(f: seq<LeafEntry>, e: LeafEntry) { forall i :: 0 <= i < |f| ==> f[i].uuid != e.uuid }

  function Acquired(v: View, writerID: nat): View { v.(writerEpoch := v.writerEpoch + 1, writerID := writerID) }

  /** A repeat of a segment already held at this position. */
  predicate IsRetry(v: View, expected: nat, e: LeafEntry) {
    && expected == e.baseLSN
    && var i := FirstAtOrAfter(v.segments, e.baseLSN); i < |v.segments| && v.segments[i] == e
  }

  function Appended(v: View, e: LeafEntry): View {
    v.(nextLSN := e.lastLSN + 1, oldestLSN := if v.last.None? then e.baseLSN else v.oldestLSN, last := Some(e),
       segmentCount := v.segmentCount + 1, reachableCount := v.reachableCount + 1, segments := v.segments + [e])
  }

  /** Whether an append is refused, repeats a held segment (false) or adds a new one (true). */
  function AppendCheck(v: View, writerID: nat, epoch: nat, expected: nat, e: LeafEntry, knownRetry: bool): Result<bool> {
    if epoch != e.writerEpoch then Err(InvalidRequest)
    else if expected != e.baseLSN then Err(Conflict)
    else if !ValidLeaf(e) then Err(InvalidRequest)
    else if e.writerTag != writerID then Err(InvalidRequest)
    else if IsRetry(v, expected, e) then Ok(false)
    else if knownRetry && e.baseLSN < v.oldestLSN then Err(CommitIndeterminate)
    else if v.writerEpoch == 0 || epoch != v.writerEpoch || writerID != v.writerID then Err(StaleWriter)
    else if expected != v.nextLSN then Err(Conflict)
    else if v.last.Some? && e.minTS < v.last.value.maxTS then Err(TimestampOrder)
    else if !Unique(v.segments, e) then Err(Conflict)
    else Ok(true)
  }

  function AppendResult(v: View, writerID: nat, epoch: nat, expected: nat, e: LeafEntry, knownRetry: bool): Result<View> {
    var isNew :- AppendCheck(v, writerID, epoch, expected, e, knownRetry);
    Ok(if isNew then Appended(v, e) else v)
  }

  /** A request that is in order of itself: a valid segment at the position, and of the writer and epoch, it names. */
  predicate InOrder(writerID: nat, epoch: nat, expected: nat, e: LeafEntry) {
    ValidLeaf(e) && e.writerEpoch == epoch && e.baseLSN == expected && e.writerTag == writerID
  }

  /** The writer that took the partition over last, in the epoch it was given. */
  predicate HoldsFence(v: View, writerID: nat, epoch: nat) { v.writerEpoch > 0 && epoch == v.writerEpoch && writerID == v.writerID }

  /** What may be added: a segment never held, of the writer that holds the fence, at the end of the log and not earlier in time. */
  predicate MayAppend(v: View, writerID: nat, epoch: nat, expected: nat, e: LeafEntry) {
    && HoldsFence(v, writerID, epoch) && expected == v.nextLSN && Unique(v.segments, e)
    && (v.last.Some? ==> v.last.value.maxTS <= e.minTS)
  }

  /** A held segment is found at its own position. */
  lemma HeldFound(f: seq<LeafEntry>, e: LeafEntry)
    requires Run(f)
    ensures e in f <==> var i := FirstAtOrAfter(f, e.baseLSN); i < |f| && f[i] == e
  {
    if e in f {
      var j :| 0 <= j < |f| && f[j] == e;
      var i := FirstAtOrAfter(f, e.baseLSN);
      assert LeafKeys(ByLSN, f)[j] == e.lastLSN;
      if i < j { RunOrder(f, i, j); }
    }
  }

  /** Exactly when an append adds, repeats or is fenced off. */
  lemma AppendDecided(v: View, writerID: nat, epoch: nat, expected: nat, e: LeafEntry, knownRetry: bool)
    requires Run(v.segments)
    ensures var forgotten := knownRetry && e.baseLSN < v.oldestLSN;
            var check := AppendCheck(v, writerID, epoch, expected, e, knownRetry);
            && (check == Ok(true) <==> InOrder(writerID, epoch, expected, e) && !forgotten && MayAppend(v, writerID, epoch, expected, e))
            && (check == Ok(false) <==> InOrder(writerID, epoch, expected, e) && e in v.segments)
            && (check == Err(StaleWriter) <==>
                  InOrder(writerID, epoch, expected, e) && e !in v.segments && !forgotten && !HoldsFence(v, writerID, epoch))
  {
    hide Run, ValidLeaf;
    HeldFound(v.segments, e);
  }

  /** The boundary a policy is applied at: never past the end of the log. */
  function ClampedTarget(v: View, before: nat): nat { if before > v.nextLSN then v.nextLSN else before }

  function Trimmed(v: View, before: nat, version: nat): View {
    var target := ClampedTarget(v, before);
    var start := FirstAtOrAfter(v.segments, target);
    var t :=
      if target > v.oldestLSN && v.segments != [] then
        if start == |v.segments| then v.(segments := [], oldestLSN := v.nextLSN)
        else v.(segments := v.segments[start..], oldestLSN := v.segments[start].baseLSN)
      else v;
    t.(retentionLSN := target, retentionVersion := version, reachableCount := |t.segments|)
  }

  /** The pending policy applied by the fenced writer; None means nothing new to apply. */
  function RetentionResult(v: View, writerID: nat, epoch: nat, before: nat, version: nat): Result<Option<View>> {
    if v.writerEpoch != epoch || v.writerID != writerID then Err(StaleWriter)
    else if version <= v.retentionVersion then Ok(None)
    else if before < v.retentionLSN then Err(RetentionRegression)
    else Ok(Some(Trimmed(v, before, version)))
  }

  class MemoryPartition {
    var nextLSN: nat
    var oldestLSN: nat
    var retentionLSN: nat
    var retentionVersion: nat
    var writerEpoch: nat
    var writerID: nat
    var segmentCount: nat
    var reachableCount: nat
    var last: Option<LeafEntry>
    var segments: seq<LeafEntry>
    var headVersion: nat

    constructor (nextLSN: nat)
      ensures State() == View(nextLSN, nextLSN, 0, 0, 0, 0, 0, 0, None, []) && headVersion == 1
    {
      this.nextLSN, oldestLSN, retentionLSN, retentionVersion := nextLSN, nextLSN, 0, 0;
      writerEpoch, writerID, segmentCount, reachableCount := 0, 0, 0, 0;
      last, segments, headVersion := None, [], 1;
    }

    function State(): View
      reads this
    {
      View(nextLSN, oldestLSN, retentionLSN, retentionVersion, writerEpoch, writerID, segmentCount, reachableCount, last, segments)
    }

    method AcquireWriter(writerID: nat) returns (res: Result<nat>)
      modifies this
      ensures writerID == 0 ==> res == Err(InvalidRequest) && unchanged(this)
      ensures writerID != 0 ==> State() == Acquired(old(State()), writerID) && res == Ok(writerEpoch) && headVersion == old(headVersion) + 1
    {
      if writerID == 0 {
        return Err(InvalidRequest);
      }
      writerEpoch := writerEpoch + 1;
      this.writerID := writerID;
      headVersion := headVersion + 1;
      return Ok(writerEpoch);
    }

    method EnsureUnique(e: LeafEntry) returns (unique: bool)
      ensures unique == Unique(segments, e)
    {
      for i := 0 to |segments|
        invariant Unique(segments[..i], e)
      {
        if segments[i].uuid == e.uuid {
          return false;
        }
      }
      assert segments[..|segments|] == segments;
      return true;
    }

    method CheckAppend(writerID: nat, epoch: nat, expected: nat, e: LeafEntry, knownRetry: bool) returns (res: Result<bool>)
      requires Run(segments)
      ensures res == AppendCheck(State(), writerID, epoch, expected, e, knownRetry)
    {
      hide ValidLeaf, Unique;
      if epoch != e.writerEpoch { return Err(InvalidRequest); }
      if expected != e.baseLSN { return Err(Conflict); }
      if !ValidLeaf(e) { return Err(InvalidRequest); }
      if e.writerTag != writerID { return Err(InvalidRequest); }
      LeafKeysAscend(ByLSN, segments);
      var i := Search(LeafKeys(ByLSN, segments), e.baseLSN);
      if i < |segments| && segments[i] == e { return Ok(false); }
      if knownRetry && e.baseLSN < oldestLSN { return Err(CommitIndeterminate); }
      if writerEpoch == 0 || epoch != writerEpoch || writerID != this.writerID { return Err(StaleWriter); }
      if expected != nextLSN { return Err(Conflict); }
      if last.Some? && e.minTS < last.value.maxTS { return Err(TimestampOrder); }
      var unique := EnsureUnique(e);
      if !unique { return Err(Conflict); }
      return Ok(true);
    }

    /** Changes the partition exactly as AppendResult says, and not at all when it refuses or repeats. */
    method AppendSegment(writerID: nat, epoch: nat, expected: nat, e: LeafEntry, knownRetry: bool) returns (res: Result<View>)
      requires Run(segments)
      modifies this
      ensures res == AppendResult(old(State()), writerID, epoch, expected, e, knownRetry)
      ensures if AppendCheck(old(State()), writerID, epoch, expected, e, knownRetry) == Ok(true)
              then State() == res.value && headVersion == old(headVersion) + 1
              else unchanged(this)
      ensures State() != old(State()) <==>
              && InOrder(writerID, epoch, expected, e) && MayAppend(old(State()), writerID, epoch, expected, e)
              && !(knownRetry && e.baseLSN < old(oldestLSN))
      ensures State() == old(State()) ==> (res.Ok? <==> InOrder(writerID, epoch, expected, e) && e in segments)
      ensures State() != old(State()) ==> res == Ok(State()) && segments == old(segments) + [e] && last == Some(e) && nextLSN == e.lastLSN + 1
      ensures res == Err(StaleWriter) <==>
              && InOrder(writerID, epoch, expected, e) && e !in old(segments) && !HoldsFence(old(State()), writerID, epoch)
              && !(knownRetry && e.baseLSN < old(oldestLSN))
    {
      hide AppendCheck, Run, Unique, ValidLeaf, MayAppend, InOrder, HoldsFence;
      AppendDecided(State(), writerID, epoch, expected, e, knownRetry);
      var isNew :- CheckAppend(writerID, epoch, expected, e, knownRetry);
      if !isNew {
        return Ok(State());
      }
      nextLSN := e.lastLSN + 1;
      if last.None? {
        oldestLSN := e.baseLSN;
      }
      last := Some(e);
      segmentCount := segmentCount + 1;
      reachableCount := reachableCount + 1;
      headVersion := headVersion + 1;
      segments := segments + [e];
      return Ok(State());
    }

    method ApplyPendingRetention(writerID: nat, epoch: nat, request: Option<(nat, nat)>) returns (res: Result<bool>)
      requires Run(segments)
      modifies this
      ensures request.None? ==> unchanged(this) && res == (if writerEpoch == epoch && this.writerID == writerID then Ok(false) else Err(StaleWriter))
      ensures request.Some? ==>
        match RetentionResult(old(State()), writerID, epoch, request.value.0, request.value.1)
        case Err(e) => res == Err(e) && unchanged(this)
        case Ok(None) => res == Ok(false) && unchanged(this)
        case Ok(Some(v)) => res == Ok(true) && State() == v && headVersion == old(headVersion) + 1
      ensures res == Err(StaleWriter) <==> old(writerEpoch) != epoch || old(this.writerID) != writerID
      ensures State() != old(State()) <==>
              && old(writerEpoch) == epoch && old(this.writerID) == writerID && request.Some?
              && request.value.1 > old(retentionVersion) && request.value.0 >= old(retentionLSN)
    {
      hide Run, LowerBound;
      if writerEpoch != epoch || this.writerID != writerID { return Err(StaleWriter); }
      if request.None? || request.value.1 <= retentionVersion { return Ok(false); }
      var (before, version) := request.value;
      if before < retentionLSN { return Err(RetentionRegression); }
      var target := before;
      if target > nextLSN { target := nextLSN; }
      if target > oldestLSN && |segments| > 0 {
        LeafKeysAscend(ByLSN, segments);
        var start := Search(LeafKeys(ByLSN, segments), target);
        if start == |segments| {
          segments := [];
          oldestLSN := nextLSN;
        } else {
          oldestLSN := segments[start].baseLSN;
          segments := segments[start..];
        }
      }
      retentionLSN, retentionVersion, reachableCount := target, version, |segments|;
      headVersion := headVersion + 1;
      return Ok(true);
    }

    method FindSegment(lsn: nat) returns (res: Option<LeafEntry>)
      requires Run(segments)
      ensures res == FindFlat(segments, lsn)
    {
      LeafKeysAscend(ByLSN, segments);
      KeepSuffix(ByLSN, segments, lsn);
      var i := Search(LeafKeys(ByLSN, segments), lsn);
      if i == |segments| || lsn < segments[i].baseLSN || lsn > segments[i].lastLSN {
        return None;
      }
      return Some(segments[i]);
    }

    method LookupTimestamp(ts: int) returns (res: Option<LeafEntry>)
      requires Run(segments)
      ensures res == TimeFlat(segments, ts)
    {
      LeafKeysAscend(ByTime, segments);
      KeepSuffix(ByTime, segments, ts);
      var i := Search(LeafKeys(ByTime, segments), ts);
      if i == |segments| {
        return None;
      }
      return Some(segments[i]);
    }

    method ListSegments(from: nat, limit: nat) returns (page: Listing.Listing<LeafEntry>)
      requires Run(segments) && 1 <= limit
      ensures page == Listing.Slice(Listing.SegmentSpan(), segments, from, limit)
    {
      hide Run, Listing.Slice, LowerBound;
      LeafKeysAscend(ByLSN, segments);
      var start := Search(LeafKeys(ByLSN, segments), from);
      SliceFrom(segments, from, limit);
      if start == |segments| {
        return Listing.Listing([], 0, false);
      }
      var end := start + limit;
      if end > |segments| {
        end := |segments|;
      }
      var more := end < |segments|;
      page := Listing.Listing(segments[start..end], if more then segments[end].baseLSN else 0, more);
    }
  }

  /** The slice as index arithmetic on the list. */
  lemma {:induction false} SliceFrom(f: seq<LeafEntry>, from: nat, limit: nat)
    requires limit >= 1
    ensures var start := FirstAtOrAfter(f, from);
            start <= |f| && Listing.Slice(Listing.SegmentSpan(), f, from, limit) ==
              if start + limit < |f| then Listing.Listing(f[start..start+limit], f[start+limit].baseLSN, true) else Listing.Listing(f[start..], 0, false)
  {
    hide Listing.FirstFrom, FirstAtOrAfter;
    SameStart(f, from);
    var start := Listing.FirstFrom(Listing.SegmentSpan(), f, from);
    var kept := f[start..];
    if limit < |kept| { assert kept[..limit] == f[start..start+limit] && kept[limit] == f[start+limit]; }
  }

  lemma {:induction false} SameStart(f: seq<LeafEntry>, from: nat)
    ensures Listing.FirstFrom(Listing.SegmentSpan(), f, from) == FirstAtOrAfter(f, from)
  {
    if f != [] {
      assert LeafKeys(ByLSN, f)[1..] == LeafKeys(ByLSN, f[1..]);
      SameStart(f[1..], from);
    }
  }

  // ---- The tree refines the list ----

  /** What a tree head means as a flat partition. */
  function Abs(h: Head): View {
    View(h.nextLSN, h.oldestLSN, h.retentionLSN, h.retentionVersion, h.writerEpoch, h.writerID,
         h.segmentCount, h.reachableCount, h.last, Flat(h))
  }

  /** A source that holds every page: what any successful read sees. */
  function WholeStore(): PageSource { (k: PageKey) => Some(k.id.page) }

  datatype Step = TakeoverStep(writerID: nat) | AppendStep(entry: LeafEntry) | RetainStep(before: nat, version: nat)

  /** One accepted mutation of a tree head, with the pages it writes. */
  function TreeStep(c: Config, h: Head, s: Step): Result<Mutation> {
    match s
    case TakeoverStep(writerID) => Tree.Takeover(c, h, writerID)
    case AppendStep(e) => Tree.Append(c, h, e)
    case RetainStep(before, version) => Retention.ApplyRetention(c, WholeStore(), h, before, version)
  }

  /** The same step on the list, taken by the writer that holds the fence. */
  function ListStep(v: View, s: Step): Result<View> {
    match s
    case TakeoverStep(writerID) => if writerID == 0 then Err(InvalidRequest) else Ok(Acquired(v, writerID))
    case AppendStep(e) => AppendResult(v, v.writerID, v.writerEpoch, v.nextLSN, e, false)
    case RetainStep(before, version) =>
      match RetentionResult(v, v.writerID, v.writerEpoch, before, version)
      case Err(e) => Err(e)
      case Ok(None) => Err(RetentionRegression)
      case Ok(Some(w)) => Ok(w)
  }

  /** An append that continues the log under the current fence. */
  predicate Fits(h: Head, e: LeafEntry) {
    && ValidLeaf(e) && e.writerEpoch == h.writerEpoch && e.writerTag == h.writerID && e.baseLSN == h.nextLSN
    && (h.last.Some? ==> h.last.value.maxTS <= e.minTS)
  }

  /** Where tree and list part: only the tree stops at exhausted counters and at the last LSN and takes a policy again that
      is already in force; only the list insists that segment IDs are new. */
  predicate Differs(h: Head, s: Step) {
    match s
    case TakeoverStep(w) => w != 0 && (h.generation >= MAX_U64 || h.writerEpoch >= MAX_U64)
    case AppendStep(e) => Fits(h, e) && (Unique(Flat(h), e) <==> h.generation >= MAX_U64 || e.lastLSN >= MAX_RECORD_LSN)
    case RetainStep(b, v) =>
      || (v == h.retentionVersion && b == h.retentionLSN && v != 0)
      || (v > h.retentionVersion && b >= h.retentionLSN && h.generation >= MAX_U64)
  }

  /** Both refuse the step, or both accept it and the new tree means the new list. */
  predicate Agrees(c: Config, h: Head, s: Step) {
    && (TreeStep(c, h, s).Ok? <==> ListStep(Abs(h), s).Ok?)
    && (TreeStep(c, h, s).Ok? ==> ListStep(Abs(h), s) == Ok(Abs(TreeStep(c, h, s).value.head)))
  }

  ghost predicate Sound(c: Config, h: Head) { Tree.WellFormed(c, h) && Tree.Spacious(c, h) }

  lemma {:induction false} WholeStoreHolds(r: IndexEntry)
    ensures Stored(WholeStore(), r)
    decreases r
  {
    if r.id.page.IndexPage? {
      forall i | 0 <= i < |r.id.page.refs| ensures Stored(WholeStore(), r.id.page.refs[i]) { WholeStoreHolds(r.id.page.refs[i]); }
    }
  }

  lemma WholeStoreHoldsHead(h: Head)
    ensures HeadStored(WholeStore(), h)
  {
    var rs := SectionRefs(h.sections);
    forall i | 0 <= i < |rs| ensures Stored(WholeStore(), rs[i]) { WholeStoreHolds(rs[i]); }
  }

  /** Nothing in a run reaches past its end, so an append at the end is never a repeat. */
  lemma NoRetryAtEnd(c: Config, h: Head, e: LeafEntry)
    requires Tree.WellFormed(c, h) && e.baseLSN == h.nextLSN
    ensures FirstAtOrAfter(Flat(h), h.nextLSN) == |Flat(h)|
  {
    hide Tree.SectionsGood, FlatRefs, SectionRefs;
    var f := Flat(h);
    LeafKeysAscend(ByLSN, f);
    if f != [] {
      assert LeafKeys(ByLSN, f)[|f|-1] < h.nextLSN;
    }
  }

  lemma TakeoverRefines(c: Config, h: Head, writerID: nat)
    requires Sound(c, h)
    ensures Agrees(c, h, TakeoverStep(writerID)) <==> !Differs(h, TakeoverStep(writerID))
  {
    hide Tree.SectionsGood, FlatRefs, SectionRefs, ValidHead;
    Tree.TakeoverWellFormed(c, h, writerID);
  }

  /** The list takes a segment that fits and whose ID is new. */
  lemma ListTakes(c: Config, h: Head, e: LeafEntry)
    requires Tree.WellFormed(c, h)
    ensures ListStep(Abs(h), AppendStep(e)).Ok? <==> Fits(h, e) && Unique(Flat(h), e)
    ensures Fits(h, e) && Unique(Flat(h), e) ==> ListStep(Abs(h), AppendStep(e)) == Ok(Appended(Abs(h), e))
  {
    hide Tree.WellFormed, Flat, Unique, FirstAtOrAfter;
    assert ValidLeaf(e) ==> e.writerEpoch > 0;
    if e.baseLSN == h.nextLSN {
      NoRetryAtEnd(c, h, e);
    }
  }

  /** The tree takes a segment that fits and leaves room, and then means the longer list. */
  lemma TreeTakes(c: Config, h: Head, e: LeafEntry)
    requires Sound(c, h)
    ensures TreeStep(c, h, AppendStep(e)).Ok? <==> Fits(h, e) && h.generation < MAX_U64 && e.lastLSN < MAX_RECORD_LSN
    ensures TreeStep(c, h, AppendStep(e)).Ok? ==> Abs(TreeStep(c, h, AppendStep(e)).value.head) == Appended(Abs(h), e)
  {
    hide Tree.Append, Tree.Spacious, Flat, Run, EpochsOrdered, EpochsAtMost, ValidLeaf, Tree.SectionsGood;
    Tree.AppendWellFormed(c, h, e);
  }

  lemma AppendRefines(c: Config, h: Head, e: LeafEntry)
    requires Sound(c, h)
    ensures Agrees(c, h, AppendStep(e)) <==> !Differs(h, AppendStep(e))
    ensures ListStep(Abs(h), AppendStep(e)).Ok? <==> Fits(h, e) && Unique(Flat(h), e)
    ensures TreeStep(c, h, AppendStep(e)).Ok? ==> Fits(h, e)
  {
    hide Tree.WellFormed, Tree.Spacious, Flat, Unique, Fits, TreeStep, ListStep, Abs, Appended;
    ListTakes(c, h, e);
    TreeTakes(c, h, e);
  }

  lemma RetainRefines(c: Config, h: Head, before: nat, version: nat)
    requires Sound(c, h)
    ensures Agrees(c, h, RetainStep(before, version)) <==> !Differs(h, RetainStep(before, version))
  {
    hide Tree.SectionsGood, FlatRefs, SectionRefs, ValidHead, Retention.ApplyRetention, Run, EpochsOrdered, EpochsAtMost, Keep, Tree.Weight;
    if version == h.retentionVersion && before == h.retentionLSN {
      Reapplied(c, h);
    } else {
      WholeStoreHoldsHead(h);
      Retention.ApplyRetentionRefines(c, WholeStore(), h, before, version);
      TrimmedIsKept(c, h, before, version);
    }
  }

  lemma Reapplied(c: Config, h: Head)
    requires Sound(c, h)
    ensures TreeStep(c, h, RetainStep(h.retentionLSN, h.retentionVersion)).Ok? <==> h.retentionVersion != 0
  {
    hide Tree.WellFormed, Tree.Spacious, ValidHead;
    if h.retentionVersion > 0 { Retention.ReapplyIsIdentity(c, WholeStore(), h); }
  }

  lemma TrimmedIsKept(c: Config, h: Head, before: nat, version: nat)
    requires Tree.WellFormed(c, h)
    ensures var kept := Keep(ByLSN, Flat(h), Retention.Target(h, before));
            Trimmed(Abs(h), before, version) ==
              Abs(h).(segments := kept, oldestLSN := if kept == [] then h.nextLSN else kept[0].baseLSN,
                      retentionLSN := Retention.Target(h, before), retentionVersion := version, reachableCount := |kept|)
  {
    hide Tree.SectionsGood, FlatRefs, SectionRefs, Keep, EpochsOrdered, EpochsAtMost;
    var target := Retention.Target(h, before);
    KeepSuffix(ByLSN, Flat(h), target);
    Retention.KeepExtremes(c, h, target);
  }

  /** One step: tree and list agree, in what they accept and in what it makes of them, exactly where Differs says. */
  lemma StepRefines(c: Config, h: Head, s: Step)
    requires Sound(c, h)
    ensures Agrees(c, h, s) <==> !Differs(h, s)
  {
    hide *;
    match s
    case TakeoverStep(w) => TakeoverRefines(c, h, w);
    case AppendStep(e) => AppendRefines(c, h, e);
    case RetainStep(b, v) => RetainRefines(c, h, b, v);
  }
}
