/** Replaying a partition: batches read through a cached head, a segment hint and a catalog and store that move on meanwhile. */
module Cursor {
  import opened CatalogTypes
  import opened CatalogFlat
  import opened CatalogMemory
  import opened CatalogHistory
  import Listing = CatalogListing
  import Segments = SegmentReader
  import opened RawBlock

  const CHECKPOINT_VERSION: nat := 1

  /** The partition's whole history of durable heads, and the records of each segment object. */
  datatype World = World(config: Config, heads: seq<Head>, steps: seq<Step>, content: LeafEntry -> seq<Record>)

  /** How one request to the catalog or the store turns out: answered as of some durable head, failed, or cancelled. */
  datatype Io = Served(at: nat) | Broken | Cut

  datatype Fault = Expired(requested: nat, oldest: nat, headNext: nat) | CorruptData | Unavailable | Cancelled | Invalid | Mismatch | Ahead

  datatype Got<T> = Got(value: T) | Lost(fault: Fault)

  /** A segment object holds one record for each LSN of its range. */
  ghost predicate Holds(e: LeafEntry, rs: seq<Record>) {
    e.baseLSN <= e.lastLSN && |rs| == e.lastLSN - e.baseLSN + 1 && forall k :: 0 <= k < |rs| ==> rs[k].lsn == e.baseLSN + k
  }

  /** A segment some durable head has had. */
  ghost predicate Known(w: World, e: LeafEntry) { exists i :: 0 <= i < |w.heads| && e in Flat(w.heads[i]) }

  ghost predicate Real(w: World, io: nat -> Io) {
    && Chain(w.config, w.heads, w.steps)
    && (forall e :: Known(w, e) ==> Holds(e, w.content(e)))
    && (forall t :: io(t).Served? ==> io(t).at < |w.heads|)
  }

  // ---- One log ----

  /** The record an LSN has in the log. */
  ghost predicate Recorded(w: World, r: Record) {
    exists e :: Known(w, e) && In(w, e, r)
  }

  ghost predicate In(w: World, e: LeafEntry, r: Record) {
    e.baseLSN <= r.lsn <= e.lastLSN && |w.content(e)| == e.lastLSN - e.baseLSN + 1 && r == w.content(e)[r.lsn - e.baseLSN]
  }

  lemma Disjoint(f: seq<LeafEntry>, a: LeafEntry, b: LeafEntry, lsn: nat)
    requires Run(f) && a in f && b in f && a.baseLSN <= lsn <= a.lastLSN && b.baseLSN <= lsn <= b.lastLSN
    ensures a == b
  {
    var i :| 0 <= i < |f| && f[i] == a;
    var j :| 0 <= j < |f| && f[j] == b;
    if i < j { RunOrder(f, i, j); } else if j < i { RunOrder(f, j, i); }
  }

  lemma OneSegment(w: World, i: nat, a: LeafEntry, j: nat, b: LeafEntry, lsn: nat)
    requires Chain(w.config, w.heads, w.steps) && i <= j < |w.heads| && a in Flat(w.heads[i]) && b in Flat(w.heads[j])
    requires a.baseLSN <= lsn <= a.lastLSN && b.baseLSN <= lsn <= b.lastLSN
    ensures a == b
  {
    hide Flat, Sound, Chain, Run;
    ChainSound(w.config, w.heads, w.steps, i);
    SoundSegment(w.config, w.heads[i], a);
    ChainSegments(w.config, w.heads, w.steps, i, j, b);
    Disjoint(Flat(w.heads[i]), a, b, lsn);
  }

  /** An LSN has one record, whichever durable heads its segment was found through. */
  lemma OneRecord(w: World, io: nat -> Io, r: Record, q: Record)
    requires Real(w, io) && Recorded(w, r) && Recorded(w, q) && r.lsn == q.lsn
    ensures r == q
  {
    hide Flat, Chain;
    var a :| Known(w, a) && In(w, a, r);
    var b :| Known(w, b) && In(w, b, q);
    var i :| 0 <= i < |w.heads| && a in Flat(w.heads[i]);
    var j :| 0 <= j < |w.heads| && b in Flat(w.heads[j]);
    if i <= j { OneSegment(w, i, a, j, b, r.lsn); } else { OneSegment(w, j, b, i, a, r.lsn); }
  }

  /** The log's records from an LSN on, without gap. */
  ghost predicate Stretch(w: World, start: nat, rs: seq<Record>) {
    forall k :: 0 <= k < |rs| ==> rs[k].lsn == start + k && Recorded(w, rs[k])
  }

  /** Any two readings of the same stretch are the same. */
  lemma OneStretch(w: World, io: nat -> Io, start: nat, a: seq<Record>, b: seq<Record>)
    requires Real(w, io) && Stretch(w, start, a) && Stretch(w, start, b) && |a| <= |b|
    ensures a == b[..|a|]
  {
    hide Real, Recorded;
    forall k | 0 <= k < |a| ensures a[k] == b[k] { OneRecord(w, io, a[k], b[k]); }
  }

  lemma StretchMore(w: World, start: nat, a: seq<Record>, b: seq<Record>)
    requires Stretch(w, start, a) && Stretch(w, start + |a|, b)
    ensures Stretch(w, start, a + b)
  {
    hide Recorded;
  }

  lemma PieceOf(w: World, e: LeafEntry, from: nat, n: nat)
    requires Known(w, e) && Holds(e, w.content(e)) && e.baseLSN <= from && from + n <= e.lastLSN + 1
    ensures Stretch(w, from, w.content(e)[from - e.baseLSN..from - e.baseLSN + n])
  {
    var rs := w.content(e)[from - e.baseLSN..from - e.baseLSN + n];
    forall k | 0 <= k < |rs| ensures rs[k].lsn == from + k && Recorded(w, rs[k]) {
      assert rs[k] == w.content(e)[from - e.baseLSN + k];
      assert In(w, e, rs[k]);
    }
  }

  // ---- Listing ----

  /** What the catalog answers when it lists segments from an LSN as of one of its heads. */
  function Listed(h: Head, from: nat): seq<LeafEntry> {
    Listing.Slice(Listing.SegmentSpan(), Flat(h), from, Listing.MAX_LIMIT).items
  }

  ghost predicate AllKnown(w: World, es: seq<LeafEntry>) { forall k :: 0 <= k < |es| ==> Known(w, es[k]) }

  lemma PageKnown(w: World, at: nat, from: nat)
    requires at < |w.heads|
    ensures AllKnown(w, Listed(w.heads[at], from))
  {
    hide Flat;
    var page, f := Listed(w.heads[at], from), Flat(w.heads[at]);
    var n := Listing.FirstFrom(Listing.SegmentSpan(), f, from);
    forall k | 0 <= k < |page| ensures Known(w, page[k]) { assert page[k] == f[n..][k] == f[n + k]; }
  }

  /** The segments start with the one that holds an LSN and follow each other without gap. */
  ghost predicate Joined(es: seq<LeafEntry>, lsn: nat) {
    && es != [] && es[0].baseLSN <= lsn <= es[0].lastLSN
    && forall i, j :: 0 <= i < j < |es| && j == i + 1 ==> es[j].baseLSN == es[i].lastLSN + 1 <= es[j].lastLSN
  }

  lemma RunJoined(f: seq<LeafEntry>, n: nat, m: nat, lsn: nat)
    requires Run(f) && n < m <= |f| && f[n].baseLSN <= lsn <= f[n].lastLSN
    ensures Joined(f[n..m], lsn)
  {
    var es := f[n..m];
    forall i, j | 0 <= i < j < |es| && j == i + 1 ensures es[j].baseLSN == es[i].lastLSN + 1 <= es[j].lastLSN {
      assert es[i] == f[n + i] && es[j] == f[n + j] && Follows(f[n + i], f[n + j]) && ValidLeaf(f[n + j]);
    }
  }

  lemma HeadTiles(c: Config, h: Head)
    requires Sound(c, h)
    ensures Run(Flat(h)) && h.oldestLSN <= h.nextLSN
    ensures h.oldestLSN < h.nextLSN ==> Flat(h) != [] && Flat(h)[0].baseLSN == h.oldestLSN && Flat(h)[|Flat(h)|-1].lastLSN + 1 == h.nextLSN
    ensures h.last.None? ==> h.oldestLSN == h.nextLSN
  {
    hide FlatRefs, SectionRefs, Run, EpochsOrdered, EpochsAtMost;
  }

  /** The page of a head that still has an LSN starts with its segment. */
  lemma PageJoined(w: World, at: nat, from: nat)
    requires Chain(w.config, w.heads, w.steps) && at < |w.heads| && w.heads[at].oldestLSN <= from < w.heads[at].nextLSN
    ensures Joined(Listed(w.heads[at], from), from)
  {
    hide Flat, Sound, Chain, Run;
    ChainSound(w.config, w.heads, w.steps, at);
    HeadTiles(w.config, w.heads[at]);
    var f, sp := Flat(w.heads[at]), Listing.SegmentSpan();
    var n := Listing.FirstFrom(sp, f, from);
    assert sp.hi(f[|f|-1]) >= from;
    if n > 0 { Neighbours(f, n, from); }
    var m := if |f| - n <= Listing.MAX_LIMIT then |f| else n + Listing.MAX_LIMIT;
    assert Listed(w.heads[at], from) == f[n..m];
    assert sp.hi(f[n]) >= from;
    RunJoined(f, n, m, from);
  }

  lemma Neighbours(f: seq<LeafEntry>, n: nat, from: nat)
    requires Run(f) && 0 < n < |f| && Listing.SegmentSpan().hi(f[n-1]) < from
    ensures f[n].baseLSN <= from
  {
    assert Follows(f[n-1], f[n]);
  }

  // ---- Reading ----

  /** How many records a read through a head returns when it returns at all. */
  function Want(head: Head, start: nat, limit: nat): nat {
    if start >= head.nextLSN then 0 else if head.nextLSN - start < limit then head.nextLSN - start else limit
  }

  datatype Outcome =
    | Read(head: Head, records: seq<Record>, hint: Option<LeafEntry>)
    | Refused(fault: Fault, hint: Option<LeafEntry>)

  /** A successful read: the records from the start on, exactly as many as asked for or as the head has, and a hint only for
      the segment that holds the next one. */
  ghost predicate Exact(w: World, start: nat, limit: nat, o: Outcome) {
    o.Read? ==>
      && o.head in w.heads && o.head.oldestLSN <= start
      && Stretch(w, start, o.records) && |o.records| == Want(o.head, start, limit)
      && HintFor(w, o.hint, start + |o.records|)
  }

  ghost predicate HintFor(w: World, hint: Option<LeafEntry>, lsn: nat) {
    hint.Some? ==> Known(w, hint.value) && hint.value.baseLSN <= lsn <= hint.value.lastLSN
  }

  /** From now on every request is answered, by heads that still have the start and at least everything the head had. */
  ghost predicate Healthy(w: World, io: nat -> Io, now: nat, head: Head, start: nat) {
    forall t :: now <= t ==> io(t).Served? && io(t).at < |w.heads| && w.heads[io(t).at].oldestLSN <= start && head.nextLSN <= w.heads[io(t).at].nextLSN
  }

  class Reader {
    const w: World
    const io: nat -> Io
    const maxBatch: nat
    var clock: nat
    var cached: Option<Head>

    ghost predicate Valid()
      reads this
    {
      Real(w, io) && maxBatch > 0 && (cached.Some? ==> cached.value in w.heads)
    }

    constructor (w: World, io: nat -> Io, maxBatch: nat)
      requires Real(w, io) && maxBatch > 0
      ensures Valid() && this.w == w && this.io == io && this.maxBatch == maxBatch && cached.None?
    {
      this.w, this.io, this.maxBatch, clock, cached := w, io, maxBatch, 0, None;
    }

    function NormalLimit(limit: nat): (r: nat)
      requires maxBatch > 0
      ensures r > 0
    {
      if limit == 0 || limit > maxBatch then maxBatch else limit
    }

    method Refresh() returns (r: Got<Head>)
      requires Valid()
      modifies this
      ensures Valid() && clock == old(clock) + 1
      ensures r.Got? <==> io(old(clock)).Served?
      ensures r.Got? ==> r.value in w.heads && r.value == w.heads[io(old(clock)).at] && cached == Some(r.value)
      ensures r.Lost? ==> cached == old(cached) && r.fault in {Unavailable, Cancelled}
    {
      hide Chain, Holds, Known;
      var x := io(clock);
      clock := clock + 1;
      if x.Broken? { return Lost(Unavailable); }
      if x.Cut? { return Lost(Cancelled); }
      cached := Some(w.heads[x.at]);
      return Got(w.heads[x.at]);
    }

    /** The cached head is dropped for another partition's. */
    method Evict()
      requires Valid()
      modifies this`cached
      ensures Valid() && cached.None?
    {
      hide Chain, Holds, Known;
      cached := None;
    }

    /** The cached head while the start is behind its tail; otherwise a fresh one. */
    method HeadForRead(start: nat) returns (r: Got<Head>)
      requires Valid()
      modifies this
      ensures Valid() && clock >= old(clock)
      ensures r.Got? ==> r.value in w.heads && cached == Some(r.value)
      ensures r.Lost? ==> cached == old(cached) && r.fault in {Unavailable, Cancelled}
      ensures old(cached).Some? && start < old(cached).value.nextLSN ==> r == Got(old(cached).value)
      ensures r.Got? ==> (io(old(clock)).Served? && r.value == w.heads[io(old(clock)).at] && clock == old(clock) + 1)
                         || (cached == old(cached) && start < r.value.nextLSN && clock == old(clock))
      ensures io(old(clock)).Served? ==> r.Got?
    {
      hide Chain, Holds, Known;
      if cached.None? || start >= cached.value.nextLSN {
        r := Refresh();
      } else {
        r := Got(cached.value);
      }
    }

    /** The records of a segment from an LSN on, below the head's end. */
    method ReadSegment(e: LeafEntry, from: nat, limit: nat, headNext: nat) returns (r: Got<seq<Record>>)
      requires Valid() && Known(w, e) && e.baseLSN <= from <= e.lastLSN && from < headNext && limit > 0
      modifies this`clock
      ensures Valid() && clock == old(clock) + 1 && (io(old(clock)).Served? ==> r.Got?)
      ensures r.Lost? ==> r.fault in {Unavailable, Cancelled}
      ensures r.Got? ==> Stretch(w, from, r.value) && |r.value| == Least(limit, e.lastLSN - from + 1, headNext - from)
    {
      hide Chain, Known;
      var x := io(clock);
      clock := clock + 1;
      if x.Broken? { return Lost(Unavailable); }
      if x.Cut? { return Lost(Cancelled); }
      var all := w.content(e);
      var got := Segments.Slice(all, Segments.Position(e.baseLSN, |all|, from), limit);
      SliceIs(e, all, from, limit);
      PieceRun(e, all, from, |got|);
      var n := Below(got, from, headNext);
      PieceOf(w, e, from, n);
      assert got[..n] == all[from - e.baseLSN..from - e.baseLSN + n];
      return Got(got[..n]);
    }

    /** Reads on through a page of segments until the batch is full, the head's end is reached or the page is used up. */
    method ReadPage(es: seq<LeafEntry>, head: Head, start: nat, limit: nat, before: seq<Record>)
      returns (r: Got<(seq<Record>, Option<LeafEntry>)>)
      requires Valid() && AllKnown(w, es) && Stretch(w, start, before) && |before| < Want(head, start, limit)
      modifies this`clock
      ensures Valid() && clock >= old(clock)
      ensures r.Lost? ==> r.fault in {Unavailable, Cancelled, CorruptData}
      ensures r.Got? ==>
                && Stretch(w, start, r.value.0) && |before| < |r.value.0| <= Want(head, start, limit)
                && HintFor(w, r.value.1, start + |r.value.0|) && (r.value.1.Some? ==> |r.value.0| == Want(head, start, limit))
      ensures Joined(es, start + |before|) && Healthy(w, io, old(clock), head, start) ==> r.Got?
    {
      hide Chain, Known, Recorded, Stretch, Real;
      var records := before;
      var i := 0;
      ghost var good := Joined(es, start + |before|);
      while i < |es|
        invariant 0 <= i <= |es| && clock >= old(clock) && Stretch(w, start, records) && |before| <= |records| < Want(head, start, limit)
        invariant good && i == 0 ==> |records| == |before|
        invariant good && i > 0 ==> |records| > |before| && start + |records| == es[i-1].lastLSN + 1
      {
        var e, next := es[i], start + |records|;
        if e.lastLSN >= next {
          if e.baseLSN > next { return Lost(CorruptData); }
          var got := ReadSegment(e, next, limit - |records|, head.nextLSN);
          if got.Lost? { return Lost(got.fault); }
          StretchMore(w, start, records, got.value);
          records := records + got.value;
          if |records| >= limit || start + |records| >= head.nextLSN {
            return Got((records, if start + |records| <= e.lastLSN then Some(e) else None));
          }
        }
        i := i + 1;
      }
      if |records| == |before| { return Lost(CorruptData); }
      return Got((records, None));
    }

    /** One attempt at a batch. A start below the head's oldest LSN is refused as expired; whatever the catalog and the store
        answer, success means the exact stretch of the log. */
    method ConsumeOnce(head: Head, start: nat, limit: nat, hint: Option<LeafEntry>) returns (o: Outcome)
      requires Valid() && head in w.heads && limit > 0 && (hint.Some? ==> Known(w, hint.value))
      modifies this`clock
      ensures Valid() && clock >= old(clock) && Exact(w, start, limit, o)
      ensures o.Read? ==> o.head == head
      ensures o.Refused? ==> o.hint.None?
      ensures o.Refused? && o.fault.Expired? <==> start < head.oldestLSN
      ensures o.Refused? && o.fault.Expired? ==> o.fault == Expired(start, head.oldestLSN, head.nextLSN)
      ensures start >= head.oldestLSN && Healthy(w, io, old(clock), head, start) ==> o.Read?
    {
      hide Chain, Known, Recorded, Stretch, Listed, Joined, Sound;
      if start < head.oldestLSN { return Refused(Expired(start, head.oldestLSN, head.nextLSN), None); }
      assert Stretch(w, start, []) by { NothingRead(w, start); }
      if head.last.None? {
        NothingYet(w, head);
        return Read(head, [], None);
      }
      if start >= head.nextLSN { return Read(head, [], None); }
      var records, near := [], hint;
      while |records| < Want(head, start, limit)
        invariant clock >= old(clock) && Stretch(w, start, records) && |records| <= Want(head, start, limit) && (near.Some? ==> Known(w, near.value))
        decreases Want(head, start, limit) - |records|
      {
        var next := start + |records|;
        var es: seq<LeafEntry>;
        if near.Some? && near.value.baseLSN <= next <= near.value.lastLSN {
          es := [near.value];
          assert Joined(es, next) by { OneJoined(near.value, next); }
        } else {
          var x := io(clock);
          clock := clock + 1;
          if x.Broken? { return Refused(Unavailable, None); }
          if x.Cut? { return Refused(Cancelled, None); }
          es := Listed(w.heads[x.at], next);
          PageKnown(w, x.at, next);
          if w.heads[x.at].oldestLSN <= next < w.heads[x.at].nextLSN { PageJoined(w, x.at, next); }
          if es == [] {
            EmptyNotJoined(next);
            return Refused(CorruptData, None);
          }
        }
        near := None;
        var got := ReadPage(es, head, start, limit, records);
        if got.Lost? { return Refused(got.fault, None); }
        records := got.value.0;
        if got.value.1.Some? { return Read(head, records, got.value.1); }
      }
      return Read(head, records, None);
    }

    /** A read for a cursor: after an anomaly the head is loaded afresh and the hint forgotten, once. */
    method ConsumeContinuous(head: Head, start: nat, limit: nat, hint: Option<LeafEntry>) returns (o: Outcome)
      requires Valid() && head in w.heads && limit > 0 && (hint.Some? ==> Known(w, hint.value))
      modifies this
      ensures Valid() && Exact(w, start, limit, o)
      ensures o.Refused? ==> o.hint == None || (o.hint == hint && o.fault == Cancelled)
      ensures start < head.oldestLSN ==> o == Refused(Expired(start, head.oldestLSN, head.nextLSN), None) && cached == old(cached)
      ensures o.Read? ==> o.head == head || cached == Some(o.head)
      ensures o.Refused? && o.fault.Expired? && start >= head.oldestLSN ==> cached.Some? && start < cached.value.oldestLSN
      ensures start >= head.oldestLSN && Healthy(w, io, old(clock), head, start) ==> o.Read?
    {
      hide Chain, Known, Stretch, Real;
      o := ConsumeOnce(head, start, limit, hint);
      if o.Read? || o.fault.Expired? { return; }
      if o.fault == Cancelled { return Refused(Cancelled, hint); }
      var again := Refresh();
      if again.Lost? { return Refused(again.fault, None); }
      if start < again.value.oldestLSN { return Refused(Expired(start, again.value.oldestLSN, again.value.nextLSN), None); }
      o := ConsumeOnce(again.value, start, limit, None);
    }
  }

  /** How many of consecutive records are below the head's end. */
  method Below(got: seq<Record>, from: nat, headNext: nat) returns (n: nat)
    requires from <= headNext && forall k :: 0 <= k < |got| ==> got[k].lsn == from + k
    ensures n == if |got| <= headNext - from then |got| else headNext - from
  {
    n := 0;
    while n < |got| && got[n].lsn < headNext
      invariant n <= |got| && n <= headNext - from
    {
      n := n + 1;
    }
  }

  lemma SliceIs(e: LeafEntry, all: seq<Record>, from: nat, limit: nat)
    requires Holds(e, all) && e.baseLSN <= from <= e.lastLSN && limit > 0
    ensures Segments.Position(e.baseLSN, |all|, from) == from - e.baseLSN
    ensures var n := if limit < e.lastLSN - from + 1 then limit else e.lastLSN - from + 1;
            Segments.Slice(all, from - e.baseLSN, limit) == all[from - e.baseLSN..from - e.baseLSN + n]
  {
    hide Holds;
    assert |all| == e.lastLSN - e.baseLSN + 1 by { HoldsCount(e, all); }
    assert all[from - e.baseLSN..] == all[from - e.baseLSN..|all|];
  }

  lemma HoldsCount(e: LeafEntry, all: seq<Record>)
    requires Holds(e, all)
    ensures |all| == e.lastLSN - e.baseLSN + 1
  {
  }

  lemma PieceRun(e: LeafEntry, all: seq<Record>, from: nat, n: nat)
    requires Holds(e, all) && e.baseLSN <= from && from + n <= e.lastLSN + 1
    ensures var piece := all[from - e.baseLSN..from - e.baseLSN + n]; forall k :: 0 <= k < |piece| ==> piece[k].lsn == from + k
  {
    var piece := all[from - e.baseLSN..from - e.baseLSN + n];
    forall k | 0 <= k < n ensures piece[k].lsn == from + k { assert piece[k] == all[from - e.baseLSN + k]; }
  }

  lemma NothingRead(w: World, start: nat)
    ensures Stretch(w, start, [])
  {
  }

  lemma OneJoined(e: LeafEntry, lsn: nat)
    requires e.baseLSN <= lsn <= e.lastLSN
    ensures Joined([e], lsn)
  {
  }

  lemma EmptyNotJoined(lsn: nat)
    ensures !Joined([], lsn)
  {
  }

  lemma NothingYet(w: World, h: Head)
    requires Chain(w.config, w.heads, w.steps) && h in w.heads && h.last.None?
    ensures h.oldestLSN == h.nextLSN
  {
    hide Sound, Chain;
    var i :| 0 <= i < |w.heads| && w.heads[i] == h;
    ChainSound(w.config, w.heads, w.steps, i);
    HeadTiles(w.config, h);
  }

  function Least(a: nat, b: nat, c: nat): nat { if a <= b && a <= c then a else if b <= c then b else c }

  // ---- The cursor ----

  datatype Checkpoint = Checkpoint(version: nat, stream: nat, partition: nat, nextLSN: nat)

  /** From now on every request is answered, by heads that still have the start and never lose the end, not even the cached one's. */
  ghost predicate Steady(w: World, io: nat -> Io, now: nat, cached: Option<Head>, start: nat) {
    && (cached.Some? ==> cached.value.oldestLSN <= start && Healthy(w, io, now, cached.value, start))
    && (forall t :: now <= t ==> io(t).Served? && io(t).at < |w.heads| && w.heads[io(t).at].oldestLSN <= start)
    && (forall t, u :: now <= t <= u && io(t).Served? && io(u).Served? && io(t).at < |w.heads| && io(u).at < |w.heads| ==>
                         w.heads[io(t).at].nextLSN <= w.heads[io(u).at].nextLSN)
  }

  lemma SteadyHealthy(w: World, io: nat -> Io, now: nat, cached: Option<Head>, start: nat)
    requires Steady(w, io, now, cached, start)
    ensures io(now).Served? && io(now).at < |w.heads| && w.heads[io(now).at].oldestLSN <= start && Healthy(w, io, now + 1, w.heads[io(now).at], start)
    ensures cached.Some? ==> cached.value.oldestLSN <= start && Healthy(w, io, now, cached.value, start)
  {
  }

  class Cursor {
    const reader: Reader
    const limit: nat
    var stream: Option<nat>
    var nextLSN: nat
    var hint: Option<LeafEntry>
    var closed: bool

    ghost predicate Valid()
      reads this, reader
    {
      reader.Valid() && (hint.Some? ==> Known(reader.w, hint.value)) && (stream.Some? ==> stream.value == reader.w.config.streamKey)
    }

    constructor (reader: Reader, start: nat, limit: nat, stream: Option<nat>)
      requires reader.Valid() && (stream.Some? ==> stream.value == reader.w.config.streamKey)
      ensures Valid() && this.reader == reader && nextLSN == start && this.limit == limit && !closed && this.stream == stream
    {
      this.reader, this.limit, nextLSN, hint, closed, this.stream := reader, limit, start, None, false, stream;
    }

    /** The next batch. It starts where the last one ended and is the exact stretch of the log up to the limit or the end of
        the head it was read through; otherwise there is an error and the position stays. A position below the oldest LSN of
        the head it is read through, cached or loaded afresh, is an expired one, hint or not. */
    method Next() returns (r: Got<(seq<Record>, Head)>)
      requires Valid()
      modifies this, reader
      ensures Valid() && closed == old(closed)
      ensures r.Got? ==>
                && r.value.1 in reader.w.heads && r.value.1.oldestLSN <= old(nextLSN)
                && Stretch(reader.w, old(nextLSN), r.value.0) && |r.value.0| == Want(r.value.1, old(nextLSN), reader.NormalLimit(limit))
                && nextLSN == old(nextLSN) + |r.value.0|
      ensures r.Lost? ==> nextLSN == old(nextLSN)
      ensures r.Lost? && r.fault.Expired? ==> reader.cached.Some? && nextLSN < reader.cached.value.oldestLSN
      ensures old(!closed && reader.cached.Some? && nextLSN < reader.cached.value.oldestLSN && nextLSN < reader.cached.value.nextLSN) ==>
                r.Lost? && r.fault.Expired?
      ensures old(!closed && Steady(reader.w, reader.io, reader.clock, reader.cached, nextLSN)) ==> r.Got?
    {
      hide Known, Real, Stretch, Steady, Healthy;
      if closed { return Lost(Invalid); }
      if Steady(reader.w, reader.io, reader.clock, reader.cached, nextLSN) {
        SteadyHealthy(reader.w, reader.io, reader.clock, reader.cached, nextLSN);
      }
      var head := reader.HeadForRead(nextLSN);
      if head.Lost? { return Lost(head.fault); }
      var o := reader.ConsumeContinuous(head.value, nextLSN, reader.NormalLimit(limit), hint);
      hint := o.hint;
      if o.Refused? { return Lost(o.fault); }
      HeadStream(reader.w, reader.io, o.head);
      assert stream.None? || stream.value == o.head.config.streamKey;
      stream := Some(o.head.config.streamKey);
      if |o.records| > 0 { nextLSN := nextLSN + |o.records|; }
      return Got((o.records, o.head));
    }

    method Seek(lsn: nat)
      requires Valid()
      modifies this`nextLSN, this`hint
      ensures Valid() && nextLSN == lsn && (hint.Some? ==> hint == old(hint) && hint.value.baseLSN <= lsn <= hint.value.lastLSN)
    {
      hide Known, Real;
      nextLSN := lsn;
      if hint.Some? && !(hint.value.baseLSN <= lsn <= hint.value.lastLSN) { hint := None; }
    }

    /** The position, once a fresh head has it between its oldest and its next LSN. */
    method MakeCheckpoint() returns (r: Got<Checkpoint>)
      requires Valid()
      modifies this, reader
      ensures Valid() && nextLSN == old(nextLSN) && closed == old(closed)
      ensures r.Got? ==> r.value == Checkpoint(CHECKPOINT_VERSION, reader.w.config.streamKey, reader.w.config.partition, nextLSN)
      ensures r.Got? <==> !closed && old(reader.io(reader.clock)).Served? && InRange(reader.cached, nextLSN)
    {
      hide Known, Real;
      if closed { return Lost(Invalid); }
      var head := reader.Refresh();
      if head.Lost? { return Lost(head.fault); }
      HeadStream(reader.w, reader.io, head.value);
      stream := Some(head.value.config.streamKey);
      if nextLSN < head.value.oldestLSN {
        hint := None;
        return Lost(Expired(nextLSN, head.value.oldestLSN, head.value.nextLSN));
      }
      if nextLSN > head.value.nextLSN {
        hint := None;
        return Lost(Ahead);
      }
      return Got(Checkpoint(CHECKPOINT_VERSION, stream.value, head.value.config.partition, nextLSN));
    }
  }

  predicate InRange(h: Option<Head>, lsn: nat) { h.Some? && h.value.oldestLSN <= lsn <= h.value.nextLSN }

  lemma HeadStream(w: World, io: nat -> Io, h: Head)
    requires Real(w, io) && h in w.heads
    ensures h.config == w.config
  {
    hide Sound, Chain;
    var i :| 0 <= i < |w.heads| && w.heads[i] == h;
    ChainSound(w.config, w.heads, w.steps, i);
    SoundConfig(w.config, h);
  }

  lemma SoundConfig(c: Config, h: Head)
    requires Sound(c, h)
    ensures h.config == c
  {
    hide Flat, Run, EpochsOrdered, EpochsAtMost;
  }

  /** A cursor at a checkpoint: granted exactly when the checkpoint is of this stream and partition and a fresh head has it
      in range. */
  method ResumeCursor(reader: Reader, cp: Checkpoint, limit: nat) returns (r: Got<Cursor>)
    requires reader.Valid()
    modifies reader
    ensures reader.Valid()
    ensures r.Got? ==> fresh(r.value) && r.value.Valid() && r.value.reader == reader && r.value.nextLSN == cp.nextLSN && r.value.limit == limit && !r.value.closed
    ensures r.Got? <==>
              && cp.version == CHECKPOINT_VERSION && cp.partition == reader.w.config.partition
              && old(reader.io(reader.clock)).Served? && cp.stream == reader.w.config.streamKey && InRange(reader.cached, cp.nextLSN)
  {
    hide Known, Real;
    if cp.version != CHECKPOINT_VERSION { return Lost(Invalid); }
    if cp.partition != reader.w.config.partition { return Lost(Mismatch); }
    var head := reader.Refresh();
    if head.Lost? { return Lost(head.fault); }
    HeadStream(reader.w, reader.io, head.value);
    if cp.stream != head.value.config.streamKey { return Lost(Mismatch); }
    if cp.nextLSN < head.value.oldestLSN { return Lost(Expired(cp.nextLSN, head.value.oldestLSN, head.value.nextLSN)); }
    if cp.nextLSN > head.value.nextLSN { return Lost(Ahead); }
    var c := new Cursor(reader, cp.nextLSN, limit, Some(cp.stream));
    return Got(c);
  }

  // ---- Whole runs ----

  datatype Call = DoNext | DoPoll | DoEvict | DoSeek(lsn: nat) | DoHandOver

  /** Over any run of reads, background refreshes, evictions of the cached head and hand-overs through a checkpoint, with
      requests answered as of any heads or not at all: what has been delivered since the last seek is the log from there up
      to the position, without gap or repetition. */
  method Drive(w: World, io: nat -> Io, maxBatch: nat, start: nat, limit: nat, calls: seq<Call>)
    returns (c: Cursor, delivered: seq<Record>, from: nat)
    requires Real(w, io) && maxBatch > 0
    ensures c.Valid() && c.reader.w == w && Stretch(w, from, delivered) && c.nextLSN == from + |delivered|
  {
    hide Known, Real, Stretch, Recorded;
    var reader := new Reader(w, io, maxBatch);
    c := new Cursor(reader, start, limit, None);
    delivered, from := [], start;
    NothingRead(w, start);
    for k := 0 to |calls|
      invariant fresh(reader) && fresh(c) && c.Valid() && c.reader == reader && reader.w == w && Stretch(w, from, delivered) && c.nextLSN == from + |delivered|
    {
      match calls[k]
      case DoNext =>
        var r := c.Next();
        if r.Got? {
          StretchMore(w, from, delivered, r.value.0);
          delivered := delivered + r.value.0;
        }
      case DoPoll =>
        var h := reader.Refresh();
      case DoEvict => reader.Evict();
      case DoSeek(lsn) =>
        c.Seek(lsn);
        delivered, from := [], lsn;
        NothingRead(w, lsn);
      case DoHandOver =>
        var cp := c.MakeCheckpoint();
        if cp.Got? {
          var again := ResumeCursor(reader, cp.value, limit);
          if again.Got? { c := again.value; }
        }
    }
  }
}
