/** Budgeted deletion with checkpoints: one listed page at a time, one wave of deletes at a time. */
module Reclaim {
  import opened CatalogTypes
  import opened KeyLayout
  import opened Sweep
  import opened GcState

  // ---- Budget ----

  /** Limits of one run and what it has used. The byte limit is soft: only a first object may exceed it. */
  class Budget {
    const maxObjects: nat
    const maxDeletes: nat
    const maxBytes: nat
    var scanned: nat
    var deleted: nat
    var bytes: nat
    var exhausted: bool

    constructor (maxObjects: nat, maxDeletes: nat, maxBytes: nat)
      requires maxBytes <= MAX_U64
      ensures this.maxObjects == maxObjects && this.maxDeletes == maxDeletes && this.maxBytes == maxBytes
      ensures scanned == 0 && deleted == 0 && !exhausted && Room(0, 0)
    {
      this.maxObjects, this.maxDeletes, this.maxBytes := maxObjects, maxDeletes, maxBytes;
      scanned, deleted, bytes, exhausted := 0, 0, 0, false;
    }

    /** What holds with `count` more deletes of `scheduled` bytes in all on their way: the object limit is kept, byte
        sums fit in 64 bits, and with more than one object the byte limit is kept too. */
    ghost predicate Room(count: nat, scheduled: nat)
      reads this
    {
      && maxBytes <= MAX_U64 && deleted + count <= maxDeletes && bytes + scheduled <= MAX_U64
      && (deleted == 0 ==> bytes == 0) && (count == 0 ==> scheduled == 0)
      && (deleted + count > 1 ==> bytes + scheduled <= maxBytes)
    }

    predicate Available()
      reads this
    {
      !exhausted && scanned < maxObjects && deleted < maxDeletes
    }

    method ListLimit(pageSize: nat) returns (limit: nat)
      modifies this`exhausted
      ensures limit == (if scanned < maxObjects then (if maxObjects - scanned < pageSize then maxObjects - scanned else pageSize) else 0)
      ensures exhausted == (old(exhausted) || scanned >= maxObjects)
    {
      if scanned >= maxObjects {
        exhausted := true;
        return 0;
      }
      var remaining := maxObjects - scanned;
      limit := if remaining < pageSize then remaining else pageSize;
    }

    method RecordScan(count: nat)
      modifies this`scanned, this`exhausted
      ensures scanned == old(scanned) + count && exhausted == (old(exhausted) || scanned >= maxObjects)
    {
      scanned := scanned + count;
      if scanned >= maxObjects { exhausted := true; }
    }

    method RecordDelete(size: nat)
      modifies this`deleted, this`bytes, this`exhausted
      ensures deleted == old(deleted) + 1 && bytes == old(bytes) + size
      ensures exhausted == (old(exhausted) || deleted >= maxDeletes || bytes >= maxBytes)
    {
      deleted := deleted + 1;
      bytes := bytes + size;
      if deleted >= maxDeletes || bytes >= maxBytes { exhausted := true; }
    }

    /** Admits one more delete within the limits; the first of a run is admitted whatever its size. */
    method CanScheduleDelete(size: nat, count: nat, scheduled: nat) returns (ok: bool)
      requires Room(count, scheduled) && size <= MAX_U64
      modifies this`exhausted
      ensures ok ==> Room(count + 1, scheduled + size) && exhausted == old(exhausted)
      ensures !ok ==> exhausted
      ensures Room(count, scheduled)
      ensures ok <==> && deleted + count < maxDeletes && size + scheduled <= MAX_U64 && bytes + scheduled <= MAX_U64
                      && (deleted + count > 0 ==> bytes + scheduled < maxBytes && bytes + scheduled + size <= maxBytes)
      ensures deleted + count == 0 && maxDeletes > 0 ==> ok
    {
      if deleted + count >= maxDeletes {
        exhausted := true;
        return false;
      }
      if size > MAX_U64 - scheduled || bytes > MAX_U64 - scheduled {
        exhausted := true;
        return false;
      }
      var used := bytes + scheduled;
      if deleted + count > 0 {
        if used >= maxBytes || size > maxBytes - used {
          exhausted := true;
          return false;
        }
      }
      return true;
    }
  }

  // ---- The store ----

  /** What others do to the store between two of our requests: create and delete objects. */
  datatype Interference = Interference(added: set<string>, removed: set<string>)

  /** A delete may take effect and still be reported as failed, never the other way round. */
  datatype DeleteOutcome = Deleted | FailedDeleted | FailedKept

  /** A save may take effect and still be reported as failed. */
  datatype SaveOutcome = SaveStored | SaveFailedStored | SaveFailedKept

  class Backend {
    var objects: set<string>
    var noise: seq<Interference>
    var outcomes: seq<DeleteOutcome>
    const sizes: string -> nat
    /** The objects that existed when the sweep began, and every key asked to be deleted. */
    ghost const start: set<string>
    ghost var requested: set<string>

    constructor (objects: set<string>, noise: seq<Interference>, outcomes: seq<DeleteOutcome>, sizes: string -> nat)
      requires (forall n :: n in noise ==> n.added !! objects) && forall k :: sizes(k) <= MAX_U64
      ensures Valid() && start == objects == this.objects && requested == {} && this.sizes == sizes
      ensures this.noise == noise && this.outcomes == outcomes
    {
      this.objects, this.noise, this.outcomes, this.sizes := objects, noise, outcomes, sizes;
      start, requested := objects, {};
    }

    /** Object names are used once: nothing that existed at the start is created again. */
    ghost predicate Valid()
      reads this
    {
      (forall n :: n in noise ==> n.added !! start) && forall k :: sizes(k) <= MAX_U64
    }

    /** Objects of the start that are still there. */
    ghost function Left(): set<string>
      reads this
    {
      objects * start
    }

    method Interfere()
      requires Valid()
      modifies this`objects, this`noise
      ensures Valid() && Left() <= old(Left())
      ensures old(noise) == [] ==> objects == old(objects) && noise == []
    {
      if noise != [] {
        assert noise[0] in noise;
        objects := (objects - noise[0].removed) + noise[0].added;
        noise := noise[1..];
      }
    }

    method List(prefix: string, after: string, limit: nat) returns (page: ObjectPage)
      requires Valid() && limit >= 1
      modifies this`objects, this`noise
      ensures Valid() && Left() <= old(Left()) && page == ListKeys(objects, prefix, after, limit)
      ensures old(noise) == [] ==> objects == old(objects) && noise == []
    {
      Interfere();
      page := ListKeys(objects, prefix, after, limit);
    }

    method Delete(key: string) returns (ok: bool)
      requires Valid()
      modifies this`objects, this`noise, this`outcomes, this`requested
      ensures Valid() && Left() <= old(Left()) && requested == old(requested) + {key}
      ensures ok ==> key !in Left()
      ensures old(outcomes) == [] ==> ok && outcomes == []
    {
      Interfere();
      requested := requested + {key};
      var outcome := if outcomes == [] then Deleted else outcomes[0];
      outcomes := if outcomes == [] then [] else outcomes[1..];
      if outcome != FailedKept { objects := objects - {key}; }
      ok := outcome == Deleted;
    }
  }

  // ---- Deletes with a checkpoint ----

  datatype Candidate = Candidate(key: string, size: nat, beforeKey: string)

  function Bytes(cs: seq<Candidate>): nat { if cs == [] then 0 else cs[0].size + Bytes(cs[1..]) }

  lemma {:induction false} BytesSnoc(cs: seq<Candidate>, c: Candidate)
    ensures Bytes(cs + [c]) == Bytes(cs) + c.size
  {
    if cs == [] {
      assert cs + [c] == [c];
    } else {
      assert (cs + [c])[1..] == cs[1..] + [c];
      BytesSnoc(cs[1..], c);
    }
  }

  ghost function KeysOf(cs: seq<Candidate>): set<string> { set i | 0 <= i < |cs| :: cs[i].key }

  ghost predicate AllGone(cs: seq<Candidate>, n: nat, left: set<string>)
    requires n <= |cs|
  {
    forall i :: 0 <= i < n ==> cs[i].key !in left
  }

  /** Deletes in waves; a failure does not stop later waves, a cancellation does. The checkpoint returned on an error is
      the key before the first candidate that may still exist. */
  method ExecuteDeletes(b: Backend, budget: Budget, cs: seq<Candidate>, batch: nat, cancelled: seq<bool>) returns (failed: Option<nat>)
    requires b.Valid() && batch > 0 && budget.Room(|cs|, Bytes(cs))
    modifies b`objects, b`noise, b`outcomes, b`requested, budget`deleted, budget`bytes, budget`exhausted
    ensures b.Valid() && b.Left() <= old(b.Left()) && budget.Room(0, 0) && (old(budget.exhausted) ==> budget.exhausted)
    ensures b.requested <= old(b.requested) + KeysOf(cs)
    ensures failed.None? ==> AllGone(cs, |cs|, b.Left())
    ensures failed.Some? ==> failed.value < |cs| && AllGone(cs, failed.value, b.Left())
    ensures old(b.outcomes) == [] && cancelled == [] ==> failed.None? && b.requested == old(b.requested) + KeysOf(cs)
    ensures old(b.outcomes) == [] ==> b.outcomes == []
  {
    hide Bytes;
    var first: Option<nat> := None;
    var begin, wave := 0, 0;
    assert cs[0..] == cs;
    while begin < |cs|
      invariant 0 <= begin <= |cs| && wave >= 0
      invariant b.Valid() && b.Left() <= old(b.Left()) && budget.Room(|cs| - begin, Bytes(cs[begin..])) && (old(budget.exhausted) ==> budget.exhausted)
      invariant b.requested <= old(b.requested) + KeysOf(cs)
      invariant first.None? ==> AllGone(cs, begin, b.Left())
      invariant first.Some? ==> first.value < begin && AllGone(cs, first.value, b.Left())
      invariant old(b.outcomes) == [] ==> first.None? && b.outcomes == []
      invariant forall k :: 0 <= k < begin ==> cs[k].key in b.requested
      invariant old(b.requested) <= b.requested
    {
      var end := if begin + batch < |cs| then begin + batch else |cs|;
      var i := begin;
      while i < end
        invariant begin <= i <= end
        invariant b.Valid() && b.Left() <= old(b.Left()) && budget.Room(|cs| - i, Bytes(cs[i..])) && (old(budget.exhausted) ==> budget.exhausted)
        invariant b.requested <= old(b.requested) + KeysOf(cs)
        invariant first.None? ==> AllGone(cs, i, b.Left())
        invariant first.Some? ==> first.value < i && AllGone(cs, first.value, b.Left())
        invariant old(b.outcomes) == [] ==> first.None? && b.outcomes == []
        invariant forall k :: 0 <= k < i ==> cs[k].key in b.requested
        invariant old(b.requested) <= b.requested
      {
        BytesHead(cs, i);
        var ok := b.Delete(cs[i].key);
        if ok {
          budget.RecordDelete(cs[i].size);
        } else if first.None? {
          first := Some(i);
        }
        i := i + 1;
      }
      begin := end;
      if wave < |cancelled| && cancelled[wave] {
        RoomNone(budget, |cs| - begin, Bytes(cs[begin..]));
        if first.None? && end < |cs| { return Some(end); }
        return first;
      }
      wave := wave + 1;
    }
    assert cs[begin..] == [];
    RoomNone(budget, 0, Bytes([]));
    return first;
  }

  lemma BytesHead(cs: seq<Candidate>, i: nat)
    requires i < |cs|
    ensures Bytes(cs[i..]) == cs[i].size + Bytes(cs[i+1..]) && (i == |cs| - 1 ==> Bytes(cs[i+1..]) == 0)
  {
    assert cs[i..][1..] == cs[i+1..];
    assert i == |cs| - 1 ==> cs[i+1..] == [];
  }

  lemma RoomNone(budget: Budget, count: nat, scheduled: nat)
    requires budget.Room(count, scheduled) && (count == 0 ==> scheduled == 0)
    ensures budget.Room(0, 0)
  {
  }

  // ---- One listed page ----

  predicate Below(t: Target, key: string, floor: nat) { Position(t, key).Some? && Position(t, key).value < floor }

  /** The candidates of the first n keys of a page: exactly those below the floor, each remembering the key before it. */
  ghost predicate Selected(t: Target, floor: nat, after: string, keys: seq<string>, n: nat, cs: seq<Candidate>, at: seq<nat>) {
    && n <= |keys| && |at| == |cs|
    && (forall j :: 0 <= j < |cs| ==> at[j] < n && cs[j].key == keys[at[j]] && cs[j].beforeKey == Before(after, keys, at[j]) && Below(t, keys[at[j]], floor))
    && (forall i, j :: 0 <= i < j < |at| ==> at[i] < at[j])
    && (forall i :: 0 <= i < n && Position(t, keys[i]).Some? ==> Below(t, keys[i], floor) && i in at)
  }

  method SelectPage(b: Backend, budget: Budget, t: Target, floor: nat, after: string, keys: seq<string>)
    returns (cs: seq<Candidate>, last: string, reached: bool, stopped: bool, ghost n: nat, ghost at: seq<nat>)
    requires b.Valid() && budget.Room(0, 0)
    modifies budget`exhausted
    ensures Selected(t, floor, after, keys, n, cs, at) && last == Before(after, keys, n) && budget.Room(|cs|, Bytes(cs))
    ensures reached ==> n < |keys| && Position(t, keys[n]).Some? && Position(t, keys[n]).value >= floor
    ensures !reached && !stopped ==> n == |keys|
    ensures stopped ==> budget.exhausted
  {
    hide Position, Bytes;
    cs, last, reached, stopped, n, at := [], after, false, false, 0, [];
    var scheduled := 0;
    NoBytes();
    var i := 0;
    while i < |keys|
      invariant 0 <= i <= |keys| && n == i && last == Before(after, keys, i) && !reached && !stopped
      invariant Selected(t, floor, after, keys, i, cs, at)
      invariant scheduled == Bytes(cs) && budget.Room(|cs|, scheduled)
    {
      var p := Position(t, keys[i]);
      if p.Some? {
        if p.value >= floor {
          reached := true;
          return;
        }
        var size := b.sizes(keys[i]);
        var ok := budget.CanScheduleDelete(size, |cs|, scheduled);
        if !ok {
          stopped := true;
          return;
        }
        BytesSnoc(cs, Candidate(keys[i], size, last));
        SelectOne(t, floor, after, keys, i, cs, at, Candidate(keys[i], size, last));
        cs := cs + [Candidate(keys[i], size, last)];
        at := at + [i];
        scheduled := scheduled + size;
      }
      last := keys[i];
      i := i + 1;
      n := i;
    }
  }

  lemma NoBytes()
    ensures Bytes([]) == 0
  {
  }

  lemma SelectOne(t: Target, floor: nat, after: string, keys: seq<string>, i: nat, cs: seq<Candidate>, at: seq<nat>, c: Candidate)
    requires Selected(t, floor, after, keys, i, cs, at) && i < |keys| && Below(t, keys[i], floor)
    requires c.key == keys[i] && c.beforeKey == Before(after, keys, i)
    ensures Selected(t, floor, after, keys, i + 1, cs + [c], at + [i])
  {
    hide Position;
    var at' := at + [i];
    forall k | 0 <= k < i + 1 && Position(t, keys[k]).Some? ensures k in at' {
      if k == i { assert at'[|at|] == i; } else {
        assert k in at;
        var j :| 0 <= j < |at| && at[j] == k;
        assert at'[j] == k;
      }
    }
  }

  // ---- What a checkpoint means ----

  /** Nothing left of the start at or after `from` lies at or before the key: the key may be a checkpoint. */
  ghost predicate Passed(t: Target, left: set<string>, from: nat, key: string) {
    forall k :: k in left && Position(t, k).Some? && Position(t, k).value >= from ==> Less(key, k)
  }

  /** Nothing left of the start lies in [from, floor). */
  ghost predicate Cleared(t: Target, left: set<string>, from: nat, floor: nat) {
    forall k :: k in left && Position(t, k).Some? && Position(t, k).value >= from ==> Position(t, k).value >= floor
  }

  /** The listing a page was taken from, seen now: its keys in order, and everything it left out behind its last key. */
  ghost predicate Listed(t: Target, left: set<string>, after: string, page: ObjectPage) {
    && Increasing(page.keys) && (forall i :: 0 <= i < |page.keys| ==> Less(after, page.keys[i]))
    && forall k :: k in left && ListPrefix(t) <= k && Less(after, k) && k !in page.keys ==>
        page.more && page.keys != [] && Less(page.keys[|page.keys|-1], k)
  }

  lemma ListedPage(t: Target, objects: set<string>, left: set<string>, after: string, limit: nat)
    requires limit >= 1 && left <= objects
    ensures Listed(t, left, after, ListKeys(objects, ListPrefix(t), after, limit))
    ensures WellListed(ListKeys(objects, ListPrefix(t), after, limit), after) && |ListKeys(objects, ListPrefix(t), after, limit).keys| <= limit
  {
    hide Less, ListKeys;
    ListMeaning(objects, ListPrefix(t), after, limit);
  }

  lemma GoneBefore(t: Target, left: set<string>, floor: nat, after: string, keys: seq<string>, n: nat, cs: seq<Candidate>, at: seq<nat>, f: nat, i: nat)
    requires Selected(t, floor, after, keys, n, cs, at) && f <= |cs| && AllGone(cs, f, left)
    requires i < n && (f < |cs| ==> i < at[f]) && Position(t, keys[i]).Some?
    ensures keys[i] !in left
  {
    hide Position, Less;
    assert i in at;
    var j :| 0 <= j < |at| && at[j] == i;
    assert cs[j].key == keys[i];
  }

  /** The key before candidate f is a checkpoint once every candidate before f is gone. */
  lemma PassedBefore(t: Target, left: set<string>, from: nat, floor: nat, after: string, page: ObjectPage, n: nat, cs: seq<Candidate>, at: seq<nat>, m: nat, f: nat)
    requires Listed(t, left, after, page) && Passed(t, left, from, after) && Selected(t, floor, after, page.keys, n, cs, at)
    requires f <= |cs| && AllGone(cs, f, left) && m <= n && (f < |cs| ==> m <= at[f]) && (f == |cs| ==> m <= n)
    ensures Passed(t, left, from, Before(after, page.keys, m))
  {
    hide Position, Less, ListPrefix;
    forall k | k in left && Position(t, k).Some? && Position(t, k).value >= from ensures Less(Before(after, page.keys, m), k) {
      if m > 0 {
        if k in page.keys {
          var i :| 0 <= i < |page.keys| && page.keys[i] == k;
          if i < m { GoneBefore(t, left, floor, after, page.keys, n, cs, at, f, i); }
          assert Less(page.keys[m-1], page.keys[i]);
        } else {
          AboveLowerBound(t, from, k);
          if m < |page.keys| { LessTransitive(page.keys[m-1], page.keys[|page.keys|-1], k); }
        }
      }
    }
  }

  lemma CheckpointBefore(t: Target, left: set<string>, from: nat, floor: nat, after: string, page: ObjectPage, n: nat, cs: seq<Candidate>, at: seq<nat>, f: nat)
    requires Listed(t, left, after, page) && Passed(t, left, from, after) && Selected(t, floor, after, page.keys, n, cs, at)
    requires f < |cs| && AllGone(cs, f, left)
    ensures Passed(t, left, from, cs[f].beforeKey)
  {
    hide Position, Less, ListPrefix, Passed, Listed;
    PassedBefore(t, left, from, floor, after, page, n, cs, at, at[f], f);
  }

  /** Once the floor is reached in key order, everything after is at or above it. */
  lemma ClearedAt(t: Target, left: set<string>, from: nat, floor: nat, after: string, page: ObjectPage, n: nat, cs: seq<Candidate>, at: seq<nat>)
    requires Listed(t, left, after, page) && Passed(t, left, from, after) && Selected(t, floor, after, page.keys, n, cs, at)
    requires AllGone(cs, |cs|, left)
    requires (n < |page.keys| && Position(t, page.keys[n]).Some? && Position(t, page.keys[n]).value >= floor) || (n == |page.keys| && !page.more)
    ensures Cleared(t, left, from, floor)
  {
    hide Position, Less, ListPrefix;
    forall k | k in left && Position(t, k).Some? && Position(t, k).value >= from ensures Position(t, k).value >= floor {
      PassedBefore(t, left, from, floor, after, page, n, cs, at, n, |cs|);
      AboveLowerBound(t, from, k);
      if k in page.keys {
        var i :| 0 <= i < |page.keys| && page.keys[i] == k;
        if i > n {
          PositionOrder(t, page.keys[n], page.keys[i]);
        } else if i < n {
          GoneBefore(t, left, floor, after, page.keys, n, cs, at, |cs|, i);
        }
      } else {
        var z := page.keys[|page.keys|-1];
        if n < |page.keys| - 1 { LessTransitive(page.keys[n], z, k); }
        PositionOrder(t, page.keys[n], k);
      }
    }
  }

  // ---- The sweeps ----

  /** How one page of a sweep ended. */
  datatype Outcome =
    | Finished                            // nothing below the floor is left
    | Processed(last: string, more: bool) // the whole page was handled
    | Stopped(checkpoint: string)         // the budget ran out
    | Failed(resume: Option<string>)      // an error, with a checkpoint if deletes were under way

  /** One page: list, select, look at the head once more, delete. `oldest` is what that look finds, if it succeeds. */
  method SweepPage(b: Backend, budget: Budget, t: Target, ghost from: nat, floor: nat, after: string, pageSize: nat, batch: nat,
                   cancelled: seq<bool>, oldest: Option<nat>) returns (r: Outcome)
    requires b.Valid() && budget.Room(0, 0) && budget.Available() && pageSize > 0 && batch > 0
    requires Passed(t, b.Left(), from, after)
    modifies b`objects, b`noise, b`outcomes, b`requested, budget`scanned, budget`deleted, budget`bytes, budget`exhausted
    ensures b.Valid() && b.Left() <= old(b.Left()) && budget.Room(0, 0)
    ensures forall k :: k in b.requested && k !in old(b.requested) ==> Below(t, k, floor) && oldest.Some? && floor <= oldest.value
    ensures r.Finished? ==> Cleared(t, b.Left(), from, floor)
    ensures r.Processed? ==> budget.scanned > old(budget.scanned) && Passed(t, b.Left(), from, r.last) && (!r.more ==> Cleared(t, b.Left(), from, floor))
    ensures r.Stopped? ==> Passed(t, b.Left(), from, r.checkpoint) && budget.exhausted
    ensures r.Failed? && r.resume.Some? ==> Passed(t, b.Left(), from, r.resume.value)
    ensures old(b.outcomes) == [] ==> b.outcomes == [] && (cancelled == [] && oldest.Some? && floor <= oldest.value ==> !r.Failed?)
    ensures old(b.noise) == [] && NoneListed(t, old(b.objects)) ==> r.Finished? && b.objects == old(b.objects) && b.noise == []
  {
    hide Position, Less, Bytes, ListKeys, ListPrefix, Passed, Cleared, Listed, Selected, AllGone, Below, WellListed, KeysOf, NoneListed;
    ghost var left := b.Left();
    var limit := budget.ListLimit(pageSize);
    var page := b.List(ListPrefix(t), after, limit);
    ListedPage(t, b.objects, b.Left(), after, limit);
    PassedShrinks(t, left, b.Left(), from, after);
    var valid := ValidateObjectPage(page, after);
    assert valid;
    budget.RecordScan(|page.keys|);
    assert old(b.noise) == [] && NoneListed(t, old(b.objects)) ==> page.keys == [] by { EmptyListing(t, b.objects, after, limit); }
    if page.keys == [] {
      NothingListed(t, b.Left(), from, floor, after, page);
      return Finished;
    }
    var cs, last, reached, stopped, n, at := SelectPage(b, budget, t, floor, after, page.keys);
    if cs != [] {
      if oldest.None? || oldest.value < floor {
        BudgetBack(budget, |cs|, Bytes(cs));
        return Failed(None);
      }
      ghost var before := b.Left();
      ghost var asked := b.requested;
      var failed := ExecuteDeletes(b, budget, cs, batch, cancelled);
      ListedShrinks(t, before, b.Left(), after, page);
      PassedShrinks(t, before, b.Left(), from, after);
      SelectedBelow(t, floor, after, page.keys, n, cs, at);
      if failed.Some? {
        CheckpointBefore(t, b.Left(), from, floor, after, page, n, cs, at, failed.value);
        return Failed(Some(cs[failed.value].beforeKey));
      }
    } else {
      BudgetBack(budget, |cs|, Bytes(cs));
      NoneGone(b.Left());
    }
    PassedBefore(t, b.Left(), from, floor, after, page, n, cs, at, n, |cs|);
    if reached {
      ClearedAt(t, b.Left(), from, floor, after, page, n, cs, at);
      return Finished;
    }
    if stopped { return Stopped(last); }
    if !page.more { ClearedAt(t, b.Left(), from, floor, after, page, n, cs, at); }
    return Processed(last, page.more);
  }

  /** No object of the store is listed for the target. */
  ghost predicate NoneListed(t: Target, objects: set<string>) { forall k :: k in objects ==> !(ListPrefix(t) <= k) }

  lemma EmptyListing(t: Target, objects: set<string>, after: string, limit: nat)
    ensures NoneListed(t, objects) ==> ListKeys(objects, ListPrefix(t), after, limit).keys == []
  {
    hide Less, ListPrefix;
    if NoneListed(t, objects) {
      assert Matching(objects, ListPrefix(t), after) == {};
      NoneSmallest({}, limit);
    }
  }

  lemma NothingListed(t: Target, left: set<string>, from: nat, floor: nat, after: string, page: ObjectPage)
    requires Listed(t, left, after, page) && Passed(t, left, from, after) && page.keys == []
    ensures Cleared(t, left, from, floor)
  {
    hide Position, Less, ListPrefix;
    forall k | k in left && Position(t, k).Some? ensures Position(t, k).value < from {
      if Position(t, k).value >= from { AboveLowerBound(t, from, k); }
    }
  }

  lemma PassedShrinks(t: Target, before: set<string>, left: set<string>, from: nat, key: string)
    requires Passed(t, before, from, key) && left <= before
    ensures Passed(t, left, from, key)
  {
    hide Position, Less;
  }

  lemma ListedShrinks(t: Target, before: set<string>, left: set<string>, after: string, page: ObjectPage)
    requires Listed(t, before, after, page) && left <= before
    ensures Listed(t, left, after, page)
  {
    hide Less, ListPrefix;
  }

  lemma SelectedBelow(t: Target, floor: nat, after: string, keys: seq<string>, n: nat, cs: seq<Candidate>, at: seq<nat>)
    requires Selected(t, floor, after, keys, n, cs, at)
    ensures forall k :: k in KeysOf(cs) ==> Below(t, k, floor)
  {
    hide Position, Less;
  }

  lemma NoneGone(left: set<string>)
    ensures AllGone([], 0, left)
  {
  }

  lemma BudgetBack(budget: Budget, count: nat, scheduled: nat)
    requires budget.Room(count, scheduled)
    ensures budget.Room(0, 0)
  {
  }

  /** Where the segment sweep resumes. */
  function SegmentResume(prefix: string, s: State): string {
    if s.segmentAfter == "" then LowerBound(Segments(prefix), s.segmentThrough) else s.segmentAfter
  }

  function PageResume(prefix: string, s: State): string {
    if s.pageAfter == "" then LowerBound(Pages(prefix, s.pageLevel), s.pageThrough) else s.pageAfter
  }

  /** The segment checkpoint never passes an object that is still to be deleted. */
  ghost predicate SegmentsSwept(prefix: string, left: set<string>, s: State) {
    Passed(Segments(prefix), left, s.segmentThrough, SegmentResume(prefix, s))
  }

  /** Lower levels are done up to the floor, the current level up to its checkpoint. */
  ghost predicate PagesSwept(prefix: string, left: set<string>, s: State) {
    && (forall level :: 0 <= level < s.pageLevel ==> Cleared(Pages(prefix, level), left, s.pageThrough, s.safeFloor))
    && Passed(Pages(prefix, s.pageLevel), left, s.pageThrough, PageResume(prefix, s))
  }

  /** A sweep may begin anywhere: with no checkpoint there is nothing to have passed. */
  lemma FreshSweep(t: Target, left: set<string>, from: nat)
    ensures Passed(t, left, from, LowerBound(t, from))
  {
    hide Position, Less, LowerBound;
    forall k | k in left && Position(t, k).Some? && Position(t, k).value >= from ensures Less(LowerBound(t, from), k) {
      AboveLowerBound(t, from, k);
    }
  }

  lemma ClearedShrinks(t: Target, before: set<string>, left: set<string>, from: nat, floor: nat)
    requires Cleared(t, before, from, floor) && left <= before
    ensures Cleared(t, left, from, floor)
  {
    hide Position;
  }

  /** Others deleting objects, or a crash that leaves an older record in place, never invalidates a checkpoint. */
  lemma SweptShrinks(prefix: string, before: set<string>, left: set<string>, s: State)
    requires left <= before
    ensures SegmentsSwept(prefix, before, s) ==> SegmentsSwept(prefix, left, s)
    ensures PagesSwept(prefix, before, s) ==> PagesSwept(prefix, left, s)
  {
    hide Passed, Cleared, SegmentResume, PageResume;
    if SegmentsSwept(prefix, before, s) { PassedShrinks(Segments(prefix), before, left, s.segmentThrough, SegmentResume(prefix, s)); }
    if PagesSwept(prefix, before, s) {
      PassedShrinks(Pages(prefix, s.pageLevel), before, left, s.pageThrough, PageResume(prefix, s));
      forall level | 0 <= level < s.pageLevel ensures Cleared(Pages(prefix, level), left, s.pageThrough, s.safeFloor) {
        ClearedShrinks(Pages(prefix, level), before, left, s.pageThrough, s.safeFloor);
      }
    }
  }

  /** A head observation, promotion of the floor included, leaves both checkpoints valid. */
  lemma ObserveKeepsSwept(segments: string, pages: string, left: set<string>, s: State, h: Head, now: int, delay: nat)
    requires ValidState(s) && SegmentsSwept(segments, left, s) && PagesSwept(pages, left, s)
    ensures SegmentsSwept(segments, left, ObserveHead(s, h, now, delay)) && PagesSwept(pages, left, ObserveHead(s, h, now, delay))
  {
    hide Passed, Cleared, LowerBound, ObserveHead;
    ObserveKeeps(s, h, now, delay);
    var t := ObserveHead(s, h, now, delay);
    if t.safeFloor != s.safeFloor { FreshSweep(Pages(pages, 0), left, t.pageThrough); }
  }

  /** One reclaimer pass over a partition: the record in memory, the record last stored, and what the outside world
      answers: whether each save succeeds, what each look at the head finds, when deletes are cancelled. */
  class Reclaimer {
    const backend: Backend
    const budget: Budget
    const pageSize: nat
    const batch: nat
    var state: State
    var saved: State
    var saves: seq<SaveOutcome>
    var looks: seq<Option<nat>>
    var cancels: seq<bool>

    constructor (backend: Backend, budget: Budget, pageSize: nat, batch: nat, state: State, saves: seq<SaveOutcome>, looks: seq<Option<nat>>, cancels: seq<bool>)
      requires backend.Valid() && budget.Room(0, 0) && pageSize > 0 && batch > 0
      ensures Valid() && this.backend == backend && this.budget == budget && this.state == state == saved
      ensures this.saves == saves && this.looks == looks && this.cancels == cancels
    {
      this.backend, this.budget, this.pageSize, this.batch := backend, budget, pageSize, batch;
      this.state, saved := state, state;
      this.saves, this.looks, this.cancels := saves, looks, cancels;
    }

    ghost predicate Valid()
      reads this, backend, budget
    {
      backend.Valid() && budget.Room(0, 0) && pageSize > 0 && batch > 0 && state.safeFloor == saved.safeFloor
    }

    /** Nothing fails from here on: saves, looks at the head and deletes succeed and nothing is cancelled. */
    ghost predicate Smooth()
      reads this, backend
    {
      saves == [] && looks == [] && cancels == [] && backend.outcomes == []
    }

    /** Every delete asked for so far in this pass lies below the floor. */
    ghost predicate OnlyBelow(t: Target, asked: set<string>)
      reads this, backend
    {
      forall k :: k in backend.requested && k !in asked ==> Below(t, k, state.safeFloor)
    }

    method Save() returns (ok: bool)
      modifies this`saved, this`saves
      ensures saved == state || (!ok && saved == old(saved))
      ensures old(saves) == [] ==> ok && saves == []
    {
      var outcome := if saves == [] then SaveStored else saves[0];
      saves := if saves == [] then [] else saves[1..];
      if outcome != SaveFailedKept { saved := state; }
      ok := outcome == SaveStored;
    }

    method Look() returns (oldest: Option<nat>)
      modifies this`looks
      ensures old(looks) == [] ==> oldest == Some(state.safeFloor) && looks == []
    {
      oldest := if looks == [] then Some(state.safeFloor) else looks[0];
      looks := if looks == [] then [] else looks[1..];
    }

    method CompleteSegments() returns (ok: bool)
      modifies this`state, this`saved, this`saves
      ensures state == old(state).(segmentThrough := state.safeFloor, segmentAfter := "") && state.safeFloor == old(state).safeFloor
      ensures saved == state || (!ok && saved == old(saved))
      ensures old(saves) == [] ==> ok && saves == []
    {
      state := state.(segmentThrough := state.safeFloor, segmentAfter := "");
      ok := Save();
    }

    /** One page of the segment sweep. None means that the sweep goes on. */
    method SegmentTurn(prefix: string) returns (ended: Option<bool>)
      requires Valid() && state == saved && SegmentsSwept(prefix, backend.Left(), state) && budget.Available()
      modifies this`state, this`saved, this`saves, this`looks
      modifies backend`objects, backend`noise, backend`outcomes, backend`requested
      modifies budget`scanned, budget`deleted, budget`bytes, budget`exhausted
      ensures Valid() && SegmentsSwept(prefix, backend.Left(), state) && SegmentsSwept(prefix, backend.Left(), saved)
      ensures backend.Left() <= old(backend.Left()) && OnlyBelow(Segments(prefix), old(backend.requested))
      ensures state == old(state).(segmentThrough := state.segmentThrough, segmentAfter := state.segmentAfter)
      ensures saved == old(state) || saved == state
      ensures state.segmentThrough != old(state).segmentThrough ==>
                state.segmentThrough == state.safeFloor && Cleared(Segments(prefix), backend.Left(), old(state).segmentThrough, state.safeFloor)
      ensures ended == Some(true) ==> state == saved && (budget.Available() ==> state.segmentThrough == state.safeFloor)
      ensures ended.None? ==> state == saved && state.segmentThrough == old(state).segmentThrough && budget.scanned > old(budget.scanned)
      ensures old(Smooth()) ==> Smooth() && ended != Some(false)
    {
      hide Passed, Cleared, LowerBound, Below, Position, SegmentsSwept, SegmentResume;
      ghost var left, from := backend.Left(), state.segmentThrough;
      var after := SegmentResume(prefix, state);
      SegmentPassed(prefix, left, state);
      var oldest := Look();
      var r := SweepPage(backend, budget, Segments(prefix), from, state.safeFloor, after, pageSize, batch, cancels, oldest);
      SweptShrinks(prefix, left, backend.Left(), state);
      if r.Stopped? || r.Failed? {
        var ok := KeepSegmentCheckpoint(prefix, if r.Stopped? then Some(r.checkpoint) else r.resume);
        return Some(ok && r.Stopped?);
      }
      if r.Finished? || !r.more {
        SegmentsDone(prefix, backend.Left(), state);
        var ok := CompleteSegments();
        return Some(ok);
      }
      SegmentCheckpoint(prefix, backend.Left(), state, r.last);
      state := state.(segmentAfter := r.last);
      var ok := Save();
      return if ok then None else Some(false);
    }

    /** Stores a checkpoint of the segment sweep unless it is the one already held. */
    method KeepSegmentCheckpoint(prefix: string, key: Option<string>) returns (ok: bool)
      requires state == saved && SegmentsSwept(prefix, backend.Left(), state)
      requires key.Some? ==> Passed(Segments(prefix), backend.Left(), state.segmentThrough, key.value)
      modifies this`state, this`saved, this`saves
      ensures SegmentsSwept(prefix, backend.Left(), state) && SegmentsSwept(prefix, backend.Left(), saved)
      ensures state == old(state).(segmentAfter := state.segmentAfter) && (saved == state || (!ok && saved == old(saved)))
      ensures old(saves) == [] ==> ok && saves == []
    {
      hide Passed, SegmentsSwept;
      ok := true;
      if key.Some? && key.value != state.segmentAfter {
        SegmentCheckpoint(prefix, backend.Left(), state, key.value);
        state := state.(segmentAfter := key.value);
        ok := Save();
      }
    }

    /** The segment sweep. Whatever fails or is interrupted, both the record in memory and the stored one remain valid
        checkpoints; and the watermark moves only to the floor, once nothing of the start is left between the two. A pass
        that succeeds with budget to spare has moved it there, and one in which nothing fails succeeds. */
    method ReclaimSegments(prefix: string) returns (ok: bool)
      requires Valid() && state == saved && SegmentsSwept(prefix, backend.Left(), state)
      modifies this`state, this`saved, this`saves, this`looks
      modifies backend`objects, backend`noise, backend`outcomes, backend`requested
      modifies budget`scanned, budget`deleted, budget`bytes, budget`exhausted
      ensures Valid() && SegmentsSwept(prefix, backend.Left(), state) && SegmentsSwept(prefix, backend.Left(), saved)
      ensures backend.Left() <= old(backend.Left()) && OnlyBelow(Segments(prefix), old(backend.requested))
      ensures state == old(state).(segmentThrough := state.segmentThrough, segmentAfter := state.segmentAfter)
      ensures saved == old(state).(segmentThrough := saved.segmentThrough, segmentAfter := saved.segmentAfter)
      ensures saved.segmentThrough != old(state).segmentThrough ==> saved == state
      ensures state.segmentThrough != old(state).segmentThrough ==>
                state.segmentThrough == state.safeFloor && Cleared(Segments(prefix), backend.Left(), old(state).segmentThrough, state.safeFloor)
      ensures ok ==> state == saved && (budget.Available() ==> state.segmentThrough == state.safeFloor)
      ensures old(Smooth()) ==> ok && Smooth()
    {
      hide Passed, Cleared, LowerBound, Below, Position, SegmentsSwept;
      while budget.Available()
        invariant Valid() && state == saved && SegmentsSwept(prefix, backend.Left(), state)
        invariant backend.Left() <= old(backend.Left()) && OnlyBelow(Segments(prefix), old(backend.requested))
        invariant state == old(state).(segmentAfter := state.segmentAfter) && (old(Smooth()) ==> Smooth())
        decreases budget.maxObjects - budget.scanned
      {
        var ended := SegmentTurn(prefix);
        if ended.Some? { return ended.value; }
      }
      return true;
    }

    method CompletePages() returns (ok: bool)
      modifies this`state, this`saved, this`saves
      ensures state == old(state).(pageThrough := state.safeFloor, pageLevel := 0, pageAfter := "") && state.safeFloor == old(state).safeFloor
      ensures saved == state || (!ok && saved == old(saved))
      ensures old(saves) == [] ==> ok && saves == []
    {
      state := state.(pageThrough := state.safeFloor, pageLevel := 0, pageAfter := "");
      ok := Save();
    }

    method AdvancePageLevel(level: nat) returns (ok: bool)
      modifies this`state, this`saved, this`saves
      ensures state == old(state).(pageLevel := level, pageAfter := "")
      ensures saved == state || (!ok && saved == old(saved))
      ensures old(saves) == [] ==> ok && saves == []
    {
      state := state.(pageLevel := level, pageAfter := "");
      ok := Save();
    }

    /** One page of the page sweep. None means that the sweep goes on. */
    method PageTurn(prefix: string) returns (ended: Option<bool>)
      requires Valid() && state == saved && PagesSwept(prefix, backend.Left(), state) && budget.Available() && state.pageLevel <= state.maxPageLevel
      modifies this`state, this`saved, this`saves, this`looks
      modifies backend`objects, backend`noise, backend`outcomes, backend`requested
      modifies budget`scanned, budget`deleted, budget`bytes, budget`exhausted
      ensures Valid() && PagesSwept(prefix, backend.Left(), state) && PagesSwept(prefix, backend.Left(), saved)
      ensures backend.Left() <= old(backend.Left()) && PagesBelow(prefix, old(backend.requested), backend.requested, state.safeFloor, state.maxPageLevel)
      ensures state == old(state).(pageThrough := state.pageThrough, pageLevel := state.pageLevel, pageAfter := state.pageAfter)
      ensures (saved == old(state) || saved == state) && state.pageLevel <= state.maxPageLevel
      ensures state.pageThrough != old(state).pageThrough ==>
                state.pageThrough == state.safeFloor && LevelsCleared(prefix, backend.Left(), old(state).pageThrough, state.safeFloor, state.maxPageLevel + 1)
      ensures ended == Some(true) ==> state == saved && (budget.Available() ==> state.pageThrough == state.safeFloor)
      ensures ended.None? ==> state == saved && state.pageThrough == old(state).pageThrough
                              && (state.pageLevel > old(state).pageLevel || (state.pageLevel == old(state).pageLevel && budget.scanned > old(budget.scanned)))
      ensures old(Smooth()) ==> Smooth() && ended != Some(false)
      ensures old(backend.noise == [] && NoneListed(Pages(prefix, state.pageLevel), backend.objects) && state.pageLevel == state.maxPageLevel) ==>
                backend.objects == old(backend.objects) && state.pageThrough == state.safeFloor && ended.Some?
    {
      hide Passed, Cleared, LowerBound, Below, Position, PagesSwept, LevelsCleared, PagesBelow, NoneListed;
      ghost var left, from, asked := backend.Left(), state.pageThrough, backend.requested;
      var level := state.pageLevel;
      var t := Pages(prefix, level);
      var after := PageResume(prefix, state);
      ResumePassed(prefix, left, state);
      NoneBelow(prefix, asked, state.safeFloor, state.maxPageLevel);
      var oldest := Look();
      var r := SweepPage(backend, budget, t, from, state.safeFloor, after, pageSize, batch, cancels, oldest);
      SweptShrinks(prefix, left, backend.Left(), state);
      MoreBelow(prefix, level, asked, asked, backend.requested, state.safeFloor, state.maxPageLevel);
      if r.Stopped? || r.Failed? {
        var ok := KeepPageCheckpoint(prefix, if r.Stopped? then Some(r.checkpoint) else r.resume);
        return Some(ok && r.Stopped?);
      }
      if r.Finished? || !r.more {
        NextLevel(prefix, backend.Left(), state);
        if level == state.maxPageLevel {
          var ok := CompletePages();
          return Some(ok);
        }
        var ok := AdvancePageLevel(level + 1);
        return if ok then None else Some(false);
      }
      PageCheckpoint(prefix, backend.Left(), state, r.last);
      state := state.(pageAfter := r.last);
      var ok := Save();
      return if ok then None else Some(false);
    }

    /** The page sweep, level by level. Its watermark moves only to the floor, once every level up to the highest known
        one has nothing of the start left that ends between the two. A pass that succeeds with budget to spare has moved it,
        and one in which nothing fails succeeds. */
    method ReclaimPages(prefix: string) returns (ok: bool)
      requires Valid() && state == saved && PagesSwept(prefix, backend.Left(), state) && state.pageThrough < state.safeFloor
      modifies this`state, this`saved, this`saves, this`looks
      modifies backend`objects, backend`noise, backend`outcomes, backend`requested
      modifies budget`scanned, budget`deleted, budget`bytes, budget`exhausted
      ensures Valid() && PagesSwept(prefix, backend.Left(), state) && PagesSwept(prefix, backend.Left(), saved)
      ensures backend.Left() <= old(backend.Left()) && PagesBelow(prefix, old(backend.requested), backend.requested, state.safeFloor, state.maxPageLevel)
      ensures state == old(state).(pageThrough := state.pageThrough, pageLevel := state.pageLevel, pageAfter := state.pageAfter)
      ensures saved == old(state).(pageThrough := saved.pageThrough, pageLevel := saved.pageLevel, pageAfter := saved.pageAfter)
      ensures saved.pageThrough != old(state).pageThrough ==> saved == state
      ensures state.pageThrough != old(state).pageThrough ==>
                state.pageThrough == state.safeFloor && LevelsCleared(prefix, backend.Left(), old(state).pageThrough, state.safeFloor, state.maxPageLevel + 1)
      ensures ok ==> state == saved && (budget.Available() && old(state.pageLevel <= state.maxPageLevel) ==> state.pageThrough == state.safeFloor)
      ensures old(state.pageLevel <= state.maxPageLevel) ==> state.pageLevel <= state.maxPageLevel && saved.pageLevel <= state.maxPageLevel
      ensures old(Smooth()) ==> ok && Smooth()
      ensures old(backend.noise == [] && budget.Available() && state.pageLevel == state.maxPageLevel && NoneListed(Pages(prefix, state.pageLevel), backend.objects)) ==>
                state.pageThrough == state.safeFloor && backend.objects == old(backend.objects)
    {
      hide Passed, Cleared, LowerBound, Below, Position, PagesSwept, LevelsCleared, PagesBelow, NoneListed;
      NoneBelow(prefix, backend.requested, state.safeFloor, state.maxPageLevel);
      ghost var first := true;
      while state.pageLevel <= state.maxPageLevel && budget.Available()
        invariant Valid() && state == saved && PagesSwept(prefix, backend.Left(), state)
        invariant backend.Left() <= old(backend.Left()) && PagesBelow(prefix, old(backend.requested), backend.requested, state.safeFloor, state.maxPageLevel)
        invariant state == old(state).(pageLevel := state.pageLevel, pageAfter := state.pageAfter) && (old(Smooth()) ==> Smooth())
        invariant old(state.pageLevel <= state.maxPageLevel) ==> state.pageLevel <= state.maxPageLevel
        invariant first ==> backend.objects == old(backend.objects) && backend.noise == old(backend.noise) && budget.Available() == old(budget.Available()) && state == old(state)
        invariant !first ==> old(!(backend.noise == [] && budget.Available() && state.pageLevel == state.maxPageLevel && NoneListed(Pages(prefix, state.pageLevel), backend.objects)))
        decreases state.maxPageLevel - state.pageLevel, budget.maxObjects - budget.scanned
      {
        ghost var asked := backend.requested;
        var ended := PageTurn(prefix);
        JoinBelow(prefix, old(backend.requested), asked, backend.requested, state.safeFloor, state.maxPageLevel);
        if ended.Some? { return ended.value; }
        first := false;
      }
      return true;
    }

    /** Stores a checkpoint unless it is the one already held. */
    method KeepPageCheckpoint(prefix: string, key: Option<string>) returns (ok: bool)
      requires Valid() && state == saved && PagesSwept(prefix, backend.Left(), state)
      requires key.Some? ==> Passed(Pages(prefix, state.pageLevel), backend.Left(), state.pageThrough, key.value)
      modifies this`state, this`saved, this`saves
      ensures Valid() && PagesSwept(prefix, backend.Left(), state) && PagesSwept(prefix, backend.Left(), saved)
      ensures state == old(state).(pageAfter := state.pageAfter) && (key.Some? ==> state.pageAfter == key.value)
      ensures saved == state || (!ok && saved == old(saved))
      ensures old(saves) == [] ==> ok && saves == []
    {
      hide Passed, PagesSwept;
      if key.Some? && key.value != state.pageAfter {
        PageCheckpoint(prefix, backend.Left(), state, key.value);
        state := state.(pageAfter := key.value);
        ok := Save();
      } else {
        ok := true;
      }
    }
  }

  ghost predicate LevelsCleared(prefix: string, left: set<string>, from: nat, floor: nat, n: nat) {
    forall level :: 0 <= level < n ==> Cleared(Pages(prefix, level), left, from, floor)
  }

  lemma SegmentPassed(prefix: string, left: set<string>, s: State)
    requires SegmentsSwept(prefix, left, s)
    ensures Passed(Segments(prefix), left, s.segmentThrough, SegmentResume(prefix, s))
  {
    hide Passed, LowerBound;
  }

  lemma SegmentCheckpoint(prefix: string, left: set<string>, s: State, key: string)
    requires Passed(Segments(prefix), left, s.segmentThrough, key)
    ensures SegmentsSwept(prefix, left, s.(segmentAfter := key))
  {
    hide Passed, LowerBound;
    NewCheckpoint(Segments(prefix), left, s.segmentThrough, key);
  }

  lemma SegmentsDone(prefix: string, left: set<string>, s: State)
    ensures SegmentsSwept(prefix, left, s.(segmentThrough := s.safeFloor, segmentAfter := ""))
  {
    hide Passed, LowerBound;
    FreshSweep(Segments(prefix), left, s.safeFloor);
  }

  lemma ResumePassed(prefix: string, left: set<string>, s: State)
    requires PagesSwept(prefix, left, s)
    ensures Passed(Pages(prefix, s.pageLevel), left, s.pageThrough, PageResume(prefix, s))
  {
    hide Passed, Cleared, LowerBound;
  }

  lemma PageCheckpoint(prefix: string, left: set<string>, s: State, key: string)
    requires PagesSwept(prefix, left, s) && Passed(Pages(prefix, s.pageLevel), left, s.pageThrough, key)
    ensures PagesSwept(prefix, left, s.(pageAfter := key))
  {
    hide Passed, Cleared, LowerBound;
    NewCheckpoint(Pages(prefix, s.pageLevel), left, s.pageThrough, key);
  }

  /** With its level cleared too, the sweep moves up, or is complete. */
  lemma NextLevel(prefix: string, left: set<string>, s: State)
    requires PagesSwept(prefix, left, s) && Cleared(Pages(prefix, s.pageLevel), left, s.pageThrough, s.safeFloor)
    ensures PagesSwept(prefix, left, s.(pageLevel := s.pageLevel + 1, pageAfter := ""))
    ensures LevelsCleared(prefix, left, s.pageThrough, s.safeFloor, s.pageLevel + 1)
    ensures PagesSwept(prefix, left, s.(pageThrough := s.safeFloor, pageLevel := 0, pageAfter := ""))
  {
    hide Passed, Cleared, LowerBound;
    FreshSweep(Pages(prefix, 0), left, s.safeFloor);
    FreshSweep(Pages(prefix, s.pageLevel + 1), left, s.pageThrough);
  }

  /** Every page asked to be deleted since ends below the floor and is of a level up to `top`. */
  ghost predicate PagesBelow(prefix: string, asked: set<string>, requested: set<string>, floor: nat, top: nat) {
    forall k :: k in requested && k !in asked ==> BelowOnLevel(prefix, k, floor, top)
  }

  /** The key is a page of a level up to `top` that ends below the floor. */
  ghost predicate BelowOnLevel(prefix: string, key: string, floor: nat, top: nat) { exists level :: 0 <= level <= top && Below(Pages(prefix, level), key, floor) }

  lemma NoneBelow(prefix: string, asked: set<string>, floor: nat, top: nat)
    ensures PagesBelow(prefix, asked, asked, floor, top)
  {
    hide Below;
  }

  lemma MoreBelow(prefix: string, level: nat, asked: set<string>, middle: set<string>, requested: set<string>, floor: nat, top: nat)
    requires PagesBelow(prefix, asked, middle, floor, top) && level <= top
    requires forall k :: k in requested && k !in middle ==> Below(Pages(prefix, level), k, floor)
    ensures PagesBelow(prefix, asked, requested, floor, top)
  {
    hide Below;
  }

  lemma JoinBelow(prefix: string, asked: set<string>, middle: set<string>, requested: set<string>, floor: nat, top: nat)
    requires PagesBelow(prefix, asked, middle, floor, top) && PagesBelow(prefix, middle, requested, floor, top)
    ensures PagesBelow(prefix, asked, requested, floor, top)
  {
    hide BelowOnLevel;
  }

  /** A key that passes as a checkpoint still does when read back, even the empty one, which means none. */
  lemma NewCheckpoint(t: Target, left: set<string>, from: nat, key: string)
    requires Passed(t, left, from, key)
    ensures Passed(t, left, from, if key == "" then LowerBound(t, from) else key)
  {
    hide Passed, LowerBound;
    FreshSweep(t, left, from);
  }
}
