/** The cache of whole segments: pins, reservations and eviction under one byte budget. Each method is one critical
    section; loads, cancellations and releases interleave freely. */
module WholeCache {
  import opened CatalogTypes

  type Key = nat

  /** A resident object. It carries the number of the load that brought it in. */
  datatype Entry = Entry(load: nat, key: Key, size: nat, refs: nat)

  /** A load under way; it is current until its last waiter leaves. */
  datatype Load = Load(id: nat, key: Key, reserved: nat, waiters: nat, current: bool)

  function Sizes(es: seq<Entry>): nat { if es == [] then 0 else es[0].size + Sizes(es[1..]) }

  function Reserved(ls: seq<Load>): nat { if ls == [] then 0 else ls[0].reserved + Reserved(ls[1..]) }

  lemma {:induction false} SizesConcat(a: seq<Entry>, b: seq<Entry>)
    ensures Sizes(a + b) == Sizes(a) + Sizes(b)
  {
    if a == [] { assert a + b == b; } else {
      assert (a + b)[1..] == a[1..] + b;
      SizesConcat(a[1..], b);
    }
  }

  lemma {:induction false} ReservedConcat(a: seq<Load>, b: seq<Load>)
    ensures Reserved(a + b) == Reserved(a) + Reserved(b)
  {
    if a == [] { assert a + b == b; } else {
      assert (a + b)[1..] == a[1..] + b;
      ReservedConcat(a[1..], b);
    }
  }

  /** Taking one element out lowers the sum by its share. */
  lemma SizesAt(es: seq<Entry>, i: nat)
    requires i < |es|
    ensures Sizes(es) == Sizes(es[..i] + es[i+1..]) + es[i].size
    ensures forall e :: Sizes(es[..i] + [e] + es[i+1..]) == Sizes(es) - es[i].size + e.size
    ensures forall e :: Sizes([e] + (es[..i] + es[i+1..])) == Sizes(es) - es[i].size + e.size
  {
    hide Sizes;
    var a, b := es[..i], es[i+1..];
    assert es == a + [es[i]] + b;
    SizesConcat(a + [es[i]], b);
    SizesConcat(a, [es[i]]);
    SizesConcat(a, b);
    OneSize(es[i]);
    forall e ensures Sizes(a + [e] + b) == Sizes(es) - es[i].size + e.size && Sizes([e] + (a + b)) == Sizes(es) - es[i].size + e.size {
      SizesConcat(a + [e], b);
      SizesConcat(a, [e]);
      OneSize(e);
      SizesConcat([e], a + b);
    }
  }

  lemma OneSize(e: Entry)
    ensures Sizes([e]) == e.size
  {
    assert [e][1..] == [];
  }

  lemma ReservedAt(ls: seq<Load>, i: nat)
    requires i < |ls|
    ensures Reserved(ls) == Reserved(ls[..i] + ls[i+1..]) + ls[i].reserved
    ensures forall l: Load :: l.reserved == ls[i].reserved ==> Reserved(ls[i := l]) == Reserved(ls)
  {
    hide Reserved;
    var a, b := ls[..i], ls[i+1..];
    assert ls == a + [ls[i]] + b;
    ReservedConcat(a + [ls[i]], b);
    ReservedConcat(a, [ls[i]]);
    ReservedConcat(a, b);
    OneReserved(ls[i]);
    forall l: Load | l.reserved == ls[i].reserved ensures Reserved(ls[i := l]) == Reserved(ls) {
      assert ls[i := l] == a + [l] + b;
      ReservedConcat(a + [l], b);
      ReservedConcat(a, [l]);
      OneReserved(l);
    }
  }

  lemma OneReserved(l: Load)
    ensures Reserved([l]) == l.reserved
  {
    assert [l][1..] == [];
  }

  function Count(m: map<nat, nat>, id: nat): nat { if id in m then m[id] else 0 }

  /** What every critical section keeps. `owed` counts, per finished load, the waiters that have not taken their pin yet;
      `leases` counts pins in the hands of readers. */
  ghost predicate Balanced(lru: seq<Entry>, loads: seq<Load>, owed: map<nat, nat>, leases: map<nat, nat>, nextID: nat) {
    && (forall i :: 0 <= i < |lru| ==> Counted(lru[i], owed, leases, nextID))
    && (forall i, j :: 0 <= i < |lru| && 0 <= j < |lru| && i != j ==> lru[i].load != lru[j].load && lru[i].key != lru[j].key)
    && (forall i :: 0 <= i < |loads| ==> Running(loads[i], owed, leases, nextID))
    && (forall i, j :: 0 <= i < |loads| && 0 <= j < |loads| && i != j ==> Separate(loads[i], loads[j]))
    && (forall i, j :: 0 <= i < |lru| && 0 <= j < |loads| ==> Apart(lru[i], loads[j]))
    && (forall id :: id in owed || id in leases ==> id < nextID)
  }

  /** A resident object's pins are those held and those owed. */
  ghost predicate Counted(e: Entry, owed: map<nat, nat>, leases: map<nat, nat>, nextID: nat) {
    e.refs == Count(leases, e.load) + Count(owed, e.load) && e.load < nextID
  }

  ghost predicate Running(l: Load, owed: map<nat, nat>, leases: map<nat, nat>, nextID: nat) {
    l.id < nextID && l.id !in owed && l.id !in leases && (l.current <==> l.waiters > 0)
  }

  ghost predicate Separate(a: Load, b: Load) { a.id != b.id && (a.current && b.current ==> a.key != b.key) }

  ghost predicate Apart(e: Entry, l: Load) { e.load != l.id && (l.current ==> e.key != l.key) }

  /** Moving element i to the front: where each position of the result comes from. */
  function From(i: nat, k: nat): nat { if k == 0 then i else if k - 1 < i then k - 1 else k }

  lemma MovedFront(lru: seq<Entry>, i: nat, front: Entry)
    requires i < |lru|
    ensures var t := [front] + (lru[..i] + lru[i+1..]); |t| == |lru| && t[0] == front && forall k :: 0 < k < |t| ==> t[k] == lru[From(i, k)]
  {
  }

  /** An object moved to the front with one pin more or less, held or owed. */
  lemma Repinned(lru: seq<Entry>, loads: seq<Load>, owed: map<nat, nat>, leases: map<nat, nat>, nextID: nat, i: nat, front: Entry, owed': map<nat, nat>, leases': map<nat, nat>)
    requires Balanced(lru, loads, owed, leases, nextID) && i < |lru| && front == lru[i].(refs := front.refs)
    requires front.refs == Count(leases', front.load) + Count(owed', front.load)
    requires forall id :: id != front.load ==> Count(leases', id) == Count(leases, id) && Count(owed', id) == Count(owed, id)
    requires forall id :: id in owed' || id in leases' ==> id in owed || id in leases || id == front.load
    ensures Balanced([front] + (lru[..i] + lru[i+1..]), loads, owed', leases', nextID)
  {
    MovedFront(lru, i, front);
    var t := [front] + (lru[..i] + lru[i+1..]);
    forall k | 0 <= k < |t| ensures Counted(t[k], owed', leases', nextID) && t[k].load == lru[From(i, k)].load && t[k].key == lru[From(i, k)].key {
      assert Counted(lru[From(i, k)], owed, leases, nextID);
    }
    forall k, m | 0 <= k < |t| && 0 <= m < |t| && k != m ensures t[k].load != t[m].load && t[k].key != t[m].key { assert From(i, k) != From(i, m); }
    forall k, j | 0 <= k < |t| && 0 <= j < |loads| ensures Apart(t[k], loads[j]) { assert Apart(lru[From(i, k)], loads[j]); }
    forall j | 0 <= j < |loads| ensures Running(loads[j], owed', leases', nextID) {
      assert Running(loads[j], owed, leases, nextID) && Apart(lru[i], loads[j]);
    }
  }

  lemma Evicted(lru: seq<Entry>, loads: seq<Load>, owed: map<nat, nat>, leases: map<nat, nat>, nextID: nat, i: nat)
    requires Balanced(lru, loads, owed, leases, nextID) && i < |lru|
    ensures Balanced(lru[..i] + lru[i+1..], loads, owed, leases, nextID)
  {
    var t := lru[..i] + lru[i+1..];
    forall k | 0 <= k < |t| ensures t[k] == lru[From(i, k + 1)] {}
    forall k, m | 0 <= k < |t| && 0 <= m < |t| && k != m ensures t[k].load != t[m].load && t[k].key != t[m].key { assert From(i, k + 1) != From(i, m + 1); }
  }

  lemma JoinedLoad(lru: seq<Entry>, loads: seq<Load>, owed: map<nat, nat>, leases: map<nat, nat>, nextID: nat, j: nat, l: Load)
    requires Balanced(lru, loads, owed, leases, nextID) && j < |loads| && l.id == loads[j].id && l.key == loads[j].key
    requires (l.current ==> loads[j].current) && (l.current <==> l.waiters > 0)
    ensures Balanced(lru, loads[j := l], owed, leases, nextID)
  {
    var t := loads[j := l];
    forall k | 0 <= k < |t| ensures Running(t[k], owed, leases, nextID) { assert Running(loads[k], owed, leases, nextID); }
    forall k, m | 0 <= k < |t| && 0 <= m < |t| && k != m ensures Separate(t[k], t[m]) { assert Separate(loads[k], loads[m]); }
    forall i, k | 0 <= i < |lru| && 0 <= k < |t| ensures Apart(lru[i], t[k]) { assert Apart(lru[i], loads[k]); }
  }

  lemma StartedLoad(lru: seq<Entry>, loads: seq<Load>, owed: map<nat, nat>, leases: map<nat, nat>, nextID: nat, l: Load)
    requires Balanced(lru, loads, owed, leases, nextID) && l.id == nextID && l.current && l.waiters > 0
    requires (forall i :: 0 <= i < |lru| ==> lru[i].key != l.key) && (forall j :: 0 <= j < |loads| && loads[j].current ==> loads[j].key != l.key)
    ensures Balanced(lru, loads + [l], owed, leases, nextID + 1)
  {
    var t := loads + [l];
    forall i | 0 <= i < |lru| ensures Counted(lru[i], owed, leases, nextID + 1) { assert Counted(lru[i], owed, leases, nextID); }
    forall k | 0 <= k < |t| ensures Running(t[k], owed, leases, nextID + 1) { if k < |loads| { assert Running(loads[k], owed, leases, nextID); } }
    forall k, m | 0 <= k < |t| && 0 <= m < |t| && k != m ensures Separate(t[k], t[m]) {
      if k < |loads| && m < |loads| { assert Separate(loads[k], loads[m]); }
      else if k < |loads| { assert Running(loads[k], owed, leases, nextID); }
      else { assert Running(loads[m], owed, leases, nextID); }
    }
    forall i, k | 0 <= i < |lru| && 0 <= k < |t| ensures Apart(lru[i], t[k]) {
      if k < |loads| { assert Apart(lru[i], loads[k]); } else { assert Counted(lru[i], owed, leases, nextID); }
    }
  }

  // ---- What a section does ----

  ghost predicate Holds(lru: seq<Entry>, key: Key) { exists i :: 0 <= i < |lru| && lru[i].key == key }

  ghost predicate Loading(loads: seq<Load>, key: Key) { exists j :: 0 <= j < |loads| && loads[j].current && loads[j].key == key }

  /** The object of load `id` is the most recently used now, with `refs` pins; everything else keeps its order and pins. */
  ghost predicate Fronted(a: seq<Entry>, b: seq<Entry>, i: nat, id: nat, refs: nat) {
    i < |a| && a[i].load == id && b == [a[i].(refs := refs)] + (a[..i] + a[i+1..])
  }

  /** The resident object of the key got one pin more. */
  ghost predicate PinnedFor(a: seq<Entry>, b: seq<Entry>, key: Key, id: nat) {
    exists i :: 0 <= i < |a| && a[i].key == key && Fronted(a, b, i, id, a[i].refs + 1)
  }

  /** The current load of the key got one waiter more; all others are as they were. */
  ghost predicate JoinedFor(a: seq<Load>, b: seq<Load>, key: Key, id: nat) {
    exists j :: 0 <= j < |a| && a[j].current && a[j].key == key && a[j].id == id && b == a[j := a[j].(waiters := a[j].waiters + 1)]
  }

  function PinnedOnly(es: seq<Entry>): seq<Entry> {
    if es == [] then [] else (if es[0].refs > 0 then [es[0]] else []) + PinnedOnly(es[1..])
  }

  /** Everything up to position n, and of the rest what is pinned. */
  function Kept(es: seq<Entry>, n: nat): seq<Entry>
    requires n <= |es|
  {
    es[..n] + PinnedOnly(es[n..])
  }

  /** The objects that had to go for `room` bytes to be left to residents are gone, from the least recently used on, pinned
      ones excepted; with one more of them kept there would have been too little room. */
  ghost predicate MadeRoom(a: seq<Entry>, b: seq<Entry>, n: nat, room: int) {
    && n <= |a| && b == Kept(a, n) && Sizes(b) <= room
    && (n < |a| ==> a[n].refs == 0 && Sizes(Kept(a, n + 1)) > room)
  }

  ghost predicate RoomMade(a: seq<Entry>, b: seq<Entry>, room: int) { exists n :: 0 <= n <= |a| && MadeRoom(a, b, n, room) }

  lemma {:induction false} PinnedConcat(a: seq<Entry>, b: seq<Entry>)
    ensures PinnedOnly(a + b) == PinnedOnly(a) + PinnedOnly(b)
  {
    if a == [] {
      assert a + b == b;
    } else {
      assert (a + b)[1..] == a[1..] + b;
      PinnedConcat(a[1..], b);
    }
  }

  lemma {:induction false} AllPinned(a: seq<Entry>)
    requires forall i :: 0 <= i < |a| ==> a[i].refs > 0
    ensures PinnedOnly(a) == a
  {
    if a != [] { AllPinned(a[1..]); }
  }

  lemma {:induction false} PinnedAre(a: seq<Entry>)
    ensures forall i :: 0 <= i < |PinnedOnly(a)| ==> PinnedOnly(a)[i].refs > 0 && PinnedOnly(a)[i] in a
  {
    if a != [] { PinnedAre(a[1..]); }
  }

  lemma {:induction false} PinnedLighter(a: seq<Entry>)
    ensures Sizes(PinnedOnly(a)) <= Sizes(a)
  {
    if a != [] {
      PinnedLighter(a[1..]);
      if a[0].refs > 0 { assert ([a[0]] + PinnedOnly(a[1..]))[1..] == PinnedOnly(a[1..]); } else { assert [] + PinnedOnly(a[1..]) == PinnedOnly(a[1..]); }
    }
  }

  /** What is kept weighs no less than what is pinned. */
  lemma KeptWeighs(a: seq<Entry>, n: nat)
    requires n <= |a|
    ensures Sizes(PinnedOnly(a)) <= Sizes(Kept(a, n))
  {
    hide Sizes, PinnedOnly;
    assert a == a[..n] + a[n..];
    PinnedConcat(a[..n], a[n..]);
    SizesConcat(PinnedOnly(a[..n]), PinnedOnly(a[n..]));
    SizesConcat(a[..n], PinnedOnly(a[n..]));
    PinnedLighter(a[..n]);
  }

  /** The least recently used unpinned object among what is kept up to n lies before n, and without it one keeps up to it. */
  lemma KeptLess(a: seq<Entry>, n: nat, i: nat)
    requires n <= |a| && i < |Kept(a, n)| && Kept(a, n)[i].refs == 0 && forall j :: i < j < |Kept(a, n)| ==> Kept(a, n)[j].refs > 0
    ensures i < n && a[i] == Kept(a, n)[i] && Kept(a, n)[..i] + Kept(a, n)[i+1..] == Kept(a, i) && Kept(a, n) == Kept(a, i + 1)
  {
    hide PinnedOnly;
    PinnedAre(a[n..]);
    var b, mid := Kept(a, n), a[i+1..n];
    forall k | 0 <= k < |mid| ensures mid[k].refs > 0 { assert mid[k] == b[i+1+k]; }
    AllPinned(mid);
    assert a[i+1..] == mid + a[n..];
    PinnedConcat(mid, a[n..]);
    OnePinned(a[i]);
    assert a[i..] == [a[i]] + a[i+1..];
    PinnedConcat([a[i]], a[i+1..]);
    assert a[..n] == a[..i] + [a[i]] + mid;
  }

  lemma OnePinned(e: Entry)
    ensures PinnedOnly([e]) == if e.refs > 0 then [e] else []
  {
  }

  /** With nothing left to evict what is kept is exactly what is pinned. */
  lemma KeptPinned(a: seq<Entry>, n: nat)
    requires n <= |a| && forall j :: 0 <= j < |Kept(a, n)| ==> Kept(a, n)[j].refs > 0
    ensures Kept(a, n) == PinnedOnly(a)
  {
    hide PinnedOnly;
    assert a == a[..n] + a[n..];
    PinnedConcat(a[..n], a[n..]);
    forall k | 0 <= k < n ensures a[..n][k].refs > 0 { assert a[..n][k] == Kept(a, n)[k]; }
    AllPinned(a[..n]);
  }

  lemma KeptAll(a: seq<Entry>)
    ensures Kept(a, |a|) == a
  {
  }

  class Cache {
    const maxBytes: nat
    var bytes: nat
    /** Most recently used first. */
    var lru: seq<Entry>
    var loads: seq<Load>
    var nextID: nat
    var closed: bool
    var owed: map<nat, nat>
    /** Leases in the hands of readers, by load number. */
    var leases: map<nat, nat>

    ghost predicate Valid()
      reads this
    {
      && bytes == Sizes(lru) + Reserved(loads) <= maxBytes
      && Balanced(lru, loads, owed, leases, nextID)
      && (closed ==> lru == [])
      && (!closed ==> Homed(lru, owed, leases))
    }

    constructor (maxBytes: nat)
      ensures Valid() && !closed && bytes == 0 && this.maxBytes == maxBytes
    {
      this.maxBytes := maxBytes;
      bytes, lru, loads, nextID, closed, owed, leases := 0, [], [], 0, false, map[], map[];
    }

    method FindEntry(key: Key) returns (r: Option<nat>)
      ensures r.Some? ==> r.value < |lru| && lru[r.value].key == key
      ensures r.None? ==> forall i :: 0 <= i < |lru| ==> lru[i].key != key
    {
      var i := 0;
      while i < |lru|
        invariant 0 <= i <= |lru| && forall j :: 0 <= j < i ==> lru[j].key != key
      {
        if lru[i].key == key { return Some(i); }
        i := i + 1;
      }
      return None;
    }

    method FindCurrent(key: Key) returns (r: Option<nat>)
      ensures r.Some? ==> r.value < |loads| && loads[r.value].key == key && loads[r.value].current
      ensures r.None? ==> forall i :: 0 <= i < |loads| && loads[i].current ==> loads[i].key != key
    {
      var i := 0;
      while i < |loads|
        invariant 0 <= i <= |loads| && forall j :: 0 <= j < i && loads[j].current ==> loads[j].key != key
      {
        if loads[i].current && loads[i].key == key { return Some(i); }
        i := i + 1;
      }
      return None;
    }

    /** Pins an object that is already resident. */
    method AcquireCached(key: Key) returns (lease: Option<nat>)
      requires Valid()
      modifies this`lru, this`leases
      ensures Valid() && KeepsPinned(old(lru), lru)
      ensures lease.Some? <==> !closed && Holds(old(lru), key)
      ensures lease.Some? ==> leases == Bump(old(leases), lease.value) && PinnedFor(old(lru), lru, key, lease.value)
      ensures lease.None? ==> lru == old(lru) && leases == old(leases)
    {
      hide Sizes, Reserved, Balanced, Homed, KeepsPinned, Resident;
      SamePinned(lru, lru);
      if closed { return None; }
      var at := FindEntry(key);
      if at.None? { return None; }
      var i := at.value;
      var e := lru[i];
      var front := e.(refs := e.refs + 1);
      SizesAt(lru, i);
      CountedAt(lru, loads, owed, leases, nextID, i);
      Repinned(lru, loads, owed, leases, nextID, i, front, owed, Bump(leases, e.load));
      MovedPinned(lru, i, front);
      ghost var next := [front] + (lru[..i] + lru[i+1..]);
      ResidentAt(next, 0);
      StillHomed(lru, loads, owed, leases, nextID, next, owed, Bump(leases, e.load));
      assert Fronted(lru, next, i, e.load, lru[i].refs + 1);
      lru := [front] + (lru[..i] + lru[i+1..]);
      leases := Bump(leases, e.load);
      return Some(e.load);
    }

    /** Room for an object, made by evicting unpinned ones, least recently used first. */
    method Reserve(size: nat) returns (ok: bool)
      requires Valid()
      modifies this`lru, this`bytes
      ensures Balanced(lru, loads, owed, leases, nextID) && KeepsPinned(old(lru), lru) && (closed ==> lru == []) && (!closed ==> Homed(lru, owed, leases))
      ensures forall k :: 0 <= k < |lru| ==> lru[k] in old(lru)
      ensures ok <==> 0 < size && Sizes(PinnedOnly(old(lru))) + Reserved(loads) + size <= maxBytes
      ensures ok ==> bytes == Sizes(lru) + Reserved(loads) + size <= maxBytes && RoomMade(old(lru), lru, maxBytes - size - Reserved(loads))
      ensures !ok ==> Valid() && (lru == old(lru) || lru == PinnedOnly(old(lru)))
    {
      hide Sizes, Reserved, Balanced, Homed, KeepsPinned, Resident, PinnedOnly, Kept;
      SamePinned(lru, lru);
      if size == 0 || size > maxBytes { return false; }
      DistinctLoads(lru, loads, owed, leases, nextID);
      ghost var n: nat := |lru|;
      KeptAll(lru);
      while bytes > maxBytes - size
        invariant Valid() && KeepsPinned(old(lru), lru) && forall k :: 0 <= k < |lru| ==> lru[k] in old(lru)
        invariant n <= |old(lru)| && lru == Kept(old(lru), n)
        invariant n < |old(lru)| ==> old(lru)[n].refs == 0 && Sizes(Kept(old(lru), n + 1)) + Reserved(loads) + size > maxBytes
        decreases |lru|
      {
        var victim := FindVictim();
        if victim.None? {
          KeptPinned(old(lru), n);
          return false;
        }
        var i := victim.value;
        KeptLess(old(lru), n, i);
        n := i;
        SizesAt(lru, i);
        Evicted(lru, loads, owed, leases, nextID, i);
        EvictedPinned(old(lru), lru, i);
        if !closed { StillHomed(old(lru), loads, owed, leases, nextID, lru[..i] + lru[i+1..], owed, leases); }
        bytes := bytes - lru[i].size;
        lru := lru[..i] + lru[i+1..];
      }
      KeptWeighs(old(lru), n);
      assert MadeRoom(old(lru), lru, n, maxBytes - size - Reserved(loads));
      bytes := bytes + size;
      return true;
    }

    /** The least recently used object without a pin. */
    method FindVictim() returns (r: Option<nat>)
      ensures r.Some? ==> r.value < |lru| && lru[r.value].refs == 0 && forall j :: r.value < j < |lru| ==> lru[j].refs > 0
      ensures r.None? ==> forall i :: 0 <= i < |lru| ==> lru[i].refs > 0
    {
      var i := |lru|;
      while i > 0
        invariant 0 <= i <= |lru| && forall j :: i <= j < |lru| ==> lru[j].refs > 0
      {
        i := i - 1;
        if lru[i].refs == 0 { return Some(i); }
      }
      return None;
    }

    /** Pins a resident object, joins the load of its key, or starts one within the budget. */
    method Acquire(key: Key, size: nat) returns (r: Acquired)
      requires Valid()
      modifies this`lru, this`loads, this`bytes, this`nextID, this`leases
      ensures Valid() && KeepsPinned(old(lru), lru)
      ensures r == Refused <==> closed
      ensures r.Hit? <==> !closed && Holds(old(lru), key)
      ensures r.Joined? <==> !closed && !Holds(old(lru), key) && Loading(old(loads), key)
      ensures r.Started? <==> && !closed && !Holds(old(lru), key) && !Loading(old(loads), key)
                              && 0 < size && Sizes(PinnedOnly(old(lru))) + Reserved(old(loads)) + size <= maxBytes
      ensures r.Hit? ==> PinnedFor(old(lru), lru, key, r.load) && leases == Bump(old(leases), r.load)
      ensures r.Joined? ==> JoinedFor(old(loads), loads, key, r.load)
      ensures r.Started? ==> && loads == old(loads) + [Load(r.load, key, size, 1, true)] && r.load == old(nextID) && nextID == old(nextID) + 1
                             && RoomMade(old(lru), lru, maxBytes - size - Reserved(old(loads)))
      ensures !r.Hit? ==> leases == old(leases)
      ensures r.Hit? || r.Unavailable? || r.Refused? ==> loads == old(loads)
      ensures r.Joined? || r.Refused? ==> lru == old(lru)
      ensures r.Unavailable? ==> lru == old(lru) || lru == PinnedOnly(old(lru))
      ensures !r.Started? ==> nextID == old(nextID)
    {
      hide Sizes, Reserved, Balanced, Homed, KeepsPinned, Resident, PinnedOnly, PinnedFor, RoomMade;
      SamePinned(lru, lru);
      if closed { return Refused; }
      var hit := AcquireCached(key);
      if hit.Some? { return Hit(hit.value); }
      var j := FindCurrent(key);
      if j.Some? {
        var l := loads[j.value];
        ReservedAt(loads, j.value);
        JoinedLoad(lru, loads, owed, leases, nextID, j.value, l.(waiters := l.waiters + 1));
        loads := loads[j.value := l.(waiters := l.waiters + 1)];
        assert JoinedFor(old(loads), loads, key, l.id);
        return Joined(l.id);
      }
      var ok := Reserve(size);
      if !ok { return Unavailable; }
      var l := Load(nextID, key, size, 1, true);
      ReservedConcat(loads, [l]);
      OneReserved(l);
      StartedLoad(lru, loads, owed, leases, nextID, l);
      loads := loads + [l];
      nextID := nextID + 1;
      return Started(l.id);
    }

    /** A waiter leaves a load that is still running; the last one to leave abandons the load, whose bytes stay reserved
        until it ends. */
    method CancelWaiting(j: nat)
      requires Valid() && j < |loads| && loads[j].waiters > 0
      modifies this`loads
      ensures Valid()
      ensures var n := old(loads)[j].waiters - 1; loads == old(loads)[j := old(loads)[j].(waiters := n, current := n > 0)]
    {
      hide Sizes, Reserved, Balanced, Homed, KeepsPinned, Resident;
      var l := loads[j];
      var n := l.(waiters := l.waiters - 1, current := l.current && l.waiters > 1);
      RunningAt(lru, loads, owed, leases, nextID, j);
      ReservedAt(loads, j);
      JoinedLoad(lru, loads, owed, leases, nextID, j, n);
      loads := loads[j := n];
    }

    /** The object with this load number, if it is resident. */
    method FindLoad(id: nat) returns (r: Option<nat>)
      ensures r.Some? ==> r.value < |lru| && lru[r.value].load == id
      ensures r.None? ==> forall i :: 0 <= i < |lru| ==> lru[i].load != id
    {
      var i := 0;
      while i < |lru|
        invariant 0 <= i <= |lru| && forall j :: 0 <= j < i ==> lru[j].load != id
      {
        if lru[i].load == id { return Some(i); }
        i := i + 1;
      }
      return None;
    }

    /** A waiter that is owed a pin gives it back instead of taking it. */
    method CancelOwed(id: nat)
      requires Valid() && Count(owed, id) > 0
      modifies this`lru, this`owed
      ensures Valid() && owed == Drop(old(owed), id) && |lru| == |old(lru)| && KeepsPinned(old(lru), lru)
      ensures forall i :: 0 <= i < |lru| ==>
                var e := old(lru)[i]; if e.load == id then e.refs > 0 && lru[i] == e.(refs := e.refs - 1) else lru[i] == e
    {
      hide Sizes, Reserved, Balanced, Homed, KeepsPinned, Resident;
      var at := FindLoad(id);
      if at.Some? {
        var e := lru[at.value];
        CountedAt(lru, loads, owed, leases, nextID, at.value);
        DistinctLoads(lru, loads, owed, leases, nextID);
        SizesAt(lru, at.value);
        Unpinned(lru, loads, owed, leases, nextID, at.value, Drop(owed, id), leases);
        SamePinned(lru, lru[..at.value] + [e.(refs := e.refs - 1)] + lru[at.value+1..]);
        if !closed { StillHomed(lru, loads, owed, leases, nextID, lru[..at.value] + [e.(refs := e.refs - 1)] + lru[at.value+1..], Drop(owed, id), leases); }
        lru := lru[..at.value] + [e.(refs := e.refs - 1)] + lru[at.value+1..];
      } else {
        SamePinned(lru, lru);
        Elsewhere(lru, loads, owed, leases, nextID, id, Drop(owed, id), leases);
        if !closed { StillHomed(lru, loads, owed, leases, nextID, lru, Drop(owed, id), leases); }
      }
      owed := Drop(owed, id);
    }

    /** A waiter takes the pin it is owed. */
    method Take(id: nat)
      requires Valid() && Count(owed, id) > 0
      modifies this`owed, this`leases
      ensures Valid() && owed == Drop(old(owed), id) && leases == Bump(old(leases), id)
    {
      hide Sizes, Reserved;
      ghost var o, l := Drop(owed, id), Bump(leases, id);
      forall i | 0 <= i < |lru| ensures Counted(lru[i], o, l, nextID) { assert Counted(lru[i], owed, leases, nextID); }
      forall j | 0 <= j < |loads| ensures Running(loads[j], o, l, nextID) { assert Running(loads[j], owed, leases, nextID); }
      SamePinned(lru, lru);
      if !closed { StillHomed(lru, loads, owed, leases, nextID, lru, o, l); }
      owed, leases := Drop(owed, id), Bump(leases, id);
    }

    /** A load ends: its object becomes resident, pinned once per waiter, or its reservation is returned. */
    method Finish(j: nat, ok: bool)
      requires Valid() && j < |loads|
      modifies this`loads, this`lru, this`owed, this`bytes
      ensures Valid() && loads == old(loads)[..j] + old(loads)[j+1..] && KeepsPinned(old(lru), lru)
      ensures var l := old(loads)[j];
              if ok && l.current && !closed then lru == [Entry(l.id, l.key, l.reserved, l.waiters)] + old(lru) && owed == old(owed)[l.id := l.waiters] && bytes == old(bytes)
              else lru == old(lru) && owed == old(owed) && bytes == old(bytes) - l.reserved
    {
      hide Sizes, Reserved, Balanced, Homed, KeepsPinned, Resident;
      var l := loads[j];
      RunningAt(lru, loads, owed, leases, nextID, j);
      ReservedAt(loads, j);
      if ok && l.current && !closed && l.waiters > 0 {
        var e := Entry(l.id, l.key, l.reserved, l.waiters);
        SizesConcat([e], lru);
        OneSize(e);
        Arrived(lru, loads, owed, leases, nextID, j, e);
        FrontPinned(lru, e);
        ResidentAt([e] + lru, 0);
        StillHomed(lru, loads, owed, leases, nextID, [e] + lru, owed[l.id := l.waiters], leases);
        lru := [e] + lru;
        owed := owed[l.id := l.waiters];
      } else {
        Ended(lru, loads, owed, leases, nextID, j);
        SamePinned(lru, lru);
        bytes := bytes - l.reserved;
      }
      loads := loads[..j] + loads[j+1..];
    }

    /** A reader returns its pin; the object becomes the most recently used. */
    method Release(id: nat)
      requires Valid() && Count(leases, id) > 0
      modifies this`lru, this`leases
      ensures Valid() && leases == Drop(old(leases), id) && |lru| == |old(lru)| && KeepsPinned(old(lru), lru)
      ensures if Resident(old(lru), id) then exists i :: 0 <= i < |old(lru)| && old(lru)[i].refs > 0 && Fronted(old(lru), lru, i, id, old(lru)[i].refs - 1)
              else lru == old(lru)
    {
      hide Sizes, Reserved, Balanced, Homed, KeepsPinned, Resident;
      var at := FindLoad(id);
      if at.Some? {
        var i := at.value;
        var e := lru[i];
        CountedAt(lru, loads, owed, leases, nextID, i);
        assert e.refs > 0;
        SizesAt(lru, i);
        Repinned(lru, loads, owed, leases, nextID, i, e.(refs := e.refs - 1), owed, Drop(leases, id));
        MovedPinned(lru, i, e.(refs := e.refs - 1));
        if !closed { StillHomed(lru, loads, owed, leases, nextID, [e.(refs := e.refs - 1)] + (lru[..i] + lru[i+1..]), owed, Drop(leases, id)); }
        ResidentAt(lru, i);
        assert Fronted(lru, [e.(refs := e.refs - 1)] + (lru[..i] + lru[i+1..]), i, id, lru[i].refs - 1);
        lru := [e.(refs := e.refs - 1)] + (lru[..i] + lru[i+1..]);
      } else {
        SamePinned(lru, lru);
        NotResident(lru, id);
        Elsewhere(lru, loads, owed, leases, nextID, id, owed, Drop(leases, id));
        if !closed { StillHomed(lru, loads, owed, leases, nextID, lru, owed, Drop(leases, id)); }
      }
      leases := Drop(leases, id);
    }

    /** Close revokes every resident object; reservations stay until their loads end. */
    method Close()
      requires Valid()
      modifies this`closed, this`lru, this`bytes
      ensures Valid() && closed && bytes == Reserved(loads)
    {
      hide Reserved;
      bytes := bytes - Sizes(lru);
      closed, lru := true, [];
    }

    /** Close returns once no load is left, and then no byte is. */
    lemma CloseReturns()
      requires Valid() && closed && loads == []
      ensures bytes == 0
    {
    }
  }

  datatype Acquired = Refused | Hit(load: nat) | Joined(load: nat) | Started(load: nat) | Unavailable

  function Bump(m: map<nat, nat>, id: nat): map<nat, nat> { m[id := Count(m, id) + 1] }

  function Drop(m: map<nat, nat>, id: nat): map<nat, nat>
    requires Count(m, id) > 0
  {
    m[id := Count(m, id) - 1]
  }

  /** No pinned object leaves the cache. */
  ghost predicate KeepsPinned(a: seq<Entry>, b: seq<Entry>) {
    forall i :: 0 <= i < |a| && a[i].refs > 0 ==> Resident(b, a[i].load)
  }

  ghost predicate Resident(b: seq<Entry>, load: nat) { exists j :: 0 <= j < |b| && b[j].load == load }

  /** Until the cache is closed, whatever is pinned or owed to a waiter is resident. */
  ghost predicate Homed(lru: seq<Entry>, owed: map<nat, nat>, leases: map<nat, nat>) {
    forall id :: Count(leases, id) + Count(owed, id) > 0 ==> Resident(lru, id)
  }

  lemma StillHomed(a: seq<Entry>, loads: seq<Load>, owed: map<nat, nat>, leases: map<nat, nat>, nextID: nat, b: seq<Entry>, owed': map<nat, nat>, leases': map<nat, nat>)
    requires Balanced(a, loads, owed, leases, nextID) && Homed(a, owed, leases) && KeepsPinned(a, b)
    requires forall id :: Count(leases', id) + Count(owed', id) > 0 ==> Count(leases, id) + Count(owed, id) > 0 || Resident(b, id)
    ensures Homed(b, owed', leases')
  {
    hide Balanced, Resident;
    forall id | Count(leases', id) + Count(owed', id) > 0 ensures Resident(b, id) {
      if Count(leases, id) + Count(owed, id) > 0 { WasResident(a, loads, owed, leases, nextID, b, id); }
    }
  }

  lemma WasResident(a: seq<Entry>, loads: seq<Load>, owed: map<nat, nat>, leases: map<nat, nat>, nextID: nat, b: seq<Entry>, id: nat)
    requires Balanced(a, loads, owed, leases, nextID) && Resident(a, id) && Count(leases, id) + Count(owed, id) > 0 && KeepsPinned(a, b)
    ensures Resident(b, id)
  {
    hide Balanced;
    var i :| 0 <= i < |a| && a[i].load == id;
    CountedAt(a, loads, owed, leases, nextID, i);
    assert a[i].refs > 0;
  }

  lemma ResidentAt(lru: seq<Entry>, i: nat)
    requires i < |lru|
    ensures Resident(lru, lru[i].load)
  {
  }

  lemma NotResident(lru: seq<Entry>, id: nat)
    requires forall i :: 0 <= i < |lru| ==> lru[i].load != id
    ensures !Resident(lru, id)
  {
  }

  lemma DistinctLoads(lru: seq<Entry>, loads: seq<Load>, owed: map<nat, nat>, leases: map<nat, nat>, nextID: nat)
    requires Balanced(lru, loads, owed, leases, nextID)
    ensures forall k, m :: 0 <= k < |lru| && 0 <= m < |lru| && k != m ==> lru[k].load != lru[m].load
  {
  }

  lemma CountedAt(lru: seq<Entry>, loads: seq<Load>, owed: map<nat, nat>, leases: map<nat, nat>, nextID: nat, i: nat)
    requires Balanced(lru, loads, owed, leases, nextID) && i < |lru|
    ensures Counted(lru[i], owed, leases, nextID)
  {
  }

  lemma MovedPinned(lru: seq<Entry>, i: nat, front: Entry)
    requires i < |lru| && front.load == lru[i].load
    ensures KeepsPinned(lru, [front] + (lru[..i] + lru[i+1..]))
  {
    MovedFront(lru, i, front);
    var t := [front] + (lru[..i] + lru[i+1..]);
    forall k | 0 <= k < |lru| ensures Resident(t, lru[k].load) {
      var m := if k == i then 0 else if k < i then k + 1 else k;
      assert t[m].load == lru[k].load;
    }
  }

  /** Dropping an unpinned object keeps every pinned one that was still there. */
  lemma EvictedPinned(a: seq<Entry>, b: seq<Entry>, i: nat)
    requires KeepsPinned(a, b) && i < |b| && b[i].refs == 0 && (forall k :: 0 <= k < |b| ==> b[k] in a)
    requires forall k, m :: 0 <= k < |a| && 0 <= m < |a| && k != m ==> a[k].load != a[m].load
    ensures KeepsPinned(a, b[..i] + b[i+1..])
  {
    var t := b[..i] + b[i+1..];
    forall k | 0 <= k < |a| && a[k].refs > 0 ensures Resident(t, a[k].load) {
      assert Resident(b, a[k].load);
      var j :| 0 <= j < |b| && b[j].load == a[k].load;
      assert b[i] in a;
      var m :| 0 <= m < |a| && a[m] == b[i];
      assert a[m].refs == 0;
      assert a[m].load != a[k].load;
      var p := if j < i then j else j - 1;
      assert t[p] == b[j];
    }
  }

  lemma RunningAt(lru: seq<Entry>, loads: seq<Load>, owed: map<nat, nat>, leases: map<nat, nat>, nextID: nat, j: nat)
    requires Balanced(lru, loads, owed, leases, nextID) && j < |loads|
    ensures Running(loads[j], owed, leases, nextID)
  {
  }

  /** One pin less on an object that stays where it is. */
  lemma Unpinned(lru: seq<Entry>, loads: seq<Load>, owed: map<nat, nat>, leases: map<nat, nat>, nextID: nat, i: nat, owed': map<nat, nat>, leases': map<nat, nat>)
    requires Balanced(lru, loads, owed, leases, nextID) && i < |lru| && lru[i].refs > 0
    requires lru[i].refs - 1 == Count(leases', lru[i].load) + Count(owed', lru[i].load)
    requires forall id :: id != lru[i].load ==> Count(leases', id) == Count(leases, id) && Count(owed', id) == Count(owed, id)
    requires forall id :: id in owed' || id in leases' ==> id in owed || id in leases
    ensures Balanced(lru[..i] + [lru[i].(refs := lru[i].refs - 1)] + lru[i+1..], loads, owed', leases', nextID)
  {
    var t := lru[..i] + [lru[i].(refs := lru[i].refs - 1)] + lru[i+1..];
    forall k | 0 <= k < |t| ensures Counted(t[k], owed', leases', nextID) && t[k].load == lru[k].load && t[k].key == lru[k].key {
      assert Counted(lru[k], owed, leases, nextID);
    }
    forall k, j | 0 <= k < |t| && 0 <= j < |loads| ensures Apart(t[k], loads[j]) { assert Apart(lru[k], loads[j]); }
    forall j | 0 <= j < |loads| ensures Running(loads[j], owed', leases', nextID) {
      assert Running(loads[j], owed, leases, nextID) && Apart(lru[i], loads[j]);
    }
  }

  /** A pin on an object that is no longer resident changes nothing else. */
  lemma Elsewhere(lru: seq<Entry>, loads: seq<Load>, owed: map<nat, nat>, leases: map<nat, nat>, nextID: nat, id: nat, owed': map<nat, nat>, leases': map<nat, nat>)
    requires Balanced(lru, loads, owed, leases, nextID) && (forall i :: 0 <= i < |lru| ==> lru[i].load != id)
    requires forall x :: x != id ==> Count(leases', x) == Count(leases, x) && Count(owed', x) == Count(owed, x)
    requires forall x :: x in owed' || x in leases' ==> x in owed || x in leases
    ensures Balanced(lru, loads, owed', leases', nextID)
  {
    forall i | 0 <= i < |lru| ensures Counted(lru[i], owed', leases', nextID) { assert Counted(lru[i], owed, leases, nextID); }
    forall j | 0 <= j < |loads| ensures Running(loads[j], owed', leases', nextID) { assert Running(loads[j], owed, leases, nextID); }
  }

  lemma Ended(lru: seq<Entry>, loads: seq<Load>, owed: map<nat, nat>, leases: map<nat, nat>, nextID: nat, j: nat)
    requires Balanced(lru, loads, owed, leases, nextID) && j < |loads|
    ensures Balanced(lru, loads[..j] + loads[j+1..], owed, leases, nextID)
  {
    var t := loads[..j] + loads[j+1..];
    forall k | 0 <= k < |t| ensures t[k] == loads[From(j, k + 1)] {}
    forall k, m | 0 <= k < |t| && 0 <= m < |t| && k != m ensures Separate(t[k], t[m]) { assert From(j, k + 1) != From(j, m + 1); }
  }

  lemma Arrived(lru: seq<Entry>, loads: seq<Load>, owed: map<nat, nat>, leases: map<nat, nat>, nextID: nat, j: nat, e: Entry)
    requires Balanced(lru, loads, owed, leases, nextID) && j < |loads| && loads[j].current
    requires e.load == loads[j].id && e.key == loads[j].key && e.refs == loads[j].waiters
    ensures Balanced([e] + lru, loads[..j] + loads[j+1..], owed[e.load := e.refs], leases, nextID)
  {
    var o := owed[e.load := e.refs];
    var t, u := [e] + lru, loads[..j] + loads[j+1..];
    assert Running(loads[j], owed, leases, nextID);
    forall k | 0 <= k < |u| ensures u[k] == loads[From(j, k + 1)] && From(j, k + 1) != j {}
    forall k | 0 <= k < |t| ensures Counted(t[k], o, leases, nextID) {
      if k > 0 { assert t[k] == lru[k-1] && Counted(lru[k-1], owed, leases, nextID) && Apart(lru[k-1], loads[j]); }
    }
    forall k, m | 0 <= k < |t| && 0 <= m < |t| && k != m ensures t[k].load != t[m].load && t[k].key != t[m].key {
      if k == 0 { assert t[m] == lru[m-1] && Apart(lru[m-1], loads[j]); }
      else if m == 0 { assert t[k] == lru[k-1] && Apart(lru[k-1], loads[j]); }
      else { assert t[k] == lru[k-1] && t[m] == lru[m-1]; }
    }
    forall k | 0 <= k < |u| ensures Running(u[k], o, leases, nextID) {
      assert Running(loads[From(j, k + 1)], owed, leases, nextID) && Separate(loads[From(j, k + 1)], loads[j]);
    }
    forall k, m | 0 <= k < |u| && 0 <= m < |u| && k != m ensures Separate(u[k], u[m]) { assert From(j, k + 1) != From(j, m + 1); }
    forall i, k | 0 <= i < |t| && 0 <= k < |u| ensures Apart(t[i], u[k]) {
      if i == 0 { assert Separate(loads[From(j, k + 1)], loads[j]); } else { assert t[i] == lru[i-1] && Apart(lru[i-1], loads[From(j, k + 1)]); }
    }
  }

  lemma FrontPinned(lru: seq<Entry>, e: Entry)
    ensures KeepsPinned(lru, [e] + lru)
  {
    forall k | 0 <= k < |lru| ensures Resident([e] + lru, lru[k].load) { assert ([e] + lru)[k+1] == lru[k]; }
  }

  // ---- Any interleaving ----

  datatype Section =
    | AcquireSection(key: Key, size: nat)
    | AcquireCachedSection(key: Key)
    | CancelWaitingSection(j: nat)
    | CancelOwedSection(id: nat)
    | TakeSection(id: nat)
    | FinishSection(j: nat, ok: bool)
    | ReleaseSection(id: nat)
    | CloseSection

  method Perform(c: Cache, a: Section)
    requires c.Valid()
    modifies c
    ensures c.Valid() && (old(c.closed) ==> c.closed) && (c.closed || KeepsPinned(old(c.lru), c.lru))
  {
    hide Sizes, Reserved, Balanced, Homed, KeepsPinned, Resident;
    SamePinned(c.lru, c.lru);
    match a
    case AcquireSection(key, size) => var _ := c.Acquire(key, size);
    case AcquireCachedSection(key) => var _ := c.AcquireCached(key);
    case CancelWaitingSection(j) => if j < |c.loads| && c.loads[j].waiters > 0 { c.CancelWaiting(j); }
    case CancelOwedSection(id) => if Count(c.owed, id) > 0 { c.CancelOwed(id); }
    case TakeSection(id) => if Count(c.owed, id) > 0 { c.Take(id); }
    case FinishSection(j, ok) => if j < |c.loads| { c.Finish(j, ok); }
    case ReleaseSection(id) => if Count(c.leases, id) > 0 { c.Release(id); }
    case CloseSection => c.Close();
  }

  lemma SamePinned(a: seq<Entry>, b: seq<Entry>)
    requires |a| == |b| && forall i :: 0 <= i < |a| ==> a[i].load == b[i].load
    ensures KeepsPinned(a, b)
  {
    forall i | 0 <= i < |a| ensures Resident(b, a[i].load) { assert b[i].load == a[i].load; }
  }

  /** In every interleaving the bytes are those of resident objects and running loads and stay within the budget, and every
      resident object's pins are those held by readers or owed to waiters; until the cache is closed every object so pinned
      is resident, and once closed with no load left, nothing is held. */
  method Drive(c: Cache, script: seq<Section>)
    requires c.Valid()
    modifies c
    ensures c.Valid() && c.bytes == Sizes(c.lru) + Reserved(c.loads) <= c.maxBytes
    ensures forall i :: 0 <= i < |c.lru| ==> c.lru[i].refs == Count(c.leases, c.lru[i].load) + Count(c.owed, c.lru[i].load)
    ensures c.closed && c.loads == [] ==> c.bytes == 0
    ensures !c.closed ==> Homed(c.lru, c.owed, c.leases)
  {
    hide Sizes, Reserved, Balanced, Homed, KeepsPinned, Resident;
    var i := 0;
    while i < |script|
      invariant 0 <= i <= |script| && c.Valid()
    {
      Perform(c, script[i]);
      i := i + 1;
    }
    Summed(c.lru, c.loads, c.owed, c.leases, c.nextID);
  }

  lemma Summed(lru: seq<Entry>, loads: seq<Load>, owed: map<nat, nat>, leases: map<nat, nat>, nextID: nat)
    requires Balanced(lru, loads, owed, leases, nextID)
    ensures forall i :: 0 <= i < |lru| ==> lru[i].refs == Count(leases, lru[i].load) + Count(owed, lru[i].load)
    ensures Sizes([]) == 0 && Reserved([]) == 0
  {
    forall i | 0 <= i < |lru| ensures lru[i].refs == Count(leases, lru[i].load) + Count(owed, lru[i].load) { assert Counted(lru[i], owed, leases, nextID); }
  }
}
