/** The ordered sweeps that delete everything below the safe floor, over a store that others change meanwhile. */
module Sweep {
  import opened CatalogTypes
  import opened KeyLayout

  // ---- What a sweep walks ----

  /** The objects of one kind: segment objects, or catalog pages of one level, below a partition's prefix. */
  datatype Target = Segments(prefix: string) | Pages(prefix: string, level: nat)

  const SUFFIX: string := ".plseg"

  function ListPrefix(t: Target): string {
    match t
    case Segments(p) => p
    case Pages(p, level) => p + "l" + Padded(10, 2, level) + "/"
  }

  /** Where an object stands in the sweep: a segment's base LSN, the LSN a page ends at; nothing for a foreign key. */
  function Position(t: Target, key: string): Option<nat> {
    if !(t.prefix <= key) then None
    else
      var name := key[|t.prefix|..];
      match t
      case Segments(_) =>
        if '/' in name then None
        else (match ParseSegmentName(name, SUFFIX) case Some(k) => Some(k.baseLSN) case None => None)
      case Pages(_, level) =>
        match ParsePagePath(name) case Some(k) => if k.level == level then Some(k.seqHi) else None case None => None
  }

  function LowerBound(t: Target, lsn: nat): string {
    match t
    case Segments(p) => p + SegmentLowerBound(lsn)
    case Pages(p, level) => p + PageEndLowerBound(level, lsn)
  }

  /** Keys are listed in sweep order. */
  lemma PositionOrder(t: Target, a: string, b: string)
    requires Position(t, a).Some? && Position(t, b).Some? && Less(a, b)
    ensures Position(t, a).value <= Position(t, b).value
  {
    hide Less, Padded, ParseSegmentName, ParsePagePath, FormatSegmentName, FormatPagePath;
    var x, y := a[|t.prefix|..], b[|t.prefix|..];
    assert a == t.prefix + x && b == t.prefix + y;
    LessPrefix(t.prefix, x, y);
    match t
    case Segments(_) =>
      CanonicalSegmentName(x, SUFFIX);
      CanonicalSegmentName(y, SUFFIX);
      SegmentNameOrder(ParseSegmentName(x, SUFFIX).value, ParseSegmentName(y, SUFFIX).value, SUFFIX);
    case Pages(_, level) =>
      CanonicalPagePath(x);
      CanonicalPagePath(y);
      PagePathOrder(ParsePagePath(x).value, ParsePagePath(y).value);
  }

  /** A sweep that starts at the bound for an LSN meets every object from that LSN on. */
  lemma AboveLowerBound(t: Target, lsn: nat, key: string)
    requires Position(t, key).Some? && lsn <= Position(t, key).value
    ensures Less(LowerBound(t, lsn), key) && ListPrefix(t) <= key
  {
    hide Less, Padded, ParseSegmentName, ParsePagePath, FormatSegmentName, SegmentLowerBound;
    var x := key[|t.prefix|..];
    assert key == t.prefix + x;
    match t
    case Segments(_) =>
      CanonicalSegmentName(x, SUFFIX);
      LowerBoundBelow(lsn, ParseSegmentName(x, SUFFIX).value, SUFFIX);
      LessPrefix(t.prefix, SegmentLowerBound(lsn), x);
    case Pages(_, level) =>
      CanonicalPagePath(x);
      PageLowerBoundBelow(lsn, ParsePagePath(x).value);
      LessPrefix(t.prefix, PageEndLowerBound(level, lsn), x);
      assert ListPrefix(t) == t.prefix + ("l" + Padded(10, 2, level) + "/");
  }

  // ---- Listing ----

  datatype ObjectPage = ObjectPage(keys: seq<string>, next: string, more: bool)

  lemma {:induction false} LeastExists(s: set<string>) returns (m: string)
    requires s != {}
    ensures m in s && forall k :: k in s ==> k == m || Less(m, k)
  {
    hide Less;
    m :| m in s;
    if s != {m} {
      var n := LeastExists(s - {m});
      LessTotal(m, n);
      if Less(m, n) {
        forall k | k in s ensures k == m || Less(m, k) { if k != m && k != n { LessTransitive(m, n, k); } }
      } else {
        m := n;
      }
    }
  }

  function Least(s: set<string>): (m: string)
    requires s != {}
    ensures m in s && forall k :: k in s ==> k == m || Less(m, k)
  {
    assert exists m :: m in s && (forall k :: k in s ==> k == m || Less(m, k)) by { var m := LeastExists(s); }
    assert forall m, n :: m in s && n in s && (forall k :: k in s ==> k == m || Less(m, k)) && (forall k :: k in s ==> k == n || Less(n, k)) ==> m == n by {
      forall m, n | m in s && n in s && (forall k :: k in s ==> k == m || Less(m, k)) && (forall k :: k in s ==> k == n || Less(n, k)) ensures m == n {
        LessTotal(m, n);
      }
    }
    var m :| m in s && forall k :: k in s ==> k == m || Less(m, k);
    m
  }

  /** The first n keys of a set, in order. */
  function Smallest(s: set<string>, n: nat): seq<string> {
    if n == 0 || s == {} then [] else [Least(s)] + Smallest(s - {Least(s)}, n - 1)
  }

  ghost predicate Increasing(ks: seq<string>) { forall i, j :: 0 <= i < j < |ks| ==> Less(ks[i], ks[j]) }

  lemma {:induction false} SmallestMeaning(s: set<string>, n: nat)
    ensures var ks := Smallest(s, n);
            && Increasing(ks) && |ks| <= n && |ks| <= |s| && (forall k :: k in ks ==> k in s)
            && (forall k :: k in s && k !in ks ==> |ks| == n && (n > 0 ==> Less(ks[n-1], k)))
            && (|ks| == |s| ==> forall k :: k in s ==> k in ks)
  {
    hide Less, Smallest;
    if n == 0 || s == {} {
      NoneSmallest(s, n);
    } else {
      var m, rest := Least(s), s - {Least(s)};
      SmallestMeaning(rest, n - 1);
      SmallestStep(s, n);
      var tail := Smallest(rest, n - 1);
      Prepended(m, tail, rest);
      assert forall k :: k in s <==> k == m || k in rest;
      if n == 1 { assert tail == []; }
    }
  }

  lemma NoneSmallest(s: set<string>, n: nat)
    ensures n == 0 || s == {} ==> Smallest(s, n) == []
  {
  }

  lemma SmallestStep(s: set<string>, n: nat)
    requires n > 0 && s != {}
    ensures Smallest(s, n) == [Least(s)] + Smallest(s - {Least(s)}, n - 1)
  {
    hide Less;
  }

  /** Putting a lesser key in front of an increasing run. */
  lemma Prepended(m: string, tail: seq<string>, rest: set<string>)
    requires Increasing(tail) && (forall k :: k in tail ==> k in rest) && (forall k :: k in rest ==> Less(m, k))
    ensures Increasing([m] + tail) && (forall k :: k in [m] + tail <==> k == m || k in tail)
  {
    hide Less;
    var ks := [m] + tail;
    forall i, j | 0 <= i < j < |ks| ensures Less(ks[i], ks[j]) {
      assert ks[j] == tail[j-1] && ks[j] in rest;
      if i > 0 { assert ks[i] == tail[i-1]; }
    }
  }

  function Matching(objects: set<string>, prefix: string, after: string): set<string> {
    set k | k in objects && prefix <= k && Less(after, k)
  }

  /** The list contract: up to `limit` keys after `after`, in order, and whether more follow. */
  function ListKeys(objects: set<string>, prefix: string, after: string, limit: nat): ObjectPage {
    var m := Matching(objects, prefix, after);
    var ks := Smallest(m, limit);
    if |ks| < |m| && ks != [] then ObjectPage(ks, ks[|ks|-1], true) else ObjectPage(ks, "", false)
  }

  /** The key before the i-th one of a page listed after `after`. */
  function Before(after: string, keys: seq<string>, i: nat): string
    requires i <= |keys|
  {
    if i == 0 then after else keys[i-1]
  }

  predicate WellListed(p: ObjectPage, after: string) {
    && (forall i :: 0 <= i < |p.keys| ==> p.keys[i] != "" && Less(Before(after, p.keys, i), p.keys[i]))
    && (if p.more then p.keys != [] && p.next == p.keys[|p.keys|-1] else p.next == "")
  }

  ghost predicate Complete(p: ObjectPage, objects: set<string>, prefix: string, after: string) {
    forall k :: k in objects && prefix <= k && Less(after, k) && k !in p.keys ==>
      p.more && p.keys != [] && Less(p.keys[|p.keys|-1], k)
  }

  /** A page of the contract passes the sweep's own page check and leaves out only later keys, announcing them. */
  lemma ListMeaning(objects: set<string>, prefix: string, after: string, limit: nat)
    requires limit >= 1
    ensures var p := ListKeys(objects, prefix, after, limit);
            && WellListed(p, after) && Increasing(p.keys) && Complete(p, objects, prefix, after)
            && (forall k :: k in p.keys ==> k in objects && Less(after, k)) && |p.keys| <= limit
  {
    hide Less, Smallest, Matching, Increasing;
    var m := Matching(objects, prefix, after);
    MatchingMeaning(objects, prefix, after);
    SmallestMeaning(m, limit);
    var ks := Smallest(m, limit);
    InOrder(ks, m, after);
    if |ks| == |m| { assert forall k :: k in m ==> k in ks; }
  }

  lemma MatchingMeaning(objects: set<string>, prefix: string, after: string)
    ensures forall k :: k in Matching(objects, prefix, after) <==> k in objects && prefix <= k && Less(after, k)
  {
    hide Less;
  }

  lemma InOrder(ks: seq<string>, m: set<string>, after: string)
    requires Increasing(ks) && (forall k :: k in ks ==> k in m) && (forall k :: k in m ==> Less(after, k))
    ensures forall i :: 0 <= i < |ks| ==> ks[i] != "" && Less(Before(after, ks, i), ks[i])
  {
    hide Less;
    forall i | 0 <= i < |ks| ensures ks[i] != "" && Less(Before(after, ks, i), ks[i]) {
      assert ks[i] in m;
      NotEmpty(after, ks[i]);
    }
  }

  lemma NotEmpty(a: string, b: string)
    requires Less(a, b)
    ensures b != ""
  {
  }

  /** The sweep's check of a page it was given. */
  method ValidateObjectPage(p: ObjectPage, after: string) returns (ok: bool)
    ensures ok <==> WellListed(p, after)
  {
    hide Less;
    var previous := after;
    var i := 0;
    while i < |p.keys|
      invariant 0 <= i <= |p.keys| && previous == Before(after, p.keys, i)
      invariant forall j :: 0 <= j < i ==> p.keys[j] != "" && Less(Before(after, p.keys, j), p.keys[j])
    {
      if p.keys[i] == "" || !Less(previous, p.keys[i]) { return false; }
      previous := p.keys[i];
      i := i + 1;
    }
    if p.more {
      ok := p.keys != [] && p.next == p.keys[|p.keys|-1];
    } else {
      ok := p.next == "";
    }
  }
}
