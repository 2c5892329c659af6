/** Head mutations that grow the tree: creation, takeover, append with its cascade of sealed pages. */
module CatalogTree {
  import opened CatalogTypes
  import opened CatalogFlat

  function NewHead(c: Config, nextLSN: nat): Result<Head> {
    if nextLSN == RESERVED_LSN then Err(InvalidRequest)
    else
      var h := Head(c, nextLSN, nextLSN, 0, 0, 0, 0, 0, 0, 0, None, [], []);
      Marshalled(h)
  }

  /** Marshalling validates, so an invalid head never reaches the store. */
  function Marshalled(h: Head): Result<Head> {
    if ValidHead(h) then Ok(h) else Err(InvalidObject)
  }

  function Takeover(c: Config, h: Head, writerID: nat): Result<Mutation> {
    if writerID == 0 then Err(InvalidRequest)
    else if h.config != c then Err(Identity)
    else if h.writerEpoch == MAX_U64 then Err(FenceExhausted)
    else if h.generation == MAX_U64 then Err(GenerationExhausted)
    else
      var next :- Marshalled(h.(writerEpoch := h.writerEpoch + 1, generation := h.generation + 1, writerID := writerID));
      Ok(Mutation(next, []))
  }

  function SealLeaf(c: Config, generation: nat, epoch: nat, es: seq<LeafEntry>): Result<IndexEntry>
    requires es != []
  {
    var first, last := es[0], es[|es|-1];
    var page := LeafPage(PageHeader(c.partition, c.streamKey, c.hashAlgo, 0, |es|, first.baseLSN, last.lastLSN,
                                    first.minTS, last.maxTS, generation, epoch, |es|), es);
    if !ValidPage(page) then Err(InvalidObject)
    else Ok(IndexEntry(0, |es|, first.baseLSN, last.lastLSN, first.minTS, last.maxTS, generation, PageID(page), |es|))
  }

  function SealIndex(c: Config, generation: nat, epoch: nat, level: nat, rs: seq<IndexEntry>): Result<IndexEntry>
    requires rs != []
  {
    var first, last := rs[0], rs[|rs|-1];
    var count := SumCounts(rs);
    if count > MAX_U64 then Err(InvalidObject)
    else
      var page := IndexPage(PageHeader(c.partition, c.streamKey, c.hashAlgo, level, |rs|, first.seqLo, last.seqHi,
                                       first.minTS, last.maxTS, generation, epoch, count), rs);
      if !ValidPage(page) then Err(InvalidObject)
      else Ok(IndexEntry(level, |rs|, first.seqLo, last.seqHi, first.minTS, last.maxTS, generation, PageID(page), count))
  }

  function Extend(sections: seq<seq<IndexEntry>>, level: nat): (r: seq<seq<IndexEntry>>)
    ensures |r| >= level && |r| >= |sections| && r[..|sections|] == sections
    ensures |r| == if |sections| < level then level else |sections|
    ensures forall i :: |sections| <= i < |r| ==> r[i] == []
    decreases level - |sections|
  {
    if |sections| < level then Extend(sections + [[]], level) else sections
  }

  /** Adds a sealed page to its open section; a full section is sealed and carried to the next level. */
  function Push(c: Config, generation: nat, epoch: nat, sections: seq<seq<IndexEntry>>, level: nat, ref: IndexEntry,
                pages: seq<IndexEntry>): Result<(seq<seq<IndexEntry>>, seq<IndexEntry>)>
    decreases MAX_OPEN_INDEX_LEVEL + 1 - level
  {
    if level == 0 || level > MAX_OPEN_INDEX_LEVEL then Err(IndexFull)
    else
      var ext := Extend(sections, level);
      var entries := ext[level-1] + [ref];
      if level == MAX_OPEN_INDEX_LEVEL && |entries| >= c.indexLimit then Err(IndexFull)
      else if |entries| < c.indexLimit then Ok((ext[level-1 := entries], pages))
      else
        var parent :- SealIndex(c, generation, epoch, level, entries);
        Push(c, generation, epoch, ext[level-1 := []], level + 1, parent, pages + [parent])
  }

  function Append(c: Config, h: Head, e: LeafEntry): Result<Mutation> {
    if h.config != c then Err(Identity)
    else if h.generation == MAX_U64 then Err(GenerationExhausted)
    else if !ValidLeaf(e) then Err(InvalidRequest)
    else if h.writerEpoch == 0 || e.writerEpoch != h.writerEpoch then Err(StaleWriter)
    else if e.writerTag != h.writerID then Err(InvalidRequest)
    else if e.baseLSN != h.nextLSN then Err(Conflict)
    else if h.last.Some? && e.minTS < h.last.value.maxTS then Err(TimestampOrder)
    else
      var next := h.(generation := h.generation + 1, nextLSN := e.lastLSN + 1, segmentCount := h.segmentCount + 1,
                     reachableCount := h.reachableCount + 1,
                     oldestLSN := if h.last.None? then e.baseLSN else h.oldestLSN, last := Some(e));
      var active := h.active + [e];
      if |active| == c.leafLimit then
        var leaf :- SealLeaf(c, next.generation, next.writerEpoch, active);
        var (sections, pages) :- Push(c, next.generation, next.writerEpoch, h.sections, 1, leaf, [leaf]);
        var done :- Marshalled(next.(active := [], sections := sections));
        Ok(Mutation(done, pages))
      else
        var done :- Marshalled(next.(active := active));
        Ok(Mutation(done, []))
  }

  // ---- Capacity ----

  /** Segments under a full page of the given level. */
  function Capacity(c: Config, level: nat): nat {
    if level == 0 then c.leafLimit else c.indexLimit * Capacity(c, level - 1)
  }

  /** Segments that had to be appended to leave this many entries in each section. */
  function Weight(c: Config, sections: seq<seq<IndexEntry>>): nat {
    if sections == [] then 0
    else |sections[|sections|-1]| * Capacity(c, |sections| - 1) + Weight(c, sections[..|sections|-1])
  }

  function Doubled(n: nat): nat { if n == 0 then 1 else 2 * Doubled(n - 1) }

  lemma TimesAtLeast(b: nat, n: nat, p: nat)
    requires b <= n
    ensures b * p <= n * p
  {
  }

  lemma {:induction false} CapacityDoubles(c: Config, level: nat)
    requires ValidConfig(c)
    ensures Capacity(c, level) >= Doubled(level)
  {
    if level > 0 {
      CapacityDoubles(c, level - 1);
      TimesAtLeast(2, c.indexLimit, Capacity(c, level - 1));
    }
  }

  lemma DoubledByEight(n: nat)
    ensures Doubled(n + 8) == 256 * Doubled(n)
  {
    assert Doubled(n + 2) == 4 * Doubled(n);
    assert Doubled(n + 4) == 4 * Doubled(n + 2);
    assert Doubled(n + 6) == 4 * Doubled(n + 4);
    assert Doubled(n + 8) == 4 * Doubled(n + 6);
  }

  lemma Doubled63()
    ensures Doubled(63) == 0x8000_0000_0000_0000
  {
    assert Doubled(7) == 128;
    DoubledByEight(7);
    DoubledByEight(15);
    DoubledByEight(23);
    DoubledByEight(31);
    DoubledByEight(39);
    DoubledByEight(47);
    DoubledByEight(55);
  }

  lemma TimesSucc(n: nat, p: nat)
    ensures (n + 1) * p == n * p + p && 0 * p == 0
  {
  }

  /** A full top-level section would stand for more segments than there are LSNs. */
  lemma TopCapacity(c: Config, n: nat)
    requires ValidConfig(c) && n >= c.indexLimit
    ensures n * Capacity(c, MAX_INDEX_LEVEL) > MAX_U64
  {
    CapacityDoubles(c, MAX_INDEX_LEVEL);
    Doubled63();
    TimesAtLeast(2, n, Capacity(c, MAX_INDEX_LEVEL));
  }

  lemma {:induction false} WeightUpdate(c: Config, ss: seq<seq<IndexEntry>>, i: nat, x: seq<IndexEntry>)
    requires i < |ss|
    ensures Weight(c, ss[i := x]) + |ss[i]| * Capacity(c, i) == Weight(c, ss) + |x| * Capacity(c, i)
  {
    var n := |ss| - 1;
    if i == n {
      assert ss[i := x][..n] == ss[..n];
    } else {
      assert ss[i := x][..n] == ss[..n][i := x];
      WeightUpdate(c, ss[..n], i, x);
    }
  }

  lemma {:induction false} WeightExtend(c: Config, ss: seq<seq<IndexEntry>>, level: nat)
    ensures Weight(c, Extend(ss, level)) == Weight(c, ss)
    decreases level - |ss|
  {
    if |ss| < level {
      WeightExtend(c, ss + [[]], level);
      assert (ss + [[]])[..|ss|] == ss;
    }
  }

  lemma {:induction false} WeightAtLeast(c: Config, ss: seq<seq<IndexEntry>>, i: nat)
    requires i < |ss|
    ensures Weight(c, ss) >= |ss[i]| * Capacity(c, i)
  {
    if i < |ss| - 1 {
      WeightAtLeast(c, ss[..|ss|-1], i);
    }
  }

  // ---- Sections ----

  lemma {:induction false} SectionRefsConcat(a: seq<seq<IndexEntry>>, b: seq<seq<IndexEntry>>)
    ensures SectionRefs(a + b) == SectionRefs(b) + SectionRefs(a)
    decreases |b|
  {
    if b == [] {
      assert a + b == a;
    } else {
      var n := |b| - 1;
      assert (a + b)[..|a + b| - 1] == a + b[..n];
      SectionRefsConcat(a, b[..n]);
    }
  }

  lemma {:induction false} SectionRefsEmpty(ss: seq<seq<IndexEntry>>)
    requires forall i :: 0 <= i < |ss| ==> ss[i] == []
    ensures SectionRefs(ss) == []
  {
    if ss != [] {
      SectionRefsEmpty(ss[..|ss|-1]);
    }
  }

  /** With the lower sections empty, the section at i ends the list of page roots. */
  lemma SectionRefsAt(ss: seq<seq<IndexEntry>>, i: nat, x: seq<IndexEntry>)
    requires i < |ss|
    requires forall k :: 0 <= k < i ==> ss[k] == []
    ensures SectionRefs(ss[i := x]) == SectionRefs(ss[i+1..]) + x
  {
    var low, high := ss[..i], ss[i+1..];
    assert ss[i := x] == low + ([x] + high);
    SectionRefsConcat(low, [x] + high);
    SectionRefsConcat([x], high);
    SectionRefsEmpty(low);
    assert SectionRefs([x]) == x by { assert [x][..0] == []; }
  }

  lemma SectionRefsExtend(ss: seq<seq<IndexEntry>>, level: nat)
    ensures SectionRefs(Extend(ss, level)) == SectionRefs(ss)
  {
    var ext := Extend(ss, level);
    assert ext == ss + ext[|ss|..];
    SectionRefsConcat(ss, ext[|ss|..]);
    SectionRefsEmpty(ext[|ss|..]);
  }

  /** Open sections: each below the index limit, holding sound references of exactly its level. */
  ghost predicate SectionsGood(c: Config, ss: seq<seq<IndexEntry>>, epoch: nat, generation: nat) {
    && |ss| <= MAX_OPEN_INDEX_LEVEL
    && (forall i :: 0 <= i < |ss| ==> |ss[i]| < c.indexLimit && LevelGood(c, ss[i], i, epoch, generation))
  }

  ghost predicate LevelGood(c: Config, rs: seq<IndexEntry>, level: nat, epoch: nat, generation: nat) {
    AllGood(c, rs, epoch) && forall j :: 0 <= j < |rs| ==> rs[j].level == level && rs[j].generation <= generation
  }

  lemma {:induction false} SectionRefsGood(c: Config, ss: seq<seq<IndexEntry>>, epoch: nat, generation: nat)
    requires SectionsGood(c, ss, epoch, generation)
    ensures AllGood(c, SectionRefs(ss), epoch)
  {
    if ss != [] {
      var n := |ss| - 1;
      SectionRefsGood(c, ss[..n], epoch, generation);
      assert LevelGood(c, ss[n], n, epoch, generation);
    }
  }

  // ---- Sealing keeps the meaning ----

  lemma SealLeafGood(c: Config, generation: nat, epoch: nat, es: seq<LeafEntry>)
    requires ValidConfig(c) && generation > 0 && epoch > 0
    requires 0 < |es| <= MAX_LEAF_ENTRIES && Run(es) && EpochsOrdered(es) && EpochsAtMost(es, epoch)
    ensures SealLeaf(c, generation, epoch, es).Ok?
    ensures var r := SealLeaf(c, generation, epoch, es).value;
            Good(c, r, epoch) && FlatRef(r) == es && r.level == 0 && r.generation == generation && r.seqLo == es[0].baseLSN
  {
    RunSpan(es);
  }

  lemma SealIndexGood(c: Config, generation: nat, epoch: nat, level: nat, rs: seq<IndexEntry>)
    requires ValidConfig(c) && generation > 0 && epoch > 0 && 0 < level <= MAX_INDEX_LEVEL
    requires 0 < |rs| <= MAX_INDEX_ENTRIES && LevelGood(c, rs, level - 1, epoch, generation) && Run(FlatRefs(rs))
    ensures SealIndex(c, generation, epoch, level, rs).Ok?
    ensures var r := SealIndex(c, generation, epoch, level, rs).value;
            Good(c, r, epoch) && FlatRef(r) == FlatRefs(rs) && r.level == level && r.generation == generation && r.seqLo == rs[0].seqLo
  {
    RunTiles(c, rs, epoch);
    RunSpan(FlatRefs(rs));
    CountsAtLeast(c, rs, epoch);
  }

  lemma {:induction false} CountsAtLeast(c: Config, rs: seq<IndexEntry>, e: nat)
    requires AllGood(c, rs, e)
    ensures SumCounts(rs) >= |rs|
  {
    if rs != [] {
      CountsAtLeast(c, rs[1..], e);
    }
  }

  /** Carrying a full section upwards keeps the weight. */
  lemma CarryBound(c: Config, ss: seq<seq<IndexEntry>>, level: nat)
    requires 1 <= level
    ensures var n := |Extend(ss, level)[level-1]| + 1;
            && n * Capacity(c, level - 1) <= Weight(c, ss) + Capacity(c, level - 1)
            && (n == c.indexLimit ==>
                  Weight(c, Extend(ss, level)[level-1 := []]) + Capacity(c, level) == Weight(c, ss) + Capacity(c, level - 1))
  {
    var ext := Extend(ss, level);
    WeightExtend(c, ss, level);
    WeightUpdate(c, ext, level - 1, []);
    WeightAtLeast(c, ext, level - 1);
    TimesSucc(|ext[level-1]|, Capacity(c, level - 1));
  }

  ghost predicate Pushable(c: Config, generation: nat, epoch: nat, ss: seq<seq<IndexEntry>>, level: nat, ref: IndexEntry) {
    && ValidConfig(c) && generation > 0 && epoch > 0 && 1 <= level <= MAX_OPEN_INDEX_LEVEL
    && SectionsGood(c, ss, epoch, generation)
    && Good(c, ref, epoch) && ref.level == level - 1 && ref.generation <= generation
    && (forall k :: 0 <= k < level - 1 && k < |ss| ==> ss[k] == [])
    && Run(FlatRefs(SectionRefs(ss)) + FlatRef(ref))
  }

  /** Where a pushed page lands in the flattened order, before and after its section is carried away. */
  lemma PushFlat(ss: seq<seq<IndexEntry>>, level: nat, ref: IndexEntry)
    requires 1 <= level
    requires forall k :: 0 <= k < level - 1 && k < |ss| ==> ss[k] == []
    ensures var ext := Extend(ss, level);
            var entries := ext[level-1] + [ref];
            && FlatRefs(SectionRefs(ext[level-1 := entries])) == FlatRefs(SectionRefs(ss)) + FlatRef(ref)
            && FlatRefs(SectionRefs(ext[level-1 := []])) + FlatRefs(entries) == FlatRefs(SectionRefs(ss)) + FlatRef(ref)
  {
    hide FlatRefs, SectionRefs;
    var ext := Extend(ss, level);
    var prior := ext[level-1];
    var upper := SectionRefs(ext[level..]);
    forall k | 0 <= k < level - 1 ensures ext[k] == [] {
      if k < |ss| { assert ext[k] == ext[..|ss|][k]; }
    }
    SectionRefsExtend(ss, level);
    SectionRefsAt(ext, level - 1, prior);
    assert ext[level-1 := prior] == ext;
    SectionRefsAt(ext, level - 1, prior + [ref]);
    SectionRefsAt(ext, level - 1, []);
    assert upper + [] == upper;
    AppendedFlat(upper, prior, ref);
  }

  lemma SectionsUpdate(c: Config, ss: seq<seq<IndexEntry>>, i: nat, x: seq<IndexEntry>, epoch: nat, generation: nat)
    requires SectionsGood(c, ss, epoch, generation) && i < |ss|
    requires |x| < c.indexLimit && LevelGood(c, x, i, epoch, generation)
    ensures SectionsGood(c, ss[i := x], epoch, generation)
  {
  }

  lemma LevelAppend(c: Config, rs: seq<IndexEntry>, ref: IndexEntry, level: nat, epoch: nat, generation: nat)
    requires LevelGood(c, rs, level, epoch, generation)
    requires Good(c, ref, epoch) && ref.level == level && ref.generation <= generation
    ensures LevelGood(c, rs + [ref], level, epoch, generation)
  {
  }

  /** The section a push appends to stays sound; when full it seals into a sound page of the next level. */
  lemma PushLevel(c: Config, generation: nat, epoch: nat, ss: seq<seq<IndexEntry>>, level: nat, ref: IndexEntry)
    requires Pushable(c, generation, epoch, ss, level, ref)
    ensures var ext := Extend(ss, level);
            var entries := ext[level-1] + [ref];
            && SectionsGood(c, ext, epoch, generation)
            && |entries| <= c.indexLimit
            && LevelGood(c, entries, level - 1, epoch, generation)
            && Run(FlatRefs(entries))
            && (forall k :: 0 <= k < level - 1 ==> ext[k] == [])
  {
    var ext := Extend(ss, level);
    ExtendGood(c, ss, level, epoch, generation);
    LevelAppend(c, ext[level-1], ref, level - 1, epoch, generation);
    PushFlat(ss, level, ref);
    RunParts(FlatRefs(SectionRefs(ext[level-1 := []])), FlatRefs(ext[level-1] + [ref]));
  }

  lemma NoneGood(c: Config, level: nat, epoch: nat, generation: nat)
    ensures LevelGood(c, [], level, epoch, generation)
  {
  }

  lemma PushCarry(c: Config, generation: nat, epoch: nat, ss: seq<seq<IndexEntry>>, level: nat, ref: IndexEntry)
    requires Pushable(c, generation, epoch, ss, level, ref) && level < MAX_OPEN_INDEX_LEVEL
    requires |Extend(ss, level)[level-1]| + 1 >= c.indexLimit
    ensures var ext := Extend(ss, level);
            var entries := ext[level-1] + [ref];
            && SealIndex(c, generation, epoch, level, entries).Ok?
            && var parent := SealIndex(c, generation, epoch, level, entries).value;
            && Pushable(c, generation, epoch, ext[level-1 := []], level + 1, parent)
            && FlatRefs(SectionRefs(ext[level-1 := []])) + FlatRef(parent) == FlatRefs(SectionRefs(ss)) + FlatRef(ref)
  {
    hide Good, SealIndex, SectionsGood, LevelGood, Run, FlatRefs, SectionRefs;
    var ext := Extend(ss, level);
    PushLevel(c, generation, epoch, ss, level, ref);
    NoneGood(c, level - 1, epoch, generation);
    SealIndexGood(c, generation, epoch, level, ext[level-1] + [ref]);
    SectionsUpdate(c, ext, level - 1, [], epoch, generation);
    PushFlat(ss, level, ref);
  }

  /** Whether the carry started by one more entry at this level stops before the terminal section overflows. */
  ghost predicate HasRoom(c: Config, ss: seq<seq<IndexEntry>>, level: nat)
    decreases MAX_OPEN_INDEX_LEVEL + 1 - level
  {
    && 1 <= level <= MAX_OPEN_INDEX_LEVEL
    && var ext := Extend(ss, level);
    (|ext[level-1]| + 1 < c.indexLimit || HasRoom(c, ext[level-1 := []], level + 1))
  }

  lemma {:induction false} WeightHasRoom(c: Config, ss: seq<seq<IndexEntry>>, level: nat)
    requires ValidConfig(c) && 1 <= level <= MAX_OPEN_INDEX_LEVEL
    requires Weight(c, ss) + Capacity(c, level - 1) <= MAX_U64
    requires forall i :: 0 <= i < |ss| ==> |ss[i]| < c.indexLimit
    ensures HasRoom(c, ss, level)
    decreases MAX_OPEN_INDEX_LEVEL + 1 - level
  {
    var ext := Extend(ss, level);
    forall i | 0 <= i < |ss| ensures ext[i] == ss[i] { assert ext[i] == ext[..|ss|][i]; }
    var n := |ext[level-1]| + 1;
    if n >= c.indexLimit {
      CarryBound(c, ss, level);
      if level == MAX_OPEN_INDEX_LEVEL {
        TopCapacity(c, n);
      } else {
        WeightHasRoom(c, ext[level-1 := []], level + 1);
      }
    }
  }

  /** Push adds exactly the page's segments at the end, and fails only for want of room. */
  lemma {:induction false} PushGood(c: Config, generation: nat, epoch: nat, ss: seq<seq<IndexEntry>>, level: nat, ref: IndexEntry, pages: seq<IndexEntry>)
    requires Pushable(c, generation, epoch, ss, level, ref) && HasRoom(c, ss, level)
    ensures Push(c, generation, epoch, ss, level, ref, pages).Ok?
    ensures var ss' := Push(c, generation, epoch, ss, level, ref, pages).value.0;
            && SectionsGood(c, ss', epoch, generation)
            && FlatRefs(SectionRefs(ss')) == FlatRefs(SectionRefs(ss)) + FlatRef(ref)
    decreases MAX_OPEN_INDEX_LEVEL + 1 - level
  {
    hide Good, SealIndex, SectionsGood, LevelGood, Run, FlatRefs, SectionRefs;
    var ext := Extend(ss, level);
    var entries := ext[level-1] + [ref];
    if |entries| < c.indexLimit {
      PushLevel(c, generation, epoch, ss, level, ref);
      SectionsUpdate(c, ext, level - 1, entries, epoch, generation);
      PushFlat(ss, level, ref);
    } else {
      PushCarry(c, generation, epoch, ss, level, ref);
      var parent := SealIndex(c, generation, epoch, level, entries).value;
      PushGood(c, generation, epoch, ext[level-1 := []], level + 1, parent, pages + [parent]);
    }
  }

  lemma {:induction false} PushWeight(c: Config, generation: nat, epoch: nat, ss: seq<seq<IndexEntry>>, level: nat, ref: IndexEntry, pages: seq<IndexEntry>)
    requires Push(c, generation, epoch, ss, level, ref, pages).Ok?
    requires c.indexLimit > 0 && forall i :: 0 <= i < |ss| ==> |ss[i]| < c.indexLimit
    ensures Weight(c, Push(c, generation, epoch, ss, level, ref, pages).value.0) == Weight(c, ss) + Capacity(c, level - 1)
    decreases MAX_OPEN_INDEX_LEVEL + 1 - level
  {
    hide Weight, Capacity, SealIndex;
    var ext := Extend(ss, level);
    var entries := ext[level-1] + [ref];
    forall i | 0 <= i < |ss| ensures ext[i] == ss[i] { assert ext[i] == ext[..|ss|][i]; }
    CarryBound(c, ss, level);
    WeightExtend(c, ss, level);
    WeightUpdate(c, ext, level - 1, entries);
    if |entries| < c.indexLimit {
      TimesSucc(|ext[level-1]|, Capacity(c, level - 1));
    } else {
      var parent := SealIndex(c, generation, epoch, level, entries).value;
      PushWeight(c, generation, epoch, ext[level-1 := []], level + 1, parent, pages + [parent]);
    }
  }

  lemma ExtendGood(c: Config, ss: seq<seq<IndexEntry>>, level: nat, epoch: nat, generation: nat)
    requires ValidConfig(c) && SectionsGood(c, ss, epoch, generation) && level <= MAX_OPEN_INDEX_LEVEL
    ensures SectionsGood(c, Extend(ss, level), epoch, generation)
    ensures forall k :: 0 <= k < |ss| ==> Extend(ss, level)[k] == ss[k]
  {
    var ext := Extend(ss, level);
    forall i | 0 <= i < |ext|
      ensures |ext[i]| < c.indexLimit && LevelGood(c, ext[i], i, epoch, generation)
    {
      if i < |ss| {
        assert ext[i] == ext[..|ss|][i] == ss[i];
      }
    }
    forall k | 0 <= k < |ss| ensures ext[k] == ss[k] { assert ext[k] == ext[..|ss|][k]; }
  }

  lemma AppendedFlat(upper: seq<IndexEntry>, prior: seq<IndexEntry>, ref: IndexEntry)
    ensures FlatRefs(upper + (prior + [ref])) == FlatRefs(upper) + FlatRefs(prior + [ref]) == FlatRefs(upper + prior) + FlatRef(ref)
  {
    hide FlatRefs;
    FlatRefsConcat(upper, prior + [ref]);
    FlatRefsConcat(upper, prior);
    FlatRefsConcat(prior, [ref]);
    FlatRefsOne(ref);
    assert FlatRefs(upper) + (FlatRefs(prior) + FlatRef(ref)) == (FlatRefs(upper) + FlatRefs(prior)) + FlatRef(ref);
  }

  // ---- Well-formed heads ----

  /** How the head's counters and bounds describe the run f it stands for. */
  ghost predicate Counts(h: Head, f: seq<LeafEntry>) {
    && h.oldestLSN <= h.nextLSN <= MAX_RECORD_LSN && h.retentionLSN <= h.nextLSN
    && (h.retentionVersion == 0 ==> h.retentionLSN == 0)
    && (h.writerEpoch == 0 <==> h.writerID == 0)
    && |f| == h.reachableCount <= h.segmentCount <= h.nextLSN
    && (f == [] ==> h.oldestLSN == h.nextLSN)
    && (h.last.None? ==> f == [] && h.segmentCount == 0)
    && (h.last.Some? ==>
          && ValidLeaf(h.last.value) && h.last.value.writerEpoch <= h.writerEpoch
          && h.last.value.lastLSN + 1 == h.nextLSN && h.segmentCount > 0)
    && (f != [] ==> h.last == Some(f[|f|-1]) && f[0].baseLSN == h.oldestLSN)
  }

  /** The open sections and the inline run: bounded, of the right levels, every page below them sound. */
  ghost predicate Shape(c: Config, h: Head) {
    && h.config == c && ValidConfig(c)
    && h.generation <= MAX_U64 && h.writerEpoch <= MAX_U64
    && |h.active| < c.leafLimit
    && SectionsGood(c, h.sections, h.writerEpoch, h.generation)
  }

  /** A well-formed head: a sound tree over one gapless run of segments that its counters describe. */
  ghost predicate WellFormed(c: Config, h: Head) {
    && Shape(c, h)
    && Run(Flat(h)) && EpochsOrdered(Flat(h)) && EpochsAtMost(Flat(h), h.writerEpoch)
    && Counts(h, Flat(h))
  }

  /** The open sections never hold more than the segments ever appended could have filled. */
  ghost predicate Spacious(c: Config, h: Head) { Weight(c, h.sections) + |h.active| <= h.segmentCount }

  ghost predicate Ordered(f: seq<LeafEntry>, epoch: nat) { Run(f) && EpochsOrdered(f) && EpochsAtMost(f, epoch) }

  lemma OrderedSuffix(a: seq<LeafEntry>, b: seq<LeafEntry>, epoch: nat)
    requires Ordered(a + b, epoch)
    ensures Ordered(b, epoch)
  {
    hide Run;
    RunParts(a, b);
    var f := a + b;
    forall i | 0 <= i < |b| ensures b[i].writerEpoch <= epoch { assert b[i] == f[|a| + i]; }
    forall i, j | 0 <= i < j < |b| ensures b[i].writerEpoch <= b[j].writerEpoch {
      assert b[i] == f[|a| + i] && b[j] == f[|a| + j];
    }
  }

  lemma {:induction false} RootCountConcat(a: seq<Root>, b: seq<Root>)
    ensures RootCount(a + b) == RootCount(a) + RootCount(b)
  {
    if a == [] {
      assert a + b == b;
    } else {
      assert (a + b)[1..] == a[1..] + b;
      RootCountConcat(a[1..], b);
    }
  }

  lemma {:induction false} RefRootCount(rs: seq<IndexEntry>)
    ensures RootCount(RefRoots(rs)) == SumCounts(rs)
  {
    if rs != [] {
      assert RefRoots(rs)[1..] == RefRoots(rs[1..]);
      RefRootCount(rs[1..]);
    }
  }

  lemma {:induction false} LeafRootCount(es: seq<LeafEntry>)
    ensures RootCount(LeafRoots(es)) == |es|
  {
    if es != [] {
      assert LeafRoots(es)[1..] == LeafRoots(es[1..]);
      LeafRootCount(es[1..]);
    }
  }

  /** Roots over one run tile it and add up to its length. */
  lemma RootsOfRun(c: Config, h: Head)
    requires Shape(c, h) && Run(Flat(h))
    ensures RootsTile(Roots(h)) && RootCount(Roots(h)) == |Flat(h)|
    ensures Roots(h) == [] <==> Flat(h) == []
    ensures Flat(h) != [] ==>
      && Roots(h)[0].Lo() == Flat(h)[0].baseLSN
      && Roots(h)[|Roots(h)|-1].Hi() == Flat(h)[|Flat(h)|-1].lastLSN
  {
    var rs := SectionRefs(h.sections);
    SectionRefsGood(c, h.sections, h.writerEpoch, h.generation);
    RunParts(FlatRefs(rs), h.active);
    RunTiles(c, rs, h.writerEpoch);
    RefRootCount(rs);
    LeafRootCount(h.active);
    RootCountConcat(RefRoots(rs), LeafRoots(h.active));
    RootsAdjacent(rs, h.active);
  }

  lemma RootsAdjacent(rs: seq<IndexEntry>, es: seq<LeafEntry>)
    requires RefsTile(rs) && Run(es)
    requires rs != [] && es != [] ==> rs[|rs|-1].seqHi + 1 == es[0].baseLSN && rs[|rs|-1].maxTS <= es[0].minTS
    ensures RootsTile(RefRoots(rs) + LeafRoots(es))
  {
    var roots := RefRoots(rs) + LeafRoots(es);
    forall i, j | 0 <= i < |roots| && i < j < |roots| && j == i + 1
      ensures roots[j].Lo() == roots[i].Hi() + 1 && roots[i].MaxTS() <= roots[j].MinTS()
    {
      if j < |rs| {
        assert RefFollows(rs[i], rs[j]);
      } else if i >= |rs| {
        assert Follows(es[i - |rs|], es[j - |rs|]);
      }
    }
  }

  lemma SectionsValid(c: Config, h: Head)
    requires SectionsGood(c, h.sections, h.writerEpoch, h.generation)
    ensures ValidSections(h)
    ensures |h.sections| <= MAX_OPEN_INDEX_LEVEL && forall i :: 0 <= i < |h.sections| ==> |h.sections[i]| < c.indexLimit
  {
    forall i, j | 0 <= i < |h.sections| && 0 <= j < |h.sections[i]|
      ensures ValidRef(h.sections[i][j]) && h.sections[i][j].level == i && h.sections[i][j].generation <= h.generation
    {
      assert LevelGood(c, h.sections[i], i, h.writerEpoch, h.generation);
      assert Good(c, h.sections[i][j], h.writerEpoch);
    }
  }

  lemma ActiveValid(h: Head, a: seq<LeafEntry>)
    requires Ordered(a + h.active, h.writerEpoch)
    ensures ValidActive(h)
  {
    OrderedSuffix(a, h.active, h.writerEpoch);
  }

  ghost predicate PartsValid(c: Config, h: Head) {
    && ValidSections(h) && ValidActive(h)
    && |h.sections| <= MAX_OPEN_INDEX_LEVEL && (forall i :: 0 <= i < |h.sections| ==> |h.sections[i]| < c.indexLimit)
    && RootsTile(Roots(h)) && RootCount(Roots(h)) == |Flat(h)|
    && (Roots(h) == [] <==> Flat(h) == [])
    && (Flat(h) != [] ==>
          && Roots(h)[0].Lo() == Flat(h)[0].baseLSN
          && Roots(h)[|Roots(h)|-1].Hi() == Flat(h)[|Flat(h)|-1].lastLSN)
    && (h.active != [] ==> Flat(h) != [] && Flat(h)[|Flat(h)|-1] == h.active[|h.active|-1])
  }

  lemma WellFormedParts(c: Config, h: Head)
    requires Shape(c, h) && Ordered(Flat(h), h.writerEpoch)
    ensures PartsValid(c, h)
  {
    hide SectionsGood, ValidLeaf, Run, EpochsOrdered, EpochsAtMost, RootsTile, ValidSections, ValidActive, Roots, FlatRefs, SectionRefs, RootCount;
    RootsOfRun(c, h);
    SectionsValid(c, h);
    ActiveValid(h, FlatRefs(SectionRefs(h.sections)));
  }

  /** A well-formed head passes the check that every marshal and parse makes. */
  lemma WellFormedValid(c: Config, h: Head)
    requires WellFormed(c, h)
    ensures ValidHead(h)
  {
    hide Flat, SectionsGood, ValidLeaf, Run, EpochsOrdered, EpochsAtMost, RootsTile, ValidSections, ValidActive, Roots, RootCount;
    WellFormedParts(c, h);
  }

  lemma SectionsLater(c: Config, ss: seq<seq<IndexEntry>>, epoch: nat, generation: nat, epoch': nat, generation': nat)
    requires SectionsGood(c, ss, epoch, generation) && epoch <= epoch' && generation <= generation'
    ensures SectionsGood(c, ss, epoch', generation')
  {
    forall i | 0 <= i < |ss|
      ensures LevelGood(c, ss[i], i, epoch', generation')
    {
      assert LevelGood(c, ss[i], i, epoch, generation);
      forall j | 0 <= j < |ss[i]| ensures Good(c, ss[i][j], epoch') { GoodLater(c, ss[i][j], epoch, epoch'); }
    }
  }

  // ---- Creation and takeover ----

  lemma NewHeadWellFormed(c: Config, nextLSN: nat)
    requires ValidConfig(c) && nextLSN <= MAX_RECORD_LSN
    ensures NewHead(c, nextLSN).Ok?
    ensures var h := NewHead(c, nextLSN).value;
            WellFormed(c, h) && Spacious(c, h) && Flat(h) == [] && h.generation == 0
  {
    var h := Head(c, nextLSN, nextLSN, 0, 0, 0, 0, 0, 0, 0, None, [], []);
    assert Flat(h) == [];
    WellFormedValid(c, h);
  }

  predicate TakeoverAccepts(c: Config, h: Head, writerID: nat) {
    writerID != 0 && h.config == c && h.writerEpoch < MAX_U64 && h.generation < MAX_U64
  }

  /** A takeover is refused only for an empty writer or an exhausted counter, and changes only the fence. */
  lemma TakeoverWellFormed(c: Config, h: Head, writerID: nat)
    requires WellFormed(c, h) && Spacious(c, h)
    ensures Takeover(c, h, writerID).Ok? <==> TakeoverAccepts(c, h, writerID)
    ensures Takeover(c, h, writerID).Ok? ==>
      var m := Takeover(c, h, writerID).value;
      WellFormed(c, m.head) && Spacious(c, m.head) && Flat(m.head) == Flat(h) && m.pages == []
  {
    hide ValidHead, SectionsGood, Run, EpochsOrdered, Weight, ValidLeaf;
    if TakeoverAccepts(c, h, writerID) {
      var h' := h.(writerEpoch := h.writerEpoch + 1, generation := h.generation + 1, writerID := writerID);
      SectionsLater(c, h.sections, h.writerEpoch, h.generation, h'.writerEpoch, h'.generation);
      WellFormedValid(c, h');
    }
  }

  // ---- Append ----

  /** When an append is accepted; nothing else can refuse it on a well-formed head. */
  predicate AppendAccepts(c: Config, h: Head, e: LeafEntry) {
    && h.config == c && h.generation < MAX_U64 && ValidLeaf(e) && e.lastLSN < MAX_RECORD_LSN
    && e.writerEpoch == h.writerEpoch && e.writerTag == h.writerID
    && e.baseLSN == h.nextLSN
    && (h.last.Some? ==> h.last.value.maxTS <= e.minTS)
  }

  ghost predicate Appended(h: Head, h': Head, e: LeafEntry) {
    && Flat(h') == Flat(h) + [e]
    && h' == h.(generation := h.generation + 1, nextLSN := e.lastLSN + 1, segmentCount := h.segmentCount + 1,
                reachableCount := h.reachableCount + 1,
                oldestLSN := if h.last.None? then e.baseLSN else h.oldestLSN, last := Some(e),
                active := h'.active, sections := h'.sections)
  }

  lemma OrderedAppend(f: seq<LeafEntry>, e: LeafEntry, epoch: nat)
    requires Ordered(f, epoch) && ValidLeaf(e) && e.writerEpoch == epoch
    requires f != [] ==> Follows(f[|f|-1], e)
    ensures Ordered(f + [e], epoch)
  {
    RunConcat(f, [e]);
    EpochsConcat(f, e);
  }

  lemma AppendedRun(c: Config, h: Head, e: LeafEntry)
    requires WellFormed(c, h) && AppendAccepts(c, h, e)
    ensures Ordered(Flat(h) + [e], h.writerEpoch) && Ordered(h.active + [e], h.writerEpoch)
    ensures Flat(h) + [e] == FlatRefs(SectionRefs(h.sections)) + (h.active + [e])
  {
    hide SectionsGood, ValidLeaf;
    OrderedAppend(Flat(h), e, h.writerEpoch);
    assert Flat(h) + [e] == FlatRefs(SectionRefs(h.sections)) + (h.active + [e]);
    OrderedSuffix(FlatRefs(SectionRefs(h.sections)), h.active + [e], h.writerEpoch);
  }

  /** A head that carries the appended run with the counters moved on by one segment is well formed. */
  lemma AppendedWellFormed(c: Config, h: Head, h': Head, e: LeafEntry)
    requires WellFormed(c, h) && AppendAccepts(c, h, e)
    requires Appended(h, h', e) && |h'.active| < c.leafLimit && SectionsGood(c, h'.sections, h'.writerEpoch, h'.generation)
    ensures WellFormed(c, h') && ValidHead(h')
  {
    hide SectionsGood, ValidHead, Run, EpochsOrdered, EpochsAtMost;
    AppendedRun(c, h, e);
    if Flat(h) != [] {
      assert Flat(h')[0] == Flat(h)[0];
    }
    WellFormedValid(c, h');
  }

  /** The sealing branch of Append: the full inline run becomes a leaf page pushed into the sections. */
  lemma AppendSeals(c: Config, h: Head, e: LeafEntry)
    requires WellFormed(c, h) && Spacious(c, h) && AppendAccepts(c, h, e) && |h.active| + 1 == c.leafLimit
    ensures var leaf := SealLeaf(c, h.generation + 1, h.writerEpoch, h.active + [e]);
            && leaf.Ok?
            && var pushed := Push(c, h.generation + 1, h.writerEpoch, h.sections, 1, leaf.value, [leaf.value]);
            && pushed.Ok?
            && SectionsGood(c, pushed.value.0, h.writerEpoch, h.generation + 1)
            && FlatRefs(SectionRefs(pushed.value.0)) == Flat(h) + [e]
            && Weight(c, pushed.value.0) == Weight(c, h.sections) + c.leafLimit
  {
    hide Good, SectionsGood, Weight, Push, SealLeaf, Run, EpochsOrdered, EpochsAtMost, ValidLeaf, FlatRefs, SectionRefs, HasRoom;
    AcceptedFacts(c, h, e);
    AppendedRun(c, h, e);
    SealLeafGood(c, h.generation + 1, h.writerEpoch, h.active + [e]);
    var leaf := SealLeaf(c, h.generation + 1, h.writerEpoch, h.active + [e]).value;
    SectionsLater(c, h.sections, h.writerEpoch, h.generation, h.writerEpoch, h.generation + 1);
    assert Pushable(c, h.generation + 1, h.writerEpoch, h.sections, 1, leaf);
    assert Capacity(c, 0) == c.leafLimit;
    SectionsValid(c, h);
    WeightHasRoom(c, h.sections, 1);
    PushGood(c, h.generation + 1, h.writerEpoch, h.sections, 1, leaf, [leaf]);
    PushWeight(c, h.generation + 1, h.writerEpoch, h.sections, 1, leaf, [leaf]);
  }

  /** An append is accepted exactly under AppendAccepts (so the index never fills up), keeps the head
      well formed, and adds exactly its segment at the end of the run. */
  lemma AppendWellFormed(c: Config, h: Head, e: LeafEntry)
    requires WellFormed(c, h) && Spacious(c, h)
    ensures Append(c, h, e).Ok? <==> AppendAccepts(c, h, e)
    ensures Append(c, h, e).Ok? ==>
      var h' := Append(c, h, e).value.head;
      WellFormed(c, h') && Spacious(c, h') && Appended(h, h', e)
  {
    if AppendAccepts(c, h, e) {
      AppendAccepted(c, h, e);
    } else if Append(c, h, e).Ok? {
      AppendedValid(c, h, e);
    }
  }

  lemma AppendedValid(c: Config, h: Head, e: LeafEntry)
    requires Append(c, h, e).Ok?
    ensures AppendAccepts(c, h, e) || h.generation > MAX_U64
  {
    var m := Append(c, h, e).value;
    assert m.head.last == Some(e);
    assert ValidHead(m.head);
  }

  function NextHead(h: Head, e: LeafEntry): Head {
    h.(generation := h.generation + 1, nextLSN := e.lastLSN + 1, segmentCount := h.segmentCount + 1,
       reachableCount := h.reachableCount + 1,
       oldestLSN := if h.last.None? then e.baseLSN else h.oldestLSN, last := Some(e))
  }

  lemma AppendInline(c: Config, h: Head, e: LeafEntry)
    requires WellFormed(c, h) && AppendAccepts(c, h, e) && |h.active| + 1 < c.leafLimit
    ensures var h' := NextHead(h, e).(active := h.active + [e]);
            WellFormed(c, h') && ValidHead(h') && Appended(h, h', e)
  {
    hide SectionsGood, ValidHead, ValidLeaf, Run, EpochsOrdered, EpochsAtMost;
    var h' := NextHead(h, e).(active := h.active + [e]);
    AppendedRun(c, h, e);
    SectionsLater(c, h.sections, h.writerEpoch, h.generation, h.writerEpoch, h.generation + 1);
    AppendedWellFormed(c, h, h', e);
  }

  lemma AppendSealed(c: Config, h: Head, e: LeafEntry, ss: seq<seq<IndexEntry>>)
    requires WellFormed(c, h) && AppendAccepts(c, h, e)
    requires SectionsGood(c, ss, h.writerEpoch, h.generation + 1) && FlatRefs(SectionRefs(ss)) == Flat(h) + [e]
    ensures var h' := NextHead(h, e).(active := [], sections := ss);
            WellFormed(c, h') && ValidHead(h') && Appended(h, h', e)
  {
    hide SectionsGood, ValidHead, ValidLeaf, Run, EpochsOrdered, EpochsAtMost;
    var h' := NextHead(h, e).(active := [], sections := ss);
    assert Flat(h') == FlatRefs(SectionRefs(ss));
    AppendedWellFormed(c, h, h', e);
  }

  lemma AcceptedFacts(c: Config, h: Head, e: LeafEntry)
    requires WellFormed(c, h) && AppendAccepts(c, h, e)
    ensures h.writerEpoch > 0 && |h.active| < c.leafLimit && ValidConfig(c)
  {
  }

  lemma AppendAccepted(c: Config, h: Head, e: LeafEntry)
    requires WellFormed(c, h) && Spacious(c, h) && AppendAccepts(c, h, e)
    ensures Append(c, h, e).Ok?
    ensures var h' := Append(c, h, e).value.head;
            WellFormed(c, h') && Spacious(c, h') && Appended(h, h', e)
  {
    hide WellFormed, Appended, ValidHead, ValidLeaf, SealLeaf, Push, Weight, SectionsGood, FlatRefs, SectionRefs;
    AcceptedFacts(c, h, e);
    if |h.active| + 1 == c.leafLimit {
      AppendSeals(c, h, e);
      var leaf := SealLeaf(c, h.generation + 1, h.writerEpoch, h.active + [e]).value;
      AppendSealed(c, h, e, Push(c, h.generation + 1, h.writerEpoch, h.sections, 1, leaf, [leaf]).value.0);
    } else {
      AppendInline(c, h, e);
    }
  }
}
