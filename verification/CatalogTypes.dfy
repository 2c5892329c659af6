/** Entities of the blob catalog: segments, index entries, pages and heads, with
    the checks the codec runs whenever it marshals or parses one of them. */
module CatalogTypes {

  const MAX_U64: nat := 0xFFFF_FFFF_FFFF_FFFF
  const MAX_U32: nat := 0xFFFF_FFFF
  const RESERVED_LSN: nat := MAX_U64
  const MAX_RECORD_LSN: nat := MAX_U64 - 1
  const MAX_LEAF_ENTRIES: nat := 1024
  const MAX_INDEX_ENTRIES: nat := 1024
  const MAX_INDEX_LEVEL: nat := 63
  const MAX_OPEN_INDEX_LEVEL: nat := 64

  datatype Option<+T> = None | Some(value: T)

  datatype Error =
    | InvalidRequest | InvalidObject | Conflict | StaleWriter | FenceExhausted | GenerationExhausted
    | TimestampOrder | IndexFull | RetentionRegression | Identity | NotFound | Corrupt | CommitIndeterminate

  datatype Result<+T> = Ok(value: T) | Err(error: Error) {
    predicate IsFailure() { Err? }
    function PropagateFailure<U>(): Result<U> requires Err? { Err(error) }
    function Extract(): T requires Ok? { value }
  }

  /** What a head and a configuration must agree on. */
  datatype Config = Config(partition: nat, streamKey: nat, dataRootKey: nat, hashAlgo: nat, leafLimit: nat, indexLimit: nat)

  predicate KnownHash(algo: nat) { algo <= 1 }
  predicate KnownCodec(codec: nat) { codec <= 1 }

  predicate ValidConfig(c: Config) {
    && c.streamKey != 0 && c.dataRootKey != 0 && KnownHash(c.hashAlgo)
    && 1 <= c.leafLimit <= MAX_LEAF_ENTRIES
    && 2 <= c.indexLimit <= MAX_INDEX_ENTRIES
  }

  datatype Detail = Detail(recordCount: nat, blockCount: nat, sizeBytes: nat, blockIndexOffset: nat,
                           blockIndexLength: nat, codec: nat, hashAlgo: nat, segmentHash: nat, trailerHash: nat)

  /** One committed segment. Identifiers of 16 bytes are numbers, zero being the empty one. */
  datatype LeafEntry = LeafEntry(baseLSN: nat, lastLSN: nat, minTS: int, maxTS: int,
                                 writerEpoch: nat, uuid: nat, writerTag: nat, detail: Detail)

  predicate ValidLeaf(e: LeafEntry) {
    && e.baseLSN <= e.lastLSN <= MAX_RECORD_LSN
    && e.detail.recordCount == e.lastLSN - e.baseLSN + 1 <= MAX_U32
    && e.minTS <= e.maxTS
    && e.detail.blockCount != 0 && e.detail.sizeBytes != 0 && e.detail.blockIndexLength != 0
    && KnownCodec(e.detail.codec) && KnownHash(e.detail.hashAlgo)
    && 0 < e.writerEpoch <= MAX_U64 && e.uuid != 0 && e.writerTag != 0
  }

  /** A page ID is the hash of the page's bytes, taken to be collision free: equal IDs mean equal pages. */
  datatype PageID = PageID(page: Page)

  datatype IndexEntry = IndexEntry(level: nat, entryCount: nat, seqLo: nat, seqHi: nat, minTS: int, maxTS: int,
                                   generation: nat, id: PageID, segmentCount: nat)

  datatype PageHeader = PageHeader(partition: nat, streamKey: nat, hashAlgo: nat, level: nat, entryCount: nat,
                                   seqLo: nat, seqHi: nat, minTS: int, maxTS: int,
                                   generation: nat, writerEpoch: nat, segmentCount: nat)

  datatype Page =
    | LeafPage(header: PageHeader, leaves: seq<LeafEntry>)
    | IndexPage(header: PageHeader, refs: seq<IndexEntry>)

  /** The object key of a page; the key text holds exactly these fields. */
  datatype PageKey = PageKey(level: nat, seqHi: nat, seqLo: nat, generation: nat, id: PageID)

  function KeyOf(r: IndexEntry): PageKey { PageKey(r.level, r.seqHi, r.seqLo, r.generation, r.id) }

  /** What the object store answered for each key while a call ran; nothing is assumed of it. */
  type PageSource = PageKey -> Option<Page>

  predicate ValidRef(r: IndexEntry) {
    && r.level <= MAX_INDEX_LEVEL
    && r.seqLo <= r.seqHi <= MAX_RECORD_LSN
    && r.minTS <= r.maxTS
    && 0 < r.entryCount <= (if r.level == 0 then MAX_LEAF_ENTRIES else MAX_INDEX_ENTRIES)
    && r.generation != 0
    && r.entryCount <= r.segmentCount
    && (r.level == 0 ==> r.segmentCount == r.entryCount)
    && r.segmentCount <= r.seqHi - r.seqLo + 1
  }

  /** Neighbouring segments: consecutive LSNs and timestamps that do not go back. */
  predicate Follows(a: LeafEntry, b: LeafEntry) { b.baseLSN == a.lastLSN + 1 && a.maxTS <= b.minTS }

  predicate RefFollows(a: IndexEntry, b: IndexEntry) { b.seqLo == a.seqHi + 1 && a.maxTS <= b.minTS }

  function SumCounts(refs: seq<IndexEntry>): nat {
    if refs == [] then 0 else refs[0].segmentCount + SumCounts(refs[1..])
  }

  predicate ValidCommon(h: PageHeader) {
    KnownHash(h.hashAlgo) && h.generation != 0 && h.writerEpoch != 0 && h.streamKey != 0
  }

  predicate ValidLeafPage(h: PageHeader, es: seq<LeafEntry>) {
    && ValidCommon(h) && h.level == 0
    && 0 < |es| <= MAX_LEAF_ENTRIES
    && h.entryCount == |es| == h.segmentCount
    && (forall i :: 0 <= i < |es| ==> ValidLeaf(es[i]))
    && (forall i, j :: 0 <= i < |es| && i < j < |es| && j == i + 1 ==> Follows(es[i], es[j]) && es[i].writerEpoch <= es[j].writerEpoch)
    && h.seqLo == es[0].baseLSN && h.seqHi == es[|es|-1].lastLSN
    && h.minTS == es[0].minTS && h.maxTS == es[|es|-1].maxTS
    && es[|es|-1].writerEpoch <= h.writerEpoch
  }

  predicate ValidIndexPage(h: PageHeader, rs: seq<IndexEntry>) {
    && ValidCommon(h) && 0 < h.level <= MAX_INDEX_LEVEL
    && 0 < |rs| <= MAX_INDEX_ENTRIES
    && h.entryCount == |rs|
    && (forall i :: 0 <= i < |rs| ==> ValidRef(rs[i]) && rs[i].level + 1 == h.level && rs[i].generation <= h.generation)
    && (forall i, j :: 0 <= i < |rs| && i < j < |rs| && j == i + 1 ==> RefFollows(rs[i], rs[j]))
    && h.segmentCount == SumCounts(rs) <= MAX_U64
    && h.seqLo == rs[0].seqLo && h.seqHi == rs[|rs|-1].seqHi
    && h.minTS == rs[0].minTS && h.maxTS == rs[|rs|-1].maxTS
  }

  predicate ValidPage(p: Page) {
    match p
    case LeafPage(h, es) => ValidLeafPage(h, es)
    case IndexPage(h, rs) => ValidIndexPage(h, rs)
  }

  predicate MatchesRef(c: Config, h: PageHeader, r: IndexEntry) {
    && h.partition == c.partition && h.streamKey == c.streamKey && h.level == r.level && h.entryCount == r.entryCount
    && h.seqLo == r.seqLo && h.seqHi == r.seqHi && h.minTS == r.minTS && h.maxTS == r.maxTS
    && h.generation == r.generation && h.segmentCount == r.segmentCount
  }

  /** A load of r succeeds exactly when the stored object parses, hashes to r's ID and agrees with r. */
  function Load(c: Config, src: PageSource, r: IndexEntry, maxEpoch: nat): (res: Result<Page>)
    ensures res.Ok? ==> res.value == r.id.page && ValidPage(res.value) && MatchesRef(c, res.value.header, r)
                        && res.value.header.writerEpoch <= maxEpoch && (r.level == 0 <==> res.value.LeafPage?)
  {
    match src(KeyOf(r))
    case None => Err(NotFound)
    case Some(p) =>
      if (r.level == 0) != p.LeafPage? || !ValidPage(p) then Err(Corrupt)
      else if PageID(p) != r.id || p.header.writerEpoch > maxEpoch || !MatchesRef(c, p.header, r) then Err(Corrupt)
      else Ok(p)
  }

  /** The partition head. Sections are held lowest level first: sections[i] refers to pages of level i. */
  datatype Head = Head(config: Config, nextLSN: nat, oldestLSN: nat, retentionLSN: nat, retentionVersion: nat,
                       writerEpoch: nat, writerID: nat, generation: nat, segmentCount: nat, reachableCount: nat,
                       last: Option<LeafEntry>, active: seq<LeafEntry>, sections: seq<seq<IndexEntry>>)

  /** A proposed next head with the page objects that must be stored before it. */
  datatype Mutation = Mutation(head: Head, pages: seq<IndexEntry>)

  /** What a head points at directly: a page or an inline segment. */
  datatype Root = PageRoot(ref: IndexEntry) | LeafRoot(leaf: LeafEntry) {
    function Lo(): nat { if PageRoot? then ref.seqLo else leaf.baseLSN }
    function Hi(): nat { if PageRoot? then ref.seqHi else leaf.lastLSN }
    function MinTS(): int { if PageRoot? then ref.minTS else leaf.minTS }
    function MaxTS(): int { if PageRoot? then ref.maxTS else leaf.maxTS }
    function Count(): nat { if PageRoot? then ref.segmentCount else 1 }
  }

  function RefRoots(refs: seq<IndexEntry>): (r: seq<Root>)
    ensures |r| == |refs| && forall i :: 0 <= i < |refs| ==> r[i] == PageRoot(refs[i])
  {
    seq(|refs|, i requires 0 <= i < |refs| => PageRoot(refs[i]))
  }

  function LeafRoots(leaves: seq<LeafEntry>): (r: seq<Root>)
    ensures |r| == |leaves| && forall i :: 0 <= i < |leaves| ==> r[i] == LeafRoot(leaves[i])
  {
    seq(|leaves|, i requires 0 <= i < |leaves| => LeafRoot(leaves[i]))
  }

  /** Highest section first: it covers the oldest LSNs. */
  function SectionRefs(sections: seq<seq<IndexEntry>>): seq<IndexEntry> {
    if sections == [] then [] else sections[|sections|-1] + SectionRefs(sections[..|sections|-1])
  }

  function Roots(h: Head): seq<Root> { RefRoots(SectionRefs(h.sections)) + LeafRoots(h.active) }

  function RootCount(roots: seq<Root>): nat {
    if roots == [] then 0 else roots[0].Count() + RootCount(roots[1..])
  }

  predicate ValidSections(h: Head) {
    forall i, j :: 0 <= i < |h.sections| && 0 <= j < |h.sections[i]| ==>
      ValidRef(h.sections[i][j]) && h.sections[i][j].level == i && h.sections[i][j].generation <= h.generation
  }

  predicate ValidActive(h: Head) {
    && (forall i :: 0 <= i < |h.active| ==> ValidLeaf(h.active[i]) && h.active[i].writerEpoch <= h.writerEpoch)
    && (forall i, j :: 0 <= i < |h.active| && i < j < |h.active| && j == i + 1 ==> h.active[i].writerEpoch <= h.active[j].writerEpoch)
  }

  predicate RootsTile(roots: seq<Root>) {
    forall i, j :: 0 <= i < |roots| && i < j < |roots| && j == i + 1 ==>
      roots[j].Lo() == roots[i].Hi() + 1 && roots[i].MaxTS() <= roots[j].MinTS()
  }

  /** The whole-head check run on every marshal and parse. */
  predicate ValidHead(h: Head) {
    && ValidConfig(h.config)
    && |h.active| < h.config.leafLimit
    && |h.sections| <= MAX_OPEN_INDEX_LEVEL
    && (forall i :: 0 <= i < |h.sections| ==> |h.sections[i]| < h.config.indexLimit)
    && h.oldestLSN <= h.nextLSN <= RESERVED_LSN && h.retentionLSN <= h.nextLSN
    && (h.retentionVersion == 0 ==> h.retentionLSN == 0)
    && (h.writerEpoch == 0 <==> h.writerID == 0)
    && h.reachableCount <= h.segmentCount
    && ValidSections(h) && ValidActive(h)
    && var roots := Roots(h);
    match h.last
    case None =>
      h.oldestLSN == h.nextLSN && h.segmentCount == 0 && h.reachableCount == 0 && roots == []
    case Some(l) =>
      && ValidLeaf(l) && l.writerEpoch <= h.writerEpoch && h.segmentCount != 0
      && l.lastLSN != MAX_RECORD_LSN && l.lastLSN + 1 == h.nextLSN
      && if roots == [] then h.oldestLSN == h.nextLSN && h.reachableCount == 0
         else
           && roots[|roots|-1].Hi() == l.lastLSN
           && (h.active != [] ==> h.active[|h.active|-1] == l)
           && roots[0].Lo() == h.oldestLSN
           && RootsTile(roots)
           && h.reachableCount == RootCount(roots)
  }
}
