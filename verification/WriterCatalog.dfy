/** What the writer checks about the head a publish returns, against what the catalog's append produces. */
module WriterCatalog {
  import opened CatalogTypes
  import opened CatalogFlat
  import opened CatalogMemory
  import opened CatalogHistory
  import Tree = CatalogTree
  import Retention = CatalogRetention

  /** A head as the writer accepts any: consistent counters, and a last segment exactly when one was ever added. */
  predicate ValidatesHead(h: Head) {
    && h.writerEpoch > 0 && h.nextLSN >= h.oldestLSN && h.reachableCount <= h.segmentCount
    && (h.last.None? ==> h.segmentCount == 0 && h.reachableCount == 0)
    && (h.last.Some? ==> h.segmentCount > 0 && ValidLeaf(h.last.value) && h.nextLSN == h.last.value.lastLSN + 1)
  }

  /** The writer's check of a published snapshot against the one before and the segment it sent. */
  predicate ValidatesPublish(current: Head, next: Head, e: LeafEntry) {
    && ValidatesHead(next)
    && e.baseLSN == current.nextLSN && current.segmentCount != MAX_U64
    && next.config == current.config && next.writerEpoch == current.writerEpoch && next.writerID == current.writerID
    && next.segmentCount == current.segmentCount + 1 && next.reachableCount == current.reachableCount + 1
    && next.oldestLSN == current.oldestLSN && next.retentionLSN == current.retentionLSN && next.retentionVersion == current.retentionVersion
    && next.last == Some(e) && next.nextLSN == e.lastLSN + 1
  }

  /** The check passes for the head that appending this segment produces. */
  lemma PublishAccepted(c: Config, current: Head, e: LeafEntry)
    requires Sound(c, current) && TreeStep(c, current, AppendStep(e)).Ok? && current.segmentCount < MAX_U64
    ensures ValidatesPublish(current, TreeStep(c, current, AppendStep(e)).value.head, e)
  {
    hide Tree.Append, Tree.Spacious, FlatRefs, SectionRefs, EpochsOrdered, EpochsAtMost;
    Tree.AppendWellFormed(c, current, e);
  }

  /** Each step raises exactly one of three counters. */
  lemma StepCounts(c: Config, h: Head, s: Step, h': Head)
    requires Sound(c, h) && Advances(c, h, s, h')
    ensures h'.writerEpoch == h.writerEpoch + (if s.TakeoverStep? then 1 else 0)
    ensures h'.segmentCount == h.segmentCount + (if s.AppendStep? then 1 else 0)
    ensures if s.RetainStep? then h'.retentionVersion > h.retentionVersion else h'.retentionVersion == h.retentionVersion
    ensures s.AppendStep? ==> h'.last == Some(s.entry)
  {
    hide Tree.Append, Tree.Spacious, FlatRefs, SectionRefs, EpochsOrdered, EpochsAtMost, Retention.ApplyRetention;
    match s
    case TakeoverStep(w) => Tree.TakeoverWellFormed(c, h, w);
    case AppendStep(e) => Tree.AppendWellFormed(c, h, e);
    case RetainStep(b, v) =>
      if v == h.retentionVersion && b == h.retentionLSN {
        SameGeneration(c, h, b, v);
      } else {
        Retention.ApplyRetentionRefines(c, WholeStore(), h, b, v);
      }
  }

  ghost function Progress(h: Head): nat { h.writerEpoch + h.segmentCount + h.retentionVersion }

  lemma {:induction false} ChainProgress(c: Config, hs: seq<Head>, steps: seq<Step>, i: nat, j: nat)
    requires Chain(c, hs, steps) && i <= j < |hs|
    ensures Progress(hs[j]) >= Progress(hs[i]) + (j - i)
    decreases j
  {
    hide TreeStep, Sound;
    if i < j {
      ChainProgress(c, hs, steps, i, j - 1);
      ChainSound(c, hs, steps, j - 1);
      assert Advances(c, hs[j-1], steps[j-1], hs[j]);
      StepCounts(c, hs[j-1], steps[j-1], hs[j]);
    }
  }

  /** Among durable heads the check singles out one: the head this very append produced from the head before. A head
      that also reflects a takeover, a retention or another segment is refused. */
  lemma PublishExact(c: Config, hs: seq<Head>, steps: seq<Step>, i: nat, j: nat, e: LeafEntry)
    requires Chain(c, hs, steps) && i <= j < |hs| && ValidatesPublish(hs[i], hs[j], e)
    ensures j == i + 1 && steps[i] == AppendStep(e)
  {
    hide TreeStep, Sound;
    ChainProgress(c, hs, steps, i, j);
    ChainSound(c, hs, steps, i);
    assert Advances(c, hs[i], steps[i], hs[i+1]);
    StepCounts(c, hs[i], steps[i], hs[i+1]);
  }
}
