# objlog: a model of the log's guarantees

objlog keeps an append-only log in object storage without a broker. This project models the code that makes that
safe and proves what it promises, for every input, every run and every interleaving the model allows:

1. **The catalog tree.** A partition head with an inline run of segments and open index sections, sealed into
   immutable pages that carry upwards. Heads and pages are values; `Flat` is the run of segments they stand for. The
   in-memory catalog is the flat reference the tree refines (`Catalog*.dfy`).
2. **Fencing and commits.** Any number of writer sessions share one head object through compare-and-swap, with
   replies that get lost and writes that land late. A state machine whose steps are single network interactions
   (`Protocol*.dfy`).
3. **Garbage collection.** Sweeps and scrubs of any number of reclaimers, beside any number of writers: what is
   deleted, what a checkpoint means, and how floors move (`Gc*.dfy`, `Reclaim.dfy`, `Sweep*.dfy`, `KeyLayout.dfy`).
4. **The writer pipeline.** Cutting, finalizing and publishing segments under a budget (`Writer*.dfy`).
5. **Segments.** The record codec, block cutting and out-of-order sealing, and reading back (`RawBlock.dfy`,
   `Segment*.dfy`).
6. **Bounded structures and replay.** The whole-segment cache, the ordered multipart stream, and the replay cursor
   (`WholeCache.dfy`, `UploadStream.dfy`, `Cursor.dfy`).

The parts connect: garbage collection and the cursor are stated over the protocol's histories of durable heads, which
are made of the tree's mutations; the writer's budget estimate is tied to the segment writer's object size; the
cursor reads what the segment reader returns.

How things are represented:

- Code that updates state in place is a class whose methods are single critical sections, proved against
  specification functions or invariants; `Drive` methods run any sequence of them. The catalog engine's sessions,
  whose loops wait for the network, are steps of a state machine on values instead.
- The network, other processes, clocks and cancellation are arguments: oracles, lists of outcomes, or arbitrary
  sequences of events. Nothing is assumed of what a store returns unless a contract says so.
- A page ID stands for a collision-free content hash and holds the page itself. Compression and hashing are
  arbitrary functions with the one law that decoding undoes encoding.
- Numbers are unbounded, with the 64-bit and 32-bit limits, saturation and wrap-around of the source written out.

Where the code is not what one might expect, the model follows the code:

- The two catalogs differ. The in-memory one refuses a segment ID that is still in the log and takes a segment that
  ends at the last record LSN; the tree does neither, and also refuses on exhausted counters.
  `CatalogMemory.StepRefines` and `CatalogHistory.RunRefines` state exactly when they agree, with
  `CatalogHistory.RepeatedID` and `CatalogHistory.LastLSN` as concrete differences.
- The deletion delay of the garbage collector counts from the clock reading at the start of a pass, which is taken
  before the head is loaded. `GcWorkers.ShortDelay` is a run in which a floor is safe the moment its head is loaded;
  `GcWorkers.DelayFromLoad` bounds the shortfall by the time between the two.
- Looking at the head once more before deleting never finds it below the floor, and a page in quarantine is never found
  reachable again: both checks are redundant (`GcWorkers.RecheckNeverFails`, `GcWorkers.QuarantineHolds`).
- A page watermark speaks only of the levels known while it moved. Pages of a level that no head showed yet stay behind
  it (`SweepRuns.UnknownLevel`) and are never asked for by a sweep (`SweepRuns.AskedKnown`); those of levels seen do not
  (`SweepRuns.SeenIsGone`).
- The usage guide says that records are visible after a successful `Close`. A record accepted while the close drains is
  not (`WriterPipeline.SlippedRecord`); `WriterPipeline.Close` states which ones are, and exactly when all are.

## Model

| member | source | states |
|---|---|---|
| CatalogTree.NewHeadWellFormed | internal/catalog/blob/internal/catengine/tree.go:28-45 | A new head is accepted for every start LSN a record may have, is well formed and flattens to no segments. |
| CatalogTree.TakeoverWellFormed | internal/catalog/blob/internal/catengine/tree.go:47-69 | A takeover of a well-formed head succeeds exactly when the writer is named and neither epoch nor generation is exhausted; it writes no page, keeps the flattened run and the head well formed. |
| CatalogTree.AppendWellFormed | internal/catalog/blob/internal/catengine/tree.go:71-128 | An append to a well-formed head succeeds exactly when the segment continues the log under the current fence; the index never runs full. The new head is well formed, its run is the old one plus the segment, and only the counters named change. |
| CatalogTree.SealLeafGood | internal/catalog/blob/internal/catengine/tree.go:154-188 | Sealing a full inline run always succeeds and gives a reference whose page passes every check a later load makes, with exactly those segments beneath. |
| CatalogTree.SealIndexGood | internal/catalog/blob/internal/catengine/tree.go:190-233 | Sealing a full section gives a reference one level up with the same segments beneath it, page epochs not increasing downwards. |
| CatalogTree.PushGood | internal/catalog/blob/internal/catengine/tree.go:130-152 | The carry through any number of levels succeeds whenever there is room, keeps every section below the index limit with references of exactly the level beneath, and appends the pushed segments to the flattened run. |
| CatalogTree.PushWeight | internal/catalog/blob/internal/catengine/tree.go:130-152 | A push adds exactly the weight of one reference of its level, as incrementing a base-k counter does. |
| CatalogTree.TopCapacity | internal/catalog/blob/internal/catengine/tree.go:130-152 | A full top section would stand for more than 2^64 segments, for every index limit the configuration allows. |
| CatalogTree.WeightHasRoom | internal/catalog/blob/internal/catengine/tree.go:139-152 | A head whose weight is bounded by its 64-bit segment count has room for the carry at every level, so the index-full error cannot occur. |
| CatalogTree.WellFormedValid | internal/catalog/blob/internal/catengine/tree.go:235-246 | A well-formed head passes the codec checks: sections tile, counts agree, ranges and timestamps are ordered. |
| CatalogEditor.HeadEditor.Push | internal/catalog/blob/internal/catengine/tree.go:130-152 | The push that edits sections and page list in place does what the recursive specification says, and fails where it fails. |
| CatalogRetention.ApplyRetentionRefines | internal/catalog/blob/internal/catengine/retention.go:14-91 | On a well-formed head a new policy succeeds only if it is newer and not below the one in force, and does succeed then if the pages can be read. The result keeps exactly the segments that end at or after the target, is well formed, and its oldest LSN is the first kept base or the end. |
| CatalogRetention.TrimHeadGood | internal/catalog/blob/internal/catengine/retention.go:93-128 | Trimming all sections and the inline run keeps exactly the suffix from the boundary and the shape of the head; it can fail only for an unreadable page. |
| CatalogRetention.TrimSectionsGood | internal/catalog/blob/internal/catengine/retention.go:98-121 | Trimming the open sections keeps exactly the suffix and sound sections of the same levels, none larger than before; it can fail only for an unreadable page. |
| CatalogRetention.TrimRefGood | internal/catalog/blob/internal/catengine/retention.go:130-180 | The recursive left-spine rewrite of one page yields a reference of the same level whose flattened run is the kept suffix; no check on a loaded or rewritten page fails. |
| CatalogRetention.CountReachable | internal/catalog/blob/internal/catengine/retention.go:182-196 | The count over the head roots equals the length of the flattened run. |
| CatalogRetention.ReapplyIsIdentity | internal/catalog/blob/internal/catengine/retention.go:30-36 | Applying the policy in force again returns the head unchanged and no pages. |
| CatalogEditor.HeadEditor.TrimHead | internal/catalog/blob/internal/catengine/retention.go:93-128 | The trim that edits a cloned head in place does what the specification says. |
| CatalogEditor.ReachableSegmentCount | internal/catalog/blob/internal/catengine/retention.go:182-196 | The counting loop returns the length of the flattened run without overflow. |
| CatalogReader.Search | internal/catalog/blob/internal/catengine/reader.go:62-71 | The binary search returns the first position whose key is not below the argument. |
| CatalogReader.HeadSearchable | internal/catalog/blob/internal/catengine/reader.go:385-403 | The root keys of a well-formed head ascend, by LSN and by timestamp, so a binary search over them finds the least index. |
| CatalogReader.PageSearchable | internal/catalog/blob/internal/catengine/reader.go:196-240 | The same inside every page that passes its checks. |
| CatalogReader.FindFlatMeaning | internal/catalog/memory.go:331-351 | On a run, the flat search returns the one segment that contains the LSN, and none when no segment does. |
| CatalogReader.FindSegmentRefines | internal/catalog/blob/internal/catengine/reader.go:52-71 | Whatever the store holds, a successful lookup through roots and page levels equals the flat search; it succeeds if the reachable pages are stored. |
| CatalogReader.LookupTimestampRefines | internal/catalog/blob/internal/catengine/reader.go:73-92 | A successful timestamp lookup equals the first segment of the flattened run whose maximum reaches the timestamp; it succeeds if the pages are stored. |
| CatalogReader.FindInPageSound | internal/catalog/blob/internal/catengine/reader.go:196-217 | The recursive descent into a page finds what the flat search finds in the segments beneath it. |
| CatalogReader.TimeInPageSound | internal/catalog/blob/internal/catengine/reader.go:219-240 | The recursive timestamp descent finds what the flat search finds. |
| CatalogListing.HeadRoots | internal/catalog/blob/internal/catengine/reader.go:385-403 | The loops over sections and inline segments produce the roots in log order. |
| CatalogListing.ListSegments | internal/catalog/blob/internal/catengine/reader.go:94-123 | A listing is exactly the bounded slice of the flattened run from the first segment that reaches the LSN, with its continuation; it succeeds if the pages are stored; a foreign head is refused. |
| CatalogListing.CollectPage | internal/catalog/blob/internal/catengine/reader.go:242-268 | The pruned recursive walk of a page feeds the collector as feeding it the whole flattened page would, and ends because levels fall. |
| CatalogListing.Collector.Add | internal/catalog/blob/internal/catengine/reader.go:405-417 | Adding an item moves the collector as one step of the bounded listing does. |
| CatalogListing.FeedIsSlice | internal/catalog/blob/internal/catengine/reader.go:405-419 | Feeding an ordered list to a collector gives an index slice: the items from the first that reaches the start, at most the limit, and the base of the next one. |
| CatalogListing.SliceContinues | internal/catalog/blob/internal/catengine/reader.go:94-123 | The next page starts where this one ended: pages concatenate to the whole suffix without gap or repetition. |
| CatalogListing.ListPagePaths | internal/catalog/blob/internal/catengine/reader.go:129-157 | A page listing is exactly the slice of the reachable pages of that level in log order; it succeeds if the pages are stored; levels out of range and foreign heads are refused. |
| CatalogListing.CollectPagePath | internal/catalog/blob/internal/catengine/reader.go:270-289 | The pruned walk for one level feeds the collector all pages of that level beneath the reference. |
| CatalogListing.IsPageReachableExact | internal/catalog/blob/internal/catengine/reader.go:159-179 | The range-pruned reachability test agrees with membership in the full list of pages of that level, for every key, and fails only for an unreadable page. |
| CatalogListing.PageReachableSound | internal/catalog/blob/internal/catengine/reader.go:291-312 | Pruning by range loses no page: the recursive test agrees with the list of pages beneath the reference. |
| CatalogMemory.MemoryPartition.AcquireWriter | internal/catalog/memory.go:109-128 | Taking the fence raises the epoch by one and records the writer; an empty writer changes nothing. |
| CatalogMemory.MemoryPartition.AppendSegment | internal/catalog/memory.go:264-329 | The in-place append changes the partition if and only if the request is in order of itself, its writer and epoch are those of the last takeover, it is for the end of the log and not earlier in time, and the segment ID is not in use; then exactly that segment is added. Otherwise nothing changes and it succeeds exactly for a segment already held. It reports a stale writer exactly when the fence is the first thing wrong. |
| CatalogMemory.AppendDecided | internal/catalog/memory.go:264-313 | For every partition and request, exactly when an append adds, repeats or is fenced off. |
| CatalogMemory.MemoryPartition.ApplyPendingRetention | internal/catalog/memory.go:219-262 | The in-place trim gives the specified view; the partition changes if and only if the caller holds the fence and the request is newer and does not go back, and the caller is told it is stale exactly when it does not hold the fence. |
| CatalogMemory.MemoryPartition.FindSegment | internal/catalog/memory.go:331-351 | The lookup equals the flat search. |
| CatalogMemory.MemoryPartition.LookupTimestamp | internal/catalog/memory.go:353-374 | The timestamp lookup equals the flat search. |
| CatalogMemory.MemoryPartition.ListSegments | internal/catalog/memory.go:376-404 | The flat listing is the same slice the tree listing returns. |
| CatalogMemory.TakeoverRefines | internal/catalog/blob/internal/catengine/tree.go:47-69 | Tree and list agree on a takeover exactly unless a counter is exhausted. |
| CatalogMemory.AppendRefines | internal/catalog/blob/internal/catengine/tree.go:71-128 | Tree and list agree on an append exactly unless a fitting segment repeats an ID still in the log, or ends at the last LSN or exhausted generation with a new one. |
| CatalogMemory.RetainRefines | internal/catalog/blob/internal/catengine/retention.go:14-91 | Tree and list agree on a retention exactly unless the policy in force is applied again or the generation is exhausted. |
| CatalogMemory.StepRefines | internal/catalog/memory.go:219-329 | Tree refines list, one step: for every sound head and step, both refuse it or both accept it with the new tree meaning the new list, if and only if the step is not one of the named differences. |
| CatalogReach.ReachOfHead | internal/catalog/blob/internal/catengine/reader.go:129-179 | The set of page keys reachable from a head is exactly what listing its levels yields. |
| CatalogReach.ReachHeadBounds | internal/catalog/blob/internal/catengine/tree.go:190-233 | Every reachable page lies within the oldest and next LSN and has a generation no newer than the head. |
| CatalogReach.AppendReach | internal/catalog/blob/internal/catengine/tree.go:71-128 | Pages reachable after an append were reachable before or are among those it wrote, all of its own generation. |
| CatalogReach.RetentionReach | internal/catalog/blob/internal/catengine/retention.go:14-91 | Pages reachable after a retention were reachable before or are among those it wrote, all of its own generation. |
| CatalogReach.HeadStoredByKeys | internal/catalog/blob/internal/catengine/reader.go:314-357 | A store that holds the reachable keys with the content their IDs name answers every load of the tree. |
| CatalogHistory.RetentionWhole | internal/catalog/blob/internal/catengine/retention.go:14-91 | A retention that succeeds gives the same mutation over whatever store it read. |
| CatalogHistory.StepAdvances | internal/catalog/blob/internal/catengine/tree.go:47-128 | Every accepted mutation keeps heads sound, moves no bound back, adds at most its own segment at the end under the current fence, and adds only pages of its own generation. |
| CatalogHistory.ChainSound | internal/catalog/blob/internal/catengine/tree.go:28-128 | In any history every head is sound and its generation is its position. |
| CatalogHistory.ChainMonotone | internal/catalog/blob/internal/catengine/tree.go:47-128 | Over any history NextLSN, OldestLSN, epoch and applied retention never go back. |
| CatalogHistory.ChainSegments | internal/catalog/blob/internal/catengine/tree.go:71-128 | A segment of a later head was in the earlier one or was appended since, past its end and under a fence no older. |
| CatalogHistory.ChainKeeps | internal/catalog/blob/internal/catengine/retention.go:14-91 | A segment once in the log is in a later head exactly when its base is not below the oldest LSN there. |
| CatalogHistory.ChainPages | internal/catalog/blob/internal/catengine/retention.go:93-180 | A page reachable from a later head was reachable from the earlier one or has a newer generation. |
| CatalogHistory.AppendOnce | internal/catalog/blob/internal/catengine/tree.go:71-128 | No segment is appended twice in a history, and each under the fence of its own epoch at its base LSN. |
| CatalogHistory.RunRefines | internal/catalog/memory.go:219-329 | Tree refines list over whole runs: after any history the in-memory catalog given the same steps holds exactly the flattened tree with the same bounds and counts, if and only if no step repeats a segment ID still in the log. |
| CatalogHistory.RepeatedID | internal/catalog/memory.go:442-452 | A concrete difference: a sound head and an append with a repeated segment ID that the tree takes and the list refuses. |
| CatalogHistory.LastLSN | internal/catalog/blob/internal/catengine/tree.go:71-128 | A concrete difference: a segment ending at the last record LSN that the list takes and the tree refuses. |
| Protocol.LandedGrows | internal/catalog/blob/internal/catengine/engine.go:714-785 | A conditional write that lands, at once or late, extends the history by exactly the mutation it carries or changes nothing. |
| Protocol.JudgeInv | internal/catalog/blob/internal/catengine/engine.go:738-785 | Deciding a commit from a head that is not its own acknowledges only what the history holds. |
| Protocol.LoadResolvingInv | internal/catalog/blob/internal/catengine/engine.go:569-609 | Resolving an unresolved retention from a fresh head keeps the invariant in every branch: applied, superseded, or tried again. |
| Protocol.ReplyOpenInv | internal/catalog/blob/internal/catengine/engine.go:233-289 | Every reply to a takeover, won, lost, repeated or found already landed, keeps the invariant. |
| Protocol.ReplyCommitInv | internal/catalog/blob/internal/catengine/engine.go:714-785 | Every reply to a commit keeps the invariant, also when the swap landed earlier without its reply. |
| Protocol.NextInv | internal/catalog/blob/internal/catengine/engine.go:233-797 | Every step of every session and of the store keeps the invariant. |
| Protocol.RunInv | internal/catalog/blob/internal/catengine/engine.go:233-797 | The invariant holds in every state any run of any number of sessions can reach, with lost replies and requests that land late. |
| ProtocolSafety.OneHistory | internal/catalog/blob/internal/catengine/engine.go:692-797 | In every run the durable heads form one chain, a fresh head then one accepted mutation per generation; all are sound and bounds, epoch and applied retention never go back. |
| ProtocolSafety.NoSupersededAppend | internal/catalog/blob/internal/catengine/engine.go:233-289 | After a durable takeover no segment of an epoch it superseded is ever added. |
| ProtocolSafety.ReadersFindPages | internal/catalog/blob/internal/catengine/engine.go:683-690 | Pages are stored before the head that names them: a lookup in the durable head through a store that keeps what was put succeeds and equals the flat search. |
| ProtocolSafety.AcknowledgedOnce | internal/catalog/blob/internal/catengine/engine.go:456-521 | A segment reported as appended was added exactly once in the durable history, at its base LSN and under its own epoch, and some caller offered it. |
| ProtocolSafety.AcknowledgedFound | internal/catalog/blob/internal/catengine/engine.go:456-521 | An acknowledged segment is found by its base LSN in the durable head if and only if the oldest LSN has not passed it. |
| ProtocolSafety.AcknowledgedStays | internal/catalog/blob/internal/catengine/engine.go:456-521 | That holds at every later time of the run, whatever other sessions, lost replies, retentions and takeovers follow. |
| ProtocolSafety.OnlyOffered | internal/catalog/blob/internal/catengine/engine.go:456-521 | Only segments some caller offered ever become part of the log. |
| ProtocolSafety.RetentionStays | internal/catalog/blob/internal/catengine/engine.go:523-671 | A retention reported as applied stays applied in every later durable head. |
| Protocol.AlreadyInForce | internal/catalog/blob/internal/catengine/engine.go:645-659 | A retention that makes no new head is acknowledged only because a durable head already has it in force. |
| ProtocolSafety.RunContinues | internal/catalog/blob/internal/catengine/engine.go:692-797 | Runs only extend history, acknowledgements and stored pages. |
| ProtocolFence.RunFenced | internal/catalog/blob/internal/catengine/engine.go:692-797 | In every run every open session holds a fence of its owner that was durable, works only on heads of that fence, and has nothing under way once it has seen another; every request in flight carries the fence it was sent under. |
| ProtocolFence.OpenedForOwner | internal/catalog/blob/internal/catengine/engine.go:233-289 | A session handed out by an open is that of the writer who asked: its writer is the owner, and its epoch was begun by a takeover step of that very writer in the durable history. |
| ProtocolFence.OwnerKept | internal/catalog/blob/internal/catengine/engine.go:233-289 | The owner of a session is set by its open and changed by nothing else. |
| ProtocolFence.OwnerAsked | internal/catalog/blob/internal/catengine/engine.go:233-289 | So in every run the owner of a session is a writer for whom its slot was opened. |
| ProtocolFence.FencesApart | internal/catalog/blob/internal/catengine/engine.go:233-289 | Sessions opened for distinct writers never share an epoch. |
| ProtocolFence.StepsAuthored | internal/catalog/blob/internal/catengine/engine.go:692-797 | Every step of the durable history was sent under the fence of the head it made and, unless a takeover, of the head it changed: nobody appends to or trims a log whose fence is not theirs. |
| ProtocolFence.Notices | internal/catalog/blob/internal/catengine/engine.go:569-643 | Whenever a session loads a head it becomes stale if and only if the head has another fence than its own. |
| ProtocolFence.RefusalNoticed | internal/catalog/blob/internal/catengine/engine.go:692-797 | So it does when the head answers a refused swap. |
| ProtocolFence.StaleSilent | internal/catalog/blob/internal/catengine/engine.go:456-471 | A stale session sends nothing, stores nothing and acknowledges no retention, whatever it is called with; of appends it confirms exactly its own last one, if the head it knows still reaches back to it. |
| ProtocolFence.SupersededIsDone | internal/catalog/blob/internal/catengine/engine.go:692-791 | Over the rest of any run a stale session stays so until its slot is opened anew, and every later step of the history is of a later epoch than its own. |
| GcSafety.DeadSegmentStays | internal/lifecycle/scrub.go:344-355 | A segment key dead in one durable head, below the floor or unreferenced under an old epoch or behind the end, is referenced by no later head. |
| GcSafety.DeadPageStays | internal/lifecycle/scrub.go:88-186 | A page unreachable from one durable head with an older generation is reachable from no later head. |
| GcSafety.ActKept | internal/lifecycle/scrub.go:188-288 | Every writer step, upload and delete of a dead object keeps: whatever is not gone for good is stored. |
| GcSafety.NothingReferencedIsDeleted | internal/lifecycle/scrub.go:88-355 | Whatever writers and reclaimers do, every page reachable from the durable head and every segment object it refers to is stored. |
| GcSafety.AcknowledgedSurvivesGc | internal/lifecycle/scrub.go:88-355 | End to end over any run of writers and reclaimers: an acknowledged segment is found through what is actually stored, and its object is stored, exactly until retention passes it. |
| KeyLayout.PaddedOrder | internal/blob/sink/layout.go:125-127 | Fixed-width decimal and hexadecimal digits order as the numbers do. |
| KeyLayout.SegmentNameRoundTrip | internal/blob/sink/layout.go:125-157 | Parsing a formatted segment name gives its fields back, and a name that parses is the canonical text of its fields. |
| KeyLayout.SegmentNameOrder | internal/blob/sink/layout.go:125-127 | Listing order of segment names is base LSN order. |
| KeyLayout.LowerBoundBelow | internal/blob/sink/layout.go:60-64 | Every segment name from a base LSN on lies strictly behind that LSN's lower bound. |
| KeyLayout.FieldRoundTrip | internal/blob/sink/layout.go:159-169 | A 20-digit field parses exactly for 64-bit values, and only canonical text parses. |
| KeyLayout.PagePathRoundTrip | internal/catalog/blob/paths.go:65-126 | Parsing a formatted page path gives its key back. |
| KeyLayout.CanonicalPagePath | internal/catalog/blob/paths.go:80-126 | A path that parses is the canonical text of its key. |
| KeyLayout.PagePathOrder | internal/catalog/blob/paths.go:65-78 | Within a level, listing order is page-end order. |
| KeyLayout.PageLowerBoundBelow | internal/catalog/blob/paths.go:47-55 | Every page that ends at or after an LSN lies strictly behind the lower bound of that LSN. |
| Sweep.PositionOrder | internal/blob/sink/layout.go:58-77 | For segments and for pages of a level, key order is sweep-position order over whole object keys. |
| Sweep.ValidateObjectPage | internal/lifecycle/segments.go:114-130 | The page check accepts exactly strictly increasing non-empty keys behind the start with a matching continuation. |
| Sweep.ListMeaning | internal/lifecycle/segments.go:24-36 | A page of the store's listing contract passes that check and leaves out only later keys, announcing them. |
| GcState.ObserveKeeps | internal/lifecycle/state.go:229-258 | Observing a head keeps the floor order and never lowers a floor. The safe floor becomes the pending one if and only if its delay has passed, restarting the page sweep; a pending floor not yet due stays; with none pending the safe floor is not below the oldest LSN of the head. |
| GcState.ObserveValid | internal/lifecycle/state.go:187-258 | A record that passes its check still passes it after any observation. It knows the retention version and every page level of the head then, and no more; nothing else but the floors has changed. |
| GcState.MaxPageLevel | internal/catalog/blob/internal/catengine/reader.go:184-194 | The level found is attained and bounds every reference of the head. |
| Reclaim.Budget.CanScheduleDelete | internal/lifecycle/delete.go:153-173 | A delete is admitted if and only if it keeps the object and byte limits without 64-bit overflow, the first of a run whatever its size; a refusal marks the budget exhausted. |
| Reclaim.ExecuteDeletes | internal/lifecycle/delete.go:22-66 | Deletes are requested only for candidates; on success all are gone, on failure everything before the candidate reported is; without failing deletes or cancellation all are requested and gone. |
| Reclaim.SelectPage | internal/lifecycle/segments.go:37-66 | The candidates of a page are exactly its keys below the floor up to where it stops, each with the key before it. |
| Reclaim.SweepPage | internal/lifecycle/segments.go:24-98 | One page, interrupted anywhere: only keys below the floor are asked to be deleted, after a look at a head at or above it; the checkpoint returned passes nothing that is left. |
| Reclaim.FreshSweep | internal/lifecycle/segments.go:15-22 | A sweep without checkpoint starts before everything it has to delete. |
| Reclaim.SweptShrinks | internal/lifecycle/segments.go:8-98 | Deletions by others and a crash that leaves an older record never invalidate a checkpoint. |
| Reclaim.ObserveKeepsSwept | internal/lifecycle/state.go:229-258 | Promoting a floor leaves both checkpoints valid. |
| Reclaim.Reclaimer.ReclaimSegments | internal/lifecycle/segments.go:8-112 | Over failed deletes, failed saves, budget stops and other deleters: memory and stored record stay valid checkpoints, also when a save reported as failed took effect; the watermark moves only to the safe floor once nothing of the start is left between the two. A sweep that succeeds with budget to spare has moved it there, and one in which nothing fails succeeds. |
| Reclaim.Reclaimer.ReclaimPages | internal/lifecycle/pages.go:9-142 | The same for pages, level by level up to the highest known one, and for no level above it. |
| SweepRuns.FreshRecord | internal/lifecycle/segments.go:8-13 | A valid record without checkpoint can be resumed from, whatever the store holds. |
| SweepRuns.RunPartition | internal/lifecycle/reclaimer.go:12-73 | A whole pass, head observation and both sweeps: memory and stored record can be resumed from, no watermark falls, and nothing of the start is left between old and new watermarks. No page watermark is stored without the page levels of the head looked at. With budget to spare a successful pass has reached the floor, and one in which nothing fails succeeds. |
| SweepRuns.Drive | internal/lifecycle/segments.go:8-112 | Completeness over restarts: any passes one after another, stopped by budgets, failed deletes, failed or silently landed saves or crashes, each from the record left in the store. Every stored record can be resumed from; between the watermarks of any two of them nothing of the start is left, of segments and of pages on every level known by then; nothing else is asked to be deleted. In no pass does the page watermark move without the record knowing every level of the head that pass saw. |
| SweepRuns.HeadLevels | internal/lifecycle/state.go:235-238 | The level noted for a head bounds the level of every page it keeps alive. |
| SweepRuns.SeenIsGone | internal/lifecycle/pages.go:9-122 | Over such passes a page on the level of any page of a head whose observation got into the store is gone once a later watermark has passed it. |
| SweepRuns.AskedKnown | internal/lifecycle/pages.go:9-122 | A page is asked to be deleted only by a pass that knows its level and finds it below the floor. |
| SweepRuns.UnknownLevel | internal/lifecycle/pages.go:9-122 | A concrete limit: a level-1 page below the watermark that a sweep passed while only level 0 was known is still stored. |
| GcWorkers.StepInv | internal/lifecycle/state.go:66-163 | Every step of every worker, lost replies and late writes included, keeps the floors of all records read, held or in flight good. |
| GcWorkers.StepsInv | internal/lifecycle/state.go:66-258 | So in every run of any number of workers and writers. |
| GcLeases.RunLeased | internal/lifecycle/state.go:66-163 | In every run of competing workers every stored or travelling record is leased for the full time from its last update, replaces only a record that was free, its own or expired, and a worker holds, saves and releases only its own. |
| GcLeases.LeaseExclusive | internal/lifecycle/state.go:66-94 | In every run, whatever the next step, the record of an owner gives way to that of another worker only once the full lease has passed since the owner last updated it. |
| GcLeases.OneHolder | internal/lifecycle/state.go:110-130 | At most one worker holds the record as it is in the store, so at most one can still save. |
| GcWorkers.FloorsHold | internal/lifecycle/state.go:187-258 | In every run both watermarks are at most the safe floor, which is below the pending floor, which is at most the durable oldest LSN; and a floor is safe only once the clock is the delay past the start of the pass that recorded it. |
| GcWorkers.RecheckNeverFails | internal/lifecycle/reclaimer.go:88-106 | The floor any worker sweeps with is at most the durable oldest LSN, so the look at the head before a delete never finds it below the floor. |
| GcWorkers.DelayFromLoad | internal/lifecycle/state.go:229-258 | If heads are loaded within some time of the start of their pass, a floor is safe only once the clock is the delay less that time past a load that found it. |
| GcWorkers.ShortDelay | internal/lifecycle/reclaimer.go:19-41 | A concrete run: with a delay of 100 ms a floor becomes safe at the instant its head was loaded, because the delay counts from the start of the pass. |
| GcWorkers.QuarantineHolds | internal/lifecycle/scrub.go:88-186 | In every run a page in quarantine, in any record stored, read, held or in flight, is unreachable from the durable head, whose generation is not below the one it was found in. |
| GcWorkers.SweepsAreSafe | internal/lifecycle/reclaimer.go:12-106 | With any number of reclaimers sweeping and scrubbing at once, what the durable head refers to is stored. |
| GcScrub.ReferencedSegments | internal/lifecycle/scrub.go:290-342 | Paging the catalog over an object page answers, for every object, exactly whether the first head loaded refers to it; a generation change in between is an error. With one generation throughout, readable pages and enough calls it does answer. |
| GcScrub.ReachablePages | internal/lifecycle/scrub.go:488-536 | The same for page objects of a level. |
| GcScrub.LoadsConsistent | internal/catalog/blob/internal/catengine/engine.go:330-385 | Loads of durable heads with equal generation are loads of the same head. |
| GcScrub.OrphanSegments | internal/lifecycle/scrub.go:219-259 | The segment orphans deleted are exactly the listed objects that are old enough, can no longer be appended and are unreferenced. |
| GcScrub.QuarantinePages | internal/lifecycle/scrub.go:408-470 | A page is put aside only when dead in the head it was checked against and not held yet; with room left every dead page listed is put aside or held. |
| GcScrub.SelectDue | internal/lifecycle/scrub.go:95-125 | Selected entries are due, and all due ones are selected if the limit is not reached. |
| GcScrub.ProcessQuarantine | internal/lifecycle/scrub.go:88-186 | A due entry is dropped when reachable from the head its level was resolved with, deleted when unreachable and older, and kept otherwise; nothing else is touched, and every due entry is decided unless the limit stops it. |
| GcScrub.QuarantineStays | internal/lifecycle/scrub.go:140-165 | A page found dead in one durable head is reachable from no later one, and generations do not go back. |
| WriterPipeline.EstimateMonotone | internal/writer/writer.go:1552-1581 | The in-flight estimate never falls when bytes or records grow, through 64-bit saturation and the wrapping rounding term. |
| WriterPipeline.EstimateCovers | internal/writer/writer.go:1552-1564 | Without compression the estimate is at least the object size for any number of blocks up to one per record. |
| WriterPipeline.Normalize | internal/writer/writer.go:1492-1550 | Options that pass have a budget that holds one full segment. |
| WriterPipeline.Writer.Append | internal/writer/writer.go:162-252 | An accepted record gets the next LSN with a timestamp not going back, into a segment whose estimate fits the budget; a refusal gives no LSN. |
| WriterPipeline.Writer.BeginCut | internal/writer/writer.go:809-842 | A cut takes the active segment over only when it has records and no other transition is under way. |
| WriterPipeline.Writer.FinishCut | internal/writer/writer.go:852-882 | The reservation never exceeds the budget by itself, waits only while others are in flight, and appends the segment to the tiling. |
| WriterPipeline.Writer.TakeDetached | internal/writer/writer.go:502-525 | Taking the next detached segment keeps the cut order. |
| WriterPipeline.Writer.FinishFinalize | internal/writer/writer.go:527-597 | Replacing the estimate by the object size keeps the byte counter the sum over segments in flight. |
| WriterPipeline.Writer.FinishPublish | internal/writer/writer.go:599-726 | While the writer is live the segment published starts at the adapter's expected LSN, and an accepted one extends the published run where it ended. |
| WriterPipeline.Writer.OldestFits | internal/catalog/writeradapter/session.go:55-60 | The adapter's expected-LSN check cannot reject a live writer. |
| WriterPipeline.Writer.Drained | internal/writer/writer.go:1041-1058 | With nothing in flight everything up to the active segment is committed; everything accepted is, exactly when the active segment is absent or empty. |
| WriterPipeline.Flush | internal/writer/writer.go:266-304 | With any sections of other callers and of the background before, during and after its cut: a successful flush has committed every record accepted before it began, and every record at all exactly if none is active then. A flush of a live writer that nobody else uses and whose background steps succeed does succeed and commits everything; so does one with nothing active or in flight. |
| WriterPipeline.Close | internal/writer/writer.go:306-369 | The same for a close, which also closes the writer; a closed writer answers with what is committed. |
| WriterPipeline.Writer.Progress | internal/writer/writer.go:502-726 | Each successful background step brings everything in flight one step closer to being published, of at most four for a segment. |
| WriterPipeline.SlippedRecord | internal/writer/writer.go:322-364 | A concrete run: a close succeeds while a record that another caller got accepted during its drain is never committed. |
| WriterPipeline.Perform | internal/writer/writer.go:162-726 | Any critical section keeps the invariant; only an append moves the next LSN, by one, and the published run only grows. |
| WriterPipeline.Drive | internal/writer/writer.go:162-918 | In every interleaving, flushes and closes included, ready, finalizing, detached and active segments tile the range from the committed to the next LSN, counters are their sums, an uncompressed writer stays within its byte budget, and published segments tile the range before. |
| WriterCatalog.PublishAccepted | internal/writer/writer.go:1348-1383 | The writer's check passes for the head its own append produces. |
| WriterCatalog.PublishExact | internal/writer/writer.go:1348-1383 | Among durable heads the check passes only for the head this very append made from the one before. |
| RawBlock.EncodeRawBlock | internal/segformat/rawblock.go:70-99 | Encoding succeeds exactly for records within all limits and yields their byte form. |
| RawBlock.EncodedHeadersLen | internal/segformat/rawblock.go:209-233 | The length computed is that of the encoded headers, and an error means a limit is exceeded. |
| RawBlock.DecodeHeaders | internal/segformat/rawblock.go:253-300 | Decoding succeeds exactly for the encoding of some headers, and returns those. |
| RawBlock.ScanRawRecord | internal/segformat/rawblock.go:186-207 | One record is read exactly when its encoding is at the offset. |
| RawBlock.DecodeRawBlock | internal/segformat/rawblock.go:101-152 | The batch decoder succeeds exactly on blocks that are the encoding of records fitting the preamble, and returns them with consecutive LSNs. |
| RawBlock.EncodedDecodes | internal/segformat/rawblock.go:70-136 | An encoded block is a block of its own records, so decoding returns them. |
| RawBlock.DecodedEncodes | internal/segformat/rawblock.go:70-136 | Re-encoding what any accepted block decodes to returns the same bytes. |
| RawBlock.BlockUnique | internal/segformat/rawblock.go:101-136 | Bytes and preamble determine the records. |
| RawBlock.RawBlockScanner.Next | internal/segformat/rawblock.go:30-68 | Each call yields the next record of the block or shows that no records fit the bytes. |
| RawBlock.ScanAll | internal/segformat/rawblock.go:21-68 | The scanner run to its end succeeds with the same records exactly when the batch decoder does. |
| SegmentIndex.ValidateIndex | internal/segformat/validate.go:161-227 | The loop accepts exactly the indexes that tile the object and the LSN range, in timestamp order, and agree with the trailer. |
| SegmentIndex.BlockOfLSN | internal/segformat/validate.go:161-276 | In such an index the first block that ends at or after an LSN, which the search finds, is the one block that holds it. |
| SegmentWriter.SealedDecodes | internal/segblock/seal.go:20-56 | A sealed block hashes right, decompresses and decodes to the records cut into it. |
| SegmentWriter.Emit | internal/segwriter/writer.go:447-519 | From any order of seal completions blocks leave in cut order at consecutive offsets with their index entries. |
| SegmentWriter.Writer.Append | internal/segwriter/writer.go:191-246 | An accepted record continues the segment; all records accepted are those cut and those in the open buffer, in order. |
| SegmentWriter.Writer.SealOne | internal/segwriter/writer.go:423-445 | Sealing any queued block keeps the pipeline in order. |
| SegmentWriter.Writer.Close | internal/segwriter/writer.go:248-320 | A segment that closes holds exactly the accepted records, and its index passes the index check against its trailer. |
| SegmentWriter.IndexAgrees | internal/segwriter/writer.go:580-601 | The index built from the cuts agrees with the trailer built from the running summary. |
| SegmentReader.OpenWritten | internal/segreader/reader.go:221-256 | Every block of a written segment passes location, preamble, hash and envelope checks and holds its cut. |
| SegmentReader.Scanner.Next | internal/segreader/scanner.go:22-63 | Each call yields the record at the next position across blocks, and ends exactly behind the last. |
| SegmentReader.Scan | internal/segreader/reader.go:198-219 | A scan starts at the first record at or after the LSN. |
| SegmentReader.Read | internal/segreader/reader.go:177-196 | A read returns exactly the run of the segment's records from the LSN, up to the limit. |
| SegmentReader.FindLSNByTimestamp | internal/segreader/reader.go:126-175 | The result is the first record at or after the timestamp, or none when all are older. |
| SegmentReader.WriteThenRead | internal/segwriter/writer.go:191-320 | Round trip: any accepted records, block size and seal order read back exactly from any LSN with any limit, a timestamp finds its first record, and every well-formed run is accepted. |
| SegmentSize.EstimateCoversObject | internal/writer/writer.go:1552-1564 | The estimate a writer reserves covers the object the segment writer produces from those records without compression. |
| WholeCache.Cache.Acquire | internal/reader/whole_cache.go:62-104 | The answer is a hit exactly for a resident key, whose object gets one pin more and becomes the most recently used; a join exactly for a key with a current load, which gets one waiter more; a start exactly when the object fits beside what is pinned or loading. Everything else keeps its order, pins and waiters; a closed cache refuses. |
| WholeCache.Cache.AcquireCached | internal/reader/whole_cache.go:106-125 | Exactly a resident key is pinned, once more, and its object becomes the most recently used. |
| WholeCache.Cache.Reserve | internal/reader/whole_cache.go:205-225 | Space is granted exactly when the object fits beside what is pinned or loading; unpinned objects are evicted for it from the least recently used on, and no more of them than needed. |
| WholeCache.Cache.CancelWaiting | internal/reader/whole_cache.go:127-167 | A waiter that gives up while the load runs is no longer counted; the last one abandons the load, and no other load changes. |
| WholeCache.Cache.CancelOwed | internal/reader/whole_cache.go:127-167 | A waiter that gives up after the load gives back exactly its own pin. |
| WholeCache.Cache.Finish | internal/reader/whole_cache.go:169-203 | A load that ends becomes resident with one pin for each waiter, or returns its reservation. |
| WholeCache.Cache.Release | internal/reader/whole_cache.go:243-257 | A release drops exactly the reader's own pin and makes the object the most recently used; nothing resident changes if it is gone. |
| WholeCache.Cache.Close | internal/reader/whole_cache.go:269-295 | Closing drops all residents; only running loads still count. |
| WholeCache.Cache.CloseReturns | internal/reader/whole_cache.go:269-295 | When the loads are over, the closed cache holds no bytes. |
| WholeCache.Perform | internal/reader/whole_cache.go:62-295 | No critical section evicts a pinned object before close. |
| WholeCache.Drive | internal/reader/whole_cache.go:62-295 | In every interleaving bytes are resident sizes plus live reservations within the maximum, every object's pins are those of leases and waiters owed one, and until close every object with such a pin is resident. |
| UploadStream.ValidateCommitRequest | internal/blob/sink/multipart/multipart.go:201-244 | The check accepts exactly requests whose receipts number 1 to n, are non-empty, within part limits except a small last one, and sum without overflow to the announced size within the limit. |
| UploadStream.CommitAccepted | internal/blob/sink/stream/stream.go:672-688 | A request that describes a sealed stream passes that check and its parts concatenate to the accepted bytes. |
| UploadStream.ReceiptCount | internal/blob/sink/stream/stream.go:672-676 | With no part on its way there is one receipt for each part number. |
| UploadStream.Begin | internal/blob/sink/stream/stream.go:161-240 | A stream opens exactly when the provider limits are usable and the part size lies within them. |
| UploadStream.Upload.Write | internal/blob/sink/stream/stream.go:246-286 | A write is accepted whole or not at all, or the stream fails or is aborted, with workers answering and another caller aborting in between. Bytes beyond the limits are refused and leave it open; bytes that fit are accepted when buffers and slots are granted and every answer is the receipt of its part. |
| UploadStream.Upload.PutPart | internal/blob/sink/stream/stream.go:557-600 | A part is acknowledged only by the receipt that matches it; any other answer fails the stream. |
| UploadStream.Upload.BeginSeal | internal/blob/sink/stream/stream.go:450-519 | Sealing succeeds exactly for a non-empty open stream with a free slot or one already sealed, the gathered bytes becoming the last part. |
| UploadStream.Upload.PrepareCommit | internal/blob/sink/stream/stream.go:293-361 | A request is sent exactly from a sealed stream, with all receipts in part order. |
| UploadStream.Upload.FinishCommit | internal/blob/sink/stream/stream.go:362-393 | Only a definite refusal fails the stream; an unknown outcome keeps it ready for the same request. |
| UploadStream.Upload.Abort | internal/blob/sink/stream/stream.go:405-448 | An abort is refused during a commit and leaves a completed stream alone. |
| UploadStream.Drive | internal/blob/sink/stream/stream.go:246-600 | Over any run of writes, worker answers, seals, commits, retries and aborts the backend is only ever sent one request, repeated; it passes the backend's check, its parts in order are exactly the bytes of the accepted writes, and every part but the last has exactly the part size. |
| Cursor.OneRecord | internal/reader/reader.go:366-450 | An LSN has one record, through whichever durable heads its segment is found. |
| Cursor.OneStretch | internal/reader/reader.go:366-450 | Two readings of the same stretch of the log are equal. |
| Cursor.PageJoined | internal/reader/reader.go:390-402 | A listing taken from a head that still has the LSN starts with its segment and goes on without gap. |
| Cursor.Reader.HeadForRead | internal/reader/api.go:672-698 | The cached head serves while the start is behind its tail; otherwise a fresh one. |
| Cursor.Reader.ReadSegment | internal/reader/reader.go:539-579 | A segment read yields the log from the LSN on, up to limit, segment end and head end. |
| Cursor.Reader.ReadPage | internal/reader/reader.go:407-443 | Reading through listed segments extends the batch without gap, or reports an error. |
| Cursor.Reader.ConsumeOnce | internal/reader/reader.go:366-450 | A start below the head's oldest LSN, and only that, is refused as expired. Success is exactly the stretch of the log up to limit or head end, whatever heads the listings came from; it is guaranteed while requests are answered by heads that still have the start. |
| Cursor.Reader.ConsumeContinuous | internal/reader/reader.go:452-500 | After an anomaly one retry through a fresh head without the hint; expiry is reported only when a head says so; the hint survives only a cancellation. |
| Cursor.Cursor.Next | internal/reader/api.go:215-237 | Each batch starts where the last ended and is exact for the head it was read through; an error leaves the position; a position below that head's oldest LSN is never skipped over, hint or not; with a healthy backend it succeeds. |
| Cursor.Cursor.Seek | internal/reader/api.go:274-279 | A hint survives a seek only if it still contains the position. |
| Cursor.Cursor.MakeCheckpoint | internal/reader/api.go:241-271 | A checkpoint is given exactly when a fresh head has the position in range, and names it. |
| Cursor.ResumeCursor | internal/reader/api.go:158-197 | A cursor resumes exactly from a checkpoint of this stream and partition in the range of a fresh head, at its position. |
| Cursor.Drive | internal/reader/api.go:142-299 | Over any run of reads, refreshes, evictions and hand-overs through checkpoints, with requests answered as of any heads or not at all, what was delivered since the last seek is the log up to the position without gap or repetition. |

## Left out

- Byte encodings of heads, pages, preambles, trailers and the JSON of the reclaimer's record: entities are values, with the checks the codecs make on them.
- CRC32C, xxHash, SHA-256 and zstd internals, and providers (S3, GCS, Azure): arbitrary functions and oracles.
- Engine sessions as objects: `OpenWriter`, `AppendSegment`, `ApplyPendingRetention` and `commitLocked` are steps of a state machine on values, so aliasing between calls on one session is not modelled; calls on a session do not overlap, as its mutex ensures. Backoff and retry limits are choices of the run.
- GcLeases.LeaseExclusive: all workers read one clock.
- What an error means: a failed append or retention may still have landed, so only what success implies is claimed.
- Protocol: a token is modelled as the content of the head it was read with; providers that reuse a token for another content are outside the store's contract.
- Staging cleanup, dry runs, delete rate limits and metrics of the garbage collector: the staging sweep has the shape of the segment sweep without floors.
- Reclaim.ExecuteDeletes: a wave's deletes run one after another instead of concurrently; a failure can be at any of them.
- GcScrub.OrphanSegments: object budgets and resume keys are left out; which objects are judged and how is modelled.
- GcScrub.ProcessQuarantine: the delete budget and failing deletes are left out, as they only keep entries for a later pass.
- SweepRuns.Drive: passes follow each other; a pass of another worker that overlaps one is its deletions in between, and its records are covered by `GcWorkers`, where watermarks jump without the sweep's argument.
- CatalogMemory.MemoryPartition.AppendSegment: refusing a URI already used is left out, because entries carry no URI.
- Quarantine entries name their page by its key, where the record stores the canonical path text.
- WriterPipeline.Writer.FinishFinalize: for zstd the object size is arbitrary, so no byte bound is claimed for it, and the byte counter is a natural number instead of a 64-bit one.
- Writer age timers, abort cleanup, error surfacing and its own check of retention snapshots: they add no ordering or accounting.
- SegmentWriter: cancellation and the sink transaction are left out; a failed seal aborts the segment.
- UploadStream.Upload.Write: other workers' answers and aborts come between turns of the loop, not inside one; buffer pools are a refused buffer at most. Provider tokens in receipts are left out.
- UploadStream.Upload.PrepareCommit: receipts are collected by part number, where the source sorts them; the order is the same.
- Cursor: one partition, so the checks that a head or segment belongs to another one are left out; whether an object is read whole or by ranges makes no difference to its records and is the cache's matter. Timestamp starts, tailers and watches are left out.
- CatalogMemory: versions of snapshots, and the retention mailbox as an object of its own.
- Public facade types, option defaulting and error texts.
