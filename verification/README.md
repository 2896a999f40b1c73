# AuditeDB in Dafny

A model of the AuditeDB core and proofs about it. AuditeDB is an embedded store: every durable world is a
SQLite file with an HMAC-linked audit chain, reads go through a cache of open connections that cooperates
with deletes, storage and memory are charged against quotas, and clients follow changes through resumable
subscriptions. `dafny verify dfyconfig.toml` verifies the whole project.

## How the model is laid out

| Module | What it models |
|---|---|
| `Framing` | decimal numbers and the NUL-terminated, length-prefixed fields that are hashed |
| `WorldPath` | world names, percent coding, disk directory names |
| `EventId` | durable subscription event ids |
| `AuditChain` | the row checks of the engine's verifier and of the independent Python verifier, and what an intact chain is |
| `ChainMeaning` | what an intact chain is, said of its rows without the verifiers' order of tests, and what each break reason means |
| `ChainBinding` | what the latest HMAC of a chain pins down, and ETag preconditions |
| `AuditWriter` | header canonicalisation, appended rows, delete-subject headers |
| `StreamingVerifier` | the row-grouping walk over the events/headers join, the tail check, stamps |
| `VerifiedPrefix` | when the O(1) tail gate may replace the full walk, over runs of writes and deletes |
| `ReadCacheProtocol` | the slot machine of the read cache, with readers, openers, evictors, deletes and writes interleaved |
| `ReadCacheProgress` | what the slot steps achieve when nothing comes between them |
| `ReadCacheEviction` | approximate-LRU sampling, trimming and draining |
| `Subscription` | `EngineSubscription::recv`, fences and patterns, and what a client that keeps receiving hears |
| `DurableSplice` | resuming one durable world: snapshot, fence and live stream against every writer interleaving |
| `SpliceProgress` | the same: when a resume resets and why, and that one which does not catches up |
| `RingResume` | resuming a wildcard pattern from the in-memory ring |
| `RingOverlap` | the same while notifications overlap: which events are lost, repeated or exactly once |
| `RingProgress` | the same: when the stream lags, and that a resume reaches the end of what was sent |
| `FileOpGate` | the shutdown gate with its atomic flag, mutex and condition variable |
| `WorldLocks` | the weak table of per-world write locks |
| `StorageQuota` | durable quota reservations with deferred credit |
| `MemoryStore`, `MemoryInterleaving`, `MemoryLinear` | transient worlds: the three calls in place, the same calls interleaved, and that interleaving does not show |
| `DeleteProtocol` | the delete sequence with a fault at every storage call, the ledger and the counters |
| `DeleteAnswers` | what a delete's answer tells its caller about the world and the ledger |
| `MapSum`, `Slices` | sums over finite maps, equalities of sequences |

Conventions. Text is a sequence of UTF-8 bytes, one `char` per byte. HMAC-SHA-256 (section 2 of RFC 2104) and
SHA-256 are function values in `AuditChain.Crypto`; where a statement needs them to be collision free, the lemma
returns either the statement or two different byte strings with the same HMAC or SHA-256 (`ChainBinding.Outcome`).
Concurrent objects are state machines whose steps are single atomic accesses, lock acquisitions or map
operations; a result "over every run" quantifies over every finite sequence of enabled steps. Machine integers
are written out (`USIZE_MAX`, `I64_MAX`, saturating and checked operations) where the code depends on them.
SQLite, the file system, clocks and random generation appear as parameters: fault values, timestamps, fresh
generations and row ids.

## Where the code and its documentation part

* `clear_tombstone` is documented as taking down a delete's tombstone, and the cache promises that after
  `install_tombstone_blocking` no read handle on the world is left. Every durable write also calls
  `clear_tombstone` and removes whatever entry is there. A connection that some thread holds at that moment
  drops out of the table undrained, and a later delete cannot drain it. `WriteThenDeleteOverlapsRead` is such a
  run. `WriteCanOverlapIff` gives the condition: a write is dangerous exactly when the world's entry has a handle
  that some thread holds; an entry that is absent, drained or unheld is cleared without harm.
* A notification draws its delivery id before it takes the ring's lock, so overlapping notifications can enter the
  ring out of id order. The fence of a ring resume can then drop an event (`OverlapLosesAnEvent`) or deliver one
  twice (`OverlapRepeatsAnEvent`). `DeliveredAsOwedIff` says for each event of any run exactly when it arrives as
  often as it should, and `CleanIffAlwaysSeparates` when the snapshot alone settles that for all events to come.
* The Python verifier is described as an independent mirror of the engine's. It accepts more, in exactly three
  families of rows: two of delete rows, and rows whose timestamp uses digits beyond ASCII (`VerifiersAgree`).
* Removing a world's directory can destroy the database and still report failure. The delete then keeps the
  verified mark and the counters: `SoundThroughoutIff` and `CountersExactIff` say when that matters.
* The file-operation count saturates, so it equals the number of live permits exactly while that number fits a
  `usize` (`CountsPermitsIff`).
* A store that is above its quota refuses even shrinking writes (`OverQuotaRefusesAll`).
* For If-None-Match, invalid matchers follow the code in `core/src/etag.rs`, not the comment in
  `core/src/engine_types.rs`.

## Model

| member | source | states |
|---|---|---|
| `DurableSplice.SpliceIsExactlyOnce` | core/src/engine_ops.rs:214-237 | over every interleaving of commits, notifications, deletes, re-creations and other worlds' traffic with open-receiver, snapshot and drain: until a loss or reset is reported, delivered rows are k+1, k+2, ... of the cursor's own incarnation with their stored content, no gap, no repeat, nothing foreign |
| `DurableSplice.CaughtUpIsComplete` | core/src/engine_ops.rs:674-748 | a client that has read everything sent, without interruption, holds every row after its cursor, and no newer incarnation exists (`SpliceProgress.ResumeCatchesUp`: a resumable cursor gets there) |
| `DurableSplice.NeverForeignNeverTwice` | core/src/engine_subscription.rs:508-523 | whatever was lost or reset, a fenced stream never delivers another incarnation's row and never repeats or reorders rows |
| `DurableSplice.ReplayIsChain` | core/src/audit/timeline_address.rs:497-608 | a snapshot that does not reset replays exactly the rows after the cursor and fences at the last row of the chain (`SpliceProgress.SnapshotAnswers`: when it resets, and why) |
| `DurableSplice.StepKeepsLog` | core/src/world_ops.rs:374-380 | under the world lock, what was broadcast plus what is still unsent of each incarnation is its chain in order |
| `DurableSplice.NextRow` | core/src/state.rs:773-800 | the next broadcast row of an incarnation is the row after those already read, with the stored content |
| `SpliceProgress.SnapshotAnswers` | core/src/engine_ops.rs:674-748 | over every run, the snapshot's answer case by case: incarnation reset exactly when another incarnation is current, truncation exactly when the marker row is absent from the same incarnation, ring miss exactly for another world, no world, or more than the limit behind, and otherwise no reset |
| `SpliceProgress.ResumeDelivers` | core/src/audit/timeline_address.rs:497-608 | a cursor on a stored row of the current incarnation, at most the limit behind, gets all rows after it in as many receives, uninterrupted |
| `SpliceProgress.LiveInterruptsIff` | core/src/engine_subscription.rs:508-523 | over every run: a live receive reports a loss exactly when the channel overflowed, with the exact number lost, and a reset exactly when the next change is a row of another incarnation |
| `SpliceProgress.ResumeCatchesUp` | core/src/engine_ops.rs:214-237 | from such a snapshot, receiving on without overflow or re-creation ends live, uninterrupted, with every row of the chain after the cursor |
| `SpliceProgress.DeletesAnnounced` | core/src/delete_ops.rs:264-277 | over every run each removal of the followed world is announced exactly once, and a live client that has not fallen behind is handed the signal |
| `SpliceProgress.NothingOlderIsRead` | core/src/engine_ops.rs:214-237 | whatever follows, nothing broadcast before the receiver was opened is read from it |
| `Subscription.EngineSubscription.Recv` | core/src/engine_subscription.rs:412-478 | the replay queue drains first and in order; then the answer is the first live element the fence does not drop; closing is final; the expectation on the parked shutdown receiver holds (what a fence drops: `Subscription.AnswerIsSaid`) |
| `Subscription.EngineSubscription.constructor` | core/src/engine_subscription.rs:362-390 | a subscription starts replaying with its shutdown receiver parked exactly when there is something to replay |
| `Subscription.ExactMatchesOne` | core/src/subscription_cursor.rs:142-148 | a pattern that names one canonical world matches that world and no other |
| `Subscription.AnswerIsSaid` | core/src/engine_subscription.rs:487-523 | for every fence: a change is answered exactly when the pattern names its world and the fence does not cover it, with a reset exactly for another incarnation of the fenced world |
| `Subscription.Pump` | ffi/src/lib.rs:304-327 | a client that keeps receiving is handed its replay queue and then, in feed order, what the feed has for it; the stream is closed exactly when the channel closed or shutdown was signalled, and live otherwise |
| `Subscription.UnfencedHearsAll` | core/src/engine_ops.rs:533-540 | without a cursor: every change whose world the pattern names, once and in feed order, nothing else, and each loss of n as a lag of n |
| `Subscription.MatchesIsNames` | core/src/event.rs:413-424 | a pattern matches exactly what it names: every world, the worlds that begin with what stands before the star, or the one world it spells |
| `Subscription.ExactIff` | core/src/subscription_cursor.rs:142-148 | a pattern is exact exactly when it spells a canonical world, with or without a leading slash; a starred one never is |
| `RingResume.SerialResumeIsExactlyOnce` | core/src/engine_ops.rs:632-672 | with non-overlapping notifications, the chain events delivered are exactly the wanted ones pushed after the marker and read so far, in push order, once each |
| `RingResume.SerialResumeKeepsSignals` | core/src/engine_subscription.rs:496-507 | every wanted signal without durable identity that was pushed after the marker and read arrives at least once |
| `RingResume.MissIffMarkerGone` | core/src/engine_ops.rs:641-651 | after any run a snapshot resets exactly when the marker is not among the last N events pushed |
| `RingProgress.LagsIff` | core/src/engine_ops.rs:641-651 | a live ring stream reports a loss exactly when the channel overflowed, with the exact number lost, and never resets |
| `RingProgress.ResumeReachesEnd` | core/src/engine_ops.rs:653-670 | a resume that finds its marker, left to receive, reads everything that was sent without interruption |
| `RingOverlap.DeliveredAsOwedIff` | core/src/engine_ops.rs:653-670 | in every run, overlapping or not, a wanted chain event that has been read was delivered exactly as often as owed (once after the marker, never before it) exactly when: pushed after the snapshot, its id is above the floor; pushed before it and sent since the receiver opened, its id is not |
| `RingOverlap.CleanIffAlwaysSeparates` | core/src/state.rs:780-799 | right after a snapshot, every event of every continuation is on the proper side of the floor exactly when nothing under way at the snapshot is on the wrong side |
| `RingOverlap.CleanResumeIsExactlyOnce` | core/src/engine_ops.rs:632-672 | a resume from such a snapshot is exactly-once, however notifications overlap |
| `RingOverlap.WorldEventsAscend` | core/src/engine_ops.rs:335-338 | with only the world lock for order, one world's chain events arrive in ascending order whenever the floor separates them, while other worlds' notifications overlap freely |
| `RingOverlap.RunKeepsTracked` | core/src/state.rs:773-800 | in every run ids are drawn once, each event is logged once, and what was sent or waits to be sent is what was logged |
| `RingOverlap.OverlapLosesAnEvent` | core/src/state.rs:780-799 | overlapping notifications of two worlds: a wanted chain event after the marker is never delivered although the channel lost nothing |
| `RingOverlap.OverlapRepeatsAnEvent` | core/src/engine_ops.rs:661-664 | overlapping notifications of two worlds: a wanted chain event after the marker is delivered twice, because the floor is the last replayed id and not the largest |
| `RingResume.PushAndTrim` | core/src/state.rs:790-797 | push then trim leaves the last N events |
| `ReadCacheProtocol.RunKeepsInv` | core/src/read_cache/state_machine.rs:125-407 | every step of readers, openers, evictors, deletes and writes keeps: tombstones in place, guards over the right states, handles accounted for |
| `ReadCacheProtocol.WindowIsFdFree` | core/src/read_cache.rs:341-361 | between install and clear, the tombstone is the world's entry and only an orphaned slot can still hold a handle |
| `ReadCacheProtocol.HandlesAreInTable` | core/src/read_cache.rs:128-138 | outside a displacement in progress, every slot with a handle is in the table or was orphaned |
| `ReadCacheProtocol.RemovalsAreDrained` | core/src/read_cache.rs:236-260 | what a reader, opener or evictor removes is the very slot it drained, without handle, never a delete's tombstone |
| `ReadCacheProtocol.WindowHandlesAreHeldOrphans` | core/src/read_cache.rs:341-361 | in an open removal window, the handles on the world are exactly the orphans of it that have a handle and are held by some thread |
| `ReadCacheProtocol.WriteCanOverlapIff` | core/src/world_ops.rs:231 | in any reachable state with an idle thread and no held orphan: a write now makes it possible for a later removal window to overlap a handle exactly when the world's entry has a handle that some thread holds |
| `ReadCacheProtocol.StepKeepsNoHeldOrphan` | core/src/read_cache.rs:359-361 | no step leaves a held orphan of a world, except a write of it that clears an entry with a held handle |
| `ReadCacheProtocol.HarmlessRunIsFdSafe` | core/src/read_cache.rs:341-361 | when every write of the world finds its entry absent, drained or unheld, no removal window of the world overlaps a handle on it |
| `ReadCacheProtocol.WriteThenDeleteOverlapsRead` | core/src/world_ops.rs:419 | read, write, delete: the reader still reads through its handle inside the removal window |
| `ReadCacheProgress.MissIsRead` | core/src/read_cache/state_machine.rs:125-266 | a miss opens the world, puts the slot into the table and reads through it; nothing else changes |
| `ReadCacheProgress.HitIsReadUnlessTombstone` | core/src/read_cache/state_machine.rs:379-407 | a hit reads through the entry that is there; a tombstone turns the reader away and nothing changes |
| `ReadCacheProgress.EvictionGivesBack` | core/src/read_cache.rs:249-260 | a chosen slot that is ready and unguarded ends drained and out of the table; any other is left alone |
| `ReadCacheProgress.TransientReadGivesBack` | core/src/read_cache/state_machine.rs:267-378 | an unshared transient read leaves no entry and no handle |
| `ReadCacheProgress.FailedOpenGivesBack` | core/src/read_cache/state_machine.rs:82-100 | a failed open leaves the table as it found it |
| `ReadCacheProgress.DeleteGivesBack` | core/src/read_cache.rs:341-361 | install, displace and clear drain the old slot and leave the world free to be opened afresh |
| `ReadCacheEviction.SampleIsFair` | core/src/read_cache.rs:274-308 | the wrap-around sample has no duplicates, leaves out the target and has min(8, others) entries |
| `ReadCacheEviction.ReadCache.Collect` | core/src/read_cache.rs:278-308 | the two scans collect that sample |
| `ReadCacheEviction.ReadCache.TryEvictReadySlot` | core/src/read_cache.rs:249-260 | a slot goes exactly when it is Ready and unguarded |
| `ReadCacheEviction.ReadCache.TryEvictOldestSample` | core/src/read_cache.rs:269-320 | succeeds exactly when some sampled slot is evictable, and then removes an oldest evictable one |
| `ReadCacheEviction.RemovalKeeps` | core/src/read_cache.rs:311-318 | one eviction removes one entry, never the target, a tombstone or a slot in use |
| `ReadCacheEviction.ReadCache.TrimOverCap` | core/src/read_cache.rs:328-337 | at most sixteen evictions, each of an evictable non-target entry, none below the cap, and an early stop has a reason |
| `ReadCacheEviction.ReadCache.DrainAll` | core/src/read_cache.rs:368-384 | draining empties the table |
| `ReadCacheEviction.ByAgeOrders` | core/src/read_cache.rs:309 | the candidate order is by access tick and keeps exactly the candidates |
| `ChainBinding.HeadBindsHistory` | core/src/audit.rs:804-822 | two intact chains with the same latest HMAC have equal world, incarnation, length, events and headers, or a concrete HMAC or SHA-256 collision is returned |
| `ChainBinding.BindRow` | tools/audit_chain_verify.py:328-400 | one step of that: two passing rows with equal HMAC have equal predecessor link, world, incarnation, fields and headers, or a collision is returned |
| `ChainBinding.MessagesInjective` | core/src/audit.rs:804-822 | the bytes under the HMAC determine every field and the link |
| `ChainBinding.LinkEmptyIffFirst` | tools/audit_chain_verify.py:513-552 | only the first row of an intact chain links to nothing |
| `ChainBinding.HmacsDistinct` | core/src/audit.rs:804-822 | all HMACs of an intact chain are pairwise distinct, or a collision is returned |
| `ChainBinding.IfMatchNamesOneHistory` | core/src/etag.rs:49-77 | a strong If-Match tag read at one head passes against another chain exactly when it is the same history (section 13.1.1 of RFC 9110) |
| `ChainBinding.IfMatchSeesAppends` | core/src/etag.rs:49-77 | on its own chain the tag passes later exactly when no row was appended |
| `ChainBinding.PreconditionsMean` | core/src/etag.rs:114-130 | the outcome for any two lists: If-Match needs a world and a star or the very strong tag, If-None-Match fails on a star or the tag in either strength |
| `ChainBinding.EtagsInjective` | core/src/etag.rs:10-12 | distinct HMACs have distinct ETags |
| `Framing.MetaMessageInjective` | core/src/audit.rs:757-783 | the hashed metadata bytes determine content type and header list, for any number of headers |
| `Framing.FramesInjective` | core/src/audit.rs:776-783 | a fixed list of framed fields can be read back from its bytes |
| `Framing.FrameIsPrefixCode` | tools/audit_chain_verify.py:280-297 | a framed field is a prefix code for its tag |
| `Framing.FeedMeta` | tools/audit_chain_verify.py:271-277 | feeding field by field hashes that message |
| `Framing.DecSpells` | core/src/audit.rs:776-783 | a decimal rendering has no leading zero and reads back as its number |
| `AuditChain.VerifiersAgree` | tools/audit_chain_verify.py:328-486 | the engine accepts a chain exactly when the Python verifier does and no row is of the three families it is laxer on, whatever that Python takes for a digit |
| `AuditChain.SubjectsCompared` | core/src/audit/headers.rs:71-112 | per delete row: the engine's subject checks pass exactly when the Python ones do and the row is of neither laxer family of deletes |
| `AuditChain.TimestampsCompared` | core/src/audit.rs:785-798 | the engine's timestamp test passes exactly when the Python one does and the text is ASCII |
| `AuditChain.AcceptedSnoc` | tools/audit_chain_verify.py:513-552 | a longer chain is intact exactly when the shorter one is and the new row passes against its head |
| `AuditChain.PrefixAccepted` | tools/audit_chain_verify.py:513-552 | every prefix of an intact chain is intact |
| `ChainMeaning.AcceptedMeans` | tools/audit_chain_verify.py:328-486 | a chain is accepted exactly when every row has one of the six types; the world as target unless it is a delete; the version header if it is a format row; a canonical target and a subject proof that agrees with it if it is a delete; and matching link, metadata digest, timestamp and HMAC |
| `ChainMeaning.RowPassesIff` | core/src/audit/verifier.rs:303-412 | the same of one row, in either dialect |
| `ChainMeaning.BodyRowAcceptedIff` | tools/audit_chain_verify.py:328-400 | a put or append row extends an accepted chain exactly when target, link, metadata digest, timestamp and HMAC are right |
| `ChainMeaning.DeleteCheckIff` | core/src/audit/headers.rs:71-112 | a delete row passes exactly when each subject header occurs once and together they spell a proof that fits the row, or when a memory world has none |
| `ChainMeaning.ReasonIsTrue` | tools/audit_chain_verify.py:328-486 | the reason reported for a rejected row is true of that row |
| `StreamingVerifier.VerifyConnection` | tools/audit_chain_verify.py:513-552 | the walk returns what folding the row check over grouped events returns: the smallest failing index and its reason, or count, both ends and the requested stamp (which rows fail: `ChainMeaning.RowPassesIff`; what the reason means: `ChainMeaning.ReasonIsTrue`) |
| `StreamingVerifier.WalkRows` | core/src/audit/verifier.rs:125-232 | the loop stops at the first break of the whole chain, or has checked every group but the last |
| `StreamingVerifier.GroupUndoesJoin` | tools/audit_chain_verify.py:493-510 | grouping the ordered left join, half-null header rows included, gives back the events with their header lists |
| `StreamingVerifier.ReportUnique` | tools/audit_chain_verify.py:513-552 | a chain has only one report |
| `StreamingVerifier.FullWalkIsPrefixAndTail` | core/src/audit.rs:347-391 | a chain passes the full walk exactly when its all-but-last prefix does and the tail check passes |
| `StreamingVerifier.StampIsPastHead` | core/src/engine_introspection.rs:186-199 | the stamp at ordinal k is the head the chain had at length k, however it grew |
| `StreamingVerifier.LabelKeepsDigest` | tools/audit_chain_verify.py:157-162 | the label of a digest ends with it, and equal labels mean equal digests |
| `VerifiedPrefix.SoundThroughoutIff` | core/src/state.rs:203-246 | over every run of writes, failed writes, deletes, removals failing before or after the file is destroyed, and appearing files: marks are sound throughout exactly when no unwalkable file turned up under a mark outside its removal window |
| `VerifiedPrefix.MarkedWorldsPassTheFullWalk` | core/src/audit.rs:263-279 | in such a run a marked world with rows has a chain the full walk accepts, so the tail gate decides what the full gate would |
| `VerifiedPrefix.LostRemovalKeepsMark` | core/src/world/files.rs:17-51 | a removal that destroys the file and reports failure keeps the mark, and a foreign file that then turns up is relied on unwalked |
| `VerifiedPrefix.WriteSound` | core/src/world.rs:742-810 | a write keeps that, whichever gate it took and whether or not it commits |
| `VerifiedPrefix.WriteGrowsIff` | core/src/world.rs:742-810 | a write grows its chain exactly when it may and commits; the last row then carries the write's own fields, a format row comes first on a new chain, and the world is marked; otherwise no chain and no mark changes |
| `VerifiedPrefix.RemovalWindowIsNeeded` | core/src/delete_ops.rs:245-250 | inside the window the mark can name a chain the full walk rejects, and unmarking closes it |
| `VerifiedPrefix.WrittenRowsAccepted` | core/src/audit.rs:311-345 | the rows a write appends, format row included, keep an intact chain intact |
| `VerifiedPrefix.WrittenReport` | core/src/audit.rs:532-597 | any sequence of well-formed appends is reported valid with its count, both ends and any past head |
| `AuditWriter.WrittenAccepted` | tools/audit_chain_verify.py:698-753 | any sequence of well-formed appends is an intact chain of that length |
| `AuditWriter.NewEventVerifies` | core/src/audit/append.rs:288-365 | one appended row passes against the head it was appended to (what it carries: `AuditWriter.NewEventCarries`) |
| `AuditWriter.NewEventCarries` | tools/audit_chain_verify.py:698-753 | the appended row has the given id, timestamp, type, target, body hash, size and content type, and the given headers with lower-cased names |
| `AuditWriter.WrittenCarries` | core/src/audit/append.rs:288-365 | of any sequence of appends, row i carries the i-th fields in that sense |
| `AuditWriter.WrittenGrows` | core/src/audit/append.rs:288-365 | appending never changes the rows already there |
| `AuditWriter.CanonicalHeadersInvariant` | core/src/audit.rs:834-841 | canonical headers do not depend on the order of the headers or the case of their names |
| `AuditWriter.CanonicalIgnoresOrderAndCase` | core/src/audit.rs:834-841 | header lists that are permutations of each other up to the case of letters in names have one canonical list |
| `AuditWriter.CanonicalHeadersMean` | core/src/audit.rs:834-841 | canonical headers are the given ones, no capital letter in a name, ascending by name and then value by the first differing byte |
| `AuditWriter.LowerIff` | core/src/audit.rs:834-841 | two names have one lower-cased form exactly when they differ in letter case alone |
| `AuditWriter.QueryReturnsCanonical` | core/src/audit.rs:834-841 | sorting the stored headers, in whatever order they come back, gives the signed list |
| `AuditWriter.SortSorts` | core/src/audit.rs:834-841 | the header sort yields an ordered permutation |
| `AuditWriter.SortedUnique` | core/src/audit.rs:834-841 | an ordered permutation of headers is unique |
| `AuditWriter.DeleteRowsVerify` | core/src/audit/headers.rs:129-160 | delete rows with user headers and the subject proof pass both verifiers; user headers cannot shadow or duplicate the proof |
| `AuditWriter.OwnHeaderIsSingle` | core/src/audit/headers.rs:24-60 | each subject header has exactly the engine's value after canonicalisation |
| `AuditWriter.LaxerRowSplitsVerifiers` | tools/audit_chain_verify.py:328-400 | any row well formed for the Python verifier and of a laxer family, appended to a chain the engine accepts, gives a chain only the Python verifier accepts |
| `AuditWriter.MalformedHashOnlyMirror` | tools/audit_chain_verify.py:403-419 | first family inhabited: a memory-world delete with a malformed body hash |
| `AuditWriter.HugeSubjectRowOnlyMirror` | tools/audit_chain_verify.py:455-464 | second family: every delete whose subject proof is right but for a row number past i64 |
| `AuditWriter.OddDigitOnlyMirror` | tools/audit_chain_verify.py:188-198 | third family: every put or append whose timestamp has a digit beyond ASCII |
| `AuditWriter.OddTimestampPasses` | tools/audit_chain_verify.py:188-198 | third family inhabited: a timestamp with a superscript two |
| `EventId.EventIdRoundTrip` | core/src/subscription_event_id.rs:261-308 | a string parses to an id exactly when it is the rendering of that valid id |
| `EventId.RenderedCursorsDistinct` | core/src/subscription_event_id.rs:330-373 | distinct ids have distinct renderings |
| `EventId.SplitUndoesJoin` | core/src/subscription_event_id.rs:261-308 | splitting at the last delimiters recovers world, incarnation and row, whatever the world contains |
| `WorldPath.DiskNameRoundTrip` | tools/audit_chain_verify.py:110-136 | a directory name decodes to a world exactly when the world is canonical and encodes to that name |
| `WorldPath.DiskNamesDistinct` | tools/audit_chain_verify.py:110-118 | distinct worlds get distinct directory names |
| `WorldPath.DiskNameIsOneComponent` | core/src/path.rs:83-90 | a directory name holds no separator, dot or other special byte |
| `WorldPath.DiskWorldNameLen` | core/src/path.rs:75-81 | the length estimate is the length of the encoded name |
| `WorldPath.DotSegmentIff` | core/src/path.rs:100-125 | the dot-segment test is true exactly when the percent-decoded segment is `.` or `..` |
| `WorldPath.ValidateWorld` | core/src/path.rs:45-73 | the engine's ordered tests accept exactly the canonical worlds |
| `WorldPath.IsCanonicalWorld` | tools/audit_chain_verify.py:235-246 | so do the Python verifier's |
| `WorldPath.DecodeUndoesEncode` | tools/audit_chain_verify.py:110-136 | percent decoding undoes percent encoding for any set of kept bytes without `%` (section 2.1 of RFC 3986) |
| `WorldPath.EncodeLoop` | core/src/subscription_event_id.rs:360-373 | the byte loop computes that encoding |
| `FileOpGate.CountsPermitsIff` | core/src/state.rs:85-129 | throughout a run the counter equals the number of live permits exactly when there are never more permits than a `usize` can count |
| `FileOpGate.DrainNeverOverlaps` | core/src/state.rs:739-757 | once any shutdown wait has returned, no permit exists in that state or any later one |
| `FileOpGate.ParkedWaitsForAPermit` | core/src/state.rs:102-114 | no lost wake-up: a parked shutdown is waiting for a live permit |
| `FileOpGate.RefusedIffFlagStored` | core/src/state.rs:85-100 | a caller is refused exactly when the shutdown flag was stored before its first or second look at it, and admitted otherwise |
| `FileOpGate.StepKeepsInv` | core/src/state.rs:85-129 | each atomic access, mutex section, notification and spurious wake-up keeps the gate's invariant |
| `WorldLocks.OneLiveLockPerWorld` | core/src/state.rs:359-395 | after any run two callers share a mutex exactly when they name the same world, and the table names it |
| `WorldLocks.MutualExclusion` | core/src/state.rs:359-364 | at most one holder per world |
| `WorldLocks.BlockedOnlyBySameWorld` | core/src/state.rs:359-364 | a waiter can proceed exactly when nobody holds the same world |
| `WorldLocks.SweepThenAskSharesLock` | core/src/state.rs:385-395 | after any sweep a new request still gets the mutex in use |
| `WorldLocks.ReleaseLetsAWaiterIn` | core/src/state.rs:359-364 | a waiter blocked by a holder can go ahead once that holder releases |
| `WorldLocks.SweptEmptyIffUnused` | core/src/state.rs:393-395 | the table can be swept empty exactly when no task is left |
| `StorageQuota.StorageCounter.Reserve` | core/src/state.rs:821-859 | granted exactly when the grown counter fits the quota; growth is published, credit kept back; a denial changes nothing and reports the projection |
| `StorageQuota.AccountedIffPredictsRight` | core/src/state.rs:896-912 | throughout a run the counter is committed usage plus everything pending, exactly when no transaction prunes less than was predicted |
| `StorageQuota.RunKeepsAccounts` | core/src/state/storage_reservation.rs:13-46 | in such a run the counter also stays within quota if it started there |
| `StorageQuota.AbortUndoesReserve` | core/src/state.rs:1006-1049 | dropping a reservation restores the counter and every account |
| `StorageQuota.RemoveFreesUsage` | core/src/state.rs:914-937 | a delete whose credit is published leaves the world with no account and the counter down by exactly its usage, everything else as it was |
| `StorageQuota.StepKeepsAccounts` | core/src/world_ops.rs:258-312 | a step keeps that exactly when it prunes as predicted, and what it gives back is part of the counter, so no subtraction saturates |
| `StorageQuota.EverySubsetFits` | core/src/state.rs:802-820 | any subset of pending reservations may commit and the rest drop, and total usage fits the quota |
| `StorageQuota.SettlesExactlyIff` | core/src/state.rs:896-912 | a commit's credits balance exactly when no less was pruned than predicted |
| `StorageQuota.OverQuotaRefusesAll` | core/src/state.rs:841-858 | a reservation is refused exactly when counter plus growth exceeds the quota; above quota every write is refused |
| `MemoryStore.MemoryStore.WriteWithQuota` | core/src/store.rs:154-205 | stored exactly when the whole store with the entry replaced fits; otherwise nothing changes and the error reports used, quota and projection; the subtraction cannot underflow |
| `MemoryStore.MemoryStore.AppendWithQuota` | core/src/store.rs:212-271 | the same as writing the concatenation with the world's own metadata; a missing world changes nothing |
| `MemoryStore.MemoryStore.Delete` | core/src/store.rs:273-289 | succeeds exactly when the world exists; the later failure exits cannot be taken |
| `MemoryStore.EntryBytes` | core/src/store.rs:363-386 | the checked additions give the charge, or nothing exactly when it does not fit a `usize` |
| `MemoryInterleaving.CounterIsSum` | core/src/store.rs:154-289 | over every interleaving, whenever the quota mutex is free the counter is the sum of entry charges and within quota |
| `MemoryInterleaving.NeverUnderflows` | core/src/store.rs:388-390 | no interleaving underflows; a delete that found its entry succeeds; a write is refused exactly when the store would exceed the quota |
| `MemoryLinear.Linearizable` | core/src/store.rs:154-289 | over every interleaving: the entries are those the calls leave when made one after another in the order they were decided, and every caller that has returned got the answer it gets there |
| `DeleteProtocol.LedgerTellsTheStory` | core/src/delete_ops.rs:151-383 | over every interleaving of delete stages with other worlds' writes, with any faults: each commit or commit-failed row directly follows the intent with equal target, hash and headers; each removal directly follows an intent carrying the final head; each delete ping names its intent; the format row is first and only first; ledger broadcasts are the ledger rows in order |
| `DeleteProtocol.NoInternalInvariant` | core/src/delete_ops.rs:252-270 | over every interleaving neither internal-invariant exit is taken: the appended event is the intent and the usage proof is for this store and world |
| `DeleteProtocol.CountersExactIff` | core/src/delete_ops.rs:252-263 | over every interleaving the byte, event and world counters end equal to what they count, exactly when no removal destroyed a database and then reported failure |
| `DeleteProtocol.DeleteOutcome` | core/src/delete_ops.rs:151-335 | the world is gone exactly on success, on failed commit, or on a removal that failed after destroying the database; other worlds are untouched; no internal-invariant error (which answer means what: `DeleteAnswers.AnswerMeans`) |
| `DeleteProtocol.FailedRemovalLeavesWorldIff` | core/src/delete_ops.rs:244-249 | a removal reported as failed leaves mark and usage as they were, no tombstone, and the intent as the ledger's last row; it leaves the world exactly when the database was not destroyed |
| `DeleteProtocol.AppendKeepsLedgerOk` | core/src/ledger.rs:170-239 | an append keeps the ledger's shape and broadcasts, and its row is the last |
| `DeleteProtocol.Core.DeleteBlocking` | core/src/delete_ops.rs:151-335 | the in-place sequence computes `Delete` on the whole shared state; `DeleteAnswers` says what that is |
| `DeleteAnswers.AnswerMeans` | core/src/delete_ops.rs:279-335 | for every state, request and fault: `Deleted` exactly when the ledger ends with this delete's commit right after its own new intent; `AuditCommitFailed` exactly when the world is gone, the removal reported no failure and no commit row is there, the commit-failed row then standing last unless its append failed too; `FailedAfterIntent` exactly when the intent is last and the removal failed; any other answer exactly when the ledger is unchanged |
| `DeleteAnswers.LastStageAnswers` | core/src/delete_ops.rs:279-335 | the same of the last stage in every interleaving: the intent is still the last row, the world is gone, and the answer tells which row was appended |
| `DeleteAnswers.DeletedIff` | core/src/delete_ops.rs:151-335 | a delete succeeds exactly when nothing refuses it, its intent and commit can be appended and its removal works |
| `DeleteAnswers.DeletedLeavesNothing` | core/src/delete_ops.rs:236-277 | after success the world has no mark, no cached writer and no tombstone, and subscribers were told of the intent, the removal and the commit in that order |
| `DeleteAnswers.RefusedChangesNothing` | core/src/delete_ops.rs:151-208 | a delete is refused exactly when a cause holds: ledger world, shutdown, failed precondition, invalid metadata, reserved header, storage failure, missing world; the first in that order is the answer, and nothing changes |
| `DeleteProtocol.DeleteIsRun` | core/src/delete_ops.rs:135-149 | `Delete` is one of the runs the theorems quantify over |
| `DeleteProtocol.Core.RemoveAndTell` | core/src/delete_ops.rs:239-277 | drain, removal, counters and ping compute the removal stage, both internal-invariant exits included |
| `DeleteProtocol.Core.SettleCounters` | core/src/state.rs:914-937 | usage is subtracted exactly for a proof of this store and world |
| `DeleteProtocol.Core.LedgerAppend` | core/src/ledger.rs:170-239 | the ledger is opened on first use and counted only then; the genesis append adds the format row first |
| `DeleteProtocol.Core.AppendLedgerEventAndNotify` | core/src/delete_ops.rs:337-354 | reserving two events and giving back the unused one counts exactly the rows appended; failures leave ledger, broadcasts and count alone |
| `DeleteProtocol.Core.NotifyLedgerEvent` | core/src/delete_ops.rs:356-383 | the format row is broadcast before the event row |

## Left out

- SQLite, the file system and Tokio: storage calls succeed or fail as a parameter says, a failed transaction changes nothing, and a removal succeeds, fails with the database intact, or fails after destroying it.
- Retained bodies (content-addressed storage) and live-body checks: retention only enters through the byte counts of the quota model.
- Relaxed-memory effects: every atomic access is a sequentially consistent step.
- Authentication tiers, token comparison, memory wiping, error-to-engine mapping: single-branch facts.
- HTTP range parsing, path shorthand, adapters, SDKs, repository tooling, and the FFI but for the loop that pumps a subscription: not the database core.
- The test-only process-local cursor and legacy decimal ids.
- CPython's limit on the length of decimal strings: the modelled Python verifier accepts a subject row number of any length; rows past that limit are in its second laxer family either way.
- Abandoned `recv` calls: `recv` is modelled as run to completion.
- Wrap-around of the 64-bit delivery-id and access-tick counters, and collisions of random generations: ids are unbounded and generations are fresh.
- Storage errors while a subscription is being opened: they end the call before a subscription exists.
- `ReadCacheProtocol.RunKeepsInv`: the shutdown drain is not a step, because it runs only when no read holds a file-operation permit (`FileOpGate.DrainNeverOverlaps`).
- `ReadCacheEviction.ReadCache.TrimOverCap`: without concurrent mutation of the table.
- `ReadCacheEviction.ReadCache.DrainAll`: no waiting for guards and no concurrent inserts, which the shutdown gate excludes.
- `AuditChain.AcceptedSnoc`: row checks only; the engine's retained-body checks are not part of a chain being intact here.
- `AuditChain.PrefixAccepted`: likewise row checks only; a truncated chain may leave retained bodies unreferenced.
- `StreamingVerifier.FullWalkIsPrefixAndTail`: likewise; the retention and live-body parts of the two gates are not modelled.
- `RingOverlap.WorldEventsAscend`: a sufficient condition; an event sent late from before the marker may be out of place without breaking the order of the others.
- `DeleteProtocol.LedgerTellsTheStory`: intent, removal and commit are one step each; what other worlds do falls between them.
- The pessimistic audit-event reservation of ordinary writes: only the ledger's own use of it is modelled.
