# Verified core of qdrant: recovery, routing, consensus, queries and the MIRAGE reference

Dafny models of the parts of qdrant where a small mistake loses data without an error, with proofs about every input, every
run or every reachable state. `dafny verify dfyconfig.toml` checks all of it.

| files | what they model |
|---|---|
| `MirageGraph`, `MirageFlags`, `MirageReach`, `MirageBuild`, `MirageCut`, `MirageRing`, `MirageRun`, `MirageBuilder`, `MirageShrink`, `RandomIds`, `WeakComponents` | the reference construction of the MIRAGE graph: random start, pruning with hand-over, reverse edges, shrinking, component count |
| `ClockMaps`, `WalDelta`, `WalDeltaTheorems`, `WalDeltaOutcomes`, `WalOrdering`, `RecoverableWal`, `WalWriters` | vector-clock recovery: clock maps, WAL delta resolution, the ordering property, replay, concurrent writers |
| `HashRing`, `Router` | consistent hashing and the resharding hand-off |
| `ReadyLoop`, `ReadyHistory`, `ReadyPromises`, `MessageSender` | crash-safe processing of Raft readies and the two-queue message sender |
| `QueryPlan`, `QueryPlanner`, `QueryLeaves`, `QueryResults`, `QueryWitness`, `Filters`, `RankFusion`, `RankWorth` | flattening nested queries into batches, evaluating the plans in place, merging filters, reciprocal rank fusion |
| `Placement` | even replica placement |
| `Reachability`, `FiniteSets`, `Options` | shared facts about paths and finite sets |

In-place code is modelled by classes and methods, each proved equal to a specification function; the theorems are about those
functions.

## What came out

- The flag of MIRAGE pool entries is a sound cache over whole builds. Reachability survives every update pass. It survives
  adding reverse edges when the cap drops no neighbour, which cannot happen at the fixture's sizes as long as no node has two
  equally far neighbours in a pass. The fixture's vectors do have ties in exact arithmetic, so that remains a condition on the
  run. A build is given in which the cap drops a neighbour and a path is lost.
- WAL deltas cover for every recovery point if and only if the log is replayable. The ordering property without gaps is
  enough, and then the returned start is the latest possible. The form that allows gaps is not enough.
- A resolution reads newest clocks, oldest clocks and log under three locks. Whatever is written between, nothing logged
  when it began is missed. What is written in between can be missed, with nothing in flight at any of the reads; the exact
  condition is proved. A write in flight, or one whose append failed after its clock had advanced, can make it answer
  "nothing to send" to a replica that lags, on one clock only.
- Two writers on one clock at a time, or a write forced below the newest tick, break coverage until the higher tick is
  written again.
- Start and abort of resharding cancel if and only if the start was sensible. Aborting in the wrong direction commits.
  Shards added meanwhile end up as if added after a commit, or without a start after an abort, except the one being removed
  or added: adding that one is refused meanwhile.
- Every crash point of the ready loop and of restarts is safe. The stored applied index is not monotone: Raft is started with
  the applied index read before leftover entries are applied, so it hands them out again. A run and the exact condition are
  proved. No index is skipped, what is committed never changes, and an index applied again is applied with the same entry.
  A vote that was stored stands through every crash.
- Filters of a query and its prefetches are merged by joining their conditions. Joining `should` or `min_should` conditions can
  let in points that the query's own filter keeps out; the exact condition is proved for each of the two.
- Rank fusion returns every id once in order of its score, for any rank constant. With a constant of zero and a weight above one a list can rank its last point
  first; the exact condition is proved.
- The sender loses nothing if one select is atomic. If it looks at its sources one after the other, a queued message can be
  overtaken by a newer heartbeat and skipped; the exact condition is proved.
- The example in the comment of even placement is not a placement the code makes; the model follows the code.

## Assumptions

These come in as parameters or as conditions on them.

- Sorting is any function to an ordered permutation; random draws, the offset and the shuffle are arbitrary values.
- Distances and scores are real numbers; a MIRAGE distance is symmetric.
- The ring hash has no collisions; a ring lookup is the first node at or after the key, wrapping around.
- Raft hands out readies as its contract says: new entries are consecutive, start above the commit index and leave no hole; the
  commit index grows and stays within the log; committed entries continue where it left off. Where votes are spoken of, it
  asks to store no other vote in a term.
- Segment searches and scrolls honour their filter and limit; distribution-based fusion, formula and MMR scoring return
  points of their sources, and where thresholds are spoken of, searches and formulas honour them. The iteration order of the hash map in rank fusion is arbitrary.
- Which log writes succeed is given as a parameter or, among concurrent writers, as a choice of each step.
- Each query for a random sample carries its own draw, so that two samples need not agree.
- The peers given to placement are distinct where distinct replicas and balance are claimed.

## Model

| member | source | states |
|---|---|---|
| `MirageFlags.ShortcutSoundOverBuild` | qdrant/tools/mirage_golden/dump_mirage_golden.cpp:142-296 | main: over any number of rounds and iterations, from any settled graph, the build that skips pairs of old entries equals, state by state, the build that compares every pair; every pool on the way stays settled (two old entries with different ids are no nearer to each other than to the owner) |
| `MirageFlags.ShortcutExact` | qdrant/tools/mirage_golden/dump_mirage_golden.cpp:216-243 | on a settled pool the skip changes neither the survivors nor the edges handed over |
| `MirageFlags.SurvivorsDiverse` | qdrant/tools/mirage_golden/dump_mirage_golden.cpp:206-243 | survivors of a sorted pool are nearest first, have distinct ids, and each is at least as far from every earlier survivor as from the owner |
| `MirageFlags.SurvivorsSettle` | qdrant/tools/mirage_golden/dump_mirage_golden.cpp:206-248 | clearing the flags of survivors leaves a settled pool: the cleared flag never claims a comparison that was not made |
| `MirageFlags.UpdateNodeSettles` | qdrant/tools/mirage_golden/dump_mirage_golden.cpp:201-250 | one node's update gives the same graph with and without the skip and keeps every pool settled, including the pools it hands edges to |
| `MirageFlags.UpdateFlags` | qdrant/tools/mirage_golden/dump_mirage_golden.cpp:226-248 | after its update a node has old entries only, and what it handed over is new where it went |
| `MirageFlags.UpdatePassSettles` | qdrant/tools/mirage_golden/dump_mirage_golden.cpp:201-250 | the same for a pass over the first k nodes |
| `MirageFlags.ReverseEdgesSettle` | qdrant/tools/mirage_golden/dump_mirage_golden.cpp:252-296 | adding reverse edges keeps every pool settled |
| `MirageFlags.UpdatesSettle` | qdrant/tools/mirage_golden/dump_mirage_golden.cpp:142-172 | the same for any number of update passes in a row |
| `MirageReach.UpdatePassKeepsReach` | qdrant/tools/mirage_golden/dump_mirage_golden.cpp:201-250 | main: every pair of nodes connected by a directed path before an update pass is connected after it |
| `MirageReach.UpdatedNodeDetours` | qdrant/tools/mirage_golden/dump_mirage_golden.cpp:201-250 | each edge u to v of an updated node stays or is replaced by u to w to v with w kept and strictly nearer to v than u is |
| `MirageReach.KeptOrHanded` | qdrant/tools/mirage_golden/dump_mirage_golden.cpp:220-243 | every pool entry keeps its id in the pool or is handed to a survivor strictly nearer to it |
| `MirageReach.OtherNodesKeepEdges` | qdrant/tools/mirage_golden/dump_mirage_golden.cpp:201-250 | updating one node takes no edge from another |
| `MirageReach.ReverseWithinClosure` | qdrant/tools/mirage_golden/dump_mirage_golden.cpp:252-296 | adding reverse edges adds nothing outside the symmetric closure of the old graph, and bounds every pool by the cap |
| `MirageRun.ReverseKeepsNearest` | qdrant/tools/mirage_golden/dump_mirage_golden.cpp:278-295 | both cuts of a reverse-edge pass use up the cap and keep the nearest: no entry that goes is nearer than one that stays |
| `MirageReach.ClosureIffLossless` | qdrant/tools/mirage_golden/dump_mirage_golden.cpp:252-296 | main: adding reverse edges yields exactly the symmetric closure of the graph if and only if cutting the pools at the cap drops no neighbour |
| `MirageReach.TieFreeLosslessIffUncut` | qdrant/tools/mirage_golden/dump_mirage_golden.cpp:278-295 | when no node has two equally far neighbours in the closure, that is the case if and only if neither size test ever cuts |
| `MirageReach.UncutLossless` | qdrant/tools/mirage_golden/dump_mirage_golden.cpp:278-295 | a pass that cuts nothing drops nothing, ties or not |
| `MirageReach.MergedIsClosure` | qdrant/tools/mirage_golden/dump_mirage_golden.cpp:255-277 | before the first cut a pool holds exactly its neighbours in the symmetric closure |
| `MirageReach.TieFreeUncut` | qdrant/tools/mirage_golden/dump_mirage_golden.cpp:252-296 | when no node has two equally far neighbours in the closure and there are at most cap + 1 nodes, no pool is cut |
| `MirageReach.TransposeDistinct` | qdrant/tools/mirage_golden/dump_mirage_golden.cpp:255-259 | transposing pools of distinct ids gives pools of distinct ids |
| `MirageBuild.BuildKeepsReach` | qdrant/tools/mirage_golden/dump_mirage_golden.cpp:142-172 | main: if no reverse-edge pass of the run drops a neighbour, the final layer-0 lists connect every pair that the random start graph connects; one way only, see Left out |
| `MirageBuild.BuildKeepsReachTieFree` | qdrant/tools/mirage_golden/dump_mirage_golden.cpp:142-172 | the same with a condition on the pools of the run: at most cap + 1 nodes, and no node has two equally far neighbours in a reverse-edge pass |
| `MirageBuild.TieFreeRunLossless` | qdrant/tools/mirage_golden/dump_mirage_golden.cpp:142-172 | in such a run no reverse-edge pass drops a neighbour |
| `MirageBuild.NoTiesRun` | qdrant/tools/mirage_golden/dump_mirage_golden.cpp:142-172 | an input without any distance ties has only such runs |
| `MirageBuild.TieFreeListDistinct` | qdrant/tools/mirage_golden/dump_mirage_golden.cpp:154-171 | a final list repeats no node if no two neighbours in its pool are equally far |
| `MirageCut.CutLosesReach` | qdrant/tools/mirage_golden/dump_mirage_golden.cpp:142-172 | the condition is needed: with a cap of one, a node with two neighbours that do not prune each other reaches the farther one at the start and not in the final lists, for any number of update passes |
| `MirageCut.ForkExists` | qdrant/tools/mirage_golden/dump_mirage_golden.cpp:142-172 | such an input: three points on a line and a concrete sort |
| `MirageRing.DroppedYetReached` | qdrant/tools/mirage_golden/dump_mirage_golden.cpp:142-172 | the condition is not exact: from a ring of three equally far nodes with a cap of one, the run drops a neighbour of every node and connects all it connected at the start, for any number of update passes |
| `MirageRing.RingExists` | qdrant/tools/mirage_golden/dump_mirage_golden.cpp:142-172 | such an input, with a concrete stable sort |
| `MirageCut.NoneIntoUpdate` | qdrant/tools/mirage_golden/dump_mirage_golden.cpp:201-250 | an update never makes a node a neighbour that was nobody's |
| `MirageBuild.Layer0Lists` | qdrant/tools/mirage_golden/dump_mirage_golden.cpp:154-171 | final lists have in-range ids, never the owner, are nearest first and have exactly the edges of the pools; a list repeats no node if and only if equal ids stand together in its sorted pool |
| `MirageGraph.Rounds` | qdrant/tools/mirage_golden/dump_mirage_golden.cpp:142-172 | throughout the build every entry has an in-range id, is not its owner and carries the true distance |
| `MirageGraph.UniqueDistinctIff` | qdrant/tools/mirage_golden/dump_mirage_golden.cpp:206-214 | removing equal neighbouring ids removes all duplicates if and only if equal ids stand together |
| `MirageGraph.UniqueIsDistinct` | qdrant/tools/mirage_golden/dump_mirage_golden.cpp:206-214 | after a sort it removes all duplicates when no two different ids of this pool are equally far |
| `MirageGraph.DeliverAt` | qdrant/tools/mirage_golden/dump_mirage_golden.cpp:226-237 | what a pool holds after edges are handed over: its old entries and the new, flagged ones, and nothing else |
| `MirageGraph.TransposeAt` | qdrant/tools/mirage_golden/dump_mirage_golden.cpp:255-259 | what a transposed pool holds: entry u at v exactly when v was an entry at u |
| `MirageBuilder.StartGraphOk` | qdrant/tools/mirage_golden/dump_mirage_golden.cpp:179-195 | the random start graph is well formed and settled, whatever was drawn |
| `MirageBuilder.StartGraphHas` | qdrant/tools/mirage_golden/dump_mirage_golden.cpp:179-195 | a node starts with exactly the ids drawn for it, but itself |
| `MirageBuilder.MirageReference.InitGraph` | qdrant/tools/mirage_golden/dump_mirage_golden.cpp:179-195 | the pools become the start graph of the draws: each drawn id but the owner, with its distance, as a heap |
| `MirageBuilder.MirageReference.Compare` | qdrant/tools/mirage_golden/dump_mirage_golden.cpp:225-243 | accepts a candidate that no kept entry beats; otherwise hands it to the first that does |
| `MirageBuilder.MirageReference.PrunePool` | qdrant/tools/mirage_golden/dump_mirage_golden.cpp:216-243 | the loop over a pool yields the specified survivors and delivers exactly the specified edges |
| `MirageBuilder.MirageReference.UpdateOne` | qdrant/tools/mirage_golden/dump_mirage_golden.cpp:202-249 | one node's in-place update equals its specification |
| `MirageBuilder.MirageReference.Update` | qdrant/tools/mirage_golden/dump_mirage_golden.cpp:201-250 | the in-place pass equals its specification and keeps the graph well formed |
| `MirageBuilder.MirageReference.Scatter` | qdrant/tools/mirage_golden/dump_mirage_golden.cpp:255-259 | the scatter loop equals the transpose |
| `MirageBuilder.MirageReference.MergeReverse` | qdrant/tools/mirage_golden/dump_mirage_golden.cpp:261-281 | merges each pool with its incoming edges, marks, sorts, makes unique and cuts; empties the graph |
| `MirageBuilder.MirageReference.SortAndCut` | qdrant/tools/mirage_golden/dump_mirage_golden.cpp:289-295 | every pool is sorted and cut at the cap |
| `MirageBuilder.MirageReference.AddReverse` | qdrant/tools/mirage_golden/dump_mirage_golden.cpp:252-296 | the in-place pass equals its specification and keeps the graph well formed |
| `MirageBuilder.MirageReference.Build` | qdrant/tools/mirage_golden/dump_mirage_golden.cpp:142-172 | the whole imperative build, with the skip, equals the specification without it, and its lists are those of the last graph of a run of exactly `rounds` rounds of `iters` passes; lists are in range and nearest first |
| `MirageRun.PassIsRun` | qdrant/tools/mirage_golden/dump_mirage_golden.cpp:201-250 | a whole update pass is exactly one update of every node, in order |
| `MirageRun.RoundIsUpdates` | qdrant/tools/mirage_golden/dump_mirage_golden.cpp:146-148 | the k-th graph of a round is what k whole passes in a row leave |
| `MirageRun.BuildEnds` | qdrant/tools/mirage_golden/dump_mirage_golden.cpp:142-172 | main: every sequence of graphs made of `rounds` rounds of `iters` whole passes, with one reverse-edge pass between two rounds and none after the last, ends with the graph of the specification |
| `MirageRun.BuildExists` | qdrant/tools/mirage_golden/dump_mirage_golden.cpp:142-172 | and there is one for every start graph and all numbers of rounds and passes |
| `MirageBuilder.MirageReference.Finish` | qdrant/tools/mirage_golden/dump_mirage_golden.cpp:154-171 | the lists are read off the sorted pools |
| `MirageBuilder.BuildGolden` | qdrant/tools/mirage_golden/dump_mirage_golden.cpp:142-172 | at the fixture's constants: the lists keep all reachability of the start graph if no reverse-edge pass drops a neighbour, as when no node has two equally far neighbours in one; a list repeats no node if and only if equal ids stand together in its sorted final pool |
| `MirageBuilder.FixtureTies` | qdrant/tools/mirage_golden/dump_mirage_golden.cpp:97-119 | in exact arithmetic the generated vectors have ties: point 1 is as far from point 0 as from point 2, at a positive distance |
| `MirageShrink.L2Symmetric` | qdrant/tools/mirage_golden/dump_mirage_golden.cpp:112-119 | squared Euclidean distance is symmetric |
| `MirageShrink.L2ZeroIff` | qdrant/tools/mirage_golden/dump_mirage_golden.cpp:112-119 | it is zero between vectors that agree and positive between any others |
| `MirageShrink.L2OneApart` | qdrant/tools/mirage_golden/dump_mirage_golden.cpp:112-119 | between vectors that differ in one component it is the square of that difference, whichever component it is |
| `MirageShrink.GreedyIsPrune` | qdrant/tools/mirage_golden/dump_mirage_golden.cpp:372-414 | the shrink rule keeps what the update rule with full comparison keeps, on distinct ids and a symmetric distance |
| `MirageShrink.GreedyIdempotent` | qdrant/tools/mirage_golden/dump_mirage_golden.cpp:372-414 | shrinking twice is shrinking once |
| `MirageShrink.GreedyGrows` | qdrant/tools/mirage_golden/dump_mirage_golden.cpp:372-414 | more candidates farther away only append to the result |
| `MirageShrink.Shrink` | qdrant/tools/mirage_golden/dump_mirage_golden.cpp:372-414 | the priority-queue loop with early stop returns the first max_size ids that the greedy rule keeps, nearest first |
| `RandomIds.GenRandom` | qdrant/tools/mirage_golden/dump_mirage_golden.cpp:121-135 | main: for size < n the array ends with pairwise distinct ids below n, whatever is drawn |
| `RandomIds.DrawnDistinct` | qdrant/tools/mirage_golden/dump_mirage_golden.cpp:121-135 | the same for the specification of the four steps |
| `RandomIds.DrawnExact` | qdrant/tools/mirage_golden/dump_mirage_golden.cpp:121-135 | which ids are drawn: the least strictly ascending sequence not below the sorted, reduced draws, with all its ids turned by the offset |
| `RandomIds.BumpedSpreads` | qdrant/tools/mirage_golden/dump_mirage_golden.cpp:126-130 | the spreading loop makes a sorted array strictly ascending and raises element i by at most i |
| `RandomIds.RotatedDistinct` | qdrant/tools/mirage_golden/dump_mirage_golden.cpp:131-134 | rotating ascending ids by an offset modulo n keeps them distinct |
| `RandomIds.Fill` | qdrant/tools/mirage_golden/dump_mirage_golden.cpp:122-124 | draws reduced modulo n - size |
| `RandomIds.Spread` | qdrant/tools/mirage_golden/dump_mirage_golden.cpp:126-130 | the in-place loop equals its specification |
| `RandomIds.Rotate` | qdrant/tools/mirage_golden/dump_mirage_golden.cpp:131-134 | the in-place loop equals its specification |
| `WeakComponents.CountComponents` | qdrant/tools/mirage_golden/dump_mirage_golden.cpp:461-497 | main: the stack search reports exactly the number of classes of undirected reachability and the size of a largest one, for every list graph, with out-of-range ids ignored |
| `WeakComponents.ComponentSizesSum` | qdrant/tools/mirage_golden/dump_mirage_golden.cpp:461-497 | component sizes sum to the number of nodes |
| `WeakComponents.ClassesAgree` | qdrant/tools/mirage_golden/dump_mirage_golden.cpp:461-497 | classes partition the nodes |
| `WeakComponents.Explore` | qdrant/tools/mirage_golden/dump_mirage_golden.cpp:476-493 | one search marks exactly the class of its start and counts it |
| `WeakComponents.Push` | qdrant/tools/mirage_golden/dump_mirage_golden.cpp:487-492 | pushes each unvisited neighbour once and marks it |
| `WeakComponents.Adjacency` | qdrant/tools/mirage_golden/dump_mirage_golden.cpp:461-468 | the undirected adjacency has each edge both ways and nothing else |
| `WeakComponents.NewClass` | qdrant/tools/mirage_golden/dump_mirage_golden.cpp:472-497 | a finished search adds exactly one class to those seen |
| `ClockMaps.AdvanceIsMax` | qdrant/lib/collection/src/shards/local_shard/clock_map.rs:101-128 | advancing a clock sets it to the maximum of its tick and the tag's, touches no other clock, and accepts exactly newer ticks and a repeat of the last one with the same token |
| `ClockMaps.ClockMap.AdvanceClockImpl` | qdrant/lib/collection/src/shards/local_shard/clock_map.rs:101-128 | the in-place advance equals the specification, flags a change exactly on acceptance, and moves the recovery point only if no snapshot is held |
| `ClockMaps.ClockMap.AdvanceClockAndCorrectTag` | qdrant/lib/collection/src/shards/local_shard/clock_map.rs:60-84 | a rejected tag is corrected to the clock's tick; a forced one is always accepted |
| `ClockMaps.IncreaseAllClocksBy` | qdrant/lib/collection/src/shards/local_shard/clock_map.rs:261-265 | every clock of a recovery point moves up, none is added or lost |
| `ClockMaps.InitializeClocksMissingFrom` | qdrant/lib/collection/src/shards/local_shard/clock_map.rs:306-313 | clocks only the other side has are added at tick 1 |
| `ClockMaps.RemoveClocksEqualTo` | qdrant/lib/collection/src/shards/local_shard/clock_map.rs:316-324 | removes exactly the clocks with equal ticks |
| `ClockMaps.RemoveSatisfied` | qdrant/lib/collection/src/shards/local_shard/clock_map.rs:330-343 | removes exactly the clock the tag satisfies |
| `WalDelta.ResolveWalDelta` | qdrant/lib/collection/src/wal_delta.rs:202-283 | the imperative preparation and backward scan equal the specification, errors included |
| `WalDeltaOutcomes.ResolveOutcome` | qdrant/lib/collection/src/wal_delta.rs:202-283 | main: each outcome by its own condition on ticks and log: empty, unknown clock, ahead of the source and cut off, each exactly when; answered exactly if the point is not empty, has only clocks of the source at or below its ticks, is not below the cutoff on any clock of the source, and some tagged end of the log serves every lagging clock; it need not have every clock of the source |
| `WalDeltaOutcomes.AcceptableOutcome` | qdrant/lib/collection/src/wal_delta.rs:242-283 | of a point that passes the checks: exactly when it is answered, not found, or stopped by a record that is unreadable or has no tag |
| `WalDeltaOutcomes.AcceptableIsServed` | qdrant/lib/collection/src/wal_delta.rs:202-283 | main: a tagged log that holds the first missing tick of every lagging clock answers every such point, one that never saw some clock of the source included; on a gap-free log with the latest start that covers |
| `WalDeltaOutcomes.PrepareOutcome` | qdrant/lib/collection/src/wal_delta.rs:202-249 | the checks before the scan, each exactly when it refuses |
| `WalDeltaOutcomes.ScanOutcome` | qdrant/lib/collection/src/wal_delta.rs:251-283 | how a scan ends and where, from any point of the log |
| `WalDelta.ScanStops` | qdrant/lib/collection/src/wal_delta.rs:251-283 | where a successful scan stops: the record that satisfies the last wanted clock, or the one after it |
| `WalDeltaTheorems.DeltaCovers` | qdrant/lib/collection/src/wal_delta.rs:202-283 | main: on a replayable log bounded by the newest clocks, a returned record number has every tag above the recovery point at or after it, clocks the target never saw included, and every record from it on is tagged |
| `WalDeltaTheorems.LaggingCovered` | qdrant/lib/collection/src/wal_delta.rs:202-283 | whatever the newest clocks are, on a replayable log every tag above the recovery point on a lagging clock occurs at or after the returned record, and every record from it on is tagged |
| `WalDeltaTheorems.CoverageIffReplayable` | qdrant/lib/collection/src/wal_delta.rs:202-283 | main: coverage holds for every recovery point if and only if the log is replayable: a tick followed by a lower one of its clock occurs again later, or is below the cutoff |
| `WalDeltaTheorems.StepBackUnsound` | qdrant/lib/collection/src/wal_delta.rs:202-283 | the failing family: any step back that is not repeated has a recovery point whose delta misses a tag |
| `WalDeltaTheorems.GapFreeReplayable` | qdrant/lib/collection/src/wal_delta.rs:1804-1882 | the gap-free ordering property makes a log replayable |
| `WalDeltaTheorems.DeltaIsLatest` | qdrant/lib/collection/src/wal_delta.rs:251-283 | main: on a gap-free log the starts that cover are exactly those up to the returned one: no later start would do |
| `WalDeltaTheorems.StopIsFirstMissing` | qdrant/lib/collection/src/wal_delta.rs:251-283 | on a gap-free log the record returned is itself missing on the target: the last occurrence of the tick after the target's |
| `WalDeltaTheorems.NoneIffEqual` | qdrant/lib/collection/src/wal_delta.rs:202-283 | nothing is to be sent if and only if the recovery point is not empty and has the newest tick of every clock |
| `WalDeltaTheorems.NothingToSendIff` | qdrant/lib/collection/src/wal_delta.rs:242-283 | main: nothing is to be sent if and only if no clock lags, or exactly one does and the last record of the log is of that clock with a tick the target has; on any log and clocks that pass the checks |
| `WalDeltaTheorems.ScanNoneIff` | qdrant/lib/collection/src/wal_delta.rs:251-283 | the scan names no record if and only if the last record alone satisfies all that is wanted, with a tick to spare |
| `WalDeltaTheorems.NotFoundIffTruncated` | qdrant/lib/collection/src/wal_delta.rs:202-283 | the not-found error is returned if and only if some lagging clock has no record at or below the tick after the target's |
| `WalDeltaTheorems.WantedAreLagging` | qdrant/lib/collection/src/wal_delta.rs:208-249 | after preparation exactly the lagging clocks are wanted, each at its next tick; a target ahead of the source or below the cutoff is refused |
| `WalDeltaTheorems.ScanFinds` | qdrant/lib/collection/src/wal_delta.rs:251-283 | the scan succeeds when every wanted clock has a satisfying record |
| `WalOrdering.CheckOrdering` | qdrant/lib/collection/src/wal_delta.rs:1804-1882 | main: the quadratic test routine accepts exactly the logs in which every tag is followed, per clock, by what the property asks, with and without gaps |
| `WalOrdering.StrictCheck` | qdrant/lib/collection/src/wal_delta.rs:1834-1879 | the running counter passes the clock's maximum only if every tick in between was seen after the tag |
| `WalOrdering.GapsCheck` | qdrant/lib/collection/src/wal_delta.rs:1834-1879 | the same for the form that allows gaps, as an equivalence |
| `WalOrdering.FrontSeen` | qdrant/lib/collection/src/wal_delta.rs:1839-1864 | what the running counter stands for at any point |
| `WalOrdering.HighestClocks` | qdrant/lib/collection/src/wal_delta.rs:1825-1832 | the highest tick per clock |
| `WalOrdering.FirstUnseen` | qdrant/lib/collection/src/wal_delta.rs:1839-1864 | the inner loop computes the counter |
| `WalOrdering.CheckedIsGapFree` | qdrant/lib/collection/src/wal_delta.rs:1804-1882 | a log that passes without gaps is gap free, so the delta theorems apply |
| `WalOrdering.GapsDefeatCoverage` | qdrant/lib/collection/src/wal_delta.rs:1804-1882 | a log that passes only with gaps allowed (ticks 3, 1, 4) has a recovery point whose delta misses a tag |
| `RecoverableWals.Recover` | qdrant/lib/collection/src/wal_delta.rs:131-176 | main: resolve, then append from the source: what was appended and how the clocks moved; from a replayable log without a clocks snapshot no source tag above the recovery point is missing, and the target's ticks then equal the source's if and only if each lagging newest tick was logged; a failed resolve changes nothing; with forced tags and no failed write it succeeds exactly when the resolve does |
| `RecoverableWals.ReplayConverges` | qdrant/lib/collection/src/wal_delta.rs:50-72 | replaying the delta of a replayable log misses no tag, and brings every clock to the source's newest tick if and only if each lagging newest tick is in the log |
| `RecoverableWals.ClockConvergesIff` | qdrant/lib/collection/src/wal_delta.rs:50-72 | the same for one clock and any covering start |
| `RecoverableWals.AfterWritesIsMax` | qdrant/lib/collection/src/wal_delta.rs:50-72 | a run of writes leaves each clock at the maximum of its tick and those written |
| `RecoverableWals.RecoverableWal.LockAndWrite` | qdrant/lib/collection/src/wal_delta.rs:50-72 | an accepted operation advances its clock and is appended under the next number; if the write fails the clock has advanced all the same and nothing is appended; a rejected operation changes nothing and comes back with the clock's tick |
| `RecoverableWals.RecoverableWal.UpdateCutoff` | qdrant/lib/collection/src/wal_delta.rs:106-122 | both clock maps rise to the cutoff on every clock and fall on none |
| `RecoverableWals.AdvanceAll` | qdrant/lib/collection/src/wal_delta.rs:106-122 | advancing tag by tag merges a recovery point into a clock map |
| `RecoverableWals.RecoverableWal.ResolveDelta` | qdrant/lib/collection/src/wal_delta.rs:131-149 | resolves against the recovery points of both clock maps |
| `RecoverableWals.RecoverableWal.AppendFrom` | qdrant/lib/collection/src/wal_delta.rs:162-176 | appends the source's records in order and stops at the first one rejected or not written; in the latter case its clock has advanced |
| `WalWriters.RunSafe` | qdrant/lib/collection/src/wal_delta.rs:50-122 | main: in every interleaving of writers and cutoff updates, failed ones included, between all locked sections, no record or pending tag is above the newest clocks and oldest is not above newest |
| `WalWriters.WriteIsTwoSteps` | qdrant/lib/collection/src/wal_delta.rs:50-72 | a write of the WAL object is a begin and an append, or a begin and a failure, with the clocks and log the object ends with; a rejected one changes nothing |
| `WalWriters.RunOrdered` | qdrant/lib/collection/src/wal_delta.rs:50-72 | main: with one writer per clock at a time and no write forced below the newest tick, appends and cutoff updates failing or not, ticks per clock are ordered in the log and every newest tick is logged, cut off, in flight, or lost by a failed write or cutoff update |
| `WalWriters.BeginKeepsOrderIff` | qdrant/lib/collection/src/wal_delta.rs:50-72 | exactly which accepted writes, forced or not, keep the order: those alone on their clock and not below a logged tick of it |
| `WalWriters.RunDeltaCovers` | qdrant/lib/collection/src/wal_delta.rs:131-149 | main: newest clocks, oldest clocks and log are read under three locks, with any steps between: every tag above the recovery point is sent if its clock lagged or if it is not above the newest clocks as read |
| `WalWriters.RunDeltaCoversStart` | qdrant/lib/collection/src/wal_delta.rs:131-149 | main: nothing that was logged when the resolution began is missed |
| `WalWriters.RunDeltaSoundIff` | qdrant/lib/collection/src/wal_delta.rs:131-149 | main: a resolution misses nothing in the log it reads, for every recovery point, if and only if no record was logged above the newest clocks as read, or every recovery point is refused |
| `WalWriters.RunNothingToSend` | qdrant/lib/collection/src/wal_delta.rs:131-149 | main: if nothing is to be sent although the target lags, it lags on one clock, whose newest tick is in flight, was lost, or was cut off after the oldest clocks were read |
| `WalWriters.LateWriteMissed` | qdrant/lib/collection/src/wal_delta.rs:131-149 | a run with nothing in flight at either read: a write between them is logged and not sent |
| `WalWriters.InFlightWriteHidden` | qdrant/lib/collection/src/wal_delta.rs:50-149 | a run in which a write in flight makes the answer that nothing is to be sent although the target lags |
| `WalWriters.FailedAppendHidden` | qdrant/lib/collection/src/wal_delta.rs:50-149 | a run with nothing in flight at the end: after a failed append the answer is that nothing is to be sent although the target lags |
| `WalWriters.TwoWritersDisorder` | qdrant/lib/collection/src/wal_delta.rs:50-72 | two writers on one clock, both done: a recovery point whose delta misses a tag |
| `WalWriters.ForcedWriteDisorder` | qdrant/lib/collection/src/shards/local_shard/clock_map.rs:60-84 | one writer that forces an older tick: a recovery point whose delta misses a tag |
| `WalWriters.RepeatRestores` | qdrant/lib/collection/src/shards/local_shard/clock_map.rs:101-128 | writing the higher tick again with its token is accepted, and then every recovery point is covered again |
| `WalWriters.SafeStep` | qdrant/lib/collection/src/wal_delta.rs:50-122 | one step, forced or not, keeps the bounds |
| `WalWriters.OrderedStep` | qdrant/lib/collection/src/wal_delta.rs:50-72 | one disciplined step keeps the order |
| `WalWriters.RunGrows` | qdrant/lib/collection/src/wal_delta.rs:50-122 | clocks only rise and the log only grows |
| `WalWriters.AccountedStep` | qdrant/lib/collection/src/wal_delta.rs:50-122 | one disciplined step, failed or not, loses track of no newest tick |
| `HashRings.AddMovesLittle` | qdrant/lib/collection/src/hash_ring.rs:228-246 | main: adding a shard leaves a key's shard or moves the key to the new shard |
| `HashRings.RemoveMovesOnlyItsKeys` | qdrant/lib/collection/src/hash_ring.rs:248-266 | main: removing a shard changes a key's shard if and only if the key was on it |
| `HashRings.GrowingMovesOnlyToNew` | qdrant/lib/collection/src/hash_ring.rs:270-276 | the same between any two rings with nested node sets |
| `HashRings.RunWellFormed` | qdrant/lib/collection/src/hash_ring.rs:228-266 | after any run of adds and removes the ring is sorted and holds exactly each shard times 0..scale |
| `HashRings.SameNodesSameRing` | qdrant/lib/collection/src/hash_ring.rs:228-266 | a ring is determined by its shards: history leaves no trace |
| `HashRings.AddRemoveInverse` | qdrant/lib/collection/src/hash_ring.rs:228-266 | add and remove undo each other |
| `HashRings.GetIsNode` | qdrant/lib/collection/src/hash_ring.rs:270-276 | a key's shard is in the ring, and there is one when the ring is populated |
| `HashRings.SuccessorOwns` | qdrant/lib/collection/src/hash_ring.rs:270-276 | the looked-up node is the first at or after the key, or the first of all: stated on the set, not the array |
| `HashRings.SortedUnique` | qdrant/lib/collection/src/hash_ring.rs:228-276 | two sorted rings with the same nodes are equal |
| `HashRings.FiltersPartition` | qdrant/lib/collection/src/hash_ring.rs:330-332 | every key passes the filter of exactly one shard |
| `HashRings.HashRing.Add` | qdrant/lib/collection/src/hash_ring.rs:228-246 | in place: the ring with the shard's nodes, and whether it was absent |
| `HashRings.HashRing.Remove` | qdrant/lib/collection/src/hash_ring.rs:248-266 | in place: the ring without them, and whether it was present |
| `Routers.HandoffState` | qdrant/lib/collection/src/hash_ring.rs:35-80 | main: after a sensible start and any adds, old and new ring differ in exactly the target shard |
| `Routers.EveryKeyRouted` | qdrant/lib/collection/src/hash_ring.rs:15-151 | main: for every router reached from a new one by adding, starting, committing and aborting in any order, a key is routed nowhere if and only if there is no shard, otherwise to at most two of the shards there are, and belongs to one whenever the new ring has any |
| `Routers.StartLeavesShards` | qdrant/lib/collection/src/hash_ring.rs:57-80 | the test before a start keeps the new ring from losing its last shard |
| `Routers.StartKeepsRoutes` | qdrant/lib/collection/src/hash_ring.rs:57-80 | starting, sensibly or not, keeps every key routed to the shard it was on |
| `Routers.CommitNarrows` | qdrant/lib/collection/src/hash_ring.rs:82-90 | committing routes only where a key was routed before, and exactly where is_in_shard said before |
| `Routers.AbortNarrows` | qdrant/lib/collection/src/hash_ring.rs:92-138 | a matching abort leaves the old ring and routes only where a key was routed before |
| `Routers.TwoRoutesIffMoving` | qdrant/lib/collection/src/hash_ring.rs:140-151 | exactly the keys that go to or come from the target move, and a moving key has two shards exactly when neither ring is empty |
| `Routers.CommitAsIfResizedFirst` | qdrant/lib/collection/src/hash_ring.rs:35-90 | main: for any shards added meanwhile, committing gives the router that resized first and added after, if and only if the shard being removed is not among them |
| `Routers.AbortAsIfNeverStarted` | qdrant/lib/collection/src/hash_ring.rs:35-138 | main: for any shards added meanwhile, a matching abort gives the router that never started, if and only if the shard being added is not among them |
| `Routers.AbortUndoesStart` | qdrant/lib/collection/src/hash_ring.rs:57-138 | start then abort restores the router if and only if the shard to add was absent or the one to remove present |
| `Routers.AbortOtherShard` | qdrant/lib/collection/src/hash_ring.rs:92-138 | aborting any other shard, in either direction, changes nothing |
| `Routers.AbortWrongDirectionCommits` | qdrant/lib/collection/src/hash_ring.rs:92-138 | aborting the target in the wrong direction commits |
| `Routers.HashRingRouter.AddShardToRings` | qdrant/lib/collection/src/hash_ring.rs:35-55 | in place: adds to both rings or to neither |
| `Routers.HashRingRouter.StartResharding` | qdrant/lib/collection/src/hash_ring.rs:57-80 | in place: clones the ring and resizes both copies |
| `Routers.HashRingRouter.CommitResharding` | qdrant/lib/collection/src/hash_ring.rs:82-90 | in place: keeps the new ring |
| `Routers.HashRingRouter.AbortResharding` | qdrant/lib/collection/src/hash_ring.rs:92-138 | in place: collapses only if both rings agree after the undo, and says whether it did |
| `ReadyLoop.RunCrashSafe` | qdrant/src/consensus.rs:862-1035 | main: in every run of turns, restarts, and crashes between any two durable steps of either, at each such point applied is at most commit, commit at most the last log index, every entry still to apply is in the log, and no persisted message leaves before the ready's hard state, field by field, and each of its entries are on disk |
| `ReadyLoop.StepSafe` | qdrant/src/consensus.rs:862-1035 | the same for all points within one turn, crash or restart |
| `ReadyLoop.TurnSafe` | qdrant/src/consensus.rs:862-887 | the same for a turn, and Raft stays at or behind the stored applied index |
| `ReadyLoop.ReadySafe` | qdrant/src/consensus.rs:911-992 | all points within a ready are safe and its messages in order |
| `ReadyLoop.LightSafe` | qdrant/src/consensus.rs:1000-1035 | all points within a light ready are safe; unless consensus stops, applied ends at the last committed entry |
| `ReadyLoop.CommittedSafe` | qdrant/src/consensus.rs:1075-1086 | queueing and applying committed entries is safe at every point and ends at the last one unless consensus stops |
| `ReadyLoop.AppendSafe` | qdrant/lib/storage/src/content_manager/consensus/consensus_wal.rs:160-262 | every truncation and append of an entry batch leaves a safe disk and ends at the last entry |
| `ReadyLoop.AppendHolds` | qdrant/lib/storage/src/content_manager/consensus/consensus_wal.rs:160-262 | after an append the log holds every new entry as given, and is unchanged below the first of them |
| `ReadyLoop.ApplySafe` | qdrant/lib/storage/src/content_manager/consensus_manager.rs:337-410 | applying entry by entry is safe at every point and never lowers the applied index |
| `ReadyLoop.CompactSafe` | qdrant/lib/storage/src/content_manager/consensus_manager.rs:835-865 | compaction keeps the disk safe and the applied index |
| `ReadyLoop.RestartSafe` | qdrant/src/consensus.rs:204-259 | restarting from a safe disk writes only safe disks |
| `ReadyLoop.AppliedStepsBackIff` | qdrant/lib/storage/src/content_manager/consensus_manager.rs:322-331 | queueing committed entries lowers the stored applied index if and only if Raft was behind it |
| `ReadyLoop.RestartLeavesRaftBehind` | qdrant/src/consensus.rs:204-259 | that is the case after a restart if and only if the crash left an entry to apply |
| `ReadyLoop.AppliedStepsBackRun` | qdrant/src/consensus.rs:204-259 | such a run: crash after the queue was written, restart, the same entry handed out again, and the applied index on disk goes down |
| `ReadyHistory.NoIndexSkipped` | qdrant/lib/storage/src/content_manager/consensus_manager.rs:337-410 | main: between any two points of any run, with crashes and restarts, every index by which the applied index is higher was applied in between, while it was in the log and committed |
| `ReadyHistory.CommittedNeverChanges` | qdrant/lib/storage/src/content_manager/consensus/consensus_wal.rs:160-262 | main: between any two points of any run the commit index and the log's start do not fall, and an entry committed at the first reads the same at the second if the log still has it |
| `ReadyHistory.AppliedAlike` | qdrant/lib/storage/src/content_manager/consensus_manager.rs:337-410 | an index applied twice, after the applied index moved back, is applied with the same entry |
| `ReadyHistory.RunChain` | qdrant/src/consensus.rs:862-1035 | every event of a run keeps what is committed and raises the applied index only by applying the next entry; the last one leaves the disk the run ends with |
| `ReadyHistory.InputChain` | qdrant/src/consensus.rs:862-1035 | the same for the events of one turn, crash or restart |
| `ReadyHistory.CommittedChain` | qdrant/src/consensus.rs:1075-1086 | the same for queueing and applying: queueing may step back, never ahead |
| `ReadyHistory.AppendChain` | qdrant/lib/storage/src/content_manager/consensus/consensus_wal.rs:160-262 | the same for truncations and appends of an entry batch |
| `ReadyHistory.CompactSteps` | qdrant/lib/storage/src/content_manager/consensus_manager.rs:835-865 | the same for compaction |
| `ReadyPromises.ReadySends` | qdrant/src/consensus.rs:911-976 | a ready sends its plain messages exactly once, before it writes anything, and its persisted messages exactly once, when its hard state and each of its entries are on disk |
| `ReadyPromises.ReadyStores` | qdrant/src/consensus.rs:933-958 | whether or not it sends anything, a processed ready has its hard state and entries on disk |
| `ReadyPromises.LightSends` | qdrant/src/consensus.rs:1017-1027 | a light ready stores the commit index and nothing else of the hard state, and then sends its messages once |
| `ReadyPromises.VotesStand` | qdrant/src/consensus.rs:862-1035 | main: over every run with crashes, if Raft asks to store no other vote in a term, no later disk has an older term or another vote in a term in which one was stored |
| `ReadyPromises.InputKeepsVotes` | qdrant/src/consensus.rs:862-1035 | the same within one turn or restart, cut off anywhere |
| `ReadyPromises.TurnStopsIff` | qdrant/src/consensus.rs:862-887 | a node goes on after a turn if and only if neither batch of committed entries has one that removes this peer |
| `ReadyPromises.StopsIff` | qdrant/lib/storage/src/content_manager/consensus_manager.rs:337-410 | applying stops exactly if one of the entries removes this peer, and before it is applied |
| `ReadyPromises.RaftStaysLevel` | qdrant/src/consensus.rs:862-887 | Raft that has handed out all that is applied stays level with it while the node runs |
| `ReadyPromises.CompactBounds` | qdrant/lib/storage/src/content_manager/consensus_manager.rs:835-865 | compaction leaves fewer applied entries behind than the bound, drops nothing from the applied index on, and changes no entry |
| `ReadyLoop.ConsensusLoop.AppendEntries` | qdrant/lib/storage/src/content_manager/consensus/consensus_wal.rs:160-262 | in place: truncates and appends as specified; consecutive entries within the log are never refused, and a first entry outside it is, with the log unchanged |
| `ReadyLoop.ConsensusLoop.ApplyEntries` | qdrant/lib/storage/src/content_manager/consensus_manager.rs:337-410 | in place: applies until the queue is empty or an entry stops consensus; a safe disk never gives the missing-entry error |
| `ReadyLoop.ConsensusLoop.HandleCommitted` | qdrant/src/consensus.rs:1075-1086 | in place: queues and applies |
| `ReadyLoop.ConsensusLoop.StoreReady` | qdrant/src/consensus.rs:911-976 | in place: the writes and sends of a ready up to its persisted messages, in this order |
| `ReadyLoop.ConsensusLoop.ProcessReady` | qdrant/src/consensus.rs:911-992 | in place: the trace of writes and sends of a ready, in exactly this order |
| `ReadyLoop.ConsensusLoop.ProcessLightReady` | qdrant/src/consensus.rs:1000-1035 | in place: commit index, messages, committed entries, in this order |
| `ReadyLoop.ConsensusLoop.CompactWal` | qdrant/lib/storage/src/content_manager/consensus_manager.rs:835-865 | in place: drops entries below the applied index once enough piled up |
| `ReadyLoop.ConsensusLoop.OnReady` | qdrant/src/consensus.rs:862-887 | in place: one turn; stops early exactly when consensus stops |
| `MessageSender.SentInOrder` | qdrant/src/consensus.rs:1213-1317 | main: in every interleaving, select atomic or not, sent indices strictly increase, what is skipped was outdated by a sent message, and once both queues are empty the last message sent is the last accepted |
| `MessageSender.OrdinaryExactlyOnce` | qdrant/src/consensus.rs:1213-1317 | main: with an atomic select, the non-heartbeats sent followed by those queued are exactly those accepted, in order; only heartbeats are skipped |
| `MessageSender.SlotLosesIff` | qdrant/src/consensus.rs:1302-1316 | taking a heartbeat keeps all queued messages sendable if and only if each of them is newer than it |
| `MessageSender.TwoLooksLoseMessage` | qdrant/src/consensus.rs:1302-1316 | a run in which the select looks at its two sources one after the other and a message is lost |
| `MessageSender.RunNoneLost` | qdrant/src/consensus.rs:1213-1317 | with an atomic select no reachable state holds a queued message that will be skipped |
| `MessageSender.AllAccepted` | qdrant/src/consensus.rs:1213-1229 | in a run in which the queue is never full when a message comes, all that is produced is accepted, in order |
| `MessageSender.RefusedIff` | qdrant/src/consensus.rs:1213-1229 | a message is refused if and only if it is no heartbeat and 128 messages wait |
| `MessageSender.AtomicKeepsAll` | qdrant/src/consensus.rs:1302-1316 | one step with an atomic select keeps that |
| `MessageSender.StepKeeps` | qdrant/src/consensus.rs:1213-1317 | one step of sender or receiver, atomic or not, keeps numbering, order and accounting |
| `MessageSender.MessageChannel.SendMessage` | qdrant/src/consensus.rs:1213-1229 | in place: heartbeats overwrite the slot, others queue until it is full |
| `MessageSender.MessageChannel.Round` | qdrant/src/consensus.rs:1302-1316 | in place: queue first, then the slot; older than the last sent is skipped |
| `MessageSender.MessageChannel.Drain` | qdrant/src/consensus.rs:1302-1316 | draining sends every accepted non-heartbeat once and in order and ends with the last accepted |
| `QueryPlanner.Query` | qdrant/lib/edge/src/query.rs:29-70 | main: planning, answering all leaves, and evaluating in place gives exactly what the query tree means, errors included |
| `QueryPlanner.QueryBatch` | qdrant/lib/edge/src/query.rs:29-70 | the same for a batch of queries that share the leaf results |
| `QueryPlanner.PlannedBatchMeans` | qdrant/lib/shard/src/query/planned_query.rs:478-488 | main: for every batch, a failed plan or leaf means an error, and otherwise the plans run in order out of shared slots give each query's meaning |
| `QueryPlanner.BatchMeans` | qdrant/lib/shard/src/query/planned_query.rs:478-488 | the same for evaluation on untouched results, from any batch state |
| `QueryPlanner.BatchNamesAll` | qdrant/lib/shard/src/query/planned_query.rs:478-488 | the plans of a batch name every slot exactly once, in order |
| `QueryPlanner.PlanAllMeans` | qdrant/lib/shard/src/query/planned_query.rs:304-364 | nested prefetches: the plan of a prefetch list evaluates to its meaning |
| `QueryPlanner.PlanAllNamesAll` | qdrant/lib/shard/src/query/planned_query.rs:304-364 | nested prefetches name exactly the slots they added |
| `QueryPlanner.RootMeans` | qdrant/lib/shard/src/query/planned_query.rs:110-296 | the same for a root query: MMR narrowed first, fusion over all sources, the rest in one stage |
| `QueryPlanner.RootNamesAll` | qdrant/lib/shard/src/query/planned_query.rs:110-296 | a root plan names exactly the slots it added |
| `QueryPlanner.RootMeets` | qdrant/lib/shard/src/query/planned_query.rs:304-364 | main: every result meets the query's filter, which only the leaves carry, if on every path down to a leaf each filter narrows what is merged above it; without prefetches always |
| `QueryLeaves.RootAsks` | qdrant/lib/shard/src/query/planned_query.rs:110-364 | main: a query over prefetches sends exactly one request for each leaf of its tree, with the leaf's own vector or order, limit, threshold and parameters, under its filter and those on the way to the leaf |
| `QueryLeaves.EveryLeafAsked` | qdrant/lib/shard/src/query/planned_query.rs:304-476 | the same for any list of prefetches and any path to a leaf |
| `QueryLeaves.OneRequestALeafAll` | qdrant/lib/shard/src/query/planned_query.rs:304-364 | the batch grows by as many requests as the tree has leaves |
| `QueryLeaves.MergedOnIsAll` | qdrant/lib/segment/src/types.rs:4066-4107 | a leaf's request accepts exactly the points that all filters on its path accept, if each is apart from what is merged above it |
| `QueryLeaves.RootIsLeaf` | qdrant/lib/shard/src/query/planned_query.rs:110-167 | a query without prefetches sends one request, for its limit and the points to skip |
| `QueryWitness.ShouldLeaksIff` | qdrant/lib/shard/src/query/planned_query.rs:304-364 | main: a query and its prefetch with `should` conditions return only points that meet the query's filter, on every shard, if and only if each condition of the prefetch is one of the query |
| `QueryWitness.Leaks` | qdrant/lib/shard/src/query/planned_query.rs:304-364 | the failing family: a shard and a point that is returned though it meets none of the query's conditions |
| `QueryWitness.OnePointHonest` | qdrant/lib/edge/src/query.rs:188-275 | a shard that meets everything asked of one, with a concrete sort and any field conditions |
| `QueryPlanner.MeanMeets` | qdrant/lib/shard/src/query/planned_query.rs:304-364 | every result of a prefetch meets the prefetch's own filter, and the one merged above it, if the other one narrows it and the filters below narrow both |
| `QueryPlanner.NarrowedMeets` | qdrant/lib/segment/src/types.rs:4066-4107 | what meets a merged filter meets the upper one if the lower one narrows it |
| `Filters.ApartMergeIsBoth` | qdrant/lib/segment/src/types.rs:4066-4107 | a merged filter accepts exactly what both accept if at most one of them has a `should` and at most one a `min_should` |
| `Filters.MergeOptsIsBoth` | qdrant/lib/segment/src/types.rs:4095-4107 | merging optional filters: an absent one asks for nothing, and two that are apart are both asked for |
| `Filters.NarrowedByFirst` | qdrant/lib/segment/src/types.rs:4066-4107 | what meets a merged filter meets the lower one if the upper one narrows it |
| `Filters.FilterMeans` | qdrant/lib/segment/src/payload_storage/query_checker.rs:24-96 | what a filter asks for: one of `should`, enough of `min_should`, all of `must`, none of `must_not` |
| `Filters.NestedMeans` | qdrant/lib/segment/src/payload_storage/query_checker.rs:24-96 | filters used as conditions give conjunction, disjunction and negation |
| `Filters.NarrowsImplies` | qdrant/lib/segment/src/types.rs:4066-4107 | for any two filters: the merged one implies the first if each `should` condition of the second is one of the first and meeting all of the second's `min_should` does not make up for falling short of the first |
| `Filters.ShouldExact` | qdrant/lib/segment/src/types.rs:4066-4107 | for `should` filters that condition is exact: the merged filter implies the first for every point if and only if it holds |
| `Filters.MinShouldExact` | qdrant/lib/segment/src/types.rs:4066-4107 | the same for `min_should` filters over different conditions |
| `Filters.CountMeans` | qdrant/lib/segment/src/payload_storage/query_checker.rs:24-96 | what the counting checks stand for: any, all and none of the conditions |
| `QueryPlanner.RootWithinLimit` | qdrant/lib/shard/src/query/planned_query.rs:110-130 | a query returns at most limit plus offset points |
| `QueryPlanner.PlannedQuery.Add` | qdrant/lib/shard/src/query/planned_query.rs:110-167 | in place: the batch grows as specified, on an error too; a root plan is added exactly when there is no error |
| `QueryPlanner.PlannedQuery.RecursePrefetches` | qdrant/lib/shard/src/query/planned_query.rs:304-364 | in place: plans a prefetch list |
| `QueryPlanner.PlannedQuery.LeafSource` | qdrant/lib/shard/src/query/planned_query.rs:370-476 | in place: one search or scroll, or an error for fusion and formula |
| `QueryPlanner.PlanQueries` | qdrant/lib/shard/src/query/planned_query.rs:478-488 | plans a batch; the first error ends it |
| `QueryPlanner.SearchAll` | qdrant/lib/edge/src/query.rs:38-41 | answers all searches, or fails if and only if one of them does |
| `QueryPlanner.ScrollAll` | qdrant/lib/edge/src/query.rs:43-46 | the same for scrolls |
| `QueryPlans.RunPlanIsEval` | qdrant/lib/edge/src/query.rs:110-186 | main: a plan that names each slot at most once evaluates, taking results out of their slots, to what it means on the untouched results |
| `QueryPlans.RunSourcesIsEval` | qdrant/lib/edge/src/query.rs:110-155 | the same for any run of sources from any state, and only the slots they name change |
| `QueryPlans.TakenTwiceIff` | qdrant/lib/edge/src/query.rs:455-461 | on leaf sources, taking agrees with the meaning if and only if every slot named twice holds no points |
| `QueryPlans.PlanFromLeaves` | qdrant/lib/edge/src/query.rs:110-275 | main: every id in a plan's result is in one of the leaf results it names |
| `QueryPlans.RescoreClosed` | qdrant/lib/edge/src/query.rs:188-275 | every rescoring keeps its limit and returns only points of its sources |
| `QueryPlans.TopFusedExact` | qdrant/lib/edge/src/query.rs:277-304 | on points in score order, stopping at the first below the threshold loses none above it: exactly the first limit of those that reach it |
| `QueryPlans.RankFusionExact` | qdrant/lib/edge/src/query.rs:277-304 | main: a rank fusion, for any rank constant and weights, returns of the ids of all sources, each once and scored by its positions, exactly the first limit in score order that reach the threshold; an error if and only if the number of weights is wrong |
| `QueryResults.RootFusionExact` | qdrant/lib/edge/src/query.rs:277-304 | main: a query that fuses its prefetches by rank returns exactly the first limit + offset of the fused results that reach its threshold, and fails exactly if the tree is too deep, a prefetch fails or the number of weights is wrong |
| `QueryResults.PrefetchFusionExact` | qdrant/lib/edge/src/query.rs:277-304 | the same for a prefetch over prefetches, at any depth |
| `QueryResults.PrefetchReaches` | qdrant/lib/edge/src/query.rs:188-275 | a prefetch returns at most its limit, and each result reaches its own threshold, at any depth |
| `QueryResults.RescoreReaches` | qdrant/lib/edge/src/query.rs:188-275 | every result of a rescoring reaches its threshold; to ordering, sampling and MMR the threshold makes no difference |
| `QueryResults.NestedIsSearch` | qdrant/lib/edge/src/query.rs:228-245 | a vector query over prefetches is one search among exactly the points they returned, with its own limit, threshold and parameters |
| `QueryResults.NestedIsScroll` | qdrant/lib/edge/src/query.rs:212-226 | an ordering or sampling query over prefetches is one scroll among exactly those points |
| `QueryResults.NestedIsFormula` | qdrant/lib/edge/src/query.rs:247-253 | a formula over prefetches scores exactly what they returned |
| `QueryResults.RootIsPrefetch` | qdrant/lib/shard/src/query/planned_query.rs:110-296 | but for MMR a query means what it would mean as a prefetch whose limit includes the points to skip |
| `QueryResults.RootMmr` | qdrant/lib/shard/src/query/planned_query.rs:168-296 | an MMR query diversifies the nearest candidates: of all points under its filter, or of exactly those its prefetches returned |
| `QueryResults.TooDeepIff` | qdrant/lib/shard/src/query/planned_query.rs:110-116 | a query is refused for its depth if and only if its prefetches nest more than 64 deep |
| `QueryPlans.Prefetched.TakePrefetched` | qdrant/lib/edge/src/query.rs:455-461 | in place: moves a result out and leaves the slot empty; an index out of range is an error and changes nothing |
| `QueryPlans.Prefetched.TakeSources` | qdrant/lib/edge/src/query.rs:110-155 | in place: sources in order, the first error ends it |
| `QueryPlans.Prefetched.RecursePrefetch` | qdrant/lib/edge/src/query.rs:110-186 | in place: equals the specification, result and slots |
| `RankFusion.RrfScoring` | qdrant/lib/segment/src/common/reciprocal_rank_fusion.rs:54-99 | the accumulating loops equal the specification, errors included |
| `RankFusion.RrfFuses` | qdrant/lib/segment/src/common/reciprocal_rank_fusion.rs:54-99 | main: for any rank constant and weights the result has every id of the lists once, with the sum of what its positions are worth, in descending score; an error if and only if the number of weights is wrong |
| `RankFusion.FusionRespectsUnanimity` | qdrant/lib/segment/src/common/reciprocal_rank_fusion.rs:54-99 | main: a point that stands before another in every list that has the other stands before it in the result, if all lists count and each has a nonzero rank constant or a weight of at most one |
| `RankFusion.UnanimousScores` | qdrant/lib/segment/src/common/reciprocal_rank_fusion.rs:75-90 | the same for the scores, with lists of no weight among them |
| `RankFusion.EarlierIsWorthMoreIff` | qdrant/lib/segment/src/common/reciprocal_rank_fusion.rs:32-39 | an earlier position is worth strictly more than a later one if and only if the earlier rank is not negative or the later one is |
| `RankWorth.WorthFormula` | qdrant/lib/segment/src/common/reciprocal_rank_fusion.rs:32-39 | a position is worth the reciprocal of (position + 1) / weight + k - 1, infinitely much if that is zero, and nothing without weight |
| `RankWorth.UnweightedWorth` | qdrant/lib/segment/src/common/reciprocal_rank_fusion.rs:32-39 | without weights it is worth 1 / (position + k) |
| `RankWorth.EqualWorthIff` | qdrant/lib/segment/src/common/reciprocal_rank_fusion.rs:16-39 | positions of two lists are worth the same if and only if, counted from one, they are to each other as the weights |
| `RankWorth.FusedSums` | qdrant/lib/segment/src/common/reciprocal_rank_fusion.rs:54-99 | main: for a constant of at least one, every point of the result has the sum over the lists of what its position is worth by that formula |
| `RankWorth.OneAgainstTwoIff` | qdrant/lib/segment/src/common/reciprocal_rank_fusion.rs:32-39 | a point at position p of one list beats one at positions q and r of two if and only if (q + k)(r + k) > (p + k)(q + r + 2k) |
| `RankWorth.OneListOrBoth` | qdrant/lib/segment/src/common/reciprocal_rank_fusion.rs:54-99 | which of two such points stands first in the fusion of two lists |
| `RankFusion.RanksPositiveIff` | qdrant/lib/segment/src/common/reciprocal_rank_fusion.rs:32-39 | every rank of a list is positive if and only if the constant is not zero or the weight is below one |
| `RankFusion.PrefersIff` | qdrant/lib/segment/src/common/reciprocal_rank_fusion.rs:32-39 | a list never scores a point below one that stands behind it if and only if the constant is not zero or the weight is at most one |
| `RankFusion.UnfairFusion` | qdrant/lib/segment/src/common/reciprocal_rank_fusion.rs:54-99 | the failing input: with a constant of zero and a weight above one, of a list as long as the weight the last point comes out before the first |
| `RankFusion.AddList` | qdrant/lib/segment/src/common/reciprocal_rank_fusion.rs:76-89 | the loop over one list equals the specification |
| `Placement.GenerateEvenPlacement` | qdrant/src/common/collections.rs:138-163 | main: every shard gets min(replication, pool) replicas, all in the pool; for distinct peers the replicas of a shard are distinct, any two peers' loads differ by at most one, and each load is within one of its exact share |
| `Placement.PlacedBalanced` | qdrant/src/common/collections.rs:138-163 | the balance, for any placement that follows the cyclic walk |
| `Placement.CommentExampleNotPlaced` | qdrant/src/common/collections.rs:126-137 | the placement in the source comment (A B, B C, A C) comes from no order of three peers |
| `Placement.VisitsEven` | qdrant/src/common/collections.rs:138-163 | how often the walk stands at each position: once per lap, and once more before the current one |
| `Placement.WalkedDistinct` | qdrant/src/common/collections.rs:152-161 | a window no longer than the pool never meets a peer twice |
| `Placement.ShuffleKeeps` | qdrant/src/common/collections.rs:143-146 | shuffling keeps the peers and their distinctness |
| `Placement.CyclicIterator.Next` | qdrant/src/common/collections.rs:147-160 | the iterator gives the walk, starting over at the end |
| `Placement.PlaceShard` | qdrant/src/common/collections.rs:155-161 | the inner loop takes the next stretch of the walk |

## Left out

- Floating point: rounding and NaN in distances, scores and thresholds.
- Integer widths: ticks, indices and limits do not wrap or saturate.
- MIRAGE levels, upper layers, injected fixtures and the remaining statistics; the second generator built on FAISS.
- Clock map persistence and serialisation. Snapshots of clock maps enter where a recovery point is taken; convergence is stated for sources and targets without one.
- WAL storage: segments, acknowledgement and physical truncation. Records are numbered consecutively from a base.
- MirageBuild.BuildKeepsReach: one way only, because the converse is false: MirageRing.DroppedYetReached. MirageCut.CutLosesReach shows that some condition is needed; per pass MirageReach.ClosureIffLossless is exact.
- QueryPlanner.RootMeets: one way only; for a mix of filter parts over several levels the condition is sufficient. QueryWitness.ShouldLeaksIff, Filters.ShouldExact and Filters.MinShouldExact are exact.
- Filters.MinShouldExact: for different conditions only; a condition that occurs twice counts twice.
- Filter conditions other than ids and nested filters (fields, geo, nested objects, vectors) are opaque facts about a point.
- Untagged operations among concurrent writers: they end every resolution that reads them with an error.
- Raft itself: elections, replication, role and soft-state changes; snapshots in readies.
- Applying an entry: only whether it stops consensus is modelled, not what it does to the cluster state; a service error ends the loop at a point that the crash model covers.
- Compaction of the consensus log is modelled as dropping entries; the WAL keeps whole segments.
- Transport of Raft messages: retries, timeouts, closed channels and the broker's map of peers.
- Filling payloads and vectors into query results, hardware counters, and dropping of points deleted meanwhile.
- Internals of segment search, distribution-based fusion, formula and MMR scoring; payload and vector selectors; in fused points, all but id and score.
- Placement.GenerateEvenPlacement: the shuffle is given as any permutation, not as in-place swaps.
- Servers, authentication, settings, telemetry, backups, benches and tools: thin wrappers or I/O.
