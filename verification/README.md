# Memory, journals and facts of the Spine heart

Spine keeps a companion's memory on the user's device: a graph of concept nodes
that absorbs observations, merges, prunes and dreams; an append-only canonical
log with local journals that survive a crash; typed facts that supersede one
another; and small state machines around them. This project models that logic in
Dafny and proves what it is for.

The components, and the files that hold them:

- **The DCMDb memory store** (`MemoryNodes`, `NodeLaws`, `MemoryStore`,
  `StoreLaws`, `StoreInvariant`, `StoreTheorems`, `StoreLoops`, `StoreRuns`,
  `Observing`, `ConsolidationPass`, `Dreaming`, `Walking`, `DreamOutcomes`,
  `PageRank`, `EvidenceExpansion`, `Ranking`, `Dcmdb`).
  `Dcmdb.Memory` is the mutable object with its maps; each method is proved
  against a value-level function and returns the run of elementary changes it
  made, so that theorems over all runs apply to every operation. `NodeLaws` and
  `StoreLaws` say what those functions mean in the fields of nodes and the
  entries of tables, apart from how they are computed.
- **Crash-safe transcripts** (`Messages`, `Transcript`, `TranscriptRuns`,
  `TranscriptStore`, `Grounding`). Every write may fail before or after it
  becomes durable; a caller that sees the failure stops, and a stop of the
  process between two steps is the same thing. `TranscriptStore.Heart` carries
  the loops, `TranscriptRuns` the safety of every interleaving.
- **Checkpoint resumption** (`Checkpoints`, `CheckpointRuns`), with restarts and
  marker writes of unknown fate, behind the **circuit breaker** (`Breaker` for the
  channels, `BreakerCalls` for the calls that go through them).
- **Typed facts** (`Facts`, `FactStore`): supersession stated declaratively, and
  the group, sort and scan that computes it.
- **The risk field** (`Risk`), **paged reading** (`Paging`), **chunking**
  (`Chunking`) and the **diagnostic window** (`Diagnostics`).

`Collections` holds options, results and finite sums.

What the environment decides is a parameter or a count: `CheckpointRuns.Luck`
says whether a write becomes durable and is reported and whether the log can be
read, `TranscriptStore.Heart.failures` counts the writes that failed, so that
contracts say exactly when an operation succeeds.

Reading the contracts: `Inv`, `Valid`, `Sound`, `Linked` and `Chained` are the
invariants; `Reaches` relates a state to another through listed steps; ghost
results of methods name the run taken or an intermediate state.

Four statements need a condition the code itself does not enforce, and say so:

- One recovery checkpoint per run holds when finished journals contain a message
  of their own run; `TranscriptRuns.SecondCheckpoint` shows the failing run and
  `TranscriptRuns.CheckpointBlocksItself` the exact condition.
- Supersession compares neighbours only; `Facts.FirstOfThreeStaysActive` shows
  what that leaves active and `Facts.SupersededExactly` when a fact is superseded.
- The breaker does not match reports to calls, so its interface allows two calls
  granted while not closed to be in flight at once, as
  `BreakerCalls.LateFailureFreesTheProbe` shows. `BreakerCalls.OneProbeExactly` is
  the exact condition, and `BreakerCalls.PromptCallerIsOrderly` shows that a caller
  that reports each call before it asks again, as the chat loop does, meets it.
- The closure tested by `check_invariants` is not inductive:
  `StoreInvariant.ClosureIsNotInductive` gives a store, and
  `StoreInvariant.MergeKeepsClosureExactly` says exactly when a merge keeps it.

## Model

| member | source | states |
|---|---|---|
| `StoreInvariant.StepKeepsInvariant` | crates/spine-heart/src/dcmdb.rs:1086-1110 | Every elementary change the operations make (clock, decay, counting, spawning, reinforcing, relieving, refreshing, merging, pruning, stretching) keeps the full store invariant: graph rows and visit counts keyed by exactly the active nodes, active targets, no self-edges, nonnegative weights, symmetric nonnegative coactivations between distinct active nodes, disjoint active and absorbed identifiers issued by the counter, a well-formed hierarchy, and sound tension records |
| `StoreInvariant.RunKeepsInvariant` | crates/spine-heart/src/dcmdb.rs:1086-1110 | The invariant over every run of such changes |
| `StoreInvariant.ReachableIsClosed` | crates/spine-heart/src/dcmdb.rs:1086-1110 | In every store reachable from the empty one `check_invariants` has nothing to report |
| `StoreInvariant.MergeKeepsClosureExactly` | crates/spine-heart/src/dcmdb.rs:1163-1225 | On any store the check passes, a merge carried out by its loops, in any order, leaves a store the check passes if and only if the absorbed node has no edge to itself |
| `StoreInvariant.ClosureIsNotInductive` | crates/spine-heart/src/dcmdb.rs:1163-1189 | So what `check_invariants` tests is not enough on its own: a store with such an edge passes it and the merge recreates a row for a node no longer active |
| `StoreLoops.LoopsGiveMergedGraph` | crates/spine-heart/src/dcmdb.rs:1163-1200 | On a graph without self-edges those loops give the joined and redirected rows, whatever the order |
| `StoreInvariant.EmptyStoreIsOk` | crates/spine-heart/src/dcmdb.rs:351-365 | A new store satisfies the invariant |
| `StoreInvariant.SpawnIsFresh` | crates/spine-heart/src/dcmdb.rs:1228-1279 | A spawned identifier belongs to no active or absorbed node |
| `StoreInvariant.RefreshedGraphOk` | crates/spine-heart/src/dcmdb.rs:1496-1552 | After a refresh every row holds at most `top_edges` entries and the graph is still closed |
| `StoreInvariant.MergeKeepsGraph` | crates/spine-heart/src/dcmdb.rs:1163-1201 | After a merge the survivor's row respects the degree limit and any other row may have grown by one entry |
| `StoreInvariant.MergeKeepsCoactivations` | crates/spine-heart/src/dcmdb.rs:1203-1224 | Joining coactivations stays symmetric, nonnegative and between active nodes |
| `StoreInvariant.MergeKeepsHierarchy` | crates/spine-heart/src/dcmdb.rs:1121-1160 | Merging keeps families duplicate-free, transitively closed, inside `absorbed` and apart from each other, with every child's evidence included in its parent's |
| `StoreInvariant.PpmiNonNegative` | crates/spine-heart/src/dcmdb.rs:1496-1552 | Learned edge weights are never negative under any association measure or significance setting |
| `StoreLaws.EdgesDecayedExactly` | crates/spine-heart/src/dcmdb.rs:1464-1482 | Every edge, visit count and coactivation becomes the same share of what it was |
| `StoreLaws.EdgesDecayedTwice` | crates/spine-heart/src/dcmdb.rs:1464-1482 | Decay of the whole graph in two stages is decay in one |
| `StoreLaws.PpmiExactly` | crates/spine-heart/src/dcmdb.rs:1506-1526 | What a pair's counts tell under each measure and significance, by cases |
| `StoreLaws.LearnedMoves` | crates/spine-heart/src/dcmdb.rs:1527-1540 | An edge moves toward that by exactly the learning rate |
| `StoreLaws.RefreshedExactly` | crates/spine-heart/src/dcmdb.rs:1496-1552 | The refreshed graph entry by entry |
| `StoreLaws.PrunedExactly` | crates/spine-heart/src/dcmdb.rs:892-915 | The pruned store entry by entry |
| `StoreLaws.StretchedExactly` | crates/spine-heart/src/dcmdb.rs:1013-1017 | A visited node's time scale grows by the stickiness within its bounds, and nothing else changes |
| `Ranking.TrimmedExactly` | crates/spine-heart/src/dcmdb.rs:1190-1200 | Sorting by weight with ties to the smaller identifier and truncating keeps exactly the best entries of a row |
| `MemoryNodes.ReinforcedIsOk` | crates/spine-heart/src/dcmdb.rs:1297-1404 | An observation adds exactly its event to the node, keeps its children, and keeps the tension record consistent |
| `MemoryNodes.JudgedIsOk` | crates/spine-heart/src/dcmdb.rs:1343-1404 | No tension means no atypical count; otherwise atypical count (below saturation), tension mass and trajectory length agree, do not exceed the evidence count, and the tension sum is the sum of its trajectory |
| `MemoryNodes.QuietDecrementIsIdle` | crates/spine-heart/src/dcmdb.rs:1401-1404 | The saturating decrement of the atypical count never changes a sound node |
| `MemoryNodes.RelievedIsOk` | crates/spine-heart/src/dcmdb.rs:1406-1462 | A promotion leaves the parent well formed with its tension cleared |
| `MemoryNodes.MergedCombines` | crates/spine-heart/src/dcmdb.rs:1112-1160 | The survivor adds up sufficient vectors, visits and per-source counts, joins both event lists, and lists its own children, the absorbed node and that node's children |
| `MemoryNodes.AppendNewIsUnion` | crates/spine-heart/src/dcmdb.rs:1140-1160 | Appending only events not yet listed yields a duplicate-free list of the union |
| `NodeLaws.DecayedExactly` | crates/spine-heart/src/dcmdb.rs:290-305 | Sums, counts and weight shrink by the exponential of the time passed in the node's own time scale; a time already reached changes nothing |
| `NodeLaws.DecayedTwice` | crates/spine-heart/src/dcmdb.rs:290-305 | Decay in two stages is decay in one, for an exponential that turns sums into products |
| `NodeLaws.FreshIsNew` | crates/spine-heart/src/dcmdb.rs:1242-1273 | A new node knows one event at one vector and nothing else |
| `NodeLaws.RefinedExactly` | crates/spine-heart/src/dcmdb.rs:1306-1341 | An observation moves centroid, sum and count by its share, which grows with staleness and doubt; the turn is bounded; visit, source, time and event are recorded and nothing else changes |
| `NodeLaws.JudgedExactly` | crates/spine-heart/src/dcmdb.rs:1343-1404 | A similar sample further off than the node's spread plus the margin opens a tension or joins it; any other counts as evidence, and clears a tension with enough evidence whose split is improbable |
| `NodeLaws.ReinforcedExactly` | crates/spine-heart/src/dcmdb.rs:1297-1404 | Both halves in that order |
| `NodeLaws.PromotionExactly` | crates/spine-heart/src/dcmdb.rs:1414-1458 | The promotion test in the fields of the tension: when it splits, by which rule, and when it clears |
| `NodeLaws.RelievedExactly` | crates/spine-heart/src/dcmdb.rs:1436-1453 | A split by probability takes the tension's samples from the parent and recomputes it; a split by count only clears the tension |
| `NodeLaws.MergeFitExactly` | crates/spine-heart/src/dcmdb.rs:819-880 | The merge test by concentration, likelihood, price and penalties, and the joint count and concentration it reports |
| `NodeLaws.SupportIsMonotone` | crates/spine-heart/src/dcmdb.rs:862-879 | A pair with more gain, a smaller drop and less divergence than an accepted one is accepted |
| `NodeLaws.MergedExactly` | crates/spine-heart/src/dcmdb.rs:1112-1160 | The rest of the joint record: direction, concentration, confidence, weight with its bonus, mean time scale, later dates, level and metadata |
| `NodeLaws.DotExactly` | crates/spine-heart/src/dcmdb.rs:1281-1287 | The similarity of two vectors sums the products of their coordinates |
| `StoreTheorems.StepKeepsEvidence` | crates/spine-heart/src/dcmdb.rs:1297-1404 | No change but pruning removes an event from the active nodes, and each adds exactly what it observes |
| `StoreTheorems.RunKeepsEvidence` | crates/spine-heart/src/dcmdb.rs:1121-1161 | Over any run without pruning the active nodes hold exactly their initial evidence and everything observed since |
| `StoreTheorems.DescentNeverReturns` | crates/spine-heart/src/dcmdb.rs:1121-1161 | Following children from a node never returns to it, ends in absorbed nodes, and stays among the first node's own children |
| `StoreTheorems.MergePassSizes` | crates/spine-heart/src/dcmdb.rs:803-886 | A run of merges shrinks the active and grows the absorbed nodes by exactly its length |
| `StoreTheorems.MergePassNodes` | crates/spine-heart/src/dcmdb.rs:803-886 | A pass in closed form: each merged pair combines the two nodes as they were when the pass began, and no other node moves |
| `StoreTheorems.AppendMerge` | crates/spine-heart/src/dcmdb.rs:810-885 | Adding a merge of an untouched nearest pair to a pass keeps all its pairs apart |
| `StoreTheorems.AdditiveQuantities` | crates/spine-heart/src/dcmdb.rs:1121-1160 | Visits, each source's count and each coordinate of the sufficient vector add up under a merge |
| `StoreTheorems.MergePassConserves` | crates/spine-heart/src/dcmdb.rs:771-886 | A pass conserves every additive quantity summed over the active nodes |
| `StoreTheorems.MergePassVisits` | crates/spine-heart/src/dcmdb.rs:1121-1162 | A pass conserves the total of the visit counts |
| `StoreTheorems.MergeMass` | crates/spine-heart/src/dcmdb.rs:1203-1224 | A merge lowers the total coactivation by exactly what the merged pair shared |
| `StoreTheorems.MergePassMass` | crates/spine-heart/src/dcmdb.rs:1203-1224 | A pass lowers it by exactly the sum of what its pairs shared when it began |
| `StoreTheorems.NearestListed` | crates/spine-heart/src/dcmdb.rs:775-795 | Each candidate pair is a node with its most similar other node |
| `StoreRuns.RunReaches` | crates/spine-heart/src/dcmdb.rs:375-502 | A recorded run is a sequence of enabled changes, so statements over all runs apply to every operation |
| `StoreRuns.CalmKeepsEvidence` | crates/spine-heart/src/dcmdb.rs:935-1025 | A run that neither observes nor prunes leaves the evidence of the active nodes as it was |
| `Dcmdb.Memory.constructor` | crates/spine-heart/src/dcmdb.rs:351-365 | A valid, empty store |
| `Dcmdb.Memory.DecayEdges` | crates/spine-heart/src/dcmdb.rs:1464-1482 | Edges, visits and coactivations decay by one common factor, or nothing changes when no time has passed |
| `Dcmdb.Memory.DecayNodes` | crates/spine-heart/src/dcmdb.rs:396-398 | Every active node decays to the given time |
| `Dcmdb.Memory.RecordCoactivation` | crates/spine-heart/src/dcmdb.rs:1484-1494 | Each listed node gains one visit and each ordered pair of distinct listed nodes one coactivation |
| `Dcmdb.Memory.Spawn` | crates/spine-heart/src/dcmdb.rs:1228-1279 | A fresh node with its row and zero visits; the identifier is new |
| `Dcmdb.Memory.RefreshEdges` | crates/spine-heart/src/dcmdb.rs:1496-1552 | Every recorded pair's edge moves toward its association by the learning rate, other edges stay, and each row keeps the positive entries that fewer than the degree limit surpass |
| `Dcmdb.Memory.MergeEdges` | crates/spine-heart/src/dcmdb.rs:1163-1201 | The loops that redirect the absorbed node's edges compute the joined and redirected rows |
| `Dcmdb.Memory.MergeCoactivations` | crates/spine-heart/src/dcmdb.rs:1203-1224 | The loop over active neighbours computes the joined coactivations |
| `Dcmdb.Memory.MergeNodes` | crates/spine-heart/src/dcmdb.rs:1112-1226 | All six maps after one merge |
| `Dcmdb.Memory.Gate` | crates/spine-heart/src/dcmdb.rs:796-806 | The configured angle, or if adaptive the ninth decile of the nearest angles plus the margin when that is narrower |
| `ConsolidationPass.GateExactly` | crates/spine-heart/src/dcmdb.rs:796-818 | A pair passes the gate exactly when its angle is within the configured one and, if the gate adapts, within the margin of the ninth decile of all nearest angles |
| `Dcmdb.Memory.NearestList` | crates/spine-heart/src/dcmdb.rs:775-795 | Every active node in order with its most similar other node |
| `ConsolidationPass.UntouchedCount` | crates/spine-heart/src/dcmdb.rs:1112-1162 | A node no merge has touched has the visit count it started with |
| `ConsolidationPass.FitStands` | crates/spine-heart/src/dcmdb.rs:812-879 | The evidence test on an untouched pair gives what it would have given when the pass began |
| `ConsolidationPass.NearestExactly` | crates/spine-heart/src/dcmdb.rs:775-795 | The surveyed partner is a node no other is more similar than, the first of those as similar |
| `ConsolidationPass.PassIsExact` | crates/spine-heart/src/dcmdb.rs:771-886 | The pass merges exactly the pairs that are due, in order, with the joint record of each |
| `Dcmdb.Memory.ConsiderPair` | crates/spine-heart/src/dcmdb.rs:810-885 | A surveyed pair is merged exactly when fewer than the maximum have been, neither node has been touched, the angle passes the gate and the test accepts it on the store as the pass found it |
| `Dcmdb.Memory.MergePairs` | crates/spine-heart/src/dcmdb.rs:807-886 | The pass takes exactly those merges, greedily in order of identifiers, each node in at most one and no more than the maximum |
| `Dcmdb.Memory.ConsolidateWithPolicy` | crates/spine-heart/src/dcmdb.rs:771-886 | One pass on the store it finds: each node, in order, is merged with its nearest other exactly when fewer than the maximum merged before it, neither was part of an earlier merge, the angle is within the gate, the concentration drops by no more than allowed, and one cluster explains the samples better than two once prices and penalties are counted (or none is set); visits, source counts, sufficient vectors and visit counts are conserved in total and coactivation drops by what the pairs shared; the number is reported and matches the change in size of both node maps |
| `StoreTheorems.PassConserves` | crates/spine-heart/src/dcmdb.rs:771-886 | Every pass of merges on disjoint pairs conserves all those totals at once |
| `Dcmdb.Memory.PrunePassProtected` | crates/spine-heart/src/dcmdb.rs:892-915 | After decay exactly the unprotected nodes below the weight threshold and unseen for the minimum age leave, with every edge, count and coactivation naming one; the rest of the store stays as the decay left it; their number is reported |
| `PageRank.NextIsDistribution` | crates/spine-heart/src/dcmdb.rs:1570-1600 | One iteration keeps a probability distribution: dangling rows keep their mass and a closed graph leaks none |
| `PageRank.IterateIsDistribution` | crates/spine-heart/src/dcmdb.rs:1554-1616 | Every iterate is a distribution over the active nodes |
| `PageRank.SentExactly` | crates/spine-heart/src/dcmdb.rs:1576-1598 | A node passes on its mass in proportion to the positive weights of its row, to active neighbours; without positive weight it keeps it |
| `PageRank.NextExactly` | crates/spine-heart/src/dcmdb.rs:1573-1600 | A node's next rank is the restart's share and what every active node sends of the rest |
| `PageRank.RestartExactly` | crates/spine-heart/src/dcmdb.rs:1559-1568 | Restart is at the seeds in proportion to their weights, or at every node alike |
| `PageRank.DistanceExactly` | crates/spine-heart/src/dcmdb.rs:1601-1609 | The change is summed over the absolute differences of entries |
| `PageRank.PersonalizedPagerank` | crates/spine-heart/src/dcmdb.rs:1554-1616 | The scattering loops compute the iterate reached, a distribution, stopping at the first that moves it by less than a millionth or after a hundred; nothing for an empty store |
| `PageRank.OneRank` | crates/spine-heart/src/dcmdb.rs:1554-1616 | The graph and the seeds determine that rank |
| `Dcmdb.Memory.Prominence` | crates/spine-heart/src/dcmdb.rs:943-949 | A dream ranks the nodes by that PageRank, from every node alike, on the graph it found |
| `Dreaming.DeterministicChoice` | crates/spine-heart/src/dcmdb.rs:1631-1652 | Picks the entry whose cumulative interval contains the target, always of positive weight; with no positive weight the remainder of the nonce |
| `Dreaming.MetOverCounts` | crates/spine-heart/src/dcmdb.rs:996-1002 | The table of meetings holds, for each ordered pair, the number of walks that visited both |
| `Dreaming.OnePick` | crates/spine-heart/src/dcmdb.rs:1631-1652 | A nonce picks one entry |
| `Walking.WalkIsDetermined` | crates/spine-heart/src/dcmdb.rs:955-994 | Two walks with the same number and start in the same store are the same |
| `Walking.WalkFollowsEdges` | crates/spine-heart/src/dcmdb.rs:960-994 | A walk runs along positive edges between active nodes and ends early only where none leads on |
| `Walking.StepWeightsExactly` | crates/spine-heart/src/dcmdb.rs:966-990 | A choice weighs the exponential of how far it falls short of the most attractive; attraction is edge weight over temperature plus the bonus for being visited less than the most visited |
| `Walking.SeedsExactly` | crates/spine-heart/src/dcmdb.rs:951-956 | A start matters as much as its rank |
| `Walking.NonceIsRead` | crates/spine-heart/src/dcmdb.rs:1654-1675 | A nonce is a 64-bit word and is taken as it is |
| `Dcmdb.Memory.WeighSteps` | crates/spine-heart/src/dcmdb.rs:972-990 | The loops compute the softmax weights of a step |
| `Dcmdb.Memory.Walk` | crates/spine-heart/src/dcmdb.rs:955-994 | Each step is the one its nonce picks by those weights; at most the configured length, stopping early only where no positive edge leads on |
| `Dcmdb.Memory.Walks` | crates/spine-heart/src/dcmdb.rs:951-1004 | All walks of a dream, each from the start its nonce picks by importance, what they visited together and whom they brought together |
| `Walking.CycleIsDetermined` | crates/spine-heart/src/dcmdb.rs:951-1004 | Two cycles with the same number and importance in the same store take the same walks |
| `Dcmdb.Memory.ApplyMeetings` | crates/spine-heart/src/dcmdb.rs:1006-1011 | Each pair's count goes to both nodes' visits and to both directions |
| `DreamOutcomes.SharedWalks` | crates/spine-heart/src/dcmdb.rs:996-1011 | The coactivation of two nodes grows in a dream by exactly the number of walks that visited both |
| `Dcmdb.Memory.StretchAll` | crates/spine-heart/src/dcmdb.rs:1013-1017 | Exactly the visited nodes forget more slowly, within the limits |
| `Dcmdb.Memory.DreamWithPolicy` | crates/spine-heart/src/dcmdb.rs:935-1025 | Nothing with fewer than two nodes or no walks; otherwise the edges decay, nodes are ranked, walks start by rank and nonce and follow the decayed edges, their meetings are counted, edges are learned and visited nodes stretched, and then exactly the pass decided on the store so left is taken; all of it is reported |
| `DreamOutcomes.DreamFollowsEdges` | crates/spine-heart/src/dcmdb.rs:955-994 | Each walk of a dream runs along positive decayed edges between active nodes, and what it visited is what the dream counts |
| `DreamOutcomes.DreamIsDetermined` | crates/spine-heart/src/dcmdb.rs:935-1025 | Two dreams from the same store at the same time under the same policy have the same rank, walks and pass and end in the same store |
| `Dcmdb.Memory.ConsolidateRounds` | crates/spine-heart/src/dcmdb.rs:1064-1070 | Each round is exactly the pass decided on the store it starts from; they go on until one merges nothing or the rounds are used up, and all merges are counted |
| `DreamOutcomes.RoundsAreDetermined` | crates/spine-heart/src/dcmdb.rs:1064-1070 | Rounds from the same store are the same rounds and end in the same store |
| `Dcmdb.Memory.MaintainUsingPolicy` | crates/spine-heart/src/dcmdb.rs:1056-1084 | Rounds, the prune, the dream and rounds again, in that order, each on the store the one before left and each as stated; the report counts all merges, the pruned, the walks and the nodes visited, and active nodes before equal those after plus merges and prunes |
| `DreamOutcomes.MaintenanceIsDetermined` | crates/spine-heart/src/dcmdb.rs:1056-1084 | The same store, time, rounds, protected nodes and policy give the same maintenance and the same store |
| `Observing.NearbyExactly` | crates/spine-heart/src/dcmdb.rs:1281-1295 | Nearby are exactly the nodes that fewer than the given number surpass in similarity |
| `Observing.CandidatesExactly` | crates/spine-heart/src/dcmdb.rs:400-421 | Candidates are exactly the nearby nodes whose similarity plus the weighted source share reaches the threshold, and none of them is closer than the winner |
| `Observing.FilledExactly` | crates/spine-heart/src/dcmdb.rs:433-447 | The hybrid choice keeps the coupled picks, adds only from the others, stops at the limit and leaves nothing out while there is room |
| `Observing.DecoupledExactly` | crates/spine-heart/src/dcmdb.rs:422-431 | Decoupled, the coactivated nodes are exactly those within the angle that fewer surpass in similarity than count as near or may be coactivated |
| `Observing.CoupledExactly` | crates/spine-heart/src/dcmdb.rs:432-447 | Coupled, they are the best candidates; the hybrid starts with these and fills up from the decoupled ones |
| `Observing.AbsorbedExactly` | crates/spine-heart/src/dcmdb.rs:464-484 | The winner's record after it has learnt, been judged and been annotated |
| `Observing.CandidatesAreActive` | crates/spine-heart/src/dcmdb.rs:400-421 | Candidates are distinct active nodes |
| `Observing.CoactivatedAreActive` | crates/spine-heart/src/dcmdb.rs:422-448 | Whatever the mode, the coactivated nodes are distinct and active |
| `Observing.SecondaryAreOthers` | crates/spine-heart/src/dcmdb.rs:485-498 | Secondary updates go to the candidates after the winner, in order, all of them or the maximum |
| `Observing.ObservationRecords` | crates/spine-heart/src/dcmdb.rs:450-502 | Whatever branch an update takes it records its own event and no other |
| `Observing.UpdateRecords` | crates/spine-heart/src/dcmdb.rs:375-502 | The same for the whole update, decay and refresh included |
| `Dcmdb.Memory.PromoteIfTension` | crates/spine-heart/src/dcmdb.rs:1406-1462 | A node is gained exactly when there is a tension and it has either too little evidence with enough unexpected samples, or enough evidence with a split probability above the threshold; then the winner is rid of it (handing its samples over in the second case) and the new node starts where that case says. Otherwise the winner is cleared exactly when there is enough evidence and the probability is below the lower threshold, and is left as it was if not; no other node changes |
| `Dcmdb.Memory.UpdateWinner` | crates/spine-heart/src/dcmdb.rs:464-484 | The winner absorbs the observation and its tension is settled in that way; the node returned holds the event |
| `Dcmdb.Memory.ObserveNew` | crates/spine-heart/src/dcmdb.rs:450-462 | Without a candidate a fresh node is spawned and visited |
| `Dcmdb.Memory.ObserveKnown` | crates/spine-heart/src/dcmdb.rs:464-502 | With candidates the best absorbs the observation and its tension is settled, exactly the secondary ones learn from it as they were, the coactivation is counted |
| `Dcmdb.Memory.UpdateWithPolicy` | crates/spine-heart/src/dcmdb.rs:375-502 | Accepted exactly for a valid policy, the right dimension and a nonzero direction; a rejection changes nothing. An update takes exactly the stated changes: with no candidate a new node, otherwise the best candidate absorbs the observation and splits, is cleared or stays by the evidence of its tension, the secondary ones learn and all other nodes are as decay left them; the evidence of the active nodes gains exactly its event, held by the node returned |
| `EvidenceExpansion.Walk` | crates/spine-heart/src/dcmdb.rs:651-697 | Ends on any hierarchy, cyclic or wide; visits everything within the depth, or exactly `max_nodes` identifiers of it when that is too much |
| `EvidenceExpansion.OwnExactly` | crates/spine-heart/src/dcmdb.rs:668-683 | A node's own events are exactly those no recorded child shares, the newer before the older |
| `EvidenceExpansion.EverythingWithinVisited` | crates/spine-heart/src/dcmdb.rs:658-697 | A breadth-first walk that never turned a child away has visited every level completely |
| `EvidenceExpansion.Draw` | crates/spine-heart/src/dcmdb.rs:698-717 | The round-robin loops return the front of the interleaved events with repetitions dropped |
| `EvidenceExpansion.EverySourceHeard` | crates/spine-heart/src/dcmdb.rs:698-717 | With room for one event per visited node, each node's newest own event is returned |
| `EvidenceExpansion.SubtreeEventIds` | crates/spine-heart/src/dcmdb.rs:651-718 | The front of the visited nodes' own events, interleaved without repetition; every visited node heard if there is room; everything within reach when nothing is cut |
| `EvidenceExpansion.EventIsOwned` | crates/spine-heart/src/dcmdb.rs:668-683 | Every event of a node is the own event of some member of its family |
| `EvidenceExpansion.ExpansionIsExact` | crates/spine-heart/src/dcmdb.rs:648-718 | On a well-formed hierarchy with one level, room for the root and its children and for its events, what is within reach is exactly the root's evidence |
| `Dcmdb.Memory.SubtreeEvents` | crates/spine-heart/src/dcmdb.rs:651-718 | On this store's hierarchy, given that room, the events returned are exactly the root's |
| `Messages.CaveatOnce` | crates/spine-cli/src/transcript.rs:80-89 | The caveat is added once at most, keeps the text it follows, and always ends unverified assistant text |
| `Messages.CaveatKeeps` | crates/spine-cli/src/transcript.rs:80-89 | The caveat changes nothing but the text, and blank text stays blank |
| `Messages.CaveatAdds` | crates/spine-cli/src/transcript.rs:80-89 | The caveat is appended exactly to assistant text that is not blank and does not end with it |
| `Messages.CallTable` | crates/spine-cli/src/transcript.rs:360-374 | The loop over assistant calls finds, for each identifier, no call, the only call, or that there are several |
| `Messages.ResolvedExactly` | crates/spine-cli/src/transcript.rs:423-431 | A result is attributed to a call exactly when its identifier was called once in the batch, in an earlier message |
| `Transcript.ResultNamesItsCall` | crates/spine-cli/src/transcript.rs:423-446 | What a result's record tells: the tool name and arguments of the call that alone, and earlier, used its identifier (the empty one if it has none), or no tool name; its outcome, content and identity |
| `Transcript.PartsAreTold` | crates/spine-cli/src/transcript.rs:384-447 | The record of each part of a message carries that part's role, text, identity, call and outcome |
| `Transcript.PendingExactly` | crates/spine-cli/src/transcript.rs:246-254 | A call is pending exactly when no result with its identifier follows it |
| `Transcript.EveryCallIsAnswered` | crates/spine-cli/src/transcript.rs:245-264 | After recovery every tool call of an interrupted run is followed by a result with its identifier |
| `Transcript.OpenCallsGetUnknownResults` | crates/spine-cli/src/transcript.rs:245-284 | Recovery keeps the recorded messages (at most caveated) and then has, for the k-th open call, a failed tool result with that call's identifier, the unknown wording, no calls, and the identity of the k-th place after them; and one summary |
| `Transcript.MessageRecords` | crates/spine-cli/src/transcript.rs:384-447 | The identities a message contributes to the log are exactly those its journal later requires |
| `Transcript.ProjectionRecords` | crates/spine-cli/src/transcript.rs:448-500 | Projecting a batch leaves the log with all it had and all the batch calls for, and introduces no repetition |
| `Transcript.ProjectingAgain` | crates/spine-cli/src/transcript.rs:448-452 | Projecting a recorded batch again adds nothing that carries an identity |
| `Transcript.FinishedOwes` | crates/spine-cli/src/transcript.rs:498-529 | The caveat requires no more and no less of a finished run |
| `Transcript.FinalizedOutput` | crates/spine-cli/src/transcript.rs:94-136 | Finalised output is projected as it was returned; output of an unfinished or partly unreturned run is projected with the caveat |
| `Transcript.FinalizedExactly` | crates/spine-cli/src/transcript.rs:101-133 | What finalising makes of one journal, in the returned messages |
| `TranscriptRuns.EachIdentityOnce` | crates/spine-cli/src/transcript.rs:340-500 | Over any run with stops anywhere, the log only grows and no record identity appears twice |
| `TranscriptRuns.OwnsAfterRecovery` | crates/spine-cli/src/transcript.rs:265-284 | A recovered journal names its own run exactly when it was interrupted or already did |
| `TranscriptRuns.CheckpointBlocksItself` | crates/spine-cli/src/transcript.rs:292-319 | Writing a run's recovery checkpoint rules out a second one exactly unless the journal is finished and holds no message of its own run |
| `TranscriptRuns.OneRecoveryCheckpoint` | crates/spine-cli/src/transcript.rs:292-323 | Over any run each tool run gets at most one recovery checkpoint, provided its finished journals hold a message of their own |
| `TranscriptRuns.SecondCheckpoint` | crates/spine-cli/src/transcript.rs:292-323 | Without such a message a stop between writing the checkpoint and dropping the journal leads to a second checkpoint |
| `TranscriptRuns.DiscardedExactlyOnce` | crates/spine-cli/src/transcript.rs:323-326 | From the moment a journal is dropped each identity it owed stands in the log exactly once, whatever follows |
| `TranscriptRuns.RecoveryConverges` | crates/spine-cli/src/transcript.rs:228-326 | However often recovery is cut short and repeated, what is recorded or owed stays the same, and once no journal is left the log holds exactly that |
| `TranscriptStore.Heart.constructor` | crates/spine-cli/src/transcript.rs:40-61 | An empty log and no journals |
| `TranscriptStore.Heart.SaveJournal` | crates/spine-cli/src/transcript.rs:63-78 | The journal of a run is replaced, unless the write fails before becoming durable |
| `TranscriptStore.Heart.ProjectBatch` | crates/spine-cli/src/transcript.rs:347-500 | The log gains the unrecorded events of the batch in order, or a front part of them if a write fails |
| `TranscriptStore.Heart.DropFinished` | crates/spine-cli/src/transcript.rs:498-530 | Only plainly finished journals whose every required identity is recorded are dropped, and on success all of them |
| `TranscriptStore.Heart.Persist` | crates/spine-cli/src/transcript.rs:340-531 | Both together, as a run of the protocol; it succeeds exactly when no write failed and every journal can be decoded; then everything the batch requires is recorded and every journal that became complete is gone, and no other; each new record tells a part of the batch |
| `TranscriptStore.Heart.ConcludeAndDrop` | crates/spine-cli/src/transcript.rs:292-323 | A missing checkpoint is written once, then the journal is dropped |
| `TranscriptStore.Heart.RecoverThread` | crates/spine-cli/src/transcript.rs:228-326 | A run of the protocol from any state: identities stay unique, what is recorded or owed is unchanged however it ends, it succeeds exactly when no write failed and every journal can be decoded, success leaves nothing of that thread to recover, and the number returned is that of the checkpoints written; each record it adds is a journal's checkpoint or a part of what its recovery completes, and each with the identity of an unknown outcome says the call failed |
| `TranscriptStore.Heart.FinalizeGrounding` | crates/spine-cli/src/transcript.rs:94-136 | Exactly the journals of this agent and thread that share a record with the output are rewritten, and only locally: each takes over the returned message of each of its records, and its grounding is final exactly when its run is finished and all its output was returned; succeeds exactly when no write failed and every journal can be decoded |
| `TranscriptStore.Heart.FinishChildCheckin` | crates/spine-cli/src/transcript.rs:328-338 | Finished journals of the thread no longer count as stopped; nothing else of them and no other journal changes |
| `Grounding.EvidenceFrom` | crates/spine-cli/src/grounding.rs:351-434 | The loops collect recalled records and each message's contribution, first occurrences only |
| `Grounding.ResultCountsExactly` | crates/spine-cli/src/grounding.rs:398-430 | A tool result is evidence exactly when it succeeded and its identifier was called once and earlier: a recall for the records in it or the mark that it was cut short, another tool for its content unless a model wrote it |
| `Grounding.AmbiguousCallsCountForNothing` | crates/spine-cli/src/grounding.rs:359-371 | An identifier called several times, or never, corroborates nothing |
| `Grounding.OwnWordsAreNotEvidence` | crates/spine-cli/src/grounding.rs:372-397 | Nothing the assistant, the system or the host wrote is evidence |
| `Grounding.UserCountsExactly` | crates/spine-cli/src/grounding.rs:372-397 | What the user said is evidence unless blank, under its record if it has one and its place otherwise |
| `Grounding.UserSays` | crates/spine-cli/src/grounding.rs:372-392 | What counts as the user's own text: an injection without its frame, nothing of a host notice, otherwise the trimmed text |
| `Grounding.EvidenceIsSourced` | crates/spine-cli/src/grounding.rs:431-433 | Every item is a recalled record or some message's contribution, listed once |
| `Grounding.Retain` | crates/spine-cli/src/grounding.rs:431-432 | The in-place filter keeps first occurrences in order |
| `Checkpoints.MarkerRoundTrip` | crates/spine-cli/src/main.rs:3143-3198 | A marker written for a checkpoint reads back as that checkpoint's, and counts for its own agent and thread alone |
| `Checkpoints.CheckpointRoundTrip` | crates/spine-runtime/src/harness.rs:150-216 | A sound checkpoint reads back from its interaction and is found by its own agent and thread alone |
| `Checkpoints.MarkerExactly` | crates/spine-cli/src/main.rs:3143-3198 | An interaction reads as the marker of a checkpoint exactly when it is the operator's control record without tool or attachments whose payload, of the first schema, names the same event as its metadata |
| `Checkpoints.CheckpointExactly` | crates/spine-runtime/src/harness.rs:150-216 | An interaction reads as a checkpoint exactly when it is such a record with the checkpoint's outcome and type whose payload is sound and names its harness |
| `Checkpoints.ExactlyConsumed` | crates/spine-cli/src/main.rs:3274-3297 | Uncertain exactly when some marker of ours is malformed, otherwise whether the checkpoint has one |
| `Checkpoints.Discover` | crates/spine-cli/src/main.rs:3098-3141 | A checkpoint is available exactly when it is our newest, reads back, and no later marker of ours is its own or unreadable; the log is rejected exactly when, newest first, an unreadable marker or an unmarked unreadable checkpoint of ours comes up |
| `CheckpointRuns.OfferedIsFree` | crates/spine-cli/src/main.rs:3098-3141 | A checkpoint offered by discovery has no marker anywhere in the log |
| `CheckpointRuns.MoveKeepsSound` | crates/spine-cli/src/main.rs:3219-3272 | Every single effect of the protocol, stops included, keeps its invariant |
| `CheckpointRuns.ResumedAtMostOnce` | crates/spine-cli/src/main.rs:3217-3272 | Over every run with restarts and failing marker writes no checkpoint is resumed twice, a resumed one has its marker in the log, and one held has neither marker nor resumption |
| `CheckpointRuns.Session.Restart` | crates/spine-cli/src/main.rs:1000-1012 | After a restart exactly the discovered checkpoint, if any, is held |
| `CheckpointRuns.Session.MarkConsumed` | crates/spine-cli/src/main.rs:3200-3215 | Confirmed, refuted or undecided exactly as the write was reported, or else as the log, if it can be read, shows |
| `CheckpointRuns.Session.PrepareResume` | crates/spine-cli/src/main.rs:3219-3272 | Resumes exactly when a checkpoint was held, the memory circuit granted the call, and the marker's write was reported or the log, read after an error, holds no malformed marker of ours and holds this one; puts the checkpoint back exactly on proof of the marker's absence, gives it up only when the write was not reported and the log could not tell, and changes nothing while the circuit refuses |
| `CheckpointRuns.Session.FromOutcome` | crates/spine-cli/src/main.rs:3299-3344 | On success the returned checkpoint is held; a saved equal one is reused without a write; on failure what is held is unchanged |
| `CheckpointRuns.Session.Overhear` | crates/spine-cli/src/main.rs:3098-3141 | Anything but a readable marker of ours, malformed markers included, may be appended and the invariant stays |
| `Breaker.Channel.Allow` | crates/spine-cli/src/resilience.rs:73-94 | The grant and the new state of a channel |
| `Breaker.Channel.RecordSuccess` | crates/spine-cli/src/resilience.rs:107-112 | A success closes the channel and forgets its failures |
| `Breaker.Channel.RecordFailure` | crates/spine-cli/src/resilience.rs:114-124 | A failure counts, is remembered, and opens the channel at the maximum or from half open |
| `Breaker.Channel.RecordCancelled` | crates/spine-cli/src/resilience.rs:126-132 | Cancelling the probe reopens the channel and nothing else |
| `Breaker.Channel.Restore` | crates/spine-cli/src/resilience.rs:134-139 | A reset closes the channel |
| `Breaker.CircuitBreaker.constructor` | crates/spine-cli/src/resilience.rs:155-174 | Three closed channels with their own limits and cooldowns |
| `Breaker.CircuitBreaker.Allow` | crates/spine-cli/src/resilience.rs:184-186 | Asking one channel leaves the others alone |
| `Breaker.CircuitBreaker.Record` | crates/spine-cli/src/resilience.rs:188-202 | Reporting on one channel leaves the others alone |
| `Breaker.CircuitBreaker.ResetAll` | crates/spine-cli/src/resilience.rs:204-208 | All channels are reset |
| `Breaker.EveryRunIsSound` | crates/spine-cli/src/resilience.rs:73-139 | Over every run half open coincides with a probe in flight and closed with fewer consecutive failures than the maximum |
| `Breaker.AvailableStays` | crates/spine-cli/src/resilience.rs:96-105 | Available now means granted at any later moment if nothing is reported in between, and a granted probe leaves the channel unavailable |
| `Breaker.CooldownHolds` | crates/spine-cli/src/resilience.rs:76-86 | After a trip, until a success or reset, every granted call comes at least the cooldown later |
| `BreakerCalls.OneProbe` | crates/spine-cli/src/resilience.rs:73-132 | With each call identified by its place in the run: while nothing disturbs a probe, the calls granted while not closed and still unanswered are the probe alone while half open and none otherwise |
| `BreakerCalls.OneProbeExactly` | crates/spine-cli/src/resilience.rs:73-139 | Over every run: from each point of it at most one such call stays in flight if and only if, while half open, no report answers anything but the probe and no reset comes |
| `BreakerCalls.NextEventExactly` | crates/spine-cli/src/resilience.rs:73-139 | The same for one event of a run undisturbed so far: a disturbance, a trip and a cooldown put a second call in flight |
| `BreakerCalls.PromptCallerIsOrderly` | crates/spine-cli/src/main.rs:1244-1260 | A caller that reports each granted call before anything else it does with the channel always keeps that condition, so at most one call is in flight |
| `Breaker.TripsExactly` | crates/spine-cli/src/resilience.rs:114-124 | The channel trips at the last allowed failure in a row and not before |
| `BreakerCalls.LateFailureFreesTheProbe` | crates/spine-cli/src/resilience.rs:114-132 | Reports are not matched to calls: after a late failure of an earlier call the interface grants a second call while the probe is unanswered, so that two are in flight |
| `Facts.TextOrder` | crates/spine-heart/src/facts.rs:1433-1450 | Byte order on text is a strict total order |
| `Facts.KeyOrder` | crates/spine-heart/src/facts.rs:1429-1450 | Recency keys are strictly and totally ordered |
| `Facts.TextLessExactly` | crates/spine-heart/src/facts.rs:1433-1450 | One text comes before another when it is a proper front of it or smaller where they first differ |
| `Facts.NewerExactly` | crates/spine-heart/src/facts.rs:1429-1450 | Two stated event times compare by their text whatever the sessions; without them two session times by theirs; without either the order of arrival decides; stated comes before session-only and that before neither |
| `Facts.PrecedesOrder` | crates/spine-heart/src/facts.rs:294-298 | Recency with ties broken by identifier is a strict total order on facts |
| `Facts.LinksAreInverse` | crates/spine-heart/src/facts.rs:299-318 | The two link fields are inverse partial maps within one slot, from older to strictly newer and to a different value |
| `Facts.ChainsGrow` | crates/spine-heart/src/facts.rs:299-318 | Recency strictly grows along a chain of links, so chains end |
| `Facts.NewestIsActive` | crates/spine-heart/src/facts.rs:299-318 | The newest fact of each slot is active |
| `Facts.SupersededExactly` | crates/spine-heart/src/facts.rs:300-307 | A fact is superseded exactly when the next one of its slot is strictly newer with a different value |
| `Facts.LinksAreDetermined` | crates/spine-heart/src/facts.rs:279-320 | The links depend on the claims alone |
| `Facts.FirstOfThreeStaysActive` | crates/spine-heart/src/facts.rs:300-307 | Of values A, A, B in time order the first A stays active |
| `Facts.LaterTimeWins` | crates/spine-heart/src/facts.rs:279-320 | Of two facts alone in their slot with stated times and different values, the one with the later time supersedes the other |
| `Facts.LinkedFacts` | crates/spine-heart/src/facts.rs:299-318 | Links join different facts of the store, and only state facts have any |
| `FactStore.SortByRecency` | crates/spine-heart/src/facts.rs:294-298 | A slot's facts in strictly ascending order, none added or lost |
| `FactStore.GroupFacts` | crates/spine-heart/src/facts.rs:284-291 | Each slot's competing facts, each listed once |
| `FactStore.NextInSlot` | crates/spine-heart/src/facts.rs:299 | In a sorted slot the immediate successor is the next entry |
| `FactStore.FactStore.constructor` | crates/spine-heart/src/facts.rs:214-217 | An empty store |
| `FactStore.FactStore.LinkSlot` | crates/spine-heart/src/facts.rs:299-317 | The scan over neighbours gives a slot exactly its declared links |
| `FactStore.FactStore.RebuildSupersession` | crates/spine-heart/src/facts.rs:279-320 | All links become the declared ones, whatever they were, so that of two facts alone in a slot with stated times and different values exactly the earlier is superseded, by the later; the count is the number of superseded facts; rebuilding again changes nothing |
| `FactStore.FactStore.AddCandidates` | crates/spine-heart/src/facts.rs:241-277 | Where distinct claims have distinct identifiers every claim of the batch is held afterwards, with those known before and no other; links are rebuilt and the size of the batch is returned |
| `FactStore.FactStore.ActiveForSlotPrefix` | crates/spine-heart/src/facts.rs:230-239 | Exactly the active facts of the prefix, oldest first |
| `FactStore.ClaimsAreConfluent` | crates/spine-heart/src/facts.rs:241-277 | For batches determined by their events the claims depend only on which batches were added |
| `FactStore.StoresAreConfluent` | crates/spine-heart/src/facts.rs:241-320 | Hence the same facts with the same links, in any order and with any repetition |
| `Risk.MigrationKeepsScore` | crates/spine-heart/src/risk.rs:111-119 | New coordinates start at zero and add nothing whatever is read into them |
| `Risk.MigrationKeepsPredictions` | crates/spine-heart/src/risk.rs:73-176 | Every input the released field accepted predicts the same after the upgrade, and so does any ten-statistic input ending in the old four |
| `Risk.MigratedOnce` | crates/spine-heart/src/risk.rs:91-106 | A migrated field is accepted as a ten-statistic one exactly while its size fits, and never as a four-statistic one |
| `Risk.FeaturesExactly` | crates/spine-heart/src/risk.rs:147-176 | Which inputs a field accepts and the vector it reads from them, inputs from before a migration in their old places |
| `Risk.AffectExactly` | crates/spine-heart/src/risk.rs:126-145 | Released fields read affect as it is, newer ones over its length, migrated ones both ways |
| `Risk.LearningMovesTowardLabel` | crates/spine-heart/src/risk.rs:41-63 | A step moves the score by rate, error and slope times one plus the squared feature length, toward the label |
| `Risk.RiskField.constructor` | crates/spine-heart/src/risk.rs:17-32 | Zero weights of the declared shape, affect doubled for ten statistics |
| `Risk.RiskField.Update` | crates/spine-heart/src/risk.rs:41-63 | Accepts exactly a label in [0, 1] with state, affect and statistics of the field's shape or of the one before its migration, and rejects anything else unchanged; then each weight moves by its own feature, and the bias by one, times rate, error and the slope of the logistic at the prediction made before, which is returned |
| `Risk.RiskField.CheckLayout` | crates/spine-heart/src/risk.rs:79-110 | Refuses overflow and every shape other than the declared four, six or ten statistics |
| `Risk.RiskField.UpgradeRetrievalLayout` | crates/spine-heart/src/risk.rs:73-120 | Migrates exactly an accepted four-statistic field; everything else is left untouched |
| `Paging.DecimalGrows` | crates/spine-cli/src/partner_tools.rs:161-183 | A smaller number is never written longer |
| `Paging.DecimalReads` | crates/spine-cli/src/partner_tools.rs:161-183 | A numeral reads back as its number, without leading zeros |
| `Paging.LinesExactly` | crates/spine-cli/src/partner_tools.rs:161-183 | A line for each break and one for text after the last |
| `Paging.HeaderTells` | crates/spine-cli/src/partner_tools.rs:161-183 | The header tells size, lines, offset and end, and where to read on: nowhere exactly at the end of the text |
| `Paging.HeaderFits` | crates/spine-cli/src/partner_tools.rs:184-187 | The reserved space bounds the header of every possible page, and some page needs all of it |
| `Paging.PageIsBounded` | crates/spine-cli/src/partner_tools.rs:133-200 | A page never exceeds its budget, holds exactly the text from its offset to its end, and moves on unless the text is finished |
| `Paging.PageIsFull` | crates/spine-cli/src/partner_tools.rs:184-200 | A page holds as much text as was asked for and there is room for, after its header |
| `Paging.PagesJoin` | crates/spine-cli/src/partner_tools.rs:133-200 | Pages read by following the next offset join up to the text read so far, and to all of it at the end, after at most one page per character |
| `Paging.EveryOffsetReads` | crates/spine-cli/src/partner_tools.rs:160-190 | With valid arguments and a budget above the header reserved at the end of the text, every request at an offset of the text succeeds, and the budget is one the whole text can be read under |
| `Paging.NeverStuck` | crates/spine-cli/src/partner_tools.rs:160-190 | With room for a page at the last character, a request that still has something to read never fails, although a later header may be longer |
| `Paging.ReadableExactly` | crates/spine-cli/src/partner_tools.rs:150-200 | Whatever page size is asked for, following the next offset from 0 reaches the end of the text, if and only if the budget leaves room for a page at its last character (for the header alone if it is empty) |
| `Chunking.FindWords` | crates/spine-cli/src/partner_tools.rs:1624-1625 | The maximal runs of non-space, with only space between them |
| `Chunking.ChunkWordsPreserving` | crates/spine-cli/src/partner_tools.rs:1623-1650 | Successive windows of the text ending with its last word; nothing only for a text without words |
| `Chunking.ChunksOverlap` | crates/spine-cli/src/partner_tools.rs:1629-1648 | A chunk has at most `target` words and exactly `overlap` of them begin the next chunk |
| `Chunking.ChunksRestoreText` | crates/spine-cli/src/partner_tools.rs:1632-1643 | Removing the shared spans restores the text, character for character |
| `Diagnostics.ExtendedIsChained` | crates/spine-heart/src/diagnostics.rs:68-88 | A valid sample leaves one hash chain of at most a hundred consecutive counts, and is then present |
| `Diagnostics.ExtendedExactly` | crates/spine-heart/src/diagnostics.rs:68-88 | A sample already known changes nothing, one that does not succeed the last starts afresh, any other joins and the oldest beyond a hundred goes |
| `Diagnostics.EveryWindowIsChained` | crates/spine-heart/src/diagnostics.rs:56-91 | After any batch every window is such a chain |
| `Diagnostics.DiagnosticHistory.constructor` | crates/spine-heart/src/diagnostics.rs:47-54 | No windows |
| `Diagnostics.DiagnosticHistory.Add` | crates/spine-heart/src/diagnostics.rs:56-91 | A batch is taken up to its first invalid sample; what came before stays |
| `Diagnostics.CountDownExactly` | crates/spine-heart/src/diagnostics.rs:113-127 | The latest known samples count down from a number exactly when a live sample is retained for each of those counts |
| `Diagnostics.CompleteExactly` | crates/spine-heart/src/diagnostics.rs:113-145 | A trend window is complete exactly when a live sample is retained for each of the last ten counts and the newest carries the current state |
| `Diagnostics.SummaryExactly` | crates/spine-heart/src/diagnostics.rs:103-145 | Those lengths and means in the fields of the retained samples |
| `Diagnostics.DiagnosticHistory.Summarize` | crates/spine-heart/src/diagnostics.rs:103-145 | The summary with that meaning of complete; its length counts the live samples, its trends are the means of the latest ten and are told only while the newest is current |

## Left out

- Floating point: floats are reals, so rounding, infinities and NaN do not occur; finiteness checks on times and vectors are dropped, except in the diagnostic samples, where a value may be non-finite.
- Transcendental and vector mathematics (exponential, logarithm, arc cosine, concentration, slerp, unit vectors, norms, quantiles, sigmoid) and the source share and variation: parameters with the few range facts the proofs use. Division by zero yields an arbitrary value.
- Identifier hashing and all cryptography: node, fact and event identifiers come from injective or fresh constructors.
- The spawn counter and the update counter of the risk field are unbounded; saturation of the dream counter, of tension counts and of the breaker's counters is modelled.
- Queries over the store (`query_with_policy`, `relationship_score`, `coherent_apex`, the default-policy wrappers): scores over uninterpreted mathematics with no effect on the store.
- Configuration checks on parameters that only queries use, and the wording of most error messages.
- Loops that apply one node rule or scale one row at a time (`values_mut`, `retain` on a map) are map comprehensions; loops that build a state across entries are loops.
- Iteration order over ordered maps is arbitrary wherever the result does not depend on it; the open calls of an interrupted run, which are numbered in order, keep theirs.
- Call identifiers are numbers ordered as their strings are, with 0 for the empty one; record identifiers are a run with an index rather than text, so one run's name is never a prefix of another's.
- Reads of the log and of local states while persisting or recovering are assumed to succeed; a failed read stops the caller before its next write, which the write failures already cover.
- Encoding and decoding of journals as JSON: an unreadable journal is one whose decoded envelope `decode` rejects. Whether a recovered checkpoint passes `HarnessCheckpoint::validate` is not modelled; a refusal there stops recovery like a failed write.
- The context leaves `persist` returns for the events it commits.
- `reconcile_grounding_repair`, the chat loop, prompts, the model endpoint, settings and user interfaces: I/O around the modelled calls.
- Wording of notices, summaries and unknown results: parameters; only that the grounding notice does not end in white space and that a summary is not blank matters.
- Markers of the same agent and thread written by other devices: only the session writes readable markers; malformed ones may come from anywhere.
- Regex extraction, BM25 search and query aggregation over facts (`aggregate_facts_for_intent`): pattern tables and float scores on top of the supersession logic. A fact keeps the fields its identity, recency and links depend on; excerpt, confidence, role, ingest time, cue and metadata are dropped, and normalisation of values is a parameter.
- Argument parsing, file access and UTF-8 decoding around paged reading; byte offsets in chunking are character positions.
- Grounding: parsing of recalled JSON and nested recall results is a parameter, and host wording is a parameter.
