# CASITA: a verified model of the analysis core

CASITA reads a parallel trace, builds a distributed graph of its enter and leave events, finds
wait states, charges the activities that caused them with blame, and extracts the critical path.
This project models that core in Dafny and proves what its parts promise each other: on one
process, between processes that only exchange a few time stamps, and over whole runs.

| part | files |
|---|---|
| the order of nodes, binary searches | `NodeOrder.dfy`, `BinarySearch.dfy` |
| growing the event graph: edge lists, node lists, MPI chains, region stack | `EdgeLists.dfy`, `StreamGraph.dfy`, `ChainInvariant.dfy`, `MpiChain.dfy`, `GraphGrowth.dfy`, `InsertionExamples.dfy`, `GraphEngine.dfy`, `RegionStack.dfy` |
| wait-state rules and blame | `StreamBlame.dfy`, `WaitRules.dfy`, `WaitAnalysis.dfy`, `WaitOutcomes.dfy`, `WaitConservation.dfy`, `GraphForBlame.dfy`, `ShortestPathBlame.dfy` |
| local critical path | `CriticalPath.dfy` |
| distributed critical path (reverse replay) | `ReverseReplay.dfy`, `ReplayRuns.dfy`, `ReplayTermination.dfy`, `ReplaySections.dfy`, `ReplayWalks.dfy`, `ReplayWorker.dfy`, `ReplaySetup.dfy` |
| time accounting by counters | `DeviceOccupancy.dfy`, `KernelOverlap.dfy`, `EdgeApportion.dfy`, `ActivityAccounting.dfy` |
| shared | `Common.dfy`, `MapSum.dfy`, `Scaling.dfy` |

How it is built. An object the source updates in place is a class (`GraphEngine.EventStream`,
`EdgeLists.Graph`, `RegionStack.Pairing`, `WaitAnalysis.Analysis`, `ReplayWorker.Worker`,
`DeviceOccupancy.DeviceTracker`, `KernelOverlap.OffloadAnalysis`, `EdgeApportion.StreamState`,
`ActivityAccounting.Profile`, `ShortestPathBlame.KernelBlame`), and its loops are loops. Each method is verified
against a specification function on values, or against a definition that does not mention the
fields at all, such as the number of ticks at which no task was active. The lemmas about runs,
schedules and several processes speak about these functions.

Time is an unbounded natural number except where a width matters: the 8-bit task counter and
the 64-bit subtractions of the report. Blame is real. Messages in flight are a multiset, and a
schedule may interleave the ranks in any way.

## What the proofs found

- The order of nodes is not always an order. `NodeOrder.TotalOrderExactly` gives the exact
  condition, `NodeOrder.KernelWaitCycle` three nodes in a cycle.
- `setPartner` compares times strictly (`src/backend/include/graph/GraphNode.hpp:63`), so the
  enter node of a region without duration becomes its own partner: `RegionStack.PartnerExactly`.
- Inserting a node of another paradigm between two adjacent MPI nodes removes their MPI edge,
  and an MPI node inserted there later ends the program with an exception:
  `MpiChain.MpiLinkedExactly`, `GraphGrowth.SeveredThenFails`. The comment at
  `src/backend/GraphEngine.cpp:654` expects insertions only from analysis rules, but equal time
  stamps are enough for the first: a node read with the time of the last one is inserted if the order puts it in front. A
  CUDA enter at the time of an MPI leave takes away the edge of the MPI region that the replay
  looks for: `InsertionExamples.TieSevers`, `InsertionExamples.LateNodeThrows`.
- Edges to the successor of an inserted node are never blocking, which is right unless the
  insertion splits a wait state: `MpiChain.FlagsRightExactly`, `InsertionExamples.SplitWaitState`.
- Waiting time and blame balance over a pair of send and receive exactly if the receive does
  not end before the send starts: `WaitConservation.PairBalances`, `WaitConservation.Conservation`.
- Distributing blame over no time divides by zero: `WaitConservation.BlameFailsExactly`.
- Election starts from time zero and stream zero, so a collective that all ranks enter at time
  zero may have no blamed member: `WaitConservation.SingleMaster`.
- A member that leaves a collective before the last one enters is blocked all the same, and then
  the node it is blocked by is not earlier: `WaitConservation.CollectiveReleaser`,
  `WaitConservation.EarlyLeaver`. The replay still keeps one walk and ends, but the rank may record
  overlapping sections: `ReplaySections.EarlyLeaverOverlaps`.
- A blocking leave without remote node makes the replay record overlapping sections too:
  `ReplaySections.MissingRemote`, `ReplaySections.OverlapWithoutRemote`. Whatever the network is,
  `ReplaySections.SectionsGoBackExactly` says when the sections of a rank go back.
- The replay halts before its end in one way only: the walk is sent to a node that does not exist.
  `ReplayRuns.NoDeadlock`, `ReplayRuns.CleanEnd`.
- The 8-bit counter is right for fewer than 256 concurrent kernels. At the 256th the statistic
  is wrong by an amount that depends on the next event: `KernelOverlap.CounterExact`,
  `KernelOverlap.WrapLoses`, `KernelOverlap.AfterWrap`, `KernelOverlap.OverlapLostAt256`. Over a whole
  history it is right exactly under the condition of `KernelOverlap.RightExactly`.
- The final idle leave charges a device that still runs a task with time it was not idle, and a
  transfer that still runs is not counted. The report's unsigned subtractions are right for
  devices that end idle and can wrap for others: `DeviceOccupancy.FinalIdleExactly`,
  `DeviceOccupancy.ReportDoesNotWrap`, `DeviceOccupancy.ReportExactly`, `DeviceOccupancy.BusyEndExample`.
- `computeBlameMap` erases an edge from a `std::list` and then advances the iterator once more
  (`src/backend/otf/OTF2ParallelTraceWriter.cpp:1282-1288`). The edge behind an edge that ends is
  passed over and stays in the list; behind the last edge the advance is undefined, and on a
  list that is a ring the loop starts over and hands out shares twice:
  `EdgeApportion.AsWrittenExactly`, `EdgeApportion.UndefinedExactly`, `EdgeApportion.RingOneEnds`.
- Comments in `src/analysis/include/BlameDistribution.hpp:88-97` say that wait states inside a walk
  are subtracted from its time; the code subtracts zero, and so does the model.
- The comment at `src/backend/EventStream.cpp:316` says that the left link of an MPI node is the
  last local node. By then the new node is the last node itself. Links are not part of the model.

## Model

| member | source | states |
|---|---|---|
| `NodeOrder.Comparable` | src/backend/include/graph/Node.hpp:638-764 | Of two nodes with different IDs exactly one is less, except for two exit nodes, or two nodes that are both kernel and wait, tied on different streams |
| `NodeOrder.SameStreamOrder` | src/backend/include/graph/Node.hpp:638-764 | Within one stream the comparison is a strict total order without any assumption |
| `NodeOrder.TotalOrderExactly` | src/backend/include/graph/Node.hpp:638-764 | On any set of nodes with plain roles it is a strict total order if and only if no third node lies between the ends of a kernel-wait pair that is ordered against the stream IDs |
| `NodeOrder.KernelsOnHigherStreams` | src/backend/include/graph/Node.hpp:638-764 | Numbering device streams after waiting streams suffices |
| `NodeOrder.KernelWaitCycle` | src/backend/include/graph/Node.hpp:700-764 | Without that numbering a cycle of three nodes exists |
| `NodeOrder.SortedMeans` | src/backend/include/graph/Node.hpp:638-764 | What a sorted list looks like: by time, then process nodes first, by paradigm, in the order of reading on one stream; between streams kernels before waits, MPI exits last, all others by falling stream ID |
| `NodeOrder.SortedUnique` | src/backend/GraphEngine.cpp:434-450 | Sorting the nodes of all streams has a single possible result |
| `BinarySearch.UpperMid` | src/backend/EventStream.cpp:621-722 | The unsigned midpoint stays in range and never equals the lower bound of a longer range, so `index - 1` cannot wrap |
| `BinarySearch.FindNode` | src/backend/EventStream.cpp:621-722 | On a sorted vector the search ends and finds a node that is present; a single element is returned unchecked |
| `BinarySearch.FindId` | src/backend/include/graph/GraphNode.hpp:280-408 | Finds an ID that is present, and returns the first position for one that is not |
| `BinarySearch.FindLastBefore` | src/backend/include/graph/GraphNode.hpp:450-579 | Returns the last node not after the time whenever the first node qualifies, the first node otherwise |
| `EdgeLists.AddKeepsMirror` | src/backend/Graph.cpp:104-126 | Adding an edge keeps in-edge and out-edge lists mirror images of each other |
| `EdgeLists.RemoveKeepsMirror` | src/backend/Graph.cpp:132-162 | So does removing the first edge between two nodes from both lists by two searches |
| `EdgeLists.Graph.AddEdge` | src/backend/Graph.cpp:104-126 | The edge comes last in both lists |
| `EdgeLists.Graph.RemoveEdge` | src/backend/Graph.cpp:132-162 | Exactly the edge found by a search before is taken out of both lists |
| `EdgeLists.Graph.GetEdge` | src/backend/GraphEngine.cpp:266-287 | Returns the oldest edge between two nodes, if there is one |
| `StreamGraph.Effect` | src/backend/GraphEngine.cpp:695-880 | Adding a node changes the edges between two given nodes only if one of them is new or the pair is one of at most two that are cut; states the edges in every case |
| `ChainInvariant.PositionSplits` | src/backend/EventStream.cpp:354-375 | The insertion position has all smaller nodes before it and all greater ones behind |
| `ChainInvariant.ChainKept` | src/backend/GraphEngine.cpp:632-880 | After any append or insertion the list is strictly sorted, each adjacent pair is joined by exactly one edge and all edges go forward |
| `MpiChain.MpiLinkedExactly` | src/backend/GraphEngine.cpp:745-880 | An addition keeps every MPI node linked to the MPI node before it if and only if it does not separate two adjacent MPI nodes by a node of another paradigm |
| `MpiChain.MpiOnlyNextKept` | src/backend/Graph.cpp:229-267 | Edges of the MPI subgraph within a stream only join consecutive MPI nodes |
| `MpiChain.FailsExactly` | src/backend/GraphEngine.cpp:805-834 | The exception for a missing edge is thrown if and only if the edge between the MPI neighbours is gone, never while the chain is whole |
| `MpiChain.FlagsRightExactly` | src/backend/GraphEngine.cpp:778-880 | Blocking flags mark exactly the edges over a whole wait state, as the sanity check demands, if and only if no insertion splits a wait state |
| `MpiChain.WaitstateBits` | src/backend/include/graph/Node.hpp:321-326 | Each paradigm has its own bit for wait states |
| `GraphGrowth.AlwaysChained` | src/backend/GraphEngine.cpp:632-880 | The chain invariant holds on every stream after any interleaving of additions to all streams and of edges that rules add across streams or forward on one stream |
| `GraphGrowth.MpiAlwaysChained` | src/backend/GraphEngine.cpp:632-880 | If no addition separates adjacent MPI nodes, no exception is thrown and the MPI subgraph of every stream is exactly the chain of its MPI nodes, so the replay's predecessor search succeeds |
| `GraphGrowth.AppendNeverSevers` | src/backend/EventStream.cpp:256-334 | Appending never separates nodes |
| `GraphGrowth.SeveredThenFails` | src/backend/GraphEngine.cpp:805-834 | After a separating insertion, adding an MPI node on either side of the inserted node throws |
| `InsertionExamples.TieSevers` | src/backend/GraphEngine.cpp:643-656 | A CUDA enter at the time of an MPI leave is inserted in front of it and removes the edge of the MPI region |
| `InsertionExamples.LateNodeThrows` | src/backend/GraphEngine.cpp:805-834 | A later MPI node in that region makes the program throw |
| `InsertionExamples.SplitWaitState` | src/backend/GraphEngine.cpp:554-880 | An enter added within a wait state gets a non-blocking edge that the sanity check rejects |
| `GraphEngine.EventStream.constructor` | src/backend/EventStream.cpp:27-56 | A new stream has no nodes and no last nodes |
| `GraphEngine.EventStream.AddGraphNode` | src/backend/EventStream.cpp:256-306 | Appends, keeps the last node of every paradigm and returns the former ones |
| `GraphEngine.EventStream.InsertGraphNode` | src/backend/EventStream.cpp:336-445 | Inserts at the sorted position and returns the nearest node of every paradigm in both directions |
| `GraphEngine.DirectNeighbours` | src/backend/GraphEngine.cpp:700-740 | The nearest of all paradigm neighbours are the adjacent nodes of the list |
| `GraphEngine.Engine.AddNewGraphNode` | src/backend/GraphEngine.cpp:632-880 | The imperative addition does what the specification of the edge changes says, throws exactly when it says so, and keeps the chain |
| `GraphForBlame.RunKeepsMirror` | src/backend/Graph.cpp:104-162 | In-edge and out-edge lists mirror each other after every run |
| `GraphForBlame.RunKeepsIds` | src/backend/include/graph/Node.hpp:782-789 | With fresh IDs per node, edges lead to listed nodes and IDs identify nodes after every run |
| `GraphForBlame.EdgesForBlame` | src/analysis/include/BlameDistribution.hpp:130-150 | However the graph was built, the edge between two adjacent nodes of a stream is found and is as long as the time between them, so the missing-edge assertion cannot fail |
| `RegionStack.MatchUnique` | src/backend/GraphEngine.cpp:658-693 | Enter and leave of a region determine each other |
| `RegionStack.Laminar` | src/backend/GraphEngine.cpp:658-693 | Two regions of a stream are nested or apart |
| `RegionStack.FailsExactly` | src/backend/GraphEngine.cpp:659-668 | The stack-empty exception is thrown if and only if some stream has more leaves than enters so far |
| `RegionStack.PairingIsMatching` | src/backend/GraphEngine.cpp:658-693 | For any interleaving of streams both ends of a region remember both nodes, and both have the innermost enclosing region as caller |
| `RegionStack.PartnerExactly` | src/backend/include/graph/GraphNode.hpp:59-98 | Partners are mutual if and only if the region has positive duration; else the enter takes itself for its partner |
| `RegionStack.PartnersFound` | src/backend/GraphEngine.cpp:658-693 | Every leave has a partner and an enter lacks one exactly while its region is open |
| `RegionStack.Pairing.AddNode` | src/backend/GraphEngine.cpp:655-693 | The in-place stacks, pairs and callers follow the specification and throw when it does |
| `StreamBlame.WalkBackward` | src/backend/EventStream.cpp:519-564 | The walk list is a contiguous run of the stream ending at the first stop of the callback; MpiBlame and OmpBlame say where that is |
| `StreamBlame.SharesTelescope` | src/analysis/include/BlameDistribution.hpp:128-204 | The shares along a run of edges add up to the share of its whole duration |
| `StreamBlame.DistributeConserves` | src/analysis/include/BlameDistribution.hpp:61-208 | Distribution adds exactly the total blame to the edges, under its reason only, for any walk of positive length |
| `StreamBlame.SpreadInside` | src/analysis/include/BlameDistribution.hpp:128-204 | Each edge of the walk gets its share by duration, once |
| `StreamBlame.SpreadOutside` | src/analysis/include/BlameDistribution.hpp:128-204 | No other edge changes |
| `StreamBlame.MpiWalkOutcome` | src/analysis/include/mpi/MPIRulesCommon.hpp:25-55 | A walk from an MPI enter has at least two nodes and blames if and only if time passed since its end |
| `StreamBlame.MpiBlame` | src/analysis/include/mpi/MPIRulesCommon.hpp:37-55 | MPI blame goes in proportion to duration to exactly the edges since the last atomic process node or leave of a blocking MPI node, or since the beginning of the stream; nothing else changes |
| `StreamBlame.OmpBlame` | src/analysis/include/omp/OMPRulesCommon.hpp:33-75 | OpenMP blame goes to exactly the edges since the last node outside all regions that time separates from the next, leave of a barrier that is not ignored, or process node |
| `WaitRules.ElectedIsLatest` | src/analysis/include/mpi/CollectiveRule.hpp:106-136 | The elected entry is the first among those with the maximum time |
| `WaitAnalysis.BlameStream` | src/analysis/include/BlameDistribution.hpp:48-208 | The loop over the walk list computes the specified distribution, or reports the failing assertion or division |
| `WaitAnalysis.Analysis.ApplyCollectiveRule` | src/analysis/include/mpi/CollectiveRule.hpp:95-166 | The rule ends in the specified state: blocking edge, counter, statistics and remote node, or blame |
| `WaitAnalysis.Analysis.ApplyRecvRule` | src/analysis/include/mpi/RecvRule.hpp:79-165 | The receiver's half, all branches |
| `WaitAnalysis.Analysis.ApplySendRule` | src/analysis/include/mpi/SendRule.hpp:73-178 | The sender's half, all branches |
| `WaitAnalysis.Analysis.ApplyBarrierRule` | src/analysis/include/omp/OMPBarrierRule.hpp:39-146 | The barrier loops end in the specified state |
| `WaitOutcomes.CollectiveOutcome` | src/analysis/include/mpi/CollectiveRule.hpp:95-166 | Members on other streams than the first of the last to enter have waited: their edge is blocking and no other flag changes, the last enter is remembered, the time is booked; the last one is charged with the sum |
| `WaitOutcomes.CollectiveAtZero` | src/analysis/include/mpi/CollectiveRule.hpp:95-166 | The same for a collective that all enter at time zero, where stream zero and node zero stand for the last one |
| `WaitOutcomes.RecvWaits` | src/analysis/include/mpi/RecvRule.hpp:79-165 | A receive entered before its send: its edge is blocking and no other flag changes, the send's enter is remembered, the time until then is booked as late sender |
| `WaitOutcomes.RecvBlamed` | src/analysis/include/mpi/RecvRule.hpp:79-165 | One entered while the send lasts is charged, and no flag changes |
| `WaitOutcomes.RecvSilent` | src/analysis/include/mpi/RecvRule.hpp:79-165 | Any other receive leaves the process alone |
| `WaitOutcomes.SendWaits` | src/analysis/include/mpi/SendRule.hpp:73-178 | A send that lasts beyond the enter of its receive: its edge is blocking and no other flag changes, the receive's leave is remembered, the time is booked as late receiver |
| `WaitOutcomes.SendBlamed` | src/analysis/include/mpi/SendRule.hpp:73-178 | One entered while the receive lasts is charged, and no flag changes |
| `WaitOutcomes.SendSilent` | src/analysis/include/mpi/SendRule.hpp:73-178 | Any other send leaves the process alone |
| `WaitOutcomes.BarrierOutcome` | src/analysis/include/omp/OMPBarrierRule.hpp:85-146 | After a barrier every region but the one entered last has a blocking edge, an edge from the last enter to its leave, and its waiting time on its leave; no other old edge changes its flag |
| `WaitOutcomes.ChargedKeepsFlags` | src/analysis/include/BlameDistribution.hpp:128-204 | Charging changes nothing but the blame of edges |
| `WaitConservation.BlameFailsExactly` | src/analysis/include/BlameDistribution.hpp:61-208 | Charging fails if and only if there is blame and no time between the node and the end of its walk |
| `WaitConservation.CollectiveBalances` | src/analysis/include/mpi/CollectiveRule.hpp:106-166 | Over all members of a collective, computed by each for itself, waiting times equal the blame |
| `WaitConservation.SingleMaster` | src/analysis/include/mpi/CollectiveRule.hpp:106-136 | At most one member is elected, and exactly one if and only if some enter time is positive or stream zero takes part |
| `WaitConservation.PairBalances` | src/analysis/include/mpi/RecvRule.hpp:118-162 | The two halves of a send-receive pair cancel for every reason if and only if the receive does not end before the send starts |
| `WaitConservation.RunBalance` | src/analysis/include/mpi/SendRule.hpp:118-175 | Over any run the books differ exactly by the waiting time of receives that ended before their send started |
| `WaitConservation.Conservation` | src/analysis/include/omp/OMPBarrierRule.hpp:77-136 | Over any run of collectives, pairs and barriers on all ranks waiting time equals blame for every reason if and only if no receive ends before its send starts |
| `WaitConservation.ReleaserEntersBefore` | src/analysis/include/mpi/SendRule.hpp:118-175 | A blocked leave points to a region entered earlier, for receives exactly in balanced pairs |
| `WaitConservation.CollectiveReleaser` | src/analysis/include/mpi/CollectiveRule.hpp:106-166 | A blocked leave of a collective points to the enter of the last to enter, which is earlier if and only if the member had not left before |
| `WaitConservation.EarlyLeaver` | src/analysis/include/mpi/CollectiveRule.hpp:106-166 | A member that leaves early, as in a reduction, points to a later enter |
| `ShortestPathBlame.ShortestIsFirst` | src/backend/GraphEngine.cpp:364-388 | The edge found is shortest, and the first of the shortest |
| `ShortestPathBlame.PathGoesBack` | src/analysis/AnalysisParadigmOffload.cpp:1009-1041 | The walk passes kernels strictly back in time along shortest edges and ends at a launch |
| `ShortestPathBlame.PathByShortest` | src/analysis/AnalysisParadigmOffload.cpp:1009-1041 | From each kernel of the walk the first of the shortest edges into its enter leads to the next, and from the last one to the launch; no launch is passed |
| `ShortestPathBlame.BlameFullySpread` | src/analysis/AnalysisParadigmOffload.cpp:1043-1064 | With positive run time the kernels of the path get exactly the blame, each its share once, and nothing else changes |
| `ShortestPathBlame.CollectPath` | src/analysis/AnalysisParadigmOffload.cpp:1009-1041 | The endless loop ends, with the edges of the path and their total duration |
| `ShortestPathBlame.KernelBlame.BlameShortestPath` | src/analysis/AnalysisParadigmOffload.cpp:1001-1065 | Returns the launch time and charges the path; without run time there is nothing to divide by |
| `CriticalPath.ChosenIsShortest` | src/backend/Graph.cpp:388-424 | Among forward edges the choice is the first of the shortest non-blocking edges, where durations zero and one are equal, and none if and only if all are blocking |
| `CriticalPath.ChoiceExactly` | src/backend/Graph.cpp:388-424 | For any list of in-edges: the loop ends with the last edge back in time from another stream, or the first of the heaviest non-blocking edges behind it that outweigh it |
| `CriticalPath.GetCriticalPath` | src/backend/Graph.cpp:369-508 | The walk terminates, the check for loops never fires, and the path is the specified one |
| `CriticalPath.PathAscends` | src/backend/Graph.cpp:369-508 | The path is strictly increasing from the start node to the end node |
| `CriticalPath.PathFollowsShortest` | src/backend/Graph.cpp:388-502 | Every node of the path is left by the first of its shortest non-blocking in-edges, or by the fallback if and only if it has none |
| `CriticalPath.PathFallsBack` | src/backend/Graph.cpp:465-476 | A node with blocking in-edges only is left to the node before it in the list or, if it has a caller, to the last node before it on its stream |
| `CriticalPath.PathLength` | src/backend/include/graph/Edge.hpp:258-276 | If the walk meets the start through edges only, their durations add up to end time minus start time |
| `ReplaySetup.CollectiveStartsReplay` | src/frontend/Runner.cpp:1505-1528 | If every rank ends with a collective to which it applied the rule, the flags of the last edges leave exactly one rank as master |
| `ReplaySetup.BlocksUnlessElected` | src/analysis/include/mpi/CollectiveRule.hpp:121-141 | The collective rule makes the edge over the region, which the replay looks at, blocking exactly for members that were not elected |
| `ReplayWorker.Worker.constructor` | src/frontend/Runner.cpp:1505-1528 | A rank starts at its last leave and is master if that leave did not wait |
| `ReplayWorker.Worker.MasterIteration` | src/frontend/Runner.cpp:1586-1780 | One iteration of the master branch equals the protocol step |
| `ReplayWorker.Worker.WalkBack` | src/frontend/Runner.cpp:1586-1780 | Repeating it ends with a handover or the end of the path |
| `ReplayWorker.Worker.OnMessage` | src/frontend/Runner.cpp:1782-1895 | A continuation makes the rank master at the region it names, a stop ends its loop |
| `ReplayWorker.Worker.AnalyseLast` | src/frontend/Runner.cpp:1796-1807 | A waiting rank takes the section recorded last |
| `ReverseReplay.StepKeeps` | src/frontend/Runner.cpp:1586-1895 | If blocking leaves lead to earlier enters, every step keeps the invariant of each rank's sections and marks and makes progress: earlier in time, earlier on the stream, or fewer sections waiting |
| `ReplayRuns.StepMoves` | src/frontend/Runner.cpp:1586-1895 | Without any assumption on times, IDs or remote nodes, every step moves the one walk as its kind says: it stays on its rank, goes into one message to the remote rank, arrives, or ends |
| `ReplayRuns.TokenSafety` | src/frontend/Runner.cpp:1505-1909 | For any number of ranks, any node lists, blocking flags and remote nodes and any schedule, masters plus continuations in flight are one until the path start is reached; afterwards there are none and each rank still looping has one stop message |
| `ReplayRuns.NoDeadlock` | src/frontend/Runner.cpp:1505-1909 | A reachable state has no walking or receiving step if and only if it is a clean end (path complete, all ranks have left, no message undelivered) or the walk was sent to a node that its rank does not have |
| `ReplayRuns.CleanEnd` | src/frontend/Runner.cpp:1505-1909 | If every remote node names a region that exists, only the clean end has no such step |
| `ReplayTermination.ReplayTerminates` | src/frontend/Runner.cpp:1586-1909 | No schedule runs forever, whatever the times are: each handover uses up a remote node |
| `ReplaySections.SectionsSound` | src/frontend/Runner.cpp:1604-1620 | If blocking leaves lead to earlier enters, sections have positive duration, go back in time, share at most an endpoint, are analysed once, and cover exactly the nodes marked critical |
| `ReplaySections.MissingRemote` | src/frontend/Runner.cpp:1604-1692 | After a blocking leave without remote node the next section is disjoint if and only if the walk had just taken over there |
| `ReplaySections.OverlapWithoutRemote` | src/frontend/Runner.cpp:1604-1692 | A rank with two regions on which the sections overlap |
| `ReplaySections.SectionsGoBackExactly` | src/frontend/Runner.cpp:1604-1895 | On any network and schedule the sections of a rank that does not walk go back and share at most endpoints if and only if it never took over behind the place where it last gave the walk away and never recorded a section at a blocking leave it walked past |
| `ReplaySections.EarlyLeaverOverlaps` | src/frontend/Runner.cpp:1604-1692 | Two ranks where a member leaves a reduction early and records overlapping sections |
| `ReplayWalks.WalkEndsAt` | src/frontend/Runner.cpp:1586-1780 | A walk ends at the first start node or MPI_Init enter, which it announces, or the first blocking leave with a remote node at the leave or else the enter, to which it is sent; that remote node is forgotten |
| `ReplayWalks.WalkMarks` | src/frontend/Runner.cpp:1586-1780 | It marks exactly the nodes it passed as critical, and the one it ends at unless that is a leave without a section |
| `ReplayWalks.WalkRecords` | src/frontend/Runner.cpp:1604-1712 | It records a section up to the open end where it ends and at each blocking leave it passed without remote node, and no others |
| `ReplayWalks.TakesOverRegion` | src/frontend/Runner.cpp:1815-1895 | A rank takes over at the leave of the region that the node belongs to and goes on at its enter |
| `ReplayWalks.PathBeginsThere` | src/frontend/Runner.cpp:1697-1780 | In every reachable state the path is complete if and only if a master has left its loop, and that one stands at the first start node or MPI_Init enter behind the place where it took over |
| `ReplayWalks.EarliestFirst` | src/frontend/Runner.cpp:1796-1807 | If blocking leaves lead to earlier enters, a waiting rank always analyses the earliest of its sections |
| `DeviceOccupancy.DeviceTracker.ApiEvent` | src/backend/otf/OTF2ParallelTraceWriter.cpp:1737-1786 | The first offloading event opens the idle intervals; only wrapper regions move the end of offloading |
| `DeviceOccupancy.DeviceTracker.OnTaskEnter` | src/backend/otf/OTF2ParallelTraceWriter.cpp:1493-1568 | Counters, start times and statistics after a task enter, in any state |
| `DeviceOccupancy.DeviceTracker.OnTaskLeave` | src/backend/otf/OTF2ParallelTraceWriter.cpp:1577-1665 | The same after a task leave |
| `DeviceOccupancy.CountersMean` | src/backend/otf/OTF2ParallelTraceWriter.cpp:1493-1665 | After any legal history the counters count the running tasks, the start times say when their intervals began and each statistic is the sum of the ended intervals |
| `DeviceOccupancy.IntervalsAreTicks` | src/backend/otf/OTF2ParallelTraceWriter.cpp:1493-1665 | The ended intervals and the open one add up to the ticks at which the condition held |
| `DeviceOccupancy.DeviceTracker.FinalIdleLeave` | src/backend/otf/OTF2ParallelTraceWriter.cpp:281-326 | The final statistics as functions of the events read, for idle and busy devices |
| `DeviceOccupancy.FinalIdleExactly` | src/backend/otf/OTF2ParallelTraceWriter.cpp:281-326 | The idle statistics are the exact tick counts plus a surplus, which is zero if and only if the condition holds at the end or its last interval began at the end |
| `DeviceOccupancy.FinalTransferExactly` | src/backend/otf/OTF2ParallelTraceWriter.cpp:1577-1665 | The transfer statistic is exact if and only if no transfer runs at the end or the first one began there; else it lacks the time since |
| `DeviceOccupancy.ConditionsAddUp` | src/frontend/Runner.cpp:2511-2524 | Time without kernel is idle time plus transfer-only time, transfer time is transfer-only plus overlapped time |
| `DeviceOccupancy.ReportDoesNotWrap` | src/frontend/Runner.cpp:2511-2524 | The two unsigned 64-bit subtractions of the statistics of all ranks do not wrap if and only if the surpluses and the loss do not exceed the times they are taken from |
| `DeviceOccupancy.ReportExactly` | src/frontend/Runner.cpp:2511-2524 | The reported times are the transfer-only and the overlapped time if and only if the surpluses are equal, or differ by the transfer loss |
| `DeviceOccupancy.IdleEndsAreRight` | src/frontend/Runner.cpp:2511-2524 | If every device is idle at the end nothing wraps and both reported times are right |
| `DeviceOccupancy.BusyEndWraps` | src/frontend/Runner.cpp:2511-2513 | A device that ends with a transfer and a resumed kernel: the first subtraction wraps if and only if the kernel's pause was shorter than the time before it |
| `DeviceOccupancy.BusyEndExample` | src/frontend/Runner.cpp:2511-2513 | Statistics 11 and 10 are reported as a difference of 2^64 - 1 |
| `KernelOverlap.OffloadAnalysis.ApplyRules` | src/analysis/AnalysisParadigmOffload.cpp:41-58 | Idle rule first, then overlap rule, in place |
| `KernelOverlap.CounterWraps` | src/analysis/include/offload/DeviceIdleRule.hpp:277-298 | The counter is the number of running kernels modulo 256 |
| `KernelOverlap.CounterExact` | src/analysis/include/offload/DeviceIdleRule.hpp:277-298 | It is the number itself if and only if fewer than 256 run |
| `KernelOverlap.IdleStart` | src/analysis/include/offload/DeviceIdleRule.hpp:277-298 | The start of the idle interval is the time of the last kernel end that left the counter at zero |
| `KernelOverlap.OverlapIsIntegral` | src/analysis/include/offload/KernelOverlapRule.hpp:58-75 | With fewer than 256 concurrent kernels the statistic is the integral of active kernels minus one |
| `KernelOverlap.RightExactly` | src/analysis/include/offload/KernelOverlapRule.hpp:58-75 | Over any history the statistic is the integral after every event if and only if time only passes while fewer than 255 kernels run, or until a kernel ends while 255 or 256 do |
| `KernelOverlap.OverlapIdentity` | src/analysis/include/offload/KernelOverlapRule.hpp:205-226 | Total kernel time is the time with at least one kernel plus the statistic |
| `KernelOverlap.WrapLoses` | src/analysis/include/offload/KernelOverlapRule.hpp:205-226 | When the counter first wraps the statistic lacks the overlap since the event before, and is right if and only if no time passed |
| `KernelOverlap.AfterWrap` | src/analysis/include/offload/KernelOverlapRule.hpp:58-75 | The exact error after the next event, too much if a kernel ends and too little if one starts |
| `KernelOverlap.OverlapLostAt256` | src/analysis/include/offload/KernelOverlapRule.hpp:58-75 | With 256 kernels at once the statistic loses their overlap |
| `EdgeApportion.StreamState.ComputeBlameMap` | src/backend/otf/OTF2ParallelTraceWriter.cpp:1231-1299 | Each event gets from each open edge the part of its blame since the last event; edges that end are closed |
| `EdgeApportion.VisitAsWritten` | src/backend/otf/OTF2ParallelTraceWriter.cpp:1247-1297 | The loop with its second advance, on the list with an iterator: which edges give shares, which stay open, and when the iterator leaves the list |
| `EdgeApportion.StreamState.ComputeBlameMapAsWritten` | src/backend/otf/OTF2ParallelTraceWriter.cpp:1231-1299 | Where the loop as written is defined the books balance, with the shares of edges passed over booked as missed |
| `EdgeApportion.StreamState.OpenOutEdges` | src/backend/otf/OTF2ParallelTraceWriter.cpp:1873-1888 | Opening edges adds their whole blame to what is still to be handed out |
| `EdgeApportion.SumTakesEach` | src/backend/otf/OTF2ParallelTraceWriter.cpp:1255-1280 | The total of an event takes in every reason once |
| `EdgeApportion.PassBalances` | src/backend/otf/OTF2ParallelTraceWriter.cpp:1231-1299 | One event hands out exactly what the open edges lose, except for blame of edges that had ended unseen |
| `EdgeApportion.EdgeHandedOut` | src/backend/otf/OTF2ParallelTraceWriter.cpp:1231-1299 | The events between its ends hand out an edge's whole blame for every reason, however they divide the time |
| `EdgeApportion.FullyApportioned` | src/backend/otf/OTF2ParallelTraceWriter.cpp:1231-1299 | When no edge is open, all blame has been handed out if and only if none was missed |
| `EdgeApportion.AllHandedOut` | src/backend/otf/OTF2ParallelTraceWriter.cpp:1231-1299 | Over any run of a stream in which every edge ends at the time of a later event, nothing is dropped and exactly the blame of all edges is handed out |
| `EdgeApportion.GivenIsCovering` | src/backend/otf/OTF2ParallelTraceWriter.cpp:1255-1280 | With one advance per edge exactly the edges that cover the event give their shares |
| `EdgeApportion.AsWrittenExactly` | src/backend/otf/OTF2ParallelTraceWriter.cpp:1282-1288 | For any open list the loop as written is defined, visits the right edges and keeps the right edges if and only if no edge ends at the event |
| `EdgeApportion.UndefinedExactly` | src/backend/otf/OTF2ParallelTraceWriter.cpp:1282-1288 | The iterator is advanced past the end if and only if an odd number of ending edges stand at the end of the list |
| `EdgeApportion.AsWrittenLoses` | src/backend/otf/OTF2ParallelTraceWriter.cpp:1282-1288 | Where defined, an event gets too little by exactly the shares of the edges passed over |
| `EdgeApportion.EndsInFrontOf` | src/backend/otf/OTF2ParallelTraceWriter.cpp:1282-1288 | An edge that ends in front of an open one: the open one gets nothing |
| `EdgeApportion.EndsBehind` | src/backend/otf/OTF2ParallelTraceWriter.cpp:1282-1288 | An edge that ends last behind an open one: undefined |
| `EdgeApportion.RingOneEnds` | src/backend/otf/OTF2ParallelTraceWriter.cpp:1282-1288 | On a ring-shaped list with one ending edge the outcome is as meant if and only if it is the last and no edge stays open |
| `EdgeApportion.RingGivesTwice` | src/backend/otf/OTF2ParallelTraceWriter.cpp:1282-1288 | On a ring an open edge in front of a last, ending one gives its share twice |
| `ActivityAccounting.Profile.ProcessEvent` | src/backend/otf/OTF2ParallelTraceWriter.cpp:1059-1149 | After every event each region's duration is the time it was innermost, by enters and leaves and without any stack, on all streams, its critical duration the critical part, and the region of the event has an entry |
| `ActivityAccounting.TopIsInner` | src/backend/otf/OTF2ParallelTraceWriter.cpp:2041-2047 | The top of the activity stack is the region of the latest enter below whose depth, counted as enters minus leaves, the stream has not been since |
| `ActivityAccounting.LedgerNext` | src/backend/otf/OTF2ParallelTraceWriter.cpp:2027-2053 | Charging the top of the stack keeps every entry and the total right |
| `ActivityAccounting.InsideIsOutermost` | src/backend/otf/OTF2ParallelTraceWriter.cpp:2027-2053 | Time inside any region equals the durations of outermost regions |
| `ActivityAccounting.DurationsAddUp` | src/backend/otf/OTF2ParallelTraceWriter.cpp:1059-1149 | The durations of all regions add up to those of the outermost regions of all streams |
| `ActivityAccounting.CriticalDurationBounded` | src/backend/otf/OTF2ParallelTraceWriter.cpp:1059-1149 | No region's critical duration exceeds its duration |

## Left out

- EdgeApportion.StreamState.ComputeBlameMap: advances once per edge, as the loop is meant to; ComputeBlameMapAsWritten has the loop as it is, and AsWrittenExactly says when both agree.
- EdgeApportion.RingOneEnds: what the undefined advance does is stated for a ring-shaped list with one ending edge; with several the outcome depends on the whole order of the list.
- NodeOrder.TotalOrderExactly: sets without MPI exit nodes and without nodes that are kernel and wait at once; Comparable says which pairs of those cannot be ordered.
- CriticalPath.GetCriticalPath: assumes forward edges between listed nodes and distinct IDs, so a walk over reverse edges and the branches for loops are excluded (ChoiceExactly has the choice among any edges); their constructor sets the blocking flag of its parameter, not of the edge.
- ReplaySections.SectionsSound: assumes that each blocking leave has a remote node in a region that was entered earlier, and that regions have positive duration and IDs grow along the stream; SectionsGoBackExactly treats all other networks.
- ReverseReplay.StepKeeps: the same hypothesis; StepMoves has the steps of the walk without it.
- ReplayTermination.ReplayTerminates: assumes that remote nodes are remembered for leave nodes, as every rule does, and regions that do not overlap.
- ReplayRuns.NoDeadlock: assumes one MPI stream per rank whose regions do not overlap, as the trace must have them.
- ReplayWorker.Worker.OnMessage: an unknown node ID aborts the program and is excluded.
- ShortestPathBlame.PathGoesBack: assumes that each edge the walk itself follows leads to a launch or to a kernel that started earlier; nothing in the source bounds the walk otherwise.
- GraphEngine.Engine.AddNewGraphNode: a node is never put in front of the first node of its stream, and has one of the four paradigms that streams keep last nodes for; insertion into a one-node list in front of its node would use an invalid iterator.
- GraphEngine.Engine.AddNewGraphNode: dependencies between kernels of a device are not kept.
- WaitConservation.Conservation: treats a run that fails an assertion or divides zero by zero as ending there.
- DeviceOccupancy.CountersMean: a transfer before the first offloading event of the internal nodes is excluded, as are statistics beyond 64 bits; a kernel is such an event itself.
- DeviceOccupancy.DeviceTracker.OnTaskLeave: the statistics of consecutive communication tasks are not kept.
- ActivityAccounting.Profile.ProcessEvent: blame, waiting time and instance counts of the region entries are not kept, only durations.
- GraphEngine.EventStream.AddGraphNode: links to the left and right and the first node of each paradigm are not kept.
- GraphEngine.EventStream.InsertGraphNode: insertion in front of the first node is excluded.
- The recursive propagation of blame, MPI_Sendrecv, Wait and Waitall, and request bookkeeping: they do not conserve blame.
- Filtering of barrier lists by team and the buffering of barrier regions until the last thread leaves: a barrier is given as its list of regions.
- The blame that the device idle rule puts on host streams, and the linking of overlapping kernels by the overlap rule: heuristics without a conservation property; only the counters these rules share are modelled.
- Other wait-state rules for CUDA events, OpenMP tools and target regions.
- Real MPI calls: an all-gather is a shared sequence, messages are a multiset, a test for a message may fail or succeed at any time.
- Floating-point rounding: blame and statistics of blame are real numbers.
- Reading and writing OTF2 traces, definitions, metric output, function names and the command line.
- Analysis in several intervals and the deletion of analysed nodes: one interval is modelled.
- Clock-skew repair and reverse edges.
- Statistics counted for communication patterns with several partners.
