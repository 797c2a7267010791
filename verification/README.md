# A verified model of the ge control plane and packet protocols

`ge` runs dataflow graphs that can be edited while they run. This project models, in Dafny, the two
parts of it where mistakes are hard to see: the control plane that rewrites graphs (patches, merging of
patches, validation, diff, runtime reuse) and the concurrent protocols that move packets (slot scheduling,
backpressure, async completion, input joining, event delivery), together with the accounts behind them
(resource leases, plugin references, parameter versions). `dafny verify dfyconfig.toml` checks all of it.

## How it is built

Code that edits objects in place is modelled by classes and methods over the same vectors and rings
(`GraphSpec`, `CandidateSpec`, `Coordinator`, `EdgeChannel`, `Binding`, `Ledger`, `Registry`, `Store`), each
proved against a value-level meaning. Code that several threads run at once is modelled as a state machine:
one step per atomic access or per section under a mutex, a program counter or a hand per thread, and theorems
about every run. Histories (what was emitted, accepted, popped, handled) are part of those states, and the
theorems tie them to the steps of the run, so that "nothing is lost or reordered" is said of what really happened.

- Graphs and patches: `GraphModel`, `MutationModel` (meaning of the nine actions), `ChangeSets`, `Locality`,
  `MergeSoundness`, `ClosedForms`, `ChainRoundTrip`, and what the actions do said on graph and action alone in
  `ActionEffects`, `LinearChains`, `BranchRemoval`, `Footprints`; the code in `GraphSpecs`, `MutationApplier`,
  `GraphValidation`, `MutationActions`, `MutationCoordinator`, `TopologicalOrder`.
- Versions: `GraphDiff`, `RuntimeTopology`.
- Scheduling and queues: `NodeScheduling`, `SoloCalls`, `Backpressure`, `EdgeChannels`, `InputPorts`, `PortEdges`,
  `InputBinding`, `AlignedTurns`, `AsyncRequests`, `AsyncOutputs`, `AsyncPipeline`, `EventBus`, `Progress`.
- Accounts and lifecycles: `ResourceLedger`, `PluginRegistry`, `ParameterStore`.

Automatic induction is switched off in every lemma; where a proof is by induction its calls are written out.

## What does not hold as promised

Some statements one would expect are false of the code. Each has a run or an input that breaks it, and the
condition under which it holds.

- A flush can be won while an asynchronous request is pending, because the pending count is not read again
  after the transition (`FlushWithRequestPending`). What is pending then is what began since the attempt looked
  less what ended since, so none is pending exactly when all of it has ended (`PendingAtFlush`).
- TrySchedule can succeed after the flush was won (`ReservedAfterFlush`): exactly for the callers that had loaded
  the node state before the transition and not come to the slots yet (`ReservesAfterFlushIff`). Only the state gate
  in InvokeBody keeps such a task from calling the operator, which is what `NoCallAfterFlush` rests on.
- An edge keeps emit order exactly when at most one thread of the node emits (`OrderKeptIffOneThread`); with
  two, order survives per thread only.
- The comment above Cancel (include/ge/cpp/event_bus.h:68-70) promises that no callback runs once it returns,
  except one it was called from. A second Cancel of the same subscription (`SecondCancelDoesNotWait`) and a Cancel
  by a handler of another subscription (`ObserverCancelDoesNotWait`) return while the callback runs. A Cancel that
  does not wait keeps the promise exactly when no other thread is in the callback at the time
  (`CancelWithoutWaiting`); one that waits always does (`QuietAfterCancelReturns`).
- Accounts without a capacity overflow at 2^64 (`UnlimitedAccountsOverflow`); the books balance after a
  reservation or a commit exactly when there is room.
- A later Submit with another list of hot keys breaks version promises already made
  (`LaterSubmitBreaksPromise`). The promises in line are all kept exactly when the new hot keys allow every queued
  request (`SubmitKeepsPromisesIff`), so with one list of hot keys they always are (`FixedHotListCovers`,
  `PromisesHoldOverRuns`).
- Insert-then-bypass fails exactly when the derived id of the split edge is taken (`InsertThenBypass`).
- A replacement keeps the ids of the edges it moves. An id derived from the ends of an edge is accepted for those
  ends only, so a port mapping that renames a connected port is refused whenever that edge carries its derived id
  (`DerivedIdsCannotMove`); a replacement succeeds exactly when every connected port lands and what comes out is
  well formed (`ReplaceNodeIff`, `ReplaceNodeNeedsPorts`).
- On an input port with several edges the diff looks at the last edge listed, so a node can count as kept
  though one of its inputs is new (`KeptWithANewInput`). All inputs of a kept node are kept exactly when those are
  that an edge listed later hides (`KeptNodesKeepTheirInputs`); with one edge per port there are none
  (`SingleInputsShow`).
- The comment above AcquireAligned (src/input_binding.cpp:273-276) says that a port contributes its packet closest
  to the target. The code takes the first one that is not older than the window: `FartherIsTaken` has a port whose
  farther packet is taken whatever turns the acquire makes. The packet taken is the closest exactly when none queued
  behind it is strictly closer (`ContributesClosestIff`), and where time stamps ascend when the next one is not
  (`ClosestIffNextIsNotCloser`).

## Model

| member | source | states |
|---|---|---|
| `MergeSoundness.MergeSound` | src/session.cpp:174-219 | patches that apply alone to one base and touch disjoint nodes and edges apply together, concatenated in any order, and leave the graph that applying them one after another leaves |
| `MergeSoundness.ConcatenationIsMerge` | src/session.cpp:188-219 | the concatenated patch applies, and every node and edge comes from the one footprint that touches it, or from the base |
| `MergeSoundness.InTurnIsMerge` | src/session.cpp:188-219 | the same of applying the patches one by one, each on the result of the one before |
| `MergeSoundness.MergedChanges` | src/session.cpp:188-219 | the concatenated patch records every node and edge as the one patch does that touches it, policies included, and all parameter updates in turn |
| `MergeSoundness.MergeIgnoresOrder` | src/session.cpp:188-219 | which graph is the merge does not depend on how the footprints are listed |
| `Locality.ApplyAllLocal` | src/mutation_applier.cpp:42-65 | a list of actions that succeeds on one graph succeeds on any that agrees with it on what it touches, with the same effect there and none elsewhere; the change sets, removal policies and parameter updates it records are the same there too, and unchanged elsewhere |
| `Locality.ApplyOneLocal` | src/mutation_applier.cpp:67-106 | the same for each of the nine actions |
| `Locality.SucceedsOnBoth` | src/mutation_applier.cpp:42-65 | where the footprint holds what either run touches, the list succeeds on one graph iff it succeeds on the other |
| `Locality.InsertChainLocal` | src/mutation_applier.cpp:160-219 | inserting a chain depends on nothing outside its footprint |
| `Locality.RemoveChainLocal` | src/mutation_applier.cpp:221-244 | whether nodes form a linear chain, and its removal or bypass, depend on nothing outside the footprint |
| `Locality.ReplaceNodeLocal` | src/mutation_applier.cpp:247-307 | replacing a node and remapping its edges depends on nothing outside the footprint |
| `Locality.BranchLocal` | src/mutation_applier.cpp:310-359 | whether a selection is a removable branch, reachability included, depends on nothing outside the selection |
| `ChangeSets.PatchChangeSetsExact` | src/mutation_applier.cpp:42-359 | for every patch that applies: the candidate's ids are the base's minus removed plus added, disjointly; removed lies in the base; entries not touched equal the base's; a changed edge has both ends touched; ids stay unique and no edge dangles |
| `ChangeSets.ApplyOneExact` | src/mutation_applier.cpp:67-106 | each action keeps the change sets exact from any state a patch can be in, so add-then-remove leaves no trace in them |
| `ChangeSets.ReplaceNodeExact` | src/mutation_applier.cpp:247-307 | replacing a node, its edges remapped to the new ports, keeps the sets exact |
| `ChangeSets.RemoveChainExact` | src/mutation_applier.cpp:221-244 | chain removal keeps the sets exact in both modes |
| `Footprints.TouchedExactly` | src/mutation_applier.cpp:67-359 | each action touches the edges it takes away or puts in, the ends of those, and the nodes it takes, adds or configures, and nothing else: two patches conflict only over what they edit |
| `ActionEffects.ReplaceNodeIff` | src/mutation_applier.cpp:247-307 | a replacement succeeds iff there is a well-formed graph with the new operator and options at the target, every edge at it with the same id, ends, queue, sync and feedback and its ports moved by the input and output mapping (or, without one, where they were, if the operator declares them), and all else as it was; the result is that graph |
| `ActionEffects.ReplaceNodeNeedsPorts` | src/mutation_applier.cpp:247-307 | it succeeds iff each connected input port is in the input mapping and each connected output port in the output mapping, or without a mapping declared where the operator is known, and the moved graph is well formed |
| `ActionEffects.DerivedIdsCannotMove` | src/mutation_applier.cpp:247-307 | no replacement moves an edge with a derived id to another port |
| `ActionEffects.BypassIff` | src/mutation_applier.cpp:221-244 | a bypass succeeds iff the nodes are a linear chain and the graph is well formed that has, in their place, one edge from the source of the edge in to the target of the edge out, with the queue and sync of the edge out, a feedback edge if either was |
| `ActionEffects.InsertChainIff` | src/mutation_applier.cpp:160-219 | an insertion succeeds iff ports resolve and the graph is well formed that has the chain in place of the split edge; the result is that graph |
| `ActionEffects.InsertChainEffect` | src/mutation_applier.cpp:160-219 | the split edge is gone, the chain is there, and its links run from the source of the split edge through each node from its input to its output port to the target; the outer two inherit from the split edge, the inner ones its queue |
| `ActionEffects.UniquePortIff` | src/mutation_applier.cpp:17-38 | a port is implied iff it is the only required input, or the only input where none is required, or the only output |
| `ActionEffects.PolicyRecorded` | src/mutation_applier.cpp:67-157 | a node taken away is recorded under the policy of its action, else of its patch, unless the patch added it; every other record stays; only set_node_options adds a parameter update |
| `LinearChains.LinearIffStrung` | src/graph_validator.cpp:314-370 | nodes are a linear chain iff they are strung on edges, one in, one from each to the next, one out, and no other edge meets them |
| `BranchRemoval.RemoveBranchIff` | src/mutation_applier.cpp:310-359 | a branch removal succeeds iff the entry edges lead in from outside, nothing else crosses the boundary in either direction, and every set of nodes that holds the entry targets and what they feed inside holds the whole selection; exactly the selection and its edges go |
| `ChainRoundTrip.InsertThenBypass` | src/mutation_applier.cpp:160-244 | bypassing a chain just inserted succeeds iff the split edge's derived id is free; it then restores the graph with that edge renamed, and the node change sets from before |
| `ChainRoundTrip.InsertedIsLinear` | src/graph_validator.cpp:314-370 | an inserted chain passes the linear chain check with its two outer edges as boundary, and its bypass has the ends of the split edge |
| `ChainRoundTrip.SplicedIsLinear` | src/graph_validator.cpp:314-370 | nodes strung on fresh edges between two others form a linear chain |
| `ChainRoundTrip.RemovingChainRestores` | src/mutation_applier.cpp:136-157 | removing the nodes of an inserted chain gives back graph and change sets as they were without the split edge |
| `ClosedForms.RemoveNodesClosed` | src/mutation_applier.cpp:136-157 | removing listed nodes one by one succeeds iff all exist and none repeats, and takes away exactly them and their edges |
| `ClosedForms.AddNodesClosed` | src/mutation_applier.cpp:160-219 | adding listed nodes adds exactly them, under ids that are new and distinct, and each with the value listed |
| `ClosedForms.AddEdgesClosed` | src/mutation_applier.cpp:160-219 | adding listed edges adds exactly them under distinct new ids |
| `ClosedForms.AddNodesIff` | src/mutation_applier.cpp:160-219 | a list of nodes can be added iff each is acceptable, all ids are new and none repeats |
| `ClosedForms.AddEdgesIff` | src/mutation_applier.cpp:160-219 | a list of edges can be added iff each fits the graph alone and no two of them share an id or a pair of ports |
| `GraphModel.AddNodeWellFormed` | src/graph_spec.cpp:122-141 | a node that is accepted keeps ids unique and valid |
| `GraphModel.AddEdgeWellFormed` | src/graph_spec.cpp:143-180 | an edge that is accepted dangles nowhere, has a capacity, and is the only one between its two ports |
| `GraphModel.RemoveEdgesWellFormed` | src/graph_spec.cpp:195-203 | removing edges keeps the graph well formed |
| `GraphModel.RemoveNodeWellFormed` | src/graph_spec.cpp:182-193 | removing a node takes its edges along, so none dangles |
| `GraphModel.AddNodeIff` | src/graph_spec.cpp:122-141 | a node is accepted iff its id is new and the graph with it is well formed |
| `GraphModel.AddEdgeIff` | src/graph_spec.cpp:143-180 | an edge is accepted iff its id is new and the graph with it is well formed |
| `GraphSpecs.GraphSpec.FindNode` | src/graph_spec.cpp:93-98 | finds the node of that id iff there is one |
| `GraphSpecs.GraphSpec.FindEdge` | src/graph_spec.cpp:105-110 | finds the edge of that id iff there is one |
| `GraphSpecs.GraphSpec.AddNode` | src/graph_spec.cpp:122-141 | accepted iff the id is valid and new, the operator named, the parallelism positive and no device given without a GPU; appended at the end; a failure leaves the graph as it was |
| `GraphSpecs.GraphSpec.AddEdge` | src/graph_spec.cpp:143-180 | accepted iff the id given or derived is valid and new, both ends exist and are named, the queue has room and the two ports are not joined yet; appended at the end under that id; a failure leaves the graph as it was |
| `GraphSpecs.GraphSpec.HasPair` | src/graph_spec.cpp:172-177 | whether two ports are already connected |
| `GraphSpecs.GraphSpec.RemoveNode` | src/graph_spec.cpp:182-193 | the vectors lose the node and exactly its edges and keep the order of the rest |
| `GraphSpecs.GraphSpec.RemoveEdge` | src/graph_spec.cpp:195-203 | the vector loses exactly that edge and keeps the order of the rest |
| `GraphSpecs.GraphSpec.EdgesFrom` | src/graph_spec.cpp:205-211 | lists every outgoing edge once, in the order of the graph |
| `GraphSpecs.GraphSpec.EdgesTo` | src/graph_spec.cpp:212-218 | lists every incoming edge once, in the order of the graph |
| `MutationApplier.AddEdgeTracked` | src/mutation_applier.cpp:108-117 | the lists kept by the applier represent the change sets after the edge |
| `MutationApplier.AddNodeTracked` | src/mutation_applier.cpp:67-106 | the lists represent the change sets after the node |
| `MutationApplier.RemoveEdgeTracked` | src/mutation_applier.cpp:119-134 | an edge added by the same patch leaves the added list instead of entering the removed one |
| `MutationApplier.IncidentEdges` | src/mutation_applier.cpp:136-157 | lists each incident edge once, self loops too |
| `MutationApplier.RemoveNodeWithEdges` | src/mutation_applier.cpp:136-157 | removing the edges first and then the node is removing the node, in graph and change sets |
| `GraphValidation.CheckLinearChain` | src/graph_validator.cpp:314-370 | accepts exactly the linear chains, and then returns their two boundary edges |
| `GraphValidation.FindBoundary` | src/graph_validator.cpp:333-369 | one scan finds the only edge into the chain's first and out of its last node, or that there is not exactly one of each |
| `GraphValidation.FindSharedDependencies` | src/graph_validator.cpp:297-312 | lists exactly the edges that tie a selection to the rest, and is empty iff the selection is exclusive |
| `MutationActions.InsertChain` | src/mutation_applier.cpp:160-219 | succeeds exactly where the meaning of the action is defined, and produces it |
| `MutationActions.RemoveChain` | src/mutation_applier.cpp:221-244 | the same for chain removal in both modes |
| `MutationActions.AddedOneByOne` | src/mutation_applier.cpp:247-307 | adding remapped edges in the order they are visited is adding them as a set, failures included |
| `MutationActions.ReplaceNode` | src/mutation_applier.cpp:247-307 | the same for replacement with port mapping; which ports that are is stated by ReplaceNodeIff |
| `MutationActions.Reach` | src/mutation_applier.cpp:310-359 | the stack search reaches exactly the nodes reachable inside the selection from the entry edges |
| `MutationActions.CheckBranch` | src/mutation_applier.cpp:310-359 | accepts exactly the branches that exist, are entered from outside, are reachable inside, and share nothing but their entry edges |
| `MutationActions.RemoveBranch` | src/mutation_applier.cpp:310-359 | removes what the meaning of the action removes, exactly where it is defined; what that is, is stated by RemoveBranchIff |
| `MutationActions.BranchRemovalExact` | src/mutation_applier.cpp:310-359 | branch removal succeeds iff the selection is such a branch without repeats, and leaves the graph without the selection and its incident edges |
| `MutationActions.ApplyOne` | src/mutation_applier.cpp:67-106 | dispatch and default policies agree with the meaning of all nine actions |
| `MutationActions.ApplyAll` | src/mutation_applier.cpp:42-65 | the loop over the actions stops at the first that fails and succeeds exactly where the list as a whole is defined |
| `MutationActions.Apply` | src/mutation_applier.cpp:42-65 | a patch applies to a fresh copy exactly where its meaning is defined; the base graph is not written |
| `MutationCoordinator.Disjoint` | src/session.cpp:174-184 | true iff two footprints share neither a node nor an edge |
| `MutationCoordinator.BatchSound` | src/session.cpp:188-219 | requests that may be merged apply as one patch with the effect of taking them in turn |
| `MutationCoordinator.MergeableMore` | src/session.cpp:188-219 | a batch can be extended by a request iff that request applies alone, agrees on policy and base version, and is disjoint from all before it |
| `MutationCoordinator.Coordinator.Admits` | src/session.cpp:188-219 | decides exactly that, for the request at the head of the queue |
| `MutationCoordinator.Coordinator.Extend` | src/session.cpp:188-219 | takes the longest mergeable prefix within the limit off the queue |
| `MutationCoordinator.Coordinator.TakeBatch` | src/session.cpp:188-219 | splits the queue into the batch and the rest, in order; the merged patch, when every origin applies, applies with the effect of the origins in turn |
| `TopologicalOrder.KahnDecides` | src/graph_validator.cpp:195-235 | a greedy order that cannot go on lists every node iff the non-feedback graph is acyclic; it is then topological and lexicographically least, and otherwise the leftovers contain a cycle |
| `TopologicalOrder.GreedyIsLeast` | src/graph_validator.cpp:195-235 | no topological order is smaller by declaration index |
| `TopologicalOrder.TopologicalIsAcyclic` | src/graph_validator.cpp:195-235 | where a topological order exists no walk is a cycle |
| `TopologicalOrder.LeftoversCycle` | src/graph_validator.cpp:195-235 | nodes left over contain a cycle among themselves |
| `TopologicalOrder.Adjacency` | src/graph_validator.cpp:197-204 | counts every arc once in the in-degrees and lists it once in the adjacency |
| `TopologicalOrder.PopMin` | src/graph_validator.cpp:214-218 | takes the smallest ready index and nothing else |
| `TopologicalOrder.Release` | src/graph_validator.cpp:219-225 | listing a node keeps in-degrees and ready heap in step with what is unlisted |
| `TopologicalOrder.Drain` | src/graph_validator.cpp:205-226 | the heap loop produces a greedy order that cannot go on |
| `TopologicalOrder.Kahn` | src/graph_validator.cpp:195-235 | the pass as a whole decides acyclicity and reports exactly the leftover nodes |
| `TopologicalOrder.ToArcs` | src/graph_validator.cpp:200-204 | there is an arc between two positions iff a non-feedback edge joins those nodes |
| `TopologicalOrder.Sort` | src/graph_validator.cpp:195-235 | the order is complete iff no non-feedback edges form a cycle; it is then the least by declaration index of the orders in which all such edges point forward; otherwise a cycle runs through the nodes reported |
| `GraphDiff.Compute` | src/graph_diff.cpp:49-125 | one entry per node and edge of either graph, saying what becomes of it |
| `GraphDiff.Replaced` | src/graph_diff.cpp:55-61 | exactly the nodes that keep their id and change their operator |
| `GraphDiff.CompareEdge` | src/graph_diff.cpp:64-84 | an edge in both versions is kept iff its ends, queue, feedback flag and data plane agree and neither end was replaced |
| `GraphDiff.EdgeFates` | src/graph_diff.cpp:62-90 | over a whole diff: an edge is removed, added or kept iff it is in one graph only, or in both with the same ends, queue, feedback flag and data plane and the operators at its ends unchanged; else it is recreated |
| `GraphDiff.NodeFates` | src/graph_diff.cpp:92-125 | over a whole diff: a node is removed, added, replaced, or kept iff it is in one graph only, changes its operator, or runs on the same executor with the same parallelism and reads the same edges, none of them recreated; else it is updated |
| `GraphDiff.SameInputs` | src/graph_diff.cpp:104-118 | two input tables agree, and read no recreated edge, iff no reason is found to update the node |
| `GraphDiff.DiffDecidesReuse` | src/graph_diff.cpp:143-157 | the reuse queries give the nodes that keep their operator and the edges that are kept |
| `GraphDiff.KeptEdgesJoinReusedNodes` | src/graph_diff.cpp:49-157 | both ends of every kept edge are reused |
| `GraphDiff.KeptNodesReadKeptEdges` | src/graph_diff.cpp:99-119 | the edge a kept node reads at a port is kept, and was read there before |
| `GraphDiff.KeptNodesKeepTheirInputs` | src/graph_diff.cpp:99-119 | all edges into a kept node are kept iff those are that are hidden by a later edge on the same port |
| `GraphDiff.SingleInputsShow` | src/graph_diff.cpp:32-38 | with one edge per port no edge is hidden |
| `GraphDiff.KeptWithANewInput` | src/graph_diff.cpp:32-38 | for any two nodes feeding one port of a third: the third counts as kept though the edge from one of them is new |
| `GraphDiff.SameGraphIsKept` | src/graph_diff.cpp:49-125 | the diff of a graph with itself keeps everything |
| `GraphDiff.OptionsAloneDoNotReplace` | src/graph_diff.cpp:95-101 | new options on the same operator keep the instance |
| `RuntimeTopology.BuildNodes` | src/runtime_topology.cpp:77-100 | every node is the base's object or a fresh one; an internal error means a reused node is missing in the base, a not-found that an operator cannot be created |
| `RuntimeTopology.BuildEdges` | src/runtime_topology.cpp:103-134 | every channel is the base's or a fresh one of its own bound to the new version's nodes, and it fails iff a reused edge is missing or has another data plane |
| `RuntimeTopology.BindInputs` | src/runtime_topology.cpp:136-165 | a new node gets a binding with the table of the edges into it; a reused node keeps the base's, and its new table is pending iff it differs; an internal error means a reused node has none |
| `RuntimeTopology.Build` | src/runtime_topology.cpp:42-166 | succeeds iff the reuse sets fit the base and every other operator can be created, and the runtime is then the one described above; an internal error means they do not fit |
| `RuntimeTopology.JustifiedIsUsable` | src/runtime_topology.cpp:77-134 | reuse sets that come from the diff fit any consistent base |
| `RuntimeTopology.BuiltConsistent` | src/runtime_topology.cpp:42-166 | a version built on a consistent one is consistent once published: operators, ends, queues, contracts, bound node objects and input tables match its graph, and no two edges share a channel |
| `RuntimeTopology.HistoryConsistent` | src/runtime_topology.cpp:42-166 | so is the newest of any history of versions |
| `RuntimeTopology.BindingsReadCurrentChannels` | src/runtime_topology.cpp:136-175 | so every binding of a published version reads exactly the channels of the edges into its node |
| `RuntimeTopology.InternalErrorsUnreachable` | src/runtime_topology.cpp:77-134 | after any history, no new graph can make the reuse errors of Build happen |
| `RuntimeTopology.CarriedChannelsBindCurrentNodes` | src/runtime_topology.cpp:103-134 | a channel carried over any history still binds the node objects of the new version, under an equivalent contract |
| `NodeScheduling.SlotsConserved` | src/node_runtime.cpp:175-235 | in every interleaving free slots plus held reservations are max_parallelism, in_flight counts the calls, and at most one attempt to drain wins |
| `NodeScheduling.NoCallAfterFlush` | src/node_runtime.cpp:199-235 | once an attempt to drain has won no call is in flight and none begins |
| `NodeScheduling.WinFindsNodeIdle` | src/node_runtime.cpp:215-235 | at the winning step nobody holds a slot and no call is in flight |
| `NodeScheduling.HeldNodeIsStill` | include/ge/cpp/node_runtime.h:218-235 | from a hold with an observed quiescent node until Release no reservation succeeds and nobody is past the gates of a turn |
| `NodeScheduling.PendingAtFlush` | src/node_runtime.cpp:215-258 | the requests pending at the flush are those begun since the attempt saw none less those ended since, so none is pending iff all have ended |
| `NodeScheduling.QuietFlushLeavesNonePending` | src/node_runtime.cpp:215-258 | in particular none is if nobody held or took a slot since |
| `NodeScheduling.FlushWithRequestPending` | src/node_runtime.cpp:215-258 | a run in which the flush is won with a request pending |
| `NodeScheduling.ReservedAfterFlush` | src/scheduler_invoke.cpp:26-72 | a run in which TrySchedule succeeds after the flush was won |
| `NodeScheduling.ReservesAfterFlushIff` | src/scheduler_invoke.cpp:26-72 | after the win a caller of TrySchedule can still get a slot iff it had loaded the node state before and not come to the slots, and there are any |
| `NodeScheduling.RunSafe` | src/scheduler_invoke.cpp:142-305 | the invariants of slots, drain, pause and async hold after every step of every run |
| `SoloCalls.TryScheduleAlone` | src/node_runtime.cpp:175-193 | left alone, TrySchedule takes a slot iff the node is ready or running, not held, and has one |
| `SoloCalls.TryEnterDrainingAlone` | src/node_runtime.cpp:215-235 | left alone, TryEnterDraining wins iff the node is ready, without calls or pending requests, and all slots are free; else it changes nothing |
| `SoloCalls.TurnAlone` | src/scheduler_invoke.cpp:15-72 | a turn that passes the gates gives its slot back and leaves the node ready unless other calls are running |
| `SoloCalls.HeldTurnAlone` | src/scheduler_invoke.cpp:15-39 | a turn that finds its node held gives its slot back and does nothing else |
| `SoloCalls.UnschedulableTurnAlone` | src/scheduler_invoke.cpp:15-39 | so does one that finds it draining, closed or failed |
| `SoloCalls.PauseAlone` | include/ge/cpp/node_runtime.h:218-235 | a pause is granted at the first look iff nobody is in a turn and all slots are free, and releasing it leaves no trace |
| `Backpressure.NothingLostOrReordered` | src/scheduler_backpressure.cpp:48-115 | over every interleaving of emits, snapshots, retries and write-backs, the emit steps of a thread to an edge are, in order and once each, what the edge accepted from it, then what waits, then what is in hand |
| `Backpressure.EdgeIsFifo` | src/scheduler_internal.h:97-127 | with one emitting thread the edge as a whole accepts in the order of the emit steps |
| `Backpressure.OvertakingBetweenThreads` | src/scheduler_internal.h:97-127 | for any two threads of a node, a run in which one's packet overtakes the other's |
| `Backpressure.OrderKeptIffOneThread` | src/scheduler_internal.h:97-127 | all runs keep emit order at an edge iff at most one thread emits |
| `Backpressure.AcceptedGrows` | src/scheduler_backpressure.cpp:63-115 | what an edge accepted is never taken back |
| `Backpressure.PushedUnlessParkedOrFull` | src/scheduler_internal.h:97-127 | an emit goes to its edge iff nothing is parked for that edge, is accepted iff the edge then has room, and is otherwise parked behind what is there |
| `Backpressure.PassDeliversWhatFits` | src/scheduler_backpressure.cpp:63-115 | a retry pass tries the parked packets one by one and in order; each leaves iff its edge has room and refused none before it in the pass, whatever the other edges did |
| `AsyncRequests.DepartInSubmitOrder` | src/async_runtime.cpp:567-611 | whatever the completion order, the requests that left a buffer are a prefix of those the run submitted under its key, in order and once each, and the rest are the buffer; each left as delivered or as dropped but not both |
| `AsyncRequests.TakesTheOldest` | src/async_runtime.cpp:567-611 | the consumer only takes the oldest request of a key still in flight, only when it is done, and with the outcome it has |
| `AsyncRequests.DoneIsFinal` | src/async_runtime.cpp:496-565 | over every run a result or gap stays what it is until the request is taken, unless the very session it was submitted with is detached in between; later completions change nothing at all |
| `AsyncRequests.DroppedIffItsSessionDetached` | src/async_runtime.cpp:181-231 | a step drops a request iff it detaches the session that request was submitted with and finds it in flight |
| `AsyncRequests.OutcomeIsFirst` | src/async_runtime.cpp:496-565 | the outcome a request is delivered with is the one its only decision recorded: the first completion under the session and versions it was submitted with, or the deadline after it was handed to the backend, whichever came first in the run |
| `AsyncRequests.EndsOnce` | src/async_runtime.cpp:716-720 | no two steps of a run call EndAsync for the same request, and none does before it left |
| `AsyncRequests.EndedIffGone` | src/async_runtime.cpp:181-231 | a submitted request has called EndAsync iff it is neither in flight nor being delivered nor being dropped |
| `AsyncRequests.PendingCountsRequests` | src/async_runtime.cpp:181-312 | a node's pending count is its requests in flight, just begun, or leaving |
| `AsyncRequests.PendingIsInFlight` | src/async_runtime.cpp:181-312 | between operations it is exactly its requests in flight |
| `AsyncOutputs.EdgeOrderIsDeliveryOrder` | src/async_runtime.cpp:417-463 | an edge has received the pushes of the results the run handed over, in order and once each, up to those still parked |
| `AsyncOutputs.NoDeliveryBehindParked` | src/async_runtime.cpp:567-683 | no result is pushed while an earlier output of its key is parked |
| `AsyncOutputs.EmittedUnlessFull` | src/async_runtime.cpp:613-683 | an output is pushed to an edge at once unless the edge is full or the output shares an edge with an earlier one that waits; it is parked otherwise |
| `AsyncOutputs.PassTakesWhatFits` | src/async_runtime.cpp:417-463 | a retry pass lets go, in order, exactly the parked pushes whose edge has room, and unblocks the key iff no edge refused one |
| `AsyncOutputs.LostIff` | src/async_runtime.cpp:181-231 | a key is lost iff its node failed or was cancelled in a delivery or a retry, or its session was detached |
| `AsyncOutputs.RunSafe` | src/async_runtime.cpp:417-463 | both invariants hold after every step of every run |
| `AsyncPipeline.EdgeOrderIsSubmitOrder` | src/async_runtime.cpp:417-683 | both halves together: whatever order requests complete in and however often edges are full, an edge receives the outputs handed over for the requests of a key in the order the run submitted them, each once and whole, up to what is still parked |
| `AsyncPipeline.ResultIsHanded` | src/async_runtime.cpp:567-611 | the result of a request is what the one step that took it from its buffer handed over |
| `AsyncPipeline.RunSafe` | src/async_runtime.cpp:417-683 | the invariants of both halves, and what ties them, hold after every step of every joint run |
| `Progress.RequestsMove` | src/async_runtime.cpp:496-683 | in every reachable state the oldest request of each buffer can leave it, or be answered by its own completion, or expire once handed to the backend; what was taken or dropped can be ended |
| `Progress.OutputsMove` | src/async_runtime.cpp:417-683 | the consumer always has a next step; when it is free a blocked key can be retried and any other delivered to |
| `Progress.ParkedMove` | src/scheduler_backpressure.cpp:48-115 | parked packets can be taken up by a pass, and no pass and no emitting thread gets stuck |
| `Progress.EventsMove` | src/event_bus.cpp:96-204 | in every reachable state a subscription with events is served or in line for any idle observer, and a waiting Cancel returns once it is neither |
| `EdgeChannels.PushKeepsMarkers` | src/edge_channel.cpp:80-148 | under all three policies a push stays within capacity, loses no queued EOS marker, and drops at most one packet, only under drop-oldest at a full ring |
| `EdgeChannels.FirstData` | src/edge_channel.cpp:112-140 | the victim of drop-oldest is the first packet that is not a marker |
| `EdgeChannels.EdgeChannel.constructor` | src/edge_channel.cpp:27-37 | an empty active ring of at least one slot |
| `EdgeChannels.EdgeChannel.PushLocked` | src/edge_channel.cpp:73-78 | appends to the sequence the ring stands for |
| `EdgeChannels.EdgeChannel.Tail` | src/edge_channel.cpp:67-71 | whether the last packet queued is a marker |
| `EdgeChannels.EdgeChannel.Evict` | src/edge_channel.cpp:112-140 | the shifting loop removes exactly one packet and keeps the others in order |
| `EdgeChannels.EdgeChannel.Push` | src/edge_channel.cpp:80-148 | for each policy and state: a packet is appended where there is room and a repeated marker is swallowed; a full edge blocks under Block and for markers, drops the new packet under DropNewest, and under DropOldest drops the first packet that is no marker, or the new one if there is none; a closed edge refuses; contents, counters and the balance of pushed, popped, evicted, cleared and queued follow |
| `EdgeChannels.EdgeChannel.InjectEos` | src/edge_channel.cpp:150-160 | a marker is appended once, and only where there is room |
| `EdgeChannels.EdgeChannel.Pop` | src/edge_channel.cpp:162-172 | takes the head of the sequence |
| `EdgeChannels.EdgeChannel.Peek` | src/edge_channel.cpp:174-177 | shows the head of the sequence |
| `EdgeChannels.EdgeChannel.MarkDraining` | src/edge_channel.cpp:39-44 | closes the edge for pushes and keeps its packets |
| `EdgeChannels.EdgeChannel.MarkRetired` | src/edge_channel.cpp:46-57 | a fast retire clears the ring and counts what it cleared, a slow one keeps it |
| `EdgeChannels.EdgeChannel.ClearBackpressure` | src/edge_channel.cpp:179-183 | active again iff it was backpressured and has room |
| `EdgeChannels.EdgeChannel.MarkBackpressured` | src/edge_channel.cpp:185-196 | backpressured iff open and full |
| `InputPorts.HandoverInOrder` | src/input_binding.cpp:125-184 | over any run of pushes, evictions, markers, retirements, rebinds and pops from a new port on, a packet comes from an edge only when every older edge of the port is retired, and empty or drained to its marker; pops never go back; each edge comes out first in, first out |
| `InputPorts.OlderEdgesAreDone` | src/input_binding.cpp:125-133 | every edge older than the active one is retired, and empty or drained to its marker |
| `InputPorts.ReleasedOnlyWhenDone` | src/input_binding.cpp:30-75 | an edge is let go only at its marker, retired and empty, or ended and empty, and is done then |
| `InputPorts.ReleasedForGood` | src/input_binding.cpp:30-184 | over any run an edge let go stays so: out of line, retired, drained, and nothing more is popped from it |
| `InputPorts.NothingLostInHandover` | src/input_binding.cpp:30-184 | over any run and across every rebind, what was popped from an edge and what it still holds is exactly what was put into it, in order, unless it was evicted from or thrown away with packets queued |
| `InputPorts.EndedIff` | src/input_binding.cpp:142-184 | a port has ended iff its marker came or the input was ended since it was given its edge |
| `PortEdges.Push` | src/edge_channel.cpp:80-148 | a push to the channel of a port edge is, as its outcome says, one push, an eviction and a push, or nothing in the port's model of that edge |
| `PortEdges.InjectEos` | src/edge_channel.cpp:150-160 | an injected marker is one marker there, or nothing |
| `PortEdges.MarkDraining` | src/edge_channel.cpp:39-44 | draining the channel is draining the edge |
| `PortEdges.MarkRetired` | src/edge_channel.cpp:46-57 | retiring the channel is retiring the edge, with or without its packets |
| `PortEdges.Pop` | src/edge_channel.cpp:162-172 | a pop takes the packet the edge has first |
| `InputPorts.RebindValid` | src/input_binding.cpp:30-68 | rebinding keeps the handover order |
| `InputPorts.RunValid` | src/input_binding.cpp:30-184 | the handover invariant holds after every step of every run |
| `InputBinding.Skim` | src/input_binding.cpp:142-184 | pops markers, events and data behind the port's marker, keeps every event in order, counts the data, and leaves live data alone |
| `InputBinding.DropLate` | src/input_binding.cpp:332-337 | drops only data older than the window or stale, counts it, and leaves a port that shows none alone |
| `InputBinding.EarliestRequired` | src/input_binding.cpp:311-322 | the reference is the first declared of the required ports that show the earliest head, each of them skimmed |
| `InputBinding.ClassifyAll` | src/input_binding.cpp:326-348 | each other port is missing, within the window or ahead of it, having lost only data that is stale or older than the window; a port with nothing to skim or drop stays as it was |
| `InputBinding.TakeAll` | src/input_binding.cpp:355-366 | takes the head of every chosen port, in declaration order, and nothing else |
| `InputBinding.BatchIsGood` | src/input_binding.cpp:326-368 | the packets of a batch are popped from their ports and within the window of the reference, one per port; every required port is served, has ended, or is ahead of a fixed reference; without a fixed reference none of them is earlier than it |
| `InputBinding.Serve` | src/input_binding.cpp:326-368 | what a turn decides, exactly: it drops the reference iff that is free and a required port is beyond the window, waits iff otherwise a required live port has nothing, and else serves a good batch of the heads within the window |
| `InputBinding.FinishAll` | src/input_binding.cpp:298-307 | when the reference ends every port ends, and what is left on any edge is dropped and counted, to the last packet |
| `InputBinding.Align` | src/input_binding.cpp:291-370 | the retry loop ends, and consists of such turns, all but the last dropping a late reference |
| `InputBinding.Binding.Rebind` | src/input_binding.cpp:30-68 | a port keeps, by name, its pops and the packets of its edges; an edge it is given stands behind the edges it had, and the edge it had before is dropped iff it ended and is empty; a new name starts afresh, and the edges of ports that vanish are retired and cleared |
| `InputBinding.Binding.FixedReference` | src/input_binding.cpp:284-289 | the last port of the configured name |
| `InputBinding.Binding.AcquireAligned` | src/input_binding.cpp:277-370 | returns a good batch or has a reason not to; every event popped is delivered on its port and in order, every data packet popped is delivered or counted as stale or late, and the turns taken are given in full |
| `AlignedTurns.WhyPopped` | src/input_binding.cpp:291-370 | every data packet a turn pops is stale, or older than the window, or delivered, or is a free reference that a required port has left behind |
| `AlignedTurns.FixedTakesOneTurn` | src/input_binding.cpp:349-353 | with a fixed reference there is no second try |
| `AlignedTurns.ContributesClosestIff` | src/input_binding.cpp:273-276 | the packet a port contributes is the first queued once those too old are dropped, and is the closest to the target iff none behind it is strictly closer |
| `AlignedTurns.ClosestIffNextIsNotCloser` | src/input_binding.cpp:273-276 | in a queue of ascending time stamps: iff the next packet is not strictly closer |
| `AlignedTurns.FartherIsTaken` | src/input_binding.cpp:273-276 | two ports for which every acquire takes the farther of two packets in the window |
| `EventBus.ScheduledOnce` | src/event_bus.cpp:96-119 | a subscription is scheduled iff it is once in the ready list or at one observer, never both; a queue with events is scheduled |
| `EventBus.DeliveredInOrder` | src/event_bus.cpp:186-204 | handled, in hand and queued events are, in order, exactly the events offered while its queue was below capacity; of a cancelled subscription, the first of them |
| `EventBus.ServedInOrder` | src/event_bus.cpp:169-184 | observers take subscriptions in the order in which they were scheduled |
| `EventBus.NoHandlerStartsAfterCancel` | src/event_bus.cpp:131-145 | no handler call begins on a cancelled subscription |
| `EventBus.QuietAfterCancelReturns` | src/event_bus.cpp:131-145 | after a Cancel that found the subscription returns to a non-observer the handler never runs |
| `EventBus.SecondCancelDoesNotWait` | src/event_bus.cpp:131-145 | a run in which a second Cancel returns while the handler runs |
| `EventBus.ObserverCancelDoesNotWait` | src/event_bus.cpp:131-145 | a run in which a handler cancels another subscription and goes on while that one is being handled on a second observer |
| `EventBus.CancelWithoutWaiting` | include/ge/cpp/event_bus.h:68-71 | over every run: after a Cancel no other thread ever runs the handler iff none does at the time of the call |
| `EventBus.CancelWaitsIffRegistered` | src/event_bus.cpp:131-145 | Cancel waits iff the id was still registered and the caller is no observer; otherwise a handler runs on its return iff one runs now |
| `EventBus.RunSafe` | src/event_bus.cpp:96-204 | the protocol invariants hold after every step of every run |
| `ResourceLedger.MergeAmounts` | src/resource_ledger.cpp:63-78 | one entry per kind and device with what the list asks of it |
| `ResourceLedger.OfIsSum` | src/resource_ledger.cpp:63-78 | what a list asks of an account, added in 64-bit words, is the sum of its entries as long as that sum is below 2^64 |
| `ResourceLedger.Differences` | src/resource_ledger.cpp:214-233 | growth and shrinkage of a lease, dimensions no longer named included |
| `ResourceLedger.ReserveConserves` | src/resource_ledger.cpp:198-206 | after a reservation the accounts equal the sum of the live leases iff none overflows |
| `ResourceLedger.ReleaseConserves` | src/resource_ledger.cpp:190-212 | giving a lease back keeps that equality and the subtraction never clamps |
| `ResourceLedger.CommitConserves` | src/resource_ledger.cpp:214-238 | changing a lease keeps it iff the growth fits in 64 bits, and each account then moves by exactly the difference |
| `ResourceLedger.NeverPastCapacity` | src/resource_ledger.cpp:146-188 | a charge let through stays within every capacity and does not wrap there |
| `ResourceLedger.UnlimitedAccountsOverflow` | src/resource_ledger.cpp:180-187 | two leases of half the range leave an unlimited account at zero |
| `ResourceLedger.Ledger.SetCapacity` | src/resource_ledger.cpp:134-137 | changes one capacity and no reservation; the account is within it iff it covers what is reserved, and the others stand as before |
| `ResourceLedger.Ledger.TryReserve` | src/resource_ledger.cpp:146-188 | takes all amounts iff no limited account is asked for more than it has left, else nothing; each account charged notes a new peak |
| `ResourceLedger.Ledger.Reserve` | src/resource_ledger.cpp:198-206 | a new lease of what is asked iff no limited account is short; a refusal changes nothing; the books balance iff there is room; every account within its capacity stays within it |
| `ResourceLedger.Ledger.Release` | src/resource_ledger.cpp:208-212 | the lease is gone and the books balance |
| `ResourceLedger.Ledger.Commit` | src/resource_ledger.cpp:214-238 | the lease becomes what is used iff its growth fits, else stays; the books balance iff there is room, and each account then moves by exactly the difference; every account within its capacity stays within it |
| `ResourceLedger.Ledger.Grow` | src/session.cpp:502-509 | the session's lease grows by the delta iff that fits; every account within its capacity stays within it |
| `ResourceLedger.Ledger.Shrink` | src/session.cpp:511-525 | giving back never fails, takes all the delta names down to zero, and keeps the books |
| `PluginRegistry.SameGenerationSameKeys` | src/plugin_registry.cpp:428-574 | two moments of equal operator generation, among moments each of which follows the one before as every operation promises, have the same key table |
| `PluginRegistry.UnloadedForGood` | src/plugin_registry.cpp:514-574 | an unloaded plugin stays unloaded and never regains a reference |
| `PluginRegistry.HistoryFollows` | src/plugin_registry.cpp:428-574 | over any such chain of moments plugins keep their operators and never come back from retiring |
| `PluginRegistry.Registry.Load` | src/plugin_registry.cpp:428-479 | succeeds iff neither name nor any key is taken; keeps table and counts exact and advances the generation by one |
| `PluginRegistry.Registry.Retire` | src/plugin_registry.cpp:485-512 | a plugin in use retires and keeps its keys and the generation, one without references is unloaded at once and advances it; nothing else of the plugin changes |
| `PluginRegistry.Registry.LogicalUnload` | src/plugin_registry.cpp:514-544 | succeeds iff unloaded already or unreferenced, and then no key names the plugin |
| `PluginRegistry.Registry.PhysicalUnload` | src/plugin_registry.cpp:546-574 | succeeds iff the library is closed already, or the plugin is unloaded, owns no threads and the probe consents; nothing refers to it then |
| `PluginRegistry.Registry.Resolve` | src/plugin_registry.cpp:598-603 | a key resolves iff a live plugin has that operator |
| `PluginRegistry.Registry.Create` | src/plugin_registry.cpp:644-716 | a reference is recorded, the plugin then in use, iff the key is there and its plugin is not retiring; no internal error can occur |
| `PluginRegistry.Registry.ReleaseLease` | src/plugin_registry.cpp:681-708 | the last lease to go unloads a retiring plugin and advances the generation, so a retiring plugin always has one; otherwise table, state and generation stay |
| `ParameterStore.PromiseKeptIff` | src/node_runtime.cpp:63-85 | promoting the queue to its end publishes the i-th request with the version its place in line promises iff it and all ahead of it are allowed by the hot keys in force |
| `ParameterStore.AllPromisesKeptIff` | src/node_runtime.cpp:63-98 | all versions promised and outstanding will be the ones published iff the hot keys in force allow everything queued |
| `ParameterStore.SubmitKeepsPromisesIff` | src/node_runtime.cpp:35-61 | after a Submit they are iff its hot keys allow everything that was queued |
| `ParameterStore.PromisesHoldOverRuns` | src/node_runtime.cpp:35-98 | over runs whose submits do so, every update is published, in order, as the fold of the updates up to it and with the version Submit returned; what the fold means is stated by LatestUpdateWins |
| `ParameterStore.UpdatesTakeEffect` | src/node_runtime.cpp:35-98 | over every run, whatever the hot keys: in each published snapshot the keys of its own update have the update's values and all others those of the snapshot before |
| `ParameterStore.LatestUpdateWins` | src/node_runtime.cpp:35-98 | over runs whose submits do so: in each published snapshot a key has the value of the last submitted update up to it that names the key, else its initial value, else none |
| `ParameterStore.FixedHotListCovers` | src/node_runtime.cpp:35-61 | a run with one list of hot keys is such a run |
| `ParameterStore.VersionsHaveNoGaps` | src/node_runtime.cpp:87-98 | over every run, whatever the hot keys, versions are published without gaps and requests in submit order |
| `ParameterStore.LaterSubmitBreaksPromise` | src/node_runtime.cpp:35-61 | a run of three submits and two switches in which one request is never published and the next gets another version than it was promised |
| `ParameterStore.Store.constructor` | src/node_runtime.cpp:27-33 | version one holds the initial values |
| `ParameterStore.Store.Submit` | src/node_runtime.cpp:35-61 | returns the version its place in line promises; next in line it becomes pending with its own values over the current ones, else it is queued; the promises outstanding will be kept iff the new hot keys allow all queued requests |
| `ParameterStore.Store.PromoteQueued` | src/node_runtime.cpp:63-85 | the first request still allowed becomes pending, those before it are dropped |
| `ParameterStore.Store.SwitchAtPacketBoundary` | src/node_runtime.cpp:87-98 | publishes the pending version and makes the first request still allowed pending, its values over those just published, whatever has become of the promises |

## Left out

- MergeAmounts: does not state the order of the merged list.
- ReleasedOnlyWhenDone: ForgetPredecessor is modelled for finished edges only, which its declaration asks for; nothing in the repository calls it.
- InputBinding.Binding.Rebind: the source matches every new binding of one port name to the first old one and keys end-of-stream by name; with several bindings of a name the model gives each its own copy of that port's edges, so what they share is lost.
- RuntimeTopology.BindInputs: a table is the set of its ports with their channels; the order of the ports, their required flags and the sync policy, a change of which alone also leads to a rebind, are not modelled there.
- AcquireAligned: states how many data packets were dropped in all, and why each was, but not how the count divides into stale and late.
- AcquireAny and AcquireLatest, which are built from the same steps with less to decide.
- A kept pop between Peek and Take of one acquire: an acquire is one atomic step, with no concurrent fast retire inside it.
- Weak memory orderings, timeouts, sleeps and wake-ups: steps are sequentially consistent and may happen at any time.
- Liveness of the scheduler as a whole: safety and local termination only.
- Nested MarkReady calls are separate agents, and EndAsync is a decrement followed by a transition on its own.
- Delivery of gap placeholders: a request is only known to leave as a gap.
- RejectPending and the capped history of the parameter store.
- The destructor of the event bus, its filters and its statistics.
- Capability negotiation: a contract is an opaque value with an equivalence; operators are looked up by a function.
- Validation other than ordering, chains and shared dependencies.
- Manifest checks, dlopen and vtables of plugins: Load starts at a validated operator list.
- Wrap-around of counters and generations at 64 bits, except for ledger amounts.
- JSON, schemas, audit logs, metrics, the C API, media and inference operators.
