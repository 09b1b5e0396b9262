# A verified model of the core of the retrieval platform

The project models five parts of the repository and proves what they are for. Everything numeric or
learned (embeddings, clustering, language models, database engines, the network) is an arbitrary
parameter, so every theorem holds for all of its outputs.

1. **Psi merge tree and RAPTOR layers** (`core/raptor.py`). `PsiForest` is the theory of the
   parent array, the chains and the levels; `PsiMerge`, `PsiLinks` and `PsiRanking` say what one
   union does to the tree, to connectivity and to the levels that the ranked pairs determine;
   `PsiUnionFind` is the mutable structure. `PsiBuckets`, `PsiRecursion`, `PsiStructure` and
   `PsiBuild` build the object tree, `PsiGrowth` finds the ranking in it, `PsiTree` rebalances it
   in place, `PsiLayers`, `PsiSummaries` and `PsiRaptor` turn it into summary layers.
   `ClassicLayers` is the other tree builder.
2. **Workflow scheduler** (`workflow_v2/`). `Scheduler` is a step system over all coroutines:
   every segment between two points where a coroutine can really be suspended is one step.
   `SchedulerBound`, `SchedulerNesting`, `SchedulerOrder`, `SchedulerProgress`, `SchedulerResults`
   and `SchedulerTotal` hold termination, nesting, order, progress and the guarantees; `SchedulerStaging` steers runs, and `SchedulerRaces`,
   `SchedulerJoins` and `SchedulerExamples` show exactly where the guarantees end.
   `CycleDetector` is the validator's search, `StateLog` and `StateManager` the publish/subscribe
   manager.
3. **Metadata filters** (`common/metadata_*.py`). `MetadataSpec` is the meaning of a filter,
   document by document; `MetadataIndex` and `MetadataMatcher` are the two-view index and the
   stream; `MetadataPushdown` and `MetadataElastic` the two candidate queries; `MetadataEngine` the whole evaluation.
4. **MCP pause and resume** (`common/mcp_interactions.py`, `common/mcp_tool_call_conn.py`).
   `McpContracts`, `McpBridge`, `McpSession` and `McpRounds`.
5. **UTF-8 truncation** (`common/string_utils.py`). `Utf8`, after section 3 of RFC 3629.

`dafny verify dfyconfig.toml` checks everything.

## What the code does not guarantee

- A selected node can be lost: when two branching nodes lead to it and only one selects it, the one
  that selects it may finish while the other is still under way, and the other does not look at it
  (`TwoSelectorsLose`). With a sole predecessor for every branch target this cannot happen
  (`CoveredNeverLoses`, `SoleIsCovered`); where shared branch targets follow the first branching
  nodes that condition is exact (`LosesUnlessSole`), and so is `Covered` for a given selection
  (`LosesUnlessCovered`).
- A task can raise although no component fails: a selector puts its target into the execution path
  before the target has a coroutine task, and a join that was started by another predecessor looks
  it up (`JoinRaises`). It cannot where everything that meets a branch target comes through its
  branching node, as when branches meet again (`MergingIsSequenced`, `RunsReturn`); where the
  critical joins follow the first branching nodes that condition is exact (`RaisesUnlessMerging`),
  and so is `Sequenced` for a given selection (`RaisesUnlessSequenced`).
- A node does not wait for every predecessor: one that enters the execution path after the
  node has begun is not waited for, and the node may complete first, even in a workflow without
  branching (`DetourOvertaken`). `StartsWhenReady` and
  `RunsAfterPath` say what it does wait for.
- With a history limit below 1 a new subscriber is sent the latest state only (`Subscribe`).
- With two rows for one document, streaming and aggregation disagree on conjunctions
  (`SplitDocument`); they agree on disjunctions and whenever ids are distinct.
- A document that matches only through a list inside a metadata list can be missed by the candidate
  queries, for example `[[]]` (`NestedListIsMissed`, `NestedListIsUnindexed`); `InfinityLosesExactly` and
  `ElasticLosesExactly` say exactly which documents are.
- A stored response that does not validate counts as the answer to a legacy guard, and the result is
  delivered (`Serve`).
- A late subscriber of a completed workflow gets no end marker until the next completion
  (`SubscriberReads`).

## Assumptions

- Scheduler: publishing a state does not suspend (its lock is never contended and its queues are
  unbounded). A branching node selects one fixed port per run. Waiting for a predecessor is waiting
  for the coroutine task last stored for it.
- Metadata: `lower` is idempotent and `str` of a text is the text (`Texts.Lawful`). Lists and
  dictionaries have equal membership keys exactly when they are equal: `repr` tells them apart.
- Engines: the extracted JSON text is 'null' exactly for a missing or null field; JSON containment
  holds for an equal value or an equal member of a list, numbers by value; `exists` holds exactly
  when a scalar of the field, in lists or not, is indexed; every scalar is when the field has a
  literal name and a scalar type, is indexed, and ignores neither malformed nor long values
  (`MetadataElastic.Promises`).
- MCP: the host resumes with the call fields and the deadline it stored, keeps the interaction of a
  follow-up and gives it the next revision (`McpRounds.Stored`, `McpRounds.Continues`; compare
  `api/identity/mcp_interactions/repository.py`).

## Model

| member | source | states |
|---|---|---|
| `PsiUnionFind.UnionFind.constructor` | core/raptor.py:64-70 | a new structure meets every invariant: levels, edges, siblings, chains, root count and connectivity |
| `PsiUnionFind.UnionFind.OrderedExtend` | core/raptor.py:72-77 | appends the values not seen yet, in their own order |
| `PsiUnionFind.UnionFind.Find` | core/raptor.py:79-88 | completes a stale chain to exactly the strictly rising path up to the current root, loses no chain of another leaf, and terminates because ranks rise |
| `PsiUnionFind.UnionFind.RankBisectRight` | core/raptor.py:90-95 | the first chain index whose rank exceeds the bound |
| `PsiUnionFind.UnionFind.Build` | core/raptor.py:97-115 | the exact new parent entries in both modes, clamp included |
| `PsiUnionFind.UnionFind.BuildAt` | core/raptor.py:97-111 | under the invariants the clamp is never needed: the result is the splice one level above the absorbed root |
| `PsiUnionFind.UnionFind.BuildAbove` | core/raptor.py:112-115 | both tops get the fresh node, which is the next id of the first root |
| `PsiUnionFind.UnionFind.SpliceInto` | core/raptor.py:124-143 | a lower ranked root is spliced into the other chain; all invariants stay and the two leaves meet where `Absorbed` says; the index clamp is unreachable |
| `PsiUnionFind.UnionFind.JoinRoots` | core/raptor.py:144-149 | equal ranks: all invariants stay and the two leaves meet in the fresh node |
| `PsiUnionFind.UnionFind.Union` | core/raptor.py:117-150 | true exactly when the roots differ; then one root disappears, the lowest common ancestor of the two leaves is exactly one level above the lower old root, in the old ancestor of the other leaf or in a fresh node, and no existing parent entry changes; the roots still classify the leaves by connectivity, and ranks and meeting levels are those that the processed pairs determine |
| `PsiUnionFind.InsertPoint` | core/raptor.py:127-131 | the element found by the bisection exists, and owns the ancestor of the leaf at exactly one level above the absorbed root |
| `PsiUnionFind.FindGuard` | core/raptor.py:81-87 | the two tests of `_find` recognise exactly the roots, and otherwise pick the current parent |
| `PsiUnionFind.ExtendCompletes` | core/raptor.py:84-88 | extending any stale chain by the complete chain of its parent gives the complete path |
| `PsiForest.PathRises` | core/raptor.py:79-95 | ranks strictly increase along a path |
| `PsiForest.ClimbIsOwner` | core/raptor.py:97-115 | following k parent entries from a leaf gives the k-th node of the owner at level k, and -1 above the root rank: all leaves of one root have the same depth |
| `PsiForest.LcaFromOwners` | core/raptor.py:97-150 | two leaves whose owners first agree at a level have their lowest common ancestor exactly there |
| `PsiForest.MeetFromOwners` | core/raptor.py:97-150 | such leaves meet at exactly that level: the climbs agree there and at no level below |
| `PsiForest.LcaFromMeet` | core/raptor.py:97-150 | leaves that meet at a level have their lowest common ancestor there |
| `PsiForest.MeetKept` | core/raptor.py:97-115 | a parent array that keeps all existing entries keeps all meetings |
| `PsiForest.SpliceKeepsInv` | core/raptor.py:124-143 | a splice keeps levels, edges and siblings |
| `PsiForest.JoinKeepsInv` | core/raptor.py:144-149 | a join keeps levels, edges and siblings |
| `PsiForest.SpliceOwner` | core/raptor.py:124-143 | below the spliced root no owner changes, above it the leaves take over the owners of the insert point |
| `PsiForest.CoverGrows` | core/raptor.py:97-150 | a node at level k covers at least 2^k leaves |
| `PsiForest.HeightIsLogarithmic` | core/raptor.py:64-150 | 2 to the rank of a root is at most the number of leaves |
| `PsiForest.ParentEntry` | core/raptor.py:97-115 | every used parent entry is -1 exactly for the top node of a root, and otherwise a used id one level higher |
| `PsiForest.LeafLevel` | core/raptor.py:64-70 | ids at level 0 are exactly the leaves, so no leaf id is ever a parent |
| `PsiMerge.SpliceAbsorbs` | core/raptor.py:124-143 | the exact lowest common ancestor of the leaves of a splice |
| `PsiMerge.JoinAbsorbs` | core/raptor.py:144-149 | the exact lowest common ancestor of the leaves of a join |
| `PsiMerge.MovedCounts` | core/raptor.py:117-150 | every merge removes exactly one root and uses at most one new id |
| `PsiMerge.RoomForJoin` | core/raptor.py:68-70 | while two roots are left, the next id is below 2n - 1: every write is in bounds |
| `PsiMerge.MovedClassifies` | core/raptor.py:117-150 | a merge fuses exactly the connected components of its pair |
| `PsiMerge.RefusedClassifies` | core/raptor.py:121-122 | a refused pair joins nothing new |
| `PsiRanking.AbsorbedRanks` | core/raptor.py:117-150 | the rank of every component and the level at which the leaves of every joining pair meet are functions of the sequence of pairs, defined by reachability alone: a merge agrees with one more pair |
| `PsiRanking.RefusedRanks` | core/raptor.py:121-122 | and a refused pair changes neither |
| `PsiLinks.FuseClassifies` | core/raptor.py:117-150 | if classes agree with reachability over processed pairs, fusing two classes agrees with one more pair |
| `PsiBuild.MergeAll` | core/raptor.py:485-493 | the pairs are taken in the given order, and exactly the shortest prefix that connects all leaves; n - 1 of them are accepted; each of these makes its leaves meet one level above the lower rank of the two components that the pairs before it made |
| `PsiBuild.MakeNodes` | core/raptor.py:495-507 | one new object per inner id with a fresh index, and the children of every id |
| `PsiBuild.PickRoot` | core/raptor.py:515-516 | the only top object is picked |
| `PsiBuild.BuildExact` | core/raptor.py:475-517 | the object tree over the given nodes: proper, linked both ways, at least two children per new node, the same leaves, n - 1 merges; it is the tree of a parent array that the ranking determines as for `MergeAll` |
| `PsiGrowth.GrownMeets` | core/raptor.py:475-517 | in the tree of objects, for every pair that joined two components, the smallest subtree with both leaves has them exactly as many levels down as the ranking says, under different children |
| `PsiStructure.TwoKids` | core/raptor.py:97-115 | every inner id has at least two children |
| `PsiStructure.OneTop` | core/raptor.py:515-516 | with one root left, exactly one id has no parent |
| `PsiStructure.AllUnderTop` | core/raptor.py:485-517 | every id is below that one |
| `PsiStructure.ShapeIsProper` | core/raptor.py:495-513 | the tree read off the parent array contains no object twice |
| `PsiStructure.WholeJoins` | core/raptor.py:475-517 | the tree contains exactly the given nodes and the new ones, and has the same leaves |
| `PsiBuckets.SplitPsiBuckets` | core/raptor.py:375-414 | for any labelling: every index lands in exactly one bucket, no bucket is empty or larger than the size, the buckets are sorted, there are fewer buckets than indices, and they are exactly the groups that recursive splitting by the labels yields |
| `PsiBuckets.SplitFollowsLabels` | core/raptor.py:406-410 | the parts of a group with two labels or more are exactly the classes of members with one label; otherwise the group is sliced |
| `PsiBuckets.SelectAre` | core/raptor.py:407 | a part holds exactly the members with its label, in order |
| `PsiBuckets.SplitGroupWorks` | core/raptor.py:390-410 | a group that is too large is cut into at least two and fewer parts than members, even when the labelling puts everything into one part |
| `PsiBuckets.FanoutBelow` | core/raptor.py:390 | the requested number of parts is at least 2 and below the size of the group |
| `PsiBuckets.YieldOfParts` | core/raptor.py:375-414 | pigeonhole: fewer parts than members means that some bucket merges something |
| `PsiRecursion.Limits` | core/raptor.py:190-191 | the two limits for every argument, default and clamps included; they make the recursion well-founded |
| `PsiRecursion.BuildFromNodes` | core/raptor.py:549-558 | exact or bucketed: proper linked tree with the same leaves, total merges n - 1, determined by the rankings and labellings at every level of the recursion |
| `PsiRecursion.BuildBucketed` | core/raptor.py:519-547 | the mutual recursion terminates, keeps every leaf once and adds its merges up to n - 1; the tree is the one over the trees of the buckets |
| `PsiRecursion.BuildBuckets` | core/raptor.py:535-541 | one tree per bucket, each over exactly the members of its bucket; merges so far are members minus buckets |
| `PsiTree.CreateParent` | core/raptor.py:433-438 | a fresh parent whose children point back to it |
| `PsiTree.GroupOnce` | core/raptor.py:451-463 | one pass puts the children into batches of exactly the bound, only the last may be smaller and a batch of one stays as it is; the leaf sequence is kept and the children become strictly fewer |
| `PsiTree.Rebalance` | core/raptor.py:444-470 | in place: keeps the left-to-right leaf sequence, bounds every fanout, keeps at least two children, keeps links mutual; the result is the repeated batching of every node, children first |
| `PsiTree.RebalancePsiTree` | core/raptor.py:440-473 | the same for the whole tree, with batches and fanout bounded by max(2, max_cluster), and fresh consecutive indices |
| `PsiTree.FittingIsKept` | core/raptor.py:444-470 | a tree that already fits is left as it is |
| `PsiTree.RootOf` | core/raptor.py:352-357 | climbing parents from the root stays there |
| `PsiLayers.CollectLayers` | core/raptor.py:576-590 | lists every inner node exactly at its height, in order |
| `PsiLayers.ShapesAtMembers` | core/raptor.py:576-590 | a layer holds exactly the inner nodes of its height |
| `PsiLayers.ShapesAtOnce` | core/raptor.py:576-590 | no node is in a layer twice |
| `PsiLayers.EveryHeight` | core/raptor.py:597-598 | no height up to the root is missing |
| `PsiLayers.TopIsAlone` | core/raptor.py:576-590 | the last layer is the root alone |
| `PsiLayers.InnerBound` | core/raptor.py:576-590 | a tree with at least two children per inner node has fewer inner nodes than leaves |
| `PsiSummaries.SummarizeNode` | core/raptor.py:600-611 | summarizes from the texts of all children, or counts an error, which is then a failed call for exactly this node |
| `PsiSummaries.SummarizeLayer` | core/raptor.py:613-625 | finishing in any order: without a new error every node of the layer has the summary of all its children, which were told before; a new error is a failed call |
| `PsiSummaries.BuildLayers` | core/raptor.py:592-641 | without an error all layers are complete: every inner node summarized once, after its children, appended layer by layer; with one, some call failed after all lower nodes had their text |
| `PsiRaptor.BuildPsiStructure` | core/raptor.py:560-574 | every chunk is a leaf exactly once, fanout bounded; the tree is the rebalanced one that the rankings and labellings determine |
| `PsiRaptor.LeavesKeptOnce` | core/raptor.py:560-574 | a proper tree with the same leaves has each exactly once |
| `PsiRaptor.BoundsContiguous` | core/raptor.py:592-641 | the layer bounds are contiguous |
| `PsiRaptor.FinalLayer` | core/raptor.py:592-641 | the last layer has width 1 and at most 2n - 1 chunks come out |
| `PsiRaptor.BuildPsiLayers` | core/raptor.py:592-641 | the tree that rankings and labellings determine has the given texts as leaves, each once, with bounded fanout; without an error the result is complete, with one a call in this tree failed |
| `PsiRaptor.CallPsi` | core/raptor.py:643-655 | returns exactly when every summary call of the tree over the given texts succeeds, which is the tree that rankings and labellings determine: contiguous layers over all chunks, root alone last, at most 2n - 1 chunks; raises exactly when one of these calls failed |
| `PsiRaptor.CarryStays` | core/raptor.py:592-641 | summarizing never changes the text of a leaf |
| `PsiRaptor.NeverFails` | core/raptor.py:653-655 | a summarizer that never fails leaves no reason to raise |
| `RaptorChunks.UsableAre` | core/raptor.py:647 | exactly the chunks with a text and an embedding take part, in order |
| `ClassicLayers.Unique` | core/raptor.py:707 | the distinct labels, ascending |
| `ClassicLayers.Renumber` | core/raptor.py:708-710 | every label is replaced by its rank among the distinct labels, and no label is out of range |
| `ClassicLayers.RenumberedGroups` | core/raptor.py:708-710 | two items are together afterwards if and only if they were before |
| `ClassicLayers.ClustersAhc` | core/raptor.py:254-285 | for 3 nodes or more the labels of the linkage cut at the first widest gap between merge distances, within the bounds: fewer distinct labels than nodes |
| `ClassicLayers.AdjustTreeNodes` | core/raptor.py:287-305 | up to five rounds move every item to its first nearest centroid, until nothing moves or one cluster is left; no cluster is added |
| `ClassicLayers.ClusterLayer` | core/raptor.py:687-724 | labels and count are those of the configured clustering, mixture or linkage with reassignment; every label is below the count, which is below the number of nodes |
| `ClassicLayers.ClusterTextsAre` | core/raptor.py:726-728 | what is summarized for a cluster is the texts of exactly its members, in order |
| `ClassicLayers.SummarizeClusters` | core/raptor.py:726-742 | in any completion order at most one summary per cluster, each from the texts of its cluster; an error is counted if and only if the call for some cluster fails, and without one exactly the inhabited clusters are summarized |
| `ClassicLayers.OptimalClusters` | core/raptor.py:238-252 | the smallest count with the least score among 1 to min(max_cluster, n - 1), or 1 when that is no range |
| `ClassicLayers.ArgMin` | core/raptor.py:251 | the first position of the least value |
| `ClassicLayers.PickLabel` | core/raptor.py:719 | the first cluster whose probability exceeds the threshold, or else the first most probable one |
| `ClassicLayers.ClustersGmm` | core/raptor.py:712-719 | the chosen count, and for every item the label that its probabilities select |
| `ClassicLayers.NextLayer` | core/raptor.py:670-761 | a layer of two or more nodes is followed by a strictly narrower one, clustered as configured; an error is counted if and only if a cluster call fails, and without one the next layer is non-empty and summarizes every cluster once |
| `ClassicLayers.RunClassic` | core/raptor.py:657-764 | returns when every summary call succeeds and raises when one fails, after layers that are all derived by the configured clustering; "did not reduce the layer" is unreachable |
| `ClassicLayers.CallClassic` | core/raptor.py:643-764 | on return the layers are contiguous and strictly narrowing, the last has width 1, and each summary is derived from its cluster of the configured clustering; it raises only when a cluster call of this run failed |
| `CycleDetector.BuildAdjacencyList` | workflow_v2/workflow_validator.py:36-43 | every node maps to its targets in order; a key error exactly when a source is unknown |
| `CycleDetector.CycleSearch.Dfs` | workflow_v2/workflow_validator.py:124-141 | a found cycle is real and simple; a clear search numbers everything it visited against the edges |
| `CycleDetector.DetectCycles` | workflow_v2/workflow_validator.py:121-152 | the list is empty if and only if the graph is acyclic; every listed cycle is a real simple cycle; no key error on closed graphs |
| `WorkflowAdmission.FindCycles` | workflow_v2/workflow_validator.py:29-43 | constructor and detection together decide acyclicity of the graph that the scheduler runs |
| `WorkflowGraph.RanksAcyclic` | workflow_v2/workflow_validator.py:121-152 | a numbering that falls along edges excludes cycles |
| `WorkflowGraph.DepthFalls` | workflow_v2/workflow_validator.py:121-152 | on an acyclic graph the number of reachable nodes falls along every edge |
| `Scheduler.SafeStep` | workflow_v2/workflow.py:161-271 | every step of every coroutine, failures included, keeps: one owner per lock, a task under way only under a held lock, one completion per node |
| `Scheduler.RunsAreSafe` | workflow_v2/workflow.py:161-271 | so does every run |
| `Scheduler.OneOwner` | workflow_v2/workflow.py:166-180 | no node is processed by two callers at once, and none completes twice |
| `SchedulerBound.MeasureFalls` | workflow_v2/workflow.py:161-271 | a measure falls with every step |
| `SchedulerBound.RunsAreFinite` | workflow_v2/workflow.py:142-152 | every run is finite |
| `SchedulerBound.SuccessorExactly` | workflow_v2/workflow.py:182-204 | the successors that a completed node looks at are the targets of its edges, for a branching node of those at the selected port |
| `SchedulerNesting.RunsAreNested` | workflow_v2/workflow.py:203-213 | in every reachable state a call that has ended has only ended children, and a call before its completion check has none |
| `SchedulerNesting.ReturnsAfterAll` | workflow_v2/workflow.py:203-213 | a call that has returned has nothing under way that it started directly or indirectly |
| `SchedulerNesting.ReturnedIsAll` | workflow_v2/workflow.py:142-155 | when the calls that `execute` awaits have ended, all calls have |
| `SchedulerOrder.StartsWhenReady` | workflow_v2/workflow.py:205-213 | a completion check starts a successor only when all its predecessors in the execution path have completed, and leaves it only when one has not; for a plain node that is an equivalence |
| `SchedulerOrder.RunsAfterPath` | workflow_v2/workflow.py:235-259 | in every run: a component that runs or has completed has all the predecessors completed that were in the path when its task began |
| `SchedulerOrder.CompletesEarly` | workflow_v2/workflow.py:205-213 | behind plain nodes: a node that has another predecessor, not yet in the path, has a run in which it completes before that one is started |
| `SchedulerProgress.SoleIsCovered` | workflow_v2/workflow.py:182-201 | branch targets with a sole predecessor make a workflow covered |
| `SchedulerProgress.LiveStep` | workflow_v2/workflow.py:182-213 | every step keeps: a chosen successor is started, or a predecessor in the path is still to be checked |
| `SchedulerProgress.RunsAreLive` | workflow_v2/workflow.py:161-271 | every reachable state is safe and live |
| `SchedulerResults.CallCanGoOn` | workflow_v2/workflow.py:161-259 | the wait-for relation is well-founded, failures included: locks are awaited towards successors, tasks towards predecessors |
| `SchedulerResults.NoDeadlock` | workflow_v2/workflow.py:161-271 | on an acyclic workflow no reachable state is stuck before all calls are over, whatever has failed and whichever ports are selected |
| `SchedulerResults.NoLostWakeup` | workflow_v2/workflow.py:161-271 | when the calls that `execute` awaits have ended, exactly the nodes reachable over selected edges have completed, each once, and nothing is under way |
| `SchedulerRaces.LostForGood` | workflow_v2/workflow.py:205-213 | a chosen node that none of its choosers started never completes in any continuation |
| `SchedulerRaces.CoveredNeverLoses` | workflow_v2/workflow.py:182-213 | no run of a covered workflow loses a node |
| `SchedulerRaces.UncoveredLoses` | workflow_v2/workflow.py:195-213 | behind plain nodes: if someone chooses a shared branch target and another predecessor does not, some run loses it |
| `SchedulerRaces.LosesUnlessCovered` | workflow_v2/workflow.py:195-213 | where shared branch targets follow the first branching nodes: with the given selection some run loses a node if and only if the workflow is not covered |
| `SchedulerRaces.CoveredForAll` | workflow_v2/workflow.py:182-201 | every selection is covered if and only if every branch target has a sole predecessor |
| `SchedulerRaces.LosesUnlessSole` | workflow_v2/workflow.py:195-213 | on that class: for some selection some run loses a node if and only if some branch target has a second predecessor |
| `SchedulerExamples.TwoSelectorsLose` | workflow_v2/workflow.py:195-201 | a plain start node, two selectors with all ports connected and common targets, which the validator admits: the selected target is lost |
| `SchedulerStaging.Execute` | workflow_v2/workflow.py:161-213 | an idle node can be executed from its lock to its completion check, with exactly these effects |
| `SchedulerStaging.ExecuteStage` | workflow_v2/workflow.py:161-213 | plain nodes closed under predecessors can all be executed, after which everything that can be called is called |
| `SchedulerTotal.StuckIsReturned` | workflow_v2/workflow.py:142-259 | covered and nothing has failed: a run that cannot go on has returned, with exactly the chosen nodes completed once |
| `SchedulerTotal.RunsWithoutFailure` | workflow_v2/workflow.py:243-247 | where every other starter of a join comes after the branching node, a run without component failure raises nothing |
| `SchedulerTotal.RunsReturn` | workflow_v2/workflow.py:142-259 | such a run that cannot go on has returned, with exactly the chosen nodes completed once |
| `SchedulerTotal.RunsComplete` | workflow_v2/workflow.py:142-259 | every such run can be continued to one that returns |
| `SchedulerTotal.PlainIsSafe` | workflow_v2/workflow.py:203-213 | workflows without branching nodes meet both conditions on branches |
| `SchedulerTotal.RunCanFinish` | workflow_v2/workflow.py:142-259 | every run can be continued until it cannot go on |
| `SchedulerJoins.MergingIsSequenced` | workflow_v2/workflow.py:195-213 | branches that only meet what comes through their branching node are sequenced, whatever is selected |
| `SchedulerJoins.EarlyRaises` | workflow_v2/workflow.py:243-247 | behind plain nodes: a join of a plain node and a branch target has a run without component failure in which it looks up a predecessor that has no coroutine task yet, and raises |
| `SchedulerJoins.RaisesUnlessSequenced` | workflow_v2/workflow.py:243-247 | where unsequenced joins follow the first branching nodes: with the given selection a run without component failure can raise if and only if the workflow is not sequenced |
| `SchedulerJoins.RaisesUnlessMerging` | workflow_v2/workflow.py:243-247 | for some selection a run without component failure can raise if and only if something meets a branch target without coming through its branching node |
| `SchedulerJoins.EverySelectionCompletes` | workflow_v2/workflow.py:142-259 | sole predecessors and merging branches: for every selection every run without component failure can be continued to one that returns |
| `SchedulerJoins.EverySelectionReturns` | workflow_v2/workflow.py:142-259 | and every such run that cannot go on has completed exactly the chosen nodes, each once |
| `SchedulerExamples.JoinRaises` | workflow_v2/workflow.py:243-247 | a plain start node, and a join of a plain node with a selector target, which the validator admits: the join raises although no component fails |
| `SchedulerExamples.IfElseIsSafe` | workflow_v2/workflow.py:182-213 | the branches of a selector that meet again: all guarantees apply for every selection |
| `SchedulerExamples.DetourOvertaken` | workflow_v2/workflow.py:205-213 | two ways of different length to a node, no branching and no failure: the node completes before the predecessor on the longer way is started |
| `StateLog.SubscriberReads` | workflow_v2/workflow_state_manager.py:103-135 | a queue, end markers left out, is one contiguous segment of the log up to now; it has one end marker per completion since it joined |
| `StateLog.FeedsNext` | workflow_v2/workflow_state_manager.py:190-194 | delivering one event to a queue keeps it a segment up to now |
| `StateManager.Manager.Emit` | workflow_v2/workflow_state_manager.py:175-194 | the event is the last of the log, the latest state and the end of the history, which drops its oldest state only at the limit; it reaches every listening queue once |
| `StateManager.Manager.PublishState` | workflow_v2/workflow_state_manager.py:160-194 | publishing keeps all invariants and appends one event to the log of one workflow; it is the latest state and the end of the history |
| `StateManager.Manager.PublishCompleted` | workflow_v2/workflow_state_manager.py:231-264 | the same with an end marker after the state |
| `StateManager.Manager.Subscribe` | workflow_v2/workflow_state_manager.py:103-135 | a new queue starts with the recent states; the fallback to the latest state is taken if and only if there is one and the limit is below 1 |
| `StateManager.Manager.Unsubscribe` | workflow_v2/workflow_state_manager.py:137-154 | exactly that queue stops listening; anything else changes nothing |
| `StateManager.Manager.Clear` | workflow_v2/workflow_state_manager.py:82-99 | forgets the states, keeps the subscribers fed |
| `StateManager.Manager.CleanupExpired` | workflow_v2/workflow_state_manager.py:55-80 | evicts exactly the inactive workflows without subscriber; shortens no history |
| `StateManager.HistoryWithinLimit` | workflow_v2/workflow_state_manager.py:181-188 | with a limit of at least 1 the history is a non-empty suffix of the log within the limit and ends with the latest state |
| `StateManager.TrimKeeps` | workflow_v2/workflow_state_manager.py:76-80 | the trimming of the cleanup never removes anything |
| `MetadataIndex.MetadataValueIndex.Add` | common/metadata_utils.py:48-51 | both views hold exactly the entries added, the typed view under the first value of a key |
| `MetadataIndex.AggregateRows` | common/metadata_utils.py:448-460 | one index per key with a non-null value, holding exactly the non-null expanded values of all rows |
| `MetadataIndex.AllHits` | common/metadata_utils.py:448-460 | a document has an entry that satisfies a condition if and only if one of its rows does |
| `MetadataValues.LawfulTexts` | common/metadata_utils.py:30-38 | text functions with the assumed laws exist |
| `MetadataValues.TextTests` | common/metadata_utils.py:140-156 | a part occurs in, starts or ends a text if and only if the rest can be put around it |
| `MetadataSpec.MembershipMeaning` | common/metadata_utils.py:30-38 | `in` a list: the value is like one of its items, or a list is with all its members; `not in`: none is. Texts are alike in lower case, booleans and numbers by value, and never one kind like another |
| `MetadataSpec.TextMembership` | common/metadata_utils.py:30-38 | a text is in a list if and only if the list has a text equal to it in lower case; `not in` is the opposite |
| `MetadataMatcher.SameKey` | common/metadata_utils.py:30-38 | list membership depends on the key alone, so the typed view may keep one value per key |
| `MetadataMatcher.FilterText` | common/metadata_utils.py:88-172 | on the text view exactly the documents with a satisfying value, although the operand is normalized again for each entry |
| `MetadataMatcher.FilterTyped` | common/metadata_utils.py:88-97 | on the typed view exactly the documents with a satisfying value |
| `MetadataMatcher.Match` | common/metadata_utils.py:174-194 | conjunction with early return, or disjunction, of the conditions |
| `MetadataMatcher.ValidMetadataConditions` | common/metadata_utils.py:63-74 | true exactly when every list operand holds finite scalars only, every other membership operand is a text, and no operand is a number that is not finite |
| `MetadataMatcher.MetaFilter` | common/metadata_utils.py:199-203 | unusable operands select nothing |
| `MetadataMatcher.FilterAggregate` | common/metadata_utils.py:199-203 | the aggregated index selects exactly the matching documents |
| `MetadataMatcher.StreamMatches` | common/metadata_utils.py:466-485 | streaming selects exactly the matching documents, each once |
| `MetadataEngine.SplitDocument` | common/metadata_utils.py:448-485 | two rows with one id: a conjunction holds in the aggregate and in no row |
| `MetadataEngine.StreamWithinAggregate` | common/metadata_utils.py:466-485 | whatever the ids, the stream selects nothing that the aggregate does not |
| `MetadataPushdown.BuildInfinityFilter` | common/metadata_infinity_filter.py:29-53 | the compiled query, clause by clause; an unprovable clause is skipped in a conjunction and drops all clauses of a disjunction |
| `MetadataElastic.BuildMetaFilterQuery` | common/metadata_es_filter.py:16-34 | compiled if and only if metadata is indexed, the logic is known and every field is a literal path with a lossless scalar mapping |
| `MetadataPushdown.MembershipSplits` | common/metadata_infinity_filter.py:45-51 | exact membership in booleans and numbers is JSON containment or a nested list all of whose members belong |
| `MetadataPushdown.InfinityIsLossless` | common/metadata_infinity_filter.py:29-53 | every matching document in scope with flat values satisfies the query, under both logics |
| `MetadataElastic.ElasticIsLossless` | common/metadata_es_filter.py:16-34 | a mapping that is not refused puts every scalar of its fields into the index, so every matching document in scope with flat values is selected |
| `MetadataPushdown.CandidatesSuffice` | common/metadata_infinity_filter.py:29-53 | a query that leaves out no matching document may be applied first |
| `MetadataPushdown.InfinityLosesExactly` | common/metadata_infinity_filter.py:29-53 | whatever the values: a matching document in scope is lost exactly when a condition holds only through a nested list, for a conjunction, or no clause holds, for a disjunction |
| `MetadataPushdown.InfinityThenExact` | common/metadata_infinity_filter.py:29-53 | candidates then exact match give exactly the matching documents that are not lost |
| `MetadataPushdown.InfinityIsScan` | common/metadata_infinity_filter.py:29-53 | with flat values that is a full scan of the scope |
| `MetadataElastic.ElasticLosesExactly` | common/metadata_es_filter.py:16-34 | whatever the values: a matching document in scope is lost exactly when no scalar of a field, or of all fields for a disjunction, is indexed |
| `MetadataElastic.ElasticThenExact` | common/metadata_es_filter.py:16-34 | candidates then exact match give exactly the matching documents that are not lost |
| `MetadataElastic.ElasticIsScan` | common/metadata_es_filter.py:16-34 | with flat values and a mapping that is not refused that is a full scan of the scope |
| `MetadataElastic.NestedListIsUnindexed` | common/metadata_es_filter.py:30 | whatever is indexed, the same document is not selected by the Elasticsearch query |
| `MetadataPushdown.NestedListIsMissed` | common/metadata_infinity_filter.py:45-51 | a list with an empty list matches exactly and the query does not select it |
| `MetadataEngine.FilterInfinity` | api/db/services/doc_metadata_service.py:300-316 | end to end: exactly the matching documents in scope that are not lost, all of them with flat values, or an error exactly for a bad logic or scope |
| `MetadataEngine.FilterElastic` | api/db/services/doc_metadata_service.py:300-316 | end to end with the fallback to the scope: exactly the matching documents that are not lost, all of them with flat values or the fallback |
| `McpBridge.LegacyBridge.Elicit` | common/mcp_tool_call_conn.py:309-356 | only the first form is ever paused or counted as answered; without a stored guard it is paused if and only if the request for exactly this guard is valid and the host accepts it; with one it is answered if and only if it is the stored guard with a stored answer that validates |
| `McpBridge.LegacyBridge.Serve` | common/mcp_tool_call_conn.py:309-365 | a first call pauses if and only if a form is asked, the request for the first one is valid and the host accepts it, with the receipt for exactly that request, and otherwise delivers; a resumed call delivers if and only if exactly the stored guard was asked again first, and it was answered once with the stored response, unless that does not validate |
| `McpSession.IssuedIsValid` | common/mcp_tool_call_conn.py:876-918 | an issued request is valid, has no side effect, and carries tenant, user, identity, agent, call, round, fence, schema and policy of the attempt; its deadline is the stored one, or now plus the time to live |
| `McpSession.IssuedAsks` | common/mcp_tool_call_conn.py:876-918 | an issued request has exactly the inputs and the state that were asked for |
| `McpSession.FollowUpKeepsCall` | common/mcp_tool_call_conn.py:889-918 | a follow-up keeps call, digest, interaction, deadline, resumed revision and fence if and only if the credential is for the stored resource |
| `McpSession.Session.CallRemote` | common/mcp_tool_call_conn.py:613-700 | a bridged first call is stopped if and only if the host accepts the valid request for its first form, which is the one handed over; a bridged resume goes on if and only if the stored guard was asked again |
| `McpSession.Session.CallTool` | common/mcp_tool_call_conn.py:715-868 | a guard of a first call is handed to the host before the reply counts; when the bridge lets the reply through: the text is delivered exactly when nothing is asked for, a broken envelope fails, a missing host is reported, and otherwise the request for exactly the questions asked is handed to the host, if and only if it is valid and accepted |
| `McpSession.Session.ResumeToolCall` | common/mcp_tool_call_conn.py:1007-1032 | a wrong binding fails before any call; when the stored call goes through, it delivers, fails, reports a missing host or pauses exactly as a call does; a new pause follows up the resumed one; a bridged result only after the stored guard |
| `McpRounds.ReopenedFollowsUp` | common/mcp_tool_call_conn.py:1007-1032 | a bound session with a credential for its own resource issues a follow-up of the resumed round |
| `McpRounds.OpenedIsFirst` | common/mcp_tool_call_conn.py:876-918 | a fresh call issues a valid first request for exactly the call |
| `McpRounds.RoundsKeepTheCall` | common/mcp_interactions.py:117-229 | from what the sessions issue, over a fresh call and any number of resumes: call, digest, interaction and deadline never change, revisions count up, no side effect |
| `McpRounds.FollowUpsAreFenced` | common/mcp_interactions.py:173-176 | every follow-up carries the revision just resumed and the valid lease fence of the resume |
| `Utf8.WidthIsLeast` | common/string_utils.py:68-70 | the number of bytes is the least whose payload bits hold the code point |
| `Utf8.EncodedForm` | common/string_utils.py:68-70 | lead and continuation bytes have the prescribed markers, and their other bits spell the code point |
| `Utf8.DecodeEncode` | common/string_utils.py:68-75 | strict decoding undoes encoding |
| `Utf8.EncodeDecode` | common/string_utils.py:72-75 | whatever decodes is the encoding of its text |
| `Utf8.PrefixDecodes` | common/string_utils.py:71-77 | a byte prefix decodes if and only if it ends where a code point ends |
| `Utf8.Truncate` | common/string_utils.py:60-78 | the longest prefix whose encoding fits; at most three bytes are dropped one by one; an error exactly for a surrogate and a positive bound |

## Left out

- Embedding arithmetic, similarities, UMAP, fitting of mixture models and linkages, language model and embedding calls, caches and retries in `core/raptor.py`: rankings, labels, scores, probabilities and distances are arbitrary parameters, and what the code does with them is modelled.
- The prototype embeddings of inner Psi nodes: they feed only the ranking and the labelling, which are arbitrary.
- The order in which a dictionary of children is visited when the Psi objects are wired: ids in order are used, and the result does not depend on it.
- Cancellation, timeouts, progress callbacks and logging in all parts.
- Node inputs, component execution and error texts of `workflow_v2/workflow.py`: a component finishes or fails at any time.
- Default and lower-cased port names, duplicate node ids and edges to unknown nodes in `build_graph`.
- The other checks of `workflow_v2/workflow_validator.py` (branches, references, isolated nodes).
- LosesUnlessSole: exact where only plain nodes lead to the predecessors of shared branch targets; behind further branching nodes the predecessors may exclude each other, and the condition is only sufficient.
- RaisesUnlessMerging: exact where only plain nodes lead to the critical joins; otherwise only sufficient, for the same reason.
- NoDeadlock: a component under way counts as able to finish, and cancellation from outside is not modelled.
- The background loop that calls the cleanup, and `start` and `shutdown`, of the state manager.
- The consumer side of subscriber queues: a queue is everything ever put into it. That all queues receive one shared state object is not modelled.
- Comparison operators of metadata filters: their literal coercion carries state between entries, and the code keeps them off the streaming path.
- Tuple operands and unhashable keys of metadata conditions; a key that is not text matches nothing.
- NaN identity: two NaN values count as one key, which no usable operand can tell apart.
- InfinityIsLossless: about flat values; `InfinityLosesExactly` is about all values.
- ElasticIsLossless: about flat values; `ElasticLosesExactly` is about all values.
- SQL quoting, and the removal of duplicate scopes and literals, in the Infinity query text: they do not change its meaning.
- Paging, leases and malformed responses of the search engines.
- MCP transports, threads, TLS, tracing and session shutdown; hashing is an arbitrary function; JSON payloads are canonical texts.
- CallTool: how the delivered text is composed from content items is a parameter.
- The durable interaction store behind the MCP host.
- The rest of the repository: identity, channels, agents, configuration, storage and command line tools.
