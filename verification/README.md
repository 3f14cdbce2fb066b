# Verified model of datafusion-distributed

A Dafny model of the coordinator and planner core of `datafusion-distributed`, which runs
DataFusion physical plans as stages of tasks on many workers. The model follows the code branch by
branch and proves what its documentation, comments and tests promise, for every plan, every run and
every schedule.

| files | what they model |
|---|---|
| `DynamicFilters`, `RegistrySteps`, `Registry` | the coordinator's dynamic filter registry: a class with the registry's fields, each call proved equal to a step function |
| `RegistryInvariant`, `RegistryPreservation`, `RegistryRuns`, `RegistryCatalog`, `RegistrySoundness`, `RegistryTheorems`, `RegistrySeals`, `RegistrySchedules`, `RegistryCalls`, `RegistryReports`, `RegistryForwarding`, `RegistryLimits` | what every call does and keeps, and what therefore holds after every run and in every interleaving, told from the tasks' own calls; runs that show where the promises end |
| `Plans`, `TransformUp`, `ContextTraversal`, `ContextEquivalence`, `TaskCounts`, `StackedCounts` | DataFusion's Continue/Jump/Stop rules, the concurrent bottom-up rewrite, and the traversals that carry task contexts or task counts on an explicit stack |
| `Arithmetic`, `IsolatorUnion`, `Coverage`, `FeedTiling` | splitting a stage's tasks over the children of a union, and what all tasks together visit and open |
| `NetworkBoundaries`, `HeadPartitions`, `PrepareBoundaries`, `Reconstruction`, `StagedPlans` | producer heads and who reads their partitions, boundary preparation, and cutting a plan into stages and putting it back together |
| `InsertBroadcast`, `Bags`, `JoinRows`, `Exchanges`, `BroadcastMeaning` | broadcast insertion, joins and grouped aggregations on bags of rows, exchanges between tasks, and evaluation on one node and over tasks |
| `PartialReduction`, `AggregateStates`, `ReductionMeaning` | partial reduction below shuffles, over any commutative merge of states |
| `TaskSpecialization`, `SpecializedRuns`, `SpecializedNodes`, `FinalReports` | the plan each task is sent, the shared encoding of it, and collecting final reports |

## How to read it

- A plan is a tree of operators; a node is identified by its path from the root. Callbacks are
  functions that pass their own state along, so a statement for every callback covers closures that
  mutate captured variables.
- Where the source walks a hash map, the order is a parameter of the step, and theorems hold for
  every order that covers the map.
- A channel is the sequence of messages sent. Each send finds its own receiver listening or gone, so a
  receiver may go away between any two sends of one call; if it is gone because the query is shutting
  down, the sender notices that the query has finished, which it may also do before any dispatch. A row, as far as predicates go, is the set of atomic predicates that hold of it.
- Runs of the registry keep the order of the coordinator's calls: a task registers, then its sender;
  a stage is sealed after its tasks registered; all producers of a filter are in one stage. Nothing is
  assumed about policies and schemas: the registry rejects what conflicts with a filter's first
  registration, and runs with rejected registrations are covered like all others.
- Any send may fail. Safety, soundness and finality hold after all runs. What a merged filter is
  follows its policy after every run whose seals succeeded, whatever other sends failed, and
  `SpecifiedIffCaughtUp` says for every run exactly when it does. `SealCompletesIffNoDanger` says,
  from the state before a seal, exactly when every walk of it leaves all filters so. Delivery is stated for runs in which
  no send failed, since the coordinator fails the query on the first that does.

## Where the code differs from what one might expect

- The split of tasks over a union's children appends children that were given no slot after their
  siblings, so a task's list need not be in child order. The recursive visit follows the list and the
  stack-based rewrite follows the children, so they can show a callback different sequences. They
  agree if and only if every list reached is in child order (`SameSequenceIffChildOrder`);
  `ChildOrderCanFail` gives the split that breaks it, and lists are in child order whenever every
  child was given a slot (`CountedSplitsAreInChildOrder`). Coverage and tiling hold whatever the
  order.
- The bottom-up traversal with task counts on a stack pops a node's count when its callback runs. The
  signal of a node's last child decides whether the node's own callback runs, so a callback that jumps
  at a last child skips the nodes above it, whose counts stay on the stack for later siblings to be
  given (`JumpMisplacesCounts`); a jump at any other child skips nothing. Every node is given its own
  count, and the stack ends in step, if and only if no node jumps that is its parent's last child
  (`CountsRightIffNoLastChildJumps`). Up to where a callback fails or stops the walk, the same holds of
  the counts given so far (`StackedRecords`). The planner's own callback always continues.
- A filter that is forwarded from the first complete report can depend on the schedule
  (`ForwardingDependsOnSchedule`); unions and intersections do not (`ScheduleIndependence`). All
  reorderings of the same calls forward the same filter if and only if the producers' first complete
  reports of it agree up to generation (`ForwardingAgreesIff`), as for the equal build sides of a
  collect-left join.
- A seal that fails on a closed channel returns before it has remerged every filter
  (`FailedSendLeavesFilterUnmerged`); no other failed call leaves a merge behind. Every walk of a seal
  leaves all filters as specified if and only if there are no two filters to complete, one of which has
  a connected consumer that does not produce it and whose channel may be found closed
  (`SealCompletesIffNoDanger`).
- Inserting a producer head replaces one existing head only, and a coalesce boundary strips a head
  each time its head is inserted. A plan with one head on top of another under a coalesce boundary
  therefore loses one when it is prepared and the other when it is reconstructed
  (`StackedHeadIsLost`). The round trip is exact if and only if the plan handed in has no such pair
  (`StagedRoundTrip`).
- The static coordinator keeps its base plan and never reconstructs it; only the dynamic coordinator
  reconstructs, from stages it stored with a sampler under each head (`DynamicRoundTrip`).
  `StagedRoundTrip` is about the passes as such: preparing, sending and reconstructing.

## Model

| member | source | states |
|---|---|---|
| `DynamicFilters.SortedKeys` | src/coordinator/dynamic_filter_registry.rs:279-343 | reports are merged in ascending key order, each reporting task exactly once |
| `DynamicFilters.KeysAscend` | src/coordinator/dynamic_filter_registry.rs:304-310 | that order is by stage and then by task |
| `DynamicFilters.MergedPredicateMeaning` | src/coordinator/dynamic_filter_registry.rs:393-415 | a union lets a row through exactly if some reporting producer does, an intersection exactly if all do |
| `Registry.DynamicFilterRegistry.RegisterTask` | src/coordinator/dynamic_filter_registry.rs:105-190 | the call leaves exactly the state and outcome of the register step, including both conflict errors and what they leave behind |
| `Registry.DynamicFilterRegistry.RegisterSender` | src/coordinator/dynamic_filter_registry.rs:192-205 | connecting a task forgets its deliveries and sends it every merged filter, for any walk order and whatever receiver each send finds, stopping at a closed channel |
| `Registry.DynamicFilterRegistry.SealStage` | src/coordinator/dynamic_filter_registry.rs:208-218 | sealing remerges and forwards every filter, for any walk order and whatever receiver each send finds, stopping at a closed channel |
| `Registry.DynamicFilterRegistry.RecordUpdate` | src/coordinator/dynamic_filter_registry.rs:221-275 | every rejected report leaves the state alone with its own error; an accepted one is stored, merged and forwarded |
| `Registry.DynamicFilterRegistry.Dispatch` | src/coordinator/dynamic_filter_registry.rs:347-388 | sends the merged filter to exactly the connected consumers that neither produce it nor have it, in any order, each send finding its receiver there or gone; a closed channel is an error unless the query is seen to have finished |
| `RegistryInvariant.MergeIsExact` | src/coordinator/dynamic_filter_registry.rs:279-343 | recomputing a merge after one new report or a seal restores the policy's specification |
| `RegistryRuns.StepKeepsInv` | src/coordinator/dynamic_filter_registry.rs:105-388 | every call made in the coordinator's order, successful, rejected or failing on a closed channel, keeps the registry's invariant |
| `RegistryPreservation.DisagreementIsRejected` | src/coordinator/dynamic_filter_registry.rs:161-180 | a producer whose policy or schema differs from the filter's first registration is rejected with the matching error and leaves no trace |
| `RegistryCatalog.OrderedIsGuarded` | src/coordinator/dynamic_filter_registry.rs:105-190 | any run in the callers' order meets every step's guard, with each filter's policy and schema read off its first registration |
| `RegistryTheorems.MergedFilterIsSpecified` | src/coordinator/dynamic_filter_registry.rs:262-343 | after every run whose seals succeeded, whatever other sends failed and whatever was rejected, a union is merged exactly when all producers are sealed and complete and is the key-ordered OR, an intersection is the key-ordered AND of current reports, and a forwarded filter is there exactly when a producer has reported, complete and with generation zero |
| `RegistryTheorems.SpecifiedIffCaughtUp` | src/coordinator/dynamic_filter_registry.rs:208-343 | after any run at all, a merged filter is what its policy says if and only if it is complete once all its producers are sealed and complete |
| `RegistrySeals.WalkCompletes` | src/coordinator/dynamic_filter_registry.rs:208-218 | a walk that succeeds completes every filter it visits, and no walk takes a completion away |
| `RegistrySeals.SealCompletesIffNoDanger` | src/coordinator/dynamic_filter_registry.rs:208-218 | from the state before a seal and the channels that may be found closed: every walk of the seal leaves all merged filters as specified if and only if the query has finished or there are no two filters to complete, one of them with a connected consumer, not a producer of it, on such a channel |
| `RegistryReports.StoredIsOwnReport` | src/coordinator/dynamic_filter_registry.rs:221-275 | after any run, what a task has stored is told from its own calls: for an intersection its last well-formed report since it registered, up to and including its first complete one; otherwise its first complete one; and it is a producer exactly if a registration of it was admitted |
| `RegistryReports.MergedIsPromised` | src/coordinator/dynamic_filter_registry.rs:105-343 | after every run whose seals succeeded, over the calls alone: a union is there exactly if every producer is sealed and has reported completely, and lets through what some counted report does; an intersection is there from the first report on, lets through what all counted reports do and is complete exactly if all producers are; a forwarded filter is some producer's first complete report |
| `RegistryReports.ConsumersAreRegistered` | src/coordinator/dynamic_filter_registry.rs:181-190 | after any run, a filter's consumers are exactly the tasks with an accepted registration that names it |
| `RegistryCalls.RejectedReports` | src/coordinator/dynamic_filter_registry.rs:221-261 | exactly when a report is rejected with each of the five errors, and that a rejected one changes nothing |
| `RegistryCalls.IgnoredReports` | src/coordinator/dynamic_filter_registry.rs:262-269 | a report after the task's complete one, a repeated one and an incomplete one where only complete ones count are taken without effect |
| `RegistryCalls.NothingSentAfterFinish` | src/coordinator/dynamic_filter_registry.rs:347-350 | once the query has finished no call sends anything or reports a closed channel |
| `RegistryCalls.DispatchSends` | src/coordinator/dynamic_filter_registry.rs:347-388 | a dispatch sends the merged filter, once, to exactly the consumers it reaches: connected, not producing it, not yet sent it, listening, and before the first such consumer whose receiver is gone; it fails exactly if that one went away while the query runs |
| `RegistryTheorems.ForwardedIsFirst` | src/coordinator/dynamic_filter_registry.rs:279-343 | after any run a forwarded filter is the first report ever accepted, and there is none before that |
| `RegistryTheorems.MissingSchemaUnreachable` | src/coordinator/dynamic_filter_registry.rs:354-361 | no call of any run finds a merged filter without policy, schema or encoding |
| `RegistryTheorems.ConflictsAreReported` | src/coordinator/dynamic_filter_registry.rs:161-180 | in any run a registration succeeds if and only if every producer in it has the schema its filter is registered with afterwards and a node of that policy (collect-left joins forward, sorts and aggregates intersect, all others unite), and otherwise reports a conflict and no other error |
| `RegistryTheorems.Delivery` | src/coordinator/dynamic_filter_registry.rs:347-388 | on every channel generations per filter strictly increase and producers are never sent their own filter; in runs without failed sends, while the query runs, every connected consumer has last been sent the current merged filter |
| `RegistryTheorems.SentFiltersAreSound` | src/coordinator/dynamic_filter_registry.rs:262-343 | every filter ever sent accepts the rows its policy promises relative to the accepted reports, in all runs including failed sends |
| `RegistryTheorems.SentIntersectionsTighten` | src/coordinator/dynamic_filter_registry.rs:262-343 | if producers only tighten, so do the intersections sent on any channel |
| `RegistryTheorems.CompletedMergeIsFinal` | src/coordinator/dynamic_filter_registry.rs:279-343 | a completed merged filter never changes, whatever calls follow in whatever order |
| `RegistrySchedules.ScheduleIndependence` | src/coordinator/dynamic_filter_registry.rs:208-343 | two interleavings of the same calls that settle on the same policies end with the same union, and with the same predicate and completion of an intersection, whatever sends outside seals failed |
| `RegistrySchedules.AgreeingRunsHaveSamePolicies` | src/coordinator/dynamic_filter_registry.rs:161-180 | if the registrations agree on policies, all their runs settle on the same ones |
| `RegistrySchedules.ForwardedIffSameFirst` | src/coordinator/dynamic_filter_registry.rs:279-343 | any two runs forward the same filter if and only if their first accepted reports agree up to generation |
| `RegistrySchedules.ForwardingOfOneReport` | src/coordinator/dynamic_filter_registry.rs:112-130 | if all complete reports of a filter agree up to generation, every interleaving forwards the same filter |
| `RegistryForwarding.ForwardsFirst` | src/coordinator/dynamic_filter_registry.rs:221-343 | where registrations agree, every run forwards the first complete report of some task that registered as a producer, and nothing exactly if there is no such report |
| `RegistryForwarding.OwnIsForwarded` | src/coordinator/dynamic_filter_registry.rs:221-343 | each producer's first complete report is forwarded by some reordering of the same calls, in the callers' order |
| `RegistryForwarding.ForwardingAgreesIff` | src/coordinator/dynamic_filter_registry.rs:221-343 | where registrations agree, all reorderings that keep each caller's own order forward the same filter if and only if the producers' first complete reports of it agree up to generation |
| `RegistryLimits.ForwardingDependsOnSchedule` | src/coordinator/dynamic_filter_registry.rs:279-343 | two interleavings of the same calls, both in the callers' order and without failures, forward different filters |
| `RegistryLimits.FailedSendLeavesFilterUnmerged` | src/coordinator/dynamic_filter_registry.rs:208-218 | a closed channel makes a seal stop before a filter that is due, which then stays unmerged |
| `RegistryLimits.WaitingIsReached` | src/coordinator/query_coordinator.rs:170-173 | the state of that seal is reached by calls in the callers' order, none of which fails |
| `TransformUp.PollKeepsOutcome` | src/common/recursion.rs:134-174 | no poll of any future changes the result the whole rewrite is bound to have |
| `TransformUp.UpRules` | src/common/recursion.rs:134-174 | over the children's own results: children after a Stop stay as they were, and the parent is called exactly if its last rewritten child said Continue or it has none; otherwise that child's Jump or Stop is passed on |
| `TransformUp.ConcurrentEqualsSequential` | src/common/recursion.rs:13-33 | under every schedule the concurrent rewrite returns the plan, changed flag and signal of the sequential one, with Jump and with Stop discarding later siblings |
| `TransformUp.PollsFinish` | src/common/recursion.rs:134-174 | an unfinished rewrite can always be polled and every poll leaves less to do |
| `ContextTraversal.StackWalker.Visit` | src/common/recursion.rs:245-276 | one callback pops the node's context and pushes exactly its children's, or nothing after Jump, Stop or a boundary |
| `ContextTraversal.StackWalker.PickContexts` | src/common/recursion.rs:266-271 | the loop over a task's entries gives each child the context of its last entry, and none to unlisted children |
| `ContextTraversal.StackWalker.TransformDown` | src/common/recursion.rs:233-277 | the explicit-stack rewrite computes the plain recursion with contexts passed down, never underflows, and takes exactly the node's own context off unless stopped |
| `ContextEquivalence.DownMatchesApply` | src/common/recursion.rs:176-277 | on plans listed in child order every structure-keeping callback, with any state and signals, sees the same nodes and contexts in both traversals and ends alike |
| `ContextEquivalence.SameSequenceIffChildOrder` | src/common/recursion.rs:176-277 | both traversals show the same sequence if and only if every isolator list reached is in child order |
| `ContextEquivalence.ChildOrderCanFail` | src/execution_plans/children_isolator_union.rs:692-708 | the split of estimates 0 and 1 over one task gives counts 0 and 1 and lists child 1 before child 0 |
| `ContextEquivalence.CountedSplitsAreInChildOrder` | src/execution_plans/children_isolator_union.rs:662-675 | if every child was given a slot, every task's list is in child order |
| `StackedCounts.UpWalker.TransformDownUp` | src/common/recursion.rs:279-304 | for every callback, whatever it changes, signals or fails at, the bottom-up stack traversal is the recursion over plan, stack and signals, and no pop finds the stack empty |
| `StackedCounts.StackedIsUp` | src/common/recursion.rs:279-304 | with a callback that always continues, keeping counts on the stack does what passing each node its count would, and the stack ends as it began without the node's count |
| `StackedCounts.StackedRecords` | src/common/recursion.rs:279-304 | a callback that jumps at no last child is given the counts of the original plan in post-order up to where it fails or stops, and the stack is in step wherever the walk goes on |
| `StackedCounts.CountsRightIffNoLastChildJumps` | src/common/recursion.rs:279-304 | for every callback and every plan, a walk that neither fails nor stops gives each node its own count in post-order, and leaves the stack in step, if and only if no node below the root is its parent's last child and jumps |
| `StackedCounts.JumpMisplacesCounts` | src/common/recursion.rs:279-304 | a callback that jumps at a leaf leaves the counts of the skipped nodes above it on the stack, and the next sibling is given one of them |
| `TaskCounts.DownWalker.TransformDownUp` | src/common/recursion.rs:306-333 | the top-down stack traversal computes the recursion with counts read off the rewritten nodes, although it may grow the tree, and its stack ends likewise |
| `TaskCounts.UpRecords` | src/common/recursion.rs:279-304 | whatever a callback does to the nodes, it is given the counts of the original plan in post-order |
| `TaskCounts.UpCountsAreInherited` | src/common/recursion.rs:279-304 | the recorded visits are every node of the plan exactly once, each with the count found by walking down from the root: isolator child count, producer stage count, or the parent's |
| `TaskCounts.CountsAreInherited` | src/common/recursion.rs:279-333 | a node's count comes from its parent: the largest count an isolator lists for the child, the task count of the stage below any kind of boundary, or the parent's own |
| `TaskCounts.DownCountsAreInherited` | src/common/recursion.rs:306-333 | a callback that never cuts the walk short visits every node of the rewritten plan exactly once, with the count that walking down the rewritten plan gives it |
| `IsolatorUnion.RoundShares` | src/execution_plans/children_isolator_union.rs:539-561 | shares are rounded by largest remainder: floors, plus one for exactly the children with the largest fractions, lower index on ties |
| `IsolatorUnion.Neediest` | src/execution_plans/children_isolator_union.rs:609-632 | the chosen child is furthest below its share among those that may grow, lower index on ties, and none is chosen exactly if none may grow |
| `IsolatorUnion.FillUnused` | src/execution_plans/children_isolator_union.rs:609-632 | unused slots go one by one to the neediest child, lower index on ties, until they are used up or no child may grow |
| `IsolatorUnion.PlacementIsExact` | src/execution_plans/children_isolator_union.rs:662-708 | every context of every child is given to exactly one task, children without a slot run once, and no task runs a child twice |
| `IsolatorUnion.SplitChildren` | src/execution_plans/children_isolator_union.rs:400-710 | fails exactly on a degenerate union, a negative estimate or a least count above the budget; otherwise the routing is exact, counts are the apportionment of the estimates, respect every restriction (exact: n; at least: n or more; at most: n or fewer; a range: from its bottom to its top, or its top if it is empty), and slots stay unused only if no child may grow |
| `IsolatorUnion.ApportionmentIsUnique` | src/execution_plans/children_isolator_union.rs:488-632 | estimates, restrictions and budget determine the counts, within every restriction: fair shares, largest remainders, the nearest allowed count and filling leave no freedom |
| `IsolatorUnion.OnlySharesAreFair` | src/execution_plans/children_isolator_union.rs:488-521 | the shares are the only ones in proportion to the estimates that use up the budget; without estimates, the only equal parts of what exact children leave |
| `IsolatorUnion.ClampedIsNearest` | src/execution_plans/children_isolator_union.rs:563-592 | imposing a restriction moves a count to the nearest one the restriction allows |
| `IsolatorUnion.PlacedInTurn` | src/execution_plans/children_isolator_union.rs:662-675 | contexts are placed child by child in consecutive tasks, wrapping at the budget |
| `IsolatorUnion.ZeroPlacedInTurn` | src/execution_plans/children_isolator_union.rs:692-708 | children without a slot run once each, in turn over the tasks in use |
| `IsolatorUnion.PlacedIsRouted` | src/execution_plans/children_isolator_union.rs:173-183 | the child counts read back from a task map are the counts that were placed |
| `Coverage.WellPlacedFits` | src/common/recursion.rs:176-205 | no task of a well-placed stage misses a list or a child at any depth |
| `Coverage.CoverageIsExact` | src/common/recursion.rs:176-205 | the visits of all tasks, through arbitrarily nested isolators, are each node of the stage once for each index below its effective task count |
| `FeedTiling.ExactlyOnce` | src/common/recursion.rs:176-333 | a node is shown in a context exactly once if the context counts the node's effective tasks and indexes one of them, and never otherwise |
| `FeedTiling.EffectiveCountIsHandedDown` | src/common/recursion.rs:279-304 | within the stage, a node's effective task count is the one the task-count traversals hand to it |
| `FeedTiling.FeedsTile` | src/coordinator/query_coordinator.rs:422-465 | each feed index below partitions times effective tasks is opened by exactly one task into exactly one partition, and no other is opened |
| `HeadPartitions.HeadServes` | src/execution_plans/common.rs:20-98 | a boundary asks for exactly the head that serves it, and fails exactly if none can: a direct shuffle keeps the way of partitioning and its keys, a two-phase one adds the salt, and in every producer task each of the head's partitions is read by exactly one partition of one consumer task and no other is asked for |
| `HeadPartitions.TilesIff` | src/execution_plans/network_shuffle.rs:341-372 | as consumers read them, the partitions tile exactly if there are as many as partitions per consumer times consumer tasks, one per task for ranges and two-phase shuffles |
| `PrepareBoundaries.PrepareNetworkBoundaries` | src/distributed_planner/prepare_network_boundaries.rs:14-56 | the pass is the bottom-up traversal from the coordinator's one task with stage numbers from one |
| `PrepareBoundaries.UpPrepares` | src/distributed_planner/prepare_network_boundaries.rs:21-52 | on every subtree, whatever its task count and the next number, the pass gives the tree of operators and task counts that dropping trivial boundaries and one head per boundary gives, leaves no trivial boundary, and numbers without gaps |
| `PrepareBoundaries.PreparationIsFaithful` | src/distributed_planner/prepare_network_boundaries.rs:14-56 | exactly the one-to-one boundaries disappear; the tree of all other operators and their recomputed task counts stays, stacked heads included; heads serve their boundaries, their partitions tiling the consumer tasks; stages belong to the query and are numbered 1 to k, each above those nested in its input |
| `PrepareBoundaries.PreparesIffPreparable` | src/distributed_planner/prepare_network_boundaries.rs:14-56 | the pass succeeds if and only if every boundary that survives can have its head: a range is fine enough for the consumer tasks, a partitioning to be salted is a hash, and what is broadcast has partitions |
| `PrepareBoundaries.HeadedInputIs` | src/distributed_planner/network_boundary.rs:92-119 | inserting a head replaces exactly one repartition or broadcast at the top, changes nothing under it and no stage number, and gives the boundary a head that serves it |
| `Reconstruction.ReconstructProgresses` | src/coordinator/prepare_dynamic_plan.rs:183-211 | reconstruction ends although it grows the tree: each growth uses up a collected stage |
| `Reconstruction.PlanReconstructor.Insert` | src/coordinator/prepare_dynamic_plan.rs:179-181 | the stage's plan is added, replacing an earlier one of that number |
| `Reconstruction.PlanReconstructor.Reconstruct` | src/coordinator/prepare_dynamic_plan.rs:183-211 | the walk's plan or failure is returned and its leftover entries stay in the map |
| `Reconstruction.NothingStaysRemote` | src/coordinator/prepare_dynamic_plan.rs:183-211 | whatever was collected, a successful reconstruction leaves no remote stage and only takes entries away |
| `Reconstruction.CutThenReconstruct` | src/coordinator/prepare_dynamic_plan.rs:163-211 | cutting a plan at its boundaries and reconstructing it, in any larger map, gives it back with heads normalised, fails exactly if a head cannot be built, and removes exactly its own stages |
| `Reconstruction.RoundTrip` | src/coordinator/prepare_dynamic_plan.rs:163-211 | from exactly the plan's own stages the map ends empty and the plan all local |
| `StagedPlans.SendingCuts` | src/coordinator/prepare_static_plan.rs:28-67 | sending every stage turns the plan into the one cut at all boundaries |
| `StagedPlans.StagesAreNumbered` | src/distributed_planner/prepare_network_boundaries.rs:14-56 | the stages a plan is cut into are exactly the numbered ones |
| `StagedPlans.StagedRoundTrip` | src/coordinator/prepare_dynamic_plan.rs:183-211 | preparing, sending under any concurrent schedule and reconstructing gives exactly the prepared plan if and only if the plan handed in has no two heads on top of each other under a surviving coalesce boundary; every stage is used |
| `StagedPlans.NormalIffBare` | src/distributed_planner/network_boundary.rs:92-119 | a prepared plan is what reconstruction gives back if and only if no coalesce boundary has a head left under it |
| `StagedPlans.UpHeads` | src/distributed_planner/prepare_network_boundaries.rs:21-52 | which heads the prepared plan has under its coalesces can be read off the plan handed in |
| `StagedPlans.StackedHeadIsLost` | src/distributed_planner/network_boundary.rs:92-119 | a coalesce over two stacked repartitions loses one when prepared and the other when reconstructed |
| `StagedPlans.SampledSamples` | src/distributed_planner/network_boundary.rs:121-139 | the plan the dynamic coordinator runs has a sampler right below each repartition or broadcast that a boundary reads, and nothing else is added |
| `StagedPlans.DynamicRoundTrip` | src/coordinator/prepare_dynamic_plan.rs:86-211 | from the stages the dynamic coordinator stored, each cut below and with its sampler, reconstruction gives the plan as it was run with heads normalised, fails exactly if a head cannot be built, and uses every stage |
| `InsertBroadcast.BuildWeighs` | src/distributed_planner/insert_broadcast.rs:127-158 | the top-down pass ends although it inserts nodes on its way |
| `InsertBroadcast.InsertIsIdempotent` | src/distributed_planner/insert_broadcast.rs:127-166 | a second run changes nothing, on every plan with nested joins, existing broadcasts and limits anywhere |
| `JoinRows.SafeIffSplits` | src/distributed_planner/insert_broadcast.rs:181-190 | a join type distributes over slices of the probe side, for all rows and conditions, if and only if the pass accepts it |
| `JoinRows.UnsafeDoesNotSplit` | src/distributed_planner/insert_broadcast.rs:65-114 | each rejected type has a build row that two tasks both report |
| `Exchanges.JoinsApartIffMeet` | src/execution_plans/network_shuffle.rs:39-123 | whatever the join type, if missing rows match nothing, joining in each task what two exchanges sent there gives the one join of all rows, for all rows, if and only if matching rows are sent to the same task |
| `Exchanges.ExchangedFinal` | src/execution_plans/network_shuffle.rs:39-123 | final aggregation task by task, after states were exchanged by group, gives what final aggregation of all states in one place does |
| `BroadcastMeaning.BroadcastIffSplits` | src/distributed_planner/insert_broadcast.rs:127-190 | over every join: after the pass the build side gathers a broadcast exactly if it did before, or the join is a cross join or a collect-left or nested-loop join whose rows split over probe slices for all bags and conditions; what is broadcast is the rewritten build input |
| `BroadcastMeaning.SameOnOneNode` | src/distributed_planner/insert_broadcast.rs:118-166 | on one node the rewritten plan computes what the original does, for every plan and any meaning of the other operators |
| `BroadcastMeaning.BroadcastPreservesMeaning` | src/distributed_planner/insert_broadcast.rs:118-179 | run by any number of tasks over any slicing, any routing of exchanged rows and any task counts of the gathered stages, the rewritten plan emits exactly the rows of the original on one node: broadcast joins, partitioned joins of all types, two-step grouped aggregations and limits included |
| `PartialReduction.ReduceUnfolds` | src/distributed_planner/partial_reduce_below_network_shuffles.rs:25-103 | the traversal is the rewrite of all children and then of the node, and reports every change |
| `PartialReduction.ReductionIsExact` | src/distributed_planner/partial_reduce_below_network_shuffles.rs:25-103 | the result is the plan with a reduction of the same aggregates above every hash repartition of partial aggregates that a boundary reads directly, and nothing else |
| `PartialReduction.ReductionIsIdempotent` | src/distributed_planner/partial_reduce_below_network_shuffles.rs:25-103 | a second run of the pass changes nothing |
| `AggregateStates.ReducedHasSameStates` | src/distributed_planner/partial_reduce_below_network_shuffles.rs:85-94 | merging states per key leaves every key's merged state and the set of keys as they were |
| `AggregateStates.SameStatesKept` | src/distributed_planner/inject_network_boundaries.rs:510-541 | repartitioning by key carries keys and merged states along |
| `ReductionMeaning.ReductionPreservesResults` | src/distributed_planner/partial_reduce_below_network_shuffles.rs:14-104 | for any commutative merge and any partitioning, the whole rewritten plan computes the same; where reduced states pass through boundaries, coalesces and repartitions by key, in every partition the same keys arrive with the same merged states |
| `ReductionMeaning.TwoPhaseIsCovered` | src/distributed_planner/inject_network_boundaries.rs:510-541 | the planner's two-phase shuffle, a salted hash below the boundary and a repartition above it, is reduced and covered |
| `TaskSpecialization.Specialize` | src/coordinator/query_coordinator.rs:491-564 | the plan and notes of a task are those of the context-carrying walk |
| `TaskSpecialization.TasksAgree` | src/coordinator/query_coordinator.rs:491-564 | all tasks report the same dependence, that of any feed, isolator or distributed leaf in the stage, and if there is none they get equal plans |
| `TaskSpecialization.StageCoordinator.Dial` | src/coordinator/query_coordinator.rs:218-250 | dialled in any order, repeatedly, locally or remotely, a task gets the encoding of its own plan, fails only if that cannot be encoded, and remote tasks share one encoding exactly if nothing depends on the task |
| `SpecializedRuns.SpecializedRunsTheSame` | src/coordinator/query_coordinator.rs:487-564 | a task running its trimmed plan visits the same nodes in the same contexts as on the whole stage |
| `SpecializedNodes.ReachedBecomes` | src/coordinator/query_coordinator.rs:506-547 | each node a task reaches: a distributed leaf becomes the scan of the variant of the leaf's own context, a feed is served remotely, every other node keeps its operator and its number of inputs |
| `SpecializedNodes.UnlistedIsEmpty` | src/coordinator/query_coordinator.rs:528-532 | an isolator's child the task does not run becomes a placeholder |
| `SpecializedNodes.FeedsAreNoted` | src/coordinator/query_coordinator.rs:508-513 | the feeds a task is served are exactly the feeds it reaches, with their partition counts |
| `SpecializedNodes.ReachedIsVisited` | src/common/recursion.rs:176-205 | the context in which a task reaches a node is the one it visits it in, once |
| `SpecializedNodes.VariantsAreDealt` | src/execution_plans/distributed_leaf.rs:140-150 | over all tasks of a well-placed stage, the tables scanned where a leaf with one variant per task stood are exactly its variants |
| `FinalReports.Store.Insert` | src/coordinator/store.rs:24-28 | the entry is set and one insertion is recorded |
| `FinalReports.ReadMessages` | src/coordinator/query_coordinator.rs:334-358 | reading a worker's stream passes on, in order, the final reports and runtime updates before the first error, the first update nobody takes or the end, and reports an error exactly if it met one |
| `FinalReports.CollectReports` | src/coordinator/query_coordinator.rs:381-404 | whatever reports arrive, each enabled store gets exactly one insertion for the task, its first report of that kind or the default, which is what the task's own steps of the interleaving machine insert |
| `FinalReports.MessagesAreSorted` | src/coordinator/query_coordinator.rs:334-358 | final reports and runtime updates make up all messages read, and each is passed on at the place the messages of its kind before it give it |
| `FinalReports.FirstIsReported` | src/coordinator/query_coordinator.rs:381-404 | what a store is given is the first report of its kind, and the default if there is none |
| `FinalReports.TaskKeysAreStageTasks` | src/coordinator/store.rs:44-60 | the keys waited for are exactly the tasks of the stages feeding some boundary at any depth |
| `FinalReports.StepKeepsInv` | src/coordinator/query_coordinator.rs:381-404 | every step of any loop keeps, for every task, what is inserted plus what is still owed equal to one report |
| `FinalReports.ExactlyOneReport` | src/coordinator/query_coordinator.rs:329-404 | however the loops interleave, once all ended the store was given exactly one value per task, and a wait for a plan's keys is satisfied |

## Left out

- Query ids in task keys: a registry, a store and a coordinator serve one query, so a key is a stage and a task.
- Floating point: the union split works on reals, so rounding of its shares to 64-bit floats is not modelled; `usize` arithmetic does not overflow in the model.
- IsolatorUnion.SplitChildren: estimates are finite and non-negative reals; infinities and NaN are not modelled.
- ContextTraversal.StackWalker.TransformDown: callbacks that return an error are not modelled for the context traversals, and callbacks must not grow a subtree, as specialization never does.
- TaskSpecialization.Specialize: a leaf without a variant for the task is kept, where the source indexes out of range and panics (src/execution_plans/distributed_leaf.rs:148-150).
- RegistryForwarding.ForwardingAgreesIff: the plan nodes that produce a filter agree on its policy and schema, as the planner makes them; reorderings of conflicting registrations may settle on different policies.
- TransformUp.ConcurrentEqualsSequential: callbacks that fail are not modelled for the concurrent rewrite; the error returned first depends on the schedule.
- PrepareBoundaries.PreparationIsFaithful: the number of output partitions of a plan is a parameter, since DataFusion computes it.
- PrepareBoundaries.PreparesIffPreparable: that number is taken to depend on the operators of a plan, and not on stage numbers or on the head under a boundary.
- StagedPlans.SendingCuts: prepared plans are all local, so the error the coordinator returns at a boundary that is already remote is not modelled.
- BroadcastMeaning.BroadcastPreservesMeaning: partitioned joins are asked to read repartitions that send matching rows to one task, and grouped aggregations states that are gathered or exchanged by group, as DataFusion plans them; aggregations without groups, sorts and windows are outside the evaluator.
- ReductionMeaning.ReductionPreservesResults: reduced states must reach the final aggregation of the same aggregates through boundaries, coalesces and repartitions by key; the pass itself does not check what is above a boundary.
- The driver-path visit (`apply_driver_path`): only sampling and its statistics use it, and they are left out.
- Sampling and statistics, the cost model, worker choice and retries, metrics, display, configuration, headers and event handlers.
- gRPC, Arrow Flight, Tokio and the codecs: encoding is an arbitrary function of the plan.
- Injecting boundaries and merging task-count annotations in the planner; well-formed stages are a predicate that the union split is proved to meet.
