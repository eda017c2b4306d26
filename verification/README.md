# VizStack: a verified model

VizStack hands out the graphics hardware of a cluster (GPUs, X servers, keyboards, mice,
SLI bridges) to its users, and sets up the X servers that drive it. This project models
the parts where that is hardest to get right, and proves what can be said about them:

- **The allocator.** A request is a list of resources, lists, aggregates and whole nodes,
  each fixed to some degree. It is checked, expanded, planned by greedy first fit on copies
  of the free resources, checked once more, sent to the schedulers, and committed to the
  real table in request order. Planning and committing run in different orders on different
  objects; the central theorem says that a plan which succeeds can be committed
  (`PlanSound.PlanIsSound`). On it rest atomicity, conservation of owners over whole runs,
  safe sharing, and the shape and content of the answer. When planning has to succeed, and
  what it then picks, is said as well: single resources are planned in turn, each getting the
  cheapest that is left (`InTurn.CheapestInTurn`).
- **The tiled display layout.** Loops over rows and columns of GPUs, and over the displays of
  each GPU, add up bezels under four rotations and three bezel modes. The blocks partition
  the wall, the groups formed for Xinerama partition it more coarsely, and the normalized
  areas partition the unit square.
- **The X configuration validator.** A table of ports per GPU is kept beside the list of
  outputs per screen. The validator accepts exactly what a declarative predicate describes,
  and the two records of what it accepts agree.
- **The shared X server.** Clients come and go; an access list with repeated entries decides
  who may connect. The share limit, the access list and the users let in by the X server
  stay in step over whole runs.
- **Codecs.** The tree of elements a server configuration is exchanged as; the two functions
  that expand node lists; the length-prefixed messages.

Code that works by changing things is modelled by methods and classes, proved against
functions on values; the properties are then proved about those functions. The modules are:

| part | files |
|---|---|
| resources, table, runs | `resources` `ledger` `runs` |
| matching and planning (functions) | `suits` `matchers` `capacity` `sorting` `planner` `wholenode` `weights` `wholepick` |
| matching and planning (methods) | `matching_steps` `planning_steps` `placement_steps` |
| who is planned, and what he gets | `placing` `checks` `single` `freelists` `lightest` `inturn` `wholeplan` `usable` `answers` |
| a plan can be committed | `plan_commits` `waiting` `plan_theorem` `plan_sound` `plan_shape` |
| and when it cannot | `lookahead` `spoiling` `lastslots` `spoiled` |
| requests, commit, the allocator object | `requests` `commit` `allocating` `failures` `metascheduler` `configure` |
| tiled display | `spans` `layout` `bezels` `tiled` `display` `positions` |
| X configuration | `xconfig` `xvalidate` `xstored` `xscreens` `xrules` `xsound` |
| shared server | `sharedserver` `sharedlaws` |
| server trees | `xmltree` `serverparts` `servertree` `serverround` `serverrules` `servertags` `serversteady` |
| node lists, messages | `decimal` `nodelist` `nodelists` `framing` |

## Where the code falls short of its intent

The model does what the code does. Where the code does not meet what its comments and
documentation promise, the exact condition or a concrete case is proved:

- The look-ahead for index-only lists (python/metascheduler.py:458-461) is meant to check
  only, but writes what it matches into the caller's own requests
  (python/metascheduler.py:852-853). A plan can then pick one exclusive GPU twice
  (`LookAhead.MixedPlanCannotCommit`), and the allocation fails half way and leaves a
  resource taken (`Allocating.MixedRequestLeaks`). It takes an index-only list beside a host
  for which the first list that waits has two open requests (`Spoiling.SpoilableExactly`).
  Without these the plan is sound, because a look-ahead either fails and writes back what was
  there, or leaves nothing to be placed of that first list, and then the plan itself fails
  (`Waiting.LookForFirst`, `Waiting.DrainedFails`). So requests of single resources and nodes
  are never spoiled (`Spoiling.SinglesNeverSpoil`). For one index-only list beside one list of
  requests for a host that one kind of resource serves alike the condition is exact: the
  request is safe in every cluster exactly if that list has at most one request, and for more
  a cluster is given on which it is planned and its commit refused
  (`Spoiled.SafeEverywhereExactly`).
- A GPU on a node no scheduler manages cannot be given a launcher
  (python/metascheduler.py:743); the name of a requested node is not looked at when a node is
  picked (python/metascheduler.py:583-629) but is when the answer is put together
  (python/vsapi.py:4877-4888). Both fail after resources have been taken:
  `Failures.UnmanagedGpuLeaks`, `Failures.NamedNodeLeaks`. `Allocating.CommitSucceedsExactly`
  says exactly when, in terms of the plan; `Allocating.Fair` is what a caller can check.
- A whole node is handed out by requests made from its own resources, and a GPU that insists on
  scanouts without having any does not match such a request (python/vsapi.py:1398-1409):
  `Failures.UnmatchedGpuFails`. The plan can be committed exactly if the picks for whole nodes
  match: `PlanSound.PlanCommitsExactly`.
- The test whether a node is wholly free compares sums of weights
  (python/metascheduler.py:587-592) and so cannot see a taken resource without weight:
  `WholeNode.WholeTestMeans`, `WholeNode.TakenGpuPassesAsWhole`. If everything has weight, and
  nothing was in use when the weights were summed up, a node picked as whole is whole
  (`WholePick.NodePickIsWhole`).
- First fit loses nothing on requests the same resources can serve
  (`Capacity.FirstFitCompleteForInterchangeable`). On others it can: a pair of exclusive requests
  that could be served is refused exactly if the first resource that accepts the first request
  is the only one that accepts the second, and another would have done for the first
  (`Capacity.PairRefusedExactly`, `Capacity.FirstFitIncompleteForMixed`).
- Requirement lists are not sorted by length: `x is list` (python/metascheduler.py:960) never
  holds, so all lists count as one. The model keeps the order of the request.
- The bounding boxes of groups start from ten million (python/vsapi.py:3883-3884):
  `Display.BoxesPartitionExactly`, `Display.WideBoxesOverlap`.
- Screens are positioned within their group (python/vsapi.py:3824-3838), but blocks are dealt out
  to servers by number (python/vsapi.py:3494-3515). Where groups are neither one row high nor as
  wide as the wall, a server drives two screens at one position:
  `Positions.ScreensApartExactly`, `Positions.OriginTwice`.
- Sums of 32-bit coordinates wrap in the validator (src/vs-generate-xconfig.cpp:1481-1482):
  `XSound.AreasInsideExactly`, `XSound.AcceptedFarOutside`. A screen without GPUs keeps the value
  that stands for "no size": `XSound.ScreenWithoutGpusPasses`, `XSound.SizeDefiniteExactly`. The comment at src/vs-generate-xconfig.cpp:1350
  allows active stereo on equal devices with equal modes; the code still asks for modelines:
  `XSound.SameModeIsNotEnough`. An unknown display device is only found out by its missing
  mode, since an unsigned index is compared with zero (src/vs-generate-xconfig.cpp:1196-1197).
- The share limit of an X server is compared for equality (src/vs-X.cpp:1901), so when a limit
  below the number of clients arrives, users are let in past it:
  `SharedServer.AdmittedPastLimitExactly`, `SharedServer.LoweredLimitAdmits`.
- When the invoking process connects, its connection is written into the first entry of the
  client list, whoever that belongs to by then (src/vs-X.cpp:1893-1897). If its own entry is
  gone its user gets access without an entry: `SharedServer.ParentFitsExactly`,
  `SharedServer.ParentTakesOver`.
- On a desktop the bezels at the edge of the wall are left out of it. On a wall in portrait whose
  blocks have two displays below one another, or in inverted portrait with two side by side, the
  edge is looked for in the wrong direction (python/vsapi.py:3696-3711), and no bezel is left out
  there: `Bezels.WallMeasured`, `Bezels.LeftOutAcross`, `Bezels.LeftOutDown`.
- Passive stereo with remapped outputs is always refused: two outputs are required, and the
  remapping must have as many entries as displays (python/vsapi.py:3295-3299):
  `Layout.PassiveCannotRemap`.
- A range of three or more parts, such as 1-2-3, is passed over in silence by one expander of
  node lists (python/vsutil.py:970-996) and cut off after two parts by the other
  (python/slurmscheduler.py:133-140): `NodeList.AgreeExactly`, `NodeLists.ListsAgreeExactly`.
- A GPU whose element has a server but no index for it is written differently after it has
  been read: `ServerSteady.PrintedTreeSteadyExactly`, `ServerSteady.ServerWithoutIndex`. One
  limit of the framebuffer size without the other is written but cannot be read
  (`ServerRoundTrip.LimitsRead`).
- Freeing a GPU takes the owner off its X server first (python/vsapi.py:1334-1335) and could
  stop half way; in a safe table it does not: `VizResource.Deallocate`.
- Freeing an allocation leaves it listed with nothing in it; freeing it again complains
  (`Metascheduler.Deallocate`).

## Model

| member | source | states |
|---|---|---|
| Resources.BatchOrderIrrelevant | python/vsapi.py:347-394 | Requests that one resource serves in one order it serves in every order, with the same effect |
| Resources.ReplayIffFits | python/vsapi.py:347-394 | A batch is served exactly if all of it matches and it is one exclusive request on an unowned resource, or shared requests within the free share slots |
| Resources.GrowSafe | python/vsapi.py:382-394 | Allocating keeps an exclusive resource at one owner, a shared one within its limit, and a GPU's shared X server with the GPU's owners |
| Resources.ShrinkSafe | python/vsapi.py:396-406 | Freeing an owned resource always finds the owner, of a GPU's X server as well, and keeps sharing safe |
| Resources.RemoveFirstTakesOne | python/vsapi.py:310-319 | Removing an owner takes away one of the user's ownerships and no other |
| Resources.SelfMatch | python/vsapi.py:1384-1413 | A resource matches a request made from itself unless it is a GPU that insists on scanouts without having the capability |
| Suits.MatchMeans | python/vsapi.py:1384-1414 | A resource matches a request exactly if it has the class asked for, the index, host and type as far as given, can be shared if that is asked for, and, for a GPU, is set to scan out and can if scanouts are wanted, is not set to or cannot if none are wanted, and allows stereo if no preference for scanouts is given and stereo is wanted |
| Suits.OwnRequestMeans | python/metascheduler.py:592 | A request made from a resource is for this one, of its type, shared if it is in shared use, and for a GPU with its scanouts and stereo |
| Suits.AllocateMeans | python/vsapi.py:347-394 | It can be had exactly if it matches, and nobody has it or it is in shared use with a slot left for one who shares |
| Suits.WeightRules | python/vsapi.py:436-445 | Rule by rule what adds to the weight of a resource: bias, index, ports, outputs, ten thousand for X server 0, and less by the share slots left |
| Ledger.CommitOrderIrrelevant | python/metascheduler.py:719-744 | Grants that commit in one order commit in every order, to the same table |
| Ledger.CommitByKey | python/metascheduler.py:736-737 | Committing a list of grants succeeds exactly if each resource can serve its own share of them |
| Ledger.FreeFindsOwners | python/metascheduler.py:984-1000 | Freeing keys a user owns often enough finds every owner it removes and keeps the table safe |
| Ledger.RunsConserve | python/metascheduler.py:719-764 | Over every run of commits and frees each user owns a resource as often at first plus through live allocations, and sharing stays safe |
| Ledger.LiveCanBeFreed | python/metascheduler.py:971-1003 | In every reachable state a live allocation can be freed |
| Ledger.FreeingAllRestores | python/metascheduler.py:971-1003 | When all allocations of a run are freed, in whatever order, the table is what it was |
| Matchers.FirstFit | python/metascheduler.py:847-860 | The first resource that can serve a request, and none before it can |
| Matchers.MatchFixedServes | python/metascheduler.py:881-909 | What the matcher of fixed requests takes commits on the real table, and what it leaves is what is then free |
| Matchers.MatchPartlyServes | python/metascheduler.py:790-879 | Requests come back with index and host filled in and nothing else changed; the picks commit on the real table, and every resource is left over in its new state or used up |
| Matchers.TakeMembers | python/metascheduler.py:855-859 | Serving one request changes that resource only, and drops it exactly if it is full |
| Matchers.FixedAndPicked | python/metascheduler.py:798-806 | A matched list consists of its fixed requests and its picks, with nothing lost |
| Capacity.FirstFitCompleteForSame | python/metascheduler.py:826-879 | Equal requests, exclusive or shared, are matched exactly if there are no more of them than free resources or share slots |
| Capacity.FirstFitCompleteForInterchangeable | python/metascheduler.py:826-879 | The same for any requests, all exclusive or all shared, that the same free resources can serve |
| Capacity.PairRefusedExactly | python/metascheduler.py:847-869 | Of two exclusive requests that could be served first fit refuses one exactly if the first resource that accepts the first is the only one that accepts the second, while another accepts the first |
| Capacity.FirstFitIncompleteForMixed | python/metascheduler.py:826-879 | Two different requests can be refused in one order and served in the other |
| Capacity.ServingUsesOneSlot | python/vsapi.py:382-394 | Serving a request uses up exactly one slot of a resource |
| Placing.FixedServedExactly | python/metascheduler.py:881-909 | A node serves fixed requests exactly if all name resources of it that can, in turn, be had |
| Placing.AnywhereDecided | python/metascheduler.py:562-581 | A list without host goes to the first node in order that can serve it; it is refused as the user's error exactly if no node can, and stops as an internal error exactly if a node comes to a request of unknown class first |
| Placing.AnywhereExactly | python/metascheduler.py:562-581 | A list of known classes is placed exactly if some node can serve it |
| Placing.IndexedDecided | python/metascheduler.py:448-487 | An index-only list goes to the first node that can serve it and, in addition, the requests that wait for it; the user's error exactly if there is none |
| Placing.OnHostExactly | python/metascheduler.py:499-531 | A list with a host is placed exactly if something of it is open, and its node, lightest resources first, can serve that |
| Checks.FixedPassesExactly | python/metascheduler.py:261-289 | A fixed request passes the checks exactly if the resource it names exists, is on a usable node, matches it, and has room for it |
| Checks.FixedRefusalMeans | python/metascheduler.py:261-289 | Which error a fixed request is refused with, and why |
| Checks.CheckedInOrder | python/metascheduler.py:261-289 | Of the requests for one resource the first is checked; the first complaint is the answer, and there is none exactly if all checked pass |
| Checks.ValidateMeans | python/metascheduler.py:198-289 | A request is malformed exactly if a list that leaves something open names two hosts, or two fixed requests name one resource and do not both share it |
| Checks.FixedTakenExactly | python/metascheduler.py:325-348 | After the checks, planning starts exactly if every resource can serve all fixed requests that name it together |
| Checks.ListedExactly | python/metascheduler.py:295-310 | The lists planning starts with have exactly what is free on usable nodes, each resource on its own node |
| SingleRequests.SinglePlannedExactly | python/metascheduler.py:243-581 | A request for one resource is planned exactly if a resource on a usable node suits it and has room for it, whatever is fixed about it |
| FreeLists.ListPlannedExactly | python/metascheduler.py:536-581 | A request for one list without host is planned exactly if the free resources of some usable node, lightest first, can serve it; otherwise it is the user's error |
| FreeLists.SamePlannedExactly | python/metascheduler.py:536-581 | n like resources on one node are planned exactly if some usable node has n slots left for them |
| WholePlan.NodePlannedExactly | python/metascheduler.py:583-629 | A request for a whole node is planned exactly if what is free on some usable node weighs what the node does and has what is wanted; it gets the first such node in order, all of it; otherwise it is the user's error |
| InTurn.CheapestInTurn | python/metascheduler.py:325-581 | A request for any number of single resources that is planned is planned one resource at a time: fixed ones, then those with an index, then those with a host, then the others, in order; each gets the lightest resource that can serve it of the first node in order that has one, in the table those before have left; who gives an index only keeps off the hosts that others wait for |
| UsableNodes.PlannedOnUsable | python/metascheduler.py:252-310 | Whatever is asked, every pick of a plan that succeeds is on a node that is up, and among those the caller names if he names any |
| UsableNodes.HandedOutOnUsable | python/metascheduler.py:129-764 | And so is everything that is handed out |
| MatchingSteps.ClassifyRes | python/metascheduler.py:766-780 | Fixed requests stay in place, the others are listed with the places they left, in order |
| MatchingSteps.CopyWithThisNodeName | python/metascheduler.py:782-788 | The requests, moved to one node |
| MatchingSteps.ResourceMatchDOF0 | python/metascheduler.py:881-909 | The loop computes MatchFixed; on failure the list is as it was given |
| MatchingSteps.ResourceMatchDOF2 | python/metascheduler.py:790-879 | The loops over five lists by class compute first fit over all, and report what they wrote into the requests even when they fail |
| MatchingSteps.FirstFitInClass | python/metascheduler.py:841-860 | First fit in the list of the request's class is first fit over all classes |
| Sorting.SortResSorts | python/metascheduler.py:911-929 | Resources come out lightest first, those of one weight in their old order |
| Sorting.SortAvailSorts | python/metascheduler.py:931-951 | Nodes come out by own weight, weight of what is free, and index, and none is lost |
| Lightest.FirstIsCheapest | python/metascheduler.py:911-951 | With everything sorted, the first node that serves gives a resource than which none on its node is lighter, and no node that could serve comes before |
| PlanningSteps.PasteHostNames | python/metascheduler.py:194-215 | Refuses lists over several hosts that are not fixed throughout; otherwise gives every request of a list its one host |
| PlanningSteps.CountUses | python/metascheduler.py:226-235 | The dictionary counts how often each resource is asked for and how often as shared |
| PlanningSteps.ClashByCount | python/metascheduler.py:243-250 | The counts tell exactly whether a resource is asked for twice and not shared every time |
| PlanningSteps.NoneUsedTwice | python/metascheduler.py:243-250 | The loop over the dictionary refuses exactly the requests that clash |
| PlanningSteps.ValidateFixed | python/metascheduler.py:243-289 | Checks every fixed request against the table, in the order of the source, and reports the first error |
| PlanningSteps.ByDOF | python/metascheduler.py:217-241 | Groups sorted by their degrees of freedom, each once and in order |
| PlanningSteps.TakeFixed | python/metascheduler.py:325-348 | Taking fixed requests from the pool is committing them, and the pool is what is then still free |
| PlacementSteps.FreeResources | python/metascheduler.py:295-310 | The pool holds copies of exactly the free resources on usable candidate nodes |
| PlacementSteps.RefsByHost | python/metascheduler.py:427-434 | The dictionary lists, by host, exactly the requests that wait for it |
| PlacementSteps.PlaceIndexedLists | python/metascheduler.py:440-487 | Step 2, with the look-ahead writing into the caller's requests, computes PlaceIndexed |
| PlacementSteps.PlaceHostedLists | python/metascheduler.py:492-534 | Step 3 computes PlaceHosted |
| PlacementSteps.PlaceEverythingElse | python/metascheduler.py:536-636 | Step 4, for lists and whole nodes, computes PlaceAnywhere, which goes to the first node that can serve and gives up only after the last |
| PlacementSteps.MatchWanted | python/metascheduler.py:596-617 | Each wanted resource is found among those not yet taken for another |
| PlacementSteps.MakePlan | python/metascheduler.py:194-636 | The whole of planning computes Plan, errors included |
| PlanCommits.ServedKeepsAvail | python/metascheduler.py:466-474 | Taking picks from one node leaves all availability lists in step with the table the picks lead to |
| PlanTheorem.IndexedAccepted | python/metascheduler.py:448-474 | A list placed by index keeps the plan sound and accounted for |
| PlanTheorem.PlaceOnHostOk | python/metascheduler.py:499-531 | So does a list placed on its host |
| PlanTheorem.TryAnywhereOk | python/metascheduler.py:562-581 | So does a list placed anywhere |
| PlanTheorem.TryWholeNodeOk | python/metascheduler.py:584-629 | So does a whole node, where resources match themselves |
| Waiting.LookForFirst | python/metascheduler.py:458-461 | If of the first list that waits for a host one request is open, a look-ahead either fails and changes nothing, or leaves nothing to be placed of that list |
| Waiting.LookKeepsDrained | python/metascheduler.py:458-461 | A list of which nothing is left to be placed stays so, whatever look-aheads write |
| Waiting.DrainedFails | python/metascheduler.py:508-509 | A host-only list of which nothing is left to be placed ends the plan with an error |
| Waiting.RefsForAre | python/metascheduler.py:427-434 | The look-ahead is for exactly the requests that have this host, no index, and are in a host-only list |
| PlanSound.PlanIsSound | python/metascheduler.py:295-750 | A plan that succeeds can be committed in request order and answers every list, unless an index-only list comes with a host for which the first list that waits has two open requests, or a whole node with resources that do not match themselves |
| PlanSound.PlanCommitsExactly | python/metascheduler.py:583-629 | Without such lists a plan can be committed exactly if each pick for a whole node matches the resource it names |
| PlanSound.PasteIsUniform | python/metascheduler.py:207-215 | After pasting, a list is fixed throughout, or names one host for all, or none |
| PlanSound.FixedPermutes | python/metascheduler.py:325-348 | Taking fixed requests by degrees of freedom takes all of them once |
| PlanShape.PlanHasShape | python/metascheduler.py:315-323 | Every plan that succeeds, of any request, has a list for each group, as long as the group |
| LookAhead.MixedPlanCannotCommit | python/metascheduler.py:458-461 | A request that is planned, on any two nodes, and whose second of two picks of one GPU is refused at commit |
| Spoiling.SpoilableExactly | python/metascheduler.py:427-461 | The excluded requests are those with an index-only list and a host two requests of one list wait for, with no list before it waiting |
| Spoiling.ShortListsNeverSpoil | python/metascheduler.py:427-461 | Lists of at most one request are never among them, however many wait for one host |
| Spoiling.SinglesNeverSpoil | python/metascheduler.py:163-184 | Nor are requests of single resources and nodes |
| Spoiled.SpoiledSomewhere | python/metascheduler.py:440-461 | For any index-only list, and any two or more requests for one host that one kind of resource serves alike, there is a cluster on which the request is planned and the plan cannot be committed |
| Spoiled.SafeEverywhereExactly | python/metascheduler.py:440-461 | Such a request is safe in every cluster exactly if it cannot be spoiled, which is if at most one request is for the host |
| WholeNode.WeightGap | python/metascheduler.py:100-120 | The free weight of a node falls short of the full one by the weights of what is taken and the shares in use |
| WholeNode.WholeTestMeans | python/metascheduler.py:587-592 | The test passes exactly if no free GPU is shared and what is taken weighs nothing |
| WholeNode.WholeTestExact | python/metascheduler.py:587-592 | With positive weights it passes exactly if all resources are there and no GPU is partly shared |
| WholeNode.TakenGpuPassesAsWhole | python/vsapi.py:436-445 | Without weight, a taken GPU goes unnoticed |
| WholeNode.WantedAreDistinct | python/metascheduler.py:596-617 | Wanted resources that are found are found in different places |
| WholeNode.WholeNodeFound | python/metascheduler.py:584-629 | A node is found exactly if one passes the weight test and has what is wanted; all its resources are handed out |
| WholeNode.LikeWantedExactly | python/metascheduler.py:596-617 | If the same resources match all that is wanted, it is found exactly if there are as many of them |
| WholePick.NodePickIsWhole | python/metascheduler.py:583-629 | In every plan that succeeds, if all weights are positive and were summed up while nothing was in use, what is picked for a whole node is each resource of one node once; all of them are free and its GPUs have no owner; and it has what was wanted |
| Weights.UnusedIsWeighed | python/metascheduler.py:100-120 | Weights summed up while nothing is in use are those of the hardware of each node |
| Requests.ExpandRequest | python/metascheduler.py:163-184 | The expanded request, and for each item the stretch of lists it became |
| Requests.RegroupInvertsExpand | python/metascheduler.py:695-759 | Regrouped results have each item's kind, and expand to the results again |
| Commit.CommitReqsIs | python/metascheduler.py:732-748 | A row of picks commits exactly if the grants do and every GPU's node has a launcher |
| Commit.ItemsInARow | python/metascheduler.py:699-759 | Committing items succeeds exactly if their picks commit in a row and no node gets a resource of another |
| Commit.FailedCommitLeaks | python/metascheduler.py:732-748 | A commit that fails although all grants could be served has changed the table |
| Allocating.CommitSucceedsExactly | python/metascheduler.py:655-764 | After planning and schedulers agree, the commit succeeds exactly if every GPU picked is on a managed node and no named node turned out to be another; otherwise the table is changed |
| Failures.UnmanagedGpuLeaks | python/metascheduler.py:743 | A GPU that can serve a fixed request, on a usable node nobody manages, is planned, the commit fails, and exactly that GPU stays taken |
| Failures.NamedNodeLeaks | python/metascheduler.py:583-629 | A node asked for by name where there is only another one is planned, the answer fails, and the other node's resource stays taken |
| Failures.WholeNodeCommitsExactly | python/metascheduler.py:592 | The resources of a node can all be committed as picked exactly if each matches a request made from itself |
| Failures.UnmatchedGpuFails | python/vsapi.py:1398-1409 | A GPU that insists on scanouts without having any is planned as a whole node and cannot be committed |
| Allocating.FairRequestIsAtomic | python/metascheduler.py:243-764 | If every GPU is on a managed node, no node is asked for by name, no index-only list comes with a host for which the first list that waits has two open requests, and for whole nodes every resource matches itself, then a request that is refused for any reason leaves the table as it was; it is refused exactly if planning or a scheduler refuses it |
| Allocating.AnswerDelivers | python/metascheduler.py:695-764 | The answer has the request's shape; each position is of the class, index, host, type and sharing asked for and owned by the user; a list that is not fixed is on one host |
| Answers.RequestIsMet | python/metascheduler.py:695-764 | Each item of a request that succeeds is answered by one of its kind; each resource matches, field by field, what was asked for, stereo and scanouts included, and the user has it, alone or shared as asked; a list that leaves something open is on one host; a node is the one named, all its resources are of one host, and what was wanted is among them, each time another |
| Answers.RefusalMeans | python/metascheduler.py:129-693 | An empty request is malformed, one that cannot be planned ends as planning does, and a planned one is refused by the schedulers exactly if one says no that manages the node of a GPU picked; these change nothing |
| Answers.UnfreePickMeans | python/metascheduler.py:649-666 | A plan with a pick that is not free, or no resource, ends as an internal error before anyone is asked, and exactly then |
| Answers.SingleGrantedExactly | python/metascheduler.py:129-764 | With managed nodes and willing schedulers a request for one resource is granted exactly if a resource on a usable node suits it and has room for it, and the user then has such a one |
| Allocating.PerformIsTake | python/metascheduler.py:761-764 | A successful allocation is one step of the ledger |
| Allocating.PerformStaysSafe | python/metascheduler.py:129-764 | Whatever is asked and however it ends, sharing stays safe |
| Allocating.MixedRequestLeaks | python/metascheduler.py:458-461 | The request of the look-ahead fails half way through the commit and leaves a resource taken |
| MetaschedulerObjects.VizResource.DoAllocate | python/vsapi.py:382-394 | Refuses exactly what canAllocate refuses; otherwise adds the owner to the resource and its X server |
| MetaschedulerObjects.VizResource.Deallocate | python/vsapi.py:396-406 | Gives up one ownership, of a GPU's X server first; a safe resource is unchanged when it complains |
| MetaschedulerObjects.Allocation.Deallocate | python/metascheduler.py:72-88 | Forgets what it held; a second time changes nothing |
| Configuration.Configure | python/metascheduler.py:97-121 | Fails exactly if a resource is on no declared node; otherwise the table has, under each key, the last resource configured with it, each node's weight is the sum of its resources', and nothing is allocated |
| MetaschedulerObjects.Metascheduler.CommitRequest | python/metascheduler.py:699-759 | The commit loops over the real objects compute CommitItems, table and answer |
| MetaschedulerObjects.Metascheduler.AskSchedulers | python/metascheduler.py:677-693 | Each scheduler is asked if a node of it is needed; on success launchers are known for exactly the managed nodes |
| MetaschedulerObjects.Metascheduler.Allocate | python/metascheduler.py:129-764 | The answer and the table are those of Perform; nothing is handed out on a node that is down or not among those named; a fair request keeps every owner accounted for and is atomic |
| MetaschedulerObjects.Metascheduler.Deallocate | python/metascheduler.py:971-1003 | Succeeds exactly for a listed allocation that holds something, frees exactly what it holds, and keeps every owner accounted for |
| MetaschedulerObjects.FairStaysConserved | python/metascheduler.py:129-764 | One fair request keeps owners equal to what live allocations hold, whatever becomes of it |
| Runs.RunsRefineLedger | python/metascheduler.py:129-1003 | Every run of fair requests and frees is a run of the ledger, so owners are conserved |
| Runs.AllFreedRestores | python/metascheduler.py:971-1003 | Once all allocations of such a run are freed the table is the initial one |
| Runs.SharingSafeThroughout | python/vsapi.py:347-406 | Sharing is safe in every state of every run, fair or not |
| Runs.WholeNodesThroughout | python/metascheduler.py:583-629 | In every state of every run a node picked as whole is whole, if all weights are positive and were summed up while nothing was in use |
| Spans.SpansPartition | python/vsapi.py:3599-3604 | Stretches laid end to end cover each point once |
| Layout.WalkAxis | python/vsapi.py:3632-3725 | The loop over displays with bezels gives the extent and the origins of the axis, for each rotation and bezel mode (measured in `Bezels`) |
| Layout.PassiveCannotRemap | python/vsapi.py:3295-3299 | With passive stereo no remapping of outputs passes the checks |
| Layout.DisplaysApart | python/vsapi.py:3632-3725 | Displays lie inside the framebuffer one after another |
| Layout.WidthByColumn | python/vsapi.py:3810-3822 | The size of a block on the wall depends on its column for the width and its row for the height only |
| Layout.PlaceBlocks | python/vsapi.py:3599-3822 | Walking the wall puts each block where the spans of columns and rows say |
| Layout.BlocksPartitionWall | python/vsapi.py:3810-3822 | Each point of the wall is in exactly one block |
| Layout.BlocksInWall | python/vsapi.py:3810-3822 | No block is empty or sticks out of the wall |
| Layout.BlockFitsFramebuffer | python/vsapi.py:3807-3813 | A block is as large as its framebuffer, turned where the display is |
| Layout.OutputsFitFramebuffer | python/vsapi.py:3731-3750 | Outputs of a GPU lie in its framebuffer, on different ports and apart; the two of passive stereo share their origin |
| Bezels.FramebufferMeasured | python/vsapi.py:3632-3725 | A framebuffer is as wide as its displays with both bezels each, or with none, or, on a desktop, with both in front of each but the one at the edge, which is said for each rotation; and likewise for the height |
| Bezels.OutputsMeasured | python/vsapi.py:3731-3750 | Each output is on its port, in order or as remapped, and scans out from where its display starts, by the bezels before it |
| Bezels.WallMeasured | python/vsapi.py:3599-3822 | The wall is as wide and high as its displays with bezels, less, on a desktop, one pair along each direction; the rotated cases in which none is left out are named |
| Bezels.BlockMeasured | python/vsapi.py:3810-3822 | Each block starts behind the displays left of it and below those above it |
| Tiled.EqualShares | python/vsapi.py:3478-3515 | With as many GPUs per server, block i belongs to server i / k, screen i % k |
| Tiled.GroupsAreServersExactly | python/vsapi.py:3824-3838 | Groups of blocks are the servers' blocks exactly if they are one row high or as wide as the wall |
| Tiled.GroupsPartitionWall | python/vsapi.py:3870-3899 | Each point of the wall is in the rectangle of exactly one group |
| Tiled.BlockInArea | python/vsapi.py:3885-3899 | Each block lies in the rectangle of its group |
| Tiled.BoundingBox | python/vsapi.py:3881-3899 | The loop of minima and maxima computes the rectangle from the first to the last block, with starts cut off at ten million |
| Tiled.BoxExact | python/vsapi.py:3883-3884 | The box is right exactly if it starts within ten million pixels |
| Tiled.PositionGroup | python/vsapi.py:3825-3838 | Screens are positioned at their offset from the group's first block |
| Tiled.OffsetsArePositions | python/vsapi.py:3838 | Offsets are not negative, and zero for the first block |
| Positions.ScreensApartExactly | python/vsapi.py:3824-3838 | The screens of each server are at different positions exactly if groups are one row high or as wide as the wall |
| Positions.OriginTwice | python/vsapi.py:3494-3515 | Otherwise the first blocks of the first two groups are driven by one server, both at its origin |
| Display.GlAreasPartitionSquare | python/vsapi.py:3907-3919 | The normalized areas of the blocks partition the unit square |
| Display.GlScales | python/vsapi.py:3907-3919 | A point of the wall is in a block exactly if its normalized image, with the vertical axis turned over, is in the block's normalized area |
| Display.BoxesPartitionExactly | python/vsapi.py:3870-3899 | The boxes of the groups cover the wall, and are disjoint exactly if the last group starts within ten million pixels |
| Display.GroupGlPartitionExactly | python/vsapi.py:3901-3919 | The normalized areas of the groups cover the unit square, and are disjoint exactly then |
| Display.GroupGlIsSet | python/vsapi.py:3901-3919 | These are the areas the combined layout is given |
| Display.WideBoxesOverlap | python/vsapi.py:3883-3884 | Two displays wider than ten million pixels, each a group, get boxes that overlap |
| Display.CellServer | python/vsapi.py:3494-3515 | The server recorded for a block is that of its group's number |
| Display.CellOwner | python/vsapi.py:3478-3515 | Block by block, GPUs are counted through server by server: which screen of which server drives a block |
| Display.CellPosition | python/vsapi.py:3824-3838 | In a group, a screen is positioned as far from that of the group's first block as the blocks are apart on the wall |
| Display.CellGl | python/vsapi.py:3907-3919 | The normalized area of a block, multiplied by the size of the wall and turned over, is its rectangle |
| Display.AreaServer | python/vsapi.py:3870-3899 | The combined area of a group is driven by the server of its first block |
| Display.AcceptableMeans | python/vsapi.py:3218-3310 | Which layouts are taken: grid, displays of a block, passive stereo, remapping, groups, and GPUs per server |
| Display.TiledDisplay.SetupXServers | python/vsapi.py:3430-3919 | Sets up all blocks with outputs, server, screen, position and normalized area, and what Xinerama makes of them; refuses the rest and changes nothing |
| XConfig.ReadScanout | src/vs-generate-xconfig.cpp:1192-1308 | One output is accepted exactly if its mode is known, fits the screen and its area, and is then stored as `XStored.StoredExactly` says |
| XStored.StoredExactly | src/vs-generate-xconfig.cpp:1192-1308 | What is stored of an accepted output, field by field: port and device as given; connection and mode as given or those of the display; column and row as given, or zero; width and height as given, or those of the mode |
| XScreens.FbOfIsStored | src/vs-generate-xconfig.cpp:1026-1545 | A screen is stored with its GPUs and their outputs in order, each as above, and its size as given or as its outputs need it |
| XConfig.MarkAgrees | src/vs-generate-xconfig.cpp:1310-1312 | Entering an output on a free port keeps the port table in agreement with the outputs |
| XConfig.FreePortIsNew | src/vs-generate-xconfig.cpp:1185-1190 | A port is unmarked exactly if no output so far uses it |
| XConfig.AgreementMarks | src/vs-generate-xconfig.cpp:1310-1312 | A port table that agrees with the outputs has each port marked exactly if one output uses it, only one does, and holds that one |
| XConfig.SectionsAgree | src/vs-generate-xconfig.cpp:466-472 | The device section of a GPU describes exactly the outputs the screens have on it |
| XValidate.EnterScanout | src/vs-generate-xconfig.cpp:1174-1313 | An output is accepted exactly if its port exists and is new and it is valid, and is then entered in both records |
| XValidate.CheckStereo | src/vs-generate-xconfig.cpp:1344-1459 | The stereo rules for the outputs of a GPU |
| XValidate.BoundingBox | src/vs-generate-xconfig.cpp:1474-1492 | The loops compute the far corner over all outputs, with 32-bit sums |
| XValidate.CheckSize | src/vs-generate-xconfig.cpp:1472-1544 | Sizes are filled in or checked against the box, the limits of all GPUs and the least size |
| XValidate.CheckCombiner | src/vs-generate-xconfig.cpp:1546-1805 | The rules for SLI: bridge, mode, outputs per GPU, equal outputs |
| XValidate.MaxIsMax | src/vs-generate-xconfig.cpp:1483-1490 | The far corner is a maximum over the outputs |
| XScreens.Validator.ExtractXMLData | src/vs-generate-xconfig.cpp:903-1849 | A configuration is accepted exactly if every screen meets the rules and no port is used twice; every output is then stored field by field as its node says, each port is marked exactly if one output uses it, only one does, and the table holds that one, and usage counts are right |
| XScreens.ValidateFb | src/vs-generate-xconfig.cpp:1026-1806 | The same for one screen |
| XRules.AcceptsExactly | src/vs-generate-xconfig.cpp:903-1849 | The rules, spelled out without the validator's own functions: ports, modes, areas, sizes, stereo, SLI; a configuration is accepted exactly if it can be stored and what is stored obeys them |
| XSound.MarkedIffUsedOnce | src/vs-generate-xconfig.cpp:1311-1312 | In the table an accepted configuration leaves behind, a port is marked exactly if one output uses it, only one does, and the stored output is that one |
| XSound.ModesFitAreas | src/vs-generate-xconfig.cpp:1247-1297 | Each accepted mode fits the area it is shown in |
| XSound.AreasInsideExactly | src/vs-generate-xconfig.cpp:1474-1520 | Each area lies in the framebuffer exactly if its far corner does not wrap |
| XSound.WrappedAreaAccepted | src/vs-generate-xconfig.cpp:1481-1505 | Whatever mode and column wrap around, a configuration of one such output is accepted though its area ends beyond the framebuffer |
| XSound.AcceptedFarOutside | src/vs-generate-xconfig.cpp:1481-1505 | One such configuration: 1024 by 768 at column 4294967040 |
| XSound.SizesInBounds | src/vs-generate-xconfig.cpp:1522-1544 | A framebuffer is at least 304 by 200 and within the limits of all its GPUs |
| XSound.SizeDefiniteExactly | src/vs-generate-xconfig.cpp:1494-1544 | The width an accepted framebuffer ends up with is definite exactly if it was given or the screen has a GPU, and so is the height, when the limits of the GPUs are definite |
| XSound.ScreenWithoutGpusPasses | src/vs-generate-xconfig.cpp:1522-1544 | A screen without GPUs is accepted with no definite size |
| XSound.SameModeIsNotEnough | src/vs-generate-xconfig.cpp:1358-1412 | Equal devices, connections and modes pass the stereo rules exactly if the mode is a modeline |
| XSound.CombinedScreens | src/vs-generate-xconfig.cpp:1548-1616 | Several GPUs need a bridge, no rotation and no passive stereo; passive stereo needs one GPU with two like outputs |
| XSound.StereoTurnsCompositeOff | src/vs-generate-xconfig.cpp:1823-1846 | A configuration with stereo ends up with the composite extension named and not enabled |
| XSound.LayoutPasses | src/vs-generate-xconfig.cpp:1472-1520 | The outputs of every block of a tiled display pass the validator's geometry, ports and passive stereo rules |
| SharedServer.FindGone | src/vs-X.cpp:1735-1747 | The erase list has the clients that left, last first |
| SharedServer.AllErased | src/vs-X.cpp:1750-1753 | Erasing by descending index is filtering |
| SharedServer.AllowedUsers | src/vs-X.cpp:1933-1941 | Taking connected users off the access list works exactly if the list covers them, and leaves each user's remaining entries |
| SharedServer.Decide | src/vs-X.cpp:1899-1955 | The answer to one who asks to connect |
| SharedServer.Server.DropClients | src/vs-X.cpp:1735-1792 | Clients that left are filtered out; users with no connection left lose access, unless revoking fails |
| SharedServer.Server.Connect | src/vs-X.cpp:1797-1992 | A connection request with a fresh list and limit is one step of the state machine, which records the connection (`SharedLaws`) |
| SharedServer.AdmittedPastLimitExactly | src/vs-X.cpp:1899-1955 | A user is let in although the limit is reached exactly if the limit is below the number of clients and the list has room for the user |
| SharedServer.LoweredLimitAdmits | src/vs-X.cpp:1871-1914 | With two clients and a new limit of one a third client is let in |
| SharedServer.LimitHoldsExactly | src/vs-X.cpp:1899-1914 | A request leaves the clients within the limit it brings exactly if they were |
| SharedServer.NeverPastLimit | src/vs-X.cpp:1871-1955 | As long as no limit that arrives is below the number of clients, nobody is let in past the limit of the moment |
| SharedServer.LimitHoldsThroughout | src/vs-X.cpp:1619-1955 | With a fixed limit there are never more clients than that |
| SharedServer.NeverMoreThanListed | src/vs-X.cpp:1924-1954 | While the lists that arrive cover those connected, no user has more connections than entries, and no request along the run makes the erase run off the list |
| SharedServer.ParentFitsExactly | src/vs-X.cpp:1892-1898 | After the invoking process connects access fits the clients exactly if its user has an entry and the user of the first entry has access |
| SharedServer.ParentTakesOver | src/vs-X.cpp:1892-1898 | Once its entry is gone the invoking process takes over the entry of another user, and its own user has access without an entry |
| SharedServer.AccessFitsThroughout | src/vs-X.cpp:1763-1983 | Every user connected is let in by the X server, and only listed users are |
| SharedLaws.AnswersMean | src/vs-X.cpp:1871-1955 | Which answer one who asks to connect gets, by the limit, the list and his connections |
| SharedLaws.ConnectedIsRecorded | src/vs-X.cpp:1910-1983 | One who is let in is recorded, with his connection, after those who are there, and gets access |
| SharedLaws.ParentIsRecorded | src/vs-X.cpp:1892-1898 | The invoking process takes over the first entry and keeps its user |
| SharedLaws.RefusedIsForgotten | src/vs-X.cpp:1899-1955 | One who is refused leaves his list and limit, and nothing else |
| SharedLaws.ClosedAreGone | src/vs-X.cpp:1735-1792 | Closing connections takes exactly the clients behind them off the list; a user keeps access exactly if taking it away fails, none of his was closed, or an entry of his is left |
| SharedLaws.ConnectThenClose | src/vs-X.cpp:1735-1992 | Connecting and closing the connection leaves the clients as they were and takes away the access it gave, unless the user has another entry |
| SharedLaws.ConnectionLasts | src/vs-X.cpp:1735-1992 | Over every run, a connection lasts until it is closed |
| SharedLaws.ConnectionsAreMade | src/vs-X.cpp:1735-1992 | A connection recorded at the end of a run was there at first or was made on the way |
| SharedLaws.ClosedStaysClosed | src/vs-X.cpp:1735-1992 | Once it is closed nobody is recorded with it until someone connects on it anew |
| XmlTree.FieldsFound | python/domutil.py:22-45 | Looking up a name among the children finds exactly the field written under it |
| XmlTree.ParseShow | python/vsapi.py:574-614 | Numbers are read as they were written |
| ServerParts.InputRead | python/vsapi.py:643-693 | Keyboards and mice come back as written exactly if no text is empty and a driver is there for the options |
| ServerParts.SliRead | python/vsapi.py:1980-2045 | SLI bridges come back, without the GPUs where these are not written, exactly if type and mode are allowed |
| ServerParts.ScanoutRead | python/vsapi.py:1533-1556 | An output of a GPU comes back as written exactly if port, type, device and mode are allowed |
| ServerParts.PropsRead | python/vsapi.py:2296-2410 | Position, size, stereo and rotation of a screen come back exactly if they are in range |
| ServerTree.ReadServer | python/vsapi.py:2773-2829 | Whatever is read can be written and read again |
| ServerRoundTrip.ServerRead | python/vsapi.py:2738-2829 | A server with all its screens, GPUs and their servers is read back exactly if ServerOk describes it, and then as ServerBack says, whatever the order of the elements |
| ServerRoundTrip.GpuRead | python/vsapi.py:1498-1739 | The same for a GPU and its shared server |
| ServerRoundTrip.ScreenRead | python/vsapi.py:2296-2431 | The same for a screen |
| ServerRoundTrip.LimitsRead | python/vsapi.py:1573-1579 | Limits come back exactly if both or none are given |
| ServerSteady.PrintedTreeSteadyExactly | python/vsapi.py:1638-1649 | A tree that was read, written and read again is written as before exactly if each GPU's shared server is shared, on the GPU's host, with its limit and index |
| ServerSteady.SecondWritingStays | python/vsapi.py:2738-2829 | From the second writing on nothing changes |
| ServerSteady.ServerWithoutIndex | python/vsapi.py:1638-1649 | A GPU element with an unshared server and no index for it is not written as before |
| ServerRules.GpuRules | python/vsapi.py:1498-1739 | Which GPUs can be read back, field by field |
| ServerRules.ServerRules | python/vsapi.py:2738-2829 | Which servers can |
| ServerRules.GpuComesBack | python/vsapi.py:1498-1739 | How a GPU comes back, field by field |
| ServerRules.GpuServerComesBack | python/vsapi.py:1638-1649 | How its shared server does: shared, on the GPU's host, with its limit and index |
| ServerRules.ServerComesBack | python/vsapi.py:2738-2829 | How a server does |
| ServerTags.CommonSaid | python/vsapi.py:574-614 | From any tree: from which elements owners, share limit, bias, host and index are read, and what holds without them |
| ServerTags.ScanoutSaid | python/vsapi.py:1533-1556 | The same for an output of a GPU |
| ServerTags.PropsSaid | python/vsapi.py:2296-2410 | The same for a screen's properties |
| ServerTags.FactsSaid | python/vsapi.py:1598-1739 | The same for what is known of a GPU |
| ServerTags.GpuServerSaid | python/vsapi.py:1638-1649 | With an index a GPU's server is shared, on its host and with its limit; without one it is the one given, or one as new |
| ServerTags.HeadSaid | python/vsapi.py:2738-2829 | The same for a server |
| ServerTags.LastIsKept | python/vsapi.py:1533-1556 | Of numbered entries with one number the last is kept |
| NodeList.ExpandNodes | python/vsutil.py:966-1000 | Expands ranges with padding; refuses what is no number and ranges that run downwards, and passes over ranges of more than two parts |
| NodeList.ExpandHosts | python/slurmscheduler.py:124-141 | Expands ranges without padding; refuses bounds that are no numbers, and ignores parts after the second |
| NodeList.EqualWidths | python/vsutil.py:986-995 | Bounds of one width give suffixes of that width that read as consecutive numbers |
| NodeList.DifferentNumbersDifferentNames | python/vsutil.py:984-1000 | Different numbers give different names, within and across ranges |
| NodeList.AgreeExactly | python/vsutil.py:984-995 | The two expanders agree, names or refusal, on a number exactly if it has no leading zero, and on a range exactly if its bounds are no numbers or it runs upwards and needs no padding |
| NodeLists.NoNameTwice | python/vsutil.py:966-1000 | The names of an expansion are all different exactly if no two parts of the list, single numbers included, write a number they share alike; so they are if they share no number |
| NodeLists.RefusedExactly | python/slurmscheduler.py:124-141 | Each expander refuses a list exactly if it refuses one of its parts |
| NodeLists.PartsInOrder | python/vsutil.py:966-1000 | Lists are expanded part by part, in order |
| NodeLists.OnePartInOrder | python/vsutil.py:984-1000 | A part names its numbers upwards, each after the prefix |
| NodeLists.ListsAgreeExactly | python/slurmscheduler.py:124-141 | The two expanders agree on a list exactly if both refuse it, or they agree on each of its parts |
| Framing.FrameReads | src/vscommon.cpp:164-226 | A message of up to 99999 bytes is read as written, whatever follows it |
| Framing.HeaderForm | src/vscommon.cpp:164-185 | The header is the length in decimal digits, without leading zeros, filled up to five characters |
| Framing.Wire.WriteBytes | src/vscommon.cpp:107-131 | Writes all bytes in order, however the socket splits and interrupts it |
| Framing.Wire.ReadBytes | src/vscommon.cpp:133-162 | Reads as many bytes as asked, or all there are |
| Framing.Wire.Exchange | src/vscommon.cpp:107-226 | A stream of messages arrives as sent through any splitting |

## Left out

- Schedulers, launchers, sockets, munge, `xhost`, signals and processes: their answers are inputs of the model.
- One request object placed twice in a request, and resources that lists share with a caller's other objects: requests are values, so writing into one does not show in the other.
- Aggregates nested in lists, nodes inside aggregates, and errors about the types of arguments.
- The text of hash keys, and the order in which a Python dictionary is walked: keys are class, index and host, and the order of the table is a parameter.
- `list.sort` and `copy.deepcopy` themselves: sorting is a stable sort by the same keys, and a copy is the value.
- MetaschedulerObjects.Allocation.Deallocate: does not model the launchers' own deallocation, which could fail.
- PlanSound.PlanIsSound: of the requests it leaves out, only those of `Spoiled.SafeEverywhereExactly` are shown to fail somewhere. Whether another one can depends on which of all its requests one resource could serve: a GPU and a keyboard on node a, beside an index-only list, always commit, because what the look-ahead writes for one of them no other request can take; with a GPU anywhere added they need not.
- InTurn.CheapestInTurn: is about requests of single resources. For lists of several, what a step does with one is said (`Placing.AnywhereDecided`); which of several equally heavy resources they get depends on the order of the lists.
- Display.TiledDisplay.SetupXServers: does not model the quadroplex block type and clip_last_block, the GPUs of combined areas, a block's position within its server, and the checks of setScanout itself; bezels are not negative, and framebuffer sizes are those the loops compute.
- XScreens.Validator.ExtractXMLData: does not model keyboards, mice, modules, command line options, positions and colour depths; the text of the configuration is taken as parsed, with stereo, rotation and SLI modes as the schema allows.
- The generated text of the X configuration, log scraping, and frame lock.
- X server start-up, the SSM connection, and shutting down in the shared server; an X server restarting.
- NodeList.ExpandNodes: does not model splitting the text at brackets, commas and dashes; a number with a plus sign is taken as no number.
- NodeList.ExpandHosts: the same; numbers with blanks or a sign are taken as no numbers.
- Framing.Wire: the Python reader also refuses an empty message; it is not a separate method here.
- The XML library: elements are trees, and texts contain no markup. Numbers with blanks, plus signs or other forms that Python's int() reads are not modelled.
- ServerTree: readers and writers are functions on trees, where the code builds up strings and sets fields; schedulers, display devices with their modes, and screens made by Xinerama or without a number are not modelled. Dictionaries with text keys are written in the order the keys were first set.
- Frame lock, `findBestMatchingMode`, template look-ups and setters, which are decided by one branch each.
