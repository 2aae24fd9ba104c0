# Verification of the plan forest and of who may do what

This project models the two parts of the planning system whose correctness does not show in
any single function, and proves what they promise.

**The plan forest.** A plan is items joined by `part_of` edges. The same tree is read under a
budget, climbed, searched for gaps, moved, reordered, filtered to a scope, drawn twice and
compared with proposals, by different code. The results have to agree.

**Lifecycles.** Memberships and invitations, AI delegations and the ranges agreed in advance,
conversation links with their idempotency keys, browser sessions, and database migrations are
small stores changed by guarded steps. What matters holds over every run, or every interleaving,
not per branch.

Code that works step by step is modelled by methods with loops and by classes whose fields the
methods reassign; each such method is proved equal to a function of its inputs or of the old
state, or against a property stated outright, and the theorems are proved about that function.
Where several processes work at once, one request is a sequence of statements (`Next`), a run is
any interleaving of such statements with arrivals, commits, rollbacks and crashes, and the
methods of `Conversation`, `Sessions` and `Delegation` are proved equal to one request running
alone (`Alone`, `DisconnectAlone`, `SaveAlone`).

| files | what they hold |
|---|---|
| `Basics`, `Chains`, `Ordering` | shared vocabulary; climbing parent pointers; stable sorting of siblings |
| `TreeLayout`, `GoalMap`, `PlanFlow` | geometry of strips and cards, and the two drawings built on it |
| `GoalMapTree`, `RootOrder` | the map's tree: the plan contracted to a scope; the order of its roots |
| `Traversal`, `LevelOrder`, `ForestWalk` | budgeted breadth-first reading, the level-order walk, forests |
| `Breakdown`, `BreakdownTree`, `BreakdownOrder`, `BreakdownGaps` | reading a plan down and up, in which order siblings come, and what is missing |
| `MoveDialog`, `MoveRelations` | choosing a new parent; what a move does to the stored relations |
| `Reorder`, `ReorderStored` | moving among siblings; writing the new order and reading it back |
| `Compare` | proposed children against existing ones |
| `Collaboration`, `CollaborationOutcomes`, `CollaborationRuns` | workspaces, memberships, invitations: the requests, what each comes to, every run |
| `Delegation`, `DelegationOutcomes`, `DelegationSteps`, `DelegationRuns` | AI connections and standing ranges; what each request comes to; disconnecting and saving statement by statement under row locks; every run |
| `Conversation`, `ConversationOutcomes` | conversation links under racing calls; exactly when a call succeeds |
| `Sessions`, `SessionRuns`, `SessionOutcomes` | stored sessions under racing requests; tokens and signing out over runs; in which tenant a request is accepted |
| `Migrations` | schema versions and the database label under racing starters |

## Where the code does less than one might expect

Each of these is a statement proved about the code as it is, with the exact condition.

- A chain of ancestors can name an item twice on cyclic data: exactly when, along the links that
  lead to stored items, the item it starts from is on no cycle but something above it is
  (`BreakdownTree.ChainRepeatsOnlyOnALasso`).
- "No goal is empty" does not tell by itself that every goal can be started: two goals under each
  other escape it (`BreakdownGaps.LoopHidesTheEmptyGoal`). A goal no action lies below has an empty
  goal at or below it exactly when something at or below it reaches no cycle
  (`BreakdownGaps.EmptyGoalExactlyWhenSettled`), so the sign fails exactly for plans with an
  unstartable goal below which everything runs into a cycle (`BreakdownGaps.EmptyGoalsTellAll`).
- When a reading is cut, the children counted as loaded are one more than the nodes below the root,
  because the last queued child is dropped (`BreakdownTree.SubtreeOfForest`). A node that says it
  has no more children hides one exactly when the answer was cut right before its last live child;
  a node that says it has more is always right (`BreakdownTree.HasMoreIsRightBut`, with an input in
  `BreakdownTree.DroppedChildIsNotAnnounced`).
- The comparison by which the map sorts its roots is no order: a root whose parent is hidden is compared
  by reading order, the others by position. It orders the roots exactly when no such root was read
  between two others that their positions put the other way round (`RootOrder.RootsAreOrderedUnless`).
- A child related to the same parent twice is put down for removal twice, unless a candidate speaks
  of it (`Compare.EachChildOnce`).
- Moving an archived item up does nothing; moving it down trades its slot with the first visible
  sibling. Archived siblings keep their slots exactly when the moved item is not archived itself
  (`Reorder.HiddenSlotsKeptExactlyForVisible`).
- Disconnecting ends the ranges in one statement and takes hold of the connection in a later one, and
  neither it nor saving a range locks anything else. A range saved between the two stays open under
  the disconnected connection, and consenting anew puts it in force; every choice that would be
  accepted can do so (`DelegationRuns.SavedAcrossADisconnection`). An open range is left under an
  inactive connection exactly when its last save fell between the two statements of a disconnection
  that nobody has reconnected since (`DelegationRuns.OpenUnderInactiveExactlyWhenCrossed`); in all
  other runs reconnecting revives nothing (`DelegationRuns.UncrossedRunsReviveNothing`).
- A tenant switch can be undone by a request that switches nothing: one that loaded the session before
  the switch and saves its renewed token after it puts the old tenant back, and the next request is
  accepted in no tenant although the person has it (`SessionOutcomes.SwitchUndone`). Nothing else
  undoes a switch but another switch (`SessionOutcomes.SwitchHolds`).
- A call whose insert lost to another call's returns that link as it stands and does not wake it
  (`ConversationOutcomes.LostInsertEnds`); alone, every successful call returns an active link
  (`Conversation.SuccessLeavesActive`).
- After signing out with a cookie that was handed out, a later request with it can still be accepted
  exactly when it is a sealed one, used where there is no database, whose session is not over and
  whose token is not nearly spent (`SessionRuns.SignOutEndsExactlyStoredCookies`); the twelve hours
  hold for both kinds.
- An invitation whose expiry is this very moment can still be accepted and no longer stands in the
  way of a new one. Two invitations of one person to one workspace both read as pending only at the
  moment one of them expires (`CollaborationRuns.TwoPendingOnlyAtExpiry`), and then they can
  (`CollaborationRuns.InvitedAgainAtExpiry`).
- Two starters that both read no label both insert one, and the second insert is ignored. A migrate
  that succeeds leaves its process ready with nothing to claim exactly when its insert was not
  ignored in favour of another label (`Migrations.ReadyExactlyUnlessOvertaken`,
  `Migrations.BothInsert`); with the advisory lock held that never happens
  (`Migrations.LockedSuccessIsReady`).

## Model

| member | source | states |
|---|---|---|
| `TreeLayout.SubtreeInside` | src/GoalMap.tsx:332-411 | every card of a subtree lies inside the strip that starts at the subtree's left edge and is as wide as its measure, whatever the tree |
| `TreeLayout.RowApart` | src/GoalMap.tsx:341-416 | any two cards of a placed row of subtrees that stand on one level are at least the gap apart |
| `TreeLayout.OneCardPerNode` | src/GoalMap.tsx:356-393 | placing a subtree pushes exactly one card for each of its nodes, in preorder |
| `TreeLayout.EdgesAreTheLinks` | src/GoalMap.tsx:394-402 | the links drawn are exactly the parent-child pairs of the tree, plus the one to the given parent |
| `TreeLayout.OneEdgePerChild` | mcp-app/PlanFlow.tsx:209-216 | the links point at each node below the given parent once, in preorder |
| `TreeLayout.SubtreeSpans` | src/GoalMap.tsx:332-411 | a subtree's cards reach exactly from one end of its strip to the other, so no strip is wider than what is drawn in it |
| `TreeLayout.CardIsCentred` | src/GoalMap.tsx:353-411 | the card of an item has the size asked for and stands midway over all the cards below it, however far those reach |
| `TreeLayout.SiblingsStandGapApart` | src/GoalMap.tsx:405-416 | the drawings of two siblings that follow each other stand exactly the gap apart, and the first starts where its row does |
| `GoalMap.MeasuresTheVisible` | src/GoalMap.tsx:307-340 | measuring with folded items gives the strip of the tree that is actually drawn |
| `GoalMap.RaiseIsMaximum` | src/GoalMap.tsx:313-323 | the recorded height of a row is the greatest height among the cards on it, and only rows with cards are recorded |
| `GoalMap.RowsDoNotTouch` | src/GoalMap.tsx:324-331 | a lower row starts at least 38 below the tallest card of any row above it |
| `GoalMap.NoTwoCardsOverlap` | src/GoalMap.tsx:301-417 | for every forest and every set of folded ids, any two placed cards are on one row with at least 22 between them, or on rows at least 38 apart |
| `GoalMap.EveryRowAboveIsMeasured` | src/GoalMap.tsx:324-331 | every row at or above a placed card has a measured height, so the fallback of 70 is never used |
| `GoalMap.RowsArePacked` | src/GoalMap.tsx:313-331 | the first row starts at 8; the tallest card of each row ends exactly 45 above the second row, 38 above any later one |
| `GoalMap.MapDrawing.MeasureDepth` | src/GoalMap.tsx:313-323 | the height table after the call is the old one raised by every visible card from the given level down |
| `GoalMap.MapDrawing.RowTop` | src/GoalMap.tsx:324-331 | the loop computes the top of a row from the heights above it |
| `GoalMap.MapDrawing.Place` | src/GoalMap.tsx:341-411 | pushes the card and link of an item and then those of its open children, left to right |
| `GoalMap.MapDrawing.Draw` | src/GoalMap.tsx:301-417 | the nodes and edges produced are the cards of the shared geometry at their row tops, and the links of the visible tree |
| `GoalMapTree.DisplayParent` | src/GoalMap.tsx:224-232 | the loop returns the nearest ancestor that is shown, none if there is none, on any data including cycles |
| `GoalMapTree.ContractionKeepsAncestors` | src/GoalMap.tsx:219-242 | among shown items, one is above the other through displayed parents exactly when it is in the plan, however many hidden items lie between |
| `GoalMapTree.ContractionIsAcyclic` | src/GoalMap.tsx:224-242 | an acyclic plan has an acyclic display |
| `GoalMapTree.Hang` | src/GoalMap.tsx:276-282 | every shown item ends up in exactly one list: under its displayed parent, or among the roots |
| `GoalMapTree.SortSiblings` | src/GoalMap.tsx:283-288 | each list of siblings becomes ordered by stored position and then reading order, and stays a rearrangement of itself |
| `GoalMapTree.SortingKeepsArrangement` | src/GoalMap.tsx:288-298 | sorting siblings and roots, by whatever comparison, moves nobody to another parent and loses nobody |
| `GoalMapTree.BuildTree` | src/GoalMap.tsx:204-300 | filtering to a scope yields the nearest-shown-ancestor links and an arrangement of exactly the shown items along them, siblings in order, and roots too where their comparison orders them |
| `GoalMapTree.ShownIsInScope` | src/GoalMap.tsx:219-223 | the items shown are exactly the stored ones of the scope asked for, all of them when none is |
| `GoalMapTree.LinkIsStored` | src/GoalMap.tsx:222-232 | the plan's links are exactly those the items give as their parent, where the parent is stored too |
| `GoalMapTree.SiblingsStandInOrder` | src/GoalMap.tsx:283-288 | in the built tree the earlier sibling has the smaller stored position, none counting as the largest safe integer, or the same and was stored first |
| `GoalMapTree.RootsStandInOrder` | src/GoalMap.tsx:289-298 | so do the roots, except that one whose parent is hidden stands by stored order, whenever the comparison orders them |
| `RootOrder.RootsAreOrderedUnless` | src/GoalMap.tsx:289-298 | the comparison orders the roots exactly when no promoted root was read between two others that their positions put the other way round |
| `RootOrder.SortRoots` | src/GoalMap.tsx:289-298 | the roots are rearranged, into the order of the comparison where it is one |
| `GoalMapTree.CardsAreSized` | src/GoalMap.tsx:155-160 | every card is 62 high, and 184 wide for the four kinds of goal, 136 for everything else |
| `GoalMapTree.EveryShownItemOnce` | src/GoalMap.tsx:276-300 | the tree unfolded from the roots holds every shown item exactly once and nothing else |
| `GoalMapTree.EveryOpenItemHasOneCard` | src/GoalMap.tsx:276-417 | for every set of folded ids the cards are, one each, exactly those of the shown items that no folded item is displayed above |
| `GoalMapTree.FoldedMapShows` | src/GoalMap.tsx:219-417 | on the filtered map of an acyclic plan an item has a card exactly when it is shown and no shown item above it in the plan is folded, however many hidden items lie between |
| `GoalMapTree.FilteredMapIsAContraction` | src/GoalMap.tsx:219-300 | for an acyclic plan and any sibling order: every shown item once, well linked for drawing, and below another in the built tree exactly when it is below it in the plan |
| `PlanFlow.MeasuringIsExact` | mcp-app/PlanFlow.tsx:168-180 | after measuring a tree with unique ids the width table holds each node's own recursive width |
| `PlanFlow.CacheMatchesRecursion` | mcp-app/PlanFlow.tsx:163-236 | with unique ids the nodes built, both coordinates included, are those of the uncached recursive measure; the fallback width is never used |
| `PlanFlow.FlowIsClear` | mcp-app/PlanFlow.tsx:182-236 | any two nodes on one row are at least 28 apart, and nodes on different rows at least 48 |
| `PlanFlow.CardExactlyWhenOpen` | mcp-app/PlanFlow.tsx:163-236 | with unique ids exactly the nodes that no folded node lies above have a card |
| `PlanFlow.CardsStandOnRows` | mcp-app/PlanFlow.tsx:182-196 | every card is 196 by 82 and each row is 130 below the one above |
| `PlanFlow.OneLinkPerNonRoot` | mcp-app/PlanFlow.tsx:209-216 | there is one card per visible node, and exactly one edge to each that is not a root and none to a root |
| `PlanFlow.FlowBuilder.MeasureNode` | mcp-app/PlanFlow.tsx:168-178 | the recursive measure returns the strip width and leaves the table as measuring prescribes |
| `PlanFlow.FlowBuilder.Place` | mcp-app/PlanFlow.tsx:182-228 | pushes the node at its place in its row, and its edge, then its open children at cursors taken from the table |
| `PlanFlow.FlowBuilder.Build` | mcp-app/PlanFlow.tsx:160-237 | the nodes, with both coordinates, and the edges built are those of the flow graph the theorems are about |
| `Traversal.ReadingIsExact` | api/src/breakdown.rs:180-232 | on any edges: at most `limit` rows, none twice, levels in order and each a real distance walked within the depth; when nothing was cut, exactly the items at distance at most the depth, each with its shortest distance |
| `LevelOrder.WalkFeedsItself` | api/src/breakdown.rs:184-199 | the unbudgeted walk consists of the root and, in order, the children of its own entries |
| `LevelOrder.ReadingIsPrefix` | api/src/breakdown.rs:180-232 | where the walk names nothing twice, the reading is its first min(limit, T) entries, truncated exactly when T is more than limit, with loaded children adding up to all rows but the root, plus one when cut |
| `ForestWalk.DownIsUp` | api/src/breakdown.rs:96-110 | in a forest an item is reached from the root by a walk of k links exactly when climbing k steps from it through unarchived items arrives there |
| `ForestWalk.WalkIsDistinct` | api/src/breakdown.rs:186-199 | the level-order walk of a forest names no item twice |
| `Ordering.SortBy` | api/src/breakdown.rs:44-53 | insertion keeps the order by position, reading order and id, and the result is a rearrangement |
| `Breakdown.BuildStructure` | api/src/breakdown.rs:55-94 | every item is indexed, each child's last part_of edge is its edge upward, each parent's edges are kept once each in display order, and all other edges are kept apart in stored order |
| `Breakdown.QueueChildren` | api/src/breakdown.rs:196-206 | children are queued in order as long as rows and queue together stay under the limit; how many were, and whether any was not, is reported |
| `Breakdown.ReadDown` | api/src/breakdown.rs:180-232 | the loop over the real queue and seen set answers with the nodes and the truncation mark of the reading the theorems are about |
| `Breakdown.Subtree` | api/src/breakdown.rs:160-242 | an unknown root is reported missing; depth and limit are as asked where that lies in 1..20 and 1..500, the nearer bound where not, 2 and 200 where nothing is asked; the answer is the finished reading, described by `BreakdownTree.SubtreeOfForest` and `BreakdownOrder.SiblingsComeInDisplayOrder` |
| `Breakdown.Climb` | api/src/breakdown.rs:253-277 | each entry names the item below it and the edge taken; no item is left twice; the climb ends only with no parent, no stored parent, or a return |
| `Breakdown.Ancestry` | api/src/breakdown.rs:249-304 | the chain is that climb, top first; `top_level` says it is empty; an unknown item is reported missing |
| `BreakdownTree.SubtreeOfAnyPlan` | api/src/breakdown.rs:160-242 | what the answer promises on any edges, cycles and shared children included |
| `BreakdownTree.PlanIsForest` | api/src/breakdown.rs:55-110 | with at most one parent each and both ends present, both indexes describe the same forest: the children read under an item are exactly its unarchived ones, once each |
| `BreakdownTree.LiveChildrenInRelations` | api/src/breakdown.rs:92-110 | on any plan the children read under an item are exactly the unarchived items with a stored part_of edge to it |
| `BreakdownTree.SubtreeOfForest` | api/src/breakdown.rs:160-242 | on a forest the answer is the first min(limit, T) of the T entries of the walk; truncated exactly when T is more than limit; loaded_children add up to all nodes but the root, plus one when cut |
| `BreakdownTree.PlanIsDescendants` | api/src/breakdown.rs:96-110 | the walk holds exactly the items whose d-th parent is the root with everything from the item up to below the root unarchived, each at its d, once |
| `BreakdownTree.NodesHangUnderEarlierOnes` | api/src/breakdown.rs:207-214 | every node but the root names as parent_id a node that comes before it, one level up |
| `BreakdownTree.HasMoreIsRightBut` | api/src/breakdown.rs:196-226 | for every forest, root, depth, limit and node: has_more_children is right when it says so; when it does not, a live child is missing exactly when the answer was cut right before that node's last child; it is exact when nothing was cut |
| `BreakdownOrder.SiblingsComeInDisplayOrder` | api/src/breakdown.rs:39-80 | whatever the budget, of a listed node's live siblings those listed before it are exactly those shown before it, by stored position (none last) and then by stored order; so siblings come in display order and a cut never takes one and leaves out another shown before it |
| `BreakdownOrder.LoadedChildrenAreListed` | api/src/breakdown.rs:193-219 | the i-th live child of a node is listed exactly when it is among its first loaded_children and is not the entry a cut drops |
| `BreakdownTree.DroppedChildIsNotAnnounced` | api/src/breakdown.rs:196-226 | an input where the second case happens: room for one node, a root with one child |
| `BreakdownTree.AncestryReachesTheTop` | api/src/breakdown.rs:253-277 | on a forest the chain climbs link by link, each entry the parent of the one before, to an item with no parent |
| `BreakdownTree.DownAndUpReadTheSame` | api/src/breakdown.rs:180-277 | x is at depth d of an untruncated subtree of a root exactly when the root is the d-th entry of x's ancestry and x and all strictly between are unarchived |
| `BreakdownTree.ChainRepeatsOnlyOnALasso` | api/src/breakdown.rs:253-277 | on any data the chain names an item twice exactly when, along the links that lead to stored items, the item is on no cycle but something above it is |
| `BreakdownGaps.ReachesAnAction` | api/src/breakdown.rs:120-139 | the search answers yes exactly when an action lies below, and ends on any edges |
| `BreakdownGaps.GapsOf` | api/src/breakdown.rs:314-354 | the gaps reported for an unarchived item are exactly the ones it has |
| `BreakdownGaps.Gaps` | api/src/breakdown.rs:311-363 | the report names exactly the gaps there are, by the name of their kind and then by item id |
| `BreakdownGaps.GapsInRelations` | api/src/breakdown.rs:311-354 | told from the stored items and relations: an unarchived goal of the four kinds no unarchived item is part of; one some are part of but below which no action lies; an unarchived item's depends_on something missing or archived |
| `BreakdownGaps.UnstartablePlansHaveAnEmptyGoal` | api/src/breakdown.rs:314-340 | on an acyclic plan of the five kinds, a goal reported to have no action beneath has below it a live goal reported as not broken down |
| `BreakdownGaps.NoGapMeansStartable` | api/src/breakdown.rs:314-340 | neither gap is reported exactly when every unarchived goal reaches an action |
| `BreakdownGaps.EmptyGoalExactlyWhenSettled` | api/src/breakdown.rs:120-139 | on any plan of the five kinds a goal no action lies below has an empty goal at or below it exactly when something at or below it reaches no cycle |
| `BreakdownGaps.EmptyGoalsTellAll` | api/src/breakdown.rs:311-340 | on any plan of the five kinds "no goal is empty" tells whether every goal can be started exactly when every goal can, or something at or below one that cannot reaches no cycle; on acyclic plans it always does |
| `BreakdownGaps.LoopHidesTheEmptyGoal` | api/src/breakdown.rs:311-340 | an input where it does not: two goals under each other |
| `MoveDialog.Dialog.ChildrenOf` | src/App.tsx:2785-2790 | the ids found are exactly those linked to the given item; a link is the first stored part_of relation out of an item (`MoveRelations.LinkIsFirstRelation`) |
| `MoveDialog.Dialog.Collect` | src/App.tsx:2783-2798 | the recursion ends on any data and adds only descendants, each with all its children |
| `MoveDialog.CollectedIsDescendants` | src/App.tsx:2783-2798 | started from nothing, what is collected is exactly the set of descendants |
| `MoveDialog.Dialog.Offer` | src/App.tsx:2783-2808 | the parents offered are exactly the unarchived, editable, non-action items of the workspace that are neither the moved item nor below it along those links |
| `MoveDialog.MoveIsSafeExactlyOutsideTheSubtree` | src/App.tsx:2799-2808 | moving an item keeps an acyclic plan acyclic exactly when the new parent is neither the item nor one of its descendants |
| `MoveDialog.OfferedParentsAreSafe` | src/App.tsx:1411-1434 | whichever offered parent is chosen, or none, the plan stays acyclic |
| `MoveDialog.FirstTargetIs` | src/App.tsx:715-721 | the target found is that of the first stored relation that is of the workspace, of type part_of and out of the item; none is found exactly when there is none |
| `MoveRelations.LinkIsFirstRelation` | src/App.tsx:715-729 | on any data an item is linked to another exactly when both are stored and its first part_of relation leads there |
| `MoveRelations.OfferedIs` | src/App.tsx:2799-2808 | where each item is part of at most one other, the items offered are exactly the unarchived, editable, non-action ones that no chain of stored part_of relations leads from up to the moved item, nor the item itself |
| `MoveRelations.MoveLoopsExactlyBelow` | src/App.tsx:2783-2808 | in stored relations without a loop a move leaves one exactly when the new parent is the moved item or lies below it |
| `MoveRelations.MovingIsSafe` | api/src/service.rs:3151-3309 | where every item has at most one part_of relation, moving to an offered parent or to the top changes that item's link and no other and leaves the stored relations without a loop |
| `Reorder.NeighbourIsNearest` | src/App.tsx:999-1002 | the neighbour in the visible list is the nearest unarchived slot in that direction |
| `Reorder.AdjacentIs` | src/App.tsx:994-1003 | searching both lists by id finds the slot to trade with, and finds none exactly when there is none |
| `Reorder.SwapWithNeighbour` | src/App.tsx:994-1004 | the two slots are exchanged and nothing else changes; without a neighbour nothing is sent |
| `Reorder.ReorderTreeItem` | src/App.tsx:977-1006 | only a writer of the workspace who may edit the parent reorders; the siblings are exactly the parent's children, sorted by place; the order sent is theirs after the exchange |
| `Reorder.MoveRearranges` | src/App.tsx:996-1004 | the new order is a rearrangement and every archived sibling keeps its slot |
| `Reorder.VisibleOrderSwapsNeighbours` | src/App.tsx:996-1004 | the visible order changes by exchanging two neighbours and nothing else |
| `Reorder.OppositeMoveRestores` | src/App.tsx:996-1004 | the opposite move restores the original order |
| `Reorder.HiddenSlotsKeptExactlyForVisible` | src/App.tsx:994-1004 | archived siblings keep their slots exactly when the moved item is not archived |
| `ReorderStored.SiblingIs` | src/App.tsx:982 | the siblings are exactly the stored items of the five kinds, archived or not, whose first part_of relation leads to the parent |
| `ReorderStored.SiblingsAreListedInOrder` | src/App.tsx:983-993 | they stand by the position of the relation that puts them there, none counting as the largest safe integer, and then by stored order |
| `ReorderStored.WrittenOrderIsReadBack` | api/src/service.rs:3339-3368 | whatever arrangement of the siblings is written as the new order is what sorting them again yields |
| `ReorderStored.MoveIsReadBack` | src/App.tsx:977-1006 | moving an item and reading the plan again shows the two slots exchanged and every other sibling where it was |
| `Compare.OverlapIs` | api/src/copilot.rs:77-97 | the measure is symmetric, at most 100, 100 on equal titles, and 100 exactly for the same set of character pairs |
| `Compare.BestIs` | api/src/copilot.rs:224-229 | the child chosen is unmatched, at least as alike as every other unmatched one, and the last of equals |
| `Compare.CompareChildren` | api/src/copilot.rs:200-273 | one row answers each candidate in order given what earlier rows took, then one row for each child left over; a missing item, a non-list and an untitled candidate are refused |
| `Compare.EachCandidateOnce` | api/src/copilot.rs:218-252 | a candidate's row is new work exactly when no child still unspoken of is at least 50 alike, else it speaks of a most alike one and keeps it exactly when title and kind are the same |
| `Compare.EachChildOnce` | api/src/copilot.rs:216-265 | a child spoken of is named by exactly one row; any other by as many removal rows as it is listed |
| `Compare.OnlyChildrenAreNamed` | api/src/copilot.rs:224-244 | only existing children are ever spoken of |
| `Compare.SameTitleIsNeverAdded` | api/src/copilot.rs:224-250 | a candidate titled like a child nobody has spoken of yet is never put down as new work |
| `Compare.OverlapCounts` | api/src/copilot.rs:77-97 | the measure is the whole part of 200 times the common character pairs over the pairs of both titles; where one has no pair, 100 for the same title and 0 otherwise |
| `Compare.ChildrenAreStored` | api/src/copilot.rs:201-209 | the children compared with are those of each stored part_of relation from an unarchived item, in stored order |
| `Compare.CandidateIsAnswered` | api/src/copilot.rs:218-252 | told without the functions it is built from: a candidate is new work exactly when no free child is at least 50 alike, and otherwise speaks of the last of the most alike free ones; a missing kind reads as initiative |
| `Compare.RemovalsInOrder` | api/src/copilot.rs:253-265 | the removal rows name children nobody spoke of, in stored order |
| `Collaboration.Store.ChangeMember` | api/src/collaboration.rs:228-279 | the method ends as the change of a place prescribes: what that is `CollaborationOutcomes.RoleChangeIs` and `RemovalIs` state |
| `Collaboration.Store.IssueInvitation` | api/src/collaboration.rs:472-534 | the checks in the code's order, then one pending invitation for seven days |
| `Collaboration.Store.WithdrawInvitation` | api/src/collaboration.rs:535-555 | only an open or expired invitation of this workspace is withdrawn |
| `Collaboration.Store.AnswerInvitation` | api/src/collaboration.rs:374-431 | the checks in the code's order; accepting seats the addressee in the invited role |
| `Collaboration.Store.CreateWorkspace` | api/src/collaboration.rs:312-357 | a new workspace in its creator's tenant, with its creator as owner |
| `Collaboration.Store.ProvisionPersonal` | api/src/service.rs:2007-2048 | the personal workspace and its one owner are there afterwards; rows already there stay |
| `Collaboration.Store.Dispatch` | api/src/collaboration.rs:296-561 | every request ends as the step function says, the new tables or the error and nothing changed; what each comes to `CollaborationOutcomes` states |
| `CollaborationOutcomes.RoleChangeIs` | api/src/collaboration.rs:228-279 | a role change is accepted exactly from an owner in the tenant, on a shared workspace and its latest version, with a role, for a member, not making the only owner step down; the member then has exactly that role, every other seat stays, and only a demoted person's open invitations end |
| `CollaborationOutcomes.RemovalIs` | api/src/collaboration.rs:449-471 | removing takes an owner and leaving a member, never the only owner; the seat is gone, every other stays, and exactly the open and accepted invitations to it and the open ones its holder sent end |
| `CollaborationOutcomes.InvitingIs` | api/src/collaboration.rs:472-534 | an invitation is issued exactly by an owner, to somebody neither member nor invited, as editor or viewer, in a workspace that is not local; it is open for seven days and nothing else changes |
| `CollaborationOutcomes.WithdrawingIs` | api/src/collaboration.rs:535-555 | an owner withdraws exactly an invitation to the workspace that is still open or has expired |
| `CollaborationOutcomes.AnsweringIs` | api/src/collaboration.rs:96-131 | an invitation is answered exactly by its addressee acting in the workspace's tenant, from its latest version, while it is open and its sender an owner; accepting gives the seat it names, declining none |
| `CollaborationOutcomes.CreatingIs` | api/src/collaboration.rs:312-357 | a workspace is created exactly by a person acting in a tenant, in that tenant and with themselves as owner |
| `CollaborationOutcomes.RenamingIs` | api/src/collaboration.rs:439-448 | renaming takes an owner and the latest version and touches nobody's place |
| `CollaborationOutcomes.ProvidingIs` | api/src/service.rs:2007-2048 | providing for a personal workspace adds the rows that are missing and touches nothing that is there |
| `CollaborationOutcomes.RefusalNamesTheFirst` | api/src/collaboration.rs:296-561 | a refused request says the first thing wrong: an agent, a stranger, no owner, a personal workspace, no version, an old one, and only then what is wrong with what it asks |
| `CollaborationOutcomes.AnswerRefusedWith` | api/src/collaboration.rs:96-131 | an answer that is refused says why, in the order the code checks |
| `CollaborationRuns.ChangedKeepsOwners` | api/src/collaboration.rs:237-250 | changing or removing a member never leaves a workspace without an owner |
| `CollaborationRuns.ChangedKeepsSenders` | api/src/collaboration.rs:270-277 | whoever stops being an owner leaves no open invitation behind |
| `CollaborationRuns.ApplyKeeps` | api/src/collaboration.rs:296-561 | every request keeps: an owner per workspace, open invitations from current owners, members behind accepted ones, one open invitation per person and workspace, rows that fit |
| `CollaborationRuns.EveryRunIsSound` | api/src/collaboration.rs:228-279 | all of that holds after any sequence of requests in time order |
| `CollaborationRuns.SenderCheckNeverFires` | api/src/collaboration.rs:391-398 | in every reachable state an invitation that is still open was sent by a current owner |
| `CollaborationRuns.TwoPendingOnlyAtExpiry` | api/src/collaboration.rs:492-515 | two invitations of one person to one workspace both read as pending only at the very moment one of them expires |
| `CollaborationRuns.InvitedAgainAtExpiry` | api/src/collaboration.rs:492-532 | and at that moment they can, for any owner, addressee and role |
| `CollaborationRuns.DepartureIs` | api/src/collaboration.rs:449-471 | a seat is given up only by removal or by leaving, in a shared workspace |
| `CollaborationRuns.EndedForAll` | api/src/collaboration.rs:257-269 | ending a membership leaves no open invitation for that person and workspace |
| `CollaborationRuns.ReturnOnlyByNewInvitation` | api/src/collaboration.rs:102-135 | whoever left becomes a member again only by accepting, in the workspace's tenant and within seven days of its issue, an invitation that did not exist when they left, from someone who is an owner then, and never as an owner |
| `CollaborationRuns.PlacesChangeOnlyBy` | api/src/collaboration.rs:96-131 | a person's place changes only through themselves or through an owner acting in the workspace's tenant |
| `CollaborationRuns.TenantStays` | api/src/collaboration.rs:327-349 | no request moves a workspace to another tenant |
| `CollaborationRuns.StaleRequestsFail` | api/src/collaboration.rs:48-56 | each change moves the version on by one, so of two requests made from the same version only one succeeds |
| `Conversation.NextIsFine` | api/src/conversation.rs:129-301 | each statement keeps what the call has established: a link to the place asked for, and the key owned before it returns |
| `Conversation.CommitKeeps` | api/src/conversation.rs:129-301 | committing one call leaves every other call's knowledge and pending rows true |
| `Conversation.EveryRunIsSound` | api/src/conversation.rs:56-301 | under any interleaving every key leads to a link of its own scope, and no two calls hold the same unique key |
| `Conversation.LinksAndKeysAreForever` | api/src/conversation.rs:56-301 | a link's workspace, item and screen never change, and a key belongs to one conversation forever |
| `Conversation.SuccessIsKept` | api/src/conversation.rs:129-301 | under any interleaving a successful call returns its own conversation's link, to the place it asked for; from then on that conversation is linked there and its key is that conversation's |
| `Conversation.RetryWritesNothing` | api/src/conversation.rs:172-215 | under any interleaving a call that arrives when its link and its key are its own inserts nothing, and unless it reads its link stopped it never fails, changes nothing when committed and returns that link, active |
| `Conversation.SuccessLeavesActive` | api/src/conversation.rs:186-301 | alone, a successful call leaves its conversation linked and active, woken if it was stopped, and returns the link as it stands |
| `Conversation.StopGrows` | api/src/conversation.rs:321-325 | stopping a connection stops all its links and changes nothing they point at |
| `Conversation.Tables.ClaimKey` | api/src/conversation.rs:56-127 | alone, the method does what the statements of the call do: the key is owned afterwards, or the call fails |
| `Conversation.Tables.Upsert` | api/src/conversation.rs:129-301 | the method ends as the statements of one call running alone do; when that is success `ConversationOutcomes.AloneEnds` states |
| `Conversation.Tables.StopForConnection` | api/src/conversation.rs:321-325 | exactly the active links of the connection become stopped |
| `ConversationOutcomes.AloneEnds` | api/src/conversation.rs:129-301 | alone, a call succeeds exactly when it is well formed, its key is not another conversation's, its conversation is linked nowhere else, and, unless its link is active, no other link carries its key; each refusal is the one named, and success leaves exactly its link and its key |
| `ConversationOutcomes.ColumnsLeadInEveryRun` | api/src/conversation.rs:186-301 | under any interleaving the key a link was made or woken with is promised to that link's conversation |
| `ConversationOutcomes.RefusedExactlyWhen` | api/src/conversation.rs:129-301 | so in every reachable state a call alone fails exactly when it is malformed, its key is another conversation's or its conversation is linked elsewhere, and never on the unique key of the link's own row |
| `ConversationOutcomes.RetryWakes` | api/src/conversation.rs:193-209 | in every reachable state repeating an established call succeeds and returns its link active and leading where it did, woken now if its connection had been stopped |
| `ConversationOutcomes.LostInsertEnds` | api/src/conversation.rs:225-288 | a call whose insert was refused because its conversation had been linked meanwhile returns that link as it stands exactly when it leads where the call asked and the key is not another conversation's |
| `ConversationOutcomes.LostKeyEnds` | api/src/conversation.rs:83-127 | a call whose key was written meanwhile goes on exactly when it was written for the same conversation |
| `ConversationOutcomes.StoppingIs` | api/src/conversation.rs:321-325 | stopping a connection stops exactly its active links, which keep their key and their place |
| `Sessions.SignInIsBounded` | api/src/auth.rs:985-999 | however long its token lives, a session ends at most twelve hours after its sign-in |
| `SessionRuns.TokensStayShort` | api/src/auth.rs:1119-1161 | in every run a stored session's token ends within eight hours of the latest clock reading, however often it was renewed, and the session can be renewed exactly when it could at its sign-in |
| `Sessions.NextKeeps` | api/src/auth.rs:1046-1266 | every statement keeps rows at their session's end, bounded, and requests carrying only the session their cookie names |
| `Sessions.SessionEndNeverMoves` | api/src/auth.rs:1125-1127 | under any interleaving of renewals, tenant switches and sign-outs a stored session's end stays what it was |
| `Sessions.DeletedStaysDeleted` | api/src/auth.rs:1140-1161 | a deleted row never comes back |
| `Sessions.AcceptedWithinTwelveHours` | api/src/auth.rs:1163-1209 | a request is accepted only against a clock reading less than twelve hours after its session's sign-in, however often it was renewed |
| `Sessions.SignOutIsFinal` | api/src/auth.rs:1260-1267 | once somebody signed out with a stored cookie, no request with it that starts afterwards is accepted |
| `SessionRuns.SignOutEndsExactlyStoredCookies` | api/src/auth.rs:1010-1066 | after signing out with a cookie that was handed out, some continuation of the run accepts a later request with it exactly when it is a sealed one, its session is not over and its token is not nearly spent |
| `SessionRuns.TenantIsHeld` | api/src/auth.rs:1193-1254 | in every run a request is accepted in a tenant only if the identity service listed that tenant for the person while the request ran |
| `Sessions.SessionTable.StoreSession` | api/src/auth.rs:1010-1043 | the cookie handed back loads the session just stored, without its refresh token where it is sealed, and every other cookie loads what it did |
| `Sessions.SessionTable.Session` | api/src/auth.rs:1163-1209 | the first half of a request ends as its statements running alone do; what that comes to `SessionOutcomes.CheckAloneIs` states |
| `Sessions.SessionTable.SelectTenant` | api/src/auth.rs:1210-1254 | so does switching tenant, up to the rewritten row or re-issued cookie |
| `Sessions.SessionTable.Logout` | api/src/auth.rs:1260-1267 | the row a stored cookie names is gone; nothing else changes |
| `SessionOutcomes.CheckActsInItsTenant` | api/src/auth.rs:1163-1208 | in every run an accepted check loaded its session, then verified it, and acts in the tenant of the envelope it loaded exactly when the identity service listed that tenant, in none otherwise |
| `SessionOutcomes.SwitchHolds` | api/src/auth.rs:1210-1254 | in every run a stored session keeps the tenant switched to until another switch or the renewal of a request that had loaded it before the switch |
| `SessionOutcomes.SwitchIsActedIn` | api/src/auth.rs:1193-1254 | after a switch, a check that loads the session and is accepted acts in that tenant exactly when it is listed, unless one of those two came between |
| `SessionOutcomes.SwitchUndone` | api/src/auth.rs:1175-1183 | the witness run, for any session and tenant: a check's late renewal undoes a switch, and the next check acts in no tenant although it is listed |
| `SessionOutcomes.CheckAloneIs` | api/src/auth.rs:1163-1209 | alone, a check is accepted exactly when its session is in time, its token good or renewed and the identity service answers; the envelope handed on, the rewritten row and the removal of a session that is over are given exactly |
| `SessionOutcomes.SwitchAloneIs` | api/src/auth.rs:1210-1254 | alone, a switch is accepted exactly when also the tenant is listed, and the row or the cookie handed back then holds it |
| `SessionOutcomes.SignInIs` | api/src/auth.rs:985-999 | a sign-in acts in no tenant; its token lives as long as it says, an hour if it does not, at most eight; the session twelve hours if it can be renewed, else as long as its token |
| `Delegation.Covers` | api/src/auto_apply.rs:103-146 | a proposal is covered exactly when the range is in effect, each operation is described, and each adds or changes what is allowed, archives nothing, and touches no commitment unless that is allowed |
| `Delegation.GuardedKeysAre` | api/src/copilot.rs:47-58 | the guarded keys found are empty exactly when the body mentions none of them, at the top or under its fields |
| `Delegation.Delegations.EnsurePending` | api/src/mcp_auth.rs:185-276 | a first contact leaves one pending connection without scopes; a known client changes nothing here |
| `Delegation.Delegations.Grant` | api/src/mcp_auth.rs:304-315 | the loop refuses a scope that cannot be granted and an empty choice, and keeps each scope once |
| `Delegation.Delegations.GrantFromConsent` | api/src/mcp_auth.rs:336-362 | consent makes the person's own connection active with the scopes chosen |
| `Delegation.Delegations.Approve` | api/src/mcp_auth.rs:279-323 | the settings screen refuses another version and a disconnected client |
| `Delegation.Delegations.Disconnect` | api/src/mcp_auth.rs:365-383 | running alone, the ranges of the connection end with it; without such a connection nothing changes |
| `DelegationSteps.DisconnectAlone` | api/src/mcp_auth.rs:365-383 | with nobody beside it the statements of a disconnection, ranges first, end as the method does |
| `DelegationSteps.SaveAlone` | api/src/auto_apply.rs:302-412 | so do the statements of saving a range |
| `DelegationSteps.EventKeeps` | api/src/auto_apply.rs:302-466 | under row locks every statement, commit and rollback keeps: what a call has found holds until it commits, no two calls hold one row, and a range a disconnection did not end was saved after its first statement and before its second |
| `Delegation.Delegations.Save` | api/src/auto_apply.rs:302-412 | the checks in the code's order, then the range as chosen, open until its days are over |
| `Delegation.Delegations.TurnOff` | api/src/auto_apply.rs:419-446 | the person's range in the acting tenant is revoked and stays on record |
| `Delegation.Delegations.Covering` | api/src/auto_apply.rs:248-294 | a range is used exactly when it is in force, the proposal came by the same connection, and it is covered |
| `DelegationOutcomes.ContactIs` | api/src/mcp_auth.rs:185-276 | a first contact leaves one pending connection without scopes, a known client leaves everything as it is |
| `DelegationOutcomes.ConsentIs` | api/src/mcp_auth.rs:304-362 | consent is accepted exactly for the person's own connection and scopes that can be granted; the connection is then active with exactly those, each once, in the order they are mentioned |
| `DelegationOutcomes.ApprovalIs` | api/src/mcp_auth.rs:279-323 | the settings screen needs the latest version too and cannot bring back a disconnected client |
| `DelegationOutcomes.DisconnectionIs` | api/src/mcp_auth.rs:365-383 | disconnecting needs only that the connection is the person's own; it leaves it revoked without scopes and closes exactly the open ranges on it, which keep what they allowed |
| `DelegationOutcomes.SavingIs` | api/src/auto_apply.rs:302-412 | a range is saved exactly for one to ninety days, allowing something, where the person may write, on their own active connection that may apply; it stands as chosen for exactly those days, and one saved before keeps its id and creation |
| `DelegationOutcomes.SavingRefusedWith` | api/src/auto_apply.rs:302-370 | a refused choice says why, in the order the code checks |
| `DelegationOutcomes.GrantRefusedWith` | api/src/mcp_auth.rs:279-362 | so do a refused approval and a refused consent |
| `DelegationOutcomes.TurningOffIs` | api/src/auto_apply.rs:419-446 | turning off needs a range of the person's own in the acting tenant, closes it now and keeps it on record |
| `DelegationOutcomes.AppliedAtOnceExactlyWhen` | api/src/auto_apply.rs:103-294 | a proposal is applied at once exactly when it arrives on the connection it was made by, that is the person's own, active and may apply, their range for it there is open and not over, and each of its operations, of which there is one, is described and adds or changes what is allowed, archives nothing and touches no commitment unless allowed |
| `DelegationRuns.EveryRunIsSound` | api/src/auto_apply.rs:302-466 | all of that holds under any interleaving, and ranges hang on connections of the same person |
| `DelegationRuns.StatementsAreNumbered` | api/src/mcp_auth.rs:365-383 | the two moments the theorems below speak of are the statements of that very call |
| `DelegationRuns.OpenRangeWasSaved` | api/src/auto_apply.rs:302-466 | in every run an open range stands as its last save placed it; since then it was not turned off, and its connection was disconnected only by calls whose two statements lie on either side of that save |
| `DelegationRuns.InForceMeansRecentlySaved` | api/src/auto_apply.rs:248-273 | in every run a range in force was saved less than 90 days ago, its connection may apply, and neither was revoked since but by disconnections that ran across that save |
| `DelegationRuns.OpenUnderInactiveExactlyWhenCrossed` | api/src/mcp_auth.rs:365-383 | an open range's connection is inactive exactly when a disconnection ran across the range's last save and nobody reconnected it since |
| `DelegationRuns.UncrossedRunsReviveNothing` | api/src/auto_apply.rs:448-466 | where no range was saved across a disconnection, an open range's connection is active and was not disconnected since the range was saved |
| `DelegationRuns.SavedAcrossADisconnection` | api/src/mcp_auth.rs:365-383 | from any state, any choice that would be accepted can be saved between the two statements of a disconnection; the range then stays open, and a new consent puts it in force |
| `DelegationRuns.AppliedAsChosen` | api/src/auto_apply.rs:103-176 | in every run whatever a range lets through was chosen by the same person less than 90 days ago: additions, changes and commitments only where each was chosen, and nothing removed, archived or undescribed |
| `DelegationRuns.OnlyConsentReconnects` | api/src/mcp_auth.rs:325-362 | in every run a disconnected client becomes active again only by the person consenting anew, in the same tenant |
| `DelegationRuns.GrantsWhatWasAsked` | api/src/mcp_auth.rs:304-321 | exactly the scopes asked for are granted, each once; an approval repeated from the old version fails |
| `Migrations.MaxTellsAll` | api/src/db.rs:643-648 | while the applied versions are a beginning of the list, comparing the highest with the build's tells exactly whether all are applied |
| `Migrations.ReadyIs` | api/src/db.rs:643-675 | a deployment finds the database ready exactly when every migration is applied and a label is recorded that is its own or stands against none, and has nothing to claim exactly when one is recorded that is its own or it has none |
| `Migrations.ClaimSettles` | api/src/db.rs:920-971 | a claim that goes through settles the label and never replaces one; it is refused exactly when two labelled deployments disagree |
| `Migrations.NextIsFine` | api/src/db.rs:870-971 | every statement of a starter keeps the applied versions a beginning of the list and recorded scripts fully run |
| `Migrations.EveryRunIsSound` | api/src/db.rs:781-806 | through crashes, retries and racing starters, with or without the lock, the applied versions are a beginning of the list and recorded scripts have fully run |
| `Migrations.LabelNeverChanges` | api/src/db.rs:934-958 | a labelled database keeps its label in every run |
| `Migrations.SuccessIsReady` | api/src/db.rs:791-806 | a process whose migrate succeeded finds all migrations applied; unless its insert of a label was ignored in favour of another's it is ready with nothing to claim, then and ever after |
| `Migrations.ReadyExactlyUnlessOvertaken` | api/src/db.rs:920-971 | right after its last statement it is ready with nothing to claim exactly when its insert was not so ignored |
| `Migrations.BothInsert` | api/src/db.rs:934-971 | two labelled deployments that both read no label both succeed, and one is never ready |
| `Migrations.LockedSuccessIsReady` | api/src/db.rs:791-806 | with the advisory lock held from the version checks to the claim, success means ready with nothing to claim, then and ever after |
| `Migrations.Database.ReadStatus` | api/src/db.rs:975-1007 | the status read holds the highest version, the build's, and both labels |
| `Migrations.Database.ClaimEnvironment` | api/src/db.rs:920-971 | the label after the call is the claimed one, or the old one and a refusal |
| `Migrations.Database.MigrateLocked` | api/src/db.rs:870-916 | exactly the missing versions are added and exactly their scripts run, then the label is claimed |
| `Migrations.Database.Migrate` | api/src/db.rs:791-806 | success leaves the process ready with nothing to claim; failure means another deployment holds the label |

## Left out

- GoalMapTree.BuildTree: where the comparison of the roots is no order, what the sort makes of them is up to the sorting algorithm and only known to be a rearrangement. Ids of the source are taken to be unique, as the store makes them.
- MoveDialog.Dialog.Offer: the sort of the offered parents by title is not modelled; the offer is stated as a set.
- BreakdownGaps.Gaps: the texts of the report are not modelled; a wait stored twice is reported twice, so what the report names is stated by membership.
- Breakdown.Subtree: rationales, titles, states, dates and the contributes_to and depends_on lists of a node are copied from the item and its edges and left out; so is what `Breakdown.Ancestry` copies.
- Collaboration.Store.Dispatch: each request is one atomic step, as the workspace lock makes it; moments are whole numbers and one clock reading serves a whole request, where the code compares RFC 3339 texts read a moment apart. Well-formedness of names, time zones and user ids are flags of the request. A personal workspace's id is taken as the pair it is hashed from. The audit row, the replay of saved responses and the member list are left out.
- Conversation.Next: rows are named by the unique key they stand for instead of by a random id; `created_at`, `source` and `source_version` are left out. A read does not wait for another transaction's pending row, which allows more runs than the store does.
- Conversation.Tables.ClaimKey: alone the insert of a key is never lost to another call, so its lost branch exists only in `Next`.
- Sessions.Next: cryptography, the token service and the identity service are answers handed to each statement; a sealed cookie is accepted only if it was handed out. Signing in is one step; the pending logins, PKCE and the cookie header are left out. `signedIn` is kept for the proofs.
- Delegation.Delegations.EnsurePending: display names, client names and the last-used time are not modelled; whether the person may write in the workspace of a range is a flag of the request. Tokens and conversation links ended by a disconnection are left to their own modules.
- DelegationSteps.Next: requests that lock their one row in their first statement are single steps, and so is one statement; a statement whose rows are held waits, and a deadlock ends in a rollback. On SQLite a whole transaction excludes every other, which allows fewer runs.
- Migrations.Next: a statement is opaque and may fail at any time; that a script can be run again is not modelled. Runs are stated without the advisory lock; where it matters it is a condition on the run. All starters run the same build.
- Compare.OverlapIs: lower-casing, white space and trimming are functions handed in; texts such as rationales and notes are left out.
- HTTP, headers, CSRF, OpenAPI, MCP tool dispatch, SQL texts and dialects, rendering, viewport and label texts: plumbing around the decisions modelled here.
- The write paths of items and relations in `api/src/service.rs`, which the readers do not trust either, except for provisioning a personal workspace.
