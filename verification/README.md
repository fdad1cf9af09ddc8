# Bublik: a verified model of its stateful core

Bublik imports the logs of Test Environment runs into a database, follows runs that are still being executed, and
presents statistics about them.  This project models the parts of it that keep state across steps, and proves what
they are there for:

- **Execution plans and the plan tracker** (`Plans`, `PlanWalk`, `PlanItems`, `PlanTracking`).  A plan is a tree, but
  the objects it is made of are shared: one child object is appended once per iteration, a keepalive object is
  repeated, and their numbers are overwritten at each visit.  The tracker with its explicit stack is proved to perform
  the recursive preorder tour of the unfolded tree.
- **The live import protocol** (`LiveSession`, `LiveLog`, `LiveResults`, `LiveMirror`, `LiveProtocol`, `LiveGaps`,
  `LiveStream`, `LiveSteps`, `LiveExecution`, `LiveLosses`,
  `LiveRuns`, `LiveLeap`).  Every event is one step of a state machine; exceptions and failed assertions are
  rejections.  The class `LiveLog.LiveLogContext` is proved against the state machine, and the laws are proved of the
  state machine over all runs.
- **Prologue counts and progress** (`Prologues`, `Progress`): the table of tests lost when a prologue fails, and the
  accounting that makes a complete run count as fully done.
- **Run statistics** (`ResultTree`, `RunStats`, `LeafAgreement`, `SummaryTree`, `Percents`): the fold of a run's results into a
  summary tree, its agreement with the listing behind each leaf, conservation of counts, and percentages.
- **Salted hashing** (`HashedObjects`): open addressing over a database table.
- **The log import store** (`ImportDb`, `ImportLaws`, `ImportRuns`, `ImportStore`): get-or-create steps, the ancestor
  closure table, and importing a log twice.
- **Versioned configurations** (`Configs`, `ConfigStore`): activation, versions, signals and the cache.
- **Three smaller loops** (`LogTables`, `LogLines`, `Pruning`, `StaleRuns`): ancestor context in a log, batched pruning, closing a
  run whose import context is gone.

Code that changes state is a class, proved method by method against a function on values; the lemmas are about those
functions.  Names follow the source.  A timestamp is an integer number of microseconds.

## Where the code is not what it says, or what one would hope

Each of these is stated as an exact condition and shown on a concrete run.

- The two stacks of a live import do not always mirror each other.  After an accepted start event they do if and only
  if the event did not make the tracker skip, without filling, to something other than a later sibling of the expected
  item (`LiveProtocol.StartKeepsMirror`).  The parent check rules that out with nothing open and under a known open
  result (`LiveStream.ParentCheckStopsLeaps`), but not under a LOST one, whose node number is unknown:
  `LiveLeap.LostParentLeaps` is a run of three truthful events that records a test inside a package that had ended
  before it.
- The end event of the run itself is refused if it closes a gap, although the gap was filled to the very end
  (`LiveStream.GapEndAccepted`, `LiveRuns.RunEndRefused`).
- A lost node does not always leave a LOST result: it does if and only if its package hears of a later child
  (`LiveLosses.LossShows`, `LiveLosses.LossHidden`).  Nodes that were left out are filled in together with lost ones.
- `skip_until` for an end stops when the target is about to be left; its documentation says that it has just been left
  (`PlanWalk.SkipToExact`).
- Finishing a live run closes nothing, so results that are open stay unfinished (`LiveResults.FinishedRunIsComplete`).
- Deactivating or renaming a global configuration does not refresh the cache: the cache agrees afterwards only under the
  conditions in `Configs.DeactivatedOk` and `Configs.RenamedCacheOk` (`ConfigStore.StaleAfterDeactivation`,
  `ConfigStore.StaleAfterRename`).
- The database does not object to two default configurations (whose project is null) of one name with one content.
  Initializing the defaults looks for an active one only, so doing it again after a deactivation creates them
  (`ConfigStore.Store.InitializeDefault`, `ConfigStore.DuplicateDefault`).
- Deleting a hashed object hides exactly those other objects whose probing passes it, and the same data can then be
  stored twice (`HashedObjects.DeletionHides`, `HashedObjects.DeletionDuplicates`).
- A result with several error metas counts as unexpected several times.  When unexpected results exceed the total, by at
  most half a percent, the summary shows 1 percent expected (`Percents.SummaryFaithful`,
  `Percents.ExcessShownAsExpected`).
- An iteration has one recorded place: importing it inside a second iteration of its parent is refused
  (`ImportLaws.AddIterationExact`).  This cannot happen inside packages (`ImportLaws.PackageNeverRefuses`).

## Model

| member | source | states |
|---|---|---|
| PlanItems.PlanItem.constructor | bublik/core/importruns/live/plan_tracking.py:15-43 | the built graph of shared objects is closed under children and stands for what the description means: prologue first, epilogue last, between them the rounds of the children by position |
| PlanItems.PlanItem.AppendChildren | bublik/core/importruns/live/plan_tracking.py:31-39 | one object per child, appended once per iteration: round r of child i has the shared keepalive first and then the child unless it is skipped, children in order, none for a negative count, and nothing else |
| Plans.UnfoldMeaning | bublik/core/importruns/live/plan_tracking.py:15-43 | the unfolded tree has the name, type and flags of the description, the prologue first, the epilogue last, and between them exactly the rounds of the children |
| Plans.UnfoldAllHasRounds | bublik/core/importruns/live/plan_tracking.py:31-39 | where each round of each child is, and how many nodes there are in all |
| PlanItems.PlanItem.TestsNum | bublik/core/importruns/live/plan_tracking.py:50-57 | the number of test leaves of the unfolded plan |
| PlanItems.PlanItem.TreeNodesNum | bublik/core/importruns/live/plan_tracking.py:59-71 | the number of nodes of the unfolded plan |
| PlanItems.PlanItem.TestsNumPrologue | bublik/core/importruns/live/plan_tracking.py:73-98 | fills the passed table as the recursion over plan and running number does, shared objects included |
| Plans.TourLength | bublik/core/importruns/live/plan_tracking.py:118-151 | the reference tour of a plan has two events per node |
| Plans.TourIds | bublik/core/importruns/live/plan_tracking.py:138-144 | the reference tour enters and leaves each number from 0 to size - 1 and no other |
| Plans.TourInPreorder | bublik/core/importruns/live/plan_tracking.py:138-144 | nodes are entered in the order of their numbers, without gaps |
| PlanWalk.StepRefinesTour | bublik/core/importruns/live/plan_tracking.py:128-151 | the peeked event is the first remaining one, one step drops exactly that one, and the stack is empty exactly when nothing remains |
| PlanWalk.WalkRefinesTour | bublik/core/importruns/live/plan_tracking.py:101-155 | after k steps from the start exactly the tour without its first k events remains; the walk is over after twice as many events as nodes, numbers 0..N-1 in preorder |
| PlanWalk.NextKeepsIds | bublik/core/importruns/live/plan_tracking.py:128-144 | a frame that stays on the stack keeps its node and its number |
| PlanWalk.SkipToExact | bublik/core/importruns/live/plan_tracking.py:157-176 | a skip consumes exactly the events before the target event and runs to the end exactly when the target does not occur any more |
| PlanWalk.UpcomingEnters | bublik/core/importruns/live/plan_tracking.py:128-144 | exactly the numbers not yet handed out, and the one about to be entered, are still to be entered |
| PlanWalk.UpcomingExits | bublik/core/importruns/live/plan_tracking.py:128-144 | every node on the stack is still to be left |
| PlanWalk.WalkDetermined | bublik/core/importruns/live/plan_tracking.py:101-151 | the position in the plan, stack and all, is determined by the next event's number and kind |
| PlanTracking.SmallerThanAll | bublik/core/importruns/live/plan_tracking.py:138-143 | the item about to be numbered is none of the items on the stack, although items are shared |
| PlanTracking.PlanStackItem.NextChild | bublik/core/importruns/live/plan_tracking.py:111-115 | moves to the next child and returns a fresh entry for it, or nothing and no change after the last |
| PlanTracking.PlanTracker.constructor | bublik/core/importruns/live/plan_tracking.py:124-126 | starts at the root with number 0 |
| PlanTracking.PlanTracker.NextEvent | bublik/core/importruns/live/plan_tracking.py:128-144 | one step of the walk; numbers of items on the stack survive the renumbering of shared items |
| PlanTracking.PlanTracker.PeekEvent | bublik/core/importruns/live/plan_tracking.py:146-151 | the next event of the walk, read off the shared item |
| PlanTracking.PlanTracker.Finished | bublik/core/importruns/live/plan_tracking.py:153-155 | true exactly when no event of the plan remains |
| PlanTracking.PlanTracker.SkipUntil | bublik/core/importruns/live/plan_tracking.py:157-176 | stops before the target event, terminating for every target |
| Prologues.FillIsScan | bublik/core/importruns/live/plan_tracking.py:73-98 | the recursion builds the table that a reader of the tracker's events would build |
| Prologues.PrologueTableMatchesTracker | bublik/core/importruns/live/plan_tracking.py:73-98 | the keys are exactly the numbers under which the tracker enters prologues, for every occurrence, with that package's count |
| Progress.SkippedIsMiddle | bublik/core/importruns/live/plan_tracking.py:79-92 | with single-test prologue and epilogue the count is the number of tests between them |
| Progress.RunImport.HandleIteration | bublik/core/importruns/source/execution.py:109-118 | the recursion over a log counts every test result and records the table's count on every prologue that did not pass, in log order |
| Progress.RunImport.ActualTestsNum | bublik/core/run/stats.py:431-439 | the numerator of the progress: test results plus recorded counts |
| Progress.NodeAccounted | bublik/core/importruns/source/execution.py:109-118 | below every plan node, tests run plus counts recorded are the planned tests; a failure inside something skipped is never counted twice |
| Progress.CompleteRunIsFullProgress | bublik/core/run/stats.py:421-439 | for every assignment of statuses, a complete execution accounts for exactly the planned number of tests |
| LiveLog.LiveLogContext.constructor | bublik/core/importruns/live/context.py:214-234 | an import starts at the start of its plan with nothing open, expecting the plan's tests, with the run running unless its metadata gave a status |
| LiveLog.LiveLogContext.PushResult | bublik/core/importruns/live/context.py:474-486 | creates a row with the next execution number under the innermost open result and opens it |
| LiveLog.LiveLogContext.PopResult | bublik/core/importruns/live/context.py:533-580 | finishes the innermost open result and takes it off the stack |
| LiveLog.LiveLogContext.OnItemEnter | bublik/core/importruns/live/context.py:332-357 | fails exactly while a test is running; otherwise opens one LOST result a microsecond later |
| LiveLog.LiveLogContext.OnItemExit | bublik/core/importruns/live/context.py:359-364 | fails exactly when nothing is open; otherwise closes the innermost result as LOST a microsecond later |
| LiveLog.LiveLogContext.AdvancePlan | bublik/core/importruns/live/context.py:368-389 | fills to the target's start, or up to and with its end, as the state machine does |
| LiveLog.LiveLogContext.HandleTestStart | bublik/core/importruns/live/context.py:404-495 | one start step of the state machine: gap filling, silent skip, checks in the source's order, new result; what that step accepts and leaves is LiveSteps.StartExact |
| LiveLog.LiveLogContext.HandleTestEnd | bublik/core/importruns/live/context.py:497-581 | one end step of the state machine: gap filling and dropping, or silent skip, checks in the source's order, a test's obtained result, closing; what that step accepts and leaves is LiveSteps.OwnEndExact and LiveSteps.OtherEndExact |
| LiveLog.LiveLogContext.Feed | bublik/core/importruns/live/context.py:583-593 | processes events in order up to the first that is rejected |
| LiveLog.LiveLogContext.FatalError | bublik/core/importruns/live/context.py:391-402 | closes everything open, innermost first, then finishes the run a microsecond after the last and marks it interrupted |
| LiveLog.LiveLogContext.FeedRequest | bublik/interfaces/api_v2/importruns/views.py:130-179 | a chunk with a rejected event ends with nothing open, every result finished and otherwise as it was, and the run finished last and interrupted |
| LiveLog.LiveLogContext.Finish | bublik/core/importruns/live/context.py:608-615 | finishes the run at the reported time, marks it done, and touches no result |
| LiveResults.StepKeepsLog | bublik/core/importruns/live/context.py:404-581 | every event, sensible or not, keeps the results consistent (numbers 1..n in creation order, each open result inside the one below it, open exactly if unfinished), and every row that was there stays, with number, name, parent and start, unchanged if it was finished |
| LiveResults.ResultsNeverLost | bublik/core/importruns/live/context.py:583-593 | the same over every run: every result created stays in the table under the parent that was open around it then, and is finished or open |
| LiveResults.FatalErrorClosesAll | bublik/core/importruns/live/context.py:391-402 | nothing stays open, the k-th of n open results closes at the (n-k)-th microsecond as LOST, nothing else about any row changes |
| LiveResults.FinishedRunIsComplete | bublik/core/importruns/live/context.py:608-615 | after finishing, all results are finished if and only if none was open |
| LiveMirror.NextShape | bublik/core/importruns/live/plan_tracking.py:128-144 | entering pushes one open node, leaving pops one, nothing else changes which nodes are open |
| LiveMirror.SilentSkipToStart | bublik/core/importruns/live/context.py:434-435 | an unfilled skip leaves the open nodes as they were if and only if it ends at a later sibling |
| LiveMirror.SilentSkipToEnd | bublik/core/importruns/live/context.py:526-528 | an unfilled skip to the end of the innermost open node never changes the open nodes |
| LiveMirror.NotInsideATest | bublik/core/importruns/live/context.py:332-333 | when a node is about to be entered, the innermost open result is not a test |
| LiveProtocol.FillToExact | bublik/core/importruns/live/context.py:376-382 | filling never fails an assertion, keeps the mirror, and fills exactly the plan events before the target |
| LiveProtocol.AdvanceExact | bublik/core/importruns/live/context.py:368-389 | consumes and fills exactly the gap; if the target does not occur any more both stacks end up empty |
| LiveProtocol.StartKeepsMirror | bublik/core/importruns/live/context.py:404-495 | a start event never fails the assertions about the stacks; accepted, it keeps the mirror if and only if it did not leap |
| LiveProtocol.EndKeepsMirror | bublik/core/importruns/live/context.py:497-581 | an end event never fails the assertions about the stacks and always keeps the mirror |
| LiveProtocol.RunKeepsMirror | bublik/core/importruns/live/context.py:583-593 | over every run without leaps the stacks mirror each other and no assertion about them fails |
| LiveSteps.StartExact | bublik/core/importruns/live/context.py:404-495 | a start is accepted if and only if its node is still to be entered, has this name and type, and is reported inside the innermost open result or under a LOST one; if its number is more than one above the largest known, or a node had to end first, or a test is running, every plan event up to it is filled in as LOST, otherwise nothing; then its result is opened |
| LiveSteps.OwnEndExact | bublik/core/importruns/live/context.py:526-581 | the end of the innermost open result is accepted if and only if the node number fits (or is LOST) and a test brings its result; it closes that result and fills in nothing |
| LiveSteps.OtherEndExact | bublik/core/importruns/live/context.py:509-524 | any other end is accepted if and only if its node is still to be left and is not the run; every plan event up to and with it is filled in as LOST, its result is dropped, and its node number is remembered |
| LiveGaps.EnteredInGap | bublik/core/importruns/live/context.py:332-366 | each plan node entered in a gap has its own row with its name, type and the special TIN, inside the open result of the node around it, opened and closed at the microsecond of its own enter and exit event |
| LiveGaps.OpenBeforeGap | bublik/core/importruns/live/context.py:359-364 | a result open before a gap is closed as LOST at the microsecond of its node's exit if that lies in the gap, and is open otherwise |
| LiveGaps.AdvanceFillsGap | bublik/core/importruns/live/context.py:368-389 | a gap of n plan events advances the clock by n microseconds and adds one row per node entered, with the contents, parents and fates above |
| LiveRuns.ExecutionImported | bublik/core/importruns/live/context.py:404-593 | a lossless stream of any partial execution (whole subtrees left out, node numbers following the nodes started) is accepted to the end: the rows are the executed nodes in preorder with their reported times, inside the row of the node around them, none LOST, and both stacks end up empty |
| LiveRuns.HeardImported | bublik/core/importruns/live/context.py:404-593 | whatever whole parts of an execution were lost, and whichever of their ends arrive: every event that arrives is accepted, both stacks end up empty, and the results, open and LOST, with parents and times, are exactly those of the account of what was heard |
| LiveLosses.FillTrees | bublik/core/importruns/live/context.py:332-366 | filling the plan events of whole subtrees adds one LOST result per node in preorder, nested as the plan is, two microseconds per node |
| LiveLosses.LossShows | bublik/core/importruns/live/context.py:419-431 | a child that was started and never heard of has its LOST result, with everything inside it, if its package hears of a later child |
| LiveLosses.LostRow | bublik/core/importruns/live/context.py:332-357 | where a lost child's result is and what it contains |
| LiveLosses.LossHidden | bublik/core/importruns/live/context.py:526-528 | if its package hears of none, nothing is recorded of it |
| LiveExecution.RowsInPreorder | bublik/core/importruns/live/context.py:404-495 | the expected rows are the executed ones among the nodes the plan's tour enters, in its order |
| LiveStream.ParentCheckStopsLeaps | bublik/core/importruns/live/context.py:445-450 | an accepted start with its true parent, with nothing open or under an open result that is not LOST, does not leap |
| LiveStream.GapEndAccepted | bublik/core/importruns/live/context.py:510-524 | an end that closes a gap is accepted if and only if its node is still to be left and is not the root |
| LiveRuns.RunEndRefused | bublik/core/importruns/live/context.py:510-524 | start a run and its first child and lose the child's end: the run's own end is refused, with both stacks emptied |
| LiveLeap.LostParentLeaps | bublik/core/importruns/live/context.py:434-450 | three accepted events, with both starts reporting their true parent under one numbering, the last of which leaps: the stacks disagree afterwards and a test is recorded under the wrong package |
| StaleRuns.CheckRunTimeout | bublik/core/importruns/live/check.py:16-57 | closes exactly the unfinished live runs without context: pending results latest first, each after all starts and after the previous, the run last and with status error |
| ResultTree.ChildrenQuery | bublik/core/run/stats.py:157 | filtering the table by parent gives exactly that result's children in order |
| RunStats.CountedIsTally | bublik/core/run/stats.py:137-154 | subtracting the unexpected counts puts every result into exactly one of seven counters |
| RunStats.CountersMean | bublik/core/run/stats.py:137-154 | what each of the seven counters counts, by status and unexpectedness |
| RunStats.InfoNode.Append | bublik/core/run/stats.py:203-207 | a finished child is appended and its counters are added |
| RunStats.GenerateResult | bublik/core/run/stats.py:81-212 | the recursion over the flat table gives the recursive summary of the tree, added to the passed node or returned; which leaves and packages that shows is SummaryTree.SummaryShows |
| RunStats.GenerateChildren | bublik/core/run/stats.py:157-196 | the loop that emits a child only when the next one does not continue it emits exactly one summary per batch of consecutive executions |
| LeafAgreement.PeriodIsBatch | bublik/core/run/stats.py:119-129 | among strictly separated siblings, name and period select exactly the consecutive executions |
| LeafAgreement.FirstForeignIsFirst | bublik/core/result/services.py:165-174 | the limit of the window is the smallest number from the start on that belongs to another test |
| LeafAgreement.WindowIsBatch | bublik/core/result/services.py:157-179 | from the first number of a batch up to the first foreign number lies exactly the batch |
| LeafAgreement.LeafMatchesListing | bublik/core/result/services.py:157-179 | each leaf counts exactly the executions listed for its parent, name and execution number, in order |
| LeafAgreement.SummariesListed | bublik/core/run/stats.py:157-212 | every leaf of the summary that has a parent shows the tally of the results listed for its parent, name and execution number |
| SummaryTree.SummaryShows | bublik/core/run/stats.py:119-207 | a package's children in the summary are, one each and in order, the batches of consecutive executions for which results are listed and the packages with counted results; each carries the first execution's id, number, name and start and the last one's finish |
| SummaryTree.LeafShown | bublik/core/run/stats.py:131-135 | a test's leaf is there if and only if results are listed for it |
| SummaryTree.PackageInfo | bublik/core/run/stats.py:198-199 | a package is kept if and only if some test result inside has the required metas and a counted status |
| LeafAgreement.LeavesPartitionTests | bublik/core/run/stats.py:157-196 | the leaves of a package count its test results exactly once each |
| LeafAgreement.SummaryTally | bublik/core/run/stats.py:137-212 | a summary's counters are the tally of what its leaves count; dropping empty packages changes no total |
| LeafAgreement.SummaryIsAdditive | bublik/core/run/stats.py:198-207 | each retained package has some result and its counters are the sums of its children's |
| LeafAgreement.RunStatsConserved | bublik/core/run/stats.py:81-212 | a run's summary counts every test result with the required metas exactly once and nothing else |
| SummaryTree.GetRunStatsDetailed | bublik/core/run/stats.py:264-314 | the tree is there exactly if there is something to show, shows exactly that, has the tally of all the run's test results at the root, and is additive throughout |
| Percents.RoundNearest | bublik/core/run/stats.py:457-464 | rounding is off by at most a half |
| Percents.RoundComplement | bublik/core/run/stats.py:457-464 | two parts of 100 rounded half to even add up to exactly 100 |
| Percents.SummaryFaithful | bublik/core/run/stats.py:451-472 | with any result, the percentages add up to 100 and a part that is not empty never shows as 0; each is within 1 of the true value if and only if unexpected results do not exceed the total by at most half a percent |
| Percents.ExcessShownAsExpected | bublik/core/run/stats.py:451-472 | with 200 results and 201 unexpected ones, 1 percent shows as expected |
| HashedObjects.HashedModel.CreateHash | bublik/core/hash_system.py:38-79 | returns the hash of the first salt that is free or holds the same data, after at most one probe more than there are objects |
| HashedObjects.HashedModel.GetOrCreate | bublik/core/hash_system.py:90-98 | answers with an object holding the same data, new exactly if there was none, and keeps all objects reachable |
| HashedObjects.StopsOnce | bublik/core/hash_system.py:38-79 | probing for the same data up to order stops at the same salt and hash |
| HashedObjects.SameDataSameObject | bublik/core/hash_system.py:38-79 | two stored objects never hold the same data |
| HashedObjects.InsertKeepsReachable | bublik/core/hash_system.py:90-98 | storing where probing stops leaves every object where probing for it stops |
| HashedObjects.DeleteKeepsReachable | bublik/interfaces/signals.py:73-80 | a deletion keeps all the others reachable if and only if no probing for one of them passes the deleted hash |
| HashedObjects.DeletionHides | bublik/interfaces/signals.py:73-80 | a deletion hides exactly those other objects whose probing passes the deleted hash |
| HashedObjects.DeletionDuplicates | bublik/interfaces/signals.py:73-80 | a collision, a deletion and a second store of the same data leave two objects with that data |
| HashedObjects.SameAnswerSameData | bublik/core/hash_system.py:90-98 | over every insert-only run, two calls get the same object if and only if their data is the same |
| ImportStore.Store.AddTest | bublik/core/run/objects.py:35-41 | get or create a test; refused exactly for a new test whose name is taken below its parent |
| ImportStore.Store.AddRelation | bublik/core/run/objects.py:44-50 | get or create a relation; one per iteration and depth |
| ImportStore.Store.AddIteration | bublik/core/run/objects.py:53-106 | get or create an iteration and relate it to what is around it |
| ImportStore.Store.AddAncestors | bublik/core/run/objects.py:90-104 | the loop relates an iteration to its parent, that one's parent, and so on to the given depth |
| ImportStore.Store.AddIterationResult | bublik/core/run/objects.py:109-169 | one result per execution number: created, or updated, or refused exactly if the existing one has another parent or another TIN that is not special |
| ImportStore.Store.HandleIteration | bublik/core/importruns/source/execution.py:49-188 | imports one iteration and everything inside it, parents first, under the rows just written; what that records is ImportRuns.ImportRecords |
| ImportStore.Store.HandleIterations | bublik/core/importruns/source/execution.py:34-46 | imports sibling iterations in order under the same parent |
| ImportStore.Store.HandleLog | bublik/core/importruns/source/execution.py:34-46 | after a successful import the log is recorded, and the tables' constraints hold |
| ImportLaws.AddRelationsExact | bublik/core/run/objects.py:93-104 | the walk up the parents finds its row every time and adds exactly the d-th ancestor at every depth d |
| ImportLaws.AddTestValid | bublik/core/run/objects.py:35-41 | adding a test keeps the closure |
| ImportLaws.AddIterationExact | bublik/core/run/objects.py:53-106 | under any iteration of the parent, an iteration is refused if and only if it is recorded inside another one; otherwise the relation table stays the ancestor closure; no lookup ever fails |
| ImportLaws.PackageNeverRefuses | bublik/core/run/objects.py:53-106 | inside a package or session no iteration is refused |
| ImportLaws.KnownIteration | bublik/core/run/objects.py:53-106 | adding an iteration that is there changes nothing, or is refused if it is recorded inside another one |
| ImportRuns.ImportValid | bublik/core/importruns/source/execution.py:49-188 | importing a whole log, whatever contains what, keeps the relation table the ancestor closure |
| ImportRuns.ImportRecords | bublik/core/importruns/source/execution.py:34-188 | every iteration of the log has a test of its name and kind below the enclosing test, an iteration of it inside the enclosing iteration, and exactly one result with its number, TIN and times inside the enclosing result; no other result is added and results with other numbers stay |
| ImportRuns.AddRelationsAgain | bublik/core/run/objects.py:93-104 | walking up again in any larger table finds everything and adds nothing |
| ImportRuns.ImportOneAgain | bublik/core/importruns/source/execution.py:49-97 | importing an iteration into tables that hold it changes nothing and gives the same rows |
| ImportRuns.ReimportIsIdempotent | bublik/core/importruns/source/execution.py:34-188 | importing the same log a second time changes no test, iteration, relation or result |
| ConfigStore.Store.GetLatest | bublik/data/models/config.py:68-78 | the row with the highest version of the group, none exactly if the group is empty |
| ConfigStore.Store.GetActiveOrNone | bublik/data/models/config.py:80-93 | an active row of the group, none exactly if there is none |
| ConfigStore.Store.CalcVersion | bublik/data/models/config.py:212-216 | one more than every version of the group, 0 for the first |
| ConfigStore.Store.Activate | bublik/data/models/config.py:200-210 | makes exactly this row of the group active and leaves all else as it is; only a newly activated row sends a signal |
| ConfigStore.Store.AddVersion | bublik/data/serializers/config.py:202 | stores an inactive row with the next version; the store stays valid if and only if the content is new to the group |
| ConfigStore.Store.Create | bublik/data/serializers/config.py:200-205 | refused exactly for a repeated content in a project; otherwise adds one row with the next version, active alone if asked for; the rows' invariant holds afterwards if and only if the content is new to the group |
| ConfigStore.Store.InitializeDefault | bublik/interfaces/management/commands/initialize_configs.py:18-44 | creates a default unless one is active; the rows' invariant breaks if and only if none is active and one has the content |
| ConfigStore.DuplicateDefault | bublik/data/serializers/config.py:147-157 | initialize, deactivate and initialize again: the group holds the same content twice |
| ConfigStore.StaleAfterDeactivation | bublik/data/serializers/config.py:165-167 | create an active global configuration and deactivate it: none is active and the cache does not agree |
| ConfigStore.StaleAfterRename | bublik/interfaces/api_v2/config/views.py:96-110 | create an active global configuration and rename it: the group is gone and the cache does not agree |
| ConfigStore.Store.GetOrCreate | bublik/data/serializers/config.py:170-198 | an existing version with this content and nothing changed, or one row added with the next version; keeps rows and cache right always |
| ConfigStore.Store.Post | bublik/data/serializers/config.py:64-97 | succeeds exactly for an unused and, if global, known name; then adds one row |
| ConfigStore.Store.Update | bublik/data/serializers/config.py:159-168 | activates or deactivates; the cache stays right if and only if nothing but an empty content was deactivated |
| ConfigStore.Store.Edit | bublik/interfaces/api_v2/config/views.py:126-150 | the version with the new content is added, or an existing one activated or deactivated, and nothing else changes; the cache stays right if and only if no active global version with a content that is not empty was deactivated |
| ConfigStore.Store.Rename | bublik/interfaces/api_v2/config/views.py:96-110 | exactly if the new name is known and unused, every version of the configuration has the new name and nothing else changes |
| ConfigStore.Store.Delete | bublik/interfaces/signals.py:37-59 | removes the row; if it was active, exactly the highest remaining version of its group becomes active; keeps rows and cache right |
| ConfigStore.Store.ActivateLatestAfterDelete | bublik/interfaces/signals.py:54-59 | after an active row is gone, the highest version becomes the only active one, if there is any |
| ConfigStore.HighestIsUnique | bublik/data/models/config.py:68-78 | with distinct versions the highest one is determined |
| ConfigStore.Store.GetGlobalContentFromCache | bublik/core/config/services.py:29-39 | returns the active configuration's content, or nothing if none is active; exactly this entry is in the cache afterwards, which stays right |
| ConfigStore.Store.GetattrFromGlobal | bublik/core/config/services.py:41-65 | the project's value, else the default configuration's, else the default: as if there were no cache |
| Configs.ActivatedOk | bublik/data/models/config.py:200-210 | one active row per group afterwards, and the cache right although the bulk deactivation sends no signal |
| Configs.AddedOk | bublik/data/models/config.py:195-198 | the next version keeps the groups' invariant if and only if its content is new to the group |
| Configs.SavedOk | bublik/interfaces/signals.py:30-34 | the saving signal keeps the cache right |
| Configs.DeactivatedOk | bublik/data/serializers/config.py:165-167 | deactivation keeps the groups' invariant; the cache stays right if and only if the row is not global or is empty |
| Configs.RenamedGroupsOk | bublik/interfaces/api_v2/config/views.py:96-110 | renaming to an unused name keeps the groups' invariant |
| Configs.RenamedCacheOk | bublik/interfaces/api_v2/config/views.py:96-110 | exactly when the cache is still right after a renaming |
| Configs.RemovedOk | bublik/interfaces/signals.py:37-41 | deleting keeps the groups' invariant, and dropping the entry keeps the cache right |
| LogLines.FlatLinesNested | bublik/mcp/processor.py:492-565 | in the flattened log every line's parent is there, one level up |
| LogTables.FlattenLinked | bublik/mcp/processor.py:514-565 | flattening nested data links every line to the line it was nested in |
| LogTables.FlattenTablesLists | bublik/mcp/processor.py:492-565 | every item of the log at any depth has exactly one line, with its own data, its table, its depth and the number of the item around it, in preorder, and there are no other lines |
| LogLines.AncestorIsOutside | bublik/mcp/processor.py:385-424 | a line's ancestors are exactly the lines of the items its item is nested in |
| LogLines.UpwardClosed | bublik/mcp/processor.py:396-408 | the collected ancestors contain their own ancestors, so breaking off at a collected one is sound |
| LogLines.CollectAncestors | bublik/mcp/processor.py:396-408 | the walk with its early break adds exactly the line's ancestors and ends |
| LogLines.AddParentContext | bublik/mcp/processor.py:385-424 | exactly the matched lines and all their ancestors, once each, sorted |
| LogLines.GetLines | bublik/mcp/processor.py:337-358 | an item's line is returned if and only if it or something nested in it passes all filters; nothing else, once each, sorted |
| Pruning.NewestUnique | bublik/core/analytics/services.py:255-272 | which events are the newest n is determined |
| Pruning.Oldest | bublik/core/analytics/services.py:244-248 | ordering and limiting selects the oldest events, as many as asked for or all |
| Pruning.AnalyticsEvents.PruneByAge | bublik/core/analytics/services.py:240-253 | for every batch size, deletes exactly the events before the cutoff and counts them |
| Pruning.AnalyticsEvents.PruneByCap | bublik/core/analytics/services.py:255-272 | for every batch size, keeps exactly the newest events up to the cap and counts the others |
| Pruning.AnalyticsEvents.PruneEvents | bublik/core/analytics/services.py:219-278 | refuses exactly bad arguments; otherwise keeps, of the events not too old, the newest up to the cap by time and id; the three counts add up to the initial number |

## Left out

- Preconditions of the mirror results: in the plan, nodes of type test have no children.
- Preconditions of the progress results: prologues and epilogues are single tests, and tests are left out only because a
  prologue did not pass.
- Preconditions of the statistics results: a single main package, siblings that run one after another with strictly
  separated times, execution numbers in execution order, and one type per test name below a parent (the database has one
  test of a name below a parent).
- Percents.SummaryFaithful: percentages are computed in exact arithmetic.
- Prologues.PrologueTableMatchesTracker: says nothing about `PlanItem.parent`, which nothing reads.
- LiveLog.LiveLogContext.FatalError: takes entries off the stack one by one instead of dropping the stack at the end;
  which configured meta holds the run's status is not modelled.
- LiveLog.LiveLogContext.HandleTestEnd: a test's result is finished before its missing obtained result is noticed; the
  model rejects without that write, which the fatal error that follows overwrites.  Verdicts and expectations are not
  modelled.
- LiveLog.LiveLogContext.HandleTestStart: tests and iterations behind a result are not repeated here; the import store
  models them.
- LiveRuns.HeardImported: parts are lost whole, with at most their own end arriving; a start without its end, and a lost
  package whose inner events arrive, are covered event by event only (`LiveSteps`).
- Live events of type artifact, the node number converter, verdicts, expectations and tags; an event without a required
  attribute is one rejected event, whichever attribute it is.
- The mismatch assertions on plan and node numbers (context.py:452 and 534) are rejections of their own, since a
  malformed stream can reach them.
- `skip_all`, `NodeIDConverter`, serialization of the context between requests, and the initial request's checks.
- StaleRuns.CheckRunTimeout: the pending results are given in the order of their start, as the query returns them.
- ImportStore.Store.AddIterationResult: results of other runs, and blank results removed before a re-import, are not
  modelled; a rejected import is rolled back, so nothing is said about the tables then.
- HashedObjects.HashedModel.CreateHash: the hash function and the equality up to order are parameters; different salts
  are taken to give different hashes of the same data.  `update_hash` is not modelled.
- ConfigStore.Store.Create: users, descriptions and schema validation are not modelled.
- ConfigStore.Store.GetattrFromGlobal: the schema's default for an attribute is a parameter.
- LogLines.GetLines: pagination, truncation and rendering are not modelled.
- Pruning.AnalyticsEvents.PruneEvents: the current time is a parameter, and retention is in its unit.
- Concurrent requests and transactions, SQL and the object-relational mapper; tables are maps, sets and sequences.
- Requirements, objectives, comments, measurements and run metadata; the run cache; the filter expression language.
