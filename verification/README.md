# BitFun: verified models

Dafny models of five stateful parts of BitFun, with proofs of what those parts are relied on for.
`dafny verify dfyconfig.toml` checks everything.

1. **Lane layout of the git graph** (`CommitGraph`, `LaneLayout`, `FallbackLayout`, `PathModel`, `PathProofs`,
   `PathColumns`, `PathLines`, `PathSolver`, `LaneDrawing`, `GraphLayout`, `KeptDrawing`). Two algorithms give every
   commit a lane: a one-pass first-fit allocator and a solver that walks mutable vertices from branch to branch. Both
   are proved against one contract (`LaneLayout.Meets`). The allocator is optimal. The solver terminates, although
   its outer loop visits the same row again and again; its slots stay well formed, its lane count is bounded, and a
   closed form tells where it puts every commit of every history: on the point that counts the older lines taking
   one there. The classes in `PathSolver` change vertices in place and are proved to follow the value model in
   `PathModel`.
2. **The AI stream processor** (`Json`, `JsonRepair`, `JsonText`, `ToolCalls`, `StreamLog`, `StreamProcessor`,
   `StreamRuns`, `StreamReports`, `StreamResults`, `CallRecords`). A run is a sequence of items (response, error,
   timeout, end, cancellation). The final log, the recorded tool calls and the result are proved to be determined by
   the items, response by response, and to agree with each other: deltas of many calls may be interleaved, and each
   call is recorded as what its own deltas add up to. The tool call accumulator behind it and its repair of cut-off
   JSON are modelled too, the repair against a grammar of well-nested texts.
3. **The chat display** (`ChatModel`, `ChatFlow`, `ChatEnds`, `ChatTotals`, `ChatTools`, `ChatCards`, `ChatCache`,
   `ChatState`). The class follows a step function; index, chronological order, mirrored message, what a finished
   message and every card still show, versions and tolerance of reordered events are proved of every run of that
   function, and the cache of drawn messages is proved never to show anything stale.
4. **Assembly of the graph's rows** (`Sorting`, `GraphData`, `GraphRows`). Stashes are spliced in from the back; the
   result is the one-pass interleave, keeps the log's order, and is a history in the sense the layout needs. Which
   rows there are, in what order and with which labels is proved of the finished list.
5. **Uninstall clean-up** (`Paths`, `Uninstall`). Which directories are collected above the installed files, and
   exactly which of them survive deepest-first removal.

Mutable state is held by classes in `PathSolver` (vertices and branches), `ToolCalls` (pending calls),
`StreamProcessor` (the run's context), `ChatState`, `ChatCache` (the view's cache) and `Uninstall` (the file system);
`FallbackLayout` and `GraphLayout` work on arrays and vertices in place. Each of their methods is specified by
functions of the same module, of `PathModel` or of `ChatModel`; the other modules hold no state between calls.

## What turned out not to hold

* **A kept solver drawing may hide a commit.** Row info above a row need not show every commit that is still
  awaited, and rows pending together may share a lane. `KeptDrawing.KeptIsCompleteIff` gives the exact condition in
  terms of the commits: a closed form tells the lane of every commit (`PathLines.SolvedPoints`), and the drawing is
  complete if and only if none of those lanes hides a pending commit. Histories in which no commit has two children
  and every commit with a child has a parent are complete (`KeptDrawing.UnforkedIsComplete`); that condition is
  sufficient only. Histories in which the main line is forked above one of its commits never are
  (`KeptDrawing.ForkOfMainLineIsHidden`); `KeptDrawing.FeatureBranchIsHidden` and `GraphLayout.SolverCanHideACommit`
  are inputs, without a merge and with one. The fallback's drawing is always complete.
* **Metadata merging is not associative in general.** `Json.MergeAssociativeIff` gives the exact condition,
  `Json.MergeDependsOnGrouping` an input.
* **Repaired JSON can stay open.** A text cut directly behind a backslash gets its closing quote escaped:
  `JsonText.RepairNestsIff`, with `JsonRepair.RepairCanLeaveAStringOpen`.
* **An upstream failure can be reported as a cancellation.** Closing events are chosen by looking for a word in the
  failure's text: `StreamReports.FailureReportedAsCancelledIff`, with
  `StreamReports.FailureCanBeReportedAsCancelled`.
* **A stripped write can still show or keep its content.** It is shown if and only if arguments come before the name
  (`ToolCalls.ContentShownIff`), and kept in the record's text if and only if the arguments name no file
  (`ToolCalls.ContentKeptIff`, with `ToolCalls.RecordCanKeepContent`). Nothing but a path is shown under the
  name of a write (`StreamReports.WritesAreStripped`).
* **Text of a turn that fails or is cancelled stays marked as streaming.** `ChatEnds.TextLeftStreamingIff` is exact.
* **A message posted during a turn cuts the turn's own message off.** `ChatEnds.StreamsLastIff` tells exactly when a
  message is still fed, `ChatEnds.PostCutsTurnOff` that it is left streaming otherwise.
* **Late early-stage events do hide a pending confirmation.** Only execution statuses are protected:
  `ChatTools.LastSetterDecides` is exact, `ChatTools.LateStageHidesConfirmation` shows the other side.
* **Collected directories stay below the root only if every target does**
  (`Uninstall.CollectedStayBelowRootIff`), which fails for manifests with a nameless entry
  (`Uninstall.TargetsStayBelowRootIff`, `Uninstall.NamelessEntryLeavesRoot`). Even then nothing above an existing
  root is removed (`Uninstall.UninstallLeaves`).

## Model

| member | source | states |
|---|---|---|
| CommitGraph.FillLookup | MiniApp/Demo/git-graph/source/worker.js:254 | writing each row's index over an earlier table sends every listed hash to its last row and leaves other entries as they were |
| CommitGraph.NoStaleEntryIff | MiniApp/Demo/git-graph/source/worker.js:254 | the overwritten table has no stale entry if and only if everything the earlier one knew is still listed |
| CommitGraph.BuildLookup | MiniApp/Demo/git-graph/source/ui.js:370-371 | the table sends each listed hash to the last row that carries it and no other key to anything |
| CommitGraph.LookupInverts | MiniApp/Demo/git-graph/source/ui.js:284-285 | with distinct hashes the table inverts reading a row's hash |
| CommitGraph.WidthIsLowerBound | MiniApp/Demo/git-graph/source/ui.js:283-342 | no assignment that keeps simultaneously open rows on different lanes fits into fewer lanes than the widest row needs |
| CommitGraph.PendingAfterFitsBelow | MiniApp/Demo/git-graph/source/ui.js:333-337 | what is pending behind a row never exceeds that width |
| LaneLayout.ParentRowsAreLinks | MiniApp/Demo/git-graph/source/ui.js:312-314 | the rows found for a commit's parents are exactly the rows it links to |
| LaneLayout.ParentLanesInOrder | MiniApp/Demo/git-graph/source/ui.js:309-331 | every layout that meets the contract draws one parent lane per listed parent, the lane that parent lands on, in the order the commit names them |
| FallbackLayout.PlaceCommit | MiniApp/Demo/git-graph/source/ui.js:294-307 | a row takes the lane a child reserved for it, else the lowest free one; afterwards the active lanes hold exactly the other pending commits, each on its fixed lane |
| FallbackLayout.ReserveParent | MiniApp/Demo/git-graph/source/ui.js:316-330 | an in-list parent keeps its lane if it has one, else the first parent takes the child's lane and others the lowest hole; the lane list never outgrows the width |
| FallbackLayout.PlaceParents | MiniApp/Demo/git-graph/source/ui.js:309-331 | after all parents the frontier is exactly the set of rows still awaited, and the recorded lanes are the lanes the parents land on |
| FallbackLayout.DrawRow | MiniApp/Demo/git-graph/source/ui.js:292-339 | one row of the pass moves no earlier lane and keeps frontier exactness |
| FallbackLayout.FullFrontier | MiniApp/Demo/git-graph/source/ui.js:298-302 | a lane list without a hole is no longer than the number of open rows, so a new lane is opened only when needed |
| FallbackLayout.CountIsWidth | MiniApp/Demo/git-graph/source/ui.js:333-341 | the number of lanes opened is the width |
| FallbackLayout.FillLanes | MiniApp/Demo/git-graph/source/ui.js:287-339 | the pass leaves every row settled, the lanes recorded in the array, and the highest of them known |
| FallbackLayout.ComputeFallbackLayout | MiniApp/Demo/git-graph/source/ui.js:283-342 | the layout meets the shared contract, never puts simultaneously open rows on one lane, shows every awaited commit, is first-fit, and `laneCount` equals the optimum |
| PathProofs.MergeStopsAtOnce | MiniApp/Demo/git-graph/source/ui.js:232-243 | the merge arm ends after one row: it reads back the slot it has just registered |
| PathProofs.MergeKeeps | MiniApp/Demo/git-graph/source/ui.js:229-244 | the merge arm keeps the slot invariant, adds at most one slot per row and finishes exactly one parent link |
| PathProofs.BranchBegins | MiniApp/Demo/git-graph/source/ui.js:246-248 | a new branch starts with a point no other slot uses and all invariants of the walk in place |
| PathProofs.WalkKeeps | MiniApp/Demo/git-graph/source/ui.js:249-266 | the walk down a branch keeps the slot invariant, reserves the rows it passes and finishes at least the link it owes |
| PathProofs.RunKeeps | MiniApp/Demo/git-graph/source/ui.js:222-270 | every run keeps the slot invariant and strictly lowers unprocessed parent links plus rows without a branch |
| PathProofs.SolveKeeps | MiniApp/Demo/git-graph/source/ui.js:272-281 | the outer loop ends with every row finished, and no row gains more slots than there was work |
| PathProofs.EveryRowIsPlaced | MiniApp/Demo/git-graph/source/ui.js:179-199 | at the end every row is on a branch, has no parent left, no empty and no repeated slot, and stands on the slot that names itself and its branch |
| PathProofs.LanesAreBounded | MiniApp/Demo/git-graph/source/ui.js:272-281 | every lane is below commits plus parent links |
| PathProofs.FirstParentIsReserved | MiniApp/Demo/git-graph/source/ui.js:249-262 | every row strictly between a commit and its in-list first parent has a slot leading to that parent on the commit's own branch |
| PathColumns.RunIsSteady | MiniApp/Demo/git-graph/source/ui.js:246-268 | where no row is named twice and no named row is a root, every run takes one column of every row below its start |
| PathColumns.ColumnsFollow | MiniApp/Demo/git-graph/source/ui.js:222-281 | on such graphs rows in one column follow one another |
| PathLines.LinesAreLines | MiniApp/Demo/git-graph/source/ui.js:222-281 | every row is on the oldest line that leads to it, or begins one |
| PathLines.MergeClocked | MiniApp/Demo/git-graph/source/ui.js:229-244 | the merge arm takes a point on the next row exactly if no line leads from there to the parent yet |
| PathLines.WalkHalts | MiniApp/Demo/git-graph/source/ui.js:249-266 | a walk puts on its branch exactly the rows of its line, and takes a point exactly on the rows the line passes |
| PathLines.RunClocked | MiniApp/Demo/git-graph/source/ui.js:222-270 | runs go along the lines in the order of their age, one line each |
| PathLines.SolvedPoints | MiniApp/Demo/git-graph/source/ui.js:222-281 | on every well-formed graph the solver puts every row on the point that counts the older lines taking one there |
| PathSolver.Vertex.AddParent | MiniApp/Demo/git-graph/source/ui.js:171 | a parent is appended and nothing else changes |
| PathSolver.Vertex.RegisterParentProcessed | MiniApp/Demo/git-graph/source/ui.js:175 | the next parent moves on by one and nothing else changes |
| PathSolver.Vertex.GetPointConnectingTo | MiniApp/Demo/git-graph/source/ui.js:179-186 | the scan finds the first slot that leads to the vertex on the branch, by object identity |
| PathSolver.Vertex.RegisterUnavailablePoint | MiniApp/Demo/git-graph/source/ui.js:187-193 | a point is taken exactly if it is the next free one |
| PathSolver.Vertex.AddToBranch | MiniApp/Demo/git-graph/source/ui.js:194-199 | only a vertex without a branch joins one |
| PathSolver.RunMerge | MiniApp/Demo/git-graph/source/ui.js:230-244 | the loop over vertices does what the value model's merge arm does |
| PathSolver.VisitRow | MiniApp/Demo/git-graph/source/ui.js:250-262 | one row of the branch arm, including the return that skips what follows the loop |
| PathSolver.RunBranch | MiniApp/Demo/git-graph/source/ui.js:246-268 | the branch arm in place equals the value model's |
| PathSolver.Run | MiniApp/Demo/git-graph/source/ui.js:223-270 | one run in place equals the value model's |
| LaneDrawing.BusyLanesBelong | MiniApp/Demo/git-graph/source/ui.js:404-424 | whatever the lanes are, a lane drawn busy leads to a commit awaited there and on that lane |
| LaneDrawing.ShowsAllStep | MiniApp/Demo/git-graph/source/ui.js:409-422 | a row keeps the drawing complete if and only if it hides nobody |
| LaneDrawing.AllShownIffNobodyHidden | MiniApp/Demo/git-graph/source/ui.js:404-424 | the drawing is complete through a row if and only if no row above hid anybody |
| LaneDrawing.ConflictFreeHidesNobody | MiniApp/Demo/git-graph/source/ui.js:404-424 | lanes that keep open rows apart hide nobody |
| GraphLayout.BuildVertices | MiniApp/Demo/git-graph/source/ui.js:375-392 | the vertices represent the graph of the list, parents outside it included or left out as the option says |
| GraphLayout.OutsideTargets | MiniApp/Demo/git-graph/source/ui.js:384-391 | without the option every parent has its place; with it a parent outside the list counts only if it is the first |
| GraphLayout.DeterminePath | MiniApp/Demo/git-graph/source/ui.js:272-281 | the outer loop terminates and leaves the vertices as the solved value model |
| GraphLayout.DrawLayout | MiniApp/Demo/git-graph/source/ui.js:400-430 | lanes, parent lanes, busy lanes and lane count are drawn from the solved vertices |
| GraphLayout.IsReasonableLayout | MiniApp/Demo/git-graph/source/ui.js:344-360 | exactly which layouts are kept: well-formed ones, unless there are twelve commits or more and twice the lanes are more than the commits and one |
| GraphLayout.OnlyWidthIsUnreasonable | MiniApp/Demo/git-graph/source/ui.js:344-360 | a layout that meets the contract is rejected only for width, from twelve commits on |
| GraphLayout.SolverIsBounded | MiniApp/Demo/git-graph/source/ui.js:425-430 | the solver's `laneCount` is at most commits plus parent links |
| GraphLayout.ComputeGraphLayout | MiniApp/Demo/git-graph/source/ui.js:368-432 | on every history the result meets the shared contract, is the fallback exactly if there are twelve commits or more and some solver lane is at or above half of them, rounded up, and from twelve commits on has at most that many lanes or the optimum |
| GraphLayout.CompleteIffNobodyHidden | MiniApp/Demo/git-graph/source/ui.js:404-424 | a drawing shows every awaited commit above every row if and only if no row hides one |
| GraphLayout.RootsShareALane | MiniApp/Demo/git-graph/source/ui.js:222-281 | a merge of two roots: all three commits end up on lane 0 |
| GraphLayout.SolverCanHideACommit | MiniApp/Demo/git-graph/source/ui.js:425-431 | that drawing is kept although it hides a commit and lets pending rows share a lane |
| KeptDrawing.KeptIsCompleteIff | MiniApp/Demo/git-graph/source/ui.js:368-432 | from the commits alone: whether the solver is too wide, on which lane each commit is, and if and only if which of them are hidden the kept drawing is incomplete |
| KeptDrawing.UnforkedIsComplete | MiniApp/Demo/git-graph/source/ui.js:368-432 | where no commit has two children and every commit with a child has a parent, a kept drawing is conflict-free and complete |
| KeptDrawing.MainLineIsFirstLane | MiniApp/Demo/git-graph/source/ui.js:222-281 | the first-parent chain of the newest commit is on lane 0 all the way |
| KeptDrawing.ForkOfMainLineIsHidden | MiniApp/Demo/git-graph/source/ui.js:404-431 | every history in which a commit of that chain has a child above the chain's commit before it is drawn incompletely if kept |
| KeptDrawing.FeatureBranchIsHidden | MiniApp/Demo/git-graph/source/ui.js:404-431 | such a history: two commits on the main line, one on a branch from the same base, no merge |
| Sorting.SortSorts | MiniApp/Demo/git-graph/source/worker.js:237 | sorting sorts |
| Sorting.SortPermutes | MiniApp/Demo/git-graph/source/worker.js:237 | sorting permutes |
| Sorting.SortStable | MiniApp/Demo/git-graph/source/worker.js:237 | elements the order does not separate keep their order |
| GraphData.MarkListed | MiniApp/Demo/git-graph/source/worker.js:215-230 | a listed stash marks its own row, the last one winning |
| GraphData.CollectInsertions | MiniApp/Demo/git-graph/source/worker.js:231-236 | the stashes to insert, in order |
| GraphData.InsertionMembers | MiniApp/Demo/git-graph/source/worker.js:231-236 | exactly the unlisted stashes with a listed base are inserted, at their base's row |
| GraphData.OwnStashesNewestFirst | MiniApp/Demo/git-graph/source/worker.js:237 | the stashes of one commit are all there, newest first, ties in their original order |
| GraphData.SpliceStep | MiniApp/Demo/git-graph/source/worker.js:238-253 | splicing at the smallest remaining index extends the interleave by that stash |
| GraphData.SpliceStashes | MiniApp/Demo/git-graph/source/worker.js:238-253 | sorted back-to-front splices equal the one-pass interleave |
| GraphData.WeaveMembers | MiniApp/Demo/git-graph/source/worker.js:238-253 | the interleave holds exactly the log's commits and the inserted stashes |
| GraphData.WeaveKeepsLog | MiniApp/Demo/git-graph/source/worker.js:238-253 | leaving the stashes out gives back the log in its own order |
| GraphData.WeaveIsHistory | MiniApp/Demo/git-graph/source/worker.js:238-253 | distinct hashes, and every parent below its children, also with the stashes in |
| GraphData.CollectedAreInsertable | MiniApp/Demo/git-graph/source/worker.js:231-237 | what git promises about log and stashes is what the interleave needs |
| GraphData.WeaveRows | MiniApp/Demo/git-graph/source/worker.js:213-253 | ordering log and stashes yields the interleave, and it is a history |
| GraphData.AttachRefs | MiniApp/Demo/git-graph/source/worker.js:255-266 | every ref goes to the row found by linear search for its hash, in order |
| GraphData.RefsAttachedOnce | MiniApp/Demo/git-graph/source/worker.js:254-266 | one label per ref that points into the list, none else |
| GraphData.AllRefsAttachedOnce | MiniApp/Demo/git-graph/source/worker.js:254-266 | the same for heads, tags and remotes together |
| GraphData.LoggedStaysListed | MiniApp/Demo/git-graph/source/worker.js:214-254 | whatever the log's table knows is still listed once stashes are in |
| GraphData.HangRefs | MiniApp/Demo/git-graph/source/worker.js:254-266 | the log's table, overwritten with the finished order, agrees with linear search, so every ref is hung on its own row |
| GraphData.UncommittedOnTop | MiniApp/Demo/git-graph/source/worker.js:267-276 | a history with the uncommitted row in front is still a history |
| GraphData.AssembleGraph | MiniApp/Demo/git-graph/source/worker.js:210-276 | the rows are the decorated interleave of the shown part of the log, with the uncommitted row in front exactly if the head is listed and something changed; they satisfy what the layout requires |
| GraphRows.CommitIsShown | MiniApp/Demo/git-graph/source/worker.js:210-253 | every shown commit has exactly one row, with its own parents, marked as a stash exactly if it is one |
| GraphRows.CommitsKeepOrder | MiniApp/Demo/git-graph/source/worker.js:238-253 | shown commits keep the order of the log |
| GraphRows.StashIsShown | MiniApp/Demo/git-graph/source/worker.js:231-253 | every stash that is not shown as a commit, on a base that is, has exactly one row; it is the child of its base, carries the stash, and only stashes of that base that are not newer stand between the two |
| GraphRows.UncommittedIsShownIff | MiniApp/Demo/git-graph/source/worker.js:267-276 | the first row stands for uncommitted changes if and only if something has changed and the head has a row; it is a child of the head, and no other row is one |
| GraphRows.NothingElseIsShown | MiniApp/Demo/git-graph/source/worker.js:210-266 | every other row is a shown commit or such a stash, and its heads, tags and remotes are exactly the refs of each kind that point at it, in order; a remote is the part of the name before its first slash |
| Json.MergeInto | src/crates/agent-stream/src/lib.rs:411-423 | merging in place, in any key order, equals the recursive merge of values; null is stored |
| Json.MergeIdempotent | src/crates/agent-stream/src/lib.rs:411-423 | merging a value with itself changes nothing |
| Json.MergeAbsorbs | src/crates/agent-stream/src/lib.rs:411-423 | merging the same overlay twice equals merging it once |
| Json.CoveredIffOverwritten | src/crates/agent-stream/src/lib.rs:411-423 | an overlay replaces a value altogether if and only if it has every key of every object in it |
| Json.MergeAssociativeIff | src/crates/agent-stream/src/lib.rs:970-975 | grouping does not matter if and only if no path clashes |
| Json.MergeDependsOnGrouping | src/crates/agent-stream/src/lib.rs:970-975 | three values whose merge depends on the grouping: an object holding a null, null, the empty object |
| Json.LayeredNeverClashes | src/crates/agent-stream/src/lib.rs:970-975 | without objects around a non-object there is no clash |
| Json.MergeLeafIff | src/crates/agent-stream/src/lib.rs:411-423 | a leaf of a merged value stands in the overlay, or in the target on a path the overlay is silent about |
| JsonRepair.RepairTruncatedJson | src/crates/ai-adapters/src/tool_call_accumulator.rs:146-222 | the byte loop computes the repair of the scanned text |
| JsonRepair.RepairClosesUnlessEscaped | src/crates/ai-adapters/src/tool_call_accumulator.rs:210-222 | a repair extends the text and closes every string and bracket, if and only if the text was not cut behind a backslash |
| JsonRepair.RepairDeclines | src/crates/ai-adapters/src/tool_call_accumulator.rs:146-208 | a text once repaired so that it is closed is not repaired again |
| JsonRepair.RepairCanLeaveAStringOpen | src/crates/ai-adapters/src/tool_call_accumulator.rs:210-213 | there is such a text |
| JsonText.ClosedIffWellNested | src/crates/ai-adapters/src/tool_call_accumulator.rs:146-195 | the scan finds a text closed if and only if a grammar of strings and brackets generates it |
| JsonText.BrokenIffHopeless | src/crates/ai-adapters/src/tool_call_accumulator.rs:181-192 | the scan breaks if and only if nothing written behind the text could make it well nested |
| JsonText.RepairDeclinesIff | src/crates/ai-adapters/src/tool_call_accumulator.rs:146-208 | the repair declines exactly the texts nothing could complete, those that are complete, and those whose last visible character, outside strings, is a comma or a colon |
| JsonText.RepairNestsIff | src/crates/ai-adapters/src/tool_call_accumulator.rs:210-222 | what the repair appends makes the text well nested if and only if it was not cut behind a backslash |
| ToolCalls.PendingToolCalls.ApplyDelta | src/crates/ai-adapters/src/tool_call_accumulator.rs:361-438 | pending calls and outcome of a delta; a pending call always has an id |
| ToolCalls.PendingToolCalls.FinalizeKey | src/crates/ai-adapters/src/tool_call_accumulator.rs:440-447 | the call of one key is removed and finished, others stay |
| ToolCalls.PendingToolCalls.FinalizeAll | src/crates/ai-adapters/src/tool_call_accumulator.rs:449-454 | every pending call is finished once, in key order, and nothing is left pending |
| ToolCalls.InKeyOrder | src/crates/ai-adapters/src/tool_call_accumulator.rs:450 | the keys once each, in order |
| ToolCalls.DeltaFinishesIdentified | src/crates/ai-adapters/src/tool_call_accumulator.rs:384-392 | a record a delta finishes has an id |
| ToolCalls.DeltasGather | src/crates/ai-adapters/src/tool_call_accumulator.rs:384-417 | over any run of deltas that continue a call its arguments are what the fragments and the last snapshot add up to, and its first name stays |
| ToolCalls.StrippedWriteCarriesNoContent | src/crates/ai-adapters/src/tool_call_accumulator.rs:126-138 | a stripped write carries no file body in its arguments; its raw text is reduced to the path if they name one, and otherwise kept as received, body included |
| ToolCalls.ContentShownIff | src/crates/ai-adapters/src/tool_call_accumulator.rs:361-438 | a call that turns out to be a write has shown more than its file path, with stripping on, if and only if arguments that are more than a path came while its name was still empty |
| ToolCalls.ContentKeptIff | src/crates/ai-adapters/src/tool_call_accumulator.rs:126-138 | its record keeps more than its file path as text if and only if the arguments name no file and more than a path has been gathered |
| ToolCalls.RecordCanKeepContent | src/crates/ai-adapters/src/tool_call_accumulator.rs:126-138 | a write whose arguments name no file: the arguments lose the body, the text keeps it |
| ToolCalls.RecoveredOnlyIfClosed | src/crates/ai-adapters/src/tool_call_accumulator.rs:291-333 | arguments are recovered only from texts not cut behind a backslash, and are an error unless the tool is safe to recover |
| StreamLog.PhaseCounts | src/crates/agent-stream/src/lib.rs:428-446 | a log in order has the thinking marker once if thinking was closed, and thinking if and only if it was opened |
| StreamLog.TextIsOutputIff | src/crates/agent-stream/src/lib.rs:658-680 | text counts as output exactly if some character of it is not white space |
| StreamLog.NoOutputWhileOpen | src/crates/agent-stream/src/lib.rs:935-964 | in a log in order the marker stands behind the first thinking chunk and before any later output |
| StreamLog.RecordedAreFirsts | src/crates/agent-stream/src/lib.rs:306-333 | the kept calls are exactly the first records of each id |
| StreamLog.RecordedOnce | src/crates/agent-stream/src/lib.rs:306-333 | no id is kept twice |
| StreamLog.RecordedAreNamed | src/crates/agent-stream/src/lib.rs:306-333 | every kept call has an id and a name |
| StreamProcessor.StreamContext.SendThinkingEndIfNeeded | src/crates/agent-stream/src/lib.rs:428-446 | the marker is sent exactly if thinking is open |
| StreamProcessor.StreamContext.RecordFinalized | src/crates/agent-stream/src/lib.rs:306-333 | a record is kept unless its id is; kept calls and ids stay in step with all records |
| StreamProcessor.StreamContext.FinalizeAllPending | src/crates/agent-stream/src/lib.rs:335-358 | everything pending is handed over in key order, nothing stays pending |
| StreamProcessor.StreamContext.GracefulShutdown | src/crates/agent-stream/src/lib.rs:485-573 | one closing event per recorded call, then one for the turn if there was a call |
| StreamProcessor.StreamContext.CheckCancellation | src/crates/agent-stream/src/lib.rs:449-482 | a set token finishes and reports, otherwise nothing changes |
| StreamProcessor.StreamContext.HandleToolCallChunk | src/crates/agent-stream/src/lib.rs:594-655 | the delta's outcome is recorded and shown: first the record, then early detection, then parameters |
| StreamProcessor.StreamContext.HandleTextChunk | src/crates/agent-stream/src/lib.rs:658-680 | text is appended and sent; only text that is not blank counts as output |
| StreamProcessor.StreamContext.HandleThinkingChunk | src/crates/agent-stream/src/lib.rs:682-705 | thinking is appended and sent, and does not count as output |
| StreamProcessor.StreamContext.MergeMetadata | src/crates/agent-stream/src/lib.rs:970-975 | metadata is the merge of what came before with the new chunk |
| StreamProcessor.StreamContext.HandleResponse | src/crates/agent-stream/src/lib.rs:915-980 | log, records, pending calls and accumulated values after one response, and where a cancellation check stops it |
| StreamProcessor.StreamContext.Interrupt | src/crates/agent-stream/src/lib.rs:838-913 | which ends keep what there is and which fail, with which error and report |
| StreamProcessor.StreamContext.Conclude | src/crates/agent-stream/src/lib.rs:984-987 | finishing behind the loop never repeats what a recovery has already done |
| StreamProcessor.FinishedTwice | src/crates/agent-stream/src/lib.rs:335-358 | finishing a second time hands over nothing |
| StreamProcessor.StopsThere | src/crates/agent-stream/src/lib.rs:837-982 | the item a run ends at is the first that does not pass, if any |
| StreamProcessor.ProcessStream | src/crates/agent-stream/src/lib.rs:792-997 | every run stops at its first item that does not pass; its log, records, values and outcome are what the items before it and that item determine |
| StreamProcessor.StreamContext.CarryOut | src/crates/agent-stream/src/lib.rs:842-912 | a verdict is carried out: what is pending is finished, and either thinking is closed and the reason kept or every call reported |
| StreamRuns.ProgressKeeps | src/crates/agent-stream/src/lib.rs:915-980 | behind every response of every run: a call has been announced or parameters of it shown, under its own id, if and only if it is pending with a name or arguments or has been handed over; and what must be stripped is stripped |
| StreamReports.OkRun | src/crates/agent-stream/src/lib.rs:984-997 | on every successful run text, thinking and calls agree with the log, calls have distinct ids and names, thinking is closed once if there was any and before any output behind it, nothing terminal is sent and nothing is pending |
| StreamReports.ErrRun | src/crates/agent-stream/src/lib.rs:485-573 | on every failed run what was shown, in order, is followed by exactly one closing event per kept call and one for the turn if there was a call; at most one marker |
| StreamReports.RecordedIffShown | src/crates/agent-stream/src/lib.rs:302-358 | in every run the ids recorded are exactly those that an early-detected or partial-params event was shown for |
| StreamReports.AnyRecordedIffShown | src/crates/agent-stream/src/lib.rs:302-358 | in every run some call is recorded if and only if such an event was shown, and then there is output |
| StreamReports.WritesAreStripped | src/crates/ai-adapters/src/tool_call_accumulator.rs:411-436 | with stripping on, in every run parameters shown under the name of a write are its file path only, and no record of a write carries content in its arguments, or in its text if they name a file |
| StreamReports.CancelledRunReportsIt | src/crates/agent-stream/src/lib.rs:838-855 | a run that fails as cancelled reports a cancellation and no failure, exactly if a call was shown |
| StreamReports.TimedOutRunReportsNothing | src/crates/agent-stream/src/lib.rs:887-911 | a run that fails by a timeout has recorded no call and reports nothing |
| StreamReports.FailureReportedAsCancelledIff | src/crates/agent-stream/src/lib.rs:865-911 | a run that fails otherwise reports anything only on a fatal parse error after a call was shown, and reports a cancellation if and only if the error's text mentions one |
| StreamReports.FailureCanBeReportedAsCancelled | src/crates/agent-stream/src/lib.rs:865-886 | every run of a named call followed by such an error fails as a client error and reports call and turn as cancelled |
| StreamReports.PartialResultIff | src/crates/agent-stream/src/lib.rs:838-912 | exactly which runs hand on a partial result |
| StreamReports.ThinkingIsClosedOnce | src/crates/agent-stream/src/lib.rs:984-985 | one marker if there was thinking, else none |
| StreamReports.ShutdownReportsEachCall | src/crates/agent-stream/src/lib.rs:498-572 | which events report which call, in order |
| StreamResults.ResultCarries | src/crates/agent-stream/src/lib.rs:915-968 | every successful run hands on all its texts and thoughts in order, the last usage, the last signature that is not empty, and whether any reasoning came |
| StreamResults.ResultMetadata | src/crates/agent-stream/src/lib.rs:970-975 | it hands on metadata exactly if it received any; the last received is held in full, and a leaf is there exactly if some metadata has it and all later ones are silent about its path |
| StreamResults.RunEndsAs | src/crates/agent-stream/src/lib.rs:838-913 | for every last item: whether the run fails or is kept, with which error or reason, and which reason the closing events give |
| StreamResults.RunShows | src/crates/agent-stream/src/lib.rs:915-964 | markers aside, every run shows exactly the thinking, the text and the call of each response in this order, up to the check that stopped it, and closing events only behind that |
| CallRecords.DeltaIsShown | src/crates/ai-adapters/src/tool_call_accumulator.rs:361-438 | every delta is shown as part of the call it belongs to: the call when its name becomes known, then the fragment, or of a stripped write its path |
| CallRecords.ProgressHolds | src/crates/agent-stream/src/lib.rs:594-655 | behind every response the calls pending and handed over are those the deltas and boundaries received so far are cut into, key by key, whatever is interleaved |
| CallRecords.RunRecords | src/crates/agent-stream/src/lib.rs:302-358 | in every run the records are exactly those of the calls its items are cut into |
| CallRecords.RecordedAreTold | src/crates/agent-stream/src/lib.rs:302-358 | every call a run records has the id, the first name and the gathered arguments of one of these calls: as read, as recovered, or as an error |
| CallRecords.ReceivedAreRecorded | src/crates/agent-stream/src/lib.rs:302-358 | every one of these calls that has a name or arguments is recorded under its id |
| ChatFlow.RunKeepsSound | src/apps/cli/src/chat_state.rs:388-934 | in every reachable state the index maps exactly the ids of the tool items to their only positions, no two texts or thoughts are adjacent, and a streaming last message holds exactly the turn's items |
| ChatFlow.LookupIsSearch | src/apps/cli/src/chat_state.rs:910-912 | a lookup through the index is a linear search |
| ChatFlow.ItemsTellTheTurn | src/apps/cli/src/chat_state.rs:388-461 | the items are the turn in chronological order: every character once, every tool where it was first announced |
| ChatFlow.TextItemsAddUp | src/apps/cli/src/chat_state.rs:423-435 | the text items concatenate to the turn's text chunks |
| ChatFlow.ItemsOnlyGrow | src/apps/cli/src/chat_state.rs:904-934 | within a turn items are only appended; each keeps its place, its kind and what it said |
| ChatFlow.ScanFinds | src/apps/cli/src/chat_state.rs:927-933 | searching a prefix finds a tool exactly if its indexed position lies in it |
| ChatEnds.CompletedTurnStays | src/apps/cli/src/chat_state.rs:775-797 | the message of a completed turn spells the whole turn, none of its text streams, its tools and thoughts are untouched, and no other message has changed |
| ChatEnds.BrokenTurnStays | src/apps/cli/src/chat_state.rs:800-840 | the message of a turn that failed or was cancelled spells the whole turn followed by exactly the note |
| ChatEnds.TextLeftStreamingIff | src/apps/cli/src/chat_state.rs:775-840 | after a turn some text is left marked as streaming if and only if it failed or was cancelled and text had come |
| ChatEnds.StreamsLastIff | src/apps/cli/src/chat_state.rs:388-880 | the last message streams if and only if a turn has started and nothing has ended it, posted another message or cleared the chat since |
| ChatEnds.StreamingIsOwn | src/apps/cli/src/chat_state.rs:408-418 | that message is the one posted for the turn |
| ChatEnds.LiveMessageTells | src/apps/cli/src/chat_state.rs:892-900 | a streaming last message spells the turn as far as it has come |
| ChatEnds.EarlierMessagesStay | src/apps/cli/src/chat_state.rs:388-900 | until the chat is cleared no message but the last ever changes |
| ChatEnds.PostCutsTurnOff | src/apps/cli/src/chat_state.rs:848-875 | a message posted during a turn cuts the turn's message off: it stays as it was, streaming, for good |
| ChatTotals.CountersCount | src/apps/cli/src/chat_state.rs:388-797 | the counters count turns started, tools started and rounds of completed turns |
| ChatTotals.TurnTells | src/apps/cli/src/chat_state.rs:388-840 | the turn in progress is the last one started unless it has ended |
| ChatTotals.TokensTell | src/apps/cli/src/chat_state.rs:843-845 | the token count is the last one reported |
| ChatTotals.PermissionTells | src/apps/cli/src/chat_state.rs:591-630 | a permission is asked for if and only if it was asked for last and neither decided since nor dropped with the turn |
| ChatTotals.QuestionTells | src/apps/cli/src/chat_state.rs:531-690 | the same for questions, settled by completion, failure or cancellation of their tool |
| ChatTotals.MessagesArePosts | src/apps/cli/src/chat_state.rs:388-880 | the messages are those posted since the chat was last cleared, in order, and what a user or the system said is shown as it was said |
| ChatTools.ToolsAreIndependent | src/apps/cli/src/chat_state.rs:466-772 | within a turn a tool's card is made by that tool's own events alone |
| ChatTools.StatusAfter | src/apps/cli/src/chat_state.rs:491-690 | which events set a status, and which only while the tool is not executing |
| ChatTools.SetStatusOutlasts | src/apps/cli/src/chat_state.rs:39-54 | a status once set outlasts later early stages exactly if it is an execution status |
| ChatTools.LastSetterDecides | src/apps/cli/src/chat_state.rs:466-696 | the last event that sets a status decides it wherever early events fall, if and only if it is neither the question for confirmation nor the consent, or none comes after it |
| ChatTools.EarlyLeavesNoTrace | src/apps/cli/src/chat_state.rs:493-572 | dropping all early-stage and progress events changes nothing on an executing tool's card but its progress note |
| ChatTools.InterleavingsAgree | src/apps/cli/src/chat_state.rs:39-54 | two interleavings that agree on the other events of a tool show the same card |
| ChatTools.LateStageHidesConfirmation | src/apps/cli/src/chat_state.rs:515-524 | a late queue event replaces a pending confirmation |
| ChatCards.CardBeginsIff | src/apps/cli/src/chat_state.rs:466-570 | a card begins with an announcement or the start of its tool and nothing else, with that id, name, status and parameters |
| ChatCards.CardIsLatest | src/apps/cli/src/chat_state.rs:491-696 | within a turn a card keeps id and name, and its parameters, result, progress note, duration and metadata are those of the last event that brought any |
| ChatCards.NoCardBetweenTurns | src/apps/cli/src/chat_state.rs:388-840 | no card is looked up across the bounds of a turn |
| ChatCards.CompletionShows | src/apps/cli/src/chat_state.rs:632-664 | a completed tool has succeeded unless it is a compilation whose result says otherwise |
| ChatCards.SubagentIsLatest | src/apps/cli/src/chat_state.rs:702-772 | a card counts the tools its subagent has started and shows the last report |
| ChatCache.StepEvolves | src/apps/cli/src/chat_state.rs:892-900 | after any event a message is unchanged, or changed under a higher version, or new |
| ChatCache.VersionTellsContent | src/apps/cli/src/chat_state.rs:133-135 | along any run, clears included, two observations of a message with equal versions are equal, and versions never fall |
| ChatCache.StepKeepsCache | src/apps/cli/src/ui/chat/render.rs:192-197 | no event makes a cached drawing wrong for the version it is stored under |
| ChatCache.RefreshedIsFresh | src/apps/cli/src/ui/chat/render.rs:172-219 | after a pass over the messages each is cached as a fresh drawing |
| ChatCache.DrawnInOrder | src/apps/cli/src/ui/chat/render.rs:222-298 | a frame shows the drawings of its messages from the first to the last |
| ChatCache.ChatView.CountLines | src/apps/cli/src/ui/chat/render.rs:172-219 | the counted lines are those of fresh drawings |
| ChatCache.ChatView.RenderMessages | src/apps/cli/src/ui/chat/render.rs:172-298 | the lines shown from the cache are those of fresh drawings |
| ChatCache.EveryFrameIsFresh | src/apps/cli/src/ui/chat/render.rs:192-219 | in every session of events, frames and cache drops each frame shows what drawing afresh would show |
| ChatState.ChatState.HandleTurnStarted | src/apps/cli/src/chat_state.rs:388-418 | the turn's items and index start empty, behind the user's and a streaming message |
| ChatState.ChatState.HandleTextChunk | src/apps/cli/src/chat_state.rs:423-435 | text joins a text at the end or starts a new item |
| ChatState.ChatState.HandleThinkingChunk | src/apps/cli/src/chat_state.rs:440-461 | thinking joins a thought at the end or starts a new item |
| ChatState.ChatState.HandleToolEvent | src/apps/cli/src/chat_state.rs:466-696 | every tool event, with counters and prompts |
| ChatState.ChatState.HandleSubagentEvent | src/apps/cli/src/chat_state.rs:702-772 | a subagent's progress appears on its task's card only |
| ChatState.ChatState.HandleTurnCompleted | src/apps/cli/src/chat_state.rs:775-797 | a finished message is settled and the turn's state cleared |
| ChatState.ChatState.HandleTurnFailed | src/apps/cli/src/chat_state.rs:800-819 | the error is noted on the assistant's last message |
| ChatState.ChatState.HandleTurnCancelled | src/apps/cli/src/chat_state.rs:822-840 | the cancellation is noted on the assistant's last message |
| ChatState.ChatState.RebuildStreamingMessage | src/apps/cli/src/chat_state.rs:892-900 | a streaming last message gets the turn's items and a new version, nothing else changes |
| ChatState.ChatState.InsertOrUpdateTool | src/apps/cli/src/chat_state.rs:904-925 | an indexed tool changes in place, another is appended and indexed |
| ChatState.ChatState.UpdateTool | src/apps/cli/src/chat_state.rs:928-934 | an indexed tool changes in place, otherwise nothing does |
| ChatState.ChatState.SettleText | src/apps/cli/src/chat_state.rs:780-785 | exactly the text items stop streaming |
| ChatState.ChatState.Replay | src/apps/cli/src/chat_state.rs:388-880 | any events in any order: the class follows the run of its model and stays sound |
| Uninstall.CollectUninstallTargets | BitFun-Installer/src-tauri/src/installer/commands.rs:1649-1663 | succeeds exactly if every entry is acceptable, else fails with the first offending one and the reason; the targets are the installed entries and the uninstaller, sorted, once each, and an entry made of names is installed where these lead, one after the other |
| Uninstall.NamesJoin | BitFun-Installer/src-tauri/src/installer/commands.rs:1653-1659 | the names of a path in two parts are those of the first, then those of the second |
| Uninstall.CurDirAddsNothing | BitFun-Installer/src-tauri/src/installer/commands.rs:1653-1659 | the current directory adds nothing wherever it stands |
| Paths.TextLeIff | BitFun-Installer/src-tauri/src/installer/commands.rs:1660 | the order of names: a prefix first, else by the first character that differs |
| Paths.PathLeIff | BitFun-Installer/src-tauri/src/installer/commands.rs:1660 | the order of targets: a directory before what is below it, else by the first name that differs |
| Uninstall.DedupOfSorted | BitFun-Installer/src-tauri/src/installer/commands.rs:1660-1661 | removing neighbouring duplicates of a sorted list removes all duplicates and nothing else |
| Uninstall.VisitedTwice | BitFun-Installer/src-tauri/src/installer/commands.rs:1705-1707 | a known directory's own walk is the rest of the walk, so stopping there loses nothing |
| Uninstall.WalkUp | BitFun-Installer/src-tauri/src/installer/commands.rs:1700-1710 | one target's walk, stopped at the root or a known directory, keeps the collection exact, duplicate-free and ancestor-closed |
| Uninstall.CollectParentDirectories | BitFun-Installer/src-tauri/src/installer/commands.rs:1697-1720 | exactly the visited ancestors, once each, deepest first |
| Uninstall.CollectedAreTheAncestors | BitFun-Installer/src-tauri/src/installer/commands.rs:1697-1711 | for targets below the root these are exactly their proper ancestors strictly below the root |
| Uninstall.CollectedStayBelowRootIff | BitFun-Installer/src-tauri/src/installer/commands.rs:1702-1704 | the collection stays below the root if and only if every target does |
| Uninstall.TargetsStayBelowRootIff | BitFun-Installer/src-tauri/src/installer/commands.rs:1649-1663 | what is collected lies below the installation if and only if every manifest entry names something |
| Uninstall.NamelessEntryLeavesRoot | BitFun-Installer/src-tauri/src/installer/commands.rs:1702-1704 | with an entry such as "." the root is a target and a directory above it is visited |
| Uninstall.DeepestFirstRemovesAllItCan | BitFun-Installer/src-tauri/src/installer/commands.rs:1689-1691 | removing directories deepest first leaves exactly those that something remaining holds |
| Uninstall.OrderMatters | BitFun-Installer/src-tauri/src/installer/commands.rs:1713-1718 | two nested empty directories: tried shallow first the outer one stays though nothing holds it, tried deepest first it goes |
| Uninstall.RemoveFiles | BitFun-Installer/src-tauri/src/installer/commands.rs:1670-1687 | exactly the target files but the skipped one go, up to the first that cannot be removed, which is reported |
| Uninstall.RemoveDirs | BitFun-Installer/src-tauri/src/installer/commands.rs:1689-1691 | each directory goes if it is empty when its turn comes |
| Uninstall.RemoveInstalledTargets | BitFun-Installer/src-tauri/src/installer/commands.rs:1665-1695 | files, then directories, then the root; on failure no directory has been touched |
| Uninstall.UninstallLeaves | BitFun-Installer/src-tauri/src/installer/commands.rs:1665-1695 | what remains, for any targets: every file but the targets, every unrelated directory, and a directory above a target or the root exactly if something remaining holds it; nothing above an existing root goes |

## Left out

Git graph:

- Branch colours, lines, children and the list of branches: none of them reaches the rows that are drawn.
- Row-by-row continuity of the slots of merge edges: the merge arm stops after one row, so there is none to prove.
- Alternative spellings of a commit's parents (`parents`, `parent`) and keys inherited by JavaScript objects: a commit has a list of parent hashes and the table holds listed hashes only.
- Git itself and the library sort (the stable `Sorting.Sort` stands for it): that hashes are distinct, that parents come after children, that no listed commit names an inserted stash as its parent and that none is called `__uncommitted__` are assumptions (`GraphData.GitOrdered`); work tree inspection and status are parameters or absent.
- Texts, authors and dates of commits beyond what orders stashes: carried along unchanged by the source.

Stream processor:

- Timing, first-chunk and first-output durations, SSE logs and log texts: they do not influence the run.
- The cancellation token and `select!`: what the loop observes is given as the sequence of items and, per response, what each of the three checks sees.
- Parsing and rendering JSON: parameters of the accumulator (`ToolCalls.Codec`).
- Generated identifiers for a record without an id: a parameter, and `StreamProcessor.StreamContext.RecordFinalized` shows it is never needed since records have ids.
- Session, turn and round identifiers and priorities on events: the same on every event of a run or fixed by its kind.
- JSON text is scanned as characters: the bytes the repair looks at are all ASCII, which no multi-byte character contains.
- The `is_valid` test for detailed diagnostics: affects logging only.

- ToolCalls.RecoveredOnlyIfClosed: for a JSON reader that accepts only texts whose strings and brackets are closed, because the reader is a parameter.

Chat display:

- Restoring a chat from stored messages, summaries, titles and prompt mark-up: helpers that compute display texts; a restored chat is any chat with finished messages (`ChatFlow.Initial`).
- Texts made of numbers or lists, and the fallback summary of a result: passed in already written.
- The contents of permission and question prompts: only the tool they belong to is kept; whether a question can be made of the parameters is passed in.
- Time stamps, and the uniqueness of generated message ids: ids are parameters, assumed fresh (`ChatCache.FreshIds`).
- Folded blocks, themes and selection in drawing: fixed between two cache drops, so a drawing depends on message and width.
- The total line count kept between frames for scrolling: a separate estimate not keyed by versions.

Uninstall:

- Path prefixes, drive letters, symbolic links and case-insensitive comparison on Windows: a path is a sequence of names compared as they are.
- Reasons why the operating system refuses a removal: a set of locked paths.
- Reading the manifest, and the registry and shortcuts: foreign calls.

User interface, network, AI clients and the rest of the applications are not part of this model.
