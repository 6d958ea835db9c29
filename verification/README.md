# Verified models of the maid agent

A Dafny model of the decision logic of the maid agent and proofs about it. Each file models one component of
`agent-core/src/maid_agent`; what changes fields step by step there is a class with methods here, each proved equal to
a function or against an outright statement, and the results are lemmas about those functions.

| file | component |
|---|---|
| Lines, BuildingDsl | the building language: the integer line, five primitives, the merge into a blueprint |
| BuildPlanner, BlueprintExecutor | placement and reservation; the resumable segment loop with its saved checkpoint |
| PlanInterpreter | the meaning of a plan tree: actions with retries, branches, bounded loops, saving ahead |
| PlanRunner | the same as one object at work, method by method |
| PlanSafety, PlanBounds, PlanProgress | what every run keeps, can cost and gets done |
| PlanChoices | what decides a run: branches, passes, replies, retries, interruptions, ends |
| PlanRecovery | revalidation after a restart, and whole lives of runs, pauses, updates, crashes and restarts |
| RndCycles, PhaseRunner | research cycles across processes; checkpoints and phases of one cycle |
| TokenBudget, UsageCollector | guard, ledger and scaling of budgets; incremental reading of usage reports |
| DependencyResolver | which released versions can be installed |
| Gateway | at-most-once requests, the result cache, and the resync test |
| Options, Integers | small definitions the others share |

The surroundings are arbitrary: conditions, replies, interruptions, crashes and cancellations are answers of a
function of the moment they are asked for, so every result holds whatever they are. The Bridge, where blocks are built,
is any function that keeps one contract (`Honest` in BlueprintExecutor.dfy): only cells of the segment sent change, a
reported index is a block of that segment which now stands in the world, and an index named as failing is an unreported
one of the segment. A build can be cut short inside any call and after any save.

A crash of the interpreter can follow any save and any dispatch. Steps not yet started can be given new arguments between
runs, and while a run waits for a reply, between two attempts or for a decision; such an update saves too, and a crash can
follow it. Nothing else changes what is on disk or on the wire in a plan's life, so these are all the crashes there are.

Where the code does not do what one would expect of it, the behaviour is kept, an input that shows it is given, and what
bounds it is proved:

- A restart refuses an unsafe step only when it finds it RUNNING (or NEEDS_REVALIDATION). A graceful stop saves it
  PAUSED, and after a restart it is dispatched again under the same request id: `CancelledUnsafeStepRunsAgain` (whether
  the Bridge then answers from a table of its own is not part of this model); the boundary is
  `BlockedExactlyWhenRefused`.
- The interruption test comes before the test for DONE, so a user's pause can demote a finished step, which is then
  dispatched again: `FinishedStepRunsAgain` (the pause comes before the first node of a run or, as nothing is awaited
  between settled nodes, right after a node that was run); outside loop bodies nothing else can bring that about:
  `SettledUntilPaused`, `NeverPausedNeverAgain`.
- Request ids leave out the loop iteration, so passes share them: `PassesShareTheRequest`, `RepeatReusesTheRequest`. As
  long as the gateway still holds the first pass's answer, a later pass gets that answer and nothing is sent
  (`Gateway.BridgeGateway.RequestAction`).
- A requester cancelled before its message is out leaves a waiter with nothing on the wire, and later ones attach to it
  (`Gateway.BridgeGateway.RequestAction`).
- An update of a paused step takes its request id but not its attempt number, so its new arguments go out under the
  request id of the old ones: `UpdatedStepReusesTheRequest`; the id is unused exactly when no request of the current
  attempt was sent: `UpdateGetsUnusedId`.
- Recovery of research cycles can hand back two cycles when a legacy cancelled row with ready input is listed after one
  that can be recovered: `LateLegacyHandsBackTwo`; under every interleaving at most one is handed back exactly when none is
  listed after a row that could be: `AtMostOneExactly`.
- Recovery writes a saved or final outcome without looking at the row again, over a failure settled meanwhile:
  `OldReadingOverwrites`; nothing else changes a finished row, and none becomes unfinished: `FinishedForever`.
- A pinned dependency into a project in progress is accepted unchecked: `PinIntoCycleIsUnchecked`; the answers are right
  when the versions so accepted are: `VersionsSound`, `InstallableExactlyWhenPinsAre`. A failed request leaves its project
  in the in-progress set, and nothing else does: `RestoredUnlessFailed`.
- Operations that agree on item and optional flag may still disagree on block id and face, and then the later one wins:
  `LaterFaceWins`.

## Model

| member | source | states |
|---|---|---|
| Lines.Line | agent-core/src/maid_agent/building/dsl.py:45-59 | The error-term loop ends for all integer ends and yields max(dx, dz) + 1 cells, the k-th being the rounded point k steps along the longer axis |
| Lines.HalfDownIsNearest | agent-core/src/maid_agent/building/dsl.py:50-59 | That rounding is the one integer whose doubled error lies in [-major, major): nearest, ties down |
| Lines.EndsExactly | agent-core/src/maid_agent/building/dsl.py:52-55 | The far end is met at the last step and at no earlier one |
| Lines.LineIsConnected | agent-core/src/maid_agent/building/dsl.py:54-59 | Successive cells differ, by at most one along each axis |
| Lines.LineCellsDistinct | agent-core/src/maid_agent/building/dsl.py:45-59 | No cell is visited twice |
| Lines.LineStaysInBox | agent-core/src/maid_agent/building/dsl.py:45-59 | Every cell lies in the box spanned by the two ends |
| Lines.LineStaysClose | agent-core/src/maid_agent/building/dsl.py:45-59 | After i and j axis steps, 2 * abs(j * dx - i * dz) <= max(dx, dz) |
| BuildingDsl.FloorCells | agent-core/src/maid_agent/building/dsl.py:36-42 | Exactly the rectangle, whichever corner comes first, no cell twice |
| BuildingDsl.WallCells | agent-core/src/maid_agent/building/dsl.py:62-75 | Exactly the line times the height, no cell twice |
| BuildingDsl.BoxCells | agent-core/src/maid_agent/building/dsl.py:78-92 | Exactly the box, less its interior when hollow, no cell twice |
| BuildingDsl.OutlineCells | agent-core/src/maid_agent/building/dsl.py:95-106 | Exactly the floor less its inner floor, no cell twice |
| BuildingDsl.DoorwayCells | agent-core/src/maid_agent/building/dsl.py:109-132 | Exactly the frame around the opening, in the chosen plane, no cell twice |
| BuildingDsl.Expand | agent-core/src/maid_agent/building/dsl.py:135-152 | An operation yields one block per cell it covers and no other, with its defaults filled in |
| BuildingDsl.BlockTakes | agent-core/src/maid_agent/building/dsl.py:23-33 | A block has its operation's item and flag; block id and face default to the item and to UP |
| BuildingDsl.OneOperation | agent-core/src/maid_agent/building/dsl.py:135-152 | One operation alone compiles exactly when it is well formed: item with a namespace, known shape, level wall of some height, box of some extent, doorway to walk through |
| BuildingDsl.AgreeOneMore | agent-core/src/maid_agent/building/dsl.py:150-158 | Comparing each new block with the one already there finds every conflict between any two operations |
| BuildingDsl.MergeOperation | agent-core/src/maid_agent/building/dsl.py:148-161 | One operation is merged without loss, or the error names a real conflict or a real excess of cells |
| BuildingDsl.CompileDsl | agent-core/src/maid_agent/building/dsl.py:135-168 | Success if and only if the list is non-empty, well formed, free of conflicts and within the limit; then exactly the union of all cells, positions unique, block id and face from the last operation at each cell |
| BuildingDsl.LastWordIsSpoken | agent-core/src/maid_agent/building/dsl.py:148-161 | Every covered cell has a deciding operation, which covers it |
| BuildingDsl.OrderIsIrrelevant | agent-core/src/maid_agent/building/dsl.py:135-168 | Reordering operations changes neither success nor the item and optional flag at any position |
| BuildingDsl.LaterFaceWins | agent-core/src/maid_agent/building/dsl.py:150-161 | Block id and face are not protected: of two agreeing operations the later face silently wins |
| BuildPlanner.RotateAccepts | agent-core/src/maid_agent/building/planner.py:28-34 | Exactly the multiples of a quarter turn are accepted, negative ones included |
| BuildPlanner.Site.CellsDistinct | agent-core/src/maid_agent/building/planner.py:36-42 | Rotation about a floored origin is one-to-one, so two blocks never share a world cell |
| BuildPlanner.RotateComposes | agent-core/src/maid_agent/building/planner.py:28-34 | Turning by r and then q is turning by r + q, and 0 is no turn |
| BuildPlanner.QuarterTurnSense | agent-core/src/maid_agent/building/planner.py:31 | A quarter turn, with any full turns added, takes (1, 0) to (0, 1) and (0, 1) to (-1, 0) |
| BuildPlanner.RotateKeepsSums | agent-core/src/maid_agent/building/planner.py:28-34 | Turns keep sums, so that these two images and composition fix every turn |
| BuildPlanner.Site.PlaceIsTurned | agent-core/src/maid_agent/building/planner.py:36-41 | Relative to the floored origin a block lies where its turned position says, its height unturned, with its own item, face and flag |
| BuildPlanner.Site.BottomUp | agent-core/src/maid_agent/building/planner.py:36-42 | All placements, each once |
| BuildPlanner.Site.LayersAscend | agent-core/src/maid_agent/building/planner.py:42 | No block before a lower one, and within a layer by index |
| BuildPlanner.Remaining | agent-core/src/maid_agent/building/planner.py:48-64 | Exactly the placements neither completed nor skipped, order kept |
| BuildPlanner.Scheduled | agent-core/src/maid_agent/building/executor.py:92-105 | Nothing foreign is scheduled and no required placement is left out |
| BuildPlanner.OptionalTakesSurplus | agent-core/src/maid_agent/building/executor.py:81-106 | Per item, the optional placements scheduled number min(candidates, max(0, inventory - required)) |
| BuildPlanner.OptionalIsExact | agent-core/src/maid_agent/building/executor.py:83-105 | With a snapshot: exactly as many optional blocks of an item as there are, or as the stock has beyond the required ones |
| BuildPlanner.FirstOptionalsFirst | agent-core/src/maid_agent/building/executor.py:92-105 | And these are the first of them in the order of work |
| BuildPlanner.LeftOutExactly | agent-core/src/maid_agent/building/executor.py:92-105 | A placement is left out exactly when it is not scheduled |
| BuildPlanner.CountIsNumber | agent-core/src/maid_agent/building/executor.py:86-90 | The counts are numbers of placements |
| BuildPlanner.NeedIsNumber | agent-core/src/maid_agent/building/planner.py:16-21 | What is needed of an item is the number of its unfinished required blocks |
| BuildPlanner.HaveAdds | agent-core/src/maid_agent/building/planner.py:21-22 | The stock of an item is the sum over the inventory rows |
| BuildPlanner.RequiredIsReserved | agent-core/src/maid_agent/building/executor.py:81-106 | When stock covers the required blocks, required and scheduled optional work together fit the stock |
| BuildPlanner.ScheduledOrLeftOut | agent-core/src/maid_agent/building/executor.py:92-106 | No index is both scheduled and skipped |
| BuildPlanner.Schedule | agent-core/src/maid_agent/building/executor.py:81-106 | The loop with its running budget computes that schedule, and skips exactly what it leaves out |
| BuildPlanner.MissingIsShortfall | agent-core/src/maid_agent/building/planner.py:16-23 | An item is reported missing exactly when unfinished required blocks need more than there is, by that amount |
| BlueprintExecution.RoundKeepsBuilt | agent-core/src/maid_agent/building/executor.py:136-143 | A reply adds what it reports and never undoes an earlier block |
| BlueprintExecution.ProgressShrinks | agent-core/src/maid_agent/building/executor.py:137-161 | A continuing successful round leaves strictly fewer placements |
| BlueprintExecution.FailedStillPending | agent-core/src/maid_agent/building/executor.py:162-170 | The placement the Bridge failed on is still among those to be sent |
| BlueprintExecution.SkipStep | agent-core/src/maid_agent/building/executor.py:166-184 | Skipping an item drops exactly the optional blocks of that item still to be sent, at least the one that failed, and keeps the run invariant |
| BlueprintExecution.ReportedMeans | agent-core/src/maid_agent/building/executor.py:136 | The completed indices where there are any, else the placed ones |
| BlueprintExecution.RestoredMeans | agent-core/src/maid_agent/building/executor.py:43-66 | A first run starts at segment 0 with nothing done; a later one from what was saved, less indices that are no blocks and skips that are not optional |
| BlueprintExecution.AfterReplyHeard | agent-core/src/maid_agent/building/executor.py:137-161 | After a reply: the reported work added, the next number, its error noted, and exactly the unfinished placements left in order |
| BlueprintExecution.ReplyStep | agent-core/src/maid_agent/building/executor.py:136-154 | One reply keeps the whole run invariant: world, numbering, and what is still pending |
| BlueprintExecution.BlueprintExecutor.SendAndSave | agent-core/src/maid_agent/building/executor.py:115-207 | One pass: the first placements up to the segment size go out under the next number; on going on, the invariant holds, strictly less is left and exactly what the reply adds or excuses has changed; on stopping or dying after a save, everything a run promises |
| BlueprintExecution.BlueprintExecutor.HandleRefusal | agent-core/src/maid_agent/building/executor.py:162-207 | For want of material on an optional block the optional blocks of its item are dropped; otherwise the run stops, for material when the code says so or a shortfall is found, recorded as such, else with the code |
| BlueprintExecution.BlueprintExecutor.Execute | agent-core/src/maid_agent/building/executor.py:29-219 | Whatever an honest Bridge answers and however the run ends, a death inside a call or after any save included: BUILD_COMPLETE only with a DONE checkpoint, a DONE checkpoint only with every required block standing; completed work is the old plus the reported; numbers go up by one; at most one call per unfinished block; only scheduled work is sent; what is skipped was skipped, left out by the schedule or refused for want of material; status and error text name the ending; nothing else changes |
| BlueprintExecution.RunEnds | agent-core/src/maid_agent/building/executor.py:143-149 | A checkpoint saved at any point of a run is right about the world, and an outcome right about the checkpoint |
| BlueprintExecution.RunCut | agent-core/src/maid_agent/building/executor.py:130-135 | A run cut inside a call leaves a saved checkpoint that is still right about the changed world |
| BlueprintExecution.SoundIsRestored | agent-core/src/maid_agent/building/executor.py:43-66 | A sound checkpoint is restored exactly as it was saved |
| BlueprintExecution.RunKeepsNumbersFresh | agent-core/src/maid_agent/building/executor.py:117-129 | Over successive runs no segment number is used again after a saved round |
| BlueprintExecution.BuildOverTime | agent-core/src/maid_agent/building/executor.py:29-219 | Any number of runs, ended or cut short or dead after a save, with the world changing elsewhere in between: once complete, built; numbers never reused |
| PlanInterpretation.Failure | agent-core/src/maid_agent/brain/autonomous_loop.py:417-435 | Another attempt is made only with one more retry counted |
| PlanRunning.PlanRunner.PlanInterrupt | agent-core/src/maid_agent/brain/autonomous_loop.py:438-457 | An interruption overwrites the node it meets and gives the matching signal |
| PlanRunning.PlanRunner.ResetNodes | agent-core/src/maid_agent/brain/autonomous_loop.py:472-478 | Every node below the list, and no other, is fresh again |
| PlanRunning.PlanRunner.ExecuteNodes | agent-core/src/maid_agent/brain/autonomous_loop.py:271-326 | The loop over a list computes the recursive meaning of the list |
| PlanRunning.PlanRunner.ExecuteByKind | agent-core/src/maid_agent/brain/autonomous_loop.py:287-322 | Each kind of node does what its meaning says, of which the next results say what it comes to |
| PlanRunning.PlanRunner.ExecuteFirstBranch | agent-core/src/maid_agent/brain/autonomous_loop.py:304-315 | The first branch whose condition holds is taken, else the else steps |
| PlanChoices.IfTakesItsBranch | agent-core/src/maid_agent/brain/autonomous_loop.py:297-302 | Whatever the surroundings: when its condition holds at the moment it is asked an IF dispatches and runs nodes below its then steps only, otherwise below its else steps only; ending well, all of that list is settled |
| PlanChoices.BranchTakesFirst | agent-core/src/maid_agent/brain/autonomous_loop.py:303-315 | The same for a BRANCH: only the first branch whose condition holds when asked, or the else steps when none does |
| PlanChoices.PassNeedsItsConditions | agent-core/src/maid_agent/brain/autonomous_loop.py:337-369 | A pass is made exactly when limit, interruption, time, exit condition and, for a WHILE, its condition allow it; otherwise nothing is dispatched and no other node touched, and the way the loop ends is the one its failing test calls for |
| PlanChoices.NodesWarranted | agent-core/src/maid_agent/brain/autonomous_loop.py:337-369 | Over a whole list, nested loops included: every pass was made with its conditions met when asked, and every loop left had made its passes, met its exit condition, or, for a WHILE, failed its condition |
| PlanChoices.PassBegins | agent-core/src/maid_agent/brain/autonomous_loop.py:355 | The first pass finds the body as it was left, every later one finds it fresh |
| PlanChoices.PassIsSaved | agent-core/src/maid_agent/brain/autonomous_loop.py:358 | A pass made is counted by one, on disk too |
| PlanChoices.TurnOfNode | agent-core/src/maid_agent/brain/autonomous_loop.py:279-288 | Before a node runs: an interruption ends at it whatever its state, a settled node is passed over, unmet preconditions block it, and nothing is dispatched |
| PlanChoices.StoppingNodes | agent-core/src/maid_agent/brain/autonomous_loop.py:316-321 | ABORT and PAUSE stop the plan with their own status |
| PlanChoices.GoalEndsTheList | agent-core/src/maid_agent/brain/autonomous_loop.py:289-295 | After an action that ended well the goal is looked at, and reaching it ends the list |
| PlanChoices.ActionBegins | agent-core/src/maid_agent/brain/autonomous_loop.py:376-384 | An action whose effect the state shows is DONE unsent, one with unusable arguments is BLOCKED |
| PlanChoices.DoneIsEarned | agent-core/src/maid_agent/brain/autonomous_loop.py:376-419 | An action ends well only by the state beforehand or by the last reply, verified or belied by the state, and then it is on disk |
| PlanChoices.AnswerMeans | agent-core/src/maid_agent/brain/autonomous_loop.py:393-419 | What each reply leads to: the end, its status, or a failure code |
| PlanChoices.RetriesAreEarned | agent-core/src/maid_agent/brain/autonomous_loop.py:427-435 | Another attempt is made exactly for a transient code met for the first time with retries left and an undisturbed pause; what every other failure leads to |
| PlanChoices.InterruptionMeans | agent-core/src/maid_agent/brain/autonomous_loop.py:438-457 | Node and plan end alike but for the time limit; only a pause by the user leaves the plan PAUSED |
| PlanChoices.DecisionMeans | agent-core/src/maid_agent/brain/autonomous_loop.py:494-534 | A decision keeps the plan, updates exactly its named unstarted steps, or ends the plan and aborts exactly what is unfinished |
| PlanChoices.RunEndsAs | agent-core/src/maid_agent/brain/autonomous_loop.py:235-267 | The plan status on disk for each way a run ends; a reached goal skips what is left, a cancelled run pauses what was running |
| PlanRunning.PlanRunner.CheckLoop | agent-core/src/maid_agent/brain/autonomous_loop.py:337-354 | A loop goes on exactly when no limit, interruption, timeout or condition ends it |
| PlanRunning.PlanRunner.ExecuteLoop | agent-core/src/maid_agent/brain/autonomous_loop.py:328-369 | The loop computes the recursive meaning of its passes, from the saved iteration |
| PlanSafety.SendFine | agent-core/src/maid_agent/brain/autonomous_loop.py:389-398 | A request handed over right after its node was saved RUNNING under it is written ahead, and the disk shows it whether it is answered, cancelled or lost |
| PlanRunning.PlanRunner.RetryAction | agent-core/src/maid_agent/brain/autonomous_loop.py:385-436 | The retry loop computes the recursive meaning of its attempts |
| PlanRunning.PlanRunner.ExecuteActionStep | agent-core/src/maid_agent/brain/autonomous_loop.py:371-436 | State check, arguments, then attempts |
| PlanRunning.PlanRunner.AdjustPlan | agent-core/src/maid_agent/brain/autonomous_loop.py:494-534 | Arguments of unstarted steps change, by the user meanwhile or by the decision, or the whole plan ends |
| PlanRunning.PlanRunner.ExecutePlan | agent-core/src/maid_agent/brain/autonomous_loop.py:223-269 | A run computes the meaning on which all results below are proved |
| PlanSafety.AttemptsFine | agent-core/src/maid_agent/brain/autonomous_loop.py:385-436 | Every dispatch finds its node saved RUNNING under that very request id, within its retries |
| PlanSafety.NodesFine | agent-core/src/maid_agent/brain/autonomous_loop.py:271-326 | However a list ends, that holds of every dispatch; after a crash the disk is the memory and an unanswered request is shown RUNNING |
| PlanBounds.AttemptsEffect | agent-core/src/maid_agent/brain/autonomous_loop.py:385-436 | An action sends at most its remaining attempts and touches only its own node |
| PlanBounds.PassesEffect | agent-core/src/maid_agent/brain/autonomous_loop.py:328-369 | A loop sends at most the passes still open times the cost of its body |
| PlanBounds.NodesEffect | agent-core/src/maid_agent/brain/autonomous_loop.py:271-326 | A list ends after at most its cost in dispatches, whatever is answered, and changes no node outside it except updates to unstarted steps |
| PlanProgress.PassingCounted | agent-core/src/maid_agent/brain/autonomous_loop.py:356-359 | A saved iteration counts the passes made since the loop was last left |
| PlanProgress.PassesCounted | agent-core/src/maid_agent/brain/autonomous_loop.py:328-369 | No activation of a loop makes more passes than its limit, nested loops and resumes included |
| PlanProgress.NodesCounted | agent-core/src/maid_agent/brain/autonomous_loop.py:271-326 | The same for every list |
| PlanProgress.FinishedListIsSettled | agent-core/src/maid_agent/brain/autonomous_loop.py:271-326 | A list that ends DONE has every node DONE or SKIPPED |
| PlanProgress.NodesAlone | agent-core/src/maid_agent/brain/autonomous_loop.py:271-326 | A settled node outside loop bodies is not dispatched, and stays settled unless the surroundings answer with an interruption that ends the run at it |
| PlanRecovery.EveryNodeOnce | agent-core/src/maid_agent/goal/models.py:168-179 | The traversal of a tree meets each of its nodes exactly once |
| PlanRecovery.RuntimeRecovery.Revalidate | agent-core/src/maid_agent/persist/recovery.py:32-72 | The loop computes the recovered plan and saves it |
| PlanRecovery.BlockedExactlyWhenRefused | agent-core/src/maid_agent/persist/recovery.py:45-72 | The plan is BLOCKED exactly when some action under way is unconfirmed and out of retries or unsafe; every node becomes what the rules say, all others stay |
| PlanRecovery.RestartRules | agent-core/src/maid_agent/persist/recovery.py:45-72 | For every node by its saved status, kind, retries and tool: what a restart makes of it, its loop counter kept |
| PlanRecovery.SettledByRestart | agent-core/src/maid_agent/persist/recovery.py:45-53 | After a restart a node is settled exactly when it was, or it is an action under way that the new state confirms |
| PlanRecovery.PlanByRestart | agent-core/src/maid_agent/persist/recovery.py:45-72 | The plan is BLOCKED exactly when some action under way is unconfirmed and out of retries or not to be replayed, and PAUSED otherwise |
| PlanRecovery.RestartedLoopGoesOn | agent-core/src/maid_agent/persist/recovery.py:46-49 | A REPEAT saved RUNNING with some passes made is entered again after the restart and makes exactly the passes left |
| PlanRecovery.WhatIsTakenUp | agent-core/src/maid_agent/brain/autonomous_loop.py:150-177 | A restart takes up exactly what was saved unfinished, a run is made exactly of the active unfinished plan, a parked plan is reloaded from disk |
| PlanRecovery.RunIsSane | agent-core/src/maid_agent/brain/autonomous_loop.py:223-269 | One run: cost bound, write-ahead, counters, disk fit for a restart, and DONE only with the whole list settled |
| PlanRecovery.LifeIsSane | agent-core/src/maid_agent/brain/autonomous_loop.py:141-176 | Through any runs, pauses, crashes, restarts, updates by the user, reloads of a parked plan and losses of its place, all of this holds, and each event costs at most one traversal |
| PlanRecovery.FewRequestIds | agent-core/src/maid_agent/brain/autonomous_loop.py:386-436 | In its whole life a step uses at most max_retries + 1 request ids |
| PlanRecovery.UnsafeUnderWayEndsThePlan | agent-core/src/maid_agent/persist/recovery.py:45-72 | An unsafe step found under way and not confirmed: nothing of its plan is ever sent again |
| PlanRecovery.CrashSafety | agent-core/src/maid_agent/brain/autonomous_loop.py:389-398 | If the process dies while an unsafe request is out and the world does not confirm it, no later run or restart sends anything of the plan |
| PlanRecovery.CancelledUnsafeStepRunsAgain | agent-core/src/maid_agent/brain/autonomous_loop.py:264-267 | The guard does not reach a graceful stop: the step is saved PAUSED, passes revalidation, and its request goes out a second time |
| PlanRecovery.FinishedStepRunsAgain | agent-core/src/maid_agent/brain/autonomous_loop.py:279-283 | A pause that lands on a DONE action whose earlier nodes are settled demotes it, and the next run dispatches it again under its old request id (as nothing is awaited between settled nodes, it lands on the first node of a run or right after one that was run) |
| PlanRecovery.SettledUntilPaused | agent-core/src/maid_agent/brain/autonomous_loop.py:271-326 | Over a whole life, that is the only way: a settled step outside loop bodies is dispatched again only after a run in which the surroundings answered with a pause by the user, and which ended PAUSED at it while it was settled |
| PlanRecovery.NeverPausedNeverAgain | agent-core/src/maid_agent/brain/autonomous_loop.py:438-440 | So where no run of a life is answered with a pause by the user, no settled step outside loop bodies is dispatched again |
| PlanRecovery.UpdatedStepReusesTheRequest | agent-core/src/maid_agent/brain/autonomous_loop.py:687-694 | A step cancelled while its request is out, updated by the user and run again is dispatched twice, its new arguments under the request id of the old ones |
| PlanRecovery.UpdateGetsUnusedId | agent-core/src/maid_agent/goal/models.py:207-220 | In any surroundings, the first dispatch of a step after an update carries an unused request id exactly when no request of its current attempt was sent before (outside loop bodies, or at attempt 0) |
| PlanProgress.OnePassFirstUnder | agent-core/src/maid_agent/brain/autonomous_loop.py:355-356 | Whatever the surroundings, a pass after the first dispatches each step of its body first under attempt 0, nested loops included, and leaves a step outside the body at its attempt |
| PlanRecovery.PassesShareTheRequest | agent-core/src/maid_agent/brain/autonomous_loop.py:355-392 | So two later passes that both dispatch a step do so under a common request id |
| PlanRecovery.RepeatReusesTheRequest | agent-core/src/maid_agent/brain/autonomous_loop.py:386-392 | A REPEAT over one action whose n passes each get the answers they need at the moments they ask dispatches exactly n times, all under one request id |
| RndCycles.StepKeepsInv | agent-core/src/maid_agent/rnd/service.py:110-235 | Create, acquire, claim, save, settle, suspend, fail, crash, and recovery in one step or with others between its reading and its writing, by any process, keep: one active cycle, an owned claim, tiled periods |
| RndCycles.EveryRunIsSafe | agent-core/src/maid_agent/rnd/service.py:222-235 | After every interleaving of such steps, from an empty store: at most one active cycle, the claimer owns its running row, each period begins the day after the last |
| RndCycles.FinishedForever | agent-core/src/maid_agent/rnd/service.py:951-1050 | A finished row, other than a legacy cancelled one, stays finished under every interleaving, and changes only when a recovery writes the outcome of a row it read before |
| RndCycles.OldReadingOverwrites | agent-core/src/maid_agent/rnd/service.py:151-171 | That happens: a recovery that read a saved outcome overwrites a failure settled since by the row's own process |
| RndCycles.InspectConclude | agent-core/src/maid_agent/rnd/service.py:138-202 | A recovery that reads and writes a row with nothing in between is one step |
| RndCycles.RunnerIsAlone | agent-core/src/maid_agent/rnd/locks.py:41-55 | While a process runs a claimed cycle, no step of another touches its row or its lock |
| RndCycles.DaysAreTiled | agent-core/src/maid_agent/rnd/trigger.py:56-60 | Every day from the first period to the last lies in exactly one period |
| RndCycles.RecoversAtMostOne | agent-core/src/maid_agent/rnd/service.py:110-202 | Undisturbed, recovery hands back at most one cycle, now CREATED |
| RndCycles.AtMostOneAmidOthers | agent-core/src/maid_agent/rnd/service.py:118-202 | Unless a legacy row with ready input is listed after a row that could be handed back, at most one under every interleaving with other processes, inside each row's recovery too |
| RndCycles.AtMostOneExactly | agent-core/src/maid_agent/rnd/service.py:118-202 | And only then: at most one is handed back under every interleaving if and only if no ready legacy row is listed after one that could be handed back |
| RndCycles.LateLegacyHandsBackTwo | agent-core/src/maid_agent/rnd/service.py:180-193 | In any list with a legacy row of ready input after a recoverable row, and the lock free, two are handed back when another process completes the first in between |
| RndCycles.FinishedIsNotHandedBack | agent-core/src/maid_agent/rnd/service.py:138-152 | What was finished when recovery started is never handed back |
| RndCycles.CrashIsRecoverable | agent-core/src/maid_agent/rnd/service.py:174-193 | A crash loses nothing: the cycle is recovered and can be claimed again by anyone |
| RndCycles.CycleService.CreateNew | agent-core/src/maid_agent/rnd/trigger.py:35-66 | Creates exactly when nothing is active, the day is new and the period is not empty, under a number unused in rows and directories |
| RndCycles.CycleService.TryStart | agent-core/src/maid_agent/rnd/service.py:222-235 | A process starts a cycle exactly when the lock is free and the row is CREATED, and then owns both |
| RndCycles.RecoveryDecides | agent-core/src/maid_agent/rnd/service.py:143-202 | Whatever others do meanwhile, recovery writes the outcome named, or CREATED where the input is ready and nothing has changed, or else STAGE_COMPLETED exactly when there were artifacts at the reading and FAILED exactly when not |
| RndCycles.RecoverDecides | agent-core/src/maid_agent/rnd/service.py:143-202 | The same with nothing in between |
| RndCycles.StageIsEarned | agent-core/src/maid_agent/rnd/service.py:195-201 | Over every interleaving from an empty store: a cycle shows artifacts or STAGE_COMPLETED only if a process that had claimed it saved artifacts or wrote that outcome before |
| RndCycles.ArtifactsStay | agent-core/src/maid_agent/rnd/service.py:896-904 | Artifacts once saved stay, so that recovery cannot close their cycle as failed for want of them |
| RndCycles.CreatedPeriod | agent-core/src/maid_agent/rnd/trigger.py:35-66 | A cycle is created exactly when nothing is unfinished, the day is new and the period not empty; the period follows the last one, or reaches back cycle_days but not before day 0, and ends the day before |
| RndCycles.TaskTouches | agent-core/src/maid_agent/rnd/service.py:951-1050 | A task suspends or fails its own unfinished row only, never a running row of another process, and touches nothing else |
| RndCycles.RunnerSteps | agent-core/src/maid_agent/rnd/service.py:351-402 | What each step of a claimed run leaves: saved progress, the result before it is settled, the settled outcome, or a suspended row without outcome, with claim and lock given back |
| RndCycles.CycleService.RecoverRow | agent-core/src/maid_agent/rnd/service.py:132-202 | One row read under the lock, decided as above, and written after whatever others do meanwhile; left alone when the lock is held or the row is finished |
| RndCycles.CycleService.RecoverInterrupted | agent-core/src/maid_agent/rnd/service.py:110-202 | The loop over listed rows not its own, with other processes at work before and inside each: at most one under the condition above; undisturbed, at most one, now CREATED; with the lock held, nothing changes |
| PhaseRunner.DueIsNext | agent-core/src/maid_agent/rnd/service.py:1089-1100 | A threshold that is due is the next one to record |
| PhaseRunner.CycleRun.Assess | agent-core/src/maid_agent/rnd/service.py:1102-1131 | A review at 50% or 75%: the model is asked below 85% where there is one, otherwise the work is cut down; FAIL or not valuable stops it, and at 75% so does a budget that can form no result |
| PhaseRunner.CycleRun.ApplyDueCheckpoints | agent-core/src/maid_agent/rnd/service.py:1074-1137 | The recorded thresholds stay a duplicate-free prefix of 50, 75, 85, 95, each of the first two with its review; every one reached is recorded unless a review or the 95% mark stopped the work, for the reason it gives |
| PhaseRunner.CycleRun.RunPhase | agent-core/src/maid_agent/rnd/service.py:543-637 | One pass of the phase loop: done phases are skipped, a forced close hands over FINALIZE only, a review that ends the work lets nothing more be handed over, a success is recorded, and each other ending has its cause |
| PhaseRunner.CycleRun.RunPhases | agent-core/src/maid_agent/rnd/service.py:481-675 | Completed phases are an ordered prefix, after a forced close followed by FINALIZE alone; COMPLETED implies all five, the validator and usage below 95%, STAGE_COMPLETED implies FINALIZE and the validator; SUSPENDED a cancellation, FAILED a failed phase, review or validator or an error; nothing done is redone |
| PhaseRunner.HandOver | agent-core/src/maid_agent/rnd/service.py:549-613 | Handing over a phase keeps order, the closing rule and the rule against rework |
| TokenBudget.NestedCheckNeverRefuses | agent-core/src/maid_agent/tokens/budget_guard.py:138-145 | The check at the end of the limit accepts every cap the limit has computed |
| TokenBudget.LimitExactly | agent-core/src/maid_agent/tokens/budget_guard.py:115-146 | A grant is made exactly when the phase of the budget allows the purpose and the prompt leaves room for one token, and is what is desired or all the room; each refusal code tells which failed: from 95% on only closing purposes, from 85% on none that widens or proposes |
| TokenBudget.CheckExactly | agent-core/src/maid_agent/tokens/budget_guard.py:92-113 | The check alone in the same terms, code by code |
| TokenBudget.ReserveIsFifteenPercent | agent-core/src/maid_agent/tokens/budget_guard.py:106 | The reserve is 15% rounded down but at least one token, and 15 million from 100 million on |
| TokenBudget.LimitIsGreatest | agent-core/src/maid_agent/tokens/budget_guard.py:115-146 | The limit grants the largest completion the check accepts, and refuses exactly when it accepts none |
| TokenBudget.LimitBounds | agent-core/src/maid_agent/tokens/budget_guard.py:115-146 | What is granted fits the budget, and for early purposes the budget less the reserve |
| TokenBudget.TokenLedger.Record | agent-core/src/maid_agent/tokens/ledger.py:23-25 | One row is appended |
| TokenBudget.TotalStep | agent-core/src/maid_agent/tokens/ledger.py:26-31 | A row counts for its own ledger and cycle only |
| TokenBudget.TokenLedger.ServeOne | agent-core/src/maid_agent/tokens/budget_guard.py:115-146 | A served request keeps every cycle within its locked budget |
| TokenBudget.TokenLedger.Serve | agent-core/src/maid_agent/tokens/budget_guard.py:115-146 | Along any serial run no budget is exceeded, no early request cuts into its reserve, and every row was in phase when it was recorded: from 95% on closing, from 85% on neither widening nor proposing |
| TokenBudget.SharesFit | agent-core/src/maid_agent/rnd/models.py:105-115 | Six floored shares of a budget lose at most five |
| TokenBudget.FitIsExact | agent-core/src/maid_agent/rnd/models.py:105-115 | A plan that does not fit is scaled to sum exactly to the budget, each other part to its floored share, the reserve within budget; a second call changes nothing |
| TokenBudget.UsualShares | agent-core/src/maid_agent/rnd/models.py:105-115 | A plan without parts gets 8, 12, 10, 45 and 15 per cent of the budget, and the rest to finish |
| UsageCollection.SplitAnywhere | agent-core/src/maid_agent/rnd/api_budget_proxy.py:46-50 | Cutting a stream anywhere gives the same lines, with the unfinished tail carried over |
| UsageCollection.StreamIsItsLines | agent-core/src/maid_agent/rnd/api_budget_proxy.py:46-50 | A stream is its complete lines, each with its newline, and its tail |
| UsageCollection.NoNewlineInside | agent-core/src/maid_agent/rnd/api_budget_proxy.py:46-50 | Neither a line nor the tail has a newline in it |
| UsageCollection.UnfinishedCounts | agent-core/src/maid_agent/rnd/api_budget_proxy.py:52-55 | At the end an unfinished last line counts, and nothing else is added |
| UsageCollection.DataLine | agent-core/src/maid_agent/rnd/api_budget_proxy.py:64-75 | A data line reports what its text parses to, whatever white space and returns are around it, and nothing for an empty text or [DONE] |
| UsageCollection.OtherLine | agent-core/src/maid_agent/rnd/api_budget_proxy.py:64-69 | Other lines report nothing |
| UsageCollection.ChunksDoNotMatter | agent-core/src/maid_agent/rnd/api_budget_proxy.py:40-50 | The collector's state depends on the bytes alone |
| UsageCollection.AfterIsLastReport | agent-core/src/maid_agent/rnd/api_budget_proxy.py:64-75 | Overwriting forward finds the report that a search from the end finds |
| UsageCollection.UsageCollector.DrainLines | agent-core/src/maid_agent/rnd/api_budget_proxy.py:46-50 | The loop takes exactly the complete lines |
| UsageCollection.UsageCollector.Feed | agent-core/src/maid_agent/rnd/api_budget_proxy.py:40-50 | Feeding a chunk extends the stream seen |
| UsageCollection.UsageCollector.Finish | agent-core/src/maid_agent/rnd/api_budget_proxy.py:52-62 | At the end, usage is that of one scan over the whole stream |
| UsageCollection.Collect | agent-core/src/maid_agent/rnd/api_budget_proxy.py:32-75 | Any chunks: final usage, byte count and capped body equal those of the whole stream read at once |
| DependencyResolution.Versions | agent-core/src/maid_agent/rnd/mod_research/service.py:43-104 | The search ends on every finite graph, and leaves in progress only projects whose request failed |
| DependencyResolution.RestoredUnlessFailed | agent-core/src/maid_agent/rnd/mod_research/service.py:57-65 | The in-progress set is restored if and only if no project request failed at any depth, what is left behind are such projects, and none is when every named project can be fetched |
| DependencyResolution.VersionsSound | agent-core/src/maid_agent/rnd/mod_research/service.py:43-104 | When the pins accepted unchecked during the search can be installed, so can every version marked COMPATIBLE, by a finite derivation; without pins there are none |
| DependencyResolution.RowsAreSound | agent-core/src/maid_agent/rnd/mod_research/service.py:106-172 | The same for the rows of one version |
| DependencyResolution.InstallableExactlyWhenPinsAre | agent-core/src/maid_agent/rnd/mod_research/service.py:124-161 | The converse: a version whose required unpinned rows are right is installable exactly when every pinned version its required rows accepted is |
| DependencyResolution.VersionsComplete | agent-core/src/maid_agent/rnd/mod_research/service.py:43-104 | On an acyclic graph every installable version is marked COMPATIBLE |
| DependencyResolution.AcyclicIsExact | agent-core/src/maid_agent/rnd/mod_research/service.py:43-104 | On an acyclic graph, from any valid cache and whatever went before, COMPATIBLE means exactly installable when every request is answered or the new unchecked pins hold, and the cache stays valid |
| DependencyResolution.PinIntoCycleIsUnchecked | agent-core/src/maid_agent/rnd/mod_research/service.py:128-129 | A pin into a project in progress is accepted unchecked: a version that cannot be installed is reported COMPATIBLE |
| DependencyResolution.FirstOk | agent-core/src/maid_agent/rnd/mod_research/service.py:151-154 | The first compatible candidate: none before it is compatible; and none is given exactly when none is compatible |
| DependencyResolution.UnpinnedTakesFirst | agent-core/src/maid_agent/rnd/mod_research/service.py:146-161 | An unpinned dependency resolves to the first compatible one of the downloadable releases in the order of the answer, and to nothing exactly when there is none |
| DependencyResolution.VersionsList | agent-core/src/maid_agent/rnd/mod_research/service.py:43-104 | What is found lists the downloadable releases of the project in order, remembered answers too |
| DependencyResolution.PinIsChecked | agent-core/src/maid_agent/rnd/mod_research/service.py:118-145 | A pin is accepted unchecked exactly when the project of its version is in progress, and otherwise exactly when its required dependencies resolve |
| DependencyResolution.AnswersAreKept | agent-core/src/maid_agent/rnd/mod_research/service.py:43-65 | A remembered answer is given again, a project in progress offers nothing, and an answer found is remembered |
| DependencyResolution.Resolver.CompatibleVersions | agent-core/src/maid_agent/rnd/mod_research/service.py:43-104 | The recursion over one shared set and table computes the search |
| DependencyResolution.Resolver.ResolveDependencies | agent-core/src/maid_agent/rnd/mod_research/service.py:106-172 | The same for the loop over dependencies |
| DependencyResolution.Resolver.ResolveOne | agent-core/src/maid_agent/rnd/mod_research/service.py:116-161 | The same for one dependency |
| DependencyResolution.PermittedIsInstallable | agent-core/src/maid_agent/rnd/mod_research/service.py:294-303 | What passes the test before a download is installable when the pins accepted unchecked are; on an acyclic graph with every request answered, exactly the installable versions pass |
| DependencyResolution.MayDownload | agent-core/src/maid_agent/rnd/mod_research/service.py:294-303 | The test computes that verdict with the project itself in progress |
| Gateway.AtMostOnce | agent-core/src/maid_agent/transport/ws_server.py:119-128 | After an id was sent, or left with a waiter unsent, it is sent again only after a failure or the eviction of its answer |
| Gateway.BridgeGateway.RequestAction | agent-core/src/maid_agent/transport/ws_server.py:119-128 | From the cache; attached to any waiter, in flight or unsent, with nothing sent; or sent, failed, or cancelled unsent with its waiter left behind |
| Gateway.BridgeGateway.OnResult | agent-core/src/maid_agent/transport/ws_server.py:102-107 | Remembered and its waiter released; of 512 remembered answers the oldest is dropped for a new one, and no other |
| Gateway.BridgeGateway.OnTimeout | agent-core/src/maid_agent/transport/ws_server.py:124-128 | A timeout fails its own request only |
| Gateway.BridgeGateway.OnCancel | agent-core/src/maid_agent/transport/ws_server.py:121-126 | A cancelled wait leaves its waiter, and asking again attaches to it |
| Gateway.BridgeGateway.FailWaiters | agent-core/src/maid_agent/transport/ws_server.py:151-155 | Every waiter fails, the cache stays |
| Gateway.BridgeGateway.OnDisconnect | agent-core/src/maid_agent/transport/ws_server.py:66-68 | After a disconnect nothing waits and nothing is resynchronised |
| Gateway.BridgeGateway.OnConnect | agent-core/src/maid_agent/transport/ws_server.py:55-57 | A second connection is refused, a new one starts unsynchronised |
| Gateway.BridgeGateway.OnHello | agent-core/src/maid_agent/transport/ws_server.py:72-74 | HELLO alone never makes the state fresh |
| Gateway.BridgeGateway.OnState | agent-core/src/maid_agent/transport/ws_server.py:76-88 | A state is accepted exactly after HELLO, in its session and from the bound maid; readiness means such a state since the last HELLO |

## Left out

- PlanRecovery.CrashSafety: the in-flight step is identified by its node id; that ids are unique in the tree is required, since the source draws them at random and does not compare them.
- PlanRecovery.UpdateGetsUnusedId: for a step inside a loop body with retries behind it nothing is said, since the next pass may reset it to attempt 0.
- PlanRecovery.LifeIsSane: the child plan that brings missing material, and any other plan that takes this one's place, are lives of their own; which plan a restart loads is the choice of the events.
- PlanRecovery.RuntimeRecovery.Revalidate: which steps the new state confirms, cached results included, is a parameter; the goal's own status and the notes are not modelled.
- PlanRunning.PlanRunner.AdjustPlan: new arguments are not modelled, only their effect on status and request id; a raised validation error is not.
- PlanRunning.PlanRunner.ExecutePlan: previous results, error codes, positions and other checkpoint fields, events, scoreboards, reflections and sleeps are not modelled.
- PlanInterpretation.Failure: request ids are kept as attempt numbers, with the UUID function taken to be one-to-one.
- Safety flags of tools, conditions and preconditions: table entries and answers of the surroundings.
- Shape validators of plan steps: none of the results needs them, except that a REPEAT count is within its iteration limit where that is stated.
- BlueprintExecution.BlueprintExecutor.Execute: a build id stands for one block list; JSON conversions of reported indices are taken to succeed, and a reply carried over from an older segment payload under the same request id is excluded by the Bridge contract.
- `BuildPlanner.segments` of the source: the executor cuts its own segments.
- BuildingDsl.CompileDsl: parsing of the input dictionary; blueprint name and id.
- RndCycles.StepKeepsInv: creating a row and preparing its input, and reading and writing a row in suspend or failure, are one step each; process ids are never reused.
- RndCycles.CycleService.TryStart: waiting, stale lock files and the operating system's lock itself.
- PhaseRunner.CycleRun.RunPhases: prompts, workspaces, result files, the older path without a coding harness, and the content of reviews beyond the three answers used.
- TokenBudget.LimitIsGreatest: ratios are compared in exact arithmetic instead of floating point; cycle ids are present.
- TokenBudget.TokenLedger.Serve: a response is taken to use no more than its prompt and cap; requests are served one at a time.
- TokenBudget.FitIsExact: shares and the default reserve are floored exactly, where the source multiplies and divides in floating point.
- UsageCollection.Collect: JSON and UTF-8 decoding of one line is a function parameter.
- DependencyResolution.VersionsSound: metadata is one flag per version; file lists, names and hashes are left out; pins accepted unchecked are recorded, and the result is conditional on them.
- DependencyResolution.MayDownload: fetching and hashing the files.
- Gateway.BridgeGateway.OnCancel: an attached requester waits without a timeout of its own, on an orphaned waiter until the connection ends or a late result comes; time is not modelled. Generic messages, events and their bounded queue are left out.
- Gateway.BridgeGateway.OnTimeout: the waiters of attached requesters are not modelled apart from their owner's; in the source one attached to a waiter that its owner's timeout removed is reached by neither a late result nor a disconnect, and waits for ever.
- The Control Center, process supervision, key storage, the language model and its prompts, packaging tools, statistics and the Java side of the Bridge.
