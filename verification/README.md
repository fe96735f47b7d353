# SynKoala verification model

A Dafny model of the execution core of SynKoala, the service that lets synthetic
participants walk through the screens of a design, and proofs about it. It is
written for Dafny 4.11; `dafny verify dfyconfig.toml` checks the whole project.

## What is modelled

**The participant loop** (`SimulationGraph`, `Sampling`, `EventLog`, `Simulation*`).
Ten nodes work on one state record. `SimulationGraph.Step` is one node visit followed
by its router; `Run` is the machine after k visits. The scores a participant model
gives, the random draws and the gaze durations are inputs, so every theorem holds for
all of them; the exponential of the softmax is any positive function, and an
increasing one where a better score is said to win. `SimulationTask`,
`SimulationMoves` and `SimulationDecision` state what each node does over every run in
the fields of the records alone. `SimulationRunner` holds the loops of the code (the
driver, the scan for the intended element, the evaluation of the task) as methods
proved against these functions.

**The queue and the finalize protocol** (`RunQueue`, `RunSafety`, `RunCancel`,
`FinalizeProtocol`, `FinalizeComplete`, `FinalizeRace`, `CancelProtocol`, `RunStore`).
`RunQueue.Do` is what one committed transaction does to the rows of a run.
`RunStore.Store` is the imperative code of the worker, the run service and the cancel
use case, proved to commit exactly that. `FinalizeProtocol` takes a worker's
transaction apart into write, lock, recheck and commit, lets the transactions of all
workers interleave with read-committed visibility, and proves that with the row lock
the committed rows are those of some history of atomic commits, and `FinalizeComplete`
that every such history can be produced; `FinalizeRace` shows what happens without the
lock. `CancelProtocol` adds a cancellation that reads the run's status without the
lock and writes it later.

**The screen graph** (`Domain`, `ScreenKeys`, `ScreenRoles`, `ScreenTransitions`,
`ScreenLinks`, `ScreenConnections`, `Reach`, `GraphSearch`). Unique screen keys, the
collapsing of duplicate screens, the resolving of edges reported by a model that is
not trusted, the two breadth-first searches and the choice among three inferences. The
walk of a simulated run and the search meet in `SimulationBaseline`: no participant
can beat the shortest-path baseline. `SimulationTight` shows that for every distance
some run attains it, and `SimulationChoices` which transitions a participant can
follow at all.

**Aggregation** (`ElementMetrics`, `ElementScan`, `ElementRates`, `ElementTimes`,
`FrictionMetrics`, `RangeSums`, `Heatmap*`). The fused pass over all observations
against six separate definitions, and the shares and hesitations in recorded
milliseconds; the dead-end rates; the sparse spread-form heatmap smoothing against the
convolution, with its mass laws, and the path from raw gazes to reported heatmap
cells.

## What the code does not guarantee

Statements a reader of the repository would rely on, most of them made in its
docstrings, that do not hold of the code in general. The model follows the code and
says exactly when each holds.

- *A cancelled run ends up CANCELLED.* A run is CANCELLED by the commit of the
  cancellation itself (`RunCancel.CancelIsImmediate`), and a participant's job in
  flight at that moment finalizes the run again, to COMPLETED, and starts the analysis
  (`RunCancel.LateFinishReopens`; `RunCancel.CancelledRunCompletes` is such a history of
  a created run). The run stays CANCELLED if and only if no
  participant's job was in flight when it was cancelled
  (`RunCancel.StaysCancelledIff`); each late settlement enqueues one more
  aggregation (`RunCancel.AggregationsAfterCancel`).
- *Only a run that has not finished can be cancelled.* The status is read without the
  row lock and overwritten later. A run whose aggregation is queued ends CANCELLED
  if and only if it was finalized between that read and that write, that is when the
  write found every participant's job settled
  (`CancelProtocol.CancelOverwritesIff`). `CancelProtocol.FinishedRunIsCancelled` gives
  moves for which that happens.
- *`intended_action_not_discovered` means the element was never seen.* For every
  number of allowed scans there is a run that looked at the element, acted on it and
  was still abandoned (`SimulationScan.FoundYetExhausted`). The element was never
  looked at on that screen in the whole run if and only if no action was ever performed
  on that screen (`SimulationScan.ExhaustionMeans`): over a run, the finds on a screen
  are exactly as many as the actions there (`SimulationScan.FindsAlways`).
- *An inference that connects entry to success is the one kept.* It is kept if and
  only if it reaches strictly more screens than every attempt before it
  (`ScreenTransitions.ConnectingAttemptReturnedIff`);
  `ScreenConnections.ConnectingAttemptCanLose` gives screens and answers for which
  the set kept leaves success out of reach although the second answer connected.
- *Some inference can connect entry to success.* One can if and only if they are the
  same screen, or neither was collapsed as a duplicate and the entry has an element
  (`ScreenConnections.CanConnectIff`). The success kept is the latest claimed while a
  duplicate collapses onto the earliest, so a success screen uploaded twice is
  collapsed away (`ScreenConnections.SuccessSurvivesIff`), and then all three attempts
  are spent in vain (`ScreenConnections.NoneConnects`).
  `ScreenConnections.TwinSuccessIsLost` gives a classification for which this happens.
- *A stored trigger lives on the screen it leaves.* It does if and only if the last
  screen with that key has an element of the reported name
  (`ScreenTransitions.ResolvedEnds`); distinct screen keys guarantee it, and with two
  screens of one key it can fail (`ScreenTransitions.TriggerCanLieElsewhere`).
- *The shortest path is one a participant can take.* The baseline counts every stored
  transition, while a participant follows one if and only if it is the first row of its
  trigger and the trigger can be clicked or selected: the intended element where the
  screen has one, an interactable element elsewhere, and never one whose default action
  is typing (`SimulationChoices.FollowedIff`). The other transitions change no run
  (`SimulationChoices.PruningChangesNothing`), so completing costs the distance
  along the ones that can be followed, which is at least the baseline
  (`SimulationChoices.CompletionCostsFollowable`), and a baseline can exist where no run
  ever completes (`SimulationChoices.BaselineUnattainable`).
- *Excess screens measure detours.* The baseline counts transitions while a run
  counts entered screens. The mean excess of completed runs is at least 1, and is 1 if
  and only if every run entered no more than the d + 1 screens of a shortest walk; the
  mean excess of actions is 0 if and only if every run performed d + 1 actions
  (`FrictionMetrics.ExcessOfCompletedRuns`). For every d some run does both
  (`SimulationTight.BaselineIsAttained`).

The first matching transition depends on the stored order if and only if some trigger
on a screen has two destinations (`SimulationReplay.OrderIndependentIffFunctional`).
No graph built by `_resolve_transitions` has such a trigger
(`ScreenTransitions.ResolvedGraph`), and the other writer of transitions, the Figma
import, stores one target for each element; so the order does not matter for
any graph the code stores.

## Model

| member | source | states |
|---|---|---|
| `Sampling.PickIsProportional` | app/agents/graphs/simulation_graph.py:155-170 | For a draw in [0, 1] candidate i is picked exactly when the draw falls in its slice of the unit interval, whose length is its softmax share, the draw 0 belonging to the first; the slices cover the interval, so the "last item" fallback never decides |
| `Sampling.SoftmaxSample` | app/agents/graphs/simulation_graph.py:155-170 | The sampling loop picks that candidate; an empty list yields nothing |
| `Sampling.SlicesFollowScores` | app/agents/graphs/simulation_graph.py:155-170 | The stretches of the unit interval that pick two candidates are as long as exp(4 * (score - best score)) of the one is to that of the other, for any positive exponential |
| `Sampling.BetterScoresWin` | app/agents/graphs/simulation_graph.py:155-170 | With an increasing exponential the better score has the strictly longer stretch, and equal scores have equal ones |
| `Domain.LookupIsFirst` | app/agents/graphs/simulation_graph.py:465-478 | The transition found is the first stored one with this screen and trigger |
| `Domain.Lookup` | app/agents/graphs/simulation_graph.py:465-478 | The transition found has this screen and trigger, and none is found exactly when no stored transition has them |
| `Domain.StartingScreenIs` | app/agents/types.py:49-56 | The start is the first screen with the requested key; without a request, or when no screen has the key, the first screen of the graph |
| `Domain.CriticalIs` | app/agents/graphs/simulation_graph.py:267-269 | An element is critical exactly when its key is listed, or its role is, or it has no role and the empty text is listed |
| `SimulationGraph.IntendedIsFirst` | app/agents/graphs/simulation_graph.py:251-270 | The intended element is the first of the screen that a critical action names |
| `SimulationGraph.IntendedElement` | app/agents/graphs/simulation_graph.py:251-270 | It is named by a critical action, and there is none exactly when no element is named |
| `SimulationTask.IntendedByFields` | app/agents/graphs/simulation_graph.py:251-270 | The intended element is the first of the screen whose key or role is listed, and there is none exactly when no key and no role is |
| `SimulationMoves.Begins` | app/agents/graphs/simulation_graph.py:676-701 | A run begins on its start screen with nothing done, uncertainty 0.3, and the entering of that screen as its only event |
| `SimulationMoves.PerceiveIs` | app/agents/graphs/simulation_graph.py:283-290 | On a screen the graph does not have the run fails without an event; on any other it goes on to look, its state unchanged |
| `SimulationMoves.ExhaustionIs` | app/agents/graphs/simulation_graph.py:379-401 | Scans used up abandon the run, with an ABANDON event on that screen |
| `SimulationMoves.GazeIs` | app/agents/graphs/simulation_graph.py:293-361 | Over every run, attending looks at the element in whose stretch of the unit interval the draw falls; the gaze is logged with screen, element, duration, score and scan number, and the next node follows from whether it is the intended element and scans are left |
| `SimulationMoves.FittingAction` | app/agents/providers/participant_model.py:97-102 | Inputs are typed into, selects and elements with the role of a select or an option are selected, everything else is clicked |
| `SimulationMoves.CandidatesAre` | app/agents/providers/participant_model.py:249-291 | The candidates are the interactable elements in the order of the screen, each with its fitting action, then SCROLL, then BACK for the heuristic model after an action and fewer than three steps back |
| `SimulationMoves.ChoiceIs` | app/agents/graphs/simulation_graph.py:419-427 | Over every run, the action chosen is the candidate in whose stretch of the unit interval the draw falls |
| `SimulationMoves.IntendedIsActedOn` | app/agents/graphs/simulation_graph.py:364-376 | Having found the intended element, a participant performs the fitting action on that element |
| `SimulationMoves.ActionIs` | app/agents/graphs/simulation_graph.py:430-503 | Over every run, an action leads back, along the first stored transition of the element clicked, or nowhere for one more dead end; it and the change of screens are all that is logged |
| `SimulationMoves.UpdateIs` | app/agents/graphs/simulation_graph.py:506-560 | Over every run, an update records the progress of the state, and logs it exactly when it moved by more than 0.01 |
| `SimulationGraph.EachIsOffered` | app/agents/providers/participant_model.py:254-279 | Every interactable element is offered once, in the order of the screen, with its default action, and nothing else is |
| `SimulationWalk.CandidatesOffered` | app/agents/providers/participant_model.py:249-291 | Whatever the model offers on a screen without an intended element targets that screen, and BACK is offered only after fewer than three steps back |
| `SimulationRunner.Look` | app/agents/graphs/simulation_graph.py:293-352 | The code of `attend` with its search and sampling loops computes the attend step |
| `SimulationRunner.SuccessConditionMet` | app/agents/graphs/simulation_graph.py:218-248 | The loop over the action history decides the success condition: the current screen matches, or some past action hit the element or role |
| `SimulationRunner.MatchedCritical` | app/agents/graphs/simulation_graph.py:538-548 | The loop collects exactly the critical actions some recorded action matched |
| `SimulationTask.MatchedByFields` | app/agents/graphs/simulation_graph.py:538-548 | A critical action is collected exactly when some recorded action hit an element with that key or that role, or without a role when it is the empty text |
| `SimulationTask.SuccessByFields` | app/agents/graphs/simulation_graph.py:218-248 | The finish line of the success conditions is met exactly when the current screen has the key, or some recorded action hit an element with the key or the role asked for |
| `SimulationTask.ProgressByFields` | app/agents/graphs/simulation_graph.py:527-552 | Progress is 1 at the finish line; else collected over listed critical actions, held at 0.99 when there is a finish line; else 0.15 for each distinct screen of the walk, held at 0.9 |
| `SimulationRunner.EvaluateProgress` | app/agents/graphs/simulation_graph.py:527-552 | The branches of `update_state` compute the progress of the state |
| `SimulationRunner.PerformAction` | app/agents/graphs/simulation_graph.py:430-503 | The code of `execute_action`, with its search for a transition, computes the action step |
| `SimulationRunner.DecideOutcome` | app/agents/graphs/simulation_graph.py:563-607 | The branches of `check_task` compute the decision whether and how the run ends |
| `SimulationDecision.DecisionIs` | app/agents/graphs/simulation_graph.py:563-612 | A run whose task was just evaluated goes on if and only if progress < 1, steps are left, there is something to act on or a screen to go back to, and step <= 5 or uncertainty * (1 - patience) + 0.1 * min(1, dead ends / 4) <= 0.75; otherwise it ends for the first of these that fails |
| `SimulationDecision.DecisionIsRecorded` | app/agents/graphs/simulation_graph.py:563-607 | Going on leaves no event; each ending leaves one on no screen, TASK_SUCCESS with progress 1, TASK_FAILURE or ABANDON with the reason, and nothing else of the state changes |
| `SimulationDecision.UncertaintyMoves` | app/agents/graphs/simulation_graph.py:404-416 | Uncertainty starts at 0.3 and is moved only by interpreting: to 0.6 less the distance of the best score from the mean, kept in [0, 1], or by a tenth up to 1 where nothing was scored |
| `SimulationImpatience.LosesPatienceIff` | app/agents/graphs/simulation_graph.py:591-600 | One click leads to a screen without elements, where uncertainty wears up to 1 by tenths: whatever model scores the candidates, that run is abandoned for lack of patience at step 6 if patience is below 0.25, and otherwise at the step limit |
| `SimulationRunner.VisitNode` | app/agents/graphs/simulation_graph.py:273-607 | The ten nodes, each written out, together do one step of the machine |
| `SimulationRunner.RunSimulation` | app/agents/graphs/simulation_graph.py:661-710 | The driver returns the first halted machine, within the visit bound and below the recursion limit, with an outcome when the graph is closed |
| `SimulationLog.LogAlways` | app/agents/graphs/simulation_graph.py:430-503 | At every moment of every run: event i carries sequence number i, gazes and actions carry the screen entered last, the last screen entered is the current one, one action event per step |
| `EventLog.PlacedMeans` | app/agents/graphs/simulation_graph.py:430-503 | The invariant that every gaze and action carries the screen entered last before it says so of each position of the log |
| `SimulationLog.OutcomeAlways` | app/agents/graphs/simulation_graph.py:379-401 | A run that ended has an outcome; unless its start screen was missing, outcome and reason are announced by the last event and by no other |
| `SimulationProgress.ProgressBounds` | app/agents/graphs/simulation_graph.py:527-552 | Progress lies in [0, 1] and is 1 exactly at the finish line |
| `SimulationProgress.ProgressAlways` | app/agents/graphs/simulation_graph.py:506-560 | The recorded progress of every reachable state is that of its last update |
| `SimulationProgress.CompletedIffFinishLine` | app/agents/graphs/simulation_graph.py:563-607 | A finished run is COMPLETED exactly when it acted and its final state meets the finish line |
| `SimulationProgress.NoFinishLineNoCompletion` | app/usecases/simulations.py:20-28 | A task without a finish line is never completed, and progress stops at 0.9 |
| `SimulationProgress.ProgressNeverFalls` | app/agents/graphs/simulation_graph.py:506-560 | With critical actions progress never falls from any visit to any later one |
| `SimulationWalk.WalkAlways` | app/agents/graphs/simulation_graph.py:430-503 | History plus current screen is a walk from the start screen; at most three steps back; each screen of the walk lies within (screens entered - 1) transitions; without self-loops screens entered = length of the walk + 2 * steps back |
| `SimulationWalk.NeverRaises` | app/agents/graphs/simulation_graph.py:283-286 | On a closed graph no node raises, and "screen not found" happens exactly for an unknown start screen |
| `SimulationBaseline.CompletionCostsBaseline` | app/services/analytics_engine.py:99-127 | A COMPLETED run of a task finished by its critical actions performed at least d + 1 actions and entered at least d + 1 screens, where d is the least number of transitions to a critical screen, which then exists |
| `SimulationChoices.FollowedIff` | app/agents/graphs/simulation_graph.py:465-478 | Whenever a screen is about to be perceived, some scores and draws make the participant follow a transition out of it if and only if it is the first row of its trigger and the trigger is, on that screen, an element that can be clicked or selected |
| `SimulationChoices.PruningChangesNothing` | app/agents/graphs/simulation_graph.py:465-478 | For all scores and draws the trace is the same without the transitions nobody can follow |
| `SimulationChoices.CompletionCostsFollowable` | app/services/analytics_engine.py:99-127 | A run completed by its critical actions performed at least f + 1 actions and entered at least f + 1 screens, where f is the distance to a critical screen along transitions that can be followed, and f is at least the baseline distance |
| `SimulationChoices.BaselineUnattainable` | app/agents/providers/participant_model.py:97-102 | A graph with baseline (2, 1) whose only transition is triggered by typing, on which no run of any model ever completes |
| `SimulationScan.ScanAlways` | app/agents/graphs/simulation_graph.py:293-376 | On a screen with an intended element scan_count is the number of gazes since it was entered and each find led to one action; elsewhere it is 0 |
| `SimulationScan.ActionsOnTarget` | app/agents/graphs/simulation_graph.py:364-376 | Every action recorded on a screen with an intended element targets that element |
| `SimulationScan.FindsAlways` | app/agents/graphs/simulation_graph.py:293-376 | At every moment of every run the gazes that found the intended element of a screen are as many as the actions performed on that screen, one find being ahead while its action is under way |
| `SimulationScan.ExhaustionMeans` | app/agents/graphs/simulation_graph.py:355-401 | Exhaustion means at least max(1, m) gazes since entry, the last a miss; the element was never looked at on that screen in the whole run if and only if no action of the run was performed there |
| `SimulationScan.FoundYetExhausted` | app/agents/graphs/simulation_graph.py:499-502 | For every number of scans m >= 1 a run that found the intended element, acted on it, and is exhausted on it all the same |
| `SimulationPatience.CalmUntilBlank` | app/agents/graphs/simulation_graph.py:404-416 | Until a screen without elements is interpreted, uncertainty is at most 0.6 and nobody has lost patience |
| `SimulationPatience.NobodyLosesPatience` | app/agents/graphs/simulation_graph.py:591-600 | If every screen has an element, `low_patience_high_uncertainty` cannot occur for any non-negative patience |
| `SimulationBounds.RankFalls` | app/agents/graphs/simulation_graph.py:614-655 | Every visit of a running machine lowers a rank made of steps left, scans left and node |
| `SimulationBounds.EveryRunEnds` | app/agents/graphs/simulation_graph.py:614-655 | Every run halts within 1 + N * max(7, 5 + max(1, m)) visits, and on a closed graph with an outcome |
| `SimulationBounds.BelowRecursionLimit` | app/agents/graphs/simulation_graph.py:703-709 | That bound is strictly below the recursion limit N * (8 + m) + 20 for N >= 1 |
| `SimulationBounds.HaltsInTime` | app/agents/graphs/simulation_graph.py:703-709 | For N >= 1 every run has halted after N * (8 + m) + 19 visits |
| `SimulationBookkeeping.BookAlways` | app/agents/graphs/simulation_graph.py:456-480 | In every reachable state the logged clicks that trigger a stored transition are as many as the screens on the back-stack plus the steps back, and the dead ends counted are exactly the logged clicks that trigger none |
| `SimulationBookkeeping.NumbersAlways` | app/agents/graphs/simulation_graph.py:313-342 | The scan number of every logged gaze is its rank among the gazes since its screen was entered, and 0 on a screen without an intended element |
| `SimulationBookkeeping.EndingAlways` | app/agents/graphs/simulation_graph.py:563-607 | What each ending means: full progress; the step limit exactly spent; nothing to act on and nowhere to go back to; pressure above 0.75 after more than five steps; the scans of a screen used up; an unknown screen |
| `SimulationReplay.OrderIndependentIffFunctional` | app/services/stimulus_service.py:184-193 | The first-match lookup ignores the row order if and only if each trigger on a screen has one destination |
| `SimulationReplay.TraceIgnoresRowOrder` | app/agents/graphs/simulation_graph.py:465-478 | On such a graph the whole trace for given draws is identical for every order of the stored rows |
| `RunStore.CountsMeanAll` | app/services/simulation_run_service.py:193-242 | The counts equal the total exactly when all participants are terminal, or all carry the error marker |
| `RunStore.Store.constructor` | app/usecases/simulations.py:154-181 | The fan-out leaves one waiting participant and one pending job for each, on a running run |
| `RunStore.Store.Enqueue` | app/services/job_service.py:14-18 | One pending job without attempts is appended |
| `RunStore.Store.CompleteParticipantRun` | app/services/simulation_run_service.py:66-79 | Only the named participant changes |
| `RunStore.Store.IsRunComplete` | app/services/simulation_run_service.py:152-155 | True exactly when there is a participant and all are terminal |
| `RunStore.Store.FinalizeRun` | app/services/simulation_run_service.py:157-191 | CANCELLED from CANCELLING; else FAILED if all participants were given up, COMPLETED otherwise |
| `RunStore.Store.FinalizeRunAndNotify` | app/workers/jobs/simulate_participant.py:32-72 | Finalizes and enqueues the aggregation exactly when all participants are terminal, and reports the counts |
| `RunStore.Store.HandleSimulateParticipant` | app/workers/jobs/simulate_participant.py:144-163 | Ends the participant and finalizes |
| `RunStore.Store.HandlePermanentFailure` | app/workers/jobs/simulate_participant.py:166-190 | Marks the participant failed unless it already ended, and finalizes |
| `RunStore.Store.ClaimOneJob` | app/workers/runner.py:23-43 | Claims the first pending job and nothing else, or finds none exactly when none is pending |
| `RunStore.Store.ProcessJob` | app/workers/runner.py:46-111 | Commits exactly the success or the failed attempt of that job: retry below three attempts, permanent failure at three, the chained jobs on success |
| `RunStore.Store.CancelRun` | app/usecases/simulations.py:220-235 | Refused exactly for terminal runs; else commits exactly the cancellation |
| `RunQueue.AlwaysConsistent` | app/services/simulation_run_service.py:122-191 | After every history of commits, cancelled or not: the run is terminal exactly when all participants are, CANCELLING is never left behind, a job is FAILED exactly at three attempts, and no participant leaves a terminal status |
| `RunQueue.ThreeAttempts` | app/workers/runner.py:20-90 | In every history of a created run no job fails more than three times, and a job is given up exactly when it failed three times |
| `RunQueue.AttemptOutcome` | app/workers/runner.py:76-90 | A failed attempt after none or one leaves the job pending; after two it is given up |
| `RunQueue.SuccessIsRecorded` | app/workers/jobs/simulate_participant.py:144-163 | A success writes the participant's own ending, without the error marker, and no other participant |
| `RunQueue.FailureIsRecorded` | app/workers/jobs/simulate_participant.py:166-190 | Only the third failed attempt touches a participant: one that still waits ends as failed, with the error marker |
| `RunQueue.CancellationIsRecorded` | app/usecases/simulations.py:220-235 | A cancellation abandons the waiting participants without the error marker, drops the participants' pending jobs, and touches no other row |
| `RunSafety.OneAggregation` | app/workers/jobs/simulate_participant.py:32-61 | After every uncancelled history the aggregation was enqueued at most once; the run is terminal exactly when every simulate job is DONE or FAILED, then exactly one aggregation exists and the run is FAILED iff all jobs were given up, else COMPLETED |
| `RunSafety.OneTerminalCommit` | app/workers/runner.py:46-111 | In an uncancelled history each participant has exactly one settling commit if it has ended and none if it has not, and no later commit touches its row |
| `RunSafety.ChainAccounts` | app/workers/jobs/aggregate_run.py:141 | After every history of a created run there are as many validate jobs as finished aggregations and as many insight jobs as finished validations |
| `RunSafety.QueueDrains` | app/workers/runner.py:46-111 | An uncancelled run of n participants causes at most 3(n + 3) handler executions and 6(n + 3) commits, and a history that cannot go on has settled every job, with the run terminal and exactly one aggregation |
| `RunCancel.CancelIsImmediate` | app/usecases/simulations.py:220-235 | The commit of a cancellation ends every waiting participant, leaves no simulate job pending and makes the run CANCELLED at once |
| `RunCancel.LateFinishReopens` | app/services/simulation_run_service.py:175-189 | A job in flight at the cancellation turns the run to COMPLETED and enqueues an aggregation |
| `RunCancel.CancelledRunCompletes` | app/services/simulation_run_service.py:175-189 | A created run that is claimed, cancelled and finished by its only participant ends COMPLETED |
| `RunCancel.StaysCancelledIff` | app/services/simulation_run_service.py:157-191 | The run is CANCELLED after every continuation if and only if no job was in flight at the cancellation |
| `RunCancel.AggregationsAfterCancel` | app/workers/jobs/simulate_participant.py:43-61 | After a cancellation the aggregation is enqueued once for every job settled late |
| `FinalizeProtocol.CommitIsAtomic` | app/services/simulation_run_service.py:96-115 | What a transaction decided under the lock is still right when it commits: the commit equals the atomic transaction on the rows of that moment |
| `FinalizeProtocol.Serializable` | app/workers/jobs/simulate_participant.py:32-61 | With the lock, the committed rows after any interleaving of worker transactions are those of an uncancelled history of atomic commits |
| `FinalizeComplete.SameRows` | app/workers/runner.py:46-111 | In a created run, rows are left by some interleaving of the workers if and only if they are left by some uncancelled history of atomic commits |
| `FinalizeProtocol.NoLostFinalization` | app/services/simulation_run_service.py:96-115 | In every interleaving the aggregation is enqueued at most once, and once every simulate job has settled the run is finalized correctly with exactly one aggregation |
| `FinalizeRace.LostFinalizationWithoutLock` | app/services/simulation_run_service.py:97-109 | Without the lock, for every n >= 2 some interleaving with never more than two transactions open ends all participants, leaves the run RUNNING without an aggregation, and allows no further move |
| `FinalizeProtocol.NoDeadlock` | app/services/simulation_run_service.py:96-115 | With the lock, when no move of any worker is possible every job is settled and the run is finalized with exactly one aggregation |
| `CancelProtocol.WriteMeans` | app/usecases/simulations.py:220-235 | A cancellation that finds the run unfinished when it writes is the atomic cancellation; one that finds it finalized only overwrites the status |
| `CancelProtocol.CancelOverwritesIff` | app/usecases/simulations.py:220-235 | With worker moves before the read, between read and write, and after: a run with an aggregation queued ends CANCELLED if and only if all participants settled between the read and the write |
| `CancelProtocol.FinishedRunIsCancelled` | app/usecases/simulations.py:220-235 | Moves for which a run that completed and queued its aggregation between the read and the write ends CANCELLED |
| `GraphSearch.ShortestPathBaseline` | app/services/analytics_engine.py:84-127 | Answers (d + 1, d) for the least d at which a critical screen lies, although it stops at discovery; (1, 0) exactly when the start screen has an element whose key or role is listed; nothing exactly when there is no critical action, no known start or no such reachable screen |
| `GraphSearch.FoundNearest` | app/services/analytics_engine.py:113-126 | A critical screen discovered while a level is expanded is a nearest one |
| `ScreenKeys.DecimalInjective` | app/services/stimulus_service.py:139-148 | Different numbers have different decimal texts |
| `ScreenKeys.SuffixedInjective` | app/services/stimulus_service.py:139-148 | Different suffix numbers give different keys |
| `ScreenKeys.SuffixedIs` | app/services/stimulus_service.py:139-148 | A suffixed key is the base, an underscore, and digits that read back as the number |
| `ScreenKeys.UniqueScreenKey` | app/services/stimulus_service.py:128-148 | The suffix search ends for every finite set of keys and returns the first free key of the family |
| `ScreenKeys.UploadAll` | app/usecases/stimulus.py:89-100 | A batch of uploads keeps all keys of a study distinct, keeps the earlier ones and gives each upload the first free key |
| `ScreenRoles.ReportsBackward` | app/workers/jobs/analyze_stimulus.py:69-80 | Whatever the model reports, the links that are kept point strictly earlier in upload order |
| `ScreenLinks.LinkKeptIff` | app/workers/jobs/analyze_stimulus.py:66-80 | The last report about a screen counts: its role is taken, and its link exactly when it names a screen uploaded strictly earlier |
| `ScreenLinks.LosersBecomeSteps` | app/workers/jobs/analyze_stimulus.py:82-98 | Of several claimants of a role one keeps it and the others become steps; all links and all other roles stay |
| `ScreenRoles.ResolveScreenRoles` | app/workers/jobs/analyze_stimulus.py:54-98 | The result keeps, of the claimed entries and then of the claimed successes, the one required; all links still point backwards |
| `ScreenRoles.RolesUnique` | app/workers/jobs/analyze_stimulus.py:82-98 | One entry remains if and only if some screen claimed the role, and one success likewise, and never more; the earliest claimed entry wins, and the latest claimed success |
| `ScreenRoles.CanonicalScreenKeys` | app/workers/jobs/analyze_stimulus.py:101-113 | Following the chain always ends at the root of the key: the `seen` guard never fires |
| `ScreenRoles.CanonicalIsFixed` | app/workers/jobs/analyze_stimulus.py:101-113 | Collapsing twice is collapsing once, and never leads to a later upload |
| `ScreenLinks.RootFollows` | app/workers/jobs/analyze_stimulus.py:101-113 | A screen collapses onto what the target of its link collapses onto, and a screen without a link onto itself |
| `ScreenTransitions.ResolveTransitions` | app/workers/jobs/analyze_stimulus.py:116-188 | The stored transitions are, in order, the first resolvable non-self edge of each (screen, trigger) |
| `ScreenTransitions.ResolvedGraph` | app/workers/jobs/analyze_stimulus.py:153-188 | Any result is a partial function from (screen, trigger) to destination without self-loops, on the known screens, each trigger once |
| `ScreenTransitions.ResolvedEnds` | app/workers/jobs/analyze_stimulus.py:153-188 | Each edge leaves and enters the last screens with its collapsed keys, which were not collapsed away; its trigger is an element of a screen with that key, and of the screen it leaves if and only if that screen has one of the reported name |
| `ScreenLinks.ResolvesIff` | app/workers/jobs/analyze_stimulus.py:142-171 | A reported edge is stored exactly when both collapsed keys name screens, the last ones of which differ, and some screen of the first key has an element of the reported name |
| `ScreenTransitions.TriggerCanLieElsewhere` | app/workers/jobs/analyze_stimulus.py:142-152 | Two screens of one key for which the stored trigger is not on the screen the edge leaves |
| `ScreenTransitions.ReachableScreens` | app/workers/jobs/analyze_stimulus.py:194-220 | Exactly the screens reachable from the start key; none for an unknown key |
| `ScreenTransitions.InferBestTransitions` | app/workers/jobs/analyze_stimulus.py:223-252 | Without an entry the first inference; otherwise, of the attempts consumed up to the first that connects, the earliest of maximum reach |
| `ScreenTransitions.ConnectingAttemptReturnedIff` | app/workers/jobs/analyze_stimulus.py:241-252 | A connecting attempt is the one returned if and only if it reaches strictly more than all before it |
| `ScreenConnections.ConnectingAttemptCanLose` | app/workers/jobs/analyze_stimulus.py:247-251 | Screens and two answers for which, whatever the third would be, the second connects and ends the search and the first is kept, in which success is out of reach |
| `ScreenConnections.CanConnectIff` | app/workers/jobs/analyze_stimulus.py:153-188 | Some answer connects entry to success if and only if they are one screen, or both survive the collapsing and the entry has an element |
| `ScreenConnections.SuccessSurvivesIff` | app/workers/jobs/analyze_stimulus.py:90-113 | The success kept is the latest claimed and survives if and only if it was not itself linked to an earlier screen |
| `ScreenConnections.NoneConnects` | app/workers/jobs/analyze_stimulus.py:223-252 | When none can connect, all attempts are consumed and the one kept has the widest reach without success |
| `ScreenConnections.TwinSuccessIsLost` | app/workers/jobs/analyze_stimulus.py:90-113 | Two renderings of the success screen, the second reported as twin of the first: the second is the success kept and the one collapsed away, and no answer connects the flow |
| `ElementScan.ScanRun` | app/services/analytics_engine.py:208-244 | One pass over a run's observations brings every dictionary of the population and of the participant to its definition |
| `ElementRates.ElementInteractionMetrics` | app/services/analytics_engine.py:191-318 | The fused scan yields the six metrics as each is defined on its own by sets and sums over the runs |
| `ElementRates.RatesOrdered` | app/services/analytics_engine.py:247-281 | For each element repeated rate <= click rate <= 1, both listed together, and revisit rate <= 1 |
| `ElementRates.SharesSumToOne` | app/services/analytics_engine.py:282-292 | With positive total dwell the attention shares sum to exactly 1 |
| `ElementRates.FirstRatesSum` | app/services/analytics_engine.py:293-306 | The first-attention rates sum to the fraction of runs with any gaze |
| `ElementRates.AddHesitations` | app/services/analytics_engine.py:240-244 | Each participant who acted adds exactly its dwell on the element before its first action |
| `ElementTimes.OneMoreEvent` | app/services/analytics_engine.py:208-244 | A gaze of v ms at an element adds v to its dwell, to the total, and to its dwell before every later moment; a gaze without a duration, and every other event, adds nothing |
| `ElementTimes.SharesAreTimes` | app/services/analytics_engine.py:282-292 | An element has a share exactly when someone gazed at it and some time was recorded; its share times all recorded gaze time is the gaze time recorded at it |
| `ElementTimes.HesitationsAreTimes` | app/services/analytics_engine.py:240-244 | The hesitation at an element times the participants who acted on it is the gaze time they recorded at it before their first action |
| `ElementTimes.SlowerSameShares` | app/services/analytics_engine.py:282-292 | Multiplying every recorded duration by c > 0 leaves every attention share as it is |
| `ElementTimes.SlowerHesitates` | app/services/analytics_engine.py:240-318 | It multiplies every hesitation time by c |
| `ElementTimes.NineToOne` | app/services/analytics_engine.py:208-318 | 900 ms at one element, 100 ms at another, then a click on the first: shares 0.9 and 0.1, hesitation 900 at the first and none at the second |
| `FrictionMetrics.DeadEndRates` | app/services/analytics_engine.py:159-189 | For each entered screen, the share of its visitors who did not complete and entered it last |
| `FrictionMetrics.EndsOnLast` | app/services/analytics_engine.py:159-189 | In a log numbered upwards from 0 the screen a participant is charged to is the one entered last |
| `FrictionMetrics.ChargedToFinalScreen` | app/services/analytics_engine.py:166-178 | A simulated run that did not complete is charged as a dead end to its final screen and to no other; a completed one to none |
| `FrictionMetrics.ExcessIs` | app/services/analytics_engine.py:320-337 | The mean excess times the population is the actions, and the screens entered, of all participants less the baseline for each |
| `FrictionMetrics.ExcessOfCompletedRuns` | app/services/analytics_engine.py:320-337 | For completed simulated runs the mean excess actions are at least 0 and are 0 if and only if every run performed d + 1 actions; the mean excess screens are at least 1 and are 1 if and only if every run entered d + 1 screens |
| `SimulationTight.BaselineIsAttained` | app/services/analytics_engine.py:99-127 | For every d there is a graph whose nearest critical screen is d transitions away and a run that completes with exactly d + 1 actions and d + 1 entered screens |
| `Heatmap.GaussianIsSymmetric` | app/services/results_service.py:33-37 | The Gaussian kernel is an odd square of positive weights that reads the same turned around |
| `Heatmap.SpreadIsGather` | app/services/results_service.py:40-62 | For every positive symmetric kernel the value spread to a cell is the convolution at that cell, edges included |
| `Heatmap.Spread` | app/services/results_service.py:46-62 | The sparse in-place loop, empty cells skipped and outside targets dropped, leaves the convolution in every cell |
| `HeatmapMass.MassNeverGrows` | app/services/results_service.py:40-62 | On a non-negative grid the total never grows, and is kept if and only if every gazed cell is at least the radius from every edge |
| `HeatmapMass.InteriorMassKept` | app/services/results_service.py:40-62 | The total is kept for values of any sign when all nonzero cells are at least the radius from every edge |
| `HeatmapIntensity.Peak` | app/services/results_service.py:63 | The largest smoothed value, attained, or 0 for a grid without cells |
| `HeatmapIntensity.SmoothAndNormalize` | app/services/results_service.py:40-66 | Every cell is the convolution divided by the peak, or left alone when the peak is not positive |
| `HeatmapIntensity.IntensityMeans` | app/services/results_service.py:63-66 | For non-negative grids: all values in [0, 1], a cell is lit iff a gazed cell is within the radius, and the maximum is exactly 1 iff anything was gazed at |
| `HeatmapBins.BinContains` | app/services/results_service.py:268-269 | The chosen column is the one that contains the point, the outermost columns also taking what lies off the screen |
| `HeatmapBins.LandsWhereCovered` | app/services/results_service.py:264-271 | A gaze at (x, y) lands in row r and column c exactly when r * height <= y * n < (r + 1) * height and c * width <= x * n < (c + 1) * width, the outermost rows and columns also taking what lies off the screen; a screen without a size counts as 390 by 844 |
| `HeatmapBins.BinGazes` | app/services/results_service.py:265-271 | Each cell of a screen's grid holds exactly the time looked in the part of the screen it covers, a gaze without a duration counting 1; only gazed screens have a grid, in the order of their first gaze |
| `HeatmapBins.BinsConserve` | app/services/results_service.py:266-271 | The grid of a screen holds the total weight of the screen's gazes |
| `HeatmapReport.PixelHeatmap` | app/services/results_service.py:215-290 | The report holds, for every gazed screen and no other, exactly the lit cells of the grid, each once, with the rescaled convolution of the screen's binned gazes as intensity; with non-negative durations these are the cells at most two rows and two columns from one that covers a gaze, with intensities in (0, 1] and a hottest cell of exactly 1 |
| `HeatmapLone.LoneGazeShows` | app/services/results_service.py:33-290 | A lone gaze covered by row r and column c is reported as a bell around that cell: intensity exp(-(dy^2 + dx^2) / 2.88) / exp(0) at dy rows and dx columns away, and nothing beyond two cells, for every increasing exponential |

## Left out

- HTTP routers, authentication, storage, Figma import, notifications and event streams: input and output.
- The web and mobile clients, the migrations and the end-to-end scripts.
- The vision and insight models and the language-model participant: their answers are arbitrary inputs.
- The numeric attention and utility formulas, action confidence and the visit counts per element: a model's scores are arbitrary, so only the shape of the candidate lists matters.
- Coordinates of gaze and action events, drawn inside an element's box: no modelled property depends on them.
- Floating-point rounding: probabilities, progress, rates and heat are reals. Values of the exponential and the logarithm: the exponential is positive, and increasing where a statement says so.
- Human capture sessions: they finalize a run without the row lock, so the interleaving theorems do not cover them.
- Several runs side by side, the jobs of other kinds and the worker count: the rows of one run change independently, and any number of transactions may overlap.
- CancelProtocol.CancelOverwritesIff: one cancellation; its write and the rest of its transaction are one step that waits for the run row and for the participant rows open transactions have written. Where the database would instead break a deadlock by aborting one of the two is not modelled.
- FinalizeProtocol.Serializable: deadlock aborts, crashes and stale object caches are not modelled; a job left RUNNING by a crash is never claimed again, so the queue drains only without crashes.
- RunStore.Store.ProcessJob: permanent-failure bookkeeping that itself raises is not modelled; the code swallows that error and commits the job as FAILED.
- RunStore.Store.ClaimOneJob: the order of creation times is the order of the job sequence, and rows locked by another worker are already InFlight.
- RunStore.Store.HandleSimulateParticipant: the simulation inside the handler is the subject of the other modules and enters here as its ending.
- SimulationBaseline.CompletionCostsBaseline: element ids are distinct across the screens of a graph, as the primary keys they are.
- ScreenConnections.CanConnectIff: screen keys and ids are distinct within a study, as uploads make them (`ScreenKeys.UploadAll`); several imports of one Figma file, which repeat keys, are covered only by `ScreenTransitions.ResolvedEnds`.
- The Figma import and its transitions.
- Domain.Lookup: the code first filters the transitions of the current screen and then takes the first with the trigger; the model does both at once.
- ElementRates.ElementInteractionMetrics: the two dictionaries of first gazes are kept as one, the dictionary of elements as sets, and the order of the metric rows is not modelled.
- HeatmapReport.PixelHeatmap: the reported centre coordinates are given by row and column; the query for the gazes and the filter by audience segment are inputs.
- Completion, abandonment and backtrack rates, audience segments, path samples, validation and insight engines, persona sampling: they would add only easy members.
- The gating of the analysis handler, screen summaries and the persistence of roles and transitions.
