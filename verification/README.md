# compliancekit: a verified model of its hard logic

This Dafny project models the parts of compliancekit whose correctness is decided
by code rather than by cloud APIs, and proves what they promise for all inputs,
all runs and all map orders. Verify it with `dafny verify dfyconfig.toml`.

| file | models |
|---|---|
| `ScanJob.dfy`, `Schedule.dfy` | the two reconcilers of the Kubernetes operator as protocols of any number of workers whose API calls fail, are lost or read stale versions |
| `ScanJobCreation.dfy`, `ScheduleDelivery.dfy` | when Pods are created and when ticks are answered, over the runs of those protocols |
| `ScanJobReconciler.dfy`, `ScheduleReconciler.dfy` | the two `Reconcile` methods, tied to the protocols |
| `Treemap.dfy`, `Sankey.dfy` | the SVG layouts, over the reals |
| `Score.dfy`, `Baseline.dfy`, `Diff.dfy`, `DriftViews.dfy` | score, baseline and drift, with the two further implementations of the diff in the terminal UI and the HTML report |
| `Rules.dfy`, `RuleEngine.dfy`, `Simulator.dfy`, `Conditions.dfy`, `Clock.dfy` | condition trees, the rule engine, its simulator, the shipped conditions and the silence windows |
| `Correlate.dfy`, `Remediate.dfy` | the image join and the remediation registry |
| `Tui.dfy`, `TuiKeys.dfy`, `TuiView.dfy`, `TuiModel.dfy`, `Commands.dfy`, `ResourceTree.dfy` | the state machine of the terminal UI, what sequences of keys do, its View, its command line and the resource tree |
| `Printers.dfy` | three small encoders and their decoders |
| `Findings.dfy`, `Seqs.dfy`, `Text.dfy` | the finding record, keyed sequences and strings |

The code that updates state is a class or a method with the source's loops, proved
equal to a function; the promises are lemmas about those functions. Nondeterminism
of the source (map iteration, failing calls, other workers) is either quantified
over or resolved by an arbitrary choice that no contract names.

## Where the code and its documentation differ

The model follows the code.

- A score of 100 is documented as everything having passed. It means that at most
  half a percent of the weight did not (`Score.PerfectScoreMeans`).
- The ScanJob controller promises "One-shot semantics" and that it never re-creates
  a Pod on failure. A Pod that stays is indeed never created again, failed or not;
  one that was deleted is, even when its job had completed (`ScanJobCreation.CanCreateIff`,
  `ScanJobCreation.CompletedJobRunsAgain`).
- The treemap calls itself squarified. Its heuristic only compares values, so a row
  is a run of equal values (`Treemaps.NextSquarifiedRow`).
- The links of a sankey diagram are scaled to a column without inner gaps and so
  are taller than their nodes whenever a column has two (`Sankeys.RibbonsFillNodeIff`).
- The image join speaks of comparing prefixes of SHAs and of an image list that
  contains the name. The code compares whole strings and normalises only the side
  of the graph (`Correlate.JoinsBySHAIff`).
- The simulator's RuleIDs are said to restrict the simulation. They restrict the
  summaries; every enabled rule of the trigger is evaluated and recorded
  (`Simulator.ReplayRunsCount`).
- The simulator is to answer what a rule would have done in the past. It evaluates
  every finding at the end of the window and without its frameworks, tags, scan and
  resource, so its count is right only for conditions on the stored columns
  (`BuiltinConditions.BuiltinForecastIff`).
- A ComplianceSchedule is documented to take an expression of five fields
  (`internal/operator/types.go:63-65`). The parser called also takes descriptors
  such as `@every 1h`; the theorems about schedules say which of the two they are
  about where it matters (`ScheduleDelivery.IntervalNextRun`).
- A condition node with a term is said to be a leaf without operator or children.
  When one has them the term wins, and children below an empty operator are
  ignored.
- RenderAll says it reports findings without a strategy as unmatched. It also
  reports those whose strategies rendered nothing (`Remediate.EveryFindingIsRouted`),
  and a strategy with `*` among several ids is a wildcard too.
- Chained criteria are documented as a conjunction; of two tokens of one kind only
  the last counts (`Commands.ChainMeans`).
- `fw=` is documented as matching a part of the framework id. It compares the whole
  id (`internal/tui/commands.go:88`).
- ResourceGraph.All is documented as ordered by type; it ranges over a map. The
  join is proved for every order.

## Inputs on which the code fails

- The terminal UI panics when it shows a finding on fewer than 108 columns and at
  least 5 rows, on fewer than 3 rows, and on Enter in the tree of no findings
  (`TuiView.NeverPanicsIff`).
- A schedule whose expression never fires is due on every reconcile
  (`ScheduleDelivery.NeverFiringAlwaysTriggers`).
- A schedule of `@every` with more than five minutes never starts
  (`ScheduleDelivery.IntervalStartsIff`).
- A tick is posted for again while a version that waits for it can be read or
  written, or edited into one (`ScheduleDelivery.CanBePostedIff`), and several due ticks
  are answered together (`ScheduleDelivery.OneAnswerPerWindow`).
- intToStr prints the least int as "-" (`Printers.PrintedParsesIff`), and `0G:00` is
  read as 23 o'clock (`Clock.LettersParse`).

## Model

| member | source | states |
|---|---|---|
| `ScanJobs.CreationsAreBounded` | internal/operator/scanjob_reconciler.go:32-79 | over every run of any number of workers, with failing, lost and stale calls: Pods created = Pods deleted + Pods alive, at most one more creation than deletions, all under the name `<job>-scan` |
| `ScanJobCreation.CreationBoundIsTight` | internal/operator/scanjob_reconciler.go:48-62 | for every n some run with n deletions has n + 1 creations |
| `ScanJobs.CompletionIsWrittenOnce` | internal/operator/scanjob_reconciler.go:66-78 | over every run and continuation: a stored CompletionTime never changes, is never before the first time a Pod of the job terminated nor in the future, and a stored terminal Phase has one |
| `ScanJobs.StartBeforeCompletion` | internal/operator/scanjob_reconciler.go:54-73 | until a Pod is deleted no stored status completes before it starts |
| `ScanJobCreation.ReconcileConverges` | internal/operator/scanjob_reconciler.go:32-79 | from every reachable state one reconcile without faults stores exactly: of a live Pod its phase, and the present as CompletionTime if that is terminal and there was none; of a missing one the newly created Pod, Pending, started at present; everything else as before |
| `ScanJobCreation.CanCreateIff` | internal/operator/scanjob_reconciler.go:8-9 | from every reachable state some continuation without deletions creates a Pod if and only if as many were deleted as created and, unless reads are cached, the job exists or a Reconcile that read it has not decided yet |
| `ScanJobCreation.StandingPodIsNeverRecreated` | internal/operator/scanjob_reconciler.go:8-9 | never re-created on failure: from every reachable state a Pod that is not deleted, failed or not, is never created again, under any faults and stale reads |
| `ScanJobCreation.OnlyMissingIsCreated` | internal/operator/scanjob_reconciler.go:48-65 | while no Get answers that the Pod is missing, however else it fails, no Pod is created |
| `ScanJobCreation.CompletedJobRunsAgain` | internal/operator/scanjob_reconciler.go:46-62 | from every reachable state in which the job completed and its Pod is gone, one reconcile without faults creates it again and stores a pending status that starts no earlier than it completed |
| `ScanJobCreation.JobsCompleteAndLoseTheirPod` | internal/operator/scanjob_reconciler.go:46-78 | such states are reachable |
| `ScanJobCreation.LostStartIsNeverStored` | internal/operator/scanjob_reconciler.go:54-60 | once the status write after Create is lost, StartTime stays unset in every continuation without a deletion |
| `ScanJobCreation.StartCanBeLost` | internal/operator/scanjob_reconciler.go:48-60 | a run of one reconcile in which that write is lost |
| `ScanJobs.RunKeepsInv` | internal/operator/scanjob_reconciler.go:32-79 | the protocol invariant (sound statuses, balanced Pods, append-only history, workers that read real versions) holds over every run |
| `ScanJobs.StepKeepsInv` | internal/operator/scanjob_reconciler.go:32-79 | and is kept by each API call, Pod move, deletion, restart and tick |
| `ScanJobReconciler.Reconciler.Reconcile` | internal/operator/scanjob_reconciler.go:32-79 | the method, on an object it updates call by call while others act, performs exactly that worker's calls of the protocol; it returns no error if and only if the job is gone or its status was stored |
| `ScanJobReconciler.Reconciler.CreateAndRecord` | internal/operator/scanjob_reconciler.go:48-62 | the not-found branch: Create, then the status with PodName, Pending and StartTime; a failing Create writes nothing |
| `ScanJobReconciler.Reconciler.Record` | internal/operator/scanjob_reconciler.go:66-78 | the status write and its failure |
| `Schedules.DueMeans` | internal/operator/schedule_reconciler.go:57-71 | an expression with ticks is due if and only if a tick lies in (LastRun, now], or in (now − 5 min, now] when it never ran, or the library finds no tick after the start of that window |
| `Schedules.TriggersAnswerTicks` | internal/operator/schedule_reconciler.go:57-86 | over every run each recorded trigger was posted and answers what Next finds after the start of that window, a time in it and a tick if the expression has ticks, unless the library finds none |
| `Schedules.RecordedTicksAreDistinct` | internal/operator/schedule_reconciler.go:57-86 | recorded triggers that answer a time answer distinct ones, in order, whatever is edited in between |
| `Schedules.LastRunNeverMovesBack` | internal/operator/schedule_reconciler.go:76-78 | over every run and continuation LastRun is never unset and never decreases |
| `Schedules.NextRunIsWhenDue` | internal/operator/schedule_reconciler.go:56-86 | without edits, once a schedule with ticks has run, the stored NextRunTime is exactly the moment from which it is due, and missing if it always is |
| `Schedules.NextRunWasPlanned` | internal/operator/schedule_reconciler.go:55-85 | over every run, also with edits: a stored NextRunTime is Next of the time some Reconcile read, for the valid, enabled schedule it held; LastRunTime is that time if it was due, and the one held otherwise |
| `Schedules.NextRunBeforeFirst` | internal/operator/schedule_reconciler.go:55-85 | without edits, the NextRunTime of a schedule that never ran is Next of a time at which a Reconcile found it not due: later than that time, and for an expression with ticks the least tick after it |
| `ScheduleDelivery.DueTickIsAnswered` | internal/operator/schedule_reconciler.go:57-86 | at least once: from every reachable state with a last run and a due tick, through every continuation without edits, either the same tick is still due or the first trigger recorded since answers exactly it and was posted |
| `ScheduleDelivery.OneReconcileAnswers` | internal/operator/schedule_reconciler.go:38-87 | from every reachable state in which an enabled schedule is due, one reconcile without faults posts once and records the tick that was due |
| `ScheduleDelivery.OneReconcileStores` | internal/operator/schedule_reconciler.go:38-87 | what one undisturbed reconcile leaves in every case: disabled, invalid, not due (Next of the present as NextRunTime), triggered (the present as LastRunTime), and a request that failed or whose answer was lost |
| `ScheduleDelivery.EveryPostWasDue` | internal/operator/schedule_reconciler.go:38-75 | over every run each request, recorded or not, was sent for an enabled, valid schedule at a time when a stored version of it was due |
| `ScheduleDelivery.OneAnswerPerWindow` | internal/operator/schedule_reconciler.go:57-80 | over every run, of the times in the window of a recorded trigger one is answered by a record if and only if it is the first |
| `ScheduleDelivery.CanBePostedIff` | internal/operator/schedule_reconciler.go:38-87 | not at most once: in every reachable state a passed tick of any expression can be posted for, first or again, if and only if a readable version still waits for it or a Reconcile in flight is about to post for it or to store such a version; with cached or current reads, and over continuations without edits or with them, when a last run that waits is enough whatever the expression stored with it |
| `ScheduleDelivery.SettledTickIsDone` | internal/operator/schedule_reconciler.go:76-85 | once a run at or after the tick is stored and no Reconcile is in flight, current reads never post for it again, whatever is edited |
| `ScheduleDelivery.LostWritesRepeatDelivery` | internal/operator/schedule_reconciler.go:72-85 | for every n some run posts one tick n + 1 times and records it once, because status writes were lost |
| `ScheduleDelivery.FirstTickIsForgotten` | internal/operator/schedule_reconciler.go:62-67 | an expression with ticks that never ran is due for its latest tick during the five minutes after it, and later only if the library finds no tick any more |
| `ScheduleDelivery.FirstTickIsAnswered` | internal/operator/schedule_reconciler.go:57-86 | from every reachable state in which tick x is due for a schedule that never ran, through every continuation without edits: it still has not run, and waits for x exactly until x + 5 min, or the first trigger recorded since was posted and, if decided since, answers x exactly if that was before x + 5 min |
| `ScheduleDelivery.FirstTickWaits` | internal/operator/schedule_reconciler.go:62-67 | a schedule that never ran can still answer a tick exactly until its five minutes are over |
| `ScheduleDelivery.IntervalNextRun` | internal/operator/schedule_reconciler.go:56-86 | of `@every` d: without edits, once run, due exactly from LastRun + d; the stored NextRunTime is not before that and less than LastRun + 2d |
| `ScheduleDelivery.IntervalStartsIff` | internal/operator/schedule_reconciler.go:57-71 | of `@every` d: without edits some run from a new schedule triggers a scan if and only if d is at most five minutes |
| `ScheduleDelivery.NeverFiringAlwaysTriggers` | internal/operator/schedule_reconciler.go:55-75 | an expression without any tick, the 30th of February, triggers a scan on every reconcile |
| `Schedules.RunKeepsInv` | internal/operator/schedule_reconciler.go:38-87 | the protocol invariant over every run |
| `Schedules.StepKeepsInv` | internal/operator/schedule_reconciler.go:38-87 | and for each step |
| `ScheduleReconciler.Reconciler.Reconcile` | internal/operator/schedule_reconciler.go:38-87 | the method performs exactly that worker's calls of the protocol until it is idle; it returns no error if and only if the schedule is gone or disabled, or its expression was valid, the request, if any, succeeded and the status was stored |
| `ScheduleReconciler.Reconciler.PostAndRecord` | internal/operator/schedule_reconciler.go:71-86 | the branch for a due schedule: the request, then the status of its success or failure |
| `ScheduleReconciler.Reconciler.Record` | internal/operator/schedule_reconciler.go:81-86 | the status write, also that of a failure |
| `Treemaps.Treemap` | internal/report/chart.go:132-195 | for non-negative values with positive total, each positive slice is drawn once, in order, with its share of the area; cells are inside the canvas, disjoint and cover it; and row by row the equal leading values take a strip along the shorter side of what is left, in proportion |
| `Treemaps.TreemapFillsCanvas` | internal/report/chart.go:132-195 | the areas of the cells of such a drawing add up to the canvas |
| `Treemaps.LayRow` | internal/report/chart.go:161-191 | one round cuts a strip off the shorter side in proportion to the row, fills it with the row's cells and leaves the rectangle beside it |
| `Treemaps.Round` | internal/report/chart.go:159-192 | each round keeps the loop invariant: what is left of the canvas is in proportion to what is left of the values |
| `Treemaps.LayAcross` | internal/report/chart.go:171-179 | a row laid across shares its slab exactly |
| `Treemaps.LayDown` | internal/report/chart.go:181-189 | a row laid down shares its slab exactly |
| `Treemaps.NextSquarifiedRow` | internal/report/chart.go:219-237 | on descending values the row is the longest run of equal leading values: the heuristic never mixes sizes |
| `Treemaps.WorstAspect` | internal/report/chart.go:239-270 | the greatest value over the least, +Inf for an empty or zero row |
| `Treemaps.PlaceRow` | internal/report/chart.go:161-191 | placing a tiled slab keeps the tiling of the canvas |
| `Sankeys.FlowIsConserved` | internal/report/chart.go:304-313 | the totals of the nodes of either column add up to the links |
| `Sankeys.ColumnFillsHeight` | internal/report/chart.go:396-409 | the nodes of a column, PAD apart, end exactly PAD above the bottom edge, whatever the values |
| `Sankeys.NextTop` | internal/report/chart.go:396-404 | each node starts exactly PAD below the end of the one above |
| `Sankeys.NodesFitIff` | internal/report/chart.go:406-409 | no node has a negative height if and only if height ≥ PAD · (n + 1) |
| `Sankeys.RibbonsFillNodeIff` | internal/report/chart.go:326-351 | in the drawing, the ribbons of a node stacked are as high as its box if and only if nothing flows through it or it is alone in its column |
| `Sankeys.RibbonsReachNextIff` | internal/report/chart.go:326-351 | in the drawing, they reach below the next box, for the last box the bottom edge, if and only if (n − 1) · through > total |
| `Sankeys.RibbonsDoNotCross` | internal/report/chart.go:335-350 | in the drawing, of two ribbons of a node the later starts below the end of the earlier |
| `Sankeys.RibbonsFillCanvas` | internal/report/chart.go:411-414 | the link thicknesses add up to height − 2 · PAD |
| `Sankeys.Sankey` | internal/report/chart.go:294-378 | defaults and the empty picture; otherwise, of the fields of the drawing: nodes in order of first use, 4 apart from edge to edge, 12 wide at the outer edges, in proportion to what flows through; each link's ribbon in proportion, from the inner edge of its source's node to its target's, below the earlier ribbons of either |
| `Sankeys.DrawsSankey` | internal/report/chart.go:294-378 | the closed form of the layout is such a drawing, for all links and sizes |
| `Sankeys.NamesInOrder` | internal/report/chart.go:380-394 | the nodes of a side stand in the order of the first links that end in them |
| `Sankeys.DrawLinks` | internal/report/chart.go:326-351 | the running offset maps give the closed form, whose meaning DrawsSankey proves |
| `Sankeys.NodePositions` | internal/report/chart.go:396-404 | the running y is the closed form of the stack |
| `Sankeys.SumMap` | internal/report/chart.go:416-425 | in any map order the sum of the totals is the sum of the links, 1 instead of 0 |
| `Sankeys.UniqueOrdered` | internal/report/chart.go:380-394 | the node names in order of first appearance |
| `Score.Compute` | internal/score/score.go:91-134 | the loop computes the weighted sums and both percentages |
| `Score.DocumentedFormula` | internal/score/score.go:8-26 | the weighted sums are 50, 20, 8, 3 and 1 times the numbers of findings of each severity and status; errors count in the total, skips do not |
| `Score.IntegerRounding` | internal/score/score.go:120-131 | the integer formula is floor(100 · part / whole + 1/2), for odd and even wholes |
| `Score.ScoreInRange` | internal/score/score.go:91-134 | score and coverage are between 0 and 100 |
| `Score.ScoreIgnoresOrder` | internal/score/score.go:91-134 | the result does not depend on the order of the findings |
| `Score.FixingNeverLowersScore` | internal/score/score.go:91-134 | turning an actionable finding into a pass never lowers the score and keeps the coverage |
| `Score.ScoreOfUnionIsBetween` | internal/score/score.go:91-134 | the score of two scans together lies between their scores |
| `Score.PerfectScoreMeans` | internal/score/score.go:55-90 | the score is 100 if and only if what did not pass is at most half a percent of the weight |
| `Score.ZeroScoreMeans` | internal/score/score.go:55-90 | it is 0 if and only if less than half a percent passed |
| `Score.PerfectScoreWithFailure` | internal/score/score.go:91-134 | a scan with a failure whose score is 100 |
| `Baselines.Capture` | internal/baseline/baseline.go:74-105 | one entry for each fingerprint, of its first finding, strictly sorted; the score of all findings |
| `Baselines.CaptureHoldsEachFingerprint` | internal/baseline/baseline.go:74-105 | the entries have exactly the fingerprints of the findings |
| `Baselines.CaptureDescribesFirsts` | internal/baseline/baseline.go:74-105 | an entry is in the baseline if and only if it records, field by field, a finding whose fingerprint no earlier one has |
| `Baselines.CaptureIgnoresOrder` | internal/baseline/baseline.go:74-105 | a duplicate-free list and its permutations give the same entries and scores |
| `Baselines.FingerprintSet` | internal/baseline/baseline.go:167-173 | the entries by fingerprint, the last of a repeated one |
| `Baselines.SortEntries` | internal/baseline/baseline.go:94-103 | the sorted permutation |
| `Diffs.Compute` | internal/diff/diff.go:46-96 | for every baseline, scan and map order: new, existing and resolved, each strictly sorted and with exactly its elements, and the two scores |
| `Diffs.DiffIsDeterministic` | internal/diff/diff.go:46-96 | any two results of the same input are equal, scores included |
| `Diffs.DiffPartitions` | internal/diff/diff.go:46-96 | the three lists are current∖base, current∩base and base∖current; new + existing and existing + resolved count the two sides |
| `Diffs.DiffAgainstOwnCapture` | internal/diff/diff.go:46-96 | a scan against its own capture has nothing new or resolved and one existing per fingerprint; equal scores when no fingerprint repeats; ScoresAgreeIff has the exact condition |
| `Diffs.RepeatedFindingMovesScore` | internal/diff/diff.go:84-94 | with a repeated fingerprint the two scores of one scan can be 33 and 50 |
| `Diffs.ScoresAgreeIff` | internal/diff/diff.go:84-94 | Capture scores all findings and the diff the distinct ones: the scores agree whatever the severities if and only if no evaluated fingerprint repeats or everything evaluated passed |
| `Diffs.OwnCaptureScores` | internal/baseline/baseline.go:74-105 | those are the two scores of a diff of a scan against its own capture |
| `Diffs.GateSeesFirstOfEach` | internal/diff/diff.go:122-145 | the actionable gate looks at the first finding of each fingerprint |
| `Diffs.DiffResult.HasNewAtOrAbove` | internal/diff/diff.go:122-129 | true exactly when a new finding failed or errored at the level or above |
| `Diffs.DiffResult.HasActionableAtOrAbove` | internal/diff/diff.go:135-145 | true exactly when a new or existing one is |
| `Diffs.SortFindings` | internal/diff/diff.go:149-157 | the in-place insertion sort yields the strictly sorted permutation |
| `DriftViews.ComputeDiff` | internal/tui/diff.go:58-85 | the map that is filled and deleted from leaves exactly the marks of MarkMeans and the findings nobody matched |
| `DriftViews.MarkMeans` | internal/tui/diff.go:58-85 | a fingerprint is marked new if and only if the baseline lacks it or the scan repeats it; else the mark compares status and severity |
| `DriftViews.ActionableMeans` | internal/report/html.go:788-815 | a sparkline point counts the entries that failed or errored |
| `DriftViews.GutterCounts` | internal/tui/diff.go:58-85 | how many fingerprints are marked new and kept, repeats included |
| `DriftViews.HtmlView.ApplyBaselineHistory` | internal/report/html.go:760-821 | the view's drift fields and trends against the newest baseline; nothing changes without one |
| `DriftViews.DriftCountsAgree` | internal/report/html.go:760-787 | the report always counts what diff.Compute does; computeDiff counts the same new and kept findings if and only if no baseline fingerprint occurs twice in the scan |
| `Rules.ShortCircuitIsBoolean` | internal/rules/engine.go:94-126 | on trees without errors short-circuit evaluation is the boolean meaning of the whole tree |
| `Rules.DualComplements` | internal/rules/engine.go:94-144 | the De Morgan dual evaluates to the complement on every tree, errors unchanged |
| `Rules.ErrorMeansFalse` | internal/rules/engine.go:94-144 | an error always comes with false |
| `Rules.CleanVerdictIsMeaning` | internal/rules/engine.go:94-144 | a verdict reached without an error is the boolean meaning of the tree under every repair of the missing or failing evaluators |
| `Rules.CleanVerdictIsFinal` | internal/rules/engine.go:131-144 | registering missing kinds or repairing evaluators changes no verdict reached without an error |
| `Rules.SameMatchesIff` | internal/rules/engine.go:94-144 | two events match the same conditions if and only if no evaluator can tell them apart |
| `RuleEngine.Engine.EvaluateCondition` | internal/rules/engine.go:94-126 | the recursive method with its two early-exit loops computes the verdict |
| `RuleEngine.Engine.EvaluateTerm` | internal/rules/engine.go:131-144 | unknown kinds and evaluator errors fail the term; Negate applies only to clean values |
| `RuleEngine.Engine.DispatchActions` | internal/rules/engine.go:149-173 | one result for each action in order; unknown kinds are skipped, a simulator dispatches nothing |
| `RuleEngine.Engine.HandleEvent` | internal/rules/engine.go:46-86 | all listed rules are evaluated and recorded, exactly the matched ones returned and dispatched; on a nil event or failed listing nothing is |
| `RuleEngine.RunsMean` | internal/rules/engine.go:60-84 | one record for each rule in order: what it was about, whether the condition held, and if so one result per action: skipped, announced by a simulator, or the dispatcher's |
| `RuleEngine.MatchedMeans` | internal/rules/engine.go:60-86 | the rules returned are those listed whose condition holds, in order |
| `RuleEngine.ListedMeans` | internal/rules/rules.go:328-345 | the rules listed are the enabled ones of the trigger, in order |
| `RuleEngine.DispatchesMean` | internal/rules/engine.go:149-173 | of a matched rule the real engine dispatches exactly the known actions, in order |
| `RuleEngine.DispatchesConcat` | internal/rules/engine.go:60-84 | and the rules one after the other |
| `RuleEngine.Engine.HandleRule` | internal/rules/engine.go:60-84 | one rule: evaluate, act if matched, record |
| `RuleEngine.Engine.WithSimulator` | internal/rules/engine.go:33-37 | a sibling over the same tables and registry |
| `RuleEngine.Repo.ListByTrigger` | internal/rules/rules.go:328-345 | the enabled rules of the trigger in table order, or a failure |
| `Simulator.Simulate` | internal/rules/simulator.go:57-83 | never dispatches; one summary for each wanted rule with the findings considered and matched; the runs of every listed rule are recorded, or none when no rule is wanted |
| `Simulator.Normalised` | internal/rules/simulator.go:86-102 | defaults: the last 30 days up to now, finding.created, 10,000 findings; what is given is kept |
| `Simulator.ReplayedMeans` | internal/rules/simulator.go:128-142 | the findings replayed are the first of those in the window, in order, up to the limit |
| `Simulator.ReportMeans` | internal/rules/simulator.go:143-167 | each wanted rule has a summary with its name, the number of findings replayed and of those on which its condition held |
| `Simulator.ReplayConcat` | internal/rules/simulator.go:143-167 | records are written finding by finding |
| `Simulator.ReplayFindings` | internal/rules/simulator.go:128-167 | the counters after the findings replayed; on a failed read the records of a prefix of them |
| `Simulator.LoadSimulatedRules` | internal/rules/simulator.go:104-123 | the listed rules with a wanted id; all when no id is given |
| `Simulator.ReplayRunsCount` | internal/rules/simulator.go:143-167 | a replay records findings × listed rules, all marked simulated, also when RuleIDs names a subset |
| `Simulator.SimulatorDispatchesNothing` | internal/rules/engine.go:149-173 | a simulator's event dispatches nothing, whatever matches |
| `Simulator.TallyStep` | internal/rules/simulator.go:149-164 | considering a finding and counting its matches advances every summary by one finding |
| `Simulator.RecordedActionsForecastDispatches` | internal/rules/engine.go:149-173 | the recorded would-fire results of a rule are as many as the real engine's dispatches for it |
| `Simulator.ForecastIsRightIff` | internal/rules/simulator.go:128-167 | WouldFire equals what the real engine matches on the events at their own time and with their own facts, for every rule and every history, also of a restricted class of findings, if and only if no evaluator tells a replayed event of the window from the real one |
| `BuiltinConditions.BuiltinForecastIff` | internal/rules/conditions/conditions.go:35-252 | of the shipped conditions exactly those are forecast right, on all findings and also on those only that are first and last seen when created, that read only columns of the findings table; framework, resource_tag and drift_delta never, finding_age, time_of_day and day_of_week only in windows of one instant, minute or day |
| `BuiltinConditions.TimeTells` | internal/rules/conditions/conditions.go:213-220 | the finding and the time_of_day parameters on which replay and real event differ, for every window that crosses a minute of the clock |
| `BuiltinConditions.AgeTells` | internal/rules/conditions/conditions.go:177-189 | the same for finding_age and every window longer than an instant, on a finding as the daemon stores it, first seen when it was created |
| `BuiltinConditions.WeekdayTells` | internal/rules/conditions/conditions.go:224-236 | the same for day_of_week and every window that crosses a day |
| `BuiltinConditions.FrameworkNeverFires` | internal/rules/conditions/conditions.go:79-92 | a framework term never fires in a simulation, on any history |
| `BuiltinConditions.SeverityMeans` | internal/rules/conditions/conditions.go:57-76 | min, max and eq compare severities by level; the first given decides |
| `BuiltinConditions.AgeMeans` | internal/rules/conditions/conditions.go:177-189 | min_days holds from firstSeen + days on, max_days until then |
| `BuiltinConditions.DriftMeans` | internal/rules/conditions/conditions.go:195-209 | min_drop is counted down from the baseline, max_gain up |
| `BuiltinConditions.WeekdayMeans` | internal/rules/conditions/conditions.go:224-236 | a full weekday name holds on every seventh day, Thursday on 1 January 1970 |
| `BuiltinConditions.TextsMean` | internal/rules/conditions/conditions.go:79-154 | single values, one of several, all of several, for provider, status, framework and tags |
| `BuiltinConditions.BeginningMeans` | internal/rules/conditions/conditions.go:113-132 | resource_type and check_id: equality, one of several, and a beginning |
| `BuiltinConditions.ParametersAreNeeded` | internal/rules/conditions/conditions.go:63-252 | without parameters every kind is an error and false, except an age never seen and a drift without a baseline |
| `Clock.WindowIsArc` | internal/rules/engine.go:198-216 | a silence window is cyclic-interval membership modulo 1440, false when a time does not parse |
| `Clock.ReversedWindowIsComplement` | internal/rules/engine.go:198-216 | (a, b) and (b, a) partition the day if and only if a ≠ b; an empty window is never open |
| `Clock.WindowSplits` | internal/rules/engine.go:198-216 | a window splits at any time inside it |
| `Clock.WindowLength` | internal/rules/engine.go:198-216 | it is open for (end − start) mod 1440 minutes of the day |
| `BuiltinConditions.WindowAt` | internal/rules/conditions/conditions.go:213-220 | a time_of_day term over all day but one minute holds exactly outside that minute, on every event |
| `Clock.FormattedParses` | internal/rules/engine.go:218-228 | every time of day written HH:MM is read back |
| `Clock.ParsedWasFormattedIff` | internal/rules/engine.go:218-228 | a parsed text is the HH:MM of its value if and only if its second and last bytes are digits |
| `Clock.ParsesIff` | internal/rules/engine.go:218-228 | exactly which five bytes are read as a time |
| `Clock.ParsedIsTimeOfDay` | internal/rules/engine.go:218-228 | what is parsed is a time of day |
| `Clock.LettersParse` | internal/rules/engine.go:218-228 | `0G:00` is accepted as 23 o'clock |
| `Correlate.CorrelateImageSHA` | internal/ingest/correlate.go:34-103 | the findings, then for each of them the clones: exactly the other resources that carry the digest or the image's name, each once, those with the digest first, in graph order; a clone has the resource's id, type, name, provider and region, two more tags and a new fingerprint, and what was found unchanged; `added` is the growth |
| `Correlate.CorrelationsExpand` | internal/ingest/correlate.go:65-101 | the nested-loop join is such an expansion, for all findings and graphs |
| `Correlate.JoinsMeans` | internal/ingest/correlate.go:40-136 | a resource matches by SHA if and only if its image_sha without a prefix, or its image_id after the last digest marker, is the finding's in lower case; by name if image or image_name is the vulnerability's |
| `Correlate.OneCloneEach` | internal/ingest/correlate.go:65-101 | one clone for each other resource that matches by SHA or name, however often it is indexed, and for no other |
| `Correlate.LookupsAreJoin` | internal/ingest/correlate.go:69-100 | the two lookups with their seen set yield the SHA matches in graph order, then the name-only matches |
| `Correlate.BucketIsScan` | internal/ingest/correlate.go:40-63 | an index bucket without repetition is a scan of the graph |
| `Correlate.BuildIndexes` | internal/ingest/correlate.go:40-63 | the two maps file each resource under its keys, in order |
| `Correlate.JoinsBySHAIff` | internal/ingest/correlate.go:105-113 | some resource can match by SHA at all if and only if the finding's SHA is non-empty and has no upper-case letter; for one that still carries `sha256:` only a resource with the prefix twice does, and NormalizingChangesNothingIff is the practical condition |
| `Correlate.NormalizingChangesNothingIff` | internal/ingest/correlate.go:105-136 | its SHA matches what its normalised SHA would, on every graph, if and only if it is already normalised |
| `Remediate.Registry.Register` | internal/remediate/registry.go:46-76 | each rejection and exactly when it happens; a rejected strategy changes nothing, an accepted one is appended to the history |
| `Remediate.VerdictMeans` | internal/remediate/registry.go:46-76 | which fault is reported when there are several |
| `Remediate.Registry.StrategiesFor` | internal/remediate/registry.go:82-96 | the strategies filed under the id in registration order, the wildcards only if there are none |
| `Remediate.Registry.Render` | internal/remediate/registry.go:108-138 | the first answer among the strategies that list the check, errors included; no strategy and no format are told apart |
| `Remediate.RenderMeans` | internal/remediate/registry.go:82-138 | for every history and request: the first strategy registered for the check, or else for `*`, that has the format and does not decline decides, with its error or its snippet, whose empty check, format and resource are filled in from the request; otherwise exactly one of the two errors |
| `Remediate.Registry.RenderAll` | internal/remediate/registry.go:148-168 | the snippets finding by finding in the order of the formats; unmatched are the findings without one |
| `Remediate.SnippetsConcat` | internal/remediate/registry.go:148-168 | the snippets of a list are those of its parts, in order |
| `Remediate.SnippetsByFormat` | internal/remediate/registry.go:148-168 | and of a finding, format by format |
| `Remediate.UnmatchedMeans` | internal/remediate/registry.go:148-168 | the unmatched are, in order, the findings without a snippet |
| `Remediate.RepetitionIsHarmless` | internal/remediate/registry.go:69-75 | a strategy that lists an id twice, and is filed twice, answers as if filed once |
| `Remediate.EveryFindingIsRouted` | internal/remediate/registry.go:148-168 | a finding is unmatched if and only if it has no snippet; a matched one has at most one for each format |
| `Remediate.SnippetIsStableIff` | internal/remediate/registry.go:78-138 | a rendered snippet survives every later registration if and only if a strategy claims its check by id |
| `ResourceTree.BuildGraphRows` | internal/tui/graph.go:56-132 | the nested bucket maps flatten to the sorted preorder of the tree with exact counts and worst severities |
| `ResourceTree.RowsAreNested` | internal/tui/graph.go:117-132 | the rows are the tree in preorder: each below the nearest shallower row before it, of the same provider, siblings strictly in alphabetical order |
| `ResourceTree.RowDescribesFindings` | internal/tui/graph.go:67-115 | a row counts exactly the findings below it; its severity bounds theirs and is attained |
| `ResourceTree.LabelsMean` | internal/tui/graph.go:67-115 | the labels of a finding on the three levels and what stands for missing ones |
| `ResourceTree.TypeNamesProvider` | internal/tui/model.go:146-153 | the provider of a type is what comes before its first dot |
| `ResourceTree.Upsert` | internal/tui/graph.go:67-115 | adding a finding updates the three levels of counters |
| `ResourceTree.CountsRollUp` | internal/tui/graph.go:67-115 | every node counts what its children count together |
| `ResourceTree.WorstRollsUp` | internal/tui/graph.go:67-115 | its worst severity is the greatest of its children's |
| `ResourceTree.LevelsConserve` | internal/tui/graph.go:117-132 | below any node the rows of each deeper level count its findings |
| `ResourceTree.TreeConserves` | internal/tui/graph.go:56-132 | each of the three levels of the tree counts every finding once |
| `ResourceTree.BuildProviderBuckets` | internal/tui/model.go:126-144 | the provider pane: each provider with its count, sorted, in any map order |
| `ResourceTree.PaneAgreesWithTree` | internal/tui/graph.go:117-132 | the top rows of the tree and the provider pane, built separately, are the same |
| `ResourceTree.BucketsNeverShrink` | internal/tui/model.go:126-144 | a new finding never shortens the pane |
| `ResourceTree.Window` | internal/tui/model.go:638-652 | with room for a row the window holds the cursor, in the middle or as near to it as the ends allow, and exactly min(room, rows) rows; without, none |
| `ResourceTree.GraphWindow` | internal/tui/graph.go:164-195 | for any cursor and height the clamped cursor is, likewise centred, in a window of min(max(height − 5, 5), rows) rows |
| `Commands.ParseCommandLine` | internal/tui/commands.go:106-141 | the token loop computes the criteria |
| `Commands.ChainMeans` | internal/tui/commands.go:37-141 | a command line is the conjunction of the last token of each kind; unknown tokens do not count |
| `Commands.LineDemands` | internal/tui/commands.go:37-141 | a line shows exactly the findings that meet the demand, in terms of the finding and the token's text, of its last word of each kind; `reset` and an empty line show all |
| `Commands.FieldsAreWords` | internal/tui/commands.go:112-112 | the words of a line: none in nothing, one in a word, separated by spaces of any kind |
| `Commands.SeverityIsReadBack` | internal/tui/commands.go:143-156 | each severity's name and the two short forms are read, in any case, and anything else as info |
| `Commands.StatusesAreNamed` | internal/tui/commands.go:58-60 | `status=` asks for a status by its name in the findings |
| `Commands.SearchFindsFields` | internal/tui/commands.go:92-99 | a search finds a text in the check, the resource's name and id and the message, in any case |
| `Commands.LastTokenDecides` | internal/tui/commands.go:106-141 | the last token of a kind alone decides its criterion |
| `Tui.RunKeepsInv` | internal/tui/model.go:100-172 | after any sequence of keys, live findings and resizes: the view is exactly the in-order matches of all findings, the pane their buckets, and the cursors are on a row or 0 |
| `Tui.StepKeepsInv` | internal/tui/model.go:176-227 | the same for one event |
| `Tui.UpdatePanicsIff` | internal/tui/model.go:233-267 | in a reachable state Update indexes out of range if and only if the event is Enter in the graph with the cursor at −1 |
| `Tui.EmptyGraphPanics` | internal/tui/model.go:249-253 | started on no findings, Update panics on `R`, `G`, Enter |
| `TuiView.ViewFailsIff` | internal/tui/model.go:549-607 | View panics if and only if the three panes are shown with fewer than 3 rows, or with a finding, at least 5 rows and fewer than 108 columns |
| `TuiView.EventPanicsIff` | internal/tui/model.go:176-200 | in a reachable state an event makes the program panic, in Update or in the View after it, if and only if it is Enter on the empty graph or leaves such a screen |
| `TuiView.NeverPanicsIff` | internal/tui/model.go:549-577 | for every set of terminal sizes: no sequence of keys, findings and resizes to those sizes ever panics if and only if the program was started on at least one finding and every size has 3 rows and, from 5 rows on, 108 columns |
| `TuiView.EightyColumnsPanic` | internal/tui/model.go:665-667 | one finding on a terminal of 80 by 24 panics |
| `Tui.SelectionShowsBucket` | internal/tui/model.go:155-172 | Enter on a provider shows as many findings as the pane counts, if and only if the row is not an `(unknown)` that counts findings without a provider |
| `Tui.StepsUndo` | internal/tui/model.go:292-297 | in a reachable state `n` and `N` undo each other, wrap-around included, and so do the focus keys |
| `Tui.LiveFindingIsAppended` | internal/tui/model.go:183-189 | a live finding is appended to the view if it matches and changes no other row |
| `TuiKeys.SearchShows` | internal/tui/model.go:343-424 | from every normal state, `/`, any ASCII text and Enter: the list is exactly the findings, in order, that satisfy the other criteria and contain the text in any case; the cursor is on the first, all else is unchanged |
| `TuiKeys.CommandShows` | internal/tui/model.go:343-424 | `:`, a text that is no side command and Enter: the list is exactly the findings, in order, that match the parsed line and the selected provider |
| `TuiKeys.SideCommandKeeps` | internal/tui/model.go:396-419 | `tail`, `untail`, `undiff`, `waive: …` and `diff …` leave filter and list alone |
| `TuiKeys.EscapeKeeps` | internal/tui/model.go:360-366 | `/` or `:`, any text and Esc change nothing |
| `TuiKeys.BackspaceUndoes` | internal/tui/model.go:371-386 | Backspace takes back a typed character |
| `TuiKeys.DownMoves` | internal/tui/model.go:499-511 | n times `j` or the arrow: n rows down in the pane in focus, at most to the last |
| `TuiKeys.UpMoves` | internal/tui/model.go:512-524 | n times `k` or the arrow: n rows up, at most to the first |
| `TuiKeys.EndsAreReached` | internal/tui/model.go:525-547 | `g` and `G` go to the ends |
| `TuiKeys.SearchGoesRound` | internal/tui/model.go:480-485 | n times `n` or `N` go n rows round the list, from any pane |
| `TuiKeys.TabGoesRound` | internal/tui/model.go:285-300 | Tab goes from the providers to the list to the detail and back |
| `TuiKeys.EnterGoesOn` | internal/tui/model.go:487-497 | Enter on a provider shows its findings that match the filter and goes to the list, there to the detail |
| `TuiKeys.BackspaceShowsAll` | internal/tui/model.go:304-340 | Backspace drops the selected provider and shows what matches the filter alone |
| `TuiKeys.GraphRowShows` | internal/tui/model.go:233-270 | Enter in the tree shows exactly the findings of the row's provider that contain its resource and satisfy the other criteria, and closes the tree |
| `TuiKeys.GraphRowShowsItsOwn` | internal/tui/graph.go:56-132 | among them every finding the row counts that satisfies the other criteria, unless a label stands for a missing provider or name |
| `TuiKeys.GraphMoves` | internal/tui/model.go:233-248 | the keys that move in the tree, clamped at its ends |
| `TuiKeys.GraphOpensAndCloses` | internal/tui/model.go:343-355 | `R` opens the tree at its first row; `R` and Esc close it and leave the rest alone |
| `TuiKeys.WaiverIsOpened` | internal/tui/actions.go:32-42 | `w` opens a waiver line if a finding is selected; `r` changes nothing |
| `TuiKeys.HelpIsInert` | internal/tui/model.go:202-231 | while the help is shown any keys but `?` and Esc do nothing |
| `TuiKeys.AllIsShown` | internal/tui/model.go:100-124 | at the start every finding is shown, and `:reset` clears the criteria |
| `ListModels.Run` | internal/tui/model.go:176-200 | the object, updated by any events and shown after each, fails exactly where the session does, else ends in its state with the invariant; started on findings and resized only to fitting sizes it never fails |
| `ListModels.ListModel.Update` | internal/tui/model.go:176-547 | one event changes the fields of the object as specified, through all its handlers; the rows of TuiKeys say what the keys do |
| `ListModels.ListModel.View` | internal/tui/model.go:549-763 | with its slicing and repeating, View panics exactly as ViewFailsIff says |
| `Printers.IntToStr` | internal/report/html.go:844-864 | the digits written backwards into 20 bytes, never underrun; the least int prints as `-` |
| `Printers.PrintedParsesIff` | internal/report/html.go:844-864 | decimal parsing undoes printing if and only if the int is not −2^63 |
| `Printers.PrintedIsCanonical` | internal/report/html.go:844-864 | no leading zero is printed |
| `Printers.ChromedpDataURL` | internal/report/pdf.go:198-215 | the byte loop computes the encoding |
| `Printers.DataURLDecodes` | internal/report/pdf.go:198-222 | percent-decoding (section 2.1 of RFC 3986) undoes it, and its output has no `#` |
| `Printers.ReencodesIff` | internal/report/pdf.go:198-222 | a text is an encoding if and only if it has no `#` and its escapes are `%23` and `%25` |
| `Printers.EscapedUnescapes` | internal/report/chart.go:543-552 | decoding the predefined entities (section 4.6 of XML 1.0) undoes escapeXML, whose output has no raw `<`, `>`, `"` or `'` |
| `Printers.EscapingRestoresIff` | internal/report/chart.go:543-552 | escaping restores a decoded text if and only if it had none of those raw |

## Left out

- Fingerprints: SHA-256 is not modelled; a finding carries its fingerprint, about which nothing is assumed, and the image join takes the hash as a parameter.
- Integer width is modelled only in intToStr and in the byte arithmetic of parseHHMM; counters and weights are unbounded.
- float64 is the real numbers in the two layouts; rounding is not modelled.
- sort.Slice on the treemap's slices is any descending permutation, given as the parameter `order`.
- Cron expressions: `Schedules` takes validity and Next as functions. All that is assumed of every valid expression is that what Next returns is later than its argument (`Forward`); that it is the least tick after it is a premise about one expression (`IsTicking`), which the interval descriptors do not meet (`IsInterval`), and nothing is assumed of the arguments for which Next returns none.
- Storage guarantees are premises: rule ids are distinct (the primary key of the rules table) and a graph lists each resource id once (the key of its map).
- Kubernetes: the Pod spec, requeue delays, deletion and re-creation of the ScanJob under the same name, and the cause text in LastStatus.
- rules/cron.go: its tick evaluates every cron rule and not only the one that is due, so no per-rule firing law holds of it.
- Rule engine: evaluators and dispatchers are functions of the event; a dispatcher's effects on later evaluations, the JSON storage of rules, run durations, failures of RecordRun and edits of the rule table during one event or replay are not modelled. Times of day are those of UTC, ages are whole seconds.
- Simulator: the SQL query is a filter on rows stored in the order of created_at, and stored times are those of the finding; a nil repo is excluded.
- ToLower is modelled on ASCII letters and string order on code points; Unicode case is not modelled.
- Terminal UI: the text and colours View produces (its widths, heights, slices and repetitions are modelled), the overlays drawn by lipgloss, flash messages, the `:diff` overlay, the live-tail channel and waiver posting; the commands that touch only those leave the modelled state to the tail of commitEditor.
- Remediation: of a snippet only check, format, resource, risk and content; RegisteredCheckIDs and RegisteredStrategies are easy listings.
- Report: heatmap, radar, buildSidebarGroups, baselineLabel, colours and the text of the SVG; the check's catalog of frameworks is a parameter.
- Loading and saving of baselines, OSCAL, SARIF and OCSF export, policy evaluation, collectors, the HTTP server and its database.
