# Verified models of the agent lifecycle kit's tooling

This project models the algorithmic cores of the kit's measurement, test, release, live-host and
replay tools, and proves what they are for. Operating system, clocks, Git, processes and hosts are
arbitrary inputs: an output stream, an exit code, an elapsed time, a host's answer or a file's
content is a parameter about which nothing is assumed unless a member says so.

Check everything with `dafny verify dfyconfig.toml`.

| modules | what they are about |
|---|---|
| `Capture`, `CaptureLiveness`, `CaptureSession` | two reader threads, a 64-slot queue, a stop flag and a consumer with an output cap and a deadline: every interleaving is a run of atomic events; the shared variables are also written as a class that is updated in place |
| `Suites`, `Rosters`, `Coverage`, `Callbacks`, `Parallel` | splitting a test suite for two workers, rosters, the accounting of one run and the callbacks it observes, and the coordinator that recombines both |
| `CanonicalEvents`, `CanonicalInvariance`, `CanonicalJoin`, `LabelText`, `LabelTraces` | rewriting recorded test events so that they no longer depend on source lines or on the clock, on labelled fields and on their text |
| `OrderStatistics`, `Verdicts`, `Measurement` | medians, nearest-rank p95, the two verdicts on six samples, the viability prefix, and the measurement loop |
| `Budget`, `LiveRuns`, `LiveHarness` | budget policies and their tracker, the budgeted loops as a function, and the harness that runs them in place |
| `JsonWalk`, `JsonOrder`, `Transcripts`, `JsonScan` | sorted keys, recursive JSON walks against an enumeration of paths, usage sums over transcripts, and the resynchronising object scanner |
| `PortablePaths`, `FileMap`, `Replay` | relative paths and their overlap test, the file map of a replay, and the copy loop that materialises it |
| `AgentPackageTrees`, `AgentPackageRules`, `AgentPackageManifests`, `AgentPackages`, `AgentPackageBuild`, `Archives` | file trees, the package builder, and the two validators of packages and archives |
| `Wrappers`, `Strings` | options and results; strings by code points, and stable sorting |

Results that a reader of one function would not expect:

- A read that raises ends its stream like an end of file, so a run can pass with output missing;
  completeness is proved for reads that return data or the end (`Capture.RaisedReadCanPass`).
- Of the two coverage checks of a parallel run, the last one can never fail
  (`Parallel.CoveredByBoth`), and neither can the missing-operation check of the live host receipt
  (`LiveHarness.RunLiveHostReceipt`).
- Billable tokens need not add up over the parts of a transcript, because of their fallback
  (`Transcripts.BillableCanDiffer`); `Transcripts.BillableAddsExactly` says exactly when they do.
- A value that is only a dot passes the relative-path check, so a file map that holds it can be accepted
  (`Replay.DotIsAccepted`) although it can never be replayed (`Replay.DotNeverArrives`).
- An archive that is validated without its package can hold two entries for one place, spelled
  differently: the twin of any entry can be added to any accepted archive (`Archives.DotTwin`); with
  names in their usual spelling it cannot (`Archives.CanonicalNamesAreSound`).
- Labels are searched and replaced in the text of a whole id.  That agrees with the labels themselves if
  and only if no other piece of the id matches the pattern, which a base or another label's value can
  (`LabelText.IdAgrees`, `LabelTraces.TraceAgrees`).
- A fixture's skip explains a test only if it is reported while no test is open
  (`Callbacks.ExplainedExactly`), and the count of tests can never differ from the cases
  (`Callbacks.StartsAreCases`).
- The list of allowed resources names the directories above the required documents, so it alone would
  admit a regular file there; that no such file can exist follows from the other checks
  (`Archives.NoFileAboveDocument`).

Conventions: a digest is a function about which nothing is assumed; seconds, costs and ratios are real
numbers; a path is the list of its parts; a directory lists its entries, each name once; a JSON object
lists its fields in insertion order. Where the source raises, a function returns nothing or a refusal.

## Model

| member | source | states |
|---|---|---|
| Capture.StepKeepsInv | tools/performance/run_performance_baseline.py:322-367 | every atomic action of either reader or the consumer keeps the invariant of the protocol: queue bound, cap, prefix, conservation, end markers last |
| Capture.MoveKeepsSide | tools/performance/run_performance_baseline.py:409-436 | a reader's own step (flag test, read, put, retry on a full queue) keeps its stream's invariant, before and after the stop flag |
| Capture.TakeKeepsSide | tools/performance/run_performance_baseline.py:337-347 | taking the head of the queue moves its bytes to the captured buffer and nothing else |
| Capture.RunKeepsInv | tools/performance/run_performance_baseline.py:322-367 | the invariant holds after every interleaving |
| Capture.AlwaysBounded | tools/performance/run_performance_baseline.py:322-347 | in every reachable state the queue has at most 64 items, no buffer exceeds the cap by more than one 8192-byte chunk, and what is captured is a prefix of what the child wrote |
| Capture.AlwaysConserved | tools/performance/run_performance_baseline.py:409-436 | until the stop flag is set, captured, queued, held and unread bytes of a stream are exactly the child's output, in order |
| Capture.PassIsComplete | tools/performance/run_performance_baseline.py:348-378 | a passing result has both readers finished, the queue drained, exit code 0 and both buffers within the cap; a stream was captured completely if and only if nothing of it is left unread, which holds when its reads did not raise |
| Capture.VerdictExactly | tools/performance/run_performance_baseline.py:332-367 | whether or not reads raised, a finished run passes if and only if the clock never ran out, the child was reaped with code 0 and what was captured fits the cap |
| Capture.PassExactly | tools/performance/run_performance_baseline.py:332-367 | when no read raised, a finished run passes if and only if the clock never ran out, the child was reaped with code 0 and both outputs fit the cap |
| Capture.RaisedReadCanPass | tools/performance/run_performance_baseline.py:428-436 | a concrete run in which a read raises, bytes are missing and the result still passes |
| Capture.HistoryOfFlags | tools/performance/run_performance_baseline.py:332-336 | a timeout blocker stands at the end exactly if the clock was found late, a failed read exactly if one raised |
| Capture.HistoryOfWait | tools/performance/run_performance_baseline.py:348-358 | the exit code is decided once, by the wait that reaps the child |
| CaptureLiveness.StepLowersRank | tools/performance/run_performance_baseline.py:322-367 | no action of any thread raises the rank and every action of the helpful thread lowers it |
| CaptureLiveness.FairRunFinishes | tools/performance/run_performance_baseline.py:332-347 | on finite output, when every read returns, every fair infinite run reaches its verdict |
| CaptureLiveness.LateRunFinishes | tools/performance/run_performance_baseline.py:332-336 | the deadline works: if the consumer keeps acting and the clock is late from some point on, the run reaches its verdict whatever the readers do, even if a read never returns |
| CaptureLiveness.LeavesInTime | tools/performance/run_performance_baseline.py:409-436 | after the stop flag every own action of a reader brings it closer to its end, even with a full queue |
| CaptureLiveness.StoppedReadersLeave | tools/performance/run_performance_baseline.py:357-361 | after the stop flag a reader is gone once its thread has acted as often as its place in the loop requires, four times at most, even with a full queue; once both have, the join reports no reader |
| CaptureSession.Session.Perform | tools/performance/run_performance_baseline.py:322-367 | any action of any thread performs exactly the protocol's step |
| CaptureSession.Session.Play | tools/performance/run_performance_baseline.py:322-367 | any interleaving leaves the shared variables where the protocol model ends, so all its results hold of them |
| CaptureSession.Session.Loop | tools/performance/run_performance_baseline.py:332-347 | the consumer's loop as the source writes it, with the readers acting at any time: it ends, by both streams ended, the deadline or the cap |
| CaptureSession.Session.RunBounded | tools/performance/run_performance_baseline.py:321-367 | loop, reaping, stop flag, join and verdict over the shared variables: it always finishes, its history is a run of the protocol, it has no blockers if and only if the clock never ran out, the child ended with 0 and the buffers - the outputs, when no read raised - fit the cap, and then it lost nothing that was read |
| Suites.SplitShape | tools/ci/run_parallel_unittest.py:29-50 | a split has one hot child and all others in order, and the discovered tests are before, hot, after |
| Suites.OnlyOneHotChild | tools/ci/run_parallel_unittest.py:33-44 | in a split every hot test comes from the one hot child |
| Suites.SplitsExactly | tools/ci/run_parallel_unittest.py:29-50 | the suite splits at a child if and only if it is the only hot one, the rest is not empty, the shape is right and the seam holds |
| Suites.SplitKeepsFixtureRuns | tools/ci/run_parallel_unittest.py:33-50 | run-length encoded by module and by class, the suite is runs(before), runs(hot), runs(after) and the other worker's tests are runs(before), runs(after): no fixture is merged, lost or repeated |
| Suites.SeamCheckIsExact | tools/ci/run_parallel_unittest.py:46-48 | without the seam check two module runs would merge: joining loses no run exactly when the seam holds |
| Suites.RunsConcat | tools/ci/run_parallel_unittest.py:46-48 | run-length encoding distributes over concatenation when the keys at the seam differ |
| Suites.RunsMerge | tools/ci/run_parallel_unittest.py:46-48 | and loses exactly one run when they agree |
| Suites.OthersMembers | tools/ci/run_parallel_unittest.py:49-50 | the rest is every index but the hot one, ascending |
| Rosters.GroupsCoverOnce | tools/ci/run_parallel_unittest.py:209-210 | the two index lists hold every top-level child exactly once, so this check of the coordinator can never fail |
| Rosters.RosterRoundTrip | tools/ci/run_unittest.py:118-144 | a roster made by the coordinator is accepted by the worker on the same tree and source within the size bound, and selects the same subtrees in order |
| Rosters.SelectedEmbeds | tools/ci/run_unittest.py:81-88 | the inventory of selected children embeds into the full recursive inventory, in order |
| Rosters.AcceptedIsSubsequence | tools/ci/run_unittest.py:118-144 | what any accepted roster selects is an order-preserving subsequence of the discovered tests |
| Coverage.TimedResult.StartTest | tools/ci/run_unittest.py:28-32 | a start opens a new record and counts it |
| Coverage.TimedResult.StopTest | tools/ci/run_unittest.py:34-39 | a stop completes the record the last start opened, and no other |
| Callbacks.Deliver | tools/ci/run_unittest.py:18-79 | any legal sequence of start, report and stop callbacks leaves in the result object what the sequence says |
| Callbacks.StartsAreCases | tools/ci/run_unittest.py:28-32 | every start is one case, in order, so the runner's count of tests never differs from the number of cases |
| Callbacks.CompletedExactly | tools/ci/run_unittest.py:34-41 | all cases are completed if and only if every test was stopped before the next one started |
| Callbacks.ExplainedExactly | tools/ci/run_unittest.py:43-79 | a test is explained if and only if its class or module reported a skip while no test was open |
| Callbacks.CompleteExactly | tools/ci/run_unittest.py:91-115 | in terms of the callbacks: a report is complete if and only if only discovered tests were started, none more often than discovered, each was stopped before the next, and every test still due was skipped between tests by its class or module |
| Callbacks.UniqueCompleteExactly | tools/ci/run_unittest.py:91-115 | when each id is discovered once: every discovered test was started, once, and closed, or never started and skipped between tests |
| Callbacks.AccountRun | tools/ci/run_unittest.py:18-115 | callbacks and `coverage` together: complete exactly as above, and not-started is discovered minus started |
| Coverage.PickSpendsBudget | tools/ci/run_unittest.py:98-108 | the reported tests are exactly what the counter owes |
| Coverage.Account | tools/ci/run_unittest.py:91-115 | the two-pass counter computes multiset subtraction: not-started, unexpected and complete are what they should be, for all inputs |
| Coverage.ReportConserves | tools/ci/run_unittest.py:91-115 | not-started is discovered minus cases per id; nothing unexpected exactly when cases plus not-started are the discovered ids; complete conserves the numbers too |
| Parallel.Recount | tools/ci/run_parallel_unittest.py:159-168 | the coordinator's own recount is multiset equality |
| Parallel.ValidateWorker | tools/ci/run_parallel_unittest.py:147-172 | a worker passes if and only if its file is no link and small enough, its report is clean, from the same job, recounts and is timed |
| Parallel.CompleteReportRecounts | tools/ci/run_parallel_unittest.py:161-168 | a report marked complete for the same inventory always satisfies the recount |
| Parallel.SelectionsCover | tools/ci/run_parallel_unittest.py:213-225 | the two selections together hold exactly the discovered tests |
| Parallel.CoveredByBoth | tools/ci/run_parallel_unittest.py:267-268 | the combined-coverage check can never fail for the rosters of a split |
| Parallel.Combine | tools/ci/run_parallel_unittest.py:255-269 | the combination passes if and only if every report validates and the inventories add up; the totals are the sums |
| Parallel.PassConservesSuite | tools/ci/run_parallel_unittest.py:147-172 | in a parallel pass, cases and explained skips of both workers are exactly the discovered tests, and tests run plus skips are their number |
| CanonicalEvents.FindSelectors | tools/ci/measure_limited_usage.py:263-287 | the selector map exists exactly when every selector channel is recognised and unique |
| CanonicalEvents.CanonicalClock | tools/ci/measure_limited_usage.py:212-257 | the two clock observations become their roles exactly when the bound clock test ran as recorded |
| CanonicalEvents.Canonicalise | tools/ci/measure_limited_usage.py:260-308 | the one pass with per-parent positions computes the declarative rewrite and refuses exactly the unjoined traces |
| LabelText.Pieces | tools/ci/measure_limited_usage.py:299-305 | a match of `\barg=(\d+)\b` never reaches over a character that is neither a word character nor an equals sign, so searching and replacing work piece by piece |
| LabelText.IdAgrees | tools/ci/measure_limited_usage.py:299-305 | on the text of any id, replacing rewrites the labels of that name and nothing else if and only if no other piece of the id holds a match; then searching finds the number of the first such label |
| LabelText.TextIsJoined | tools/ci/measure_limited_usage.py:289-306 | what the loop does to an event's text is what the model does to its fields if its id hides no other match - the same events are accepted and the text written is that of the joined event - and for an accepted event only then |
| LabelTraces.RewriteTrace | tools/ci/measure_limited_usage.py:260-307 | the loop over recorded texts, whatever they hold, with its positions and its final count: it accepts and rewrites exactly as specified text by text |
| LabelTraces.TraceAgrees | tools/ci/measure_limited_usage.py:288-307 | for a whole trace: the loop on texts accepts exactly the traces whose fields join, and writes the texts of the joined events, if no selected id hides another match; for a trace that joins, if and only if none does |
| CanonicalInvariance.CanonicalIsInvariant | tools/ci/measure_limited_usage.py:260-308 | two sources equal up to lambda lines, with traces equal up to those labels and the clock, are both refused or canonicalise to the same list |
| CanonicalInvariance.ClockIsNoSelector | tools/ci/measure_limited_usage.py:47-58 | no recognised selector belongs to the clock test |
| CanonicalInvariance.ShiftKeepsResult | tools/ci/measure_limited_usage.py:212-257 | a shifted clock changes neither acceptance nor result |
| CanonicalJoin.CanonicalKeepsShape | tools/ci/measure_limited_usage.py:286-308 | length, parents, outcomes and case indices stay |
| CanonicalJoin.SubtestsAreLambdas | tools/ci/measure_limited_usage.py:286-308 | acceptance means that each parent's selected subtests match its lambda list one to one, in order, at the lambda's line |
| CanonicalJoin.CanonicalReflects | tools/ci/measure_limited_usage.py:286-308 | equal canonical traces select, subtest by subtest, a lambda of the same position and syntax |
| CanonicalJoin.CanonicalReflectsChoices | tools/ci/measure_limited_usage.py:286-308 | and so come from equal lambda lists |
| OrderStatistics.RankIsCount | tools/performance/run_performance_baseline.py:541-546 | the k-th order statistic is characterised by counts, for every list |
| OrderStatistics.RanksScale | tools/ci/measure_limited_usage.py:664-667 | pointwise domination up to a factor carries over to every order statistic |
| OrderStatistics.MedianScales | tools/ci/measure_limited_usage.py:664-667 | if every candidate is at most r times its baseline, so is the median, for any number of samples |
| OrderStatistics.MedianExceeds | tools/ci/measure_limited_usage.py:664-667 | and strictly above likewise |
| OrderStatistics.P95IsNearestRank | tools/performance/run_performance_baseline.py:541-546 | the index is in range, at least 95 percent of the samples are at or below the value, no smaller value has that property, and median, p95 and maximum are ordered |
| Verdicts.PairsBoundRatio | tools/ci/measure_limited_usage.py:659-680 | the pair ratios bound the ratio of the medians from both sides |
| Verdicts.UnanimousPairsDecide | tools/ci/measure_limited_usage.py:659-680 | three pairs at or below 0.80 must be reported as improvement, three above must not |
| Verdicts.RobustExactly | tools/ci/measure_limited_usage.py:754-767 | the robust verdict reports improvement if and only if the relative gain strictly exceeds the larger of five percent and MAD over median |
| Verdicts.ImprovementIsVisible | tools/ci/measure_limited_usage.py:754-767 | then two candidate samples each lie strictly below two baseline samples |
| Verdicts.PrefixDecidesNothing | tools/ci/measure_limited_usage.py:683-701 | whatever the first pair measured, runs that start with it reach either verdict |
| Measurement.InvokeUntilFailure | tools/performance/run_performance_baseline.py:211-222 | a sampling loop stops at the first failing invocation and has no blockers exactly when none fails |
| Measurement.MeasureOperation | tools/performance/run_performance_baseline.py:198-247 | warm-ups, then samples, up to the first failure; passes if and only if every planned invocation passes and the workload never changes; every summary in the report is ordered: median, p95, largest sample |
| Budget.Before | tools/live_hosts/common.py:90-98 | a call may start exactly when every configured counter is strictly below its cap |
| Budget.Reconcile | tools/live_hosts/common.py:131-138 | reconciliation finds nothing exactly when every configured counter is at or below its cap |
| Budget.BudgetTracker.Record | tools/live_hosts/common.py:125-138 | the call is booked in all four counters before the caps are checked |
| Budget.ExcessIsPartial | tools/live_hosts/common.py:90-138 | a call started below a cap exceeds it by less than it used |
| LiveRuns.EveryRunAccounts | tools/live_hosts/json_cli_harness.py:154-177 | over every run each started call began with exactly the usages recorded before it, strictly below every cap; totals are the sum of the recorded usages, a clean run ends within every cap, and passed <= recorded <= started <= passed + 1 |
| LiveRuns.OvershootIsPartial | tools/live_hosts/json_cli_harness.py:171-176 | a final excess is strictly less than what the last recorded call used |
| LiveRuns.LoopPasses | tools/live_hosts/json_cli_harness.py:154-177 | items pass in order, none twice, and all of them exactly when no blocker appeared |
| LiveRuns.BlockedLoopStops | tools/live_hosts/json_cli_harness.py:252-286 | no call follows a blocker |
| LiveRuns.AuthorisedCapNeverBlocks | tools/live_hosts/common.py:72-92 | in subscription and local modes a successful authorisation for the run's length means the invocation cap never blocks it |
| LiveRuns.CleanRunFitsCap | tools/live_hosts/common.py:90-92 | in every mode a clean run is no longer than the invocation cap |
| LiveHarness.ValidateInputs | tools/live_hosts/json_cli_harness.py:517-540 | the preflight finds nothing exactly when the run is authorised, the worktree clean and every path given |
| LiveHarness.TakeTurn | tools/live_hosts/json_cli_harness.py:154-177 | one iteration on the tracker and the lists is one turn of the loop function |
| LiveHarness.RunLiveHostReceipt | tools/live_hosts/json_cli_harness.py:117-204 | no call without a clean preflight; otherwise the outcome is the loop's, so the missing-operation check never adds a blocker, and a pass names exactly the operations, in order |
| LiveHarness.ProductAt | tools/live_hosts/json_cli_harness.py:252-254 | the slots are the lexicographic product |
| LiveHarness.ProductLength | tools/live_hosts/json_cli_harness.py:236-237 | and their number is the required invocations |
| LiveHarness.RunLiveCalibration | tools/live_hosts/json_cli_harness.py:207-313 | the three nested loops with their breaks are one loop over the product; a pass is the whole product, and the invocation cap never blocks an authorised run |
| LiveHarness.WithContext | tools/live_hosts/json_cli_harness.py:579-586 | a missing context size is filled in, everything else is kept, so the later check cannot fire |
| JsonWalk.FindEnumerates | tools/live_hosts/json_cli_harness.py:440-463 | the walk lists every matching path exactly once, in preorder |
| JsonWalk.EnumerationIsUnique | tools/live_hosts/json_cli_harness.py:440-463 | there is only one such enumeration |
| JsonWalk.FindStringIsFirst | tools/live_hosts/json_cli_harness.py:424-437 | `find_string` is the first non-empty string of the enumeration |
| JsonWalk.CountIsSum | tools/live_hosts/json_cli_harness.py:466-481 | `count_tool_calls` is the sum over the enumeration |
| JsonWalk.FindConcat | tools/live_hosts/json_cli_harness.py:440-463 | the walks distribute over list concatenation |
| JsonWalk.FindStringConcat | tools/live_hosts/json_cli_harness.py:424-437 | `find_string` on a concatenation is the first part's, or else the second's |
| JsonWalk.CountConcat | tools/live_hosts/json_cli_harness.py:466-481 | tool calls add up |
| Transcripts.ParseJsonlObjects | tools/live_hosts/json_cli_harness.py:392-404 | the loop over lines collects the objects of the lines |
| Transcripts.ObjectsSplit | tools/live_hosts/json_cli_harness.py:392-404 | a transcript cut after any line break gives the objects of its two parts, even inside a carriage return and line feed |
| Transcripts.Collect | tools/live_hosts/json_cli_harness.py:362-370 | the loop over events is the walk over the list of events |
| Transcripts.ParseJsonlUsage | tools/live_hosts/json_cli_harness.py:360-389 | the summary of the raw sums of a transcript, with the wall time in milliseconds |
| Transcripts.TranscriptAdds | tools/live_hosts/json_cli_harness.py:360-389 | input, output, total, context, cost, tool calls and events add up over any cut between lines; the session is the first found |
| Transcripts.BillableAddsExactly | tools/live_hosts/json_cli_harness.py:381 | for any cut of a transcript after a line break, the billable tokens of the parts exceed those of the whole by exactly what the fallback drops, so they add up if and only if it drops nothing |
| Transcripts.BillableCanDiffer | tools/live_hosts/json_cli_harness.py:381 | a transcript of two JSON lines, 5 input tokens and a total of 7, on which 5 and 7 billable tokens make 7 |
| JsonScan.ParseJsonObjects | tools/live_hosts/json_cli_harness.py:341-357 | ends on every text; the text has a scan - disjoint spans in increasing order, each at the leftmost decodable brace left, none after the last - and the events are the objects of its spans |
| JsonScan.ScanIsUnique | tools/live_hosts/json_cli_harness.py:341-357 | text and decoder determine the scan |
| JsonScan.PrintedObjectsAreRecovered | tools/live_hosts/json_cli_harness.py:341-357 | printed objects are recovered exactly, in order, from any text in which no other brace decodes where it stands |
| JsonScan.BraceFreeNoiseIsHarmless | tools/live_hosts/json_cli_harness.py:341-357 | in particular from any interleaving with text without opening braces |
| PortablePaths.StartsWithIsPrefix | tools/qualification/workflow_storage.py:120 | a key starts with another and a separator exactly when its parts properly extend the other's |
| PortablePaths.OverlapIsPrefix | tools/qualification/workflow_storage.py:120 | two keys overlap exactly when one list of parts is a prefix of the other |
| FileMap.ValidateFiles | tools/qualification/workflow_storage.py:107-136 | the loop accepts exactly the maps whose entries hold one by one and pairwise, in order and in time |
| FileMap.AcceptedIsPrefixFree | tools/qualification/workflow_storage.py:116-126 | in an accepted map no folded path equals or lies above another |
| Replay.Replica.Write | tools/qualification/workflow_storage.py:335-341 | one copy succeeds exactly when nothing stands in its way, and changes only its place and new directories above it |
| Replay.Replica.Materialise | tools/qualification/workflow_storage.py:335-341 | afterwards every mapped place holds its file although each is checked only once; nothing else changed; success exactly when every item alone could be delivered into the initial tree |
| Replay.Replica.Rehearse | tools/qualification/workflow_storage.py:315-341 | validation, Git preparation as an arbitrary outcome, then materialisation; the replica is untouched unless the map is accepted |
| Replay.ClearIsStable | tools/qualification/workflow_storage.py:335-341 | copies at places that are not above or below one another do not get in each other's way |
| Replay.AcceptedPlacesArePrefixFree | tools/qualification/workflow_storage.py:116-126 | on a file system that identifies no more names than the folds do, accepted paths are different places, none above another |
| Replay.GitIsUntouched | tools/qualification/workflow_storage.py:43-60 | no file map changes anything at or below a part the file system takes for `.git` |
| Replay.DotNeverArrives | tools/qualification/workflow_storage.py:335-341 | a map with a lone dot among its original paths can be delivered into no replica |
| Replay.DotIsAccepted | tools/qualification/workflow_storage.py:43-60 | yet a map with a lone dot is accepted, by any folds that keep the dot and the letters `a` and `b` |
| Replay.EmptyReplicaExactly | tools/qualification/workflow_storage.py:335-341 | into an empty replica a map is replayed if and only if no original is a dot, every copy is in time and the backup still holds what was recorded |
| AgentPackageTrees.RegularFilesExactly | tools/release/agent_plugin_package.py:494-497 | every regular file is listed exactly once, with its bytes, sorted by path |
| AgentPackageTrees.CopyExactly | tools/release/agent_plugin_package.py:478-491 | a copy succeeds exactly for trees without links and special files, and is the same tree |
| AgentPackageTrees.PutExactly | tools/release/agent_plugin_package.py:132-135 | writing a file makes its directories and changes nothing else |
| AgentPackageRules.WalkExactly | tools/release/agent_plugin_package.py:457-475 | a recursive check reports nothing exactly when its rule is silent at every path |
| AgentPackageRules.ValidateTreeExactly | tools/release/agent_plugin_package.py:457-475 | `_validate_tree` reports nothing exactly for trees of directories and unsuspicious regular files |
| AgentPackageRules.RequiredDocuments | tools/release/agent_plugin_package.py:268-278 | no issue exactly when every document is a regular file of bounded size below real directories |
| AgentPackageRules.DocsArePrefixFree | tools/release/agent_plugin_package.py:27-47 | no required document lies above another |
| AgentPackageManifests.BuiltManifestIsAccepted | tools/release/agent_plugin_package.py:87-100 | the built manifest is acceptable exactly for well-formed versions |
| AgentPackageManifests.AcceptanceIgnoresOrder | tools/release/agent_plugin_package.py:281-319 | whether a JSON value is accepted as a manifest does not depend on the order of its keys |
| AgentPackageManifests.WrittenManifestIsAccepted | tools/release/agent_plugin_package.py:515-516 | the built manifest as it is read back, with the sorted keys it was written with, is accepted exactly for well-formed versions |
| JsonOrder.GetSorted | tools/release/agent_plugin_package.py:515-516 | writing with sorted keys keeps what is stored under every key |
| JsonOrder.SortFieldsOrders | tools/release/agent_plugin_package.py:515-516 | and puts the keys in order |
| AgentPackages.ValidateSkillSource | tools/release/agent_plugin_package.py:155-181 | no issue exactly when the source holds the expected skills, each clean and with a bounded skill file |
| AgentPackages.ValidatePackage | tools/release/agent_plugin_package.py:184-265 | its issues are only about the total size exactly when the package is sound, and none exactly when its size is in bound too |
| AgentPackageBuild.CopySkills | tools/release/agent_plugin_package.py:129-130 | the loop copies every expected skill unchanged |
| AgentPackageBuild.CopyDocuments | tools/release/agent_plugin_package.py:132-135 | the loop adds exactly the required documents |
| AgentPackageBuild.BuiltIsSound | tools/release/agent_plugin_package.py:103-139 | whatever was built from a valid source satisfies everything the validator asks except possibly the total size, given a reader that returns what was written with sorted keys |
| AgentPackageBuild.BuildPackage | tools/release/agent_plugin_package.py:103-139 | builds exactly from valid versions and sources; the package is manifest, skills and documents byte for byte and nothing else; its only possible issue is the total size |
| Archives.SafeNamesExactly | tools/release/agent_plugin_package.py:528-538 | of the names a file tree can have, exactly those with a backslash are refused |
| Archives.DotTwin | tools/release/agent_plugin_package.py:528-538 | validated without a package, an archive can name a place twice: to any accepted archive the twin of any of its entries, spelled with a dot in front, can be added within the size bounds, and it is accepted still |
| Archives.CanonicalExactly | tools/release/agent_plugin_package.py:528-538 | a safe name is the usual spelling of its place if and only if it has no empty part and no part that is a dot |
| Archives.CanonicalNamesAreSound | tools/release/agent_plugin_package.py:337-434 | with names spelled so, no place is named twice and only required documents lie below the document directory |
| Archives.NoFileAboveDocument | tools/release/agent_plugin_package.py:205-212 | no regular file can lie at an allowed place above a document |
| Archives.BuildArchive | tools/release/agent_plugin_package.py:322-334 | the archive holds the regular files, or nothing is built when a name is unsafe |
| Archives.ValidateArchive | tools/release/agent_plugin_package.py:337-434 | no issue if and only if the archive is readable and satisfies its declarative specification |
| Archives.PassingPackageGivesPassingArchive | tools/release/agent_plugin_package.py:322-434 | a passing package with safe names gives an archive that passes against it, with the package's own content map |
| Archives.PassingArchiveIsThePackage | tools/release/agent_plugin_package.py:410-426 | any archive that passes against a package holds exactly its regular files, one entry each |
| Archives.ArchivePackage | tools/release/agent_plugin_package.py:141-145 | from a passing package only an unsafe name or the archive's size can stop the archive |
| Archives.BuildRelease | tools/release/agent_plugin_package.py:103-152 | from a valid source only the total size, a name with a backslash and the archive's size can stop a release |

## Left out

- Processes, signals, Git, file descriptors, clocks, environment variables and the network: their
  results are parameters. A chunk read is any non-empty prefix of at most 8192 bytes of what is left.
- The lifecycle payload check of `_run_bounded` and its RSS fields; process start failure; a reader whose `stream.close()` raises before it puts its end marker.
- A reader blocked inside `stream.read` forever is not made to leave: CaptureLiveness.FairRunFinishes asks that reads return; CaptureLiveness.LateRunFinishes does not.
- CaptureSession.Session.RunBounded: the threads are given orders of actions instead of being real threads; every order is allowed.
- Floating point: seconds, costs and ratios are real numbers; the p95 index is the exact integer ceiling; finiteness checks have nothing to check.
- Measurement.MeasureOperation: an invocation's status is PASS exactly when it has no blockers, as both producers of samples guarantee; the report's identity and count fields are not modelled.
- CanonicalEvents.Canonicalise: event ids are a base and a list of labelled fields, tied to their texts by LabelTraces.TraceAgrees; a source is its classes, methods, loops and calls instead of a whole syntax tree; source digests are free terms.
- LabelText.TextIsJoined: a base contains no space followed by an opening parenthesis, as the names of test methods do not; word characters and digits are ASCII.
- LabelTraces.RewriteTrace: the text of the two clock observations is not parsed.
- Rosters.RosterRoundTrip: the JSON text of a roster is not modelled, only its fields and its size.
- Parallel.ValidateWorker: a report whose JSON lacks a field or has another type raises in the source; such shapes are not modelled. Starting, draining and timing out the worker processes is not modelled.
- `performanceAcceptanceClaimed` and the command-line driver of the limited-usage measurement, its isolation and its journal.
- LiveHarness.TakeTurn: blockers carry their kind instead of their messages; check records, diagnostics, receipts and model-selection files are not written; a command builder or parser that raises is not modelled.
- JsonWalk.FindEnumerates: `find_dicts` and `find_numbers` are one walk with two tests; JSON objects may repeat a key, which Python's cannot.
- Transcripts.ParseJsonlUsage: the JSON reader is a parameter.
- JsonScan.PrintedObjectsAreRecovered: the decoder is a parameter that takes back what was printed (section 4 of RFC 8259 describes objects); a JSON parser of its own is not part of this model.
- Unicode: names are folded part by part by functions about which only what is stated is assumed (parts stay parts; the file system identifies no more names than the folds); `casefold` and NFC are not defined.
- FileMap.ValidateFiles: the checks of the roots, the state, event log and relocation entries and the shapes of JSON values are not modelled; a file of the backup is its identity, or nothing.
- Replay.Replica.Rehearse: the Git preparation is an arbitrary tree or a failure, after which the replica is not described; everything after the copies (state migration, journal, observations) is left out. Reparse points are not told apart from links.
- Callbacks.Deliver: a stop without a start raises in the source; sequences are legal.
- AgentPackageTrees.Copy and AgentPackageTrees.Put work on tree values; the state of a half-written output directory after a failure is not modelled.
- AgentPackageBuild.BuildPackage: an output directory or archive that exists already is not modelled; the JSON reader is assumed to return the one manifest the writer writes, with its keys sorted.
- AgentPackageManifests.Accepted: one condition instead of the list of issues it would report.
- Archives.BuildRelease: a file name that the zip writer cannot encode would raise, and so stop a release too; names are always encodable here.
- Archives.ValidateArchive: a zip reader is a list of entries with declared sizes, each readable or not; an archive just written is read back as written; the compressed size is a parameter.
- The other live hosts, launch and inspection profiles, runners, usage normalisers, argument parsers, prompts and report dictionaries are not modelled.
- `host_protocol`, `agent_lifecycle.contracts`, `BoundedProcess` and the storage migration are not part of this model.
