# OwnEvo kernel: a verified model of its protocols and algorithms

OwnEvo improves agent skills in iterations: an agent solves evaluation cases, failures are
clustered, an edited instruction is proposed, a person looks at the diff, and a head version
moves forward or is reverted. This Dafny project models the parts of the repository where
that can go wrong in ways a single function body does not show, and proves what they keep.

| file | what it models |
|---|---|
| `SkillDiff.dfy` | the side-by-side diff: the table, the walk, the two columns |
| `IterationRunner.dfy`, `IterationScores.dfy`, `IterationHazards.dfy` | interleaved improvement iterations over the shared tables, a failure possible at every statement |
| `IterationTraces.dfy` | the traces an iteration writes, the samples its clusters point at, and how the failure list reads them |
| `InstructionFile.dfy` | the instruction file that is written for a proposal and read back by the next iteration |
| `Tau3Ingest.dfy`, `Scores.dfy` | backfilled iterations, with scores stored as `numeric(10,6)` |
| `RevertSkill.dfy` | the compare-and-swap revert of a head, interleaved with every other writer |
| `Migrations.dfy`, `FreshMigrate.dfy`, `SqlSplitter.dfy` | the restartable migration runner, its bootstrap variant and the SQL splitter |
| `TracePairing.dfy` | pairing tool-call events to find the last skill written |
| `DemoQuota.dfy` | the daily token quota with calls in flight, clock reads and database reads apart |
| `DataLoader.dfy`, `OutlierHandler.dfy`, `FeatureEngineer.dfy`, `FeatureEngineerV1.dfy`, `Statistics.dfy`, `ForecastPipeline.dfy`, `SeriesData.dfy`, `Frames.dfy` | the M5 forecast pipeline from the sales table to the forecast cell |
| `ViewResolver.dfy` | aggregating per-case payloads into alert list, table and Kanban board |
| `ObjectCounts.dfy` | counting by key in a JavaScript object literal, its prototype included |
| `FailureRanking.dfy` | the failure list an agent reads |
| `StableSort.dfy`, `Text.dfy`, `Json.dfy`, `Sets.dfy` | stable sorting, Python's string operations, decoded JSON, finite sets |

`dafny verify dfyconfig.toml` checks everything.

## How it is modelled

Loops that update variables or lists are methods with loops; objects and tables that are
updated in place are classes; the concurrent parts (iterations, reverts, the quota, cut-off
migration runs) are state machines whose theorems are about every feasible run. A loop or a
method is proved against a specification, and what the source promises is proved about that
specification.

Database statements are atomic steps that see what is committed when they execute; a unique
key rejects a second row. Parsers that belong to a library (`UUID`, `int`, `float`,
`json.loads`), square roots, percentiles, weekdays, the booster and its training, which may fail,
are function parameters, and the theorems hold for every choice of them; what says that a series
moves asks that the square root be positive exactly on positive numbers. Scores, features and forecasts are
real numbers.

## Where the code differs from what it says

Each of these is stated as a lemma or a contract, with the exact condition where there is one.

* In the runner `gate-pass` means that an instruction edit was proposed, not that the score improved
  (`apps/kernel/src/ownevo_kernel/iteration_runner.py:754-758`). Of the parts modelled here only the
  tau3 backfill ties it to improvement, with a strict comparison although its docstring says
  "greater or equal".
* The "one transaction, else sandbox-error" rule of the runner has a gap: a COMMIT that takes
  effect while its await raises leaves a `sandbox-error` row that keeps all its phase-3 rows.
  `AllOrNothing` shows that this is the only way.
* The best-ever score is always the top score, but it can fall from one commit to the next
  when two persistence phases overlap.
* The tau3 comparison is between a fresh score and a stored, rounded one, so it is right for
  every later score exactly when the stored score was not rounded.
* An instruction is read back as it was proposed exactly when the workflow id has no `---`.
* The quota's documented overshoot of "a single call" holds exactly for visitors with at most
  one call in flight and no call admitted on a stale clock. Gate and recording read the clock
  before the database, so a midnight in between lets a request be judged by yesterday's
  counter and be charged to today's. The bound that always holds is
  `limit - 1 + (K + late) * C`, where `late` counts those admissions; for a limit, `K` and
  `C` of at least one it is attained for every `late`. For the same reason a visitor over the
  limit is turned away exactly unless the request read the clock on another day, whose counter
  is below the limit; and while a day's exhausted budget lasts it turns away every request but
  those already past the budget check and those that read the clock on another day.
* The outlier handler's promise that every series left has a positive scale fails exactly when
  there are series but no training days.
* The v1 column `lag_28` holds the value `|val|` days earlier, whatever `|val|` is.
* For every `k` of at least one, the failure list is the workflow's worst `k` for every content
  exactly when the workflow has at most `4k` traces. It hides rows stamped `fold: "test"`, but
  the iteration runner stamps `is_test_fold` instead, so its held-out traces are never hidden.
* Finding the last skill written gives nothing when the latest successful call is malformed,
  even if an earlier one was well-formed; the docstring mentions only absent or failed calls.
* Kanban column counts are the numbers of cards exactly when no column key is the name of a
  property that JavaScript objects inherit (two cards in a column `constructor` are counted as
  a text that ends in `11`). They add up to the number of cards exactly when no column has such
  a name and no column that holds a card is declared twice.
* A load request that names no series of the file does not fail in the loader; the run fails
  later, in the feature engineer, on a one-dimensional array.

## Model

| member | source | states |
|---|---|---|
| SkillDiff.FillTable | apps/web/app/components/skill-diff.tsx:25-33 | the table, filled backwards in place, holds at `i, j` the longest common subsequence of what follows |
| SkillDiff.LcsDiff | apps/web/app/components/skill-diff.tsx:22-53 | the script edits `a` into `b`, keeps at least as many lines as any script that does, and among those comes first when keeping ranks before removing before adding |
| SkillDiff.BestScriptIsUnique | apps/web/app/components/skill-diff.tsx:22-53 | two scripts that meet that specification are equal, so it leaves no freedom to the walk |
| SkillDiff.DroppingALineCostsAtMostOne | apps/web/app/components/skill-diff.tsx:30-31 | giving up one line on either side costs at most one match: why matching equal lines greedily is safe |
| SkillDiff.NoScriptKeepsMore | apps/web/app/components/skill-diff.tsx:22-53 | every script from `a` to `b` has at most as many context lines as the table's corner |
| SkillDiff.WalkIsBest | apps/web/app/components/skill-diff.tsx:34-52 | the forward walk yields the best script |
| SkillDiff.Partition | apps/web/app/components/skill-diff.tsx:59-82 | one pass produces both columns and the two counts of any script |
| SkillDiff.ColumnsOfScript | apps/web/app/components/skill-diff.tsx:59-82 | for every script the columns read its old and its new side, and both show the kept lines in order |
| SkillDiff.SideBySide | apps/web/app/components/skill-diff.tsx:135-136 | left texts are `a`, right texts are `b`, shared lines agree, each column is its shared lines and its counted ones, adds minus removes is the length difference, adds plus removes is minimal over all scripts, and both are zero iff `a` equals `b` |
| SkillDiff.DiffBodies | apps/web/app/components/skill-diff.tsx:115-136 | with 500 line feeds on a side nothing is diffed; otherwise the columns, joined, are the two bodies, the counts are those of the marked lines, differ by as many line feeds as the bodies, and are together minimal over all scripts; nothing is marked iff the bodies are equal |
| SkillDiff.JoinOfSplit | apps/web/app/components/skill-diff.tsx:115-116 | joining the lines of a split body gives the body back, and no line holds the separator |
| SkillDiff.PartsBySeparators | apps/web/app/components/skill-diff.tsx:115-116 | a body has one line more than line feeds |
| InstructionFile.RoundTrip | apps/kernel/src/ownevo_kernel/iteration_runner.py:97-114 | for every id and body, reading back a built file gives the trimmed body (`None` if blank) iff the id has no `---`; the body may have it |
| InstructionFile.SavingTwice | apps/kernel/src/ownevo_kernel/iteration_runner.py:248-255 | saving what was read back writes the same file |
| InstructionFile.FrontMatterLeaks | apps/kernel/src/ownevo_kernel/iteration_runner.py:250-254 | when the cut falls inside the id, what is read back is longer than the body |
| InstructionFile.PlainContentIsTrimmed | apps/kernel/src/ownevo_kernel/iteration_runner.py:248-255 | content that does not open with a fence, or has no second one, is read back trimmed, as `None` if blank |
| IterationRunner.PlanContents | apps/kernel/src/ownevo_kernel/iteration_runner.py:627-752 | how many statements of phase 3 make each write, for every write there is: one trace per outcome, one case output per outcome with a known case, one cluster and one audit entry per cluster, and, iff an edit is proposed, one each of version, proposal and their audit entries |
| IterationRunner.PlanRows | apps/kernel/src/ownevo_kernel/iteration_runner.py:986-1001 | the rows those statements leave: one case output per known case however often it occurs among the outcomes, and one row per statement of every other kind |
| IterationRunner.PlannedProposals | apps/kernel/src/ownevo_kernel/iteration_runner.py:678-758 | a completed phase 3 writes one proposal iff the cycle returned an instruction that has a character other than white space and is not the one the run began with, else none |
| IterationRunner.ProposesIffNew | apps/kernel/src/ownevo_kernel/iteration_runner.py:678 | the test of phase 3 says exactly that |
| IterationRunner.AlwaysLifecycle | apps/kernel/src/ownevo_kernel/iteration_runner.py:417-831 | at every point of every interleaving each row agrees with the phase its run is in: fresh while open; once committed it and its writes are what the workflow, the instruction and the cycle of the run's own steps lead to |
| IterationRunner.AllOrNothing | apps/kernel/src/ownevo_kernel/iteration_runner.py:536-831 | after every interleaving every row is `running` exactly while its run is open and then has no phase-3 rows; closed by its commit it has all that the run's own cycle leads to; a `sandbox-error` row has none unless its COMMIT was interrupted after taking effect, and then all of that; `gate-pass` iff one proposal and a proposed version |
| IterationRunner.CommittedRowsAreOwn | apps/kernel/src/ownevo_kernel/iteration_runner.py:417-831 | for every run that was begun with a workflow and an instruction, solved a cycle and committed: its writes are the whole plan of exactly these and the closing entry, and its row has their workflow, score and proposed version |
| IterationRunner.CommittedRows | apps/kernel/src/ownevo_kernel/iteration_runner.py:627-820 | such a run has in the tables exactly the rows that plan leaves, upserts counted once, and one closing audit entry, whatever other runs wrote |
| IterationRunner.GatePassIff | apps/kernel/src/ownevo_kernel/iteration_runner.py:754-758 | a run that returned has a `gate-pass` row iff its own cycle brought such an instruction, and a `gate-blocked-no-improvement` row otherwise |
| IterationRunner.FailureEverywhere | apps/kernel/src/ownevo_kernel/iteration_runner.py:417-831 | at every point of a run its failure is one of the steps that can be taken, with the phase and the row it leads to |
| IterationRunner.InterruptionIsRemembered | apps/kernel/src/ownevo_kernel/iteration_runner.py:821-831 | a run's phase tells whether its COMMIT was interrupted, to the end of the run |
| IterationRunner.ProposedInstructionReadsBack | apps/kernel/src/ownevo_kernel/iteration_runner.py:678-690 | the version and the proposal hold content that reads back as the proposed instruction iff the workflow id has no `---` |
| IterationScores.BestEverIsTopScore | apps/kernel/src/ownevo_kernel/iteration_runner.py:760-797 | under every interleaving, stale reads included, the highest best-ever score of a workflow is the highest score a row was closed with |
| IterationScores.AlwaysScored | apps/kernel/src/ownevo_kernel/iteration_runner.py:760-797 | every closed row's best-ever score is the larger of the best it read and its own score, and a row of the workflow scored it |
| IterationScores.NoOverlapNonDecreasing | apps/kernel/src/ownevo_kernel/iteration_runner.py:760-797 | if no other commit falls between a best-score query and its commit, best-ever scores never fall in commit order |
| IterationScores.FallsIff | apps/kernel/src/ownevo_kernel/iteration_runner.py:760-797 | a later commit shows a lower best-ever score than an earlier one iff it had read the best before that earlier commit and both that best and its own score are lower |
| IterationScores.IndicesAreDense | apps/kernel/src/ownevo_kernel/iteration_runner.py:258-266 | however the read of the maximum and the insert interleave, a workflow's indices are exactly `0..n-1`, each used once |
| IterationScores.AlwaysDense | apps/kernel/src/ownevo_kernel/iteration_runner.py:435-448 | every index below a row's or an allocated one is taken, at every point of every run |
| IterationHazards.InterruptedCommit | apps/kernel/src/ownevo_kernel/iteration_runner.py:821-831 | for every cycle there is a run that ends in a `sandbox-error` row holding all of its phase-3 rows and its score |
| IterationHazards.OverlapCanFall | apps/kernel/src/ownevo_kernel/iteration_runner.py:760-797 | for any two scores there is an interleaving that commits the lower best-ever score after the higher one |
| IterationHazards.ReachesCommit | apps/kernel/src/ownevo_kernel/iteration_runner.py:417-820 | from any reachable state a new run can get to its COMMIT with everything staged |
| IterationTraces.TraceTable.PersistTraces | apps/kernel/src/ownevo_kernel/iteration_runner.py:865-1071 | one trace row per outcome is appended in order; key by key its two events and its metrics say what the outcome says; the returned dictionary is the one those rows make |
| IterationTraces.ByCaseIsNewest | apps/kernel/src/ownevo_kernel/iteration_runner.py:1070-1071 | the dictionary has exactly the traced cases and maps each to its newest trace |
| IterationTraces.SampleTraceIds | apps/kernel/src/ownevo_kernel/iteration_runner.py:1074-1094 | the loop yields the samples of the first five members, at most five |
| IterationTraces.SamplesAreMemberTraces | apps/kernel/src/ownevo_kernel/iteration_runner.py:1086-1094 | every sampled id belongs to the newest persisted trace of a member's case |
| IterationTraces.SamplesAreComplete | apps/kernel/src/ownevo_kernel/iteration_runner.py:1086-1094 | no member is dropped iff every member points at a snapshot whose case was traced |
| IterationTraces.IterationTracesAreNeverHidden | apps/kernel/src/ownevo_kernel/iteration_runner.py:865-916 | every row this runner writes, held out or not, passes the failure list's fold filter, has events that can be iterated, and counts no tool error |
| IterationTraces.HeldOutFilterDoesNothing | apps/kernel/src/ownevo_kernel/agent_tools/metrics.py:169-172 | over this runner's traces the list with held-out cases left out is the list with them, for every window and `k`, and with at most `k` traces it has all of them |
| Tau3Ingest.Iterations.NextIndex | apps/kernel/scripts/tau3_ingest.py:143-147 | the index is above every one used and follows the highest |
| Tau3Ingest.Iterations.Best | apps/kernel/scripts/tau3_ingest.py:148-152 | the maximum over the rows that have a best-ever score, nothing if none has |
| Tau3Ingest.Iterations.InsertIteration | apps/kernel/scripts/tau3_ingest.py:132-172 | one row is appended; it passes iff the score beats every stored best, and its best-ever score is the maximum of the table with it |
| Tau3Ingest.Iterations.Ingest | apps/kernel/scripts/tau3_ingest.py:244-249 | one such row per score, in order, nothing else changed |
| Tau3Ingest.PassesWhen | apps/kernel/scripts/tau3_ingest.py:153-155 | in a fresh workflow a row passes iff its score is above the stored form of every earlier score |
| Tau3Ingest.PassingRowsAreStrictMaxima | apps/kernel/scripts/tau3_ingest.py:153-155 | with scores that storage keeps, the passing rows are exactly the strict left-to-right maxima |
| Tau3Ingest.JudgedCorrectlyIffRepresentable | apps/kernel/scripts/tau3_ingest.py:148-155 | every later score is judged correctly against a first one iff storage does not round that first one |
| Scores.RoundOfMax | apps/kernel/migrations/0001_substrate.sql:246-248 | storing the larger of a stored and a fresh score is the larger of the two stored forms |
| Scores.RoundIsNearest | apps/kernel/migrations/0001_substrate.sql:246-248 | the stored score is within half a millionth of the score, and a tie goes away from zero |
| RevertSkill.NothingRewritten | apps/kernel/scripts/revert_skill.py:111-148 | no step alters a version row, a head update or an audit entry; all three only grow |
| RevertSkill.ExitCodeTells | apps/kernel/scripts/revert_skill.py:92-157 | over every run a process makes at most one head update and one entry, both or neither: none while under way, when refused or on a dry run, one each when it exits with code 0 otherwise; after code 2 one each iff its swap had committed unacknowledged |
| RevertSkill.ExitCodesMean | apps/kernel/scripts/revert_skill.py:92-157 | over every run: code 3 iff the head that was read has the requested number already; 4 iff the head at the swap is not the one that was read; 0 iff it was read, has another number, and this was a dry run or the head was still the same at the swap |
| RevertSkill.RevertGoesThrough | apps/kernel/scripts/revert_skill.py:57-152 | from every reachable state, an undisturbed revert of a skill to a registered version that is not its head moves the head there with one update and one entry and exits 0 |
| RevertSkill.LogIsTruthful | apps/kernel/scripts/revert_skill.py:110-148 | under every interleaving each entry's update was made by the process that wrote the entry, its from-version was head immediately before that update and its to-version immediately after, no two entries share an update, and none records a change to the version already head |
| SqlSplitter.OutputShape | apps/kernel/src/ownevo_kernel/db.py:294-297 | whatever the input, every output is non-empty, trimmed, without `;` and without line breaks other than the line feed |
| SqlSplitter.NothingElseIsLost | apps/kernel/src/ownevo_kernel/db.py:294-297 | the non-space characters of the outputs are, in order, those of the non-comment lines without `;` |
| SqlSplitter.CommentLineAddsNothing | apps/kernel/src/ownevo_kernel/db.py:279-297 | a line of white space, `--` and anything, wherever it stands, changes nothing about the statements |
| SqlSplitter.KeptLines | apps/kernel/src/ownevo_kernel/db.py:279-293 | the lines kept are exactly those that do not have `--` after nothing but white space |
| SqlSplitter.RoundTrip | apps/kernel/src/ownevo_kernel/db.py:279-297 | splitting the `";\n"`-joined text of a list returns the list iff each statement is non-empty, trimmed, without `;`, foreign line breaks and comment lines |
| Migrations.ApplyOne | apps/kernel/scripts/migrate.py:75-104 | both ways of applying a file, cut off after any number of effects, leave exactly the specified store |
| Migrations.WholeFileIff | apps/kernel/scripts/migrate.py:75-93 | a file is applied whole, with its record, iff it does not hold the marker and no line but comments holds the letters of `ADD VALUE` in any case; otherwise statement by statement, its record last |
| Migrations.AddValueRunsByStatement | apps/kernel/scripts/migrate.py:75-81 | `ADD VALUE` in any mixture of capitals and small letters, anywhere on a line that is no comment, makes its file run statement by statement |
| Migrations.CommentedAddValueIsWhole | apps/kernel/scripts/migrate.py:75-81 | the words in a comment do not |
| Migrations.Run | apps/kernel/scripts/migrate.py:40-107 | a run applies the pending files in name order whatever the directory order, and tells whether all that was pending is committed |
| Migrations.SortedPending | apps/kernel/scripts/migrate.py:47-49 | filtering and sorting commute, so the listing order is irrelevant |
| Migrations.CrashSafety | apps/kernel/scripts/migrate.py:40-107 | over any series of runs cut off anywhere: the recorded files are a prefix of name order; a transactional file took effect once iff recorded; a statement-wise file left restarted passes and, once recorded, ended with a full one; the log is in name order |
| Migrations.Completion | apps/kernel/scripts/migrate.py:40-107 | after any such series a run commits all that is pending iff it gets far enough (it still raises if it is cut off while the last COMMIT is acknowledged); then everything is recorded and a further run changes nothing |
| FreshMigrate.Migrate | apps/kernel/src/ownevo_kernel/db.py:300-340 | the bootstrap variant reports the sorted files and sends their statements in that order, a bare `COMMIT` before each statement-wise file |
| FreshMigrate.CommitBeforeStatements | apps/kernel/src/ownevo_kernel/db.py:322-335 | there is one `COMMIT` per file run statement by statement, and every statement comes right after it or after another statement of its file |
| FreshMigrate.RunnersAgreeOnFreshDatabase | apps/kernel/src/ownevo_kernel/db.py:300-340 | on an empty database a complete first run of the recording runner sends the same SQL in the same order, those `COMMIT`s aside |
| TracePairing.LastSuccessfulCall | apps/kernel/scripts/run_improvement_loop.py:884-902 | the loop over `starts` and `pairs` finds the latest ok result whose latest earlier event of that call is a start, with that start's arguments; nothing iff there is none |
| TracePairing.PairsAreAMatching | apps/kernel/scripts/run_improvement_loop.py:884-899 | a start pairs with at most one result and a result with at most one start |
| TracePairing.ExtractInImprovementLoop | apps/kernel/scripts/run_improvement_loop.py:870-926 | the answer is the proposal of that latest pair, and nothing if there is none or it is malformed |
| TracePairing.ReadInImprovementLoop | apps/kernel/scripts/run_improvement_loop.py:901-926 | a proposal is built iff the payload describes one, and it is the one described |
| TracePairing.ExtractInTau3Loop | apps/kernel/scripts/run_tau3_loop.py:408-457 | the second copy meets the same specification |
| TracePairing.ReadInTau3Loop | apps/kernel/scripts/run_tau3_loop.py:431-457 | its differently written payload checks accept the same payloads with the same result |
| TracePairing.AnswerIsUnique | apps/kernel/scripts/run_tau3_loop.py:408-457 | the specification has one answer, so the two copies agree on every event stream |
| TracePairing.IrrelevantTailKeepsAnswer | apps/kernel/scripts/run_improvement_loop.py:884-899 | later events without a successful result leave the answer alone |
| TracePairing.LastCallWins | apps/kernel/scripts/run_improvement_loop.py:898-926 | a successful call appended whole becomes the answer, or hides every earlier one if it is malformed |
| DemoQuota.LimitForTier | apps/kernel/src/ownevo_kernel/api/_demo_quota.py:33-55 | only the unlimited tier has no cap; the elevated tier follows its own setting, every other tier the anonymous one; an unset or ill-formed setting gives the default |
| DemoQuota.DemoTables.GetQuotaStatus | apps/kernel/src/ownevo_kernel/api/_demo_quota.py:66-92 | usage of the day, the tier's limit, exhausted iff capped and at or over the limit, reset on the next day |
| DemoQuota.DemoTables.RecordUsage | apps/kernel/src/ownevo_kernel/api/_demo_quota.py:109-139 | the upsert adds the clamped tokens to one counter and nothing else |
| DemoQuota.Recorded | apps/kernel/src/ownevo_kernel/api/_demo_quota.py:121-139 | the two columns of the day's row grow by the clamped input and output, every other counter stays, and no row is made for nothing |
| DemoQuota.DemoTables.Gate | apps/kernel/src/ownevo_kernel/api/_demo_gate.py:43-54 | off outside demo mode, 502 iff the budget of the day it read is exhausted, admitted iff neither that nor the quota of the day it read then is, and otherwise 429 with usage, limit and reset day |
| DemoQuota.CounterIsRecordedUsage | apps/kernel/src/ownevo_kernel/api/_demo_quota.py:109-139 | in every run each counter equals the sum of the clamped usage recorded for it |
| DemoQuota.OvershootBound | apps/kernel/src/ownevo_kernel/api/_demo_quota.py:70-92 | with at most `K` calls in flight of at most `C` tokens, no interleaving, midnights between any two reads included, takes a capped counter past `limit - 1 + (K + late) * C`, where `late` counts the visitor's calls admitted during the day on another day's counter |
| DemoQuota.BoundIsAttained | apps/kernel/src/ownevo_kernel/api/_demo_gate.py:43-54 | for every limit, `K`, `C` of at least one and every number of late admissions some run ends exactly on the bound |
| DemoQuota.MidnightInsideTheGate | apps/kernel/src/ownevo_kernel/api/_demo_quota.py:70-79 | with a limit of 1 and one call of 5 tokens at a time a midnight between clock and counter lets the new day's counter reach 10 |
| DemoQuota.BoundHoldsIffNoStaleAdmission | apps/kernel/src/ownevo_kernel/api/_demo_quota.py:70-79 | `limit - 1 + K * C` is never passed iff no call is admitted on another day's counter |
| DemoQuota.OneCallOvershootIff | apps/kernel/src/ownevo_kernel/api/_demo_quota.py:7-10 | the overshoot never exceeds one call iff at most one call is in flight and none is admitted late |
| DemoQuota.RefusedUnlessStale | apps/kernel/src/ownevo_kernel/api/_demo_quota.py:70-85 | once a day's counter is at the limit, a request of that visitor is ever after admitted iff its clock was read on another day and that day's counter is below the limit |
| DemoQuota.FullDayCanStillAdmit | apps/kernel/src/ownevo_kernel/api/_demo_quota.py:70-85 | for every cap of at least one some run admits a request on a day whose counter is at the limit |
| DemoQuota.BudgetStopsAdmissions | apps/kernel/src/ownevo_kernel/api/_demo_gate.py:47-53 | while the day and its exhausted budget last, only requests already past the budget check or holding another day's clock can still be admitted |
| DemoQuota.StaleBudgetReadPasses | apps/kernel/src/ownevo_kernel/api/_demo_gate.py:47-53 | in every state a request with such a clock passes an exhausted budget, and is admitted iff the quota admits it |
| DemoQuota.ExhaustedDayCanStillAdmit | apps/kernel/src/ownevo_kernel/api/_demo_gate.py:47-53 | for every visitor whom an unused quota admits some run ends on an exhausted day and then admits a request |
| Frames.RepeatAt | apps/kernel/baselines/m5_lightgbm/skill_v2/feature_engineer.py:166 | `repeat` puts series `s` at entry `s * d + j` |
| Frames.TileAt | apps/kernel/baselines/m5_lightgbm/skill_v2/feature_engineer.py:168 | `tile` puts day `j` there |
| Frames.FlattenAt | apps/kernel/baselines/m5_lightgbm/skill_v2/feature_engineer.py:167 | `reshape(-1)` puts cell `(s, j)` there |
| Frames.ReshapeOfFlatten | apps/kernel/baselines/m5_lightgbm/skill_v2/predictor.py:50 | reshaping to `(n, d)` undoes flattening |
| Frames.FlattenOfReshape | apps/kernel/baselines/m5_lightgbm/skill_v2/predictor.py:43-50 | and flattening undoes reshaping |
| Frames.NestedRepeatIsRepeat | apps/kernel/baselines/m5_lightgbm/skill_v1/feature_engineer.py:87-93 | v1's nested comprehension over series is `repeat` |
| Frames.NestedTileIsTile | apps/kernel/baselines/m5_lightgbm/skill_v1/feature_engineer.py:90-92 | v1's nested comprehension over days is `tile` |
| DataLoader.ColumnIndices | apps/kernel/baselines/m5_lightgbm/skill_v2/data_loader.py:96-106 | the index of each fold column, the last one on duplicates; fails iff a column is missing, naming the first one |
| DataLoader.ReadRows | apps/kernel/baselines/m5_lightgbm/skill_v2/data_loader.py:51-71 | one pass keeps the five lists in step: entry `i` of each comes from the same wanted file row |
| DataLoader.MetadataSays | apps/kernel/baselines/m5_lightgbm/skill_v2/data_loader.py:60-71 | a row's metadata are its cells in those of the five category columns that the file has |
| DataLoader.Load | apps/kernel/baselines/m5_lightgbm/skill_v2/data_loader.py:29-93 | fails iff the request is empty or a needed column is missing, and names the missing column looked up first; otherwise every parallel array reads the same file rows in the same order |
| DataLoader.LoadedInRequestOrder | apps/kernel/baselines/m5_lightgbm/skill_v2/data_loader.py:73-80 | with distinct ids the loaded series are exactly the requested ones that exist, in request order |
| OutlierHandler.ClipTraining | apps/kernel/baselines/m5_lightgbm/skill_v2/outlier_handler.py:54-58 | the masked in-place minimum caps exactly the rows whose cap is positive |
| OutlierHandler.Clipped | apps/kernel/baselines/m5_lightgbm/skill_v2/outlier_handler.py:54-58 | under a positive cap every day is at most the cap and either the old value, if that is at most the cap, or the cap; without one nothing changes |
| OutlierHandler.Handle | apps/kernel/baselines/m5_lightgbm/skill_v2/outlier_handler.py:28-84 | an array without cells comes back as it is, everything else capped and filtered |
| OutlierHandler.ScaleIffMoves | apps/kernel/baselines/m5_lightgbm/skill_v2/outlier_handler.py:64-66 | a row's scale is positive iff the row is not constant |
| OutlierHandler.FilterKeepsMovers | apps/kernel/baselines/m5_lightgbm/skill_v2/outlier_handler.py:46-84 | one strictly increasing selection, shared by every array, of exactly the series that are not constant after capping; no training cell grows; validation and test cells are unchanged |
| OutlierHandler.FilterContractIff | apps/kernel/baselines/m5_lightgbm/skill_v2/outlier_handler.py:36-47 | every series left has a positive scale iff there are training days or no series |
| FeatureEngineer.MaxLookbackIs364 | apps/kernel/baselines/m5_lightgbm/skill_v2/feature_engineer.py:87 | the required history is 364 days |
| FeatureEngineer.EncodeCategorical | apps/kernel/baselines/m5_lightgbm/skill_v2/feature_engineer.py:202-210 | codes are positions in order of first appearance, and the dictionary numbers exactly the values seen |
| FeatureEngineer.CodesAreFaithful | apps/kernel/baselines/m5_lightgbm/skill_v2/feature_engineer.py:202-210 | codes are equal iff the values are, and exactly the numbers below the count of values occur |
| FeatureEngineer.GuardsPassIff | apps/kernel/baselines/m5_lightgbm/skill_v2/feature_engineer.py:173-178 | every lag guard lets a frame through iff there are at least 364 days of history and at most 28 target days |
| FeatureEngineer.LagColumns | apps/kernel/baselines/m5_lightgbm/skill_v2/feature_engineer.py:172-180 | the lag loop fails iff some guard does, and otherwise gathers columns inside the history only |
| FeatureEngineer.LongFrame | apps/kernel/baselines/m5_lightgbm/skill_v2/feature_engineer.py:139-199 | when the frame is built and from which columns |
| FeatureEngineer.LagAt | apps/kernel/baselines/m5_lightgbm/skill_v2/feature_engineer.py:173-180 | the lag-`k` column holds the value exactly `k` days before the target day |
| FeatureEngineer.WindowAt | apps/kernel/baselines/m5_lightgbm/skill_v2/feature_engineer.py:184-192 | the rolling columns are the mean and deviation of exactly the days `T-28-w+1` to `T-28` |
| FeatureEngineer.InputsAre | apps/kernel/baselines/m5_lightgbm/skill_v2/feature_engineer.py:20-32 | the inputs of day `T` are the values 28, 56, 91, 182 and 364 days before, and mean and deviation of the 7, 28, 56 and 91 days that end 28 days before |
| FeatureEngineer.RowIsSeriesAndDay | apps/kernel/baselines/m5_lightgbm/skill_v2/feature_engineer.py:139-199 | in every column entry `s * d + j` belongs to series `s`, day `j`, and the whole row is what the series' timeline says |
| FeatureEngineer.OldDaysDecide | apps/kernel/baselines/m5_lightgbm/skill_v2/feature_engineer.py:20-32 | the inputs of day `T` depend on days up to `T-28` only |
| Statistics.MeanBetween | apps/kernel/baselines/m5_lightgbm/skill_v2/feature_engineer.py:191 | a mean lies between any bounds of its days |
| Statistics.DifferencesCancel | apps/kernel/baselines/m5_lightgbm/skill_v2/feature_engineer.py:191 | the differences of the days from their mean add up to zero |
| Statistics.StdPositiveIff | apps/kernel/baselines/m5_lightgbm/skill_v2/feature_engineer.py:192 | a deviation is positive iff some day of its window differs from another |
| Statistics.StdOfShifted | apps/kernel/baselines/m5_lightgbm/skill_v2/feature_engineer.py:191-192 | selling a constant more every day moves the mean by it and leaves the deviation |
| Statistics.StdSquared | apps/kernel/baselines/m5_lightgbm/skill_v2/feature_engineer.py:192 | for an exact root `n²σ² = nΣx² − (Σx)²` |
| Statistics.ScaleSquared | apps/kernel/src/ownevo_kernel/datasets/m5_metric.py:169-170 | for an exact root the squared scale, taken once per step, is the sum of the squared day-to-day steps |
| FeatureEngineerV1.LongFrameV1 | apps/kernel/baselines/m5_lightgbm/skill_v1/feature_engineer.py:77-94 | the frame builds iff the lag column is as long as the others, and its rows are series-major |
| FeatureEngineerV1.EngineerV1 | apps/kernel/baselines/m5_lightgbm/skill_v1/feature_engineer.py:28-74 | which inputs are refused and how; otherwise `lag_28` is exactly `|val|` days earlier in both frames |
| ForecastPipeline.Engineer | apps/kernel/baselines/m5_lightgbm/skill_v2/feature_engineer.py:70-136 | exactly which inputs are refused, with which error |
| ForecastPipeline.SameCodesIff | apps/kernel/baselines/m5_lightgbm/skill_v2/feature_engineer.py:98-101 | two series have the same category codes iff they agree in category, department, store, state and item |
| ForecastPipeline.TrainRowMeans | apps/kernel/baselines/m5_lightgbm/skill_v2/feature_engineer.py:103-109 | a training row holds the inputs and the target of its series and validation day |
| ForecastPipeline.TestRowMeans | apps/kernel/baselines/m5_lightgbm/skill_v2/feature_engineer.py:110-116 | a test row holds the inputs of its series and test day |
| ForecastPipeline.NoInputReadsItsFold | apps/kernel/baselines/m5_lightgbm/skill_v2/feature_engineer.py:94-96 | inputs for validation days are fixed by the training days, inputs for test days by training and validation days |
| ForecastPipeline.Predict | apps/kernel/baselines/m5_lightgbm/skill_v2/predictor.py:38-50 | fails iff the row count is not series times days; cell `(s, j)` is never negative, and the booster's value on row `s * n + j` whenever that is not |
| ForecastPipeline.ComputeWeightsAndScales | apps/kernel/src/ownevo_kernel/datasets/m5_metric.py:142-186 | each of its errors and exactly when it is raised; otherwise a positive scale for every series and weights that add up to one, equal ones if there is no volume |
| ForecastPipeline.UsableIff | apps/kernel/baselines/m5_lightgbm/skill_v2/feature_engineer.py:70-92 | frames can be built iff some row of the file was asked for, both held-out folds are equally long with at most 28 days, and there are 364 training days; the training array is one-dimensional iff no row was asked for |
| ForecastPipeline.RunBaseline | apps/kernel/baselines/m5_lightgbm/__init__.py:186-201 | for every input the error it stops with, check by check, or an output in which every cell is the forecast of its series and day, weights are equal and scales are the positive scales of the capped rows |
| ForecastPipeline.RunEndsIff | apps/kernel/baselines/m5_lightgbm/__init__.py:186-201 | which runs succeed and which fail for unequal folds, for a request without match, in training, or without a series left, in terms of file, fold and request |
| ForecastPipeline.SeriesComesFromItsFileRow | apps/kernel/baselines/m5_lightgbm/__init__.py:63-78 | every series of the output is one wanted file row: its id, its metadata, and its capped training, raw validation and raw test values |
| ForecastPipeline.OutputInRequestOrder | apps/kernel/baselines/m5_lightgbm/__init__.py:186-201 | for distinct ids the output's series are exactly the requested ones that the file has and that are not constant after capping, in request order |
| ForecastPipeline.FinishIgnoresTest | apps/kernel/baselines/m5_lightgbm/skill_v2/model_trainer.py:68-77 | changing the held-out cells of the cleaned data changes how a run ends in the actuals only |
| ForecastPipeline.HeldOutColumnsDoNotMatter | apps/kernel/baselines/m5_lightgbm/__init__.py:186-201 | two files that differ in test columns only give the same run: the same error, or the same ids, forecasts, weights and scales |
| ViewResolver.PayloadToAlertList | apps/web/lib/view-data-resolver.ts:800-833 | the first eight usable alerts of all cases together, all of them if fewer than eight are shown, despite the two breaks; empty iff there is none |
| ViewResolver.AlertsSay | apps/web/lib/view-data-resolver.ts:806-822 | every alert has the title, meta and link of an object of its case, and its severity if that is one of the three, else `medium`; every object with a title has its alert |
| ViewResolver.PayloadToTableView | apps/web/lib/view-data-resolver.ts:743-798 | all cases' rows in order, the first non-empty column list, and a source column iff some row links to its case |
| ViewResolver.RowsSay | apps/web/lib/view-data-resolver.ts:743-798 | every row is a row of its case, linked to the case if there is a link, other keys untouched |
| ViewResolver.ColumnsSay | apps/web/lib/view-data-resolver.ts:743-798 | every column has the key and label of its object, or the defaults |
| ViewResolver.PayloadToKanban | apps/web/lib/view-data-resolver.ts:835-887 | the cards of all cases that fit a declared column, in order, with the count the reduction leaves under each column's key; empty iff no card fits |
| ViewResolver.AllCardsDeclared | apps/web/lib/view-data-resolver.ts:856-869 | every card sits in a declared, non-empty column and has a title |
| ViewResolver.CardsSay | apps/web/lib/view-data-resolver.ts:856-869 | every card has the column, title, body, meta and link of an object of its case and is numbered by the object's place; every object with a title and a declared column has its card |
| ViewResolver.DefsSay | apps/web/lib/view-data-resolver.ts:847-850 | every declared column has the key and label of its object, or the empty string |
| ObjectCounts.Tally | apps/web/lib/view-data-resolver.ts:878-881 | the loop builds the object that the reduction specifies |
| ObjectCounts.ReducedCounts | apps/web/lib/view-data-resolver.ts:878-884 | for every list of keys: a key that is not inherited is counted; `__proto__` never is; any other inherited name gets the text of the inherited value and a `1` per occurrence |
| ObjectCounts.CountIsRightIff | apps/web/lib/view-data-resolver.ts:878-884 | the count under a key is its number of occurrences iff objects do not inherit the key |
| ViewResolver.CountsAddUpIff | apps/web/lib/view-data-resolver.ts:878-884 | the counts the board shows are numbers that add up to the number of cards iff no column has an inherited name and no column that holds a card is declared twice |
| ViewResolver.CountsAreNumbersIff | apps/web/lib/view-data-resolver.ts:878-884 | for every board, what the reduction leaves is each column's number of cards iff no column has the name of an inherited property |
| ViewResolver.ConstructorColumn | apps/web/lib/view-data-resolver.ts:878-884 | with two cards in a column `constructor` the column's count is the text of the inherited function followed by `11` |
| ViewResolver.SortingPartitions | apps/web/lib/view-data-resolver.ts:295-300 | sorting the case table failed-first is the stable partition into failed and passed cases |
| ViewResolver.TallyCases | apps/web/lib/view-data-resolver.ts:376-411 | the board's three counts are the failed cases of the test fold, the other failed cases and the passed ones, as numbers, and add up to the number of cases |
| FailureRanking.CountToolErrors | apps/kernel/src/ownevo_kernel/agent_tools/metrics.py:222-229 | the number of events that are tool results with the status `error` |
| FailureRanking.CollectShown | apps/kernel/src/ownevo_kernel/agent_tools/metrics.py:167-189 | the snapshots of the rows that may be shown, in fetch order; raises iff one of them has events that cannot be iterated |
| FailureRanking.TextReadsLikeItsValue | apps/kernel/src/ownevo_kernel/agent_tools/metrics.py:210-219 | a JSON column that arrives as text reads like the value it decodes to, or like nothing if it does not decode |
| FailureRanking.AnalyzeFailures | apps/kernel/src/ownevo_kernel/agent_tools/metrics.py:121-202 | the result is the worst `k` of the window: sandbox errors first, among equals more tool errors, among equals the newer, ties in fetch order, and a row that may be shown is left out only if `k` come before it |
| FailureRanking.WorstIsUnique | apps/kernel/src/ownevo_kernel/agent_tools/metrics.py:195-202 | that specification has one solution |
| FailureRanking.NothingHeldOutAndSorted | apps/kernel/src/ownevo_kernel/agent_tools/metrics.py:171-202 | without opting in no row stamped as test fold is returned, and the list is in the order of the three keys |
| FailureRanking.GlobalIffTableFits | apps/kernel/src/ownevo_kernel/agent_tools/metrics.py:141-165 | for `k` of at least one the window's worst `k` are the workflow's for every content iff the workflow has at most `4k` traces |
| StableSort.OrderIsStable | apps/kernel/baselines/m5_lightgbm/skill_v2/data_loader.py:75 | insertion realises what `sorted` promises: every position once, in order, ties kept |
| StableSort.StableOrderIsUnique | apps/kernel/src/ownevo_kernel/agent_tools/metrics.py:195-201 | order and stability leave one result |

## Left out

- The diff component's rendering and its single-column views.
- IterationRunner.AlwaysLifecycle: leaves a row `running` when the failure falls outside the guarded regions (the phase-1 audit write, acquiring a connection, an error the guards do not name) or when the handler's own write fails; the reaper that picks such rows up is not part of this model.
- IterationRunner.AllOrNothing: does not look inside `register_skill`, `insert_cluster` and the audit hash chain, which are single writes here; their modules are not part of this model.
- IterationRunner.PlanRows: a row is named by its keys and by the columns that tell rows apart; the output that an upsert overwrites is not modelled.
- IterationScores.IndicesAreDense: workflow resets, which delete rows, are excluded.
- RevertSkill.NothingRewritten: the column `latest_proposed_version_id`, which the swap sets along with the head, is not modelled.
- ViewResolver.CountsAreNumbersIff: the text of an inherited function is a parameter.
- Migrations.CrashSafety: one runner at a time on a fixed directory; the script takes no lock against a second one.
- IterationTraces.IterationTracesAreNeverHidden: that JSON comes back from the database as it was written is what reading a trace means here; ids and instants are the texts they print as.
- IterationTraces.SampleTraceIds: cluster members are natural numbers; Python's negative indices do not arise.
- DemoQuota.OvershootBound: `K` and `C` bound an identity's traffic from outside; nothing in the code enforces them. Token minting, revocation and cookies are left out.
- DataLoader.Load: every row of the file is as long as the header and every cell parses as a number; the calendar file is a function from day column to weekday. One column list stands for the catalog's columns and for the file's header, because the catalog takes its columns from that header (`apps/kernel/src/ownevo_kernel/datasets/m5.py:170-182`); a file rewritten in between is not modelled.
- FeatureEngineer.LongFrame: floating-point rounding, and with it the exact values of mean and deviation, is left out.
- ForecastPipeline.RunBaseline: the ensemble of one model is the identity; why training fails is left open.
- The regression gate, skill registration, clustering, the simulators, the LLM and the sandbox.
- Web routes, authentication, API clients, seeding scripts and command-line parsing: they would only add easy members.
- The remaining views (metric cards, time series, schedules, conversations, documents), which pick fields of one payload.
