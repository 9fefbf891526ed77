# A verified model of the review loop, its on-disk protocol and its scoring

The repository runs a coding agent in a loop with a reviewer, checkpoints every state in git, writes
each round to disk, and later reads the rounds back in another language to grade every state. This
project models that pipeline in Dafny and proves what the parts promise each other. Verify it with
`dafny verify dfyconfig.toml`.

## What is modelled

| file | models |
|---|---|
| `Git.dfy` | commits, patches, staging and the rollback of the task repository |
| `AgentRunner.dfy` | one agent turn: two timers, a diagnostic, an event stream and a cleanup race for one abort claim |
| `ProcessCleanup.dfy` | which processes belong to a turn, and the order in which they are ended |
| `Json.dfy`, `JsonGrammar.dfy`, `JsonPrint.dfy` | a JSON parser, the grammar of RFC 8259 that it decides, and JSON printing |
| `Scanner.dfy`, `ReviewSchema.dfy`, `ReviewRules.dfy` | finding the reviewer's answer in free text and validating it; what a review means by its words |
| `Engine.dfy`, `EngineRules.dfy` | the review loop: turns with retries, checkpoints, exits, the final patch; what its clock, turns and failures tell |
| `Discovery.dfy`, `TrialRules.dfy` | the reader that validates a trial directory and names its stages; which directories those are |
| `RoundTrip.dfy`, `RejectedRuns.dfy` | what the loop writes against what the reader accepts, and runs it does not accept |
| `VerifierPool.dfy`, `Scoring.dfy`, `JobScoring.dfy` | one verification per distinct fingerprint, the result cache, paired deltas; the whole job |
| `ExactTest.dfy` | the exact sign test and the paired table |
| `Usage.dfy`, `Accounting.dfy`, `AccountRules.dfy` | the runtime's running usage bucket and the batch accounting over its report slots, field by field |
| `Quotas.dfy`, `Sampling.dfy`, `SamplingRules.dfy` | largest-remainder quotas and the repository-spreading sample; what a pick has over the rest |
| `Sums.dfy`, `Options.dfy` | sums, counts and optional values that several files share |
| `Grader.dfy`, `Grading.dfy` | merging test reports; from report files to the reward |

Objects that the source updates in place are classes with the same fields, loops are loops with
invariants, and each is proved against a specification about which the main results are then proved.
The `Rules` files, `JobScoring.dfy` and `Grading.dfy` state what the data mean without the functions
that compute it: on texts, files, turns, trials and slots, counted and compared one by one.
Agents, the clock, git's view of ignore rules, the random draws, the verifier and the listing order
of directories are arbitrary: a result holds for every choice of them. A commit stands for its hash,
a patch for its SHA-256 and a digest for what it digests.

## Main results

- **Writer against reader.** `RoundTrip.AcceptedIffReadable` says of every run of the loop exactly
  when the written directory is accepted. For the runs one would call clean,
  `RoundTrip.CleanRunsRoundTrip` gives the stages: unchanged steps dropped, they are the checkpoints.
- **The loop.** `CollabEngine.Engine.Run` establishes the protocol for every run, and that every
  round, review and commit in its record is what the engine makes of the turns of its agents.
  `EngineRules.OnlyLatenessStops` and `EngineRules.AttemptsStopOnlyLate` tie every early end to a
  reading of the clock. `ReviewRules.WordsDecideTheLoop` reads a run from the replies of its reviewers:
  the loop ends approved exactly when the last counted one lists no item called critical or major. An
  empty final patch or a failed apply check can still override that outcome.
- **What files and texts say.** `TrialRules.AcceptableIff` (a trial directory),
  `ReviewRules.ReviewsAreBuiltIff` (a review record), `Grading.GradeReports` (report files) and
  `AccountRules.AccountsMean` (usage slots) say exactly what is accepted and what it becomes.
- **Noise-proof reading.** The JSON parser decides the grammar of RFC 8259 (`JsonGrammar.ParsesIff`).
  `Scanner.ValuesAgree` proves that the brace scanner and the JSON lexer agree on JSON;
  `ReviewSchema.PrintedReviewsAreReadIff` concludes that a printed review is read back from behind any
  earlier lines, unless these leave a brace open that declares a verdict of its own.
  Earlier reviews do not matter (`ReviewSchema.LatestReviewIsRead`).
- **Races.** `AgentRunner.ReturnsAreClean`, `AgentRunner.ResultsTellTheSchedule` and
  `VerifierPool.Pool.RunAll` hold for every interleaving.
- **Refinement.** `JobScoring.ScoreJob` (deduplication and cache against verifying each patch alone),
  `Accounting.BucketAgreesWithBatch` (incremental against batch), `Grader.ReportsMergeAsOne` (merging
  in parts against merging at once).

## Where the code does less than one might expect

Each of these is proved: the exact condition, and a concrete input for which the code does less.

- A rollback after a failed turn leaves files behind when the turn created an untracked ignore file
  that hid them: the listing is taken before the ignore file is deleted. The comment at
  `wip/agents/deep_swe_agent/runtime/src/git-workspace.ts:91-94` promises more than the code does
  (`Git.RollbackIsCleanIff`, `Git.RollbackCanLeaveHiddenFiles`). A rollback that is about to delete no
  ignore file is clean (`Git.RollbackIsCleanWithoutNewRules`); `Git.RollbackIsCleanIffRulesHide` tells
  exactly, before the rollback, whether it will be.
- The baseline holds the files that were untracked and not ignored at the start. A file that was
  ignored then is staged later exactly when it still exists and is no longer ignored, for example
  after a turn that only deletes the ignore file (`Git.InitiallyIgnoredIsStagedIff`,
  `Git.UnignoredFilesAreStaged`). The comment at
  `wip/agents/deep_swe_agent/runtime/src/git-workspace.ts:5-7` says that no pre-existing untracked
  file ever enters history.
- An aborted turn can carry the status `success` (`AgentRunner.AbortedTurnsCanReportSuccess`). When
  the last revision fails that way the reader counts it as completed and rejects the trial
  (`RoundTrip.RevisionsCounted`, `RejectedRuns.AbortedSuccessIsRejected`).
- Four other kinds of deliverable run are rejected (`RoundTrip.AcceptedIffReadable`): one with more than 100
  rounds, for its names (`RoundTrip.NamesAreReadable`, `RejectedRuns.LongRunsAreAcceptedIff`); one
  without a review round (`RejectedRuns.UnreviewedRunIsRejected`); one in which a reviewed state is
  the base tree again (`RejectedRuns.RestoredRunIsRejected`); and one whose agent committed all its
  work itself, so that no checkpoint was recorded (`RejectedRuns.SelfCommittedRunIsRejected`).
- Children are ended before their parents in a freshly captured scope (`ProcessCleanup.ChildrenGoFirst`,
  for parent chains that do not pass the root). After two scopes were merged they are exactly when no
  parent was captured in the other scope as deep as its kept child,
  ties going by pid (`ProcessCleanup.FreshScopesMergeBottomUpIff`). Only re-parenting between the
  captures can break that (`ProcessCleanup.StayingParentsGoLast`). It does in
  `ProcessCleanup.MergedScopesCanInvert`, where the orphan goes to process 1 and the runtime is
  process 1 itself, as in a container.
- The bucket shows flat token totals that the batch reader withholds exactly when every turn reported
  but some report is incomplete (`Accounting.FlatTotalsAgreeIff`, `Accounting.PartialReportsDisagree`).
- A fingerprint is verified again in a later run exactly when its verdict was no success with a
  numeric reward (`Scoring.SecondRunVerifiesIff`, `JobScoring.ReusedIff`). A Boolean reward is scored but is not such a
  number, so it is verified in every run (`Scoring.BooleanRewardsAreVerifiedAgain`).
- The comment at `wip/agent_eval/patch_scoring.py:488-489` calls two cells of the paired table the
  split of the unchanged pairs; that holds exactly when no pair moves between two failing rewards
  (`ExactTest.TwoByTwoPartitionsIff`, `ExactTest.HalfRewardsOverlap`), so always for rewards of zero
  and one (`ExactTest.BinaryRewardsPartition`).

The last two need a verifier that is not in the repository. The graders here write rewards of zero and
one only (`Grading.GradeReports`), while `wip/agent_eval/patch_verifier.py:349-355` passes any reward on.

## Model

| member | source | states |
|---|---|---|
| CollabEngine.Engine.Run | wip/agents/deep_swe_agent/runtime/src/direct-engine.ts:418-582 | every run, whatever the agents do and however long they take, leaves a record that follows the protocol and that its agent turns explain; HEAD is the last checkpoint, also after a failed initial turn; the baseline is what was untracked and not ignored at the start, and if the start was clean and successful turns only edited files, no path of it is ever in a checkpoint or in the delivered patch; the apply check never fails a run whose checkout works; its record keeps every reading of the clock that ended the loop or refused an attempt |
| CollabEngine.FollowsStill | wip/agents/deep_swe_agent/runtime/src/direct-engine.ts:490-582 | what later rounds and checkpoints add leaves the account of the earlier rounds as it was |
| CollabEngine.InitialCounts | wip/agents/deep_swe_agent/runtime/src/direct-engine.ts:463-482 | a concluded initial phase and its checkpoint open layout, history and account |
| CollabEngine.ReviewCounts | wip/agents/deep_swe_agent/runtime/src/direct-engine.ts:278-407 | a review round extends layout and account, counted exactly when the last reply parses; otherwise the reason fits its round |
| CollabEngine.RevisionCounts | wip/agents/deep_swe_agent/runtime/src/direct-engine.ts:534-576 | a concluded revision and its checkpoint extend layout, history and account, and the next modifier finds exactly that checkpoint with the working tree left there |
| CollabEngine.FailedPhaseFollows | wip/agents/deep_swe_agent/runtime/src/direct-engine.ts:228-258 | a modifier phase without a successful turn leaves HEAD and index at the commit it was to be reset to |
| CollabEngine.ConcludedPhaseFollows | wip/agents/deep_swe_agent/runtime/src/direct-engine.ts:584-596 | a concluded modifier phase becomes the commit of its staged work, or no commit when nothing is staged |
| CollabEngine.PhaseReads | wip/agents/deep_swe_agent/runtime/src/direct-engine.ts:167-275 | what a finished modifier phase shows in its round metadata, in HEAD, in the index and in the flags of the run |
| CollabEngine.BaselineStaysOut | wip/agents/deep_swe_agent/runtime/src/direct-engine.ts:228-258 | turns that only edit files put no path of the baseline into the index |
| CollabEngine.CheckpointsAreNamed | wip/agents/deep_swe_agent/runtime/src/direct-engine.ts:584-596 | every commit the engine makes is a child of HEAD with the staged tree, and its message names the initial implementation, the number of the revision, or the final revision |
| CollabEngine.RunsFollowTheProtocol | wip/agents/deep_swe_agent/runtime/src/direct-engine.ts:490-576 | over all runs: deliverable exactly for the approved, the used up and, unless strict, the degraded outcome; 0 <= reviews - revisions <= 1 with 1 when approved and 0 when the reviews are used up, reviews within the limit, at most 1 + 2 * maxReviews rounds, round i carries number i, reviews are the odd rounds, a final revision occurs only last and only at the limit |
| CollabEngine.FindingsDecideTheLoop | wip/agents/deep_swe_agent/runtime/src/direct-engine.ts:507-537 | every counted review but the last lists a critical or major finding, and the loop ends approved exactly when the last counted review lists none, whatever verdict it states |
| CollabEngine.LaunchesAreBounded | wip/agents/deep_swe_agent/runtime/src/direct-engine.ts:187-200 | at most maxAgentAttempts * (1 + 2 * maxReviews) agent launches per run, each above minTurnSec and within the time left |
| CollabEngine.FinalPatchIsTheWork | wip/agents/deep_swe_agent/runtime/src/direct-engine.ts:598-632 | the final patch turns the base into exactly the last checkpoint; a failed initial turn delivers the empty patch; a deliverable run changed something |
| CollabEngine.HistoryGrows | wip/agents/deep_swe_agent/runtime/src/direct-engine.ts:584-596 | checkpoints stay the recorded states in order, a no-change revision left out |
| CollabEngine.NeverTracksGrows | wip/agents/deep_swe_agent/runtime/src/direct-engine.ts:228-258 | a state that does not track the baseline keeps all states free of it |
| CollabEngine.LayoutAddsReview | wip/agents/deep_swe_agent/runtime/src/direct-engine.ts:291-292 | a review round keeps the round layout, counted or not |
| CollabEngine.LayoutAddsFailedRevision | wip/agents/deep_swe_agent/runtime/src/direct-engine.ts:534-552 | a failed revision round keeps the round layout |
| CollabEngine.LayoutCountsRevision | wip/agents/deep_swe_agent/runtime/src/direct-engine.ts:553-556 | a counted revision answers a blocking review and completes the layout |
| CollabEngine.Engine.TurnTimeout | wip/agents/deep_swe_agent/runtime/src/direct-engine.ts:144-158 | the time limit is the stage limit when it fits and the remaining time otherwise, never more than what remains; the kind says which |
| CollabEngine.Engine.Admit | wip/agents/deep_swe_agent/runtime/src/direct-engine.ts:187-200 | no launch below minTurnSec, and a refusal only below it; a launch gets its stage limit if that fits and the time left otherwise |
| CollabEngine.Engine.RunTurn | wip/agents/deep_swe_agent/runtime/src/agent-runner.ts:339-427 | a turn runs its callbacks in some order the runtime allows until it returns, and reports what that order gives; ok means status success and no timeout |
| CollabEngine.Engine.Settle | wip/agents/deep_swe_agent/runtime/src/direct-engine.ts:228-258 | HEAD, index and working tree are those of the specified rollback or staging, and `changed` is exactly a staged change or a moved HEAD |
| CollabEngine.Engine.ModifierAttempt | wip/agents/deep_swe_agent/runtime/src/direct-engine.ts:187-265 | one attempt: a possible turn, the repository settled after it, and the outcome that turn decides; without a turn too little time was left at the check, and nothing happened |
| CollabEngine.Engine.ModifierAttempts | wip/agents/deep_swe_agent/runtime/src/direct-engine.ts:187-275 | the attempts chain, each finding what was left of the one before; only the last can conclude; the recorded timeout is that of the last failure, or the deadline; attempts remain unused only after a conclusion or a refusal below minTurnSec |
| CollabEngine.Engine.ModifierTurn | wip/agents/deep_swe_agent/runtime/src/direct-engine.ts:167-275 | a modifier phase adds one round whose metadata is exactly the record of its turns, and its outcome is what they decide |
| CollabEngine.Engine.ReviewAttempts | wip/agents/deep_swe_agent/runtime/src/direct-engine.ts:291-386 | the first reply that parses is the review; attempts, timeout and reason are exactly what the turns decide; attempts remain unused only after a review or a refusal below minTurnSec |
| CollabEngine.Engine.ReviewTurn | wip/agents/deep_swe_agent/runtime/src/direct-engine.ts:278-407 | a review round holds the patch of HEAD against base, the record of its turns and the review their last reply parses to |
| CollabEngine.Engine.Checkpoint | wip/agents/deep_swe_agent/runtime/src/direct-engine.ts:584-596 | the last checkpoint is HEAD, the commit of the index or the same commit when nothing is staged; one entry is recorded exactly in the first case |
| CollabEngine.Engine.ReviewPhase | wip/agents/deep_swe_agent/runtime/src/direct-engine.ts:490-533 | from the loop head to a blocking counted review read before the deadline, or to an exit whose outcome and reason fit the rounds: without a failed round, an approval or used up reviews only by a reading of the clock at or behind the deadline |
| CollabEngine.Engine.RevisionPhase | wip/agents/deep_swe_agent/runtime/src/direct-engine.ts:534-576 | from a blocking review to the next loop head, or to an exit whose outcome and reason fit the rounds |
| CollabEngine.Engine.InitialTurn | wip/agents/deep_swe_agent/runtime/src/direct-engine.ts:463-482 | the initial turn must change something; otherwise the run ends with nothing recorded and HEAD at the base |
| CollabEngine.Engine.Execute | wip/agents/deep_swe_agent/runtime/src/direct-engine.ts:437-582 | the loop terminates and ends in a state whose outcome, reason, counters and rounds agree |
| CollabEngine.Engine.ReviewLoop | wip/agents/deep_swe_agent/runtime/src/direct-engine.ts:490-582 | the rounds terminate, each starting at a settled loop head, and end at an exit that fits them |
| CollabEngine.Engine.Finalize | wip/agents/deep_swe_agent/runtime/src/direct-engine.ts:598-660 | the delivered patch is base to HEAD and applies to base; a deliverable outcome becomes an empty patch exactly when HEAD has the base tree and a failed check exactly when the checkout does not work |
| EngineRules.LaunchesAreLimited | wip/agents/deep_swe_agent/runtime/src/direct-engine.ts:144-158 | every turn of every run was launched with at least minTurnSec left, and got its own limit when that fitted and otherwise all the time left |
| EngineRules.AttemptsStopOnlyLate | wip/agents/deep_swe_agent/runtime/src/direct-engine.ts:187-197 | a round has unused attempts exactly when it reached its end or when less than minTurnSec was left at a recorded reading |
| EngineRules.OnlyLatenessStops | wip/agents/deep_swe_agent/runtime/src/direct-engine.ts:497-540 | before every further round the run was not late; a degraded run whose last round reached its end was stopped by one more reading, which was late |
| EngineRules.RoundsRecordTheirTurns | wip/agents/deep_swe_agent/runtime/src/direct-engine.ts:216-275 | metadata lists the turns of its round one by one; its timeout is the deadline after a refusal and otherwise that of the last failed attempt |
| EngineRules.FailuresAreTold | wip/agents/deep_swe_agent/runtime/src/direct-engine.ts:237-266 | how a failed start ended and why a failed last round degraded the run, as its turns and refusals decide it |
| EngineRules.ModifiersStartClean | wip/agents/deep_swe_agent/runtime/src/direct-engine.ts:228-265 | every modifier attempt starts from the last checkpoint with nothing staged, the first of a revision in the working tree left to it, a further one behind a rollback |
| EngineRules.CheckpointsHoldTheWork | wip/agents/deep_swe_agent/runtime/src/direct-engine.ts:228-265 | path by path, every checkpoint holds what its last turn left: the tracked files, and of the new ones those that git does not hide and that were not untracked at the start |
| Git.ApplyUndoesDiff | wip/agents/deep_swe_agent/runtime/src/git-workspace.ts:87-89 | a diff applies to its source and gives its target |
| Git.DiffIsInjective | wip/agents/deep_swe_agent/runtime/src/git-workspace.ts:87-89 | for a fixed base equal patches mean equal trees |
| Git.DiffIsEmptyOnlyForEqualTrees | wip/agents/deep_swe_agent/runtime/src/git-workspace.ts:87-89 | a patch is empty exactly when nothing changed |
| Git.DiffTouchesOnlyTrackedPaths | wip/agents/deep_swe_agent/runtime/src/git-workspace.ts:87-89 | a path neither side tracks is in no patch |
| Git.RollbackRestores | wip/agents/deep_swe_agent/runtime/src/git-workspace.ts:95-103 | a rollback restores every path that no ignore rule hid while the untracked files were listed |
| Git.RollbackMeans | wip/agents/deep_swe_agent/runtime/src/git-workspace.ts:95-103 | path by path: a rollback leaves the files of the checkpoint as they were, and of the others exactly the untracked ones that the baseline lists or that git hid behind the hard reset |
| Git.StagingMeans | wip/agents/deep_swe_agent/runtime/src/git-workspace.ts:67-75 | path by path: staged is what is there and was tracked, or is neither hidden by git nor in the baseline |
| Git.RollbackIsCleanIff | wip/agents/deep_swe_agent/runtime/src/git-workspace.ts:95-103 | after a rollback every non-ignored path outside the baseline holds the checkpoint exactly when no hidden file lost its ignore rule |
| Git.RollbackIsCleanIffRulesHide | wip/agents/deep_swe_agent/runtime/src/git-workspace.ts:95-103 | told before the rollback: it is clean exactly when the ignore files it will keep still hide everything hidden |
| Git.RollbackIsCleanWithoutNewRules | wip/agents/deep_swe_agent/runtime/src/git-workspace.ts:95-103 | a rollback that is about to delete no ignore file is clean |
| Git.RollbackCanLeaveHiddenFiles | wip/agents/deep_swe_agent/runtime/src/git-workspace.ts:91-94 | a turn that leaves an untracked ignore file behind defeats the rollback of what it hides, the ignore file being the one rule file the rollback deletes |
| Git.InitiallyIgnoredIsStagedIff | wip/agents/deep_swe_agent/runtime/src/git-workspace.ts:67-75 | a file that was untracked at the start and not in the baseline was ignored then, and it is staged exactly when it still exists and is no longer ignored |
| Git.UnignoredFilesAreStaged | wip/agents/deep_swe_agent/runtime/src/git-workspace.ts:5-7 | a turn that only deletes the ignore file puts a pre-existing untracked file into the index |
| Git.Workspace.StageAllExcept | wip/agents/deep_swe_agent/runtime/src/git-workspace.ts:67-75 | the index holds the working version of every tracked or new path outside baseline and ignore rules, and nothing else |
| Git.Workspace.CommitCheckpoint | wip/agents/deep_swe_agent/runtime/src/git-workspace.ts:81-85 | a commit of the index exactly when something is staged |
| Git.Workspace.ResetTo | wip/agents/deep_swe_agent/runtime/src/git-workspace.ts:95-103 | HEAD and index are the checkpoint; the working tree is the specified rollback |
| Git.Workspace.ApplyCheckAgainstBase | wip/agents/deep_swe_agent/runtime/src/git-workspace.ts:124-146 | the check passes exactly when the checkout works and the patch applies to the base |
| Discovery.DiscoverTrialPatches | wip/agent_eval/patch_discovery.py:167-425 | a trial is accepted exactly when it is acceptable, and what is returned describes it; a rejection lists a reason |
| Discovery.DiscoverStages | wip/agent_eval/patch_discovery.py:278-425 | the same for trials with a checkpoint |
| Discovery.JudgeRounds | wip/agent_eval/patch_discovery.py:278-371 | no reason is found exactly when the rounds, patches and counters fit |
| Discovery.CheckEnvelope | wip/agent_eval/patch_discovery.py:188-219 | no reason exactly when topology, task, checksum, base commit and counts are there |
| Discovery.RoundEntries | wip/agent_eval/patch_discovery.py:121-137 | recognised rounds come back by number; reasons exactly for a missing listing, an unknown name or a wrong first round |
| Discovery.CheckReviews | wip/agent_eval/patch_discovery.py:287-316 | reviews pass exactly when each has a reviewer role (or is the bare last one of a degraded trial) and a non-empty patch |
| Discovery.CheckRevisionRoles | wip/agent_eval/patch_discovery.py:317-320 | revisions pass exactly when each has the modifier role |
| Discovery.CrossValidate | wip/agent_eval/patch_discovery.py:322-358 | counts pass exactly when reviews and completed revisions match the summary and at most the last revision was interrupted |
| Discovery.StageTable.AddStage | wip/agent_eval/patch_discovery.py:378-396 | a stage records its parent, whether its patch differs from the parent, and the first stage with the same patch |
| Discovery.MapStages | wip/agent_eval/patch_discovery.py:373-401 | first review patch, later review patches, final patch become the stages, in order |
| Discovery.ChangedStagesAreChanges | wip/agent_eval/patch_discovery.py:403-411 | the changed flags count exactly the steps that moved the patch |
| Discovery.SortByNumberSorts | wip/agent_eval/patch_discovery.py:134 | sorting keeps the entries and orders them |
| Discovery.AscendingIsUnique | wip/agent_eval/patch_discovery.py:134 | with distinct numbers the order of the listing cannot matter |
| TrialRules.NamesMean | wip/agent_eval/patch_discovery.py:21 | a name is taken for a round exactly when it is two digits, a dash and one of four words, with at most one line end behind |
| TrialRules.AcceptableIff | wip/agent_eval/patch_discovery.py:167-411 | a trial is acceptable exactly when its files say so: round directories and their metadata, review patches, one final and model patch, counts, the terminal round, and no more changed states than revisions |
| TrialRules.AcceptedTrialsAreTheirFiles | wip/agent_eval/patch_discovery.py:373-425 | the stages of an accepted trial are the patches of its review directories by number and then the final patch, each compared with the one before and with the first equal one; the protocol is complete exactly for two outcomes with every review and revision successful |
| TrialRules.ListsAreUnique | wip/agent_eval/patch_discovery.py:134 | the directories of one kind have one order: by number, and by place among equal numbers |
| RoundTrip.AcceptedIffReadable | wip/agent_eval/patch_discovery.py:167-371 | over all engine runs the written layout is accepted exactly when: at most 100 rounds and, with checkpoints, at least one review, every reviewed state and the final one different from base, no failed apply check and no failed last revision that looks successful; without checkpoints, one round and an empty patch |
| RoundTrip.CleanRunsRoundTrip | wip/agent_eval/patch_discovery.py:373-425 | clean runs are accepted; their changed stages are the checkpoint patches in order; the protocol is complete exactly when the outcome is not degraded |
| RoundTrip.ChangedStagesAreCheckpoints | wip/agent_eval/patch_discovery.py:373-411 | unchanged stages dropped, the stages are exactly diff(base, checkpoint) in order; their number is 1 + revisions, less a no-change one |
| RoundTrip.CompletionIsTheOutcome | wip/agent_eval/patch_discovery.py:421-425 | the protocol counts as complete exactly for approved and max_reviews_reached |
| RoundTrip.RunThenDiscover | wip/agent_eval/patch_discovery.py:167-425 | running the engine and reading its output back: accepted exactly for readable runs |
| RoundTrip.RoundNamesReadBack | wip/agents/deep_swe_agent/runtime/src/direct-engine.ts:136-142 | a round name is parsed back exactly while its number has two digits |
| RoundTrip.ListingReadsBack | wip/agent_eval/patch_discovery.py:121-137 | rounds come back in the order they ran whatever the listing order |
| RoundTrip.NamesAreReadable | wip/agent_eval/patch_discovery.py:121-137 | the names are readable exactly up to 100 rounds |
| RoundTrip.RevisionsCounted | wip/agent_eval/patch_discovery.py:333-357 | the reader counts revisions right exactly when a failed last one does not look successful |
| RoundTrip.GradedAreTheStates | wip/agent_eval/patch_discovery.py:373-401 | the graded patches are the states under review and then the last state |
| RoundTrip.ChangesFitTheRevisions | wip/agent_eval/patch_discovery.py:403-411 | observed changes never exceed the counted revisions |
| RoundTrip.ReviewsFitIffTheySeeWork | wip/agent_eval/patch_discovery.py:297-320 | review rounds pass exactly when every reviewed state differs from the base |
| RoundTrip.CleanRunsAreReadable | wip/agent_eval/patch_discovery.py:167-371 | two-digit rounds, successful turns that leave HEAD alone, no aborted success, checkpoints off base and one review make a run readable |
| RejectedRuns.PlayedReachesHead | wip/agents/deep_swe_agent/runtime/src/direct-engine.ts:490-576 | for any sequence of changing trees and any blocking review there is a log of that many rounds that meets layout, history and account |
| RejectedRuns.PlayedIsReal | wip/agents/deep_swe_agent/runtime/src/agent-runner.ts:339-427 | every turn of that log is one that some order of callbacks returns, and its reviews are what its replies say |
| RejectedRuns.LongRunIsARun | wip/agents/deep_swe_agent/runtime/src/direct-engine.ts:490-582 | for every n the protocol has a run with n blocking reviews, n revisions and n + 1 checkpoints, so the bound on rounds is reached |
| RejectedRuns.LongRunsAreAcceptedIff | wip/agent_eval/patch_discovery.py:121-137 | that run is accepted exactly up to forty-nine reviews, that is, while round numbers have two digits |
| RejectedRuns.UnreviewedRunIsRejected | wip/agent_eval/patch_discovery.py:278-279 | a deliverable run that the deadline stopped before its first review is rejected |
| RejectedRuns.RestoredRunIsRejected | wip/agent_eval/patch_discovery.py:297-316 | a run with a revision that restores the base tree is rejected, although its final patch is good |
| RejectedRuns.AbortedSuccessIsRejected | wip/agent_eval/patch_discovery.py:333-357 | a run whose last revision ran into its limit behind the event that reported success is rejected |
| RejectedRuns.SelfCommittedRunIsRejected | wip/agent_eval/patch_discovery.py:167-371 | an approved run whose agent committed its own work has no checkpoint and is rejected |
| RejectedRuns.SomeReplyBlocks | wip/agents/deep_swe_agent/runtime/src/review-schema.ts:233-298 | some printed reply is read as a blocking review |
| RejectedRuns.SomeReplyApproves | wip/agents/deep_swe_agent/runtime/src/review-schema.ts:233-298 | some printed reply is read as an approving review |
| RejectedRuns.LateSuccessIsReal | wip/agents/deep_swe_agent/runtime/src/agent-runner.ts:405-427 | some order of callbacks makes a turn report success and its own time limit |
| JsonGrammar.ParsesIff | wip/agents/deep_swe_agent/runtime/src/review-schema.ts:105-117 | what JSON.parse accepts: a text is parsed to a value exactly when the productions of RFC 8259, sections 2 to 7, give it that value |
| JsonGrammar.ParsedValueIsJson | wip/agents/deep_swe_agent/runtime/src/review-schema.ts:105-117 | soundness: what is parsed from any position is a value by the grammar |
| JsonGrammar.ValueIsRead | wip/agents/deep_swe_agent/runtime/src/review-schema.ts:105-117 | completeness: a value by the grammar is parsed wherever it stands, up to its end and no further |
| JsonGrammar.TextsHaveOneValue | wip/agents/deep_swe_agent/runtime/src/review-schema.ts:105-117 | the grammar gives no text two values |
| JsonPrint.PrintedValuesAreJson | wip/agents/deep_swe_agent/runtime/src/review-schema.ts:105-117 | what JSON.stringify prints is JSON for the printed value, on one line |
| JsonPrint.PrintedValuesParse | wip/agents/deep_swe_agent/runtime/src/review-schema.ts:105-117 | what JSON.stringify prints, JSON.parse (RFC 8259) reads back |
| JsonPrint.ReadValuesPrint | wip/agents/deep_swe_agent/runtime/src/review-schema.ts:105-117 | whatever JSON.parse reads can be printed, and reading that gives the same value again |
| JsonPrint.PlainTextsStay | wip/agents/deep_swe_agent/runtime/src/review-schema.ts:105-117 | JSON.stringify leaves a text without quotes, backslashes and control characters as it is, characters beyond the basic plane included |
| JsonPrint.ObjectsAreBraced | wip/agents/deep_swe_agent/runtime/src/review-schema.ts:105-117 | a printed object is one line without control characters that starts and ends with its braces |
| Scanner.ValuesAgree | wip/agents/deep_swe_agent/runtime/src/review-schema.ts:71-93 | on text that parses as JSON the scanner opens and closes what the JSON lexer does |
| Scanner.StringsAgree | wip/agents/deep_swe_agent/runtime/src/review-schema.ts:76-87 | inside a JSON string the scanner stays in its string and leaves it at the same quote |
| Scanner.RegionsFormAForest | wip/agents/deep_swe_agent/runtime/src/review-schema.ts:71-103 | for every text the regions correspond one to one to the braces outside strings, any two are nested or disjoint, and inner ones come before their enclosers |
| Scanner.RegionsStartAtOpenings | wip/agents/deep_swe_agent/runtime/src/review-schema.ts:87-101 | a region starts at p exactly when p is a brace outside strings |
| Scanner.UnclosedIsNotJson | wip/agents/deep_swe_agent/runtime/src/review-schema.ts:94-101 | an unclosed region never parses |
| Scanner.InsertedLinesOnlyShift | wip/agents/deep_swe_agent/runtime/src/review-schema.ts:56-62 | brace-free lines inserted at a line boundary only shift the regions behind them |
| Scanner.AnswerIsReported | wip/agents/deep_swe_agent/runtime/src/review-schema.ts:71-103 | an object behind noise that ends a line is reported, only unterminated noise regions come after it, and the braces left open are those of the noise |
| ReviewSchema.JsonObjectCandidates | wip/agents/deep_swe_agent/runtime/src/review-schema.ts:71-103 | the one-pass scanner with its stack yields the candidates of the scan |
| ReviewSchema.EligibleAreOutermost | wip/agents/deep_swe_agent/runtime/src/review-schema.ts:128-139 | the parsed eligible regions are exactly the outermost parsed ones, pairwise disjoint, and every discarded region lies in one of them |
| ReviewSchema.OutermostSwallower | wip/agents/deep_swe_agent/runtime/src/review-schema.ts:128-139 | a swallowed candidate lies in an eligible parsed one |
| ReviewSchema.ScanForOwnKey | wip/agents/deep_swe_agent/runtime/src/review-schema.ts:164-199 | the index loop decides the own-key search |
| ReviewSchema.DeclarationsAreLiteral | wip/agents/deep_swe_agent/runtime/src/review-schema.ts:185-193 | a declared key stands literally in the region, a colon behind it, outside every nested candidate |
| ReviewSchema.FindingsDecide | wip/agents/deep_swe_agent/runtime/src/review-schema.ts:272-298 | findings are parsed in order; blocking exactly when a critical or major one is listed; the mismatch flag is exactly the contradiction |
| ReviewSchema.ParsedReviewsAreConsistent | wip/agents/deep_swe_agent/runtime/src/review-schema.ts:233-298 | any accepted output blocks exactly when it lists a critical or major finding |
| ReviewSchema.ReadReview | wip/agents/deep_swe_agent/runtime/src/review-schema.ts:233-270 | the backward search decides as specified |
| ReviewSchema.LatestVerdictDecides | wip/agents/deep_swe_agent/runtime/src/review-schema.ts:237-256 | no candidate behind the deciding one states a verdict |
| ReviewSchema.ReviewsAreReadIff | wip/agents/deep_swe_agent/runtime/src/review-schema.ts:233-270 | a valid answer object with a verdict, behind any text that ends a line and before any brace-free text, is read as if it stood alone, unless a brace left open by the earlier text declares a verdict; then the output is damaged |
| ReviewSchema.PrintedReviewsAreReadIff | wip/agents/deep_swe_agent/runtime/src/review-schema.ts:233-270 | the same for a printed review value: the review printed is the review read; nothing can go wrong when the earlier text closes its braces, or when neither text quotes the key |
| ReviewSchema.LatestReviewIsRead | wip/agents/deep_swe_agent/runtime/src/review-schema.ts:237-256 | of two printed reviews the later one is read: a superseded review never returns |
| ReviewSchema.ClosedNoiseDeclaresNothing | wip/agents/deep_swe_agent/runtime/src/review-schema.ts:164-199 | text that closes every brace it opens outside strings declares no key, whatever it quotes |
| ReviewSchema.UnquotedKeysAreUndeclared | wip/agents/deep_swe_agent/runtime/src/review-schema.ts:164-199 | texts that nowhere quote the key declare nothing |
| ReviewSchema.ReviewsSurviveNoise | wip/agents/deep_swe_agent/runtime/src/review-schema.ts:233-270 | a valid answer object with a verdict is read as if it stood alone when neither the earlier nor the later text contains the quoted key |
| ReviewSchema.ReadResolutions | wip/agents/deep_swe_agent/runtime/src/review-schema.ts:305-335 | the backward search for a resolution report decides as specified |
| ReviewSchema.ResolutionsAreReadIff | wip/agents/deep_swe_agent/runtime/src/review-schema.ts:305-335 | a report is read as if it stood alone, unless a brace left open by the earlier text declares one; then there is none |
| ReviewSchema.ResolutionsSurviveNoise | wip/agents/deep_swe_agent/runtime/src/review-schema.ts:305-335 | so it is whenever neither text contains the quoted key |
| ReviewRules.FindingsAreReadIff | wip/agents/deep_swe_agent/runtime/src/review-schema.ts:205-231 | a finding is read exactly when its severity is one of four words in any letter case and it tells an issue, then field by field; otherwise it is rejected with its place and the first defect |
| ReviewRules.ReviewsAreBuiltIff | wip/agents/deep_swe_agent/runtime/src/review-schema.ts:272-298 | a record is read exactly when its verdict, if any, is one of two words and its findings are all findings; it blocks exactly when some severity is critical or major in any letter case, whatever the verdict |
| ReviewRules.UnsignedReviewsStandAlone | wip/agents/deep_swe_agent/runtime/src/review-schema.ts:258-269 | white space alone is empty output; without a verdict anywhere one object is the review, none is reported, and several are reported with their number |
| ReviewRules.DeclaredIff | wip/agents/deep_swe_agent/runtime/src/review-schema.ts:164-199 | a damaged region declares a key exactly when the quoted key stands in it outside strings, one brace deep, in no other region, before a colon |
| ReviewRules.AcceptedReviewsAreTheirWords | wip/agents/deep_swe_agent/runtime/src/review-schema.ts:233-298 | every accepted text has one deciding region, and the review is what the words of that region say |
| ReviewRules.PrintedReviewsAreTheirWords | wip/agents/deep_swe_agent/runtime/src/review-schema.ts:233-298 | a printed record behind closed noise is read exactly when it is a review, and blocks exactly when an item is called critical or major |
| ReviewRules.WordsDecideTheLoop | wip/agents/deep_swe_agent/runtime/src/direct-engine.ts:507-537 | from replies to outcome: every counted review was read from its reply, all but the last list an item called critical or major, and the loop ends approved exactly when the last lists none |
| ReviewRules.LatestReportDecides | wip/agents/deep_swe_agent/runtime/src/review-schema.ts:305-335 | the last region with a resolution list, or damaged with that key, decides the report |
| ReviewRules.ItemsAreResolvedIff | wip/agents/deep_swe_agent/runtime/src/review-schema.ts:320-332 | an item is kept exactly when it has an id and one of three status words in any letter case, and then word for word |
| ReviewRules.ReportsAreReadIff | wip/agents/deep_swe_agent/runtime/src/review-schema.ts:318-334 | a report is exactly its usable items in order, and missing without any |
| AgentRunner.HandlersKeepSafe | wip/agents/deep_swe_agent/runtime/src/agent-runner.ts:205-400 | every callback keeps: a timeout kind exactly for a timeout reason, signal and cleanup only with a reason, cleanup started once |
| AgentRunner.TheFirstClaimStands | wip/agents/deep_swe_agent/runtime/src/agent-runner.ts:205-210 | in every schedule the abort reason, once claimed, never changes |
| AgentRunner.ReturnsAreClean | wip/agents/deep_swe_agent/runtime/src/agent-runner.ts:405-427 | whatever the order of callbacks, on return cleanup ran exactly when a reason was claimed and has finished, and ok means nothing was aborted |
| AgentRunner.ResultsTellTheSchedule | wip/agents/deep_swe_agent/runtime/src/agent-runner.ts:409-427 | what a turn reports is told by its events: the status of the last done event, or error without one or behind an unanswered request; the text; ok exactly for success without a claimed abort; the timeout of the first claim; an error exactly when something went wrong |
| AgentRunner.SchedulesTell | wip/agents/deep_swe_agent/runtime/src/agent-runner.ts:339-427 | after any schedule the shared variables are what its events say |
| AgentRunner.CallbacksRunOut | wip/agents/deep_swe_agent/runtime/src/agent-runner.ts:205-410 | every callback brings the return nearer; a stream event sets it back by a bounded amount, so a turn with finitely many events returns |
| AgentRunner.TurnsAreNeverStuck | wip/agents/deep_swe_agent/runtime/src/agent-runner.ts:346-410 | until the turn returns something other than a stream event can happen |
| AgentRunner.FinallyFinishes | wip/agents/deep_swe_agent/runtime/src/agent-runner.ts:405-410 | once the loop is left the diagnostic, the cleanup or the turn itself can always go on, and each callback brings the return nearer |
| AgentRunner.AbortedTurnsCanReportSuccess | wip/agents/deep_swe_agent/runtime/src/agent-runner.ts:413-417 | an aborted turn can still carry the status success |
| AgentRunner.Turn.ClaimAbort | wip/agents/deep_swe_agent/runtime/src/agent-runner.ts:205-210 | only the first claim takes |
| AgentRunner.Turn.BeginAbortCleanup | wip/agents/deep_swe_agent/runtime/src/agent-runner.ts:212-240 | cleanup starts at most once; the signal is raised either way |
| AgentRunner.Turn.WallTimerFires | wip/agents/deep_swe_agent/runtime/src/agent-runner.ts:253-264 | the wall timer claims its kind and starts cleanup, or does nothing |
| AgentRunner.Turn.SilenceTimerFires | wip/agents/deep_swe_agent/runtime/src/agent-runner.ts:266-279 | the silence timer claims and starts the diagnostic, or does nothing |
| AgentRunner.Turn.DiagnosticCompletes | wip/agents/deep_swe_agent/runtime/src/agent-runner.ts:302-334 | a finished diagnostic starts cleanup |
| AgentRunner.Turn.EventArrives | wip/agents/deep_swe_agent/runtime/src/agent-runner.ts:346-400 | what each kind of event does to the shared variables |
| AgentRunner.Turn.LeaveLoop | wip/agents/deep_swe_agent/runtime/src/agent-runner.ts:401-410 | leaving the loop stops both timers and waits |
| AgentRunner.Turn.Step | wip/agents/deep_swe_agent/runtime/src/agent-runner.ts:205-410 | the object with its callbacks refines the transition system |
| AgentRunner.Turn.RunTurn | wip/agents/deep_swe_agent/runtime/src/agent-runner.ts:339-427 | in any order of callbacks the turn returns, and status, text, ok, timeout and error are those that the schedule it went through tells |
| ProcessCleanup.SelectTurnDescendants | wip/agents/deep_swe_agent/runtime/src/turn-process-cleanup.ts:90-121 | terminates for every table with unique pids, cycles included, and yields exactly the pids above 1 whose parent chain reaches the root, without root and exclusions, with the chain length as depth |
| ProcessCleanup.Sweep | wip/agents/deep_swe_agent/runtime/src/turn-process-cleanup.ts:99-106 | one pass adds only true depths, and no change means the depths are closed |
| ProcessCleanup.DepthIsUnique | wip/agents/deep_swe_agent/runtime/src/turn-process-cleanup.ts:96-106 | a process has one depth |
| ProcessCleanup.SelectionIgnoresOrder | wip/agents/deep_swe_agent/runtime/src/turn-process-cleanup.ts:90-121 | the selection does not depend on the order of the table |
| ProcessCleanup.CleanupOrderSorts | wip/agents/deep_swe_agent/runtime/src/turn-process-cleanup.ts:203-206 | deeper first, then the larger pid |
| ProcessCleanup.AncestorsAreShallower | wip/agents/deep_swe_agent/runtime/src/turn-process-cleanup.ts:203-206 | an ancestor below the root has the smaller depth |
| ProcessCleanup.ChildrenGoFirst | wip/agents/deep_swe_agent/runtime/src/turn-process-cleanup.ts:203-238 | in a fresh scope nobody is visited before one of its captured descendants |
| ProcessCleanup.BottomUpIff | wip/agents/deep_swe_agent/runtime/src/turn-process-cleanup.ts:203-206 | without self-parented processes, cleanup order puts nobody before one of its own children exactly when every parent in the scope is shallower than its child, or as deep with a smaller pid |
| ProcessCleanup.MergeScopes | wip/agents/deep_swe_agent/runtime/src/turn-process-cleanup.ts:30-43 | the merged scope of both captures |
| ProcessCleanup.MergedAreKept | wip/agents/deep_swe_agent/runtime/src/turn-process-cleanup.ts:30-43 | the merged scope holds each pid once, with the first of its deepest captures |
| ProcessCleanup.KeptIsTheFirst | wip/agents/deep_swe_agent/runtime/src/turn-process-cleanup.ts:30-43 | of equally deep captures of a pid the first is kept |
| ProcessCleanup.MergedBottomUpIff | wip/agents/deep_swe_agent/runtime/src/turn-process-cleanup.ts:30-43 | a merged scope is ended bottom up exactly when no parent was captured as deep as its kept child, ties going by pid |
| ProcessCleanup.FreshScopesMergeBottomUpIff | wip/agents/deep_swe_agent/runtime/src/turn-process-cleanup.ts:30-43 | for two fresh captures only a parent and child from different captures can break the order, exactly when the parent was captured as deep as the kept child, ties going by pid |
| ProcessCleanup.StayingParentsGoLast | wip/agents/deep_swe_agent/runtime/src/turn-process-cleanup.ts:30-43 | when no process common to both tables was re-parented, the merged scope is ended bottom up |
| ProcessCleanup.MergedScopesCanInvert | wip/agents/deep_swe_agent/runtime/src/turn-process-cleanup.ts:30-43 | two captures around a re-parenting to process 1 whose merged scope is ended parent first |
| ProcessCleanup.CleanupTurnProcessScope | wip/agents/deep_swe_agent/runtime/src/turn-process-cleanup.ts:197-249 | when some captured process runs, TERM and then KILL go to exactly the captured processes that still run, in cleanup order, and the survivors are exactly those that run at the end; otherwise no signal is sent |
| ProcessCleanup.SignalsGoBottomUp | wip/agents/deep_swe_agent/runtime/src/turn-process-cleanup.ts:225-238 | of two signalled processes of a fresh scope the descendant got its signal first |
| ProcessCleanup.KeepIsExact | wip/agents/deep_swe_agent/runtime/src/turn-process-cleanup.ts:225-247 | nobody who passes is skipped, nobody else is kept, and the order stays |
| VerifierPool.Pool.RunAll | wip/agent_eval/patch_scoring.py:327-415 | in every interleaving the semaphore allows, all tasks finish, each with the verdict and the attempts it would have alone, and nothing else is verified |
| VerifierPool.Pool.Acquire | wip/agent_eval/patch_scoring.py:335-336 | a slot is taken only below the limit |
| VerifierPool.Pool.Attempt | wip/agent_eval/patch_scoring.py:345-415 | one call is logged; a conclusive or last verdict is written to disk and frees the slot |
| VerifierPool.SecondAttemptIff | wip/agent_eval/patch_scoring.py:345-371 | one or two attempts, two exactly after a retryable failure, and the last one stands |
| VerifierPool.SomeoneCanMove | wip/agent_eval/patch_scoring.py:640-647 | while tasks are unfinished some coroutine can move |
| JobScoring.ScoreJob | wip/agent_eval/patch_scoring.py:580-659 | with ids that tell stages apart and truthful records every stage gets the status and rewards of verifying its own patch; every row tells where its verdict came from; a patch without a usable record is verified once, with its retry, and recorded in the first trial that has it; nothing else is verified or written |
| JobScoring.OccurrencesAreStages | wip/agent_eval/patch_scoring.py:202-221 | the works of a job are its stages, each with its own trial context and its own patch |
| JobScoring.LookupIsFirst | wip/agent_eval/patch_scoring.py:305-324 | a lookup finds the record of the first directory with a usable one |
| JobScoring.StagesShareWorkIff | wip/agent_eval/patch_scoring.py:202-225 | two stages share one verification exactly when their contexts and their patches are the same |
| JobScoring.ReusedIff | wip/agent_eval/patch_scoring.py:283-324 | a later unforced run reuses the verdict of a stage exactly when it was a success with a numeric reward |
| JobScoring.RevisionsAddUp | wip/agent_eval/patch_scoring.py:731-754 | for a discovered trial with every stage rewarded the deltas a job reports add up to the reward of the last patch less that of the first |
| Scoring.ScoringIsNaive | wip/agent_eval/patch_scoring.py:580-659 | with a truthful cache and no id collision every stage gets the status and rewards that verifying it alone gives |
| Scoring.CollisionsShareVerdicts | wip/agent_eval/patch_scoring.py:599-621 | colliding or not, with any truthful cache a stage gets what verifying the first stage under its id gives |
| Scoring.SecondRunVerifiesIff | wip/agent_eval/patch_scoring.py:283-324 | a later unforced run verifies a fingerprint again exactly when its verdict was no success with a numeric reward |
| Scoring.BooleanRewardsAreVerifiedAgain | wip/agent_eval/patch_scoring.py:283-303 | a Boolean reward of true counts as one and is verified again in the next run |
| Scoring.JobsKeepTheDiskTruthful | wip/agent_eval/patch_scoring.py:395-415 | a job keeps stored results truthful and ids meaningful |
| Scoring.DedupKeepsFirsts | wip/agent_eval/patch_scoring.py:599-621 | one work per id, each the first occurrence, every occurrence covered |
| Scoring.CollectWork | wip/agent_eval/patch_scoring.py:580-621 | one unscored row per stage and the deduplicated works in order |
| Scoring.DiscoveredKeysAreDistinct | wip/agent_eval/patch_scoring.py:599-602 | stages of differently named trials never share a key |
| Scoring.ScanCachedResults | wip/agent_eval/patch_scoring.py:305-324 | the first trial directory with a reusable record decides, in any listing order within a trial |
| Scoring.LookupFinds | wip/agent_eval/patch_scoring.py:305-324 | a record is found exactly when some selected directory offers one |
| Scoring.PendingAreTheMisses | wip/agent_eval/patch_scoring.py:623-631 | the pending works are exactly the cache misses |
| Scoring.RunPending | wip/agent_eval/patch_scoring.py:640-647 | the pending records are in memory and on disk; other files are untouched |
| Scoring.AttachScores | wip/agent_eval/patch_scoring.py:651-659 | every stage row is filled from the work with its id |
| Scoring.RevisionDeltas | wip/agent_eval/patch_scoring.py:740-754 | one delta per changed stage with both ends rewarded |
| Scoring.DeltasTelescope | wip/agent_eval/patch_scoring.py:731-754 | for a discovered trial with every stage rewarded the revision deltas add up to final minus initial |
| ExactTest.ExactPIsATest | wip/agent_eval/patch_scoring.py:228-235 | symmetric, None without discordant pairs, in (0, 1], and 1 exactly for a gap of at most one |
| ExactTest.MoreImbalanceLowersP | wip/agent_eval/patch_scoring.py:228-235 | for a fixed number of pairs the value strictly falls as the gap grows beyond one |
| ExactTest.TailReachesHalfIff | wip/agent_eval/patch_scoring.py:233-235 | the doubled tail reaches the row exactly for a gap of at most one |
| ExactTest.TailsMakeTheRow | wip/agent_eval/patch_scoring.py:233-234 | lower and mirrored upper tail sum to 2^n |
| ExactTest.RowSum | wip/agent_eval/patch_scoring.py:234 | a row of binomials sums to 2^n |
| ExactTest.CumulativeCount | wip/agent_eval/patch_scoring.py:234 | the running sum is the tail |
| ExactTest.PairsAreClassified | wip/agent_eval/patch_scoring.py:430-437 | a pair is complete exactly with both rewards, improved exactly when the final one is larger, harmed exactly when it is smaller |
| ExactTest.TwoByTwoPartitionsIff | wip/agent_eval/patch_scoring.py:452-500 | the four cells partition the complete pairs exactly when no pair moves between two failing rewards |
| ExactTest.BinaryRewardsPartition | wip/agent_eval/patch_scoring.py:452-500 | with rewards zero and one the four cells always partition the complete pairs |
| ExactTest.HalfRewardsOverlap | wip/agent_eval/patch_scoring.py:488-489 | a pair from zero to a half is counted in two cells |
| Usage.Bucket.AccumulateUsage | wip/agents/deep_swe_agent/runtime/src/usage.ts:62-95 | after any sequence of turns the bucket is the batch summary of the sequence |
| Usage.Bucket.AccumulateCounts | wip/agents/deep_swe_agent/runtime/src/usage.ts:67-79 | turns, time, tool uses; token totals exactly while every turn reported |
| Usage.Bucket.AccumulateReports | wip/agents/deep_swe_agent/runtime/src/usage.ts:80-94 | one report slot per turn from the first report on, earlier turns null; sums, coverage and cost follow from the slots |
| Usage.SumReports | wip/agents/deep_swe_agent/runtime/src/usage.ts:37-60 | a detail is summed exactly when every report has it; complete only if all turns reported completely |
| Accounting.BucketAgreesWithBatch | wip/scripts/token_usage.py:191-259 | runtime bucket and batch accounting agree on coverage, observed totals, details and cost |
| Accounting.FlatTotalsAgreeIff | wip/scripts/token_usage.py:233-241 | flat totals are present exactly when no turn lacks tokens, and equal the batch totals exactly unless every turn reported and some turn did not report completely |
| Accounting.PartialReportsDisagree | wip/scripts/token_usage.py:233-241 | one partial report: the bucket shows five tokens each way and the batch totals are withheld |
| Accounting.BucketsAreAcceptedIff | wip/scripts/token_usage.py:126-158 | the batch reader accepts a bucket exactly when a turn carried a report and all slots are valid |
| Accounting.AccountsAreConserved | wip/scripts/token_usage.py:191-259 | turns split into complete, partial and missing on both sides; reported and estimated cost make up the observed cost |
| Accounting.TotalsNeedEveryTurn | wip/scripts/token_usage.py:210-223 | a detail has a complete total exactly when every turn reported it completely |
| Accounting.CostNeedsEveryTurn | wip/scripts/token_usage.py:204-226 | a complete cost exactly when every turn has a reported or completely estimated one |
| Accounting.AggregatesAddUp | wip/scripts/token_usage.py:344-350 | aggregation adds, for every token detail, what was observed and in how many turns, and the observed cost; token and cost coverage are complete exactly when every part is |
| AccountRules.AccountsMean | wip/scripts/token_usage.py:191-259 | every field of an accounting: each count is a number of turns of one kind, each token detail and each cost a sum over turns, each coverage and each total withheld exactly when some turn is missing or partial |
| AccountRules.ReportsAreReadIff | wip/scripts/token_usage.py:126-158 | slots are read exactly with the current schema, one slot a turn, and none with a negative or unknown cost or with tokens of no coverage |
| AccountRules.NormalizedTurnsReadBack | wip/agents/deep_swe_agent/runtime/src/usage.ts:22-35 | the flat form loses nothing: slot, totals, tool uses, time and cost of a recorded turn are those the library reported |
| AccountRules.NativeResolutionsMean | wip/scripts/token_usage.py:63-69 | a reported cost resolves its turn, and a turn without one is left unresolved |
| AccountRules.SumsMean | wip/agents/deep_swe_agent/runtime/src/usage.ts:37-60 | the sum in the bucket has a detail exactly when every reporting turn has it, as the sum over turns, and is complete exactly when every turn reported completely |
| AccountRules.JoinedCountersAddUp | wip/scripts/token_usage.py:344-350 | an aggregate holds the slots and resolutions of its parts and the sums of their counters |
| Quotas.AllocateQuotas | wip/scripts/select_discriminative_tasks.py:508-518 | shares rounded down plus one for the first keys by remainder then name, summing to the size; nothing for no rows or no size |
| Quotas.QuotasAreFair | wip/scripts/select_discriminative_tasks.py:508-518 | each quota is the share rounded down or up, whole shares are exact, and size <= total keeps quotas within the counts |
| Quotas.NoBonusWithoutRemainder | wip/scripts/select_discriminative_tasks.py:514-517 | a key with a whole share gets no bonus |
| Quotas.QuotasAreUnique | wip/scripts/select_discriminative_tasks.py:508-518 | counts and size determine the quotas |
| Quotas.SharesAddUp | wip/scripts/select_discriminative_tasks.py:512-513 | floors and remainders add up to the exact shares |
| Quotas.SortKeys | wip/scripts/select_discriminative_tasks.py:514-516 | all keys, larger remainder first, then by name |
| Quotas.Tally | wip/scripts/select_discriminative_tasks.py:529-533 | the counter of a column |
| Sampling.BalancedSample | wip/scripts/select_discriminative_tasks.py:521-569 | empty for size <= 0, an error for too few rows, otherwise a greedy sample of exactly the size under the allocated quotas |
| Sampling.SampleCoversRepositories | wip/scripts/select_discriminative_tasks.py:552-557 | the sample covers min(size, number of repositories) repositories |
| Sampling.ThirdPicksComeLast | wip/scripts/select_discriminative_tasks.py:553-557 | a repository has a third pick only if every row left out belongs to one with at least two |
| Sampling.PicksAreDistinct | wip/scripts/select_discriminative_tasks.py:567-568 | picks are distinct candidates |
| Sampling.SampleIsDetermined | wip/scripts/select_discriminative_tasks.py:538-566 | with the draws fixed the sample is determined |
| Sampling.QuotasAreWithinReach | wip/scripts/select_discriminative_tasks.py:529-533 | no quota exceeds the candidates of its value |
| Sampling.EligibleRows | wip/scripts/select_discriminative_tasks.py:553-557 | one pick per repository while one is unused, two after that, anything when all have two |
| Sampling.Best | wip/scripts/select_discriminative_tasks.py:558-566 | an eligible row that none beats in deficit, rank, draw, id |
| SamplingRules.BonusMeans | wip/scripts/select_discriminative_tasks.py:538-550 | the bonus of a row: one and a half for a language below its quota, one for a difficulty, three quarters for a patch size |
| SamplingRules.PicksFillQuotas | wip/scripts/select_discriminative_tasks.py:558-566 | among eligible rows equal in the other columns the pick has a value below its quota when one has; a short language yields only to a short difficulty and patch size together; between equals rank, draw and id decide |
| SamplingRules.EligibleIff | wip/scripts/select_discriminative_tasks.py:552-557 | rows of unused repositories first, then of those used once, then all |
| SamplingRules.LargerFractionsRoundUp | wip/scripts/select_discriminative_tasks.py:514-517 | of two groups of which one is rounded up it has the larger fraction, or an equal one and the earlier name |
| Grader.ResultIsTheWorst | tasks/abs-module-cache-flags/tests/grader.py:179-187 | the merged status is the worst reported, the message the first non-empty one at that rank, none when passed |
| Grader.ReportsMergeAsOne | tasks/abs-module-cache-flags/tests/grader.py:287-290 | merging per report and then across reports equals one merge of all cases, in any item order |
| Grader.Report.Add | tasks/abs-module-cache-flags/tests/grader.py:179-187 | one more entry in the merge |
| Grader.MergeReports | tasks/abs-module-cache-flags/tests/grader.py:287-290 | the table is the merge of every named case of every readable report |
| Grader.Report.Parse | tasks/abs-module-cache-flags/tests/grader.py:190-252 | a report file becomes the merge of its named cases, none when it cannot be parsed |
| Grader.JunitStatus | tasks/abs-module-cache-flags/tests/grader.py:222-231 | the scan over the marks of a case gives its verdict |
| Grader.VerdictIsTheWorstMark | tasks/abs-module-cache-flags/tests/grader.py:222-231 | a JUnit case fails exactly with a failure or error mark and passes exactly without these and without a skip mark |
| Grader.WhitelistNamesEachOnce | tasks/abs-module-cache-flags/tests/grader.py:260-268 | each non-blank line once |
| Grader.LoadIds | tasks/abs-module-cache-flags/tests/grader.py:260-268 | the ids in first-occurrence order |
| Grader.Bucket | tasks/abs-module-cache-flags/tests/grader.py:292-308 | pass and fail counts and one row per id, missing ones failed |
| Grading.GradeReports | tasks/abs-module-cache-flags/tests/grader.py:255-328 | reward 1 exactly when some id is to be fixed and every listed id has a case in some readable report and every raw case of it passed; the counts are those of such ids, the rates passed over listed; no passes when the patch did not apply |
| Grading.StatusesMean | tasks/abs-module-cache-flags/tests/grader.py:170-176 | a status passes exactly as the word passed, stripped and in any letter case, skips as one of three words, and fails otherwise |
| Grading.CtrfCasesMean | tasks/abs-module-cache-flags/tests/grader.py:200-219 | a CTRF case is read exactly when it is a named object, with its stripped name, behind its suite only when qualified and not blank; status and message are those of the case |
| Grading.JunitCasesMean | tasks/abs-module-cache-flags/tests/grader.py:222-252 | a JUnit case is read exactly when it is named, behind its class name when there is one; it fails exactly with a failure or error mark, with the text of the first, and passes exactly without these and without a skip mark |
| Grading.EntriesPassIff | tasks/abs-module-cache-flags/tests/grader.py:287-290 | the merged entries say that an id passes everywhere exactly when the files do |
| Grading.StripMeans | tasks/abs-module-cache-flags/tests/grader.py:171 | stripping removes exactly the white space at both ends |
| Grader.RatesDecideReward | tasks/abs-module-cache-flags/tests/grader.py:273-279 | rates lie in [0, 1] and reward 1 is exactly both rates one |
| Grader.WorseningNeverHelps | tasks/abs-module-cache-flags/tests/grader.py:179-187 | worse entries never raise a pass count or the reward |

## Left out

- CollabEngine.Engine.Run: thrown git and disk errors are left out; after one, HEAD need not be the last checkpoint, so nothing is claimed about such runs.
- CollabEngine.Engine.Finalize: the branches that catch a thrown git or disk error are left out.
- Discovery.RoundEntries: `\d` in the reader's pattern also accepts Unicode digits, which no writer here produces; the model accepts ASCII digits only.
- Prompts, event traces, session resumption, finding counters and per-turn usage inside the loop: none of them decides a branch of it. The usage bucket is modelled on its own.
- The reviewer's copy of the repository: a review turn is assumed to leave the task repository alone.
- Git directories inside the work tree, file modes and conflicts between a file and a directory of the same name: a tree maps paths to contents.
- RoundTrip.AcceptedIffReadable: assumes a well-formed trial envelope and that the graded `model.patch` is the engine's final patch, both written outside the modelled code.
- ReviewSchema.ParseFindings: lower-casing covers the ASCII letters, which is exact for the words it is compared with, and a JSON number counts as finite for the `line` field.
- Text is a sequence of Unicode characters in the scanner and the printer, so a lone surrogate in the reviewer's raw output is not modelled; decoded JSON strings are sequences of UTF-16 units.
- Process signals, `/proc` and `ps`: whether a process runs, is a zombie or can be signalled is arbitrary at every moment; the grace periods and the error list of a cleanup are left out.
- `reuse_final_score`, conformance against the evaluation's own reward, job-level artifacts, exit codes and the CSV and JSON output of the scorer.
- JobScoring.ScoreJob: assumes that stored results are truthful and that the 64-bit ids of one job do not collide; without the second assumption Scoring.CollisionsShareVerdicts says what happens.
- The task-clustered bootstrap interval: it depends on a library random generator.
- Floating point: rewards, rates, shares, the p-value and costs are exact. Ties and orders that only rounding creates are not modelled.
- Accounting.Reports: slots are typed, so malformed numbers and missing totals in a hand-edited summary are not modelled.
- Currency and per-model grouping of usage records, cost estimation by a subprocess, trials skipped for missing files.
- `wip/agents/deep_swe_agent/runtime/src/single-engine.ts` is a smaller copy of the loop.
- Docker, Pier, container glue, command-line parsing, network allow-lists, planning and profiles: subprocesses, libraries or flat validation.
- XML parsing itself and report paths are not modelled; lower-casing of report statuses is exact for the words they are compared with.
- Layers, bands and correlations of the task selection: flat arithmetic.
