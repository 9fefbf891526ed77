/** What a finished run tells about its clock, its turns and its failures, read off its record. */
module EngineRules {
  import opened Git
  import opened Options
  import A = AgentRunner
  import E = CollabEngine

  // ------------------------------------------------------------------------- the clock

  /** The seconds left at a reading of the clock, none once the run's time is used up. */
  function SecondsLeft(run: E.RunRecord, now: int): real {
    var left := run.cfg.totalTimeoutSec - (now - run.startedAt) as real / 1000.0;
    if left >= 0.0 then left else 0.0
  }

  predicate IsLate(run: E.RunRecord, now: int) {
    (now - run.startedAt) as real >= run.cfg.totalTimeoutSec * 1000.0
  }

  /** The limit that the settings give a turn of this round: none at first, then one for each half of a round. */
  function OwnLimit(run: E.RunRecord, i: nat): Option<real> {
    if i == 0 then None else if i % 2 == 1 then run.cfg.reviewerTimeoutSec else run.cfg.revisionTimeoutSec
  }

  /** A round reached its end: a review was read, or a modifier's work was checkpointed. */
  predicate Reached(run: E.RunRecord, i: nat)
    requires i < |run.rounds|
  {
    if i % 2 == 1 then run.rounds[i].review.Some? else i / 2 < |run.states|
  }

  lemma LeftMeans(run: E.RunRecord, now: int)
    requires run.rules.deadline == run.startedAt as real + run.cfg.totalTimeoutSec * 1000.0
    ensures E.LeftAt(run.rules.deadline, now) == SecondsLeft(run, now)
    ensures now as real >= run.rules.deadline <==> IsLate(run, now)
  {
    assert (run.rules.deadline - now as real) / 1000.0 == run.cfg.totalTimeoutSec - (now - run.startedAt) as real / 1000.0;
  }

  lemma RunsAreTimed(run: E.RunRecord)
    requires E.EngineRun(run)
    ensures run.rules.deadline == run.startedAt as real + run.cfg.totalTimeoutSec * 1000.0
    ensures |run.rounds| == |run.turns| == |run.refusals| > 0
  {
    hide E.KeepsProtocol, E.Follows, E.AllReal, E.FailuresExplain, E.RefusalFits, E.Clocked;
  }

  /** The attempts of a round, what its metadata says of them, and the repository that a modifier round found. */
  lemma RoundsFit(run: E.RunRecord, i: nat) returns (found: Commit)
    requires E.EngineRun(run) && i < |run.turns|
    ensures |run.rounds| == |run.turns| == |run.refusals|
    ensures E.AttemptsFit(run.cfg, i, run.rounds[i].metadata, run.turns[i], found, run.rules)
    ensures E.RefusalFits(run.cfg, run.rules, i, run.turns[i], found, run.refusals[i])
    ensures Reached(run, i) <==> E.Concluded(i, run.turns[i], found, run.rules)
    ensures i % 2 == 1 ==> E.IsReply(run.rounds[i].review, run.turns[i])
  {
    hide E.KeepsProtocol, E.AllReal, E.FailuresExplain, E.AttemptsFit, E.Chained, E.Changes, E.RepoAfter, E.CommitOf, E.Clocked;
    assert E.RoundFollows(run.cfg, run.rules, run.start, run.rounds, run.states, run.turns, i);
    found := E.FoundAt(i, run.start, run.states, run.turns).head;
    assert E.RefusalFits(run.cfg, run.rules, i, run.turns[i], run.start.head, run.refusals[i]);
    ResetMatters(run, i, run.start.head, found);
    if i % 2 == 1 {
      RepliesConclude(run, i, found);
    }
  }

  lemma RepliesConclude(run: E.RunRecord, i: nat, reset: Commit)
    requires i % 2 == 1 && i < |run.rounds| == |run.turns| && E.IsReply(run.rounds[i].review, run.turns[i])
    ensures Reached(run, i) <==> E.Concluded(i, run.turns[i], reset, run.rules)
  {
    hide E.Changes;
  }

  /** Only the initial round's end depends on the commit it started from. */
  lemma ResetMatters(run: E.RunRecord, i: nat, a: Commit, b: Commit)
    requires i < |run.turns| == |run.refusals| && (i == 0 ==> a == b)
    ensures E.RefusalFits(run.cfg, run.rules, i, run.turns[i], a, run.refusals[i]) <==>
            E.RefusalFits(run.cfg, run.rules, i, run.turns[i], b, run.refusals[i])
  {
    hide E.Changes, E.LeftAt;
  }

  /**
   * Every turn was launched with enough time left, and got its own limit when that fitted and otherwise
   * all that was left.
   */
  lemma LaunchesAreLimited(run: E.RunRecord, i: nat, k: nat)
    requires E.EngineRun(run) && i < |run.turns| && k < |run.turns[i]|
    ensures var t, own := run.turns[i][k], OwnLimit(run, i);
            var left := SecondsLeft(run, t.launch.startedAt);
            && SecondsLeft(run, t.launch.checkedAt) >= run.cfg.minTurnSec && t.launch.checkedAt <= t.launch.startedAt
            && if own.Some? && own.value <= left
               then t.kind == A.StageTimeout && t.launch.timeoutMs == (own.value * 1000.0).Floor
               else t.kind == A.TotalDeadline && t.launch.timeoutMs == (left * 1000.0).Floor
  {
    hide E.EngineRun, E.Concludes, E.RecordedTimeout, E.LeftAt, SecondsLeft, Reached, E.RefusalFits;
    var found := RoundsFit(run, i);
    RunsAreTimed(run);
    var t := run.turns[i][k];
    assert E.IsAllowed(run.cfg, run.rules, i, t);
    LeftMeans(run, t.launch.checkedAt);
    LeftMeans(run, t.launch.startedAt);
  }

  /** Attempts stop before they are used up only at the end of the round or when too little time was left. */
  lemma AttemptsStopOnlyLate(run: E.RunRecord, i: nat)
    requires E.EngineRun(run) && i < |run.turns|
    ensures |run.rounds| == |run.turns| == |run.refusals| && |run.turns[i]| <= run.cfg.maxAgentAttempts
    ensures run.refusals[i].Some? <==> !Reached(run, i) && |run.turns[i]| < run.cfg.maxAgentAttempts
    ensures run.refusals[i].Some? ==> SecondsLeft(run, run.refusals[i].value) < run.cfg.minTurnSec
  {
    hide E.EngineRun, E.Concluded, E.Concludes, E.RecordedTimeout, E.LeftAt, SecondsLeft, Reached, E.IsAllowed;
    var found := RoundsFit(run, i);
    RunsAreTimed(run);
    if run.refusals[i].Some? {
      LeftMeans(run, run.refusals[i].value);
    }
  }

  /** The last round leaves nothing to explain: it reached its end. */
  predicate EndsWell(run: E.RunRecord)
    requires run.rounds != []
  {
    Reached(run, |run.rounds| - 1)
  }

  /**
   * Before every further round the clock was read and the run was not late. A degraded run whose last
   * round reached its end was stopped by one more reading, which was late; no other run was.
   */
  lemma OnlyLatenessStops(run: E.RunRecord)
    requires E.EngineRun(run) && run.states != []
    ensures run.rounds != []
    ensures var stopped := run.loopOutcome == E.Degraded && EndsWell(run);
            && |run.checks| == |run.rounds| - 1 + (if stopped then 1 else 0)
            && (forall n :: 0 <= n < |run.rounds| - 1 ==> !IsLate(run, run.checks[n]))
            && (stopped ==> IsLate(run, run.checks[|run.rounds| - 1]) && run.result.degradedReason == Some(E.DeadlineReached))
  {
    hide E.TurnsExplain, E.AllReal, E.FailuresExplain, E.RefusalsFit, E.History, IsLate, E.RoundAt, E.AbortedSuccess,
         E.Succeeded, E.RanOutOfTime, E.InitialTurnFailed, E.Blocks;
    assert E.LoopCompleted(run) by { StatesMeanALoop(run); }
    VerdictsAtTheEnd(run);
    var r := run.result;
    forall n | 0 <= n < |run.checks| ensures run.checks[n] as real >= run.rules.deadline <==> IsLate(run, run.checks[n]) {
      LeftMeans(run, run.checks[n]);
    }
  }

  lemma StatesMeanALoop(run: E.RunRecord)
    requires E.KeepsProtocol(run) && run.states != []
    ensures E.LoopCompleted(run)
  {
    hide E.LoopCompleted;
  }

  /** The last round of a loop reached its end exactly when its review was counted, or its work. */
  lemma VerdictsAtTheEnd(run: E.RunRecord)
    requires E.LoopCompleted(run)
    ensures var r := run.result;
            var done := 2 * r.revisionCount + 1;
            && done <= |run.rounds| <= done + 2
            && (EndsWell(run) <==> |run.rounds| == done || (|run.rounds| == done + 1 && r.reviewCount == r.revisionCount + 1))
  {
    hide E.History, E.ExitFits, E.RoundAt, E.Succeeded, E.Blocks;
    var r := run.result;
    var done := 2 * r.revisionCount + 1;
    if |run.rounds| == done + 1 {
      assert done % 2 == 1 && done / 2 == r.revisionCount;
    }
  }

  // ------------------------------------------------------------------------- the metadata

  /** The attempts that failed: all of them, or all but the one that reached the end. */
  function FailedTurns(run: E.RunRecord, i: nat): seq<E.AgentTurn>
    requires i < |run.rounds| && i < |run.turns|
  {
    var own := run.turns[i];
    if Reached(run, i) && own != [] then own[..|own| - 1] else own
  }

  /**
   * The metadata of a round lists its turns one by one, and its timeout is the deadline when another
   * attempt was refused and otherwise that of the last attempt that failed.
   */
  lemma RoundsRecordTheirTurns(run: E.RunRecord, i: nat)
    requires E.EngineRun(run) && i < |run.turns|
    ensures |run.rounds| == |run.turns| == |run.refusals| && run.rounds[i].metadata.Some?
    ensures var meta, own, failed := run.rounds[i].metadata.value, run.turns[i], FailedTurns(run, i);
            && (meta.role == E.Reviewer <==> i % 2 == 1)
            && |meta.attempts| == |own|
            && (forall k :: 0 <= k < |own| ==>
                  && meta.attempts[k].number == k + 1 && meta.attempts[k].status == own[k].result.status
                  && meta.attempts[k].timeoutKind == own[k].result.timeoutKind)
            && meta.timeoutKind ==
               if run.refusals[i].Some? then Some(A.TotalDeadline)
               else if failed == [] then None
               else failed[|failed| - 1].result.timeoutKind
  {
    hide E.EngineRun, E.Concluded, E.IsAllowed, Reached, E.LeftAt;
    var found := RoundsFit(run, i);
    var own, concluded := run.turns[i], E.Concluded(i, run.turns[i], found, run.rules);
    if concluded {
      ConcludedHasTurns(run, i, found);
    }
  }

  lemma ConcludedHasTurns(run: E.RunRecord, i: nat, found: Commit)
    requires i < |run.turns| && E.Concluded(i, run.turns[i], found, run.rules)
    ensures run.turns[i] != []
  {
    hide E.Concludes;
  }

  // ------------------------------------------------------------------------- failures

  /** A phase ran out of time: another attempt was refused, or the last one was aborted by a timeout. */
  predicate RanOut(run: E.RunRecord, i: nat)
    requires i < |run.turns| == |run.refusals|
  {
    var own := run.turns[i];
    run.refusals[i].Some? || (own != [] && !own[|own| - 1].result.ok && own[|own| - 1].result.timeoutKind.Some?)
  }

  /** The last attempt went through, and yet the round did not reach its end. */
  predicate WentThrough(run: E.RunRecord, i: nat)
    requires i < |run.turns| == |run.refusals|
  {
    var own := run.turns[i];
    run.refusals[i] == None && own != [] && own[|own| - 1].result.ok
  }

  /**
   * A failed run tells why. A start that failed ran out of time, changed nothing, or failed; a last round
   * that failed degrades the run for lack of time, for a review that does not parse, or for its failure.
   */
  lemma FailuresAreTold(run: E.RunRecord)
    requires E.EngineRun(run)
    ensures |run.rounds| == |run.turns| == |run.refusals| > 0
    ensures run.states == [] ==>
              run.result.outcome == (if RanOut(run, 0) then E.TimedOut else if WentThrough(run, 0) then E.EmptyPatch else E.ModifierFailed)
    ensures run.states != [] && !EndsWell(run) ==>
              var last := |run.rounds| - 1;
              && run.loopOutcome == E.Degraded
              && run.result.degradedReason ==
                 Some(if RanOut(run, last) then E.DeadlineReached
                      else if last % 2 == 0 then E.RevisionFailed
                      else if WentThrough(run, last) then E.InvalidReviewOutput
                      else E.ReviewerFailed)
  {
    hide E.KeepsProtocol, E.TurnsExplain, E.AllReal, E.KeepsTime, E.ReviewFailure, E.PhaseFailure, Reached, RanOut, WentThrough,
         E.LoopCompleted, E.OutcomeOf;
    RunsAreTimed(run);
    var last := |run.rounds| - 1;
    if run.states == [] {
      PhasesAreTold(run, 0);
      assert !Reached(run, 0) by { NothingReached(run); }
    } else {
      StatesMeanALoop(run);
      VerdictsAtTheEnd(run);
      LoopsThatFail(run);
      if !EndsWell(run) {
        PhasesAreTold(run, last);
      }
    }
  }

  lemma NothingReached(run: E.RunRecord)
    requires run.states == [] && run.rounds != []
    ensures !Reached(run, 0)
  {
  }

  lemma LoopsThatFail(run: E.RunRecord)
    requires E.LoopCompleted(run)
    ensures var r := run.result;
            var done := 2 * r.revisionCount + 1;
            && (|run.rounds| == done + 2 ==> run.loopOutcome == E.Degraded)
            && (|run.rounds| == done + 1 && r.reviewCount != r.revisionCount + 1 ==>
                  run.loopOutcome == E.Degraded && r.reviewCount == r.revisionCount)
  {
    hide E.History, E.RoundAt, E.Succeeded, E.Blocks, E.Verdicts, E.ReasonFits, E.AbortedSuccess;
  }

  /** How a phase that did not reach its end failed. */
  lemma PhasesAreTold(run: E.RunRecord, i: nat)
    requires E.EngineRun(run) && i < |run.turns|
    ensures |run.rounds| == |run.turns| == |run.refusals|
    ensures !Reached(run, i) ==>
              && E.OutcomeOf(E.PhaseFailure(run.cfg, run.turns[i])) ==
                 (if RanOut(run, i) then E.TimedOut else if WentThrough(run, i) then E.EmptyPatch else E.ModifierFailed)
              && (E.PhaseFailure(run.cfg, run.turns[i]) == E.FailTimeout <==> RanOut(run, i))
              && E.ReviewFailure(run.cfg, run.turns[i]) ==
                 (if RanOut(run, i) then E.DeadlineReached else if WentThrough(run, i) then E.InvalidReviewOutput else E.ReviewerFailed)
  {
    hide E.EngineRun, E.Concluded, E.IsAllowed, E.AttemptsFit, E.LeftAt, Reached;
    AttemptsStopOnlyLate(run, i);
  }

  // ------------------------------------------------------------------------- the repository

  /** The commit that a modifier round starts from. */
  function StartsFrom(run: E.RunRecord, i: nat): Commit
    requires 0 < i ==> i / 2 - 1 < |run.states| && i >= 2
  {
    if i == 0 then run.start.head else run.states[i / 2 - 1]
  }

  /**
   * Every modifier attempt starts from the last checkpoint with nothing staged: the first of a revision
   * with the working tree that the modifier before left, a further one with the failed attempt rolled back.
   */
  lemma ModifiersStartClean(run: E.RunRecord, i: nat, k: nat)
    requires E.EngineRun(run) && i < |run.turns| && i % 2 == 0 && k < |run.turns[i]|
    ensures i > 0 ==> i >= 2 && i / 2 - 1 < |run.states| && run.turns[i - 2] != []
    ensures var found, earlier := run.turns[i][k].before, if i >= 2 then run.turns[i - 2] else [];
            && found.head == StartsFrom(run, i)
            && (i > 0 || k > 0 ==> found.index == found.head.tree)
            && (i == 0 && k == 0 ==> found == run.start)
            && (i > 0 && k == 0 ==> found.worktree == earlier[|earlier| - 1].after.worktree)
            && (k > 0 ==>
                  var failed := run.turns[i][k - 1];
                  if failed.result.ok then i == 0 && found.worktree == failed.after.worktree && failed.after.head == found.head
                  else found.worktree == RolledBack(failed.after.worktree, failed.after.index, found.head.tree,
                                                    run.rules.baseline, run.rules.ignores))
  {
    hide E.KeepsTime, E.AllReal, E.FailuresExplain, E.IsAllowed, E.RecordedTimeout, Staged, RolledBack, E.CommitOf, E.MessageAt,
         E.ExitFits, E.History, E.Verdicts, E.RoundAt;
    assert E.RoundFollows(run.cfg, run.rules, run.start, run.rounds, run.states, run.turns, i);
    var found := E.FoundAt(i, run.start, run.states, run.turns);
    var own := run.turns[i];
    FoundAtIsAtRest(run, i);
    E.HeadStays(run.cfg, i, run.rounds[i].metadata, own, found, run.rules);
    assert E.FindsWhatWasLeft(own, k, found, run.rules);
    if k > 0 {
      assert !E.Concludes(i, own[k - 1], found.head, run.rules);
    }
  }

  lemma FoundAtIsAtRest(run: E.RunRecord, i: nat)
    requires E.KeepsProtocol(run) && E.TurnsExplain(run) && i < |run.turns| && i % 2 == 0
    ensures i > 0 ==> i >= 2 && i / 2 - 1 < |run.states| && run.turns[i - 2] != []
    ensures var found := E.FoundAt(i, run.start, run.states, run.turns);
            && found.head == StartsFrom(run, i)
            && (i == 0 ==> found == run.start)
            && (i > 0 ==> found.index == found.head.tree
                          && found.worktree == run.turns[i - 2][|run.turns[i - 2]| - 1].after.worktree)
  {
    hide E.AttemptsFit, E.Chained, E.CommitOf, E.MessageAt, E.RepoAfter, E.Concludes, E.ExitFits, E.History, E.Verdicts, E.RoundAt;
    if i > 0 {
      assert E.RoundFollows(run.cfg, run.rules, run.start, run.rounds, run.states, run.turns, i - 2);
      assert (i - 2) / 2 == i / 2 - 1;
    }
  }

  /**
   * Every checkpoint holds exactly what its last turn left in the working tree: the tracked files, and
   * of the new ones those that git does not hide and that were not there untracked at the start.
   */
  lemma CheckpointsHoldTheWork(run: E.RunRecord, i: nat, p: Path)
    requires E.EngineRun(run) && i < |run.states|
    ensures 2 * i < |run.turns| && run.turns[2 * i] != [] && run.turns[2 * i][|run.turns[2 * i]| - 1].result.ok
    ensures var left, tree := run.turns[2 * i][|run.turns[2 * i]| - 1].after, run.states[i].tree;
            && (p in tree <==>
                  p in left.worktree && (p in left.index || (p !in run.rules.ignores(left.worktree) && p !in run.rules.baseline)))
            && (p in tree ==> tree[p] == left.worktree[p])
  {
    hide E.FoundAt, E.AttemptsFit, E.Chained, E.ExitFits, E.History, E.Verdicts, E.AllReal, E.KeepsTime, E.FailuresExplain,
         Staged, RolledBack, E.MessageAt, E.RoundAt, E.Changes;
    assert (2 * i) / 2 == i && (2 * i) % 2 == 0;
    assert E.RoundFollows(run.cfg, run.rules, run.start, run.rounds, run.states, run.turns, 2 * i);
    var left := run.turns[2 * i][|run.turns[2 * i]| - 1].after;
    StagingMeans(left.worktree, left.index, run.rules.baseline, run.rules.ignores, p);
  }
}
