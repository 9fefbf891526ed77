/** The deterministic review loop: initial modify, then review and revise until a verdict stands. */
module CollabEngine {
  import opened Git
  import opened Options
  import A = AgentRunner
  import ReviewSchema

  datatype Config = Config(
    maxReviews: nat,
    maxAgentAttempts: nat,
    reviewerTimeoutSec: Option<real>,
    revisionTimeoutSec: Option<real>,
    totalTimeoutSec: real,
    minTurnSec: real,
    strict: bool
  )

  datatype Outcome =
    | Approved | MaxReviewsReached | Degraded
    | ModifierFailed | TimedOut | EmptyPatch | CheckpointFailed

  datatype DegradedReason = ReviewerFailed | InvalidReviewOutput | RevisionFailed | DeadlineReached

  predicate IsDeliverable(outcome: Outcome, strict: bool) {
    outcome in {Approved, MaxReviewsReached} || (outcome == Degraded && !strict)
  }

  type TimeoutKind = A.TimeoutKind

  datatype TurnResult = TurnResult(
    ok: bool, status: string, timeoutKind: Option<TimeoutKind>, finalText: string)

  const SUCCESS := "success"

  /** What a turn reports at the end of a schedule of its callbacks, told by the schedule alone. */
  ghost predicate ReturnsAfter(setup: A.Setup, schedule: seq<A.Event>, result: TurnResult) {
    var end, claim := A.Play(A.START, setup, schedule), A.FirstClaim(setup, schedule);
    && end.Some? && end.value.phase == A.Returned
    && result.status == A.LastStatus(setup, schedule) && result.finalText == A.FinalText(schedule)
    && (result.ok <==> result.status == SUCCESS && claim == None) && result.timeoutKind == A.TimeoutOf(claim)
  }

  /** Some order of callbacks makes a turn with this wall-clock limit report this. */
  ghost predicate CanReturn(kind: A.WallClockKind, result: TurnResult) {
    exists answersRequests, schedule :: ReturnsAfter(A.Setup(kind, answersRequests), schedule, result)
  }

  // ------------------------------------------------------ what the engine writes

  datatype Role = Modifier | Reviewer
  datatype RoundKind = Modify | Review | Revise | FinalRevision

  datatype Attempt = Attempt(number: nat, status: string, timeoutKind: Option<TimeoutKind>)
  datatype Metadata = Metadata(role: Role, attempts: seq<Attempt>, timeoutKind: Option<TimeoutKind>)
  datatype RoundId = RoundId(number: nat, kind: RoundKind)
  datatype RoundDir = RoundDir(
    id: RoundId, metadata: Option<Metadata>, patch: Option<Patch>, review: Option<ReviewSchema.Review>)

  function Digits(n: nat): (s: string)
    ensures |s| > 0 && forall c :: c in s ==> '0' <= c <= '9'
  {
    var last := ["0123456789"[n % 10]];
    if n < 10 then last else Digits(n / 10) + last
  }

  function KindName(kind: RoundKind): string {
    match kind
    case Modify => "modify"
    case Review => "review"
    case Revise => "revise"
    case FinalRevision => "final-revision"
  }

  function RevisionMessage(cfg: Config, round: nat): string {
    if round == cfg.maxReviews then "collab: final revision" else "collab: revision " + Digits(round)
  }

  /** The directory name of a round: its number padded to two digits, then its kind. */
  function RoundName(id: RoundId): string {
    (if id.number < 10 then "0" else "") + Digits(id.number) + "-" + KindName(id.kind)
  }

  predicate Succeeded(round: RoundDir) {
    round.metadata.Some? && |round.metadata.value.attempts| > 0
    && round.metadata.value.attempts[|round.metadata.value.attempts| - 1].status == SUCCESS
  }

  /** The review of the round has blocking findings. */
  predicate Blocks(round: RoundDir) {
    round.review.Some? && round.review.value.hasBlockingFindings
  }

  /** The turn of the round ended for lack of time. */
  predicate RanOutOfTime(round: RoundDir) {
    round.metadata.Some? && round.metadata.value.timeoutKind.Some?
  }

  function RevisionKind(cfg: Config, round: nat): RoundKind {
    if round == cfg.maxReviews then FinalRevision else Revise
  }

  /**
   * Round directory i of a run whose successive checkpoint states are `states`: the initial turn,
   * then reviews on odd numbers with the patch under review, then revisions on even numbers.
   */
  predicate RoundAt(cfg: Config, base: Commit, round: RoundDir, i: nat, states: seq<Commit>) {
    round.metadata.Some? &&
    if i % 2 == 1 then
      && round.id == RoundId(i, Review)
      && round.metadata.value.role == Reviewer
      && i / 2 < |states|
      && round.patch == Some(Diff(base.tree, states[i / 2].tree))
    else
      && round.id == RoundId(i, if i == 0 then Modify else RevisionKind(cfg, i / 2))
      && round.metadata.value.role == Modifier
      && round.patch == None
  }

  /** Exactly the counted reviews were recorded, and each one a counted revision answers was blocking. */
  ghost predicate Verdicts(rounds: seq<RoundDir>, reviewCount: nat, revisionCount: nat) {
    forall i :: 0 <= i < |rounds| && i % 2 == 1 ==>
      && (rounds[i].review.Some? <==> i / 2 < reviewCount)
      && (rounds[i].review.Some? ==> ReviewSchema.Consistent(rounds[i].review.value))
      && (i / 2 < revisionCount ==> Blocks(rounds[i]))
  }

  /** The round directories of a run that got past its initial turn. */
  ghost predicate Layout(cfg: Config, base: Commit, rounds: seq<RoundDir>, states: seq<Commit>,
                         reviewCount: nat, revisionCount: nat)
  {
    var done := 2 * revisionCount + 1;
    && |states| == revisionCount + 1
    && done <= |rounds| <= done + 2
    && |rounds| <= 2 * cfg.maxReviews + 1
    && (forall i :: 0 <= i < |rounds| ==> RoundAt(cfg, base, rounds[i], i, states))
    && (forall i :: 0 <= i < done ==> Succeeded(rounds[i]))
    && revisionCount <= reviewCount <= revisionCount + 1
    && (|rounds| == done ==> reviewCount == revisionCount)
    && (|rounds| == done + 2 ==> reviewCount == revisionCount + 1)
    && (reviewCount == revisionCount + 1 ==> Succeeded(rounds[done]))
    && Verdicts(rounds, reviewCount, revisionCount)
  }

  /** Every revision moved the tree, except a last one that the engine flagged as a no-change. */
  ghost predicate Progress(states: seq<Commit>, noChangeRevision: bool) {
    && (noChangeRevision ==> |states| >= 2 && states[|states| - 1] == states[|states| - 2])
    && forall i :: 0 <= i < |states| - 1 && !(noChangeRevision && i == |states| - 2) ==>
         states[i].tree != states[i + 1].tree
  }

  /**
   * Every checkpoint is one of the states. Without HEAD moves each revision made progress, and the
   * checkpoints are the states in order, the no-change one left out.
   */
  ghost predicate History(states: seq<Commit>, checkpoints: seq<Saved>,
                          noChangeRevision: bool, headMoved: bool)
  {
    && (forall c :: c in checkpoints ==> c.commit in states)
    && (!headMoved ==>
          && Progress(states, noChangeRevision)
          && |checkpoints| == |states| - (if noChangeRevision then 1 else 0)
          && forall i :: 0 <= i < |checkpoints| ==> checkpoints[i].commit == states[i])
  }

  lemma HistoryGrows(states: seq<Commit>, checkpoints: seq<Saved>, headMoved: bool,
                     next: Commit, after: seq<Saved>, message: string, changed: bool)
    requires |states| > 0 && History(states, checkpoints, false, headMoved)
    requires after == checkpoints || after == checkpoints + [Saved(message, next)]
    requires !headMoved ==> (changed <==> after != checkpoints)
    requires !changed ==> next == states[|states| - 1]
    requires changed && !headMoved ==> next.tree != states[|states| - 1].tree
    ensures History(states + [next], after, !changed, headMoved)
  {
    forall c | c in after
      ensures c.commit in states + [next]
    {
      if c in checkpoints {
        assert c.commit in states;
      }
    }
  }

  /** Neither the base nor any later state tracks a path of the baseline. */
  ghost predicate NeverTracks(baseline: set<Path>, base: Commit, states: seq<Commit>) {
    baseline !! base.tree.Keys && forall s :: s in states ==> baseline !! s.tree.Keys
  }

  lemma NeverTracksGrows(baseline: set<Path>, base: Commit, states: seq<Commit>, next: Commit)
    requires NeverTracks(baseline, base, states) && baseline !! next.tree.Keys
    ensures NeverTracks(baseline, base, states + [next])
  {
  }

  datatype Saved = Saved(message: string, commit: Commit)

  lemma CheckpointsNeverTrack(baseline: set<Path>, base: Commit, states: seq<Commit>, saved: seq<Saved>,
                              noChangeRevision: bool, headMoved: bool)
    requires NeverTracks(baseline, base, states)
    requires saved == [] || History(states, saved, noChangeRevision, headMoved)
    ensures forall c :: c in saved ==> baseline !! c.commit.tree.Keys
  {
    hide Progress;
  }

  // ------------------------------------------------------ what the agents did

  /** The seconds that are left at a moment in milliseconds. */
  function LeftAt(deadline: real, t: int): real {
    var left := (deadline - t as real) / 1000.0;
    if left < 0.0 then 0.0 else left
  }

  /** When the time left was checked, when the turn started, and its limit. */
  datatype Launch = Launch(checkedAt: int, startedAt: int, timeoutMs: int)

  /** An agent is launched only after the check, and never with more time than was left. */
  predicate WithinBudget(cfg: Config, deadline: real, launch: Launch) {
    && LeftAt(deadline, launch.checkedAt) >= cfg.minTurnSec
    && launch.checkedAt <= launch.startedAt
    && launch.timeoutMs as real <= LeftAt(deadline, launch.startedAt) * 1000.0
  }

  /** The stage's own limit when that fits, otherwise what is left. */
  predicate IsLimitedBy(deadline: real, stage: Option<real>, kind: A.WallClockKind, launch: Launch) {
    var left := LeftAt(deadline, launch.startedAt);
    var fits := stage.Some? && stage.value <= left;
    && (kind == A.StageTimeout <==> fits)
    && launch.timeoutMs == ((if fits then stage.value else left) * 1000.0).Floor
  }

  /** One agent turn: its time limit, what it reported, the repository it found and left, and the review read from it. */
  datatype AgentTurn = AgentTurn(
    launch: Launch, kind: A.WallClockKind, result: TurnResult, before: Repo, after: Repo,
    reply: Option<ReviewSchema.Review>)

  /** What was untracked at the start, what git hides, and when the time is up. */
  datatype Rules = Rules(baseline: set<Path>, ignores: Tree -> set<Path>, deadline: real)

  function StageLimit(cfg: Config, i: nat): Option<real> {
    if i == 0 then None else if i % 2 == 1 then cfg.reviewerTimeoutSec else cfg.revisionTimeoutSec
  }

  /** The clock admits the turn, and its result and its review are sound. */
  ghost predicate IsAllowed(cfg: Config, rules: Rules, i: nat, t: AgentTurn) {
    && WithinBudget(cfg, rules.deadline, t.launch) && IsLimitedBy(rules.deadline, StageLimit(cfg, i), t.kind, t.launch)
    && (t.result.ok ==> t.result.status == SUCCESS && t.result.timeoutKind == None)
    && (t.reply.Some? ==> t.result.ok && ReviewSchema.Consistent(t.reply.value))
  }

  function ReadFrom(text: string): Option<ReviewSchema.Review> {
    match ReviewSchema.ParseReview(text)
    case Ok(review) => Some(review)
    case Err(_) => None
  }

  /** Some order of callbacks makes the turn report this, and the review of round i is what its text says. */
  ghost predicate IsReal(i: nat, t: AgentTurn) {
    CanReturn(t.kind, t.result) && (i % 2 == 1 && t.result.ok ==> t.reply == ReadFrom(t.result.finalText))
  }

  ghost predicate AreReal(i: nat, turns: seq<AgentTurn>) {
    forall k :: 0 <= k < |turns| ==> IsReal(i, turns[k])
  }

  /** No turn of the run is made up. */
  ghost predicate AllReal(turns: seq<seq<AgentTurn>>) {
    forall i :: 0 <= i < |turns| ==> AreReal(i, turns[i])
  }

  lemma NothingIsReal()
    ensures AllReal([])
  {
  }

  lemma AreRealGrows(i: nat, turns: seq<AgentTurn>, t: AgentTurn)
    requires AreReal(i, turns) && IsReal(i, t)
    ensures AreReal(i, turns + [t])
  {
    hide IsReal;
  }

  lemma AllRealGrows(turns: seq<seq<AgentTurn>>, own: seq<AgentTurn>)
    requires AllReal(turns) && AreReal(|turns|, own)
    ensures AllReal(turns + [own])
  {
    hide AreReal;
  }

  function AttemptsOf(turns: seq<AgentTurn>): seq<Attempt> {
    seq(|turns|, k requires 0 <= k < |turns| => Attempt(k + 1, turns[k].result.status, turns[k].result.timeoutKind))
  }

  /** The repository once the engine dealt with a turn: staged if it was ok, otherwise rolled back. */
  function SettledRepo(ok: bool, after: Repo, reset: Commit, rules: Rules): Repo {
    if ok then after.(index := Staged(after.worktree, after.index, rules.baseline, rules.ignores))
    else Repo(reset, reset.tree, RolledBack(after.worktree, after.index, reset.tree, rules.baseline, rules.ignores))
  }

  function SettledAfter(t: AgentTurn, reset: Commit, rules: Rules): Repo {
    SettledRepo(t.result.ok, t.after, reset, rules)
  }

  predicate Changes(t: AgentTurn, reset: Commit, rules: Rules) {
    var repo := SettledAfter(t, reset, rules);
    repo.index != repo.head.tree || repo.head != reset
  }

  /** The turn ends round i: a review that parses, or a modifier turn that succeeded and, at first, changed something. */
  predicate Concludes(i: nat, t: AgentTurn, reset: Commit, rules: Rules) {
    t.result.ok &&
    if i % 2 == 1 then t.reply.Some?
    else i == 0 ==> Changes(t, reset, rules)
  }

  predicate Concluded(i: nat, turns: seq<AgentTurn>, reset: Commit, rules: Rules) {
    turns != [] && Concludes(i, turns[|turns| - 1], reset, rules)
  }

  /** The timeout a round records: that of the last turn that failed, or the deadline that allowed no other. */
  function RecordedTimeout(cfg: Config, i: nat, turns: seq<AgentTurn>, reset: Commit, rules: Rules): Option<TimeoutKind> {
    var concluded := Concluded(i, turns, reset, rules);
    if !concluded && |turns| < cfg.maxAgentAttempts then Some(A.TotalDeadline)
    else
      var failed := if concluded then turns[..|turns| - 1] else turns;
      if failed == [] then None else failed[|failed| - 1].result.timeoutKind
  }

  function RoleAt(i: nat): Role { if i % 2 == 1 then Reviewer else Modifier }

  /** Attempts that did not conclude, each possible. */
  ghost predicate Unfinished(cfg: Config, i: nat, turns: seq<AgentTurn>, reset: Commit, rules: Rules) {
    forall k :: 0 <= k < |turns| ==> IsAllowed(cfg, rules, i, turns[k]) && !Concludes(i, turns[k], reset, rules)
  }

  /** The attempts of round i, as its metadata records them: only the last one can have concluded. */
  ghost predicate AttemptsFit(cfg: Config, i: nat, meta: Option<Metadata>, turns: seq<AgentTurn>, reset: Commit,
                              rules: Rules)
  {
    && |turns| <= cfg.maxAgentAttempts
    && (forall k :: 0 <= k < |turns| ==> IsAllowed(cfg, rules, i, turns[k]))
    && (forall k :: 0 <= k < |turns| - 1 ==> !Concludes(i, turns[k], reset, rules))
    && meta == Some(Metadata(RoleAt(i), AttemptsOf(turns), RecordedTimeout(cfg, i, turns, reset, rules)))
  }

  /** No further attempt was made because, at this moment, too little time was left. */
  predicate RefusalFits(cfg: Config, rules: Rules, i: nat, own: seq<AgentTurn>, reset: Commit, refusal: Option<int>) {
    && (refusal.Some? <==> !Concluded(i, own, reset, rules) && |own| < cfg.maxAgentAttempts)
    && (refusal.Some? ==> LeftAt(rules.deadline, refusal.value) < cfg.minTurnSec)
  }

  predicate RefusalsFit(cfg: Config, rules: Rules, start: Repo, turns: seq<seq<AgentTurn>>, refusals: seq<Option<int>>) {
    |refusals| == |turns|
    && forall i :: 0 <= i < |turns| ==> RefusalFits(cfg, rules, i, turns[i], start.head, refusals[i])
  }

  lemma RefusalsGrow(cfg: Config, rules: Rules, start: Repo, turns: seq<seq<AgentTurn>>, refusals: seq<Option<int>>,
                     own: seq<AgentTurn>, reset: Commit, refusal: Option<int>)
    requires RefusalsFit(cfg, rules, start, turns, refusals)
    requires RefusalFits(cfg, rules, |turns|, own, reset, refusal) && (turns == [] ==> reset == start.head)
    ensures RefusalsFit(cfg, rules, start, turns + [own], refusals + [refusal])
  {
    hide Changes;
    var all, more := turns + [own], refusals + [refusal];
    forall i | 0 <= i < |all| ensures RefusalFits(cfg, rules, i, all[i], start.head, more[i]) {
      if i < |turns| {
        assert RefusalFits(cfg, rules, i, turns[i], start.head, refusals[i]);
      }
    }
  }

  /**
   * The deadline is checked before every round but the first, and it had not passed then; the check
   * that stopped the loop, if one did, is the last and found it passed.
   */
  predicate Clocked(deadline: real, rounds: nat, checks: seq<int>, stopped: bool)
    requires rounds > 0
  {
    && |checks| == rounds - 1 + (if stopped then 1 else 0)
    && (forall i :: 0 <= i < rounds - 1 ==> checks[i] as real < deadline)
    && (stopped ==> checks[rounds - 1] as real >= deadline)
  }

  lemma ClockGoesOn(deadline: real, rounds: nat, checks: seq<int>, check: int)
    requires rounds > 0 && Clocked(deadline, rounds, checks, false)
    ensures if check as real < deadline then Clocked(deadline, rounds + 1, checks + [check], false)
            else Clocked(deadline, rounds, checks + [check], true)
  {
  }

  /** The review of a round is the reply of its last turn, if that parses. */
  predicate IsReply(review: Option<ReviewSchema.Review>, turns: seq<AgentTurn>) {
    review == if turns != [] && turns[|turns| - 1].result.ok then turns[|turns| - 1].reply else None
  }

  predicate FindsWhatWasLeft(turns: seq<AgentTurn>, k: nat, found: Repo, rules: Rules)
    requires k < |turns|
  {
    turns[k].before == if k == 0 then found else SettledAfter(turns[k - 1], found.head, rules)
  }

  /** Each turn finds the repository that the engine made of the one before. */
  predicate Chained(turns: seq<AgentTurn>, found: Repo, rules: Rules) {
    forall k :: 0 <= k < |turns| ==> FindsWhatWasLeft(turns, k, found, rules)
  }

  function RepoAfter(turns: seq<AgentTurn>, found: Repo, rules: Rules): Repo {
    if turns == [] then found else SettledAfter(turns[|turns| - 1], found.head, rules)
  }

  /** The checkpoint of a staged repository. */
  function CommitOf(repo: Repo, message: string): Commit {
    if repo.index == repo.head.tree then repo.head else Child(repo.index, repo.head, message)
  }

  function MessageAt(cfg: Config, i: nat): string {
    if i == 0 then "collab: initial implementation" else RevisionMessage(cfg, i / 2)
  }

  /** The repository that the modifier of round i finds: the last checkpoint with the working tree left there. */
  function FoundAt(i: nat, start: Repo, states: seq<Commit>, turns: seq<seq<AgentTurn>>): Repo {
    if i < 2 || i / 2 - 1 >= |states| || i - 2 >= |turns| || turns[i - 2] == [] then start
    else Repo(states[i / 2 - 1], states[i / 2 - 1].tree, turns[i - 2][|turns[i - 2]| - 1].after.worktree)
  }

  /** A modifier round: a chain of turns, and the checkpoint that a successful last one became. */
  ghost predicate ModifierFits(cfg: Config, rules: Rules, start: Repo, states: seq<Commit>, turns: seq<seq<AgentTurn>>, i: nat)
    requires i < |turns|
  {
    var found := FoundAt(i, start, states, turns);
    && Chained(turns[i], found, rules)
    && (i / 2 < |states| <==> Concluded(i, turns[i], found.head, rules))
    && (i / 2 < |states| ==> states[i / 2] == CommitOf(RepoAfter(turns[i], found, rules), MessageAt(cfg, i)))
  }

  /** Round i follows from what its agents did. */
  ghost predicate RoundFollows(cfg: Config, rules: Rules, start: Repo, rounds: seq<RoundDir>, states: seq<Commit>,
                               turns: seq<seq<AgentTurn>>, i: nat)
    requires i < |rounds| && i < |turns|
  {
    && AttemptsFit(cfg, i, rounds[i].metadata, turns[i], FoundAt(i, start, states, turns).head, rules)
    && if i % 2 == 1 then IsReply(rounds[i].review, turns[i]) else ModifierFits(cfg, rules, start, states, turns, i)
  }

  /** The first n rounds follow from what the agents did. */
  ghost predicate Follows(cfg: Config, rules: Rules, start: Repo, rounds: seq<RoundDir>, states: seq<Commit>,
                          turns: seq<seq<AgentTurn>>, n: nat)
  {
    n <= |rounds| && n <= |turns| && forall i :: 0 <= i < n ==> RoundFollows(cfg, rules, start, rounds, states, turns, i)
  }

  lemma FollowsStill(cfg: Config, rules: Rules, start: Repo, rounds: seq<RoundDir>, states: seq<Commit>,
                     turns: seq<seq<AgentTurn>>, n: nat, rounds': seq<RoundDir>, states': seq<Commit>,
                     turns': seq<seq<AgentTurn>>)
    requires Follows(cfg, rules, start, rounds, states, turns, n)
    requires rounds[..n] <= rounds' && turns[..n] <= turns' && states <= states'
    requires states' == states || n <= 2 * |states|
    ensures Follows(cfg, rules, start, rounds', states', turns', n)
  {
    hide AttemptsFit, IsReply, Chained, Concluded, RepoAfter, CommitOf, MessageAt;
    forall i | 0 <= i < n ensures RoundFollows(cfg, rules, start, rounds', states', turns', i) {
      assert RoundFollows(cfg, rules, start, rounds, states, turns, i);
      assert rounds'[i] == rounds[..n][i] && turns'[i] == turns[..n][i];
      if i >= 2 {
        assert turns'[i - 2] == turns[..n][i - 2];
      }
    }
  }

  // ------------------------------------------------------ what the turns add up to

  /** A successful turn left another HEAD than it found. */
  predicate Moves(turns: seq<AgentTurn>) {
    exists k :: 0 <= k < |turns| && turns[k].result.ok && turns[k].after.head != turns[k].before.head
  }

  predicate HeadMoved(turns: seq<seq<AgentTurn>>) {
    exists i :: 0 <= i < |turns| && i % 2 == 0 && Moves(turns[i])
  }

  /** An aborted turn still reported the status "success". */
  predicate AbortsWithSuccess(turns: seq<AgentTurn>) {
    exists k :: 0 <= k < |turns| && !turns[k].result.ok && turns[k].result.status == SUCCESS
  }

  predicate AbortedSuccess(turns: seq<seq<AgentTurn>>) {
    exists i :: 0 <= i < |turns| && i % 2 == 0 && AbortsWithSuccess(turns[i])
  }

  /** Every successful turn left HEAD and the index alone. */
  predicate EditsFiles(turns: seq<AgentTurn>) {
    forall k :: 0 <= k < |turns| && turns[k].result.ok ==>
      turns[k].after.head == turns[k].before.head && turns[k].after.index == turns[k].before.index
  }

  /** The repository started clean and successful turns only edited files. */
  predicate FilesOnly(start: Repo, turns: seq<seq<AgentTurn>>) {
    start.index == start.head.tree && forall i :: 0 <= i < |turns| && i % 2 == 0 ==> EditsFiles(turns[i])
  }

  lemma OneMoreRound(start: Repo, turns: seq<seq<AgentTurn>>, own: seq<AgentTurn>)
    ensures var all, modifier := turns + [own], |turns| % 2 == 0;
            && (HeadMoved(all) <==> HeadMoved(turns) || (modifier && Moves(own)))
            && (AbortedSuccess(all) <==> AbortedSuccess(turns) || (modifier && AbortsWithSuccess(own)))
            && (FilesOnly(start, all) <==> FilesOnly(start, turns) && (modifier ==> EditsFiles(own)))
  {
    hide Moves, AbortsWithSuccess, EditsFiles;
    var all := turns + [own];
    assert all[|turns|] == own && forall i :: 0 <= i < |turns| ==> all[i] == turns[i];
  }

  /** All agent launches of a run. */
  function Launches(turns: seq<seq<AgentTurn>>): nat {
    if turns == [] then 0 else Launches(turns[..|turns| - 1]) + |turns[|turns| - 1]|
  }

  datatype FailKind = FailTimeout | FailProcess | FailEmpty
  datatype ModifierOutcome = ModifierOutcome(ok: bool, changed: bool, finalText: string, failKind: Option<FailKind>)

  /** How a turn that did not conclude failed. */
  function TurnFailure(t: AgentTurn): FailKind {
    if t.result.ok then FailEmpty else if t.result.timeoutKind.Some? then FailTimeout else FailProcess
  }

  /** How a modifier phase failed. */
  function PhaseFailure(cfg: Config, turns: seq<AgentTurn>): FailKind {
    if |turns| < cfg.maxAgentAttempts then FailTimeout
    else if turns == [] then FailProcess
    else TurnFailure(turns[|turns| - 1])
  }

  function TurnOutcome(i: nat, t: AgentTurn, reset: Commit, rules: Rules): ModifierOutcome {
    if Concludes(i, t, reset, rules) then ModifierOutcome(true, Changes(t, reset, rules), t.result.finalText, None)
    else ModifierOutcome(false, false, "", Some(TurnFailure(t)))
  }

  function PhaseOutcome(cfg: Config, i: nat, turns: seq<AgentTurn>, reset: Commit, rules: Rules): ModifierOutcome {
    if Concluded(i, turns, reset, rules) then TurnOutcome(i, turns[|turns| - 1], reset, rules)
    else ModifierOutcome(false, false, "", Some(PhaseFailure(cfg, turns)))
  }

  /** Why a modifier phase failed, read off its round. */
  ghost predicate FailureFits(kind: FailKind, round: RoundDir, abortedSuccess: bool) {
    && (kind == FailTimeout <==> RanOutOfTime(round))
    && (kind == FailEmpty ==> Succeeded(round))
    && (kind == FailProcess && !abortedSuccess ==> !Succeeded(round))
  }

  lemma LastIsClean(cfg: Config, i: nat, meta: Option<Metadata>, turns: seq<AgentTurn>, reset: Commit, rules: Rules)
    requires AttemptsFit(cfg, i, meta, turns, reset, rules) && turns != []
    requires turns[|turns| - 1].result.ok
    ensures turns[|turns| - 1].result.status == SUCCESS && turns[|turns| - 1].result.timeoutKind == None
  {
    hide Concludes, RecordedTimeout;
    assert IsAllowed(cfg, rules, i, turns[|turns| - 1]);
  }

  /** What the metadata of a modifier round tells about its turns. */
  lemma ModifierRoundReads(cfg: Config, i: nat, round: RoundDir, turns: seq<AgentTurn>, reset: Commit, rules: Rules)
    requires i % 2 == 0 && AttemptsFit(cfg, i, round.metadata, turns, reset, rules)
    ensures Concluded(i, turns, reset, rules) ==> Succeeded(round)
    ensures !Concluded(i, turns, reset, rules) && i > 0 && !AbortsWithSuccess(turns) ==> !Succeeded(round)
    ensures !Concluded(i, turns, reset, rules) ==> FailureFits(PhaseFailure(cfg, turns), round, AbortsWithSuccess(turns))
  {
    hide Changes, IsAllowed;
    if turns != [] {
      if turns[|turns| - 1].result.ok {
        LastIsClean(cfg, i, round.metadata, turns, reset, rules);
      }
    }
  }

  /** Why a review round has no review. */
  function ReviewFailure(cfg: Config, turns: seq<AgentTurn>): DegradedReason {
    if |turns| < cfg.maxAgentAttempts then DeadlineReached
    else if turns == [] then ReviewerFailed
    else if turns[|turns| - 1].result.ok then InvalidReviewOutput
    else if turns[|turns| - 1].result.timeoutKind.Some? then DeadlineReached
    else ReviewerFailed
  }

  lemma ReviewRoundReads(cfg: Config, i: nat, round: RoundDir, turns: seq<AgentTurn>, reset: Commit, rules: Rules)
    requires i % 2 == 1 && AttemptsFit(cfg, i, round.metadata, turns, reset, rules) && IsReply(round.review, turns)
    ensures round.review.Some? ==> Succeeded(round) && ReviewSchema.Consistent(round.review.value)
    ensures round.review.Some? <==> Concluded(i, turns, reset, rules)
    ensures round.review == None ==>
              && (ReviewFailure(cfg, turns) == DeadlineReached <==> RanOutOfTime(round))
              && (ReviewFailure(cfg, turns) == InvalidReviewOutput ==> Succeeded(round))
  {
    hide Changes, ReviewSchema.Consistent, WithinBudget, IsLimitedBy;
    if turns != [] {
      if turns[|turns| - 1].result.ok {
        LastIsClean(cfg, i, round.metadata, turns, reset, rules);
        assert AttemptsFit(cfg, i, round.metadata, turns, reset, rules);
      }
    }
  }

  /** A modifier that did not move HEAD worked on the commit it found. */
  lemma HeadStays(cfg: Config, i: nat, meta: Option<Metadata>, turns: seq<AgentTurn>, found: Repo, rules: Rules)
    requires i % 2 == 0 && AttemptsFit(cfg, i, meta, turns, found.head, rules) && Chained(turns, found, rules)
    ensures !Concluded(i, turns, found.head, rules) || !Moves(turns) ==> RepoAfter(turns, found, rules).head == found.head
    ensures forall k {:trigger turns[k]} :: 0 <= k < |turns| ==> turns[k].before.head == found.head
    ensures forall k {:trigger turns[k]} :: 0 < k < |turns| ==> turns[k].before.index == found.head.tree
  {
    hide Staged, RolledBack, IsAllowed, RecordedTimeout;
    forall k | 0 < k < |turns|
      ensures turns[k].before.head == found.head && turns[k].before.index == found.head.tree
    {
      assert !Concludes(i, turns[k - 1], found.head, rules) && FindsWhatWasLeft(turns, k, found, rules);
    }
    assert turns != [] ==> FindsWhatWasLeft(turns, 0, found, rules);
  }

  /** A modifier that only edits files puts no path of the baseline into the index. */
  lemma BaselineStaysOut(cfg: Config, i: nat, meta: Option<Metadata>, turns: seq<AgentTurn>, found: Repo, rules: Rules)
    requires i % 2 == 0 && AttemptsFit(cfg, i, meta, turns, found.head, rules) && Chained(turns, found, rules)
    requires EditsFiles(turns) && rules.baseline !! found.index.Keys && rules.baseline !! found.head.tree.Keys
    ensures var repo := RepoAfter(turns, found, rules);
            rules.baseline !! repo.index.Keys && rules.baseline !! repo.head.tree.Keys
  {
    hide RolledBack, AttemptsFit;
    if turns != [] {
      HeadStays(cfg, i, meta, turns, found, rules);
      var last := turns[|turns| - 1];
      assert FindsWhatWasLeft(turns, |turns| - 1, found, rules);
      assert last.before.index == found.index || last.before.index == found.head.tree;
    }
  }

  /** The reset commit matters to modifier rounds only. */
  lemma ReviewsNeedNoReset(cfg: Config, i: nat, meta: Option<Metadata>, turns: seq<AgentTurn>, reset: Commit,
                           reset': Commit, rules: Rules)
    requires i % 2 == 1 && AttemptsFit(cfg, i, meta, turns, reset, rules)
    ensures AttemptsFit(cfg, i, meta, turns, reset', rules)
  {
    hide IsAllowed;
  }

  lemma ReviewFollows(cfg: Config, rules: Rules, start: Repo, rounds: seq<RoundDir>, states: seq<Commit>,
                      turns: seq<seq<AgentTurn>>, round: RoundDir, own: seq<AgentTurn>, reset: Commit)
    requires Follows(cfg, rules, start, rounds, states, turns, |rounds|) && |turns| == |rounds| && |rounds| % 2 == 1
    requires AttemptsFit(cfg, |rounds|, round.metadata, own, reset, rules) && IsReply(round.review, own)
    ensures Follows(cfg, rules, start, rounds + [round], states, turns + [own], |rounds| + 1)
  {
    hide AttemptsFit, IsReply, FoundAt, ModifierFits;
    var i, all, more := |rounds|, rounds + [round], turns + [own];
    FollowsStill(cfg, rules, start, rounds, states, turns, i, all, states, more);
    ReviewsNeedNoReset(cfg, i, round.metadata, own, reset, FoundAt(i, start, states, more).head, rules);
    assert RoundFollows(cfg, rules, start, all, states, more, i);
  }

  /** A modifier phase that is over: its attempts, the repository it found and the one it left. */
  ghost predicate PhaseOver(cfg: Config, rules: Rules, start: Repo, rounds: seq<RoundDir>, states: seq<Commit>,
                            turns: seq<seq<AgentTurn>>, i: nat, left: Repo)
  {
    && i % 2 == 0 && i + 1 == |rounds| == |turns| && i / 2 == |states|
    && var found := FoundAt(i, start, states, turns);
    && AttemptsFit(cfg, i, rounds[i].metadata, turns[i], found.head, rules)
    && Chained(turns[i], found, rules) && left == RepoAfter(turns[i], found, rules)
  }

  lemma FailedPhaseFollows(cfg: Config, rules: Rules, start: Repo, rounds: seq<RoundDir>, states: seq<Commit>,
                           turns: seq<seq<AgentTurn>>, i: nat, left: Repo)
    requires PhaseOver(cfg, rules, start, rounds, states, turns, i, left)
    requires Follows(cfg, rules, start, rounds, states, turns, i)
    requires !Concluded(i, turns[i], FoundAt(i, start, states, turns).head, rules)
    ensures Follows(cfg, rules, start, rounds, states, turns, i + 1)
    ensures left.head == FoundAt(i, start, states, turns).head
    ensures i > 0 && FoundAt(i, start, states, turns).index == left.head.tree ==> left.index == left.head.tree
  {
    hide AttemptsFit, FoundAt, Chained, Concluded, RepoAfter;
    assert RoundFollows(cfg, rules, start, rounds, states, turns, i);
    FailedPhaseRests(cfg, i, rounds[i].metadata, turns[i], FoundAt(i, start, states, turns), rules);
  }

  lemma FailedPhaseRests(cfg: Config, i: nat, meta: Option<Metadata>, own: seq<AgentTurn>, found: Repo, rules: Rules)
    requires i % 2 == 0 && AttemptsFit(cfg, i, meta, own, found.head, rules) && Chained(own, found, rules)
    requires !Concluded(i, own, found.head, rules)
    ensures RepoAfter(own, found, rules).head == found.head
    ensures i > 0 && found.index == found.head.tree ==> RepoAfter(own, found, rules).index == found.head.tree
  {
    hide IsAllowed, RecordedTimeout, Staged, RolledBack;
    HeadStays(cfg, i, meta, own, found, rules);
  }

  lemma ConcludedPhaseFollows(cfg: Config, rules: Rules, start: Repo, rounds: seq<RoundDir>, states: seq<Commit>,
                              turns: seq<seq<AgentTurn>>, i: nat, left: Repo)
    requires PhaseOver(cfg, rules, start, rounds, states, turns, i, left)
    requires Follows(cfg, rules, start, rounds, states, turns, i)
    requires Concluded(i, turns[i], FoundAt(i, start, states, turns).head, rules)
    ensures var next := CommitOf(left, MessageAt(cfg, i));
            && Follows(cfg, rules, start, rounds, states + [next], turns, i + 1)
            && FoundAt(i + 2, start, states + [next], turns) == Repo(next, next.tree, left.worktree)
  {
    hide AttemptsFit, Chained, Changes, MessageAt;
    var next := CommitOf(left, MessageAt(cfg, i));
    FollowsStill(cfg, rules, start, rounds, states, turns, i, rounds, states + [next], turns);
    assert FoundAt(i, start, states + [next], turns) == FoundAt(i, start, states, turns);
    assert RoundFollows(cfg, rules, start, rounds, states + [next], turns, i);
  }

  datatype Result = Result(
    outcome: Outcome, degradedReason: Option<DegradedReason>, deliverable: bool,
    baseCommit: Commit, finalCommit: Commit, checkpoints: seq<Saved>,
    reviewCount: nat, revisionCount: nat, noChangeRevision: bool)

  /** The recorded reason of a degraded run, read off its last round. */
  ghost predicate ReasonFits(reason: DegradedReason, rounds: seq<RoundDir>, reviewCount: nat, revisionCount: nat)
    requires |rounds| <= 2 * revisionCount + 3
  {
    var done := 2 * revisionCount + 1;
    if |rounds| == done + 2 then
      reason == if RanOutOfTime(rounds[done + 1]) then DeadlineReached else RevisionFailed
    else if |rounds| == done + 1 && reviewCount == revisionCount then
      && (reason == DeadlineReached <==> RanOutOfTime(rounds[done]))
      && (reason == InvalidReviewOutput ==> Succeeded(rounds[done]))
      && reason in {DeadlineReached, ReviewerFailed, InvalidReviewOutput}
    else reason == DeadlineReached
  }

  /** A check of the clock ended the loop: more was to be done, and no failed round explains why it was not. */
  predicate IsStopped(cfg: Config, rounds: seq<RoundDir>, reviewCount: nat, revisionCount: nat, noChangeRevision: bool) {
    var done := 2 * revisionCount + 1;
    || (|rounds| == done && !noChangeRevision && revisionCount < cfg.maxReviews)
    || (|rounds| == done + 1 && reviewCount == revisionCount + 1 && Blocks(rounds[done]))
  }

  /** How the loop ended, as it shows in the counters and in the round directories. */
  ghost predicate ExitFits(cfg: Config, outcome: Outcome, reason: Option<DegradedReason>,
                           rounds: seq<RoundDir>, reviewCount: nat, revisionCount: nat,
                           noChangeRevision: bool, abortedSuccess: bool)
    requires |rounds| <= 2 * revisionCount + 3
  {
    var done := 2 * revisionCount + 1;
    && outcome in {Approved, MaxReviewsReached, Degraded}
    && (outcome == Degraded <==> reason.Some?)
    && (outcome == Approved <==> |rounds| == done + 1 && reviewCount == revisionCount + 1 && !Blocks(rounds[done]))
    && (outcome == MaxReviewsReached <==> |rounds| == done && (noChangeRevision || revisionCount == cfg.maxReviews))
    && (reason.Some? ==> ReasonFits(reason.value, rounds, reviewCount, revisionCount))
    && (noChangeRevision ==> outcome == MaxReviewsReached && revisionCount >= 1)
    && (|rounds| == done + 2 ==> Blocks(rounds[done]) && (!abortedSuccess ==> !Succeeded(rounds[done + 1])))
  }

  lemma ExitsBeforeReview(cfg: Config, rounds: seq<RoundDir>, k: nat, aborted: bool)
    requires |rounds| == 2 * k + 1 && k <= cfg.maxReviews
    ensures if k == cfg.maxReviews
            then ExitFits(cfg, MaxReviewsReached, None, rounds, k, k, false, aborted) && !IsStopped(cfg, rounds, k, k, false)
            else ExitFits(cfg, Degraded, Some(DeadlineReached), rounds, k, k, false, aborted)
                 && IsStopped(cfg, rounds, k, k, false)
  {
  }

  lemma ExitsAfterReview(cfg: Config, rounds: seq<RoundDir>, reviewCount: nat, k: nat, reason: Option<DegradedReason>,
                         aborted: bool)
    requires |rounds| == 2 * k + 2 && k < cfg.maxReviews
    requires if reviewCount == k then reason.Some? && ReasonFits(reason.value, rounds, k, k) else reviewCount == k + 1
    ensures reviewCount == k ==>
              && ExitFits(cfg, Degraded, reason, rounds, k, k, false, aborted) && !IsStopped(cfg, rounds, k, k, false)
    ensures reviewCount == k + 1 && !Blocks(rounds[2 * k + 1]) ==>
              && ExitFits(cfg, Approved, None, rounds, k + 1, k, false, aborted)
              && !IsStopped(cfg, rounds, k + 1, k, false)
    ensures reviewCount == k + 1 && Blocks(rounds[2 * k + 1]) ==>
              && ExitFits(cfg, Degraded, Some(DeadlineReached), rounds, k + 1, k, false, aborted)
              && IsStopped(cfg, rounds, k + 1, k, false)
  {
    hide Blocks;
  }

  /**
   * Everything one finished run leaves behind, with the repository and the rules it started from, the
   * commits it went through, what the agents did in each round, and the readings of the clock that
   * decided against another round or another attempt.
   */
  datatype RunRecord = RunRecord(
    cfg: Config, rules: Rules, start: Repo, base: Commit, rounds: seq<RoundDir>, turns: seq<seq<AgentTurn>>,
    states: seq<Commit>, finalPatch: Patch, result: Result, loopOutcome: Outcome,
    startedAt: int, checks: seq<int>, refusals: seq<Option<int>>)

  /** A failed initial turn ran out of time, changed nothing, or never succeeded. */
  ghost predicate InitialFailureFits(outcome: Outcome, round: RoundDir, abortedSuccess: bool) {
    && (outcome == TimedOut <==> RanOutOfTime(round))
    && (outcome == EmptyPatch ==> Succeeded(round))
    && (outcome == ModifierFailed && !abortedSuccess ==> !Succeeded(round))
  }

  /** The initial turn never produced a checkpoint: nothing is delivered. */
  ghost predicate InitialTurnFailed(run: RunRecord) {
    var r := run.result;
    && run.states == [] && |run.rounds| == 1
    && RoundAt(run.cfg, run.base, run.rounds[0], 0, [])
    && r.reviewCount == 0 && r.revisionCount == 0 && r.checkpoints == [] && !r.noChangeRevision
    && r.outcome in {TimedOut, EmptyPatch, ModifierFailed} && r.degradedReason == None
    && InitialFailureFits(r.outcome, run.rounds[0], AbortedSuccess(run.turns))
    && r.finalCommit == run.base && run.finalPatch == EMPTY_PATCH
  }

  /** The initial turn was checkpointed and the loop ran to one of its exits. */
  ghost predicate LoopCompleted(run: RunRecord) {
    var r := run.result;
    && Layout(run.cfg, run.base, run.rounds, run.states, r.reviewCount, r.revisionCount)
    && ExitFits(run.cfg, run.loopOutcome, r.degradedReason, run.rounds, r.reviewCount,
                r.revisionCount, r.noChangeRevision, AbortedSuccess(run.turns))
    && r.finalCommit == run.states[r.revisionCount]
    && run.finalPatch == Diff(run.base.tree, r.finalCommit.tree)
    && History(run.states, r.checkpoints, r.noChangeRevision, HeadMoved(run.turns))
    && r.outcome in {run.loopOutcome, EmptyPatch, CheckpointFailed}
    && (IsDeliverable(run.loopOutcome, run.cfg.strict) ==>
          (r.outcome == EmptyPatch <==> run.finalPatch == EMPTY_PATCH))
    && (!IsDeliverable(run.loopOutcome, run.cfg.strict) ==> r.outcome == run.loopOutcome)
  }

  /** Every round and every state is what the engine makes of what the agents did. */
  ghost predicate TurnsExplain(run: RunRecord) {
    && run.start.head == run.base && |run.turns| == |run.rounds|
    && Follows(run.cfg, run.rules, run.start, run.rounds, run.states, run.turns, |run.rounds|)
  }

  /** What every run keeps, as far as its record shows it without its turns. */
  ghost predicate KeepsProtocol(run: RunRecord) {
    var r := run.result;
    && r.baseCommit == run.base
    && r.deliverable == IsDeliverable(r.outcome, run.cfg.strict)
    && (r.deliverable ==> run.finalPatch != EMPTY_PATCH && AppliesTo(run.base.tree, run.finalPatch))
    && (InitialTurnFailed(run) || LoopCompleted(run))
  }

  /** No round and no attempt was left out before its time, and none was made after it. */
  predicate KeepsTime(run: RunRecord) {
    var r := run.result;
    && run.rules.deadline == run.startedAt as real + run.cfg.totalTimeoutSec * 1000.0
    && RefusalsFit(run.cfg, run.rules, run.start, run.turns, run.refusals)
    && run.rounds != []
    && Clocked(run.rules.deadline, |run.rounds|, run.checks,
               run.states != [] && IsStopped(run.cfg, run.rounds, r.reviewCount, r.revisionCount, r.noChangeRevision))
  }

  function OutcomeOf(failure: FailKind): Outcome {
    match failure
    case FailTimeout => TimedOut
    case FailProcess => ModifierFailed
    case FailEmpty => EmptyPatch
  }

  /** A last round that failed ends the loop for the reason that its turns give. */
  predicate ReasonExplained(cfg: Config, turns: seq<seq<AgentTurn>>, reviewCount: nat, revisionCount: nat,
                            reason: Option<DegradedReason>)
  {
    var done := 2 * revisionCount + 1;
    && (|turns| == done + 1 && reviewCount == revisionCount ==> reason == Some(ReviewFailure(cfg, turns[done])))
    && (|turns| == done + 2 ==>
          reason == Some(if PhaseFailure(cfg, turns[done + 1]) == FailTimeout then DeadlineReached else RevisionFailed))
  }

  /** A run that failed tells how its last turns failed. */
  predicate FailuresExplain(run: RunRecord) {
    && run.turns != []
    && if run.states == [] then run.result.outcome == OutcomeOf(PhaseFailure(run.cfg, run.turns[0]))
       else ReasonExplained(run.cfg, run.turns, run.result.reviewCount, run.result.revisionCount, run.result.degradedReason)
  }

  ghost predicate EngineRun(run: RunRecord) {
    KeepsProtocol(run) && TurnsExplain(run) && AllReal(run.turns) && KeepsTime(run) && FailuresExplain(run)
  }

  /** The counters, the round numbering and the outcome of every run fit together. */
  lemma RunsFollowTheProtocol(run: RunRecord)
    requires KeepsProtocol(run)
    ensures var r := run.result;
            && r.revisionCount <= r.reviewCount <= r.revisionCount + 1
            && r.reviewCount <= run.cfg.maxReviews
            && 1 <= |run.rounds| <= 1 + 2 * run.cfg.maxReviews
            && (r.outcome == Approved ==> r.reviewCount == r.revisionCount + 1)
            && (r.outcome == MaxReviewsReached ==> r.reviewCount == r.revisionCount)
            && (r.deliverable <==>
                  r.outcome == Approved || r.outcome == MaxReviewsReached || (r.outcome == Degraded && !run.cfg.strict))
    ensures forall i {:trigger run.rounds[i]} :: 0 <= i < |run.rounds| ==>
              var id := run.rounds[i].id;
              && id.number == i
              && (id.kind == Review <==> i % 2 == 1)
              && (id.kind == FinalRevision <==> i == 2 * run.cfg.maxReviews && i > 0)
    ensures forall i {:trigger run.rounds[i]} :: 0 <= i < |run.rounds| - 1 ==>
              run.rounds[i].id.kind != FinalRevision
  {
    hide History, Verdicts, Succeeded, AbortedSuccess, Diff;
    forall i | 0 <= i < |run.rounds|
      ensures RoundAt(run.cfg, run.base, run.rounds[i], i, run.states)
    {
    }
  }

  /** The round of the j-th review, counting from one. */
  function ReviewRound(rounds: seq<RoundDir>, j: nat): RoundDir
    requires 1 <= j && 2 * j <= |rounds|
  {
    rounds[2 * j - 1]
  }

  predicate FindsBlocker(round: RoundDir) {
    round.review.Some? && exists f :: f in round.review.value.findings && f.severity in {ReviewSchema.Critical, ReviewSchema.Major}
  }

  /**
   * The findings decide: every counted review but the last listed a critical or major finding, and
   * the loop ends approved exactly when the last counted one lists none, whatever verdict it states.
   */
  lemma FindingsDecideTheLoop(run: RunRecord)
    requires LoopCompleted(run)
    ensures var r := run.result;
            && 2 * r.reviewCount <= |run.rounds|
            && (forall j :: 1 <= j <= r.reviewCount ==> ReviewRound(run.rounds, j).review.Some?)
            && (forall j :: 1 <= j < r.reviewCount ==> FindsBlocker(ReviewRound(run.rounds, j)))
            && (r.reviewCount > 0 ==>
                  (run.loopOutcome == Approved <==> !FindsBlocker(ReviewRound(run.rounds, r.reviewCount))))
            && (r.reviewCount == 0 ==> run.loopOutcome != Approved)
  {
    hide RoundAt, Succeeded, History, Blocks, ReasonFits, FindsBlocker, Verdicts;
    VerdictsRead(run.rounds, run.result.reviewCount, run.result.revisionCount);
  }

  lemma VerdictsRead(rounds: seq<RoundDir>, reviewCount: nat, revisionCount: nat)
    requires Verdicts(rounds, reviewCount, revisionCount) && 2 * reviewCount <= |rounds|
    ensures forall j :: 1 <= j <= reviewCount ==>
              && ReviewRound(rounds, j).review.Some?
              && (Blocks(rounds[2 * j - 1]) <==> FindsBlocker(ReviewRound(rounds, j)))
              && (j <= revisionCount ==> FindsBlocker(ReviewRound(rounds, j)))
  {
    forall j | 1 <= j <= reviewCount
      ensures ReviewRound(rounds, j).review.Some?
      ensures Blocks(rounds[2 * j - 1]) <==> FindsBlocker(ReviewRound(rounds, j))
      ensures j <= revisionCount ==> FindsBlocker(ReviewRound(rounds, j))
    {
      assert (2 * j - 1) % 2 == 1 && (2 * j - 1) / 2 == j - 1;
      assert ReviewSchema.Consistent(rounds[2 * j - 1].review.value);
    }
  }

  /** Every run stays within the launches that its review budget allows. */
  lemma LaunchesAreBounded(run: RunRecord)
    requires EngineRun(run)
    ensures Launches(run.turns) <= run.cfg.maxAgentAttempts * (1 + 2 * run.cfg.maxReviews)
    ensures forall i, k :: 0 <= i < |run.turns| && 0 <= k < |run.turns[i]| ==>
              WithinBudget(run.cfg, run.rules.deadline, run.turns[i][k].launch)
  {
    hide Follows, LoopCompleted, InitialTurnFailed, WithinBudget, Launches, KeepsTime, AllReal;
    forall i | 0 <= i < |run.turns|
      ensures |run.turns[i]| <= run.cfg.maxAgentAttempts
      ensures forall k :: 0 <= k < |run.turns[i]| ==> WithinBudget(run.cfg, run.rules.deadline, run.turns[i][k].launch)
    {
      RoundIsBudgeted(run.cfg, run.rules, run.start, run.rounds, run.states, run.turns, i);
    }
    LaunchesAddUp(run.turns, run.cfg.maxAgentAttempts);
    RunsFollowTheProtocol(run);
    ProductIsMonotone(run.cfg.maxAgentAttempts, |run.rounds|, 1 + 2 * run.cfg.maxReviews);
  }

  lemma RoundIsBudgeted(cfg: Config, rules: Rules, start: Repo, rounds: seq<RoundDir>, states: seq<Commit>,
                        turns: seq<seq<AgentTurn>>, i: nat)
    requires i < |turns| == |rounds| && Follows(cfg, rules, start, rounds, states, turns, |rounds|)
    ensures |turns[i]| <= cfg.maxAgentAttempts
    ensures forall k :: 0 <= k < |turns[i]| ==> WithinBudget(cfg, rules.deadline, turns[i][k].launch)
  {
    hide ModifierFits, IsReply, CanReturn, IsLimitedBy, Concludes, RecordedTimeout;
    assert RoundFollows(cfg, rules, start, rounds, states, turns, i);
  }

  lemma {:induction false} LaunchesAddUp(turns: seq<seq<AgentTurn>>, most: nat)
    requires forall i :: 0 <= i < |turns| ==> |turns[i]| <= most
    ensures Launches(turns) <= most * |turns|
  {
    if turns != [] {
      LaunchesAddUp(turns[..|turns| - 1], most);
      assert most * |turns| == most * (|turns| - 1) + most;
    }
  }

  lemma ProductIsMonotone(factor: nat, a: nat, b: nat)
    requires a <= b
    ensures factor * a <= factor * b
  {
  }

  /** The final patch turns the base into exactly the last checkpoint; a failed start delivers none. */
  lemma FinalPatchIsTheWork(run: RunRecord)
    requires KeepsProtocol(run)
    ensures AppliesTo(run.base.tree, run.finalPatch)
    ensures Apply(run.base.tree, run.finalPatch) == run.result.finalCommit.tree
    ensures run.states == [] ==> run.finalPatch == EMPTY_PATCH && !run.result.deliverable
    ensures run.result.deliverable ==> run.result.finalCommit.tree != run.base.tree
  {
    ApplyUndoesDiff(run.base.tree, run.result.finalCommit.tree);
    DiffIsEmptyOnlyForEqualTrees(run.base.tree, run.result.finalCommit.tree);
  }

  /** Every commit that the engine makes of staged work is a child of HEAD, and its message tells the round. */
  lemma CheckpointsAreNamed(run: RunRecord, i: nat)
    requires EngineRun(run) && i < |run.states|
    ensures 2 * i < |run.turns|
    ensures var left := RepoAfter(run.turns[2 * i], FoundAt(2 * i, run.start, run.states, run.turns), run.rules);
            run.states[i] ==
              if left.index == left.head.tree then left.head
              else Child(left.index, left.head, if i == 0 then "collab: initial implementation"
                                                else if i < run.cfg.maxReviews then "collab: revision " + Digits(i)
                                                else "collab: final revision")
  {
    hide FoundAt, RepoAfter, AttemptsFit, Chained, ExitFits, History, Verdicts, AllReal, KeepsTime, Concluded;
    assert (2 * i) / 2 == i && (2 * i) % 2 == 0;
    assert RoundFollows(run.cfg, run.rules, run.start, run.rounds, run.states, run.turns, 2 * i);
  }

  /** A review round was added behind the completed ones. */
  lemma LayoutAddsReview(cfg: Config, base: Commit, before: seq<RoundDir>, states: seq<Commit>,
                         k: nat, rounds: seq<RoundDir>, counted: nat)
    requires Layout(cfg, base, before, states, k, k) && |before| == 2 * k + 1 && k < cfg.maxReviews
    requires |rounds| == |before| + 1 && rounds[..|before|] == before
    requires RoundAt(cfg, base, rounds[|before|], |before|, states)
    requires counted == k || (counted == k + 1 && Succeeded(rounds[|before|]))
    requires rounds[|before|].review.Some? <==> counted == k + 1
    requires rounds[|before|].review.Some? ==> ReviewSchema.Consistent(rounds[|before|].review.value)
    ensures Layout(cfg, base, rounds, states, counted, k)
  {
    assert forall i :: 0 <= i < |before| ==> rounds[i] == rounds[..|before|][i];
  }

  /** A revision round was added behind a counted review, and failed. */
  lemma LayoutAddsFailedRevision(cfg: Config, base: Commit, before: seq<RoundDir>, states: seq<Commit>,
                                 k: nat, rounds: seq<RoundDir>)
    requires Layout(cfg, base, before, states, k + 1, k) && |before| == 2 * k + 2 && k < cfg.maxReviews
    requires |rounds| == |before| + 1 && rounds[..|before|] == before
    requires RoundAt(cfg, base, rounds[|before|], |before|, states)
    ensures Layout(cfg, base, rounds, states, k + 1, k)
  {
    assert forall i :: 0 <= i < |before| ==> rounds[i] == rounds[..|before|][i];
  }

  /** A failed revision turns into a counted one once its result is checkpointed. */
  lemma LayoutCountsRevision(cfg: Config, base: Commit, rounds: seq<RoundDir>, states: seq<Commit>,
                             k: nat, next: Commit)
    requires Layout(cfg, base, rounds, states, k + 1, k) && |rounds| == 2 * k + 3
    requires Succeeded(rounds[2 * k + 2]) && Blocks(rounds[2 * k + 1])
    ensures Layout(cfg, base, rounds, states + [next], k + 1, k + 1)
  {
    forall i | 0 <= i < |rounds|
      ensures RoundAt(cfg, base, rounds[i], i, states + [next])
    {
      assert RoundAt(cfg, base, rounds[i], i, states);
    }
  }

  lemma ReviewFailsForReviewers(cfg: Config, turns: seq<AgentTurn>)
    ensures ReviewFailure(cfg, turns) in {DeadlineReached, ReviewerFailed, InvalidReviewOutput}
  {
  }

  /** One more round in the log leaves what the next modifier finds as it was. */
  lemma RestsThroughReview(i: nat, start: Repo, states: seq<Commit>, turns: seq<seq<AgentTurn>>, own: seq<AgentTurn>)
    requires 2 <= i <= |turns| + 1
    ensures FoundAt(i, start, states, turns + [own]) == FoundAt(i, start, states, turns)
  {
  }

  lemma MetadataOfReview(cfg: Config, base: Commit, round: RoundDir, i: nat, states: seq<Commit>, own: seq<AgentTurn>,
                         reset: Commit, rules: Rules)
    requires i % 2 == 1 && AttemptsFit(cfg, i, round.metadata, own, reset, rules)
    requires round.id == RoundId(i, Review) && i / 2 < |states|
    requires round.patch == Some(Diff(base.tree, states[i / 2].tree))
    ensures RoundAt(cfg, base, round, i, states)
  {
    hide IsAllowed, Concludes, Diff;
  }

  lemma MetadataOfModifier(cfg: Config, base: Commit, round: RoundDir, i: nat, states: seq<Commit>, own: seq<AgentTurn>,
                           reset: Commit, rules: Rules)
    requires i % 2 == 0 && AttemptsFit(cfg, i, round.metadata, own, reset, rules)
    requires round.id == RoundId(i, if i == 0 then Modify else RevisionKind(cfg, i / 2)) && round.patch == None
    ensures RoundAt(cfg, base, round, i, states)
  {
    hide IsAllowed, Concludes;
  }

  /** A head that moved says less about the history. */
  lemma HistoryStays(states: seq<Commit>, checkpoints: seq<Saved>, noChangeRevision: bool, headMoved: bool, headMoved': bool)
    requires History(states, checkpoints, noChangeRevision, headMoved) && (headMoved ==> headMoved')
    ensures History(states, checkpoints, noChangeRevision, headMoved')
  {
  }

  lemma OutcomeReads(cfg: Config, i: nat, turns: seq<AgentTurn>, reset: Commit, rules: Rules)
    ensures var outcome := PhaseOutcome(cfg, i, turns, reset, rules);
            && (outcome.ok <==> Concluded(i, turns, reset, rules))
            && (outcome.ok ==> outcome.failKind == None && outcome.changed == Changes(turns[|turns| - 1], reset, rules))
            && (!outcome.ok ==> outcome.failKind == Some(PhaseFailure(cfg, turns)))
  {
    hide Concludes;
  }

  lemma InitialFindsTheStart(start: Repo, states: seq<Commit>, turns: seq<seq<AgentTurn>>)
    ensures FoundAt(0, start, states, turns) == start
  {
  }

  lemma NothingFollows(cfg: Config, rules: Rules, start: Repo, rounds: seq<RoundDir>, turns: seq<seq<AgentTurn>>)
    ensures Follows(cfg, rules, start, rounds, [], turns, 0)
  {
  }

  lemma NeverTracksMeans(baseline: set<Path>, base: Commit, states: seq<Commit>, s: Commit)
    requires NeverTracks(baseline, base, states) && s in states
    ensures baseline !! s.tree.Keys
  {
  }

  /** What a modifier phase that is over tells: its round, its HEAD, its index and the flags of the run. */
  lemma PhaseReads(cfg: Config, rules: Rules, start: Repo, rounds: seq<RoundDir>, states: seq<Commit>,
                   turns: seq<seq<AgentTurn>>, i: nat, left: Repo)
    requires PhaseOver(cfg, rules, start, rounds, states, turns, i, left)
    ensures var found := FoundAt(i, start, states, turns);
            var concluded := Concluded(i, turns[i], found.head, rules);
            && |rounds| == |turns| == i + 1 && |states| == i / 2
            && (concluded ==> Succeeded(rounds[i]))
            && (concluded && !HeadMoved(turns) ==> left.head == found.head)
            && (concluded && i == 0 ==> left.index != left.head.tree || left.head != found.head)
            && (!concluded && i > 0 && !AbortedSuccess(turns) ==> !Succeeded(rounds[i]))
            && (!concluded ==> FailureFits(PhaseFailure(cfg, turns[i]), rounds[i], AbortedSuccess(turns)))
            && (FilesOnly(start, turns) && rules.baseline !! found.index.Keys && rules.baseline !! found.head.tree.Keys
                ==> rules.baseline !! left.index.Keys && rules.baseline !! left.head.tree.Keys)
            && (concluded ==> (Changes(turns[i][|turns[i]| - 1], found.head, rules) <==>
                                 left.index != left.head.tree || left.head != found.head))
  {
    hide FoundAt, AttemptsFit, Chained, IsAllowed, Moves, AbortsWithSuccess, EditsFiles, Succeeded, RanOutOfTime,
         Staged, RolledBack;
    var found, own := FoundAt(i, start, states, turns), turns[i];
    ModifierRoundReads(cfg, i, rounds[i], own, found.head, rules);
    HeadStays(cfg, i, rounds[i].metadata, own, found, rules);
    if EditsFiles(own) && rules.baseline !! found.index.Keys && rules.baseline !! found.head.tree.Keys {
      BaselineStaysOut(cfg, i, rounds[i].metadata, own, found, rules);
    }
  }

  lemma NoAttempts(cfg: Config, i: nat, found: Repo, rules: Rules)
    ensures AttemptsOf([]) == [] && Unfinished(cfg, i, [], found.head, rules) && Chained([], found, rules) && AreReal(i, [])
  {
  }

  lemma AttemptsGrow(own: seq<AgentTurn>, turn: AgentTurn)
    ensures AttemptsOf(own + [turn]) == AttemptsOf(own) + [Attempt(|own| + 1, turn.result.status, turn.result.timeoutKind)]
  {
  }

  /** One more attempt finds the repository that the ones before left. */
  lemma ChainGrows(own: seq<AgentTurn>, turn: AgentTurn, found: Repo, rules: Rules)
    requires Chained(own, found, rules) && turn.before == RepoAfter(own, found, rules)
    ensures Chained(own + [turn], found, rules)
    ensures RepoAfter(own + [turn], found, rules) == SettledAfter(turn, found.head, rules)
  {
    hide SettledAfter;
    var more := own + [turn];
    forall k | 0 <= k < |more| ensures FindsWhatWasLeft(more, k, found, rules) {
      if k < |own| {
        assert FindsWhatWasLeft(own, k, found, rules);
      }
    }
  }

  /** One more attempt that did not conclude. */
  lemma AttemptFails(cfg: Config, i: nat, own: seq<AgentTurn>, turn: AgentTurn, reset: Commit, rules: Rules)
    requires Unfinished(cfg, i, own, reset, rules) && AreReal(i, own)
    requires IsAllowed(cfg, rules, i, turn) && IsReal(i, turn) && !Concludes(i, turn, reset, rules)
    ensures Unfinished(cfg, i, own + [turn], reset, rules) && AreReal(i, own + [turn])
    ensures AttemptsOf(own + [turn]) == AttemptsOf(own) + [Attempt(|own| + 1, turn.result.status, turn.result.timeoutKind)]
  {
    hide IsAllowed, Concludes, IsReal;
    AttemptsGrow(own, turn);
  }

  lemma UnfinishedGrows(cfg: Config, i: nat, own: seq<AgentTurn>, turn: AgentTurn, reset: Commit, rules: Rules)
    requires Unfinished(cfg, i, own, reset, rules)
    requires IsAllowed(cfg, rules, i, turn) && !Concludes(i, turn, reset, rules)
    ensures Unfinished(cfg, i, own + [turn], reset, rules)
  {
    hide IsAllowed, Concludes;
  }

  /** The timeout recorded for attempts of which none concluded. */
  function LastTimeout(turns: seq<AgentTurn>): Option<TimeoutKind> {
    if turns == [] then None else turns[|turns| - 1].result.timeoutKind
  }

  lemma UnfinishedFits(cfg: Config, i: nat, own: seq<AgentTurn>, reset: Commit, rules: Rules)
    requires Unfinished(cfg, i, own, reset, rules) && |own| <= cfg.maxAgentAttempts
    ensures var recorded := if |own| < cfg.maxAgentAttempts then Some(A.TotalDeadline) else LastTimeout(own);
            AttemptsFit(cfg, i, Some(Metadata(RoleAt(i), AttemptsOf(own), recorded)), own, reset, rules)
    ensures !Concluded(i, own, reset, rules)
  {
    hide IsAllowed, Concludes;
  }

  lemma ConcludedFits(cfg: Config, i: nat, own: seq<AgentTurn>, turn: AgentTurn, reset: Commit, rules: Rules)
    requires Unfinished(cfg, i, own, reset, rules) && |own| < cfg.maxAgentAttempts
    requires IsAllowed(cfg, rules, i, turn) && Concludes(i, turn, reset, rules)
    ensures AttemptsFit(cfg, i, Some(Metadata(RoleAt(i), AttemptsOf(own + [turn]), LastTimeout(own))), own + [turn], reset, rules)
    ensures Concluded(i, own + [turn], reset, rules)
  {
    hide IsAllowed, Concludes;
    assert (own + [turn])[..|own|] == own;
  }

  /** A recorded review extends the log, its layout and its flags. */
  lemma ReviewCounts(cfg: Config, rules: Rules, start: Repo, base: Commit, rounds: seq<RoundDir>, states: seq<Commit>,
                     turns: seq<seq<AgentTurn>>, k: nat, round: RoundDir, own: seq<AgentTurn>, reset: Commit)
    requires Layout(cfg, base, rounds, states, k, k) && |rounds| == |turns| == 2 * k + 1 && k < cfg.maxReviews
    requires |states| == k + 1 && round.id == RoundId(2 * k + 1, Review)
    requires round.patch == Some(Diff(base.tree, states[k].tree))
    requires Follows(cfg, rules, start, rounds, states, turns, |rounds|)
    requires AttemptsFit(cfg, 2 * k + 1, round.metadata, own, reset, rules) && IsReply(round.review, own)
    ensures var counted := if round.review.Some? then k + 1 else k;
            && Layout(cfg, base, rounds + [round], states, counted, k)
            && (round.review == None ==> ReasonFits(ReviewFailure(cfg, own), rounds + [round], k, k))
    ensures Follows(cfg, rules, start, rounds + [round], states, turns + [own], |rounds| + 1)
    ensures FoundAt(2 * k + 2, start, states, turns + [own]) == FoundAt(2 * k + 2, start, states, turns)
    ensures HeadMoved(turns + [own]) == HeadMoved(turns) && FilesOnly(start, turns + [own]) == FilesOnly(start, turns)
  {
    hide RoundAt, Layout, Follows, AttemptsFit, IsReply, FoundAt, HeadMoved, FilesOnly, AbortedSuccess, ReviewFailure, Diff,
         RanOutOfTime, Succeeded, Concluded, ReviewSchema.Consistent;
    ReviewRoundReads(cfg, 2 * k + 1, round, own, reset, rules);
    ReviewFailsForReviewers(cfg, own);
    ReviewFollows(cfg, rules, start, rounds, states, turns, round, own, reset);
    OneMoreRound(start, turns, own);
    RestsThroughReview(2 * k + 2, start, states, turns, own);
    MetadataOfReview(cfg, base, round, 2 * k + 1, states, own, reset, rules);
    LayoutAddsReview(cfg, base, rounds, states, k, rounds + [round], if round.review.Some? then k + 1 else k);
  }

  /** The turns of a revision are over: nothing else changed yet. */
  lemma RevisionRuns(cfg: Config, rules: Rules, start: Repo, base: Commit, before: seq<RoundDir>, states: seq<Commit>,
                     done: seq<seq<AgentTurn>>, k: nat, saved: seq<Saved>, rounds: seq<RoundDir>, own: seq<AgentTurn>,
                     reset: Commit)
    requires Layout(cfg, base, before, states, k + 1, k) && |before| == |done| == 2 * k + 2 && k < cfg.maxReviews
    requires |rounds| == 2 * k + 3
    requires rounds == before + [RoundDir(RoundId(2 * k + 2, RevisionKind(cfg, k + 1)), rounds[2 * k + 2].metadata, None, None)]
    requires History(states, saved, false, HeadMoved(done)) && Follows(cfg, rules, start, before, states, done, 2 * k + 2)
    requires AttemptsFit(cfg, 2 * k + 2, rounds[2 * k + 2].metadata, own, reset, rules)
    ensures Layout(cfg, base, rounds, states, k + 1, k) && History(states, saved, false, HeadMoved(done + [own]))
    ensures Follows(cfg, rules, start, rounds, states, done + [own], 2 * k + 2)
    ensures FoundAt(2 * k + 2, start, states, done + [own]) == FoundAt(2 * k + 2, start, states, done)
    ensures FilesOnly(start, done + [own]) ==> FilesOnly(start, done)
  {
    hide RoundAt, Layout, History, Follows, AttemptsFit, FoundAt, HeadMoved, FilesOnly, AbortedSuccess;
    OneMoreRound(start, done, own);
    HistoryStays(states, saved, false, HeadMoved(done), HeadMoved(done + [own]));
    RestsThroughReview(2 * k + 2, start, states, done, own);
    FollowsStill(cfg, rules, start, before, states, done, 2 * k + 2, rounds, states, done + [own]);
    MetadataOfModifier(cfg, base, rounds[2 * k + 2], 2 * k + 2, states, own, reset, rules);
    LayoutAddsFailedRevision(cfg, base, before, states, k, rounds);
  }

  /** A concluded revision and its checkpoint extend the states, the history and the log. */
  lemma RevisionCounts(cfg: Config, rules: Rules, start: Repo, base: Commit, rounds: seq<RoundDir>, states: seq<Commit>,
                       turns: seq<seq<AgentTurn>>, k: nat, saved: seq<Saved>, saved': seq<Saved>, left: Repo,
                       next: Commit, message: string, changed: bool)
    requires Layout(cfg, base, rounds, states, k + 1, k) && |rounds| == 2 * k + 3 && Blocks(rounds[2 * k + 1])
    requires History(states, saved, false, HeadMoved(turns)) && |states| == k + 1
    requires FilesOnly(start, turns) ==> NeverTracks(rules.baseline, base, states)
    requires Follows(cfg, rules, start, rounds, states, turns, 2 * k + 2)
    requires PhaseOver(cfg, rules, start, rounds, states, turns, 2 * k + 2, left)
    requires FoundAt(2 * k + 2, start, states, turns).head == states[k]
    requires FoundAt(2 * k + 2, start, states, turns).index == states[k].tree
    requires |turns| == 2 * k + 3 && Concluded(2 * k + 2, turns[2 * k + 2], states[k], rules)
    requires message == RevisionMessage(cfg, k + 1) && next == CommitOf(left, message)
    requires saved' == if left.index == left.head.tree then saved else saved + [Saved(message, next)]
    requires changed <==> left.index != left.head.tree || left.head != states[k]
    ensures Layout(cfg, base, rounds, states + [next], k + 1, k + 1)
    ensures History(states + [next], saved', !changed, HeadMoved(turns))
    ensures FilesOnly(start, turns) ==> NeverTracks(rules.baseline, base, states + [next])
    ensures Follows(cfg, rules, start, rounds, states + [next], turns, 2 * k + 3)
    ensures FoundAt(2 * k + 4, start, states + [next], turns) == Repo(next, next.tree, left.worktree)
  {
    hide RoundAt, RevisionMessage, Layout, History, NeverTracks, Blocks, Succeeded, Follows, FoundAt, Concluded,
         HeadMoved, FilesOnly, PhaseOver;
    var i := 2 * k + 2;
    assert MessageAt(cfg, i) == message;
    PhaseReads(cfg, rules, start, rounds, states, turns, i, left);
    ConcludedPhaseFollows(cfg, rules, start, rounds, states, turns, i, left);
    LayoutCountsRevision(cfg, base, rounds, states, k, next);
    HistoryGrows(states, saved, HeadMoved(turns), next, saved', message, changed);
    if FilesOnly(start, turns) {
      NeverTracksMeans(rules.baseline, base, states, states[k]);
      NeverTracksGrows(rules.baseline, base, states, next);
    }
  }

  /** The concluded initial phase and its checkpoint open the log. */
  lemma InitialCounts(cfg: Config, rules: Rules, start: Repo, base: Commit, rounds: seq<RoundDir>,
                      turns: seq<seq<AgentTurn>>, left: Repo, next: Commit, message: string, saved: seq<Saved>)
    requires PhaseOver(cfg, rules, start, rounds, [], turns, 0, left) && start.head == base
    requires |rounds| == 1 && RoundAt(cfg, base, rounds[0], 0, [])
    requires |turns| == 1 && Concluded(0, turns[0], base, rules) && rules.baseline !! start.index.Keys
    requires message == MessageAt(cfg, 0) && next == CommitOf(left, message)
    requires saved == if left.index == left.head.tree then [] else [Saved(message, next)]
    ensures Layout(cfg, base, rounds, [next], 0, 0)
    ensures History([next], saved, false, HeadMoved(turns))
    ensures FilesOnly(start, turns) ==> NeverTracks(rules.baseline, base, [next])
    ensures Follows(cfg, rules, start, rounds, [next], turns, 1)
    ensures FoundAt(2, start, [next], turns) == Repo(next, next.tree, left.worktree)
  {
    hide FoundAt, Follows, PhaseOver, HeadMoved, FilesOnly, Concluded, Succeeded;
    InitialFindsTheStart(start, [], turns);
    FilesOnlyStartsClean(start, turns);
    PhaseReads(cfg, rules, start, rounds, [], turns, 0, left);
    NothingFollows(cfg, rules, start, rounds, turns);
    ConcludedPhaseFollows(cfg, rules, start, rounds, [], turns, 0, left);
    assert [] + [next] == [next];
    assert RoundAt(cfg, base, rounds[0], 0, [next]);
  }

  /** An initial phase that failed leaves nothing but its round. */
  lemma InitialFails(cfg: Config, rules: Rules, start: Repo, rounds: seq<RoundDir>, turns: seq<seq<AgentTurn>>, left: Repo)
    requires PhaseOver(cfg, rules, start, rounds, [], turns, 0, left)
    requires |rounds| == |turns| == 1 && !Concluded(0, turns[0], start.head, rules)
    requires rules.baseline !! start.index.Keys
    ensures Follows(cfg, rules, start, rounds, [], turns, 1) && left.head == start.head
    ensures FilesOnly(start, turns) ==> NeverTracks(rules.baseline, start.head, [])
    ensures FailureFits(PhaseFailure(cfg, turns[0]), rounds[0], AbortedSuccess(turns))
  {
    hide FoundAt, Follows, PhaseOver, HeadMoved, FilesOnly, AbortedSuccess, Concluded, PhaseFailure, FailureFits;
    InitialFindsTheStart(start, [], turns);
    FilesOnlyStartsClean(start, turns);
    NothingFollows(cfg, rules, start, rounds, turns);
    PhaseReads(cfg, rules, start, rounds, [], turns, 0, left);
    FailedPhaseFollows(cfg, rules, start, rounds, [], turns, 0, left);
  }

  lemma FilesOnlyStartsClean(start: Repo, turns: seq<seq<AgentTurn>>)
    ensures FilesOnly(start, turns) ==> start.index == start.head.tree
  {
  }

  class Engine {
    const cfg: Config
    const ws: Workspace

    var now: int
    var deadline: real
    var sequence: nat
    var baseline: set<Path>
    var baseCommit: Commit
    var lastCheckpoint: Commit
    var checkpoints: seq<Saved>
    var reviewCount: nat
    var revisionCount: nat
    var noChangeRevision: bool

    /** The output directory: rounds/ in creation order, final/patch.diff. */
    var rounds: seq<RoundDir>
    var finalPatch: Option<Patch>

    /** HEAD after the initial turn and after each counted revision. */
    ghost var states: seq<Commit>
    /** The repository at the start, and what the agents did in each round. */
    ghost var start: Repo
    ghost var turns: seq<seq<AgentTurn>>
    /** Readings of the clock: at the start, before each further round, and when an attempt was refused. */
    ghost var startedAt: int
    ghost var checks: seq<int>
    ghost var refusals: seq<Option<int>>

    constructor (cfg: Config, ws: Workspace, now: int)
      ensures this.cfg == cfg && this.ws == ws && Fresh()
    {
      this.cfg, this.ws, this.now := cfg, ws, now;
      deadline, sequence, baseline := 0.0, 0, {};
      baseCommit, lastCheckpoint, checkpoints := Root(map[]), Root(map[]), [];
      reviewCount, revisionCount, noChangeRevision := 0, 0, false;
      rounds, finalPatch := [], None;
      states, start, turns := [], Repo(Root(map[]), map[], map[]), [];
      startedAt, checks, refusals := now, [], [];
    }

    ghost predicate Fresh()
      reads this`sequence, this`checkpoints, this`reviewCount, this`revisionCount, this`noChangeRevision, this`rounds,
            this`states, this`turns, this`checks, this`refusals
    {
      && sequence == 0 && checkpoints == [] && reviewCount == 0 && revisionCount == 0
      && !noChangeRevision && rounds == [] && states == [] && turns == [] && checks == [] && refusals == []
    }

    ghost function TheRules(): Rules
      reads this`baseline, this`deadline
    {
      Rules(baseline, ws.ignores, deadline)
    }

    // ------------------------------------------------------------------ clock

    method Now() returns (t: int)
      modifies this`now
      ensures t == now >= old(now)
    {
      var elapsed :| elapsed >= 0;
      now := now + elapsed;
      t := now;
    }

    function Left(t: int): real
      reads this`deadline
    {
      LeftAt(deadline, t)
    }

    method RemainingSec() returns (left: real)
      modifies this`now
      ensures now >= old(now) && left == Left(now)
    {
      var t := Now();
      left := Left(t);
    }

    method Expired() returns (expired: bool)
      modifies this`now
      ensures now >= old(now)
      ensures expired <==> now as real >= deadline
    {
      var t := Now();
      expired := t as real >= deadline;
    }

    /** The time limit of one turn: its own limit when that fits, otherwise what is left. */
    method TurnTimeout(stage: Option<real>)
      returns (timeoutMs: int, kind: A.WallClockKind, ghost left: real)
      modifies this`now
      ensures now >= old(now) && left == Left(now)
      ensures timeoutMs as real <= left * 1000.0
      ensures kind == A.StageTimeout <==> stage.Some? && stage.value <= left
      ensures timeoutMs == ((if kind == A.StageTimeout then stage.value else left) * 1000.0).Floor
    {
      var remaining := RemainingSec();
      left := remaining;
      if stage.Some? && stage.value <= remaining {
        timeoutMs, kind := (stage.value * 1000.0).Floor, A.StageTimeout;
      } else {
        timeoutMs, kind := (remaining * 1000.0).Floor, A.TotalDeadline;
      }
    }

    // ----------------------------------------------------------------- agents

    /** One agent run: any time may pass, and its callbacks may come in any order. */
    method RunTurn(kind: A.WallClockKind) returns (result: TurnResult)
      modifies this`now
      ensures now >= old(now)
      ensures CanReturn(kind, result)
      ensures result.ok ==> result.status == SUCCESS && result.timeoutKind == None
    {
      hide A.Play, A.LastStatus, A.FirstClaim, A.FinalText;
      var t := Now();
      var answersRequests: bool, events: nat := *, *;
      var turn := new A.Turn(A.Setup(kind, answersRequests));
      var returned, schedule := turn.RunTurn(events);
      result := TurnResult(returned.ok, returned.status, returned.timeoutKind, returned.finalText);
      assert ReturnsAfter(A.Setup(kind, answersRequests), schedule, result);
    }

    /** A modifier run may leave the repository in any state. */
    method RunModifier(kind: A.WallClockKind) returns (result: TurnResult)
      modifies this`now, ws
      ensures now >= old(now)
      ensures CanReturn(kind, result)
      ensures result.ok ==> result.status == SUCCESS && result.timeoutKind == None
    {
      result := RunTurn(kind);
      ws.head, ws.index, ws.worktree := *, *, *;
    }

    /** The check before each attempt: enough time must be left, and the turn gets no more. */
    method Admit(stage: Option<real>) returns (admitted: Option<A.WallClockKind>, ghost launch: Launch)
      modifies this`now
      ensures now >= old(now) && old(now) <= launch.checkedAt <= now
      ensures admitted.Some? ==>
                WithinBudget(cfg, deadline, launch) && IsLimitedBy(deadline, stage, admitted.value, launch)
      ensures admitted == None ==> LeftAt(deadline, launch.checkedAt) < cfg.minTurnSec
    {
      var left := RemainingSec();
      launch := Launch(now, now, 0);
      if left < cfg.minTurnSec {
        return None, launch;
      }
      var timeoutMs, kind, atStart := TurnTimeout(stage);
      return Some(kind), Launch(launch.checkedAt, now, timeoutMs);
    }

    // ------------------------------------------------------------------ turns

    method NewRoundDir(kind: RoundKind)
      modifies this`sequence, this`rounds
      ensures sequence == old(sequence) + 1
      ensures rounds == old(rounds) + [RoundDir(RoundId(old(sequence), kind), None, None, None)]
    {
      rounds := rounds + [RoundDir(RoundId(sequence, kind), None, None, None)];
      sequence := sequence + 1;
    }

    method CloseRound(meta: Metadata)
      requires |rounds| > 0
      modifies this`rounds
      ensures rounds == old(rounds)[..|old(rounds)| - 1]
                        + [old(rounds)[|old(rounds)| - 1].(metadata := Some(meta))]
    {
      rounds := rounds[|rounds| - 1 := rounds[|rounds| - 1].(metadata := Some(meta))];
    }

    /** Roll a failed turn back, or stage what a successful one did. */
    method Settle(ok: bool, resetCommit: Commit) returns (changed: bool)
      modifies ws
      ensures ws.View() == SettledRepo(ok, old(ws.View()), resetCommit, TheRules())
      ensures ok ==> (changed <==> ws.index != ws.head.tree || ws.head != resetCommit)
    {
      if !ok {
        ws.ResetTo(resetCommit, baseline);
        return false;
      }
      var headNow := ws.head;
      var staged := ws.StageAllExcept(baseline);
      changed := ws.HasStagedChanges() || headNow != resetCommit;
    }

    /** One attempt of a modifier phase, None when there was no time left for it. */
    method ModifierAttempt(timeoutSec: Option<real>, resetCommit: Commit, requireChange: bool, ghost i: nat)
      returns (result: Option<TurnResult>, outcome: ModifierOutcome, ghost turn: AgentTurn)
      requires i % 2 == 0 && timeoutSec == StageLimit(cfg, i) && (requireChange <==> i == 0)
      modifies this`now, ws
      ensures now >= old(now)
      ensures result == None ==>
                && ws.View() == old(ws.View()) && outcome == ModifierOutcome(false, false, "", Some(FailTimeout))
                && LeftAt(deadline, turn.launch.checkedAt) < cfg.minTurnSec
      ensures result.Some? ==>
                && turn.result == result.value && turn.before == old(ws.View())
                && IsAllowed(cfg, TheRules(), i, turn) && IsReal(i, turn)
                && ws.View() == SettledAfter(turn, resetCommit, TheRules())
                && outcome == TurnOutcome(i, turn, resetCommit, TheRules())
    {
      hide Staged, RolledBack, CanReturn, WithinBudget, IsLimitedBy;
      outcome := ModifierOutcome(false, false, "", Some(FailTimeout));
      var admitted, launch := Admit(timeoutSec);
      turn := AgentTurn(launch, A.TotalDeadline, TurnResult(false, "", None, ""), ws.View(), ws.View(), None);
      if admitted == None {
        return None, outcome, turn;
      }
      var reported := RunModifier(admitted.value);
      turn := AgentTurn(launch, admitted.value, reported, old(ws.View()), ws.View(), None);
      result := Some(reported);
      var changed := Settle(reported.ok, resetCommit);
      if !reported.ok {
        outcome := outcome.(failKind := Some(if reported.timeoutKind.Some? then FailTimeout else FailProcess));
      } else if requireChange && !changed {
        outcome := outcome.(failKind := Some(FailEmpty));
      } else {
        outcome := ModifierOutcome(true, changed, reported.finalText, None);
      }
    }

    /** The attempts of a modifier phase: each failed one is rolled back to `resetCommit`. */
    method ModifierAttempts(timeoutSec: Option<real>, resetCommit: Commit, requireChange: bool, ghost i: nat)
      returns (outcome: ModifierOutcome, attempts: seq<Attempt>, failKind: Option<FailKind>,
               terminal: Option<TimeoutKind>, ghost own: seq<AgentTurn>, ghost refusal: Option<int>)
      requires i % 2 == 0 && timeoutSec == StageLimit(cfg, i) && (requireChange <==> i == 0)
      requires ws.head == resetCommit
      modifies this`now, ws
      ensures now >= old(now)
      ensures var found, timeoutKind := old(ws.View()), if failKind == Some(FailTimeout) then terminal else None;
              && AttemptsFit(cfg, i, Some(Metadata(Modifier, attempts, timeoutKind)), own, resetCommit, TheRules())
              && AreReal(i, own) && RefusalFits(cfg, TheRules(), i, own, resetCommit, refusal)
              && Chained(own, found, TheRules()) && ws.View() == RepoAfter(own, found, TheRules())
              && outcome == PhaseOutcome(cfg, i, own, resetCommit, TheRules())
    {
      hide SettledAfter, Concludes, AttemptsFit, Unfinished, Chained, AttemptsOf, Changes, AreReal, IsReal, WithinBudget,
           IsLimitedBy;
      ghost var found, rules := ws.View(), TheRules();
      attempts, failKind, terminal, own, refusal := [], None, None, [], None;
      outcome := ModifierOutcome(false, false, "", None);
      NoAttempts(cfg, i, found, rules);
      for attempt := 1 to cfg.maxAgentAttempts + 1
        invariant now >= old(now) && |own| == attempt - 1 && attempts == AttemptsOf(own)
        invariant Unfinished(cfg, i, own, resetCommit, rules) && Chained(own, found, rules) && AreReal(i, own)
        invariant ws.View() == RepoAfter(own, found, rules)
        invariant FailuresAre(own, failKind, terminal)
      {
        var result;
        ghost var turn;
        result, outcome, turn := ModifierAttempt(timeoutSec, resetCommit, requireChange, i);
        if result == None {
          failKind, terminal, refusal := Some(FailTimeout), Some(A.TotalDeadline), Some(turn.launch.checkedAt);
          UnfinishedFits(cfg, i, own, resetCommit, rules);
          return;
        }
        AttemptsGrow(own, turn);
        ChainGrows(own, turn, found, rules);
        AreRealGrows(i, own, turn);
        attempts := attempts + [Attempt(attempt, result.value.status, result.value.timeoutKind)];
        if outcome.ok {
          ConcludedFits(cfg, i, own, turn, resetCommit, rules);
          own := own + [turn];
          return;
        }
        UnfinishedGrows(cfg, i, own, turn, resetCommit, rules);
        own := own + [turn];
        failKind := outcome.failKind;
        if !result.value.ok {
          terminal := result.value.timeoutKind;
        }
      }
      UnfinishedFits(cfg, i, own, resetCommit, rules);
      outcome := ModifierOutcome(false, false, "", Some(if failKind.Some? then failKind.value else FailProcess));
    }

    /** One modifier phase with retries. */
    method ModifierTurn(kind: RoundKind, timeoutSec: Option<real>, resetCommit: Commit, requireChange: bool)
      returns (outcome: ModifierOutcome, ghost own: seq<AgentTurn>, ghost refusal: Option<int>)
      requires sequence % 2 == 0 && timeoutSec == StageLimit(cfg, sequence) && (requireChange <==> sequence == 0)
      requires ws.head == resetCommit
      modifies this`now, this`sequence, this`rounds, ws
      ensures now >= old(now)
      ensures var i, found := old(sequence), old(ws.View());
              && sequence == i + 1 && |rounds| == |old(rounds)| + 1
              && rounds == old(rounds) + [RoundDir(RoundId(i, kind), rounds[|old(rounds)|].metadata, None, None)]
              && AttemptsFit(cfg, i, rounds[|old(rounds)|].metadata, own, resetCommit, TheRules()) && AreReal(i, own)
              && RefusalFits(cfg, TheRules(), i, own, resetCommit, refusal)
              && Chained(own, found, TheRules()) && ws.View() == RepoAfter(own, found, TheRules())
              && outcome == PhaseOutcome(cfg, i, own, resetCommit, TheRules())
    {
      hide AttemptsFit, Chained, RepoAfter, PhaseOutcome, AreReal, RefusalFits;
      NewRoundDir(kind);
      var attempts, failKind, terminal;
      outcome, attempts, failKind, terminal, own, refusal :=
        ModifierAttempts(timeoutSec, resetCommit, requireChange, old(sequence));
      CloseRound(Metadata(Modifier, attempts, if failKind == Some(FailTimeout) then terminal else None));
    }

    /** What the two variables of a modifier phase remember of its failed turns. */
    static ghost predicate FailuresAre(turns: seq<AgentTurn>, failKind: Option<FailKind>, terminal: Option<TimeoutKind>) {
      if turns == [] then failKind == None
      else
        && failKind == Some(TurnFailure(turns[|turns| - 1]))
        && (if failKind == Some(FailTimeout) then terminal else None) == turns[|turns| - 1].result.timeoutKind
    }

    /** The attempts of a review round: the first reply that parses is the review. */
    method ReviewAttempts(ghost i: nat)
      returns (review: Option<ReviewSchema.Review>, reason: DegradedReason, attempts: seq<Attempt>,
               terminal: Option<TimeoutKind>, ghost own: seq<AgentTurn>, ghost refusal: Option<int>)
      requires i % 2 == 1
      modifies this`now
      ensures now >= old(now)
      ensures var meta := Metadata(Reviewer, attempts, if reason == DeadlineReached then terminal else None);
              AttemptsFit(cfg, i, Some(meta), own, ws.head, TheRules())
      ensures IsReply(review, own) && AreReal(i, own) && RefusalFits(cfg, TheRules(), i, own, ws.head, refusal)
      ensures review == None ==> reason == ReviewFailure(cfg, own)
    {
      hide ReviewSchema.ParseReview, ReviewSchema.Consistent, WithinBudget, IsLimitedBy, CanReturn, AttemptsFit, Unfinished,
           AttemptsOf, AreReal;
      ghost var rules, found := TheRules(), ws.View();
      attempts, reason, terminal, review, own, refusal := [], ReviewerFailed, None, None, [], None;
      NoAttempts(cfg, i, found, rules);
      for attempt := 1 to cfg.maxAgentAttempts + 1
        invariant now >= old(now) && review == None
        invariant |own| == attempt - 1 && attempts == AttemptsOf(own)
        invariant Unfinished(cfg, i, own, found.head, rules) && AreReal(i, own)
        invariant ReviewFailuresAre(own, reason, terminal) && IsReply(None, own)
      {
        var admitted, launch := Admit(cfg.reviewerTimeoutSec);
        if admitted == None {
          reason, terminal, refusal := DeadlineReached, Some(A.TotalDeadline), Some(launch.checkedAt);
          UnfinishedFits(cfg, i, own, found.head, rules);
          return;
        }
        var result := RunTurn(admitted.value);
        attempts := attempts + [Attempt(attempt, result.status, result.timeoutKind)];
        if !result.ok {
          reason := if result.timeoutKind.Some? then DeadlineReached else ReviewerFailed;
          terminal := result.timeoutKind;
          ghost var turn := AgentTurn(launch, admitted.value, result, found, found, None);
          AttemptFails(cfg, i, own, turn, found.head, rules);
          own := own + [turn];
          continue;
        }
        var parsed := ReviewSchema.ReadReview(result.finalText);
        ghost var turn := AgentTurn(launch, admitted.value, result, found, found, ReadFrom(result.finalText));
        if parsed.Err? {
          reason := InvalidReviewOutput;
          AttemptFails(cfg, i, own, turn, found.head, rules);
          own := own + [turn];
          continue;
        }
        ReviewSchema.ParsedReviewsAreConsistent(result.finalText);
        review := Some(parsed.value);
        AttemptsGrow(own, turn);
        AreRealGrows(i, own, turn);
        ConcludedFits(cfg, i, own, turn, found.head, rules);
        own := own + [turn];
        return;
      }
      UnfinishedFits(cfg, i, own, found.head, rules);
    }

    /** What the two variables of a review round remember of its failed turns. */
    static ghost predicate ReviewFailuresAre(turns: seq<AgentTurn>, reason: DegradedReason, terminal: Option<TimeoutKind>) {
      if turns == [] then reason == ReviewerFailed
      else
        var last := turns[|turns| - 1].result;
        && reason == (if last.ok then InvalidReviewOutput else if last.timeoutKind.Some? then DeadlineReached else ReviewerFailed)
        && (if reason == DeadlineReached then terminal else None) == last.timeoutKind
    }

    /** One review round over a private copy of the repository. */
    method ReviewTurn()
      returns (review: Option<ReviewSchema.Review>, failReason: Option<DegradedReason>, ghost own: seq<AgentTurn>,
               ghost refusal: Option<int>)
      requires sequence % 2 == 1
      modifies this`now, this`sequence, this`rounds
      ensures now >= old(now)
      ensures var i := old(sequence);
              && sequence == i + 1 && |rounds| == |old(rounds)| + 1
              && rounds == old(rounds) + [RoundDir(RoundId(i, Review), rounds[|old(rounds)|].metadata,
                                                   Some(Diff(baseCommit.tree, ws.head.tree)), review)]
              && AttemptsFit(cfg, i, rounds[|old(rounds)|].metadata, own, ws.head, TheRules())
              && IsReply(review, own) && AreReal(i, own)
              && RefusalFits(cfg, TheRules(), i, own, ws.head, refusal)
              && failReason == if review.Some? then None else Some(ReviewFailure(cfg, own))
    {
      hide AttemptsFit, IsReply, ReviewFailure, Diff, AreReal, RefusalFits;
      NewRoundDir(Review);
      var patch := ws.DiffBinary(baseCommit);
      rounds := rounds[|rounds| - 1 := rounds[|rounds| - 1].(patch := Some(patch))];
      var reason, attempts, terminal;
      review, reason, attempts, terminal, own, refusal := ReviewAttempts(old(sequence));
      rounds := rounds[|rounds| - 1 := rounds[|rounds| - 1].(review := review)];
      CloseRound(Metadata(Reviewer, attempts, if reason == DeadlineReached then terminal else None));
      failReason := if review.Some? then None else Some(reason);
    }

    method Checkpoint(message: string)
      modifies this`lastCheckpoint, this`checkpoints, ws`head
      ensures lastCheckpoint == ws.head == CommitOf(old(ws.View()), message) && ws.head.tree == old(ws.index)
      ensures checkpoints == if old(ws.index) == old(ws.head).tree then old(checkpoints)
                             else old(checkpoints) + [Saved(message, ws.head)]
    {
      var committed := ws.CommitCheckpoint(message);
      lastCheckpoint := ws.head;
      if committed.Some? {
        checkpoints := checkpoints + [Saved(message, ws.head)];
      }
    }

    // -------------------------------------------------------------- main loop

    ghost predicate Explained(n: nat)
      reads this`start, this`baseCommit, this`baseline, this`deadline, this`rounds, this`states, this`turns
    {
      start.head == baseCommit && Follows(cfg, TheRules(), start, rounds, states, turns, n)
    }

    ghost predicate BaselineNeverTracked()
      reads this`start, this`baseCommit, this`baseline, this`states, this`turns
    {
      FilesOnly(start, turns) ==> NeverTracks(baseline, baseCommit, states)
    }

    ghost predicate RefusalsAre()
      reads this`start, this`baseline, this`deadline, this`turns, this`refusals
    {
      RefusalsFit(cfg, TheRules(), start, turns, refusals)
    }

    /** The clock was checked before every further round, and what it said is why the loop goes on or stops. */
    ghost predicate OnTime(stopped: bool)
      reads this`deadline, this`rounds, this`checks
    {
      rounds != [] && Clocked(deadline, |rounds|, checks, stopped)
    }

    /** What holds whenever control is between two turns. */
    ghost predicate Settled()
      reads this`sequence, this`rounds, this`turns, this`states, this`reviewCount, this`revisionCount, this`baseCommit,
            this`lastCheckpoint, this`checkpoints, this`noChangeRevision, this`start, this`baseline, this`deadline,
            this`refusals, ws
    {
      && sequence == |rounds| == |turns|
      && |states| == revisionCount + 1
      && Layout(cfg, baseCommit, rounds, states, reviewCount, revisionCount)
      && lastCheckpoint == ws.head && ws.head == states[|states| - 1] && ws.index == ws.head.tree
      && History(states, checkpoints, noChangeRevision, HeadMoved(turns))
      && BaselineNeverTracked() && Explained(|rounds|) && AllReal(turns) && RefusalsAre()
    }

    /** The repository is as the next modifier will find it. */
    ghost predicate IsAtRest(round: nat)
      reads this`start, this`states, this`turns, ws
    {
      ws.View() == FoundAt(2 * round, start, states, turns)
    }

    ghost predicate AtLoopHead(round: nat)
      reads this, ws
    {
      && 1 <= round <= cfg.maxReviews + 1
      && Settled() && OnTime(false) && IsAtRest(round) && !noChangeRevision
      && reviewCount == revisionCount == round - 1
      && |rounds| == |turns| == 2 * round - 1
    }

    ghost predicate Reviewed(round: nat)
      reads this, ws
    {
      && 1 <= round <= cfg.maxReviews
      && Settled() && OnTime(false) && IsAtRest(round) && !noChangeRevision
      && reviewCount == round && revisionCount == round - 1
      && |rounds| == |turns| == 2 * round
    }

    ghost predicate AtExit(outcome: Outcome, reason: Option<DegradedReason>)
      reads this, ws
    {
      && Settled()
      && ExitFits(cfg, outcome, reason, rounds, reviewCount, revisionCount, noChangeRevision,
                  AbortedSuccess(turns))
      && OnTime(IsStopped(cfg, rounds, reviewCount, revisionCount, noChangeRevision))
      && IsExplained(reason)
    }

    /** A failed last round is the reason that its turns give. */
    ghost predicate IsExplained(reason: Option<DegradedReason>)
      reads this`turns, this`reviewCount, this`revisionCount
    {
      ReasonExplained(cfg, turns, reviewCount, revisionCount, reason)
    }

    /** Review the current checkpoint, there being time, and count the review if it parsed. */
    method CountedReview(round: nat, ghost check: int)
      returns (review: Option<ReviewSchema.Review>, failReason: Option<DegradedReason>)
      requires AtLoopHead(round) && round <= cfg.maxReviews && check as real < deadline
      modifies this`now, this`sequence, this`rounds, this`turns, this`reviewCount, this`checks, this`refusals
      ensures OnTime(false)
      ensures review.Some? ==> Reviewed(round)
      ensures review == None ==> failReason.Some? && Settled() && reviewCount == round - 1 && |rounds| == 2 * round
      ensures review == None ==> ReasonFits(failReason.value, rounds, reviewCount, revisionCount) && IsExplained(failReason)
      ensures |rounds| == |turns| == 2 * round && rounds[2 * round - 1].review == review
    {
      hide AllReal, AreReal, RoundAt, Layout, History, NeverTracks, Follows, AttemptsFit, IsReply, FoundAt, HeadMoved,
           FilesOnly, ReviewFailure, ReasonFits, Diff, RefusalsFit, RefusalFits, Clocked;
      ghost var before, done, own, refusal := rounds, turns, [], None;
      ClockGoesOn(deadline, |rounds|, checks, check);
      review, failReason, own, refusal := ReviewTurn();
      ReviewCounts(cfg, TheRules(), start, baseCommit, before, states, done, revisionCount, rounds[|before|], own, ws.head);
      AllRealGrows(done, own);
      RefusalsGrow(cfg, TheRules(), start, done, refusals, own, ws.head, refusal);
      turns, refusals, checks := turns + [own], refusals + [refusal], checks + [check];
      if review.Some? {
        reviewCount := reviewCount + 1;
      }
    }

    /**
     * The review half of a round: leave the loop, or go on to revise. Without a counted blocking review
     * it leaves before the deadline only when the reviews are used up, the review failed or approved.
     */
    method ReviewPhase(round: nat) returns (exit: Option<(Outcome, Option<DegradedReason>)>, ghost check: int)
      requires AtLoopHead(round)
      modifies this`now, this`sequence, this`rounds, this`turns, this`reviewCount, this`checks, this`refusals
      ensures exit == None ==> Reviewed(round) && Blocks(rounds[2 * round - 1]) && check as real < deadline
      ensures exit.Some? ==> AtExit(exit.value.0, exit.value.1)
    {
      hide AllReal, AreReal, RoundAt, Layout, History, NeverTracks, Explained, BaselineNeverTracked, RefusalsAre, IsAtRest,
           HeadMoved, AbortedSuccess, ReviewFailure, Clocked, ExitFits, IsStopped, ReasonFits,
           Settled;
      check := now;
      ExitsBeforeReview(cfg, rounds, revisionCount, AbortedSuccess(turns));
      if round > cfg.maxReviews {
        return Some((MaxReviewsReached, None)), check;
      }
      var expired := Expired();
      check := now;
      if expired {
        ClockGoesOn(deadline, |rounds|, checks, check);
        checks := checks + [check];
        return Some((Degraded, Some(DeadlineReached))), check;
      }
      var review, failReason := CountedReview(round, check);
      ExitsAfterReview(cfg, rounds, reviewCount, revisionCount, failReason, AbortedSuccess(turns));
      if review == None {
        return Some((Degraded, failReason)), check;
      }
      if !review.value.hasBlockingFindings {
        return Some((Approved, None)), check;
      }
      expired := Expired();
      check := now;
      if expired {
        ClockGoesOn(deadline, |rounds|, checks, check);
        checks := checks + [check];
        return Some((Degraded, Some(DeadlineReached))), check;
      }
      return None, check;
    }

    /** A counted review is followed by a revision round whose turns are over. */
    ghost predicate Revised(round: nat)
      reads this, ws
    {
      && 1 <= round <= cfg.maxReviews && !noChangeRevision
      && sequence == |rounds| == |turns| && |rounds| == 2 * round + 1 && Blocks(rounds[2 * round - 1])
      && reviewCount == round && revisionCount == round - 1
      && |states| == revisionCount + 1
      && Layout(cfg, baseCommit, rounds, states, reviewCount, revisionCount)
      && lastCheckpoint == states[|states| - 1]
      && History(states, checkpoints, false, HeadMoved(turns))
      && BaselineNeverTracked() && Explained(2 * round) && AllReal(turns) && RefusalsAre() && OnTime(false)
      && PhaseOver(cfg, TheRules(), start, rounds, states, turns, 2 * round, ws.View())
      && FoundAt(2 * round, start, states, turns).head == lastCheckpoint
      && FoundAt(2 * round, start, states, turns).index == lastCheckpoint.tree
    }

    /** Revise after a blocking review. */
    method ReviseTurn(round: nat, ghost check: int) returns (revision: ModifierOutcome)
      requires Reviewed(round) && Blocks(rounds[2 * round - 1]) && check as real < deadline
      modifies this`now, this`sequence, this`rounds, this`turns, this`checks, this`refusals, ws
      ensures Revised(round)
      ensures revision == PhaseOutcome(cfg, 2 * round, turns[2 * round], lastCheckpoint, TheRules())
    {
      hide AllReal, AreReal, RoundAt, Layout, History, NeverTracks, Follows, AttemptsFit, Chained, FoundAt, RepoAfter,
           HeadMoved, FilesOnly, AbortedSuccess, PhaseOutcome, RefusalsFit, RefusalFits, Clocked;
      ghost var before, done, own, refusal := rounds, turns, [], None;
      ClockGoesOn(deadline, |rounds|, checks, check);
      ghost var found := ws.View();
      revision, own, refusal := ModifierTurn(RevisionKind(cfg, round), cfg.revisionTimeoutSec, lastCheckpoint, false);
      RevisionRuns(cfg, TheRules(), start, baseCommit, before, states, done, round - 1, checkpoints, rounds, own, lastCheckpoint);
      AllRealGrows(done, own);
      RefusalsGrow(cfg, TheRules(), start, done, refusals, own, lastCheckpoint, refusal);
      turns, refusals, checks := turns + [own], refusals + [refusal], checks + [check];
    }

    /** Checkpoint a revision that succeeded. */
    method CountRevision(round: nat, changed: bool)
      requires Revised(round) && Concluded(2 * round, turns[2 * round], lastCheckpoint, TheRules())
      requires changed <==> ws.index != ws.head.tree || ws.head != lastCheckpoint
      modifies this`lastCheckpoint, this`checkpoints, this`revisionCount, this`states,
               this`noChangeRevision, ws`head
      ensures Settled() && IsAtRest(round + 1)
      ensures revisionCount == round && noChangeRevision == !changed
    {
      hide AllReal, RoundAt, RevisionMessage, Layout, History, NeverTracks, Blocks, Follows, FoundAt, Concluded,
           HeadMoved, FilesOnly, PhaseOver;
      ghost var k, recorded, left := revisionCount, checkpoints, ws.View();
      revisionCount := revisionCount + 1;
      var message := RevisionMessage(cfg, round);
      Checkpoint(message);
      RevisionCounts(cfg, TheRules(), start, baseCommit, rounds, states, turns, k, recorded, checkpoints, left, ws.head,
                     message, changed);
      states, noChangeRevision := states + [ws.head], !changed;
    }

    /** The revision half of a round. */
    method RevisionPhase(round: nat, ghost check: int) returns (exit: Option<(Outcome, Option<DegradedReason>)>)
      requires Reviewed(round) && Blocks(rounds[2 * round - 1]) && check as real < deadline
      modifies this`now, this`sequence, this`rounds, this`turns, this`lastCheckpoint, this`checkpoints,
               this`revisionCount, this`states, this`noChangeRevision, this`checks, this`refusals, ws
      ensures exit == None ==> AtLoopHead(round + 1)
      ensures exit.Some? ==> AtExit(exit.value.0, exit.value.1)
    {
      hide AllReal, AreReal, RoundAt, Layout, History, NeverTracks, Follows, FoundAt, HeadMoved, AbortedSuccess, FilesOnly, Concluded,
           PhaseOver, IsAtRest, BaselineNeverTracked;
      var revision := ReviseTurn(round, check);
      PhaseReads(cfg, TheRules(), start, rounds, states, turns, 2 * round, ws.View());
      OutcomeReads(cfg, 2 * round, turns[2 * round], lastCheckpoint, TheRules());
      if !revision.ok {
        FailedPhaseFollows(cfg, TheRules(), start, rounds, states, turns, 2 * round, ws.View());
        return Some((Degraded, Some(if revision.failKind == Some(FailTimeout) then DeadlineReached
                                    else RevisionFailed)));
      }
      CountRevision(round, revision.changed);
      if !revision.changed || round == cfg.maxReviews {
        return Some((MaxReviewsReached, None));
      }
      return None;
    }

    /** A failed initial turn leaves the repository at the base commit. */
    ghost predicate NothingDone()
      reads this, ws
    {
      && |rounds| == |turns| == 1 && RoundAt(cfg, baseCommit, rounds[0], 0, []) && states == []
      && reviewCount == 0 && revisionCount == 0 && checkpoints == [] && !noChangeRevision
      && ws.head == baseCommit && lastCheckpoint == baseCommit
      && BaselineNeverTracked() && Explained(1) && AllReal(turns) && RefusalsAre() && OnTime(false)
    }

    /** Nothing has run yet: HEAD is the base commit and its untracked files are the baseline. */
    ghost predicate Started()
      reads this, ws
    {
      Fresh() && baseCommit == ws.head && lastCheckpoint == ws.head && start == ws.View() && baseline == ws.Untracked()
    }

    method Start()
      requires Fresh()
      modifies this`now, this`deadline, this`baseCommit, this`lastCheckpoint, this`baseline, this`start, this`startedAt
      ensures Started() && old(now) <= startedAt <= now
      ensures deadline == startedAt as real + cfg.totalTimeoutSec * 1000.0
    {
      hide UntrackedIn, Fresh;
      baseCommit, lastCheckpoint, baseline, start := ws.head, ws.head, ws.Untracked(), ws.View();
      StartClock();
    }

    method StartClock()
      modifies this`now, this`deadline, this`startedAt
      ensures old(now) <= startedAt <= now
      ensures deadline == startedAt as real + cfg.totalTimeoutSec * 1000.0
    {
      var started := Now();
      deadline, startedAt := started as real + cfg.totalTimeoutSec * 1000.0, started;
    }

    /** The initial modifier phase is over. */
    ghost predicate Attempted()
      reads this, ws
    {
      && sequence == |rounds| == |turns| == 1 && states == [] && RoundAt(cfg, baseCommit, rounds[0], 0, [])
      && reviewCount == 0 && revisionCount == 0 && checkpoints == [] && !noChangeRevision
      && lastCheckpoint == baseCommit && start.head == baseCommit && baseline !! start.index.Keys
      && PhaseOver(cfg, TheRules(), start, rounds, [], turns, 0, ws.View()) && AllReal(turns)
      && RefusalsAre() && OnTime(false)
    }

    method InitialTurn() returns (initial: ModifierOutcome)
      requires Started()
      modifies this`now, this`sequence, this`rounds, this`turns, this`refusals, ws
      ensures Attempted()
      ensures initial == PhaseOutcome(cfg, 0, turns[0], baseCommit, TheRules())
    {
      hide AttemptsFit, Chained, RepoAfter, PhaseOutcome, AllReal, AreReal;
      ghost var own, refusal;
      initial, own, refusal := ModifierTurn(Modify, None, baseCommit, true);
      NothingIsReal();
      AllRealGrows([], own);
      RefusalsGrow(cfg, TheRules(), start, [], [], own, baseCommit, refusal);
      turns, refusals := turns + [own], refusals + [refusal];
      MetadataOfModifier(cfg, baseCommit, rounds[0], 0, [], own, baseCommit, TheRules());
    }

    /** Review and revise until an exit. */
    method ReviewLoop() returns (outcome: Outcome, reason: Option<DegradedReason>)
      requires AtLoopHead(1)
      modifies this`now, this`sequence, this`rounds, this`turns, this`lastCheckpoint, this`checkpoints,
               this`reviewCount, this`revisionCount, this`states, this`noChangeRevision, this`checks,
               this`refusals, ws
      ensures states != [] && AtExit(outcome, reason)
    {
      hide AllReal, AreReal, RoundAt, Layout, History, ExitFits, NeverTracks, Explained, BaselineNeverTracked, IsAtRest;
      var round := 1;
      while true
        invariant AtLoopHead(round)
        decreases cfg.maxReviews + 1 - round
      {
        var exit;
        ghost var check;
        exit, check := ReviewPhase(round);
        if exit.Some? {
          return exit.value.0, exit.value.1;
        }
        exit := RevisionPhase(round, check);
        if exit.Some? {
          return exit.value.0, exit.value.1;
        }
        round := round + 1;
      }
    }

    /** The first checkpoint opens the loop. */
    method OpenLoop()
      requires Attempted() && Concluded(0, turns[0], baseCommit, TheRules())
      modifies this`lastCheckpoint, this`checkpoints, this`states, ws`head
      ensures AtLoopHead(1)
    {
      hide AllReal, AreReal, RoundAt, Layout, History, NeverTracks, FoundAt, Follows, PhaseOver, HeadMoved, FilesOnly, Concluded;
      ghost var left := ws.View();
      Checkpoint("collab: initial implementation");
      InitialCounts(cfg, TheRules(), start, baseCommit, rounds, turns, left, ws.head, MessageAt(cfg, 0), checkpoints);
      states := [ws.head];
    }

    method Execute() returns (outcome: Outcome, reason: Option<DegradedReason>)
      requires Fresh()
      modifies this, ws
      ensures states == [] ==> NothingDone() && outcome in {TimedOut, EmptyPatch, ModifierFailed} && reason == None
      ensures states == [] ==> InitialFailureFits(outcome, rounds[0], AbortedSuccess(turns))
      ensures states == [] ==> outcome == OutcomeOf(PhaseFailure(cfg, turns[0]))
      ensures states != [] ==> AtExit(outcome, reason)
      ensures baseCommit == old(ws.head) && baseline == old(ws.Untracked()) && start == old(ws.View())
      ensures old(now) <= startedAt && deadline == startedAt as real + cfg.totalTimeoutSec * 1000.0
    {
      hide AllReal, AreReal, RoundAt, Layout, History, ExitFits, NeverTracks, FoundAt, Follows, PhaseOver, HeadMoved, FilesOnly,
           AbortedSuccess, Concluded, PhaseFailure, PhaseOutcome, Succeeded, RanOutOfTime, Settled, AtLoopHead, AtExit,
           Clocked, RefusalsFit, UntrackedIn;
      Start();
      var initial := InitialTurn();
      OutcomeReads(cfg, 0, turns[0], baseCommit, TheRules());
      if !initial.ok {
        reason := None;
        match initial.failKind.value {
          case FailTimeout => outcome := TimedOut;
          case FailEmpty => outcome := EmptyPatch;
          case FailProcess => outcome := ModifierFailed;
        }
        InitialFails(cfg, TheRules(), start, rounds, turns, ws.View());
        return;
      }
      OpenLoop();
      outcome, reason := ReviewLoop();
    }

    /**
     * Write the base-to-HEAD patch and check it before calling the run deliverable. The patch itself
     * always passes: only a checkout that does not work can fail the check.
     */
    method Finalize(outcome: Outcome, reason: Option<DegradedReason>, checkoutWorks: bool) returns (result: Result)
      modifies this`finalPatch
      ensures finalPatch == Some(Diff(baseCommit.tree, ws.head.tree))
      ensures result == Result(result.outcome, reason, IsDeliverable(result.outcome, cfg.strict),
                               baseCommit, ws.head, checkpoints, reviewCount, revisionCount, noChangeRevision)
      ensures result.outcome ==
              if !IsDeliverable(outcome, cfg.strict) then outcome
              else if ws.head.tree == baseCommit.tree then EmptyPatch
              else if !checkoutWorks then CheckpointFailed
              else outcome
      ensures AppliesTo(baseCommit.tree, finalPatch.value)
    {
      var finalOutcome := outcome;
      var patch := ws.DiffBinary(baseCommit);
      finalPatch := Some(patch);
      ApplyUndoesDiff(baseCommit.tree, ws.head.tree);
      DiffIsEmptyOnlyForEqualTrees(baseCommit.tree, ws.head.tree);
      if IsDeliverable(outcome, cfg.strict) {
        if patch == EMPTY_PATCH {
          finalOutcome := EmptyPatch;
        } else {
          var ok := ws.ApplyCheckAgainstBase(baseCommit, patch, checkoutWorks);
          if !ok {
            finalOutcome := CheckpointFailed;
          }
        }
      }
      result := Result(finalOutcome, reason, IsDeliverable(finalOutcome, cfg.strict), baseCommit,
                       ws.head, checkpoints, reviewCount, revisionCount, noChangeRevision);
    }

    /** A whole run, whatever the agents do and however long they take. */
    method Run(checkoutWorks: bool) returns (result: Result, ghost run: RunRecord)
      requires Fresh()
      modifies this, ws
      ensures EngineRun(run) && run.cfg == cfg && run.start == old(ws.View())
      ensures run.rules == Rules(old(ws.Untracked()), ws.ignores, run.rules.deadline) && old(now) <= run.startedAt
      ensures run.result == result && run.rounds == rounds && Some(run.finalPatch) == finalPatch
      ensures states == run.states && result.finalCommit == ws.head == lastCheckpoint
      ensures checkoutWorks ==> result.outcome != CheckpointFailed
      ensures FilesOnly(run.start, run.turns) ==>
                && run.rules.baseline !! run.finalPatch.Keys
                && forall c :: c in result.checkpoints ==> run.rules.baseline !! c.commit.tree.Keys
    {
      hide AllReal, RoundAt, Verdicts, ReasonFits, Diff, Follows, FilesOnly, HeadMoved, AbortedSuccess, Clocked, RefusalsFit,
           ReviewFailure, InitialFailureFits, History, Succeeded, Blocks;
      var outcome, reason := Execute();
      result := Finalize(outcome, reason, checkoutWorks);
      run := RunRecord(cfg, TheRules(), start, baseCommit, rounds, turns, states, finalPatch.value, result, outcome,
                       startedAt, checks, refusals);
      DiffIsEmptyOnlyForEqualTrees(baseCommit.tree, ws.head.tree);
      if FilesOnly(start, turns) {
        DiffTouchesOnlyTrackedPaths(baseCommit.tree, ws.head.tree, baseline);
        CheckpointsNeverTrack(baseline, baseCommit, states, checkpoints, noChangeRevision, HeadMoved(turns));
      }
    }
  }
}
