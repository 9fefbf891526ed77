/** Runs that meet the engine's protocol and that the reader rejects, built from possible turns. */
module RejectedRuns {
  import opened Git
  import opened Options
  import E = CollabEngine
  import A = AgentRunner
  import D = Discovery
  import Json
  import JsonPrint
  import RS = ReviewSchema
  import RoundTrip

  // ------------------------------------------------------------ possible turns

  const BASE := Root(map[])
  const START := Repo(BASE, map[], map[])
  const RULES := E.Rules({}, (tree: Tree) => {}, 3600000.0)

  /** One attempt a round, ten minutes for a revision, an hour in all. */
  function Settings(maxReviews: nat): E.Config {
    E.Config(maxReviews, 1, None, Some(600.0), 3600.0, 60.0, false)
  }

  function LimitAt(i: nat): A.WallClockKind {
    if i > 0 && i % 2 == 0 then A.StageTimeout else A.TotalDeadline
  }

  function TurnAt(i: nat, result: E.TurnResult, before: Repo, after: Repo, review: Option<RS.Review>): E.AgentTurn {
    E.AgentTurn(E.Launch(0, 0, if LimitAt(i) == A.StageTimeout then 600000 else 3600000), LimitAt(i), result,
                before, after, review)
  }

  function Success(text: string): E.TurnResult { E.TurnResult(true, E.SUCCESS, None, text) }

  /** The wall timer fired behind the agent's last event. */
  function LateSuccess(): E.TurnResult { E.TurnResult(false, E.SUCCESS, Some(A.StageTimeout), "") }

  lemma SuccessIsReal(i: nat, text: string, before: Repo, after: Repo, review: Option<RS.Review>)
    requires i % 2 == 1 ==> review == E.ReadFrom(text)
    ensures E.IsReal(i, TurnAt(i, Success(text), before, after, review))
  {
    hide A.Play, A.LastStatus, A.FinalText, A.FirstClaim, E.ReadFrom;
    var setup := A.Setup(LimitAt(i), false);
    var quick := [A.Delivered(A.Finished(Some("success"), Some(text)), false), A.StreamEnded(false), A.Resumed, A.Resumed];
    A.TurnsCanSucceed(setup, text);
    A.ResultsTellTheSchedule(setup, quick);
    assert E.ReturnsAfter(setup, quick, Success(text));
  }

  lemma LateSuccessIsReal(i: nat, before: Repo, after: Repo)
    requires i > 0 && i % 2 == 0
    ensures E.IsReal(i, TurnAt(i, LateSuccess(), before, after, None))
  {
    hide A.Play, A.LastStatus, A.FinalText, A.FirstClaim;
    var setup := A.Setup(LimitAt(i), false);
    var late := [A.Delivered(A.Finished(Some("success"), None), false), A.WallTimer, A.StreamEnded(false), A.Resumed,
                 A.CleanupDone, A.Resumed];
    A.AbortedTurnsCanReportSuccess(setup);
    A.ResultsTellTheSchedule(setup, late);
    assert E.ReturnsAfter(setup, late, LateSuccess());
  }

  // ---------------------------------------------------------- possible replies

  /** What a reviewer wrote, and the review that is read from it. */
  datatype Reply = Reply(text: string, review: RS.Review)

  predicate IsRead(reply: Reply) { RS.ParseReview(reply.text) == RS.Ok(reply.review) }
  predicate IsBlocking(reply: Reply) { IsRead(reply) && reply.review.hasBlockingFindings }
  predicate IsApproving(reply: Reply) { IsRead(reply) && !reply.review.hasBlockingFindings }

  lemma RepliesAreConsistent(reply: Reply)
    requires IsRead(reply)
    ensures RS.Consistent(reply.review)
  {
    hide RS.ParseReview, RS.Consistent;
    RS.ParsedReviewsAreConsistent(reply.text);
  }

  function Text(word: string): Json.Value { Json.String(Json.Units(word)) }

  function Record(verdict: string, findings: seq<Json.Value>): seq<Json.Member> {
    [Json.Member(Json.Units("verdict"), Text(verdict)), Json.Member(Json.Units("findings"), Json.Array(findings))]
  }

  function CriticalFinding(): Json.Value {
    Json.Object([Json.Member(Json.Units("severity"), Text("critical")), Json.Member(Json.Units("issue"), Text("leak"))])
  }

  lemma LookupInTwo(a: Json.Member, b: Json.Member)
    requires a.key != b.key
    ensures Json.Lookup([a, b], a.key) == Some(a.value) && Json.Lookup([a, b], b.key) == Some(b.value)
  {
    assert [a, b][1..] == [b] && [b][1..] == [];
    assert Json.Lookup([], a.key) == None && Json.Lookup([], b.key) == None;
    assert Json.Lookup([b], a.key) == None && Json.Lookup([b], b.key) == Some(b.value);
  }

  /** A printed record is a possible reply. */
  lemma RecordsAreReplies(verdict: string, findings: seq<Json.Value>) returns (reply: Reply)
    requires JsonPrint.IsPrintable(Json.Object(Record(verdict, findings)))
    requires RS.BuildReview(Record(verdict, findings)).Ok?
    ensures IsRead(reply) && reply.review == RS.BuildReview(Record(verdict, findings)).value
  {
    hide RS.BuildReview, RS.ParseReview, JsonPrint.Print, JsonPrint.IsPrintable;
    var record := Record(verdict, findings);
    LookupInTwo(record[0], record[1]) by {
      assert |record[0].key| == 7 && |record[1].key| == 8;
    }
    RS.PrintedReviewsAreReadIff("", record, "");
    var text := JsonPrint.Print(Json.Object(record));
    assert "" + text + "" == text;
    assert RS.IsClosed("");
    reply := Reply(text, RS.BuildReview(record).value);
  }

  predicate IsWord(word: string) { word != "" && forall c :: c in word ==> 'a' <= c <= 'z' }

  lemma WordsAreKept(word: string)
    requires IsWord(word)
    ensures RS.Lower(Json.Units(word)) == Json.Units(word) && JsonPrint.IsText(Json.Units(word))
  {
    assert forall i :: 0 <= i < |word| ==> word[i] in word;
  }

  lemma PairIsPrintable(a: Json.Member, b: Json.Member)
    requires JsonPrint.IsText(a.key) && JsonPrint.IsText(b.key)
    requires JsonPrint.IsPrintable(a.value) && JsonPrint.IsPrintable(b.value)
    ensures JsonPrint.IsPrintable(Json.Object([a, b]))
  {
  }

  lemma RecordIsPrintable(verdict: string, findings: seq<Json.Value>)
    requires IsWord(verdict) && JsonPrint.IsPrintable(Json.Array(findings))
    ensures JsonPrint.IsPrintable(Json.Object(Record(verdict, findings)))
  {
    hide JsonPrint.IsText;
    WordsAreKept("verdict");
    WordsAreKept("findings");
    WordsAreKept(verdict);
    PairIsPrintable(Record(verdict, findings)[0], Record(verdict, findings)[1]);
  }

  lemma FieldsOfRecord(verdict: string, findings: seq<Json.Value>)
    ensures RS.Field(Record(verdict, findings), "verdict") == Some(Text(verdict))
    ensures RS.Field(Record(verdict, findings), "findings") == Some(Json.Array(findings))
  {
    var record := Record(verdict, findings);
    assert |record[0].key| == 7 && |record[1].key| == 8;
    LookupInTwo(record[0], record[1]);
  }

  lemma VerdictIsRead(verdict: string, findings: seq<Json.Value>)
    requires verdict in {"approve", "revise"}
    ensures RS.VerdictOf(Record(verdict, findings)).Ok?
  {
    hide RS.Field, Record, RS.Lower;
    FieldsOfRecord(verdict, findings);
    WordsAreKept(verdict);
  }

  lemma RecordIsReviewed(verdict: string, findings: seq<Json.Value>)
    requires verdict in {"approve", "revise"} && RS.ParseFindings(findings, 0).Ok?
    ensures RS.BuildReview(Record(verdict, findings)).Ok?
    ensures RS.BuildReview(Record(verdict, findings)).value.findings == RS.ParseFindings(findings, 0).value
  {
    hide RS.Field, Record, RS.VerdictOf, RS.ParseFindings;
    FieldsOfRecord(verdict, findings);
    VerdictIsRead(verdict, findings);
  }

  /** Some reply approves. */
  lemma SomeReplyApproves() returns (reply: Reply)
    ensures IsApproving(reply)
  {
    hide RS.ParseReview, RS.BuildReview, Record;
    RecordIsPrintable("approve", []);
    RecordIsReviewed("approve", []);
    RS.BuiltReviewsAreConsistent(Record("approve", []));
    reply := RecordsAreReplies("approve", []);
  }

  /** Some reply blocks. */
  lemma SomeReplyBlocks() returns (reply: Reply)
    ensures IsBlocking(reply)
  {
    hide RS.ParseReview, RS.BuildReview, RS.ParseFindings, Record, CriticalFinding;
    FindingIsCritical();
    RecordIsPrintable("revise", [CriticalFinding()]);
    RecordIsReviewed("revise", [CriticalFinding()]);
    RS.BuiltReviewsAreConsistent(Record("revise", [CriticalFinding()]));
    reply := RecordsAreReplies("revise", [CriticalFinding()]);
    assert reply.review.findings[0] in reply.review.findings;
  }

  lemma FindingIsCritical()
    ensures JsonPrint.IsPrintable(CriticalFinding())
    ensures RS.ParseFindings([CriticalFinding()], 0).Ok?
    ensures RS.ParseFindings([CriticalFinding()], 0).value[0].severity == RS.Critical
  {
    var finding := CriticalFinding().members;
    assert |finding[0].key| == 8 && |finding[1].key| == 5;
    LookupInTwo(finding[0], finding[1]);
    WordsAreKept("critical");
    WordsAreKept("severity");
    WordsAreKept("issue");
    WordsAreKept("leak");
    PairIsPrintable(finding[0], finding[1]);
    assert [CriticalFinding()][1..] == [] && RS.ParseFindings([], 1) == RS.Ok([]);
  }

  // --------------------------------------------------------- runs, turn by turn

  /** A run so far: what it wrote, what its agents did, and where it stands. */
  datatype Log = Log(rounds: seq<E.RoundDir>, turns: seq<seq<E.AgentTurn>>, states: seq<Commit>, left: Repo, saved: seq<E.Saved>)

  function OneAttempt(timeoutKind: Option<E.TimeoutKind>): seq<E.Attempt> {
    [E.Attempt(1, E.SUCCESS, timeoutKind)]
  }

  function ModifierDir(maxReviews: nat, i: nat, timeoutKind: Option<E.TimeoutKind>): E.RoundDir {
    E.RoundDir(E.RoundId(i, if i == 0 then E.RoundKind.Modify else E.RevisionKind(Settings(maxReviews), i / 2)),
               Some(E.Metadata(E.Modifier, OneAttempt(timeoutKind), timeoutKind)), None, None)
  }

  function ReviewDir(i: nat, head: Commit, reply: Reply): E.RoundDir {
    E.RoundDir(E.RoundId(i, E.RoundKind.Review), Some(E.Metadata(E.Reviewer, OneAttempt(None), None)),
               Some(Diff(BASE.tree, head.tree)), Some(reply.review))
  }

  /** The agent turns the working tree into the given one and touches nothing else. */
  function Edit(i: nat, found: Repo, tree: Tree): E.AgentTurn {
    TurnAt(i, Success(""), found, found.(worktree := tree), None)
  }

  function Answer(i: nat, found: Repo, reply: Reply): E.AgentTurn {
    TurnAt(i, Success(reply.text), found, found, Some(reply.review))
  }

  /** One more review round. */
  function Review(log: Log, reply: Reply): Log {
    var i := |log.rounds|;
    log.(rounds := log.rounds + [ReviewDir(i, log.left.head, reply)], turns := log.turns + [[Answer(i, log.left, reply)]])
  }

  /** One more modifier round, in which the agent made this tree of the working tree. */
  function Modify(maxReviews: nat, log: Log, tree: Tree): Log {
    var i := |log.rounds|;
    var message := E.MessageAt(Settings(maxReviews), i);
    var next := Child(tree, log.left.head, message);
    Log(log.rounds + [ModifierDir(maxReviews, i, None)], log.turns + [[Edit(i, log.left, tree)]], log.states + [next],
        Repo(next, tree, tree), log.saved + [E.Saved(message, next)])
  }

  const NOTHING := Log([], [], [], START, [])

  /** The agent goes through the trees, and every one but the last gets a blocking review. */
  function Played(maxReviews: nat, trees: seq<Tree>, reply: Reply): (log: Log)
    requires trees != []
    ensures log.rounds != []
  {
    if |trees| == 1 then Modify(maxReviews, NOTHING, trees[0])
    else Modify(maxReviews, Review(Played(maxReviews, trees[..|trees| - 1], reply), reply), trees[|trees| - 1])
  }

  /** Each tree differs from the one before. */
  predicate Moving(trees: seq<Tree>) {
    trees != [] && trees[0] != BASE.tree && forall j :: 1 <= j < |trees| ==> trees[j] != trees[j - 1]
  }

  /** The log meets what the engine keeps at the head of its loop, k revisions behind it. */
  ghost predicate IsAtHead(maxReviews: nat, log: Log, k: nat) {
    var cfg := Settings(maxReviews);
    && |log.rounds| == |log.turns| == 2 * k + 1 && |log.states| == k + 1
    && E.Layout(cfg, BASE, log.rounds, log.states, k, k)
    && E.Follows(cfg, RULES, START, log.rounds, log.states, log.turns, 2 * k + 1)
    && E.History(log.states, log.saved, false, E.HeadMoved(log.turns))
    && log.left == E.FoundAt(2 * k + 2, START, log.states, log.turns)
    && log.left.head == log.states[k] && log.left.index == log.left.head.tree
  }

  /** A modifier round of one turn that succeeded. */
  lemma EditFits(maxReviews: nat, i: nat, found: Repo, tree: Tree)
    requires i % 2 == 0 && tree != found.head.tree
    ensures var cfg, own := Settings(maxReviews), [Edit(i, found, tree)];
            && E.AttemptsFit(cfg, i, ModifierDir(maxReviews, i, None).metadata, own, found.head, RULES)
            && E.Chained(own, found, RULES) && E.RepoAfter(own, found, RULES) == Repo(found.head, tree, tree)
            && E.Concluded(i, own, found.head, RULES)
  {
    assert Staged(tree, found.index, {}, RULES.ignores) == tree;
    var own := [Edit(i, found, tree)];
    assert own[..0] == [] && E.AttemptsOf(own) == OneAttempt(None);
    assert E.IsAllowed(Settings(maxReviews), RULES, i, own[0]);
  }

  lemma AnswerFits(maxReviews: nat, i: nat, found: Repo, reply: Reply)
    requires i % 2 == 1 && RS.Consistent(reply.review)
    ensures var own := [Answer(i, found, reply)];
            && E.AttemptsFit(Settings(maxReviews), i, ReviewDir(i, found.head, reply).metadata, own, found.head, RULES)
            && E.IsReply(Some(reply.review), own)
  {
    hide RS.Consistent;
    var own := [Answer(i, found, reply)];
    assert own[..0] == [] && E.AttemptsOf(own) == OneAttempt(None);
    assert E.IsAllowed(Settings(maxReviews), RULES, i, own[0]);
  }

  lemma FirstReachesHead(maxReviews: nat, tree: Tree)
    requires tree != BASE.tree
    ensures IsAtHead(maxReviews, Modify(maxReviews, NOTHING, tree), 0)
  {
    hide E.AttemptsFit, E.Chained, E.Concluded, E.RepoAfter, E.Layout, E.History, E.HeadMoved, E.FilesOnly, E.Follows;
    var cfg, log := Settings(maxReviews), Modify(maxReviews, NOTHING, tree);
    var left := Repo(BASE, tree, tree);
    EditFits(maxReviews, 0, START, tree);
    E.InitialFindsTheStart(START, [], log.turns);
    assert log.rounds == [ModifierDir(maxReviews, 0, None)] && log.turns == [[Edit(0, START, tree)]];
    assert log.states == [log.left.head] && log.saved == [E.Saved(E.MessageAt(cfg, 0), log.left.head)];
    assert E.PhaseOver(cfg, RULES, START, log.rounds, [], log.turns, 0, left);
    E.InitialCounts(cfg, RULES, START, BASE, log.rounds, log.turns, left, log.states[0], E.MessageAt(cfg, 0), log.saved);
  }

  /** The log behind a counted review, before the revision it asks for. */
  ghost predicate IsReviewed(maxReviews: nat, log: Log, k: nat) {
    var cfg := Settings(maxReviews);
    && |log.rounds| == |log.turns| == 2 * k + 2 && |log.states| == k + 1
    && E.Layout(cfg, BASE, log.rounds, log.states, k + 1, k)
    && E.Follows(cfg, RULES, START, log.rounds, log.states, log.turns, 2 * k + 2)
    && E.History(log.states, log.saved, false, E.HeadMoved(log.turns))
    && log.left == E.FoundAt(2 * k + 2, START, log.states, log.turns)
    && log.left.head == log.states[k] && log.left.index == log.left.head.tree
  }

  lemma ReviewIsCounted(maxReviews: nat, log: Log, k: nat, reply: Reply)
    requires IsAtHead(maxReviews, log, k) && k < maxReviews && RS.Consistent(reply.review)
    ensures IsReviewed(maxReviews, Review(log, reply), k)
    ensures Review(log, reply).rounds[2 * k + 1].review == Some(reply.review)
  {
    hide E.AttemptsFit, E.Layout, E.History, E.HeadMoved, E.FilesOnly, E.Follows, E.FoundAt, E.IsReply, E.ReasonFits, Diff,
         RS.Consistent;
    AnswerFits(maxReviews, 2 * k + 1, log.left, reply);
    E.ReviewCounts(Settings(maxReviews), RULES, START, BASE, log.rounds, log.states, log.turns, k,
                   ReviewDir(2 * k + 1, log.left.head, reply), [Answer(2 * k + 1, log.left, reply)], log.left.head);
  }

  /** A modifier round behind a review: its phase is over, and nothing is checkpointed yet. */
  lemma RoundIsAdded(maxReviews: nat, log: Log, k: nat, dir: E.RoundDir, turn: E.AgentTurn)
    requires IsReviewed(maxReviews, log, k) && k < maxReviews
    requires dir.id == ModifierDir(maxReviews, 2 * k + 2, None).id && dir.patch == None
    requires E.AttemptsFit(Settings(maxReviews), 2 * k + 2, dir.metadata, [turn], log.left.head, RULES)
    requires E.Chained([turn], log.left, RULES)
    ensures var cfg, rounds, turns := Settings(maxReviews), log.rounds + [dir], log.turns + [[turn]];
            && E.Layout(cfg, BASE, rounds, log.states, k + 1, k)
            && E.Follows(cfg, RULES, START, rounds, log.states, turns, 2 * k + 2)
            && E.PhaseOver(cfg, RULES, START, rounds, log.states, turns, 2 * k + 2, E.RepoAfter([turn], log.left, RULES))
            && E.FoundAt(2 * k + 2, START, log.states, turns) == log.left
  {
    hide E.AttemptsFit, E.Chained, E.RepoAfter, E.Layout, E.Follows, E.FoundAt, E.HeadMoved;
    var cfg, rounds, turns := Settings(maxReviews), log.rounds + [dir], log.turns + [[turn]];
    E.RestsThroughReview(2 * k + 2, START, log.states, log.turns, [turn]);
    E.FollowsStill(cfg, RULES, START, log.rounds, log.states, log.turns, 2 * k + 2, rounds, log.states, turns);
    E.MetadataOfModifier(cfg, BASE, dir, 2 * k + 2, log.states, [turn], log.left.head, RULES);
    E.LayoutAddsFailedRevision(cfg, BASE, log.rounds, log.states, k, rounds);
  }

  lemma RevisionReachesHead(maxReviews: nat, log: Log, k: nat, tree: Tree)
    requires IsReviewed(maxReviews, log, k) && k < maxReviews && tree != log.left.head.tree
    requires E.Blocks(log.rounds[2 * k + 1])
    ensures IsAtHead(maxReviews, Modify(maxReviews, log, tree), k + 1)
  {
    hide E.AttemptsFit, E.Chained, E.Concluded, E.RepoAfter, E.Layout, E.History, E.HeadMoved, E.FilesOnly, E.Follows,
         E.FoundAt, E.PhaseOver, E.RevisionMessage, E.AbortedSuccess;
    var cfg, i, log' := Settings(maxReviews), 2 * k + 2, Modify(maxReviews, log, tree);
    EditFits(maxReviews, i, log.left, tree);
    RoundIsAdded(maxReviews, log, k, ModifierDir(maxReviews, i, None), Edit(i, log.left, tree));
    E.OneMoreRound(START, log.turns, [Edit(i, log.left, tree)]);
    EditsAreHarmless(i, log.left, tree);
    E.RevisionCounts(cfg, RULES, START, BASE, log'.rounds, log.states, log'.turns, k, log.saved, log'.saved,
                     Repo(log.left.head, tree, tree), log'.states[k + 1], E.MessageAt(cfg, i), true);
  }

  lemma EditsAreHarmless(i: nat, found: Repo, tree: Tree)
    ensures var own := [Edit(i, found, tree)]; !E.Moves(own) && !E.AbortsWithSuccess(own)
  {
  }

  lemma NothingWasWrong(tree: Tree)
    ensures var turns := [[Edit(0, START, tree)]]; !E.HeadMoved(turns) && !E.AbortedSuccess(turns)
  {
    EditsAreHarmless(0, START, tree);
  }

  /** One more review and one more change. */
  lemma StepReachesHead(maxReviews: nat, log: Log, k: nat, tree: Tree, reply: Reply)
    requires IsAtHead(maxReviews, log, k) && k < maxReviews && tree != log.left.head.tree
    requires RS.Consistent(reply.review) && reply.review.hasBlockingFindings
    ensures var after := Modify(maxReviews, Review(log, reply), tree);
            && IsAtHead(maxReviews, after, k + 1) && |after.saved| == |log.saved| + 1
            && |log.states| == k + 1 && |after.states| == k + 2 && after.states[..k + 1] == log.states
            && after.states[k + 1].tree == tree
            && E.HeadMoved(after.turns) == E.HeadMoved(log.turns)
            && E.AbortedSuccess(after.turns) == E.AbortedSuccess(log.turns)
  {
    hide IsAtHead, IsReviewed, E.HeadMoved, E.AbortedSuccess, RS.Consistent, E.FilesOnly, E.Moves, E.AbortsWithSuccess, E.EditsFiles;
    var reviewed := Review(log, reply);
    HeadStands(maxReviews, log, k);
    ReviewIsCounted(maxReviews, log, k, reply);
    RevisionReachesHead(maxReviews, reviewed, k, tree);
    E.OneMoreRound(START, log.turns, [Answer(2 * k + 1, log.left, reply)]);
    E.OneMoreRound(START, reviewed.turns, [Edit(2 * k + 2, log.left, tree)]);
    EditsAreHarmless(2 * k + 2, log.left, tree);
  }

  /** However long it goes on, a run of blocking reviews and changing revisions meets the engine's protocol. */
  lemma {:induction false} PlayedReachesHead(maxReviews: nat, trees: seq<Tree>, reply: Reply)
    requires Moving(trees) && |trees| - 1 <= maxReviews
    requires RS.Consistent(reply.review) && reply.review.hasBlockingFindings
    ensures var k, log := |trees| - 1, Played(maxReviews, trees, reply);
            && IsAtHead(maxReviews, log, k) && |log.saved| == |log.states| == k + 1
            && (forall j :: 0 <= j <= k ==> log.states[j].tree == trees[j])
            && !E.HeadMoved(log.turns) && !E.AbortedSuccess(log.turns)
  {
    hide IsAtHead, E.HeadMoved, E.AbortedSuccess, RS.Consistent, Review, Modify;
    var k := |trees| - 1;
    if k == 0 {
      FirstReachesHead(maxReviews, trees[0]);
      FirstStands(maxReviews, trees[0]);
      NothingWasWrong(trees[0]);
    } else {
      var before := Played(maxReviews, trees[..k], reply);
      PlayedReachesHead(maxReviews, trees[..k], reply);
      HeadStands(maxReviews, before, k - 1);
      StepReachesHead(maxReviews, before, k - 1, trees[k], reply);
      var after := Played(maxReviews, trees, reply);
      forall j | 0 <= j <= k ensures after.states[j].tree == trees[j] {
        if j < k {
          assert after.states[j] == after.states[..k][j] && before.states[j].tree == trees[..k][j];
        }
      }
    }
  }

  /** No turn of it is made up. */
  lemma {:induction false} PlayedIsReal(maxReviews: nat, trees: seq<Tree>, reply: Reply)
    requires trees != [] && IsRead(reply)
    ensures E.AllReal(Played(maxReviews, trees, reply).turns) && |Played(maxReviews, trees, reply).rounds| == 2 * |trees| - 1
    ensures |Played(maxReviews, trees, reply).turns| == 2 * |trees| - 1
    ensures TakesOneTurn(Played(maxReviews, trees, reply).turns)
  {
    hide E.AllReal, E.IsReal, IsRead;
    var log, n := Played(maxReviews, trees, reply), |trees| - 1;
    if n == 0 {
      E.NothingIsReal();
      ModifyIsReal(maxReviews, NOTHING, trees[0]);
    } else {
      var before := Played(maxReviews, trees[..n], reply);
      PlayedIsReal(maxReviews, trees[..n], reply);
      ReviewIsReal(before, reply);
      ModifyIsReal(maxReviews, Review(before, reply), trees[n]);
    }
  }

  lemma ReviewIsReal(log: Log, reply: Reply)
    requires E.AllReal(log.turns) && |log.turns| == |log.rounds| && IsRead(reply)
    ensures E.AllReal(Review(log, reply).turns) && (TakesOneTurn(log.turns) ==> TakesOneTurn(Review(log, reply).turns))
  {
    hide E.AllReal, E.IsReal, RS.ParseReview;
    var i := |log.rounds|;
    SuccessIsReal(i, reply.text, log.left, log.left, Some(reply.review));
    E.AllRealGrows(log.turns, [Answer(i, log.left, reply)]);
  }

  lemma ModifyIsReal(maxReviews: nat, log: Log, tree: Tree)
    requires E.AllReal(log.turns) && |log.turns| == |log.rounds| && |log.rounds| % 2 == 0
    ensures E.AllReal(Modify(maxReviews, log, tree).turns)
    ensures TakesOneTurn(log.turns) ==> TakesOneTurn(Modify(maxReviews, log, tree).turns)
  {
    hide E.AllReal, E.IsReal;
    var i := |log.rounds|;
    SuccessIsReal(i, "", log.left, log.left.(worktree := tree), None);
    E.AllRealGrows(log.turns, [Edit(i, log.left, tree)]);
  }

  lemma FirstStands(maxReviews: nat, tree: Tree)
    ensures var log := Modify(maxReviews, NOTHING, tree);
            && |log.saved| == |log.states| == 1 && log.states[0].tree == tree && log.turns == [[Edit(0, START, tree)]]
  {
  }

  lemma HeadStands(maxReviews: nat, log: Log, k: nat)
    requires IsAtHead(maxReviews, log, k)
    ensures |log.rounds| == |log.turns| == 2 * k + 1 && |log.states| == k + 1 && log.left.head == log.states[k]
  {
  }

  // ------------------------------------------------------------- whole runs

  /** No time passes before the last round; a check that stopped the run came at the deadline. */
  function Checks(rounds: nat, stopped: bool): seq<int>
    requires rounds > 0
  {
    seq(rounds - 1, _ => 0) + if stopped then [3600000] else []
  }

  /** A deliverable run that ends here. */
  function Ended(maxReviews: nat, log: Log, outcome: E.Outcome, reason: Option<E.DegradedReason>, reviewCount: nat,
                 revisionCount: nat): E.RunRecord
    requires log.rounds != []
  {
    var stopped := E.IsStopped(Settings(maxReviews), log.rounds, reviewCount, revisionCount, false);
    E.RunRecord(Settings(maxReviews), RULES, START, BASE, log.rounds, log.turns, log.states,
                Diff(BASE.tree, log.left.head.tree),
                E.Result(outcome, reason, true, BASE, log.left.head, log.saved, reviewCount, revisionCount, false), outcome,
                0, Checks(|log.rounds|, stopped), seq(|log.turns|, _ => None))
  }

  /** Every round took the one attempt it had. */
  predicate TakesOneTurn(turns: seq<seq<E.AgentTurn>>) {
    forall i :: 0 <= i < |turns| ==> |turns[i]| == 1
  }

  /** With its one attempt taken no round was refused another. */
  lemma EndedKeepsTime(maxReviews: nat, log: Log, outcome: E.Outcome, reason: Option<E.DegradedReason>, reviewCount: nat, k: nat)
    requires log.rounds != [] && |log.turns| == |log.rounds| && TakesOneTurn(log.turns) && log.states != []
    ensures E.KeepsTime(Ended(maxReviews, log, outcome, reason, reviewCount, k))
  {
    hide E.Concluded, E.IsStopped, Diff;
  }

  lemma EndedIsARun(maxReviews: nat, log: Log, outcome: E.Outcome, reason: Option<E.DegradedReason>, reviewCount: nat, k: nat)
    requires E.Layout(Settings(maxReviews), BASE, log.rounds, log.states, reviewCount, k) && |log.turns| == |log.rounds|
    requires E.Follows(Settings(maxReviews), RULES, START, log.rounds, log.states, log.turns, |log.rounds|)
    requires E.History(log.states, log.saved, false, E.HeadMoved(log.turns))
    requires 0 < |log.rounds| <= 2 * k + 3 && TakesOneTurn(log.turns)
    requires E.ReasonExplained(Settings(maxReviews), log.turns, reviewCount, k, reason)
    requires E.ExitFits(Settings(maxReviews), outcome, reason, log.rounds, reviewCount, k, false, E.AbortedSuccess(log.turns))
    requires |log.states| == k + 1 && log.left.head == log.states[k] && log.left.head.tree != BASE.tree
    ensures E.KeepsProtocol(Ended(maxReviews, log, outcome, reason, reviewCount, k))
    ensures E.TurnsExplain(Ended(maxReviews, log, outcome, reason, reviewCount, k))
    ensures E.KeepsTime(Ended(maxReviews, log, outcome, reason, reviewCount, k))
    ensures E.FailuresExplain(Ended(maxReviews, log, outcome, reason, reviewCount, k))
    ensures Diff(BASE.tree, log.left.head.tree) != EMPTY_PATCH
  {
    hide E.Layout, E.Follows, E.History, E.ExitFits, E.HeadMoved, E.AbortedSuccess, Diff, E.KeepsTime, Checks, E.ReviewFailure,
         E.IsStopped;
    EndedKeepsTime(maxReviews, log, outcome, reason, reviewCount, k);
    ApplyUndoesDiff(BASE.tree, log.left.head.tree);
    DiffIsEmptyOnlyForEqualTrees(BASE.tree, log.left.head.tree);
    assert outcome in {E.Approved, E.MaxReviewsReached, E.Degraded} by {
      ExitsAreDeliverable(maxReviews, log, outcome, reason, reviewCount, k);
    }
    var run := Ended(maxReviews, log, outcome, reason, reviewCount, k);
    assert E.LoopCompleted(run) && E.TurnsExplain(run);
  }

  lemma ExitsAreDeliverable(maxReviews: nat, log: Log, outcome: E.Outcome, reason: Option<E.DegradedReason>, reviewCount: nat, k: nat)
    requires |log.rounds| <= 2 * k + 3
    requires E.ExitFits(Settings(maxReviews), outcome, reason, log.rounds, reviewCount, k, false, E.AbortedSuccess(log.turns))
    ensures outcome in {E.Approved, E.MaxReviewsReached, E.Degraded}
  {
    hide E.AbortedSuccess;
  }

  // --------------------------------------------------- a run of many rounds

  function Growing(j: nat): Tree { map[Path("a") := Blob(seq(j + 1, k => 'x'))] }

  function GrowingTrees(n: nat): seq<Tree> { seq(n + 1, j requires 0 <= j => Growing(j)) }

  lemma GrowingDiffers(i: nat, j: nat)
    ensures Growing(i) != map[] && (i != j ==> Growing(i) != Growing(j))
  {
    var a := Path("a");
    assert a in Growing(i) && a in Growing(j);
    assert |Growing(i)[a].bytes| == i + 1 && |Growing(j)[a].bytes| == j + 1;
  }

  /** Every review blocks and every revision changes something, until the reviews are used up. */
  function LongRun(n: nat, reply: Reply): E.RunRecord {
    Ended(n, Played(n, GrowingTrees(n), reply), E.MaxReviewsReached, None, n, n)
  }

  lemma LongRunIsARun(n: nat, reply: Reply)
    requires IsBlocking(reply)
    ensures var run := LongRun(n, reply);
            && E.EngineRun(run) && |run.rounds| == 2 * n + 1 && run.finalPatch != EMPTY_PATCH
            && |run.result.checkpoints| == n + 1 && |run.states| == n + 1
            && forall j :: 0 <= j <= n ==> run.states[j].tree != run.base.tree
  {
    hide E.Layout, E.Follows, E.History, E.HeadMoved, E.AbortedSuccess, E.FoundAt, E.KeepsProtocol, E.TurnsExplain, E.AllReal,
         Growing, Diff, IsRead, Played;
    RepliesAreConsistent(reply);
    var trees := GrowingTrees(n);
    forall j | 0 <= j <= n ensures trees[j] != BASE.tree && (j > 0 ==> trees[j] != trees[j - 1]) {
      GrowingDiffers(j, if j > 0 then j - 1 else 0);
    }
    PlayedReachesHead(n, trees, reply);
    PlayedIsReal(n, trees, reply);
    EndedIsARun(n, Played(n, trees, reply), E.MaxReviewsReached, None, n, n);
  }

  /** Round numbers have two digits up to forty-nine reviews; one more, and the reader rejects the run. */
  lemma LongRunsAreAcceptedIff(n: nat, reply: Reply, t: D.Trial)
    requires IsBlocking(reply) && n >= 1 && RoundTrip.Written(LongRun(n, reply), t)
    ensures E.EngineRun(LongRun(n, reply)) && |LongRun(n, reply).rounds| == 2 * n + 1
    ensures D.Acceptable(t) <==> n <= 49
  {
    hide RoundTrip.Written, E.KeepsProtocol, E.TurnsExplain, E.AllReal, Played, IsBlocking, D.Acceptable;
    LongRunIsARun(n, reply);
    RoundTrip.AcceptedIffReadable(LongRun(n, reply), t);
    LongRunIsReadableIff(n, reply);
  }

  lemma LongRunIsReadableIff(n: nat, reply: Reply)
    requires E.KeepsProtocol(LongRun(n, reply)) && n >= 1
    requires var run := LongRun(n, reply);
             && |run.rounds| == 2 * n + 1 && run.finalPatch != EMPTY_PATCH
             && |run.result.checkpoints| == n + 1 && |run.states| == n + 1
             && forall j :: 0 <= j <= n ==> run.states[j].tree != run.base.tree
    ensures RoundTrip.Readable(LongRun(n, reply)) <==> n <= 49
  {
    hide E.Layout, E.History, E.ExitFits, Played, Diff, E.Succeeded;
  }

  // ---------------------------------------------------------- four short runs

  const WORK: Tree := map[Path("a") := Blob("x")]

  /** The deadline passed before the first review. */
  function UnreviewedRun(): E.RunRecord {
    Ended(2, Modify(2, NOTHING, WORK), E.Degraded, Some(E.DeadlineReached), 0, 0)
  }

  /** A run that the deadline stopped before its first review is rejected for having none. */
  lemma UnreviewedRunIsRejected(t: D.Trial)
    requires RoundTrip.Written(UnreviewedRun(), t)
    ensures E.EngineRun(UnreviewedRun()) && !D.Acceptable(t)
  {
    hide RoundTrip.Written, E.Layout, E.Follows, E.History, E.HeadMoved, E.AbortedSuccess, E.FoundAt, Diff, D.Acceptable,
         E.AllReal;
    var log := Modify(2, NOTHING, WORK);
    assert Path("a") in WORK;
    FirstReachesHead(2, WORK);
    E.NothingIsReal();
    ModifyIsReal(2, NOTHING, WORK);
    EndedIsARun(2, log, E.Degraded, Some(E.DeadlineReached), 0, 0);
    RoundTrip.AcceptedIffReadable(UnreviewedRun(), t);
    FirstStands(2, WORK);
  }

  /** The work, a revision that undoes it, and the work again. */
  const BACK_AND_FORTH: seq<Tree> := [WORK, map[], WORK]

  function RestoredRun(reply: Reply): E.RunRecord {
    Ended(2, Played(2, BACK_AND_FORTH, reply), E.MaxReviewsReached, None, 2, 2)
  }

  /** A revision that restores the base tree leaves an empty patch under review, and the reader rejects the run. */
  lemma RestoredRunIsRejected(reply: Reply, t: D.Trial)
    requires IsBlocking(reply) && RoundTrip.Written(RestoredRun(reply), t)
    ensures E.EngineRun(RestoredRun(reply)) && !D.Acceptable(t)
  {
    hide RoundTrip.Written, E.Layout, E.Follows, E.History, E.HeadMoved, E.AbortedSuccess, E.FoundAt, Diff, Played, IsRead,
         D.Acceptable, E.KeepsProtocol, E.TurnsExplain, E.AllReal;
    RepliesAreConsistent(reply);
    assert Path("a") in WORK;
    PlayedReachesHead(2, BACK_AND_FORTH, reply);
    PlayedIsReal(2, BACK_AND_FORTH, reply);
    EndedIsARun(2, Played(2, BACK_AND_FORTH, reply), E.MaxReviewsReached, None, 2, 2);
    RoundTrip.AcceptedIffReadable(RestoredRun(reply), t);
    BaseUnderReview(RestoredRun(reply), 1);
  }

  lemma BaseUnderReview(run: E.RunRecord, j: nat)
    requires E.KeepsProtocol(run) && j < |run.rounds| / 2 && j < |run.states| && run.states[j].tree == run.base.tree
    requires run.result.checkpoints != []
    ensures !RoundTrip.Readable(run)
  {
    hide E.Layout, E.History, E.ExitFits, Diff, E.Succeeded;
  }

  /** A revision that ran into its own limit behind the agent's last event. */
  function LateRevision(log: Log): Log {
    log.(rounds := log.rounds + [ModifierDir(2, 2, Some(A.StageTimeout))],
         turns := log.turns + [[TurnAt(2, LateSuccess(), log.left, log.left, None)]])
  }

  function AbortedSuccessRun(reply: Reply): E.RunRecord {
    Ended(2, LateRevision(Review(Modify(2, NOTHING, WORK), reply)), E.Degraded, Some(E.DeadlineReached), 1, 0)
  }

  lemma LateRevisionFits(found: Repo)
    ensures var cfg, own := Settings(2), [TurnAt(2, LateSuccess(), found, found, None)];
            && E.AttemptsFit(cfg, 2, ModifierDir(2, 2, Some(A.StageTimeout)).metadata, own, found.head, RULES)
            && E.Chained(own, found, RULES) && !E.Concluded(2, own, found.head, RULES) && E.AbortsWithSuccess(own)
            && !E.Moves(own)
  {
    var own := [TurnAt(2, LateSuccess(), found, found, None)];
    assert E.AttemptsOf(own) == OneAttempt(Some(A.StageTimeout));
    assert E.IsAllowed(Settings(2), RULES, 2, own[0]);
  }

  lemma LateRevisionIsReal(log: Log)
    requires E.AllReal(log.turns) && |log.turns| == 2
    ensures E.AllReal(LateRevision(log).turns) && (TakesOneTurn(log.turns) ==> TakesOneTurn(LateRevision(log).turns))
  {
    hide E.AllReal, E.IsReal;
    LateSuccessIsReal(2, log.left, log.left);
    E.AllRealGrows(log.turns, [TurnAt(2, LateSuccess(), log.left, log.left, None)]);
  }

  lemma LateRevisionFollows(log: Log)
    requires IsReviewed(2, log, 0)
    ensures var late := LateRevision(log);
            && E.Layout(Settings(2), BASE, late.rounds, late.states, 1, 0) && |late.rounds| == |late.turns| == 3
            && E.Follows(Settings(2), RULES, START, late.rounds, late.states, late.turns, 3)
            && E.AbortedSuccess(late.turns) && E.HeadMoved(late.turns) == E.HeadMoved(log.turns)
  {
    hide E.AttemptsFit, E.Chained, E.RepoAfter, E.Layout, E.History, E.HeadMoved, E.FilesOnly, E.Follows, E.FoundAt,
         E.PhaseOver, E.Concluded, E.AbortedSuccess, E.Moves, E.AbortsWithSuccess;
    var late, turn := LateRevision(log), TurnAt(2, LateSuccess(), log.left, log.left, None);
    LateRevisionFits(log.left);
    RoundIsAdded(2, log, 0, ModifierDir(2, 2, Some(A.StageTimeout)), turn);
    E.FailedPhaseFollows(Settings(2), RULES, START, late.rounds, log.states, late.turns, 2,
                         E.RepoAfter([turn], log.left, RULES));
    E.OneMoreRound(START, log.turns, [turn]);
  }

  /**
   * A revision that ran out of time and yet reported success: the reader counts it as a second
   * checkpoint and rejects the trial.
   */
  lemma AbortedSuccessIsRejected(reply: Reply, t: D.Trial)
    requires IsBlocking(reply) && RoundTrip.Written(AbortedSuccessRun(reply), t)
    ensures E.EngineRun(AbortedSuccessRun(reply)) && !D.Acceptable(t)
  {
    hide RoundTrip.Written, E.Layout, E.Follows, E.History, E.HeadMoved, E.AbortedSuccess, E.FoundAt, Diff, D.Acceptable,
         E.KeepsProtocol, E.TurnsExplain, E.AllReal, IsRead, RS.Consistent;
    RepliesAreConsistent(reply);
    var first := Modify(2, NOTHING, WORK);
    var log := LateRevision(Review(first, reply));
    assert Path("a") in WORK;
    FirstReachesHead(2, WORK);
    FirstStands(2, WORK);
    ReviewIsCounted(2, first, 0, reply);
    LateRevisionFollows(Review(first, reply));
    E.NothingIsReal();
    ModifyIsReal(2, NOTHING, WORK);
    ReviewIsReal(first, reply);
    LateRevisionIsReal(Review(first, reply));
    EndedIsARun(2, log, E.Degraded, Some(E.DeadlineReached), 1, 0);
    RoundTrip.AcceptedIffReadable(AbortedSuccessRun(reply), t);
    LateSuccessIsMisread(AbortedSuccessRun(reply));
  }

  lemma LateSuccessIsMisread(run: E.RunRecord)
    requires E.KeepsProtocol(run) && run.result.checkpoints != [] && !RoundTrip.LastRevisionFailed(run)
    ensures !RoundTrip.Readable(run)
  {
    hide E.Layout, E.History, E.ExitFits, Diff, E.Succeeded;
  }

  // ------------------------------------------- an agent that commits its own work

  const OWN := Child(WORK, BASE, "done")

  function SelfCommit(): E.AgentTurn { TurnAt(0, Success(""), START, Repo(OWN, WORK, WORK), None) }

  /** HEAD moved and nothing is left to stage, so the engine records no checkpoint. */
  const SELF_COMMITTED := Log([ModifierDir(1, 0, None)], [[SelfCommit()]], [OWN], Repo(OWN, WORK, WORK), [])

  function SelfCommittedRun(reply: Reply): E.RunRecord {
    Ended(1, Review(SELF_COMMITTED, reply), E.Approved, None, 1, 0)
  }

  lemma SelfCommitFits()
    ensures var cfg, own := Settings(1), [SelfCommit()];
            && E.AttemptsFit(cfg, 0, ModifierDir(1, 0, None).metadata, own, BASE, RULES)
            && E.Chained(own, START, RULES) && E.RepoAfter(own, START, RULES) == Repo(OWN, WORK, WORK)
            && E.Concluded(0, own, BASE, RULES) && E.Moves(own)
  {
    assert Staged(WORK, WORK, {}, RULES.ignores) == WORK;
    var own := [SelfCommit()];
    assert own[..0] == [] && E.AttemptsOf(own) == OneAttempt(None);
    assert E.IsAllowed(Settings(1), RULES, 0, own[0]);
  }

  lemma SelfCommitIsReal()
    ensures E.AllReal(SELF_COMMITTED.turns) && TakesOneTurn(SELF_COMMITTED.turns)
  {
    hide E.AllReal, E.IsReal;
    SuccessIsReal(0, "", START, Repo(OWN, WORK, WORK), None);
    E.NothingIsReal();
    E.AllRealGrows([], [SelfCommit()]);
    assert [] + [[SelfCommit()]] == SELF_COMMITTED.turns;
  }

  lemma SelfCommitReachesHead()
    ensures IsAtHead(1, SELF_COMMITTED, 0)
  {
    hide E.AttemptsFit, E.Chained, E.Concluded, E.RepoAfter, E.Layout, E.History, E.HeadMoved, E.FilesOnly, E.Follows;
    var cfg, log := Settings(1), SELF_COMMITTED;
    SelfCommitFits();
    E.InitialFindsTheStart(START, [], log.turns);
    assert E.PhaseOver(cfg, RULES, START, log.rounds, [], log.turns, 0, Repo(OWN, WORK, WORK));
    E.InitialCounts(cfg, RULES, START, BASE, log.rounds, log.turns, Repo(OWN, WORK, WORK), OWN, E.MessageAt(cfg, 0), []);
  }

  /** An approved, deliverable run without a checkpoint: the reader takes its rounds for leftovers. */
  lemma SelfCommittedRunIsRejected(reply: Reply, t: D.Trial)
    requires IsApproving(reply) && RoundTrip.Written(SelfCommittedRun(reply), t)
    ensures E.EngineRun(SelfCommittedRun(reply)) && !D.Acceptable(t)
  {
    hide RoundTrip.Written, E.Layout, E.Follows, E.History, E.HeadMoved, E.AbortedSuccess, E.FoundAt, Diff, D.Acceptable,
         E.AllReal, IsRead, RS.Consistent;
    RepliesAreConsistent(reply);
    assert Path("a") in WORK;
    SelfCommitReachesHead();
    ReviewIsCounted(1, SELF_COMMITTED, 0, reply);
    SelfCommitIsReal();
    ReviewIsReal(SELF_COMMITTED, reply);
    EndedIsARun(1, Review(SELF_COMMITTED, reply), E.Approved, None, 1, 0);
    RoundTrip.AcceptedIffReadable(SelfCommittedRun(reply), t);
  }
}
