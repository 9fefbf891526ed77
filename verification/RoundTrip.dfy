/** What the engine writes, the discovery code reads back: acceptance and stages of every run. */
module RoundTrip {
  import opened Git
  import opened Options
  import E = CollabEngine
  import D = Discovery

  // ------------------------------------------------------------------- names

  function KindRead(kind: E.RoundKind): D.Kind {
    match kind
    case Modify => D.Modify
    case Review => D.Review
    case Revise => D.Revise
    case FinalRevision => D.FinalRevision
  }

  lemma KindNamesReadBack(kind: E.RoundKind)
    ensures var name := E.KindName(kind);
            name != "" && name[|name| - 1] != '\n' && D.KindOf(name) == Some(KindRead(kind))
  {
    match kind {
      case Modify =>
      case Review =>
      case Revise =>
      case FinalRevision =>
        assert |E.KindName(kind)| == 14;
    }
  }

  lemma {:induction false} DigitsCount(n: nat)
    ensures n < 10 ==> |E.Digits(n)| == 1 && E.Digits(n)[0] as int == '0' as int + n
    ensures 10 <= n < 100 ==>
              && |E.Digits(n)| == 2
              && E.Digits(n)[0] as int == '0' as int + n / 10
              && E.Digits(n)[1] as int == '0' as int + n % 10
    ensures n >= 100 ==> |E.Digits(n)| >= 3
  {
    if n >= 10 {
      DigitsCount(n / 10);
    }
  }

  /** A round's directory name is read back exactly while its number has two digits. */
  lemma RoundNamesReadBack(id: E.RoundId)
    ensures D.ParseRoundName(E.RoundName(id)) ==
            if id.number < 100 then Some((id.number, KindRead(id.kind))) else None
  {
    var digits, kind := E.Digits(id.number), E.KindName(id.kind);
    var name := E.RoundName(id);
    DigitsCount(id.number);
    KindNamesReadBack(id.kind);
    if id.number < 100 {
      assert name[2] == '-';
      assert name[3..] == kind;
    } else {
      assert name == digits + "-" + kind;
      assert name[2] == digits[2] && digits[2] in digits;
    }
  }

  // ------------------------------------------------------- the written layout

  function RoleName(role: E.Role): string {
    match role
    case Modifier => "modifier"
    case Reviewer => "reviewer"
  }

  function OutcomeName(outcome: E.Outcome): string {
    match outcome
    case Approved => "approved"
    case MaxReviewsReached => "max_reviews_reached"
    case Degraded => "degraded"
    case ModifierFailed => "modifier_failed"
    case TimedOut => "timeout"
    case EmptyPatch => "empty_patch"
    case CheckpointFailed => "checkpoint_failed"
  }

  function ReasonName(reason: E.DegradedReason): string {
    match reason
    case ReviewerFailed => "reviewer_failed"
    case InvalidReviewOutput => "invalid_review_output"
    case RevisionFailed => "revision_failed"
    case DeadlineReached => "timeout"
  }

  function Statuses(attempts: seq<E.Attempt>): seq<Option<string>> {
    seq(|attempts|, i requires 0 <= i < |attempts| => Some(attempts[i].status))
  }

  function OnDisk(round: E.RoundDir): D.Child {
    D.Child(E.RoundName(round.id), true,
            if round.metadata == None then D.NoMetadata
            else D.Metadata(Some(RoleName(round.metadata.value.role)),
                            Some(Statuses(round.metadata.value.attempts))),
            round.patch)
  }

  function AllOnDisk(rounds: seq<E.RoundDir>): seq<D.Child> {
    seq(|rounds|, i requires 0 <= i < |rounds| => OnDisk(rounds[i]))
  }

  function Summary(r: E.Result, baseHash: string): D.SummaryResult {
    D.SummaryResult(OutcomeName(r.outcome),
                    if r.degradedReason == None then None else Some(ReasonName(r.degradedReason.value)),
                    baseHash, Some(r.reviewCount), Some(r.revisionCount), r.noChangeRevision, |r.checkpoints|)
  }

  /**
   * The trial directory of a run: a well-formed collab envelope, the engine's summary and rounds in
   * any listing order, and the engine's final patch collected unchanged as the graded artifact.
   */
  ghost predicate Written(run: E.RunRecord, t: D.Trial) {
    && t.resultJson.Parsed? && t.resultJson.value.config == Some(D.TrialConfig("collab", true))
    && t.resultJson.value.taskChecksum != ""
    && t.summaryJson.Parsed? && t.summaryJson.value.Some?
    && t.summaryJson.value.value.baseCommit != ""
    && t.summaryJson.value.value == Summary(run.result, t.summaryJson.value.value.baseCommit)
    && t.children.Some? && multiset(t.children.value) == multiset(AllOnDisk(run.rounds))
    && t.final == D.File(run.finalPatch) && t.model == D.File(run.finalPatch)
  }

  /** The rounds as the reader sees them, in order. */
  function Seen(rounds: seq<E.RoundDir>): (entries: seq<D.Entry>)
    ensures |entries| == |rounds|
  {
    seq(|rounds|, i requires 0 <= i < |rounds| =>
      D.Entry(rounds[i].id.number, KindRead(rounds[i].id.kind), OnDisk(rounds[i])))
  }

  // ------------------------------------------------------- listing and ordering

  lemma EntriesWithout(b: seq<D.Child>, i: nat)
    requires i < |b|
    ensures multiset(b) == multiset(b[..i] + b[i + 1..]) + multiset{b[i]}
    ensures multiset(D.Entries(b)) ==
            multiset(D.Entries(b[..i] + b[i + 1..])) + multiset(D.Entries([b[i]]))
  {
    hide D.Entries;
    var before, x, after := b[..i], [b[i]], b[i + 1..];
    assert b == before + (x + after);
    D.EntriesOfConcat(before, x + after);
    D.EntriesOfConcat(x, after);
    D.EntriesOfConcat(before, after);
  }

  /** Another listing order yields the same entries, in another order. */
  lemma {:induction false} EntriesOfPermutation(a: seq<D.Child>, b: seq<D.Child>)
    requires multiset(a) == multiset(b)
    ensures multiset(D.Entries(a)) == multiset(D.Entries(b))
  {
    hide D.Entries;
    if a == [] {
      assert |multiset(a)| == |multiset(b)|;
    } else {
      assert a[0] in multiset(b);
      var i :| 0 <= i < |b| && b[i] == a[0];
      EntriesWithout(a, 0);
      EntriesWithout(b, i);
      assert a[..0] + a[0 + 1..] == a[1..];
      assert multiset(a[1..]) == multiset(a) - multiset{a[0]};
      assert multiset(b[..i] + b[i + 1..]) == multiset(b) - multiset{a[0]};
      EntriesOfPermutation(a[1..], b[..i] + b[i + 1..]);
    }
  }

  lemma {:induction false} EntriesOfWritten(rounds: seq<E.RoundDir>)
    requires forall i :: 0 <= i < |rounds| ==> rounds[i].id.number < 100
    ensures D.Entries(AllOnDisk(rounds)) == Seen(rounds)
  {
    hide D.ParseRoundName, E.RoundName, Statuses, RoleName;
    if rounds != [] {
      EntriesOfWritten(rounds[1..]);
      RoundNamesReadBack(rounds[0].id);
      assert AllOnDisk(rounds)[1..] == AllOnDisk(rounds[1..]);
      assert Seen(rounds) == [Seen(rounds)[0]] + Seen(rounds[1..]);
    }
  }

  /** Whatever order the directory lists them in, the rounds come back in the order they ran. */
  lemma ListingReadsBack(rounds: seq<E.RoundDir>, children: seq<D.Child>)
    requires forall i {:trigger rounds[i]} :: 0 <= i < |rounds| ==> rounds[i].id.number == i
    requires |rounds| <= 100 && multiset(children) == multiset(AllOnDisk(rounds))
    ensures D.SortByNumber(D.Entries(children)) == Seen(rounds)
  {
    EntriesOfWritten(rounds);
    EntriesOfPermutation(children, AllOnDisk(rounds));
    D.SortByNumberSorts(D.Entries(children));
    D.AscendingIsUnique(D.SortByNumber(D.Entries(children)), Seen(rounds));
  }

  /** Round numbers of three digits break the reader, and nothing else about the names can. */
  lemma NamesAreReadable(rounds: seq<E.RoundDir>, children: seq<D.Child>)
    requires forall i {:trigger rounds[i]} :: 0 <= i < |rounds| ==> rounds[i].id.number == i
    requires rounds != [] && rounds[0].id.kind == E.Modify
    requires multiset(children) == multiset(AllOnDisk(rounds))
    ensures D.RoundsReadable(Some(children)) <==> |rounds| <= 100
  {
    var written := AllOnDisk(rounds);
    if |rounds| <= 100 {
      ListingReadsBack(rounds, children);
      forall c | c in children
        ensures D.ParseRoundName(c.name).Some?
      {
        assert c in multiset(written);
        var i :| 0 <= i < |written| && written[i] == c;
        RoundNamesReadBack(rounds[i].id);
      }
    } else {
      RoundNamesReadBack(rounds[100].id);
      assert written[100] in multiset(children);
      assert written[100] in children;
    }
  }

  // -------------------------------------------------------------- selections

  /** Kinds of an engine run's rounds, by position. */
  ghost predicate Alternates(entries: seq<D.Entry>) {
    forall i {:trigger entries[i]} :: 0 <= i < |entries| ==>
      (D.IsReview(entries[i]) <==> i % 2 == 1) && (D.IsRevision(entries[i]) <==> i % 2 == 0 && i > 0)
  }

  function OddOnes(entries: seq<D.Entry>): seq<D.Entry> {
    seq(|entries| / 2, i requires 0 <= i < |entries| / 2 => entries[2 * i + 1])
  }

  function EvenOnes(entries: seq<D.Entry>): seq<D.Entry>
    requires entries != []
  {
    seq((|entries| + 1) / 2 - 1, i requires 0 <= i < (|entries| + 1) / 2 - 1 => entries[2 * i + 2])
  }

  lemma {:induction false} SelectionsByPosition(entries: seq<D.Entry>)
    requires entries != [] && Alternates(entries)
    ensures D.Filter(entries, D.IsReview) == OddOnes(entries)
    ensures D.Filter(entries, D.IsRevision) == EvenOnes(entries)
  {
    hide D.Filter;
    var n := |entries|;
    var front, last := entries[..n - 1], entries[n - 1];
    assert entries == front + [last];
    FilterOfAll([], D.IsReview);
    FilterOfAll([], D.IsRevision);
    D.FilterAppends(front, last, D.IsReview);
    D.FilterAppends(front, last, D.IsRevision);
    if n > 1 {
      SelectionsByPosition(front);
      if n % 2 == 0 {
        assert OddOnes(entries) == OddOnes(front) + [last];
        assert EvenOnes(entries) == EvenOnes(front);
      } else {
        assert OddOnes(entries) == OddOnes(front);
        assert EvenOnes(entries) == EvenOnes(front) + [last];
      }
    }
  }

  lemma {:induction false} FilterOfAll<T>(xs: seq<T>, keep: T -> bool)
    ensures (forall x :: x in xs ==> keep(x)) ==> D.Filter(xs, keep) == xs
    ensures (forall x :: x in xs ==> !keep(x)) ==> D.Filter(xs, keep) == []
  {
    if xs != [] {
      FilterOfAll(xs[1..], keep);
      assert xs == [xs[0]] + xs[1..];
    }
  }

  lemma {:induction false} MaxIsLast(entries: seq<D.Entry>, first: nat)
    requires entries != []
    requires forall i {:trigger entries[i]} :: 0 <= i < |entries| ==> entries[i].number == first + i
    ensures D.MaxNumber(entries) == first + |entries| - 1
  {
    if |entries| > 1 {
      MaxIsLast(entries[1..], first + 1);
    }
  }

  lemma SuccessReadsBack(round: E.RoundDir)
    requires round.metadata.Some?
    ensures D.RoundSucceeded(OnDisk(round)) <==> E.Succeeded(round)
  {
  }

  /** Round i of a completed loop, as the reader sees it. */
  lemma SeenRound(run: E.RunRecord, i: nat)
    requires E.LoopCompleted(run) && i < |run.rounds|
    ensures var e, k := Seen(run.rounds)[i], run.result.revisionCount;
            && e.number == i
            && (D.IsReview(e) <==> i % 2 == 1)
            && (D.IsRevision(e) <==> i % 2 == 0 && i > 0)
            && e.dir.metadata.Metadata?
            && (i % 2 == 1 ==>
                  && D.Role(e.dir) == Some("reviewer") && i / 2 <= k
                  && e.dir.patch == Some(Diff(run.base.tree, run.states[i / 2].tree)))
            && (i % 2 == 0 ==> D.Role(e.dir) == Some("modifier"))
            && (D.RoundSucceeded(e.dir) <==> E.Succeeded(run.rounds[i]))
            && (i < 2 * k + 1 ==> E.Succeeded(run.rounds[i]))
  {
    assert E.RoundAt(run.cfg, run.base, run.rounds[i], i, run.states);
    SuccessReadsBack(run.rounds[i]);
  }

  lemma SeenAlternates(run: E.RunRecord)
    requires E.LoopCompleted(run)
    ensures Alternates(Seen(run.rounds))
    ensures forall i {:trigger run.rounds[i]} :: 0 <= i < |run.rounds| ==> run.rounds[i].id.number == i
    ensures run.rounds[0].id.kind == E.Modify
    ensures D.MaxNumber(Seen(run.rounds)) == |run.rounds| - 1
  {
    var entries := Seen(run.rounds);
    forall i | 0 <= i < |entries|
      ensures entries[i].number == i && run.rounds[i].id.number == i
      ensures (D.IsReview(entries[i]) <==> i % 2 == 1) && (D.IsRevision(entries[i]) <==> i % 2 == 0 && i > 0)
    {
      SeenRound(run, i);
    }
    assert E.RoundAt(run.cfg, run.base, run.rounds[0], 0, run.states);
    MaxIsLast(entries, 0);
  }

  lemma SeenReview(run: E.RunRecord, j: nat)
    requires E.LoopCompleted(run) && j < |run.rounds| / 2
    ensures var e := OddOnes(Seen(run.rounds))[j];
            && e.dir.metadata.Metadata? && D.Role(e.dir) == Some("reviewer")
            && j <= run.result.revisionCount
            && e.dir.patch == Some(Diff(run.base.tree, run.states[j].tree))
            && (D.RoundSucceeded(e.dir) <==> E.Succeeded(run.rounds[2 * j + 1]))
  {
    hide OnDisk, E.Succeeded, D.RoundSucceeded, E.RoundAt, E.Verdicts, E.History, E.ExitFits;
    SeenRound(run, 2 * j + 1);
  }

  lemma SeenRevision(run: E.RunRecord, j: nat)
    requires E.LoopCompleted(run) && j < (|run.rounds| + 1) / 2 - 1
    ensures var e := EvenOnes(Seen(run.rounds))[j];
            && D.Role(e.dir) == Some("modifier") && e.number == 2 * j + 2
            && (D.RoundSucceeded(e.dir) <==> E.Succeeded(run.rounds[2 * j + 2]))
            && (j < run.result.revisionCount ==> E.Succeeded(run.rounds[2 * j + 2]))
  {
    hide OnDisk, E.Succeeded, D.RoundSucceeded, E.RoundAt, E.Verdicts, E.History, E.ExitFits;
    SeenRound(run, 2 * j + 2);
  }

  // --------------------------------------------------------- revision counts

  ghost predicate LastRevisionFailed(run: E.RunRecord) {
    |run.rounds| == 2 * run.result.revisionCount + 3 ==> !E.Succeeded(run.rounds[|run.rounds| - 1])
  }

  lemma OnlyTheLastCanFail(revisions: seq<D.Entry>, k: nat)
    requires k <= |revisions| <= k + 1
    requires forall j :: 0 <= j < k ==> D.Completed(revisions[j])
    ensures |D.Filter(revisions, D.Completed)| ==
            if |revisions| == k + 1 && D.Completed(revisions[k]) then k + 1 else k
    ensures D.Filter(revisions, D.Interrupted) ==
            if |revisions| == k + 1 && !D.Completed(revisions[k]) then [revisions[k]] else []
  {
    hide D.RoundSucceeded, D.Filter;
    var front := revisions[..k];
    assert forall e :: e in front ==> D.Completed(e) && !D.Interrupted(e);
    FilterOfAll(front, D.Completed);
    FilterOfAll(front, D.Interrupted);
    if |revisions| == k {
      assert revisions == front;
    } else {
      assert revisions == front + [revisions[k]];
      D.FilterAppends(front, revisions[k], D.Completed);
      D.FilterAppends(front, revisions[k], D.Interrupted);
    }
  }

  /** The reader counts the engine's revisions right, unless a failed last one looks successful. */
  lemma RevisionsCounted(run: E.RunRecord)
    requires E.LoopCompleted(run)
    ensures var revisions := EvenOnes(Seen(run.rounds));
            var interrupted := D.Filter(revisions, D.Interrupted);
            LastRevisionFailed(run) <==>
              && |D.Filter(revisions, D.Completed)| == run.result.revisionCount
              && |interrupted| <= 1
              && (|interrupted| == 1 ==> interrupted[0].number == |run.rounds| - 1)
  {
    hide OnDisk, Seen, E.Succeeded, D.RoundSucceeded, E.RoundAt, D.Filter;
    var revisions, k := EvenOnes(Seen(run.rounds)), run.result.revisionCount;
    forall j | 0 <= j < |revisions|
      ensures j < k ==> D.Completed(revisions[j])
    {
      SeenRevision(run, j);
    }
    OnlyTheLastCanFail(revisions, k);
    if |revisions| == k + 1 {
      SeenRevision(run, k);
    }
  }

  // ----------------------------------------------------------- graded states

  function Patches(base: Commit, states: seq<Commit>): seq<Patch> {
    seq(|states|, i requires 0 <= i < |states| => Diff(base.tree, states[i].tree))
  }

  /** The reader grades the state each review saw, and then the last state. */
  lemma GradedAreTheStates(run: E.RunRecord)
    requires E.LoopCompleted(run)
    ensures var k, seen := run.result.revisionCount, |run.rounds| / 2;
            && k <= seen <= k + 1
            && (forall e :: e in OddOnes(Seen(run.rounds)) ==> e.dir.patch.Some?)
            && D.Graded(OddOnes(Seen(run.rounds)), run.finalPatch) ==
               Patches(run.base, run.states[..seen] + [run.states[k]])
  {
    hide OnDisk, Seen, E.Succeeded, D.RoundSucceeded, E.RoundAt, E.Verdicts, E.History, E.ExitFits, D.Role, D.Graded, Diff;
    var reviews, k, seen := OddOnes(Seen(run.rounds)), run.result.revisionCount, |run.rounds| / 2;
    forall j | 0 <= j < |reviews|
      ensures reviews[j].dir.patch == Some(Diff(run.base.tree, run.states[j].tree))
    {
      SeenReview(run, j);
    }
    D.GradedAt(reviews, run.finalPatch);
    assert D.Graded(reviews, run.finalPatch) ==
           Patches(run.base, run.states[..seen] + [run.states[k]]);
  }

  lemma {:induction false} ChangesAreBounded(graded: seq<Patch>)
    requires graded != []
    ensures D.Changes(graded) <= |graded| - 1
    ensures |graded| > 1 && graded[|graded| - 1] == graded[|graded| - 2] ==> D.Changes(graded) <= |graded| - 2
  {
    if |graded| > 1 {
      ChangesAreBounded(graded[1..]);
    }
  }

  /** The observed changes never exceed the revisions the engine counted. */
  lemma ChangesFitTheRevisions(run: E.RunRecord)
    requires E.LoopCompleted(run)
    ensures forall e :: e in OddOnes(Seen(run.rounds)) ==> e.dir.patch.Some?
    ensures D.Changes(D.Graded(OddOnes(Seen(run.rounds)), run.finalPatch)) <= run.result.revisionCount
  {
    hide OnDisk, Seen, OddOnes, E.RoundAt, E.Succeeded, D.Graded, D.Changes;
    GradedAreTheStates(run);
    ChangesAreBounded(D.Graded(OddOnes(Seen(run.rounds)), run.finalPatch));
  }

  // -------------------------------------------------------------- acceptance

  /** Every state under review differs from the base. */
  ghost predicate ReviewsSeeWork(run: E.RunRecord)
    requires E.LoopCompleted(run)
  {
    forall j :: 0 <= j < |run.rounds| / 2 && j < |run.states| ==> run.states[j].tree != run.base.tree
  }

  /** Exactly the runs whose written layout the reader takes. */
  ghost predicate Readable(run: E.RunRecord)
    requires E.KeepsProtocol(run)
  {
    && |run.rounds| <= 100
    && if run.result.checkpoints == [] then |run.rounds| == 1 && run.finalPatch == EMPTY_PATCH
       else
         && |run.rounds| >= 2
         && ReviewsSeeWork(run)
         && run.finalPatch != EMPTY_PATCH
         && run.result.outcome != E.CheckpointFailed
         && LastRevisionFailed(run)
  }

  lemma ReviewsFitIffTheySeeWork(run: E.RunRecord, degraded: bool, last: int)
    requires E.LoopCompleted(run)
    ensures (forall e :: e in OddOnes(Seen(run.rounds)) ==> D.ReviewFits(e, degraded, last)) <==>
            ReviewsSeeWork(run)
    ensures forall e :: e in EvenOnes(Seen(run.rounds)) ==> D.RevisionFits(e)
  {
    hide OnDisk, Seen, E.Succeeded, D.RoundSucceeded, E.RoundAt, E.Verdicts, E.History, E.ExitFits, D.Role;
    var reviews, revisions := OddOnes(Seen(run.rounds)), EvenOnes(Seen(run.rounds));
    forall j | 0 <= j < |reviews|
      ensures D.ReviewFits(reviews[j], degraded, last) <==> run.states[j].tree != run.base.tree
    {
      SeenReview(run, j);
      DiffIsEmptyOnlyForEqualTrees(run.base.tree, run.states[j].tree);
    }
    forall j | 0 <= j < |revisions|
      ensures D.RevisionFits(revisions[j])
    {
      SeenRevision(run, j);
    }
    if ReviewsSeeWork(run) {
      forall e | e in reviews
        ensures D.ReviewFits(e, degraded, last)
      {
        var j :| 0 <= j < |reviews| && reviews[j] == e;
      }
    } else {
      var j :| 0 <= j < |run.rounds| / 2 && j < |run.states| && run.states[j].tree == run.base.tree;
      assert reviews[j] in reviews;
    }
  }

  /** A completed loop with a checkpoint: the reader's conditions, one by one. */
  lemma LoopAccepted(run: E.RunRecord, t: D.Trial)
    requires E.LoopCompleted(run) && Written(run, t)
    requires |run.rounds| <= 100 && run.result.checkpoints != []
    requires D.Judgeable(t) && D.EnvelopeFits(t)
    requires D.RoundsOf(t) == Seen(run.rounds)
    ensures D.RoundsFit(t) <==>
              && |run.rounds| >= 2 && ReviewsSeeWork(run) && run.finalPatch != EMPTY_PATCH
              && run.result.outcome != E.CheckpointFailed && LastRevisionFailed(run)
  {
    hide OnDisk, Seen, E.Succeeded, D.RoundSucceeded, E.RoundAt, D.Role, D.SortByNumber, D.Entries,
         D.Filter, D.ReviewFits, D.RevisionFits, D.RoundsReadable, AllOnDisk;
    var entries, summary := Seen(run.rounds), t.summaryJson.value.value;
    SeenAlternates(run);
    SelectionsByPosition(entries);
    ReviewsFitIffTheySeeWork(run, summary.degradedReason.Some?, D.MaxNumber(entries));
    RevisionsCounted(run);
    ChangesFitTheRevisions(run);
    OutcomeIsDeliverable(run);
  }

  lemma OutcomeIsDeliverable(run: E.RunRecord)
    requires E.LoopCompleted(run)
    ensures run.finalPatch != EMPTY_PATCH ==>
              (D.IsDeliverable(OutcomeName(run.result.outcome)) <==> run.result.outcome != E.CheckpointFailed)
  {
    var name := OutcomeName(run.result.outcome);
    match run.result.outcome {
      case Approved =>
      case MaxReviewsReached =>
      case Degraded =>
      case CheckpointFailed => assert |name| == 17;
      case _ =>
    }
  }

  /** The rounds of any run read back in order while their numbers have two digits. */
  lemma RoundsReadBack(run: E.RunRecord, t: D.Trial)
    requires E.KeepsProtocol(run) && Written(run, t)
    ensures D.Judgeable(t) && (D.EnvelopeFits(t) <==> |run.rounds| <= 100)
    ensures |run.rounds| <= 100 ==> D.RoundsOf(t) == Seen(run.rounds)
  {
    hide D.SortByNumber, D.Entries, D.RoundsReadable, OnDisk, E.Succeeded;
    forall i {:trigger run.rounds[i]} | 0 <= i < |run.rounds|
      ensures run.rounds[i].id.number == i && (i == 0 ==> run.rounds[i].id.kind == E.Modify)
    {
      assert E.RoundAt(run.cfg, run.base, run.rounds[i], i, run.states);
    }
    NamesAreReadable(run.rounds, t.children.value);
    if |run.rounds| <= 100 {
      ListingReadsBack(run.rounds, t.children.value);
    }
  }

  /**
   * Main result of the writer/reader protocol: over all runs, whatever the agents did, the layout
   * the engine wrote is accepted exactly when the run is readable.
   */
  lemma AcceptedIffReadable(run: E.RunRecord, t: D.Trial)
    requires E.KeepsProtocol(run) && Written(run, t)
    ensures D.Acceptable(t) <==> Readable(run)
  {
    hide OnDisk, Seen, AllOnDisk, E.Succeeded, E.RoundAt, D.SortByNumber, D.Entries, D.RoundsFit,
         D.EnvelopeFits, D.Filter, Written;
    RoundsReadBack(run, t);
    if |run.rounds| <= 100 {
      WrittenCounts(run, t);
      if run.result.checkpoints == [] {
        NothingClaimedIff(run, t);
      } else {
        assert E.LoopCompleted(run);
        LoopAccepted(run, t);
      }
    }
  }

  lemma WrittenCounts(run: E.RunRecord, t: D.Trial)
    requires Written(run, t)
    ensures D.Judgeable(t) && t.summaryJson.value.value.checkpoints == |run.result.checkpoints|
    ensures t.final == D.File(run.finalPatch) && t.model == D.File(run.finalPatch)
  {
  }

  lemma NothingClaimedIff(run: E.RunRecord, t: D.Trial)
    requires E.KeepsProtocol(run) && Written(run, t) && |run.rounds| <= 100
    requires D.RoundsOf(t) == Seen(run.rounds)
    ensures D.NothingClaimed(t) <==> |run.rounds| == 1 && run.finalPatch == EMPTY_PATCH
  {
    hide OnDisk, Seen, E.Succeeded, E.RoundAt, D.SortByNumber, D.Entries, AllOnDisk;
    var entries := Seen(run.rounds);
    if E.LoopCompleted(run) {
      SeenAlternates(run);
      SelectionsByPosition(entries);
    } else {
      SeenInitial(run);
      SelectionsByPosition(entries);
    }
  }

  lemma SeenInitial(run: E.RunRecord)
    requires E.InitialTurnFailed(run)
    ensures Alternates(Seen(run.rounds))
  {
    assert E.RoundAt(run.cfg, run.base, run.rounds[0], 0, []);
  }

  // ------------------------------------------------------------- clean runs

  /**
   * The conditions a clean run meets: two-digit round numbers, successful turns that leave HEAD
   * alone, no aborted turn that reports success, checkpoints that differ from the base, at least one review.
   */
  ghost predicate Clean(run: E.RunRecord) {
    && 1 <= run.cfg.maxReviews <= 49
    && !E.HeadMoved(run.turns) && !E.AbortedSuccess(run.turns)
    && (forall c :: c in run.result.checkpoints ==> c.commit.tree != run.base.tree)
    && |run.rounds| >= 2
    && run.result.outcome in {E.Approved, E.MaxReviewsReached, E.Degraded}
  }

  lemma StatesDifferFromBase(run: E.RunRecord)
    requires E.LoopCompleted(run) && Clean(run)
    ensures run.result.checkpoints != []
    ensures forall i :: 0 <= i < |run.states| ==> run.states[i].tree != run.base.tree
  {
    hide E.RoundAt, E.Succeeded;
    var saved := run.result.checkpoints;
    forall i | 0 <= i < |run.states|
      ensures run.states[i].tree != run.base.tree
    {
      var j := if i < |saved| then i else i - 1;
      assert saved[j] in saved && saved[j].commit == run.states[j];
    }
  }

  lemma CleanRunsAreReadable(run: E.RunRecord)
    requires E.KeepsProtocol(run) && Clean(run)
    ensures E.LoopCompleted(run) && Readable(run)
  {
    hide E.RoundAt, E.Succeeded;
    assert E.LoopCompleted(run);
    StatesDifferFromBase(run);
    DiffIsEmptyOnlyForEqualTrees(run.base.tree, run.result.finalCommit.tree);
  }

  function PatchesOf(stages: seq<D.Stage>): seq<Patch> {
    seq(|stages|, i requires 0 <= i < |stages| => stages[i].patch)
  }

  function CheckpointPatches(run: E.RunRecord): seq<Patch> {
    var saved := run.result.checkpoints;
    seq(|saved|, i requires 0 <= i < |saved| => Diff(run.base.tree, saved[i].commit.tree))
  }

  /** Dropping unchanged stages from a list where only the last can be one. */
  lemma ChangedStages(stages: seq<D.Stage>)
    requires stages != [] && forall i :: 0 <= i < |stages| - 1 ==> stages[i].changed
    ensures var last := |stages| - 1;
            D.Filter(stages, D.IsChanged) == if stages[last].changed then stages else stages[..last]
  {
    hide D.Filter;
    var last := |stages| - 1;
    assert stages == stages[..last] + [stages[last]];
    D.FilterAppends(stages[..last], stages[last], D.IsChanged);
    FilterOfAll(stages[..last], D.IsChanged);
  }

  /** The graded patches of a run whose every counted revision, but a no-change, moved the tree. */
  lemma GradedMoves(run: E.RunRecord)
    requires E.LoopCompleted(run) && !E.HeadMoved(run.turns) && |run.rounds| >= 2
    ensures var seen, k := |run.rounds| / 2, run.result.revisionCount;
            && 1 <= seen && k <= seen <= k + 1
            && var graded := Patches(run.base, run.states[..seen] + [run.states[k]]);
               && (forall i :: 1 <= i < seen ==> graded[i] != graded[i - 1])
               && (graded[seen] != graded[seen - 1] <==> seen == k && !run.result.noChangeRevision)
  {
    hide E.RoundAt, E.Succeeded, E.Verdicts, Diff;
    var seen, k := |run.rounds| / 2, run.result.revisionCount;
    var graded := Patches(run.base, run.states[..seen] + [run.states[k]]);
    forall i | 1 <= i < seen
      ensures graded[i] != graded[i - 1]
    {
      assert run.states[i - 1].tree != run.states[i].tree;
      DiffIsInjective(run.base.tree, run.states[i].tree, run.states[i - 1].tree);
    }
    DiffIsInjective(run.base.tree, run.states[k].tree, run.states[seen - 1].tree);
  }

  lemma StagesOfMoves(stages: seq<D.Stage>, graded: seq<Patch>, slots: seq<D.Slot>)
    requires D.StagesFit(stages, graded, slots) && |graded| >= 2
    requires forall i :: 1 <= i < |graded| - 1 ==> graded[i] != graded[i - 1]
    ensures |stages| == |graded|
    ensures forall i :: 0 <= i < |stages| ==> stages[i].patch == graded[i]
    ensures forall i :: 0 <= i < |stages| - 1 ==> stages[i].changed
    ensures var last := |graded| - 1; stages[last].changed <==> graded[last] != graded[last - 1]
  {
    hide D.First;
    forall i | 0 <= i < |stages|
      ensures D.StageFits(stages[i], i, graded, slots)
    {
    }
  }

  lemma StageChanges(run: E.RunRecord, stages: seq<D.Stage>, slots: seq<D.Slot>)
    requires E.LoopCompleted(run) && !E.HeadMoved(run.turns) && |run.rounds| >= 2
    requires |run.rounds| / 2 <= run.result.revisionCount + 1
    requires D.StagesFit(stages, Patches(run.base, run.states[..|run.rounds| / 2] + [run.states[run.result.revisionCount]]), slots)
    ensures var seen, k := |run.rounds| / 2, run.result.revisionCount;
            && |stages| == seen + 1
            && (forall i :: 0 <= i < seen ==> stages[i].changed)
            && (forall i :: 0 <= i < seen ==> stages[i].patch == Diff(run.base.tree, run.states[i].tree))
            && stages[seen].patch == Diff(run.base.tree, run.states[k].tree)
            && (stages[seen].changed <==> seen == k && !run.result.noChangeRevision)
  {
    hide E.RoundAt, E.Succeeded, E.ExitFits, E.History, D.StagesFit, Diff;
    GradedMoves(run);
    var trees := run.states[..|run.rounds| / 2] + [run.states[run.result.revisionCount]];
    StagesOfMoves(stages, Patches(run.base, trees), slots);
    assert forall i :: 0 <= i < |run.rounds| / 2 ==> trees[i] == run.states[i];
  }

  /**
   * The stages the reader names, unchanged ones dropped, are exactly the recorded checkpoints in
   * order, so a scorer grades every state the engine saved and no other.
   */
  lemma ChangedStagesAreCheckpoints(run: E.RunRecord, t: D.Trial, found: D.PatchSet)
    requires E.LoopCompleted(run) && !E.HeadMoved(run.turns) && |run.rounds| >= 2
    requires E.KeepsProtocol(run) && Written(run, t) && D.Acceptable(t) && D.Describes(found, t)
    ensures PatchesOf(D.Filter(found.stages, D.IsChanged)) == CheckpointPatches(run)
    ensures |D.Filter(found.stages, D.IsChanged)| ==
            1 + run.result.revisionCount - if run.result.noChangeRevision then 1 else 0
  {
    hide E.RoundAt, E.Succeeded, E.LoopCompleted, E.KeepsProtocol, OnDisk, Seen, D.Acceptable, D.Describes,
         D.Graded, D.Filter, D.StagesFit, Written, Diff;
    CheckpointsAreStates(run);
    StagesOfRun(run, t, found);
    StageChanges(run, found.stages, D.Slots(OddOnes(Seen(run.rounds))));
    ChangedStages(found.stages);
    assert PatchesOf(D.Filter(found.stages, D.IsChanged)) == CheckpointPatches(run);
  }

  lemma CheckpointsAreStates(run: E.RunRecord)
    requires E.LoopCompleted(run) && !E.HeadMoved(run.turns)
    ensures var saved, k := run.result.checkpoints, run.result.revisionCount;
            && |run.states| == k + 1 && |run.rounds| / 2 <= k + 1
            && |saved| == k + 1 - (if run.result.noChangeRevision then 1 else 0) && saved != []
            && (run.result.noChangeRevision ==> |run.rounds| / 2 == k)
            && forall i :: 0 <= i < |saved| ==> saved[i].commit == run.states[i]
  {
    hide E.RoundAt, E.Succeeded, E.Verdicts;
  }

  lemma StagesOfRun(run: E.RunRecord, t: D.Trial, found: D.PatchSet)
    requires E.LoopCompleted(run) && E.KeepsProtocol(run) && Written(run, t)
    requires D.Acceptable(t) && D.Describes(found, t) && run.result.checkpoints != []
    ensures var k, seen := run.result.revisionCount, |run.rounds| / 2;
            && k <= seen <= k + 1
            && D.StagesFit(found.stages, Patches(run.base, run.states[..seen] + [run.states[k]]),
                           D.Slots(OddOnes(Seen(run.rounds))))
  {
    hide E.RoundAt, E.Succeeded, OnDisk, Seen, AllOnDisk, D.Graded, D.Filter, D.StagesFit,
         D.SortByNumber, D.Entries, D.RoundsReadable, D.RoundsMatch;
    RoundsReadBack(run, t);
    SeenAlternates(run);
    SelectionsByPosition(Seen(run.rounds));
    GradedAreTheStates(run);
  }

  /** The reader calls the protocol complete exactly for the two outcomes that complete it. */
  lemma CompletionIsTheOutcome(run: E.RunRecord, t: D.Trial, found: D.PatchSet)
    requires E.KeepsProtocol(run) && Written(run, t) && D.Acceptable(t) && D.Describes(found, t)
    requires run.result.checkpoints != []
    ensures found.completedProtocol <==> run.result.outcome in {E.Approved, E.MaxReviewsReached}
  {
    hide E.RoundAt, E.Succeeded, OnDisk, Seen, AllOnDisk, D.Graded, D.Filter, D.StagesFit,
         D.SortByNumber, D.Entries, D.RoundsReadable, D.RoundsMatch, D.Changes, D.RoundSucceeded;
    RoundsReadBack(run, t);
    var entries := Seen(run.rounds);
    forall i | 0 <= i < |entries| && run.result.outcome in {E.Approved, E.MaxReviewsReached}
      ensures D.RoundSucceeded(entries[i].dir)
    {
      SeenRound(run, i);
    }
  }

  /** Clean runs are accepted, staged checkpoint by checkpoint, and completed as the engine says. */
  lemma CleanRunsRoundTrip(run: E.RunRecord, t: D.Trial, found: D.PatchSet)
    requires E.KeepsProtocol(run) && Clean(run) && Written(run, t)
    requires D.Acceptable(t) ==> D.Describes(found, t)
    ensures D.Acceptable(t) && found.eligible
    ensures PatchesOf(D.Filter(found.stages, D.IsChanged)) == CheckpointPatches(run)
    ensures |D.Filter(found.stages, D.IsChanged)| ==
            1 + run.result.revisionCount - if run.result.noChangeRevision then 1 else 0
    ensures found.completedProtocol <==> run.result.outcome != E.Degraded
  {
    hide E.RoundAt, E.Succeeded, D.Acceptable, D.Filter, D.StagesFit, D.Judgeable, OnDisk, Seen, AllOnDisk;
    CleanRunsAreReadable(run);
    AcceptedIffReadable(run, t);
    StatesDifferFromBase(run);
    ChangedStagesAreCheckpoints(run, t, found);
    CompletionIsTheOutcome(run, t, found);
  }

  // ----------------------------------------------- the two programs, end to end

  /** Run the engine, lay the trial out on disk in some listing order, and read it back. */
  method RunThenDiscover(engine: E.Engine, checkoutWorks: bool, baseHash: string, checksum: string)
    returns (result: E.Result, discovered: D.Discovered, ghost run: E.RunRecord)
    requires engine.Fresh() && baseHash != "" && checksum != ""
    modifies engine, engine.ws
    ensures E.EngineRun(run) && run.result == result
    ensures discovered.Accepted? <==> Readable(run)
    ensures Clean(run) ==>
              && discovered.Accepted?
              && PatchesOf(D.Filter(discovered.set_.stages, D.IsChanged)) == CheckpointPatches(run)
              && (discovered.set_.completedProtocol <==> result.outcome != E.Degraded)
  {
    hide E.TurnsExplain, E.RoundAt, E.Succeeded, E.LoopCompleted, E.InitialTurnFailed, D.Acceptable, D.Filter,
         D.Describes, OnDisk, Seen, Readable;
    result, run := engine.Run(checkoutWorks);
    var written := AllOnDisk(engine.rounds);
    var listing :| multiset(listing) == multiset(written);
    var t := D.Trial(D.Parsed(D.ResultJson(Some(D.TrialConfig("collab", true)), checksum)),
                     D.Parsed(Some(Summary(result, baseHash))), Some(listing),
                     D.File(engine.finalPatch.value), D.File(engine.finalPatch.value));
    assert Written(run, t);
    AcceptedIffReadable(run, t);
    discovered := D.DiscoverTrialPatches(t);
    if Clean(run) {
      CleanRunsAreReadable(run);
      CleanRunsRoundTrip(run, t, discovered.set_);
    }
  }
}
