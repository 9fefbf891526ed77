/** Reading a collab trial directory back into the stages that the scorer grades. */
module Discovery {
  import opened Git
  import opened Options
  import Json

  // ------------------------------------------------------- what lies on disk

  /** metadata.json of a round: its role and the status of each recorded attempt. */
  datatype MetadataFile =
    | NoMetadata
    | UnreadableMetadata
    | Metadata(role: Option<string>, attempts: Option<seq<Option<string>>>)

  /** One entry of rounds/. The directory listing is sorted by name. */
  datatype Child = Child(name: string, isDir: bool, metadata: MetadataFile, patch: Option<Patch>)

  /** A file that must stay inside the trial directory. */
  datatype FileRef = Escapes | Missing | File(patch: Patch)

  datatype JsonFile<T> = NoFile | Unreadable | Parsed(value: T)

  datatype TrialConfig = TrialConfig(topology: string, taskDirAvailable: bool)

  datatype ResultJson = ResultJson(config: Option<TrialConfig>, taskChecksum: string)

  datatype SummaryResult = SummaryResult(
    outcome: string, degradedReason: Option<string>, baseCommit: string,
    reviewCount: Option<int>, revisionCount: Option<int>, noChangeRevision: bool, checkpoints: nat)

  datatype Trial = Trial(
    resultJson: JsonFile<ResultJson>,
    summaryJson: JsonFile<Option<SummaryResult>>,
    children: Option<seq<Child>>,
    final: FileRef,
    model: FileRef)

  // ------------------------------------------------------------ what is read

  datatype Kind = Modify | Review | Revise | FinalRevision

  datatype Entry = Entry(number: nat, kind: Kind, dir: Child)

  datatype StageId = Initial | Revision(n: nat) | Final

  datatype Stage = Stage(
    id: StageId, parent: Option<StageId>, ordinal: nat, patch: Patch,
    originRound: Option<string>, changed: bool, aliasOf: Option<StageId>)

  datatype PatchSet = PatchSet(
    eligible: bool, completedProtocol: bool, outcome: string, degradedReason: Option<string>,
    reviewCount: int, revisionCount: int, noChangeRevision: bool, stages: seq<Stage>)

  datatype Reason =
    | MissingJson | UnreadableJson | NoConfig | NotCollab | NoTaskDir | NoChecksum
    | NoSummaryResult | NoBaseCommit | NoCounts
    | MissingRounds | UnrecognizedRound(name: string) | BadFirstRound | PathEscapes
    | RoundsWithoutCheckpoint | PatchWithoutCheckpoint
    | NoReviewRounds | MissingFinal | MissingModel
    | BareReviewInHealthyTrial(name: string) | BareReviewNotLast(name: string)
    | UnexpectedRole(name: string) | EmptyReviewPatch(name: string)
    | ReviewCountMismatch | RevisionCountMismatch | SeveralInterrupted | InterruptedNotLast
    | UnsupportedOutcome | FinalIsNotModel | FinalIsEmpty | TooManyChangedStages

  datatype Discovered = LayoutError(reasons: seq<Reason>) | Accepted(set_: PatchSet)

  // ---------------------------------------------------------------- the rounds

  function KindOf(name: string): Option<Kind> {
    if name == "modify" then Some(Modify)
    else if name == "review" then Some(Review)
    else if name == "revise" then Some(Revise)
    else if name == "final-revision" then Some(FinalRevision)
    else None
  }

  /** Two digits, a dash and a kind; the pattern's `$` also tolerates one trailing newline. */
  function ParseRoundName(name: string): Option<(nat, Kind)> {
    if |name| < 3 || !Json.IsDigit(name[0]) || !Json.IsDigit(name[1]) || name[2] != '-' then None
    else
      var rest := name[3..];
      var kind := KindOf(if rest != "" && rest[|rest| - 1] == '\n' then rest[..|rest| - 1] else rest);
      if kind == None then None
      else Some(((name[0] - '0') as nat * 10 + (name[1] - '0') as nat, kind.value))
  }

  /** The round directories of a listing, in listing order. */
  function Entries(children: seq<Child>): seq<Entry> {
    if children == [] then []
    else
      var rest := Entries(children[1..]);
      var parsed := ParseRoundName(children[0].name);
      if children[0].isDir && parsed.Some? then [Entry(parsed.value.0, parsed.value.1, children[0])] + rest
      else rest
  }

  /** Stable insertion by round number. */
  function Insert(e: Entry, sorted: seq<Entry>): seq<Entry> {
    if sorted == [] || e.number <= sorted[0].number then [e] + sorted
    else [sorted[0]] + Insert(e, sorted[1..])
  }

  function SortByNumber(entries: seq<Entry>): seq<Entry> {
    if entries == [] then [] else Insert(entries[0], SortByNumber(entries[1..]))
  }

  ghost predicate Ascending(entries: seq<Entry>) {
    forall i, j :: 0 <= i < j < |entries| ==> entries[i].number <= entries[j].number
  }

  lemma InsertUnfolds(e: Entry, sorted: seq<Entry>)
    ensures Insert(e, sorted) ==
            if sorted == [] || e.number <= sorted[0].number then [e] + sorted
            else [sorted[0]] + Insert(e, sorted[1..])
  {
  }

  lemma {:induction false} InsertMembers(e: Entry, sorted: seq<Entry>)
    ensures multiset(Insert(e, sorted)) == multiset(sorted) + multiset{e}
  {
    hide Insert;
    InsertUnfolds(e, sorted);
    if sorted == [] || e.number <= sorted[0].number {
    } else {
      InsertMembers(e, sorted[1..]);
      assert sorted == [sorted[0]] + sorted[1..];
    }
  }

  lemma AscendingGrows(first: Entry, rest: seq<Entry>)
    requires Ascending(rest) && forall e :: e in rest ==> first.number <= e.number
    ensures Ascending([first] + rest)
  {
    var all := [first] + rest;
    forall i, j | 0 <= i < j < |all| ensures all[i].number <= all[j].number {
      assert all[j] == rest[j - 1] && all[j] in rest;
    }
  }

  lemma HeadIsLeast(sorted: seq<Entry>)
    requires Ascending(sorted) && sorted != []
    ensures Ascending(sorted[1..]) && forall e :: e in sorted ==> sorted[0].number <= e.number
  {
  }

  lemma {:induction false} InsertKeepsOrder(e: Entry, sorted: seq<Entry>)
    requires Ascending(sorted)
    ensures Ascending(Insert(e, sorted))
  {
    hide Insert, Ascending;
    InsertUnfolds(e, sorted);
    if sorted == [] {
      assert [e] + sorted == [e];
      OneIsAscending(e);
    } else {
      HeadIsLeast(sorted);
      if e.number <= sorted[0].number {
        AscendingGrows(e, sorted);
      } else {
        var rest := Insert(e, sorted[1..]);
        InsertKeepsOrder(e, sorted[1..]);
        InsertMembers(e, sorted[1..]);
        forall x | x in rest ensures sorted[0].number <= x.number {
          assert x in multiset(rest) && (x == e || x in sorted[1..]);
        }
        AscendingGrows(sorted[0], rest);
      }
    }
  }

  lemma OneIsAscending(e: Entry)
    ensures Ascending([e])
  {
  }

  lemma {:induction false} SortByNumberSorts(entries: seq<Entry>)
    ensures Ascending(SortByNumber(entries))
    ensures multiset(SortByNumber(entries)) == multiset(entries)
  {
    if entries != [] {
      SortByNumberSorts(entries[1..]);
      InsertKeepsOrder(entries[0], SortByNumber(entries[1..]));
      InsertMembers(entries[0], SortByNumber(entries[1..]));
      assert entries == [entries[0]] + entries[1..];
    }
  }

  ghost predicate Strict(entries: seq<Entry>) {
    forall i, j :: 0 <= i < j < |entries| ==> entries[i].number < entries[j].number
  }

  lemma FirstIsLeast(a: seq<Entry>, b: seq<Entry>)
    requires a != [] && b != [] && Ascending(a) && Strict(b) && multiset(a) == multiset(b)
    ensures a[0] == b[0]
  {
    assert a[0] in multiset(b) && b[0] in multiset(a);
    var i :| 0 <= i < |b| && b[i] == a[0];
    var j :| 0 <= j < |a| && a[j] == b[0];
    assert a[0].number <= a[j].number == b[0].number;
  }

  lemma TailHasTheRest(entries: seq<Entry>)
    requires entries != []
    ensures multiset(entries[1..]) == multiset(entries) - multiset{entries[0]}
  {
    assert entries == [entries[0]] + entries[1..];
  }

  /** Distinct numbers leave only one ascending arrangement, whatever the listing order was. */
  lemma {:induction false} AscendingIsUnique(a: seq<Entry>, b: seq<Entry>)
    requires Ascending(a) && Strict(b) && multiset(a) == multiset(b)
    ensures a == b
  {
    assert |multiset(a)| == |a| && |multiset(b)| == |b|;
    if a != [] {
      FirstIsLeast(a, b);
      TailHasTheRest(a);
      TailHasTheRest(b);
      AscendingIsUnique(a[1..], b[1..]);
      assert a == [a[0]] + a[1..] && b == [b[0]] + b[1..];
    }
  }

  // ------------------------------------------------------------- selections

  function Filter<T>(xs: seq<T>, keep: T -> bool): seq<T> {
    if xs == [] then []
    else (if keep(xs[0]) then [xs[0]] else []) + Filter(xs[1..], keep)
  }

  predicate IsReview(e: Entry) { e.kind == Review }
  predicate IsRevision(e: Entry) { e.kind in {Revise, FinalRevision} }

  function Role(dir: Child): Option<string> {
    if dir.metadata.Metadata? then dir.metadata.role else None
  }

  /** The last recorded attempt succeeded. */
  predicate RoundSucceeded(dir: Child) {
    dir.metadata.Metadata? && dir.metadata.attempts.Some?
    && var attempts := dir.metadata.attempts.value;
       attempts != [] && attempts[|attempts| - 1] == Some("success")
  }

  predicate Completed(e: Entry) { RoundSucceeded(e.dir) }
  predicate Interrupted(e: Entry) { !RoundSucceeded(e.dir) }

  function MaxNumber(entries: seq<Entry>): int {
    if entries == [] then -1
    else var rest := MaxNumber(entries[1..]);
         if entries[0].number > rest then entries[0].number else rest
  }

  // --------------------------------------------------- which trials are accepted

  predicate IsEmpty(file: FileRef) {
    file.File? ==> file.patch == EMPTY_PATCH
  }

  predicate HasPatch(dir: Child) {
    dir.patch.Some? && dir.patch.value != EMPTY_PATCH
  }

  predicate RoundsReadable(children: Option<seq<Child>>) {
    && children.Some?
    && (forall c :: c in children.value && c.isDir ==> ParseRoundName(c.name).Some?)
    && var entries := SortByNumber(Entries(children.value));
       entries != [] ==> entries[0].number == 0 && entries[0].kind == Modify
  }

  function RoundsOf(t: Trial): seq<Entry> {
    if t.children == None then [] else SortByNumber(Entries(t.children.value))
  }

  /** The two JSON files parse far enough to be judged. */
  predicate Judgeable(t: Trial) {
    && t.resultJson.Parsed? && t.resultJson.value.config.Some?
    && t.summaryJson.Parsed? && t.summaryJson.value.Some?
  }

  predicate EnvelopeFits(t: Trial)
    requires Judgeable(t)
  {
    var config, summary := t.resultJson.value.config.value, t.summaryJson.value.value;
    && config.topology == "collab" && config.taskDirAvailable
    && t.resultJson.value.taskChecksum != ""
    && summary.baseCommit != ""
    && summary.reviewCount.Some? && summary.revisionCount.Some?
    && RoundsReadable(t.children)
    && t.final != Escapes && t.model != Escapes
  }

  predicate ReviewFits(e: Entry, degraded: bool, last: int) {
    && HasPatch(e.dir)
    && (if e.dir.metadata.NoMetadata? then degraded && e.number == last
        else Role(e.dir) == Some("reviewer"))
  }

  predicate RevisionFits(e: Entry) {
    Role(e.dir) == Some("modifier")
  }

  /** The states the scorer grades: what each review saw, then the delivered patch. */
  function Graded(reviews: seq<Entry>, final: Patch): seq<Patch>
    requires forall e :: e in reviews ==> e.dir.patch.Some?
  {
    if reviews == [] then [final] else [reviews[0].dir.patch.value] + Graded(reviews[1..], final)
  }

  function Changes(graded: seq<Patch>): nat {
    if |graded| < 2 then 0
    else (if graded[1] != graded[0] then 1 else 0) + Changes(graded[1..])
  }

  predicate IsDeliverable(outcome: string) {
    outcome in {"approved", "max_reviews_reached", "degraded"}
  }

  predicate RoundsFit(t: Trial)
    requires Judgeable(t) && EnvelopeFits(t)
  {
    RoundsMatch(t) &&
    Changes(Graded(Filter(RoundsOf(t), IsReview), t.final.patch)) <= t.summaryJson.value.value.revisionCount.value
  }

  /** The rounds and the final patch agree with the summary, counting changes apart. */
  predicate RoundsMatch(t: Trial)
    requires Judgeable(t) && EnvelopeFits(t)
    ensures RoundsMatch(t) ==> t.final.File? && forall e :: e in Filter(RoundsOf(t), IsReview) ==> e.dir.patch.Some?
  {
    var summary, rounds := t.summaryJson.value.value, RoundsOf(t);
    var reviews, revisions := Filter(rounds, IsReview), Filter(rounds, IsRevision);
    var interrupted := Filter(revisions, Interrupted);
    && reviews != [] && t.final.File? && t.model.File?
    && (forall e :: e in reviews ==> ReviewFits(e, summary.degradedReason.Some?, MaxNumber(rounds)))
    && (forall e :: e in revisions ==> RevisionFits(e))
    && summary.reviewCount.value <= |reviews| <= summary.reviewCount.value + 1
    && |Filter(revisions, Completed)| == summary.revisionCount.value
    && |interrupted| <= 1
    && (|interrupted| == 1 ==> interrupted[0].number == MaxNumber(rounds))
    && IsDeliverable(summary.outcome)
    && t.final.patch == t.model.patch && t.final.patch != EMPTY_PATCH
  }

  /** A trial without any checkpoint is recognised only when nothing else claims progress. */
  predicate NothingClaimed(t: Trial) {
    && Filter(RoundsOf(t), IsReview) == [] && Filter(RoundsOf(t), IsRevision) == []
    && IsEmpty(t.final) && IsEmpty(t.model)
  }

  predicate Acceptable(t: Trial) {
    Judgeable(t) && EnvelopeFits(t) &&
    if t.summaryJson.value.value.checkpoints == 0 then NothingClaimed(t) else RoundsFit(t)
  }

  // ------------------------------------------------------------------- stages

  /** The name of a stage and the round its patch was captured for. */
  datatype Slot = Slot(id: StageId, origin: Option<string>)

  function Slots(reviews: seq<Entry>): seq<Slot> {
    seq(|reviews| + 1, i requires 0 <= i <= |reviews| =>
      Slot(if i == 0 then Initial else if i == |reviews| then Final else Revision(i),
           if i < |reviews| then Some(reviews[i].dir.name) else None))
  }

  /** Where a patch first occurs; the length when it does not. */
  function First(patches: seq<Patch>, p: Patch): (i: nat)
    ensures i <= |patches|
    ensures i < |patches| ==> patches[i] == p
    ensures forall h :: 0 <= h < i ==> patches[h] != p
  {
    if patches == [] || patches[0] == p then 0 else 1 + First(patches[1..], p)
  }

  /** What stage i says about the graded states: its parent, whether it moved, whom it repeats. */
  ghost predicate StageFits(s: Stage, i: nat, graded: seq<Patch>, slots: seq<Slot>)
    requires i < |graded| == |slots|
  {
    && s.id == slots[i].id && s.originRound == slots[i].origin && s.ordinal == i && s.patch == graded[i]
    && s.parent == (if i == 0 then None else Some(slots[i - 1].id))
    && (s.changed <==> i == 0 || graded[i] != graded[i - 1])
    && s.aliasOf == (var first := First(graded, graded[i]); if first < i then Some(slots[first].id) else None)
  }

  ghost predicate StagesFit(stages: seq<Stage>, graded: seq<Patch>, slots: seq<Slot>) {
    && |stages| == |graded| == |slots|
    && forall i :: 0 <= i < |stages| ==> StageFits(stages[i], i, graded, slots)
  }

  lemma {:induction false} FirstAppends(patches: seq<Patch>, added: Patch, p: Patch)
    ensures First(patches + [added], p) ==
            if First(patches, p) < |patches| then First(patches, p)
            else if p == added then |patches| else |patches| + 1
  {
    if patches == [] {
      assert [] + [added] == [added];
    } else {
      FirstAppends(patches[1..], added, p);
      assert (patches + [added])[1..] == patches[1..] + [added];
    }
  }

  predicate IsChanged(s: Stage) { s.changed }

  /** The stages flagged as changed after the first are exactly the steps that moved the patch. */
  lemma {:induction false} ChangedStagesAreChanges(stages: seq<Stage>, graded: seq<Patch>)
    requires 0 < |stages| == |graded|
    requires forall i :: 1 <= i < |stages| ==> (stages[i].changed <==> graded[i] != graded[i - 1])
    ensures |Filter(stages[1..], IsChanged)| == Changes(graded)
  {
    if |stages| > 1 {
      ChangedStagesAreChanges(stages[1..], graded[1..]);
    }
  }

  /** Everything an accepted trial set says about its trial. */
  ghost predicate Describes(set_: PatchSet, t: Trial)
    requires Acceptable(t)
  {
    var summary, rounds := t.summaryJson.value.value, RoundsOf(t);
    && set_.eligible == (summary.checkpoints != 0)
    && set_.outcome == summary.outcome && set_.degradedReason == summary.degradedReason
    && set_.reviewCount == summary.reviewCount.value && set_.revisionCount == summary.revisionCount.value
    && set_.noChangeRevision == summary.noChangeRevision
    && (!set_.eligible ==> set_.stages == [] && !set_.completedProtocol)
    && (set_.eligible ==>
          && (var reviews := Filter(rounds, IsReview);
              StagesFit(set_.stages, Graded(reviews, t.final.patch), Slots(reviews)))
          && (set_.completedProtocol <==>
                && summary.outcome in {"approved", "max_reviews_reached"}
                && (forall e :: e in rounds && (IsReview(e) || IsRevision(e)) ==> RoundSucceeded(e.dir))))
  }

  lemma {:induction false} FilterKeepsMembers<T>(xs: seq<T>, keep: T -> bool)
    ensures forall x :: x in Filter(xs, keep) <==> x in xs && keep(x)
  {
    if xs != [] {
      FilterKeepsMembers(xs[1..], keep);
      assert xs == [xs[0]] + xs[1..];
    }
  }

  lemma {:induction false} FilterAppends<T>(xs: seq<T>, x: T, keep: T -> bool)
    ensures Filter(xs + [x], keep) == Filter(xs, keep) + if keep(x) then [x] else []
  {
    if xs == [] {
      assert [] + [x] == [x];
    } else {
      FilterAppends(xs[1..], x, keep);
      assert (xs + [x])[1..] == xs[1..] + [x];
    }
  }

  function EntryOf(child: Child): seq<Entry> {
    var parsed := ParseRoundName(child.name);
    if child.isDir && parsed.Some? then [Entry(parsed.value.0, parsed.value.1, child)] else []
  }

  lemma EntriesUnfold(children: seq<Child>)
    ensures children == [] ==> Entries(children) == []
    ensures children != [] ==> Entries(children) == EntryOf(children[0]) + Entries(children[1..])
  {
    hide ParseRoundName;
  }

  lemma {:induction false} EntriesOfConcat(a: seq<Child>, b: seq<Child>)
    ensures Entries(a + b) == Entries(a) + Entries(b)
  {
    hide Entries, EntryOf;
    EntriesUnfold(a);
    if a == [] {
      assert a + b == b;
    } else {
      EntriesOfConcat(a[1..], b);
      assert (a + b)[1..] == a[1..] + b && (a + b)[0] == a[0];
      EntriesUnfold(a + b);
    }
  }

  lemma {:induction false} GradedAt(reviews: seq<Entry>, final: Patch)
    requires forall e :: e in reviews ==> e.dir.patch.Some?
    ensures |Graded(reviews, final)| == |reviews| + 1
    ensures Graded(reviews, final)[|reviews|] == final
    ensures forall i :: 0 <= i < |reviews| ==> Graded(reviews, final)[i] == reviews[i].dir.patch.value
  {
    if reviews != [] {
      GradedAt(reviews[1..], final);
    }
  }

  // ------------------------------------------------------------------ the reader

  /** List rounds/, rejecting names it does not know, and order the rounds by number. */
  method RoundEntries(listing: Option<seq<Child>>, before: seq<Reason>)
    returns (entries: seq<Entry>, reasons: seq<Reason>)
    ensures entries == if listing == None then [] else SortByNumber(Entries(listing.value))
    ensures reasons == [] <==> before == [] && RoundsReadable(listing)
  {
    hide ParseRoundName, SortByNumber;
    reasons := before;
    if listing == None {
      return [], reasons + [MissingRounds];
    }
    var children := listing.value;
    entries := [];
    for i := 0 to |children|
      invariant entries == Entries(children[..i])
      invariant reasons == [] <==>
                  before == [] && forall j :: 0 <= j < i && children[j].isDir ==>
                                    ParseRoundName(children[j].name).Some?
    {
      var child := children[i];
      assert children[..i + 1] == children[..i] + [child];
      EntriesOfConcat(children[..i], [child]);
      if !child.isDir {
        continue;
      }
      var parsed := ParseRoundName(child.name);
      if parsed == None {
        reasons := reasons + [UnrecognizedRound(child.name)];
        continue;
      }
      entries := entries + [Entry(parsed.value.0, parsed.value.1, child)];
    }
    assert children[..|children|] == children;
    entries := SortByNumber(entries);
    if entries != [] && (entries[0].number != 0 || entries[0].kind != Modify) {
      reasons := reasons + [BadFirstRound];
    }
  }

  /** Every review round needs a reviewer's metadata and a patch. */
  method CheckReviews(reviews: seq<Entry>, degraded: bool, last: int, before: seq<Reason>)
    returns (withPatch: seq<Entry>, reasons: seq<Reason>)
    ensures reasons == [] <==> before == [] && forall e :: e in reviews ==> ReviewFits(e, degraded, last)
    ensures reasons == [] ==> withPatch == reviews
    ensures forall e :: e in withPatch ==> HasPatch(e.dir)
  {
    reasons, withPatch := before, [];
    for i := 0 to |reviews|
      invariant reasons == [] <==>
                  before == [] && forall j :: 0 <= j < i ==> ReviewFits(reviews[j], degraded, last)
      invariant reasons == [] ==> withPatch == reviews[..i]
      invariant forall e :: e in withPatch ==> HasPatch(e.dir)
    {
      var e := reviews[i];
      if e.dir.metadata.NoMetadata? {
        if !degraded {
          reasons := reasons + [BareReviewInHealthyTrial(e.dir.name)];
        } else if e.number != last {
          reasons := reasons + [BareReviewNotLast(e.dir.name)];
        }
      } else if Role(e.dir) != Some("reviewer") {
        reasons := reasons + [UnexpectedRole(e.dir.name)];
      }
      if !HasPatch(e.dir) {
        reasons := reasons + [EmptyReviewPatch(e.dir.name)];
        continue;
      }
      withPatch := withPatch + [e];
    }
  }

  method CheckRevisionRoles(revisions: seq<Entry>, before: seq<Reason>) returns (reasons: seq<Reason>)
    ensures reasons == [] <==> before == [] && forall e :: e in revisions ==> RevisionFits(e)
  {
    reasons := before;
    for i := 0 to |revisions|
      invariant reasons == [] <==> before == [] && forall j :: 0 <= j < i ==> RevisionFits(revisions[j])
    {
      if Role(revisions[i].dir) != Some("modifier") {
        reasons := reasons + [UnexpectedRole(revisions[i].dir.name)];
      }
    }
  }

  /** The summary's counters against the rounds that exist. */
  method CrossValidate(summary: SummaryResult, rounds: seq<Entry>, reviewCount: int, revisionCount: int,
                       reviewPatches: nat, revisions: seq<Entry>, before: seq<Reason>)
    returns (reasons: seq<Reason>)
    ensures var interrupted := Filter(revisions, Interrupted);
            reasons == [] <==>
              && before == []
              && reviewCount <= reviewPatches <= reviewCount + 1
              && |Filter(revisions, Completed)| == revisionCount
              && |interrupted| <= 1
              && (|interrupted| == 1 ==> interrupted[0].number == MaxNumber(rounds))
              && IsDeliverable(summary.outcome)
  {
    reasons := before;
    if !(reviewCount <= reviewPatches <= reviewCount + 1) {
      reasons := reasons + [ReviewCountMismatch];
    }
    var completed, interrupted := Filter(revisions, Completed), Filter(revisions, Interrupted);
    if |completed| != revisionCount {
      reasons := reasons + [RevisionCountMismatch];
    }
    if interrupted != [] {
      if |interrupted| > 1 {
        reasons := reasons + [SeveralInterrupted];
      } else if interrupted[0].number != MaxNumber(rounds) {
        reasons := reasons + [InterruptedNotLast];
      }
    }
    if !IsDeliverable(summary.outcome) {
      reasons := reasons + [UnsupportedOutcome];
    }
  }

  /** The table points every patch seen so far to its first stage. */
  ghost predicate PointsToFirst(shaToStage: map<Patch, StageId>, graded: seq<Patch>, slots: seq<Slot>)
    requires |graded| == |slots|
  {
    && (forall p :: p in shaToStage <==> First(graded, p) < |graded|)
    && (forall p :: p in shaToStage ==> shaToStage[p] == slots[First(graded, p)].id)
  }

  lemma TableGrows(shaToStage: map<Patch, StageId>, graded: seq<Patch>, slots: seq<Slot>, patch: Patch, slot: Slot)
    requires |graded| == |slots| && PointsToFirst(shaToStage, graded, slots)
    ensures PointsToFirst(if patch in shaToStage then shaToStage else shaToStage[patch := slot.id],
                          graded + [patch], slots + [slot])
  {
    forall p
      ensures First(graded + [patch], p) == if First(graded, p) < |graded| then First(graded, p)
                                            else if p == patch then |graded| else |graded| + 1
    {
      FirstAppends(graded, patch, p);
    }
  }

  /** A stage built from the last one and the table fits behind the stages recorded so far. */
  lemma StagesGrow(stages: seq<Stage>, graded: seq<Patch>, slots: seq<Slot>,
                   shaToStage: map<Patch, StageId>, s: Stage, patch: Patch, slot: Slot)
    requires StagesFit(stages, graded, slots) && |graded| == |slots| && PointsToFirst(shaToStage, graded, slots)
    requires s.id == slot.id && s.originRound == slot.origin && s.patch == patch && s.ordinal == |stages|
    requires s.parent == if stages == [] then None else Some(stages[|stages| - 1].id)
    requires s.changed <==> stages == [] || patch != stages[|stages| - 1].patch
    requires s.aliasOf == if patch in shaToStage then Some(shaToStage[patch]) else None
    ensures StagesFit(stages + [s], graded + [patch], slots + [slot])
  {
    forall i | 0 <= i < |stages|
      ensures StageFits(stages[i], i, graded + [patch], slots + [slot])
    {
      assert StageFits(stages[i], i, graded, slots);
      FirstAppends(graded, patch, graded[i]);
    }
    FirstAppends(graded, patch, patch);
    assert StageFits(s, |stages|, graded + [patch], slots + [slot]);
  }

  /** The stages recorded so far, with the first stage that showed each patch. */
  class StageTable {
    var stages: seq<Stage>
    var shaToStage: map<Patch, StageId>
    ghost var graded: seq<Patch>
    ghost var slots: seq<Slot>

    ghost predicate Valid()
      reads this
    {
      StagesFit(stages, graded, slots) && |graded| == |slots| && PointsToFirst(shaToStage, graded, slots)
    }

    constructor ()
      ensures Valid() && stages == [] && graded == [] && slots == []
    {
      stages, shaToStage, graded, slots := [], map[], [], [];
    }

    method AddStage(id: StageId, patch: Patch, originRound: Option<string>)
      requires Valid()
      modifies this
      ensures Valid()
      ensures graded == old(graded) + [patch] && slots == old(slots) + [Slot(id, originRound)]
      ensures |stages| == |old(stages)| + 1 && stages[..|old(stages)|] == old(stages)
    {
      hide StagesFit, PointsToFirst;
      ghost var slot := Slot(id, originRound);
      var parent := if stages == [] then None else Some(stages[|stages| - 1].id);
      var changed := stages == [] || patch != stages[|stages| - 1].patch;
      var alias := if patch in shaToStage then Some(shaToStage[patch]) else None;
      var stage := Stage(id, parent, |stages|, patch, originRound, changed, alias);
      StagesGrow(stages, graded, slots, shaToStage, stage, patch, slot);
      TableGrows(shaToStage, graded, slots, patch, slot);
      stages := stages + [stage];
      if patch !in shaToStage {
        shaToStage := shaToStage[patch := id];
      }
      graded, slots := graded + [patch], slots + [slot];
    }
  }

  /** First review patch, later review patches, final patch. */
  method MapStages(reviews: seq<Entry>, final: Patch) returns (stages: seq<Stage>)
    requires reviews != [] && forall e :: e in reviews ==> e.dir.patch.Some?
    ensures StagesFit(stages, Graded(reviews, final), Slots(reviews))
  {
    hide StagesFit, PointsToFirst, Graded;
    GradedAt(reviews, final);
    ghost var graded, slots := Graded(reviews, final), Slots(reviews);
    var table := new StageTable();
    table.AddStage(Initial, reviews[0].dir.patch.value, Some(reviews[0].dir.name));
    for index := 1 to |reviews|
      invariant table.Valid()
      invariant table.graded == graded[..index] && table.slots == slots[..index]
    {
      table.AddStage(Revision(index), reviews[index].dir.patch.value, Some(reviews[index].dir.name));
    }
    table.AddStage(Final, final, None);
    assert table.graded == graded && table.slots == slots;
    stages := table.stages;
  }

  method AllSucceeded(entries: seq<Entry>) returns (all: bool)
    ensures all <==> forall e :: e in entries ==> RoundSucceeded(e.dir)
  {
    all := forall i | 0 <= i < |entries| :: RoundSucceeded(entries[i].dir);
  }

  /** The envelope checks that do not look at the rounds. */
  method CheckEnvelope(config: TrialConfig, checksum: string, summary: SummaryResult)
    returns (reasons: seq<Reason>)
    ensures reasons == [] <==>
              && config.topology == "collab" && config.taskDirAvailable && checksum != ""
              && summary.baseCommit != ""
              && summary.reviewCount.Some? && summary.revisionCount.Some?
  {
    reasons := [];
    if config.topology != "collab" { reasons := reasons + [NotCollab]; }
    if !config.taskDirAvailable { reasons := reasons + [NoTaskDir]; }
    if checksum == "" { reasons := reasons + [NoChecksum]; }
    if summary.baseCommit == "" { reasons := reasons + [NoBaseCommit]; }
    if summary.reviewCount == None || summary.revisionCount == None { reasons := reasons + [NoCounts]; }
  }

  /** Everything that must hold of the rounds before stages are named. */
  method JudgeRounds(t: Trial, rounds: seq<Entry>, before: seq<Reason>)
    returns (reviews: seq<Entry>, reasons: seq<Reason>)
    requires Judgeable(t) && rounds == RoundsOf(t)
    requires before == [] <==> EnvelopeFits(t)
    ensures reasons == [] <==> EnvelopeFits(t) && RoundsMatch(t)
    ensures reasons == [] ==> reviews == Filter(rounds, IsReview)
  {
    var summary := t.summaryJson.value.value;
    var revisions := Filter(rounds, IsRevision);
    reviews, reasons := Filter(rounds, IsReview), before;
    if reviews == [] { reasons := reasons + [NoReviewRounds]; }
    if !t.final.File? { reasons := reasons + [MissingFinal]; }
    if !t.model.File? { reasons := reasons + [MissingModel]; }
    if reasons != [] {
      return;
    }
    reviews, reasons := CheckReviews(reviews, summary.degradedReason.Some?, MaxNumber(rounds), reasons);
    reasons := CheckRevisionRoles(revisions, reasons);
    reasons := CrossValidate(summary, rounds, summary.reviewCount.value, summary.revisionCount.value,
                             |reviews|, revisions, reasons);
    if t.final.patch != t.model.patch { reasons := reasons + [FinalIsNotModel]; }
    if t.final.patch == EMPTY_PATCH { reasons := reasons + [FinalIsEmpty]; }
  }

  /** Judge a trial whose summary records a checkpoint. */
  method DiscoverStages(t: Trial, rounds: seq<Entry>, before: seq<Reason>) returns (d: Discovered)
    requires Judgeable(t) && rounds == RoundsOf(t)
    requires before == [] <==> EnvelopeFits(t)
    requires t.summaryJson.value.value.checkpoints != 0
    ensures d.Accepted? <==> Acceptable(t)
    ensures d.Accepted? ==> Describes(d.set_, t)
    ensures d.LayoutError? ==> d.reasons != []
  {
    var summary := t.summaryJson.value.value;
    var reviews, reasons := JudgeRounds(t, rounds, before);
    if reasons != [] {
      return LayoutError(reasons);
    }
    var stages := MapStages(reviews, t.final.patch);
    ChangedStagesAreChanges(stages, Graded(reviews, t.final.patch));
    if |Filter(stages[1..], IsChanged)| > summary.revisionCount.value {
      return LayoutError([TooManyChangedStages]);
    }
    var reviewsDone := AllSucceeded(reviews);
    var revisionsDone := AllSucceeded(Filter(rounds, IsRevision));
    FilterKeepsMembers(rounds, IsReview);
    FilterKeepsMembers(rounds, IsRevision);
    var completed := summary.outcome in {"approved", "max_reviews_reached"} && reviewsDone && revisionsDone;
    d := Accepted(PatchSet(true, completed, summary.outcome, summary.degradedReason,
                           summary.reviewCount.value, summary.revisionCount.value,
                           summary.noChangeRevision, stages));
  }

  /** Validate one trial directory and name its stages, or list what does not fit. */
  method DiscoverTrialPatches(t: Trial) returns (d: Discovered)
    ensures d.Accepted? <==> Acceptable(t)
    ensures d.Accepted? ==> Describes(d.set_, t)
    ensures d.LayoutError? ==> d.reasons != []
  {
    if !t.resultJson.Parsed? || !t.summaryJson.Parsed? {
      return LayoutError([MissingJson]);
    }
    if t.resultJson.value.config == None {
      return LayoutError([NoConfig]);
    }
    if t.summaryJson.value == None {
      return LayoutError([NoSummaryResult]);
    }
    var summary := t.summaryJson.value.value;
    var reasons := CheckEnvelope(t.resultJson.value.config.value, t.resultJson.value.taskChecksum, summary);
    var rounds;
    rounds, reasons := RoundEntries(t.children, reasons);
    if t.final == Escapes { reasons := reasons + [PathEscapes]; }
    if t.model == Escapes { reasons := reasons + [PathEscapes]; }
    if summary.checkpoints != 0 {
      d := DiscoverStages(t, rounds, reasons);
      return;
    }
    if Filter(rounds, IsReview) != [] || Filter(rounds, IsRevision) != [] {
      reasons := reasons + [RoundsWithoutCheckpoint];
    }
    if !IsEmpty(t.final) || !IsEmpty(t.model) {
      reasons := reasons + [PatchWithoutCheckpoint];
    }
    if reasons != [] {
      return LayoutError(reasons);
    }
    d := Accepted(PatchSet(false, false, summary.outcome, summary.degradedReason,
                           summary.reviewCount.value, summary.revisionCount.value,
                           summary.noChangeRevision, []));
  }
}
