/** The greedy sample of benchmark tasks that spreads over repositories and respects the quotas. */
module Sampling {
  import Q = Quotas
  import opened Sums

  datatype Candidate = Candidate(
    taskId: string, repository: string, language: string, difficulty: string, patchSize: string, rankScore: real)

  datatype Quotas = Quotas(language: Q.Counts, difficulty: Q.Counts, patchSize: Q.Counts)

  /** The random number drawn for each task. */
  type Jitter = map<string, real>

  datatype SampleResult = Sampled(rows: seq<Candidate>) | TooFewCandidates

  function RepositoryOf(c: Candidate): string { c.repository }
  function LanguageOf(c: Candidate): string { c.language }
  function DifficultyOf(c: Candidate): string { c.difficulty }
  function PatchSizeOf(c: Candidate): string { c.patchSize }

  function Column(rows: seq<Candidate>, field: Candidate -> string): (column: seq<string>)
    ensures |column| == |rows|
  {
    seq(|rows|, i requires 0 <= i < |rows| => field(rows[i]))
  }

  /** How many rows carry a value. */
  function Uses(rows: seq<Candidate>, field: Candidate -> string, value: string): nat {
    if rows == [] then 0
    else Uses(rows[..|rows| - 1], field, value) + if field(rows[|rows| - 1]) == value then 1 else 0
  }

  lemma {:induction false} UsedIffPresent(rows: seq<Candidate>, field: Candidate -> string, value: string)
    ensures Uses(rows, field, value) > 0 <==> exists r :: r in rows && field(r) == value
  {
    if rows != [] {
      var n := |rows| - 1;
      UsedIffPresent(rows[..n], field, value);
      assert rows == rows[..n] + [rows[n]];
    }
  }

  // ------------------------------------------------------------------ ranking a row

  /** The sort key of a row: quota deficit first, then rank, then the random draw, then the task id. */
  datatype Key = Key(bonus: real, rank: real, jitter: real, taskId: string)

  predicate KeyLess(a: Key, b: Key) {
    a.bonus < b.bonus || (a.bonus == b.bonus &&
      (a.rank < b.rank || (a.rank == b.rank &&
        (a.jitter < b.jitter || (a.jitter == b.jitter && Q.Less(a.taskId, b.taskId))))))
  }

  lemma KeyLessIsOrder(a: Key, b: Key, c: Key)
    ensures !KeyLess(a, a)
    ensures a.taskId != b.taskId ==> KeyLess(a, b) || KeyLess(b, a)
    ensures !KeyLess(a, b) && !KeyLess(b, c) ==> !KeyLess(a, c)
  {
    hide Q.Less;
    Q.LessIsTotal(a.taskId, a.taskId);
    Q.LessIsTotal(a.taskId, b.taskId);
    Q.LessIsTotal(b.taskId, c.taskId);
    if Q.Less(a.taskId, c.taskId) && Q.Less(c.taskId, b.taskId) {
      Q.LessIsTransitive(a.taskId, c.taskId, b.taskId);
    }
    if Q.Less(b.taskId, a.taskId) && Q.Less(a.taskId, c.taskId) {
      Q.LessIsTransitive(b.taskId, a.taskId, c.taskId);
    }
  }

  /** The quotas and the draws know the row. */
  predicate Ranked(row: Candidate, quotas: Quotas, jitter: Jitter) {
    && row.language in quotas.language && row.difficulty in quotas.difficulty && row.patchSize in quotas.patchSize
    && row.taskId in jitter
  }

  function DeficitBonus(selected: seq<Candidate>, row: Candidate, quotas: Quotas, jitter: Jitter): real
    requires Ranked(row, quotas, jitter)
  {
    (if Uses(selected, LanguageOf, row.language) < quotas.language[row.language] then 1.5 else 0.0)
    + (if Uses(selected, DifficultyOf, row.difficulty) < quotas.difficulty[row.difficulty] then 1.0 else 0.0)
    + (if Uses(selected, PatchSizeOf, row.patchSize) < quotas.patchSize[row.patchSize] then 0.75 else 0.0)
  }

  function KeyOf(selected: seq<Candidate>, row: Candidate, quotas: Quotas, jitter: Jitter): Key
    requires Ranked(row, quotas, jitter)
  {
    Key(DeficitBonus(selected, row, quotas, jitter), row.rankScore, jitter[row.taskId], row.taskId)
  }

  // ------------------------------------------------------------------ a greedy run

  function Rest(candidates: seq<Candidate>, selected: seq<Candidate>): set<Candidate> {
    set r | r in candidates && r !in selected
  }

  /** One pick per repository while a remaining row's repository is unused, two after that. */
  function RepositoryLimit(selected: seq<Candidate>, rest: set<Candidate>): nat {
    if exists r :: r in rest && Uses(selected, RepositoryOf, r.repository) == 0 then 1 else 2
  }

  predicate UnderLimit(selected: seq<Candidate>, rest: set<Candidate>, row: Candidate) {
    Uses(selected, RepositoryOf, row.repository) < RepositoryLimit(selected, rest)
  }

  /** Under the limit, or anything that remains when nothing is. */
  predicate Eligible(selected: seq<Candidate>, rest: set<Candidate>, row: Candidate) {
    row in rest && (UnderLimit(selected, rest, row) || forall r :: r in rest ==> !UnderLimit(selected, rest, r))
  }

  predicate AllRanked(rows: set<Candidate>, quotas: Quotas, jitter: Jitter) {
    forall r :: r in rows ==> Ranked(r, quotas, jitter)
  }

  /** An eligible row that no eligible row beats. */
  ghost predicate GoodPick(selected: seq<Candidate>, rest: set<Candidate>, quotas: Quotas, jitter: Jitter, pick: Candidate)
    requires AllRanked(rest, quotas, jitter)
  {
    && Eligible(selected, rest, pick)
    && forall r :: Eligible(selected, rest, r) ==>
         !KeyLess(KeyOf(selected, pick, quotas, jitter), KeyOf(selected, r, quotas, jitter))
  }

  ghost predicate Greedy(selected: seq<Candidate>, candidates: seq<Candidate>, quotas: Quotas, jitter: Jitter) {
    && AllRanked(Rest(candidates, []), quotas, jitter)
    && forall i :: 0 <= i < |selected| ==> PickedAt(selected, candidates, quotas, jitter, i)
  }

  ghost predicate PickedAt(selected: seq<Candidate>, candidates: seq<Candidate>, quotas: Quotas, jitter: Jitter, i: nat)
    requires i < |selected| && AllRanked(Rest(candidates, []), quotas, jitter)
  {
    GoodPick(selected[..i], Rest(candidates, selected[..i]), quotas, jitter, selected[i])
  }

  ghost predicate DistinctTasks(candidates: seq<Candidate>) {
    forall i, j :: 0 <= i < j < |candidates| ==> candidates[i].taskId != candidates[j].taskId
  }

  // --------------------------------------------------------------------- the method

  ghost predicate QuotasFit(quotas: Quotas, candidates: seq<Candidate>, size: nat) {
    && QuotaFits(quotas.language, candidates, LanguageOf, size)
    && QuotaFits(quotas.difficulty, candidates, DifficultyOf, size)
    && QuotaFits(quotas.patchSize, candidates, PatchSizeOf, size)
  }

  ghost predicate QuotaFits(quota: Q.Counts, candidates: seq<Candidate>, field: Candidate -> string, size: nat) {
    exists counts :: Q.IsTally(counts, Column(candidates, field)) && Q.IsLargestRemainder(quota, counts, size)
  }

  method QuotaFor(candidates: seq<Candidate>, field: Candidate -> string, size: nat) returns (quota: Q.Counts)
    requires candidates != [] && size > 0
    ensures QuotaFits(quota, candidates, field, size)
    ensures forall r :: r in candidates ==> field(r) in quota
  {
    hide Q.Sum, Q.Before, Q.FloorShare, Q.Bonus;
    var counts := Q.Tally(Column(candidates, field));
    quota := Q.AllocateQuotas(counts, size);
    forall r | r in candidates ensures field(r) in quota {
      var i :| 0 <= i < |candidates| && candidates[i] == r;
      assert Column(candidates, field)[i] == field(r);
    }
  }

  /** A quota never asks for more rows of a value than there are candidates with it. */
  lemma QuotasAreWithinReach(quota: Q.Counts, candidates: seq<Candidate>, field: Candidate -> string, size: nat, v: string)
    requires QuotaFits(quota, candidates, field, size) && size <= |candidates| && v in quota
    ensures quota[v] <= multiset(Column(candidates, field))[v]
  {
    hide Q.Sum;
    var counts :| Q.IsTally(counts, Column(candidates, field)) && Q.IsLargestRemainder(quota, counts, size);
    Q.QuotasAreFair(quota, counts, size, v);
  }

  method AnyUnused(selected: seq<Candidate>, remaining: seq<Candidate>) returns (any: bool)
    ensures any <==> exists r :: r in remaining && Uses(selected, RepositoryOf, r.repository) == 0
  {
    any := false;
    for i := 0 to |remaining|
      invariant !any && forall j :: 0 <= j < i ==> Uses(selected, RepositoryOf, remaining[j].repository) != 0
    {
      if Uses(selected, RepositoryOf, remaining[i].repository) == 0 {
        return true;
      }
    }
  }

  method EligibleRows(selected: seq<Candidate>, remaining: seq<Candidate>) returns (eligible: seq<Candidate>)
    requires remaining != []
    ensures eligible != []
    ensures forall r :: r in eligible <==> Eligible(selected, (set c | c in remaining), r)
  {
    hide Uses;
    ghost var rest := set c | c in remaining;
    var unused := AnyUnused(selected, remaining);
    var limit := if unused then 1 else 2;
    assert limit == RepositoryLimit(selected, rest);
    eligible := [];
    for i := 0 to |remaining|
      invariant forall r :: r in eligible <==> r in remaining[..i] && UnderLimit(selected, rest, r)
    {
      assert remaining[..i + 1] == remaining[..i] + [remaining[i]];
      if Uses(selected, RepositoryOf, remaining[i].repository) < limit {
        eligible := eligible + [remaining[i]];
      }
    }
    assert remaining[..|remaining|] == remaining;
    assert forall r :: r in rest <==> r in remaining;
    if eligible == [] {
      eligible := remaining;
    } else {
      assert eligible[0] in rest && UnderLimit(selected, rest, eligible[0]);
    }
  }

  /** `max(rows, key=…)` */
  method Best(selected: seq<Candidate>, rows: seq<Candidate>, quotas: Quotas, jitter: Jitter) returns (best: Candidate)
    requires rows != [] && forall r :: r in rows ==> Ranked(r, quotas, jitter)
    ensures best in rows
    ensures forall r :: r in rows ==> !KeyLess(KeyOf(selected, best, quotas, jitter), KeyOf(selected, r, quotas, jitter))
  {
    hide KeyLess, DeficitBonus;
    best := rows[0];
    for i := 0 to |rows|
      invariant best in rows
      invariant forall j :: 0 <= j < i ==>
                  !KeyLess(KeyOf(selected, best, quotas, jitter), KeyOf(selected, rows[j], quotas, jitter))
    {
      var bestKey, key := KeyOf(selected, best, quotas, jitter), KeyOf(selected, rows[i], quotas, jitter);
      KeyLessIsOrder(key, key, key);
      if KeyLess(bestKey, key) {
        forall j | 0 <= j < i ensures !KeyLess(key, KeyOf(selected, rows[j], quotas, jitter)) {
          LessIsAsymmetric(bestKey, key);
          KeyLessIsOrder(key, bestKey, KeyOf(selected, rows[j], quotas, jitter));
        }
        best := rows[i];
      }
    }
  }

  lemma LessIsAsymmetric(a: Key, b: Key)
    requires KeyLess(a, b)
    ensures !KeyLess(b, a)
  {
    Q.LessIsTotal(a.taskId, b.taskId);
  }

  /** `remaining.remove(chosen)` */
  method Remove(rows: seq<Candidate>, chosen: Candidate) returns (rest: seq<Candidate>)
    requires chosen in rows && DistinctTasks(rows)
    ensures forall r :: r in rest <==> r in rows && r != chosen
    ensures |rest| == |rows| - 1 && DistinctTasks(rest)
  {
    var i := 0;
    while rows[i] != chosen
      invariant i < |rows| && chosen in rows[i..]
      decreases |rows| - i
    {
      i := i + 1;
    }
    rest := rows[..i] + rows[i + 1..];
    forall r ensures r in rest <==> r in rows && r != chosen {
      if r in rows && r != chosen {
        var j :| 0 <= j < |rows| && rows[j] == r;
        assert rest[if j < i then j else j - 1] == r;
      }
    }
  }

  /** `balanced_sample`; the random draws are a parameter. */
  method BalancedSample(candidates: seq<Candidate>, size: int, jitter: Jitter)
    returns (result: SampleResult, ghost quotas: Quotas)
    requires DistinctTasks(candidates)
    requires forall r :: r in candidates ==> r.taskId in jitter
    ensures size <= 0 ==> result == Sampled([])
    ensures 0 < size && |candidates| < size ==> result == TooFewCandidates
    ensures 0 < size <= |candidates| ==>
              && result.Sampled? && |result.rows| == size
              && QuotasFit(quotas, candidates, size) && Greedy(result.rows, candidates, quotas, jitter)
  {
    hide QuotaFits, GoodPick, Eligible, Ranked;
    quotas := Quotas(map[], map[], map[]);
    if size <= 0 {
      return Sampled([]), quotas;
    }
    if |candidates| < size {
      return TooFewCandidates, quotas;
    }
    var language := QuotaFor(candidates, LanguageOf, size);
    var difficulty := QuotaFor(candidates, DifficultyOf, size);
    var patchSize := QuotaFor(candidates, PatchSizeOf, size);
    var allQuotas := Quotas(language, difficulty, patchSize);
    quotas := allQuotas;
    AllAreRanked(candidates, allQuotas, jitter);
    var rows := PickAll(candidates, size, allQuotas, jitter);
    result := Sampled(rows);
  }

  lemma AllAreRanked(candidates: seq<Candidate>, quotas: Quotas, jitter: Jitter)
    requires forall r :: r in candidates ==>
               && LanguageOf(r) in quotas.language && DifficultyOf(r) in quotas.difficulty
               && PatchSizeOf(r) in quotas.patchSize && r.taskId in jitter
    ensures AllRanked(Rest(candidates, []), quotas, jitter)
  {
  }

  method PickAll(candidates: seq<Candidate>, size: nat, quotas: Quotas, jitter: Jitter) returns (selected: seq<Candidate>)
    requires DistinctTasks(candidates) && size <= |candidates|
    requires AllRanked(Rest(candidates, []), quotas, jitter)
    ensures |selected| == size && Greedy(selected, candidates, quotas, jitter)
  {
    hide Eligible, Ranked, KeyLess, KeyOf;
    selected := [];
    var remaining := candidates;
    while |selected| < size
      invariant |selected| <= size && |remaining| + |selected| == |candidates|
      invariant DistinctTasks(remaining)
      invariant forall r :: r in remaining <==> r in candidates && r !in selected
      invariant Greedy(selected, candidates, quotas, jitter)
    {
      ghost var rest := Rest(candidates, selected);
      assert rest == set c | c in remaining;
      var eligible := EligibleRows(selected, remaining);
      assert forall r :: r in eligible ==> r in remaining by { EligibleRemain(selected, rest); }
      assert forall r :: r in remaining ==> r in Rest(candidates, []);
      var chosen := Best(selected, eligible, quotas, jitter);
      GreedyGrows(selected, candidates, quotas, jitter, chosen);
      selected := selected + [chosen];
      remaining := Remove(remaining, chosen);
    }
  }

  lemma EligibleRemain(selected: seq<Candidate>, rest: set<Candidate>)
    ensures forall r :: Eligible(selected, rest, r) ==> r in rest
  {
  }

  lemma GreedyGrows(selected: seq<Candidate>, candidates: seq<Candidate>, quotas: Quotas, jitter: Jitter, pick: Candidate)
    requires Greedy(selected, candidates, quotas, jitter)
    requires AllRanked(Rest(candidates, selected), quotas, jitter)
    requires GoodPick(selected, Rest(candidates, selected), quotas, jitter, pick)
    ensures Greedy(selected + [pick], candidates, quotas, jitter)
  {
    hide GoodPick, Ranked;
    var longer := selected + [pick];
    forall i | 0 <= i < |longer| ensures PickedAt(longer, candidates, quotas, jitter, i) {
      assert longer[..i] == selected[..i];
      if i < |selected| {
        assert PickedAt(selected, candidates, quotas, jitter, i);
      } else {
        assert selected[..i] == selected;
      }
    }
  }

  // ------------------------------------------------------------- what a greedy run gives

  function Repositories(rows: seq<Candidate>): set<string> { set r | r in rows :: r.repository }

  lemma PicksRemain(selected: seq<Candidate>, candidates: seq<Candidate>, quotas: Quotas, jitter: Jitter, i: nat)
    requires Greedy(selected, candidates, quotas, jitter) && i < |selected|
    ensures Eligible(selected[..i], Rest(candidates, selected[..i]), selected[i])
    ensures selected[i] in candidates && selected[i] !in selected[..i]
  {
    assert PickedAt(selected, candidates, quotas, jitter, i);
  }

  /** No row is picked twice and every pick is a candidate. */
  lemma PicksAreDistinct(selected: seq<Candidate>, candidates: seq<Candidate>, quotas: Quotas, jitter: Jitter)
    requires Greedy(selected, candidates, quotas, jitter)
    ensures forall i :: 0 <= i < |selected| ==> selected[i] in candidates
    ensures forall i, j :: 0 <= i < j < |selected| ==> selected[i] != selected[j]
  {
    hide Eligible, PickedAt;
    forall j | 0 <= j < |selected|
      ensures selected[j] in candidates && forall i :: 0 <= i < j ==> selected[i] != selected[j]
    {
      PicksRemain(selected, candidates, quotas, jitter, j);
      assert forall i :: 0 <= i < j ==> selected[i] == selected[..j][i];
    }
  }

  lemma {:induction false} CoverageAfter(selected: seq<Candidate>, candidates: seq<Candidate>, quotas: Quotas,
                                         jitter: Jitter, i: nat)
    requires Greedy(selected, candidates, quotas, jitter) && i <= |selected|
    ensures Repositories(selected[..i]) <= Repositories(candidates)
    ensures |Repositories(selected[..i])| == Min(i, |Repositories(candidates)|)
  {
    hide PickedAt, AllRanked;
    if i == 0 {
      assert Repositories(selected[..0]) == {};
    } else {
      var before, pick := selected[..i - 1], selected[i - 1];
      CoverageAfter(selected, candidates, quotas, jitter, i - 1);
      PicksRemain(selected, candidates, quotas, jitter, i - 1);
      assert selected[..i] == before + [pick];
      assert Repositories(selected[..i]) == Repositories(before) + {pick.repository};
      StepCoverage(before, candidates, pick);
      Q.SubsetSize(Repositories(before), Repositories(candidates));
    }
  }

  /** A pick opens a new repository unless every candidate's repository is already in use. */
  lemma StepCoverage(before: seq<Candidate>, candidates: seq<Candidate>, pick: Candidate)
    requires Eligible(before, Rest(candidates, before), pick)
    requires Repositories(before) <= Repositories(candidates)
    ensures pick.repository !in Repositories(before) || Repositories(before) == Repositories(candidates)
    ensures pick.repository in Repositories(candidates)
  {
    hide Uses;
    var rest := Rest(candidates, before);
    UsedIffPresent(before, RepositoryOf, pick.repository);
    if pick.repository in Repositories(before) {
      assert Uses(before, RepositoryOf, pick.repository) > 0 by {
        var r :| r in before && r.repository == pick.repository;
        assert RepositoryOf(r) == pick.repository;
      }
      forall r | r in candidates ensures r.repository in Repositories(before) {
        if r in rest {
          UsedIffPresent(before, RepositoryOf, r.repository);
        }
      }
    }
  }

  /** The sample covers as many repositories as a sample of its size can. */
  lemma SampleCoversRepositories(selected: seq<Candidate>, candidates: seq<Candidate>, quotas: Quotas, jitter: Jitter)
    requires Greedy(selected, candidates, quotas, jitter)
    ensures |Repositories(selected)| == Min(|selected|, |Repositories(candidates)|)
  {
    CoverageAfter(selected, candidates, quotas, jitter, |selected|);
    assert selected[..|selected|] == selected;
  }

  lemma {:induction false} UsesGrow(rows: seq<Candidate>, i: nat, value: string)
    requires i <= |rows|
    ensures Uses(rows[..i], RepositoryOf, value) <= Uses(rows, RepositoryOf, value)
    decreases |rows|
  {
    if i == |rows| {
      assert rows[..i] == rows;
    } else {
      UsesGrow(rows[..|rows| - 1], i, value);
      assert rows[..|rows| - 1][..i] == rows[..i];
    }
  }

  lemma {:induction false} ThirdPickExists(rows: seq<Candidate>, repository: string)
    requires Uses(rows, RepositoryOf, repository) >= 3
    ensures exists i :: 0 <= i < |rows| && rows[i].repository == repository && Uses(rows[..i], RepositoryOf, repository) >= 2
    decreases |rows|
  {
    var n := |rows| - 1;
    if rows[n].repository != repository {
      ThirdPickExists(rows[..n], repository);
      var i :| 0 <= i < n && rows[..n][i].repository == repository && Uses(rows[..n][..i], RepositoryOf, repository) >= 2;
      assert rows[..n][..i] == rows[..i];
    }
  }

  /**
   * A repository gets a third pick only once every row left out belongs to a repository that already
   * has two.
   */
  lemma ThirdPicksComeLast(selected: seq<Candidate>, candidates: seq<Candidate>, quotas: Quotas, jitter: Jitter,
                           repository: string, left: Candidate)
    requires Greedy(selected, candidates, quotas, jitter)
    requires Uses(selected, RepositoryOf, repository) >= 3
    requires left in candidates && left !in selected
    ensures Uses(selected, RepositoryOf, left.repository) >= 2
  {
    hide Uses, PickedAt, AllRanked;
    ThirdPickExists(selected, repository);
    var i :| 0 <= i < |selected| && selected[i].repository == repository
             && Uses(selected[..i], RepositoryOf, repository) >= 2;
    PicksRemain(selected, candidates, quotas, jitter, i);
    var rest := Rest(candidates, selected[..i]);
    assert left in rest;
    assert !UnderLimit(selected[..i], rest, selected[i]);
    assert !UnderLimit(selected[..i], rest, left);
    UsesGrow(selected, i, left.repository);
    forall r | r in rest ensures Uses(selected[..i], RepositoryOf, r.repository) > 0 {
      assert !UnderLimit(selected[..i], rest, r);
    }
  }

  lemma SameTask(candidates: seq<Candidate>, a: Candidate, b: Candidate)
    requires DistinctTasks(candidates) && a in candidates && b in candidates && a.taskId == b.taskId
    ensures a == b
  {
  }

  /** With the draws fixed the sample is determined. */
  lemma {:induction false} SampleIsDetermined(a: seq<Candidate>, b: seq<Candidate>, candidates: seq<Candidate>,
                                              quotas: Quotas, jitter: Jitter)
    requires DistinctTasks(candidates) && |a| == |b|
    requires Greedy(a, candidates, quotas, jitter) && Greedy(b, candidates, quotas, jitter)
    ensures a == b
    decreases |a|
  {
    hide Eligible, KeyLess, DeficitBonus, Ranked;
    if a != [] {
      var n := |a| - 1;
      ShorterIsGreedy(a, candidates, quotas, jitter);
      ShorterIsGreedy(b, candidates, quotas, jitter);
      SampleIsDetermined(a[..n], b[..n], candidates, quotas, jitter);
      PicksRemain(a, candidates, quotas, jitter, n);
      PicksRemain(b, candidates, quotas, jitter, n);
      assert PickedAt(a, candidates, quotas, jitter, n) && PickedAt(b, candidates, quotas, jitter, n);
      var ka, kb := KeyOf(a[..n], a[n], quotas, jitter), KeyOf(a[..n], b[n], quotas, jitter);
      KeyLessIsOrder(ka, kb, ka);
      SameKeyTask(candidates, a[n], b[n], ka, kb);
      assert a == a[..n] + [a[n]] && b == b[..n] + [b[n]];
    }
  }

  lemma SameKeyTask(candidates: seq<Candidate>, a: Candidate, b: Candidate, ka: Key, kb: Key)
    requires DistinctTasks(candidates) && a in candidates && b in candidates
    requires ka.taskId == a.taskId && kb.taskId == b.taskId && ka.taskId == kb.taskId
    ensures a == b
  {
    SameTask(candidates, a, b);
  }

  lemma ShorterIsGreedy(selected: seq<Candidate>, candidates: seq<Candidate>, quotas: Quotas, jitter: Jitter)
    requires Greedy(selected, candidates, quotas, jitter) && selected != []
    ensures Greedy(selected[..|selected| - 1], candidates, quotas, jitter)
  {
    hide GoodPick, Ranked;
    var shorter := selected[..|selected| - 1];
    forall i | 0 <= i < |shorter| ensures PickedAt(shorter, candidates, quotas, jitter, i) {
      assert PickedAt(selected, candidates, quotas, jitter, i);
      assert shorter[..i] == selected[..i];
    }
  }
}
