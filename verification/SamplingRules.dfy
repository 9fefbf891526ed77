/** What a pick of the sample has over the rows it leaves, counted over the rows picked before. */
module SamplingRules {
  import Q = Quotas
  import opened Sums
  import opened Sampling

  // ----------------------------------------------------------------------- string order

  /** At the first place where they differ `a` has the smaller character, or `a` ends there. */
  ghost predicate ComesBefore(a: string, b: string) {
    exists n: nat :: n < |b| && n <= |a| && a[..n] == b[..n] && (n == |a| || a[n] < b[n])
  }

  lemma {:induction false} LessMeans(a: string, b: string)
    ensures Q.Less(a, b) <==> ComesBefore(a, b)
    decreases |a|
  {
    if a != "" && b != "" && a[0] == b[0] {
      LessMeans(a[1..], b[1..]);
      if ComesBefore(a[1..], b[1..]) {
        var n: nat :| n < |b[1..]| && n <= |a[1..]| && a[1..][..n] == b[1..][..n] && (n == |a[1..]| || a[1..][n] < b[1..][n]);
        assert a[..n + 1] == [a[0]] + a[1..][..n] && b[..n + 1] == [b[0]] + b[1..][..n];
        assert n + 1 < |b| && n + 1 <= |a| && a[..n + 1] == b[..n + 1] && (n + 1 == |a| || a[n + 1] < b[n + 1]);
      }
      if ComesBefore(a, b) {
        var n: nat :| n < |b| && n <= |a| && a[..n] == b[..n] && (n == |a| || a[n] < b[n]);
        assert a[1..][..n - 1] == a[..n][1..] && b[1..][..n - 1] == b[..n][1..];
        assert n - 1 < |b[1..]| && a[1..][..n - 1] == b[1..][..n - 1];
      }
    } else if a == "" && b != "" {
      assert a[..0] == b[..0];
    } else if a != "" && b != "" {
      assert a[..0] == b[..0];
      forall n: nat | n <= |a| && n <= |b| && a[..n] == b[..n] ensures n == 0 {
        if n > 0 {
          FirstsAgree(a, b, n);
        }
      }
    }
  }

  lemma FirstsAgree(a: string, b: string, n: nat)
    requires 0 < n <= |a| && n <= |b| && a[..n] == b[..n]
    ensures a[0] == b[0]
  {
    assert a[0] == a[..n][0] && b[0] == b[..n][0];
  }

  // -------------------------------------------------------------------------- the bonus

  /** How many picks carry a value. */
  ghost function Carriers(rows: seq<Candidate>, field: Candidate -> string, value: string): nat {
    |set i: nat | i < |rows| && field(rows[i]) == value|
  }

  lemma OneMoreCarrier(rows: seq<Candidate>, row: Candidate, field: Candidate -> string, value: string)
    ensures Carriers(rows + [row], field, value) == Carriers(rows, field, value) + if field(row) == value then 1 else 0
  {
    var longer := rows + [row];
    var all, earlier := set i: nat | i < |longer| && field(longer[i]) == value, set i: nat | i < |rows| && field(rows[i]) == value;
    assert |rows| !in earlier;
    assert all == if field(row) == value then earlier + {|rows|} else earlier;
  }

  lemma NoCarrier(field: Candidate -> string, value: string)
    ensures Carriers([], field, value) == 0
  {
  }

  lemma {:induction false} UsesAreCounted(rows: seq<Candidate>, field: Candidate -> string, value: string)
    ensures Uses(rows, field, value) == Carriers(rows, field, value)
  {
    hide Carriers;
    if rows == [] {
      NoCarrier(field, value);
    } else {
      var n := |rows| - 1;
      UsesAreCounted(rows[..n], field, value);
      assert rows == rows[..n] + [rows[n]];
      OneMoreCarrier(rows[..n], rows[n], field, value);
    }
  }

  /** A row's value in a column is still below its quota. */
  ghost predicate IsShort(selected: seq<Candidate>, row: Candidate, field: Candidate -> string, quota: Q.Counts) {
    field(row) in quota && Carriers(selected, field, field(row)) < quota[field(row)]
  }

  ghost function Weight(isShort: bool, weight: real): real { if isShort then weight else 0.0 }

  /** One and a half for the language, one for the difficulty, three quarters for the patch size. */
  lemma BonusMeans(selected: seq<Candidate>, row: Candidate, quotas: Quotas, jitter: Jitter)
    requires Ranked(row, quotas, jitter)
    ensures DeficitBonus(selected, row, quotas, jitter) ==
            Weight(IsShort(selected, row, LanguageOf, quotas.language), 1.5)
            + Weight(IsShort(selected, row, DifficultyOf, quotas.difficulty), 1.0)
            + Weight(IsShort(selected, row, PatchSizeOf, quotas.patchSize), 0.75)
  {
    hide Carriers, Uses;
    UsesAreCounted(selected, LanguageOf, row.language);
    UsesAreCounted(selected, DifficultyOf, row.difficulty);
    UsesAreCounted(selected, PatchSizeOf, row.patchSize);
  }

  /** Language, difficulty and patch size of two rows fall short alike. */
  ghost predicate FallShortAlike(selected: seq<Candidate>, a: Candidate, b: Candidate, quotas: Quotas) {
    && (IsShort(selected, a, LanguageOf, quotas.language) <==> IsShort(selected, b, LanguageOf, quotas.language))
    && (IsShort(selected, a, DifficultyOf, quotas.difficulty) <==> IsShort(selected, b, DifficultyOf, quotas.difficulty))
    && (IsShort(selected, a, PatchSizeOf, quotas.patchSize) <==> IsShort(selected, b, PatchSizeOf, quotas.patchSize))
  }

  /**
   * What a pick has over an eligible row: a language below its quota yields only to a difficulty and a
   * patch size both below theirs, a difficulty never to a patch size, and in each column alone the value
   * below its quota wins; between rows that fall short alike the rank decides, then the draw, then the id.
   */
  lemma PicksFillQuotas(selected: seq<Candidate>, rest: set<Candidate>, quotas: Quotas, jitter: Jitter, pick: Candidate, row: Candidate)
    requires AllRanked(rest, quotas, jitter) && GoodPick(selected, rest, quotas, jitter, pick)
    requires Eligible(selected, rest, row)
    ensures var l := (c: Candidate) => IsShort(selected, c, LanguageOf, quotas.language);
            var d := (c: Candidate) => IsShort(selected, c, DifficultyOf, quotas.difficulty);
            var p := (c: Candidate) => IsShort(selected, c, PatchSizeOf, quotas.patchSize);
            && (l(row) && !l(pick) ==> d(pick) && p(pick) && !d(row) && !p(row))
            && (l(row) == l(pick) && d(row) ==> d(pick))
            && (l(row) == l(pick) && d(row) == d(pick) && p(row) ==> p(pick))
    ensures FallShortAlike(selected, pick, row, quotas) ==>
              && pick.rankScore >= row.rankScore
              && (pick.rankScore == row.rankScore ==> jitter[pick.taskId] >= jitter[row.taskId])
              && (pick.rankScore == row.rankScore && jitter[pick.taskId] == jitter[row.taskId] ==> !ComesBefore(pick.taskId, row.taskId))
  {
    hide IsShort, DeficitBonus, Q.Less, ComesBefore, UnderLimit;
    assert Ranked(pick, quotas, jitter) && Ranked(row, quotas, jitter);
    BonusMeans(selected, pick, quotas, jitter);
    BonusMeans(selected, row, quotas, jitter);
    LessMeans(pick.taskId, row.taskId);
    assert !KeyLess(KeyOf(selected, pick, quotas, jitter), KeyOf(selected, row, quotas, jitter));
  }

  // ------------------------------------------------------------------------ eligibility

  /** No pick comes from the row's repository. */
  ghost predicate IsNew(selected: seq<Candidate>, row: Candidate) {
    forall s :: s in selected ==> s.repository != row.repository
  }

  ghost predicate HasOnePick(selected: seq<Candidate>, row: Candidate) {
    Carriers(selected, RepositoryOf, row.repository) == 1
  }

  /** New repositories first, then those with one pick, then any. */
  lemma EligibleIff(selected: seq<Candidate>, rest: set<Candidate>, row: Candidate)
    ensures Eligible(selected, rest, row) <==>
            row in rest &&
            if exists r :: r in rest && IsNew(selected, r) then IsNew(selected, row)
            else (exists r :: r in rest && HasOnePick(selected, r)) ==> HasOnePick(selected, row)
  {
    hide Carriers, Uses;
    forall r: Candidate
      ensures IsNew(selected, r) <==> Uses(selected, RepositoryOf, r.repository) == 0
      ensures HasOnePick(selected, r) <==> Uses(selected, RepositoryOf, r.repository) == 1
    {
      UsesAreCounted(selected, RepositoryOf, r.repository);
      UsedIffPresent(selected, RepositoryOf, r.repository);
      if !IsNew(selected, r) {
        var s :| s in selected && s.repository == r.repository;
        assert RepositoryOf(s) == r.repository;
      }
    }
  }

  // ----------------------------------------------------------------------------- quotas

  /**
   * Of two groups of which only one is rounded up, it has the larger fractional share; of equal ones
   * its name comes first.
   */
  lemma LargerFractionsRoundUp(quotas: Q.Counts, counts: Q.Counts, size: nat, up: string, down: string)
    requires Q.IsLargestRemainder(quotas, counts, size) && up in counts && down in counts
    requires var total := Q.Sum(counts.Keys, counts);
             quotas[up] == size * counts[up] / total + 1 && quotas[down] == size * counts[down] / total
    ensures var total := Q.Sum(counts.Keys, counts);
            var a, b := size * counts[up] % total, size * counts[down] % total;
            a > b || (a == b && ComesBefore(up, down))
  {
    hide Q.Sum, Q.Less, ComesBefore;
    var total := Q.Sum(counts.Keys, counts);
    LessMeans(up, down);
    Q.RemainderIsMod(counts[up], size, total);
    Q.RemainderIsMod(counts[down], size, total);
    FloorIsQuotient(counts[up], size, total);
    FloorIsQuotient(counts[down], size, total);
    assert up in Q.Bonus(quotas, counts, size, total) && down !in Q.Bonus(quotas, counts, size, total);
    assert Q.Before(counts, size, total, up, down);
  }

  lemma FloorIsQuotient(count: nat, size: nat, total: nat)
    requires total > 0
    ensures Q.FloorShare(count, size, total) == size * count / total
  {
  }
}
