/** The two-sided exact sign test on discordant pairs, and the paired counts it is fed. */
module ExactTest {
  import opened Options
  import opened Sums

  function Choose(n: nat, k: nat): nat {
    if k == 0 then 1 else if n == 0 then 0 else Choose(n - 1, k - 1) + Choose(n - 1, k)
  }

  function Pow2(n: nat): (p: nat)
    ensures p > 0
  {
    if n == 0 then 1 else 2 * Pow2(n - 1)
  }

  /** The sum of Choose(n, k) for k below t. */
  function Below(n: nat, t: nat): nat {
    if t == 0 then 0 else Below(n, t - 1) + Choose(n, t - 1)
  }

  function Gap(a: int, b: int): int { if a <= b then b - a else a - b }

  /** `sum(comb(n, k) for k in range(tail + 1))`, as a running sum. */
  method CumulativeCount(n: nat, tail: nat) returns (total: nat)
    ensures total == Below(n, tail + 1)
  {
    total := 0;
    for k := 0 to tail + 1
      invariant total == Below(n, k)
    {
      total := total + Choose(n, k);
    }
  }

  /** The p-value; None when there is no discordant pair. */
  function ExactP(improved: nat, harmed: nat): Option<real> {
    var n := improved + harmed;
    if n == 0 then None
    else
      var p := 2.0 * (Below(n, Min(improved, harmed) + 1) as real / Pow2(n) as real);
      Some(if p < 1.0 then p else 1.0)
  }

  // ------------------------------------------------------------ binomial facts

  lemma {:induction false} ChooseBeyond(n: nat, k: nat)
    requires k > n
    ensures Choose(n, k) == 0
  {
    if n > 0 {
      ChooseBeyond(n - 1, k - 1);
      ChooseBeyond(n - 1, k);
    }
  }

  lemma {:induction false} ChooseAll(n: nat)
    ensures Choose(n, n) == 1
  {
    if n > 0 {
      ChooseAll(n - 1);
      ChooseBeyond(n - 1, n);
    }
  }

  lemma {:induction false} ChooseIsSymmetric(n: nat, k: nat)
    requires k <= n
    ensures Choose(n, k) == Choose(n, n - k)
    decreases n
  {
    ChooseAll(n);
    if 0 < k < n {
      ChooseIsSymmetric(n - 1, k - 1);
      ChooseIsSymmetric(n - 1, k);
    }
  }

  lemma {:induction false} ChooseIsPositive(n: nat, k: nat)
    requires k <= n
    ensures Choose(n, k) > 0
  {
    if 0 < k {
      ChooseIsPositive(n - 1, k - 1);
    }
  }

  lemma {:induction false} BelowSplits(n: nat, t: nat)
    requires n > 0 && t > 0
    ensures Below(n, t) == Below(n - 1, t) + Below(n - 1, t - 1)
    decreases t
  {
    if t > 1 {
      BelowSplits(n, t - 1);
    }
  }

  /** A row of the triangle sums to 2^n. */
  lemma {:induction false} RowSum(n: nat)
    ensures Below(n, n + 1) == Pow2(n)
  {
    if n > 0 {
      RowSum(n - 1);
      BelowSplits(n, n + 1);
      ChooseBeyond(n - 1, n);
    }
  }

  /** The lower tail and the mirrored upper tail make up the row. */
  lemma {:induction false} TailsMakeTheRow(n: nat, t: nat)
    requires t <= n + 1
    ensures Below(n, t) + Below(n, n + 1 - t) == Pow2(n)
    decreases t
  {
    if t == 0 {
      RowSum(n);
    } else {
      TailsMakeTheRow(n, t - 1);
      ChooseIsSymmetric(n, t - 1);
    }
  }

  lemma {:induction false} BelowGrows(n: nat, s: nat, t: nat)
    requires s < t <= n + 1
    ensures Below(n, s) < Below(n, t)
    decreases t
  {
    ChooseIsPositive(n, t - 1);
    if s < t - 1 {
      BelowGrows(n, s, t - 1);
    }
  }

  // ------------------------------------------------------------------- the test

  /** Twice the smaller tail reaches the whole row exactly for a gap of at most one. */
  lemma TailReachesHalfIff(improved: nat, harmed: nat)
    requires improved + harmed > 0
    ensures var n, tail := improved + harmed, Min(improved, harmed);
            (2 * Below(n, tail + 1) >= Pow2(n) <==> Gap(improved, harmed) <= 1)
            && 0 < Below(n, tail + 1)
  {
    var n, tail := improved + harmed, Min(improved, harmed);
    TailsMakeTheRow(n, tail + 1);
    if tail > 0 {
      BelowGrows(n, 0, tail + 1);
    } else {
      BelowGrows(n, 0, 1);
    }
    var mirror := n - tail;
    if mirror > tail + 1 {
      BelowGrows(n, tail + 1, mirror);
    } else if mirror < tail + 1 {
      BelowGrows(n, mirror, tail + 1);
    }
  }

  lemma RatioOrder(a: nat, b: nat, row: nat)
    requires row > 0
    ensures a < b <==> a as real / row as real < b as real / row as real
  {
  }

  lemma RatioAgainstOne(a: nat, row: nat)
    requires row > 0
    ensures 2.0 * (a as real / row as real) < 1.0 <==> 2 * a < row
    ensures a > 0 ==> a as real / row as real > 0.0
  {
    var q := a as real / row as real;
    assert q * row as real == a as real;
    if q >= 0.5 {
      assert q * row as real >= 0.5 * row as real;
    } else {
      assert q * row as real < 0.5 * row as real;
    }
  }

  /** Swapping the two directions changes nothing; the value is a probability; one means balance. */
  lemma ExactPIsATest(improved: nat, harmed: nat)
    ensures ExactP(improved, harmed) == ExactP(harmed, improved)
    ensures ExactP(improved, harmed) == None <==> improved + harmed == 0
    ensures ExactP(improved, harmed).Some? ==>
              && 0.0 < ExactP(improved, harmed).value <= 1.0
              && (ExactP(improved, harmed).value == 1.0 <==> Gap(improved, harmed) <= 1)
  {
    if improved + harmed > 0 {
      TailReachesHalfIff(improved, harmed);
      RatioAgainstOne(Below(improved + harmed, Min(improved, harmed) + 1), Pow2(improved + harmed));
    }
  }

  /** With the number of discordant pairs fixed, a larger imbalance beyond one is strictly stronger evidence. */
  lemma MoreImbalanceLowersP(improved: nat, harmed: nat, improved': nat, harmed': nat)
    requires improved + harmed == improved' + harmed'
    requires Gap(improved, harmed) < Gap(improved', harmed') && Gap(improved', harmed') > 1
    ensures ExactP(improved', harmed').value < ExactP(improved, harmed).value
  {
    var n, tail, tail' := improved + harmed, Min(improved, harmed), Min(improved', harmed');
    ExactPIsATest(improved', harmed');
    BelowGrows(n, tail' + 1, tail + 1);
    RatioOrder(Below(n, tail' + 1), Below(n, tail + 1), Pow2(n));
  }

  // -------------------------------------------------------------- paired counts

  datatype Pair = Pair(initial: Option<real>, final: Option<real>)

  datatype Classification = Incomplete | Improved | Harmed | Unchanged

  function Delta(p: Pair): Option<real> {
    if p.initial.Some? && p.final.Some? then Some(p.final.value - p.initial.value) else None
  }

  function Classify(delta: Option<real>): Classification {
    if delta == None then Incomplete
    else if delta.value > 0.0 then Improved
    else if delta.value < 0.0 then Harmed
    else Unchanged
  }

  /** A pair with both rewards improved exactly when the final one is larger, and was harmed exactly when it is smaller. */
  lemma PairsAreClassified(p: Pair)
    ensures Classify(Delta(p)) == Incomplete <==> p.initial == None || p.final == None
    ensures forall i, f :: p == Pair(Some(i), Some(f)) ==>
              && (Classify(Delta(p)) == Improved <==> f > i)
              && (Classify(Delta(p)) == Harmed <==> f < i)
              && (Classify(Delta(p)) == Unchanged <==> f == i)
  {
    match p
    case Pair(Some(i), Some(f)) => assert f - i > 0.0 <==> f > i;
    case _ =>
  }

  predicate IsComplete(p: Pair) { Delta(p).Some? }
  predicate IsImproved(p: Pair) { Classify(Delta(p)) == Improved }
  predicate IsHarmed(p: Pair) { Classify(Delta(p)) == Harmed }
  predicate IsUnchanged(p: Pair) { Classify(Delta(p)) == Unchanged }
  predicate PassedBoth(p: Pair) { IsComplete(p) && p.initial == Some(1.0) && p.final == Some(1.0) }
  predicate FailedBoth(p: Pair) { IsComplete(p) && p.initial != Some(1.0) && p.final != Some(1.0) }

  /** A pair that moved without ever passing; it sits in two cells of the two-by-two table at once. */
  predicate MovedWhileFailing(p: Pair) { FailedBoth(p) && !IsUnchanged(p) }

  /**
   * The four cells cover the complete pairs, and they partition them exactly when no pair moved
   * between two failing rewards, as with binary rewards.
   */
  lemma {:induction false} TwoByTwoPartitionsIff(pairs: seq<Pair>)
    ensures CountIf(pairs, FailedBoth) + CountIf(pairs, IsImproved) + CountIf(pairs, IsHarmed) + CountIf(pairs, PassedBoth)
            == CountIf(pairs, IsComplete) + CountIf(pairs, MovedWhileFailing)
    ensures CountIf(pairs, IsImproved) + CountIf(pairs, IsHarmed) + CountIf(pairs, IsUnchanged) == CountIf(pairs, IsComplete)
    ensures CountIf(pairs, FailedBoth) + CountIf(pairs, PassedBoth) == CountIf(pairs, IsUnchanged) <==>
            CountIf(pairs, MovedWhileFailing) == 0
  {
    if pairs != [] {
      TwoByTwoPartitionsIff(pairs[..|pairs| - 1]);
    }
  }

  predicate IsBinary(reward: Option<real>) { reward in {None, Some(0.0), Some(1.0)} }

  /** Rewards of zero and one always give a partition. */
  lemma {:induction false} BinaryRewardsPartition(pairs: seq<Pair>)
    requires forall p :: p in pairs ==> IsBinary(p.initial) && IsBinary(p.final)
    ensures CountIf(pairs, FailedBoth) + CountIf(pairs, IsImproved) + CountIf(pairs, IsHarmed) + CountIf(pairs, PassedBoth)
            == CountIf(pairs, IsComplete)
  {
    if pairs != [] {
      assert pairs[|pairs| - 1] in pairs;
      BinaryRewardsPartition(pairs[..|pairs| - 1]);
    }
  }

  /** A pair from zero to a half is counted as an improvement and as failing on both sides. */
  lemma HalfRewardsOverlap()
    ensures var pairs := [Pair(Some(0.0), Some(0.5))];
            && CountIf(pairs, IsComplete) == 1
            && CountIf(pairs, FailedBoth) + CountIf(pairs, IsImproved)
               + CountIf(pairs, IsHarmed) + CountIf(pairs, PassedBoth) == 2
  {
    var pairs := [Pair(Some(0.0), Some(0.5))];
    assert pairs[..0] == [] && MovedWhileFailing(pairs[0]);
    TwoByTwoPartitionsIff(pairs);
    assert CountIf(pairs[..0], IsComplete) == 0 && CountIf(pairs[..0], MovedWhileFailing) == 0;
  }
}
