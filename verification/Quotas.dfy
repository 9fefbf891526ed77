/** Largest-remainder allocation of a sample over groups, in exact arithmetic. */
module Quotas {

  // ---------------------------------------------------------------- string order

  /** Comparison by code point, as Python compares strings. */
  predicate Less(a: string, b: string) {
    b != "" && (a == "" || a[0] < b[0] || (a[0] == b[0] && Less(a[1..], b[1..])))
  }

  lemma {:induction false} LessIsTotal(a: string, b: string)
    ensures a == b || Less(a, b) || Less(b, a)
    ensures !(Less(a, b) && Less(b, a)) && !Less(a, a)
    decreases |a|
  {
    if a != "" {
      LessIsTotal(a[1..], a[1..]);
      if b != "" {
        LessIsTotal(a[1..], b[1..]);
        assert a == [a[0]] + a[1..] && b == [b[0]] + b[1..];
      }
    }
  }

  lemma {:induction false} LessIsTransitive(a: string, b: string, c: string)
    requires Less(a, b) && Less(b, c)
    ensures Less(a, c)
    decreases |a|
  {
    if a != "" && a[0] == b[0] && b[0] == c[0] {
      LessIsTransitive(a[1..], b[1..], c[1..]);
    }
  }

  // ------------------------------------------------------------------- sums over maps

  type Counts = map<string, nat>

  ghost function Sum(keys: set<string>, m: Counts): nat
    requires keys <= m.Keys
  {
    if keys == {} then 0 else
      var k :| k in keys;
      m[k] + Sum(keys - {k}, m)
  }

  /** The sum does not depend on which key is taken out first. */
  lemma {:induction false} SumTakesOut(keys: set<string>, m: Counts, k: string)
    requires k in keys && keys <= m.Keys
    ensures Sum(keys, m) == m[k] + Sum(keys - {k}, m)
    decreases |keys|
  {
    var first :| first in keys && Sum(keys, m) == m[first] + Sum(keys - {first}, m);
    if first != k {
      SumTakesOut(keys - {first}, m, k);
      SumTakesOut(keys - {k}, m, first);
      assert keys - {first} - {k} == keys - {k} - {first};
    }
  }

  /** `sum(counts.values())` */
  method SumValues(m: Counts) returns (total: nat)
    ensures total == Sum(m.Keys, m)
  {
    total := 0;
    var rest := m.Keys;
    while rest != {}
      invariant rest <= m.Keys && total + Sum(rest, m) == Sum(m.Keys, m)
    {
      var k :| k in rest;
      SumTakesOut(rest, m, k);
      total := total + m[k];
      rest := rest - {k};
    }
  }

  lemma {:induction false} SumAgrees(keys: set<string>, m: Counts, n: Counts)
    requires keys <= m.Keys && keys <= n.Keys && forall k :: k in keys ==> m[k] == n[k]
    ensures Sum(keys, m) == Sum(keys, n)
    decreases |keys|
  {
    if keys != {} {
      var k :| k in keys;
      SumTakesOut(keys, m, k);
      SumTakesOut(keys, n, k);
      SumAgrees(keys - {k}, m, n);
    }
  }

  lemma SumCountsOneMore(m: Counts, k: string)
    ensures var more := m[k := (if k in m then m[k] else 0) + 1];
            Sum(more.Keys, more) == Sum(m.Keys, m) + 1
  {
    var more := m[k := (if k in m then m[k] else 0) + 1];
    SumTakesOut(more.Keys, more, k);
    SumAgrees(m.Keys - {k}, m, more);
    if k in m {
      SumTakesOut(m.Keys, m, k);
      assert more.Keys - {k} == m.Keys - {k};
    } else {
      assert more.Keys - {k} == m.Keys == m.Keys - {k};
    }
  }

  /** `Counter(values)` */
  ghost predicate IsTally(counts: Counts, values: seq<string>) {
    && (forall v :: v in counts <==> v in values)
    && (forall v :: v in counts ==> counts[v] == multiset(values)[v])
    && Sum(counts.Keys, counts) == |values|
  }

  method Tally(values: seq<string>) returns (counts: Counts)
    ensures IsTally(counts, values)
  {
    counts := map[];
    for i := 0 to |values|
      invariant IsTally(counts, values[..i])
    {
      assert values[..i + 1] == values[..i] + [values[i]];
      SumCountsOneMore(counts, values[i]);
      counts := counts[values[i] := (if values[i] in counts then counts[values[i]] else 0) + 1];
    }
    assert values[..|values|] == values;
  }

  // ----------------------------------------------------------------------- shares

  function FloorShare(count: nat, size: nat, total: nat): nat
    requires total > 0
  {
    size * count / total
  }

  /** The fractional part of the exact share, times the total. */
  function Remainder(count: nat, size: nat, total: nat): nat
    requires total > 0
  {
    size * count % total
  }

  /** The bonus order: larger remainder first, then the smaller key. */
  predicate Before(counts: Counts, size: nat, total: nat, a: string, b: string)
    requires total > 0 && a in counts && b in counts
  {
    var ra, rb := Remainder(counts[a], size, total), Remainder(counts[b], size, total);
    ra > rb || (ra == rb && Less(a, b))
  }

  lemma BeforeIsTotal(counts: Counts, size: nat, total: nat, a: string, b: string)
    requires total > 0 && a in counts && b in counts
    ensures a == b || Before(counts, size, total, a, b) || Before(counts, size, total, b, a)
    ensures !(Before(counts, size, total, a, b) && Before(counts, size, total, b, a))
  {
    hide Remainder;
    LessIsTotal(a, b);
  }

  lemma BeforeIsTransitive(counts: Counts, size: nat, total: nat, a: string, b: string, c: string)
    requires total > 0 && a in counts && b in counts && c in counts
    requires Before(counts, size, total, a, b) && Before(counts, size, total, b, c)
    ensures Before(counts, size, total, a, c)
  {
    hide Remainder;
    if Less(a, b) && Less(b, c) {
      LessIsTransitive(a, b, c);
    }
  }

  predicate IsFirst(keys: set<string>, counts: Counts, size: nat, total: nat, k: string)
    requires total > 0 && keys <= counts.Keys
  {
    k in keys && forall j :: j in keys && j != k ==> Before(counts, size, total, k, j)
  }

  lemma {:induction false} FirstExists(keys: set<string>, counts: Counts, size: nat, total: nat)
    requires total > 0 && {} != keys && keys <= counts.Keys
    ensures exists k :: IsFirst(keys, counts, size, total, k)
    decreases |keys|
  {
    hide Before;
    var k :| k in keys;
    var others := keys - {k};
    if others == {} {
      assert keys == {k};
      assert IsFirst(keys, counts, size, total, k);
    } else {
      FirstExists(others, counts, size, total);
      var f :| IsFirst(others, counts, size, total, f);
      BeforeIsTotal(counts, size, total, k, f);
      if Before(counts, size, total, f, k) {
        assert IsFirst(keys, counts, size, total, f);
      } else {
        forall j | j in keys && j != k ensures Before(counts, size, total, k, j) {
          if j != f {
            BeforeIsTransitive(counts, size, total, k, f, j);
          }
        }
        assert IsFirst(keys, counts, size, total, k);
      }
    }
  }

  ghost predicate Sorted(order: seq<string>, counts: Counts, size: nat, total: nat)
    requires total > 0 && forall k :: k in order ==> k in counts
  {
    forall i, j :: 0 <= i < j < |order| ==> Before(counts, size, total, order[i], order[j])
  }

  /** The keys in bonus order. */
  method SortKeys(counts: Counts, size: nat, total: nat) returns (order: seq<string>)
    requires total > 0
    ensures forall k :: k in order <==> k in counts
    ensures |order| == |counts.Keys|
    ensures Sorted(order, counts, size, total)
  {
    hide Before;
    order := [];
    var rest := counts.Keys;
    while rest != {}
      invariant rest <= counts.Keys
      invariant forall k :: k in order <==> k in counts && k !in rest
      invariant |order| + |rest| == |counts.Keys|
      invariant Sorted(order, counts, size, total)
      invariant forall j, k :: j in order && k in rest ==> Before(counts, size, total, j, k)
    {
      FirstExists(rest, counts, size, total);
      var k :| k in rest && IsFirst(rest, counts, size, total, k);
      order := order + [k];
      rest := rest - {k};
    }
  }

  // ---------------------------------------------------------------------- allocation

  function Bonus(quotas: Counts, counts: Counts, size: nat, total: nat): set<string>
    requires total > 0 && quotas.Keys == counts.Keys
  {
    set k | k in counts && quotas[k] > FloorShare(counts[k], size, total)
  }

  /** Shares rounded down, plus one for the first keys in bonus order, adding up to the size. */
  ghost predicate IsLargestRemainder(quotas: Counts, counts: Counts, size: nat)
  {
    var total := Sum(counts.Keys, counts);
    && total > 0 && quotas.Keys == counts.Keys
    && (forall k :: k in counts ==>
          FloorShare(counts[k], size, total) <= quotas[k] <= FloorShare(counts[k], size, total) + 1)
    && Sum(quotas.Keys, quotas) == size
    && (forall a, b :: a in Bonus(quotas, counts, size, total) && b in counts.Keys - Bonus(quotas, counts, size, total) ==>
          Before(counts, size, total, a, b))
  }

  function Floors(counts: Counts, size: nat, total: nat): Counts
    requires total > 0
  {
    map k | k in counts :: FloorShare(counts[k], size, total)
  }

  function Remainders(counts: Counts, size: nat, total: nat): Counts
    requires total > 0
  {
    map k | k in counts :: Remainder(counts[k], size, total)
  }

  lemma ShareSplits(count: nat, size: nat, total: nat)
    requires total > 0
    ensures size * count == total * FloorShare(count, size, total) + Remainder(count, size, total)
    ensures Remainder(count, size, total) < total
  {
  }

  /** Shares and remainders add up: the leftover is the sum of the remainders over the total. */
  lemma {:induction false} SharesAddUp(keys: set<string>, counts: Counts, size: nat, total: nat)
    requires total > 0 && keys <= counts.Keys
    ensures size * Sum(keys, counts) == total * Sum(keys, Floors(counts, size, total)) + Sum(keys, Remainders(counts, size, total))
    decreases |keys|
  {
    var floors, remainders := Floors(counts, size, total), Remainders(counts, size, total);
    if keys != {} {
      var k :| k in keys;
      SumTakesOut(keys, counts, k);
      SumTakesOut(keys, floors, k);
      SumTakesOut(keys, remainders, k);
      SharesAddUp(keys - {k}, counts, size, total);
      ShareSplits(counts[k], size, total);
      Distribute(size, counts[k], Sum(keys - {k}, counts));
      Distribute(total, floors[k], Sum(keys - {k}, floors));
    }
  }

  lemma Distribute(a: nat, b: nat, c: nat)
    ensures a * (b + c) == a * b + a * c
  {
  }

  function Times(a: nat, b: nat): nat { a * b }

  lemma TimesSteps(total: nat, n: nat, sum: nat, value: nat)
    requires sum <= Times(total, n) && value < total
    ensures value + sum < Times(total, n + 1)
  {
    Distribute(total, n, 1);
  }

  /** A sum of values below the total, zero outside `live`, stays below the total times the size of `live`. */
  lemma {:induction false} SumIsBounded(keys: set<string>, live: set<string>, m: Counts, total: nat)
    requires live <= keys <= m.Keys
    requires forall k :: k in live ==> m[k] < total
    requires forall k :: k in keys && k !in live ==> m[k] == 0
    ensures Sum(keys, m) <= Times(total, |live|)
    ensures live != {} ==> Sum(keys, m) < Times(total, |live|)
    decreases |keys|
  {
    hide Sum, Times;
    if keys == {} {
      SumOfNothing(m);
    } else {
      var k :| k in keys;
      SumTakesOut(keys, m, k);
      SumIsBounded(keys - {k}, live - {k}, m, total);
      if k in live {
        assert |live| == |live - {k}| + 1;
        TimesSteps(total, |live - {k}|, Sum(keys - {k}, m), m[k]);
      } else {
        assert live - {k} == live;
      }
    }
  }

  lemma SumOfNothing(m: Counts)
    ensures Sum({}, m) == 0
  {
  }

  /** The leftover is smaller than the number of keys with a remainder, unless there is none. */
  lemma LeftoverFits(counts: Counts, size: nat, total: nat, live: set<string>)
    requires total > 0 && total == Sum(counts.Keys, counts) && live <= counts.Keys
    requires forall k :: k in counts && k !in live ==> Remainder(counts[k], size, total) == 0
    ensures Sum(counts.Keys, Floors(counts, size, total)) <= size
    ensures size - Sum(counts.Keys, Floors(counts, size, total)) <= |live|
    ensures live != {} ==> size - Sum(counts.Keys, Floors(counts, size, total)) < |live|
  {
    hide Remainder, FloorShare, Sum;
    var given, remainders := Sum(counts.Keys, Floors(counts, size, total)), Remainders(counts, size, total);
    SharesAddUp(counts.Keys, counts, size, total);
    forall k | k in counts ensures remainders[k] < total {
      ShareSplits(counts[k], size, total);
    }
    SumIsBounded(counts.Keys, live, remainders, total);
    LeftoverBounds(size, total, given, Sum(counts.Keys, remainders), |live|);
  }

  lemma LeftoverBounds(size: nat, total: nat, given: nat, rest: nat, n: nat)
    requires total > 0 && size * total == total * given + rest
    ensures given <= size
    ensures rest <= Times(total, n) ==> size - given <= n
    ensures rest < Times(total, n) ==> size - given < n
  {
    Cancel(total, given, size);
    Distribute(total, given, n);
    Cancel(total, size, given + n);
  }

  /** Comparing multiples of a positive number compares the factors. */
  lemma Cancel(total: nat, x: int, y: int)
    requires total > 0
    ensures total * x <= total * y <==> x <= y
    ensures total * x < total * y <==> x < y
  {
    var d := x - y;
    assert total * x == total * y + total * d by {
      assert total * (y + d) == total * y + total * d;
    }
    if d > 0 {
      assert total * d >= d;
    } else if d < 0 {
      assert total * -d >= -d;
      assert total * d == -(total * -d);
    }
  }

  lemma {:induction false} SumWithBonus(keys: set<string>, floors: Counts, quotas: Counts, bonus: set<string>)
    requires keys <= floors.Keys && keys <= quotas.Keys && bonus <= keys
    requires forall k :: k in keys ==> quotas[k] == floors[k] + if k in bonus then 1 else 0
    ensures Sum(keys, quotas) == Sum(keys, floors) + |bonus|
    decreases |keys|
  {
    if keys != {} {
      var k :| k in keys;
      SumTakesOut(keys, floors, k);
      SumTakesOut(keys, quotas, k);
      SumWithBonus(keys - {k}, floors, quotas, bonus - {k});
      assert k !in bonus ==> bonus - {k} == bonus;
    }
  }

  method FloorQuotas(counts: Counts, size: nat, total: nat) returns (quotas: Counts)
    requires total > 0
    ensures quotas == Floors(counts, size, total) && quotas.Keys == counts.Keys
    ensures forall k :: k in counts ==> quotas[k] == FloorShare(counts[k], size, total)
  {
    hide FloorShare;
    quotas := map k | k in counts :: FloorShare(counts[k], size, total);
  }

  /** One more for each key of a bonus list. */
  method AddBonus(floors: Counts, order: seq<string>, n: nat) returns (quotas: Counts)
    requires n <= |order| && forall k :: k in order ==> k in floors
    requires forall i, j :: 0 <= i < j < |order| ==> order[i] != order[j]
    ensures quotas.Keys == floors.Keys
    ensures forall k :: k in floors ==> quotas[k] == floors[k] + if k in order[..n] then 1 else 0
  {
    quotas := floors;
    for i := 0 to n
      invariant quotas.Keys == floors.Keys
      invariant forall k :: k in floors ==> quotas[k] == floors[k] + if k in order[..i] then 1 else 0
    {
      assert order[..i + 1] == order[..i] + [order[i]];
      assert order[i] !in order[..i];
      quotas := quotas[order[i] := quotas[order[i]] + 1];
    }
  }

  /** `allocate_quotas` */
  method AllocateQuotas(counts: Counts, size: nat) returns (quotas: Counts)
    ensures Sum(counts.Keys, counts) == 0 || size == 0 ==> quotas == map[]
    ensures Sum(counts.Keys, counts) > 0 && size > 0 ==> IsLargestRemainder(quotas, counts, size)
  {
    hide Before, Sum, FloorShare, Remainder, Floors, IsLargestRemainder;
    var total := SumValues(counts);
    if total == 0 || size == 0 {
      return map[];
    }
    var floors := FloorQuotas(counts, size, total);
    var given := SumValues(floors);
    assert given <= size && size - given <= |counts.Keys| by {
      LeftoverFits(counts, size, total, counts.Keys);
    }
    var order := SortKeys(counts, size, total);
    OrderIsDistinct(order, counts, size, total);
    quotas := AddBonus(floors, order, size - given);
    BonusIsThePrefix(counts, size, total, order, size - given, quotas);
  }

  lemma OrderIsDistinct(order: seq<string>, counts: Counts, size: nat, total: nat)
    requires total > 0 && (forall k :: k in order ==> k in counts) && Sorted(order, counts, size, total)
    ensures forall i, j :: 0 <= i < j < |order| ==> order[i] != order[j]
  {
    hide Before;
    forall i, j | 0 <= i < j < |order| ensures order[i] != order[j] {
      BeforeIsTotal(counts, size, total, order[i], order[j]);
    }
  }

  lemma BonusIsThePrefix(counts: Counts, size: nat, total: nat, order: seq<string>, n: nat, quotas: Counts)
    requires total > 0 && total == Sum(counts.Keys, counts)
    requires (forall k :: k in order <==> k in counts) && Sorted(order, counts, size, total)
    requires n <= |order| && n == size - Sum(counts.Keys, Floors(counts, size, total))
    requires quotas.Keys == counts.Keys
    requires forall k :: k in counts ==>
               quotas[k] == FloorShare(counts[k], size, total) + if k in order[..n] then 1 else 0
    ensures IsLargestRemainder(quotas, counts, size)
  {
    hide Before, FloorShare, Sum;
    OrderIsDistinct(order, counts, size, total);
    var bonus := Bonus(quotas, counts, size, total);
    PrefixGetsTheBonus(counts, size, total, order[..n], quotas);
    PrefixSize(order[..n], bonus);
    SumWithBonus(counts.Keys, Floors(counts, size, total), quotas, bonus);
    forall a, b | a in bonus && b in counts.Keys - bonus ensures Before(counts, size, total, a, b) {
      PrefixComesFirst(counts, size, total, order, n, a, b);
    }
  }

  lemma PrefixGetsTheBonus(counts: Counts, size: nat, total: nat, prefix: seq<string>, quotas: Counts)
    requires total > 0 && quotas.Keys == counts.Keys && forall k :: k in prefix ==> k in counts
    requires forall k :: k in counts ==>
               quotas[k] == FloorShare(counts[k], size, total) + if k in prefix then 1 else 0
    ensures forall k :: k in prefix <==> k in Bonus(quotas, counts, size, total)
  {
    hide FloorShare;
  }

  lemma PrefixComesFirst(counts: Counts, size: nat, total: nat, order: seq<string>, n: nat, a: string, b: string)
    requires total > 0 && (forall k :: k in order ==> k in counts) && Sorted(order, counts, size, total)
    requires n <= |order| && a in order[..n] && b in order && b !in order[..n]
    ensures Before(counts, size, total, a, b)
  {
    hide Before;
    var i :| 0 <= i < n && order[i] == a;
    assert order == order[..n] + order[n..];
    var j :| 0 <= j < |order| - n && order[n..][j] == b;
    assert order[n + j] == b;
  }

  lemma {:induction false} PrefixSize(xs: seq<string>, s: set<string>)
    requires forall i, j :: 0 <= i < j < |xs| ==> xs[i] != xs[j]
    requires forall k :: k in xs <==> k in s
    ensures |s| == |xs|
  {
    if xs == [] {
      assert s == {};
    } else {
      var n := |xs| - 1;
      assert forall k :: k in xs[..n] <==> k in s - {xs[n]};
      PrefixSize(xs[..n], s - {xs[n]});
    }
  }

  // ------------------------------------------------------------------- what it means

  /**
   * Every quota is the exact share rounded down or up, a whole share is met exactly, and a sample
   * no larger than the population never asks a group for more than it has.
   */
  lemma QuotasAreFair(quotas: Counts, counts: Counts, size: nat, k: string)
    requires IsLargestRemainder(quotas, counts, size) && k in counts
    ensures var total := Sum(counts.Keys, counts);
            && total * quotas[k] < size * counts[k] + total
            && size * counts[k] < total * quotas[k] + total
            && (size * counts[k] % total == 0 ==> total * quotas[k] == size * counts[k])
            && (size <= total ==> quotas[k] <= counts[k])
  {
    hide Sum, FloorShare, Remainder, Before;
    var total := Sum(counts.Keys, counts);
    ShareSplits(counts[k], size, total);
    var floor, rem := FloorShare(counts[k], size, total), Remainder(counts[k], size, total);
    NoBonusWithoutRemainder(quotas, counts, size, k);
    Distribute(total, floor, 1);
    RemainderIsMod(counts[k], size, total);
    Cancel(total, floor, counts[k]);
    if size <= total {
      MoreIsMore(size, total, counts[k]);
    }
  }

  lemma MoreIsMore(a: nat, b: nat, c: nat)
    requires a <= b
    ensures a * c <= b * c
  {
    assert b * c == a * c + (b - a) * c;
  }

  lemma RemainderIsMod(count: nat, size: nat, total: nat)
    requires total > 0
    ensures Remainder(count, size, total) == size * count % total
  {
  }

  /** A key whose share is whole never gets a bonus: the keys with a remainder suffice for the leftover. */
  lemma NoBonusWithoutRemainder(quotas: Counts, counts: Counts, size: nat, k: string)
    requires IsLargestRemainder(quotas, counts, size) && k in counts
    ensures var total := Sum(counts.Keys, counts);
            Remainder(counts[k], size, total) == 0 ==> quotas[k] == FloorShare(counts[k], size, total)
  {
    hide Sum, FloorShare, Remainder;
    var total := Sum(counts.Keys, counts);
    var bonus := Bonus(quotas, counts, size, total);
    if Remainder(counts[k], size, total) == 0 && k in bonus {
      var live := set j | j in counts && Remainder(counts[j], size, total) != 0;
      SumWithBonus(counts.Keys, Floors(counts, size, total), quotas, bonus);
      LeftoverFits(counts, size, total, live);
      forall j | j in live ensures j in bonus {
        assert !Before(counts, size, total, k, j);
      }
      SubsetSize(live, bonus - {k});
    }
  }

  lemma {:induction false} SubsetSize(a: set<string>, b: set<string>)
    requires a <= b
    ensures |a| <= |b|
    ensures a != b ==> |a| < |b|
    decreases |b|
  {
    if a != b {
      var x :| x in b && x !in a;
      SubsetSize(a, b - {x});
    }
  }

  /** The allocation is determined by the counts and the size; the order of the groups plays no part. */
  lemma QuotasAreUnique(q: Counts, r: Counts, counts: Counts, size: nat)
    requires IsLargestRemainder(q, counts, size) && IsLargestRemainder(r, counts, size)
    ensures q == r
  {
    hide Sum, FloorShare, Before;
    var total := Sum(counts.Keys, counts);
    var a, b := Bonus(q, counts, size, total), Bonus(r, counts, size, total);
    SumWithBonus(counts.Keys, Floors(counts, size, total), q, a);
    SumWithBonus(counts.Keys, Floors(counts, size, total), r, b);
    if a != b {
      if a <= b {
        SubsetSize(a, b);
      } else if b <= a {
        SubsetSize(b, a);
      } else {
        var x :| x in a && x !in b;
        var y :| y in b && y !in a;
        BeforeIsTotal(counts, size, total, x, y);
      }
    }
    assert forall k :: k in counts ==> q[k] == FloorShare(counts[k], size, total) + if k in a then 1 else 0;
    assert forall k :: k in counts ==> r[k] == FloorShare(counts[k], size, total) + if k in b then 1 else 0;
  }
}
