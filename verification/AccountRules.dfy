/** What every field of an accounting says about the turns, counted and summed turn by turn. */
module AccountRules {
  import opened Options
  import opened Sums
  import opened Usage
  import opened Accounting

  // --------------------------------------------------------- counting and adding over turns

  /** How many turns there are of this kind. */
  ghost function Turns<T>(xs: seq<T>, kind: T -> bool): nat {
    |set i: nat | i < |xs| && kind(xs[i])|
  }

  /** What the turns amount to. */
  ghost function Adds<T>(xs: seq<T>, amount: T -> real): real {
    if xs == [] then 0.0 else amount(xs[0]) + Adds(xs[1..], amount)
  }

  ghost function AddsUp<T>(xs: seq<T>, amount: T -> nat): nat {
    if xs == [] then 0 else amount(xs[0]) + AddsUp(xs[1..], amount)
  }

  /** The amount over the turns that have one; nothing when none has. */
  ghost predicate IsKnownSum<T>(sum: Option<real>, xs: seq<T>, kind: T -> bool, amount: T -> real) {
    sum == if forall x :: x in xs ==> !kind(x) then None else Some(Adds(xs, amount))
  }

  lemma OneMoreTurn<T>(xs: seq<T>, x: T, kind: T -> bool)
    ensures Turns(xs + [x], kind) == Turns(xs, kind) + if kind(x) then 1 else 0
  {
    var all, earlier := set i: nat | i < |xs + [x]| && kind((xs + [x])[i]), set i: nat | i < |xs| && kind(xs[i]);
    assert |xs| !in earlier;
    assert all == if kind(x) then earlier + {|xs|} else earlier;
  }

  lemma {:induction false} OneMoreAmount<T>(xs: seq<T>, x: T, amount: T -> real)
    ensures Adds(xs + [x], amount) == Adds(xs, amount) + amount(x)
  {
    if xs == [] {
      assert [] + [x] == [x] && [x][1..] == [];
    } else {
      OneMoreAmount(xs[1..], x, amount);
      assert (xs + [x])[1..] == xs[1..] + [x];
    }
  }

  lemma {:induction false} OneMoreNumber<T>(xs: seq<T>, x: T, amount: T -> nat)
    ensures AddsUp(xs + [x], amount) == AddsUp(xs, amount) + amount(x)
  {
    if xs == [] {
      assert [] + [x] == [x] && [x][1..] == [];
    } else {
      OneMoreNumber(xs[1..], x, amount);
      assert (xs + [x])[1..] == xs[1..] + [x];
    }
  }

  // ------------------------------------------------------------------------ kinds of turns

  predicate HasTokens(s: Slot) { s.Some? && s.value.tokens.Some? }
  predicate HasAll(s: Slot) { HasTokens(s) && s.value.tokens.value.coverage == Complete }
  predicate HasSome(s: Slot) { HasTokens(s) && s.value.tokens.value.coverage == Partial }
  predicate LacksTokens(s: Slot) { !HasTokens(s) }

  function HasDetail(key: Key): Slot -> bool {
    (s: Slot) => HasTokens(s) && key in s.value.tokens.value.totals
  }

  function DetailIn(key: Key): Slot -> nat {
    (s: Slot) => if HasDetail(key)(s) then s.value.tokens.value.totals[key] else 0
  }

  predicate WasReported(r: Resolution) { HasCost(r) && !r.Estimated? }
  predicate WasEstimated(r: Resolution) { HasCost(r) && !r.Reported? }
  predicate WasEstimatedInPart(r: Resolution) { r == Estimated(EstimatedAmount(r), Partial) }
  predicate HasCost(r: Resolution) { r != Unresolved }
  predicate LacksCost(r: Resolution) { r == Unresolved }

  function ReportedAmount(r: Resolution): real {
    match r
    case Reported(cost) => cost.amount
    case _ => 0.0
  }

  function EstimatedAmount(r: Resolution): real {
    match r
    case Estimated(amount, _) => amount
    case _ => 0.0
  }

  function AnyAmount(r: Resolution): real { ReportedAmount(r) + EstimatedAmount(r) }

  // ------------------------------------------------------------------------ the accounts

  ghost predicate IsTokenCoverage(coverage: Coverage, reports: seq<Slot>) {
    && (coverage == Unavailable <==> forall s :: s in reports ==> !HasTokens(s))
    && (coverage == Complete <==> reports != [] && forall s :: s in reports ==> HasAll(s))
  }

  /** Of a detail: what was observed, in how many turns, and the total when every turn told it completely. */
  ghost predicate DetailFits(detail: Detail, reports: seq<Slot>, key: Key) {
    && detail.reportedTurns == Turns(reports, HasDetail(key))
    && detail.observed == (if forall s :: s in reports ==> !HasDetail(key)(s) then None else Some(AddsUp(reports, DetailIn(key))))
    && detail.total == (if reports != [] && forall s :: s in reports ==> HasAll(s) && HasDetail(key)(s) then detail.observed else None)
  }

  ghost predicate TokensFit(a: Accounts, reports: seq<Slot>) {
    && a.tokenReportTurns == Turns(reports, HasTokens) && a.missingTokenTurns == Turns(reports, LacksTokens)
    && a.completeTokenTurns == Turns(reports, HasAll) && a.partialTokenTurns == Turns(reports, HasSome)
    && IsTokenCoverage(a.tokenCoverage, reports)
    && (forall key: Key :: key in a.details && DetailFits(a.details[key], reports, key))
    && a.observedInputTokens == a.details[InputTotal].observed && a.observedOutputTokens == a.details[OutputTotal].observed
    && a.inputTokens == a.details[InputTotal].total && a.outputTokens == a.details[OutputTotal].total
  }

  ghost predicate IsCostCoverage(coverage: Coverage, rs: seq<Resolution>) {
    && (coverage == Unavailable <==> forall r :: r in rs ==> !HasCost(r))
    && (coverage == Complete <==> rs != [] && forall r :: r in rs ==>
          HasCost(r) && (r.Estimated? ==> r.coverage == Complete))
  }

  ghost predicate CostsFit(a: Accounts, rs: seq<Resolution>) {
    && a.costReportTurns == Turns(rs, WasReported) && a.costEstimateTurns == Turns(rs, WasEstimated)
    && a.costAvailableTurns == Turns(rs, HasCost) && a.missingCostTurns == Turns(rs, LacksCost)
    && a.partialCostEstimateTurns == Turns(rs, WasEstimatedInPart)
    && IsCostCoverage(a.costCoverage, rs)
    && IsKnownSum(a.reportedCostUsd, rs, WasReported, ReportedAmount)
    && IsKnownSum(a.estimatedCostUsd, rs, WasEstimated, EstimatedAmount)
    && IsKnownSum(a.observedCostUsd, rs, HasCost, AnyAmount)
    && a.costUsd == (if a.costCoverage == Complete then a.observedCostUsd else None)
  }

  /** Every field against the slots and the resolutions. */
  ghost predicate AccountsFit(a: Accounts, reports: seq<Slot>, rs: seq<Resolution>, toolUses: nat, wallMs: nat) {
    a.turns == |reports| && a.toolUses == toolUses && a.wallMs == wallMs && TokensFit(a, reports) && CostsFit(a, rs)
  }

  // ------------------------------------------------------------------------------- proofs

  lemma TokensAppend(reports: seq<Slot>, last: Slot)
    ensures TokensOf(reports + [last]) == if HasTokens(last) then TokensOf(reports) + [last.value.tokens.value] else TokensOf(reports)
  {
    assert (reports + [last])[..|reports|] == reports;
    assert TokensOf(reports) + [] == TokensOf(reports);
  }

  lemma KnownAppend(tokens: seq<TokenReport>, last: TokenReport, key: Key)
    ensures Known(tokens + [last], key) ==
            if key in last.totals then Known(tokens, key) + [last.totals[key]] else Known(tokens, key)
  {
    assert (tokens + [last])[..|tokens|] == tokens;
    assert Known(tokens, key) + [] == Known(tokens, key);
  }

  lemma AmountsAppend(rs: seq<Resolution>, last: Resolution, keep: Resolution -> bool)
    ensures AmountsOf(rs + [last], keep) == if keep(last) then AmountsOf(rs, keep) + [Amount(last)] else AmountsOf(rs, keep)
  {
    assert (rs + [last])[..|rs|] == rs;
    assert AmountsOf(rs, keep) + [] == AmountsOf(rs, keep);
  }

  lemma CountAppend<T>(xs: seq<T>, last: T, keep: T -> bool)
    ensures CountIf(xs + [last], keep) == CountIf(xs, keep) + if keep(last) then 1 else 0
  {
    assert (xs + [last])[..|xs|] == xs;
  }

  lemma NothingIsCounted()
    ensures TokensOf([]) == [] && forall key :: Known([], key) == []
    ensures forall keep: TokenReport -> bool :: CountIf([], keep) == 0
    ensures forall keep: Resolution -> bool :: CountIf([], keep) == 0 && AmountsOf([], keep) == []
  {
  }

  lemma {:induction false} TokenTurns(reports: seq<Slot>)
    ensures |TokensOf(reports)| == Turns(reports, HasTokens)
    ensures CountIf(TokensOf(reports), IsComplete) == Turns(reports, HasAll)
    ensures CountIf(TokensOf(reports), IsPartial) == Turns(reports, HasSome)
    ensures |reports| - |TokensOf(reports)| == Turns(reports, LacksTokens)
  {
    hide Turns, TokensOf, CountIf;
    if reports == [] {
      NoTurnsAtAll<Slot>();
      NothingIsCounted();
    } else {
      var n := |reports| - 1;
      var shorter, last := reports[..n], reports[n];
      TokenTurns(shorter);
      assert reports == shorter + [last];
      TokensAppend(shorter, last);
      OneMoreTurn(shorter, last, HasTokens);
      OneMoreTurn(shorter, last, HasAll);
      OneMoreTurn(shorter, last, HasSome);
      OneMoreTurn(shorter, last, LacksTokens);
      if HasTokens(last) {
        CountAppend(TokensOf(shorter), last.value.tokens.value, IsComplete);
        CountAppend(TokensOf(shorter), last.value.tokens.value, IsPartial);
      }
    }
  }

  lemma NoTurnsAtAll<T>()
    ensures forall kind: T -> bool :: Turns([], kind) == 0
  {
    var none: seq<T> := [];
    forall kind: T -> bool ensures Turns(none, kind) == 0 {
      assert (set i: nat | i < |none| && kind(none[i])) == {};
    }
  }

  lemma {:induction false} DetailTurns(reports: seq<Slot>, key: Key)
    ensures |Known(TokensOf(reports), key)| == Turns(reports, HasDetail(key))
    ensures Sum(Known(TokensOf(reports), key)) == AddsUp(reports, DetailIn(key))
    ensures Known(TokensOf(reports), key) == [] <==> forall s :: s in reports ==> !HasDetail(key)(s)
  {
    hide Turns, Sum, AddsUp, TokensOf, Known;
    if reports == [] {
      NoTurnsAtAll<Slot>();
      SumsOfNothing();
      NothingAddsUp<Slot>();
      NothingIsCounted();
    } else {
      var n := |reports| - 1;
      var shorter, last := reports[..n], reports[n];
      DetailTurns(shorter, key);
      assert reports == shorter + [last];
      TokensAppend(shorter, last);
      OneMoreTurn(shorter, last, HasDetail(key));
      OneMoreNumber(shorter, last, DetailIn(key));
      if HasTokens(last) {
        KnownAppend(TokensOf(shorter), last.value.tokens.value, key);
        if HasDetail(key)(last) {
          SumGrows(Known(TokensOf(shorter), key), last.value.tokens.value.totals[key]);
        }
      }
    }
  }

  lemma NothingAddsUp<T>()
    ensures forall amount: T -> nat :: AddsUp([], amount) == 0
    ensures forall amount: T -> real :: Adds([], amount) == 0.0
  {
  }

  lemma {:induction false} CostTurns(rs: seq<Resolution>, keep: Resolution -> bool, kind: Resolution -> bool)
    requires forall r :: keep(r) <==> kind(r)
    ensures CountIf(rs, keep) == Turns(rs, kind)
  {
    hide Turns, CountIf;
    if rs == [] {
      NoTurnsAtAll<Resolution>();
      NothingIsCounted();
    } else {
      var n := |rs| - 1;
      CostTurns(rs[..n], keep, kind);
      assert rs == rs[..n] + [rs[n]];
      OneMoreTurn(rs[..n], rs[n], kind);
      CountAppend(rs[..n], rs[n], keep);
    }
  }

  lemma {:induction false} OthersLackCosts(rs: seq<Resolution>)
    ensures |rs| - Turns(rs, HasCost) == Turns(rs, LacksCost)
  {
    hide Turns;
    if rs == [] {
      NoTurnsAtAll<Resolution>();
    } else {
      var n := |rs| - 1;
      OthersLackCosts(rs[..n]);
      assert rs == rs[..n] + [rs[n]];
      OneMoreTurn(rs[..n], rs[n], HasCost);
      OneMoreTurn(rs[..n], rs[n], LacksCost);
    }
  }

  lemma KindsMean()
    ensures forall r :: WasReported(r) <==> IsReportedCost(r)
    ensures forall r :: WasEstimated(r) <==> IsEstimate(r)
    ensures forall r :: HasCost(r) <==> IsAvailable(r)
    ensures forall r :: WasEstimatedInPart(r) <==> IsPartialEstimate(r)
    ensures forall r :: ReportedAmount(r) == if IsReportedCost(r) then Amount(r) else 0.0
    ensures forall r :: EstimatedAmount(r) == if IsEstimate(r) then Amount(r) else 0.0
    ensures forall r :: AnyAmount(r) == if IsAvailable(r) then Amount(r) else 0.0
  {
  }

  /** The amounts of one kind, added up. */
  lemma {:induction false} CostSums(rs: seq<Resolution>, keep: Resolution -> bool, kind: Resolution -> bool, amount: Resolution -> real)
    requires forall r :: keep(r) <==> kind(r)
    requires forall r :: amount(r) == if keep(r) then Amount(r) else 0.0
    ensures SumReal(AmountsOf(rs, keep)) == Adds(rs, amount)
    ensures AmountsOf(rs, keep) == [] <==> forall r :: r in rs ==> !kind(r)
  {
    hide SumReal, Adds, Amount, AmountsOf;
    if rs == [] {
      SumsOfNothing();
      NothingAddsUp<Resolution>();
      NothingIsCounted();
    } else {
      var n := |rs| - 1;
      var shorter, last := rs[..n], rs[n];
      CostSums(shorter, keep, kind, amount);
      assert rs == shorter + [last];
      AmountsAppend(shorter, last, keep);
      OneMoreAmount(shorter, last, amount);
      if keep(last) {
        SumRealGrows(AmountsOf(shorter, keep), Amount(last));
      }
    }
  }

  lemma KnownCosts(rs: seq<Resolution>, keep: Resolution -> bool, kind: Resolution -> bool, amount: Resolution -> real)
    requires forall r :: keep(r) <==> kind(r)
    requires forall r :: amount(r) == if keep(r) then Amount(r) else 0.0
    ensures IsKnownSum(ReportedCost(AmountsOf(rs, keep)), rs, kind, amount)
  {
    hide SumReal, Adds, Amount, AmountsOf;
    CostSums(rs, keep, kind, amount);
  }

  lemma TokenCoverageMeans(reports: seq<Slot>)
    ensures IsTokenCoverage(TokenCoverageOf(reports), reports)
  {
    hide TokensOf;
    TokenCoverageIff(reports);
    TokensAreCounted(reports);
    TokensComeFromSlots(reports);
    if TokensOf(reports) != [] {
      assert TokensOf(reports)[0] in TokensOf(reports);
    }
  }

  lemma CostCoverageMeans(rs: seq<Resolution>)
    ensures IsCostCoverage(CostCoverageOf(rs), rs)
  {
    hide CountIf, AmountsOf;
    CostCoverageIff(rs);
    KindsMean();
    CostSums(rs, IsAvailable, HasCost, AnyAmount);
    CostsSplit(rs);
  }

  lemma DetailsMean(reports: seq<Slot>, key: Key)
    ensures DetailFits(DetailOf(reports, key), reports, key)
  {
    hide TokensOf, Known, Sum, TokenCoverageOf, Turns, AddsUp;
    DetailTurns(reports, key);
    TotalsNeedEveryTurn(reports, key);
  }

  lemma TotalsAreComplete(reports: seq<Slot>)
    ensures TokenCoverageOf(reports) == Complete ==>
              && DetailOf(reports, InputTotal).total == DetailOf(reports, InputTotal).observed
              && DetailOf(reports, OutputTotal).total == DetailOf(reports, OutputTotal).observed
    ensures TokenCoverageOf(reports) != Complete ==>
              DetailOf(reports, InputTotal).total == None && DetailOf(reports, OutputTotal).total == None
  {
    hide TokensOf, Known, Sum;
    TokenCoverageIff(reports);
    TotalsNeedEveryTurn(reports, InputTotal);
    TotalsNeedEveryTurn(reports, OutputTotal);
  }

  /** Whatever was reported, every field of the accounting is the count or the sum over turns that it stands for. */
  lemma AccountsMean(reports: seq<Slot>, rs: seq<Resolution>, toolUses: nat, wallMs: nat)
    requires |rs| == |reports|
    ensures AccountsFit(AccountingOf(reports, rs, toolUses, wallMs), reports, rs, toolUses, wallMs)
  {
    hide TokensOf, Known, Sum, SumReal, CountIf, AmountsOf, DetailOf, TokenCoverageOf, CostCoverageOf, ReportedCost, Turns,
         IsTokenCoverage, IsCostCoverage, DetailFits, IsKnownSum;
    var a := AccountingOf(reports, rs, toolUses, wallMs);
    TokenTurns(reports);
    KindsMean();
    CostTurns(rs, IsReportedCost, WasReported);
    CostTurns(rs, IsEstimate, WasEstimated);
    CostTurns(rs, IsAvailable, HasCost);
    CostTurns(rs, IsPartialEstimate, WasEstimatedInPart);
    OthersLackCosts(rs);
    TokenCoverageMeans(reports);
    CostCoverageMeans(rs);
    TotalsAreComplete(reports);
    forall key: Key ensures key in a.details && DetailFits(a.details[key], reports, key) {
      KeysAreAll(key);
      DetailsMean(reports, key);
    }
    KnownCosts(rs, IsReportedCost, WasReported, ReportedAmount);
    KnownCosts(rs, IsEstimate, WasEstimated, EstimatedAmount);
    KnownCosts(rs, IsAvailable, HasCost, AnyAmount);
  }

  // -------------------------------------------------------------- what goes into an account

  /** A cost that no reader accepts. */
  predicate IsBadCost(c: Cost) {
    c.amount < 0.0 || !(c.source == "provider-reported" || c.source == "agent-estimate" || c.source == "account-estimate")
  }

  /** A slot with a bad cost, of its own or of one of its records, or with tokens of no coverage. */
  ghost predicate IsBadSlot(s: Slot) {
    s.Some? &&
    ((exists c :: s.value.cost == Some(c) && IsBadCost(c))
     || (s.value.tokens.Some? &&
         (s.value.tokens.value.coverage == Unavailable
          || exists records: seq<ModelRecord>, r: ModelRecord, c ::
               s.value.tokens.value.records == Some(records) && r in records && r.cost == Some(c) && IsBadCost(c))))
  }

  lemma SlotsAreBadIff(s: Slot)
    ensures IsBadSlot(s) <==> !ValidReport(s)
  {
    if s.Some? && s.value.tokens.Some? && s.value.tokens.value.records.Some? {
      var records := s.value.tokens.value.records.value;
      forall r | r in records && r.cost.Some? && !ValidCost(r.cost.value) ensures IsBadSlot(s) {
        assert s.value.tokens.value.records == Some(records) && r.cost == Some(r.cost.value) && IsBadCost(r.cost.value);
      }
    }
    if s.Some? && s.value.cost.Some? {
      assert s.value.cost == Some(s.value.cost.value);
      assert IsBadCost(s.value.cost.value) <==> !ValidCost(s.value.cost.value);
    }
  }

  /** Slots are read exactly when they have the current schema, one slot for every turn, and no bad slot. */
  lemma ReportsAreReadIff(schema2: bool, turns: nat, usageReports: Option<seq<Slot>>)
    ensures Reports(schema2, turns, usageReports) ==
            if usageReports.Some? && schema2 && |usageReports.value| == turns && !exists s :: s in usageReports.value && IsBadSlot(s)
            then usageReports else None
  {
    hide IsBadSlot, ValidReport;
    if usageReports.Some? {
      forall s ensures IsBadSlot(s) <==> !ValidReport(s) {
        SlotsAreBadIff(s);
      }
    }
  }

  /** The flat form loses nothing: read back, a recorded turn says what the library reported. */
  lemma NormalizedTurnsReadBack(usage: DoneUsage, durationMs: nat)
    ensures var t := Turn(Some(NormalizeUsage(usage)), durationMs);
            && SlotOf(t) == Some(usage) && ToolUsesOf(t) == usage.toolUses && WallOf(t) == durationMs
            && (IsReported(t) <==> usage.tokens.Some?)
            && InputOf(t) == (if usage.tokens.Some? then usage.tokens.value.totals[InputTotal] else 0)
            && OutputOf(t) == (if usage.tokens.Some? then usage.tokens.value.totals[OutputTotal] else 0)
            && FlatCost([t]) == if usage.cost.Some? then Some(usage.cost.value.amount) else None
  {
    var t := Turn(Some(NormalizeUsage(usage)), durationMs);
    FlatCostGrows([], t);
    assert [] + [t] == [t];
  }

  /** A turn's own cost resolves it; a turn without one is left for an estimate. */
  lemma NativeResolutionsMean(reports: seq<Slot>, i: nat)
    requires i < |reports|
    ensures |NativeResolutions(reports)| == |reports|
    ensures forall cost :: NativeResolutions(reports)[i] == Reported(cost) <==>
              reports[i].Some? && reports[i].value.cost == Some(cost)
    ensures !NativeResolutions(reports)[i].Estimated?
  {
  }

  /** What the parts of an aggregate had: all their slots and resolutions in order, and the sum of their counters. */
  lemma {:induction false} JoinedCountersAddUp(parts: seq<Part>)
    ensures Joined(parts).toolUses == AddsUp(parts, (p: Part) => p.toolUses)
    ensures Joined(parts).wallMs == AddsUp(parts, (p: Part) => p.wallMs)
    ensures |Joined(parts).slots| == AddsUp(parts, (p: Part) => |p.slots|)
    ensures forall p, s :: p in parts && s in p.slots ==> s in Joined(parts).slots
    ensures forall p, r :: p in parts && r in p.resolutions ==> r in Joined(parts).resolutions
  {
    hide AddsUp;
    if parts == [] {
      NothingAddsUp<Part>();
    } else {
      var n := |parts| - 1;
      JoinedCountersAddUp(parts[..n]);
      assert parts == parts[..n] + [parts[n]];
      OneMoreNumber(parts[..n], parts[n], (p: Part) => p.toolUses);
      OneMoreNumber(parts[..n], parts[n], (p: Part) => p.wallMs);
      OneMoreNumber(parts[..n], parts[n], (p: Part) => |p.slots|);
    }
  }

  // ----------------------------------------------------------------- the bucket's sum

  /** The sum of the reports: each detail that every reporting turn has, added up over the turns. */
  ghost predicate SumFits(sum: Option<TokenReport>, reports: seq<Slot>) {
    && (sum == None <==> forall s :: s in reports ==> !HasTokens(s))
    && (sum.Some? ==>
          && (sum.value.coverage == Complete <==> forall s :: s in reports ==> HasAll(s))
          && sum.value.coverage != Unavailable
          && (forall key: Key ::
                && (key in sum.value.totals <==> forall s :: s in reports && HasTokens(s) ==> HasDetail(key)(s))
                && (key in sum.value.totals ==> sum.value.totals[key] == AddsUp(reports, DetailIn(key)))))
  }

  lemma TokensAreOfSlots(reports: seq<Slot>)
    ensures forall t :: t in TokensOf(reports) ==> Some(t) in TokensIn(reports)
    ensures forall s :: s in reports && HasTokens(s) ==> s.value.tokens.value in TokensOf(reports)
  {
    hide TokensOf;
    TokensAreCounted(reports);
    TokensComeFromSlots(reports);
  }

  ghost function TokensIn(reports: seq<Slot>): set<Option<TokenReport>> {
    set s | s in reports && HasTokens(s) :: s.value.tokens
  }

  /** What the running bucket sums up is what the turns reported. */
  lemma SumsMean(sum: Option<TokenReport>, reports: seq<Slot>)
    requires IsSum(sum, reports)
    ensures SumFits(sum, reports)
  {
    hide TokensOf, Known, Sum, AddsUp;
    TokensAreOfSlots(reports);
    TokensAreCounted(reports);
    if TokensOf(reports) != [] {
      assert TokensOf(reports)[0] in TokensOf(reports);
    }
    forall key: Key ensures Sum(Known(TokensOf(reports), key)) == AddsUp(reports, DetailIn(key)) {
      DetailTurns(reports, key);
    }
    forall key: Key ensures InEvery(TokensOf(reports), key) <==> forall s :: s in reports && HasTokens(s) ==> HasDetail(key)(s) {
    }
  }

  /** Model records are kept in the order of the turns. */
  lemma {:induction false} RecordsJoin(a: seq<TokenReport>, b: seq<TokenReport>)
    requires forall t :: t in a + b ==> t.records.Some?
    ensures (forall t :: t in a ==> t.records.Some?) && forall t :: t in b ==> t.records.Some?
    ensures Records(a + b) == Records(a) + Records(b)
  {
    if b == [] {
      assert a + b == a;
    } else {
      var n := |b| - 1;
      assert (a + b)[..|a + b| - 1] == a + b[..n] && (a + b)[|a + b| - 1] == b[n];
      RecordsJoin(a, b[..n]);
    }
  }
}
