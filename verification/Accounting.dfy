/** The batch accounting over recorded report slots, and its agreement with the runtime's running bucket. */
module Accounting {
  import opened Options
  import opened Sums
  import opened Usage

  /** Where a turn's cost comes from. */
  datatype Resolution =
    | Reported(cost: Cost)
    | Estimated(amount: real, coverage: Coverage)
    | Unresolved

  datatype Detail = Detail(observed: Option<nat>, reportedTurns: nat, total: Option<nat>)

  datatype Accounts = Accounts(
    turns: nat, toolUses: nat, wallMs: nat,
    tokenCoverage: Coverage, tokenReportTurns: nat, completeTokenTurns: nat, partialTokenTurns: nat, missingTokenTurns: int,
    observedInputTokens: Option<nat>, observedOutputTokens: Option<nat>,
    inputTokens: Option<nat>, outputTokens: Option<nat>, details: map<Key, Detail>,
    costCoverage: Coverage, costReportTurns: nat, costEstimateTurns: nat, costAvailableTurns: nat,
    partialCostEstimateTurns: nat, missingCostTurns: int,
    reportedCostUsd: Option<real>, estimatedCostUsd: Option<real>, observedCostUsd: Option<real>, costUsd: Option<real>)

  // ------------------------------------------------------------- accepting a bucket

  predicate ValidCost(c: Cost) {
    c.amount >= 0.0 && c.source in {"provider-reported", "agent-estimate", "account-estimate"}
  }

  predicate ValidReport(slot: Slot) {
    slot.Some? ==>
      && (slot.value.tokens.Some? ==>
            && slot.value.tokens.value.coverage in {Complete, Partial}
            && (slot.value.tokens.value.records.Some? ==>
                  forall r :: r in slot.value.tokens.value.records.value ==> (r.cost.Some? ==> ValidCost(r.cost.value))))
      && (slot.value.cost.Some? ==> ValidCost(slot.value.cost.value))
  }

  /** `_reports`: only report-bearing usage with one valid slot per turn is read; None is the error. */
  function Reports(schema2: bool, turns: nat, usageReports: Option<seq<Slot>>): Option<seq<Slot>> {
    if schema2 && usageReports.Some? && |usageReports.value| == turns
       && (forall slot :: slot in usageReports.value ==> ValidReport(slot))
    then usageReports
    else None
  }

  // ------------------------------------------------------------------ batch accounting

  function NativeResolution(slot: Slot): Resolution {
    if slot.Some? && slot.value.cost.Some? then Reported(slot.value.cost.value) else Unresolved
  }

  function NativeResolutions(reports: seq<Slot>): seq<Resolution> {
    seq(|reports|, i requires 0 <= i < |reports| => NativeResolution(reports[i]))
  }

  function Amount(r: Resolution): real {
    match r
    case Reported(cost) => cost.amount
    case Estimated(amount, _) => amount
    case Unresolved => 0.0
  }

  predicate IsAvailable(r: Resolution) { !r.Unresolved? }
  predicate IsReportedCost(r: Resolution) { r.Reported? }
  predicate IsEstimate(r: Resolution) { r.Estimated? }
  predicate IsPartialEstimate(r: Resolution) { r.Estimated? && r.coverage == Partial }
  predicate IsComplete(t: TokenReport) { t.coverage == Complete }
  predicate IsPartial(t: TokenReport) { t.coverage == Partial }

  /** The amounts of the resolutions of one kind. */
  function AmountsOf(rs: seq<Resolution>, keep: Resolution -> bool): seq<real> {
    if rs == [] then []
    else AmountsOf(rs[..|rs| - 1], keep) + if keep(rs[|rs| - 1]) then [Amount(rs[|rs| - 1])] else []
  }

  function SumKnownValues(xs: seq<nat>): Option<nat> {
    if xs == [] then None else Some(Sum(xs))
  }

  function CoverageOf(reported: nat, total: nat, complete: bool): Coverage {
    if reported == 0 then Unavailable
    else if reported == total && complete then Complete
    else Partial
  }

  function TokenCoverageOf(reports: seq<Slot>): Coverage {
    CoverageOf(|TokensOf(reports)|, |reports|, forall t :: t in TokensOf(reports) ==> t.coverage == Complete)
  }

  function CostCoverageOf(rs: seq<Resolution>): Coverage {
    CoverageOf(CountIf(rs, IsAvailable), |rs|, forall r :: r in rs && r.Estimated? ==> r.coverage == Complete)
  }

  function DetailOf(reports: seq<Slot>, key: Key): Detail {
    var values := Known(TokensOf(reports), key);
    var observed := SumKnownValues(values);
    Detail(observed, |values|, if TokenCoverageOf(reports) == Complete && |values| == |reports| then observed else None)
  }

  function AccountingOf(reports: seq<Slot>, rs: seq<Resolution>, toolUses: nat, wallMs: nat): Accounts
    requires |rs| == |reports|
  {
    var tokens, coverage, costCoverage := TokensOf(reports), TokenCoverageOf(reports), CostCoverageOf(rs);
    var input, output := DetailOf(reports, InputTotal).observed, DetailOf(reports, OutputTotal).observed;
    var observedCost := ReportedCost(AmountsOf(rs, IsAvailable));
    Accounts(
      |reports|, toolUses, wallMs,
      coverage, |tokens|, CountIf(tokens, IsComplete), CountIf(tokens, IsPartial), |reports| - |tokens|,
      input, output, if coverage == Complete then input else None, if coverage == Complete then output else None,
      map key | key in KEYS :: DetailOf(reports, key),
      costCoverage, CountIf(rs, IsReportedCost), CountIf(rs, IsEstimate), CountIf(rs, IsAvailable),
      CountIf(rs, IsPartialEstimate), |rs| - CountIf(rs, IsAvailable),
      ReportedCost(AmountsOf(rs, IsReportedCost)), ReportedCost(AmountsOf(rs, IsEstimate)), observedCost,
      if costCoverage == Complete then observedCost else None)
  }

  // ------------------------------------------------------ conservation within one report

  lemma {:induction false} TokensAreCounted(reports: seq<Slot>)
    ensures |TokensOf(reports)| <= |reports|
    ensures |TokensOf(reports)| == |reports| <==> forall s :: s in reports ==> s.Some? && s.value.tokens.Some?
    ensures forall t :: t in TokensOf(reports) ==>
              exists s :: s in reports && s.Some? && s.value.tokens == Some(t)
  {
    if reports != [] {
      var shorter, last := reports[..|reports| - 1], reports[|reports| - 1];
      TokensAreCounted(shorter);
      assert reports == shorter + [last];
    }
  }

  lemma {:induction false} CoverageSplits(tokens: seq<TokenReport>)
    requires forall t :: t in tokens ==> t.coverage in {Complete, Partial}
    ensures CountIf(tokens, IsComplete) + CountIf(tokens, IsPartial) == |tokens|
    ensures CountIf(tokens, IsComplete) == |tokens| <==> forall t :: t in tokens ==> t.coverage == Complete
  {
    if tokens != [] {
      var shorter, last := tokens[..|tokens| - 1], tokens[|tokens| - 1];
      assert tokens == shorter + [last];
      CoverageSplits(shorter);
    }
  }

  lemma {:induction false} CostsSplit(rs: seq<Resolution>)
    ensures CountIf(rs, IsReportedCost) + CountIf(rs, IsEstimate) == CountIf(rs, IsAvailable)
    ensures |AmountsOf(rs, IsAvailable)| == CountIf(rs, IsAvailable)
    ensures SumReal(AmountsOf(rs, IsReportedCost)) + SumReal(AmountsOf(rs, IsEstimate)) == SumReal(AmountsOf(rs, IsAvailable))
  {
    hide SumReal;
    if rs == [] {
      assert SumReal([]) == 0.0 by { SumsOfNothing(); }
    } else {
      var shorter, last := rs[..|rs| - 1], rs[|rs| - 1];
      CostsSplit(shorter);
      SumRealGrows(AmountsOf(shorter, IsAvailable), Amount(last));
      SumRealGrows(AmountsOf(shorter, IsReportedCost), Amount(last));
      SumRealGrows(AmountsOf(shorter, IsEstimate), Amount(last));
      assert AmountsOf(rs, IsAvailable) == AmountsOf(shorter, IsAvailable) + if IsAvailable(last) then [Amount(last)] else [];
      assert AmountsOf(rs, IsReportedCost) == AmountsOf(shorter, IsReportedCost) + if IsReportedCost(last) then [Amount(last)] else [];
      assert AmountsOf(rs, IsEstimate) == AmountsOf(shorter, IsEstimate) + if IsEstimate(last) then [Amount(last)] else [];
      assert forall xs: seq<real> :: xs + [] == xs;
    }
  }

  function OrZeroReal(x: Option<real>): real { if x.Some? then x.value else 0.0 }

  /** Every turn is counted once on each side, and the reported and estimated costs make up the observed one. */
  lemma AccountsAreConserved(reports: seq<Slot>, rs: seq<Resolution>, toolUses: nat, wallMs: nat)
    requires |rs| == |reports| && forall s :: s in reports ==> ValidReport(s)
    ensures var a := AccountingOf(reports, rs, toolUses, wallMs);
            && a.completeTokenTurns + a.partialTokenTurns + a.missingTokenTurns == a.turns && a.missingTokenTurns >= 0
            && a.costReportTurns + a.costEstimateTurns + a.missingCostTurns == a.turns && a.missingCostTurns >= 0
            && OrZeroReal(a.reportedCostUsd) + OrZeroReal(a.estimatedCostUsd) == OrZeroReal(a.observedCostUsd)
            && (a.observedCostUsd == None <==> a.costAvailableTurns == 0)
            && (a.tokenCoverage == Complete <==> a.turns > 0 && a.completeTokenTurns == a.turns)
  {
    hide SumReal, CountIf, AmountsOf, TokensOf;
    TokensAreCounted(reports);
    forall t | t in TokensOf(reports) ensures t.coverage in {Complete, Partial} {
      var s :| s in reports && s.Some? && s.value.tokens == Some(t);
      assert ValidReport(s);
    }
    CoverageSplits(TokensOf(reports));
    CostsSplit(rs);
    SumsOfNothing();
  }

  /** A complete total of a detail needs a complete report with that detail from every turn. */
  lemma TotalsNeedEveryTurn(reports: seq<Slot>, key: Key)
    ensures DetailOf(reports, key).total.Some? <==>
            reports != [] && forall s :: s in reports ==>
              s.Some? && s.value.tokens.Some? && s.value.tokens.value.coverage == Complete && key in s.value.tokens.value.totals
    ensures DetailOf(reports, key).total.Some? ==> DetailOf(reports, key).total == DetailOf(reports, key).observed
  {
    hide TokensOf, Known, Sum;
    TokensAreCounted(reports);
    KnownAreCounted(TokensOf(reports), key);
    TokensComeFromSlots(reports);
  }

  lemma {:induction false} TokensComeFromSlots(reports: seq<Slot>)
    ensures forall s :: s in reports && s.Some? && s.value.tokens.Some? ==> s.value.tokens.value in TokensOf(reports)
  {
    if reports != [] {
      TokensComeFromSlots(reports[..|reports| - 1]);
      assert reports == reports[..|reports| - 1] + [reports[|reports| - 1]];
    }
  }

  predicate ReportsCompletely(slot: Slot) {
    slot.Some? && slot.value.tokens.Some? && slot.value.tokens.value.coverage == Complete
  }

  lemma TokenCoverageIff(reports: seq<Slot>)
    ensures TokenCoverageOf(reports) == Complete <==> reports != [] && forall s :: s in reports ==> ReportsCompletely(s)
  {
    hide TokensOf;
    TokensAreCounted(reports);
    TokensComeFromSlots(reports);
  }

  predicate CostsCompletely(r: Resolution) {
    r.Reported? || (r.Estimated? && r.coverage == Complete)
  }

  lemma CostCoverageIff(rs: seq<Resolution>)
    ensures CostCoverageOf(rs) == Complete <==> rs != [] && forall r :: r in rs ==> CostsCompletely(r)
  {
    hide CountIf;
    CountsAll(rs, IsAvailable);
  }

  /** A complete cost needs a reported or completely estimated cost from every turn. */
  lemma CostNeedsEveryTurn(reports: seq<Slot>, rs: seq<Resolution>, toolUses: nat, wallMs: nat)
    requires |rs| == |reports|
    ensures AccountingOf(reports, rs, toolUses, wallMs).costUsd.Some? <==>
            rs != [] && forall r :: r in rs ==> CostsCompletely(r)
  {
    hide SumReal, AmountsOf, CountIf, TokensOf, CostsCompletely;
    CostCoverageIff(rs);
    CountsAll(rs, IsAvailable);
    CostsSplit(rs);
  }

  // --------------------------------------------------------- agreement with the bucket

  lemma {:induction false} KnownAreCounted(tokens: seq<TokenReport>, key: Key)
    ensures |Known(tokens, key)| <= |tokens|
    ensures |Known(tokens, key)| == |tokens| <==> InEvery(tokens, key)
  {
    if tokens != [] {
      var shorter, last := tokens[..|tokens| - 1], tokens[|tokens| - 1];
      KnownAreCounted(shorter, key);
      assert tokens == shorter + [last];
    }
  }

  lemma {:induction false} NativeCostsAreTheCosts(reports: seq<Slot>)
    ensures AmountsOf(NativeResolutions(reports), IsAvailable) == CostsOf(reports)
    ensures CountIf(NativeResolutions(reports), IsAvailable) == |CostsOf(reports)|
  {
    if reports != [] {
      var shorter := reports[..|reports| - 1];
      NativeCostsAreTheCosts(shorter);
      assert NativeResolutions(reports)[..|reports| - 1] == NativeResolutions(shorter);
    }
  }

  /** Every usage came out of `normalizeUsage`. */
  ghost predicate FromReports(history: seq<Turn>) {
    forall t :: t in history && t.usage.Some? ==> exists u :: t.usage.value == NormalizeUsage(u)
  }

  lemma SlotAppends(history: seq<Turn>, t: Turn)
    ensures Slots(history + [t]) == Slots(history) + [SlotOf(t)]
    ensures TokensOf(Slots(history + [t])) == TokensOf(Slots(history)) +
            if SlotOf(t).Some? && SlotOf(t).value.tokens.Some? then [SlotOf(t).value.tokens.value] else []
  {
    var slots := Slots(history + [t]);
    assert slots == Slots(history) + [SlotOf(t)];
    assert slots[..|slots| - 1] == Slots(history);
  }

  lemma KnownTotalAppends(tokens: seq<TokenReport>, t: TokenReport, key: Key)
    requires key in t.totals
    ensures Sum(Known(tokens + [t], key)) == Sum(Known(tokens, key)) + t.totals[key]
  {
    assert (tokens + [t])[..|tokens|] == tokens;
    SumGrows(Known(tokens, key), t.totals[key]);
  }

  lemma {:induction false} ReportedTurnsHaveTokens(history: seq<Turn>)
    requires FromReports(history)
    ensures AllReported(history) <==> history != [] && |TokensOf(Slots(history))| == |history|
    ensures AllReported(history) ==>
              && Total(history, InputOf) == Sum(Known(TokensOf(Slots(history)), InputTotal))
              && Total(history, OutputOf) == Sum(Known(TokensOf(Slots(history)), OutputTotal))
  {
    hide Sum, Known, TokensOf, Slots, SlotOf, IsReported, InputOf, OutputOf, NormalizeUsage;
    if history != [] {
      var n := |history| - 1;
      var shorter, last := history[..n], history[n];
      var earlier := TokensOf(Slots(shorter));
      assert history == shorter + [last];
      ReportedTurnsHaveTokens(shorter);
      SlotAppends(shorter, last);
      HistoryGrows(shorter, last);
      TotalGrows(shorter, last, InputOf);
      TotalGrows(shorter, last, OutputOf);
      TokensAreCounted(Slots(shorter));
      NormalizedTurn(last);
      if IsReported(last) {
        KnownTotalAppends(earlier, SlotOf(last).value.tokens.value, InputTotal);
        KnownTotalAppends(earlier, SlotOf(last).value.tokens.value, OutputTotal);
        if shorter == [] {
          NoTurns();
        }
      }
    }
  }

  lemma NoTurns()
    ensures Slots([]) == [] && TokensOf([]) == []
    ensures Sum(Known([], InputTotal)) == 0 && Sum(Known([], OutputTotal)) == 0
    ensures Total([], InputOf) == 0 && Total([], OutputOf) == 0
  {
  }

  lemma NormalizedTurn(t: Turn)
    requires t.usage.Some? ==> exists u :: t.usage.value == NormalizeUsage(u)
    ensures IsReported(t) <==> SlotOf(t).Some? && SlotOf(t).value.tokens.Some?
    ensures IsReported(t) ==>
              && InputOf(t) == SlotOf(t).value.tokens.value.totals[InputTotal]
              && OutputOf(t) == SlotOf(t).value.tokens.value.totals[OutputTotal]
  {
  }

  /** The batch reader accepts a bucket's slots exactly when some turn carried a report and all slots are valid. */
  lemma BucketsAreAcceptedIff(history: seq<Turn>, schema2: bool, usageReports: Option<seq<Slot>>,
                              tokens: Option<TokenReport>, tokenCoverage: Option<Coverage>,
                              costUsd: Option<real>, costCoverage: Option<Coverage>)
    requires ReportsAre(history, schema2, usageReports, tokens, tokenCoverage, costUsd, costCoverage)
    ensures Reports(schema2, |history|, usageReports) ==
            if AnySchema2(history) && (forall t :: t in history ==> ValidReport(SlotOf(t))) then Some(Slots(history)) else None
  {
    hide ValidReport, Summarises;
    var slots := Slots(history);
    forall t | t in history ensures SlotOf(t) in slots {
      var i :| 0 <= i < |history| && history[i] == t;
      assert slots[i] == SlotOf(t);
    }
    forall s | s in slots ensures exists t :: t in history && SlotOf(t) == s {
      var i :| 0 <= i < |slots| && slots[i] == s;
      assert history[i] in history;
    }
  }

  /**
   * The running bucket and the batch accounting over its slots say the same: coverage of tokens and
   * cost, the observed totals, the cost, and for each detail a sum exactly when every report has it.
   */
  lemma BucketAgreesWithBatch(history: seq<Turn>, tokens: Option<TokenReport>, tokenCoverage: Option<Coverage>,
                              costUsd: Option<real>, costCoverage: Option<Coverage>, toolUses: nat, wallMs: nat)
    requires history != [] && Summarises(Slots(history), tokens, tokenCoverage, costUsd, costCoverage)
    ensures var a := AccountingOf(Slots(history), NativeResolutions(Slots(history)), toolUses, wallMs);
            && a.turns == |history|
            && Some(a.tokenCoverage) == tokenCoverage && Some(a.costCoverage) == costCoverage
            && a.observedCostUsd == costUsd
            && (a.tokenReportTurns == 0 <==> tokens == None)
            && a.observedInputTokens == (if tokens.Some? then Some(tokens.value.totals[InputTotal]) else None)
            && a.observedOutputTokens == (if tokens.Some? then Some(tokens.value.totals[OutputTotal]) else None)
            && (tokens.Some? ==> forall key: Key ::
                  (key in tokens.value.totals <==> DetailOf(Slots(history), key).reportedTurns == a.tokenReportTurns)
                  && (key in tokens.value.totals ==> DetailOf(Slots(history), key).observed == Some(tokens.value.totals[key])))
  {
    hide Sum, SumReal, CountIf, AmountsOf, TokensOf, CostsOf, Known;
    var slots := Slots(history);
    TokensAreCounted(slots);
    NativeCostsAreTheCosts(slots);
    forall key: Key
      ensures |Known(TokensOf(slots), key)| == |TokensOf(slots)| <==> InEvery(TokensOf(slots), key)
    {
      KnownAreCounted(TokensOf(slots), key);
    }
    assert InEvery(TokensOf(slots), InputTotal) && InEvery(TokensOf(slots), OutputTotal);
    assert forall r :: r in NativeResolutions(slots) ==> !r.Estimated?;
  }

  /**
   * The bucket's flat totals are there exactly when no turn lacks a token report. They equal the
   * batch reader's complete totals except when every turn reported but some report is partial: the
   * runtime then still shows the sums and the batch reader withholds them.
   */
  lemma FlatTotalsAgreeIff(history: seq<Turn>, turns: nat, wallMs: nat, toolUses: nat, reported: bool,
                           inputTokens: Option<nat>, outputTokens: Option<nat>, rs: seq<Resolution>)
    requires history != [] && FromReports(history) && |rs| == |history|
    requires CountsAre(history, turns, wallMs, toolUses, reported, inputTokens, outputTokens)
    ensures var a := AccountingOf(Slots(history), rs, toolUses, wallMs);
            && (reported <==> a.missingTokenTurns == 0)
            && (reported ==> inputTokens == a.observedInputTokens && outputTokens == a.observedOutputTokens)
            && (inputTokens == a.inputTokens && outputTokens == a.outputTokens
                <==> !(AllReported(history) && exists t :: t in history && !ReportsCompletely(SlotOf(t))))
  {
    hide Sum, CountIf, AmountsOf, TokensOf, Known, Total, SumReal, ReportsCompletely, SlotOf;
    var slots := Slots(history);
    TokensAreCounted(slots);
    ReportedTurnsHaveTokens(history);
    KnownAreCounted(TokensOf(slots), InputTotal);
    KnownAreCounted(TokensOf(slots), OutputTotal);
    assert InEvery(TokensOf(slots), InputTotal) && InEvery(TokensOf(slots), OutputTotal);
    TokenCoverageIff(slots);
    SlotsAreOfTurns(history);
    assert AllReported(history) ==> TokenCoverageOf(slots) != Unavailable;
  }

  lemma SlotsAreOfTurns(history: seq<Turn>)
    ensures forall t :: t in history ==> SlotOf(t) in Slots(history)
    ensures forall s :: s in Slots(history) ==> exists t :: t in history && SlotOf(t) == s
  {
    hide SlotOf;
    forall t | t in history ensures SlotOf(t) in Slots(history) {
      var i :| 0 <= i < |history| && history[i] == t;
      assert Slots(history)[i] == SlotOf(t);
    }
    forall s | s in Slots(history) ensures exists t :: t in history && SlotOf(t) == s {
      var i :| 0 <= i < |history| && Slots(history)[i] == s;
      assert history[i] in history;
    }
  }

  /** One turn that reports five tokens each way, but only partially. */
  const PARTIAL_TURN := Turn(Some(NormalizeUsage(
    DoneUsage(0, Some(TokenReport(Partial, map[InputTotal := 5, OutputTotal := 5], None)), None))), 0)

  /** The bucket then shows totals that the batch reader withholds. */
  lemma PartialReportsDisagree()
    ensures FromReports([PARTIAL_TURN])
    ensures CountsAre([PARTIAL_TURN], 1, 0, 0, true, Some(5), Some(5))
    ensures AccountingOf(Slots([PARTIAL_TURN]), [Unresolved], 0, 0).inputTokens == None
  {
    var history := [PARTIAL_TURN];
    assert history[..0] == [] && IsReported(PARTIAL_TURN);
    assert Total([], WallOf) == Total([], ToolUsesOf) == Total([], InputOf) == Total([], OutputOf) == 0;
    assert CountsAre(history, 1, 0, 0, true, Some(5), Some(5));
    assert PARTIAL_TURN in history && !ReportsCompletely(SlotOf(PARTIAL_TURN));
    FlatTotalsAgreeIff(history, 1, 0, 0, true, Some(5), Some(5), [Unresolved]);
    TokenCoverageIff(Slots(history));
    SlotsAreOfTurns(history);
  }

  // ------------------------------------------------------------------- aggregation

  lemma {:induction false} TokensJoin(a: seq<Slot>, b: seq<Slot>)
    ensures TokensOf(a + b) == TokensOf(a) + TokensOf(b)
  {
    if b == [] {
      assert a + b == a;
    } else {
      var n := |b| - 1;
      TokensJoin(a, b[..n]);
      assert (a + b)[..|a + b| - 1] == a + b[..n] && (a + b)[|a + b| - 1] == b[n];
    }
  }

  lemma {:induction false} KnownJoin(a: seq<TokenReport>, b: seq<TokenReport>, key: Key)
    ensures Known(a + b, key) == Known(a, key) + Known(b, key)
  {
    if b == [] {
      assert a + b == a;
    } else {
      var n := |b| - 1;
      KnownJoin(a, b[..n], key);
      assert (a + b)[..|a + b| - 1] == a + b[..n] && (a + b)[|a + b| - 1] == b[n];
    }
  }

  lemma {:induction false} AmountsJoin(a: seq<Resolution>, b: seq<Resolution>, keep: Resolution -> bool)
    ensures AmountsOf(a + b, keep) == AmountsOf(a, keep) + AmountsOf(b, keep)
  {
    if b == [] {
      assert a + b == a;
    } else {
      var n := |b| - 1;
      AmountsJoin(a, b[..n], keep);
      assert (a + b)[..|a + b| - 1] == a + b[..n] && (a + b)[|a + b| - 1] == b[n];
    }
  }

  /** What `_aggregate` takes from each accounting: its slots, one resolution per slot, and its counters. */
  datatype Part = Part(slots: seq<Slot>, resolutions: seq<Resolution>, toolUses: nat, wallMs: nat)

  ghost predicate WellFormed(parts: seq<Part>) {
    forall p :: p in parts ==> |p.resolutions| == |p.slots| && p.slots != []
  }

  function AccountsOf(p: Part): Accounts
    requires |p.resolutions| == |p.slots|
  {
    AccountingOf(p.slots, p.resolutions, p.toolUses, p.wallMs)
  }

  function Joined(parts: seq<Part>): Part {
    if parts == [] then Part([], [], 0, 0)
    else
      var before, last := Joined(parts[..|parts| - 1]), parts[|parts| - 1];
      Part(before.slots + last.slots, before.resolutions + last.resolutions,
           before.toolUses + last.toolUses, before.wallMs + last.wallMs)
  }

  /** What the parts observed of one detail, in how many turns, and at what cost. */
  function Observed(parts: seq<Part>, key: Key): nat {
    if parts == [] then 0
    else Observed(parts[..|parts| - 1], key) + OrZero(DetailOf(parts[|parts| - 1].slots, key).observed)
  }

  function ReportedTurns(parts: seq<Part>, key: Key): nat {
    if parts == [] then 0
    else ReportedTurns(parts[..|parts| - 1], key) + DetailOf(parts[|parts| - 1].slots, key).reportedTurns
  }

  function ObservedCost(parts: seq<Part>): real
    requires forall p :: p in parts ==> |p.resolutions| == |p.slots|
  {
    if parts == [] then 0.0
    else ObservedCost(parts[..|parts| - 1]) + OrZeroReal(AccountsOf(parts[|parts| - 1]).observedCostUsd)
  }

  lemma JoinedUnfolds(parts: seq<Part>)
    requires WellFormed(parts) && parts != []
    ensures var before, last := parts[..|parts| - 1], parts[|parts| - 1];
            && WellFormed(before) && last.slots != [] && |last.resolutions| == |last.slots|
            && Joined(parts).slots == Joined(before).slots + last.slots
            && Joined(parts).resolutions == Joined(before).resolutions + last.resolutions
            && parts == before + [last]
  {
    assert parts[|parts| - 1] in parts && forall p :: p in parts[..|parts| - 1] ==> p in parts;
  }

  lemma {:induction false} JoinedIsAligned(parts: seq<Part>)
    requires WellFormed(parts)
    ensures |Joined(parts).resolutions| == |Joined(parts).slots| && (Joined(parts).slots == [] <==> parts == [])
  {
    if parts != [] {
      JoinedUnfolds(parts);
      JoinedIsAligned(parts[..|parts| - 1]);
    }
  }

  lemma AccountsUnfold(p: Part)
    requires |p.resolutions| == |p.slots|
    ensures AccountsOf(p).observedCostUsd == ReportedCost(AmountsOf(p.resolutions, IsAvailable))
    ensures AccountsOf(p).tokenCoverage == TokenCoverageOf(p.slots)
    ensures AccountsOf(p).costCoverage == CostCoverageOf(p.resolutions)
  {
    hide TokensOf, DetailOf, CountIf, AmountsOf, TokenCoverageOf, CostCoverageOf;
  }

  /** Aggregating adds up, for every detail, what was observed and in how many turns. */
  lemma {:induction false} DetailsAddUp(parts: seq<Part>, key: Key)
    requires WellFormed(parts)
    ensures OrZero(DetailOf(Joined(parts).slots, key).observed) == Observed(parts, key)
    ensures DetailOf(Joined(parts).slots, key).reportedTurns == ReportedTurns(parts, key)
  {
    hide DetailOf;
    if parts == [] {
      NothingKnown(key);
    } else {
      var before, last := parts[..|parts| - 1], parts[|parts| - 1];
      JoinedUnfolds(parts);
      DetailsAddUp(before, key);
      DetailsJoin(Joined(before).slots, last.slots, key);
    }
  }

  lemma {:induction false} CostsAddUp(parts: seq<Part>)
    requires WellFormed(parts)
    ensures OrZeroReal(ReportedCost(AmountsOf(Joined(parts).resolutions, IsAvailable))) == ObservedCost(parts)
  {
    hide AmountsOf, AccountsOf, SumReal;
    if parts == [] {
      NothingKnown(InputTotal);
    } else {
      var before, last := parts[..|parts| - 1], parts[|parts| - 1];
      JoinedUnfolds(parts);
      CostsAddUp(before);
      CostsJoin(Joined(before).resolutions, last.resolutions);
      AccountsUnfold(last);
    }
  }

  lemma {:induction false} CoveragesAddUp(parts: seq<Part>)
    requires WellFormed(parts) && parts != []
    ensures TokenCoverageOf(Joined(parts).slots) == Complete <==>
              forall p :: p in parts ==> TokenCoverageOf(p.slots) == Complete
    ensures CostCoverageOf(Joined(parts).resolutions) == Complete <==>
              forall p :: p in parts ==> CostCoverageOf(p.resolutions) == Complete
  {
    hide TokenCoverageOf, CostCoverageOf;
    var before, last := parts[..|parts| - 1], parts[|parts| - 1];
    JoinedUnfolds(parts);
    JoinedIsAligned(before);
    CoveragesJoin(Joined(before), last);
    if before == [] {
      assert parts == [last];
    } else {
      CoveragesAddUp(before);
    }
  }

  /**
   * Aggregating adds up, for every detail, what was observed and in how many turns, and the cost; it
   * is complete, for tokens and for cost, exactly when every part is.
   */
  lemma AggregatesAddUp(parts: seq<Part>, key: Key)
    requires WellFormed(parts)
    ensures var all := Joined(parts);
            && |all.resolutions| == |all.slots|
            && OrZero(DetailOf(all.slots, key).observed) == Observed(parts, key)
            && DetailOf(all.slots, key).reportedTurns == ReportedTurns(parts, key)
            && OrZeroReal(AccountsOf(all).observedCostUsd) == ObservedCost(parts)
    ensures parts != [] ==>
              && (AccountsOf(Joined(parts)).tokenCoverage == Complete <==>
                    forall p :: p in parts ==> AccountsOf(p).tokenCoverage == Complete)
              && (AccountsOf(Joined(parts)).costCoverage == Complete <==>
                    forall p :: p in parts ==> AccountsOf(p).costCoverage == Complete)
  {
    hide AccountsOf, AmountsOf, DetailOf, TokenCoverageOf, CostCoverageOf, Joined, Observed, ReportedTurns, ObservedCost;
    JoinedIsAligned(parts);
    DetailsAddUp(parts, key);
    CostsAddUp(parts);
    AccountsUnfold(Joined(parts));
    forall p | p in parts
      ensures AccountsOf(p).tokenCoverage == TokenCoverageOf(p.slots) && AccountsOf(p).costCoverage == CostCoverageOf(p.resolutions)
    {
      AccountsUnfold(p);
    }
    if parts != [] {
      CoveragesAddUp(parts);
    }
  }

  lemma NothingKnown(key: Key)
    ensures DetailOf([], key).observed == None && DetailOf([], key).reportedTurns == 0
    ensures AmountsOf([], IsAvailable) == []
  {
  }

  lemma DetailsJoin(a: seq<Slot>, b: seq<Slot>, key: Key)
    ensures OrZero(DetailOf(a + b, key).observed) == OrZero(DetailOf(a, key).observed) + OrZero(DetailOf(b, key).observed)
    ensures DetailOf(a + b, key).reportedTurns == DetailOf(a, key).reportedTurns + DetailOf(b, key).reportedTurns
  {
    hide TokensOf, Known;
    TokensJoin(a, b);
    KnownJoin(TokensOf(a), TokensOf(b), key);
    SumJoin(Known(TokensOf(a), key), Known(TokensOf(b), key));
    SumsOfNothing();
  }

  lemma CostsJoin(a: seq<Resolution>, b: seq<Resolution>)
    ensures OrZeroReal(ReportedCost(AmountsOf(a + b, IsAvailable))) ==
            OrZeroReal(ReportedCost(AmountsOf(a, IsAvailable))) + OrZeroReal(ReportedCost(AmountsOf(b, IsAvailable)))
  {
    hide AmountsOf, SumReal;
    AmountsJoin(a, b, IsAvailable);
    SumRealJoin(AmountsOf(a, IsAvailable), AmountsOf(b, IsAvailable));
    SumsOfNothing();
  }

  lemma CoveragesJoin(a: Part, b: Part)
    requires b.slots != [] && |b.resolutions| == |b.slots| && |a.resolutions| == |a.slots|
    ensures TokenCoverageOf(a.slots + b.slots) == Complete <==>
            (a.slots == [] || TokenCoverageOf(a.slots) == Complete) && TokenCoverageOf(b.slots) == Complete
    ensures CostCoverageOf(a.resolutions + b.resolutions) == Complete <==>
            (a.slots == [] || CostCoverageOf(a.resolutions) == Complete) && CostCoverageOf(b.resolutions) == Complete
  {
    hide TokenCoverageOf, CostCoverageOf, ReportsCompletely, CostsCompletely;
    TokenCoverageIff(a.slots);
    TokenCoverageIff(b.slots);
    TokenCoverageIff(a.slots + b.slots);
    CostCoverageIff(a.resolutions);
    CostCoverageIff(b.resolutions);
    CostCoverageIff(a.resolutions + b.resolutions);
  }
}
