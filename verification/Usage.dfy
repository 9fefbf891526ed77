/** The runtime's running usage bucket: one turn at a time, per role. */
module Usage {
  import opened Options
  import opened Sums

  datatype Key = InputTotal | Uncached | CacheRead | CacheWrite | OutputTotal | Visible | Reasoning

  /** Both totals are always there; every other detail may be unknown. */
  type Totals = m: map<Key, nat> | InputTotal in m && OutputTotal in m witness map[InputTotal := 0, OutputTotal := 0]

  datatype Coverage = Complete | Partial | Unavailable

  datatype Cost = Cost(amount: real, source: string)

  datatype ModelRecord = ModelRecord(model: Option<string>, provider: Option<string>, tokens: Totals, cost: Option<Cost>)

  datatype TokenReport = TokenReport(coverage: Coverage, totals: Totals, records: Option<seq<ModelRecord>>)

  /** What the agent library reports at the end of a turn. */
  datatype DoneUsage = DoneUsage(toolUses: nat, tokens: Option<TokenReport>, cost: Option<Cost>)

  type Slot = Option<DoneUsage>

  /** The flat projection; `schema2` is false for usage recorded before reports existed. */
  datatype FlatUsage = FlatUsage(
    schema2: bool, reported: bool, inputTokens: Option<nat>, outputTokens: Option<nat>,
    toolUses: nat, costUsd: Option<real>, tokens: Option<TokenReport>, cost: Option<Cost>)

  datatype Turn = Turn(usage: Option<FlatUsage>, durationMs: nat)

  function NormalizeUsage(usage: DoneUsage): FlatUsage {
    FlatUsage(
      true, usage.tokens.Some?,
      if usage.tokens.Some? then Some(usage.tokens.value.totals[InputTotal]) else None,
      if usage.tokens.Some? then Some(usage.tokens.value.totals[OutputTotal]) else None,
      usage.toolUses,
      if usage.cost.Some? then Some(usage.cost.value.amount) else None,
      usage.tokens, usage.cost)
  }

  function OrZero(n: Option<nat>): nat { if n.Some? then n.value else 0 }

  // ---------------------------------------------------------- reports of many turns

  function TokensOf(reports: seq<Slot>): seq<TokenReport> {
    if reports == [] then []
    else
      var last := reports[|reports| - 1];
      TokensOf(reports[..|reports| - 1]) + if last.Some? && last.value.tokens.Some? then [last.value.tokens.value] else []
  }

  function CostsOf(reports: seq<Slot>): seq<real> {
    if reports == [] then []
    else
      var last := reports[|reports| - 1];
      CostsOf(reports[..|reports| - 1]) + if last.Some? && last.value.cost.Some? then [last.value.cost.value.amount] else []
  }

  /** The values of one detail, in the reports that have it. */
  function Known(tokens: seq<TokenReport>, key: Key): seq<nat> {
    if tokens == [] then []
    else
      var totals := tokens[|tokens| - 1].totals;
      Known(tokens[..|tokens| - 1], key) + if key in totals then [totals[key]] else []
  }

  function Records(tokens: seq<TokenReport>): seq<ModelRecord>
    requires forall t :: t in tokens ==> t.records.Some?
  {
    if tokens == [] then [] else Records(tokens[..|tokens| - 1]) + tokens[|tokens| - 1].records.value
  }

  const KEYS: seq<Key> := [InputTotal, Uncached, CacheRead, CacheWrite, OutputTotal, Visible, Reasoning]

  predicate InEvery(tokens: seq<TokenReport>, key: Key) {
    forall t :: t in tokens ==> key in t.totals
  }

  /** A detail missing from one report is unknown in the sum, never an implicit zero. */
  ghost predicate TotalsSum(totals: Totals, tokens: seq<TokenReport>) {
    forall key: Key :: (key in totals <==> InEvery(tokens, key)) && (key in totals ==> totals[key] == Sum(Known(tokens, key)))
  }

  ghost predicate IsSum(sum: Option<TokenReport>, reports: seq<Slot>) {
    var tokens := TokensOf(reports);
    && (sum == None <==> tokens == [])
    && (sum.Some? ==>
          && TotalsSum(sum.value.totals, tokens)
          && sum.value.coverage == (if |tokens| == |reports| && (forall t :: t in tokens ==> t.coverage == Complete)
                                    then Complete else Partial)
          && sum.value.records == (if forall t :: t in tokens ==> t.records.Some? then Some(Records(tokens)) else None))
  }

  method SumKnown(tokens: seq<TokenReport>, key: Key) returns (sum: Option<nat>)
    ensures sum == if InEvery(tokens, key) then Some(Sum(Known(tokens, key))) else None
  {
    hide Sum;
    var total := 0;
    assert Sum([]) == 0 by { SumsOfNothing(); }
    for i := 0 to |tokens|
      invariant InEvery(tokens[..i], key) && total == Sum(Known(tokens[..i], key))
    {
      assert tokens[..i + 1][..i] == tokens[..i];
      if key !in tokens[i].totals {
        return None;
      }
      SumGrows(Known(tokens[..i], key), tokens[i].totals[key]);
      total := total + tokens[i].totals[key];
    }
    assert tokens[..|tokens|] == tokens;
    sum := Some(total);
  }

  lemma KeysAreAll(key: Key)
    ensures exists i :: 0 <= i < |KEYS| && KEYS[i] == key
  {
    match key
    case InputTotal => assert KEYS[0] == key;
    case Uncached => assert KEYS[1] == key;
    case CacheRead => assert KEYS[2] == key;
    case CacheWrite => assert KEYS[3] == key;
    case OutputTotal => assert KEYS[4] == key;
    case Visible => assert KEYS[5] == key;
    case Reasoning => assert KEYS[6] == key;
  }

  method SumTotals(tokens: seq<TokenReport>) returns (totals: Totals)
    ensures TotalsSum(totals, tokens)
  {
    hide KEYS, Sum, Known;
    totals := map[InputTotal := 0, OutputTotal := 0];
    assert InEvery(tokens, InputTotal) && InEvery(tokens, OutputTotal);
    for i := 0 to |KEYS|
      invariant forall key :: key in totals ==> InEvery(tokens, key)
      invariant forall j :: 0 <= j < i ==>
                  (InEvery(tokens, KEYS[j]) ==> KEYS[j] in totals && totals[KEYS[j]] == Sum(Known(tokens, KEYS[j])))
    {
      var sum := SumKnown(tokens, KEYS[i]);
      if sum.Some? {
        totals := totals[KEYS[i] := sum.value];
      }
    }
    forall key: Key ensures InEvery(tokens, key) ==> key in totals && totals[key] == Sum(Known(tokens, key)) {
      KeysAreAll(key);
    }
  }

  method SumReports(reports: seq<Slot>) returns (sum: Option<TokenReport>)
    ensures IsSum(sum, reports)
  {
    var tokens := TokensOf(reports);
    if tokens == [] {
      return None;
    }
    var totals := SumTotals(tokens);
    var complete := |tokens| == |reports| && forall t :: t in tokens ==> t.coverage == Complete;
    sum := Some(TokenReport(
                  if complete then Complete else Partial, totals,
                  if forall t :: t in tokens ==> t.records.Some? then Some(Records(tokens)) else None));
  }

  // ------------------------------------------------------------- a history of turns

  /** The report slot of a turn: null when the turn gave no report or predates reports. */
  function SlotOf(t: Turn): Slot {
    if t.usage.Some? && t.usage.value.schema2
    then Some(DoneUsage(t.usage.value.toolUses, t.usage.value.tokens, t.usage.value.cost))
    else None
  }

  function Slots(history: seq<Turn>): (slots: seq<Slot>)
    ensures |slots| == |history|
  {
    seq(|history|, i requires 0 <= i < |history| => SlotOf(history[i]))
  }

  predicate IsSchema2(t: Turn) { t.usage.Some? && t.usage.value.schema2 }
  predicate IsReported(t: Turn) { t.usage.Some? && t.usage.value.reported }
  predicate AnySchema2(history: seq<Turn>) { exists t :: t in history && IsSchema2(t) }
  predicate AllReported(history: seq<Turn>) { history != [] && forall t :: t in history ==> IsReported(t) }

  function InputOf(t: Turn): nat { if t.usage.Some? then OrZero(t.usage.value.inputTokens) else 0 }
  function OutputOf(t: Turn): nat { if t.usage.Some? then OrZero(t.usage.value.outputTokens) else 0 }
  function ToolUsesOf(t: Turn): nat { if t.usage.Some? then t.usage.value.toolUses else 0 }
  function WallOf(t: Turn): nat { t.durationMs }

  function Total(history: seq<Turn>, amount: Turn -> nat): nat {
    if history == [] then 0 else Total(history[..|history| - 1], amount) + amount(history[|history| - 1])
  }

  /** The sum of the flat costs that were reported; None when none was. */
  function FlatCost(history: seq<Turn>): Option<real> {
    if history == [] then None
    else
      var before, last := FlatCost(history[..|history| - 1]), history[|history| - 1];
      if last.usage.Some? && last.usage.value.costUsd.Some?
      then Some((if before.Some? then before.value else 0.0) + last.usage.value.costUsd.value)
      else before
  }

  function ReportedCost(costs: seq<real>): Option<real> {
    if costs == [] then None else Some(SumReal(costs))
  }

  function CostCoverage(costs: seq<real>, turns: nat): Coverage {
    if |costs| == turns then Complete else if costs != [] then Partial else Unavailable
  }

  lemma TotalGrows(history: seq<Turn>, t: Turn, amount: Turn -> nat)
    ensures Total(history + [t], amount) == Total(history, amount) + amount(t)
  {
    assert (history + [t])[..|history|] == history;
  }

  lemma FlatCostGrows(history: seq<Turn>, t: Turn)
    ensures FlatCost(history + [t]) ==
            if t.usage.Some? && t.usage.value.costUsd.Some?
            then Some((if FlatCost(history).Some? then FlatCost(history).value else 0.0) + t.usage.value.costUsd.value)
            else FlatCost(history)
  {
    assert (history + [t])[..|history|] == history;
  }

  lemma HistoryGrows(history: seq<Turn>, t: Turn)
    ensures Slots(history + [t]) == Slots(history) + [SlotOf(t)]
    ensures AnySchema2(history + [t]) <==> AnySchema2(history) || IsSchema2(t)
    ensures AllReported(history + [t]) <==> (history == [] || AllReported(history)) && IsReported(t)
  {
    var longer := history + [t];
    assert longer[|history|] == t;
    assert forall u :: u in longer <==> u in history || u == t;
  }

  lemma NothingIsZero(amount: Turn -> nat)
    ensures Total([], amount) == 0 && !AllReported([])
  {
  }

  lemma NoReportsYet(history: seq<Turn>)
    requires !AnySchema2(history)
    ensures Slots(history) == seq(|history|, i => None)
  {
    assert forall i :: 0 <= i < |history| ==> history[i] in history && !IsSchema2(history[i]);
  }

  /** The counters and flat token totals of a history. */
  ghost predicate CountsAre(history: seq<Turn>, turns: nat, wallMs: nat, toolUses: nat, reported: bool,
                            inputTokens: Option<nat>, outputTokens: Option<nat>)
  {
    && turns == |history| && wallMs == Total(history, WallOf) && toolUses == Total(history, ToolUsesOf)
    && (reported <==> AllReported(history))
    && inputTokens == (if reported then Some(Total(history, InputOf)) else None)
    && outputTokens == (if reported then Some(Total(history, OutputOf)) else None)
  }

  ghost predicate Summarises(reports: seq<Slot>, tokens: Option<TokenReport>, tokenCoverage: Option<Coverage>,
                             costUsd: Option<real>, costCoverage: Option<Coverage>)
  {
    && IsSum(tokens, reports)
    && tokenCoverage == Some(if tokens.Some? then tokens.value.coverage else Unavailable)
    && costUsd == ReportedCost(CostsOf(reports))
    && costCoverage == Some(CostCoverage(CostsOf(reports), |reports|))
  }

  /** Everything derived from the report slots of a history, once any turn carries a report. */
  ghost predicate ReportsAre(history: seq<Turn>, schema2: bool, usageReports: Option<seq<Slot>>,
                             tokens: Option<TokenReport>, tokenCoverage: Option<Coverage>,
                             costUsd: Option<real>, costCoverage: Option<Coverage>)
  {
    && (schema2 <==> AnySchema2(history))
    && usageReports == (if schema2 then Some(Slots(history)) else None)
    && (if schema2 then Summarises(Slots(history), tokens, tokenCoverage, costUsd, costCoverage)
        else tokens == None && tokenCoverage == None && costCoverage == None && costUsd == FlatCost(history))
  }

  // ---------------------------------------------------------------------- the bucket

  class Bucket {
    var turns: nat
    var wallMs: nat
    var reported: bool
    var inputTokens: Option<nat>
    var outputTokens: Option<nat>
    var toolUses: nat
    var costUsd: Option<real>
    var schema2: bool
    var usageReports: Option<seq<Slot>>
    var tokens: Option<TokenReport>
    var tokenCoverage: Option<Coverage>
    var costCoverage: Option<Coverage>

    /** The turns accumulated so far. */
    ghost var history: seq<Turn>

    ghost predicate Valid()
      reads this
    {
      && CountsAre(history, turns, wallMs, toolUses, reported, inputTokens, outputTokens)
      && ReportsAre(history, schema2, usageReports, tokens, tokenCoverage, costUsd, costCoverage)
    }

    constructor ()
      ensures Valid() && history == []
    {
      turns, wallMs, toolUses := 0, 0, 0;
      reported, inputTokens, outputTokens, costUsd := false, None, None, None;
      schema2, usageReports, tokens, tokenCoverage, costCoverage := false, None, None, None, None;
      history := [];
    }

    /** `accumulateUsage`: after any sequence of turns the bucket is the batch summary of that sequence. */
    method AccumulateUsage(usage: Option<FlatUsage>, durationMs: nat)
      requires Valid()
      modifies this
      ensures Valid() && history == old(history) + [Turn(usage, durationMs)]
    {
      hide CountsAre, ReportsAre;
      var previousTurns := AccumulateCounts(usage, durationMs);
      AccumulateReports(usage, durationMs, previousTurns);
      history := history + [Turn(usage, durationMs)];
    }

    /** The counters and the flat token totals. */
    method AccumulateCounts(usage: Option<FlatUsage>, durationMs: nat) returns (previousTurns: nat)
      requires CountsAre(history, turns, wallMs, toolUses, reported, inputTokens, outputTokens)
      modifies this`turns, this`wallMs, this`reported, this`inputTokens, this`outputTokens, this`toolUses
      ensures CountsAre(history + [Turn(usage, durationMs)], turns, wallMs, toolUses, reported, inputTokens, outputTokens)
      ensures previousTurns == |history|
    {
      ghost var t := Turn(usage, durationMs);
      HistoryGrows(history, t);
      TotalGrows(history, t, WallOf);
      TotalGrows(history, t, ToolUsesOf);
      TotalGrows(history, t, InputOf);
      TotalGrows(history, t, OutputOf);
      NothingIsZero(InputOf);
      NothingIsZero(OutputOf);
      hide Total, FlatCost, Slots, AnySchema2, AllReported;
      previousTurns := turns;
      turns := turns + 1;
      wallMs := wallMs + durationMs;
      var previouslyReported := previousTurns == 0 || reported;
      if usage.Some? && usage.value.reported && previouslyReported {
        reported := true;
        inputTokens := Some(OrZero(inputTokens) + OrZero(usage.value.inputTokens));
        outputTokens := Some(OrZero(outputTokens) + OrZero(usage.value.outputTokens));
      } else {
        reported, inputTokens, outputTokens := false, None, None;
      }
      toolUses := toolUses + if usage.Some? then usage.value.toolUses else 0;
    }

    /** Cost, and, once any turn carries a report, everything derived from the report slots. */
    method AccumulateReports(usage: Option<FlatUsage>, ghost durationMs: nat, previousTurns: nat)
      requires ReportsAre(history, schema2, usageReports, tokens, tokenCoverage, costUsd, costCoverage)
      requires previousTurns == |history|
      modifies this`costUsd, this`schema2, this`usageReports, this`tokens, this`tokenCoverage, this`costCoverage
      ensures ReportsAre(history + [Turn(usage, durationMs)], schema2, usageReports, tokens, tokenCoverage,
                         costUsd, costCoverage)
    {
      hide Summarises, FlatCost, Slots, AnySchema2, Total, AllReported;
      ghost var t := Turn(usage, durationMs);
      HistoryGrows(history, t);
      FlatCostGrows(history, t);
      if usage.Some? && usage.value.costUsd.Some? {
        costUsd := Some((if costUsd.Some? then costUsd.value else 0.0) + usage.value.costUsd.value);
      }
      if (usage.Some? && usage.value.schema2) || schema2 {
        if usageReports == None {
          NoReportsYet(history);
          usageReports := Some(seq(previousTurns, i => None));
        }
        schema2 := true;
        var slot := None;
        if usage.Some? && usage.value.schema2 {
          slot := Some(DoneUsage(usage.value.toolUses, usage.value.tokens, usage.value.cost));
        }
        usageReports := Some(usageReports.value + [slot]);
        tokens, tokenCoverage, costUsd, costCoverage := Summarise(usageReports.value, previousTurns + 1);
      }
    }
  }

  method Summarise(reports: seq<Slot>, turns: nat)
    returns (tokens: Option<TokenReport>, tokenCoverage: Option<Coverage>, costUsd: Option<real>,
             costCoverage: Option<Coverage>)
    requires turns == |reports|
    ensures Summarises(reports, tokens, tokenCoverage, costUsd, costCoverage)
  {
    hide IsSum, CostsOf, SumReal;
    tokens := SumReports(reports);
    tokenCoverage := Some(if tokens.Some? then tokens.value.coverage else Unavailable);
    var costs := CostsOf(reports);
    costUsd := if costs != [] then Some(SumReal(costs)) else None;
    costCoverage := Some(if |costs| == turns then Complete else if costs != [] then Partial else Unavailable);
  }
}
