/** The strict review protocol over free text: which region is the answer, and what it decides. */
module ReviewSchema {
  import opened Options
  import opened Scanner
  import Json
  import JsonPrint

  // --------------------------------------------------------------- candidates

  /** A region and its value when it is a JSON object. */
  datatype Candidate = Candidate(raw: string, start: nat, end: nat, value: Option<seq<Json.Member>>)

  function MakeCandidate(text: string, span: Span): Candidate
    requires span.start <= span.end <= |text|
  {
    var raw := text[span.start..span.end];
    var parsed := Json.Parse(raw);
    Candidate(raw, span.start, span.end,
              if parsed.Some? && parsed.value.Object? then Some(parsed.value.members) else None)
  }

  function Candidates(text: string): seq<Candidate> {
    var spans := Spans(text);
    RegionsFormAForest(text);
    seq(|spans|, i requires 0 <= i < |spans| => MakeCandidate(text, spans[i]))
  }

  /** `other` parsed and encloses `c`. */
  predicate Swallows(other: Candidate, c: Candidate) {
    other.value.Some? && other.start < c.start && c.end <= other.end
  }

  predicate IsEligible(c: Candidate, all: seq<Candidate>) {
    !exists i :: 0 <= i < |all| && Swallows(all[i], c)
  }

  function KeepEligible(candidates: seq<Candidate>, all: seq<Candidate>): seq<Candidate> {
    if candidates == [] then []
    else (if IsEligible(candidates[0], all) then [candidates[0]] else []) + KeepEligible(candidates[1..], all)
  }

  /** Candidates not enclosed by one that parsed, in order. */
  function EligibleCandidates(text: string): seq<Candidate> {
    KeepEligible(Candidates(text), Candidates(text))
  }

  predicate Makes(text: string, span: Span, c: Candidate) {
    span.start <= span.end <= |text| && c == MakeCandidate(text, span)
  }

  /** The scanner as the runtime runs it: one pass with a stack and two flags. */
  method JsonObjectCandidates(text: string) returns (candidates: seq<Candidate>)
    ensures candidates == Candidates(text)
  {
    hide MakeCandidate, Run;
    var opens: seq<nat>, inString, escaped := [], false, false;
    ghost var closed: seq<Span> := [];
    candidates := [];
    for i := 0 to |text|
      invariant Run(text, i, |text|, Scan(opens, closed, inString, escaped)) == Final(text)
      invariant forall k :: 0 <= k < |opens| ==> opens[k] < i
      invariant |candidates| == |closed|
      invariant forall k :: 0 <= k < |closed| ==> Makes(text, closed[k], candidates[k])
    {
      ghost var before := Scan(opens, closed, inString, escaped);
      var c := text[i];
      if inString {
        if c == '\n' {
          inString, escaped := false, false;
        } else if escaped {
          escaped := false;
        } else if c == '\\' {
          escaped := true;
        } else if c == '"' {
          inString := false;
        }
      } else if c == '"' {
        inString := true;
      } else if c == '{' {
        opens := opens + [i];
      } else if c == '}' && |opens| > 0 {
        var start := opens[|opens| - 1];
        opens := opens[..|opens| - 1];
        candidates := candidates + [MakeCandidate(text, Span(start, i + 1))];
        closed := closed + [Span(start, i + 1)];
      }
      RunUnfolds(text, i, |text|, before);
      assert Step(before, i, c) == Scan(opens, closed, inString, escaped);
    }
    RunUnfolds(text, |text|, |text|, Scan(opens, closed, inString, escaped));
    candidates := AddOpenRegions(text, opens, candidates, closed);
  }

  /** Every brace still open at the end, innermost first. */
  method AddOpenRegions(text: string, opens: seq<nat>, ended: seq<Candidate>, ghost closed: seq<Span>)
    returns (candidates: seq<Candidate>)
    requires Final(text).opens == opens && Final(text).closed == closed && |ended| == |closed|
    requires forall k :: 0 <= k < |opens| ==> opens[k] < |text|
    requires forall k :: 0 <= k < |closed| ==> Makes(text, closed[k], ended[k])
    ensures candidates == Candidates(text)
  {
    hide MakeCandidate, Final;
    candidates := ended;
    ghost var spans := Spans(text);
    var index := |opens|;
    while index > 0
      invariant 0 <= index <= |opens|
      invariant |candidates| == |closed| + |opens| - index
      invariant forall k :: 0 <= k < |candidates| ==> Makes(text, spans[k], candidates[k])
    {
      index := index - 1;
      candidates := candidates + [MakeCandidate(text, Span(opens[index], |text|))];
    }
  }

  lemma {:induction false} KeepEligibleMembers(candidates: seq<Candidate>, all: seq<Candidate>, c: Candidate)
    ensures c in KeepEligible(candidates, all) <==> c in candidates && IsEligible(c, all)
  {
    if candidates != [] {
      KeepEligibleMembers(candidates[1..], all, c);
      assert candidates == [candidates[0]] + candidates[1..];
    }
  }

  lemma KeepEligibleUnfolds(c: Candidate, rest: seq<Candidate>, all: seq<Candidate>)
    ensures KeepEligible([c] + rest, all) == KeepEligible([c], all) + KeepEligible(rest, all)
  {
    hide IsEligible;
    assert ([c] + rest)[1..] == rest && [c][1..] == [];
  }

  lemma {:induction false} KeepEligibleConcat(a: seq<Candidate>, b: seq<Candidate>, all: seq<Candidate>)
    ensures KeepEligible(a + b, all) == KeepEligible(a, all) + KeepEligible(b, all)
    decreases |a|
  {
    hide KeepEligible;
    if a == [] {
      assert a + b == b && KeepEligible([], all) == [] by {
        NothingToKeep(all);
      }
    } else {
      var c, rest := a[0], a[1..];
      KeepEligibleConcat(rest, b, all);
      KeepEligibleUnfolds(c, rest, all);
      KeepEligibleUnfolds(c, rest + b, all);
      assert a == [c] + rest && a + b == [c] + (rest + b);
    }
  }

  lemma NothingToKeep(all: seq<Candidate>)
    ensures KeepEligible([], all) == []
  {
  }

  predicate Disjoint(a: Candidate, b: Candidate) {
    a.end <= b.start || b.end <= a.start
  }

  lemma CandidatesFormAForest(text: string, a: Candidate, b: Candidate)
    requires a in Candidates(text) && b in Candidates(text) && a != b
    ensures a.start != b.start
    ensures Disjoint(a, b) || (a.start < b.start && b.end <= a.end) || (b.start < a.start && a.end <= b.end)
  {
    hide Spans, Json.Parse;
    RegionsFormAForest(text);
    var i :| 0 <= i < |Candidates(text)| && Candidates(text)[i] == a;
    var j :| 0 <= j < |Candidates(text)| && Candidates(text)[j] == b;
  }

  /** The outermost parsed region around a candidate that a parsed region encloses. */
  lemma {:induction false} OutermostSwallower(text: string, c: Candidate, other: Candidate)
    returns (outer: Candidate)
    requires c in Candidates(text) && other in Candidates(text) && Swallows(other, c)
    ensures outer in EligibleCandidates(text) && Swallows(outer, c)
    decreases other.start
  {
    hide Candidates, Json.Parse;
    var all := Candidates(text);
    if IsEligible(other, all) {
      outer := other;
      KeepEligibleMembers(all, all, other);
    } else {
      var i :| 0 <= i < |all| && Swallows(all[i], other);
      outer := OutermostSwallower(text, c, all[i]);
    }
  }

  /**
   * The parsed eligible regions are exactly the outermost parsed ones, they are pairwise disjoint,
   * and every discarded region lies inside one of them.
   */
  lemma EligibleAreOutermost(text: string)
    ensures forall c :: c in EligibleCandidates(text) && c.value.Some? <==>
              c in Candidates(text) && c.value.Some? && forall o :: o in Candidates(text) ==> !Swallows(o, c)
    ensures forall a, b :: (a in EligibleCandidates(text) && b in EligibleCandidates(text)
                            && a.value.Some? && b.value.Some? && a != b) ==> Disjoint(a, b)
    ensures forall c :: c in Candidates(text) && c !in EligibleCandidates(text) ==>
              exists o :: o in EligibleCandidates(text) && Swallows(o, c)
  {
    hide Candidates, Json.Parse, KeepEligible;
    var all := Candidates(text);
    forall c
      ensures c in EligibleCandidates(text) <==> c in all && forall o :: o in all ==> !Swallows(o, c)
    {
      KeepEligibleMembers(all, all, c);
    }
    forall a, b | a in EligibleCandidates(text) && b in EligibleCandidates(text)
                  && a.value.Some? && b.value.Some? && a != b
      ensures Disjoint(a, b)
    {
      CandidatesFormAForest(text, a, b);
      assert !Swallows(a, b) && !Swallows(b, a);
    }
    forall c | c in all && c !in EligibleCandidates(text)
      ensures exists o :: o in EligibleCandidates(text) && Swallows(o, c)
    {
      KeepEligibleMembers(all, all, c);
      var i :| 0 <= i < |all| && Swallows(all[i], c);
      var outer := OutermostSwallower(text, c, all[i]);
    }
  }

  // ----------------------------------------------------------------- own keys

  /** What JavaScript's `\s` and `trim` take for white space. */
  predicate IsBlank(c: char) {
    var n := c as int;
    9 <= n <= 13 || n in {0x20, 0xA0, 0x1680, 0x2028, 0x2029, 0x202F, 0x205F, 0x3000, 0xFEFF} || 0x2000 <= n <= 0x200A
  }

  function SkipBlanks(s: string, i: nat): (j: nat)
    requires i <= |s|
    ensures i <= j <= |s|
    decreases |s| - i
  {
    if i < |s| && IsBlank(s[i]) then SkipBlanks(s, i + 1) else i
  }

  predicate ColonFollows(s: string, i: nat)
    requires i <= |s|
  {
    var j := SkipBlanks(s, i);
    j < |s| && s[j] == ':'
  }

  /** Whether a position belongs to another candidate nested in this one. */
  predicate IsInsideNested(position: nat, c: Candidate, all: seq<Candidate>) {
    exists i :: 0 <= i < |all|
      && c.start < all[i].start <= position && position < all[i].end <= c.end
  }

  predicate OwnKeyAt(c: Candidate, all: seq<Candidate>, needle: string, i: nat, depth: int) {
    && depth == 1 && Json.StartsWith(c.raw, needle, i) && ColonFollows(c.raw, i + |needle|)
    && !IsInsideNested(c.start + i, c, all)
  }

  /** The textual search for an own key, from position i of the region. */
  predicate DeclaresFrom(c: Candidate, all: seq<Candidate>, needle: string, i: nat,
                         depth: int, inString: bool, escaped: bool)
    requires i <= |c.raw|
    decreases |c.raw| - i
  {
    if i == |c.raw| then false
    else
      var ch := c.raw[i];
      if inString then
        if ch == '\n' then DeclaresFrom(c, all, needle, i + 1, depth, false, false)
        else if escaped then DeclaresFrom(c, all, needle, i + 1, depth, true, false)
        else if ch == '\\' then DeclaresFrom(c, all, needle, i + 1, depth, true, true)
        else DeclaresFrom(c, all, needle, i + 1, depth, ch != '"', false)
      else if ch == '"' then
        OwnKeyAt(c, all, needle, i, depth) || DeclaresFrom(c, all, needle, i + 1, depth, true, escaped)
      else
        DeclaresFrom(c, all, needle, i + 1,
                     if ch == '{' then depth + 1 else if ch == '}' then depth - 1 else depth, false, escaped)
  }

  function Needle(key: string): string { "\"" + key + "\"" }

  predicate DeclaresOwnKey(c: Candidate, all: seq<Candidate>, key: string) {
    DeclaresFrom(c, all, Needle(key), 0, 0, false, false)
  }

  method ScanForOwnKey(c: Candidate, all: seq<Candidate>, key: string) returns (found: bool)
    ensures found <==> DeclaresOwnKey(c, all, key)
  {
    hide OwnKeyAt;
    var needle := Needle(key);
    var depth, inString, escaped := 0, false, false;
    for i := 0 to |c.raw|
      invariant DeclaresOwnKey(c, all, key) <==> DeclaresFrom(c, all, needle, i, depth, inString, escaped)
    {
      var ch := c.raw[i];
      if inString {
        if ch == '\n' {
          inString, escaped := false, false;
        } else if escaped {
          escaped := false;
        } else if ch == '\\' {
          escaped := true;
        } else if ch == '"' {
          inString := false;
        }
        continue;
      }
      if ch == '"' {
        if OwnKeyAt(c, all, needle, i, depth) {
          return true;
        }
        inString := true;
      } else if ch == '{' {
        depth := depth + 1;
      } else if ch == '}' {
        depth := depth - 1;
      }
    }
    return false;
  }

  /** A declared key really stands in the text, outside every nested candidate. */
  lemma {:induction false} DeclarationsAreLiteral(c: Candidate, all: seq<Candidate>, needle: string, i: nat,
                                                  depth: int, inString: bool, escaped: bool) returns (at: nat)
    requires i <= |c.raw| && DeclaresFrom(c, all, needle, i, depth, inString, escaped)
    ensures i <= at && Json.StartsWith(c.raw, needle, at) && ColonFollows(c.raw, at + |needle|)
    ensures !IsInsideNested(c.start + at, c, all)
    decreases |c.raw| - i
  {
    hide Json.StartsWith, ColonFollows, IsInsideNested;
    var ch := c.raw[i];
    if inString {
      if ch == '\n' {
        at := DeclarationsAreLiteral(c, all, needle, i + 1, depth, false, false);
      } else if escaped {
        at := DeclarationsAreLiteral(c, all, needle, i + 1, depth, true, false);
      } else if ch == '\\' {
        at := DeclarationsAreLiteral(c, all, needle, i + 1, depth, true, true);
      } else {
        at := DeclarationsAreLiteral(c, all, needle, i + 1, depth, ch != '"', false);
      }
    } else if ch == '"' {
      if OwnKeyAt(c, all, needle, i, depth) {
        at := i;
      } else {
        at := DeclarationsAreLiteral(c, all, needle, i + 1, depth, true, escaped);
      }
    } else {
      at := DeclarationsAreLiteral(c, all, needle, i + 1,
              if ch == '{' then depth + 1 else if ch == '}' then depth - 1 else depth, false, escaped);
    }
  }

  // ------------------------------------------------------------------ reviews

  datatype ReviewError =
    | EmptyOutput | DamagedVerdict | NoObject | Ambiguous(objects: nat)
    | BadVerdict | FindingsNotArray | FindingNotObject(index: nat) | BadSeverity(index: nat) | MissingIssue(index: nat)

  datatype Parsed<+T> = Ok(value: T) | Err(error: ReviewError)

  datatype Severity = Critical | Major | Minor | Suggestion
  datatype Verdict = Approve | Revise

  datatype Finding = Finding(
    id: Option<Json.Str>, severity: Severity, file: Option<Json.Str>, line: Option<string>,
    issue: Json.Str, evidence: Option<Json.Str>, requiredChange: Option<Json.Str>)

  datatype Review = Review(
    verdict: Option<Verdict>, summary: Json.Str, findings: seq<Finding>,
    hasBlockingFindings: bool, verdictMismatch: bool, raw: seq<Json.Member>)

  function Field(record: seq<Json.Member>, key: string): Option<Json.Value> {
    Json.Lookup(record, Json.Units(key))
  }

  /** A non-empty string field. */
  function TextField(record: seq<Json.Member>, key: string): Option<Json.Str> {
    match Field(record, key)
    case Some(String(s)) => if s == [] then None else Some(s)
    case _ => None
  }

  function OrElse<T>(a: Option<T>, b: Option<T>): Option<T> { if a.Some? then a else b }

  /** Lower case of the letters that the fixed words are made of. */
  function Lower(s: Json.Str): Json.Str {
    seq(|s|, i requires 0 <= i < |s| => if 'A' as int <= s[i] <= 'Z' as int then s[i] + 32 else s[i])
  }

  function SeverityOf(s: Json.Str): Option<Severity> {
    var word := Lower(s);
    if word == Json.Units("critical") then Some(Critical)
    else if word == Json.Units("major") then Some(Major)
    else if word == Json.Units("minor") then Some(Minor)
    else if word == Json.Units("suggestion") then Some(Suggestion)
    else None
  }

  predicate IsBlocking(f: Finding) { f.severity in {Critical, Major} }

  function ParseFinding(item: Json.Value, index: nat): Parsed<Finding> {
    if !item.Object? then Err(FindingNotObject(index))
    else
      var record := item.members;
      var named := TextField(record, "severity");
      var severity := if named == None then None else SeverityOf(named.value);
      var issue := OrElse(TextField(record, "issue"), TextField(record, "summary"));
      var line := Field(record, "line");
      if severity == None then Err(BadSeverity(index))
      else if issue == None then Err(MissingIssue(index))
      else Ok(Finding(TextField(record, "id"), severity.value, TextField(record, "file"),
                      if line.Some? && line.value.Number? then Some(line.value.lexeme) else None,
                      issue.value, TextField(record, "evidence"),
                      OrElse(TextField(record, "required_change"), TextField(record, "requiredChange"))))
  }

  function ParseFindings(items: seq<Json.Value>, index: nat): (r: Parsed<seq<Finding>>)
    ensures r.Ok? ==> |r.value| == |items|
  {
    if items == [] then Ok([])
    else
      var first := ParseFinding(items[0], index);
      if first.Err? then Err(first.error)
      else
        var rest := ParseFindings(items[1..], index + 1);
        if rest.Err? then rest else Ok([first.value] + rest.value)
  }

  function VerdictOf(record: seq<Json.Member>): Parsed<Option<Verdict>> {
    match TextField(record, "verdict")
    case None => Ok(None)
    case Some(s) =>
      if Lower(s) == Json.Units("approve") then Ok(Some(Approve))
      else if Lower(s) == Json.Units("revise") then Ok(Some(Revise))
      else Err(BadVerdict)
  }

  function BuildReview(record: seq<Json.Member>): Parsed<Review> {
    var verdict := VerdictOf(record);
    var listed := Field(record, "findings");
    if verdict.Err? then Err(verdict.error)
    else if !(listed.Some? && listed.value.Array?) then Err(FindingsNotArray)
    else
      var findings := ParseFindings(listed.value.items, 0);
      if findings.Err? then Err(findings.error)
      else
        var blocking := exists i :: 0 <= i < |findings.value| && IsBlocking(findings.value[i]);
        Ok(Review(verdict.value, OrElse(TextField(record, "summary"), Some([])).value, findings.value, blocking,
                  verdict.value.Some? && (verdict.value == Some(Approve)) == blocking, record))
  }

  /** Findings alone decide; the verdict field can only be flagged as contradicting them. */
  lemma FindingsDecide(record: seq<Json.Member>)
    requires BuildReview(record).Ok?
    ensures var review, items := BuildReview(record).value, Field(record, "findings").value.items;
            && |review.findings| == |items|
            && (forall i :: 0 <= i < |items| ==> ParseFinding(items[i], i) == Ok(review.findings[i]))
            && (review.hasBlockingFindings <==> exists f :: f in review.findings && f.severity in {Critical, Major})
            && (review.verdictMismatch <==>
                  && review.verdict.Some?
                  && (review.verdict.value == Approve <==> review.hasBlockingFindings))
  {
    var review, items := BuildReview(record).value, Field(record, "findings").value.items;
    FindingsInOrder(items, 0);
  }

  lemma {:induction false} FindingsInOrder(items: seq<Json.Value>, index: nat)
    requires ParseFindings(items, index).Ok?
    ensures forall i :: 0 <= i < |items| ==> ParseFinding(items[i], index + i) == Ok(ParseFindings(items, index).value[i])
  {
    if items != [] {
      FindingsInOrder(items[1..], index + 1);
      forall i | 0 <= i < |items|
        ensures ParseFinding(items[i], index + i) == Ok(ParseFindings(items, index).value[i])
      {
        if i > 0 {
          assert items[i] == items[1..][i - 1];
          assert ParseFinding(items[1..][i - 1], index + 1 + (i - 1)) == Ok(ParseFindings(items[1..], index + 1).value[i - 1]);
        }
      }
    }
  }

  const VERDICT := "verdict"
  const RESOLUTIONS := "resolutions"

  /** A candidate states a key: its object has it, or its damaged text declares it. */
  predicate States(c: Candidate, all: seq<Candidate>, key: string) {
    if c.value.Some? then Field(c.value.value, key).Some? else DeclaresOwnKey(c, all, key)
  }

  function Objects(candidates: seq<Candidate>): seq<seq<Json.Member>> {
    if candidates == [] then []
    else (if candidates[0].value.Some? then [candidates[0].value.value] else []) + Objects(candidates[1..])
  }

  /** The last of the first n candidates that states a verdict decides, whether or not it is intact. */
  function SelectReview(candidates: seq<Candidate>, n: nat): Parsed<Review>
    requires n <= |candidates|
  {
    if n == 0 then
      var objects := Objects(candidates);
      if |objects| == 1 then BuildReview(objects[0])
      else if |objects| == 0 then Err(NoObject)
      else Err(Ambiguous(|objects|))
    else if States(candidates[n - 1], candidates, VERDICT) then
      if candidates[n - 1].value.Some? then BuildReview(candidates[n - 1].value.value) else Err(DamagedVerdict)
    else SelectReview(candidates, n - 1)
  }

  function ParseReview(text: string): Parsed<Review> {
    if SkipBlanks(text, 0) == |text| then Err(EmptyOutput)
    else
      var candidates := EligibleCandidates(text);
      SelectReview(candidates, |candidates|)
  }

  method ReadReview(text: string) returns (review: Parsed<Review>)
    ensures review == ParseReview(text)
  {
    hide KeepEligible, DeclaresOwnKey, Candidates, BuildReview;
    if SkipBlanks(text, 0) == |text| {
      return Err(EmptyOutput);
    }
    var regions := JsonObjectCandidates(text);
    var candidates := KeepEligible(regions, regions);
    var index := |candidates|;
    while index > 0
      invariant 0 <= index <= |candidates|
      invariant SelectReview(candidates, index) == SelectReview(candidates, |candidates|)
    {
      var c := candidates[index - 1];
      if c.value.Some? && Field(c.value.value, VERDICT).Some? {
        return BuildReview(c.value.value);
      }
      if c.value == None {
        var declares := ScanForOwnKey(c, candidates, VERDICT);
        if declares {
          return Err(DamagedVerdict);
        }
      }
      index := index - 1;
    }
    var objects := Objects(candidates);
    if |objects| == 1 {
      return BuildReview(objects[0]);
    }
    return Err(if |objects| == 0 then NoObject else Ambiguous(|objects|));
  }

  /** The blocking flag says what the findings say. */
  ghost predicate Consistent(review: Review) {
    review.hasBlockingFindings <==> exists f :: f in review.findings && f.severity in {Critical, Major}
  }

  lemma {:induction false} SelectedReviewsAreConsistent(candidates: seq<Candidate>, n: nat)
    requires n <= |candidates| && SelectReview(candidates, n).Ok?
    ensures Consistent(SelectReview(candidates, n).value)
  {
    hide BuildReview, Objects, DeclaresOwnKey, Consistent;
    if n == 0 {
      BuiltReviewsAreConsistent(Objects(candidates)[0]);
    } else if States(candidates[n - 1], candidates, VERDICT) {
      BuiltReviewsAreConsistent(candidates[n - 1].value.value);
    } else {
      SelectedReviewsAreConsistent(candidates, n - 1);
    }
  }

  lemma BuiltReviewsAreConsistent(record: seq<Json.Member>)
    requires BuildReview(record).Ok?
    ensures Consistent(BuildReview(record).value)
  {
    FindingsDecide(record);
  }

  /** Whatever a reviewer printed, an accepted review blocks exactly when it lists a critical or major finding. */
  lemma ParsedReviewsAreConsistent(text: string)
    requires ParseReview(text).Ok?
    ensures Consistent(ParseReview(text).value)
  {
    hide SelectReview, EligibleCandidates, Consistent;
    var candidates := EligibleCandidates(text);
    SelectedReviewsAreConsistent(candidates, |candidates|);
  }

  // -------------------------------------------------------------- resolutions

  datatype ResolutionStatus = Accepted | Rebutted | Unresolved
  datatype Resolution = Resolution(id: Json.Str, status: ResolutionStatus, note: Option<Json.Str>)

  function StatusOf(record: seq<Json.Member>): Option<ResolutionStatus> {
    match TextField(record, "status")
    case None => None
    case Some(s) =>
      if Lower(s) == Json.Units("accepted") then Some(Accepted)
      else if Lower(s) == Json.Units("rebutted") then Some(Rebutted)
      else if Lower(s) == Json.Units("unresolved") then Some(Unresolved)
      else None
  }

  /** The usable items of a report, in order. */
  function Resolve(items: seq<Json.Value>): seq<Resolution> {
    if items == [] then []
    else
      var rest := Resolve(items[1..]);
      if !items[0].Object? then rest
      else
        var record := items[0].members;
        var id, status := TextField(record, "id"), StatusOf(record);
        if id == None || status == None then rest
        else [Resolution(id.value, status.value, TextField(record, "note"))] + rest
  }

  function ReportOf(items: seq<Json.Value>): Option<seq<Resolution>> {
    var resolutions := Resolve(items);
    if resolutions == [] then None else Some(resolutions)
  }

  /** The nearest report from the end is the current one, whether or not it survived. */
  function SelectResolutions(candidates: seq<Candidate>, n: nat): Option<seq<Resolution>>
    requires n <= |candidates|
  {
    if n == 0 then None
    else
      var c := candidates[n - 1];
      if c.value == None then
        if DeclaresOwnKey(c, candidates, RESOLUTIONS) then None else SelectResolutions(candidates, n - 1)
      else
        match Field(c.value.value, RESOLUTIONS)
        case Some(Array(items)) => ReportOf(items)
        case _ => SelectResolutions(candidates, n - 1)
  }

  function ParseResolutions(text: string): Option<seq<Resolution>> {
    var candidates := EligibleCandidates(text);
    SelectResolutions(candidates, |candidates|)
  }

  method ReadResolutions(text: string) returns (report: Option<seq<Resolution>>)
    ensures report == ParseResolutions(text)
  {
    hide KeepEligible, DeclaresOwnKey, Candidates, ReportOf;
    var regions := JsonObjectCandidates(text);
    var candidates := KeepEligible(regions, regions);
    var index := |candidates|;
    while index > 0
      invariant 0 <= index <= |candidates|
      invariant SelectResolutions(candidates, index) == SelectResolutions(candidates, |candidates|)
    {
      var c := candidates[index - 1];
      if c.value == None {
        var declares := ScanForOwnKey(c, candidates, RESOLUTIONS);
        if declares {
          return None;
        }
      } else {
        var listed := Field(c.value.value, RESOLUTIONS);
        if listed.Some? && listed.value.Array? {
          return ReportOf(listed.value.items);
        }
      }
      index := index - 1;
    }
    return None;
  }

  // ------------------------------------------------------------ the selection

  /** No candidate behind the deciding one states a verdict: a superseded verdict never returns. */
  lemma LatestVerdictDecides(text: string)
    requires exists i :: 0 <= i < |EligibleCandidates(text)| && States(EligibleCandidates(text)[i], EligibleCandidates(text), VERDICT)
    ensures var all := EligibleCandidates(text);
            exists m :: && 0 <= m < |all| && States(all[m], all, VERDICT)
                        && (forall k :: m < k < |all| ==> !States(all[k], all, VERDICT))
                        && ParseReview(text) ==
                           (if all[m].value.Some? then BuildReview(all[m].value.value) else Err(DamagedVerdict))
  {
    hide EligibleCandidates, States, BuildReview;
    var all := EligibleCandidates(text);
    NotBlank(text);
    var n := |all|;
    while !States(all[n - 1], all, VERDICT)
      invariant 0 < n <= |all|
      invariant exists i :: 0 <= i < n && States(all[i], all, VERDICT)
      invariant forall k :: n <= k < |all| ==> !States(all[k], all, VERDICT)
      invariant SelectReview(all, n) == SelectReview(all, |all|)
      decreases n
    {
      n := n - 1;
    }
    assert 0 <= n - 1 < |all| && States(all[n - 1], all, VERDICT);
  }

  /** A text with a region is not blank. */
  lemma NotBlank(text: string)
    requires |EligibleCandidates(text)| > 0
    ensures SkipBlanks(text, 0) < |text|
  {
    hide Json.Parse, Run, IsEligible, SkipBlanks;
    var c := EligibleCandidates(text)[0];
    KeepEligibleMembers(Candidates(text), Candidates(text), c);
    var i :| 0 <= i < |Candidates(text)| && Candidates(text)[i] == c;
    RegionsFormAForest(text);
    assert Opening(text, Spans(text)[i].start);
    BlanksHideNothing(text, 0, Spans(text)[i].start);
  }

  lemma {:induction false} BlanksHideNothing(text: string, i: nat, p: nat)
    requires i <= p < |text| && text[p] == '{'
    ensures SkipBlanks(text, i) <= p
    decreases p - i
  {
    if i < p {
      if IsBlank(text[i]) {
        BlanksHideNothing(text, i + 1, p);
      }
    }
  }

  // ----------------------------------------------------- the answer among noise

  predicate Contains(s: string, word: string) {
    exists i :: 0 <= i <= |s| && Json.StartsWith(s, word, i)
  }

  /** Where a word free of line ends and braces can stand when it occurs in neither the noise nor the rest. */
  lemma WordsStayInTheAnswer(text: string, noise: string, answer: string, rest: string, word: string, q: nat)
    requires AnswerAt(text, noise, answer, rest)
    requires '\n' !in word && '}' !in word && word != ""
    requires !Contains(noise, word) && !Contains(rest, word)
    requires Json.StartsWith(text, word, q)
    ensures |noise| <= q < |noise| + |answer|
  {
    hide Json.Parse;
    var h, e := |noise|, |noise| + |answer|;
    assert noise == "" || text[h - 1] == '\n';
    if q + |word| <= h {
      WordsOfAPart(text, "", noise, answer + rest, word, q);
    } else if q < h {
      LiesInWord(text, word, q, h - 1);
    } else if q >= e {
      WordsOfAPart(text, noise + answer, rest, "", word, q);
    }
  }

  lemma WordsOfAPart(text: string, before: string, part: string, after: string, word: string, q: nat)
    requires text == before + part + after && Json.StartsWith(text, word, q)
    requires |before| <= q && q + |word| <= |before| + |part|
    ensures Contains(part, word)
  {
    var i := q - |before|;
    assert part[i..i + |word|] == text[q..q + |word|];
    assert Json.StartsWith(part, word, i);
  }

  lemma LiesInWord(text: string, word: string, q: nat, p: int)
    requires Json.StartsWith(text, word, q) && q <= p < q + |word|
    ensures text[p] in word
  {
    assert text[q..q + |word|][p - q] == text[p];
  }

  /** The answer is the last candidate that parsed; behind it come only the regions that the noise left open. */
  lemma AnswerIsReached(text: string, noise: string, answer: string, rest: string) returns (n: nat)
    requires AnswerAt(text, noise, answer, rest)
    ensures var all := EligibleCandidates(text);
            && n < |all|
            && all[n] == Candidate(answer, |noise|, |noise| + |answer|, Some(Json.Parse(answer).value.members))
            && (forall k :: n < k < |all| ==> all[k].value == None && IsOpenBefore(all[k], noise, text))
            && (forall k :: 0 <= k <= n ==> !IsOpenBefore(all[k], noise, text))
  {
    hide Spans, Candidates, Json.Parse, Final, AnswerAt, KeepEligible;
    var all := Candidates(text);
    CandidatesFollowSpans(text);
    var m := AnswerIsReported(text, noise, answer, rest);
    AnswerCandidate(text, noise, answer, rest, m);
    assert all == all[..m] + [all[m]] + all[m + 1..];
    KeepEligibleConcat(all[..m], [all[m]], all);
    KeepEligibleConcat(all[..m] + [all[m]], all[m + 1..], all);
    KeepsEligible(all[m], all);
    n := |KeepEligible(all[..m], all)|;
    var eligible := EligibleCandidates(text);
    forall k | n < k < |eligible|
      ensures eligible[k].value == None && IsOpenBefore(eligible[k], noise, text)
    {
      var d := eligible[k];
      assert d == KeepEligible(all[m + 1..], all)[k - n - 1];
      KeepEligibleMembers(all[m + 1..], all, d);
      var i :| m + 1 <= i < |all| && all[i] == d;
      UnclosedCandidate(text, i);
    }
    forall k | 0 <= k < n
      ensures !IsOpenBefore(eligible[k], noise, text)
    {
      var d := eligible[k];
      assert d == KeepEligible(all[..m], all)[k];
      KeepEligibleMembers(all[..m], all, d);
      var i :| 0 <= i < m && all[i] == d;
      CandidateOfSpan(text, i);
      AnswerFits(text, noise, answer, rest);
    }
    AnswerFits(text, noise, answer, rest);
  }

  lemma CandidateOfSpan(text: string, i: nat)
    requires i < |Spans(text)|
    ensures |Candidates(text)| == |Spans(text)|
    ensures Candidates(text)[i].start == Spans(text)[i].start && Candidates(text)[i].end == Spans(text)[i].end
  {
    hide Spans, Json.Parse;
  }

  lemma AnswerFits(text: string, noise: string, answer: string, rest: string)
    requires AnswerAt(text, noise, answer, rest)
    ensures |noise| < |noise| + |answer| <= |text|
  {
    hide Json.Parse, BraceFree, EndsLine;
  }

  lemma CandidatesFollowSpans(text: string)
    ensures |Candidates(text)| == |Spans(text)|
  {
  }

  lemma KeepsEligible(c: Candidate, all: seq<Candidate>)
    requires IsEligible(c, all)
    ensures KeepEligible([c], all) == [c]
  {
  }

  lemma UnclosedCandidate(text: string, i: nat)
    requires i < |Spans(text)| && Spans(text)[i].end == |text| && Spans(text)[i].start in Final(text).opens
    ensures var d := Candidates(text)[i];
            && d.value == None && d.end == |text| && d.start == Spans(text)[i].start && d.start <= |text|
            && d.raw == text[d.start..]
  {
    hide Spans, Json.Parse, Final;
    UnclosedIsNotJson(text, Spans(text)[i].start);
    assert text[Spans(text)[i].start..] == text[Spans(text)[i].start..|text|];
  }

  lemma AnswerCandidate(text: string, noise: string, answer: string, rest: string, m: nat)
    requires AnswerAt(text, noise, answer, rest)
    requires m < |Spans(text)| && Spans(text)[m] == Span(|noise|, |noise| + |answer|)
    requires forall k :: m < k < |Spans(text)| ==>
               && Spans(text)[k].start < |noise| && Spans(text)[k].end == |text|
               && Spans(text)[k].start in Final(text).opens
    requires forall k :: 0 <= k < m ==> Spans(text)[k].end <= |noise| || |noise| <= Spans(text)[k].start
    ensures var all := Candidates(text);
            && all[m] == Candidate(answer, |noise|, |noise| + |answer|, Some(Json.Parse(answer).value.members))
            && IsEligible(all[m], all)
  {
    hide Spans, Json.Parse, Final, BraceFree, EndsLine;
    var all, spans := Candidates(text), Spans(text);
    assert text[|noise|..|noise| + |answer|] == answer;
    forall i | 0 <= i < |all|
      ensures !Swallows(all[i], all[m])
    {
      if i > m {
        UnclosedCandidate(text, i);
      }
    }
  }

  /** Nothing parsed behind n: the regions there can only spoil the selection by declaring a verdict. */
  lemma {:induction false} OpenRegionsOnlySpoil(all: seq<Candidate>, n: nat, m: nat)
    requires n <= m <= |all|
    requires forall k :: n <= k < m ==> all[k].value == None
    ensures SelectReview(all, m) ==
            if exists k :: n <= k < m && DeclaresOwnKey(all[k], all, VERDICT) then Err(DamagedVerdict)
            else SelectReview(all, n)
    decreases m
  {
    if n < m {
      OpenRegionsOnlySpoil(all, n, m - 1);
    }
  }

  lemma {:induction false} OpenRegionsOnlySpoilReports(all: seq<Candidate>, n: nat, m: nat)
    requires n <= m <= |all|
    requires forall k :: n <= k < m ==> all[k].value == None
    ensures SelectResolutions(all, m) ==
            if exists k :: n <= k < m && DeclaresOwnKey(all[k], all, RESOLUTIONS) then None
            else SelectResolutions(all, n)
    decreases m
  {
    if n < m {
      OpenRegionsOnlySpoilReports(all, n, m - 1);
    }
  }

  /** A region that starts in the noise and never closes. */
  predicate IsOpenBefore(c: Candidate, noise: string, text: string) {
    c.start < |noise| && c.end == |text|
  }

  /** Some region that the noise leaves open declares the key as its own. */
  predicate NoiseDeclares(text: string, noise: string, key: string) {
    var all := EligibleCandidates(text);
    exists k :: 0 <= k < |all| && IsOpenBefore(all[k], noise, text) && DeclaresOwnKey(all[k], all, key)
  }

  /**
   * A printed review object that states a verdict is read exactly as if it stood alone, whatever text
   * ends the line before it and whatever brace-free text follows, unless a brace left open in the
   * earlier text declares a verdict of its own; then the output is reported as damaged.
   */
  lemma ReviewsAreReadIff(noise: string, answer: string, rest: string)
    requires AnswerAt(noise + answer + rest, noise, answer, rest)
    requires Field(Json.Parse(answer).value.members, VERDICT).Some?
    ensures ParseReview(noise + answer + rest) ==
            if NoiseDeclares(noise + answer + rest, noise, VERDICT) then Err(DamagedVerdict)
            else BuildReview(Json.Parse(answer).value.members)
  {
    hide EligibleCandidates, Json.Parse, DeclaresOwnKey, BuildReview, BraceFree, EndsLine, SkipBlanks, IsOpenBefore;
    var text := noise + answer + rest;
    var n := AnswerIsReached(text, noise, answer, rest);
    var all := EligibleCandidates(text);
    NotBlank(text);
    OpenRegionsOnlySpoil(all, n + 1, |all|);
  }

  /** The same for the modifier's report, which then counts as missing. */
  lemma ResolutionsAreReadIff(noise: string, answer: string, rest: string)
    requires AnswerAt(noise + answer + rest, noise, answer, rest)
    requires var listed := Field(Json.Parse(answer).value.members, RESOLUTIONS); listed.Some? && listed.value.Array?
    ensures ParseResolutions(noise + answer + rest) ==
            if NoiseDeclares(noise + answer + rest, noise, RESOLUTIONS) then None
            else ReportOf(Field(Json.Parse(answer).value.members, RESOLUTIONS).value.items)
  {
    hide EligibleCandidates, Json.Parse, DeclaresOwnKey, ReportOf, BraceFree, EndsLine, IsOpenBefore;
    var text := noise + answer + rest;
    var n := AnswerIsReached(text, noise, answer, rest);
    var all := EligibleCandidates(text);
    OpenRegionsOnlySpoilReports(all, n + 1, |all|);
  }

  // ------------------------------------------------- noise that declares nothing

  /** An open region of the noise has the whole rest of the text for its own. */
  lemma OpenRegionsReachTheEnd(text: string, c: Candidate)
    requires c in EligibleCandidates(text) && c.end == |text|
    ensures c.start <= |text| && c.raw == text[c.start..]
  {
    hide Spans, Json.Parse, KeepEligible;
    KeepEligibleMembers(Candidates(text), Candidates(text), c);
    var i :| 0 <= i < |Candidates(text)| && Candidates(text)[i] == c;
    RegionsFormAForest(text);
    assert text[c.start..] == text[c.start..|text|];
  }

  /** Noise and rest that nowhere quote the key declare nothing. */
  lemma UnquotedKeysAreUndeclared(text: string, noise: string, answer: string, rest: string, key: string)
    requires AnswerAt(text, noise, answer, rest)
    requires '\n' !in Needle(key) && '}' !in Needle(key)
    requires !Contains(noise, Needle(key)) && !Contains(rest, Needle(key))
    ensures !NoiseDeclares(text, noise, key)
  {
    hide Json.Parse, DeclaresFrom, EligibleCandidates, Contains, Needle, IsInsideNested, AnswerAt;
    var all := EligibleCandidates(text);
    var n := AnswerIsReached(text, noise, answer, rest);
    forall k | 0 <= k < |all| && IsOpenBefore(all[k], noise, text)
      ensures !DeclaresOwnKey(all[k], all, key)
    {
      OpenRegionsReachTheEnd(text, all[k]);
      KeyOnlyInTheAnswer(text, noise, answer, rest, key, all[k], all, n);
    }
  }

  /** A key that stands only inside the answer belongs to the answer. */
  lemma KeyOnlyInTheAnswer(text: string, noise: string, answer: string, rest: string, key: string,
                           d: Candidate, all: seq<Candidate>, n: nat)
    requires AnswerAt(text, noise, answer, rest)
    requires '\n' !in Needle(key) && '}' !in Needle(key)
    requires !Contains(noise, Needle(key)) && !Contains(rest, Needle(key))
    requires d.start < |noise| && d.end == |text| && d.start <= |text| && d.raw == text[d.start..]
    requires n < |all| && all[n].start == |noise| && all[n].end == |noise| + |answer|
    ensures !DeclaresOwnKey(d, all, key)
  {
    hide Json.Parse, DeclaresFrom, BraceFree, EndsLine;
    if DeclaresOwnKey(d, all, key) {
      var i := DeclarationsAreLiteral(d, all, Needle(key), 0, 0, false, false);
      assert text[d.start + i..d.start + i + |Needle(key)|] == d.raw[i..i + |Needle(key)|];
      WordsStayInTheAnswer(text, noise, answer, rest, Needle(key), d.start + i);
    }
  }

  /** Noise that closes every brace it opens outside strings. */
  predicate IsClosed(noise: string) { Final(noise).opens == [] }

  /** Such noise has no open region, whatever it quotes. */
  lemma ClosedNoiseDeclaresNothing(text: string, noise: string, answer: string, rest: string, key: string)
    requires AnswerAt(text, noise, answer, rest) && IsClosed(noise)
    ensures !NoiseDeclares(text, noise, key)
  {
    hide Json.Parse, DeclaresOwnKey, Final, Spans, Candidates, EligibleCandidates, AnswerAt, IsClosed;
    var all := EligibleCandidates(text);
    forall k | 0 <= k < |all| ensures !IsOpenBefore(all[k], noise, text) {
      EligibleAreCandidates(text, all[k]);
      var i :| 0 <= i < |Spans(text)| && Candidates(text)[i] == all[k];
      CandidateOfSpan(text, i);
      ClosedNoiseLeavesNothingOpen(text, noise, answer, rest, i);
    }
  }

  lemma EligibleAreCandidates(text: string, c: Candidate)
    requires c in EligibleCandidates(text)
    ensures |Candidates(text)| == |Spans(text)|
    ensures exists i :: 0 <= i < |Spans(text)| && Candidates(text)[i] == c
  {
    hide Spans, Json.Parse, KeepEligible;
    KeepEligibleMembers(Candidates(text), Candidates(text), c);
  }

  lemma ClosedNoiseLeavesNothingOpen(text: string, noise: string, answer: string, rest: string, i: nat)
    requires AnswerAt(text, noise, answer, rest) && IsClosed(noise) && i < |Spans(text)|
    ensures !(Spans(text)[i].start < |noise| && Spans(text)[i].end == |text|)
  {
    hide Json.Parse, Spans, Final, BraceFree, EndsLine;
    AnswerFits(text, noise, answer, rest);
    var m := AnswerIsReported(text, noise, answer, rest);
  }

  // ------------------------------------------------------------- what follows

  /** Noise and rest that nowhere quote the word "verdict" cannot hide the review or answer in its place. */
  lemma ReviewsSurviveNoise(noise: string, answer: string, rest: string)
    requires AnswerAt(noise + answer + rest, noise, answer, rest)
    requires Field(Json.Parse(answer).value.members, VERDICT).Some?
    requires !Contains(noise, Needle(VERDICT)) && !Contains(rest, Needle(VERDICT))
    ensures ParseReview(noise + answer + rest) == BuildReview(Json.Parse(answer).value.members)
  {
    hide ParseReview, Json.Parse, BuildReview, Contains, NoiseDeclares, AnswerAt;
    UnquotedKeysAreUndeclared(noise + answer + rest, noise, answer, rest, VERDICT);
    ReviewsAreReadIff(noise, answer, rest);
  }

  /** The same for the modifier's report. */
  lemma ResolutionsSurviveNoise(noise: string, answer: string, rest: string)
    requires AnswerAt(noise + answer + rest, noise, answer, rest)
    requires var listed := Field(Json.Parse(answer).value.members, RESOLUTIONS); listed.Some? && listed.value.Array?
    requires !Contains(noise, Needle(RESOLUTIONS)) && !Contains(rest, Needle(RESOLUTIONS))
    ensures ParseResolutions(noise + answer + rest) ==
            ReportOf(Field(Json.Parse(answer).value.members, RESOLUTIONS).value.items)
  {
    hide ParseResolutions, Json.Parse, ReportOf, Contains, NoiseDeclares, AnswerAt;
    UnquotedKeysAreUndeclared(noise + answer + rest, noise, answer, rest, RESOLUTIONS);
    ResolutionsAreReadIff(noise, answer, rest);
  }

  /**
   * In terms of values: the review that was printed is the review that is read, and with any text that
   * leaves no brace open before it, other reviews included, nothing else can happen.
   */
  lemma PrintedReviewsAreReadIff(noise: string, review: seq<Json.Member>, rest: string)
    requires JsonPrint.IsPrintable(Json.Object(review)) && Field(review, VERDICT).Some?
    requires EndsLine(noise) && BraceFree(rest)
    ensures var text := noise + JsonPrint.Print(Json.Object(review)) + rest;
            && ParseReview(text) ==
               (if NoiseDeclares(text, noise, VERDICT) then Err(DamagedVerdict) else BuildReview(review))
            && (IsClosed(noise) || (!Contains(noise, Needle(VERDICT)) && !Contains(rest, Needle(VERDICT)))
                ==> ParseReview(text) == BuildReview(review))
  {
    hide ParseReview, BuildReview, Contains, BraceFree, EndsLine, JsonPrint.Print, JsonPrint.IsPrintable, Json.Parse,
         NoiseDeclares, IsClosed;
    JsonPrint.PrintedValuesParse(Json.Object(review));
    JsonPrint.ObjectsAreBraced(review);
    var answer := JsonPrint.Print(Json.Object(review));
    var text := noise + answer + rest;
    assert AnswerAt(text, noise, answer, rest);
    ReviewsAreReadIff(noise, answer, rest);
    if IsClosed(noise) {
      ClosedNoiseDeclaresNothing(text, noise, answer, rest, VERDICT);
    } else if !Contains(noise, Needle(VERDICT)) && !Contains(rest, Needle(VERDICT)) {
      UnquotedKeysAreUndeclared(text, noise, answer, rest, VERDICT);
    }
  }

  /** A review printed on a line of its own leaves no brace open. */
  lemma PrintedLinesAreClosed(noise: string, review: seq<Json.Member>, rest: string)
    requires JsonPrint.IsPrintable(Json.Object(review))
    requires EndsLine(noise) && BraceFree(rest) && EndsLine(rest) && IsClosed(noise)
    ensures IsClosed(noise + JsonPrint.Print(Json.Object(review)) + rest)
  {
    hide JsonPrint.Print, JsonPrint.IsPrintable, Json.Parse, Final, Spans;
    JsonPrint.PrintedValuesParse(Json.Object(review));
    JsonPrint.ObjectsAreBraced(review);
    var answer := JsonPrint.Print(Json.Object(review));
    var text := noise + answer + rest;
    assert AnswerAt(text, noise, answer, rest);
    var m := AnswerIsReported(text, noise, answer, rest);
  }

  /** A superseded review never returns: of two printed reviews the later one is read. */
  lemma LatestReviewIsRead(noise: string, earlier: seq<Json.Member>, between: string, latest: seq<Json.Member>, rest: string)
    requires JsonPrint.IsPrintable(Json.Object(earlier))
    requires JsonPrint.IsPrintable(Json.Object(latest)) && Field(latest, VERDICT).Some?
    requires EndsLine(noise) && IsClosed(noise)
    requires between != "" && EndsLine(between) && BraceFree(between) && BraceFree(rest)
    ensures ParseReview((noise + JsonPrint.Print(Json.Object(earlier)) + between)
                        + JsonPrint.Print(Json.Object(latest)) + rest) == BuildReview(latest)
  {
    hide ParseReview, BuildReview, Contains, BraceFree, JsonPrint.Print, JsonPrint.IsPrintable, NoiseDeclares, IsClosed;
    PrintedLinesAreClosed(noise, earlier, between);
    PrintedReviewsAreReadIff(noise + JsonPrint.Print(Json.Object(earlier)) + between, latest, rest);
  }
}
