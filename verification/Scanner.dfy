/** The brace scanner: every balanced or unterminated `{` region of a reviewer's text. */
module Scanner {
  import Json

  datatype Span = Span(start: nat, end: nat)

  /** Open braces, regions closed so far, and whether the scanner is inside a string. */
  datatype Scan = Scan(opens: seq<nat>, closed: seq<Span>, inString: bool, escaped: bool)

  const START := Scan([], [], false, false)

  function Step(st: Scan, i: nat, c: char): Scan {
    if st.inString then
      if c == '\n' then st.(inString := false, escaped := false)
      else if st.escaped then st.(escaped := false)
      else if c == '\\' then st.(escaped := true)
      else if c == '"' then st.(inString := false)
      else st
    else if c == '"' then st.(inString := true)
    else if c == '{' then st.(opens := st.opens + [i])
    else if c == '}' && |st.opens| > 0 then
      var last := |st.opens| - 1;
      st.(opens := st.opens[..last], closed := st.closed + [Span(st.opens[last], i + 1)])
    else st
  }

  /** Scan text[i..j] from a state. */
  function Run(text: string, i: nat, j: nat, st: Scan): Scan
    requires i <= j <= |text|
    decreases j - i
  {
    if i == j then st else Run(text, i + 1, j, Step(st, i, text[i]))
  }

  function Final(text: string): Scan {
    Run(text, 0, |text|, START)
  }

  /** Regions in the order the scanner reports them: by closing brace, then the open ones inwards out. */
  function Spans(text: string): seq<Span> {
    var final := Final(text);
    final.closed + seq(|final.opens|, k requires 0 <= k < |final.opens| =>
                       Span(final.opens[|final.opens| - 1 - k], |text|))
  }

  lemma RunUnfolds(text: string, i: nat, j: nat, st: Scan)
    requires i <= j <= |text|
    ensures Run(text, i, j, st) == if i == j then st else Run(text, i + 1, j, Step(st, i, text[i]))
  {
  }

  lemma {:induction false} RunSplits(text: string, i: nat, j: nat, k: nat, st: Scan)
    requires i <= j <= k <= |text|
    ensures Run(text, i, k, st) == Run(text, j, k, Run(text, i, j, st))
    decreases j - i
  {
    if i < j {
      RunSplits(text, i + 1, j, k, Step(st, i, text[i]));
    }
  }

  // --------------------------------------------- the scanner against the JSON lexer

  predicate Calm(st: Scan) { !st.inString && !st.escaped }

  predicate IsQuiet(c: char) { c != '"' && c != '{' && c != '}' }

  /** Outside strings only quotes and braces matter. */
  lemma {:induction false} QuietRun(text: string, i: nat, j: nat, st: Scan)
    requires i <= j <= |text| && Calm(st)
    requires forall k :: i <= k < j ==> IsQuiet(text[k])
    ensures Run(text, i, j, st) == st
    decreases j - i
  {
    if i < j {
      QuietRun(text, i + 1, j, st);
    }
  }

  /** A piece of the text at an offset. */
  predicate Piece(text: string, at: nat, raw: string) {
    at + |raw| <= |text| && text[at..at + |raw|] == raw
  }

  lemma PieceAt(text: string, at: nat, raw: string, i: nat)
    requires Piece(text, at, raw) && i < |raw|
    ensures text[at + i] == raw[i]
  {
    assert text[at..at + |raw|][i] == raw[i];
  }

  /** Within a JSON string the scanner stays inside its string and leaves it at the same quote. */
  lemma {:induction false} StringsAgree(text: string, at: nat, raw: string, i: nat, st: Scan)
    requires Piece(text, at, raw) && i <= |raw|
    requires st.inString && !st.escaped
    requires Json.ParseChars(raw, i).Some?
    ensures Run(text, at + i, at + Json.ParseChars(raw, i).value.1, st) == st.(inString := false)
    decreases |raw| - i
  {
    hide Run, Json.Hex4, Json.Utf16;
    PieceAt(text, at, raw, i);
    var end := at + Json.ParseChars(raw, i).value.1;
    RunUnfolds(text, at + i, end, st);
    if raw[i] == '"' {
      RunUnfolds(text, end, end, Step(st, at + i, '"'));
    } else if raw[i] == '\\' {
      PieceAt(text, at, raw, i + 1);
      RunUnfolds(text, at + i + 1, end, Step(st, at + i, raw[i]));
      assert Step(Step(st, at + i, raw[i]), at + i + 1, raw[i + 1]) == st;
      if raw[i + 1] == 'u' {
        HexIsPlain(text, at, raw, i + 2, st);
        RunSplits(text, at + i + 2, at + i + 6, end, st);
        StringsAgree(text, at, raw, i + 6, st);
      } else {
        StringsAgree(text, at, raw, i + 2, st);
      }
    } else {
      StringsAgree(text, at, raw, i + 1, st);
    }
  }

  lemma HexIsPlain(text: string, at: nat, raw: string, i: nat, st: Scan)
    requires Piece(text, at, raw) && st.inString && !st.escaped
    requires Json.Hex4(raw, i).Some?
    ensures i + 4 <= |raw| && Run(text, at + i, at + i + 4, st) == st
  {
    PieceAt(text, at, raw, i);
    PieceAt(text, at, raw, i + 1);
    PieceAt(text, at, raw, i + 2);
    PieceAt(text, at, raw, i + 3);
    assert Run(text, at + i + 3, at + i + 4, st) == st;
    assert Run(text, at + i + 2, at + i + 4, st) == st;
    assert Run(text, at + i + 1, at + i + 4, st) == st;
  }

  lemma QuietPiece(text: string, at: nat, raw: string, i: nat, j: nat, st: Scan)
    requires Piece(text, at, raw) && i <= j <= |raw| && Calm(st)
    requires forall k :: i <= k < j ==> IsQuiet(raw[k])
    ensures Run(text, at + i, at + j, st) == st
  {
    forall k | at + i <= k < at + j
      ensures IsQuiet(text[k])
    {
      PieceAt(text, at, raw, k - at);
    }
    QuietRun(text, at + i, at + j, st);
  }

  /** A quoted string, both quotes included, leaves the scanner where it was. */
  lemma QuotedAgrees(text: string, at: nat, raw: string, i: nat, st: Scan)
    requires Piece(text, at, raw) && i < |raw| && raw[i] == '"' && Calm(st)
    requires Json.ParseChars(raw, i + 1).Some?
    ensures Run(text, at + i, at + Json.ParseChars(raw, i + 1).value.1, st) == st
  {
    PieceAt(text, at, raw, i);
    StringsAgree(text, at, raw, i + 1, st.(inString := true));
  }

  /** The scanner is back to the same open braces, and every region closed meanwhile lies in lo..hi. */
  ghost predicate Agrees(st: Scan, after: Scan, lo: nat, hi: nat) {
    && Calm(after) && after.opens == st.opens && st.closed <= after.closed
    && forall k :: |st.closed| <= k < |after.closed| ==>
         lo <= after.closed[k].start < after.closed[k].end <= hi
  }

  lemma AgreesComposes(a: Scan, b: Scan, c: Scan, lo: nat, mid: nat, mid': nat, hi: nat)
    requires Agrees(a, b, lo, mid) && Agrees(b, c, mid', hi) && lo <= mid <= mid' <= hi
    ensures Agrees(a, c, lo, hi)
  {
    forall k | |a.closed| <= k < |c.closed|
      ensures lo <= c.closed[k].start < c.closed[k].end <= hi
    {
      if k < |b.closed| {
        assert c.closed[k] == b.closed[k];
      }
    }
  }

  /**
   * On text that parses as JSON the scanner's open braces are the lexer's: reading a value brings it
   * back to where it was, and an object is reported as one region, after all regions inside it.
   */
  lemma {:induction false} ValuesAgree(text: string, at: nat, raw: string, i: nat, st: Scan)
    requires Piece(text, at, raw) && i <= |raw| && Calm(st)
    requires Json.ParseValue(raw, i).Some?
    ensures var (v, j) := Json.ParseValue(raw, i).value;
            var after := Run(text, at + i, at + j, st);
            && Agrees(st, after, at + i, at + j)
            && (v.Object? ==> |after.closed| > |st.closed| && raw[i] == '{'
                              && after.closed[|after.closed| - 1] == Span(at + i, at + j))
    decreases |raw| - i, 1
  {
    var (v, j) := Json.ParseValue(raw, i).value;
    PieceAt(text, at, raw, i);
    if raw[i] == '{' {
      ObjectsAgree(text, at, raw, i, st);
    } else if raw[i] == '[' {
      ArraysAgree(text, at, raw, i, st);
    } else if raw[i] == '"' {
      QuotedAgrees(text, at, raw, i, st);
    } else {
      forall k | i <= k < j
        ensures IsQuiet(raw[k])
      {
        WordsAreQuiet(raw, i, k);
      }
      QuietPiece(text, at, raw, i, j, st);
    }
  }

  lemma WordsAreQuiet(raw: string, i: nat, k: nat)
    requires i <= |raw| && Json.ParseValue(raw, i).Some? && raw[i] !in {'{', '[', '"'}
    requires i <= k < Json.ParseValue(raw, i).value.1
    ensures IsQuiet(raw[k])
  {
    if Json.StartsWith(raw, "true", i) {
      QuietWord(raw, "true", i, k);
    } else if Json.StartsWith(raw, "false", i) {
      QuietWord(raw, "false", i, k);
    } else if Json.StartsWith(raw, "null", i) {
      QuietWord(raw, "null", i, k);
    } else {
      assert Json.IsNumeric(raw[k]);
    }
  }

  lemma QuietWord(raw: string, word: string, i: nat, k: nat)
    requires Json.StartsWith(raw, word, i) && i <= k < i + |word|
    requires '"' !in word && '{' !in word && '}' !in word
    ensures IsQuiet(raw[k])
  {
    assert raw[i..i + |word|][k - i] == raw[k];
  }

  /** White space, a quiet separator, white space. */
  lemma SeparatorAgrees(text: string, at: nat, raw: string, i: nat, st: Scan)
    requires Piece(text, at, raw) && i <= |raw| && Calm(st)
    requires var p := Json.SkipSpace(raw, i); p < |raw| && IsQuiet(raw[p])
    ensures Run(text, at + i, at + Json.SkipSpace(raw, Json.SkipSpace(raw, i) + 1), st) == st
  {
    QuietPiece(text, at, raw, i, Json.SkipSpace(raw, Json.SkipSpace(raw, i) + 1), st);
  }

  /** A bracket, and white space behind it. */
  lemma BracketAgrees(text: string, at: nat, raw: string, i: nat, st: Scan)
    requires Piece(text, at, raw) && i < |raw| && raw[i] in {'{', '['} && Calm(st)
    ensures var next := Json.SkipSpace(raw, i + 1);
            Run(text, at + i, at + next, st) ==
            if raw[i] == '{' then st.(opens := st.opens + [at + i]) else st
  {
    hide Run, Piece;
    var next := Json.SkipSpace(raw, i + 1);
    var after := if raw[i] == '{' then st.(opens := st.opens + [at + i]) else st;
    PieceFits(text, at, raw);
    PieceAt(text, at, raw, i);
    QuietPiece(text, at, raw, i + 1, next, after);
    assert Step(st, at + i, raw[i]) == after;
    RunUnfolds(text, at + i, at + next, st);
  }

  /** The brace that closes an object, after its content left the scanner with that brace on top. */
  lemma ClosesObject(text: string, start: nat, end: nat, st: Scan, lo: nat)
    requires start < end <= |text| && text[end - 1] == '}' && Calm(st) && lo < start
    requires Agrees(st.(opens := st.opens + [lo]), Run(text, start, end - 1, st.(opens := st.opens + [lo])), lo, end - 1)
    ensures var after := Run(text, start, end, st.(opens := st.opens + [lo]));
            && Agrees(st, after, lo, end) && |after.closed| > |st.closed|
            && after.closed[|after.closed| - 1] == Span(lo, end)
  {
    var inner := st.(opens := st.opens + [lo]);
    var before := Run(text, start, end - 1, inner);
    RunSplits(text, start, end - 1, end, inner);
    var after := Step(before, end - 1, '}');
    assert Run(text, end - 1, end, before) == after;
    assert after.opens == st.opens;
  }

  lemma AgreesWidens(a: Scan, b: Scan, lo: nat, hi: nat, lo': nat, hi': nat)
    requires Agrees(a, b, lo, hi) && lo' <= lo && hi <= hi'
    ensures Agrees(a, b, lo', hi')
  {
  }

  lemma {:induction false} ObjectsAgree(text: string, at: nat, raw: string, i: nat, st: Scan)
    requires Piece(text, at, raw) && i < |raw| && raw[i] == '{' && Calm(st)
    requires Json.ParseValue(raw, i).Some?
    ensures var j := Json.ParseValue(raw, i).value.1;
            var after := Run(text, at + i, at + j, st);
            && Agrees(st, after, at + i, at + j) && |after.closed| > |st.closed|
            && after.closed[|after.closed| - 1] == Span(at + i, at + j)
    decreases |raw| - i, 0
  {
    hide Run, Step, Agrees, Json.ParseMembers, Json.ParseItems, Json.SkipSpace, Piece;
    PieceFits(text, at, raw);
    var j := Json.ParseValue(raw, i).value.1;
    var inner := st.(opens := st.opens + [at + i]);
    var first := Json.SkipSpace(raw, i + 1);
    BracketAgrees(text, at, raw, i, st);
    if raw[first] == '}' {
      AgreesWithItself(text, inner, at + first, at + i);
    } else {
      MembersAgree(text, at, raw, first, inner);
      AgreesWidens(inner, Run(text, at + first, at + j - 1, inner), at + first, at + j - 1, at + i, at + j - 1);
    }
    PieceAt(text, at, raw, j - 1);
    ClosesObject(text, at + first, at + j, st, at + i);
    RunSplits(text, at + i, at + first, at + j, st);
  }

  lemma PieceFits(text: string, at: nat, raw: string)
    requires Piece(text, at, raw)
    ensures at + |raw| <= |text|
  {
  }

  lemma AgreesWithItself(text: string, st: Scan, i: nat, lo: nat)
    requires i <= |text| && Calm(st)
    ensures Run(text, i, i, st) == st && Agrees(st, st, lo, i)
  {
  }

  lemma {:induction false} ArraysAgree(text: string, at: nat, raw: string, i: nat, st: Scan)
    requires Piece(text, at, raw) && i < |raw| && raw[i] == '[' && Calm(st)
    requires Json.ParseValue(raw, i).Some?
    ensures var j := Json.ParseValue(raw, i).value.1;
            Agrees(st, Run(text, at + i, at + j, st), at + i, at + j)
    decreases |raw| - i, 0
  {
    hide Run, Step, Agrees, Json.ParseMembers, Json.ParseItems, Json.SkipSpace, Piece;
    var j := Json.ParseValue(raw, i).value.1;
    var first := Json.SkipSpace(raw, i + 1);
    PieceFits(text, at, raw);
    BracketAgrees(text, at, raw, i, st);
    if raw[first] == ']' {
      AgreesWithItself(text, st, at + first, at + first);
    } else {
      ItemsAgree(text, at, raw, first, st);
    }
    var after := Run(text, at + first, at + j - 1, st);
    CalmAfter(st, after, at + first, at + j - 1);
    QuietPiece(text, at, raw, j - 1, j, after);
    RunSplits(text, at + i, at + first, at + j, st);
    RunSplits(text, at + first, at + j - 1, at + j, st);
    AgreesWidens(st, after, at + first, at + j - 1, at + i, at + j);
  }

  lemma CalmAfter(st: Scan, after: Scan, lo: nat, hi: nat)
    requires Agrees(st, after, lo, hi)
    ensures Calm(after)
  {
  }

  /** Where the value of the first member starts, and where white space behind it ends. */
  function ValueAt(raw: string, i: nat): nat
    requires i <= |raw| && Json.ParseMembers(raw, i).Some?
  {
    Json.SkipSpace(raw, Json.SkipSpace(raw, Json.ParseChars(raw, i + 1).value.1) + 1)
  }

  function ValueEnd(raw: string, i: nat): nat
    requires i <= |raw| && Json.ParseValue(raw, i).Some?
  {
    Json.SkipSpace(raw, Json.ParseValue(raw, i).value.1)
  }

  /** The parts of a member list that parses. */
  lemma MembersShape(raw: string, i: nat)
    requires i <= |raw| && Json.ParseMembers(raw, i).Some?
    ensures var start := ValueAt(raw, i);
            && i < start <= |raw| && raw[i] == '"' && Json.ParseChars(raw, i + 1).Some?
            && Json.ParseValue(raw, start).Some?
            && var next, j := ValueEnd(raw, start), Json.ParseMembers(raw, i).value.1;
               && start < next < |raw|
               && (raw[next] == '}' || raw[next] == ',')
               && (raw[next] == '}' ==> j == next + 1)
               && (raw[next] == ',' ==>
                     var more := Json.SkipSpace(raw, next + 1);
                     Json.ParseMembers(raw, more).Some? && j == Json.ParseMembers(raw, more).value.1)
    ensures var colon := Json.SkipSpace(raw, Json.ParseChars(raw, i + 1).value.1);
            colon < |raw| && raw[colon] == ':'
  {
    hide Json.ParseValue, Json.ParseChars, Json.SkipSpace;
  }

  lemma KeyAgrees(text: string, at: nat, raw: string, i: nat, st: Scan)
    requires Piece(text, at, raw) && i <= |raw| && Calm(st)
    requires Json.ParseMembers(raw, i).Some?
    ensures ValueAt(raw, i) <= |raw| && at + |raw| <= |text| && i < ValueAt(raw, i)
    ensures Run(text, at + i, at + ValueAt(raw, i), st) == st
  {
    hide Run, Step, Json.ParseMembers, Json.ParseValue, Json.ParseChars, Json.SkipSpace, Piece;
    MembersShape(raw, i);
    PieceFits(text, at, raw);
    var keyEnd := Json.ParseChars(raw, i + 1).value.1;
    QuotedAgrees(text, at, raw, i, st);
    SeparatorAgrees(text, at, raw, keyEnd, st);
    RunSplits(text, at + i, at + keyEnd, at + ValueAt(raw, i), st);
  }

  lemma {:induction false} MembersAgree(text: string, at: nat, raw: string, i: nat, st: Scan)
    requires Piece(text, at, raw) && i <= |raw| && Calm(st)
    requires Json.ParseMembers(raw, i).Some?
    ensures var j := Json.ParseMembers(raw, i).value.1;
            raw[j - 1] == '}' && at + |raw| <= |text|
            && Agrees(st, Run(text, at + i, at + j - 1, st), at + i, at + j - 1)
    decreases |raw| - i, 0
  {
    hide Run, Step, Agrees, Json.ParseMembers, Json.ParseValue, Json.ParseChars, Json.SkipSpace, Piece, ValueAt;
    MembersShape(raw, i);
    var j, start := Json.ParseMembers(raw, i).value.1, ValueAt(raw, i);
    KeyAgrees(text, at, raw, i, st);
    TailAgrees(text, at, raw, start, st);
    var next := ValueEnd(raw, start);
    var after := Run(text, at + start, at + next, st);
    CalmAfter(st, after, at + start, at + next);
    RunSplits(text, at + i, at + start, at + next, st);
    AgreesWidens(st, after, at + start, at + next, at + i, at + next);
    if raw[next] == ',' {
      var more := Json.SkipSpace(raw, next + 1);
      CommaAgrees(text, at, raw, next, after);
      RunSplits(text, at + i, at + next, at + more, st);
      MembersAgree(text, at, raw, more, after);
      RunSplits(text, at + i, at + more, at + j - 1, st);
      AgreesComposes(st, after, Run(text, at + more, at + j - 1, after), at + i, at + next, at + more, at + j - 1);
    }
  }

  lemma CommaAgrees(text: string, at: nat, raw: string, i: nat, st: Scan)
    requires Piece(text, at, raw) && i < |raw| && raw[i] == ',' && Calm(st)
    ensures Run(text, at + i, at + Json.SkipSpace(raw, i + 1), st) == st
  {
    QuietPiece(text, at, raw, i, Json.SkipSpace(raw, i + 1), st);
  }

  /** A value and the white space behind it. */
  lemma {:induction false} TailAgrees(text: string, at: nat, raw: string, i: nat, st: Scan)
    requires Piece(text, at, raw) && i <= |raw| && Calm(st)
    requires Json.ParseValue(raw, i).Some?
    ensures var next := Json.SkipSpace(raw, Json.ParseValue(raw, i).value.1);
            at + |raw| <= |text| && Agrees(st, Run(text, at + i, at + next, st), at + i, at + next)
    decreases |raw| - i, 2
  {
    hide Run, Step, Agrees, Json.ParseValue;
    ValuesAgree(text, at, raw, i, st);
    var j := Json.ParseValue(raw, i).value.1;
    var next := Json.SkipSpace(raw, j);
    var after := Run(text, at + i, at + j, st);
    CalmAfter(st, after, at + i, at + j);
    QuietPiece(text, at, raw, j, next, after);
    RunSplits(text, at + i, at + j, at + next, st);
    AgreesWidens(st, after, at + i, at + j, at + i, at + next);
  }

  lemma {:induction false} ItemsAgree(text: string, at: nat, raw: string, i: nat, st: Scan)
    requires Piece(text, at, raw) && i <= |raw| && Calm(st)
    requires Json.ParseItems(raw, i).Some?
    ensures var j := Json.ParseItems(raw, i).value.1;
            raw[j - 1] == ']' && at + |raw| <= |text|
            && Agrees(st, Run(text, at + i, at + j - 1, st), at + i, at + j - 1)
    decreases |raw| - i, 3
  {
    hide Run, Step, Agrees, Json.ParseValue, Json.SkipSpace, Piece;
    var j := Json.ParseItems(raw, i).value.1;
    TailAgrees(text, at, raw, i, st);
    var next := Json.SkipSpace(raw, Json.ParseValue(raw, i).value.1);
    var after := Run(text, at + i, at + next, st);
    CalmAfter(st, after, at + i, at + next);
    if raw[next] == ',' {
      var more := Json.SkipSpace(raw, next + 1);
      CommaAgrees(text, at, raw, next, after);
      ItemsAgree(text, at, raw, more, after);
      RunSplits(text, at + i, at + next, at + more, st);
      RunSplits(text, at + i, at + more, at + j - 1, st);
      AgreesComposes(st, after, Run(text, at + more, at + j - 1, after), at + i, at + next, at + more, at + j - 1);
    }
  }

  // ---------------------------------------------------------- the region forest

  ghost predicate Apart(inner: Span, later: nat) {
    later < inner.start || inner.end <= later
  }

  /** What holds after scanning the first n characters. */
  ghost predicate Sound(st: Scan, n: nat) {
    && (st.escaped ==> st.inString)
    && (forall i :: 0 <= i < |st.opens| ==> st.opens[i] < n)
    && (forall i, j :: 0 <= i < j < |st.opens| ==> st.opens[i] < st.opens[j])
    && (forall i :: 0 <= i < |st.closed| ==> st.closed[i].start < st.closed[i].end <= n)
    && (forall i, j :: 0 <= i < j < |st.closed| ==>
          st.closed[i].end < st.closed[j].end && Apart(st.closed[i], st.closed[j].start))
    && (forall i, j :: 0 <= i < |st.closed| && 0 <= j < |st.opens| ==> Apart(st.closed[i], st.opens[j]))
  }

  lemma CloseKeepsSound(st: Scan, i: nat)
    requires Sound(st, i) && !st.inString && |st.opens| > 0
    ensures Sound(Step(st, i, '}'), i + 1)
  {
    var top, next := st.opens[|st.opens| - 1], Step(st, i, '}');
    assert next.opens == st.opens[..|st.opens| - 1];
    assert next.closed == st.closed + [Span(top, i + 1)];
    assert forall k :: 0 <= k < |next.opens| ==> next.opens[k] == st.opens[k] && next.opens[k] < top;
  }

  lemma StepKeepsSound(st: Scan, i: nat, c: char)
    requires Sound(st, i)
    ensures Sound(Step(st, i, c), i + 1)
  {
    if !st.inString && c == '}' && |st.opens| > 0 {
      CloseKeepsSound(st, i);
    }
  }

  lemma {:induction false} RunKeepsSound(text: string, i: nat, j: nat, st: Scan)
    requires i <= j <= |text| && Sound(st, i)
    ensures Sound(Run(text, i, j, st), j)
    decreases j - i
  {
    hide Sound, Step;
    if i < j {
      StepKeepsSound(st, i, text[i]);
      RunKeepsSound(text, i + 1, j, Step(st, i, text[i]));
    }
  }

  lemma PrefixIsSound(text: string, n: nat)
    requires n <= |text|
    ensures Sound(Run(text, 0, n, START), n)
  {
    assert Sound(START, 0);
    RunKeepsSound(text, 0, n, START);
  }

  /** A brace that the scanner meets outside any string. */
  predicate Opening(text: string, p: nat) {
    p < |text| && text[p] == '{' && !Run(text, 0, p, START).inString
  }

  ghost predicate StartsAt(st: Scan, p: nat) {
    p in st.opens || exists i :: 0 <= i < |st.closed| && st.closed[i].start == p
  }

  lemma StepStarts(st: Scan, i: nat, c: char, p: nat)
    ensures StartsAt(Step(st, i, c), p) <==> StartsAt(st, p) || (p == i && c == '{' && !st.inString)
  {
    var next := Step(st, i, c);
    if StartsAt(st, p) {
      if p in st.opens && p !in next.opens {
        assert next.closed[|st.closed|].start == p;
      } else if p !in st.opens {
        var k :| 0 <= k < |st.closed| && st.closed[k].start == p;
        assert next.closed[k].start == p;
      }
    }
    if p == i && c == '{' && !st.inString {
      assert next.opens[|st.opens|] == p;
    }
  }

  lemma {:induction false} RegionsStartAtOpenings(text: string, n: nat, p: nat)
    requires n <= |text|
    ensures StartsAt(Run(text, 0, n, START), p) <==> p < n && Opening(text, p)
  {
    hide StartsAt, Step;
    if n == 0 {
      NothingStarts(p);
    } else {
      var st := Run(text, 0, n - 1, START);
      RegionsStartAtOpenings(text, n - 1, p);
      RunSplits(text, 0, n - 1, n, START);
      assert Run(text, n - 1, n, st) == Step(st, n - 1, text[n - 1]);
      StepStarts(st, n - 1, text[n - 1], p);
    }
  }

  lemma NothingStarts(p: nat)
    ensures !StartsAt(START, p)
  {
  }

  /**
   * For every text the reported regions correspond one to one to the braces met outside strings, any
   * two are nested or disjoint, and they come by end, inner before outer.
   */
  lemma RegionsFormAForest(text: string)
    ensures var spans := Spans(text);
            && (forall i :: 0 <= i < |spans| ==> spans[i].start < spans[i].end <= |text|)
            && (forall i, j :: 0 <= i < j < |spans| ==>
                  && spans[i].start != spans[j].start
                  && (spans[i].end < spans[j].end || (spans[i].end == spans[j].end && spans[j].start < spans[i].start))
                  && Apart(spans[i], spans[j].start))
    ensures forall p :: Opening(text, p) <==> exists i :: 0 <= i < |Spans(text)| && Spans(text)[i].start == p
  {
    PrefixIsSound(text, |text|);
    forall p
      ensures Opening(text, p) <==> exists i :: 0 <= i < |Spans(text)| && Spans(text)[i].start == p
    {
      RegionsStartAtOpenings(text, |text|, p);
      SpansStart(text, p);
    }
  }

  lemma SpansStart(text: string, p: nat)
    ensures StartsAt(Final(text), p) <==> exists i :: 0 <= i < |Spans(text)| && Spans(text)[i].start == p
  {
    var st, spans := Final(text), Spans(text);
    if p in st.opens {
      var k :| 0 <= k < |st.opens| && st.opens[k] == p;
      assert spans[|st.closed| + |st.opens| - 1 - k].start == p;
    } else if StartsAt(st, p) {
      var k :| 0 <= k < |st.closed| && st.closed[k].start == p;
      assert spans[k].start == p;
    }
    if i :| 0 <= i < |spans| && spans[i].start == p {
      if i >= |st.closed| {
        assert st.opens[|st.opens| - 1 - (i - |st.closed|)] == p;
      }
    }
  }

  // ------------------------------------------------------ unterminated regions

  lemma {:induction false} OpensComeFrom(text: string, i: nat, j: nat, st: Scan, p: nat)
    requires i <= j <= |text| && p in Run(text, i, j, st).opens
    ensures p in st.opens || i <= p < j
    decreases j - i
  {
    if i < j {
      OpensComeFrom(text, i + 1, j, Step(st, i, text[i]), p);
    }
  }

  /** A region that never closes is never valid JSON. */
  lemma UnclosedIsNotJson(text: string, p: nat)
    requires p in Final(text).opens
    ensures p < |text| && !(Json.Parse(text[p..]).Some? && Json.Parse(text[p..]).value.Object?)
  {
    hide Run, Step, Json.ParseValue;
    RegionsStartAtOpenings(text, |text|, p);
    assert StartsAt(Final(text), p);
    PrefixIsSound(text, p);
    var st := Run(text, 0, p, START);
    var raw := text[p..];
    if Json.Parse(raw).Some? && Json.Parse(raw).value.Object? {
      assert raw[0] == text[p];
      assert Json.SkipSpace(raw, 0) == 0;
      var j := Json.ParseValue(raw, 0).value.1;
      assert Piece(text, p, raw);
      ValuesAgree(text, p, raw, 0, st);
      RunSplits(text, 0, p, p + j, START);
      RunSplits(text, 0, p + j, |text|, START);
      OpensComeFrom(text, p + j, |text|, Run(text, 0, p + j, START), p);
    }
  }

  // -------------------------------------------------------- inserting a line

  function Moved(p: nat, from: nat, shift: nat): nat { if p >= from then p + shift else p }
  function MovedEnd(p: nat, from: nat, shift: nat): nat { if p > from then p + shift else p }

  function Shifted(st: Scan, from: nat, shift: nat): Scan {
    Scan(seq(|st.opens|, k requires 0 <= k < |st.opens| => Moved(st.opens[k], from, shift)),
         seq(|st.closed|, k requires 0 <= k < |st.closed| =>
           Span(Moved(st.closed[k].start, from, shift), MovedEnd(st.closed[k].end, from, shift))),
         st.inString, st.escaped)
  }

  lemma StepShifts(st: Scan, i: nat, c: char, from: nat, shift: nat)
    requires from <= i
    ensures Shifted(Step(st, i, c), from, shift) == Step(Shifted(st, from, shift), i + shift, c)
  {
  }

  lemma {:induction false} RunShifts(a: string, b: string, i: nat, st: Scan, from: nat, shift: nat)
    requires from <= i <= |a| && |b| == |a| + shift
    requires forall k :: i <= k < |a| ==> a[k] == b[k + shift]
    ensures Shifted(Run(a, i, |a|, st), from, shift) == Run(b, i + shift, |b|, Shifted(st, from, shift))
    decreases |a| - i
  {
    if i < |a| {
      StepShifts(st, i, a[i], from, shift);
      RunShifts(a, b, i + 1, Step(st, i, a[i]), from, shift);
    }
  }

  predicate BraceFree(s: string) {
    forall i :: 0 <= i < |s| ==> s[i] != '{' && s[i] != '}'
  }

  predicate EndsLine(s: string) {
    s == "" || s[|s| - 1] == '\n'
  }

  lemma {:induction false} BraceFreeRun(text: string, i: nat, j: nat, st: Scan)
    requires i <= j <= |text|
    requires forall k :: i <= k < j ==> text[k] != '{' && text[k] != '}'
    ensures var after := Run(text, i, j, st); after.opens == st.opens && after.closed == st.closed
    decreases j - i
  {
    if i < j {
      BraceFreeRun(text, i + 1, j, Step(st, i, text[i]));
    }
  }

  /** Any text that ends a line leaves the scanner outside strings. */
  lemma LinesEndCalm(text: string, i: nat, j: nat, st: Scan)
    requires i < j <= |text| && text[j - 1] == '\n' && (st.escaped ==> st.inString)
    ensures Calm(Run(text, i, j, st))
  {
    RunSplits(text, i, j - 1, j, st);
    var before := Run(text, i, j - 1, st);
    EscapesInStrings(text, i, j - 1, st);
    assert Run(text, j - 1, j, before) == Step(before, j - 1, '\n');
  }

  lemma {:induction false} EscapesInStrings(text: string, i: nat, j: nat, st: Scan)
    requires i <= j <= |text| && (st.escaped ==> st.inString)
    ensures Run(text, i, j, st).escaped ==> Run(text, i, j, st).inString
    decreases j - i
  {
    if i < j {
      EscapesInStrings(text, i + 1, j, Step(st, i, text[i]));
    }
  }

  lemma {:induction false} RunIsLocal(a: string, b: string, i: nat, j: nat, st: Scan)
    requires i <= j <= |a| && j <= |b| && forall k :: i <= k < j ==> a[k] == b[k]
    ensures Run(a, i, j, st) == Run(b, i, j, st)
    decreases j - i
  {
    if i < j {
      RunIsLocal(a, b, i + 1, j, Step(st, i, a[i]));
    }
  }

  /** Inserting brace-free lines at a line boundary moves the regions behind them and nothing else. */
  lemma InsertedLinesOnlyShift(head: string, lines: string, tail: string)
    requires EndsLine(head) && EndsLine(lines) && BraceFree(lines)
    ensures Final(head + lines + tail) == Shifted(Final(head + tail), |head|, |lines|)
  {
    hide Run, Step;
    var a, b, h, l := head + tail, head + lines + tail, |head|, |lines|;
    var st := Run(a, 0, h, START);
    RunIsLocal(a, b, 0, h, START);
    assert Calm(st) by {
      if h > 0 {
        LinesEndCalm(a, 0, h, START);
      } else {
        EmptyRun(a, 0, START);
      }
    }
    assert Run(b, h, h + l, st) == st by {
      BraceFreeRun(b, h, h + l, st);
      if l > 0 {
        LinesEndCalm(b, h, h + l, st);
      } else {
        EmptyRun(b, h, st);
      }
    }
    PrefixIsSound(a, h);
    assert Shifted(st, h, l) == st;
    RunShifts(a, b, h, st, h, l);
    RunSplits(a, 0, h, |a|, START);
    RunSplits(b, 0, h, |b|, START);
    RunSplits(b, h, h + l, |b|, st);
  }

  lemma EmptyRun(text: string, i: nat, st: Scan)
    requires i <= |text|
    ensures Run(text, i, i, st) == st
  {
  }

  // ------------------------------------------------------- an answer among noise

  /** A JSON object behind noise that ends a line, with brace-free text after it. */
  ghost predicate AnswerAt(text: string, noise: string, answer: string, rest: string) {
    && text == noise + answer + rest
    && EndsLine(noise) && BraceFree(rest)
    && |answer| > 0 && answer[0] == '{' && answer[|answer| - 1] == '}'
    && Json.Parse(answer).Some? && Json.Parse(answer).value.Object?
  }

  /**
   * The answer is one of the reported regions; the regions after it are the unterminated ones of the
   * noise, and no region but those reaches across it. What the noise left open stays open.
   */
  lemma AnswerIsReported(text: string, noise: string, answer: string, rest: string) returns (m: nat)
    requires AnswerAt(text, noise, answer, rest)
    ensures m < |Spans(text)| && Spans(text)[m] == Span(|noise|, |noise| + |answer|)
    ensures forall k :: m < k < |Spans(text)| ==>
              && Spans(text)[k].start < |noise| && Spans(text)[k].end == |text|
              && Spans(text)[k].start in Final(text).opens
    ensures forall k :: 0 <= k < m ==> Spans(text)[k].end <= |noise| || |noise| <= Spans(text)[k].start
    ensures Final(text).opens == Final(noise).opens
  {
    hide Run, Step, Json.ParseValue, Json.ParseMembers;
    var h, e := |noise|, |noise| + |answer|;
    var st := Run(text, 0, h, START);
    if h > 0 {
      LinesEndCalm(text, 0, h, START);
    } else {
      EmptyRun(text, 0, START);
    }
    assert Json.SkipSpace(answer, 0) == 0;
    var j := Json.ParseValue(answer, 0).value.1;
    assert j == |answer|;
    assert Piece(text, h, answer);
    ValuesAgree(text, h, answer, 0, st);
    var after := Run(text, h, e, st);
    BraceFreeRun(text, e, |text|, after);
    RunSplits(text, 0, h, |text|, START);
    RunSplits(text, h, e, |text|, st);
    PrefixIsSound(text, h);
    RunIsLocal(noise, text, 0, h, START);
    m := |after.closed| - 1;
  }
}
