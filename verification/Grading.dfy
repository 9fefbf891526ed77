/** From report files and whitelists to the reward, told by what the files say. */
module Grading {
  import opened Options
  import opened Grader

  // ------------------------------------------------------------------ stripped text

  const SPACES: set<int> := {
    0x09, 0x0A, 0x0B, 0x0C, 0x0D, 0x1C, 0x1D, 0x1E, 0x1F, 0x20, 0x85, 0xA0, 0x1680, 0x2000, 0x2001, 0x2002, 0x2003, 0x2004,
    0x2005, 0x2006, 0x2007, 0x2008, 0x2009, 0x200A, 0x2028, 0x2029, 0x202F, 0x205F, 0x3000
  }

  predicate IsBlank(s: string) { forall c :: c in s ==> c as int in SPACES }

  /** Nothing left to strip. */
  predicate IsBare(s: string) {
    s != "" ==> s[0] as int !in SPACES && s[|s| - 1] as int !in SPACES
  }

  /** The text without the white space around it. */
  predicate Trims(raw: string, text: string) {
    IsBare(text) && exists i, j :: 0 <= i <= j <= |raw| && IsBlank(raw[..i]) && raw[i..j] == text && IsBlank(raw[j..])
  }

  lemma SpacesAreWhite(c: char)
    ensures IsSpace(c) <==> c as int in SPACES
  {
  }

  lemma {:induction false} LeftIsStripped(s: string)
    ensures var left := StripLeft(s);
            |left| <= |s| && left == s[|s| - |left|..] && IsBlank(s[..|s| - |left|]) && (left != "" ==> left[0] as int !in SPACES)
  {
    hide IsSpace;
    if s != "" {
      SpacesAreWhite(s[0]);
      if IsSpace(s[0]) {
        LeftIsStripped(s[1..]);
        var k := |s| - |StripLeft(s)|;
        assert s[1..][k - 1..] == s[k..] && s[..k] == [s[0]] + s[1..][..k - 1];
      }
    }
  }

  lemma {:induction false} RightIsStripped(s: string)
    ensures var right := StripRight(s);
            && |right| <= |s| && right == s[..|right|] && IsBlank(s[|right|..])
            && (right != "" ==> right[|right| - 1] as int !in SPACES)
  {
    hide IsSpace;
    if s != "" {
      var n := |s| - 1;
      SpacesAreWhite(s[n]);
      if IsSpace(s[n]) {
        RightIsStripped(s[..n]);
        var k := |StripRight(s)|;
        assert s[..n][..k] == s[..k] && s[k..] == s[..n][k..] + [s[n]];
      }
    }
  }

  lemma StripTrims(raw: string)
    ensures Trims(raw, Strip(raw))
  {
    hide StripLeft, StripRight;
    var left, text := StripLeft(raw), Strip(raw);
    LeftIsStripped(raw);
    RightIsStripped(left);
    var i := |raw| - |left|;
    var j := i + |text|;
    assert raw[i..j] == left[..|text|] && raw[j..] == left[|text|..];
    assert text != "" ==> text[0] == left[0];
  }

  lemma TrimsToOne(raw: string, a: string, b: string)
    requires Trims(raw, a) && Trims(raw, b)
    ensures a == b
  {
    hide IsBlank;
    var i, j :| 0 <= i <= j <= |raw| && IsBlank(raw[..i]) && raw[i..j] == a && IsBlank(raw[j..]);
    var i', j' :| 0 <= i' <= j' <= |raw| && IsBlank(raw[..i']) && raw[i'..j'] == b && IsBlank(raw[j'..]);
    if a == "" {
      BareInBlank(raw, i, b, i', j');
    } else if b == "" {
      BareInBlank(raw, i', a, i, j);
    } else {
      BareEnds(raw, a, i, j, i', j');
      BareEnds(raw, b, i', j', i, j);
    }
  }

  lemma BlankAround(raw: string, i: int, j: int)
    requires 0 <= i <= j <= |raw| && IsBlank(raw[..i]) && IsBlank(raw[j..])
    ensures forall k :: 0 <= k < i || j <= k < |raw| ==> raw[k] as int in SPACES
  {
    forall k | 0 <= k < i || j <= k < |raw| ensures raw[k] as int in SPACES {
      if k < i {
        assert raw[k] in raw[..i];
      } else {
        assert raw[j..][k - j] == raw[k] && raw[k] in raw[j..];
      }
    }
  }

  /** A bare part lies within the bounds of any trimming. */
  lemma BareEnds(raw: string, a: string, i: int, j: int, i': int, j': int)
    requires 0 <= i < j <= |raw| && raw[i..j] == a && IsBare(a)
    requires 0 <= i' <= j' <= |raw| && IsBlank(raw[..i']) && IsBlank(raw[j'..])
    ensures i' <= i && j <= j'
  {
    hide IsBlank;
    BlankAround(raw, i', j');
    assert a[0] == raw[i] && a[|a| - 1] == raw[j - 1];
  }

  lemma BareInBlank(raw: string, i: int, b: string, i': int, j': int)
    requires 0 <= i <= |raw| && IsBlank(raw[..i]) && IsBlank(raw[i..])
    requires 0 <= i' <= j' <= |raw| && raw[i'..j'] == b && IsBare(b)
    ensures b == ""
  {
    if b != "" {
      BareEnds(raw, b, i', j', i, i);
    }
  }

  lemma StripMeans(raw: string)
    ensures forall text :: Trims(raw, text) <==> text == Strip(raw)
  {
    hide Trims, Strip;
    StripTrims(raw);
    forall text | Trims(raw, text) ensures text == Strip(raw) {
      TrimsToOne(raw, text, Strip(raw));
    }
  }

  // -------------------------------------------------------------------- status words

  predicate SameLetter(unit: char, c: char) {
    unit == c || ('a' <= c <= 'z' && unit as int == c as int - 32) || (c == 'k' && unit == '\U{212A}')
  }

  /** The text is this lower-case word in any letter case. */
  predicate IsWord(text: string, word: string) {
    |text| == |word| && forall i :: 0 <= i < |word| ==> SameLetter(text[i], word[i])
  }

  /** A status is one of these words once it is stripped. */
  ghost predicate IsStatus(raw: string, word: string) {
    exists text :: Trims(raw, text) && IsWord(text, word)
  }

  lemma {:induction false} LowersTo(s: string)
    ensures |Lower(s)| == |s| && forall i :: 0 <= i < |s| ==> Lower(s)[i] == LowerChar(s[i])
  {
    if s != "" {
      LowersTo(s[1..]);
    }
  }

  lemma WordsAreFolded(text: string, word: string)
    requires forall c :: c in word ==> 'a' <= c <= 'z'
    ensures Lower(text) == word <==> IsWord(text, word)
  {
    hide Lower;
    LowersTo(text);
    if |text| == |word| {
      forall i | 0 <= i < |word| ensures SameLetter(text[i], word[i]) <==> Lower(text)[i] == word[i] {
        assert word[i] in word;
      }
    }
  }

  lemma StatusMeans(raw: string, word: string)
    requires forall c :: c in word ==> 'a' <= c <= 'z'
    ensures IsStatus(raw, word) <==> Lower(Strip(raw)) == word
  {
    hide Trims, Strip, Lower, IsWord;
    StripMeans(raw);
    WordsAreFolded(Strip(raw), word);
  }

  /** A CTRF status passes only as "passed"; three words skip, and anything else fails. */
  lemma StatusesMean(raw: string)
    ensures NormStatus(raw) == Passed <==> IsStatus(raw, "passed")
    ensures NormStatus(raw) == Skipped <==> IsStatus(raw, "skipped") || IsStatus(raw, "pending") || IsStatus(raw, "other")
  {
    hide Strip, Lower, IsStatus;
    StatusMeans(raw, "passed");
    StatusMeans(raw, "skipped");
    StatusMeans(raw, "pending");
    StatusMeans(raw, "other");
    assert |"passed"| == 6 && |"skipped"| == |"pending"| == 7 && |"other"| == 5;
  }

  // ------------------------------------------------------------------- raw test cases

  ghost predicate IsSuite(suite: Suite, text: string) {
    match suite
    case NoSuite => text == ""
    case SuiteText(raw) => Trims(raw, text)
    case SuiteList(items) => if items == [] then text == "" else Trims(items[0], text)
  }

  /** The id of a named case: its stripped name, behind a stripped prefix that is not empty. */
  predicate IsId(prefix: string, name: string, id: string) {
    name != "" && id == if prefix == "" then name else prefix + "." + name
  }

  ghost predicate IsCtrfCase(t: CtrfTest, qualified: bool, id: string) {
    t.CtrfTest? && exists name, suite :: Trims(t.name, name) && IsSuite(t.suite, suite) && IsId(if qualified then suite else "", name, id)
  }

  ghost predicate IsJunitCase(c: JunitCase, id: string) {
    exists name, classname :: Trims(c.name, name) && Trims(c.classname, classname) && IsId(classname, name, id)
  }

  predicate IsFailureMark(m: Mark) { m.tag == "failure" || m.tag == "error" }

  predicate IsCleanCase(c: JunitCase) {
    forall m :: m in c.marks ==> !IsFailureMark(m) && m.tag != "skipped"
  }

  /** What a failed CTRF case says: its message, or its trace when there is no message. */
  ghost predicate IsCtrfMessage(t: CtrfTest, message: string)
    requires t.CtrfTest?
  {
    Trims(if t.message == "" then t.trace else t.message, message)
  }

  /** What a failed JUnit case says: attribute and text of its first failure mark, on lines of their own. */
  ghost predicate IsJunitMessage(c: JunitCase, message: string) {
    exists i :: && 0 <= i < |c.marks| && IsFailureMark(c.marks[i]) && (forall j :: 0 <= j < i ==> !IsFailureMark(c.marks[j]))
                && IsMarkMessage(c.marks[i], message)
  }

  ghost predicate IsMarkMessage(m: Mark, message: string) {
    exists head, body ::
      && Trims(m.message, head) && Trims(m.text, body)
      && message == if head == "" then body else if body == "" then head else head + "\n" + body
  }

  lemma SuitesMean(suite: Suite)
    ensures forall text :: IsSuite(suite, text) <==> text == SuiteName(suite)
  {
    hide Trims, Strip;
    match suite {
      case NoSuite =>
      case SuiteText(raw) => StripMeans(raw);
      case SuiteList(items) =>
        if items != [] {
          StripMeans(items[0]);
        }
    }
  }

  /** A CTRF case is read exactly when it is a named object, and then with its id, its status and its message. */
  lemma CtrfCasesMean(t: CtrfTest, qualified: bool)
    ensures match CtrfEntry(t, qualified)
            case None => forall id :: !IsCtrfCase(t, qualified, id)
            case Some(e) =>
              && t.CtrfTest? && (forall id :: IsCtrfCase(t, qualified, id) <==> id == e.id)
              && (e.status == Passed <==> IsStatus(t.status, "passed"))
              && (e.status == Skipped <==> IsStatus(t.status, "skipped") || IsStatus(t.status, "pending") || IsStatus(t.status, "other"))
              && (if e.status == Passed then e.message == "" else IsCtrfMessage(t, e.message))
  {
    hide Trims, Strip, IsStatus, NormStatus, IsSuite, SuiteName;
    if t.CtrfTest? {
      StripMeans(t.name);
      SuitesMean(t.suite);
      StatusesMean(t.status);
      StripMeans(if t.message != "" then t.message else t.trace);
      var name, suite := Strip(t.name), SuiteName(t.suite);
      assert Trims(t.name, name) && IsSuite(t.suite, suite);
      assert forall id :: IsCtrfCase(t, qualified, id) <==> IsId(if qualified then suite else "", name, id);
    }
  }

  lemma JoinedLinesAreBare(head: string, body: string)
    requires IsBare(head) && IsBare(body)
    ensures var text := if head == "" then body else if body == "" then head else head + "\n" + body;
            Trims(text, text)
  {
    var text := if head == "" then body else if body == "" then head else head + "\n" + body;
    assert text[0..|text|] == text && text[..0] == "" && text[|text|..] == "";
    assert IsBlank(text[..0]) && IsBlank(text[|text|..]);
  }

  lemma MarksMean(m: Mark)
    ensures IsMarkMessage(m, FailureText(m)) && (IsFailure(m) <==> IsFailureMark(m))
  {
    hide Trims, Strip;
    var head, body := Strip(m.message), Strip(m.text);
    StripMeans(m.message);
    StripMeans(m.text);
    TrimmedIsBare(m.message, head);
    TrimmedIsBare(m.text, body);
    JoinedLinesAreBare(head, body);
    StripMeans(if head == "" then body else if body == "" then head else head + "\n" + body);
  }

  lemma TrimmedIsBare(raw: string, text: string)
    requires Trims(raw, text)
    ensures IsBare(text)
  {
  }

  lemma {:induction false} FirstFailureSpeaks(marks: seq<Mark>, sofar: Status) returns (i: nat)
    requires Verdict(marks, sofar).0 == Failed && sofar != Failed
    ensures i < |marks| && IsFailureMark(marks[i]) && forall j :: 0 <= j < i ==> !IsFailureMark(marks[j])
    ensures IsMarkMessage(marks[i], Verdict(marks, sofar).1)
  {
    hide IsMarkMessage, FailureText;
    MarksMean(marks[0]);
    if IsFailure(marks[0]) {
      i := 0;
    } else {
      var k := FirstFailureSpeaks(marks[1..], if marks[0].tag == "skipped" then Skipped else sofar);
      i := k + 1;
    }
  }

  /** A JUnit case is read exactly when it has a name; failure marks fail it, and it passes without any mark. */
  lemma JunitCasesMean(c: JunitCase)
    ensures match JunitEntry(c)
            case None => forall id :: !IsJunitCase(c, id)
            case Some(e) =>
              && (forall id :: IsJunitCase(c, id) <==> id == e.id)
              && (e.status == Passed <==> IsCleanCase(c))
              && (e.status == Failed <==> exists m :: m in c.marks && IsFailureMark(m))
              && (if e.status == Failed then IsJunitMessage(c, e.message) else e.message == "")
  {
    hide Trims, Strip, Verdict, IsMarkMessage;
    StripMeans(c.name);
    StripMeans(c.classname);
    VerdictIsTheWorstMark(c.marks, Passed);
    if Verdict(c.marks, Passed).0 == Failed {
      var i := FirstFailureSpeaks(c.marks, Passed);
      assert IsJunitMessage(c, Verdict(c.marks, Passed).1);
    }
    var name, classname := Strip(c.name), Strip(c.classname);
    assert Trims(c.name, name) && Trims(c.classname, classname);
    assert forall id :: IsJunitCase(c, id) <==> IsId(classname, name, id);
  }

  // -------------------------------------------------------------- reports and whitelists

  /** The file has a case of this id. */
  ghost predicate Runs(file: ReportFile, qualified: bool, id: string) {
    match file
    case Unreadable => false
    case Ctrf(tests) => exists t :: t in tests && IsCtrfCase(t, qualified, id)
    case Junit(cases) => exists c :: c in cases && IsJunitCase(c, id)
  }

  /** Every case of this id in the file passed. */
  ghost predicate RunsCleanly(file: ReportFile, qualified: bool, id: string) {
    match file
    case Unreadable => true
    case Ctrf(tests) => forall t :: t in tests && IsCtrfCase(t, qualified, id) ==> IsStatus(t.status, "passed")
    case Junit(cases) => forall c :: c in cases && IsJunitCase(c, id) ==> IsCleanCase(c)
  }

  /** The test ran somewhere and passed wherever it ran. */
  ghost predicate PassesThroughout(files: seq<ReportFile>, qualified: bool, id: string) {
    && (exists file :: file in files && Runs(file, qualified, id))
    && (forall file :: file in files ==> RunsCleanly(file, qualified, id))
  }

  /** A whitelist names an id on a line of its own. */
  ghost predicate IsListed(lines: seq<string>, id: string) {
    id != "" && exists line :: line in lines && Trims(line, id)
  }

  /** So many different ids are listed. */
  ghost predicate ListsAsMany(lines: seq<string>, n: nat) {
    exists ids: set<string> :: |ids| == n && forall id :: id in ids <==> IsListed(lines, id)
  }

  /** So many different ids are listed and pass. */
  ghost predicate PassAsMany(lines: seq<string>, files: seq<ReportFile>, qualified: bool, n: nat) {
    exists ids: set<string> :: |ids| == n && forall id :: id in ids <==> IsListed(lines, id) && PassesThroughout(files, qualified, id)
  }

  lemma {:induction false} PresentAreTheCases(cases: seq<Option<Entry>>)
    ensures forall e :: e in Present(cases) <==> Some(e) in cases
  {
    if cases != [] {
      var n := |cases| - 1;
      PresentAreTheCases(cases[..n]);
      assert cases == cases[..n] + [cases[n]];
    }
  }

  lemma CtrfFilesRun(tests: seq<CtrfTest>, qualified: bool, id: string)
    ensures var entries, file := EntriesOf(Ctrf(tests), qualified), Ctrf(tests);
            && (Runs(file, qualified, id) <==> exists e :: e in entries && e.id == id)
            && (RunsCleanly(file, qualified, id) <==> forall e :: e in entries && e.id == id ==> e.status == Passed)
  {
    hide CtrfEntry, IsCtrfCase, IsStatus, Present, IsCtrfMessage;
    var cases := Cases(Ctrf(tests), qualified);
    PresentAreTheCases(cases);
    forall i | 0 <= i < |tests|
      ensures IsCtrfCase(tests[i], qualified, id) <==> cases[i].Some? && cases[i].value.id == id
      ensures cases[i].Some? ==> tests[i].CtrfTest? && (cases[i].value.status == Passed <==> IsStatus(tests[i].status, "passed"))
    {
      CtrfCasesMean(tests[i], qualified);
    }
    forall e | e in Present(cases) ensures exists i :: 0 <= i < |tests| && cases[i] == Some(e) {
      assert Some(e) in cases;
    }
    forall i | 0 <= i < |tests| && cases[i].Some? ensures cases[i].value in Present(cases) {
      assert Some(cases[i].value) in cases;
    }
  }

  lemma JunitFilesRun(raw: seq<JunitCase>, qualified: bool, id: string)
    ensures var entries, file := EntriesOf(Junit(raw), qualified), Junit(raw);
            && (Runs(file, qualified, id) <==> exists e :: e in entries && e.id == id)
            && (RunsCleanly(file, qualified, id) <==> forall e :: e in entries && e.id == id ==> e.status == Passed)
  {
    hide JunitEntry, IsJunitCase, IsCleanCase, Present, IsJunitMessage;
    var cases := Cases(Junit(raw), qualified);
    PresentAreTheCases(cases);
    forall i | 0 <= i < |raw|
      ensures IsJunitCase(raw[i], id) <==> cases[i].Some? && cases[i].value.id == id
      ensures cases[i].Some? ==> (cases[i].value.status == Passed <==> IsCleanCase(raw[i]))
    {
      JunitCasesMean(raw[i]);
    }
    forall e | e in Present(cases) ensures exists i :: 0 <= i < |raw| && cases[i] == Some(e) {
      assert Some(e) in cases;
    }
    forall i | 0 <= i < |raw| && cases[i].Some? ensures cases[i].value in Present(cases) {
      assert Some(cases[i].value) in cases;
    }
  }

  lemma FilesRun(file: ReportFile, qualified: bool, id: string)
    ensures Runs(file, qualified, id) <==> exists e :: e in EntriesOf(file, qualified) && e.id == id
    ensures RunsCleanly(file, qualified, id) <==> forall e :: e in EntriesOf(file, qualified) && e.id == id ==> e.status == Passed
  {
    hide Runs, RunsCleanly;
    match file {
      case Unreadable => UnreadableFilesSayNothing(qualified, id);
      case Ctrf(tests) => CtrfFilesRun(tests, qualified, id);
      case Junit(cases) => JunitFilesRun(cases, qualified, id);
    }
  }

  lemma UnreadableFilesSayNothing(qualified: bool, id: string)
    ensures EntriesOf(Unreadable, qualified) == []
    ensures !Runs(Unreadable, qualified, id) && RunsCleanly(Unreadable, qualified, id)
  {
  }

  lemma {:induction false} ConcatHolds(parts: seq<seq<Entry>>)
    ensures forall e :: e in Concat(parts) <==> exists i :: 0 <= i < |parts| && e in parts[i]
  {
    if parts != [] {
      var n := |parts| - 1;
      ConcatHolds(parts[..n]);
      assert parts == parts[..n] + [parts[n]];
    }
  }

  /** What the merged entries say about an id is what the files say. */
  lemma EntriesPassIff(files: seq<ReportFile>, qualified: bool, id: string)
    ensures PassesEverywhere(Concat(AllEntries(files, qualified)), id) <==> PassesThroughout(files, qualified, id)
  {
    hide Runs, RunsCleanly, EntriesOf, Concat;
    var parts := AllEntries(files, qualified);
    ConcatHolds(parts);
    forall i | 0 <= i < |files|
      ensures Runs(files[i], qualified, id) <==> exists e: Entry :: e in parts[i] && e.id == id
      ensures RunsCleanly(files[i], qualified, id) <==> forall e: Entry :: e in parts[i] && e.id == id ==> e.status == Passed
    {
      FilesRun(files[i], qualified, id);
    }
    forall file | file in files ensures exists i :: 0 <= i < |files| && files[i] == file {
    }
  }

  lemma WhitelistMeans(lines: seq<string>)
    ensures forall id :: id in Whitelist(lines) <==> IsListed(lines, id)
  {
    hide Strip, Trims, Whitelist;
    WhitelistNamesEachOnce(lines);
    forall line ensures forall text :: Trims(line, text) <==> text == Strip(line) {
      StripMeans(line);
    }
  }

  // ------------------------------------------------------------------------ the reward

  /** The reward, the counts and the rates, as the files and the whitelists give them. */
  ghost predicate GradeFits(grade: Grade, files: seq<ReportFile>, qualified: bool, f2p: seq<string>, p2p: seq<string>) {
    && grade.reward in {0, 1}
    && (grade.reward == 1 <==>
          && (exists id :: IsListed(f2p, id))
          && forall id :: IsListed(f2p, id) || IsListed(p2p, id) ==> PassesThroughout(files, qualified, id))
    && PassAsMany(f2p, files, qualified, grade.f2pPassed)
    && PassAsMany(p2p, files, qualified, grade.p2pPassed)
    && RatesFit(grade, f2p, p2p)
  }

  /** Each rate is passed over listed; without any listed, 0 for what was to be fixed and for both, 1 for what worked. */
  ghost predicate RatesFit(grade: Grade, f2p: seq<string>, p2p: seq<string>) {
    exists fixes: nat, keeps: nat ::
      && ListsAsMany(f2p, fixes) && ListsAsMany(p2p, keeps)
      && IsRate(grade.f2p, grade.f2pPassed, fixes, 0.0) && IsRate(grade.p2p, grade.p2pPassed, keeps, 1.0)
      && IsRate(grade.partial, grade.f2pPassed + grade.p2pPassed, fixes + keeps, 0.0)
  }

  predicate IsRate(rate: real, passed: nat, listed: nat, empty: real) {
    if listed == 0 then rate == empty else rate * listed as real == passed as real
  }

  lemma RatesMean(passed: nat, listed: nat, empty: real)
    ensures IsRate(Rate(passed, listed, empty), passed, listed, empty)
  {
    if listed != 0 {
      var n := listed as real;
      assert n != 0.0;
      QuotientTimesDivisor(passed as real, n);
    }
  }

  lemma QuotientTimesDivisor(p: real, n: real)
    requires n != 0.0
    ensures p / n * n == p
  {
  }

  function Passing(seen: Table, ids: seq<string>): set<string> { set id | id in ids && Passes(seen, id) }
  function Listed(ids: seq<string>): set<string> { set id | id in ids }

  lemma OneMoreId(seen: Table, ids: seq<string>, id: string)
    ensures Passing(seen, ids + [id]) == if Passes(seen, id) then Passing(seen, ids) + {id} else Passing(seen, ids)
    ensures Listed(ids + [id]) == Listed(ids) + {id}
    ensures id !in ids ==> id !in Listed(ids) && id !in Passing(seen, ids)
  {
    hide Passes;
  }

  lemma {:induction false} PassesAreCounted(seen: Table, ids: seq<string>)
    requires forall i, j :: 0 <= i < j < |ids| ==> ids[i] != ids[j]
    ensures PassCount(seen, ids) == |Passing(seen, ids)| && |ids| == |Listed(ids)|
  {
    hide Passes, PassCount, Passing, Listed;
    if ids == [] {
      NothingIsCounted(seen);
    } else {
      var n := |ids| - 1;
      PassesAreCounted(seen, ids[..n]);
      assert ids == ids[..n] + [ids[n]];
      OneMoreId(seen, ids[..n], ids[n]);
      PassCountGrows(seen, ids[..n], ids[n]);
    }
  }

  lemma NothingIsCounted(seen: Table)
    ensures PassCount(seen, []) == 0 && Passing(seen, []) == {} && Listed([]) == {}
  {
  }

  lemma CountsMean(lines: seq<string>, seen: Table, files: seq<ReportFile>, qualified: bool)
    requires IsMerge(seen, Concat(AllEntries(files, qualified)))
    ensures PassAsMany(lines, files, qualified, PassCount(seen, Whitelist(lines)))
    ensures ListsAsMany(lines, |Whitelist(lines)|)
    ensures forall id :: Passes(seen, id) <==> PassesThroughout(files, qualified, id)
  {
    hide IsMerge, Concat, AllEntries, Whitelist, PassCount, PassesThroughout, IsListed, Passes, PassesEverywhere;
    var entries, ids := Concat(AllEntries(files, qualified)), Whitelist(lines);
    forall id ensures Passes(seen, id) <==> PassesThroughout(files, qualified, id) {
      PassesIff(seen, entries, id);
      EntriesPassIff(files, qualified, id);
    }
    WhitelistMeans(lines);
    WhitelistNamesEachOnce(lines);
    PassesAreCounted(seen, ids);
    var passing, listed := Passing(seen, ids), Listed(ids);
    assert forall id :: id in passing <==> IsListed(lines, id) && PassesThroughout(files, qualified, id);
    assert forall id :: id in listed <==> IsListed(lines, id);
  }

  /** The grade of the merged reports is what the files say. */
  lemma GradesMean(seen: Table, files: seq<ReportFile>, qualified: bool, f2p: seq<string>, p2p: seq<string>)
    requires IsMerge(seen, Concat(AllEntries(files, qualified)))
    ensures GradeFits(GradeOf(seen, Whitelist(f2p), Whitelist(p2p)), files, qualified, f2p, p2p)
  {
    hide IsMerge, Concat, AllEntries, Whitelist, PassCount, PassesThroughout, IsListed, Passes, PassAsMany, ListsAsMany, IsRate,
         Rate;
    var fixes, keeps := Whitelist(f2p), Whitelist(p2p);
    var grade := GradeOf(seen, fixes, keeps);
    CountsMean(f2p, seen, files, qualified);
    CountsMean(p2p, seen, files, qualified);
    WhitelistMeans(f2p);
    WhitelistMeans(p2p);
    RewardCounts(seen, fixes, keeps);
    RatesMean(grade.f2pPassed, |fixes|, 0.0);
    RatesMean(grade.p2pPassed, |keeps|, 1.0);
    RatesMean(grade.f2pPassed + grade.p2pPassed, |fixes| + |keeps|, 0.0);
    assert RatesFit(grade, f2p, p2p);
    assert fixes != [] ==> fixes[0] in fixes;
  }

  lemma RewardCounts(seen: Table, f2p: seq<string>, p2p: seq<string>)
    ensures var grade := GradeOf(seen, f2p, p2p);
            && grade.reward in {0, 1}
            && (grade.reward == 1 <==>
                  (exists id :: id in f2p) && forall id :: id in f2p || id in p2p ==> Passes(seen, id))
  {
    hide Passes;
    assert f2p != [] ==> f2p[0] in f2p;
  }

  lemma GradeIsOf(seen: Table, f2p: seq<string>, p2p: seq<string>)
    ensures var fp, pp := PassCount(seen, f2p), PassCount(seen, p2p);
            GradeOf(seen, f2p, p2p) ==
              Graded(if |f2p| > 0 && |f2p| - fp == 0 && |p2p| - pp == 0 then 1 else 0, fp, pp, |f2p|, |p2p|)
  {
  }

  lemma NothingIsGraded(f2p: seq<string>, p2p: seq<string>)
    ensures RatesFit(Graded(0, 0, 0, |Whitelist(f2p)|, |Whitelist(p2p)|), f2p, p2p)
  {
    hide Whitelist, ListsAsMany, IsRate, Rate, IsListed;
    AreListed(f2p);
    AreListed(p2p);
    RatesMean(0, |Whitelist(f2p)|, 0.0);
    RatesMean(0, |Whitelist(p2p)|, 1.0);
    RatesMean(0, |Whitelist(f2p)| + |Whitelist(p2p)|, 0.0);
  }

  lemma AreListed(lines: seq<string>)
    ensures ListsAsMany(lines, |Whitelist(lines)|)
  {
    hide Whitelist, IsListed;
    WhitelistMeans(lines);
    WhitelistNamesEachOnce(lines);
    PassesAreCounted(map[], Whitelist(lines));
    assert forall id :: id in Listed(Whitelist(lines)) <==> IsListed(lines, id);
  }

  /**
   * `cmd_grade`: reward 1 exactly when something had to be fixed and every listed test ran and passed
   * in every case of every readable report; the counts are those of the listed tests that do.
   */
  method GradeReports(files: seq<ReportFile>, qualified: bool, f2pLines: seq<string>, p2pLines: seq<string>, applyFailed: bool)
    returns (grade: Grade)
    ensures !applyFailed ==> GradeFits(grade, files, qualified, f2pLines, p2pLines)
    ensures applyFailed ==> grade.reward == grade.f2pPassed == grade.p2pPassed == 0 && RatesFit(grade, f2pLines, p2pLines)
    ensures !applyFailed ==> exists seen ::
              IsMerge(seen, Concat(AllEntries(files, qualified))) && grade == GradeOf(seen, Whitelist(f2pLines), Whitelist(p2pLines))
  {
    hide IsMerge, Whitelist, Concat, AllEntries, GradeFits, RatesFit, GradeOf, Row, Passes;
    var p2p := LoadIds(p2pLines);
    var f2p := LoadIds(f2pLines);
    if applyFailed {
      NothingIsGraded(f2pLines, p2pLines);
      return Graded(0, 0, 0, |f2p|, |p2p|);
    }
    var seen := MergeReports(files, qualified);
    var pp, pf, pr := Bucket(seen, p2p);
    var fp, ff, fr := Bucket(seen, f2p);
    var binary := if |f2p| > 0 && ff == 0 && pf == 0 then 1 else 0;
    grade := Graded(binary, fp, pp, |f2p|, |p2p|);
    GradeIsOf(seen, f2p, p2p);
    GradesMean(seen, files, qualified, f2pLines, p2pLines);
  }
}
