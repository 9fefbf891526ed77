/** Merging test reports, worst status first, and turning them into a reward. */
module Grader {
  import opened Options

  datatype Status = Passed | Skipped | Failed

  function Rank(s: Status): nat {
    match s
    case Passed => 0
    case Skipped => 1
    case Failed => 2
  }

  datatype Entry = Entry(id: string, status: Status, message: string)

  datatype Result = Result(status: Status, message: string)

  type Table = map<string, Result>

  // ------------------------------------------------------------- reading the reports

  /** What Python's `str.strip` takes for white space. */
  predicate IsSpace(c: char) {
    var n := c as int;
    9 <= n <= 13 || 0x1C <= n <= 0x20 || n in {0x85, 0xA0, 0x1680, 0x2028, 0x2029, 0x202F, 0x205F, 0x3000} || 0x2000 <= n <= 0x200A
  }

  function StripLeft(s: string): string {
    if s != "" && IsSpace(s[0]) then StripLeft(s[1..]) else s
  }

  function StripRight(s: string): string {
    if s != "" && IsSpace(s[|s| - 1]) then StripRight(s[..|s| - 1]) else s
  }

  function Strip(s: string): string { StripRight(StripLeft(s)) }

  /** Lower case where it can yield a letter of the fixed words: besides the capitals, the Kelvin sign. */
  function LowerChar(c: char): char {
    if 'A' <= c <= 'Z' then (c as int + 32) as char else if c == '\U{212A}' then 'k' else c
  }

  function Lower(s: string): string {
    if s == "" then "" else [LowerChar(s[0])] + Lower(s[1..])
  }

  function NormStatus(raw: string): Status {
    var s := Lower(Strip(raw));
    if s == "passed" then Passed
    else if s in {"skipped", "pending", "other"} then Skipped
    else Failed
  }

  datatype Suite = NoSuite | SuiteText(text: string) | SuiteList(items: seq<string>)

  /** One element of a CTRF report's tests; `NotAnObject` is skipped. */
  datatype CtrfTest =
    | NotAnObject
    | CtrfTest(name: string, suite: Suite, status: string, message: string, trace: string)

  function SuiteName(s: Suite): string {
    match s
    case NoSuite => ""
    case SuiteText(text) => Strip(text)
    case SuiteList(items) => if items == [] then "" else Strip(items[0])
  }

  function CtrfEntry(t: CtrfTest, qualified: bool): Option<Entry> {
    if t.NotAnObject? || Strip(t.name) == "" then None
    else
      var name, suite, status := Strip(t.name), SuiteName(t.suite), NormStatus(t.status);
      Some(Entry(
        if qualified && suite != "" then suite + "." + name else name, status,
        if status == Passed then "" else Strip(if t.message != "" then t.message else t.trace)))
  }

  /** A child element of a JUnit testcase, by its local tag name. */
  datatype Mark = Mark(tag: string, message: string, text: string)

  predicate IsFailure(m: Mark) { m.tag in {"failure", "error"} }

  function FailureText(m: Mark): string {
    var head, body := Strip(m.message), Strip(m.text);
    Strip(if head == "" then body else if body == "" then head else head + "\n" + body)
  }

  /** Status and message of a testcase: the first failure or error decides, otherwise any skip does. */
  function Verdict(marks: seq<Mark>, sofar: Status): (Status, string) {
    if marks == [] then (sofar, "")
    else if IsFailure(marks[0]) then (Failed, FailureText(marks[0]))
    else Verdict(marks[1..], if marks[0].tag == "skipped" then Skipped else sofar)
  }

  method JunitStatus(marks: seq<Mark>) returns (status: Status, message: string)
    ensures (status, message) == Verdict(marks, Passed)
  {
    hide FailureText;
    status, message := Passed, "";
    for i := 0 to |marks|
      invariant message == "" && Verdict(marks, Passed) == Verdict(marks[i..], status)
    {
      if IsFailure(marks[i]) {
        return Failed, FailureText(marks[i]);
      }
      if marks[i].tag == "skipped" {
        status := Skipped;
      }
    }
  }

  /** A testcase fails exactly with a failure or error mark, and passes exactly without one and without a skip mark. */
  lemma {:induction false} VerdictIsTheWorstMark(marks: seq<Mark>, sofar: Status)
    requires sofar != Failed
    ensures Verdict(marks, sofar).0 == Failed <==> exists m :: m in marks && IsFailure(m)
    ensures Verdict(marks, sofar).0 == Passed <==>
            sofar == Passed && forall m :: m in marks ==> !IsFailure(m) && m.tag != "skipped"
    ensures Verdict(marks, sofar).0 != Failed ==> Verdict(marks, sofar).1 == ""
  {
    if marks != [] && !IsFailure(marks[0]) {
      VerdictIsTheWorstMark(marks[1..], if marks[0].tag == "skipped" then Skipped else sofar);
      assert marks == [marks[0]] + marks[1..];
    }
  }

  datatype JunitCase = JunitCase(classname: string, name: string, marks: seq<Mark>)

  function JunitEntry(c: JunitCase): Option<Entry> {
    var classname, name, verdict := Strip(c.classname), Strip(c.name), Verdict(c.marks, Passed);
    if name == "" then None
    else Some(Entry(if classname != "" then classname + "." + name else name, verdict.0, verdict.1))
  }

  /** A report file; one that cannot be parsed contributes nothing. */
  datatype ReportFile =
    | Unreadable
    | Ctrf(tests: seq<CtrfTest>)
    | Junit(cases: seq<JunitCase>)

  function Cases(file: ReportFile, qualified: bool): seq<Option<Entry>> {
    match file
    case Unreadable => []
    case Ctrf(tests) => seq(|tests|, i requires 0 <= i < |tests| => CtrfEntry(tests[i], qualified))
    case Junit(cases) => seq(|cases|, i requires 0 <= i < |cases| => JunitEntry(cases[i]))
  }

  function Present(cases: seq<Option<Entry>>): seq<Entry> {
    if cases == [] then []
    else Present(cases[..|cases| - 1]) + if cases[|cases| - 1].Some? then [cases[|cases| - 1].value] else []
  }

  /** The named test cases of a report file, in order. */
  function EntriesOf(file: ReportFile, qualified: bool): seq<Entry> {
    Present(Cases(file, qualified))
  }

  // ------------------------------------------------------------------ worst status wins

  function Single(e: Entry): Result {
    Result(e.status, if e.status == Passed then "" else e.message)
  }

  /** Two results for one id, the earlier first. */
  function Worse(a: Result, b: Result): Result {
    if Rank(b.status) > Rank(a.status) then b
    else if Rank(b.status) == Rank(a.status) && a.message == "" then b
    else a
  }

  function Join(a: Option<Result>, b: Option<Result>): Option<Result> {
    if a == None then b else if b == None then a else Some(Worse(a.value, b.value))
  }

  lemma JoinIsAssociative(a: Option<Result>, b: Option<Result>, c: Option<Result>)
    ensures Join(Join(a, b), c) == Join(a, Join(b, c))
  {
  }

  /** What a sequence of entries says about one id. */
  function ResultOf(entries: seq<Entry>, id: string): Option<Result> {
    if entries == [] then None
    else
      var e := entries[|entries| - 1];
      Join(ResultOf(entries[..|entries| - 1], id), if e.id == id then Some(Single(e)) else None)
  }

  /** An entry with the id, no entry of it ranking higher. */
  predicate IsWorst(entries: seq<Entry>, id: string, status: Status) {
    && (exists e :: e in entries && e.id == id && e.status == status)
    && (forall e :: e in entries && e.id == id ==> Rank(e.status) <= Rank(status))
  }

  /** The first non-empty message among the entries of the id that have the status; empty when there is none. */
  predicate IsFirstMessage(entries: seq<Entry>, id: string, status: Status, message: string) {
    (forall e :: e in entries && e.id == id && e.status == status ==> e.message == "" && message == "")
    || (message != "" && exists i :: 0 <= i < |entries| && Says(entries[i], id, status, message)
                                     && forall j :: 0 <= j < i ==> !Says(entries[j], id, status, entries[j].message))
  }

  predicate Says(e: Entry, id: string, status: Status, message: string) {
    e.id == id && e.status == status && e.message == message && message != ""
  }

  /**
   * The merged status of an id is the worst any entry reports, and the merged message is the first
   * non-empty one at that rank; a passing id carries no message.
   */
  lemma {:induction false} ResultIsTheWorst(entries: seq<Entry>, id: string)
    ensures var r := ResultOf(entries, id);
            && (r == None <==> forall e :: e in entries ==> e.id != id)
            && (r.Some? ==> IsWorst(entries, id, r.value.status))
            && (r.Some? && r.value.status == Passed ==> r.value.message == "")
            && (r.Some? && r.value.status != Passed ==> IsFirstMessage(entries, id, r.value.status, r.value.message))
  {
    if entries != [] {
      var shorter, e := entries[..|entries| - 1], entries[|entries| - 1];
      ResultIsTheWorst(shorter, id);
      assert entries == shorter + [e];
      ResultStepsWorst(shorter, e, id, ResultOf(shorter, id), ResultOf(entries, id));
    }
  }

  lemma ResultStepsWorst(shorter: seq<Entry>, e: Entry, id: string, before: Option<Result>, after: Option<Result>)
    requires after == Join(before, if e.id == id then Some(Single(e)) else None)
    requires before == None <==> forall x :: x in shorter ==> x.id != id
    requires before.Some? ==> IsWorst(shorter, id, before.value.status)
    requires before.Some? && before.value.status == Passed ==> before.value.message == ""
    requires before.Some? && before.value.status != Passed ==>
               IsFirstMessage(shorter, id, before.value.status, before.value.message)
    ensures after == None <==> forall x :: x in shorter + [e] ==> x.id != id
    ensures after.Some? ==> IsWorst(shorter + [e], id, after.value.status)
    ensures after.Some? && after.value.status == Passed ==> after.value.message == ""
    ensures after.Some? && after.value.status != Passed ==>
              IsFirstMessage(shorter + [e], id, after.value.status, after.value.message)
  {
    var longer := shorter + [e];
    assert longer[|shorter|] == e;
    assert forall x :: x in longer <==> x in shorter || x == e;
    if after.Some? && after.value.status != Passed {
      MessageSteps(shorter, e, id, before, after.value);
    }
  }

  lemma MessageSteps(shorter: seq<Entry>, e: Entry, id: string, before: Option<Result>, after: Result)
    requires Some(after) == Join(before, if e.id == id then Some(Single(e)) else None)
    requires before == None <==> forall x :: x in shorter ==> x.id != id
    requires before.Some? ==> IsWorst(shorter, id, before.value.status)
    requires after.status != Passed
    requires before.Some? && before.value.status != Passed ==>
               IsFirstMessage(shorter, id, before.value.status, before.value.message)
    ensures IsFirstMessage(shorter + [e], id, after.status, after.message)
  {
    var longer := shorter + [e];
    assert forall j :: 0 <= j < |shorter| ==> longer[j] == shorter[j];
    if before.Some? && before.value.status == after.status && before.value.message != "" {
      var i :| 0 <= i < |shorter| && Says(shorter[i], id, after.status, after.message)
               && forall j :: 0 <= j < i ==> !Says(shorter[j], id, after.status, shorter[j].message);
      assert Says(longer[i], id, after.status, after.message);
    } else {
      forall x | x in shorter ensures !Says(x, id, after.status, x.message) {
        if x.id == id && x.status == after.status {
          assert Rank(x.status) <= Rank(before.value.status);
        }
      }
      if after.message != "" {
        assert Says(longer[|shorter|], id, after.status, after.message);
      }
    }
  }

  // ------------------------------------------------------------------------ the table

  /** The table says about every id what the entries say. */
  ghost predicate IsMerge(table: Table, entries: seq<Entry>) {
    forall id :: (id in table <==> ResultOf(entries, id).Some?) && (id in table ==> Some(table[id]) == ResultOf(entries, id))
  }

  class Report {
    var table: Table

    /** The entries added so far. */
    ghost var entries: seq<Entry>

    ghost predicate Valid()
      reads this
    {
      IsMerge(table, entries)
    }

    constructor ()
      ensures Valid() && entries == []
    {
      table, entries := map[], [];
    }

    /** `add` */
    method Add(id: string, status: Status, message: string)
      requires Valid()
      modifies this
      ensures Valid() && entries == old(entries) + [Entry(id, status, message)]
    {
      ghost var e := Entry(id, status, message);
      assert (entries + [e])[..|entries|] == entries;
      forall other
        ensures ResultOf(entries + [e], other) ==
                Join(ResultOf(entries, other), if other == id then Some(Single(e)) else None)
      {
      }
      if id !in table || Rank(status) > Rank(table[id].status) {
        table := table[id := Result(status, if status != Passed then message else "")];
      } else if Rank(status) == Rank(table[id].status) && status != Passed && table[id].message == "" && message != "" {
        table := table[id := Result(status, message)];
      } else {
        PassedHasNoMessage(entries, id);
      }
      entries := entries + [e];
    }

    /** `parse_ctrf` and `parse_junit`, into a table of their own. */
    method Parse(file: ReportFile, qualified: bool)
      requires Valid() && entries == []
      modifies this
      ensures Valid() && entries == EntriesOf(file, qualified)
    {
      hide JunitEntry, CtrfEntry, IsMerge;
      var cases := Cases(file, qualified);
      for i := 0 to |cases|
        invariant Valid() && entries == Present(cases[..i])
      {
        assert cases[..i + 1][..i] == cases[..i];
        if cases[i].Some? {
          Add(cases[i].value.id, cases[i].value.status, cases[i].value.message);
        }
      }
      assert cases[..|cases|] == cases;
    }

    method AddAll(more: seq<Entry>)
      requires Valid()
      modifies this
      ensures Valid() && entries == old(entries) + more
    {
      for i := 0 to |more|
        invariant Valid() && entries == old(entries) + more[..i]
      {
        Add(more[i].id, more[i].status, more[i].message);
        assert more[..i + 1] == more[..i] + [more[i]];
      }
      assert more[..|more|] == more;
    }
  }

  lemma PassedHasNoMessage(entries: seq<Entry>, id: string)
    ensures ResultOf(entries, id).Some? && ResultOf(entries, id).value.status == Passed ==>
              ResultOf(entries, id).value.message == ""
  {
    ResultIsTheWorst(entries, id);
  }

  // -------------------------------------------------------------- merging whole reports

  /** A table's items in some order: each id once, with its result. */
  ghost predicate AreItems(items: seq<Entry>, table: Table) {
    && (forall i, j :: 0 <= i < j < |items| ==> items[i].id != items[j].id)
    && (forall id :: id in table <==> exists e :: e in items && e.id == id)
    && (forall e :: e in items ==> e.id in table && Result(e.status, e.message) == table[e.id])
  }

  lemma {:induction false} ResultJoins(a: seq<Entry>, b: seq<Entry>, id: string)
    ensures ResultOf(a + b, id) == Join(ResultOf(a, id), ResultOf(b, id))
    decreases |b|
  {
    if b == [] {
      assert a + b == a;
    } else {
      var n := |b| - 1;
      ResultJoins(a, b[..n], id);
      assert (a + b)[..|a + b| - 1] == a + b[..n] && (a + b)[|a + b| - 1] == b[n];
      JoinIsAssociative(ResultOf(a, id), ResultOf(b[..n], id), if b[n].id == id then Some(Single(b[n])) else None);
    }
  }

  lemma {:induction false} ResultOfDistinct(items: seq<Entry>, id: string)
    requires forall i, j :: 0 <= i < j < |items| ==> items[i].id != items[j].id
    ensures ResultOf(items, id) == None <==> forall e :: e in items ==> e.id != id
    ensures forall e :: e in items && e.id == id ==> ResultOf(items, id) == Some(Single(e))
  {
    if items != [] {
      var n := |items| - 1;
      ResultOfDistinct(items[..n], id);
      assert items == items[..n] + [items[n]];
      assert forall e :: e in items[..n] ==> e.id != items[n].id;
    }
  }

  /** The items of a merged report say about every id what the report's entries said. */
  lemma ItemsSayTheSame(items: seq<Entry>, table: Table, entries: seq<Entry>, id: string)
    requires IsMerge(table, entries) && AreItems(items, table)
    ensures ResultOf(items, id) == ResultOf(entries, id)
  {
    hide ResultOf;
    ResultOfDistinct(items, id);
    PassedHasNoMessage(entries, id);
    if id in table {
      var e :| e in items && e.id == id;
      assert Some(Single(e)) == ResultOf(entries, id);
    }
  }

  function Concat(parts: seq<seq<Entry>>): seq<Entry> {
    if parts == [] then [] else Concat(parts[..|parts| - 1]) + parts[|parts| - 1]
  }

  /**
   * Merging each report on its own and then merging the results, whatever the order of each report's
   * items, gives the table that merging all test cases at once gives.
   */
  lemma {:induction false} ReportsMergeAsOne(reports: seq<seq<Entry>>, tables: seq<Table>, items: seq<seq<Entry>>, id: string)
    requires |reports| == |tables| == |items|
    requires forall i :: 0 <= i < |reports| ==> IsMerge(tables[i], reports[i]) && AreItems(items[i], tables[i])
    ensures ResultOf(Concat(items), id) == ResultOf(Concat(reports), id)
  {
    hide ResultOf, IsMerge, AreItems;
    if reports == [] {
      assert Concat(items) == Concat(reports);
    } else {
      var n := |reports| - 1;
      ReportsMergeAsOne(reports[..n], tables[..n], items[..n], id);
      ResultJoins(Concat(reports[..n]), reports[n], id);
      ResultJoins(Concat(items[..n]), items[n], id);
      ItemsSayTheSame(items[n], tables[n], reports[n], id);
    }
  }

  /** The items of a table, in an order of its own. */
  method Items(table: Table) returns (items: seq<Entry>)
    ensures AreItems(items, table)
  {
    items := [];
    var rest := table.Keys;
    while rest != {}
      invariant rest <= table.Keys
      invariant forall i, j :: 0 <= i < j < |items| ==> items[i].id != items[j].id
      invariant forall id :: id in table && id !in rest ==> exists e :: e in items && e.id == id
      invariant forall e :: e in items ==>
                  e.id in table && e.id !in rest && Result(e.status, e.message) == table[e.id]
    {
      var id :| id in rest;
      var e := Entry(id, table[id].status, table[id].message);
      ghost var was := items;
      items := items + [e];
      forall other | other in table && other !in rest - {id} ensures exists x :: x in items && x.id == other {
        if other == id {
          assert e in items;
        } else {
          var x :| x in was && x.id == other;
          assert x in items;
        }
      }
      rest := rest - {id};
    }
  }

  lemma NothingToConcat()
    ensures Concat([]) == []
  {
  }

  lemma ConcatGrows(parts: seq<seq<Entry>>, part: seq<Entry>)
    ensures Concat(parts + [part]) == Concat(parts) + part
  {
    assert (parts + [part])[..|parts|] == parts;
  }

  function AllEntries(files: seq<ReportFile>, qualified: bool): seq<seq<Entry>> {
    seq(|files|, i requires 0 <= i < |files| => EntriesOf(files[i], qualified))
  }

  /** The merge loop of `cmd_grade`: parse each report into its own table, then add its items. */
  method MergeReports(files: seq<ReportFile>, qualified: bool) returns (seen: Table)
    ensures IsMerge(seen, Concat(AllEntries(files, qualified)))
  {
    hide IsMerge, AreItems, ResultOf, EntriesOf, Concat;
    ghost var reports := AllEntries(files, qualified);
    var all := new Report();
    ghost var tables: seq<Table>, items: seq<seq<Entry>> := [], [];
    assert Concat([]) == [] by { NothingToConcat(); }
    for i := 0 to |files|
      invariant all.Valid() && |tables| == |items| == i && all.entries == Concat(items)
      invariant forall j :: 0 <= j < i ==> IsMerge(tables[j], reports[j]) && AreItems(items[j], tables[j])
    {
      var one := new Report();
      one.Parse(files[i], qualified);
      var own := Items(one.table);
      all.AddAll(own);
      ConcatGrows(items, own);
      tables, items := tables + [one.table], items + [own];
    }
    forall id ensures ResultOf(all.entries, id) == ResultOf(Concat(reports), id) {
      ReportsMergeAsOne(reports, tables, items, id);
    }
    SameResultsSameMerge(all.table, all.entries, Concat(reports));
    seen := all.table;
  }

  lemma SameResultsSameMerge(table: Table, a: seq<Entry>, b: seq<Entry>)
    requires IsMerge(table, a) && forall id :: ResultOf(a, id) == ResultOf(b, id)
    ensures IsMerge(table, b)
  {
    hide ResultOf;
  }

  // ----------------------------------------------------------------------- whitelists

  /** Stripped, non-blank, each once, in first-occurrence order. */
  function Whitelist(lines: seq<string>): seq<string> {
    if lines == [] then []
    else
      var before, s := Whitelist(lines[..|lines| - 1]), Strip(lines[|lines| - 1]);
      if s == "" || s in before then before else before + [s]
  }

  /** `load_ids` */
  method LoadIds(lines: seq<string>) returns (ids: seq<string>)
    ensures ids == Whitelist(lines)
  {
    hide Strip;
    ids := [];
    var seen: set<string> := {};
    for i := 0 to |lines|
      invariant ids == Whitelist(lines[..i]) && forall s :: s in seen <==> s in ids
    {
      assert lines[..i + 1][..i] == lines[..i];
      var s := Strip(lines[i]);
      if s == "" || s in seen {
        continue;
      }
      seen := seen + {s};
      ids := ids + [s];
    }
    assert lines[..|lines|] == lines;
  }

  /** A whitelist names every stripped non-blank line exactly once. */
  lemma {:induction false} WhitelistNamesEachOnce(lines: seq<string>)
    ensures forall i, j :: 0 <= i < j < |Whitelist(lines)| ==> Whitelist(lines)[i] != Whitelist(lines)[j]
    ensures forall s :: s in Whitelist(lines) <==> s != "" && exists line :: line in lines && Strip(line) == s
  {
    hide Strip;
    if lines != [] {
      var n := |lines| - 1;
      WhitelistNamesEachOnce(lines[..n]);
      assert lines == lines[..n] + [lines[n]];
    }
  }

  // -------------------------------------------------------------------------- grading

  const MISSING: string := "missing from report (test did not run or produced no result — see raw output)"

  predicate Passes(seen: Table, id: string) {
    id in seen && seen[id].status == Passed
  }

  function Row(seen: Table, id: string): Entry {
    if id !in seen then Entry(id, Failed, MISSING)
    else Entry(id, seen[id].status, if seen[id].status == Passed then "" else seen[id].message)
  }

  function PassCount(seen: Table, ids: seq<string>): (n: nat)
    ensures n <= |ids|
    ensures n == |ids| <==> forall id :: id in ids ==> Passes(seen, id)
  {
    if ids == [] then 0
    else
      assert forall id :: id in ids <==> id in ids[..|ids| - 1] || id == ids[|ids| - 1];
      PassCount(seen, ids[..|ids| - 1]) + if Passes(seen, ids[|ids| - 1]) then 1 else 0
  }

  lemma NothingPasses(seen: Table)
    ensures PassCount(seen, []) == 0
  {
  }

  lemma PassCountGrows(seen: Table, ids: seq<string>, id: string)
    ensures PassCount(seen, ids + [id]) == PassCount(seen, ids) + if Passes(seen, id) then 1 else 0
  {
    assert (ids + [id])[..|ids|] == ids;
  }

  /** `bucket` */
  method Bucket(seen: Table, ids: seq<string>) returns (passed: nat, failed: nat, rows: seq<Entry>)
    ensures passed == PassCount(seen, ids) && passed + failed == |ids| == |rows|
    ensures forall i :: 0 <= i < |ids| ==> rows[i] == Row(seen, ids[i])
  {
    hide PassCount;
    NothingPasses(seen);
    passed, failed, rows := 0, 0, [];
    for i := 0 to |ids|
      invariant passed == PassCount(seen, ids[..i]) && passed + failed == i == |rows|
      invariant forall j :: 0 <= j < i ==> rows[j] == Row(seen, ids[j])
    {
      var id := ids[i];
      assert ids[..i + 1] == ids[..i] + [id];
      PassCountGrows(seen, ids[..i], id);
      if id !in seen {
        rows := rows + [Entry(id, Failed, MISSING)];
        failed := failed + 1;
      } else if seen[id].status == Passed {
        rows := rows + [Entry(id, Passed, "")];
        passed := passed + 1;
      } else {
        rows := rows + [Entry(id, seen[id].status, seen[id].message)];
        failed := failed + 1;
      }
    }
    assert ids[..|ids|] == ids;
  }

  datatype Grade = Grade(reward: nat, f2pPassed: nat, p2pPassed: nat, f2p: real, p2p: real, partial: real)

  function Rate(passed: nat, total: nat, empty: real): real {
    if total == 0 then empty else passed as real / total as real
  }

  function Graded(reward: nat, f2pPassed: nat, p2pPassed: nat, f2pTotal: nat, p2pTotal: nat): Grade {
    Grade(reward, f2pPassed, p2pPassed, Rate(f2pPassed, f2pTotal, 0.0), Rate(p2pPassed, p2pTotal, 1.0),
          Rate(f2pPassed + p2pPassed, f2pTotal + p2pTotal, 0.0))
  }

  /** The grade of a table against the two whitelists. */
  function GradeOf(seen: Table, f2p: seq<string>, p2p: seq<string>): Grade {
    var fp, pp := PassCount(seen, f2p), PassCount(seen, p2p);
    Graded(if f2p != [] && fp == |f2p| && pp == |p2p| then 1 else 0, fp, pp, |f2p|, |p2p|)
  }

  /** Every test case of the id passed in every report, and there was one. */
  predicate PassesEverywhere(entries: seq<Entry>, id: string) {
    && (exists e :: e in entries && e.id == id)
    && (forall e :: e in entries && e.id == id ==> e.status == Passed)
  }

  lemma PassesIff(seen: Table, entries: seq<Entry>, id: string)
    requires IsMerge(seen, entries)
    ensures Passes(seen, id) <==> PassesEverywhere(entries, id)
  {
    hide ResultOf;
    ResultIsTheWorst(entries, id);
  }

  lemma ProductHasTheSign(q: real, n: real)
    requires n > 0.0
    ensures q > 0.0 ==> q * n > 0.0
    ensures q < 0.0 ==> q * n < 0.0
  {
  }

  lemma QuotientIsARate(q: real, p: real, n: real)
    requires n > 0.0 && 0.0 <= p <= n && q * n == p
    ensures 0.0 <= q <= 1.0 && (q == 1.0 <==> p == n)
  {
    assert (q - 1.0) * n == q * n - n;
    ProductHasTheSign(q, n);
    ProductHasTheSign(q - 1.0, n);
  }

  lemma RateIsFull(passed: nat, total: nat)
    requires passed <= total && total > 0
    ensures 0.0 <= passed as real / total as real <= 1.0
    ensures passed as real / total as real == 1.0 <==> passed == total
  {
    QuotientIsARate(passed as real / total as real, passed as real, total as real);
  }

  /** The rates are rates, and the reward is one exactly when both whitelists have rate one. */
  lemma RatesDecideReward(seen: Table, f2p: seq<string>, p2p: seq<string>)
    ensures var g := GradeOf(seen, f2p, p2p);
            && 0.0 <= g.f2p <= 1.0 && 0.0 <= g.p2p <= 1.0 && 0.0 <= g.partial <= 1.0
            && (g.reward == 1 <==> g.f2p == 1.0 && g.p2p == 1.0)
            && (g.reward == 1 <==> f2p != [] && g.partial == 1.0)
  {
    if f2p != [] { RateIsFull(PassCount(seen, f2p), |f2p|); }
    if p2p != [] { RateIsFull(PassCount(seen, p2p), |p2p|); }
    if f2p != [] || p2p != [] {
      RateIsFull(PassCount(seen, f2p) + PassCount(seen, p2p), |f2p| + |p2p|);
    }
  }

  /** Entry by entry the same tests, none with a better status. */
  ghost predicate Worsened(better: seq<Entry>, worse: seq<Entry>) {
    && |better| == |worse|
    && forall i :: 0 <= i < |better| ==>
         worse[i].id == better[i].id && Rank(worse[i].status) >= Rank(better[i].status)
  }

  lemma {:induction false} PassCountShrinks(seen: Table, seen': Table, ids: seq<string>)
    requires forall id :: Passes(seen', id) ==> Passes(seen, id)
    ensures PassCount(seen', ids) <= PassCount(seen, ids)
  {
    if ids != [] {
      PassCountShrinks(seen, seen', ids[..|ids| - 1]);
    }
  }

  /** Worsening test cases never raises a count or the reward. */
  lemma WorseningNeverHelps(better: seq<Entry>, worse: seq<Entry>, seen: Table, seen': Table,
                            f2p: seq<string>, p2p: seq<string>)
    requires Worsened(better, worse) && IsMerge(seen, better) && IsMerge(seen', worse)
    ensures var g, g' := GradeOf(seen, f2p, p2p), GradeOf(seen', f2p, p2p);
            g'.f2pPassed <= g.f2pPassed && g'.p2pPassed <= g.p2pPassed && g'.reward <= g.reward
  {
    hide IsMerge;
    forall id | Passes(seen', id) ensures Passes(seen, id) {
      PassesIff(seen, better, id);
      PassesIff(seen', worse, id);
      StillPasses(better, worse, id);
    }
    PassCountShrinks(seen, seen', f2p);
    PassCountShrinks(seen, seen', p2p);
  }

  lemma StillPasses(better: seq<Entry>, worse: seq<Entry>, id: string)
    requires Worsened(better, worse) && PassesEverywhere(worse, id)
    ensures PassesEverywhere(better, id)
  {
    var w :| w in worse && w.id == id;
    var i :| 0 <= i < |worse| && worse[i] == w;
    assert better[i] in better && better[i].id == id;
    forall e | e in better && e.id == id ensures e.status == Passed {
      var j :| 0 <= j < |better| && better[j] == e;
      assert worse[j] in worse;
    }
  }
}
