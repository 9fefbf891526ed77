/** What a review means, told by the words of its text alone. */
module ReviewRules {
  import opened Options
  import opened ReviewSchema
  import Scanner
  import Json
  import JsonPrint
  import E = CollabEngine

  // -------------------------------------------------------------- fields and words

  /** The string has exactly these characters. */
  predicate Spells(s: Json.Str, word: string) {
    |s| == |word| && forall i :: 0 <= i < |word| ==> s[i] == word[i] as int
  }

  predicate SameLetter(unit: int, c: char) {
    unit == c as int || ('a' <= c <= 'z' && unit == c as int - 32)
  }

  /** The string is this lower-case word in any letter case. */
  predicate IsWord(s: Json.Str, word: string) {
    |s| == |word| && forall i :: 0 <= i < |word| ==> SameLetter(s[i], word[i])
  }

  /** The last member with this key has this value. */
  predicate Has(record: seq<Json.Member>, key: string, value: Json.Value) {
    exists i :: && 0 <= i < |record| && Spells(record[i].key, key) && record[i].value == value
                && forall j :: i < j < |record| ==> !Spells(record[j].key, key)
  }

  predicate HasText(record: seq<Json.Member>, key: string, text: Json.Str) {
    text != [] && Has(record, key, Json.String(text))
  }

  ghost predicate LacksText(record: seq<Json.Member>, key: string) {
    forall text :: !HasText(record, key, text)
  }

  /** The text of a key, None when it has no text. */
  ghost predicate IsTextOf(record: seq<Json.Member>, key: string, text: Option<Json.Str>) {
    if text.Some? then HasText(record, key, text.value) else LacksText(record, key)
  }

  /** The first of two keys that has a text. */
  ghost predicate IsFirstTextOf(record: seq<Json.Member>, key: string, other: string, text: Option<Json.Str>) {
    (text.Some? && IsTextOf(record, key, text)) || (LacksText(record, key) && IsTextOf(record, other, text))
  }

  /** The text of a key is this word in any letter case. */
  ghost predicate Says(record: seq<Json.Member>, key: string, word: string) {
    exists text :: HasText(record, key, text) && IsWord(text, word)
  }

  lemma {:induction false} LookupMeans(record: seq<Json.Member>, key: Json.Str)
    ensures match Json.Lookup(record, key)
            case None => forall i :: 0 <= i < |record| ==> record[i].key != key
            case Some(value) =>
              exists i :: && 0 <= i < |record| && record[i].key == key && record[i].value == value
                          && forall j :: i < j < |record| ==> record[j].key != key
  {
    if record != [] {
      LookupMeans(record[1..], key);
      var rest := Json.Lookup(record[1..], key);
      assert forall i :: 0 < i < |record| ==> record[i] == record[1..][i - 1];
      if rest.Some? {
        var i :| && 0 <= i < |record[1..]| && record[1..][i].key == key && record[1..][i].value == rest.value
                 && forall j :: i < j < |record[1..]| ==> record[1..][j].key != key;
        assert record[i + 1].key == key && forall j :: i + 1 < j < |record| ==> record[j].key != key;
      } else if record[0].key == key {
        assert forall j :: 0 < j < |record| ==> record[j].key != key;
      }
    }
  }

  lemma SpellsUnits(s: Json.Str, word: string)
    ensures Spells(s, word) <==> s == Json.Units(word)
  {
  }

  lemma FieldMeans(record: seq<Json.Member>, key: string)
    ensures forall value :: Has(record, key, value) <==> Field(record, key) == Some(value)
  {
    LookupMeans(record, Json.Units(key));
    forall i | 0 <= i < |record| ensures Spells(record[i].key, key) <==> record[i].key == Json.Units(key) {
      SpellsUnits(record[i].key, key);
    }
  }

  /** A text field is the non-empty string under the last member with that key. */
  lemma TextsAreRead(record: seq<Json.Member>, key: string)
    ensures IsTextOf(record, key, TextField(record, key))
    ensures forall text :: HasText(record, key, text) <==> TextField(record, key) == Some(text)
  {
    hide Has, Field;
    FieldMeans(record, key);
  }

  lemma WordsAreFolded(s: Json.Str, word: string)
    requires forall c :: c in word ==> 'a' <= c <= 'z'
    ensures Lower(s) == Json.Units(word) <==> IsWord(s, word)
  {
    if Lower(s) == Json.Units(word) {
      assert |s| == |word|;
      forall i | 0 <= i < |word| ensures SameLetter(s[i], word[i]) {
        assert Lower(s)[i] == Json.Units(word)[i] && word[i] in word;
      }
    }
    if IsWord(s, word) {
      forall i | 0 <= i < |word| ensures Lower(s)[i] == Json.Units(word)[i] {
        assert SameLetter(s[i], word[i]) && word[i] in word;
      }
      assert Lower(s) == Json.Units(word);
    }
  }

  /** Says, for a text that is known. */
  lemma SaysMeans(record: seq<Json.Member>, key: string, word: string)
    requires forall c :: c in word ==> 'a' <= c <= 'z'
    ensures var text := TextField(record, key);
            Says(record, key, word) <==> text.Some? && Lower(text.value) == Json.Units(word)
  {
    hide HasText, Lower, IsWord;
    TextsAreRead(record, key);
    if TextField(record, key).Some? {
      WordsAreFolded(TextField(record, key).value, word);
    }
  }

  // ------------------------------------------------------------------- findings

  ghost predicate IsRated(item: Json.Value, word: string) {
    item.Object? && Says(item.members, "severity", word)
  }

  /** An item blocks when its severity is one of two words. */
  ghost predicate IsBlocker(item: Json.Value) { IsRated(item, "critical") || IsRated(item, "major") }

  ghost predicate HasSeverity(item: Json.Value) {
    IsBlocker(item) || IsRated(item, "minor") || IsRated(item, "suggestion")
  }

  ghost predicate HasIssue(item: Json.Value) {
    item.Object? && !(LacksText(item.members, "issue") && LacksText(item.members, "summary"))
  }

  ghost predicate IsFinding(item: Json.Value) { HasSeverity(item) && HasIssue(item) }

  /** The complaint about an item that is no finding. */
  ghost predicate Blames(e: ReviewError, item: Json.Value, at: nat) {
    e == if !item.Object? then FindingNotObject(at)
         else if !HasSeverity(item) then BadSeverity(at)
         else MissingIssue(at)
  }

  /** A finding is its item, field by field. */
  ghost predicate FindingFits(item: Json.Value, f: Finding) {
    && item.Object?
    && (f.severity == Critical <==> IsRated(item, "critical"))
    && (f.severity == Major <==> IsRated(item, "major"))
    && (f.severity == Minor <==> IsRated(item, "minor"))
    && (f.severity == Suggestion <==> IsRated(item, "suggestion"))
    && IsTextOf(item.members, "id", f.id) && IsTextOf(item.members, "file", f.file)
    && IsTextOf(item.members, "evidence", f.evidence)
    && IsFirstTextOf(item.members, "issue", "summary", Some(f.issue))
    && IsFirstTextOf(item.members, "required_change", "requiredChange", f.requiredChange)
    && IsNumberOf(item.members, "line", f.line)
  }

  ghost predicate IsNumberOf(record: seq<Json.Member>, key: string, lexeme: Option<string>) {
    forall n :: lexeme == Some(n) <==> Has(record, key, Json.Number(n))
  }

  lemma SeveritiesMean(item: Json.Value)
    requires item.Object?
    ensures var named := TextField(item.members, "severity");
            var severity := if named == None then None else SeverityOf(named.value);
            && (severity == Some(Critical) <==> IsRated(item, "critical"))
            && (severity == Some(Major) <==> IsRated(item, "major"))
            && (severity == Some(Minor) <==> IsRated(item, "minor"))
            && (severity == Some(Suggestion) <==> IsRated(item, "suggestion"))
            && (severity == None <==> !HasSeverity(item))
  {
    hide Says, Lower, TextField;
    var c, m, n, g := "critical", "major", "minor", "suggestion";
    SaysMeans(item.members, "severity", c);
    SaysMeans(item.members, "severity", m);
    SaysMeans(item.members, "severity", n);
    SaysMeans(item.members, "severity", g);
    assert |c| == 8 && |m| == 5 && |n| == 5 && |g| == 10;
    assert Json.Units(m)[1] != Json.Units(n)[1];
  }

  lemma FirstTextsMean(record: seq<Json.Member>, key: string, other: string)
    ensures var text := OrElse(TextField(record, key), TextField(record, other));
            && IsFirstTextOf(record, key, other, text)
            && (text == None <==> LacksText(record, key) && LacksText(record, other))
  {
    hide HasText, TextField;
    TextsAreRead(record, key);
    TextsAreRead(record, other);
  }

  /** An item is read exactly when it is rated by one of the four words and tells its issue. */
  lemma FindingsAreReadIff(item: Json.Value, index: nat)
    ensures match ParseFinding(item, index)
            case Ok(f) => IsFinding(item) && FindingFits(item, f)
            case Err(e) => !IsFinding(item) && Blames(e, item, index)
  {
    hide Says, TextField, SeverityOf, LacksText, IsTextOf, IsFirstTextOf, HasSeverity, IsRated, IsBlocker, Field;
    if item.Object? {
      var record := item.members;
      SeveritiesMean(item);
      FirstTextsMean(record, "issue", "summary");
      FirstTextsMean(record, "required_change", "requiredChange");
      TextsAreRead(record, "id");
      TextsAreRead(record, "file");
      TextsAreRead(record, "evidence");
      FieldMeans(record, "line");
    } else {
      UnratedOutsideObjects(item);
    }
  }

  lemma UnratedOutsideObjects(item: Json.Value)
    requires !item.Object?
    ensures !HasSeverity(item)
  {
  }

  /** The first item that is no finding. */
  ghost predicate IsFirstBad(items: seq<Json.Value>, at: nat) {
    at < |items| && !IsFinding(items[at]) && forall i :: 0 <= i < at ==> IsFinding(items[i])
  }

  /** All items are read in order, or the first that is no finding is reported with its place. */
  lemma {:induction false} ItemsAreReadIff(items: seq<Json.Value>, index: nat)
    ensures match ParseFindings(items, index)
            case Ok(findings) => |findings| == |items| && forall i :: 0 <= i < |items| ==>
              IsFinding(items[i]) && FindingFits(items[i], findings[i])
            case Err(e) => exists at: nat :: IsFirstBad(items, at) && Blames(e, items[at], index + at)
  {
    hide IsFinding, FindingFits, ParseFinding, Blames;
    if items != [] {
      FindingsAreReadIff(items[0], index);
      ItemsAreReadIff(items[1..], index + 1);
      var first := ParseFinding(items[0], index);
      assert forall i :: 0 < i < |items| ==> items[i] == items[1..][i - 1];
      if first.Err? {
        assert IsFirstBad(items, 0) && Blames(first.error, items[0], index + 0);
      } else if ParseFindings(items[1..], index + 1).Err? {
        var e := ParseFindings(items[1..], index + 1).error;
        var at: nat :| IsFirstBad(items[1..], at) && Blames(e, items[1..][at], index + 1 + at);
        assert IsFirstBad(items, at + 1) && Blames(e, items[at + 1], index + (at + 1));
      }
    }
  }

  // -------------------------------------------------------------------- reviews

  ghost predicate HasItems(record: seq<Json.Member>, items: seq<Json.Value>) {
    Has(record, "findings", Json.Array(items))
  }

  ghost predicate IsUnknownVerdict(record: seq<Json.Member>) {
    !LacksText(record, "verdict") && !Says(record, "verdict", "approve") && !Says(record, "verdict", "revise")
  }

  /** A record is a review: a verdict that is one of two words, if any, and a list of findings. */
  ghost predicate IsReview(record: seq<Json.Member>, items: seq<Json.Value>) {
    !IsUnknownVerdict(record) && HasItems(record, items) && forall i :: 0 <= i < |items| ==> IsFinding(items[i])
  }

  ghost predicate HasBlocker(items: seq<Json.Value>) {
    exists i :: 0 <= i < |items| && IsBlocker(items[i])
  }

  /** A review is its record, field by field. */
  ghost predicate ReviewFits(record: seq<Json.Member>, items: seq<Json.Value>, review: Review) {
    && review.raw == record
    && (review.verdict == Some(Approve) <==> Says(record, "verdict", "approve"))
    && (review.verdict == Some(Revise) <==> Says(record, "verdict", "revise"))
    && IsTextOf(record, "summary", if review.summary == [] then None else Some(review.summary))
    && |review.findings| == |items|
    && (forall i :: 0 <= i < |items| ==> FindingFits(items[i], review.findings[i]))
    && (review.hasBlockingFindings <==> HasBlocker(items))
    && (review.verdictMismatch <==> if HasBlocker(items) then Says(record, "verdict", "approve")
                                                         else Says(record, "verdict", "revise"))
  }

  /** Why a record is no review. */
  ghost predicate RejectionFits(record: seq<Json.Member>, e: ReviewError) {
    if IsUnknownVerdict(record) then e == BadVerdict
    else if forall items :: !HasItems(record, items) then e == FindingsNotArray
    else exists items, at: nat :: HasItems(record, items) && IsFirstBad(items, at) && Blames(e, items[at], at)
  }

  lemma VerdictsMean(record: seq<Json.Member>)
    ensures match VerdictOf(record)
            case Ok(verdict) =>
              && !IsUnknownVerdict(record)
              && (verdict == Some(Approve) <==> Says(record, "verdict", "approve"))
              && (verdict == Some(Revise) <==> Says(record, "verdict", "revise"))
            case Err(e) => e == BadVerdict && IsUnknownVerdict(record)
  {
    hide Says, TextField, Lower, HasText;
    SaysMeans(record, "verdict", "approve");
    SaysMeans(record, "verdict", "revise");
    TextsAreRead(record, "verdict");
    assert |"approve"| == 7 && |"revise"| == 6;
  }

  lemma BlockersBlock(items: seq<Json.Value>, findings: seq<Finding>)
    requires |findings| == |items| && forall i :: 0 <= i < |items| ==> FindingFits(items[i], findings[i])
    ensures HasBlocker(items) <==> exists i :: 0 <= i < |findings| && IsBlocking(findings[i])
  {
    hide IsTextOf, IsFirstTextOf, IsNumberOf, IsRated;
    if HasBlocker(items) {
      var i :| 0 <= i < |items| && IsBlocker(items[i]);
      assert FindingFits(items[i], findings[i]) && IsBlocking(findings[i]);
    }
    if i :| 0 <= i < |findings| && IsBlocking(findings[i]) {
      assert FindingFits(items[i], findings[i]) && IsBlocker(items[i]);
    }
  }

  /**
   * A record is read exactly when it is a review, and then as what its words say: it blocks exactly
   * when some item's severity is "critical" or "major" in any letter case, whatever the verdict.
   */
  lemma ReviewsAreBuiltIff(record: seq<Json.Member>)
    ensures match BuildReview(record)
            case Ok(review) => exists items :: IsReview(record, items) && ReviewFits(record, items, review)
            case Err(e) => RejectionFits(record, e) && forall items :: !IsReview(record, items)
  {
    hide VerdictOf, ParseFindings, IsFinding, FindingFits, IsUnknownVerdict, Says, Field, Has, TextField, LacksText, HasText,
         Blames, IsBlocker, IsBlocking;
    VerdictsMean(record);
    FieldMeans(record, "findings");
    SummariesMean(record);
    var listed := Field(record, "findings");
    if listed.Some? && listed.value.Array? {
      var items := listed.value.items;
      ItemsAreReadIff(items, 0);
      assert forall other :: HasItems(record, other) <==> other == items;
      if BuildReview(record).Ok? {
        BlockersBlock(items, ParseFindings(items, 0).value);
        var review := BuildReview(record).value;
        assert IsReview(record, items);
        assert review.hasBlockingFindings <==> HasBlocker(items);
        assert review.verdict.Some? ==> review.verdict.value.Approve? || review.verdict.value.Revise?;
        assert ReviewFits(record, items, review);
      } else if VerdictOf(record).Ok? {
        var e := ParseFindings(items, 0).error;
        var at: nat :| IsFirstBad(items, at) && Blames(e, items[at], 0 + at);
        assert HasItems(record, items) && Blames(e, items[at], at);
      }
    }
  }

  lemma SummariesMean(record: seq<Json.Member>)
    ensures var summary := OrElse(TextField(record, "summary"), Some([])).value;
            IsTextOf(record, "summary", if summary == [] then None else Some(summary))
  {
    hide Has, TextField;
    TextsAreRead(record, "summary");
  }

  // ------------------------------------------------------------------ selection

  /** The white space of ECMAScript, its line terminators included. */
  const BLANKS: set<int> := {
    0x09, 0x0A, 0x0B, 0x0C, 0x0D, 0x20, 0xA0, 0x1680, 0x2000, 0x2001, 0x2002, 0x2003, 0x2004, 0x2005, 0x2006, 0x2007,
    0x2008, 0x2009, 0x200A, 0x2028, 0x2029, 0x202F, 0x205F, 0x3000, 0xFEFF
  }

  lemma BlanksAreWhiteSpace(c: char)
    ensures IsBlank(c) <==> c as int in BLANKS
  {
  }

  lemma {:induction false} SkippedAreBlank(s: string, i: nat)
    requires i <= |s|
    ensures var j := SkipBlanks(s, i);
            && (forall k :: i <= k < j ==> s[k] as int in BLANKS)
            && (j < |s| ==> s[j] as int !in BLANKS)
    decreases |s| - i
  {
    hide IsBlank;
    if i < |s| {
      BlanksAreWhiteSpace(s[i]);
      if IsBlank(s[i]) {
        SkippedAreBlank(s, i + 1);
      }
    }
  }

  ghost predicate HasBlanksOnly(text: string) {
    forall i :: 0 <= i < |text| ==> text[i] as int in BLANKS
  }

  /** The places of the candidates that are objects. */
  function ObjectPlaces(all: seq<Candidate>): set<nat> {
    set k: nat | k < |all| && all[k].value.Some?
  }

  lemma PlacesEnd(earlier: seq<Candidate>, last: Candidate)
    ensures ObjectPlaces(earlier + [last]) ==
            if last.value.Some? then ObjectPlaces(earlier) + {|earlier|} else ObjectPlaces(earlier)
  {
    var all := earlier + [last];
    assert forall k :: 0 <= k < |earlier| ==> all[k] == earlier[k];
  }

  lemma {:induction false} ObjectsAreCounted(all: seq<Candidate>)
    ensures |Objects(all)| == |ObjectPlaces(all)|
    ensures |Objects(all)| == 1 ==> exists k :: k in ObjectPlaces(all) && Objects(all) == [all[k].value.value]
  {
    hide Objects;
    if all == [] {
      NoObjects();
    } else {
      var last := |all| - 1;
      var earlier := ObjectPlaces(all[..last]);
      ObjectsAreCounted(all[..last]);
      ObjectsEnd(all[..last], all[last]);
      PlacesEnd(all[..last], all[last]);
      assert all == all[..last] + [all[last]];
      if |Objects(all)| == 1 {
        if all[last].value == None {
          var k :| k in earlier && Objects(all[..last]) == [all[..last][k].value.value];
          assert k in ObjectPlaces(all) && all[k] == all[..last][k];
        } else {
          assert Objects(all[..last]) == [];
          assert last in ObjectPlaces(all);
        }
      }
    }
  }

  lemma NoObjects()
    ensures Objects([]) == [] && ObjectPlaces([]) == {}
  {
  }

  lemma {:induction false} ObjectsEnd(earlier: seq<Candidate>, last: Candidate)
    ensures Objects(earlier + [last]) == Objects(earlier) + if last.value.Some? then [last.value.value] else []
  {
    if earlier == [] {
      assert [] + [last] == [last] && [last][1..] == [];
    } else {
      assert (earlier + [last])[1..] == earlier[1..] + [last];
      ObjectsEnd(earlier[1..], last);
    }
  }

  lemma {:induction false} NothingStated(all: seq<Candidate>, n: nat)
    requires n <= |all| && forall k :: 0 <= k < n ==> !States(all[k], all, VERDICT)
    ensures SelectReview(all, n) == SelectReview(all, 0)
  {
    hide States;
    if n > 0 {
      NothingStated(all, n - 1);
    }
  }

  /** A text without a verdict is read only when one object stands in it; a blank one is reported as empty. */
  lemma UnsignedReviewsStandAlone(text: string)
    ensures HasBlanksOnly(text) <==> ParseReview(text) == Err(EmptyOutput)
    ensures var all := EligibleCandidates(text);
            var places := ObjectPlaces(all);
            !HasBlanksOnly(text) && (forall k :: 0 <= k < |all| ==> !States(all[k], all, VERDICT)) ==>
              if |places| == 1 then exists k :: k in places && ParseReview(text) == BuildReview(all[k].value.value)
              else ParseReview(text) == Err(if places == {} then NoObject else Ambiguous(|places|))
  {
    hide EligibleCandidates, States, BuildReview, SkipBlanks, IsBlank, Objects;
    var all := EligibleCandidates(text);
    SkippedAreBlank(text, 0);
    ObjectsAreCounted(all);
    if !HasBlanksOnly(text) {
      if forall k :: 0 <= k < |all| ==> !States(all[k], all, VERDICT) {
        NothingStated(all, |all|);
      }
      OnlyBlanksAreEmpty(all, |all|);
    }
  }

  lemma {:induction false} OnlyBlanksAreEmpty(all: seq<Candidate>, n: nat)
    requires n <= |all|
    ensures SelectReview(all, n) != Err(EmptyOutput)
  {
    hide States, BuildReview, Objects;
    if n == 0 {
      if |Objects(all)| == 1 {
        ReviewsAreBuiltIff(Objects(all)[0]);
        RejectionsAreNotEmpty(Objects(all)[0]);
      }
    } else {
      OnlyBlanksAreEmpty(all, n - 1);
      if all[n - 1].value.Some? {
        RejectionsAreNotEmpty(all[n - 1].value.value);
      }
    }
  }

  lemma RejectionsAreNotEmpty(record: seq<Json.Member>)
    ensures BuildReview(record) != Err(EmptyOutput)
  {
    hide BuildReview, IsUnknownVerdict, HasItems, IsFirstBad, HasSeverity;
    ReviewsAreBuiltIff(record);
  }

  // ----------------------------------------------------------------- declared keys

  ghost predicate InString(raw: string, i: nat)
    requires i <= |raw|
  {
    Scanner.Run(raw, 0, i, Scanner.START).inString
  }

  /** Braces opened less braces closed outside strings. */
  ghost function Depth(raw: string, i: nat): int
    requires i <= |raw|
  {
    if i == 0 then 0
    else
      Depth(raw, i - 1)
      + if InString(raw, i - 1) then 0 else if raw[i - 1] == '{' then 1 else if raw[i - 1] == '}' then -1 else 0
  }

  /** White space and then a colon. */
  ghost predicate IsFollowedByColon(raw: string, i: nat) {
    exists j :: i <= j < |raw| && raw[j] == ':' && forall k :: i <= k < j ==> raw[k] as int in BLANKS
  }

  ghost predicate LiesInAnother(p: int, c: Candidate, all: seq<Candidate>) {
    exists other :: other in all && c.start < other.start <= p < other.end <= c.end
  }

  /** The quoted key stands here as a key of the region itself: outside strings, one brace deep, in no other region. */
  ghost predicate IsOwnKey(c: Candidate, all: seq<Candidate>, key: string, i: nat)
    requires i <= |c.raw|
  {
    var end := i + |key| + 2;
    && !InString(c.raw, i) && Depth(c.raw, i) == 1 && !LiesInAnother(c.start + i, c, all)
    && end <= |c.raw| && c.raw[i..end] == ['"'] + key + ['"'] && IsFollowedByColon(c.raw, end)
  }

  lemma ColonsAreFound(raw: string, i: nat)
    requires i <= |raw|
    ensures ColonFollows(raw, i) <==> IsFollowedByColon(raw, i)
  {
    hide IsBlank;
    SkippedAreBlank(raw, i);
    var j := SkipBlanks(raw, i);
    if IsFollowedByColon(raw, i) {
      var p :| i <= p < |raw| && raw[p] == ':' && forall k :: i <= k < p ==> raw[k] as int in BLANKS;
      assert ':' as int !in BLANKS;
    }
  }

  lemma OwnKeysAreFound(c: Candidate, all: seq<Candidate>, key: string, i: nat)
    requires i <= |c.raw| && !InString(c.raw, i)
    ensures OwnKeyAt(c, all, Needle(key), i, Depth(c.raw, i)) <==> IsOwnKey(c, all, key, i)
    ensures IsOwnKey(c, all, key, i) ==> i < |c.raw| && c.raw[i] == '"'
  {
    hide ColonFollows, IsFollowedByColon;
    var needle, end := Needle(key), i + |key| + 2;
    assert needle == ['"'] + key + ['"'] && |needle| == |key| + 2;
    if end <= |c.raw| {
      ColonsAreFound(c.raw, end);
      assert c.raw[i] == c.raw[i..end][0];
    }
    assert LiesInAnother(c.start + i, c, all) <==> IsInsideNested(c.start + i, c, all);
  }

  lemma ScanUnfolds(raw: string, i: nat)
    requires i < |raw|
    ensures Scanner.Run(raw, 0, i + 1, Scanner.START) == Scanner.Step(Scanner.Run(raw, 0, i, Scanner.START), i, raw[i])
  {
    hide Scanner.Run, Scanner.Step;
    var st := Scanner.Run(raw, 0, i, Scanner.START);
    Scanner.RunSplits(raw, 0, i, i + 1, Scanner.START);
    Scanner.RunUnfolds(raw, i, i + 1, st);
    Scanner.RunUnfolds(raw, i + 1, i + 1, Scanner.Step(st, i, raw[i]));
  }

  lemma {:induction false} EscapesStayInStrings(raw: string, i: nat)
    requires i <= |raw|
    ensures Scanner.Run(raw, 0, i, Scanner.START).escaped ==> InString(raw, i)
  {
    if i > 0 {
      EscapesStayInStrings(raw, i - 1);
      ScanUnfolds(raw, i - 1);
    }
  }

  lemma {:induction false} DeclaredFromIff(c: Candidate, all: seq<Candidate>, key: string, i: nat)
    requires i <= |c.raw|
    ensures var st := Scanner.Run(c.raw, 0, i, Scanner.START);
            DeclaresFrom(c, all, Needle(key), i, Depth(c.raw, i), st.inString, st.escaped) <==>
              exists k: nat :: i <= k < |c.raw| && IsOwnKey(c, all, key, k)
    decreases |c.raw| - i
  {
    hide IsOwnKey, OwnKeyAt, Needle, Scanner.Run;
    if i < |c.raw| {
      EscapesStayInStrings(c.raw, i);
      ScanUnfolds(c.raw, i);
      DeclaredFromIff(c, all, key, i + 1);
      if InString(c.raw, i) {
        InStringsIsNoKey(c, all, key, i);
      } else {
        OwnKeysAreFound(c, all, key, i);
      }
      assert (exists k: nat :: i <= k < |c.raw| && IsOwnKey(c, all, key, k)) <==>
             IsOwnKey(c, all, key, i) || exists k: nat :: i + 1 <= k < |c.raw| && IsOwnKey(c, all, key, k);
    }
  }

  lemma InStringsIsNoKey(c: Candidate, all: seq<Candidate>, key: string, i: nat)
    requires i <= |c.raw| && InString(c.raw, i)
    ensures !IsOwnKey(c, all, key, i)
  {
  }

  /** A damaged region declares a key exactly when the key stands somewhere in it as its own. */
  lemma DeclaredIff(c: Candidate, all: seq<Candidate>, key: string)
    ensures DeclaresOwnKey(c, all, key) <==> exists i: nat :: i < |c.raw| && IsOwnKey(c, all, key, i)
  {
    hide IsOwnKey, DeclaresFrom;
    Scanner.RunUnfolds(c.raw, 0, 0, Scanner.START);
    DeclaredFromIff(c, all, key, 0);
  }

  // ---------------------------------------------------------------- resolutions

  ghost predicate IsResolved(item: Json.Value, word: string) {
    item.Object? && Says(item.members, "status", word)
  }

  /** An item counts when it names a finding and says one of three words. */
  ghost predicate IsResolution(item: Json.Value) {
    && item.Object? && !LacksText(item.members, "id")
    && (IsResolved(item, "accepted") || IsResolved(item, "rebutted") || IsResolved(item, "unresolved"))
  }

  ghost predicate ResolutionFits(item: Json.Value, r: Resolution) {
    && item.Object?
    && HasText(item.members, "id", r.id) && IsTextOf(item.members, "note", r.note)
    && (r.status == Accepted <==> IsResolved(item, "accepted"))
    && (r.status == Rebutted <==> IsResolved(item, "rebutted"))
    && (r.status == Unresolved <==> IsResolved(item, "unresolved"))
  }

  lemma StatusesMean(item: Json.Value)
    requires item.Object?
    ensures var status := StatusOf(item.members);
            && (status == Some(Accepted) <==> IsResolved(item, "accepted"))
            && (status == Some(Rebutted) <==> IsResolved(item, "rebutted"))
            && (status == Some(Unresolved) <==> IsResolved(item, "unresolved"))
  {
    hide Says, Lower, TextField;
    SaysMeans(item.members, "status", "accepted");
    SaysMeans(item.members, "status", "rebutted");
    SaysMeans(item.members, "status", "unresolved");
    assert |"accepted"| == |"rebutted"| == 8 && |"unresolved"| == 10;
    assert Json.Units("accepted")[0] != Json.Units("rebutted")[0];
  }

  /** An item is kept exactly when it is a resolution, and then word for word. */
  lemma ItemsAreResolvedIff(item: Json.Value, rest: seq<Json.Value>)
    ensures if IsResolution(item)
            then exists r :: ResolutionFits(item, r) && Resolve([item] + rest) == [r] + Resolve(rest)
            else Resolve([item] + rest) == Resolve(rest)
  {
    hide Says, TextField, HasText, StatusOf;
    assert ([item] + rest)[1..] == rest;
    if item.Object? {
      var record := item.members;
      StatusesMean(item);
      TextsAreRead(record, "id");
      TextsAreRead(record, "note");
      var id, status := TextField(record, "id"), StatusOf(record);
      assert status.Some? ==> status.value.Accepted? || status.value.Rebutted? || status.value.Unresolved?;
      if id.Some? && status.Some? {
        assert ResolutionFits(item, Resolution(id.value, status.value, TextField(record, "note")));
      }
    }
  }

  /** Which items of a report its resolutions come from: exactly those that are resolutions, in order. */
  ghost predicate Picks(items: seq<Json.Value>, places: seq<nat>, report: seq<Resolution>) {
    && |places| == |report|
    && (forall k :: 0 <= k < |places| ==> places[k] < |items| && ResolutionFits(items[places[k]], report[k]))
    && (forall j, k :: 0 <= j < k < |places| ==> places[j] < places[k])
    && (forall i {:trigger items[i]} :: 0 <= i < |items| ==> (IsResolution(items[i]) <==> i in places))
  }

  function Later(places: seq<nat>): seq<nat> {
    seq(|places|, k requires 0 <= k < |places| => places[k] + 1)
  }

  lemma LaterPlaces(places: seq<nat>, i: nat)
    ensures i in Later(places) <==> i > 0 && i - 1 in places
  {
    if i > 0 && i - 1 in places {
      var k :| 0 <= k < |places| && places[k] == i - 1;
      assert Later(places)[k] == i;
    }
  }

  lemma PicksNothing()
    ensures Picks([], [], [])
  {
  }

  lemma PicksSkip(first: Json.Value, rest: seq<Json.Value>, places: seq<nat>, report: seq<Resolution>)
    requires Picks(rest, places, report) && !IsResolution(first)
    ensures Picks([first] + rest, Later(places), report)
  {
    hide IsResolution, ResolutionFits;
    var items := [first] + rest;
    assert forall i :: 0 < i < |items| ==> items[i] == rest[i - 1];
    forall i {:trigger items[i]} | 0 <= i < |items| ensures IsResolution(items[i]) <==> i in Later(places) {
      LaterPlaces(places, i);
    }
  }

  lemma TakenPlaces(places: seq<nat>)
    ensures var all := [0] + Later(places);
            && |all| == |places| + 1 && all[0] == 0
            && (forall k :: 0 < k < |all| ==> all[k] == places[k - 1] + 1)
            && (forall i: nat :: i in all <==> i == 0 || i - 1 in places)
  {
    var all := [0] + Later(places);
    forall i: nat ensures i in all <==> i == 0 || i - 1 in places {
      LaterPlaces(places, i);
      assert i in all <==> i in [0] || i in Later(places);
    }
  }

  lemma PicksTake(first: Json.Value, rest: seq<Json.Value>, places: seq<nat>, r: Resolution, report: seq<Resolution>)
    requires Picks(rest, places, report) && IsResolution(first) && ResolutionFits(first, r)
    ensures Picks([first] + rest, [0] + Later(places), [r] + report)
  {
    hide IsResolution, ResolutionFits, Later;
    TakenPlaces(places);
    var items, all, taken := [first] + rest, [0] + Later(places), [r] + report;
    assert forall i :: 0 < i < |items| ==> items[i] == rest[i - 1];
    forall k | 0 <= k < |all| ensures all[k] < |items| && ResolutionFits(items[all[k]], taken[k]) {
      if k > 0 {
        assert taken[k] == report[k - 1];
      }
    }
  }

  /** A report is what its resolutions are, in order; without any it counts as missing. */
  lemma {:induction false} ReportsAreReadIff(items: seq<Json.Value>) returns (places: seq<nat>)
    ensures Picks(items, places, Resolve(items))
    ensures ReportOf(items) == if places == [] then None else Some(Resolve(items))
  {
    hide IsResolution, ResolutionFits, Picks, Later;
    if items == [] {
      places := [];
      PicksNothing();
    } else {
      var first, rest := items[0], items[1..];
      var later := ReportsAreReadIff(rest);
      assert items == [first] + rest;
      ItemsAreResolvedIff(first, rest);
      if IsResolution(first) {
        var r :| ResolutionFits(first, r) && Resolve([first] + rest) == [r] + Resolve(rest);
        PicksTake(first, rest, later, r, Resolve(rest));
        places := [0] + Later(later);
      } else {
        PicksSkip(first, rest, later, Resolve(rest));
        places := Later(later);
      }
    }
    assert |places| == |Resolve(items)| by {
      PicksAreAsMany(items, places, Resolve(items));
    }
  }

  lemma PicksAreAsMany(items: seq<Json.Value>, places: seq<nat>, report: seq<Resolution>)
    requires Picks(items, places, report)
    ensures |places| == |report|
  {
  }

  // ------------------------------------------------------------ from text to outcome

  /** A region states a key: as a key of its object, or, when it is damaged, as a key of its own in the text. */
  ghost predicate Signs(c: Candidate, all: seq<Candidate>, key: string) {
    match c.value
    case Some(record) => exists value :: Has(record, key, value)
    case None => exists i: nat :: i < |c.raw| && IsOwnKey(c, all, key, i)
  }

  lemma StatesMeans(c: Candidate, all: seq<Candidate>, key: string)
    ensures States(c, all, key) <==> Signs(c, all, key)
  {
    hide Has, Field, IsOwnKey;
    DeclaredIff(c, all, key);
    if c.value.Some? {
      FieldMeans(c.value.value, key);
      if Field(c.value.value, key).Some? {
        assert Has(c.value.value, key, Field(c.value.value, key).value);
      }
    }
  }

  /** The region that decides: the last one that states a verdict, or else the only object there is. */
  ghost predicate Decides(all: seq<Candidate>, m: nat) {
    && m < |all|
    && if Signs(all[m], all, "verdict") then forall k :: m < k < |all| ==> !Signs(all[k], all, "verdict")
       else (forall k :: 0 <= k < |all| ==> !Signs(all[k], all, "verdict")) && ObjectPlaces(all) == {m}
  }

  /** Every accepted text has one deciding region, and its review is what the words of that region say. */
  lemma AcceptedReviewsAreTheirWords(text: string)
    requires ParseReview(text).Ok?
    ensures var all, review := EligibleCandidates(text), ParseReview(text).value;
            exists m: nat, items :: && Decides(all, m) && all[m].value == Some(review.raw)
                               && IsReview(review.raw, items) && ReviewFits(review.raw, items, review)
  {
    hide EligibleCandidates, States, BuildReview, Signs, IsReview, ReviewFits, ParseReview, HasBlanksOnly;
    var all := EligibleCandidates(text);
    forall k | 0 <= k < |all| ensures States(all[k], all, VERDICT) <==> Signs(all[k], all, VERDICT) {
      StatesMeans(all[k], all, VERDICT);
    }
    UnsignedReviewsStandAlone(text);
    var m: nat;
    if i :| 0 <= i < |all| && States(all[i], all, VERDICT) {
      LatestVerdictDecides(text);
      m :| && 0 <= m < |all| && States(all[m], all, VERDICT)
           && (forall k :: m < k < |all| ==> !States(all[k], all, VERDICT))
           && ParseReview(text) == if all[m].value.Some? then BuildReview(all[m].value.value) else Err(DamagedVerdict);
    } else {
      var places := ObjectPlaces(all);
      m :| m in places && ParseReview(text) == BuildReview(all[m].value.value);
      OnlyOne(places, m);
    }
    assert Decides(all, m);
    ReviewsAreBuiltIff(all[m].value.value);
    var review := ParseReview(text).value;
    var items :| IsReview(all[m].value.value, items) && ReviewFits(all[m].value.value, items, review);
    RawIsTheRecord(all[m].value.value, items, review);
  }

  lemma OnlyOne(places: set<nat>, m: nat)
    requires |places| == 1 && m in places
    ensures places == {m}
  {
    assert |places - {m}| == 0;
  }

  lemma RawIsTheRecord(record: seq<Json.Member>, items: seq<Json.Value>, review: Review)
    requires ReviewFits(record, items, review)
    ensures review.raw == record
  {
  }

  /** The last region that states its resolutions decides about the report. */
  ghost predicate IsReport(c: Candidate, all: seq<Candidate>) {
    if c.value.Some? then exists items :: Has(c.value.value, "resolutions", Json.Array(items))
    else Signs(c, all, "resolutions")
  }

  /** What a deciding region reports: nothing when it is damaged, otherwise its resolutions. */
  ghost predicate Reports(c: Candidate, report: Option<seq<Resolution>>) {
    if c.value == None then report == None
    else exists items :: Has(c.value.value, "resolutions", Json.Array(items)) && report == ReportOf(items)
  }

  lemma ReportStep(all: seq<Candidate>, n: nat)
    requires 0 < n <= |all|
    ensures if IsReport(all[n - 1], all) then Reports(all[n - 1], SelectResolutions(all, n))
            else SelectResolutions(all, n) == SelectResolutions(all, n - 1)
  {
    hide Has, Field, Signs, ReportOf, DeclaresOwnKey, States;
    var c := all[n - 1];
    if c.value.Some? {
      FieldMeans(c.value.value, RESOLUTIONS);
    } else {
      DamagedMeans(c, all, RESOLUTIONS);
    }
  }

  lemma DamagedMeans(c: Candidate, all: seq<Candidate>, key: string)
    requires c.value == None
    ensures DeclaresOwnKey(c, all, key) <==> Signs(c, all, key)
  {
    hide DeclaresOwnKey, Signs;
    StatesMeans(c, all, key);
  }

  lemma {:induction false} ReportsAreSelected(all: seq<Candidate>, n: nat)
    requires n <= |all|
    ensures if forall k :: 0 <= k < n ==> !IsReport(all[k], all) then SelectResolutions(all, n) == None
            else exists m :: && 0 <= m < n && IsReport(all[m], all) && (forall k :: m < k < n ==> !IsReport(all[k], all))
                             && Reports(all[m], SelectResolutions(all, n))
  {
    hide IsReport, Reports, SelectResolutions;
    if n == 0 {
      NoReportAtAll(all);
    } else {
      ReportStep(all, n);
      ReportsAreSelected(all, n - 1);
    }
  }

  lemma NoReportAtAll(all: seq<Candidate>)
    ensures SelectResolutions(all, 0) == None
  {
  }

  /** The nearest report from the end is the one that counts, whether or not it survived. */
  lemma LatestReportDecides(text: string)
    ensures var all, report := EligibleCandidates(text), ParseResolutions(text);
            if forall k :: 0 <= k < |all| ==> !IsReport(all[k], all) then report == None
            else exists m :: && 0 <= m < |all| && IsReport(all[m], all)
                             && (forall k :: m < k < |all| ==> !IsReport(all[k], all)) && Reports(all[m], report)
  {
    hide EligibleCandidates, SelectResolutions, IsReport, Reports;
    ReportsAreSelected(EligibleCandidates(text), |EligibleCandidates(text)|);
  }

  /**
   * A printed record behind closed noise is read exactly when it is a review, and blocks exactly when an
   * item of its findings is called critical or major.
   */
  lemma PrintedReviewsAreTheirWords(noise: string, record: seq<Json.Member>, verdict: Json.Value, rest: string)
    requires JsonPrint.IsPrintable(Json.Object(record)) && Has(record, "verdict", verdict)
    requires Scanner.EndsLine(noise) && Scanner.BraceFree(rest) && IsClosed(noise)
    ensures match ParseReview(noise + JsonPrint.Print(Json.Object(record)) + rest)
            case Ok(review) => exists items ::
              && IsReview(record, items) && ReviewFits(record, items, review)
              && (review.hasBlockingFindings <==> HasBlocker(items))
            case Err(e) => RejectionFits(record, e) && forall items :: !IsReview(record, items)
  {
    hide ParseReview, BuildReview, JsonPrint.Print, JsonPrint.IsPrintable, NoiseDeclares, IsClosed, Has, Field, FindingFits,
         HasBlocker, RejectionFits, IsReview, Scanner.BraceFree, Scanner.EndsLine;
    FieldMeans(record, VERDICT);
    PrintedReviewsAreReadIff(noise, record, rest);
    ReviewsAreBuiltIff(record);
  }

  // ------------------------------------------------------------ what the loop makes of it

  /** The review of a round lists an item called critical or major. */
  ghost predicate ListsBlocker(round: E.RoundDir) {
    round.review.Some? && exists items :: HasItems(round.review.value.raw, items) && HasBlocker(items)
  }

  /** The review of a round is read from the text that its last turn reported. */
  ghost predicate IsReadFromReply(round: E.RoundDir, own: seq<E.AgentTurn>) {
    && own != [] && round.review.Some?
    && ParseReview(own[|own| - 1].result.finalText) == Ok(round.review.value)
  }

  lemma RoundsReadReplies(run: E.RunRecord, j: nat)
    requires E.EngineRun(run) && 1 <= j && 2 * j <= |run.rounds| && E.ReviewRound(run.rounds, j).review.Some?
    ensures |run.turns| == |run.rounds| && IsReadFromReply(E.ReviewRound(run.rounds, j), run.turns[2 * j - 1])
    ensures ListsBlocker(E.ReviewRound(run.rounds, j)) <==> E.FindsBlocker(E.ReviewRound(run.rounds, j))
  {
    hide E.KeepsProtocol, E.AttemptsFit, E.ModifierFits, E.KeepsTime, ParseReview, E.CanReturn, E.FoundAt, E.FailuresExplain,
         HasItems, HasBlocker, FindingFits, Says, IsTextOf;
    var i := 2 * j - 1;
    assert E.RoundFollows(run.cfg, run.rules, run.start, run.rounds, run.states, run.turns, i);
    var own := run.turns[i];
    assert E.AreReal(i, own) && E.IsReal(i, own[|own| - 1]);
    var text := own[|own| - 1].result.finalText;
    AcceptedReviewsAreTheirWords(text);
    ParsedReviewsAreConsistent(text);
    var review := ParseReview(text).value;
    var m: nat, items :| && Decides(EligibleCandidates(text), m) && EligibleCandidates(text)[m].value == Some(review.raw)
                    && IsReview(review.raw, items) && ReviewFits(review.raw, items, review);
    ItemsAreUnique(review.raw);
  }

  lemma ItemsAreUnique(record: seq<Json.Member>)
    ensures forall a, b :: HasItems(record, a) && HasItems(record, b) ==> a == b
  {
    hide Has, Field;
    FieldMeans(record, "findings");
  }

  /**
   * From the replies to the outcome: every counted review was read from its reviewer's text, every one
   * but the last lists an item called critical or major, and the loop ends approved exactly when the
   * last one lists none.
   */
  lemma WordsDecideTheLoop(run: E.RunRecord)
    requires E.EngineRun(run) && E.LoopCompleted(run)
    ensures var r := run.result;
            && 2 * r.reviewCount <= |run.rounds| == |run.turns|
            && (forall j :: 1 <= j <= r.reviewCount ==> IsReadFromReply(E.ReviewRound(run.rounds, j), run.turns[2 * j - 1]))
            && (forall j :: 1 <= j < r.reviewCount ==> ListsBlocker(E.ReviewRound(run.rounds, j)))
            && (r.reviewCount > 0 ==>
                  (run.loopOutcome == E.Approved <==> !ListsBlocker(E.ReviewRound(run.rounds, r.reviewCount))))
            && (r.reviewCount == 0 ==> run.loopOutcome != E.Approved)
  {
    hide E.Layout, E.ExitFits, E.History, IsReadFromReply, ListsBlocker, E.KeepsProtocol, E.KeepsTime, E.Follows;
    var r := run.result;
    E.FindingsDecideTheLoop(run);
    forall j | 1 <= j <= r.reviewCount
      ensures |run.rounds| == |run.turns| && IsReadFromReply(E.ReviewRound(run.rounds, j), run.turns[2 * j - 1])
      ensures ListsBlocker(E.ReviewRound(run.rounds, j)) <==> E.FindsBlocker(E.ReviewRound(run.rounds, j))
    {
      RoundsReadReplies(run, j);
    }
  }
}
