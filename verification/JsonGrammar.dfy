/** The grammar of RFC 8259 as a relation between texts and values; the parser decides exactly this relation. */
module JsonGrammar {
  import opened Options
  import opened Json

  // ------------------------------------------------------------------- grammar

  /** Section 2: space, horizontal tab, line feed, carriage return. */
  predicate IsWs(w: string) { forall c :: c in w ==> c as int in {0x20, 0x09, 0x0A, 0x0D} }

  /** Section 6: digits, at least one. */
  predicate IsDigits(w: string) { w != "" && forall c :: c in w ==> 0x30 <= c as int <= 0x39 }

  predicate IsSign(w: string) { w in {"", "-"} }

  /** An integer part has no leading zero. */
  predicate IsInt(w: string) { w == "0" || (IsDigits(w) && w[0] != '0') }

  predicate IsFrac(w: string) { w == "" || (w[0] == '.' && IsDigits(w[1..])) }

  predicate IsExp(w: string) {
    w == "" || (w[0] in "eE" && (IsDigits(w[1..]) || (|w| > 1 && w[1] in "+-" && IsDigits(w[2..]))))
  }

  ghost predicate IsNumber(w: string) {
    exists a: nat, b: nat, c: nat ::
      a <= b <= c <= |w| && IsSign(w[..a]) && IsInt(w[a..b]) && IsFrac(w[b..c]) && IsExp(w[c..])
  }

  /** A hexadecimal digit of either case and its worth. */
  predicate IsHex(c: char, d: int) {
    0 <= d < 16 && (c == "0123456789abcdef"[d] || c == "0123456789ABCDEF"[d])
  }

  ghost predicate IsHex4(w: string, u: int) {
    |w| == 4 && exists a, b, c, d :: IsHex(w[0], a) && IsHex(w[1], b) && IsHex(w[2], c) && IsHex(w[3], d)
                                     && u == 0x1000 * a + 0x100 * b + 0x10 * c + d
  }

  /** The UTF-16 units of a character. */
  predicate Encodes(u: Str, c: char) {
    if c as int < 0x1_0000 then u == [c as int]
    else |u| == 2 && 0xD800 <= u[0] < 0xDC00 && 0xDC00 <= u[1] < 0xE000
         && c as int == 0x1_0000 + (u[0] - 0xD800) * 0x400 + (u[1] - 0xDC00)
  }

  /** Section 7: the two-character escapes and what they stand for. */
  predicate IsShortEscape(c: char, u: int) {
    match c
    case '"' => u == 0x22
    case '\\' => u == 0x5C
    case '/' => u == 0x2F
    case 'b' => u == 0x08
    case 'f' => u == 0x0C
    case 'n' => u == 0x0A
    case 'r' => u == 0x0D
    case 't' => u == 0x09
    case _ => false
  }

  /** One character of a string, raw or escaped. */
  ghost predicate IsChar(w: string, u: Str) {
    || (|w| == 1 && w[0] as int >= 0x20 && w[0] !in "\"\\" && Encodes(u, w[0]))
    || (|w| == 2 && w[0] == '\\' && |u| == 1 && IsShortEscape(w[1], u[0]))
    || (|w| == 6 && w[0] == '\\' && w[1] == 'u' && |u| == 1 && IsHex4(w[2..], u[0]))
  }

  ghost predicate IsChars(w: string, u: Str) {
    if w == "" then u == []
    else exists k: nat, n: nat ::
           0 < k <= |w| && n <= |u| && IsChar(w[..k], u[..n]) && IsChars(w[k..], u[n..])
  }

  ghost predicate IsString(w: string, u: Str) {
    |w| >= 2 && w[0] == '"' && w[|w| - 1] == '"' && IsChars(w[1..|w| - 1], u)
  }

  /** Section 3: a value. */
  ghost predicate IsValue(w: string, v: Value)
    decreases v, 0
  {
    match v
    case Null => w == "null"
    case Bool(b) => w == if b then "true" else "false"
    case Number(lexeme) => w == lexeme && IsNumber(w)
    case String(u) => IsString(w, u)
    case Array(items) =>
      |w| >= 2 && w[0] == '[' && w[|w| - 1] == ']'
      && if items == [] then IsWs(w[1..|w| - 1]) else IsItems(w[1..|w| - 1], items)
    case Object(members) =>
      |w| >= 2 && w[0] == '{' && w[|w| - 1] == '}'
      && if members == [] then IsWs(w[1..|w| - 1]) else IsMembers(w[1..|w| - 1], members)
  }

  /** Section 2: a value with white space around it, as a text and between structural characters. */
  ghost predicate IsElement(w: string, v: Value)
    decreases v, 1
  {
    exists a: nat, b: nat :: a <= b <= |w| && IsWs(w[..a]) && IsValue(w[a..b], v) && IsWs(w[b..])
  }

  /** Section 5: values separated by commas. */
  ghost predicate IsItems(w: string, items: seq<Value>)
    requires items != []
    decreases items, 0
  {
    if |items| == 1 then IsElement(w, items[0])
    else exists k: nat :: k < |w| && w[k] == ',' && IsElement(w[..k], items[0]) && IsItems(w[k + 1..], items[1..])
  }

  ghost predicate IsName(w: string, key: Str) {
    exists a: nat, b: nat :: a <= b <= |w| && IsWs(w[..a]) && IsString(w[a..b], key) && IsWs(w[b..])
  }

  /** Section 4: a name, a colon and a value. */
  ghost predicate IsMember(w: string, m: Member)
    decreases m, 0
  {
    exists k: nat :: k < |w| && w[k] == ':' && IsName(w[..k], m.key) && IsElement(w[k + 1..], m.value)
  }

  /** Section 4: members separated by commas. */
  ghost predicate IsMembers(w: string, members: seq<Member>)
    requires members != []
    decreases members, 0
  {
    if |members| == 1 then IsMember(w, members[0])
    else exists k: nat :: k < |w| && w[k] == ',' && IsMember(w[..k], members[0]) && IsMembers(w[k + 1..], members[1..])
  }

  // ------------------------------------------------------------- what is parsed is JSON

  lemma SliceOfSlice(s: string, i: nat, j: nat, a: nat, b: nat)
    requires i <= j <= |s| && a <= b <= j - i
    ensures s[i..j][a..b] == s[i + a..i + b]
  {
    var w := s[i..j];
    assert forall k :: 0 <= k < b - a ==> w[a..b][k] == s[i + a..i + b][k];
  }

  lemma SkippedIsWs(s: string, i: nat)
    requires i <= |s|
    ensures IsWs(s[i..SkipSpace(s, i)])
  {
  }

  lemma DigitsAreDigits(s: string, i: nat)
    requires i <= |s| && DigitsEnd(s, i) > i
    ensures IsDigits(s[i..DigitsEnd(s, i)])
  {
  }

  lemma ParsedIntIsInt(s: string, i: nat) returns (a: nat)
    requires i <= |s| && IntegerEnd(s, i).Some?
    ensures i <= a <= IntegerEnd(s, i).value && IsSign(s[i..a]) && IsInt(s[a..IntegerEnd(s, i).value])
  {
    a := if s[i] == '-' then i + 1 else i;
    assert s[i..a] == if s[i] == '-' then "-" else "";
    if s[a] != '0' {
      DigitsAreDigits(s, a);
    }
  }

  lemma ParsedFracIsFrac(s: string, i: nat)
    requires i <= |s| && FractionEnd(s, i).Some?
    ensures IsFrac(s[i..FractionEnd(s, i).value])
  {
    var j := FractionEnd(s, i).value;
    if j > i {
      DigitsAreDigits(s, i + 1);
      assert s[i..j][1..] == s[i + 1..j];
    }
  }

  lemma ParsedExpIsExp(s: string, i: nat)
    requires i <= |s| && ExponentEnd(s, i).Some?
    ensures IsExp(s[i..ExponentEnd(s, i).value])
  {
    var j := ExponentEnd(s, i).value;
    if j > i {
      var signed := s[i + 1] in {'+', '-'};
      DigitsAreDigits(s, if signed then i + 2 else i + 1);
      assert s[i..j][1..] == s[i + 1..j];
      if signed {
        assert s[i..j][2..] == s[i + 2..j];
      }
    }
  }

  lemma ParsedNumberIsNumber(s: string, i: nat)
    requires i <= |s| && NumberEnd(s, i).Some?
    ensures IsNumber(s[i..NumberEnd(s, i).value])
  {
    hide IntegerEnd, FractionEnd, ExponentEnd, IsSign, IsInt, IsFrac, IsExp;
    var a := ParsedIntIsInt(s, i);
    var b := IntegerEnd(s, i).value;
    ParsedFracIsFrac(s, b);
    var c := FractionEnd(s, b).value;
    ParsedExpIsExp(s, c);
    var j := ExponentEnd(s, c).value;
    SliceOfSlice(s, i, j, 0, a - i);
    SliceOfSlice(s, i, j, a - i, b - i);
    SliceOfSlice(s, i, j, b - i, c - i);
    SliceOfSlice(s, i, j, c - i, j - i);
    assert s[i..j][c - i..] == s[i..j][c - i..j - i];
  }

  lemma HexValueIff(c: char, d: int)
    ensures HexValue(c) == Some(d) <==> IsHex(c, d)
  {
  }

  lemma ParsedHexIsHex(s: string, i: nat)
    requires i + 4 <= |s| && Hex4(s, i).Some?
    ensures IsHex4(s[i..i + 4], Hex4(s, i).value)
  {
    hide HexValue, IsHex;
    var a, b, c, d := HexValue(s[i]).value, HexValue(s[i + 1]).value, HexValue(s[i + 2]).value, HexValue(s[i + 3]).value;
    HexValueIff(s[i], a);
    HexValueIff(s[i + 1], b);
    HexValueIff(s[i + 2], c);
    HexValueIff(s[i + 3], d);
    var w := s[i..i + 4];
    assert IsHex(w[0], a) && IsHex(w[1], b) && IsHex(w[2], c) && IsHex(w[3], d);
  }

  lemma Utf16Encodes(c: char)
    ensures Encodes(Utf16(c), c)
  {
  }

  /** The first character of a string that is parsed. */
  lemma ParsedCharIsChar(s: string, i: nat) returns (k: nat, n: nat)
    requires i < |s| && s[i] != '"' && ParseChars(s, i).Some?
    ensures 0 < k && i + k <= |s| && n <= |ParseChars(s, i).value.0|
    ensures IsChar(s[i..i + k], ParseChars(s, i).value.0[..n])
    ensures ParseChars(s, i + k) == Some((ParseChars(s, i).value.0[n..], ParseChars(s, i).value.1))
  {
    hide Hex4, IsHex4, Utf16, Encodes;
    var u := ParseChars(s, i).value.0;
    if s[i] == '\\' {
      n := 1;
      if s[i + 1] == 'u' {
        k := 6;
        ParsedHexIsHex(s, i + 2);
        assert s[i..i + 6][2..] == s[i + 2..i + 6];
      } else {
        k := 2;
      }
    } else {
      k, n := 1, |Utf16(s[i])|;
      Utf16Encodes(s[i]);
    }
    assert u == u[..n] + ParseChars(s, i + k).value.0;
  }

  lemma {:induction false} ParsedCharsAreChars(s: string, i: nat)
    requires i <= |s| && ParseChars(s, i).Some?
    ensures var (u, j) := ParseChars(s, i).value; s[j - 1] == '"' && IsChars(s[i..j - 1], u)
    decreases |s| - i
  {
    hide ParseChars, IsChar, IsChars;
    CharsBegin(s, i);
    if s[i] == '"' {
      NoChars(s, i);
    } else {
      var k, n := ParsedCharIsChar(s, i);
      ParsedCharsAreChars(s, i + k);
      var (u, j) := ParseChars(s, i).value;
      SliceOfSlice(s, i, j - 1, 0, k);
      SliceOfSlice(s, i, j - 1, k, j - 1 - i);
      CharsGrow(s[i..j - 1], u, k, n);
    }
  }

  lemma CharsBegin(s: string, i: nat)
    requires i <= |s| && ParseChars(s, i).Some?
    ensures i < |s| && (s[i] == '"' ==> ParseChars(s, i) == Some(([], i + 1)))
  {
  }

  lemma NoChars(s: string, i: nat)
    requires i <= |s|
    ensures IsChars(s[i..i], [])
  {
  }

  lemma CharsGrow(w: string, u: Str, k: nat, n: nat)
    requires 0 < k <= |w| && n <= |u| && IsChar(w[..k], u[..n]) && IsChars(w[k..], u[n..])
    ensures IsChars(w, u)
  {
  }

  lemma ElementOf(s: string, i: nat, a: nat, b: nat, j: nat, v: Value)
    requires i <= a <= b <= j <= |s| && IsWs(s[i..a]) && IsValue(s[a..b], v) && IsWs(s[b..j])
    ensures IsElement(s[i..j], v)
  {
    hide IsWs, IsValue;
    SliceOfSlice(s, i, j, 0, a - i);
    SliceOfSlice(s, i, j, a - i, b - i);
    SliceOfSlice(s, i, j, b - i, j - i);
    assert s[i..j][b - i..] == s[i..j][b - i..j - i];
  }

  /** An item, a comma and further items. */
  lemma ItemsOf(s: string, i: nat, k: nat, j: nat, first: Value, rest: seq<Value>)
    requires i <= k < j <= |s| && s[k] == ',' && rest != []
    requires IsElement(s[i..k], first) && IsItems(s[k + 1..j], rest)
    ensures IsItems(s[i..j], [first] + rest)
  {
    hide IsElement;
    SliceOfSlice(s, i, j, 0, k - i);
    SliceOfSlice(s, i, j, k + 1 - i, j - i);
    assert s[i..j][k + 1 - i..] == s[k + 1..j];
    assert ([first] + rest)[1..] == rest;
  }

  lemma NameOf(s: string, i: nat, a: nat, b: nat, j: nat, key: Str)
    requires i <= a <= b <= j <= |s| && IsWs(s[i..a]) && IsString(s[a..b], key) && IsWs(s[b..j])
    ensures IsName(s[i..j], key)
  {
    hide IsWs, IsString;
    SliceOfSlice(s, i, j, 0, a - i);
    SliceOfSlice(s, i, j, a - i, b - i);
    SliceOfSlice(s, i, j, b - i, j - i);
    assert s[i..j][b - i..] == s[i..j][b - i..j - i];
  }

  lemma MemberOf(s: string, i: nat, k: nat, j: nat, m: Member)
    requires i <= k < j <= |s| && s[k] == ':' && IsName(s[i..k], m.key) && IsElement(s[k + 1..j], m.value)
    ensures IsMember(s[i..j], m)
  {
    hide IsName, IsElement;
    SliceOfSlice(s, i, j, 0, k - i);
    assert s[i..j][k + 1 - i..] == s[k + 1..j];
  }

  lemma MembersOf(s: string, i: nat, k: nat, j: nat, first: Member, rest: seq<Member>)
    requires i <= k < j <= |s| && s[k] == ',' && rest != []
    requires IsMember(s[i..k], first) && IsMembers(s[k + 1..j], rest)
    ensures IsMembers(s[i..j], [first] + rest)
  {
    hide IsMember;
    SliceOfSlice(s, i, j, 0, k - i);
    assert s[i..j][k + 1 - i..] == s[k + 1..j];
    assert ([first] + rest)[1..] == rest;
  }

  lemma {:induction false} ParsedValueIsJson(s: string, i: nat)
    requires i <= |s| && ParseValue(s, i).Some?
    ensures IsValue(s[i..ParseValue(s, i).value.1], ParseValue(s, i).value.0)
    decreases |s| - i, 1
  {
    hide ParseMembers, ParseItems, ParseChars, NumberEnd, IsNumber, IsChars, IsItems, IsMembers, IsWs;
    if s[i] == '{' {
      var inner := SkipSpace(s, i + 1);
      SkippedIsWs(s, i + 1);
      if ParseMembers(s, inner).Some? {
        ParsedMembersAreMembers(s, i + 1, inner);
      }
      Inside(s, i);
    } else if s[i] == '[' {
      var inner := SkipSpace(s, i + 1);
      SkippedIsWs(s, i + 1);
      if ParseItems(s, inner).Some? {
        ParsedItemsAreItems(s, i + 1, inner);
      }
      Inside(s, i);
    } else if s[i] == '"' {
      ParsedCharsAreChars(s, i + 1);
      Inside(s, i);
    } else if ParseValue(s, i).value.0.Number? {
      ParsedNumberIsNumber(s, i);
    }
  }

  /** What stands between the first and the last character of a value. */
  lemma Inside(s: string, i: nat)
    requires i <= |s| && ParseValue(s, i).Some? && ParseValue(s, i).value.1 > i + 1
    ensures var j := ParseValue(s, i).value.1; s[i..j][1..j - i - 1] == s[i + 1..j - 1]
  {
    hide ParseValue;
    SliceOfSlice(s, i, ParseValue(s, i).value.1, 1, ParseValue(s, i).value.1 - i - 1);
  }

  /** The first item that is parsed, and what follows it. */
  lemma ItemsBegin(s: string, i: nat) returns (v: Value, end: nat)
    requires i <= |s| && ParseItems(s, i).Some?
    ensures i < end <= |s| && ParseValue(s, i) == Some((v, end)) && SkipSpace(s, end) < |s|
    ensures var next, r := SkipSpace(s, end), ParseItems(s, i).value;
            || (s[next] == ']' && r == ([v], next + 1))
            || (s[next] == ',' && ParseItems(s, SkipSpace(s, next + 1)).Some?
                && var rest := ParseItems(s, SkipSpace(s, next + 1)).value; r == ([v] + rest.0, rest.1))
  {
    hide ParseValue, SkipSpace;
    v, end := ParseValue(s, i).value.0, ParseValue(s, i).value.1;
  }

  lemma {:induction false} ParsedItemsAreItems(s: string, from: nat, i: nat)
    requires from <= i <= |s| && IsWs(s[from..i]) && ParseItems(s, i).Some?
    ensures var (items, j) := ParseItems(s, i).value;
            from < j && s[j - 1] == ']' && items != [] && IsItems(s[from..j - 1], items)
    decreases |s| - i, 2
  {
    hide ParseValue, ParseItems, SkipSpace, IsItems, IsElement, IsValue, IsWs;
    var v, end := ItemsBegin(s, i);
    ParsedValueIsJson(s, i);
    var next := SkipSpace(s, end);
    SkippedIsWs(s, end);
    ElementOf(s, from, i, end, next, v);
    if s[next] == ',' {
      var after := SkipSpace(s, next + 1);
      SkippedIsWs(s, next + 1);
      ParsedItemsAreItems(s, next + 1, after);
      ItemsOf(s, from, next, ParseItems(s, after).value.1 - 1, v, ParseItems(s, after).value.0);
    } else {
      OneItem(s[from..next], v);
    }
  }

  lemma OneItem(w: string, v: Value)
    requires IsElement(w, v)
    ensures IsItems(w, [v])
  {
    hide IsElement;
  }

  /** The pieces of the first member that is parsed. */
  lemma FirstMember(s: string, i: nat) returns (m: Member, quote: nat, colon: nat, start: nat, end: nat)
    requires i <= |s| && ParseMembers(s, i).Some?
    ensures i < quote <= colon < start <= |s| && start < end <= |s|
    ensures s[i] == '"' && ParseChars(s, i + 1) == Some((m.key, quote))
    ensures colon == SkipSpace(s, quote) && s[colon] == ':' && start == SkipSpace(s, colon + 1)
    ensures ParseValue(s, start) == Some((m.value, end)) && ParseMembers(s, i) == MoreMembers(s, m, end)
  {
    hide ParseChars, ParseValue, SkipSpace, MoreMembers;
    var key := ParseChars(s, i + 1).value;
    quote := key.1;
    colon := SkipSpace(s, quote);
    start := SkipSpace(s, colon + 1);
    var value := ParseValue(s, start).value;
    m, end := Member(key.0, value.0), value.1;
  }

  lemma ParsedNameIsName(s: string, from: nat, i: nat, key: Str, quote: nat)
    requires from <= i < quote <= |s| && IsWs(s[from..i]) && s[i] == '"' && ParseChars(s, i + 1) == Some((key, quote))
    ensures IsName(s[from..SkipSpace(s, quote)], key)
  {
    hide ParseChars, IsChars, IsWs, IsName;
    ParsedCharsAreChars(s, i + 1);
    SliceOfSlice(s, i, quote, 1, quote - i - 1);
    SkippedIsWs(s, quote);
    NameOf(s, from, i, quote, SkipSpace(s, quote), key);
  }

  lemma {:induction false} ParsedMembersAreMembers(s: string, from: nat, i: nat)
    requires from <= i <= |s| && IsWs(s[from..i]) && ParseMembers(s, i).Some?
    ensures var (members, j) := ParseMembers(s, i).value;
            from < j && s[j - 1] == '}' && members != [] && IsMembers(s[from..j - 1], members)
    decreases |s| - i, 0
  {
    hide ParseValue, ParseChars, ParseMembers, IsElement, IsValue, IsName, IsMember, IsMembers, IsChars, IsWs, SkipSpace;
    var m, quote, colon, start, end := FirstMember(s, i);
    ParsedNameIsName(s, from, i, m.key, quote);
    SkippedIsWs(s, colon + 1);
    ParsedValueIsJson(s, start);
    var next := SkipSpace(s, end);
    SkippedIsWs(s, end);
    ElementOf(s, colon + 1, start, end, next, m.value);
    MemberOf(s, from, colon, next, m);
    if s[next] == ',' {
      var after := SkipSpace(s, next + 1);
      SkippedIsWs(s, next + 1);
      ParsedMembersAreMembers(s, next + 1, after);
      var (rest, j) := ParseMembers(s, after).value;
      MembersOf(s, from, next, j - 1, m, rest);
    } else {
      OneMember(s[from..next], m);
    }
  }

  lemma OneMember(w: string, m: Member)
    requires IsMember(w, m)
    ensures IsMembers(w, [m])
  {
    hide IsMember;
  }

  lemma ParsedTextsAreJson(s: string, v: Value)
    requires Parse(s) == Some(v)
    ensures IsElement(s, v)
  {
    hide ParseValue, IsElement, IsValue, IsWs;
    var a := SkipSpace(s, 0);
    SkippedIsWs(s, 0);
    ParsedValueIsJson(s, a);
    SkippedIsWs(s, ParseValue(s, a).value.1);
    ElementOf(s, 0, a, ParseValue(s, a).value.1, |s|, v);
    assert s[0..|s|] == s;
  }

  // ------------------------------------------------------------- what is JSON is parsed

  lemma SliceHolds(s: string, i: nat, j: nat)
    requires i <= j <= |s|
    ensures forall k :: i <= k < j ==> s[k] in s[i..j]
  {
    forall k | i <= k < j ensures s[k] in s[i..j] {
      assert s[i..j][k - i] == s[k];
    }
  }

  lemma SpaceIsSkipped(s: string, i: nat, j: nat)
    requires i <= j <= |s| && IsWs(s[i..j]) && (j < |s| ==> !IsSpace(s[j]))
    ensures SkipSpace(s, i) == j
  {
    SliceHolds(s, i, j);
  }

  /** A number can end here: no digit, point, sign or exponent follows. */
  predicate Stops(s: string, j: nat) { j <= |s| && (j < |s| ==> !IsNumeric(s[j])) }

  lemma DigitsAreRead(s: string, i: nat, j: nat)
    requires i <= j <= |s| && IsDigits(s[i..j]) && (j < |s| ==> !IsDigit(s[j]))
    ensures i < j && IsDigit(s[i]) && DigitsEnd(s, i) == j
  {
    SliceHolds(s, i, j);
  }

  lemma IntIsRead(s: string, i: nat, a: nat, b: nat)
    requires i <= a <= b <= |s| && IsSign(s[i..a]) && IsInt(s[a..b]) && (b < |s| ==> !IsDigit(s[b]))
    ensures IntegerEnd(s, i) == Some(b) && s[i] !in "{[\"tfn"
  {
    if a > i {
      assert s[i..a][0] == s[i] && |s[i..a]| == 1;
    }
    assert s[a..b][0] == s[a];
    if s[a..b] != "0" {
      DigitsAreRead(s, a, b);
    }
  }

  lemma FracIsRead(s: string, b: nat, c: nat)
    requires b <= c <= |s| && IsFrac(s[b..c]) && (c < |s| ==> !IsDigit(s[c]) && s[c] != '.')
    ensures FractionEnd(s, b) == Some(c) && (b < c ==> s[b] == '.')
  {
    if b < c {
      assert s[b..c][0] == s[b] && s[b..c][1..] == s[b + 1..c];
      DigitsAreRead(s, b + 1, c);
    }
  }

  lemma ExpIsRead(s: string, c: nat, j: nat)
    requires c <= j && Stops(s, j) && IsExp(s[c..j])
    ensures ExponentEnd(s, c) == Some(j) && (c < j ==> s[c] in {'e', 'E'})
  {
    if c < j {
      var w := s[c..j];
      assert w[0] == s[c] && w[1..] == s[c + 1..j];
      if IsDigits(w[1..]) {
        DigitsAreRead(s, c + 1, j);
      } else {
        assert w[1] == s[c + 1] && w[2..] == s[c + 2..j];
        DigitsAreRead(s, c + 2, j);
      }
    }
  }

  lemma PartsAreRead(s: string, i: nat, a: nat, b: nat, c: nat, j: nat)
    requires i <= a <= b <= c <= j && Stops(s, j)
    requires IsSign(s[i..a]) && IsInt(s[a..b]) && IsFrac(s[b..c]) && IsExp(s[c..j])
    ensures i < j && NumberEnd(s, i) == Some(j) && s[i] !in "{[\"tfn"
  {
    hide IntegerEnd, FractionEnd, ExponentEnd, IsSign, IsInt, IsFrac, IsExp;
    ExpIsRead(s, c, j);
    FracIsRead(s, b, c);
    IntIsRead(s, i, a, b);
  }

  lemma NumberSplits(s: string, i: nat, j: nat) returns (a: nat, b: nat, c: nat)
    requires i <= j <= |s| && IsNumber(s[i..j])
    ensures i <= a <= b <= c <= j
    ensures IsSign(s[i..a]) && IsInt(s[a..b]) && IsFrac(s[b..c]) && IsExp(s[c..j])
  {
    hide IsSign, IsInt, IsFrac, IsExp;
    var w := s[i..j];
    var x: nat, y: nat, z: nat :|
      x <= y <= z <= |w| && IsSign(w[..x]) && IsInt(w[x..y]) && IsFrac(w[y..z]) && IsExp(w[z..]);
    SliceOfSlice(s, i, j, 0, x);
    SliceOfSlice(s, i, j, x, y);
    SliceOfSlice(s, i, j, y, z);
    SliceOfSlice(s, i, j, z, |w|);
    assert w[..x] == w[0..x] && w[z..] == w[z..|w|];
    a, b, c := i + x, i + y, i + z;
  }

  lemma NumberIsRead(s: string, i: nat, j: nat)
    requires i <= j <= |s| && Stops(s, j) && IsNumber(s[i..j])
    ensures i < j && NumberEnd(s, i) == Some(j) && s[i] !in "{[\"tfn"
  {
    hide NumberEnd, Stops, IsNumber, IsSign, IsInt, IsFrac, IsExp;
    var a, b, c := NumberSplits(s, i, j);
    PartsAreRead(s, i, a, b, c, j);
  }

  lemma HexIsRead(s: string, i: nat, u: int)
    requires i + 4 <= |s| && IsHex4(s[i..i + 4], u)
    ensures Hex4(s, i) == Some(u)
  {
    hide HexValue, IsHex;
    var w := s[i..i + 4];
    var a, b, c, d :| IsHex(w[0], a) && IsHex(w[1], b) && IsHex(w[2], c) && IsHex(w[3], d)
                      && u == 0x1000 * a + 0x100 * b + 0x10 * c + d;
    HexValueIff(s[i], a);
    HexValueIff(s[i + 1], b);
    HexValueIff(s[i + 2], c);
    HexValueIff(s[i + 3], d);
  }

  lemma EncodingIsUnique(u: Str, c: char)
    requires Encodes(u, c)
    ensures u == Utf16(c)
  {
  }

  /** One character of a string in front of characters that are parsed. */
  lemma CharIsRead(s: string, i: nat, k: nat, u: Str)
    requires i + k <= |s| && IsChar(s[i..i + k], u) && ParseChars(s, i + k).Some?
    ensures k > 0 && s[i] != '"'
    ensures var rest := ParseChars(s, i + k).value; ParseChars(s, i) == Some((u + rest.0, rest.1))
  {
    hide Hex4, IsHex4, Utf16, Encodes;
    var w := s[i..i + k];
    assert w[0] == s[i];
    if |w| == 1 {
      EncodingIsUnique(u, s[i]);
    } else {
      assert w[1] == s[i + 1] && u == [u[0]];
      if |w| == 6 {
        assert w[2..] == s[i + 2..i + 6];
        HexIsRead(s, i + 2, u[0]);
      }
    }
  }

  lemma CharsSplit(s: string, i: nat, j: nat, u: Str) returns (k: nat, n: nat)
    requires i < j <= |s| && IsChars(s[i..j], u)
    ensures i < k <= j && n <= |u| && IsChar(s[i..k], u[..n]) && IsChars(s[k..j], u[n..])
  {
    hide IsChar;
    var w := s[i..j];
    var c: nat, m: nat :| 0 < c <= |w| && m <= |u| && IsChar(w[..c], u[..m]) && IsChars(w[c..], u[m..]);
    SliceOfSlice(s, i, j, 0, c);
    assert w[..c] == w[0..c] && w[c..] == s[i + c..j];
    k, n := i + c, m;
  }

  lemma {:induction false} CharsAreRead(s: string, i: nat, j: nat, u: Str)
    requires i <= j < |s| && s[j] == '"' && IsChars(s[i..j], u)
    ensures ParseChars(s, i) == Some((u, j + 1))
    decreases j - i
  {
    hide IsChar, ParseChars;
    if i == j {
      QuoteEndsChars(s, i);
    } else {
      hide IsChars;
      var k, n := CharsSplit(s, i, j, u);
      CharsAreRead(s, k, j, u[n..]);
      CharIsRead(s, i, k - i, u[..n]);
      assert u == u[..n] + u[n..];
    }
  }

  lemma QuoteEndsChars(s: string, i: nat)
    requires i < |s| && s[i] == '"'
    ensures ParseChars(s, i) == Some(([], i + 1))
  {
  }

  lemma StringIsRead(s: string, i: nat, j: nat, u: Str)
    requires i <= j <= |s| && IsString(s[i..j], u)
    ensures i < j && s[i] == '"' && ParseChars(s, i + 1) == Some((u, j))
  {
    hide IsChars, ParseChars;
    var w := s[i..j];
    SliceOfSlice(s, i, j, 1, |w| - 1);
    assert w[0] == s[i] && w[|w| - 1] == s[j - 1];
    CharsAreRead(s, i + 1, j - 1, u);
  }

  /** The end of the text or of an element within it. */
  predicate Closes(s: string, j: nat) { j <= |s| && (j < |s| ==> s[j] in {',', ']', '}'}) }

  lemma WsStops(s: string, i: nat, j: nat)
    requires i <= j && Closes(s, j) && IsWs(s[i..j])
    ensures Stops(s, i) && SkipSpace(s, i) == j
  {
    if i < j {
      assert s[i..j][0] == s[i];
    }
    SpaceIsSkipped(s, i, j);
  }

  /** The first character of a value tells which kind of value it is. */
  lemma FirstOfValue(w: string, v: Value)
    requires IsValue(w, v)
    ensures w != "" && !IsSpace(w[0]) && w[0] !in "]},"
    ensures v.Number? ==> w[0] !in "{[\"tfn"
  {
    hide IsItems, IsMembers, IsWs, IsChars, IsNumber;
    if v.Number? {
      assert w[0..|w|] == w;
      NumberIsRead(w, 0, |w|);
      assert IsNumeric(w[0]);
    }
  }

  lemma WordStarts(s: string, word: string, i: nat)
    requires StartsWith(s, word, i) && word != ""
    ensures i < |s| && s[i] == word[0]
  {
    assert s[i..i + |word|][0] == s[i];
  }

  lemma NotAWord(s: string, i: nat)
    requires i < |s| && s[i] !in "tfn"
    ensures !StartsWith(s, "true", i) && !StartsWith(s, "false", i) && !StartsWith(s, "null", i)
  {
    if StartsWith(s, "true", i) { WordStarts(s, "true", i); }
    if StartsWith(s, "false", i) { WordStarts(s, "false", i); }
    if StartsWith(s, "null", i) { WordStarts(s, "null", i); }
  }

  lemma WordIsRead(s: string, i: nat, j: nat, v: Value)
    requires i <= j <= |s| && (v.Null? || v.Bool?) && IsValue(s[i..j], v)
    ensures ParseValue(s, i) == Some((v, j))
  {
    assert StartsWith(s, s[i..j], i);
    WordStarts(s, s[i..j], i);
    if StartsWith(s, "true", i) { WordStarts(s, "true", i); }
    if StartsWith(s, "false", i) { WordStarts(s, "false", i); }
  }

  /** Whatever is a value by the grammar is parsed as that value. */
  lemma {:induction false} ValueIsRead(s: string, i: nat, j: nat, v: Value)
    requires i <= j && Stops(s, j) && IsValue(s[i..j], v)
    ensures ParseValue(s, i) == Some((v, j))
    decreases v, 0
  {
    hide ParseMembers, ParseItems, ParseChars, NumberEnd, IsNumber, IsString, IsItems, IsMembers, IsWs;
    var w := s[i..j];
    match v {
      case Null => WordIsRead(s, i, j, v);
      case Bool(_) => WordIsRead(s, i, j, v);
      case Number(_) =>
        NumberIsRead(s, i, j);
        NotAWord(s, i);
      case String(u) => StringIsRead(s, i, j, u);
      case Array(items) =>
        SliceOfSlice(s, i, j, 1, |w| - 1);
        assert w[0] == s[i] && w[|w| - 1] == s[j - 1];
        if items == [] {
          SpaceIsSkipped(s, i + 1, j - 1);
        } else {
          ItemsAreRead(s, i + 1, j - 1, items);
        }
      case Object(members) =>
        SliceOfSlice(s, i, j, 1, |w| - 1);
        assert w[0] == s[i] && w[|w| - 1] == s[j - 1];
        if members == [] {
          SpaceIsSkipped(s, i + 1, j - 1);
        } else {
          MembersAreRead(s, i + 1, j - 1, members);
        }
    }
  }

  lemma ElementSplits(s: string, i: nat, j: nat, v: Value) returns (a: nat, b: nat)
    requires i <= j <= |s| && IsElement(s[i..j], v)
    ensures i <= a < b <= j && IsWs(s[i..a]) && IsValue(s[a..b], v) && IsWs(s[b..j])
    ensures !IsSpace(s[a]) && s[a] !in "]},"
  {
    hide IsValue, IsWs;
    var w := s[i..j];
    var x: nat, y: nat :| x <= y <= |w| && IsWs(w[..x]) && IsValue(w[x..y], v) && IsWs(w[y..]);
    SliceOfSlice(s, i, j, 0, x);
    SliceOfSlice(s, i, j, x, y);
    SliceOfSlice(s, i, j, y, |w|);
    assert w[..x] == w[0..x] && w[y..] == w[y..|w|];
    FirstOfValue(w[x..y], v);
    a, b := i + x, i + y;
  }

  lemma {:induction false} ElementIsRead(s: string, i: nat, j: nat, v: Value) returns (end: nat)
    requires i <= j && Closes(s, j) && IsElement(s[i..j], v)
    ensures SkipSpace(s, i) < end <= j && s[SkipSpace(s, i)] !in "]},"
    ensures ParseValue(s, SkipSpace(s, i)) == Some((v, end)) && SkipSpace(s, end) == j
    decreases v, 1
  {
    hide IsElement, IsValue, IsWs, ParseValue;
    var a, b := ElementSplits(s, i, j, v);
    end := b;
    SpaceIsSkipped(s, i, a);
    WsStops(s, end, j);
    ValueIsRead(s, a, end, v);
  }

  lemma ItemsSplit(s: string, i: nat, j: nat, items: seq<Value>) returns (k: nat)
    requires i <= j <= |s| && |items| > 1 && IsItems(s[i..j], items)
    ensures i <= k < j && s[k] == ',' && IsElement(s[i..k], items[0]) && IsItems(s[k + 1..j], items[1..])
  {
    hide IsElement;
    var w := s[i..j];
    var c: nat :| c < |w| && w[c] == ',' && IsElement(w[..c], items[0]) && IsItems(w[c + 1..], items[1..]);
    SliceOfSlice(s, i, j, 0, c);
    assert w[..c] == w[0..c] && w[c + 1..] == s[i + c + 1..j];
    k := i + c;
  }

  lemma FirstItem(s: string, i: nat, v: Value, end: nat)
    requires i <= |s| && ParseValue(s, i) == Some((v, end)) && SkipSpace(s, end) < |s|
    ensures var next := SkipSpace(s, end);
            && (s[next] == ']' ==> ParseItems(s, i) == Some(([v], next + 1)))
            && (s[next] == ',' && ParseItems(s, SkipSpace(s, next + 1)).Some? ==>
                  var rest := ParseItems(s, SkipSpace(s, next + 1)).value; ParseItems(s, i) == Some(([v] + rest.0, rest.1)))
  {
    hide ParseValue, SkipSpace;
  }

  lemma {:induction false} ItemsAreRead(s: string, i: nat, j: nat, items: seq<Value>)
    requires items != [] && i <= j < |s| && s[j] == ']' && IsItems(s[i..j], items)
    ensures ParseItems(s, SkipSpace(s, i)) == Some((items, j + 1)) && s[SkipSpace(s, i)] != ']'
    decreases items, 0
  {
    hide IsElement, ParseValue, ParseItems, SkipSpace;
    if |items| == 1 {
      var end := ElementIsRead(s, i, j, items[0]);
      FirstItem(s, SkipSpace(s, i), items[0], end);
      assert items == [items[0]];
    } else {
      hide IsItems;
      var k := ItemsSplit(s, i, j, items);
      var end := ElementIsRead(s, i, k, items[0]);
      ItemsAreRead(s, k + 1, j, items[1..]);
      FirstItem(s, SkipSpace(s, i), items[0], end);
      assert items == [items[0]] + items[1..];
    }
  }

  lemma NameIsRead(s: string, i: nat, j: nat, key: Str) returns (quote: nat)
    requires i <= j < |s| && s[j] == ':' && IsName(s[i..j], key)
    ensures SkipSpace(s, i) < quote <= j && s[SkipSpace(s, i)] == '"'
    ensures ParseChars(s, SkipSpace(s, i) + 1) == Some((key, quote)) && SkipSpace(s, quote) == j
  {
    hide IsString, IsWs, ParseChars;
    var w := s[i..j];
    var a: nat, b: nat :| a <= b <= |w| && IsWs(w[..a]) && IsString(w[a..b], key) && IsWs(w[b..]);
    SliceOfSlice(s, i, j, 0, a);
    SliceOfSlice(s, i, j, a, b);
    SliceOfSlice(s, i, j, b, |w|);
    assert w[..a] == w[0..a] && w[b..] == w[b..|w|];
    quote := i + b;
    StringIsRead(s, i + a, quote, key);
    SpaceIsSkipped(s, i, i + a);
    SpaceIsSkipped(s, quote, j);
  }

  lemma MemberSplits(s: string, i: nat, j: nat, m: Member) returns (k: nat)
    requires i <= j <= |s| && IsMember(s[i..j], m)
    ensures i <= k < j && s[k] == ':' && IsName(s[i..k], m.key) && IsElement(s[k + 1..j], m.value)
  {
    hide IsName, IsElement;
    var w := s[i..j];
    var c: nat :| c < |w| && w[c] == ':' && IsName(w[..c], m.key) && IsElement(w[c + 1..], m.value);
    SliceOfSlice(s, i, j, 0, c);
    assert w[..c] == w[0..c] && w[c + 1..] == s[i + c + 1..j];
    k := i + c;
  }

  /** A name, a colon and a value that are read are the first member. */
  lemma MemberReads(s: string, i: nat, key: Str, quote: nat, v: Value, end: nat)
    requires i < |s| && s[i] == '"' && ParseChars(s, i + 1) == Some((key, quote))
    requires SkipSpace(s, quote) < |s| && s[SkipSpace(s, quote)] == ':'
    requires ParseValue(s, SkipSpace(s, SkipSpace(s, quote) + 1)) == Some((v, end))
    ensures ParseMembers(s, i) == MoreMembers(s, Member(key, v), end)
  {
    hide ParseValue, ParseChars, SkipSpace, MoreMembers;
  }

  lemma {:induction false} MemberIsRead(s: string, i: nat, j: nat, m: Member) returns (end: nat)
    requires i <= j < |s| && s[j] in {',', '}'} && IsMember(s[i..j], m)
    ensures SkipSpace(s, i) < end <= j && s[SkipSpace(s, i)] == '"' && SkipSpace(s, end) == j
    ensures ParseMembers(s, SkipSpace(s, i)) == MoreMembers(s, m, end)
    decreases m, 0
  {
    hide IsMember, IsName, IsElement, ParseValue, ParseChars, ParseMembers, SkipSpace, MoreMembers;
    var k := MemberSplits(s, i, j, m);
    var quote := NameIsRead(s, i, k, m.key);
    end := ElementIsRead(s, k + 1, j, m.value);
    MemberReads(s, SkipSpace(s, i), m.key, quote, m.value, end);
    assert m == Member(m.key, m.value);
  }

  lemma MembersSplit(s: string, i: nat, j: nat, members: seq<Member>) returns (k: nat)
    requires i <= j <= |s| && |members| > 1 && IsMembers(s[i..j], members)
    ensures i <= k < j && s[k] == ',' && IsMember(s[i..k], members[0]) && IsMembers(s[k + 1..j], members[1..])
  {
    hide IsMember;
    var w := s[i..j];
    var c: nat :| c < |w| && w[c] == ',' && IsMember(w[..c], members[0]) && IsMembers(w[c + 1..], members[1..]);
    SliceOfSlice(s, i, j, 0, c);
    assert w[..c] == w[0..c] && w[c + 1..] == s[i + c + 1..j];
    k := i + c;
  }

  lemma {:induction false} MembersAreRead(s: string, i: nat, j: nat, members: seq<Member>)
    requires members != [] && i <= j < |s| && s[j] == '}' && IsMembers(s[i..j], members)
    ensures ParseMembers(s, SkipSpace(s, i)) == Some((members, j + 1)) && s[SkipSpace(s, i)] != '}'
    decreases members, 0
  {
    hide IsMember, ParseMembers, SkipSpace;
    if |members| == 1 {
      var end := MemberIsRead(s, i, j, members[0]);
      assert members == [members[0]];
    } else {
      hide IsMembers;
      var k := MembersSplit(s, i, j, members);
      var end := MemberIsRead(s, i, k, members[0]);
      MembersAreRead(s, k + 1, j, members[1..]);
      assert members == [members[0]] + members[1..];
    }
  }

  /** The parser decides the grammar: it reads exactly the JSON texts, each as the value the grammar gives it. */
  lemma ParsesIff(s: string, v: Value)
    ensures Parse(s) == Some(v) <==> IsElement(s, v)
  {
    hide IsElement, ParseValue;
    if Parse(s) == Some(v) {
      ParsedTextsAreJson(s, v);
    }
    if IsElement(s, v) {
      assert s[0..|s|] == s;
      var end := ElementIsRead(s, 0, |s|, v);
    }
  }

  /** The grammar is unambiguous. */
  lemma TextsHaveOneValue(s: string, v: Value, u: Value)
    requires IsElement(s, v) && IsElement(s, u)
    ensures v == u
  {
    hide IsElement, Parse;
    ParsesIff(s, v);
    ParsesIff(s, u);
  }
}
