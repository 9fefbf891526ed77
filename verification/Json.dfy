/** JSON texts as RFC 8259 defines them, read the way `JSON.parse` reads them. */
module Json {
  import opened Options

  /** A decoded string: UTF-16 code units, as in JavaScript. */
  type Str = seq<int>

  datatype Value =
    | Null
    | Bool(b: bool)
    | Number(lexeme: string)
    | String(s: Str)
    | Array(items: seq<Value>)
    | Object(members: seq<Member>)

  datatype Member = Member(key: Str, value: Value)

  /** A character as UTF-16 encodes it: itself, or a surrogate pair beyond the basic plane. */
  function Utf16(c: char): (u: Str)
    ensures |u| == 1 || |u| == 2
  {
    var n := c as int - 0x1_0000;
    if n < 0 then [c as int] else [0xD800 + n / 0x400, 0xDC00 + n % 0x400]
  }

  /** The units of a word without characters beyond the basic plane. */
  function Units(s: string): (u: Str)
    ensures |u| == |s|
  {
    seq(|s|, i requires 0 <= i < |s| => s[i] as int)
  }

  // ------------------------------------------------------------------ lexemes

  predicate IsSpace(c: char) { c in {' ', '\t', '\n', '\r'} }
  predicate IsDigit(c: char) { '0' <= c <= '9' }

  /** Section 7 of RFC 8259: a raw character of a string is no quote, backslash or control character. */
  predicate IsPlain(c: char) { c as int >= 0x20 && c != '"' && c != '\\' }

  function HexValue(c: char): Option<int> {
    if '0' <= c <= '9' then Some(c as int - '0' as int)
    else if 'a' <= c <= 'f' then Some(c as int - 'a' as int + 10)
    else if 'A' <= c <= 'F' then Some(c as int - 'A' as int + 10)
    else None
  }

  function Hex4(s: string, i: nat): Option<int> {
    if i + 4 > |s| then None
    else
      match (HexValue(s[i]), HexValue(s[i + 1]), HexValue(s[i + 2]), HexValue(s[i + 3]))
      case (Some(a), Some(b), Some(c), Some(d)) => Some(((a * 16 + b) * 16 + c) * 16 + d)
      case _ => None
  }

  /** The character a two-character escape stands for. */
  function Unescape(c: char): Option<int> {
    if c in {'"', '\\', '/'} then Some(c as int)
    else if c == 'b' then Some(8)
    else if c == 't' then Some(9)
    else if c == 'n' then Some(10)
    else if c == 'f' then Some(12)
    else if c == 'r' then Some(13)
    else None
  }

  function SkipSpace(s: string, i: nat): (j: nat)
    requires i <= |s|
    ensures i <= j <= |s|
    ensures j < |s| ==> !IsSpace(s[j])
    ensures forall k :: i <= k < j ==> IsSpace(s[k])
    decreases |s| - i
  {
    if i < |s| && IsSpace(s[i]) then SkipSpace(s, i + 1) else i
  }

  function DigitsEnd(s: string, i: nat): (j: nat)
    requires i <= |s|
    ensures i <= j <= |s|
    ensures j < |s| ==> !IsDigit(s[j])
    ensures forall k :: i <= k < j ==> IsDigit(s[k])
    decreases |s| - i
  {
    if i < |s| && IsDigit(s[i]) then DigitsEnd(s, i + 1) else i
  }

  predicate IsNumeric(c: char) { IsDigit(c) || c in {'-', '+', '.', 'e', 'E'} }

  function IntegerEnd(s: string, i: nat): (end: Option<nat>)
    requires i <= |s|
    ensures end.Some? ==> i < end.value <= |s| && forall k :: i <= k < end.value ==> IsNumeric(s[k])
  {
    var digits := if i < |s| && s[i] == '-' then i + 1 else i;
    if digits >= |s| || !IsDigit(s[digits]) then None
    else Some(if s[digits] == '0' then digits + 1 else DigitsEnd(s, digits))
  }

  function FractionEnd(s: string, i: nat): (end: Option<nat>)
    requires i <= |s|
    ensures end.Some? ==> i <= end.value <= |s| && forall k :: i <= k < end.value ==> IsNumeric(s[k])
  {
    if i < |s| && s[i] == '.' then
      var j := DigitsEnd(s, i + 1);
      if j == i + 1 then None else Some(j)
    else Some(i)
  }

  function ExponentEnd(s: string, i: nat): (end: Option<nat>)
    requires i <= |s|
    ensures end.Some? ==> i <= end.value <= |s| && forall k :: i <= k < end.value ==> IsNumeric(s[k])
  {
    if i < |s| && s[i] in {'e', 'E'} then
      var digits := if i + 1 < |s| && s[i + 1] in {'+', '-'} then i + 2 else i + 1;
      var j := DigitsEnd(s, digits);
      if j == digits then None else Some(j)
    else Some(i)
  }

  /** Section 6 of RFC 8259: minus, integer part, fraction, exponent. */
  function NumberEnd(s: string, i: nat): (end: Option<nat>)
    requires i <= |s|
    ensures end.Some? ==> i < end.value <= |s| && forall k :: i <= k < end.value ==> IsNumeric(s[k])
  {
    var integer := IntegerEnd(s, i);
    if integer == None then None
    else
      var fraction := FractionEnd(s, integer.value);
      if fraction == None then None else ExponentEnd(s, fraction.value)
  }

  /** The characters of a string behind its opening quote, up to and including the closing one. */
  function ParseChars(s: string, i: nat): (r: Option<(Str, nat)>)
    requires i <= |s|
    ensures r.Some? ==> i < r.value.1 <= |s|
    decreases |s| - i
  {
    if i >= |s| then None
    else if s[i] == '"' then Some(([], i + 1))
    else if s[i] == '\\' then
      if i + 1 >= |s| then None
      else if s[i + 1] == 'u' then
        var unit := Hex4(s, i + 2);
        if unit == None then None
        else
          var rest := ParseChars(s, i + 6);
          if rest == None then None else Some(([unit.value] + rest.value.0, rest.value.1))
      else
        var unit := Unescape(s[i + 1]);
        if unit == None then None
        else
          var rest := ParseChars(s, i + 2);
          if rest == None then None else Some(([unit.value] + rest.value.0, rest.value.1))
    else if !IsPlain(s[i]) then None
    else
      var rest := ParseChars(s, i + 1);
      if rest == None then None else Some((Utf16(s[i]) + rest.value.0, rest.value.1))
  }

  predicate StartsWith(s: string, word: string, i: nat) {
    i + |word| <= |s| && s[i..i + |word|] == word
  }

  // ------------------------------------------------------------------- values

  /** The value that starts at i, and where it ends. */
  function ParseValue(s: string, i: nat): (r: Option<(Value, nat)>)
    requires i <= |s|
    ensures r.Some? ==> i < r.value.1 <= |s|
    decreases |s| - i, 1
  {
    if i >= |s| then None
    else if s[i] == '{' then
      var j := SkipSpace(s, i + 1);
      if j < |s| && s[j] == '}' then Some((Object([]), j + 1))
      else
        var members := ParseMembers(s, j);
        if members == None then None else Some((Object(members.value.0), members.value.1))
    else if s[i] == '[' then
      var j := SkipSpace(s, i + 1);
      if j < |s| && s[j] == ']' then Some((Array([]), j + 1))
      else
        var items := ParseItems(s, j);
        if items == None then None else Some((Array(items.value.0), items.value.1))
    else if s[i] == '"' then
      var chars := ParseChars(s, i + 1);
      if chars == None then None else Some((String(chars.value.0), chars.value.1))
    else if StartsWith(s, "true", i) then Some((Bool(true), i + 4))
    else if StartsWith(s, "false", i) then Some((Bool(false), i + 5))
    else if StartsWith(s, "null", i) then Some((Null, i + 4))
    else
      var end := NumberEnd(s, i);
      if end == None then None else Some((Number(s[i..end.value]), end.value))
  }

  /** One or more members and the closing brace. */
  function ParseMembers(s: string, i: nat): (r: Option<(seq<Member>, nat)>)
    requires i <= |s|
    ensures r.Some? ==> i < r.value.1 <= |s|
    decreases |s| - i, 0
  {
    if i >= |s| || s[i] != '"' then None
    else
      var key := ParseChars(s, i + 1);
      if key == None then None
      else
        var colon := SkipSpace(s, key.value.1);
        if colon >= |s| || s[colon] != ':' then None
        else
          var value := ParseValue(s, SkipSpace(s, colon + 1));
          if value == None then None
          else MoreMembers(s, Member(key.value.0, value.value.0), value.value.1)
  }

  /** What follows a member: the closing brace, or a comma and further members. */
  function MoreMembers(s: string, member: Member, end: nat): (r: Option<(seq<Member>, nat)>)
    requires end <= |s|
    ensures r.Some? ==> end < r.value.1 <= |s|
    decreases |s| - end, 0
  {
    var next := SkipSpace(s, end);
    if next < |s| && s[next] == '}' then Some(([member], next + 1))
    else if next < |s| && s[next] == ',' then
      var rest := ParseMembers(s, SkipSpace(s, next + 1));
      if rest == None then None else Some(([member] + rest.value.0, rest.value.1))
    else None
  }

  /** One or more items and the closing bracket. */
  function ParseItems(s: string, i: nat): (r: Option<(seq<Value>, nat)>)
    requires i <= |s|
    ensures r.Some? ==> i < r.value.1 <= |s|
    decreases |s| - i, 2
  {
    var value := ParseValue(s, i);
    if value == None then None
    else
      var next := SkipSpace(s, value.value.1);
      if next < |s| && s[next] == ']' then Some(([value.value.0], next + 1))
      else if next < |s| && s[next] == ',' then
        var rest := ParseItems(s, SkipSpace(s, next + 1));
        if rest == None then None else Some(([value.value.0] + rest.value.0, rest.value.1))
      else None
  }

  /** A whole JSON text: one value with white space around it. */
  function Parse(s: string): Option<Value> {
    var value := ParseValue(s, SkipSpace(s, 0));
    if value == None || SkipSpace(s, value.value.1) != |s| then None else Some(value.value.0)
  }

  /** The value of a key, the last one when the text repeats it. */
  function Lookup(members: seq<Member>, key: Str): Option<Value> {
    if members == [] then None
    else
      var rest := Lookup(members[1..], key);
      if rest.Some? then rest
      else if members[0].key == key then Some(members[0].value)
      else None
  }
}
