/** Printing JSON the way `JSON.stringify` does: what is printed is JSON for the printed value. */
module JsonPrint {
  import opened Options
  import opened Json
  import opened JsonGrammar

  function HexDigit(n: nat): char
    requires n < 16
  {
    "0123456789abcdef"[n]
  }

  function HexUnit(u: nat): string
    requires u < 0x1_0000
  {
    ['\\', 'u', HexDigit(u / 0x1000), HexDigit(u / 0x100 % 16), HexDigit(u / 16 % 16), HexDigit(u % 16)]
  }

  predicate IsUnit(u: int) { 0 <= u < 0x1_0000 }
  predicate IsHigh(u: int) { 0xD800 <= u < 0xDC00 }
  predicate IsLow(u: int) { 0xDC00 <= u < 0xE000 }

  /** One unit on its own; a surrogate without its partner is escaped. */
  function PrintUnit(u: int): string
    requires IsUnit(u)
  {
    if u == '"' as int then "\\\""
    else if u == '\\' as int then "\\\\"
    else if u == 8 then "\\b"
    else if u == 9 then "\\t"
    else if u == 10 then "\\n"
    else if u == 12 then "\\f"
    else if u == 13 then "\\r"
    else if u < 0x20 || IsHigh(u) || IsLow(u) then HexUnit(u)
    else [u as char]
  }

  predicate IsText(s: Str) { forall u :: u in s ==> IsUnit(u) }

  /** The text begins with a surrogate pair. */
  predicate IsPair(s: Str) { |s| >= 2 && IsHigh(s[0]) && IsLow(s[1]) }

  /** How many units the next printed piece stands for. */
  function Width(s: Str): nat { if IsPair(s) then 2 else 1 }

  /** A surrogate pair is printed as the character it encodes. */
  function PrintHead(s: Str): string
    requires s != [] && IsText(s)
  {
    if IsPair(s) then [(0x1_0000 + (s[0] - 0xD800) * 0x400 + (s[1] - 0xDC00)) as char] else PrintUnit(s[0])
  }

  function PrintChars(s: Str): string
    requires IsText(s)
  {
    if s == [] then "" else PrintHead(s) + PrintChars(s[Width(s)..])
  }

  function PrintString(s: Str): string
    requires IsText(s)
  {
    "\"" + PrintChars(s) + "\""
  }

  /** Values that can be printed: real numbers and real characters. */
  ghost predicate IsPrintable(v: Value) {
    match v
    case Null => true
    case Bool(_) => true
    case Number(lexeme) => IsNumber(lexeme)
    case String(s) => IsText(s)
    case Array(items) => forall i :: 0 <= i < |items| ==> IsPrintable(items[i])
    case Object(members) =>
      forall i :: 0 <= i < |members| ==> IsText(members[i].key) && IsPrintable(members[i].value)
  }

  ghost predicate ArePrintable(members: seq<Member>) {
    forall i :: 0 <= i < |members| ==> IsText(members[i].key) && IsPrintable(members[i].value)
  }

  function Print(v: Value): (s: string)
    requires IsPrintable(v)
    decreases v, 0
  {
    match v
    case Null => "null"
    case Bool(b) => if b then "true" else "false"
    case Number(lexeme) => lexeme
    case String(s) => PrintString(s)
    case Array(items) => if items == [] then "[]" else "[" + PrintItems(items) + "]"
    case Object(members) => if members == [] then "{}" else "{" + PrintMembers(members) + "}"
  }

  function PrintItems(items: seq<Value>): string
    requires items != [] && forall i :: 0 <= i < |items| ==> IsPrintable(items[i])
    decreases items, 0
  {
    if |items| == 1 then Print(items[0]) else Print(items[0]) + "," + PrintItems(items[1..])
  }

  function PrintMember(m: Member): string
    requires IsText(m.key) && IsPrintable(m.value)
    decreases m, 0
  {
    PrintString(m.key) + ":" + Print(m.value)
  }

  function PrintMembers(members: seq<Member>): string
    requires members != [] && ArePrintable(members)
    decreases members, 0
  {
    if |members| == 1 then PrintMember(members[0]) else PrintMember(members[0]) + "," + PrintMembers(members[1..])
  }

  // ---------------------------------------------------------------- what is printed is JSON

  lemma HexDigitsAreHex(n: nat)
    requires n < 16
    ensures IsHex(HexDigit(n), n) && HexDigit(n) as int >= 0x20
  {
  }

  /** No control character, so in particular no line end. */
  predicate NoControls(w: string) {
    forall c :: c in w ==> c as int >= 0x20
  }

  lemma DigitsMakeUnit(u: nat)
    ensures u == 0x1000 * (u / 0x1000) + 0x100 * (u / 0x100 % 16) + 0x10 * (u / 16 % 16) + u % 16
  {
    assert u / 0x100 == 16 * (u / 0x1000) + u / 0x100 % 16;
    assert u / 16 == 16 * (u / 0x100) + u / 16 % 16;
  }

  lemma FourDigits(w: string, a: int, b: int, c: int, d: int)
    requires |w| == 4 && IsHex(w[0], a) && IsHex(w[1], b) && IsHex(w[2], c) && IsHex(w[3], d)
    ensures IsHex4(w, 0x1000 * a + 0x100 * b + 0x10 * c + d)
  {
    hide IsHex;
  }

  lemma HexUnitsAreHex(u: nat)
    requires u < 0x1_0000
    ensures IsHex4(HexUnit(u)[2..], u) && NoControls(HexUnit(u))
  {
    hide HexDigit, IsHex, IsHex4;
    var a, b, c, d := u / 0x1000, u / 0x100 % 16, u / 16 % 16, u % 16;
    HexDigitsAreHex(a);
    HexDigitsAreHex(b);
    HexDigitsAreHex(c);
    HexDigitsAreHex(d);
    DigitsMakeUnit(u);
    assert HexUnit(u)[2..] == [HexDigit(a), HexDigit(b), HexDigit(c), HexDigit(d)];
    FourDigits(HexUnit(u)[2..], a, b, c, d);
  }

  lemma HeadIsChar(s: Str)
    requires s != [] && IsText(s)
    ensures PrintHead(s) != "" && IsChar(PrintHead(s), s[..Width(s)]) && NoControls(PrintHead(s))
  {
    hide IsHex4, HexUnit;
    assert s[0] in s;
    if !IsPair(s) && (s[0] < 0x20 || IsHigh(s[0]) || IsLow(s[0])) {
      HexUnitsAreHex(s[0]);
      assert |HexUnit(s[0])| == 6 && HexUnit(s[0])[0] == '\\' && HexUnit(s[0])[1] == 'u' by {
        HexUnitStarts(s[0]);
      }
    }
  }

  lemma HexUnitStarts(u: nat)
    requires u < 0x1_0000
    ensures |HexUnit(u)| == 6 && HexUnit(u)[0] == '\\' && HexUnit(u)[1] == 'u'
  {
  }

  lemma {:induction false} CharsAreChars(s: Str)
    requires IsText(s)
    ensures IsChars(PrintChars(s), s) && NoControls(PrintChars(s))
    decreases |s|
  {
    hide PrintHead, IsChar, IsChars;
    if s == [] {
      assert IsChars("", []) by { NothingIsChars(); }
    } else {
      HeadIsChar(s);
      CharsAreChars(s[Width(s)..]);
      var w, k := PrintChars(s), |PrintHead(s)|;
      assert w[..k] == PrintHead(s) && w[k..] == PrintChars(s[Width(s)..]);
      CharsGrow(w, s, k, Width(s));
    }
  }

  lemma NothingIsChars()
    ensures IsChars("", [])
  {
  }

  lemma StringsAreStrings(s: Str)
    requires IsText(s)
    ensures IsString(PrintString(s), s) && NoControls(PrintString(s))
  {
    hide IsChars, PrintChars;
    CharsAreChars(s);
    var w := PrintString(s);
    assert w[1..|w| - 1] == PrintChars(s);
  }

  lemma ValuesAreElements(w: string, v: Value)
    requires IsValue(w, v)
    ensures IsElement(w, v)
  {
    hide IsValue;
    assert w[..0] == "" && w[0..|w|] == w && w[|w|..] == "";
  }

  lemma StringsAreNames(w: string, key: Str)
    requires IsString(w, key)
    ensures IsName(w, key)
  {
    hide IsString;
    assert w[..0] == "" && w[0..|w|] == w && w[|w|..] == "";
  }

  /** What is printed for a value is that value by the grammar, on one line. */
  lemma {:induction false} PrintedValuesAreJson(v: Value)
    requires IsPrintable(v)
    ensures IsValue(Print(v), v) && NoControls(Print(v))
    decreases v, 1
  {
    hide PrintString, PrintItems, PrintMembers, IsNumber, IsString, IsItems, IsMembers;
    var w := Print(v);
    match v {
      case Null =>
      case Bool(_) =>
      case Number(lexeme) => NumbersHaveNoControls(lexeme);
      case String(s) => StringsAreStrings(s);
      case Array(items) =>
        if items != [] {
          PrintedItemsAreJson(items);
          assert w[1..|w| - 1] == PrintItems(items);
        }
      case Object(members) =>
        if members != [] {
          PrintedMembersAreJson(members);
          assert w[1..|w| - 1] == PrintMembers(members);
        }
    }
  }

  lemma NumbersHaveNoControls(w: string)
    requires IsNumber(w)
    ensures NoControls(w)
  {
    hide IsNumber;
    assert w[0..|w|] == w;
    NumberIsRead(w, 0, |w|);
  }

  lemma {:induction false} PrintedItemsAreJson(items: seq<Value>)
    requires items != [] && forall i :: 0 <= i < |items| ==> IsPrintable(items[i])
    ensures IsItems(PrintItems(items), items) && NoControls(PrintItems(items))
    decreases items, 0
  {
    hide Print, IsPrintable, IsValue, IsElement;
    var first := Print(items[0]);
    PrintedValuesAreJson(items[0]);
    ValuesAreElements(first, items[0]);
    if |items| > 1 {
      PrintedItemsAreJson(items[1..]);
      var w, k := PrintItems(items), |first|;
      assert w[k] == ',' && w[..k] == first && w[k + 1..] == PrintItems(items[1..]);
    }
  }

  lemma PrintedMemberIsJson(m: Member)
    requires IsText(m.key) && IsPrintable(m.value) && IsValue(Print(m.value), m.value) && NoControls(Print(m.value))
    ensures IsMember(PrintMember(m), m) && NoControls(PrintMember(m))
  {
    hide Print, IsPrintable, IsText, PrintString, IsName, IsValue, IsElement, IsString;
    var key := PrintString(m.key);
    StringsAreStrings(m.key);
    StringsAreNames(key, m.key);
    ValuesAreElements(Print(m.value), m.value);
    var w, k := PrintMember(m), |key|;
    assert w[k] == ':' && w[..k] == key && w[k + 1..] == Print(m.value);
  }

  lemma {:induction false} PrintedMembersAreJson(members: seq<Member>)
    requires members != [] && ArePrintable(members)
    ensures IsMembers(PrintMembers(members), members) && NoControls(PrintMembers(members))
    decreases members, 0
  {
    hide Print, IsPrintable, IsText, PrintMember, IsMember, IsValue;
    PrintedValuesAreJson(members[0].value);
    PrintedMemberIsJson(members[0]);
    if |members| > 1 {
      PrintedMembersAreJson(members[1..]);
      var w, k := PrintMembers(members), |PrintMember(members[0])|;
      assert w[k] == ',' && w[..k] == PrintMember(members[0]) && w[k + 1..] == PrintMembers(members[1..]);
    }
  }

  /** Parsing what was printed gives the value back. */
  lemma PrintedValuesParse(v: Value)
    requires IsPrintable(v)
    ensures Parse(Print(v)) == Some(v)
  {
    hide Print, IsPrintable, Parse, IsValue, IsElement;
    PrintedValuesAreJson(v);
    ValuesAreElements(Print(v), v);
    ParsesIff(Print(v), v);
  }

  /** A printed object is one line that starts and ends with its braces. */
  lemma ObjectsAreBraced(members: seq<Member>)
    requires IsPrintable(Object(members))
    ensures var w := Print(Object(members)); |w| > 0 && w[0] == '{' && w[|w| - 1] == '}' && NoControls(w)
  {
    PrintedValuesAreJson(Object(members));
  }

  // ------------------------------------------------------------- what is read can be printed

  lemma CharIsText(w: string, u: Str)
    requires IsChar(w, u)
    ensures IsText(u)
  {
  }

  lemma {:induction false} CharsAreText(w: string, u: Str)
    requires IsChars(w, u)
    ensures IsText(u)
    decreases |w|
  {
    hide IsChar;
    if w != "" {
      var k: nat, n: nat :| 0 < k <= |w| && n <= |u| && IsChar(w[..k], u[..n]) && IsChars(w[k..], u[n..]);
      CharIsText(w[..k], u[..n]);
      CharsAreText(w[k..], u[n..]);
      assert u == u[..n] + u[n..];
    }
  }

  /** Every value the grammar gives to a text can be printed. */
  lemma {:induction false} ValuesArePrintable(w: string, v: Value)
    requires IsValue(w, v)
    ensures IsPrintable(v)
    decreases v, 0
  {
    hide IsChars, IsItems, IsMembers, IsNumber, IsText, IsWs;
    match v {
      case String(u) => CharsAreText(w[1..|w| - 1], u);
      case Array(items) => if items != [] { ItemsArePrintable(w[1..|w| - 1], items); }
      case Object(members) => if members != [] { MembersArePrintable(w[1..|w| - 1], members); }
      case _ =>
    }
  }

  lemma {:induction false} ElementsArePrintable(w: string, v: Value)
    requires IsElement(w, v)
    ensures IsPrintable(v)
    decreases v, 1
  {
    hide IsValue, IsPrintable, IsWs;
    var a: nat, b: nat :| a <= b <= |w| && IsWs(w[..a]) && IsValue(w[a..b], v) && IsWs(w[b..]);
    ValuesArePrintable(w[a..b], v);
  }

  lemma {:induction false} ItemsArePrintable(w: string, items: seq<Value>)
    requires items != [] && IsItems(w, items)
    ensures forall i :: 0 <= i < |items| ==> IsPrintable(items[i])
    decreases items, 0
  {
    hide IsElement, IsPrintable;
    if |items| == 1 {
      ElementsArePrintable(w, items[0]);
    } else {
      hide IsItems;
      assert w[0..|w|] == w;
      var k := ItemsSplit(w, 0, |w|, items);
      ElementsArePrintable(w[0..k], items[0]);
      ItemsArePrintable(w[k + 1..|w|], items[1..]);
      assert items == [items[0]] + items[1..];
    }
  }

  lemma {:induction false} MembersArePrintable(w: string, members: seq<Member>)
    requires members != [] && IsMembers(w, members)
    ensures ArePrintable(members)
    decreases members, 0
  {
    hide IsMember, IsPrintable, IsText;
    if |members| == 1 {
      MemberIsPrintable(w, members[0]);
    } else {
      hide IsMembers;
      assert w[0..|w|] == w;
      var k := MembersSplit(w, 0, |w|, members);
      MemberIsPrintable(w[0..k], members[0]);
      MembersArePrintable(w[k + 1..|w|], members[1..]);
      assert members == [members[0]] + members[1..];
    }
  }

  lemma {:induction false} MemberIsPrintable(w: string, m: Member)
    requires IsMember(w, m)
    ensures IsText(m.key) && IsPrintable(m.value)
    decreases m, 0
  {
    hide IsMember, IsName, IsElement, IsPrintable, IsText;
    assert w[0..|w|] == w;
    var k := MemberSplits(w, 0, |w|, m);
    NamesAreText(w[0..k], m.key);
    ElementsArePrintable(w[k + 1..|w|], m.value);
  }

  lemma NamesAreText(w: string, key: Str)
    requires IsName(w, key)
    ensures IsText(key)
  {
    hide IsChars, IsText, IsWs;
    var a: nat, b: nat :| a <= b <= |w| && IsWs(w[..a]) && IsString(w[a..b], key) && IsWs(w[b..]);
    CharsAreText(w[a..b][1..b - a - 1], key);
  }

  /** Whatever was read can be printed, and reading that gives the same value again. */
  lemma ReadValuesPrint(s: string, v: Value)
    requires Parse(s) == Some(v)
    ensures IsPrintable(v) && Parse(Print(v)) == Some(v)
  {
    hide Parse, IsElement, IsPrintable, Print;
    ParsesIff(s, v);
    ElementsArePrintable(s, v);
    PrintedValuesParse(v);
  }

  /** A text in UTF-16. */
  function Utf16s(c: string): Str {
    if c == "" then [] else Utf16(c[0]) + Utf16s(c[1..])
  }

  lemma {:induction false} PlainCharsStay(c: string)
    requires forall x :: x in c ==> IsPlain(x)
    ensures IsText(Utf16s(c)) && PrintChars(Utf16s(c)) == c
  {
    if c != "" {
      hide IsText, IsPlain, PrintHead, Width, Utf16;
      PlainCharsStay(c[1..]);
      HeadIsItself(c[0], Utf16s(c[1..]));
      assert c == [c[0]] + c[1..];
    }
  }

  lemma HeadIsItself(c: char, u: Str)
    requires IsPlain(c) && IsText(u)
    ensures var s := Utf16(c) + u;
            IsText(s) && PrintHead(s) == [c] && Width(s) == |Utf16(c)| && s[Width(s)..] == u
  {
  }

  /** A text without quotes, backslashes and control characters is printed as it is. */
  lemma PlainTextsStay(c: string)
    requires forall x :: x in c ==> IsPlain(x)
    ensures IsPrintable(String(Utf16s(c))) && Print(String(Utf16s(c))) == "\"" + c + "\""
  {
    PlainCharsStay(c);
  }
}
