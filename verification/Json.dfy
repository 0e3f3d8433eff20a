/** JSON values, their compact text, and a reference parser for that text
    (RFC 8259 sections 2 and 7; numbers in their integer form only). */
module Json {
  import opened Common

  datatype Json =
    | JNull
    | JBool(b: bool)
    | JNumber(n: int)
    | JString(s: string)
    | JChar(c: char)  // a string of one character that is printed without escaping
    | JArray(items: seq<Json>)
    | JObject(members: seq<Member>)

  datatype Member = Member(name: string, value: Json)

  // ----- text

  function HexDigit(n: nat): (c: char)
    requires n < 16
  {
    "0123456789abcdef"[n]
  }

  /** What `%04x` prints. */
  function Hex4(n: nat): (s: string)
    requires n < 0x10000
    ensures |s| == 4
  {
    [HexDigit(n / 4096), HexDigit(n / 256 % 16), HexDigit(n / 16 % 16), HexDigit(n % 16)]
  }

  const BACKSPACE: char := 8 as char
  const FORMFEED: char := 12 as char

  /** How one character is written inside a string. */
  function Escape(c: char): (s: string)
    ensures |s| > 0
  {
    if c == BACKSPACE then "\\b"
    else if c == FORMFEED then "\\f"
    else if c == '\n' then "\\n"
    else if c == '\r' then "\\r"
    else if c == '\t' then "\\t"
    else if c == '"' then "\\\""
    else if c == '\\' then "\\\\"
    else if c < ' ' || c == '<' || c == '>' then "\\u" + Hex4(c as int)
    else [c]
  }

  lemma HexForm(n: nat)
    requires n < 256
    ensures Hex4(n) == ['0', '0', HexDigit(n / 16), HexDigit(n % 16)]
  {}

  /** The escapes of two characters, the escapes by code in four hexadecimal digits, and all
      other characters as they are. */
  lemma EscapeTable(c: char)
    ensures
      match c as int
      case 8 => Escape(c) == ['\\', 'b']
      case 9 => Escape(c) == ['\\', 't']
      case 10 => Escape(c) == ['\\', 'n']
      case 12 => Escape(c) == ['\\', 'f']
      case 13 => Escape(c) == ['\\', 'r']
      case 34 => Escape(c) == ['\\', '"']
      case 92 => Escape(c) == ['\\', '\\']
      case code =>
        if code < 32 || code == 60 || code == 62 then Escape(c) == ['\\', 'u', '0', '0', HexDigit(code / 16), HexDigit(code % 16)]
        else Escape(c) == [c]
  {
    hide Hex4, HexDigit;
    if c as int < 256 { HexForm(c as int); }
  }

  function EscapeAll(s: string): string {
    if s == "" then "" else Escape(s[0]) + EscapeAll(s[1..])
  }

  function Quote(s: string): string {
    "\"" + EscapeAll(s) + "\""
  }

  /** Texts with commas between them. */
  function Join(texts: seq<string>): string {
    if texts == [] then ""
    else if |texts| == 1 then texts[0]
    else texts[0] + "," + Join(texts[1..])
  }

  function Text(j: Json): (s: string)
    decreases j, 1
  {
    match j
    case JNull => "null"
    case JBool(b) => if b then "true" else "false"
    case JNumber(n) => Decimal(n)
    case JString(s) => Quote(s)
    case JChar(c) => "\"" + [c] + "\""
    case JArray(items) => "[" + Join(Texts(items)) + "]"
    case JObject(members) => "{" + Join(MemberTexts(members)) + "}"
  }

  function Texts(items: seq<Json>): (r: seq<string>)
    ensures |r| == |items|
    decreases items, 0
  {
    if items == [] then [] else [Text(items[0])] + Texts(items[1..])
  }

  function MemberTexts(ms: seq<Member>): (r: seq<string>)
    ensures |r| == |ms|
    decreases ms, 0
  {
    if ms == [] then []
    else
      assert ms[0].value < ms[0];
      [Quote(ms[0].name) + ":" + Text(ms[0].value)] + MemberTexts(ms[1..])
  }

  // ----- the meaning of a value

  /** The value that is meant: characters printed as they are stand for strings. */
  function Read(j: Json): Json
    decreases j, 1
  {
    match j
    case JChar(c) => JString([c])
    case JArray(items) => JArray(ReadAll(items))
    case JObject(members) => JObject(ReadMembers(members))
    case _ => j
  }

  function ReadAll(items: seq<Json>): (r: seq<Json>)
    ensures |r| == |items|
    decreases items, 0
  {
    if items == [] then [] else [Read(items[0])] + ReadAll(items[1..])
  }

  function ReadMembers(ms: seq<Member>): (r: seq<Member>)
    ensures |r| == |ms|
    decreases ms, 0
  {
    if ms == [] then []
    else
      assert ms[0].value < ms[0];
      [Member(ms[0].name, Read(ms[0].value))] + ReadMembers(ms[1..])
  }

  /** What a JSON string may hold as it is. */
  predicate IsPlain(c: char) {
    c >= ' ' && c != '"' && c != '\\'
  }

  /** Every character printed as it is may stand in a string. */
  predicate Plain(j: Json)
    decreases j, 1
  {
    match j
    case JChar(c) => IsPlain(c)
    case JArray(items) => AllPlain(items)
    case JObject(members) => PlainMembers(members)
    case _ => true
  }

  predicate AllPlain(items: seq<Json>)
    decreases items, 0
  {
    items != [] ==> Plain(items[0]) && AllPlain(items[1..])
  }

  predicate PlainMembers(ms: seq<Member>)
    decreases ms, 0
  {
    ms != [] ==>
      assert ms[0].value < ms[0];
      Plain(ms[0].value) && PlainMembers(ms[1..])
  }

  // ----- reference parser

  predicate IsWhite(c: char) {
    c == ' ' || c == '\t' || c == '\n' || c == '\r'
  }

  function SkipWhite(s: string): (r: string)
    ensures |r| <= |s|
  {
    if s != "" && IsWhite(s[0]) then SkipWhite(s[1..]) else s
  }

  function HexValue(c: char): Option<nat> {
    if '0' <= c <= '9' then Some(c as int - '0' as int)
    else if 'a' <= c <= 'f' then Some(c as int - 'a' as int + 10)
    else if 'A' <= c <= 'F' then Some(c as int - 'A' as int + 10)
    else None
  }

  /** The character four hexadecimal digits stand for (a lone surrogate is refused). */
  function ParseHex4(s: string): Option<char>
    requires |s| >= 4
  {
    var a, b, c, d := HexValue(s[0]), HexValue(s[1]), HexValue(s[2]), HexValue(s[3]);
    if a.None? || b.None? || c.None? || d.None? then None
    else
      var n := a.value * 4096 + b.value * 256 + c.value * 16 + d.value;
      if n < 0xD800 || 0xE000 <= n < 0x10000 then Some(n as char) else None
  }

  function Unescaped(c: char): Option<char> {
    if c == '"' || c == '\\' || c == '/' then Some(c)
    else if c == 'b' then Some(BACKSPACE)
    else if c == 'f' then Some(FORMFEED)
    else if c == 'n' then Some('\n')
    else if c == 'r' then Some('\r')
    else if c == 't' then Some('\t')
    else None
  }

  datatype Parsed<T> = Failure | Success(value: T, rest: string)

  /** One character of a string, escaped or not. */
  function ParseChar(s: string): (p: Parsed<char>)
    ensures p.Success? ==> |p.rest| < |s|
  {
    if s == "" || s[0] == '"' || s[0] < ' ' then Failure
    else if s[0] != '\\' then Success(s[0], s[1..])
    else if |s| < 2 then Failure
    else if s[1] == 'u' then
      if |s| < 6 then Failure
      else
        var c := ParseHex4(s[2..6]);
        if c.Some? then Success(c.value, s[6..]) else Failure
    else
      var c := Unescaped(s[1]);
      if c.Some? then Success(c.value, s[2..]) else Failure
  }

  /** The characters of a string up to its closing quote. */
  function ParseChars(s: string): (p: Parsed<string>)
    ensures p.Success? ==> |p.rest| < |s|
    decreases |s|
  {
    if s != "" && s[0] == '"' then Success("", s[1..])
    else
      var c := ParseChar(s);
      if c.Failure? then Failure
      else
        var cs := ParseChars(c.rest);
        if cs.Failure? then Failure else Success([c.value] + cs.value, cs.rest)
  }

  function DigitRun(s: string): (k: nat)
    ensures k <= |s| && forall i :: 0 <= i < k ==> IsDigit(s[i])
  {
    if s != "" && IsDigit(s[0]) then 1 + DigitRun(s[1..]) else 0
  }

  /** An unsigned number has no leading zero. */
  function ParseNatural(s: string): (p: Parsed<nat>)
    ensures p.Success? ==> |p.rest| < |s|
  {
    var k := DigitRun(s);
    if k == 0 || (k > 1 && s[0] == '0') then Failure
    else Success(DigitsValue(s[..k]), s[k..])
  }

  function ParseNumber(s: string): (p: Parsed<Json>)
    ensures p.Success? ==> |p.rest| < |s|
  {
    if s != "" && s[0] == '-' then
      var p := ParseNatural(s[1..]);
      if p.Success? then Success(JNumber(0 - p.value as int), p.rest) else Failure
    else
      var p := ParseNatural(s);
      if p.Success? then Success(JNumber(p.value), p.rest) else Failure
  }

  function ParseWord(s: string, word: string, j: Json): (p: Parsed<Json>)
    requires |word| > 0
    ensures p.Success? ==> |p.rest| < |s|
  {
    if word <= s then Success(j, s[|word|..]) else Failure
  }

  function ParseValue(text: string): (p: Parsed<Json>)
    ensures p.Success? ==> |p.rest| < |text|
    decreases |text|, 0
  {
    var s := SkipWhite(text);
    if s == "" then Failure
    else if s[0] == '"' then
      var p := ParseChars(s[1..]);
      if p.Success? then Success(JString(p.value), p.rest) else Failure
    else if s[0] == '[' then
      var t := SkipWhite(s[1..]);
      if t != "" && t[0] == ']' then Success(JArray([]), t[1..])
      else
        var p := ParseItems(t);
        if p.Success? then Success(JArray(p.value), p.rest) else Failure
    else if s[0] == '{' then
      var t := SkipWhite(s[1..]);
      if t != "" && t[0] == '}' then Success(JObject([]), t[1..])
      else
        var p := ParseMembers(t);
        if p.Success? then Success(JObject(p.value), p.rest) else Failure
    else if s[0] == 'n' then ParseWord(s, "null", JNull)
    else if s[0] == 't' then ParseWord(s, "true", JBool(true))
    else if s[0] == 'f' then ParseWord(s, "false", JBool(false))
    else ParseNumber(s)
  }

  /** One or more values up to the closing bracket. */
  function ParseItems(text: string): (p: Parsed<seq<Json>>)
    ensures p.Success? ==> |p.rest| < |text|
    decreases |text|, 1
  {
    var first := ParseValue(text);
    if first.Failure? then Failure
    else
      var t := SkipWhite(first.rest);
      if t == "" then Failure
      else if t[0] == ']' then Success([first.value], t[1..])
      else if t[0] == ',' then
        var more := ParseItems(t[1..]);
        if more.Success? then Success([first.value] + more.value, more.rest) else Failure
      else Failure
  }

  /** A name, a colon and a value. */
  function ParseMember(text: string): (p: Parsed<Member>)
    ensures p.Success? ==> |p.rest| < |text|
    decreases |text|, 1
  {
    var s := SkipWhite(text);
    if s == "" || s[0] != '"' then Failure
    else
      var name := ParseChars(s[1..]);
      if name.Failure? then Failure
      else
        var t := SkipWhite(name.rest);
        if t == "" || t[0] != ':' then Failure
        else
          var value := ParseValue(t[1..]);
          if value.Success? then Success(Member(name.value, value.value), value.rest) else Failure
  }

  function ParseMembers(text: string): (p: Parsed<seq<Member>>)
    ensures p.Success? ==> |p.rest| < |text|
    decreases |text|, 2
  {
    var first := ParseMember(text);
    if first.Failure? then Failure
    else
      var t := SkipWhite(first.rest);
      if t == "" then Failure
      else if t[0] == '}' then Success([first.value], t[1..])
      else if t[0] == ',' then
        var more := ParseMembers(t[1..]);
        if more.Success? then Success([first.value] + more.value, more.rest) else Failure
      else Failure
  }

  /** A whole text is one value with nothing but white space around it. */
  function Parse(text: string): Option<Json> {
    var p := ParseValue(text);
    if p.Success? && SkipWhite(p.rest) == "" then Some(p.value) else None
  }

  // ----- the parser undoes the text

  /** What may follow a value. */
  predicate Stops(rest: string) {
    rest == "" || rest[0] in {',', ']', '}'}
  }

  lemma {:induction false} HexRoundTrip(n: nat)
    requires n < 128
    ensures ParseHex4(Hex4(n)) == Some(n as char)
  {
    assert n / 4096 == 0 && n / 256 == 0 && n / 16 % 16 == n / 16;
    assert Hex4(n) == [HexDigit(0), HexDigit(0), HexDigit(n / 16), HexDigit(n % 16)];
    hide HexDigit, HexValue;
    HexDigitRoundTrip(0);
    HexDigitRoundTrip(n / 16);
    HexDigitRoundTrip(n % 16);
  }

  lemma HexDigitRoundTrip(n: nat)
    requires n < 16
    ensures HexValue(HexDigit(n)) == Some(n)
  {}

  /** An escaped character is read back. */
  lemma {:induction false} CharRoundTrip(c: char, rest: string)
    ensures ParseChar(Escape(c) + rest) == Success(c, rest)
  {
    var s := Escape(c) + rest;
    if c < ' ' || c == '<' || c == '>' {
      if c !in {BACKSPACE, FORMFEED, '\n', '\r', '\t'} {
        HexRoundTrip(c as int);
        assert s == ("\\u" + Hex4(c as int)) + rest;
        assert s[2..6] == Hex4(c as int);
        assert s[6..] == rest;
      }
    }
    assert s[|Escape(c)|..] == rest;
  }

  lemma EscapeStart(c: char)
    ensures Escape(c)[0] != '"'
  {}

  lemma {:induction false} CharsRoundTrip(t: string, rest: string)
    ensures ParseChars(EscapeAll(t) + "\"" + rest) == Success(t, rest)
  {
    hide Escape, ParseChar;
    var s := EscapeAll(t) + "\"" + rest;
    if t == "" {
      assert s == "\"" + rest;
    } else {
      var tail := EscapeAll(t[1..]) + "\"" + rest;
      assert s == Escape(t[0]) + tail;
      CharRoundTrip(t[0], tail);
      EscapeStart(t[0]);
      CharsRoundTrip(t[1..], rest);
      assert t == [t[0]] + t[1..];
    }
  }

  lemma {:induction false} DigitRunOf(d: string, rest: string)
    requires (forall i :: 0 <= i < |d| ==> IsDigit(d[i])) && Stops(rest)
    ensures DigitRun(d + rest) == |d|
  {
    if d == "" {
      assert d + rest == rest;
    } else {
      assert (d + rest)[1..] == d[1..] + rest;
      DigitRunOf(d[1..], rest);
    }
  }

  lemma NaturalRoundTrip(n: nat, rest: string)
    requires Stops(rest)
    ensures ParseNatural(Digits(n) + rest) == Success(n, rest)
  {
    var d := Digits(n);
    DigitRunOf(d, rest);
    DigitsRoundTrip(n);
    assert (d + rest)[..|d|] == d && (d + rest)[|d|..] == rest;
    if n == 0 { assert d == "0"; }
  }

  lemma NumberRoundTrip(n: int, rest: string)
    requires Stops(rest)
    ensures ParseNumber(Decimal(n) + rest) == Success(JNumber(n), rest)
  {
    hide ParseNatural, Digits;
    if n < 0 {
      NaturalRoundTrip(-n, rest);
      assert Decimal(n) + rest == "-" + (Digits(-n) + rest);
    } else {
      NaturalRoundTrip(n, rest);
      assert IsDigit((Digits(n) + rest)[0]);
    }
  }

  lemma NumberStart(n: int)
    ensures Decimal(n)[0] == '-' || IsDigit(Decimal(n)[0])
  {}

  lemma NumberValue(n: int, rest: string)
    requires Stops(rest)
    ensures ParseValue(Decimal(n) + rest) == Success(JNumber(n), rest)
  {
    hide ParseNumber, Decimal;
    NumberRoundTrip(n, rest);
    NumberStart(n);
    assert (Decimal(n) + rest)[0] == Decimal(n)[0];
  }

  lemma StringValue(t: string, rest: string)
    ensures ParseValue(Quote(t) + rest) == Success(JString(t), rest)
  {
    hide ParseChars;
    var s := Quote(t) + rest;
    assert s[1..] == EscapeAll(t) + "\"" + rest;
    CharsRoundTrip(t, rest);
  }

  lemma WordValue(word: string, j: Json, rest: string)
    requires (word == "null" && j == JNull) || (word == "true" && j == JBool(true)) || (word == "false" && j == JBool(false))
    ensures ParseValue(word + rest) == Success(j, rest)
  {}

  lemma ArrayValue(body: string, items: seq<Json>, rest: string)
    requires body != "" && !IsWhite(body[0]) && body[0] != ']' && ParseItems(body) == Success(items, rest)
    ensures ParseValue("[" + body) == Success(JArray(items), rest)
  {}

  lemma ObjectValue(body: string, members: seq<Member>, rest: string)
    requires body != "" && body[0] == '"' && ParseMembers(body) == Success(members, rest)
    ensures ParseValue("{" + body) == Success(JObject(members), rest)
  {}

  lemma EmptyValue(rest: string)
    ensures ParseValue("[]" + rest) == Success(JArray([]), rest)
    ensures ParseValue("{}" + rest) == Success(JObject([]), rest)
  {}

  /** A plain character between quotes. */
  lemma PlainCharValue(c: char, rest: string)
    requires IsPlain(c)
    ensures ParseValue("\"" + [c] + "\"" + rest) == Success(JString([c]), rest)
  {
    var s := "\"" + [c] + "\"" + rest;
    var t := [c] + "\"" + rest;
    assert s[1..] == t && t[1..] == "\"" + rest && ("\"" + rest)[1..] == rest;
    assert ParseChars("\"" + rest) == Success("", rest);
    assert [c] + "" == [c];
  }

  lemma {:induction false} ValueRoundTrip(j: Json, rest: string)
    requires Stops(rest) && Plain(j)
    ensures ParseValue(Text(j) + rest) == Success(Read(j), rest)
    decreases j, 1
  {
    hide ParseValue, Quote, Decimal, Join;
    match j {
      case JNull => WordValue("null", j, rest);
      case JBool(b) => WordValue(if b then "true" else "false", j, rest);
      case JNumber(n) => NumberValue(n, rest);
      case JString(t) => StringValue(t, rest);
      case JChar(c) => PlainCharValue(c, rest);
      case JArray(items) => ArrayRoundTrip(items, rest);
      case JObject(members) => ObjectRoundTrip(members, rest);
    }
  }

  lemma ArrayRoundTrip(items: seq<Json>, rest: string)
    requires AllPlain(items)
    ensures ParseValue(Text(JArray(items)) + rest) == Success(JArray(ReadAll(items)), rest)
    decreases items, 1
  {
    hide ParseValue, ParseItems, Join, Texts;
    if items == [] {
      EmptyJoin();
      EmptyValue(rest);
      assert Texts(items) == [];
      assert Text(JArray(items)) == "[]";
    } else {
      hide ReadAll;
      var body := Join(Texts(items)) + "]" + rest;
      ItemsRoundTrip(items, rest);
      ArrayValue(body, ReadAll(items), rest);
      assert Text(JArray(items)) + rest == "[" + body;
    }
  }

  lemma ObjectRoundTrip(members: seq<Member>, rest: string)
    requires PlainMembers(members)
    ensures ParseValue(Text(JObject(members)) + rest) == Success(JObject(ReadMembers(members)), rest)
    decreases members, 1
  {
    hide ParseValue, ParseMembers, Join, MemberTexts;
    if members == [] {
      EmptyJoin();
      EmptyValue(rest);
      assert MemberTexts(members) == [];
      assert Text(JObject(members)) == "{}";
    } else {
      hide ReadMembers;
      var body := Join(MemberTexts(members)) + "}" + rest;
      MembersRoundTrip(members, rest);
      ObjectValue(body, ReadMembers(members), rest);
      assert Text(JObject(members)) + rest == "{" + body;
    }
  }

  lemma EmptyJoin()
    ensures Join([]) == ""
  {}

  lemma LastItem(j: Json, text: string, rest: string)
    requires ParseValue(text + ("]" + rest)) == Success(j, "]" + rest)
    ensures ParseItems(text + "]" + rest) == Success([j], rest)
  {
    hide ParseValue;
    assert text + "]" + rest == text + ("]" + rest);
    assert ("]" + rest)[1..] == rest;
  }

  lemma FirstItem(j: Json, text: string, more: string, items: seq<Json>, rest: string)
    requires ParseValue(text + ("," + more)) == Success(j, "," + more) && ParseItems(more) == Success(items, rest)
    ensures ParseItems(text + "," + more) == Success([j] + items, rest)
  {
    hide ParseValue;
    assert text + "," + more == text + ("," + more);
    assert ("," + more)[1..] == more;
  }

  lemma {:induction false} ItemsRoundTrip(items: seq<Json>, rest: string)
    requires items != [] && AllPlain(items)
    ensures
      var s := Join(Texts(items)) + "]" + rest;
      ParseItems(s) == Success(ReadAll(items), rest) && !IsWhite(s[0]) && s[0] != ']'
    decreases items, 0
  {
    hide ParseValue, ParseItems, Text, Read, Plain;
    var text := Text(items[0]);
    TextStart(items[0]);
    if |items| == 1 {
      assert Texts(items) == [text];
      ValueRoundTrip(items[0], "]" + rest);
      LastItem(Read(items[0]), text, rest);
      assert ReadAll(items) == [Read(items[0])];
    } else {
      var more := Join(Texts(items[1..])) + "]" + rest;
      ValueRoundTrip(items[0], "," + more);
      ItemsRoundTrip(items[1..], rest);
      FirstItem(Read(items[0]), text, more, ReadAll(items[1..]), rest);
      assert Join(Texts(items)) + "]" + rest == text + "," + more;
    }
  }

  lemma LastMember(m: Member, text: string, rest: string)
    requires ParseMember(text + ("}" + rest)) == Success(m, "}" + rest)
    ensures ParseMembers(text + "}" + rest) == Success([m], rest)
  {
    hide ParseMember;
    assert text + "}" + rest == text + ("}" + rest);
    assert ("}" + rest)[1..] == rest;
  }

  lemma FirstMember(m: Member, text: string, more: string, ms: seq<Member>, rest: string)
    requires ParseMember(text + ("," + more)) == Success(m, "," + more) && ParseMembers(more) == Success(ms, rest)
    ensures ParseMembers(text + "," + more) == Success([m] + ms, rest)
  {
    hide ParseMember;
    assert text + "," + more == text + ("," + more);
    assert ("," + more)[1..] == more;
  }

  function MemberText(m: Member): string {
    Quote(m.name) + ":" + Text(m.value)
  }

  function ReadMember(m: Member): Member {
    Member(m.name, Read(m.value))
  }

  lemma {:induction false} MembersRoundTrip(ms: seq<Member>, rest: string)
    requires ms != [] && PlainMembers(ms)
    ensures
      var s := Join(MemberTexts(ms)) + "}" + rest;
      ParseMembers(s) == Success(ReadMembers(ms), rest) && s[0] == '"'
    decreases ms, 0
  {
    hide ParseMember, ParseMembers, Text, Read, Plain;
    var text := MemberText(ms[0]);
    assert text[0] == '"';
    if |ms| == 1 {
      assert MemberTexts(ms) == [text];
      MemberRoundTrip(ms[0], "}" + rest);
      LastMember(ReadMember(ms[0]), text, rest);
      assert ReadMembers(ms) == [ReadMember(ms[0])];
    } else {
      var more := Join(MemberTexts(ms[1..])) + "}" + rest;
      MemberRoundTrip(ms[0], "," + more);
      MembersRoundTrip(ms[1..], rest);
      FirstMember(ReadMember(ms[0]), text, more, ReadMembers(ms[1..]), rest);
      assert Join(MemberTexts(ms)) + "}" + rest == text + "," + more;
    }
  }

  lemma MemberRoundTrip(m: Member, rest: string)
    requires Stops(rest) && Plain(m.value)
    ensures ParseMember(MemberText(m) + rest) == Success(ReadMember(m), rest)
    decreases m, 0
  {
    hide ParseValue, ParseChars, Text, EscapeAll, Read;
    var s := MemberText(m) + rest;
    var value := Text(m.value) + rest;
    assert s[1..] == EscapeAll(m.name) + "\"" + (":" + value);
    CharsRoundTrip(m.name, ":" + value);
    assert (":" + value)[1..] == value;
    assert m.value < m;
    ValueRoundTrip(m.value, rest);
  }

  /** Compact text starts with a visible character that closes nothing. */
  lemma TextStart(j: Json)
    ensures Text(j) != "" && !IsWhite(Text(j)[0]) && Text(j)[0] != ']'
  {}

  /** The reference parser gives every plain value back from its text. */
  lemma TextRoundTrip(j: Json)
    requires Plain(j)
    ensures Parse(Text(j)) == Some(Read(j))
  {
    hide ParseValue, Text, Plain, Read;
    assert Text(j) + "" == Text(j);
    ValueRoundTrip(j, "");
  }

  // ----- text that is misread

  /** Not parsed, or not as what was meant. */
  predicate Misread<T(==)>(p: Parsed<T>, meant: T) {
    p.Failure? || p.value != meant
  }

  lemma BadCharValue(c: char, rest: string)
    requires !IsPlain(c)
    ensures Misread(ParseValue("\"" + [c] + "\"" + rest), JString([c]))
  {
    var s := "\"" + [c] + "\"" + rest;
    var t := [c] + "\"" + rest;
    assert s[1..] == t;
    if c == '\\' {
      assert t[1] == '"' && ParseChar(t) == Success('"', t[2..]);
    } else if c == '"' {
      assert ParseChars(t) == Success("", t[1..]);
    }
  }

  lemma {:induction false} BadValue(j: Json, rest: string)
    requires Stops(rest) && !Plain(j)
    ensures Misread(ParseValue(Text(j) + rest), Read(j))
    decreases j, 1
  {
    hide ParseValue, Join;
    match j {
      case JChar(c) => BadCharValue(c, rest);
      case JArray(items) => BadArray(items, rest);
      case JObject(members) => BadObject(members, rest);
    }
  }

  lemma BadArray(items: seq<Json>, rest: string)
    requires !AllPlain(items)
    ensures Misread(ParseValue(Text(JArray(items)) + rest), JArray(ReadAll(items)))
    decreases items, 1
  {
    hide ParseValue, ParseItems, Join, Texts, ReadAll;
    var body := Join(Texts(items)) + "]" + rest;
    BadItems(items, rest);
    OpenArray(body);
    assert Text(JArray(items)) + rest == "[" + body;
  }

  lemma OpenArray(body: string)
    requires body != "" && !IsWhite(body[0]) && body[0] != ']'
    ensures
      var p := ParseItems(body);
      ParseValue("[" + body) == if p.Success? then Success(JArray(p.value), p.rest) else Failure
  {
    hide ParseItems;
    assert ("[" + body)[1..] == body;
  }

  lemma OpenObject(body: string)
    requires body != "" && body[0] == '"'
    ensures
      var p := ParseMembers(body);
      ParseValue("{" + body) == if p.Success? then Success(JObject(p.value), p.rest) else Failure
  {
    hide ParseMembers;
    assert ("{" + body)[1..] == body;
  }

  lemma BadObject(members: seq<Member>, rest: string)
    requires !PlainMembers(members)
    ensures Misread(ParseValue(Text(JObject(members)) + rest), JObject(ReadMembers(members)))
    decreases members, 1
  {
    hide ParseValue, ParseMembers, Join, MemberTexts, ReadMembers;
    var body := Join(MemberTexts(members)) + "}" + rest;
    BadMembers(members, rest);
    OpenObject(body);
    assert Text(JObject(members)) + rest == "{" + body;
  }

  /** A first item that is misread spoils the list ... */
  lemma MisreadFirst(s: string, j: Json, items: seq<Json>)
    requires Misread(ParseValue(s), j)
    ensures Misread(ParseItems(s), [j] + items)
  {
    hide ParseValue;
    var p := ParseItems(s);
    if p.Success? { assert p.value[0] == ParseValue(s).value && ([j] + items)[0] == j; }
  }

  /** ... and so does a later one. */
  lemma MisreadLater(text: string, j: Json, more: string, items: seq<Json>)
    requires ParseValue(text + ("," + more)) == Success(j, "," + more) && Misread(ParseItems(more), items)
    ensures Misread(ParseItems(text + "," + more), [j] + items)
  {
    hide ParseValue;
    assert text + "," + more == text + ("," + more);
    assert ("," + more)[1..] == more;
    var p := ParseItems(more);
    if p.Success? { assert ([j] + p.value)[1..] == p.value && ([j] + items)[1..] == items; }
  }

  lemma {:induction false} BadItems(items: seq<Json>, rest: string)
    requires !AllPlain(items)
    ensures
      var s := Join(Texts(items)) + "]" + rest;
      Misread(ParseItems(s), ReadAll(items)) && s != "" && !IsWhite(s[0]) && s[0] != ']'
    decreases items, 0
  {
    hide ParseValue, ParseItems, Text, Read, Plain, Misread;
    var text := Text(items[0]);
    TextStart(items[0]);
    var s, more := Join(Texts(items)) + "]" + rest, Join(Texts(items[1..])) + "]" + rest;
    if !Plain(items[0]) {
      var next := if |items| == 1 then "]" + rest else "," + more;
      assert s == text + next;
      BadValue(items[0], next);
      MisreadFirst(s, Read(items[0]), ReadAll(items[1..]));
    } else {
      assert s == text + "," + more;
      ValueRoundTrip(items[0], "," + more);
      BadItems(items[1..], rest);
      MisreadLater(text, Read(items[0]), more, ReadAll(items[1..]));
    }
  }

  lemma MisreadFirstMember(s: string, m: Member, ms: seq<Member>)
    requires Misread(ParseMember(s), m)
    ensures Misread(ParseMembers(s), [m] + ms)
  {
    hide ParseMember;
    var p := ParseMembers(s);
    if p.Success? { assert p.value[0] == ParseMember(s).value && ([m] + ms)[0] == m; }
  }

  lemma MisreadLaterMember(text: string, m: Member, more: string, ms: seq<Member>)
    requires ParseMember(text + ("," + more)) == Success(m, "," + more) && Misread(ParseMembers(more), ms)
    ensures Misread(ParseMembers(text + "," + more), [m] + ms)
  {
    hide ParseMember;
    assert text + "," + more == text + ("," + more);
    assert ("," + more)[1..] == more;
    var p := ParseMembers(more);
    if p.Success? { assert ([m] + p.value)[1..] == p.value && ([m] + ms)[1..] == ms; }
  }

  lemma {:induction false} BadMembers(ms: seq<Member>, rest: string)
    requires !PlainMembers(ms)
    ensures
      var s := Join(MemberTexts(ms)) + "}" + rest;
      Misread(ParseMembers(s), ReadMembers(ms)) && s != "" && s[0] == '"'
    decreases ms, 0
  {
    hide ParseMember, ParseMembers, Text, Read, Plain, Misread;
    var text := MemberText(ms[0]);
    assert text[0] == '"';
    var s, more := Join(MemberTexts(ms)) + "}" + rest, Join(MemberTexts(ms[1..])) + "}" + rest;
    if !Plain(ms[0].value) {
      var next := if |ms| == 1 then "}" + rest else "," + more;
      assert s == text + next;
      BadMember(ms[0], next);
      MisreadFirstMember(s, ReadMember(ms[0]), ReadMembers(ms[1..]));
    } else {
      assert s == text + "," + more;
      MemberRoundTrip(ms[0], "," + more);
      BadMembers(ms[1..], rest);
      MisreadLaterMember(text, ReadMember(ms[0]), more, ReadMembers(ms[1..]));
    }
  }

  lemma BadMember(m: Member, rest: string)
    requires Stops(rest) && !Plain(m.value)
    ensures Misread(ParseMember(MemberText(m) + rest), ReadMember(m))
    decreases m, 0
  {
    hide ParseValue, ParseChars, Text, EscapeAll, Read, Plain;
    var s := MemberText(m) + rest;
    var value := Text(m.value) + rest;
    assert s[1..] == EscapeAll(m.name) + "\"" + (":" + value);
    CharsRoundTrip(m.name, ":" + value);
    assert (":" + value)[1..] == value;
    assert m.value < m;
    BadValue(m.value, rest);
  }

  /** Main result: the reference parser reads what was meant from the text of a value if
      and only if every character printed as it is may stand in a string. */
  lemma TextReadsBackIff(j: Json)
    ensures Parse(Text(j)) == Some(Read(j)) <==> Plain(j)
  {
    hide ParseValue, Text, Plain, Read;
    assert Text(j) + "" == Text(j);
    if Plain(j) { TextRoundTrip(j); } else { BadValue(j, ""); }
  }

  predicate EachPlain(items: seq<Json>) {
    forall i :: 0 <= i < |items| ==> Plain(items[i])
  }

  predicate EachMemberPlain(ms: seq<Member>) {
    forall i :: 0 <= i < |ms| ==> Plain(ms[i].value)
  }

  lemma {:induction false} AllPlainIff(items: seq<Json>)
    ensures AllPlain(items) <==> EachPlain(items)
  {
    hide Plain;
    if items != [] {
      AllPlainIff(items[1..]);
      assert forall i :: 0 < i < |items| ==> items[i] == items[1..][i - 1];
    }
  }

  lemma {:induction false} PlainMembersIff(ms: seq<Member>)
    ensures PlainMembers(ms) <==> EachMemberPlain(ms)
  {
    hide Plain;
    if ms != [] {
      PlainMembersIff(ms[1..]);
      assert forall i :: 0 < i < |ms| ==> ms[i] == ms[1..][i - 1];
    }
  }

  // ----- values without such characters

  predicate Clean(j: Json)
    decreases j, 1
  {
    match j
    case JChar(_) => false
    case JArray(items) => forall i :: 0 <= i < |items| ==> Clean(items[i])
    case JObject(members) => forall i :: 0 <= i < |members| ==> CleanMember(members[i])
    case _ => true
  }

  predicate CleanMember(m: Member)
    decreases m, 0
  {
    Clean(m.value)
  }

  lemma {:induction false} CleanIsRead(j: Json)
    requires Clean(j)
    ensures Plain(j) && Read(j) == j
    decreases j, 1
  {
    match j {
      case JArray(items) => CleanItems(items);
      case JObject(members) => CleanMembers(members);
      case _ =>
    }
  }

  lemma {:induction false} CleanItems(items: seq<Json>)
    requires forall i :: 0 <= i < |items| ==> Clean(items[i])
    ensures AllPlain(items) && ReadAll(items) == items
    decreases items, 0
  {
    if items != [] {
      CleanIsRead(items[0]);
      CleanItems(items[1..]);
      assert items == [items[0]] + items[1..];
    }
  }

  lemma {:induction false} CleanMembers(ms: seq<Member>)
    requires forall i :: 0 <= i < |ms| ==> CleanMember(ms[i])
    ensures PlainMembers(ms) && ReadMembers(ms) == ms
    decreases ms, 0
  {
    if ms != [] {
      assert ms[0].value < ms[0];
      CleanIsRead(ms[0].value);
      CleanMembers(ms[1..]);
      assert ms == [ms[0]] + ms[1..];
    }
  }
}
