/** The buffer the JSON writers append to, and the pieces both writers share. */
module JsonWriter {
  import opened Common
  import opened Json

  /** Names printed between quotes without escaping: C identifiers. */
  predicate IsIdentChar(c: char) {
    'a' <= c <= 'z' || 'A' <= c <= 'Z' || '0' <= c <= '9' || c == '_'
  }

  predicate IsIdent(s: string) {
    forall i :: 0 <= i < |s| ==> IsIdentChar(s[i])
  }

  type Ident = s: string | IsIdent(s)

  lemma {:induction false} IdentNeedsNoEscape(s: string)
    requires IsIdent(s)
    ensures EscapeAll(s) == s
  {
    if s != "" {
      assert IsIdentChar(s[0]);
      IdentNeedsNoEscape(s[1..]);
    }
  }

  // ----- separators

  /** Texts with a comma after each. */
  function EachComma(texts: seq<string>): string {
    if texts == [] then "" else texts[0] + "," + EachComma(texts[1..])
  }

  lemma {:induction false} EachCommaIsJoin(texts: seq<string>)
    requires texts != []
    ensures EachComma(texts) == Join(texts) + ","
  {
    if |texts| > 1 { EachCommaIsJoin(texts[1..]); }
  }

  lemma {:induction false} EachCommaConcat(a: seq<string>, b: seq<string>)
    ensures EachComma(a + b) == EachComma(a) + EachComma(b)
  {
    if a == [] {
      assert a + b == b;
    } else {
      assert (a + b)[1..] == a[1..] + b;
      EachCommaConcat(a[1..], b);
    }
  }

  lemma EachCommaSnoc(a: seq<string>, t: string)
    ensures EachComma(a + [t]) == EachComma(a) + t + ","
  {
    EachCommaConcat(a, [t]);
    assert EachComma([t]) == t + ",";
  }

  /** What removeTrailingDelimiter leaves. */
  function Trimmed(s: string): string {
    if s != "" && s[|s| - 1] == ',' then s[..|s| - 1] else s
  }

  predicate Open(s: string) {
    s != "" && s[|s| - 1] in {'{', '['}
  }

  /** Trimming after a sequence of delimited texts removes the last delimiter, and after
      an opening bracket nothing: what is left is the texts with commas between them. */
  lemma TrimLast(before: string, texts: seq<string>)
    requires Open(before)
    ensures Trimmed(before + EachComma(texts)) == before + Join(texts)
  {
    var s := before + EachComma(texts);
    if texts == [] {
      assert s == before && before + Join(texts) == before;
    } else {
      EachCommaIsJoin(texts);
      assert s == (before + Join(texts)) + ",";
      assert s[..|s| - 1] == before + Join(texts);
    }
  }

  lemma {:induction false} TextsSnoc(items: seq<Json>, j: Json)
    ensures Texts(items + [j]) == Texts(items) + [Text(j)]
  {
    if items == [] {
      assert [j][1..] == [];
    } else {
      assert (items + [j])[1..] == items[1..] + [j];
      TextsSnoc(items[1..], j);
    }
  }

  lemma {:induction false} MemberTextsSnoc(ms: seq<Member>, m: Member)
    ensures MemberTexts(ms + [m]) == MemberTexts(ms) + [MemberText(m)]
  {
    if ms == [] {
      assert [m][1..] == [];
    } else {
      assert (ms + [m])[1..] == ms[1..] + [m];
      MemberTextsSnoc(ms[1..], m);
    }
  }

  /** Members each followed by a comma: what a sequence of WRITE macros appends. */
  function Delimited(ms: seq<Member>): string {
    EachComma(MemberTexts(ms))
  }

  lemma DelimitedSnoc(ms: seq<Member>, m: Member)
    ensures Delimited(ms + [m]) == Delimited(ms) + MemberText(m) + ","
    ensures Delimited([]) == ""
  {
    MemberTextsSnoc(ms, m);
    EachCommaSnoc(MemberTexts(ms), MemberText(m));
  }

  /** What a field adds to an object: a member, or nothing when it holds its default. */
  function OptionalMember(name: string, j: Option<Json>): seq<Member> {
    if j.Some? then [Member(name, j.value)] else []
  }

  function OptionalText(name: string, j: Option<Json>): string {
    if j.Some? then MemberText(Member(name, j.value)) + "," else ""
  }

  lemma OptionalSnoc(done: seq<Member>, name: string, j: Option<Json>)
    ensures Delimited(done + OptionalMember(name, j)) == Delimited(done) + OptionalText(name, j)
  {
    hide Delimited, MemberText;
    if j.Some? {
      var m := Member(name, j.value);
      DelimitedSnoc(done, m);
      assert Delimited(done) + MemberText(m) + "," == Delimited(done) + (MemberText(m) + ",");
    } else {
      assert done + [] == done;
      assert Delimited(done) + "" == Delimited(done);
    }
  }

  /** No text of a value ends with a comma. */
  lemma TextEnd(j: Json)
    ensures Text(j) != "" && Text(j)[|Text(j)| - 1] != ','
  {}

  // ----- the buffer

  /** What a possibly NULL string is printed as. */
  function TokenJson(str: Option<string>): Json {
    if str.Some? then JString(str.value) else JNull
  }

  class StringInfo {
    var data: string

    constructor ()
      ensures data == ""
    {
      data := "";
    }

    method Append(s: string)
      modifies this
      ensures data == old(data) + s
    {
      data := data + s;
    }

    method RemoveTrailingDelimiter()
      modifies this
      ensures data == Trimmed(old(data))
    {
      if |data| >= 1 && data[|data| - 1] == ',' {
        data := data[..|data| - 1];
      }
    }

    /** _outToken: NULL, or a string between quotes, character by character. */
    method OutToken(str: Option<string>)
      modifies this
      ensures data == old(data) + Text(TokenJson(str))
    {
      hide EscapeAll;
      if str.None? {
        Append("null");
        return;
      }
      Append("\"");
      OutChars(str.value);
      Append("\"");
      assert data == old(data) + Quote(str.value);
    }

    method OutChars(str: string)
      modifies this
      ensures data == old(data) + EscapeAll(str)
    {
      hide Escape;
      var i := 0;
      assert EscapeAll(str[..0]) == "";
      while i < |str|
        invariant 0 <= i <= |str|
        invariant data == old(data) + EscapeAll(str[..i])
      {
        EscapeAllSnoc(str[..i], str[i]);
        assert str[..i + 1] == str[..i] + [str[i]];
        OutChar(str[i]);
        i := i + 1;
      }
      assert str[..i] == str;
    }

    method OutChar(c: char)
      modifies this
      ensures data == old(data) + Escape(c)
    {
      if c == BACKSPACE {
        Append("\\b");
      } else if c == FORMFEED {
        Append("\\f");
      } else if c == '\n' {
        Append("\\n");
      } else if c == '\r' {
        Append("\\r");
      } else if c == '\t' {
        Append("\\t");
      } else if c == '"' {
        Append("\\\"");
      } else if c == '\\' {
        Append("\\\\");
      } else if c < ' ' || c == '<' || c == '>' {
        Append("\\u" + Hex4(c as int));
      } else {
        Append([c]);
      }
    }

    /** The name of a member and its colon. */
    method OutName(name: Ident)
      modifies this
      ensures data == old(data) + Quote(name) + ":"
    {
      IdentNeedsNoEscape(name);
      Append("\"" + name + "\":");
    }

    /** A quoted identifier, printed as it is. */
    method OutIdent(name: Ident)
      modifies this
      ensures data == old(data) + Quote(name)
    {
      IdentNeedsNoEscape(name);
      Append("\"" + name + "\"");
    }
  }

  lemma {:induction false} EscapeAllSnoc(s: string, c: char)
    ensures EscapeAll(s + [c]) == EscapeAll(s) + Escape(c)
  {
    if s == "" {
      assert [c][1..] == "";
    } else {
      assert (s + [c])[1..] == s[1..] + [c];
      EscapeAllSnoc(s[1..], c);
    }
  }

  // ----- joining pieces of text

  lemma ObjectText(ms: seq<Member>)
    ensures Text(JObject(ms)) == "{" + Join(MemberTexts(ms)) + "}"
  {}

  lemma NullText()
    ensures Text(JNull) == "null"
  {}

  lemma EmptyObjectText()
    ensures Text(JObject([])) == "{}"
  {}

  lemma NumberText(n: int)
    ensures Text(JNumber(n)) == Decimal(n)
  {}

  lemma OneMember(name: string, j: Json)
    ensures Delimited([Member(name, j)]) == MemberText(Member(name, j)) + ","
  {
    hide MemberText;
    DelimitedSnoc([], Member(name, j));
    assert [] + [Member(name, j)] == [Member(name, j)];
  }

  lemma NoMember()
    ensures Delimited([]) == ""
  {}

  /** The text of a member from its pieces. */
  lemma MemberAfter(before: string, name: string, j: Json)
    ensures ((before + Quote(name) + ":") + Text(j)) + "," == before + (MemberText(Member(name, j)) + ",")
  {}

  lemma ArrayAfter(before: string, items: seq<Json>)
    ensures (before + "[") + Join(Texts(items)) + "]" == before + Text(JArray(items))
  {}

  lemma TwoMembers(a: Member, b: Member)
    ensures Text(JObject([a, b])) == "{" + MemberText(a) + "," + MemberText(b) + "}"
  {
    hide MemberText;
    MemberTextsSnoc([], a);
    MemberTextsSnoc([a], b);
    assert [] + [a] == [a] && [a] + [b] == [a, b];
    assert MemberTexts([]) == [];
    assert Join([MemberText(a), MemberText(b)]) == MemberText(a) + "," + MemberText(b) by {
      assert [MemberText(a), MemberText(b)][1..] == [MemberText(b)];
    }
  }

  // ----- the WRITE macros both writers define alike

  method WriteNumber(out: StringInfo, name: Ident, n: int)
    modifies out
    ensures out.data == old(out.data) + (MemberText(Member(name, JNumber(n))) + ",")
  {
    hide Quote, Decimal, MemberText;
    out.OutName(name);
    out.Append(Decimal(n));
    out.Append(",");
    MemberAfter(old(out.data), name, JNumber(n));
  }

  method WriteToken(out: StringInfo, name: Ident, t: Option<string>)
    modifies out
    ensures out.data == old(out.data) + (MemberText(Member(name, TokenJson(t))) + ",")
  {
    hide Quote, Text, MemberText;
    out.OutName(name);
    out.OutToken(t);
    out.Append(",");
    MemberAfter(old(out.data), name, TokenJson(t));
  }

  method WriteTrue(out: StringInfo, name: Ident)
    modifies out
    ensures out.data == old(out.data) + (MemberText(Member(name, JBool(true))) + ",")
  {
    hide Quote, MemberText;
    out.OutName(name);
    out.Append("true");
    out.Append(",");
    MemberAfter(old(out.data), name, JBool(true));
  }
}
