/** The JSON writer for parse trees. */
module OutfuncsJson {
  import opened Common
  import opened Json
  import opened JsonWriter
  import opened JsonReader
  import opened JsonTrees

  // ----- the writer

  lemma TaggedText(tag: string, ms: seq<Member>)
    ensures Text(Tagged(tag, ms)) == "{" + Quote(tag) + ":{" + Join(MemberTexts(ms)) + "}}"
  {
    hide Quote;
    var m := Member(tag, JObject(ms));
    assert [m][1..] == [];
    assert MemberTexts([m]) == [MemberText(m)];
    assert Join([MemberText(m)]) == MemberText(m);
  }

  /** The text of a node's object from its pieces. */
  lemma TaggedAfter(before: string, tag: string, ms: seq<Member>)
    ensures ((before + "{") + Quote(tag) + ":") + "{" + Join(MemberTexts(ms)) + "}}" == before + Text(Tagged(tag, ms))
  {
    hide Quote, Text, Join, MemberTexts;
    TaggedText(tag, ms);
    var q := Quote(tag);
    assert "{" + q + ":{" == "{" + q + ":" + "{";
    assert ((before + "{") + q + ":") + "{" == before + ("{" + q + ":" + "{");
  }

  /** _outNode */
  method OutNode(out: StringInfo, n: Node)
    modifies out
    ensures out.data == old(out.data) + Text(NodeJson(n))
    decreases n, 2
  {
    hide Quote, Text, Join, MemberTexts, Body, EachComma;
    if n == Null {
      NullText();
      out.Append("null");
    } else {
      out.Append("{");
      out.OutName(TagOf(n));
      out.Append("{");
      ghost var before := out.data;
      OutBody(out, n);
      TrimLast(before, MemberTexts(Body(n)));
      out.RemoveTrailingDelimiter();
      out.Append("}}");
      TaggedAfter(old(out.data), TagOf(n), Body(n));
    }
  }

  /** The function of the node's type: its members, each followed by a comma. */
  method OutBody(out: StringInfo, n: Node)
    requires n != Null
    modifies out
    ensures out.data == old(out.data) + Delimited(Body(n))
    decreases n, 1
  {
    hide Quote, Text, MemberText, Delimited, ItemsJson, FieldsJson, Numbers;
    match n {
      case List(items) =>
        OneMember("items", JArray(ItemsJson(items)));
        WriteListField(out, "items", items);
      case IntList(ints) =>
        OneMember("items", JArray(Numbers(ints)));
        WriteNumbers(out, "items", ints);
      case OidList(oids) =>
        OneMember("items", JArray(Numbers(oids)));
        WriteNumbers(out, "items", oids);
      case Integer(i) =>
        OneMember("ival", JNumber(i));
        WriteNumber(out, "ival", i);
      case Float(t) =>
        OneMember("str", TokenJson(t));
        WriteToken(out, "str", t);
      case String(t) =>
        OneMember("str", TokenJson(t));
        WriteToken(out, "str", t);
      case BitString(t) =>
        OneMember("str", TokenJson(t));
        WriteToken(out, "str", t);
      case NullValue => NoMember();
      case Struct(_, fields) => OutFields(out, fields);
    }
  }

  method WriteChar(out: StringInfo, name: Ident, c: char)
    modifies out
    ensures out.data == old(out.data) + (MemberText(Member(name, JChar(c))) + ",")
  {
    hide Quote, MemberText;
    out.OutName(name);
    out.Append("\"" + [c] + "\"");
    out.Append(",");
    MemberAfter(old(out.data), name, JChar(c));
  }

  method WriteEnum(out: StringInfo, name: Ident, constant: Ident)
    modifies out
    ensures out.data == old(out.data) + (MemberText(Member(name, JString(constant))) + ",")
  {
    hide Quote, MemberText;
    out.OutName(name);
    out.OutIdent(constant);
    out.Append(",");
    MemberAfter(old(out.data), name, JString(constant));
  }

  method WriteListField(out: StringInfo, name: Ident, items: seq<Node>)
    modifies out
    ensures out.data == old(out.data) + (MemberText(Member(name, JArray(ItemsJson(items)))) + ",")
    decreases items, 1
  {
    hide Quote, Join, Texts, Text, ItemsJson, MemberText;
    out.OutName(name);
    ghost var before := out.data;
    out.Append("[");
    OutItems(out, items);
    out.Append("]");
    ArrayAfter(before, ItemsJson(items));
    out.Append(",");
    MemberAfter(old(out.data), name, JArray(ItemsJson(items)));
  }

  method WriteNumbers(out: StringInfo, name: Ident, ns: seq<int>)
    modifies out
    ensures out.data == old(out.data) + (MemberText(Member(name, JArray(Numbers(ns)))) + ",")
  {
    hide Quote, Join, Texts, Text, Numbers, MemberText;
    out.OutName(name);
    ghost var before := out.data;
    out.Append("[");
    OutNumbers(out, ns);
    out.Append("]");
    ArrayAfter(before, Numbers(ns));
    out.Append(",");
    MemberAfter(old(out.data), name, JArray(Numbers(ns)));
  }

  /** Texts written so far: with a trailing comma until the last one is written. */
  function Separated(items: seq<Json>, complete: bool): string {
    if complete then Join(Texts(items)) else EachComma(Texts(items))
  }

  function Comma(last: bool): string {
    if last then "" else ","
  }

  lemma SeparatedSnoc(items: seq<Json>, j: Json, last: bool)
    ensures Separated(items + [j], last) == Separated(items, false) + Text(j) + Comma(last)
  {
    hide Join, EachComma, Text, Texts;
    var texts := Texts(items);
    TextsSnoc(items, j);
    EachCommaSnoc(texts, Text(j));
    EachCommaIsJoin(texts + [Text(j)]);
    var a, b := Join(texts + [Text(j)]), EachComma(texts) + Text(j);
    assert a + "," == b + ",";
    assert (a + ",")[..|a|] == a && (b + ",")[..|b|] == b;
  }

  lemma SeparatedNone(last: bool)
    ensures Separated([], last) == ""
  {}

  lemma ItemsSnoc(items: seq<Node>, k: nat)
    requires k < |items|
    ensures ItemsJson(items[..k + 1]) == ItemsJson(items[..k]) + [ItemJson(items[k])]
  {
    assert items[..k + 1][..k] == items[..k];
  }

  /** List items, a comma after each but the last. */
  method OutItems(out: StringInfo, items: seq<Node>)
    modifies out
    ensures out.data == old(out.data) + Join(Texts(ItemsJson(items)))
    decreases items, 0
  {
    hide Join, Texts, EachComma, Text, Separated, ItemJson, Comma;
    var k := 0;
    SeparatedNone(|items| == 0);
    while k < |items|
      invariant 0 <= k <= |items|
      invariant out.data == old(out.data) + Separated(ItemsJson(items[..k]), k == |items|)
    {
      hide ItemsJson;
      ghost var done := ItemsJson(items[..k]);
      ItemsSnoc(items, k);
      SeparatedSnoc(done, ItemJson(items[k]), k + 1 == |items|);
      OutItem(out, items[k], k + 1 == |items|);
      k := k + 1;
    }
    assert items[..k] == items;
    SeparatedAll(ItemsJson(items));
  }

  lemma SeparatedAll(items: seq<Json>)
    ensures Separated(items, true) == Join(Texts(items))
  {}

  method OutItem(out: StringInfo, item: Node, last: bool)
    modifies out
    ensures out.data == old(out.data) + Text(ItemJson(item)) + Comma(last)
    decreases item, 3
  {
    hide Text, NodeJson;
    if item == Null {
      EmptyObjectText();
      out.Append("{}");
    } else {
      OutNode(out, item);
    }
    if !last {
      out.Append(",");
    } else {
      assert out.data + "" == out.data;
    }
  }

  lemma NumbersSnoc(ns: seq<int>, k: nat)
    requires k < |ns|
    ensures Numbers(ns[..k + 1]) == Numbers(ns[..k]) + [JNumber(ns[k])]
  {
    assert ns[..k + 1][..k] == ns[..k];
  }

  method OutNumbers(out: StringInfo, ns: seq<int>)
    modifies out
    ensures out.data == old(out.data) + Join(Texts(Numbers(ns)))
  {
    hide Join, Texts, EachComma, Text, Decimal, Separated;
    var k := 0;
    SeparatedNone(|ns| == 0);
    while k < |ns|
      invariant 0 <= k <= |ns|
      invariant out.data == old(out.data) + Separated(Numbers(ns[..k]), k == |ns|)
    {
      hide Numbers;
      ghost var done := Numbers(ns[..k]);
      NumbersSnoc(ns, k);
      SeparatedSnoc(done, JNumber(ns[k]), k + 1 == |ns|);
      NumberText(ns[k]);
      out.Append(Decimal(ns[k]));
      if k + 1 < |ns| {
        out.Append(",");
      }
      assert out.data == old(out.data) + Separated(done, false) + Decimal(ns[k]) + Comma(k + 1 == |ns|);
      k := k + 1;
    }
    assert ns[..k] == ns;
    SeparatedAll(Numbers(ns));
  }

  lemma FieldsSnoc(fields: seq<Field>, k: nat)
    requires k < |fields|
    ensures Delimited(FieldsJson(fields[..k + 1])) ==
      Delimited(FieldsJson(fields[..k])) + OptionalText(fields[k].name, FieldJson(fields[k]))
  {
    hide FieldJson, Delimited, OptionalMember, OptionalText;
    assert fields[..k + 1][..k] == fields[..k];
    OptionalSnoc(FieldsJson(fields[..k]), fields[k].name, FieldJson(fields[k]));
  }

  method OutFields(out: StringInfo, fields: seq<Field>)
    modifies out
    ensures out.data == old(out.data) + Delimited(FieldsJson(fields))
    decreases fields, 0
  {
    hide Delimited, OptionalText, FieldJson;
    NoMember();
    var k := 0;
    while k < |fields|
      invariant 0 <= k <= |fields|
      invariant out.data == old(out.data) + Delimited(FieldsJson(fields[..k]))
    {
      hide FieldsJson;
      FieldsSnoc(fields, k);
      OutField(out, fields[k]);
      k := k + 1;
    }
    assert fields[..k] == fields;
  }

  /** One WRITE macro. */
  method OutField(out: StringInfo, f: Field)
    modifies out
    ensures out.data == old(out.data) + OptionalText(f.name, FieldJson(f))
    decreases f, 1
  {
    hide MemberText, Escape, ItemsJson, FieldsJson, NodeJson;
    match f.value {
      case Num(n) =>
        if n != 0 {
          WriteNumber(out, f.name, n);
        }
      case Chr(c) =>
        if c != '\0' {
          WriteChar(out, f.name, c);
        }
      case Enum(constant) => WriteEnum(out, f.name, constant);
      case Flag(b) =>
        if b {
          WriteTrue(out, f.name);
        }
      case Str(s) =>
        if s.Some? {
          WriteToken(out, f.name, s);
        }
      case Absent =>
      case ListOf(items) => WriteListField(out, f.name, items);
      case NodeHere(n) => WriteNode(out, f.name, n);
      case NodeAt(n) =>
        if n != Null {
          WriteNode(out, f.name, n);
        }
      case Part(part) => WritePart(out, f.name, part);
    }
  }

  method WriteNode(out: StringInfo, name: Ident, n: Node)
    modifies out
    ensures out.data == old(out.data) + (MemberText(Member(name, NodeJson(n))) + ",")
    decreases n, 3
  {
    hide Quote, Text, NodeJson, MemberText;
    out.OutName(name);
    OutNode(out, n);
    out.Append(",");
    MemberAfter(old(out.data), name, NodeJson(n));
  }

  method WritePart(out: StringInfo, name: Ident, part: seq<Field>)
    modifies out
    ensures out.data == old(out.data) + (MemberText(Member(name, JObject(FieldsJson(part)))) + ",")
    decreases part, 2
  {
    hide Quote, Text, FieldsJson, MemberText;
    out.OutName(name);
    OutPart(out, part);
    out.Append(",");
    MemberAfter(old(out.data), name, JObject(FieldsJson(part)));
  }

  /** A struct without its tag. */
  method OutPart(out: StringInfo, part: seq<Field>)
    modifies out
    ensures out.data == old(out.data) + Text(JObject(FieldsJson(part)))
    decreases part, 1
  {
    hide Text, FieldsJson, MemberTexts, EachComma, Join;
    out.Append("{");
    ghost var before := out.data;
    OutFields(out, part);
    TrimLast(before, MemberTexts(FieldsJson(part)));
    out.RemoveTrailingDelimiter();
    out.Append("}");
    ObjectText(FieldsJson(part));
  }

  // ----- the document

  lemma {:induction false} DocumentText(stmts: seq<seq<Field>>)
    ensures Text(Document(stmts)) ==
      ("{" + (MemberText(Member("version", JNumber(PG_VERSION_NUM))) + ",")) + Quote("stmts") + ":" + "["
      + Join(Texts(StmtsJson(stmts))) + "]" + "}"
  {
    hide Quote, Join, Texts, StmtsJson, Decimal;
    var a, b := Member("version", JNumber(PG_VERSION_NUM)), Member("stmts", JArray(StmtsJson(stmts)));
    TwoMembers(a, b);
  }

  /** pg_query_nodes_to_json: the statements of a query (NULL for none). The reference
      parser reads the intended document back from the output if and only if every
      single-character field holds a character that may stand in a string, and then the
      reader gets the statements back from what was parsed. */
  method NodesToJson(stmts: seq<seq<Field>>) returns (text: string)
    ensures text == Text(Document(stmts))
    ensures Parse(text) == Some(Read(Document(stmts))) <==> StmtsOk(stmts)
    ensures forall s: Schema :: WellFormed(s) && StmtsTyped(s, stmts) && StmtsOk(stmts) ==> StmtsOf(s, Parse(text)) == Some(stmts)
  {
    hide StmtsOf, WellFormed, StmtsTyped, Parse, Text, Quote, Join, Texts, StmtsJson, MemberText, StmtsOk, Document, Plain, Read;
    var out := new StringInfo();
    DocumentText(stmts);
    TextReadsBackIff(Document(stmts));
    DocumentOkIff(stmts);
    out.Append("{");
    assert out.data == "{";
    WriteNumber(out, "version", PG_VERSION_NUM);
    out.OutName("stmts");
    out.Append("[");
    OutStmts(out, stmts);
    out.Append("]");
    out.Append("}");
    text := out.data;
    forall s: Schema | WellFormed(s) && StmtsTyped(s, stmts) && StmtsOk(stmts) ensures StmtsOf(s, Parse(text)) == Some(stmts) {
      DocumentReadBack(s, stmts);
    }
  }

  lemma StmtsSnoc(stmts: seq<seq<Field>>, k: nat)
    requires k < |stmts|
    ensures StmtsJson(stmts[..k + 1]) == StmtsJson(stmts[..k]) + [JObject(FieldsJson(stmts[k]))]
  {
    assert stmts[..k + 1][..k] == stmts[..k];
  }

  method OutStmts(out: StringInfo, stmts: seq<seq<Field>>)
    modifies out
    ensures out.data == old(out.data) + Join(Texts(StmtsJson(stmts)))
  {
    hide Join, Texts, EachComma, Text, Separated, FieldsJson;
    var k := 0;
    SeparatedNone(|stmts| == 0);
    while k < |stmts|
      invariant 0 <= k <= |stmts|
      invariant out.data == old(out.data) + Separated(StmtsJson(stmts[..k]), k == |stmts|)
    {
      hide StmtsJson;
      ghost var done, j := StmtsJson(stmts[..k]), JObject(FieldsJson(stmts[k]));
      StmtsSnoc(stmts, k);
      SeparatedSnoc(done, j, k + 1 == |stmts|);
      OutPart(out, stmts[k]);
      if k + 1 < |stmts| {
        out.Append(",");
      }
      assert out.data == old(out.data) + Separated(done, false) + Text(j) + Comma(k + 1 == |stmts|);
      k := k + 1;
    }
    assert stmts[..k] == stmts;
    SeparatedAll(StmtsJson(stmts));
  }
}
