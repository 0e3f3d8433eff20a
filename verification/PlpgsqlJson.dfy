/** The JSON writer for compiled PL/pgSQL functions. Each dump function opens an object
    for its node and leaves it open; the caller trims the last delimiter and closes it. */
module PlpgsqlJson {
  import opened Common
  import opened Json
  import opened JsonWriter
  import opened PlpgsqlReader
  import opened PlpgsqlTrees

  const BLOCK: Ident := "PLpgSQL_stmt_block"

  // ----- nothing is printed without escaping

  lemma {:induction false} CleanNode(n: Node)
    ensures Clean(NodeJson(n))
    decreases n, 1
  {
    hide FieldsJson;
    CleanFields(n.fields);
    assert CleanMember(Member(n.tag, JObject(FieldsJson(n.fields))));
  }

  lemma {:induction false} CleanNodes(items: seq<Node>)
    ensures forall i :: 0 <= i < |NodesJson(items)| ==> Clean(NodesJson(items)[i])
    decreases items, 0
  {
    hide Clean, NodeJson;
    if items != [] {
      CleanNodes(items[..|items| - 1]);
      CleanNode(items[|items| - 1]);
    }
  }

  lemma {:induction false} CleanColumns(columns: seq<Option<Column>>)
    ensures forall i :: 0 <= i < |ColumnsJson(columns)| ==> Clean(ColumnsJson(columns)[i])
  {
    if columns != [] {
      CleanColumns(columns[..|columns| - 1]);
      CleanColumn(columns[|columns| - 1]);
    }
  }

  lemma CleanColumn(c: Option<Column>)
    ensures Clean(ColumnJson(c))
  {
    if c.Some? {
      forall i | 0 <= i < |ColumnMembers(c.value)| ensures CleanMember(ColumnMembers(c.value)[i]) {}
    }
  }

  lemma {:induction false} CleanFields(fields: seq<Field>)
    ensures forall i :: 0 <= i < |FieldsJson(fields)| ==> CleanMember(FieldsJson(fields)[i])
    decreases fields, 0
  {
    hide Clean, FieldJson;
    if fields != [] {
      CleanFields(fields[..|fields| - 1]);
      CleanField(fields[|fields| - 1]);
    }
  }

  lemma CleanField(f: Field)
    ensures FieldJson(f).Some? ==> Clean(FieldJson(f).value)
    decreases f, 1
  {
    hide NodeJson, NodesJson, ColumnsJson;
    match f.value {
      case Obj(n) => CleanNode(n);
      case ListOf(items) => CleanNodes(items);
      case Statements(items) => CleanNodes(items);
      case Chain(items) => CleanNodes(items);
      case Columns(columns) => CleanColumns(columns);
      case _ =>
    }
  }

  // ----- one object left open

  /** A node's text up to, but not including, the brace that closes its inner object. */
  function OpenText(n: Node): string {
    Quote(n.tag) + ":{" + Join(MemberTexts(FieldsJson(n.fields)))
  }

  /** One brace closes what a dump function leaves open, and a pair of braces makes it the
      text of the node. */
  lemma OneObjectOpen(n: Node)
    ensures OpenText(n) + "}" == MemberText(Member(n.tag, JObject(FieldsJson(n.fields))))
    ensures "{" + OpenText(n) + "}}" == Text(NodeJson(n))
  {
    hide Quote, Join, MemberTexts, FieldsJson;
    var m := Member(n.tag, JObject(FieldsJson(n.fields)));
    var q, body := Quote(n.tag), Join(MemberTexts(FieldsJson(n.fields)));
    ObjectText(FieldsJson(n.fields));
    assert Text(m.value) == "{" + body + "}";
    assert q + ":{" == q + ":" + "{";
    assert OpenText(n) + "}" == MemberText(m);
    OneMemberObject(m);
    assert "{" + OpenText(n) + "}}" == "{" + MemberText(m) + "}";
  }

  lemma OneMemberObject(m: Member)
    ensures Text(JObject([m])) == "{" + MemberText(m) + "}"
  {}

  /** Members joined by commas do not end with one. */
  lemma {:induction false} JoinEnd(ms: seq<Member>)
    requires ms != []
    ensures var s := Join(MemberTexts(ms)); s != "" && s[|s| - 1] != ','
  {
    hide Quote, Text;
    TextEnd(ms[0].value);
    if |ms| == 1 {
      assert MemberTexts(ms) == [MemberText(ms[0])];
    } else {
      JoinEnd(ms[1..]);
    }
  }

  /** Trimming twice removes no more than trimming once. */
  lemma TrimAgain(before: string, ms: seq<Member>)
    requires Open(before)
    ensures Trimmed(before + Join(MemberTexts(ms))) == before + Join(MemberTexts(ms))
  {
    hide MemberTexts;
    if ms == [] {
      NoTexts();
      assert before + "" == before;
    } else {
      JoinEnd(ms);
    }
  }

  lemma NoTexts()
    ensures Join(MemberTexts([])) == "" && EachComma(Texts([])) == "" && Delimited([]) == ""
  {}

  // ----- the dump functions

  /** A dump function; dump_block also trims by itself. */
  method Dump(out: StringInfo, n: Node)
    modifies out
    ensures Trimmed(out.data) == old(out.data) + OpenText(n)
    decreases n, 1
  {
    hide Quote, Join, MemberTexts, FieldsJson, EachComma, Trimmed;
    out.OutIdent(n.tag);
    out.Append(":{");
    ghost var before := out.data;
    OutFields(out, n.fields);
    TrimLast(before, MemberTexts(FieldsJson(n.fields)));
    if n.tag == BLOCK {
      out.RemoveTrailingDelimiter();
      TrimAgain(before, FieldsJson(n.fields));
    }
    assert before == old(out.data) + (Quote(n.tag) + ":{");
  }

  /** A node between its braces, as the list macros and dump_stmt write it. */
  method DumpClosed(out: StringInfo, n: Node)
    modifies out
    ensures out.data == old(out.data) + (Text(NodeJson(n)) + ",")
    decreases n, 2
  {
    hide OpenText, Text, Trimmed, NodeJson;
    out.Append("{");
    Dump(out, n);
    out.RemoveTrailingDelimiter();
    out.Append("}},");
    OneObjectOpen(n);
    assert "{" + OpenText(n) + "}}," == "{" + OpenText(n) + "}}" + ",";
  }

  lemma NodesSnoc(items: seq<Node>, k: nat)
    requires k < |items|
    ensures NodesJson(items[..k + 1]) == NodesJson(items[..k]) + [NodeJson(items[k])]
  {
    assert items[..k + 1][..k] == items[..k];
  }

  lemma EachSnoc(items: seq<Json>, j: Json)
    ensures EachComma(Texts(items + [j])) == EachComma(Texts(items)) + (Text(j) + ",")
  {
    hide EachComma, Texts, Text;
    TextsSnoc(items, j);
    EachCommaSnoc(Texts(items), Text(j));
    assert EachComma(Texts(items)) + Text(j) + "," == EachComma(Texts(items)) + (Text(j) + ",");
  }

  method DumpNodes(out: StringInfo, items: seq<Node>)
    modifies out
    ensures out.data == old(out.data) + EachComma(Texts(NodesJson(items)))
    decreases items, 0
  {
    hide EachComma, Texts, Text, NodeJson;
    NoTexts();
    var k := 0;
    while k < |items|
      invariant 0 <= k <= |items|
      invariant out.data == old(out.data) + EachComma(Texts(NodesJson(items[..k])))
    {
      hide NodesJson;
      NodesSnoc(items, k);
      EachSnoc(NodesJson(items[..k]), NodeJson(items[k]));
      DumpClosed(out, items[k]);
      k := k + 1;
    }
    assert items[..k] == items;
  }

  /** Trimming the list and closing it gives the array's text. */
  lemma CloseList(before: string, items: seq<Json>)
    ensures Trimmed((before + "[") + EachComma(Texts(items))) + "]" == before + Text(JArray(items))
  {
    hide Join, EachComma, Texts, Trimmed;
    TrimLast(before + "[", Texts(items));
    ArrayAfter(before, items);
  }

  method WriteNodes(out: StringInfo, name: Ident, items: seq<Node>)
    modifies out
    ensures out.data == old(out.data) + (MemberText(Member(name, JArray(NodesJson(items)))) + ",")
    decreases items, 1
  {
    hide Quote, EachComma, Texts, Text, NodesJson, Trimmed, MemberText;
    out.OutName(name);
    ghost var before := out.data;
    out.Append("[");
    DumpNodes(out, items);
    out.RemoveTrailingDelimiter();
    out.Append("]");
    CloseList(before, NodesJson(items));
    out.Append(",");
    MemberAfter(old(out.data), name, JArray(NodesJson(items)));
  }

  /** WRITE_OBJ_FIELD */
  method WriteObj(out: StringInfo, name: Ident, n: Node)
    modifies out
    ensures out.data == old(out.data) + (MemberText(Member(name, NodeJson(n))) + ",")
    decreases n, 2
  {
    hide Quote, OpenText, Text, NodeJson, Trimmed, MemberText;
    out.OutName(name);
    ghost var before := out.data;
    out.Append("{");
    Dump(out, n);
    out.RemoveTrailingDelimiter();
    out.Append("}},");
    OneObjectOpen(n);
    assert "{" + OpenText(n) + "}}," == Text(NodeJson(n)) + ",";
    assert before + (Text(NodeJson(n)) + ",") == before + Text(NodeJson(n)) + ",";
    MemberAfter(old(out.data), name, NodeJson(n));
  }

  // ----- rows

  method WriteColumns(out: StringInfo, name: Ident, columns: seq<Option<Column>>)
    modifies out
    ensures out.data == old(out.data) + (MemberText(Member(name, JArray(ColumnsJson(columns)))) + ",")
  {
    hide Quote, EachComma, Texts, Text, ColumnsJson, Trimmed, MemberText;
    out.OutName(name);
    ghost var before := out.data;
    out.Append("[");
    OutColumns(out, columns);
    out.RemoveTrailingDelimiter();
    out.Append("]");
    CloseList(before, ColumnsJson(columns));
    out.Append(",");
    MemberAfter(old(out.data), name, JArray(ColumnsJson(columns)));
  }

  lemma ColumnsSnoc(columns: seq<Option<Column>>, k: nat)
    requires k < |columns|
    ensures ColumnsJson(columns[..k + 1]) == ColumnsJson(columns[..k]) + [ColumnJson(columns[k])]
  {
    assert columns[..k + 1][..k] == columns[..k];
  }

  method OutColumns(out: StringInfo, columns: seq<Option<Column>>)
    modifies out
    ensures out.data == old(out.data) + EachComma(Texts(ColumnsJson(columns)))
  {
    hide EachComma, Texts, Text, ColumnJson;
    NoTexts();
    var k := 0;
    while k < |columns|
      invariant 0 <= k <= |columns|
      invariant out.data == old(out.data) + EachComma(Texts(ColumnsJson(columns[..k])))
    {
      hide ColumnsJson;
      ColumnsSnoc(columns, k);
      EachSnoc(ColumnsJson(columns[..k]), ColumnJson(columns[k]));
      OutColumn(out, columns[k]);
      k := k + 1;
    }
    assert columns[..k] == columns;
  }

  /** A field with a name is an object, one without is null. */
  method OutColumn(out: StringInfo, c: Option<Column>)
    modifies out
    ensures out.data == old(out.data) + (Text(ColumnJson(c)) + ",")
  {
    hide Quote, EachComma, Join, Text, MemberTexts, Trimmed, MemberText, ColumnMembers;
    if c.Some? {
      out.Append("{");
      ghost var before := out.data;
      OutColumnMembers(out, c.value);
      TrimLast(before, MemberTexts(ColumnMembers(c.value)));
      out.RemoveTrailingDelimiter();
      out.Append("},");
      ObjectText(ColumnMembers(c.value));
      var body := Join(MemberTexts(ColumnMembers(c.value)));
      assert "{" + body + "}," == "{" + body + "}" + ",";
    } else {
      NullText();
      out.Append("null,");
    }
  }

  method OutColumnMembers(out: StringInfo, c: Column)
    modifies out
    ensures out.data == old(out.data) + Delimited(ColumnMembers(c))
  {
    hide Delimited, MemberText;
    OneMember("name", JString(c.name));
    WriteToken(out, "name", Some(c.name));
    if c.varno != 0 {
      WriteNumber(out, "varno", c.varno);
      var a, b := Member("name", JString(c.name)), Member("varno", JNumber(c.varno));
      DelimitedSnoc([a], b);
      assert [a] + [b] == ColumnMembers(c);
      assert Delimited([a]) + MemberText(b) + "," == Delimited([a]) + (MemberText(b) + ",");
    } else {
      assert ColumnMembers(c) == [Member("name", JString(c.name))];
    }
  }

  // ----- fields

  lemma FieldsSnoc(fields: seq<Field>, k: nat)
    requires k < |fields|
    ensures Delimited(FieldsJson(fields[..k + 1])) ==
      Delimited(FieldsJson(fields[..k])) + OptionalText(fields[k].name, FieldJson(fields[k]))
  {
    hide FieldJson, Delimited, OptionalMember, OptionalText;
    assert fields[..k + 1][..k] == fields[..k];
    OptionalSnoc(FieldsJson(fields[..k]), fields[k].name, FieldJson(fields[k]));
  }

  method OutFields(out: StringInfo, fields: seq<Field>)
    modifies out
    ensures out.data == old(out.data) + Delimited(FieldsJson(fields))
    decreases fields, 0
  {
    hide Delimited, OptionalText, FieldJson;
    NoTexts();
    var k := 0;
    while k < |fields|
      invariant 0 <= k <= |fields|
      invariant out.data == old(out.data) + Delimited(FieldsJson(fields[..k]))
    {
      hide FieldsJson;
      FieldsSnoc(fields, k);
      OutField(out, fields[k]);
      k := k + 1;
    }
    assert fields[..k] == fields;
  }

  /** One WRITE macro. */
  method OutField(out: StringInfo, f: Field)
    modifies out
    ensures out.data == old(out.data) + OptionalText(f.name, FieldJson(f))
    decreases f, 1
  {
    hide MemberText, NodesJson, NodeJson, ColumnsJson;
    match f.value {
      case Num(n) =>
        if n != 0 {
          WriteNumber(out, f.name, n);
        }
      case Code(n) => WriteNumber(out, f.name, n);
      case Flag(b) =>
        if b {
          WriteTrue(out, f.name);
        }
      case Str(t) => WriteToken(out, f.name, Some(t));
      case Absent =>
      case Obj(n) => WriteObj(out, f.name, n);
      case ListOf(items) => WriteNodes(out, f.name, items);
      case Statements(items) => WriteNodes(out, f.name, items);
      case Chain(items) => WriteNodes(out, f.name, items);
      case Columns(columns) => WriteColumns(out, f.name, columns);
    }
  }

  // ----- the function

  /** What is printed for a datum: nothing but its braces when the kind is not recognised. */
  function DatumText(d: Datum): string {
    if d.Known? then Text(NodeJson(d.node)) else "{}}"
  }

  function DatumTexts(datums: seq<Datum>): seq<string> {
    if datums == [] then [] else [DatumText(datums[0])] + DatumTexts(datums[1..])
  }

  function DatumsText(datums: seq<Datum>): string {
    Quote("datums") + ":" + "[" + Join(DatumTexts(datums)) + "]"
  }

  /** The members of the function as they are printed. */
  function Inner(f: Function): string {
    Join(MemberTexts(Head(f)) + [DatumsText(f.datums)] + MemberTexts(Tail(f)))
  }

  function FunctionText(f: Function): string {
    "{" + Quote("PLpgSQL_function") + ":" + "{" + Inner(f) + "}}"
  }

  // ----- with recognised datums the text is that of the intended value

  lemma {:induction false} KnownTexts(datums: seq<Datum>)
    requires Recognised(datums)
    ensures DatumTexts(datums) == Texts(DatumsJson(datums))
  {
    hide Text, NodeJson;
    if datums != [] {
      KnownTexts(datums[1..]);
      var js := DatumsJson(datums);
      assert js[1..] == DatumsJson(datums[1..]);
    }
  }

  lemma {:induction false} MemberTextsConcat(a: seq<Member>, b: seq<Member>)
    ensures MemberTexts(a + b) == MemberTexts(a) + MemberTexts(b)
  {
    hide Quote, Text;
    if a == [] {
      assert a + b == b;
    } else {
      assert (a + b)[1..] == a[1..] + b;
      MemberTextsConcat(a[1..], b);
    }
  }

  lemma OneText(m: Member)
    ensures MemberTexts([m]) == [MemberText(m)]
  {}

  lemma KnownInner(f: Function)
    requires Recognised(f.datums)
    ensures Inner(f) == Join(MemberTexts(Members(f)))
  {
    hide Join, Quote, Texts, MemberTexts, DatumTexts, DatumsJson, Head, Tail;
    var m := Member("datums", JArray(DatumsJson(f.datums)));
    KnownTexts(f.datums);
    ArrayAfter(Quote("datums") + ":", DatumsJson(f.datums));
    assert MemberText(m) == DatumsText(f.datums);
    OneText(m);
    MemberTextsConcat(Head(f) + [m], Tail(f));
    MemberTextsConcat(Head(f), [m]);
  }

  lemma {:induction false} KnownText(f: Function)
    requires Recognised(f.datums)
    ensures FunctionText(f) == Text(FunctionJson(f))
  {
    hide Inner, Quote, Join, MemberTexts, Members;
    KnownInner(f);
    var m := Member("PLpgSQL_function", JObject(Members(f)));
    OneMemberObject(m);
    ObjectText(Members(f));
    assert MemberText(m) == Quote("PLpgSQL_function") + ":" + ("{" + Inner(f) + "}");
  }

  // ----- with another datum it is no JSON text

  lemma NodeTextStart(n: Node)
    ensures Text(NodeJson(n)) != "" && Text(NodeJson(n))[0] == '{'
  {}

  /** Everything printed for the datums, up to the end of the text. */
  function DatumsRest(datums: seq<Datum>, rest: string): string {
    Join(DatumTexts(datums)) + rest
  }

  lemma RefusedFirst(more: string)
    ensures ParseItems("{}}" + more) == Failure
  {}

  lemma RefusedLater(j: Json, more: string)
    requires ParseValue(Text(j) + ("," + more)) == Success(j, "," + more) && ParseItems(more) == Failure
    ensures ParseItems(Text(j) + ("," + more)) == Failure
  {}

  /** The parser stops at the first datum that was not recognised. */
  lemma {:induction false} RefusedDatums(datums: seq<Datum>, rest: string)
    requires !Recognised(datums)
    ensures ParseItems(DatumsRest(datums, rest)) == Failure
    ensures DatumsRest(datums, rest) != "" && DatumsRest(datums, rest)[0] == '{'
  {
    hide ParseValue, ParseItems, Text, NodeJson;
    var s := DatumsRest(datums, rest);
    if |datums| == 1 {
      assert s == "{}}" + rest;
      RefusedFirst(rest);
    } else {
      var more := DatumsRest(datums[1..], rest);
      assert DatumTexts(datums)[1..] == DatumTexts(datums[1..]);
      assert s == DatumText(datums[0]) + ("," + more);
      if datums[0].Known? {
        NodeTextStart(datums[0].node);
        CleanNode(datums[0].node);
        CleanIsRead(NodeJson(datums[0].node));
        ValueRoundTrip(NodeJson(datums[0].node), "," + more);
        RefusedDatums(datums[1..], rest);
        RefusedLater(NodeJson(datums[0].node), more);
      } else {
        assert s == "{}}" + ("," + more);
        RefusedFirst("," + more);
      }
    }
  }

  lemma RefusedArray(body: string)
    requires body != "" && body[0] == '{' && ParseItems(body) == Failure
    ensures ParseValue("[" + body) == Failure
  {}

  lemma RefusedObject(body: string)
    requires body != "" && body[0] == '"' && ParseMembers(body) == Failure
    ensures ParseValue("{" + body) == Failure
  {}

  lemma RefusedMember(name: string, value: string)
    requires ParseValue(value) == Failure
    ensures ParseMember(Quote(name) + ":" + value) == Failure
  {
    hide ParseValue, ParseChars;
    var s := Quote(name) + ":" + value;
    assert s[1..] == EscapeAll(name) + "\"" + (":" + value);
    CharsRoundTrip(name, ":" + value);
    assert (":" + value)[1..] == value;
  }

  lemma RefusedLaterMember(m: Member, more: string)
    requires ParseMember(MemberText(m) + ("," + more)) == Success(m, "," + more) && ParseMembers(more) == Failure
    ensures ParseMembers(MemberText(m) + ("," + more)) == Failure
  {}

  lemma {:induction false} RefusedMembers(ms: seq<Member>, bad: string)
    requires ParseMember(bad) == Failure && bad != "" && bad[0] == '"'
    requires forall i :: 0 <= i < |ms| ==> CleanMember(ms[i])
    ensures ParseMembers(EachComma(MemberTexts(ms)) + bad) == Failure
    ensures EachComma(MemberTexts(ms)) + bad != "" && (EachComma(MemberTexts(ms)) + bad)[0] == '"'
  {
    hide ParseMember, ParseMembers, Text, EscapeAll, Clean, Read, Plain;
    if ms == [] {
      assert EachComma(MemberTexts(ms)) + bad == bad;
      RefusedFirstMember(bad);
    } else {
      var more := EachComma(MemberTexts(ms[1..])) + bad;
      RefusedMembers(ms[1..], bad);
      CleanIsRead(ms[0].value);
      MemberRoundTrip(ms[0], "," + more);
      RefusedLaterMember(ms[0], more);
      assert EachComma(MemberTexts(ms)) + bad == MemberText(ms[0]) + ("," + more);
      assert MemberText(ms[0])[0] == '"';
    }
  }

  lemma RefusedFirstMember(bad: string)
    requires ParseMember(bad) == Failure
    ensures ParseMembers(bad) == Failure
  {}

  lemma {:induction false} JoinConcat(a: seq<string>, t: string, b: seq<string>)
    ensures Join(a + [t] + b) == EachComma(a) + t + if b == [] then "" else "," + Join(b)
  {
    if a == [] {
      assert a + [t] + b == [t] + b;
      assert ([t] + b)[1..] == b;
    } else {
      assert (a + [t] + b)[1..] == a[1..] + [t] + b;
      JoinConcat(a[1..], t, b);
    }
  }

  /** The printed members from the datums on. */
  lemma {:induction false} InnerSplit(f: Function, rest: string) returns (after: string)
    ensures Inner(f) + rest == EachComma(MemberTexts(Head(f))) + (Quote("datums") + ":" + ("[" + DatumsRest(f.datums, after)))
  {
    hide Join, EachComma, Quote, MemberTexts, DatumTexts, Head, Tail;
    var a, t, b := MemberTexts(Head(f)), DatumsText(f.datums), MemberTexts(Tail(f));
    JoinConcat(a, t, b);
    var c := if b == [] then "" else "," + Join(b);
    after := "]" + (c + rest);
    var q, d := Quote("datums"), Join(DatumTexts(f.datums));
    assert t == q + ":" + "[" + d + "]";
    assert Inner(f) + rest == EachComma(a) + (t + (c + rest));
    assert t + (c + rest) == q + ":" + ("[" + (d + ("]" + (c + rest))));
  }

  lemma {:induction false} RefusedText(f: Function)
    requires !Recognised(f.datums)
    ensures Parse(FunctionText(f)) == None
  {
    hide Inner, Quote, DatumsRest, ParseValue, ParseItems, ParseMember, ParseMembers, EachComma, MemberTexts, Recognised;
    var after := InnerSplit(f, "}}");
    RefusedDatums(f.datums, after);
    RefusedArray(DatumsRest(f.datums, after));
    RefusedMember("datums", "[" + DatumsRest(f.datums, after));
    var bad := Quote("datums") + ":" + ("[" + DatumsRest(f.datums, after));
    QuoteStart("datums");
    RefusedMembers(Head(f), bad);
    RefusedObject(Inner(f) + "}}");
    var inner := "{" + (Inner(f) + "}}");
    RefusedMember("PLpgSQL_function", inner);
    QuoteStart("PLpgSQL_function");
    var outer := Quote("PLpgSQL_function") + ":" + inner;
    RefusedFirstMember(outer);
    RefusedObject(outer);
    assert FunctionText(f) == "{" + outer;
  }

  lemma QuoteStart(name: string)
    ensures Quote(name) != "" && Quote(name)[0] == '"'
  {}

  lemma {:induction false} CleanDatums(datums: seq<Datum>)
    requires Recognised(datums)
    ensures forall i :: 0 <= i < |DatumsJson(datums)| ==> Clean(DatumsJson(datums)[i])
  {
    hide Clean, NodeJson;
    if datums != [] {
      CleanNode(datums[0].node);
      CleanDatums(datums[1..]);
    }
  }

  lemma CleanFunction(f: Function)
    requires Recognised(f.datums)
    ensures Clean(FunctionJson(f))
  {
    hide NodeJson, DatumsJson;
    CleanDatums(f.datums);
    if f.action.Some? { CleanNode(f.action.value); }
    forall i | 0 <= i < |Members(f)| ensures CleanMember(Members(f)[i]) {}
    assert CleanMember(Member("PLpgSQL_function", JObject(Members(f))));
  }

  // ----- plpgsqlToJSON

  /** plpgsqlToJSON. The reference parser accepts the output, and reads the intended value
      from it, exactly when every datum is of a printed kind; then the reader gets the
      function back from what was parsed. */
  method ToJson(f: Function) returns (text: string)
    ensures Recognised(f.datums) ==> Parse(text) == Some(FunctionJson(f))
    ensures Recognised(f.datums) <==> Parse(text).Some?
    ensures forall s: Schema :: WellFormed(s) && FunctionTyped(s, f) && Recognised(f.datums) ==> FunctionOf(s, Parse(text)) == Some(f)
  {
    hide WellFormed, FunctionTyped, FunctionOf, Parse, Text, FunctionText, FunctionJson, Trimmed, Clean, Plain, Read;
    var out := new StringInfo();
    out.Append("{");
    DumpFunction(out, f);
    out.RemoveTrailingDelimiter();
    out.Append("}}");
    text := out.data;
    assert text == FunctionText(f) by { ClosedFunction(f); }
    if Recognised(f.datums) {
      KnownText(f);
      CleanFunction(f);
      CleanIsRead(FunctionJson(f));
      TextRoundTrip(FunctionJson(f));
      forall s: Schema | WellFormed(s) && FunctionTyped(s, f) ensures FunctionOf(s, Parse(text)) == Some(f) {
        FunctionReadBack(s, f);
      }
    } else {
      RefusedText(f);
    }
  }

  lemma {:induction false} ClosedFunction(f: Function)
    ensures "{" + (Quote("PLpgSQL_function") + ":" + "{" + Inner(f)) + "}}" == FunctionText(f)
  {
    hide Quote, Inner;
  }

  /** The members of the function with a comma after each. */
  function InnerEach(f: Function): string {
    Delimited(Head(f)) + (DatumsText(f.datums) + ",") + Delimited(Tail(f))
  }

  lemma {:induction false} TrimInner(before: string, f: Function)
    requires Open(before)
    ensures Trimmed(before + InnerEach(f)) == before + Inner(f)
  {
    hide Join, EachComma, MemberTexts, DatumsText, Head, Tail, Trimmed;
    var a, t, b := MemberTexts(Head(f)), DatumsText(f.datums), MemberTexts(Tail(f));
    EachCommaSnoc(a, t);
    EachCommaConcat(a + [t], b);
    assert EachComma(a) + t + "," == EachComma(a) + (t + ",");
    TrimLast(before, a + [t] + b);
  }

  /** dump_function */
  method DumpFunction(out: StringInfo, f: Function)
    requires out.data == "{"
    modifies out
    ensures Trimmed(out.data) == "{" + (Quote("PLpgSQL_function") + ":" + "{" + Inner(f))
  {
    hide Quote, Inner, DatumsText, Delimited, Tail, Head, Trimmed, InnerEach;
    out.OutIdent("PLpgSQL_function");
    out.Append(":{");
    ghost var before := out.data;
    assert before == "{" + (Quote("PLpgSQL_function") + ":" + "{");
    OutHead(out, f);
    OutDatums(out, f.datums);
    OutTail(out, f);
    Pieces(before, f);
    TrimInner(before, f);
  }

  lemma {:induction false} Pieces(before: string, f: Function)
    ensures ((before + Delimited(Head(f))) + (DatumsText(f.datums) + ",")) + Delimited(Tail(f)) == before + InnerEach(f)
  {
    hide Delimited, DatumsText, Head, Tail;
  }

  method OutHead(out: StringInfo, f: Function)
    modifies out
    ensures out.data == old(out.data) + Delimited(Head(f))
  {
    hide Delimited, MemberText;
    var a, b := Member("new_varno", JNumber(f.newVarno)), Member("old_varno", JNumber(f.oldVarno));
    NoTexts();
    OneMember(a.name, a.value);
    OneMember(b.name, b.value);
    DelimitedSnoc([a], b);
    assert [a] + [b] == [a, b];
    if f.newVarno != 0 {
      WriteNumber(out, "new_varno", f.newVarno);
    }
    if f.oldVarno != 0 {
      WriteNumber(out, "old_varno", f.oldVarno);
    }
    if f.newVarno != 0 && f.oldVarno != 0 {
      assert Head(f) == [a, b];
      assert Delimited([a]) + MemberText(b) + "," == Delimited([a]) + (MemberText(b) + ",");
    } else if f.newVarno != 0 {
      assert Head(f) == [a];
    } else if f.oldVarno != 0 {
      assert Head(f) == [b];
    } else {
      assert Head(f) == [];
    }
  }

  method OutTail(out: StringInfo, f: Function)
    modifies out
    ensures out.data == old(out.data) + Delimited(Tail(f))
  {
    hide Delimited, MemberText, NodeJson;
    NoTexts();
    if f.action.Some? {
      OneMember("action", NodeJson(f.action.value));
      WriteObj(out, "action", f.action.value);
    }
  }

  lemma {:induction false} DatumTextsSnoc(datums: seq<Datum>, d: Datum)
    ensures DatumTexts(datums + [d]) == DatumTexts(datums) + [DatumText(d)]
  {
    hide DatumText;
    if datums == [] {
      assert [d][1..] == [];
    } else {
      assert (datums + [d])[1..] == datums[1..] + [d];
      DatumTextsSnoc(datums[1..], d);
    }
  }

  method OutDatums(out: StringInfo, datums: seq<Datum>)
    modifies out
    ensures out.data == old(out.data) + (DatumsText(datums) + ",")
  {
    hide Quote, EachComma, DatumTexts, DatumText, Join, Trimmed;
    out.OutName("datums");
    out.Append("[");
    ghost var before := out.data;
    OutEachDatum(out, datums);
    TrimLast(before, DatumTexts(datums));
    out.RemoveTrailingDelimiter();
    out.Append("],");
    var q, d := Quote("datums"), Join(DatumTexts(datums));
    assert before == old(out.data) + (q + ":" + "[");
    assert q + ":" + "[" + d + "]," == q + ":" + "[" + d + "]" + ",";
  }

  method OutEachDatum(out: StringInfo, datums: seq<Datum>)
    modifies out
    ensures out.data == old(out.data) + EachComma(DatumTexts(datums))
  {
    hide EachComma, DatumTexts, DatumText;
    NoDatums();
    var i := 0;
    while i < |datums|
      invariant 0 <= i <= |datums|
      invariant out.data == old(out.data) + EachComma(DatumTexts(datums[..i]))
    {
      assert datums[..i + 1] == datums[..i] + [datums[i]];
      ghost var done := DatumTexts(datums[..i]);
      DatumTextsSnoc(datums[..i], datums[i]);
      EachCommaSnoc(done, DatumText(datums[i]));
      assert EachComma(done) + DatumText(datums[i]) + "," == EachComma(done) + (DatumText(datums[i]) + ",");
      OutDatum(out, datums[i]);
      i := i + 1;
    }
    assert datums[..i] == datums;
  }

  lemma NoDatums()
    ensures EachComma(DatumTexts([])) == ""
  {}

  method OutDatum(out: StringInfo, d: Datum)
    modifies out
    ensures out.data == old(out.data) + (DatumText(d) + ",")
  {
    hide Trimmed, OpenText, Text, NodeJson;
    out.Append("{");
    if d.Known? {
      Dump(out, d.node);
      out.RemoveTrailingDelimiter();
      out.Append("}},");
      OneObjectOpen(d.node);
      assert "{" + OpenText(d.node) + "}}," == "{" + OpenText(d.node) + "}}" + ",";
    } else {
      OpenStays(out.data);
      out.RemoveTrailingDelimiter();
      out.Append("}},");
      assert old(out.data) + "{" + "}}," == old(out.data) + ("{}}" + ",");
    }
  }

  lemma OpenStays(s: string)
    requires Open(s)
    ensures Trimmed(s) == s
  {}
}
