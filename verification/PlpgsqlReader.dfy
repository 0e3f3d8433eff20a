/** Reading a compiled PL/pgSQL function back from its JSON value, guided by the types of the
    fields; a field that is absent holds its default. */
module PlpgsqlReader {
  import opened Common
  import opened Json
  import opened JsonWriter
  import opened PlpgsqlTrees
  import JsonReader

  datatype Kind =
    | NumKind
    | CodeKind
    | FlagKind
    | StrKind
    | ObjKind
    | ListKind
    | StatementsKind
    | ChainKind
    | ColumnsKind

  datatype Slot = Slot(name: Ident, kind: Kind)

  /** The fields of every node, by its tag. */
  type Schema = map<string, seq<Slot>>

  predicate Distinct(slots: seq<Slot>) {
    forall i, j :: 0 <= i < j < |slots| ==> slots[i].name != slots[j].name
  }

  predicate WellFormed(s: Schema) {
    forall tag :: tag in s ==> Distinct(s[tag])
  }

  ghost predicate Typed(s: Schema, n: Node)
    decreases n, 1
  {
    n.tag in s && FieldsTyped(s, s[n.tag], n.fields)
  }

  ghost predicate FieldsTyped(s: Schema, slots: seq<Slot>, fields: seq<Field>)
    decreases fields, 0
  {
    |fields| == |slots| && forall i :: 0 <= i < |fields| ==> fields[i].name == slots[i].name && FieldTyped(s, slots[i].kind, fields[i])
  }

  ghost predicate FieldTyped(s: Schema, kind: Kind, f: Field)
    decreases f, 1
  {
    var v := f.value;
    match kind
    case NumKind => v.Num?
    case CodeKind => v.Code?
    case FlagKind => v.Flag?
    case StrKind => v.Absent? || v.Str?
    case ObjKind => v.Absent? || (v.Obj? && Typed(s, v.node))
    case ListKind => v.Absent? || (v.ListOf? && forall i :: 0 <= i < |v.items| ==> Typed(s, v.items[i]))
    case StatementsKind => v.Absent? || (v.Statements? && forall i :: 0 <= i < |v.items| ==> Typed(s, v.items[i]))
    case ChainKind => v.Chain? && forall i :: 0 <= i < |v.items| ==> Typed(s, v.items[i])
    case ColumnsKind => v.Columns?
  }

  // ----- the reader

  function NodeOf(s: Schema, j: Json): Option<Node>
    decreases j, 0
  {
    if j.JObject? && |j.members| == 1 && j.members[0].value.JObject? && j.members[0].name in s && IsIdent(j.members[0].name) then
      var m := j.members[0];
      assert m.value < m;
      var fields := FieldsOf(s, s[m.name], m.value.members, |s[m.name]|);
      if fields.Some? then Some(Node(m.name, fields.value)) else None
    else None
  }

  function NodesOf(s: Schema, items: seq<Json>): Option<seq<Node>>
    decreases items, 0
  {
    if items == [] then Some([])
    else
      var front, last := NodesOf(s, items[..|items| - 1]), NodeOf(s, items[|items| - 1]);
      if front.Some? && last.Some? then Some(front.value + [last.value]) else None
  }

  function ColumnOf(j: Json): Option<Option<Column>> {
    match j
    case JNull => Some(None)
    case JObject(ms) =>
      var name, varno := JsonReader.Index(ms, "name"), JsonReader.Index(ms, "varno");
      if name < |ms| && ms[name].value.JString? && (varno == |ms| || ms[varno].value.JNumber?) then
        Some(Some(Column(ms[name].value.s, if varno == |ms| then 0 else ms[varno].value.n)))
      else None
    case _ => None
  }

  function ColumnsOf(items: seq<Json>): Option<seq<Option<Column>>> {
    if items == [] then Some([])
    else
      var front, last := ColumnsOf(items[..|items| - 1]), ColumnOf(items[|items| - 1]);
      if front.Some? && last.Some? then Some(front.value + [last.value]) else None
  }

  /** The first k fields of a node. */
  function FieldsOf(s: Schema, slots: seq<Slot>, ms: seq<Member>, k: nat): Option<seq<Field>>
    requires k <= |slots|
    decreases ms, 1, k
  {
    if k == 0 then Some([])
    else
      var front, last := FieldsOf(s, slots, ms, k - 1), FieldOf(s, slots[k - 1], ms);
      if front.Some? && last.Some? then Some(front.value + [Field(slots[k - 1].name, last.value)]) else None
  }

  function FieldOf(s: Schema, slot: Slot, ms: seq<Member>): Option<Value>
    decreases ms, 0
  {
    var i := JsonReader.Index(ms, slot.name);
    if i == |ms| then Default(slot.kind)
    else
      assert ms[i].value < ms[i];
      ValueOf(s, slot.kind, ms[i].value)
  }

  function Default(kind: Kind): Option<Value> {
    match kind
    case NumKind => Some(Num(0))
    case FlagKind => Some(Flag(false))
    case StrKind => Some(Absent)
    case ObjKind => Some(Absent)
    case ListKind => Some(Absent)
    case StatementsKind => Some(Absent)
    case _ => None
  }

  function ValueOf(s: Schema, kind: Kind, j: Json): Option<Value>
    decreases j, 1
  {
    match (kind, j)
    case (NumKind, JNumber(n)) => Some(Num(n))
    case (CodeKind, JNumber(n)) => Some(Code(n))
    case (FlagKind, JBool(b)) => Some(Flag(b))
    case (StrKind, JString(t)) => Some(Str(t))
    case (ObjKind, _) =>
      var n := NodeOf(s, j);
      if n.Some? then Some(Obj(n.value)) else None
    case (ListKind, JArray(items)) =>
      var nodes := NodesOf(s, items);
      if nodes.Some? then Some(ListOf(nodes.value)) else None
    case (StatementsKind, JArray(items)) =>
      var nodes := NodesOf(s, items);
      if nodes.Some? then Some(Statements(nodes.value)) else None
    case (ChainKind, JArray(items)) =>
      var nodes := NodesOf(s, items);
      if nodes.Some? then Some(Chain(nodes.value)) else None
    case (ColumnsKind, JArray(items)) =>
      var columns := ColumnsOf(items);
      if columns.Some? then Some(Columns(columns.value)) else None
    case _ => None
  }

  // ----- reading undoes writing

  lemma FieldsNext(fields: seq<Field>, f: Field)
    ensures FieldsJson(fields + [f]) ==
      if FieldJson(f).Some? then FieldsJson(fields) + [Member(f.name, FieldJson(f).value)] else FieldsJson(fields)
  {
    hide FieldJson;
    assert (fields + [f])[..|fields|] == fields;
  }

  predicate NamedApart(fields: seq<Field>) {
    forall i, j :: 0 <= i < j < |fields| ==> fields[i].name != fields[j].name
  }

  lemma {:induction false} NotShown(fields: seq<Field>, name: string)
    requires forall i :: 0 <= i < |fields| ==> fields[i].name != name
    ensures JsonReader.Index(FieldsJson(fields), name) == |FieldsJson(fields)|
  {
    hide FieldJson;
    if fields != [] {
      var front, last := fields[..|fields| - 1], fields[|fields| - 1];
      assert fields == front + [last];
      NotShown(front, name);
      FieldsNext(front, last);
      if FieldJson(last).Some? { JsonReader.IndexSnoc(FieldsJson(front), Member(last.name, FieldJson(last).value), name); }
    }
  }

  /** A field is found under its name, or is absent when it holds its default. */
  ghost predicate Finds(ms: seq<Member>, f: Field) {
    var i := JsonReader.Index(ms, f.name);
    if FieldJson(f).Some? then i < |ms| && ms[i].value == FieldJson(f).value else i == |ms|
  }

  lemma {:induction false} FieldShown(fields: seq<Field>, k: nat)
    requires NamedApart(fields) && k < |fields|
    ensures Finds(FieldsJson(fields), fields[k])
  {
    hide FieldJson, FieldsJson;
    var front, last := fields[..|fields| - 1], fields[|fields| - 1];
    assert fields == front + [last];
    FieldsNext(front, last);
    if k < |fields| - 1 { FieldShown(front, k); } else { NotShown(front, last.name); }
    if FieldJson(last).Some? {
      JsonReader.IndexSnoc(FieldsJson(front), Member(last.name, FieldJson(last).value), fields[k].name);
    }
  }

  lemma {:induction false} NodeReadBack(s: Schema, n: Node)
    requires WellFormed(s) && Typed(s, n)
    ensures NodeOf(s, NodeJson(n)) == Some(n)
    decreases n, 1
  {
    hide FieldsOf, FieldsJson, WellFormed, FieldsTyped;
    FieldsReadBack(s, n.tag, n.fields);
  }

  lemma {:induction false} NodesReadBack(s: Schema, items: seq<Node>)
    requires WellFormed(s) && forall i :: 0 <= i < |items| ==> Typed(s, items[i])
    ensures NodesOf(s, NodesJson(items)) == Some(items)
    decreases items, 0
  {
    hide WellFormed, Typed, NodeJson, NodeOf;
    if items != [] {
      var front, last := items[..|items| - 1], items[|items| - 1];
      NodesReadBack(s, front);
      NodeReadBack(s, last);
      var js := NodesJson(items);
      assert js[..|js| - 1] == NodesJson(front) && front + [last] == items;
    }
  }

  lemma ColumnReadBack(c: Option<Column>)
    ensures ColumnOf(ColumnJson(c)) == Some(c)
  {
    if c.Some? {
      var name, varno := Member("name", JString(c.value.name)), Member("varno", JNumber(c.value.varno));
      JsonReader.IndexSnoc([], name, "name");
      JsonReader.IndexSnoc([], name, "varno");
      JsonReader.IndexSnoc([name], varno, "name");
      JsonReader.IndexSnoc([name], varno, "varno");
      assert [] + [name] == [name];
      assert ColumnMembers(c.value) == if c.value.varno != 0 then [name] + [varno] else [name];
    }
  }

  lemma {:induction false} ColumnsReadBack(columns: seq<Option<Column>>)
    ensures ColumnsOf(ColumnsJson(columns)) == Some(columns)
  {
    hide ColumnOf, ColumnJson;
    if columns != [] {
      var front, last := columns[..|columns| - 1], columns[|columns| - 1];
      ColumnsReadBack(front);
      ColumnReadBack(last);
      var js := ColumnsJson(columns);
      assert js[..|js| - 1] == ColumnsJson(front) && front + [last] == columns;
    }
  }

  /** The fields of a node are read back from its members. */
  lemma FieldsReadBack(s: Schema, tag: string, fields: seq<Field>)
    requires WellFormed(s) && tag in s && FieldsTyped(s, s[tag], fields)
    ensures FieldsOf(s, s[tag], FieldsJson(fields), |s[tag]|) == Some(fields)
    decreases fields, 1
  {
    var slots := s[tag];
    FieldNames(s, slots, fields);
    hide FieldsTyped, FieldTyped, FieldsOf, FieldsJson, Finds, WellFormed;
    forall k | 0 <= k < |fields| ensures FieldOf(s, slots[k], FieldsJson(fields)) == Some(fields[k].value) {
      FieldShown(fields, k);
      FieldReadBack(s, slots[k], fields[k], FieldsJson(fields)) by { assert fields[k] in fields; }
    }
    FirstFields(s, slots, fields, |fields|);
    assert fields[..|fields|] == fields;
  }

  lemma FieldNames(s: Schema, slots: seq<Slot>, fields: seq<Field>)
    requires FieldsTyped(s, slots, fields)
    ensures |slots| == |fields| && (Distinct(slots) ==> NamedApart(fields))
    ensures forall k :: 0 <= k < |fields| ==> fields[k].name == slots[k].name && FieldTyped(s, slots[k].kind, fields[k])
  {
    hide FieldTyped;
  }

  lemma {:induction false} FirstFields(s: Schema, slots: seq<Slot>, fields: seq<Field>, k: nat)
    requires k <= |fields| == |slots|
    requires forall i :: 0 <= i < |fields| ==>
      fields[i].name == slots[i].name && FieldOf(s, slots[i], FieldsJson(fields)) == Some(fields[i].value)
    ensures FieldsOf(s, slots, FieldsJson(fields), k) == Some(fields[..k])
    decreases k
  {
    hide FieldOf, FieldsJson;
    if k > 0 {
      FirstFields(s, slots, fields, k - 1);
      assert fields[..k] == fields[..k - 1] + [Field(slots[k - 1].name, fields[k - 1].value)];
    }
  }

  lemma FieldReadBack(s: Schema, slot: Slot, f: Field, ms: seq<Member>)
    requires WellFormed(s) && f.name == slot.name && FieldTyped(s, slot.kind, f) && Finds(ms, f)
    ensures FieldOf(s, slot, ms) == Some(f.value)
    decreases f, 2
  {
    hide FieldTyped, FieldJson, ValueOf, Default;
    if FieldJson(f).Some? {
      ValueReadBack(s, slot.kind, f);
    } else {
      DefaultReadBack(s, slot.kind, f);
    }
  }

  predicate AtDefault(v: Value) {
    v in {Num(0), Flag(false), Absent}
  }

  /** A field leaves no member exactly when it holds its default. */
  lemma DefaultShowsNothing(f: Field)
    ensures FieldJson(f).None? <==> AtDefault(f.value)
  {
    hide NodeJson, NodesJson, ColumnsJson;
  }

  lemma DefaultReadBack(s: Schema, kind: Kind, f: Field)
    requires FieldTyped(s, kind, f) && FieldJson(f).None?
    ensures Default(kind) == Some(f.value)
  {
    hide NodeJson, NodesJson, ColumnsJson, Typed;
  }

  lemma ValueReadBack(s: Schema, kind: Kind, f: Field)
    requires WellFormed(s) && FieldTyped(s, kind, f) && FieldJson(f).Some?
    ensures ValueOf(s, kind, FieldJson(f).value) == Some(f.value)
    decreases f, 1
  {
    hide NodeJson, NodesJson, ColumnsJson, Typed, WellFormed, NodeOf, NodesOf, ColumnsOf;
    match f.value {
      case Obj(n) => NodeReadBack(s, n);
      case ListOf(items) => NodesReadBack(s, items);
      case Statements(items) => NodesReadBack(s, items);
      case Chain(items) => NodesReadBack(s, items);
      case Columns(columns) => ColumnsReadBack(columns);
      case _ =>
    }
  }

  // ----- the function

  function NumberAt(ms: seq<Member>, name: string): int {
    var i := JsonReader.Index(ms, name);
    if i < |ms| && ms[i].value.JNumber? then ms[i].value.n else 0
  }

  function DatumsOf(s: Schema, items: seq<Json>): Option<seq<Datum>> {
    if items == [] then Some([])
    else
      var head, rest := NodeOf(s, items[0]), DatumsOf(s, items[1..]);
      if head.Some? && rest.Some? then Some([Known(head.value)] + rest.value) else None
  }

  function FunctionOf(s: Schema, j: Option<Json>): Option<Function> {
    match j
    case Some(JObject(outer)) =>
      if |outer| == 1 && outer[0].name == "PLpgSQL_function" && outer[0].value.JObject? then
        var ms := outer[0].value.members;
        var datums, action := JsonReader.Index(ms, "datums"), JsonReader.Index(ms, "action");
        if datums < |ms| && ms[datums].value.JArray? && DatumsOf(s, ms[datums].value.items).Some? then
          var body := if action < |ms| then NodeOf(s, ms[action].value) else None;
          if action < |ms| && body.None? then None
          else Some(Function(NumberAt(ms, "new_varno"), NumberAt(ms, "old_varno"), DatumsOf(s, ms[datums].value.items).value, body))
        else None
      else None
    case _ => None
  }

  ghost predicate FunctionTyped(s: Schema, f: Function) {
    && (forall i :: 0 <= i < |f.datums| && f.datums[i].Known? ==> Typed(s, f.datums[i].node))
    && (f.action.Some? ==> Typed(s, f.action.value))
  }

  lemma {:induction false} DatumsReadBack(s: Schema, datums: seq<Datum>)
    requires WellFormed(s) && Recognised(datums) && forall i :: 0 <= i < |datums| && datums[i].Known? ==> Typed(s, datums[i].node)
    ensures DatumsOf(s, DatumsJson(datums)) == Some(datums)
  {
    hide WellFormed, Typed, NodeJson, NodeOf;
    if datums != [] {
      NodeReadBack(s, datums[0].node);
      DatumsReadBack(s, datums[1..]);
      assert DatumsJson(datums)[1..] == DatumsJson(datums[1..]);
      assert datums == [Known(datums[0].node)] + datums[1..];
    }
  }

  /** Main result: from the value of a function the reader gets it back. */
  lemma FunctionReadBack(s: Schema, f: Function)
    requires WellFormed(s) && Recognised(f.datums) && FunctionTyped(s, f)
    ensures FunctionOf(s, Some(FunctionJson(f))) == Some(f)
  {
    DatumsReadBack(s, f.datums);
    if f.action.Some? { NodeReadBack(s, f.action.value); }
    hide WellFormed, Typed, NodeJson, NodeOf, DatumsOf, DatumsJson;
    MembersFound(f);
  }

  lemma MembersFound(f: Function)
    requires Recognised(f.datums)
    ensures
      var ms := Members(f);
      var datums, action := JsonReader.Index(ms, "datums"), JsonReader.Index(ms, "action");
      && NumberAt(ms, "new_varno") == f.newVarno && NumberAt(ms, "old_varno") == f.oldVarno
      && datums < |ms| && ms[datums].value == JArray(DatumsJson(f.datums))
      && (action < |ms| <==> f.action.Some?) && (f.action.Some? ==> ms[action].value == NodeJson(f.action.value))
  {
    hide NodeJson, DatumsJson, Members;
    MembersInOrder(f);
    WhereIs(f, "new_varno");
    WhereIs(f, "old_varno");
    WhereIs(f, "datums");
    WhereIs(f, "action");
  }

  /** The members of a function up to its datums. */
  function BeforeDatums(f: Function): nat {
    (if f.newVarno != 0 then 1 else 0) + if f.oldVarno != 0 then 1 else 0
  }

  lemma MembersInOrder(f: Function)
    requires Recognised(f.datums)
    ensures
      var ms, n := Members(f), BeforeDatums(f);
      && |ms| == n + 1 + (if f.action.Some? then 1 else 0)
      && (f.newVarno != 0 ==> ms[0] == Member("new_varno", JNumber(f.newVarno)))
      && (f.oldVarno != 0 ==> ms[n - 1] == Member("old_varno", JNumber(f.oldVarno)))
      && ms[n] == Member("datums", JArray(DatumsJson(f.datums)))
      && (f.action.Some? ==> ms[n + 1] == Member("action", NodeJson(f.action.value)))
  {
    hide NodeJson, DatumsJson;
  }

  lemma WhereIs(f: Function, name: string)
    requires Recognised(f.datums)
    ensures JsonReader.Index(Members(f), name) ==
      if f.newVarno != 0 && name == "new_varno" then 0
      else if f.oldVarno != 0 && name == "old_varno" then BeforeDatums(f) - 1
      else if name == "datums" then BeforeDatums(f)
      else if f.action.Some? && name == "action" then BeforeDatums(f) + 1
      else |Members(f)|
  {
    hide JsonReader.Index, NodeJson, DatumsJson;
    var a, b := Member("new_varno", JNumber(f.newVarno)), Member("old_varno", JNumber(f.oldVarno));
    var c := Member("datums", JArray(DatumsJson(f.datums)));
    var h1 := [] + if f.newVarno != 0 then [a] else [];
    var h2 := h1 + if f.oldVarno != 0 then [b] else [];
    assert Head(f) == h2 && Head(f) + [c] == h2 + if true then [c] else [];
    NoneFound(name);
    OneMoreFound([], a, f.newVarno != 0, name);
    OneMoreFound(h1, b, f.oldVarno != 0, name);
    OneMoreFound(h2, c, true, name);
    if f.action.Some? {
      OneMoreFound(Head(f) + [c], Member("action", NodeJson(f.action.value)), true, name);
    } else {
      assert Members(f) == Head(f) + [c];
    }
  }

  lemma NoneFound(name: string)
    ensures JsonReader.Index([], name) == 0
  {}

  lemma OneMoreFound(ms: seq<Member>, m: Member, shown: bool, name: string)
    ensures
      var i, next := JsonReader.Index(ms, name), ms + if shown then [m] else [];
      JsonReader.Index(next, name) == if i < |ms| then i else if shown && m.name == name then |ms| else |next|
  {
    JsonReader.IndexSnoc(ms, m, name);
    if !shown { assert ms + [] == ms; }
  }
}
