/** Reading a parse tree back from its JSON value. The reader is guided by the types of the
    fields; a field that is absent holds its default. */
module JsonReader {
  import opened Common
  import opened Json
  import opened JsonWriter
  import opened JsonTrees

  /** The type of a field. `PartKind` is a struct that is always written, `PartPtrKind` one
      behind a pointer, `NodeKind` and `NodePtrKind` the same for nodes of any type. */
  datatype Kind =
    | NumKind
    | ChrKind
    | EnumKind
    | FlagKind
    | StrKind
    | ListKind
    | NodeKind
    | NodePtrKind
    | PartKind(tag: string)
    | PartPtrKind(tag: string)

  datatype Slot = Slot(name: Ident, kind: Kind)

  /** The fields of every struct, by its tag. */
  type Schema = map<string, seq<Slot>>

  const VALUE_TAGS: set<string> := {"List", "IntList", "OidList", "Integer", "Float", "String", "BitString", "Null"}

  predicate Distinct(slots: seq<Slot>) {
    forall i, j :: 0 <= i < j < |slots| ==> slots[i].name != slots[j].name
  }

  predicate WellFormed(s: Schema) {
    forall tag :: tag in s ==> tag !in VALUE_TAGS && Distinct(s[tag])
  }

  ghost predicate Typed(s: Schema, n: Node)
    decreases n, 1
  {
    match n
    case List(items) => forall i :: 0 <= i < |items| ==> Typed(s, items[i])
    case Struct(tag, fields) => tag in s && FieldsTyped(s, s[tag], fields)
    case _ => true
  }

  ghost predicate FieldsTyped(s: Schema, slots: seq<Slot>, fields: seq<Field>)
    decreases fields, 0
  {
    |fields| == |slots| && forall i :: 0 <= i < |fields| ==> fields[i].name == slots[i].name && FieldTyped(s, slots[i].kind, fields[i])
  }

  ghost predicate FieldTyped(s: Schema, kind: Kind, f: Field)
    decreases f, 1
  {
    var v := f.value;
    match kind
    case NumKind => v.Num?
    case ChrKind => v.Chr?
    case EnumKind => v.Enum?
    case FlagKind => v.Flag?
    case StrKind => v.Str?
    case ListKind => v.Absent? || (v.ListOf? && forall i :: 0 <= i < |v.items| ==> Typed(s, v.items[i]))
    case NodeKind => v.NodeHere? && Typed(s, v.node)
    case NodePtrKind => v.NodeAt? && Typed(s, v.node)
    case PartKind(tag) => v.Part? && tag in s && FieldsTyped(s, s[tag], v.part)
    case PartPtrKind(tag) => v.Absent? || (v.Part? && tag in s && FieldsTyped(s, s[tag], v.part))
  }

  // ----- the reader

  /** The place of a member; the number of members if there is none of that name. */
  function Index(ms: seq<Member>, name: string): (i: nat)
    ensures i <= |ms| && (i < |ms| ==> ms[i].name == name)
  {
    if ms == [] then 0
    else
      var i := Index(ms[..|ms| - 1], name);
      if i < |ms| - 1 || ms[|ms| - 1].name == name then i else |ms|
  }

  function NodeOf(s: Schema, j: Json): Option<Node>
    decreases j, 0
  {
    match j
    case JNull => Some(Null)
    case JObject(ms) =>
      if |ms| == 1 && ms[0].value.JObject? then
        assert ms[0].value < ms[0];
        TaggedNode(s, ms[0].name, ms[0].value.members)
      else None
    case _ => None
  }

  /** The node of a type, from the members of its object. */
  function TaggedNode(s: Schema, tag: string, ms: seq<Member>): Option<Node>
    decreases ms, 2
  {
    if tag == "Null" then (if ms == [] then Some(NullValue) else None)
    else if tag in s then
      var fields := FieldsOf(s, s[tag], ms, |s[tag]|);
      if fields.Some? && IsIdent(tag) then Some(Struct(tag, fields.value)) else None
    else if |ms| != 1 then None
    else
      assert ms[0].value < ms[0];
      match (tag, ms[0].name, ms[0].value)
      case ("List", "items", JArray(items)) =>
        var nodes := ItemsOf(s, items);
        if nodes.Some? then Some(List(nodes.value)) else None
      case ("IntList", "items", JArray(items)) =>
        var ints := IntsOf(items);
        if ints.Some? then Some(IntList(ints.value)) else None
      case ("OidList", "items", JArray(items)) =>
        var ints := IntsOf(items);
        if ints.Some? && (forall i :: 0 <= i < |ints.value| ==> ints.value[i] >= 0) then Some(OidList(ints.value)) else None
      case ("Integer", "ival", JNumber(n)) => Some(Integer(n))
      case ("Float", "str", j) => if TextOf(j).Some? then Some(Float(TextOf(j).value)) else None
      case ("String", "str", j) => if TextOf(j).Some? then Some(String(TextOf(j).value)) else None
      case ("BitString", "str", j) => if TextOf(j).Some? then Some(BitString(TextOf(j).value)) else None
      case _ => None
  }

  /** A text that may be NULL. */
  function TextOf(j: Json): Option<Option<string>> {
    match j
    case JNull => Some(None)
    case JString(t) => Some(Some(t))
    case _ => None
  }

  function IntsOf(items: seq<Json>): Option<seq<int>> {
    if items == [] then Some([])
    else
      var front, last := IntsOf(items[..|items| - 1]), items[|items| - 1];
      if front.Some? && last.JNumber? then Some(front.value + [last.n]) else None
  }

  /** An empty object stands for a NULL item. */
  function ItemOf(s: Schema, j: Json): Option<Node>
    decreases j, 1
  {
    if j == JObject([]) then Some(Null) else NodeOf(s, j)
  }

  function ItemsOf(s: Schema, items: seq<Json>): Option<seq<Node>>
    decreases items, 0
  {
    if items == [] then Some([])
    else
      var front, last := ItemsOf(s, items[..|items| - 1]), ItemOf(s, items[|items| - 1]);
      if front.Some? && last.Some? then Some(front.value + [last.value]) else None
  }

  /** The first k fields of a struct. */
  function FieldsOf(s: Schema, slots: seq<Slot>, ms: seq<Member>, k: nat): Option<seq<Field>>
    requires k <= |slots|
    decreases ms, 1, k
  {
    if k == 0 then Some([])
    else
      var front, last := FieldsOf(s, slots, ms, k - 1), FieldOf(s, slots[k - 1], ms);
      if front.Some? && last.Some? then Some(front.value + [Field(slots[k - 1].name, last.value)]) else None
  }

  function FieldOf(s: Schema, slot: Slot, ms: seq<Member>): Option<Value>
    decreases ms, 0
  {
    var i := Index(ms, slot.name);
    if i == |ms| then Default(slot.kind)
    else
      assert ms[i].value < ms[i];
      ValueOf(s, slot.kind, ms[i].value)
  }

  function Default(kind: Kind): Option<Value> {
    match kind
    case NumKind => Some(Num(0))
    case ChrKind => Some(Chr('\0'))
    case FlagKind => Some(Flag(false))
    case StrKind => Some(Str(None))
    case ListKind => Some(Absent)
    case NodePtrKind => Some(NodeAt(Null))
    case PartPtrKind(_) => Some(Absent)
    case _ => None
  }

  function ValueOf(s: Schema, kind: Kind, j: Json): Option<Value>
    decreases j, 2
  {
    match (kind, j)
    case (NumKind, JNumber(n)) => Some(Num(n))
    case (ChrKind, JString(t)) => if |t| == 1 then Some(Chr(t[0])) else None
    case (EnumKind, JString(t)) => if IsIdent(t) then Some(Enum(t)) else None
    case (FlagKind, JBool(b)) => Some(Flag(b))
    case (StrKind, JString(t)) => Some(Str(Some(t)))
    case (ListKind, JArray(items)) =>
      var nodes := ItemsOf(s, items);
      if nodes.Some? then Some(ListOf(nodes.value)) else None
    case (NodeKind, _) =>
      var n := NodeOf(s, j);
      if n.Some? then Some(NodeHere(n.value)) else None
    case (NodePtrKind, _) =>
      var n := NodeOf(s, j);
      if n.Some? then Some(NodeAt(n.value)) else None
    case (PartKind(tag), JObject(ms)) => PartOf(s, tag, ms)
    case (PartPtrKind(tag), JObject(ms)) => PartOf(s, tag, ms)
    case _ => None
  }

  function PartOf(s: Schema, tag: string, ms: seq<Member>): Option<Value>
    decreases ms, 2
  {
    if tag !in s then None
    else
      var fields := FieldsOf(s, s[tag], ms, |s[tag]|);
      if fields.Some? then Some(Part(fields.value)) else None
  }

  // ----- what is read of a member

  lemma {:induction false} ReadMembersSnoc(ms: seq<Member>, m: Member)
    ensures ReadMembers(ms + [m]) == ReadMembers(ms) + [Member(m.name, Read(m.value))]
  {
    hide Read;
    if ms == [] {
      assert [m][1..] == [];
    } else {
      assert (ms + [m])[1..] == ms[1..] + [m];
      ReadMembersSnoc(ms[1..], m);
    }
  }

  lemma {:induction false} ReadAllSnoc(items: seq<Json>, j: Json)
    ensures ReadAll(items + [j]) == ReadAll(items) + [Read(j)]
  {
    hide Read;
    if items == [] {
      assert [j][1..] == [];
    } else {
      assert (items + [j])[1..] == items[1..] + [j];
      ReadAllSnoc(items[1..], j);
    }
  }

  lemma IndexSnoc(ms: seq<Member>, m: Member, name: string)
    ensures Index(ms + [m], name) ==
      if Index(ms, name) < |ms| || m.name == name then Index(ms, name) else |ms| + 1
  {
    assert (ms + [m])[..|ms|] == ms;
  }

  /** The members read of a list of fields. */
  function Shown(fields: seq<Field>): seq<Member> {
    ReadMembers(FieldsJson(fields))
  }

  lemma ShownNext(fields: seq<Field>, f: Field)
    ensures Shown(fields + [f]) == if FieldJson(f).Some? then Shown(fields) + [Member(f.name, Read(FieldJson(f).value))] else Shown(fields)
  {
    hide FieldJson, Read;
    assert (fields + [f])[..|fields|] == fields;
    if FieldJson(f).Some? {
      var m := Member(f.name, FieldJson(f).value);
      assert FieldsJson(fields + [f]) == FieldsJson(fields) + [m];
      ReadMembersSnoc(FieldsJson(fields), m);
    } else {
      assert FieldsJson(fields + [f]) == FieldsJson(fields);
    }
  }

  predicate NamedApart(fields: seq<Field>) {
    forall i, j :: 0 <= i < j < |fields| ==> fields[i].name != fields[j].name
  }

  lemma {:induction false} NotShown(fields: seq<Field>, name: string)
    requires forall i :: 0 <= i < |fields| ==> fields[i].name != name
    ensures Index(Shown(fields), name) == |Shown(fields)|
  {
    hide FieldJson, Read;
    if fields != [] {
      var front, last := fields[..|fields| - 1], fields[|fields| - 1];
      assert fields == front + [last];
      NotShown(front, name);
      ShownNext(front, last);
      if FieldJson(last).Some? { IndexSnoc(Shown(front), Member(last.name, Read(FieldJson(last).value)), name); }
    }
  }

  /** A field is found under its name, or is absent when it holds its default. */
  ghost predicate Finds(ms: seq<Member>, f: Field) {
    var i := Index(ms, f.name);
    if FieldJson(f).Some? then i < |ms| && ms[i].value == Read(FieldJson(f).value) else i == |ms|
  }

  lemma {:induction false} FieldShown(fields: seq<Field>, k: nat)
    requires NamedApart(fields) && k < |fields|
    ensures Finds(Shown(fields), fields[k])
  {
    hide FieldJson, Read, Shown;
    var front, last := fields[..|fields| - 1], fields[|fields| - 1];
    assert fields == front + [last];
    ShownNext(front, last);
    if k < |fields| - 1 { FieldShown(front, k); } else { NotShown(front, last.name); }
    if FieldJson(last).Some? {
      IndexSnoc(Shown(front), Member(last.name, Read(FieldJson(last).value)), fields[k].name);
    }
  }

  // ----- defaults are left out

  predicate AtDefault(v: Value) {
    v in {Num(0), Chr('\0'), Flag(false), Str(None), Absent, NodeAt(Null)}
  }

  lemma DefaultShowsNothing(f: Field)
    ensures FieldJson(f).None? <==> AtDefault(f.value)
  {
    hide NodeJson, ItemsJson, FieldsJson;
  }

  lemma {:induction false} IndexMisses(ms: seq<Member>, name: string)
    ensures Index(ms, name) == |ms| <==> forall m :: m in ms ==> m.name != name
  {
    if ms != [] {
      IndexMisses(ms[..|ms| - 1], name);
      assert ms == ms[..|ms| - 1] + [ms[|ms| - 1]];
    }
  }

  /** The object of a struct has its tag as only member, and in it a member for exactly those
      fields that do not hold their default. */
  lemma StructShows(n: Node, k: nat)
    requires n.Struct? && NamedApart(n.fields) && k < |n.fields|
    ensures Read(NodeJson(n)) == JObject([Member(n.tag, JObject(Shown(n.fields)))])
    ensures (exists m :: m in Shown(n.fields) && m.name == n.fields[k].name) <==> !AtDefault(n.fields[k].value)
  {
    hide FieldJson, FieldsJson, ReadMembers, AtDefault;
    OneRead(n.tag, JObject(FieldsJson(n.fields)));
    FieldShown(n.fields, k);
    DefaultShowsNothing(n.fields[k]);
    IndexMisses(Shown(n.fields), n.fields[k].name);
  }

  // ----- reading undoes writing

  lemma {:induction false} NodeReadBack(s: Schema, n: Node)
    requires WellFormed(s) && Typed(s, n)
    ensures NodeOf(s, Read(NodeJson(n))) == Some(n)
    decreases n, 1
  {
    hide NodeJson, NodeOf, ItemsJson, FieldsJson, ItemsOf, FieldsOf, ReadAll, WellFormed, TaggedNode, Body;
    if n == Null {
      NullReadsBack(s);
    } else {
      TaggedReads(s, n);
      match n {
        case List(items) =>
          ItemsReadBack(s, items);
          ListReadsBack(s, n);
        case Struct(tag, fields) => StructReadBack(s, n);
        case _ => ValueReadsBack(s, n);
      }
    }
  }

  lemma NullReadsBack(s: Schema)
    ensures NodeOf(s, Read(NodeJson(Null))) == Some(Null)
  {}

  lemma ListReadsBack(s: Schema, n: Node)
    requires WellFormed(s) && n.List? && ItemsOf(s, ReadAll(ItemsJson(n.items))) == Some(n.items)
    ensures TaggedNode(s, "List", ReadMembers(Body(n))) == Some(n)
  {
    hide ItemsOf, ItemsJson, ReadAll;
    OneRead("items", JArray(ItemsJson(n.items)));
    assert "List" in VALUE_TAGS;
  }

  lemma ValueReadsBack(s: Schema, n: Node)
    requires WellFormed(s) && n != Null && !n.List? && !n.Struct?
    ensures TaggedNode(s, TagOf(n), ReadMembers(Body(n))) == Some(n)
  {
    hide ItemsOf, FieldsOf, IntsOf, Numbers, ReadAll;
    assert TagOf(n) in VALUE_TAGS;
    match n {
      case IntList(ints) =>
        IntsReadBack(ints);
        OneRead("items", JArray(Numbers(ints)));
      case OidList(oids) =>
        IntsReadBack(oids);
        OneRead("items", JArray(Numbers(oids)));
      case Integer(i) => OneRead("ival", JNumber(i));
      case Float(t) => OneRead("str", TokenJson(t));
      case String(t) => OneRead("str", TokenJson(t));
      case BitString(t) => OneRead("str", TokenJson(t));
      case NullValue => NoneRead();
    }
  }

  lemma OneRead(name: string, j: Json)
    ensures ReadMembers([Member(name, j)]) == [Member(name, Read(j))]
  {
    hide Read;
    assert [Member(name, j)][1..] == [];
  }

  lemma TaggedReads(s: Schema, n: Node)
    requires n != Null
    ensures NodeOf(s, Read(NodeJson(n))) == TaggedNode(s, TagOf(n), ReadMembers(Body(n)))
  {
    hide Body, TaggedNode;
    OneRead(TagOf(n), JObject(Body(n)));
  }

  lemma {:induction false} IntsReadBack(ns: seq<int>)
    ensures IntsOf(ReadAll(Numbers(ns))) == Some(ns)
  {
    hide ReadAll;
    if ns == [] {
      NoneRead();
    } else {
      var front, last := ns[..|ns| - 1], ns[|ns| - 1];
      IntsReadBack(front);
      ReadAllSnoc(Numbers(front), JNumber(last));
      assert Numbers(ns) == Numbers(front) + [JNumber(last)];
      var js := ReadAll(Numbers(ns));
      assert js == ReadAll(Numbers(front)) + [JNumber(last)];
      assert js[..|js| - 1] == ReadAll(Numbers(front)) && front + [last] == ns;
    }
  }

  lemma NoneRead()
    ensures ReadAll([]) == [] && ReadMembers([]) == []
  {}

  lemma {:induction false} ItemsReadBack(s: Schema, items: seq<Node>)
    requires WellFormed(s) && forall i :: 0 <= i < |items| ==> Typed(s, items[i])
    ensures ItemsOf(s, ReadAll(ItemsJson(items))) == Some(items)
    decreases items, 0
  {
    hide WellFormed, Typed, ReadAll, Read, NodeJson, ItemOf;
    if items == [] {
      NoneRead();
    } else {
      var front, last := items[..|items| - 1], items[|items| - 1];
      ItemsReadBack(s, front);
      NodeReadBack(s, last);
      ItemReadBack(s, last);
      ReadAllSnoc(ItemsJson(front), ItemJson(last));
      assert ItemsJson(items) == ItemsJson(front) + [ItemJson(last)];
      var js := ReadAll(ItemsJson(items));
      assert js == ReadAll(ItemsJson(front)) + [Read(ItemJson(last))];
      assert js[..|js| - 1] == ReadAll(ItemsJson(front)) && front + [last] == items;
    }
  }

  lemma ItemReadBack(s: Schema, n: Node)
    requires NodeOf(s, Read(NodeJson(n))) == Some(n)
    ensures ItemOf(s, Read(ItemJson(n))) == Some(n)
  {
    hide Body;
    NoneRead();
    if n != Null { OneRead(TagOf(n), JObject(Body(n))); }
  }

  lemma StructReadBack(s: Schema, n: Node)
    requires WellFormed(s) && n.Struct? && n.tag in s && FieldsTyped(s, s[n.tag], n.fields)
    ensures TaggedNode(s, TagOf(n), ReadMembers(Body(n))) == Some(n)
    decreases n, 0
  {
    FieldsReadBack(s, n.tag, n.fields);
    hide FieldsOf, FieldsJson, FieldsTyped;
  }

  /** The fields of a struct are read back from its members. */
  lemma FieldsReadBack(s: Schema, tag: string, fields: seq<Field>)
    requires WellFormed(s) && tag in s && FieldsTyped(s, s[tag], fields)
    ensures FieldsOf(s, s[tag], Shown(fields), |s[tag]|) == Some(fields)
    decreases fields, 1
  {
    var slots := s[tag];
    FieldNames(s, slots, fields);
    hide FieldsTyped, FieldTyped, FieldsOf, Shown, Finds, WellFormed;
    forall k | 0 <= k < |fields| ensures FieldOf(s, slots[k], Shown(fields)) == Some(fields[k].value) {
      FieldShown(fields, k);
      FieldReadBack(s, slots[k], fields[k], Shown(fields)) by { assert fields[k] in fields; }
    }
    FirstFields(s, slots, fields, |fields|);
    assert fields[..|fields|] == fields;
  }

  lemma FieldNames(s: Schema, slots: seq<Slot>, fields: seq<Field>)
    requires FieldsTyped(s, slots, fields)
    ensures |slots| == |fields| && (Distinct(slots) ==> NamedApart(fields))
    ensures forall k :: 0 <= k < |fields| ==> fields[k].name == slots[k].name && FieldTyped(s, slots[k].kind, fields[k])
  {
    hide FieldTyped;
  }

  lemma {:induction false} FirstFields(s: Schema, slots: seq<Slot>, fields: seq<Field>, k: nat)
    requires k <= |fields| == |slots|
    requires forall i :: 0 <= i < |fields| ==>
      fields[i].name == slots[i].name && FieldOf(s, slots[i], Shown(fields)) == Some(fields[i].value)
    ensures FieldsOf(s, slots, Shown(fields), k) == Some(fields[..k])
    decreases k
  {
    hide FieldOf, Shown;
    if k > 0 {
      FirstFields(s, slots, fields, k - 1);
      assert fields[..k] == fields[..k - 1] + [Field(slots[k - 1].name, fields[k - 1].value)];
    }
  }

  lemma FieldReadBack(s: Schema, slot: Slot, f: Field, ms: seq<Member>)
    requires WellFormed(s) && f.name == slot.name && FieldTyped(s, slot.kind, f) && Finds(ms, f)
    ensures FieldOf(s, slot, ms) == Some(f.value)
    decreases f, 2
  {
    hide FieldTyped, FieldJson, ValueOf, Read, Default;
    if FieldJson(f).Some? {
      ValueReadBack(s, slot.kind, f);
    } else {
      DefaultReadBack(s, slot.kind, f);
    }
  }

  lemma DefaultReadBack(s: Schema, kind: Kind, f: Field)
    requires FieldTyped(s, kind, f) && FieldJson(f).None?
    ensures Default(kind) == Some(f.value)
  {
    hide NodeJson, ItemsJson, FieldsJson, Typed, FieldsTyped;
  }

  lemma ValueReadBack(s: Schema, kind: Kind, f: Field)
    requires WellFormed(s) && FieldTyped(s, kind, f) && FieldJson(f).Some?
    ensures ValueOf(s, kind, Read(FieldJson(f).value)) == Some(f.value)
    decreases f, 1
  {
    hide NodeJson, ItemsJson, FieldsJson, Typed, FieldsTyped, WellFormed, NodeOf, ItemsOf, FieldsOf, ReadAll, ReadMembers;
    match f.value {
      case ListOf(items) =>
        ItemsReadBack(s, items);
      case NodeHere(n) => NodeReadBack(s, n);
      case NodeAt(n) => NodeReadBack(s, n);
      case Part(part) =>
        FieldsReadBack(s, kind.tag, part);
      case _ =>
    }
  }

  // ----- the document

  function StmtOf(s: Schema, j: Json): Option<seq<Field>> {
    if j.JObject? && "RawStmt" in s then FieldsOf(s, s["RawStmt"], j.members, |s["RawStmt"]|) else None
  }

  function EachStmt(s: Schema, items: seq<Json>): Option<seq<seq<Field>>> {
    if items == [] then Some([])
    else
      var front, last := EachStmt(s, items[..|items| - 1]), StmtOf(s, items[|items| - 1]);
      if front.Some? && last.Some? then Some(front.value + [last.value]) else None
  }

  /** The statements of a document of version 130003. */
  function StmtsOf(s: Schema, j: Option<Json>): Option<seq<seq<Field>>> {
    match j
    case Some(JObject(ms)) =>
      if |ms| == 2 && ms[0] == Member("version", JNumber(130003)) && ms[1].name == "stmts" && ms[1].value.JArray? then
        EachStmt(s, ms[1].value.items)
      else None
    case _ => None
  }

  ghost predicate StmtsTyped(s: Schema, stmts: seq<seq<Field>>) {
    "RawStmt" in s && forall i :: 0 <= i < |stmts| ==> FieldsTyped(s, s["RawStmt"], stmts[i])
  }

  lemma {:induction false} EachReadBack(s: Schema, stmts: seq<seq<Field>>)
    requires WellFormed(s) && StmtsTyped(s, stmts)
    ensures EachStmt(s, ReadAll(StmtsJson(stmts))) == Some(stmts)
  {
    hide WellFormed, FieldsTyped, ReadAll, FieldsOf, FieldsJson;
    if stmts == [] {
      NoneRead();
    } else {
      var front, last := stmts[..|stmts| - 1], stmts[|stmts| - 1];
      EachReadBack(s, front);
      FieldsReadBack(s, "RawStmt", last);
      ReadAllSnoc(StmtsJson(front), JObject(FieldsJson(last)));
      assert StmtsJson(stmts) == StmtsJson(front) + [JObject(FieldsJson(last))];
      var js := ReadAll(StmtsJson(stmts));
      assert js == ReadAll(StmtsJson(front)) + [JObject(Shown(last))];
      assert js[..|js| - 1] == ReadAll(StmtsJson(front)) && front + [last] == stmts;
    }
  }

  /** Main result: from the value of a document the reader gets every field of every node of
      the statements back. */
  lemma DocumentReadBack(s: Schema, stmts: seq<seq<Field>>)
    requires WellFormed(s) && StmtsTyped(s, stmts)
    ensures StmtsOf(s, Some(Read(Document(stmts)))) == Some(stmts)
  {
    hide WellFormed, StmtsTyped, StmtsJson, EachStmt;
    EachReadBack(s, stmts);
    DocumentRead(stmts);
  }

  lemma DocumentRead(stmts: seq<seq<Field>>)
    ensures Read(Document(stmts)) == JObject([Member("version", JNumber(130003)), Member("stmts", JArray(ReadAll(StmtsJson(stmts))))])
  {
    hide StmtsJson, ReadAll;
    var a, b := Member("version", JNumber(PG_VERSION_NUM)), Member("stmts", JArray(StmtsJson(stmts)));
    OneRead(a.name, a.value);
    ReadMembersSnoc([a], b);
    assert [a] + [b] == [a, b];
  }
}
