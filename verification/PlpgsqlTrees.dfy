/** Compiled PL/pgSQL functions and the JSON values they are written as. */
module PlpgsqlTrees {
  import opened Common
  import opened Json
  import opened JsonWriter

  /** A statement, datum, expression or helper struct: what its dump function prints. */
  datatype Node = Node(tag: Ident, fields: seq<Field>)

  datatype Field = Field(name: Ident, value: Value)

  /** A field's value, by the macro that writes it: `Absent` is a NULL string, struct or
      list. `Chain` is the condition chain of an exception, printed even when empty. */
  datatype Value =
    | Num(n: int)
    | Code(n: int)
    | Flag(b: bool)
    | Str(text: string)
    | Absent
    | Obj(node: Node)
    | ListOf(items: seq<Node>)
    | Statements(items: seq<Node>)
    | Chain(items: seq<Node>)
    | Columns(columns: seq<Option<Column>>)

  /** A row's field: its name and variable number. */
  datatype Column = Column(name: string, varno: int)

  // ----- the intended value

  function NodeJson(n: Node): Json
    decreases n, 1
  {
    JObject([Member(n.tag, JObject(FieldsJson(n.fields)))])
  }

  function NodesJson(items: seq<Node>): seq<Json>
    decreases items, 0
  {
    if items == [] then [] else NodesJson(items[..|items| - 1]) + [NodeJson(items[|items| - 1])]
  }

  function ColumnMembers(c: Column): seq<Member> {
    [Member("name", JString(c.name))] + if c.varno != 0 then [Member("varno", JNumber(c.varno))] else []
  }

  function ColumnJson(c: Option<Column>): Json {
    if c.Some? then JObject(ColumnMembers(c.value)) else JNull
  }

  function ColumnsJson(columns: seq<Option<Column>>): seq<Json> {
    if columns == [] then []
    else ColumnsJson(columns[..|columns| - 1]) + [ColumnJson(columns[|columns| - 1])]
  }

  function FieldJson(f: Field): Option<Json>
    decreases f, 1
  {
    match f.value
    case Num(n) => if n != 0 then Some(JNumber(n)) else None
    case Code(n) => Some(JNumber(n))
    case Flag(b) => if b then Some(JBool(true)) else None
    case Str(t) => Some(JString(t))
    case Absent => None
    case Obj(n) => Some(NodeJson(n))
    case ListOf(items) => Some(JArray(NodesJson(items)))
    case Statements(items) => Some(JArray(NodesJson(items)))
    case Chain(items) => Some(JArray(NodesJson(items)))
    case Columns(columns) => Some(JArray(ColumnsJson(columns)))
  }

  function FieldsJson(fields: seq<Field>): seq<Member>
    decreases fields, 0
  {
    if fields == [] then []
    else
      var last := fields[|fields| - 1];
      FieldsJson(fields[..|fields| - 1]) + OptionalMember(last.name, FieldJson(last))
  }

  // ----- the function

  /** A datum of one of the five printed kinds, or of another kind (a promise). */
  datatype Datum = Known(node: Node) | Unrecognised

  datatype Function = Function(newVarno: int, oldVarno: int, datums: seq<Datum>, action: Option<Node>)

  predicate Recognised(datums: seq<Datum>) {
    forall i :: 0 <= i < |datums| ==> datums[i].Known?
  }

  function DatumsJson(datums: seq<Datum>): seq<Json>
    requires Recognised(datums)
  {
    if datums == [] then [] else [NodeJson(datums[0].node)] + DatumsJson(datums[1..])
  }

  function Head(f: Function): seq<Member> {
    (if f.newVarno != 0 then [Member("new_varno", JNumber(f.newVarno))] else []) +
    (if f.oldVarno != 0 then [Member("old_varno", JNumber(f.oldVarno))] else [])
  }

  function Tail(f: Function): seq<Member> {
    if f.action.Some? then [Member("action", NodeJson(f.action.value))] else []
  }

  function Members(f: Function): seq<Member>
    requires Recognised(f.datums)
  {
    Head(f) + [Member("datums", JArray(DatumsJson(f.datums)))] + Tail(f)
  }

  function FunctionJson(f: Function): Json
    requires Recognised(f.datums)
  {
    JObject([Member("PLpgSQL_function", JObject(Members(f)))])
  }
}
