/** The parse tree that the fingerprint walk reads, and what the walk does at
    each kind of node.

    A struct is a tag and its fields in the order in which the generated
    functions handle them (sorted by field name). A NULL pointer is `Null`.
    List nodes carry the identity of their pointer. */
module ParseTree {
  import opened Common

  /** C identifiers: node tags and field names. */
  type Name = s: string | |s| > 0 witness "x"

  datatype Node =
    | Null
    | List(id: nat, items: seq<Node>)
    | Integer(ival: int)
    | Float(str: Option<string>)
    | String(text: string)
    | BitString(bits: Option<string>)
    | Struct(tag: Name, fields: seq<Field>)

  datatype Field = Field(name: Name, value: Value)

  datatype Value =
    | Num(n: int)
    | Chr(c: char)
    | Str(str: Option<string>)
    | Bool(b: bool)
    | Enum(constant: string)
    | Real(text: Option<string>)           // as `%f` prints it, None for zero
    | Bits(members: seq<nat>)              // a Bitmapset, in increasing order
    | Embedded(target: Node)               // a struct stored in the struct
    | Pointer(kind: PointerKind, target: Node)

  /** `Node *`, `List *` and pointers to one struct type use the same template;
      they differ in the guard and in the function that is called. */
  datatype PointerKind = NodePtr | ListPtr | SpecificPtr

  /** One call of the walk: the node, the tag of its parent struct, the field it
      hangs on, the depth, and whether the struct's own function is called
      directly, without going through the dispatch on the tag. */
  datatype Visit = Visit(node: Node, parent: Option<Name>, field: Option<Name>, depth: nat, direct: bool)

  function Root(tree: Node): Visit {
    Visit(tree, None, None, 0, false)
  }

  /** What one call does. */
  datatype Plan =
    | Steps(steps: seq<Step>)
    | Canonical(kids: seq<Visit>)

  datatype Step =
    | Emit(tokens: seq<string>)            // feed these strings
    | Plain(kid: Visit)                    // walk one list item
    | Inlined(name: Name, child: Visit)    // feed the field name and walk, whatever comes
    | Guarded(name: Name, child: Visit)    // feed the field name, walk, roll back if nothing came

  const MAX_DEPTH: nat := 100

  const SKIPPED_TAGS: set<string> :=
    {"A_Const", "Alias", "ParamRef", "SetToDefault", "IntList", "OidList", "Null"}

  const SORTED_FIELDS: set<string> :=
    {"fromClause", "targetList", "cols", "rexpr", "valuesLists", "args"}

  predicate IsSortedField(field: Option<Name>) {
    field.Some? && field.value in SORTED_FIELDS
  }

  predicate IsSkippedField(tag: string, name: string) {
    || name == "location"
    || (tag in {"PrepareStmt", "ExecuteStmt", "DeallocateStmt"} && name == "name")
    || (tag == "TransactionStmt" && name in {"options", "gid", "savepoint_name"})
    || (tag in {"DeclareCursorStmt", "FetchStmt", "ClosePortalStmt"} && name == "portalname")
    || (tag == "RawStmt" && name in {"stmt_len", "stmt_location"})
  }

  function Lookup(fields: seq<Field>, name: string): (v: Option<Value>)
    ensures v.Some? ==> exists i :: 0 <= i < |fields| && fields[i].name == name && fields[i].value == v.value
    ensures v.None? ==> forall i :: 0 <= i < |fields| ==> fields[i].name != name
  {
    if fields == [] then None
    else if fields[0].name == name then Some(fields[0].value)
    else
      var rest := Lookup(fields[1..], name);
      assert forall i :: 0 < i < |fields| ==> fields[i] == fields[1..][i - 1];
      assert rest.Some? ==> exists i :: 0 <= i < |fields[1..]| && fields[1..][i].name == name && fields[1..][i].value == rest.value;
      rest
  }

  /** A cast whose argument is a constant or a parameter is not fingerprinted. */
  predicate CastsConstant(tag: Name, fields: seq<Field>) {
    tag == "TypeCast" &&
    var arg := Lookup(fields, "arg");
    arg.Some? && arg.value.Pointer? && arg.value.target.Struct? && arg.value.target.tag in {"A_Const", "ParamRef"}
  }

  // ----- relation names

  predicate InDigitRun(s: string, i: nat)
    requires i < |s|
  {
    IsDigit(s[i]) && ((i + 1 < |s| && IsDigit(s[i + 1])) || (i > 0 && IsDigit(s[i - 1])))
  }

  /** The first k characters without those that belong to a run of two or more digits. */
  function Stripped(s: string, k: nat): (r: string)
    requires k <= |s|
    ensures |r| <= k
  {
    if k == 0 then ""
    else if InDigitRun(s, k - 1) then Stripped(s, k - 1)
    else Stripped(s, k - 1) + [s[k - 1]]
  }

  function StripDigitRuns(s: string): string {
    Stripped(s, |s|)
  }

  // ----- templates

  /** What the template of a scalar field feeds: nothing, or the name and the value. */
  function ScalarTokens(v: Visit, f: Field): (r: seq<string>)
    requires v.node.Struct?
    ensures r == [] || r[0] == f.name
  {
    var tag := v.node.tag;
    if IsSkippedField(tag, f.name) then []
    else match f.value
      case Num(n) => if n != 0 then [f.name, Decimal(n)] else []
      case Chr(c) => if c != '\0' then [f.name, [c]] else []
      case Bool(b) => if b then [f.name, "true"] else []
      case Enum(constant) =>
        [f.name, if tag == "A_Expr" && f.name == "kind" && constant in {"AEXPR_OP_ANY", "AEXPR_IN"} then "AEXPR_OP" else constant]
      case Str(None) => []
      case Str(Some(s)) =>
        if tag == "ResTarget" && f.name == "name" then
          if v.parent == Some("SelectStmt") && v.field == Some("targetList") then [] else [f.name, s]
        else if tag == "RangeVar" && f.name == "relname" then
          if Lookup(v.node.fields, "relpersistence") == Some(Chr('t')) then [] else [f.name, StripDigitRuns(s)]
        else [f.name, s]
      case Real(text) => if text.Some? then [f.name, text.value] else []
      case Bits(members) => [f.name] + seq(|members|, i requires 0 <= i < |members| => Decimal(members[i]))
      case Embedded(_) => []
      case Pointer(_, _) => []
  }

  function FieldStep(v: Visit, k: nat): (s: Step)
    requires v.node.Struct? && k < |v.node.fields|
    ensures s.Guarded? || s.Inlined? ==> s.child.node < v.node
    ensures !s.Plain?
    ensures s.Emit? ==> Speaks(s.tokens)
  {
    var f := v.node.fields[k];
    if f.value.Pointer? && !IsSkippedField(v.node.tag, f.name) && PointerIsSet(f.value.kind, f.value.target) then
      assert f.value.target < f.value && f.value < f && f < v.node;
      Guarded(f.name, Visit(f.value.target, Some(v.node.tag), Some(f.name), v.depth + 1, f.value.kind == SpecificPtr))
    else if f.value.Embedded? && !IsSkippedField(v.node.tag, f.name) then
      assert f.value.target < f.value && f.value < f && f < v.node;
      Inlined(f.name, Visit(f.value.target, Some(v.node.tag), Some(f.name), v.depth, true))
    else
      var tokens := ScalarTokens(v, f);
      assert tokens != [] ==> |Flatten(tokens)| > 0 by {
        if tokens != [] { FlattenHead(tokens); }
      }
      Emit(tokens)
  }

  predicate PointerIsSet(kind: PointerKind, target: Node) {
    target != Null && (kind == ListPtr && target.List? ==> |target.items| > 0)
  }

  /** Tokens either are absent or feed at least one byte. */
  predicate Speaks(tokens: seq<string>) {
    tokens == [] || |Flatten(tokens)| > 0
  }

  function Flatten(tokens: seq<string>): string {
    if tokens == [] then "" else Flatten(tokens[..|tokens| - 1]) + tokens[|tokens| - 1]
  }

  lemma {:induction false} FlattenConcat(a: seq<string>, b: seq<string>)
    ensures Flatten(a + b) == Flatten(a) + Flatten(b)
  {
    if b == [] {
      assert a + b == a;
    } else {
      var n := |a + b| - 1;
      assert (a + b)[..n] == a + b[..|b| - 1] && (a + b)[n] == b[|b| - 1];
      FlattenConcat(a, b[..|b| - 1]);
    }
  }

  lemma FlattenHead(tokens: seq<string>)
    requires |tokens| > 0
    ensures |Flatten(tokens)| >= |tokens[0]|
  {}

  /** The body of a struct's own function, as one step per field. */
  function FieldSteps(v: Visit): (r: seq<Step>)
    requires v.node.Struct?
    ensures |r| == |v.node.fields|
    ensures forall i :: 0 <= i < |r| ==> r[i] == FieldStep(v, i)
  {
    seq(|v.node.fields|, i requires 0 <= i < |v.node.fields| => FieldStep(v, i))
  }

  ghost predicate StepBelow(s: Step, v: Visit) {
    match s
    case Emit(tokens) => Speaks(tokens)
    case Plain(kid) => kid.node < v.node
    case Inlined(_, child) => child.node < v.node
    case Guarded(_, child) => child.node < v.node
  }

  ghost predicate PlanBelow(p: Plan, v: Visit) {
    match p
    case Steps(steps) => forall i :: 0 <= i < |steps| ==> StepBelow(steps[i], v)
    case Canonical(kids) => forall i :: 0 <= i < |kids| ==> kids[i].node < v.node
  }

  function ItemVisits(v: Visit): (r: seq<Visit>)
    requires v.node.List?
    ensures |r| == |v.node.items|
    ensures forall i :: 0 <= i < |r| ==>
      r[i] == Visit(v.node.items[i], v.parent, v.field, v.depth + 1, false) && r[i].node < v.node
  {
    seq(|v.node.items|, i requires 0 <= i < |v.node.items| => Visit(v.node.items[i], v.parent, v.field, v.depth + 1, false))
  }

  function Say(tokens: seq<string>): (p: Plan)
    requires tokens != [] && |tokens[0]| > 0
    ensures p == Steps([Emit(tokens)]) && Speaks(tokens)
  {
    FlattenHead(tokens);
    Steps([Emit(tokens)])
  }

  /** The dispatch on the node tag: what this visit does, in order. A direct call
      of a struct's function skips the depth test, the dispatch and the tag. */
  function PlanOf(v: Visit): (p: Plan)
    ensures PlanBelow(p, v)
  {
    if v.direct then
      if v.node.Struct? && v.node.tag !in SKIPPED_TAGS then Steps(FieldSteps(v)) else Steps([])
    else if v.depth >= MAX_DEPTH then Steps([])
    else match v.node
      case Null => Steps([])
      case List(_, _) =>
        var kids := ItemVisits(v);
        if IsSortedField(v.field) then Canonical(kids)
        else Steps(seq(|kids|, i requires 0 <= i < |kids| => Plain(kids[i])))
      case Integer(i) => if i != 0 then Say(["Integer", "ival", Decimal(i)]) else Steps([])
      case Float(s) => if s.Some? then Say(["Float", "str", s.value]) else Steps([])
      case String(s) => Say(["String", "str", s])
      case BitString(s) => if s.Some? then Say(["BitString", "str", s.value]) else Steps([])
      case Struct(tag, fields) =>
        if tag in SKIPPED_TAGS || CastsConstant(tag, fields) then Steps([])
        else
          FlattenHead([tag]);
          Steps([Emit([tag])] + FieldSteps(v))
  }
}
