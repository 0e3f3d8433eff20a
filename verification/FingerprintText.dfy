/** The text of a tree, written out node by node and field by field: what a fingerprint is
    the digest of. A walk without digest collisions feeds exactly this text. */
module FingerprintText {
  import opened Common
  import opened ParseTree
  import opened FingerprintWalk
  import opened FingerprintMeaning

  /** Fields that are never fed. */
  predicate Ignored(tag: string, name: string) {
    match name
    case "location" => true
    case "name" => tag == "PrepareStmt" || tag == "ExecuteStmt" || tag == "DeallocateStmt"
    case "options" => tag == "TransactionStmt"
    case "gid" => tag == "TransactionStmt"
    case "savepoint_name" => tag == "TransactionStmt"
    case "portalname" => tag == "DeclareCursorStmt" || tag == "FetchStmt" || tag == "ClosePortalStmt"
    case "stmt_len" => tag == "RawStmt"
    case "stmt_location" => tag == "RawStmt"
    case _ => false
  }

  /** Nodes that are never fed. */
  predicate SilentTag(tag: string) {
    match tag
    case "A_Const" => true
    case "Alias" => true
    case "ParamRef" => true
    case "SetToDefault" => true
    case "IntList" => true
    case "OidList" => true
    case "Null" => true
    case _ => false
  }

  /** Lists of which order and repetition do not matter. */
  predicate Unordered(field: Option<Name>) {
    match field
    case Some("fromClause") => true
    case Some("targetList") => true
    case Some("cols") => true
    case Some("rexpr") => true
    case Some("valuesLists") => true
    case Some("args") => true
    case _ => false
  }

  ghost predicate FirstNamed(fields: seq<Field>, name: string, i: nat) {
    i < |fields| && fields[i].name == name && forall j :: 0 <= j < i ==> fields[j].name != name
  }

  /** The relation is temporary: its name does not count. */
  ghost predicate Temporary(fields: seq<Field>) {
    exists i: nat :: FirstNamed(fields, "relpersistence", i) && fields[i].value == Chr('t')
  }

  ghost predicate CastOfConstant(fields: seq<Field>) {
    exists i: nat :: FirstNamed(fields, "arg", i) && fields[i].value.Pointer? && fields[i].value.target.Struct?
      && (fields[i].value.target.tag == "A_Const" || fields[i].value.target.tag == "ParamRef")
  }

  /** A name counts only if something follows it. */
  function Named(name: string, text: string): string {
    if text == "" then "" else name + text
  }

  function Numbers(ns: seq<nat>): string {
    if ns == [] then "" else Numbers(ns[..|ns| - 1]) + Decimal(ns[|ns| - 1])
  }

  /** The text of a field that holds no node. */
  ghost function ScalarText(n: Node, f: Field, parent: Option<Name>, field: Option<Name>): (r: string)
    requires n.Struct?
    ensures r == "" || f.name <= r
  {
    match f.value
    case Num(i) => if i == 0 then "" else f.name + Decimal(i)
    case Chr(c) => if c == '\0' then "" else f.name + [c]
    case Bool(b) => if b then f.name + "true" else ""
    case Enum(constant) =>
      if n.tag == "A_Expr" && f.name == "kind" && (constant == "AEXPR_OP_ANY" || constant == "AEXPR_IN") then "kindAEXPR_OP"
      else f.name + constant
    case Str(None) => ""
    case Str(Some(s)) =>
      if n.tag == "ResTarget" && f.name == "name" && parent == Some("SelectStmt") && field == Some("targetList") then ""
      else if n.tag == "RangeVar" && f.name == "relname" then (if Temporary(n.fields) then "" else "relname" + StripDigitRuns(s))
      else f.name + s
    case Real(None) => ""
    case Real(Some(s)) => f.name + s
    case Bits(members) => f.name + Numbers(members)
    case _ => ""
  }

  /** The text of a node that stands in a field of a parent struct, at a depth. */
  ghost function Text(digest: string -> nat, n: Node, parent: Option<Name>, field: Option<Name>, depth: nat): string
    decreases n, 2, 0
  {
    if depth >= 100 then ""
    else match n
      case Null => ""
      case Integer(i) => if i == 0 then "" else "Integerival" + Decimal(i)
      case Float(None) => ""
      case Float(Some(s)) => "Floatstr" + s
      case String(s) => "Stringstr" + s
      case BitString(None) => ""
      case BitString(Some(s)) => "BitStringstr" + s
      case List(_, items) =>
        if Unordered(field) then Join(digest, MemberTexts(digest, items, parent, field, depth + 1))
        else ItemsText(digest, items, parent, field, depth + 1, |items|)
      case Struct(tag, fields) =>
        if SilentTag(tag) || (tag == "TypeCast" && CastOfConstant(fields)) then ""
        else tag + FieldsText(digest, n, parent, field, depth, |fields|)
  }

  /** The first k items, one after the other. */
  ghost function ItemsText(digest: string -> nat, items: seq<Node>, parent: Option<Name>, field: Option<Name>, depth: nat, k: nat): string
    requires k <= |items|
    decreases items, 0, k
  {
    if k == 0 then ""
    else ItemsText(digest, items, parent, field, depth, k - 1) + Text(digest, items[k - 1], parent, field, depth)
  }

  /** The texts of the items that have any. */
  ghost function MemberTexts(digest: string -> nat, items: seq<Node>, parent: Option<Name>, field: Option<Name>, depth: nat): set<string>
    decreases items, 0, 0
  {
    set i | 0 <= i < |items| && Text(digest, items[i], parent, field, depth) != "" :: Text(digest, items[i], parent, field, depth)
  }

  /** The first k fields of a struct. */
  ghost function FieldsText(digest: string -> nat, n: Node, parent: Option<Name>, field: Option<Name>, depth: nat, k: nat): string
    requires n.Struct? && k <= |n.fields|
    decreases n, 0, k
  {
    if k == 0 then ""
    else FieldsText(digest, n, parent, field, depth, k - 1) + FieldText(digest, n, parent, field, depth, k - 1)
  }

  /** A struct stored in the struct counts with its name in any case, a pointer only if
      something follows; structs of a known type come without their tag. */
  ghost function FieldText(digest: string -> nat, n: Node, parent: Option<Name>, field: Option<Name>, depth: nat, k: nat): string
    requires n.Struct? && k < |n.fields|
    decreases n, 0, k
  {
    var f := n.fields[k];
    assert f.value < f < n;
    if Ignored(n.tag, f.name) then ""
    else match f.value
      case Embedded(x) => f.name + OwnText(digest, x, Some(n.tag), Some(f.name), depth)
      case Pointer(SpecificPtr, x) => Named(f.name, OwnText(digest, x, Some(n.tag), Some(f.name), depth + 1))
      case Pointer(_, x) => Named(f.name, Text(digest, x, Some(n.tag), Some(f.name), depth + 1))
      case _ => ScalarText(n, f, parent, field)
  }

  /** A struct without its tag. */
  ghost function OwnText(digest: string -> nat, n: Node, parent: Option<Name>, field: Option<Name>, depth: nat): string
    decreases n, 1, 0
  {
    if n.Struct? && !SilentTag(n.tag) then FieldsText(digest, n, parent, field, depth, |n.fields|) else ""
  }

  // ----- a walk feeds the text

  ghost function VisitText(digest: string -> nat, v: Visit): string {
    if v.direct then OwnText(digest, v.node, v.parent, v.field, v.depth)
    else Text(digest, v.node, v.parent, v.field, v.depth)
  }

  lemma {:induction false} LookupFirst(fields: seq<Field>, name: string)
    ensures Lookup(fields, name).Some? <==> exists i: nat :: FirstNamed(fields, name, i)
    ensures forall i: nat :: FirstNamed(fields, name, i) ==> Lookup(fields, name) == Some(fields[i].value)
  {
    if fields != [] {
      if fields[0].name == name {
        assert FirstNamed(fields, name, 0);
      } else {
        LookupFirst(fields[1..], name);
        forall i: nat ensures FirstNamed(fields[1..], name, i) <==> FirstNamed(fields, name, i + 1) {
          ShiftNamed(fields, name, i);
        }
        forall i: nat | FirstNamed(fields, name, i) ensures i > 0 && FirstNamed(fields[1..], name, i - 1) {}
      }
    }
  }

  lemma ShiftNamed(fields: seq<Field>, name: string, i: nat)
    requires fields != [] && fields[0].name != name
    ensures FirstNamed(fields[1..], name, i) <==> FirstNamed(fields, name, i + 1)
  {
    var rest := fields[1..];
    assert forall j :: 0 <= j < |rest| ==> rest[j] == fields[j + 1];
    if FirstNamed(rest, name, i) {
      forall j | 0 <= j < i + 1 ensures fields[j].name != name {
        if j > 0 { assert rest[j - 1].name != name; }
      }
    }
  }

  lemma RulesAgree(tag: string, name: string, field: Option<Name>)
    ensures Ignored(tag, name) <==> IsSkippedField(tag, name)
    ensures SilentTag(tag) <==> tag in SKIPPED_TAGS
    ensures Unordered(field) <==> IsSortedField(field)
  {}

  lemma CastsAgree(tag: Name, fields: seq<Field>)
    ensures CastsConstant(tag, fields) <==> tag == "TypeCast" && CastOfConstant(fields)
  {
    LookupFirst(fields, "arg");
    hide Lookup, FirstNamed;
  }

  lemma TemporaryAgrees(fields: seq<Field>)
    ensures Lookup(fields, "relpersistence") == Some(Chr('t')) <==> Temporary(fields)
  {
    LookupFirst(fields, "relpersistence");
    hide Lookup, FirstNamed;
  }

  lemma FlattenTwo(a: string, b: string)
    ensures Flatten([a, b]) == a + b
  {
    assert [a, b][..1] == [a] && [a][..0] == [];
    assert Flatten([a]) == "" + a == a;
  }

  lemma FlattenThree(a: string, b: string, c: string)
    ensures Flatten([a, b, c]) == a + b + c
  {
    FlattenTwo(a, b);
    assert [a, b, c][..2] == [a, b];
  }

  function NumberTokens(ns: seq<nat>): (r: seq<string>)
    ensures |r| == |ns| && forall i :: 0 <= i < |r| ==> r[i] == Decimal(ns[i])
  {
    seq(|ns|, i requires 0 <= i < |ns| => Decimal(ns[i]))
  }

  lemma {:induction false} FlattenNumbers(ns: seq<nat>)
    ensures Flatten(NumberTokens(ns)) == Numbers(ns)
  {
    hide Decimal;
    if ns != [] {
      var front := ns[..|ns| - 1];
      FlattenNumbers(front);
      assert NumberTokens(ns)[..|ns| - 1] == NumberTokens(front);
    }
  }

  lemma BitsTokens(name: string, ns: seq<nat>)
    ensures Flatten([name] + NumberTokens(ns)) == name + Numbers(ns)
  {
    FlattenConcat([name], NumberTokens(ns));
    FlattenNumbers(ns);
    assert [name][..0] == [];
    assert Flatten([name]) == "" + name == name;
  }

  /** The template of a scalar field feeds its text. */
  lemma ScalarsAgree(v: Visit, f: Field)
    requires v.node.Struct? && !Ignored(v.node.tag, f.name) && !f.value.Pointer? && !f.value.Embedded?
    ensures Flatten(ScalarTokens(v, f)) == ScalarText(v.node, f, v.parent, v.field)
  {
    RulesAgree(v.node.tag, f.name, None);
    hide IsSkippedField, Ignored, Lookup, Temporary, Flatten, StripDigitRuns, Decimal;
    match f.value {
      case Str(_) => StringsAgree(v, f);
      case Enum(_) => EnumsAgree(v, f);
      case Bits(members) =>
        BitsTokens(f.name, members);
        assert ScalarTokens(v, f) == [f.name] + NumberTokens(members);
      case Num(n) =>
        FlattenTwo(f.name, Decimal(n));
        NoTokens();
      case Chr(c) =>
        FlattenTwo(f.name, [c]);
        NoTokens();
      case Bool(b) =>
        FlattenTwo(f.name, "true");
        NoTokens();
      case Real(None) => NoTokens();
      case Real(Some(t)) => FlattenTwo(f.name, t);
    }
  }

  lemma EnumsAgree(v: Visit, f: Field)
    requires v.node.Struct? && !Ignored(v.node.tag, f.name) && f.value.Enum?
    ensures Flatten(ScalarTokens(v, f)) == ScalarText(v.node, f, v.parent, v.field)
  {
    RulesAgree(v.node.tag, f.name, None);
    hide IsSkippedField, Ignored, Flatten;
    FlattenTwo(f.name, f.value.constant);
    FlattenTwo(f.name, "AEXPR_OP");
    assert "kind" + "AEXPR_OP" == "kindAEXPR_OP";
  }

  lemma StringsAgree(v: Visit, f: Field)
    requires v.node.Struct? && !Ignored(v.node.tag, f.name) && f.value.Str?
    ensures Flatten(ScalarTokens(v, f)) == ScalarText(v.node, f, v.parent, v.field)
  {
    RulesAgree(v.node.tag, f.name, None);
    TemporaryAgrees(v.node.fields);
    NoTokens();
    hide IsSkippedField, Ignored, Lookup, Temporary, Flatten, StripDigitRuns;
    if f.value.str.Some? {
      FlattenTwo(f.name, f.value.str.value);
      FlattenTwo(f.name, StripDigitRuns(f.value.str.value));
    }
  }

  lemma NoTokens()
    ensures Flatten([]) == ""
  {}

  lemma SayMeans(digest: string -> nat, v: Visit, tokens: seq<string>)
    requires PlanOf(v) == Steps([Emit(tokens)])
    ensures Meaning(digest, v) == Flatten(tokens)
  {
    hide PlanOf;
    assert StepsMeaning(digest, v, 1) == StepsMeaning(digest, v, 0) + StepMeaning(digest, v, 0);
    assert "" + Flatten(tokens) == Flatten(tokens);
  }

  lemma NothingMeans(digest: string -> nat, v: Visit)
    requires PlanOf(v) == Steps([])
    ensures Meaning(digest, v) == ""
  {}

  /** Main result: what a visit means is its text. */
  lemma {:induction false} MeaningIsText(digest: string -> nat, v: Visit)
    ensures Meaning(digest, v) == VisitText(digest, v)
    decreases v.node, 1, 0
  {
    hide Meaning, Text, OwnText;
    if v.direct {
      DirectText(digest, v);
    } else if v.depth >= 100 || v.node.Null? {
      NoText(digest, v);
    } else {
      match v.node {
        case List(_, _) => ListText(digest, v);
        case Struct(_, _) => StructText(digest, v);
        case _ => LeafText(digest, v);
      }
    }
  }

  lemma NoText(digest: string -> nat, v: Visit)
    requires !v.direct && (v.depth >= 100 || v.node.Null?)
    ensures Meaning(digest, v) == VisitText(digest, v)
  {
    NothingMeans(digest, v);
    hide Meaning;
  }

  lemma LeafText(digest: string -> nat, v: Visit)
    requires !v.direct && v.depth < 100 && !v.node.List? && !v.node.Struct? && !v.node.Null?
    ensures Meaning(digest, v) == VisitText(digest, v)
  {
    hide Meaning, Flatten, Decimal;
    assert "Integer" + "ival" == "Integerival" && "Float" + "str" == "Floatstr";
    assert "String" + "str" == "Stringstr" && "BitString" + "str" == "BitStringstr";
    match v.node {
      case Integer(i) =>
        FlattenThree("Integer", "ival", Decimal(i));
        if i != 0 { SayMeans(digest, v, ["Integer", "ival", Decimal(i)]); } else { NothingMeans(digest, v); }
      case Float(s) =>
        if s.Some? {
          FlattenThree("Float", "str", s.value);
          SayMeans(digest, v, ["Float", "str", s.value]);
        } else {
          NothingMeans(digest, v);
        }
      case String(s) =>
        FlattenThree("String", "str", s);
        SayMeans(digest, v, ["String", "str", s]);
      case BitString(s) =>
        if s.Some? {
          FlattenThree("BitString", "str", s.value);
          SayMeans(digest, v, ["BitString", "str", s.value]);
        } else {
          NothingMeans(digest, v);
        }
    }
  }

  // ----- lists

  lemma ListText(digest: string -> nat, v: Visit)
    requires !v.direct && v.depth < 100 && v.node.List?
    ensures Meaning(digest, v) == VisitText(digest, v)
    decreases v.node, 0
  {
    RulesAgree("x", "x", v.field);
    hide Meaning, Text, ItemsText, MemberTexts, Join, KidMeanings, StepsMeaning;
    var items, n := v.node.items, |v.node.items|;
    ListUnfolds(digest, v);
    if Unordered(v.field) {
      MembersAgree(digest, v, n);
      MembersOfAll(digest, v);
    } else {
      ItemsAgree(digest, v, n);
    }
  }

  lemma ListUnfolds(digest: string -> nat, v: Visit)
    requires !v.direct && v.depth < 100 && v.node.List?
    ensures
      if Unordered(v.field) then
        && PlanOf(v) == Canonical(ItemVisits(v))
        && Meaning(digest, v) == Join(digest, KidMeanings(digest, v, |v.node.items|))
        && VisitText(digest, v) == Join(digest, MemberTexts(digest, v.node.items, v.parent, v.field, v.depth + 1))
      else
        && PlanOf(v).Steps? && |PlanOf(v).steps| == |v.node.items|
        && (forall i :: 0 <= i < |v.node.items| ==> PlanOf(v).steps[i] == Step.Plain(ItemVisits(v)[i]))
        && Meaning(digest, v) == StepsMeaning(digest, v, |v.node.items|)
        && VisitText(digest, v) == ItemsText(digest, v.node.items, v.parent, v.field, v.depth + 1, |v.node.items|)
  {
    RulesAgree("x", "x", v.field);
    hide Join, KidMeanings, StepsMeaning, MemberTexts, ItemsText, Unordered, IsSortedField;
  }

  lemma {:induction false} ItemsAgree(digest: string -> nat, v: Visit, k: nat)
    requires v.node.List? && k <= |v.node.items| && PlanOf(v).Steps? && |PlanOf(v).steps| == |v.node.items|
    requires forall i :: 0 <= i < |v.node.items| ==> PlanOf(v).steps[i] == Step.Plain(ItemVisits(v)[i])
    ensures StepsMeaning(digest, v, k) == ItemsText(digest, v.node.items, v.parent, v.field, v.depth + 1, k)
    decreases v.node, 0, k
  {
    hide PlanOf, Meaning, Text, OwnText;
    if k > 0 {
      ItemsAgree(digest, v, k - 1);
      MeaningIsText(digest, ItemVisits(v)[k - 1]);
    }
  }

  /** The texts of the first k members that have any. */
  lemma {:induction false} MembersAgree(digest: string -> nat, v: Visit, k: nat)
    requires v.node.List? && k <= |v.node.items| && PlanOf(v) == Canonical(ItemVisits(v))
    ensures KidMeanings(digest, v, k) ==
      set i | 0 <= i < k && Text(digest, v.node.items[i], v.parent, v.field, v.depth + 1) != "" ::
        Text(digest, v.node.items[i], v.parent, v.field, v.depth + 1)
    decreases v.node, 0, k
  {
    hide PlanOf, Meaning, Text, OwnText;
    if k > 0 {
      MembersAgree(digest, v, k - 1);
      MeaningIsText(digest, ItemVisits(v)[k - 1]);
    }
  }

  lemma MembersOfAll(digest: string -> nat, v: Visit)
    requires v.node.List?
    ensures MemberTexts(digest, v.node.items, v.parent, v.field, v.depth + 1) ==
      set i | 0 <= i < |v.node.items| && Text(digest, v.node.items[i], v.parent, v.field, v.depth + 1) != "" ::
        Text(digest, v.node.items[i], v.parent, v.field, v.depth + 1)
  {
    hide Text;
  }

  // ----- structs

  lemma DirectText(digest: string -> nat, v: Visit)
    requires v.direct
    ensures Meaning(digest, v) == VisitText(digest, v)
    decreases v.node, 0
  {
    hide *;
    if v.node.Struct? && !SilentTag(v.node.tag) {
      DirectUnfolds(digest, v);
      FieldsAgree(digest, v, 0, |v.node.fields|);
      EmptyFront(FieldsText(digest, v.node, v.parent, v.field, v.depth, |v.node.fields|));
    } else {
      SilentUnfolds(digest, v);
    }
  }

  lemma EmptyFront(s: string)
    ensures "" + s == s
  {}

  lemma SilentUnfolds(digest: string -> nat, v: Visit)
    requires v.direct && (v.node.Struct? ==> SilentTag(v.node.tag))
    ensures Meaning(digest, v) == "" && VisitText(digest, v) == ""
  {
    if v.node.Struct? { RulesAgree(v.node.tag, "x", None); }
    hide SilentTag;
    NothingMeans(digest, v);
  }

  lemma DirectUnfolds(digest: string -> nat, v: Visit)
    requires v.direct && v.node.Struct? && !SilentTag(v.node.tag)
    ensures PlanOf(v).Steps? && |PlanOf(v).steps| == 0 + |v.node.fields|
    ensures forall i :: 0 <= i < |v.node.fields| ==> PlanOf(v).steps[0 + i] == FieldStep(v, i)
    ensures Meaning(digest, v) == StepsMeaning(digest, v, |v.node.fields|) && StepsMeaning(digest, v, 0) == ""
    ensures VisitText(digest, v) == FieldsText(digest, v.node, v.parent, v.field, v.depth, |v.node.fields|)
  {
    RulesAgree(v.node.tag, "x", None);
    hide SilentTag, FieldsText, StepMeaning, FieldStep;
  }

  lemma StructText(digest: string -> nat, v: Visit)
    requires !v.direct && v.depth < 100 && v.node.Struct?
    ensures Meaning(digest, v) == VisitText(digest, v)
    decreases v.node, 0
  {
    var tag, fields := v.node.tag, v.node.fields;
    RulesAgree(tag, "x", None);
    CastsAgree(tag, fields);
    hide SilentTag, FieldsText, StepsMeaning, CastsConstant, CastOfConstant;
    if SilentTag(tag) || CastsConstant(tag, fields) {
      NothingMeans(digest, v);
    } else {
      FieldsAgree(digest, v, 1, |fields|);
      TagFirst(digest, v);
    }
  }

  lemma TagFirst(digest: string -> nat, v: Visit)
    requires v.node.Struct? && PlanOf(v).Steps? && PlanOf(v).steps != [] && PlanOf(v).steps[0] == Emit([v.node.tag])
    ensures StepsMeaning(digest, v, 1) == v.node.tag && StepsMeaning(digest, v, 0) == ""
  {
    hide PlanOf;
    assert [v.node.tag][..0] == [];
    assert Flatten([v.node.tag]) == "" + v.node.tag == v.node.tag;
  }

  /** The steps of the fields, which begin at step `from`, feed the text of the fields. */
  lemma {:induction false} FieldsAgree(digest: string -> nat, v: Visit, from: nat, k: nat)
    requires v.node.Struct? && k <= |v.node.fields|
    requires PlanOf(v).Steps? && |PlanOf(v).steps| == from + |v.node.fields|
    requires forall i :: 0 <= i < |v.node.fields| ==> PlanOf(v).steps[from + i] == FieldStep(v, i)
    ensures StepsMeaning(digest, v, from + k) ==
      StepsMeaning(digest, v, from) + FieldsText(digest, v.node, v.parent, v.field, v.depth, k)
    decreases v.node, 0, k
  {
    hide PlanOf, StepMeaning, FieldText, FieldStep;
    if k > 0 {
      FieldsAgree(digest, v, from, k - 1);
      FieldAgrees(digest, v, from + k - 1, k - 1);
    }
  }

  lemma FieldAgrees(digest: string -> nat, v: Visit, at: nat, k: nat)
    requires v.node.Struct? && k < |v.node.fields|
    requires PlanOf(v).Steps? && at < |PlanOf(v).steps| && PlanOf(v).steps[at] == FieldStep(v, k)
    ensures StepMeaning(digest, v, at) == FieldText(digest, v.node, v.parent, v.field, v.depth, k)
    decreases v.node, 0, k
  {
    hide *;
    StepUnfolds(digest, v, at, k);
    match FieldStep(v, k) {
      case Guarded(_, child) =>
        MeaningIsText(digest, child);
        ChildTexts(digest, v, k);
      case Inlined(_, child) =>
        MeaningIsText(digest, child);
        ChildTexts(digest, v, k);
      case Emit(tokens) => EmitAgrees(digest, v, k);
    }
  }

  lemma StepUnfolds(digest: string -> nat, v: Visit, at: nat, k: nat)
    requires v.node.Struct? && k < |v.node.fields|
    requires PlanOf(v).Steps? && at < |PlanOf(v).steps| && PlanOf(v).steps[at] == FieldStep(v, k)
    ensures
      match FieldStep(v, k)
      case Guarded(name, child) => StepMeaning(digest, v, at) == Named(name, Meaning(digest, child)) && child.node < v.node
      case Inlined(name, child) => StepMeaning(digest, v, at) == name + Meaning(digest, child) && child.node < v.node
      case Emit(tokens) => StepMeaning(digest, v, at) == Flatten(tokens)
      case Plain(_) => false
  {
    hide PlanOf, Meaning, FieldStep, Flatten;
  }

  lemma ChildTexts(digest: string -> nat, v: Visit, k: nat)
    requires v.node.Struct? && k < |v.node.fields|
    ensures
      var step, text := FieldStep(v, k), FieldText(digest, v.node, v.parent, v.field, v.depth, k);
      && (step.Guarded? ==> text == Named(step.name, VisitText(digest, step.child)))
      && (step.Inlined? ==> text == step.name + VisitText(digest, step.child))
  {
    var f := v.node.fields[k];
    assert f.value < f < v.node;
    RulesAgree(v.node.tag, f.name, None);
    hide Ignored, IsSkippedField, Text, OwnText, ScalarText, ScalarTokens, Flatten;
  }

  lemma EmitAgrees(digest: string -> nat, v: Visit, k: nat)
    requires v.node.Struct? && k < |v.node.fields| && FieldStep(v, k).Emit?
    ensures Flatten(FieldStep(v, k).tokens) == FieldText(digest, v.node, v.parent, v.field, v.depth, k)
  {
    var f := v.node.fields[k];
    RulesAgree(v.node.tag, f.name, None);
    NoTokens();
    if Ignored(v.node.tag, f.name) {
      assert ScalarTokens(v, f) == [];
    } else if f.value.Pointer? {
      UnsetIsSilent(digest, v, f);
    } else {
      ScalarsAgree(v, f);
    }
  }

  lemma UnsetIsSilent(digest: string -> nat, v: Visit, f: Field)
    requires f.value.Pointer? && !PointerIsSet(f.value.kind, f.value.target)
    ensures forall parent, field, depth :: Text(digest, f.value.target, parent, field, depth) == ""
    ensures f.value.kind == SpecificPtr ==> forall parent, field, depth :: OwnText(digest, f.value.target, parent, field, depth) == ""
  {
    if f.value.target.List? {
      forall parent, field, depth: nat ensures Text(digest, f.value.target, parent, field, depth) == "" {
        assert MemberTexts(digest, [], parent, field, depth + 1) == {};
      }
    }
  }

  /** From any state a walk without collisions feeds exactly the text of the visit. */
  lemma WalkFeedsText(lib: Lib, st: State, v: Visit)
    requires !Walk(lib, st, v).collided
    ensures Walk(lib, st, v).fed == st.fed + VisitText(lib.digest, v)
  {
    hide Walk, Meaning, VisitText;
    WalkFeeds(lib, st, v);
    MeaningIsText(lib.digest, v);
  }

  /** The fingerprint of a tree is the digest of its text. */
  lemma FingerprintOfText(lib: Lib, tree: Node)
    requires !Walk(lib, Fresh(), Root(tree)).collided
    ensures Fingerprint(lib, tree) == lib.digest(Text(lib.digest, tree, None, None, 0))
  {
    hide Walk, Text;
    WalkFeedsText(lib, Fresh(), Root(tree));
    assert "" + Text(lib.digest, tree, None, None, 0) == Text(lib.digest, tree, None, None, 0);
  }

  /** The tokens of a tree spell its text. */
  lemma TokensOfText(lib: Lib, tree: Node, writing: bool)
    requires !Walk(lib, Fresh().(writing := writing), Root(tree)).collided
    ensures
      var end, text := Walk(lib, Fresh().(writing := writing), Root(tree)), Text(lib.digest, tree, None, None, 0);
      end.fed == text && (if writing then Flatten(end.tokens) == text else end.tokens == [])
  {
    hide Walk, Meaning, Text, Flatten;
    var start := Fresh().(writing := writing);
    var end, text := Walk(lib, start, Root(tree)), Text(lib.digest, tree, None, None, 0);
    WalkFeeds(lib, start, Root(tree));
    MeaningIsText(lib.digest, Root(tree));
    assert "" + text == text && end.tokens[0..] == end.tokens;
  }

  // ----- what is fed and written at single places, collisions or not

  /** From one state to another these strings were fed, and written as tokens. */
  predicate Added(a: State, b: State, tokens: seq<string>) {
    && b.fed == a.fed + Flatten(tokens) && b.writing == a.writing
    && b.tokens == if a.writing then a.tokens + tokens else a.tokens
  }

  /** A value node feeds its type, the name of its member and the value itself. */
  lemma LeafFeeds(lib: Lib, st: State, n: Node, parent: Option<Name>, field: Option<Name>, depth: nat)
    requires depth < 100 && (n.Integer? || n.Float? || n.String? || n.BitString?)
    ensures
      Added(st, Walk(lib, st, Visit(n, parent, field, depth, false)),
            match n
            case Integer(i) => if i == 0 then [] else ["Integer", "ival", Decimal(i)]
            case Float(s) => if s.None? then [] else ["Float", "str", s.value]
            case String(s) => ["String", "str", s]
            case BitString(s) => if s.None? then [] else ["BitString", "str", s.value])
  {
    hide Flatten, Decimal;
    var v := Visit(n, parent, field, depth, false);
    NoTokens();
    assert st.fed + "" == st.fed && st.tokens + [] == st.tokens;
    if PlanOf(v) == Steps([]) {
      NothingWalked(lib, st, v);
    } else {
      OneStepWalked(lib, st, v, PlanOf(v).steps[0].tokens);
    }
  }

  lemma NothingWalked(lib: Lib, st: State, v: Visit)
    requires !v.direct && PlanOf(v) == Steps([])
    ensures Walk(lib, st, v) == st.(calls := st.calls + 1)
  {
    hide PlanOf;
  }

  lemma OneStepWalked(lib: Lib, st: State, v: Visit, tokens: seq<string>)
    requires !v.direct && PlanOf(v) == Steps([Emit(tokens)])
    ensures Walk(lib, st, v) == Feed(st.(calls := st.calls + 1), tokens)
  {
    hide PlanOf;
    var called := st.(calls := st.calls + 1);
    assert WalkSteps(lib, called, v, 0) == called;
    assert WalkSteps(lib, called, v, 1) == WalkStep(lib, called, v, 0);
  }

  /** The strings of a scalar field: none, or its name and the rest of its text, which a
      Bitmapset spells number by number. */
  ghost function FieldTokens(n: Node, f: Field, parent: Option<Name>, field: Option<Name>): seq<string>
    requires n.Struct?
  {
    var text := ScalarText(n, f, parent, field);
    if text == "" then []
    else if f.value.Bits? then [f.name] + NumberTokens(f.value.members)
    else [f.name, text[|f.name|..]]
  }

  /** A struct with one scalar field feeds its tag and the field. */
  lemma FieldFeeds(lib: Lib, st: State, tag: Name, f: Field, parent: Option<Name>, field: Option<Name>, depth: nat)
    requires depth < 100 && !SilentTag(tag) && !f.value.Pointer? && !f.value.Embedded? && !Ignored(tag, f.name)
    ensures
      var n := Struct(tag, [f]);
      Added(st, Walk(lib, st, Visit(n, parent, field, depth, false)), [tag] + FieldTokens(n, f, parent, field))
  {
    var n := Struct(tag, [f]);
    var v := Visit(n, parent, field, depth, false);
    hide *;
    OneFieldPlan(v, f);
    ScalarIsTokens(v, f);
    TwoStepsWalked(lib, st, v, [tag], ScalarTokens(v, f));
    AddedTwice(st, [tag], ScalarTokens(v, f));
  }

  lemma AddedTwice(st: State, a: seq<string>, b: seq<string>)
    ensures Added(st, Feed(Feed(st.(calls := st.calls + 1), a), b), a + b)
  {
    hide Flatten;
    FlattenConcat(a, b);
    assert st.fed + Flatten(a) + Flatten(b) == st.fed + (Flatten(a) + Flatten(b));
    assert st.tokens + a + b == st.tokens + (a + b);
  }

  lemma OneFieldPlan(v: Visit, f: Field)
    requires !v.direct && v.depth < 100 && v.node.Struct? && v.node.fields == [f]
    requires !SilentTag(v.node.tag) && !f.value.Pointer? && !f.value.Embedded?
    ensures PlanOf(v) == Steps([Emit([v.node.tag]), Emit(ScalarTokens(v, f))])
  {
    RulesAgree(v.node.tag, f.name, None);
    hide ScalarTokens, SilentTag;
    assert FieldSteps(v) == [Emit(ScalarTokens(v, f))];
    assert [Emit([v.node.tag])] + FieldSteps(v) == [Emit([v.node.tag]), Emit(ScalarTokens(v, f))];
  }

  lemma TwoStepsWalked(lib: Lib, st: State, v: Visit, a: seq<string>, b: seq<string>)
    requires !v.direct && PlanOf(v) == Steps([Emit(a), Emit(b)])
    ensures Walk(lib, st, v) == Feed(Feed(st.(calls := st.calls + 1), a), b)
  {
    hide PlanOf, Flatten;
    var called := st.(calls := st.calls + 1);
    assert WalkSteps(lib, called, v, 0) == called;
    assert WalkSteps(lib, called, v, 1) == WalkStep(lib, called, v, 0) == Feed(called, a);
    assert WalkSteps(lib, called, v, 2) == WalkStep(lib, Feed(called, a), v, 1);
  }

  lemma BitsAreTokens(v: Visit, f: Field)
    requires v.node.Struct? && !Ignored(v.node.tag, f.name) && f.value.Bits?
    ensures ScalarTokens(v, f) == FieldTokens(v.node, f, v.parent, v.field)
  {
    RulesAgree(v.node.tag, f.name, None);
    hide IsSkippedField, Ignored, Lookup, Temporary, Decimal;
    assert ScalarTokens(v, f) == [f.name] + NumberTokens(f.value.members);
  }

  lemma ScalarIsTokens(v: Visit, f: Field)
    requires v.node.Struct? && !Ignored(v.node.tag, f.name) && !f.value.Pointer? && !f.value.Embedded?
    ensures ScalarTokens(v, f) == FieldTokens(v.node, f, v.parent, v.field)
  {
    RulesAgree(v.node.tag, f.name, None);
    TemporaryAgrees(v.node.fields);
    hide IsSkippedField, Ignored, Lookup, Temporary, Flatten, StripDigitRuns, Decimal;
    if f.value.Bits? {
      BitsAreTokens(v, f);
    } else if f.value.Enum? {
      assert "kindAEXPR_OP"[4..] == "AEXPR_OP";
      assert (f.name + f.value.constant)[|f.name|..] == f.value.constant;
    } else if f.value.Str? && f.value.str.Some? {
      assert (f.name + f.value.str.value)[|f.name|..] == f.value.str.value;
      assert ("relname" + StripDigitRuns(f.value.str.value))[7..] == StripDigitRuns(f.value.str.value);
    } else if f.value.Num? {
      assert (f.name + Decimal(f.value.n))[|f.name|..] == Decimal(f.value.n);
    } else if f.value.Chr? {
      assert (f.name + [f.value.c])[|f.name|..] == [f.value.c];
    } else if f.value.Bool? {
      assert (f.name + "true")[|f.name|..] == "true";
    } else if f.value.Real? && f.value.text.Some? {
      assert (f.name + f.value.text.value)[|f.name|..] == f.value.text.value;
    }
  }
}
