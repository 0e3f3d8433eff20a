/** The writer of protobuf messages for parse trees and the reader that undoes it. A
    message is what the generated C structs hold in memory. */
module Protobuf {
  import opened Common

  datatype AExprKind =
    | Op | OpAny | OpAll | Distinct | NotDistinct | NullIf | Of | In | Like | ILike | Similar
    | Between | NotBetween | BetweenSym | NotBetweenSym | Paren

  function EnumToInt(k: AExprKind): int {
    match k
    case Op => 1
    case OpAny => 2
    case OpAll => 3
    case Distinct => 4
    case NotDistinct => 5
    case NullIf => 6
    case Of => 7
    case In => 8
    case Like => 9
    case ILike => 10
    case Similar => 11
    case Between => 12
    case NotBetween => 13
    case BetweenSym => 14
    case NotBetweenSym => 15
    case Paren => 16
  }

  /** Codes outside the table fall through to the first value. */
  function IntToEnum(code: int): AExprKind {
    match code
    case 1 => Op
    case 2 => OpAny
    case 3 => OpAll
    case 4 => Distinct
    case 5 => NotDistinct
    case 6 => NullIf
    case 7 => Of
    case 8 => In
    case 9 => Like
    case 10 => ILike
    case 11 => Similar
    case 12 => Between
    case 13 => NotBetween
    case 14 => BetweenSym
    case 15 => NotBetweenSym
    case 16 => Paren
    case _ => Op
  }

  /** The two tables agree, and a code survives exactly when it is in the table. */
  lemma EnumRoundTrip(k: AExprKind, code: int)
    ensures IntToEnum(EnumToInt(k)) == k
    ensures EnumToInt(IntToEnum(code)) == code <==> 1 <= code <= 16
  {}

  // ----- nodes and messages

  /** How the generated code treats a field. */
  datatype Kind =
    | NumKind | FlagKind | ChrKind | StrKind | EnumKind | ListKind
    | PtrKind | ValueKind | PartKind(tag: string) | PartPtrKind(tag: string)

  /** The fields of every struct the generated code knows. */
  type Schema = map<string, seq<Kind>>

  datatype Node =
    | Null
    | Integer(ival: int)
    | Float(text: string)
    | String(text: string)
    | BitString(text: string)
    | NullValue
    | List(items: seq<Node>)
    | Struct(tag: string, fields: seq<Value>)

  /** A field of a node. `Items([])` is NIL, `Ptr(Null)` and `NoPart` are NULL
      pointers; `Inline` is a value stored in its node, `Inline(Null)` a zeroed one. */
  datatype Value =
    | Num(n: int)
    | Flag(b: bool)
    | Chr(c: char)
    | Str(text: Option<string>)
    | Enum(k: AExprKind)
    | Items(items: seq<Node>)
    | Ptr(node: Node)
    | Inline(node: Node)
    | Part(part: seq<Value>)
    | PartPtr(part: seq<Value>)
    | NoPart

  datatype Msg =
    | NotSet
    | IntegerMsg(ival: int)
    | FloatMsg(str: string)
    | StringMsg(str: string)
    | BitStringMsg(str: string)
    | NullMsg
    | ListMsg(items: seq<Msg>)
    | StructMsg(tag: string, body: seq<Slot>)
    | OtherMsg

  /** A field of a message. */
  datatype Slot =
    | IntSlot(n: int)
    | BoolSlot(b: bool)
    | StringSlot(str: string)
    | EnumSlot(code: int)
    | RepeatedSlot(items: seq<Msg>)
    | NodeSlot(msg: Option<Msg>)
    | StructSlot(body: seq<Slot>)
    | NoStruct

  // ----- typing

  predicate IsValue(n: Node) {
    n.Integer? || n.Float? || n.String? || n.BitString? || n.NullValue?
  }

  ghost predicate Typed(s: Schema, n: Node)
    decreases n, 1
  {
    match n
    case List(items) => forall i :: 0 <= i < |items| ==> Typed(s, items[i])
    case Struct(tag, fields) => tag in s ==> FieldsTyped(s, s[tag], fields)
    case _ => true
  }

  ghost predicate FieldsTyped(s: Schema, kinds: seq<Kind>, fields: seq<Value>)
    decreases fields, 0
  {
    |fields| == |kinds| && forall i :: 0 <= i < |fields| ==> FieldTyped(s, kinds[i], fields[i])
  }

  ghost predicate FieldTyped(s: Schema, kind: Kind, v: Value)
    decreases v, 1
  {
    match kind
    case NumKind => v.Num?
    case FlagKind => v.Flag?
    case ChrKind => v.Chr?
    case StrKind => v.Str?
    case EnumKind => v.Enum?
    case ListKind => v.Items? && forall i :: 0 <= i < |v.items| ==> Typed(s, v.items[i])
    case PtrKind => v.Ptr? && Typed(s, v.node)
    case ValueKind => v.Inline? && IsValue(v.node)
    case PartKind(tag) => v.Part? && tag in s && FieldsTyped(s, s[tag], v.part)
    case PartPtrKind(tag) => tag in s && (v.NoPart? || (v.PartPtr? && FieldsTyped(s, s[tag], v.part)))
  }

  predicate IsValueMsg(m: Msg) {
    m.IntegerMsg? || m.FloatMsg? || m.StringMsg? || m.BitStringMsg? || m.NullMsg?
  }

  /** A message the C types admit; an embedded value is absent or is a value. */
  ghost predicate MsgTyped(s: Schema, m: Msg)
    decreases m, 1
  {
    match m
    case ListMsg(items) => forall i :: 0 <= i < |items| ==> MsgTyped(s, items[i])
    case StructMsg(tag, body) => tag in s && BodyTyped(s, s[tag], body)
    case _ => true
  }

  ghost predicate BodyTyped(s: Schema, kinds: seq<Kind>, body: seq<Slot>)
    decreases body, 0
  {
    |body| == |kinds| && forall i :: 0 <= i < |body| ==> SlotTyped(s, kinds[i], body[i])
  }

  ghost predicate SlotTyped(s: Schema, kind: Kind, slot: Slot)
    decreases slot, 1
  {
    match kind
    case NumKind => slot.IntSlot?
    case FlagKind => slot.BoolSlot?
    case ChrKind => slot.StringSlot?
    case StrKind => slot.StringSlot?
    case EnumKind => slot.EnumSlot?
    case ListKind => slot.RepeatedSlot? && forall i :: 0 <= i < |slot.items| ==> MsgTyped(s, slot.items[i])
    case PtrKind => slot.NodeSlot? && (slot.msg.Some? ==> MsgTyped(s, slot.msg.value))
    case ValueKind => slot.NodeSlot? && (slot.msg.Some? ==> IsValueMsg(slot.msg.value))
    case PartKind(tag) => slot.StructSlot? && tag in s && BodyTyped(s, s[tag], slot.body)
    case PartPtrKind(tag) => tag in s && (slot.NoStruct? || (slot.StructSlot? && BodyTyped(s, s[tag], slot.body)))
  }

  // ----- what is written

  /** A struct of a type the generated code does not know leaves the message unset. */
  function Written(s: Schema, n: Node): Msg
    decreases n, 1
  {
    match n
    case Null => NotSet
    case Integer(i) => IntegerMsg(i)
    case Float(t) => FloatMsg(t)
    case String(t) => StringMsg(t)
    case BitString(t) => BitStringMsg(t)
    case NullValue => NullMsg
    case List(items) => ListMsg(WrittenItems(s, items))
    case Struct(tag, fields) => if tag in s then StructMsg(tag, WrittenFields(s, fields)) else NotSet
  }

  function WrittenItems(s: Schema, items: seq<Node>): (r: seq<Msg>)
    ensures |r| == |items|
    decreases items, 0
  {
    if items == [] then [] else WrittenItems(s, items[..|items| - 1]) + [Written(s, items[|items| - 1])]
  }

  function WrittenFields(s: Schema, fields: seq<Value>): (r: seq<Slot>)
    ensures |r| == |fields|
    decreases fields, 0
  {
    if fields == [] then [] else WrittenFields(s, fields[..|fields| - 1]) + [WrittenField(s, fields[|fields| - 1])]
  }

  /** NULL strings and the zero character leave the empty default. */
  function WrittenField(s: Schema, v: Value): Slot
    decreases v, 1
  {
    match v
    case Num(n) => IntSlot(n)
    case Flag(b) => BoolSlot(b)
    case Chr(c) => StringSlot(if c != '\0' then [c] else "")
    case Str(t) => StringSlot(if t.Some? then t.value else "")
    case Enum(k) => EnumSlot(EnumToInt(k))
    case Items(items) => RepeatedSlot(WrittenItems(s, items))
    case Ptr(n) => NodeSlot(if n != Null then Some(Written(s, n)) else None)
    case Inline(n) => NodeSlot(Some(Written(s, n)))
    case Part(part) => StructSlot(WrittenFields(s, part))
    case PartPtr(part) => StructSlot(WrittenFields(s, part))
    case NoPart => NoStruct
  }

  // ----- what a message says of a node

  /** The kinds in the order of their declaration. */
  const KINDS: seq<AExprKind> :=
    [Op, OpAny, OpAll, Distinct, NotDistinct, NullIf, Of, In, Like, ILike, Similar, Between, NotBetween, BetweenSym, NotBetweenSym, Paren]

  /** The message holds the node: every number, flag and text as it is, a kind by its place
      among the kinds, and the same of everything below. */
  ghost predicate Carries(s: Schema, n: Node, m: Msg)
    decreases n, 1
  {
    match (n, m)
    case (Null, NotSet) => true
    case (Integer(i), IntegerMsg(j)) => i == j
    case (Float(t), FloatMsg(u)) => t == u
    case (String(t), StringMsg(u)) => t == u
    case (BitString(t), BitStringMsg(u)) => t == u
    case (NullValue, NullMsg) => true
    case (List(xs), ListMsg(ys)) => |xs| == |ys| && forall i :: 0 <= i < |xs| ==> Carries(s, xs[i], ys[i])
    case (Struct(tag, fields), StructMsg(name, body)) => tag == name && tag in s && CarriesFields(s, fields, body)
    case (Struct(tag, _), NotSet) => tag !in s
    case _ => false
  }

  ghost predicate CarriesFields(s: Schema, fields: seq<Value>, body: seq<Slot>)
    decreases fields, 0
  {
    |fields| == |body| && forall i :: 0 <= i < |fields| ==> CarriesField(s, fields[i], body[i])
  }

  ghost predicate CarriesField(s: Schema, v: Value, slot: Slot)
    decreases v, 1
  {
    match (v, slot)
    case (Num(i), IntSlot(j)) => i == j
    case (Flag(b), BoolSlot(c)) => b == c
    case (Chr(c), StringSlot(t)) => if c == '\0' then t == "" else t == [c]
    case (Str(None), StringSlot(u)) => u == ""
    case (Str(Some(t)), StringSlot(u)) => t == u
    case (Enum(k), EnumSlot(code)) => 1 <= code <= 16 && KINDS[code - 1] == k
    case (Items(xs), RepeatedSlot(ys)) => |xs| == |ys| && forall i :: 0 <= i < |xs| ==> Carries(s, xs[i], ys[i])
    case (Ptr(n), NodeSlot(None)) => n == Null
    case (Ptr(n), NodeSlot(Some(m))) => n != Null && Carries(s, n, m)
    case (Inline(n), NodeSlot(Some(m))) => Carries(s, n, m)
    case (Part(part), StructSlot(body)) => CarriesFields(s, part, body)
    case (PartPtr(part), StructSlot(body)) => CarriesFields(s, part, body)
    case (NoPart, NoStruct) => true
    case _ => false
  }

  /** Main result: the message that is written holds the node, and no other message does. */
  lemma {:induction false} CarriesIff(s: Schema, n: Node, m: Msg)
    ensures Carries(s, n, m) <==> m == Written(s, n)
    decreases n, 1
  {
    hide WrittenItems, WrittenFields, CarriesFields;
    match (n, m) {
      case (List(xs), ListMsg(ys)) => ItemsCarried(s, xs, ys);
      case (Struct(_, fields), StructMsg(_, body)) => FieldsCarried(s, fields, body);
      case _ =>
    }
  }

  lemma {:induction false} ItemsCarried(s: Schema, xs: seq<Node>, ys: seq<Msg>)
    ensures (|xs| == |ys| && forall i :: 0 <= i < |xs| ==> Carries(s, xs[i], ys[i])) <==> ys == WrittenItems(s, xs)
    decreases xs, 0
  {
    hide Carries, Written;
    if |xs| == |ys| && xs != [] {
      var n := |xs| - 1;
      ItemsCarried(s, xs[..n], ys[..n]);
      CarriesIff(s, xs[n], ys[n]);
      assert ys == ys[..n] + [ys[n]];
    }
  }

  lemma {:induction false} FieldsCarried(s: Schema, fields: seq<Value>, body: seq<Slot>)
    ensures CarriesFields(s, fields, body) <==> body == WrittenFields(s, fields)
    decreases fields, 0
  {
    hide CarriesField, WrittenField;
    if |fields| == |body| && fields != [] {
      var n := |fields| - 1;
      FieldsCarried(s, fields[..n], body[..n]);
      FieldCarried(s, fields[n], body[n]);
      assert body == body[..n] + [body[n]];
      assert CarriesFields(s, fields, body) <==> CarriesFields(s, fields[..n], body[..n]) && CarriesField(s, fields[n], body[n]);
    }
  }

  lemma KindsInOrder(k: AExprKind, code: int)
    ensures 1 <= code <= 16 && KINDS[code - 1] == k <==> code == EnumToInt(k)
  {}

  lemma FieldCarried(s: Schema, v: Value, slot: Slot)
    ensures CarriesField(s, v, slot) <==> slot == WrittenField(s, v)
    decreases v, 1
  {
    hide Carries, Written, WrittenItems, WrittenFields, CarriesFields, EnumToInt, KINDS;
    match (v, slot) {
      case (Enum(k), EnumSlot(code)) => KindsInOrder(k, code);
      case (Items(xs), RepeatedSlot(ys)) => ItemsCarried(s, xs, ys);
      case (Ptr(n), NodeSlot(Some(m))) => CarriesIff(s, n, m);
      case (Inline(n), NodeSlot(Some(m))) => CarriesIff(s, n, m);
      case (Part(part), StructSlot(body)) => FieldsCarried(s, part, body);
      case (PartPtr(part), StructSlot(body)) => FieldsCarried(s, part, body);
      case _ =>
    }
  }

  // ----- what is read

  /** None: the reader raises an error. */
  function Read(s: Schema, m: Msg): Option<Node>
    requires MsgTyped(s, m)
    decreases m, 1
  {
    match m
    case NotSet => Some(Null)
    case IntegerMsg(i) => Some(Integer(i))
    case FloatMsg(t) => Some(Float(t))
    case StringMsg(t) => Some(String(t))
    case BitStringMsg(t) => Some(BitString(t))
    case NullMsg => Some(NullValue)
    case ListMsg(items) =>
      var r := ReadItems(s, items);
      if r.None? then None else Some(if r.value == [] then Null else List(r.value))
    case StructMsg(tag, body) =>
      var r := ReadBody(s, s[tag], body);
      if r.None? then None else Some(Struct(tag, r.value))
    case OtherMsg => None
  }

  function ReadItems(s: Schema, items: seq<Msg>): (r: Option<seq<Node>>)
    requires forall i :: 0 <= i < |items| ==> MsgTyped(s, items[i])
    ensures r.Some? ==> |r.value| == |items|
    decreases items, 0
  {
    if items == [] then Some([])
    else
      var front := ReadItems(s, items[..|items| - 1]);
      var last := Read(s, items[|items| - 1]);
      if front.None? || last.None? then None else Some(front.value + [last.value])
  }

  function ReadBody(s: Schema, kinds: seq<Kind>, body: seq<Slot>): (r: Option<seq<Value>>)
    requires BodyTyped(s, kinds, body)
    ensures r.Some? ==> |r.value| == |body|
    decreases body, 0
  {
    if body == [] then Some([])
    else
      var k := |body| - 1;
      assert BodyTyped(s, kinds[..k], body[..k]);
      var front := ReadBody(s, kinds[..k], body[..k]);
      var last := ReadSlot(s, kinds[k], body[k]);
      if front.None? || last.None? then None else Some(front.value + [last.value])
  }

  function ReadSlot(s: Schema, kind: Kind, slot: Slot): Option<Value>
    requires SlotTyped(s, kind, slot)
    decreases slot, 1
  {
    match kind
    case NumKind => Some(Num(slot.n))
    case FlagKind => Some(Flag(slot.b))
    case ChrKind => Some(Chr(if slot.str != "" then slot.str[0] else '\0'))
    case StrKind => Some(Str(if slot.str != "" then Some(slot.str) else None))
    case EnumKind => Some(Enum(IntToEnum(slot.code)))
    case ListKind =>
      var r := ReadItems(s, slot.items);
      if r.None? then None else Some(Items(r.value))
    case PtrKind =>
      if slot.msg.None? then Some(Ptr(Null))
      else
        var r := Read(s, slot.msg.value);
        if r.None? then None else Some(Ptr(r.value))
    case ValueKind =>
      if slot.msg.None? then Some(Inline(Null))
      else
        var r := Read(s, slot.msg.value);
        if r.None? then None else Some(Inline(r.value))
    case PartKind(tag) =>
      var r := ReadBody(s, s[tag], slot.body);
      if r.None? then None else Some(Part(r.value))
    case PartPtrKind(tag) =>
      if slot.NoStruct? then Some(NoPart)
      else
        var r := ReadBody(s, s[tag], slot.body);
        if r.None? then None else Some(PartPtr(r.value))
  }

  // ----- what a tree reads back as

  /** Empty strings in fields become NULL; empty list nodes, which the list library rules
      out, and structs of unknown types become NULL. Everything else stays. */
  function Settled(s: Schema, n: Node): Node
    decreases n, 1
  {
    match n
    case List(items) => if items == [] then Null else List(SettledItems(s, items))
    case Struct(tag, fields) => if tag in s then Struct(tag, SettledFields(s, fields)) else Null
    case _ => n
  }

  function SettledItems(s: Schema, items: seq<Node>): (r: seq<Node>)
    ensures |r| == |items|
    decreases items, 0
  {
    seq(|items|, i requires 0 <= i < |items| => Settled(s, items[i]))
  }

  function SettledFields(s: Schema, fields: seq<Value>): (r: seq<Value>)
    ensures |r| == |fields|
    decreases fields, 0
  {
    seq(|fields|, i requires 0 <= i < |fields| => SettledField(s, fields[i]))
  }

  function SettledField(s: Schema, v: Value): Value
    decreases v, 1
  {
    match v
    case Str(t) => if t == Some("") then Str(None) else v
    case Items(items) => Items(SettledItems(s, items))
    case Ptr(n) => Ptr(Settled(s, n))
    case Part(part) => Part(SettledFields(s, part))
    case PartPtr(part) => PartPtr(SettledFields(s, part))
    case _ => v
  }

  /** No empty string in a field, no empty list node, no unknown struct. */
  ghost predicate Plain(s: Schema, n: Node)
    decreases n, 1
  {
    match n
    case List(items) => items != [] && forall i :: 0 <= i < |items| ==> Plain(s, items[i])
    case Struct(tag, fields) => tag in s && forall i :: 0 <= i < |fields| ==> PlainField(s, fields[i])
    case _ => true
  }

  ghost predicate PlainField(s: Schema, v: Value)
    decreases v, 1
  {
    match v
    case Str(t) => t != Some("")
    case Items(items) => forall i :: 0 <= i < |items| ==> Plain(s, items[i])
    case Ptr(n) => Plain(s, n)
    case Part(part) => forall i :: 0 <= i < |part| ==> PlainField(s, part[i])
    case PartPtr(part) => forall i :: 0 <= i < |part| ==> PlainField(s, part[i])
    case _ => true
  }

  // ----- reading undoes writing

  lemma {:induction false} RoundTrip(s: Schema, n: Node)
    requires Typed(s, n)
    ensures MsgTyped(s, Written(s, n)) && Read(s, Written(s, n)) == Some(Settled(s, n))
    decreases n, 1
  {
    match n {
      case List(items) => ItemsRoundTrip(s, items);
      case Struct(tag, fields) =>
        if tag in s { FieldsRoundTrip(s, s[tag], fields); }
      case _ =>
    }
  }

  lemma {:induction false} ItemsRoundTrip(s: Schema, items: seq<Node>)
    requires forall i :: 0 <= i < |items| ==> Typed(s, items[i])
    ensures var ms := WrittenItems(s, items);
      && (forall i :: 0 <= i < |ms| ==> MsgTyped(s, ms[i]))
      && ReadItems(s, ms) == Some(SettledItems(s, items))
    decreases items, 0
  {
    hide Written, Read, Settled, Typed, MsgTyped;
    if items != [] {
      var k := |items| - 1;
      ItemsRoundTrip(s, items[..k]);
      RoundTrip(s, items[k]);
      var ms := WrittenItems(s, items);
      assert ms[..k] == WrittenItems(s, items[..k]);
      assert SettledItems(s, items) == SettledItems(s, items[..k]) + [Settled(s, items[k])];
    }
  }

  lemma BodyTypedSnoc(s: Schema, kinds: seq<Kind>, body: seq<Slot>)
    requires body != [] && |kinds| == |body|
    requires BodyTyped(s, kinds[..|body| - 1], body[..|body| - 1]) && SlotTyped(s, kinds[|body| - 1], body[|body| - 1])
    ensures BodyTyped(s, kinds, body)
  {}

  lemma FieldsTypedFront(s: Schema, kinds: seq<Kind>, fields: seq<Value>)
    requires fields != [] && FieldsTyped(s, kinds, fields)
    ensures FieldsTyped(s, kinds[..|fields| - 1], fields[..|fields| - 1]) && FieldTyped(s, kinds[|fields| - 1], fields[|fields| - 1])
  {}

  lemma {:induction false} FieldsRoundTrip(s: Schema, kinds: seq<Kind>, fields: seq<Value>)
    requires FieldsTyped(s, kinds, fields)
    ensures BodyTyped(s, kinds, WrittenFields(s, fields))
    ensures ReadBody(s, kinds, WrittenFields(s, fields)) == Some(SettledFields(s, fields))
    decreases fields, 0
  {
    hide FieldsTyped, FieldTyped, BodyTyped, SlotTyped, WrittenField, ReadSlot, SettledField;
    if fields == [] {
      NoFields(s, kinds, fields);
    } else {
      var k := |fields| - 1;
      FieldsTypedFront(s, kinds, fields);
      SameLength(s, kinds, fields);
      FieldsRoundTrip(s, kinds[..k], fields[..k]);
      FieldRoundTrip(s, kinds[k], fields[k]);
      var body := WrittenFields(s, fields);
      assert body[..k] == WrittenFields(s, fields[..k]);
      BodyTypedSnoc(s, kinds, body);
      assert SettledFields(s, fields) == SettledFields(s, fields[..k]) + [SettledField(s, fields[k])];
    }
  }

  lemma SameLength(s: Schema, kinds: seq<Kind>, fields: seq<Value>)
    requires FieldsTyped(s, kinds, fields)
    ensures |kinds| == |fields|
  {}

  lemma NoFields(s: Schema, kinds: seq<Kind>, fields: seq<Value>)
    requires FieldsTyped(s, kinds, fields) && fields == []
    ensures BodyTyped(s, kinds, []) && ReadBody(s, kinds, []) == Some([])
    ensures WrittenFields(s, fields) == [] && SettledFields(s, fields) == []
  {}

  lemma {:induction false} FieldRoundTrip(s: Schema, kind: Kind, v: Value)
    requires FieldTyped(s, kind, v)
    ensures SlotTyped(s, kind, WrittenField(s, v))
    ensures ReadSlot(s, kind, WrittenField(s, v)) == Some(SettledField(s, v))
    decreases v, 1
  {
    match kind {
      case ListKind => ItemsRoundTrip(s, v.items);
      case PtrKind => RoundTrip(s, v.node);
      case PartKind(tag) => FieldsRoundTrip(s, s[tag], v.part);
      case PartPtrKind(tag) =>
        if v.PartPtr? { FieldsRoundTrip(s, s[tag], v.part); }
      case EnumKind => EnumRoundTrip(v.k, 0);
      case _ =>
    }
  }

  lemma {:induction false} SettledIff(s: Schema, n: Node)
    ensures Settled(s, n) == n <==> Plain(s, n)
    decreases n, 1
  {
    match n {
      case List(items) =>
        SettledItemsIff(s, items);
      case Struct(_, fields) =>
        SettledFieldsIff(s, fields);
      case _ =>
    }
  }

  lemma SettledItemsIff(s: Schema, items: seq<Node>)
    ensures SettledItems(s, items) == items <==> forall i :: 0 <= i < |items| ==> Plain(s, items[i])
    decreases items, 0
  {
    forall i | 0 <= i < |items| ensures SettledItems(s, items)[i] == items[i] <==> Plain(s, items[i]) {
      SettledIff(s, items[i]);
    }
  }

  lemma SettledFieldsIff(s: Schema, fields: seq<Value>)
    ensures SettledFields(s, fields) == fields <==> forall i :: 0 <= i < |fields| ==> PlainField(s, fields[i])
    decreases fields, 0
  {
    forall i | 0 <= i < |fields| ensures SettledFields(s, fields)[i] == fields[i] <==> PlainField(s, fields[i]) {
      SettledFieldIff(s, fields[i]);
    }
  }

  lemma {:induction false} SettledFieldIff(s: Schema, v: Value)
    ensures SettledField(s, v) == v <==> PlainField(s, v)
    decreases v, 1
  {
    match v {
      case Items(items) => SettledItemsIff(s, items);
      case Ptr(n) => SettledIff(s, n);
      case Part(part) => SettledFieldsIff(s, part);
      case PartPtr(part) => SettledFieldsIff(s, part);
      case _ =>
    }
  }

  /** Reading back what was written gives the same tree exactly when no field holds an
      empty string (and no list node is empty, and every struct is known). */
  lemma RoundTripIff(s: Schema, n: Node)
    requires Typed(s, n)
    ensures MsgTyped(s, Written(s, n))
    ensures Read(s, Written(s, n)) == Some(n) <==> Plain(s, n)
  {
    RoundTrip(s, n);
    SettledIff(s, n);
  }

  /** What is read back can be written and read again without further change. */
  lemma SettledTwice(s: Schema, n: Node)
    requires Typed(s, n)
    ensures Typed(s, Settled(s, n)) && Settled(s, Settled(s, n)) == Settled(s, n)
  {
    SettledStays(s, n);
    SettledIff(s, Settled(s, n));
  }

  lemma {:induction false} SettledStays(s: Schema, n: Node)
    requires Typed(s, n)
    ensures Typed(s, Settled(s, n)) && Plain(s, Settled(s, n))
    decreases n, 1
  {
    match n {
      case List(items) =>
        forall i | 0 <= i < |items| ensures Typed(s, Settled(s, items[i])) && Plain(s, Settled(s, items[i])) {
          SettledStays(s, items[i]);
        }
      case Struct(tag, fields) =>
        if tag in s { SettledFieldsStay(s, s[tag], fields); }
      case _ =>
    }
  }

  lemma {:induction false} SettledFieldsStay(s: Schema, kinds: seq<Kind>, fields: seq<Value>)
    requires FieldsTyped(s, kinds, fields)
    ensures FieldsTyped(s, kinds, SettledFields(s, fields))
    ensures forall i :: 0 <= i < |fields| ==> PlainField(s, SettledFields(s, fields)[i])
    decreases fields, 0
  {
    forall i | 0 <= i < |fields|
      ensures FieldTyped(s, kinds[i], SettledFields(s, fields)[i]) && PlainField(s, SettledFields(s, fields)[i])
    {
      SettledFieldStays(s, kinds[i], fields[i]);
    }
  }

  lemma {:induction false} SettledFieldStays(s: Schema, kind: Kind, v: Value)
    requires FieldTyped(s, kind, v)
    ensures FieldTyped(s, kind, SettledField(s, v)) && PlainField(s, SettledField(s, v))
    decreases v, 1
  {
    match kind {
      case ListKind =>
        forall i | 0 <= i < |v.items| ensures Typed(s, Settled(s, v.items[i])) && Plain(s, Settled(s, v.items[i])) {
          SettledStays(s, v.items[i]);
        }
      case PtrKind => SettledStays(s, v.node);
      case PartKind(tag) => SettledFieldsStay(s, s[tag], v.part);
      case PartPtrKind(tag) =>
        if v.PartPtr? { SettledFieldsStay(s, s[tag], v.part); }
      case _ =>
    }
  }

  // ----- the writer

  /** _outNode: the message starts out unset and is filled in by the type's function. */
  method OutNode(s: Schema, n: Node) returns (out: Msg)
    ensures out == Written(s, n)
    decreases n, 2
  {
    out := NotSet;
    match n {
      case Null =>
      case Integer(i) => out := IntegerMsg(i);
      case Float(t) => out := FloatMsg(t);
      case String(t) => out := StringMsg(t);
      case BitString(t) => out := BitStringMsg(t);
      case NullValue => out := NullMsg;
      case List(items) =>
        var ms := OutItems(s, items);
        out := ListMsg(ms);
      case Struct(tag, fields) =>
        if tag in s {
          var body := OutFields(s, fields);
          out := StructMsg(tag, body);
        }
    }
  }

  /** The array of a list's messages, filled slot by slot. */
  method OutItems(s: Schema, list: seq<Node>) returns (r: seq<Msg>)
    ensures r == WrittenItems(s, list)
    decreases list, 1
  {
    hide Written;
    var items := new Msg[|list|];
    for i := 0 to |list|
      invariant items[..i] == WrittenItems(s, list[..i])
    {
      assert list[..i + 1][..i] == list[..i];
      var m := OutNode(s, list[i]);
      items[i] := m;
      assert items[..i + 1] == items[..i] + [m];
    }
    assert list[..|list|] == list;
    r := items[..];
    assert items[..] == items[..|list|];
  }

  method OutFields(s: Schema, fields: seq<Value>) returns (r: seq<Slot>)
    ensures r == WrittenFields(s, fields)
    decreases fields, 1
  {
    hide WrittenField;
    r := [];
    for i := 0 to |fields|
      invariant r == WrittenFields(s, fields[..i])
    {
      assert fields[..i + 1][..i] == fields[..i];
      var slot := OutField(s, fields[i]);
      r := r + [slot];
    }
    assert fields[..|fields|] == fields;
  }

  /** One WRITE macro, from the default an initialised message holds. */
  method OutField(s: Schema, v: Value) returns (slot: Slot)
    ensures slot == WrittenField(s, v)
    decreases v, 2
  {
    match v {
      case Num(n) => slot := IntSlot(n);
      case Flag(b) => slot := BoolSlot(b);
      case Chr(c) =>
        slot := StringSlot("");
        if c != '\0' {
          slot := StringSlot([c]);
        }
      case Str(t) =>
        slot := StringSlot("");
        if t.Some? {
          slot := StringSlot(t.value);
        }
      case Enum(k) => slot := EnumSlot(EnumToInt(k));
      case Items(items) =>
        slot := RepeatedSlot([]);
        if items != [] {
          var ms := OutItems(s, items);
          slot := RepeatedSlot(ms);
        }
      case Ptr(n) =>
        slot := NodeSlot(None);
        if n != Null {
          var m := OutNode(s, n);
          slot := NodeSlot(Some(m));
        }
      case Inline(n) =>
        var m := OutNode(s, n);
        slot := NodeSlot(Some(m));
      case Part(part) =>
        var body := OutFields(s, part);
        slot := StructSlot(body);
      case PartPtr(part) =>
        var body := OutFields(s, part);
        slot := StructSlot(body);
      case NoPart => slot := NoStruct;
    }
  }

  // ----- the reader

  /** _readNode */
  method ReadNode(s: Schema, msg: Msg) returns (r: Option<Node>)
    requires MsgTyped(s, msg)
    ensures r == Read(s, msg)
    decreases msg, 2
  {
    match msg {
      case NotSet => r := Some(Null);
      case IntegerMsg(i) => r := Some(Integer(i));
      case FloatMsg(t) => r := Some(Float(t));
      case StringMsg(t) => r := Some(String(t));
      case BitStringMsg(t) => r := Some(BitString(t));
      case NullMsg => r := Some(NullValue);
      case ListMsg(items) =>
        var nodes := ReadNodes(s, items);
        if nodes.None? {
          return None;
        }
        r := Some(if nodes.value == [] then Null else List(nodes.value));
      case StructMsg(tag, body) =>
        var fields := ReadFields(s, s[tag], body);
        if fields.None? {
          return None;
        }
        r := Some(Struct(tag, fields.value));
      case OtherMsg => r := None;
    }
  }

  lemma {:induction false} FailedItems(s: Schema, items: seq<Msg>, k: nat)
    requires forall i :: 0 <= i < |items| ==> MsgTyped(s, items[i])
    requires k <= |items| && ReadItems(s, items[..k]) == None
    ensures ReadItems(s, items) == None
  {
    hide Read;
    if k < |items| {
      assert items[..|items| - 1][..k] == items[..k];
      FailedItems(s, items[..|items| - 1], k);
    } else {
      assert items[..k] == items;
    }
  }

  lemma OneItem(s: Schema, m: Msg)
    requires MsgTyped(s, m)
    ensures ReadItems(s, [m]) == if Read(s, m).Some? then Some([Read(s, m).value]) else None
  {
    hide Read, MsgTyped;
    var items := [m];
    assert items[..0] == [];
    if Read(s, m).Some? { assert [] + [Read(s, m).value] == [Read(s, m).value]; }
  }

  /** _readList: a list of the first item, then one item appended at a time; the reader
      gives up at the first item it cannot read. */
  method ReadNodes(s: Schema, items: seq<Msg>) returns (r: Option<seq<Node>>)
    requires forall i :: 0 <= i < |items| ==> MsgTyped(s, items[i])
    ensures r == ReadItems(s, items)
    decreases items, 1
  {
    hide Read, MsgTyped;
    var list: seq<Node> := [];
    if |items| > 0 {
      OneItem(s, items[0]);
      assert items[..1] == [items[0]];
      var first := ReadNode(s, items[0]);
      if first.None? {
        FailedItems(s, items, 1);
        return None;
      }
      list := [first.value];
      for i := 1 to |items|
        invariant ReadItems(s, items[..i]) == Some(list)
      {
        assert items[..i + 1][..i] == items[..i];
        var node := ReadNode(s, items[i]);
        if node.None? {
          FailedItems(s, items, i + 1);
          return None;
        }
        list := list + [node.value];
      }
      assert items[..|items|] == items;
    }
    r := Some(list);
  }

  lemma {:induction false} FailedBody(s: Schema, kinds: seq<Kind>, body: seq<Slot>, k: nat)
    requires BodyTyped(s, kinds, body) && k <= |body|
    requires BodyTyped(s, kinds[..k], body[..k]) && ReadBody(s, kinds[..k], body[..k]) == None
    ensures ReadBody(s, kinds, body) == None
  {
    hide ReadSlot, SlotTyped;
    if k < |body| {
      var n := |body| - 1;
      assert body[..n][..k] == body[..k] && kinds[..n][..k] == kinds[..k];
      FailedBody(s, kinds[..n], body[..n], k);
    } else {
      assert body[..k] == body && kinds[..k] == kinds;
    }
  }

  /** The READ macros of a struct, field by field. */
  method ReadFields(s: Schema, kinds: seq<Kind>, body: seq<Slot>) returns (r: Option<seq<Value>>)
    requires BodyTyped(s, kinds, body)
    ensures r == ReadBody(s, kinds, body)
    decreases body, 1
  {
    hide ReadSlot, SlotTyped;
    var fields: seq<Value> := [];
    for i := 0 to |body|
      invariant BodyTyped(s, kinds[..i], body[..i]) && ReadBody(s, kinds[..i], body[..i]) == Some(fields)
    {
      assert body[..i + 1][..i] == body[..i] && kinds[..i + 1][..i] == kinds[..i];
      assert BodyTyped(s, kinds[..i + 1], body[..i + 1]);
      var v := ReadField(s, kinds[i], body[i]);
      if v.None? {
        FailedBody(s, kinds, body, i + 1);
        return None;
      }
      fields := fields + [v.value];
    }
    assert body[..|body|] == body && kinds[..|body|] == kinds;
    r := Some(fields);
  }

  /** One READ macro, from the zeroes a new node holds. */
  method ReadField(s: Schema, kind: Kind, slot: Slot) returns (v: Option<Value>)
    requires SlotTyped(s, kind, slot)
    ensures v == ReadSlot(s, kind, slot)
    decreases slot, 2
  {
    match kind {
      case NumKind => v := Some(Num(slot.n));
      case FlagKind => v := Some(Flag(slot.b));
      case ChrKind =>
        v := Some(Chr('\0'));
        if slot.str != "" {
          v := Some(Chr(slot.str[0]));
        }
      case StrKind =>
        v := Some(Str(None));
        if slot.str != "" {
          v := Some(Str(Some(slot.str)));
        }
      case EnumKind => v := Some(Enum(IntToEnum(slot.code)));
      case ListKind =>
        var nodes := ReadNodes(s, slot.items);
        v := if nodes.Some? then Some(Items(nodes.value)) else None;
      case PtrKind =>
        v := Some(Ptr(Null));
        if slot.msg.Some? {
          var node := ReadNode(s, slot.msg.value);
          v := if node.Some? then Some(Ptr(node.value)) else None;
        }
      case ValueKind =>
        v := Some(Inline(Null));
        if slot.msg.Some? {
          var node := ReadNode(s, slot.msg.value);
          v := if node.Some? then Some(Inline(node.value)) else None;
        }
      case PartKind(tag) =>
        var fields := ReadFields(s, s[tag], slot.body);
        v := if fields.Some? then Some(Part(fields.value)) else None;
      case PartPtrKind(tag) =>
        v := Some(NoPart);
        if slot.StructSlot? {
          var fields := ReadFields(s, s[tag], slot.body);
          v := if fields.Some? then Some(PartPtr(fields.value)) else None;
        }
    }
  }

  // ----- whole parse results

  const PG_VERSION_NUM: int := 130003

  datatype ParseResult = ParseResult(version: int, stmts: seq<seq<Slot>>)

  /** Every statement is a RawStmt. */
  ghost predicate StmtsTyped(s: Schema, stmts: seq<seq<Value>>) {
    "RawStmt" in s && forall i :: 0 <= i < |stmts| ==> FieldsTyped(s, s["RawStmt"], stmts[i])
  }

  ghost predicate ResultTyped(s: Schema, r: ParseResult) {
    && r.version == PG_VERSION_NUM
    && "RawStmt" in s
    && forall i :: 0 <= i < |r.stmts| ==> BodyTyped(s, s["RawStmt"], r.stmts[i])
  }

  /** pg_query_nodes_to_protobuf, up to the packing of the messages. */
  method NodesToProtobuf(s: Schema, stmts: seq<seq<Value>>) returns (result: ParseResult)
    requires StmtsTyped(s, stmts)
    ensures ResultTyped(s, result) && result.version == 130003 && |result.stmts| == |stmts|
    ensures forall i :: 0 <= i < |stmts| ==> result.stmts[i] == WrittenFields(s, stmts[i]) && CarriesFields(s, stmts[i], result.stmts[i])
  {
    hide FieldsTyped, BodyTyped, WrittenFields, CarriesFields;
    var bodies := new seq<Slot>[|stmts|];
    for i := 0 to |stmts|
      invariant forall j :: 0 <= j < i ==> bodies[j] == WrittenFields(s, stmts[j]) && BodyTyped(s, s["RawStmt"], bodies[j])
    {
      FieldsRoundTrip(s, s["RawStmt"], stmts[i]);
      bodies[i] := OutFields(s, stmts[i]);
    }
    result := ParseResult(PG_VERSION_NUM, bodies[..]);
    forall i | 0 <= i < |stmts| ensures CarriesFields(s, stmts[i], result.stmts[i]) {
      FieldsCarried(s, stmts[i], result.stmts[i]);
    }
  }

  /** pg_query_protobuf_to_nodes, after the unpacking of the messages. */
  method ProtobufToNodes(s: Schema, result: ParseResult) returns (list: Option<seq<seq<Value>>>)
    requires ResultTyped(s, result)
    ensures list.Some? <==> forall i :: 0 <= i < |result.stmts| ==> ReadBody(s, s["RawStmt"], result.stmts[i]).Some?
    ensures list.Some? ==> |list.value| == |result.stmts|
    ensures list.Some? ==> forall i :: 0 <= i < |result.stmts| ==>
      ReadBody(s, s["RawStmt"], result.stmts[i]) == Some(list.value[i])
  {
    hide BodyTyped, ReadBody;
    var stmts: seq<seq<Value>> := [];
    if |result.stmts| > 0 {
      var first := ReadFields(s, s["RawStmt"], result.stmts[0]);
      if first.None? {
        return None;
      }
      stmts := [first.value];
      for i := 1 to |result.stmts|
        invariant |stmts| == i
        invariant forall j :: 0 <= j < i ==> ReadBody(s, s["RawStmt"], result.stmts[j]) == Some(stmts[j])
      {
        var stmt := ReadFields(s, s["RawStmt"], result.stmts[i]);
        if stmt.None? {
          return None;
        }
        stmts := stmts + [stmt.value];
      }
    }
    list := Some(stmts);
  }

  /** Writing the statements of a query and reading them back: the same statements, in
      order, exactly when no field anywhere holds an empty string. */
  method WriteAndRead(s: Schema, stmts: seq<seq<Value>>) returns (again: Option<seq<seq<Value>>>)
    requires StmtsTyped(s, stmts)
    ensures again.Some? && |again.value| == |stmts|
    ensures forall i :: 0 <= i < |stmts| ==> again.value[i] == SettledFields(s, stmts[i])
    ensures again.value == stmts <==> forall i :: 0 <= i < |stmts| ==> PlainStmt(s, stmts[i])
  {
    hide FieldsTyped, BodyTyped, WrittenFields, ReadBody, PlainField;
    var result := NodesToProtobuf(s, stmts);
    again := ProtobufToNodes(s, result);
    forall i | 0 <= i < |stmts|
      ensures ReadBody(s, s["RawStmt"], result.stmts[i]) == Some(SettledFields(s, stmts[i]))
      ensures SettledFields(s, stmts[i]) == stmts[i] <==> PlainStmt(s, stmts[i])
    {
      FieldsRoundTrip(s, s["RawStmt"], stmts[i]);
      SettledFieldsIff(s, stmts[i]);
    }
  }

  ghost predicate PlainStmt(s: Schema, fields: seq<Value>) {
    forall i :: 0 <= i < |fields| ==> PlainField(s, fields[i])
  }
}
