/** Which trees do not get the same text: those that differ in one place that counts and
    that no sorted list contains. */
module FingerprintApart {
  import opened Common
  import opened ParseTree
  import opened FingerprintWalk
  import opened FingerprintMeaning
  import opened FingerprintText

  /** Two scalar values that count as different in the k-th field. */
  ghost predicate ScalarsDiffer(n: Node, k: nat, f: Value, g: Value, parent: Option<Name>, field: Option<Name>)
    requires n.Struct? && k < |n.fields|
  {
    match (f, g)
    case (Num(i), Num(j)) => i != j
    case (Chr(c), Chr(d)) => c != d
    case (Bool(b), Bool(c)) => b != c
    case (Enum(x), Enum(y)) =>
      x != y && !(n.tag == "A_Expr" && n.fields[k].name == "kind" && InLike(x) && InLike(y))
    case (Str(s), Str(t)) =>
      if n.tag == "ResTarget" && n.fields[k].name == "name" && parent == Some("SelectStmt") && field == Some("targetList") then false
      else if n.tag == "RangeVar" && n.fields[k].name == "relname" then
        !Temporary(n.fields) && (if s.Some? && t.Some? then StripDigitRuns(s.value) != StripDigitRuns(t.value) else s != t)
      else s != t
    case (Real(s), Real(t)) => s != t
    case (Bits(x), Bits(y)) => Numbers(x) != Numbers(y)
    case _ => false
  }

  /** Kinds of expressions that count as one. */
  predicate InLike(constant: string) {
    constant == "AEXPR_OP" || constant == "AEXPR_OP_ANY" || constant == "AEXPR_IN"
  }

  /** Two trees that differ in one place: a value, or a field that counts, reached through
      fields that count and through lists that are not sorted. */
  ghost predicate Differ(n: Node, m: Node, parent: Option<Name>, field: Option<Name>, depth: nat)
    decreases n, 2
  {
    && depth < 100
    && match (n, m)
       case (Integer(i), Integer(j)) => i != j
       case (Float(s), Float(t)) => s != t
       case (String(s), String(t)) => s != t
       case (BitString(s), BitString(t)) => s != t
       case (List(_, xs), List(_, ys)) =>
         && !Unordered(field) && |xs| == |ys|
         && exists k :: 0 <= k < |xs| && AllButNodes(xs, ys, k) && Differ(xs[k], ys[k], parent, field, depth + 1)
       case (Struct(_, fields), Struct(_, others)) =>
         && !(n.tag == "TypeCast" && CastOfConstant(fields)) && !(m.tag == "TypeCast" && CastOfConstant(others))
         && (StructsDiffer(n, m, parent, field, depth) || TagsDiffer(n.tag, m.tag))
       case _ => false
  }

  /** Tags that count, neither of which begins with the other. */
  predicate TagsDiffer(t: string, u: string) {
    !SilentTag(t) && !SilentTag(u) && !(t <= u) && !(u <= t)
  }

  predicate AllButNodes(xs: seq<Node>, ys: seq<Node>, k: nat) {
    |xs| == |ys| && forall i :: 0 <= i < |xs| && i != k ==> xs[i] == ys[i]
  }

  predicate AllButFields(xs: seq<Field>, ys: seq<Field>, k: nat) {
    k < |xs| == |ys| && xs[k].name == ys[k].name && forall i :: 0 <= i < |xs| && i != k ==> xs[i] == ys[i]
  }

  /** The same for structs without their tags. Whether a relation is temporary must not be
      the difference: that changes two fields. */
  ghost predicate StructsDiffer(n: Node, m: Node, parent: Option<Name>, field: Option<Name>, depth: nat)
    decreases n, 1
  {
    && n.Struct? && m.Struct? && n.tag == m.tag && !SilentTag(n.tag)
    && exists k :: 0 <= k < |n.fields| && AllButFields(n.fields, m.fields, k) && FieldsDiffer(n, m, parent, field, depth, k)
  }

  ghost predicate FieldsDiffer(n: Node, m: Node, parent: Option<Name>, field: Option<Name>, depth: nat, k: nat)
    requires n.Struct? && m.Struct? && k < |n.fields| && k < |m.fields|
    decreases n, 0
  {
    var f, g := n.fields[k], m.fields[k];
    assert f.value < f < n;
    && !Ignored(n.tag, f.name) && !(n.tag == "RangeVar" && f.name == "relpersistence")
    && match (f.value, g.value)
       case (Embedded(x), Embedded(y)) => StructsDiffer(x, y, Some(n.tag), Some(f.name), depth)
       case (Pointer(SpecificPtr, x), Pointer(SpecificPtr, y)) => StructsDiffer(x, y, Some(n.tag), Some(f.name), depth + 1)
       case (Pointer(NodePtr, x), Pointer(NodePtr, y)) => Differ(x, y, Some(n.tag), Some(f.name), depth + 1)
       case (Pointer(ListPtr, x), Pointer(ListPtr, y)) => Differ(x, y, Some(n.tag), Some(f.name), depth + 1)
       case _ => ScalarsDiffer(n, k, f.value, g.value, parent, field)
  }

  // ----- texts that differ

  lemma Behind(name: string, s: string, t: string)
    ensures name + s == name + t <==> s == t
  {
    if name + s == name + t { assert s == (name + s)[|name|..] == (name + t)[|name|..] == t; }
  }

  lemma InFrontOf(a: string, b: string, rest: string)
    ensures a + rest == b + rest <==> a == b
  {
    if a + rest == b + rest {
      assert |a| == |b|;
      assert a == (a + rest)[..|a|] == (b + rest)[..|b|] == b;
    }
  }

  lemma NamedApart(name: Name, s: string, t: string)
    ensures Named(name, s) == Named(name, t) <==> s == t
  {
    Behind(name, s, t);
  }

  lemma LeavesApart(digest: string -> nat, n: Node, m: Node, parent: Option<Name>, field: Option<Name>, depth: nat)
    requires Differ(n, m, parent, field, depth) && !n.List? && !n.Struct?
    ensures Text(digest, n, parent, field, depth) != Text(digest, m, parent, field, depth)
  {
    match (n, m) {
      case (Integer(i), Integer(j)) =>
        Behind("Integerival", Decimal(i), Decimal(j));
        if Decimal(i) == Decimal(j) { DecimalInjective(i, j); }
      case (Float(s), Float(t)) =>
        if s.Some? && t.Some? { Behind("Floatstr", s.value, t.value); }
      case (String(s), String(t)) => Behind("Stringstr", s, t);
      case (BitString(s), BitString(t)) =>
        if s.Some? && t.Some? { Behind("BitStringstr", s.value, t.value); }
    }
  }

  lemma ScalarsApart(n: Node, m: Node, k: nat, parent: Option<Name>, field: Option<Name>)
    requires n.Struct? && m.Struct? && n.tag == m.tag && AllButFields(n.fields, m.fields, k)
    requires ScalarsDiffer(n, k, n.fields[k].value, m.fields[k].value, parent, field)
    requires n.tag == "RangeVar" ==> (Temporary(n.fields) <==> Temporary(m.fields))
    ensures ScalarText(n, n.fields[k], parent, field) != ScalarText(m, m.fields[k], parent, field)
  {
    hide Temporary, StripDigitRuns, Decimal, Numbers;
    var f, g := n.fields[k], m.fields[k];
    match (f.value, g.value) {
      case (Num(i), Num(j)) =>
        Behind(f.name, Decimal(i), Decimal(j));
        if Decimal(i) == Decimal(j) { DecimalInjective(i, j); }
      case (Chr(c), Chr(d)) => Behind(f.name, [c], [d]);
      case (Bool(b), Bool(c)) =>
      case (Enum(x), Enum(y)) =>
        Behind("kind", x, "AEXPR_OP");
        Behind("kind", y, "AEXPR_OP");
        Behind(f.name, x, y);
        assert "kind" + "AEXPR_OP" == "kindAEXPR_OP";
      case (Str(s), Str(t)) =>
        if s.Some? && t.Some? {
          Behind(f.name, s.value, t.value);
          Behind("relname", StripDigitRuns(s.value), StripDigitRuns(t.value));
        }
      case (Real(s), Real(t)) =>
        if s.Some? && t.Some? { Behind(f.name, s.value, t.value); }
      case (Bits(x), Bits(y)) => Behind(f.name, Numbers(x), Numbers(y));
    }
  }

  lemma TemporaryBoth(n: Node, m: Node, k: nat)
    requires n.Struct? && m.Struct? && AllButFields(n.fields, m.fields, k) && n.fields[k].name != "relpersistence"
    ensures Temporary(n.fields) <==> Temporary(m.fields)
  {
    forall i: nat ensures FirstNamed(n.fields, "relpersistence", i) <==> FirstNamed(m.fields, "relpersistence", i) {}
  }

  /** A field that is the same has the same text. */
  lemma SameFieldText(digest: string -> nat, n: Node, m: Node, parent: Option<Name>, field: Option<Name>, depth: nat, i: nat)
    requires n.Struct? && m.Struct? && n.tag == m.tag && i < |n.fields| == |m.fields| && n.fields[i] == m.fields[i]
    requires n.tag == "RangeVar" ==> (Temporary(n.fields) <==> Temporary(m.fields))
    ensures FieldText(digest, n, parent, field, depth, i) == FieldText(digest, m, parent, field, depth, i)
  {
    hide Temporary, Text, OwnText, Ignored;
  }

  /** One field with another text makes another text of the struct. */
  lemma {:induction false} StructTextApart(digest: string -> nat, n: Node, m: Node, parent: Option<Name>, field: Option<Name>,
                                            depth: nat, k: nat, j: nat)
    requires n.Struct? && m.Struct? && k < |n.fields| == |m.fields| && j <= |n.fields|
    requires forall i :: 0 <= i < |n.fields| ==>
      (FieldText(digest, n, parent, field, depth, i) == FieldText(digest, m, parent, field, depth, i) <==> i != k)
    ensures FieldsText(digest, n, parent, field, depth, j) == FieldsText(digest, m, parent, field, depth, j) <==> j <= k
    decreases j
  {
    hide FieldText;
    if j > 0 {
      StructTextApart(digest, n, m, parent, field, depth, k, j - 1);
      var a, b := FieldsText(digest, n, parent, field, depth, j - 1), FieldsText(digest, m, parent, field, depth, j - 1);
      var x, y := FieldText(digest, n, parent, field, depth, j - 1), FieldText(digest, m, parent, field, depth, j - 1);
      if j - 1 == k { Behind(a, x, y); } else { InFrontOf(a, b, x); }
    }
  }

  lemma {:induction false} ListTextApart(digest: string -> nat, xs: seq<Node>, ys: seq<Node>, parent: Option<Name>, field: Option<Name>,
                                          depth: nat, k: nat, j: nat)
    requires AllButNodes(xs, ys, k) && k < |xs| && j <= |xs|
    requires Text(digest, xs[k], parent, field, depth) != Text(digest, ys[k], parent, field, depth)
    ensures ItemsText(digest, xs, parent, field, depth, j) == ItemsText(digest, ys, parent, field, depth, j) <==> j <= k
    decreases j
  {
    hide Text;
    if j > 0 {
      ListTextApart(digest, xs, ys, parent, field, depth, k, j - 1);
      var a, b := ItemsText(digest, xs, parent, field, depth, j - 1), ItemsText(digest, ys, parent, field, depth, j - 1);
      var x, y := Text(digest, xs[j - 1], parent, field, depth), Text(digest, ys[j - 1], parent, field, depth);
      if j - 1 == k { Behind(a, x, y); } else { InFrontOf(a, b, x); }
    }
  }

  /** Main result: trees that differ in one place that counts have different texts. */
  lemma {:induction false} DifferentTexts(digest: string -> nat, n: Node, m: Node, parent: Option<Name>, field: Option<Name>, depth: nat)
    requires Differ(n, m, parent, field, depth)
    ensures Text(digest, n, parent, field, depth) != Text(digest, m, parent, field, depth)
    decreases n, 2
  {
    hide Text, StructsDiffer, TagsDiffer, OwnText, CastOfConstant;
    match n {
      case List(_, xs) =>
        var k :| 0 <= k < |xs| && AllButNodes(xs, m.items, k) && Differ(xs[k], m.items[k], parent, field, depth + 1);
        DifferentTexts(digest, xs[k], m.items[k], parent, field, depth + 1);
        ListTextApart(digest, xs, m.items, parent, field, depth + 1, k, |xs|);
        PlainListText(digest, n, parent, field, depth);
        PlainListText(digest, m, parent, field, depth);
      case Struct(_, _) =>
        if TagsDiffer(n.tag, m.tag) {
          TagsApart(digest, n, m, parent, field, depth);
        } else {
          DifferentStructs(digest, n, m, parent, field, depth);
          TaggedText(digest, n, m, parent, field, depth);
        }
      case _ => LeavesApart(digest, n, m, parent, field, depth);
    }
  }

  lemma PlainListText(digest: string -> nat, n: Node, parent: Option<Name>, field: Option<Name>, depth: nat)
    requires n.List? && depth < 100 && !Unordered(field)
    ensures Text(digest, n, parent, field, depth) == ItemsText(digest, n.items, parent, field, depth + 1, |n.items|)
  {
    hide ItemsText;
  }

  lemma TaggedText(digest: string -> nat, n: Node, m: Node, parent: Option<Name>, field: Option<Name>, depth: nat)
    requires n.Struct? && m.Struct? && n.tag == m.tag && !SilentTag(n.tag) && depth < 100
    requires !(n.tag == "TypeCast" && (CastOfConstant(n.fields) || CastOfConstant(m.fields)))
    ensures Text(digest, n, parent, field, depth) == Text(digest, m, parent, field, depth) <==>
      OwnText(digest, n, parent, field, depth) == OwnText(digest, m, parent, field, depth)
  {
    hide FieldsText, SilentTag, CastOfConstant;
    Behind(n.tag, OwnText(digest, n, parent, field, depth), OwnText(digest, m, parent, field, depth));
  }

  lemma TagsApart(digest: string -> nat, n: Node, m: Node, parent: Option<Name>, field: Option<Name>, depth: nat)
    requires n.Struct? && m.Struct? && TagsDiffer(n.tag, m.tag) && depth < 100
    requires !(n.tag == "TypeCast" && CastOfConstant(n.fields)) && !(m.tag == "TypeCast" && CastOfConstant(m.fields))
    ensures Text(digest, n, parent, field, depth) != Text(digest, m, parent, field, depth)
  {
    hide FieldsText, SilentTag, CastOfConstant;
    var x, y := FieldsText(digest, n, parent, field, depth, |n.fields|), FieldsText(digest, m, parent, field, depth, |m.fields|);
    if n.tag + x == m.tag + y {
      OneBeginsOther(n.tag, x, m.tag, y);
    }
  }

  lemma OneBeginsOther(a: string, x: string, b: string, y: string)
    requires a + x == b + y
    ensures a <= b || b <= a
  {
    if |a| <= |b| {
      assert a == (a + x)[..|a|] == (b + y)[..|a|] == b[..|a|];
    } else {
      assert b == (b + y)[..|b|] == (a + x)[..|b|] == a[..|b|];
    }
  }

  lemma DifferentStructs(digest: string -> nat, n: Node, m: Node, parent: Option<Name>, field: Option<Name>, depth: nat)
    requires StructsDiffer(n, m, parent, field, depth)
    ensures n.Struct? && m.Struct? && n.tag == m.tag && !SilentTag(n.tag)
    ensures OwnText(digest, n, parent, field, depth) != OwnText(digest, m, parent, field, depth)
    decreases n, 1
  {
    hide FieldsDiffer, FieldText, FieldsText, SilentTag, Temporary;
    var k :| 0 <= k < |n.fields| && AllButFields(n.fields, m.fields, k) && FieldsDiffer(n, m, parent, field, depth, k);
    CountsAtRest(n, m, parent, field, depth, k);
    if n.tag == "RangeVar" { TemporaryBoth(n, m, k); }
    DifferentFields(digest, n, m, parent, field, depth, k);
    forall i | 0 <= i < |n.fields| && i != k
      ensures FieldText(digest, n, parent, field, depth, i) == FieldText(digest, m, parent, field, depth, i)
    {
      SameFieldText(digest, n, m, parent, field, depth, i);
    }
    StructTextApart(digest, n, m, parent, field, depth, k, |n.fields|);
  }

  lemma CountsAtRest(n: Node, m: Node, parent: Option<Name>, field: Option<Name>, depth: nat, k: nat)
    requires n.Struct? && m.Struct? && k < |n.fields| && k < |m.fields| && FieldsDiffer(n, m, parent, field, depth, k)
    ensures !Ignored(n.tag, n.fields[k].name) && !(n.tag == "RangeVar" && n.fields[k].name == "relpersistence")
  {
    hide Differ, StructsDiffer, ScalarsDiffer, Ignored;
  }

  lemma DifferentFields(digest: string -> nat, n: Node, m: Node, parent: Option<Name>, field: Option<Name>, depth: nat, k: nat)
    requires n.Struct? && m.Struct? && n.tag == m.tag && AllButFields(n.fields, m.fields, k)
    requires FieldsDiffer(n, m, parent, field, depth, k)
    requires n.tag == "RangeVar" ==> (Temporary(n.fields) <==> Temporary(m.fields))
    ensures FieldText(digest, n, parent, field, depth, k) != FieldText(digest, m, parent, field, depth, k)
    decreases n, 0
  {
    var f, g := n.fields[k], m.fields[k];
    var tag, name := Some(n.tag), Some(f.name);
    assert f.value < f < n;
    hide Differ, StructsDiffer, ScalarsDiffer, ScalarText, Text, OwnText, Ignored, Temporary, Named;
    match (f.value, g.value) {
      case (Embedded(x), Embedded(y)) =>
        DifferentStructs(digest, x, y, tag, name, depth);
        Behind(f.name, OwnText(digest, x, tag, name, depth), OwnText(digest, y, tag, name, depth));
      case (Pointer(SpecificPtr, x), Pointer(SpecificPtr, y)) =>
        DifferentStructs(digest, x, y, tag, name, depth + 1);
        NamedApart(f.name, OwnText(digest, x, tag, name, depth + 1), OwnText(digest, y, tag, name, depth + 1));
      case (Pointer(NodePtr, x), Pointer(NodePtr, y)) =>
        DifferentTexts(digest, x, y, tag, name, depth + 1);
        NamedApart(f.name, Text(digest, x, tag, name, depth + 1), Text(digest, y, tag, name, depth + 1));
      case (Pointer(ListPtr, x), Pointer(ListPtr, y)) =>
        DifferentTexts(digest, x, y, tag, name, depth + 1);
        NamedApart(f.name, Text(digest, x, tag, name, depth + 1), Text(digest, y, tag, name, depth + 1));
      case _ =>
        ScalarFieldsApart(digest, n, m, parent, field, depth, k);
    }
  }

  lemma ScalarFieldsApart(digest: string -> nat, n: Node, m: Node, parent: Option<Name>, field: Option<Name>, depth: nat, k: nat)
    requires n.Struct? && m.Struct? && n.tag == m.tag && AllButFields(n.fields, m.fields, k)
    requires ScalarsDiffer(n, k, n.fields[k].value, m.fields[k].value, parent, field) && !Ignored(n.tag, n.fields[k].name)
    requires n.tag == "RangeVar" ==> (Temporary(n.fields) <==> Temporary(m.fields))
    ensures FieldText(digest, n, parent, field, depth, k) != FieldText(digest, m, parent, field, depth, k)
  {
    hide Text, OwnText, Ignored, Temporary;
    ScalarsApart(n, m, k, parent, field);
    hide ScalarText;
  }

  // ----- what the walks feed

  /** From one start state, walks of trees that differ in one place that counts feed different
      texts. */
  lemma DifferentTreesFeedApart(lib: Lib, st: State, n: Node, m: Node)
    requires Differ(n, m, None, None, 0)
    requires !Walk(lib, st, Root(n)).collided && !Walk(lib, st, Root(m)).collided
    ensures Walk(lib, st, Root(n)).fed != Walk(lib, st, Root(m)).fed
  {
    hide Walk, Text, Differ;
    DifferentTexts(lib.digest, n, m, None, None, 0);
    WalkFeedsText(lib, st, Root(n));
    WalkFeedsText(lib, st, Root(m));
    Behind(st.fed, Text(lib.digest, n, None, None, 0), Text(lib.digest, m, None, None, 0));
  }

  /** They get one fingerprint only if the digest takes their two texts for equal. */
  lemma DifferentTreesOneFingerprint(lib: Lib, n: Node, m: Node)
    requires Differ(n, m, None, None, 0) && Fingerprint(lib, n) == Fingerprint(lib, m)
    requires !Walk(lib, Fresh(), Root(n)).collided && !Walk(lib, Fresh(), Root(m)).collided
    ensures
      var s, t := Text(lib.digest, n, None, None, 0), Text(lib.digest, m, None, None, 0);
      s != t && lib.digest(s) == lib.digest(t)
  {
    hide Walk, Text, Differ;
    DifferentTexts(lib.digest, n, m, None, None, 0);
    FingerprintOfText(lib, n);
    FingerprintOfText(lib, m);
  }

  // ----- sorted lists

  /** The text of the k-th member makes no difference: it has none, or another has it too. */
  ghost predicate MemberShared(digest: string -> nat, xs: seq<Node>, parent: Option<Name>, field: Option<Name>, depth: nat, k: nat)
    requires k < |xs|
  {
    var t := Text(digest, xs[k], parent, field, depth);
    t == "" || exists i :: 0 <= i < |xs| && i != k && Text(digest, xs[i], parent, field, depth) == t
  }

  /** Of a sorted list in which one member was exchanged, the set of texts stays the same if
      and only if the two members have the same text, or neither makes a difference. */
  lemma MembersApartIff(digest: string -> nat, xs: seq<Node>, ys: seq<Node>, parent: Option<Name>, field: Option<Name>, depth: nat, k: nat)
    requires k < |xs| && AllButNodes(xs, ys, k)
    ensures MemberTexts(digest, xs, parent, field, depth) == MemberTexts(digest, ys, parent, field, depth) <==>
      || Text(digest, xs[k], parent, field, depth) == Text(digest, ys[k], parent, field, depth)
      || (MemberShared(digest, xs, parent, field, depth, k) && MemberShared(digest, ys, parent, field, depth, k))
  {
    hide Text, MemberTexts, MemberShared;
    OthersAndOne(digest, xs, parent, field, depth, k);
    OthersAndOne(digest, ys, parent, field, depth, k);
    SameOthers(digest, xs, ys, parent, field, depth, k);
    var o := OtherTexts(digest, xs, parent, field, depth, k);
    var s, t := Text(digest, xs[k], parent, field, depth), Text(digest, ys[k], parent, field, depth);
    hide OtherTexts;
    assert o + Audible(s) == o + Audible(t) <==> s == t || ((s == "" || s in o) && (t == "" || t in o)) by { AddedApart(o, s, t); }
  }

  lemma AddedApart(o: set<string>, s: string, t: string)
    requires "" !in o
    ensures o + Audible(s) == o + Audible(t) <==> s == t || ((s == "" || s in o) && (t == "" || t in o))
  {
    if o + Audible(s) == o + Audible(t) && s != t {
      if s != "" { assert s in o + Audible(s); }
      if t != "" { assert t in o + Audible(t); }
    }
  }

  /** The texts of the members other than the k-th. */
  ghost function OtherTexts(digest: string -> nat, xs: seq<Node>, parent: Option<Name>, field: Option<Name>, depth: nat, k: nat):
    set<string>
  {
    set i | 0 <= i < |xs| && i != k && Text(digest, xs[i], parent, field, depth) != "" :: Text(digest, xs[i], parent, field, depth)
  }

  lemma OthersAndOne(digest: string -> nat, xs: seq<Node>, parent: Option<Name>, field: Option<Name>, depth: nat, k: nat)
    requires k < |xs|
    ensures
      var o, t := OtherTexts(digest, xs, parent, field, depth, k), Text(digest, xs[k], parent, field, depth);
      && MemberTexts(digest, xs, parent, field, depth) == o + Audible(t) && "" !in o
      && (MemberShared(digest, xs, parent, field, depth, k) <==> t == "" || t in o)
  {
    hide Text;
  }

  lemma SameOthers(digest: string -> nat, xs: seq<Node>, ys: seq<Node>, parent: Option<Name>, field: Option<Name>, depth: nat, k: nat)
    requires k < |xs| && AllButNodes(xs, ys, k)
    ensures OtherTexts(digest, xs, parent, field, depth, k) == OtherTexts(digest, ys, parent, field, depth, k)
  {
    hide Text;
    forall i | 0 <= i < |xs| && i != k ensures Text(digest, xs[i], parent, field, depth) == Text(digest, ys[i], parent, field, depth) {}
  }

  /** The texts of a sorted list are fed one after the other in the order of their digests. */
  lemma {:induction false} JoinIsSorted(digest: string -> nat, texts: set<string>, s: seq<string>)
    requires forall x :: x in texts <==> x in s
    requires forall i, j :: 0 <= i < j < |s| ==> digest(s[i]) < digest(s[j])
    ensures Join(digest, texts) == Flatten(s)
    decreases |s|
  {
    if s == [] {
      assert texts == {};
    } else {
      var n, last := |s| - 1, s[|s| - 1];
      WithoutLast(digest, texts, s);
      hide Join, Flatten;
      JoinIsSorted(digest, texts - {last}, s[..n]);
      JoinGreatest(digest, texts - {last}, last);
      assert texts - {last} + {last} == texts;
      FlattenNext(s);
    }
  }

  lemma FlattenNext(s: seq<string>)
    requires s != []
    ensures Flatten(s) == Flatten(s[..|s| - 1]) + s[|s| - 1]
  {}

  lemma WithoutLast(digest: string -> nat, texts: set<string>, s: seq<string>)
    requires s != [] && forall x :: x in texts <==> x in s
    requires forall i, j :: 0 <= i < j < |s| ==> digest(s[i]) < digest(s[j])
    ensures
      var n, last := |s| - 1, s[|s| - 1];
      && last in texts && (forall x :: x in texts - {last} ==> digest(x) < digest(last))
      && (forall x :: x in texts - {last} <==> x in s[..n])
  {
    var n, last := |s| - 1, s[|s| - 1];
    assert s == s[..n] + [last];
    forall x | x in s[..n] ensures digest(x) < digest(last) {
      var i :| 0 <= i < n && s[..n][i] == x;
      assert s[i] == x;
    }
  }

  // ----- a difference that is lost

  /** A Bitmapset is spelled without separators: {1, 2} and {12} have the same text. */
  lemma BitsRunTogether(name: Name)
    ensures
      var n, m := Struct("x", [Field(name, Bits([1, 2]))]), Struct("x", [Field(name, Bits([12]))]);
      ScalarText(n, n.fields[0], None, None) == ScalarText(m, m.fields[0], None, None)
  {
    SpellTwelve();
    hide Numbers;
  }

  lemma SpellTwelve()
    ensures Numbers([1, 2]) == "12" && Numbers([12]) == "12"
  {
    assert Digits(12) == Digits(1) + "2";
    assert [12][..0] == [] && [1, 2][..1] == [1] && [1][..0] == [];
    assert Numbers([1]) == Numbers([]) + Decimal(1);
    assert Numbers([1, 2]) == Numbers([1]) + Decimal(2);
    assert Numbers([12]) == Numbers([]) + Decimal(12);
  }
}
