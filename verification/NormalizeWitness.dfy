/** Inputs on which normalization does not do what it is meant to do. */
module NormalizeWitness {
  import opened Common
  import opened NormalizeLengths
  import opened NormalizeMeasured
  import opened NormalizeSplice
  import opened NormalizeWalk
  import opened NormalizeIds
  import opened NormalizeTrees
  import opened NormalizeSums
  import opened NormalizeTheorems
  import P = ParseTree
  import F = FingerprintWalk
  import S = FingerprintSimilar

  // ----- an escape string as a password

  const ROLE: string := "CREATE ROLE r PASSWORD E'a' LOGIN"

  const ROLE_TOKENS: seq<Token> := [Token(0, 6), Token(7, 11), Token(12, 13), Token(14, 22), Token(23, 27), Token(28, 33)]

  /** The option is located at its keyword; its quote is not where its token starts. */
  const PASSWORD: Node := DefElem("password", StringValue("a"), 14)

  lemma QuoteAt(query: string, i: nat, quote: nat)
    requires i <= quote < |query| && query[quote] == '\'' && forall j :: i <= j < quote ==> query[j] != '\''
    ensures QuoteFrom(query, i) == quote
  {}

  /** The walk records the quote; the length found for it takes in the next keyword, which
      is lost from the normalized query. */
  lemma EscapePasswordTakesNextToken(env: Env)
    requires env.query == ROLE
    ensures
      var consts := Walk(env, INIT, PASSWORD).consts;
      && consts == [ConstLoc(24, -1, -1)] && WellScanned(ROLE, ROLE_TOKENS) && Recorded(ROLE, consts)
      && OnePass(ROLE, ROLE_TOKENS, consts) == [ConstLoc(24, 9, -1)]
      && !WellMeasured(ROLE, ROLE_TOKENS, [ConstLoc(24, 9, -1)])
      && Fits(ROLE, EditsOf([ConstLoc(24, 9, -1)], 0, 1))
      && Spliced(ROLE, EditsOf([ConstLoc(24, 9, -1)], 0, 1)) == "CREATE ROLE r PASSWORD E$1"
  {
    QuoteAt(ROLE, 14, 24);
    assert Walk(env, INIT, PASSWORD).consts == [ConstLoc(24, -1, -1)];
    RoleLength();
    RoleMisplaced();
    RoleSpliced();
  }

  /** The quote lies in the string's token, whose text has three characters. */
  lemma RoleMisplaced()
    ensures WellScanned(ROLE, ROLE_TOKENS) && !WellMeasured(ROLE, ROLE_TOKENS, [ConstLoc(24, 9, -1)])
  {
    var recs := [ConstLoc(24, 9, -1)];
    assert IsFirst(recs, 0);
    forall k | 0 <= k < |ROLE_TOKENS| ensures !EndsWith(ROLE, ROLE_TOKENS, recs[0], k) {
      assert k == 4 || !(ROLE_TOKENS[k].start <= 24 < ROLE_TOKENS[k].end);
      assert ROLE[24] != '-' && LastToken(ROLE, 24, 4) == 4;
    }
  }

  lemma RoleLength()
    ensures WellScanned(ROLE, ROLE_TOKENS) && Recorded(ROLE, [ConstLoc(24, -1, -1)])
    ensures OnePass(ROLE, ROLE_TOKENS, [ConstLoc(24, -1, -1)]) == [ConstLoc(24, 9, -1)]
  {
    assert FirstFrom(ROLE_TOKENS, 4, 24) == 5;
    assert FirstFrom(ROLE_TOKENS, 2, 24) == 5;
    assert FirstFrom(ROLE_TOKENS, 0, 24) == 5;
    assert !HasUnicodePrefix(ROLE, 24, 9);
    OnePassAt(ROLE, ROLE_TOKENS, [ConstLoc(24, -1, -1)], 0);
  }

  lemma RoleSpliced()
    ensures
      var edits := EditsOf([ConstLoc(24, 9, -1)], 0, 1);
      Fits(ROLE, edits) && Spliced(ROLE, edits) == "CREATE ROLE r PASSWORD E$1"
  {
    var recs, edits := [ConstLoc(24, 9, -1)], [Edit(24, 9, "$1")];
    assert Decimal(1) == "1";
    assert EditOf(recs[0], 0) == edits[0];
    assert EditsOf(recs, 0, 1) == EditsOf(recs, 0, 0) + [EditOf(recs[0], 0)];
    assert EditsOf(recs, 0, 1) == edits;
    assert Gap(ROLE, edits, 0) == "CREATE ROLE r PASSWORD E";
    assert Written(ROLE, edits, 1) == "" + "CREATE ROLE r PASSWORD E" + "$1" == "CREATE ROLE r PASSWORD E$1";
    assert Spliced(ROLE, edits) == "CREATE ROLE r PASSWORD E$1" + ROLE[33..];
    assert "CREATE ROLE r PASSWORD E$1" + ROLE[33..] == "CREATE ROLE r PASSWORD E$1";
  }

  // ----- two constants, one parameter

  function Const(location: nat): Node { AConst(false, location) }

  /** (SELECT c3 GROUP BY c4) */
  const INNER: Node := Select("", [], [Target(Null, Const(3))], [], [Const(4)], [], [])

  /** g(c1, c2) */
  const PAIR: Node := Other("g", [Const(1), Const(2)])

  /** g($1, $2) */
  const PARAMS: Node := Other("g", [ParamRef(1), ParamRef(2)])

  /** f(f(...f(x)...)), k calls. */
  function Deep(k: nat, x: Node): Node {
    if k == 0 then x else Other("f", [Deep(k - 1, x)])
  }

  /** SELECT f(...pair...) ... GROUP BY f(...(SELECT c3 GROUP BY c4)...) LIMIT ... */
  function Outer(pair: Node, limit: seq<Node>): Node {
    Select("", [], [Target(Null, Deep(50, pair))], [], [Deep(50, INNER)], [], limit)
  }

  lemma {:induction false} DeepWalk(env: Env, st: State, k: nat, x: Node)
    ensures Walk(env, st, Deep(k, x)) == Walk(env, st, x)
  {
    if k > 0 {
      var kids := [Deep(k - 1, x)];
      assert WalkAll(env, st, kids, 1) == Walk(env, WalkAll(env, st, kids, 0), kids[0]);
      DeepWalk(env, st, k - 1, x);
    }
  }

  /** A list of one target element. */
  lemma OneTarget(env: Env, st: State, value: Node)
    ensures
      var walked := Walk(env, st.(refs := Some([])), value);
      WalkTargets(env, st, [Target(Null, value)], 1) == (walked.(refs := None), [Entry(env.fp(value), RefsOf(walked))])
  {
    var ts, walked := [Target(Null, value)], Walk(env, st.(refs := Some([])), value);
    NullWalk(env, st.(refs := Some([])));
    hide Walk;
    assert WalkTarget(env, st, ts, 0) == walked;
    assert WalkTargets(env, st, ts, 0) == (st, []);
    assert [] + [Entry(env.fp(value), RefsOf(walked))] == [Entry(env.fp(value), RefsOf(walked))];
  }

  lemma NullWalk(env: Env, st: State)
    ensures Walk(env, st, Null) == st
  {}

  /** A list of one GROUP BY item that matches the only entry. */
  lemma OneItem(env: Env, st: State, e: Entry, item: Node)
    requires !IsIntegerConst(item) && env.fp(item) == e.fp
    ensures WalkGroup(env, (st, [e]), [item], 1) == (Lend(st, Walk(env, st, item), e.refs), [])
  {
    assert WalkGroup(env, (st, [e]), [item], 0) == (st, [e]);
    assert Find([e], e.fp) == 0;
    assert [e][..0] + [e][1..] == [];
  }

  /** A SELECT with nothing but a target list, a GROUP BY list and a rest. */
  lemma SimpleSelect(env: Env, st: State, ts: seq<Target>, group: seq<Node>, after: seq<Node>)
    ensures Walk(env, st, Select("", [], ts, [], group, [], after)) ==
      WalkAll(env, WalkGroup(env, WalkTargets(env, st, ts, |ts|), group, |group|).0, after, |after|)
  {
    hide WalkTargets, WalkGroup;
    SelectUnfolds(env, st, Select("", [], ts, [], group, [], after));
  }

  lemma InnerWalk(env: Env, st: State)
    requires env.fp(Const(3)) == env.fp(Const(4)) && Sized(st) && st.refs.None?
    ensures
      var n := st.nextId;
      Walk(env, st, INNER) == st.(
        consts := st.consts + [ConstLoc(3, -1, -n), ConstLoc(4, -1, -n)],
        reused := st.reused + [false, true],
        nextId := n + 1)
  {
    var n := st.nextId;
    var s2, e := Record(st, 3), Entry(env.fp(Const(3)), [-n]);
    RecordForget(st, 3);
    TwoRecorded(st);
    hide WalkTargets, WalkGroup, WalkAll, Walk, Lend, Record, Const;
    OneTarget(env, st, Const(3));
    OneItem(env, s2, e, Const(4));
    SimpleSelect(env, st, [Target(Null, Const(3))], [Const(4)], []);
  }

  /** A recording that is switched on for one constant. */
  lemma RecordForget(st: State, location: nat)
    requires st.refs.None?
    ensures Record(st.(refs := Some([])), location).(refs := None) == Record(st, location)
    ensures RefsOf(Record(st.(refs := Some([])), location)) == [-st.nextId]
  {
    assert [] + [-st.nextId] == [-st.nextId];
  }

  lemma TwoRecorded(st: State)
    requires Sized(st) && st.refs.None?
    ensures
      var n := st.nextId;
      Lend(Record(st, 3), Record(Record(st, 3), 4), [-n]) == st.(
        consts := st.consts + [ConstLoc(3, -1, -n), ConstLoc(4, -1, -n)],
        reused := st.reused + [false, true],
        nextId := n + 1)
  {
    var n, s2 := st.nextId, Record(st, 3);
    assert s2.consts + [ConstLoc(4, -1, -n)] == st.consts + [ConstLoc(3, -1, -n), ConstLoc(4, -1, -n)];
    assert s2.reused + [true] == st.reused + [false, true];
  }

  /** The fingerprints of both long expressions are the same, and those of constants. */
  ghost predicate Confuses(env: Env, pair: Node) {
    env.fp(Const(3)) == env.fp(Const(4)) && env.fp(Deep(50, pair)) == env.fp(Deep(50, INNER))
  }

  lemma ConstantsConfused(env: Env, pair: Node)
    requires Confuses(env, pair)
    ensures env.fp(Const(3)) == env.fp(Const(4))
  {}

  lemma OuterWalk(env: Env, pair: Node, limit: seq<Node>)
    requires Confuses(env, pair)
    ensures
      var walked := Walk(env, INIT.(refs := Some([])), pair);
      var s2 := walked.(refs := None);
      Walk(env, INIT, Outer(pair, limit)) == WalkAll(env, Lend(s2, Walk(env, s2, INNER), RefsOf(walked)), limit, |limit|)
  {
    var target, item := Deep(50, pair), Deep(50, INNER);
    var walked := Walk(env, INIT.(refs := Some([])), pair);
    DeepWalk(env, INIT.(refs := Some([])), 50, pair);
    DeepWalk(env, walked.(refs := None), 50, INNER);
    DeepIsNoInteger(50, INNER);
    hide Walk, WalkTargets, WalkGroup, WalkAll, Deep;
    OneTarget(env, INIT, target);
    OneItem(env, walked.(refs := None), Entry(env.fp(target), RefsOf(walked)), item);
    SimpleSelect(env, INIT, [Target(Null, target)], [item], limit);
  }

  lemma DeepIsNoInteger(k: nat, x: Node)
    requires k > 0
    ensures !IsIntegerConst(Deep(k, x))
  {}

  lemma OneRest(env: Env, st: State, location: nat)
    ensures WalkAll(env, st, [Const(location)], 1) == Record(st, location)
    ensures WalkAll(env, st, [], 0) == st
  {
    assert WalkAll(env, st, [Const(location)], 0) == st;
  }

  const BEHIND_PAIR: State :=
    State([ConstLoc(1, -1, -1), ConstLoc(2, -1, -2), ConstLoc(3, -1, -1), ConstLoc(4, -1, -2)], 2, 0, None, [false, false, true, true])

  const BEHIND_PARAMS: State := State([ConstLoc(3, -1, 1), ConstLoc(4, -1, 2)], 0, 2, None, [true, true])

  /** Behind g(c1, c2) and the item: c1 and c2 hold ids 1 and 2, c3 and c4 take them over,
      and the counter stands at 2 instead of 3. */
  lemma PairWalk(env: Env, limit: seq<Node>)
    requires Confuses(env, PAIR)
    ensures Walk(env, INIT, Outer(PAIR, limit)) == WalkAll(env, BEHIND_PAIR, limit, |limit|)
  {
    ConstantsConfused(env, PAIR);
    hide Walk, WalkAll, Lend, Record, Outer, Confuses, RefsOf, Const;
    var s2 := State([ConstLoc(1, -1, -1), ConstLoc(2, -1, -2)], 3, 0, None, [false, false]);
    PairRecorded(env);
    OuterWalk(env, PAIR, limit);
    InnerWalk(env, s2);
    LentPair(s2, Walk(env, s2, INNER), [-1, -2]);
    assert [ConstLoc(1, -1, -1), ConstLoc(2, -1, -2)] + [ConstLoc(3, -1, -1), ConstLoc(4, -1, -2)] ==
      [ConstLoc(1, -1, -1), ConstLoc(2, -1, -2), ConstLoc(3, -1, -1), ConstLoc(4, -1, -2)];
    assert [false, false] + [true, true] == [false, false, true, true];
  }

  lemma PairRecorded(env: Env)
    ensures
      var walked, s2 := Walk(env, INIT.(refs := Some([])), PAIR), Record(Record(INIT, 1), 2);
      && walked.(refs := None) == s2 && RefsOf(walked) == [-1, -2]
      && s2 == State([ConstLoc(1, -1, -1), ConstLoc(2, -1, -2)], 3, 0, None, [false, false])
  {
    var start, kids := INIT.(refs := Some([])), [Const(1), Const(2)];
    assert WalkAll(env, start, kids, 1) == Record(WalkAll(env, start, kids, 0), 1);
    assert WalkAll(env, start, kids, 2) == Record(WalkAll(env, start, kids, 1), 2);
  }

  /** Behind g($1, $2) and the item: c3 and c4 have taken over $1 and $2, and the counter
      stands at 0 instead of 1. */
  lemma ParamsWalk(env: Env, limit: seq<Node>)
    requires Confuses(env, PARAMS)
    ensures Walk(env, INIT, Outer(PARAMS, limit)) == WalkAll(env, BEHIND_PARAMS, limit, |limit|)
  {
    ConstantsConfused(env, PARAMS);
    hide Walk, WalkAll, Lend, Outer, Confuses, RefsOf, Const;
    var s2 := INIT.(highestExtern := 2);
    ParamsRecorded(env);
    OuterWalk(env, PARAMS, limit);
    InnerWalk(env, s2);
    LentPair(s2, Walk(env, s2, INNER), [1, 2]);
    assert [] + [ConstLoc(3, -1, 1), ConstLoc(4, -1, 2)] == [ConstLoc(3, -1, 1), ConstLoc(4, -1, 2)];
    assert [] + [true, true] == [true, true];
  }

  lemma ParamsRecorded(env: Env)
    ensures
      var walked := Walk(env, INIT.(refs := Some([])), PARAMS);
      walked.(refs := None) == INIT.(highestExtern := 2) && RefsOf(walked) == [1, 2]
  {
    var start, kids := INIT.(refs := Some([])), [ParamRef(1), ParamRef(2)];
    assert WalkAll(env, start, kids, 1) == Param(WalkAll(env, start, kids, 0), 1);
    assert WalkAll(env, start, kids, 2) == Param(WalkAll(env, start, kids, 1), 2);
  }

  /** The two constants recorded last take ids over. */
  lemma LentPair(before: State, walked: State, ids: seq<int>)
    requires Sized(before) && |ids| == 2
    requires walked.consts == before.consts + [ConstLoc(3, -1, -before.nextId), ConstLoc(4, -1, -before.nextId)]
    requires walked.reused == before.reused + [false, true]
    ensures Lend(before, walked, ids) == walked.(
      consts := before.consts + [ConstLoc(3, -1, ids[0]), ConstLoc(4, -1, ids[1])],
      reused := before.reused + [true, true],
      nextId := walked.nextId - 2)
  {
    var n := |before.consts|;
    var tail := [ConstLoc(3, -1, -before.nextId), ConstLoc(4, -1, -before.nextId)];
    assert walked.consts[..n] == before.consts && walked.reused[..n] == before.reused && walked.consts[n..] == tail;
    assert Relabelled(tail, ids) == [ConstLoc(3, -1, ids[0]), ConstLoc(4, -1, ids[1])];
    assert seq(2, _ => true) == [true, true];
  }

  // ----- the fingerprint does confuse them

  /** A parse tree of the shape of a node: every node with children is a function call. */
  function Tree(n: Node): P.Node
    decreases n, 1
  {
    match n
    case Null => P.Null
    case AConst(_, location) => P.Struct("A_Const", [P.Field("location", P.Num(location))])
    case ParamRef(number) => P.Struct("ParamRef", [P.Field("number", P.Num(number))])
    case StringValue(detail) => P.String(detail)
    case TypeName(detail) => P.Struct("TypeName", [NameField("names", detail)])
    case DefElem(detail, arg, start) =>
      P.Struct("DefElem",
        [P.Field("arg", P.Pointer(P.NodePtr, Tree(arg))), P.Field("defname", P.Str(Some(detail))), P.Field("location", P.Num(start))])
    case SortBy(detail, key) =>
      P.Struct("SortBy", [P.Field("node", P.Pointer(P.NodePtr, Tree(key))), P.Field("sortby_dir", P.Enum(detail))])
    case Wrapper(detail, child) =>
      P.Struct(if detail == "" then "RawStmt" else detail, [P.Field("stmt", P.Pointer(P.NodePtr, Tree(child)))])
    case Other(detail, children) => Call(detail, Trees(children))
    case Select(detail, before, targets, middle, group, sort, after) =>
      P.Struct("SelectStmt",
        [ListField("distinctClause", Trees(before)), ListField("fromClause", Trees(middle)), ListField("groupClause", Trees(group)),
         P.Field("op", P.Enum(detail)), ListField("sortClause", Trees(sort)), ListField("targetList", TargetTrees(targets)),
         ListField("valuesLists", Trees(after))])
  }

  function Call(name: string, args: seq<P.Node>): P.Node {
    P.Struct("FuncCall", [ListField("args", args), NameField("funcname", name)])
  }

  function NameField(field: P.Name, name: string): P.Field {
    ListField(field, [P.String(name)])
  }

  function ListField(name: P.Name, items: seq<P.Node>): P.Field {
    P.Field(name, P.Pointer(P.ListPtr, P.List(0, items)))
  }

  function Trees(ns: seq<Node>): seq<P.Node>
    decreases ns, 0
  {
    if ns == [] then [] else [Tree(ns[0])] + Trees(ns[1..])
  }

  function TargetTrees(ts: seq<Target>): seq<P.Node>
    decreases ts, 0
  {
    if ts == [] then []
    else
      assert ts[0].indirection < ts[0] && ts[0].value < ts[0];
      [P.Struct("ResTarget", [P.Field("indirection", P.Pointer(P.NodePtr, Tree(ts[0].indirection))),
                              P.Field("val", P.Pointer(P.NodePtr, Tree(ts[0].value)))])] + TargetTrees(ts[1..])
  }

  /** Normalization with the fingerprint of the other model. */
  function Fingerprinting(lib: F.Lib, query: string, ahead: char): Env {
    Env((n: Node) => F.Fingerprint(lib, Tree(n)), query, ahead)
  }

  lemma OneTree(n: Node)
    ensures Trees([n]) == [Tree(n)]
  {
    hide Tree;
    assert [n][1..] == [] && Trees([]) == [];
  }

  lemma DeepTree(k: nat, x: Node)
    requires k > 0
    ensures Tree(Deep(k, x)) == Call("f", [Tree(Deep(k - 1, x))])
  {
    OneTree(Deep(k - 1, x));
    hide Trees;
  }

  lemma {:induction false} DeepAlike(k: nat, x: Node, y: Node, field: Option<P.Name>, depth: nat)
    requires depth + 2 * k >= P.MAX_DEPTH
    ensures S.Alike(Tree(Deep(k, x)), Tree(Deep(k, y)), field, depth, false)
  {
    if k == 0 {
      TooDeep(Tree(x), Tree(y), field, depth);
    } else {
      hide Tree, Deep, S.Alike;
      DeepAlike(k - 1, x, y, Some("args"), depth + 2);
      CallsAlike("f", Tree(Deep(k - 1, x)), Tree(Deep(k - 1, y)), field, depth);
      DeepTree(k, x);
      DeepTree(k, y);
    }
  }

  lemma TooDeep(a: P.Node, b: P.Node, field: Option<P.Name>, depth: nat)
    requires depth >= P.MAX_DEPTH
    ensures S.Alike(a, b, field, depth, false)
  {}

  lemma CallsAlike(name: string, a: P.Node, b: P.Node, field: Option<P.Name>, depth: nat)
    requires S.Alike(a, b, Some("args"), depth + 2, false)
    ensures S.Alike(Call(name, [a]), Call(name, [b]), field, depth, false)
  {
    hide S.Alike, S.AlikeItems, S.AlikeFields;
    OneItemLists(a, b, Some("args"), depth + 2);
    ListsAlike([a], [b], Some("args"), depth + 1);
    var f, g, h := ListField("args", [a]), ListField("args", [b]), NameField("funcname", name);
    FieldsAlike(f, g, h, depth);
    CallAlike([f, h], [g, h], field, depth);
  }

  lemma CallAlike(f: seq<P.Field>, g: seq<P.Field>, field: Option<P.Name>, depth: nat)
    requires S.AlikeFields("FuncCall", f, g, depth)
    ensures S.Alike(P.Struct("FuncCall", f), P.Struct("FuncCall", g), field, depth, false)
  {
    hide S.AlikeFields;
  }

  lemma OneItemLists(a: P.Node, b: P.Node, field: Option<P.Name>, depth: nat)
    requires S.Alike(a, b, field, depth, false)
    ensures S.AlikeItems([a], [b], field, depth)
  {
    hide S.Alike;
    assert S.Alike(a, [b][0], field, depth, false) && S.Alike([a][0], b, field, depth, false);
    assert S.AlikeToOne(a, [b], field, depth) && S.OneAlikeTo([a], b, field, depth);
  }

  lemma ListsAlike(x: seq<P.Node>, y: seq<P.Node>, field: Option<P.Name>, depth: nat)
    requires S.AlikeItems(x, y, field, depth + 1)
    ensures S.Alike(P.List(0, x), P.List(0, y), field, depth, false)
  {
    hide S.AlikeItems;
  }

  lemma FieldsAlike(f: P.Field, g: P.Field, h: P.Field, depth: nat)
    requires f.name == g.name && f.value.Pointer? && g.value.Pointer? && f.value.kind == g.value.kind == P.ListPtr
    requires P.PointerIsSet(P.ListPtr, f.value.target) && P.PointerIsSet(P.ListPtr, g.value.target)
    requires S.Alike(f.value.target, g.value.target, Some(f.name), depth + 1, false)
    ensures S.AlikeFields("FuncCall", [f, h], [g, h], depth)
  {
    S.SameFieldAlike("FuncCall", h, depth);
    hide S.Alike, S.Mute;
  }

  lemma SilentFeedsNothing(lib: F.Lib, n: P.Node)
    requires S.Silent(n, false)
    ensures F.Walk(lib, F.Fresh(), P.Root(n)).fed == ""
  {}

  lemma ConstantsSame(lib: F.Lib)
    ensures F.Fingerprint(lib, Tree(Const(3))) == F.Fingerprint(lib, Tree(Const(4)))
  {
    hide F.Walk;
    SilentFeedsNothing(lib, Tree(Const(3)));
    SilentFeedsNothing(lib, Tree(Const(4)));
  }

  /** Below depth 100 the fingerprint sees nothing: without a digest collision it confuses
      the two long expressions, whatever stands at the bottom of the first. */
  lemma DeepConfuses(lib: F.Lib, query: string, ahead: char, pair: Node)
    requires !F.Walk(lib, F.Fresh(), P.Root(Tree(Deep(50, pair)))).collided
    requires !F.Walk(lib, F.Fresh(), P.Root(Tree(Deep(50, INNER)))).collided
    ensures Confuses(Fingerprinting(lib, query, ahead), pair)
  {
    ConstantsSame(lib);
    DeepAlike(50, pair, INNER, None, 0);
    hide F.Walk, F.Fingerprint, Tree, Deep, S.Alike;
    S.AlikeTreesSameFingerprint(lib, Tree(Deep(50, pair)), Tree(Deep(50, INNER)));
  }

  /** Two constants of one query become the same parameter, because the fingerprint does not
      look below depth 100: c2 and c5, of which neither took its id over. */
  lemma DeepCallsShare(lib: F.Lib, query: string, ahead: char)
    requires !F.Walk(lib, F.Fresh(), P.Root(Tree(Deep(50, PAIR)))).collided
    requires !F.Walk(lib, F.Fresh(), P.Root(Tree(Deep(50, INNER)))).collided
    ensures
      var env := Fingerprinting(lib, query, ahead);
      var end := Walk(env, INIT, Outer(PAIR, [Const(5)]));
      && Late(env, Outer(PAIR, [Const(5)])) && |end.consts| == |end.reused| == 5
      && end.consts[1] == ConstLoc(2, -1, -2) && !end.reused[1]
      && end.consts[4] == ConstLoc(5, -1, -2) && !end.reused[4]
  {
    DeepConfuses(lib, query, ahead, PAIR);
    hide *;
    ConfusedShare(Fingerprinting(lib, query, ahead));
  }

  lemma ConfusedShare(env: Env)
    requires Confuses(env, PAIR)
    ensures
      var end := Walk(env, INIT, Outer(PAIR, [Const(5)]));
      && Late(env, Outer(PAIR, [Const(5)])) && |end.consts| == |end.reused| == 5
      && end.consts[1] == ConstLoc(2, -1, -2) && !end.reused[1]
      && end.consts[4] == ConstLoc(5, -1, -2) && !end.reused[4]
  {
    hide Walk, WalkAll, Late, Outer, Confuses;
    var tree := Outer(PAIR, [Const(5)]);
    PairWalk(env, [Const(5)]);
    OneRest(env, BEHIND_PAIR, 5);
    if !Late(env, tree) { SharingNeedsReuse(env, tree, 1, 4); }
  }

  /** A constant becomes parameter 0: c5, which took nothing over, behind an item that takes
      over two outside parameters. */
  lemma DeepCallsGiveZero(lib: F.Lib, query: string, ahead: char)
    requires !F.Walk(lib, F.Fresh(), P.Root(Tree(Deep(50, PARAMS)))).collided
    requires !F.Walk(lib, F.Fresh(), P.Root(Tree(Deep(50, INNER)))).collided
    ensures
      var env := Fingerprinting(lib, query, ahead);
      var end := Walk(env, INIT, Outer(PARAMS, [Const(5)]));
      && Late(env, Outer(PARAMS, [Const(5)])) && |end.consts| == |end.reused| == 3
      && end.consts[2] == ConstLoc(5, -1, 0) && !end.reused[2] && ParamNumber(end.consts[2], end.highestExtern) == 0
  {
    DeepConfuses(lib, query, ahead, PARAMS);
    hide *;
    ConfusedGiveZero(Fingerprinting(lib, query, ahead));
  }

  lemma ConfusedGiveZero(env: Env)
    requires Confuses(env, PARAMS)
    ensures
      var end := Walk(env, INIT, Outer(PARAMS, [Const(5)]));
      && Late(env, Outer(PARAMS, [Const(5)])) && |end.consts| == |end.reused| == 3
      && end.consts[2] == ConstLoc(5, -1, 0) && !end.reused[2] && ParamNumber(end.consts[2], end.highestExtern) == 0
  {
    hide Walk, WalkAll, Late, Outer, Confuses;
    ParamsWalk(env, [Const(5)]);
    OneRest(env, BEHIND_PARAMS, 5);
    OwnParametersIff(env, Outer(PARAMS, [Const(5)]));
  }

  /** Doubling alone does no harm: without a constant behind it the same statement keeps
      ids 1 and 2 for c1 and c2, which c3 and c4 take over. */
  lemma DeepCallsAlone(lib: F.Lib, query: string, ahead: char)
    requires !F.Walk(lib, F.Fresh(), P.Root(Tree(Deep(50, PAIR)))).collided
    requires !F.Walk(lib, F.Fresh(), P.Root(Tree(Deep(50, INNER)))).collided
    ensures
      var env := Fingerprinting(lib, query, ahead);
      var end := Walk(env, INIT, Outer(PAIR, []));
      && Doubles(env, Outer(PAIR, [])) && !Late(env, Outer(PAIR, []))
      && |end.consts| == |end.reused| == 4 && Fresh(end) == [1, 2]
  {
    DeepConfuses(lib, query, ahead, PAIR);
    hide *;
    ConfusedAlone(Fingerprinting(lib, query, ahead));
  }

  lemma ConfusedAlone(env: Env)
    requires Confuses(env, PAIR)
    ensures
      var end := Walk(env, INIT, Outer(PAIR, []));
      && Doubles(env, Outer(PAIR, [])) && !Late(env, Outer(PAIR, []))
      && |end.consts| == |end.reused| == 4 && Fresh(end) == [1, 2]
  {
    hide Walk, WalkAll, Late, Doubles, Outer, Confuses;
    PairWalk(env, []);
    OneRest(env, BEHIND_PAIR, 5);
    FreshPair(BEHIND_PAIR.consts, BEHIND_PAIR.reused);
    IdsExactIff(env, Outer(PAIR, []));
    OwnParametersIff(env, Outer(PAIR, []));
  }

  lemma FreshPair(consts: seq<ConstLoc>, reused: seq<bool>)
    requires |consts| == 4 && reused == [false, false, true, true]
    requires consts[0].paramId == -1 && consts[1].paramId == -2
    ensures FreshIds(consts, reused) == [1, 2] && Clean([1, 2]) && |UpTo(1)| == 1
  {
    assert FreshIds(consts[..1], reused[..1]) == [1];
    FreshIdsNext(consts[..1], reused[..1], consts[1], false);
    FreshIdsReusedTail(consts[..2], reused[..2], consts[2..], reused[2..]);
    assert consts[..1] + [consts[1]] == consts[..2] && reused[..1] + [false] == reused[..2];
    assert consts[..2] + consts[2..] == consts && reused[..2] + reused[2..] == reused;
    assert UpTo(1) == [1] && UpTo(2) == UpTo(1) + [2];
  }
}
