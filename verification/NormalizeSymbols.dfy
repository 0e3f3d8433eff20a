/** Which number every constant of a tree gets in the text. */
module NormalizeSymbols {
  import opened Common
  import opened NormalizeLengths
  import opened NormalizeSplice
  import opened NormalizeWalk
  import opened NormalizeIds
  import opened NormalizeTrees
  import opened NormalizeSums
  import opened NormalizeTally
  import opened NormalizeTheorems
  import opened NormalizeMarks

  // ----- where ids come from

  /** An id is the number of an outside parameter, or held by a constant as its own. */
  predicate KnownId(id: int, ids: seq<int>, params: set<nat>) {
    (id >= 0 && id in params) || -id in ids
  }

  ghost predicate KnownIds(refs: seq<int>, ids: seq<int>, params: set<nat>) {
    forall i :: 0 <= i < |refs| ==> KnownId(refs[i], ids, params)
  }

  ghost predicate Known(st: State, params: set<nat>) {
    && Sized(st) && (forall i :: 0 <= i < |st.consts| ==> KnownId(st.consts[i].paramId, Fresh(st), params))
    && KnownIds(RefsOf(st), Fresh(st), params)
  }

  ghost predicate KnownWith(st: (State, seq<Entry>), params: set<nat>) {
    Known(st.0, params) && forall i :: 0 <= i < |st.1| ==> KnownIds(st.1[i].refs, Fresh(st.0), params)
  }

  lemma RecordKnown(st: State, location: nat, params: set<nat>)
    requires Known(st, params)
    ensures Known(Record(st, location), params)
  {
    hide FreshIds;
    FreshIdsNext(st.consts, st.reused, ConstLoc(location, -1, -st.nextId), false);
    assert Fresh(Record(st, location)) == Fresh(st) + [st.nextId];
  }

  lemma LeafKnown(env: Env, st: State, n: Node, params: set<nat>)
    requires n.Null? || n.AConst? || n.ParamRef? || n.StringValue? || n.TypeName?
    requires Known(st, params) && Params(n) <= params
    ensures Known(Walk(env, st, n), params)
  {
    match n {
      case AConst(_, location) =>
        hide Known;
        if location >= 0 { RecordKnown(st, location, params); }
      case ParamRef(number) =>
        assert number in Params(n);
        hide FreshIds;
      case _ =>
    }
  }

  lemma KidParams(n: Node)
    ensures forall x :: x in Kids(n) ==> Params(x) <= Params(n)
  {
    hide Kids;
  }

  lemma {:induction false} WalkKnown(env: Env, st: State, n: Node, params: set<nat>)
    requires Known(st, params) && Params(n) <= params
    ensures Known(Walk(env, st, n), params)
    decreases n, 1, 0
  {
    KidParams(n);
    hide Known, Params, FindQuote;
    match n {
      case DefElem(_, arg, start) =>
        assert arg in Kids(n);
        if arg.StringValue? && FindQuote(env, start).Some? { RecordKnown(st, FindQuote(env, start).value, params); }
        WalkKnown(env, RecordQuote(env, st, arg, start), arg, params);
      case SortBy(_, key) =>
        assert key in Kids(n);
        WalkKnown(env, st, key, params);
      case Wrapper(_, child) =>
        assert child in Kids(n);
        WalkKnown(env, st, child, params);
      case Other(_, children) => ListKnown(env, st, children, |children|, params);
      case Select(_, _, _, _, _, _, _) => SelectKnown(env, st, n, params);
      case _ => LeafKnown(env, st, n, params);
    }
  }

  lemma {:induction false} ListKnown(env: Env, st: State, ns: seq<Node>, k: nat, params: set<nat>)
    requires k <= |ns| && Known(st, params) && forall x :: x in ns ==> Params(x) <= params
    ensures Known(WalkAll(env, st, ns, k), params)
    decreases ns, 0, k
  {
    hide Known, Walk, Params;
    if k > 0 {
      ListKnown(env, st, ns, k - 1, params);
      WalkKnown(env, WalkAll(env, st, ns, k - 1), ns[k - 1], params);
    }
  }

  lemma {:induction false} SortKnown(env: Env, st: State, ns: seq<Node>, k: nat, params: set<nat>)
    requires k <= |ns| && Known(st, params) && forall x :: x in ns ==> Params(x) <= params
    ensures Known(WalkSort(env, st, ns, k), params)
    decreases ns, 0, k
  {
    hide Known, Walk, Params;
    if k > 0 {
      SortKnown(env, st, ns, k - 1, params);
      if !SkipsSort(ns[k - 1]) { WalkKnown(env, WalkSort(env, st, ns, k - 1), ns[k - 1], params); }
    }
  }

  /** What was known stays known when more ids are held. */
  lemma StaysKnown(refs: seq<int>, a: seq<int>, b: seq<int>, params: set<nat>)
    requires a <= b && KnownIds(refs, a, params)
    ensures KnownIds(refs, b, params)
  {}

  lemma {:induction false} TargetsKnown(env: Env, st: State, ts: seq<Target>, k: nat, params: set<nat>)
    requires k <= |ts| && Known(st, params)
    requires forall i :: 0 <= i < |ts| ==> Params(ts[i].indirection) <= params && Params(ts[i].value) <= params
    ensures KnownWith(WalkTargets(env, st, ts, k), params)
    decreases ts, 1, k
  {
    hide Known, KnownIds, Params, WalkTarget, FreshIds;
    if k == 0 {
      EmptyKnown(st, params);
    } else {
      var before := WalkTargets(env, st, ts, k - 1);
      TargetsKnown(env, st, ts, k - 1, params);
      TargetKnown(env, before.0, ts, k - 1, params);
      TargetGrows(env, before.0, ts, k - 1, params);
      OneMoreKnown(before, WalkTarget(env, before.0, ts, k - 1), env.fp(ts[k - 1].value), params);
    }
  }

  lemma EmptyKnown(st: State, params: set<nat>)
    requires Known(st, params)
    ensures KnownWith((st, []), params)
  {}

  lemma OneMoreKnown(before: (State, seq<Entry>), end: State, fp: nat, params: set<nat>)
    requires KnownWith(before, params) && Known(end.(refs := None), params)
    requires Sized(before.0) && Sized(end) && Fresh(before.0) <= Fresh(end) && KnownIds(RefsOf(end), Fresh(end), params)
    ensures KnownWith((end.(refs := None), before.1 + [Entry(fp, RefsOf(end))]), params)
  {
    hide Known, KnownIds, FreshIds;
    forall i | 0 <= i < |before.1| ensures KnownIds(before.1[i].refs, Fresh(end), params) {
      StaysKnown(before.1[i].refs, Fresh(before.0), Fresh(end), params);
    }
  }

  lemma TargetGrows(env: Env, st: State, ts: seq<Target>, k: nat, params: set<nat>)
    requires k < |ts| && Known(st, params)
    ensures
      var end := WalkTarget(env, st, ts, k);
      Sized(st) && Sized(end) && Fresh(st) <= Fresh(end)
  {
    hide WalkTarget, Tally, FreshIds, TargetSum, SumOf;
    TargetTallies(env, st, ts, k);
    FreshGrows(st, WalkTarget(env, st, ts, k).(refs := None), TargetSum(env, ts[k]).(refs := None));
  }

  lemma TargetKnown(env: Env, st: State, ts: seq<Target>, k: nat, params: set<nat>)
    requires k < |ts| && Known(st, params) && Params(ts[k].indirection) <= params && Params(ts[k].value) <= params
    ensures
      var end := WalkTarget(env, st, ts, k);
      Sized(end) && Known(end.(refs := None), params) && KnownIds(RefsOf(end), Fresh(end), params)
    decreases ts, 0, k
  {
    assert ts[k].indirection < ts[k] && ts[k].value < ts[k];
    var start := st.(refs := Some([]));
    var mid := Walk(env, start, ts[k].indirection);
    KnownStarts(st, params);
    hide Known, KnownIds, Walk, Params, Sized, FreshIds;
    WalkKnown(env, start, ts[k].indirection, params);
    WalkKnown(env, mid, ts[k].value, params);
    KnownEnds(Walk(env, mid, ts[k].value), params);
  }

  lemma KnownStarts(st: State, params: set<nat>)
    requires Known(st, params)
    ensures Known(st.(refs := Some([])), params)
  {
    hide FreshIds;
  }

  lemma SizedStart(st: State, params: set<nat>)
    requires Known(st, params)
    ensures Sized(st)
  {}

  lemma KnownEnds(end: State, params: set<nat>)
    requires Known(end, params)
    ensures Sized(end) && Known(end.(refs := None), params) && KnownIds(RefsOf(end), Fresh(end), params)
  {
    hide FreshIds;
  }

  lemma FreshGrows(a: State, b: State, s: Sum)
    requires Tally(a, b, s)
    ensures Sized(a) && Sized(b) && Fresh(a) <= Fresh(b)
  {}

  lemma LentKnown(before: State, walked: State, refs: seq<int>, s: Sum, params: set<nat>)
    requires Known(before, params) && Known(walked, params) && Tally(before, walked, s) && before.refs.None?
    requires KnownIds(refs, Fresh(before), params)
    ensures Known(Lend(before, walked, refs), params)
    ensures Sized(before) && Sized(Lend(before, walked, refs)) && Fresh(before) <= Fresh(Lend(before, walked, refs))
  {
    hide FreshIds, Lend, KnownId, Numbered, Held;
    FreshGrows(before, walked, s);
    if |refs| == |walked.consts| - |before.consts| {
      LendShape(before, walked, refs);
      var r := Lend(before, walked, refs);
      forall i | 0 <= i < |r.consts| ensures KnownId(r.consts[i].paramId, Fresh(r), params) {
        if i >= |before.consts| { assert r.consts[|before.consts| + (i - |before.consts|)].paramId == refs[i - |before.consts|]; }
      }
      assert walked.refs.None?;
    } else {
      LendNot(before, walked, refs);
    }
  }

  lemma {:induction false} GroupKnown(env: Env, st: (State, seq<Entry>), ns: seq<Node>, k: nat, params: set<nat>)
    requires k <= |ns| && KnownWith(st, params) && (st.1 != [] ==> st.0.refs.None?) && forall x :: x in ns ==> Params(x) <= params
    ensures KnownWith(WalkGroup(env, st, ns, k), params)
    ensures WalkGroup(env, st, ns, k).1 != [] ==> WalkGroup(env, st, ns, k).0.refs.None?
    decreases ns, 1, k
  {
    hide Known, KnownWith, Params, Walk, Lend, Find;
    if k > 0 {
      GroupKnown(env, st, ns, k - 1, params);
      if !IsIntegerConst(ns[k - 1]) { ItemKnown(env, WalkGroup(env, st, ns, k - 1), ns, k - 1, params); }
    }
  }

  lemma ItemKnown(env: Env, before: (State, seq<Entry>), ns: seq<Node>, k: nat, params: set<nat>)
    requires k < |ns| && KnownWith(before, params) && (before.1 != [] ==> before.0.refs.None?) && Params(ns[k]) <= params
    ensures
      var hit, walked := Find(before.1, env.fp(ns[k])), Walk(env, before.0, ns[k]);
      var after := if hit == |before.1| then (walked, before.1)
        else (Lend(before.0, walked, before.1[hit].refs), before.1[..hit] + before.1[hit + 1..]);
      KnownWith(after, params) && (after.1 != [] ==> after.0.refs.None?)
    decreases ns, 0, k
  {
    hide Known, KnownIds, Params, Walk, Lend, Find, SumOf, Tally, FreshIds, Sized;
    var hit, walked := Find(before.1, env.fp(ns[k])), Walk(env, before.0, ns[k]);
    SizedStart(before.0, params);
    WalkKnown(env, before.0, ns[k], params);
    WalkTallies(env, before.0, ns[k]);
    FreshGrows(before.0, walked, SumOf(env, ns[k]));
    if before.1 != [] { NoRefs(before.0, walked, SumOf(env, ns[k])); }
    if hit == |before.1| {
      TableKnown(before.1, before.1, before.0, walked, params);
    } else {
      var refs := before.1[hit].refs;
      LentKnown(before.0, walked, refs, SumOf(env, ns[k]), params);
      LentRefsNone(before.0, walked, refs);
      TableKnown(before.1, before.1[..hit] + before.1[hit + 1..], before.0, Lend(before.0, walked, refs), params);
    }
  }

  lemma NoRefs(a: State, b: State, s: Sum)
    requires Tally(a, b, s) && a.refs.None?
    ensures b.refs.None?
  {
    hide Numbered, Held;
  }

  lemma LentRefsNone(before: State, walked: State, refs: seq<int>)
    ensures Lend(before, walked, refs).refs == walked.refs
  {}

  lemma TableKnown(table: seq<Entry>, rest: seq<Entry>, a: State, b: State, params: set<nat>)
    requires Sized(a) && Sized(b) && Fresh(a) <= Fresh(b) && Known(b, params)
    requires forall i :: 0 <= i < |table| ==> KnownIds(table[i].refs, Fresh(a), params)
    requires forall e :: e in rest ==> e in table
    ensures KnownWith((b, rest), params)
  {
    hide FreshIds, Known, KnownIds;
    forall i | 0 <= i < |rest| ensures KnownIds(rest[i].refs, Fresh(b), params) {
      assert rest[i] in table;
      StaysKnown(rest[i].refs, Fresh(a), Fresh(b), params);
    }
  }

  lemma SelectKnown(env: Env, st: State, n: Node, params: set<nat>)
    requires n.Select? && Known(st, params) && forall x :: x in Kids(n) ==> Params(x) <= params
    ensures Known(Walk(env, st, n), params)
    decreases n, 0
  {
    InKids(n);
    hide Known, KnownIds, Params, Walk, WalkAll, WalkTargets, WalkGroup, WalkSort, SumOf, Total, Tally, Counts;
    hide FreshIds, Held, HeldWith, Kids, Sized;
    var s1 := WalkAll(env, st, n.before, |n.before|);
    var s2 := WalkTargets(env, s1, n.targets, |n.targets|);
    var s3 := WalkAll(env, s2.0, n.middle, |n.middle|);
    var s4 := WalkGroup(env, (s3, s2.1), n.group, |n.group|).0;
    var s5 := WalkSort(env, s4, n.sort, |n.sort|);
    ListKnown(env, st, n.before, |n.before|, params);
    TargetsKnown(env, s1, n.targets, |n.targets|, params);
    ListKnown(env, s2.0, n.middle, |n.middle|, params);
    MiddleKnown(env, s1, n, params);
    GroupKnown(env, (s3, s2.1), n.group, |n.group|, params);
    SortKnown(env, s4, n.sort, |n.sort|, params);
    ListKnown(env, s5, n.after, |n.after|, params);
    SelectUnfolds(env, st, n);
  }

  /** The table outlives the walk from the target list to the GROUP BY clause. */
  lemma MiddleKnown(env: Env, s1: State, n: Node, params: set<nat>)
    requires n.Select? && Known(s1, params) && KnownWith(WalkTargets(env, s1, n.targets, |n.targets|), params)
    requires
      var s2 := WalkTargets(env, s1, n.targets, |n.targets|);
      Known(WalkAll(env, s2.0, n.middle, |n.middle|), params)
    ensures
      var s2 := WalkTargets(env, s1, n.targets, |n.targets|);
      var s3 := WalkAll(env, s2.0, n.middle, |n.middle|);
      KnownWith((s3, s2.1), params) && (s2.1 != [] ==> s3.refs.None?)
  {
    hide Known, KnownIds, WalkAll, SumOf, Total, Tally, FreshIds, Sized;
    var s2 := WalkTargets(env, s1, n.targets, |n.targets|);
    var s3 := WalkAll(env, s2.0, n.middle, |n.middle|);
    var s := Total(Sums(env, n.middle)[..|n.middle|]);
    SizedStart(s2.0, params);
    AllTally(env, s2.0, n.middle, |n.middle|);
    FreshGrows(s2.0, s3, s);
    if s2.1 != [] { NoRefs(s2.0, s3, s); }
    TableKnown(s2.1, s2.1, s2.0, s3, params);
  }

  /** A constant that took over no id of another constant took over a parameter that occurs
      in the tree. */
  lemma TakenIsParam(env: Env, tree: Node, i: nat)
    requires !Late(env, tree) && i < |Walk(env, INIT, tree).consts| && Walk(env, INIT, tree).consts[i].paramId >= 0
    ensures
      var end := Walk(env, INIT, tree);
      Sized(end) && end.reused[i] && end.consts[i].paramId in Params(tree)
  {
    hide Walk, Late, FreshIds, Params, Known, Held, SumOf;
    var end := Walk(env, INIT, tree);
    OwnParametersIff(env, tree);
    NothingKnown(Params(tree));
    WalkKnown(env, INIT, tree, Params(tree));
    KnownAt(end, Params(tree), i);
    hide OwnParameters;
    CleanIsUnshared(Fresh(end));
  }

  lemma NothingKnown(params: set<nat>)
    ensures Known(INIT, params)
  {}

  lemma KnownAt(st: State, params: set<nat>, i: nat)
    requires Known(st, params) && i < |st.consts|
    ensures Sized(st) && KnownId(st.consts[i].paramId, Fresh(st), params)
  {}

  // ----- the numbers

  /** How many of the first i constants keep their own id. */
  ghost function Rank(reused: seq<bool>, i: nat): nat {
    |set x | 0 <= x < i && x < |reused| && !reused[x]|
  }

  lemma {:induction false} RankIsFresh(consts: seq<ConstLoc>, reused: seq<bool>, i: nat)
    requires |consts| == |reused| && i <= |consts|
    ensures |FreshIds(consts[..i], reused[..i])| == Rank(reused, i)
  {
    var now := set x | 0 <= x < i && x < |reused| && !reused[x];
    if i == 0 {
      assert now == {};
    } else {
      RankIsFresh(consts, reused, i - 1);
      var before := set x | 0 <= x < i - 1 && x < |reused| && !reused[x];
      assert now == before + if reused[i - 1] then {} else {i - 1};
      assert consts[..i][..i - 1] == consts[..i - 1] && reused[..i][..i - 1] == reused[..i - 1];
    }
  }

  /** The symbol of a constant that keeps its own id: it is numbered from the greatest
      parameter of the tree on. */
  ghost predicate OwnSymbol(tree: Node, reused: seq<bool>, i: nat, symbol: string) {
    exists g: nat :: Greatest(g, Params(tree)) && IsSymbol(symbol, g + Rank(reused, i) + 1)
  }

  /** The symbol of the i-th constant in the order of the walk: one of its own, or that of
      the outside parameter or of the constant it took over. */
  ghost predicate RightSymbol(tree: Node, end: State, i: nat, symbol: string)
    requires Sized(end) && i < |end.consts|
  {
    if !end.reused[i] then
      OwnSymbol(tree, end.reused, i, symbol)
    else if end.consts[i].paramId >= 0 then
      end.consts[i].paramId in Params(tree) && IsSymbol(symbol, end.consts[i].paramId)
    else
      exists x :: 0 <= x < |end.consts| && !end.reused[x] && end.consts[x].paramId == end.consts[i].paramId
        && OwnSymbol(tree, end.reused, x, symbol)
  }

  lemma OwnNumber(env: Env, tree: Node, i: nat, symbol: string)
    requires !Late(env, tree) && Sized(Walk(env, INIT, tree)) && i < |Walk(env, INIT, tree).consts| && !Walk(env, INIT, tree).reused[i]
    requires IsSymbol(symbol, Walk(env, INIT, tree).highestExtern - Walk(env, INIT, tree).consts[i].paramId)
    ensures OwnSymbol(tree, Walk(env, INIT, tree).reused, i, symbol)
  {
    hide Walk, Late, FreshIds, Params, IsSymbol, Rank, Greatest, Spots, Marks;
    var end := Walk(env, INIT, tree);
    FreshNumbering(env, tree, i);
    RankIsFresh(end.consts, end.reused, i);
    TreeMeets(env, tree);
  }

  lemma HeldBy(env: Env, tree: Node, i: nat) returns (x: nat)
    requires !Late(env, tree) && i < |Walk(env, INIT, tree).consts| && Walk(env, INIT, tree).consts[i].paramId < 0
    ensures
      var end := Walk(env, INIT, tree);
      Sized(end) && x < |end.consts| && !end.reused[x] && end.consts[x].paramId == end.consts[i].paramId
  {
    hide Walk, Late, FreshIds;
    var end := Walk(env, INIT, tree);
    ReusedIdsAreHeld(env, tree, i);
    FreshMembers(end.consts, end.reused, -end.consts[i].paramId);
    x :| 0 <= x < |end.consts| && !end.reused[x] && end.consts[x].paramId == end.consts[i].paramId;
  }

  /** Main result on the symbols: as long as nothing comes late, the i-th constant has the
      right one. */
  lemma SymbolIsRight(env: Env, tree: Node, i: nat, symbol: string)
    requires !Late(env, tree) && i < |Walk(env, INIT, tree).consts|
    requires
      var end := Walk(env, INIT, tree);
      IsSymbol(symbol, if end.consts[i].paramId >= 0 then end.consts[i].paramId else end.highestExtern - end.consts[i].paramId)
    ensures Sized(Walk(env, INIT, tree)) && RightSymbol(tree, Walk(env, INIT, tree), i, symbol)
  {
    hide Walk, Late, FreshIds, Params, IsSymbol, OwnSymbol;
    var end := Walk(env, INIT, tree);
    if end.consts[i].paramId >= 0 {
      TakenIsParam(env, tree, i);
    } else {
      var x := HeldBy(env, tree, i);
      OwnNumber(env, tree, x, symbol);
      if !end.reused[i] { OwnNumber(env, tree, i, symbol); }
    }
  }

  /** The text is the query with every measured constant replaced by the right symbol; the
      records are the constants of the walk in some order. */
  ghost predicate TextTold(query: string, tree: Node, end: State, recs: seq<ConstLoc>, text: string)
    requires Sized(end)
  {
    exists symbols: seq<string> ::
      |symbols| == |recs| && Assembled(query, 0, recs, symbols, text) && RightSymbols(tree, end, recs, symbols)
  }

  ghost predicate RightSymbols(tree: Node, end: State, recs: seq<ConstLoc>, symbols: seq<string>)
    requires Sized(end) && |symbols| == |recs|
  {
    forall i, j :: 0 <= i < |end.consts| && 0 <= j < |recs| && recs[j].length >= 0 && end.consts[i] == recs[j].(length := -1) ==>
      RightSymbol(tree, end, i, symbols[j])
  }

  lemma TextIsTold(env: Env, query: string, tree: Node, recs: seq<ConstLoc>, text: string)
    requires !Late(env, tree) && Reads(query, recs, Walk(env, INIT, tree).highestExtern, text)
    ensures Sized(Walk(env, INIT, tree)) && TextTold(query, tree, Walk(env, INIT, tree), recs, text)
  {
    hide Walk, Late, FreshIds, IsSymbol, Assembled, RightSymbol;
    var end := Walk(env, INIT, tree);
    OwnParametersIff(env, tree);
    var symbols: seq<string> :| |symbols| == |recs| && Assembled(query, 0, recs, symbols, text)
      && Labelled(recs, end.highestExtern, symbols);
    forall i, j | 0 <= i < |end.consts| && 0 <= j < |recs| && recs[j].length >= 0 && end.consts[i] == recs[j].(length := -1)
      ensures RightSymbol(tree, end, i, symbols[j])
    {
      SymbolIsRight(env, tree, i, symbols[j]);
    }
  }

  // ----- what the marks say of the records

  lemma {:induction false} SpotsAreMarks(marks: seq<Mark>, l: int)
    ensures l in Spots(marks) <==> l >= 0 && Constant(l) in marks
  {
    if marks != [] { SpotsAreMarks(marks[..|marks| - 1], l); }
  }

  /** Constants whose places lie in the query can be measured. */
  lemma MarksInside(env: Env, tree: Node)
    requires forall l: nat :: Constant(l) in Marks(env, tree) ==> l < |env.query|
    ensures Recorded(env.query, Walk(env, INIT, tree).consts)
  {
    hide Walk, Marks, Spots, Params;
    TreeMeets(env, tree);
    var consts := Walk(env, INIT, tree).consts;
    forall i | 0 <= i < |consts| ensures 0 <= consts[i].location < |env.query| {
      assert consts[i].location == Locations(consts)[i];
      SpotsAreMarks(Marks(env, tree), consts[i].location);
    }
  }

  /** As long as nothing comes late, the numbers fit an int if the greatest parameter of the
      tree and the number of its constants do together. */
  lemma SmallNumbersFit(env: Env, tree: Node, g: nat)
    requires !Late(env, tree) && Greatest(g, Params(tree)) && g + |Spots(Marks(env, tree))| <= INT_MAX
    ensures NumbersFit(Walk(env, INIT, tree).consts, Walk(env, INIT, tree).highestExtern)
  {
    hide Walk, Late, FreshIds, Marks, Spots, Params;
    var end := Walk(env, INIT, tree);
    TreeMeets(env, tree);
    assert |end.consts| == |Locations(end.consts)|;
    forall i | 0 <= i < |end.consts| ensures 0 <= ParamNumber(end.consts[i], end.highestExtern) <= INT_MAX {
      if end.consts[i].paramId >= 0 {
        TakenIsParam(env, tree, i);
      } else {
        var x := HeldBy(env, tree, i);
        FreshNumbering(env, tree, x);
        RankIsFresh(end.consts, end.reused, x);
        RankBound(end.reused, x);
      }
    }
  }

  lemma {:induction false} RankBound(reused: seq<bool>, i: nat)
    ensures Rank(reused, i) <= i
  {
    var now := set x | 0 <= x < i && x < |reused| && !reused[x];
    if i == 0 {
      assert now == {};
    } else {
      RankBound(reused, i - 1);
      var before := set x | 0 <= x < i - 1 && x < |reused| && !reused[x];
      assert now <= before + {i - 1};
      assert |now| <= |before + {i - 1}| by { Smaller(now, before + {i - 1}); }
    }
  }

  lemma Smaller(a: set<int>, b: set<int>)
    requires a <= b
    ensures |a| <= |b|
  {
    assert b == a + (b - a);
  }

  // ----- when nothing is taken over

  /** No GROUP BY item takes references of a target element. */
  ghost predicate TakesNothing(env: Env, n: Node) {
    && (n.Select? ==> forall k :: 0 <= k < |n.group| ==> IsIntegerConst(n.group[k]) || !Agrees(env, n, k))
    && forall x :: x in Kids(n) ==> TakesNothing(env, x)
  }

  predicate KeepsAll(s: Sum) {
    s.shift == s.count && s.keeps == s.count && !s.late
  }

  lemma {:induction false} TotalKeepsAll(parts: seq<Sum>)
    requires forall s :: s in parts ==> KeepsAll(s)
    ensures KeepsAll(Total(parts))
  {
    if parts != [] {
      TotalKeepsAll(parts[..|parts| - 1]);
      assert KeepsAll(parts[|parts| - 1]);
    }
  }

  lemma {:induction false} NothingTakenKeepsAll(env: Env, n: Node)
    requires TakesNothing(env, n)
    ensures KeepsAll(SumOf(env, n))
    decreases n
  {
    hide Total, Sums, Parts, FindQuote, Agrees, Kids;
    forall x | x in Kids(n) ensures KeepsAll(SumOf(env, x)) {
      BelowKid(n, x);
      NothingTakenKeepsAll(env, x);
    }
    if n.Select? {
      SelectKeepsAll(env, n);
    } else {
      PlainKeepsAll(env, n);
    }
  }

  lemma PlainKeepsAll(env: Env, n: Node)
    requires !n.Select? && forall x :: x in Kids(n) ==> KeepsAll(SumOf(env, x))
    ensures KeepsAll(SumOf(env, n))
  {
    hide FindQuote, Total;
    match n {
      case DefElem(_, arg, _) => assert arg in Kids(n);
      case SortBy(_, key) => assert key in Kids(n);
      case Wrapper(_, child) => assert child in Kids(n);
      case Other(_, children) =>
        OtherUnfolded(env, n);
        forall s | s in Sums(env, children) ensures KeepsAll(s) {
          var i :| 0 <= i < |children| && Sums(env, children)[i] == s;
          assert children[i] in Kids(n);
        }
        TotalKeepsAll(Sums(env, children));
      case _ =>
    }
  }

  lemma SelectKeepsAll(env: Env, n: Node)
    requires n.Select? && forall x :: x in Kids(n) ==> KeepsAll(SumOf(env, x))
    requires forall k :: 0 <= k < |n.group| ==> IsIntegerConst(n.group[k]) || !Agrees(env, n, k)
    ensures KeepsAll(SumOf(env, n))
  {
    hide SumOf, Total, Parts, Agrees, Kids;
    SelectUnfolded(env, n);
    InKids(n);
    forall s | s in Parts(env, n) ensures KeepsAll(s) { PartIs(env, n, s); }
    TotalKeepsAll(Parts(env, n));
  }

  lemma {:induction false} AllFresh(consts: seq<ConstLoc>, reused: seq<bool>)
    requires |consts| == |reused|
    ensures |FreshIds(consts, reused)| <= |consts|
    ensures |FreshIds(consts, reused)| == |consts| ==> forall i :: 0 <= i < |reused| ==> !reused[i]
    decreases |consts|
  {
    if consts != [] {
      var n := |consts| - 1;
      AllFresh(consts[..n], reused[..n]);
      assert forall i :: 0 <= i < n ==> reused[..n][i] == reused[i];
    }
  }

  lemma {:induction false} RankOfAll(reused: seq<bool>, i: nat)
    requires i <= |reused| && forall x :: 0 <= x < i ==> !reused[x]
    ensures Rank(reused, i) == i
  {
    var now := set x | 0 <= x < i && x < |reused| && !reused[x];
    if i == 0 {
      assert now == {};
    } else {
      RankOfAll(reused, i - 1);
      assert now == (set x | 0 <= x < i - 1 && x < |reused| && !reused[x]) + {i - 1};
    }
  }

  /** When no item takes anything over, nothing comes late and the i-th marked constant of the
      tree becomes parameter number i + 1, counted from the greatest outside parameter on. */
  lemma NothingTakenSymbols(env: Env, tree: Node, i: nat, symbol: string)
    requires TakesNothing(env, tree) && i < |Spots(Marks(env, tree))|
    ensures !Late(env, tree)
    ensures
      var end := Walk(env, INIT, tree);
      && Sized(end) && |end.consts| == |Spots(Marks(env, tree))| && end.consts[i].location == Spots(Marks(env, tree))[i]
      && (RightSymbol(tree, end, i, symbol) <==> exists g: nat :: Greatest(g, Params(tree)) && IsSymbol(symbol, g + i + 1))
  {
    hide Walk, SumOf, Unshared, Clean, FreshIds, Params, IsSymbol, Marks, Spots, Held, Greatest;
    var end := Walk(env, INIT, tree);
    NothingTakenKeepsAll(env, tree);
    TreeTallies(env, tree);
    TreeMeets(env, tree);
    WalkTallies(env, INIT, tree);
    assert |end.consts| == |Locations(end.consts)| && end.consts[i].location == Locations(end.consts)[i];
    assert |end.consts| == 0 + SumOf(env, tree).count;
    AllFresh(end.consts, end.reused);
    RankOfAll(end.reused, i);
  }
}
