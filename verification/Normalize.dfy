/** Normalization as the program runs it: the walk fills growable arrays in place,
    then the recorded constants are measured and replaced. */
module Normalize {
  import opened Common
  import opened NormalizeLengths
  import opened NormalizeSplice
  import opened NormalizeWalk
  import opened NormalizeTrees
  import opened NormalizeIds
  import opened NormalizeSums
  import opened NormalizeTally
  import opened NormalizeMarks
  import opened NormalizeSymbols

  /** The working state of the walk. The ghost field `reused` completes the abstract state. */
  class ConstLocations {
    var clocations: array<ConstLoc>
    var clocationsCount: nat
    var highestNormalizeParamId: int
    var highestExternParamId: nat
    var paramRefs: array?<int>
    var paramRefsCount: nat
    const env: Env
    ghost var reused: seq<bool>
    ghost var Repr: set<object>

    ghost predicate Valid()
      reads this, Repr
    {
      && this in Repr && clocations in Repr
      && 0 < clocations.Length && clocationsCount <= clocations.Length
      && |reused| == clocationsCount
      && (paramRefs != null ==> paramRefs in Repr && paramRefsCount < paramRefs.Length)
    }

    ghost function Model(): State
      reads this, Repr
      requires Valid()
    {
      State(clocations[..clocationsCount], highestNormalizeParamId, highestExternParamId,
            if paramRefs == null then None else Some(paramRefs[..paramRefsCount]), reused)
    }

    constructor (env: Env)
      ensures Valid() && fresh(Repr) && Model() == INIT && this.env == env
    {
      clocations := new ConstLoc[32];
      clocationsCount := 0;
      highestNormalizeParamId, highestExternParamId := 1, 0;
      paramRefs, paramRefsCount := null, 0;
      this.env := env;
      reused := [];
      Repr := {this, clocations};
    }

    /** Remember a parameter reference while recording; the array has room for one
        more and is doubled when the last place is taken. */
    method AddParamRef(id: int)
      requires Valid()
      modifies Repr
      ensures Valid() && fresh(Repr - old(Repr)) && Model() == Ref(old(Model()), id)
      ensures clocations == old(clocations)
    {
      if paramRefs != null {
        paramRefs[paramRefsCount] := id;
        paramRefsCount := paramRefsCount + 1;
        if paramRefsCount >= paramRefs.Length {
          var bigger := new int[paramRefs.Length * 2];
          forall i | 0 <= i < paramRefsCount { bigger[i] := paramRefs[i]; }
          paramRefs := bigger;
          Repr := Repr + {bigger};
        }
        assert paramRefs[..paramRefsCount] == old(paramRefs[..paramRefsCount]) + [id];
      }
    }

    /** Enlarge the array of constants if needed. */
    method MakeRoom()
      requires Valid()
      modifies Repr
      ensures Valid() && fresh(Repr - old(Repr)) && Model() == old(Model())
      ensures clocationsCount < clocations.Length
    {
      if clocationsCount >= clocations.Length {
        var bigger := new ConstLoc[clocations.Length * 2];
        forall i | 0 <= i < clocationsCount { bigger[i] := clocations[i]; }
        assert bigger[..clocationsCount] == old(clocations[..clocationsCount]);
        clocations := bigger;
        Repr := Repr + {bigger};
        assert clocations[..clocationsCount] == old(clocations[..clocationsCount]);
        assert paramRefs != null ==> paramRefs[..paramRefsCount] == old(paramRefs[..paramRefsCount]);
      }
    }

    method RecordConstLocation(location: int)
      requires Valid()
      modifies Repr
      ensures Valid() && fresh(Repr - old(Repr)) && Model() == Record(old(Model()), location)
    {
      if location >= 0 {
        MakeRoom();
        var id := -highestNormalizeParamId;
        clocations[clocationsCount] := ConstLoc(location, -1, id);
        clocationsCount := clocationsCount + 1;
        assert clocations[..clocationsCount] == old(clocations[..clocationsCount]) + [ConstLoc(location, -1, id)];
        highestNormalizeParamId := highestNormalizeParamId + 1;
        reused := reused + [false];
        AddParamRef(id);
      }
    }

    method RecordParamRef(number: nat)
      requires Valid()
      modifies Repr
      ensures Valid() && fresh(Repr - old(Repr)) && Model() == Param(old(Model()), number)
    {
      if number > highestExternParamId {
        highestExternParamId := number;
      }
      AddParamRef(number);
    }

    /** const_record_walker */
    method Walker(node: Node)
      requires Valid()
      modifies Repr
      ensures Valid() && fresh(Repr - old(Repr)) && Model() == Walk(env, old(Model()), node)
      decreases node, 1, 0
    {
      match node {
        case Null =>
        case AConst(_, location) => RecordConstLocation(location);
        case ParamRef(number) => RecordParamRef(number);
        case StringValue(_) =>
        case TypeName(_) =>
        case DefElem(_, arg, start) =>
          if arg.StringValue? {
            var i: int := start;
            while i < |env.query| && (if i < 0 then env.ahead else env.query[i]) != '\''
              invariant start <= i
              invariant FindQuote(env, start) == if i < |env.query| then FindQuote(env, i) else None
            {
              i := i + 1;
            }
            if i < |env.query| { RecordConstLocation(i); }
          }
          Walker(arg);
        case SortBy(_, key) => Walker(key);
        case Wrapper(_, child) => Walker(child);
        case Other(_, children) => WalkNodes(children);
        case Select(_, _, _, _, _, _, _) => WalkSelect(node);
      }
    }

    method WalkNodes(nodes: seq<Node>)
      requires Valid()
      modifies Repr
      ensures Valid() && fresh(Repr - old(Repr)) && Model() == WalkAll(env, old(Model()), nodes, |nodes|)
      decreases nodes, 0, 0
    {
      var k := 0;
      while k < |nodes|
        invariant 0 <= k <= |nodes|
        invariant Valid() && fresh(Repr - old(Repr)) && Model() == WalkAll(env, old(Model()), nodes, k)
      {
        Walker(nodes[k]);
        k := k + 1;
      }
    }

    method WalkSelect(node: Node)
      requires Valid() && node.Select?
      modifies Repr
      ensures Valid() && fresh(Repr - old(Repr)) && Model() == Walk(env, old(Model()), node)
      decreases node, 0, 0
    {
      SelectUnfolds(env, Model(), node);
      WalkNodes(node.before);
      var table := WalkTargetList(node.targets);
      WalkNodes(node.middle);
      WalkGroupClause(table, node.group);
      WalkSortClause(node.sort);
      WalkNodes(node.after);
    }

    method WalkTargetList(targets: seq<Target>) returns (table: seq<Entry>)
      requires Valid()
      modifies Repr
      ensures Valid() && fresh(Repr - old(Repr))
      ensures (Model(), table) == WalkTargets(env, old(Model()), targets, |targets|)
      decreases targets, 0, 1
    {
      table := [];
      var k := 0;
      while k < |targets|
        invariant 0 <= k <= |targets|
        invariant Valid() && fresh(Repr - old(Repr))
        invariant (Model(), table) == WalkTargets(env, old(Model()), targets, k)
      {
        var refs := WalkTargetElement(targets, k);
        table := table + [Entry(env.fp(targets[k].value), refs)];
        k := k + 1;
      }
    }

    /** Walk one target element with a recording of its own. */
    method WalkTargetElement(targets: seq<Target>, k: nat) returns (refs: seq<int>)
      requires Valid() && k < |targets|
      modifies Repr
      ensures Valid() && fresh(Repr - old(Repr))
      ensures
        var end := WalkTarget(env, old(Model()), targets, k);
        Model() == end.(refs := None) && refs == RefsOf(end)
      decreases targets, 0, 0
    {
      var t := targets[k];
      assert t.indirection < targets[k] && t.value < targets[k];
      paramRefs := new int[1];
      paramRefsCount := 0;
      Repr := Repr + {paramRefs};
      assert Model() == old(Model()).(refs := Some([]));
      Walker(t.indirection);
      Walker(t.value);
      refs := if paramRefs == null then [] else paramRefs[..paramRefsCount];
      paramRefs := null;
      paramRefsCount := 0;
    }

    method WalkGroupClause(table: seq<Entry>, group: seq<Node>)
      requires Valid()
      modifies Repr
      ensures Valid() && fresh(Repr - old(Repr))
      ensures Model() == WalkGroup(env, (old(Model()), table), group, |group|).0
      decreases group, 0, 0
    {
      hide Walk, Lend, Find, Counts, SumOf;
      var rest := table;
      var k := 0;
      while k < |group|
        invariant 0 <= k <= |group|
        invariant Valid() && fresh(Repr - old(Repr))
        invariant (Model(), rest) == WalkGroup(env, (old(Model()), table), group, k)
      {
        if !IsIntegerConst(group[k]) {
          var fp := env.fp(group[k]);
          var hit := FindEntry(rest, fp);
          var prev := clocationsCount;
          ghost var before := Model();
          Walker(group[k]);
          WalkTallies(env, before, group[k]);
          NeverShrinks(before, Model(), SumOf(env, group[k]));
          if hit < |rest| {
            LendRefs(before, prev, rest[hit].refs);
            rest := rest[..hit] + rest[hit + 1..];
          }
        }
        k := k + 1;
      }
    }

    /** Overwrite the ids recorded since `prev` when their number is that of the references. */
    method LendRefs(ghost before: State, prev: nat, refs: seq<int>)
      requires Valid() && prev == |before.consts| <= clocationsCount
      modifies Repr
      ensures Valid() && fresh(Repr - old(Repr)) && Model() == Lend(before, old(Model()), refs)
    {
      if |refs| == clocationsCount - prev {
        ghost var was := Model();
        Relabel(clocations, prev, refs);
        assert paramRefs != null ==> unchanged(paramRefs);
        assert clocations[..clocationsCount] == was.consts[..prev] + Relabelled(was.consts[prev..], refs);
        assert paramRefs != null ==> paramRefs[..paramRefsCount] == old(paramRefs[..paramRefsCount]);
        highestNormalizeParamId := highestNormalizeParamId - |refs|;
        reused := reused[..prev] + seq(|refs|, _ => true);
      }
    }

    method WalkSortClause(sort: seq<Node>)
      requires Valid()
      modifies Repr
      ensures Valid() && fresh(Repr - old(Repr)) && Model() == WalkSort(env, old(Model()), sort, |sort|)
      decreases sort, 0, 0
    {
      var k := 0;
      while k < |sort|
        invariant 0 <= k <= |sort|
        invariant Valid() && fresh(Repr - old(Repr)) && Model() == WalkSort(env, old(Model()), sort, k)
      {
        if !SkipsSort(sort[k]) { Walker(sort[k]); }
        k := k + 1;
      }
    }
  }

  lemma NeverShrinks(a: State, b: State, s: Sum)
    requires Tally(a, b, s)
    ensures |a.consts| <= |b.consts|
  {}

  method Relabel(a: array<ConstLoc>, from: nat, ids: seq<int>)
    requires from + |ids| <= a.Length
    modifies a
    ensures forall j :: 0 <= j < a.Length ==>
      a[j] == if from <= j < from + |ids| then old(a[j]).(paramId := ids[j - from]) else old(a[j])
  {
    var i := 0;
    while i < |ids|
      invariant 0 <= i <= |ids|
      invariant forall j :: 0 <= j < a.Length ==>
        a[j] == if from <= j < from + i then old(a[j]).(paramId := ids[j - from]) else old(a[j])
    {
      a[from + i] := a[from + i].(paramId := ids[i]);
      i := i + 1;
    }
  }

  /** The search over the remembered target elements. */
  method FindEntry(table: seq<Entry>, fp: nat) returns (k: nat)
    ensures k == Find(table, fp)
  {
    k := 0;
    while k < |table| && table[k].fp != fp
      invariant k <= |table| && Find(table, fp) == k + Find(table[k..], fp)
    {
      assert table[k..][1..] == table[k + 1..];
      k := k + 1;
    }
  }

  /** What the result says of the tree: its marked places were measured and replaced, and as
      long as no constant comes late, each by the right symbol. */
  ghost predicate Normalized(env: Env, tree: Node, tokens: seq<Token>, recs: seq<ConstLoc>, normQuery: Option<string>)
    requires WellScanned(env.query, tokens)
  {
    var end := Walk(env, INIT, tree);
    && Filled(env.query, tokens, end.consts, recs)
    && Locations(end.consts) == Spots(Marks(env, tree)) && multiset(Unmeasured(recs)) == multiset(end.consts)
    && (normQuery.Some? <==> Disjoint(env.query, recs))
    && (normQuery.Some? ==> Replaces(env.query, recs, end.highestExtern, normQuery.value))
    && (normQuery.Some? && !Late(env, tree) ==> Sized(end) && TextTold(env.query, tree, end, recs, normQuery.value))
  }

  /** The whole normalization. What the parser promises is that the places of the tree lie
      in the query and that the parameter numbers fit an int. The constants are sorted and
      measured, and there is a result exactly when their pieces do not overlap. */
  method PgQueryNormalize(fp: Node -> nat, tree: Node, query: string, ahead: char, tokens: seq<Token>)
    returns (normQuery: Option<string>)
    requires WellScanned(query, tokens)
    requires forall l: nat :: Constant(l) in Marks(Env(fp, query, ahead), tree) ==> l < |query|
    requires
      var end := Walk(Env(fp, query, ahead), INIT, tree);
      NumbersFit(end.consts, end.highestExtern)
    ensures exists recs :: Normalized(Env(fp, query, ahead), tree, tokens, recs, normQuery)
    ensures Located(query, tokens, Walk(Env(fp, query, ahead), INIT, tree).consts) ==> normQuery.Some?
  {
    hide Walk, Marks, Recorded, Located, NumbersFit, Disjoint, Replaces, Filled, WellScanned, Normalized;
    ghost var env := Env(fp, query, ahead);
    MarksInside(env, tree);
    var jstate := new ConstLocations(Env(fp, query, ahead));
    jstate.Walker(tree);
    ghost var consts := jstate.Model().consts;
    normQuery := NormalizeText(jstate.clocations, jstate.clocationsCount, query, tokens, jstate.highestExternParamId);
    ghost var recs := jstate.clocations[..jstate.clocationsCount];
    if Located(query, tokens, consts) { FilledIsRight(query, tokens, consts, recs); }
    ResultTold(env, tree, tokens, recs, normQuery);
  }

  lemma ResultTold(env: Env, tree: Node, tokens: seq<Token>, recs: seq<ConstLoc>, normQuery: Option<string>)
    requires WellScanned(env.query, tokens)
    requires
      var end := Walk(env, INIT, tree);
      && Filled(env.query, tokens, end.consts, recs)
      && (normQuery.Some? <==> Disjoint(env.query, recs))
      && (normQuery.Some? ==> Replaces(env.query, recs, end.highestExtern, normQuery.value))
    ensures Normalized(env, tree, tokens, recs, normQuery)
  {
    hide Walk, Marks, Spots, Disjoint, Filled, WellScanned, Reads, TextTold, Late;
    TreeMeets(env, tree);
    FilledInside(env.query, tokens, Walk(env, INIT, tree).consts, recs);
    if normQuery.Some? && !Late(env, tree) { TextIsTold(env, env.query, tree, recs, normQuery.value); }
  }
}
