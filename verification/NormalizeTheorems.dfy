/** Main results about parameter ids: when they are 1, 2, 3, ... with no gap, when no two
    constants share one that neither took over, and how they stand to the parameters
    already in the query. */
module NormalizeTheorems {
  import opened NormalizeLengths
  import opened NormalizeSplice
  import opened NormalizeWalk
  import opened NormalizeIds
  import opened NormalizeTrees
  import opened NormalizeGroup
  import opened NormalizeSums
  import opened NormalizeTally

  // ----- the ids handed out

  /** A whole walk, from the empty working state. */
  lemma TreeTallies(env: Env, tree: Node)
    ensures
      var end := Walk(env, INIT, tree);
      && Sized(end) && |Fresh(end)| == SumOf(env, tree).keeps && end.nextId == 1 + SumOf(env, tree).shift
      && end.highestExtern == SumOf(env, tree).extern && Held(end)
      && (if Late(env, tree) then !Unshared(Fresh(end)) else Clean(Fresh(end)))
  {
    hide Walk, SumOf, Unshared;
    WalkTallies(env, INIT, tree);
    assert Fresh(INIT) == [] && Clean([]) && Excess(INIT) == 0 && Held(INIT);
  }

  /** A walk of a whole tree hands out exactly 1, 2, ..., nextId - 1, in the order of
      recording, if and only if no GROUP BY item takes the references of its match although
      its own walk gives ids back. */
  lemma IdsExactIff(env: Env, tree: Node)
    ensures
      var end := Walk(env, INIT, tree);
      Sized(end) && (end.nextId >= 1 && Fresh(end) == UpTo(end.nextId - 1) <==> !Doubles(env, tree))
  {
    hide Walk, SumOf, FreshIds, Unshared, Held;
    TreeTallies(env, tree);
  }

  /** Every constant that did not take its id over becomes a parameter of its own: one that
      is offset, and that no other such constant becomes. */
  ghost predicate OwnParameters(consts: seq<ConstLoc>, reused: seq<bool>)
    requires |consts| == |reused|
  {
    && (forall i :: 0 <= i < |consts| && !reused[i] ==> consts[i].paramId < 0)
    && (forall i, j :: 0 <= i < j < |consts| && !reused[i] && !reused[j] ==> consts[i].paramId != consts[j].paramId)
  }

  /** Main result: every constant that keeps its own id becomes a parameter of its own if
      and only if none of them is recorded after a doubled item; then the ids have no gap
      either. */
  lemma OwnParametersIff(env: Env, tree: Node)
    ensures
      var end := Walk(env, INIT, tree);
      && Sized(end) && (OwnParameters(end.consts, end.reused) <==> !Late(env, tree))
      && (Clean(Fresh(end)) <==> !Late(env, tree))
  {
    hide Walk, SumOf, Unshared, Held, OwnParameters, Clean;
    var end := Walk(env, INIT, tree);
    TreeTallies(env, tree);
    OwnIffUnshared(end.consts, end.reused);
    if Clean(Fresh(end)) { CleanIsUnshared(Fresh(end)); }
  }

  lemma {:induction false} FreshMembers(consts: seq<ConstLoc>, reused: seq<bool>, id: int)
    requires |consts| == |reused|
    ensures id in FreshIds(consts, reused) <==> exists i :: 0 <= i < |consts| && !reused[i] && consts[i].paramId == -id
    decreases |consts|
  {
    if consts != [] {
      var n := |consts| - 1;
      FreshMembers(consts[..n], reused[..n], id);
    }
  }

  lemma OwnNext(consts: seq<ConstLoc>, reused: seq<bool>, c: ConstLoc, taken: bool)
    requires |consts| == |reused|
    ensures OwnParameters(consts + [c], reused + [taken]) <==>
      OwnParameters(consts, reused) && (taken || (c.paramId < 0 && -c.paramId !in FreshIds(consts, reused)))
  {
    hide FreshIds;
    FreshMembers(consts, reused, -c.paramId);
    var next, flags, n := consts + [c], reused + [taken], |consts|;
    assert next[n] == c && flags[n] == taken;
    assert forall i :: 0 <= i < n ==> next[i] == consts[i] && flags[i] == reused[i];
  }

  lemma NoneOwn(consts: seq<ConstLoc>, reused: seq<bool>)
    requires consts == [] && reused == []
    ensures OwnParameters(consts, reused) && Unshared(FreshIds(consts, reused))
  {}

  lemma {:induction false} OwnIffUnshared(consts: seq<ConstLoc>, reused: seq<bool>)
    requires |consts| == |reused|
    ensures OwnParameters(consts, reused) <==> Unshared(FreshIds(consts, reused))
    decreases |consts|
  {
    hide OwnParameters, Unshared, FreshIds;
    if consts == [] {
      NoneOwn(consts, reused);
    } else {
      var n := |consts| - 1;
      var c, r := consts[..n], reused[..n];
      OwnIffUnshared(c, r);
      OwnNext(c, r, consts[n], reused[n]);
      FreshIdsNext(c, r, consts[n], reused[n]);
      UnsharedNext(FreshIds(c, r), -consts[n].paramId);
      assert consts == c + [consts[n]] && reused == r + [reused[n]];
      assert FreshIds(c, r) + [] == FreshIds(c, r);
    }
  }

  lemma UnsharedNext(ids: seq<int>, id: int)
    ensures Unshared(ids + [id]) <==> Unshared(ids) && id >= 1 && id !in ids
  {
    var next := ids + [id];
    assert next[|ids|] == id && forall i :: 0 <= i < |ids| ==> next[i] == ids[i];
  }

  /** The k-th constant that keeps its own id holds id k, counting from 1: after offsetting,
      parameter number (highest outside parameter + k). */
  lemma FreshNumbering(env: Env, tree: Node, i: nat)
    requires !Late(env, tree) && Sized(Walk(env, INIT, tree))
    requires i < |Walk(env, INIT, tree).consts| && !Walk(env, INIT, tree).reused[i]
    ensures
      var end := Walk(env, INIT, tree);
      end.consts[i].paramId == -(|FreshIds(end.consts[..i], end.reused[..i])| + 1)
  {
    hide Walk, Late, FreshIds, UpTo, OwnParameters;
    var end := Walk(env, INIT, tree);
    OwnParametersIff(env, tree);
    FreshIdAt(end.consts, end.reused, i);
    UpToAt(|Fresh(end)|, |FreshIds(end.consts[..i], end.reused[..i])|);
  }

  /** Two constants become the same parameter only when one of them took it over in a GROUP
      BY clause. */
  lemma SharingNeedsReuse(env: Env, tree: Node, i: nat, j: nat)
    requires !Late(env, tree) && i < j < |Walk(env, INIT, tree).consts|
    requires Walk(env, INIT, tree).consts[i].paramId == Walk(env, INIT, tree).consts[j].paramId
    ensures
      var end := Walk(env, INIT, tree);
      Sized(end) && (end.reused[i] || end.reused[j])
  {
    hide Walk, Late, FreshIds;
    OwnParametersIff(env, tree);
  }

  /** Whatever happens, a constant took over an outside parameter, or an id that a constant
      holds as its own. */
  lemma ReusedIdsAreHeld(env: Env, tree: Node, i: nat)
    requires i < |Walk(env, INIT, tree).consts| && Walk(env, INIT, tree).consts[i].paramId < 0
    ensures
      var end := Walk(env, INIT, tree);
      Sized(end) && -end.consts[i].paramId in Fresh(end)
  {
    hide Walk, SumOf, FreshIds, Unshared, Clean;
    TreeTallies(env, tree);
    assert HeldIn(Walk(env, INIT, tree).consts[i].paramId, Fresh(Walk(env, INIT, tree)));
  }

  // ----- outside parameters

  /** A number that is offset is greater than every parameter of the query, wherever in the
      tree that parameter stands. */
  lemma OffsetAboveParams(env: Env, tree: Node, i: nat, p: nat)
    requires i < |Walk(env, INIT, tree).consts| && Walk(env, INIT, tree).consts[i].paramId < 0
    requires p in Params(tree)
    ensures
      var end := Walk(env, INIT, tree);
      ParamNumber(end.consts[i], end.highestExtern) > p
  {
    hide Walk, SumOf, FreshIds, Unshared, Clean, Held, Params;
    TreeTallies(env, tree);
    ParamsCovered(env, tree, p);
  }

  /** The parameter that a constant with its own id becomes is new to the query. */
  lemma FreshAboveParams(env: Env, tree: Node, i: nat, p: nat)
    requires !Late(env, tree) && Sized(Walk(env, INIT, tree)) && p in Params(tree)
    requires i < |Walk(env, INIT, tree).consts| && !Walk(env, INIT, tree).reused[i]
    ensures
      var end := Walk(env, INIT, tree);
      ParamNumber(end.consts[i], end.highestExtern) > p
  {
    hide Walk, Late, FreshIds, Params;
    OwnParametersIff(env, tree);
    OffsetAboveParams(env, tree, i, p);
  }

  // ----- fingerprints with which nothing doubles

  /** Where the fingerprint of a GROUP BY item is that of a target element, the item
      contains no SELECT unless the element does. This holds when GROUP BY items
      contain no SELECT, and also when fingerprints tell trees with a SELECT from trees
      without. */
  ghost predicate Discerning(fp: Node -> nat, n: Node) {
    && (n.Select? ==> forall i, j :: 0 <= i < |n.targets| && 0 <= j < |n.group| && fp(n.targets[i].value) == fp(n.group[j]) ==>
          TargetHasSelect(n.targets[i]) || !HasSelect(n.group[j]))
    && forall x :: x in Kids(n) ==> Discerning(fp, x)
  }

  ghost predicate NoSelectInGroupBy(n: Node) {
    && (n.Select? ==> forall j :: 0 <= j < |n.group| ==> !HasSelect(n.group[j]))
    && forall x :: x in Kids(n) ==> NoSelectInGroupBy(x)
  }

  lemma {:induction false} NoSelectIsDiscerning(fp: Node -> nat, n: Node)
    requires NoSelectInGroupBy(n)
    ensures Discerning(fp, n)
  {
    forall x | x in Kids(n) ensures Discerning(fp, x) {
      NoSelectIsDiscerning(fp, x);
    }
  }

  /** With discerning fingerprints no item takes references although its own walk gives ids
      back, so nothing comes late and the ids are exact. */
  lemma {:induction false} DiscerningNeverDoubles(env: Env, n: Node)
    requires Discerning(env.fp, n)
    ensures !Doubles(env, n) && !Late(env, n)
  {
    hide SumOf, Kids, HasSelect;
    DoublesIff(env, n);
    forall x | x in Kids(n) ensures !Doubles(env, x) {
      BelowKid(n, x);
      DiscerningNeverDoubles(env, x);
    }
    if n.Select? {
      forall k | 0 <= k < |n.group| && Agrees(env, n, k) ensures !GivesBack(env, n.group[k]) {
        DiscerningItem(env, n, k);
      }
    }
  }

  lemma DiscerningItem(env: Env, n: Node, k: nat)
    requires n.Select? && k < |n.group| && Agrees(env, n, k) && Discerning(env.fp, n)
    ensures !GivesBack(env, n.group[k])
  {
    hide SumOf, Kids, HasSelect, Match, TargetSum;
    var i := Match(env, TargetFps(env, n.targets), n.group, k);
    assert env.fp(n.targets[i].value) == env.fp(n.group[k]);
    if GivesBack(env, n.group[k]) {
      BackNeedsSelect(env, n.group[k]);
      TargetForgets(env, n.targets[i]);
    }
  }

  lemma TargetForgets(env: Env, t: Target)
    requires TargetHasSelect(t)
    ensures RefCount(env, t) == 0
  {
    hide SumOf, HasSelect;
    if HasSelect(t.indirection) { SelectForgets(env, t.indirection); }
    if HasSelect(t.value) { SelectForgets(env, t.value); }
  }
}
