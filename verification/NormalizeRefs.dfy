/** The ids of the marks: what a walk gives to each constant and remembers of it, and which
    GROUP BY items take what a target element remembered. */
module NormalizeRefs {
  import opened Common
  import opened NormalizeLengths
  import opened NormalizeWalk
  import opened NormalizeIds
  import opened NormalizeTrees
  import opened NormalizeGroup
  import opened NormalizeSums
  import opened NormalizeTally
  import opened NormalizeMarks

  // ----- the ids of the marks

  ghost function Count(marks: seq<Mark>): nat {
    |Spots(marks)|
  }

  /** What is remembered of marks that are met when the next id is `id`: an outside parameter
      by its number, the j-th constant by the j-th id from `id` on, counted downwards. */
  ghost function Ids(marks: seq<Mark>, id: int): (r: seq<int>)
    ensures |r| == |marks|
    ensures forall j :: 0 <= j < |r| ==> r[j] == match marks[j] case Outside(p) => p case Constant(_) => -(id + Count(marks[..j]))
  {
    seq(|marks|, j requires 0 <= j < |marks| => match marks[j] case Outside(p) => p case Constant(_) => -(id + Count(marks[..j])))
  }

  /** The records of constants that hold ids of their own. */
  ghost function Own(spots: seq<int>, id: int): (r: seq<ConstLoc>)
    ensures |r| == |spots|
    ensures forall j :: 0 <= j < |r| ==> r[j] == ConstLoc(spots[j], -1, -(id + j))
  {
    seq(|spots|, j requires 0 <= j < |spots| => ConstLoc(spots[j], -1, -(id + j)))
  }

  predicate AllFalse(flags: seq<bool>) {
    forall i :: 0 <= i < |flags| ==> !flags[i]
  }

  /** From one state to a later one every mark got, or was, a number of its own. */
  ghost predicate Plain(a: State, b: State, marks: seq<Mark>) {
    && b.consts == a.consts + Own(Spots(marks), a.nextId)
    && a.reused <= b.reused && |b.reused| == |a.reused| + Count(marks) && AllFalse(b.reused[|a.reused|..])
    && b.nextId == a.nextId + Count(marks)
    && b.refs == if a.refs.Some? then Some(a.refs.value + Ids(marks, a.nextId)) else None
  }

  lemma IdsConcat(m: seq<Mark>, n: seq<Mark>, id: int)
    ensures Ids(m + n, id) == Ids(m, id) + Ids(n, id + Count(m))
  {
    hide Spots;
    forall j | 0 <= j < |m + n| ensures Ids(m + n, id)[j] == (Ids(m, id) + Ids(n, id + Count(m)))[j] {
      if j < |m| {
        assert (m + n)[..j] == m[..j];
      } else {
        assert (m + n)[..j] == m + n[..j - |m|];
        SpotsConcat(m, n[..j - |m|]);
      }
    }
  }

  lemma OwnConcat(m: seq<int>, n: seq<int>, id: int)
    ensures Own(m + n, id) == Own(m, id) + Own(n, id + |m|)
  {}

  lemma FlagsTrans(a: seq<bool>, b: seq<bool>, c: seq<bool>)
    requires a <= b <= c && AllFalse(b[|a|..]) && AllFalse(c[|b|..])
    ensures AllFalse(c[|a|..])
  {
    forall i | 0 <= i < |c| - |a| ensures !c[|a|..][i] {
      if i < |b| - |a| { assert c[|a| + i] == b[|a|..][i]; } else { assert c[|a| + i] == c[|b|..][|a| + i - |b|]; }
    }
  }

  lemma PlainTrans(a: State, b: State, c: State, m: seq<Mark>, n: seq<Mark>)
    requires Plain(a, b, m) && Plain(b, c, n)
    ensures Plain(a, c, m + n)
  {
    hide Spots, Ids, Own, AllFalse;
    SpotsConcat(m, n);
    IdsConcat(m, n, a.nextId);
    OwnConcat(Spots(m), Spots(n), a.nextId);
    FlagsTrans(a.reused, b.reused, c.reused);
    assert b.consts + Own(Spots(n), b.nextId) == a.consts + Own(Spots(m + n), a.nextId);
    if a.refs.Some? {
      assert b.refs.value + Ids(n, b.nextId) == a.refs.value + Ids(m + n, a.nextId);
    }
  }

  lemma PlainNothing(st: State)
    ensures Plain(st, st, [])
  {
    assert Ids([], st.nextId) == [] && Own([], st.nextId) == [];
    assert st.consts + [] == st.consts && (st.refs.Some? ==> st.refs.value + [] == st.refs.value);
  }

  lemma PlainRecord(st: State, location: nat)
    ensures Plain(st, Record(st, location), [Constant(location)])
  {
    var marks := [Constant(location)];
    SpotsNext([], Constant(location));
    assert [] + marks == marks && marks[..0] == [];
    assert Own(Spots(marks), st.nextId) == [ConstLoc(location, -1, -st.nextId)];
    assert Ids(marks, st.nextId) == [-st.nextId];
  }

  lemma PlainParam(st: State, number: nat)
    ensures Plain(st, Param(st, number), [Outside(number)])
  {
    var marks := [Outside(number)];
    SpotsNext([], Outside(number));
    assert [] + marks == marks;
    assert Own([], st.nextId) == [];
    assert Ids(marks, st.nextId) == [number];
  }

  lemma PlainQuote(env: Env, st: State, n: Node)
    requires n.DefElem? && n.arg.StringValue?
    ensures Plain(st, Walk(env, st, n), Marks(env, n))
  {
    hide Plain;
    QuoteIsFirst(env, n.start);
    hide FindQuote, QuoteMarks;
    if FindQuote(env, n.start).Some? {
      PlainRecord(st, FindQuote(env, n.start).value);
    } else {
      PlainNothing(st);
    }
  }

  lemma PlainLeaf(env: Env, st: State, n: Node)
    requires n.Null? || n.AConst? || n.ParamRef? || n.StringValue? || n.TypeName?
    ensures Plain(st, Walk(env, st, n), Marks(env, n))
  {
    hide Plain;
    match n {
      case AConst(_, location) =>
        if location >= 0 { PlainRecord(st, location); } else { PlainNothing(st); }
      case ParamRef(number) => PlainParam(st, number);
      case _ => PlainNothing(st);
    }
  }

  lemma NoSelectBelow(n: Node)
    requires !HasSelect(n)
    ensures forall x :: x in Kids(n) ==> !HasSelect(x)
    ensures n.Select? ==> n.targets == []
  {
    hide Kids;
  }

  /** Without a SELECT that has a target list, a walk gives every marked constant an id of
      its own, and while references are remembered it remembers all of them. */
  lemma {:induction false} WalkIsPlain(env: Env, st: State, n: Node)
    requires !HasSelect(n)
    ensures Plain(st, Walk(env, st, n), Marks(env, n))
    decreases n, 1, 0
  {
    NoSelectBelow(n);
    hide Plain, Walk, Marks, HasSelect;
    match n {
      case DefElem(_, arg, _) =>
        if arg.StringValue? {
          PlainQuote(env, st, n);
        } else {
          assert arg in Kids(n);
          WalkIsPlain(env, st, arg);
          OneKidMeets(env, st, n, arg);
        }
      case SortBy(_, key) =>
        assert key in Kids(n);
        WalkIsPlain(env, st, key);
        OneKidMeets(env, st, n, key);
      case Wrapper(_, child) =>
        assert child in Kids(n);
        WalkIsPlain(env, st, child);
        OneKidMeets(env, st, n, child);
      case Other(_, children) => PlainOther(env, st, n);
      case Select(_, _, _, _, _, _, _) => PlainSelect(env, st, n);
      case _ => PlainLeaf(env, st, n);
    }
  }

  lemma PlainOther(env: Env, st: State, n: Node)
    requires n.Other? && forall x :: x in n.children ==> !HasSelect(x)
    ensures Plain(st, Walk(env, st, n), Marks(env, n))
    decreases n, 0
  {
    hide Plain, WalkAll, ListMarks;
    PlainList(env, st, n.children, |n.children|);
  }

  lemma {:induction false} PlainList(env: Env, st: State, ns: seq<Node>, k: nat)
    requires k <= |ns| && forall x :: x in ns ==> !HasSelect(x)
    ensures Plain(st, WalkAll(env, st, ns, k), ListMarks(env, ns, k))
    decreases ns, 0, k
  {
    hide Plain, Walk, Marks, HasSelect;
    if k == 0 {
      PlainNothing(st);
    } else {
      var before := WalkAll(env, st, ns, k - 1);
      PlainList(env, st, ns, k - 1);
      WalkIsPlain(env, before, ns[k - 1]);
      PlainTrans(st, before, WalkAll(env, st, ns, k), ListMarks(env, ns, k - 1), Marks(env, ns[k - 1]));
    }
  }

  lemma {:induction false} PlainSort(env: Env, st: State, ns: seq<Node>, k: nat)
    requires k <= |ns| && forall x :: x in ns ==> !HasSelect(x)
    ensures Plain(st, WalkSort(env, st, ns, k), SortMarks(env, ns, k))
    decreases ns, 0, k
  {
    hide Plain, Walk, Marks, HasSelect;
    if k == 0 {
      PlainNothing(st);
    } else {
      var before := WalkSort(env, st, ns, k - 1);
      PlainSort(env, st, ns, k - 1);
      if SkipsSort(ns[k - 1]) { PlainNothing(before); } else { WalkIsPlain(env, before, ns[k - 1]); }
      PlainTrans(st, before, WalkSort(env, st, ns, k), SortMarks(env, ns, k - 1), KeyMarks(env, ns[k - 1]));
    }
  }

  /** Without target elements no item of a GROUP BY list takes anything over. */
  lemma {:induction false} PlainGroup(env: Env, st: State, ns: seq<Node>, k: nat)
    requires k <= |ns| && forall x :: x in ns ==> !HasSelect(x)
    ensures Plain(st, WalkGroup(env, (st, []), ns, k).0, GroupMarks(env, ns, k)) && WalkGroup(env, (st, []), ns, k).1 == []
    decreases ns, 0, k
  {
    hide Plain, Walk, Marks, HasSelect, Lend;
    if k == 0 {
      PlainNothing(st);
    } else {
      var before := WalkGroup(env, (st, []), ns, k - 1).0;
      PlainGroup(env, st, ns, k - 1);
      if IsIntegerConst(ns[k - 1]) { PlainNothing(before); } else { WalkIsPlain(env, before, ns[k - 1]); }
      PlainTrans(st, before, WalkGroup(env, (st, []), ns, k).0, GroupMarks(env, ns, k - 1), ItemMarks(env, ns[k - 1]));
    }
  }

  lemma NoTargets(env: Env, st: State, n: Node)
    requires n.Select? && n.targets == []
    ensures WalkTargets(env, st, n.targets, |n.targets|) == (st, []) && TargetMarks(env, n.targets, |n.targets|) == []
  {}

  lemma PlainSelect(env: Env, st: State, n: Node)
    requires n.Select? && n.targets == [] && forall x :: x in Kids(n) ==> !HasSelect(x)
    ensures Plain(st, Walk(env, st, n), Marks(env, n))
    decreases n, 0, 1
  {
    hide *;
    var a, c := ListMarks(env, n.before, |n.before|), ListMarks(env, n.middle, |n.middle|);
    var d, e, f := GroupMarks(env, n.group, |n.group|), SortMarks(env, n.sort, |n.sort|), ListMarks(env, n.after, |n.after|);
    var s1 := WalkAll(env, st, n.before, |n.before|);
    var s3 := WalkAll(env, s1, n.middle, |n.middle|);
    PlainFront(env, st, n);
    PlainRest(env, s3, n);
    PlainTrans(st, s3, Walk(env, st, n), a + c, d + e + f) by {
      NoTargets(env, s1, n);
      SelectUnfolds(env, st, n);
    }
    NoTargets(env, s1, n);
    SelectMarks(env, n);
    WithoutTargets(a, c, d, e, f);
  }

  lemma WithoutTargets(a: seq<Mark>, c: seq<Mark>, d: seq<Mark>, e: seq<Mark>, f: seq<Mark>)
    ensures a + [] + c + d + e + f == (a + c) + (d + e + f)
  {}

  lemma PlainFront(env: Env, st: State, n: Node)
    requires n.Select? && forall x :: x in Kids(n) ==> !HasSelect(x)
    ensures
      var s1 := WalkAll(env, st, n.before, |n.before|);
      Plain(st, WalkAll(env, s1, n.middle, |n.middle|), ListMarks(env, n.before, |n.before|) + ListMarks(env, n.middle, |n.middle|))
    decreases n, 0, 0
  {
    hide *;
    InKids(n);
    var s1 := WalkAll(env, st, n.before, |n.before|);
    PlainList(env, st, n.before, |n.before|);
    PlainList(env, s1, n.middle, |n.middle|);
    PlainTrans(st, s1, WalkAll(env, s1, n.middle, |n.middle|), ListMarks(env, n.before, |n.before|), ListMarks(env, n.middle, |n.middle|));
  }

  lemma PlainRest(env: Env, st: State, n: Node)
    requires n.Select? && forall x :: x in Kids(n) ==> !HasSelect(x)
    ensures
      var s4 := WalkGroup(env, (st, []), n.group, |n.group|).0;
      var s5 := WalkSort(env, s4, n.sort, |n.sort|);
      Plain(st, WalkAll(env, s5, n.after, |n.after|),
            GroupMarks(env, n.group, |n.group|) + SortMarks(env, n.sort, |n.sort|) + ListMarks(env, n.after, |n.after|))
    decreases n, 0, 0
  {
    hide *;
    InKids(n);
    var d, e, f := GroupMarks(env, n.group, |n.group|), SortMarks(env, n.sort, |n.sort|), ListMarks(env, n.after, |n.after|);
    var s4 := WalkGroup(env, (st, []), n.group, |n.group|).0;
    var s5 := WalkSort(env, s4, n.sort, |n.sort|);
    PlainGroup(env, st, n.group, |n.group|);
    PlainSort(env, s4, n.sort, |n.sort|);
    PlainTrans(st, s4, s5, d, e);
    PlainList(env, s5, n.after, |n.after|);
    PlainTrans(st, s5, WalkAll(env, s5, n.after, |n.after|), d + e, f);
  }

  // ----- what target elements remember

  /** The constants of a tree are counted right, and so are the references while they are
      remembered. */
  lemma SumsCountMarks(env: Env, n: Node)
    ensures SumOf(env, n).count == Count(Marks(env, n))
    ensures SumOf(env, n).refs == if HasSelect(n) then None else Some(|Marks(env, n)|)
  {
    hide Walk, SumOf, Marks, Spots, HasSelect;
    var start := INIT.(refs := Some([]));
    WalkTallies(env, start, n);
    WalkMeets(env, start, n);
    assert |Locations(Walk(env, start, n).consts)| == |Locations(start.consts)| + Count(Marks(env, n));
    if HasSelect(n) { SelectForgets(env, n); } else { PlainRemembers(env, start, n); }
  }

  lemma PlainRemembers(env: Env, start: State, n: Node)
    requires !HasSelect(n) && start == INIT.(refs := Some([])) && Tally(start, Walk(env, start, n), SumOf(env, n))
    ensures SumOf(env, n).refs == Some(|Marks(env, n)|)
  {
    hide Walk, SumOf, Marks, Spots, HasSelect;
    WalkIsPlain(env, start, n);
    assert Walk(env, start, n).refs == Some([] + Ids(Marks(env, n), 1));
  }

  /** The references a target element ends with: those of its marks, or none if a SELECT in
      it switched recording off. */
  ghost function ElementIds(env: Env, t: Target, id: int): seq<int> {
    if TargetHasSelect(t) then [] else Ids(ElementMarks(env, t), id)
  }

  lemma ElementRemembers(env: Env, st: State, ts: seq<Target>, k: nat)
    requires Sized(st) && k < |ts|
    ensures RefsOf(WalkTarget(env, st, ts, k)) == ElementIds(env, ts[k], st.nextId)
  {
    hide Walk, SumOf, Marks, Spots, HasSelect;
    var t, start := ts[k], st.(refs := Some([]));
    var mid := Walk(env, start, t.indirection);
    if TargetHasSelect(t) {
      TargetForgotten(env, st, ts, k);
    } else {
      WalkIsPlain(env, start, t.indirection);
      WalkIsPlain(env, mid, t.value);
      PlainTrans(start, mid, Walk(env, mid, t.value), Marks(env, t.indirection), Marks(env, t.value));
      assert [] + Ids(ElementMarks(env, t), st.nextId) == Ids(ElementMarks(env, t), st.nextId);
    }
  }

  lemma TargetForgotten(env: Env, st: State, ts: seq<Target>, k: nat)
    requires Sized(st) && k < |ts| && TargetHasSelect(ts[k])
    ensures RefsOf(WalkTarget(env, st, ts, k)) == []
  {
    hide WalkTarget, Tally, SumOf, HasSelect;
    TargetTallies(env, st, ts, k);
    SumsCountMarks(env, ts[k].indirection);
    SumsCountMarks(env, ts[k].value);
  }

  lemma RefCountOfMarks(env: Env, t: Target)
    ensures RefCount(env, t) == if TargetHasSelect(t) then 0 else |ElementMarks(env, t)|
  {
    hide SumOf, Marks, HasSelect, Count;
    SumsCountMarks(env, t.indirection);
    SumsCountMarks(env, t.value);
  }

  /** The table of a target list: for every element the fingerprint of its value and the
      references of its marks, counted from the id that was next when its walk began. */
  lemma {:induction false} TableOfMarks(env: Env, st: State, ts: seq<Target>, k: nat, i: nat)
    requires Sized(st) && i < k <= |ts|
    ensures
      WalkTargets(env, st, ts, k).1[i] ==
      Entry(env.fp(ts[i].value), ElementIds(env, ts[i], WalkTargets(env, st, ts, i).0.nextId))
    decreases k
  {
    hide WalkTarget, ElementIds, Counts, HeldWith, Held, Total, TargetSum;
    if i < k - 1 {
      TableOfMarks(env, st, ts, k - 1, i);
    } else {
      TargetsTally(env, st, ts, i);
      CountsSized(st, WalkTargets(env, st, ts, i).0, Total(TargetSums(env, ts)[..i]));
      ElementRemembers(env, WalkTargets(env, st, ts, i).0, ts, i);
    }
  }

  /** A GROUP BY item takes what its target element remembered if and only if that is as
      many references as the item has constants. */
  lemma AgreesIff(env: Env, n: Node, k: nat)
    requires n.Select? && k < |n.group|
    ensures Agrees(env, n, k) <==>
      var i := Match(env, TargetFps(env, n.targets), n.group, k);
      && i < |n.targets|
      && Count(Marks(env, n.group[k])) == if TargetHasSelect(n.targets[i]) then 0 else |ElementMarks(env, n.targets[i])|
  {
    hide SumOf, Marks, HasSelect, Count, RefCount, ElementMarks, Match;
    var i := Match(env, TargetFps(env, n.targets), n.group, k);
    SumsCountMarks(env, n.group[k]);
    if i < |n.targets| { RefCountOfMarks(env, n.targets[i]); }
  }

  /** Main result on GROUP BY: the constants of an item that agrees with its target element
      end with the references of the element's marks, in order: an outside
      parameter by its number, a constant by the id that it got there. */
  lemma TakenIds(env: Env, st: State, n: Node, k: nat)
    requires Sized(st) && n.Select? && k < |n.group| && !IsIntegerConst(n.group[k]) && Agrees(env, n, k)
    ensures
      var s1 := WalkAll(env, st, n.before, |n.before|);
      var s2 := WalkTargets(env, s1, n.targets, |n.targets|);
      var s3 := WalkAll(env, s2.0, n.middle, |n.middle|);
      var first, end := |WalkGroup(env, (s3, s2.1), n.group, k).0.consts|, WalkGroup(env, (s3, s2.1), n.group, |n.group|).0;
      var i := Match(env, TargetFps(env, n.targets), n.group, k);
      var ids := ElementIds(env, n.targets[i], WalkTargets(env, s1, n.targets, i).0.nextId);
      && i < |n.targets| && |ids| == Count(Marks(env, n.group[k])) && first + |ids| <= |end.consts|
      && forall j :: 0 <= j < |ids| ==> end.consts[first + j].paramId == ids[j]
  {
    hide Walk, WalkAll, WalkTargets, WalkGroup, Agrees, SumOf, Marks, Spots, HasSelect, Counts, Held, HeldWith;
    hide Total, Match, ElementIds, ElementMarks;
    var s1 := WalkAll(env, st, n.before, |n.before|);
    var s2 := WalkTargets(env, s1, n.targets, |n.targets|);
    var s3 := WalkAll(env, s2.0, n.middle, |n.middle|);
    var i := Match(env, TargetFps(env, n.targets), n.group, k);
    FrontTallies(env, st, n);
    FrontSized(env, st, n);
    ItemTakes(env, n, s2.1, k);
    TableOfMarks(env, s1, n.targets, |n.targets|, i);
    GroupListReuse(env, (s3, s2.1), n.group, k);
    SumsCountMarks(env, n.group[k]);
  }

  lemma FrontSized(env: Env, st: State, n: Node)
    requires Sized(st) && n.Select?
    ensures
      var s1 := WalkAll(env, st, n.before, |n.before|);
      var s2 := WalkTargets(env, s1, n.targets, |n.targets|);
      Sized(s1) && Sized(WalkAll(env, s2.0, n.middle, |n.middle|))
  {
    hide WalkAll, WalkTargets, Tally, Counts, Total;
    FrontTallies(env, st, n);
    AllTally(env, st, n.before, |n.before|);
    StaysSized(st, WalkAll(env, st, n.before, |n.before|), Total(Sums(env, n.before)[..|n.before|]));
    CountsStaysSized(env, st, n);
  }

  lemma CountsStaysSized(env: Env, st: State, n: Node)
    requires Sized(st) && n.Select?
    ensures Sized(WalkAll(env, WalkTargets(env, WalkAll(env, st, n.before, |n.before|), n.targets, |n.targets|).0, n.middle, |n.middle|))
  {
    hide WalkAll, WalkTargets, FreshIds, Total, Sums, TargetSums;
    FrontTallies(env, st, n);
  }

  lemma ItemTakes(env: Env, n: Node, table: seq<Entry>, k: nat)
    requires n.Select? && k < |n.group| && Agrees(env, n, k) && Remembers(env, table, n.targets) && |table| == |n.targets|
    ensures Takes(env, table, n.group, k) && Fps(table) == TargetFps(env, n.targets)
    ensures
      var i := Match(env, Fps(table), n.group, k);
      i < |n.targets| && |table[i].refs| == SumOf(env, n.group[k]).count
  {
    hide Match, RefCount, SumOf;
    assert Fps(table) == TargetFps(env, n.targets);
  }
}
