/** What a walk meets, read off the tree in the order of the walk: the places that become
    constants and the outside parameters. The walk records exactly these. */
module NormalizeMarks {
  import opened Common
  import opened NormalizeLengths
  import opened NormalizeWalk
  import opened NormalizeTrees
  import opened NormalizeSums

  datatype Mark = Outside(number: nat) | Constant(location: nat)

  ghost predicate FirstQuote(query: string, start: Location, at: nat) {
    start <= at < |query| && query[at] == '\'' && forall j :: 0 <= j < at && start <= j ==> query[j] != '\''
  }

  /** A string argument stands at the first quote from its location on. From an unknown
      location nothing is found when the byte ahead of the query is a quote. */
  ghost function QuoteMarks(env: Env, start: Location): seq<Mark> {
    if start == -1 && env.ahead == '\'' then []
    else if at :| FirstQuote(env.query, start, at) then [Constant(at)]
    else []
  }

  /** The marks of a tree. An integer that stands by itself in a GROUP BY or ORDER BY list
      leaves none. */
  ghost function Marks(env: Env, n: Node): seq<Mark>
    decreases n, 1
  {
    match n
    case AConst(_, location) => if location >= 0 then [Constant(location)] else []
    case ParamRef(number) => [Outside(number)]
    case DefElem(_, StringValue(_), start) => QuoteMarks(env, start)
    case DefElem(_, arg, _) => Marks(env, arg)
    case SortBy(_, key) => Marks(env, key)
    case Wrapper(_, child) => Marks(env, child)
    case Other(_, children) => ListMarks(env, children, |children|)
    case Select(_, before, targets, middle, group, sort, after) =>
      ListMarks(env, before, |before|) + TargetMarks(env, targets, |targets|) + ListMarks(env, middle, |middle|)
      + GroupMarks(env, group, |group|) + SortMarks(env, sort, |sort|) + ListMarks(env, after, |after|)
    case _ => []
  }

  /** Those of the first k of a list. */
  ghost function ListMarks(env: Env, ns: seq<Node>, k: nat): seq<Mark>
    requires k <= |ns|
    decreases ns, 0, k
  {
    if k == 0 then [] else ListMarks(env, ns, k - 1) + Marks(env, ns[k - 1])
  }

  ghost function ElementMarks(env: Env, t: Target): seq<Mark>
    decreases t, 2
  {
    Marks(env, t.indirection) + Marks(env, t.value)
  }

  ghost function TargetMarks(env: Env, ts: seq<Target>, k: nat): seq<Mark>
    requires k <= |ts|
    decreases ts, 0, k
  {
    if k == 0 then [] else TargetMarks(env, ts, k - 1) + ElementMarks(env, ts[k - 1])
  }

  ghost function ItemMarks(env: Env, n: Node): seq<Mark>
    decreases n, 2
  {
    match n
    case AConst(true, _) => []
    case _ => Marks(env, n)
  }

  ghost function GroupMarks(env: Env, ns: seq<Node>, k: nat): seq<Mark>
    requires k <= |ns|
    decreases ns, 0, k
  {
    if k == 0 then [] else GroupMarks(env, ns, k - 1) + ItemMarks(env, ns[k - 1])
  }

  ghost function KeyMarks(env: Env, n: Node): seq<Mark>
    decreases n, 2
  {
    match n
    case SortBy(_, AConst(true, _)) => []
    case _ => Marks(env, n)
  }

  ghost function SortMarks(env: Env, ns: seq<Node>, k: nat): seq<Mark>
    requires k <= |ns|
    decreases ns, 0, k
  {
    if k == 0 then [] else SortMarks(env, ns, k - 1) + KeyMarks(env, ns[k - 1])
  }

  /** The locations of the constants among the marks. */
  ghost function Spots(marks: seq<Mark>): seq<int> {
    if marks == [] then []
    else Spots(marks[..|marks| - 1]) + match marks[|marks| - 1] case Constant(location) => [location] case Outside(_) => []
  }

  function Locations(consts: seq<ConstLoc>): (r: seq<int>)
    ensures |r| == |consts| && forall i :: 0 <= i < |r| ==> r[i] == consts[i].location
  {
    seq(|consts|, i requires 0 <= i < |consts| => consts[i].location)
  }

  predicate Unknown(consts: seq<ConstLoc>) {
    forall i :: 0 <= i < |consts| ==> consts[i].length == -1
  }

  lemma SpotsNext(marks: seq<Mark>, m: Mark)
    ensures Spots(marks + [m]) == Spots(marks) + match m case Constant(location) => [location] case Outside(_) => []
  {
    assert (marks + [m])[..|marks|] == marks;
  }

  lemma {:induction false} SpotsConcat(a: seq<Mark>, b: seq<Mark>)
    ensures Spots(a + b) == Spots(a) + Spots(b)
    decreases |b|
  {
    if b == [] {
      assert a + b == a;
    } else {
      var front, last := b[..|b| - 1], b[|b| - 1];
      SpotsConcat(a, front);
      SpotsNext(a + front, last);
      SpotsNext(front, last);
      hide Spots;
      assert b == front + [last] && a + b == (a + front) + [last];
    }
  }

  // ----- the walk records the marks

  /** From one state to a later one the constants of the marks were recorded, in order, and
      the outside parameters were noted. */
  ghost predicate Met(a: State, b: State, marks: seq<Mark>) {
    && Locations(b.consts) == Locations(a.consts) + Spots(marks)
    && (Unknown(a.consts) ==> Unknown(b.consts))
    && a.highestExtern <= b.highestExtern
    && (forall p: nat :: Outside(p) in marks ==> p <= b.highestExtern)
    && (b.highestExtern == a.highestExtern || Outside(b.highestExtern) in marks)
  }

  lemma MetTrans(a: State, b: State, c: State, m: seq<Mark>, n: seq<Mark>)
    requires Met(a, b, m) && Met(b, c, n)
    ensures Met(a, c, m + n)
  {
    hide Spots, Unknown;
    SpotsConcat(m, n);
  }

  lemma NothingMet(st: State)
    ensures Met(st, st, [])
  {}

  lemma RecordMeets(st: State, location: nat)
    ensures Met(st, Record(st, location), [Constant(location)])
  {
    SpotsNext([], Constant(location));
    assert [] + [Constant(location)] == [Constant(location)];
  }

  lemma ParamMeets(st: State, number: nat)
    ensures Met(st, Param(st, number), [Outside(number)])
  {
    SpotsNext([], Outside(number));
    assert [] + [Outside(number)] == [Outside(number)];
  }

  lemma NoneEarlier(query: string, start: Location, a: nat, b: nat)
    requires FirstQuote(query, start, a) && FirstQuote(query, start, b)
    ensures a <= b
  {}

  /** The quote that the search finds is the first one. */
  lemma QuoteIsFirst(env: Env, start: Location)
    ensures QuoteMarks(env, start) ==
      if FindQuote(env, start).Some? then [Constant(FindQuote(env, start).value)] else []
  {
    if FindQuote(env, start).Some? {
      var at := FindQuote(env, start).value;
      assert FirstQuote(env.query, start, at);
      forall other: nat | FirstQuote(env.query, start, other) ensures other == at {
        NoneEarlier(env.query, start, other, at);
        NoneEarlier(env.query, start, at, other);
      }
    }
  }

  lemma QuoteMeets(env: Env, st: State, n: Node)
    requires n.DefElem? && n.arg.StringValue?
    ensures Met(st, Walk(env, st, n), Marks(env, n))
  {
    hide Met;
    QuoteIsFirst(env, n.start);
    hide FindQuote, QuoteMarks;
    if FindQuote(env, n.start).Some? {
      RecordMeets(st, FindQuote(env, n.start).value);
    } else {
      NothingMet(st);
    }
  }

  lemma OneKidMeets(env: Env, st: State, n: Node, x: Node)
    requires (n.SortBy? && n.key == x) || (n.Wrapper? && n.child == x) || (n.DefElem? && !x.StringValue? && n.arg == x)
    ensures Walk(env, st, n) == Walk(env, st, x) && Marks(env, n) == Marks(env, x)
  {
    hide FindQuote, QuoteMarks;
  }

  lemma LeafMeets(env: Env, st: State, n: Node)
    requires n.Null? || n.AConst? || n.ParamRef? || n.StringValue? || n.TypeName?
    ensures Met(st, Walk(env, st, n), Marks(env, n))
  {
    hide Met;
    match n {
      case AConst(_, location) =>
        if location >= 0 { RecordMeets(st, location); } else { NothingMet(st); }
      case ParamRef(number) => ParamMeets(st, number);
      case _ => NothingMet(st);
    }
  }

  lemma {:induction false} WalkMeets(env: Env, st: State, n: Node)
    ensures Met(st, Walk(env, st, n), Marks(env, n))
    decreases n, 1, 0
  {
    hide Met, Walk, Marks;
    match n {
      case DefElem(_, arg, _) =>
        if arg.StringValue? {
          QuoteMeets(env, st, n);
        } else {
          WalkMeets(env, st, arg);
          OneKidMeets(env, st, n, arg);
        }
      case SortBy(_, key) =>
        WalkMeets(env, st, key);
        OneKidMeets(env, st, n, key);
      case Wrapper(_, child) =>
        WalkMeets(env, st, child);
        OneKidMeets(env, st, n, child);
      case Other(_, children) => OtherMeets(env, st, n);
      case Select(_, _, _, _, _, _, _) => SelectMeets(env, st, n);
      case _ => LeafMeets(env, st, n);
    }
  }

  lemma OtherMeets(env: Env, st: State, n: Node)
    requires n.Other?
    ensures Met(st, Walk(env, st, n), Marks(env, n))
    decreases n, 0
  {
    hide Met, WalkAll, ListMarks;
    ListMeets(env, st, n.children, |n.children|);
  }

  lemma {:induction false} ListMeets(env: Env, st: State, ns: seq<Node>, k: nat)
    requires k <= |ns|
    ensures Met(st, WalkAll(env, st, ns, k), ListMarks(env, ns, k))
    decreases ns, 0, k
  {
    hide Met, Walk, Marks;
    if k == 0 {
      NothingMet(st);
    } else {
      var before := WalkAll(env, st, ns, k - 1);
      ListMeets(env, st, ns, k - 1);
      WalkMeets(env, before, ns[k - 1]);
      MetTrans(st, before, WalkAll(env, st, ns, k), ListMarks(env, ns, k - 1), Marks(env, ns[k - 1]));
    }
  }

  lemma {:induction false} SortMeets(env: Env, st: State, ns: seq<Node>, k: nat)
    requires k <= |ns|
    ensures Met(st, WalkSort(env, st, ns, k), SortMarks(env, ns, k))
    decreases ns, 0, k
  {
    hide Met, Walk, Marks;
    if k == 0 {
      NothingMet(st);
    } else {
      var before := WalkSort(env, st, ns, k - 1);
      SortMeets(env, st, ns, k - 1);
      if SkipsSort(ns[k - 1]) { NothingMet(before); } else { WalkMeets(env, before, ns[k - 1]); }
      MetTrans(st, before, WalkSort(env, st, ns, k), SortMarks(env, ns, k - 1), KeyMarks(env, ns[k - 1]));
    }
  }

  /** Recording references changes nothing here. */
  lemma MetAnyRefs(a: State, b: State, marks: seq<Mark>, refs: Option<seq<int>>, end: Option<seq<int>>)
    requires Met(a.(refs := refs), b, marks)
    ensures Met(a, b.(refs := end), marks)
  {}

  lemma TargetMeets(env: Env, st: State, ts: seq<Target>, k: nat)
    requires k < |ts|
    ensures Met(st, WalkTarget(env, st, ts, k).(refs := None), ElementMarks(env, ts[k]))
    decreases ts, 0, k
  {
    assert ts[k].indirection < ts[k] && ts[k].value < ts[k];
    hide Met, Walk, Marks;
    var start := st.(refs := Some([]));
    var mid := Walk(env, start, ts[k].indirection);
    WalkMeets(env, start, ts[k].indirection);
    WalkMeets(env, mid, ts[k].value);
    MetTrans(start, mid, Walk(env, mid, ts[k].value), Marks(env, ts[k].indirection), Marks(env, ts[k].value));
    MetAnyRefs(st, Walk(env, mid, ts[k].value), ElementMarks(env, ts[k]), Some([]), None);
  }

  lemma {:induction false} TargetsMeet(env: Env, st: State, ts: seq<Target>, k: nat)
    requires k <= |ts|
    ensures Met(st, WalkTargets(env, st, ts, k).0, TargetMarks(env, ts, k))
    decreases ts, 0, k
  {
    hide Met, Walk, WalkTarget, Marks, ElementMarks;
    if k == 0 {
      NothingMet(st);
    } else {
      var before := WalkTargets(env, st, ts, k - 1).0;
      TargetsMeet(env, st, ts, k - 1);
      TargetMeets(env, before, ts, k - 1);
      MetTrans(st, before, WalkTargets(env, st, ts, k).0, TargetMarks(env, ts, k - 1), ElementMarks(env, ts[k - 1]));
    }
  }

  /** Lending references changes ids only. */
  lemma MetLent(before: State, walked: State, refs: seq<int>, marks: seq<Mark>)
    requires Met(before, walked, marks)
    ensures Met(before, Lend(before, walked, refs), marks)
  {
    var r := Lend(before, walked, refs);
    assert Locations(r.consts) == Locations(walked.consts);
    forall i | 0 <= i < |r.consts| ensures r.consts[i].length == walked.consts[i].length {}
  }

  lemma {:induction false} GroupMeets(env: Env, st: (State, seq<Entry>), ns: seq<Node>, k: nat)
    requires k <= |ns|
    ensures Met(st.0, WalkGroup(env, st, ns, k).0, GroupMarks(env, ns, k))
    decreases ns, 0, k
  {
    hide Met, Walk, Marks, Lend, Find;
    if k == 0 {
      NothingMet(st.0);
    } else {
      var before := WalkGroup(env, st, ns, k - 1);
      GroupMeets(env, st, ns, k - 1);
      if IsIntegerConst(ns[k - 1]) {
        NothingMet(before.0);
      } else {
        var walked, hit := Walk(env, before.0, ns[k - 1]), Find(before.1, env.fp(ns[k - 1]));
        WalkMeets(env, before.0, ns[k - 1]);
        if hit < |before.1| { MetLent(before.0, walked, before.1[hit].refs, Marks(env, ns[k - 1])); }
      }
      MetTrans(st.0, before.0, WalkGroup(env, st, ns, k).0, GroupMarks(env, ns, k - 1), ItemMarks(env, ns[k - 1]));
    }
  }

  lemma SelectMarks(env: Env, n: Node)
    requires n.Select?
    ensures Marks(env, n) ==
      ListMarks(env, n.before, |n.before|) + TargetMarks(env, n.targets, |n.targets|) + ListMarks(env, n.middle, |n.middle|)
      + GroupMarks(env, n.group, |n.group|) + SortMarks(env, n.sort, |n.sort|) + ListMarks(env, n.after, |n.after|)
  {}

  lemma SelectMeets(env: Env, st: State, n: Node)
    requires n.Select?
    ensures Met(st, Walk(env, st, n), Marks(env, n))
    decreases n, 0
  {
    hide Met, Walk, WalkAll, WalkTargets, WalkGroup, WalkSort, Marks, ListMarks, TargetMarks, GroupMarks, SortMarks;
    var a, b, c := ListMarks(env, n.before, |n.before|), TargetMarks(env, n.targets, |n.targets|), ListMarks(env, n.middle, |n.middle|);
    var d, e, f := GroupMarks(env, n.group, |n.group|), SortMarks(env, n.sort, |n.sort|), ListMarks(env, n.after, |n.after|);
    var s1 := WalkAll(env, st, n.before, |n.before|);
    var s2 := WalkTargets(env, s1, n.targets, |n.targets|);
    var s3 := WalkAll(env, s2.0, n.middle, |n.middle|);
    var s4 := WalkGroup(env, (s3, s2.1), n.group, |n.group|).0;
    var s5 := WalkSort(env, s4, n.sort, |n.sort|);
    ListMeets(env, st, n.before, |n.before|);
    TargetsMeet(env, s1, n.targets, |n.targets|);
    MetTrans(st, s1, s2.0, a, b);
    ListMeets(env, s2.0, n.middle, |n.middle|);
    MetTrans(st, s2.0, s3, a + b, c);
    GroupMeets(env, (s3, s2.1), n.group, |n.group|);
    MetTrans(st, s3, s4, a + b + c, d);
    SortMeets(env, s4, n.sort, |n.sort|);
    MetTrans(st, s4, s5, a + b + c + d, e);
    ListMeets(env, s5, n.after, |n.after|);
    MetTrans(st, s5, Walk(env, st, n), a + b + c + d + e, f) by { SelectUnfolds(env, st, n); }
    SelectMarks(env, n);
  }

  // ----- outside parameters

  lemma {:induction false} ListMarked(env: Env, ns: seq<Node>, k: nat, m: Mark)
    requires k <= |ns|
    ensures m in ListMarks(env, ns, k) <==> exists i :: 0 <= i < k && m in Marks(env, ns[i])
  {
    hide Marks;
    if k > 0 { ListMarked(env, ns, k - 1, m); }
  }

  lemma {:induction false} TargetMarked(env: Env, ts: seq<Target>, k: nat, m: Mark)
    requires k <= |ts|
    ensures m in TargetMarks(env, ts, k) <==>
      exists i :: 0 <= i < k && (m in Marks(env, ts[i].indirection) || m in Marks(env, ts[i].value))
  {
    hide Marks;
    if k > 0 { TargetMarked(env, ts, k - 1, m); }
  }

  lemma {:induction false} GroupMarked(env: Env, ns: seq<Node>, k: nat, p: nat)
    requires k <= |ns|
    ensures Outside(p) in GroupMarks(env, ns, k) <==> exists i :: 0 <= i < k && Outside(p) in Marks(env, ns[i])
  {
    if k > 0 {
      GroupMarked(env, ns, k - 1, p);
      assert Outside(p) in ItemMarks(env, ns[k - 1]) <==> Outside(p) in Marks(env, ns[k - 1]);
      hide Marks, ItemMarks;
    }
  }

  lemma {:induction false} SortMarked(env: Env, ns: seq<Node>, k: nat, p: nat)
    requires k <= |ns|
    ensures Outside(p) in SortMarks(env, ns, k) <==> exists i :: 0 <= i < k && Outside(p) in Marks(env, ns[i])
  {
    if k > 0 {
      SortMarked(env, ns, k - 1, p);
      assert Outside(p) in KeyMarks(env, ns[k - 1]) <==> Outside(p) in Marks(env, ns[k - 1]);
      hide Marks, KeyMarks;
    }
  }

  /** The outside parameters among the marks are those of the tree. */
  lemma {:induction false} OutsideIffParam(env: Env, n: Node, p: nat)
    ensures Outside(p) in Marks(env, n) <==> p in Params(n)
    decreases n
  {
    hide Marks, Kids;
    forall x | x in Kids(n) ensures Outside(p) in Marks(env, x) <==> p in Params(x) {
      BelowKid(n, x);
      OutsideIffParam(env, x, p);
    }
    if n.Select? {
      SelectOutside(env, n, p);
    } else {
      PlainOutside(env, n, p);
    }
  }

  lemma PlainOutside(env: Env, n: Node, p: nat)
    requires !n.Select?
    ensures Outside(p) in Marks(env, n) <==>
      (n.ParamRef? && n.number == p) || exists x :: x in Kids(n) && Outside(p) in Marks(env, x)
  {
    match n {
      case Other(_, children) =>
        ListMarked(env, children, |children|, Outside(p));
        hide Marks;
        forall x | x in children && Outside(p) in Marks(env, x)
          ensures exists i :: 0 <= i < |children| && Outside(p) in Marks(env, children[i])
        {
          var i :| 0 <= i < |children| && children[i] == x;
        }
      case DefElem(_, arg, _) =>
        assert arg in Kids(n);
      case SortBy(_, key) => assert key in Kids(n);
      case Wrapper(_, child) => assert child in Kids(n);
      case _ =>
    }
  }

  lemma Somewhere(env: Env, ns: seq<Node>, m: Mark)
    ensures m in ListMarks(env, ns, |ns|) <==> exists x :: x in ns && m in Marks(env, x)
  {
    hide Marks, ListMarks;
    ListMarked(env, ns, |ns|, m);
    if x :| x in ns && m in Marks(env, x) {
      var i :| 0 <= i < |ns| && ns[i] == x;
    }
  }

  lemma SomeItem(env: Env, ns: seq<Node>, p: nat)
    ensures Outside(p) in GroupMarks(env, ns, |ns|) <==> exists x :: x in ns && Outside(p) in Marks(env, x)
    ensures Outside(p) in SortMarks(env, ns, |ns|) <==> exists x :: x in ns && Outside(p) in Marks(env, x)
  {
    hide Marks, GroupMarks, SortMarks;
    GroupMarked(env, ns, |ns|, p);
    SortMarked(env, ns, |ns|, p);
    if x :| x in ns && Outside(p) in Marks(env, x) {
      var i :| 0 <= i < |ns| && ns[i] == x;
    }
  }

  lemma SelectOutside(env: Env, n: Node, p: nat)
    requires n.Select?
    ensures Outside(p) in Marks(env, n) <==> exists x :: x in Kids(n) && Outside(p) in Marks(env, x)
  {
    SelectMarks(env, n);
    InKids(n);
    forall x | x in Kids(n) ensures
      || x in n.before || x in n.middle || x in n.group || x in n.sort || x in n.after
      || exists i :: 0 <= i < |n.targets| && (x == n.targets[i].indirection || x == n.targets[i].value)
    {
      KidOf(n, x);
    }
    hide Marks, Kids, ListMarks, TargetMarks, GroupMarks, SortMarks;
    Somewhere(env, n.before, Outside(p));
    TargetMarked(env, n.targets, |n.targets|, Outside(p));
    Somewhere(env, n.middle, Outside(p));
    SomeItem(env, n.group, p);
    SomeItem(env, n.sort, p);
    Somewhere(env, n.after, Outside(p));
  }

  /** The greatest number of a set; 0 if there is none. */
  ghost predicate Greatest(g: nat, numbers: set<nat>) {
    (g == 0 || g in numbers) && forall p :: p in numbers ==> p <= g
  }

  /** A whole walk records the marked places of the tree, in order, none of them measured
      yet, and notes the greatest parameter that occurs anywhere in it. */
  lemma TreeMeets(env: Env, tree: Node)
    ensures
      var end := Walk(env, INIT, tree);
      Locations(end.consts) == Spots(Marks(env, tree)) && Unknown(end.consts) && Greatest(end.highestExtern, Params(tree))
  {
    hide Walk, Marks, Params, Spots;
    WalkMeets(env, INIT, tree);
    var end := Walk(env, INIT, tree);
    assert Locations([]) == [];
    assert Spots(Marks(env, tree)) == [] + Spots(Marks(env, tree));
    forall p | p in Params(tree) ensures p <= end.highestExtern { OutsideIffParam(env, tree, p); }
    OutsideIffParam(env, tree, end.highestExtern);
  }
}
