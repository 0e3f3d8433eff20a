/** What the walk of a tree does to the numbers of the working state, computed from the
    tree and the fingerprints of its nodes, without walking it. */
module NormalizeSums {
  import opened Common
  import opened NormalizeWalk
  import opened NormalizeTrees
  import opened NormalizeGroup

  /** The effects of a walk: how many constants it records, how far it moves the id
      counter, how many references it remembers (None when a SELECT switches that off),
      how many of its constants keep their own id, whether one of those is recorded after
      ids were given back twice, and the highest parameter number it meets. */
  datatype Effects = Effects(count: nat, shift: int, refs: Option<nat>, keeps: nat, late: bool, extern: nat)

  predicate Sound(s: Effects) {
    && s.shift <= s.keeps <= s.count && (s.count == 0 ==> s.shift == 0)
    && (s.late ==> 0 < s.keeps && s.shift < s.keeps)
  }

  type Sum = s: Effects | Sound(s) witness Effects(0, 0, Some(0), 0, false, 0)

  const NOTHING: Sum := Effects(0, 0, Some(0), 0, false, 0)
  const CONSTANT: Sum := Effects(1, 1, Some(1), 1, false, 0)

  function Max(a: int, b: int): int {
    if a < b then b else a
  }

  /** Ids are given back. */
  predicate Gives(s: Sum) {
    s.shift < s.count
  }

  /** Ids are given back that no longer belong to the constants that are renumbered. */
  predicate Doubled(s: Sum) {
    s.shift < s.keeps
  }

  /** One after the other: a constant comes late when it follows a doubled part. */
  function Then(s: Sum, t: Sum): Sum {
    Effects(s.count + t.count, s.shift + t.shift,
            if s.refs.Some? && t.refs.Some? then Some(s.refs.value + t.refs.value) else None,
            s.keeps + t.keeps, s.late || t.late || (Doubled(s) && t.keeps > 0), Max(s.extern, t.extern))
  }

  function Total(parts: seq<Sum>): Sum {
    if parts == [] then NOTHING else Then(Total(parts[..|parts| - 1]), parts[|parts| - 1])
  }

  /** A GROUP BY item whose constants take ids over: the counter goes back by their number. */
  function Taken(s: Sum): Sum {
    s.(shift := s.shift - s.count, keeps := 0, late := false)
  }

  // ----- the sum of a tree

  /** The text of a DefElem's argument, if its quote is found. */
  function QuoteSum(env: Env, arg: Node, start: Location): Sum {
    if arg.StringValue? && FindQuote(env, start).Some? then CONSTANT else NOTHING
  }

  ghost function SumOf(env: Env, n: Node): Sum
    decreases n, 2
  {
    match n
    case AConst(_, location) => if location >= 0 then CONSTANT else NOTHING
    case ParamRef(number) => Effects(0, 0, Some(1), 0, false, number)
    case DefElem(_, arg, start) => Then(QuoteSum(env, arg, start), SumOf(env, arg))
    case SortBy(_, key) => SumOf(env, key)
    case Wrapper(_, child) => SumOf(env, child)
    case Other(_, children) => Total(Sums(env, children))
    case Select(_, _, _, _, _, _, _) => Total(Parts(env, n))
    case _ => NOTHING
  }

  /** The parts of a SELECT in the order of the walk. */
  ghost function Parts(env: Env, n: Node): seq<Sum>
    requires n.Select?
    decreases n, 1, 1
  {
    Sums(env, n.before) + TargetSums(env, n.targets) + Sums(env, n.middle) + ItemSums(env, n) + SortSums(env, n.sort) + Sums(env, n.after)
  }

  ghost function Sums(env: Env, ns: seq<Node>): (r: seq<Sum>)
    ensures |r| == |ns| && forall i :: 0 <= i < |r| ==> r[i] == SumOf(env, ns[i])
    decreases ns, 3
  {
    seq(|ns|, i requires 0 <= i < |ns| => SumOf(env, ns[i]))
  }

  ghost function SortSums(env: Env, ns: seq<Node>): (r: seq<Sum>)
    ensures |r| == |ns| && forall i :: 0 <= i < |r| ==> r[i] == if SkipsSort(ns[i]) then NOTHING else SumOf(env, ns[i])
    decreases ns, 3
  {
    seq(|ns|, i requires 0 <= i < |ns| => if SkipsSort(ns[i]) then NOTHING else SumOf(env, ns[i]))
  }

  /** A target element, while it is walked. */
  ghost function TargetSum(env: Env, t: Target): Sum
    decreases t, 3
  {
    Then(SumOf(env, t.indirection), SumOf(env, t.value))
  }

  /** After a target element nothing is recorded any more. */
  ghost function TargetSums(env: Env, ts: seq<Target>): (r: seq<Sum>)
    ensures |r| == |ts| && forall i :: 0 <= i < |r| ==> r[i] == TargetSum(env, ts[i]).(refs := None)
    decreases ts, 4
  {
    seq<Sum>(|ts|, i requires 0 <= i < |ts| => TargetSum(env, ts[i]).(refs := None))
  }

  ghost function ItemSum(env: Env, x: Node, takes: bool): Sum
    decreases x, 3
  {
    if IsIntegerConst(x) then NOTHING else if takes then Taken(SumOf(env, x)) else SumOf(env, x)
  }

  ghost function ItemSums(env: Env, n: Node): (r: seq<Sum>)
    requires n.Select?
    ensures |r| == |n.group| && forall k :: 0 <= k < |r| ==> r[k] == ItemSum(env, n.group[k], Agrees(env, n, k))
    decreases n, 1, 0
  {
    seq(|n.group|, k requires 0 <= k < |n.group| => ItemSum(env, n.group[k], Agrees(env, n, k)))
  }

  /** The references remembered for a target element. */
  ghost function RefCount(env: Env, t: Target): nat
    decreases t, 4
  {
    var refs := TargetSum(env, t).refs;
    if refs.Some? then refs.value else 0
  }

  function TargetFps(env: Env, ts: seq<Target>): (r: seq<nat>)
    ensures |r| == |ts| && forall i :: 0 <= i < |r| ==> r[i] == env.fp(ts[i].value)
  {
    seq<nat>(|ts|, i requires 0 <= i < |ts| => env.fp(ts[i].value))
  }

  /** The k-th GROUP BY item takes the references of the element it is matched with: there
      are as many of them as the item has constants. */
  ghost predicate Agrees(env: Env, n: Node, k: nat)
    requires n.Select? && k < |n.group|
    decreases n, 0
  {
    var i := Match(env, TargetFps(env, n.targets), n.group, k);
    i < |n.targets| && RefCount(env, n.targets[i]) == SumOf(env, n.group[k]).count
  }

  /** Ids are given back somewhere in the tree. */
  ghost predicate GivesBack(env: Env, n: Node) {
    Gives(SumOf(env, n))
  }

  /** Somewhere in the tree a GROUP BY item takes references although its own walk gives
      ids back; see DoublesIff. */
  ghost predicate Doubles(env: Env, n: Node) {
    Doubled(SumOf(env, n))
  }

  /** Somewhere in the tree, in the order of the walk, a constant that keeps its own id
      comes after a doubled item; see LateIff. */
  ghost predicate Late(env: Env, n: Node) {
    SumOf(env, n).late
  }

  // ----- sums of lists

  lemma TotalSnoc(parts: seq<Sum>, s: Sum)
    ensures Total(parts + [s]) == Then(Total(parts), s)
  {
    assert (parts + [s])[..|parts|] == parts;
  }

  lemma TotalNext(parts: seq<Sum>, k: nat)
    requires k < |parts|
    ensures Total(parts[..k + 1]) == Then(Total(parts[..k]), parts[k])
  {
    assert parts[..k + 1] == parts[..k] + [parts[k]];
    TotalSnoc(parts[..k], parts[k]);
  }

  lemma ThenAssociates(s: Sum, t: Sum, u: Sum)
    ensures Then(Then(s, t), u) == Then(s, Then(t, u))
    ensures Then(s, NOTHING) == s && Total([]) == NOTHING
  {}

  lemma {:induction false} TotalConcat(a: seq<Sum>, b: seq<Sum>)
    ensures Total(a + b) == Then(Total(a), Total(b))
    decreases |b|
  {
    hide Total, Then, Sound;
    if b == [] {
      ThenAssociates(Total(a), NOTHING, NOTHING);
      assert a + b == a;
    } else {
      var front, last := b[..|b| - 1], b[|b| - 1];
      TotalConcat(a, front);
      ThenAssociates(Total(a), Total(front), last);
      TotalSnoc(a + front, last);
      TotalSnoc(front, last);
      assert b == front + [last] && a + b == (a + front) + [last];
    }
  }

  /** What can be told of a sum from its parts. */
  lemma {:induction false} TotalIff(parts: seq<Sum>)
    ensures Gives(Total(parts)) <==> exists s :: s in parts && Gives(s)
    ensures Doubled(Total(parts)) <==> exists s :: s in parts && Doubled(s)
    ensures Total(parts).refs.None? <==> exists s :: s in parts && s.refs.None?
    ensures Total(parts).keeps > 0 <==> exists s :: s in parts && s.keeps > 0
    ensures forall s :: s in parts ==> s.extern <= Total(parts).extern
  {
    if parts != [] {
      var n := |parts| - 1;
      TotalIff(parts[..n]);
      assert forall s :: s in parts <==> s in parts[..n] || s == parts[n];
    }
  }

  /** A part is late, or keeps a constant after a part that doubled. */
  lemma {:induction false} LateIff(parts: seq<Sum>)
    ensures Total(parts).late <==>
      exists j :: 0 <= j < |parts| && (parts[j].late || (parts[j].keeps > 0 && exists i :: 0 <= i < j && Doubled(parts[i])))
  {
    if parts != [] {
      var n := |parts| - 1;
      var front := parts[..n];
      LateIff(front);
      TotalIff(front);
      assert Total(parts).late <==> Total(front).late || parts[n].late || (Doubled(Total(front)) && parts[n].keeps > 0);
      hide Total, Then, Sound;
      assert forall i :: 0 <= i < n ==> front[i] == parts[i];
    }
  }

  // ----- the parts of a SELECT

  /** Every part is the sum of a child, of a target element, or of an item that takes
      references; or it is nothing. */
  lemma PartIs(env: Env, n: Node, s: Sum)
    requires n.Select? && s in Parts(env, n)
    ensures
      || s == NOTHING
      || (exists x :: x in Kids(n) && s == SumOf(env, x))
      || (exists i :: 0 <= i < |n.targets| && s == TargetSum(env, n.targets[i]).(refs := None))
      || (exists k :: 0 <= k < |n.group| && !IsIntegerConst(n.group[k]) && Agrees(env, n, k) && s == Taken(SumOf(env, n.group[k])))
  {
    hide SumOf, TargetSum, Agrees;
    InKids(n);
    if s in Sums(env, n.before) {
      var i :| 0 <= i < |n.before| && s == Sums(env, n.before)[i];
      assert n.before[i] in Kids(n);
    } else if s in TargetSums(env, n.targets) {
    } else if s in Sums(env, n.middle) {
      var i :| 0 <= i < |n.middle| && s == Sums(env, n.middle)[i];
      assert n.middle[i] in Kids(n);
    } else if s in ItemSums(env, n) {
      var k :| 0 <= k < |n.group| && s == ItemSums(env, n)[k];
      assert n.group[k] in Kids(n);
    } else if s in SortSums(env, n.sort) {
      var i :| 0 <= i < |n.sort| && s == SortSums(env, n.sort)[i];
      assert n.sort[i] in Kids(n);
    } else {
      var i :| 0 <= i < |n.after| && s == Sums(env, n.after)[i];
      assert n.after[i] in Kids(n);
    }
  }

  lemma InKids(n: Node)
    requires n.Select?
    ensures forall x :: x in n.before || x in n.middle || x in n.group || x in n.sort || x in n.after ==> x in Kids(n)
    ensures forall i :: 0 <= i < |n.targets| ==> n.targets[i].indirection in Kids(n) && n.targets[i].value in Kids(n)
  {
    forall i | 0 <= i < |n.targets| ensures n.targets[i].indirection in Kids(n) && n.targets[i].value in Kids(n) {
      assert Indirections(n.targets)[i] in Indirections(n.targets) && Values(n.targets)[i] in Values(n.targets);
    }
  }

  /** Every child that is walked shows in some part. */
  lemma KidShows(env: Env, n: Node, x: Node) returns (s: Sum)
    requires n.Select? && x in Kids(n) && !IsIntegerConst(x) && !SkipsSort(x)
    ensures s in Parts(env, n) && SumOf(env, x).extern <= s.extern
    ensures (SumOf(env, x).refs.None? ==> s.refs.None?) && (Doubles(env, x) ==> Doubled(s))
  {
    KidOf(n, x);
    hide Kids, SumOf, Agrees;
    if x in n.before {
      var i :| 0 <= i < |n.before| && n.before[i] == x;
      s := Sums(env, n.before)[i];
    } else if x in n.middle {
      var i :| 0 <= i < |n.middle| && n.middle[i] == x;
      s := Sums(env, n.middle)[i];
    } else if x in n.group {
      var k :| 0 <= k < |n.group| && n.group[k] == x;
      s := ItemSums(env, n)[k];
    } else if x in n.sort {
      var i :| 0 <= i < |n.sort| && n.sort[i] == x;
      s := SortSums(env, n.sort)[i];
    } else if x in n.after {
      var i :| 0 <= i < |n.after| && n.after[i] == x;
      s := Sums(env, n.after)[i];
    } else {
      var i :| 0 <= i < |n.targets| && (x == n.targets[i].indirection || x == n.targets[i].value);
      s := TargetSums(env, n.targets)[i];
    }
  }

  lemma SelectUnfolded(env: Env, n: Node)
    requires n.Select?
    ensures SumOf(env, n) == Total(Parts(env, n))
  {}

  lemma OtherUnfolded(env: Env, n: Node)
    requires n.Other?
    ensures SumOf(env, n) == Total(Sums(env, n.children))
    ensures forall x :: x in n.children ==> SumOf(env, x) in Sums(env, n.children)
  {
    forall x | x in n.children ensures SumOf(env, x) in Sums(env, n.children) {
      var i :| 0 <= i < |n.children| && n.children[i] == x;
      assert Sums(env, n.children)[i] == SumOf(env, x);
    }
  }

  /** A node has at least the effects of a child that is walked. */
  lemma KidCounts(env: Env, n: Node, x: Node)
    requires x in Kids(n) && (n.Select? ==> !IsIntegerConst(x) && !SkipsSort(x))
    ensures SumOf(env, x).extern <= SumOf(env, n).extern
    ensures SumOf(env, x).refs.None? ==> SumOf(env, n).refs.None?
    ensures Doubles(env, x) ==> Doubles(env, n)
  {
    hide SumOf, Total;
    if n.Select? {
      hide Kids;
      SelectKidCounts(env, n, x);
    } else if n.Other? {
      OtherKidCounts(env, n, x);
    } else {
      SingleKidCounts(env, n, x);
    }
  }

  lemma SelectKidCounts(env: Env, n: Node, x: Node)
    requires n.Select? && x in Kids(n) && !IsIntegerConst(x) && !SkipsSort(x)
    ensures SumOf(env, x).extern <= SumOf(env, n).extern
    ensures SumOf(env, x).refs.None? ==> SumOf(env, n).refs.None?
    ensures Doubles(env, x) ==> Doubles(env, n)
  {
    hide SumOf, Total, Parts, Kids;
    SelectUnfolded(env, n);
    TotalIff(Parts(env, n));
    var s := KidShows(env, n, x);
  }

  lemma SingleKidCounts(env: Env, n: Node, x: Node)
    requires (n.DefElem? && n.arg == x) || (n.SortBy? && n.key == x) || (n.Wrapper? && n.child == x)
    ensures SumOf(env, x).extern <= SumOf(env, n).extern
    ensures SumOf(env, x).refs.None? ==> SumOf(env, n).refs.None?
    ensures Doubles(env, x) ==> Doubles(env, n)
  {
    hide Total, FindQuote;
  }

  lemma OtherKidCounts(env: Env, n: Node, x: Node)
    requires n.Other? && x in n.children
    ensures SumOf(env, x).extern <= SumOf(env, n).extern
    ensures SumOf(env, x).refs.None? ==> SumOf(env, n).refs.None?
    ensures Doubles(env, x) ==> Doubles(env, n)
  {
    hide SumOf, Total, Sums;
    OtherUnfolded(env, n);
    TotalIff(Sums(env, n.children));
  }

  // ----- what sums tell of trees

  /** A SELECT with a target list switches recording off. */
  lemma {:induction false} SelectForgets(env: Env, n: Node)
    requires HasSelect(n)
    ensures SumOf(env, n).refs.None?
  {
    if n.Select? && n.targets != [] {
      hide SumOf, HasSelect, Agrees, Kids;
      var s := TargetSums(env, n.targets)[0];
      SelectUnfolded(env, n);
      TotalIff(Parts(env, n));
      assert s in Parts(env, n) && s.refs.None?;
    } else {
      var x :| x in Kids(n) && HasSelect(x);
      SelectForgets(env, x);
      if IsIntegerConst(x) || SkipsSort(x) { SkippedAreEmpty(x); }
      KidCounts(env, n, x);
    }
  }

  /** No parameter of the tree is overlooked. */
  lemma {:induction false} ParamsCovered(env: Env, n: Node, p: nat)
    requires p in Params(n)
    ensures p <= SumOf(env, n).extern
  {
    if !n.ParamRef? {
      var x :| x in Kids(n) && p in Params(x);
      ParamsCovered(env, x, p);
      if IsIntegerConst(x) || SkipsSort(x) { SkippedAreEmpty(x); }
      KidCounts(env, n, x);
    }
  }

  /** Doubling happens in a child, or at an item that takes references although its own
      walk gives ids back. */
  lemma DoublesIff(env: Env, n: Node)
    ensures Doubles(env, n) <==>
      || (exists x :: x in Kids(n) && Doubles(env, x))
      || (n.Select? && exists k :: 0 <= k < |n.group| && !IsIntegerConst(n.group[k]) && Agrees(env, n, k) && GivesBack(env, n.group[k]))
  {
    hide SumOf, Agrees, Parts, Kids, Total;
    if Doubles(env, n) && n.Select? {
      SelectUnfolded(env, n);
      TotalIff(Parts(env, n));
      var s :| s in Parts(env, n) && Doubled(s);
      PartIs(env, n, s);
      InKids(n);
    } else if Doubles(env, n) {
      PlainDoubles(env, n);
    }
    if x :| x in Kids(n) && Doubles(env, x) {
      if IsIntegerConst(x) || SkipsSort(x) { SkippedSums(env, x); }
      KidCounts(env, n, x);
    }
    if k :| n.Select? && 0 <= k < |n.group| && !IsIntegerConst(n.group[k]) && Agrees(env, n, k) && GivesBack(env, n.group[k]) {
      ItemShows(env, n, k);
      SelectUnfolded(env, n);
      TotalIff(Parts(env, n));
    }
  }

  lemma ItemShows(env: Env, n: Node, k: nat)
    requires n.Select? && k < |n.group| && !IsIntegerConst(n.group[k]) && Agrees(env, n, k)
    ensures Taken(SumOf(env, n.group[k])) in Parts(env, n)
  {
    hide SumOf, Agrees;
    assert ItemSums(env, n)[k] in ItemSums(env, n);
  }

  lemma SkippedSums(env: Env, x: Node)
    requires IsIntegerConst(x) || SkipsSort(x)
    ensures !GivesBack(env, x) && !Doubles(env, x)
  {
    if x.SortBy? { assert !Gives(SumOf(env, x.key)); }
  }

  lemma PlainDoubles(env: Env, n: Node)
    requires !n.Select? && Doubles(env, n)
    ensures exists x :: x in Kids(n) && Doubles(env, x)
  {
    match n {
      case DefElem(_, arg, _) => assert arg in Kids(n);
      case SortBy(_, key) => assert key in Kids(n);
      case Wrapper(_, child) => assert child in Kids(n);
      case Other(_, children) =>
        OtherUnfolded(env, n);
        SomeDoubled(env, children);
      case _ =>
    }
  }

  lemma SomeDoubled(env: Env, ns: seq<Node>)
    ensures Doubled(Total(Sums(env, ns))) ==> exists x :: x in ns && Doubles(env, x)
    ensures Gives(Total(Sums(env, ns))) ==> exists x :: x in ns && GivesBack(env, x)
  {
    hide SumOf, Total;
    TotalIff(Sums(env, ns));
    forall s | s in Sums(env, ns) ensures exists x :: x in ns && SumOf(env, x) == s {
      var i :| 0 <= i < |ns| && Sums(env, ns)[i] == s;
      assert ns[i] in ns;
    }
  }

  /** Only a SELECT with a target list gives ids back. */
  lemma {:induction false} BackNeedsSelect(env: Env, n: Node)
    requires GivesBack(env, n)
    ensures HasSelect(n)
    decreases n, 1
  {
    hide Total, Sums, Parts, FindQuote;
    match n {
      case DefElem(_, arg, _) => BackNeedsSelect(env, arg);
      case SortBy(_, key) => BackNeedsSelect(env, key);
      case Wrapper(_, child) => BackNeedsSelect(env, child);
      case Other(_, children) =>
        OtherUnfolded(env, n);
        SomeDoubled(env, children);
        hide SumOf;
        var x :| x in children && GivesBack(env, x);
        BackNeedsSelect(env, x);
      case Select(_, _, _, _, _, _, _) => SelectBackNeedsSelect(env, n);
      case _ =>
    }
  }

  lemma SelectBackNeedsSelect(env: Env, n: Node)
    requires n.Select? && GivesBack(env, n)
    ensures HasSelect(n)
    decreases n, 0
  {
    hide SumOf, Total, Parts, Kids, Match;
    SelectUnfolded(env, n);
    TotalIff(Parts(env, n));
    var s :| s in Parts(env, n) && Gives(s);
    PartIs(env, n, s);
    InKids(n);
    if n.targets == [] {
      var x :| x in Kids(n) && s == SumOf(env, x);
      BelowKid(n, x);
      BackNeedsSelect(env, x);
    }
  }

  lemma BelowKid(n: Node, x: Node)
    requires x in Kids(n)
    ensures x < n
  {}
}
