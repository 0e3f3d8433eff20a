/** Which trees get the same fingerprint: order, repetition and silent members of
    sorted lists, ignored nodes and whatever lies too deep do not matter, anywhere
    in the tree. */
module FingerprintSimilar {
  import opened Common
  import opened ParseTree
  import opened FingerprintWalk
  import opened FingerprintMeaning

  /** The walk feeds nothing here. */
  ghost predicate Quiet(v: Visit)
    decreases v.node, 1
  {
    match PlanOf(v)
    case Steps(steps) => forall k :: 0 <= k < |steps| ==> QuietStep(v, k)
    case Canonical(kids) => forall i :: 0 <= i < |kids| ==> Quiet(kids[i])
  }

  ghost predicate QuietStep(v: Visit, k: nat)
    requires PlanOf(v).Steps? && k < |PlanOf(v).steps|
    decreases v.node, 0
  {
    var step := PlanOf(v).steps[k];
    assert StepBelow(step, v);
    match step
    case Emit(tokens) => tokens == []
    case Plain(kid) => Quiet(kid)
    case Inlined(_, _) => false
    case Guarded(_, child) => Quiet(child)
  }

  ghost predicate Similar(a: Visit, b: Visit)
    decreases a.node, 1
  {
    || (Quiet(a) && Quiet(b))
    || match (PlanOf(a), PlanOf(b)) {
         case (Steps(s), Steps(t)) => |s| == |t| && forall k :: 0 <= k < |s| ==> SimilarStep(a, b, k)
         case (Canonical(x), Canonical(y)) =>
           && (forall i :: 0 <= i < |x| ==> Quiet(x[i]) || exists j :: 0 <= j < |y| && Similar(x[i], y[j]))
           && (forall j :: 0 <= j < |y| ==> Quiet(y[j]) || exists i :: 0 <= i < |x| && Similar(x[i], y[j]))
         case _ => false
       }
  }

  ghost predicate SimilarStep(a: Visit, b: Visit, k: nat)
    requires PlanOf(a).Steps? && k < |PlanOf(a).steps|
    requires PlanOf(b).Steps? && k < |PlanOf(b).steps|
    decreases a.node, 0
  {
    assert StepBelow(PlanOf(a).steps[k], a);
    || (QuietStep(a, k) && QuietStep(b, k))
    || match (PlanOf(a).steps[k], PlanOf(b).steps[k]) {
         case (Emit(s), Emit(t)) => Flatten(s) == Flatten(t)
         case (Plain(x), Plain(y)) => Similar(x, y)
         case (Inlined(m, x), Inlined(n, y)) => m == n && Similar(x, y)
         case (Guarded(m, x), Guarded(n, y)) => m == n && Similar(x, y)
         case _ => false
       }
  }

  // ----- similar visits mean the same

  lemma {:induction false} QuietMeansNothing(digest: string -> nat, v: Visit)
    requires Quiet(v)
    ensures Meaning(digest, v) == ""
    decreases v.node, 1, 0
  {
    match PlanOf(v) {
      case Steps(steps) => QuietStepsMeanNothing(digest, v, |steps|);
      case Canonical(kids) => QuietKids(digest, v, |kids|);
    }
  }

  lemma {:induction false} QuietKids(digest: string -> nat, v: Visit, k: nat)
    requires PlanOf(v).Canonical? && k <= |PlanOf(v).kids|
    requires forall i :: 0 <= i < k ==> Quiet(PlanOf(v).kids[i])
    ensures KidMeanings(digest, v, k) == {}
    decreases v.node, 0, k
  {
    if k > 0 {
      QuietKids(digest, v, k - 1);
      QuietMeansNothing(digest, PlanOf(v).kids[k - 1]);
    }
  }

  lemma {:induction false} QuietStepsMeanNothing(digest: string -> nat, v: Visit, k: nat)
    requires PlanOf(v).Steps? && k <= |PlanOf(v).steps|
    requires forall i :: 0 <= i < k ==> QuietStep(v, i)
    ensures StepsMeaning(digest, v, k) == ""
    decreases v.node, 0, k
  {
    hide PlanOf, QuietStep, StepMeaning;
    if k > 0 {
      QuietStepsMeanNothing(digest, v, k - 1);
      QuietStepMeansNothing(digest, v, k - 1);
    }
  }

  lemma QuietStepMeansNothing(digest: string -> nat, v: Visit, k: nat)
    requires PlanOf(v).Steps? && k < |PlanOf(v).steps| && QuietStep(v, k)
    ensures StepMeaning(digest, v, k) == ""
    decreases v.node, 0, k
  {
    var step := PlanOf(v).steps[k];
    assert StepBelow(step, v);
    match step {
      case Emit(_) =>
      case Plain(kid) => QuietMeansNothing(digest, kid);
      case Guarded(_, child) => QuietMeansNothing(digest, child);
    }
  }

  /** The congruence: similar visits feed the same text, whatever the digest. */
  lemma {:induction false} SimilarMeansSame(digest: string -> nat, a: Visit, b: Visit)
    requires Similar(a, b)
    ensures Meaning(digest, a) == Meaning(digest, b)
    decreases a.node, 1, 0
  {
    if Quiet(a) && Quiet(b) {
      QuietMeansNothing(digest, a);
      QuietMeansNothing(digest, b);
    } else {
      match (PlanOf(a), PlanOf(b)) {
        case (Steps(s), Steps(t)) => SimilarStepsMeanSame(digest, a, b, |s|);
        case (Canonical(x), Canonical(y)) =>
          forall t ensures t in KidMeanings(digest, a, |x|) <==> t in KidMeanings(digest, b, |y|) {
            if t in KidMeanings(digest, a, |x|) { ForthMember(digest, a, b, t); }
            if t in KidMeanings(digest, b, |y|) { BackMember(digest, a, b, t); }
          }
          assert KidMeanings(digest, a, |x|) == KidMeanings(digest, b, |y|);
      }
    }
  }

  lemma {:induction false} ForthMember(digest: string -> nat, a: Visit, b: Visit, t: string)
    requires PlanOf(a).Canonical? && PlanOf(b).Canonical? && Similar(a, b) && !(Quiet(a) && Quiet(b))
    requires t in KidMeanings(digest, a, |PlanOf(a).kids|)
    ensures t in KidMeanings(digest, b, |PlanOf(b).kids|)
    decreases a.node, 0, 0
  {
    var x, y := PlanOf(a).kids, PlanOf(b).kids;
    var i := KidMeaningsBelow(digest, a, |x|, t);
    if Quiet(x[i]) { QuietMeansNothing(digest, x[i]); }
    var j :| 0 <= j < |y| && Similar(x[i], y[j]);
    SimilarMeansSame(digest, x[i], y[j]);
    KidMeaningsHas(digest, b, |y|, j);
  }

  lemma {:induction false} BackMember(digest: string -> nat, a: Visit, b: Visit, t: string)
    requires PlanOf(a).Canonical? && PlanOf(b).Canonical? && Similar(a, b) && !(Quiet(a) && Quiet(b))
    requires t in KidMeanings(digest, b, |PlanOf(b).kids|)
    ensures t in KidMeanings(digest, a, |PlanOf(a).kids|)
    decreases a.node, 0, 0
  {
    var x, y := PlanOf(a).kids, PlanOf(b).kids;
    var j := KidMeaningsBelow(digest, b, |y|, t);
    if Quiet(y[j]) { QuietMeansNothing(digest, y[j]); }
    var i :| 0 <= i < |x| && Similar(x[i], y[j]);
    SimilarMeansSame(digest, x[i], y[j]);
    KidMeaningsHas(digest, a, |x|, i);
  }

  lemma {:induction false} SimilarStepsMeanSame(digest: string -> nat, a: Visit, b: Visit, k: nat)
    requires PlanOf(a).Steps? && k <= |PlanOf(a).steps|
    requires PlanOf(b).Steps? && k <= |PlanOf(b).steps|
    requires forall i :: 0 <= i < k ==> SimilarStep(a, b, i)
    ensures StepsMeaning(digest, a, k) == StepsMeaning(digest, b, k)
    decreases a.node, 0, k
  {
    hide PlanOf, SimilarStep, StepMeaning;
    if k > 0 {
      SimilarStepsMeanSame(digest, a, b, k - 1);
      SimilarStepMeansSame(digest, a, b, k - 1);
    }
  }

  lemma SimilarStepMeansSame(digest: string -> nat, a: Visit, b: Visit, k: nat)
    requires PlanOf(a).Steps? && k < |PlanOf(a).steps|
    requires PlanOf(b).Steps? && k < |PlanOf(b).steps|
    requires SimilarStep(a, b, k)
    ensures StepMeaning(digest, a, k) == StepMeaning(digest, b, k)
    decreases a.node, 0, k
  {
    assert StepBelow(PlanOf(a).steps[k], a);
    if QuietStep(a, k) && QuietStep(b, k) {
      QuietStepMeansNothing(digest, a, k);
      QuietStepMeansNothing(digest, b, k);
    } else {
      match (PlanOf(a).steps[k], PlanOf(b).steps[k]) {
        case (Emit(_), Emit(_)) =>
        case (Plain(x), Plain(y)) => SimilarMeansSame(digest, x, y);
        case (Inlined(_, x), Inlined(_, y)) => SimilarMeansSame(digest, x, y);
        case (Guarded(_, x), Guarded(_, y)) => SimilarMeansSame(digest, x, y);
      }
    }
  }

  /** Main result: two similar trees feed the same bytes and have the same
      fingerprint, provided neither walk meets a digest collision. */
  lemma SimilarTreesSameFingerprint(lib: Lib, s: Node, t: Node)
    requires Similar(Root(s), Root(t))
    requires !Walk(lib, Fresh(), Root(s)).collided && !Walk(lib, Fresh(), Root(t)).collided
    ensures Walk(lib, Fresh(), Root(s)).fed == Walk(lib, Fresh(), Root(t)).fed
    ensures Fingerprint(lib, s) == Fingerprint(lib, t)
  {
    WalkFeeds(lib, Fresh(), Root(s));
    WalkFeeds(lib, Fresh(), Root(t));
    SimilarMeansSame(lib.digest, Root(s), Root(t));
  }

  // ----- what is similar

  lemma {:induction false} SimilarRefl(v: Visit)
    ensures Similar(v, v)
    decreases v.node, 1
  {
    match PlanOf(v) {
      case Steps(steps) =>
        forall k | 0 <= k < |steps| ensures SimilarStep(v, v, k) {
          assert StepBelow(steps[k], v);
          match steps[k] {
            case Emit(_) =>
            case Plain(kid) => SimilarRefl(kid);
            case Inlined(_, child) => SimilarRefl(child);
            case Guarded(_, child) => SimilarRefl(child);
          }
        }
      case Canonical(kids) =>
        forall i | 0 <= i < |kids| ensures Similar(kids[i], kids[i]) {
          SimilarRefl(kids[i]);
        }
    }
  }

  lemma SortedListPlan(v: Visit)
    requires v.node.List? && IsSortedField(v.field) && !v.direct && v.depth < MAX_DEPTH
    ensures PlanOf(v) == Canonical(ItemVisits(v))
  {}

  lemma PlainListPlan(v: Visit)
    requires v.node.List? && !IsSortedField(v.field) && !v.direct && v.depth < MAX_DEPTH
    ensures PlanOf(v).Steps? && |PlanOf(v).steps| == |v.node.items|
    ensures forall i :: 0 <= i < |v.node.items| ==> PlanOf(v).steps[i] == Plain(ItemVisits(v)[i])
  {}

  lemma DirectPlan(v: Visit)
    requires v.node.Struct? && v.direct && v.node.tag !in SKIPPED_TAGS
    ensures PlanOf(v) == Steps(FieldSteps(v))
  {}

  lemma StructPlan(v: Visit)
    requires v.node.Struct? && !v.direct && v.depth < MAX_DEPTH
    requires v.node.tag !in SKIPPED_TAGS && !CastsConstant(v.node.tag, v.node.fields)
    ensures PlanOf(v) == Steps([Emit([v.node.tag])] + FieldSteps(v))
  {}

  lemma IgnoredPlan(v: Visit)
    requires v.node.Struct? && (v.node.tag in SKIPPED_TAGS || (!v.direct && v.depth >= MAX_DEPTH))
    ensures PlanOf(v) == Steps([])
  {}

  /** How similarity of sorted lists is shown: a partner for every member. */
  lemma MatchedListsSimilar(a: Visit, b: Visit, x: seq<Visit>, y: seq<Visit>, forth: seq<nat>, back: seq<nat>)
    requires PlanOf(a) == Canonical(x) && PlanOf(b) == Canonical(y) && |forth| == |x| && |back| == |y|
    requires forall i :: 0 <= i < |x| ==> forth[i] < |y| && Similar(x[i], y[forth[i]])
    requires forall j :: 0 <= j < |y| ==> back[j] < |x| && Similar(x[back[j]], y[j])
    ensures Similar(a, b)
  {
    hide PlanOf;
    forall i | 0 <= i < |x| ensures exists j :: 0 <= j < |y| && Similar(x[i], y[j]) {
      assert Similar(x[i], y[forth[i]]);
    }
    forall j | 0 <= j < |y| ensures exists i :: 0 <= i < |x| && Similar(x[i], y[j]) {
      assert Similar(x[back[j]], y[j]);
    }
  }

  ghost function IndexOf<T>(x: T, s: seq<T>): (i: nat)
    requires x in s
    ensures i < |s| && s[i] == x
  {
    var i :| 0 <= i < |s| && s[i] == x;
    i
  }

  lemma ItemVisitIn(v: Visit, w: Visit, i: nat)
    requires v.node.List? && w.node.List? && w == v.(node := w.node) && i < |v.node.items|
    requires v.node.items[i] in w.node.items
    ensures ItemVisits(v)[i] in ItemVisits(w)
  {}

  /** Lists of the same visits. */
  lemma {:induction false} SameVisitsSimilar(a: Visit, b: Visit, x: seq<Visit>, y: seq<Visit>)
    requires PlanOf(a) == Canonical(x) && PlanOf(b) == Canonical(y)
    requires (forall i :: 0 <= i < |x| ==> x[i] in y) && (forall j :: 0 <= j < |y| ==> y[j] in x)
    ensures Similar(a, b)
  {
    hide PlanOf;
    var forth := seq(|x|, i requires 0 <= i < |x| => IndexOf(x[i], y));
    var back := seq(|y|, j requires 0 <= j < |y| => IndexOf(y[j], x));
    forall i | 0 <= i < |x| ensures Similar(x[i], y[forth[i]]) {
      SimilarRefl(x[i]);
    }
    forall j | 0 <= j < |y| ensures Similar(x[back[j]], y[j]) {
      SimilarRefl(y[j]);
    }
    MatchedListsSimilar(a, b, x, y, forth, back);
  }

  /** Sorted lists with the same members are similar: reordering, repeating and
      dropping repetitions are all covered. */
  lemma {:induction false} SameMembersSimilar(v: Visit, id: nat, items: seq<Node>)
    requires v.node.List? && IsSortedField(v.field) && !v.direct
    requires forall n :: n in v.node.items <==> n in items
    ensures Similar(v, v.(node := List(id, items)))
  {
    hide PlanOf;
    hide Similar;
    var w := v.(node := List(id, items));
    if v.depth >= MAX_DEPTH {
      TooDeepSimilar(v, w.node);
    } else {
      SortedListPlan(v);
      SortedListPlan(w);
      forall i | 0 <= i < |ItemVisits(v)| ensures ItemVisits(v)[i] in ItemVisits(w) {
        ItemVisitIn(v, w, i);
      }
      forall i | 0 <= i < |ItemVisits(w)| ensures ItemVisits(w)[i] in ItemVisits(v) {
        ItemVisitIn(w, v, i);
      }
      SameVisitsSimilar(v, w, ItemVisits(v), ItemVisits(w));
    }
  }

  /** A permutation of a sorted list is similar to it. */
  lemma {:induction false} PermutedListSimilar(v: Visit, id: nat, items: seq<Node>)
    requires v.node.List? && IsSortedField(v.field) && !v.direct
    requires multiset(items) == multiset(v.node.items)
    ensures Similar(v, v.(node := List(id, items)))
  {
    assert forall n :: n in v.node.items <==> n in multiset(v.node.items);
    assert forall n :: n in items <==> n in multiset(items);
    SameMembersSimilar(v, id, items);
  }

  /** Nodes that feed nothing: constants, parameters, aliases and the other skipped
      types, and casts of constants unless their function is called directly. */
  predicate Silent(n: Node, direct: bool) {
    n.Struct? && (n.tag in SKIPPED_TAGS || (!direct && CastsConstant(n.tag, n.fields)))
  }

  lemma SilentQuiet(v: Visit)
    requires Silent(v.node, v.direct)
    ensures Quiet(v)
  {}

  /** Lists of silent members, such as IN lists of constants and casts of constants, are
      similar whatever their lengths. */
  lemma SilentListsSimilar(v: Visit, id: nat, items: seq<Node>)
    requires v.node.List? && IsSortedField(v.field) && !v.direct
    requires (forall n :: n in v.node.items ==> Silent(n, false)) && (forall n :: n in items ==> Silent(n, false))
    ensures Similar(v, v.(node := List(id, items)))
  {
    assert Quiet(v) by { SilentListQuiet(v); }
    assert Quiet(v.(node := List(id, items))) by { SilentListQuiet(v.(node := List(id, items))); }
  }

  lemma SilentListQuiet(v: Visit)
    requires v.node.List? && IsSortedField(v.field) && !v.direct
    requires forall n :: n in v.node.items ==> Silent(n, false)
    ensures Quiet(v)
  {
    if v.depth < MAX_DEPTH {
      forall i | 0 <= i < |PlanOf(v).kids| ensures Quiet(PlanOf(v).kids[i]) {
        assert v.node.items[i] in v.node.items;
        SilentQuiet(PlanOf(v).kids[i]);
      }
    }
  }

  /** Whatever hangs at depth 100 or below is ignored. */
  lemma TooDeepSimilar(v: Visit, other: Node)
    requires !v.direct && v.depth >= MAX_DEPTH
    ensures Similar(v, v.(node := other))
  {}

  /** A step that feeds nothing. */
  ghost predicate Hushed(s: Step) {
    (s.Emit? && s.tokens == []) || (s.Guarded? && Quiet(s.child))
  }

  /** Two steps that make similar walks similar. */
  ghost predicate MatchedSteps(s: Step, t: Step) {
    || s == t
    || (Hushed(s) && Hushed(t))
    || (s.Guarded? && t.Guarded? && s.name == t.name && Similar(s.child, t.child))
    || (s.Inlined? && t.Inlined? && s.name == t.name && Similar(s.child, t.child))
  }

  lemma {:induction false} MatchedPlansSimilar(a: Visit, b: Visit, s: seq<Step>, t: seq<Step>)
    requires PlanOf(a) == Steps(s) && PlanOf(b) == Steps(t) && |s| == |t|
    requires forall k :: 0 <= k < |s| ==> MatchedSteps(s[k], t[k])
    ensures Similar(a, b)
  {
    hide PlanOf;
    forall k | 0 <= k < |s| ensures SimilarStep(a, b, k) {
      assert MatchedSteps(s[k], t[k]);
      if s[k] == t[k] { SameStepSimilar(a, b, k); }
    }
  }

  /** Similarity is a congruence. Replacing what hangs on one field of a struct by something
      similar, or setting or dropping something that feeds nothing, ... */
  lemma {:induction false} FieldCongruence(v: Visit, k: nat, target: Node)
    requires v.node.Struct? && k < |v.node.fields| && v.node.fields[k].value.Pointer?
    requires CastsConstant(v.node.tag, v.node.fields) <==> CastsConstant(v.node.tag, WithTarget(v.node, k, target).fields)
    requires MatchedSteps(FieldStep(v, k), FieldStep(v.(node := WithTarget(v.node, k, target)), k))
    ensures Similar(v, v.(node := WithTarget(v.node, k, target)))
  {
    hide PlanOf, FieldStep, MatchedSteps;
    var w := v.(node := WithTarget(v.node, k, target));
    if v.node.tag in SKIPPED_TAGS || (!v.direct && v.depth >= MAX_DEPTH) {
      IgnoredPlan(v);
      IgnoredPlan(w);
    } else if !v.direct && CastsConstant(v.node.tag, v.node.fields) {
      SilentQuiet(v);
      SilentQuiet(w);
    } else {
      var f, g := FieldSteps(v), FieldSteps(w);
      forall i | 0 <= i < |f| ensures MatchedSteps(f[i], g[i]) {
        if i != k {
          OtherFieldsUntouched(v, k, target, i);
          SameStepsMatch(f[i]);
        }
      }
      if v.direct {
        DirectPlan(v);
        DirectPlan(w);
        MatchedPlansSimilar(v, w, f, g);
      } else {
        StructPlan(v);
        StructPlan(w);
        SameStepsMatch(Emit([v.node.tag]));
        MatchedPlansSimilar(v, w, [Emit([v.node.tag])] + f, [Emit([v.node.tag])] + g);
      }
    }
  }

  lemma SameStepsMatch(s: Step)
    ensures MatchedSteps(s, s)
  {}

  lemma OtherFieldsUntouched(v: Visit, k: nat, target: Node, i: nat)
    requires v.node.Struct? && k < |v.node.fields| && v.node.fields[k].value.Pointer?
    requires i < |v.node.fields| && i != k
    ensures FieldStep(v.(node := WithTarget(v.node, k, target)), i) == FieldStep(v, i)
  {
    var w := v.(node := WithTarget(v.node, k, target));
    LookupIgnoresPointer(v.node.fields, w.node.fields, k, "relpersistence");
    ScalarTokensLocal(v, w, v.node.fields[i]);
  }

  lemma ScalarTokensLocal(v: Visit, w: Visit, f: Field)
    requires v.node.Struct? && w.node.Struct? && w == v.(node := w.node) && w.node.tag == v.node.tag
    requires Lookup(v.node.fields, "relpersistence") == Some(Chr('t')) <==> Lookup(w.node.fields, "relpersistence") == Some(Chr('t'))
    ensures ScalarTokens(v, f) == ScalarTokens(w, f)
  {}

  function WithTarget(n: Node, k: nat, target: Node): Node
    requires n.Struct? && k < |n.fields| && n.fields[k].value.Pointer?
  {
    var f := n.fields[k];
    n.(fields := n.fields[k := f.(value := f.value.(target := target))])
  }

  lemma SameStepSimilar(a: Visit, b: Visit, k: nat)
    requires PlanOf(a).Steps? && k < |PlanOf(a).steps|
    requires PlanOf(b).Steps? && k < |PlanOf(b).steps|
    requires PlanOf(a).steps[k] == PlanOf(b).steps[k]
    ensures SimilarStep(a, b, k)
  {
    match PlanOf(a).steps[k] {
      case Emit(_) =>
      case Plain(kid) => SimilarRefl(kid);
      case Inlined(_, child) => SimilarRefl(child);
      case Guarded(_, child) => SimilarRefl(child);
    }
  }

  lemma {:induction false} LookupIgnoresPointer(f: seq<Field>, g: seq<Field>, k: nat, name: string)
    requires |f| == |g| && k < |f| && f[k].name == g[k].name && f[k].value.Pointer? && g[k].value.Pointer?
    requires forall i :: 0 <= i < |f| && i != k ==> f[i] == g[i]
    ensures Lookup(f, name) == Lookup(g, name) ||
      (Lookup(f, name).Some? && Lookup(f, name).value.Pointer? && Lookup(g, name).Some? && Lookup(g, name).value.Pointer?)
  {
    if k == 0 {
      assert f[1..] == g[1..];
    } else {
      LookupIgnoresPointer(f[1..], g[1..], k - 1, name);
    }
  }

  /** ... or one item of a list, keeps similarity. */
  lemma ItemCongruence(v: Visit, k: nat, item: Node)
    requires v.node.List? && !v.direct && k < |v.node.items|
    requires Similar(ItemVisits(v)[k], ItemVisits(v)[k].(node := item))
    ensures Similar(v, v.(node := v.node.(items := v.node.items[k := item])))
  {
    hide PlanOf;
    var w := v.(node := v.node.(items := v.node.items[k := item]));
    if v.depth >= MAX_DEPTH {
      TooDeepSimilar(v, w.node);
    } else {
      forall i | 0 <= i < |v.node.items| ensures Similar(ItemVisits(v)[i], ItemVisits(w)[i]) {
        if i != k { SimilarRefl(ItemVisits(v)[i]); }
      }
      if IsSortedField(v.field) {
        SortedListPlan(v);
        SortedListPlan(w);
      } else {
        PlainListPlan(v);
        PlainListPlan(w);
        PairedStepsSimilar(v, w);
      }
    }
  }

  lemma PairedStepsSimilar(a: Visit, b: Visit)
    requires PlanOf(a).Steps? && PlanOf(b).Steps? && |PlanOf(a).steps| == |PlanOf(b).steps|
    requires forall i :: 0 <= i < |PlanOf(a).steps| ==>
      && PlanOf(a).steps[i].Plain? && PlanOf(b).steps[i].Plain?
      && Similar(PlanOf(a).steps[i].kid, PlanOf(b).steps[i].kid)
    ensures Similar(a, b)
  {}

  // ----- trees that are alike

  /** A scalar as its template uses it: digit runs of a relation name and the spelling of
      IN and = ANY are gone. */
  function Shown(tag: Name, f: Field): Value {
    match f.value
    case Str(Some(s)) => if tag == "RangeVar" && f.name == "relname" then Str(Some(StripDigitRuns(s))) else f.value
    case Enum(c) => if tag == "A_Expr" && f.name == "kind" && c in {"AEXPR_OP_ANY", "AEXPR_IN"} then Enum("AEXPR_OP") else f.value
    case _ => f.value
  }

  /** Nodes of which the fingerprint sees nothing where they stand: silent ones, NULL, zero,
      lists of such nodes, and whatever lies too deep. */
  predicate Mute(n: Node, depth: nat, direct: bool) {
    if direct then !n.Struct? || n.tag in SKIPPED_TAGS
    else if depth >= MAX_DEPTH then true
    else match n
      case Null => true
      case List(_, items) => forall i :: 0 <= i < |items| ==> Mute(items[i], depth + 1, false)
      case Integer(i) => i == 0
      case Float(s) => s.None?
      case String(_) => false
      case BitString(s) => s.None?
      case Struct(_, _) => Silent(n, false)
  }

  lemma {:induction false} MuteQuiet(v: Visit)
    requires Mute(v.node, v.depth, v.direct)
    ensures Quiet(v)
    decreases v.node
  {
    if v.node.List? && !v.direct && v.depth < MAX_DEPTH {
      forall i | 0 <= i < |v.node.items| ensures Quiet(ItemVisits(v)[i]) {
        MuteQuiet(ItemVisits(v)[i]);
      }
      MuteListQuiet(v);
    }
  }

  lemma MuteListQuiet(v: Visit)
    requires v.node.List? && !v.direct && v.depth < MAX_DEPTH
    requires forall i :: 0 <= i < |v.node.items| ==> Quiet(ItemVisits(v)[i])
    ensures Quiet(v)
  {
    hide PlanOf;
    if IsSortedField(v.field) { SortedListPlan(v); } else { PlainListPlan(v); }
  }

  /** A pointer of which the fingerprint sees nothing. */
  predicate MutePointer(kind: PointerKind, target: Node, depth: nat) {
    !PointerIsSet(kind, target) || Mute(target, depth, kind == SpecificPtr)
  }

  /** Trees that differ only in what the fingerprint is to ignore, anywhere in them:
      order and repetition in sorted lists, mute nodes, whether they are there or not,
      ignored fields, digit runs of relation names, and everything from depth 100 on. */
  ghost predicate Alike(a: Node, b: Node, field: Option<Name>, depth: nat, direct: bool)
    decreases a, 1
  {
    || a == b
    || (Mute(a, depth, direct) && Mute(b, depth, direct))
    || (a.List? && b.List? && !direct && AlikeItems(a.items, b.items, field, depth + 1))
    || (a.Struct? && b.Struct? && a.tag == b.tag && AlikeFields(a.tag, a.fields, b.fields, depth)
        && (CastsConstant(a.tag, a.fields) <==> CastsConstant(b.tag, b.fields)))
  }

  ghost predicate AlikeItems(x: seq<Node>, y: seq<Node>, field: Option<Name>, depth: nat)
    decreases x, 1
  {
    if IsSortedField(field) then
      && (forall i :: 0 <= i < |x| ==> AlikeToOne(x[i], y, field, depth))
      && (forall j :: 0 <= j < |y| ==> OneAlikeTo(x, y[j], field, depth))
    else
      |x| == |y| && forall i :: 0 <= i < |x| ==> Alike(x[i], y[i], field, depth, false)
  }

  ghost predicate AlikeToOne(n: Node, y: seq<Node>, field: Option<Name>, depth: nat)
    decreases n, 2
  {
    Mute(n, depth, false) || exists j :: 0 <= j < |y| && Alike(n, y[j], field, depth, false)
  }

  ghost predicate OneAlikeTo(x: seq<Node>, n: Node, field: Option<Name>, depth: nat)
    decreases x, 0
  {
    Mute(n, depth, false) || exists i :: 0 <= i < |x| && Alike(x[i], n, field, depth, false)
  }

  ghost predicate AlikeFields(tag: Name, f: seq<Field>, g: seq<Field>, depth: nat)
    decreases f, 0
  {
    |f| == |g| && forall k :: 0 <= k < |f| ==> AlikeField(tag, f[k], g[k], depth)
  }

  ghost predicate AlikeField(tag: Name, f: Field, g: Field, depth: nat)
    decreases f, 2
  {
    f.name == g.name &&
    (|| IsSkippedField(tag, f.name)
     || match (f.value, g.value) {
          case (Pointer(kind, x), Pointer(kind', y)) =>
            assert x < f.value && f.value < f;
            || (MutePointer(kind, x, depth + 1) && MutePointer(kind', y, depth + 1))
            || (kind == kind' && PointerIsSet(kind, x) && PointerIsSet(kind, y)
                && Alike(x, y, Some(f.name), depth + 1, kind == SpecificPtr))
          case (Embedded(x), Embedded(y)) =>
            assert x < f.value && f.value < f;
            Alike(x, y, Some(f.name), depth, true)
          case _ => Shown(tag, f) == Shown(tag, g)
        })
  }

  lemma AlikeRefl(n: Node, field: Option<Name>, depth: nat)
    ensures Alike(n, n, field, depth, false)
  {}

  /** Reordering, repeating and dropping repetitions in a sorted list. */
  lemma SameMembersAlike(x: seq<Node>, y: seq<Node>, field: Option<Name>, depth: nat)
    requires IsSortedField(field) && forall n :: n in x <==> n in y
    ensures AlikeItems(x, y, field, depth)
  {
    hide Alike;
    forall i | 0 <= i < |x| ensures AlikeToOne(x[i], y, field, depth) {
      AlikeRefl(x[i], field, depth);
      assert x[i] in y;
    }
    forall j | 0 <= j < |y| ensures OneAlikeTo(x, y[j], field, depth) {
      AlikeRefl(y[j], field, depth);
      assert y[j] in x;
    }
  }

  /** Adding a mute member to a sorted list, such as a constant or a cast of one. */
  lemma MuteMemberAlike(x: seq<Node>, n: Node, field: Option<Name>, depth: nat)
    requires IsSortedField(field) && Mute(n, depth, false)
    ensures AlikeItems(x, x + [n], field, depth)
  {
    hide Alike, Mute;
    var y := x + [n];
    forall i | 0 <= i < |x| ensures AlikeToOne(x[i], y, field, depth) {
      AlikeRefl(x[i], field, depth);
      assert y[i] == x[i];
    }
    forall j | 0 <= j < |y| ensures OneAlikeTo(x, y[j], field, depth) {
      if j < |x| { AlikeRefl(x[j], field, depth); }
    }
  }

  /** Setting, changing or dropping a field of which the fingerprint sees nothing, such as
      an alias. */
  lemma MuteFieldAlike(n: Node, k: nat, target: Node, field: Option<Name>, depth: nat, direct: bool)
    requires n.Struct? && k < |n.fields| && n.fields[k].value.Pointer?
    requires MutePointer(n.fields[k].value.kind, n.fields[k].value.target, depth + 1)
    requires MutePointer(n.fields[k].value.kind, target, depth + 1)
    requires CastsConstant(n.tag, n.fields) <==> CastsConstant(n.tag, WithTarget(n, k, target).fields)
    ensures Alike(n, WithTarget(n, k, target), field, depth, direct)
  {
    hide Mute, Lookup, CastsConstant, Silent;
    var m := WithTarget(n, k, target);
    forall i | 0 <= i < |n.fields| ensures AlikeField(n.tag, n.fields[i], m.fields[i], depth) {
      SameFieldAlike(n.tag, n.fields[i], depth);
    }
  }

  lemma SameFieldAlike(tag: Name, f: Field, depth: nat)
    ensures AlikeField(tag, f, f, depth)
  {
    hide Mute;
  }

  /** Alike trees are walked similarly, wherever they stand. */
  lemma {:induction false} AlikeSimilar(v: Visit, w: Visit)
    requires w == v.(node := w.node) && Alike(v.node, w.node, v.field, v.depth, v.direct)
    ensures Similar(v, w)
    decreases v.node, 1
  {
    hide PlanOf, Similar, Quiet, AlikeItems, AlikeFields, CastsConstant;
    if v.node == w.node {
      SimilarRefl(v);
    } else if Mute(v.node, v.depth, v.direct) && Mute(w.node, v.depth, v.direct) {
      MuteQuiet(v);
      MuteQuiet(w);
      QuietSimilar(v, w);
    } else if v.node.List? {
      AlikeListsSimilar(v, w);
    } else {
      AlikeStructsSimilar(v, w);
    }
  }

  lemma QuietSimilar(v: Visit, w: Visit)
    requires Quiet(v) && Quiet(w)
    ensures Similar(v, w)
  {}

  lemma AlikeListsSimilar(v: Visit, w: Visit)
    requires w == v.(node := w.node) && v.node.List? && w.node.List? && !v.direct && v.depth < MAX_DEPTH
    requires AlikeItems(v.node.items, w.node.items, v.field, v.depth + 1)
    ensures Similar(v, w)
    decreases v.node, 0, 1
  {
    hide PlanOf, Similar, Alike;
    var x, y := ItemVisits(v), ItemVisits(w);
    if IsSortedField(v.field) {
      forall i | 0 <= i < |x| ensures Quiet(x[i]) || exists j :: 0 <= j < |y| && Similar(x[i], y[j]) {
        ForthAlike(v, w, i);
      }
      forall j | 0 <= j < |y| ensures Quiet(y[j]) || exists i :: 0 <= i < |x| && Similar(x[i], y[j]) {
        BackAlike(v, w, j);
      }
      SortedListPlan(v);
      SortedListPlan(w);
      PartnersSimilar(v, w, x, y);
    } else {
      PlainAlike(v, w);
    }
  }

  lemma PlainAlike(v: Visit, w: Visit)
    requires w == v.(node := w.node) && v.node.List? && w.node.List? && !v.direct && v.depth < MAX_DEPTH
    requires !IsSortedField(v.field) && AlikeItems(v.node.items, w.node.items, v.field, v.depth + 1)
    ensures Similar(v, w)
    decreases v.node, 0, 0
  {
    hide PlanOf, Similar, Alike, AlikeItems;
    PairedItems(v.node.items, w.node.items, v.field, v.depth + 1);
    PlainListPlan(v);
    PlainListPlan(w);
    forall i | 0 <= i < |v.node.items| ensures Similar(ItemVisits(v)[i], ItemVisits(w)[i]) {
      AlikeSimilar(ItemVisits(v)[i], ItemVisits(w)[i]);
    }
    PairedStepsSimilar(v, w);
  }

  lemma PairedItems(x: seq<Node>, y: seq<Node>, field: Option<Name>, depth: nat)
    requires !IsSortedField(field) && AlikeItems(x, y, field, depth)
    ensures |x| == |y| && forall i :: 0 <= i < |x| ==> Alike(x[i], y[i], field, depth, false)
  {
    hide Alike;
  }

  lemma ForthAlike(v: Visit, w: Visit, i: nat)
    requires w == v.(node := w.node) && v.node.List? && w.node.List? && i < |v.node.items|
    requires AlikeToOne(v.node.items[i], w.node.items, v.field, v.depth + 1)
    ensures Quiet(ItemVisits(v)[i]) || exists j :: 0 <= j < |w.node.items| && Similar(ItemVisits(v)[i], ItemVisits(w)[j])
    decreases v.node, 0, 0
  {
    hide PlanOf, Similar, Alike, Mute, Quiet;
    if Mute(v.node.items[i], v.depth + 1, false) {
      MuteQuiet(ItemVisits(v)[i]);
      return;
    }
    var j :| 0 <= j < |w.node.items| && Alike(v.node.items[i], w.node.items[j], v.field, v.depth + 1, false);
    AlikeSimilar(ItemVisits(v)[i], ItemVisits(w)[j]);
  }

  lemma BackAlike(v: Visit, w: Visit, j: nat)
    requires w == v.(node := w.node) && v.node.List? && w.node.List? && j < |w.node.items|
    requires OneAlikeTo(v.node.items, w.node.items[j], v.field, v.depth + 1)
    ensures Quiet(ItemVisits(w)[j]) || exists i :: 0 <= i < |v.node.items| && Similar(ItemVisits(v)[i], ItemVisits(w)[j])
    decreases v.node, 0, 0
  {
    hide PlanOf, Similar, Alike, Mute, Quiet;
    if Mute(w.node.items[j], w.depth + 1, false) {
      MuteQuiet(ItemVisits(w)[j]);
      return;
    }
    var i :| 0 <= i < |v.node.items| && Alike(v.node.items[i], w.node.items[j], v.field, v.depth + 1, false);
    AlikeSimilar(ItemVisits(v)[i], ItemVisits(w)[j]);
  }

  lemma PartnersSimilar(a: Visit, b: Visit, x: seq<Visit>, y: seq<Visit>)
    requires PlanOf(a) == Canonical(x) && PlanOf(b) == Canonical(y)
    requires forall i :: 0 <= i < |x| ==> Quiet(x[i]) || exists j :: 0 <= j < |y| && Similar(x[i], y[j])
    requires forall j :: 0 <= j < |y| ==> Quiet(y[j]) || exists i :: 0 <= i < |x| && Similar(x[i], y[j])
    ensures Similar(a, b)
  {
    hide PlanOf;
  }

  lemma AlikeStructsSimilar(v: Visit, w: Visit)
    requires w == v.(node := w.node) && v.node.Struct? && w.node.Struct? && v.node.tag == w.node.tag
    requires AlikeFields(v.node.tag, v.node.fields, w.node.fields, v.depth)
    requires CastsConstant(v.node.tag, v.node.fields) <==> CastsConstant(w.node.tag, w.node.fields)
    requires !Silent(v.node, v.direct) && (v.direct || v.depth < MAX_DEPTH)
    ensures Similar(v, w)
    decreases v.node, 0
  {
    hide PlanOf, Similar, Alike, FieldSteps;
    var f, g := FieldSteps(v), FieldSteps(w);
    forall k | 0 <= k < |f| ensures MatchedSteps(f[k], g[k]) {
      AlikeFieldSteps(v, w, k);
    }
    if v.direct {
      DirectPlan(v);
      DirectPlan(w);
      MatchedPlansSimilar(v, w, f, g);
    } else {
      StructPlan(v);
      StructPlan(w);
      MatchedPlansSimilar(v, w, [Emit([v.node.tag])] + f, [Emit([v.node.tag])] + g);
    }
  }

  lemma AlikeFieldSteps(v: Visit, w: Visit, k: nat)
    requires w == v.(node := w.node) && v.node.Struct? && w.node.Struct? && v.node.tag == w.node.tag
    requires AlikeFields(v.node.tag, v.node.fields, w.node.fields, v.depth) && k < |v.node.fields|
    ensures k < |w.node.fields| && MatchedSteps(FieldStep(v, k), FieldStep(w, k))
    decreases v.node, 0, 1
  {
    hide PlanOf, Similar, Alike, ScalarTokens, Flatten, Lookup, AlikeFields;
    AlikeFieldAt(v.node.tag, v.node.fields, w.node.fields, v.depth, k);
    var f, g := v.node.fields[k], w.node.fields[k];
    if !IsSkippedField(v.node.tag, f.name) && f.value.Pointer? && g.value.Pointer? {
      AlikePointers(v, w, k);
    } else if !IsSkippedField(v.node.tag, f.name) && f.value.Embedded? && g.value.Embedded? {
      AlikeSimilar(FieldStep(v, k).child, FieldStep(w, k).child);
    } else {
      AlikeTokens(v, w, k);
    }
  }

  lemma AlikePointers(v: Visit, w: Visit, k: nat)
    requires w == v.(node := w.node) && v.node.Struct? && w.node.Struct? && v.node.tag == w.node.tag
    requires k < |v.node.fields| && k < |w.node.fields| && AlikeField(v.node.tag, v.node.fields[k], w.node.fields[k], v.depth)
    requires !IsSkippedField(v.node.tag, v.node.fields[k].name)
    requires v.node.fields[k].value.Pointer? && w.node.fields[k].value.Pointer?
    ensures MatchedSteps(FieldStep(v, k), FieldStep(w, k))
    decreases v.node, 0, 0
  {
    hide PlanOf, Similar, Alike, Mute, ScalarTokens, Quiet;
    var x, y := v.node.fields[k].value, w.node.fields[k].value;
    if MutePointer(x.kind, x.target, v.depth + 1) && MutePointer(y.kind, y.target, v.depth + 1) {
      MutePointerHushed(v, k);
      MutePointerHushed(w, k);
    } else {
      AlikeSimilar(FieldStep(v, k).child, FieldStep(w, k).child);
    }
  }

  lemma MutePointerHushed(v: Visit, k: nat)
    requires v.node.Struct? && k < |v.node.fields| && v.node.fields[k].value.Pointer?
    requires !IsSkippedField(v.node.tag, v.node.fields[k].name)
    requires MutePointer(v.node.fields[k].value.kind, v.node.fields[k].value.target, v.depth + 1)
    ensures Hushed(FieldStep(v, k))
  {
    hide PlanOf, Mute, Quiet;
    if PointerIsSet(v.node.fields[k].value.kind, v.node.fields[k].value.target) { MuteQuiet(FieldStep(v, k).child); }
  }

  lemma AlikeFieldAt(tag: Name, f: seq<Field>, g: seq<Field>, depth: nat, k: nat)
    requires AlikeFields(tag, f, g, depth) && k < |f|
    ensures |f| == |g| && AlikeField(tag, f[k], g[k], depth)
  {}

  /** Scalars that are shown alike feed the same strings. */
  lemma AlikeTokens(v: Visit, w: Visit, k: nat)
    requires w == v.(node := w.node) && v.node.Struct? && w.node.Struct? && v.node.tag == w.node.tag
    requires AlikeFields(v.node.tag, v.node.fields, w.node.fields, v.depth) && k < |v.node.fields|
    ensures k < |w.node.fields| && ScalarTokens(v, v.node.fields[k]) == ScalarTokens(w, w.node.fields[k])
  {
    hide Alike, Lookup, AlikeFields, StripDigitRuns;
    AlikeFieldAt(v.node.tag, v.node.fields, w.node.fields, v.depth, k);
    if v.node.tag == "RangeVar" {
      AlikeLookup(v.node.fields, w.node.fields, v.depth);
    }
  }

  /** A relation's persistence is one of the fields that must agree. */
  lemma {:induction false} AlikeLookup(f: seq<Field>, g: seq<Field>, depth: nat)
    requires AlikeFields("RangeVar", f, g, depth)
    ensures Lookup(f, "relpersistence") == Some(Chr('t')) <==> Lookup(g, "relpersistence") == Some(Chr('t'))
  {
    hide Alike, AlikeField, Shown;
    if f != [] {
      AlikeFieldAt("RangeVar", f, g, depth, 0);
      if f[0].name == "relpersistence" {
        AlikePersistence(f[0], g[0], depth);
      }
      AlikeLookup(f[1..], g[1..], depth);
    }
  }

  lemma AlikePersistence(f: Field, g: Field, depth: nat)
    requires AlikeField("RangeVar", f, g, depth) && f.name == "relpersistence"
    ensures f.value == Chr('t') <==> g.value == Chr('t')
  {
    hide Alike, StripDigitRuns;
  }

  /** Main result on trees: alike trees feed the same bytes and have the same fingerprint,
      provided neither walk meets a digest collision. */
  lemma AlikeTreesSameFingerprint(lib: Lib, s: Node, t: Node)
    requires Alike(s, t, None, 0, false)
    requires !Walk(lib, Fresh(), Root(s)).collided && !Walk(lib, Fresh(), Root(t)).collided
    ensures Walk(lib, Fresh(), Root(s)).fed == Walk(lib, Fresh(), Root(t)).fed
    ensures Fingerprint(lib, s) == Fingerprint(lib, t)
  {
    AlikeSimilar(Root(s), Root(t));
    SimilarTreesSameFingerprint(lib, s, t);
  }

  /** The same for a chain of trees, each alike to the next; only the walks of the two
      ends must not meet a collision. */
  lemma {:induction false} AlikeChainMeansSame(digest: string -> nat, trees: seq<Node>)
    requires trees != [] && forall i :: 0 <= i < |trees| - 1 ==> Alike(trees[i], trees[i + 1], None, 0, false)
    ensures Meaning(digest, Root(trees[0])) == Meaning(digest, Root(trees[|trees| - 1]))
  {
    hide Alike, Meaning;
    if |trees| > 1 {
      assert Alike(trees[0], trees[0 + 1], None, 0, false);
      AlikeSimilar(Root(trees[0]), Root(trees[1]));
      SimilarMeansSame(digest, Root(trees[0]), Root(trees[1]));
      AlikeChainMeansSame(digest, trees[1..]);
    }
  }

  lemma AlikeChainSameFingerprint(lib: Lib, trees: seq<Node>)
    requires trees != [] && forall i :: 0 <= i < |trees| - 1 ==> Alike(trees[i], trees[i + 1], None, 0, false)
    requires !Walk(lib, Fresh(), Root(trees[0])).collided && !Walk(lib, Fresh(), Root(trees[|trees| - 1])).collided
    ensures Fingerprint(lib, trees[0]) == Fingerprint(lib, trees[|trees| - 1])
  {
    hide Alike, Meaning, Walk;
    AlikeChainMeansSame(lib.digest, trees);
    WalkFeeds(lib, Fresh(), Root(trees[0]));
    WalkFeeds(lib, Fresh(), Root(trees[|trees| - 1]));
  }
}
