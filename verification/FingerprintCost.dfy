/** The shape of a walk: the visits inside a visit, the sorted lists it meets and
    how many calls of the node function it costs, with and without a cache. */
module FingerprintCost {
  import opened Common
  import opened ParseTree
  import opened FingerprintWalk

  function Arity(v: Visit): nat {
    match PlanOf(v)
    case Steps(steps) => |steps|
    case Canonical(kids) => |kids|
  }

  /** The visit made by the k-th step, if that step makes one. */
  function Kid(v: Visit, k: nat): (kid: Option<Visit>)
    requires k < Arity(v)
    ensures kid.Some? ==> kid.value.node < v.node
  {
    match PlanOf(v)
    case Canonical(kids) => Some(kids[k])
    case Steps(steps) =>
      assert StepBelow(steps[k], v);
      match steps[k]
      case Emit(_) => None
      case Plain(kid) => Some(kid)
      case Inlined(_, child) => Some(child)
      case Guarded(_, child) => Some(child)
  }

  // ----- the sorted lists met by a visit

  function Reach(v: Visit): set<Visit>
    decreases v.node, 1, 0
  {
    (if PlanOf(v).Canonical? then {v} else {}) + ReachUpTo(v, Arity(v))
  }

  function ReachUpTo(v: Visit, k: nat): set<Visit>
    requires k <= Arity(v)
    decreases v.node, 0, k
  {
    if k == 0 then {}
    else ReachUpTo(v, k - 1) + (if Kid(v, k - 1).Some? then Reach(Kid(v, k - 1).value) else {})
  }

  lemma {:induction false} ReachAreSortedLists(v: Visit, s: Visit)
    requires s in Reach(v)
    ensures PlanOf(s).Canonical? && s.node.List?
    decreases v.node, 1, 0
  {
    if s in ReachUpTo(v, Arity(v)) { ReachUpToSmaller(v, Arity(v), s); }
  }

  lemma {:induction false} ReachUpToSmaller(v: Visit, k: nat, s: Visit)
    requires k <= Arity(v) && s in ReachUpTo(v, k)
    ensures PlanOf(s).Canonical? && s.node.List? && s.node < v.node
    decreases v.node, 0, k
  {
    if s in ReachUpTo(v, k - 1) {
      ReachUpToSmaller(v, k - 1, s);
    } else {
      var kid := Kid(v, k - 1).value;
      ReachAreSortedLists(kid, s);
      if s in ReachUpTo(kid, Arity(kid)) { ReachUpToSmaller(kid, Arity(kid), s); }
    }
  }

  lemma {:induction false} ReachOfKid(v: Visit, k: nat, i: nat)
    requires i < k <= Arity(v) && Kid(v, i).Some?
    ensures Reach(Kid(v, i).value) <= ReachUpTo(v, k)
  {
    if i < k - 1 { ReachOfKid(v, k - 1, i); }
  }

  /** Every sorted list pointer is met in one place only. */
  ghost predicate Coherent(sites: set<Visit>) {
    forall s, t :: s in sites && t in sites && s.node.List? && t.node.List? && s.node.id == t.node.id ==> s == t
  }

  // ----- list pointers that occur once

  /** The list pointers a walk of v meets, with repetition. */
  function ListIds(v: Visit): multiset<nat>
    decreases v.node, 1, 0
  {
    (if v.node.List? then multiset{v.node.id} else multiset{}) + ListIdsUpTo(v, Arity(v))
  }

  function ListIdsUpTo(v: Visit, k: nat): multiset<nat>
    requires k <= Arity(v)
    decreases v.node, 0, k
  {
    if k == 0 then multiset{}
    else ListIdsUpTo(v, k - 1) + (if Kid(v, k - 1).Some? then ListIds(Kid(v, k - 1).value) else multiset{})
  }

  ghost predicate UniqueLists(tree: Node) {
    Unique(ListIds(Root(tree)))
  }

  lemma {:induction false} ReachHasIds(v: Visit, s: Visit)
    requires s in Reach(v)
    ensures s.node.List? && s.node.id in ListIds(v)
    decreases v.node, 1, 0
  {
    ReachAreSortedLists(v, s);
    if s in ReachUpTo(v, Arity(v)) { ReachUpToHasIds(v, Arity(v), s); }
  }

  lemma {:induction false} ReachUpToHasIds(v: Visit, k: nat, s: Visit)
    requires k <= Arity(v) && s in ReachUpTo(v, k)
    ensures s.node.List? && s.node.id in ListIdsUpTo(v, k)
    decreases v.node, 0, k
  {
    if s in ReachUpTo(v, k - 1) {
      ReachUpToHasIds(v, k - 1, s);
    } else {
      ReachHasIds(Kid(v, k - 1).value, s);
    }
  }

  ghost predicate Unique(ids: multiset<nat>) {
    forall id :: ids[id] <= 1
  }

  lemma UniqueParts(a: multiset<nat>, b: multiset<nat>)
    requires Unique(a + b)
    ensures Unique(a) && Unique(b) && a !! b
  {
    forall id ensures a[id] + b[id] <= 1 { assert (a + b)[id] <= 1; }
  }

  /** List pointers that occur once are coherent: this is the shape the parser builds. */
  lemma {:induction false} UniqueListsCoherent(v: Visit)
    requires Unique(ListIds(v))
    ensures Coherent(Reach(v))
    decreases v.node, 1, 0
  {
    hide PlanOf;
    var own := if v.node.List? then multiset{v.node.id} else multiset{};
    UniqueParts(own, ListIdsUpTo(v, Arity(v)));
    UniqueListsCoherentUpTo(v, Arity(v));
    forall s | s in ReachUpTo(v, Arity(v)) ensures v.node.List? ==> s.node.List? && s.node.id != v.node.id {
      ReachUpToHasIds(v, Arity(v), s);
    }
  }

  lemma ApartFromKid(v: Visit, k: nat, kid: Visit)
    requires k <= Arity(v) && ListIdsUpTo(v, k) !! ListIds(kid)
    ensures forall s, t :: s in ReachUpTo(v, k) && t in Reach(kid) ==> s.node.List? && t.node.List? && s.node.id != t.node.id
  {
    hide PlanOf, Reach, ReachUpTo, ListIds, ListIdsUpTo, Arity;
    forall s, t | s in ReachUpTo(v, k) && t in Reach(kid) ensures s.node.List? && t.node.List? && s.node.id != t.node.id {
      ReachUpToHasIds(v, k, s);
      ReachHasIds(kid, t);
    }
  }

  lemma {:induction false} UniqueListsCoherentUpTo(v: Visit, k: nat)
    requires k <= Arity(v) && Unique(ListIdsUpTo(v, k))
    ensures Coherent(ReachUpTo(v, k))
    decreases v.node, 0, k
  {
    hide PlanOf;
    if k > 0 {
      var last := if Kid(v, k - 1).Some? then ListIds(Kid(v, k - 1).value) else multiset{};
      UniqueParts(ListIdsUpTo(v, k - 1), last);
      UniqueListsCoherentUpTo(v, k - 1);
      if Kid(v, k - 1).Some? {
        var kid := Kid(v, k - 1).value;
        UniqueListsCoherent(kid);
        ApartFromKid(v, k - 1, kid);
        hide Reach, ListIds, ListIdsUpTo, Unique;
      }
    }
  }

  // ----- cost

  function Called(v: Visit): nat {
    if v.direct then 0 else 1
  }

  /** Calls of the node function in one plain traversal: the size of the walked tree. */
  function Size(v: Visit): nat
    decreases v.node, 1, 0
  {
    Called(v) + SizeUpTo(v, Arity(v))
  }

  function SizeUpTo(v: Visit, k: nat): nat
    requires k <= Arity(v)
    decreases v.node, 0, k
  {
    if k == 0 then 0 else SizeUpTo(v, k - 1) + (if Kid(v, k - 1).Some? then Size(Kid(v, k - 1).value) else 0)
  }

  /** A first visit: the members of a sorted list are walked once for their hashes,
      at first-visit cost, and once more when everything below them is cached. */
  function FirstCost(v: Visit): nat
    decreases v.node, 1, 0
  {
    Called(v) + FirstCostUpTo(v, Arity(v)) + (if PlanOf(v).Canonical? then SizeUpTo(v, Arity(v)) else 0)
  }

  function FirstCostUpTo(v: Visit, k: nat): nat
    requires k <= Arity(v)
    decreases v.node, 0, k
  {
    if k == 0 then 0 else FirstCostUpTo(v, k - 1) + (if Kid(v, k - 1).Some? then FirstCost(Kid(v, k - 1).value) else 0)
  }

  function Max(a: nat, b: nat): nat { if a < b then b else a }

  /** How many sorted lists lie inside one another. */
  function Nesting(v: Visit): nat
    decreases v.node, 1, 0
  {
    (if PlanOf(v).Canonical? then 1 else 0) + NestingUpTo(v, Arity(v))
  }

  function NestingUpTo(v: Visit, k: nat): nat
    requires k <= Arity(v)
    decreases v.node, 0, k
  {
    if k == 0 then 0 else Max(NestingUpTo(v, k - 1), if Kid(v, k - 1).Some? then Nesting(Kid(v, k - 1).value) else 0)
  }

  /** A first visit costs at most (size) x (1 + nesting). */
  lemma {:induction false} FirstCostBound(v: Visit)
    ensures Size(v) <= FirstCost(v) <= Size(v) * (1 + Nesting(v))
    decreases v.node, 1, 0
  {
    hide PlanOf;
    FirstCostUpToBound(v, Arity(v));
    NodeCost(Called(v), FirstCostUpTo(v, Arity(v)), SizeUpTo(v, Arity(v)), NestingUpTo(v, Arity(v)));
  }

  lemma {:induction false} FirstCostUpToBound(v: Visit, k: nat)
    requires k <= Arity(v)
    ensures SizeUpTo(v, k) <= FirstCostUpTo(v, k) <= SizeUpTo(v, k) * (1 + NestingUpTo(v, k))
    decreases v.node, 0, k
  {
    hide PlanOf;
    if k > 0 {
      FirstCostUpToBound(v, k - 1);
      if Kid(v, k - 1).Some? {
        var kid := Kid(v, k - 1).value;
        FirstCostBound(kid);
        SumCost(FirstCostUpTo(v, k - 1), SizeUpTo(v, k - 1), NestingUpTo(v, k - 1), FirstCost(kid), Size(kid), Nesting(kid));
      }
    }
  }

  lemma NodeCost(called: nat, first: nat, size: nat, nest: nat)
    requires first <= size * (1 + nest)
    ensures called + first <= (called + size) * (1 + nest)
    ensures called + first + size <= (called + size) * (2 + nest)
  {}

  lemma SumCost(c1: nat, s1: nat, n1: nat, c2: nat, s2: nat, n2: nat)
    requires c1 <= s1 * (1 + n1) && c2 <= s2 * (1 + n2)
    ensures c1 + c2 <= (s1 + s2) * (1 + Max(n1, n2))
  {}

  // ----- without the cache the cost doubles with every nested sorted list

  /** A call inside the argument list of a call inside ..., k times. */
  function NestedCalls(k: nat): (n: Node) {
    if k == 0 then Null
    else List(k, [Struct("FuncCall", [Field("args", Pointer(ListPtr, NestedCalls(k - 1)))])])
  }

  function Args(n: Node, depth: nat): Visit {
    Visit(n, Some("FuncCall"), Some("args"), depth, false)
  }

  function Pow2(k: nat): nat { if k == 0 then 1 else 2 * Pow2(k - 1) }

  lemma NestedPlan(k: nat, depth: nat)
    requires k > 0 && depth + 1 < MAX_DEPTH
    ensures PlanOf(Args(NestedCalls(k), depth)) == Canonical([CallVisit(k, depth)])
    ensures k > 1 ==> PlanOf(CallVisit(k, depth)) == Steps([Emit(["FuncCall"]), Guarded("args", Args(NestedCalls(k - 1), depth + 2))])
  {
    var v := CallVisit(k, depth);
    assert ItemVisits(Args(NestedCalls(k), depth)) == [v];
    if k > 1 {
      assert FieldSteps(v) == [FieldStep(v, 0)];
      assert PlanOf(v) == Steps([Emit(["FuncCall"])] + FieldSteps(v));
      assert [Emit(["FuncCall"])] + [FieldStep(v, 0)] == [Emit(["FuncCall"]), FieldStep(v, 0)];
    }
  }

  function CallVisit(k: nat, depth: nat): Visit
    requires k > 0
  {
    Args(NestedCalls(k).items[0], depth + 1)
  }

  /** The walk without a cache makes at least 2^k calls on k nested argument lists
      (as long as the depth cut does not intervene). */
  lemma {:induction false} UncachedDoubles(lib: Lib, st: State, k: nat, depth: nat)
    requires depth + 2 * k < MAX_DEPTH
    ensures Walk(lib, st, Args(NestedCalls(k), depth)).calls >= st.calls + Pow2(k)
    decreases k
  {
    var v := Args(NestedCalls(k), depth);
    if k > 0 {
      NestedPlan(k, depth);
      var kid := CallVisit(k, depth);
      var called := st.(calls := st.calls + 1);
      var hashed := Hashed(lib, called, v);
      CallDoubles(lib, Fresh(), k, depth);
      CallDoubles(lib, hashed, k, depth);
      assert HashingCalls(lib, v, 1) == HashingCalls(lib, v, 0) + Walk(lib, Fresh(), kid).calls;
      assert SortedItems(lib, v)[0].pos == 0;
      assert WalkPicks(lib, hashed, v, 1) == Walk(lib, WalkPicks(lib, hashed, v, 0), kid);
    }
  }

  lemma {:induction false} CallDoubles(lib: Lib, st: State, k: nat, depth: nat)
    requires k > 0 && depth + 2 * k < MAX_DEPTH
    ensures Walk(lib, st, CallVisit(k, depth)).calls >= st.calls + Pow2(k - 1)
    decreases k, 0
  {
    hide PlanOf, Hashed, WalkPicks;
    var v := CallVisit(k, depth);
    if k > 1 {
      NestedPlan(k, depth);
      var called := st.(calls := st.calls + 1);
      var tagged := WalkSteps(lib, called, v, 1);
      assert tagged == WalkStep(lib, WalkSteps(lib, called, v, 0), v, 0);
      UncachedDoubles(lib, Feed(tagged, ["args"]), k - 1, depth + 2);
      assert WalkSteps(lib, called, v, 2) == WalkStep(lib, tagged, v, 1);
    }
  }
}
