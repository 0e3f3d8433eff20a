/** The fingerprint walk without a cache, as a function: the reference that the
    cached walk is proved to follow. */
module FingerprintWalk {
  import opened ParseTree
  import Sorting

  /** One entry of the array that is sorted: the hash of a list item and its position. */
  datatype Item = Item(hash: nat, pos: nat)

  /** The two library routines the walk relies on: the digest of the bytes fed so
      far, and the in-place sort, of which only its contract is known. */
  datatype Library = Library(digest: string -> nat, sort: seq<Item> -> seq<Item>)

  predicate SortedByHash(s: seq<Item>) {
    forall i, j :: 0 <= i < j < |s| ==> s[i].hash <= s[j].hash
  }

  ghost predicate IsSort(sort: seq<Item> -> seq<Item>) {
    forall s: seq<Item> :: SortedByHash(sort(s)) && multiset(sort(s)) == multiset(s)
  }

  type Lib = lib: Library | IsSort(lib.sort) ghost witness SomeLibrary()

  function SomeLibrary(): (lib: Library)
    ensures IsSort(lib.sort)
  {
    var key := (x: Item) => x.hash;
    assert forall s: seq<Item> :: Sorting.SortedBy(s, key) ==> SortedByHash(s);
    Library(s => |s|, s => Sorting.InsertionSort(s, key))
  }

  /** What the walk has fed so far: the bytes in the hash state and, when tokens
      are written, the token list. `collided` records that some comparison of two
      digests took two different byte strings for equal; `calls` counts the calls
      of the node function. */
  datatype State = State(fed: string, writing: bool, tokens: seq<string>, collided: bool, calls: nat)

  function Fresh(): State {
    State("", false, [], false, 0)
  }

  function Feed(st: State, tokens: seq<string>): (r: State)
    ensures st.writing ==> r.tokens == st.tokens + tokens
    ensures !st.writing ==> r.tokens == st.tokens
  {
    st.(fed := st.fed + Flatten(tokens), tokens := if st.writing then st.tokens + tokens else st.tokens)
  }

  /** States of one context only grow. */
  predicate Grows(a: State, b: State) {
    a.writing == b.writing && a.tokens <= b.tokens && (a.collided ==> b.collided) && a.calls <= b.calls
  }

  /** The end of a guarded field: when the digest did not change, the hash state
      goes back to `before` and the last token is deleted. */
  function Settle(digest: string -> nat, before: State, named: State, after: State): (r: State)
    requires Grows(named, after)
    requires named.writing ==> |named.tokens| > 0
    ensures r.writing == after.writing && r.calls == after.calls
    ensures after.collided ==> r.collided
  {
    if digest(named.fed) == digest(after.fed) then
      after.(fed := before.fed,
             tokens := if after.writing then after.tokens[..|after.tokens| - 1] else after.tokens,
             collided := after.collided || named.fed != after.fed)
    else after
  }

  function Walk(lib: Lib, st: State, v: Visit): (r: State)
    ensures Grows(st, r)
    decreases v.node, 1, 0
  {
    var called := if v.direct then st else st.(calls := st.calls + 1);
    match PlanOf(v)
    case Steps(steps) => WalkSteps(lib, called, v, |steps|)
    case Canonical(kids) => WalkPicks(lib, Hashed(lib, called, v), v, |kids|)
  }

  /** The state after the first k steps. */
  function WalkSteps(lib: Lib, st: State, v: Visit, k: nat): (r: State)
    requires PlanOf(v).Steps? && k <= |PlanOf(v).steps|
    ensures Grows(st, r)
    decreases v.node, 0, k
  {
    if k == 0 then st
    else WalkStep(lib, WalkSteps(lib, st, v, k - 1), v, k - 1)
  }

  function WalkStep(lib: Lib, st: State, v: Visit, k: nat): (r: State)
    requires PlanOf(v).Steps? && k < |PlanOf(v).steps|
    ensures Grows(st, r)
    decreases v.node, 0, k
  {
    var step := PlanOf(v).steps[k];
    assert StepBelow(step, v);
    match step
    case Emit(tokens) => Feed(st, tokens)
    case Plain(kid) => Walk(lib, st, kid)
    case Inlined(name, child) => Walk(lib, Feed(st, [name]), child)
    case Guarded(name, child) =>
      var named := Feed(st, [name]);
      Settle(lib.digest, st, named, Walk(lib, named, child))
  }

  lemma SameMultiset(a: seq<Item>, b: seq<Item>)
    requires multiset(a) == multiset(b)
    ensures |a| == |b| && forall i :: 0 <= i < |a| ==> a[i] in b
  {
    assert |a| == |multiset(a)| && |b| == |multiset(b)|;
    forall i | 0 <= i < |a| ensures a[i] in b {
      assert a[i] in multiset(a);
      assert a[i] in multiset(b);
    }
  }

  /** The hashes of the first k items, each walked in a context of its own. */
  function ItemHashes(lib: Lib, v: Visit, k: nat): (r: seq<Item>)
    requires PlanOf(v).Canonical? && k <= |PlanOf(v).kids|
    ensures |r| == k
    ensures forall i :: 0 <= i < k ==> r[i].pos == i
    decreases v.node, 0, k
  {
    if k == 0 then []
    else
      ItemHashes(lib, v, k - 1) + [Item(lib.digest(Walk(lib, Fresh(), PlanOf(v).kids[k - 1]).fed), k - 1)]
  }

  function SortedItems(lib: Lib, v: Visit): (r: seq<Item>)
    requires PlanOf(v).Canonical?
    ensures |r| == |PlanOf(v).kids| && SortedByHash(r)
    ensures forall i :: 0 <= i < |r| ==> r[i].pos < |r|
    ensures multiset(r) == multiset(ItemHashes(lib, v, |r|))
    decreases v.node, 0, |PlanOf(v).kids| + 1
  {
    var n := |PlanOf(v).kids|;
    var items := ItemHashes(lib, v, n);
    var r := lib.sort(items);
    SameMultiset(r, items);
    r
  }

  /** The bookkeeping of the hashing pass: its calls, and whether it met a collision. */
  function Hashed(lib: Lib, st: State, v: Visit): (r: State)
    requires PlanOf(v).Canonical?
    ensures Grows(st, r)
    decreases v.node, 0, |PlanOf(v).kids| + 1
  {
    var n := |PlanOf(v).kids|;
    st.(collided := st.collided || HashingCollides(lib, v, n), calls := st.calls + HashingCalls(lib, v, n))
  }

  function HashingCalls(lib: Lib, v: Visit, k: nat): nat
    requires PlanOf(v).Canonical? && k <= |PlanOf(v).kids|
    decreases v.node, 0, k
  {
    if k == 0 then 0
    else HashingCalls(lib, v, k - 1) + Walk(lib, Fresh(), PlanOf(v).kids[k - 1]).calls
  }

  predicate HashingCollides(lib: Lib, v: Visit, k: nat)
    requires PlanOf(v).Canonical? && k <= |PlanOf(v).kids|
    decreases v.node, 0, k
  {
    k > 0 &&
    var last := Walk(lib, Fresh(), PlanOf(v).kids[k - 1]);
    || HashingCollides(lib, v, k - 1)
    || last.collided
    || exists i :: 0 <= i < k - 1 &&
         var other := Walk(lib, Fresh(), PlanOf(v).kids[i]);
         lib.digest(other.fed) == lib.digest(last.fed) && other.fed != last.fed
  }

  predicate IsDuplicate(sorted: seq<Item>, k: nat)
    requires k < |sorted|
  {
    k > 0 && sorted[k - 1].hash == sorted[k].hash
  }

  /** The second pass over the sorted items, up to the k-th: one item per hash. */
  function WalkPicks(lib: Lib, st: State, v: Visit, k: nat): (r: State)
    requires PlanOf(v).Canonical? && k <= |PlanOf(v).kids|
    ensures Grows(st, r)
    decreases v.node, 0, |PlanOf(v).kids| + 2 + k
  {
    if k == 0 then st
    else
      var sorted := SortedItems(lib, v);
      var before := WalkPicks(lib, st, v, k - 1);
      if IsDuplicate(sorted, k - 1) then before
      else Walk(lib, before, PlanOf(v).kids[sorted[k - 1].pos])
  }

  /** The fingerprint of a tree: the digest of all bytes fed. */
  function Fingerprint(lib: Lib, tree: Node): nat {
    lib.digest(Walk(lib, Fresh(), Root(tree)).fed)
  }
}
