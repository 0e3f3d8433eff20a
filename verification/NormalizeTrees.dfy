/** The trees that normalization walks: their children, sub-SELECTs and parameters. */
module NormalizeTrees {
  import opened NormalizeWalk

  function Indirections(ts: seq<Target>): (r: seq<Node>)
    ensures |r| == |ts| && forall i :: 0 <= i < |r| ==> r[i] == ts[i].indirection
  {
    seq(|ts|, i requires 0 <= i < |ts| => ts[i].indirection)
  }

  function Values(ts: seq<Target>): (r: seq<Node>)
    ensures |r| == |ts| && forall i :: 0 <= i < |r| ==> r[i] == ts[i].value
  {
    seq(|ts|, i requires 0 <= i < |ts| => ts[i].value)
  }

  /** The children of a node, in no particular order. */
  function Kids(n: Node): (r: seq<Node>)
    ensures forall x :: x in r ==> x < n
  {
    match n
    case DefElem(_, arg, _) => [arg]
    case SortBy(_, key) => [key]
    case Wrapper(_, child) => [child]
    case Other(_, children) => children
    case Select(_, before, targets, middle, group, sort, after) =>
      before + middle + group + sort + after + (Indirections(targets) + Values(targets))
    case _ => []
  }

  lemma KidOf(n: Node, x: Node)
    requires n.Select? && x in Kids(n)
    ensures
      || x in n.before || x in n.middle || x in n.group || x in n.sort || x in n.after
      || exists i :: 0 <= i < |n.targets| && (x == n.targets[i].indirection || x == n.targets[i].value)
  {}

  /** A SELECT with a target list occurs in the node. */
  ghost predicate HasSelect(n: Node) {
    (n.Select? && n.targets != []) || exists x :: x in Kids(n) && HasSelect(x)
  }

  ghost predicate TargetHasSelect(t: Target) {
    HasSelect(t.indirection) || HasSelect(t.value)
  }

  /** The numbers of the parameters that occur in a tree. */
  ghost function Params(n: Node): set<nat> {
    (if n.ParamRef? then {n.number} else {}) + set x, p | x in Kids(n) && p in Params(x) :: p
  }

  lemma SkippedAreEmpty(x: Node)
    requires IsIntegerConst(x) || SkipsSort(x)
    ensures !HasSelect(x) && Params(x) == {}
  {}

  lemma SelectUnfolds(env: Env, st: State, n: Node)
    requires n.Select?
    ensures
      var s1 := WalkAll(env, st, n.before, |n.before|);
      var s2 := WalkTargets(env, s1, n.targets, |n.targets|);
      var s3 := WalkAll(env, s2.0, n.middle, |n.middle|);
      var s4 := WalkGroup(env, (s3, s2.1), n.group, |n.group|);
      var s5 := WalkSort(env, s4.0, n.sort, |n.sort|);
      Walk(env, st, n) == WalkAll(env, s5, n.after, |n.after|)
  {}
}
