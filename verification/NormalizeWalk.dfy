/** The tree walk that records constants and hands out parameter ids: as a function
    on states. */
module NormalizeWalk {
  import opened Common
  import opened NormalizeLengths

  /** The parts of the parse tree that the walk tells apart. `Wrapper` stands for the
      statements of which one field is walked, `Other` for every node whose children
      are walked in order; the text of a DefElem's argument is looked for from its
      location on. The detail is whatever else the node holds: the walk does not look at
      it, the fingerprint may. */
  datatype Node =
    | Null
    | AConst(isInteger: bool, location: int)
    | ParamRef(number: nat)
    | StringValue(detail: string)
    | DefElem(detail: string, arg: Node, start: Location)
    | TypeName(detail: string)
    | SortBy(detail: string, key: Node)
    | Wrapper(detail: string, child: Node)
    | Other(detail: string, children: seq<Node>)
    | Select(detail: string, before: seq<Node>, targets: seq<Target>, middle: seq<Node>,
             group: seq<Node>, sort: seq<Node>, after: seq<Node>)

  /** A location of the parser; -1 is unknown. */
  type Location = x: int | x >= -1

  datatype Target = Target(indirection: Node, value: Node)

  /** What is remembered of one target element: its fingerprint and the parameter
      references assigned or met while walking it. */
  datatype Entry = Entry(fp: nat, refs: seq<int>)

  /** The working state. `reused` marks constants whose id was taken over from a
      target element. */
  datatype State = State(consts: seq<ConstLoc>, nextId: int, highestExtern: nat, refs: Option<seq<int>>, reused: seq<bool>)

  const INIT: State := State([], 1, 0, None, [])

  function Ref(st: State, id: int): State {
    if st.refs.Some? then st.(refs := Some(st.refs.value + [id])) else st
  }

  /** A location of -1 is unknown and not recorded. */
  function Record(st: State, location: int): State {
    if location < 0 then st
    else
      Ref(st.(consts := st.consts + [ConstLoc(location, -1, -st.nextId)],
              nextId := st.nextId + 1, reused := st.reused + [false]), -st.nextId)
  }

  function Param(st: State, number: nat): State {
    Ref(st.(highestExtern := if number > st.highestExtern then number else st.highestExtern), number)
  }

  /** The first quote from position i on, or the end of the query. */
  function QuoteFrom(query: string, i: nat): (r: nat)
    ensures i <= |query| ==> i <= r <= |query|
    ensures i <= r < |query| ==> query[r] == '\'' && forall j :: i <= j < r ==> query[j] != '\''
    ensures r >= |query| ==> forall j :: i <= j < |query| ==> query[j] != '\''
    decreases |query| - i
  {
    if i >= |query| || query[i] == '\'' then i else QuoteFrom(query, i + 1)
  }

  predicate IsIntegerConst(n: Node) {
    n.AConst? && n.isInteger
  }

  predicate SkipsSort(n: Node) {
    n.SortBy? && IsIntegerConst(n.key)
  }

  /** What the walk is run with: the fingerprint function, the query text, and the byte
      in memory ahead of that text, where the search from an unknown location begins. */
  datatype Env = Env(fp: Node -> nat, query: string, ahead: char)

  /** The search for the quote of a DefElem's argument. A quote ahead of the query ends it
      without result, since its location is negative. */
  function FindQuote(env: Env, start: Location): (r: Option<nat>)
    ensures r.Some? ==> start <= r.value < |env.query| && env.query[r.value] == '\''
  {
    if start < 0 && env.ahead == '\'' then None
    else
      var quote := QuoteFrom(env.query, if start < 0 then 0 else start);
      if quote < |env.query| then Some(quote) else None
  }

  function RecordQuote(env: Env, st: State, arg: Node, start: Location): State {
    if arg.StringValue? && FindQuote(env, start).Some? then Record(st, FindQuote(env, start).value) else st
  }

  function Walk(env: Env, st: State, n: Node): State
    decreases n, 1, 0
  {
    match n
    case Null => st
    case AConst(_, location) => Record(st, location)
    case ParamRef(number) => Param(st, number)
    case StringValue(_) => st
    case TypeName(_) => st
    case DefElem(_, arg, start) =>
      Walk(env, RecordQuote(env, st, arg, start), arg)
    case SortBy(_, key) => Walk(env, st, key)
    case Wrapper(_, child) => Walk(env, st, child)
    case Other(_, children) => WalkAll(env, st, children, |children|)
    case Select(_, before, targets, middle, group, sort, after) =>
      var s1 := WalkAll(env, st, before, |before|);
      var s2 := WalkTargets(env, s1, targets, |targets|);
      var s3 := WalkAll(env, s2.0, middle, |middle|);
      var s4 := WalkGroup(env, (s3, s2.1), group, |group|);
      var s5 := WalkSort(env, s4.0, sort, |sort|);
      WalkAll(env, s5, after, |after|)
  }

  /** The first k of a list of nodes. */
  function WalkAll(env: Env, st: State, ns: seq<Node>, k: nat): State
    requires k <= |ns|
    decreases ns, 0, k
  {
    if k == 0 then st else Walk(env, WalkAll(env, st, ns, k - 1), ns[k - 1])
  }

  function WalkSort(env: Env, st: State, ns: seq<Node>, k: nat): State
    requires k <= |ns|
    decreases ns, 0, k
  {
    if k == 0 then st
    else
      var before := WalkSort(env, st, ns, k - 1);
      if SkipsSort(ns[k - 1]) then before else Walk(env, before, ns[k - 1])
  }

  /** The target list: every element is walked with a recording of its own. */
  function WalkTargets(env: Env, st: State, ts: seq<Target>, k: nat): (r: (State, seq<Entry>))
    requires k <= |ts|
    ensures |r.1| == k
    decreases ts, 0, k
  {
    if k == 0 then (st, [])
    else
      var before := WalkTargets(env, st, ts, k - 1);
      var walked := WalkTarget(env, before.0, ts, k - 1);
      (walked.(refs := None), before.1 + [Entry(env.fp(ts[k - 1].value), RefsOf(walked))])
  }

  function WalkTarget(env: Env, st: State, ts: seq<Target>, k: nat): State
    requires k < |ts|
    decreases ts, 0, k
  {
    assert ts[k].indirection < ts[k] && ts[k].value < ts[k];
    Walk(env, Walk(env, st.(refs := Some([])), ts[k].indirection), ts[k].value)
  }

  function RefsOf(st: State): seq<int> {
    if st.refs.Some? then st.refs.value else []
  }

  /** The first remembered target element with a given fingerprint. */
  function Find(table: seq<Entry>, fp: nat): (k: nat)
    ensures k <= |table|
    ensures k < |table| ==> table[k].fp == fp
    ensures forall i :: 0 <= i < k ==> table[i].fp != fp
  {
    if table == [] || table[0].fp == fp then 0 else 1 + Find(table[1..], fp)
  }

  /** The GROUP BY list: a matching target element is consumed, and lends its
      references when the numbers agree. */
  function WalkGroup(env: Env, st: (State, seq<Entry>), ns: seq<Node>, k: nat): (State, seq<Entry>)
    requires k <= |ns|
    decreases ns, 0, k
  {
    if k == 0 then st
    else
      var before := WalkGroup(env, st, ns, k - 1);
      if IsIntegerConst(ns[k - 1]) then before
      else
        var hit := Find(before.1, env.fp(ns[k - 1]));
        var walked := Walk(env, before.0, ns[k - 1]);
        if hit == |before.1| then (walked, before.1)
        else (Lend(before.0, walked, before.1[hit].refs), before.1[..hit] + before.1[hit + 1..])
  }

  /** Give the constants recorded between two states the references of a target element. */
  function Lend(before: State, walked: State, refs: seq<int>): State {
    var first := |before.consts|;
    if first <= |walked.consts| && |walked.consts| == |walked.reused| && |refs| == |walked.consts| - first then
      walked.(consts := walked.consts[..first] + Relabelled(walked.consts[first..], refs),
              reused := walked.reused[..first] + seq(|refs|, _ => true),
              nextId := walked.nextId - |refs|)
    else walked
  }

  function Relabelled(consts: seq<ConstLoc>, ids: seq<int>): (r: seq<ConstLoc>)
    requires |consts| == |ids|
    ensures |r| == |ids| && forall i :: 0 <= i < |r| ==> r[i] == consts[i].(paramId := ids[i])
  {
    seq(|ids|, i requires 0 <= i < |ids| => consts[i].(paramId := ids[i]))
  }
}
