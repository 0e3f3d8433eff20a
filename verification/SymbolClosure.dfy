/** The traversal by which the extraction script finds the symbols to copy: a
    depth-first search that marks before it descends, over two name spaces. */
module SymbolClosure {
  import opened Common

  type Symbol = string
  type File = string

  /** What is known of one base file: which symbols its symbols refer to (each listed
      once), which are file-local, and in which file the text of each symbol lives. */
  datatype Analysis = Analysis(references: map<Symbol, seq<Symbol>>, statics: set<Symbol>, symbolToFile: map<Symbol, File>)

  datatype World = World(analyses: map<File, Analysis>, globalBase: map<Symbol, File>, mocked: set<Symbol>, blocked: set<Symbol>)

  const MAX_DEPTH: nat := 100

  predicate Distinct<T(==)>(s: seq<T>) {
    forall i, j :: 0 <= i < j < |s| ==> s[i] != s[j]
  }

  predicate WellAnalysed(w: World) {
    forall f, x :: f in w.analyses && x in w.analyses[f].references ==> Distinct(w.analyses[f].references[x])
  }

  // ----- the graph

  /** A symbol as it is looked up: by its global name, or inside one base file. */
  datatype Node = Global(name: Symbol) | Local(base: File, name: Symbol)

  /** The base file in which a symbol is looked up. */
  predicate LookedUpIn(w: World, n: Node, base: File) {
    match n
    case Local(file, _) => file == base
    case Global(name) => name in w.globalBase && w.globalBase[name] == base
  }

  /** The analysis of the base file knows the file that the symbol's text lives in. */
  ghost predicate StoredIn(w: World, n: Node, base: File, file: File) {
    && LookedUpIn(w, n, base) && base in w.analyses
    && n.name in w.analyses[base].symbolToFile && w.analyses[base].symbolToFile[n.name] == file
  }

  /** The text of a symbol that is not mocked refers to another symbol: to the file-local
      one of that name when its base file has one. */
  ghost predicate Refers(w: World, n: Node, m: Node) {
    && n.name !in w.mocked
    && exists base, file :: StoredIn(w, n, base, file) && n.name in w.analyses[base].references
         && m.name in w.analyses[base].references[n.name]
         && m == if m.name in w.analyses[base].statics then Local(base, m.name) else Global(m.name)
  }

  function BaseOf(w: World, n: Node): Option<File> {
    if n.Local? then Some(n.base)
    else if n.name in w.globalBase then Some(w.globalBase[n.name]) else None
  }

  /** The file with the symbol's text, if the symbol can be resolved. */
  function PlaceOf(w: World, n: Node): Option<File> {
    var base := BaseOf(w, n);
    if base.Some? && base.value in w.analyses && n.name in w.analyses[base.value].symbolToFile
    then Some(w.analyses[base.value].symbolToFile[n.name]) else None
  }

  /** A referenced name stands for the file-local symbol when its base file has one. */
  function Target(w: World, base: File, name: Symbol): Node
    requires base in w.analyses
  {
    if name in w.analyses[base].statics then Local(base, name) else Global(name)
  }

  function References(w: World, base: File, name: Symbol): seq<Symbol>
    requires base in w.analyses
  {
    if name in w.analyses[base].references then w.analyses[base].references[name] else []
  }

  /** Symbols referred to by a resolved symbol that is not mocked. */
  function Successors(w: World, n: Node): set<Node> {
    if PlaceOf(w, n).None? || n.name in w.mocked then {}
    else
      var base := BaseOf(w, n).value;
      set c | c in References(w, base, n.name) :: Target(w, base, c)
  }

  lemma BaseIff(w: World, n: Node, base: File)
    ensures BaseOf(w, n) == Some(base) <==> LookedUpIn(w, n, base)
  {}

  lemma PlaceIff(w: World, n: Node, file: File)
    ensures PlaceOf(w, n) == Some(file) <==> exists base :: StoredIn(w, n, base, file)
  {
    forall base ensures StoredIn(w, n, base, file) <==> BaseOf(w, n) == Some(base) && PlaceOf(w, n) == Some(file) {
      BaseIff(w, n, base);
    }
    if PlaceOf(w, n) == Some(file) { assert StoredIn(w, n, BaseOf(w, n).value, file); }
  }

  /** The successors of a symbol are those that its text refers to. */
  lemma SuccessorsIff(w: World, n: Node, m: Node)
    ensures m in Successors(w, n) <==> Refers(w, n, m)
  {
    if m in Successors(w, n) {
      PlaceIff(w, n, PlaceOf(w, n).value);
      assert StoredIn(w, n, BaseOf(w, n).value, PlaceOf(w, n).value);
    }
    if Refers(w, n, m) {
      var base, file :| StoredIn(w, n, base, file) && n.name in w.analyses[base].references
        && m.name in w.analyses[base].references[n.name]
        && m == if m.name in w.analyses[base].statics then Local(base, m.name) else Global(m.name);
      PlaceIff(w, n, file);
      BaseIff(w, n, base);
      assert m.name in References(w, base, n.name) && m == Target(w, base, m.name);
    }
  }

  ghost predicate IsPath(w: World, p: seq<Node>) {
    |p| > 0 && forall i :: 0 <= i < |p| - 1 ==> p[i + 1] in Successors(w, p[i])
  }

  ghost predicate Reachable(w: World, roots: seq<Symbol>, n: Node) {
    exists p: seq<Node> :: IsPath(w, p) && p[0].Global? && p[0].name in roots && p[|p| - 1] == n
  }

  /** The script can visit the symbol: it is not on the blocklist, and its base file, if
      it has one, was analysed. */
  predicate Fine(w: World, n: Node) {
    n.name !in w.blocked && (BaseOf(w, n).Some? ==> BaseOf(w, n).value in w.analyses)
  }

  /** The script exits at the symbol, visited at a depth. */
  predicate Exits(w: World, n: Node, depth: nat) {
    !Fine(w, n) || depth > 100
  }

  /** How the traversal comes to a symbol: from a root through references, to symbols that
      were not marked before, so that below the root none comes twice. */
  ghost predicate IsTrail(w: World, roots: seq<Symbol>, p: seq<Node>) {
    IsPath(w, p) && p[0].Global? && p[0].name in roots && forall i, j :: 1 <= i < j < |p| ==> p[i] != p[j]
  }

  /** A trail on which everything below the root is marked. */
  ghost predicate OnTrail(w: World, roots: seq<Symbol>, trail: seq<Node>, marked: set<Node>, n: Node) {
    && IsTrail(w, roots, trail) && trail[|trail| - 1] == n
    && forall i :: 1 <= i < |trail| ==> trail[i] in marked
  }

  ghost predicate SomeExit(w: World, roots: seq<Symbol>) {
    exists p: seq<Node> :: IsTrail(w, roots, p) && Exits(w, p[|p| - 1], |p| - 1)
  }

  /** A dependent that was not marked continues the trail. */
  lemma TrailGrows(w: World, roots: seq<Symbol>, trail: seq<Node>, before: set<Node>, after: set<Node>, n: Node, m: Node)
    requires OnTrail(w, roots, trail, before, n) && m in Successors(w, n)
    requires before <= after && m in after && m !in before
    ensures OnTrail(w, roots, trail + [m], after, m)
  {
    hide Successors;
    var next := trail + [m];
    forall i | 0 <= i < |next| - 1 ensures next[i + 1] in Successors(w, next[i]) {
      if i < |trail| - 1 { assert trail[i + 1] in Successors(w, trail[i]); }
    }
  }

  lemma TrailStays(w: World, roots: seq<Symbol>, trail: seq<Node>, before: set<Node>, after: set<Node>, n: Node)
    requires OnTrail(w, roots, trail, before, n) && before <= after
    ensures OnTrail(w, roots, trail, after, n)
  {}

  lemma TrailReaches(w: World, roots: seq<Symbol>, p: seq<Node>, i: nat)
    requires IsTrail(w, roots, p) && i < |p|
    ensures Reachable(w, roots, p[i])
  {
    var q := p[..i + 1];
    assert IsPath(w, q) by {
      forall k | 0 <= k < |q| - 1 ensures q[k + 1] in Successors(w, q[k]) {
        assert p[k + 1] in Successors(w, p[k]);
      }
    }
    assert q[0] == p[0] && q[|q| - 1] == p[i];
  }

  /** No trail passes more than 100 symbols below its root. */
  ghost predicate ShortTrails(w: World, roots: seq<Symbol>) {
    forall p :: IsTrail(w, roots, p) ==> |p| <= 101
  }

  ghost predicate HoldsReachable(w: World, roots: seq<Symbol>, all: set<Node>) {
    forall n :: Reachable(w, roots, n) ==> n in all
  }

  /** At most 100 symbols are reachable. */
  ghost predicate FewSymbols(w: World, roots: seq<Symbol>) {
    exists all: set<Node> :: HoldsReachable(w, roots, all) && |all| <= 100
  }

  lemma DistinctWithin(xs: seq<Node>, all: set<Node>)
    requires Distinct(xs) && forall x :: x in xs ==> x in all
    ensures |xs| <= |all|
  {
    AddDistinct({}, xs);
    assert {} + Members(xs) == Members(xs);
    assert all == Members(xs) + (all - Members(xs));
  }

  lemma FewSymbolsShortTrails(w: World, roots: seq<Symbol>)
    requires FewSymbols(w, roots)
    ensures ShortTrails(w, roots)
  {
    hide Reachable, IsTrail;
    var all: set<Node> :| HoldsReachable(w, roots, all) && |all| <= 100;
    forall p | IsTrail(w, roots, p) ensures |p| <= 101 {
      TrailBelow(w, roots, p);
      DistinctWithin(p[1..], all);
    }
  }

  /** Below the root a trail is made of different reachable symbols. */
  lemma TrailBelow(w: World, roots: seq<Symbol>, p: seq<Node>)
    requires IsTrail(w, roots, p)
    ensures |p| > 0 && Distinct(p[1..]) && forall x :: x in p[1..] ==> Reachable(w, roots, x)
  {
    hide Reachable, Successors;
    var below := p[1..];
    assert forall i :: 0 <= i < |below| ==> below[i] == p[i + 1];
    forall i | 0 <= i < |below| ensures Reachable(w, roots, below[i]) {
      TrailReaches(w, roots, p, i + 1);
    }
  }

  ghost predicate Closed(w: World, r: iset<Node>) {
    forall n, m :: n in r && m in Successors(w, n) ==> m in r
  }

  lemma ReachableClosed(w: World, roots: seq<Symbol>)
    ensures Closed(w, iset n | Reachable(w, roots, n))
    ensures forall x :: x in roots ==> Reachable(w, roots, Global(x))
  {
    forall n, m | Reachable(w, roots, n) && m in Successors(w, n) ensures Reachable(w, roots, m) {
      var p: seq<Node> :| IsPath(w, p) && p[0].Global? && p[0].name in roots && p[|p| - 1] == n;
      var q := p + [m];
      assert IsPath(w, q) && q[0] == p[0] && q[|q| - 1] == m;
    }
    forall x | x in roots ensures Reachable(w, roots, Global(x)) {
      assert IsPath(w, [Global(x)]);
    }
  }

  /** A set that holds the roots and is closed holds everything reachable. */
  lemma {:induction false} ClosedHoldsPath(w: World, r: iset<Node>, p: seq<Node>)
    requires Closed(w, r) && IsPath(w, p) && p[0] in r
    ensures p[|p| - 1] in r
    decreases |p|
  {
    if |p| > 1 {
      var q := p[..|p| - 1];
      assert IsPath(w, q) by {
        forall i | 0 <= i < |q| - 1 ensures q[i + 1] in Successors(w, q[i]) {
          assert p[i + 1] in Successors(w, p[i]);
        }
      }
      ClosedHoldsPath(w, r, q);
      assert p[|p| - 2 + 1] in Successors(w, p[|p| - 2]);
    }
  }

  /** One of these nodes has this name and this place. */
  ghost predicate Stands(w: World, nodes: set<Node>, x: Symbol, place: Option<File>) {
    exists n :: n in nodes && n.name == x && PlaceOf(w, n) == place
  }

  lemma StandsAdd(w: World, nodes: set<Node>, n: Node)
    ensures forall x, place :: Stands(w, nodes + {n}, x, place) <==> Stands(w, nodes, x, place) || (x == n.name && place == PlaceOf(w, n))
  {}

  /** Distinct new members add up. */
  function Members(xs: seq<Node>): (r: set<Node>)
    ensures forall x :: x in r <==> x in xs
  {
    set x | x in xs
  }

  lemma {:induction false} AddDistinct(s: set<Node>, xs: seq<Node>)
    requires Distinct(xs) && forall x :: x in xs ==> x !in s
    ensures |s + Members(xs)| == |s| + |xs|
  {
    if xs == [] {
      assert s + Members(xs) == s;
    } else {
      var n := |xs| - 1;
      AddDistinct(s, xs[..n]);
      assert xs[n] !in xs[..n];
      assert s + Members(xs) == (s + Members(xs[..n])) + {xs[n]};
    }
  }

  // ----- selecting dependents

  /** The names of a list that are file-local (or not), and not among those to leave out. */
  function Select(names: seq<Symbol>, statics: set<Symbol>, wantStatic: bool, out: seq<Symbol>): (r: seq<Symbol>)
    ensures forall x :: x in r <==> x in names && (x in statics <==> wantStatic) && x !in out
    ensures Distinct(names) ==> Distinct(r)
  {
    if names == [] then []
    else
      var n := |names| - 1;
      var rest := Select(names[..n], statics, wantStatic, out);
      assert names == names[..n] + [names[n]];
      if (names[n] in statics <==> wantStatic) && names[n] !in out then rest + [names[n]] else rest
  }

  // ----- the traversal

  class Runner {
    const w: World
    var resolvedGlobal: seq<Symbol>
    var resolvedStatic: map<File, seq<Symbol>>
    var symbolsToOutput: map<File, seq<Symbol>>
    var unresolved: seq<Symbol>
    ghost var processed: set<Node>
    ghost var calls: nat

    constructor (w: World)
      ensures this.w == w && Marked() == {} && processed == {} && calls == 0
      ensures Faithful()
    {
      this.w := w;
      resolvedGlobal, resolvedStatic, symbolsToOutput, unresolved := [], map[], map[], [];
      processed, calls := {}, 0;
    }

    function Marked(): set<Node>
      reads `resolvedGlobal, `resolvedStatic
    {
      Marks(resolvedGlobal, resolvedStatic)
    }

    predicate Outputs(place: File, name: Symbol)
      reads `symbolsToOutput
    {
      place in symbolsToOutput && name in symbolsToOutput[place]
    }

    /** The lists say exactly what the processed symbols say. */
    ghost predicate Faithful()
      reads `symbolsToOutput, `unresolved, `processed
    {
      && (forall f, x :: Outputs(f, x) <==> Stands(w, processed, x, Some(f)))
      && (forall x :: x in unresolved <==> Stands(w, processed, x, None))
    }

    /** Everything a processed symbol refers to is marked; no processed symbol is one at
        which the script exits. */
    ghost predicate Descended()
      reads `resolvedGlobal, `resolvedStatic, `processed
    {
      && (forall n, m :: n in processed && m in Successors(w, n) ==> m in Marked())
      && (forall n :: n in processed ==> Fine(w, n))
    }

    ghost predicate Within(r: iset<Node>)
      reads this
    {
      (forall n :: n in Marked() ==> n in r) && (forall n :: n in processed ==> n in r)
    }

    /** Walking the first k of some marked nodes: what they needed is done as well. */
    ghost predicate Progress(r: iset<Node>, marked: set<Node>, done: set<Node>, start: nat, kids: seq<Node>, k: nat)
      requires k <= |kids|
      reads this
    {
      && Faithful() && Descended() && Within(r)
      && marked <= Marked() && done <= processed
      && Marked() - marked <= processed
      && (forall j :: 0 <= j < k ==> kids[j] in processed)
      && calls == start + k + |Marked()| - |marked|
    }

    /** deep_resolve. `ok` is false when the script exits: a blocked symbol, too deep,
        or no analysis of the base file. Otherwise the symbol is processed, everything
        newly marked is processed, and there was one call for each. */
    method DeepResolve(methodName: Symbol, depth: nat, globalByParent: seq<Symbol>, staticByParent: seq<Symbol>,
                       staticBase: Option<File>, ghost r: iset<Node>,
                       ghost roots: seq<Symbol>, ghost trail: seq<Node>) returns (ok: bool)
      requires WellAnalysed(w) && Closed(w, r) && NodeOf(staticBase, methodName) in r
      requires OnTrail(w, roots, trail, Marked(), NodeOf(staticBase, methodName)) && |trail| == depth + 1
      requires Faithful() && Descended() && Within(r)
      requires forall x :: x in globalByParent ==> Global(x) in Marked()
      requires staticBase.None? ==> staticByParent == []
      requires forall x :: x in staticByParent ==> NodeOf(staticBase, x) in Marked()
      modifies this
      ensures ok ==> NodeOf(staticBase, methodName) in processed
      ensures ok ==> Progress(r, old(Marked()), old(processed), old(calls), [NodeOf(staticBase, methodName)], 1)
      ensures !ok ==> SomeExit(w, roots)
      decreases MAX_DEPTH + 1 - depth, 1
    {
      ghost var n := NodeOf(staticBase, methodName);
      if methodName in w.blocked || depth > MAX_DEPTH {
        assert Exits(w, n, depth);
        return false;
      }
      var base := if staticBase.Some? then staticBase
        else if methodName in w.globalBase then Some(w.globalBase[methodName]) else None;
      if base.None? {
        Unresolved(methodName, n);
        return true;
      }
      if base.value !in w.analyses {
        assert Exits(w, n, depth);
        return false;
      }
      var analysis := w.analyses[base.value];
      if methodName !in analysis.symbolToFile {
        Unresolved(methodName, n);
        return true;
      }
      if methodName in w.mocked {
        Resolved(analysis.symbolToFile[methodName], methodName, n);
        return true;
      }
      ok := Descend(methodName, depth, globalByParent, staticByParent, base.value, n, r, roots, trail);
    }

    /** The last part: exclude the dependents visited before, make sure none of the rest
        is visited again, then visit them. */
    method Descend(methodName: Symbol, depth: nat, globalByParent: seq<Symbol>, staticByParent: seq<Symbol>,
                   base: File, ghost n: Node, ghost r: iset<Node>,
                       ghost roots: seq<Symbol>, ghost trail: seq<Node>) returns (ok: bool)
      requires WellAnalysed(w) && Closed(w, r) && n in r && depth <= MAX_DEPTH && Fine(w, n)
      requires OnTrail(w, roots, trail, Marked(), n) && |trail| == depth + 1
      requires Faithful() && Descended() && Within(r)
      requires n.name == methodName && BaseOf(w, n) == Some(base) && PlaceOf(w, n).Some? && methodName !in w.mocked
      requires forall x :: x in globalByParent ==> Global(x) in Marked()
      requires forall x :: x in staticByParent ==> Local(base, x) in Marked()
      modifies this
      ensures ok ==> n in processed
      ensures ok ==> Progress(r, old(Marked()), old(processed), old(calls), [n], 1)
      ensures !ok ==> SomeExit(w, roots)
      decreases MAX_DEPTH + 1 - depth, 0
    {
      hide Faithful, Descended, Marks, Nodes, OnTrail, IsTrail;
      ghost var before := Marked();
      var globals, statics := Enter(methodName, globalByParent, staticByParent, base, n, r);
      ghost var kids := Nodes(base, globals, statics);
      ghost var marked, done, start := Marked(), processed, calls;
      forall m | m in kids ensures OnTrail(w, roots, trail + [m], marked, m) {
        TrailGrows(w, roots, trail, before, marked, n, m);
      }
      ok := VisitAll(globals, statics, depth, globalByParent + globals, staticByParent + statics, base, r, roots, trail,
                     marked, done, start);
      if ok {
        forall m | m in Marked() - old(Marked()) ensures m in processed {
          if m in kids {
            var j :| 0 <= j < |kids| && kids[j] == m;
          }
        }
      }
    }

    /** Mark the new dependents and emit the symbol. */
    method Enter(methodName: Symbol, globalByParent: seq<Symbol>, staticByParent: seq<Symbol>, base: File,
                 ghost n: Node, ghost r: iset<Node>)
      returns (globals: seq<Symbol>, statics: seq<Symbol>)
      requires WellAnalysed(w) && Closed(w, r) && n in r && Fine(w, n)
      requires Faithful() && Descended() && Within(r)
      requires n.name == methodName && BaseOf(w, n) == Some(base) && PlaceOf(w, n).Some? && methodName !in w.mocked
      requires forall x :: x in globalByParent ==> Global(x) in Marked()
      requires forall x :: x in staticByParent ==> Local(base, x) in Marked()
      modifies this
      ensures
        var kids := Nodes(base, globals, statics);
        && Progress(r, Marked(), processed, calls, kids, 0)
        && Marked() == old(Marked()) + Members(kids) && |Marked()| == |old(Marked())| + |kids|
        && (forall m :: m in kids ==> m in r && m in Successors(w, n) && m !in old(Marked()))
      ensures processed == old(processed) + {n} && calls == old(calls) + 1
      ensures forall x :: x in globalByParent + globals ==> Global(x) in Marked()
      ensures forall x :: x in staticByParent + statics ==> Local(base, x) in Marked()
    {
      hide Marks, Nodes, Select, Successors, Stands, References, Fine;
      globals, statics := NewDependents(methodName, globalByParent, staticByParent, base, n);
      ghost var kids := Nodes(base, globals, statics);
      Mark(base, globals, statics);
      AddDistinct(old(Marked()), kids);
      forall x | x in globals ensures Global(x) in kids { NodesIff(base, globals, statics, Global(x)); }
      forall x | x in statics ensures Local(base, x) in kids { NodesIff(base, globals, statics, Local(base, x)); }
      Resolved(w.analyses[base].symbolToFile[methodName], methodName, n);
    }

    /** Visit the newly marked dependents, first the global ones. */
    method VisitAll(globals: seq<Symbol>, statics: seq<Symbol>, depth: nat, globalByParent: seq<Symbol>, staticByParent: seq<Symbol>,
                    base: File, ghost r: iset<Node>, ghost roots: seq<Symbol>, ghost trail: seq<Node>, ghost marked: set<Node>,
                    ghost done: set<Node>, ghost start: nat)
      returns (ok: bool)
      requires WellAnalysed(w) && Closed(w, r) && depth <= MAX_DEPTH
      requires Progress(r, marked, done, start, Nodes(base, globals, statics), 0)
      requires |trail| == depth + 1
      requires forall m :: m in Nodes(base, globals, statics) ==> m in r && OnTrail(w, roots, trail + [m], marked, m)
      requires forall x :: x in globalByParent ==> Global(x) in marked
      requires forall x :: x in staticByParent ==> Local(base, x) in marked
      modifies this
      ensures ok ==> Progress(r, marked, done, start, Nodes(base, globals, statics), |globals| + |statics|)
      ensures !ok ==> SomeExit(w, roots)
      decreases MAX_DEPTH - depth, 3
    {
      hide Progress, OnTrail;
      ghost var kids := Nodes(base, globals, statics);
      var i := 0;
      while i < |globals|
        invariant 0 <= i <= |globals|
        invariant Progress(r, marked, done, start, kids, i)
      {
        ok := DescendOne(kids, i, globals[i], depth, globalByParent, [], None, r, roots, trail, marked, done, start);
        if !ok { return; }
        i := i + 1;
      }
      i := 0;
      while i < |statics|
        invariant 0 <= i <= |statics|
        invariant Progress(r, marked, done, start, kids, |globals| + i)
      {
        ok := DescendOne(kids, |globals| + i, statics[i], depth, globalByParent, staticByParent, Some(base), r, roots, trail,
                         marked, done, start);
        if !ok { return; }
        i := i + 1;
      }
      ok := true;
    }

    method DescendOne(ghost kids: seq<Node>, ghost k: nat, name: Symbol, depth: nat, globalByParent: seq<Symbol>,
                      staticByParent: seq<Symbol>, base: Option<File>, ghost r: iset<Node>, ghost roots: seq<Symbol>,
                      ghost trail: seq<Node>, ghost marked: set<Node>, ghost done: set<Node>, ghost start: nat)
      returns (ok: bool)
      requires WellAnalysed(w) && Closed(w, r) && depth <= MAX_DEPTH
      requires k < |kids| && Progress(r, marked, done, start, kids, k)
      requires kids[k] == NodeOf(base, name) && kids[k] in r
      requires OnTrail(w, roots, trail + [kids[k]], marked, kids[k]) && |trail| == depth + 1
      requires forall x :: x in globalByParent ==> Global(x) in marked
      requires base.None? ==> staticByParent == []
      requires forall x :: x in staticByParent ==> NodeOf(base, x) in marked
      modifies this
      ensures ok ==> Progress(r, marked, done, start, kids, k + 1)
      ensures !ok ==> SomeExit(w, roots)
      decreases MAX_DEPTH - depth, 2
    {
      TrailStays(w, roots, trail + [kids[k]], marked, Marked(), kids[k]);
      ok := DeepResolve(name, depth + 1, globalByParent, staticByParent, base, r, roots, trail + [kids[k]]);
    }

    /** The dependents that no one has visited, by name space. With them, all
        successors are marked or about to be. */
    method NewDependents(methodName: Symbol, globalByParent: seq<Symbol>, staticByParent: seq<Symbol>, base: File, ghost n: Node)
      returns (globals: seq<Symbol>, statics: seq<Symbol>)
      requires WellAnalysed(w)
      requires n.name == methodName && BaseOf(w, n) == Some(base) && PlaceOf(w, n).Some? && methodName !in w.mocked
      requires forall x :: x in globalByParent ==> Global(x) in Marked()
      requires forall x :: x in staticByParent ==> Local(base, x) in Marked()
      ensures
        var kids := Nodes(base, globals, statics);
        && Distinct(kids)
        && (forall m :: m in kids ==> m !in Marked() && m in Successors(w, n))
        && (forall m :: m in Successors(w, n) ==> m in Marked() || m in kids)
    {
      var analysis := w.analyses[base];
      var dependents := References(w, base, methodName);
      globals := Pick(dependents, analysis.statics, false, globalByParent + resolvedGlobal);
      var seen := if base in resolvedStatic then resolvedStatic[base] else [];
      statics := Pick(dependents, analysis.statics, true, staticByParent + seen);
      var outG, outS := globalByParent + resolvedGlobal, staticByParent + seen;
      forall x | x in outG ensures Global(x) in Marked() { MarksIff(resolvedGlobal, resolvedStatic, Global(x)); }
      forall x | x in outS ensures Local(base, x) in Marked() { MarksIff(resolvedGlobal, resolvedStatic, Local(base, x)); }
      KidsRight(w, n, base, outG, outS, resolvedGlobal, resolvedStatic);
    }

    /** The symbol cannot be resolved: note it once. */
    method Unresolved(name: Symbol, ghost n: Node)
      requires Faithful() && Descended() && n.name == name && PlaceOf(w, n).None? && Fine(w, n)
      modifies `unresolved, `processed, `calls
      ensures Faithful() && Descended() && processed == old(processed) + {n} && calls == old(calls) + 1
    {
      if name !in unresolved { unresolved := unresolved + [name]; }
      Process(n);
    }

    /** One more processed symbol. */
    ghost method Process(n: Node)
      requires Descended() && Fine(w, n) && forall m :: m in Successors(w, n) ==> m in Marked()
      modifies `processed, `calls
      ensures Descended() && processed == old(processed) + {n} && calls == old(calls) + 1
      ensures forall x, place :: Stands(w, processed, x, place) <==>
        Stands(w, old(processed), x, place) || (x == n.name && place == PlaceOf(w, n))
    {
      StandsAdd(w, processed, n);
      processed := processed + {n};
      calls := calls + 1;
    }

    /** The symbol goes to the output. */
    method Resolved(place: File, name: Symbol, ghost n: Node)
      requires Faithful() && Descended() && n.name == name && PlaceOf(w, n) == Some(place) && Fine(w, n)
      requires forall m :: m in Successors(w, n) ==> m in Marked()
      modifies `symbolsToOutput, `processed, `calls
      ensures Faithful() && Descended() && processed == old(processed) + {n} && calls == old(calls) + 1
    {
      var before := if place in symbolsToOutput then symbolsToOutput[place] else [];
      symbolsToOutput := symbolsToOutput[place := before + [name]];
      Process(n);
      forall f, x ensures Outputs(f, x) <==> old(Outputs(f, x)) || (f == place && x == name) {}
    }

    /** Mark dependents, in both name spaces. */
    method Mark(base: File, globals: seq<Symbol>, statics: seq<Symbol>)
      requires Faithful() && Descended()
      modifies `resolvedGlobal, `resolvedStatic
      ensures Marked() == old(Marked()) + Members(Nodes(base, globals, statics))
      ensures Faithful() && Descended()
    {
      resolvedGlobal := resolvedGlobal + globals;
      var seen := if base in resolvedStatic then resolvedStatic[base] else [];
      resolvedStatic := resolvedStatic[base := seen + statics];
      assert Marked() == old(Marked()) + Members(Nodes(base, globals, statics));
      forall n, m | n in processed && m in Successors(w, n) ensures m in Marked() {
        assert m in old(Marked());
      }
    }
  }

  /** The processed symbols are the reachable ones, once every marked one is processed. */
  lemma ProcessedIsReachable(w: World, roots: seq<Symbol>, processed: set<Node>, marked: set<Node>)
    requires forall n, m :: n in processed && m in Successors(w, n) ==> m in marked
    requires marked <= processed && forall x :: x in roots ==> Global(x) in processed
    requires forall n :: n in processed ==> Reachable(w, roots, n)
    ensures forall n :: n in processed <==> Reachable(w, roots, n)
  {
    var all := iset n | n in processed;
    assert Closed(w, all);
    forall n | Reachable(w, roots, n) ensures n in processed {
      var p: seq<Node> :| IsPath(w, p) && p[0].Global? && p[0].name in roots && p[|p| - 1] == n;
      assert p[0] == Global(p[0].name);
      ClosedHoldsPath(w, all, p);
    }
  }

  /** The script's calls for all roots. When none of them exits, the symbols put out are
      exactly the resolvable ones among those reachable from the roots, the unresolved
      ones are the other reachable ones, and besides one call for each root there is
      one call for each marked symbol. The script exits only at the end of a trail: at a
      blocked symbol, at one without analysis, or below more than 100 different symbols.
      Where no trail is that long, and in particular where at most 100 symbols are
      reachable, it exits if and only if some reachable symbol is one of the first two. */
  method ResolveRoots(w: World, roots: seq<Symbol>) returns (ok: bool, runner: Runner)
    requires WellAnalysed(w)
    ensures fresh(runner) && runner.w == w
    ensures ok ==> forall f, x :: runner.Outputs(f, x) <==> ReachableAs(w, roots, x, Some(f))
    ensures ok ==> forall x :: x in runner.unresolved <==> ReachableAs(w, roots, x, None)
    ensures ok ==> runner.calls == |roots| + |runner.Marked()|
    ensures ok ==> forall n :: n in runner.Marked() ==> Reachable(w, roots, n)
    ensures ok ==> AllFine(w, roots)
    ensures !ok ==> SomeExit(w, roots)
    ensures ShortTrails(w, roots) || FewSymbols(w, roots) ==> (ok <==> AllFine(w, roots))
  {
    hide IsTrail, Exits, Fine, Reachable, IsPath, Marks, Stands, ReachableAs, OnTrail, SomeExit, ShortTrails, FewSymbols;
    runner := new Runner(w);
    ghost var r := iset n | Reachable(w, roots, n);
    ReachableClosed(w, roots);
    var i := 0;
    while i < |roots|
      invariant 0 <= i <= |roots| && fresh(runner) && runner.w == w
      invariant runner.Faithful() && runner.Descended() && runner.Within(r)
      invariant runner.Marked() <= runner.processed
      invariant forall j :: 0 <= j < i ==> Global(roots[j]) in runner.processed
      invariant runner.calls == i + |runner.Marked()|
    {
      TrailStarts(w, roots, i, runner.Marked());
      ok := runner.DeepResolve(roots[i], 0, [], [], None, r, roots, [Global(roots[i])]);
      if !ok {
        ExitsIff(w, roots);
        return;
      }
      i := i + 1;
    }
    ok := true;
    ProcessedIsReachable(w, roots, runner.processed, runner.Marked());
    StandsForReachable(w, roots, runner.processed);
  }

  /** The script can visit every reachable symbol. */
  ghost predicate AllFine(w: World, roots: seq<Symbol>) {
    forall n :: Reachable(w, roots, n) ==> Fine(w, n)
  }

  lemma TrailStarts(w: World, roots: seq<Symbol>, i: nat, marked: set<Node>)
    requires i < |roots|
    ensures OnTrail(w, roots, [Global(roots[i])], marked, Global(roots[i]))
  {}

  lemma ExitsIff(w: World, roots: seq<Symbol>)
    requires SomeExit(w, roots)
    ensures ShortTrails(w, roots) || FewSymbols(w, roots) ==> !AllFine(w, roots)
  {
    hide Reachable, Fine, Successors, FewSymbols;
    var p: seq<Node> :| IsTrail(w, roots, p) && Exits(w, p[|p| - 1], |p| - 1);
    TrailReaches(w, roots, p, |p| - 1);
    if FewSymbols(w, roots) { FewSymbolsShortTrails(w, roots); }
  }

  lemma StandsForReachable(w: World, roots: seq<Symbol>, processed: set<Node>)
    requires forall n :: n in processed <==> Reachable(w, roots, n)
    ensures forall x, place :: Stands(w, processed, x, place) <==> ReachableAs(w, roots, x, place)
  {}

  /** A symbol of this name and place is reachable from the roots. */
  ghost predicate ReachableAs(w: World, roots: seq<Symbol>, x: Symbol, place: Option<File>) {
    exists n :: Reachable(w, roots, n) && n.name == x && PlaceOf(w, n) == place
  }

  function Marks(globals: seq<Symbol>, statics: map<File, seq<Symbol>>): set<Node> {
    (set x | x in globals :: Global(x)) + (set f, x | f in statics && x in statics[f] :: Local(f, x))
  }

  lemma MarksIff(globals: seq<Symbol>, statics: map<File, seq<Symbol>>, n: Node)
    ensures n in Marks(globals, statics) <==>
      if n.Global? then n.name in globals else n.base in statics && n.name in statics[n.base]
  {}

  lemma NodesIff(base: File, globals: seq<Symbol>, statics: seq<Symbol>, n: Node)
    ensures n in Nodes(base, globals, statics) <==>
      if n.Global? then n.name in globals else n.base == base && n.name in statics
  {}

  lemma NodesDistinct(base: File, globals: seq<Symbol>, statics: seq<Symbol>)
    requires Distinct(globals) && Distinct(statics)
    ensures Distinct(Nodes(base, globals, statics))
  {}

  /** The picked dependents are the successors that are not marked, each once. */
  lemma KidsRight(w: World, n: Node, base: File, outG: seq<Symbol>, outS: seq<Symbol>,
                  resolvedGlobal: seq<Symbol>, resolvedStatic: map<File, seq<Symbol>>)
    requires WellAnalysed(w) && BaseOf(w, n) == Some(base) && PlaceOf(w, n).Some? && n.name !in w.mocked
    requires forall x :: x in outG ==> Global(x) in Marks(resolvedGlobal, resolvedStatic)
    requires forall x :: x in outS ==> Local(base, x) in Marks(resolvedGlobal, resolvedStatic)
    requires forall x :: x in resolvedGlobal ==> x in outG
    requires base in resolvedStatic ==> forall x :: x in resolvedStatic[base] ==> x in outS
    ensures
      var refs, statics, marks := References(w, base, n.name), w.analyses[base].statics, Marks(resolvedGlobal, resolvedStatic);
      var kids := Nodes(base, Select(refs, statics, false, outG), Select(refs, statics, true, outS));
      && Distinct(kids)
      && (forall m :: m in kids ==> m !in marks && m in Successors(w, n))
      && (forall m :: m in Successors(w, n) ==> m in marks || m in kids)
  {
    var refs, statics := References(w, base, n.name), w.analyses[base].statics;
    var globals, locals := Select(refs, statics, false, outG), Select(refs, statics, true, outS);
    NodesDistinct(base, globals, locals);
    hide Marks, Nodes, Select;
    forall m | m in Nodes(base, globals, locals) ensures m !in Marks(resolvedGlobal, resolvedStatic) && m in Successors(w, n) {
      NodesIff(base, globals, locals, m);
      MarksIff(resolvedGlobal, resolvedStatic, m);
      assert m == Target(w, base, m.name);
    }
    forall m | m in Successors(w, n) ensures m in Marks(resolvedGlobal, resolvedStatic) || m in Nodes(base, globals, locals) {
      NodesIff(base, globals, locals, m);
    }
  }

  function NodeOf(staticBase: Option<File>, name: Symbol): Node {
    if staticBase.Some? then Local(staticBase.value, name) else Global(name)
  }

  function Nodes(base: File, globals: seq<Symbol>, statics: seq<Symbol>): (r: seq<Node>)
    ensures |r| == |globals| + |statics|
    ensures forall i :: 0 <= i < |globals| ==> r[i] == Global(globals[i])
    ensures forall i :: 0 <= i < |statics| ==> r[|globals| + i] == Local(base, statics[i])
  {
    seq(|globals|, i requires 0 <= i < |globals| => Global(globals[i])) +
    seq(|statics|, i requires 0 <= i < |statics| => Local(base, statics[i]))
  }

  method Pick(names: seq<Symbol>, statics: set<Symbol>, wantStatic: bool, out: seq<Symbol>) returns (r: seq<Symbol>)
    ensures r == Select(names, statics, wantStatic, out)
  {
    r := [];
    var i := 0;
    while i < |names|
      invariant 0 <= i <= |names| && r == Select(names[..i], statics, wantStatic, out)
    {
      assert names[..i + 1][..i] == names[..i];
      if (names[i] in statics <==> wantStatic) && names[i] !in out { r := r + [names[i]]; }
      i := i + 1;
    }
    assert names[..i] == names;
  }
}
