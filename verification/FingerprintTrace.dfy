/** The token list beside the hash, and when the hypothesis of no collision holds. */
module FingerprintTrace {
  import opened Common
  import opened ParseTree
  import opened FingerprintWalk
  import opened FingerprintMeaning

  function Start(writing: bool): State {
    Fresh().(writing := writing)
  }

  /** The end of a pointer field keeps tokens and hash in step exactly when equal
      digests there mean that the child fed nothing. */
  lemma SettleInStepIff(digest: string -> nat, st: State, name: Name, after: State, m: string)
    requires st.writing && Flatten(st.tokens) == st.fed
    requires Fed(Feed(st, [name]), after, m)
    ensures
      var r := Settle(digest, st, Feed(st, [name]), after);
      Flatten(r.tokens) == r.fed <==> (digest(Feed(st, [name]).fed) == digest(after.fed) ==> m == "")
  {
    hide Flatten;
    var named := Feed(st, [name]);
    NamedSpells(st, name);
    FedSpells(named, after, m);
    var rest := after.tokens[|named.tokens|..];
    assert after.tokens == (st.tokens + [name]) + rest;
    DropLastToken(st.tokens, name, rest);
  }

  lemma NamedSpells(st: State, name: Name)
    requires st.writing && Flatten(st.tokens) == st.fed
    ensures Flatten(Feed(st, [name]).tokens) == Feed(st, [name]).fed
  {
    FlattenConcat(st.tokens, [name]);
  }

  /** Deleting the last token undoes exactly the name when nothing follows it. */
  lemma DropLastToken(t: seq<string>, name: Name, rest: seq<string>)
    ensures
      var all := (t + [name]) + rest;
      Flatten(all[..|all| - 1]) == Flatten(t) <==> rest == []
  {
    var all := (t + [name]) + rest;
    SingleToken(name);
    FlattenConcat(t, [name]);
    if rest == [] {
      assert all[..|all| - 1] == t;
    } else {
      assert all[..|all| - 1] == (t + [name]) + rest[..|rest| - 1];
      FlattenConcat(t + [name], rest[..|rest| - 1]);
    }
  }

  lemma FedSpells(a: State, b: State, m: string)
    requires a.writing && Flatten(a.tokens) == a.fed && Fed(a, b, m)
    ensures Flatten(b.tokens) == b.fed && (m == "" <==> b.tokens[|a.tokens|..] == [])
  {
    var rest := b.tokens[|a.tokens|..];
    assert b.tokens == a.tokens + rest;
    FlattenConcat(a.tokens, rest);
  }

  // ----- tokens and bytes through a whole walk

  /** Somewhere in the walk, outside of the contexts that only hash list items, a field is
      rolled back although its child fed something. */
  predicate Slips(lib: Lib, st: State, v: Visit)
    decreases v.node, 1, 0
  {
    var called := if v.direct then st else st.(calls := st.calls + 1);
    match PlanOf(v)
    case Steps(steps) => StepsSlip(lib, called, v, |steps|)
    case Canonical(kids) => PicksSlip(lib, Hashed(lib, called, v), v, |kids|)
  }

  predicate StepsSlip(lib: Lib, st: State, v: Visit, k: nat)
    requires PlanOf(v).Steps? && k <= |PlanOf(v).steps|
    decreases v.node, 0, k
  {
    k > 0 && (StepsSlip(lib, st, v, k - 1) || StepSlips(lib, WalkSteps(lib, st, v, k - 1), v, k - 1))
  }

  predicate StepSlips(lib: Lib, st: State, v: Visit, k: nat)
    requires PlanOf(v).Steps? && k < |PlanOf(v).steps|
    decreases v.node, 0, k
  {
    var step := PlanOf(v).steps[k];
    assert StepBelow(step, v);
    match step
    case Emit(_) => false
    case Plain(kid) => Slips(lib, st, kid)
    case Inlined(name, child) => Slips(lib, Feed(st, [name]), child)
    case Guarded(name, child) =>
      var named := Feed(st, [name]);
      Slips(lib, named, child) || FalseRollback(lib.digest, named, Walk(lib, named, child))
  }

  predicate FalseRollback(digest: string -> nat, named: State, after: State) {
    digest(named.fed) == digest(after.fed) && named.fed != after.fed
  }

  predicate PicksSlip(lib: Lib, st: State, v: Visit, k: nat)
    requires PlanOf(v).Canonical? && k <= |PlanOf(v).kids|
    decreases v.node, 0, k
  {
    k > 0 &&
    (|| PicksSlip(lib, st, v, k - 1)
     || var sorted := SortedItems(lib, v);
        !IsDuplicate(sorted, k - 1) && Slips(lib, WalkPicks(lib, st, v, k - 1), PlanOf(v).kids[sorted[k - 1].pos]))
  }

  /** From `a` to `b` tokens and bytes grew alike, or, after a slip, the tokens by more. */
  ghost predicate Tracks(a: State, b: State, slips: bool) {
    && a.writing && b.writing && a.tokens <= b.tokens && a.fed <= b.fed
    && var grown := Flatten(b.tokens[|a.tokens|..]);
       && (if slips then |b.fed| < |a.fed| + |grown| else b.fed == a.fed + grown)
       && (grown == "" ==> b.tokens == a.tokens)
  }

  lemma TracksTrans(a: State, b: State, c: State, first: bool, second: bool)
    requires Tracks(a, b, first) && Tracks(b, c, second)
    ensures Tracks(a, c, first || second)
  {
    assert c.tokens[|a.tokens|..] == b.tokens[|a.tokens|..] + c.tokens[|b.tokens|..];
    FlattenConcat(b.tokens[|a.tokens|..], c.tokens[|b.tokens|..]);
  }

  lemma FeedTracks(st: State, tokens: seq<string>)
    requires st.writing && Speaks(tokens)
    ensures Tracks(st, Feed(st, tokens), false)
  {
    assert (st.tokens + tokens)[|st.tokens|..] == tokens;
  }

  lemma {:induction false} WalkTracks(lib: Lib, st: State, v: Visit)
    requires st.writing
    ensures Tracks(st, Walk(lib, st, v), Slips(lib, st, v))
    decreases v.node, 1, 0
  {
    hide Tracks, Flatten;
    var called := if v.direct then st else st.(calls := st.calls + 1);
    match PlanOf(v) {
      case Steps(steps) =>
        StepsTrack(lib, called, v, |steps|);
        TracksIgnores(st, called, Walk(lib, st, v), Slips(lib, st, v));
      case Canonical(kids) =>
        PicksTrack(lib, Hashed(lib, called, v), v, |kids|);
        TracksIgnores(st, Hashed(lib, called, v), Walk(lib, st, v), Slips(lib, st, v));
    }
  }

  lemma TracksIgnores(a: State, a': State, b: State, slips: bool)
    requires Tracks(a', b, slips) && a.fed == a'.fed && a.tokens == a'.tokens && a.writing == a'.writing
    ensures Tracks(a, b, slips)
  {}

  lemma TracksRefl(a: State)
    requires a.writing
    ensures Tracks(a, a, false)
  {}

  lemma {:induction false} StepsTrack(lib: Lib, st: State, v: Visit, k: nat)
    requires PlanOf(v).Steps? && k <= |PlanOf(v).steps| && st.writing
    ensures Tracks(st, WalkSteps(lib, st, v, k), StepsSlip(lib, st, v, k))
    decreases v.node, 0, k
  {
    hide Tracks, PlanOf, WalkStep, StepSlips;
    if k == 0 {
      TracksRefl(st);
    } else {
      var before := WalkSteps(lib, st, v, k - 1);
      StepsTrack(lib, st, v, k - 1);
      StepTracks(lib, before, v, k - 1);
      TracksTrans(st, before, WalkSteps(lib, st, v, k), StepsSlip(lib, st, v, k - 1), StepSlips(lib, before, v, k - 1));
    }
  }

  lemma {:induction false} StepTracks(lib: Lib, st: State, v: Visit, k: nat)
    requires PlanOf(v).Steps? && k < |PlanOf(v).steps| && st.writing
    ensures Tracks(st, WalkStep(lib, st, v, k), StepSlips(lib, st, v, k))
    decreases v.node, 0, k
  {
    hide Tracks, PlanOf, Settle, Walk, Slips, Flatten, FalseRollback;
    var step := PlanOf(v).steps[k];
    assert StepBelow(step, v);
    match step {
      case Emit(tokens) => FeedTracks(st, tokens);
      case Plain(kid) => WalkTracks(lib, st, kid);
      case Inlined(name, child) =>
        var named := Feed(st, [name]);
        SingleToken(name);
        FeedTracks(st, [name]);
        WalkTracks(lib, named, child);
        TracksTrans(st, named, Walk(lib, named, child), false, Slips(lib, named, child));
      case Guarded(name, child) =>
        var named := Feed(st, [name]);
        WalkTracks(lib, named, child);
        SettleTracks(lib.digest, st, name, Walk(lib, named, child), Slips(lib, named, child));
    }
  }

  /** A rollback of a silent child leaves nothing; any other leaves the name, at least, in
      the tokens and nothing in the hash. */
  lemma SettleTracks(digest: string -> nat, st: State, name: Name, after: State, slips: bool)
    requires st.writing && Tracks(Feed(st, [name]), after, slips) && Grows(Feed(st, [name]), after)
    ensures Tracks(st, Settle(digest, st, Feed(st, [name]), after), slips || FalseRollback(digest, Feed(st, [name]), after))
  {
    var named := Feed(st, [name]);
    FeedTracks(st, [name]);
    if digest(named.fed) != digest(after.fed) {
      hide Tracks, Feed;
      TracksTrans(st, named, after, false, slips);
    } else {
      var rest := after.tokens[|named.tokens|..];
      RolledBack(st, name, after, rest);
      SingleToken(name);
      hide Flatten;
    }
  }

  /** What the deletion of the last token leaves behind the tokens of before. */
  lemma RolledBack(st: State, name: Name, after: State, rest: seq<string>)
    requires st.tokens + [name] <= after.tokens && rest == after.tokens[|st.tokens| + 1..]
    ensures
      var left := after.tokens[..|after.tokens| - 1];
      && st.tokens <= left
      && (if rest == [] then left == st.tokens else |Flatten(left[|st.tokens|..])| >= |name|)
  {
    var left := after.tokens[..|after.tokens| - 1];
    if rest != [] {
      var grown := [name] + rest[..|rest| - 1];
      assert left[|st.tokens|..] == grown;
      FlattenHead(grown);
    }
  }

  lemma {:induction false} PicksTrack(lib: Lib, st: State, v: Visit, k: nat)
    requires PlanOf(v).Canonical? && k <= |PlanOf(v).kids| && st.writing
    ensures Tracks(st, WalkPicks(lib, st, v, k), PicksSlip(lib, st, v, k))
    decreases v.node, 0, k
  {
    hide Tracks, Slips, Walk, SortedItems;
    if k == 0 {
      TracksRefl(st);
    } else {
      var before := WalkPicks(lib, st, v, k - 1);
      var sorted := SortedItems(lib, v);
      PicksTrack(lib, st, v, k - 1);
      if !IsDuplicate(sorted, k - 1) {
        var kid := PlanOf(v).kids[sorted[k - 1].pos];
        WalkTracks(lib, before, kid);
        TracksTrans(st, before, WalkPicks(lib, st, v, k), PicksSlip(lib, st, v, k - 1), Slips(lib, before, kid));
      }
    }
  }

  /** Main result: the tokens of a walk, put together, are the bytes fed if and only if
      the walk never rolls back a field whose child fed something. */
  lemma TokensSpellBytesIff(lib: Lib, tree: Node)
    ensures
      var end := Walk(lib, Start(true), Root(tree));
      Flatten(end.tokens) == end.fed <==> !Slips(lib, Start(true), Root(tree))
  {
    hide Walk, Slips, Flatten;
    var end := Walk(lib, Start(true), Root(tree));
    WalkTracks(lib, Start(true), Root(tree));
    assert end.tokens[0..] == end.tokens;
  }

  /** `SELECT *` under a digest that confuses two texts: the hash forgets the star, the
      tokens keep the field it hung on. */
  const STAR: Node := Struct("RawStmt", [Field("stmt", Pointer(NodePtr, Struct("A_Star", [])))])

  const STAR_VISIT: Visit := Visit(Struct("A_Star", []), Some("RawStmt"), Some("stmt"), 1, false)

  lemma StarPlans()
    ensures PlanOf(Root(STAR)) == Steps([Emit(["RawStmt"]), Guarded("stmt", STAR_VISIT)])
    ensures PlanOf(STAR_VISIT) == Steps([Emit(["A_Star"])])
  {
    var v := Root(STAR);
    assert FieldSteps(v) == [FieldStep(v, 0)];
    assert [Emit(["RawStmt"])] + FieldSteps(v) == [Emit(["RawStmt"]), Guarded("stmt", STAR_VISIT)];
  }

  lemma StarRollsBack(lib: Lib, st: State)
    requires st.writing && lib.digest(st.fed + "stmt") == lib.digest(st.fed + "stmt" + "A_Star")
    ensures
      var r := WalkStep(lib, st, Root(STAR), 1);
      r.fed == st.fed && r.tokens == st.tokens + ["stmt"] && StepSlips(lib, st, Root(STAR), 1)
  {
    StarPlans();
    SingleToken("stmt");
    SingleToken("A_Star");
    hide PlanOf, Flatten, Walk, Slips;
    var all := st.tokens + ["stmt"] + ["A_Star"];
    assert all[..|all| - 1] == st.tokens + ["stmt"];
  }

  lemma SlipWitness(lib: Lib)
    requires lib.digest("RawStmtstmt") == lib.digest("RawStmtstmtA_Star")
    ensures
      var end := Walk(lib, Start(true), Root(STAR));
      end.fed == "RawStmt" && end.tokens == ["RawStmt", "stmt"] && Slips(lib, Start(true), Root(STAR))
  {
    StarPlans();
    SingleToken("RawStmt");
    hide PlanOf, Flatten, StepSlips, Settle;
    var st := Start(true).(calls := 1);
    var one := Feed(st, ["RawStmt"]);
    assert one.fed + "stmt" == "RawStmtstmt" && one.fed + "stmt" + "A_Star" == "RawStmtstmtA_Star";
    StarRollsBack(lib, one);
  }

  // ----- writing tokens does not influence the hash

  /** Equal but for the tokens and the count of calls. */
  predicate SameHash(a: State, b: State) {
    a.fed == b.fed && a.collided == b.collided
  }

  lemma {:induction false} WritingDoesNotMatter(lib: Lib, a: State, b: State, v: Visit)
    requires SameHash(a, b)
    ensures SameHash(Walk(lib, a, v), Walk(lib, b, v))
    decreases v.node, 1, 0
  {
    var a', b' := if v.direct then a else a.(calls := a.calls + 1), if v.direct then b else b.(calls := b.calls + 1);
    match PlanOf(v) {
      case Steps(steps) => WritingDoesNotMatterSteps(lib, a', b', v, |steps|);
      case Canonical(kids) => WritingDoesNotMatterPicks(lib, Hashed(lib, a', v), Hashed(lib, b', v), v, |kids|);
    }
  }

  lemma {:induction false} WritingDoesNotMatterSteps(lib: Lib, a: State, b: State, v: Visit, k: nat)
    requires PlanOf(v).Steps? && k <= |PlanOf(v).steps| && SameHash(a, b)
    ensures SameHash(WalkSteps(lib, a, v, k), WalkSteps(lib, b, v, k))
    decreases v.node, 0, k
  {
    if k > 0 {
      WritingDoesNotMatterSteps(lib, a, b, v, k - 1);
      WritingDoesNotMatterStep(lib, WalkSteps(lib, a, v, k - 1), WalkSteps(lib, b, v, k - 1), v, k - 1);
    }
  }

  lemma {:induction false} WritingDoesNotMatterStep(lib: Lib, a: State, b: State, v: Visit, k: nat)
    requires PlanOf(v).Steps? && k < |PlanOf(v).steps| && SameHash(a, b)
    ensures SameHash(WalkStep(lib, a, v, k), WalkStep(lib, b, v, k))
    decreases v.node, 0, k
  {
    var step := PlanOf(v).steps[k];
    assert StepBelow(step, v);
    match step {
      case Emit(_) =>
      case Plain(kid) => WritingDoesNotMatter(lib, a, b, kid);
      case Inlined(name, child) => WritingDoesNotMatter(lib, Feed(a, [name]), Feed(b, [name]), child);
      case Guarded(name, child) => WritingDoesNotMatter(lib, Feed(a, [name]), Feed(b, [name]), child);
    }
  }

  lemma {:induction false} WritingDoesNotMatterPicks(lib: Lib, a: State, b: State, v: Visit, k: nat)
    requires PlanOf(v).Canonical? && k <= |PlanOf(v).kids| && SameHash(a, b)
    ensures SameHash(WalkPicks(lib, a, v, k), WalkPicks(lib, b, v, k))
    decreases v.node, 0, k
  {
    if k > 0 {
      WritingDoesNotMatterPicks(lib, a, b, v, k - 1);
      var sorted := SortedItems(lib, v);
      if !IsDuplicate(sorted, k - 1) {
        WritingDoesNotMatter(lib, WalkPicks(lib, a, v, k - 1), WalkPicks(lib, b, v, k - 1), PlanOf(v).kids[sorted[k - 1].pos]);
      }
    }
  }

  // ----- a digest that tells all texts apart never collides

  ghost predicate Injective(digest: string -> nat) {
    forall a, b :: digest(a) == digest(b) ==> a == b
  }

  lemma {:induction false} InjectiveNeverCollides(lib: Lib, st: State, v: Visit)
    requires Injective(lib.digest) && !st.collided
    ensures !Walk(lib, st, v).collided
    decreases v.node, 1, 0
  {
    hide PlanOf, HashingCollides;
    var called := if v.direct then st else st.(calls := st.calls + 1);
    match PlanOf(v) {
      case Steps(steps) => InjectiveSteps(lib, called, v, |steps|);
      case Canonical(kids) =>
        InjectiveHashing(lib, v, |kids|);
        InjectivePicks(lib, Hashed(lib, called, v), v, |kids|);
    }
  }

  lemma {:induction false} InjectiveSteps(lib: Lib, st: State, v: Visit, k: nat)
    requires PlanOf(v).Steps? && k <= |PlanOf(v).steps| && Injective(lib.digest) && !st.collided
    ensures !WalkSteps(lib, st, v, k).collided
    decreases v.node, 0, k
  {
    if k > 0 {
      InjectiveSteps(lib, st, v, k - 1);
      var before := WalkSteps(lib, st, v, k - 1);
      var step := PlanOf(v).steps[k - 1];
      assert StepBelow(step, v);
      match step {
        case Emit(_) =>
        case Plain(kid) => InjectiveNeverCollides(lib, before, kid);
        case Inlined(name, child) => InjectiveNeverCollides(lib, Feed(before, [name]), child);
        case Guarded(name, child) => InjectiveNeverCollides(lib, Feed(before, [name]), child);
      }
    }
  }

  lemma {:induction false} InjectiveHashing(lib: Lib, v: Visit, k: nat)
    requires PlanOf(v).Canonical? && k <= |PlanOf(v).kids| && Injective(lib.digest)
    ensures !HashingCollides(lib, v, k)
    decreases v.node, 0, k
  {
    if k > 0 {
      InjectiveHashing(lib, v, k - 1);
      InjectiveNeverCollides(lib, Fresh(), PlanOf(v).kids[k - 1]);
    }
  }

  lemma {:induction false} InjectivePicks(lib: Lib, st: State, v: Visit, k: nat)
    requires PlanOf(v).Canonical? && k <= |PlanOf(v).kids| && Injective(lib.digest) && !st.collided
    ensures !WalkPicks(lib, st, v, k).collided
    decreases v.node, 0, k
  {
    if k > 0 {
      InjectivePicks(lib, st, v, k - 1);
      var sorted := SortedItems(lib, v);
      if !IsDuplicate(sorted, k - 1) {
        InjectiveNeverCollides(lib, WalkPicks(lib, st, v, k - 1), PlanOf(v).kids[sorted[k - 1].pos]);
      }
    }
  }
}
