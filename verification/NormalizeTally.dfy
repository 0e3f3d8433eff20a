/** The walk does to its working state what the sum of the tree says. */
module NormalizeTally {
  import opened Common
  import opened NormalizeLengths
  import opened NormalizeWalk
  import opened NormalizeIds
  import opened NormalizeTrees
  import opened NormalizeGroup
  import opened NormalizeSums

  // ----- from one state to a later one

  /** Clean ids stay clean while the counter is right and nothing comes late; after that
      every id that is kept repeats another one or is no id at all. */
  ghost predicate Numbered(a: seq<int>, b: seq<int>, excess: int, s: Sum) {
    && a <= b && |b| == |a| + s.keeps
    && (excess >= 0 && Clean(a) ==> if (if excess > 0 then s.keeps == 0 else !s.late) then Clean(b) else !Unshared(b))
  }

  /** References are appended while a recording is on. */
  predicate Remember(a: Option<seq<int>>, b: Option<seq<int>>, count: Option<nat>) {
    if a.Some? && count.Some? then b.Some? && |b.value| == |a.value| + count.value else b.None?
  }

  ghost predicate Counts(a: State, b: State, s: Sum) {
    && Sized(a) && Sized(b) && a.consts <= b.consts && a.reused <= b.reused
    && |b.consts| == |a.consts| + s.count && b.nextId == a.nextId + s.shift
    && b.highestExtern == Max(a.highestExtern, s.extern)
    && Remember(a.refs, b.refs, s.refs)
    && Numbered(Fresh(a), Fresh(b), Excess(a), s)
  }

  /** An id that was handed out is held by a constant that did not take it over. */
  predicate HeldIn(id: int, ids: seq<int>) {
    id < 0 ==> -id in ids
  }

  ghost predicate AllHeld(refs: seq<int>, ids: seq<int>) {
    forall i :: 0 <= i < |refs| ==> HeldIn(refs[i], ids)
  }

  ghost predicate Held(st: State) {
    && Sized(st) && (forall i :: 0 <= i < |st.consts| ==> HeldIn(st.consts[i].paramId, Fresh(st)))
    && AllHeld(RefsOf(st), Fresh(st))
  }

  /** The same with the remembered target elements; while there are any, nothing is being
      recorded. */
  ghost predicate HeldWith(st: (State, seq<Entry>)) {
    && Held(st.0) && (st.1 != [] ==> st.0.refs.None?)
    && forall i :: 0 <= i < |st.1| ==> AllHeld(st.1[i].refs, Fresh(st.0))
  }

  ghost predicate Tally(a: State, b: State, s: Sum) {
    Counts(a, b, s) && (Held(a) ==> Held(b))
  }

  lemma NumberedTrans(a: seq<int>, b: seq<int>, c: seq<int>, excess: int, s: Sum, t: Sum)
    requires Numbered(a, b, excess, s) && Numbered(b, c, excess + s.keeps - s.shift, t)
    ensures Numbered(a, c, excess, Then(s, t))
  {
    hide Clean, Unshared;
    if Unshared(c) { SharedStays(b, c); }
  }

  lemma CountsTrans(a: State, b: State, c: State, s: Sum, t: Sum)
    requires Counts(a, b, s) && Counts(b, c, t)
    ensures Counts(a, c, Then(s, t))
  {
    NumberedTrans(Fresh(a), Fresh(b), Fresh(c), Excess(a), s, t);
    hide Numbered, FreshIds;
  }

  lemma TallyTrans(a: State, b: State, c: State, s: Sum, t: Sum)
    requires Tally(a, b, s) && Tally(b, c, t)
    ensures Tally(a, c, Then(s, t))
  {
    CountsTrans(a, b, c, s, t);
    hide Counts, Then;
  }

  lemma NothingTallies(st: State)
    requires Sized(st)
    ensures Tally(st, st, NOTHING)
  {
    if Unshared(Fresh(st)) && Clean(Fresh(st)) {}
  }

  lemma RecordTallies(st: State, location: nat)
    requires Sized(st)
    ensures Tally(st, Record(st, location), CONSTANT)
  {
    hide FreshIds, Clean, Unshared;
    var r, c := Record(st, location), ConstLoc(location, -1, -st.nextId);
    FreshIdsNext(st.consts, st.reused, c, false);
    assert Fresh(r) == Fresh(st) + [st.nextId];
    if Clean(Fresh(st)) && Excess(st) >= 0 { CleanNext(Fresh(st), st.nextId); }
  }

  lemma ParamTallies(st: State, number: nat)
    requires Sized(st)
    ensures Tally(st, Param(st, number), Effects(0, 0, Some(1), 0, false, number))
  {
    hide FreshIds;
  }

  lemma QuoteTallies(env: Env, st: State, arg: Node, start: Location)
    requires Sized(st)
    ensures Tally(st, RecordQuote(env, st, arg, start), QuoteSum(env, arg, start))
  {
    hide Tally;
    if arg.StringValue? && FindQuote(env, start).Some? {
      RecordTallies(st, FindQuote(env, start).value);
    } else {
      NothingTallies(st);
    }
  }

  // ----- walks

  lemma {:induction false} WalkTallies(env: Env, st: State, n: Node)
    requires Sized(st)
    ensures Tally(st, Walk(env, st, n), SumOf(env, n))
    decreases n, 1, 0
  {
    hide Tally, Walk, SumOf;
    match n {
      case DefElem(_, _, _) => DefElemTallies(env, st, n);
      case SortBy(_, key) =>
        WalkTallies(env, st, key);
        OneKid(env, st, n, key);
      case Wrapper(_, child) =>
        WalkTallies(env, st, child);
        OneKid(env, st, n, child);
      case Other(_, _) => OtherTallies(env, st, n);
      case Select(_, _, _, _, _, _, _) => SelectTallies(env, st, n);
      case _ => LeafTallies(env, st, n);
    }
  }

  lemma LeafTallies(env: Env, st: State, n: Node)
    requires Sized(st) && (n.Null? || n.AConst? || n.ParamRef? || n.StringValue? || n.TypeName?)
    ensures Tally(st, Walk(env, st, n), SumOf(env, n))
  {
    hide Tally;
    match n {
      case AConst(_, location) =>
        if location >= 0 { RecordTallies(st, location); } else { NothingTallies(st); }
      case ParamRef(number) => ParamTallies(st, number);
      case _ => NothingTallies(st);
    }
  }

  lemma OneKid(env: Env, st: State, n: Node, x: Node)
    requires (n.SortBy? && n.key == x) || (n.Wrapper? && n.child == x)
    ensures Walk(env, st, n) == Walk(env, st, x) && SumOf(env, n) == SumOf(env, x)
  {}

  lemma DefElemTallies(env: Env, st: State, n: Node)
    requires Sized(st) && n.DefElem?
    ensures Tally(st, Walk(env, st, n), SumOf(env, n))
    decreases n, 0
  {
    hide Tally, Walk, SumOf, RecordQuote, QuoteSum, Then;
    var next, s := RecordQuote(env, st, n.arg, n.start), QuoteSum(env, n.arg, n.start);
    DefElemUnfolds(env, st, n);
    QuoteTallies(env, st, n.arg, n.start);
    StaysSized(st, next, s);
    WalkTallies(env, next, n.arg);
    TallyTrans(st, next, Walk(env, next, n.arg), s, SumOf(env, n.arg));
  }

  lemma DefElemUnfolds(env: Env, st: State, n: Node)
    requires n.DefElem?
    ensures Walk(env, st, n) == Walk(env, RecordQuote(env, st, n.arg, n.start), n.arg)
    ensures SumOf(env, n) == Then(QuoteSum(env, n.arg, n.start), SumOf(env, n.arg))
  {
    hide RecordQuote, QuoteSum, Then;
  }

  lemma OtherTallies(env: Env, st: State, n: Node)
    requires Sized(st) && n.Other?
    ensures Tally(st, Walk(env, st, n), SumOf(env, n))
    decreases n, 0
  {
    hide Tally, Total, Sums, WalkAll;
    AllTally(env, st, n.children, |n.children|);
    assert Sums(env, n.children)[..|n.children|] == Sums(env, n.children);
  }

  lemma StaysSized(a: State, b: State, s: Sum)
    requires Tally(a, b, s)
    ensures Sized(b)
  {}

  lemma {:induction false} AllTally(env: Env, st: State, ns: seq<Node>, k: nat)
    requires Sized(st) && k <= |ns|
    ensures Tally(st, WalkAll(env, st, ns, k), Total(Sums(env, ns)[..k]))
    decreases ns, 0, k
  {
    hide Tally, Walk, SumOf;
    if k == 0 {
      NothingTallies(st);
    } else {
      var before, parts := WalkAll(env, st, ns, k - 1), Sums(env, ns);
      AllTally(env, st, ns, k - 1);
      StaysSized(st, before, Total(parts[..k - 1]));
      WalkTallies(env, before, ns[k - 1]);
      TallyTrans(st, before, WalkAll(env, st, ns, k), Total(parts[..k - 1]), parts[k - 1]);
      TotalNext(parts, k - 1);
    }
  }

  lemma {:induction false} SortTallies(env: Env, st: State, ns: seq<Node>, k: nat)
    requires Sized(st) && k <= |ns|
    ensures Tally(st, WalkSort(env, st, ns, k), Total(SortSums(env, ns)[..k]))
    decreases ns, 0, k
  {
    hide Tally, Walk, SumOf;
    if k == 0 {
      NothingTallies(st);
    } else {
      var before, parts := WalkSort(env, st, ns, k - 1), SortSums(env, ns);
      SortTallies(env, st, ns, k - 1);
      StaysSized(st, before, Total(parts[..k - 1]));
      if SkipsSort(ns[k - 1]) {
        NothingTallies(before);
      } else {
        WalkTallies(env, before, ns[k - 1]);
      }
      TallyTrans(st, before, WalkSort(env, st, ns, k), Total(parts[..k - 1]), parts[k - 1]);
      TotalNext(parts, k - 1);
    }
  }

  // ----- target elements

  /** One target element, with a recording of its own that is switched off at the end. */
  lemma TargetTallies(env: Env, st: State, ts: seq<Target>, k: nat)
    requires Sized(st) && k < |ts|
    ensures
      var end := WalkTarget(env, st, ts, k);
      && Tally(st, end.(refs := None), TargetSum(env, ts[k]).(refs := None))
      && |RefsOf(end)| == RefCount(env, ts[k])
      && (Held(st) ==> AllHeld(RefsOf(end), Fresh(end)))
    decreases ts, 0, k
  {
    assert ts[k].indirection < ts[k] && ts[k].value < ts[k];
    var t, start := ts[k], st.(refs := Some([]));
    var mid := Walk(env, start, t.indirection);
    hide Tally, Walk, SumOf, Then;
    WalkTallies(env, start, t.indirection);
    StaysSized(start, mid, SumOf(env, t.indirection));
    WalkTallies(env, mid, t.value);
    TallyTrans(start, mid, Walk(env, mid, t.value), SumOf(env, t.indirection), SumOf(env, t.value));
    StopRecording(st, Walk(env, mid, t.value), TargetSum(env, t));
  }

  lemma StopRecording(st: State, end: State, s: Sum)
    requires Sized(st) && Tally(st.(refs := Some([])), end, s)
    ensures Tally(st, end.(refs := None), s.(refs := None))
    ensures |RefsOf(end)| == if s.refs.Some? then s.refs.value else 0
    ensures Held(st) ==> AllHeld(RefsOf(end), Fresh(end))
  {
    hide FreshIds, Clean, Unshared;
    assert Held(st) ==> Held(st.(refs := Some([])));
  }

  /** What is remembered of the target elements. */
  ghost predicate Remembers(env: Env, table: seq<Entry>, ts: seq<Target>) {
    |table| <= |ts| && forall i :: 0 <= i < |table| ==> table[i].fp == env.fp(ts[i].value) && |table[i].refs| == RefCount(env, ts[i])
  }

  lemma {:induction false} TargetsTally(env: Env, st: State, ts: seq<Target>, k: nat)
    requires Sized(st) && k <= |ts|
    ensures
      var r := WalkTargets(env, st, ts, k);
      Counts(st, r.0, Total(TargetSums(env, ts)[..k])) && (Held(st) ==> HeldWith(r))
    decreases ts, 0, k
  {
    hide Counts, Held, HeldWith, AllHeld, Walk, WalkTarget, TargetSum, RefCount, FreshIds;
    if k == 0 {
      NothingTallies(st);
      EmptyTable(st);
    } else {
      var before, parts := WalkTargets(env, st, ts, k - 1), TargetSums(env, ts);
      var end := WalkTarget(env, before.0, ts, k - 1);
      TargetsTally(env, st, ts, k - 1);
      CountsSized(st, before.0, Total(parts[..k - 1]));
      TargetTallies(env, before.0, ts, k - 1);
      CountsTrans(st, before.0, end.(refs := None), Total(parts[..k - 1]), parts[k - 1]);
      TotalNext(parts, k - 1);
      TableGrows(before, end, parts[k - 1], Entry(env.fp(ts[k - 1].value), RefsOf(end)));
    }
  }

  lemma EmptyTable(st: State)
    ensures Held(st) ==> HeldWith((st, []))
  {}

  lemma {:induction false} TargetsRemembered(env: Env, st: State, ts: seq<Target>, k: nat)
    requires Sized(st) && k <= |ts|
    ensures Remembers(env, WalkTargets(env, st, ts, k).1, ts)
    decreases ts, 0, k
  {
    hide Counts, Tally, Held, HeldWith, AllHeld, Walk, WalkTarget, RefCount, FreshIds, Total, TargetSum, RefsOf;
    if k > 0 {
      var before := WalkTargets(env, st, ts, k - 1).0;
      TargetsRemembered(env, st, ts, k - 1);
      TargetsTally(env, st, ts, k - 1);
      CountsSized(st, before, Total(TargetSums(env, ts)[..k - 1]));
      TargetTallies(env, before, ts, k - 1);
    }
  }

  lemma CountsSized(a: State, b: State, s: Sum)
    requires Counts(a, b, s)
    ensures Sized(b) && Fresh(a) <= Fresh(b)
  {}

  lemma TableGrows(before: (State, seq<Entry>), end: State, s: Sum, e: Entry)
    requires Tally(before.0, end.(refs := None), s) && (Held(before.0) ==> AllHeld(e.refs, Fresh(end)))
    ensures HeldWith(before) ==> HeldWith((end.(refs := None), before.1 + [e]))
  {
    hide FreshIds;
  }

  lemma TableStays(a: State, b: State, s: Sum, table: seq<Entry>)
    requires Tally(a, b, s)
    ensures HeldWith((a, table)) ==> HeldWith((b, table))
  {
    hide FreshIds;
  }

  // ----- GROUP BY items

  /** The k-th item takes the references of the table entry it is matched with. */
  ghost predicate Takes(env: Env, table: seq<Entry>, ns: seq<Node>, k: nat)
    requires k < |ns|
  {
    var i := Match(env, Fps(table), ns, k);
    i < |table| && |table[i].refs| == SumOf(env, ns[k]).count
  }

  ghost function TableSums(env: Env, table: seq<Entry>, ns: seq<Node>): (r: seq<Sum>)
    ensures |r| == |ns| && forall k :: 0 <= k < |r| ==> r[k] == ItemSum(env, ns[k], Takes(env, table, ns, k))
  {
    seq<Sum>(|ns|, k requires 0 <= k < |ns| => ItemSum(env, ns[k], Takes(env, table, ns, k)))
  }

  lemma LendTallies(before: State, walked: State, refs: seq<int>, s: Sum)
    requires Tally(before, walked, s)
    ensures Counts(before, Lend(before, walked, refs), if |refs| == s.count then Taken(s) else s)
    ensures Held(before) && before.refs.None? && AllHeld(refs, Fresh(before)) ==> Held(Lend(before, walked, refs))
  {
    hide FreshIds, Lend, Clean, Unshared;
    if |refs| == s.count {
      LendShape(before, walked, refs);
      var r := Lend(before, walked, refs);
      if Clean(Fresh(before)) && Unshared(Fresh(before)) {}
      if Held(before) && before.refs.None? && AllHeld(refs, Fresh(before)) {
        forall i | 0 <= i < |r.consts| ensures HeldIn(r.consts[i].paramId, Fresh(r)) {
          if i >= |before.consts| { assert r.consts[|before.consts| + (i - |before.consts|)].paramId == refs[i - |before.consts|]; }
        }
      }
    } else {
      LendNot(before, walked, refs);
    }
  }

  lemma ItemTallies(env: Env, st: (State, seq<Entry>), ns: seq<Node>, k: nat)
    requires k < |ns| && Sized(WalkGroup(env, st, ns, k).0)
    ensures
      var before, after := WalkGroup(env, st, ns, k), WalkGroup(env, st, ns, k + 1);
      Counts(before.0, after.0, TableSums(env, st.1, ns)[k]) && (HeldWith(before) ==> HeldWith(after))
    decreases ns, 0, k
  {
    hide Walk, SumOf, Lend, Match, Find, Counts, Tally;
    var before := WalkGroup(env, st, ns, k);
    if IsIntegerConst(ns[k]) {
      NothingTallies(before.0);
      TallyCounts(before.0, before.0, NOTHING);
    } else {
      var walked := Walk(env, before.0, ns[k]);
      WalkTallies(env, before.0, ns[k]);
      FoundIsMatch(env, st, ns, k);
      var hit := Find(before.1, env.fp(ns[k]));
      if hit < |before.1| {
        LendTallies(before.0, walked, before.1[hit].refs, SumOf(env, ns[k]));
        EntryUsed(before, walked, hit, if Takes(env, st.1, ns, k) then Taken(SumOf(env, ns[k])) else SumOf(env, ns[k]));
      } else {
        TallyCounts(before.0, walked, SumOf(env, ns[k]));
        TableStays(before.0, walked, SumOf(env, ns[k]), before.1);
      }
    }
  }

  lemma TallyCounts(a: State, b: State, s: Sum)
    requires Tally(a, b, s)
    ensures Counts(a, b, s)
  {}

  /** The table after an entry was used up. */
  lemma EntryUsed(before: (State, seq<Entry>), walked: State, hit: nat, s: Sum)
    requires hit < |before.1|
    requires Counts(before.0, Lend(before.0, walked, before.1[hit].refs), s)
    requires Held(before.0) && before.0.refs.None? && AllHeld(before.1[hit].refs, Fresh(before.0)) ==>
      Held(Lend(before.0, walked, before.1[hit].refs))
    ensures HeldWith(before) ==> HeldWith((Lend(before.0, walked, before.1[hit].refs), before.1[..hit] + before.1[hit + 1..]))
  {
    hide FreshIds, Lend;
  }

  lemma {:induction false} GroupTallies(env: Env, st: (State, seq<Entry>), ns: seq<Node>, k: nat)
    requires Sized(st.0) && k <= |ns|
    ensures
      var r := WalkGroup(env, st, ns, k);
      Counts(st.0, r.0, Total(TableSums(env, st.1, ns)[..k])) && (HeldWith(st) ==> HeldWith(r))
    decreases ns, 0, k
  {
    hide Counts, Walk, Find, Lend, HeldWith, ItemSum;
    if k == 0 {
      NothingTallies(st.0);
      TallyCounts(st.0, st.0, NOTHING);
    } else {
      var before, parts := WalkGroup(env, st, ns, k - 1).0, TableSums(env, st.1, ns);
      GroupTallies(env, st, ns, k - 1);
      CountsSized(st.0, before, Total(parts[..k - 1]));
      ItemTallies(env, st, ns, k - 1);
      CountsTrans(st.0, before, WalkGroup(env, st, ns, k).0, Total(parts[..k - 1]), parts[k - 1]);
      TotalNext(parts, k - 1);
    }
  }

  // ----- a whole SELECT

  lemma TakesIsAgrees(env: Env, n: Node, table: seq<Entry>)
    requires n.Select? && Remembers(env, table, n.targets) && |table| == |n.targets|
    ensures TableSums(env, table, n.group) == ItemSums(env, n)
  {
    hide Match, RefCount, SumOf;
    assert Fps(table) == TargetFps(env, n.targets);
    forall k | 0 <= k < |n.group| ensures Takes(env, table, n.group, k) <==> Agrees(env, n, k) {}
  }

  lemma PartsTotal(env: Env, n: Node)
    requires n.Select?
    ensures
      var front := Then(Then(Total(Sums(env, n.before)), Total(TargetSums(env, n.targets))), Total(Sums(env, n.middle)));
      var rest := Then(Then(Total(ItemSums(env, n)), Total(SortSums(env, n.sort))), Total(Sums(env, n.after)));
      SumOf(env, n) == Then(front, rest)
  {
    SelectUnfolded(env, n);
    hide SumOf, Total, Then, Agrees, Sums, TargetSums, ItemSums, SortSums;
    TotalOfSix(Sums(env, n.before), TargetSums(env, n.targets), Sums(env, n.middle),
               ItemSums(env, n), SortSums(env, n.sort), Sums(env, n.after));
  }

  lemma TotalOfSix(a: seq<Sum>, b: seq<Sum>, c: seq<Sum>, d: seq<Sum>, e: seq<Sum>, f: seq<Sum>)
    ensures Total(a + b + c + d + e + f) == Then(Then(Then(Total(a), Total(b)), Total(c)), Then(Then(Total(d), Total(e)), Total(f)))
  {
    hide Total, Then;
    assert a + b + c + d + e + f == (a + b + c) + (d + e + f);
    TotalConcat(a, b);
    TotalConcat(a + b, c);
    TotalConcat(d, e);
    TotalConcat(d + e, f);
    TotalConcat(a + b + c, d + e + f);
  }

  lemma SelectTallies(env: Env, st: State, n: Node)
    requires Sized(st) && n.Select?
    ensures Tally(st, Walk(env, st, n), SumOf(env, n))
    decreases n, 0, 1
  {
    hide Walk, WalkAll, WalkTargets, WalkGroup, WalkSort, Counts, Then, Held, HeldWith, SumOf, Total, Remembers;
    var s1 := WalkAll(env, st, n.before, |n.before|);
    var s2 := WalkTargets(env, s1, n.targets, |n.targets|);
    var s3 := WalkAll(env, s2.0, n.middle, |n.middle|);
    FrontTallies(env, st, n);
    CountsSized(st, s3, Then(Then(Total(Sums(env, n.before)), Total(TargetSums(env, n.targets))), Total(Sums(env, n.middle))));
    RestTallies(env, (s3, s2.1), n);
    SelectUnfolds(env, st, n);
    PartsTotal(env, n);
    CountsTrans(st, s3, Walk(env, st, n),
                Then(Then(Total(Sums(env, n.before)), Total(TargetSums(env, n.targets))), Total(Sums(env, n.middle))),
                Then(Then(Total(ItemSums(env, n)), Total(SortSums(env, n.sort))), Total(Sums(env, n.after))));
  }

  /** The parts of a SELECT up to its GROUP BY clause. */
  lemma FrontTallies(env: Env, st: State, n: Node)
    requires Sized(st) && n.Select?
    ensures
      var s1 := WalkAll(env, st, n.before, |n.before|);
      var s2 := WalkTargets(env, s1, n.targets, |n.targets|);
      var s3 := WalkAll(env, s2.0, n.middle, |n.middle|);
      && Counts(st, s3, Then(Then(Total(Sums(env, n.before)), Total(TargetSums(env, n.targets))), Total(Sums(env, n.middle))))
      && (Held(st) ==> HeldWith((s3, s2.1))) && Remembers(env, s2.1, n.targets)
    decreases n, 0, 0
  {
    hide WalkAll, WalkTargets, Counts, Then, Held, HeldWith, SumOf, Total, Remembers;
    var s1 := WalkAll(env, st, n.before, |n.before|);
    var s2 := WalkTargets(env, s1, n.targets, |n.targets|);
    var s3 := WalkAll(env, s2.0, n.middle, |n.middle|);
    var a, b, c := Sums(env, n.before), TargetSums(env, n.targets), Sums(env, n.middle);
    assert a[..|a|] == a && b[..|b|] == b && c[..|c|] == c;
    AllTally(env, st, n.before, |n.before|);
    CountsSized(st, s1, Total(a));
    TargetsTally(env, s1, n.targets, |n.targets|);
    TargetsRemembered(env, s1, n.targets, |n.targets|);
    CountsSized(s1, s2.0, Total(b));
    AllTally(env, s2.0, n.middle, |n.middle|);
    TableStays(s2.0, s3, Total(c), s2.1);
    CountsTrans(st, s1, s2.0, Total(a), Total(b));
    CountsTrans(st, s2.0, s3, Then(Total(a), Total(b)), Total(c));
  }

  /** The parts from the GROUP BY clause on. */
  lemma RestTallies(env: Env, st: (State, seq<Entry>), n: Node)
    requires Sized(st.0) && n.Select? && Remembers(env, st.1, n.targets) && |st.1| == |n.targets|
    ensures
      var s4 := WalkGroup(env, st, n.group, |n.group|).0;
      var s5 := WalkSort(env, s4, n.sort, |n.sort|);
      var s6 := WalkAll(env, s5, n.after, |n.after|);
      && Counts(st.0, s6, Then(Then(Total(ItemSums(env, n)), Total(SortSums(env, n.sort))), Total(Sums(env, n.after))))
      && (HeldWith(st) ==> Held(s6))
    decreases n, 0, 0
  {
    TakesIsAgrees(env, n, st.1);
    hide WalkAll, WalkGroup, WalkSort, Counts, Then, Held, SumOf, Total, Remembers, Agrees, AllHeld;
    var s4 := WalkGroup(env, st, n.group, |n.group|).0;
    var s5 := WalkSort(env, s4, n.sort, |n.sort|);
    var s6 := WalkAll(env, s5, n.after, |n.after|);
    var d, e, f := ItemSums(env, n), SortSums(env, n.sort), Sums(env, n.after);
    assert d[..|d|] == d && e[..|e|] == e && f[..|f|] == f;
    GroupTallies(env, st, n.group, |n.group|);
    CountsSized(st.0, s4, Total(d));
    SortTallies(env, s4, n.sort, |n.sort|);
    CountsSized(s4, s5, Total(e));
    AllTally(env, s5, n.after, |n.after|);
    CountsTrans(st.0, s4, s5, Total(d), Total(e));
    CountsTrans(st.0, s5, s6, Then(Total(d), Total(e)), Total(f));
  }

  // ----- a whole GROUP BY list

  /** The walk of a GROUP BY list as a whole: the k-th item that takes references gives its
      constants, in order, those of the entry it is matched with, no later item changes
      them, and the id counter is back where it was unless the item gives ids back by
      itself. No two items are matched with the same entry (MatchInjective). */
  lemma GroupListReuse(env: Env, st: (State, seq<Entry>), ns: seq<Node>, k: nat)
    requires Sized(st.0) && k < |ns| && !IsIntegerConst(ns[k]) && Takes(env, st.1, ns, k)
    ensures
      var first, end := |WalkGroup(env, st, ns, k).0.consts|, WalkGroup(env, st, ns, |ns|).0;
      var refs := st.1[Match(env, Fps(st.1), ns, k)].refs;
      && first + |refs| <= |end.consts|
      && (forall j :: 0 <= j < |refs| ==> end.consts[first + j].paramId == refs[j])
      && (!GivesBack(env, ns[k]) ==> WalkGroup(env, st, ns, k + 1).0.nextId == WalkGroup(env, st, ns, k).0.nextId)
  {
    hide Walk, SumOf, Match, Find, Lend, Counts, HeldWith, Held, FreshIds, Total;
    GroupTallies(env, st, ns, k);
    CountsSized(st.0, WalkGroup(env, st, ns, k).0, Total(TableSums(env, st.1, ns)[..k]));
    FoundIsMatch(env, st, ns, k);
    var before := WalkGroup(env, st, ns, k);
    var hit := Find(before.1, env.fp(ns[k]));
    LentRefs(env, before.0, ns[k], before.1[hit].refs);
    GroupOnlyAppends(env, st, ns, k + 1, |ns|);
    assert Lend(before.0, Walk(env, before.0, ns[k]), before.1[hit].refs) == WalkGroup(env, st, ns, k + 1).0;
  }

  lemma LentRefs(env: Env, before: State, n: Node, refs: seq<int>)
    requires Sized(before) && |refs| == SumOf(env, n).count
    ensures
      var r := Lend(before, Walk(env, before, n), refs);
      && |r.consts| == |before.consts| + |refs|
      && (forall j :: 0 <= j < |refs| ==> r.consts[|before.consts| + j].paramId == refs[j])
      && (!GivesBack(env, n) ==> r.nextId == before.nextId)
  {
    hide Walk, SumOf, FreshIds;
    WalkTallies(env, before, n);
    LendShape(before, Walk(env, before, n), refs);
  }

  lemma {:induction false} GroupOnlyAppends(env: Env, st: (State, seq<Entry>), ns: seq<Node>, j: nat, k: nat)
    requires j <= k <= |ns| && Sized(st.0)
    ensures Sized(WalkGroup(env, st, ns, k).0) && WalkGroup(env, st, ns, j).0.consts <= WalkGroup(env, st, ns, k).0.consts
    decreases k
  {
    hide WalkGroup, TableSums, Total, Counts, HeldWith, Walk;
    GroupTallies(env, st, ns, k);
    CountsAppends(st.0, WalkGroup(env, st, ns, k).0, Total(TableSums(env, st.1, ns)[..k]));
    if j < k {
      var before := WalkGroup(env, st, ns, k - 1).0;
      GroupOnlyAppends(env, st, ns, j, k - 1);
      ItemTallies(env, st, ns, k - 1);
      CountsAppends(before, WalkGroup(env, st, ns, k).0, TableSums(env, st.1, ns)[k - 1]);
    }
  }

  lemma CountsAppends(a: State, b: State, s: Sum)
    requires Counts(a, b, s)
    ensures Sized(b) && a.consts <= b.consts
  {}
}
