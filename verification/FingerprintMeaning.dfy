/** What the bytes fed by a walk mean: a denotation of trees in which the order,
    the repetition and the silent members of sorted lists do not exist, and the
    proof that a walk without digest collisions feeds exactly that. */
module FingerprintMeaning {
  import opened ParseTree
  import opened FingerprintWalk

  // ----- canonical concatenation of a set of texts

  /** A member with the greatest digest. */
  ghost function Last(digest: string -> nat, texts: set<string>): (m: string)
    requires texts != {}
    ensures m in texts && forall x :: x in texts ==> digest(x) <= digest(m)
  {
    LastExists(digest, texts);
    var m :| m in texts && forall x :: x in texts ==> digest(x) <= digest(m);
    m
  }

  lemma {:induction false} LastExists(digest: string -> nat, texts: set<string>)
    requires texts != {}
    ensures exists m :: m in texts && forall x :: x in texts ==> digest(x) <= digest(m)
    decreases |texts|
  {
    var y :| y in texts;
    if texts - {y} != {} {
      LastExists(digest, texts - {y});
      var m :| m in texts - {y} && forall x :: x in texts - {y} ==> digest(x) <= digest(m);
      var top := if digest(m) <= digest(y) then y else m;
      assert forall x :: x in texts ==> x == y || x in texts - {y};
      assert top in texts && forall x :: x in texts ==> digest(x) <= digest(top);
    } else {
      assert texts == {y};
    }
  }

  /** The texts of a set, one after the other, in the order of their digests. */
  ghost function Join(digest: string -> nat, texts: set<string>): string {
    if texts == {} then ""
    else
      var m := Last(digest, texts);
      Join(digest, texts - {m}) + m
  }

  // ----- the denotation

  ghost function Meaning(digest: string -> nat, v: Visit): string
    decreases v.node, 1, 0
  {
    match PlanOf(v)
    case Steps(steps) => StepsMeaning(digest, v, |steps|)
    case Canonical(kids) => Join(digest, KidMeanings(digest, v, |kids|))
  }

  ghost function StepsMeaning(digest: string -> nat, v: Visit, k: nat): string
    requires PlanOf(v).Steps? && k <= |PlanOf(v).steps|
    decreases v.node, 0, k
  {
    if k == 0 then "" else StepsMeaning(digest, v, k - 1) + StepMeaning(digest, v, k - 1)
  }

  ghost function StepMeaning(digest: string -> nat, v: Visit, k: nat): string
    requires PlanOf(v).Steps? && k < |PlanOf(v).steps|
    decreases v.node, 0, k
  {
    var step := PlanOf(v).steps[k];
    assert StepBelow(step, v);
    match step
    case Emit(tokens) => Flatten(tokens)
    case Plain(kid) => Meaning(digest, kid)
    case Inlined(name, child) => name + Meaning(digest, child)
    case Guarded(name, child) =>
      var m := Meaning(digest, child);
      if m == "" then "" else name + m
  }

  /** The meanings of the first k members of a sorted list, silent members left out. */
  ghost function KidMeanings(digest: string -> nat, v: Visit, k: nat): set<string>
    requires PlanOf(v).Canonical? && k <= |PlanOf(v).kids|
    decreases v.node, 0, k
  {
    if k == 0 then {}
    else KidMeanings(digest, v, k - 1) + Audible(Meaning(digest, PlanOf(v).kids[k - 1]))
  }

  ghost function Audible(text: string): set<string> {
    if text == "" then {} else {text}
  }

  // ----- a walk feeds its meaning

  /** From `a` to `b` the context was fed exactly the text d, the tokens spell the
      bytes, and nothing at all changed when d is empty. */
  ghost predicate Fed(a: State, b: State, d: string) {
    && Grows(a, b)
    && b.fed == a.fed + d
    && |a.tokens| <= |b.tokens|
    && (a.writing ==> Flatten(b.tokens[|a.tokens|..]) == d)
    && (d == "" || !a.writing ==> b.tokens == a.tokens)
  }

  lemma FedTrans(a: State, b: State, c: State, d: string, e: string)
    requires Fed(a, b, d) && Fed(b, c, e)
    ensures Fed(a, c, d + e)
  {
    assert c.tokens[|a.tokens|..] == b.tokens[|a.tokens|..] + c.tokens[|b.tokens|..];
    FlattenConcat(b.tokens[|a.tokens|..], c.tokens[|b.tokens|..]);
    if d + e == "" { assert d == "" && e == ""; }
  }

  lemma FeedFeeds(st: State, tokens: seq<string>)
    requires Speaks(tokens)
    ensures Fed(st, Feed(st, tokens), Flatten(tokens))
  {}

  lemma SingleToken(name: Name)
    ensures Flatten([name]) == name && Speaks([name])
  {}

  lemma {:induction false} WalkFeeds(lib: Lib, st: State, v: Visit)
    requires !Walk(lib, st, v).collided
    ensures Fed(st, Walk(lib, st, v), Meaning(lib.digest, v))
    decreases v.node, 1, 0
  {
    var called := if v.direct then st else st.(calls := st.calls + 1);
    match PlanOf(v) {
      case Steps(steps) =>
        StepsFeed(lib, called, v, |steps|);
      case Canonical(kids) =>
        PicksFeed(lib, Hashed(lib, called, v), v, |kids|);
        SortedMeanings(lib, v);
    }
  }

  lemma {:induction false} StepsFeed(lib: Lib, st: State, v: Visit, k: nat)
    requires PlanOf(v).Steps? && k <= |PlanOf(v).steps|
    requires !WalkSteps(lib, st, v, k).collided
    ensures Fed(st, WalkSteps(lib, st, v, k), StepsMeaning(lib.digest, v, k))
    decreases v.node, 0, k
  {
    if k > 0 {
      var before := WalkSteps(lib, st, v, k - 1);
      StepsFeed(lib, st, v, k - 1);
      StepFeeds(lib, before, v, k - 1);
      FedTrans(st, before, WalkSteps(lib, st, v, k), StepsMeaning(lib.digest, v, k - 1), StepMeaning(lib.digest, v, k - 1));
    }
  }

  lemma {:induction false} StepFeeds(lib: Lib, st: State, v: Visit, k: nat)
    requires PlanOf(v).Steps? && k < |PlanOf(v).steps|
    requires !WalkStep(lib, st, v, k).collided
    ensures Fed(st, WalkStep(lib, st, v, k), StepMeaning(lib.digest, v, k))
    decreases v.node, 0, k
  {
    var step := PlanOf(v).steps[k];
    assert StepBelow(step, v);
    match step {
      case Emit(tokens) => FeedFeeds(st, tokens);
      case Plain(kid) => WalkFeeds(lib, st, kid);
      case Inlined(name, child) =>
        SingleToken(name);
        FeedFeeds(st, [name]);
        WalkFeeds(lib, Feed(st, [name]), child);
        FedTrans(st, Feed(st, [name]), WalkStep(lib, st, v, k), name, Meaning(lib.digest, child));
      case Guarded(name, child) =>
        var named := Feed(st, [name]);
        var after := Walk(lib, named, child);
        SingleToken(name);
        FeedFeeds(st, [name]);
        WalkFeeds(lib, named, child);
        SettleFeeds(lib.digest, st, name, after, Meaning(lib.digest, child));
    }
  }

  /** The rollback at the end of a field removes the field's name and nothing else. */
  lemma SettleFeeds(digest: string -> nat, st: State, name: Name, after: State, m: string)
    requires Fed(Feed(st, [name]), after, m)
    requires !Settle(digest, st, Feed(st, [name]), after).collided
    ensures Fed(st, Settle(digest, st, Feed(st, [name]), after), if m == "" then "" else name + m)
  {
    var named := Feed(st, [name]);
    SingleToken(name);
    FeedFeeds(st, [name]);
    FedTrans(st, named, after, name, m);
    if m == "" {
      assert after.fed == named.fed;
    } else {
      assert |after.fed| > |named.fed|;
    }
  }

  // ----- the sorted pass

  /** The meaning of the k-th item of the sorted array. */
  ghost function PickMeaning(lib: Lib, v: Visit, k: nat): string
    requires PlanOf(v).Canonical? && k < |PlanOf(v).kids|
  {
    Meaning(lib.digest, PlanOf(v).kids[SortedItems(lib, v)[k].pos])
  }

  ghost function PickMeanings(lib: Lib, v: Visit, k: nat): set<string>
    requires PlanOf(v).Canonical? && k <= |PlanOf(v).kids|
  {
    if k == 0 then {} else PickMeanings(lib, v, k - 1) + Audible(PickMeaning(lib, v, k - 1))
  }

  lemma {:induction false} NoCollisionWhileHashing(lib: Lib, v: Visit, k: nat, i: nat)
    requires PlanOf(v).Canonical? && k <= |PlanOf(v).kids| && !HashingCollides(lib, v, k) && i < k
    ensures !Walk(lib, Fresh(), PlanOf(v).kids[i]).collided
    ensures forall j :: 0 <= j < i ==>
      var a, b := Walk(lib, Fresh(), PlanOf(v).kids[j]), Walk(lib, Fresh(), PlanOf(v).kids[i]);
      lib.digest(a.fed) == lib.digest(b.fed) ==> a.fed == b.fed
  {
    if i < k - 1 {
      NoCollisionWhileHashing(lib, v, k - 1, i);
    }
  }

  lemma {:induction false} ItemHashAt(lib: Lib, v: Visit, k: nat, i: nat)
    requires PlanOf(v).Canonical? && k <= |PlanOf(v).kids| && i < k
    ensures ItemHashes(lib, v, k)[i] == Item(lib.digest(Walk(lib, Fresh(), PlanOf(v).kids[i]).fed), i)
  {
    if i < k - 1 { ItemHashAt(lib, v, k - 1, i); }
  }

  /** Without collisions the hash of a sorted item is the digest of its meaning, and
      equal hashes mean equal meanings. */
  lemma PickHash(lib: Lib, v: Visit, k: nat)
    requires PlanOf(v).Canonical? && k < |PlanOf(v).kids|
    requires !HashingCollides(lib, v, |PlanOf(v).kids|)
    ensures SortedItems(lib, v)[k].hash == lib.digest(PickMeaning(lib, v, k))
    decreases v.node, 0, 1
  {
    var sorted := SortedItems(lib, v);
    var n := |PlanOf(v).kids|;
    var p := sorted[k].pos;
    assert sorted[k] in multiset(sorted);
    assert sorted[k] in ItemHashes(lib, v, n);
    ItemHashAt(lib, v, n, p);
    NoCollisionWhileHashing(lib, v, n, p);
    KidFeeds(lib, v, p);
  }

  lemma KidFeeds(lib: Lib, v: Visit, p: nat)
    requires PlanOf(v).Canonical? && p < |PlanOf(v).kids|
    requires !Walk(lib, Fresh(), PlanOf(v).kids[p]).collided
    ensures Walk(lib, Fresh(), PlanOf(v).kids[p]).fed == Meaning(lib.digest, PlanOf(v).kids[p])
    decreases v.node, 0, 0
  {
    WalkFeeds(lib, Fresh(), PlanOf(v).kids[p]);
  }

  lemma PicksDiffer(lib: Lib, v: Visit, i: nat, k: nat)
    requires PlanOf(v).Canonical? && i < |PlanOf(v).kids| && k < |PlanOf(v).kids|
    requires !HashingCollides(lib, v, |PlanOf(v).kids|)
    requires SortedItems(lib, v)[i].hash == SortedItems(lib, v)[k].hash
    ensures PickMeaning(lib, v, i) == PickMeaning(lib, v, k)
    decreases v.node, 0, 2
  {
    var n := |PlanOf(v).kids|;
    var sorted := SortedItems(lib, v);
    var p, q := sorted[i].pos, sorted[k].pos;
    PickHash(lib, v, i);
    PickHash(lib, v, k);
    NoCollisionWhileHashing(lib, v, n, p);
    NoCollisionWhileHashing(lib, v, n, q);
    KidFeeds(lib, v, p);
    KidFeeds(lib, v, q);
  }

  /** Joining a set to which a text with a strictly greater digest is added. */
  lemma JoinGreatest(digest: string -> nat, texts: set<string>, t: string)
    requires forall x :: x in texts ==> digest(x) < digest(t)
    ensures Join(digest, texts + {t}) == Join(digest, texts) + t
  {}

  lemma {:induction false} PickMeaningsBelow(lib: Lib, v: Visit, k: nat, t: string)
    requires PlanOf(v).Canonical? && k <= |PlanOf(v).kids| && t in PickMeanings(lib, v, k)
    ensures exists i :: 0 <= i < k && PickMeaning(lib, v, i) == t
  {
    if t in PickMeanings(lib, v, k - 1) { PickMeaningsBelow(lib, v, k - 1, t); }
  }

  lemma {:induction false} PickMeaningsHas(lib: Lib, v: Visit, k: nat, i: nat)
    requires PlanOf(v).Canonical? && i < k <= |PlanOf(v).kids| && PickMeaning(lib, v, i) != ""
    ensures PickMeaning(lib, v, i) in PickMeanings(lib, v, k)
  {
    if i < k - 1 { PickMeaningsHas(lib, v, k - 1, i); }
  }

  lemma {:induction false} PicksFeed(lib: Lib, st: State, v: Visit, k: nat)
    requires PlanOf(v).Canonical? && k <= |PlanOf(v).kids|
    requires !HashingCollides(lib, v, |PlanOf(v).kids|) && !WalkPicks(lib, st, v, k).collided
    ensures Fed(st, WalkPicks(lib, st, v, k), Join(lib.digest, PickMeanings(lib, v, k)))
    decreases v.node, 0, 3 + k
  {
    hide Walk, Meaning, SortedItems, HashingCollides, PlanOf;
    if k > 0 {
      var sorted := SortedItems(lib, v);
      var before := WalkPicks(lib, st, v, k - 1);
      var soFar := PickMeanings(lib, v, k - 1);
      var t := PickMeaning(lib, v, k - 1);
      PicksFeed(lib, st, v, k - 1);
      if IsDuplicate(sorted, k - 1) {
        PicksDiffer(lib, v, k - 2, k - 1);
        if t != "" { PickMeaningsHas(lib, v, k - 1, k - 2); }
        assert PickMeanings(lib, v, k) == soFar;
      } else {
        WalkFeeds(lib, before, PlanOf(v).kids[sorted[k - 1].pos]);
        FedTrans(st, before, WalkPicks(lib, st, v, k), Join(lib.digest, soFar), t);
        if t != "" {
          NewPickIsGreatest(lib, v, k - 1);
          JoinGreatest(lib.digest, soFar, t);
        } else {
          assert PickMeanings(lib, v, k) == soFar;
        }
      }
    }
  }

  lemma NewPickIsGreatest(lib: Lib, v: Visit, k: nat)
    requires PlanOf(v).Canonical? && k < |PlanOf(v).kids|
    requires !HashingCollides(lib, v, |PlanOf(v).kids|)
    requires !IsDuplicate(SortedItems(lib, v), k)
    ensures forall x :: x in PickMeanings(lib, v, k) ==> lib.digest(x) < lib.digest(PickMeaning(lib, v, k))
    decreases v.node, 0, 2
  {
    hide PlanOf, Meaning, Walk, HashingCollides;
    var sorted := SortedItems(lib, v);
    PickHash(lib, v, k);
    forall x | x in PickMeanings(lib, v, k)
      ensures lib.digest(x) < lib.digest(PickMeaning(lib, v, k))
    {
      PickMeaningsBelow(lib, v, k, x);
      var i :| 0 <= i < k && PickMeaning(lib, v, i) == x;
      PickHash(lib, v, i);
      assert sorted[i].hash <= sorted[k - 1].hash <= sorted[k].hash;
    }
  }

  /** Sorting permutes: the picks have the meanings of the members. */
  lemma SortedMeanings(lib: Lib, v: Visit)
    requires PlanOf(v).Canonical?
    ensures PickMeanings(lib, v, |PlanOf(v).kids|) == KidMeanings(lib.digest, v, |PlanOf(v).kids|)
  {
    var n := |PlanOf(v).kids|;
    var sorted, items := SortedItems(lib, v), ItemHashes(lib, v, n);
    forall t ensures t in PickMeanings(lib, v, n) <==> t in KidMeanings(lib.digest, v, n) {
      if t in PickMeanings(lib, v, n) {
        PickMeaningsBelow(lib, v, n, t);
        PickMeaningsAudible(lib, v, n, t);
        var i :| 0 <= i < n && PickMeaning(lib, v, i) == t;
        KidMeaningsHas(lib.digest, v, n, sorted[i].pos);
      }
      if t in KidMeanings(lib.digest, v, n) {
        var p := KidMeaningsBelow(lib.digest, v, n, t);
        ItemHashAt(lib, v, n, p);
        assert items[p] in multiset(items);
        assert items[p] in sorted;
        var i :| 0 <= i < n && sorted[i] == items[p];
        PickMeaningsHas(lib, v, n, i);
      }
    }
  }

  lemma {:induction false} PickMeaningsAudible(lib: Lib, v: Visit, k: nat, t: string)
    requires PlanOf(v).Canonical? && k <= |PlanOf(v).kids| && t in PickMeanings(lib, v, k)
    ensures t != ""
  {
    if t in PickMeanings(lib, v, k - 1) { PickMeaningsAudible(lib, v, k - 1, t); }
  }

  lemma {:induction false} KidMeaningsHas(digest: string -> nat, v: Visit, k: nat, i: nat)
    requires PlanOf(v).Canonical? && i < k <= |PlanOf(v).kids| && Meaning(digest, PlanOf(v).kids[i]) != ""
    ensures Meaning(digest, PlanOf(v).kids[i]) in KidMeanings(digest, v, k)
  {
    if i < k - 1 { KidMeaningsHas(digest, v, k - 1, i); }
  }

  lemma {:induction false} KidMeaningsBelow(digest: string -> nat, v: Visit, k: nat, t: string) returns (p: nat)
    requires PlanOf(v).Canonical? && k <= |PlanOf(v).kids| && t in KidMeanings(digest, v, k)
    ensures p < k && Meaning(digest, PlanOf(v).kids[p]) == t && t != ""
  {
    if t in KidMeanings(digest, v, k - 1) {
      p := KidMeaningsBelow(digest, v, k - 1, t);
    } else {
      p := k - 1;
    }
  }
}
