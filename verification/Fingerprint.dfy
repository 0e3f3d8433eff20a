/** The fingerprint walk as the program runs it: contexts that are fed in place
    and a cache of sorted hashes, shared by all contexts, keyed by list pointer. */
module Fingerprint {
  import opened Common
  import opened ParseTree
  import opened FingerprintWalk
  import opened FingerprintCost
  import FingerprintText

  // ----- relation names

  /** A position lies in a run of two or more digits. */
  ghost predicate InRun(s: string, i: nat) {
    exists a, b :: 0 <= a <= i < b <= |s| && a + 2 <= b && AllDigits(s, a, b)
  }

  predicate AllDigits(s: string, a: nat, b: nat)
    requires a <= b <= |s|
  {
    forall j :: a <= j < b ==> '0' <= s[j] <= '9'
  }

  /** These are the first positions of a text, up to k, that lie in no run, in order. */
  ghost predicate PlacesKept(s: string, k: nat, at: seq<nat>) {
    && k <= |s| && (forall j :: 0 <= j < |at| ==> at[j] < k) && (forall i, j :: 0 <= i < j < |at| ==> at[i] < at[j])
    && forall i :: 0 <= i < k ==> (i in at <==> !InRun(s, i))
  }

  /** The characters at some positions. */
  function CharsAt(s: string, at: seq<nat>): (r: string)
    requires forall j :: 0 <= j < |at| ==> at[j] < |s|
    ensures |r| == |at| && forall j :: 0 <= j < |r| ==> r[j] == s[at[j]]
  {
    seq(|at|, j requires 0 <= j < |at| => s[at[j]])
  }

  lemma InRunIff(s: string, i: nat)
    requires i < |s|
    ensures InDigitRun(s, i) <==> InRun(s, i)
  {
    if i + 1 < |s| && IsDigit(s[i]) && IsDigit(s[i + 1]) { assert AllDigits(s, i, i + 2); }
    if i > 0 && IsDigit(s[i]) && IsDigit(s[i - 1]) { assert AllDigits(s, i - 1, i + 1); }
  }

  lemma SkipNext(s: string, k: nat, at: seq<nat>)
    requires k < |s| && PlacesKept(s, k, at) && InRun(s, k)
    ensures PlacesKept(s, k + 1, at)
  {
    hide InRun;
  }

  lemma KeepNext(s: string, k: nat, at: seq<nat>)
    requires k < |s| && PlacesKept(s, k, at) && !InRun(s, k)
    ensures PlacesKept(s, k + 1, at + [k]) && CharsAt(s, at + [k]) == CharsAt(s, at) + [s[k]]
  {
    hide InRun;
    var next := at + [k];
    forall i | 0 <= i < k + 1 ensures i in next <==> !InRun(s, i) {
      if i == k { assert next[|at|] == k; }
    }
  }

  lemma {:induction false} StrippedAt(s: string, k: nat) returns (at: seq<nat>)
    requires k <= |s|
    ensures PlacesKept(s, k, at) && Stripped(s, k) == CharsAt(s, at)
  {
    if k == 0 {
      at := [];
    } else {
      var front := StrippedAt(s, k - 1);
      InRunIff(s, k - 1);
      hide InRun, InDigitRun, CharsAt;
      if InRun(s, k - 1) {
        SkipNext(s, k - 1, front);
        at := front;
      } else {
        KeepNext(s, k - 1, front);
        at := front + [k - 1];
      }
    }
  }

  /** A stripped name holds exactly the characters that lie in no digit run, in order. */
  lemma StripKeepsOthers(s: string)
    ensures exists at :: PlacesKept(s, |s|, at) && StripDigitRuns(s) == CharsAt(s, at)
  {
    var at := StrippedAt(s, |s|);
  }

  /** The loop that copies a relation name without its digit runs. */
  method StripRelationName(relname: string) returns (r: string)
    ensures r == StripDigitRuns(relname)
    ensures exists at :: PlacesKept(relname, |relname|, at) && r == CharsAt(relname, at)
  {
    StripKeepsOthers(relname);
    r := "";
    var i := 0;
    while i < |relname|
      invariant 0 <= i <= |relname|
      invariant r == Stripped(relname, i)
    {
      if InDigitRun(relname, i) {
        // skip
      } else {
        r := r + [relname[i]];
      }
      i := i + 1;
    }
  }

  predicate DigitPairAt(s: string, i: nat)
    requires i + 1 < |s|
  {
    IsDigit(s[i]) && IsDigit(s[i + 1])
  }

  /** No two digits are left side by side. */
  lemma {:induction false} StrippedHasNoPairs(s: string, k: nat)
    requires k <= |s|
    ensures forall i :: 0 <= i < |Stripped(s, k)| - 1 ==> !DigitPairAt(Stripped(s, k), i)
    ensures k > 0 && !InDigitRun(s, k - 1) ==> Stripped(s, k) != "" && Stripped(s, k)[|Stripped(s, k)| - 1] == s[k - 1]
  {
    if k > 0 {
      StrippedHasNoPairs(s, k - 1);
      if !InDigitRun(s, k - 1) {
        var r := Stripped(s, k - 1);
        forall i | 0 <= i < |r| ensures !DigitPairAt(Stripped(s, k), i) {
          if i < |r| - 1 {
            assert !DigitPairAt(r, i);
          } else if IsDigit(s[k - 1]) {
            assert !InDigitRun(s, k - 2);
          }
        }
      }
    }
  }

  /** A name without runs is kept. */
  lemma {:induction false} StrippedKeeps(s: string, k: nat)
    requires k <= |s| && forall i :: 0 <= i < |s| ==> !InDigitRun(s, i)
    ensures Stripped(s, k) == s[..k]
  {
    if k > 0 {
      StrippedKeeps(s, k - 1);
      assert s[..k] == s[..k - 1] + [s[k - 1]];
    }
  }

  /** Stripping is idempotent and leaves no digit run. */
  lemma StripIdempotent(s: string)
    ensures StripDigitRuns(StripDigitRuns(s)) == StripDigitRuns(s)
    ensures forall i :: 0 <= i < |StripDigitRuns(s)| ==> !InDigitRun(StripDigitRuns(s), i)
  {
    var r := StripDigitRuns(s);
    StrippedHasNoPairs(s, |s|);
    forall i | 0 <= i < |r| ensures !InDigitRun(r, i) {
      if i + 1 < |r| { assert !DigitPairAt(r, i); }
      if i > 0 { assert !DigitPairAt(r, i - 1); }
    }
    StrippedKeeps(r, |r|);
    assert r[..|r|] == r;
  }

  // ----- the shared cache

  /** The sorted hashes of every list hashed so far. `visits` counts the calls of
      the node function that were really made. */
  class ListsortCache {
    var entries: map<nat, seq<Item>>
    ghost var visits: nat

    constructor ()
      ensures entries == map[] && visits == 0
    {
      entries := map[];
      visits := 0;
    }
  }

  /** Every entry holds the sorted hashes of its list, as the reference walk
      computes them, and everything below a cached list is cached. */
  ghost predicate CacheOk(lib: Lib, sites: set<Visit>, entries: map<nat, seq<Item>>) {
    forall s :: s in sites && s.node.List? && PlanOf(s).Canonical? && s.node.id in entries ==>
      && entries[s.node.id] == SortedItems(lib, s)
      && Cached(ReachUpTo(s, Arity(s)), entries.Keys)
  }

  ghost predicate Cached(sites: set<Visit>, keys: set<nat>) {
    forall s :: s in sites && s.node.List? ==> s.node.id in keys
  }

  /** Only ids of the given lists were added. */
  ghost predicate OnlyAdds(sites: set<Visit>, before: set<nat>, after: set<nat>) {
    before <= after &&
    forall id :: id in after && id !in before ==> exists s :: s in sites && s.node.List? && s.node.id == id
  }

  lemma EmptyGrowth(keys: set<nat>)
    ensures OnlyAdds({}, keys, keys) && Cached({}, keys)
  {}

  /** Two consecutive parts of a walk. */
  lemma GrowBoth(first: set<Visit>, second: set<Visit>, a: set<nat>, b: set<nat>, c: set<nat>)
    requires OnlyAdds(first, a, b) && OnlyAdds(second, b, c)
    requires Cached(first, b) && Cached(second, c)
    ensures OnlyAdds(first + second, a, c) && Cached(first + second, c)
  {}

  /** What was cached before a walk stays cached for its later parts. */
  lemma CachedPart(part: set<Visit>, whole: set<Visit>, a: set<nat>, b: set<nat>, added: set<Visit>)
    requires part <= whole && Cached(whole, a) && OnlyAdds(added, a, b)
    ensures Cached(part, b)
  {}

  lemma KidBelow(v: Visit, k: nat)
    requires k < Arity(v) && Kid(v, k).Some?
    ensures Reach(Kid(v, k).value) <= ReachUpTo(v, Arity(v)) <= Reach(v)
  {
    hide PlanOf, Kid;
    ReachOfKid(v, Arity(v), k);
  }

  /** One more member of a sorted list. */
  lemma MemberNext(lib: Lib, v: Visit, k: nat)
    requires PlanOf(v).Canonical? && k < Arity(v)
    ensures Kid(v, k).Some?
    ensures ItemHashes(lib, v, k + 1) == ItemHashes(lib, v, k) + [Item(lib.digest(Walk(lib, Fresh(), Kid(v, k).value).fed), k)]
    ensures ReachUpTo(v, k + 1) == ReachUpTo(v, k) + Reach(Kid(v, k).value)
    ensures FirstCostUpTo(v, k + 1) == FirstCostUpTo(v, k) + FirstCost(Kid(v, k).value)
  {
    hide Walk, Reach, FirstCost;
  }

  lemma NoMembers(lib: Lib, v: Visit)
    requires PlanOf(v).Canonical?
    ensures ItemHashes(lib, v, 0) == [] && ReachUpTo(v, 0) == {} && FirstCostUpTo(v, 0) == 0
  {}

  /** Walking a part of what is cached adds nothing. */
  lemma CachedAddsNothing(part: set<Visit>, whole: set<Visit>, before: set<nat>, after: set<nat>)
    requires part <= whole && Cached(whole, before)
    ensures Cached(part, before) && (OnlyAdds(part, before, after) ==> after == before)
  {}

  /** Storing the entry of a list whose inner lists are all cached. */
  lemma InsertKeepsCache(lib: Lib, sites: set<Visit>, entries: map<nat, seq<Item>>, v: Visit)
    requires v in sites && v.node.List? && PlanOf(v).Canonical? && Coherent(sites)
    requires CacheOk(lib, sites, entries) && Cached(ReachUpTo(v, Arity(v)), entries.Keys)
    ensures CacheOk(lib, sites, entries[v.node.id := SortedItems(lib, v)])
  {
    hide PlanOf;
    hide SortedItems;
  }

  /** A list does not occur inside itself, so hashing its members never inserts it. */
  lemma NotInside(v: Visit, sites: set<Visit>, before: set<nat>, after: set<nat>)
    requires v in sites && v.node.List? && Coherent(sites) && ReachUpTo(v, Arity(v)) <= sites
    requires OnlyAdds(ReachUpTo(v, Arity(v)), before, after) && v.node.id !in before
    ensures v.node.id !in after
  {
    hide PlanOf;
    if v.node.id in after {
      var s :| s in ReachUpTo(v, Arity(v)) && s.node.List? && s.node.id == v.node.id;
      ReachUpToSmaller(v, Arity(v), s);
      assert false;
    }
  }

  // ----- the cost of the second pass

  function SizesOf(v: Visit, items: seq<Item>): nat
    requires PlanOf(v).Canonical? && forall i :: 0 <= i < |items| ==> items[i].pos < Arity(v)
  {
    if items == [] then 0
    else SizesOf(v, items[..|items| - 1]) + Size(Kid(v, items[|items| - 1].pos).value)
  }

  lemma SizesOfNext(v: Visit, items: seq<Item>, i: nat)
    requires PlanOf(v).Canonical? && i < |items| && forall j :: 0 <= j < |items| ==> items[j].pos < Arity(v)
    ensures SizesOf(v, items[..i + 1]) == SizesOf(v, items[..i]) + Size(Kid(v, items[i].pos).value)
  {
    assert items[..i + 1][..i] == items[..i];
  }

  lemma {:induction false} SizesOfRemove(v: Visit, items: seq<Item>, k: nat)
    requires PlanOf(v).Canonical? && k < |items| && forall i :: 0 <= i < |items| ==> items[i].pos < Arity(v)
    ensures SizesOf(v, items) == SizesOf(v, items[..k] + items[k + 1..]) + Size(Kid(v, items[k].pos).value)
  {
    hide PlanOf, Arity, Kid, Size, SizesOf;
    var n := |items| - 1;
    SizesOfLast(v, items);
    if k == n {
      assert items[..k] + items[k + 1..] == items[..n];
    } else {
      var rest := items[..k] + items[k + 1..];
      assert rest[..|rest| - 1] == items[..n][..k] + items[..n][k + 1..] && rest[|rest| - 1] == items[n];
      SizesOfRemove(v, items[..n], k);
      SizesOfLast(v, rest);
    }
  }

  lemma SizesOfLast(v: Visit, items: seq<Item>)
    requires PlanOf(v).Canonical? && items != [] && forall i :: 0 <= i < |items| ==> items[i].pos < Arity(v)
    ensures SizesOf(v, items) == SizesOf(v, items[..|items| - 1]) + Size(Kid(v, items[|items| - 1].pos).value)
  {
    hide Size;
  }

  lemma RemoveFromMultiset(s: seq<Item>, k: nat)
    requires k < |s|
    ensures multiset(s[..k] + s[k + 1..]) == multiset(s) - multiset{s[k]}
  {
    assert s == s[..k] + [s[k]] + s[k + 1..];
  }

  lemma {:induction false} SizesOfPermutation(v: Visit, a: seq<Item>, b: seq<Item>)
    requires PlanOf(v).Canonical? && multiset(a) == multiset(b)
    requires forall i :: 0 <= i < |a| ==> a[i].pos < Arity(v)
    requires forall i :: 0 <= i < |b| ==> b[i].pos < Arity(v)
    ensures SizesOf(v, a) == SizesOf(v, b)
    decreases |a|
  {
    hide PlanOf, Arity, Kid, Size, SizesOf;
    if a == [] {
      assert b == [] by { SameMultiset(a, b); }
    } else {
      var n := |a| - 1;
      var k := SameElsewhere(a, b);
      SizesOfRemove(v, b, k);
      SizesOfRemove(v, a, n);
      assert a[..n] + a[n + 1..] == a[..n];
      SizesOfPermutation(v, a[..n], b[..k] + b[k + 1..]);
    }
  }

  /** The last item of one order stands somewhere in the other; without it they are still
      orders of the same items. */
  lemma SameElsewhere(a: seq<Item>, b: seq<Item>) returns (k: nat)
    requires a != [] && multiset(a) == multiset(b)
    ensures k < |b| && b[k] == a[|a| - 1] && multiset(a[..|a| - 1]) == multiset(b[..k] + b[k + 1..])
  {
    var n := |a| - 1;
    SameMultiset(a, b);
    assert a[n] in b;
    k :| 0 <= k < |b| && b[k] == a[n];
    RemoveFromMultiset(a, n);
    RemoveFromMultiset(b, k);
    assert a[..n] + a[n + 1..] == a[..n];
  }

  lemma {:induction false} SizesOfHashes(lib: Lib, v: Visit, k: nat)
    requires PlanOf(v).Canonical? && k <= Arity(v)
    ensures SizesOf(v, ItemHashes(lib, v, k)) == SizeUpTo(v, k)
  {
    if k > 0 {
      SizesOfHashes(lib, v, k - 1);
      assert ItemHashes(lib, v, k)[..k - 1] == ItemHashes(lib, v, k - 1);
    }
  }

  /** The sorted items cost as much as the items. */
  lemma SizesOfSorted(lib: Lib, v: Visit)
    requires PlanOf(v).Canonical?
    ensures SizesOf(v, SortedItems(lib, v)) == SizeUpTo(v, Arity(v))
  {
    SizesOfHashes(lib, v, Arity(v));
    SizesOfPermutation(v, SortedItems(lib, v), ItemHashes(lib, v, Arity(v)));
  }

  // ----- contexts

  /** One fingerprint context: the hash state (the bytes fed), the token list, and
      the shared cache. The ghost field `reference` is the state of the uncached
      reference walk, advanced in lock step. */
  class FingerprintContext {
    var fed: string
    var tokens: seq<string>
    const writeTokens: bool
    const cache: ListsortCache
    ghost var reference: State

    ghost predicate Valid()
      reads this
    {
      reference.fed == fed && reference.tokens == tokens && reference.writing == writeTokens
    }

    constructor Root(write: bool)
      ensures Valid() && fresh(cache) && writeTokens == write
      ensures reference == Fresh().(writing := write)
      ensures cache.entries == map[] && cache.visits == 0
    {
      fed, tokens, writeTokens := "", [], write;
      cache := new ListsortCache();
      reference := Fresh().(writing := write);
    }

    /** A context for hashing one list item: fresh hash state, shared cache. */
    constructor Child(parent: FingerprintContext)
      ensures Valid() && cache == parent.cache && !writeTokens
      ensures reference == Fresh()
    {
      fed, tokens, writeTokens := "", [], false;
      cache := parent.cache;
      reference := Fresh();
    }

    method FingerprintString(str: string)
      requires Valid()
      modifies this
      ensures Valid() && reference == Feed(old(reference), [str])
      ensures fed == old(fed) + str
    {
      assert [str][..0] == [];
      assert Flatten([str]) == str;
      fed := fed + str;
      if writeTokens {
        tokens := tokens + [str];
      }
      reference := Feed(reference, [str]);
    }

    method FingerprintTokens(strs: seq<string>)
      requires Valid()
      modifies this
      ensures Valid() && reference == Feed(old(reference), strs)
    {
      var i := 0;
      while i < |strs|
        invariant 0 <= i <= |strs|
        invariant Valid() && reference == Feed(old(reference), strs[..i])
      {
        FingerprintString(strs[i]);
        assert strs[..i + 1][..i] == strs[..i];
        assert strs[..i] + [strs[i]] == strs[..i + 1];
        assert [strs[i]][..0] == [];
        i := i + 1;
      }
      assert strs[..|strs|] == strs;
    }

    /** The node function. Its effect on the hash state and on the tokens is that of
        the reference walk; the cache stays right; and the number of calls is the
        size of the visit when everything below was cached, and the first-visit
        cost otherwise. */
    method FingerprintNode(lib: Lib, v: Visit, ghost sites: set<Visit>)
      requires Valid()
      requires Coherent(sites) && Reach(v) <= sites && CacheOk(lib, sites, cache.entries)
      modifies this, cache
      ensures Valid() && reference == Walk(lib, old(reference), v)
      ensures CacheOk(lib, sites, cache.entries) && Cached(Reach(v), cache.entries.Keys)
      ensures OnlyAdds(Reach(v), old(cache.entries.Keys), cache.entries.Keys)
      ensures cache.visits <= old(cache.visits) + FirstCost(v)
      ensures Cached(Reach(v), old(cache.entries.Keys)) ==> cache.visits <= old(cache.visits) + Size(v)
      decreases v.node, 2, 0
    {
      if !v.direct {
        cache.visits := cache.visits + 1;
        reference := reference.(calls := reference.calls + 1);
      }
      if PlanOf(v).Canonical? {
        FingerprintList(lib, v, sites);
      } else {
        FingerprintSteps(lib, v, sites);
      }
      FirstCostBound(v);
    }

    /** The body of a generated function, or the loop over an unsorted list. */
    method FingerprintSteps(lib: Lib, v: Visit, ghost sites: set<Visit>)
      requires Valid() && PlanOf(v).Steps?
      requires Coherent(sites) && Reach(v) <= sites && CacheOk(lib, sites, cache.entries)
      modifies this, cache
      ensures Valid() && reference == WalkSteps(lib, old(reference), v, Arity(v))
      ensures CacheOk(lib, sites, cache.entries) && Cached(ReachUpTo(v, Arity(v)), cache.entries.Keys)
      ensures OnlyAdds(ReachUpTo(v, Arity(v)), old(cache.entries.Keys), cache.entries.Keys)
      ensures cache.visits <= old(cache.visits) + FirstCostUpTo(v, Arity(v))
      ensures Cached(Reach(v), old(cache.entries.Keys)) ==> cache.visits <= old(cache.visits) + SizeUpTo(v, Arity(v))
      decreases v.node, 1, 0
    {
      hide PlanOf, OnlyAdds, Cached, CacheOk;
      EmptyGrowth(cache.entries.Keys);
      var k := 0;
      while k < Arity(v)
        invariant 0 <= k <= Arity(v)
        invariant Valid() && reference == WalkSteps(lib, old(reference), v, k)
        invariant CacheOk(lib, sites, cache.entries) && Cached(ReachUpTo(v, k), cache.entries.Keys)
        invariant OnlyAdds(ReachUpTo(v, k), old(cache.entries.Keys), cache.entries.Keys)
        invariant cache.visits <= old(cache.visits) + FirstCostUpTo(v, k)
        invariant Cached(Reach(v), old(cache.entries.Keys)) ==> cache.visits <= old(cache.visits) + SizeUpTo(v, k)
      {
        ghost var keys := cache.entries.Keys;
        if Kid(v, k).Some? {
          ReachOfKid(v, Arity(v), k);
          if Cached(Reach(v), old(cache.entries.Keys)) {
            CachedPart(Reach(Kid(v, k).value), Reach(v), old(cache.entries.Keys), keys, ReachUpTo(v, k));
          }
        }
        FingerprintStep(lib, v, k, sites);
        if Kid(v, k).Some? {
          GrowBoth(ReachUpTo(v, k), Reach(Kid(v, k).value), old(cache.entries.Keys), keys, cache.entries.Keys);
        } else {
          assert ReachUpTo(v, k + 1) == ReachUpTo(v, k);
        }
        k := k + 1;
      }
    }

    /** One step: feed strings, walk an item, or run the template of a pointer field. */
    method FingerprintStep(lib: Lib, v: Visit, k: nat, ghost sites: set<Visit>)
      requires Valid() && PlanOf(v).Steps? && k < Arity(v)
      requires Coherent(sites) && CacheOk(lib, sites, cache.entries)
      requires Kid(v, k).Some? ==> Reach(Kid(v, k).value) <= sites
      modifies this, cache
      ensures Valid() && reference == WalkStep(lib, old(reference), v, k)
      ensures CacheOk(lib, sites, cache.entries)
      ensures Kid(v, k).None? ==> cache.entries == old(cache.entries) && cache.visits == old(cache.visits)
      ensures Kid(v, k).Some? ==>
        && Cached(Reach(Kid(v, k).value), cache.entries.Keys)
        && OnlyAdds(Reach(Kid(v, k).value), old(cache.entries.Keys), cache.entries.Keys)
        && cache.visits <= old(cache.visits) + FirstCost(Kid(v, k).value)
        && (Cached(Reach(Kid(v, k).value), old(cache.entries.Keys)) ==> cache.visits <= old(cache.visits) + Size(Kid(v, k).value))
      decreases v.node, 0, 0
    {
      hide CacheOk, Cached, OnlyAdds, Coherent, Reach, FirstCost, Size, Walk, Flatten;
      var step := PlanOf(v).steps[k];
      assert StepBelow(step, v);
      match step {
        case Emit(strs) =>
          FingerprintTokens(strs);
        case Plain(kid) =>
          FingerprintNode(lib, kid, sites);
        case Inlined(name, child) =>
          FingerprintString(name);
          FingerprintNode(lib, child, sites);
        case Guarded(name, child) =>
          var prev := fed;
          ghost var before := reference;
          FingerprintString(name);
          var hash := lib.digest(fed);
          ghost var named := reference;
          FingerprintNode(lib, child, sites);
          reference := Settle(lib.digest, before, named, reference);
          if hash == lib.digest(fed) {
            fed := prev;
            if writeTokens {
              tokens := tokens[..|tokens| - 1];
            }
          }
      }
    }

    /** The sorted list: hash the members unless the cache knows them, then walk one
        member per hash, in the order of the hashes. */
    method FingerprintList(lib: Lib, v: Visit, ghost sites: set<Visit>)
      requires Valid() && PlanOf(v).Canonical? && v.node.List?
      requires Coherent(sites) && Reach(v) <= sites && CacheOk(lib, sites, cache.entries)
      modifies this, cache
      ensures Valid() && reference == WalkPicks(lib, Hashed(lib, old(reference), v), v, Arity(v))
      ensures CacheOk(lib, sites, cache.entries) && Cached(Reach(v), cache.entries.Keys)
      ensures OnlyAdds(Reach(v), old(cache.entries.Keys), cache.entries.Keys)
      ensures cache.visits <= old(cache.visits) + FirstCostUpTo(v, Arity(v)) + SizeUpTo(v, Arity(v))
      ensures Cached(Reach(v), old(cache.entries.Keys)) ==> cache.visits <= old(cache.visits) + SizeUpTo(v, Arity(v))
      decreases v.node, 1, 0
    {
      var items;
      if v.node.id in cache.entries {
        items := cache.entries[v.node.id];
      } else {
        items := HashItems(lib, v, sites);
      }
      reference := Hashed(lib, reference, v);
      SizesOfSorted(lib, v);
      WalkSorted(lib, v, items, sites);
    }

    method HashItems(lib: Lib, v: Visit, ghost sites: set<Visit>) returns (items: seq<Item>)
      requires Valid() && PlanOf(v).Canonical? && v.node.List? && v.node.id !in cache.entries
      requires Coherent(sites) && Reach(v) <= sites && CacheOk(lib, sites, cache.entries)
      modifies cache
      ensures items == SortedItems(lib, v)
      ensures CacheOk(lib, sites, cache.entries) && Cached(Reach(v), cache.entries.Keys)
      ensures OnlyAdds(Reach(v), old(cache.entries.Keys), cache.entries.Keys)
      ensures cache.visits <= old(cache.visits) + FirstCostUpTo(v, Arity(v))
      decreases v.node, 0, 1
    {
      var hashes := HashMembers(lib, v, sites);
      PgQsort(lib, hashes);
      items := hashes[..];
      NotInside(v, sites, old(cache.entries.Keys), cache.entries.Keys);
      assert v.node.id !in cache.entries;  // Assert(!found)
      InsertKeepsCache(lib, sites, cache.entries, v);
      cache.entries := cache.entries[v.node.id := items];
    }

    method HashMembers(lib: Lib, v: Visit, ghost sites: set<Visit>) returns (hashes: array<Item>)
      requires Valid() && PlanOf(v).Canonical?
      requires Coherent(sites) && Reach(v) <= sites && CacheOk(lib, sites, cache.entries)
      modifies cache
      ensures fresh(hashes) && hashes[..] == ItemHashes(lib, v, Arity(v))
      ensures CacheOk(lib, sites, cache.entries) && Cached(ReachUpTo(v, Arity(v)), cache.entries.Keys)
      ensures OnlyAdds(ReachUpTo(v, Arity(v)), old(cache.entries.Keys), cache.entries.Keys)
      ensures cache.visits <= old(cache.visits) + FirstCostUpTo(v, Arity(v))
      decreases v.node, 0, 0
    {
      hide OnlyAdds, Cached, CacheOk, Coherent, Reach, ReachUpTo, Walk, Size, FirstCost, FirstCostUpTo, ItemHashes, PlanOf, Kid, Flatten;
      var n := Arity(v);
      NoMembers(lib, v);
      hashes := new Item[n];
      EmptyGrowth(cache.entries.Keys);
      var k := 0;
      while k < n
        invariant 0 <= k <= n
        invariant hashes[..k] == ItemHashes(lib, v, k)
        invariant CacheOk(lib, sites, cache.entries) && Cached(ReachUpTo(v, k), cache.entries.Keys)
        invariant OnlyAdds(ReachUpTo(v, k), old(cache.entries.Keys), cache.entries.Keys)
        invariant cache.visits <= old(cache.visits) + FirstCostUpTo(v, k)
      {
        MemberNext(lib, v, k);
        var kid := Kid(v, k).value;
        ghost var keys := cache.entries.Keys;
        KidBelow(v, k);
        var fctx := new FingerprintContext.Child(this);
        fctx.FingerprintNode(lib, kid, sites);
        hashes[k] := Item(lib.digest(fctx.fed), k);
        assert hashes[..k + 1] == hashes[..k] + [hashes[k]];
        GrowBoth(ReachUpTo(v, k), Reach(kid), old(cache.entries.Keys), keys, cache.entries.Keys);
        k := k + 1;
      }
      assert hashes[..] == hashes[..n];
    }

    method WalkSorted(lib: Lib, v: Visit, items: seq<Item>, ghost sites: set<Visit>)
      requires Valid() && PlanOf(v).Canonical? && items == SortedItems(lib, v)
      requires Coherent(sites) && Reach(v) <= sites && CacheOk(lib, sites, cache.entries)
      requires Cached(Reach(v), cache.entries.Keys)
      modifies this, cache
      ensures Valid() && reference == WalkPicks(lib, old(reference), v, Arity(v))
      ensures CacheOk(lib, sites, cache.entries) && cache.entries.Keys == old(cache.entries.Keys)
      ensures cache.visits <= old(cache.visits) + SizesOf(v, items)
      decreases v.node, 0, 0
    {
      hide PlanOf, SortedItems, CacheOk, Cached, OnlyAdds, Coherent, Reach, SizesOf, Size, FirstCost, Walk;
      var i := 0;
      assert items[..0] == [];
      while i < |items|
        invariant 0 <= i <= |items|
        invariant Valid() && reference == WalkPicks(lib, old(reference), v, i)
        invariant CacheOk(lib, sites, cache.entries) && cache.entries.Keys == old(cache.entries.Keys)
        invariant cache.visits <= old(cache.visits) + SizesOf(v, items[..i])
      {
        SizesOfNext(v, items, i);
        if i > 0 && items[i - 1].hash == items[i].hash {
          // ignore duplicates
        } else {
          ghost var kid, keys := Kid(v, items[i].pos).value, cache.entries.Keys;
          KidBelow(v, items[i].pos);
          CachedAddsNothing(Reach(kid), Reach(v), keys, keys);
          FingerprintNode(lib, Kid(v, items[i].pos).value, sites);
          CachedAddsNothing(Reach(kid), Reach(v), keys, cache.entries.Keys);
        }
        i := i + 1;
      }
      assert items[..|items|] == items;
    }
  }

  method PgQsort(lib: Lib, a: array<Item>)
    modifies a
    ensures a[..] == lib.sort(old(a[..]))
  {
    var s := lib.sort(a[..]);
    SameMultiset(s, a[..]);
    forall i | 0 <= i < a.Length {
      a[i] := s[i];
    }
  }

  // ----- entry points

  /** The fingerprint of a tree whose list pointers occur once: that of the
      uncached reference walk, and without collisions the digest of the tree's text, at a
      cost of at most size x (1 + nesting) calls. */
  method PgQueryFingerprintNode(lib: Lib, tree: Node) returns (result: nat, ghost visits: nat)
    requires UniqueLists(tree)
    ensures result == FingerprintWalk.Fingerprint(lib, tree)
    ensures !Walk(lib, Fresh(), ParseTree.Root(tree)).collided ==>
      result == lib.digest(FingerprintText.Text(lib.digest, tree, None, None, 0))
    ensures visits <= Size(ParseTree.Root(tree)) * (1 + Nesting(ParseTree.Root(tree)))
  {
    hide PlanOf, Walk, Size, Nesting, FirstCost, Reach, Cached, CacheOk, Coherent, OnlyAdds, ListIds, Unique;
    var root := ParseTree.Root(tree);
    var ctx := new FingerprintContext.Root(false);
    UniqueListsCoherent(root);
    ctx.FingerprintNode(lib, root, Reach(root));
    FirstCostBound(root);
    result := lib.digest(ctx.fed);
    if !Walk(lib, Fresh(), root).collided { FingerprintText.FingerprintOfText(lib, tree); }
    visits := ctx.cache.visits;
  }

  /** The variant that can also print the tokens: without collisions they spell the text. */
  method PgQueryFingerprintWithOpts(lib: Lib, tree: Node, printTokens: bool) returns (result: nat, tokens: seq<string>)
    requires UniqueLists(tree)
    ensures
      var end := Walk(lib, Fresh().(writing := printTokens), ParseTree.Root(tree));
      && result == lib.digest(end.fed) && tokens == end.tokens
      && (!end.collided ==>
            var text := FingerprintText.Text(lib.digest, tree, None, None, 0);
            result == lib.digest(text) && (if printTokens then Flatten(tokens) == text else tokens == []))
  {
    hide PlanOf, Walk, Size, FirstCost, Reach, Cached, CacheOk, Coherent, OnlyAdds, ListIds, Unique;
    var root := ParseTree.Root(tree);
    var ctx := new FingerprintContext.Root(printTokens);
    UniqueListsCoherent(root);
    ctx.FingerprintNode(lib, root, Reach(root));
    result, tokens := lib.digest(ctx.fed), ctx.tokens;
    if !Walk(lib, Fresh().(writing := printTokens), root).collided { FingerprintText.TokensOfText(lib, tree, printTokens); }
  }
}
