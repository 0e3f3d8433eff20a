/** Which GROUP BY item is matched with which target element: told from the fingerprints
    of the two lists alone. */
module NormalizeGroup {
  import opened NormalizeWalk

  // ----- the n-th element with a fingerprint

  function Occurrences(fps: seq<nat>, fp: nat): nat {
    if fps == [] then 0 else Occurrences(fps[..|fps| - 1], fp) + if fps[|fps| - 1] == fp then 1 else 0
  }

  /** The place of the element with a fingerprint that r others precede; the length of the
      list if there is none. */
  function Nth(fps: seq<nat>, fp: nat, r: nat): (i: nat)
    ensures i <= |fps|
    ensures i < |fps| ==> fps[i] == fp
  {
    if fps == [] then 0
    else if fps[0] != fp then 1 + Nth(fps[1..], fp, r)
    else if r == 0 then 0
    else 1 + Nth(fps[1..], fp, r - 1)
  }

  lemma {:induction false} NthGrows(fps: seq<nat>, fp: nat, r: nat, s: nat)
    requires r < s && Nth(fps, fp, s) < |fps|
    ensures Nth(fps, fp, r) < Nth(fps, fp, s)
  {
    if fps[0] != fp {
      NthGrows(fps[1..], fp, r, s);
    } else if r > 0 {
      NthGrows(fps[1..], fp, r - 1, s - 1);
    }
  }

  function Fps(table: seq<Entry>): (r: seq<nat>)
    ensures |r| == |table| && forall i :: 0 <= i < |r| ==> r[i] == table[i].fp
  {
    seq(|table|, i requires 0 <= i < |table| => table[i].fp)
  }

  function ItemFps(env: Env, ns: seq<Node>, k: nat): seq<nat>
    requires k <= |ns|
  {
    if k == 0 then []
    else ItemFps(env, ns, k - 1) + if IsIntegerConst(ns[k - 1]) then [] else [env.fp(ns[k - 1])]
  }

  /** The table entry that the k-th item takes: the r-th with its fingerprint, when r items
      before it have the same fingerprint. */
  function Match(env: Env, fps: seq<nat>, ns: seq<Node>, k: nat): (i: nat)
    requires k < |ns|
    ensures i <= |fps| && (i < |fps| ==> fps[i] == env.fp(ns[k]))
  {
    Nth(fps, env.fp(ns[k]), Occurrences(ItemFps(env, ns, k), env.fp(ns[k])))
  }

  lemma {:induction false} OccurrencesGrow(env: Env, ns: seq<Node>, k: nat, l: nat, fp: nat)
    requires k < l <= |ns| && !IsIntegerConst(ns[k]) && env.fp(ns[k]) == fp
    ensures Occurrences(ItemFps(env, ns, k), fp) < Occurrences(ItemFps(env, ns, l), fp)
    decreases l
  {
    hide Occurrences, ItemFps;
    OccurrencesNext(env, ns, l - 1, fp);
    if k < l - 1 { OccurrencesGrow(env, ns, k, l - 1, fp); }
  }

  lemma OccurrencesNext(env: Env, ns: seq<Node>, k: nat, fp: nat)
    requires k < |ns|
    ensures Occurrences(ItemFps(env, ns, k + 1), fp) ==
      Occurrences(ItemFps(env, ns, k), fp) + if !IsIntegerConst(ns[k]) && env.fp(ns[k]) == fp then 1 else 0
  {
    var before := ItemFps(env, ns, k);
    if IsIntegerConst(ns[k]) {
      assert before + [] == before;
    } else {
      assert (before + [env.fp(ns[k])])[..|before|] == before;
    }
  }

  /** Every table entry is used up by at most one item of the whole list. */
  lemma MatchInjective(env: Env, fps: seq<nat>, ns: seq<Node>, k: nat, l: nat)
    requires k < l < |ns| && !IsIntegerConst(ns[k]) && !IsIntegerConst(ns[l])
    requires Match(env, fps, ns, k) < |fps| && Match(env, fps, ns, l) < |fps|
    ensures Match(env, fps, ns, k) != Match(env, fps, ns, l)
  {
    if env.fp(ns[k]) == env.fp(ns[l]) {
      OccurrencesGrow(env, ns, k, l, env.fp(ns[k]));
      NthGrows(fps, env.fp(ns[k]), Occurrences(ItemFps(env, ns, k), env.fp(ns[k])), Occurrences(ItemFps(env, ns, l), env.fp(ns[l])));
    }
  }

  // ----- the table while the list is walked

  /** The entries with a fingerprint, in order. */
  function Of(table: seq<Entry>, fp: nat): seq<Entry> {
    if table == [] then [] else (if table[0].fp == fp then [table[0]] else []) + Of(table[1..], fp)
  }

  lemma {:induction false} FindIsHead(table: seq<Entry>, fp: nat)
    ensures Find(table, fp) < |table| <==> Of(table, fp) != []
    ensures Find(table, fp) < |table| ==> table[Find(table, fp)] == Of(table, fp)[0]
  {
    if table != [] && table[0].fp != fp { FindIsHead(table[1..], fp); }
  }

  lemma RemovedCons(table: seq<Entry>, hit: nat)
    requires 0 < hit < |table|
    ensures table == [table[0]] + table[1..]
    ensures table[..hit] + table[hit + 1..] == [table[0]] + (table[1..][..hit - 1] + table[1..][hit..])
  {}

  lemma FindNext(table: seq<Entry>, fp: nat)
    requires table != [] && table[0].fp != fp
    ensures Find(table, fp) == 1 + Find(table[1..], fp)
  {}

  lemma OfNext(table: seq<Entry>, fp: nat)
    requires table != []
    ensures Of(table, fp) == (if table[0].fp == fp then [table[0]] else []) + Of(table[1..], fp)
  {}

  lemma {:induction false} RemovedOf(table: seq<Entry>, fp: nat, other: nat)
    requires Find(table, fp) < |table|
    ensures
      var hit := Find(table, fp);
      Of(table, fp) != [] && Of(table[..hit] + table[hit + 1..], other) == if other == fp then Of(table, fp)[1..] else Of(table, other)
  {
    hide Find, Of;
    if table[0].fp == fp {
      RemovedFirst(table, other);
    } else {
      var rest, hit := table[1..], Find(table[1..], fp);
      FindNext(table, fp);
      OfNext(table, fp);
      OfNext(table, other);
      RemovedOf(rest, fp, other);
      RemovedCons(table, hit + 1);
      OfCons(table[0], rest[..hit] + rest[hit + 1..], other);
      OfCons(table[0], rest, other);
    }
  }

  lemma OfCons(e: Entry, rest: seq<Entry>, fp: nat)
    ensures Of([e] + rest, fp) == (if e.fp == fp then [e] else []) + Of(rest, fp)
  {
    hide Of;
    OfNext([e] + rest, fp);
    assert ([e] + rest)[1..] == rest;
  }

  lemma RemovedFirst(table: seq<Entry>, other: nat)
    requires table != []
    ensures
      var fp := table[0].fp;
      && Find(table, fp) == 0 && Of(table, fp) != []
      && Of(table[..0] + table[1..], other) == if other == fp then Of(table, fp)[1..] else Of(table, other)
  {
    OfNext(table, table[0].fp);
    OfNext(table, other);
    assert table[..0] + table[1..] == table[1..];
    assert [] + Of(table[1..], other) == Of(table[1..], other);
  }

  lemma {:induction false} NthIsOf(table: seq<Entry>, fp: nat, r: nat)
    ensures Nth(Fps(table), fp, r) < |table| <==> r < |Of(table, fp)|
    ensures Nth(Fps(table), fp, r) < |table| ==> table[Nth(Fps(table), fp, r)] == Of(table, fp)[r]
  {
    if table != [] {
      assert Fps(table)[1..] == Fps(table[1..]);
      if table[0].fp != fp {
        NthIsOf(table[1..], fp, r);
      } else if r > 0 {
        NthIsOf(table[1..], fp, r - 1);
      }
    }
  }

  function Dropped(s: seq<Entry>, r: nat): seq<Entry> {
    if r <= |s| then s[r..] else []
  }

  lemma NoItems(env: Env, ns: seq<Node>, fp: nat)
    ensures Occurrences(ItemFps(env, ns, 0), fp) == 0
  {}

  /** After k items the entries left with a fingerprint are those not yet taken. */
  lemma {:induction false} EntriesLeft(env: Env, st: (State, seq<Entry>), ns: seq<Node>, k: nat, fp: nat)
    requires k <= |ns|
    ensures Of(WalkGroup(env, st, ns, k).1, fp) == Dropped(Of(st.1, fp), Occurrences(ItemFps(env, ns, k), fp))
    decreases k
  {
    hide Walk, Lend, Of, Find, Occurrences, ItemFps;
    if k == 0 {
      NoItems(env, ns, fp);
    } else {
      var before := WalkGroup(env, st, ns, k - 1);
      EntriesLeft(env, st, ns, k - 1, fp);
      OccurrencesNext(env, ns, k - 1, fp);
      if !IsIntegerConst(ns[k - 1]) {
        FindIsHead(before.1, env.fp(ns[k - 1]));
        if Find(before.1, env.fp(ns[k - 1])) < |before.1| { RemovedOf(before.1, env.fp(ns[k - 1]), fp); }
      }
    }
  }

  /** The entry found for the k-th item is the one it is matched with. */
  lemma FoundIsMatch(env: Env, st: (State, seq<Entry>), ns: seq<Node>, k: nat)
    requires k < |ns|
    ensures
      var left, i := WalkGroup(env, st, ns, k).1, Match(env, Fps(st.1), ns, k);
      var hit := Find(left, env.fp(ns[k]));
      && (hit < |left| <==> i < |st.1|)
      && (hit < |left| ==> left[hit] == st.1[i])
  {
    hide Of, Find, WalkGroup, Nth;
    var fp := env.fp(ns[k]);
    EntriesLeft(env, st, ns, k, fp);
    FindIsHead(WalkGroup(env, st, ns, k).1, fp);
    NthIsOf(st.1, fp, Occurrences(ItemFps(env, ns, k), fp));
  }
}
