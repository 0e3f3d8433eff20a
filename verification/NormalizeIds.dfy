/** The parameter ids that constants hold. */
module NormalizeIds {
  import opened NormalizeLengths
  import opened NormalizeWalk

  predicate Sized(st: State) {
    |st.consts| == |st.reused|
  }

  /** The ids of the constants that did not take one over, in the order of recording. */
  function FreshIds(consts: seq<ConstLoc>, reused: seq<bool>): (r: seq<int>)
    requires |consts| == |reused|
  {
    if consts == [] then []
    else
      var n := |consts| - 1;
      FreshIds(consts[..n], reused[..n]) + if reused[n] then [] else [-consts[n].paramId]
  }

  function Fresh(st: State): seq<int>
    requires Sized(st)
  {
    FreshIds(st.consts, st.reused)
  }

  /** 1, 2, ..., n. */
  function UpTo(n: nat): (r: seq<int>)
    ensures |r| == n
  {
    if n == 0 then [] else UpTo(n - 1) + [n]
  }

  /** Ids without gap. */
  predicate Clean(ids: seq<int>) {
    ids == UpTo(|ids|)
  }

  /** Ids from 1 up, no two of them equal. */
  ghost predicate Unshared(ids: seq<int>) {
    && (forall i :: 0 <= i < |ids| ==> ids[i] >= 1)
    && (forall i, j :: 0 <= i < j < |ids| ==> ids[i] != ids[j])
  }

  /** How many more fresh ids are held than the counter accounts for. */
  function Excess(st: State): int
    requires Sized(st)
  {
    |Fresh(st)| - (st.nextId - 1)
  }

  // ----- sequences of ids

  lemma {:induction false} UpToAt(n: nat, k: nat)
    requires k < n
    ensures UpTo(n)[k] == k + 1
  {
    if k < n - 1 { UpToAt(n - 1, k); }
  }

  lemma CleanIsUnshared(ids: seq<int>)
    requires Clean(ids)
    ensures Unshared(ids)
  {
    forall i | 0 <= i < |ids| ensures ids[i] == i + 1 { UpToAt(|ids|, i); }
  }

  /** What is appended to a clean sequence keeps it clean if it is the next id, and is a
      repetition, or no id at all, if it is a smaller one. */
  lemma CleanNext(ids: seq<int>, id: int)
    requires Clean(ids) && id <= |ids| + 1
    ensures id == |ids| + 1 ==> Clean(ids + [id])
    ensures id <= |ids| ==> !Unshared(ids + [id])
  {
    var next := ids + [id];
    if id == |ids| + 1 {
      assert UpTo(|next|) == UpTo(|ids|) + [|next|];
    } else if id >= 1 {
      UpToAt(|ids|, id - 1);
      assert next[id - 1] == next[|ids|];
    } else {
      assert next[|ids|] < 1;
    }
  }

  lemma SharedStays(a: seq<int>, b: seq<int>)
    requires a <= b && Unshared(b)
    ensures Unshared(a)
  {}

  lemma {:induction false} FreshIdsPrefix(a: seq<ConstLoc>, ra: seq<bool>, b: seq<ConstLoc>, rb: seq<bool>)
    requires |a| == |ra| && |b| == |rb| && a <= b && ra <= rb
    ensures FreshIds(a, ra) <= FreshIds(b, rb)
    decreases |b|
  {
    if |a| == |b| {
      assert a == b && ra == rb;
    } else {
      var n := |b| - 1;
      assert a <= b[..n] && ra <= rb[..n];
      FreshIdsPrefix(a, ra, b[..n], rb[..n]);
    }
  }

  /** Constants that took an id over add nothing. */
  lemma {:induction false} FreshIdsReusedTail(a: seq<ConstLoc>, ra: seq<bool>, tail: seq<ConstLoc>, flags: seq<bool>)
    requires |a| == |ra| && |tail| == |flags| && forall i :: 0 <= i < |flags| ==> flags[i]
    ensures FreshIds(a + tail, ra + flags) == FreshIds(a, ra)
    decreases |tail|
  {
    if tail == [] {
      assert a + tail == a && ra + flags == ra;
    } else {
      var n := |tail| - 1;
      FreshIdsReusedTail(a, ra, tail[..n], flags[..n]);
      assert (a + tail)[..|a| + n] == a + tail[..n];
      assert (ra + flags)[..|a| + n] == ra + flags[..n];
    }
  }

  /** One more constant adds its own id unless it took one over. */
  lemma FreshIdsNext(consts: seq<ConstLoc>, reused: seq<bool>, c: ConstLoc, taken: bool)
    requires |consts| == |reused|
    ensures FreshIds(consts + [c], reused + [taken]) == FreshIds(consts, reused) + if taken then [] else [-c.paramId]
  {}

  lemma {:induction false} FreshIdAt(consts: seq<ConstLoc>, reused: seq<bool>, i: nat)
    requires |consts| == |reused| && i < |consts| && !reused[i]
    ensures |FreshIds(consts[..i], reused[..i])| < |FreshIds(consts, reused)|
    ensures FreshIds(consts, reused)[|FreshIds(consts[..i], reused[..i])|] == -consts[i].paramId
    decreases |consts|
  {
    var n := |consts| - 1;
    if i < n {
      FreshIdAt(consts[..n], reused[..n], i);
      assert consts[..n][..i] == consts[..i] && reused[..n][..i] == reused[..i];
    }
  }

  // ----- lending references

  /** Whether the numbers agree. */
  predicate Lends(before: State, walked: State, refs: seq<int>) {
    |before.consts| <= |walked.consts| == |walked.reused| && |refs| == |walked.consts| - |before.consts|
  }

  lemma LendNot(before: State, walked: State, refs: seq<int>)
    requires !Lends(before, walked, refs)
    ensures Lend(before, walked, refs) == walked
  {}

  lemma LendShape(before: State, walked: State, refs: seq<int>)
    requires Sized(before) && Sized(walked) && before.consts <= walked.consts && before.reused <= walked.reused
    requires Lends(before, walked, refs)
    ensures
      var r := Lend(before, walked, refs);
      && Sized(r) && before.consts <= r.consts && before.reused <= r.reused && Fresh(r) == Fresh(before)
      && |r.consts| == |before.consts| + |refs|
      && (forall i :: 0 <= i < |refs| ==> r.consts[|before.consts| + i].paramId == refs[i])
      && r.nextId == walked.nextId - |refs| && r.refs == walked.refs && r.highestExtern == walked.highestExtern
  {
    var first := |before.consts|;
    var tail := Relabelled(walked.consts[first..], refs);
    var flags := seq(|refs|, _ => true);
    assert walked.consts[..first] == before.consts && walked.reused[..first] == before.reused;
    FreshIdsReusedTail(before.consts, before.reused, tail, flags);
  }
}
