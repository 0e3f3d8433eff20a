/** Finding the lengths of recorded constants: one merge of the sorted locations
    with the token stream of the scanner. */
module NormalizeLengths {
  import Sorting

  /** A recorded constant: where it starts, its length (-1 to ignore it) and the
      parameter it becomes (negative: to be offset by the highest outside parameter). */
  datatype ConstLoc = ConstLoc(location: int, length: int, paramId: int)

  /** A token's text is query[start..end]; `end` is where the scanner puts its zero byte. */
  datatype Token = Token(start: nat, end: nat)

  predicate WellScanned(query: string, tokens: seq<Token>) {
    && (forall i :: 0 <= i < |tokens| ==> tokens[i].start < tokens[i].end <= |query|)
    && (forall i, j :: 0 <= i < j < |tokens| ==> tokens[i].end <= tokens[j].start)
  }

  predicate SortedByLocation(locs: seq<ConstLoc>) {
    forall i, j :: 0 <= i < j < |locs| ==> locs[i].location <= locs[j].location
  }

  predicate Recorded(query: string, locs: seq<ConstLoc>) {
    forall i :: 0 <= i < |locs| ==> 0 <= locs[i].location < |query| && locs[i].length == -1
  }

  predicate IsSpace(c: char) {
    c == ' ' || c == '\t' || c == '\n' || c == '\r' || c == 12 as char
  }

  /** The length without trailing white space. */
  function TrimmedLength(query: string, loc: nat, length: nat): (r: nat)
    requires loc + length <= |query|
    ensures r <= length
    ensures length > 0 && !IsSpace(query[loc]) ==> r > 0
  {
    if length > 0 && IsSpace(query[loc + length - 1]) then TrimmedLength(query, loc, length - 1) else length
  }

  predicate HasUnicodePrefix(query: string, loc: nat, length: nat)
    requires loc + length <= |query|
  {
    length > 4 && query[loc] in {'u', 'U'} && query[loc + 1] == '&' && query[loc + 2] == '\''
  }

  /** Length of a constant that starts at loc and whose last token ends at `end`. */
  function ConstLength(query: string, loc: nat, end: nat): (r: nat)
    requires loc < end <= |query|
    ensures 0 < r <= end - loc
  {
    if HasUnicodePrefix(query, loc, end - loc) then TrimmedLength(query, loc, end - loc) else end - loc
  }

  /** The first token from index k on that starts at loc or after it. */
  function FirstFrom(tokens: seq<Token>, k: nat, loc: int): (r: nat)
    requires k <= |tokens|
    ensures k <= r <= |tokens|
    ensures r < |tokens| ==> tokens[r].start >= loc
    ensures forall i :: k <= i < r ==> tokens[i].start < loc
    decreases |tokens| - k
  {
    if k == |tokens| || tokens[k].start >= loc then k else FirstFrom(tokens, k + 1, loc)
  }

  /** The last token of the constant whose first token has index k: the next one after a minus sign. */
  function LastToken(query: string, loc: nat, k: nat): nat
    requires loc < |query|
  {
    if query[loc] == '-' then k + 1 else k
  }

  /** The merge, part way: how many tokens are read, the last location served, and
      whether the end of the string was hit. */
  datatype Merge = Merge(next: nat, last: int, stopped: bool)

  /** The index of the last token of the constant at loc. */
  function Serving(query: string, tokens: seq<Token>, m: Merge, loc: int): nat
    requires m.next <= |tokens| && 0 <= loc < |query|
  {
    LastToken(query, loc, FirstFrom(tokens, m.next, loc))
  }

  function After(query: string, tokens: seq<Token>, m: Merge, loc: int): (r: Merge)
    requires m.next <= |tokens| && 0 <= loc < |query|
    ensures r.next <= |tokens| && (m.stopped ==> r == m)
  {
    if m.stopped || loc <= m.last then m
    else
      var k := Serving(query, tokens, m, loc);
      if k >= |tokens| then m.(stopped := true) else Merge(k + 1, loc, false)
  }

  function Measured(query: string, tokens: seq<Token>, m: Merge, loc: int): int
    requires WellScanned(query, tokens) && m.next <= |tokens| && 0 <= loc < |query|
  {
    if m.stopped || loc <= m.last then -1
    else
      var k := Serving(query, tokens, m, loc);
      if k >= |tokens| then -1
      else
        TokenEndsAfter(query, tokens, m.next, loc);
        ConstLength(query, loc, tokens[k].end)
  }

  /** The merge after k records. */
  function MergeTo(query: string, tokens: seq<Token>, locs: seq<ConstLoc>, k: nat): (m: Merge)
    requires Recorded(query, locs) && k <= |locs|
    ensures m.next <= |tokens|
  {
    if k == 0 then Merge(0, -1, false)
    else After(query, tokens, MergeTo(query, tokens, locs, k - 1), locs[k - 1].location)
  }

  function OnePass(query: string, tokens: seq<Token>, locs: seq<ConstLoc>): (r: seq<ConstLoc>)
    requires WellScanned(query, tokens) && Recorded(query, locs)
    ensures |r| == |locs|
  {
    seq(|locs|, i requires 0 <= i < |locs| =>
      locs[i].(length := Measured(query, tokens, MergeTo(query, tokens, locs, i), locs[i].location)))
  }

  lemma OnePassAt(query: string, tokens: seq<Token>, locs: seq<ConstLoc>, i: nat)
    requires WellScanned(query, tokens) && Recorded(query, locs) && i < |locs|
    ensures OnePass(query, tokens, locs)[i] ==
      locs[i].(length := Measured(query, tokens, MergeTo(query, tokens, locs, i), locs[i].location))
  {}

  lemma TokenEndsAfter(query: string, tokens: seq<Token>, next: nat, loc: nat)
    requires WellScanned(query, tokens) && next <= |tokens| && loc < |query|
    requires LastToken(query, loc, FirstFrom(tokens, next, loc)) < |tokens|
    ensures loc < tokens[LastToken(query, loc, FirstFrom(tokens, next, loc))].end
  {}

  // ----- the loops

  /** Sorting in place, of which only the contract is used. */
  method SortByLocationInPlace(a: array<ConstLoc>, n: nat)
    requires n <= a.Length
    modifies a
    ensures SortedByLocation(a[..n]) && multiset(a[..n]) == multiset(old(a[..n]))
    ensures a[n..] == old(a[n..])
  {
    ghost var before := a[..n];
    var key := (rec: ConstLoc) => rec.location;
    var sorted := Sorting.InsertionSort(a[..n], key);
    assert |sorted| == |multiset(sorted)| == |multiset(before)| == n;
    assert SortedByLocation(sorted) by {
      forall i, j | 0 <= i < j < |sorted| ensures sorted[i].location <= sorted[j].location {
        assert key(sorted[i]) <= key(sorted[j]);
      }
    }
    forall i | 0 <= i < n { a[i] := sorted[i]; }
    assert a[..n] == sorted;
  }

  /** The records after sorting and merging, for some order of equal locations. */
  ghost predicate Filled(query: string, tokens: seq<Token>, before: seq<ConstLoc>, after: seq<ConstLoc>)
    requires WellScanned(query, tokens)
  {
    exists sorted: seq<ConstLoc> ::
      && SortedByLocation(sorted) && multiset(sorted) == multiset(before)
      && Recorded(query, sorted) && after == OnePass(query, tokens, sorted)
  }

  /** Sort, then serve the locations in order while scanning. */
  method FillInConstantLengths(locs: array<ConstLoc>, count: nat, query: string, tokens: seq<Token>)
    requires count <= locs.Length
    requires WellScanned(query, tokens) && Recorded(query, locs[..count])
    modifies locs
    ensures Filled(query, tokens, old(locs[..count]), locs[..count])
    ensures locs[count..] == old(locs[count..])
  {
    SortByLocationInPlace(locs, count);
    ghost var sorted := locs[..count];
    RecordedPermutation(query, old(locs[..count]), sorted);
    MergeLengths(locs, count, query, tokens);
  }

  method MergeLengths(locs: array<ConstLoc>, count: nat, query: string, tokens: seq<Token>)
    requires count <= locs.Length
    requires WellScanned(query, tokens) && Recorded(query, locs[..count])
    modifies locs
    ensures locs[..count] == OnePass(query, tokens, old(locs[..count]))
    ensures locs[count..] == old(locs[count..])
  {
    hide OnePass, FirstFrom, LastToken, ConstLength, WellScanned;
    ghost var sorted := locs[..count];
    ghost var result := OnePass(query, tokens, sorted);
    var next: nat, last: int, i: nat := 0, -1, 0;
    while i < count
      invariant 0 <= i <= count
      invariant forall j :: i <= j < count ==> locs[j] == sorted[j]
      invariant forall j :: 0 <= j < i ==> locs[j] == result[j]
      invariant MergeTo(query, tokens, sorted, i) == Merge(next, last, false)
      invariant forall j :: count <= j < locs.Length ==> locs[j] == old(locs[j])
    {
      var loc := locs[i].location;
      OnePassAt(query, tokens, sorted, i);
      if loc > last {
        var found, length;
        found, next, length := Serve(query, tokens, next, loc);
        if !found {
          StoppedForGood(query, tokens, sorted, i + 1, count);
          break;  // end of string: give up
        }
        locs[i] := locs[i].(length := length);
        last := loc;
      }
      i := i + 1;
    }
    assert locs[..count] == result;
  }

  lemma {:induction false} StoppedForGood(query: string, tokens: seq<Token>, locs: seq<ConstLoc>, i: nat, n: nat)
    requires WellScanned(query, tokens) && Recorded(query, locs) && i <= n == |locs|
    requires MergeTo(query, tokens, locs, i).stopped
    ensures forall j :: i <= j < n ==> OnePass(query, tokens, locs)[j] == locs[j]
    decreases n - i
  {
    hide OnePass, FirstFrom, WellScanned;
    if i < n {
      StoppedForGood(query, tokens, locs, i + 1, n);
      OnePassAt(query, tokens, locs, i);
      assert locs[i].length == -1;
    }
  }

  /** Find the constant at loc among the tokens not yet read, and measure it. */
  method Serve(query: string, tokens: seq<Token>, start: nat, loc: nat) returns (found: bool, next: nat, length: nat)
    requires WellScanned(query, tokens) && start <= |tokens| && loc < |query|
    ensures
      var k := LastToken(query, loc, FirstFrom(tokens, start, loc));
      && found == (k < |tokens|) && next <= |tokens|
      && (found ==> next == k + 1 && loc < tokens[k].end && length == ConstLength(query, loc, tokens[k].end))
  {
    length := 0;
    found, next := LexUntil(tokens, start, loc);
    if found && query[loc] == '-' {
      found := next < |tokens|;
      next := if found then next + 1 else next;
    }
    if found {
      TokenEndsAfter(query, tokens, start, loc);
      length := MeasureConstant(query, loc, tokens[next - 1].end);
    }
  }

  /** Lex tokens until one starts at loc or after it. */
  method LexUntil(tokens: seq<Token>, start: nat, loc: int) returns (found: bool, next: nat)
    requires start <= |tokens|
    ensures start <= next <= |tokens|
    ensures
      var k := FirstFrom(tokens, start, loc);
      found == (k < |tokens|) && next == if found then k + 1 else k
  {
    next, found := start, false;
    while next < |tokens| && !found
      invariant start <= next <= |tokens|
      invariant !found ==> FirstFrom(tokens, next, loc) == FirstFrom(tokens, start, loc)
      invariant found ==> next == FirstFrom(tokens, start, loc) + 1
      decreases |tokens| - next
    {
      found := tokens[next].start >= loc;
      next := next + 1;
    }
  }

  /** strlen of the scan buffer from loc, less the white space after a U&'...' string. */
  method MeasureConstant(query: string, loc: nat, end: nat) returns (length: nat)
    requires loc < end <= |query|
    ensures length == ConstLength(query, loc, end)
  {
    length := end - loc;
    if length > 4 && query[loc] in {'u', 'U'} && query[loc + 1] == '&' && query[loc + 2] == '\'' {
      var j := length - 1;
      while j >= 0 && IsSpace(query[loc + j])
        invariant -1 <= j < length
        invariant TrimmedLength(query, loc, j + 1) == TrimmedLength(query, loc, length)
      {
        j := j - 1;
      }
      length := j + 1;
    }
  }

  lemma RecordedPermutation(query: string, a: seq<ConstLoc>, b: seq<ConstLoc>)
    requires Recorded(query, a) && multiset(a) == multiset(b)
    ensures Recorded(query, b)
  {
    InPermutation(a, b);
  }

  // ----- what the merge computes

  predicate StartsToken(tokens: seq<Token>, loc: int) {
    exists k :: 0 <= k < |tokens| && tokens[k].start == loc
  }

  function TokenAt(query: string, tokens: seq<Token>, loc: int): (k: nat)
    requires WellScanned(query, tokens) && StartsToken(tokens, loc)
    ensures k < |tokens| && tokens[k].start == loc
  {
    var k := FirstFrom(tokens, 0, loc);
    var j :| 0 <= j < |tokens| && tokens[j].start == loc;
    assert k <= j;
    k
  }

  /** Looking one location up on its own: the text of its token, or of a minus sign
      and the token after it. */
  function LengthAt(query: string, tokens: seq<Token>, loc: int): int
    requires WellScanned(query, tokens) && StartsToken(tokens, loc)
  {
    var last := LastToken(query, loc, TokenAt(query, tokens, loc));
    if last < |tokens| then ConstLength(query, loc, tokens[last].end) else -1
  }

  function LastTokenAt(query: string, tokens: seq<Token>, loc: nat): nat
    requires WellScanned(query, tokens) && StartsToken(tokens, loc) && loc < |query|
  {
    LastToken(query, loc, TokenAt(query, tokens, loc))
  }

  predicate IsLocation(locs: seq<ConstLoc>, loc: int) {
    exists i :: 0 <= i < |locs| && locs[i].location == loc
  }

  /** What the parser promises about a recorded location: it is the start of a token;
      a minus sign is followed by its number, which is not recorded itself. */
  predicate Placed(query: string, tokens: seq<Token>, locs: seq<ConstLoc>, loc: int)
    requires WellScanned(query, tokens)
  {
    && 0 <= loc < |query| && StartsToken(tokens, loc)
    && LastTokenAt(query, tokens, loc) < |tokens|
    && (query[loc] == '-' ==> !IsLocation(locs, tokens[LastTokenAt(query, tokens, loc)].start))
  }

  predicate Located(query: string, tokens: seq<Token>, locs: seq<ConstLoc>)
    requires WellScanned(query, tokens)
  {
    forall i :: 0 <= i < |locs| ==> Placed(query, tokens, locs, locs[i].location)
  }

  lemma LocatedSubset(query: string, tokens: seq<Token>, a: seq<ConstLoc>, b: seq<ConstLoc>)
    requires WellScanned(query, tokens) && Located(query, tokens, a)
    requires forall i :: 0 <= i < |b| ==> b[i] in a
    ensures Located(query, tokens, b)
  {}

  /** Nothing that serves one location serves a later one. */
  lemma LaterToken(query: string, tokens: seq<Token>, locs: seq<ConstLoc>, a: int, b: int)
    requires WellScanned(query, tokens) && Placed(query, tokens, locs, a) && Placed(query, tokens, locs, b)
    requires IsLocation(locs, b) && a < b
    ensures TokenAt(query, tokens, b) > LastTokenAt(query, tokens, a)
  {}

  lemma FirstFromSkips(tokens: seq<Token>, j: nat, k: nat, loc: int)
    requires j <= k <= |tokens| && k <= FirstFrom(tokens, j, loc)
    ensures FirstFrom(tokens, k, loc) == FirstFrom(tokens, j, loc)
    decreases k - j
  {}

  /** Between two records the merge has read exactly the tokens of the constants served. */
  lemma {:induction false} MergeInvariant(query: string, tokens: seq<Token>, locs: seq<ConstLoc>, k: nat)
    requires WellScanned(query, tokens) && Recorded(query, locs) && Located(query, tokens, locs)
    requires SortedByLocation(locs) && k <= |locs|
    ensures
      var m := MergeTo(query, tokens, locs, k);
      && !m.stopped
      && (if k == 0 then m.next == 0 && m.last == -1
          else m.last == locs[k - 1].location && StartsToken(tokens, m.last) && m.next == LastTokenAt(query, tokens, m.last) + 1)
  {
    hide FirstFrom, LastToken, TokenAt, LastTokenAt, WellScanned;
    if k > 0 {
      MergeInvariant(query, tokens, locs, k - 1);
      var loc := locs[k - 1].location;
      assert Placed(query, tokens, locs, loc);
      if k == 1 || locs[k - 2].location < loc { ServedRight(query, tokens, locs, k - 1); }
    }
  }

  /** At a new location the merge finds the token that a lookup finds. */
  lemma ServedRight(query: string, tokens: seq<Token>, locs: seq<ConstLoc>, i: nat)
    requires WellScanned(query, tokens) && Recorded(query, locs) && Located(query, tokens, locs)
    requires i < |locs| && (i == 0 || locs[i - 1].location < locs[i].location)
    requires
      var m := MergeTo(query, tokens, locs, i);
      if i == 0 then m.next == 0 else
        m.last == locs[i - 1].location && StartsToken(tokens, m.last) && m.next == LastTokenAt(query, tokens, m.last) + 1
    ensures Placed(query, tokens, locs, locs[i].location)
    ensures Serving(query, tokens, MergeTo(query, tokens, locs, i), locs[i].location) == LastTokenAt(query, tokens, locs[i].location)
  {
    assert Placed(query, tokens, locs, locs[i].location);
    if i > 0 {
      assert Placed(query, tokens, locs, locs[i - 1].location);
      LaterToken(query, tokens, locs, locs[i - 1].location, locs[i].location);
    }
    FirstFromSkips(tokens, 0, MergeTo(query, tokens, locs, i).next, locs[i].location);
  }

  /** Measured constants lie inside the query. */
  predicate Inside(query: string, recs: seq<ConstLoc>) {
    forall i :: 0 <= i < |recs| && recs[i].length >= 0 ==>
      0 < recs[i].length && 0 <= recs[i].location && recs[i].location + recs[i].length <= |query|
  }

  /** Besides, they do not overlap. */
  predicate Disjoint(query: string, recs: seq<ConstLoc>) {
    && Inside(query, recs)
    && (forall i, j :: 0 <= i < j < |recs| && recs[i].length >= 0 && recs[j].length >= 0 ==>
          recs[i].location + recs[i].length <= recs[j].location)
  }

  lemma LookupsApart(query: string, tokens: seq<Token>, locs: seq<ConstLoc>, a: int, b: int)
    requires WellScanned(query, tokens) && Placed(query, tokens, locs, a) && Placed(query, tokens, locs, b)
    requires IsLocation(locs, b) && a < b
    ensures a + LengthAt(query, tokens, a) <= b
  {}

  predicate IsFirst(recs: seq<ConstLoc>, i: nat)
    requires i < |recs|
  {
    i == 0 || recs[i - 1].location < recs[i].location
  }

  /** The length of a record after the merge. */
  predicate LookedUpAt(query: string, tokens: seq<Token>, recs: seq<ConstLoc>, i: nat)
    requires WellScanned(query, tokens) && i < |recs|
  {
    && StartsToken(tokens, recs[i].location)
    && recs[i].length == (if IsFirst(recs, i) then LengthAt(query, tokens, recs[i].location) else -1)
  }

  ghost predicate LookedUp(query: string, tokens: seq<Token>, recs: seq<ConstLoc>)
    requires WellScanned(query, tokens)
  {
    forall i :: 0 <= i < |recs| ==> LookedUpAt(query, tokens, recs, i)
  }

  lemma LookupIsPiece(query: string, tokens: seq<Token>, locs: seq<ConstLoc>, loc: int)
    requires WellScanned(query, tokens) && Placed(query, tokens, locs, loc)
    ensures 0 < LengthAt(query, tokens, loc) && loc + LengthAt(query, tokens, loc) <= |query|
  {}

  lemma LookedUpDisjoint(query: string, tokens: seq<Token>, recs: seq<ConstLoc>)
    requires WellScanned(query, tokens) && Located(query, tokens, recs)
    requires SortedByLocation(recs) && LookedUp(query, tokens, recs)
    ensures Disjoint(query, recs)
  {
    hide LengthAt;
    forall i | 0 <= i < |recs| && recs[i].length >= 0
      ensures 0 < recs[i].length && 0 <= recs[i].location && recs[i].location + recs[i].length <= |query|
    {
      assert Placed(query, tokens, recs, recs[i].location) && LookedUpAt(query, tokens, recs, i);
      LookupIsPiece(query, tokens, recs, recs[i].location);
    }
    forall i, j | 0 <= i < j < |recs| && recs[i].length >= 0 && recs[j].length >= 0
      ensures recs[i].location + recs[i].length <= recs[j].location
    {
      assert LookedUpAt(query, tokens, recs, i) && LookedUpAt(query, tokens, recs, j);
      assert recs[j - 1].location < recs[j].location;
      assert recs[i].location <= recs[j - 1].location;
      assert Placed(query, tokens, recs, recs[i].location) && Placed(query, tokens, recs, recs[j].location);
      LookupsApart(query, tokens, recs, recs[i].location, recs[j].location);
    }
  }

  /** Main result of the merge: every record keeps its place, the lengths are those
      of the lookup, and the measured constants are disjoint pieces of the query. */
  lemma {:induction false} FilledIsRight(query: string, tokens: seq<Token>, before: seq<ConstLoc>, after: seq<ConstLoc>)
    requires WellScanned(query, tokens) && Recorded(query, before) && Located(query, tokens, before)
    requires Filled(query, tokens, before, after)
    ensures SortedByLocation(after) && LookedUp(query, tokens, after) && Disjoint(query, after)
    ensures multiset(Unmeasured(after)) == multiset(before)
  {
    var sorted: seq<ConstLoc> :| SortedByLocation(sorted) && multiset(sorted) == multiset(before)
      && Recorded(query, sorted) && after == OnePass(query, tokens, sorted);
    hide OnePass, LengthAt, TokenAt, LookedUpAt, Located, WellScanned, Disjoint;
    OnePassKeeps(query, tokens, sorted);
    InPermutation(before, sorted);
    LocatedSubset(query, tokens, before, sorted);
    forall i | 0 <= i < |after| ensures LookedUpAt(query, tokens, after, i) {
      OnePassIsLookup(query, tokens, sorted, i);
    }
    SameLocations(query, tokens, sorted, after);
    LookedUpDisjoint(query, tokens, after);
  }

  lemma OnePassKeeps(query: string, tokens: seq<Token>, locs: seq<ConstLoc>)
    requires WellScanned(query, tokens) && Recorded(query, locs)
    ensures forall i :: 0 <= i < |locs| ==> OnePass(query, tokens, locs)[i].location == locs[i].location
    ensures Unmeasured(OnePass(query, tokens, locs)) == locs
  {}

  /** The merge gives the first record at each location the length that looking its
      location up on its own gives, and leaves repeated records at -1. */
  lemma {:induction false} OnePassIsLookup(query: string, tokens: seq<Token>, locs: seq<ConstLoc>, i: nat)
    requires WellScanned(query, tokens) && Recorded(query, locs) && Located(query, tokens, locs)
    requires SortedByLocation(locs) && i < |locs|
    ensures LookedUpAt(query, tokens, OnePass(query, tokens, locs), i)
  {
    hide OnePass, MergeTo, FirstFrom, WellScanned;
    OnePassAt(query, tokens, locs, i);
    if i > 0 { OnePassAt(query, tokens, locs, i - 1); }
    MergeInvariant(query, tokens, locs, i);
    assert Placed(query, tokens, locs, locs[i].location);
    if IsFirst(locs, i) { ServedRight(query, tokens, locs, i); }
  }

  lemma InPermutation(a: seq<ConstLoc>, b: seq<ConstLoc>)
    requires multiset(a) == multiset(b)
    ensures forall i :: 0 <= i < |b| ==> b[i] in a
  {
    forall i | 0 <= i < |b| ensures b[i] in a {
      assert b[i] in multiset(b);
      assert b[i] in multiset(a);
    }
  }

  lemma SameLocations(query: string, tokens: seq<Token>, a: seq<ConstLoc>, b: seq<ConstLoc>)
    requires WellScanned(query, tokens) && Located(query, tokens, a) && SortedByLocation(a)
    requires |a| == |b| && forall i :: 0 <= i < |a| ==> a[i].location == b[i].location
    ensures Located(query, tokens, b) && SortedByLocation(b)
  {}

  /** The records as they were before measuring. */
  function Unmeasured(recs: seq<ConstLoc>): (r: seq<ConstLoc>)
    ensures |r| == |recs|
    ensures forall i :: 0 <= i < |r| ==> r[i] == recs[i].(length := -1)
  {
    seq(|recs|, i requires 0 <= i < |recs| => recs[i].(length := -1))
  }

  /** Why a number after a minus sign must not be recorded itself: in `-1 x` with both
      places recorded, the second record takes the text `1 x`, which overlaps the first. */
  lemma NumberAfterMinusOverlaps()
    ensures
      var query, tokens := "-1 x", [Token(0, 1), Token(1, 2), Token(3, 4)];
      var locs := [ConstLoc(0, -1, -1), ConstLoc(1, -1, -2)];
      && WellScanned(query, tokens) && Recorded(query, locs)
      && OnePass(query, tokens, locs)[0].length == 2
      && OnePass(query, tokens, locs)[1].length == 3
      && !Disjoint(query, OnePass(query, tokens, locs))
  {}
}
