/** When the lengths found for recorded constants are right: the exact condition on the
    recorded locations. */
module NormalizeMeasured {
  import opened NormalizeLengths

  /** The scanner skips white space in front of a token. */
  predicate TokensVisible(query: string, tokens: seq<Token>)
    requires WellScanned(query, tokens)
  {
    forall i :: 0 <= i < |tokens| ==> !IsSpace(query[tokens[i].start])
  }

  /** The length of a constant whose last token ends at `end`: all of it, but of a string with
      Unicode escapes, behind which the scanner has looked for more, without the white space
      at the end. */
  predicate IsLength(query: string, loc: nat, end: nat, length: int)
    requires loc < end <= |query|
  {
    if end - loc > 4 && (query[loc] == 'u' || query[loc] == 'U') && query[loc + 1] == '&' && query[loc + 2] == '\'' then
      && 0 < length <= end - loc && !IsSpace(query[loc + length - 1])
      && forall j :: loc + length <= j < end ==> IsSpace(query[j])
    else
      length == end - loc
  }

  lemma {:induction false} TrimmedIff(query: string, loc: nat, all: nat, length: nat)
    requires loc + all <= |query| && 0 < all && !IsSpace(query[loc])
    ensures length == TrimmedLength(query, loc, all) <==>
      && 0 < length <= all && !IsSpace(query[loc + length - 1]) && forall j :: loc + length <= j < loc + all ==> IsSpace(query[j])
    decreases all
  {
    if IsSpace(query[loc + all - 1]) {
      TrimmedIff(query, loc, all - 1, length);
    }
  }

  lemma SpaceCodes(c: char)
    ensures IsSpace(c) <==> c as int in {9, 10, 12, 13, 32}
  {}

  lemma ConstLengthIff(query: string, loc: nat, end: nat, length: int)
    requires loc < end <= |query|
    ensures IsLength(query, loc, end, length) <==> length == ConstLength(query, loc, end)
  {
    if HasUnicodePrefix(query, loc, end - loc) {
      hide TrimmedLength;
      if length >= 0 { TrimmedIff(query, loc, end - loc, length); }
    }
  }

  /** The constant at a location ends with the k-th token, which the location lies in, or,
      after a minus sign, with the next one. */
  predicate EndsWith(query: string, tokens: seq<Token>, rec: ConstLoc, k: nat)
    requires WellScanned(query, tokens) && k < |tokens|
  {
    && tokens[k].start <= rec.location < tokens[k].end <= |query|
    && var last := if query[rec.location] == '-' then k + 1 else k;
       last < |tokens| && rec.location < tokens[last].end <= |query| && IsLength(query, rec.location, tokens[last].end, rec.length)
  }

  /** A record got the length of its own constant. */
  ghost predicate OwnLength(query: string, tokens: seq<Token>, rec: ConstLoc)
    requires WellScanned(query, tokens)
  {
    exists k :: 0 <= k < |tokens| && EndsWith(query, tokens, rec, k)
  }

  /** Every location got the length of its own constant, once. */
  ghost predicate WellMeasured(query: string, tokens: seq<Token>, recs: seq<ConstLoc>)
    requires WellScanned(query, tokens)
  {
    forall i :: 0 <= i < |recs| ==> if IsFirst(recs, i) then OwnLength(query, tokens, recs[i]) else recs[i].length == -1
  }

  /** What the lookups of the merge come to, for locations that start a token. */
  ghost predicate AllFound(query: string, tokens: seq<Token>, recs: seq<ConstLoc>)
    requires WellScanned(query, tokens)
  {
    LookedUp(query, tokens, recs) && forall i :: 0 <= i < |recs| && IsFirst(recs, i) ==> recs[i].length >= 0
  }

  // ----- one location

  /** A location inside a token is served by that token exactly when the token starts
      there and has not been read yet; otherwise a later token is used. */
  lemma OwnTokenIff(query: string, tokens: seq<Token>, m: Merge, loc: nat, k: nat)
    requires WellScanned(query, tokens) && k < |tokens| && m.next <= |tokens|
    requires tokens[k].start <= loc < tokens[k].end && query[loc] != '-'
    ensures Serving(query, tokens, m, loc) == k <==> tokens[k].start == loc && m.next <= k
    ensures Serving(query, tokens, m, loc) >= k
  {
    assert forall i :: 0 <= i < k ==> tokens[i].end <= tokens[k].start;
    assert k + 1 < |tokens| ==> tokens[k].end <= tokens[k + 1].start;
  }

  /** Trimming stops at the latest at a visible character. */
  lemma {:induction false} TrimmedKeeps(query: string, loc: nat, length: nat, p: nat)
    requires loc + length <= |query| && p < length && !IsSpace(query[loc + p])
    ensures TrimmedLength(query, loc, length) > p
  {
    if p < length - 1 && IsSpace(query[loc + length - 1]) { TrimmedKeeps(query, loc, length - 1, p); }
  }

  /** Measuring to the end of a later token gives a greater length. */
  lemma LaterIsLonger(query: string, tokens: seq<Token>, loc: nat, j: nat, k: nat)
    requires WellScanned(query, tokens) && TokensVisible(query, tokens) && j < k < |tokens| && loc < tokens[j].end
    ensures ConstLength(query, loc, tokens[j].end) < ConstLength(query, loc, tokens[k].end)
  {
    hide TrimmedLength;
    var p := tokens[k].start - loc;
    TrimmedKeeps(query, loc, tokens[k].end - loc, p);
  }

  // ----- the whole pass

  lemma {:induction false} NextGrows(query: string, tokens: seq<Token>, locs: seq<ConstLoc>, j: nat, k: nat)
    requires Recorded(query, locs) && j <= k <= |locs|
    ensures MergeTo(query, tokens, locs, j).next <= MergeTo(query, tokens, locs, k).next
    decreases k
  {
    hide After;
    if j < k {
      NextGrows(query, tokens, locs, j, k - 1);
      AfterGrows(query, tokens, MergeTo(query, tokens, locs, k - 1), locs[k - 1].location);
    }
  }

  lemma AfterGrows(query: string, tokens: seq<Token>, m: Merge, loc: nat)
    requires m.next <= |tokens| && loc < |query|
    ensures m.next <= After(query, tokens, m, loc).next
  {}

  lemma {:induction false} FirstAt(recs: seq<ConstLoc>, i: nat) returns (f: nat)
    requires SortedByLocation(recs) && i < |recs|
    ensures f <= i && recs[f].location == recs[i].location && IsFirst(recs, f)
  {
    f := i;
    if !IsFirst(recs, i) { f := FirstAt(recs, i - 1); }
  }

  /** A first record with the right length has been served by its own tokens. */
  lemma ServedByOwn(query: string, tokens: seq<Token>, locs: seq<ConstLoc>, f: nat)
    requires WellScanned(query, tokens) && TokensVisible(query, tokens) && Recorded(query, locs)
    requires f < |locs| && StartsToken(tokens, locs[f].location)
    requires 0 <= LengthAt(query, tokens, locs[f].location) == OnePass(query, tokens, locs)[f].length
    ensures LastTokenAt(query, tokens, locs[f].location) < |tokens|
    ensures MergeTo(query, tokens, locs, f + 1).next == LastTokenAt(query, tokens, locs[f].location) + 1
    ensures MergeTo(query, tokens, locs, f).next <= LastTokenAt(query, tokens, locs[f].location)
  {
    hide ConstLength;
    OnePassAt(query, tokens, locs, f);
    var m, loc := MergeTo(query, tokens, locs, f), locs[f].location;
    var own, k := LastTokenAt(query, tokens, loc), Serving(query, tokens, m, loc);
    if own < k {
      LaterIsLonger(query, tokens, loc, own, k);
    } else if k < own {
      LaterIsLonger(query, tokens, loc, k, own);
    }
  }

  /** The number behind a recorded minus sign cannot get its own length as well. */
  lemma NumberNotRecorded(query: string, tokens: seq<Token>, locs: seq<ConstLoc>, f: nat, g: nat)
    requires WellScanned(query, tokens) && TokensVisible(query, tokens) && Recorded(query, locs)
    requires f < |locs| && g < |locs| && SortedByLocation(locs)
    requires StartsToken(tokens, locs[f].location) && query[locs[f].location] == '-'
    requires 0 <= LengthAt(query, tokens, locs[f].location) == OnePass(query, tokens, locs)[f].length
    requires StartsToken(tokens, locs[g].location)
    requires 0 <= LengthAt(query, tokens, locs[g].location) == OnePass(query, tokens, locs)[g].length
    requires LastTokenAt(query, tokens, locs[f].location) < |tokens|
    ensures locs[g].location != tokens[LastTokenAt(query, tokens, locs[f].location)].start
  {
    hide OnePass, LengthAt, MergeTo, ConstLength;
    ServedByOwn(query, tokens, locs, f);
    ServedByOwn(query, tokens, locs, g);
    var k := LastTokenAt(query, tokens, locs[f].location);
    if locs[g].location == tokens[k].start {
      assert TokenAt(query, tokens, locs[g].location) == k;
      assert f < g;
      NextGrows(query, tokens, locs, f + 1, g);
      assert query[locs[g].location] == '-' by {
        assert LastTokenAt(query, tokens, locs[g].location) > k;
      }
      MinusAfterMinus(query, tokens, locs, f, g);
    }
  }

  /** ... also when that number is a minus sign again. */
  lemma MinusAfterMinus(query: string, tokens: seq<Token>, locs: seq<ConstLoc>, f: nat, g: nat)
    requires WellScanned(query, tokens) && TokensVisible(query, tokens) && Recorded(query, locs) && f < g < |locs|
    requires StartsToken(tokens, locs[g].location) && query[locs[g].location] == '-'
    requires TokenAt(query, tokens, locs[g].location) < MergeTo(query, tokens, locs, g).next
    ensures !(0 <= LengthAt(query, tokens, locs[g].location) == OnePass(query, tokens, locs)[g].length)
  {
    hide ConstLength, OnePass, MergeTo, LengthAt;
    if 0 <= LengthAt(query, tokens, locs[g].location) == OnePass(query, tokens, locs)[g].length {
      ServedByOwn(query, tokens, locs, g);
      OnePassAt(query, tokens, locs, g);
      ServedNext(query, tokens, locs, g);
      assert false;
    }
  }

  lemma ServedNext(query: string, tokens: seq<Token>, locs: seq<ConstLoc>, g: nat)
    requires WellScanned(query, tokens) && Recorded(query, locs) && g < |locs|
    requires OnePass(query, tokens, locs)[g].length >= 0
    ensures MergeTo(query, tokens, locs, g + 1).next == Serving(query, tokens, MergeTo(query, tokens, locs, g), locs[g].location) + 1
  {
    OnePassAt(query, tokens, locs, g);
  }

  /** A record that got the length of its own constant starts the token it lies in: from a
      location inside a token the pass goes on to a later one, which ends further on. */
  lemma OwnLengthStarts(query: string, tokens: seq<Token>, locs: seq<ConstLoc>, i: nat, k: nat)
    requires WellScanned(query, tokens) && TokensVisible(query, tokens) && Recorded(query, locs)
    requires i < |locs| && k < |tokens| && EndsWith(query, tokens, OnePass(query, tokens, locs)[i], k)
    ensures tokens[k].start == locs[i].location && LookedUpFirst(query, tokens, OnePass(query, tokens, locs)[i])
  {
    hide ConstLength, IsLength, FirstFrom, WellScanned, TokensVisible, MergeTo, OnePass, TokenAt, LengthAt;
    OnePassAt(query, tokens, locs, i);
    var loc, m := locs[i].location, MergeTo(query, tokens, locs, i);
    var own, s := LastToken(query, loc, k), Serving(query, tokens, m, loc);
    NotEarlier(query, tokens, m.next, loc, k);
    EndsBehind(query, tokens, loc, k, own);
    ConstLengthIff(query, loc, tokens[own].end, OnePass(query, tokens, locs)[i].length);
    if own < s {
      LaterIsLonger(query, tokens, loc, own, s);
    }
    LookupAtStart(query, tokens, loc, k);
  }

  lemma NotEarlier(query: string, tokens: seq<Token>, next: nat, loc: nat, k: nat)
    requires WellScanned(query, tokens) && k < |tokens| && next <= |tokens| && tokens[k].start <= loc < tokens[k].end
    ensures FirstFrom(tokens, next, loc) >= k && (FirstFrom(tokens, next, loc) == k ==> tokens[k].start == loc)
  {
    assert forall j :: 0 <= j < k ==> tokens[j].end <= tokens[k].start;
  }

  lemma EndsBehind(query: string, tokens: seq<Token>, loc: nat, k: nat, last: nat)
    requires WellScanned(query, tokens) && k <= last < |tokens| && tokens[k].start <= loc < tokens[k].end
    ensures loc < tokens[last].end <= |query|
  {}

  lemma LookupAtStart(query: string, tokens: seq<Token>, loc: nat, k: nat)
    requires WellScanned(query, tokens) && k < |tokens| && tokens[k].start == loc < |query|
    ensures
      var last := LastToken(query, loc, k);
      StartsToken(tokens, loc) && (last < |tokens| ==> LengthAt(query, tokens, loc) == ConstLength(query, loc, tokens[last].end) >= 0)
  {
    assert StartsToken(tokens, loc);
    assert TokenAt(query, tokens, loc) == k;
  }

  /** The length is that of the lookup, which finds the constant. */
  predicate LookedUpFirst(query: string, tokens: seq<Token>, rec: ConstLoc)
    requires WellScanned(query, tokens)
  {
    StartsToken(tokens, rec.location) && 0 <= rec.length == LengthAt(query, tokens, rec.location)
  }

  lemma LookupIsOwn(query: string, tokens: seq<Token>, rec: ConstLoc)
    requires WellScanned(query, tokens) && 0 <= rec.location < |query| && LookedUpFirst(query, tokens, rec)
    ensures OwnLength(query, tokens, rec)
  {
    var k := TokenAt(query, tokens, rec.location);
    var last := LastToken(query, rec.location, k);
    EndsBehind(query, tokens, rec.location, k, last);
    ConstLengthIff(query, rec.location, tokens[last].end, rec.length);
    hide IsLength, ConstLength;
    assert EndsWith(query, tokens, rec, k);
  }

  /** Main result: in one pass over sorted records every location gets the length of its
      own constant if and only if every location starts a token and no number behind a
      recorded minus sign is recorded itself. */
  lemma MeasuredIff(query: string, tokens: seq<Token>, locs: seq<ConstLoc>)
    requires WellScanned(query, tokens) && TokensVisible(query, tokens)
    requires Recorded(query, locs) && SortedByLocation(locs)
    ensures WellMeasured(query, tokens, OnePass(query, tokens, locs)) <==> Located(query, tokens, locs)
  {
    var recs := OnePass(query, tokens, locs);
    hide OnePass, LengthAt, LastTokenAt, WellScanned, TokensVisible, EndsWith, Recorded;
    FoundIff(query, tokens, locs);
    if AllFound(query, tokens, recs) {
      forall i | 0 <= i < |recs| ensures if IsFirst(recs, i) then OwnLength(query, tokens, recs[i]) else recs[i].length == -1 {
        assert LookedUpAt(query, tokens, recs, i);
        if IsFirst(recs, i) {
          RecordedAt(query, tokens, locs, i);
          LookupIsOwn(query, tokens, recs[i]);
        }
      }
    }
    if WellMeasured(query, tokens, recs) {
      forall i | 0 <= i < |recs| ensures LookedUpAt(query, tokens, recs, i) && (IsFirst(recs, i) ==> recs[i].length >= 0) {
        OwnIsLookup(query, tokens, locs, i);
      }
    }
  }

  lemma RecordedAt(query: string, tokens: seq<Token>, locs: seq<ConstLoc>, i: nat)
    requires WellScanned(query, tokens) && Recorded(query, locs) && i < |locs|
    ensures 0 <= OnePass(query, tokens, locs)[i].location < |query|
  {
    OnePassAt(query, tokens, locs, i);
  }

  lemma OwnIsLookup(query: string, tokens: seq<Token>, locs: seq<ConstLoc>, i: nat)
    requires WellScanned(query, tokens) && TokensVisible(query, tokens)
    requires Recorded(query, locs) && SortedByLocation(locs) && i < |locs|
    requires WellMeasured(query, tokens, OnePass(query, tokens, locs))
    ensures
      var recs := OnePass(query, tokens, locs);
      LookedUpAt(query, tokens, recs, i) && (IsFirst(recs, i) ==> recs[i].length >= 0)
  {
    var recs := OnePass(query, tokens, locs);
    hide OnePass, LengthAt, WellScanned, TokensVisible, EndsWith, Recorded;
    OnePassKeeps(query, tokens, locs);
    assert SortedByLocation(recs);
    var f := FirstAt(recs, i);
    assert OwnLength(query, tokens, recs[f]);
    var k :| 0 <= k < |tokens| && EndsWith(query, tokens, recs[f], k);
    OwnLengthStarts(query, tokens, locs, f, k);
    if IsFirst(recs, i) { SameFirst(recs, f, i); }
  }

  lemma SameFirst(recs: seq<ConstLoc>, f: nat, i: nat)
    requires SortedByLocation(recs) && f <= i < |recs| && recs[f].location == recs[i].location && IsFirst(recs, i)
    ensures f == i
  {}

  lemma FoundIff(query: string, tokens: seq<Token>, locs: seq<ConstLoc>)
    requires WellScanned(query, tokens) && TokensVisible(query, tokens)
    requires Recorded(query, locs) && SortedByLocation(locs)
    ensures AllFound(query, tokens, OnePass(query, tokens, locs)) <==> Located(query, tokens, locs)
  {
    var recs := OnePass(query, tokens, locs);
    hide OnePass, LengthAt, LastTokenAt, WellScanned, TokensVisible;
    OnePassKeeps(query, tokens, locs);
    if Located(query, tokens, locs) {
      forall i | 0 <= i < |recs| ensures LookedUpAt(query, tokens, recs, i) && (IsFirst(recs, i) ==> recs[i].length >= 0) {
        OnePassIsLookup(query, tokens, locs, i);
        assert Placed(query, tokens, locs, locs[i].location);
        LookupIsPiece(query, tokens, locs, locs[i].location);
      }
    } else if AllFound(query, tokens, recs) {
      forall i | 0 <= i < |locs| ensures Placed(query, tokens, locs, locs[i].location) {
        FoundIsPlaced(query, tokens, locs, i);
      }
      assert false;
    }
  }

  lemma FoundIsPlaced(query: string, tokens: seq<Token>, locs: seq<ConstLoc>, i: nat)
    requires WellScanned(query, tokens) && TokensVisible(query, tokens)
    requires Recorded(query, locs) && SortedByLocation(locs) && i < |locs|
    requires AllFound(query, tokens, OnePass(query, tokens, locs))
    ensures Placed(query, tokens, locs, locs[i].location)
  {
    var recs := OnePass(query, tokens, locs);
    hide OnePass, LengthAt, LastTokenAt, WellScanned, TokensVisible;
    OnePassKeeps(query, tokens, locs);
    assert SortedByLocation(recs);
    var f := FirstAt(recs, i);
    assert LookedUpAt(query, tokens, recs, f);
    ServedByOwn(query, tokens, locs, f);
    if query[locs[i].location] == '-' {
      forall j | 0 <= j < |locs| ensures locs[j].location != tokens[LastTokenAt(query, tokens, locs[i].location)].start {
        var g := FirstAt(recs, j);
        assert LookedUpAt(query, tokens, recs, g);
        NumberNotRecorded(query, tokens, locs, f, g);
      }
    }
  }

  /** The same for the records of the walk, in whatever order equal locations are sorted. */
  lemma FilledIff(query: string, tokens: seq<Token>, before: seq<ConstLoc>, after: seq<ConstLoc>)
    requires WellScanned(query, tokens) && TokensVisible(query, tokens) && Filled(query, tokens, before, after)
    ensures WellMeasured(query, tokens, after) <==> Located(query, tokens, before)
  {
    hide OnePass, Located, WellMeasured, TokensVisible, WellScanned;
    var sorted: seq<ConstLoc> :| SortedByLocation(sorted) && multiset(sorted) == multiset(before)
      && Recorded(query, sorted) && after == OnePass(query, tokens, sorted);
    MeasuredIff(query, tokens, sorted);
    InPermutation(before, sorted);
    InPermutation(sorted, before);
    if Located(query, tokens, before) { LocatedSubset(query, tokens, before, sorted); }
    if Located(query, tokens, sorted) { LocatedSubset(query, tokens, sorted, before); }
  }
}
