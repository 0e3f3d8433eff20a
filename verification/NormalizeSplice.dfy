/** Rewriting a query: each measured constant is replaced by its parameter symbol,
    in one pass over a buffer that is allocated once. */
module NormalizeSplice {
  import opened Common
  import opened NormalizeLengths

  /** Replace `length` characters at `off` by `text`. */
  datatype Edit = Edit(off: nat, length: nat, text: string)

  function EndOf(edits: seq<Edit>, k: nat): nat
    requires k <= |edits|
  {
    if k == 0 then 0 else edits[k - 1].off + edits[k - 1].length
  }

  predicate FitsAt(q: string, edits: seq<Edit>, k: nat)
    requires k < |edits|
  {
    EndOf(edits, k) <= edits[k].off && edits[k].length > 0 && edits[k].off + edits[k].length <= |q|
  }

  /** The edits are in order, apart, inside the query, and each removes something. */
  predicate Fits(q: string, edits: seq<Edit>) {
    forall k :: 0 <= k < |edits| ==> FitsAt(q, edits, k)
  }

  lemma FitsEnd(q: string, edits: seq<Edit>, k: nat)
    requires Fits(q, edits) && k <= |edits|
    ensures EndOf(edits, k) <= |q|
  {
    if k > 0 { assert FitsAt(q, edits, k - 1); }
  }

  /** The text between two edits. */
  function Gap(q: string, edits: seq<Edit>, k: nat): string
    requires Fits(q, edits) && k < |edits|
  {
    assert FitsAt(q, edits, k);
    q[EndOf(edits, k)..edits[k].off]
  }

  /** What is written once the k-th edit is done: gap, replacement, gap, replacement ... */
  function Written(q: string, edits: seq<Edit>, k: nat): string
    requires Fits(q, edits) && k <= |edits|
  {
    if k == 0 then "" else Written(q, edits, k - 1) + Gap(q, edits, k - 1) + edits[k - 1].text
  }

  /** The whole result: after the last replacement comes the rest of the query. */
  function Spliced(q: string, edits: seq<Edit>): string
    requires Fits(q, edits)
  {
    FitsEnd(q, edits, |edits|);
    Written(q, edits, |edits|) + q[EndOf(edits, |edits|)..]
  }

  // ----- round trip

  /** The k-th replacement seen from the result: where it stands, and what it stood for. */
  function Undo(q: string, edits: seq<Edit>, k: nat): Edit
    requires Fits(q, edits) && k < |edits|
  {
    assert FitsAt(q, edits, k);
    Edit(|Written(q, edits, k) + Gap(q, edits, k)|, |edits[k].text|, q[edits[k].off..edits[k].off + edits[k].length])
  }

  function Undos(q: string, edits: seq<Edit>): (r: seq<Edit>)
    requires Fits(q, edits)
    ensures |r| == |edits| && forall k :: 0 <= k < |r| ==> r[k] == Undo(q, edits, k)
  {
    seq(|edits|, k requires 0 <= k < |edits| => Undo(q, edits, k))
  }

  predicate Visible(edits: seq<Edit>) {
    forall k :: 0 <= k < |edits| ==> edits[k].text != ""
  }

  /** What was written stays a prefix of the result. */
  lemma {:induction false} WrittenIsPrefix(q: string, edits: seq<Edit>, k: nat, n: nat)
    requires Fits(q, edits) && k <= n <= |edits|
    ensures Written(q, edits, k) <= Written(q, edits, n)
    ensures k < n ==> Written(q, edits, k) + Gap(q, edits, k) + edits[k].text <= Written(q, edits, n)
  {
    if k < n { WrittenIsPrefix(q, edits, k, n - 1); }
  }

  lemma UndosFit(q: string, edits: seq<Edit>)
    requires Fits(q, edits) && Visible(edits)
    ensures Fits(Spliced(q, edits), Undos(q, edits))
  {
    var out, undos := Spliced(q, edits), Undos(q, edits);
    forall k | 0 <= k < |undos| ensures FitsAt(out, undos, k) {
      assert FitsAt(q, edits, k);
      WrittenIsPrefix(q, edits, k + 1, |edits|);
    }
  }

  lemma UndoAt(q: string, edits: seq<Edit>, k: nat)
    requires Fits(q, edits) && k < |edits|
    ensures EndOf(edits, k) <= edits[k].off <= edits[k].off + edits[k].length <= |q|
    ensures Gap(q, edits, k) == q[EndOf(edits, k)..edits[k].off]
    ensures Undos(q, edits)[k].text == q[edits[k].off..edits[k].off + edits[k].length]
  {
    assert FitsAt(q, edits, k);
  }

  /** Undoing k edits of the result has rebuilt the query up to the k-th constant's end. */
  lemma {:induction false} UndoneUpTo(q: string, edits: seq<Edit>, k: nat)
    requires Fits(q, edits) && Visible(edits) && k <= |edits|
    requires Fits(Spliced(q, edits), Undos(q, edits))
    ensures EndOf(edits, k) <= |q|
    ensures Written(Spliced(q, edits), Undos(q, edits), k) == q[..EndOf(edits, k)]
  {
    hide Fits, Undos, Spliced, Gap;
    if k > 0 {
      UndoneUpTo(q, edits, k - 1);
      GapSurvives(q, edits, k - 1);
      UndoAt(q, edits, k - 1);
      WrittenNext(Spliced(q, edits), Undos(q, edits), k);
      hide Written;
      ThreeParts(q, EndOf(edits, k - 1), edits[k - 1].off, EndOf(edits, k));
    }
  }

  lemma WrittenNext(q: string, edits: seq<Edit>, k: nat)
    requires Fits(q, edits) && 0 < k <= |edits|
    ensures Written(q, edits, k) == Written(q, edits, k - 1) + Gap(q, edits, k - 1) + edits[k - 1].text
  {}

  lemma ThreeParts(q: string, a: nat, b: nat, c: nat)
    requires a <= b <= c <= |q|
    ensures q[..c] == q[..a] + q[a..b] + q[b..c]
  {}

  /** The gaps of the result are the gaps of the query. */
  lemma GapSurvives(q: string, edits: seq<Edit>, k: nat)
    requires Fits(q, edits) && Visible(edits) && k < |edits|
    requires Fits(Spliced(q, edits), Undos(q, edits))
    ensures Gap(Spliced(q, edits), Undos(q, edits), k) == Gap(q, edits, k)
  {
    var out, before, gap := Spliced(q, edits), Written(q, edits, k), Gap(q, edits, k);
    WrittenIsPrefix(q, edits, k, |edits|);
    assert before + gap + edits[k].text <= Written(q, edits, |edits|) <= out;
    assert out[..|before + gap|] == before + gap;
  }

  /** Putting each constant's text back in its slot rebuilds the query. */
  lemma SplicedRoundTrip(q: string, edits: seq<Edit>)
    requires Fits(q, edits) && Visible(edits)
    ensures Fits(Spliced(q, edits), Undos(q, edits))
    ensures Spliced(Spliced(q, edits), Undos(q, edits)) == q
  {
    var n := |edits|;
    UndosFit(q, edits);
    UndoneUpTo(q, edits, n);
    FitsEnd(q, edits, n);
    assert Spliced(q, edits)[|Written(q, edits, n)|..] == q[EndOf(edits, n)..];
    assert q == q[..EndOf(edits, n)] + q[EndOf(edits, n)..];
  }

  // ----- the buffer bound

  predicate Short(edits: seq<Edit>) {
    forall k :: 0 <= k < |edits| ==> |edits[k].text| <= 11
  }

  /** Every edit removes at least one byte and adds at most eleven. */
  lemma {:induction false} WrittenBound(q: string, edits: seq<Edit>, k: nat)
    requires Fits(q, edits) && Short(edits) && k <= |edits|
    ensures |Written(q, edits, k)| <= EndOf(edits, k) + 10 * k
  {
    if k > 0 {
      WrittenBound(q, edits, k - 1);
      assert FitsAt(q, edits, k - 1);
    }
  }

  // ----- the length of the result

  /** How much longer the first k edits make the text. */
  function Gain(edits: seq<Edit>, k: nat): int
    requires k <= |edits|
  {
    if k == 0 then 0 else Gain(edits, k - 1) + |edits[k - 1].text| - edits[k - 1].length
  }

  lemma {:induction false} WrittenLength(q: string, edits: seq<Edit>, k: nat)
    requires Fits(q, edits) && k <= |edits|
    ensures |Written(q, edits, k)| == EndOf(edits, k) + Gain(edits, k)
  {
    if k > 0 {
      WrittenLength(q, edits, k - 1);
      assert FitsAt(q, edits, k - 1);
    }
  }

  // ----- from records to edits

  /** The parameter a constant becomes. */
  function ParamNumber(rec: ConstLoc, highestExtern: int): int {
    if rec.paramId < 0 then highestExtern + -rec.paramId else rec.paramId
  }

  function EditOf(rec: ConstLoc, highestExtern: int): Edit
    requires rec.location >= 0 && rec.length >= 0
  {
    Edit(rec.location, rec.length, "$" + Decimal(ParamNumber(rec, highestExtern)))
  }

  predicate Placeable(recs: seq<ConstLoc>) {
    forall i :: 0 <= i < |recs| && recs[i].length >= 0 ==> recs[i].location >= 0
  }

  lemma EditsNext(recs: seq<ConstLoc>, highestExtern: int, k: nat)
    requires k < |recs| && Placeable(recs)
    ensures EditsOf(recs, highestExtern, 0) == []
    ensures recs[k].length < 0 ==> EditsOf(recs, highestExtern, k + 1) == EditsOf(recs, highestExtern, k)
    ensures recs[k].length >= 0 ==> recs[k].location >= 0
    ensures recs[k].length >= 0 ==>
      EditsOf(recs, highestExtern, k + 1) == EditsOf(recs, highestExtern, k) + [EditOf(recs[k], highestExtern)]
  {}

  /** The edits of the first k records; records without a length are skipped. */
  function EditsOf(recs: seq<ConstLoc>, highestExtern: int, k: nat): (r: seq<Edit>)
    requires k <= |recs| && Placeable(recs)
    ensures |r| <= k
  {
    if k == 0 then []
    else if recs[k - 1].length < 0 then EditsOf(recs, highestExtern, k - 1)
    else EditsOf(recs, highestExtern, k - 1) + [EditOf(recs[k - 1], highestExtern)]
  }

  predicate NumbersFit(recs: seq<ConstLoc>, highestExtern: int) {
    forall i :: 0 <= i < |recs| ==> 0 <= (if recs[i].paramId >= 0 then recs[i].paramId else highestExtern - recs[i].paramId) <= INT_MAX
  }

  lemma {:induction false} EditsShort(recs: seq<ConstLoc>, highestExtern: int, k: nat)
    requires Placeable(recs) && NumbersFit(recs, highestExtern) && k <= |recs|
    ensures Visible(EditsOf(recs, highestExtern, k)) && Short(EditsOf(recs, highestExtern, k))
  {
    hide Decimal;
    if k > 0 {
      EditsShort(recs, highestExtern, k - 1);
      DecimalAtMostTenDigits(ParamNumber(recs[k - 1], highestExtern));
    }
  }

  // ----- when the edits fit

  lemma FitsNext(query: string, done: seq<Edit>, e: Edit)
    ensures Fits(query, done + [e]) <==>
      Fits(query, done) && EndOf(done, |done|) <= e.off && e.length > 0 && e.off + e.length <= |query|
  {
    var next := done + [e];
    forall k | 0 <= k < |done| ensures FitsAt(query, done, k) <==> FitsAt(query, next, k) {}
    if Fits(query, next) { assert FitsAt(query, next, |done|); }
  }

  lemma {:induction false} FitsPrefix(query: string, recs: seq<ConstLoc>, highestExtern: int, j: nat, k: nat)
    requires Placeable(recs) && j <= k <= |recs| && Fits(query, EditsOf(recs, highestExtern, k))
    ensures Fits(query, EditsOf(recs, highestExtern, j))
  {
    hide Fits, EditsOf, EditOf, Placeable;
    if j < k {
      EditsNext(recs, highestExtern, k - 1);
      if recs[k - 1].length >= 0 {
        FitsNext(query, EditsOf(recs, highestExtern, k - 1), EditOf(recs[k - 1], highestExtern));
      }
      FitsPrefix(query, recs, highestExtern, j, k - 1);
    }
  }

  /** No two of the first k measured records overlap. */
  predicate ApartUpTo(recs: seq<ConstLoc>, k: nat)
    requires k <= |recs|
  {
    forall i, j :: 0 <= i < j < k && recs[i].length >= 0 && recs[j].length >= 0 ==>
      recs[i].location + recs[i].length <= recs[j].location
  }

  predicate BehindAll(recs: seq<ConstLoc>, k: nat, end: nat)
    requires k <= |recs|
  {
    forall i :: 0 <= i < k && recs[i].length >= 0 ==> recs[i].location + recs[i].length <= end
  }

  predicate EndsOne(recs: seq<ConstLoc>, k: nat, end: nat)
    requires k <= |recs|
  {
    exists i :: 0 <= i < k && recs[i].length >= 0 && recs[i].location + recs[i].length == end
  }

  predicate FitTells(query: string, recs: seq<ConstLoc>, k: nat, edits: seq<Edit>)
    requires k <= |recs|
  {
    && (Fits(query, edits) <==> ApartUpTo(recs, k))
    && (Fits(query, edits) ==> BehindAll(recs, k, EndOf(edits, |edits|)))
    && (edits != [] ==> EndsOne(recs, k, EndOf(edits, |edits|)))
  }

  /** The edits of measured records fit if and only if the records do not overlap. */
  lemma {:induction false} FitsIffApart(query: string, recs: seq<ConstLoc>, highestExtern: int, k: nat)
    requires Inside(query, recs) && Placeable(recs) && k <= |recs|
    ensures FitTells(query, recs, k, EditsOf(recs, highestExtern, k))
  {
    hide FitTells, Placeable, Inside, EditsOf;
    if k == 0 {
      NothingFits(query, recs, highestExtern);
    } else {
      FitsIffApart(query, recs, highestExtern, k - 1);
      EditsNext(recs, highestExtern, k - 1);
      if recs[k - 1].length >= 0 {
        OneMoreEdit(query, recs, highestExtern, k - 1, EditsOf(recs, highestExtern, k - 1));
      } else {
        SkippedEdit(query, recs, k - 1, EditsOf(recs, highestExtern, k - 1));
      }
    }
  }

  lemma NothingFits(query: string, recs: seq<ConstLoc>, highestExtern: int)
    requires Placeable(recs)
    ensures FitTells(query, recs, 0, EditsOf(recs, highestExtern, 0))
  {}

  lemma SkippedEdit(query: string, recs: seq<ConstLoc>, k: nat, edits: seq<Edit>)
    requires k < |recs| && recs[k].length < 0 && FitTells(query, recs, k, edits)
    ensures FitTells(query, recs, k + 1, edits)
  {
    hide Fits, ApartUpTo, BehindAll, EndsOne;
    SkippedRecord(recs, k, EndOf(edits, |edits|));
  }

  lemma OneMoreEdit(query: string, recs: seq<ConstLoc>, highestExtern: int, k: nat, edits: seq<Edit>)
    requires Inside(query, recs) && k < |recs| && recs[k].length >= 0 && recs[k].location >= 0
    requires FitTells(query, recs, k, edits)
    ensures FitTells(query, recs, k + 1, edits + [EditOf(recs[k], highestExtern)])
  {
    hide Fits, ApartUpTo, BehindAll, EndsOne, Inside, EditOf;
    FitsNext(query, edits, EditOf(recs[k], highestExtern));
    EditEnd(edits, recs[k], highestExtern);
    OneMoreApart(query, recs, k, EndOf(edits, |edits|), edits == []);
    InsideAt(query, recs, k);
  }

  lemma InsideAt(query: string, recs: seq<ConstLoc>, k: nat)
    requires Inside(query, recs) && k < |recs| && recs[k].length >= 0
    ensures recs[k].length > 0 && recs[k].location + recs[k].length <= |query|
  {}

  lemma SkippedRecord(recs: seq<ConstLoc>, k: nat, end: nat)
    requires k < |recs|
    ensures recs[k].length < 0 ==>
      && (ApartUpTo(recs, k + 1) <==> ApartUpTo(recs, k))
      && (BehindAll(recs, k, end) ==> BehindAll(recs, k + 1, end))
      && (EndsOne(recs, k, end) ==> EndsOne(recs, k + 1, end))
  {}

  lemma EditEnd(before: seq<Edit>, rec: ConstLoc, highestExtern: int)
    requires rec.location >= 0 && rec.length >= 0
    ensures
      var e, next := EditOf(rec, highestExtern), before + [EditOf(rec, highestExtern)];
      && EndOf(next, |next|) == rec.location + rec.length && e.off == rec.location && e.length == rec.length
      && (before == [] ==> EndOf(before, |before|) == 0)
  {}

  lemma OneMoreApart(query: string, recs: seq<ConstLoc>, k: nat, end: nat, none: bool)
    requires Inside(query, recs) && k < |recs| && recs[k].length >= 0
    requires ApartUpTo(recs, k) ==> BehindAll(recs, k, end)
    requires none ==> end == 0
    requires !none ==> EndsOne(recs, k, end)
    ensures ApartUpTo(recs, k + 1) <==> ApartUpTo(recs, k) && end <= recs[k].location
    ensures ApartUpTo(recs, k + 1) ==> BehindAll(recs, k + 1, recs[k].location + recs[k].length)
    ensures EndsOne(recs, k + 1, recs[k].location + recs[k].length)
  {}

  lemma FitsIffDisjoint(query: string, recs: seq<ConstLoc>, highestExtern: int)
    requires Inside(query, recs)
    ensures Placeable(recs) && (Fits(query, EditsOf(recs, highestExtern, |recs|)) <==> Disjoint(query, recs))
  {
    FitsIffApart(query, recs, highestExtern, |recs|);
  }

  // ----- when the result is longer than the query

  /** A measured piece is replaced by a dollar sign and digits. */
  function PieceGain(rec: ConstLoc, highestExtern: int): int {
    if rec.length < 0 then 0 else 1 + |Decimal(ParamNumber(rec, highestExtern))| - rec.length
  }

  /** What the first k records add. */
  function RecordGain(recs: seq<ConstLoc>, highestExtern: int, k: nat): int
    requires k <= |recs|
  {
    if k == 0 then 0 else RecordGain(recs, highestExtern, k - 1) + PieceGain(recs[k - 1], highestExtern)
  }

  lemma {:induction false} GainPrefix(a: seq<Edit>, e: Edit, k: nat)
    requires k <= |a|
    ensures Gain(a + [e], k) == Gain(a, k)
  {
    if k > 0 { GainPrefix(a, e, k - 1); }
  }

  lemma {:induction false} GainOfRecords(recs: seq<ConstLoc>, highestExtern: int, k: nat)
    requires Placeable(recs) && k <= |recs|
    ensures Gain(EditsOf(recs, highestExtern, k), |EditsOf(recs, highestExtern, k)|) == RecordGain(recs, highestExtern, k)
  {
    hide Decimal;
    if k > 0 {
      var before := EditsOf(recs, highestExtern, k - 1);
      GainOfRecords(recs, highestExtern, k - 1);
      if recs[k - 1].length >= 0 { GainPrefix(before, EditOf(recs[k - 1], highestExtern), |before|); }
    }
  }

  /** The normalized query is exactly so much longer than the query; in particular it is
      not longer if and only if the symbols need no more room than the constants. */
  lemma NotLongerIff(query: string, recs: seq<ConstLoc>, highestExtern: int)
    requires Disjoint(query, recs)
    ensures
      var edits, gain := EditsOf(recs, highestExtern, |recs|), RecordGain(recs, highestExtern, |recs|);
      && Fits(query, edits) && |Spliced(query, edits)| == |query| + gain
      && (|Spliced(query, edits)| <= |query| <==> gain <= 0)
  {
    hide Fits, Disjoint;
    FitsIffDisjoint(query, recs, highestExtern) by { assert Inside(query, recs) by { DisjointInside(query, recs); } }
    var edits := EditsOf(recs, highestExtern, |recs|);
    WrittenLength(query, edits, |edits|);
    GainOfRecords(recs, highestExtern, |recs|);
    FitsEnd(query, edits, |edits|);
  }

  lemma DisjointInside(query: string, recs: seq<ConstLoc>)
    requires Disjoint(query, recs)
    ensures Inside(query, recs)
  {}

  /** `SELECT 1` becomes longer. */
  lemma OneBecomesLonger()
    ensures
      var query, recs := "SELECT 1", [ConstLoc(7, 1, -1)];
      && Disjoint(query, recs) && Fits(query, EditsOf(recs, 0, 1))
      && Spliced(query, EditsOf(recs, 0, 1)) == "SELECT $1"
  {
    var query, recs := "SELECT 1", [ConstLoc(7, 1, -1)];
    assert Decimal(1) == "1";
    assert EditsOf(recs, 0, 0) == [];
    var edits := [Edit(7, 1, "$1")];
    assert EditOf(recs[0], 0) == edits[0];
    assert EditsOf(recs, 0, 1) == EditsOf(recs, 0, 0) + [EditOf(recs[0], 0)];
    assert EditsOf(recs, 0, 1) == edits;
    assert Gap(query, edits, 0) == "SELECT ";
    assert Written(query, edits, 1) == "" + "SELECT " + "$1" == "SELECT $1";
    assert Spliced(query, edits) == "SELECT $1" + query[8..];
    assert "SELECT $1" + query[8..] == "SELECT $1";
  }

  // ----- the text as a reader sees it

  /** A dollar sign and the decimal digits of a number, without leading zeros. */
  predicate IsSymbol(s: string, n: int) {
    && |s| >= 2 && s[0] == '$' && (s[1] == '0' ==> s == "$0")
    && (forall i :: 1 <= i < |s| ==> '0' <= s[i] <= '9')
    && DigitsValue(s[1..]) == n
  }

  /** The text is the query from a position on, with every measured piece replaced by the
      symbol of the record. */
  predicate Assembled(query: string, from: nat, recs: seq<ConstLoc>, symbols: seq<string>, text: string)
    requires |symbols| == |recs|
    decreases |recs|
  {
    if recs == [] then
      from <= |query| && text == query[from..]
    else if recs[0].length < 0 then
      Assembled(query, from, recs[1..], symbols[1..], text)
    else
      && from <= recs[0].location <= recs[0].location + recs[0].length <= |query|
      && var head := query[from..recs[0].location] + symbols[0];
         && head <= text && Assembled(query, recs[0].location + recs[0].length, recs[1..], symbols[1..], text[|head|..])
  }

  /** An outside parameter keeps its number; an id of the walk is counted from the highest
      outside parameter on. */
  predicate Labelled(recs: seq<ConstLoc>, highestExtern: int, symbols: seq<string>)
    requires |symbols| == |recs|
  {
    forall j :: 0 <= j < |recs| && recs[j].length >= 0 ==>
      IsSymbol(symbols[j], if recs[j].paramId >= 0 then recs[j].paramId else highestExtern - recs[j].paramId)
  }

  lemma SymbolIsSymbol(n: nat)
    ensures IsSymbol("$" + Decimal(n), n)
  {
    DigitsRoundTrip(n);
    var s := "$" + Decimal(n);
    assert s[1..] == Digits(n);
    if n == 0 { assert Digits(0) == "0"; }
  }

  function SymbolsOf(recs: seq<ConstLoc>, highestExtern: int): (r: seq<string>)
    ensures |r| == |recs| && forall j :: 0 <= j < |r| ==> r[j] == "$" + Decimal(ParamNumber(recs[j], highestExtern))
  {
    seq(|recs|, j requires 0 <= j < |recs| => "$" + Decimal(ParamNumber(recs[j], highestExtern)))
  }

  lemma SymbolsAreLabelled(recs: seq<ConstLoc>, highestExtern: int)
    requires NumbersFit(recs, highestExtern)
    ensures Labelled(recs, highestExtern, SymbolsOf(recs, highestExtern))
  {
    hide IsSymbol, Decimal;
    forall j | 0 <= j < |recs|
      ensures IsSymbol(SymbolsOf(recs, highestExtern)[j], if recs[j].paramId >= 0 then recs[j].paramId else highestExtern - recs[j].paramId)
    {
      SymbolIsSymbol(ParamNumber(recs[j], highestExtern));
    }
  }

  /** What is written for the first k records. */
  function WrittenFor(query: string, recs: seq<ConstLoc>, highestExtern: int, k: nat): string
    requires Placeable(recs) && k <= |recs| && Fits(query, EditsOf(recs, highestExtern, k))
  {
    Written(query, EditsOf(recs, highestExtern, k), |EditsOf(recs, highestExtern, k)|)
  }

  lemma WrittenForNext(query: string, recs: seq<ConstLoc>, highestExtern: int, k: nat)
    requires Placeable(recs) && k < |recs| && Fits(query, EditsOf(recs, highestExtern, k + 1))
    ensures Fits(query, EditsOf(recs, highestExtern, k))
    ensures
      var e, f := EditsOf(recs, highestExtern, k), EditsOf(recs, highestExtern, k + 1);
      if recs[k].length < 0 then f == e
      else
        && EndOf(e, |e|) <= recs[k].location <= recs[k].location + recs[k].length == EndOf(f, |f|) <= |query|
        && WrittenFor(query, recs, highestExtern, k + 1) ==
           WrittenFor(query, recs, highestExtern, k) + (query[EndOf(e, |e|)..recs[k].location] + SymbolsOf(recs, highestExtern)[k])
  {
    hide Decimal, Fits;
    EditsNext(recs, highestExtern, k);
    var e, f := EditsOf(recs, highestExtern, k), EditsOf(recs, highestExtern, k + 1);
    if recs[k].length >= 0 {
      FitsNext(query, e, EditOf(recs[k], highestExtern));
      WrittenExtends(query, e, f, |e|);
      assert f[|e|] == EditOf(recs[k], highestExtern) && |f| == |e| + 1;
      assert Gap(query, f, |e|) == query[EndOf(f, |e|)..f[|e|].off];
      SameEnd(e, f);
    }
  }

  lemma SameEnd(e: seq<Edit>, f: seq<Edit>)
    requires e <= f
    ensures EndOf(f, |e|) == EndOf(e, |e|)
  {}

  lemma {:induction false} WrittenForGrows(query: string, recs: seq<ConstLoc>, highestExtern: int, k: nat)
    requires Placeable(recs) && k <= |recs| && Fits(query, EditsOf(recs, highestExtern, |recs|))
    ensures Fits(query, EditsOf(recs, highestExtern, k))
    ensures WrittenFor(query, recs, highestExtern, k) <= Spliced(query, EditsOf(recs, highestExtern, |recs|))
    decreases |recs| - k
  {
    hide Fits, EditsOf, Placeable;
    if k < |recs| {
      WrittenForGrows(query, recs, highestExtern, k + 1);
      WrittenForNext(query, recs, highestExtern, k);
    }
  }

  /** What is written after the first k records is the query from there on with its pieces
      replaced. */
  predicate TailAssembled(query: string, recs: seq<ConstLoc>, highestExtern: int, k: nat)
    requires Placeable(recs) && k <= |recs| && Fits(query, EditsOf(recs, highestExtern, |recs|))
  {
    var e, whole := EditsOf(recs, highestExtern, k), Spliced(query, EditsOf(recs, highestExtern, |recs|));
    && Fits(query, e) && WrittenFor(query, recs, highestExtern, k) <= whole
    && Assembled(query, EndOf(e, |e|), recs[k..], SymbolsOf(recs, highestExtern)[k..], whole[|WrittenFor(query, recs, highestExtern, k)|..])
  }

  lemma {:induction false} SplicedIsAssembled(query: string, recs: seq<ConstLoc>, highestExtern: int, k: nat)
    requires Placeable(recs) && k <= |recs| && Fits(query, EditsOf(recs, highestExtern, |recs|))
    ensures TailAssembled(query, recs, highestExtern, k)
    decreases |recs| - k
  {
    hide TailAssembled, Fits, EditsOf, Placeable;
    if k == |recs| {
      EndAssembled(query, recs, highestExtern);
    } else {
      SplicedIsAssembled(query, recs, highestExtern, k + 1);
      WrittenForGrows(query, recs, highestExtern, k);
      WrittenForGrows(query, recs, highestExtern, k + 1);
      if recs[k].length < 0 {
        SkippedAssembled(query, recs, highestExtern, k);
      } else {
        NextAssembled(query, recs, highestExtern, k);
      }
    }
  }

  lemma EndAssembled(query: string, recs: seq<ConstLoc>, highestExtern: int)
    requires Placeable(recs) && Fits(query, EditsOf(recs, highestExtern, |recs|))
    ensures TailAssembled(query, recs, highestExtern, |recs|)
  {
    hide Fits, EditsOf, Placeable, Written, Assembled;
    var n, e := |recs|, EditsOf(recs, highestExtern, |recs|);
    RestIsTail(query, e, Spliced(query, e)[|Written(query, e, |e|)|..]);
    NothingLeft(query, EndOf(e, |e|), query[EndOf(e, |e|)..]);
    assert recs[n..] == [] && SymbolsOf(recs, highestExtern)[n..] == [];
  }

  lemma SkippedAssembled(query: string, recs: seq<ConstLoc>, highestExtern: int, k: nat)
    requires Placeable(recs) && k < |recs| && Fits(query, EditsOf(recs, highestExtern, |recs|)) && recs[k].length < 0
    requires TailAssembled(query, recs, highestExtern, k + 1)
    ensures TailAssembled(query, recs, highestExtern, k)
  {
    WrittenForNext(query, recs, highestExtern, k);
    hide Fits, EditsOf, Placeable, Assembled, Spliced, Written;
    var symbols := SymbolsOf(recs, highestExtern);
    var e, whole := EditsOf(recs, highestExtern, k), Spliced(query, EditsOf(recs, highestExtern, |recs|));
    assert recs[k..][1..] == recs[k + 1..] && symbols[k..][1..] == symbols[k + 1..];
    AssembledNext(query, EndOf(e, |e|), recs[k..], symbols[k..], whole[|WrittenFor(query, recs, highestExtern, k)|..]);
  }

  lemma NextAssembled(query: string, recs: seq<ConstLoc>, highestExtern: int, k: nat)
    requires Placeable(recs) && k < |recs| && Fits(query, EditsOf(recs, highestExtern, |recs|)) && recs[k].length >= 0
    requires TailAssembled(query, recs, highestExtern, k + 1)
    ensures TailAssembled(query, recs, highestExtern, k)
  {
    hide *;
    TailUnfolds(query, recs, highestExtern, k + 1);
    WrittenForNext(query, recs, highestExtern, k);
    var symbols := SymbolsOf(recs, highestExtern);
    var e, whole := EditsOf(recs, highestExtern, k), Spliced(query, EditsOf(recs, highestExtern, |recs|));
    TailUnfolds(query, recs, highestExtern, k);
    OneAssembled(query, EndOf(e, |e|), recs[k], recs[k + 1..], symbols[k], symbols[k + 1..],
                 WrittenFor(query, recs, highestExtern, k), WrittenFor(query, recs, highestExtern, k + 1), whole);
    HeadAndTail(recs, k);
    HeadAndTail(symbols, k);
  }

  lemma TailUnfolds(query: string, recs: seq<ConstLoc>, highestExtern: int, k: nat)
    requires Placeable(recs) && k <= |recs| && Fits(query, EditsOf(recs, highestExtern, |recs|))
    ensures
      var e, whole := EditsOf(recs, highestExtern, k), Spliced(query, EditsOf(recs, highestExtern, |recs|));
      TailAssembled(query, recs, highestExtern, k) <==>
        && Fits(query, e) && WrittenFor(query, recs, highestExtern, k) <= whole
        && Assembled(query, EndOf(e, |e|), recs[k..], SymbolsOf(recs, highestExtern)[k..],
                     whole[|WrittenFor(query, recs, highestExtern, k)|..])
  {}

  lemma HeadAndTail<T>(s: seq<T>, k: nat)
    requires k < |s|
    ensures s[k..] == [s[k]] + s[k + 1..]
  {}

  lemma OneAssembled(query: string, from: nat, rec: ConstLoc, recs: seq<ConstLoc>, symbol: string, symbols: seq<string>,
                     before: string, after: string, whole: string)
    requires 0 <= rec.length && |symbols| == |recs| && from <= rec.location <= rec.location + rec.length <= |query|
    requires after == before + (query[from..rec.location] + symbol) && after <= whole
    requires Assembled(query, rec.location + rec.length, recs, symbols, whole[|after|..])
    ensures before <= whole && Assembled(query, from, [rec] + recs, [symbol] + symbols, whole[|before|..])
  {
    hide Assembled;
    HeadOfRest(before, query[from..rec.location] + symbol, whole);
    assert ([rec] + recs)[1..] == recs && ([symbol] + symbols)[1..] == symbols;
    AssembledNext(query, from, [rec] + recs, [symbol] + symbols, whole[|before|..]);
  }

  lemma HeadOfRest(before: string, head: string, whole: string)
    requires before + head <= whole
    ensures before <= whole && head <= whole[|before|..] && whole[|before|..][|head|..] == whole[|before + head|..]
  {
    assert head == whole[|before|..|before| + |head|];
  }

  lemma RestIsTail(query: string, e: seq<Edit>, rest: string)
    requires Fits(query, e) && Written(query, e, |e|) + rest == Spliced(query, e)
    ensures EndOf(e, |e|) <= |query| && rest == query[EndOf(e, |e|)..]
  {
    FitsEnd(query, e, |e|);
    assert rest == Spliced(query, e)[|Written(query, e, |e|)|..];
  }

  lemma NothingLeft(query: string, from: nat, rest: string)
    requires from <= |query| && rest == query[from..]
    ensures Assembled(query, from, [], [], rest)
  {}

  lemma AssembledNext(query: string, from: nat, recs: seq<ConstLoc>, symbols: seq<string>, text: string)
    requires recs != [] && |symbols| == |recs|
    requires
      if recs[0].length < 0 then Assembled(query, from, recs[1..], symbols[1..], text)
      else
        && from <= recs[0].location <= recs[0].location + recs[0].length <= |query|
        && var head := query[from..recs[0].location] + symbols[0];
           head <= text && Assembled(query, recs[0].location + recs[0].length, recs[1..], symbols[1..], text[|head|..])
    ensures Assembled(query, from, recs, symbols, text)
  {}

  lemma WholeIsAssembled(query: string, recs: seq<ConstLoc>, highestExtern: int)
    requires Placeable(recs) && Fits(query, EditsOf(recs, highestExtern, |recs|)) && NumbersFit(recs, highestExtern)
    ensures Reads(query, recs, highestExtern, Spliced(query, EditsOf(recs, highestExtern, |recs|)))
  {
    hide Fits, Assembled, Labelled, NumbersFit;
    var symbols, text := SymbolsOf(recs, highestExtern), Spliced(query, EditsOf(recs, highestExtern, |recs|));
    SymbolsAreLabelled(recs, highestExtern);
    NoneWritten(query, recs, highestExtern);
    SplicedIsAssembled(query, recs, highestExtern, 0);
    assert recs[0..] == recs && symbols[0..] == symbols && text[0..] == text;
  }

  lemma NoneWritten(query: string, recs: seq<ConstLoc>, highestExtern: int)
    requires Placeable(recs)
    ensures EditsOf(recs, highestExtern, 0) == [] && Fits(query, []) && WrittenFor(query, recs, highestExtern, 0) == "" && EndOf([], 0) == 0
  {}

  /** The text is the query with every measured piece replaced by the symbol of its number. */
  ghost predicate Reads(query: string, recs: seq<ConstLoc>, highestExtern: int, text: string) {
    exists symbols: seq<string> ::
      |symbols| == |recs| && Assembled(query, 0, recs, symbols, text) && Labelled(recs, highestExtern, symbols)
  }

  // ----- the buffer

  /** Copy text into the buffer at `at`. */
  method Put(buf: array<char>, at: nat, text: string)
    requires at + |text| <= buf.Length
    modifies buf
    ensures buf[..at + |text|] == old(buf[..at]) + text
  {
    var i := 0;
    while i < |text|
      invariant 0 <= i <= |text|
      invariant buf[..at] == old(buf[..at])
      invariant buf[at..at + i] == text[..i]
    {
      buf[at + i] := text[i];
      assert buf[at..at + i + 1] == buf[at..at + i] + [text[i]];
      i := i + 1;
    }
    assert text[..|text|] == text;
    assert buf[..at + |text|] == buf[..at] + buf[at..at + |text|];
  }

  /** The edits made for the first k records. */
  ghost predicate Progress(query: string, edits: seq<Edit>, querLoc: nat, written: string) {
    && Fits(query, edits) && Short(edits)
    && querLoc == EndOf(edits, |edits|)
    && written == Written(query, edits, |edits|)
  }

  /** One turn of the loop: copy the chunk before the constant, then print its symbol
      (sprintf also writes a NUL). */
  method Replace(buf: array<char>, at: nat, query: string, querLoc: nat, lenToWrt: int, e: Edit, ghost done: seq<Edit>)
    returns (end: nat)
    requires at <= buf.Length && Progress(query, done, querLoc, buf[..at])
    requires Fits(query, done + [e]) && Short(done + [e]) && lenToWrt == e.off - querLoc
    requires |query| + 10 * (|done| + 1) < buf.Length
    modifies buf
    ensures end <= buf.Length && end <= |query| + 10 * (|done| + 1)
    ensures Progress(query, done + [e], e.off + e.length, buf[..end])
  {
    NextWritten(query, done, e, querLoc, buf[..at]);
    assert lenToWrt >= 0;
    Put(buf, at, query[querLoc..querLoc + lenToWrt]);
    Put(buf, at + lenToWrt, e.text + ['\0']);
    end := at + lenToWrt + |e.text|;
    assert buf[..end] == buf[..end + 1][..end];
  }

  /** The replacement loop. Every write lies inside the buffer allocated up front. It runs
      to its end if and only if the measured pieces do not overlap: otherwise a chunk has
      negative length and an assertion stops it (`ok` is false). */
  method GenerateNormalizedQuery(recs: seq<ConstLoc>, query: string, highestExtern: int)
    returns (ok: bool, normQuery: array<char>, length: nat)
    requires Inside(query, recs) && NumbersFit(recs, highestExtern)
    ensures fresh(normQuery)
    ensures ok <==> Disjoint(query, recs)
    ensures ok ==>
      && Fits(query, EditsOf(recs, highestExtern, |recs|))
      && length == |query| + RecordGain(recs, highestExtern, |recs|) <= |query| + |recs| * 10 && length < normQuery.Length
      && normQuery[..length] == Spliced(query, EditsOf(recs, highestExtern, |recs|))
      && normQuery[length] == '\0'
    ensures ok ==> Reads(query, recs, highestExtern, normQuery[..length])
  {
    FitsIffDisjoint(query, recs, highestExtern);
    hide Reads, Fits, Short, Written, NumbersFit, Disjoint, Placeable, Inside, EditsOf, Progress, Decimal, RecordGain, Spliced;
    var buflen := |query| + |recs| * 10;
    normQuery := new char[buflen + 1];
    ok, length := true, 0;
    var querLoc: nat, nQuerLoc: nat, lastOff: nat, lastTokLen: nat := 0, 0, 0, 0;
    var i := 0;
    assert normQuery[..0] == "";
    while i < |recs|
      invariant 0 <= i <= |recs| && nQuerLoc <= buflen
      invariant querLoc == lastOff + lastTokLen
      invariant Progress(query, EditsOf(recs, highestExtern, i), querLoc, normQuery[..nQuerLoc])
    {
      var off, tokLen := recs[i].location, recs[i].length;
      EditsNext(recs, highestExtern, i);
      if tokLen >= 0 {
        var lenToWrt := off - lastOff - lastTokLen;
        NextFits(query, recs, highestExtern, i, querLoc, normQuery[..nQuerLoc]);
        if lenToWrt < 0 {
          ok := false;
          OverlapStops(query, recs, highestExtern, i + 1);
          return;
        }
        EditsShort(recs, highestExtern, i + 1);
        nQuerLoc := Replace(normQuery, nQuerLoc, query, querLoc, lenToWrt, EditOf(recs[i], highestExtern), EditsOf(recs, highestExtern, i));
        querLoc, lastOff, lastTokLen := off + tokLen, off, tokLen;
      }
      i := i + 1;
    }
    length := PutRest(normQuery, nQuerLoc, query, querLoc, EditsOf(recs, highestExtern, |recs|));
    NotLongerIff(query, recs, highestExtern);
    WholeIsAssembled(query, recs, highestExtern);
  }

  lemma OverlapStops(query: string, recs: seq<ConstLoc>, highestExtern: int, k: nat)
    requires Inside(query, recs) && NumbersFit(recs, highestExtern) && k <= |recs|
    requires !Fits(query, EditsOf(recs, highestExtern, k))
    ensures !Disjoint(query, recs)
  {
    FitsIffDisjoint(query, recs, highestExtern);
    hide Fits, Disjoint, Inside, NumbersFit;
    if Disjoint(query, recs) { FitsPrefix(query, recs, highestExtern, k, |recs|); }
  }

  /** The next edit fits exactly when the chunk in front of it has no negative length. */
  lemma NextFits(query: string, recs: seq<ConstLoc>, highestExtern: int, i: nat, querLoc: nat, written: string)
    requires Inside(query, recs) && Placeable(recs) && i < |recs| && recs[i].length >= 0
    requires Progress(query, EditsOf(recs, highestExtern, i), querLoc, written)
    ensures Fits(query, EditsOf(recs, highestExtern, i + 1)) <==> querLoc <= recs[i].location
  {
    EditsNext(recs, highestExtern, i);
    FitsNext(query, EditsOf(recs, highestExtern, i), EditOf(recs[i], highestExtern));
  }

  /** What is left of the query behind the last constant, and the final NUL. */
  method PutRest(buf: array<char>, at: nat, query: string, querLoc: nat, ghost edits: seq<Edit>) returns (length: nat)
    requires at <= buf.Length && Progress(query, edits, querLoc, buf[..at])
    requires |query| + 10 * |edits| < buf.Length
    modifies buf
    ensures Fits(query, edits) && length <= |query| + 10 * |edits|
    ensures buf[..length] == Spliced(query, edits) && buf[length] == '\0'
  {
    hide Fits, Short, Written, Progress, Spliced;
    Finish(query, edits, querLoc, buf[..at]);
    Put(buf, at, query[querLoc..]);
    length := at + (|query| - querLoc);
    ghost var text := buf[..length];
    buf[length] := '\0';
    assert buf[..length] == text;
  }

  /** When all edits are made, the rest of the query fits behind them. */
  lemma Finish(query: string, edits: seq<Edit>, querLoc: nat, written: string)
    requires Progress(query, edits, querLoc, written)
    ensures Fits(query, edits) && querLoc <= |query|
    ensures written + query[querLoc..] == Spliced(query, edits)
    ensures |written| + (|query| - querLoc) <= |query| + 10 * |edits|
  {
    FitsEnd(query, edits, |edits|);
    WrittenBound(query, edits, |edits|);
  }

  /** One more edit at the end: what it adds, and that there is room for it and its NUL. */
  lemma NextWritten(query: string, done: seq<Edit>, e: Edit, querLoc: nat, written: string)
    requires Progress(query, done, querLoc, written)
    requires Fits(query, done + [e]) && Short(done + [e])
    ensures querLoc <= e.off <= |query|
    ensures Progress(query, done + [e], e.off + e.length, written + query[querLoc..e.off] + e.text)
    ensures |written| + (e.off - querLoc) + |e.text| <= |query| + 10 * (|done| + 1)
  {
    var next, n := done + [e], |done|;
    assert FitsAt(query, next, n);
    WrittenExtends(query, done, next, n);
    WrittenBound(query, next, n + 1);
  }

  lemma {:induction false} WrittenExtends(query: string, a: seq<Edit>, b: seq<Edit>, k: nat)
    requires Fits(query, a) && Fits(query, b) && |a| <= |b| && b[..|a|] == a && k <= |a|
    ensures Written(query, a, k) == Written(query, b, k)
  {
    if k > 0 {
      WrittenExtends(query, a, b, k - 1);
      assert a[k - 1] == b[..|a|][k - 1];
    }
  }

  /** Length finding and replacement together: when no measured pieces overlap, the result
      is the query with every measured constant replaced, and the query can be rebuilt
      from it; when some do, an assertion stops the program. */
  method NormalizeText(locs: array<ConstLoc>, count: nat, query: string, tokens: seq<Token>, highestExtern: int)
    returns (normQuery: Option<string>)
    requires count <= locs.Length && WellScanned(query, tokens)
    requires Recorded(query, locs[..count]) && NumbersFit(locs[..count], highestExtern)
    modifies locs
    ensures Filled(query, tokens, old(locs[..count]), locs[..count])
    ensures normQuery.Some? <==> Disjoint(query, locs[..count])
    ensures normQuery.Some? ==> Replaces(query, locs[..count], highestExtern, normQuery.value)
  {
    hide Reads;
    ghost var before := locs[..count];
    FillInConstantLengths(locs, count, query, tokens);
    ghost var after := locs[..count];
    FilledInside(query, tokens, before, after);
    NumbersFitAfter(before, after, highestExtern);
    var ok, buf, length := GenerateNormalizedQuery(locs[..count], query, highestExtern);
    if !ok { return None; }
    normQuery := Some(buf[..length]);
    EditsShort(after, highestExtern, count) by { FitsIffDisjoint(query, after, highestExtern); }
    SplicedRoundTrip(query, EditsOf(after, highestExtern, count));
  }

  /** The text is the query with its measured constants replaced by symbols, of the length
      the records tell, and the query can be rebuilt from it. */
  ghost predicate Replaces(query: string, recs: seq<ConstLoc>, highestExtern: int, text: string) {
    && Reads(query, recs, highestExtern, text) && Placeable(recs)
    && var edits := EditsOf(recs, highestExtern, |recs|);
       && Fits(query, edits) && text == Spliced(query, edits)
       && |text| == |query| + RecordGain(recs, highestExtern, |recs|)
       && Fits(text, Undos(query, edits)) && Spliced(text, Undos(query, edits)) == query
  }

  lemma FilledInside(query: string, tokens: seq<Token>, before: seq<ConstLoc>, after: seq<ConstLoc>)
    requires WellScanned(query, tokens) && Filled(query, tokens, before, after)
    ensures Inside(query, after) && multiset(Unmeasured(after)) == multiset(before)
  {
    var sorted: seq<ConstLoc> :| SortedByLocation(sorted) && multiset(sorted) == multiset(before)
      && Recorded(query, sorted) && after == OnePass(query, tokens, sorted);
    hide OnePass, MergeTo, Measured, WellScanned, SortedByLocation, Unmeasured;
    OnePassKeeps(query, tokens, sorted);
    forall i | 0 <= i < |after| && after[i].length >= 0
      ensures 0 < after[i].length && 0 <= after[i].location && after[i].location + after[i].length <= |query|
    {
      OnePassAt(query, tokens, sorted, i);
      MeasuredInside(query, tokens, MergeTo(query, tokens, sorted, i), sorted[i].location);
    }
  }

  lemma MeasuredInside(query: string, tokens: seq<Token>, m: Merge, loc: int)
    requires WellScanned(query, tokens) && m.next <= |tokens| && 0 <= loc < |query|
    ensures
      var length := Measured(query, tokens, m, loc);
      length == -1 || (0 < length && loc + length <= |query|)
  {
    hide ConstLength;
  }

  lemma NumbersFitAfter(before: seq<ConstLoc>, after: seq<ConstLoc>, highestExtern: int)
    requires NumbersFit(before, highestExtern) && multiset(Unmeasured(after)) == multiset(before)
    ensures NumbersFit(after, highestExtern)
  {
    InPermutation(before, Unmeasured(after));
    forall i | 0 <= i < |after| ensures 0 <= ParamNumber(after[i], highestExtern) <= INT_MAX {
      assert Unmeasured(after)[i] in before;
    }
  }
}
