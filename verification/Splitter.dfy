/** The statement splitter: two passes over the token stream. */
module Splitter {

  datatype Kind = Keyword | LeftParen | RightParen | Semicolon | Other | EndOfInput

  datatype Token = Token(kind: Kind, loc: nat)

  datatype Range = Range(start: int, length: int)

  /** The values of a size_t. */
  const SIZE: int := 0x1_0000_0000_0000_0000

  /** What the scanner delivers: tokens in the order of the text, then the end. */
  predicate IsStream(s: seq<Token>) {
    && |s| > 0
    && (forall i :: 0 <= i < |s| ==> (s[i].kind == EndOfInput <==> i == |s| - 1))
    && (forall i, j :: 0 <= i < j < |s| ==> s[i].loc < s[j].loc)
  }

  // ----- the simple specification

  function Nest(depth: int, kind: Kind): int {
    match kind
    case LeftParen => (depth + 1) % SIZE
    case RightParen => (depth + SIZE - 1) % SIZE
    case _ => depth
  }

  /** Open parentheses before token k, as an unsigned counter sees them. */
  function Depth(s: seq<Token>, k: nat): (d: int)
    requires k <= |s|
    ensures 0 <= d < SIZE
  {
    if k == 0 then 0 else Nest(Depth(s, k - 1), s[k - 1].kind)
  }

  /** A semicolon, or the end, outside of all parentheses. */
  predicate IsSeparator(s: seq<Token>, k: nat)
    requires k < |s|
  {
    s[k].kind in {Semicolon, EndOfInput} && Depth(s, k) == 0
  }

  /** Tokens i to k - 1 are a segment: bounded by separators, with none inside. */
  predicate IsSegment(s: seq<Token>, i: nat, k: nat)
    requires k < |s|
  {
    && i <= k && IsSeparator(s, k)
    && (i == 0 || IsSeparator(s, i - 1))
    && forall j :: i <= j < k ==> !IsSeparator(s, j)
  }

  predicate HasKeyword(s: seq<Token>, i: nat, k: nat)
    requires k <= |s|
  {
    exists j :: i <= j < k && s[j].kind == Keyword
  }

  /** A statement starts where the text starts, or right after a semicolon. */
  function StartLoc(s: seq<Token>, i: nat): nat
    requires i <= |s|
  {
    if i == 0 then 0 else s[i - 1].loc + 1
  }

  function RangeOf(s: seq<Token>, i: nat, k: nat): Range
    requires i <= k < |s|
  {
    Range(StartLoc(s, i), s[k].loc - StartLoc(s, i))
  }

  /** Where the segment that token k belongs to begins. */
  function SegmentStart(s: seq<Token>, k: nat): (i: nat)
    requires k <= |s|
    ensures i <= k
  {
    if k == 0 then 0 else if IsSeparator(s, k - 1) then k else SegmentStart(s, k - 1)
  }

  predicate EmitsAt(s: seq<Token>, k: nat)
    requires k < |s|
  {
    IsSeparator(s, k) && HasKeyword(s, SegmentStart(s, k), k)
  }

  /** The statements that end before token k. */
  function Statements(s: seq<Token>, k: nat): (r: seq<Range>)
    requires k <= |s|
  {
    if k == 0 then []
    else Statements(s, k - 1) + if EmitsAt(s, k - 1) then [RangeOf(s, SegmentStart(s, k - 1), k - 1)] else []
  }

  lemma {:induction false} SegmentStartIsStart(s: seq<Token>, k: nat)
    requires k <= |s|
    ensures
      var i := SegmentStart(s, k);
      (i == 0 || IsSeparator(s, i - 1)) && forall j :: i <= j < k ==> !IsSeparator(s, j)
  {
    if k > 0 && !IsSeparator(s, k - 1) { SegmentStartIsStart(s, k - 1); }
  }

  lemma SegmentUnique(s: seq<Token>, i: nat, k: nat)
    requires k < |s| && IsSegment(s, i, k)
    ensures i == SegmentStart(s, k)
  {
    SegmentStartIsStart(s, k);
  }

  lemma {:induction false} StatementsAreRanges(s: seq<Token>, k: nat, r: Range)
    requires k <= |s|
    ensures r in Statements(s, k) <==>
      exists i, e :: 0 <= i <= e < k && IsSegment(s, i, e) && HasKeyword(s, i, e) && r == RangeOf(s, i, e)
  {
    hide Depth, StartLoc, HasKeyword;
    if k > 0 {
      StatementsAreRanges(s, k - 1, r);
      var i := SegmentStart(s, k - 1);
      SegmentStartIsStart(s, k - 1);
      if r in Statements(s, k) && r !in Statements(s, k - 1) {
        assert IsSegment(s, i, k - 1) && HasKeyword(s, i, k - 1) && r == RangeOf(s, i, k - 1);
      }
      forall i', e | 0 <= i' <= e < k && IsSegment(s, i', e) && HasKeyword(s, i', e) && r == RangeOf(s, i', e)
        ensures r in Statements(s, k)
      {
        SegmentUnique(s, i', e);
      }
    }
  }

  // ----- what that comes to, by counting parentheses

  function Places(s: seq<Token>, kind: Kind, k: nat): set<nat>
    requires k <= |s|
  {
    set j: nat | 0 <= j < k && s[j].kind == kind
  }

  lemma PlacesGrow(s: seq<Token>, kind: Kind, k: nat)
    requires k < |s|
    ensures Places(s, kind, k + 1) == Places(s, kind, k) + if s[k].kind == kind then {k} else {}
    ensures k !in Places(s, kind, k)
  {}

  lemma PlacesNext(s: seq<Token>, kind: Kind, k: nat)
    requires k < |s|
    ensures |Places(s, kind, k + 1)| == |Places(s, kind, k)| + if s[k].kind == kind then 1 else 0
  {
    hide Places;
    PlacesGrow(s, kind, k);
  }

  lemma NestCounts(d: int, kind: Kind)
    ensures Nest(d % 0x1_0000_0000_0000_0000, kind) ==
      (d + (if kind == LeftParen then 1 else 0) - if kind == RightParen then 1 else 0) % 0x1_0000_0000_0000_0000
  {}

  /** The depth is the number of left less that of right parentheses, modulo 2^64. */
  lemma {:induction false} DepthCounts(s: seq<Token>, k: nat)
    requires k <= |s|
    ensures Depth(s, k) == (|Places(s, LeftParen, k)| - |Places(s, RightParen, k)|) % 0x1_0000_0000_0000_0000
  {
    if k > 0 {
      DepthCounts(s, k - 1);
      PlacesNext(s, LeftParen, k - 1);
      PlacesNext(s, RightParen, k - 1);
      hide Places;
      NestCounts(|Places(s, LeftParen, k - 1)| - |Places(s, RightParen, k - 1)|, s[k - 1].kind);
    }
  }

  /** A semicolon, or the end, before which as many parentheses were closed as opened. */
  predicate Separates(s: seq<Token>, e: nat)
    requires e < |s|
  {
    && (s[e].kind == Semicolon || s[e].kind == EndOfInput)
    && (|Places(s, LeftParen, e)| - |Places(s, RightParen, e)|) % 0x1_0000_0000_0000_0000 == 0
  }

  /** Tokens i to e - 1 are a statement: they stand between two neighbouring separators,
      the start of the text counting as one, and a keyword is among them. */
  ghost predicate IsStatement(s: seq<Token>, i: nat, e: nat, r: Range)
    requires e < |s|
  {
    && i <= e && Separates(s, e) && (i == 0 || Separates(s, i - 1))
    && (forall j :: i <= j < e ==> !Separates(s, j))
    && (exists j :: i <= j < e && s[j].kind == Keyword)
    && r.start == (if i == 0 then 0 else s[i - 1].loc + 1) && r.start + r.length == s[e].loc
  }

  /** The statements are exactly these. */
  lemma StatementsAreSegments(s: seq<Token>, k: nat, r: Range)
    requires k <= |s|
    ensures r in Statements(s, k) <==> exists i: nat, e: nat :: i <= e < k && IsStatement(s, i, e, r)
  {
    StatementsAreRanges(s, k, r);
    forall i: nat, e: nat | i <= e < k
      ensures IsStatement(s, i, e, r) <==> IsSegment(s, i, e) && HasKeyword(s, i, e) && r == RangeOf(s, i, e)
    {
      StatementIff(s, i, e, r);
    }
    hide *;
  }

  lemma SeparatesIff(s: seq<Token>, e: nat)
    requires e < |s|
    ensures Separates(s, e) <==> IsSeparator(s, e)
  {
    DepthCounts(s, e);
    hide Depth, Places;
  }

  lemma StatementIff(s: seq<Token>, i: nat, e: nat, r: Range)
    requires i <= e < |s|
    ensures IsStatement(s, i, e, r) <==> IsSegment(s, i, e) && HasKeyword(s, i, e) && r == RangeOf(s, i, e)
  {
    hide Separates, IsSeparator;
    forall j: nat | j <= e ensures Separates(s, j) <==> IsSeparator(s, j) { SeparatesIff(s, j); }
  }

  ghost predicate EndsStatement(s: seq<Token>, e: nat)
    requires e < |s|
  {
    exists i: nat, r :: i <= e && IsStatement(s, i, e, r)
  }

  /** The tokens with which a statement ends. */
  ghost function Ends(s: seq<Token>, k: nat): set<nat>
    requires k <= |s|
  {
    set e: nat | 0 <= e < k && EndsStatement(s, e)
  }

  /** There is one statement for each of them. */
  lemma {:induction false} StatementsAreCounted(s: seq<Token>, k: nat)
    requires k <= |s|
    ensures |Statements(s, k)| == |Ends(s, k)|
  {
    hide EndsStatement, EmitsAt;
    if k > 0 {
      StatementsAreCounted(s, k - 1);
      EndIff(s, k - 1);
      assert Ends(s, k) == Ends(s, k - 1) + if EmitsAt(s, k - 1) then {k - 1} else {};
    }
  }

  lemma EndIff(s: seq<Token>, e: nat)
    requires e < |s|
    ensures EndsStatement(s, e) <==> EmitsAt(s, e)
  {
    hide IsStatement;
    if i: nat, r :| i <= e && IsStatement(s, i, e, r) {
      StatementIff(s, i, e, r);
      SegmentUnique(s, i, e);
    }
    if EmitsAt(s, e) {
      SegmentStartIsStart(s, e);
      StatementIff(s, SegmentStart(s, e), e, RangeOf(s, SegmentStart(s, e), e));
    }
  }

  /** A list of all statements of the text, each once and in order. */
  ghost predicate AreStatements(s: seq<Token>, stmts: seq<Range>) {
    && (forall r :: r in stmts <==> exists i: nat, e: nat :: i <= e < |s| && IsStatement(s, i, e, r))
    && |stmts| == |Ends(s, |s|)|
    && (forall a, b :: 0 <= a < b < |stmts| ==> stmts[a].start + stmts[a].length < stmts[b].start)
  }

  lemma StatementsTold(s: seq<Token>)
    requires IsStream(s)
    ensures AreStatements(s, Statements(s, |s|))
  {
    hide Statements, Ends, IsStatement, StartLoc;
    forall r ensures r in Statements(s, |s|) <==> exists i: nat, e: nat :: i <= e < |s| && IsStatement(s, i, e, r) {
      StatementsAreSegments(s, |s|, r);
    }
    StatementsAreCounted(s, |s|);
    StatementsInOrder(s, |s|);
  }

  /** They lie in the text, in order, apart from one another. */
  lemma {:induction false} StatementsInOrder(s: seq<Token>, k: nat)
    requires IsStream(s) && k <= |s|
    ensures forall a :: 0 <= a < |Statements(s, k)| ==>
      var r := Statements(s, k)[a];
      0 <= r.start && 0 <= r.length && r.start + r.length <= s[|s| - 1].loc && r.start + r.length < StartLoc(s, SegmentStart(s, k))
    ensures forall a, b :: 0 <= a < b < |Statements(s, k)| ==>
      Statements(s, k)[a].start + Statements(s, k)[a].length < Statements(s, k)[b].start
  {
    if k > 0 { StatementsInOrder(s, k - 1); }
  }

  /** What one more token does to the segments and to the statements. */
  lemma SegmentNext(s: seq<Token>, k: nat)
    requires k < |s|
    ensures Depth(s, k + 1) == Nest(Depth(s, k), s[k].kind)
    ensures StartLoc(s, SegmentStart(s, k + 1)) == if IsSeparator(s, k) then s[k].loc + 1 else StartLoc(s, SegmentStart(s, k))
    ensures Statements(s, k + 1) ==
      Statements(s, k) + if EmitsAt(s, k) then [Range(StartLoc(s, SegmentStart(s, k)), s[k].loc - StartLoc(s, SegmentStart(s, k)))] else []
  {}

  lemma EndIsLast(s: seq<Token>, k: nat)
    requires IsStream(s) && k < |s| && s[k].kind == EndOfInput
    ensures k == |s| - 1
  {}

  // ----- the program

  /** Count the statements, allocate, then fill. */
  method Split(s: seq<Token>) returns (stmts: array<Range>)
    requires IsStream(s)
    ensures stmts[..] == Statements(s, |s|)
    ensures AreStatements(s, stmts[..])
  {
    hide AreStatements, IsStream, Ends;
    StatementsTold(s);
    var n := CountStatements(s);
    stmts := new Range[n];
    var keywordBeforeTerminator, openParens, stmtStart, curStmt := false, 0, 0, 0;
    var k := 0;
    while k < |s|
      invariant 0 <= k <= |s|
      invariant openParens == Depth(s, k)
      invariant keywordBeforeTerminator == HasKeyword(s, SegmentStart(s, k), k)
      invariant k < |s| ==> stmtStart == StartLoc(s, SegmentStart(s, k))
      invariant curStmt == |Statements(s, k)| <= n
      invariant stmts[..curStmt] == Statements(s, k)
    {
      var tok := s[k];
      StatementsGrow(s, k + 1, |s|);
      KeywordNext(s, k);
      SegmentNext(s, k);
      if tok.kind == EndOfInput { EndIsLast(s, k); }
      hide Statements, SegmentStart, StartLoc, HasKeyword, Depth;
      if tok.kind == Keyword {
        keywordBeforeTerminator := true;
      } else if tok.kind == LeftParen {
        openParens := (openParens + 1) % SIZE;
      } else if tok.kind == RightParen {
        openParens := (openParens + SIZE - 1) % SIZE;
      } else if keywordBeforeTerminator && openParens == 0 && tok.kind in {Semicolon, EndOfInput} {
        stmts[curStmt] := Range(stmtStart, tok.loc - stmtStart);
        assert stmts[..curStmt + 1] == stmts[..curStmt] + [stmts[curStmt]];
        stmtStart := tok.loc + 1;
        keywordBeforeTerminator := false;
        curStmt := curStmt + 1;
      } else if openParens == 0 && tok.kind == Semicolon {
        stmtStart := tok.loc + 1;
      }
      k := k + 1;
    }
    assert stmts[..] == stmts[..curStmt];
  }

  method CountStatements(s: seq<Token>) returns (n: nat)
    requires IsStream(s)
    ensures n == |Statements(s, |s|)| == |Ends(s, |s|)|
  {
    n := 0;
    var keywordBeforeTerminator, openParens := false, 0;
    var k := 0;
    while k < |s|
      invariant 0 <= k <= |s|
      invariant openParens == Depth(s, k)
      invariant keywordBeforeTerminator == HasKeyword(s, SegmentStart(s, k), k)
      invariant n == |Statements(s, k)|
    {
      var tok := s[k];
      KeywordNext(s, k);
      if tok.kind == Keyword {
        keywordBeforeTerminator := true;
      } else if tok.kind == LeftParen {
        openParens := (openParens + 1) % SIZE;
      } else if tok.kind == RightParen {
        openParens := (openParens + SIZE - 1) % SIZE;
      } else if keywordBeforeTerminator && openParens == 0 && tok.kind in {Semicolon, EndOfInput} {
        n := n + 1;
        keywordBeforeTerminator := false;
      }
      k := k + 1;
    }
    StatementsAreCounted(s, |s|);
  }

  lemma KeywordNext(s: seq<Token>, k: nat)
    requires k < |s|
    ensures HasKeyword(s, SegmentStart(s, k + 1), k + 1) <==>
      !IsSeparator(s, k) && (HasKeyword(s, SegmentStart(s, k), k) || s[k].kind == Keyword)
  {}

  lemma {:induction false} StatementsGrow(s: seq<Token>, j: nat, k: nat)
    requires j <= k <= |s|
    ensures Statements(s, j) <= Statements(s, k)
  {
    if j < k { StatementsGrow(s, j, k - 1); }
  }

  // ----- splitting again

  /** Token j as it stands in a text that begins at `start`. */
  function Shifted(s: seq<Token>, start: nat, j: nat): (t: Token)
    requires j < |s|
  {
    Token(s[j].kind, if s[j].loc >= start then s[j].loc - start else 0)
  }

  /** The tokens of a segment as a text of its own. */
  function Segment(s: seq<Token>, i: nat, k: nat): (r: seq<Token>)
    requires i <= k < |s|
    ensures |r| == k - i + 1
    ensures forall j :: 0 <= j < k - i ==> r[j] == Shifted(s, StartLoc(s, i), i + j)
    ensures r[k - i] == Shifted(s, StartLoc(s, i), k).(kind := EndOfInput)
  {
    seq(k - i, j requires 0 <= j < k - i => Shifted(s, StartLoc(s, i), i + j))
      + [Shifted(s, StartLoc(s, i), k).(kind := EndOfInput)]
  }

  lemma SegmentIsStream(s: seq<Token>, i: nat, k: nat)
    requires IsStream(s) && i <= k < |s|
    ensures IsStream(Segment(s, i, k))
  {}

  lemma {:induction false} SegmentDepth(s: seq<Token>, i: nat, k: nat, j: nat)
    requires IsStream(s) && i <= k < |s| && j <= k - i && Depth(s, i) == 0
    ensures Depth(Segment(s, i, k), j) == Depth(s, i + j)
  {
    if j > 0 { SegmentDepth(s, i, k, j - 1); }
  }

  /** Inside a segment nothing is emitted, whatever text it stands in. */
  lemma {:induction false} NothingInside(s: seq<Token>, k: nat)
    requires k <= |s| && forall j :: 0 <= j < k ==> !IsSeparator(s, j)
    ensures Statements(s, k) == [] && SegmentStart(s, k) == 0
  {
    if k > 0 { NothingInside(s, k - 1); }
  }

  /** A segment as a text of its own: nothing is emitted before its end, where the depth is
      that of the whole text. */
  lemma SegmentQuiet(s: seq<Token>, i: nat, k: nat)
    requires IsStream(s) && i <= k < |s| && IsSegment(s, i, k)
    ensures
      var seg, n := Segment(s, i, k), k - i;
      Statements(seg, n) == [] && SegmentStart(seg, n) == 0 && Depth(seg, n) == Depth(s, k)
  {
    hide Segment, Statements, SegmentStart, HasKeyword, IsStream;
    var seg, n := Segment(s, i, k), k - i;
    StartsOutside(s, i);
    forall j | 0 <= j <= n ensures Depth(seg, j) == Depth(s, i + j) { SegmentDepth(s, i, k, j); }
    hide Depth;
    forall j | 0 <= j < n ensures !IsSeparator(seg, j) { assert !IsSeparator(s, i + j); }
    NothingInside(seg, n);
  }

  /** A segment starts outside of all parentheses. */
  lemma StartsOutside(s: seq<Token>, i: nat)
    requires i < |s| && (i == 0 || IsSeparator(s, i - 1))
    ensures Depth(s, i) == 0
  {}

  /** Splitting the text of one statement again gives that text as its only statement. */
  lemma SplitAgain(s: seq<Token>, i: nat, k: nat)
    requires IsStream(s) && i <= k < |s| && IsSegment(s, i, k) && HasKeyword(s, i, k)
    ensures
      var seg := Segment(s, i, k);
      IsStream(seg) && Statements(seg, |seg|) == [Range(0, RangeOf(s, i, k).length)]
  {
    var seg, n := Segment(s, i, k), k - i;
    SegmentIsStream(s, i, k);
    SegmentQuiet(s, i, k);
    hide Segment, Depth, IsStream, SegmentStart;
    var j :| i <= j < k && s[j].kind == Keyword;
    assert seg[j - i].kind == Keyword;
    assert HasKeyword(seg, 0, n);
    assert EmitsAt(seg, n);
    assert Statements(seg, n + 1) == [] + [RangeOf(seg, 0, n)];
  }
}
