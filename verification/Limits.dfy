/** How `fen` normalises accepted text, and concrete inputs at the edge of each law. */
module Limits {
  import opened Base
  import opened Text
  import opened Squares
  import opened Pieces
  import opened Position
  import opened Fen
  import opened Rules
  import opened Timeline
  import opened Closure
  import opened Notation
  import opened SanRoundTrip

  // ----- canonical text is never longer than a six-field original

  lemma {:induction false} ReadRankExtends(t: string, known: seq<Cell>)
    requires |known| <= 8 && ReadRank(t, known).Ok?
    ensures ReadRank(t, known).value[..|known|] == known
    decreases |t|
  {
    if t != [] {
      if '1' <= t[0] <= '8' {
        ReadRankExtends(t[1..], known + Empties(DigitOf(t[0])));
      } else {
        ReadRankExtends(t[1..], known + [CellOf(t[0]).value]);
      }
    }
  }

  lemma {:induction false} RankTextSkips(n: nat, rest: seq<Cell>, run: nat)
    ensures RankText(Empties(n) + rest, run) == RankText(rest, run + n)
  {
    if n == 0 {
      assert Empties(0) + rest == rest;
    } else {
      assert (Empties(n) + rest)[1..] == Empties(n - 1) + rest;
      RankTextSkips(n - 1, rest, run + 1);
    }
  }

  lemma SplitKnown(known: seq<Cell>, mid: seq<Cell>, rest: seq<Cell>)
    requires |mid| <= |rest| && (known + rest)[..|known + mid|] == known + mid
    ensures rest == mid + rest[|mid|..]
    ensures known + rest == known + mid + rest[|mid|..]
  {
    forall i | 0 <= i < |mid|
      ensures rest[i] == mid[i]
    {
      assert (known + rest)[..|known + mid|][|known| + i] == (known + mid)[|known| + i];
    }
  }

  /** Any accepted text of a rank is at least as long as the text `fen` prints for it. */
  lemma {:induction false} RankTextShortest(t: string, known: seq<Cell>, rest: seq<Cell>, run: nat)
    requires |known| <= 8 && run <= |known| && ReadRank(t, known) == Ok(known + rest)
    ensures |RankText(rest, run)| <= |t| + (if run > 0 then 1 else 0)
    decreases |t|
  {
    if t == [] {
      assert rest == [];
    } else if '1' <= t[0] <= '8' {
      var n := DigitOf(t[0]);
      ReadRankExtends(t[1..], known + Empties(n));
      SplitKnown(known, Empties(n), rest);
      RankTextSkips(n, rest[n..], run);
      RankTextShortest(t[1..], known + Empties(n), rest[n..], run + n);
    } else {
      var m := CellOf(t[0]).value;
      ReadRankExtends(t[1..], known + [m]);
      SplitKnown(known, [m], rest);
      assert rest[0] == m;
      RankTextShortest(t[1..], known + [m], rest[1..], 0);
    }
  }

  lemma {:induction false} JoinMonotone(a: seq<string>, b: seq<string>, sep: char)
    requires |a| == |b| > 0 && forall i :: 0 <= i < |a| ==> |a[i]| <= |b[i]|
    ensures |JoinWith(a, sep)| <= |JoinWith(b, sep)|
  {
    if |a| > 1 {
      JoinMonotone(a[1..], b[1..], sep);
    }
  }

  lemma RankOfAssembled(rows: seq<seq<Cell>>, i: int)
    requires |rows| == 8 && (forall j :: 0 <= j < 8 ==> |rows[j]| == 8) && 0 <= i < 8
    ensures RankOfBoard(Assemble(rows), 7 - i) == rows[i]
  {
    forall f | 0 <= f < 8
      ensures RankOfBoard(Assemble(rows), 7 - i)[f] == rows[i][f]
    {
      assert (8 * (7 - i) + f) / 8 == 7 - i && (8 * (7 - i) + f) % 8 == f;
    }
  }

  lemma RankShortest(t: string, row: seq<Cell>)
    requires ReadRank(t, []) == Ok(row)
    ensures |RankText(row, 0)| <= |t|
  {
    assert [] + row == row;
    RankTextShortest(t, [], row, 0);
  }

  lemma PlacementShortest(t: string)
    requires ReadPlacement(t).Ok?
    ensures |PlacementText(ReadPlacement(t).value)| <= |t|
  {
    hide RankText, ReadRank, Assemble, RankOfBoard, JoinWith, SplitOn;
    var rows := SplitOn(t, '/');
    var ranks := ReadRanks(rows).value;
    var b := Assemble(ranks);
    forall i | 0 <= i < 8
      ensures |RankTexts(b)[i]| <= |rows[i]|
    {
      RankOfAssembled(ranks, i);
      RankShortest(rows[i], ranks[i]);
    }
    JoinMonotone(RankTexts(b), rows, '/');
    JoinOfSplit(t, '/');
  }

  lemma FieldsShortest(fs: seq<string>)
    requires |fs| == 6 && ReadFields(fs).Ok? && forall i :: 0 <= i < 6 ==> fs[i] != []
    ensures forall i :: 0 <= i < 6 ==> |Fields(ReadFields(fs).value)[i]| <= |fs[i]|
  {
    PlacementShortest(fs[0]);
    StripShort(fs[3]);
    DecimalShortest(fs[4]);
    DecimalShortest(fs[5]);
  }

  /** Printing an accepted six-field text never makes it longer, so it can always be read again. */
  lemma SixFieldsNormalise(t: string)
    requires ParseFen(t).Ok? && |Words(t)| == 6
    ensures |FenText(ParseFen(t).value)| <= |t|
    ensures ParseFen(FenText(ParseFen(t).value)) == ParseFen(t)
  {
    var p := ParseFen(t).value;
    var fs := Words(t);
    assert forall i :: 0 <= i < 6 ==> fs[i] in fs;
    FieldsShortest(fs);
    SpacedLength(fs);
    SpacedLength(Fields(p));
    SpacedWordsShort(t);
    FenRoundTrip(p);
  }

  // ----- concrete texts at the limit

  function Kings(): Cells {
    seq(64, i => Empty)[0 := Man(White, King)][63 := Man(Black, King)]
  }

  /** Two kings in opposite corners, White to move. */
  function LoneKings(halfmove: nat): Position {
    Position(Kings(), White, "", None, halfmove, 1)
  }

  lemma OneKingAt(b: Cells, c: Color, k: Square)
    requires b[k] == Man(c, King) && forall j: Square :: j != k ==> b[j] != Man(c, King)
    ensures OneKing(b, c)
  {
  }

  /** A board with nothing but two kings in opposite corners. */
  predicate CornerKings(b: Cells) {
    b[0] == Man(White, King) && b[63] == Man(Black, King) && forall s: Square :: s != 0 && s != 63 ==> b[s] == Empty
  }

  lemma CornerKingsAlone(b: Cells)
    requires CornerKings(b)
    ensures OneKing(b, White) && OneKing(b, Black) && NoPawnOnEnds(b)
  {
    OneKingAt(b, White, 0);
    OneKingAt(b, Black, 63);
  }

  lemma CornerKingsApart(b: Cells)
    requires CornerKings(b)
    ensures KingsApart(b)
  {
    assert Span(0, 63) == 7;
  }

  lemma KingsBoard()
    ensures OneKing(Kings(), White) && OneKing(Kings(), Black) && NoPawnOnEnds(Kings()) && KingsApart(Kings())
  {
    CornerKingsAlone(Kings());
    CornerKingsApart(Kings());
  }

  lemma BareIsValid(h: nat)
    ensures Valid(LoneKings(h)) && Valid(ApplyNull(LoneKings(h)))
  {
    KingsBoard();
    assert RightsText("") && RightsSupported(Kings(), "");
    NullMoveKeepsRules(LoneKings(h));
  }

  lemma BareLength(h: nat)
    ensures |FenText(LoneKings(h))| == |PlacementText(Kings())| + |Decimal(h)| + 9
    ensures |FenText(ApplyNull(LoneKings(h)))| == |PlacementText(Kings())| + |Decimal(h + 1)| + 9
  {
    hide PlacementText, Decimal;
    assert |Decimal(1)| == 1 by { DecimalOfOne(); }
    SpacedLength(Fields(LoneKings(h)));
    SpacedLength(Fields(ApplyNull(LoneKings(h))));
  }

  lemma DecimalOfOne()
    ensures |Decimal(1)| == 1
  {
  }

  /** The halfmove clock of n nines that makes the text of LoneKings exactly as long as the limit allows. */
  lemma LongestLoneKings() returns (h: nat)
    ensures |FenText(LoneKings(h))| == MAX_FEN_CHARS && |FenText(ApplyNull(LoneKings(h)))| == MAX_FEN_CHARS + 1
  {
    hide PlacementText, Decimal, Pow10, FenText;
    PlacementBound();
    var n: nat := MAX_FEN_CHARS - |PlacementText(Kings())| - 9;
    DecimalOfPow10(n);
    h := Pow10(n) - 1;
    BareLength(h);
  }

  lemma PlacementBound()
    ensures |PlacementText(Kings())| <= 80
  {
    forall i | 0 <= i < 8
      ensures |RankTexts(Kings())[i]| <= 8
    {
      RankTextShort(RankOfBoard(Kings(), 7 - i), 0);
    }
    JoinShort(RankTexts(Kings()), 8);
  }

  /** A position at the limit can be stepped over by a null move and undone, but the redo raises and
      leaves the history off its line: the redo entry is gone and a false undo entry has appeared. */
  lemma RedoCanBreakTheLine() returns (p: Position)
    ensures ParseFen(FenText(p)) == Ok(p)
    ensures var s := Undo(PushNull(Session(p, [], [])));
      Sound(s) && |s.redo| == 1 && Stuck(s, DoRedo) && !OneLine(Redo(s))
  {
    var h := LongestLoneKings();
    p := LoneKings(h);
    BareIsValid(h);
    FenRoundTrip(p);
    NullThenUndo(p);
  }

  lemma NullThenUndo(p: Position)
    requires Valid(p) && Fits(p) && !Fits(ApplyNull(p))
    ensures var s := Undo(PushNull(Session(p, [], [])));
      Sound(s) && |s.redo| == 1 && Stuck(s, DoRedo) && !OneLine(Redo(s))
  {
    var s0 := Session(p, [], []);
    FenRoundTrip(p);
    LoadedIsSound(s0, FenText(p), p.halfmove, p.fullmove);
    StepKeepsLine(s0, DoNull);
    var s1 := Do(s0, DoNull);
    StepKeepsLine(s1, DoUndo);
    RedoMovesCursor(Undo(s1));
  }

  /** Five fields leave the move number to be added, which can push the printed text over the limit. */
  lemma FiveFieldsCanOverflow() returns (t: string)
    ensures |Words(t)| == 5 && ParseFen(t).Ok? && !Fits(ParseFen(t).value)
  {
    hide PlacementText, Decimal, Pow10, Valid, Fields, ReadFields, LoneKings;
    PlacementBound();
    var n: nat := MAX_FEN_CHARS - |PlacementText(Kings())| - 7;
    DecimalOfPow10(n);
    var p := LoneKings(Pow10(n) - 1);
    BareIsValid(Pow10(n) - 1);
    BareLength(Pow10(n) - 1);
    t := FiveFieldText(p);
    LastFieldOfLoneKings(Pow10(n) - 1);
    FiveFieldTextReads(p);
  }

  lemma LastFieldOfLoneKings(h: nat)
    ensures LoneKings(h).fullmove == 1 && RightsText(LoneKings(h).castling) && |Fields(LoneKings(h))[5]| == 1
  {
  }

  function FiveFieldText(p: Position): string {
    Spaced(Fields(p)[..5])
  }

  /** Leaving out a move number of 1 denotes the same position. */
  lemma FiveFieldTextReads(p: Position)
    requires RightsText(p.castling) && p.fullmove == 1
    ensures |Words(FiveFieldText(p))| == 5 && ReadFields(Words(FiveFieldText(p))) == Ok(p)
    ensures |FenText(p)| == |FiveFieldText(p)| + 1 + |Fields(p)[5]|
  {
    var fs := Fields(p);
    FieldsPlain(p);
    assert forall i :: 0 <= i < 5 ==> fs[..5][i] == fs[i];
    WordsOfSpaced(fs[..5]);
    WordsOfSpaced(fs);
    ReadFieldsOfFen(p);
    ReadFiveFields(fs);
    SpacedInit(fs);
  }

  lemma SpacedInit(f: seq<string>)
    requires |f| == 6
    ensures |Spaced(f)| == |Spaced(f[..5])| + 1 + |f[5]|
  {
    SpacedLength(f);
    var g := f[..5];
    assert g[1..] == f[1..5] && g[1..][1..] == f[2..5] && f[2..5][1..] == f[3..5] && f[3..5][1..] == f[4..5];
    assert |Spaced(g)| == |f[0]| + 1 + |Spaced(f[1..5])|;
    assert |Spaced(f[1..5])| == |f[1]| + 1 + |Spaced(f[2..5])|;
    assert |Spaced(f[2..5])| == |f[2]| + 1 + |Spaced(f[3..5])|;
    assert |Spaced(f[3..5])| == |f[3]| + 1 + |Spaced(f[4..5])|;
    assert f[4..5] == [f[4]];
  }

  lemma ReadFiveFields(fs: seq<string>)
    requires |fs| == 6 && ReadFields(fs).Ok? && ReadFields(fs).value.fullmove == 1
    ensures ReadFields(fs[..5]) == ReadFields(fs)
  {
  }

  // ----- a legal move that takes the king

  /** White: Ka1, Rg8. Black: Kh8. White to move, so the rook may take the king. */
  function RookFacesKing(): Position {
    Position(Kings()[62 := Man(White, Rook)], White, "", None, 0, 1)
  }

  lemma RookPositionIsValid()
    ensures Valid(RookFacesKing()) && Fits(RookFacesKing())
  {
    var b := RookFacesKing().board;
    OneKingAt(b, White, 0);
    OneKingAt(b, Black, 63);
    assert Span(0, 63) == 7;
    assert RightsText("") && RightsSupported(b, "");
    RoomyFits(RookFacesKing());
  }

  lemma RookStrikesKing()
    ensures Strikes(RookFacesKing().board, 62, 63)
  {
    assert Straight(62, 63) && Span(62, 63) == 1;
  }

  lemma NoMenNoCheck(b: Cells, c: Color)
    requires forall s: Square :: !Held(b, s, c.Other())
    ensures !InCheck(b, c)
  {
  }

  lemma RookTakesKing()
    ensures Legal(RookFacesKing(), Move(62, 63, None, false, false))
    ensures TakesKing(RookFacesKing(), Move(62, 63, None, false, false))
  {
    var p := RookFacesKing();
    var m := Move(62, 63, None, false, false);
    RookStrikesKing();
    assert Pseudo(p, White, m);
    PlainBoard(p.board, m);
    NoMenNoCheck(ApplyBoard(p.board, m), White);
  }

  /** An accepted position in which `san` fails on a legal move, so `parse_move` refuses every SAN text. */
  lemma SanCanFail() returns (p: Position, m: Move)
    ensures Valid(p) && Fits(p) && Legal(p, m) && TakesKing(p, m) && San(p, m).ValueError?
    ensures forall t :: !IsCoordinate(NormSan(t)) ==> ParseMove(p, t).ValueError?
  {
    hide RookFacesKing, Valid, Legal, San, ParseMove, TakesKing, NormSan, IsCoordinate;
    p, m := RookFacesKing(), Move(62, 63, None, false, false);
    RookPositionIsValid();
    RookTakesKing();
    SanFailsExactly(p, m);
    SanRefusesAll(p, m);
  }

  lemma SanRefusesAll(p: Position, m: Move)
    requires Legal(p, m) && San(p, m).ValueError?
    ensures forall t :: !IsCoordinate(NormSan(t)) ==> ParseMove(p, t).ValueError?
  {
  }
}
