/** What FEN text says of a position, square by square and field by field, and that `set_fen` reads exactly that. */
module FenMeaning {
  import opened Base
  import opened Text
  import opened Squares
  import opened Pieces
  import opened Position
  import opened Fen

  /** The letters of the men: capitals for White. */
  lemma MenLetters(c: Color)
    ensures [Letter(Man(c, Pawn)), Letter(Man(c, Knight)), Letter(Man(c, Bishop)), Letter(Man(c, Rook)),
             Letter(Man(c, Queen)), Letter(Man(c, King))] == if c.White? then "PNBRQK" else "pnbrqk"
  {
  }

  /** A rank as it is drawn: a digit stands for so many empty squares, any other character for one man. */
  function Drawn(t: string): seq<Option<char>> {
    if t == "" then []
    else (if '1' <= t[0] <= '8' then seq(DigitOf(t[0]), i => None) else [Some(t[0])]) + Drawn(t[1..])
  }

  predicate Shows(cell: Cell, drawn: Option<char>) {
    if cell == Empty then drawn.None? else drawn == Some(Letter(cell))
  }

  predicate RankShows(row: seq<Cell>, drawn: seq<Option<char>>) {
    |row| == |drawn| && forall f :: 0 <= f < |row| ==> Shows(row[f], drawn[f])
  }

  lemma LetterIsNoRun(m: Cell)
    requires m.Man?
    ensures !('1' <= Letter(m) <= '8') && CellOf(Letter(m)) == Some(m)
  {
    CellOfLetter(m);
  }

  /** Reading a rank from a known beginning gives exactly the rows that show what is drawn. */
  lemma {:induction false} ReadRankShows(t: string, known: seq<Cell>, row: seq<Cell>)
    requires |known| <= 8
    ensures ReadRank(t, known) == Ok(row) <==> |row| == 8 && known <= row && RankShows(row[|known|..], Drawn(t))
  {
    var n := |known|;
    if t == "" {
      if known <= row && |row| == n {
        assert row == known;
      }
      if row == known {
        assert row[n..] == [];
      }
    } else if '1' <= t[0] <= '8' {
      var d := DigitOf(t[0]);
      assert |Drawn(t)| == d + |Drawn(t[1..])|;
      if n + d <= 8 {
        ReadRankShows(t[1..], known + Empties(d), row);
        RunShows(known, d, row, Drawn(t[1..]));
      }
    } else if CellOf(t[0]).Some? && n < 8 {
      ReadRankShows(t[1..], known + [CellOf(t[0]).value], row);
      ManShows(known, CellOf(t[0]).value, row, Drawn(t[1..]));
    } else if |row| == 8 && known <= row && RankShows(row[n..], Drawn(t)) {
      assert Drawn(t)[0] == Some(t[0]) && Shows(row[n..][0], Drawn(t)[0]);
      LetterIsNoRun(row[n]);
    }
  }

  lemma RunShows(known: seq<Cell>, d: nat, row: seq<Cell>, rest: seq<Option<char>>)
    requires |known| + d <= 8
    ensures |row| == 8 && known + Empties(d) <= row && RankShows(row[|known| + d..], rest) <==>
      |row| == 8 && known <= row && RankShows(row[|known|..], seq(d, i => None) + rest)
  {
    var n := |known|;
    var run: seq<Option<char>> := seq(d, i => None);
    if |row| == 8 && known + Empties(d) <= row && RankShows(row[n + d..], rest) {
      forall f | 0 <= f < 8 - n
        ensures f < |run + rest| && Shows(row[n..][f], (run + rest)[f])
      {
        if f < d {
          assert row[n + f] == (known + Empties(d))[n + f] == Empty;
        } else {
          assert Shows(row[n + d..][f - d], rest[f - d]);
        }
      }
    }
    if |row| == 8 && known <= row && RankShows(row[n..], run + rest) {
      assert |rest| == 8 - n - d;
      forall f | 0 <= f < n + d
        ensures row[f] == (known + Empties(d))[f]
      {
        if f >= n {
          assert Shows(row[n..][f - n], (run + rest)[f - n]);
        }
      }
      forall f | 0 <= f < |rest|
        ensures Shows(row[n + d..][f], rest[f])
      {
        assert Shows(row[n..][d + f], (run + rest)[d + f]);
      }
    }
  }

  lemma ManShows(known: seq<Cell>, m: Cell, row: seq<Cell>, rest: seq<Option<char>>)
    requires |known| < 8 && m.Man?
    ensures |row| == 8 && known + [m] <= row && RankShows(row[|known| + 1..], rest) <==>
      |row| == 8 && known <= row && RankShows(row[|known|..], [Some(Letter(m))] + rest)
  {
    var n := |known|;
    if |row| == 8 && known + [m] <= row && RankShows(row[n + 1..], rest) {
      forall f | 0 <= f < 8 - n
        ensures Shows(row[n..][f], ([Some(Letter(m))] + rest)[f])
      {
        if f == 0 {
          assert row[n] == (known + [m])[n];
        } else {
          assert Shows(row[n + 1..][f - 1], rest[f - 1]);
        }
      }
    }
    if |row| == 8 && known <= row && RankShows(row[n..], [Some(Letter(m))] + rest) {
      assert Shows(row[n..][0], Some(Letter(m)));
      LetterIsNoRun(m);
      if row[n] != Empty {
        LetterIsNoRun(row[n]);
      }
      assert row[n] == m;
      forall f | 0 <= f < |rest|
        ensures Shows(row[n + 1..][f], rest[f])
      {
        assert Shows(row[n..][f + 1], ([Some(Letter(m))] + rest)[f + 1]);
      }
    }
  }

  /** The placement field shows the board: eight ranks, the eighth first, each from the a-file on. */
  predicate PlacementShows(t: string, b: Cells) {
    var ranks := SplitOn(t, '/');
    && |ranks| == 8
    && (forall i :: 0 <= i < 8 ==> |Drawn(ranks[i])| == 8)
    && forall s: Square :: Shows(b[s], Drawn(ranks[7 - RankOf(s)])[FileOf(s)])
  }

  lemma RankOfShown(t: string, b: Cells, r: int)
    requires 0 <= r < 8
    ensures ReadRank(t, []) == Ok(RankOfBoard(b, r)) <==>
      |Drawn(t)| == 8 && forall f :: 0 <= f < 8 ==> Shows(b[At(f, r)], Drawn(t)[f])
  {
    var row := RankOfBoard(b, r);
    ReadRankShows(t, [], row);
    assert row[0..] == row;
    assert forall f :: 0 <= f < 8 ==> row[f] == b[At(f, r)];
    hide Shows, Drawn, ReadRank;
  }

  lemma PlacementReadsExactly(t: string, b: Cells)
    ensures ReadPlacement(t) == Ok(b) <==> PlacementShows(t, b)
  {
    var ranks := SplitOn(t, '/');
    hide Drawn, Shows, SplitOn, ReadRank;
    if |ranks| == 8 {
      forall i | 0 <= i < 8
        ensures ReadRank(ranks[i], []) == Ok(RankOfBoard(b, 7 - i)) <==>
          |Drawn(ranks[i])| == 8 && forall f :: 0 <= f < 8 ==> Shows(b[At(f, 7 - i)], Drawn(ranks[i])[f])
      {
        RankOfShown(ranks[i], b, 7 - i);
      }
      if PlacementShows(t, b) {
        forall i | 0 <= i < 8
          ensures ReadRank(ranks[i], []) == Ok(RankOfBoard(b, 7 - i))
        {
          ShownRank(ranks, b, i);
        }
        AssembleRanks(b, ReadRanks(ranks).value);
      }
      if ReadPlacement(t) == Ok(b) {
        forall i | 0 <= i < 8
          ensures ReadRank(ranks[i], []) == Ok(RankOfBoard(b, 7 - i))
        {
          AssembledRank(ReadRanks(ranks).value, b, i);
        }
        forall s: Square
          ensures Shows(b[s], Drawn(ranks[7 - RankOf(s)])[FileOf(s)])
        {
          assert At(FileOf(s), RankOf(s)) == s;
          assert 7 - (7 - RankOf(s)) == RankOf(s);
        }
      }
    }
  }

  lemma ShownRank(ranks: seq<string>, b: Cells, i: int)
    requires |ranks| == 8 && 0 <= i < 8 && (forall j :: 0 <= j < 8 ==> |Drawn(ranks[j])| == 8)
    requires forall s: Square :: Shows(b[s], Drawn(ranks[7 - RankOf(s)])[FileOf(s)])
    ensures ReadRank(ranks[i], []) == Ok(RankOfBoard(b, 7 - i))
  {
    hide Drawn, Shows;
    forall f | 0 <= f < 8
      ensures Shows(b[At(f, 7 - i)], Drawn(ranks[i])[f])
    {
      var s := At(f, 7 - i);
      assert Shows(b[s], Drawn(ranks[7 - RankOf(s)])[FileOf(s)]);
    }
    RankOfShown(ranks[i], b, 7 - i);
  }

  lemma AssembledRank(rows: seq<seq<Cell>>, b: Cells, i: int)
    requires |rows| == 8 && (forall j :: 0 <= j < 8 ==> |rows[j]| == 8) && Assemble(rows) == b && 0 <= i < 8
    ensures rows[i] == RankOfBoard(b, 7 - i)
  {
    forall f | 0 <= f < 8
      ensures rows[i][f] == RankOfBoard(b, 7 - i)[f]
    {
      var s := 8 * (7 - i) + f;
      assert s / 8 == 7 - i && s % 8 == f;
    }
  }

  // ----- the six fields

  /** A counter field, or what a missing one stands for. */
  predicate CounterSays(fs: seq<string>, i: nat, missing: nat, n: nat) {
    if |fs| <= i then n == missing else AllDigits(fs[i]) && Number(fs[i]) == n
  }

  /** The fields say what the position is; the two counters may be left out. */
  predicate FieldsSay(fs: seq<string>, p: Position) {
    && 4 <= |fs| <= 6
    && PlacementShows(fs[0], p.board)
    && fs[1] == (if p.turn.White? then "w" else "b")
    && RightsText(p.castling) && (if p.castling == "" then fs[2] in {"-", ""} else fs[2] == p.castling)
    && (if p.ep.None? then fs[3] == "-" else Lowered(Strip(fs[3])) == Name(p.ep.value))
    && CounterSays(fs, 4, 0, p.halfmove) && CounterSays(fs, 5, 1, p.fullmove)
  }

  lemma TurnSays(t: string, c: Color)
    ensures ReadTurn(t) == Ok(c) <==> t == if c.White? then "w" else "b"
  {
  }

  lemma RightsSay(t: string, s: string)
    ensures ReadRights(t) == Ok(s) <==> RightsText(s) && if s == "" then t in {"-", ""} else t == s
  {
    if t == "-" && s != "" && RightsText(s) {
      RightsPlain(s);
    }
    if s == "-" {
      assert '-' in s;
    }
  }

  lemma EnPassantSays(t: string, e: Option<Square>)
    ensures ReadEnPassant(t) == Ok(e) <==> if e.None? then t == "-" else Lowered(Strip(t)) == Name(e.value)
  {
    if Squares.Parse(t).Ok? {
      NameParsed(t);
    }
    if e.Some? {
      if Lowered(Strip(t)) == Name(e.value) {
        assert Lowered(Strip(t))[0] == Lower(Strip(t)[0]) && Lowered(Strip(t))[1] == Lower(Strip(t)[1]);
        NameInjective(Squares.Parse(t).value, e.value);
      }
    }
  }

  /** `set_fen` accepts exactly the texts within the limit whose fields say a valid position, and reads that position.
      */
  lemma FenReadsExactly(t: string, p: Position)
    ensures ParseFen(t) == Ok(p) <==> |t| <= MAX_FEN_CHARS && Valid(p) && FieldsSay(Words(t), p)
  {
    hide *;
    FieldsRead(Words(t), p);
    FenUnfolds(t);
  }

  lemma FenUnfolds(t: string)
    ensures ParseFen(t) ==
      if |t| > MAX_FEN_CHARS || ReadFields(Words(t)).ValueError? || !Valid(ReadFields(Words(t)).value) then ValueError
      else ReadFields(Words(t))
  {
    hide Valid, ReadFields;
  }

  lemma FieldsRead(fs: seq<string>, p: Position)
    ensures ReadFields(fs) == Ok(p) <==> FieldsSay(fs, p)
  {
    if 4 <= |fs| <= 6 {
      PlacementReadsExactly(fs[0], p.board);
      TurnSays(fs[1], p.turn);
      RightsSay(fs[2], p.castling);
      EnPassantSays(fs[3], p.ep);
      hide PlacementShows, ReadPlacement, ReadTurn, ReadRights, ReadEnPassant, Name, Lowered, RightsText;
    }
  }
}
