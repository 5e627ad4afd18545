/** FEN text: what `fen` prints, what `set_fen` accepts, and that the two are inverse. */
module Fen {
  import opened Base
  import opened Text
  import opened Squares
  import opened Pieces
  import opened Position

  const MAX_FEN_CHARS := 4096

  // ----- one character per man

  function KindLetter(k: Kind): char {
    match k
    case Pawn => 'P'
    case Knight => 'N'
    case Bishop => 'B'
    case Rook => 'R'
    case Queen => 'Q'
    case King => 'K'
  }

  function Letter(m: Cell): (c: char)
    requires m.Man?
    ensures c != '/' && !IsSpace(c) && !IsDigit(c)
  {
    if m.color.White? then KindLetter(m.kind) else (KindLetter(m.kind) as int + 32) as char
  }

  function CellOf(c: char): (m: Option<Cell>)
    ensures m.Some? ==> m.value.Man? && Letter(m.value) == c
  {
    match c
    case 'P' => Some(Man(White, Pawn))
    case 'N' => Some(Man(White, Knight))
    case 'B' => Some(Man(White, Bishop))
    case 'R' => Some(Man(White, Rook))
    case 'Q' => Some(Man(White, Queen))
    case 'K' => Some(Man(White, King))
    case 'p' => Some(Man(Black, Pawn))
    case 'n' => Some(Man(Black, Knight))
    case 'b' => Some(Man(Black, Bishop))
    case 'r' => Some(Man(Black, Rook))
    case 'q' => Some(Man(Black, Queen))
    case 'k' => Some(Man(Black, King))
    case _ => None
  }

  // ----- one rank

  function RunText(run: nat): (t: string)
  {
    if run == 0 then "" else Decimal(run)
  }

  /** The text of the rest of a rank when `run` empty squares are pending. */
  function RankText(row: seq<Cell>, run: nat): string {
    if row == [] then RunText(run)
    else if row[0] == Empty then RankText(row[1..], run + 1)
    else RunText(run) + [Letter(row[0])] + RankText(row[1..], 0)
  }

  function Empties(n: nat): (e: seq<Cell>)
    ensures |e| == n && forall i :: 0 <= i < n ==> e[i] == Empty
  {
    seq(n, i => Empty)
  }

  /** Reading the rest of a rank whose first squares are already known. */
  function ReadRank(t: string, known: seq<Cell>): (r: Result<seq<Cell>>)
    requires |known| <= 8
    ensures r.Ok? ==> |r.value| == 8
  {
    if t == [] then
      if |known| == 8 then Ok(known) else ValueError
    else if '1' <= t[0] <= '8' then
      if |known| + DigitOf(t[0]) > 8 then ValueError
      else ReadRank(t[1..], known + Empties(DigitOf(t[0])))
    else if CellOf(t[0]).Some? && |known| < 8 then
      ReadRank(t[1..], known + [CellOf(t[0]).value])
    else
      ValueError
  }

  lemma ReadRun(run: nat, t: string, known: seq<Cell>)
    requires |known| + run <= 8
    ensures ReadRank(RunText(run) + t, known) == ReadRank(t, known + Empties(run))
  {
    if run == 0 {
      assert known + Empties(0) == known;
      assert RunText(0) + t == t;
    } else {
      assert RunText(run) == [DigitChar(run)];
      assert (RunText(run) + t)[1..] == t;
    }
  }

  lemma CellOfLetter(m: Cell)
    requires m.Man?
    ensures CellOf(Letter(m)) == Some(m)
    ensures !('1' <= Letter(m) <= '8')
  {
  }

  lemma ReadMan(m: Cell, t: string, known: seq<Cell>)
    requires m.Man? && |known| < 8
    ensures ReadRank([Letter(m)] + t, known) == ReadRank(t, known + [m])
  {
    CellOfLetter(m);
    assert ([Letter(m)] + t)[1..] == t;
  }

  lemma EmptiesMore(known: seq<Cell>, run: nat, rest: seq<Cell>)
    ensures known + Empties(run + 1) + rest == known + Empties(run) + ([Empty] + rest)
  {
  }

  lemma EmptiesNone(known: seq<Cell>, m: Cell, rest: seq<Cell>)
    ensures known + [m] + Empties(0) + rest == known + ([m] + rest)
  {
  }

  lemma ReadRunThenMan(run: nat, m: Cell, t: string, known: seq<Cell>)
    requires m.Man? && |known| + run < 8
    ensures ReadRank(RunText(run) + [Letter(m)] + t, known) == ReadRank(t, known + Empties(run) + [m])
  {
    assert RunText(run) + [Letter(m)] + t == RunText(run) + ([Letter(m)] + t);
    ReadRun(run, [Letter(m)] + t, known);
    ReadMan(m, t, known + Empties(run));
  }

  lemma {:induction false} ReadRankText(row: seq<Cell>, run: nat, known: seq<Cell>)
    requires |known| + run + |row| == 8
    ensures ReadRank(RankText(row, run), known) == Ok(known + Empties(run) + row)
  {
    if row == [] {
      ReadRun(run, [], known);
      assert RunText(run) + [] == RunText(run);
      assert known + Empties(run) + [] == known + Empties(run);
    } else {
      var rest := row[1..];
      assert row == [row[0]] + rest;
      if row[0] == Empty {
        ReadRankText(rest, run + 1, known);
        EmptiesMore(known, run, rest);
      } else {
        ReadRunThenMan(run, row[0], RankText(rest, 0), known);
        ReadRankText(rest, 0, known + Empties(run) + [row[0]]);
        EmptiesNone(known + Empties(run), row[0], rest);
      }
    }
  }

  lemma {:induction false} RankTextPlain(row: seq<Cell>, run: nat)
    requires run + |row| <= 8
    ensures forall c :: c in RankText(row, run) ==> c != '/' && !IsSpace(c)
    ensures run + |row| > 0 ==> RankText(row, run) != []
  {
    if row != [] {
      RankTextPlain(row[1..], if row[0] == Empty then run + 1 else 0);
    }
  }

  // ----- the board

  function RankOfBoard(b: Cells, r: int): seq<Cell>
    requires 0 <= r < 8
  {
    b[8 * r..8 * r + 8]
  }

  /** The eight rank texts, eighth rank first. */
  function RankTexts(b: Cells): (ts: seq<string>)
    ensures |ts| == 8
  {
    seq(8, i requires 0 <= i < 8 => RankText(RankOfBoard(b, 7 - i), 0))
  }

  function PlacementText(b: Cells): string {
    JoinWith(RankTexts(b), '/')
  }

  function ReadRanks(ts: seq<string>): (r: Result<seq<seq<Cell>>>)
    ensures r.Ok? <==> forall i :: 0 <= i < |ts| ==> ReadRank(ts[i], []).Ok?
    ensures r.Ok? ==> |r.value| == |ts| && forall i :: 0 <= i < |ts| ==> ReadRank(ts[i], []) == Ok(r.value[i])
  {
    if ts == [] then Ok([])
    else if ReadRank(ts[0], []).ValueError? then ValueError
    else if ReadRanks(ts[1..]).ValueError? then
      ValueError
    else
      Ok([ReadRank(ts[0], []).value] + ReadRanks(ts[1..]).value)
  }

  function Assemble(rows: seq<seq<Cell>>): (b: Cells)
    requires |rows| == 8 && forall i :: 0 <= i < 8 ==> |rows[i]| == 8
  {
    seq(64, s requires 0 <= s < 64 => rows[7 - s / 8][s % 8])
  }

  function ReadPlacement(t: string): (r: Result<Cells>)
  {
    var ts := SplitOn(t, '/');
    if |ts| != 8 then ValueError else
    var rows :- ReadRanks(ts);
    Ok(Assemble(rows))
  }

  lemma RankTextStep(cells: seq<Cell>, file: nat, run: nat)
    requires file < |cells|
    ensures RankText(cells[file..], run) ==
      if cells[file] == Empty then RankText(cells[file + 1..], run + 1)
      else RunText(run) + [Letter(cells[file])] + RankText(cells[file + 1..], 0)
  {
    assert cells[file..][1..] == cells[file + 1..];
  }

  lemma Regroup(a: string, b: string, c: string, d: string)
    ensures a + (b + c + d) == a + b + c + d
  {
  }

  /** One more square of a rank leaves what is printed and what remains to print together unchanged. */
  lemma RankTextJoined(row: string, cells: seq<Cell>, file: nat, run: nat)
    requires file < |cells|
    ensures row + RankText(cells[file..], run) ==
      if cells[file] == Empty then row + RankText(cells[file + 1..], run + 1)
      else row + RunText(run) + [Letter(cells[file])] + RankText(cells[file + 1..], 0)
  {
    RankTextStep(cells, file, run);
    hide RankText, RunText, Letter;
    if cells[file] != Empty {
      Regroup(row, RunText(run), [Letter(cells[file])], RankText(cells[file + 1..], 0));
    }
  }

  /** The rank of b is the one this row text denotes. */
  predicate RankRead(b: Cells, row: string, rank: int)
    requires 0 <= rank < 8
  {
    ReadRank(row, []) == Ok(RankOfBoard(b, rank))
  }

  lemma RankKept(b: Cells, d: Cells, changed: int, rank: int)
    requires 0 <= rank < 8 && rank != changed
    requires forall s: Square :: RankOf(s) != changed ==> d[s] == b[s]
    ensures RankOfBoard(d, rank) == RankOfBoard(b, rank)
  {
    forall f | 0 <= f < 8
      ensures RankOfBoard(d, rank)[f] == RankOfBoard(b, rank)[f]
    {
      assert RankOf(At(f, rank)) == rank;
    }
  }

  lemma ReadRankOfBoard(b: Cells, i: int)
    requires 0 <= i < 8
    ensures ReadRank(RankTexts(b)[i], []) == Ok(RankOfBoard(b, 7 - i))
    ensures RankTexts(b)[i] != [] && '/' !in RankTexts(b)[i] && NoSpace(RankTexts(b)[i])
  {
    var row := RankOfBoard(b, 7 - i);
    ReadRankText(row, 0, []);
    assert [] + Empties(0) + row == row;
    RankTextPlain(row, 0);
  }

  lemma AssembleRanks(b: Cells, rows: seq<seq<Cell>>)
    requires |rows| == 8
    requires forall i :: 0 <= i < 8 ==> |rows[i]| == 8 && rows[i] == RankOfBoard(b, 7 - i)
    ensures Assemble(rows) == b
  {
    forall s | 0 <= s < 64
      ensures Assemble(rows)[s] == b[s]
    {
      assert rows[7 - s / 8] == RankOfBoard(b, s / 8);
    }
  }

  lemma ReadPlacementText(b: Cells)
    ensures ReadPlacement(PlacementText(b)) == Ok(b)
    ensures PlacementText(b) != [] && NoSpace(PlacementText(b))
  {
    var ts := RankTexts(b);
    forall i | 0 <= i < 8
      ensures ReadRank(ts[i], []) == Ok(RankOfBoard(b, 7 - i))
      ensures ts[i] != [] && '/' !in ts[i] && NoSpace(ts[i])
    {
      ReadRankOfBoard(b, i);
    }
    SplitOfJoin(ts, '/');
    JoinPlain(ts);
    AssembleRanks(b, ReadRanks(ts).value);
  }

  lemma {:induction false} JoinPlain(ts: seq<string>)
    requires ts != [] && forall t :: t in ts ==> t != [] && NoSpace(t)
    ensures JoinWith(ts, '/') != [] && NoSpace(JoinWith(ts, '/'))
  {
    assert ts[0] in ts;
    if |ts| > 1 {
      forall t | t in ts[1..]
        ensures t != [] && NoSpace(t)
      {
        assert t in ts;
      }
      JoinPlain(ts[1..]);
    }
  }

  // ----- the six fields

  function TurnText(c: Color): string {
    if c.White? then "w" else "b"
  }

  function DashIfEmpty(s: string): string {
    if s == [] then "-" else s
  }

  function Fields(p: Position): (fs: seq<string>)
    ensures |fs| == 6
  {
    [PlacementText(p.board), TurnText(p.turn), DashIfEmpty(p.castling),
     EnPassantText(p.ep), Decimal(p.halfmove), Decimal(p.fullmove)]
  }

  /** `fen()`. */
  function FenText(p: Position): string {
    Spaced(Fields(p))
  }

  function ReadTurn(t: string): Result<Color> {
    if t == "w" then Ok(White) else if t == "b" then Ok(Black) else ValueError
  }

  function ReadRights(t: string): Result<string> {
    var s := if t == "-" then "" else t;
    if RightsText(s) then Ok(s) else ValueError
  }

  function ReadEnPassant(t: string): Result<Option<Square>> {
    if t == "-" then Ok(None) else
    var e :- Squares.Parse(t);
    Ok(Some(e))
  }

  function ReadCounter(fs: seq<string>, i: nat, default: nat): Result<nat> {
    if |fs| <= i then Ok(default)
    else if AllDigits(fs[i]) then Ok(Number(fs[i]))
    else ValueError
  }

  /** The syntactic half of `set_fen`: fields to a position, before the structural rules. */
  function ReadFields(fs: seq<string>): Result<Position> {
    if |fs| < 4 || |fs| > 6 then ValueError else
    var board :- ReadPlacement(fs[0]);
    var turn :- ReadTurn(fs[1]);
    var castling :- ReadRights(fs[2]);
    var ep :- ReadEnPassant(fs[3]);
    var halfmove :- ReadCounter(fs, 4, 0);
    var fullmove :- ReadCounter(fs, 5, 1);
    Ok(Position(board, turn, castling, ep, halfmove, fullmove))
  }

  /** `set_fen`: the position a text denotes, or its rejection. */
  ghost function ParseFen(t: string): (r: Result<Position>)
    ensures r.Ok? ==> Valid(r.value)
  {
    if |t| > MAX_FEN_CHARS then ValueError else
    var p :- ReadFields(Words(t));
    if Valid(p) then Ok(p) else ValueError
  }

  /** Whether `clone`, `undo` and `redo` can re-read this position's own text. */
  predicate Fits(p: Position) {
    |FenText(p)| <= MAX_FEN_CHARS
  }

  lemma RightsPlain(s: string)
    requires RightsText(s)
    ensures s != "-"
    ensures NoSpace(DashIfEmpty(s))
  {
    assert |s| == 1 ==> s[0] in s;
    forall c | c in s
      ensures c != '-' && !IsSpace(c)
    {
      assert c in "KQkq";
    }
  }

  lemma DecimalPlain(n: nat)
    ensures NoSpace(Decimal(n)) && ReadCounter([Decimal(n)], 0, 0) == Ok(n)
  {
    NumberOfDecimal(n);
  }

  function EnPassantText(e: Option<Square>): string {
    if e.Some? then Name(e.value) else "-"
  }

  lemma SmallFieldsRead(c: Color, rights: string, e: Option<Square>)
    requires RightsText(rights)
    ensures ReadTurn(TurnText(c)) == Ok(c)
    ensures ReadRights(DashIfEmpty(rights)) == Ok(rights)
    ensures ReadEnPassant(EnPassantText(e)) == Ok(e)
  {
    RightsPlain(rights);
    if e.Some? {
      ParseName(e.value);
    }
  }

  lemma SmallFieldsPlain(c: Color, rights: string, e: Option<Square>)
    requires RightsText(rights)
    ensures NoSpace(TurnText(c)) && NoSpace(DashIfEmpty(rights)) && NoSpace(EnPassantText(e))
  {
    RightsPlain(rights);
  }

  lemma FieldsPlain(p: Position)
    requires RightsText(p.castling)
    ensures forall i :: 0 <= i < 6 ==> Fields(p)[i] != [] && NoSpace(Fields(p)[i])
  {
    ReadPlacementText(p.board);
    SmallFieldsPlain(p.turn, p.castling, p.ep);
    DecimalPlain(p.halfmove);
    DecimalPlain(p.fullmove);
  }

  /** Printing then reading the fields gives the position back, whatever its size. */
  lemma ReadFieldsOfFen(p: Position)
    requires RightsText(p.castling)
    ensures ReadFields(Words(FenText(p))) == Ok(p)
  {
    FieldsPlain(p);
    WordsOfSpaced(Fields(p));
    ReadPlacementText(p.board);
    SmallFieldsRead(p.turn, p.castling, p.ep);
    DecimalPlain(p.halfmove);
    DecimalPlain(p.fullmove);
  }

  /** `set_fen(fen())` restores every field exactly when the printed text respects the length limit. */
  lemma FenRoundTrip(p: Position)
    requires Valid(p)
    ensures ParseFen(FenText(p)) == Ok(p) <==> Fits(p)
  {
    ReadFieldsOfFen(p);
  }

  /** Two legal states never print the same text. */
  lemma FenInjective(p: Position, q: Position)
    requires RightsText(p.castling) && RightsText(q.castling)
    requires FenText(p) == FenText(q)
    ensures p == q
  {
    ReadFieldsOfFen(p);
    ReadFieldsOfFen(q);
  }
}
