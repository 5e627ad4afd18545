/** The mutable board of acs/chesscore.py: fields updated in place, each operation proved against the
    functions of Fen, Rules, Notation and Timeline. */
module BoardClass {
  import opened Base
  import opened Text
  import opened Squares
  import opened Pieces
  import P = Position
  import opened Fen
  import opened Rules
  import opened Notation
  import opened Sight
  import opened Timeline
  import Closure
  import SanRoundTrip

  class Board {
    var board: Cells
    var turn: Color
    var castling: string
    var ep: Option<Square>
    var halfmove: nat
    var fullmove: nat
    var undoStack: seq<Entry>
    var redoStack: seq<Entry>
    var lastMove: Option<Move>

    function Pos(): P.Position
      reads this
    {
      P.Position(board, turn, castling, ep, halfmove, fullmove)
    }

    function State(): Session
      reads this
    {
      Session(Pos(), undoStack, redoStack)
    }

    /** The structural rules `set_fen` enforces hold of the current fields. */
    ghost predicate Canonical()
      reads this
    {
      P.Valid(Pos())
    }

    // ----- attacks

    /** The five scans of `attacked` together find exactly the men that strike the square. */
    static lemma AttackedBySight(b: Cells, sq: Square, side: Color, pawns: seq<Square>, knights: seq<Square>,
                                 kings: seq<Square>, straights: seq<Square>, diagonals: seq<Square>)
      requires forall s: Square :: s in pawns <==> (FileGap(sq, s), RankGap(sq, s)) in PawnSteps(-side.Forward())
      requires forall s: Square :: s in knights <==> (FileGap(sq, s), RankGap(sq, s)) in KNIGHT_STEPS
      requires forall s: Square :: s in kings <==> (FileGap(sq, s), RankGap(sq, s)) in KING_STEPS
      requires forall s: Square :: s in straights <==> Seen(b, sq, s, STRAIGHTS)
      requires forall s: Square :: s in diagonals <==> Seen(b, sq, s, DIAGONALS)
      ensures AttackedBy(b, sq, side) <==>
        || HeldAmong(b, pawns, side, {Pawn}) || HeldAmong(b, knights, side, {Knight})
        || HeldAmong(b, kings, side, {King})
        || HeldAmong(b, straights, side, {Rook, Queen}) || HeldAmong(b, diagonals, side, {Bishop, Queen})
    {
      forall s: Square | Held(b, s, side)
        ensures Strikes(b, s, sq) <==>
          || (s in pawns && b[s].kind in {Pawn}) || (s in knights && b[s].kind in {Knight})
          || (s in kings && b[s].kind in {King})
          || (s in straights && b[s].kind in {Rook, Queen}) || (s in diagonals && b[s].kind in {Bishop, Queen})
      {
        SeenFromIsStrike(b, s, sq);
      }
      if AttackedBy(b, sq, side) {
        var s: Square :| Held(b, s, side) && Strikes(b, s, sq);
      }
    }

    static predicate HeldAmong(b: Cells, targets: seq<Square>, side: Color, kinds: set<Kind>) {
      exists s: Square :: s in targets && Held(b, s, side) && b[s].kind in kinds
    }

    /** Whether one of the squares holds a man of this side and one of these kinds. */
    method Holds(targets: seq<Square>, side: Color, kinds: set<Kind>) returns (hit: bool)
      ensures hit <==> HeldAmong(board, targets, side, kinds)
    {
      for i := 0 to |targets|
        invariant forall j :: 0 <= j < i ==> !(Held(board, targets[j], side) && board[targets[j]].kind in kinds)
      {
        if Held(board, targets[i], side) && board[targets[i]].kind in kinds {
          return true;
        }
      }
      return false;
    }

    /** `attacked`: reversed pawn steps, knight and king steps, then rays, all seen from the target. */
    method Attacked(sq: Square, side: Color) returns (hit: bool)
      ensures hit <==> AttackedBy(board, sq, side)
    {
      PawnTable(sq, sq, -side.Forward());
      KnightTable(sq, sq);
      KingTable(sq, sq);
      LinesAreDirections();
      var pawns := StepTargets(sq, PawnSteps(-side.Forward()));
      var knights := StepTargets(sq, KNIGHT_STEPS);
      var kings := StepTargets(sq, KING_STEPS);
      var straights := LineTargets(board, sq, STRAIGHTS);
      var diagonals := LineTargets(board, sq, DIAGONALS);
      var byPawn := Holds(pawns, side, {Pawn});
      var byKnight := Holds(knights, side, {Knight});
      var byKing := Holds(kings, side, {King});
      var byRook := Holds(straights, side, {Rook, Queen});
      var byBishop := Holds(diagonals, side, {Bishop, Queen});
      hit := byPawn || byKnight || byKing || byRook || byBishop;
      AttackedBySight(board, sq, side, pawns, knights, kings, straights, diagonals);
    }

    /** The squares the man on s attacks or defends, in the order the directions are tried. */
    method Targets(s: Square) returns (out: seq<Square>)
      requires board[s].Man?
      ensures Distinct(out)
      ensures forall t: Square :: t in out <==> Strikes(board, s, t)
    {
      PawnTable(s, s, board[s].color.Forward());
      KnightTable(s, s);
      KingTable(s, s);
      LinesAreDirections();
      match board[s].kind {
        case Pawn => out := StepTargets(s, PawnSteps(board[s].color.Forward()));
        case Knight => out := StepTargets(s, KNIGHT_STEPS);
        case King => out := StepTargets(s, KING_STEPS);
        case Rook => out := LineTargets(board, s, STRAIGHTS);
        case Bishop => out := LineTargets(board, s, DIAGONALS);
        case Queen => out := LineTargets(board, s, ALL_LINES);
      }
      forall t: Square
        ensures t in out <==> Strikes(board, s, t)
      {
        ReachIsStrike(board, s, t);
      }
    }

    /** `attacks_from`: the attacked and defended squares in ascending order, none for an empty square. */
    method AttacksFrom(s: Square) returns (out: seq<Square>)
      ensures forall t: Square :: t in out <==> board[s].Man? && Strikes(board, s, t)
      ensures forall i, j :: 0 <= i < j < |out| ==> out[i] < out[j]
    {
      out := [];
      if board[s] == Empty {
        return;
      }
      var targets := Targets(s);
      for q := 0 to 64
        invariant forall i :: 0 <= i < |out| ==> out[i] < q
        invariant forall i, j :: 0 <= i < j < |out| ==> out[i] < out[j]
        invariant forall t: Square :: t in out <==> t < q && t in targets
      {
        if q in targets {
          out := out + [q];
        }
      }
    }

    /** `attackers_of`: both scans name the same attackers. */
    method AttackersOf(t: Square) returns (out: seq<Square>)
      ensures forall s: Square :: s in out <==> board[s].Man? && Strikes(board, s, t)
      ensures forall side: Color :: AttackedBy(board, t, side) <==> exists s: Square :: s in out && Held(board, s, side)
      ensures forall i, j :: 0 <= i < j < |out| ==> out[i] < out[j]
    {
      out := [];
      for s := 0 to 64
        invariant forall i :: 0 <= i < |out| ==> out[i] < s
        invariant forall i, j :: 0 <= i < j < |out| ==> out[i] < out[j]
        invariant forall q: Square :: q in out <==> q < s && board[q].Man? && Strikes(board, q, t)
      {
        var hits := AttacksFrom(s);
        if t in hits {
          out := out + [s];
        }
      }
    }

    /** `in_check`; a side without a king raises. */
    method InCheckOf(c: Color) returns (r: Result<bool>)
      ensures r == if KingSquare(board, c).None? then ValueError else Ok(InCheck(board, c))
    {
      var k := KingSquare(board, c);
      if k.None? {
        return ValueError;
      }
      var hit := Attacked(k.value, c.Other());
      return Ok(hit);
    }

    // ----- move generation

    /** Ordinary moves from s to those targets that do not hold a man of this side. */
    method PlainMoves(s: Square, c: Color, targets: seq<Square>) returns (out: seq<Move>)
      requires Distinct(targets)
      ensures Distinct(out)
      ensures forall m: Move :: m in out <==> m.from == s && Plain(m) && m.to in targets && !Held(board, m.to, c)
    {
      out := [];
      for i := 0 to |targets|
        invariant Distinct(out)
        invariant forall m: Move :: m in out <==>
            m.from == s && Plain(m) && m.to in targets[..i] && !Held(board, m.to, c)
      {
        assert targets[..i + 1] == targets[..i] + [targets[i]];
        assert targets[i] !in targets[..i];
        if !Held(board, targets[i], c) {
          out := out + [Move(s, targets[i], None, false, false)];
        }
      }
      assert targets[..|targets|] == targets;
    }

    /** One pawn step or capture: four promotions on the last rank, one plain move elsewhere. */
    method PawnArrivals(s: Square, to: Square, c: Color) returns (out: seq<Move>)
      ensures Distinct(out)
      ensures forall m: Move :: m in out <==>
          m.from == s && m.to == to && PromotionFits(c, m) && !m.enPassant && !m.castle
    {
      if RankOf(to) != c.LastRank() {
        return [Move(s, to, None, false, false)];
      }
      out := [Move(s, to, Some(Queen), false, false), Move(s, to, Some(Rook), false, false),
              Move(s, to, Some(Bishop), false, false), Move(s, to, Some(Knight), false, false)];
      forall m: Move | m.from == s && m.to == to && PromotionFits(c, m) && !m.enPassant && !m.castle
        ensures m in out
      {
        assert m == Move(s, to, m.promotion, false, false);
      }
    }

    method PawnAdvances(s: Square, c: Color) returns (out: seq<Move>)
      ensures Distinct(out)
      ensures forall m: Move :: m in out <==> m.from == s && (PawnAdvance(Pos(), c, m) || PawnDouble(Pos(), c, m))
    {
      out := [];
      var rank := RankOf(s) + c.Forward();
      if OnBoard(FileOf(s), rank) && board[At(FileOf(s), rank)] == Empty {
        out := PawnArrivals(s, At(FileOf(s), rank), c);
        if RankOf(s) == c.PawnRank() {
          var far := At(FileOf(s), rank + c.Forward());
          assert (s + far) / 2 == At(FileOf(s), rank);
          if board[far] == Empty {
            out := out + [Move(s, far, None, false, false)];
          }
        }
      }
    }

    method PawnCaptures(s: Square, c: Color) returns (out: seq<Move>)
      ensures Distinct(out)
      ensures forall m: Move :: m in out <==> m.from == s && (PawnCapture(Pos(), c, m) || PawnEnPassant(Pos(), c, m))
    {
      PawnTable(s, s, c.Forward());
      var targets := StepTargets(s, PawnSteps(c.Forward()));
      out := [];
      for i := 0 to |targets|
        invariant Distinct(out)
        invariant forall m: Move :: m in out <==>
          m.from == s && m.to in targets[..i] && (PawnCapture(Pos(), c, m) || PawnEnPassant(Pos(), c, m))
      {
        var to := targets[i];
        assert targets[..i + 1] == targets[..i] + [to];
        assert to !in targets[..i];
        PawnTable(s, to, c.Forward());
        if Held(board, to, c.Other()) {
          var arrivals := PawnArrivals(s, to, c);
          DistinctConcat(out, arrivals);
          out := out + arrivals;
        } else if ep == Some(to) {
          out := out + [Move(s, to, None, true, false)];
        }
      }
      forall m: Move | PawnCapture(Pos(), c, m) || PawnEnPassant(Pos(), c, m)
        ensures m.from == s ==> m.to in targets
      {
        PawnTable(s, m.to, c.Forward());
      }
      assert targets[..|targets|] == targets;
    }

    /** Whether the side may castle on this wing now. */
    method CanCastle(c: Color, w: P.Wing) returns (can: bool)
      requires w in P.WINGS && board[w.king] == Man(c, King)
      ensures can <==> CastlesOn(Pos(), c, CastlingMove(w), w)
    {
      if w.color != c || w.right !in castling || board[w.rook] != Man(c, Rook) {
        return false;
      }
      var checked := InCheckOf(c);
      if checked != Ok(false) {
        return false;
      }
      for k := 0 to |w.path|
        invariant forall j :: 0 <= j < k ==> board[w.path[j]] == Empty
      {
        if board[w.path[k]] != Empty {
          return false;
        }
      }
      for k := 0 to |w.safe|
        invariant forall j :: 0 <= j < k ==> !AttackedBy(board, w.safe[j], c.Other())
      {
        var hit := Attacked(w.safe[k], c.Other());
        if hit {
          return false;
        }
      }
      return true;
    }

    method CastlingMoves(s: Square, c: Color) returns (out: seq<Move>)
      requires board[s] == Man(c, King)
      ensures Distinct(out)
      ensures forall m: Move :: m in out <==> m.from == s && Castling(Pos(), c, m)
    {
      out := [];
      for i := 0 to 4
        invariant Distinct(out)
        invariant forall m: Move :: m in out <==>
          m.from == s && exists j :: 0 <= j < i && CastlesOn(Pos(), c, m, P.WINGS[j])
      {
        var w := P.WINGS[i];
        assert forall m :: CastlesOn(Pos(), c, m, w) ==> m == CastlingMove(w) && m.from == w.king;
        assert forall j :: 0 <= j < i ==> !CastlesOn(Pos(), c, CastlingMove(w), P.WINGS[j]);
        hide CastlesOn, Castling, AttackedBy;
        if s == w.king {
          var can := CanCastle(c, w);
          if can {
            assert CastlingMove(w) !in out;
            out := out + [CastlingMove(w)];
          }
        }
      }
      hide CastlesOn, Castling;
      forall m: Move
        ensures Castling(Pos(), c, m) <==> exists j :: 0 <= j < 4 && CastlesOn(Pos(), c, m, P.WINGS[j])
      {
        CastlingByWing(Pos(), c, m);
      }
    }

    method MovesFrom(s: Square, c: Color) returns (out: seq<Move>)
      requires Held(board, s, c)
      ensures Distinct(out)
      ensures forall m: Move :: m in out <==> m.from == s && Pseudo(Pos(), c, m)
    {
      if board[s].kind == Pawn {
        var advances := PawnAdvances(s, c);
        var captures := PawnCaptures(s, c);
        DistinctConcat(advances, captures);
        return advances + captures;
      }
      var targets := Targets(s);
      out := PlainMoves(s, c, targets);
      assert forall m: Move :: m in out <==> m.from == s && PieceMove(Pos(), c, m);
      if board[s].kind == King {
        var castlings := CastlingMoves(s, c);
        forall m | m in castlings
          ensures m !in out
        {
          CastlingShape(Pos(), c, m);
        }
        DistinctConcat(out, castlings);
        out := out + castlings;
      }
    }

    /** `pseudo_moves`: every pseudo-legal move of the side, once. */
    method PseudoMoves(c: Color) returns (out: seq<Move>)
      ensures Distinct(out)
      ensures forall m: Move :: m in out <==> Pseudo(Pos(), c, m)
      ensures forall i, j :: 0 <= i < j < |out| ==> out[i].from <= out[j].from
    {
      out := [];
      for s := 0 to 64
        invariant Distinct(out)
        invariant forall m: Move :: m in out <==> m.from < s && Pseudo(Pos(), c, m)
        invariant forall i :: 0 <= i < |out| ==> out[i].from < s
        invariant forall i, j :: 0 <= i < j < |out| ==> out[i].from <= out[j].from
      {
        if Held(board, s, c) {
          var more := MovesFrom(s, c);
          DistinctConcat(out, more);
          assert forall i :: 0 <= i < |more| ==> more[i] in more;
          out := out + more;
        }
      }
    }

    // ----- FEN

    /** The text of one rank, squares left to right, runs of empty squares as digits. */
    method PrintRank(rank: int) returns (row: string)
      requires 0 <= rank < 8
      ensures row == RankText(RankOfBoard(board, rank), 0)
    {
      ghost var cells := RankOfBoard(board, rank);
      row := "";
      var empty := 0;
      for file := 0 to 8
        invariant 0 <= empty <= file
        invariant row + RankText(cells[file..], empty) == RankText(cells, 0)
      {
        hide RankText, RunText, Letter;
        var cell := board[rank * 8 + file];
        RankTextJoined(row, cells, file, empty);
        if cell == Empty {
          empty := empty + 1;
        } else {
          row := row + RunText(empty) + [Letter(cell)];
          empty := 0;
        }
      }
      assert cells[8..] == [];
      row := row + RunText(empty);
    }

    /** `fen`. */
    method Fen() returns (text: string)
      ensures text == FenText(Pos())
    {
      var rows: seq<string> := [];
      for i := 0 to 8
        invariant |rows| == i && forall j :: 0 <= j < i ==> rows[j] == RankTexts(board)[j]
      {
        var row := PrintRank(7 - i);
        rows := rows + [row];
      }
      assert rows == RankTexts(board);
      var placement := JoinWith(rows, '/');
      text := Spaced([placement, TurnText(turn), DashIfEmpty(castling),
                      EnPassantText(ep), Decimal(halfmove), Decimal(fullmove)]);
    }

    /** `count(king) == 1`. */
    static method HasOneKing(bd: Cells, c: Color) returns (one: bool)
      ensures one <==> OneKing(bd, c)
    {
      var count := 0;
      ghost var first: Square, second: Square := 0, 0;
      for s := 0 to 64
        invariant count == 0 ==> forall q: Square :: q < s ==> bd[q] != Man(c, King)
        invariant count >= 1 ==> first < s && bd[first] == Man(c, King)
        invariant count == 1 ==> forall q: Square :: q < s && bd[q] == Man(c, King) ==> q == first
        invariant count >= 2 ==> second < s && bd[second] == Man(c, King) && second != first
      {
        if bd[s] == Man(c, King) {
          if count == 0 {
            first := s;
          } else {
            second := s;
          }
          count := count + 1;
        }
      }
      return count == 1;
    }

    /** The structural checks of `set_fen` on a board that has been read. */
    static method Accepts(p: P.Position) returns (ok: bool)
      requires P.RightsText(p.castling)
      ensures ok <==> P.Valid(p)
    {
      var white := HasOneKing(p.board, White);
      var black := HasOneKing(p.board, Black);
      if !white || !black || p.fullmove < 1 {
        return false;
      }
      for s := 0 to 64
        invariant forall q: Square :: q < s && p.board[q].Man? && p.board[q].kind == Pawn ==>
            RankOf(q) != 0 && RankOf(q) != 7
      {
        if p.board[s].Man? && p.board[s].kind == Pawn && (RankOf(s) == 0 || RankOf(s) == 7) {
          return false;
        }
      }
      var wk, bk := KingSquare(p.board, White), KingSquare(p.board, Black);
      OnlyKing(p.board, White, wk.value);
      OnlyKing(p.board, Black, bk.value);
      if Span(wk.value, bk.value) <= 1 {
        return false;
      }
      for i := 0 to 4
        invariant forall j :: 0 <= j < i && P.WINGS[j].right in p.castling ==> P.Supported(p.board, P.WINGS[j])
      {
        if P.WINGS[i].right in p.castling && !P.Supported(p.board, P.WINGS[i]) {
          return false;
        }
      }
      return p.ep.None? || P.EnPassantFits(p.board, p.turn, p.ep.value);
    }

    /** Reading one rank text into the empty rank `rank` of bd. */
    static method PlaceRank(bd: Cells, rank: int, row: string) returns (r: Result<Cells>)
      requires 0 <= rank < 8
      ensures r.Ok? <==> ReadRank(row, []).Ok?
      ensures r.Ok? ==> RankRead(r.value, row, rank)
      ensures r.Ok? ==> forall s: Square :: RankOf(s) != rank ==> r.value[s] == bd[s]
      requires forall s: Square :: RankOf(s) == rank ==> bd[s] == Empty
    {
      var out := bd;
      var file := 0;
      for i := 0 to |row|
        invariant 0 <= file <= 8
        invariant forall s: Square :: RankOf(s) != rank ==> out[s] == bd[s]
        invariant forall s: Square :: RankOf(s) == rank && FileOf(s) >= file ==> out[s] == Empty
        invariant ReadRank(row[i..], out[8 * rank..8 * rank + file]) == ReadRank(row, [])
      {
        var ch := row[i];
        ghost var known := out[8 * rank..8 * rank + file];
        assert row[i..][0] == ch && row[i..][1..] == row[i + 1..];
        if '1' <= ch <= '8' {
          if file + DigitOf(ch) > 8 {
            return ValueError;
          }
          file := file + DigitOf(ch);
          assert out[8 * rank..8 * rank + file] == known + Empties(DigitOf(ch)) by {
            forall j | 0 <= j < file
              ensures out[8 * rank..8 * rank + file][j] == (known + Empties(DigitOf(ch)))[j]
            {
              assert out[8 * rank + j] == out[At(j, rank)];
            }
          }
        } else if CellOf(ch).Some? {
          if file >= 8 {
            return ValueError;
          }
          out := out[rank * 8 + file := CellOf(ch).value];
          file := file + 1;
          assert out[8 * rank..8 * rank + file] == known + [CellOf(ch).value];
        } else {
          return ValueError;
        }
      }
      assert row[|row|..] == [];
      if file != 8 {
        return ValueError;
      }
      return Ok(out);
    }

    /** Reading the placement field, eighth rank first. */
    static method ReadBoard(placement: string) returns (r: Result<Cells>)
      ensures r == ReadPlacement(placement)
    {
      var rows := SplitOn(placement, '/');
      if |rows| != 8 {
        return ValueError;
      }
      var bd: Cells := seq(64, i => Empty);
      for rr := 0 to 8
        invariant forall j :: 0 <= j < rr ==> RankRead(bd, rows[j], 7 - j)
        invariant forall s: Square :: RankOf(s) <= 7 - rr ==> bd[s] == Empty
      {
        var placed := PlaceRank(bd, 7 - rr, rows[rr]);
        if placed.ValueError? {
          return ValueError;
        }
        forall j | 0 <= j < rr
          ensures RankRead(placed.value, rows[j], 7 - j)
        {
          assert RankRead(bd, rows[j], 7 - j);
          RankKept(bd, placed.value, 7 - rr, 7 - j);
        }
        bd := placed.value;
      }
      var ranks := ReadRanks(rows).value;
      forall i | 0 <= i < 8
        ensures |ranks[i]| == 8 && ranks[i] == RankOfBoard(bd, 7 - i)
      {
        assert RankRead(bd, rows[i], 7 - i);
      }
      AssembleRanks(bd, ranks);
      return Ok(bd);
    }

    /** Everything `set_fen` checks before it commits. */
    static method ReadText(fen: string) returns (r: Result<P.Position>)
      ensures r == ParseFen(fen)
    {
      if |fen| > MAX_FEN_CHARS {
        return ValueError;
      }
      var parts := Words(fen);
      if |parts| < 4 || |parts| > 6 {
        return ValueError;
      }
      var bd := ReadBoard(parts[0]);
      var side := ReadTurn(parts[1]);
      var rights := ReadRights(parts[2]);
      var passed := ReadEnPassant(parts[3]);
      var half := ReadCounter(parts, 4, 0);
      var full := ReadCounter(parts, 5, 1);
      if bd.ValueError? || side.ValueError? || rights.ValueError? || passed.ValueError? || half.ValueError?
        || full.ValueError? {
        return ValueError;
      }
      var p := P.Position(bd.value, side.value, rights.value, passed.value, half.value, full.value);
      var ok := Accepts(p);
      return if ok then Ok(p) else ValueError;
    }

    /** The blank board of `__init__` before its `set_fen`. */
    constructor ()
      ensures undoStack == [] && redoStack == [] && lastMove == None
    {
      board := seq(64, i => Empty);
      turn := White;
      castling := "KQkq";
      ep := None;
      halfmove := 0;
      fullmove := 1;
      undoStack := [];
      redoStack := [];
      lastMove := None;
    }

    /** `Board(fen)`. */
    static method Create(fen: string) returns (r: Result<Board>)
      ensures r.Ok? <==> ParseFen(fen).Ok?
      ensures r.Ok? ==> fresh(r.value) && r.value.Canonical() && r.value.Pos() == ParseFen(fen).value
      ensures r.Ok? ==> r.value.undoStack == [] && r.value.redoStack == [] && r.value.lastMove == None
    {
      var b := new Board();
      var ok := b.SetFen(fen, true);
      return if ok then Ok(b) else ValueError;
    }

    /** `set_fen`: all fields are replaced after every check has passed, or none is. */
    method SetFen(fen: string, clearHistory: bool) returns (ok: bool)
      modifies this
      ensures ok <==> ParseFen(fen).Ok?
      ensures ok ==> Pos() == ParseFen(fen).value && Canonical() && lastMove == None
      ensures ok ==> undoStack == (if clearHistory then [] else old(undoStack))
                     && redoStack == (if clearHistory then [] else old(redoStack))
      ensures !ok ==> State() == old(State()) && lastMove == old(lastMove)
    {
      var read := ReadText(fen);
      if read.ValueError? {
        return false;
      }
      var p := read.value;
      board, turn, castling, ep := p.board, p.turn, p.castling, p.ep;
      halfmove, fullmove, lastMove := p.halfmove, p.fullmove, None;
      if clearHistory {
        undoStack, redoStack := [], [];
      }
      return true;
    }

    /** `clone`, through the board's own FEN text. */
    method Clone() returns (r: Result<Board>)
      requires Canonical()
      ensures r.Ok? <==> Fits(Pos())
      ensures r.Ok? ==> fresh(r.value) && r.value.Pos() == Pos() && r.value.lastMove == lastMove
      ensures r.Ok? ==> r.value.undoStack == [] && r.value.redoStack == []
    {
      var text := Fen();
      FenRoundTrip(Pos());
      r := Create(text);
      if r.Ok? {
        r.value.lastMove := lastMove;
      }
    }

    // ----- making moves

    /** The board part of `_apply`; returns what was captured. */
    method MoveMen(m: Move) returns (captured: Cell)
      requires Appliable(board, m)
      modifies `board
      ensures board == ApplyBoard(old(board), m)
      ensures captured.Man? <==> Captures(old(board), m)
    {
      var man := board[m.from];
      captured := board[m.to];
      if m.enPassant {
        var cs := if man == Man(White, Pawn) then m.to - 8 else m.to + 8;
        captured := board[cs];
        board := board[cs := Empty];
      }
      board := board[m.to := man];
      board := board[m.from := Empty];
      if m.promotion.Some? {
        board := board[m.to := Man(man.color, m.promotion.value)];
      }
      if m.castle {
        if m.to == 6 {
          board := Relocate(board, 7, 5);
        } else if m.to == 2 {
          board := Relocate(board, 0, 3);
        } else if m.to == 62 {
          board := Relocate(board, 63, 61);
        } else if m.to == 58 {
          board := Relocate(board, 56, 59);
        }
      }
    }

    /** The castling part of `_apply`. */
    method UpdateRights(m: Move, man: Cell, captured: bool, ghost before: Cells)
      requires Appliable(before, m) && man == before[m.from] && captured == Captures(before, m)
      modifies `castling
      ensures castling == RightsAfter(before, m, old(castling))
    {
      if man == Man(White, King) {
        castling := Without(Without(castling, 'K'), 'Q');
      }
      if man == Man(Black, King) {
        castling := Without(Without(castling, 'k'), 'q');
      }
      ghost var start := castling;
      var corners: seq<(Square, char)> := [(0, 'Q'), (7, 'K'), (56, 'q'), (63, 'k')];
      for i := 0 to 4
        invariant castling == LoseCorners(before, m, start, i)
      {
        if m.from == corners[i].0 || (m.to == corners[i].0 && captured) {
          castling := Without(castling, corners[i].1);
        }
      }
    }

    /** The rights after the first n corner rules. */
    static ghost function LoseCorners(b: Cells, m: Move, rights: string, n: nat): string
      requires Appliable(b, m) && n <= 4
    {
      var r1 := if n < 1 then rights else LoseCorner(b, m, 0, 'Q', rights);
      var r2 := if n < 2 then r1 else LoseCorner(b, m, 7, 'K', r1);
      var r3 := if n < 3 then r2 else LoseCorner(b, m, 56, 'q', r2);
      if n < 4 then r3 else LoseCorner(b, m, 63, 'k', r3)
    }

    /** `_apply`: the in-place update, field by field. */
    method ApplyMove(m: Move)
      requires Appliable(board, m)
      modifies this
      ensures Pos() == Apply(old(Pos()), m) && lastMove == Some(m)
      ensures undoStack == old(undoStack) && redoStack == old(redoStack)
    {
      var man := board[m.from];
      var captured := MoveMen(m);
      UpdateRights(m, man, captured.Man?, old(board));
      ep := None;
      if man.kind == Pawn && Abs(m.to - m.from) == 16 {
        ep := Some((m.to + m.from) / 2);
      }
      halfmove := if man.kind == Pawn || captured.Man? then 0 else halfmove + 1;
      if turn.Black? {
        fullmove := fullmove + 1;
      }
      turn := turn.Other();
      lastMove := Some(m);
    }

    /** `legal_moves`: each candidate is made on a clone and kept if the mover's king is then safe. */
    method LegalMoves() returns (r: Result<seq<Move>>)
      requires Canonical()
      ensures r.Ok? <==> Fits(Pos()) || !HasPseudo(Pos())
      ensures r.Ok? ==> Distinct(r.value) && forall m: Move :: m in r.value <==> Legal(Pos(), m)
    {
      hide Fits, FenText, Pseudo, InCheck, ApplyBoard;
      var candidates := PseudoMoves(turn);
      var out: seq<Move> := [];
      for i := 0 to |candidates|
        invariant i > 0 ==> Fits(Pos())
        invariant Distinct(out)
        invariant forall m: Move :: m in out <==> m in candidates[..i] && Legal(Pos(), m)
      {
        var m := candidates[i];
        assert candidates[..i + 1] == candidates[..i] + [m];
        assert m !in candidates[..i];
        assert m in candidates;
        var clone := Clone();
        if clone.ValueError? {
          return ValueError;
        }
        PseudoAppliable(Pos(), m);
        assert OneKing(board, turn) && P.EnPassantHolds(Pos()) by {
          assert Canonical() && (turn.White? || turn.Black?);
        }
        Closure.OwnKingAfter(Pos(), m);
        clone.value.ApplyMove(m);
        var checked := clone.value.InCheckOf(turn);
        if checked == Ok(false) {
          out := out + [m];
        }
      }
      assert candidates[..|candidates|] == candidates;
      assert HasPseudo(Pos()) ==> |candidates| > 0;
      return Ok(out);
    }

    // ----- notation

    /** The legal moves `san` must tell m from. */
    method Rivals(m: Move, legal: seq<Move>) returns (same: seq<Move>)
      requires Legal(Pos(), m)
      requires forall x: Move :: x in legal <==> Legal(Pos(), x)
      ensures forall x: Move :: x in same <==> Rival(Pos(), m, x)
    {
      same := [];
      for i := 0 to |legal|
        invariant forall x: Move :: x in same <==> x in legal[..i] && Rival(Pos(), m, x)
      {
        var x := legal[i];
        assert legal[..i + 1] == legal[..i] + [x];
        assert x in legal;
        if x != m && board[x.from].kind == board[m.from].kind && x.to == m.to {
          same := same + [x];
        }
      }
      assert legal[..|legal|] == legal;
    }

    /** The disambiguation text against a non-empty list of rivals. */
    static method TellApart(m: Move, same: seq<Move>) returns (o: string)
      ensures o ==
        if forall x: Move :: x in same ==> FileOf(x.from) != FileOf(m.from) then [FileChar(FileOf(m.from))]
        else if forall x: Move :: x in same ==> RankOf(x.from) != RankOf(m.from) then [RankChar(RankOf(m.from))]
        else Name(m.from)
    {
      var fileTells := true;
      var rankTells := true;
      for i := 0 to |same|
        invariant fileTells <==> forall j :: 0 <= j < i ==> FileOf(same[j].from) != FileOf(m.from)
        invariant rankTells <==> forall j :: 0 <= j < i ==> RankOf(same[j].from) != RankOf(m.from)
      {
        if FileOf(same[i].from) == FileOf(m.from) {
          fileTells := false;
        }
        if RankOf(same[i].from) == RankOf(m.from) {
          rankTells := false;
        }
      }
      assert forall j :: 0 <= j < |same| ==> same[j] in same;
      if fileTells {
        return [FileChar(FileOf(m.from))];
      }
      if rankTells {
        return [RankChar(RankOf(m.from))];
      }
      return Name(m.from);
    }

    static lemma OriginOfRivals(p: P.Position, m: Move, same: seq<Move>)
      requires p.board[m.from].Man? && same != []
      requires forall x: Move :: x in same <==> Rival(p, m, x)
      ensures Origin(p, m) ==
        if forall x: Move :: x in same ==> FileOf(x.from) != FileOf(m.from) then [FileChar(FileOf(m.from))]
        else if forall x: Move :: x in same ==> RankOf(x.from) != RankOf(m.from) then [RankChar(RankOf(m.from))]
        else Name(m.from)
    {
      hide Rival, FileOf, RankOf, FileChar, RankChar, Squares.Name;
      assert same[0] in same;
    }

    method OriginText(m: Move, legal: seq<Move>) returns (o: string)
      requires Legal(Pos(), m)
      requires forall x: Move :: x in legal <==> Legal(Pos(), x)
      ensures o == Origin(Pos(), m)
    {
      var same := Rivals(m, legal);
      if same == [] {
        return "";
      }
      assert Rival(Pos(), m, same[0]) by { assert same[0] in same; }
      o := TellApart(m, same);
      OriginOfRivals(Pos(), m, same);
    }

    /** The SAN text of a legal move without its check suffix. */
    method CoreText(m: Move, legal: seq<Move>) returns (s: string)
      requires Legal(Pos(), m)
      requires forall x: Move :: x in legal <==> Legal(Pos(), x)
      ensures s == Core(Pos(), m)
    {
      if m.castle {
        return if m.to > m.from then "O-O" else "O-O-O";
      }
      var capture := board[m.to].Man? || m.enPassant;
      var prefix := "";
      if board[m.from].kind != Pawn {
        var origin := OriginText(m, legal);
        prefix := [KindLetter(board[m.from].kind)] + origin;
      } else if capture {
        prefix := [FileChar(FileOf(m.from))];
      }
      s := prefix + (if capture then "x" else "") + Name(m.to);
      if m.promotion.Some? {
        s := s + ['=', KindLetter(m.promotion.value)];
      }
      assert s == Prefix(Pos(), m) + CaptureMark(Pos(), m) + Name(m.to) + PromotionMark(m);
    }

    /** `san`. */
    method PrintSan(m: Move) returns (r: Result<string>)
      requires Canonical()
      ensures r == San(Pos(), m)
    {
      var legal := LegalMoves();
      if legal.ValueError? || m !in legal.value {
        return ValueError;
      }
      assert Legal(Pos(), m);
      var core := CoreText(m, legal.value);
      var clone := Clone();
      if clone.ValueError? {
        return ValueError;
      }
      clone.value.ApplyMove(m);
      var suffix := clone.value.CheckMark(Pos(), m);
      return if suffix.Ok? then Ok(core + suffix.value) else ValueError;
    }

    /** '+' or '#' for the position after m, which `this` is. */
    method CheckMark(ghost before: P.Position, ghost m: Move) returns (r: Result<string>)
      requires P.Valid(before) && Legal(before, m) && Pos() == Apply(before, m)
      ensures r == Suffix(Pos())
    {
      var checked := InCheckOf(turn);
      if checked.ValueError? {
        return ValueError;
      }
      if checked == Ok(false) {
        return Ok("");
      }
      if TakesKing(before, m) {
        SanRoundTrip.KingGone(before, m);
      }
      Closure.LegalMoveKeepsRules(before, m);
      var replies := LegalMoves();
      if replies.ValueError? {
        return ValueError;
      }
      assert HasLegal(Pos()) <==> |replies.value| > 0 by {
        assert |replies.value| > 0 ==> replies.value[0] in replies.value;
      }
      return if |replies.value| == 0 then Ok("#") else Ok("+");
    }

    // ----- reading moves

    /** Comparing parsed squares and the promotion letter is comparing names. */
    static lemma NamesParsed(t: string, m: Move)
      requires IsCoordinate(t)
      ensures Squares.Parse(t[..2]).Ok? && Squares.Parse(t[2..4]).Ok?
      ensures Names(t, m) <==>
        && m.from == Squares.Parse(t[..2]).value && m.to == Squares.Parse(t[2..4]).value
        && PromotionNamed(t, m)
    {
      PrintedParsed(t[..2]);
      PrintedParsed(t[2..4]);
      if m.from != Squares.Parse(t[..2]).value {
        NameDiffers(m.from, Squares.Parse(t[..2]).value);
      }
      if m.to != Squares.Parse(t[2..4]).value {
        NameDiffers(m.to, Squares.Parse(t[2..4]).value);
      }
    }

    /** The coordinate branch of `parse_move`. */
    method ReadCoordinates(t: string) returns (r: Result<Move>)
      requires Canonical() && IsCoordinate(t)
      ensures r.Ok? ==> Fits(Pos()) && Legal(Pos(), r.value) && Names(t, r.value)
      ensures r.ValueError? && Fits(Pos()) ==> forall m: Move :: Legal(Pos(), m) ==> !Names(t, m)
    {
      hide P.Valid, Names, Apply, InCheck, PieceMove, PawnMove, Castling;
      NamesParsed(t, Move(0, 0, None, false, false));
      var from, to := Squares.Parse(t[..2]).value, Squares.Parse(t[2..4]).value;
      var legal := LegalMoves();
      if legal.ValueError? {
        return ValueError;
      }
      for i := 0 to |legal.value|
        invariant forall j :: 0 <= j < i ==> !Names(t, legal.value[j])
      {
        var m := legal.value[i];
        assert m in legal.value;
        NamesParsed(t, m);
        if m.from == from && m.to == to && PromotionNamed(t, m) {
          return Ok(m);
        }
      }
      return ValueError;
    }

    /** A legal move's printed SAN, normalised as `parse_move` compares it. */
    method BareSan(m: Move) returns (r: Result<string>)
      requires Canonical() && Legal(Pos(), m)
      ensures r.Ok? <==> San(Pos(), m).Ok?
      ensures r.Ok? ==> forall target :: HasCore(Pos(), m, target) <==> target == r.value
    {
      var printed := PrintSan(m);
      if printed.ValueError? {
        return ValueError;
      }
      SanRoundTrip.SuffixIsCheckMark(Apply(Pos(), m));
      SanRoundTrip.BareOfPrinted(Pos(), m, Suffix(Apply(Pos(), m)).value);
      return Ok(Bare(printed.value));
    }

    /** A legal move whose SAN core is this text. */
    static ghost predicate HasCore(p: P.Position, m: Move, target: string) {
      Legal(p, m) && Core(p, m) == target
    }

    /** The SAN branch of `parse_move`: those of the legal moves that are printed like the target. */
    method Matching(legal: seq<Move>, target: string) returns (r: Result<seq<Move>>)
      requires Canonical() && Distinct(legal)
      requires forall j :: 0 <= j < |legal| ==> Legal(Pos(), legal[j])
      ensures r.Ok? ==> Distinct(r.value) && forall j :: 0 <= j < |legal| ==> San(Pos(), legal[j]).Ok?
      ensures r.Ok? ==> forall j :: 0 <= j < |legal| ==> (legal[j] in r.value <==> HasCore(Pos(), legal[j], target))
      ensures r.Ok? ==> forall m: Move :: m in r.value ==> m in legal
      ensures r.ValueError? ==> exists j :: 0 <= j < |legal| && San(Pos(), legal[j]).ValueError?
    {
      ghost var p := Pos();
      hide San, HasCore, Legal, P.Valid;
      var out: seq<Move> := [];
      for i := 0 to |legal|
        invariant Distinct(out)
        invariant forall j :: 0 <= j < i ==> San(p, legal[j]).Ok?
        invariant forall j :: 0 <= j < i ==> (legal[j] in out <==> HasCore(p, legal[j], target))
        invariant forall m: Move :: m in out ==> m in legal[..i]
      {
        assert Legal(p, legal[i]);
        var bare := BareSan(legal[i]);
        if bare.ValueError? {
          return ValueError;
        }
        assert legal[..i + 1] == legal[..i] + [legal[i]];
        assert legal[i] !in legal[..i];
        if bare.value == target {
          out := out + [legal[i]];
        }
      }
      return Ok(out);
    }

    method Candidates(target: string) returns (r: Result<seq<Move>>)
      requires Canonical()
      ensures r.Ok? ==> AllPrintable(Pos()) && Distinct(r.value) && (r.value != [] ==> Fits(Pos()))
      ensures r.Ok? ==> forall m: Move :: m in r.value <==> HasCore(Pos(), m, target)
      ensures r.ValueError? ==> !Fits(Pos()) || !AllPrintable(Pos())
    {
      var legal := LegalMoves();
      if legal.ValueError? {
        return ValueError;
      }
      assert forall j :: 0 <= j < |legal.value| ==> legal.value[j] in legal.value;
      r := Matching(legal.value, target);
      if r.Ok? && r.value != [] {
        assert r.value[0] in r.value;
      }
    }

    /** Choosing the single candidate is what `parse_move` denotes; a second candidate cannot exist. */
    static lemma ParseByCandidates(p: P.Position, text: string, found: seq<Move>)
      requires !IsCoordinate(NormSan(text)) && AllPrintable(p) && Distinct(found) && (found != [] ==> Fits(p))
      requires forall m: Move :: m in found <==> HasCore(p, m, Bare(text))
      ensures |found| <= 1
      ensures ParseMove(p, text) == if |found| == 1 then Ok(found[0]) else ValueError
    {
      hide ParseMove;
      if |found| > 1 {
        assert found[0] in found && found[1] in found;
        CoreInjective(p, found[0], found[1]);
      } else if |found| == 1 {
        assert found[0] in found;
        SanRoundTrip.ReadsEverySpelling(p, found[0], text);
      } else {
        forall m | Legal(p, m)
          ensures Core(p, m) != Bare(text)
        {
          assert !HasCore(p, m, Bare(text));
        }
        SanRoundTrip.UnmatchedIsRefused(p, text);
      }
    }

    /** Finding the named move is what `parse_move` denotes for a coordinate text. */
    static lemma ParseByCoordinates(p: P.Position, text: string, r: Result<Move>)
      requires IsCoordinate(NormSan(text))
      requires r.Ok? ==> Fits(p) && Legal(p, r.value) && Names(NormSan(text), r.value)
      requires r.ValueError? && Fits(p) ==> forall m: Move :: Legal(p, m) ==> !Names(NormSan(text), m)
      ensures ParseMove(p, text) == r
    {
      if r.Ok? {
        forall x | Legal(p, x) && Names(NormSan(text), x)
          ensures x == r.value
        {
          SanRoundTrip.CoordinatesTell(p, NormSan(text), r.value, x);
        }
      }
    }

    /** `parse_move`. */
    method ReadMove(text: string) returns (r: Result<Move>)
      requires Canonical()
      ensures r == ParseMove(Pos(), text)
    {
      var t := NormSan(text);
      if IsCoordinate(t) {
        r := ReadCoordinates(t);
        ParseByCoordinates(Pos(), text, r);
        return;
      }
      var candidates := Candidates(Bare(text));
      if candidates.ValueError? {
        return ValueError;
      }
      ParseByCandidates(Pos(), text, candidates.value);
      if |candidates.value| == 1 {
        return Ok(candidates.value[0]);
      }
      return ValueError;
    }

    // ----- history

    /** `push`: refused without any change unless `san` succeeds. */
    method Push(m: Move) returns (r: Result<string>)
      requires Canonical()
      modifies this
      ensures r == San(old(Pos()), m)
      ensures State() == Timeline.Push(old(State()), m) && Canonical()
      ensures lastMove == if r.Ok? then Some(m) else old(lastMove)
    {
      var before := Fen();
      r := PrintSan(m);
      if r.Ok? {
        PrintableKeepsRules(Pos(), m);
        undoStack := undoStack + [Entry(before, r.value)];
        redoStack := [];
        ApplyMove(m);
      }
    }

    /** `push_null`. */
    method PushNull() returns (san: string)
      requires Canonical()
      modifies this
      ensures san == NULL_SAN && lastMove == None
      ensures State() == Timeline.PushNull(old(State())) && Canonical()
    {
      hide P.Valid, FenText;
      Closure.NullMoveKeepsRules(Pos());
      var before := Fen();
      undoStack := undoStack + [Entry(before, NULL_SAN)];
      redoStack := [];
      ep := None;
      halfmove := halfmove + 1;
      if turn.Black? {
        fullmove := fullmove + 1;
      }
      turn := turn.Other();
      lastMove := None;
      assert Pos() == ApplyNull(old(Pos()));
      hide ApplyNull;
      return NULL_SAN;
    }

    /** `push_text`. */
    method PushText(t: string) returns (r: Result<string>)
      requires Canonical()
      modifies this
      ensures State() == Timeline.PushText(old(State()), t) && Canonical()
      ensures r.Ok? <==> NormSan(t) == NULL_SAN
                         || (ParseMove(old(Pos()), t).Ok? && San(old(Pos()), ParseMove(old(Pos()), t).value).Ok?)
    {
      if NormSan(t) == NULL_SAN {
        var san := PushNull();
        return Ok(san);
      }
      var m := ReadMove(t);
      if m.ValueError? {
        return ValueError;
      }
      r := Push(m.value);
    }

    /** `undo`; Ok(None) when there is nothing to undo. */
    method Undo() returns (r: Result<Option<string>>)
      requires Canonical()
      modifies this
      ensures State() == Timeline.Undo(old(State())) && Canonical()
      ensures old(undoStack) == [] ==> r == Ok(None)
      ensures old(undoStack) != [] ==>
        var e := old(undoStack)[|old(undoStack)| - 1];
        r == if ParseFen(e.text).Ok? then Ok(Some(e.san)) else ValueError
    {
      if undoStack == [] {
        return Ok(None);
      }
      var current := Fen();
      var e := undoStack[|undoStack| - 1];
      undoStack := undoStack[..|undoStack| - 1];
      redoStack := redoStack + [Entry(current, e.san)];
      var ok := SetFen(e.text, false);
      return if ok then Ok(Some(e.san)) else ValueError;
    }

    /** `redo`. */
    method Redo() returns (r: Result<Option<string>>)
      requires Canonical()
      modifies this
      ensures State() == Timeline.Redo(old(State())) && Canonical()
      ensures old(redoStack) == [] ==> r == Ok(None)
      ensures old(redoStack) != [] ==>
        var e := old(redoStack)[|old(redoStack)| - 1];
        r == if ParseFen(e.text).Ok? then Ok(Some(e.san)) else ValueError
    {
      if redoStack == [] {
        return Ok(None);
      }
      var current := Fen();
      var e := redoStack[|redoStack| - 1];
      redoStack := redoStack[..|redoStack| - 1];
      undoStack := undoStack + [Entry(current, e.san)];
      var ok := SetFen(e.text, false);
      return if ok then Ok(Some(e.san)) else ValueError;
    }
  }
}