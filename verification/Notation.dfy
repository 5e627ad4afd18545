/** Standard algebraic notation: what `san` prints, how `parse_move` reads, and that reading undoes printing. */
module Notation {
  import opened Base
  import opened Text
  import opened Squares
  import opened Pieces
  import opened Position
  import opened Fen
  import opened Rules
  import Closure

  // ----- printing

  predicate IsCapture(p: Position, m: Move) {
    p.board[m.to].Man? || m.enPassant
  }

  /** Another legal move of the same kind of man to the same square. */
  predicate Rival(p: Position, m: Move, x: Move)
    requires p.board[m.from].Man?
  {
    Legal(p, x) && x != m && p.board[x.from].kind == p.board[m.from].kind && x.to == m.to
  }

  /** The shortest of file, rank, square that tells this man from its rivals (section 8.2.3.4 of the PGN standard). */
  ghost function Origin(p: Position, m: Move): string
    requires p.board[m.from].Man?
  {
    if forall x :: !Rival(p, m, x) then ""
    else if forall x :: Rival(p, m, x) ==> FileOf(x.from) != FileOf(m.from) then [FileChar(FileOf(m.from))]
    else if forall x :: Rival(p, m, x) ==> RankOf(x.from) != RankOf(m.from) then [RankChar(RankOf(m.from))]
    else Name(m.from)
  }

  ghost function Prefix(p: Position, m: Move): string
    requires p.board[m.from].Man?
  {
    if p.board[m.from].kind != Pawn then [KindLetter(p.board[m.from].kind)] + Origin(p, m)
    else if IsCapture(p, m) then [FileChar(FileOf(m.from))]
    else ""
  }

  function CaptureMark(p: Position, m: Move): string {
    if IsCapture(p, m) then "x" else ""
  }

  function PromotionMark(m: Move): string {
    if m.promotion.Some? then ['=', KindLetter(m.promotion.value)] else ""
  }

  /** SAN without its check suffix. */
  ghost function Core(p: Position, m: Move): string
    requires p.board[m.from].Man?
  {
    if m.castle then (if m.to > m.from then "O-O" else "O-O-O")
    else Prefix(p, m) + CaptureMark(p, m) + Name(m.to) + PromotionMark(m)
  }

  ghost predicate HasPseudo(p: Position) {
    exists m: Move :: Pseudo(p, p.turn, m)
  }

  ghost predicate HasLegal(p: Position) {
    exists m: Move :: Legal(p, m)
  }

  /** '+' or '#' when the side to move in q is in check; finding mate asks for q's legal moves. */
  ghost function Suffix(q: Position): Result<string> {
    if KingSquare(q.board, q.turn).None? then ValueError
    else if !InCheck(q.board, q.turn) then Ok("")
    else if !Fits(q) && HasPseudo(q) then ValueError
    else if HasLegal(q) then Ok("+")
    else Ok("#")
  }

  /** `san(m)`. */
  ghost function San(p: Position, m: Move): Result<string> {
    if !Fits(p) || !Legal(p, m) then ValueError else
    var suffix :- Suffix(Apply(p, m));
    Ok(Core(p, m) + suffix)
  }

  // ----- reading

  /** The spelling repairs of `norm_san` between its two strips. */
  function Respell(s: string): string {
    if s == [] then []
    else
      var c := if s[0] == '0' then 'O' else if s[0] == '\U{2013}' || s[0] == '\U{2014}' then '-' else s[0];
      (if c == ' ' then [] else [c]) + Respell(s[1..])
  }

  /** `s.rstrip(chars)`. */
  function TrimRight(s: string, chars: string): string {
    if s != [] && s[|s| - 1] in chars then TrimRight(s[..|s| - 1], chars) else s
  }

  /** `norm_san`. */
  function NormSan(s: string): string {
    TrimRight(Respell(Strip(s)), "!?")
  }

  /** What `parse_move` compares: the normalised text without check marks. */
  function Bare(s: string): string {
    TrimRight(NormSan(s), "+#")
  }

  predicate IsCoordinate(t: string) {
    && 4 <= |t| <= 5
    && IsFile(t[0]) && IsRank(t[1]) && IsFile(t[2]) && IsRank(t[3])
    && (|t| == 5 ==> t[4] in "qrbnQRBN")
  }

  /** The move a coordinate text such as e7e8q names. */
  predicate Names(t: string, m: Move)
    requires IsCoordinate(t)
  {
    && Name(m.from) == t[..2] && Name(m.to) == t[2..4]
    && PromotionNamed(t, m)
  }

  predicate PromotionNamed(t: string, m: Move)
    requires IsCoordinate(t)
  {
    if |t| == 4 then m.promotion.None? else m.promotion.Some? && KindLetter(m.promotion.value) == Upper(t[4])
  }

  function Upper(c: char): char {
    if 'a' <= c <= 'z' then (c as int - 32) as char else c
  }

  /** m is the one legal move whose SAN core is t. */
  ghost predicate OnlyMatch(p: Position, t: string, m: Move) {
    && Legal(p, m) && Core(p, m) == t
    && forall x :: Legal(p, x) && Core(p, x) == t ==> x == m
  }

  /** `san` succeeds on every legal move. */
  ghost predicate AllPrintable(p: Position) {
    forall m :: Legal(p, m) ==> San(p, m).Ok?
  }

  /** `parse_move`. */
  ghost function ParseMove(p: Position, text: string): Result<Move> {
    var t := NormSan(text);
    if IsCoordinate(t) then
      if Fits(p) && exists m :: Legal(p, m) && Names(t, m)
      then var m :| Legal(p, m) && Names(t, m); Ok(m)
      else ValueError
    else
      if Fits(p) && AllPrintable(p) && exists m :: OnlyMatch(p, Bare(text), m)
      then var m :| OnlyMatch(p, Bare(text), m); Ok(m)
      else ValueError
  }

  // ----- SAN cores tell legal moves apart

  /** From the pieces of the notation: equal texts have equal marks and equal destinations. */
  lemma SameMarks(p: Position, m: Move, x: Move)
    requires p.board[m.from].Man? && p.board[x.from].Man? && !m.castle && !x.castle
    requires Core(p, m) == Core(p, x)
    ensures m.promotion == x.promotion && m.to == x.to
    ensures Prefix(p, m) + CaptureMark(p, m) == Prefix(p, x) + CaptureMark(p, x)
  {
    var a, b := Prefix(p, m) + CaptureMark(p, m), Prefix(p, x) + CaptureMark(p, x);
    var s, t := Core(p, m), Core(p, x);
    assert s == a + Name(m.to) + PromotionMark(m) && t == b + Name(x.to) + PromotionMark(x);
    assert m.promotion.Some? <==> !IsRank(s[|s| - 1]);
    assert x.promotion.Some? <==> !IsRank(t[|t| - 1]);
    assert m.promotion.Some? ==> s[|s| - 1] == KindLetter(m.promotion.value);
    assert x.promotion.Some? ==> t[|t| - 1] == KindLetter(x.promotion.value);
    assert m.promotion == x.promotion;
    var n := |PromotionMark(m)|;
    assert s[..|s| - n] == a + Name(m.to) && t[..|t| - n] == b + Name(x.to);
    assert (a + Name(m.to))[|a|..] == Name(m.to) && (b + Name(x.to))[|b|..] == Name(x.to);
    assert (a + Name(m.to))[..|a|] == a && (b + Name(x.to))[..|b|] == b;
    NameInjective(m.to, x.to);
  }

  lemma PrefixShape(p: Position, m: Move)
    requires p.board[m.from].Man?
    ensures var s := Prefix(p, m); s != [] ==> s[|s| - 1] != 'x'
    ensures var s := Prefix(p, m);
      if p.board[m.from].kind == Pawn
      then s == [] || IsFile(s[0])
      else s != [] && s[0] == KindLetter(p.board[m.from].kind) && s[1..] == Origin(p, m)
  {
  }

  lemma SamePrefix(p: Position, m: Move, x: Move)
    requires p.board[m.from].Man? && p.board[x.from].Man?
    requires Prefix(p, m) + CaptureMark(p, m) == Prefix(p, x) + CaptureMark(p, x)
    ensures IsCapture(p, m) == IsCapture(p, x) && Prefix(p, m) == Prefix(p, x)
    ensures p.board[m.from].kind == p.board[x.from].kind
  {
    PrefixShape(p, m);
    PrefixShape(p, x);
    var a, b := Prefix(p, m) + CaptureMark(p, m), Prefix(p, x) + CaptureMark(p, x);
    assert IsCapture(p, m) <==> a != [] && a[|a| - 1] == 'x';
    assert IsCapture(p, x) <==> b != [] && b[|b| - 1] == 'x';
    var n := |CaptureMark(p, m)|;
    assert a[..|a| - n] == Prefix(p, m) && b[..|b| - n] == Prefix(p, x);
  }

  lemma PawnsTold(p: Position, m: Move, x: Move)
    requires Pseudo(p, p.turn, m) && Pseudo(p, p.turn, x)
    requires p.board[m.from].kind == Pawn && p.board[x.from].kind == Pawn
    requires m.to == x.to && m.promotion == x.promotion && IsCapture(p, m) == IsCapture(p, x)
    requires Prefix(p, m) == Prefix(p, x)
    ensures m == x
  {
  }

  /** Against any rival the origin of m is m's own file, rank or square, and the rival does not share it. */
  lemma OriginTells(p: Position, m: Move, x: Move)
    requires p.board[m.from].Man? && Rival(p, m, x)
    ensures var o := Origin(p, m);
      || (o == [FileChar(FileOf(m.from))] && FileOf(x.from) != FileOf(m.from))
      || (o == [RankChar(RankOf(m.from))] && RankOf(x.from) != RankOf(m.from))
      || o == Name(m.from)
  {
  }

  lemma PieceMovesEqual(p: Position, m: Move, x: Move)
    requires Pseudo(p, p.turn, m) && Pseudo(p, p.turn, x) && !m.castle && !x.castle
    requires p.board[m.from].kind != Pawn
    requires m.from == x.from && m.to == x.to
    ensures m == x
  {
  }

  /** Two different moves of one kind of man to one square are rivals, so their origins differ. */
  lemma PiecesTold(p: Position, m: Move, x: Move)
    requires Legal(p, m) && Legal(p, x) && !m.castle && !x.castle
    requires p.board[m.from].kind == p.board[x.from].kind != Pawn
    requires m.to == x.to && Origin(p, m) == Origin(p, x)
    ensures m == x
  {
    if m != x {
      OriginTells(p, m, x);
      OriginTells(p, x, m);
      if Origin(p, m) == Name(m.from) {
        NameInjective(m.from, x.from);
        PieceMovesEqual(p, m, x);
      }
    }
  }

  lemma CoreStart(p: Position, x: Move)
    requires Pseudo(p, p.turn, x)
    ensures Core(p, x) != [] && (Core(p, x)[0] == 'O' <==> x.castle)
  {
    if !x.castle {
      PrefixShape(p, x);
    }
  }

  lemma CastlingTold(p: Position, m: Move, x: Move)
    requires Pseudo(p, p.turn, m) && Pseudo(p, p.turn, x)
    requires m.castle && Core(p, m) == Core(p, x)
    ensures m == x
  {
    CoreStart(p, m);
    CoreStart(p, x);
    CastlingShape(p, p.turn, m);
    CastlingShape(p, p.turn, x);
    assert |Core(p, m)| == 3 <==> m.to > m.from;
    assert |Core(p, x)| == 3 <==> x.to > x.from;
  }

  /** No two legal moves share a SAN core, in any position whatever. */
  lemma CoreInjective(p: Position, m: Move, x: Move)
    requires Legal(p, m) && Legal(p, x)
    requires Core(p, m) == Core(p, x)
    ensures m == x
  {
    if m.castle {
      CastlingTold(p, m, x);
    } else if x.castle {
      CastlingTold(p, x, m);
    } else {
      SameMarks(p, m, x);
      SamePrefix(p, m, x);
      if p.board[m.from].kind == Pawn {
        PawnsTold(p, m, x);
      } else {
        PrefixShape(p, m);
        PrefixShape(p, x);
        PiecesTold(p, m, x);
      }
    }
  }
}
