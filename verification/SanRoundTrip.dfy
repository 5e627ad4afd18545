/** Reading undoes printing: every legal move is recovered from its SAN, in every spelling, and from its coordinates. */
module SanRoundTrip {
  import opened Base
  import opened Text
  import opened Squares
  import opened Pieces
  import opened Position
  import opened Fen
  import opened Rules
  import opened Notation
  import opened Closure

  // ----- normalisation leaves printed SAN alone

  /** A character no step of `norm_san` changes or removes. */
  predicate Settled(c: char) {
    !IsSpace(c) && c != '0' && c != '\U{2013}' && c != '\U{2014}' && c != '!' && c != '?'
  }

  lemma {:induction false} RespellSettled(s: string)
    requires AllSettled(s)
    ensures Respell(s) == s
  {
    if s != [] {
      assert s[0] in s && Settled(s[0]);
      RespellSettled(s[1..]);
    }
  }

  lemma NormSettled(s: string)
    requires AllSettled(s)
    ensures NormSan(s) == s
  {
    RespellSettled(s);
    if s != [] {
      assert s[0] in s && s[|s| - 1] in s;
    }
  }

  ghost predicate AllSettled(s: string) {
    forall c :: c in s ==> Settled(c)
  }

  lemma SettledConcat(a: string, b: string)
    requires AllSettled(a) && AllSettled(b)
    ensures AllSettled(a + b)
  {
  }

  lemma NameSettled(q: Square)
    ensures AllSettled(Name(q))
  {
  }

  lemma PrefixSettled(p: Position, m: Move)
    requires p.board[m.from].Man?
    ensures AllSettled(Prefix(p, m))
  {
    NameSettled(m.from);
    assert AllSettled(Origin(p, m));
  }

  lemma MarksSettled(p: Position, m: Move)
    ensures AllSettled(CaptureMark(p, m)) && AllSettled(PromotionMark(m))
  {
  }

  lemma TailSettled(m: Move)
    ensures var tail := Name(m.to) + PromotionMark(m);
      AllSettled(tail) && tail != [] && tail[|tail| - 1] !in "+#"
  {
    NameSettled(m.to);
    SettledConcat(Name(m.to), PromotionMark(m));
  }

  lemma CoreSettled(p: Position, m: Move)
    requires Pseudo(p, p.turn, m)
    ensures AllSettled(Core(p, m))
    ensures Core(p, m) != [] && Core(p, m)[|Core(p, m)| - 1] !in "+#"
  {
    if !m.castle {
      PrefixSettled(p, m);
      MarksSettled(p, m);
      TailSettled(m);
      hide AllSettled, Prefix, CaptureMark, PromotionMark, Name, Pseudo;
      var head, tail := Prefix(p, m) + CaptureMark(p, m), Name(m.to) + PromotionMark(m);
      assert Core(p, m) == head + tail;
      SettledConcat(Prefix(p, m), CaptureMark(p, m));
      SettledConcat(head, tail);
    } else {
      hide Pseudo;
    }
  }

  predicate CheckMark(s: string) {
    s == "" || s == "+" || s == "#"
  }

  lemma TrimCheckMark(s: string, suffix: string)
    requires CheckMark(suffix) && s != [] && s[|s| - 1] !in "+#"
    ensures TrimRight(s + suffix, "+#") == s
  {
    assert TrimRight(s, "+#") == s;
    if suffix == "" {
      assert s + suffix == s;
    } else {
      assert (s + suffix)[..|s + suffix| - 1] == s;
    }
  }

  lemma BareOfPrinted(p: Position, m: Move, suffix: string)
    requires Pseudo(p, p.turn, m) && CheckMark(suffix)
    ensures NormSan(Core(p, m) + suffix) == Core(p, m) + suffix
    ensures Bare(Core(p, m) + suffix) == Core(p, m)
  {
    CoreSettled(p, m);
    assert AllSettled(suffix);
    SettledConcat(Core(p, m), suffix);
    NormSettled(Core(p, m) + suffix);
    TrimCheckMark(Core(p, m), suffix);
  }

  /** Printed SAN is never mistaken for coordinate text. */
  lemma PrintedNotCoordinate(p: Position, m: Move, suffix: string)
    requires Pseudo(p, p.turn, m) && CheckMark(suffix)
    ensures !IsCoordinate(Core(p, m) + suffix)
  {
    var t := Core(p, m) + suffix;
    if m.castle {
      assert t[0] == 'O';
    } else if p.board[m.from].kind != Pawn {
      assert Core(p, m)[0] == KindLetter(p.board[m.from].kind);
      assert t[0] == KindLetter(p.board[m.from].kind);
    } else if IsCapture(p, m) {
      assert t[1] == 'x';
    } else {
      assert t == Name(m.to) + PromotionMark(m) + suffix;
      assert |t| >= 3 ==> t[2] == '=' || t[2] == '+' || t[2] == '#';
    }
  }

  // ----- coordinate text

  lemma CoordinatesTell(p: Position, t: string, m: Move, x: Move)
    requires IsCoordinate(t) && Pseudo(p, p.turn, m) && Pseudo(p, p.turn, x)
    requires Names(t, m) && Names(t, x)
    ensures m == x
  {
    NameInjective(m.from, x.from);
    NameInjective(m.to, x.to);
    assert m.promotion == x.promotion;
    SameSquaresSameMove(p, m, x);
  }

  lemma SameSquaresSameMove(p: Position, m: Move, x: Move)
    requires Pseudo(p, p.turn, m) && Pseudo(p, p.turn, x)
    requires m.from == x.from && m.to == x.to && m.promotion == x.promotion
    ensures m == x
  {
    if p.board[m.from].kind == King {
      if Castling(p, p.turn, m) {
        CastlingShape(p, p.turn, m);
      }
      if Castling(p, p.turn, x) {
        CastlingShape(p, p.turn, x);
      }
    }
  }

  function CoordinateText(m: Move): string {
    Name(m.from) + Name(m.to) + (if m.promotion.Some? then [KindLetter(m.promotion.value)] else "")
  }

  lemma CoordinateTextNames(m: Move)
    ensures AllSettled(CoordinateText(m))
    ensures IsCoordinate(CoordinateText(m)) && Names(CoordinateText(m), m)
  {
    NameSettled(m.from);
    NameSettled(m.to);
    var t := CoordinateText(m);
    assert t[..2] == Name(m.from) && t[2..4] == Name(m.to);
  }

  /** A legal move is recovered from its coordinates, whatever its SAN. */
  lemma CoordinateRoundTrip(p: Position, m: Move)
    requires Fits(p) && Legal(p, m)
    ensures ParseMove(p, CoordinateText(m)) == Ok(m)
  {
    var t := CoordinateText(m);
    CoordinateTextNames(m);
    NormSettled(t);
    forall x | Legal(p, x) && Names(t, x)
      ensures x == m
    {
      CoordinatesTell(p, t, m, x);
    }
  }

  // ----- SAN text

  /** The ambiguity error of `parse_move` is unreachable: a matching legal move is the only one. */
  lemma MatchIsUnique(p: Position, m: Move)
    requires Legal(p, m)
    ensures OnlyMatch(p, Core(p, m), m)
  {
    forall x | Legal(p, x) && Core(p, x) == Core(p, m)
      ensures x == m
    {
      CoreInjective(p, m, x);
    }
  }

  /** Any text that normalises to the core of a legal move is read as that move. */
  lemma ReadsEverySpelling(p: Position, m: Move, text: string)
    requires Fits(p) && AllPrintable(p) && Legal(p, m)
    requires !IsCoordinate(NormSan(text)) && Bare(text) == Core(p, m)
    ensures ParseMove(p, text) == Ok(m)
  {
    MatchIsUnique(p, m);
  }

  /** Text that matches no legal move is refused. */
  lemma UnmatchedIsRefused(p: Position, text: string)
    requires !IsCoordinate(NormSan(text))
    requires forall m :: Legal(p, m) ==> Core(p, m) != Bare(text)
    ensures ParseMove(p, text).ValueError?
  {
    forall m
      ensures !OnlyMatch(p, Bare(text), m)
    {
    }
  }

  /** And nothing else is read as it. */
  lemma ReadsOnlyItsOwn(p: Position, m: Move, text: string)
    requires ParseMove(p, text) == Ok(m)
    ensures Legal(p, m)
    ensures if IsCoordinate(NormSan(text)) then Names(NormSan(text), m) else Bare(text) == Core(p, m)
  {
  }

  lemma SuffixIsCheckMark(q: Position)
    requires Suffix(q).Ok?
    ensures CheckMark(Suffix(q).value)
  {
  }

  /** `parse_move(san(m)) == m`. */
  lemma SanRoundTrip(p: Position, m: Move)
    requires AllPrintable(p) && San(p, m).Ok?
    ensures ParseMove(p, San(p, m).value) == Ok(m)
  {
    var suffix := Suffix(Apply(p, m)).value;
    SuffixIsCheckMark(Apply(p, m));
    BareOfPrinted(p, m, suffix);
    PrintedNotCoordinate(p, m, suffix);
    ReadsEverySpelling(p, m, Core(p, m) + suffix);
  }

  /** The round trip covers every legal move exactly when `san` fails on none of them. */
  lemma SanRoundTripExactly(p: Position)
    requires Fits(p)
    ensures (forall m :: Legal(p, m) ==> San(p, m).Ok? && ParseMove(p, San(p, m).value) == Ok(m)) <==> AllPrintable(p)
  {
    if AllPrintable(p) {
      forall m | Legal(p, m)
        ensures San(p, m).Ok? && ParseMove(p, San(p, m).value) == Ok(m)
      {
        SanRoundTrip(p, m);
      }
    }
  }

  // ----- when `san` fails

  /** `san` fails on a legal move exactly when it takes the king, or gives check in a position
      whose replies cannot be listed because its FEN text is over the limit. */
  lemma SanFailsExactly(p: Position, m: Move)
    requires Valid(p) && Fits(p) && Legal(p, m)
    ensures San(p, m).ValueError? <==>
      var q := Apply(p, m);
      TakesKing(p, m) || (InCheck(q.board, q.turn) && !Fits(q) && HasPseudo(q))
  {
    KingGoneExactly(p, m);
  }

  lemma KingGoneExactly(p: Position, m: Move)
    requires EnPassantHolds(p) && OneKing(p.board, p.turn.Other()) && Pseudo(p, p.turn, m)
    ensures Appliable(p.board, m)
    ensures KingSquare(ApplyBoard(p.board, m), p.turn.Other()).None? <==> TakesKing(p, m)
  {
    if TakesKing(p, m) {
      KingGone(p, m);
    } else {
      OtherKingAfter(p, m);
      var k: Square :| ApplyBoard(p.board, m)[k] == Man(p.turn.Other(), King);
      OnlyKing(ApplyBoard(p.board, m), p.turn.Other(), k);
    }
  }

  lemma KingGone(p: Position, m: Move)
    requires EnPassantHolds(p) && OneKing(p.board, p.turn.Other())
    requires Pseudo(p, p.turn, m) && TakesKing(p, m)
    ensures Appliable(p.board, m) && KingSquare(ApplyBoard(p.board, m), p.turn.Other()).None?
  {
    TakenKingIsEnemy(p, m);
    PseudoAppliable(p, m);
    forall s: Square
      ensures ApplyBoard(p.board, m)[s] != Man(p.turn.Other(), King)
    {
      KingGoneCell(p, m, s);
    }
  }

  lemma KingGoneCell(p: Position, m: Move, s: Square)
    requires EnPassantHolds(p) && OneKing(p.board, p.turn.Other())
    requires Pseudo(p, p.turn, m) && p.board[m.to] == Man(p.turn.Other(), King)
    ensures Appliable(p.board, m) && ApplyBoard(p.board, m)[s] != Man(p.turn.Other(), King)
  {
    AppliedCell(p, m, s);
    OnlyKing(p.board, p.turn.Other(), m.to);
    if p.board[s] == Man(p.turn.Other(), King) {
      OnlyKing(p.board, p.turn.Other(), s);
    }
  }

  /** Counters with a few thousand digits leave room for any board. */
  predicate Roomy(p: Position) {
    |Decimal(p.halfmove)| + |Decimal(p.fullmove)| <= 4000
  }

  lemma {:induction false} RankTextShort(row: seq<Cell>, run: nat)
    requires run + |row| <= 8
    ensures |RankText(row, run)| <= |row| + (if run > 0 then 1 else 0)
  {
    if row != [] {
      RankTextShort(row[1..], if row[0] == Empty then run + 1 else 0);
    }
  }

  lemma {:induction false} JoinShort(ts: seq<string>, n: nat)
    requires ts != [] && forall i :: 0 <= i < |ts| ==> |ts[i]| <= n
    ensures |JoinWith(ts, '/')| <= |ts| * (n + 1)
  {
    if |ts| > 1 {
      JoinShort(ts[1..], n);
    }
  }

  lemma {:induction false} DistinctFewer(s: string, pool: set<char>)
    requires Distinct(s) && forall c :: c in s ==> c in pool
    ensures |s| <= |pool|
  {
    if s != [] {
      forall c | c in s[1..]
        ensures c in pool - {s[0]}
      {
        assert c in s;
      }
      assert s[0] in s;
      DistinctFewer(s[1..], pool - {s[0]});
    }
  }

  lemma RightsShort(s: string)
    requires RightsText(s)
    ensures |s| <= 4
  {
    DistinctFewer(s, {'K', 'Q', 'k', 'q'});
  }

  lemma RoomyFits(p: Position)
    requires Valid(p) && |Decimal(p.halfmove)| + |Decimal(p.fullmove)| <= 4002
    ensures Fits(p)
  {
    hide Decimal, RankText;
    forall i | 0 <= i < 8
      ensures |RankTexts(p.board)[i]| <= 8
    {
      RankTextShort(RankOfBoard(p.board, 7 - i), 0);
    }
    JoinShort(RankTexts(p.board), 8);
    RightsShort(p.castling);
    SpacedLength(Fields(p));
  }

  lemma SafeMovePrints(p: Position, m: Move)
    requires Valid(p) && Safe(p) && Roomy(p) && Legal(p, m)
    ensures Fits(p) && San(p, m).Ok?
  {
    SafeMoveKeepsRules(p, m);
    DecimalGrows(p.halfmove);
    DecimalGrows(p.fullmove);
    RoomyFits(p);
    RoomyFits(Apply(p, m));
    SanFailsExactly(p, m);
  }

  /** In a valid position whose opponent is not in check, every legal move prints and reads back. */
  lemma SafePositionsRoundTrip(p: Position, m: Move)
    requires Valid(p) && Safe(p) && Roomy(p) && Legal(p, m)
    ensures San(p, m).Ok? && ParseMove(p, San(p, m).value) == Ok(m)
  {
    forall x | Legal(p, x)
      ensures San(p, x).Ok?
    {
      SafeMovePrints(p, x);
    }
    SanRoundTrip(p, m);
  }
}
