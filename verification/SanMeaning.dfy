/** What printed SAN says about the two boards: who moved, where it stands, whether a man fell, and what became of the
    king. */
module SanMeaning {
  import opened Base
  import opened Text
  import opened Squares
  import opened Pieces
  import opened Position
  import opened Fen
  import opened Rules
  import opened Notation
  import opened Closure
  import opened SanRoundTrip
  import opened Course
  import Timeline

  /** The king of the side to move is attacked. */
  predicate Struck(q: Position) {
    exists k: Square :: q.board[k] == Man(q.turn, King) && AttackedBy(q.board, k, q.turn.Other())
  }

  /** The mark a text ends in tells check and mate. */
  ghost predicate MarkTells(q: Position, mark: string) {
    && (mark == "#" <==> Struck(q) && !HasLegal(q))
    && (mark == "+" <==> Struck(q) && HasLegal(q))
    && (mark == "" <==> !Struck(q))
  }

  lemma StruckIsCheck(q: Position)
    requires OneKing(q.board, q.turn)
    ensures Struck(q) <==> InCheck(q.board, q.turn)
  {
    var k: Square :| q.board[k] == Man(q.turn, King);
    OnlyKing(q.board, q.turn, k);
    hide AttackedBy;
    if Struck(q) {
      var j: Square :| q.board[j] == Man(q.turn, King) && AttackedBy(q.board, j, q.turn.Other());
      OnlyKing(q.board, q.turn, j);
    }
  }

  lemma MarkMeans(p: Position, m: Move)
    requires Valid(p) && San(p, m).Ok?
    ensures Suffix(Apply(p, m)).Ok? && MarkTells(Apply(p, m), Suffix(Apply(p, m)).value)
    ensures San(p, m).value == Core(p, m) + Suffix(Apply(p, m)).value
  {
    Timeline.PrintableKeepsRules(p, m);
    var q := Apply(p, m);
    assert OneKing(q.board, q.turn) by {
      assert q.turn.White? || q.turn.Black?;
    }
    StruckIsCheck(q);
    hide Valid, Legal, Struck, InCheck, HasLegal, HasPseudo, Fits, KingSquare;
  }

  // ----- castling

  lemma CastlingFile(p: Position, m: Move)
    requires Pseudo(p, p.turn, m) && m.castle
    ensures FileOf(m.to) == if m.to > m.from then 6 else 2
  {
    CastlingShape(p, p.turn, m);
    var w := WingOf(m.to).value;
    assert w == WINGS[0] || w == WINGS[1] || w == WINGS[2] || w == WINGS[3];
  }

  lemma CastlingCore(p: Position, m: Move)
    requires Pseudo(p, p.turn, m)
    ensures Core(p, m) == "O-O" <==> m.castle && FileOf(m.to) == 6
    ensures Core(p, m) == "O-O-O" <==> m.castle && FileOf(m.to) == 2
  {
    CoreStart(p, m);
    if m.castle {
      CastlingFile(p, m);
    }
    hide Pseudo, Prefix, CaptureMark;
  }

  /** A castling move prints as O-O towards the g-file and as O-O-O towards the c-file. */
  lemma CastlingPrints(p: Position, m: Move) returns (mark: string)
    requires Valid(p) && San(p, m).Ok? && m.castle
    ensures MarkTells(Apply(p, m), mark)
    ensures FileOf(m.to) == 6 || FileOf(m.to) == 2
    ensures San(p, m).value == (if FileOf(m.to) == 6 then "O-O" else "O-O-O") + mark
  {
    MarkMeans(p, m);
    CastlingFile(p, m);
    CastlingCore(p, m);
    mark := Suffix(Apply(p, m)).value;
  }

  lemma ZeroesAndDashes(t: string)
    requires t == "O-O" || t == "O-O-O"
    ensures NormSan(t) == t && Bare(t) == t && !IsCoordinate(t)
  {
    assert AllSettled(t);
    NormSettled(t);
    assert t[|t| - 1] == 'O';
  }

  /** O-O is read as the legal castling move to the g-file and as nothing else, O-O-O as that to the c-file. */
  lemma CastlingReads(p: Position, m: Move)
    ensures ParseMove(p, "O-O") == Ok(m) <==>
      Fits(p) && AllPrintable(p) && Legal(p, m) && m.castle && FileOf(m.to) == 6
    ensures ParseMove(p, "O-O-O") == Ok(m) <==>
      Fits(p) && AllPrintable(p) && Legal(p, m) && m.castle && FileOf(m.to) == 2
  {
    CastlingTextReads(p, m, "O-O");
    CastlingTextReads(p, m, "O-O-O");
    if Legal(p, m) {
      CastlingCore(p, m);
    }
  }

  lemma CastlingTextReads(p: Position, m: Move, t: string)
    requires t == "O-O" || t == "O-O-O"
    ensures ParseMove(p, t) == Ok(m) <==> Fits(p) && AllPrintable(p) && Legal(p, m) && Core(p, m) == t
  {
    ZeroesAndDashes(t);
    if ParseMove(p, t) == Ok(m) {
      ReadsOnlyItsOwn(p, m, t);
    }
    if Fits(p) && AllPrintable(p) && Legal(p, m) && Core(p, m) == t {
      ReadsEverySpelling(p, m, t);
    }
  }

  // ----- every other move

  /** The one square where the mover has a man after the move and had none before. */
  predicate Lands(p: Position, q: Position, t: Square) {
    forall s: Square :: Held(q.board, s, p.turn) && !Held(p.board, s, p.turn) <==> s == t
  }

  lemma MoverLands(p: Position, m: Move)
    requires EnPassantHolds(p) && Pseudo(p, p.turn, m) && !m.castle
    ensures Appliable(p.board, m) && Lands(p, Apply(p, m), m.to)
    ensures Apply(p, m).board[m.to] == Placed(p.board, m) && p.board[m.from].color == p.turn
  {
    AppliedCell(p, m, m.to);
    forall s: Square
      ensures Held(ApplyBoard(p.board, m), s, p.turn) && !Held(p.board, s, p.turn) <==> s == m.to
    {
      AppliedCell(p, m, s);
    }
  }

  lemma FallsExactly(p: Position, m: Move)
    requires EnPassantHolds(p) && Pseudo(p, p.turn, m)
    ensures Appliable(p.board, m)
    ensures IsCapture(p, m) <==> |Men(ApplyBoard(p.board, m))| < |Men(p.board)|
  {
    MenAfter(p, m);
    if m.enPassant {
      EnPassantBoard(p, m);
    }
  }

  /** How the man is told from its rivals: not at all if there are none, else by as little as is enough. */
  ghost predicate TellsApart(p: Position, m: Move, origin: string)
    requires p.board[m.from].Man?
  {
    var onFile := exists x :: Rival(p, m, x) && FileOf(x.from) == FileOf(m.from);
    var onRank := exists x :: Rival(p, m, x) && RankOf(x.from) == RankOf(m.from);
    && (origin == "" <==> !exists x :: Rival(p, m, x))
    && (origin == [Name(m.from)[0]] <==> (exists x :: Rival(p, m, x)) && !onFile)
    && (origin == [Name(m.from)[1]] <==> onFile && !onRank)
    && (origin == Name(m.from) <==> onFile && onRank)
  }

  lemma OriginTellsApart(p: Position, m: Move)
    requires p.board[m.from].Man?
    ensures TellsApart(p, m, Origin(p, m))
  {
    hide Legal;
    var name := Name(m.from);
    assert name[0] != name[1];
  }

  /** The text before the square: the man's letter and what tells it apart, or the pawn's file when it takes. */
  ghost predicate HeadTells(p: Position, m: Move, head: string, takes: bool)
    requires p.board[m.from].Man?
  {
    var mark := if takes then "x" else "";
    if p.board[m.from].kind == Pawn then head == (if takes then [Name(m.from)[0]] else "") + mark
    else exists origin ::
      TellsApart(p, m, origin) && head == [KindLetter(p.board[m.from].kind)] + origin + mark
  }

  lemma HeadMeans(p: Position, m: Move)
    requires p.board[m.from].Man?
    ensures HeadTells(p, m, Prefix(p, m) + CaptureMark(p, m), IsCapture(p, m))
  {
    OriginTellsApart(p, m);
    hide TellsApart, Origin;
    if p.board[m.from].kind != Pawn {
      assert TellsApart(p, m, Origin(p, m));
    }
  }

  lemma CrossInHead(p: Position, m: Move, mark: string)
    requires p.board[m.from].Man? && CheckMark(mark)
    ensures 'x' in Prefix(p, m) + CaptureMark(p, m) + Name(m.to) + PromotionMark(m) + mark <==> IsCapture(p, m)
  {
    NoCrossInPrefix(p, m);
    assert 'x' !in Name(m.to) && 'x' !in PromotionMark(m) && 'x' !in mark;
    hide Prefix, Name, PromotionMark;
  }

  lemma NoCrossInPrefix(p: Position, m: Move)
    requires p.board[m.from].Man?
    ensures 'x' !in Prefix(p, m)
  {
    assert 'x' !in Name(m.from);
    assert 'x' !in Origin(p, m);
  }

  /** The promotion a text shows is what the man became. */
  predicate PromotionTells(before: Cell, after: Cell, promotion: string) {
    && after.Man? && before.Man? && after.color == before.color
    && promotion == (if after.kind == before.kind then "" else ['=', KindLetter(after.kind)])
  }

  /** What the text of a move other than castling says. It holds 'x' exactly when there are fewer men afterwards; its
      last square is the one where the mover's man newly stands; '=' is followed by the letter of the man found there;
      its mark tells check and mate; and before the square stand the letter of the man that moves and what tells it
      apart. */
  lemma PrintedMeans(p: Position, m: Move) returns (head: string, t: Square, promotion: string, mark: string)
    requires Valid(p) && San(p, m).Ok? && !m.castle
    ensures p.board[m.from].Man? && Appliable(p.board, m)
    ensures San(p, m).value == head + Name(t) + promotion + mark
    ensures 'x' in San(p, m).value <==> |Men(Apply(p, m).board)| < |Men(p.board)|
    ensures HeadTells(p, m, head, |Men(Apply(p, m).board)| < |Men(p.board)|)
    ensures Lands(p, Apply(p, m), t)
    ensures PromotionTells(p.board[m.from], Apply(p, m).board[t], promotion)
    ensures MarkTells(Apply(p, m), mark)
  {
    MarkMeans(p, m);
    MoverLands(p, m);
    FallsExactly(p, m);
    HeadMeans(p, m);
    SuffixIsCheckMark(Apply(p, m));
    PromotionMeans(p, m);
    head, t, promotion, mark := Prefix(p, m) + CaptureMark(p, m), m.to, PromotionMark(m), Suffix(Apply(p, m)).value;
    CrossInHead(p, m, mark);
    hide *;
    SameBoard(p, m);
    CorePieces(p, m);
  }

  lemma SameBoard(p: Position, m: Move)
    requires Appliable(p.board, m)
    ensures Apply(p, m).board == ApplyBoard(p.board, m)
  {
  }

  lemma CorePieces(p: Position, m: Move)
    requires p.board[m.from].Man? && !m.castle
    ensures Core(p, m) == Prefix(p, m) + CaptureMark(p, m) + Name(m.to) + PromotionMark(m)
  {
  }

  lemma PromotionMeans(p: Position, m: Move)
    requires EnPassantHolds(p) && Pseudo(p, p.turn, m) && !m.castle
    ensures Appliable(p.board, m) && PromotionTells(p.board[m.from], Apply(p, m).board[m.to], PromotionMark(m))
  {
    MoverLands(p, m);
    if m.promotion.Some? {
      PawnsPromote(p, m);
    }
    hide Pseudo, ApplyBoard, RightsAfter, EnPassantHolds;
  }

  lemma PawnsPromote(p: Position, m: Move)
    requires Pseudo(p, p.turn, m) && m.promotion.Some?
    ensures p.board[m.from].kind == Pawn
  {
    if Castling(p, p.turn, m) {
      CastlingShape(p, p.turn, m);
    }
  }

  // ----- spellings

  /** t spells s with zeros for O, long dashes for hyphens, and blanks anywhere. */
  predicate Variant(t: string, s: string) {
    if t == "" then s == ""
    else if t[0] == ' ' then Variant(t[1..], s)
    else
      && s != ""
      && (t[0] == s[0] || (s[0] == 'O' && t[0] == '0') || (s[0] == '-' && (t[0] == '\U{2013}' || t[0] == '\U{2014}')))
      && Variant(t[1..], s[1..])
  }

  lemma {:induction false} VariantRespells(t: string, s: string)
    requires AllSettled(s) && Variant(t, s)
    ensures Respell(t) == s
  {
    if t != "" {
      if t[0] == ' ' {
        VariantRespells(t[1..], s);
      } else {
        assert s[0] in s && Settled(s[0]);
        assert forall c :: c in s[1..] ==> c in s;
        VariantRespells(t[1..], s[1..]);
      }
    }
  }

  predicate Blanks(x: string) {
    forall c :: c in x ==> IsSpace(c)
  }

  predicate Annotation(x: string) {
    forall c :: c in x ==> c in "!?"
  }

  lemma {:induction false} RespellConcat(a: string, b: string)
    ensures Respell(a + b) == Respell(a) + Respell(b)
  {
    if a == "" {
      assert a + b == b;
    } else {
      assert (a + b)[1..] == a[1..] + b;
      RespellConcat(a[1..], b);
    }
  }

  lemma {:induction false} AnnotationSame(x: string)
    requires Annotation(x)
    ensures Respell(x) == x
  {
    if x != "" {
      assert x[0] in x && forall c :: c in x[1..] ==> c in x;
      AnnotationSame(x[1..]);
    }
  }

  lemma {:induction false} AnnotationTrimmed(s: string, x: string)
    requires Annotation(x) && (s != "" ==> s[|s| - 1] !in "!?")
    ensures TrimRight(s + x, "!?") == s
    decreases |x|
  {
    if x == "" {
      assert s + x == s;
    } else {
      var n := |x| - 1;
      assert x[n] in x && (s + x)[..|s + x| - 1] == s + x[..n];
      AnnotationTrimmed(s, x[..n]);
    }
  }

  lemma {:induction false} StripAround(a: string, t: string, b: string)
    requires Blanks(a) && Blanks(b) && t != "" && !IsSpace(t[0]) && !IsSpace(t[|t| - 1])
    ensures Strip(a + t + b) == t
    decreases |a| + |b|
  {
    var all := a + t + b;
    if a != "" {
      assert all[0] == a[0] && a[0] in a && all[1..] == a[1..] + t + b;
      StripAround(a[1..], t, b);
    } else if b != "" {
      var n := |b| - 1;
      assert b[n] in b && all[|all| - 1] == b[n] && all[..|all| - 1] == a + t + b[..n] && all[0] == t[0];
      StripAround(a, t, b[..n]);
    } else {
      assert all == t;
    }
  }

  /** Printed text is read however it is spelt: zeros, long dashes, blanks anywhere, annotation marks behind. */
  lemma SpellingsRead(p: Position, m: Move, before: string, t: string, marks: string, after: string)
    requires AllPrintable(p) && San(p, m).Ok? && Variant(t, San(p, m).value)
    requires Blanks(before) && Blanks(after) && Annotation(marks)
    requires t != "" && !IsSpace(t[0]) && (marks == "" ==> !IsSpace(t[|t| - 1]))
    ensures ParseMove(p, before + (t + marks) + after) == Ok(m)
  {
    var san := San(p, m).value;
    SuffixIsCheckMark(Apply(p, m));
    BareOfPrinted(p, m, Suffix(Apply(p, m)).value);
    PrintedSettled(p, m);
    SanRoundTrip.SanRoundTrip(p, m);
    hide San, ParseMove, AllPrintable, Legal, Core, Suffix, Strip;
    NormalisedVariant(san, before, t, marks, after);
    SameNormalised(p, san, before + (t + marks) + after);
  }

  lemma SanSplits(p: Position, m: Move)
    requires San(p, m).Ok?
    ensures Pseudo(p, p.turn, m) && p.board[m.from].Man? && Appliable(p.board, m) && Suffix(Apply(p, m)).Ok?
    ensures San(p, m).value == Core(p, m) + Suffix(Apply(p, m)).value
  {
    hide Core, Suffix, Pseudo, Fits;
  }

  lemma MarkSettled(mark: string)
    requires CheckMark(mark)
    ensures AllSettled(mark)
  {
  }

  lemma PrintedSettled(p: Position, m: Move)
    requires San(p, m).Ok?
    ensures AllSettled(San(p, m).value) && San(p, m).value != "" && NormSan(San(p, m).value) == San(p, m).value
  {
    hide *;
    SanSplits(p, m);
    var suffix := Suffix(Apply(p, m)).value;
    SuffixIsCheckMark(Apply(p, m));
    MarkSettled(suffix);
    BareOfPrinted(p, m, suffix);
    CoreSettled(p, m);
    SettledConcat(Core(p, m), suffix);
  }

  lemma NormalisedVariant(san: string, before: string, t: string, marks: string, after: string)
    requires AllSettled(san) && san != "" && Variant(t, san)
    requires Blanks(before) && Blanks(after) && Annotation(marks)
    requires t != "" && !IsSpace(t[0]) && (marks == "" ==> !IsSpace(t[|t| - 1]))
    ensures NormSan(before + (t + marks) + after) == san
  {
    hide Strip, Respell, TrimRight, Variant, IsSpace;
    assert marks != "" ==> marks[|marks| - 1] in marks;
    assert !IsSpace('!') && !IsSpace('?') by {
      NotBlank();
    }
    assert marks == "" ==> t + marks == t;
    StripAround(before, t + marks, after);
    RespellConcat(t, marks);
    AnnotationSame(marks);
    VariantRespells(t, san);
    assert san[|san| - 1] in san && Settled(san[|san| - 1]);
    AnnotationTrimmed(san, marks);
  }

  lemma NotBlank()
    ensures !IsSpace('!') && !IsSpace('?')
  {
  }

  lemma SameNormalised(p: Position, a: string, b: string)
    requires NormSan(a) == NormSan(b)
    ensures ParseMove(p, a) == ParseMove(p, b)
  {
    assert Bare(a) == Bare(b);
    hide NormSan, Bare;
  }
}
