/** What every decoded tree is: legal from its start, shaped like the grammar, as large as its stream,
    and equal to the decoding of its own canonical stream. */
module DecodedTrees {
  import opened Base
  import opened Pieces
  import opened Position
  import opened Fen
  import opened Rules
  import opened Notation
  import opened Timeline
  import opened Decoder

  // ----- a decoded tree comes from a tree of plies

  lemma {:induction false} ReplayAllConcat(p: Position, a: seq<Alternative>, b: seq<Alternative>)
    requires ReplayAll(p, a).Some? && ReplayAll(p, b).Some?
    ensures ReplayAll(p, a + b) == Some(ReplayAll(p, a).value + ReplayAll(p, b).value)
  {
    hide Replay;
    if a == [] {
      assert a + b == b;
      assert [] + ReplayAll(p, b).value == ReplayAll(p, b).value;
    } else {
      assert (a + b)[1..] == a[1..] + b;
      ReplayAllConcat(p, a[1..], b);
      var head := [Variation(Replay(p, a[0].plies).value)];
      assert head + (ReplayAll(p, a[1..]).value + ReplayAll(p, b).value) ==
          ReplayAll(p, a).value + ReplayAll(p, b).value;
    }
  }

  lemma {:induction false} ShapedAllConcat(a: seq<Alternative>, b: seq<Alternative>)
    requires ShapedAll(a) && ShapedAll(b)
    ensures ShapedAll(a + b)
  {
    hide Shaped;
    if a == [] {
      assert a + b == b;
    } else {
      assert (a + b)[1..] == a[1..] + b;
      ShapedAllConcat(a[1..], b);
    }
  }

  lemma {:induction false} ForksFitAllConcat(p: Position, a: seq<Alternative>, b: seq<Alternative>)
    requires ForksFitAll(p, a) && ForksFitAll(p, b)
    ensures ForksFitAll(p, a + b)
  {
    hide ForksFit;
    if a == [] {
      assert a + b == b;
    } else {
      assert (a + b)[1..] == a[1..] + b;
      ForksFitAllConcat(p, a[1..], b);
    }
  }

  lemma {:induction false} NestAllConcat(a: seq<Alternative>, b: seq<Alternative>)
    ensures NestAll(a + b) <= Max(1 + NestAll(a), NestAll(b))
  {
    hide Nest;
    if a == [] {
      assert a + b == b;
    } else {
      assert (a + b)[1..] == a[1..] + b;
      NestAllConcat(a[1..], b);
      if b == [] {
        assert a + b == a;
      }
    }
  }

  /** A run's output as plies: the line, the siblings, and that both are buildable where they stand. */
  ghost predicate Explains(line: seq<Ply>, sibs: seq<Alternative>, s: Segment, p: Position, mode: Mode, depth: nat) {
    && Replay(p, line) == Some(s.moves) && ReplayAll(p, sibs) == Some(s.siblings)
    && Shaped(line) && ShapedAll(sibs) && ForksFit(p, line) && ForksFitAll(p, sibs)
    && (line == [] <==> s.moves == [])
    && (if mode == Start then Opens(line) && depth + NestAll([Alternative(line)] + sibs) <= MAX_DEPTH
        else sibs == [] && depth + Nest(line) <= MAX_DEPTH)
  }

  lemma PlayExplained(t: MoveToken, line: seq<Ply>, tail: Segment, p: Position, mode: Mode, depth: nat)
    returns (more: seq<Ply>)
    requires DecodeMove(p, t).Some?
    requires Explains(line, [], tail, DecodeMove(p, t).value.1, Inside, depth)
    ensures Explains(
              more, [], Segment([Node(DecodeMove(p, t).value.0, MoveNumber(p), [])] + tail.moves, [], tail.rest),
              p, mode, depth)
  {
    hide DecodeMove, Fits, MoveNumber;
    more := [Ply(t, [])] + line;
    assert more[1..] == line;
    assert [Alternative(more)] + [] == [Alternative(more)];
    assert more[0] == Ply(t, []);
    assert ShapedAll(more[0].alternatives) && ForksFitAll(p, more[0].alternatives);
    assert ReplayAll(p, more[0].alternatives) == Some([]);
    assert NestAll([Alternative(more)]) == Nest(line);
  }

  lemma PushExplainedAtStart(line1: seq<Ply>, sibs1: seq<Alternative>, inner: Segment,
                             line2: seq<Ply>, sibs2: seq<Alternative>, alt: Segment, p: Position, depth: nat)
    returns (sibs: seq<Alternative>)
    requires depth < MAX_DEPTH && inner.moves != []
    requires Explains(line1, sibs1, inner, p, Start, depth + 1) && Explains(line2, sibs2, alt, p, Start, depth)
    ensures Explains(line1, sibs, Joined(Start, inner, alt), p, Start, depth)
  {
    hide DecodeMove, Fits, MoveNumber, Replay, Shaped, ForksFit, Nest;
    var added := [Alternative(line2)] + sibs2;
    sibs := sibs1 + added;
    assert added[1..] == sibs2;
    ReplayAllConcat(p, sibs1, added);
    ShapedAllConcat(sibs1, added);
    ForksFitAllConcat(p, sibs1, added);
    NestAllConcat([Alternative(line1)] + sibs1, added);
    assert [Alternative(line1)] + sibs1 + added == [Alternative(line1)] + sibs;
    assert inner.siblings + [Variation(alt.moves)] + alt.siblings ==
        inner.siblings + ([Variation(alt.moves)] + alt.siblings);
  }

  /** Giving the first ply more alternatives. */
  function Branched(line: seq<Ply>, more: seq<Alternative>): seq<Ply>
    requires line != []
  {
    [line[0].(alternatives := line[0].alternatives + more)] + line[1..]
  }

  lemma PushExplained(line1: seq<Ply>, inner: Segment, line2: seq<Ply>, sibs2: seq<Alternative>, alt: Segment,
                      p: Position, mode: Mode, depth: nat)
    requires depth < MAX_DEPTH && Fits(p) && inner.moves != [] && mode != Start
    requires Explains(line1, [], inner, p, mode, depth + 1) && Explains(line2, sibs2, alt, p, Start, depth)
    ensures Explains(Branched(line1, [Alternative(line2)] + sibs2), [], Joined(mode, inner, alt), p, mode, depth)
  {
    hide DecodeMove, Fits, MoveNumber;
    var added := [Alternative(line2)] + sibs2;
    var old1 := line1[0].alternatives;
    var line := Branched(line1, added);
    assert line[1..] == line1[1..] && line[0].alternatives == old1 + added && added[1..] == sibs2;
    AddedExplained(line2, sibs2, alt, p, depth);
    hide Nest, NestAll;
    ReplayAllConcat(p, old1, added);
    ShapedAllConcat(old1, added);
    ForksFitAllConcat(p, old1, added);
    NestBranched(line1, added);
  }

  lemma AddedExplained(line2: seq<Ply>, sibs2: seq<Alternative>, alt: Segment, p: Position, depth: nat)
    requires Explains(line2, sibs2, alt, p, Start, depth)
    ensures var added := [Alternative(line2)] + sibs2;
      && ReplayAll(p, added) == Some([Variation(alt.moves)] + alt.siblings)
      && ShapedAll(added) && ForksFitAll(p, added) && depth + NestAll(added) <= MAX_DEPTH
  {
    hide DecodeMove, Fits, MoveNumber, Replay, Shaped, ForksFit, Nest;
    assert ([Alternative(line2)] + sibs2)[1..] == sibs2;
  }

  lemma NestBranched(line: seq<Ply>, added: seq<Alternative>)
    requires line != [] && added != []
    ensures Nest(Branched(line, added)) <= Max(1 + Nest(line), NestAll(added))
  {
    var more := Branched(line, added);
    assert more[1..] == line[1..] && more[0].alternatives == line[0].alternatives + added;
    NestAllConcat(line[0].alternatives, added);
  }

  /** Every successful run has such an explanation. */
  lemma {:induction false} Explained(ts: seq<Token>, p: Position, mode: Mode, nested: bool, depth: nat)
    returns (line: seq<Ply>, sibs: seq<Alternative>)
    requires Decode(ts, p, mode, nested, depth).Some? && depth <= MAX_DEPTH
    ensures Explains(line, sibs, Decode(ts, p, mode, nested, depth).value, p, mode, depth)
    decreases |ts|
  {
    hide DecodeMove, Fits, MoveNumber, Explains;
    line, sibs := [], [];
    if ts == [] || ts[0] == Pop {
      NothingExplained(p, mode, depth, Decode(ts, p, mode, nested, depth).value);
      return;
    }
    match ts[0]
    case Skip =>
      line, sibs := Explained(ts[1..], p, mode, nested, depth);
    case Push =>
      var inner := Decode(ts[1..], p, mode, true, depth + 1).value;
      var alt := Decode(inner.rest, p, Start, nested, depth).value;
      var line1, sibs1 := Explained(ts[1..], p, mode, true, depth + 1);
      var line2, sibs2 := Explained(inner.rest, p, Start, nested, depth);
      if mode == Start {
        line := line1;
        sibs := PushExplainedAtStart(line1, sibs1, inner, line2, sibs2, alt, p, depth);
      } else {
        NoSiblings(line1, sibs1, inner, p, mode, depth + 1);
        PushExplained(line1, inner, line2, sibs2, alt, p, mode, depth);
        line := Branched(line1, [Alternative(line2)] + sibs2);
      }
    case Play(t) =>
      var q := DecodeMove(p, t).value.1;
      var tail := Decode(ts[1..], q, Inside, nested, depth).value;
      var rest, none := Explained(ts[1..], q, Inside, nested, depth);
      NoSiblings(rest, none, tail, q, Inside, depth);
      line := PlayExplained(t, rest, tail, p, mode, depth);
  }

  lemma NothingExplained(p: Position, mode: Mode, depth: nat, s: Segment)
    requires s.moves == [] && s.siblings == [] && mode != Start && depth <= MAX_DEPTH
    ensures Explains([], [], s, p, mode, depth)
  {
  }

  lemma NoSiblings(line: seq<Ply>, sibs: seq<Alternative>, s: Segment, p: Position, mode: Mode, depth: nat)
    requires Explains(line, sibs, s, p, mode, depth)
    ensures mode != Start ==> sibs == [] && s.siblings == []
    ensures line == [] <==> s.moves == []
  {
  }

  /** The decoder accepts exactly the trees the grammar describes: a decoded game is a buildable tree, and
      decoding that tree's canonical stream gives the same game. */
  lemma DecodedGamesAreCanonical(ts: seq<Token>, p: Position) returns (line: seq<Ply>)
    requires DecodeGame(ts, p).Some?
    ensures Buildable(p, line, 0) && Replay(p, line) == DecodeGame(ts, p)
    ensures DecodeGame(Emit(line), p) == DecodeGame(ts, p)
  {
    var sibs;
    line, sibs := Explained(ts, p, Root, false, 0);
    DecoderInvertsGrammar(line, p);
  }

  // ----- legality

  /** Each move follows from the position before it, carries that position's number, and its variations start there. */
  ghost predicate PlaysLegally(p: Position, line: seq<Node>)
    decreases line
  {
    line == [] || (
      && line[0].number == MoveNumber(p)
      && VariationsPlayLegally(p, line[0].variations)
      && exists q :: Follows(p, line[0].san, q) && PlaysLegally(q, line[1..]))
  }

  ghost predicate VariationsPlayLegally(p: Position, vs: seq<Variation>)
    decreases vs
  {
    vs == [] || (vs[0].moves != [] && vs[0].moves[0].variations == [] && PlaysLegally(p, vs[0].moves)
                 && VariationsPlayLegally(p, vs[1..]))
  }

  lemma DecodedMoveFollows(p: Position, t: MoveToken)
    requires DecodeMove(p, t).Some?
    ensures Follows(p, DecodeMove(p, t).value.0, DecodeMove(p, t).value.1)
  {
  }

  lemma {:induction false} ReplayPlaysLegally(p: Position, line: seq<Ply>)
    requires Shaped(line) && Replay(p, line).Some?
    ensures PlaysLegally(p, Replay(p, line).value)
    decreases line
  {
    hide DecodeMove, MoveNumber, Follows;
    if line != [] {
      var out := Replay(p, line).value;
      var q := DecodeMove(p, line[0].move).value.1;
      DecodedMoveFollows(p, line[0].move);
      ReplayPlaysLegally(q, line[1..]);
      ReplayAllPlaysLegally(p, line[0].alternatives);
      assert out[1..] == Replay(q, line[1..]).value;
    }
  }

  lemma {:induction false} ReplayAllPlaysLegally(p: Position, lines: seq<Alternative>)
    requires ShapedAll(lines) && ReplayAll(p, lines).Some?
    ensures VariationsPlayLegally(p, ReplayAll(p, lines).value)
    decreases lines
  {
    hide DecodeMove, MoveNumber, PlaysLegally;
    if lines != [] {
      var out := ReplayAll(p, lines).value;
      ReplayPlaysLegally(p, lines[0].plies);
      ReplayAllPlaysLegally(p, lines[1..]);
      assert out[1..] == ReplayAll(p, lines[1..]).value;
    }
  }

  /** Every line of a decoded game replays legally, each variation from the position before its owner move. */
  lemma DecodedGamesPlayLegally(ts: seq<Token>, p: Position)
    requires DecodeGame(ts, p).Some?
    ensures PlaysLegally(p, DecodeGame(ts, p).value)
  {
    var line := DecodedGamesAreCanonical(ts, p);
    ReplayPlaysLegally(p, line);
  }

  // ----- conservation

  function Nodes(line: seq<Node>): nat
    decreases line
  {
    if line == [] then 0 else 1 + NodesOfAll(line[0].variations) + Nodes(line[1..])
  }

  function NodesOfAll(vs: seq<Variation>): nat
    decreases vs
  {
    if vs == [] then 0 else Nodes(vs[0].moves) + NodesOfAll(vs[1..])
  }

  /** How many variation lines hang below a line. */
  function Lines(line: seq<Node>): nat
    decreases line
  {
    if line == [] then 0 else LinesOfAll(line[0].variations) + Lines(line[1..])
  }

  function LinesOfAll(vs: seq<Variation>): nat
    decreases vs
  {
    if vs == [] then 0 else 1 + Lines(vs[0].moves) + LinesOfAll(vs[1..])
  }

  function Plays(ts: seq<Token>): nat {
    if ts == [] then 0 else (if ts[0].Play? then 1 else 0) + Plays(ts[1..])
  }

  function Count(ts: seq<Token>, t: Token): nat {
    if ts == [] then 0 else (if ts[0] == t then 1 else 0) + Count(ts[1..], t)
  }

  lemma {:induction false} CountsConcat(a: seq<Variation>, b: seq<Variation>)
    ensures NodesOfAll(a + b) == NodesOfAll(a) + NodesOfAll(b)
    ensures LinesOfAll(a + b) == LinesOfAll(a) + LinesOfAll(b)
  {
    hide Nodes, Lines;
    if a == [] {
      assert a + b == b;
    } else {
      assert (a + b)[1..] == a[1..] + b;
      CountsConcat(a[1..], b);
    }
  }

  lemma JoinedCounts(mode: Mode, inner: Segment, alt: Segment)
    requires inner.moves != [] && (mode != Start ==> inner.siblings == [])
    ensures var s := Joined(mode, inner, alt);
      && Nodes(s.moves) + NodesOfAll(s.siblings)
         == Nodes(inner.moves) + NodesOfAll(inner.siblings) + Nodes(alt.moves) + NodesOfAll(alt.siblings)
      && Lines(s.moves) + LinesOfAll(s.siblings)
         == Lines(inner.moves) + LinesOfAll(inner.siblings) + 1 + Lines(alt.moves) + LinesOfAll(alt.siblings)
  {
    var added := [Variation(alt.moves)] + alt.siblings;
    assert added[1..] == alt.siblings;
    if mode == Start {
      assert inner.siblings + [Variation(alt.moves)] + alt.siblings == inner.siblings + added;
      CountsConcat(inner.siblings, added);
    } else {
      var s := Joined(mode, inner, alt);
      assert s.moves[1..] == inner.moves[1..];
      CountsConcat(inner.moves[0].variations, added);
    }
  }

  /** Tokens consumed by a run against what it built: moves become nodes, pushes become variation lines,
      pops match pushes, plus the one that ends a nested run or, at the end of the stream, the root. */
  ghost predicate Balanced(ts: seq<Token>, s: Segment, nested: bool) {
    && Plays(ts) == Plays(s.rest) + Nodes(s.moves) + NodesOfAll(s.siblings)
    && Count(ts, Push) == Count(s.rest, Push) + Lines(s.moves) + LinesOfAll(s.siblings)
    && Count(ts, Pop) - Count(s.rest, Pop) ==
       Count(ts, Push) - Count(s.rest, Push) + (if nested then 1 else if ts != [] && ts[|ts| - 1] == Pop then 1 else 0)
  }

  lemma PushBalanced(ts: seq<Token>, mode: Mode, nested: bool, inner: Segment, alt: Segment)
    requires ts != [] && ts[0] == Push && inner.moves != [] && (mode != Start ==> inner.siblings == [])
    requires Balanced(ts[1..], inner, true) && Balanced(inner.rest, alt, nested)
    requires !nested ==> inner.rest != [] && inner.rest[|inner.rest| - 1] == ts[|ts| - 1]
    ensures Balanced(ts, Joined(mode, inner, alt), nested)
  {
    JoinedCounts(mode, inner, alt);
    hide Nodes, NodesOfAll, Lines, LinesOfAll;
  }

  lemma PlayBalanced(ts: seq<Token>, n: Node, tail: Segment, nested: bool)
    requires ts != [] && ts[0].Play? && n.variations == [] && tail.siblings == []
    requires Balanced(ts[1..], tail, nested)
    ensures Balanced(ts, Segment([n] + tail.moves, [], tail.rest), nested)
  {
    PlayCounts(n, tail.moves);
  }

  /** A run that ends at its first token. */
  lemma EndBalanced(ts: seq<Token>, nested: bool)
    requires if nested then ts != [] && ts[0] == Pop else ts == [] || ts == [Pop]
    ensures Balanced(ts, Segment([], [], if nested then ts[1..] else []), nested)
  {
    if ts != [] {
      assert Count(ts, Pop) == 1 + Count(ts[1..], Pop);
      assert Count(ts, Push) == Count(ts[1..], Push);
    }
  }

  lemma SkipBalanced(ts: seq<Token>, s: Segment, nested: bool)
    requires ts != [] && ts[0] == Skip && Balanced(ts[1..], s, nested)
    ensures Balanced(ts, s, nested)
  {
    hide Nodes, NodesOfAll, Lines, LinesOfAll;
    assert Count(ts, Pop) == Count(ts[1..], Pop);
    assert Count(ts, Push) == Count(ts[1..], Push);
  }

  lemma {:induction false} Conserved(ts: seq<Token>, p: Position, mode: Mode, nested: bool, depth: nat)
    requires Decode(ts, p, mode, nested, depth).Some?
    ensures Balanced(ts, Decode(ts, p, mode, nested, depth).value, nested)
    decreases |ts|
  {
    hide DecodeMove, Fits, MoveNumber, Joined, Balanced;
    if ts == [] || ts[0] == Pop {
      EndBalanced(ts, nested);
      return;
    }
    match ts[0]
    case Skip =>
      Conserved(ts[1..], p, mode, nested, depth);
      SkipBalanced(ts, Decode(ts, p, mode, nested, depth).value, nested);
    case Push =>
      var inner := Decode(ts[1..], p, mode, true, depth + 1).value;
      Conserved(ts[1..], p, mode, true, depth + 1);
      Conserved(inner.rest, p, Start, nested, depth);
      DecodeShape(ts[1..], p, mode, true, depth + 1);
      RestIsSuffix(ts[1..], p, mode, true, depth + 1);
      PushBalanced(ts, mode, nested, inner, Decode(inner.rest, p, Start, nested, depth).value);
    case Play(t) =>
      var q := DecodeMove(p, t).value.1;
      Conserved(ts[1..], q, Inside, nested, depth);
      DecodeShape(ts[1..], q, Inside, nested, depth);
      PlayBalanced(ts, Node(DecodeMove(p, t).value.0, MoveNumber(p), []),
                   Decode(ts[1..], q, Inside, nested, depth).value, nested);
  }

  lemma PlayCounts(n: Node, line: seq<Node>)
    requires n.variations == []
    ensures Nodes([n] + line) == 1 + Nodes(line) && Lines([n] + line) == Lines(line)
  {
    assert ([n] + line)[1..] == line;
  }

  predicate Suffix(r: seq<Token>, ts: seq<Token>) {
    |r| <= |ts| && r == ts[|ts| - |r|..]
  }

  lemma SuffixOfTail(r: seq<Token>, mid: seq<Token>, ts: seq<Token>)
    requires ts != [] && Suffix(mid, ts[1..]) && Suffix(r, mid)
    ensures Suffix(r, ts)
  {
  }

  lemma {:induction false} RestIsSuffix(ts: seq<Token>, p: Position, mode: Mode, nested: bool, depth: nat)
    requires Decode(ts, p, mode, nested, depth).Some?
    ensures Suffix(Decode(ts, p, mode, nested, depth).value.rest, ts)
    decreases |ts|
  {
    hide DecodeMove, Fits, MoveNumber;
    if ts == [] || ts[0] == Pop {
      return;
    }
    hide Suffix;
    var r := Decode(ts, p, mode, nested, depth).value.rest;
    match ts[0]
    case Skip =>
      RestIsSuffix(ts[1..], p, mode, nested, depth);
      SuffixOfTail(r, r, ts) by { SuffixSelf(r); }
    case Push =>
      var inner := Decode(ts[1..], p, mode, true, depth + 1).value;
      RestIsSuffix(ts[1..], p, mode, true, depth + 1);
      RestIsSuffix(inner.rest, p, Start, nested, depth);
      SuffixOfTail(r, inner.rest, ts);
    case Play(t) =>
      RestIsSuffix(ts[1..], DecodeMove(p, t).value.1, Inside, nested, depth);
      SuffixOfTail(r, r, ts) by { SuffixSelf(r); }
  }

  lemma SuffixSelf(r: seq<Token>)
    ensures Suffix(r, r)
  {
  }

  /** For a whole game: as many nodes as move tokens, as many variation lines as pushes,
      as many pops as pushes plus the optional terminal one. */
  lemma GameConserved(ts: seq<Token>, p: Position)
    requires DecodeGame(ts, p).Some?
    ensures Nodes(DecodeGame(ts, p).value) == Plays(ts)
    ensures Lines(DecodeGame(ts, p).value) == Count(ts, Push)
    ensures Count(ts, Pop) == Count(ts, Push) + (if ts != [] && ts[|ts| - 1] == Pop then 1 else 0)
  {
    Conserved(ts, p, Root, false, 0);
    DecodeShape(ts, p, Root, false, 0);
  }
}
