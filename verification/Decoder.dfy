/** The ChessBase token stream (acs/chessbase_decoder.py): what a stream denotes, the canonical stream of a tree,
    and that decoding inverts it. */
module Decoder {
  import opened Base
  import opened Text
  import opened Squares
  import opened Pieces
  import opened Position
  import opened Fen
  import opened Rules
  import opened Notation
  import opened Timeline
  import SanRoundTrip

  const MAX_DEPTH := 256

  // ----- tokens and trees

  datatype MoveToken = MoveToken(from: int, to: int, promote: int)

  datatype Token = Push | Pop | Skip | Play(move: MoveToken) | Unknown

  /** A decoded move with its variations, each a line that starts before the move. */
  datatype Node = Node(san: string, number: string, variations: seq<Variation>)

  datatype Variation = Variation(moves: seq<Node>)

  /** A move of a tree still described by tokens, and its alternatives. */
  datatype Ply = Ply(move: MoveToken, alternatives: seq<Alternative>)

  datatype Alternative = Alternative(plies: seq<Ply>)

  // ----- one move token

  /** The promotion markers; 7 stands for none. */
  function PromotionOf(code: int): Option<Option<Officer>> {
    match code
    case 2 => Some(Some(Queen))
    case 3 => Some(Some(Rook))
    case 4 => Some(Some(Bishop))
    case 5 => Some(Some(Knight))
    case 7 => Some(None)
    case _ => None
  }

  /** A legal move the token may stand for: marker 1 asks for castling. */
  predicate Picks(p: Position, t: MoveToken, m: Move) {
    && Legal(p, m) && m.from == t.from && m.to == t.to
    && (if t.promote == 1 then m.castle
        else PromotionOf(t.promote).Some? && m.promotion == PromotionOf(t.promote).value)
  }

  /** `_decode_move`: the SAN and the position after, None when it raises. */
  ghost function DecodeMove(p: Position, t: MoveToken): Option<(string, Position)> {
    if !(0 <= t.from < 64 && 0 <= t.to < 64 && 0 <= t.promote < 256) then None
    else if t.promote == 6 then Some((NULL_SAN, ApplyNull(p)))
    else if exists m :: Picks(p, t, m) then
      var m :| Picks(p, t, m);
      if San(p, m).Ok? then Some((San(p, m).value, Apply(p, m))) else None
    else None
  }

  /** At most one legal move answers a token, so the "not uniquely legal" error means there is none. */
  lemma PicksOne(p: Position, t: MoveToken, m: Move, x: Move)
    requires Picks(p, t, m) && Picks(p, t, x)
    ensures m == x
  {
    if m.castle {
      CastlingShape(p, p.turn, m);
    }
    if x.castle {
      CastlingShape(p, p.turn, x);
    }
    SanRoundTrip.SameSquaresSameMove(p, m, x);
  }

  /** `_move_number`. */
  function MoveNumber(p: Position): string {
    Decimal(p.fullmove) + (if p.turn.White? then "." else "...")
  }

  // ----- what a stream denotes

  /** Where the cursor stands: on the untouched root line, at the start of a variation, or after a move of its line. */
  datatype Mode = Root | Start | Inside

  /** What one run of `_decode_line` adds to its line and to its owner's variations, and the tokens it leaves. */
  datatype Segment = Segment(moves: seq<Node>, siblings: seq<Variation>, rest: seq<Token>)

  function Grown(n: Node, more: seq<Variation>): Node {
    n.(variations := n.variations + more)
  }

  /** The variations that follow a continuation: siblings at the start of a variation, else of its first move. */
  function Joined(mode: Mode, inner: Segment, alt: Segment): Segment
    requires inner.moves != []
  {
    if mode == Start then
      Segment(inner.moves, inner.siblings + [Variation(alt.moves)] + alt.siblings, alt.rest)
    else
      Segment([Grown(inner.moves[0], [Variation(alt.moves)] + alt.siblings)] + inner.moves[1..], [], alt.rest)
  }

  /** `_decode_line` on the remaining tokens, None when it raises. */
  ghost function Decode(ts: seq<Token>, p: Position, mode: Mode, nested: bool, depth: nat): (r: Option<Segment>)
    ensures r.Some? ==> |r.value.rest| <= |ts| && (nested ==> |r.value.rest| < |ts|)
    decreases |ts|
  {
    if ts == [] then
      if nested || mode == Start then None else Some(Segment([], [], []))
    else match ts[0]
      case Pop =>
        if mode == Start then None
        else if nested then Some(Segment([], [], ts[1..]))
        else if |ts| == 1 && mode == Inside then Some(Segment([], [], []))
        else None
      case Skip => Decode(ts[1..], p, mode, nested, depth)
      case Push =>
        if depth >= MAX_DEPTH || !Fits(p) then None else
        var inner := Decode(ts[1..], p, mode, true, depth + 1);
        if inner.None? || inner.value.moves == [] then None else
        var alt := Decode(inner.value.rest, p, Start, nested, depth);
        if alt.None? then None else
        Some(Joined(mode, inner.value, alt.value))
      case Play(t) =>
        var step := DecodeMove(p, t);
        if step.None? then None else
        var tail := Decode(ts[1..], step.value.1, Inside, nested, depth);
        if tail.None? then None else
        Some(Segment([Node(step.value.0, MoveNumber(p), [])] + tail.value.moves, tail.value.siblings, tail.value.rest))
      case Unknown => None
  }

  /** The line `_decode_game` builds from a whole stream. */
  ghost function DecodeGame(ts: seq<Token>, p: Position): Option<seq<Node>> {
    var r := Decode(ts, p, Root, false, 0);
    if r.Some? then Some(r.value.moves) else None
  }

  /** The run at the start of a variation always adds a move; other runs add no siblings; the root run uses every
      token. */
  lemma {:induction false} DecodeShape(ts: seq<Token>, p: Position, mode: Mode, nested: bool, depth: nat)
    requires Decode(ts, p, mode, nested, depth).Some?
    ensures var s := Decode(ts, p, mode, nested, depth).value;
      && (mode == Start ==> s.moves != [])
      && (mode != Start ==> s.siblings == [])
      && (!nested ==> s.rest == [])
    decreases |ts|
  {
    hide DecodeMove, Fits, MoveNumber;
    if ts != [] {
      match ts[0]
      case Pop =>
      case Skip => DecodeShape(ts[1..], p, mode, nested, depth);
      case Push =>
        var inner := Decode(ts[1..], p, mode, true, depth + 1).value;
        DecodeShape(ts[1..], p, mode, true, depth + 1);
        DecodeShape(inner.rest, p, Start, nested, depth);
      case Play(t) => DecodeShape(ts[1..], DecodeMove(p, t).value.1, Inside, nested, depth);
    }
  }

  // ----- trees of plies: replay, shape, nesting

  /** The decoded line of a tree of plies played from p, None when some move cannot be played. */
  ghost function Replay(p: Position, line: seq<Ply>): Option<seq<Node>>
    decreases line
  {
    if line == [] then Some([]) else
    var step := DecodeMove(p, line[0].move);
    if step.None? then None else
    var rest := Replay(step.value.1, line[1..]);
    var alts := ReplayAll(p, line[0].alternatives);
    if rest.None? || alts.None? then None
    else Some([Node(step.value.0, MoveNumber(p), alts.value)] + rest.value)
  }

  ghost function ReplayAll(p: Position, lines: seq<Alternative>): (r: Option<seq<Variation>>)
    ensures r.Some? ==> |r.value| == |lines|
    decreases lines
  {
    if lines == [] then Some([]) else
    var first := Replay(p, lines[0].plies);
    var rest := ReplayAll(p, lines[1..]);
    if first.None? || rest.None? then None else Some([Variation(first.value)] + rest.value)
  }

  /** Variations are non-empty and none of their first moves carries variations of its own. */
  predicate Shaped(line: seq<Ply>)
    decreases line
  {
    line == [] || (ShapedAll(line[0].alternatives) && Shaped(line[1..]))
  }

  predicate ShapedAll(lines: seq<Alternative>)
    decreases lines
  {
    lines == [] || (Opens(lines[0].plies) && Shaped(lines[0].plies) && ShapedAll(lines[1..]))
  }

  /** A line that may stand as a variation. */
  predicate Opens(line: seq<Ply>) {
    line != [] && line[0].alternatives == []
  }

  function Max(a: nat, b: nat): nat {
    if a < b then b else a
  }

  /** How deep pushes nest in the canonical stream of a line. */
  function Nest(line: seq<Ply>): nat
    decreases line
  {
    if line == [] then 0
    else if line[0].alternatives == [] then Nest(line[1..])
    else Max(1 + Nest(line[1..]), NestAll(line[0].alternatives))
  }

  function NestAll(lines: seq<Alternative>): nat
    decreases lines
  {
    if lines == [] then 0
    else if |lines| == 1 then Nest(lines[0].plies)
    else Max(1 + Nest(lines[0].plies), NestAll(lines[1..]))
  }

  /** Every position at which the canonical stream branches can be cloned. */
  ghost predicate ForksFit(p: Position, line: seq<Ply>)
    decreases line
  {
    line == [] || (
      && DecodeMove(p, line[0].move).Some?
      && ForksFit(DecodeMove(p, line[0].move).value.1, line[1..])
      && (line[0].alternatives != [] ==> Fits(p))
      && ForksFitAll(p, line[0].alternatives))
  }

  ghost predicate ForksFitAll(p: Position, lines: seq<Alternative>)
    decreases lines
  {
    lines == [] || (ForksFit(p, lines[0].plies) && ForksFitAll(p, lines[1..]))
  }

  /** A tree the decoder can be asked to build: shaped, playable from p, within the nesting and text limits. */
  ghost predicate Buildable(p: Position, line: seq<Ply>, depth: nat) {
    Shaped(line) && Replay(p, line).Some? && ForksFit(p, line) && depth + Nest(line) <= MAX_DEPTH
  }

  ghost predicate BuildableAll(p: Position, lines: seq<Alternative>, depth: nat) {
    ShapedAll(lines) && ReplayAll(p, lines).Some? && ForksFitAll(p, lines) && depth + NestAll(lines) <= MAX_DEPTH
  }

  // ----- the canonical stream

  /** A branching move emits push, the rest of its line, pop, then its alternatives, all but the last wrapped. */
  function Emit(line: seq<Ply>): seq<Token>
    decreases line
  {
    if line == [] then []
    else if line[0].alternatives == [] then [Play(line[0].move)] + Emit(line[1..])
    else [Push, Play(line[0].move)] + Emit(line[1..]) + [Pop] + EmitAll(line[0].alternatives)
  }

  function EmitAll(lines: seq<Alternative>): seq<Token>
    decreases lines
  {
    if lines == [] then []
    else if |lines| == 1 then Emit(lines[0].plies)
    else [Push] + Emit(lines[0].plies) + [Pop] + EmitAll(lines[1..])
  }

  /** What ends a run: the matching pop, or the end of the stream with an optional terminal pop. */
  predicate Ends(tail: seq<Token>, mode: Mode, nested: bool, line: seq<Ply>) {
    if nested then tail != [] && tail[0] == Pop
    else tail == [] || (tail == [Pop] && (mode == Inside || line != []))
  }

  function After(tail: seq<Token>, nested: bool): seq<Token>
    requires nested ==> tail != []
  {
    if nested then tail[1..] else []
  }

  lemma PlayStep(t: MoveToken, ts: seq<Token>, p: Position, mode: Mode, nested: bool, depth: nat)
    requires DecodeMove(p, t).Some? && Decode(ts, DecodeMove(p, t).value.1, Inside, nested, depth).Some?
    ensures var tail := Decode(ts, DecodeMove(p, t).value.1, Inside, nested, depth).value;
      Decode([Play(t)] + ts, p, mode, nested, depth) ==
      Some(Segment([Node(DecodeMove(p, t).value.0, MoveNumber(p), [])] + tail.moves, tail.siblings, tail.rest))
  {
    hide DecodeMove, Fits, MoveNumber;
    assert ([Play(t)] + ts)[1..] == ts;
  }

  lemma PushStep(ts: seq<Token>, p: Position, mode: Mode, nested: bool, depth: nat, inner: Segment, alt: Segment)
    requires depth < MAX_DEPTH && Fits(p)
    requires Decode(ts, p, mode, true, depth + 1) == Some(inner) && inner.moves != []
    requires Decode(inner.rest, p, Start, nested, depth) == Some(alt)
    ensures Decode([Push] + ts, p, mode, nested, depth) == Some(Joined(mode, inner, alt))
  {
    hide DecodeMove, Fits, MoveNumber;
    assert ([Push] + ts)[1..] == ts;
  }

  lemma BuildableParts(line: seq<Ply>, p: Position, depth: nat)
    requires Buildable(p, line, depth) && line != []
    ensures DecodeMove(p, line[0].move).Some?
    ensures var q := DecodeMove(p, line[0].move).value.1; var alts := line[0].alternatives;
      if alts == [] then
        && Buildable(q, line[1..], depth)
        && Replay(p, line).value == [Node(DecodeMove(p, line[0].move).value.0, MoveNumber(p), [])]
           + Replay(q, line[1..]).value
      else
        && Buildable(q, line[1..], depth + 1) && BuildableAll(p, alts, depth) && Fits(p) && depth < MAX_DEPTH
        && Replay(p, line).value ==
           [Node(DecodeMove(p, line[0].move).value.0, MoveNumber(p), ReplayAll(p, alts).value)]
           + Replay(q, line[1..]).value
  {
    hide DecodeMove, Fits, MoveNumber;
  }

  lemma RegroupBranch(t: MoveToken, rest: seq<Token>, alts: seq<Token>, tail: seq<Token>)
    ensures [Push, Play(t)] + rest + [Pop] + alts + tail == [Push] + ([Play(t)] + (rest + ([Pop] + (alts + tail))))
    ensures [Play(t)] + rest + tail == [Play(t)] + (rest + tail)
  {
  }

  lemma EmitParts(line: seq<Ply>, tail: seq<Token>)
    requires line != []
    ensures Emit(line) + tail ==
      if line[0].alternatives == [] then [Play(line[0].move)] + (Emit(line[1..]) + tail)
      else [Push] + ([Play(line[0].move)] + (Emit(line[1..]) + ([Pop] + (EmitAll(line[0].alternatives) + tail))))
  {
    hide EmitAll;
    RegroupBranch(line[0].move, Emit(line[1..]), EmitAll(line[0].alternatives), tail);
  }

  /** A branch point: the continuation's run, then the alternatives' run, give the move its variations. */
  lemma BranchDecodes(t: MoveToken, ts: seq<Token>, p: Position, mode: Mode, nested: bool, depth: nat,
                      rest: Segment, alt: Segment)
    requires mode != Start && depth < MAX_DEPTH && Fits(p) && DecodeMove(p, t).Some?
    requires Decode(ts, DecodeMove(p, t).value.1, Inside, true, depth + 1) == Some(rest) && rest.siblings == []
    requires Decode(rest.rest, p, Start, nested, depth) == Some(alt)
    ensures Decode([Push] + ([Play(t)] + ts), p, mode, nested, depth) ==
      Some(Segment(
             [Node(DecodeMove(p, t).value.0, MoveNumber(p), [Variation(alt.moves)] + alt.siblings)] + rest.moves,
             [], alt.rest))
  {
    hide DecodeMove, Fits, MoveNumber;
    PlayStep(t, ts, p, mode, true, depth + 1);
    var inner := Decode([Play(t)] + ts, p, mode, true, depth + 1).value;
    PushStep([Play(t)] + ts, p, mode, nested, depth, inner, alt);
    assert inner.moves[1..] == rest.moves;
    assert [] + ([Variation(alt.moves)] + alt.siblings) == [Variation(alt.moves)] + alt.siblings;
  }

  /** Decoding the canonical stream of a tree rebuilds exactly that tree and stops at the end of its run. */
  lemma {:induction false} EmitDecodes(line: seq<Ply>, p: Position, mode: Mode, nested: bool, depth: nat,
                                       tail: seq<Token>)
    requires Buildable(p, line, depth)
    requires mode == Start ==> Opens(line)
    requires Ends(tail, mode, nested, line)
    ensures Decode(Emit(line) + tail, p, mode, nested, depth)
         == Some(Segment(Replay(p, line).value, [], After(tail, nested)))
    decreases line
  {
    hide DecodeMove, Fits, MoveNumber, Nest, Shaped, ForksFit;
    if line == [] {
      assert Emit(line) + tail == tail;
    } else {
      var ply := line[0];
      var q := DecodeMove(p, ply.move).value.1;
      BuildableParts(line, p, depth);
      EmitParts(line, tail);
      hide Buildable, Emit, Replay, Decode;
      if ply.alternatives == [] {
        EmitDecodes(line[1..], q, Inside, nested, depth, tail);
        PlayStep(ply.move, Emit(line[1..]) + tail, p, mode, nested, depth);
      } else {
        var others := EmitAll(ply.alternatives) + tail;
        EmitDecodes(line[1..], q, Inside, true, depth + 1, [Pop] + others);
        assert After([Pop] + others, true) == others;
        AlternativesDecode(ply.alternatives, p, nested, depth, tail);
        var ts := Emit(line[1..]) + ([Pop] + others);
        var alts := ReplayAll(p, ply.alternatives).value;
        var alt := Segment(alts[0].moves, alts[1..], After(tail, nested));
        BranchDecodes(ply.move, ts, p, mode, nested, depth, Segment(Replay(q, line[1..]).value, [], others), alt);
        assert [Variation(alts[0].moves)] + alts[1..] == alts;
      }
    }
  }

  lemma BuildableAllParts(lines: seq<Alternative>, p: Position, depth: nat)
    requires BuildableAll(p, lines, depth) && lines != []
    ensures Opens(lines[0].plies)
    ensures var alts := ReplayAll(p, lines).value;
      && Replay(p, lines[0].plies).Some? && alts[0].moves == Replay(p, lines[0].plies).value != []
      && (if |lines| == 1 then Buildable(p, lines[0].plies, depth)
          else depth < MAX_DEPTH && Buildable(p, lines[0].plies, depth + 1) && BuildableAll(p, lines[1..], depth)
               && alts[1..] == ReplayAll(p, lines[1..]).value)
  {
    hide DecodeMove, Fits, MoveNumber;
  }

  lemma Regroup(first: seq<Token>, rest: seq<Token>, tail: seq<Token>)
    ensures [Push] + first + [Pop] + rest + tail == [Push] + (first + ([Pop] + (rest + tail)))
  {
  }

  lemma EmitAllParts(lines: seq<Alternative>, tail: seq<Token>)
    requires lines != []
    ensures EmitAll(lines) + tail ==
      if |lines| == 1 then Emit(lines[0].plies) + tail
      else [Push] + (Emit(lines[0].plies) + ([Pop] + (EmitAll(lines[1..]) + tail)))
  {
    hide Emit;
    if |lines| > 1 {
      Regroup(Emit(lines[0].plies), EmitAll(lines[1..]), tail);
    }
  }

  /** The alternatives of one branch point come back in order: the first as the line, the others as its siblings. */
  lemma {:induction false} AlternativesDecode(lines: seq<Alternative>, p: Position, nested: bool, depth: nat,
                                              tail: seq<Token>)
    requires lines != [] && BuildableAll(p, lines, depth) && Fits(p)
    requires if nested then tail != [] && tail[0] == Pop else tail == [] || tail == [Pop]
    ensures var alts := ReplayAll(p, lines).value;
      Decode(EmitAll(lines) + tail, p, Start, nested, depth)
      == Some(Segment(alts[0].moves, alts[1..], After(tail, nested)))
    decreases lines
  {
    hide DecodeMove, Fits, MoveNumber, Nest, Shaped, ForksFit, Emit, EmitAll, Replay, Decode;
    BuildableAllParts(lines, p, depth);
    EmitAllParts(lines, tail);
    hide Buildable, BuildableAll;
    var alts := ReplayAll(p, lines).value;
    if |lines| == 1 {
      EmitDecodes(lines[0].plies, p, Start, nested, depth, tail);
      assert alts[1..] == [];
    } else {
      var others := EmitAll(lines[1..]) + tail;
      EmitDecodes(lines[0].plies, p, Start, true, depth + 1, [Pop] + others);
      assert After([Pop] + others, true) == others;
      AlternativesDecode(lines[1..], p, nested, depth, tail);
      var rest := alts[1..];
      var alt := Segment(rest[0].moves, rest[1..], After(tail, nested));
      PushStep(Emit(lines[0].plies) + ([Pop] + others), p, Start, nested, depth, Segment(alts[0].moves, [], others),
               alt);
      assert [] + [Variation(rest[0].moves)] + rest[1..] == rest;
    }
  }

  /** The decoder inverts the token grammar, with or without the terminal pop of the root. */
  lemma DecoderInvertsGrammar(line: seq<Ply>, p: Position)
    requires Buildable(p, line, 0)
    ensures DecodeGame(Emit(line), p) == Replay(p, line)
    ensures line != [] ==> DecodeGame(Emit(line) + [Pop], p) == Replay(p, line)
  {
    EmitDecodes(line, p, Root, false, 0, []);
    assert Emit(line) + [] == Emit(line);
    if line != [] {
      EmitDecodes(line, p, Root, false, 0, [Pop]);
    }
  }

  // ----- skips say nothing

  function Unskipped(ts: seq<Token>): (us: seq<Token>)
    ensures |us| <= |ts|
  {
    if ts == [] then [] else (if ts[0].Skip? then [] else [ts[0]]) + Unskipped(ts[1..])
  }

  /** A skip stands behind the last token, and that is a pop. */
  predicate SkipAfterPop(ts: seq<Token>) {
    var us := Unskipped(ts);
    ts != [] && ts[|ts| - 1].Skip? && us != [] && us[|us| - 1].Pop?
  }

  lemma {:induction false} UnskippedLater(ts: seq<Token>, k: nat)
    requires k <= |ts|
    ensures |Unskipped(ts[k..])| <= |Unskipped(ts)|
    ensures Unskipped(ts[k..]) == Unskipped(ts)[|Unskipped(ts)| - |Unskipped(ts[k..])|..]
    decreases k
  {
    if k > 0 {
      assert ts[1..][k - 1..] == ts[k..];
      UnskippedLater(ts[1..], k - 1);
    }
  }

  lemma LaterTwice(ts: seq<Token>, i: nat, j: nat)
    requires i + j <= |ts|
    ensures ts[i..][j..] == ts[i + j..]
  {
  }

  /** What a run leaves is the end of what it was given. */
  lemma {:induction false} RestIsLater(ts: seq<Token>, p: Position, mode: Mode, nested: bool, depth: nat)
    returns (k: nat)
    requires Decode(ts, p, mode, nested, depth).Some?
    ensures k <= |ts| && Decode(ts, p, mode, nested, depth).value.rest == ts[k..]
    decreases |ts|
  {
    hide DecodeMove, Fits, MoveNumber;
    k := |ts|;
    if ts != [] {
      match ts[0]
      case Pop =>
        k := if nested then 1 else |ts|;
      case Skip =>
        k := RestIsLater(ts[1..], p, mode, nested, depth);
        k := k + 1;
      case Push =>
        var inner := Decode(ts[1..], p, mode, true, depth + 1).value;
        var i := RestIsLater(ts[1..], p, mode, true, depth + 1);
        var j := RestIsLater(inner.rest, p, Start, nested, depth);
        LaterTwice(ts[1..], i, j);
        LaterTwice(ts, 1, i + j);
        k := 1 + i + j;
      case Play(t) =>
        k := RestIsLater(ts[1..], DecodeMove(p, t).value.1, Inside, nested, depth);
        k := k + 1;
    }
  }

  function WithoutSkips(r: Option<Segment>): Option<Segment> {
    if r.Some? then Some(r.value.(rest := Unskipped(r.value.rest))) else None
  }

  lemma LaterSkip(ts: seq<Token>, k: nat)
    requires k <= |ts| && Unskipped(ts[k..]) != []
    ensures SkipAfterPop(ts[k..]) == SkipAfterPop(ts)
  {
    UnskippedLater(ts, k);
  }

  lemma {:induction false} OnlySkips(ts: seq<Token>)
    requires ts != [] && Unskipped(ts) == []
    ensures ts[|ts| - 1].Skip?
  {
    if |ts| > 1 {
      OnlySkips(ts[1..]);
    }
  }

  /** Decoding the stream without its skips gives the same, except behind a terminal pop. */
  ghost predicate SkipsDrop(ts: seq<Token>, p: Position, mode: Mode, nested: bool, depth: nat) {
    if !nested && SkipAfterPop(ts) then Decode(ts, p, mode, nested, depth).None?
    else Decode(Unskipped(ts), p, mode, nested, depth) == WithoutSkips(Decode(ts, p, mode, nested, depth))
  }

  lemma UnskippedFirst(ts: seq<Token>)
    requires ts != [] && !ts[0].Skip?
    ensures Unskipped(ts) != [] && Unskipped(ts)[0] == ts[0] && Unskipped(ts)[1..] == Unskipped(ts[1..])
  {
  }

  lemma PopDrops(ts: seq<Token>, p: Position, mode: Mode, nested: bool, depth: nat)
    requires ts != [] && ts[0].Pop?
    ensures SkipsDrop(ts, p, mode, nested, depth)
  {
    hide DecodeMove, Fits, MoveNumber;
    UnskippedFirst(ts);
    if ts[1..] != [] && Unskipped(ts[1..]) == [] {
      OnlySkips(ts[1..]);
    }
    hide Unskipped;
  }

  lemma SkipDrops(ts: seq<Token>, p: Position, mode: Mode, nested: bool, depth: nat)
    requires ts != [] && ts[0].Skip? && SkipsDrop(ts[1..], p, mode, nested, depth)
    ensures SkipsDrop(ts, p, mode, nested, depth)
  {
    hide Decode;
    SkipUnfolds(ts, p, mode, nested, depth);
    assert Unskipped(ts) == Unskipped(ts[1..]);
    if Unskipped(ts[1..]) != [] {
      LaterSkip(ts, 1);
    }
  }

  lemma SkipUnfolds(ts: seq<Token>, p: Position, mode: Mode, nested: bool, depth: nat)
    requires ts != [] && ts[0].Skip?
    ensures Decode(ts, p, mode, nested, depth) == Decode(ts[1..], p, mode, nested, depth)
  {
    hide DecodeMove, Fits, MoveNumber;
  }

  lemma PlayDrops(ts: seq<Token>, p: Position, mode: Mode, nested: bool, depth: nat)
    requires ts != [] && ts[0].Play?
    requires var step := DecodeMove(p, ts[0].move);
      step.Some? ==> SkipsDrop(ts[1..], step.value.1, Inside, nested, depth)
    ensures SkipsDrop(ts, p, mode, nested, depth)
  {
    hide DecodeMove, Fits, MoveNumber;
    UnskippedFirst(ts);
    if Unskipped(ts[1..]) != [] {
      LaterSkip(ts, 1);
    }
    hide Unskipped;
  }

  lemma PushUnfolds(ts: seq<Token>, p: Position, mode: Mode, nested: bool, depth: nat)
    requires ts != [] && ts[0].Push?
    ensures Decode(ts, p, mode, nested, depth) ==
      if depth >= MAX_DEPTH || !Fits(p) then None else
      var inner := Decode(ts[1..], p, mode, true, depth + 1);
      if inner.None? || inner.value.moves == [] then None else
      var alt := Decode(inner.value.rest, p, Start, nested, depth);
      if alt.None? then None else Some(Joined(mode, inner.value, alt.value))
  {
    hide DecodeMove, Fits, MoveNumber;
  }

  lemma PushDrops(ts: seq<Token>, p: Position, mode: Mode, nested: bool, depth: nat)
    requires ts != [] && ts[0].Push? && SkipsDrop(ts[1..], p, mode, true, depth + 1)
    requires var inner := Decode(ts[1..], p, mode, true, depth + 1);
      inner.Some? ==> SkipsDrop(inner.value.rest, p, Start, nested, depth)
    ensures SkipsDrop(ts, p, mode, nested, depth)
  {
    UnskippedFirst(ts);
    PushUnfolds(ts, p, mode, nested, depth);
    PushUnfolds(Unskipped(ts), p, mode, nested, depth);
    var inner := Decode(ts[1..], p, mode, true, depth + 1);
    if inner.Some? {
      var k := RestIsLater(ts[1..], p, mode, true, depth + 1);
      LaterTwice(ts, 1, k);
      if Unskipped(ts[1 + k..]) != [] {
        LaterSkip(ts, 1 + k);
      } else {
        NothingStarts(ts[1 + k..], p, nested, depth);
        NothingStarts([], p, nested, depth);
      }
    }
    hide Decode, Unskipped, SkipAfterPop, Fits;
  }

  /** Inside a variation skips change nothing; on the root line only one behind the terminal pop does. */
  lemma {:induction false} SkipsIgnored(ts: seq<Token>, p: Position, mode: Mode, nested: bool, depth: nat)
    ensures SkipsDrop(ts, p, mode, nested, depth)
    decreases |ts|
  {
    if ts != [] {
      match ts[0]
      case Pop => PopDrops(ts, p, mode, nested, depth);
      case Skip =>
        SkipsIgnored(ts[1..], p, mode, nested, depth);
        SkipDrops(ts, p, mode, nested, depth);
      case Play(t) =>
        if DecodeMove(p, t).Some? {
          SkipsIgnored(ts[1..], DecodeMove(p, t).value.1, Inside, nested, depth);
        }
        PlayDrops(ts, p, mode, nested, depth);
      case Push =>
        SkipsIgnored(ts[1..], p, mode, true, depth + 1);
        if Decode(ts[1..], p, mode, true, depth + 1).Some? {
          SkipsIgnored(Decode(ts[1..], p, mode, true, depth + 1).value.rest, p, Start, nested, depth);
        }
        PushDrops(ts, p, mode, nested, depth);
      case Unknown => UnskippedFirst(ts);
    }
  }

  lemma {:induction false} NothingStarts(ts: seq<Token>, p: Position, nested: bool, depth: nat)
    requires Unskipped(ts) == []
    ensures Decode(ts, p, Start, nested, depth).None?
    decreases |ts|
  {
    if ts != [] {
      NothingStarts(ts[1..], p, nested, depth);
    }
  }

  /** A stream with skips decodes to what it does without them, except that nothing may follow the terminal pop. */
  lemma SkipsSayNothing(ts: seq<Token>, p: Position)
    ensures DecodeGame(ts, p) == if SkipAfterPop(ts) then None else DecodeGame(Unskipped(ts), p)
  {
    SkipsIgnored(ts, p, Root, false, 0);
  }

  lemma {:induction false} NoSkipsLeft(ts: seq<Token>)
    ensures forall t :: t in Unskipped(ts) ==> !t.Skip?
  {
    if ts != [] {
      NoSkipsLeft(ts[1..]);
    }
  }

  lemma FirstMoves(ts: seq<Token>, p: Position)
    requires ts != [] && !ts[0].Skip?
    ensures DecodeGame(ts, p) != Some([])
  {
    hide DecodeMove, Fits, MoveNumber;
  }

  /** The only game without moves is the stream that says nothing: not even a terminal pop may stand alone. */
  lemma EmptyGameExactly(ts: seq<Token>, p: Position)
    ensures DecodeGame(ts, p) == Some([]) <==> Unskipped(ts) == []
  {
    SkipsSayNothing(ts, p);
    if Unskipped(ts) != [] {
      NoSkipsLeft(ts);
      assert Unskipped(ts)[0] in Unskipped(ts);
      FirstMoves(Unskipped(ts), p);
    }
  }

  // ----- what a move token puts on the board

  /** The man found on the token's target: the mover's own, or the officer its marker asks for; 6 leaves every man
      alone. */
  lemma MarkersTell(p: Position, t: MoveToken)
    requires Valid(p) && DecodeMove(p, t).Some?
    ensures var q := DecodeMove(p, t).value.1;
      match t.promote
      case 6 => q.board == p.board && q.turn == p.turn.Other()
      case 1 => p.board[t.from] == q.board[t.to] == Man(p.turn, King) && Abs(FileGap(t.from, t.to)) == 2
      case 2 => p.board[t.from] == Man(p.turn, Pawn) && q.board[t.to] == Man(p.turn, Queen)
      case 3 => p.board[t.from] == Man(p.turn, Pawn) && q.board[t.to] == Man(p.turn, Rook)
      case 4 => p.board[t.from] == Man(p.turn, Pawn) && q.board[t.to] == Man(p.turn, Bishop)
      case 5 => p.board[t.from] == Man(p.turn, Pawn) && q.board[t.to] == Man(p.turn, Knight)
      case 7 => Held(p.board, t.from, p.turn) && q.board[t.to] == p.board[t.from]
      case _ => false
  {
    if t.promote != 6 {
      var m :| Picks(p, t, m) && DecodeMove(p, t).value.1 == Apply(p, m);
      LandsAsPlaced(p, m);
      hide DecodeMove, Legal;
    }
  }

  lemma LandsAsPlaced(p: Position, m: Move)
    requires EnPassantHolds(p) && Legal(p, m)
    ensures Held(p.board, m.from, p.turn) && Apply(p, m).board[m.to] == Placed(p.board, m)
    ensures m.promotion.Some? ==> p.board[m.from].kind == Pawn
    ensures m.castle ==> p.board[m.from].kind == King && m.promotion.None? && Abs(FileGap(m.from, m.to)) == 2
  {
    AppliedCell(p, m, m.to);
    PieceShape(p, m);
    hide Pseudo, ApplyBoard;
  }

  lemma PieceShape(p: Position, m: Move)
    requires Pseudo(p, p.turn, m)
    ensures Held(p.board, m.from, p.turn)
    ensures m.promotion.Some? ==> p.board[m.from].kind == Pawn
    ensures m.castle ==> p.board[m.from].kind == King && m.promotion.None? && Abs(FileGap(m.from, m.to)) == 2
  {
    if m.castle {
      CastlingShape(p, p.turn, m);
      var w := WingOf(m.to).value;
      assert w == WINGS[0] || w == WINGS[1] || w == WINGS[2] || w == WINGS[3];
    }
  }
}
