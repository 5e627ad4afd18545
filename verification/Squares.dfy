/** Squares as indices 0..63 with a1 = 0, h1 = 7, h8 = 63, and their algebraic names (acs/squares.py). */
module Squares {
  import opened Base
  import Text

  type Square = s: int | 0 <= s < 64

  const FILES := "abcdefgh"
  const RANKS := "12345678"

  function FileOf(s: Square): (f: int)
    ensures 0 <= f < 8
  {
    s % 8
  }

  function RankOf(s: Square): (r: int)
    ensures 0 <= r < 8
  {
    s / 8
  }

  predicate OnBoard(f: int, r: int) {
    0 <= f < 8 && 0 <= r < 8
  }

  function At(f: int, r: int): (s: Square)
    requires OnBoard(f, r)
    ensures FileOf(s) == f && RankOf(s) == r
  {
    r * 8 + f
  }

  predicate IsFile(c: char) {
    'a' <= c <= 'h'
  }

  predicate IsRank(c: char) {
    '1' <= c <= '8'
  }

  function FileChar(f: int): (c: char)
    requires 0 <= f < 8
    ensures IsFile(c) && c as int - 'a' as int == f
  {
    FILES[f]
  }

  function RankChar(r: int): (c: char)
    requires 0 <= r < 8
    ensures IsRank(c) && c as int - '1' as int == r
  {
    RANKS[r]
  }

  /** `square_name`. */
  function Name(s: Square): (t: string)
    ensures |t| == 2 && IsFile(t[0]) && IsRank(t[1])
  {
    [FileChar(FileOf(s)), RankChar(RankOf(s))]
  }

  /** `str.lower` on the only characters that matter here: no other character lowers to a..h. */
  function Lower(c: char): char {
    if 'A' <= c <= 'Z' then (c as int + 32) as char else c
  }

  /** `parse_square` on text. */
  function Parse(text: string): (r: Result<Square>)
    ensures r.Ok? <==> var t := Text.Strip(text); |t| == 2 && IsFile(Lower(t[0])) && IsRank(t[1])
  {
    var t := Text.Strip(text);
    if |t| == 2 && IsFile(Lower(t[0])) && IsRank(Lower(t[1])) then
      Ok((Lower(t[1]) as int - '1' as int) * 8 + (Lower(t[0]) as int - 'a' as int))
    else
      ValueError
  }

  /** The name determines the square, and parsing recovers it. */
  lemma ParseName(s: Square)
    ensures Parse(Name(s)) == Ok(s)
  {
    var t := Name(s);
    assert Text.Strip(t) == t;
  }

  /** `str.lower`. */
  function Lowered(t: string): string {
    seq(|t|, i requires 0 <= i < |t| => Lower(t[i]))
  }

  /** Any accepted text is, stripped and lower-cased, the name of the square it parses to. */
  lemma NameParsed(text: string)
    requires Parse(text).Ok?
    ensures Name(Parse(text).value) == Lowered(Text.Strip(text))
  {
    var t := Text.Strip(text);
    hide Text.Strip, Name, FileChar, RankChar;
    assert Lowered(t)[0] == Lower(t[0]) && Lowered(t)[1] == Lower(t[1]);
    PartsNamed(Lower(t[0]), Lower(t[1]));
  }

  lemma PartsNamed(file: char, rank: char)
    requires IsFile(file) && IsRank(rank)
    ensures Name((rank as int - '1' as int) * 8 + (file as int - 'a' as int)) == [file, rank]
  {
  }

  /** A name as printed parses to the square it names. */
  lemma PrintedParsed(t: string)
    requires |t| == 2 && IsFile(t[0]) && IsRank(t[1])
    ensures Parse(t).Ok? && Name(Parse(t).value) == t
  {
    assert Text.Strip(t) == t;
    NameParsed(t);
  }

  lemma NameInjective(a: Square, b: Square)
    requires Name(a) == Name(b)
    ensures a == b
  {
    ParseName(a);
    ParseName(b);
  }

  lemma NameDiffers(a: Square, b: Square)
    requires a != b
    ensures Name(a) != Name(b)
  {
    ParseName(a);
    ParseName(b);
  }
}
