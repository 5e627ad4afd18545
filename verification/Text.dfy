/** The text primitives FEN and SAN rest on: whitespace fields, '/'-separated rows, decimal numbers. */
module Text {
  import opened Base

  /** The characters Python's str.split() and str.strip() treat as whitespace. */
  predicate IsSpace(c: char) {
    var n := c as int;
    9 <= n <= 13 || 28 <= n <= 32 || n == 0x85 || n == 0xA0 || n == 0x1680
    || 0x2000 <= n <= 0x200A || n == 0x2028 || n == 0x2029 || n == 0x202F || n == 0x205F || n == 0x3000
  }

  predicate IsDigit(c: char) {
    '0' <= c <= '9'
  }

  ghost predicate NoSpace(s: string) {
    forall c :: c in s ==> !IsSpace(c)
  }

  /** The length of the longest prefix without whitespace. */
  function WordLength(s: string): (n: nat)
    ensures n <= |s|
    ensures NoSpace(s[..n])
    ensures n < |s| ==> IsSpace(s[n])
  {
    if s == [] || IsSpace(s[0]) then 0
    else
      assert s[..1 + WordLength(s[1..])] == [s[0]] + s[1..][..WordLength(s[1..])];
      1 + WordLength(s[1..])
  }

  /** `s.strip().split()`: the maximal runs of non-whitespace, in order. */
  function Words(s: string): (ws: seq<string>)
    ensures forall w :: w in ws ==> w != [] && NoSpace(w)
    decreases |s|
  {
    if s == [] then []
    else if IsSpace(s[0]) then Words(s[1..])
    else
      var n := WordLength(s);
      [s[..n]] + Words(s[n..])
  }

  /** `s.strip()`. */
  function Strip(s: string): string {
    if s == [] then []
    else if IsSpace(s[0]) then Strip(s[1..])
    else if IsSpace(s[|s| - 1]) then Strip(s[..|s| - 1])
    else s
  }

  /** The fields written with one blank between neighbours. */
  function Spaced(ws: seq<string>): string
    requires ws != []
  {
    if |ws| == 1 then ws[0] else ws[0] + " " + Spaced(ws[1..])
  }

  lemma {:induction false} WordLengthOf(w: string, rest: string)
    requires NoSpace(w)
    requires rest != [] ==> IsSpace(rest[0])
    ensures WordLength(w + rest) == |w|
  {
    if w == [] {
      assert w + rest == rest;
    } else {
      assert w[0] in w;
      assert (w + rest)[1..] == w[1..] + rest;
      WordLengthOf(w[1..], rest);
    }
  }

  /** Splitting undoes joining: non-empty fields without whitespace come back unchanged. */
  lemma {:induction false} WordsOfSpaced(ws: seq<string>)
    requires ws != []
    requires forall w :: w in ws ==> w != [] && NoSpace(w)
    ensures Words(Spaced(ws)) == ws
  {
    assert ws[0] in ws && ws[0][0] in ws[0];
    if |ws| == 1 {
      WordLengthOf(ws[0], []);
      assert ws[0] + [] == ws[0];
    } else {
      var rest := " " + Spaced(ws[1..]);
      WordLengthOf(ws[0], rest);
      assert Spaced(ws) == ws[0] + rest;
      assert (ws[0] + rest)[|ws[0]|..] == rest;
      assert rest[1..] == Spaced(ws[1..]);
      forall w | w in ws[1..]
        ensures w != [] && NoSpace(w)
      {
        assert w in ws;
      }
      WordsOfSpaced(ws[1..]);
    }
  }

  /** `s.split(sep)` for a one-character separator: never empty, may hold empty pieces. */
  function SplitOn(s: string, sep: char): (ps: seq<string>)
    ensures ps != []
  {
    if s == [] then [[]]
    else if s[0] == sep then [[]] + SplitOn(s[1..], sep)
    else
      var ps := SplitOn(s[1..], sep);
      [[s[0]] + ps[0]] + ps[1..]
  }

  function JoinWith(ps: seq<string>, sep: char): string
    requires ps != []
  {
    if |ps| == 1 then ps[0] else ps[0] + [sep] + JoinWith(ps[1..], sep)
  }

  lemma {:induction false} SplitHead(p: string, s: string, sep: char)
    requires sep !in p
    ensures SplitOn(p + s, sep) == [p + SplitOn(s, sep)[0]] + SplitOn(s, sep)[1..]
  {
    if p == [] {
      assert p + s == s;
      assert p + SplitOn(s, sep)[0] == SplitOn(s, sep)[0];
    } else {
      assert (p + s)[1..] == p[1..] + s;
      SplitHead(p[1..], s, sep);
      assert [p[0]] + (p[1..] + SplitOn(s, sep)[0]) == p + SplitOn(s, sep)[0];
    }
  }

  lemma {:induction false} SplitOfJoin(ps: seq<string>, sep: char)
    requires ps != []
    requires forall p :: p in ps ==> sep !in p
    ensures SplitOn(JoinWith(ps, sep), sep) == ps
  {
    assert ps[0] in ps;
    if |ps| == 1 {
      SplitHead(ps[0], [], sep);
      assert ps[0] + [] == ps[0];
    } else {
      var rest := JoinWith(ps[1..], sep);
      SplitHead(ps[0], [sep] + rest, sep);
      assert ([sep] + rest)[1..] == rest;
      SplitOfJoin(ps[1..], sep);
      assert JoinWith(ps, sep) == ps[0] + ([sep] + rest);
      assert ps[0] + [] == ps[0];
    }
  }

  /** Joining undoes splitting. */
  lemma {:induction false} JoinOfSplit(s: string, sep: char)
    ensures JoinWith(SplitOn(s, sep), sep) == s
  {
    if s != [] {
      JoinOfSplit(s[1..], sep);
      var ps := SplitOn(s[1..], sep);
      assert s == [s[0]] + s[1..];
      if s[0] == sep {
        assert ([[]] + ps)[1..] == ps;
      } else {
        assert ([[s[0]] + ps[0]] + ps[1..])[1..] == ps[1..];
      }
    }
  }

  lemma SpacedLength(f: seq<string>)
    requires |f| == 6
    ensures |Spaced(f)| == |f[0]| + |f[1]| + |f[2]| + |f[3]| + |f[4]| + |f[5]| + 5
  {
    assert |Spaced(f)| == |f[0]| + 1 + |Spaced(f[1..])|;
    assert |Spaced(f[1..])| == |f[1]| + 1 + |Spaced(f[1..][1..])|;
    assert f[1..][1..] == f[2..] && f[2..][1..] == f[3..] && f[3..][1..] == f[4..] && f[4..][1..] == f[5..];
    assert |Spaced(f[2..])| == |f[2]| + 1 + |Spaced(f[3..])|;
    assert |Spaced(f[3..])| == |f[3]| + 1 + |Spaced(f[4..])|;
    assert |Spaced(f[4..])| == |f[4]| + 1 + |Spaced(f[5..])|;
    assert Spaced(f[5..]) == f[5];
  }

  /** Fields written with single blanks take no more room than the text they were split from. */
  lemma {:induction false} SpacedWordsShort(s: string)
    requires Words(s) != []
    ensures |Spaced(Words(s))| <= |s|
    decreases |s|
  {
    if IsSpace(s[0]) {
      SpacedWordsShort(s[1..]);
    } else {
      var n := WordLength(s);
      var rest := Words(s[n..]);
      assert Words(s)[1..] == rest;
      if rest != [] {
        assert s[n..] != [] && Words(s[n..]) == Words(s[n..][1..]);
        SpacedWordsShort(s[n..][1..]);
      }
    }
  }

  lemma {:induction false} StripShort(s: string)
    ensures |Strip(s)| <= |s|
  {
    if s != [] {
      if IsSpace(s[0]) {
        StripShort(s[1..]);
      } else if IsSpace(s[|s| - 1]) {
        StripShort(s[..|s| - 1]);
      }
    }
  }

  // ----- decimal numbers

  function DigitOf(c: char): (d: nat)
    requires IsDigit(c)
    ensures d < 10
  {
    c as int - '0' as int
  }

  function DigitChar(d: nat): (c: char)
    requires d < 10
    ensures IsDigit(c) && DigitOf(c) == d
  {
    "0123456789"[d]
  }

  /** `str(n)` for n >= 0. */
  function Decimal(n: nat): (s: string)
    ensures s != [] && forall c :: c in s ==> IsDigit(c)
  {
    if n < 10 then [DigitChar(n)] else Decimal(n / 10) + [DigitChar(n % 10)]
  }

  predicate AllDigits(s: string) {
    forall c :: c in s ==> IsDigit(c)
  }

  /** `int(s)` for a text of ASCII decimal digits. */
  function Number(s: string): nat
    requires AllDigits(s)
  {
    if s == [] then 0 else 10 * Number(s[..|s| - 1]) + DigitOf(s[|s| - 1])
  }

  lemma {:induction false} NumberOfDecimal(n: nat)
    ensures Number(Decimal(n)) == n
  {
    if n >= 10 {
      NumberOfDecimal(n / 10);
      assert Decimal(n)[..|Decimal(n)| - 1] == Decimal(n / 10);
    }
  }

  lemma {:induction false} DecimalGrows(n: nat)
    ensures |Decimal(n)| <= |Decimal(n + 1)| <= |Decimal(n)| + 1
  {
    if n >= 10 {
      if n % 10 == 9 {
        assert (n + 1) / 10 == n / 10 + 1;
        DecimalGrows(n / 10);
      } else {
        assert (n + 1) / 10 == n / 10;
      }
    }
  }

  lemma {:induction false} DecimalMonotone(m: nat, n: nat)
    requires m <= n
    ensures |Decimal(m)| <= |Decimal(n)|
    decreases n
  {
    if m >= 10 {
      assert m / 10 <= n / 10;
      DecimalMonotone(m / 10, n / 10);
    }
  }

  /** Canonical decimal text is the shortest text of its number. */
  lemma {:induction false} DecimalShortest(s: string)
    requires AllDigits(s) && s != []
    ensures |Decimal(Number(s))| <= |s|
  {
    if |s| == 1 {
      assert s[..0] == [];
    } else {
      DecimalShortest(s[..|s| - 1]);
    }
  }

  function Pow10(n: nat): (p: nat)
    ensures p >= 1
  {
    if n == 0 then 1 else 10 * Pow10(n - 1)
  }

  lemma {:induction false} DecimalOfPow10(n: nat)
    ensures |Decimal(Pow10(n))| == n + 1
    ensures n > 0 ==> |Decimal(Pow10(n) - 1)| == n
  {
    if n > 0 {
      DecimalOfPow10(n - 1);
      var p := Pow10(n - 1);
      assert (10 * p) / 10 == p && (10 * p - 1) / 10 == p - 1;
    }
  }
}
