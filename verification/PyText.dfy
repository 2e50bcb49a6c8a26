/** The Python string operations the repository's parsers are written with. */
module PyText {

  /** `str.isspace` for one character: what `strip()` and `split()` treat as white space. */
  predicate IsSpace(c: char) {
    var n := c as int;
    || 0x09 <= n <= 0x0D || 0x1C <= n <= 0x20 || n == 0x85 || n == 0xA0 || n == 0x1680
    || 0x2000 <= n <= 0x200A || n == 0x2028 || n == 0x2029 || n == 0x202F || n == 0x205F
    || n == 0x3000
  }

  function LStrip(s: string): string {
    if s != [] && IsSpace(s[0]) then LStrip(s[1..]) else s
  }

  function RStrip(s: string): string {
    if s != [] && IsSpace(s[|s| - 1]) then RStrip(s[..|s| - 1]) else s
  }

  function Strip(s: string): string { RStrip(LStrip(s)) }

  /** `s.lstrip(" ")`: ASCII spaces only. */
  function LStripBlanks(s: string): (r: string)
    ensures |r| <= |s|
  {
    if s != [] && s[0] == ' ' then LStripBlanks(s[1..]) else s
  }

  /** Neither end is white space; the empty text included. */
  predicate Trim(s: string) {
    s == [] || (!IsSpace(s[0]) && !IsSpace(s[|s| - 1]))
  }

  lemma StripTrim(s: string)
    requires Trim(s)
    ensures Strip(s) == s && RStrip(s) == s && LStrip(s) == s
  {}

  predicate AllSpace(s: string) { forall i :: 0 <= i < |s| ==> IsSpace(s[i]) }

  /** Stripping takes white space off both ends, and all of it. */
  lemma {:induction false} StripExactly(s: string)
    ensures Trim(Strip(s))
    ensures exists a: string, b: string :: AllSpace(a) && AllSpace(b) && s == a + Strip(s) + b
  {
    var l := LStrip(s);
    var a := LStripped(s);
    var b := RStripped(l);
    assert s == a + Strip(s) + b;
    if Strip(s) != [] { assert Strip(s)[0] == l[0]; }
  }

  lemma {:induction false} LStripped(s: string) returns (a: string)
    ensures AllSpace(a) && s == a + LStrip(s)
    ensures LStrip(s) != [] ==> !IsSpace(LStrip(s)[0])
  {
    hide IsSpace;
    a := [];
    if s != [] && IsSpace(s[0]) {
      var rest := LStripped(s[1..]);
      a := [s[0]] + rest;
    }
  }

  lemma {:induction false} RStripped(s: string) returns (b: string)
    ensures AllSpace(b) && s == RStrip(s) + b
    ensures RStrip(s) != [] ==> !IsSpace(RStrip(s)[|RStrip(s)| - 1])
  {
    hide IsSpace;
    b := [];
    if s != [] && IsSpace(s[|s| - 1]) {
      var rest := RStripped(s[..|s| - 1]);
      b := rest + [s[|s| - 1]];
      assert s == s[..|s| - 1] + [s[|s| - 1]];
    }
  }

  function Blanks(n: nat): (r: string)
    ensures |r| == n && forall c :: c in r ==> c == ' '
  {
    if n == 0 then [] else [' '] + Blanks(n - 1)
  }

  lemma {:induction false} BlanksStripped(n: nat, s: string)
    requires s == [] || s[0] != ' '
    ensures LStripBlanks(Blanks(n) + s) == s
    ensures s != [] && !IsSpace(s[0]) ==> LStrip(Blanks(n) + s) == s
  {
    if n == 0 {
      assert Blanks(0) + s == s;
    } else {
      assert (Blanks(n) + s)[1..] == Blanks(n - 1) + s;
      BlanksStripped(n - 1, s);
    }
  }

  predicate StartsWith(s: string, prefix: string) { prefix <= s }

  // ----- split(c) and join -----

  /** `s.split(c)` for a one-character separator. */
  function SplitOn(s: string, c: char): (r: seq<string>)
    ensures |r| >= 1
    ensures forall x :: x in r ==> c !in x
  {
    if s == [] then [[]]
    else
      var r := SplitOn(s[1..], c);
      if s[0] == c then [[]] + r
      else
        var r' := [[s[0]] + r[0]] + r[1..];
        assert forall x :: x in r' ==> x == [s[0]] + r[0] || x in r;
        r'
  }

  /** `c.join(xs)`. */
  function JoinOn(xs: seq<string>, c: char): string {
    if xs == [] then [] else if |xs| == 1 then xs[0] else xs[0] + [c] + JoinOn(xs[1..], c)
  }

  lemma {:induction false} SplitAtFirst(a: string, b: string, c: char)
    requires c !in a
    ensures SplitOn(a + [c] + b, c) == [a] + SplitOn(b, c)
  {
    if a == [] {
      assert a + [c] + b == [c] + b;
    } else {
      assert (a + [c] + b)[1..] == a[1..] + [c] + b;
      SplitAtFirst(a[1..], b, c);
      assert [a[0]] + a[1..] == a;
    }
  }

  lemma {:induction false} SplitNone(a: string, c: char)
    requires c !in a
    ensures SplitOn(a, c) == [a]
  {
    if a != [] {
      SplitNone(a[1..], c);
      assert [a[0]] + a[1..] == a;
    }
  }

  lemma {:induction false} JoinCons(x: string, xs: seq<string>, c: char)
    requires xs != []
    ensures JoinOn([x] + xs, c) == x + [c] + JoinOn(xs, c)
  {
    assert ([x] + xs)[1..] == xs;
  }

  lemma {:induction false} JoinOfSplit(s: string, c: char)
    ensures JoinOn(SplitOn(s, c), c) == s
  {
    if s != [] {
      JoinOfSplit(s[1..], c);
      var r := SplitOn(s[1..], c);
      if s[0] == c {
        JoinCons([], r, c);
      } else if |r| == 1 {
        assert SplitOn(s, c) == [[s[0]] + r[0]];
      } else {
        assert r == [r[0]] + r[1..];
        JoinCons(r[0], r[1..], c);
        JoinCons([s[0]] + r[0], r[1..], c);
      }
    }
  }

  lemma RegroupTail(a: string, b: string, c: string)
    ensures (a + b) + c == a + (b + c)
  {}

  lemma SplitOfOne(x: string, c: char, tail: string)
    requires c !in x && (tail == [] || tail[0] == c)
    ensures SplitOn(x + tail, c) == [x] + (if tail == [] then [] else SplitOn(tail[1..], c))
  {
    hide SplitOn;
    if tail == [] {
      assert x + tail == x;
      SplitNone(x, c);
    } else {
      assert x + tail == x + [c] + tail[1..];
      SplitAtFirst(x, tail[1..], c);
    }
  }

  /** Splitting undoes joining when no piece holds the separator, whatever follows. */
  lemma {:induction false} SplitOfJoin(xs: seq<string>, c: char, tail: string)
    requires xs != [] && forall x :: x in xs ==> c !in x
    requires tail == [] || tail[0] == c
    ensures SplitOn(JoinOn(xs, c) + tail, c)
         == xs + (if tail == [] then [] else SplitOn(tail[1..], c))
  {
    hide SplitOn;
    assert xs[0] in xs;
    if |xs| == 1 {
      SplitOfOne(xs[0], c, tail);
      assert xs == [xs[0]];
    } else {
      var rest := xs[1..];
      assert xs == [xs[0]] + rest;
      JoinCons(xs[0], rest, c);
      hide JoinOn;
      SplitOfJoin(rest, c, tail);
      RegroupTail(xs[0] + [c], JoinOn(rest, c), tail);
      SplitAtFirst(xs[0], JoinOn(rest, c) + tail, c);
    }
  }

  // ----- decimal numerals -----

  predicate IsDigit(c: char) { '0' <= c <= '9' }

  predicate AllDigits(s: string) { forall i :: 0 <= i < |s| ==> IsDigit(s[i]) }

  /** `str(n)` for n >= 0. */
  function Decimal(n: nat): (r: string)
    ensures r != [] && AllDigits(r)
  {
    var d := ('0' as int + n % 10) as char;
    if n < 10 then [d] else Decimal(n / 10) + [d]
  }

  /** `str(n)`. */
  function IntText(n: int): string { if n < 0 then ['-'] + Decimal(-n) else Decimal(n) }

  /** `int(s)` on a run of ASCII digits. */
  function DigitsValue(s: string): nat
    requires AllDigits(s)
  {
    if s == [] then 0 else 10 * DigitsValue(s[..|s| - 1]) + (s[|s| - 1] as int - '0' as int)
  }

  /** The numeral has no leading zero, so it is the only one of its value without. */
  lemma {:induction false} DecimalValue(n: nat)
    ensures DigitsValue(Decimal(n)) == n
    ensures Decimal(n)[0] == '0' ==> n == 0
  {
    if n >= 10 {
      DecimalValue(n / 10);
      var r := Decimal(n);
      assert r[..|r| - 1] == Decimal(n / 10);
    } else {
      assert Decimal(n)[..0] == [];
    }
  }
}
