/** `admission_event.py`, `_b64url_decode`: strict base64url (RFC 4648, sections 3.5 and 5) made from
    a lenient decoder and a re-encoding check. */
module Base64Url {
  import opened JsonValue

  type Byte = b: int | 0 <= b < 256

  type Sextet = v: int | 0 <= v < 64

  const PAD := '='

  // ----- the alphabet -----

  function Letter(v: Sextet): char {
    if v < 26 then ('A' as int + v) as char
    else if v < 52 then ('a' as int + v - 26) as char
    else if v < 62 then ('0' as int + v - 52) as char
    else if v == 62 then '-' else '_'
  }

  /** The decoder's table, after `-` and `_` were translated to `+` and `/`. */
  function SextetOf(c: char): Option<Sextet> {
    if 'A' <= c <= 'Z' then Some(c as int - 'A' as int)
    else if 'a' <= c <= 'z' then Some(c as int - 'a' as int + 26)
    else if '0' <= c <= '9' then Some(c as int - '0' as int + 52)
    else if c == '-' || c == '+' then Some(62)
    else if c == '_' || c == '/' then Some(63)
    else None
  }

  lemma LetterRead(v: Sextet)
    ensures SextetOf(Letter(v)) == Some(v) && Letter(v) != PAD && (Letter(v) as int) < 128
    ensures Letter(v) != '+' && Letter(v) != '/'
  {}

  lemma LetterWritten(c: char)
    requires SextetOf(c).Some? && c != '+' && c != '/'
    ensures Letter(SextetOf(c).value) == c
  {}

  // ----- encoding -----

  /** The four sextets of three bytes. */
  function First(a: Byte): Sextet { a / 4 }

  function Second(a: Byte, b: Byte): Sextet { a % 4 * 16 + b / 16 }

  function Third(b: Byte, c: Byte): Sextet { b % 16 * 4 + c / 64 }

  function Fourth(c: Byte): Sextet { c % 64 }

  /** `base64.urlsafe_b64encode`. */
  function Encode(b: seq<Byte>): string {
    if b == [] then []
    else if |b| == 1 then [Letter(First(b[0])), Letter(Second(b[0], 0)), PAD, PAD]
    else if |b| == 2 then
      [Letter(First(b[0])), Letter(Second(b[0], b[1])), Letter(Third(b[1], 0)), PAD]
    else
      [Letter(First(b[0])), Letter(Second(b[0], b[1])), Letter(Third(b[1], b[2])), Letter(Fourth(b[2]))]
      + Encode(b[3..])
  }

  /** `rstrip(b"=")`. */
  function StripPads(s: string): string {
    if s != [] && s[|s| - 1] == PAD then StripPads(s[..|s| - 1]) else s
  }

  function EncodeUnpadded(b: seq<Byte>): string { StripPads(Encode(b)) }

  // ----- decoding -----

  /** `binascii.a2b_base64` outside its strict mode, from some state on: how many sextets of the
      current quad were read, the bits left over from them, and the pads seen since the last
      letter. It skips every character that is not in the alphabet, stops at the pads that close a
      quad, and ignores bits left over there. None is the error for an unfinished quad. */
  function Lenient(s: string, quad: nat, left: nat, pads: nat): Option<seq<Byte>>
    requires quad < 4 && left < (match quad case 0 => 1 case 1 => 64 case 2 => 16 case _ => 4)
  {
    if s == [] then if quad == 0 then Some([]) else None
    else if s[0] == PAD then
      if quad >= 2 then
        if quad + pads + 1 >= 4 then Some([]) else Lenient(s[1..], quad, left, pads + 1)
      else Lenient(s[1..], quad, left, pads)
    else
      match SextetOf(s[0])
      case None => Lenient(s[1..], quad, left, pads)
      case Some(v) =>
        if quad == 0 then Lenient(s[1..], 1, v, 0)
        else if quad == 1 then
          var r :- Lenient(s[1..], 2, v % 16, 0);
          Some([left * 4 + v / 16] + r)
        else if quad == 2 then
          var r :- Lenient(s[1..], 3, v % 4, 0);
          Some([left * 16 + v / 4] + r)
        else
          var r :- Lenient(s[1..], 0, 0, 0);
          Some([left * 64 + v] + r)
  }

  predicate Ascii(s: string) { forall i :: 0 <= i < |s| ==> (s[i] as int) < 128 }

  function Pads(n: nat): string { if n == 0 then [] else [PAD] + Pads(n - 1) }

  /** `"=" * (-len(value) % 4)`. */
  function Missing(s: string): nat { (4 - |s| % 4) % 4 }

  /** `_b64url_decode`; None is the error it raises. */
  function StrictDecode(value: Json): Option<seq<Byte>> {
    if !value.Str? || value.s == [] || PAD in value.s then None
    else if !Ascii(value.s) then None
    else
      var decoded :- Lenient(value.s + Pads(Missing(value.s)), 0, 0, 0);
      if EncodeUnpadded(decoded) != value.s then None else Some(decoded)
  }

  // ----- the codec -----

  function Then(b: Byte, r: Option<seq<Byte>>): Option<seq<Byte>> {
    match r case None => None case Some(bs) => Some([b] + bs)
  }

  lemma ThenEnd(a: Byte, b: Byte)
    ensures Then(b, Some([])) == Some([b]) && Then(a, Some([b])) == Some([a, b])
  {
    assert [b] + [] == [b] && [a] + [b] == [a, b];
  }

  /** Reading one letter in each of the four positions of a quad. */
  lemma FirstLetter(v: Sextet, s: string)
    requires s != [] && s[0] == Letter(v)
    ensures Lenient(s, 0, 0, 0) == Lenient(s[1..], 1, v, 0)
  {
    LetterRead(v);
  }

  lemma SecondLetter(v: Sextet, s: string, left: Sextet)
    requires s != [] && s[0] == Letter(v)
    ensures Lenient(s, 1, left, 0) == Then(left * 4 + v / 16, Lenient(s[1..], 2, v % 16, 0))
  {
    LetterRead(v);
  }

  lemma ThirdLetter(v: Sextet, s: string, left: nat)
    requires s != [] && s[0] == Letter(v) && left < 16
    ensures Lenient(s, 2, left, 0) == Then(left * 16 + v / 4, Lenient(s[1..], 3, v % 4, 0))
  {
    LetterRead(v);
  }

  lemma FourthLetter(v: Sextet, s: string, left: nat)
    requires s != [] && s[0] == Letter(v) && left < 4
    ensures Lenient(s, 3, left, 0) == Then(left * 64 + v, Lenient(s[1..], 0, 0, 0))
  {
    LetterRead(v);
  }

  lemma QuadDecoded(x: Sextet, y: Sextet, z: Sextet, w: Sextet, rest: string)
    ensures Lenient([Letter(x), Letter(y), Letter(z), Letter(w)] + rest, 0, 0, 0)
         == Then(x * 4 + y / 16, Then(y % 16 * 16 + z / 4, Then(z % 4 * 64 + w, Lenient(rest, 0, 0, 0))))
  {
    hide Letter, SextetOf, Lenient;
    var s := [Letter(x), Letter(y), Letter(z), Letter(w)] + rest;
    FirstLetter(x, s);
    SecondLetter(y, s[1..], x);
    ThirdLetter(z, s[1..][1..], y % 16);
    FourthLetter(w, s[1..][1..][1..], z % 4);
    assert s[1..][1..][1..][1..] == rest;
  }

  lemma PadsClose(left: nat)
    requires left < 16
    ensures Lenient([PAD, PAD], 2, left, 0) == Some([])
    ensures left < 4 ==> Lenient([PAD], 3, left, 0) == Some([])
  {
    assert [PAD, PAD][1..] == [PAD];
    assert Lenient([PAD], 2, left, 1) == Some([]);
  }

  /** A last quad of two letters and two pads; the low four bits of the second letter are lost. */
  lemma TwoLetters(x: Sextet, y: Sextet)
    ensures Lenient([Letter(x), Letter(y), PAD, PAD], 0, 0, 0) == Some([x * 4 + y / 16])
  {
    hide Letter, SextetOf, Lenient;
    var s := [Letter(x), Letter(y), PAD, PAD];
    FirstLetter(x, s);
    SecondLetter(y, s[1..], x);
    assert s[1..][1..] == [PAD, PAD];
    PadsClose(y % 16);
    ThenEnd(0, x * 4 + y / 16);
  }

  lemma ThreeLetters(x: Sextet, y: Sextet, z: Sextet)
    ensures Lenient([Letter(x), Letter(y), Letter(z), PAD], 0, 0, 0) == Some([x * 4 + y / 16, y % 16 * 16 + z / 4])
  {
    hide Letter, SextetOf, Lenient;
    var s := [Letter(x), Letter(y), Letter(z), PAD];
    FirstLetter(x, s);
    SecondLetter(y, s[1..], x);
    ThirdLetter(z, s[1..][1..], y % 16);
    assert s[1..][1..][1..] == [PAD];
    PadsClose(z % 4);
    ThenEnd(x * 4 + y / 16, y % 16 * 16 + z / 4);
  }

  /** Three bytes and four sextets hold the same bits. */
  lemma BytesOfSextets(x: Sextet, y: Sextet, z: Sextet, w: Sextet)
    ensures var b0, b1, b2 := x * 4 + y / 16, y % 16 * 16 + z / 4, z % 4 * 64 + w;
      First(b0) == x && Second(b0, b1) == y && Third(b1, b2) == z && Fourth(b2) == w
  {}

  lemma SextetsOfBytes(b0: Byte, b1: Byte, b2: Byte)
    ensures var x, y, z, w := First(b0), Second(b0, b1), Third(b1, b2), Fourth(b2);
      x * 4 + y / 16 == b0 && y % 16 * 16 + z / 4 == b1 && z % 4 * 64 + w == b2
  {}

  lemma {:induction false} DecodeOfEncode(b: seq<Byte>)
    ensures Lenient(Encode(b), 0, 0, 0) == Some(b)
  {
    hide Lenient, Letter;
    if b == [] {
      EmptyDecoded();
    } else if |b| < 3 {
      ShortDecoded(b);
    } else {
      DecodeOfEncode(b[3..]);
      hide Encode;
      GroupDecoded(b);
    }
  }

  lemma ShortDecoded(b: seq<Byte>)
    requires 0 < |b| < 3
    ensures Lenient(Encode(b), 0, 0, 0) == Some(b)
  {
    hide Lenient, Letter, First, Second, Third;
    if |b| == 1 {
      SextetsOfBytes(b[0], 0, 0);
      TwoLetters(First(b[0]), Second(b[0], 0));
      assert b == [b[0]];
    } else {
      SextetsOfBytes(b[0], b[1], 0);
      ThreeLetters(First(b[0]), Second(b[0], b[1]), Third(b[1], 0));
      assert b == [b[0], b[1]];
    }
  }

  lemma GroupDecoded(b: seq<Byte>)
    requires |b| >= 3 && Lenient(Encode(b[3..]), 0, 0, 0) == Some(b[3..])
    ensures Lenient(Encode(b), 0, 0, 0) == Some(b)
  {
    hide Lenient, Letter, First, Second, Third, Fourth;
    ThreeAndMore(b);
    BytesDecoded(b[0], b[1], b[2], Encode(b[3..]));
  }

  lemma ThreeAndMore(b: seq<Byte>)
    requires |b| >= 3
    ensures [b[0]] + ([b[1]] + ([b[2]] + b[3..])) == b
  {}

  lemma BytesDecoded(b0: Byte, b1: Byte, b2: Byte, rest: string)
    ensures Lenient([Letter(First(b0)), Letter(Second(b0, b1)), Letter(Third(b1, b2)), Letter(Fourth(b2))] + rest, 0, 0, 0)
         == Then(b0, Then(b1, Then(b2, Lenient(rest, 0, 0, 0))))
  {
    hide *;
    SextetsOfBytes(b0, b1, b2);
    QuadDecoded(First(b0), Second(b0, b1), Third(b1, b2), Fourth(b2), rest);
  }

  lemma EmptyDecoded()
    ensures Lenient([], 0, 0, 0) == Some([])
  {}

  /** Text that only ends in pads loses exactly those. */
  lemma {:induction false} PadsStripped(s: string, n: nat)
    requires s == [] || s[|s| - 1] != PAD
    ensures StripPads(s + Pads(n)) == s
  {
    if n == 0 {
      assert s + Pads(0) == s;
    } else {
      hide StripPads, Pads;
      PadsStripped(s, n - 1);
      PadsSnoc(n - 1);
      StripLast(s + Pads(n - 1));
      Regroup(s, Pads(n - 1), [PAD]);
    }
  }

  lemma Regroup(a: string, b: string, c: string)
    ensures a + (b + c) == (a + b) + c
  {}

  lemma StripLast(s: string)
    ensures StripPads(s + [PAD]) == StripPads(s)
  {
    var t := s + [PAD];
    assert t[..|t| - 1] == s;
  }

  lemma {:induction false} PadsSnoc(n: nat)
    ensures Pads(n + 1) == Pads(n) + [PAD] && |Pads(n + 1)| == n + 1
  {
    if n > 0 { PadsSnoc(n - 1); }
  }

  predicate IsLetter(c: char) { SextetOf(c).Some? && c != '+' && c != '/' }

  /** The canonical texts: letters of the URL-safe alphabet, in quads, of which the last may be cut
      to two or three letters whose unused low bits are zero. */
  predicate Canonical(v: string) {
    if |v| >= 4 then IsLetter(v[0]) && IsLetter(v[1]) && IsLetter(v[2]) && IsLetter(v[3]) && Canonical(v[4..])
    else if |v| == 3 then IsLetter(v[0]) && IsLetter(v[1]) && IsLetter(v[2]) && SextetOf(v[2]).value % 4 == 0
    else if |v| == 2 then IsLetter(v[0]) && IsLetter(v[1]) && SextetOf(v[1]).value % 16 == 0
    else v == []
  }

  /** The letters that carry the bytes, without pads. */
  function Letters(b: seq<Byte>): string {
    if b == [] then []
    else if |b| == 1 then [Letter(First(b[0])), Letter(Second(b[0], 0))]
    else if |b| == 2 then [Letter(First(b[0])), Letter(Second(b[0], b[1])), Letter(Third(b[1], 0))]
    else
      [Letter(First(b[0])), Letter(Second(b[0], b[1])), Letter(Third(b[1], b[2])), Letter(Fourth(b[2]))]
      + Letters(b[3..])
  }

  lemma {:induction false} LettersCanonical(b: seq<Byte>)
    ensures Canonical(Letters(b)) && (Letters(b) == [] <==> b == [])
  {
    hide Letter, SextetOf, First, Fourth;
    if |b| == 1 {
      LetterRead(First(b[0]));
      LetterRead(Second(b[0], 0));
    } else if |b| == 2 {
      LetterRead(First(b[0]));
      LetterRead(Second(b[0], b[1]));
      LetterRead(Third(b[1], 0));
    } else if |b| > 2 {
      LetterRead(First(b[0]));
      LetterRead(Second(b[0], b[1]));
      LetterRead(Third(b[1], b[2]));
      LetterRead(Fourth(b[2]));
      LettersCanonical(b[3..]);
      assert Letters(b)[4..] == Letters(b[3..]);
    }
  }

  lemma {:induction false} EncodePadsLetters(b: seq<Byte>)
    ensures Encode(b) == Letters(b) + Pads(Missing(Letters(b)))
  {
    if |b| < 3 {
      ShortPadded(b);
    } else {
      EncodePadsLetters(b[3..]);
      var quad := [Letter(First(b[0])), Letter(Second(b[0], b[1])), Letter(Third(b[1], b[2])), Letter(Fourth(b[2]))];
      assert Encode(b) == quad + Encode(b[3..]) && Letters(b) == quad + Letters(b[3..]);
      hide *;
      MissingBehind(quad, Letters(b[3..]));
      Regroup(quad, Letters(b[3..]), Pads(Missing(Letters(b))));
    }
  }

  lemma MissingBehind(quad: string, s: string)
    requires |quad| == 4
    ensures Missing(quad + s) == Missing(s)
  {}

  lemma FewPads()
    ensures Pads(0) == [] && Pads(1) == [PAD] && Pads(2) == [PAD, PAD]
  {}

  lemma {:induction false} ShortPadded(b: seq<Byte>)
    requires |b| < 3
    ensures Encode(b) == Letters(b) + Pads(Missing(Letters(b)))
  {
    hide Letter, First, Second, Third, Fourth, Pads;
    FewPads();
    if |b| == 1 {
      assert |Letters(b)| == 2;
    } else if |b| == 2 {
      assert |Letters(b)| == 3;
    }
  }

  lemma {:induction false} CanonicalNoPad(v: string)
    requires Canonical(v)
    ensures PAD !in v && Ascii(v)
  {
    if |v| >= 4 {
      CanonicalNoPad(v[4..]);
      assert v == [v[0], v[1], v[2], v[3]] + v[4..];
    }
  }

  /** Every canonical text is the encoding of some bytes. */
  lemma {:induction false} CanonicalEncodes(v: string) returns (b: seq<Byte>)
    requires Canonical(v)
    ensures Letters(b) == v
  {
    hide Letter, SextetOf, First, Second, Third, Fourth;
    if v == [] {
      b := [];
    } else {
      var x: int, y: int := SextetOf(v[0]).value, SextetOf(v[1]).value;
      LetterWritten(v[0]);
      LetterWritten(v[1]);
      if |v| == 2 {
        BytesOfSextets(x, y, 0, 0);
        b := [x * 4 + y / 16];
        assert v == [v[0], v[1]];
      } else {
        var z: int := SextetOf(v[2]).value;
        LetterWritten(v[2]);
        if |v| == 3 {
          BytesOfSextets(x, y, z, 0);
          b := [x * 4 + y / 16, y % 16 * 16 + z / 4];
          assert v == [v[0], v[1], v[2]];
        } else {
          var w: int := SextetOf(v[3]).value;
          LetterWritten(v[3]);
          var rest := CanonicalEncodes(v[4..]);
          BytesOfSextets(x, y, z, w);
          b := [x * 4 + y / 16, y % 16 * 16 + z / 4, z % 4 * 64 + w] + rest;
          assert b[3..] == rest;
          assert v == [v[0], v[1], v[2], v[3]] + v[4..];
        }
      }
    }
  }

  lemma UnpaddedLetters(b: seq<Byte>)
    ensures EncodeUnpadded(b) == Letters(b)
  {
    EncodePadsLetters(b);
    LettersCanonical(b);
    CanonicalNoPad(Letters(b));
    PadsStripped(Letters(b), Missing(Letters(b)));
  }

  /** Strict decoding accepts exactly the unpadded encodings of non-empty byte strings, and yields
      the bytes encoded. */
  lemma StrictDecodeExactly(value: Json, b: seq<Byte>)
    ensures StrictDecode(value) == Some(b) <==> b != [] && value == Str(EncodeUnpadded(b))
  {
    hide Lenient, Encode, Letters, Canonical, StripPads;
    if b != [] && value == Str(EncodeUnpadded(b)) {
      UnpaddedLetters(b);
      LettersCanonical(b);
      CanonicalNoPad(Letters(b));
      EncodePadsLetters(b);
      DecodeOfEncode(b);
    }
    if StrictDecode(value) == Some(b) {
      EmptyEncoding();
    }
  }

  lemma EmptyEncoding()
    ensures EncodeUnpadded([]) == []
  {}

  /** Which texts are accepted can be read off the text: the non-empty canonical ones. */
  lemma AcceptedExactly(value: Json)
    ensures StrictDecode(value).Some? <==> value.Str? && value.s != [] && Canonical(value.s)
  {
    hide Lenient, Encode, Letters, Canonical, StripPads, StrictDecode;
    if StrictDecode(value).Some? {
      var b := StrictDecode(value).value;
      StrictDecodeExactly(value, b);
      UnpaddedLetters(b);
      LettersCanonical(b);
    }
    if value.Str? && value.s != [] && Canonical(value.s) {
      var b := CanonicalEncodes(value.s);
      UnpaddedLetters(b);
      LettersCanonical(b);
      StrictDecodeExactly(value, b);
    }
  }

  /** The decoder underneath is not strict: a character outside the alphabet may be put anywhere
      without changing what it yields. */
  lemma {:induction false} LenientSkips(a: string, c: char, z: string, quad: nat, left: nat, pads: nat)
    requires quad < 4 && left < (match quad case 0 => 1 case 1 => 64 case 2 => 16 case _ => 4)
    requires c != PAD && SextetOf(c).None?
    ensures Lenient(a + [c] + z, quad, left, pads) == Lenient(a + z, quad, left, pads)
  {
    hide SextetOf;
    if a == [] {
      assert a + [c] + z == [c] + z && a + z == z;
      assert ([c] + z)[1..] == z;
    } else {
      assert (a + [c] + z)[1..] == a[1..] + [c] + z && (a + z)[1..] == a[1..] + z;
      if a[0] == PAD {
        if quad < 2 {
          LenientSkips(a[1..], c, z, quad, left, pads);
        } else if quad + pads + 1 < 4 {
          LenientSkips(a[1..], c, z, quad, left, pads + 1);
        }
      } else {
        match SextetOf(a[0])
        case None => LenientSkips(a[1..], c, z, quad, left, pads);
        case Some(v) =>
          LenientSkips(a[1..], c, z, (quad + 1) % 4,
            match quad case 0 => v case 1 => v % 16 case 2 => v % 4 case _ => 0, 0);
      }
    }
  }
}
