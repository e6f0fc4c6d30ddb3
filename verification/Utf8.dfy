/** UTF-8 as section 3 of RFC 3629 lays it out, with the decoder's replacement of malformed input:
    each longest prefix that could have begun a character becomes one U+FFFD. */
module Utf8 {
  import opened Sequences

  type Byte = x: int | 0 <= x < 256

  type Scalar = c: int | 0 <= c <= 0x10FFFF && !(0xD800 <= c <= 0xDFFF)

  type Text = seq<Scalar>

  const REPLACEMENT: Scalar := 0xFFFD

  function Width(c: Scalar): (w: nat)
    ensures 1 <= w <= 4
  {
    if c < 0x80 then 1 else if c < 0x800 then 2 else if c < 0x1_0000 then 3 else 4
  }

  function Encode(c: Scalar): (b: seq<Byte>)
    ensures |b| == Width(c)
  {
    if c < 0x80 then [c]
    else if c < 0x800 then [0xC0 + c / 64, 0x80 + c % 64]
    else if c < 0x1_0000 then [0xE0 + c / 4096, 0x80 + c / 64 % 64, 0x80 + c % 64]
    else [0xF0 + c / 262144, 0x80 + c / 4096 % 64, 0x80 + c / 64 % 64, 0x80 + c % 64]
  }

  function EncodeAll(t: Text): seq<Byte> {
    if t == [] then [] else Encode(t[0]) + EncodeAll(t[1..])
  }

  /** `Buffer.byteLength(t, "utf8")`. */
  function ByteLength(t: Text): nat {
    if t == [] then 0 else Width(t[0]) + ByteLength(t[1..])
  }

  predicate Continues(b: Byte) {
    0x80 <= b <= 0xBF
  }

  /** The second bytes allowed after a lead byte of three or four. */
  predicate SecondOk(lead: Byte, b: Byte) {
    if lead == 0xE0 then 0xA0 <= b <= 0xBF
    else if lead == 0xED then 0x80 <= b <= 0x9F
    else if lead == 0xF0 then 0x90 <= b <= 0xBF
    else if lead == 0xF4 then 0x80 <= b <= 0x8F
    else Continues(b)
  }

  /** The six bits a continuation byte carries. */
  function Payload(b: Byte): int {
    b - 0x80
  }

  /** The first character of some bytes, and how many bytes it takes. */
  function DecodeOne(s: seq<Byte>): (r: (Scalar, nat))
    requires s != []
    ensures 1 <= r.1 <= |s|
  {
    var a: int := s[0];
    if a < 0x80 then (a, 1)
    else if 0xC2 <= a <= 0xDF then
      if |s| < 2 || !Continues(s[1]) then (REPLACEMENT, 1)
      else ((a - 0xC0) * 64 + Payload(s[1]), 2)
    else if 0xE0 <= a <= 0xEF then
      if |s| < 2 || !SecondOk(a, s[1]) then (REPLACEMENT, 1)
      else if |s| < 3 || !Continues(s[2]) then (REPLACEMENT, 2)
      else ((a - 0xE0) * 4096 + Payload(s[1]) * 64 + Payload(s[2]), 3)
    else if 0xF0 <= a <= 0xF4 then
      if |s| < 2 || !SecondOk(a, s[1]) then (REPLACEMENT, 1)
      else if |s| < 3 || !Continues(s[2]) then (REPLACEMENT, 2)
      else if |s| < 4 || !Continues(s[3]) then (REPLACEMENT, 3)
      else ((a - 0xF0) * 262144 + Payload(s[1]) * 4096 + Payload(s[2]) * 64 + Payload(s[3]), 4)
    else (REPLACEMENT, 1)
  }

  /** `buf.toString("utf8")`. */
  function Decode(s: seq<Byte>): Text
    decreases |s|
  {
    if s == [] then [] else [DecodeOne(s).0] + Decode(s[DecodeOne(s).1..])
  }

  lemma SplitTwo(c: int)
    requires 0x80 <= c < 0x800
    ensures 2 <= c / 64 < 32 && c == c / 64 * 64 + c % 64
  {
  }

  lemma SplitThree(c: int)
    requires 0x800 <= c < 0x1_0000
    ensures c == c / 4096 * 4096 + c / 64 % 64 * 64 + c % 64 && 0 <= c / 4096 < 16
    ensures c / 4096 == 0 ==> c / 64 % 64 >= 32
    ensures c / 4096 == 13 && c < 0xD800 ==> c / 64 % 64 < 32
  {
    var d := c / 64;
    assert d == d / 64 * 64 + d % 64 && d / 64 == c / 4096;
  }

  lemma SplitFour(c: int)
    requires 0x1_0000 <= c <= 0x10FFFF
    ensures c == c / 262144 * 262144 + c / 4096 % 64 * 4096 + c / 64 % 64 * 64 + c % 64 && 0 <= c / 262144 <= 4
    ensures c / 262144 == 0 ==> c / 4096 % 64 >= 16
    ensures c / 262144 == 4 ==> c / 4096 % 64 < 16
  {
    var d := c / 64;
    var e := d / 64;
    assert e == c / 4096 && e / 64 == c / 262144;
    assert d == e * 64 + d % 64 && e == e / 64 * 64 + e % 64;
  }

  lemma DecodeThree(c: Scalar, rest: seq<Byte>)
    requires 0x800 <= c < 0x1_0000
    ensures DecodeOne(Encode(c) + rest) == (c, 3)
  {
    SplitThree(c);
  }

  lemma DecodeFour(c: Scalar, rest: seq<Byte>)
    requires 0x1_0000 <= c
    ensures DecodeOne(Encode(c) + rest) == (c, 4)
  {
    SplitFour(c);
  }

  lemma DecodeOneEncode(c: Scalar, rest: seq<Byte>)
    ensures DecodeOne(Encode(c) + rest) == (c, Width(c))
  {
    if c < 0x80 {
    } else if c < 0x800 {
      SplitTwo(c);
    } else if c < 0x1_0000 {
      hide DecodeOne, Encode;
      DecodeThree(c, rest);
    } else {
      hide DecodeOne, Encode;
      DecodeFour(c, rest);
    }
  }

  lemma EncodeTwo(a: int, b: int)
    requires 0xC2 <= a <= 0xDF && 0x80 <= b <= 0xBF
    ensures var c := (a - 0xC0) * 64 + (b - 0x80); 0x80 <= c < 0x800 && c / 64 == a - 0xC0 && c % 64 == b - 0x80
  {
  }

  lemma EncodeThree(a: int, b: int, d: int)
    requires 0xE0 <= a <= 0xEF && 0x80 <= b <= 0xBF && 0x80 <= d <= 0xBF
    ensures var c := (a - 0xE0) * 4096 + (b - 0x80) * 64 + (d - 0x80);
            c / 4096 == a - 0xE0 && c / 64 % 64 == b - 0x80 && c % 64 == d - 0x80
  {
    var c := (a - 0xE0) * 4096 + (b - 0x80) * 64 + (d - 0x80);
    assert c / 64 == (a - 0xE0) * 64 + (b - 0x80);
  }

  lemma EncodeFour(a: int, b: int, d: int, e: int)
    requires 0xF0 <= a <= 0xF4 && 0x80 <= b <= 0xBF && 0x80 <= d <= 0xBF && 0x80 <= e <= 0xBF
    ensures var c := (a - 0xF0) * 262144 + (b - 0x80) * 4096 + (d - 0x80) * 64 + (e - 0x80);
            c / 262144 == a - 0xF0 && c / 4096 % 64 == b - 0x80 && c / 64 % 64 == d - 0x80 && c % 64 == e - 0x80
  {
    var c := (a - 0xF0) * 262144 + (b - 0x80) * 4096 + (d - 0x80) * 64 + (e - 0x80);
    assert c / 64 == (a - 0xF0) * 4096 + (b - 0x80) * 64 + (d - 0x80);
    assert c / 4096 == (a - 0xF0) * 64 + (b - 0x80);
  }

  /** Nothing but the encoding of a character is decoded to it: a long form of a short character, a
      surrogate and a number too large become replacements. */
  lemma OnlyEncodingsDecode(s: seq<Byte>)
    requires s != []
    ensures var (c, n) := DecodeOne(s); c != REPLACEMENT ==> s[..n] == Encode(c)
  {
    var (c, n) := DecodeOne(s);
    var a: int := s[0];
    if c != REPLACEMENT && n == 2 {
      EncodeTwo(a, s[1]);
    } else if c != REPLACEMENT && n == 3 {
      EncodeThree(a, s[1], s[2]);
    } else if c != REPLACEMENT && n == 4 {
      EncodeFour(a, s[1], s[2], s[3]);
    }
  }

  lemma DecodeStep(c: Scalar, rest: seq<Byte>)
    ensures Decode(Encode(c) + rest) == [c] + Decode(rest)
  {
    DecodeOneEncode(c, rest);
    assert (Encode(c) + rest)[Width(c)..] == rest;
  }

  /** Decoding undoes encoding, whatever follows. */
  lemma {:induction false} DecodeEncodeAll(t: Text, rest: seq<Byte>)
    ensures Decode(EncodeAll(t) + rest) == t + Decode(rest)
  {
    if t == [] {
      assert EncodeAll(t) + rest == rest;
    } else {
      DecodeEncodeAll(t[1..], rest);
      Assoc(Encode(t[0]), EncodeAll(t[1..]), rest);
      DecodeStep(t[0], EncodeAll(t[1..]) + rest);
      HeadTail(t);
      Assoc([t[0]], t[1..], Decode(rest));
    }
  }

  lemma CharacterCut(c: Scalar, k: nat)
    requires 0 < k < Width(c)
    ensures Decode(Encode(c)[..k]) == [REPLACEMENT]
  {
    var s := Encode(c)[..k];
    if c < 0x800 {
      SplitTwo(c);
    } else if c < 0x1_0000 {
      SplitThree(c);
    } else {
      SplitFour(c);
    }
    assert DecodeOne(s) == (REPLACEMENT, k);
    assert s[k..] == [];
  }

  /** A text cut inside a character decodes to the text before that character and one replacement
      character. */
  lemma DecodeTruncated(t: Text, c: Scalar, k: nat)
    requires 0 < k < Width(c)
    ensures Decode(EncodeAll(t) + Encode(c)[..k]) == t + [REPLACEMENT]
  {
    DecodeEncodeAll(t, Encode(c)[..k]);
    CharacterCut(c, k);
  }

  lemma {:induction false} ByteLengthConcat(a: Text, b: Text)
    ensures ByteLength(a + b) == ByteLength(a) + ByteLength(b)
  {
    if a == [] {
      assert a + b == b;
    } else {
      assert (a + b)[1..] == a[1..] + b;
      ByteLengthConcat(a[1..], b);
    }
  }

  lemma {:induction false} EncodeAllConcat(a: Text, b: Text)
    ensures EncodeAll(a + b) == EncodeAll(a) + EncodeAll(b)
  {
    if a == [] {
      assert a + b == b;
    } else {
      assert (a + b)[1..] == a[1..] + b;
      EncodeAllConcat(a[1..], b);
    }
  }

  lemma EncodeOne(c: Scalar)
    ensures EncodeAll([c]) == Encode(c)
  {
    assert [c][1..] == [] && Encode(c) + [] == Encode(c);
  }

  lemma {:induction false} EncodeAllLength(t: Text)
    ensures |EncodeAll(t)| == ByteLength(t)
  {
    if t != [] {
      EncodeAllLength(t[1..]);
    }
  }

  lemma {:induction false} ByteLengthAtLeast(t: Text)
    ensures ByteLength(t) >= |t|
  {
    if t != [] {
      ByteLengthAtLeast(t[1..]);
    }
  }

  lemma DecodeExactly(t: Text)
    ensures Decode(EncodeAll(t)) == t
  {
    DecodeEncodeAll(t, []);
    assert EncodeAll(t) + [] == EncodeAll(t) && t + Decode([]) == t;
  }

  function Replacements(n: nat): (t: Text)
    ensures |t| == n && forall i | 0 <= i < n :: t[i] == REPLACEMENT
  {
    if n == 0 then [] else [REPLACEMENT] + Replacements(n - 1)
  }

  /** The bytes left over from a character become one replacement character each. */
  lemma {:induction false} DecodeLeftover(s: seq<Byte>, rest: seq<Byte>)
    requires forall i | 0 <= i < |s| :: Continues(s[i])
    ensures Decode(s + rest) == Replacements(|s|) + Decode(rest)
  {
    if s == [] {
      assert s + rest == rest;
    } else {
      DecodeLeftover(s[1..], rest);
      assert (s + rest)[1..] == s[1..] + rest;
      assert DecodeOne(s + rest) == (REPLACEMENT, 1);
      Assoc([REPLACEMENT], Replacements(|s| - 1), Decode(rest));
    }
  }

  lemma EncodeContinues(c: Scalar, k: nat)
    requires 0 < k < Width(c)
    ensures Continues(Encode(c)[k])
  {
  }
}
