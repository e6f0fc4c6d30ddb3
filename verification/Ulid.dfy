/** The time half of message ids (packages/hub/src/ulid.ts). */
module Ulid {
  import opened Arithmetic

  const ALPHABET: string := "0123456789ABCDEFGHJKMNPQRSTVWXYZ"

  function Pow32(n: nat): (p: nat)
    ensures p > 0
  {
    if n == 0 then 1 else 32 * Pow32(n - 1)
  }

  function Encode(ms: nat, len: nat): (s: string)
    ensures |s| == len
  {
    if len == 0 then "" else Encode(ms / 32, len - 1) + [ALPHABET[ms % 32]]
  }

  method EncodeTime(ms: nat, len: nat) returns (out: string)
    ensures out == Encode(ms, len)
  {
    out := "";
    var left, i := ms, len;
    while i > 0
      invariant 0 <= i <= len
      invariant Encode(left, i) + out == Encode(ms, len)
    {
      var digit := ALPHABET[left % 32];
      assert Encode(left, i) == Encode(left / 32, i - 1) + [digit];
      assert Encode(left, i) + out == Encode(left / 32, i - 1) + ([digit] + out);
      out := [digit] + out;
      left, i := left / 32, i - 1;
    }
  }

  // ----- reading back -----

  predicate Digits(s: string) {
    forall c | c in s :: c in ALPHABET
  }

  function Find(s: string, c: char): (d: nat)
    requires c in s
    ensures d < |s| && s[d] == c
  {
    if s[0] == c then 0 else 1 + Find(s[1..], c)
  }

  function DigitOf(c: char): (d: nat)
    requires c in ALPHABET
    ensures d < 32 && ALPHABET[d] == c
  {
    Find(ALPHABET, c)
  }

  function Decode(s: string): nat
    requires Digits(s)
  {
    if s == "" then 0 else Decode(s[..|s| - 1]) * 32 + DigitOf(s[|s| - 1])
  }

  /** The alphabet ascends, so its digits are distinct and in order. */
  lemma Ascending(i: nat, j: nat)
    requires i < j < 32
    ensures ALPHABET[i] < ALPHABET[j]
  {
    AscendingSteps();
    if i + 1 < j {
      Ascending(i, j - 1);
    }
  }

  lemma AscendingSteps()
    ensures forall k | 0 <= k < 31 :: ALPHABET[k] < ALPHABET[k + 1]
  {
  }

  lemma DigitReadsBack(d: nat)
    requires d < 32
    ensures DigitOf(ALPHABET[d]) == d
  {
    var e := DigitOf(ALPHABET[d]);
    if e < d {
      Ascending(e, d);
    } else if d < e {
      Ascending(d, e);
    }
  }

  lemma {:induction false} EncodesDigits(ms: nat, len: nat)
    ensures Digits(Encode(ms, len))
  {
    if len > 0 {
      EncodesDigits(ms / 32, len - 1);
    }
  }

  lemma ModStep(ms: nat, p: nat)
    requires p > 0
    ensures ms % (32 * p) == 32 * (ms / 32 % p) + ms % 32
  {
    var q, r := ms / 32 / p, ms / 32 % p;
    assert ms / 32 == q * p + r;
    assert ms == q * (32 * p) + (32 * r + ms % 32);
    QuotientIs(ms, 32 * p, q, 32 * r + ms % 32);
  }

  /** The text reads back as the time modulo 32 to the length. */
  lemma {:induction false} ReadsBackModulo(ms: nat, len: nat)
    ensures Digits(Encode(ms, len)) && Decode(Encode(ms, len)) == ms % Pow32(len)
  {
    EncodesDigits(ms, len);
    if len > 0 {
      var s := Encode(ms, len);
      ReadsBackModulo(ms / 32, len - 1);
      assert s[..len - 1] == Encode(ms / 32, len - 1);
      DigitReadsBack(ms % 32);
      ModStep(ms, Pow32(len - 1));
    }
  }

  /** It reads back as the time itself exactly when the time is below 32 to the length. */
  lemma ReadsBackIff(ms: nat, len: nat)
    ensures Digits(Encode(ms, len)) && (Decode(Encode(ms, len)) == ms <==> ms < Pow32(len))
  {
    ReadsBackModulo(ms, len);
    if ms < Pow32(len) {
      QuotientIs(ms, Pow32(len), 0, ms);
    }
  }

  // ----- order -----

  /** Lexicographic order, as string comparison has it. */
  predicate LexLess(a: string, b: string) {
    if b == "" then false
    else if a == "" then true
    else a[0] < b[0] || (a[0] == b[0] && LexLess(a[1..], b[1..]))
  }

  /** Texts of one length compare by everything but the last character first. */
  lemma {:induction false} LexLast(a: string, b: string, x: char, y: char)
    requires |a| == |b|
    ensures LexLess(a + [x], b + [y]) <==> LexLess(a, b) || (a == b && x < y)
  {
    if a == "" {
      assert a + [x] == [x] && b + [y] == [y] && [x][1..] == "" && [y][1..] == "";
    } else {
      assert (a + [x])[1..] == a[1..] + [x] && (b + [y])[1..] == b[1..] + [y];
      LexLast(a[1..], b[1..], x, y);
      assert a == [a[0]] + a[1..] && b == [b[0]] + b[1..];
    }
  }

  lemma {:induction false} LexPrefix(a: string, b: string, x: string, y: string)
    requires |a| == |b| && LexLess(a, b)
    ensures LexLess(a + x, b + y)
  {
    assert (a + x)[1..] == a[1..] + x && (b + y)[1..] == b[1..] + y;
    if a[0] == b[0] {
      LexPrefix(a[1..], b[1..], x, y);
    }
  }

  lemma DigitOrder(d: nat, e: nat)
    requires d < 32 && e < 32
    ensures ALPHABET[d] < ALPHABET[e] <==> d < e
    ensures ALPHABET[d] == ALPHABET[e] <==> d == e
  {
    if d < e {
      Ascending(d, e);
    } else if e < d {
      Ascending(e, d);
    }
  }

  lemma {:induction false} OrderModulo(a: nat, b: nat, len: nat)
    ensures LexLess(Encode(a, len), Encode(b, len)) <==> a % Pow32(len) < b % Pow32(len)
    ensures Encode(a, len) == Encode(b, len) <==> a % Pow32(len) == b % Pow32(len)
  {
    if len > 0 {
      OrderModulo(a / 32, b / 32, len - 1);
      LexLast(Encode(a / 32, len - 1), Encode(b / 32, len - 1), ALPHABET[a % 32], ALPHABET[b % 32]);
      DigitOrder(a % 32, b % 32);
      ModStep(a, Pow32(len - 1));
      ModStep(b, Pow32(len - 1));
      LastEqual(Encode(a / 32, len - 1), Encode(b / 32, len - 1), ALPHABET[a % 32], ALPHABET[b % 32]);
    }
  }

  lemma LastEqual(a: string, b: string, x: char, y: char)
    ensures a + [x] == b + [y] <==> a == b && x == y
  {
    if a + [x] == b + [y] {
      assert (a + [x])[..|a|] == a && (b + [y])[..|b|] == b;
      assert (a + [x])[|a|] == x && (b + [y])[|b|] == y;
    }
  }

  /** Ids sort by time, whatever their random halves: strictly earlier times below 32 to the length
      give strictly smaller text. */
  lemma IdsSortByTime(a: nat, b: nat, len: nat, x: string, y: string)
    requires a < b < Pow32(len)
    ensures LexLess(Encode(a, len) + x, Encode(b, len) + y)
  {
    OrderModulo(a, b, len);
    QuotientIs(a, Pow32(len), 0, a);
    QuotientIs(b, Pow32(len), 0, b);
    LexPrefix(Encode(a, len), Encode(b, len), x, y);
  }
}
