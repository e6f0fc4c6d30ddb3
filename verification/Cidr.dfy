/** Address blocks (packages/hub/src/proxy.ts): the masked byte loop of `inCidr` against equality of
    integer prefixes. */
module Cidr {
  import opened Arithmetic
  import opened Utf8

  datatype Address = Address(v6: bool, bytes: seq<Byte>) {
    ghost predicate Valid() {
      |bytes| == if v6 then 16 else 4
    }
  }

  datatype Block = Block(v6: bool, bits: nat, bytes: seq<Byte>) {
    ghost predicate Valid() {
      |bytes| == (if v6 then 16 else 4) && bits <= 8 * |bytes|
    }
  }

  // ----- bits -----

  /** Bitwise and. */
  function BitAnd(a: nat, b: nat): nat {
    if a == 0 || b == 0 then 0 else 2 * BitAnd(a / 2, b / 2) + (a % 2) * (b % 2)
  }

  /** `n` ones followed by `low` zeros. */
  function HighMask(n: nat, low: nat): (m: nat)
    ensures m == Pow2(n + low) - Pow2(low)
  {
    if low == 0 then Pow2(n) - 1 else 2 * HighMask(n, low - 1)
  }

  /** The last `n` bits. */
  function LowBits(a: nat, n: nat): nat {
    if n == 0 then 0 else 2 * LowBits(a / 2, n - 1) + a % 2
  }

  lemma {:induction false} LowBitsAre(a: nat, n: nat)
    ensures LowBits(a, n) == a % Pow2(n)
  {
    if n > 0 {
      LowBitsAre(a / 2, n - 1);
      ModTwice(a, Pow2(n - 1));
    }
  }

  lemma {:induction false} AndLowMask(a: nat, n: nat)
    ensures BitAnd(a, Pow2(n) - 1) == LowBits(a, n)
  {
    if n > 0 {
      AndLowMask(a / 2, n - 1);
      assert (Pow2(n) - 1) / 2 == Pow2(n - 1) - 1 && (Pow2(n) - 1) % 2 == 1;
    }
  }

  lemma {:induction false} LowBitsOfSmall(a: nat, n: nat)
    requires a < Pow2(n)
    ensures LowBits(a, n) == a
  {
    if n > 0 {
      LowBitsOfSmall(a / 2, n - 1);
    }
  }

  /** And with a high mask drops the low bits. */
  lemma {:induction false} AndHighMask(a: nat, n: nat, low: nat)
    requires a < Pow2(n + low)
    ensures BitAnd(a, HighMask(n, low)) == a - LowBits(a, low)
  {
    if low == 0 {
      AndLowMask(a, n);
      LowBitsOfSmall(a, n);
    } else {
      assert a / 2 < Pow2(n + (low - 1));
      AndHighMask(a / 2, n, low - 1);
      AndEven(a, HighMask(n, low - 1));
    }
  }

  lemma AndEven(a: nat, m: nat)
    ensures BitAnd(a, 2 * m) == 2 * BitAnd(a / 2, m)
  {
    assert 2 * m / 2 == m && 2 * m % 2 == 0;
  }

  /** `(0xff << (8 - take)) & 0xff`, and plain `0xff` for a whole byte. */
  function Mask(take: nat): nat
    requires 1 <= take <= 8
  {
    if take == 8 then 0xff else BitAnd(0xff * Pow2(8 - take), 0xff)
  }

  lemma Pow2Values()
    ensures Pow2(0) == 1 && Pow2(1) == 2 && Pow2(2) == 4 && Pow2(3) == 8 && Pow2(4) == 16
    ensures Pow2(5) == 32 && Pow2(6) == 64 && Pow2(7) == 128 && Pow2(8) == 256
  {
  }

  lemma OnesShifted(k: nat)
    requires 1 <= k <= 7
    ensures 0xff * Pow2(k) % 256 == 256 - Pow2(k)
  {
    Pow2Values();
    hide Pow2;
  }

  lemma MaskIs(take: nat)
    requires 1 <= take <= 8
    ensures Mask(take) == HighMask(take, 8 - take)
  {
    assert Pow2(8) == 256 && Pow2(0) == 1 by { Pow2Values(); }
    hide Pow2, BitAnd, HighMask, LowBits;
    if take < 8 {
      AndLowMask(0xff * Pow2(8 - take), 8);
      LowBitsAre(0xff * Pow2(8 - take), 8);
      OnesShifted(8 - take);
    }
  }

  lemma RoundedDown(a: nat, b: nat, p: nat)
    requires p > 0
    ensures a - a % p == b - b % p <==> a / p == b / p
  {
    if a - a % p == b - b % p {
      assert a == (a / p) * p + a % p && b == (b / p) * p + b % p;
      QuotientIs((a / p) * p, p, b / p, 0);
      QuotientIs((a / p) * p, p, a / p, 0);
    }
  }

  /** The leading bits of a byte, as a number. */
  function Top(b: Byte, take: nat): int
    requires take <= 8
  {
    b / Pow2(8 - take)
  }

  /** Masked bytes agree exactly when their leading bits do. */
  lemma MaskedByte(a: Byte, b: Byte, take: nat)
    requires 1 <= take <= 8
    ensures BitAnd(a, Mask(take)) == BitAnd(b, Mask(take)) <==> Top(a, take) == Top(b, take)
  {
    hide Mask, BitAnd, Pow2, HighMask;
    MaskIs(take);
    assert Pow2(take + (8 - take)) == 256 by { Pow2Values(); }
    AndHighMask(a, take, 8 - take);
    AndHighMask(b, take, 8 - take);
    LowBitsAre(a, 8 - take);
    LowBitsAre(b, 8 - take);
    RoundedDown(a, b, Pow2(8 - take));
  }

  // ----- addresses as integers -----

  function Value(bytes: seq<Byte>): nat {
    if bytes == [] then 0 else Value(bytes[..|bytes| - 1]) * 256 + bytes[|bytes| - 1]
  }

  /** The address, read as an integer, without its last `drop` bits. */
  function Lead(bytes: seq<Byte>, drop: nat): int {
    Value(bytes) / Pow2(drop)
  }

  /** The two addresses, read as integers, agree in their first `bits` bits. */
  predicate SamePrefix(a: seq<Byte>, b: seq<Byte>, bits: nat)
    requires |a| == |b| && bits <= 8 * |a|
  {
    Lead(a, 8 * |a| - bits) == Lead(b, 8 * |a| - bits)
  }

  lemma {:induction false} ValueInjective(a: seq<Byte>, b: seq<Byte>)
    requires |a| == |b|
    ensures Value(a) == Value(b) <==> a == b
  {
    if a != [] {
      ValueInjective(a[..|a| - 1], b[..|b| - 1]);
      assert a == a[..|a| - 1] + [a[|a| - 1]] && b == b[..|b| - 1] + [b[|b| - 1]];
    }
  }

  lemma DropByte(x: nat, y: Byte, p: nat)
    requires p > 0
    ensures (x * 256 + y) / (256 * p) == x / p
  {
    var q, r := x / p, x % p;
    assert x * 256 == (q * p) * 256 + r * 256;
    assert (q * p) * 256 == q * (256 * p);
    QuotientIs(x * 256 + y, 256 * p, q, r * 256 + y);
  }

  lemma Pow2Byte(n: nat)
    ensures Pow2(n + 8) == 256 * Pow2(n)
  {
    Pow2Values();
    assert Pow2(n + 8) == 2 * Pow2(n + 7) && Pow2(n + 7) == 2 * Pow2(n + 6) && Pow2(n + 6) == 2 * Pow2(n + 5);
    assert Pow2(n + 5) == 2 * Pow2(n + 4) && Pow2(n + 4) == 2 * Pow2(n + 3) && Pow2(n + 3) == 2 * Pow2(n + 2);
    assert Pow2(n + 2) == 2 * Pow2(n + 1) && Pow2(n + 1) == 2 * Pow2(n);
  }

  /** A prefix that ends before the last byte does not see it. */
  lemma PrefixInit(a: seq<Byte>, b: seq<Byte>, bits: nat)
    requires |a| == |b| > 0 && bits <= 8 * (|a| - 1)
    ensures SamePrefix(a, b, bits) <==> SamePrefix(a[..|a| - 1], b[..|b| - 1], bits)
  {
    var n := |a| - 1;
    Pow2Byte(8 * n - bits);
    assert 8 * |a| - bits == (8 * n - bits) + 8;
    DropByte(Value(a[..n]), a[n], Pow2(8 * n - bits));
    DropByte(Value(b[..n]), b[n], Pow2(8 * n - bits));
    hide Pow2;
  }

  lemma ShiftLast(x: nat, y: Byte, take: nat)
    requires 1 <= take <= 8
    ensures (x * 256 + y) / Pow2(8 - take) == x * Pow2(take) + Top(y, take)
    ensures 0 <= Top(y, take) < Pow2(take)
  {
    Pow2Values();
    hide Pow2;
  }

  lemma SplitEqual(x: nat, y: nat, u: nat, v: nat, p: nat)
    requires u < p && v < p
    ensures x * p + u == y * p + v <==> x == y && u == v
  {
    if x * p + u == y * p + v {
      QuotientIs(x * p + u, p, x, u);
      QuotientIs(y * p + v, p, y, v);
    }
  }

  /** A prefix that ends inside the last byte: the other bytes are equal and so are its leading bits. */
  lemma PrefixLast(a: seq<Byte>, b: seq<Byte>, take: nat)
    requires |a| == |b| > 0 && 1 <= take <= 8
    ensures SamePrefix(a, b, 8 * (|a| - 1) + take) <==>
              a[..|a| - 1] == b[..|b| - 1] && Top(a[|a| - 1], take) == Top(b[|b| - 1], take)
  {
    var n := |a| - 1;
    hide Pow2, Value, Lead, Top;
    LastQuotient(a, take);
    LastQuotient(b, take);
    ValueInjective(a[..n], b[..n]);
    SplitEqual(Value(a[..n]), Value(b[..n]), Top(a[n], take), Top(b[n], take), Pow2(take));
    assert 8 * |a| - (8 * n + take) == 8 - take;
  }

  lemma LastQuotient(a: seq<Byte>, take: nat)
    requires a != [] && 1 <= take <= 8
    ensures Lead(a, 8 - take) == Value(a[..|a| - 1]) * Pow2(take) + Top(a[|a| - 1], take)
    ensures 0 <= Top(a[|a| - 1], take) < Pow2(take)
  {
    var n := |a| - 1;
    assert Value(a) == Value(a[..n]) * 256 + a[n];
    hide Pow2, Value, Top;
    ShiftLast(Value(a[..n]), a[n], take);
  }

  /** A prefix is decided by the whole bytes it covers and the leading bits of the next. */
  lemma {:induction false} PrefixBytes(a: seq<Byte>, b: seq<Byte>, i: nat, take: nat)
    requires |a| == |b| && i < |a| && 1 <= take <= 8
    ensures SamePrefix(a, b, 8 * i + take) <==>
              a[..i] == b[..i] && Top(a[i], take) == Top(b[i], take)
    decreases |a|
  {
    hide Pow2, SamePrefix;
    var n := |a| - 1;
    if i == n {
      PrefixLast(a, b, take);
    } else {
      PrefixInit(a, b, 8 * i + take);
      PrefixBytes(a[..n], b[..n], i, take);
      assert a[..n][..i] == a[..i] && b[..n][..i] == b[..i];
    }
  }

  lemma {:induction false} Pow2Add(m: nat, n: nat)
    ensures Pow2(m + n) == Pow2(m) * Pow2(n)
  {
    if n > 0 {
      Pow2Add(m, n - 1);
      Doubled(Pow2(m), Pow2(n - 1));
    }
  }

  /** A shorter prefix agrees wherever a longer one does. */
  lemma PrefixMonotone(a: seq<Byte>, b: seq<Byte>, bits: nat, fewer: nat)
    requires |a| == |b| && fewer <= bits <= 8 * |a| && SamePrefix(a, b, bits)
    ensures SamePrefix(a, b, fewer)
  {
    var p, q := Pow2(8 * |a| - bits), Pow2(bits - fewer);
    Pow2Add(8 * |a| - bits, bits - fewer);
    assert 8 * |a| - fewer == (8 * |a| - bits) + (bits - fewer);
    DivTrans(Value(a), p, q);
    DivTrans(Value(b), p, q);
    hide Pow2, Value;
  }

  // ----- membership -----

  const MAPPED_PREFIX: seq<Byte> := [0, 0, 0, 0, 0, 0, 0, 0, 0, 0, 0xff, 0xff]

  function Mapped(v4: seq<Byte>): seq<Byte> {
    MAPPED_PREFIX + v4
  }

  /** What membership means: the same family, or a v4 address taken as its mapped v6 form, and equal
      integer prefixes. */
  ghost predicate Within(a: Address, c: Block)
    requires a.Valid() && c.Valid()
  {
    if a.v6 == c.v6 then SamePrefix(a.bytes, c.bytes, c.bits)
    else !a.v6 && SamePrefix(Mapped(a.bytes), c.bytes, c.bits)
  }

  method Promote(v4: seq<Byte>) returns (bytes: seq<Byte>)
    requires |v4| == 4
    ensures bytes == Mapped(v4)
  {
    var promoted := new Byte[16](_ => 0);
    promoted[10], promoted[11] := 0xff, 0xff;
    var i := 0;
    while i < 4
      invariant 0 <= i <= 4
      invariant promoted[..12] == MAPPED_PREFIX && promoted[12..12 + i] == v4[..i]
    {
      promoted[12 + i] := v4[i];
      i := i + 1;
    }
    bytes := promoted[..];
    assert bytes == promoted[..12] + promoted[12..16];
  }

  method InCidr(a: Address, c: Block) returns (r: bool)
    requires a.Valid() && c.Valid()
    ensures r <==> Within(a, c)
    decreases c.v6 && !a.v6
  {
    hide SamePrefix, BitAnd, Mask, Mapped;
    if a.v6 != c.v6 {
      if !a.v6 && c.v6 {
        var promoted := Promote(a.bytes);
        assert |promoted| == 16 by { MappedLength(a.bytes); }
        r := InCidr(Address(true, promoted), c);
        return;
      }
      return false;
    }
    var bits, i := c.bits, 0;
    assert bits == 0 ==> SamePrefix(a.bytes, c.bytes, 0) by { NoBits(a.bytes, c.bytes); }
    while bits > 0
      invariant 0 <= i <= |a.bytes| && 0 <= bits
      invariant bits > 0 ==> bits == c.bits - 8 * i && a.bytes[..i] == c.bytes[..i]
      invariant bits == 0 ==> SamePrefix(a.bytes, c.bytes, c.bits)
    {
      var take := if bits >= 8 then 8 else bits;
      var mask := Mask(take);
      CompareByte(a.bytes, c.bytes, c.bits, i);
      if BitAnd(a.bytes[i], mask) != BitAnd(c.bytes[i], mask) {
        return false;
      }
      bits := bits - take;
      i := i + 1;
    }
    return true;
  }

  lemma MappedLength(v4: seq<Byte>)
    ensures |Mapped(v4)| == 12 + |v4|
  {
  }

  lemma NoBits(a: seq<Byte>, b: seq<Byte>)
    requires |a| == |b|
    ensures SamePrefix(a, b, 0)
  {
    ValueBound(a);
    ValueBound(b);
    hide Pow2, Value;
    DivSmall(Value(a), Pow2(8 * |a|));
    DivSmall(Value(b), Pow2(8 * |a|));
  }

  /** One turn of the loop: after `i` equal bytes, a difference under the mask decides against, and
      none carries the equality over this byte, or ends the comparison. */
  lemma CompareByte(a: seq<Byte>, b: seq<Byte>, bits: nat, i: nat)
    requires |a| == |b| && 8 * i < bits <= 8 * |a| && a[..i] == b[..i]
    ensures var take := if bits - 8 * i >= 8 then 8 else bits - 8 * i;
            var same := BitAnd(a[i], Mask(take)) == BitAnd(b[i], Mask(take));
            && (!same ==> !SamePrefix(a, b, bits))
            && (same && 8 * i + take == bits ==> SamePrefix(a, b, bits))
            && (same && 8 * i + take < bits ==> a[..i + 1] == b[..i + 1])
  {
    hide SamePrefix, BitAnd, Mask;
    var take := if bits - 8 * i >= 8 then 8 else bits - 8 * i;
    MaskedByte(a[i], b[i], take);
    PrefixBytes(a, b, i, take);
    if SamePrefix(a, b, bits) {
      PrefixMonotone(a, b, bits, 8 * i + take);
    }
    if take == 8 {
      assert Pow2(8 - take) == 1 && a[..i + 1] == a[..i] + [a[i]] && b[..i + 1] == b[..i] + [b[i]];
    }
  }

  method IsTrusted(a: Address, blocks: seq<Block>) returns (r: bool)
    requires a.Valid() && forall c | c in blocks :: c.Valid()
    ensures r <==> exists c :: c in blocks && Within(a, c)
  {
    var i := 0;
    while i < |blocks|
      invariant 0 <= i <= |blocks|
      invariant forall j | 0 <= j < i :: !Within(a, blocks[j])
    {
      var hit := InCidr(a, blocks[i]);
      if hit { return true; }
      i := i + 1;
    }
    return false;
  }

  // ----- consequences -----

  /** A block of shorter prefix over the same bytes holds every address of a longer one. */
  lemma ShorterHoldsMore(a: Address, c: Block, fewer: nat)
    requires a.Valid() && c.Valid() && fewer <= c.bits && Within(a, c)
    ensures Within(a, c.(bits := fewer))
  {
    PrefixMonotone(if a.v6 == c.v6 then a.bytes else Mapped(a.bytes), c.bytes, c.bits, fewer);
  }

  /** The whole length holds the one address, the empty prefix every address of the family. */
  lemma ExtremeBlocks(a: Address, c: Block)
    requires a.Valid() && c.Valid() && a.v6 == c.v6
    ensures c.bits == 8 * |c.bytes| ==> (Within(a, c) <==> a.bytes == c.bytes)
    ensures c.bits == 0 ==> Within(a, c)
  {
    ValueInjective(a.bytes, c.bytes);
    assert Pow2(0) == 1;
    NoBits(a.bytes, c.bytes);
    hide Pow2, Value;
  }

  lemma {:induction false} ValueBound(a: seq<Byte>)
    ensures Value(a) < Pow2(8 * |a|)
  {
    if a != [] {
      ValueBound(a[..|a| - 1]);
      Pow2Byte(8 * (|a| - 1));
      assert 8 * |a| == 8 * (|a| - 1) + 8;
      hide Pow2;
    }
  }

  /** A v4 address is in the mapped form of a v4 block exactly when it is in that block. */
  lemma MappedBlock(a: Address, c: Block)
    requires a.Valid() && c.Valid() && !a.v6 && !c.v6
    ensures Within(a, Block(true, 96 + c.bits, Mapped(c.bytes))) <==> Within(a, c)
  {
    if c.bits == 0 {
      ExtremeBlocks(a, c);
      PrefixBytes(Mapped(a.bytes), Mapped(c.bytes), 11, 8);
      assert Mapped(a.bytes)[..11] == MAPPED_PREFIX[..11] == Mapped(c.bytes)[..11];
    } else {
      var i, take := (c.bits - 1) / 8, (c.bits - 1) % 8 + 1;
      assert c.bits == 8 * i + take && 96 + c.bits == 8 * (12 + i) + take;
      PrefixBytes(a.bytes, c.bytes, i, take);
      PrefixBytes(Mapped(a.bytes), Mapped(c.bytes), 12 + i, take);
      assert Mapped(a.bytes)[..12 + i] == MAPPED_PREFIX + a.bytes[..i];
      assert Mapped(c.bytes)[..12 + i] == MAPPED_PREFIX + c.bytes[..i];
      assert (MAPPED_PREFIX + a.bytes[..i])[12..] == a.bytes[..i] && (MAPPED_PREFIX + c.bytes[..i])[12..] == c.bytes[..i];
    }
  }

  /** Mapping goes one way: a v4 address matches a v6 block exactly when its mapped form does, while
      a mapped v6 address matches no v4 block, not even the one that holds the address it maps. */
  lemma MappingIsOneWay(a: Address, c: Block)
    requires a.Valid() && c.Valid() && !a.v6
    ensures c.v6 ==> (Within(a, c) <==> Within(Address(true, Mapped(a.bytes)), c))
    ensures !c.v6 ==> !Within(Address(true, Mapped(a.bytes)), c)
  {
  }
}
