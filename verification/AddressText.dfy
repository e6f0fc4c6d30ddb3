/** Address and block text (packages/hub/src/proxy.ts).  JavaScript's `Number` and `parseInt(_, 16)`
    are parameters; only on plain digits is it fixed what they return. */
module AddressText {
  import opened Frames
  import opened Utf8
  import opened Cidr

  /** `None` where the original gets NaN, an infinity or a fraction. */
  datatype Js = Js(number: string -> Option<int>, hex: string -> Option<int>)

  // ----- strings -----

  function IndexOf(s: string, c: char): (r: Option<nat>)
    ensures r.None? ==> c !in s
    ensures r.Some? ==> r.value < |s| && s[r.value] == c && c !in s[..r.value]
  {
    if s == "" then None
    else if s[0] == c then Some(0)
    else
      match IndexOf(s[1..], c)
      case None => None
      case Some(i) =>
        assert s[..i + 1] == [s[0]] + s[1..][..i];
        Some(i + 1)
  }

  predicate DoubleAt(s: string, i: int) {
    0 <= i && i + 1 < |s| && s[i] == ':' && s[i + 1] == ':'
  }

  /** `indexOf("::")`. */
  function FindDouble(s: string): (r: Option<nat>)
    ensures r.None? ==> forall i :: !DoubleAt(s, i)
    ensures r.Some? ==> DoubleAt(s, r.value) && forall i | i < r.value :: !DoubleAt(s, i)
  {
    if |s| < 2 then None
    else if DoubleAt(s, 0) then Some(0)
    else
      assert forall i | i > 0 :: DoubleAt(s, i) == DoubleAt(s[1..], i - 1);
      match FindDouble(s[1..])
      case None => None
      case Some(i) => Some(i + 1)
  }

  /** JavaScript's `split` at a character. */
  function Split(s: string, sep: char): (parts: seq<string>)
    ensures parts != []
  {
    if s == "" then [""]
    else
      var parts := Split(s[..|s| - 1], sep);
      var c := s[|s| - 1];
      if c == sep then parts + [""] else parts[..|parts| - 1] + [parts[|parts| - 1] + [c]]
  }

  function Join(parts: seq<string>, sep: char): string {
    if parts == [] then ""
    else if |parts| == 1 then parts[0]
    else Join(parts[..|parts| - 1], sep) + [sep] + parts[|parts| - 1]
  }

  lemma {:induction false} SplitAppend(s: string, w: string, sep: char)
    requires sep !in w
    ensures Split(s + [sep] + w, sep) == Split(s, sep) + [w]
  {
    var whole := s + [sep] + w;
    if w == "" {
      assert whole == s + [sep] && whole[..|whole| - 1] == s;
    } else {
      var init, c := w[..|w| - 1], w[|w| - 1];
      SplitAppend(s, init, sep);
      assert whole[..|whole| - 1] == s + [sep] + init && w == init + [c];
      var p := Split(s, sep) + [init];
      assert p[..|p| - 1] == Split(s, sep);
    }
  }

  lemma {:induction false} SplitPlain(w: string, sep: char)
    requires sep !in w
    ensures Split(w, sep) == [w]
  {
    if w != "" {
      SplitPlain(w[..|w| - 1], sep);
      assert w == w[..|w| - 1] + [w[|w| - 1]];
    }
  }

  /** `split` undoes `join` of parts without the separator. */
  lemma {:induction false} SplitJoin(parts: seq<string>, sep: char)
    requires parts != [] && forall p | p in parts :: sep !in p
    ensures Split(Join(parts, sep), sep) == parts
  {
    hide Split;
    if |parts| == 1 {
      SplitPlain(parts[0], sep);
    } else {
      var init, last := parts[..|parts| - 1], parts[|parts| - 1];
      assert last in parts && forall p | p in init :: p in parts;
      SplitJoin(init, sep);
      SplitAppend(Join(init, sep), last, sep);
      assert parts == init + [last];
    }
  }

  lemma {:induction false} JoinChars(parts: seq<string>, sep: char, c: char)
    requires c != sep && forall p | p in parts :: c !in p
    ensures c !in Join(parts, sep)
  {
    if |parts| > 1 {
      JoinChars(parts[..|parts| - 1], sep, c);
      assert parts[|parts| - 1] in parts;
    } else if |parts| == 1 {
      assert parts[0] in parts;
    }
  }

  // ----- digits -----

  function Digit(c: char): Option<nat> {
    if '0' <= c <= '9' then Some((c - '0') as int)
    else if 'a' <= c <= 'f' then Some((c - 'a') as int + 10)
    else if 'A' <= c <= 'F' then Some((c - 'A') as int + 10)
    else None
  }

  predicate Digits(s: string, base: nat) {
    forall c | c in s :: Digit(c).Some? && Digit(c).value < base
  }

  function Numeral(s: string, base: nat): nat
    requires Digits(s, base)
  {
    if s == "" then 0 else Numeral(s[..|s| - 1], base) * base + Digit(s[|s| - 1]).value
  }

  /** What the two conversions return where every reader of JavaScript expects it: plain digits, and
      no number at all with a colon in it. */
  ghost predicate Agrees(js: Js) {
    && (forall s: string | s != "" && Digits(s, 10) :: js.number(s) == Some(Numeral(s, 10)))
    && (forall s: string | ':' in s :: js.number(s) == None)
    && (forall s: string | s != "" && Digits(s, 16) :: js.hex(s) == Some(Numeral(s, 16)))
  }

  // ----- the parsers as functions -----

  function OctetOf(js: Js, part: string): Option<Byte> {
    match js.number(part)
    case Some(n) => if 0 <= n < 256 then Some(n) else None
    case None => None
  }

  function OctetsOf(js: Js, parts: seq<string>): (r: Option<seq<Byte>>)
    ensures r.Some? ==> |r.value| == |parts|
  {
    if parts == [] then Some([])
    else
      var before, last := OctetsOf(js, parts[..|parts| - 1]), OctetOf(js, parts[|parts| - 1]);
      if before.None? || last.None? then None else Some(before.value + [last.value])
  }

  function V4Of(js: Js, s: string): (r: Option<seq<Byte>>)
    ensures r.Some? ==> |r.value| == 4
  {
    var parts := Split(s, '.');
    if |parts| != 4 then None else OctetsOf(js, parts)
  }

  /** A hexadecimal group, as two bytes. */
  function GroupOf(js: Js, g: string): (r: Option<seq<Byte>>)
    ensures r.Some? ==> |r.value| == 2
  {
    match js.hex(g)
    case Some(n) => if n < 0 || n > 0xffff || |g| > 4 then None else Some([n / 256, n % 256])
    case None => None
  }

  function GroupsOf(js: Js, gs: seq<string>): (r: Option<seq<Byte>>)
    ensures r.Some? ==> |r.value| == 2 * |gs|
  {
    if gs == [] then Some([])
    else
      var before, last := GroupsOf(js, gs[..|gs| - 1]), GroupOf(js, gs[|gs| - 1]);
      if before.None? || last.None? then None else Some(before.value + last.value)
  }

  function Zeros(n: nat): (z: seq<Byte>)
    ensures |z| == n
  {
    seq(n, _ => 0)
  }

  function Placed(js: Js, head: seq<string>, tail: seq<string>, quad: seq<Byte>, gap: bool): (r: Option<seq<Byte>>)
    requires |quad| == 0 || |quad| == 4
    ensures r.Some? ==> |r.value| == 16
  {
    var groups := |head| + |tail| + |quad| / 2;
    if groups > 8 || (!gap && groups != 8) then None
    else
      var h, t := GroupsOf(js, head), GroupsOf(js, tail);
      if h.None? || t.None? then None
      else Some(h.value + Zeros(16 - 2 * groups) + t.value + quad)
  }

  function Assembled(js: Js, head: seq<string>, tail: seq<string>, gap: bool): (r: Option<seq<Byte>>)
    ensures r.Some? ==> |r.value| == 16
  {
    var last := if tail != [] then tail[|tail| - 1] else if head != [] then head[|head| - 1] else "";
    if '.' in last then
      var quad := V4Of(js, last);
      if quad.None? then None
      else if tail != [] then Placed(js, head, tail[..|tail| - 1], quad.value, gap)
      else Placed(js, head[..|head| - 1], tail, quad.value, gap)
    else Placed(js, head, tail, [], gap)
  }

  function Parts(s: string): seq<string> {
    if s == "" then [] else Split(s, ':')
  }

  function V6Of(js: Js, s: string): (r: Option<seq<Byte>>)
    ensures r.Some? ==> |r.value| == 16
  {
    var z := IndexOf(s, '%');
    var addr := if z.Some? then s[..z.value] else s;
    var dd := FindDouble(addr);
    if dd.None? then Assembled(js, Split(addr, ':'), [], false)
    else Assembled(js, Parts(addr[..dd.value]), Parts(addr[dd.value + 2..]), true)
  }

  function AddressOf(js: Js, s: string): (r: Option<Address>)
    ensures r.Some? ==> r.value.Valid()
  {
    if s == "" then None
    else if V4Of(js, s).Some? then Some(Address(false, V4Of(js, s).value))
    else if V6Of(js, s).Some? then Some(Address(true, V6Of(js, s).value))
    else None
  }

  function BlockOf(js: Js, spec: string): (r: Option<Block>)
    ensures r.Some? ==> r.value.Valid()
  {
    var slash := IndexOf(spec, '/');
    var host := if slash.Some? then spec[..slash.value] else spec;
    var v6 := ':' in host;
    var total := if v6 then 128 else 32;
    var bits := if slash.Some? then js.number(spec[slash.value + 1..]) else Some(total);
    if bits.None? || bits.value < 0 || bits.value > total then None
    else
      var bytes := if v6 then V6Of(js, host) else V4Of(js, host);
      if bytes.None? then None else Some(Block(v6, bits.value, bytes.value))
  }

  // ----- the parsers as written -----

  method ParseV4(js: Js, s: string) returns (r: Option<seq<Byte>>)
    ensures r == V4Of(js, s)
  {
    var parts := Split(s, '.');
    if |parts| != 4 { return None; }
    var out := new Byte[4](_ => 0);
    var i := 0;
    while i < 4
      invariant 0 <= i <= 4
      invariant OctetsOf(js, parts[..i]) == Some(out[..i])
    {
      var n := js.number(parts[i]);
      if n.None? || n.value < 0 || n.value > 255 {
        OctetsFail(js, parts, i);
        return None;
      }
      OctetsPush(js, parts[..i], parts[i]);
      assert parts[..i + 1] == parts[..i] + [parts[i]];
      out[i] := n.value;
      assert out[..i + 1] == out[..i] + [n.value];
      i := i + 1;
    }
    assert parts[..4] == parts && out[..4] == out[..];
    return Some(out[..]);
  }

  lemma OctetsPush(js: Js, parts: seq<string>, part: string)
    requires OctetsOf(js, parts).Some? && OctetOf(js, part).Some?
    ensures OctetsOf(js, parts + [part]) == Some(OctetsOf(js, parts).value + [OctetOf(js, part).value])
  {
    assert (parts + [part])[..|parts|] == parts;
  }

  lemma GroupsPush(js: Js, gs: seq<string>, g: string)
    requires GroupsOf(js, gs).Some? && GroupOf(js, g).Some?
    ensures GroupsOf(js, gs + [g]) == Some(GroupsOf(js, gs).value + GroupOf(js, g).value)
  {
    assert (gs + [g])[..|gs|] == gs;
  }

  lemma {:induction false} OctetsFail(js: Js, parts: seq<string>, i: nat)
    requires i < |parts| && OctetOf(js, parts[i]).None?
    ensures OctetsOf(js, parts) == None
  {
    if i < |parts| - 1 {
      OctetsFail(js, parts[..|parts| - 1], i);
    }
  }

  lemma {:induction false} GroupsFail(js: Js, gs: seq<string>, i: nat)
    requires i < |gs| && GroupOf(js, gs[i]).None?
    ensures GroupsOf(js, gs) == None
  {
    if i < |gs| - 1 {
      GroupsFail(js, gs[..|gs| - 1], i);
    }
  }

  /** `bytes` with some of it replaced from `at` on. */
  function Overwritten(bytes: seq<Byte>, at: nat, more: seq<Byte>): (r: seq<Byte>)
    requires at + |more| <= |bytes|
    ensures |r| == |bytes|
  {
    bytes[..at] + more + bytes[at + |more|..]
  }

  /** One of the two loops that write groups, two bytes each. */
  method WriteGroups(js: Js, gs: seq<string>, out: array<Byte>, start: nat) returns (ok: bool)
    requires start + 2 * |gs| <= out.Length
    modifies out
    ensures ok <==> GroupsOf(js, gs).Some?
    ensures ok ==> out[..] == Overwritten(old(out[..]), start, GroupsOf(js, gs).value)
  {
    hide GroupsOf;
    var i, k := start, 0;
    NoGroups(js);
    assert gs[..0] == [] && out[start..start] == [];
    while k < |gs|
      invariant 0 <= k <= |gs| && i == start + 2 * k
      invariant GroupsOf(js, gs[..k]) == Some(out[start..i])
      invariant out[..start] == old(out[..start])
      invariant forall j | i <= j < out.Length :: out[j] == old(out[j])
    {
      var g := gs[k];
      var n := js.hex(g);
      if n.None? || n.value < 0 || n.value > 0xffff || |g| > 4 {
        GroupsFail(js, gs, k);
        return false;
      }
      GroupsPush(js, gs[..k], g);
      assert gs[..k + 1] == gs[..k] + [g];
      TwoBytes(n.value);
      var hi, lo := n.value / 256 % 256, n.value % 256;
      ghost var done := out[start..i];
      out[i] := hi;
      out[i + 1] := lo;
      assert out[start..i] == done;
      assert out[start..i + 2] == done + [hi, lo];
      i, k := i + 2, k + 1;
    }
    assert gs[..|gs|] == gs;
    assert out[..] == out[..start] + out[start..i] + out[i..];
    assert out[i..] == old(out[i..]);
    return true;
  }

  lemma NoGroups(js: Js)
    ensures GroupsOf(js, []) == Some([])
  {
  }

  method FillGroups(js: Js, head: seq<string>, tail: seq<string>, quad: seq<Byte>, gap: bool)
    returns (r: Option<seq<Byte>>)
    requires |quad| == 0 || |quad| == 4
    ensures r == Placed(js, head, tail, quad, gap)
  {
    hide GroupsOf, Zeros, Overwritten;
    var groups := |head| + |tail| + |quad| / 2;
    if groups > 8 { return None; }
    var fill := 8 - groups;
    if !gap && fill != 0 { return None; }
    var out := new Byte[16](_ => 0);
    ZerosAre(out[..]);
    var ok := WriteGroups(js, head, out, 0);
    if !ok { return None; }
    var i := 2 * |head| + fill * 2;
    ok := WriteGroups(js, tail, out, i);
    if !ok { return None; }
    i := i + 2 * |tail|;
    WriteQuad(quad, out, i);
    InOrder(GroupsOf(js, head).value, GroupsOf(js, tail).value, quad, fill * 2);
    return Some(out[..]);
  }

  lemma ZerosAre(bytes: seq<Byte>)
    requires forall j | 0 <= j < |bytes| :: bytes[j] == 0
    ensures bytes == Zeros(|bytes|)
  {
  }

  lemma InOrder(head: seq<Byte>, tail: seq<Byte>, quad: seq<Byte>, fill: nat)
    ensures var n := |head| + fill + |tail| + |quad|;
            Overwritten(Overwritten(Overwritten(Zeros(n), 0, head), |head| + fill, tail), |head| + fill + |tail|, quad)
            == head + Zeros(fill) + tail + quad
  {
  }

  method WriteQuad(quad: seq<Byte>, out: array<Byte>, i: nat)
    requires (|quad| == 0 || |quad| == 4) && out.Length == i + |quad|
    modifies out
    ensures out[..] == Overwritten(old(out[..]), i, quad)
  {
    if |quad| == 4 {
      out[i], out[i + 1], out[i + 2], out[i + 3] := quad[0], quad[1], quad[2], quad[3];
    }
  }

  method ParseV6(js: Js, s: string) returns (r: Option<seq<Byte>>)
    ensures r == V6Of(js, s)
  {
    hide Placed, Split, V4Of, IndexOf, FindDouble;
    var z := IndexOf(s, '%');
    var addr := if z.Some? then s[..z.value] else s;
    var dd := FindDouble(addr);
    var head, tail: seq<string> := [], [];
    if dd.Some? {
      head := Parts(addr[..dd.value]);
      tail := Parts(addr[dd.value + 2..]);
    } else {
      head := Split(addr, ':');
    }
    var last := if |tail| > 0 then tail[|tail| - 1] else if |head| > 0 then head[|head| - 1] else "";
    var quad: seq<Byte> := [];
    if '.' in last {
      var v4 := ParseV4(js, last);
      if v4.None? { return None; }
      quad := v4.value;
      if |tail| > 0 {
        tail := tail[..|tail| - 1];
      } else {
        head := head[..|head| - 1];
      }
    }
    r := FillGroups(js, head, tail, quad, dd.Some?);
  }

  /** Trust of a peer's text: it parses, and some block holds what it parses to. */
  method IsTrustedAddress(js: Js, peer: Option<string>, blocks: seq<Block>) returns (r: bool)
    requires forall c | c in blocks :: c.Valid()
    ensures r <==> peer.Some? && AddressOf(js, peer.value).Some?
                   && exists c :: c in blocks && Within(AddressOf(js, peer.value).value, c)
  {
    hide AddressOf, Within;
    if peer.None? || |blocks| == 0 { return false; }
    var a := AddressOf(js, peer.value);
    if a.None? { return false; }
    r := IsTrusted(a.value, blocks);
  }

  // ----- parsing undoes printing -----

  predicate HexText(g: string) {
    g != "" && Digits(g, 16)
  }

  predicate DecimalText(d: string) {
    d != "" && Digits(d, 10)
  }

  predicate HexGroup(g: string) {
    HexText(g) && |g| <= 4
  }

  predicate OctetText(d: string) {
    DecimalText(d) && Numeral(d, 10) < 256
  }

  /** A way to write an address (section 2.2 of RFC 4291): groups, perhaps `::` and further groups,
      perhaps a dotted quad. */
  datatype Text = Text(head: seq<string>, gap: bool, tail: seq<string>, quad: seq<string>)

  function QuadPart(quad: seq<string>): seq<string> {
    if quad == [] then [] else [Join(quad, '.')]
  }

  function Groups(t: Text): nat {
    |t.head| + |t.tail| + |t.quad| / 2
  }

  /** Made of digits, in any number and of any size; one decimal alone would be a group. */
  predicate Plain(t: Text) {
    && (forall g | g in t.head :: HexText(g))
    && (forall g | g in t.tail :: HexText(g))
    && (forall d | d in t.quad :: DecimalText(d))
    && |t.quad| != 1
    && (!t.gap ==> t.tail == [])
  }

  /** An address: groups of four digits at most, a quad of four octets, eight groups' worth in all, fewer
      only with a gap. */
  predicate Good(t: Text) {
    && (forall g | g in t.head :: HexGroup(g))
    && (forall g | g in t.tail :: HexGroup(g))
    && (forall d | d in t.quad :: OctetText(d))
    && (|t.quad| == 0 || |t.quad| == 4)
    && Groups(t) <= 8
    && (!t.gap ==> t.tail == [] && Groups(t) == 8)
  }

  function Render(t: Text): string {
    if t.gap then Join(t.head, ':') + "::" + Join(t.tail + QuadPart(t.quad), ':')
    else Join(t.head + QuadPart(t.quad), ':')
  }

  function GroupBytes(gs: seq<string>): (b: seq<Byte>)
    requires forall g | g in gs :: HexGroup(g)
    ensures |b| == 2 * |gs|
  {
    if gs == [] then []
    else
      assert HexGroup(gs[|gs| - 1]);
      var n := Numeral(gs[|gs| - 1], 16);
      GroupBytes(gs[..|gs| - 1]) + [n / 256 % 256, n % 256]
  }

  function OctetBytes(ds: seq<string>): (b: seq<Byte>)
    requires forall d | d in ds :: OctetText(d)
    ensures |b| == |ds|
  {
    if ds == [] then []
    else
      assert OctetText(ds[|ds| - 1]);
      OctetBytes(ds[..|ds| - 1]) + [Numeral(ds[|ds| - 1], 10)]
  }

  /** The sixteen bytes a text stands for. */
  function Meaning(t: Text): (b: seq<Byte>)
    requires Good(t)
    ensures |b| == 16
  {
    GroupBytes(t.head) + Zeros(16 - 2 * Groups(t)) + GroupBytes(t.tail) + OctetBytes(t.quad)
  }

  lemma {:induction false} NumeralBound(s: string)
    requires Digits(s, 16) && |s| <= 4
    ensures Numeral(s, 16) < [1, 16, 256, 4096, 65536][|s|]
  {
    if s != "" {
      NumeralBound(s[..|s| - 1]);
    }
  }

  lemma HexGroupParses(js: Js, g: string)
    requires Agrees(js) && HexGroup(g)
    ensures GroupOf(js, g) == Some([Numeral(g, 16) / 256 % 256, Numeral(g, 16) % 256])
  {
    NumeralBound(g);
    assert |g| <= 4;
    assert js.hex(g) == Some(Numeral(g, 16));
    hide Numeral, Digits, Agrees, GroupOf, HexGroup;
    var n := Numeral(g, 16);
    TwoBytes(n);
    GroupOfNumber(js, g, n);
  }

  lemma TwoBytes(n: nat)
    requires n < 65536
    ensures n / 256 == n / 256 % 256
  {
  }

  lemma GroupOfNumber(js: Js, g: string, n: nat)
    requires js.hex(g) == Some(n) && n < 65536 && |g| <= 4
    ensures GroupOf(js, g) == Some([n / 256, n % 256])
  {
  }

  lemma LongGroup(js: Js, g: string)
    requires Agrees(js) && HexText(g) && !HexGroup(g)
    ensures GroupOf(js, g) == None
  {
    assert js.hex(g) == Some(Numeral(g, 16));
  }

  /** Groups of hex digits parse exactly if each has four digits at most. */
  lemma {:induction false} GroupsParse(js: Js, gs: seq<string>)
    requires Agrees(js) && forall g | g in gs :: HexText(g)
    ensures GroupsOf(js, gs) == if forall g | g in gs :: HexGroup(g) then Some(GroupBytes(gs)) else None
  {
    hide Agrees, HexText, GroupOf;
    if gs != [] {
      var init, g := gs[..|gs| - 1], gs[|gs| - 1];
      assert g in gs && gs == init + [g];
      GroupsParse(js, init);
      if HexGroup(g) { HexGroupParses(js, g); } else { LongGroup(js, g); }
    }
  }

  /** Decimals parse exactly if each is below 256. */
  lemma {:induction false} OctetsParse(js: Js, ds: seq<string>)
    requires Agrees(js) && forall d | d in ds :: DecimalText(d)
    ensures OctetsOf(js, ds) == if forall d | d in ds :: OctetText(d) then Some(OctetBytes(ds)) else None
  {
    if ds != [] {
      var init, d := ds[..|ds| - 1], ds[|ds| - 1];
      assert d in ds && ds == init + [d];
      OctetsParse(js, init);
      assert js.number(d) == Some(Numeral(d, 10));
    }
  }

  /** Dotted decimal, leading zeros and all, parses exactly if it is four octets below 256, and then to
      their bytes. */
  lemma QuadReadsBack(js: Js, ds: seq<string>)
    requires Agrees(js) && ds != [] && forall d | d in ds :: DecimalText(d)
    ensures V4Of(js, Join(ds, '.'))
         == if |ds| == 4 && forall d | d in ds :: OctetText(d) then Some(OctetBytes(ds)) else None
  {
    hide Agrees, OctetText, OctetBytes, OctetsOf;
    forall d | d in ds ensures '.' !in d { NotADigit(d, 10, '.'); }
    SplitJoin(ds, '.');
    OctetsParse(js, ds);
  }

  lemma NotADigit(s: string, base: nat, c: char)
    requires Digits(s, base) && Digit(c).None?
    ensures c !in s
  {
  }

  /** No `::` inside, no `:` at either end. */
  ghost predicate Tidy(s: string) {
    (forall i :: !DoubleAt(s, i)) && (s != "" ==> s[0] != ':' && s[|s| - 1] != ':')
  }

  lemma {:induction false} JoinTidy(parts: seq<string>)
    requires forall p | p in parts :: p != "" && ':' !in p
    ensures Tidy(Join(parts, ':')) && (Join(parts, ':') == "" <==> parts == [])
  {
    if |parts| > 1 {
      var init, last := parts[..|parts| - 1], parts[|parts| - 1];
      assert last in parts && forall p | p in init :: p in parts;
      JoinTidy(init);
      TidyJoin(Join(init, ':'), last);
    } else if |parts| == 1 {
      assert parts[0] in parts;
    }
  }

  lemma TidyJoin(j: string, w: string)
    requires Tidy(j) && j != "" && w != "" && ':' !in w
    ensures Tidy(j + [':'] + w)
  {
    var s := j + [':'] + w;
    forall i ensures !DoubleAt(s, i) {
      if 0 <= i < |j| - 1 {
        assert !DoubleAt(j, i) && s[i] == j[i] && s[i + 1] == j[i + 1];
      } else if i >= |j| && i + 1 < |s| {
        assert s[i + 1] == w[i - |j|];
      }
    }
  }

  lemma FirstDouble(a: string, b: string)
    requires Tidy(a)
    ensures FindDouble(a + "::" + b) == Some(|a|)
  {
    var s := a + "::" + b;
    assert DoubleAt(s, |a|);
    forall i | i < |a| ensures !DoubleAt(s, i) {
      if 0 <= i < |a| - 1 {
        assert !DoubleAt(a, i) && s[i] == a[i] && s[i + 1] == a[i + 1];
      }
    }
  }

  /** Groups and quad as the parser will see them between colons. */
  lemma PartsOfText(gs: seq<string>, quad: seq<string>)
    requires (forall g | g in gs :: HexText(g)) && (forall d | d in quad :: DecimalText(d)) && |quad| != 1
    ensures var parts := gs + QuadPart(quad);
            && (forall p | p in parts :: p != "" && ':' !in p && '%' !in p && '/' !in p)
            && (forall g | g in gs :: '.' !in g)
            && (quad != [] ==> '.' in Join(quad, '.'))
  {
    forall g | g in gs ensures g != "" && ':' !in g && '%' !in g && '/' !in g && '.' !in g {
      NotADigit(g, 16, ':');
      NotADigit(g, 16, '%');
      NotADigit(g, 16, '/');
      NotADigit(g, 16, '.');
    }
    if quad != [] {
      QuadChars(quad);
    }
  }

  lemma QuadChars(quad: seq<string>)
    requires quad != [] && forall d | d in quad :: DecimalText(d)
    ensures var q := Join(quad, '.');
            ':' !in q && '%' !in q && '/' !in q && q != "" && (|quad| > 1 ==> '.' in q)
  {
    forall d | d in quad ensures ':' !in d && '%' !in d && '/' !in d {
      NotADigit(d, 10, ':');
      NotADigit(d, 10, '%');
      NotADigit(d, 10, '/');
    }
    JoinChars(quad, '.', ':');
    JoinChars(quad, '.', '%');
    JoinChars(quad, '.', '/');
    if |quad| > 1 {
      assert Join(quad, '.') == Join(quad[..|quad| - 1], '.') + ['.'] + quad[|quad| - 1];
    } else {
      assert quad[0] in quad;
    }
  }

  lemma PartsJoin(parts: seq<string>)
    requires forall p | p in parts :: p != "" && ':' !in p
    ensures Parts(Join(parts, ':')) == parts
  {
    JoinTidy(parts);
    if parts != [] {
      SplitJoin(parts, ':');
    }
  }

  lemma PlacedText(js: Js, t: Text, quad: seq<Byte>)
    requires Agrees(js) && Plain(t)
    requires if t.quad == [] then quad == []
             else |t.quad| == 4 && (forall d | d in t.quad :: OctetText(d)) && quad == OctetBytes(t.quad)
    ensures Placed(js, t.head, t.tail, quad, t.gap) == if Good(t) then Some(Meaning(t)) else None
  {
    hide Agrees, GroupsOf, GroupBytes, OctetBytes, HexText, HexGroup, OctetText, DecimalText;
    GroupsParse(js, t.head);
    GroupsParse(js, t.tail);
    if t.quad == [] { NoOctets(t.quad); }
  }

  lemma AssembledPlain(js: Js, head: seq<string>, tail: seq<string>, gap: bool)
    requires (forall g | g in head :: '.' !in g) && (forall g | g in tail :: '.' !in g)
    ensures Assembled(js, head, tail, gap) == Placed(js, head, tail, [], gap)
  {
    hide Placed;
  }

  lemma AssembledQuad(js: Js, head: seq<string>, tail: seq<string>, q: string, gap: bool)
    requires '.' in q
    ensures Assembled(js, head, tail + [q], gap)
         == if V4Of(js, q).None? then None else Placed(js, head, tail, V4Of(js, q).value, gap)
    ensures Assembled(js, head + [q], [], gap)
         == if V4Of(js, q).None? then None else Placed(js, head, [], V4Of(js, q).value, gap)
  {
    hide Placed, V4Of;
    assert (tail + [q])[..|tail|] == tail && (head + [q])[..|head|] == head;
  }

  lemma AssembledText(js: Js, t: Text)
    requires Agrees(js) && Plain(t)
    ensures var bytes := if Good(t) then Some(Meaning(t)) else None;
            && (t.gap ==> Assembled(js, t.head, t.tail + QuadPart(t.quad), true) == bytes)
            && (!t.gap ==> Assembled(js, t.head + QuadPart(t.quad), [], false) == bytes)
  {
    PartsOfText(t.head, t.quad);
    PartsOfText(t.tail, t.quad);
    hide Agrees, Placed, Assembled, Meaning, OctetBytes, Join, V4Of, HexGroup, OctetText, HexText, DecimalText;
    if t.quad == [] {
      assert t.tail + QuadPart(t.quad) == t.tail && t.head + QuadPart(t.quad) == t.head;
      AssembledPlain(js, t.head, t.tail, t.gap);
      PlacedText(js, t, []);
    } else {
      QuadReadsBack(js, t.quad);
      AssembledQuad(js, t.head, t.tail, Join(t.quad, '.'), t.gap);
      if V4Of(js, Join(t.quad, '.')).Some? { PlacedText(js, t, OctetBytes(t.quad)); }
    }
  }

  lemma NoOctets(ds: seq<string>)
    requires ds == []
    ensures OctetBytes(ds) == []
  {
  }

  /** The text has a colon: it cannot be read as dotted decimal. */
  predicate HasColon(t: Text) {
    t.gap || |t.head + QuadPart(t.quad)| > 1
  }

  lemma RenderChars(t: Text)
    requires Plain(t)
    ensures '%' !in Render(t) && '/' !in Render(t) && (HasColon(t) ==> Render(t) != "" && ':' in Render(t))
  {
    PartsOfText(t.head, t.quad);
    PartsOfText(t.tail, t.quad);
    hide Plain, HexText, DecimalText;
    if t.gap {
      JoinChars(t.head, ':', '%');
      JoinChars(t.head, ':', '/');
      JoinChars(t.tail + QuadPart(t.quad), ':', '%');
      JoinChars(t.tail + QuadPart(t.quad), ':', '/');
      assert Render(t)[|Join(t.head, ':')|] == ':';
    } else {
      var parts := t.head + QuadPart(t.quad);
      JoinChars(parts, ':', '%');
      JoinChars(parts, ':', '/');
      if |parts| > 1 {
        assert Render(t) == Join(parts[..|parts| - 1], ':') + [':'] + parts[|parts| - 1];
      }
    }
  }

  lemma CutAtDouble(a: string, b: string)
    requires Tidy(a) && '%' !in a + "::" + b
    ensures var s := a + "::" + b;
            IndexOf(s, '%') == None && FindDouble(s) == Some(|a|) && s[..|a|] == a && s[|a| + 2..] == b
  {
    FirstDouble(a, b);
  }

  /** Parts that the parser can see between colons. */
  ghost predicate Visible(parts: seq<string>) {
    forall p | p in parts :: p != "" && ':' !in p && '%' !in p
  }

  /** At the gap a text falls into the parts before it and those after it. */
  lemma GapSplits(js: Js, before: seq<string>, after: seq<string>)
    requires Visible(before) && Visible(after)
    ensures V6Of(js, Join(before, ':') + "::" + Join(after, ':')) == Assembled(js, before, after, true)
  {
    hide Assembled, Join, Parts, IndexOf, FindDouble;
    PartsJoin(before);
    PartsJoin(after);
    JoinTidy(before);
    JoinChars(before, ':', '%');
    JoinChars(after, ':', '%');
    CutAtDouble(Join(before, ':'), Join(after, ':'));
  }

  lemma GapReadsBack(js: Js, t: Text)
    requires Agrees(js) && Plain(t) && t.gap
    ensures V6Of(js, Render(t)) == if Good(t) then Some(Meaning(t)) else None
  {
    PartsOfText(t.head, t.quad);
    PartsOfText(t.tail, t.quad);
    hide Agrees, Assembled, Meaning, Good, HexGroup, OctetText, HexText, DecimalText, Plain, QuadPart, V6Of, Join;
    AssembledText(js, t);
    GapSplits(js, t.head, t.tail + QuadPart(t.quad));
  }

  lemma NothingIsNoAddress(js: Js)
    ensures V6Of(js, "") == None
  {
    assert Split("", ':') == [""];
    AssembledPlain(js, [""], [], false);
  }

  /** Parsing undoes printing, and nothing more is read: of all the texts of digits, in any number and of
      any size, with or without a gap and a dotted quad, exactly the addresses parse, each to the
      sixteen bytes that were written. */
  lemma V6ReadsBack(js: Js, t: Text)
    requires Agrees(js) && Plain(t)
    ensures V6Of(js, Render(t)) == if Good(t) then Some(Meaning(t)) else None
  {
    var parts := t.head + QuadPart(t.quad);
    if t.gap {
      GapReadsBack(js, t);
    } else if parts == [] {
      NothingIsNoAddress(js);
    } else {
      PartsOfText(t.head, t.quad);
      RenderChars(t);
      hide Agrees, Assembled, Meaning, Good, HexGroup, OctetText, HexText, DecimalText, Plain;
      hide Join, QuadPart, IndexOf, FindDouble, Split;
      AssembledText(js, t);
      JoinTidy(parts);
      SplitJoin(parts, ':');
    }
  }

  /** A quad that ends the text before `::`, which is no address (section 2.2 of RFC 4291), is read as if it
      stood after it. */
  lemma QuadBeforeGapMoves(js: Js, head: seq<string>, quad: seq<string>)
    requires (forall g | g in head :: HexText(g)) && (forall d | d in quad :: DecimalText(d)) && |quad| > 1
    ensures V6Of(js, Join(head + [Join(quad, '.')], ':') + "::") == V6Of(js, Join(head, ':') + "::" + Join(quad, '.'))
  {
    var q := Join(quad, '.');
    PartsOfText(head, quad);
    hide HexText, DecimalText, V6Of, Assembled, V4Of, Placed;
    assert head + QuadPart(quad) == head + [q];
    assert q in head + [q] && forall g | g in head :: g in head + [q];
    GapSplits(js, head + [q], []);
    GapSplits(js, head, [q]);
    JoinOne(q);
    assert [] + [q] == [q];
    AssembledQuad(js, head, [], q, true);
    assert Join(head + [q], ':') + "::" + Join([], ':') == Join(head + [q], ':') + "::";
  }

  lemma JoinOne(part: string)
    ensures Join([part], ':') == part && Join([], ':') == ""
  {
  }

  /** A zone index is ignored. */
  lemma ZoneIgnored(js: Js, s: string, zone: string)
    requires '%' !in s
    ensures V6Of(js, s + "%" + zone) == V6Of(js, s)
  {
    var whole := s + "%" + zone;
    assert whole[|s|] == '%' && whole[..|s|] == s;
    IndexOfIs(whole, '%', |s|);
    NoIndex(s, '%');
  }

  /** A host as an address list may write it. */
  datatype Host = Six(text: Text) | Quad(octets: seq<string>)

  predicate PlainHost(h: Host) {
    if h.Six? then Plain(h.text) && HasColon(h.text) else h.octets != [] && forall d | d in h.octets :: DecimalText(d)
  }

  predicate GoodHost(h: Host) {
    if h.Six? then Good(h.text) else |h.octets| == 4 && forall d | d in h.octets :: OctetText(d)
  }

  function RenderHost(h: Host): string {
    if h.Six? then Render(h.text) else Join(h.octets, '.')
  }

  function HostBytes(h: Host): (b: seq<Byte>)
    requires GoodHost(h)
    ensures |b| == if h.Six? then 16 else 4
  {
    if h.Six? then Meaning(h.text) else OctetBytes(h.octets)
  }

  function HostBits(h: Host): nat {
    if h.Six? then 128 else 32
  }

  lemma HostReadsBack(js: Js, h: Host)
    requires Agrees(js) && PlainHost(h)
    ensures var s := RenderHost(h);
            && (if h.Six? then V6Of(js, s) else V4Of(js, s)) == (if GoodHost(h) then Some(HostBytes(h)) else None)
            && (':' in s <==> h.Six?) && '/' !in s && '%' !in s && s != ""
  {
    hide V4Of, V6Of, Agrees, Render, OctetText, HexText, DecimalText, Plain, Good, OctetBytes, Meaning, HasColon;
    if h.Six? {
      V6ReadsBack(js, h.text);
      RenderChars(h.text);
    } else {
      QuadReadsBack(js, h.octets);
      QuadChars(h.octets);
    }
  }

  /** Dotted decimal is one part to the parser of the longer form, which reads it only as the last of
      eight groups' worth. */
  lemma QuadIsNotV6(js: Js, s: string)
    requires ':' !in s && '%' !in s
    ensures V6Of(js, s) == None
  {
    hide GroupsOf, V4Of;
    assert forall i :: !DoubleAt(s, i);
    NoIndex(s, '%');
    SplitPlain(s, ':');
    if '.' in s { assert [s] == [] + [s]; AssembledQuad(js, [], [], s, false); } else { AssembledPlain(js, [s], [], false); }
  }

  /** The same through the entry point, which tries dotted decimal first. */
  lemma AddressReadsBack(js: Js, h: Host)
    requires Agrees(js) && PlainHost(h)
    ensures AddressOf(js, RenderHost(h)) == if GoodHost(h) then Some(Address(h.Six?, HostBytes(h))) else None
  {
    hide V4Of, V6Of, RenderHost, HostBytes, Agrees, GoodHost, PlainHost;
    HostReadsBack(js, h);
    if h.Six? { ColonIsNotV4(js, RenderHost(h)); } else { QuadIsNotV6(js, RenderHost(h)); }
  }

  lemma ColonIsNotV4(js: Js, s: string)
    requires Agrees(js) && ':' in s
    ensures V4Of(js, s) == None
  {
    var parts := Split(s, '.');
    SomePartHas(s, '.', ':');
    var i :| 0 <= i < |parts| && ':' in parts[i];
    OctetsFail(js, parts, i);
  }

  lemma {:induction false} SomePartHas(s: string, sep: char, c: char)
    requires c in s && c != sep
    ensures exists i :: 0 <= i < |Split(s, sep)| && c in Split(s, sep)[i]
  {
    var init, last := s[..|s| - 1], s[|s| - 1];
    assert s == init + [last];
    var parts, whole := Split(init, sep), Split(s, sep);
    if last == c {
      assert c in whole[|whole| - 1];
    } else {
      SomePartHas(init, sep, c);
      var i :| 0 <= i < |parts| && c in parts[i];
      assert c in whole[i];
    }
  }

  /** The text of a block: a host, with a prefix length or without one. */
  function RenderBlock(h: Host, digits: Option<string>): string {
    if digits.Some? then RenderHost(h) + "/" + digits.value else RenderHost(h)
  }

  /** Block text of either family reads back exactly if its host is an address and its prefix length,
      the width of the family if there is none, is no more than that width. */
  lemma BlockReadsBack(js: Js, h: Host, digits: Option<string>)
    requires Agrees(js) && PlainHost(h)
    requires digits.Some? ==> digits.value != "" && Digits(digits.value, 10)
    ensures var bits := if digits.Some? then Numeral(digits.value, 10) else HostBits(h);
            BlockOf(js, RenderBlock(h, digits))
            == if GoodHost(h) && bits <= HostBits(h) then Some(Block(h.Six?, bits, HostBytes(h))) else None
  {
    hide V4Of, V6Of, RenderHost, HostBytes, IndexOf, GoodHost, PlainHost;
    var host, spec := RenderHost(h), RenderBlock(h, digits);
    HostReadsBack(js, h);
    if digits.Some? {
      SlashAt(host, digits.value);
      assert spec[..|host|] == host && spec[|host| + 1..] == digits.value;
    } else {
      NoIndex(host, '/');
    }
  }

  lemma NoIndex(s: string, c: char)
    requires c !in s
    ensures IndexOf(s, c) == None
  {
  }

  lemma {:induction false} IndexOfIs(s: string, c: char, k: nat)
    requires k < |s| && s[k] == c && c !in s[..k]
    ensures IndexOf(s, c) == Some(k)
  {
    if k > 0 {
      assert s[0] == s[..k][0] && s[1..][..k - 1] == s[..k][1..];
      IndexOfIs(s[1..], c, k - 1);
    }
  }

  lemma SlashAt(host: string, rest: string)
    requires '/' !in host
    ensures IndexOf(host + "/" + rest, '/') == Some(|host|)
  {
    var s := host + "/" + rest;
    assert s[..|host|] == host && s[|host|] == '/';
    IndexOfIs(s, '/', |host|);
  }
}
