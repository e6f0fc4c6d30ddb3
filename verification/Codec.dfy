/** Length-prefixed framing on the Unix socket (packages/proto/src/codec.ts).  JSON is a pair of
    functions: `stringify` to bytes, and `parse`, which may fail. */
module Codec {
  import opened Frames
  import opened Sequences
  import opened Utf8

  const HEADER_BYTES: nat := 4
  const MAX_FRAME_BYTES: nat := 16 * 1024 * 1024

  datatype Error = FrameTooLarge | BadJson

  datatype Result<+T> = Ok(value: T) | Err(error: Error)

  /** `setUint32(0, n, false)`. */
  function Header(n: nat): (h: seq<Byte>)
    requires n < 0x1_0000_0000
    ensures |h| == HEADER_BYTES
  {
    [n / 0x100_0000, n / 0x1_0000 % 256, n / 256 % 256, n % 256]
  }

  /** `getUint32(0, false)`. */
  function LengthAt(buf: seq<Byte>): nat
    requires |buf| >= HEADER_BYTES
  {
    ((buf[0] as int * 256 + buf[1]) * 256 + buf[2]) * 256 + buf[3]
  }

  function EncodeFrame<V>(stringify: V -> seq<Byte>, v: V): Result<seq<Byte>> {
    var payload := stringify(v);
    if |payload| > MAX_FRAME_BYTES then Err(FrameTooLarge) else Ok(Header(|payload|) + payload)
  }

  lemma HeaderReadsBack(n: nat, rest: seq<Byte>)
    requires n < 0x1_0000_0000
    ensures LengthAt(Header(n) + rest) == n
  {
    var a, b := n / 256, n / 0x1_0000;
    assert n == a * 256 + n % 256;
    assert a == b * 256 + a % 256 && b == a / 256;
    assert b == b / 256 * 256 + b % 256 && b / 256 == n / 0x100_0000;
  }

  // ----- one frame at the front of the buffer -----

  datatype Front = Incomplete | TooLarge | Payload(payload: seq<Byte>, rest: seq<Byte>)

  function FrontOf(buf: seq<Byte>): (f: Front)
    ensures f.Payload? ==> |f.rest| < |buf|
  {
    if |buf| < HEADER_BYTES then Incomplete
    else if LengthAt(buf) > MAX_FRAME_BYTES then TooLarge
    else if |buf| < HEADER_BYTES + LengthAt(buf) then Incomplete
    else Payload(buf[HEADER_BYTES..HEADER_BYTES + LengthAt(buf)], buf[HEADER_BYTES + LengthAt(buf)..])
  }

  /** What the loop of `push` gets through: the payloads, their values, what is left, and the
      exception if one stopped it. */
  datatype Drained<V> = Drained(payloads: seq<seq<Byte>>, out: seq<V>, rest: seq<Byte>, error: Option<Error>)

  function Drain<V>(parse: seq<Byte> -> Option<V>, buf: seq<Byte>): Drained<V>
    decreases |buf|
  {
    match FrontOf(buf)
    case Incomplete => Drained([], [], buf, None)
    case TooLarge => Drained([], [], buf, Some(FrameTooLarge))
    case Payload(p, rest) =>
      var v := parse(p);
      if v.None? then Drained([], [], buf, Some(BadJson))
      else
        var d := Drain(parse, rest);
        d.(payloads := [p] + d.payloads, out := [v.value] + d.out)
  }

  class FrameDecoder<V> {
    const parse: seq<Byte> -> Option<V>
    var buffer: seq<Byte>

    constructor (parse: seq<Byte> -> Option<V>)
      ensures this.parse == parse && buffer == []
    {
      this.parse := parse;
      buffer := [];
    }

    /** An exception discards the values decoded by the same call. */
    method Push(chunk: seq<Byte>) returns (r: Result<seq<V>>)
      modifies this
      ensures var d := Drain(parse, old(buffer) + chunk);
              && buffer == d.rest
              && r == if d.error.Some? then Err(d.error.value) else Ok(d.out)
    {
      buffer := buffer + chunk;
      ghost var all := Drain(parse, buffer);
      var out: seq<V> := [];
      while |buffer| >= HEADER_BYTES
        invariant var d := Drain(parse, buffer);
                  out + d.out == all.out && d.rest == all.rest && d.error == all.error
        decreases |buffer|
      {
        var len := LengthAt(buffer);
        if len > MAX_FRAME_BYTES {
          return Err(FrameTooLarge);
        }
        if |buffer| < HEADER_BYTES + len { break; }
        var v := parse(buffer[HEADER_BYTES..HEADER_BYTES + len]);
        if v.None? {
          return Err(BadJson);
        }
        Assoc(out, [v.value], Drain(parse, buffer[HEADER_BYTES + len..]).out);
        out := out + [v.value];
        buffer := buffer[HEADER_BYTES + len..];
      }
      assert out + [] == out;
      return Ok(out);
    }
  }

  // ----- nothing is lost between the wire and the buffer -----

  /** The bytes of some payloads on the wire. */
  function Wire(payloads: seq<seq<Byte>>): seq<Byte> {
    if payloads == [] then []
    else if |payloads[0]| > MAX_FRAME_BYTES then []
    else Header(|payloads[0]|) + payloads[0] + Wire(payloads[1..])
  }

  lemma HeaderOfLength(buf: seq<Byte>)
    requires |buf| >= HEADER_BYTES && LengthAt(buf) <= MAX_FRAME_BYTES
    ensures Header(LengthAt(buf)) == buf[..HEADER_BYTES]
  {
    var b0, b1, b2, b3 := buf[0], buf[1], buf[2], buf[3];
    var n := LengthAt(buf);
    var a := (b0 as int * 256 + b1) * 256 + b2;
    assert n / 256 == a && n % 256 == b3;
    var b := b0 as int * 256 + b1;
    assert a / 256 == b && a % 256 == b2 && n / 0x1_0000 == b;
    assert b / 256 == b0 && b % 256 == b1 && n / 0x100_0000 == b0;
  }

  lemma FrontSplits(buf: seq<Byte>)
    ensures var f := FrontOf(buf);
            && (f.Payload? ==> |f.payload| <= MAX_FRAME_BYTES && buf == Header(|f.payload|) + f.payload + f.rest)
            && (f.Incomplete? ==> |buf| < HEADER_BYTES + MAX_FRAME_BYTES)
  {
    if FrontOf(buf).Payload? {
      HeaderOfLength(buf);
    }
  }

  /** The bytes fed are the frames decoded, put back on the wire, followed by the buffer, and the
      buffer then holds no complete frame and is shorter than the largest one, or begins with the bad frame that the
      error names. */
  lemma {:induction false} DrainConserves<V>(parse: seq<Byte> -> Option<V>, buf: seq<Byte>)
    ensures var d := Drain(parse, buf);
            && Wire(d.payloads) + d.rest == buf
            && |d.payloads| == |d.out|
            && (forall i | 0 <= i < |d.out| :: parse(d.payloads[i]) == Some(d.out[i]))
            && (d.error.None? ==> FrontOf(d.rest).Incomplete? && |d.rest| < HEADER_BYTES + MAX_FRAME_BYTES)
            && (d.error == Some(FrameTooLarge) <==> FrontOf(d.rest).TooLarge?)
            && (d.error == Some(BadJson) <==> FrontOf(d.rest).Payload? && parse(FrontOf(d.rest).payload).None?)
    decreases |buf|
  {
    hide FrontOf, Header;
    var f := FrontOf(buf);
    FrontSplits(buf);
    if f.Payload? && parse(f.payload).Some? {
      DrainConserves(parse, f.rest);
      var d := Drain(parse, f.rest);
      assert ([f.payload] + d.payloads)[1..] == d.payloads;
      Assoc(Header(|f.payload|) + f.payload, Wire(d.payloads), d.rest);
    }
  }

  // ----- chunking -----

  lemma FrontOfLonger(buf: seq<Byte>, more: seq<Byte>)
    ensures FrontOf(buf).TooLarge? ==> FrontOf(buf + more).TooLarge?
    ensures FrontOf(buf).Payload? ==> FrontOf(buf + more) == Payload(FrontOf(buf).payload, FrontOf(buf).rest + more)
  {
    if |buf| >= HEADER_BYTES {
      assert LengthAt(buf + more) == LengthAt(buf);
      var len := LengthAt(buf);
      if |buf| >= HEADER_BYTES + len {
        assert (buf + more)[HEADER_BYTES..HEADER_BYTES + len] == buf[HEADER_BYTES..HEADER_BYTES + len];
        assert (buf + more)[HEADER_BYTES + len..] == buf[HEADER_BYTES + len..] + more;
      }
    }
  }

  /** Feeding `more` afterwards is feeding it at once. */
  lemma {:induction false} DrainSplit<V>(parse: seq<Byte> -> Option<V>, buf: seq<Byte>, more: seq<Byte>)
    requires Drain(parse, buf).error.None?
    ensures Drain(parse, buf + more).out == Drain(parse, buf).out + Drain(parse, Drain(parse, buf).rest + more).out
    ensures Drain(parse, buf + more).rest == Drain(parse, Drain(parse, buf).rest + more).rest
    ensures Drain(parse, buf + more).error == Drain(parse, Drain(parse, buf).rest + more).error
    decreases |buf|
  {
    var f := FrontOf(buf);
    FrontOfLonger(buf, more);
    if f.Payload? {
      DrainSplit(parse, f.rest, more);
      Assoc([parse(f.payload).value], Drain(parse, f.rest).out,
            Drain(parse, Drain(parse, f.rest).rest + more).out);
    }
  }

  /** A stream of pushes: what the successful ones returned, the buffer, and whether one failed. */
  datatype Fed<V> = Fed(out: seq<V>, buffer: seq<Byte>, failed: bool)

  function Feed<V>(parse: seq<Byte> -> Option<V>, buf: seq<Byte>, chunks: seq<seq<Byte>>): Fed<V>
    decreases |chunks|
  {
    if chunks == [] then Fed([], buf, false)
    else
      var d := Drain(parse, buf + chunks[0]);
      var next := Feed(parse, d.rest, chunks[1..]);
      Fed((if d.error.None? then d.out else []) + next.out, next.buffer, d.error.Some? || next.failed)
  }

  function Concat(chunks: seq<seq<Byte>>): seq<Byte> {
    if chunks == [] then [] else chunks[0] + Concat(chunks[1..])
  }

  /** However the bytes are cut into chunks, empty ones and cut headers included: when the whole
      stream is free of bad frames no push fails, and the values and the final buffer are those of
      one push of everything. */
  lemma {:induction false} ChunkingIrrelevant<V>(parse: seq<Byte> -> Option<V>, buf: seq<Byte>, chunks: seq<seq<Byte>>)
    requires Drain(parse, buf + Concat(chunks)).error.None? && FrontOf(buf).Incomplete?
    ensures Feed(parse, buf, chunks)
         == Fed(Drain(parse, buf + Concat(chunks)).out, Drain(parse, buf + Concat(chunks)).rest, false)
    decreases |chunks|
  {
    if chunks == [] {
      assert buf + [] == buf;
    } else {
      var first := buf + chunks[0];
      Assoc(buf, chunks[0], Concat(chunks[1..]));
      ErrorsAreEarly(parse, first, Concat(chunks[1..]));
      DrainSplit(parse, first, Concat(chunks[1..]));
      DrainConserves(parse, first);
      ChunkingIrrelevant(parse, Drain(parse, first).rest, chunks[1..]);
    }
  }

  lemma {:induction false} ErrorsAreEarly<V>(parse: seq<Byte> -> Option<V>, buf: seq<Byte>, more: seq<Byte>)
    requires Drain(parse, buf + more).error.None?
    ensures Drain(parse, buf).error.None?
    decreases |buf|
  {
    FrontOfLonger(buf, more);
    var f := FrontOf(buf);
    if f.Payload? && parse(f.payload).Some? {
      ErrorsAreEarly(parse, f.rest, more);
    }
  }

  /** Some push fails exactly when the stream has a bad frame that is complete enough to see. */
  lemma {:induction false} FailsIffBadFrame<V>(parse: seq<Byte> -> Option<V>, buf: seq<Byte>, chunks: seq<seq<Byte>>)
    requires FrontOf(buf).Incomplete?
    ensures Feed(parse, buf, chunks).failed <==> Drain(parse, buf + Concat(chunks)).error.Some?
    decreases |chunks|
  {
    if chunks == [] {
      assert buf + Concat(chunks) == buf;
    } else if Drain(parse, buf + Concat(chunks)).error.None? {
      ChunkingIrrelevant(parse, buf, chunks);
    } else {
      var first := buf + chunks[0];
      Assoc(buf, chunks[0], Concat(chunks[1..]));
      if Drain(parse, first).error.None? {
        DrainSplit(parse, first, Concat(chunks[1..]));
        DrainConserves(parse, first);
        FailsIffBadFrame(parse, Drain(parse, first).rest, chunks[1..]);
      }
    }
  }

  // ----- round trip -----

  function EncodeAllFrames<V>(stringify: V -> seq<Byte>, vs: seq<V>): seq<Byte>
    requires forall v | v in vs :: EncodeFrame(stringify, v).Ok?
  {
    if vs == [] then [] else EncodeFrame(stringify, vs[0]).value + EncodeAllFrames(stringify, vs[1..])
  }

  lemma FrontOfEncoded<V>(stringify: V -> seq<Byte>, v: V, rest: seq<Byte>)
    requires EncodeFrame(stringify, v).Ok?
    ensures FrontOf(EncodeFrame(stringify, v).value + rest) == Payload(stringify(v), rest)
  {
    var p := stringify(v);
    var buf := Header(|p|) + p + rest;
    Assoc(Header(|p|), p, rest);
    HeaderReadsBack(|p|, p + rest);
    assert buf[HEADER_BYTES..HEADER_BYTES + |p|] == p && buf[HEADER_BYTES + |p|..] == rest;
  }

  lemma {:induction false} DrainEncoded<V>(parse: seq<Byte> -> Option<V>, stringify: V -> seq<Byte>, vs: seq<V>)
    requires forall v | v in vs :: EncodeFrame(stringify, v).Ok? && parse(stringify(v)) == Some(v)
    ensures Drain(parse, EncodeAllFrames(stringify, vs)).out == vs
    ensures Drain(parse, EncodeAllFrames(stringify, vs)).rest == []
    ensures Drain(parse, EncodeAllFrames(stringify, vs)).error.None?
  {
    if vs != [] {
      assert vs[0] in vs;
      DrainEncoded(parse, stringify, vs[1..]);
      FrontOfEncoded(stringify, vs[0], EncodeAllFrames(stringify, vs[1..]));
      HeadTail(vs);
    }
  }

  /** Any values whose text fits a frame, sent back to back and received in any chunks, come out
      exactly, in order, with nothing left over and no exception. */
  lemma DecodeUndoesEncode<V>(
    parse: seq<Byte> -> Option<V>, stringify: V -> seq<Byte>, vs: seq<V>, chunks: seq<seq<Byte>>)
    requires forall v | v in vs :: EncodeFrame(stringify, v).Ok? && parse(stringify(v)) == Some(v)
    requires Concat(chunks) == EncodeAllFrames(stringify, vs)
    ensures Feed(parse, [], chunks) == Fed(vs, [], false)
  {
    DrainEncoded(parse, stringify, vs);
    assert [] + Concat(chunks) == Concat(chunks);
    ChunkingIrrelevant(parse, [], chunks);
  }

  // ----- bad frames -----

  /** A frame that makes `push` throw. */
  predicate Bad<V>(parse: seq<Byte> -> Option<V>, f: Front) {
    f.TooLarge? || (f.Payload? && parse(f.payload).None?)
  }

  /** A push that fails returns none of the values it decoded and does not keep their bytes: it
      leaves all its bytes in the buffer exactly when the bad frame was first in line. */
  lemma FailedPushLoses<V>(parse: seq<Byte> -> Option<V>, buf: seq<Byte>)
    requires Drain(parse, buf).error.Some?
    ensures Drain(parse, buf).rest == buf <==> Bad(parse, FrontOf(buf))
    ensures !Bad(parse, FrontOf(buf)) ==>
      Drain(parse, buf).out != [] && |Drain(parse, buf).rest| <= |buf| - HEADER_BYTES
  {
    if !Bad(parse, FrontOf(buf)) {
      DrainConserves(parse, FrontOf(buf).rest);
    }
  }

  lemma {:induction false} StuckAtBadFrame<V>(parse: seq<Byte> -> Option<V>, buf: seq<Byte>)
    requires Drain(parse, buf).error.Some?
    ensures Bad(parse, FrontOf(Drain(parse, buf).rest))
    ensures Drain(parse, Drain(parse, buf).rest).error == Drain(parse, buf).error
    decreases |buf|
  {
    var f := FrontOf(buf);
    if f.Payload? && parse(f.payload).Some? {
      StuckAtBadFrame(parse, f.rest);
    }
  }

  /** After one failure every later push fails too, returns nothing, and only makes the buffer longer. */
  lemma {:induction false} FailureIsForEver<V>(parse: seq<Byte> -> Option<V>, buf: seq<Byte>, chunks: seq<seq<Byte>>)
    requires Bad(parse, FrontOf(buf))
    ensures Feed(parse, buf, chunks) == Fed([], buf + Concat(chunks), chunks != [])
    decreases |chunks|
  {
    if chunks == [] {
      assert buf + [] == buf;
    } else {
      FrontOfLonger(buf, chunks[0]);
      FailureIsForEver(parse, buf + chunks[0], chunks[1..]);
      Assoc(buf, chunks[0], Concat(chunks[1..]));
    }
  }
}
