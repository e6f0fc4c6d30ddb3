/** The transcript file read two ways: the incremental tail (packages/daemon/src/jsonl-watcher.ts)
    and the batch reader (packages/daemon/src/jsonl-history.ts). */
module Jsonl {
  import opened Frames
  import opened Sequences
  import opened Utf8

  const NEWLINE: Scalar := 10

  /** A complete line and the byte offset just behind its newline. */
  datatype Row = Row(line: Text, end: int)

  /** `t.indexOf("\n")`, or the length if there is none. */
  function NextNewline(t: Text): (n: nat)
    ensures n <= |t| && NEWLINE !in t[..n] && (n < |t| ==> t[n] == NEWLINE)
  {
    if t == [] || t[0] == NEWLINE then 0
    else
      assert t[..NextNewline(t[1..]) + 1] == [t[0]] + t[1..][..NextNewline(t[1..])];
      NextNewline(t[1..]) + 1
  }

  /** The complete lines of a text that starts at byte `base`. */
  function Rows(t: Text, base: int): seq<Row>
    decreases |t|
  {
    var n := NextNewline(t);
    if n == |t| then []
    else
      var next := base + ByteLength(t[..n + 1]);
      [Row(t[..n], next)] + Rows(t[n + 1..], next)
  }

  /** What follows the last newline. */
  function Rest(t: Text): Text
    decreases |t|
  {
    var n := NextNewline(t);
    if n == |t| then t else Rest(t[n + 1..])
  }

  lemma NewlineOfConcat(a: Text, b: Text)
    ensures NextNewline(a) < |a| ==> NextNewline(a + b) == NextNewline(a)
    ensures NextNewline(a) == |a| ==> NextNewline(a + b) == |a| + NextNewline(b)
  {
    if a == [] {
      assert a + b == b;
    } else {
      assert (a + b)[1..] == a[1..] + b;
    }
  }

  lemma RowsUnfold(t: Text, base: int)
    ensures var n := NextNewline(t);
            if n == |t| then Rows(t, base) == [] && Rest(t) == t
            else
              var next := base + ByteLength(t[..n + 1]);
              && Rows(t, base) == [Row(t[..n], next)] + Rows(t[n + 1..], next)
              && Rest(t) == Rest(t[n + 1..])
              && ByteLength(t) == ByteLength(t[..n + 1]) + ByteLength(t[n + 1..])
  {
    hide NextNewline, ByteLength;
    var n := NextNewline(t);
    if n < |t| {
      assert t == t[..n + 1] + t[n + 1..];
      ByteLengthConcat(t[..n + 1], t[n + 1..]);
    }
  }

  /** Reading on: the lines of a longer text are those already complete and those that the
      unfinished rest completes. */
  lemma {:induction false} RowsSplit(a: Text, b: Text, base: int)
    ensures Rows(a + b, base) == Rows(a, base) + Rows(Rest(a) + b, base + ByteLength(a) - ByteLength(Rest(a)))
    ensures Rest(a + b) == Rest(Rest(a) + b)
    decreases |a|
  {
    hide NextNewline, ByteLength, Rows, Rest;
    var n := NextNewline(a);
    RowsUnfold(a, base);
    if n == |a| {
      assert [] + Rows(a + b, base) == Rows(a + b, base);
    } else {
      var left := a[n + 1..];
      var next := base + ByteLength(a[..n + 1]);
      NewlineOfConcat(a, b);
      RowsUnfold(a + b, base);
      assert (a + b)[..n + 1] == a[..n + 1] && (a + b)[..n] == a[..n] && (a + b)[n + 1..] == left + b;
      RowsSplit(left, b, next);
      Assoc([Row(a[..n], next)], Rows(left, next), Rows(Rest(a) + b, base + ByteLength(a) - ByteLength(Rest(a))));
    }
  }

  /** The same rows with every end moved. */
  function Moved(rows: seq<Row>, d: int): (r: seq<Row>)
    ensures |r| == |rows| && forall i | 0 <= i < |rows| :: r[i] == Row(rows[i].line, rows[i].end + d)
  {
    if rows == [] then [] else [Row(rows[0].line, rows[0].end + d)] + Moved(rows[1..], d)
  }

  lemma {:induction false} RowsShift(t: Text, base: int, d: int)
    ensures Rows(t, base + d) == Moved(Rows(t, base), d)
    decreases |t|
  {
    hide NextNewline, ByteLength, Rows, Rest;
    var n := NextNewline(t);
    RowsUnfold(t, base);
    RowsUnfold(t, base + d);
    if n < |t| {
      RowsShift(t[n + 1..], base + ByteLength(t[..n + 1]), d);
    }
  }

  lemma {:induction false} RowsIncrease(t: Text, base: int)
    ensures forall i | 0 <= i < |Rows(t, base)| :: base < Rows(t, base)[i].end <= base + ByteLength(t)
    ensures forall i, j | 0 <= i < j < |Rows(t, base)| :: Rows(t, base)[i].end < Rows(t, base)[j].end
    decreases |t|
  {
    hide NextNewline, ByteLength;
    var n := NextNewline(t);
    if n < |t| {
      var next := base + ByteLength(t[..n + 1]);
      RowsIncrease(t[n + 1..], next);
      ByteLengthAtLeast(t[..n + 1]);
      assert t == t[..n + 1] + t[n + 1..];
      ByteLengthConcat(t[..n + 1], t[n + 1..]);
    }
  }

  // ----- the incremental tail -----

  datatype Tail = Tail(offset: nat, buffer: Text)

  /** The lines the loop of `drain` takes off `buffer` when the file is `offset` bytes long. */
  function Emitted(buffer: Text, offset: int): seq<Row>
    decreases |buffer|
  {
    var n := NextNewline(buffer);
    if n == |buffer| then []
    else
      var left := buffer[n + 1..];
      [Row(buffer[..n], offset - ByteLength(left))] + Emitted(left, offset)
  }

  /** A shorter file than was read means truncation. */
  function Resynced(s: Tail, size: nat): Tail {
    if size < s.offset then Tail(0, []) else s
  }

  /** One `drain` of a readable file. */
  function Drained(s: Tail, file: seq<Byte>): (Tail, seq<Row>) {
    var s1 := Resynced(s, |file|);
    if |file| <= s1.offset then (s1, [])
    else
      var text := s1.buffer + Decode(file[s1.offset..]);
      (Tail(|file|, Rest(text)), Emitted(text, |file|))
  }

  function DrainAll(s: Tail, files: seq<seq<Byte>>): (Tail, seq<Row>)
    decreases |files|
  {
    if files == [] then (s, [])
    else
      var (s1, rows) := Drained(s, files[0]);
      var (s2, more) := DrainAll(s1, files[1..]);
      (s2, rows + more)
  }

  lemma {:induction false} EmittedUnfold(buffer: Text, offset: int)
    ensures Emitted(buffer, offset) ==
      var n := NextNewline(buffer);
      if n == |buffer| then []
      else [Row(buffer[..n], offset - ByteLength(buffer[n + 1..]))] + Emitted(buffer[n + 1..], offset)
  {
  }

  lemma {:induction false} RestUnfold(buffer: Text)
    ensures Rest(buffer) ==
      var n := NextNewline(buffer);
      if n == |buffer| then buffer else Rest(buffer[n + 1..])
  {
  }

  class Watcher {
    var offset: nat
    var buffer: Text
    var closed: bool

    ghost function View(): Tail
      reads this
    {
      Tail(offset, buffer)
    }

    constructor (startOffset: nat)
      ensures View() == Tail(startOffset, []) && !closed
    {
      offset, buffer, closed := startOffset, [], false;
    }

    /** `file` is None when the path does not exist or cannot be examined. */
    method Drain(file: Option<seq<Byte>>, openFails: bool) returns (rows: seq<Row>)
      modifies this
      ensures closed == old(closed)
      ensures old(closed) || file.None? ==> View() == old(View()) && rows == []
      ensures !old(closed) && file.Some? && openFails ==>
        View() == old(Resynced(View(), |file.value|)) && rows == []
      ensures !old(closed) && file.Some? && !openFails ==>
        View() == old(Drained(View(), file.value).0) && rows == old(Drained(View(), file.value).1)
    {
      hide NextNewline, ByteLength, Decode, Emitted, Rest;
      rows := [];
      if closed || file.None? { return; }
      var size := |file.value|;
      if size < offset {
        offset, buffer := 0, [];
      }
      if size <= offset { return; }
      if openFails { return; }
      var chunk := file.value[offset..];
      offset := size;
      buffer := buffer + Decode(chunk);
      ghost var text := buffer;
      var nl := NextNewline(buffer);
      while nl < |buffer|
        invariant offset == size && closed == old(closed) && nl == NextNewline(buffer)
        invariant rows + Emitted(buffer, size) == Emitted(text, size)
        invariant Rest(buffer) == Rest(text)
        decreases |buffer|
      {
        var line := buffer[..nl];
        EmittedUnfold(buffer, size);
        RestUnfold(buffer);
        buffer := buffer[nl + 1..];
        var lineOffset := offset - ByteLength(buffer);
        Assoc(rows, [Row(line, lineOffset)], Emitted(buffer, size));
        rows := rows + [Row(line, lineOffset)];
        nl := NextNewline(buffer);
      }
      EmittedUnfold(buffer, size);
      RestUnfold(buffer);
      assert rows + [] == rows;
    }

    method Close()
      modifies this
      ensures closed && View() == old(View())
    {
      closed := true;
    }
  }

  lemma {:induction false} EmittedIsRows(t: Text, base: int)
    ensures Emitted(t, base + ByteLength(t)) == Rows(t, base)
    decreases |t|
  {
    hide NextNewline, ByteLength;
    var n := NextNewline(t);
    if n < |t| {
      assert t == t[..n + 1] + t[n + 1..];
      ByteLengthConcat(t[..n + 1], t[n + 1..]);
      EmittedIsRows(t[n + 1..], base + ByteLength(t[..n + 1]));
    }
  }

  /** The tail after reading exactly the characters of `t`. */
  function At(t: Text): Tail {
    Tail(ByteLength(t), Rest(t))
  }

  lemma DrainGrowth(t: Text, u: Text)
    ensures Drained(At(t), EncodeAll(t + u)).0 == At(t + u)
    ensures Rows(t, 0) + Drained(At(t), EncodeAll(t + u)).1 == Rows(t + u, 0)
  {
    hide NextNewline, Rows, Rest, Emitted, Decode, Encode, ByteLength, EncodeAll;
    EncodeAllConcat(t, u);
    EncodeAllLength(t);
    EncodeAllLength(u);
    ByteLengthConcat(t, u);
    var file := EncodeAll(t + u);
    if u == [] {
      assert t + u == t;
    } else {
      DecodeExactly(u);
      ByteLengthAtLeast(u);
      assert file[ByteLength(t)..] == EncodeAll(u);
      RowsSplit(t, u, 0);
      ByteLengthConcat(Rest(t), u);
      EmittedIsRows(Rest(t) + u, ByteLength(t) - ByteLength(Rest(t)));
    }
  }

  ghost predicate Extends(t: Text, u: Text) {
    |t| <= |u| && u[..|t|] == t
  }

  /** Each text continues the one before it. */
  ghost predicate Grows(t: Text, texts: seq<Text>)
    decreases |texts|
  {
    texts != [] ==> Extends(t, texts[0]) && Grows(texts[0], texts[1..])
  }

  function Files(texts: seq<Text>): seq<seq<Byte>> {
    if texts == [] then [] else [EncodeAll(texts[0])] + Files(texts[1..])
  }

  function LastOf(t: Text, texts: seq<Text>): Text
    decreases |texts|
  {
    if texts == [] then t else LastOf(texts[0], texts[1..])
  }

  lemma {:induction false} DrainsFollow(t: Text, texts: seq<Text>)
    requires Grows(t, texts)
    ensures DrainAll(At(t), Files(texts)).0 == At(LastOf(t, texts))
    ensures Rows(t, 0) + DrainAll(At(t), Files(texts)).1 == Rows(LastOf(t, texts), 0)
    decreases |texts|
  {
    if texts != [] {
      var u := texts[0];
      assert u == t + u[|t|..];
      DrainGrowth(t, u[|t|..]);
      DrainsFollow(u, texts[1..]);
      assert Files(texts)[1..] == Files(texts[1..]);
      Assoc(Rows(t, 0), Drained(At(t), EncodeAll(u)).1, DrainAll(At(u), Files(texts[1..])).1);
    }
  }

  /** A file shorter than what was read is read as a new one: nothing of the former text, the unfinished
      line included, comes into any later row. */
  lemma TruncationStartsOver(s: Tail, file: seq<Byte>, more: seq<seq<Byte>>)
    requires |file| < s.offset
    ensures DrainAll(s, [file] + more) == DrainAll(Tail(0, []), [file] + more)
  {
  }

  /** So after a truncation the rows are those of one scan of the new text. */
  lemma RowsAfterTruncation(s: Tail, texts: seq<Text>)
    requires Grows([], texts) && texts != [] && |EncodeAll(texts[0])| < s.offset
    ensures DrainAll(s, Files(texts)).1 == Rows(LastOf([], texts), 0)
  {
    var files := Files(texts);
    TruncationStartsOver(s, files[0], files[1..]);
    assert files == [files[0]] + files[1..];
    assert At([]) == Tail(0, []);
    DrainsFollow([], texts);
    assert Rows([], 0) + DrainAll(Tail(0, []), files).1 == DrainAll(Tail(0, []), files).1;
  }

  // ----- the batch reader -----

  /** The leading rows that end at or before `before`. */
  function UpTo(rows: seq<Row>, before: int): seq<Row> {
    if rows == [] || rows[0].end > before then [] else [rows[0]] + UpTo(rows[1..], before)
  }

  /** The answer to one history request over these rows. */
  function Answer(rows: seq<Row>, before: int, limit: int): seq<Row> {
    if before <= 0 || limit <= 0 then [] else LastN(UpTo(rows, before), limit)
  }

  function History(file: seq<Byte>, before: int, limit: int): seq<Row> {
    Answer(Rows(Decode(file), 0), before, limit)
  }

  /** The rows still to come when the scan has reached `pos`. */
  ghost function Ahead(content: Text, pos: nat, before: int): seq<Row>
    requires pos <= |content|
  {
    UpTo(Rows(content[pos..], ByteLength(content[..pos])), before)
  }

  lemma AheadStep(content: Text, pos: nat, before: int)
    requires pos <= |content|
    ensures var n := NextNewline(content[pos..]);
            if pos + n == |content| then Ahead(content, pos, before) == []
            else
              var end := ByteLength(content[..pos + n + 1]);
              Ahead(content, pos, before) ==
                if end > before then []
                else [Row(content[pos..pos + n], end)] + Ahead(content, pos + n + 1, before)
  {
    hide NextNewline, ByteLength, Rows, Rest;
    var n := NextNewline(content[pos..]);
    if pos + n == |content| {
      RowsUnfold(content[pos..], ByteLength(content[..pos]));
    } else {
      LineEnds(content, pos, n);
    }
  }

  method ReadHistory(file: Option<seq<Byte>>, before: int, limit: int) returns (events: seq<Row>)
    ensures events == if file.None? then [] else History(file.value, before, limit)
  {
    hide NextNewline, ByteLength, Rows, UpTo, Decode, Ahead, LastN, Encode, EncodeAll;
    if file.None? || before <= 0 || limit <= 0 { return []; }
    var content := Decode(file.value);
    var pos := 0;
    var all: seq<Row> := [];
    AheadAtStart(content, before);
    while pos < |content|
      invariant 0 <= pos <= |content|
      invariant all + Ahead(content, pos, before) == UpTo(Rows(content, 0), before)
      decreases |content| - pos
    {
      AheadStep(content, pos, before);
      var nl := pos + NextNewline(content[pos..]);
      if nl == |content| { break; }
      var line := content[pos..nl];
      var lineEnd := ByteLength(content[..nl + 1]);
      if lineEnd > before { break; }
      Assoc(all, [Row(line, lineEnd)], Ahead(content, nl + 1, before));
      all := all + [Row(line, lineEnd)];
      pos := nl + 1;
    }
    AheadStep(content, pos, before);
    return LastN(all, limit);
  }

  lemma AheadAtStart(content: Text, before: int)
    ensures Ahead(content, 0, before) == UpTo(Rows(content, 0), before)
  {
    hide Rows, UpTo;
    assert content[0..] == content;
    EmptyLength(content);
  }

  lemma EmptyLength(t: Text)
    ensures ByteLength(t[..0]) == 0
  {
  }

  lemma LineEnds(content: Text, pos: nat, ahead: nat)
    requires pos <= |content| && ahead == NextNewline(content[pos..]) < |content| - pos
    ensures Rows(content[pos..], ByteLength(content[..pos])) ==
      [Row(content[pos..pos + ahead], ByteLength(content[..pos + ahead + 1]))]
        + Rows(content[pos + ahead + 1..], ByteLength(content[..pos + ahead + 1]))
  {
    hide NextNewline, ByteLength, Rows, Rest;
    var t := content[pos..];
    RowsUnfold(t, ByteLength(content[..pos]));
    assert t[..ahead] == content[pos..pos + ahead];
    assert t[ahead + 1..] == content[pos + ahead + 1..];
    assert content[..pos + ahead + 1] == content[..pos] + t[..ahead + 1];
    ByteLengthConcat(content[..pos], t[..ahead + 1]);
  }

  /** The rows returned are all the rows that end at or before the bound, cut to the last few. */
  lemma {:induction false} UpToIsAll(rows: seq<Row>, before: int)
    requires forall i, j | 0 <= i < j < |rows| :: rows[i].end < rows[j].end
    ensures |UpTo(rows, before)| <= |rows| && UpTo(rows, before) == rows[..|UpTo(rows, before)|]
    ensures forall i | 0 <= i < |rows| :: i < |UpTo(rows, before)| <==> rows[i].end <= before
  {
    if rows != [] && rows[0].end <= before {
      UpToIsAll(rows[1..], before);
      var n := |UpTo(rows[1..], before)|;
      assert rows[..n + 1] == [rows[0]] + rows[1..][..n];
      forall i | 0 <= i < |rows| ensures i < n + 1 <==> rows[i].end <= before {
        if i > 0 { assert rows[i] == rows[1..][i - 1]; }
      }
    }
  }

  lemma UpToTop(rows: seq<Row>, before: int, top: nat)
    requires forall i, j | 0 <= i < j < |rows| :: rows[i].end < rows[j].end
    requires top <= |rows| && (top > 0 ==> rows[top - 1].end <= before) && (top < |rows| ==> rows[top].end > before)
    ensures UpTo(rows, before) == rows[..top]
  {
    hide UpTo;
    UpToIsAll(rows, before);
  }

  // ----- the two readers agree -----

  /** However the file grew and whenever it was drained, between whole characters: the live rows are
      the rows of one scan of the final file, offsets included, and every history answer is the
      last few of the live rows that end at or before its bound. */
  lemma LiveMatchesHistory(texts: seq<Text>, before: int, limit: int)
    requires Grows([], texts)
    ensures var live := DrainAll(Tail(0, []), Files(texts)).1;
            && live == Rows(LastOf([], texts), 0)
            && History(EncodeAll(LastOf([], texts)), before, limit) == Answer(live, before, limit)
  {
    var t := LastOf([], texts);
    assert At([]) == Tail(0, []);
    DrainsFollow([], texts);
    assert Rows([], 0) + DrainAll(Tail(0, []), Files(texts)).1 == DrainAll(Tail(0, []), Files(texts)).1;
    DecodeExactly(t);
  }

  // ----- drains that end inside a character -----

  /** What a drain that stops inside a character appends to the buffer. */
  lemma CutText(t: Text, u: Text, c: Scalar, k: nat)
    requires 0 < k < Width(c)
    ensures var file := EncodeAll(t + u) + Encode(c)[..k];
            && |file| == ByteLength(t) + ByteLength(u) + k
            && Decode(file[ByteLength(t)..]) == u + [REPLACEMENT]
  {
    hide Decode, Encode, EncodeAll, ByteLength;
    EncodeAllConcat(t, u);
    EncodeAllLength(t);
    EncodeAllLength(u);
    var cut := Encode(c)[..k];
    assert (EncodeAll(t + u) + cut)[ByteLength(t)..] == EncodeAll(u) + cut;
    DecodeTruncated(u, c, k);
  }

  lemma CutRows(text: Text, base: int, d: int)
    ensures Emitted(text + [REPLACEMENT], base + ByteLength(text) + 3 + d) == Moved(Rows(text, base), d)
  {
    hide NextNewline, Rows, Rest, Emitted, ByteLength;
    var more := text + [REPLACEMENT];
    ByteLengthConcat(text, [REPLACEMENT]);
    ReplacementLength();
    EmittedIsRows(more, base + d);
    RowsSplit(text, [REPLACEMENT], base + d);
    RestHasNoNewline(text);
    LoneTail(Rest(text));
    RowsShift(text, base, d);
  }

  lemma ReplacementLength()
    ensures ByteLength([REPLACEMENT]) == 3
  {
    assert [REPLACEMENT][1..] == [];
  }

  /** A drain that stops `k` bytes into a character reports every line of that drain with its end
      moved by `k - 3`: the offsets are right exactly when the cut leaves three bytes, or when the
      drain completes no line. */
  lemma CutShiftsOffsets(t: Text, u: Text, c: Scalar, k: nat)
    requires 0 < k < Width(c)
    ensures var rows := Drained(At(t), EncodeAll(t + u) + Encode(c)[..k]).1;
            var right := Rows(Rest(t) + u, ByteLength(t) - ByteLength(Rest(t)));
            && rows == Moved(right, k - 3)
            && (rows == right <==> k == 3 || right == [])
  {
    hide NextNewline, Rows, Rest, Emitted, Decode, Encode, EncodeAll, ByteLength, Moved;
    var text := Rest(t) + u;
    var base := ByteLength(t) - ByteLength(Rest(t));
    CutText(t, u, c, k);
    ByteLengthConcat(Rest(t), u);
    Assoc(Rest(t), u, [REPLACEMENT]);
    CutRows(text, base, k - 3);
    var right := Rows(text, base);
    if right != [] && k != 3 {
      assert Moved(right, k - 3)[0].end != right[0].end;
    }
  }

  lemma {:induction false} RestHasNoNewline(t: Text)
    ensures NextNewline(Rest(t)) == |Rest(t)|
    decreases |t|
  {
    var n := NextNewline(t);
    if n < |t| { RestHasNoNewline(t[n + 1..]); }
  }

  lemma LoneTail(r: Text)
    requires NextNewline(r) == |r|
    ensures forall base :: Rows(r + [REPLACEMENT], base) == []
  {
    NewlineOfConcat(r, [REPLACEMENT]);
    assert [REPLACEMENT][1..] == [];
  }

  /** The characters left behind by a cut. */
  lemma CutTail(t: Text, c: Scalar, k: nat)
    requires 0 < k < Width(c)
    ensures Drained(At(t), EncodeAll(t) + Encode(c)[..k]) == (Tail(ByteLength(t) + k, Rest(t) + [REPLACEMENT]), [])
  {
    hide NextNewline, Decode, Encode, EncodeAll, ByteLength;
    EncodeAllLength(t);
    var file := EncodeAll(t) + Encode(c)[..k];
    assert file[ByteLength(t)..] == Encode(c)[..k];
    CharacterCut(c, k);
    RestHasNoNewline(t);
    NewlineOfConcat(Rest(t), [REPLACEMENT]);
    assert NextNewline([REPLACEMENT]) == 1 by { OneCharacter(); }
  }

  lemma OneCharacter()
    ensures NextNewline([REPLACEMENT]) == 1
  {
    assert [REPLACEMENT][1..] == [];
  }

  lemma ResumedText(t: Text, c: Scalar, k: nat, v: Text)
    requires 0 < k < Width(c)
    ensures var file := EncodeAll(t + [c] + v);
            && |file| == ByteLength(t) + Width(c) + ByteLength(v)
            && Decode(file[ByteLength(t) + k..]) == Replacements(Width(c) - k) + v
  {
    hide Decode, Encode, EncodeAll, ByteLength, Width, Replacements, Continues;
    EncodeAllConcat(t + [c], v);
    EncodeAllConcat(t, [c]);
    EncodeAllLength(t);
    EncodeAllLength(v);
    EncodeOne(c);
    var left := Encode(c)[k..];
    assert EncodeAll(t + [c] + v)[ByteLength(t) + k..] == left + EncodeAll(v);
    forall i | 0 <= i < |left| ensures Continues(left[i]) { EncodeContinues(c, k + i); }
    DecodeLeftover(left, EncodeAll(v));
    DecodeExactly(v);
  }

  /** The first row of a text that begins with an unfinished line. */
  lemma FirstLine(r: Text, v: Text, offset: int)
    requires NextNewline(r) == |r| && NextNewline(v) < |v|
    ensures Emitted(r + v, offset) != [] && |Emitted(r + v, offset)[0].line| == |r| + NextNewline(v)
    ensures Rows(r + v, offset) != [] && |Rows(r + v, offset)[0].line| == |r| + NextNewline(v)
  {
    hide NextNewline, ByteLength;
    NewlineOfConcat(r, v);
  }

  lemma NoNewline(r: Text)
    requires NEWLINE !in r
    ensures NextNewline(r) == |r|
  {
  }

  /** One drain that reads only the beginning of a character, then one that reads on to the end of a
      line: the line it completes is not the line of the file. */
  lemma CutCorruptsLine(t: Text, c: Scalar, k: nat, v: Text)
    requires 0 < k < Width(c) && NextNewline(v) < |v|
    ensures DrainAll(At(t), [EncodeAll(t) + Encode(c)[..k], EncodeAll(t + [c] + v)]).1
         != Rows(Rest(t) + [c] + v, ByteLength(t) - ByteLength(Rest(t)))
  {
    hide NextNewline, Decode, Encode, EncodeAll, ByteLength, Rows, Emitted;
    var first, second := EncodeAll(t) + Encode(c)[..k], EncodeAll(t + [c] + v);
    CutTail(t, c, k);
    ResumedText(t, c, k, v);
    RestHasNoNewline(t);
    var s1 := Tail(ByteLength(t) + k, Rest(t) + [REPLACEMENT]);
    var r := Rest(t) + [REPLACEMENT] + Replacements(Width(c) - k);
    assert s1.buffer + (Replacements(Width(c) - k) + v) == r + v;
    assert NEWLINE !in Rest(t) by { assert Rest(t)[..|Rest(t)|] == Rest(t); }
    NoNewline(r);
    FirstLine(r, v, |second|);
    NoNewline(Rest(t) + [c]);
    FirstLine(Rest(t) + [c], v, ByteLength(t) - ByteLength(Rest(t)));
    var files := [first, second];
    assert files[1..] == [second] ;
    var rows := Drained(s1, second).1;
    assert DrainAll(s1, [second]).1 == rows;
    assert DrainAll(At(t), files).1 == rows;
  }
}
