/** From upstream bytes to operations: line splitting with a carry buffer, the `data:` prefix,
    and the result that the boundaries between Write calls do not matter. */
module StreamFraming {
  import opened Seqs
  import opened StreamModel

  newtype byte = x: int | 0 <= x < 256
  type Bytes = seq<byte>

  /** JSON decoding of one payload; None stands for a payload json.Unmarshal rejects. */
  type Decoder = Bytes -> Option<Chunk>

  const LF: byte := 10
  const CR: byte := 13
  const DATA: Bytes := [100, 97, 116, 97, 58]          // data:
  const DATA_SPACE: Bytes := DATA + [32]
  const DONE: Bytes := [91, 68, 79, 78, 69, 93]        // [DONE]

  function TrimPrefix(s: Bytes, prefix: Bytes): Bytes {
    if HasPrefix(s, prefix) then s[|prefix|..] else s
  }

  function TrimRightCR(s: Bytes): Bytes {
    if s != [] && Last(s) == CR then TrimRightCR(Init(s)) else s
  }

  predicate IsSpace1(a: byte) {
    9 <= a <= 13 || a == 32
  }

  /** Two-byte encodings of U+0085 and U+00A0. */
  predicate IsSpace2(a: byte, b: byte) {
    a == 0xC2 && (b == 0x85 || b == 0xA0)
  }

  /** Three-byte encodings of U+1680, U+2000–U+200A, U+2028, U+2029, U+202F, U+205F, U+3000. */
  predicate IsSpace3(a: byte, b: byte, c: byte) {
    || (a == 0xE1 && b == 0x9A && c == 0x80)
    || (a == 0xE2 && b == 0x80 && (0x80 <= c <= 0x8A || c == 0xA8 || c == 0xA9 || c == 0xAF))
    || (a == 0xE2 && b == 0x81 && c == 0x9F)
    || (a == 0xE3 && b == 0x80 && c == 0x80)
  }

  function TrimLeftSpace(s: Bytes): Bytes {
    if |s| >= 1 && IsSpace1(s[0]) then TrimLeftSpace(s[1..])
    else if |s| >= 2 && IsSpace2(s[0], s[1]) then TrimLeftSpace(s[2..])
    else if |s| >= 3 && IsSpace3(s[0], s[1], s[2]) then TrimLeftSpace(s[3..])
    else s
  }

  function TrimRightSpace(s: Bytes): Bytes {
    var n := |s|;
    if n >= 1 && IsSpace1(s[n - 1]) then TrimRightSpace(s[..n - 1])
    else if n >= 2 && IsSpace2(s[n - 2], s[n - 1]) then TrimRightSpace(s[..n - 2])
    else if n >= 3 && IsSpace3(s[n - 3], s[n - 2], s[n - 1]) then TrimRightSpace(s[..n - 3])
    else s
  }

  function TrimSpace(s: Bytes): Bytes {
    TrimRightSpace(TrimLeftSpace(s))
  }

  /** The operations one line causes; `line` has already lost its trailing CRs. */
  function LineOps(decode: Decoder, line: Bytes): seq<Op> {
    if !HasPrefix(line, DATA) then []
    else
      var data := TrimSpace(TrimPrefix(TrimPrefix(line, DATA_SPACE), DATA));
      if data == [] then []
      else if data == DONE then [Done]
      else match decode(data)
        case None => []
        case Some(chunk) => ChunkOps(chunk)
  }

  function LinesOps(decode: Decoder, lines: seq<Bytes>): seq<Op> {
    if lines == [] then []
    else LinesOps(decode, Init(lines)) + LineOps(decode, TrimRightCR(Last(lines)))
  }

  /** The operations of a whole body, an unterminated last line included. */
  function BodyOps(decode: Decoder, body: Bytes): seq<Op> {
    LinesOps(decode, Split(body, LF))
  }

  datatype Wire = Wire(carry: Bytes, statusCode: int, errBuf: Bytes, core: State)

  /** What Write does with one slice of upstream bytes. */
  function Feed(decode: Decoder, w: Wire, p: Bytes): Wire {
    if !w.core.started && w.statusCode >= 400 then w.(errBuf := w.errBuf + p)
    else
      var pieces := Split(w.carry + p, LF);
      w.(carry := Last(pieces), core := Run(w.core, LinesOps(decode, Init(pieces))))
  }

  function FeedAll(decode: Decoder, w: Wire, parts: seq<Bytes>): Wire {
    if parts == [] then w else Feed(decode, FeedAll(decode, w, Init(parts)), Last(parts))
  }

  /** The end of HandleMessages' streaming branch: flush the carry, then finalize if needed. */
  function Drain(decode: Decoder, w: Wire): Wire {
    var s := if w.carry == [] then w.core else Run(w.core, LineOps(decode, TrimRightCR(w.carry)));
    w.(carry := [], core := if s.started && !s.stopped then Finalize(s) else s)
  }

  lemma {:induction false} LinesOpsPlus(decode: Decoder, a: seq<Bytes>, b: seq<Bytes>)
    ensures LinesOps(decode, a + b) == LinesOps(decode, a) + LinesOps(decode, b)
  {
    if b == [] {
      assert a + b == a;
    } else {
      LinesOpsPlus(decode, a, Init(b));
      assert Init(a + b) == a + Init(b) && Last(a + b) == Last(b);
      PlusAssoc(LinesOps(decode, a), LinesOps(decode, Init(b)), LineOps(decode, TrimRightCR(Last(b))));
    }
  }

  lemma CloseToolsKeeps(s: State, ks: seq<int>)
    ensures CloseTools(s, ks).started == s.started
    ensures CloseTools(s, ks).stopped == s.stopped
    ensures CloseTools(s, ks).order == s.order && CloseTools(s, ks).nextBlockIdx == s.nextBlockIdx
  {
  }

  lemma {:induction false} RunStaysStarted(s: State, ops: seq<Op>)
    requires s.started
    ensures Run(s, ops).started
  {
    hide Step;
    if ops != [] {
      RunStaysStarted(s, Init(ops));
      StepStaysStarted(Run(s, Init(ops)), Last(ops));
    }
  }

  lemma StepStaysStarted(s: State, op: Op)
    requires s.started
    ensures Step(s, op).started
  {
    hide StepTool;
    match op
    case Tool(d) => StepToolKeeps(s, d);
    case Done =>
      var b := if !s.textOpen && |s.tools| == 0 then EnsureText(s) else s;
      var c := CloseText(b.(stopped := true));
      CloseToolsKeeps(c, c.order);
    case _ =>
  }

  /** Two Write calls do what one Write of the concatenation does. */
  lemma FeedTwice(decode: Decoder, w: Wire, p: Bytes, q: Bytes)
    ensures Feed(decode, Feed(decode, w, p), q) == Feed(decode, w, p + q)
  {
    hide LinesOps, Run, Split;
    if !w.core.started && w.statusCode >= 400 {
      assert (w.errBuf + p) + q == w.errBuf + (p + q);
    } else {
      var pieces := Split(w.carry + p, LF);
      var mid := Feed(decode, w, p);
      if w.core.started {
        RunStaysStarted(w.core, LinesOps(decode, Init(pieces)));
      }
      assert (w.carry + p) + q == w.carry + (p + q);
      SplitConcat(w.carry + p, q, LF);
      var more := Split(mid.carry + q, LF);
      assert Init(Init(pieces) + more) == Init(pieces) + Init(more);
      LinesOpsPlus(decode, Init(pieces), Init(more));
      RunPlus(w.core, LinesOps(decode, Init(pieces)), LinesOps(decode, Init(more)));
    }
  }

  /** Chunking is invisible: any partition of the bytes leaves the state one Write leaves. */
  lemma {:induction false} ChunkingInvisible(decode: Decoder, w: Wire, parts: seq<Bytes>)
    requires LF !in w.carry
    ensures FeedAll(decode, w, parts) == Feed(decode, w, Concat(parts))
  {
    if parts == [] {
      assert w.carry + [] == w.carry && w.errBuf + [] == w.errBuf;
      SplitFree(w.carry, LF);
    } else {
      ChunkingInvisible(decode, w, Init(parts));
      FeedTwice(decode, w, Concat(Init(parts)), Last(parts));
    }
  }

  /** With an error status nothing is translated: the buffer ends as the upstream's body, in whatever pieces
      it came. */
  lemma {:induction false} ErrorBodyKept(decode: Decoder, parts: seq<Bytes>, status: int)
    requires status >= 400
    ensures FeedAll(decode, Wire([], status, [], FRESH), parts) == Wire([], status, Concat(parts), FRESH)
  {
    if parts != [] {
      ErrorBodyKept(decode, Init(parts), status);
    }
  }

  lemma BodyOpsTail(decode: Decoder, body: Bytes, lines: seq<Bytes>)
    requires lines == Split(body, LF)
    ensures Run(FRESH, BodyOps(decode, body))
         == Run(Run(FRESH, LinesOps(decode, Init(lines))), LineOps(decode, TrimRightCR(Last(lines))))
  {
    RunPlus(FRESH, LinesOps(decode, Init(lines)), LineOps(decode, TrimRightCR(Last(lines))));
  }

  /** With a good status, a drained stream is the session of the body's lines, however it was cut. */
  lemma StreamIsSession(decode: Decoder, parts: seq<Bytes>, status: int)
    requires status < 400
    ensures Drain(decode, FeedAll(decode, Wire([], status, [], FRESH), parts)).core
         == Session(BodyOps(decode, Concat(parts)))
  {
    ChunkingInvisible(decode, Wire([], status, [], FRESH), parts);
    var body := Concat(parts);
    assert [] + body == body;
    BodyOpsTail(decode, body, Split(body, LF));
  }

  // ---- the lines of a body -------------------------------------------------------------------

  /** A line with any number of carriage returns at its end. */
  function Ended(line: Bytes, crs: nat): Bytes {
    line + seq(crs, i => 13)
  }

  lemma {:induction false} ReturnsGo(line: Bytes, crs: nat)
    requires line == [] || Last(line) != 13
    ensures TrimRightCR(Ended(line, crs)) == line
  {
    if crs == 0 {
      assert Ended(line, 0) == line;
    } else {
      assert Init(Ended(line, crs)) == Ended(line, crs - 1);
      ReturnsGo(line, crs - 1);
    }
  }

  lemma NoLineEnd(line: Bytes, crs: nat)
    requires 10 !in line
    ensures 10 !in Ended(line, crs)
  {
  }

  /** Lines end at byte 10, the carriage crs before it go with it, and the last line need not be ended:
      one line more says what it says, after what the lines before it say. */
  lemma LineAdded(decode: Decoder, front: Bytes, line: Bytes, crs: nat)
    requires front == [] || Last(front) == 10
    requires 10 !in line && (line == [] || Last(line) != 13)
    ensures var said := BodyOps(decode, front) + LineOps(decode, line);
            && BodyOps(decode, front + Ended(line, crs)) == said
            && BodyOps(decode, front + (Ended(line, crs) + [10])) == said
  {
    hide LineOps, TrimRightCR, Split, LinesOps, Ended;
    var last, pieces := Ended(line, crs), Init(Split(front, LF));
    ReturnsGo(line, crs);
    NoLineEnd(line, crs);
    OpenEnd(front);
    PiecesAfter(front, last);
    InitLast(Split(front, LF));
    NothingSaid(decode);
    OneMore(decode, pieces, []);
    OneMore(decode, pieces, last);
    OneMore(decode, pieces + [last], []);
  }

  lemma PiecesAfter(front: Bytes, last: Bytes)
    requires Last(Split(front, LF)) == [] && 10 !in last
    ensures Split(front + last, LF) == Init(Split(front, LF)) + [last]
    ensures Split(front + (last + [10]), LF) == Init(Split(front, LF)) + [last] + [[]]
  {
    hide Split;
    SplitFree(last, LF);
    SplitSnoc(last, 10, LF);
    assert [] + last == last && [] + (last + [10]) == last + [10];
    SplitConcat(front, last, LF);
    SplitConcat(front, last + [10], LF);
    PlusAssoc(Init(Split(front, LF)), [last], [[]]);
  }

  lemma OneMore(decode: Decoder, lines: seq<Bytes>, line: Bytes)
    ensures LinesOps(decode, lines + [line]) == LinesOps(decode, lines) + LineOps(decode, TrimRightCR(line))
  {
    assert Init(lines + [line]) == lines;
  }

  /** After a line end, or at the start, the open piece is empty. */
  lemma OpenEnd(front: Bytes)
    requires front == [] || Last(front) == 10
    ensures Last(Split(front, LF)) == []
  {
  }

  lemma NothingSaid(decode: Decoder)
    ensures TrimRightCR([]) == [] && LineOps(decode, []) == []
  {
  }

  // ---- which lines say what ------------------------------------------------------------------

  function Ascii(s: string): (b: Bytes)
    requires forall c | c in s :: c as int < 128
    ensures |b| == |s| && forall i | 0 <= i < |s| :: b[i] as int == s[i] as int
  {
    seq(|s|, i requires 0 <= i < |s| => assert s[i] in s; s[i] as int as byte)
  }

  /** A white-space code point in UTF-8: tab to carriage return, blank, U+0085, U+00A0, U+1680, U+2000 to
      U+200A, U+2028, U+2029, U+202F, U+205F, U+3000. */
  predicate White(c: Bytes) {
    || (|c| == 1 && c[0] in {9, 10, 11, 12, 13, 32})
    || c in {[0xC2, 0x85], [0xC2, 0xA0], [0xE1, 0x9A, 0x80], [0xE2, 0x80, 0xA8], [0xE2, 0x80, 0xA9], [0xE2, 0x80, 0xAF],
             [0xE2, 0x81, 0x9F], [0xE3, 0x80, 0x80]}
    || (|c| == 3 && c[0] == 0xE2 && c[1] == 0x80 && 0x80 <= c[2] <= 0x8A)
  }

  predicate Padding(pieces: seq<Bytes>) {
    forall i | 0 <= i < |pieces| :: White(pieces[i])
  }

  predicate VisibleEnds(s: Bytes) {
    s != [] && 33 <= s[0] <= 126 && 33 <= Last(s) <= 126
  }

  lemma OneLeft(c: Bytes, s: Bytes)
    requires White(c)
    ensures TrimLeftSpace(c + s) == TrimLeftSpace(s)
  {
    var t := c + s;
    assert t[0] == c[0] && (|c| > 1 ==> t[1] == c[1]) && (|c| > 2 ==> t[2] == c[2]) && t[|c|..] == s;
  }

  lemma OneRight(s: Bytes, c: Bytes)
    requires White(c)
    ensures TrimRightSpace(s + c) == TrimRightSpace(s)
  {
    var t, n := s + c, |s + c|;
    assert t[n - 1] == c[|c| - 1] && (|c| > 1 ==> t[n - 2] == c[|c| - 2]) && (|c| > 2 ==> t[n - 3] == c[|c| - 3])
        && t[..n - |c|] == s;
  }

  lemma {:induction false} LeftPadding(pad: seq<Bytes>, s: Bytes)
    requires Padding(pad)
    ensures TrimLeftSpace(Concat(pad) + s) == TrimLeftSpace(s)
  {
    hide TrimLeftSpace, White;
    if pad == [] {
      assert Concat(pad) + s == s;
    } else {
      LeftPadding(Init(pad), Last(pad) + s);
      OneLeft(Last(pad), s);
      PlusAssoc(Concat(Init(pad)), Last(pad), s);
    }
  }

  lemma {:induction false} RightPadding(s: Bytes, pad: seq<Bytes>)
    requires Padding(pad)
    ensures TrimRightSpace(s + Concat(pad)) == TrimRightSpace(s)
  {
    hide TrimRightSpace, White;
    if pad == [] {
      assert s + Concat(pad) == s;
    } else {
      PlusAssoc(s, Concat(Init(pad)), Last(pad));
      OneRight(s + Concat(Init(pad)), Last(pad));
      RightPadding(s, Init(pad));
    }
  }

  lemma VisibleStays(s: Bytes)
    requires s == [] || VisibleEnds(s)
    ensures TrimRightSpace(s) == s
    ensures s != [] ==> forall more: Bytes :: TrimLeftSpace(s + more) == s + more
  {
    if s != [] {
      forall more: Bytes ensures TrimLeftSpace(s + more) == s + more {
        assert (s + more)[0] == s[0];
      }
    }
  }

  lemma Trimmed(left: seq<Bytes>, s: Bytes, right: seq<Bytes>)
    requires Padding(left) && Padding(right) && (s == [] || VisibleEnds(s))
    ensures TrimLeftSpace(Concat(left) + s + Concat(right)) == if s == [] then [] else s + Concat(right)
    ensures TrimSpace(Concat(left) + s + Concat(right)) == s
  {
    hide TrimLeftSpace, TrimRightSpace, Padding, VisibleEnds, Concat;
    var l, r := Concat(left), Concat(right);
    PlusAssoc(l, s, r);
    LeftPadding(left, s + r);
    VisibleStays(s);
    if s == [] {
      assert s + r == r == r + [];
      LeftPadding(right, []);
      NothingLeft();
    } else {
      RightPadding(s, right);
    }
  }

  lemma NothingLeft()
    ensures TrimLeftSpace([]) == [] && TrimRightSpace([]) == []
  {
  }

  /** What a data line means, whatever white space surrounds its payload: nothing when it is empty, the end
      for [DONE], and the decoded chunk otherwise. Other lines mean nothing. */
  lemma LineMeans(decode: Decoder, left: seq<Bytes>, d: Bytes, right: seq<Bytes>)
    requires Padding(left) && Padding(right) && (d == [] || VisibleEnds(d)) && !(Ascii("data:") <= d)
    ensures LineOps(decode, Ascii("data:") + (Concat(left) + d + Concat(right)))
         == if d == [] then [] else if d == Ascii("[DONE]") then [Done]
            else match decode(d) case None => [] case Some(chunk) => ChunkOps(chunk)
  {
    hide ChunkOps, TrimSpace, TrimPrefix, Padding, VisibleEnds, Concat, TrimLeftSpace, HasPrefix;
    var rest := Concat(left) + d + Concat(right);
    assert DATA == Ascii("data:") && DONE == Ascii("[DONE]");
    Trimmed(left, d, right);
    DataPrefix(DATA + rest, rest);
    NotAgain(rest, d, right);
    if rest != [] && rest[0] == 32 {
      BlankFirst(rest);
      NotAgain(rest[1..], d, right);
    }
  }

  lemma BlankFirst(s: Bytes)
    requires s != [] && s[0] == 32
    ensures TrimLeftSpace(s[1..]) == TrimLeftSpace(s) && TrimSpace(s[1..]) == TrimSpace(s)
  {
  }

  /** The prefix goes once, with a blank after it if there is one. */
  lemma DataPrefix(line: Bytes, rest: Bytes)
    requires line == DATA + rest
    ensures HasPrefix(line, DATA)
    ensures TrimPrefix(TrimPrefix(line, DATA_SPACE), DATA)
         == if rest != [] && rest[0] == 32 then TrimPrefix(rest[1..], DATA) else rest
  {
    assert line[..5] == DATA && line[5..] == rest;
    if rest != [] {
      assert line[5] == rest[0];
      assert line[..6] == DATA + [rest[0]];
      assert line[6..] == rest[1..];
    }
  }

  lemma {:induction false} WhiteFirst(pieces: seq<Bytes>)
    requires Padding(pieces)
    ensures Concat(pieces) != [] ==> Concat(pieces)[0] in {9, 10, 11, 12, 13, 32, 0xC2, 0xE1, 0xE2, 0xE3}
  {
    if pieces != [] {
      WhiteFirst(Init(pieces));
    }
  }

  /** A second prefix would have to be in the payload. */
  lemma NotAgain(s: Bytes, d: Bytes, right: seq<Bytes>)
    requires Padding(right) && !(DATA <= d)
    requires TrimLeftSpace(s) == if d == [] then [] else d + Concat(right)
    ensures TrimPrefix(s, DATA) == s
  {
    hide Padding, Concat, HasPrefix, TrimLeftSpace;
    WhiteFirst(right);
    DataStays(s);
    NoPrefix(d, Concat(right));
  }

  lemma DataStays(s: Bytes)
    ensures HasPrefix(s, DATA) ==> s != [] && TrimLeftSpace(s) == s
  {
    StartsData(s);
  }

  lemma NoPrefix(d: Bytes, r: Bytes)
    requires !(DATA <= d) && (r == [] || r[0] in {9, 10, 11, 12, 13, 32, 0xC2, 0xE1, 0xE2, 0xE3})
    ensures !HasPrefix(d + r, DATA)
  {
    var s := d + r;
    StartsData(s);
    assert |d| >= 5 ==> s[..5] == d[..5];
    assert r != [] ==> s[|d|] == r[0];
  }

  lemma StartsData(s: Bytes)
    ensures HasPrefix(s, DATA) ==> |s| >= 5 && s[0] == 100 && s[1] == 97 && s[2] == 116 && s[3] == 97 && s[4] == 58
    ensures HasPrefix(s, DATA) <==> DATA <= s
  {
    if |s| >= 5 {
      assert s[0] == s[..5][0] && s[1] == s[..5][1] && s[2] == s[..5][2] && s[3] == s[..5][3] && s[4] == s[..5][4];
    }
  }

  lemma OtherLine(decode: Decoder, line: Bytes)
    requires !(Ascii("data:") <= line)
    ensures LineOps(decode, line) == []
  {
    assert DATA == Ascii("data:");
    StartsData(line);
  }

  /** A chunk: its usage, then the text, the tool deltas and the finish reason of its first choice. */
  lemma ChunkMeans(chunk: Chunk)
    ensures chunk.choices == [] ==> ChunkOps(chunk) == if chunk.usage.Some? then [Meter(chunk.usage.value)] else []
    ensures chunk.choices != [] ==>
              var ch := chunk.choices[0];
              ChunkOps(chunk) == (if chunk.usage.Some? then [Meter(chunk.usage.value)] else [])
                                 + ((if ch.content != "" then [Text(ch.content)] else [])
                                    + seq(|ch.toolCalls|, i requires 0 <= i < |ch.toolCalls| => Tool(ch.toolCalls[i]))
                                    + (if ch.finish.Some? then [Finish(ch.finish.value)] else []))
  {
    if chunk.choices != [] {
      var ch := chunk.choices[0];
      assert ToolOps(ch.toolCalls) == seq(|ch.toolCalls|, i requires 0 <= i < |ch.toolCalls| => Tool(ch.toolCalls[i]));
    }
  }
}
