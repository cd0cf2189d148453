/** extractFromCapturedBody on bytes: the loop over scanned lines, and the agreement with the
    streaming translator on one and the same body. */
module StreamCapture {
  import opened Seqs
  import opened StreamModel
  import opened StreamFraming
  import opened StreamAgreement
  import opened StreamBatch

  // ---- the whole-JSON shape ----------------------------------------------------------------

  datatype CompletionChoice = CompletionChoice(content: string, toolCalls: seq<ToolCall>, finish: string)
  datatype Completion = Completion(choices: seq<CompletionChoice>)
  type WholeDecoder = Bytes -> Option<Completion>

  datatype Extraction = Extraction(text: string, finish: string, calls: seq<ToolCall>)

  const OPEN_BRACE: byte := 123

  /** The completion a body is, when it is one JSON object with at least one choice. */
  function WholeBody(decodeWhole: WholeDecoder, body: Bytes): Option<CompletionChoice> {
    var trimmed := TrimSpace(body);
    if trimmed == [] || trimmed[0] != OPEN_BRACE then None
    else match decodeWhole(trimmed)
      case None => None
      case Some(c) => if c.choices == [] then None else Some(c.choices[0])
  }

  // ---- the scanner -------------------------------------------------------------------------

  /** bufio.Scanner's buffer limit: a longer line ends the scan. */
  const MAX_LINE := 4 * 1024 * 1024

  function DropCR(line: Bytes): Bytes {
    if line != [] && Last(line) == CR then Init(line) else line
  }

  /** The lines before the first one that does not fit the buffer. */
  function Scannable(lines: seq<Bytes>): seq<Bytes> {
    if lines == [] || |lines[0]| >= MAX_LINE then [] else [lines[0]] + Scannable(lines[1..])
  }

  // ---- one line at a time ------------------------------------------------------------------

  /** The chunk a line carries, as the batch code reads it. */
  function LineChunk(decode: Decoder, line: Bytes): Option<Chunk> {
    if !HasPrefix(line, DATA) then None
    else
      var data := TrimSpace(TrimPrefix(line, DATA));
      if data == [] || data == DONE then None else decode(data)
  }

  /** Tool calls of a full message are keyed by their position in the order list. */
  function AddCall(b: Batch, tc: ToolCall): Batch {
    b.(accs := b.accs[|b.order| := Acc(tc.id, tc.name, tc.arguments)], order := b.order + [|b.order|])
  }

  function AddCalls(b: Batch, tcs: seq<ToolCall>): Batch {
    if tcs == [] then b else AddCall(AddCalls(b, Init(tcs)), Last(tcs))
  }

  function AddContent(b: Batch, ch: Choice): Batch {
    if ch.content != "" then b.(text := b.text + ch.content)
    else match ch.message
      case None => b
      case Some(m) => AddCalls(b.(text := b.text + m.content), m.toolCalls)
  }

  function AddChoice(b: Batch, ch: Choice): Batch {
    var c := BatchFrom(AddContent(b, ch), ToolOps(ch.toolCalls));
    match ch.finish case None => c case Some(reason) => c.(finish := reason)
  }

  function AddLine(decode: Decoder, b: Batch, line: Bytes): Batch {
    match LineChunk(decode, DropCR(line))
    case None => b
    case Some(chunk) => if chunk.choices == [] then b else AddChoice(b, chunk.choices[0])
  }

  function AddLines(decode: Decoder, lines: seq<Bytes>): Batch {
    if lines == [] then EMPTY_BATCH else AddLine(decode, AddLines(decode, Init(lines)), Last(lines))
  }

  ghost predicate Keyed(b: Batch) {
    forall i | 0 <= i < |b.order| :: b.order[i] in b.accs
  }

  function Calls(b: Batch): (calls: seq<ToolCall>)
    requires Keyed(b)
    ensures |calls| == |b.order|
  {
    seq(|b.order|, i requires 0 <= i < |b.order| =>
      ToolCall(b.accs[b.order[i]].id, b.accs[b.order[i]].name, b.accs[b.order[i]].arguments))
  }

  lemma {:induction false} BatchFromKeyed(b: Batch, ops: seq<Op>)
    requires Keyed(b)
    ensures Keyed(BatchFrom(b, ops))
  {
    if ops != [] {
      BatchFromKeyed(b, Init(ops));
    }
  }

  lemma {:induction false} AddCallsKeyed(b: Batch, tcs: seq<ToolCall>)
    requires Keyed(b)
    ensures Keyed(AddCalls(b, tcs))
  {
    if tcs != [] {
      AddCallsKeyed(b, Init(tcs));
    }
  }

  lemma AddChoiceKeyed(b: Batch, ch: Choice)
    requires Keyed(b)
    ensures Keyed(AddContent(b, ch)) && Keyed(AddChoice(b, ch))
  {
    if ch.message.Some? {
      AddCallsKeyed(b.(text := b.text + ch.message.value.content), ch.message.value.toolCalls);
    }
    BatchFromKeyed(AddContent(b, ch), ToolOps(ch.toolCalls));
  }

  lemma {:induction false} AddLinesKeyed(decode: Decoder, lines: seq<Bytes>)
    ensures Keyed(AddLines(decode, lines))
  {
    if lines != [] {
      AddLinesKeyed(decode, Init(lines));
      match LineChunk(decode, DropCR(Last(lines)))
      case None =>
      case Some(chunk) =>
        if chunk.choices != [] {
          AddChoiceKeyed(AddLines(decode, Init(lines)), chunk.choices[0]);
        }
    }
  }

  /** What extractFromCapturedBody returns. */
  ghost function Extracted(decodeWhole: WholeDecoder, decode: Decoder, body: Bytes): Extraction {
    match WholeBody(decodeWhole, body)
    case Some(ch) => Extraction(ch.content, ch.finish, ch.toolCalls)
    case None =>
      var b := AddLines(decode, Scannable(Split(body, LF)));
      AddLinesKeyed(decode, Scannable(Split(body, LF)));
      Extraction(b.text, b.finish, Calls(b))
  }

  /** A body is read whole exactly if its first visible byte is an opening brace and it decodes to a
      completion with a choice; then the first choice is the reading. */
  lemma WholeReading(decodeWhole: WholeDecoder, decode: Decoder, body: Bytes)
    ensures var trimmed := TrimSpace(body);
            var whole := trimmed != [] && trimmed[0] as int == '{' as int
                         && decodeWhole(trimmed).Some? && decodeWhole(trimmed).value.choices != [];
            && (WholeBody(decodeWhole, body).Some? <==> whole)
            && (whole ==> var c := decodeWhole(trimmed).value.choices[0];
                          Extracted(decodeWhole, decode, body) == Extraction(c.content, c.finish, c.toolCalls))
  {
    hide TrimSpace, AddLines;
  }

  /** The scanner reads up to the first line of four megabytes or more. */
  lemma {:induction false} ScannableIs(lines: seq<Bytes>)
    ensures Scannable(lines) <= lines
    ensures forall i | 0 <= i < |Scannable(lines)| :: |lines[i]| < 4194304
    ensures Scannable(lines) == lines || |lines[|Scannable(lines)|]| >= 4194304
  {
    if lines != [] && |lines[0]| < MAX_LINE {
      ScannableIs(lines[1..]);
      assert lines == [lines[0]] + lines[1..];
      forall i | 0 <= i < |Scannable(lines)| ensures |lines[i]| < 4194304 {
        assert i > 0 ==> lines[i] == lines[1..][i - 1];
      }
    }
  }

  /** The call stands at place k, under k. */
  predicate CallAt(c: Batch, k: nat, tc: ToolCall) {
    k < |c.order| && c.order[k] == k && k in c.accs && c.accs[k] == Acc(tc.id, tc.name, tc.arguments)
  }

  /** A chunk that carries a full message: its text is read where the choice has none of its own, and its
      tool calls go to the end of the list, if no earlier delta took their places. */
  lemma FullMessage(b: Batch, ch: Choice)
    requires (forall k | k in b.accs :: k < |b.order|) && ch.message.Some?
    ensures ch.content != "" ==> AddContent(b, ch) == b.(text := b.text + ch.content)
    ensures ch.content == "" ==>
              var m, c := ch.message.value, AddContent(b, ch);
              && c.text == b.text + m.content && c.finish == b.finish
              && |c.order| == |b.order| + |m.toolCalls| && b.order <= c.order
              && (forall i | 0 <= i < |m.toolCalls| :: CallAt(c, |b.order| + i, m.toolCalls[i]))
              && (forall k | k in b.accs :: k in c.accs && c.accs[k] == b.accs[k])
  {
    hide AddCalls;
    if ch.content == "" {
      CallsAppended(b.(text := b.text + ch.message.value.content), ch.message.value.toolCalls);
    }
  }

  lemma {:induction false} CallsAppended(b: Batch, tcs: seq<ToolCall>)
    requires forall k | k in b.accs :: k < |b.order|
    ensures var c := AddCalls(b, tcs);
            && c.text == b.text && c.finish == b.finish
            && |c.order| == |b.order| + |tcs| && b.order <= c.order
            && (forall k | k in c.accs :: k < |c.order|)
            && (forall i | 0 <= i < |tcs| :: CallAt(c, |b.order| + i, tcs[i]))
            && (forall k | k in b.accs :: k in c.accs && c.accs[k] == b.accs[k])
  {
    if tcs != [] {
      var before, c := AddCalls(b, Init(tcs)), AddCalls(b, tcs);
      CallsAppended(b, Init(tcs));
      forall i | 0 <= i < |tcs| - 1 ensures CallAt(c, |b.order| + i, tcs[i]) {
        assert CallAt(before, |b.order| + i, Init(tcs)[i]);
      }
      assert CallAt(c, |before.order|, Last(tcs));
    }
  }

  // ---- the imperative code -----------------------------------------------------------------

  method AccumulateChoice(b: Batch, ch: Choice) returns (out: Batch)
    ensures out == AddChoice(b, ch)
  {
    var text, finish, tcMap, tcOrder := b.text, b.finish, b.accs, b.order;
    if ch.content != "" {
      text := text + ch.content;
    } else if ch.message.Some? {
      text := text + ch.message.value.content;
      var tcs := ch.message.value.toolCalls;
      var i := 0;
      while i < |tcs|
        invariant 0 <= i <= |tcs|
        invariant Batch(text, finish, tcMap, tcOrder) == AddCalls(b.(text := text), tcs[..i])
      {
        var idx := |tcOrder|;
        tcMap := tcMap[idx := Acc(tcs[i].id, tcs[i].name, tcs[i].arguments)];
        tcOrder := tcOrder + [idx];
        i := i + 1;
        assert Init(tcs[..i]) == tcs[..i - 1];
      }
      assert tcs[..i] == tcs;
    }
    assert Batch(text, finish, tcMap, tcOrder) == AddContent(b, ch);
    hide AddContent, AddCalls;
    ghost var tools := ToolOps(ch.toolCalls);
    var i := 0;
    while i < |ch.toolCalls|
      invariant 0 <= i <= |ch.toolCalls|
      invariant Batch(text, finish, tcMap, tcOrder) == BatchFrom(AddContent(b, ch), tools[..i])
    {
      var tc := ch.toolCalls[i];
      var acc := Acc("", "", "");
      if tc.index in tcMap {
        acc := tcMap[tc.index];
      } else {
        tcOrder := tcOrder + [tc.index];
      }
      if tc.id != "" {
        acc := acc.(id := tc.id);
      }
      if tc.name != "" {
        acc := acc.(name := tc.name);
      }
      if tc.arguments != "" {
        acc := acc.(arguments := acc.arguments + tc.arguments);
      }
      assert tc.arguments == "" ==> acc.arguments + tc.arguments == acc.arguments;
      tcMap := tcMap[tc.index := acc];
      i := i + 1;
      assert Init(tools[..i]) == tools[..i - 1] && Last(tools[..i]) == Tool(tc);
    }
    assert tools[..i] == tools;
    if ch.finish.Some? {
      finish := ch.finish.value;
    }
    out := Batch(text, finish, tcMap, tcOrder);
  }

  method ExtractFromCapturedBody(decodeWhole: WholeDecoder, decode: Decoder, body: Bytes)
    returns (result: Extraction)
    ensures result == Extracted(decodeWhole, decode, body)
  {
    var whole := WholeBody(decodeWhole, body);
    if whole.Some? {
      return Extraction(whole.value.content, whole.value.finish, whole.value.toolCalls);
    }
    var lines := Scannable(Split(body, LF));
    var b := EMPTY_BATCH;
    var i := 0;
    while i < |lines|
      invariant 0 <= i <= |lines|
      invariant b == AddLines(decode, lines[..i])
    {
      var oc := LineChunk(decode, DropCR(lines[i]));
      if oc.Some? && |oc.value.choices| > 0 {
        b := AccumulateChoice(b, oc.value.choices[0]);
      }
      i := i + 1;
      assert Init(lines[..i]) == lines[..i - 1];
    }
    assert lines[..i] == lines;
    AddLinesKeyed(decode, lines);
    var tcs: seq<ToolCall> := [];
    i := 0;
    while i < |b.order|
      invariant 0 <= i <= |b.order|
      invariant tcs == Calls(b)[..i]
    {
      var acc := b.accs[b.order[i]];
      tcs := tcs + [ToolCall(acc.id, acc.name, acc.arguments)];
      i := i + 1;
    }
    result := Extraction(b.text, b.finish, tcs);
  }

  // ---- both readings of a line -------------------------------------------------------------

  lemma {:induction false} TrimLeftCR(s: Bytes)
    ensures TrimLeftSpace(s + [CR]) == if TrimLeftSpace(s) == [] then [] else TrimLeftSpace(s) + [CR]
    decreases |s|
  {
    var t := s + [CR];
    if s == [] {
      assert t[1..] == [];
    } else if IsSpace1(s[0]) {
      assert t[1..] == s[1..] + [CR];
      TrimLeftCR(s[1..]);
    } else if |s| >= 2 && IsSpace2(s[0], s[1]) {
      assert t[2..] == s[2..] + [CR];
      TrimLeftCR(s[2..]);
    } else if |s| >= 3 && IsSpace3(s[0], s[1], s[2]) {
      assert t[3..] == s[3..] + [CR];
      TrimLeftCR(s[3..]);
    }
  }

  lemma TrimSpaceCR(s: Bytes)
    ensures TrimSpace(s + [CR]) == TrimSpace(s)
  {
    TrimLeftCR(s);
    var t := TrimLeftSpace(s);
    assert (t + [CR])[..|t|] == t;
  }

  /** Trailing carriage returns do not change what the batch code reads from a line. */
  lemma {:induction false} LineChunkCR(decode: Decoder, line: Bytes)
    ensures LineChunk(decode, TrimRightCR(line)) == LineChunk(decode, line)
  {
    if line != [] && Last(line) == CR {
      var x := Init(line);
      LineChunkCR(decode, x);
      InitLast(line);
      if HasPrefix(x, DATA) || HasPrefix(line, DATA) {
        assert |x| >= 5 by {
          assert line[..5] == DATA ==> line[4] == DATA[4];
        }
        assert line[..5] == x[..5];
        assert line[5..] == x[5..] + [CR];
        TrimSpaceCR(x[5..]);
      }
    }
  }

  /** No payload that itself begins with `data:` after `data: `; the stream strips both prefixes. */
  predicate PlainLine(line: Bytes) {
    !HasPrefix(line, DATA_SPACE + DATA)
  }

  predicate DeltaOnly(chunk: Chunk) {
    chunk.choices != [] ==> chunk.choices[0].message.None?
  }

  lemma PayloadsEqual(line: Bytes)
    requires HasPrefix(line, DATA) && PlainLine(line)
    ensures TrimSpace(TrimPrefix(TrimPrefix(line, DATA_SPACE), DATA)) == TrimSpace(TrimPrefix(line, DATA))
  {
    if HasPrefix(line, DATA_SPACE) {
      var rest := line[6..];
      assert line[..6][5] == 32;
      assert line[5..][0] == 32 && line[5..][1..] == rest;
      PrefixPlus(line, DATA_SPACE, DATA);
    }
  }

  lemma ChoiceAgrees(b: Batch, ch: Choice)
    requires ch.message.None?
    ensures AddChoice(b, ch) == BatchFrom(b, ChoiceOps(ch))
  {
    BatchFromPlus(b, TextOps(ch.content), ToolOps(ch.toolCalls));
    BatchFromPlus(b, TextOps(ch.content) + ToolOps(ch.toolCalls), FinishOps(ch.finish));
  }

  lemma ChunkAgrees(b: Batch, chunk: Chunk)
    requires DeltaOnly(chunk)
    ensures BatchFrom(b, ChunkOps(chunk))
         == if chunk.choices == [] then b else AddChoice(b, chunk.choices[0])
  {
    var meter := match chunk.usage case None => [] case Some(u) => [Meter(u)];
    var rest := if chunk.choices == [] then [] else ChoiceOps(chunk.choices[0]);
    BatchFromPlus(b, meter, rest);
    if chunk.choices != [] {
      ChoiceAgrees(b, chunk.choices[0]);
    }
  }

  predicate GoodLine(decode: Decoder, line: Bytes) {
    && |line| < MAX_LINE
    && PlainLine(TrimRightCR(line))
    && (LineChunk(decode, line).Some? ==> DeltaOnly(LineChunk(decode, line).value))
  }

  lemma LineAgrees(decode: Decoder, b: Batch, line: Bytes)
    requires GoodLine(decode, line)
    ensures AddLine(decode, b, line) == BatchFrom(b, LineOps(decode, TrimRightCR(line)))
  {
    var bare := TrimRightCR(line);
    LineChunkCR(decode, line);
    LineChunkCR(decode, DropCR(line));
    assert TrimRightCR(DropCR(line)) == bare;
    if HasPrefix(bare, DATA) {
      PayloadsEqual(bare);
    }
    var chunk := LineChunk(decode, bare);
    if chunk.Some? {
      ChunkAgrees(b, chunk.value);
    }
  }

  lemma {:induction false} LinesAgree(decode: Decoder, lines: seq<Bytes>)
    requires forall i | 0 <= i < |lines| :: GoodLine(decode, lines[i])
    ensures AddLines(decode, lines) == BatchRun(LinesOps(decode, lines))
  {
    if lines != [] {
      LinesAgree(decode, Init(lines));
      LineAgrees(decode, AddLines(decode, Init(lines)), Last(lines));
      BatchFromPlus(EMPTY_BATCH, LinesOps(decode, Init(lines)), LineOps(decode, TrimRightCR(Last(lines))));
    }
  }

  lemma {:induction false} AllScannable(decode: Decoder, lines: seq<Bytes>)
    requires forall i | 0 <= i < |lines| :: GoodLine(decode, lines[i])
    ensures Scannable(lines) == lines
  {
    if lines != [] {
      AllScannable(decode, lines[1..]);
    }
  }

  /** The calls as the blocks 1, 2, … a client would number them. */
  function Numbered(calls: seq<ToolCall>): (views: seq<ToolView>)
    ensures |views| == |calls|
  {
    seq(|calls|, i requires 0 <= i < |calls| => ToolView(i + 1, calls[i].id, calls[i].name, calls[i].arguments))
  }

  lemma SameTools(b: Batch)
    requires forall i | 0 <= i < |b.order| :: b.order[i] in b.accs
    ensures Numbered(Calls(b)) == Views(b)
  {
  }

  /** One body, two readings: what a client rebuilds from the stream, cut into Write calls in any way,
      is what extractFromCapturedBody returns for the whole body, exactly if the stream is matched.
      The [DONE] at the end may be missing once something was streamed. */
  lemma BodyAgrees(decodeWhole: WholeDecoder, decode: Decoder, parts: seq<Bytes>, status: int, ops: seq<Op>)
    requires status < 400
    requires WholeBody(decodeWhole, Concat(parts)).None?
    requires forall i | 0 <= i < |Split(Concat(parts), LF)| :: GoodLine(decode, Split(Concat(parts), LF)[i])
    requires NoDone(ops)
    requires BodyOps(decode, Concat(parts)) == ops + [Done] || (BodyOps(decode, Concat(parts)) == ops && Run(FRESH, ops).started)
    ensures var m := Rebuild(Drain(decode, FeedAll(decode, Wire([], status, [], FRESH), parts)).core.events);
            var e := Extracted(decodeWhole, decode, Concat(parts));
            m == Message(e.text, Numbered(e.calls), Some(MapStopReason(e.finish))) <==> Matched(ops)
  {
    hide Session, Run, Rebuild, Matched, Feed, FeedAll, Drain, MapStopReason, GoodLine;
    var lines := Split(Concat(parts), LF);
    StreamIsSession(decode, parts, status);
    AllScannable(decode, lines);
    LinesAgree(decode, lines);
    BatchFromPlus(EMPTY_BATCH, ops, [Done]);
    assert BatchRun(ops + [Done]) == BatchRun(ops);
    StreamAgreesIff(ops);
    SessionDone(ops);
    SameTools(BatchRun(ops));
    hide Calls, Views, Numbered, Split, LineOps;
  }
}
