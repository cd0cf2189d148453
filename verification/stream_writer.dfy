/** streamWriter: the object that receives upstream bytes and writes Anthropic events. Every method
    is proved to do what StreamModel and StreamFraming say. */
module StreamWriting {
  import opened Seqs
  import opened StreamModel
  import opened StreamFraming

  class StreamWriter {
    const decode: Decoder
    var started: bool
    var textOpen: bool
    var textClosed: bool
    var stopped: bool
    var finish: string
    var inputToks: int
    var outputToks: int
    var textBuf: string
    var carry: Bytes
    var errBuf: Bytes
    var toolBlocks: map<int, ToolBlock>
    var nextBlockIdx: int
    var statusCode: int
    var sink: seq<Event>     // what emitEvent wrote to the real writer
    ghost var order: seq<int>

    ghost function Core(): State
      reads this
    {
      State(started, textOpen, textClosed, stopped, finish, inputToks, outputToks, textBuf,
            toolBlocks, nextBlockIdx, order, sink)
    }

    ghost function Value(): Wire
      reads this
    {
      Wire(carry, statusCode, errBuf, Core())
    }

    ghost predicate Valid()
      reads this
    {
      Ok(Core())
    }

    constructor (decode: Decoder)
      ensures this.decode == decode
      ensures Valid() && Value() == Wire([], 200, [], FRESH)
    {
      this.decode := decode;
      started, textOpen, textClosed, stopped := false, false, false, false;
      finish, inputToks, outputToks, textBuf := "", 0, 0, "";
      carry, errBuf, statusCode, sink := [], [], 200, [];
      toolBlocks, nextBlockIdx, order := map[], 1, [];
    }

    method WriteHeader(code: int)
      requires Valid()
      modifies this`statusCode
      ensures Valid() && Value() == old(Value()).(statusCode := code)
    {
      statusCode := code;
    }

    method EmitEvent(e: Event)
      modifies this`sink
      ensures Core() == Emit(old(Core()), e)
    {
      sink := sink + [e];
    }

    method EnsureStarted()
      modifies this`started, this`sink
      ensures Core() == EnsureStart(old(Core()))
    {
      if started {
        return;
      }
      started := true;
      EmitEvent(MessageStart);
    }

    method EnsureTextBlock()
      modifies this`textOpen, this`sink
      ensures Core() == EnsureText(old(Core()))
    {
      if textOpen {
        return;
      }
      textOpen := true;
      EmitEvent(TextStart);
    }

    method CloseTextBlock()
      modifies this`textClosed, this`sink
      ensures Core() == CloseText(old(Core()))
    {
      if !textOpen || textClosed {
        return;
      }
      textClosed := true;
      EmitEvent(BlockStop(0));
    }

    method EnsureToolBlock(openaiIdx: int, id: string, name: string) returns (tb: ToolBlock)
      modifies this`toolBlocks, this`nextBlockIdx, this`order, this`textClosed, this`sink
      ensures Core() == EnsureTool(old(Core()), openaiIdx, id, name)
      ensures openaiIdx in toolBlocks && tb == toolBlocks[openaiIdx]
    {
      hide OpenTool;
      if openaiIdx !in toolBlocks {
        toolBlocks := toolBlocks[openaiIdx := ToolBlock(nextBlockIdx, "", "", false, false)];
        nextBlockIdx := nextBlockIdx + 1;
        order := order + [openaiIdx];
      }
      ghost var a := Allocate(old(Core()), openaiIdx);
      assert Core() == a;
      hide Allocate;
      tb := toolBlocks[openaiIdx];
      if id != "" && tb.id == "" {
        tb := tb.(id := id);
      }
      if name != "" && tb.name == "" {
        tb := tb.(name := name);
      }
      assert tb == Named(toolBlocks[openaiIdx], id, name);
      hide Named;
      toolBlocks := toolBlocks[openaiIdx := tb];
      tb := OpenToolBlock(openaiIdx);
    }

    /** The last part of ensureToolBlock: open the block once it has a name. */
    method OpenToolBlock(openaiIdx: int) returns (tb: ToolBlock)
      requires openaiIdx in toolBlocks
      modifies this`toolBlocks, this`textClosed, this`sink
      ensures Core() == OpenTool(old(Core()), openaiIdx)
      ensures openaiIdx in toolBlocks && tb == toolBlocks[openaiIdx]
    {
      tb := toolBlocks[openaiIdx];
      if !tb.started && tb.name != "" {
        CloseTextBlock();
        tb := tb.(started := true);
        toolBlocks := toolBlocks[openaiIdx := tb];
        EmitEvent(ToolStart(tb.anthropicIdx, tb.id, tb.name));
      }
    }

    method CloseToolBlock(openaiIdx: int)
      modifies this`toolBlocks, this`sink
      ensures Core() == CloseTool(old(Core()), openaiIdx)
    {
      if openaiIdx !in toolBlocks {
        return;
      }
      var tb := toolBlocks[openaiIdx];
      if !tb.started || tb.closed {
        return;
      }
      toolBlocks := toolBlocks[openaiIdx := tb.(closed := true)];
      EmitEvent(BlockStop(tb.anthropicIdx));
    }

    /** The tool map's keys in whatever order it is ranged over. */
    method CollectTools() returns (ordered: seq<int>)
      ensures multiset(ordered) == multiset(toolBlocks.Keys)
    {
      ordered := [];
      var rest := toolBlocks.Keys;
      while |rest| > 0
        invariant rest <= toolBlocks.Keys
        invariant multiset(ordered) + multiset(rest) == multiset(toolBlocks.Keys)
        decreases |rest|
      {
        ghost var some := Pick(rest);
        var k :| k in rest;
        ordered := ordered + [k];
        assert multiset(rest) == multiset{k} + multiset(rest - {k});
        rest := rest - {k};
      }
      assert rest == {};
    }

    /** One round of the insertion sort: entry i sinks to its place among the earlier ones. */
    method Sink(ks: seq<int>, i: nat) returns (ordered: seq<int>)
      requires Valid()
      requires i < |ks| && multiset(ks) == multiset(toolBlocks.Keys)
      requires InMap(ks, toolBlocks) && SortedBut(ks, toolBlocks, i, -1)
      ensures multiset(ordered) == multiset(ks) && |ordered| == |ks|
      ensures InMap(ordered, toolBlocks) && SortedBut(ordered, toolBlocks, i + 1, -1)
    {
      ordered := ks;
      var j := i;
      while j > 0 && toolBlocks[ordered[j - 1]].anthropicIdx > toolBlocks[ordered[j]].anthropicIdx
        invariant 0 <= j <= i && |ordered| == |ks|
        invariant multiset(ordered) == multiset(ks)
        invariant InMap(ordered, toolBlocks)
        invariant SortedBut(ordered, toolBlocks, i + 1, j)
      {
        SwapSorted(ordered, toolBlocks, i + 1, j);
        ordered := ordered[j - 1 := ordered[j]][j := ordered[j - 1]];
        j := j - 1;
      }
      KeysOnce(ordered, toolBlocks);
      if j > 0 {
        DistinctBlocks(ordered[j - 1], ordered[j], toolBlocks, nextBlockIdx, order);
      }
      SortedInsert(ordered, toolBlocks, i + 1, j);
    }

    /** Collects the tools, then insertion-sorts them by block index. */
    method OrderedTools() returns (ordered: seq<int>)
      requires Valid()
      ensures ordered == order
    {
      ordered := CollectTools();
      KeysOnce(ordered, toolBlocks);
      var i := 1;
      while i < |ordered|
        invariant 1 <= i && |ordered| == |toolBlocks|
        invariant multiset(ordered) == multiset(toolBlocks.Keys)
        invariant InMap(ordered, toolBlocks)
        invariant SortedBut(ordered, toolBlocks, if i <= |ordered| then i else |ordered|, -1)
      {
        ordered := Sink(ordered, i);
        i := i + 1;
      }
      SortedIsOrder(ordered, toolBlocks, nextBlockIdx, order);
    }

    method CloseToolBlocks()
      requires Valid()
      modifies this`toolBlocks, this`sink
      ensures Core() == CloseTools(old(Core()), order)
    {
      ghost var c := Core();
      if |toolBlocks| > 0 {
        var ordered := OrderedTools();
        var i := 0;
        while i < |ordered|
          invariant 0 <= i <= |ordered|
          invariant Core() == CloseTools(c, ordered[..i])
        {
          CloseToolBlock(ordered[i]);
          i := i + 1;
          assert Init(ordered[..i]) == ordered[..i - 1];
        }
        assert ordered[..i] == ordered;
      } else {
        assert order == [];
      }
    }

    method FinalizeStream()
      requires Valid()
      modifies this`started, this`textOpen, this`textClosed, this`stopped, this`toolBlocks, this`sink
      ensures Valid() && Core() == Finalize(old(Core()))
    {
      hide CloseTools, Consistent;
      FinalizeOk(Core());
      if stopped {
        return;
      }
      EnsureStarted();
      if !textOpen && |toolBlocks| == 0 {
        EnsureTextBlock();
      }
      stopped := true;
      CloseTextBlock();
      CloseToolBlocks();
      assert Core() == Sealed(old(Core()));
      EmitEvent(MessageDelta(MapStopReason(finish), outputToks));
      EmitEvent(MessageStop);
    }

    method ProcessToolCall(tc: ToolDelta)
      requires Valid()
      modifies this
      ensures Valid() && Value() == old(Value()).(core := StepTool(old(Core()), tc))
    {
      hide EnsureTool, Consistent;
      StepToolOk(Core(), tc);
      EnsureStarted();
      var tb := EnsureToolBlock(tc.index, tc.id, tc.name);
      if tc.arguments != "" && tb.started {
        EmitEvent(JsonDelta(tb.anthropicIdx, tc.arguments));
      }
    }

    method ProcessText(content: string)
      requires Valid()
      modifies this
      ensures Valid() && Value() == old(Value()).(core := Run(old(Core()), TextOps(content)))
    {
      hide Consistent, Run;
      RunText(Core(), content);
      if content != "" {
        EnsureStarted();
        EnsureTextBlock();
        textBuf := textBuf + content;
        EmitEvent(TextDelta(content));
      }
    }

    method ProcessToolCalls(toolCalls: seq<ToolDelta>)
      requires Valid()
      modifies this
      ensures Valid() && Value() == old(Value()).(core := Run(old(Core()), ToolOps(toolCalls)))
    {
      hide Run, StepTool, Consistent, ToolOps;
      ghost var s, tools := Core(), ToolOps(toolCalls);
      NoTools(s, toolCalls);
      var i := 0;
      while i < |toolCalls|
        invariant 0 <= i <= |toolCalls|
        invariant Valid() && Value() == old(Value()).(core := Run(s, tools[..i]))
      {
        ProcessToolCall(toolCalls[i]);
        NextTool(s, toolCalls, i);
        i := i + 1;
      }
      assert tools[..i] == tools;
    }

    method ProcessChoice(ch: Choice)
      requires Valid()
      modifies this
      ensures Valid() && Value() == old(Value()).(core := Run(old(Core()), ChoiceOps(ch)))
    {
      ghost var s := Core();
      ProcessText(ch.content);
      ProcessToolCalls(ch.toolCalls);
      RunFinish(Core(), ch.finish);
      if ch.finish.Some? && ch.finish.value != "" {
        finish := ch.finish.value;
      }
      RunPlus(s, TextOps(ch.content), ToolOps(ch.toolCalls));
      RunPlus(s, TextOps(ch.content) + ToolOps(ch.toolCalls), FinishOps(ch.finish));
    }

    method ProcessChunk(chunk: Chunk)
      requires Valid()
      modifies this
      ensures Valid() && Value() == old(Value()).(core := Run(old(Core()), ChunkOps(chunk)))
    {
      ghost var s := Core();
      if chunk.usage.Some? {
        inputToks := chunk.usage.value.promptTokens;
        outputToks := chunk.usage.value.completionTokens;
        RunOne(s, Meter(chunk.usage.value));
      }
      ghost var meter := match chunk.usage case None => [] case Some(u) => [Meter(u)];
      assert Core() == Run(s, meter);
      if |chunk.choices| == 0 {
        assert meter + [] == meter;
        return;
      }
      ProcessChoice(chunk.choices[0]);
      RunPlus(s, meter, ChoiceOps(chunk.choices[0]));
    }

    /** `line` has already lost its trailing CRs. */
    method ProcessLine(line: Bytes)
      requires Valid()
      modifies this
      ensures Valid() && Value() == old(Value()).(core := Run(old(Core()), LineOps(decode, line)))
    {
      hide TrimSpace, ChunkOps, Consistent, Finalize;
      DataSpacePrefix(line);
      if !HasPrefix(line, DATA_SPACE) && !HasPrefix(line, DATA) {
        return;
      }
      var data := TrimSpace(TrimPrefix(TrimPrefix(line, DATA_SPACE), DATA));
      if data == [] {
        return;
      }
      if data == DONE {
        RunOne(Core(), Done);
        FinalizeStream();
        return;
      }
      var oc := decode(data);
      if oc.None? {
        return;
      }
      ProcessChunk(oc.value);
    }

    method Write(p: Bytes) returns (n: nat)
      requires Valid()
      modifies this
      ensures n == |p|
      ensures Valid() && Value() == Feed(decode, old(Value()), p)
    {
      n := |p|;
      if !started && statusCode >= 400 {
        errBuf := errBuf + p;
        return;
      }
      hide LinesOps, LineOps, Run, TrimRightCR, Consistent;
      ghost var s0 := Core();
      var chunk := carry + p;
      var lines := Split(chunk, LF);
      carry := lines[|lines| - 1];
      NoLines(decode, s0);
      var i := 0;
      while i < |lines| - 1
        invariant 0 <= i <= |lines| - 1
        invariant Valid()
        invariant Value() == old(Value()).(carry := Last(lines), core := Run(s0, LinesOps(decode, lines[..i])))
      {
        ProcessLine(TrimRightCR(lines[i]));
        NextLine(decode, s0, lines, i);
        i := i + 1;
      }
      assert lines[..i] == Init(lines);
    }

    /** The tail of the streaming branch of HandleMessages. */
    method Close()
      requires Valid()
      modifies this
      ensures Valid() && Value() == Drain(decode, old(Value()))
    {
      if carry != [] {
        ProcessLine(TrimRightCR(carry));
        carry := [];
      }
      if started && !stopped {
        FinalizeStream();
      }
    }
  }

  lemma RunOne(s: State, op: Op)
    ensures Run(s, [op]) == Step(s, op)
  {
    RunSnoc(s, [], op);
    assert [] + [op] == [op];
  }

  lemma NoLines(decode: Decoder, s: State)
    ensures Run(s, LinesOps(decode, [])) == s
  {
  }

  lemma NextLine(decode: Decoder, s: State, lines: seq<Bytes>, i: nat)
    requires i < |lines|
    ensures Run(s, LinesOps(decode, lines[..i + 1]))
         == Run(Run(s, LinesOps(decode, lines[..i])), LineOps(decode, TrimRightCR(lines[i])))
  {
    hide LineOps, TrimRightCR;
    assert Init(lines[..i + 1]) == lines[..i] && Last(lines[..i + 1]) == lines[i];
    RunPlus(s, LinesOps(decode, lines[..i]), LineOps(decode, TrimRightCR(lines[i])));
  }

  lemma RunText(s: State, content: string)
    ensures Run(s, TextOps(content)) == if content == "" then s else StepText(s, content)
  {
    if content != "" {
      RunOne(s, Text(content));
    }
  }

  lemma NoTools(s: State, deltas: seq<ToolDelta>)
    ensures Run(s, ToolOps(deltas)[..0]) == s
  {
  }

  lemma NextTool(s: State, deltas: seq<ToolDelta>, i: nat)
    requires i < |deltas|
    ensures Run(s, ToolOps(deltas)[..i + 1]) == StepTool(Run(s, ToolOps(deltas)[..i]), deltas[i])
  {
    hide StepTool;
    var tools := ToolOps(deltas);
    assert Init(tools[..i + 1]) == tools[..i] && Last(tools[..i + 1]) == Tool(deltas[i]);
  }

  lemma RunFinish(s: State, finish: Option<string>)
    ensures Run(s, FinishOps(finish))
         == if finish.Some? && finish.value != "" then s.(finish := finish.value) else s
  {
    if finish.Some? {
      RunOne(s, Finish(finish.value));
    }
  }

  lemma DataSpacePrefix(line: Bytes)
    ensures HasPrefix(line, DATA_SPACE) ==> HasPrefix(line, DATA)
  {
    if HasPrefix(line, DATA_SPACE) {
      assert line[..5] == line[..6][..5];
    }
  }

  // ---- insertion sort --------------------------------------------------------------------

  ghost predicate InMap(ks: seq<int>, tools: map<int, ToolBlock>) {
    forall i | 0 <= i < |ks| :: ks[i] in tools
  }

  /** The first n entries ascend by block index, comparisons of entry `hole` with earlier ones aside. */
  ghost predicate SortedBut(ks: seq<int>, tools: map<int, ToolBlock>, n: int, hole: int)
    requires InMap(ks, tools)
    requires n <= |ks|
  {
    forall p, q | 0 <= p < q < n && q != hole :: tools[ks[p]].anthropicIdx < tools[ks[q]].anthropicIdx
  }

  /** A list with the multiset of the keys holds every key, and each once. */
  lemma KeysOnce(ks: seq<int>, tools: map<int, ToolBlock>)
    requires multiset(ks) == multiset(tools.Keys)
    ensures |ks| == |tools| && InMap(ks, tools)
    ensures forall p, q | 0 <= p < q < |ks| :: ks[p] != ks[q]
  {
    assert |multiset(ks)| == |multiset(tools.Keys)| == |tools.Keys|;
    forall i | 0 <= i < |ks| ensures ks[i] in tools {
      assert ks[i] in multiset(ks);
    }
    forall p, q | 0 <= p < q < |ks| ensures ks[p] != ks[q] {
      assert ks == ks[..q] + ks[q..];
      assert ks[p] in multiset(ks[..q]) && ks[q] in multiset(ks[q..]);
      assert multiset(tools.Keys)[ks[p]] <= 1;
    }
  }

  lemma DistinctBlocks(k: int, l: int, tools: map<int, ToolBlock>, nextBlockIdx: int, order: seq<int>)
    requires Consistent(tools, nextBlockIdx, order)
    requires k in tools && l in tools && k != l
    ensures tools[k].anthropicIdx != tools[l].anthropicIdx
  {
  }

  lemma SwapSorted(ks: seq<int>, tools: map<int, ToolBlock>, n: int, j: int)
    requires InMap(ks, tools) && 0 < j < n <= |ks| && SortedBut(ks, tools, n, j)
    requires tools[ks[j - 1]].anthropicIdx > tools[ks[j]].anthropicIdx
    ensures var swapped := ks[j - 1 := ks[j]][j := ks[j - 1]];
            && multiset(swapped) == multiset(ks)
            && InMap(swapped, tools) && SortedBut(swapped, tools, n, j - 1)
  {
    var swapped := ks[j - 1 := ks[j]][j := ks[j - 1]];
    assert InMap(swapped, tools);
    forall p, q | 0 <= p < q < n && q != j - 1
      ensures tools[swapped[p]].anthropicIdx < tools[swapped[q]].anthropicIdx
    {
      if q == j {
        assert p < j - 1 ==> tools[ks[p]].anthropicIdx < tools[ks[j - 1]].anthropicIdx;
      } else {
        var r := if p == j then j - 1 else if p == j - 1 then j else p;
        assert tools[ks[r]].anthropicIdx < tools[ks[q]].anthropicIdx;
      }
    }
  }

  lemma SortedInsert(ks: seq<int>, tools: map<int, ToolBlock>, n: int, j: int)
    requires InMap(ks, tools)
    requires 0 <= j < n <= |ks|
    requires SortedBut(ks, tools, n, j)
    requires j == 0 || tools[ks[j - 1]].anthropicIdx < tools[ks[j]].anthropicIdx
    ensures SortedBut(ks, tools, n, -1)
  {
  }

  /** n strictly ascending block indices between 1 and n are 1, …, n. */
  lemma SortedIsOrder(ks: seq<int>, tools: map<int, ToolBlock>, nextBlockIdx: int, order: seq<int>)
    requires Consistent(tools, nextBlockIdx, order)
    requires |ks| == |order| && InMap(ks, tools) && SortedBut(ks, tools, |ks|, -1)
    ensures ks == order
  {
    forall i | 0 <= i < |ks| ensures ks[i] == order[i] {
      AscendingFrom(ks, tools, i);
      AscendingTo(ks, tools, i, |order|);
    }
  }

  lemma {:induction false} AscendingFrom(ks: seq<int>, tools: map<int, ToolBlock>, i: nat)
    requires InMap(ks, tools) && SortedBut(ks, tools, |ks|, -1)
    requires forall k | k in tools :: 1 <= tools[k].anthropicIdx
    requires i < |ks|
    ensures tools[ks[i]].anthropicIdx >= i + 1
  {
    var k := ks[i];
    assert k in tools;
    if i > 0 {
      AscendingFrom(ks, tools, i - 1);
      assert tools[ks[i - 1]].anthropicIdx < tools[ks[i]].anthropicIdx;
    }
  }

  lemma {:induction false} AscendingTo(ks: seq<int>, tools: map<int, ToolBlock>, i: nat, n: nat)
    requires InMap(ks, tools) && SortedBut(ks, tools, |ks|, -1)
    requires forall k | k in tools :: tools[k].anthropicIdx <= n
    requires i < |ks| == n
    ensures tools[ks[i]].anthropicIdx <= i + 1
    decreases n - i
  {
    var k := ks[i];
    assert k in tools;
    if i + 1 < n {
      AscendingTo(ks, tools, i + 1, n);
      assert tools[ks[i]].anthropicIdx < tools[ks[i + 1]].anthropicIdx;
    }
  }
}
