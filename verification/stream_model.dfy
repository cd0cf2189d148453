/** What the SSE translator computes, as functions on values: one OpenAI chunk stream is a list
    of small operations, and the translator folds them into a state that holds the Anthropic
    events emitted so far. */
module StreamModel {
  import opened Seqs

  // ---- decoded OpenAI chunks -------------------------------------------------------------

  datatype Usage = Usage(promptTokens: int, completionTokens: int)
  datatype ToolDelta = ToolDelta(index: int, id: string, name: string, arguments: string)
  datatype ToolCall = ToolCall(id: string, name: string, arguments: string)
  datatype FullMessage = FullMessage(content: string, toolCalls: seq<ToolCall>)
  datatype Choice = Choice(content: string, toolCalls: seq<ToolDelta>,
                           message: Option<FullMessage>, finish: Option<string>)
  datatype Chunk = Chunk(choices: seq<Choice>, usage: Option<Usage>)

  // ---- emitted Anthropic events ----------------------------------------------------------

  datatype Event =
    | MessageStart
    | TextStart
    | TextDelta(text: string)
    | ToolStart(index: int, id: string, name: string)
    | JsonDelta(index: int, json: string)
    | BlockStop(index: int)
    | MessageDelta(stopReason: string, outputTokens: int)
    | MessageStop

  function MapStopReason(finish: string): string {
    if finish == "stop" then "end_turn"
    else if finish == "length" then "max_tokens"
    else if finish == "content_filter" then "stop_sequence"
    else if finish == "tool_calls" || finish == "function_call" then "tool_use"
    else "end_turn"
  }

  // ---- operations ------------------------------------------------------------------------

  datatype Op =
    | Meter(usage: Usage)
    | Text(text: string)
    | Tool(delta: ToolDelta)
    | Finish(reason: string)
    | Done

  function TextOps(content: string): seq<Op> {
    if content == "" then [] else [Text(content)]
  }

  function ToolOps(deltas: seq<ToolDelta>): (ops: seq<Op>)
    ensures |ops| == |deltas|
  {
    seq(|deltas|, i requires 0 <= i < |deltas| => Tool(deltas[i]))
  }

  function FinishOps(finish: Option<string>): seq<Op> {
    match finish
    case None => []
    case Some(reason) => [Finish(reason)]
  }

  function ChoiceOps(ch: Choice): seq<Op> {
    TextOps(ch.content) + ToolOps(ch.toolCalls) + FinishOps(ch.finish)
  }

  /** Only the usage and the first choice of a chunk matter. */
  function ChunkOps(chunk: Chunk): seq<Op> {
    (match chunk.usage case None => [] case Some(u) => [Meter(u)]) +
    (if chunk.choices == [] then [] else ChoiceOps(chunk.choices[0]))
  }

  // ---- translator state ------------------------------------------------------------------

  datatype ToolBlock = ToolBlock(anthropicIdx: int, id: string, name: string, started: bool, closed: bool)

  /** `order` lists the OpenAI tool indices by first appearance. */
  datatype State = State(
    started: bool, textOpen: bool, textClosed: bool, stopped: bool,
    finish: string, inputToks: int, outputToks: int, text: string,
    tools: map<int, ToolBlock>, nextBlockIdx: int, order: seq<int>, events: seq<Event>)

  const FRESH := State(false, false, false, false, "", 0, 0, "", map[], 1, [], [])

  function Emit(s: State, e: Event): State {
    s.(events := s.events + [e])
  }

  function EnsureStart(s: State): State {
    if s.started then s else Emit(s.(started := true), MessageStart)
  }

  function EnsureText(s: State): State {
    if s.textOpen then s else Emit(s.(textOpen := true), TextStart)
  }

  function CloseText(s: State): State {
    if !s.textOpen || s.textClosed then s else Emit(s.(textClosed := true), BlockStop(0))
  }

  function Allocate(s: State, k: int): (t: State)
    ensures k in t.tools
  {
    if k in s.tools then s
    else s.(tools := s.tools[k := ToolBlock(s.nextBlockIdx, "", "", false, false)],
            nextBlockIdx := s.nextBlockIdx + 1,
            order := s.order + [k])
  }

  /** Empty id and name fields are filled by the first non-empty ones that arrive. */
  function Named(tb: ToolBlock, id: string, name: string): ToolBlock {
    tb.(id := if tb.id == "" then id else tb.id, name := if tb.name == "" then name else tb.name)
  }

  function OpenTool(s: State, k: int): State
    requires k in s.tools
  {
    var tb := s.tools[k];
    if !tb.started && tb.name != "" then
      Emit(CloseText(s).(tools := s.tools[k := tb.(started := true)]), ToolStart(tb.anthropicIdx, tb.id, tb.name))
    else s
  }

  function EnsureTool(s: State, k: int, id: string, name: string): (t: State)
    ensures k in t.tools
  {
    var a := Allocate(s, k);
    OpenTool(a.(tools := a.tools[k := Named(a.tools[k], id, name)]), k)
  }

  function CloseTool(s: State, k: int): State {
    if k !in s.tools || !s.tools[k].started || s.tools[k].closed then s
    else Emit(s.(tools := s.tools[k := s.tools[k].(closed := true)]), BlockStop(s.tools[k].anthropicIdx))
  }

  function CloseTools(s: State, ks: seq<int>): State {
    if ks == [] then s else CloseTool(CloseTools(s, Init(ks)), Last(ks))
  }

  function StepText(s: State, text: string): State {
    var t := EnsureText(EnsureStart(s));
    Emit(t.(text := t.text + text), TextDelta(text))
  }

  function StepTool(s: State, d: ToolDelta): State {
    var t := EnsureTool(EnsureStart(s), d.index, d.id, d.name);
    if d.arguments != "" && t.tools[d.index].started
    then Emit(t, JsonDelta(t.tools[d.index].anthropicIdx, d.arguments))
    else t
  }

  /** The state just before the terminal events: nothing is left open. */
  function Sealed(s: State): State {
    var a := EnsureStart(s);
    var b := if !a.textOpen && |a.tools| == 0 then EnsureText(a) else a;
    var c := CloseText(b.(stopped := true));
    CloseTools(c, c.order)
  }

  function Finalize(s: State): State {
    if s.stopped then s
    else
      var c := Sealed(s);
      Emit(Emit(c, MessageDelta(MapStopReason(c.finish), c.outputToks)), MessageStop)
  }

  function Step(s: State, op: Op): State {
    match op
    case Meter(u) => s.(inputToks := u.promptTokens, outputToks := u.completionTokens)
    case Text(text) => StepText(s, text)
    case Tool(d) => StepTool(s, d)
    case Finish(reason) => if reason == "" then s else s.(finish := reason)
    case Done => Finalize(s)
  }

  function Run(s: State, ops: seq<Op>): State {
    if ops == [] then s else Step(Run(s, Init(ops)), Last(ops))
  }

  /** The state after a whole stream: the handler finalizes a started stream that has not stopped. */
  function Session(ops: seq<Op>): State {
    var s := Run(FRESH, ops);
    if s.started && !s.stopped then Finalize(s) else s
  }

  lemma RunSnoc(s: State, ops: seq<Op>, op: Op)
    ensures Run(s, ops + [op]) == Step(Run(s, ops), op)
  {
    assert Init(ops + [op]) == ops;
  }

  lemma {:induction false} RunPlus(s: State, a: seq<Op>, b: seq<Op>)
    ensures Run(s, a + b) == Run(Run(s, a), b)
  {
    hide Step;
    if b == [] {
      assert a + b == a;
    } else {
      RunPlus(s, a, Init(b));
      assert a + b == (a + Init(b)) + [Last(b)];
      RunSnoc(s, a + Init(b), Last(b));
    }
  }

  // ---- the block allocation invariant ----------------------------------------------------

  /** Blocks 1, 2, … belong to the tools in order of first appearance. */
  ghost predicate Consistent(tools: map<int, ToolBlock>, nextBlockIdx: int, order: seq<int>) {
    && |tools| == |order|
    && nextBlockIdx == |order| + 1
    && (forall i | 0 <= i < |order| :: order[i] in tools && tools[order[i]].anthropicIdx == i + 1)
    && (forall k | k in tools :: 1 <= tools[k].anthropicIdx <= |order| && order[tools[k].anthropicIdx - 1] == k)
  }

  ghost predicate Ok(s: State) {
    Consistent(s.tools, s.nextBlockIdx, s.order)
  }

  lemma PutOk(tools: map<int, ToolBlock>, nextBlockIdx: int, order: seq<int>, k: int, tb: ToolBlock)
    requires Consistent(tools, nextBlockIdx, order)
    requires k in tools && tb.anthropicIdx == tools[k].anthropicIdx
    ensures Consistent(tools[k := tb], nextBlockIdx, order)
  {
    assert tools[k := tb].Keys == tools.Keys;
  }

  lemma {:induction false} CloseToolsOk(s: State, ks: seq<int>)
    requires Ok(s)
    ensures Ok(CloseTools(s, ks))
  {
    if ks != [] {
      CloseToolsOk(s, Init(ks));
      var t, k := CloseTools(s, Init(ks)), Last(ks);
      if k in t.tools {
        PutOk(t.tools, t.nextBlockIdx, t.order, k, t.tools[k].(closed := true));
      }
    }
  }

  lemma AllocateOk(s: State, k: int)
    requires Ok(s)
    ensures Ok(Allocate(s, k))
  {
  }

  lemma EnsureToolOk(s: State, k: int, id: string, name: string)
    requires Ok(s)
    ensures Ok(EnsureTool(s, k, id, name))
  {
    AllocateOk(s, k);
    var a := Allocate(s, k);
    var tb := Named(a.tools[k], id, name);
    PutOk(a.tools, a.nextBlockIdx, a.order, k, tb);
    PutOk(a.tools[k := tb], a.nextBlockIdx, a.order, k, tb.(started := true));
  }

  lemma StepToolOk(s: State, d: ToolDelta)
    requires Ok(s)
    ensures Ok(StepTool(s, d))
  {
    hide EnsureTool, Consistent;
    EnsureToolOk(EnsureStart(s), d.index, d.id, d.name);
  }

  /** What opening a tool's block does to the table, and what it leaves alone. */
  lemma OpenToolShape(s: State, k: int)
    requires k in s.tools
    ensures var t, tb := OpenTool(s, k), s.tools[k];
            && t.started == s.started && t.stopped == s.stopped && t.textOpen == s.textOpen && t.finish == s.finish
            && t.order == s.order && t.nextBlockIdx == s.nextBlockIdx && s.events <= t.events
            && t.textClosed == (s.textClosed || (!tb.started && tb.name != "" && s.textOpen))
            && t.tools == s.tools[k := tb.(started := tb.started || tb.name != "")]
  {
    assert s.tools[k := s.tools[k]] == s.tools;
  }

  /** The state ensureToolBlock reaches before it decides whether to open the block. */
  function Entered(s: State, d: ToolDelta): (t: State)
    ensures d.index in t.tools
  {
    var a := Allocate(s, d.index);
    a.(tools := a.tools[d.index := Named(a.tools[d.index], d.id, d.name)])
  }

  lemma EnteredOpened(s: State, d: ToolDelta)
    ensures EnsureTool(s, d.index, d.id, d.name) == OpenTool(Entered(s, d), d.index)
    ensures Entered(s, d).order == if d.index in s.tools then s.order else s.order + [d.index]
    ensures Entered(s, d) == s.(tools := Entered(s, d).tools, order := Entered(s, d).order, nextBlockIdx := Entered(s, d).nextBlockIdx)
  {
    hide OpenTool;
  }

  /** What a whole tool delta leaves alone. */
  lemma StepToolKeeps(s: State, d: ToolDelta)
    ensures var t := StepTool(s, d);
            && t.started && t.stopped == s.stopped && t.textOpen == s.textOpen && t.finish == s.finish
            && t.order == (if d.index in s.tools then s.order else s.order + [d.index])
            && s.events <= t.events
  {
    hide EnsureTool, OpenTool, Entered;
    var a := EnsureStart(s);
    EnteredOpened(a, d);
    OpenToolShape(Entered(a, d), d.index);
    assert s.events <= a.events;
  }

  lemma FinalizeOk(s: State)
    requires Ok(s)
    ensures Ok(Finalize(s))
  {
    var a := EnsureStart(s);
    var b := if !a.textOpen && |a.tools| == 0 then EnsureText(a) else a;
    var c := CloseText(b.(stopped := true));
    CloseToolsOk(c, c.order);
  }

  lemma StepOk(s: State, op: Op)
    requires Ok(s)
    ensures Ok(Step(s, op))
  {
    hide StepTool, Finalize;
    match op
    case Tool(d) => StepToolOk(s, d);
    case Done => FinalizeOk(s);
    case _ =>
  }

  lemma {:induction false} RunOk(s: State, ops: seq<Op>)
    requires Ok(s)
    ensures Ok(Run(s, ops))
  {
    if ops != [] {
      RunOk(s, Init(ops));
      StepOk(Run(s, Init(ops)), Last(ops));
    }
  }
}
