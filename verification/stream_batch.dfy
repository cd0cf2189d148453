/** extractFromCapturedBody, the batch twin of the stream translator, on operations; and the message
    a client rebuilds from the emitted events. */
module StreamBatch {
  import opened Seqs
  import opened StreamModel
  import opened StreamFraming

  datatype Acc = Acc(id: string, name: string, arguments: string)
  datatype Batch = Batch(text: string, finish: string, accs: map<int, Acc>, order: seq<int>)

  const EMPTY_BATCH := Batch("", "", map[], [])

  /** A later non-empty id or name overwrites; arguments accumulate. */
  function AddDelta(b: Batch, d: ToolDelta): Batch {
    var acc := if d.index in b.accs then b.accs[d.index] else Acc("", "", "");
    var acc' := Acc(if d.id != "" then d.id else acc.id,
                    if d.name != "" then d.name else acc.name,
                    acc.arguments + d.arguments);
    b.(accs := b.accs[d.index := acc'], order := if d.index in b.accs then b.order else b.order + [d.index])
  }

  function BatchStep(b: Batch, op: Op): Batch {
    match op
    case Meter(_) => b
    case Text(text) => b.(text := b.text + text)
    case Tool(d) => AddDelta(b, d)
    case Finish(reason) => b.(finish := reason)
    case Done => b
  }

  function BatchFrom(b: Batch, ops: seq<Op>): Batch {
    if ops == [] then b else BatchStep(BatchFrom(b, Init(ops)), Last(ops))
  }

  function BatchRun(ops: seq<Op>): Batch {
    BatchFrom(EMPTY_BATCH, ops)
  }

  lemma {:induction false} BatchFromPlus(b: Batch, p: seq<Op>, q: seq<Op>)
    ensures BatchFrom(b, p + q) == BatchFrom(BatchFrom(b, p), q)
  {
    if q == [] {
      assert p + q == p;
    } else {
      BatchFromPlus(b, p, Init(q));
      assert Init(p + q) == p + Init(q) && Last(p + q) == Last(q);
    }
  }

  // ---- what a client rebuilds from the events ----------------------------------------------

  datatype ToolView = ToolView(index: int, id: string, name: string, arguments: string)
  datatype Message = Message(text: string, tools: seq<ToolView>, stopReason: Option<string>)

  function AppendJson(tools: seq<ToolView>, index: int, json: string): (longer: seq<ToolView>)
    ensures |longer| == |tools|
  {
    seq(|tools|, i requires 0 <= i < |tools| =>
      if tools[i].index == index then tools[i].(arguments := tools[i].arguments + json) else tools[i])
  }

  function Absorb(m: Message, e: Event): Message {
    match e
    case TextDelta(text) => m.(text := m.text + text)
    case ToolStart(index, id, name) => m.(tools := m.tools + [ToolView(index, id, name, "")])
    case JsonDelta(index, json) => m.(tools := AppendJson(m.tools, index, json))
    case MessageDelta(stopReason, _) => m.(stopReason := Some(stopReason))
    case _ => m
  }

  function Rebuild(events: seq<Event>): Message {
    if events == [] then Message("", [], None) else Absorb(Rebuild(Init(events)), Last(events))
  }

  lemma RebuildSnoc(events: seq<Event>, e: Event)
    ensures Rebuild(events + [e]) == Absorb(Rebuild(events), e)
  {
    assert Init(events + [e]) == events;
  }

  /** The tools the batch code returns, at the block indices 1, 2, … in `order`. */
  function Views(b: Batch): (views: seq<ToolView>)
    requires forall i | 0 <= i < |b.order| :: b.order[i] in b.accs
    ensures |views| == |b.order|
  {
    seq(|b.order|, i requires 0 <= i < |b.order| =>
      ToolView(i + 1, b.accs[b.order[i]].id, b.accs[b.order[i]].name, b.accs[b.order[i]].arguments))
  }

  // ---- streams without the end marker ------------------------------------------------------

  predicate NoDone(ops: seq<Op>) {
    forall q | 0 <= q < |ops| :: ops[q] != Done
  }

  lemma CloseTextRebuild(s: State)
    ensures Rebuild(CloseText(s).events) == Rebuild(s.events)
  {
    RebuildSnoc(s.events, BlockStop(0));
  }

  // ---- finalizing adds the stop reason and nothing else ------------------------------------

  lemma {:induction false} CloseToolsRebuild(s: State, ks: seq<int>)
    ensures Rebuild(CloseTools(s, ks).events) == Rebuild(s.events)
    ensures CloseTools(s, ks).finish == s.finish
  {
    if ks != [] {
      CloseToolsRebuild(s, Init(ks));
      var t, k := CloseTools(s, Init(ks)), Last(ks);
      if k in t.tools {
        RebuildSnoc(t.events, BlockStop(t.tools[k].anthropicIdx));
      }
    }
  }

  lemma SealedRebuild(s: State)
    ensures Rebuild(Sealed(s).events) == Rebuild(s.events) && Sealed(s).finish == s.finish
  {
    hide Rebuild;
    RebuildSnoc(s.events, MessageStart);
    var a := EnsureStart(s);
    RebuildSnoc(a.events, TextStart);
    var b := if !a.textOpen && |a.tools| == 0 then EnsureText(a) else a;
    var c := CloseText(b.(stopped := true));
    CloseTextRebuild(b.(stopped := true));
    CloseToolsRebuild(c, c.order);
  }

  lemma FinalizeRebuild(s: State)
    requires !s.stopped
    ensures Rebuild(Finalize(s).events) == Rebuild(s.events).(stopReason := Some(MapStopReason(s.finish)))
  {
    hide Sealed, Rebuild;
    SealedRebuild(s);
    var d := Sealed(s);
    var delta := MessageDelta(MapStopReason(d.finish), d.outputToks);
    RebuildSnoc(d.events, delta);
    RebuildSnoc(d.events + [delta], MessageStop);
  }

  lemma SessionDone(ops: seq<Op>)
    requires NoDone(ops)
    ensures Session(ops + [Done]) == Finalize(Run(FRESH, ops))
    ensures Run(FRESH, ops).started ==> Session(ops) == Session(ops + [Done])
  {
    hide Run, Finalize;
    RunSnoc(FRESH, ops, Done);
    var s := Run(FRESH, ops);
    NotStopped(ops);
    FinalizeStops(s);
  }

  lemma FinalizeStops(s: State)
    ensures Finalize(s).stopped
  {
    var a := EnsureStart(s);
    var b := if !a.textOpen && |a.tools| == 0 then EnsureText(a) else a;
    var c := CloseText(b.(stopped := true));
    CloseToolsKeeps(c, c.order);
  }

  lemma {:induction false} NotStopped(ops: seq<Op>)
    requires NoDone(ops)
    ensures !Run(FRESH, ops).stopped
  {
    hide Step;
    if ops != [] {
      NotStopped(Init(ops));
      assert ops[|ops| - 1] != Done;
      StepKeepsGoing(Run(FRESH, Init(ops)), Last(ops));
    }
  }

  lemma StepKeepsGoing(s: State, op: Op)
    requires !s.stopped && op != Done
    ensures !Step(s, op).stopped
  {
    hide StepTool;
    if op.Tool? {
      StepToolKeeps(s, op.delta);
    }
  }
}
