/** The events of a stream, one operation after the other, said from the operations that came before: no
    event is missing, none is sent twice and none is added. */
module StreamLog {
  import opened Seqs
  import opened StreamModel
  import opened StreamBatch
  import opened StreamDiscipline
  import opened StreamAgreement

  ghost predicate Speaks(ops: seq<Op>) {
    exists p | 0 <= p < |ops| :: ops[p].Text? || ops[p].Tool?
  }

  /** message_start comes before the first text or tool delta. */
  ghost function Opening(ops: seq<Op>): seq<Event> {
    if Speaks(ops) then [] else [MessageStart]
  }

  /** What a text delta sends after `pre`. */
  ghost function TextSaid(pre: seq<Op>, text: string): seq<Event> {
    Opening(pre) + (if HasText(pre) then [] else [TextStart]) + [TextDelta(text)]
  }

  /** What a tool delta sends after `pre`: the first name of a tool closes the text block and opens the
      tool's, under the first id known by then; arguments before the name are not sent. */
  ghost function ToolSaid(pre: seq<Op>, d: ToolDelta): seq<Event> {
    var number := Place(FirstSeen(pre + [Tool(d)]), d.index) + 1;
    var opens := d.name != "" && !Names(pre, d.index);
    Opening(pre)
    + (if opens && HasText(pre) && !ClosesText(pre) then [BlockStop(0)] else [])
    + (if opens then [ToolStart(number, About(pre + [Tool(d)], d.index).id, d.name)] else [])
    + (if d.arguments != "" && (opens || Names(pre, d.index)) then [JsonDelta(number, d.arguments)] else [])
  }

  ghost function Said(pre: seq<Op>, op: Op): seq<Event> {
    if op.Text? then TextSaid(pre, op.text) else if op.Tool? then ToolSaid(pre, op.delta) else []
  }

  /** The stops of the opened ones among the first m tools. */
  ghost function Stops(ops: seq<Op>, m: nat): seq<Event>
    requires m <= |FirstSeen(ops)|
  {
    if m == 0 then [] else Stops(ops, m - 1) + if Names(ops, FirstSeen(ops)[m - 1]) then [BlockStop(m)] else []
  }

  /** What the end marker sends: a stream without text and tools gets an empty text block. */
  ghost function EndSaid(ops: seq<Op>, stopReason: string): seq<Event> {
    var text := HasText(ops) || FirstSeen(ops) == [];
    Opening(ops)
    + (if text && !HasText(ops) then [TextStart] else [])
    + (if text && !ClosesText(ops) then [BlockStop(0)] else [])
    + Stops(ops, |FirstSeen(ops)|)
    + [MessageDelta(stopReason, LastCount(ops)), MessageStop]
  }

  // ---- the flags -----------------------------------------------------------------------------

  lemma SpeaksSnoc(ops: seq<Op>, op: Op)
    ensures Speaks(ops + [op]) <==> Speaks(ops) || op.Text? || op.Tool?
  {
    assert (ops + [op])[|ops|] == op;
    assert forall p | 0 <= p < |ops| :: (ops + [op])[p] == ops[p];
  }

  lemma {:induction false} StartedIs(ops: seq<Op>)
    requires NoDone(ops)
    ensures Run(FRESH, ops).started <==> Speaks(ops)
  {
    hide Step;
    if ops != [] {
      var pre, op := Init(ops), Last(ops);
      InitLast(ops);
      assert ops[|pre|] == op;
      StartedIs(pre);
      SpeaksSnoc(pre, op);
      StepStarts(Run(FRESH, pre), op);
    }
  }

  lemma StepStarts(s: State, op: Op)
    requires op != Done
    ensures Step(s, op).started <==> s.started || op.Text? || op.Tool?
  {
    hide StepTool;
    if op.Tool? {
      StepToolKeeps(s, op.delta);
    }
  }

  /** Everything the events depend on, read off the operations. */
  lemma FlagsRead(ops: seq<Op>)
    requires NoDone(ops)
    ensures var s := Run(FRESH, ops);
            && Ok(s) && s.order == FirstSeen(ops) && TableRead(ops, s.tools) && s.finish == LastRealFinish(ops)
            && s.started == Speaks(ops) && s.textOpen == HasText(ops) && s.textClosed == ClosesText(ops)
            && !s.stopped && (s.textClosed ==> s.textOpen) && s.outputToks == LastCount(ops)
            && (forall k | k in s.tools :: (s.tools[k].started <==> Names(ops, k)) && !s.tools[k].closed)
            && (forall k | Names(ops, k) :: k in s.tools)
  {
    hide Speaks, HasText, ClosesText, Names, About, FirstSeen, LastRealFinish, LastCount, Consistent, TableRead, Run,
      StreamTools, NamedOrder, Texts, Rebuild;
    StartedIs(ops);
    RunFlags(ops);
    StreamReads(ops);
    CountKept(ops);
  }

  // ---- the theorems --------------------------------------------------------------------------

  /** One delta more: the events grow by exactly what it says. */
  lemma EventsAre(pre: seq<Op>, op: Op)
    requires NoDone(pre) && op != Done
    ensures Run(FRESH, pre + [op]).events == Run(FRESH, pre).events + Said(pre, op)
  {
    hide Run, Step, TextSaid, ToolSaid;
    RunSnoc(FRESH, pre, op);
    match op
    case Text(text) => TextEvents(pre, text);
    case Tool(d) => ToolEvents(pre, d);
    case _ => QuietStep(Run(FRESH, pre), op);
  }

  lemma QuietStep(s: State, op: Op)
    requires op.Meter? || op.Finish?
    ensures Step(s, op).events == s.events
  {
  }

  lemma TextEvents(pre: seq<Op>, text: string)
    requires NoDone(pre)
    ensures Step(Run(FRESH, pre), Text(text)).events == Run(FRESH, pre).events + TextSaid(pre, text)
  {
    hide Run, Speaks, HasText;
    FlagsRead(pre);
  }

  lemma ToolEvents(pre: seq<Op>, d: ToolDelta)
    requires NoDone(pre)
    ensures Step(Run(FRESH, pre), Tool(d)).events == Run(FRESH, pre).events + ToolSaid(pre, d)
  {
    hide Run, Step, Speaks, HasText, ClosesText, Names, About, FirstSeen, Consistent, TableRead, Place, StepTool, EntryOf, ToolSaid, ToolSent;
    var s := Run(FRESH, pre);
    FlagsRead(pre);
    EntryRead(pre, s, d);
    EntryNames(pre, s, d.index);
    FirstName(pre, d);
    StepIsTool(s, d);
    ToolStepEvents(s, d);
    SaidIsSent(pre, s, d);
  }

  /** The events of a tool delta, from the table's entry. */
  ghost function ToolSent(s: State, e: ToolBlock, d: ToolDelta): seq<Event> {
    var opens := !e.started && e.name != "";
    (if s.started then [] else [MessageStart])
    + (if opens && s.textOpen && !s.textClosed then [BlockStop(0)] else [])
    + (if opens then [ToolStart(e.anthropicIdx, e.id, e.name)] else [])
    + (if d.arguments != "" && (opens || e.started) then [JsonDelta(e.anthropicIdx, d.arguments)] else [])
  }

  lemma SaidIsSent(pre: seq<Op>, s: State, d: ToolDelta)
    requires s.started == Speaks(pre) && s.textOpen == HasText(pre) && s.textClosed == ClosesText(pre)
    requires var e, h := Named(EntryOf(s, d.index), d.id, d.name), About(pre + [Tool(d)], d.index);
             && e.started == Names(pre, d.index) && e.id == h.id && e.name == h.name
             && e.anthropicIdx == Place(FirstSeen(pre + [Tool(d)]), d.index) + 1
             && (!e.started ==> e.name == d.name)
    ensures ToolSent(s, Named(EntryOf(s, d.index), d.id, d.name), d) == ToolSaid(pre, d)
  {
    hide Speaks, HasText, ClosesText, Names, About, FirstSeen, Place, EntryOf, Named;
  }

  lemma FirstName(pre: seq<Op>, d: ToolDelta)
    ensures About(pre, d.index).name == "" ==> About(pre + [Tool(d)], d.index).name == d.name
    ensures About(pre, d.index).name != "" ==> About(pre + [Tool(d)], d.index).name != ""
  {
    SameTool(pre, d);
  }

  lemma EntryNames(pre: seq<Op>, s: State, k: int)
    requires forall j | j in s.tools :: s.tools[j].started <==> Names(pre, j)
    requires forall j | Names(pre, j) :: j in s.tools
    ensures EntryOf(s, k).started <==> Names(pre, k)
  {
  }

  lemma ToolStepEvents(s: State, d: ToolDelta)
    ensures StepTool(s, d).events == s.events + ToolSent(s, Named(EntryOf(s, d.index), d.id, d.name), d)
  {
    hide Entered, EntryOf, EnsureTool, OpenTool, Named, StepTool, EnsureStart;
    var a, e := EnsureStart(s), Named(EntryOf(s, d.index), d.id, d.name);
    var opens := !e.started && e.name != "";
    StartEvents(s, d.index);
    EnteredOpened(a, d);
    EntryEntered(a, d);
    OpenEvents(Entered(a, d), d.index);
    OpenToolShape(Entered(a, d), d.index);
    JsonEvents(s, d);
    Regrouped(s.events, if s.started then [] else [MessageStart],
              if opens && s.textOpen && !s.textClosed then [BlockStop(0)] else [],
              if opens then [ToolStart(e.anthropicIdx, e.id, e.name)] else [],
              if d.arguments != "" && (opens || e.started) then [JsonDelta(e.anthropicIdx, d.arguments)] else []);
  }

  lemma Regrouped<T>(s: seq<T>, a: seq<T>, b: seq<T>, c: seq<T>, d: seq<T>)
    ensures s + a + b + c + d == s + (a + b + c + d)
  {
  }

  lemma JsonEvents(s: State, d: ToolDelta)
    ensures var t := EnsureTool(EnsureStart(s), d.index, d.id, d.name);
            StepTool(s, d).events
            == t.events + if d.arguments != "" && t.tools[d.index].started
                          then [JsonDelta(t.tools[d.index].anthropicIdx, d.arguments)] else []
  {
    hide EnsureTool, EnsureStart;
  }

  lemma StartEvents(s: State, k: int)
    ensures var a := EnsureStart(s);
            && EntryOf(a, k) == EntryOf(s, k) && a.textOpen == s.textOpen && a.textClosed == s.textClosed
            && a.events == s.events + if s.started then [] else [MessageStart]
  {
  }

  lemma OpenEvents(s: State, k: int)
    requires k in s.tools
    ensures var tb := s.tools[k];
            OpenTool(s, k).events == s.events
              + (if !tb.started && tb.name != "" && s.textOpen && !s.textClosed then [BlockStop(0)] else [])
              + (if !tb.started && tb.name != "" then [ToolStart(tb.anthropicIdx, tb.id, tb.name)] else [])
  {
  }

  /** The end marker, or the end of a stream that said anything: what is open is closed, the text block
      first and the tools in the order they were first seen, and the two closing events follow. */
  lemma EndIs(ops: seq<Op>) returns (stopReason: string)
    requires NoDone(ops)
    ensures WordFor(LastRealFinish(ops), stopReason)
    ensures Run(FRESH, ops + [Done]).events == Run(FRESH, ops).events + EndSaid(ops, stopReason)
    ensures Session(ops).events == if Speaks(ops) then Run(FRESH, ops + [Done]).events else []
  {
    hide Run, Step, Finalize, MapStopReason, LastRealFinish, EndSaid, Speaks, WordFor;
    stopReason := MapStopReason(LastRealFinish(ops));
    StopWords(LastRealFinish(ops));
    RunSnoc(FRESH, ops, Done);
    StartedIs(ops);
    FlagsRead(ops);
    DoneEvents(ops, Run(FRESH, ops));
    StepDone(Run(FRESH, ops));
    if !Speaks(ops) {
      Silent(ops);
    }
  }

  lemma StepDone(s: State)
    ensures Step(s, Done) == Finalize(s)
  {
  }

  lemma {:induction false} Silent(ops: seq<Op>)
    requires NoDone(ops) && !Speaks(ops)
    ensures Run(FRESH, ops).events == []
  {
    hide Run;
    if ops == [] {
      NothingYet();
    } else {
      InitLast(ops);
      SpeaksSnoc(Init(ops), Last(ops));
      assert ops[|ops| - 1] != Done;
      Silent(Init(ops));
      EventsAre(Init(ops), Last(ops));
    }
  }

  lemma NothingYet()
    ensures Run(FRESH, []).events == []
  {
  }

  lemma DoneEvents(ops: seq<Op>, s: State)
    requires Ok(s) && s.order == FirstSeen(ops) && !s.stopped && s.finish == LastRealFinish(ops) && s.outputToks == LastCount(ops)
    requires s.started == Speaks(ops) && s.textOpen == HasText(ops) && s.textClosed == ClosesText(ops)
    requires s.textClosed ==> s.textOpen
    requires forall k | k in s.tools :: (s.tools[k].started <==> Names(ops, k)) && !s.tools[k].closed
    ensures Finalize(s).events == s.events + EndSaid(ops, MapStopReason(LastRealFinish(ops)))
  {
    hide Speaks, HasText, ClosesText, Names, FirstSeen, LastRealFinish, LastCount, MapStopReason, Stops, CloseTools, Closing, Consistent,
      Finalize, Sealed;
    var c := Closing(s);
    ClosingEvents(s);
    AsManyTools(s);
    ToolsClosed(ops, c, |c.order|);
    assert c.order[..|c.order|] == c.order;
    CloseToolsCount(c, c.order);
    ClosingSeals(s);
    TwoMore(s);
  }

  lemma TwoMore(s: State)
    requires !s.stopped
    ensures Finalize(s).events == Sealed(s).events + [MessageDelta(MapStopReason(Sealed(s).finish), Sealed(s).outputToks), MessageStop]
  {
    hide Sealed, MapStopReason;
  }

  lemma AsManyTools(s: State)
    requires Ok(s)
    ensures |s.tools| == 0 <==> s.order == []
  {
  }

  lemma ClosingSeals(s: State)
    ensures Sealed(s) == CloseTools(Closing(s), Closing(s).order)
  {
  }

  lemma ClosingEvents(s: State)
    ensures var c := Closing(s);
            var text := s.textOpen || |s.tools| == 0;
            && c == s.(started := true, stopped := true, textOpen := text, textClosed := s.textClosed || text, events := c.events)
            && c.events == s.events
                 + (if s.started then [] else [MessageStart])
                 + (if text && !s.textOpen then [TextStart] else [])
                 + (if text && !s.textClosed then [BlockStop(0)] else [])
  {
  }

  lemma NoneClosed(s: State)
    requires Ok(s) && s.started && forall k | k in s.tools :: !s.tools[k].closed
    ensures ClosedUpTo(s, 0)
  {
    forall i | 0 <= i < |s.order| ensures !s.tools[s.order[i]].closed {
      var k := s.order[i];
      assert k in s.tools && !s.tools[k].closed;
    }
  }

  /** Closing the first m tools sends a stop for each one that was opened. */
  lemma {:induction false} ToolsClosed(ops: seq<Op>, s: State, m: nat)
    requires Ok(s) && s.order == FirstSeen(ops) && s.started && m <= |s.order|
    requires forall k | k in s.tools :: (s.tools[k].started <==> Names(ops, k)) && !s.tools[k].closed
    ensures var t := CloseTools(s, s.order[..m]);
            && ClosedUpTo(t, m) && t.order == s.order && t.events == s.events + Stops(ops, m)
            && forall k | k in t.tools :: t.tools[k].started <==> Names(ops, k)
  {
    hide Names, FirstSeen, Consistent;
    if m == 0 {
      NoneClosed(s);
    } else {
      hide CloseTool, ClosedUpTo;
      var t := CloseTools(s, s.order[..m - 1]);
      ToolsClosed(ops, s, m - 1);
      assert Init(s.order[..m]) == s.order[..m - 1] && Last(s.order[..m]) == t.order[m - 1];
      CloseShape(t, m - 1);
      CloseNextTable(t, m - 1);
    }
  }
}
