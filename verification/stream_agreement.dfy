/** The streaming and the batch reader as functions of one list of operations, and exactly when the
    message a client rebuilds from the stream is the one the batch reader returns. */
module StreamAgreement {
  import opened Seqs
  import opened StreamModel
  import opened StreamBatch
  import opened StreamDiscipline

  // ---- what was said about one tool --------------------------------------------------------

  /** The first non-empty id and name of a tool; the id known when the name arrived; the arguments
      that came before the name and those that came with or after it; the last non-empty id and name. */
  datatype Heard = Heard(id: string, name: string, openId: string, early: string, since: string,
                         lastId: string, lastName: string)

  const SILENCE := Heard("", "", "", "", "", "", "")

  function Hear(h: Heard, d: ToolDelta): Heard {
    var id := if h.id == "" then d.id else h.id;
    var name := if h.name == "" then d.name else h.name;
    Heard(id, name,
          if h.name == "" && d.name != "" then id else h.openId,
          if name == "" then h.early + d.arguments else h.early,
          if name != "" then h.since + d.arguments else h.since,
          if d.id != "" then d.id else h.lastId,
          if d.name != "" then d.name else h.lastName)
  }

  function About(ops: seq<Op>, k: int): Heard {
    if ops == [] then SILENCE
    else if Last(ops).Tool? && Last(ops).delta.index == k then Hear(About(Init(ops), k), Last(ops).delta)
    else About(Init(ops), k)
  }

  /** The tools in the order in which they were named. */
  function NamedOrder(ops: seq<Op>): seq<int> {
    if ops == [] then []
    else
      var earlier := NamedOrder(Init(ops));
      if Last(ops).Tool? && Last(ops).delta.name != "" && About(Init(ops), Last(ops).delta.index).name == ""
      then earlier + [Last(ops).delta.index] else earlier
  }

  function Texts(ops: seq<Op>): string {
    if ops == [] then "" else if Last(ops).Text? then Texts(Init(ops)) + Last(ops).text else Texts(Init(ops))
  }

  function LastFinish(ops: seq<Op>): string {
    if ops == [] then "" else if Last(ops).Finish? then Last(ops).reason else LastFinish(Init(ops))
  }

  function LastRealFinish(ops: seq<Op>): string {
    if ops == [] then ""
    else if Last(ops).Finish? && Last(ops).reason != "" then Last(ops).reason
    else LastRealFinish(Init(ops))
  }

  predicate Settled(h: Heard) {
    h.early == "" && h.lastName == h.name && h.lastId == h.openId
  }

  /** Tools are named in the order they are first seen, all of them, before any of their arguments;
      no later name replaces the first and no id comes in after the name; and an empty finish
      reason at the end makes no difference. */
  predicate Matched(ops: seq<Op>) {
    && NamedOrder(ops) == FirstSeen(ops)
    && (forall k | k in FirstSeen(ops) :: Settled(About(ops, k)))
    && MapStopReason(LastFinish(ops)) == MapStopReason(LastRealFinish(ops))
  }

  // ---- positions ---------------------------------------------------------------------------

  function Place(order: seq<int>, k: int): (i: int)
    ensures k in order ==> 0 <= i < |order| && order[i] == k
  {
    if order == [] then -1
    else if k in Init(order) then Place(Init(order), k)
    else
      assert k in order ==> k == Last(order);
      |order| - 1
  }

  lemma PlaceGrown(order: seq<int>, x: int, k: int)
    requires k in order
    ensures Place(order + [x], k) == Place(order, k)
  {
    assert Init(order + [x]) == order;
  }

  lemma PlaceIs(s: State, k: int)
    requires Ok(s) && k in s.tools
    ensures k in s.order && Place(s.order, k) + 1 == s.tools[k].anthropicIdx
  {
    assert s.order[s.tools[k].anthropicIdx - 1] == k;
  }

  // ---- the stream reader -------------------------------------------------------------------

  function StreamTool(ops: seq<Op>, k: int): ToolView {
    var h := About(ops, k);
    ToolView(Place(FirstSeen(ops), k) + 1, h.openId, h.name, h.since)
  }

  /** The tools of the streamed message: those that were named, as far as they were streamed. */
  function StreamTools(ops: seq<Op>): (views: seq<ToolView>)
    ensures |views| == |NamedOrder(ops)|
    ensures forall i | 0 <= i < |views| :: views[i] == StreamTool(ops, NamedOrder(ops)[i])
  {
    seq(|NamedOrder(ops)|, i requires 0 <= i < |NamedOrder(ops)| => StreamTool(ops, NamedOrder(ops)[i]))
  }

  /** The translator's table holds what was said about each tool. */
  ghost predicate TableRead(ops: seq<Op>, tools: map<int, ToolBlock>) {
    && (forall k | k in tools ::
          var h := About(ops, k);
          && tools[k].id == h.id && tools[k].name == h.name
          && (tools[k].started <==> h.name != ""))
    && (forall k | k !in tools :: About(ops, k) == SILENCE)
  }

  /** A tool that has no name yet has streamed nothing; one in NamedOrder has one and was seen. */
  lemma {:induction false} HeardShape(ops: seq<Op>, k: int)
    ensures var h := About(ops, k);
            && (h.name == "" ==> h.since == "" && h.openId == "")
            && (k in NamedOrder(ops) <==> h.name != "")
            && (k !in FirstSeen(ops) ==> h == SILENCE)
  {
    if ops != [] {
      HeardShape(Init(ops), k);
    }
  }

  lemma OtherTool(ops: seq<Op>, d: ToolDelta, k: int)
    requires k != d.index
    ensures About(ops + [Tool(d)], k) == About(ops, k)
  {
    assert Init(ops + [Tool(d)]) == ops;
  }

  lemma SameTool(ops: seq<Op>, d: ToolDelta)
    ensures About(ops + [Tool(d)], d.index) == Hear(About(ops, d.index), d)
    ensures FirstSeen(ops + [Tool(d)]) == if d.index in FirstSeen(ops) then FirstSeen(ops) else FirstSeen(ops) + [d.index]
    ensures NamedOrder(ops + [Tool(d)])
         == if d.name != "" && About(ops, d.index).name == "" then NamedOrder(ops) + [d.index] else NamedOrder(ops)
  {
    assert Init(ops + [Tool(d)]) == ops;
  }

  lemma NoTool(ops: seq<Op>, op: Op)
    requires !op.Tool?
    ensures forall k :: About(ops + [op], k) == About(ops, k)
    ensures NamedOrder(ops + [op]) == NamedOrder(ops) && FirstSeen(ops + [op]) == FirstSeen(ops)
    ensures StreamTools(ops + [op]) == StreamTools(ops)
  {
    assert Init(ops + [op]) == ops;
  }

  /** The views of the other tools stay, whether or not the delta's tool is new. */
  lemma OtherView(ops: seq<Op>, d: ToolDelta, k: int)
    requires k != d.index && k in FirstSeen(ops)
    ensures StreamTool(ops + [Tool(d)], k) == StreamTool(ops, k)
  {
    OtherTool(ops, d, k);
    SameTool(ops, d);
    if d.index !in FirstSeen(ops) {
      PlaceGrown(FirstSeen(ops), d.index, k);
    }
  }

  /** What one tool delta does to the rebuilt tools. */
  function GrownTools(views: seq<ToolView>, index: int, opens: Option<ToolView>, json: string): seq<ToolView> {
    var opened' := if opens.Some? then views + [opens.value] else views;
    if json == "" then opened' else AppendJson(opened', index, json)
  }

  /** View i belongs to the delta's tool exactly if it carries its index; the others stay. */
  lemma ViewAt(ops: seq<Op>, d: ToolDelta, i: nat)
    requires i < |NamedOrder(ops)|
    ensures StreamTools(ops)[i].index == Place(FirstSeen(ops + [Tool(d)]), d.index) + 1 <==> NamedOrder(ops)[i] == d.index
    ensures NamedOrder(ops)[i] != d.index ==> StreamTool(ops + [Tool(d)], NamedOrder(ops)[i]) == StreamTools(ops)[i]
  {
    hide About, NamedOrder, FirstSeen, Place;
    var j := NamedOrder(ops)[i];
    HeardShape(ops, j);
    SameTool(ops, d);
    if j != d.index {
      OtherView(ops, d, j);
    }
  }

  lemma OpenedView(ops: seq<Op>, d: ToolDelta)
    requires About(ops, d.index).name == "" && d.name != ""
    ensures var h', v := About(ops + [Tool(d)], d.index), StreamTool(ops + [Tool(d)], d.index);
            && v.index == Place(FirstSeen(ops + [Tool(d)]), d.index) + 1 && v.id == h'.id && v.name == h'.name
            && v.arguments == d.arguments == "" + d.arguments
  {
    hide About, NamedOrder, FirstSeen, Place;
    SameTool(ops, d);
    HeardShape(ops, d.index);
    assert "" + d.arguments == d.arguments;
  }

  lemma ViewsOpen(ops: seq<Op>, d: ToolDelta)
    requires About(ops, d.index).name == "" && d.name != ""
    ensures var h', index := About(ops + [Tool(d)], d.index), Place(FirstSeen(ops + [Tool(d)]), d.index) + 1;
            StreamTools(ops + [Tool(d)]) == GrownTools(StreamTools(ops), index, Some(ToolView(index, h'.id, h'.name, "")), d.arguments)
  {
    hide About, NamedOrder, FirstSeen, Place, StreamTool;
    SameTool(ops, d);
    HeardShape(ops, d.index);
    OpenedView(ops, d);
    hide Hear;
    forall i | 0 <= i < |NamedOrder(ops)|
      ensures StreamTools(ops + [Tool(d)])[i] == StreamTools(ops)[i]
      ensures StreamTools(ops)[i].index != Place(FirstSeen(ops + [Tool(d)]), d.index) + 1
    {
      ViewAt(ops, d, i);
      assert NamedOrder(ops)[i] in NamedOrder(ops);
      assert (NamedOrder(ops) + [d.index])[i] == NamedOrder(ops)[i];
    }
  }

  lemma ViewsAdd(ops: seq<Op>, d: ToolDelta)
    requires About(ops, d.index).name != ""
    ensures StreamTools(ops + [Tool(d)])
         == GrownTools(StreamTools(ops), Place(FirstSeen(ops + [Tool(d)]), d.index) + 1, None, d.arguments)
  {
    hide About, NamedOrder, FirstSeen, Place;
    SameTool(ops, d);
    HeardShape(ops, d.index);
    assert About(ops, d.index).since + "" == About(ops, d.index).since;
    forall i | 0 <= i < |NamedOrder(ops)|
      ensures StreamTools(ops + [Tool(d)])[i]
           == if NamedOrder(ops)[i] == d.index then StreamTools(ops)[i].(arguments := StreamTools(ops)[i].arguments + d.arguments)
              else StreamTools(ops)[i]
      ensures StreamTools(ops)[i].index == Place(FirstSeen(ops + [Tool(d)]), d.index) + 1 <==> NamedOrder(ops)[i] == d.index
    {
      ViewAt(ops, d, i);
    }
  }

  lemma ViewsStay(ops: seq<Op>, d: ToolDelta)
    requires About(ops, d.index).name == "" && d.name == ""
    ensures StreamTools(ops + [Tool(d)]) == StreamTools(ops)
  {
    hide About, NamedOrder, FirstSeen, Place;
    SameTool(ops, d);
    HeardShape(ops, d.index);
    forall i | 0 <= i < |NamedOrder(ops)| ensures StreamTools(ops + [Tool(d)])[i] == StreamTools(ops)[i] {
      ViewAt(ops, d, i);
      assert NamedOrder(ops)[i] in NamedOrder(ops);
    }
  }

  lemma ViewsGrow(ops: seq<Op>, d: ToolDelta)
    ensures var k, h, h' := d.index, About(ops, d.index), About(ops + [Tool(d)], d.index);
            var index := Place(FirstSeen(ops + [Tool(d)]), k) + 1;
            StreamTools(ops + [Tool(d)])
            == GrownTools(StreamTools(ops), index,
                          if h.name == "" && h'.name != "" then Some(ToolView(index, h'.id, h'.name, "")) else None,
                          if h'.name == "" then "" else d.arguments)
  {
    hide About, NamedOrder, FirstSeen, Place, StreamTools;
    SameTool(ops, d);
    if About(ops, d.index).name != "" {
      ViewsAdd(ops, d);
    } else if d.name != "" {
      ViewsOpen(ops, d);
    } else {
      ViewsStay(ops, d);
    }
  }

  /** The same on the translator's side. */
  lemma MessageGrow(s: State, d: ToolDelta)
    requires s.started
    ensures var e := EntryOf(s, d.index);
            var e' := Named(e, d.id, d.name);
            var opens := !e.started && e'.name != "";
            var m := Rebuild(s.events);
            Rebuild(StepTool(s, d).events)
            == m.(tools := GrownTools(m.tools, e.anthropicIdx,
                                      if opens then Some(ToolView(e.anthropicIdx, e'.id, e'.name, "")) else None,
                                      if e.started || opens then d.arguments else ""))
  {
    hide Rebuild, AppendJson, EnsureTool;
    var e := EntryOf(s, d.index);
    var t := EnsureTool(s, d.index, d.id, d.name);
    OpenGrow(s, d);
    RebuildSnoc(t.events, JsonDelta(e.anthropicIdx, d.arguments));
  }

  lemma OpenGrow(s: State, d: ToolDelta)
    ensures var e := EntryOf(s, d.index);
            var e' := Named(e, d.id, d.name);
            var opens := !e.started && e'.name != "";
            var m, t := Rebuild(s.events), EnsureTool(s, d.index, d.id, d.name);
            && Rebuild(t.events) == (if opens then m.(tools := m.tools + [ToolView(e.anthropicIdx, e'.id, e'.name, "")]) else m)
            && t.tools[d.index] == e'.(started := e.started || opens)
  {
    hide Rebuild, EnsureTool, Entered;
    var e := EntryOf(s, d.index);
    var e' := Named(e, d.id, d.name);
    var a := Entered(s, d);
    EnteredOpened(s, d);
    EntryEntered(s, d);
    CloseTextRebuild(a);
    RebuildSnoc(CloseText(a).events, ToolStart(e.anthropicIdx, e'.id, e'.name));
  }

  /** A translator that read ops, and what its events rebuild to. */
  ghost predicate StreamRead(ops: seq<Op>, s: State) {
    && Ok(s) && s.order == FirstSeen(ops) && TableRead(ops, s.tools)
    && s.finish == LastRealFinish(ops)
    && Rebuild(s.events) == Message(Texts(ops), StreamTools(ops), None)
  }

  lemma EntryRead(ops: seq<Op>, s: State, d: ToolDelta)
    requires Ok(s) && s.order == FirstSeen(ops) && TableRead(ops, s.tools)
    ensures var e, h, h' := EntryOf(s, d.index), About(ops, d.index), About(ops + [Tool(d)], d.index);
            && (e.started <==> h.name != "")
            && Named(e, d.id, d.name).id == h'.id && Named(e, d.id, d.name).name == h'.name
            && e.anthropicIdx == Place(FirstSeen(ops + [Tool(d)]), d.index) + 1
  {
    hide About, FirstSeen, Place;
    SameTool(ops, d);
    if d.index in s.tools {
      PlaceIs(s, d.index);
    } else {
      NotSeen(s, d.index);
      PlaceLast(s.order, d.index);
    }
  }

  lemma NotSeen(s: State, k: int)
    requires Ok(s) && k !in s.tools
    ensures k !in s.order && s.nextBlockIdx == |s.order| + 1
  {
  }

  lemma PlaceLast(order: seq<int>, k: int)
    requires k !in order
    ensures Place(order + [k], k) == |order|
  {
    assert Init(order + [k]) == order;
  }

  lemma TableGrow(ops: seq<Op>, s: State, d: ToolDelta)
    requires Ok(s) && s.order == FirstSeen(ops) && TableRead(ops, s.tools)
    ensures TableRead(ops + [Tool(d)], StepTool(s, d).tools)
  {
    hide About, NamedOrder, FirstSeen, StepTool, Consistent, EntryOf;
    StepToolShape(s, d, StepTool(s, d));
    StepToolEntry(s, d);
    EntryRead(ops, s, d);
    forall k | k != d.index ensures About(ops + [Tool(d)], k) == About(ops, k) {
      OtherTool(ops, d, k);
    }
    SameTool(ops, d);
  }

  lemma StepToolEntry(s: State, d: ToolDelta)
    ensures d.index in StepTool(s, d).tools
    ensures var e := Named(EntryOf(s, d.index), d.id, d.name);
            StepTool(s, d).tools[d.index] == e.(started := e.started || e.name != "")
  {
    hide EnsureTool, Entered, OpenTool;
    var a := EnsureStart(s);
    EnteredOpened(a, d);
    EntryEntered(a, d);
    OpenToolShape(Entered(a, d), d.index);
  }

  /** One tool delta: the events grow as the views do. */
  lemma ToolMessage(ops: seq<Op>, s: State, d: ToolDelta)
    requires s.started && Ok(s) && s.order == FirstSeen(ops) && TableRead(ops, s.tools)
    ensures var m := Rebuild(s.events);
            m.tools == StreamTools(ops) ==>
              Rebuild(StepTool(s, d).events) == m.(tools := StreamTools(ops + [Tool(d)]))
  {
    hide About, NamedOrder, FirstSeen, Place, StreamTools, StepTool, Rebuild, Consistent, TableRead, GrownTools;
    SameTool(ops, d);
    EntryRead(ops, s, d);
    MessageGrow(s, d);
    ViewsGrow(ops, d);
  }

  lemma ToolRead(ops: seq<Op>, s: State, d: ToolDelta)
    requires StreamRead(ops, s)
    ensures StreamRead(ops + [Tool(d)], StepTool(s, d))
  {
    hide About, NamedOrder, FirstSeen, StreamTools, StepTool, Rebuild, Consistent, TableRead;
    var op := Tool(d);
    assert Init(ops + [op]) == ops && Last(ops + [op]) == op;
    StartKept(s, d);
    StepToolOk(s, d);
    OrderGrow(ops, s, d);
    TableGrow(ops, s, d);
    ToolMessage(ops, EnsureStart(s), d);
    StepToolKeeps(s, d);
  }

  lemma StartKept(s: State, d: ToolDelta)
    ensures Rebuild(EnsureStart(s).events) == Rebuild(s.events)
    ensures StepTool(EnsureStart(s), d) == StepTool(s, d)
  {
    RebuildSnoc(s.events, MessageStart);
  }

  lemma OrderGrow(ops: seq<Op>, s: State, d: ToolDelta)
    requires Ok(s) && s.order == FirstSeen(ops)
    ensures StepTool(s, d).order == FirstSeen(ops + [Tool(d)])
  {
    SameTool(ops, d);
    StepToolKeeps(s, d);
    if d.index in s.tools {
      PlaceIs(s, d.index);
    } else {
      NotSeen(s, d.index);
    }
  }

  /** Everything but the finish reason, the text and the events is the table, which stays. */
  lemma PlainRead(ops: seq<Op>, s: State, op: Op)
    requires StreamRead(ops, s) && !op.Tool? && op != Done
    ensures StreamRead(ops + [op], Step(s, op))
  {
    hide About, NamedOrder, FirstSeen, StreamTools, Rebuild, Consistent, StepText, Step, TableRead;
    NoTool(ops, op);
    TableSame(ops, op, s.tools);
    assert Init(ops + [op]) == ops && Last(ops + [op]) == op;
    StepPlain(s, op);
  }

  lemma TableSame(ops: seq<Op>, op: Op, tools: map<int, ToolBlock>)
    requires TableRead(ops, tools) && !op.Tool?
    ensures TableRead(ops + [op], tools)
  {
    hide About;
    NoTool(ops, op);
  }

  lemma StepPlain(s: State, op: Op)
    requires !op.Tool? && op != Done
    ensures var t, m := Step(s, op), Rebuild(s.events);
            && t.tools == s.tools && t.order == s.order && t.nextBlockIdx == s.nextBlockIdx
            && t.finish == (if op.Finish? && op.reason != "" then op.reason else s.finish)
            && Rebuild(t.events) == if op.Text? then m.(text := m.text + op.text) else m
  {
    hide Rebuild;
    if op.Text? {
      TextRead(s, op.text);
    }
  }

  lemma TextRead(s: State, text: string)
    ensures var m := Rebuild(s.events); Rebuild(StepText(s, text).events) == m.(text := m.text + text)
  {
    RebuildSnoc(s.events, MessageStart);
    var a := EnsureStart(s);
    RebuildSnoc(a.events, TextStart);
    RebuildSnoc(EnsureText(a).events, TextDelta(text));
  }

  /** What the translator has read, and what a client has rebuilt, after any stream without [DONE]. */
  lemma {:induction false} StreamReads(ops: seq<Op>)
    requires NoDone(ops)
    ensures StreamRead(ops, Run(FRESH, ops))
  {
    hide StreamRead, Step;
    if ops == [] {
      FreshReads();
    } else {
      var pre, op := Init(ops), Last(ops);
      StreamReads(pre);
      InitLast(ops);
      assert ops[|pre|] == op;
      match op
      case Tool(d) =>
        ToolRead(pre, Run(FRESH, pre), d);
        StepIsTool(Run(FRESH, pre), d);
      case _ => PlainRead(pre, Run(FRESH, pre), op);
    }
  }

  lemma FreshReads()
    ensures StreamRead([], FRESH)
  {
  }

  lemma StepIsTool(s: State, d: ToolDelta)
    ensures Step(s, Tool(d)) == StepTool(s, d)
  {
  }

  // ---- the batch reader --------------------------------------------------------------------

  function BatchAcc(ops: seq<Op>, k: int): Acc {
    Acc(About(ops, k).lastId, About(ops, k).lastName, About(ops, k).early + About(ops, k).since)
  }

  /** What the batch reader holds after any stream. */
  ghost predicate BatchRead(ops: seq<Op>, b: Batch) {
    && b.text == Texts(ops) && b.finish == LastFinish(ops) && b.order == FirstSeen(ops)
    && (forall k :: k in b.accs <==> k in FirstSeen(ops))
    && (forall k | k in b.accs :: b.accs[k] == BatchAcc(ops, k))
  }

  lemma {:induction false} BatchReads(ops: seq<Op>)
    ensures BatchRead(ops, BatchRun(ops))
  {
    hide BatchRead;
    if ops == [] {
      EmptyReads();
    } else {
      var pre, op := Init(ops), Last(ops);
      BatchReads(pre);
      InitLast(ops);
      match op
      case Tool(d) => BatchTool(pre, BatchRun(pre), d);
      case _ => BatchPlain(pre, BatchRun(pre), op);
    }
  }

  lemma EmptyReads()
    ensures BatchRead([], EMPTY_BATCH)
  {
  }

  lemma BatchPlain(ops: seq<Op>, b: Batch, op: Op)
    requires BatchRead(ops, b) && !op.Tool?
    ensures BatchRead(ops + [op], BatchStep(b, op))
  {
    hide FirstSeen, BatchAcc, Texts, LastFinish;
    PlainTools(ops, op);
    PlainSaid(ops, op);
  }

  lemma PlainSaid(ops: seq<Op>, op: Op)
    ensures Texts(ops + [op]) == if op.Text? then Texts(ops) + op.text else Texts(ops)
    ensures LastFinish(ops + [op]) == if op.Finish? then op.reason else LastFinish(ops)
  {
    assert Init(ops + [op]) == ops;
  }

  lemma PlainTools(ops: seq<Op>, op: Op)
    requires !op.Tool?
    ensures FirstSeen(ops + [op]) == FirstSeen(ops)
    ensures forall k :: BatchAcc(ops + [op], k) == BatchAcc(ops, k)
  {
    NoTool(ops, op);
  }

  lemma BatchTool(ops: seq<Op>, b: Batch, d: ToolDelta)
    requires BatchRead(ops, b)
    ensures BatchRead(ops + [Tool(d)], AddDelta(b, d))
  {
    hide About, FirstSeen, NamedOrder, BatchAcc, Hear;
    assert Init(ops + [Tool(d)]) == ops;
    SameTool(ops, d);
    AccGrow(ops, d);
    NewAcc(ops, d.index);
    forall k | k != d.index ensures BatchAcc(ops + [Tool(d)], k) == BatchAcc(ops, k) {
      OtherAcc(ops, d, k);
    }
  }

  lemma NewAcc(ops: seq<Op>, k: int)
    ensures k !in FirstSeen(ops) ==> BatchAcc(ops, k) == Acc("", "", "")
  {
    HeardShape(ops, k);
    assert "" + "" == "";
  }

  lemma OtherAcc(ops: seq<Op>, d: ToolDelta, k: int)
    requires k != d.index
    ensures BatchAcc(ops + [Tool(d)], k) == BatchAcc(ops, k)
  {
    OtherTool(ops, d, k);
  }

  /** Early and streamed arguments together are all of them, in order. */
  lemma AccGrow(ops: seq<Op>, d: ToolDelta)
    ensures var acc, h := BatchAcc(ops, d.index), BatchAcc(ops + [Tool(d)], d.index);
            h == Acc(if d.id != "" then d.id else acc.id, if d.name != "" then d.name else acc.name, acc.arguments + d.arguments)
  {
    hide About, NamedOrder, FirstSeen;
    SameTool(ops, d);
    HeardShape(ops, d.index);
    var h := About(ops, d.index);
    PlusAssoc(h.early, h.since, d.arguments);
    assert h.early + "" == h.early && (h.early + d.arguments) + "" == h.early + d.arguments;
    assert "" + d.arguments == d.arguments;
  }

  // ---- exactly when the two agree ----------------------------------------------------------

  lemma ViewsRead(ops: seq<Op>)
    ensures forall i | 0 <= i < |BatchRun(ops).order| :: BatchRun(ops).order[i] in BatchRun(ops).accs
    ensures |Views(BatchRun(ops))| == |FirstSeen(ops)|
    ensures forall i | 0 <= i < |FirstSeen(ops)| ::
              var h := About(ops, FirstSeen(ops)[i]);
              Views(BatchRun(ops))[i] == ToolView(i + 1, h.lastId, h.lastName, h.early + h.since)
  {
    BatchReads(ops);
    AccsRead(ops, BatchRun(ops));
  }

  lemma AccsRead(ops: seq<Op>, b: Batch)
    requires BatchRead(ops, b)
    ensures |b.order| == |FirstSeen(ops)|
    ensures forall i | 0 <= i < |b.order| ::
              b.order[i] == FirstSeen(ops)[i] && b.order[i] in b.accs && b.accs[b.order[i]] == BatchAcc(ops, FirstSeen(ops)[i])
  {
    hide About, FirstSeen;
    forall i | 0 <= i < |b.order| ensures b.order[i] in b.accs {
      var k := FirstSeen(ops)[i];
      assert k in FirstSeen(ops);
      assert k in b.accs;
    }
  }

  /** A streamed tool is the batch reader's of the same place exactly if it is the same one, and settled. */
  lemma ViewMatches(ops: seq<Op>, i: nat)
    requires i < |FirstSeen(ops)| && i < |NamedOrder(ops)|
    ensures var h := About(ops, FirstSeen(ops)[i]);
            StreamTool(ops, NamedOrder(ops)[i]) == ToolView(i + 1, h.lastId, h.lastName, h.early + h.since)
            <==> NamedOrder(ops)[i] == FirstSeen(ops)[i] && Settled(h)
  {
    hide About, NamedOrder, FirstSeen, Place;
    var k, j := FirstSeen(ops)[i], NamedOrder(ops)[i];
    var h := About(ops, k);
    HeardShape(ops, j);
    SeenOnce(ops, i, Place(FirstSeen(ops), k));
    assert |h.early + h.since| == |h.early| + |h.since|;
    assert h.early == "" ==> h.early + h.since == h.since;
  }

  /** The streamed tools are the batch reader's exactly if the tools are matched. */
  lemma ToolsMatch(ops: seq<Op>, views: seq<ToolView>)
    requires |views| == |FirstSeen(ops)|
    requires forall i | 0 <= i < |views| ::
               var h := About(ops, FirstSeen(ops)[i]);
               views[i] == ToolView(i + 1, h.lastId, h.lastName, h.early + h.since)
    ensures StreamTools(ops) == views <==> NamedOrder(ops) == FirstSeen(ops) && forall k | k in FirstSeen(ops) :: Settled(About(ops, k))
  {
    hide About, NamedOrder, FirstSeen, StreamTool, StreamTools, Settled;
    forall i | 0 <= i < |views| && i < |NamedOrder(ops)|
      ensures StreamTools(ops)[i] == views[i] <==> NamedOrder(ops)[i] == FirstSeen(ops)[i] && Settled(About(ops, FirstSeen(ops)[i]))
    {
      ViewMatches(ops, i);
    }
    if StreamTools(ops) == views {
      forall k | k in FirstSeen(ops) ensures Settled(About(ops, k)) {
        var i :| 0 <= i < |views| && FirstSeen(ops)[i] == k;
        assert StreamTools(ops)[i] == views[i];
      }
    }
    if NamedOrder(ops) == FirstSeen(ops) && forall k | k in FirstSeen(ops) :: Settled(About(ops, k)) {
      forall i | 0 <= i < |views| ensures StreamTools(ops)[i] == views[i] {
        assert FirstSeen(ops)[i] in FirstSeen(ops);
      }
    }
  }

  lemma {:induction false} SeenOnce(ops: seq<Op>, i: nat, j: int)
    requires i < |FirstSeen(ops)| && 0 <= j < |FirstSeen(ops)| && FirstSeen(ops)[i] == FirstSeen(ops)[j]
    ensures i == j
  {
    if ops != [] {
      var earlier := FirstSeen(Init(ops));
      if i < |earlier| && j < |earlier| {
        SeenOnce(Init(ops), i, j);
      }
    }
  }

  /** For every stream that ends in its only [DONE]: what a client rebuilds from the events is what the
      batch reader returns, block numbers included, exactly if the stream is matched. */
  lemma StreamAgreesIff(ops: seq<Op>)
    requires NoDone(ops)
    ensures forall i | 0 <= i < |BatchRun(ops).order| :: BatchRun(ops).order[i] in BatchRun(ops).accs
    ensures Rebuild(Session(ops + [Done]).events)
         == Message(BatchRun(ops).text, Views(BatchRun(ops)), Some(MapStopReason(BatchRun(ops).finish)))
       <==> Matched(ops)
  {
    hide About, NamedOrder, FirstSeen, StreamTools, Session, Run, BatchRun, MapStopReason, Rebuild, Views;
    StreamReads(ops);
    BatchReads(ops);
    ViewsRead(ops);
    NotStopped(ops);
    SessionDone(ops);
    FinalizeRebuild(Run(FRESH, ops));
    ToolsMatch(ops, Views(BatchRun(ops)));
  }

  // ---- how a stream ends -------------------------------------------------------------------

  /** The completion count of the last usage record. */
  function LastCount(ops: seq<Op>): int {
    if ops == [] then 0 else if Last(ops).Meter? then Last(ops).usage.completionTokens else LastCount(Init(ops))
  }

  lemma {:induction false} CountKept(ops: seq<Op>)
    requires NoDone(ops)
    ensures Run(FRESH, ops).outputToks == LastCount(ops)
  {
    hide Step;
    if ops != [] {
      CountKept(Init(ops));
      assert ops[|ops| - 1] != Done;
      StepCount(Run(FRESH, Init(ops)), Last(ops));
    }
  }

  lemma StepCount(s: State, op: Op)
    requires op != Done
    ensures Step(s, op).outputToks == if op.Meter? then op.usage.completionTokens else s.outputToks
  {
    hide StepTool;
    if op.Tool? {
      ToolCount(s, op.delta);
    }
  }

  lemma ToolCount(s: State, d: ToolDelta)
    ensures StepTool(s, d).outputToks == s.outputToks
  {
    hide EnsureTool;
    EnteredOpened(EnsureStart(s), d);
  }

  lemma {:induction false} CloseToolsCount(s: State, ks: seq<int>)
    ensures CloseTools(s, ks).outputToks == s.outputToks && CloseTools(s, ks).finish == s.finish
  {
    if ks != [] {
      CloseToolsCount(s, Init(ks));
    }
  }

  lemma Ending(s: State)
    requires !s.stopped
    ensures exists before :: Finalize(s).events == before + [MessageDelta(MapStopReason(s.finish), s.outputToks)] + [MessageStop]
  {
    CloseToolsCount(Closing(s), Closing(s).order);
    assert Sealed(s) == CloseTools(Closing(s), Closing(s).order);
    hide Sealed, MapStopReason;
    assert Finalize(s).events == Sealed(s).events + [MessageDelta(MapStopReason(s.finish), s.outputToks)] + [MessageStop];
  }

  /** Anthropic's word for an OpenAI finish reason; "stop", none and unknown ones are "end_turn". */
  predicate WordFor(finish: string, r: string) {
    && (finish == "length" ==> r == "max_tokens")
    && (finish == "content_filter" ==> r == "stop_sequence")
    && (finish == "tool_calls" || finish == "function_call" ==> r == "tool_use")
    && (finish !in {"length", "content_filter", "tool_calls", "function_call"} ==> r == "end_turn")
  }

  /** The last event is message_stop, the one before it a message_delta with that word and count. */
  predicate EndsIn(events: seq<Event>, finish: string, count: int) {
    && |events| >= 2 && events[|events| - 1] == MessageStop
    && events[|events| - 2].MessageDelta?
    && events[|events| - 2].outputTokens == count
    && WordFor(finish, events[|events| - 2].stopReason)
  }

  /** A stream ends in one message_delta and message_stop: the delta carries Anthropic's word for the last
      finish reason that is not empty, and the completion count of the last usage record. */
  lemma StreamEnding(ops: seq<Op>)
    requires NoDone(ops)
    ensures EndsIn(Session(ops + [Done]).events, LastRealFinish(ops), LastCount(ops))
    ensures Run(FRESH, ops).started ==> Session(ops) == Session(ops + [Done])
  {
    hide Session, Run, Finalize, LastRealFinish, LastCount, MapStopReason, StreamRead, Flags, WordFor;
    NotStopped(ops);
    SessionDone(ops);
    FinishRead(ops);
    CountKept(ops);
    LastTwo(Run(FRESH, ops));
    StopWords(LastRealFinish(ops));
  }

  lemma FinishRead(ops: seq<Op>)
    requires NoDone(ops)
    ensures Run(FRESH, ops).finish == LastRealFinish(ops)
  {
    hide Run, LastRealFinish, Rebuild, StreamTools, About, FirstSeen, Texts, TableRead, Consistent;
    StreamReads(ops);
  }

  lemma LastTwo(s: State)
    requires !s.stopped
    ensures var events := Finalize(s).events;
            && |events| >= 2 && events[|events| - 1] == MessageStop
            && events[|events| - 2] == MessageDelta(MapStopReason(s.finish), s.outputToks)
  {
    hide Finalize, MapStopReason;
    Ending(s);
    var before :| Finalize(s).events == before + [MessageDelta(MapStopReason(s.finish), s.outputToks)] + [MessageStop];
  }

  lemma StopWords(finish: string)
    ensures WordFor(finish, MapStopReason(finish))
  {
    assert "length"[0] == 'l' && "content_filter"[0] == 'c' && "tool_calls"[0] == 't' && "function_call"[0] == 'f' && "stop"[0] == 's';
  }

  // ---- a condition delta by delta ----------------------------------------------------------

  /** The first delta of tool k. */
  function FirstDelta(ops: seq<Op>, k: int): Option<ToolDelta> {
    if ops == [] then None
    else
      var earlier := FirstDelta(Init(ops), k);
      if earlier.None? && Last(ops).Tool? && Last(ops).delta.index == k then Some(Last(ops).delta) else earlier
  }

  /** A tool's first delta names it, and no later delta contradicts the first one's id or name. */
  predicate CleanTools(ops: seq<Op>) {
    forall q | 0 <= q < |ops| && ops[q].Tool? ::
      match FirstDelta(ops[..q], ops[q].delta.index)
      case None => ops[q].delta.name != ""
      case Some(first) => ops[q].delta.id in ["", first.id] && ops[q].delta.name in ["", first.name]
  }

  predicate NonEmptyFinishes(ops: seq<Op>) {
    forall q | 0 <= q < |ops| :: ops[q] != Finish("")
  }

  predicate Agreeable(ops: seq<Op>) {
    CleanTools(ops) && NonEmptyFinishes(ops) && NoDone(ops)
  }

  lemma AgreeablePrefix(ops: seq<Op>)
    requires ops != [] && Agreeable(ops)
    ensures Agreeable(Init(ops))
  {
    forall q | 0 <= q < |ops| - 1 && ops[q].Tool?
      ensures Init(ops)[..q] == ops[..q]
    {
    }
    assert CleanTools(Init(ops)) by {
      forall q | 0 <= q < |Init(ops)| && Init(ops)[q].Tool?
        ensures match FirstDelta(Init(ops)[..q], Init(ops)[q].delta.index)
                case None => Init(ops)[q].delta.name != ""
                case Some(first) => Init(ops)[q].delta.id in ["", first.id] && Init(ops)[q].delta.name in ["", first.name]
      {
        assert ops[q].Tool? && Init(ops)[..q] == ops[..q];
      }
    }
  }

  /** In a clean stream everything said about a tool is its first delta. */
  lemma {:induction false} CleanReads(ops: seq<Op>)
    requires Agreeable(ops)
    ensures NamedOrder(ops) == FirstSeen(ops) && LastFinish(ops) == LastRealFinish(ops)
    ensures forall k :: k in FirstSeen(ops) <==> FirstDelta(ops, k).Some?
    ensures forall k | FirstDelta(ops, k).Some? ::
              var h, d := About(ops, k), FirstDelta(ops, k).value;
              && d.name != "" && h.early == ""
              && h.name == h.lastName == d.name && h.id == h.openId == h.lastId == d.id
    ensures forall k | FirstDelta(ops, k).None? :: About(ops, k) == SILENCE
  {
    if ops != [] {
      var pre := Init(ops);
      AgreeablePrefix(ops);
      CleanReads(pre);
      assert ops[..|ops| - 1] == pre && ops[|ops| - 1] == Last(ops);
    }
  }

  lemma AgreeableMatched(ops: seq<Op>)
    requires Agreeable(ops)
    ensures Matched(ops)
  {
    CleanReads(ops);
  }

  /** Streaming and batch agree: text, tool ids, names, arguments and order, and the stop reason. */
  lemma StreamAgreesWithBatch(ops: seq<Op>)
    requires Agreeable(ops)
    ensures forall i | 0 <= i < |BatchRun(ops).order| :: BatchRun(ops).order[i] in BatchRun(ops).accs
    ensures Rebuild(Session(ops + [Done]).events)
         == Message(BatchRun(ops).text, Views(BatchRun(ops)), Some(MapStopReason(BatchRun(ops).finish)))
    ensures Run(FRESH, ops).started ==> Session(ops) == Session(ops + [Done])
  {
    AgreeableMatched(ops);
    StreamAgreesIff(ops);
    SessionDone(ops);
  }

  /** Agreement reaches further: a tool named in its second delta, before any arguments. */
  lemma LateNameAgrees()
    ensures var ops := [Tool(ToolDelta(0, "a", "", "")), Tool(ToolDelta(0, "", "f", "{}"))];
            && !Agreeable(ops) && NoDone(ops)
            && (forall i | 0 <= i < |BatchRun(ops).order| :: BatchRun(ops).order[i] in BatchRun(ops).accs)
            && Rebuild(Session(ops + [Done]).events)
               == Message(BatchRun(ops).text, Views(BatchRun(ops)), Some(MapStopReason(BatchRun(ops).finish)))
  {
    hide Session, BatchRun, Rebuild, Views, MapStopReason;
    var d, e := ToolDelta(0, "a", "", ""), ToolDelta(0, "", "f", "{}");
    var ops := [Tool(d), Tool(e)];
    TwoDeltas(d, e);
    assert ops[..0] == [] && ops[0].Tool?;
    StreamAgreesIff(ops);
  }

  /** And it ends there: arguments that come before the name reach the batch reader only. */
  lemma EarlyArgumentsDiffer()
    ensures var ops := [Tool(ToolDelta(0, "a", "", "{")), Tool(ToolDelta(0, "", "f", "}"))];
            && NoDone(ops) && (forall i | 0 <= i < |BatchRun(ops).order| :: BatchRun(ops).order[i] in BatchRun(ops).accs)
            && Rebuild(Session(ops + [Done]).events)
               != Message(BatchRun(ops).text, Views(BatchRun(ops)), Some(MapStopReason(BatchRun(ops).finish)))
  {
    hide Session, BatchRun, Rebuild, Views, MapStopReason;
    var d, e := ToolDelta(0, "a", "", "{"), ToolDelta(0, "", "f", "}");
    var ops := [Tool(d), Tool(e)];
    TwoDeltas(d, e);
    assert About(ops, 0).early == "{";
    assert 0 in FirstSeen(ops);
    StreamAgreesIff(ops);
  }

  lemma TwoDeltas(d: ToolDelta, e: ToolDelta)
    requires d.index == e.index == 0 && d.name == "" && e.name != ""
    ensures var ops := [Tool(d), Tool(e)];
            && FirstSeen(ops) == [0] && NamedOrder(ops) == [0]
            && About(ops, 0) == Hear(Hear(SILENCE, d), e)
            && LastFinish(ops) == LastRealFinish(ops) == ""
  {
    var ops := [Tool(d), Tool(e)];
    assert Init(ops) == [Tool(d)] && Init([Tool(d)]) == [];
    assert About([Tool(d)], 0) == Hear(SILENCE, d);
    assert FirstSeen([Tool(d)]) == [0] && NamedOrder([Tool(d)]) == [];
    assert LastFinish([Tool(d)]) == LastRealFinish([Tool(d)]) == "";
  }
}
