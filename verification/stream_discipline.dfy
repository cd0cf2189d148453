/** The block discipline of the emitted event stream: a strict client automaton, and exactly when
    it accepts a session. */
module StreamDiscipline {
  import opened Seqs
  import opened StreamModel
  import opened StreamFraming
  import opened StreamBatch

  // ---- a strict client ---------------------------------------------------------------------

  datatype Phase = Idle | Streaming | Ending | Finished
  datatype Client = Client(phase: Phase, open: set<int>, closed: set<int>, lastStop: int)

  function Opened(c: Client, index: int): Option<Client> {
    if c.phase == Streaming && index !in c.open && index !in c.closed
    then Some(c.(open := c.open + {index})) else None
  }

  function Next(c: Client, e: Event): Option<Client> {
    match e
    case MessageStart => if c.phase == Idle then Some(c.(phase := Streaming)) else None
    case TextStart => Opened(c, 0)
    case ToolStart(index, _, _) => Opened(c, index)
    case TextDelta(_) => if c.phase == Streaming && 0 in c.open then Some(c) else None
    case JsonDelta(index, _) => if c.phase == Streaming && index in c.open then Some(c) else None
    case BlockStop(index) =>
      if c.phase == Streaming && index in c.open && c.lastStop < index
      then Some(c.(open := c.open - {index}, closed := c.closed + {index}, lastStop := index)) else None
    case MessageDelta(_, _) => if c.phase == Streaming && c.open == {} then Some(c.(phase := Ending)) else None
    case MessageStop => if c.phase == Ending then Some(c.(phase := Finished)) else None
  }

  function Replay(events: seq<Event>): Option<Client> {
    if events == [] then Some(Client(Idle, {}, {}, -1))
    else match Replay(Init(events))
      case None => None
      case Some(c) => Next(c, Last(events))
  }

  predicate Accepts(events: seq<Event>) {
    Replay(events).Some? && Replay(events).value.phase == Finished
  }

  lemma ReplaySnoc(events: seq<Event>, e: Event)
    ensures Replay(events + [e])
         == match Replay(events) case None => None case Some(c) => Next(c, e)
  {
    assert Init(events + [e]) == events;
  }

  lemma {:induction false} ReplayNone(events: seq<Event>, more: seq<Event>)
    requires events <= more && Replay(events).None?
    ensures Replay(more).None?
  {
    if |events| < |more| {
      ReplayNone(events, Init(more));
    } else {
      assert events == more;
    }
  }

  lemma {:induction false} NothingAfterFinished(events: seq<Event>, more: seq<Event>)
    requires Accepts(events) && events < more
    ensures Replay(more).None?
  {
    if |events| + 1 < |more| {
      NothingAfterFinished(events, Init(more));
    } else {
      assert Init(more) == events;
    }
  }

  // ---- what acceptance means, event by event -----------------------------------------------

  predicate StartsBlock(e: Event, b: int) {
    (e.TextStart? && b == 0) || (e.ToolStart? && e.index == b)
  }

  predicate InBlock(e: Event, b: int) {
    (e.TextDelta? && b == 0) || (e.JsonDelta? && e.index == b)
  }

  ghost predicate Started(events: seq<Event>, b: int) {
    exists i | 0 <= i < |events| :: StartsBlock(events[i], b)
  }

  ghost predicate Stopped(events: seq<Event>, b: int) {
    exists i | 0 <= i < |events| :: events[i] == BlockStop(b)
  }

  /** The automaton's sets are the blocks started and not stopped, and the blocks stopped. */
  lemma {:induction false} ReplaySets(events: seq<Event>, b: int)
    requires Replay(events).Some?
    ensures b in Replay(events).value.open <==> Started(events, b) && !Stopped(events, b)
    ensures b in Replay(events).value.closed <==> Stopped(events, b)
    ensures Stopped(events, b) ==> Started(events, b)
  {
    if events != [] {
      var pre, e := Init(events), Last(events);
      ReplaySets(pre, b);
      assert forall i | 0 <= i < |pre| :: events[i] == pre[i];
      assert events[|pre|] == e;
      assert Started(events, b) <==> Started(pre, b) || StartsBlock(e, b);
      assert Stopped(events, b) <==> Stopped(pre, b) || e == BlockStop(b);
    }
  }

  lemma {:induction false} ReplayPrefix(events: seq<Event>, i: nat)
    requires Replay(events).Some? && i <= |events|
    ensures Replay(events[..i]).Some?
  {
    if i == |events| {
      assert events[..i] == events;
    } else {
      ReplayPrefix(Init(events), i);
      assert Init(events)[..i] == events[..i];
    }
  }

  /** Every event of an accepted stream was legal where it stands. */
  lemma ReplayAt(events: seq<Event>, i: nat)
    requires Replay(events).Some? && i < |events|
    ensures Replay(events[..i]).Some? && Next(Replay(events[..i]).value, events[i]).Some?
  {
    ReplayPrefix(events, i + 1);
    assert Init(events[..i + 1]) == events[..i];
  }

  lemma {:induction false} PhaseShape(events: seq<Event>)
    requires Replay(events).Some?
    ensures Replay(events).value.phase == Idle <==> events == []
    ensures events != [] ==> events[0] == MessageStart
    ensures Replay(events).value.phase != Finished ==> MessageStop !in events
    ensures Replay(events).value.phase == Finished ==> Last(events) == MessageStop && MessageStop !in Init(events)
    ensures Replay(events).value.phase in {Ending, Finished} ==> Replay(events).value.open == {}
  {
    if events != [] {
      PhaseShape(Init(events));
      assert events == Init(events) + [Last(events)];
    }
  }

  /** A block is started once; it is stopped once, later; its deltas lie between the two. */
  lemma AcceptedBlock(events: seq<Event>, b: int, i: nat)
    requires Accepts(events) && i < |events|
    ensures StartsBlock(events[i], b) ==>
              && (forall j | 0 <= j < |events| && j != i :: !StartsBlock(events[j], b))
              && (exists j :: i < j < |events| && events[j] == BlockStop(b))
    ensures events[i] == BlockStop(b) ==>
              && (forall j | 0 <= j < |events| && j != i :: events[j] != BlockStop(b))
              && Started(events[..i], b)
    ensures InBlock(events[i], b) ==> Started(events[..i], b) && !Stopped(events[..i], b)
  {
    ReplayAt(events, i);
    ReplaySets(events[..i], b);
    ReplaySets(events, b);
    PhaseShape(events);
    if StartsBlock(events[i], b) {
      forall j | 0 <= j < |events| && j != i ensures !StartsBlock(events[j], b) {
        StartsOnce(events, b, if i < j then i else j, if i < j then j else i);
      }
      assert Started(events, b);
      assert forall j | 0 <= j < i :: events[..i][j] == events[j];
    }
    if events[i] == BlockStop(b) {
      forall j | 0 <= j < |events| && j != i ensures events[j] != BlockStop(b) {
        StopsOnce(events, b, if i < j then i else j, if i < j then j else i);
      }
    }
  }

  lemma StartsOnce(events: seq<Event>, b: int, i: nat, j: nat)
    requires Replay(events).Some? && i < j < |events|
    ensures !(StartsBlock(events[i], b) && StartsBlock(events[j], b))
  {
    ReplayAt(events, j);
    ReplaySets(events[..j], b);
    assert events[..j][i] == events[i];
  }

  lemma StopsOnce(events: seq<Event>, b: int, i: nat, j: nat)
    requires Replay(events).Some? && i < j < |events|
    ensures !(events[i] == BlockStop(b) && events[j] == BlockStop(b))
  {
    ReplayAt(events, j);
    ReplaySets(events[..j], b);
    assert events[..j][i] == events[i];
  }

  /** The envelope: one message_start, first; one message_stop, last. */
  lemma AcceptedEnvelope(events: seq<Event>)
    requires Accepts(events)
    ensures |events| >= 3 && events[0] == MessageStart && Last(events) == MessageStop
    ensures forall i | 0 < i < |events| :: events[i] != MessageStart
    ensures forall i | 0 <= i < |events| - 1 :: events[i] != MessageStop
    ensures forall i, j | 0 <= i < j < |events| && events[i].BlockStop? && events[j].BlockStop? ::
              events[i].index < events[j].index
  {
    PhaseShape(events);
    forall i | 0 < i < |events| ensures events[i] != MessageStart {
      ReplayAt(events, i);
      PhaseShape(events[..i]);
    }
    forall i | 0 <= i < |events| - 1 ensures events[i] != MessageStop {
      assert Init(events)[i] == events[i];
    }
    ReplayAt(events, |events| - 1);
    PhaseShape(Init(events));
    forall i, j | 0 <= i < j < |events| && events[i].BlockStop? && events[j].BlockStop?
      ensures events[i].index < events[j].index
    {
      ReplayAt(events, j);
      LastStopBound(events[..j], i);
    }
  }

  lemma {:induction false} LastStopBound(events: seq<Event>, i: nat)
    requires Replay(events).Some? && i < |events| && events[i].BlockStop?
    ensures events[i].index <= Replay(events).value.lastStop
  {
    if i < |events| - 1 {
      LastStopBound(Init(events), i);
    }
  }

  // ---- the inputs that keep the discipline -------------------------------------------------

  ghost predicate HasText(ops: seq<Op>) {
    exists p | 0 <= p < |ops| :: ops[p].Text?
  }

  /** Some delta of tool k carried a name. */
  ghost predicate Names(ops: seq<Op>, k: int) {
    exists p | 0 <= p < |ops| :: NamesAt(ops[p], k)
  }

  predicate NamesAt(op: Op, k: int) {
    op.Tool? && op.delta.index == k && op.delta.name != ""
  }

  /** Position q holds the first named delta of its tool. */
  ghost predicate OpensAt(ops: seq<Op>, q: nat)
    requires q < |ops|
  {
    ops[q].Tool? && ops[q].delta.name != "" && !Names(ops[..q], ops[q].delta.index)
  }

  /** A tool opened after some text: the translator closes the text block there. */
  ghost predicate ClosesText(ops: seq<Op>) {
    exists q | 0 <= q < |ops| :: OpensAt(ops, q) && HasText(ops[..q])
  }

  /** Text, then the opening of a tool, then text again. */
  ghost predicate TextAfterClose(ops: seq<Op>) {
    exists r | 0 <= r < |ops| :: ops[r].Text? && ClosesText(ops[..r])
  }

  lemma HasTextSnoc(ops: seq<Op>, op: Op)
    ensures HasText(ops + [op]) <==> HasText(ops) || op.Text?
  {
    assert (ops + [op])[|ops|] == op;
    assert forall p | 0 <= p < |ops| :: (ops + [op])[p] == ops[p];
  }

  lemma NamesSnoc(ops: seq<Op>, op: Op, k: int)
    ensures Names(ops + [op], k) <==> Names(ops, k) || NamesAt(op, k)
  {
    assert (ops + [op])[|ops|] == op;
    assert forall p | 0 <= p < |ops| :: (ops + [op])[p] == ops[p];
  }

  lemma ClosesTextSnoc(ops: seq<Op>, op: Op)
    ensures ClosesText(ops + [op]) <==>
            ClosesText(ops) || (HasText(ops) && op.Tool? && op.delta.name != "" && !Names(ops, op.delta.index))
  {
    var longer := ops + [op];
    assert longer[..|ops|] == ops && longer[|ops|] == op;
    forall q | 0 <= q < |ops| ensures longer[..q] == ops[..q] && (OpensAt(longer, q) <==> OpensAt(ops, q)) {
      assert longer[..q] == ops[..q] && longer[q] == ops[q];
    }
    assert OpensAt(longer, |ops|) <==> op.Tool? && op.delta.name != "" && !Names(ops, op.delta.index);
  }

  lemma TextAfterCloseSnoc(ops: seq<Op>, op: Op)
    ensures TextAfterClose(ops + [op]) <==> TextAfterClose(ops) || (op.Text? && ClosesText(ops))
  {
    var longer := ops + [op];
    assert longer[..|ops|] == ops && longer[|ops|] == op;
    forall r | 0 <= r < |ops| ensures longer[..r] == ops[..r] && longer[r] == ops[r] {
    }
  }

  // ---- the translator against the client ---------------------------------------------------

  ghost predicate NameFlags(tools: map<int, ToolBlock>, ops: seq<Op>) {
    && (forall k | k in tools :: tools[k].started <==> Names(ops, k))
    && (forall k | k in tools :: tools[k].started <==> tools[k].name != "")
    && (forall k | Names(ops, k) :: k in tools)
  }

  ghost predicate ToolFlags(s: State, ops: seq<Op>) {
    Ok(s) && NameFlags(s.tools, ops)
  }

  ghost predicate Flags(s: State, ops: seq<Op>) {
    && ToolFlags(s, ops)
    && !s.stopped
    && (forall k | k in s.tools :: !s.tools[k].closed)
    && (s.textOpen <==> HasText(ops))
    && (s.textClosed <==> ClosesText(ops))
    && (!s.started ==> !s.textOpen && s.order == [])
    && (s.textClosed ==> s.textOpen)
  }

  ghost predicate ToolOpen(s: State, b: int) {
    1 <= b <= |s.order| && s.order[b - 1] in s.tools && s.tools[s.order[b - 1]].started && !s.tools[s.order[b - 1]].closed
  }

  /** The client's view matches the translator's flags. */
  ghost predicate Rel(s: State, c: Client) {
    && c.phase == (if s.started then Streaming else Idle)
    && (forall b :: b in c.open <==> (b == 0 && s.textOpen && !s.textClosed) || ToolOpen(s, b))
    && (forall b :: b in c.closed <==> b == 0 && s.textClosed)
    && c.lastStop == (if s.textClosed then 0 else -1)
  }

  ghost predicate Tracked(s: State) {
    Replay(s.events).Some? && Rel(s, Replay(s.events).value)
  }

  lemma StartTracked(s: State)
    requires Tracked(s) && Ok(s) && (!s.started ==> !s.textOpen && s.order == [] && !s.textClosed)
    ensures Tracked(EnsureStart(s))
  {
    ReplaySnoc(s.events, MessageStart);
  }

  lemma OpenTextTracked(s: State)
    requires Tracked(s) && s.started && (s.textClosed ==> s.textOpen)
    ensures Tracked(EnsureText(s))
  {
    ReplaySnoc(s.events, TextStart);
  }

  lemma CloseTextTracked(s: State)
    requires Tracked(s) && s.started
    ensures Tracked(CloseText(s))
  {
    ReplaySnoc(s.events, BlockStop(0));
  }

  // ---- one operation -----------------------------------------------------------------------

  lemma EnteredOk(s: State, d: ToolDelta)
    requires Ok(s)
    ensures Ok(Entered(s, d))
  {
    AllocateOk(s, d.index);
    var a := Allocate(s, d.index);
    PutOk(a.tools, a.nextBlockIdx, a.order, d.index, Named(a.tools[d.index], d.id, d.name));
  }

  lemma EnteredTracked(s: State, d: ToolDelta)
    requires Ok(s) && Tracked(s) && s.started
    ensures Tracked(Entered(s, d))
  {
    EnteredOpened(s, d);
    forall b ensures ToolOpen(s, b) <==> ToolOpen(Entered(s, d), b) {
      OpenKept(s, d, b);
    }
    hide Entered, ToolOpen;
  }

  lemma OpenKept(s: State, d: ToolDelta, b: int)
    ensures ToolOpen(s, b) <==> ToolOpen(Entered(s, d), b)
  {
    hide Entered, EnsureTool;
    EnteredOpened(s, d);
    EntryEntered(s, d);
    if 1 <= b <= |s.order| {
      assert Entered(s, d).order[b - 1] == s.order[b - 1];
    } else if b == |s.order| + 1 && d.index !in s.tools {
      assert Entered(s, d).order[b - 1] == d.index;
    }
  }

  lemma OpenToolTracked(s: State, k: int)
    requires Ok(s) && Tracked(s) && s.started
    requires k in s.tools && !s.tools[k].closed
    ensures Tracked(OpenTool(s, k))
  {
    var tb := s.tools[k];
    if !tb.started && tb.name != "" {
      CloseTextTracked(s);
      var c := CloseText(s);
      ReplaySnoc(c.events, ToolStart(tb.anthropicIdx, tb.id, tb.name));
      forall b ensures ToolOpen(OpenTool(s, k), b) <==> ToolOpen(s, b) || b == tb.anthropicIdx {
        OpenedOne(s, k, b);
      }
      OpenedOne(s, k, tb.anthropicIdx);
      forall b ensures ToolOpen(c, b) <==> ToolOpen(s, b) {
      }
      hide ToolOpen, Consistent;
    }
  }

  lemma OpenedOne(s: State, k: int, b: int)
    requires Ok(s) && k in s.tools && !s.tools[k].closed && !s.tools[k].started && s.tools[k].name != ""
    ensures ToolOpen(OpenTool(s, k), b) <==> ToolOpen(s, b) || b == s.tools[k].anthropicIdx
    ensures s.tools[k].anthropicIdx >= 1 && !ToolOpen(s, s.tools[k].anthropicIdx)
  {
    OpenToolShape(s, k);
    hide OpenTool;
    if 1 <= b <= |s.order| {
      assert s.tools[s.order[b - 1]].anthropicIdx == b;
    }
  }

  lemma JsonTracked(s: State, k: int, json: string)
    requires Ok(s) && Tracked(s) && s.started
    requires k in s.tools && s.tools[k].started && !s.tools[k].closed
    ensures Tracked(Emit(s, JsonDelta(s.tools[k].anthropicIdx, json)))
  {
    assert ToolOpen(s, s.tools[k].anthropicIdx);
    ReplaySnoc(s.events, JsonDelta(s.tools[k].anthropicIdx, json));
  }

  lemma ToolTracked(s: State, d: ToolDelta)
    requires Ok(s) && Tracked(s) && (!s.started ==> !s.textOpen && s.order == [] && !s.textClosed)
    requires forall k | k in s.tools :: !s.tools[k].closed
    ensures Tracked(StepTool(s, d))
  {
    StartTracked(s);
    var a := EnsureStart(s);
    EnteredTracked(a, d);
    EnteredOk(a, d);
    OpenToolTracked(Entered(a, d), d.index);
    EnsureToolOk(a, d.index, d.id, d.name);
    var t := EnsureTool(a, d.index, d.id, d.name);
    assert t == OpenTool(Entered(a, d), d.index);
    if d.arguments != "" && t.tools[d.index].started {
      JsonTracked(t, d.index, d.arguments);
    }
  }

  lemma ToolFlagsStep(s: State, ops: seq<Op>, d: ToolDelta)
    requires ToolFlags(s, ops)
    ensures ToolFlags(StepTool(s, d), ops + [Tool(d)])
  {
    hide EnsureTool, NameFlags, Consistent;
    var a := EnsureStart(s);
    var t := EnsureTool(a, d.index, d.id, d.name);
    EnsureFlags(a, ops, d, t);
    var u := StepTool(s, d);
    assert u.tools == t.tools && u.order == t.order && u.nextBlockIdx == t.nextBlockIdx;
  }

  lemma EnsureFlags(s: State, ops: seq<Op>, d: ToolDelta, t: State)
    requires ToolFlags(s, ops) && t == EnsureTool(s, d.index, d.id, d.name)
    ensures ToolFlags(t, ops + [Tool(d)])
  {
    EnsureToolOk(s, d.index, d.id, d.name);
    var entry := EntryOf(s, d.index);
    var name := if entry.name == "" then d.name else entry.name;
    EnteredShape(s, d, t, name);
    NameFlagsPut(s.tools, t.tools, ops, d, entry, name);
  }

  lemma NameFlagsPut(before: map<int, ToolBlock>, after: map<int, ToolBlock>, ops: seq<Op>, d: ToolDelta,
                     entry: ToolBlock, name: string)
    requires NameFlags(before, ops)
    requires if d.index in before then entry == before[d.index] else !entry.started && entry.name == ""
    requires name == if entry.name == "" then d.name else entry.name
    requires after.Keys == before.Keys + {d.index}
    requires forall k | k in before && k != d.index :: after[k] == before[k]
    requires after[d.index].name == name && after[d.index].started == (entry.started || name != "")
    ensures NameFlags(after, ops + [Tool(d)])
  {
    forall k ensures Names(ops + [Tool(d)], k) <==> Names(ops, k) || NamesAt(Tool(d), k) {
      NamesSnoc(ops, Tool(d), k);
    }
  }

  /** The tool's entry as ensureToolBlock finds or creates it. */
  function EntryOf(s: State, k: int): ToolBlock {
    if k in s.tools then s.tools[k] else ToolBlock(s.nextBlockIdx, "", "", false, false)
  }

  /** What ensureToolBlock does to the tool's entry and to the text block. */
  lemma EnteredShape(s: State, d: ToolDelta, t: State, name: string)
    requires t == EnsureTool(s, d.index, d.id, d.name)
    requires name == if EntryOf(s, d.index).name == "" then d.name else EntryOf(s, d.index).name
    ensures t.tools.Keys == s.tools.Keys + {d.index}
    ensures forall k | k in s.tools && k != d.index :: t.tools[k] == s.tools[k]
    ensures t.tools[d.index].name == name && t.tools[d.index].closed == EntryOf(s, d.index).closed
    ensures t.tools[d.index].started == (EntryOf(s, d.index).started || name != "")
    ensures t.textOpen == s.textOpen && t.started == s.started && t.stopped == s.stopped
    ensures t.textClosed == (s.textClosed || (!EntryOf(s, d.index).started && name != "" && s.textOpen))
  {
    hide EnsureTool, OpenTool, Entered;
    EnteredOpened(s, d);
    EntryEntered(s, d);
    OpenToolShape(Entered(s, d), d.index);
  }

  lemma EntryEntered(s: State, d: ToolDelta)
    ensures Entered(s, d).tools.Keys == s.tools.Keys + {d.index}
    ensures forall k | k in s.tools && k != d.index :: Entered(s, d).tools[k] == s.tools[k]
    ensures Entered(s, d).tools[d.index] == Named(EntryOf(s, d.index), d.id, d.name)
  {
  }

  /** The shape of ensureToolBlock's result carries over to the whole step. */
  lemma StepToolShape(s: State, d: ToolDelta, u: State)
    requires u == StepTool(s, d)
    ensures u.tools.Keys == s.tools.Keys + {d.index}
    ensures forall k | k in s.tools && k != d.index :: u.tools[k] == s.tools[k]
    ensures u.tools[d.index].closed == EntryOf(s, d.index).closed
    ensures u.started && u.stopped == s.stopped && u.textOpen == s.textOpen
    ensures u.textClosed == (s.textClosed || (!EntryOf(s, d.index).started && s.textOpen &&
                                              (EntryOf(s, d.index).name != "" || d.name != "")))
  {
    hide EnsureTool;
    var a := EnsureStart(s);
    var entry := EntryOf(a, d.index);
    var t := EnsureTool(a, d.index, d.id, d.name);
    EnteredShape(a, d, t, if entry.name == "" then d.name else entry.name);
    assert u == t.(events := u.events);
  }

  lemma FlagsAfterTool(s: State, ops: seq<Op>, d: ToolDelta, u: State)
    requires Flags(s, ops) && ToolFlags(u, ops + [Tool(d)])
    requires u.tools.Keys == s.tools.Keys + {d.index}
    requires forall k | k in s.tools && k != d.index :: u.tools[k] == s.tools[k]
    requires !u.tools[d.index].closed
    requires u.started && !u.stopped && u.textOpen == s.textOpen
    requires u.textClosed == (s.textClosed || (!Names(ops, d.index) && s.textOpen && d.name != ""))
    ensures Flags(u, ops + [Tool(d)])
  {
    HasTextSnoc(ops, Tool(d));
    ClosesTextSnoc(ops, Tool(d));
  }

  lemma ToolFlagsAll(s: State, ops: seq<Op>, d: ToolDelta)
    requires Flags(s, ops)
    ensures Flags(StepTool(s, d), ops + [Tool(d)])
  {
    ToolFlagsStep(s, ops, d);
    StepToolShape(s, d, StepTool(s, d));
    assert EntryOf(s, d.index).started <==> Names(ops, d.index);
    FlagsAfterTool(s, ops, d, StepTool(s, d));
  }

  lemma OtherFlags(s: State, ops: seq<Op>, op: Op, t: State)
    requires ToolFlags(s, ops) && !op.Tool?
    requires t.tools == s.tools && t.order == s.order && t.nextBlockIdx == s.nextBlockIdx
    ensures ToolFlags(t, ops + [op])
  {
    forall k ensures Names(ops + [op], k) <==> Names(ops, k) {
      NamesSnoc(ops, op, k);
    }
  }

  lemma TextFlags(s: State, ops: seq<Op>, text: string)
    requires Flags(s, ops)
    ensures Flags(StepText(s, text), ops + [Text(text)])
  {
    OtherFlags(s, ops, Text(text), StepText(s, text));
    HasTextSnoc(ops, Text(text));
    ClosesTextSnoc(ops, Text(text));
  }

  lemma PlainFlags(s: State, ops: seq<Op>, op: Op)
    requires Flags(s, ops) && (op.Meter? || op.Finish?)
    ensures Flags(Step(s, op), ops + [op])
  {
    OtherFlags(s, ops, op, Step(s, op));
    HasTextSnoc(ops, op);
    ClosesTextSnoc(ops, op);
  }

  lemma {:induction false} RunFlags(ops: seq<Op>)
    requires NoDone(ops)
    ensures Flags(Run(FRESH, ops), ops)
  {
    if ops != [] {
      var pre, op := Init(ops), Last(ops);
      RunFlags(pre);
      InitLast(ops);
      assert ops[|pre|] == op;
      match op
      case Text(text) => TextFlags(Run(FRESH, pre), pre, text);
      case Tool(d) => ToolFlagsAll(Run(FRESH, pre), pre, d);
      case _ => PlainFlags(Run(FRESH, pre), pre, op);
    }
  }

  /** A text delta is accepted exactly while the text block is not closed. */
  lemma TextTracked(s: State, text: string)
    requires Tracked(s) && Ok(s) && (!s.started ==> !s.textOpen && s.order == [])
    requires s.textClosed ==> s.textOpen
    ensures if s.textClosed then Replay(StepText(s, text).events).None? else Tracked(StepText(s, text))
  {
    hide Replay, Consistent;
    StartTracked(s);
    OpenTextTracked(EnsureStart(s));
    ReplaySnoc(EnsureText(EnsureStart(s)).events, TextDelta(text));
  }

  lemma EventsGrow(s: State, op: Op)
    ensures s.events <= Step(s, op).events
  {
    hide StepTool, Finalize;
    match op
    case Tool(d) => StepToolKeeps(s, d);
    case Done => FinalizeGrow(s);
    case _ =>
  }

  lemma FinalizeGrow(s: State)
    ensures s.events <= Finalize(s).events
  {
    CloseToolsGrow(Closing(s), Closing(s).order);
    assert s.events <= Closing(s).events;
    assert Sealed(s) == CloseTools(Closing(s), Closing(s).order);
  }

  /** A finalizing state whose tools are still to be closed. */
  function Closing(s: State): State {
    var a := EnsureStart(s);
    var b := if !a.textOpen && |a.tools| == 0 then EnsureText(a) else a;
    CloseText(b.(stopped := true))
  }

  lemma {:induction false} CloseToolsGrow(s: State, ks: seq<int>)
    ensures s.events <= CloseTools(s, ks).events
  {
    if ks != [] {
      CloseToolsGrow(s, Init(ks));
    }
  }

  lemma {:induction false} RunTracked(ops: seq<Op>)
    requires NoDone(ops)
    ensures if TextAfterClose(ops) then Replay(Run(FRESH, ops).events).None? else Tracked(Run(FRESH, ops))
  {
    if ops != [] {
      var pre, op := Init(ops), Last(ops);
      RunFlags(pre);
      RunTracked(pre);
      InitLast(ops);
      assert ops[|pre|] == op;
      TextAfterCloseSnoc(pre, op);
      StepTracked(pre, op);
    }
  }

  lemma StepTracked(pre: seq<Op>, op: Op)
    requires op != Done && Flags(Run(FRESH, pre), pre)
    requires if TextAfterClose(pre) then Replay(Run(FRESH, pre).events).None? else Tracked(Run(FRESH, pre))
    ensures var t := Step(Run(FRESH, pre), op);
            if TextAfterClose(pre) || (op.Text? && ClosesText(pre)) then Replay(t.events).None? else Tracked(t)
  {
    var s := Run(FRESH, pre);
    if TextAfterClose(pre) {
      EventsGrow(s, op);
      ReplayNone(s.events, Step(s, op).events);
    } else {
      match op
      case Text(text) => TextTracked(s, text);
      case Tool(d) => ToolTracked(s, d);
      case _ =>
    }
  }

  // ---- finalizing --------------------------------------------------------------------------

  /** The tools 1, …, m are closed, the others as they were. */
  ghost predicate ClosedUpTo(s: State, m: int) {
    && Ok(s) && s.started
    && 0 <= m <= |s.order|
    && (forall i | 0 <= i < |s.order| && s.tools[s.order[i]].closed :: i < m)
    && (forall i | 0 <= i < m :: s.tools[s.order[i]].started ==> s.tools[s.order[i]].closed)
  }

  /** The client while the tools are being closed. */
  ghost predicate ClosingAt(s: State, m: int) {
    && Replay(s.events).Some?
    && var c := Replay(s.events).value;
       && c.phase == Streaming
       && (forall b :: b in c.open <==> ToolOpen(s, b))
       && c.lastStop <= m
  }

  lemma CloseNext(s: State, m: nat)
    requires ClosedUpTo(s, m) && ClosingAt(s, m) && m < |s.order|
    ensures ClosedUpTo(CloseTool(s, s.order[m]), m + 1) && ClosingAt(CloseTool(s, s.order[m]), m + 1)
  {
    var k := s.order[m];
    CloseShape(s, m);
    CloseNextTable(s, m);
    if s.tools[k].started {
      ReplaySnoc(s.events, BlockStop(m + 1));
      forall b ensures ToolOpen(CloseTool(s, k), b) <==> ToolOpen(s, b) && b != m + 1 {
        ClosedOne(s, m, b);
      }
      ClosedOne(s, m, m + 1);
    }
    hide CloseTool, ToolOpen, ClosedUpTo;
  }

  /** Closing the tool in place m: its entry, its event, and nothing else. */
  lemma CloseShape(s: State, m: nat)
    requires ClosedUpTo(s, m) && m < |s.order|
    ensures var k, t := s.order[m], CloseTool(s, s.order[m]);
            && k in s.tools && !s.tools[k].closed && s.tools[k].anthropicIdx == m + 1
            && t == s.(tools := t.tools, events := t.events)
            && t.tools == s.tools[k := s.tools[k].(closed := s.tools[k].started)]
            && t.events == if s.tools[k].started then s.events + [BlockStop(m + 1)] else s.events
  {
    var k := s.order[m];
    assert s.tools[k := s.tools[k]] == s.tools;
  }

  lemma CloseNextTable(s: State, m: nat)
    requires ClosedUpTo(s, m) && m < |s.order|
    ensures ClosedUpTo(CloseTool(s, s.order[m]), m + 1)
  {
    var k := s.order[m];
    CloseShape(s, m);
    PutOk(s.tools, s.nextBlockIdx, s.order, k, s.tools[k].(closed := s.tools[k].started));
    var t := CloseTool(s, k);
    forall i | 0 <= i < |s.order| && i != m ensures t.tools[t.order[i]] == s.tools[s.order[i]] {
      assert s.tools[s.order[i]].anthropicIdx == i + 1;
    }
    hide CloseTool;
  }

  lemma ClosedOne(s: State, m: nat, b: int)
    requires ClosedUpTo(s, m) && m < |s.order| && s.tools[s.order[m]].started
    ensures ToolOpen(CloseTool(s, s.order[m]), b) <==> ToolOpen(s, b) && b != m + 1
    ensures ToolOpen(s, m + 1)
  {
    CloseShape(s, m);
    hide CloseTool;
    if 1 <= b <= |s.order| {
      assert s.tools[s.order[b - 1]].anthropicIdx == b;
    }
  }

  lemma {:induction false} CloseAll(s: State, m: nat)
    requires ClosedUpTo(s, 0) && ClosingAt(s, 0) && m <= |s.order|
    ensures CloseTools(s, s.order[..m]).order == s.order
    ensures ClosedUpTo(CloseTools(s, s.order[..m]), m) && ClosingAt(CloseTools(s, s.order[..m]), m)
  {
    if m > 0 {
      CloseAll(s, m - 1);
      assert Init(s.order[..m]) == s.order[..m - 1];
      CloseNext(CloseTools(s, s.order[..m - 1]), m - 1);
    }
  }

  lemma ClosingReady(s: State)
    requires Ok(s) && Tracked(s) && !s.stopped
    requires forall k | k in s.tools :: !s.tools[k].closed
    requires (!s.started ==> !s.textOpen && s.order == []) && (s.textClosed ==> s.textOpen)
    ensures ClosedUpTo(Closing(s), 0) && ClosingAt(Closing(s), 0)
  {
    StartTracked(s);
    var a := EnsureStart(s);
    OpenTextTracked(a);
    var b := if !a.textOpen && |a.tools| == 0 then EnsureText(a) else a;
    var b' := b.(stopped := true);
    assert Tracked(b') by {
      assert forall x :: ToolOpen(b', x) <==> ToolOpen(b, x);
    }
    CloseTextTracked(b');
    var c := CloseText(b');
    assert forall x :: ToolOpen(c, x) <==> ToolOpen(b, x);
    assert c.tools == s.tools && c.order == s.order && c.nextBlockIdx == s.nextBlockIdx;
    forall i | 0 <= i < |c.order| ensures !c.tools[c.order[i]].closed {
      var k := s.order[i];
      assert k in s.tools && !s.tools[k].closed;
    }
  }

  lemma AllClosed(d: State)
    requires ClosedUpTo(d, |d.order|) && ClosingAt(d, |d.order|)
    ensures Replay(d.events).Some? && Replay(d.events).value.phase == Streaming && Replay(d.events).value.open == {}
  {
    forall b ensures !ToolOpen(d, b) {
      assert 1 <= b <= |d.order| ==> d.tools[d.order[b - 1]].started ==> d.tools[d.order[b - 1]].closed;
    }
    NonEmpty(Replay(d.events).value.open);
  }

  lemma Terminated(events: seq<Event>, stop: string, toks: int)
    requires Replay(events).Some? && Replay(events).value.phase == Streaming && Replay(events).value.open == {}
    ensures Accepts(events + [MessageDelta(stop, toks)] + [MessageStop])
  {
    ReplaySnoc(events, MessageDelta(stop, toks));
    ReplaySnoc(events + [MessageDelta(stop, toks)], MessageStop);
  }

  /** A tracked stream is completed to one the client accepts. */
  lemma FinalizeAccepted(s: State)
    requires Ok(s) && Tracked(s) && !s.stopped
    requires forall k | k in s.tools :: !s.tools[k].closed
    requires (!s.started ==> !s.textOpen && s.order == []) && (s.textClosed ==> s.textOpen)
    ensures Accepts(Finalize(s).events)
  {
    ClosingReady(s);
    var c := Closing(s);
    CloseAll(c, |c.order|);
    assert c.order[..|c.order|] == c.order;
    var d := CloseTools(c, c.order);
    AllClosed(d);
    Terminated(d.events, MapStopReason(d.finish), d.outputToks);
    assert Sealed(s) == d;
  }

  // ---- the theorem -------------------------------------------------------------------------

  /** A stream with its only [DONE] at the end keeps the discipline exactly when no text arrives
      after a tool opening closed the text block. */
  lemma DisciplineIff(ops: seq<Op>)
    requires NoDone(ops)
    ensures Accepts(Session(ops + [Done]).events) <==> !TextAfterClose(ops)
  {
    RunFlags(ops);
    RunTracked(ops);
    SessionDone(ops);
    var s := Run(FRESH, ops);
    if TextAfterClose(ops) {
      FinalizeGrow(s);
      ReplayNone(s.events, Finalize(s).events);
    } else {
      FinalizeAccepted(s);
    }
  }

  /** Text, a named tool, text again: the last delta goes to a block that was stopped. */
  lemma TextAfterTool()
    ensures !Accepts(Session([Text("a"), Tool(ToolDelta(0, "", "f", "")), Text("b"), Done]).events)
  {
    var d := Tool(ToolDelta(0, "", "f", ""));
    var ops := [Text("a"), d, Text("b")];
    assert ops[..2] == [Text("a"), d] && ops[..2][..1] == [Text("a")] && ops[..2][0].Text?;
    assert OpensAt(ops[..2], 1) && HasText(ops[..2][..1]) by {
      assert ops[..2][..1][0].Text?;
    }
    assert ClosesText(ops[..2]) && ops[2].Text?;
    assert ops + [Done] == [Text("a"), d, Text("b"), Done];
    DisciplineIff(ops);
  }

  /** After [DONE] nothing may be emitted: no text, no opening of a tool, no arguments for an open one. */
  ghost predicate QuietAt(ops: seq<Op>, q: nat)
    requires q < |ops|
  {
    match ops[q]
    case Text(_) => false
    case Tool(d) =>
      var known := Names(ops[..q], d.index);
      !(d.name != "" && !known) && !(d.arguments != "" && (d.name != "" || known))
    case _ => true
  }

  ghost predicate Quiet(ops: seq<Op>, from: nat) {
    forall q | from <= q < |ops| :: QuietAt(ops, q)
  }

  lemma ToolFlagsDone(s: State, ops: seq<Op>)
    requires ToolFlags(s, ops)
    ensures ToolFlags(Finalize(s), ops + [Done])
  {
    forall k ensures Names(ops + [Done], k) <==> Names(ops, k) {
      NamesSnoc(ops, Done, k);
    }
    FinalizeOk(s);
    CloseToolsNames(Closing(s), Closing(s).order);
    assert Sealed(s) == CloseTools(Closing(s), Closing(s).order);
  }

  lemma {:induction false} CloseToolsNames(s: State, ks: seq<int>)
    ensures CloseTools(s, ks).tools.Keys == s.tools.Keys
    ensures forall k | k in s.tools :: CloseTools(s, ks).tools[k].started == s.tools[k].started
                                    && CloseTools(s, ks).tools[k].name == s.tools[k].name
  {
    if ks != [] {
      CloseToolsNames(s, Init(ks));
    }
  }

  lemma ToolFlagsAny(s: State, ops: seq<Op>, op: Op)
    requires ToolFlags(s, ops)
    ensures ToolFlags(Step(s, op), ops + [op])
  {
    hide ToolFlags, StepTool, Finalize;
    match op
    case Tool(d) => ToolFlagsStep(s, ops, d);
    case Done => ToolFlagsDone(s, ops);
    case _ => OtherFlags(s, ops, op, Step(s, op));
  }

  lemma {:induction false} RunToolFlags(ops: seq<Op>)
    ensures ToolFlags(Run(FRESH, ops), ops)
  {
    if ops != [] {
      RunToolFlags(Init(ops));
      InitLast(ops);
      ToolFlagsAny(Run(FRESH, Init(ops)), Init(ops), Last(ops));
    }
  }

  /** A stopped translator emits nothing on an operation exactly when the operation is quiet. */
  lemma QuietStep(s: State, ops: seq<Op>, op: Op)
    requires ToolFlags(s, ops) && s.started && s.stopped
    ensures QuietAt(ops + [op], |ops|) <==> Step(s, op).events == s.events
    ensures Step(s, op).started && Step(s, op).stopped
  {
    assert (ops + [op])[..|ops|] == ops;
    match op
    case Tool(d) => QuietTool(s, ops, d);
    case _ =>
  }

  lemma QuietTool(s: State, ops: seq<Op>, d: ToolDelta)
    requires ToolFlags(s, ops) && s.started && s.stopped
    ensures StepTool(s, d).events == s.events <==>
            !(d.name != "" && !Names(ops, d.index)) && !(d.arguments != "" && (d.name != "" || Names(ops, d.index)))
    ensures StepTool(s, d).started && StepTool(s, d).stopped
  {
    hide Entered, EnsureTool, Consistent, Names;
    StepToolKeeps(s, d);
    var entry := EntryOf(s, d.index);
    assert entry.started <==> Names(ops, d.index);
    assert entry.started <==> entry.name != "";
    var e := Entered(s, d);
    var t := EnsureTool(s, d.index, d.id, d.name);
    EnteredOpened(s, d);
    EntryEntered(s, d);
    if !entry.started && d.name != "" {
      assert |t.events| > |s.events|;
    } else {
      assert t.events == s.events && t.tools[d.index].started == entry.started;
    }
  }

  lemma {:induction false} AfterDone(pre: seq<Op>, post: seq<Op>)
    requires NoDone(pre)
    ensures var s := Run(FRESH, pre + [Done]);
            var t := Run(FRESH, pre + [Done] + post);
            && t.started && t.stopped && s.events <= t.events
            && (Quiet(pre + [Done] + post, |pre| + 1) <==> t.events == s.events)
  {
    var head := pre + [Done];
    if post == [] {
      assert head + post == head;
      RunSnoc(FRESH, pre, Done);
      NotStopped(pre);
      FinalizeStops(Run(FRESH, pre));
      FinalizeStarts(Run(FRESH, pre));
    } else {
      var front, op := Init(post), Last(post);
      AfterDone(pre, front);
      var ops := head + front;
      assert head + post == ops + [op];
      RunSnoc(FRESH, ops, op);
      RunToolFlags(ops);
      QuietStep(Run(FRESH, ops), ops, op);
      EventsGrow(Run(FRESH, ops), op);
      QuietSnoc(ops, op, |pre| + 1);
    }
  }

  lemma QuietSnoc(ops: seq<Op>, op: Op, from: nat)
    requires from <= |ops|
    ensures Quiet(ops + [op], from) <==> Quiet(ops, from) && QuietAt(ops + [op], |ops|)
  {
    forall q | from <= q < |ops| ensures QuietAt(ops + [op], q) <==> QuietAt(ops, q) {
      assert (ops + [op])[..q] == ops[..q];
    }
  }

  lemma FinalizeStarts(s: State)
    requires !s.stopped
    ensures Finalize(s).started
  {
    CloseToolsKeeps(Closing(s), Closing(s).order);
    assert Sealed(s) == CloseTools(Closing(s), Closing(s).order);
  }

  /** Any stream that contains [DONE]: the client accepts it exactly when no text follows a close
      before the first [DONE] and everything after it is quiet. */
  lemma DisciplineExact(pre: seq<Op>, post: seq<Op>)
    requires NoDone(pre)
    ensures Accepts(Session(pre + [Done] + post).events)
       <==> !TextAfterClose(pre) && Quiet(pre + [Done] + post, |pre| + 1)
  {
    AfterDone(pre, []);
    AfterDone(pre, post);
    assert pre + [Done] + [] == pre + [Done];
    DisciplineIff(pre);
    var s, t := Run(FRESH, pre + [Done]), Run(FRESH, pre + [Done] + post);
    if s.events != t.events {
      if Accepts(s.events) {
        NothingAfterFinished(s.events, t.events);
      } else {
        NotAccepted(s, t, pre);
      }
    }
  }

  lemma NotAccepted(s: State, t: State, pre: seq<Op>)
    requires NoDone(pre) && s == Run(FRESH, pre + [Done]) && s.events <= t.events
    requires !Accepts(s.events)
    ensures !Accepts(t.events)
  {
    RunSnoc(FRESH, pre, Done);
    SessionDone(pre);
    DisciplineIff(pre);
    RunTracked(pre);
    FinalizeGrow(Run(FRESH, pre));
    ReplayNone(Run(FRESH, pre).events, t.events);
  }

  // ---- block indices -----------------------------------------------------------------------

  /** The tool indices by first appearance. */
  function FirstSeen(ops: seq<Op>): seq<int> {
    if ops == [] then []
    else
      var earlier := FirstSeen(Init(ops));
      if Last(ops).Tool? && Last(ops).delta.index !in earlier then earlier + [Last(ops).delta.index] else earlier
  }

  /** Tool blocks are numbered 1, 2, … in the order the OpenAI tool indices first appear. */
  lemma {:induction false} BlockNumbers(ops: seq<Op>)
    ensures var s := Run(FRESH, ops);
            && s.tools.Keys == (set k | k in FirstSeen(ops))
            && (forall i | 0 <= i < |FirstSeen(ops)| ::
                  FirstSeen(ops)[i] in s.tools && s.tools[FirstSeen(ops)[i]].anthropicIdx == i + 1)
  {
    OrderIsFirstSeen(ops);
    RunOk(FRESH, ops);
    var s := Run(FRESH, ops);
    forall k ensures k in s.tools <==> k in FirstSeen(ops) {
      if k in s.tools {
        assert s.order[s.tools[k].anthropicIdx - 1] == k;
      }
    }
  }

  lemma {:induction false} OrderIsFirstSeen(ops: seq<Op>)
    ensures Run(FRESH, ops).order == FirstSeen(ops)
  {
    hide Step;
    if ops != [] {
      var pre := Init(ops);
      OrderIsFirstSeen(pre);
      RunOk(FRESH, pre);
      StepOrder(Run(FRESH, pre), Last(ops));
    }
  }

  lemma StepOrder(s: State, op: Op)
    requires Ok(s)
    ensures Step(s, op).order == if op.Tool? && op.delta.index !in s.order then s.order + [op.delta.index] else s.order
  {
    hide StepTool, Finalize;
    match op
    case Tool(d) =>
      InOrder(s, d.index);
      StepToolKeeps(s, d);
    case Done => FinalizeOrder(s);
    case _ =>
  }

  lemma InOrder(s: State, k: int)
    requires Ok(s)
    ensures k in s.tools <==> k in s.order
  {
    if k in s.tools {
      assert s.order[s.tools[k].anthropicIdx - 1] == k;
    }
  }

  lemma FinalizeOrder(s: State)
    ensures Finalize(s).order == s.order
  {
    CloseToolsKeeps(Closing(s), Closing(s).order);
    assert Sealed(s) == CloseTools(Closing(s), Closing(s).order);
  }
}
