/** Which messages the compression pipeline drops: exactly those that repeat their predecessor once a
    mode has edited both, seen from the messages the caller sent. */
module Duplicates {
  import opened Seqs
  import opened GoStrings
  import opened Chat
  import opened CodeBlocks
  import opened Lite
  import opened Caveman
  import opened Aggressive
  import opened Pipeline

  // ---- a message at the time repeats are looked for ------------------------------------------------

  /** The edits that come before the drop, and whether it comes at all. */
  datatype Plan = Plan(ages: bool, caveman: bool, lite: bool)

  function PlanOf(msgs: seq<Message>, mode: Mode, o: Options, e: Engines): Plan {
    match mode
    case ModeLite => Plan(false, false, true)
    case ModeAggressive =>
      var steps := Steps(msgs, o, e);
      if SavesEnough(Tokens(msgs), Tokens(steps)) then Plan(true, false, false)
      else Plan(true, Fallen(steps, o, e) != steps, LitePays(Fallen(steps, o, e), o, e))
    case _ => Plan(false, false, false)
  }

  /** What has become of a message that far from the end. */
  function Settled(m: Message, dist: int, plan: Plan, o: Options, e: Engines): Message {
    var aged := if plan.ages then SummarizedMessage(AgeMessage(RtkMessage(m, e), dist, o, e), o, e) else m;
    var terse := if plan.caveman then CavemanMessage(aged, o, e) else aged;
    CompressTool(Collapse(terse, o))
  }

  function SettledText(msgs: seq<Message>, i: nat, plan: Plan, o: Options, e: Engines): string
    requires i < |msgs|
  {
    var m := Settled(msgs[i], |msgs| - 1 - i, plan, o, e);
    if m.Message? then ExtractText(m.content) else ""
  }

  /** Message i is dropped: the plan comes to the drop, the message is not protected, the one before it
      has its role, and the two have settled to one and the same text. */
  predicate Falls(msgs: seq<Message>, i: nat, mode: Mode, o: Options, e: Engines)
    requires i < |msgs|
  {
    var plan := PlanOf(msgs, mode, o, e);
    && plan.lite && i > 0
    && msgs[i].Message? && msgs[i - 1].Message? && msgs[i].role == msgs[i - 1].role
    && !Protected(msgs[i], o)
    && SettledText(msgs, i, plan, o, e) == SettledText(msgs, i - 1, plan, o, e) != ""
  }

  lemma FallenIs(steps: seq<Message>, o: Options, e: Engines)
    ensures Fallen(steps, o, e) == steps || Fallen(steps, o, e) == Each(steps, CavemanMap(o, e))
  {
    hide Each, CavemanMap, Tokens;
  }

  lemma TooledAt(msgs: seq<Message>, o: Options, sees: string -> bool, i: nat)
    requires o.preserve && i < |msgs|
    ensures |Passes(msgs, o, sees).tooled| == |msgs|
    ensures Passes(msgs, o, sees).tooled[i] == CompressTool(Collapse(msgs[i], o))
  {
    hide Collapse, CompressTool, DropRepeats, WithoutImages, Vision, Dedup;
  }

  lemma StepsAt(msgs: seq<Message>, o: Options, e: Engines, i: nat)
    requires i < |msgs|
    ensures |Steps(msgs, o, e)| == |msgs|
    ensures Steps(msgs, o, e)[i]
         == SummarizedMessage(AgeMessage(RtkMessage(msgs[i], e), |msgs| - 1 - i, o, e), o, e)
  {
    hide SummarizedMessage, AgeMessage, RtkMessage;
  }

  /** The stage is the plan, message by message. */
  lemma StageSettles(msgs: seq<Message>, mode: Mode, o: Options, e: Engines, i: nat)
    requires o.preserve && i < |msgs|
    ensures var st, plan := StageOf(msgs, mode, o, e), PlanOf(msgs, mode, o, e);
            && (st.drops <==> plan.lite)
            && (st.drops ==> |st.edited| == |msgs| && st.edited[i] == Settled(msgs[i], |msgs| - 1 - i, plan, o, e))
  {
    hide Each, Tokens, Steps, Passes, LitePays, Fallen, SavesEnough,
         Collapse, CompressTool, SummarizedMessage, AgeMessage, RtkMessage, CavemanMessage;
    match mode {
      case ModeLite => TooledAt(msgs, o, e.sees, i);
      case ModeAggressive =>
        var steps := Steps(msgs, o, e);
        StepsAt(msgs, o, e, i);
        FallenIs(steps, o, e);
        FallenAt(steps, o, e, i);
        TooledAt(Fallen(steps, o, e), o, e.sees, i);
      case _ =>
    }
  }

  lemma FallenAt(steps: seq<Message>, o: Options, e: Engines, i: nat)
    requires i < |steps|
    ensures |Fallen(steps, o, e)| == |steps|
    ensures Fallen(steps, o, e)[i] == if Fallen(steps, o, e) != steps then CavemanMessage(steps[i], o, e) else steps[i]
  {
    hide CavemanMessage, Tokens, Fallen;
    FallenIs(steps, o, e);
  }

  /** The drop of the stage, in terms of the messages the caller sent. */
  lemma DropIff(msgs: seq<Message>, mode: Mode, o: Options, e: Engines, i: nat)
    requires o.preserve && i < |msgs|
    ensures var st := StageOf(msgs, mode, o, e);
            |st.edited| == |msgs| && (st.drops && Repeats(st.edited, i, o) <==> Falls(msgs, i, mode, o, e))
  {
    hide StageOf, PlanOf, Settled, ExtractText;
    var st := StageOf(msgs, mode, o, e);
    StageEdits(msgs, mode, o, e);
    EditedLength(msgs, st.edited, o);
    StageSettles(msgs, mode, o, e, i);
    EditedOne(msgs, st.edited, o, i);
    if i > 0 {
      StageSettles(msgs, mode, o, e, i - 1);
      EditedOne(msgs, st.edited, o, i - 1);
    }
  }

  lemma EditedOne(a: seq<Message>, b: seq<Message>, o: Options, i: nat)
    requires Edited(a, b, o) && i < |a|
    ensures |b| == |a| && EditOf(a[i], b[i], o)
  {
  }

  // ---- what the caller sees --------------------------------------------------------------------------

  /** Each message can be told by the fields no mode edits. */
  ghost predicate Labelled(msgs: seq<Message>) {
    && (forall i | 0 <= i < |msgs| :: msgs[i].Message? && msgs[i].kind != "function_call_output")
    && (forall i, j | 0 <= i < j < |msgs| :: msgs[i].rest != msgs[j].rest)
  }

  ghost predicate Present(m: Message, out: seq<Message>) {
    m.Message? && exists k | 0 <= k < |out| :: out[k].Message? && out[k].rest == m.rest
  }

  /** A message, whether or not it repeated another one, disappears from what is sent exactly if it falls. */
  lemma GoneIff(msgs: seq<Message>, mode: Mode, o: Options, caching: bool, e: Engines, i: nat)
    requires o.preserve || caching
    requires Compressed(Some(msgs), mode, o, caching, e).Some?
    requires Labelled(msgs) && i < |msgs|
    ensures var out := Compressed(Some(msgs), mode, o, caching, e).value;
            !Present(msgs[i], out) <==> Falls(msgs, i, CacheAware(mode, caching), Effective(o, caching), e)
  {
    hide Compressed, StageOf, Surviving, Falls, WithoutImages, SystemTexts, Repeats, Edited, Labelled;
    var out, o', m := Compressed(Some(msgs), mode, o, caching, e).value, Effective(o, caching), CacheAware(mode, caching);
    var st := StageOf(msgs, m, o', e);
    var keep := Surviving(st, o');
    Preservation(msgs, mode, o, caching, e);
    DropIff(msgs, m, o', e, i);
    LabelsKept(msgs, st.edited, o', out, keep);
    if i in keep {
      var k :| 0 <= k < |keep| && keep[k] == i;
      assert out[k].rest == msgs[i].rest;
    } else if Present(msgs[i], out) {
      var k :| 0 <= k < |out| && out[k].Message? && out[k].rest == msgs[i].rest;
      SameLabel(msgs, i, keep[k]);
    }
  }

  lemma SameLabel(msgs: seq<Message>, i: nat, j: nat)
    requires Labelled(msgs) && i < |msgs| && j < |msgs| && msgs[i].rest == msgs[j].rest
    ensures i == j
  {
  }

  lemma LabelsKept(msgs: seq<Message>, edited: seq<Message>, o: Options, out: seq<Message>, keep: seq<nat>)
    requires Labelled(msgs) && Edited(msgs, edited, o) && |out| == |keep|
    requires forall k | 0 <= k < |keep| ::
               keep[k] < |edited| && out[k] in [edited[keep[k]], WithoutImages(edited[keep[k]])]
    ensures |edited| == |msgs|
    ensures forall i | 0 <= i < |msgs| :: msgs[i].Message?
    ensures forall k | 0 <= k < |keep| :: out[k].Message? && out[k].rest == msgs[keep[k]].rest
  {
    forall k | 0 <= k < |keep| ensures out[k].Message? && out[k].rest == msgs[keep[k]].rest {
      assert EditOf(msgs[keep[k]], edited[keep[k]], o);
    }
  }

  // ---- how messages that repeat nothing come to fall -------------------------------------------------

  /** In lite mode: two strings that are one text once their whitespace is normalised. */
  lemma LiteFallsIff(msgs: seq<Message>, i: nat, o: Options, e: Engines)
    requires 0 < i < |msgs| && HasString(msgs[i - 1]) && HasString(msgs[i])
    requires msgs[i].role == msgs[i - 1].role != "tool" && !Protected(msgs[i], o)
    ensures Falls(msgs, i, ModeLite, o, e) <==>
            Normalize(msgs[i].content.text) == Normalize(msgs[i - 1].content.text) != ""
  {
    hide Normalize;
  }

  /** An old user message of plain text: aging keeps its first line only. */
  predicate OldUser(m: Message, dist: int, o: Options, e: Engines) {
    && HasString(m) && m.role == "user" && m.kind != "function_call_output"
    && dist > VERBATIM + LIGHT + MODERATE
    && !Marked(m.content.text) && StructuredKind(m.content.text, e).Prose?
  }

  function Gist(s: string): string {
    TruncStr(FirstLine(s), 120)
  }

  lemma OldUserAges(m: Message, dist: int, o: Options, e: Engines)
    requires OldUser(m, dist, o, e)
    ensures RtkMessage(m, e) == m
    ensures AgeMessage(m, dist, o, e) == WithText(m, "[COMPRESSED:aging:fullSummary] " + Gist(m.content.text))
  {
    hide Marked, StructuredKind, Gist, TruncStr, FirstLine;
    assert "user"[0] != SYSTEM[0] && "user"[0] != "tool"[0] && "user"[0] != "assistant"[0];
    assert OldText("user", m.content.text, e) == Some(Gist(m.content.text)) by {
      OldUserText(m.content.text, e);
    }
    assert "[COMPRESSED:aging:" + "fullSummary" + "] " == "[COMPRESSED:aging:fullSummary] ";
  }

  lemma OldUserText(s: string, e: Engines)
    ensures OldText("user", s, e) == Some(Gist(s))
  {
    assert "user"[0] != "assistant"[0];
  }

  /** Two old user messages age alike exactly if their first lines begin alike. */
  lemma AgedAlikeIff(m: Message, n: Message, d: int, d': int, o: Options, e: Engines)
    requires OldUser(m, d, o, e) && OldUser(n, d', o, e)
    ensures AgeMessage(m, d, o, e).content == AgeMessage(n, d', o, e).content <==> Gist(m.content.text) == Gist(n.content.text)
  {
    assert HasString(m) && HasString(n);
    hide AgeMessage, OldUser, Gist;
    OldUserAges(m, d, o, e);
    OldUserAges(n, d', o, e);
    var tag := "[COMPRESSED:aging:fullSummary] ";
    var x, y := tag + Gist(m.content.text), tag + Gist(n.content.text);
    assert x[|tag|..] == Gist(m.content.text) && y[|tag|..] == Gist(n.content.text);
  }

  /** Two string messages of one role and one text. */
  predicate Twins(m: Message, n: Message) {
    HasString(m) && HasString(n) && m.role == n.role && m.content == n.content
  }

  lemma TwinsStay(m: Message, n: Message, o: Options, e: Engines)
    requires Twins(m, n)
    ensures Twins(SummarizedMessage(m, o, e), SummarizedMessage(n, o, e))
    ensures Twins(CavemanMessage(m, o, e), CavemanMessage(n, o, e))
    ensures Twins(Collapse(m, o), Collapse(n, o)) && Twins(CompressTool(m), CompressTool(n))
  {
    hide Normalize, CavemanText, Summary, Marked, CutAt;
  }

  lemma SettledTwins(m: Message, n: Message, d: int, d': int, plan: Plan, o: Options, e: Engines)
    requires plan.ages && Twins(AgeMessage(RtkMessage(m, e), d, o, e), AgeMessage(RtkMessage(n, e), d', o, e))
    ensures Twins(Settled(m, d, plan, o, e), Settled(n, d', plan, o, e))
  {
    hide Twins, AgeMessage, RtkMessage, Collapse, CompressTool, CavemanMessage, SummarizedMessage;
    var a, b := AgeMessage(RtkMessage(m, e), d, o, e), AgeMessage(RtkMessage(n, e), d', o, e);
    TwinsStay(a, b, o, e);
    var a1, b1 := SummarizedMessage(a, o, e), SummarizedMessage(b, o, e);
    TwinsStay(a1, b1, o, e);
    var a2, b2 := if plan.caveman then CavemanMessage(a1, o, e) else a1, if plan.caveman then CavemanMessage(b1, o, e) else b1;
    TwinsStay(a2, b2, o, e);
    TwinsStay(Collapse(a2, o), Collapse(b2, o), o, e);
  }

  lemma OldUserPlain(m: Message, dist: int, o: Options, e: Engines)
    requires OldUser(m, dist, o, e)
    ensures HasString(m) && m.role == "user" && !Protected(m, o)
  {
    assert "user"[0] != SYSTEM[0];
  }

  lemma AgesPlan(msgs: seq<Message>, o: Options, e: Engines)
    ensures PlanOf(msgs, ModeAggressive, o, e).ages
  {
  }

  /** In aggressive mode: of two neighbouring old user messages whose first lines begin alike, the
      second falls whenever the fallback pays, unless nothing is left of it. */
  lemma OldUsersFall(msgs: seq<Message>, i: nat, o: Options, e: Engines)
    requires 0 < i < |msgs| && OldUser(msgs[i - 1], |msgs| - i, o, e) && OldUser(msgs[i], |msgs| - 1 - i, o, e)
    requires msgs[i - 1].content.Text? && msgs[i].content.Text?
    requires Gist(msgs[i - 1].content.text) == Gist(msgs[i].content.text)
    ensures var plan := PlanOf(msgs, ModeAggressive, o, e);
            Falls(msgs, i, ModeAggressive, o, e) <==> plan.lite && SettledText(msgs, i, plan, o, e) != ""
  {
    hide AgeMessage, RtkMessage, Settled, Gist, PlanOf, OldUser;
    var plan, a, b := PlanOf(msgs, ModeAggressive, o, e), msgs[i - 1], msgs[i];
    OldUserPlain(a, |msgs| - i, o, e);
    OldUserPlain(b, |msgs| - 1 - i, o, e);
    OldUserAges(a, |msgs| - i, o, e);
    OldUserAges(b, |msgs| - 1 - i, o, e);
    AgesPlan(msgs, o, e);
    SettledTwins(a, b, |msgs| - i, |msgs| - 1 - i, plan, o, e);
  }

  // ---- a run that loses a message which repeated nothing ---------------------------------------------

  const KEEP := Options("", true)
  const GIST := "[COMPRESSED:aging:fullSummary] q"
  const BLANK := Message("", "assistant", NoText(""), "")
  const SHRUNK := Message("", "user", Text(GIST), "")

  function Ask(s: string): Message {
    Message("", "user", Text("q\n" + s), "")
  }

  function Paste(t: string): Message {
    Message("", "user", Blocks([Part("text", Some(t), "", "")]), "")
  }

  function Pads(): (p: seq<Message>)
    ensures |p| == 7 && forall i | 0 <= i < 7 :: p[i] == BLANK
  {
    seq(7, i => BLANK)
  }

  function Talk(heads: seq<Message>, t: string): seq<Message> {
    heads + Pads() + [Paste(t)]
  }

  lemma {:induction false} TokensPlus(a: seq<Message>, b: seq<Message>)
    ensures Tokens(a + b) == Tokens(a) + Tokens(b)
  {
    if b == [] {
      assert a + b == a;
    } else {
      TokensPlus(a, Init(b));
      assert Init(a + b) == a + Init(b);
    }
  }

  lemma {:induction false} TokensZero(msgs: seq<Message>)
    requires forall i | 0 <= i < |msgs| :: MessageTokens(msgs[i]) == 0
    ensures Tokens(msgs) == 0
  {
    if msgs != [] {
      TokensZero(Init(msgs));
    }
  }

  lemma TalkTokens(heads: seq<Message>, t: string)
    requires |t| == 2400
    ensures Tokens(Talk(heads, t)) == Tokens(heads) + 600
  {
    TokensPlus(heads + Pads(), [Paste(t)]);
    TokensPlus(heads, Pads());
    TokensZero(Pads());
    var p := Part("text", Some(t), "", "");
    assert Init([p]) == [] && PartsText([p]) == "" + t;
    assert "" + t == t;
    assert Init([Paste(t)]) == [];
  }

  lemma HeadTokens(m: Message, n: Message)
    ensures Tokens([m]) == MessageTokens(m) && Tokens([m, n]) == MessageTokens(m) + MessageTokens(n)
  {
    assert Init([m, n]) == [m] && Init([m]) == [];
  }

  lemma AskTrims(s: string)
    ensures TrimSpace("q\n" + s) != "" && TrimSpace("q\n" + s)[0] == 'q'
  {
    var text := "q\n" + s;
    assert text[0] == 'q';
    assert TrimLeft(text) == text;
    TrimRightKeeps(text, "q");
  }

  lemma AskIsProse(s: string, e: Engines)
    ensures !Marked("q\n" + s) && StructuredKind("q\n" + s, e).Prose?
  {
    hide TrimSpace, IsSpace;
    AskTrims(s);
    assert MARKER[0] == '[' && FENCE[0] == '`' && "{"[0] == '{' && "["[0] == '[';
  }

  lemma AskIsOld(s: string, e: Engines)
    ensures OldUser(Ask(s), 8, KEEP, e) && OldUser(Ask(s), 9, KEEP, e) && Gist("q\n" + s) == "q"
  {
    hide Marked, StructuredKind, Split;
    AskIsProse(s, e);
    SplitConcat("q\n", s, '\n');
    QLine();
  }

  lemma QLine()
    ensures Split("q\n", '\n') == ["q", ""]
  {
    SplitFree("q", '\n');
    SplitSnoc("q", '\n', '\n');
    assert "q" + ['\n'] == "q\n";
    assert ["q"] + [[]] == ["q", ""];
  }

  lemma BlankStays(dist: int, e: Engines)
    ensures SummarizedMessage(AgeMessage(RtkMessage(BLANK, e), dist, KEEP, e), KEEP, e) == BLANK
  {
  }

  lemma PasteStays(t: string, dist: int, e: Engines)
    ensures SummarizedMessage(AgeMessage(RtkMessage(Paste(t), e), dist, KEEP, e), KEEP, e) == Paste(t)
  {
    assert "user"[0] != "tool"[0] && "text"[1] != "tool_result"[1];
    var parts := [Part("text", Some(t), "", "")];
    assert RtkParts(parts, false, e) == parts;
  }

  lemma AskShrinks(s: string, dist: int, e: Engines)
    requires dist == 8 || dist == 9
    ensures SummarizedMessage(AgeMessage(RtkMessage(Ask(s), e), dist, KEEP, e), KEEP, e) == SHRUNK
  {
    hide AgeMessage, OldUser, Gist, RtkMessage, Marked;
    AskIsOld(s, e);
    OldUserAges(Ask(s), dist, KEEP, e);
    assert "[COMPRESSED:aging:fullSummary] " + "q" == GIST;
  }

  lemma StepsTalk(a: string, b: string, t: string, e: Engines)
    ensures Steps(Talk([Ask(a), Ask(b)], t), KEEP, e) == Talk([SHRUNK, SHRUNK], t)
  {
    hide SummarizedMessage, AgeMessage, RtkMessage, Steps;
    var msgs := Talk([Ask(a), Ask(b)], t);
    forall i | 0 <= i < 10 ensures |Steps(msgs, KEEP, e)| == 10 && Steps(msgs, KEEP, e)[i] == Talk([SHRUNK, SHRUNK], t)[i] {
      StepsAt(msgs, KEEP, e, i);
      if i == 0 {
        AskShrinks(a, 9, e);
      } else if i == 1 {
        AskShrinks(b, 8, e);
      } else if i < 9 {
        BlankStays(9 - i, e);
      } else {
        PasteStays(t, 0, e);
      }
    }
    assert |Steps(msgs, KEEP, e)| == 10 by {
      StepsAt(msgs, KEEP, e, 0);
    }
  }

  lemma NoRules(e: Engines, msgs: seq<Message>)
    requires e.rules == []
    ensures Fallen(msgs, KEEP, e) == msgs
  {
    hide Rewrite, Tokens;
    forall i | 0 <= i < |msgs| ensures CavemanMessage(msgs[i], KEEP, e) == msgs[i] {
      if Open(msgs[i], KEEP) {
        RewriteNothing(msgs[i].content.text, s => ApplyRules(e.rules, msgs[i].role, FULL, s));
      }
    }
    assert Each(msgs, CavemanMap(KEEP, e)) == msgs;
  }

  lemma {:induction false} NormalizePlain(s: string)
    requires '\n' !in s
    ensures CollapseRuns(s) == s
    ensures s != "" && !Blank(Last(s)) ==> Normalize(s) == s
  {
    if s != "" {
      NormalizePlain(Init(s));
      InitLast(s);
    }
    SplitFree(s, '\n');
    assert Init([s]) == [];
  }

  lemma PlainCollapses(m: Message)
    requires HasString(m) ==> Normalize(m.content.text) == m.content.text
    requires m.Message? ==> m.role != "tool"
    ensures CompressTool(Collapse(m, KEEP)) == m
  {
    hide Normalize;
  }

  lemma GistPlain()
    ensures Normalize(GIST) == GIST
  {
    hide Normalize, CollapseRuns, Split;
    assert '\n' !in GIST;
    assert Last(GIST) == 'q';
    NormalizePlain(GIST);
  }

  lemma TalkCollapses(heads: seq<Message>, t: string, i: nat)
    requires forall k | 0 <= k < |heads| :: heads[k] == SHRUNK
    requires i < |Talk(heads, t)|
    ensures CompressTool(Collapse(Talk(heads, t)[i], KEEP)) == Talk(heads, t)[i]
  {
    hide Normalize, CompressTool, Collapse;
    assert "user"[0] != "tool"[0] && "assistant"[0] != "tool"[0];
    var m := Talk(heads, t)[i];
    if i < |heads| {
      GistPlain();
      PlainCollapses(SHRUNK);
    } else if i < |heads| + 7 {
      PlainCollapses(BLANK);
    } else {
      PlainCollapses(Paste(t));
    }
  }

  lemma TalkTooled(t: string, sees: string -> bool)
    ensures Passes(Talk([SHRUNK, SHRUNK], t), KEEP, sees).tooled == Talk([SHRUNK, SHRUNK], t)
  {
    hide Passes, Collapse, CompressTool;
    var talk := Talk([SHRUNK, SHRUNK], t);
    TooledAt(talk, KEEP, sees, 0);
    forall i | 0 <= i < |talk| ensures Passes(talk, KEEP, sees).tooled[i] == talk[i] {
      TooledAt(talk, KEEP, sees, i);
      TalkCollapses([SHRUNK, SHRUNK], t, i);
    }
  }

  /** Only the second of the two shrunk messages repeats its predecessor. */
  lemma TalkRepeats(t: string, i: nat)
    requires i < 10
    ensures Repeats(Talk([SHRUNK, SHRUNK], t), i, KEEP) <==> i == 1
  {
    assert "user"[0] != SYSTEM[0] && "user"[0] != "assistant"[0];
    assert GIST != "";
  }

  lemma {:induction false} DropSecond(msgs: seq<Message>, o: Options, n: nat)
    requires 1 < |msgs| && 1 <= n <= |msgs|
    requires forall i | 0 <= i < |msgs| :: Repeats(msgs, i, o) <==> i == 1
    ensures At(msgs, Staying(msgs, o, n)) == [msgs[0]] + (if n < 2 then [] else msgs[2..n])
  {
    hide Repeats, Staying, At;
    StayingSnoc(msgs, o, n - 1);
    if n == 1 {
      StayingNone(msgs, o);
    } else {
      DropSecond(msgs, o, n - 1);
      if n > 2 {
        assert msgs[2..n] == msgs[2..n - 1] + [msgs[n - 1]];
      } else {
        assert msgs[2..2] == [];
      }
    }
  }

  lemma TalkDrops(t: string)
    ensures DropRepeats(Talk([SHRUNK, SHRUNK], t), KEEP) == Talk([SHRUNK], t)
    ensures AnyRepeat(Talk([SHRUNK, SHRUNK], t), KEEP)
  {
    hide Repeats;
    var talk := Talk([SHRUNK, SHRUNK], t);
    forall i | 0 <= i < |talk| ensures Repeats(talk, i, KEEP) <==> i == 1 {
      TalkRepeats(t, i);
    }
    assert Repeats(talk, 1, KEEP);
    DropSecond(talk, KEEP, 10);
    assert [talk[0]] + talk[2..10] == Talk([SHRUNK], t);
  }

  lemma LiteTalk(t: string, sees: string -> bool)
    ensures LiteResult(Some(Talk([SHRUNK, SHRUNK], t)), KEEP, sees) == Some(Talk([SHRUNK], t))
  {
    hide Collapse, CompressTool, Repeats, Talk, Each, WithoutImages, DropRepeats, AnyRepeat, Dedup, AnyLongTool;
    var talk := Talk([SHRUNK, SHRUNK], t);
    TalkTooled(t, sees);
    TalkDrops(t);
  }

  /** Two different questions, seven messages without content and a long paste. */
  ghost predicate TalkOf(msgs: seq<Message>, a: string, b: string, t: string) {
    a != b && |a| == |b| == 78 && |t| == 2400 && msgs == Talk([Ask(a), Ask(b)], t)
  }

  lemma TalkCounts(msgs: seq<Message>, a: string, b: string, t: string)
    requires TalkOf(msgs, a, b, t)
    ensures Tokens(msgs) == 640
    ensures Tokens(Talk([SHRUNK, SHRUNK], t)) == 616 && Tokens(Talk([SHRUNK], t)) == 608
  {
    hide Tokens;
    TalkTokens([Ask(a), Ask(b)], t);
    TalkTokens([SHRUNK, SHRUNK], t);
    TalkTokens([SHRUNK], t);
    HeadTokens(Ask(a), Ask(b));
    HeadTokens(SHRUNK, SHRUNK);
    assert |GIST| == 32;
  }

  lemma TalkSays(msgs: seq<Message>, a: string, b: string, t: string, i: nat)
    requires TalkOf(msgs, a, b, t) && i < |msgs|
    ensures !Repeats(msgs, i, KEEP)
  {
    assert "user"[0] != "assistant"[0];
    if i == 1 {
      assert ("q\n" + a)[2..] == a && ("q\n" + b)[2..] == b;
    }
  }

  /** Nothing in the conversation repeats anything, and aggressive mode sends it without the second
      question: aging has made the two questions one text, and the fallback's lite pass drops the second. */
  lemma AggressiveLosesOriginal(msgs: seq<Message>, a: string, b: string, t: string, e: Engines)
    requires TalkOf(msgs, a, b, t) && e.rules == []
    ensures forall i | 0 <= i < |msgs| :: !Repeats(msgs, i, KEEP)
    ensures Compressed(Some(msgs), ModeAggressive, KEEP, false, e) == Some(Talk([SHRUNK], t))
  {
    hide Repeats, Tokens, Fallback, Talk, AggressiveResult, TalkOf;
    forall i | 0 <= i < |msgs| ensures !Repeats(msgs, i, KEEP) {
      TalkSays(msgs, a, b, t, i);
    }
    TalkCounts(msgs, a, b, t);
    TalkResult(msgs, a, b, t, e);
    assert Savings(640, 608) == 5.0;
  }

  lemma TalkResult(msgs: seq<Message>, a: string, b: string, t: string, e: Engines)
    requires TalkOf(msgs, a, b, t) && e.rules == []
    ensures AggressiveResult(Some(msgs), KEEP, e) == Some(Talk([SHRUNK], t))
  {
    hide Tokens, Steps, Fallback, Talk, TalkOf, Idle;
    var steps := Talk([SHRUNK, SHRUNK], t);
    TalkBusy(msgs, a, b, t, e);
    TalkCounts(msgs, a, b, t);
    TalkSteps(msgs, a, b, t, e);
    FallbackTalk(t, e);
  }

  lemma TalkSteps(msgs: seq<Message>, a: string, b: string, t: string, e: Engines)
    requires TalkOf(msgs, a, b, t)
    ensures Steps(msgs, KEEP, e) == Talk([SHRUNK, SHRUNK], t)
  {
    StepsTalk(a, b, t, e);
  }

  lemma FallbackTalk(t: string, e: Engines)
    requires e.rules == [] && Tokens(Talk([SHRUNK, SHRUNK], t)) == 616 && Tokens(Talk([SHRUNK], t)) == 608
    ensures Fallback(640, Talk([SHRUNK, SHRUNK], t), KEEP, e) == Talk([SHRUNK], t)
  {
    hide Tokens, LiteResult, Fallen, Talk, Better;
    var steps := Talk([SHRUNK, SHRUNK], t);
    NoRules(e, steps);
    LiteTalk(t, e.sees);
    BetterIs(steps, Talk([SHRUNK], t));
  }

  lemma BetterIs(msgs: seq<Message>, fewer: seq<Message>)
    requires Tokens(fewer) < Tokens(msgs)
    ensures Better(msgs, Some(fewer)) == fewer
  {
  }

  lemma TalkBusy(msgs: seq<Message>, a: string, b: string, t: string, e: Engines)
    requires TalkOf(msgs, a, b, t)
    ensures msgs != [] && !Idle(msgs, KEEP, e)
  {
    hide AgeMessage;
    AskIsOld(a, e);
    OldUserAges(Ask(a), 9, KEEP, e);
    assert msgs[0] == Ask(a);
    assert ("[COMPRESSED:aging:fullSummary] " + "q")[0] == '[' && ("q\n" + a)[0] == 'q';
    assert Aged(msgs, KEEP, e)[0] != msgs[0];
  }

  // ---- two messages that only a blank tells apart ------------------------------------------------------

  lemma NoRuns()
    ensures CollapseRuns("a") == "a" && CollapseRuns("a ") == "a "
  {
    assert Init("a") == "" && Init("a ") == "a";
  }

  lemma LineTrimmed()
    ensures TrimLines(["a"]) == ["a"] && TrimLines(["a "]) == ["a"]
  {
    assert Init("a ") == "a";
    assert TrimBlanks("a") == "a" && TrimBlanks("a ") == "a";
    assert Init(["a"]) == [] && Init(["a "]) == [];
  }

  lemma BlankGoes()
    ensures Normalize("a") == "a" && Normalize("a ") == "a"
  {
    hide CollapseRuns, Split, TrimLines;
    NoRuns();
    SplitFree("a", '\n');
    SplitFree("a ", '\n');
    LineTrimmed();
  }

  lemma CollapseUser(s: string)
    ensures Collapse(Single(s), KEEP) == Single(Normalize(s))
  {
    hide Normalize;
    assert "user"[0] != SYSTEM[0];
  }

  lemma TwiceA(sees: string -> bool)
    ensures var st := Passes([Single("a"), Single("a ")], KEEP, sees);
            |st.collapsed| == 2 && st.collapsed[1] == Single("a") && st.imaged == [Single("a")]
  {
    hide Passes, Collapse, CompressTool, Normalize, Dedup;
    var msgs := [Single("a"), Single("a ")];
    BlankGoes();
    CollapseUser("a");
    CollapseUser("a ");
    SingleUser([Single("a")], "a");
    TooledAt(msgs, KEEP, sees, 0);
    TooledAt(msgs, KEEP, sees, 1);
    TwiceDrops(Passes(msgs, KEEP, sees).tooled);
    LastPasses(msgs, sees);
  }

  lemma LastPasses(msgs: seq<Message>, sees: string -> bool)
    ensures var st := Passes(msgs, KEEP, sees);
            && st.imaged == DropRepeats(st.tooled, KEEP)
            && |st.collapsed| == |msgs| && forall i | 0 <= i < |msgs| :: st.collapsed[i] == Collapse(msgs[i], KEEP)
  {
    hide Collapse, CompressTool, DropRepeats, WithoutImages, Dedup;
  }

  lemma TwiceDrops(twice: seq<Message>)
    requires twice == [Single("a"), Single("a")]
    ensures DropRepeats(twice, KEEP) == [Single("a")]
  {
    assert "user"[0] != SYSTEM[0];
    assert !Repeats(twice, 0, KEEP) && Repeats(twice, 1, KEEP);
    StayingSnoc(twice, KEEP, 0);
    StayingSnoc(twice, KEEP, 1);
  }

  lemma TwoCounts()
    ensures Tokens([Single("a"), Single("a ")]) == 2 && Tokens([Single("a")]) == 1
  {
    assert Init([Single("a"), Single("a ")]) == [Single("a")] && Init([Single("a")]) == [];
  }

  /** The same in lite mode: the second of two user messages that differ by a blank is not sent. */
  lemma LiteLosesOriginal(e: Engines)
    ensures var msgs := [Single("a"), Single("a ")];
            !Repeats(msgs, 1, KEEP) && Compressed(Some(msgs), ModeLite, KEEP, false, e) == Some([Single("a")])
  {
    hide Passes, Tokens;
    assert |"a"| != |"a "|;
    TwiceA(e.sees);
    TwoCounts();
    assert Single("a").content.text != Single("a ").content.text;
  }
}
