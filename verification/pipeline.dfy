/** The compression pipeline as callers see it, and what it preserves: Apply of
    internal/compression/compression.go. */
module Pipeline {
  import opened Seqs
  import opened Chat
  import opened CodeBlocks
  import opened Lite
  import opened Caveman
  import opened Ultra
  import opened Aggressive

  datatype Mode = ModeOff | ModeLite | ModeStandard | ModeAggressive | ModeUltra | NoMode(name: string)

  const FIDELITY := 3.0

  /** On a provider that caches prompts the two strongest modes step down to standard. */
  function CacheAware(mode: Mode, caching: bool): Mode {
    if caching && (mode.ModeAggressive? || mode.ModeUltra?) then ModeStandard else mode
  }

  /** ... and system messages are preserved whatever the caller asked for. */
  function Effective(o: Options, caching: bool): Options {
    if caching then o.(preserve := true) else o
  }

  function ModeResult(msgs: Option<seq<Message>>, mode: Mode, o: Options, e: Engines): Option<seq<Message>> {
    match mode
    case ModeLite => LiteResult(msgs, o, e.sees)
    case ModeStandard => StandardResult(msgs, o, e)
    case ModeAggressive => AggressiveResult(msgs, o, e)
    case ModeUltra => UltraResult(msgs, o, e)
    case _ => None
  }

  /** The savings in percent. */
  function Savings(original: nat, after: nat): real {
    if original > 0 then (original as real - after as real) * 100.0 / original as real else 0.0
  }

  /** The safety net and the fidelity gate: what a mode made of the messages, if it is worth sending. */
  function Gate(before: seq<Message>, mode: Mode, result: Option<seq<Message>>): Option<seq<Message>> {
    if result.None? || Tokens(result.value) >= Tokens(before) then None
    else if mode.ModeLite? || Savings(Tokens(before), Tokens(result.value)) >= FIDELITY then result
    else None
  }

  /** The messages Apply sends on; None for the body it was given. */
  function Compressed(msgs: Option<seq<Message>>, mode: Mode, o: Options, caching: bool, e: Engines): Option<seq<Message>> {
    var m := CacheAware(mode, caching);
    Gate(ListOf(msgs), m, ModeResult(msgs, m, Effective(o, caching), e))
  }

  /** The caller's body is not touched: the result is that body or a new one. */
  method Apply(body: Body, mode: Mode, o: Options, caching: bool, e: Engines) returns (out: Body, compressed: bool)
    ensures compressed == Compressed(body.messages, mode, o, caching, e).Some?
    ensures !compressed ==> out == body
    ensures compressed ==>
              fresh(out) && out.messages == Compressed(body.messages, mode, o, caching, e) && out.rest == body.rest
  {
    hide Tokens, LiteResult, StandardResult, AggressiveResult, UltraResult;
    if mode.ModeOff? || mode.NoMode? {
      return body, false;
    }
    var m := CacheAware(mode, caching);
    var o' := Effective(o, caching);
    var original := body.SnapshotTokens();
    match m {
      case ModeLite => out, compressed := ApplyLite(body, o', e.sees);
      case ModeStandard => out, compressed := ApplyCaveman(body, o', e);
      case ModeAggressive => out, compressed := ApplyAggressive(body, o', e);
      case ModeUltra => out, compressed := ApplyUltra(body, o', e);
      case _ => return body, false;
    }
    if !compressed {
      return body, false;
    }
    var after := out.SnapshotTokens();
    if after >= original {
      return body, false;
    }
    var savings := if original > 0 then (original as real - after as real) * 100.0 / original as real else 0.0;
    if !m.ModeLite? && savings < FIDELITY {
      return body, false;
    }
  }

  // ---- the result is smaller ---------------------------------------------------------------------

  /** What Apply sends on instead of the body is strictly smaller, and at least 3% smaller unless the
      mode is lite. */
  lemma AlwaysSmaller(msgs: Option<seq<Message>>, mode: Mode, o: Options, caching: bool, e: Engines)
    requires Compressed(msgs, mode, o, caching, e).Some?
    ensures msgs.Some?
    ensures var (n, m) := (Tokens(ListOf(msgs)), Tokens(Compressed(msgs, mode, o, caching, e).value));
            m < n && (mode.ModeLite? || 100 * (n - m) >= 3 * n)
  {
    hide Tokens, ModeResult;
    NoTokens();
    GateSmaller(ListOf(msgs), CacheAware(mode, caching), ModeResult(msgs, CacheAware(mode, caching), Effective(o, caching), e));
  }

  lemma NoTokens()
    ensures Tokens([]) == 0
  {
  }

  lemma GateSmaller(before: seq<Message>, mode: Mode, result: Option<seq<Message>>)
    requires Gate(before, mode, result).Some?
    ensures var (n, m) := (Tokens(before), Tokens(Gate(before, mode, result).value));
            m < n && (mode.ModeLite? || 100 * (n - m) >= 3 * n)
  {
    hide Tokens;
    if !mode.ModeLite? {
      Percent(Tokens(before), Tokens(result.value));
    }
  }

  lemma Percent(before: nat, after: nat)
    requires 0 < before && after < before && Savings(before, after) >= FIDELITY
    ensures 100 * (before - after) >= 3 * before
  {
    var saved := before as real - after as real;
    assert saved * 100.0 == Savings(before, after) * before as real;
    assert saved * 100.0 >= 3.0 * before as real;
    assert saved == (before - after) as real;
  }

  // ---- what editing keeps ------------------------------------------------------------------------

  /** Type and role stay; a protected message keeps its string content; the other fields stay except
      on a function call's output. */
  predicate EditOf(m: Message, m': Message, o: Options) {
    if m.NotMessage? then m' == m
    else
      && m'.Message? && m'.kind == m.kind && m'.role == m.role
      && (Protected(m, o) && m.content.Text? ==> m'.content == m.content)
      && (m.content.Text? <==> m'.content.Text?)
      && (m.kind != "function_call_output" ==> m'.rest == m.rest)
  }

  ghost predicate Edited(a: seq<Message>, b: seq<Message>, o: Options) {
    |a| == |b| && forall i | 0 <= i < |a| :: EditOf(a[i], b[i], o)
  }

  lemma EditedTwice(a: seq<Message>, b: seq<Message>, c: seq<Message>, o: Options)
    requires Edited(a, b, o) && Edited(b, c, o)
    ensures Edited(a, c, o)
  {
    forall i | 0 <= i < |a| ensures EditOf(a[i], c[i], o) {
      assert EditOf(a[i], b[i], o) && EditOf(b[i], c[i], o);
    }
  }

  lemma CollapseEdits(a: seq<Message>, o: Options)
    ensures Edited(a, Each(a, m => Collapse(m, o)), o)
  {
    hide Normalize;
  }

  lemma ToolEdits(a: seq<Message>, o: Options)
    ensures Edited(a, Each(a, CompressTool), o)
  {
    hide CutAt;
    assert "tool"[0] != SYSTEM[0];
  }

  lemma ImageEdits(a: seq<Message>, o: Options)
    ensures Edited(a, Each(a, WithoutImages), o)
  {
    hide Placeholders;
  }

  lemma RtkEdits(a: seq<Message>, o: Options, e: Engines)
    ensures Edited(a, Each(a, RtkMap(e)), o)
  {
    hide RtkParts;
    assert "tool"[0] != SYSTEM[0];
  }

  lemma AgeEdits(a: seq<Message>, o: Options, e: Engines)
    ensures Edited(a, Aged(a, o, e), o)
  {
    hide TagAged, Normalize, ModerateText, OldText, Marked;
  }

  lemma SummaryEdits(a: seq<Message>, o: Options, e: Engines)
    ensures Edited(a, Each(a, SummaryMap(o, e)), o)
  {
    hide Summary, Marked;
  }

  lemma CavemanEdits(a: seq<Message>, o: Options, e: Engines)
    ensures Edited(a, Each(a, CavemanMap(o, e)), o)
  {
    hide CavemanText;
  }

  lemma UltraEdits(a: seq<Message>, o: Options, e: Engines)
    ensures Edited(a, Each(a, UltraMap(o, e)), o)
  {
    hide UltraText;
  }

  // ---- the stage at which repeats are dropped ------------------------------------------------------

  /** The messages as a mode has edited them when it looks for repeats, and whether it does. */
  datatype Stage = Stage(edited: seq<Message>, drops: bool)

  /** The fallback of aggressive mode sends what lite mode made of msgs. */
  predicate LitePays(msgs: seq<Message>, o: Options, e: Engines) {
    var r := LiteResult(Some(msgs), o, e.sees);
    r.Some? && Tokens(r.value) < Tokens(msgs)
  }

  function FallbackStage(original: nat, steps: seq<Message>, o: Options, e: Engines): Stage {
    if SavesEnough(original, Tokens(steps)) then Stage(steps, false)
    else if LitePays(Fallen(steps, o, e), o, e) then Stage(Passes(Fallen(steps, o, e), o, e.sees).tooled, true)
    else Stage(Fallen(steps, o, e), false)
  }

  function StageOf(msgs: seq<Message>, mode: Mode, o: Options, e: Engines): Stage {
    match mode
    case ModeLite => Stage(Passes(msgs, o, e.sees).tooled, true)
    case ModeStandard => Stage(Each(msgs, CavemanMap(o, e)), false)
    case ModeUltra => Stage(Each(msgs, UltraMap(o, e)), false)
    case ModeAggressive => FallbackStage(Tokens(msgs), Steps(msgs, o, e), o, e)
    case _ => Stage(msgs, false)
  }

  /** What is left to do: drop the repeats, then the images. */
  function Finished(st: Stage, o: Options, sees: string -> bool): seq<Message> {
    if !st.drops then st.edited
    else if Vision(o, sees) then DropRepeats(st.edited, o)
    else Each(DropRepeats(st.edited, o), WithoutImages)
  }

  /** In every mode the result is the stage's messages, finished. */
  lemma ModeIsStage(msgs: seq<Message>, mode: Mode, o: Options, e: Engines)
    requires ModeResult(Some(msgs), mode, o, e).Some?
    ensures ModeResult(Some(msgs), mode, o, e).value == Finished(StageOf(msgs, mode, o, e), o, e.sees)
  {
    hide Each, Tokens, Steps, Applied, CavemanMap, UltraMap, Idle, DropRepeats, Dedup, Vision, StandardResult, SavesEnough;
    match mode {
      case ModeStandard => StandardIs(msgs, o, e);
      case _ =>
    }
  }

  lemma StandardIs(msgs: seq<Message>, o: Options, e: Engines)
    requires StandardResult(Some(msgs), o, e).Some?
    ensures StandardResult(Some(msgs), o, e).value == Each(msgs, CavemanMap(o, e))
  {
    hide Each, CavemanMap;
  }

  lemma SelfEdit(a: seq<Message>, o: Options)
    ensures Edited(a, a, o)
  {
  }

  lemma TooledEdit(msgs: seq<Message>, o: Options, sees: string -> bool)
    requires o.preserve
    ensures Edited(msgs, Passes(msgs, o, sees).tooled, o)
  {
    hide Edited, DropRepeats, Each, Vision;
    var st := Passes(msgs, o, sees);
    CollapseEdits(msgs, o);
    ToolEdits(st.deduped, o);
    EditedTwice(msgs, st.collapsed, st.tooled, o);
  }

  lemma StepsEdit(msgs: seq<Message>, o: Options, e: Engines)
    ensures Edited(msgs, Steps(msgs, o, e), o)
  {
    hide Edited, Each, Aged, RtkMap, SummaryMap;
    var a := Each(msgs, RtkMap(e));
    var b := Aged(a, o, e);
    RtkEdits(msgs, o, e);
    AgeEdits(a, o, e);
    SummaryEdits(b, o, e);
    EditedTwice(msgs, a, b, o);
    EditedTwice(msgs, b, Steps(msgs, o, e), o);
  }

  lemma FallenEdit(msgs: seq<Message>, o: Options, e: Engines)
    ensures Edited(msgs, Fallen(msgs, o, e), o)
  {
    hide Edited, Each, Tokens, CavemanMap;
    SelfEdit(msgs, o);
    CavemanEdits(msgs, o, e);
  }

  /** Up to the drop every mode edits message by message. */
  lemma StageEdits(msgs: seq<Message>, mode: Mode, o: Options, e: Engines)
    requires o.preserve
    ensures Edited(msgs, StageOf(msgs, mode, o, e).edited, o)
  {
    hide Edited, Each, Tokens, Steps, Passes, CavemanMap, UltraMap, LitePays, Fallen, SavesEnough;
    match mode {
      case ModeLite => TooledEdit(msgs, o, e.sees);
      case ModeStandard => CavemanEdits(msgs, o, e);
      case ModeUltra => UltraEdits(msgs, o, e);
      case ModeAggressive =>
        var steps := Steps(msgs, o, e);
        var fallen := Fallen(steps, o, e);
        StepsEdit(msgs, o, e);
        FallenEdit(steps, o, e);
        EditedTwice(msgs, steps, fallen, o);
        TooledEdit(fallen, o, e.sees);
        EditedTwice(msgs, fallen, Passes(fallen, o, e.sees).tooled, o);
      case _ => SelfEdit(msgs, o);
    }
  }

  // ---- preservation ------------------------------------------------------------------------------

  /** The positions that survive: all but the repeats, if the stage drops them. */
  function Surviving(st: Stage, o: Options): seq<nat> {
    if st.drops then Staying(st.edited, o, |st.edited|) else Range(|st.edited|)
  }

  function Range(n: nat): (r: seq<nat>)
    ensures |r| == n && forall i | 0 <= i < n :: r[i] == i
  {
    seq(n, i => i)
  }

  lemma SurvivingIff(st: Stage, o: Options, i: nat)
    requires i < |st.edited|
    ensures i in Surviving(st, o) <==> !(st.drops && Repeats(st.edited, i, o))
  {
    if st.drops {
      if !Repeats(st.edited, i, o) {
        StayingAll(st.edited, o, |st.edited|, i);
      }
    } else {
      assert Range(|st.edited|)[i] == i;
    }
  }

  /** Message k of the result is the stage's message at the k-th surviving position, but for images. */
  lemma FinishedAt(st: Stage, o: Options, sees: string -> bool)
    ensures var out, keep := Finished(st, o, sees), Surviving(st, o);
            && |out| == |keep|
            && (forall j, k | 0 <= j < k < |keep| :: keep[j] < keep[k])
            && (forall k | 0 <= k < |keep| :: keep[k] < |st.edited| && out[k] in [st.edited[keep[k]], WithoutImages(st.edited[keep[k]])])
  {
    hide WithoutImages, Repeats, Vision;
  }

  /** The system messages with string content, in order. */
  function SystemTexts(msgs: seq<Message>): seq<string> {
    if msgs == [] then []
    else SystemTexts(Init(msgs)) + if SystemText(Last(msgs)) then [Last(msgs).content.text] else []
  }

  lemma {:induction false} SystemEdited(a: seq<Message>, b: seq<Message>, o: Options)
    requires o.preserve && Edited(a, b, o)
    ensures SystemTexts(a) == SystemTexts(b)
  {
    if a != [] {
      assert EditOf(a[|a| - 1], b[|a| - 1], o);
      SystemEdited(Init(a), Init(b), o);
    }
  }

  lemma {:induction false} SystemStays(b: seq<Message>, o: Options, n: nat)
    requires o.preserve && n <= |b|
    ensures SystemTexts(At(b, Staying(b, o, n))) == SystemTexts(b[..n])
  {
    if n > 0 {
      SystemStays(b, o, n - 1);
      assert Init(b[..n]) == b[..n - 1];
      StayingSnoc(b, o, n - 1);
      var front := At(b, Staying(b, o, n - 1));
      assert Init(front + [b[n - 1]]) == front && front + [] == front;
      assert Last(b[..n]) == b[n - 1];
      assert Repeats(b, n - 1, o) ==> !SystemText(b[n - 1]);
    }
  }

  lemma FinishedSystem(st: Stage, o: Options, sees: string -> bool)
    requires o.preserve
    ensures SystemTexts(Finished(st, o, sees)) == SystemTexts(st.edited)
  {
    hide Each, Vision;
    if st.drops {
      var dropped := DropRepeats(st.edited, o);
      SystemStays(st.edited, o, |st.edited|);
      assert st.edited[..|st.edited|] == st.edited;
      ImageEdits(dropped, o);
      SystemEdited(dropped, Each(dropped, WithoutImages), o);
    }
  }

  /** With system preservation on, asked for or forced by a caching provider, in every mode: the
      string system messages come out identical and in order; and every message comes out in place,
      edited in text only, unless the mode drops repeats and the message, as the mode has edited it,
      repeats the one before it, as the mode has edited that. */
  lemma Preservation(msgs: seq<Message>, mode: Mode, o: Options, caching: bool, e: Engines)
    requires o.preserve || caching
    requires Compressed(Some(msgs), mode, o, caching, e).Some?
    ensures var out, o' := Compressed(Some(msgs), mode, o, caching, e).value, Effective(o, caching);
            var st := StageOf(msgs, CacheAware(mode, caching), o', e);
            var keep := Surviving(st, o');
            && SystemTexts(out) == SystemTexts(msgs)
            && Edited(msgs, st.edited, o')
            && |out| == |keep|
            && (forall j, k | 0 <= j < k < |keep| :: keep[j] < keep[k])
            && (forall k | 0 <= k < |keep| ::
                  keep[k] < |st.edited| && out[k] in [st.edited[keep[k]], WithoutImages(st.edited[keep[k]])])
            && (forall i | 0 <= i < |msgs| :: i !in keep <==> st.drops && Repeats(st.edited, i, o'))
  {
    hide Edited, SystemTexts, ModeResult, StageOf, Finished, Surviving, Tokens, Savings, Repeats, WithoutImages;
    var o', m := Effective(o, caching), CacheAware(mode, caching);
    var st := StageOf(msgs, m, o', e);
    ModeIsStage(msgs, m, o', e);
    StageEdits(msgs, m, o', e);
    EditedLength(msgs, st.edited, o');
    FinishedAt(st, o', e.sees);
    FinishedSystem(st, o', e.sees);
    SystemEdited(msgs, st.edited, o');
    forall i | 0 <= i < |msgs| ensures i !in Surviving(st, o') <==> st.drops && Repeats(st.edited, i, o') {
      SurvivingIff(st, o', i);
    }
  }

  lemma EditedLength(a: seq<Message>, b: seq<Message>, o: Options)
    requires Edited(a, b, o)
    ensures |a| == |b|
  {
  }

  // ---- what the single modes may touch -----------------------------------------------------------

  /** Only an unprotected string of at least `least` characters changes, and only outside its frozen runs. */
  ghost predicate ProseEdit(m: Message, m': Message, o: Options, least: nat) {
    m' == m
    || (Open(m, o) && |m.content.text| >= least && HasString(m') && m' == WithText(m, m'.content.text)
        && FrozenKept(m.content.text, m'.content.text))
  }

  /** Standard mode rewrites prose only, message by message. */
  lemma StandardFrozen(msgs: seq<Message>, mode: Mode, o: Options, caching: bool, e: Engines)
    requires CacheAware(mode, caching).ModeStandard? && Compressed(Some(msgs), mode, o, caching, e).Some?
    ensures var out := Compressed(Some(msgs), mode, o, caching, e).value;
            |out| == |msgs| && forall i | 0 <= i < |msgs| :: ProseEdit(msgs[i], out[i], Effective(o, caching), MIN_CAVEMAN)
  {
    hide FrozenKept, Tokens, Rewrite;
    var o' := Effective(o, caching);
    forall i | 0 <= i < |msgs| ensures ProseEdit(msgs[i], CavemanMap(o', e)(msgs[i]), o', MIN_CAVEMAN) {
      if Open(msgs[i], o') {
        RewriteKeepsFrozen(msgs[i].content.text, s => ApplyRules(e.rules, msgs[i].role, FULL, s));
      }
    }
  }

  /** Ultra mode too, and it never makes a message longer. */
  lemma UltraFrozen(msgs: seq<Message>, o: Options, e: Engines)
    requires Compressed(Some(msgs), ModeUltra, o, false, e).Some?
    ensures var out := Compressed(Some(msgs), ModeUltra, o, false, e).value;
            && |out| == |msgs|
            && forall i | 0 <= i < |msgs| :: ProseEdit(msgs[i], out[i], o, MIN_ULTRA) && MessageTokens(out[i]) <= MessageTokens(msgs[i])
  {
    hide FrozenKept, Tokens, Rewrite;
    forall i | 0 <= i < |msgs|
      ensures ProseEdit(msgs[i], UltraMap(o, e)(msgs[i]), o, MIN_ULTRA) && MessageTokens(UltraMap(o, e)(msgs[i])) <= MessageTokens(msgs[i])
    {
      if Open(msgs[i], o) {
        RewriteKeepsFrozen(msgs[i].content.text, t => PrunedText(t, KEEP_RATE, MIN_SCORE, e.score));
      }
    }
  }

  /** Lite mode on one message: whitespace, the tail of a long tool result, data images. */
  ghost predicate LiteEdit(m: Message, m': Message) {
    if m.NotMessage? then m' == m
    else
      && m'.Message? && m'.kind == m.kind && m'.role == m.role && m'.rest == m.rest
      && match m.content
         case NoText(_) => m'.content == m.content
         case Text(s) =>
           && m'.content.Text?
           && (Visible(m'.content.text) == Visible(s)
               || (m.role == "tool" && exists kept: string, lost ::
                     Visible(kept + lost) == Visible(s) && |kept| >= MAX_TOOL_LENGTH - LOOKBACK && m'.content.text == kept + TRUNCATED))
         case Blocks(parts) =>
           && m'.content.Blocks? && |m'.content.parts| == |parts|
           && forall j | 0 <= j < |parts| :: m'.content.parts[j] == parts[j] || DataImage(parts[j])
  }

  lemma LiteOne(m: Message, o: Options, see: bool)
    ensures var t := CompressTool(Collapse(m, o));
            LiteEdit(m, t) && LiteEdit(m, if see then t else WithoutImages(t))
  {
    hide Normalize, Visible, FormatName;
    if HasString(m) {
      var s := m.content.text;
      NormalizeVisible(s);
      var c := Collapse(m, o);
      if LongTool(c) {
        var cut := CutAt(c.content.text, MAX_TOOL_LENGTH);
        var kept, lost := c.content.text[..cut], c.content.text[cut..];
        assert kept + lost == c.content.text;
      }
    }
  }

  /** Near-lossless: with system preservation on, lite mode loses no visible character but the tail
      of a long tool result, data images and messages that repeat the one before. */
  lemma LiteFaithful(msgs: seq<Message>, o: Options, caching: bool, e: Engines) returns (tooled: seq<Message>, keep: seq<nat>)
    requires o.preserve || caching
    requires Compressed(Some(msgs), ModeLite, o, caching, e).Some?
    ensures var out := Compressed(Some(msgs), ModeLite, o, caching, e).value;
            && |keep| == |out| && |tooled| == |msgs|
            && (forall j, k | 0 <= j < k < |keep| :: keep[j] < keep[k])
            && (forall k | 0 <= k < |keep| :: keep[k] < |msgs| && LiteEdit(msgs[keep[k]], out[k]))
            && (forall i | 0 <= i < |msgs| :: LiteEdit(msgs[i], tooled[i]))
            && (forall i | 0 <= i < |msgs| && i !in keep :: Repeats(tooled, i, Effective(o, caching)))
  {
    hide Tokens, LiteEdit, Collapse, CompressTool, WithoutImages, Repeats, Vision;
    var o' := Effective(o, caching);
    var st := Passes(msgs, o', e.sees);
    tooled, keep := st.tooled, Staying(st.tooled, o', |st.tooled|);
    forall i | 0 <= i < |msgs| && !Repeats(tooled, i, o') ensures i in keep {
      StayingAll(tooled, o', |tooled|, i);
    }
    forall i | 0 <= i < |msgs| {
      LiteOne(msgs[i], o', Vision(o', e.sees));
    }
  }
}
