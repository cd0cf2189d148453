/** Standard, ultra and aggressive mode on chat bodies: caveman.go, ultra.go and aggressive.go of
    internal/compression, on top of the text rewriters. */
module Aggressive {
  import opened Seqs
  import opened GoStrings
  import opened Chat
  import CodeBlocks
  import opened Lite
  import opened Caveman
  import opened Ultra
  import opened TrimFences

  /** What the modes take from elsewhere: the rewrite rules, the token scores, which models see
      images, JSON syntax, the file paths and errors found in a text, and the tool-output filters. */
  datatype Engines = Engines(rules: seq<Rule>, score: string -> real, sees: string -> bool, isJson: string -> bool,
                             files: string -> seq<string>, errors: string -> seq<string>,
                             rtk: string -> string, rtkRest: string -> string)

  const FULL := 1
  const MIN_CAVEMAN := 20
  const MIN_ULTRA := 40

  function Changed(msgs: Option<seq<Message>>, out: seq<Message>): Option<seq<Message>> {
    if msgs.None? || msgs.value == [] || out == msgs.value then None else Some(out)
  }

  function ListOf(msgs: Option<seq<Message>>): seq<Message> {
    if msgs.None? then [] else msgs.value
  }

  // ---- standard mode -----------------------------------------------------------------------------

  function CavemanMessage(m: Message, o: Options, e: Engines): Message {
    if Open(m, o) && |m.content.text| >= MIN_CAVEMAN
    then WithText(m, CavemanText(e.rules, m.content.text, m.role, FULL)) else m
  }

  function CavemanMap(o: Options, e: Engines): Message -> Message {
    m => CavemanMessage(m, o, e)
  }

  function StandardResult(msgs: Option<seq<Message>>, o: Options, e: Engines): Option<seq<Message>> {
    Changed(msgs, Each(ListOf(msgs), CavemanMap(o, e)))
  }

  /** The first i messages rewritten by f, the others as they were; applied if one changed. */
  ghost predicate Rewriting(before: seq<Message>, now: seq<Message>, f: Message -> Message, i: nat, applied: bool) {
    && |now| == |before| && i <= |before|
    && (forall k | 0 <= k < |before| :: now[k] == if k < i then f(before[k]) else before[k])
    && (applied <==> exists k | 0 <= k < i :: now[k] != before[k])
  }

  lemma RewriteStart(before: seq<Message>, f: Message -> Message)
    ensures Rewriting(before, before, f, 0, false)
  {
  }

  lemma RewriteStep(before: seq<Message>, now: seq<Message>, f: Message -> Message, i: nat, applied: bool)
    requires Rewriting(before, now, f, i, applied) && i < |before|
    ensures |now| == |before|
    ensures var m := f(before[i]);
            Rewriting(before, if m != before[i] then now[i := m] else now, f, i + 1, applied || m != before[i])
  {
    var m := f(before[i]);
    var next := if m != before[i] then now[i := m] else now;
    assert forall k | 0 <= k < i :: next[k] == now[k];
    assert m != before[i] ==> next[i] != before[i];
  }

  lemma RewriteEnd(before: seq<Message>, now: seq<Message>, f: Message -> Message, applied: bool)
    requires Rewriting(before, now, f, |before|, applied)
    ensures now == Each(before, f) && (applied <==> now != before)
  {
  }

  method CavemanOne(m: Message, o: Options, e: Engines) returns (r: Message)
    ensures r == CavemanMap(o, e)(m)
  {
    if !HasString(m) || Protected(m, o) || |m.content.text| < MIN_CAVEMAN {
      return m;
    }
    var text, used := CavemanRewrite(e.rules, m.content.text, m.role, FULL);
    return if text != m.content.text then WithText(m, text) else m;
  }

  /** The loop over a clone's messages. */
  method CavemanInPlace(out: Body, o: Options, e: Engines) returns (applied: bool)
    requires out.messages.Some?
    modifies out
    ensures out.messages == Some(Each(old(out.messages.value), CavemanMap(o, e)))
    ensures applied <==> out.messages != old(out.messages)
  {
    hide CavemanMap, Rewriting, Each;
    var msgs := out.messages.value;
    applied := false;
    RewriteStart(msgs, CavemanMap(o, e));
    for i := 0 to |msgs|
      invariant out.messages.Some? && |out.messages.value| == |msgs|
      invariant Rewriting(msgs, out.messages.value, CavemanMap(o, e), i, applied)
    {
      RewriteStep(msgs, out.messages.value, CavemanMap(o, e), i, applied);
      var m := CavemanOne(msgs[i], o, e);
      if m != msgs[i] {
        applied := true;
        out.SetMessage(i, m);
      }
    }
    RewriteEnd(msgs, out.messages.value, CavemanMap(o, e), applied);
  }

  method ApplyCaveman(body: Body, o: Options, e: Engines) returns (out: Body, compressed: bool)
    ensures compressed == StandardResult(body.messages, o, e).Some?
    ensures !compressed ==> out == body
    ensures compressed ==> fresh(out) && out.messages == StandardResult(body.messages, o, e) && out.rest == body.rest
  {
    hide CavemanMap, Each;
    if body.List() == [] {
      return body, false;
    }
    out := body.Clone();
    compressed := CavemanInPlace(out, o, e);
    if !compressed {
      out := body;
    }
  }

  // ---- ultra mode --------------------------------------------------------------------------------

  function UltraMessage(m: Message, o: Options, e: Engines): Message {
    if Open(m, o) && |m.content.text| >= MIN_ULTRA
    then WithText(m, UltraText(m.content.text, e.score)) else m
  }

  function UltraMap(o: Options, e: Engines): Message -> Message {
    m => UltraMessage(m, o, e)
  }

  function UltraResult(msgs: Option<seq<Message>>, o: Options, e: Engines): Option<seq<Message>> {
    Changed(msgs, Each(ListOf(msgs), UltraMap(o, e)))
  }

  method UltraOne(m: Message, o: Options, e: Engines) returns (r: Message)
    ensures r == UltraMap(o, e)(m)
  {
    if !HasString(m) || Protected(m, o) || |m.content.text| < MIN_ULTRA {
      return m;
    }
    var text := UltraRewrite(m.content.text, e.score);
    return if |text| < |m.content.text| then WithText(m, text) else m;
  }

  /** The loop over a clone's messages. */
  method UltraInPlace(out: Body, o: Options, e: Engines) returns (applied: bool)
    requires out.messages.Some?
    modifies out
    ensures out.messages == Some(Each(old(out.messages.value), UltraMap(o, e)))
    ensures applied <==> out.messages != old(out.messages)
  {
    hide UltraMap, Rewriting, Each;
    var msgs := out.messages.value;
    applied := false;
    RewriteStart(msgs, UltraMap(o, e));
    for i := 0 to |msgs|
      invariant out.messages.Some? && |out.messages.value| == |msgs|
      invariant Rewriting(msgs, out.messages.value, UltraMap(o, e), i, applied)
    {
      RewriteStep(msgs, out.messages.value, UltraMap(o, e), i, applied);
      var m := UltraOne(msgs[i], o, e);
      if m != msgs[i] {
        applied := true;
        out.SetMessage(i, m);
      }
    }
    RewriteEnd(msgs, out.messages.value, UltraMap(o, e), applied);
  }

  method ApplyUltra(body: Body, o: Options, e: Engines) returns (out: Body, compressed: bool)
    ensures compressed == UltraResult(body.messages, o, e).Some?
    ensures !compressed ==> out == body
    ensures compressed ==> fresh(out) && out.messages == UltraResult(body.messages, o, e) && out.rest == body.rest
  {
    hide UltraMap, Each;
    if body.List() == [] {
      return body, false;
    }
    out := body.Clone();
    compressed := UltraInPlace(out, o, e);
    if !compressed {
      out := body;
    }
  }

  // ---- aggressive mode, step 1: tool output ------------------------------------------------------

  /** Text of tool messages and the content of tool_result blocks go through the filters. */
  function RtkPart(p: Part, tool: bool, e: Engines): Part {
    if !p.Part? then p
    else if tool then
      if p.kind == "text" && p.text.Some? then p.(text := Some(e.rtk(p.text.value))) else p
    else if p.kind == "tool_result" then p.(rest := e.rtkRest(p.rest)) else p
  }

  function RtkParts(parts: seq<Part>, tool: bool, e: Engines): seq<Part> {
    seq(|parts|, i requires 0 <= i < |parts| => RtkPart(parts[i], tool, e))
  }

  function RtkMessage(m: Message, e: Engines): Message {
    if !m.Message? then m
    else if m.kind == "function_call_output" then m.(rest := e.rtkRest(m.rest))
    else match m.content
      case Text(s) => if m.role == "tool" then WithText(m, e.rtk(s)) else m
      case Blocks(parts) => m.(content := Blocks(RtkParts(parts, m.role == "tool", e)))
      case NoText(_) => m
  }

  function RtkMap(e: Engines): Message -> Message {
    m => RtkMessage(m, e)
  }

  /** In place; a hit is a text that became shorter, so a message that changed. */
  method RtkInPlace(out: Body, e: Engines) returns (hit: bool)
    requires out.messages.Some?
    modifies out
    ensures out.messages == Some(Each(old(out.messages.value), RtkMap(e)))
    ensures hit <==> out.messages != old(out.messages)
  {
    hide RtkMap, Rewriting, Each;
    var msgs := out.messages.value;
    hit := false;
    RewriteStart(msgs, RtkMap(e));
    for i := 0 to |msgs|
      invariant out.messages.Some? && |out.messages.value| == |msgs|
      invariant Rewriting(msgs, out.messages.value, RtkMap(e), i, hit)
    {
      RewriteStep(msgs, out.messages.value, RtkMap(e), i, hit);
      var m := RtkMap(e)(msgs[i]);
      if m != msgs[i] {
        hit := true;
        out.SetMessage(i, m);
      }
    }
    RewriteEnd(msgs, out.messages.value, RtkMap(e), hit);
  }

  // ---- summaries ---------------------------------------------------------------------------------

  const MARKER := "[COMPRESSED:"
  const SUMMARY_TAG := "[COMPRESSED:summary]"
  const MAX_TOKENS_PER_MESSAGE := 2048
  const MAX_CHARS := 8192

  function TruncStr(s: string, n: nat): (r: string)
    ensures |r| <= n && r <= s
  {
    if |s| <= n then s else s[..n]
  }

  function FirstLine(s: string): string {
    Split(s, '\n')[0]
  }

  function IntentPart(text: string): seq<string> {
    var intent := TruncStr(TrimSpace(FirstLine(text)), 120);
    if intent == "" then [] else ["Intents: " + intent + "."]
  }

  function ListPart(title: string, items: seq<string>, glue: string): seq<string> {
    if items == [] then [] else [title + Join(items, glue) + "."]
  }

  function DecisionPart(text: string): seq<string> {
    var decision := Trim(text);
    if decision == "" then [] else ["Last decision: " + TruncStr(decision, 200) + "."]
  }

  function SummaryParts(text: string, e: Engines): (parts: seq<string>)
    ensures parts != [] && parts[0] == SUMMARY_TAG
  {
    [SUMMARY_TAG] + IntentPart(text) + ListPart("Files touched: ", e.files(text), ", ")
      + ListPart("Errors: ", e.errors(text), "; ") + DecisionPart(text)
  }

  /** The skeleton of a message, cut to maxLen if that is positive; the code's slice needs room for the dots. */
  function Summary(text: string, maxLen: int, e: Engines): (r: string)
    requires maxLen <= 0 || maxLen >= 3 || TrimSpace(text) == ""
    ensures 0 < maxLen ==> |r| <= maxLen
  {
    if TrimSpace(text) == "" then ""
    else
      var r := Join(SummaryParts(text, e), " ");
      if 0 < maxLen < |r| then r[..maxLen - 3] + "..." else r
  }

  method SummarizeMessage(text: string, maxLen: int, e: Engines) returns (r: string)
    requires maxLen <= 0 || maxLen >= 3 || TrimSpace(text) == ""
    ensures r == Summary(text, maxLen, e)
  {
    if TrimSpace(text) == "" {
      return "";
    }
    var parts := [SUMMARY_TAG];
    var line := TrimSpace(FirstLine(text));
    if line != "" {
      parts := parts + ["Intents: " + TruncStr(line, 120) + "."];
    }
    assert parts == [SUMMARY_TAG] + IntentPart(text);
    var files := e.files(text);
    parts := parts + ListPart("Files touched: ", files, ", ");
    var errs := e.errors(text);
    parts := parts + ListPart("Errors: ", errs, "; ");
    var decision := TrimCodeFences(text);
    if decision != "" {
      parts := parts + ["Last decision: " + TruncStr(decision, 200) + "."];
    }
    assert parts == SummaryParts(text, e);
    r := Join(parts, " ");
    if 0 < maxLen < |r| {
      r := r[..maxLen - 3] + "...";
    }
  }

  predicate Marked(s: string) {
    HasPrefix(TrimSpace(s), MARKER)
  }

  lemma {:induction false} TrimRightKeeps(s: string, p: string)
    requires p <= s && p != "" && !IsSpace(Last(p))
    ensures p <= TrimRight(s)
  {
    if s != "" && IsSpace(Last(s)) {
      assert p[|p| - 1] == s[|p| - 1];
      TrimRightKeeps(Init(s), p);
    }
  }

  /** Text that starts with the marker is marked. */
  lemma StartsMarked(s: string)
    requires MARKER <= s
    ensures Marked(s)
  {
    assert !IsSpace(s[0]);
    TrimRightKeeps(s, MARKER);
  }

  lemma {:induction false} JoinStarts(parts: seq<string>, glue: string)
    requires parts != []
    ensures parts[0] <= Join(parts, glue)
  {
    if |parts| > 1 {
      JoinStarts(Init(parts), glue);
    }
  }

  /** Text that starts with something visible is marked only if the marker is the start. */
  lemma MarkedStarts(s: string)
    requires s != "" && !IsSpace(s[0])
    ensures Marked(s) <==> MARKER <= s
  {
    if MARKER <= s {
      StartsMarked(s);
    } else {
      TrimRightPrefix(s);
    }
  }

  lemma {:induction false} TrimRightPrefix(s: string)
    ensures TrimRight(s) <= s
  {
    if s != "" && IsSpace(Last(s)) {
      TrimRightPrefix(Init(s));
    }
  }

  /** The summary of a text that is not blank carries the marker exactly if the limit has room for it and
      the dots. */
  lemma SummaryMarked(text: string, maxLen: int, e: Engines)
    requires maxLen <= 0 || maxLen >= 3 || TrimSpace(text) == ""
    ensures Marked(Summary(text, maxLen, e)) <==> TrimSpace(text) != "" && (maxLen <= 0 || maxLen >= |MARKER| + 3)
  {
    hide SummaryParts;
    if TrimSpace(text) != "" {
      var parts := SummaryParts(text, e);
      JoinStarts(parts, " ");
      var whole, r := Join(parts, " "), Summary(text, maxLen, e);
      assert MARKER <= SUMMARY_TAG <= whole;
      if 0 < maxLen < |whole| {
        CutMarked(whole, maxLen);
      }
      MarkedStarts(r);
    }
  }

  lemma CutMarked(whole: string, maxLen: int)
    requires MARKER <= whole && 3 <= maxLen < |whole|
    ensures MARKER <= whole[..maxLen - 3] + "..." <==> maxLen >= |MARKER| + 3
    ensures !IsSpace((whole[..maxLen - 3] + "...")[0])
  {
    var n, r := maxLen - 3, whole[..maxLen - 3] + "...";
    assert |MARKER| == 12;
    assert whole[0] == MARKER[0] == '[';
    if n < |MARKER| {
      assert r[n] == '.' != MARKER[n];
    }
  }

  // ---- step 2: aging -----------------------------------------------------------------------------

  const VERBATIM := 2
  const LIGHT := 2
  const MODERATE := 3

  predicate HasSuffix(s: string, suffix: string) {
    |suffix| <= |s| && s[|s| - |suffix|..] == suffix
  }

  datatype Structure = Prose | FencedCode | JsonValue

  function StructuredKind(text: string, e: Engines): Structure {
    var trimmed := TrimSpace(text);
    if HasPrefix(trimmed, CodeBlocks.FENCE) && HasSuffix(trimmed, CodeBlocks.FENCE) then FencedCode
    else if (HasPrefix(trimmed, "{") || HasPrefix(trimmed, "[")) && e.isJson(trimmed) then JsonValue
    else Prose
  }

  function TagAged(tier: string, original: string, compressed: string, e: Engines): string {
    match StructuredKind(original, e)
    case JsonValue => original
    case FencedCode => "[COMPRESSED:aging:" + tier + "]\n" + original
    case Prose => "[COMPRESSED:aging:" + tier + "] " + compressed
  }

  function ModerateText(s: string, e: Engines): string {
    if |s| < MIN_CAVEMAN then s else CavemanText(e.rules, s, "user", FULL)
  }

  function OldText(role: string, s: string, e: Engines): Option<string> {
    if role == "assistant" then Some(Summary(s, 0, e))
    else if role == "user" then Some(TruncStr(FirstLine(s), 120))
    else None
  }

  /** What aging makes of a message that far from the end. */
  function AgeMessage(m: Message, dist: int, o: Options, e: Engines): Message {
    if !Open(m, o) || Marked(m.content.text) || dist <= VERBATIM then m
    else
      var s := m.content.text;
      if dist <= VERBATIM + LIGHT then WithText(m, TagAged("light", s, Normalize(s), e))
      else if dist <= VERBATIM + LIGHT + MODERATE then WithText(m, TagAged("moderate", s, ModerateText(s, e), e))
      else if OldText(m.role, s, e).Some? then WithText(m, TagAged("fullSummary", s, OldText(m.role, s, e).value, e))
      else m
  }

  function Aged(msgs: seq<Message>, o: Options, e: Engines): (r: seq<Message>)
    ensures |r| == |msgs| && forall i | 0 <= i < |msgs| :: r[i] == AgeMessage(msgs[i], |msgs| - 1 - i, o, e)
  {
    seq(|msgs|, i requires 0 <= i < |msgs| => AgeMessage(msgs[i], |msgs| - 1 - i, o, e))
  }

  function Single(s: string): Message {
    Message("", "user", Text(s), "")
  }

  const PLAIN := Options("", false)

  lemma CollapseSingle(s: string)
    ensures Collapse(Single(s), PLAIN) == Single(Normalize(s))
  {
    hide Normalize;
  }

  /** One user message: no system prompt, no tool result, nothing before it. */
  lemma SingleStays(c: seq<Message>, s: string)
    requires c == [Single(s)]
    ensures Dedup(c) == c && Each(c, CompressTool) == c && DropRepeats(c, PLAIN) == c
    ensures !AnyLongTool(c) && !AnyRepeat(c, PLAIN)
  {
    hide Dedup, CompressTool, DropRepeats, LongTool;
    SingleUser(c, s);
    assert !AnyRepeat(c, PLAIN);
    NoneDropped(c, PLAIN);
  }

  lemma SingleUser(c: seq<Message>, s: string)
    requires c == [Single(s)]
    ensures Dedup(c) == c && CompressTool(c[0]) == c[0] && !LongTool(c[0])
  {
    hide CutAt, DedupKey;
    assert Init(c) == [] && Last(c) == c[0];
    assert "user"[0] != SYSTEM[0] && "user"[0] != "tool"[0];
    assert Dedup(Init(c)) == [];
  }

  lemma LiteSingle(s: string, sees: string -> bool)
    ensures LiteResult(Some([Single(s)]), PLAIN, sees) == if Normalize(s) == s then None else Some([Single(Normalize(s))])
  {
    hide Normalize, Dedup, DropRepeats, AnyLongTool, AnyRepeat, AnyDataImage, CompressTool, Collapse, WithoutImages;
    var c := [Single(Normalize(s))];
    CollapseSingle(s);
    assert Each([Single(s)], m => Collapse(m, PLAIN)) == c;
    SingleStays(c, Normalize(s));
    assert Vision(PLAIN, sees);
  }

  lemma CavemanSingle(s: string, e: Engines)
    ensures StandardResult(Some([Single(s)]), PLAIN, e) == if ModerateText(s, e) == s then None else Some([Single(ModerateText(s, e))])
  {
    hide CavemanText;
    assert Each([Single(s)], CavemanMap(PLAIN, e)) == [Single(ModerateText(s, e))];
  }

  method LightOne(s: string, e: Engines) returns (r: string)
    ensures r == Normalize(s)
  {
    hide LiteResult, Normalize;
    var body := new Body(Some([Single(s)]), "");
    LiteSingle(s, e.sees);
    var out, compressed := ApplyLite(body, PLAIN, e.sees);
    r := if compressed then ExtractText(out.List()[0].content) else s;
  }

  method ModerateOne(s: string, e: Engines) returns (r: string)
    ensures r == ModerateText(s, e)
  {
    hide StandardResult, ModerateText;
    var body := new Body(Some([Single(s)]), "");
    CavemanSingle(s, e);
    var out, compressed := ApplyCaveman(body, PLAIN, e);
    r := if compressed then ExtractText(out.List()[0].content) else s;
  }

  method AgeOne(m: Message, dist: int, o: Options, e: Engines) returns (r: Message)
    ensures r == AgeMessage(m, dist, o, e)
  {
    hide TagAged, Normalize, ModerateText, Marked;
    if !m.Message? {
      return m;
    }
    var text := TextOf(m.content);
    if Protected(m, o) || Marked(text) {
      return m;
    }
    if dist <= VERBATIM || !m.content.Text? {
      return m;
    }
    var tier, compressed;
    if dist <= VERBATIM + LIGHT {
      tier := "light";
      compressed := LightOne(text, e);
    } else if dist <= VERBATIM + LIGHT + MODERATE {
      tier := "moderate";
      compressed := ModerateOne(text, e);
    } else {
      tier := "fullSummary";
      if m.role == "assistant" {
        compressed := SummarizeMessage(text, 0, e);
      } else if m.role == "user" {
        compressed := TruncStr(FirstLine(text), 120);
      } else {
        return m;
      }
    }
    var tagged := TagAged(tier, text, compressed, e);
    r := if tagged == text then m else WithText(m, tagged);
  }

  method ApplyAging(msgs: seq<Message>, o: Options, e: Engines) returns (aged: seq<Message>, changed: bool)
    ensures aged == Aged(msgs, o, e) && (changed <==> aged != msgs)
  {
    hide AgeMessage;
    aged, changed := [], false;
    for i := 0 to |msgs|
      invariant |aged| == i && forall k | 0 <= k < i :: aged[k] == AgeMessage(msgs[k], |msgs| - 1 - k, o, e)
      invariant changed <==> exists k | 0 <= k < i :: aged[k] != msgs[k]
    {
      var m := AgeOne(msgs[i], |msgs| - 1 - i, o, e);
      changed := changed || m != msgs[i];
      aged := aged + [m];
    }
  }

  lemma TagMarks(tier: string, s: string, compressed: string, e: Engines)
    ensures TagAged(tier, s, compressed, e) == s || Marked(TagAged(tier, s, compressed, e))
  {
    var tagged := TagAged(tier, s, compressed, e);
    if !StructuredKind(s, e).JsonValue? {
      assert tagged[..|MARKER|] == MARKER;
      StartsMarked(tagged);
    }
  }

  lemma AgeTwice(m: Message, dist: int, o: Options, e: Engines)
    ensures AgeMessage(AgeMessage(m, dist, o, e), dist, o, e) == AgeMessage(m, dist, o, e)
  {
    hide Marked, TagAged, Normalize, ModerateText, OldText;
    if Open(m, o) {
      var s := m.content.text;
      TagMarks("light", s, Normalize(s), e);
      TagMarks("moderate", s, ModerateText(s, e), e);
      if OldText(m.role, s, e).Some? {
        TagMarks("fullSummary", s, OldText(m.role, s, e).value, e);
      }
    }
  }

  /** Aged messages are marked, or structured, and never aged again. */
  lemma AgingIdempotent(msgs: seq<Message>, o: Options, e: Engines)
    ensures Aged(Aged(msgs, o, e), o, e) == Aged(msgs, o, e)
  {
    hide AgeMessage;
    forall i | 0 <= i < |msgs|
      ensures AgeMessage(AgeMessage(msgs[i], |msgs| - 1 - i, o, e), |msgs| - 1 - i, o, e) == AgeMessage(msgs[i], |msgs| - 1 - i, o, e)
    {
      AgeTwice(msgs[i], |msgs| - 1 - i, o, e);
    }
  }

  // ---- step 3: long messages ---------------------------------------------------------------------

  predicate TooLong(m: Message, o: Options) {
    Open(m, o) && !Marked(m.content.text) && |m.content.text| > MAX_CHARS
  }

  function SummarizedMessage(m: Message, o: Options, e: Engines): Message {
    if !TooLong(m, o) then m
    else
      var summary := Summary(m.content.text, MAX_TOKENS_PER_MESSAGE, e);
      if summary != "" && |summary| < |m.content.text| then WithText(m, summary) else m
  }

  function SummaryMap(o: Options, e: Engines): Message -> Message {
    m => SummarizedMessage(m, o, e)
  }

  method SummarizeOne(m: Message, o: Options, e: Engines) returns (r: Message)
    ensures r == SummaryMap(o, e)(m)
  {
    if !HasString(m) || Protected(m, o) || Marked(m.content.text) || |m.content.text| <= MAX_CHARS {
      return m;
    }
    var summary := SummarizeMessage(m.content.text, MAX_TOKENS_PER_MESSAGE, e);
    return if summary != "" && |summary| < |m.content.text| then WithText(m, summary) else m;
  }

  method ApplyFallbackSummarizer(out: Body, o: Options, e: Engines) returns (changed: bool)
    requires out.messages.Some?
    modifies out
    ensures out.messages == Some(Each(old(out.messages.value), SummaryMap(o, e)))
    ensures changed <==> out.messages != old(out.messages)
  {
    hide SummaryMap, Rewriting, Each;
    var msgs := out.messages.value;
    changed := false;
    RewriteStart(msgs, SummaryMap(o, e));
    for i := 0 to |msgs|
      invariant out.messages.Some? && |out.messages.value| == |msgs|
      invariant Rewriting(msgs, out.messages.value, SummaryMap(o, e), i, changed)
    {
      RewriteStep(msgs, out.messages.value, SummaryMap(o, e), i, changed);
      var m := SummarizeOne(msgs[i], o, e);
      if m != msgs[i] {
        changed := true;
        out.SetMessage(i, m);
      }
    }
    RewriteEnd(msgs, out.messages.value, SummaryMap(o, e), changed);
  }

  // ---- the three steps and the fallback chain ----------------------------------------------------

  function Better(msgs: seq<Message>, candidate: Option<seq<Message>>): seq<Message> {
    if candidate.Some? && Tokens(candidate.value) < Tokens(msgs) then candidate.value else msgs
  }

  /** At least 5% saved. */
  predicate SavesEnough(original: nat, current: nat) {
    original > 0 && (original as real - current as real) / original as real >= 0.05
  }

  /** The messages after the caveman fallback. */
  function Fallen(msgs: seq<Message>, o: Options, e: Engines): seq<Message> {
    Better(msgs, StandardResult(Some(msgs), o, e))
  }

  /** The messages after the lite fallback on top of it. */
  function Chained(msgs: seq<Message>, o: Options, e: Engines): seq<Message> {
    Better(Fallen(msgs, o, e), LiteResult(Some(Fallen(msgs, o, e)), o, e.sees))
  }

  function Fallback(original: nat, msgs: seq<Message>, o: Options, e: Engines): seq<Message> {
    if SavesEnough(original, Tokens(msgs)) then msgs else Chained(msgs, o, e)
  }

  function Steps(msgs: seq<Message>, o: Options, e: Engines): seq<Message> {
    Each(Aged(Each(msgs, RtkMap(e)), o, e), SummaryMap(o, e))
  }

  /** No step changed anything. */
  predicate Idle(msgs: seq<Message>, o: Options, e: Engines) {
    Each(msgs, RtkMap(e)) == msgs && Aged(msgs, o, e) == msgs && Each(msgs, SummaryMap(o, e)) == msgs
  }

  function AggressiveResult(msgs: Option<seq<Message>>, o: Options, e: Engines): Option<seq<Message>> {
    if msgs.None? || msgs.value == [] || Idle(msgs.value, o, e) then None
    else Some(Fallback(Tokens(msgs.value), Steps(msgs.value, o, e), o, e))
  }

  method RunSteps(body: Body, o: Options, e: Engines) returns (out: Body, any: bool)
    requires body.messages.Some?
    ensures fresh(out) && out.messages == Some(Steps(body.messages.value, o, e)) && out.rest == body.rest
    ensures any <==> !Idle(body.messages.value, o, e)
  {
    hide Each, RtkMap, SummaryMap, Aged;
    out := body.Clone();
    var hit := RtkInPlace(out, e);
    var b, aged := ApplyAging(out.List(), o, e);
    out.Put(b, aged);
    var summarized := ApplyFallbackSummarizer(out, o, e);
    any := hit || aged || summarized;
  }

  method FallbackChain(out: Body, o: Options, e: Engines) returns (r: Body)
    requires out.messages.Some?
    ensures (r == out || fresh(r)) && r.rest == out.rest
    ensures r.messages == Some(Chained(out.messages.value, o, e))
  {
    hide StandardResult, LiteResult, Better;
    var cav, ok := ApplyCaveman(out, o, e);
    r := Smaller(out, cav, ok);
    var lit, ok' := ApplyLite(r, o, e.sees);
    r := Smaller(r, lit, ok');
  }

  method ApplyAggressive(body: Body, o: Options, e: Engines) returns (out: Body, compressed: bool)
    ensures compressed == AggressiveResult(body.messages, o, e).Some?
    ensures !compressed ==> out == body
    ensures compressed ==> fresh(out) && out.messages == AggressiveResult(body.messages, o, e) && out.rest == body.rest
  {
    hide Steps, Idle, Better, StandardResult, LiteResult, Tokens;
    if body.List() == [] {
      return body, false;
    }
    out, compressed := RunSteps(body, o, e);
    if !compressed {
      return body, false;
    }
    var original := body.SnapshotTokens();
    var current := out.SnapshotTokens();
    var savings := if original > 0 then (original as real - current as real) / original as real else 0.0;
    if savings < 0.05 {
      out := FallbackChain(out, o, e);
    }
  }

  method Smaller(out: Body, other: Body, ok: bool) returns (r: Body)
    requires out.messages.Some? && (ok ==> other.messages.Some?)
    ensures r == out || (ok && r == other)
    ensures r.messages == Some(Better(out.messages.value, if ok then other.messages else None))
  {
    hide Tokens;
    if ok {
      var n := other.SnapshotTokens();
      var before := out.SnapshotTokens();
      if n < before {
        return other;
      }
    }
    return out;
  }
}
