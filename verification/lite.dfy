/** Lite mode: the five near-lossless passes of internal/compression/lite.go. */
module Lite {
  import opened Seqs
  import opened GoStrings
  import opened Chat

  const MAX_TOOL_LENGTH := 2000
  const LOOKBACK := 80
  const TRUNCATED := "\n...[truncated]"

  // ---- pass 1: whitespace ------------------------------------------------------------------------

  /** How many newlines s ends in. */
  function Trailing(s: string): nat {
    if s != "" && Last(s) == '\n' then 1 + Trailing(Init(s)) else 0
  }

  /** Newlines after the second of a run are dropped. */
  function CollapseRuns(s: string): string {
    if s == "" then ""
    else CollapseRuns(Init(s)) + if Last(s) == '\n' && Trailing(s) > 2 then "" else [Last(s)]
  }

  predicate Blank(c: char) {
    c == ' ' || c == '\t'
  }

  function TrimBlanks(line: string): string {
    if line != "" && Blank(Last(line)) then TrimBlanks(Init(line)) else line
  }

  function TrimLines(lines: seq<string>): (r: seq<string>)
    ensures |r| == |lines|
  {
    if lines == [] then [] else TrimLines(Init(lines)) + [TrimBlanks(Last(lines))]
  }

  function Normalize(s: string): string {
    Join(TrimLines(Split(CollapseRuns(s), '\n')), "\n")
  }

  method CollapseNewlineRuns(s: string) returns (b: string)
    ensures b == CollapseRuns(s)
  {
    b := "";
    var run := 0;
    for i := 0 to |s|
      invariant b == CollapseRuns(s[..i]) && run == Trailing(s[..i])
    {
      assert Init(s[..i + 1]) == s[..i];
      if s[i] == '\n' {
        run := run + 1;
        if run <= 2 {
          b := b + [s[i]];
        }
      } else {
        run := 0;
        b := b + [s[i]];
      }
    }
    assert s[..|s|] == s;
  }

  method NormalizeWhitespace(s: string) returns (r: string)
    ensures r == Normalize(s)
  {
    var t := CollapseNewlineRuns(s);
    var lines := Split(t, '\n');
    var trimmed: seq<string> := [];
    for i := 0 to |lines|
      invariant trimmed == TrimLines(lines[..i])
    {
      assert Init(lines[..i + 1]) == lines[..i];
      trimmed := trimmed + [TrimBlanks(lines[i])];
    }
    assert lines[..|lines|] == lines;
    r := Join(trimmed, "\n");
  }

  /** The characters that are not blanks or newlines, in order. */
  function Visible(s: string): string {
    if s == "" then ""
    else Visible(Init(s)) + if Blank(Last(s)) || Last(s) == '\n' then "" else [Last(s)]
  }

  lemma {:induction false} VisiblePlus(a: string, b: string)
    ensures Visible(a + b) == Visible(a) + Visible(b)
  {
    if b == "" {
      assert a + b == a;
    } else {
      VisiblePlus(a, Init(b));
      assert Init(a + b) == a + Init(b);
    }
  }

  lemma {:induction false} VisibleCollapse(s: string)
    ensures Visible(CollapseRuns(s)) == Visible(s)
  {
    if s != "" {
      VisibleCollapse(Init(s));
      var front := CollapseRuns(Init(s));
      if Last(s) == '\n' && Trailing(s) > 2 {
        assert front + "" == front && Visible(Init(s)) + "" == Visible(Init(s));
      } else {
        VisiblePlus(front, [Last(s)]);
        assert Init([Last(s)]) == "" && Visible("") == "";
        assert Init(s) + [Last(s)] == s;
        VisiblePlus(Init(s), [Last(s)]);
      }
    }
  }

  lemma {:induction false} VisibleTrim(line: string)
    ensures Visible(TrimBlanks(line)) == Visible(line)
  {
    if line != "" && Blank(Last(line)) {
      VisibleTrim(Init(line));
    }
  }

  lemma {:induction false} VisibleLines(lines: seq<string>)
    ensures Visible(Join(TrimLines(lines), "\n")) == Visible(Join(lines, "\n"))
  {
    if lines != [] {
      VisibleTrim(Last(lines));
      if |lines| > 1 {
        var front := Init(lines);
        VisibleLines(front);
        InitLast(lines);
        JoinSnoc(front, "\n", Last(lines));
        JoinSnoc(TrimLines(front), "\n", TrimBlanks(Last(lines)));
        VisiblePlus(Join(front, "\n") + "\n", Last(lines));
        VisiblePlus(Join(front, "\n"), "\n");
        VisiblePlus(Join(TrimLines(front), "\n") + "\n", TrimBlanks(Last(lines)));
        VisiblePlus(Join(TrimLines(front), "\n"), "\n");
      }
    }
  }

  /** Normalising whitespace loses no other character. */
  lemma NormalizeVisible(s: string)
    ensures Visible(Normalize(s)) == Visible(s)
  {
    VisibleCollapse(s);
    VisibleLines(Split(CollapseRuns(s), '\n'));
    JoinSplit(CollapseRuns(s), '\n');
  }

  predicate Open(m: Message, o: Options) {
    HasString(m) && !Protected(m, o)
  }

  function Collapse(m: Message, o: Options): Message {
    if Open(m, o) && Normalize(m.content.text) != m.content.text then WithText(m, Normalize(m.content.text)) else m
  }

  ghost predicate Collapsed(msgs: seq<Message>, o: Options, out: seq<Message>) {
    |out| == |msgs| && forall i | 0 <= i < |msgs| :: out[i] == Collapse(msgs[i], o)
  }

  method CollapseOne(m: Message, o: Options) returns (r: Message, applied: bool)
    ensures r == Collapse(m, o) && (applied <==> r != m)
  {
    if !HasString(m) || Protected(m, o) {
      return m, false;
    }
    var norm := NormalizeWhitespace(m.content.text);
    if norm == m.content.text {
      return m, false;
    }
    return WithText(m, norm), true;
  }

  method CollapseWhitespace(msgs: seq<Message>, o: Options) returns (out: seq<Message>, applied: bool)
    ensures Collapsed(msgs, o, out) && (applied <==> out != msgs)
  {
    hide Collapse;
    out, applied := [], false;
    for i := 0 to |msgs|
      invariant |out| == i && forall j | 0 <= j < i :: out[j] == Collapse(msgs[j], o)
      invariant applied <==> exists j | 0 <= j < i :: out[j] != msgs[j]
    {
      var m, changed := CollapseOne(msgs[i], o);
      applied := applied || changed;
      out := out + [m];
    }
  }

  // ---- pass 2: duplicate system prompts ----------------------------------------------------------

  function DedupKey(s: string): string {
    var t := TrimSpace(s);
    if |t| <= 200 then t else t[..200]
  }

  predicate SystemText(m: Message) {
    HasString(m) && m.role == SYSTEM
  }

  /** The keys of the system messages so far. */
  function Seen(msgs: seq<Message>): set<string> {
    if msgs == [] then {}
    else Seen(Init(msgs)) + if SystemText(Last(msgs)) then {DedupKey(Last(msgs).content.text)} else {}
  }

  function Dedup(msgs: seq<Message>): seq<Message> {
    if msgs == [] then []
    else
      var m := Last(msgs);
      Dedup(Init(msgs)) + if SystemText(m) && DedupKey(m.content.text) in Seen(Init(msgs)) then [] else [m]
  }

  lemma {:induction false} DedupShorter(msgs: seq<Message>)
    ensures |Dedup(msgs)| <= |msgs| && (|Dedup(msgs)| == |msgs| ==> Dedup(msgs) == msgs)
  {
    if msgs != [] {
      DedupShorter(Init(msgs));
    }
  }

  lemma DedupSnoc(msgs: seq<Message>, m: Message)
    ensures Dedup(msgs + [m]) == Dedup(msgs) + if SystemText(m) && DedupKey(m.content.text) in Seen(msgs) then [] else [m]
    ensures Seen(msgs + [m]) == Seen(msgs) + if SystemText(m) then {DedupKey(m.content.text)} else {}
  {
    assert Init(msgs + [m]) == msgs;
  }

  method DedupSystemPrompt(msgs: seq<Message>, o: Options) returns (out: seq<Message>, applied: bool)
    ensures out == (if o.preserve then msgs else Dedup(msgs))
    ensures applied <==> out != msgs
  {
    if o.preserve {
      return msgs, false;
    }
    hide Dedup, Seen, DedupKey;
    var seen: set<string> := {};
    out, applied := [], false;
    DedupNothing();
    assert msgs[..0] == [];
    for i := 0 to |msgs|
      invariant out == Dedup(msgs[..i]) && seen == Seen(msgs[..i])
      invariant applied <==> |out| < i
      invariant |out| <= i
    {
      assert msgs[..i + 1] == msgs[..i] + [msgs[i]];
      DedupSnoc(msgs[..i], msgs[i]);
      var m := msgs[i];
      if !SystemText(m) {
        out := out + [m];
        continue;
      }
      var key := DedupKey(m.content.text);
      if key in seen {
        applied := true;
        continue;
      }
      seen := seen + {key};
      out := out + [m];
    }
    assert msgs[..|msgs|] == msgs;
    DedupShorter(msgs);
  }

  lemma DedupNothing()
    ensures Dedup([]) == [] && Seen([]) == {}
  {
  }

  // ---- pass 3: long tool results -----------------------------------------------------------------

  predicate WordChar(c: char) {
    c != ' ' && c != '\t' && c != '\n' && c != '\r'
  }

  /** Position i of s lies between two words or at an end of one. */
  predicate Boundary(s: string, i: nat)
    requires 0 < i < |s|
  {
    !WordChar(s[i - 1]) || !WordChar(s[i])
  }

  /** Nearest space at or below i - 1 and not below lo; -1 if none. */
  function SpaceBefore(s: string, i: nat, lo: nat): (r: int)
    requires i <= |s|
    ensures r == -1 || (lo <= r < i && !WordChar(s[r]) && forall k | r < k < i :: WordChar(s[k]))
    ensures r == -1 ==> forall k | lo <= k < i :: WordChar(s[k])
  {
    if i <= lo then -1 else if !WordChar(s[i - 1]) then i - 1 else SpaceBefore(s, i - 1, lo)
  }

  /** Nearest space from i on, below hi; -1 if none. */
  function SpaceAfter(s: string, i: nat, hi: nat): (r: int)
    requires hi <= |s|
    ensures r == -1 || (i <= r < hi && !WordChar(s[r]) && forall k | i <= k < r :: WordChar(s[k]))
    ensures r == -1 ==> forall k | i <= k < hi :: WordChar(s[k])
    decreases hi - i
  {
    if i >= hi then -1 else if !WordChar(s[i]) then i else SpaceAfter(s, i + 1, hi)
  }

  /** Where to cut s so as not to split a word: the hard cut, or the nearest space before it, or the
      nearest one after it, within the lookback. */
  function CutAt(s: string, cut: nat): (r: nat)
    requires 0 < cut < |s|
    ensures r < |s| && (r <= cut ==> cut - r <= LOOKBACK) && (cut <= r ==> r - cut < LOOKBACK)
    ensures (0 < r && Boundary(s, r)) || (r == 0 && !WordChar(s[0]))
         || (r == cut && forall k | 0 <= k < |s| && cut - LOOKBACK <= k < cut + LOOKBACK :: WordChar(s[k]))
  {
    var lo := if cut < LOOKBACK then 0 else cut - LOOKBACK;
    var hi := if cut + LOOKBACK > |s| then |s| else cut + LOOKBACK;
    if Boundary(s, cut) then cut
    else if SpaceBefore(s, cut, lo) >= 0 then SpaceBefore(s, cut, lo)
    else if SpaceAfter(s, cut, hi) >= 0 then SpaceAfter(s, cut, hi)
    else cut
  }

  method BackOffToWordBoundary(s: string, cut: int) returns (r: int)
    ensures r == if 0 < cut < |s| then CutAt(s, cut) else cut
  {
    if cut <= 0 || cut >= |s| {
      return cut;
    }
    if !WordChar(s[cut - 1]) || !WordChar(s[cut]) {
      return cut;
    }
    var lo := if cut < LOOKBACK then 0 else cut - LOOKBACK;
    var i := cut;
    while i > lo
      invariant lo <= i <= cut && SpaceBefore(s, cut, lo) == SpaceBefore(s, i, lo)
    {
      if !WordChar(s[i - 1]) {
        return i - 1;
      }
      i := i - 1;
    }
    var hi := if cut + LOOKBACK > |s| then |s| else cut + LOOKBACK;
    i := cut;
    while i < hi
      invariant cut <= i <= hi && SpaceAfter(s, cut, hi) == SpaceAfter(s, i, hi)
    {
      if !WordChar(s[i]) {
        return i;
      }
      i := i + 1;
    }
    return cut;
  }

  predicate LongTool(m: Message) {
    HasString(m) && m.role == "tool" && |m.content.text| > MAX_TOOL_LENGTH
  }

  function CompressTool(m: Message): Message {
    if LongTool(m) then WithText(m, m.content.text[..CutAt(m.content.text, MAX_TOOL_LENGTH)] + TRUNCATED) else m
  }

  predicate AnyLongTool(msgs: seq<Message>) {
    exists i | 0 <= i < |msgs| :: LongTool(msgs[i])
  }

  ghost predicate Tooled(msgs: seq<Message>, out: seq<Message>) {
    |out| == |msgs| && forall i | 0 <= i < |msgs| :: out[i] == CompressTool(msgs[i])
  }

  method CompressToolResults(msgs: seq<Message>) returns (out: seq<Message>, applied: bool)
    ensures Tooled(msgs, out) && (applied <==> AnyLongTool(msgs))
  {
    out, applied := [], false;
    for i := 0 to |msgs|
      invariant |out| == i && forall j | 0 <= j < i :: out[j] == CompressTool(msgs[j])
      invariant applied <==> exists j | 0 <= j < i :: LongTool(msgs[j])
    {
      var m := msgs[i];
      if HasString(m) && m.role == "tool" && |m.content.text| > MAX_TOOL_LENGTH {
        applied := true;
        var cut := BackOffToWordBoundary(m.content.text, MAX_TOOL_LENGTH);
        m := WithText(m, m.content.text[..cut] + TRUNCATED);
      }
      out := out + [m];
    }
  }

  // ---- pass 4: repeated messages -----------------------------------------------------------------

  /** Message i says what the message before it said, in the same role. */
  predicate Repeats(msgs: seq<Message>, i: nat, o: Options)
    requires i < |msgs|
  {
    && i > 0 && msgs[i].Message? && msgs[i - 1].Message? && !Protected(msgs[i], o)
    && msgs[i].role == msgs[i - 1].role
    && ExtractText(msgs[i].content) == ExtractText(msgs[i - 1].content) != ""
  }

  /** The positions below n that stay. */
  function Staying(msgs: seq<Message>, o: Options, n: nat): (keep: seq<nat>)
    requires n <= |msgs|
    ensures forall k | 0 <= k < |keep| :: keep[k] < n && !Repeats(msgs, keep[k], o)
    ensures forall a, b | 0 <= a < b < |keep| :: keep[a] < keep[b]
  {
    if n == 0 then [] else Staying(msgs, o, n - 1) + if Repeats(msgs, n - 1, o) then [] else [n - 1]
  }

  lemma {:induction false} StayingAll(msgs: seq<Message>, o: Options, n: nat, i: nat)
    requires n <= |msgs| && i < n && !Repeats(msgs, i, o)
    ensures i in Staying(msgs, o, n)
  {
    if i < n - 1 {
      StayingAll(msgs, o, n - 1, i);
    }
  }

  function At(msgs: seq<Message>, keep: seq<nat>): (r: seq<Message>)
    requires forall k | 0 <= k < |keep| :: keep[k] < |msgs|
    ensures |r| == |keep| && forall k | 0 <= k < |keep| :: r[k] == msgs[keep[k]]
  {
    seq(|keep|, k requires 0 <= k < |keep| => msgs[keep[k]])
  }

  function DropRepeats(msgs: seq<Message>, o: Options): seq<Message> {
    At(msgs, Staying(msgs, o, |msgs|))
  }

  lemma StayingSnoc(msgs: seq<Message>, o: Options, i: nat)
    requires i < |msgs|
    ensures At(msgs, Staying(msgs, o, i + 1)) == At(msgs, Staying(msgs, o, i)) + if Repeats(msgs, i, o) then [] else [msgs[i]]
  {
  }

  predicate AnyRepeat(msgs: seq<Message>, o: Options) {
    exists i | 0 <= i < |msgs| :: Repeats(msgs, i, o)
  }

  method SameAsBefore(msgs: seq<Message>, i: nat, o: Options) returns (same: bool)
    requires i < |msgs|
    ensures same <==> Repeats(msgs, i, o)
  {
    var m := msgs[i];
    if !m.Message? || Protected(m, o) || i == 0 {
      return false;
    }
    var prev := msgs[i - 1];
    if !prev.Message? || prev.role != m.role {
      return false;
    }
    var before := TextOf(prev.content);
    var here := TextOf(m.content);
    return before == here && here != "";
  }

  method RemoveRedundantContent(msgs: seq<Message>, o: Options) returns (out: seq<Message>, applied: bool)
    ensures out == DropRepeats(msgs, o)
    ensures applied <==> AnyRepeat(msgs, o)
  {
    hide Repeats, Staying, At;
    out, applied := [], false;
    StayingNone(msgs, o);
    for i := 0 to |msgs|
      invariant out == At(msgs, Staying(msgs, o, i))
      invariant applied <==> exists j | 0 <= j < i :: Repeats(msgs, j, o)
    {
      StayingSnoc(msgs, o, i);
      var same := SameAsBefore(msgs, i, o);
      if same {
        applied := true;
        continue;
      }
      out := out + [msgs[i]];
    }
  }

  lemma StayingNone(msgs: seq<Message>, o: Options)
    ensures At(msgs, Staying(msgs, o, 0)) == []
  {
  }

  // ---- pass 5: images ----------------------------------------------------------------------------

  const DATA_IMAGE := "data:image/"

  predicate DataImage(p: Part) {
    p.Part? && p.kind == "image_url" && DATA_IMAGE <= p.url
  }

  /** What stands between the first slash of the URL and the next semicolon. */
  function FormatName(url: string): string {
    var slash := IndexOf(url, "/");
    if slash < 0 then "unknown"
    else
      var rest := url[slash + 1..];
      var semi := IndexOf(rest, ";");
      if semi >= 0 then rest[..semi] else "unknown"
  }

  function Placeholder(p: Part): Part {
    if DataImage(p) then Part("text", Some("[image: " + FormatName(p.url) + "]"), "", "") else p
  }

  function Placeholders(parts: seq<Part>): (r: seq<Part>)
    ensures |r| == |parts| && forall i | 0 <= i < |parts| :: r[i] == Placeholder(parts[i])
  {
    seq(|parts|, i requires 0 <= i < |parts| => Placeholder(parts[i]))
  }

  predicate HasDataImage(m: Message) {
    m.Message? && m.content.Blocks? && exists p | p in m.content.parts :: DataImage(p)
  }

  function WithoutImages(m: Message): Message {
    if HasDataImage(m) then m.(content := Blocks(Placeholders(m.content.parts))) else m
  }

  predicate AnyDataImage(msgs: seq<Message>) {
    exists i | 0 <= i < |msgs| :: HasDataImage(msgs[i])
  }

  ghost predicate Imaged(msgs: seq<Message>, vision: bool, out: seq<Message>) {
    if vision then out == msgs else |out| == |msgs| && forall i | 0 <= i < |msgs| :: out[i] == WithoutImages(msgs[i])
  }

  method ReplaceImageURLs(msgs: seq<Message>, vision: bool) returns (out: seq<Message>, applied: bool)
    ensures Imaged(msgs, vision, out) && (applied <==> !vision && AnyDataImage(msgs))
  {
    if vision {
      return msgs, false;
    }
    out, applied := [], false;
    for i := 0 to |msgs|
      invariant |out| == i && forall j | 0 <= j < i :: out[j] == WithoutImages(msgs[j])
      invariant applied <==> exists j | 0 <= j < i :: HasDataImage(msgs[j])
    {
      var m := msgs[i];
      if m.Message? && m.content.Blocks? {
        var parts, changed := ReplaceParts(m.content.parts);
        if changed {
          applied := true;
          m := m.(content := Blocks(parts));
        }
      }
      out := out + [m];
    }
  }

  method ReplacePart(p: Part) returns (r: Part, changed: bool)
    ensures r == Placeholder(p) && (changed <==> DataImage(p))
  {
    if !p.Part? || p.kind != "image_url" || !(DATA_IMAGE <= p.url) {
      return p, false;
    }
    return Part("text", Some("[image: " + FormatName(p.url) + "]"), "", ""), true;
  }

  method ReplaceParts(parts: seq<Part>) returns (out: seq<Part>, changed: bool)
    ensures out == Placeholders(parts)
    ensures changed <==> exists p | p in parts :: DataImage(p)
  {
    hide Placeholder, DataImage;
    out, changed := [], false;
    for j := 0 to |parts|
      invariant |out| == j && forall k | 0 <= k < j :: out[k] == Placeholder(parts[k])
      invariant changed <==> exists k | 0 <= k < j :: DataImage(parts[k])
    {
      var p, data := ReplacePart(parts[j]);
      changed := changed || data;
      out := out + [p];
    }
  }

  // ---- the five passes ---------------------------------------------------------------------------

  function Each(msgs: seq<Message>, f: Message -> Message): (r: seq<Message>)
    ensures |r| == |msgs| && forall i | 0 <= i < |msgs| :: r[i] == f(msgs[i])
  {
    seq(|msgs|, i requires 0 <= i < |msgs| => f(msgs[i]))
  }

  /** A model without a name is taken to see images; `sees` tests a name against the known fragments. */
  predicate Vision(o: Options, sees: string -> bool) {
    o.model == "" || sees(o.model)
  }

  /** The messages after each of the five passes. */
  datatype Stages = Stages(collapsed: seq<Message>, deduped: seq<Message>, tooled: seq<Message>,
                           dropped: seq<Message>, imaged: seq<Message>)

  function Passes(msgs: seq<Message>, o: Options, sees: string -> bool): Stages {
    var collapsed := Each(msgs, m => Collapse(m, o));
    var deduped := if o.preserve then collapsed else Dedup(collapsed);
    var tooled := Each(deduped, CompressTool);
    var dropped := DropRepeats(tooled, o);
    Stages(collapsed, deduped, tooled, dropped, if Vision(o, sees) then dropped else Each(dropped, WithoutImages))
  }

  predicate Applied(msgs: seq<Message>, st: Stages, o: Options, sees: string -> bool) {
    || st.collapsed != msgs
    || st.deduped != st.collapsed
    || AnyLongTool(st.deduped)
    || AnyRepeat(st.tooled, o)
    || (!Vision(o, sees) && AnyDataImage(st.dropped))
  }

  /** The messages lite mode hands back; None when no pass did anything. */
  function LiteResult(msgs: Option<seq<Message>>, o: Options, sees: string -> bool): Option<seq<Message>> {
    if msgs.None? then None
    else
      var st := Passes(msgs.value, o, sees);
      if Applied(msgs.value, st, o, sees) then Some(st.imaged) else None
  }

  method RunPasses(out: Body, o: Options, sees: string -> bool) returns (any: bool)
    requires out.messages.Some?
    modifies out
    ensures out.messages == Some(Passes(old(out.messages.value), o, sees).imaged)
    ensures any <==> Applied(old(out.messages.value), Passes(old(out.messages.value), o, sees), o, sees)
  {
    hide Collapsed, Dedup, Tooled, DropRepeats, Imaged, AnyLongTool, AnyRepeat, AnyDataImage, Passes, Vision;
    var msgs := out.messages.value;
    var a, ok1 := CollapseWhitespace(msgs, o);
    out.Put(a, ok1);
    var b, ok2 := DedupSystemPrompt(a, o);
    out.Put(b, ok2);
    var c, ok3 := CompressToolResults(b);
    NoLongTool(b, c);
    out.Put(c, ok3);
    var d, ok4 := RemoveRedundantContent(c, o);
    NoneDropped(c, o);
    out.Put(d, ok4);
    var vision := Vision(o, sees);
    var e, ok5 := ReplaceImageURLs(d, vision);
    NoImages(d, vision, e);
    out.Put(e, ok5);
    LiteStages(msgs, o, sees, Stages(a, b, c, d, e));
    any := ok1 || ok2 || ok3 || ok4 || ok5;
  }

  method ApplyLite(body: Body, o: Options, sees: string -> bool) returns (out: Body, compressed: bool)
    ensures compressed == LiteResult(body.messages, o, sees).Some?
    ensures !compressed ==> out == body
    ensures compressed ==> fresh(out) && out.messages == LiteResult(body.messages, o, sees) && out.rest == body.rest
  {
    hide Passes, Applied;
    if body.messages.None? {
      return body, false;
    }
    out := body.Clone();
    compressed := RunPasses(out, o, sees);
    if !compressed {
      out := body;
    }
  }

  lemma LiteStages(msgs: seq<Message>, o: Options, sees: string -> bool, st: Stages)
    requires Collapsed(msgs, o, st.collapsed)
    requires st.deduped == if o.preserve then st.collapsed else Dedup(st.collapsed)
    requires Tooled(st.deduped, st.tooled)
    requires st.dropped == DropRepeats(st.tooled, o)
    requires Imaged(st.dropped, Vision(o, sees), st.imaged)
    ensures Passes(msgs, o, sees) == st
  {
    hide Collapse, Dedup, CompressTool, DropRepeats, WithoutImages, Vision;
    var p := Passes(msgs, o, sees);
    assert p.collapsed == st.collapsed;
    assert p.tooled == st.tooled;
    assert p.imaged == st.imaged;
  }

  lemma NoLongTool(b: seq<Message>, c: seq<Message>)
    requires Tooled(b, c)
    ensures AnyLongTool(b) || c == b
  {
  }

  lemma NoImages(d: seq<Message>, vision: bool, e: seq<Message>)
    requires Imaged(d, vision, e)
    ensures (!vision && AnyDataImage(d)) || e == d
  {
  }

  lemma {:induction false} AllStay(msgs: seq<Message>, o: Options, n: nat)
    requires n <= |msgs| && forall i | 0 <= i < |msgs| :: !Repeats(msgs, i, o)
    ensures |Staying(msgs, o, n)| == n && forall k | 0 <= k < n :: Staying(msgs, o, n)[k] == k
  {
    if n > 0 {
      AllStay(msgs, o, n - 1);
    }
  }

  lemma NoneDropped(msgs: seq<Message>, o: Options)
    ensures AnyRepeat(msgs, o) || DropRepeats(msgs, o) == msgs
  {
    if !AnyRepeat(msgs, o) {
      AllStay(msgs, o, |msgs|);
    }
  }
}
