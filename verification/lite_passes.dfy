/** The five passes of lite mode, each written out in the terms of the messages alone. */
module LitePasses {
  import opened Seqs
  import opened GoStrings
  import opened Chat
  import opened Lite

  // ---- whitespace --------------------------------------------------------------------------------

  /** A newline with two newlines right before it. */
  predicate ThirdNewline(s: string, i: nat)
    requires i < |s|
  {
    i >= 2 && s[i] == '\n' && s[i - 1] == '\n' && s[i - 2] == '\n'
  }

  lemma {:induction false} TrailingIs(s: string)
    ensures Trailing(s) <= |s|
    ensures Trailing(s) > 2 <==> |s| >= 3 && ThirdNewline(s, |s| - 1)
    ensures Trailing(s) >= 1 <==> s != "" && Last(s) == '\n'
    ensures Trailing(s) >= 2 <==> |s| >= 2 && s[|s| - 1] == '\n' && s[|s| - 2] == '\n'
  {
    if s != "" && Last(s) == '\n' {
      TrailingIs(Init(s));
    }
  }

  function ThirdFlags(s: string): (g: seq<bool>)
    ensures |g| == |s| && forall i | 0 <= i < |s| :: g[i] == ThirdNewline(s, i)
  {
    seq(|s|, i requires 0 <= i < |s| => ThirdNewline(s, i))
  }

  /** r is s with the third newline of every run, and those after it, gone. */
  ghost predicate RunsCut(s: string, r: string, idx: seq<int>) {
    Remaining(s, ThirdFlags(s), r, idx)
  }

  lemma ThirdSnoc(s: string, c: char)
    ensures ThirdFlags(s + [c]) == ThirdFlags(s) + [ThirdNewline(s + [c], |s|)]
  {
    forall i | 0 <= i < |s| ensures ThirdNewline(s + [c], i) <==> ThirdNewline(s, i) {
      assert forall j | 0 <= j <= i :: (s + [c])[j] == s[j];
    }
  }

  /** Runs of newlines are cut to two; every other character stays. */
  lemma {:induction false} CollapseRunsIs(s: string) returns (idx: seq<int>)
    ensures RunsCut(s, CollapseRuns(s), idx)
  {
    hide Remaining;
    if s == "" {
      idx := [];
      NothingCut();
    } else {
      var before := CollapseRunsIs(Init(s));
      InitLast(s);
      ThirdSnoc(Init(s), Last(s));
      RemainingSnoc(Init(s), ThirdFlags(Init(s)), CollapseRuns(Init(s)), before, Last(s), ThirdNewline(s, |s| - 1));
      TrailingIs(s);
      idx := if ThirdNewline(s, |s| - 1) then before else before + [|s| - 1];
      assert CollapseRuns(Init(s)) + "" == CollapseRuns(Init(s));
    }
  }

  lemma NothingCut()
    ensures RunsCut("", CollapseRuns(""), [])
  {
  }

  /** A line without the blanks and tabs at its end. */
  ghost predicate EndTrimmed(line: string, r: string) {
    && r <= line && (forall i | |r| <= i < |line| :: line[i] in {' ', '\t'})
    && (r != "" ==> Last(r) !in {' ', '\t'})
  }

  lemma {:induction false} TrimBlanksIs(line: string)
    ensures EndTrimmed(line, TrimBlanks(line))
  {
    if line != "" && Blank(Last(line)) {
      TrimBlanksIs(Init(line));
    }
  }

  lemma {:induction false} TrimLinesIs(lines: seq<string>)
    ensures forall i | 0 <= i < |lines| :: EndTrimmed(lines[i], TrimLines(lines)[i])
  {
    hide EndTrimmed;
    if lines != [] {
      TrimLinesIs(Init(lines));
      TrimBlanksIs(Last(lines));
    }
  }

  /** Normalising: runs of newlines are cut to two, then every line loses the blanks at its end. */
  lemma NormalizeIs(s: string) returns (idx: seq<int>, cut: string, trimmed: seq<string>)
    ensures RunsCut(s, cut, idx)
    ensures |trimmed| == |Split(cut, '\n')| && Normalize(s) == Join(trimmed, "\n")
    ensures forall i | 0 <= i < |trimmed| :: EndTrimmed(Split(cut, '\n')[i], trimmed[i])
  {
    hide RunsCut, EndTrimmed, Split;
    idx := CollapseRunsIs(s);
    cut := CollapseRuns(s);
    trimmed := TrimLines(Split(cut, '\n'));
    TrimLinesIs(Split(cut, '\n'));
  }

  /** A message of which the whitespace pass normalises the text. */
  predicate Normalised(m: Message, o: Options) {
    m.Message? && m.content.Text? && !(o.preserve && m.role == "system")
  }

  lemma CollapseIs(m: Message, o: Options)
    ensures Collapse(m, o) == if Normalised(m, o) then m.(content := Text(Normalize(m.content.text))) else m
  {
    hide Normalize;
  }

  // ---- duplicate system prompts --------------------------------------------------------------------

  predicate SystemString(m: Message) {
    m.Message? && m.content.Text? && m.role == "system"
  }

  /** The first 200 characters of the trimmed text. */
  function KeyOf(m: Message): string
    requires SystemString(m)
  {
    var t := TrimSpace(m.content.text);
    if |t| <= 200 then t else t[..200]
  }

  predicate Doubled(msgs: seq<Message>, i: nat)
    requires i < |msgs|
  {
    SystemString(msgs[i]) && exists j | 0 <= j < i :: SystemString(msgs[j]) && KeyOf(msgs[j]) == KeyOf(msgs[i])
  }

  lemma {:induction false} SeenIs(msgs: seq<Message>, key: string)
    ensures key in Seen(msgs) <==> exists j | 0 <= j < |msgs| :: SystemString(msgs[j]) && KeyOf(msgs[j]) == key
  {
    hide DedupKey, TrimSpace;
    if msgs != [] {
      var front := Init(msgs);
      SeenIs(front, key);
      LastKey(Last(msgs));
      if key in Seen(front) {
        var j :| 0 <= j < |front| && SystemString(front[j]) && KeyOf(front[j]) == key;
        assert msgs[j] == front[j];
      }
      if exists j | 0 <= j < |msgs| :: SystemString(msgs[j]) && KeyOf(msgs[j]) == key {
        var j :| 0 <= j < |msgs| && SystemString(msgs[j]) && KeyOf(msgs[j]) == key;
        assert j < |front| ==> front[j] == msgs[j];
      }
      assert msgs[|msgs| - 1] == Last(msgs);
    }
  }

  lemma LastKey(m: Message)
    ensures SystemText(m) <==> SystemString(m)
    ensures SystemString(m) ==> KeyOf(m) == DedupKey(m.content.text)
  {
    hide TrimSpace;
  }

  function DoubledFlags(msgs: seq<Message>): (g: seq<bool>)
    ensures |g| == |msgs| && forall i | 0 <= i < |msgs| :: g[i] == Doubled(msgs, i)
  {
    seq(|msgs|, i requires 0 <= i < |msgs| => Doubled(msgs, i))
  }

  /** Of system messages that begin alike only the first stays; all other messages stay. */
  lemma {:induction false} DedupIs(msgs: seq<Message>) returns (idx: seq<int>)
    ensures Remaining(msgs, DoubledFlags(msgs), Dedup(msgs), idx)
  {
    hide Remaining, Seen, DedupKey, TrimSpace;
    if msgs == [] {
      idx := [];
      NoneRemaining();
    } else {
      var front, m, i := Init(msgs), Last(msgs), |msgs| - 1;
      var before := DedupIs(front);
      InitLast(msgs);
      FlagsSnoc(front, m);
      LastKey(m);
      if SystemString(m) {
        SeenIs(front, KeyOf(m));
        DoubledLast(front, m);
      }
      RemainingSnoc(front, DoubledFlags(front), Dedup(front), before, m, Doubled(msgs, i));
      idx := if Doubled(msgs, i) then before else before + [i];
      assert Dedup(front) + [] == Dedup(front);
    }
  }

  lemma NoneRemaining()
    ensures Remaining([], DoubledFlags([]), Dedup([]), [])
  {
  }

  lemma FlagsSnoc(front: seq<Message>, m: Message)
    ensures DoubledFlags(front + [m]) == DoubledFlags(front) + [Doubled(front + [m], |front|)]
  {
    hide KeyOf;
    var msgs := front + [m];
    forall i | 0 <= i < |front| ensures Doubled(msgs, i) <==> Doubled(front, i) {
      assert forall j | 0 <= j <= i :: msgs[j] == front[j];
    }
  }

  lemma DoubledLast(front: seq<Message>, m: Message)
    requires SystemString(m)
    ensures Doubled(front + [m], |front|) <==> exists j | 0 <= j < |front| :: SystemString(front[j]) && KeyOf(front[j]) == KeyOf(m)
  {
    hide KeyOf;
    var msgs := front + [m];
    assert forall j | 0 <= j < |front| :: msgs[j] == front[j];
  }

  // ---- long tool results ---------------------------------------------------------------------------

  predicate IsGap(c: char) {
    c in {' ', '\t', '\n', '\r'}
  }

  /** The cut: at `cut` if that is no place inside a word; else at the last gap of the 80 characters before
      it; else at the first of the 80 after it; else at `cut`. */
  ghost predicate CutPlace(s: string, cut: nat, r: nat)
    requires 0 < cut < |s|
  {
    if IsGap(s[cut - 1]) || IsGap(s[cut]) then r == cut
    else if exists k | 0 <= k < cut :: cut - k <= 80 && IsGap(s[k]) then
      r < cut && cut - r <= 80 && IsGap(s[r]) && forall k | r < k < cut :: !IsGap(s[k])
    else if exists k | cut <= k < |s| :: k - cut < 80 && IsGap(s[k]) then
      cut <= r < |s| && r - cut < 80 && IsGap(s[r]) && forall k | cut <= k < r :: !IsGap(s[k])
    else r == cut
  }

  lemma CutIs(s: string, cut: nat)
    requires 0 < cut < |s|
    ensures CutPlace(s, cut, CutAt(s, cut))
  {
    forall c ensures IsGap(c) <==> !WordChar(c) {
    }
    hide SpaceBefore, SpaceAfter, IsGap, WordChar;
  }

  /** Tool strings of more than 2000 characters are cut there, at a gap if one is near, and marked. */
  lemma ToolResultIs(m: Message)
    ensures !(m.Message? && m.content.Text? && m.role == "tool" && |m.content.text| > 2000) ==> CompressTool(m) == m
    ensures m.Message? && m.content.Text? && m.role == "tool" && |m.content.text| > 2000 ==>
              var s := m.content.text;
              exists r: nat | r < |s| :: CutPlace(s, 2000, r) && CompressTool(m) == m.(content := Text(s[..r] + "\n...[truncated]"))
  {
    hide CutAt, CutPlace;
    if m.Message? && m.content.Text? && m.role == "tool" && |m.content.text| > 2000 {
      CutIs(m.content.text, 2000);
    }
  }

  // ---- repeated messages ---------------------------------------------------------------------------

  /** Same role and same nonempty text as the message right before. */
  predicate SaysAgain(msgs: seq<Message>, i: nat, o: Options)
    requires i < |msgs|
  {
    && i > 0 && msgs[i].Message? && msgs[i - 1].Message? && !(o.preserve && msgs[i].role == "system")
    && msgs[i].role == msgs[i - 1].role
    && TextIn(msgs[i]) == TextIn(msgs[i - 1]) != ""
  }

  /** The string, or the texts of the blocks one after the other. */
  function TextIn(m: Message): string
    requires m.Message?
  {
    match m.content
    case Text(s) => s
    case Blocks(parts) => Texts(parts)
    case NoText(_) => ""
  }

  function Texts(parts: seq<Part>): string {
    if parts == [] then ""
    else (if parts[0].Part? && parts[0].text.Some? then parts[0].text.value else "") + Texts(parts[1..])
  }

  lemma {:induction false} TextsSnoc(parts: seq<Part>, p: Part)
    ensures Texts(parts + [p]) == Texts(parts) + if p.Part? && p.text.Some? then p.text.value else ""
  {
    if parts == [] {
      assert [] + [p] == [p] && [p][1..] == [];
    } else {
      assert (parts + [p])[1..] == parts[1..] + [p];
      TextsSnoc(parts[1..], p);
    }
  }

  lemma {:induction false} PartsTextIs(parts: seq<Part>)
    ensures PartsText(parts) == Texts(parts)
  {
    if parts != [] {
      PartsTextIs(Init(parts));
      InitLast(parts);
      TextsSnoc(Init(parts), Last(parts));
    }
  }

  lemma TextIs(m: Message)
    requires m.Message?
    ensures ExtractText(m.content) == TextIn(m)
  {
    if m.content.Blocks? {
      PartsTextIs(m.content.parts);
    }
  }

  lemma RepeatsIs(msgs: seq<Message>, i: nat, o: Options)
    requires i < |msgs|
    ensures Repeats(msgs, i, o) <==> SaysAgain(msgs, i, o)
  {
    hide ExtractText, TextIn;
    if msgs[i].Message? {
      TextIs(msgs[i]);
    }
    if i > 0 && msgs[i - 1].Message? {
      TextIs(msgs[i - 1]);
    }
  }

  function AgainFlags(msgs: seq<Message>, o: Options): (g: seq<bool>)
    ensures |g| == |msgs| && forall i | 0 <= i < |msgs| :: g[i] == SaysAgain(msgs, i, o)
  {
    seq(|msgs|, i requires 0 <= i < |msgs| => SaysAgain(msgs, i, o))
  }

  /** Exactly the messages that say again what the one before said are dropped. */
  lemma DropsExactly(msgs: seq<Message>, o: Options)
    ensures Remaining(msgs, AgainFlags(msgs, o), DropRepeats(msgs, o), Staying(msgs, o, |msgs|))
  {
    hide SaysAgain, Repeats, Staying;
    var keep := Staying(msgs, o, |msgs|);
    forall i | 0 <= i < |msgs| ensures Repeats(msgs, i, o) <==> SaysAgain(msgs, i, o) {
      RepeatsIs(msgs, i, o);
    }
    forall i | 0 <= i < |msgs| && !SaysAgain(msgs, i, o) ensures i in keep {
      StayingAll(msgs, o, |msgs|, i);
    }
  }

  // ---- images --------------------------------------------------------------------------------------

  predicate IsDataImage(p: Part) {
    p.Part? && p.kind == "image_url" && "data:image/" <= p.url
  }

  /** What is written between "data:image/" and the next semicolon. */
  ghost predicate FormatOf(url: string, name: string) {
    if exists k | 11 <= k < |url| :: url[k] == ';' then
      11 + |name| < |url| && url[11..11 + |name|] == name && url[11 + |name|] == ';' && ';' !in name
    else name == "unknown"
  }

  lemma FormatIs(url: string)
    requires "data:image/" <= url
    ensures FormatOf(url, FormatName(url))
  {
    assert url[..11] == "data:image/";
    assert forall k | 0 <= k < 10 :: url[k] == "data:image/"[k] != '/';
    assert url[10] == "data:image/"[10] == '/';
    FirstCharIs(url, '/', 10);
    var rest := url[11..];
    assert forall k | 0 <= k < |rest| :: rest[k] == url[11 + k];
    if semi: nat :| semi < |rest| && rest[semi] == ';' {
      var i := FirstPlace(rest, ';', semi);
      FirstCharIs(rest, ';', i);
      assert rest[..i] == url[11..11 + i];
      assert url[11 + i] == ';';
    } else {
      NoCharIs(rest, ';');
      assert forall k | 11 <= k < |url| :: url[k] == rest[k - 11];
    }
  }

  lemma {:induction false} FirstPlace(s: string, c: char, n: nat) returns (i: nat)
    requires n < |s| && s[n] == c
    ensures i <= n && s[i] == c && forall k | 0 <= k < i :: s[k] != c
  {
    if k :| 0 <= k < n && s[k] == c {
      i := FirstPlace(s, c, k);
    } else {
      i := n;
    }
  }

  lemma FirstCharIs(s: string, c: char, i: nat)
    requires i < |s| && s[i] == c && forall k | 0 <= k < i :: s[k] != c
    ensures IndexOf(s, [c]) == i
  {
    forall k | 0 <= k < |s| ensures MatchAt(s, [c], k) <==> s[k] == c {
      assert s[k..k + 1] == [s[k]];
    }
    IndexIs(s, [c], i);
  }

  lemma NoCharIs(s: string, c: char)
    requires forall k | 0 <= k < |s| :: s[k] != c
    ensures IndexOf(s, [c]) < 0
  {
    forall k | 0 <= k < |s| ensures !MatchAt(s, [c], k) {
      assert s[k..k + 1] == [s[k]];
    }
  }

  /** Data images become a text that names their format; other parts, and messages without one, stay. */
  lemma ImagesAre(m: Message)
    ensures !(m.Message? && m.content.Blocks?) ==> WithoutImages(m) == m
    ensures m.Message? && m.content.Blocks? ==>
              var r := WithoutImages(m);
              && r.Message? && r.content.Blocks? && r == m.(content := r.content) && |r.content.parts| == |m.content.parts|
              && forall j | 0 <= j < |m.content.parts| ::
                   var p := m.content.parts[j];
                   if IsDataImage(p)
                   then FormatOf(p.url, FormatName(p.url))
                        && r.content.parts[j] == Part("text", Some("[image: " + FormatName(p.url) + "]"), "", "")
                   else r.content.parts[j] == p
  {
    hide FormatOf, FormatName;
    if m.Message? && m.content.Blocks? {
      forall j | 0 <= j < |m.content.parts| && IsDataImage(m.content.parts[j])
        ensures HasDataImage(m) && FormatOf(m.content.parts[j].url, FormatName(m.content.parts[j].url))
      {
        assert m.content.parts[j] in m.content.parts;
        FormatIs(m.content.parts[j].url);
      }
    }
  }

  // ---- the passes together -------------------------------------------------------------------------

  /** The passes one after the other: normalise, drop doubled system prompts unless they are preserved, cut
      tool results, drop repeats, and replace images for models that do not see them. */
  lemma PassesAre(msgs: seq<Message>, o: Options, sees: string -> bool)
    ensures var st := Passes(msgs, o, sees);
            && |st.collapsed| == |msgs| && (forall i | 0 <= i < |msgs| ::
                  st.collapsed[i] == if Normalised(msgs[i], o) then msgs[i].(content := Text(Normalize(msgs[i].content.text))) else msgs[i])
            && st.deduped == (if o.preserve then st.collapsed else Dedup(st.collapsed))
            && |st.tooled| == |st.deduped| && (forall i | 0 <= i < |st.deduped| :: st.tooled[i] == CompressTool(st.deduped[i]))
            && st.dropped == DropRepeats(st.tooled, o)
            && (o.model == "" || sees(o.model) ==> st.imaged == st.dropped)
            && (o.model != "" && !sees(o.model) ==>
                  |st.imaged| == |st.dropped| && forall i | 0 <= i < |st.dropped| :: st.imaged[i] == WithoutImages(st.dropped[i]))
  {
    hide Collapse, Dedup, CompressTool, DropRepeats, WithoutImages, Normalize, Normalised;
    forall i | 0 <= i < |msgs| {
      CollapseIs(msgs[i], o);
    }
  }

  /** Lite mode hands back what the passes left, unless none of them did anything. */
  lemma LiteResultIs(msgs: seq<Message>, o: Options, sees: string -> bool)
    ensures var st, r := Passes(msgs, o, sees), LiteResult(Some(msgs), o, sees);
            && (st.imaged != msgs ==> r == Some(st.imaged))
            && (r.Some? ==> r.value == st.imaged)
  {
    hide Collapse, CompressTool, WithoutImages, Repeats, Vision;
    var st := Passes(msgs, o, sees);
    if !Applied(msgs, st, o, sees) {
      NothingApplied(msgs, o, sees);
    }
  }

  lemma NothingApplied(msgs: seq<Message>, o: Options, sees: string -> bool)
    requires !Applied(msgs, Passes(msgs, o, sees), o, sees)
    ensures Passes(msgs, o, sees).imaged == msgs
  {
    hide Collapse, Repeats, Vision, DataImage, CutAt, Dedup;
    var st := Passes(msgs, o, sees);
    forall i | 0 <= i < |st.deduped| ensures CompressTool(st.deduped[i]) == st.deduped[i] {
      assert !LongTool(st.deduped[i]);
    }
    assert st.tooled == msgs;
    NoneDropped(st.tooled, o);
    if !Vision(o, sees) {
      forall i | 0 <= i < |st.dropped| ensures WithoutImages(st.dropped[i]) == st.dropped[i] {
        assert !HasDataImage(st.dropped[i]);
      }
      assert st.imaged == st.dropped;
    }
  }
}
