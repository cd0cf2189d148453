/** What aggressive mode leaves of a conversation, message by message and by distance from the end,
    written out in the terms of the text alone. */
module Aging {
  import opened Seqs
  import opened GoStrings
  import opened Chat
  import opened CodeBlocks
  import opened Lite
  import opened Caveman
  import opened TrimFences
  import opened Aggressive

  /** Messages aging passes over: no string, a protected system message, or marked already. */
  predicate Spared(m: Message, o: Options) {
    !(m.Message? && m.content.Text?) || (o.preserve && m.role == "system") || "[COMPRESSED:" <= TrimSpace(m.content.text)
  }

  predicate Fenced(s: string) {
    var t := TrimSpace(s);
    |t| >= 3 && t[..3] == "```" && t[|t| - 3..] == "```"
  }

  predicate IsJson(s: string, e: Engines) {
    var t := TrimSpace(s);
    t != "" && (t[0] == '{' || t[0] == '[') && e.isJson(t)
  }

  /** The text under a tag: JSON stays as it is, a fenced block stays whole below the tag, and of prose
      the compressed text is left. */
  ghost predicate TaggedAs(m: Message, r: Message, tier: string, body: string, e: Engines)
    requires m.Message? && m.content.Text?
  {
    var s := m.content.text;
    if Fenced(s) then r == m.(content := Text("[COMPRESSED:aging:" + tier + "]\n" + s))
    else if IsJson(s, e) then r == m
    else r == m.(content := Text("[COMPRESSED:aging:" + tier + "] " + body))
  }

  lemma KindIs(s: string, e: Engines)
    ensures StructuredKind(s, e).FencedCode? <==> Fenced(s)
    ensures StructuredKind(s, e).JsonValue? <==> !Fenced(s) && IsJson(s, e)
  {
    hide TrimSpace;
    var t := TrimSpace(s);
    if |t| >= 3 {
      assert t[..3] == CodeBlocks.FENCE <==> t[..3] == "```";
    }
    if t != "" {
      assert t[..1] == "{" <==> t[0] == '{';
      assert t[..1] == "[" <==> t[0] == '[';
    }
  }

  lemma TaggedIs(m: Message, tier: string, body: string, e: Engines)
    requires m.Message? && m.content.Text?
    ensures TaggedAs(m, WithText(m, TagAged(tier, m.content.text, body, e)), tier, body, e)
  {
    hide StructuredKind, Fenced, IsJson;
    KindIs(m.content.text, e);
  }

  lemma SparedIs(m: Message, o: Options)
    ensures Spared(m, o) <==> !Open(m, o) || Marked(m.content.text)
  {
    hide TrimSpace;
  }

  /** The last three messages stay, whatever they are, and so do the spared ones. */
  lemma AgedNear(msgs: seq<Message>, i: nat, o: Options, e: Engines)
    requires i < |msgs| && (Spared(msgs[i], o) || |msgs| - 1 - i <= 2)
    ensures Aged(msgs, o, e)[i] == msgs[i]
  {
    hide Marked, TrimSpace;
    SparedIs(msgs[i], o);
  }

  /** Three and four from the end: the text with its whitespace normalised. */
  lemma AgedLight(msgs: seq<Message>, i: nat, o: Options, e: Engines)
    requires i < |msgs| && !Spared(msgs[i], o) && 3 <= |msgs| - 1 - i <= 4
    ensures TaggedAs(msgs[i], Aged(msgs, o, e)[i], "light", Normalize(msgs[i].content.text), e)
  {
    hide Marked, TrimSpace, TagAged, TaggedAs, Normalize;
    SparedIs(msgs[i], o);
    TaggedIs(msgs[i], "light", Normalize(msgs[i].content.text), e);
  }

  /** Every maximal free run of a text replaced by f, the frozen runs as they are. */
  ghost predicate RunsRewritten(text: string, f: string -> string, out: string, runs: seq<Segment>) {
    var before := Runs(text, FrozenMask(text));
    && |runs| == |before|
    && (forall k | 0 <= k < |before| :: runs[k] == if before[k].isCode then before[k] else Segment(f(before[k].text), false))
    && Joined(runs) == out
  }

  /** Five to seven from the end: the text with its prose rewritten, or as it is below 20 characters. */
  lemma AgedModerate(msgs: seq<Message>, i: nat, o: Options, e: Engines) returns (body: string, runs: seq<Segment>)
    requires i < |msgs| && !Spared(msgs[i], o) && 5 <= |msgs| - 1 - i <= 7
    ensures TaggedAs(msgs[i], Aged(msgs, o, e)[i], "moderate", body, e)
    ensures FrozenKept(msgs[i].content.text, body)
    ensures if |msgs[i].content.text| < 20 then body == msgs[i].content.text
            else RunsRewritten(msgs[i].content.text, s => ApplyRules(e.rules, "user", 1, s), body, runs)
  {
    var s := msgs[i].content.text;
    hide Marked, TrimSpace, TagAged, TaggedAs, FrozenKept, Runs;
    SparedIs(msgs[i], o);
    body := ModerateText(s, e);
    TaggedIs(msgs[i], "moderate", body, e);
    runs := MapProse(Runs(s, FrozenMask(s)), t => ApplyRules(e.rules, "user", 1, t));
    if |s| < 20 {
      KeptAsIs(s);
    } else {
      RewriteKeepsFrozen(s, t => ApplyRules(e.rules, "user", 1, t));
    }
  }

  lemma KeptAsIs(s: string)
    ensures FrozenKept(s, s)
  {
    RewriteKeepsFrozen(s, t => t);
    RewriteNothing(s, t => t);
  }

  /** The line up to the first newline. */
  ghost predicate FirstLineOf(s: string, line: string) {
    line <= s && '\n' !in line && (line == s || s[|line|] == '\n')
  }

  lemma {:induction false} FirstLineIs(s: string)
    ensures FirstLineOf(s, FirstLine(s))
  {
    hide Split, Extend;
    if s == "" {
      SplitNothing('\n');
    } else {
      var front, x := Init(s), Last(s);
      FirstLineIs(front);
      InitLast(s);
      SplitSnoc(front, x, '\n');
      if '\n' !in front {
        SplitFree(front, '\n');
        ExtendOne(front, x);
      } else if x != '\n' {
        FirstStays(front, x);
      }
    }
  }

  lemma FirstStays(front: string, x: char)
    requires '\n' in front
    ensures Extend(Split(front, '\n'), x)[0] == Split(front, '\n')[0]
  {
    JoinSplit(front, '\n');
  }

  // ---- the summary -------------------------------------------------------------------------------

  function Upto(s: string, n: nat): string {
    if |s| <= n then s else s[..n]
  }

  /** A sentence of the summary, or nothing. */
  function Sentence(present: bool, title: string, text: string): string {
    if present then " " + title + text + "." else ""
  }

  /** The summary before it is cut to a limit. */
  function WholeSummary(text: string, line: string, e: Engines): string {
    "[COMPRESSED:summary]"
    + Sentence(TrimSpace(line) != "", "Intents: ", Upto(TrimSpace(line), 120))
    + Sentence(e.files(text) != [], "Files touched: ", Join(e.files(text), ", "))
    + Sentence(e.errors(text) != [], "Errors: ", Join(e.errors(text), "; "))
    + Sentence(Trim(text) != "", "Last decision: ", Upto(Trim(text), 200))
  }

  lemma JoinMore(parts: seq<string>, present: bool, title: string, text: string)
    requires parts != []
    ensures Join(parts + (if present then [title + text + "."] else []), " ") == Join(parts, " ") + Sentence(present, title, text)
  {
    if present {
      JoinSnoc(parts, " ", title + text + ".");
      assert " " + title + text + "." == " " + (title + text + ".");
      PlusAssoc(Join(parts, " "), " ", title + text + ".");
    } else {
      assert parts + [] == parts && Join(parts, " ") + "" == Join(parts, " ");
    }
  }

  lemma PartsAre(text: string, e: Engines)
    ensures SummaryParts(text, e) == ["[COMPRESSED:summary]"]
              + (if TrimSpace(FirstLine(text)) != "" then ["Intents: " + Upto(TrimSpace(FirstLine(text)), 120) + "."] else [])
              + (if e.files(text) != [] then ["Files touched: " + Join(e.files(text), ", ") + "."] else [])
              + (if e.errors(text) != [] then ["Errors: " + Join(e.errors(text), "; ") + "."] else [])
              + (if Trim(text) != "" then ["Last decision: " + Upto(Trim(text), 200) + "."] else [])
  {
    hide TrimSpace, FirstLine, Trim, Join;
  }

  lemma WholeIs(text: string, e: Engines)
    ensures Join(SummaryParts(text, e), " ") == WholeSummary(text, FirstLine(text), e)
  {
    hide TrimSpace, FirstLine, Trim, SummaryParts, Sentence, Upto;
    PartsAre(text, e);
    var p0 := ["[COMPRESSED:summary]"];
    assert Join(p0, " ") == "[COMPRESSED:summary]";
    var line := TrimSpace(FirstLine(text));
    var p1 := p0 + (if line != "" then ["Intents: " + Upto(line, 120) + "."] else []);
    JoinMore(p0, line != "", "Intents: ", Upto(line, 120));
    var p2 := p1 + (if e.files(text) != [] then ["Files touched: " + Join(e.files(text), ", ") + "."] else []);
    JoinMore(p1, e.files(text) != [], "Files touched: ", Join(e.files(text), ", "));
    var p3 := p2 + (if e.errors(text) != [] then ["Errors: " + Join(e.errors(text), "; ") + "."] else []);
    JoinMore(p2, e.errors(text) != [], "Errors: ", Join(e.errors(text), "; "));
    JoinMore(p3, Trim(text) != "", "Last decision: ", Upto(Trim(text), 200));
  }

  /** What a summary says: nothing about a blank text; else the tag, the first line's beginning, the paths
      and the errors found, and the beginning of the text with its code trimmed, cut to the limit. */
  lemma SummaryIs(text: string, maxLen: int, e: Engines)
    requires maxLen <= 0 || maxLen >= 3 || TrimSpace(text) == ""
    ensures FirstLineOf(text, FirstLine(text))
    ensures var whole := WholeSummary(text, FirstLine(text), e);
            Summary(text, maxLen, e) == if TrimSpace(text) == "" then ""
                                        else if maxLen <= 0 || |whole| <= maxLen then whole
                                        else whole[..maxLen - 3] + "..."
  {
    hide WholeSummary, SummaryParts, FirstLine, TrimSpace, Join;
    FirstLineIs(text);
    WholeIs(text, e);
  }

  /** Eight and more from the end: of an assistant message the summary, of a user message the beginning of
      the first line; messages of other roles stay. */
  lemma AgedOld(msgs: seq<Message>, i: nat, o: Options, e: Engines)
    requires i < |msgs| && !Spared(msgs[i], o) && |msgs| - 1 - i >= 8
    ensures var m, r, s, line := msgs[i], Aged(msgs, o, e)[i], msgs[i].content.text, FirstLine(msgs[i].content.text);
            && FirstLineOf(s, line)
            && (m.role == "assistant" ==>
                  TaggedAs(m, r, "fullSummary", if TrimSpace(s) == "" then "" else WholeSummary(s, line, e), e))
            && (m.role == "user" ==> TaggedAs(m, r, "fullSummary", Upto(line, 120), e))
            && (m.role != "assistant" && m.role != "user" ==> r == m)
  {
    var m, s := msgs[i], msgs[i].content.text;
    hide Marked, TrimSpace, TagAged, TaggedAs, Summary, FirstLine, WholeSummary;
    SparedIs(m, o);
    SummaryIs(s, 0, e);
    if m.role == "assistant" {
      TaggedIs(m, "fullSummary", Summary(s, 0, e), e);
    } else if m.role == "user" {
      TaggedIs(m, "fullSummary", Upto(FirstLine(s), 120), e);
    }
  }

  /** The third step: a message over 8192 characters becomes its summary of at most 2048, if that is not
      empty; shorter ones stay, and so do the spared ones. */
  lemma SummarizedAt(m: Message, o: Options, e: Engines)
    ensures Spared(m, o) || |m.content.text| <= 8192 ==> SummarizedMessage(m, o, e) == m
    ensures !Spared(m, o) && |m.content.text| > 8192 ==>
              var s := m.content.text;
              var whole := WholeSummary(s, FirstLine(s), e);
              SummarizedMessage(m, o, e)
              == if TrimSpace(s) == "" then m
                 else m.(content := Text(if |whole| <= 2048 then whole else whole[..2045] + "..."))
  {
    hide Marked, TrimSpace, Summary, FirstLine, WholeSummary;
    SparedIs(m, o);
    if !Spared(m, o) {
      SummaryIs(m.content.text, 2048, e);
      LongTag(m.content.text, FirstLine(m.content.text), e);
    }
  }

  lemma LongTag(text: string, line: string, e: Engines)
    ensures |WholeSummary(text, line, e)| >= 20
  {
    hide TrimSpace, Trim, Sentence;
    assert |"[COMPRESSED:summary]"| == 20;
  }
}
