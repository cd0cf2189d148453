/** What the other three modes make of a message list, and when Apply sends it on: written out with the
    thresholds, in the terms of the messages. */
module ModeResults {
  import opened Seqs
  import opened GoStrings
  import opened Chat
  import opened CodeBlocks
  import opened Lite
  import opened Caveman
  import opened Ultra
  import opened Aggressive
  import opened Aging
  import opened Pipeline

  // ---- the rules ---------------------------------------------------------------------------------

  /** Rule k is for the role at that intensity, and matches in the text. */
  ghost predicate Replaces(rule: Rule, role: string, intensity: int, s: string) {
    rule.minIntensity <= intensity && (rule.context == "all" || rule.context == role) && rule.replaceAll(s).1 > 0
  }

  /** One rule after the other; a rule that does not replace anything leaves the text as it is. `texts` are
      the texts in between. */
  ghost predicate RuleByRule(rules: seq<Rule>, role: string, intensity: int, s: string, r: string, texts: seq<string>) {
    && |texts| == |rules| + 1 && texts[0] == s && texts[|rules|] == r
    && forall k | 0 <= k < |rules| ::
         texts[k + 1] == if Replaces(rules[k], role, intensity, texts[k]) then rules[k].replaceAll(texts[k]).0 else texts[k]
  }

  /** The names are those of the rules that replaced something. */
  ghost predicate UsedNames(rules: seq<Rule>, role: string, intensity: int, texts: seq<string>, used: set<string>)
    requires |texts| == |rules| + 1
  {
    && (forall k | 0 <= k < |rules| && Replaces(rules[k], role, intensity, texts[k]) :: rules[k].name in used)
    && (forall name | name in used :: exists k | 0 <= k < |rules| :: rules[k].name == name && Replaces(rules[k], role, intensity, texts[k]))
  }

  lemma {:induction false} RulesApplied(rules: seq<Rule>, role: string, intensity: int, s: string) returns (texts: seq<string>)
    ensures RuleByRule(rules, role, intensity, s, ApplyRules(rules, role, intensity, s), texts)
    ensures UsedNames(rules, role, intensity, texts, RulesUsed(rules, role, intensity, s))
  {
    if rules == [] {
      texts := [s];
    } else {
      var front, rule := Init(rules), Last(rules);
      var before := RulesApplied(front, role, intensity, s);
      var after := ApplyRules(rules, role, intensity, s);
      texts := before + [after];
      InitLast(rules);
      OneRule(rules, role, intensity, s);
      RuleAdded(front, rule, role, intensity, s, ApplyRules(front, role, intensity, s), before, after);
      NameAdded(front, rule, role, intensity, before, RulesUsed(front, role, intensity, s), after);
    }
  }

  lemma OneRule(rules: seq<Rule>, role: string, intensity: int, s: string)
    requires rules != []
    ensures var before, rule := ApplyRules(Init(rules), role, intensity, s), Last(rules);
            var hit := Replaces(rule, role, intensity, before);
            && ApplyRules(rules, role, intensity, s) == (if hit then rule.replaceAll(before).0 else before)
            && RulesUsed(rules, role, intensity, s)
               == RulesUsed(Init(rules), role, intensity, s) + if hit then {rule.name} else {}
  {
  }

  lemma RuleAdded(rules: seq<Rule>, rule: Rule, role: string, intensity: int, s: string, r: string, texts: seq<string>, after: string)
    requires RuleByRule(rules, role, intensity, s, r, texts)
    requires after == if Replaces(rule, role, intensity, r) then rule.replaceAll(r).0 else r
    ensures RuleByRule(rules + [rule], role, intensity, s, after, texts + [after])
  {
    hide Replaces;
    assert forall k | 0 <= k < |texts| :: (texts + [after])[k] == texts[k];
    assert forall k | 0 <= k < |rules| :: (rules + [rule])[k] == rules[k];
  }

  lemma NameAdded(rules: seq<Rule>, rule: Rule, role: string, intensity: int, texts: seq<string>, used: set<string>, after: string)
    requires |texts| == |rules| + 1 && UsedNames(rules, role, intensity, texts, used)
    ensures UsedNames(rules + [rule], role, intensity, texts + [after],
                      used + if Replaces(rule, role, intensity, texts[|rules|]) then {rule.name} else {})
  {
    hide Replaces;
    var more, longer := rules + [rule], texts + [after];
    assert more[|rules|] == rule && longer[|rules|] == texts[|rules|];
    assert forall k | 0 <= k < |rules| :: more[k] == rules[k] && longer[k] == texts[k];
    forall name | name in used
      ensures exists k | 0 <= k < |more| :: more[k].name == name && Replaces(more[k], role, intensity, longer[k])
    {
      var k :| 0 <= k < |rules| && rules[k].name == name && Replaces(rules[k], role, intensity, texts[k]);
      assert more[k].name == name && Replaces(more[k], role, intensity, longer[k]);
    }
  }

  // ---- standard mode -----------------------------------------------------------------------------

  /** Unprotected strings of at least 20 characters: every free run rewritten by the rules. */
  lemma StandardAt(m: Message, o: Options, e: Engines) returns (runs: seq<Segment>)
    ensures !(m.Message? && m.content.Text?) || (o.preserve && m.role == "system") || |m.content.text| < 20 ==>
              CavemanMessage(m, o, e) == m
    ensures m.Message? && m.content.Text? && !(o.preserve && m.role == "system") && |m.content.text| >= 20 ==>
              var r := CavemanMessage(m, o, e);
              && r.Message? && r.content.Text? && r == m.(content := r.content)
              && RunsRewritten(m.content.text, s => ApplyRules(e.rules, m.role, 1, s), r.content.text, runs)
  {
    hide Runs, FrozenMask, ApplyRules;
    runs := [];
    if m.Message? && m.content.Text? {
      runs := MapProse(Runs(m.content.text, FrozenMask(m.content.text)), s => ApplyRules(e.rules, m.role, 1, s));
    }
  }

  /** The mode's result: the list, message by message, unless nothing changed. */
  lemma StandardResultIs(msgs: seq<Message>, o: Options, e: Engines)
    ensures var r := StandardResult(Some(msgs), o, e);
            && (r.None? ==> forall i | 0 <= i < |msgs| :: CavemanMessage(msgs[i], o, e) == msgs[i])
            && (r.Some? ==> r.value != msgs && |r.value| == |msgs| && forall i | 0 <= i < |msgs| :: r.value[i] == CavemanMessage(msgs[i], o, e))
  {
    hide CavemanMessage;
  }

  // ---- ultra mode --------------------------------------------------------------------------------

  predicate Parting(c: char) {
    c in {' ', '\t', '\n'}
  }

  /** The words of s: word k is s[at[k].0..at[k].1]; they are separated by blanks, tabs and newlines, and
      everything else of s is in one of them. */
  ghost predicate WordsAt(s: string, words: seq<string>, at: seq<(int, int)>) {
    && |at| == |words|
    && (forall k | 0 <= k < |at| ::
          0 <= at[k].0 < at[k].1 <= |s| && words[k] == s[at[k].0..at[k].1] && forall i | at[k].0 <= i < at[k].1 :: !Parting(s[i]))
    && (forall k, l | 0 <= k < l < |at| :: at[k].1 < at[l].0)
    && (forall i | 0 <= i < |s| && !Parting(s[i]) :: exists k | 0 <= k < |at| :: at[k].0 <= i < at[k].1)
  }

  lemma {:induction false} FieldsAt(s: string) returns (at: seq<(int, int)>)
    ensures WordsAt(s, Fields(s).0, at)
    ensures Fields(s).1 ==> at != [] && at[|at| - 1].1 == |s|
    ensures !Fields(s).1 ==> s == "" || Parting(Last(s))
  {
    if s == "" {
      at := [];
    } else {
      var front, c := Init(s), Last(s);
      var before := FieldsAt(front);
      InitLast(s);
      var (words, grows) := Fields(front);
      hide Fields;
      FieldsSnoc(front, c);
      if IsSeparator(c) {
        at := before;
        WordsPart(front, words, before, c);
      } else if grows {
        at := Init(before) + [(Last(before).0, |s|)];
        WordsGrow(front, words, before, c);
      } else {
        at := before + [(|front|, |s|)];
        WordsNew(front, words, before, c);
      }
    }
  }

  lemma FieldsSnoc(s: string, c: char)
    ensures var (words, grows) := Fields(s);
            Fields(s + [c]) == if IsSeparator(c) then (words, false)
                               else if grows && words != [] then (Init(words) + [Last(words) + [c]], true)
                               else (words + [[c]], true)
  {
    assert Init(s + [c]) == s;
  }

  lemma WordsPart(s: string, words: seq<string>, at: seq<(int, int)>, c: char)
    requires WordsAt(s, words, at) && Parting(c)
    ensures WordsAt(s + [c], words, at)
  {
    assert forall i | 0 <= i < |s| :: (s + [c])[i] == s[i];
  }

  lemma WordsNew(s: string, words: seq<string>, at: seq<(int, int)>, c: char)
    requires WordsAt(s, words, at) && !Parting(c) && (s == "" || Parting(Last(s)))
    ensures WordsAt(s + [c], words + [[c]], at + [(|s|, |s| + 1)])
  {
    var t, more := s + [c], at + [(|s|, |s| + 1)];
    assert forall i | 0 <= i < |s| :: t[i] == s[i];
    assert forall k | 0 <= k < |at| :: more[k] == at[k];
    assert more[|at|] == (|s|, |s| + 1);
    forall k | 0 <= k < |at| ensures at[k].1 < |s| {
      assert !Parting(s[at[k].1 - 1]);
    }
    forall i | 0 <= i < |t| && !Parting(t[i]) ensures exists k | 0 <= k < |more| :: more[k].0 <= i < more[k].1 {
      if i < |s| {
        var k :| 0 <= k < |at| && at[k].0 <= i < at[k].1;
        assert more[k].0 <= i < more[k].1;
      } else {
        assert more[|at|].0 <= i < more[|at|].1;
      }
    }
  }

  lemma WordsGrow(s: string, words: seq<string>, at: seq<(int, int)>, c: char)
    requires WordsAt(s, words, at) && !Parting(c) && at != [] && Last(at).1 == |s|
    ensures words != []
    ensures WordsAt(s + [c], Init(words) + [Last(words) + [c]], Init(at) + [(Last(at).0, |s| + 1)])
  {
    var t, n := s + [c], |at| - 1;
    var more, grown := Init(at) + [(Last(at).0, |s| + 1)], Init(words) + [Last(words) + [c]];
    assert more == at[..n] + [(at[n].0, |s| + 1)] && grown == words[..n] + [words[n] + [c]];
    WordsKept(s, words, at, c);
    GrownCover(s, words, at, c);
  }

  lemma WordsKept(s: string, words: seq<string>, at: seq<(int, int)>, c: char)
    requires WordsAt(s, words, at) && !Parting(c) && at != [] && at[|at| - 1].1 == |s|
    ensures var n := |at| - 1;
            && (forall k | 0 <= k < n ::
                  words[k] == (s + [c])[at[k].0..at[k].1] && forall i | at[k].0 <= i < at[k].1 :: !Parting((s + [c])[i]))
            && words[n] + [c] == (s + [c])[at[n].0..|s| + 1]
            && forall i | at[n].0 <= i < |s| + 1 :: !Parting((s + [c])[i])
  {
    var t := s + [c];
    forall k | 0 <= k < |at| ensures words[k] == t[at[k].0..at[k].1] {
      assert t[at[k].0..at[k].1] == s[at[k].0..at[k].1];
    }
  }

  lemma GrownCover(s: string, words: seq<string>, at: seq<(int, int)>, c: char)
    requires WordsAt(s, words, at) && at != [] && at[|at| - 1].1 == |s|
    ensures var t, more := s + [c], at[..|at| - 1] + [(at[|at| - 1].0, |s| + 1)];
            forall i | 0 <= i < |t| && !Parting(t[i]) :: exists k | 0 <= k < |more| :: more[k].0 <= i < more[k].1
  {
    var t, n := s + [c], |at| - 1;
    var more := at[..n] + [(at[n].0, |s| + 1)];
    forall i | 0 <= i < |t| && !Parting(t[i]) ensures exists k | 0 <= k < |more| :: more[k].0 <= i < more[k].1 {
      if i < |s| {
        assert t[i] == s[i];
        var k :| 0 <= k < |at| && at[k].0 <= i < at[k].1;
        assert more[k].0 <= i < more[k].1;
      } else {
        assert more[n].0 <= i < more[n].1;
      }
    }
  }

  function PruneFlags(fields: seq<string>, prune: set<nat>): (g: seq<bool>)
    ensures |g| == |fields| && forall i | 0 <= i < |fields| :: g[i] == (i in prune)
  {
    seq(|fields|, i requires 0 <= i < |fields| => i in prune)
  }

  lemma {:induction false} KeptAt(fields: seq<string>, prune: set<nat>) returns (idx: seq<int>)
    ensures Remaining(fields, PruneFlags(fields, prune), Ultra.Kept(fields, prune), idx)
  {
    hide Remaining;
    if fields == [] {
      idx := [];
      NoFields(prune);
    } else {
      var front, n := Init(fields), |fields| - 1;
      var before := KeptAt(front, prune);
      InitLast(fields);
      assert PruneFlags(fields, prune) == PruneFlags(front, prune) + [n in prune];
      RemainingSnoc(front, PruneFlags(front, prune), Ultra.Kept(front, prune), before, Last(fields), n in prune);
      idx := if n in prune then before else before + [n];
      assert Ultra.Kept(front, prune) + [] == Ultra.Kept(front, prune);
    }
  }

  lemma NoFields(prune: set<nat>)
    ensures Remaining([], PruneFlags([], prune), Ultra.Kept([], prune), [])
  {
  }

  /** What a prose run of n words is pruned to: at most n minus three fifths of n, rounded up, of the words
      scoring below 0.3 go, the lowest first and of equal ones the earlier; the others stay, one blank
      between two. With nothing to prune the run stays as it is. */
  ghost predicate PrunedTo(text: string, score: string -> real, r: string) {
    var fields := Fields(text).0;
    var n := |fields|;
    if (3 * n + 4) / 5 >= n then r == text
    else exists prune :: Selected(fields, score, n - (3 * n + 4) / 5, prune) && r == Join(Ultra.Kept(fields, prune), " ")
  }

  ghost predicate Selected(fields: seq<string>, score: string -> real, quota: nat, prune: set<nat>) {
    && (forall i | i in prune :: i < |fields| && score(fields[i]) < 0.3)
    && |prune| <= quota
    && (|prune| < quota ==> forall i: nat | i < |fields| && score(fields[i]) < 0.3 :: i in prune)
    && (forall i: nat, j: nat | i in prune && j < |fields| && j !in prune && score(fields[j]) < 0.3 ::
          score(fields[i]) < score(fields[j]) || (score(fields[i]) == score(fields[j]) && i < j))
  }

  lemma SelectedIs(fields: seq<string>, score: string -> real, quota: nat, prune: set<nat>)
    requires Selection(fields, score, 0.3, quota, prune)
    ensures Selected(fields, score, quota, prune)
  {
    forall i | i in prune ensures i < |fields| && score(fields[i]) < 0.3 {
      assert i in Low(fields, score, 0.3);
    }
    if |prune| < quota {
      forall i: nat | i < |fields| && score(fields[i]) < 0.3 ensures i in prune {
        assert i in Low(fields, score, 0.3);
      }
    }
    forall i: nat, j: nat | i in prune && j < |fields| && j !in prune && score(fields[j]) < 0.3
      ensures score(fields[i]) < score(fields[j]) || (score(fields[i]) == score(fields[j]) && i < j)
    {
      assert j in Low(fields, score, 0.3);
      Precedes(fields, score, 0.3, quota, prune, i, j);
    }
  }

  lemma PrunedIs(text: string, score: string -> real)
    ensures PrunedTo(text, score, PrunedText(text, 0.6, 0.3, score))
  {
    hide Fields, Selection, Selected, Prunable, Join, Ultra.Kept;
    var fields := Fields(text).0;
    var n := |fields|;
    TargetAtCallSite(n);
    NoText();
    if (3 * n + 4) / 5 < n {
      var prune := Prunable(fields, score, 0.3, n - (3 * n + 4) / 5);
      PrunableSelects(fields, score, 0.3, n - (3 * n + 4) / 5);
      SelectedIs(fields, score, n - (3 * n + 4) / 5, prune);
    }
  }

  lemma NoText()
    ensures Fields("").0 == []
  {
  }

  /** Unprotected strings of at least 40 characters: every free run pruned, if that makes the text shorter. */
  lemma UltraAt(m: Message, o: Options, e: Engines) returns (runs: seq<Segment>, pruned: string)
    ensures !(m.Message? && m.content.Text?) || (o.preserve && m.role == "system") || |m.content.text| < 40 ==>
              UltraMessage(m, o, e) == m
    ensures m.Message? && m.content.Text? && !(o.preserve && m.role == "system") && |m.content.text| >= 40 ==>
              && RunsRewritten(m.content.text, s => PrunedText(s, 0.6, 0.3, e.score), pruned, runs)
              && UltraMessage(m, o, e) == m.(content := Text(if |pruned| < |m.content.text| then pruned else m.content.text))
  {
    hide Runs, FrozenMask, PrunedText;
    runs, pruned := [], "";
    if m.Message? && m.content.Text? {
      runs := MapProse(Runs(m.content.text, FrozenMask(m.content.text)), s => PrunedText(s, 0.6, 0.3, e.score));
      pruned := Joined(runs);
    }
  }

  lemma UltraResultIs(msgs: seq<Message>, o: Options, e: Engines)
    ensures var r := UltraResult(Some(msgs), o, e);
            && (r.None? ==> forall i | 0 <= i < |msgs| :: UltraMessage(msgs[i], o, e) == msgs[i])
            && (r.Some? ==> r.value != msgs && |r.value| == |msgs| && forall i | 0 <= i < |msgs| :: r.value[i] == UltraMessage(msgs[i], o, e))
  {
    hide UltraMessage;
  }

  /** Which tokens may go at 0.3: stop words first, then those of one or two characters; never one with a
      digit, a URL, a path mark, an error marker or a fence. */
  lemma LowTokens(token: string, isStopword: string -> bool)
    ensures var forced := || (exists i | 0 <= i < |token| :: '0' <= token[i] <= '9' || token[i] in {'.', '_', '/', '\\'})
                          || Contains(token, "http://") || Contains(token, "https://")
                          || Contains(token, "Error:") || Contains(token, "Exception:") || Contains(token, "```");
            var low := ScoreToken(token, isStopword) < 0.3;
            && (low <==> !forced && (isStopword(token) || |token| <= 2))
            && (low ==> ScoreToken(token, isStopword) == if isStopword(token) then 0.1 else 0.2)
  {
    hide Contains;
    DigitsIn(token);
    MarksIn(token);
  }

  lemma DigitsIn(token: string)
    ensures ContainsAny(token, "0123456789") <==> exists i | 0 <= i < |token| :: '0' <= token[i] <= '9'
  {
    var digits := "0123456789";
    forall c ensures c in digits <==> '0' <= c <= '9' {
      assert digits[0] == '0' && digits[1] == '1' && digits[2] == '2' && digits[3] == '3' && digits[4] == '4'
          && digits[5] == '5' && digits[6] == '6' && digits[7] == '7' && digits[8] == '8' && digits[9] == '9';
    }
    forall i | 0 <= i < |token| ensures token[i] in token {
    }
  }

  lemma MarksIn(token: string)
    ensures ContainsAny(token, "._/\\") <==> exists i | 0 <= i < |token| :: token[i] in {'.', '_', '/', '\\'}
  {
    var marks := "._/\\";
    forall c ensures c in marks <==> c in {'.', '_', '/', '\\'} {
      assert marks[0] == '.' && marks[1] == '_' && marks[2] == '/' && marks[3] == '\\';
    }
    forall i | 0 <= i < |token| ensures token[i] in token {
    }
  }

  // ---- aggressive mode ---------------------------------------------------------------------------

  /** The filters: the text of tool messages, their text blocks, the tool_result blocks of the others, and
      function_call_output messages. */
  lemma RtkAt(m: Message, e: Engines)
    ensures !m.Message? ==> RtkMessage(m, e) == m
    ensures m.Message? && m.kind == "function_call_output" ==> RtkMessage(m, e) == m.(rest := e.rtkRest(m.rest))
    ensures m.Message? && m.kind != "function_call_output" && m.content.NoText? ==> RtkMessage(m, e) == m
    ensures m.Message? && m.kind != "function_call_output" && m.content.Text? ==>
              RtkMessage(m, e) == if m.role == "tool" then m.(content := Text(e.rtk(m.content.text))) else m
    ensures m.Message? && m.kind != "function_call_output" && m.content.Blocks? ==>
              var r, parts := RtkMessage(m, e), m.content.parts;
              && r.Message? && r.content.Blocks? && r == m.(content := r.content) && |r.content.parts| == |parts|
              && forall j | 0 <= j < |parts| ::
                   var p := parts[j];
                   r.content.parts[j] == if p.Part? && m.role == "tool" && p.kind == "text" && p.text.Some?
                                         then p.(text := Some(e.rtk(p.text.value)))
                                         else if p.Part? && m.role != "tool" && p.kind == "tool_result" then p.(rest := e.rtkRest(p.rest))
                                         else p
  {
  }

  /** The three steps message by message: filtered, aged by distance, summarised. */
  lemma StepsAre(msgs: seq<Message>, o: Options, e: Engines)
    ensures var filtered := Each(msgs, RtkMap(e));
            && |Steps(msgs, o, e)| == |filtered| == |msgs|
            && forall i | 0 <= i < |msgs| ::
                 filtered[i] == RtkMessage(msgs[i], e) && Steps(msgs, o, e)[i] == SummarizedMessage(Aged(filtered, o, e)[i], o, e)
  {
    hide RtkMessage, SummarizedMessage, AgeMessage;
  }

  /** What of two results has fewer tokens; the first on a tie. */
  function Fewer(msgs: seq<Message>, candidate: Option<seq<Message>>): seq<Message> {
    if candidate.None? || Tokens(candidate.value) >= Tokens(msgs) then msgs else candidate.value
  }

  /** Nothing if no step changed anything; the steps if they save five in a hundred tokens; else the
      standard mode's result on top of them, and the lite mode's on top of that, each if it has fewer. */
  lemma AggressiveIs(msgs: seq<Message>, o: Options, e: Engines)
    ensures var r, steps := AggressiveResult(Some(msgs), o, e), Steps(msgs, o, e);
            var n, k := Tokens(msgs), Tokens(steps);
            && (r.None? <==> msgs == [] || (Each(msgs, RtkMap(e)) == msgs && Aged(msgs, o, e) == msgs && Each(msgs, SummaryMap(o, e)) == msgs))
            && (r.Some? ==>
                  if n > 0 && 20 * (n - k) >= n then r.value == steps
                  else var cav := Fewer(steps, StandardResult(Some(steps), o, e));
                       r.value == Fewer(cav, LiteResult(Some(cav), o, e.sees)))
  {
    hide Tokens, Steps, StandardResult, LiteResult, Aged, Each;
    FivePercent(Tokens(msgs), Tokens(Steps(msgs, o, e)));
  }

  lemma FivePercent(n: nat, k: nat)
    ensures SavesEnough(n, k) <==> n > 0 && 20 * (n - k) >= n
  {
    if n > 0 {
      AtLeast(n as real - k as real, n as real, 0.05);
      assert 20.0 * (n as real - k as real) == (20 * (n - k)) as real;
    }
  }

  lemma AtLeast(p: real, n: real, c: real)
    requires n > 0.0
    ensures p / n >= c <==> p >= c * n
  {
    var x := p / n;
    assert x * n == p;
    Scale(x, c, n);
    Scale(c, x, n);
  }

  lemma Scale(x: real, y: real, n: real)
    requires n > 0.0
    ensures x <= y ==> x * n <= y * n
    ensures x < y ==> x * n < y * n
  {
  }

  // ---- when the result is sent -------------------------------------------------------------------

  /** Apply sends a mode's result exactly if there is one, it has fewer tokens than the body, and, but for
      lite mode, at least three in a hundred fewer. On a provider that caches prompts the two strongest
      modes run as standard, and system messages are preserved. */
  lemma SentExactly(msgs: seq<Message>, mode: Mode, o: Options, caching: bool, e: Engines)
    ensures var m := if caching && (mode.ModeAggressive? || mode.ModeUltra?) then ModeStandard else mode;
            var o' := if caching then Options(o.model, true) else o;
            var r := match m
                     case ModeLite => LiteResult(Some(msgs), o', e.sees)
                     case ModeStandard => StandardResult(Some(msgs), o', e)
                     case ModeAggressive => AggressiveResult(Some(msgs), o', e)
                     case ModeUltra => UltraResult(Some(msgs), o', e)
                     case _ => None;
            Compressed(Some(msgs), mode, o, caching, e)
            == if r.Some? && Tokens(r.value) < Tokens(msgs)
                  && (m.ModeLite? || 100 * (Tokens(msgs) - Tokens(r.value)) >= 3 * Tokens(msgs)) then r else None
  {
    hide Tokens, StandardResult, LiteResult, AggressiveResult, UltraResult, Savings;
    var m := CacheAware(mode, caching);
    var r := ModeResult(Some(msgs), m, Effective(o, caching), e);
    if r.Some? {
      ThreePercent(Tokens(msgs), Tokens(r.value));
    }
  }

  lemma ThreePercent(n: nat, k: nat)
    ensures k < n ==> (Savings(n, k) >= FIDELITY <==> 100 * (n - k) >= 3 * n)
  {
    if k < n {
      AtLeast((n as real - k as real) * 100.0, n as real, 3.0);
      assert (n as real - k as real) * 100.0 == (100 * (n - k)) as real;
      assert 3.0 * n as real == (3 * n) as real;
    }
  }

  /** Tokens: a quarter of every message's characters, rounded up. */
  lemma {:induction false} TokensAre(msgs: seq<Message>)
    ensures msgs == [] ==> Tokens(msgs) == 0
    ensures msgs != [] ==>
              Tokens(msgs) == Tokens(Init(msgs)) + if Last(msgs).Message? then (|ExtractText(Last(msgs).content)| + 3) / 4 else 0
  {
  }
}
