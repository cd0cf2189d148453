/** trimCodeFences: long fenced blocks are cut to their first three lines and the last one. */
module TrimFences {
  import opened Seqs
  import opened CodeBlocks

  const CLOSE := "\n```"
  const ELLIPSIS := "…"

  /** The first complete fence: where it opens, where its opening line ends, where "\n```" closes it. */
  datatype Fence = Fence(start: nat, eol: nat, close: nat)

  function Cut(s: string): (f: Option<Fence>)
    ensures f.Some? ==> f.value.start + 3 <= f.value.eol < f.value.close && f.value.close + 4 <= |s|
  {
    var start := IndexOf(s, FENCE);
    if start == -1 then None
    else
      var nl := IndexOf(s[start + 3..], "\n");
      if nl == -1 then None
      else
        var eol := start + 3 + nl;
        var close := IndexOf(s[eol + 1..], CLOSE);
        if close == -1 then None else Some(Fence(start, eol, eol + 1 + close))
  }

  /** At most four lines stay; of more, the first three and the last stay around an ellipsis. */
  function CollapseCode(code: string): string {
    var lines := Split(code, '\n');
    if |lines| <= 4 then code
    else Join([lines[0], lines[1], lines[2], ELLIPSIS, Last(lines)], "\n")
  }

  function Block(opening: string, code: string): string {
    opening + "\n" + code + CLOSE
  }

  function Trim(s: string): string
    decreases |s|
  {
    match Cut(s)
    case None => s
    case Some(f) =>
      s[..f.start] + Block(s[f.start..f.eol], CollapseCode(s[f.eol + 1..f.close])) + Trim(s[f.close + 4..])
  }

  // ---- the imperative code -----------------------------------------------------------------

  lemma JoinFive(a: string, b: string, c: string, d: string, e: string)
    ensures Join([a, b, c, d, e], "\n") == a + "\n" + b + "\n" + c + "\n" + d + "\n" + e
  {
    JoinThree(a, b, c);
    assert Init([a, b, c, d]) == [a, b, c];
    assert Init([a, b, c, d, e]) == [a, b, c, d];
  }

  lemma JoinThree(a: string, b: string, c: string)
    ensures Join([a, b, c], "\n") == a + "\n" + b + "\n" + c
  {
    assert Init([a, b]) == [a] && Join([a, b], "\n") == a + "\n" + b;
    assert Init([a, b, c]) == [a, b];
  }

  lemma HeadAndTail(lines: seq<string>)
    requires |lines| >= 3
    ensures Join(lines[..3], "\n") + "\n" + ELLIPSIS + "\n" + Last(lines)
         == Join([lines[0], lines[1], lines[2], ELLIPSIS, Last(lines)], "\n")
  {
    assert lines[..3] == [lines[0], lines[1], lines[2]];
    JoinThree(lines[0], lines[1], lines[2]);
    JoinFive(lines[0], lines[1], lines[2], ELLIPSIS, Last(lines));
  }

  /** The two pieces one round of the loop writes. */
  function Round(s: string): string
    requires Cut(s).Some?
  {
    var f := Cut(s).value;
    s[..f.start] + Block(s[f.start..f.eol], CollapseCode(s[f.eol + 1..f.close]))
  }

  lemma TrimRound(s: string)
    requires Cut(s).Some?
    ensures Trim(s) == Round(s) + Trim(s[Cut(s).value.close + 4..])
  {
  }

  lemma Whole(text: string, trimmed: string)
    ensures text[0..] == text && text[|text|..] == "" && "" + trimmed == trimmed && trimmed + "" == trimmed
  {
  }

  lemma Glue(out: string, round: string, later: string, rest: string, whole: string)
    requires out + rest == whole && rest == round + later
    ensures (out + round) + later == whole
  {
  }

  lemma TrimNone(s: string)
    requires Cut(s).None?
    ensures Trim(s) == s
  {
  }

  lemma TrimEmpty()
    ensures Trim("") == ""
  {
    assert Cut("").None?;
  }

  method TrimCodeFences(text: string) returns (out: string)
    ensures out == Trim(text)
  {
    hide Trim, Round, Cut;
    out := "";
    var cursor := 0;
    Whole(text, Trim(text));
    while cursor < |text|
      invariant 0 <= cursor <= |text|
      invariant out + Trim(text[cursor..]) == Trim(text)
      decreases |text| - cursor
    {
      var rest := text[cursor..];
      var fence := Cut(rest);
      if fence.None? {
        TrimNone(rest);
        out := out + rest;
        return;
      }
      var round := RenderRound(rest);
      TrimRound(rest);
      var next := cursor + fence.value.close + 4;
      DropDrop(text, cursor, next);
      assert rest[fence.value.close + 4..] == text[next..];
      Glue(out, round, Trim(text[next..]), Trim(rest), Trim(text));
      out := out + round;
      cursor := next;
    }
    Whole(text, out);
    TrimEmpty();
  }

  /** The text written for one complete fence and what precedes it. */
  method RenderRound(rest: string) returns (round: string)
    requires Cut(rest).Some?
    ensures round == Round(rest)
  {
    var f := Cut(rest).value;
    var opening, code := rest[f.start..f.eol], rest[f.eol + 1..f.close];
    var lines := Split(code, '\n');
    round := rest[..f.start];
    if |lines| <= 4 {
      ShortRound(rest);
      round := round + rest[f.start..f.close + 4];
    } else {
      var head := Join(lines[..3], "\n");
      var tail := lines[|lines| - 1];
      LongRound(rest, lines);
      round := round + (opening + "\n" + head + "\n" + ELLIPSIS + "\n" + tail + CLOSE);
    }
  }

  lemma ShortRound(s: string)
    requires Cut(s).Some?
    requires |Split(s[Cut(s).value.eol + 1..Cut(s).value.close], '\n')| <= 4
    ensures Round(s) == s[..Cut(s).value.start] + s[Cut(s).value.start..Cut(s).value.close + 4]
  {
    hide Cut, Block, Split;
    CutParts(s);
    CompleteBlock(s, Cut(s).value);
  }

  lemma LongRound(s: string, lines: seq<string>)
    requires Cut(s).Some?
    requires lines == Split(s[Cut(s).value.eol + 1..Cut(s).value.close], '\n') && |lines| > 4
    ensures var opening := s[Cut(s).value.start..Cut(s).value.eol];
            Round(s) == s[..Cut(s).value.start]
                      + (opening + "\n" + Join(lines[..3], "\n") + "\n" + ELLIPSIS + "\n" + Last(lines) + CLOSE)
  {
    var f := Cut(s).value;
    HeadAndTail(lines);
    AssembledBlock(s[f.start..f.eol], Join(lines[..3], "\n"), Last(lines), CollapseCode(s[f.eol + 1..f.close]));
  }

  lemma MatchIs(s: string, pat: string, base: nat, i: nat)
    requires base <= |s| && MatchAt(s[base..], pat, i)
    ensures base + i + |pat| <= |s| && s[base + i..base + i + |pat|] == pat
  {
    DropSlice(s, base, base + i, base + i + |pat|);
  }

  lemma CutParts(s: string)
    requires Cut(s).Some?
    ensures var f := Cut(s).value;
            s[f.start..f.start + 3] == FENCE && s[f.eol] == '\n' && s[f.close..f.close + 4] == CLOSE
  {
    var f := Cut(s).value;
    MatchIs(s, "\n", f.start + 3, f.eol - f.start - 3);
    MatchIs(s, CLOSE, f.eol + 1, f.close - f.eol - 1);
    assert s[f.eol..f.eol + 1][0] == '\n';
  }

  lemma CompleteBlock(s: string, f: Fence)
    requires f.start + 3 <= f.eol < f.close && f.close + 4 <= |s|
    requires s[f.eol] == '\n' && s[f.close..f.close + 4] == CLOSE
    ensures s[f.start..f.close + 4] == Block(s[f.start..f.eol], s[f.eol + 1..f.close])
  {
    var block := Block(s[f.start..f.eol], s[f.eol + 1..f.close]);
    forall i | f.close <= i < f.close + 4 ensures s[i] == CLOSE[i - f.close] {
      assert s[f.close..f.close + 4][i - f.close] == s[i];
    }
  }

  lemma AssembledBlock(opening: string, head: string, tail: string, code: string)
    requires head + "\n" + ELLIPSIS + "\n" + tail == code
    ensures opening + "\n" + head + "\n" + ELLIPSIS + "\n" + tail + CLOSE == Block(opening, code)
  {
  }

  // ---- the parse as a list of pieces -------------------------------------------------------

  datatype Piece = Outside(text: string) | Fenced(opening: string, code: string)

  function Parse(s: string): seq<Piece>
    decreases |s|
  {
    match Cut(s)
    case None => [Outside(s)]
    case Some(f) =>
      [Outside(s[..f.start]), Fenced(s[f.start..f.eol], s[f.eol + 1..f.close])] + Parse(s[f.close + 4..])
  }

  function Text(p: Piece): string {
    match p
    case Outside(text) => text
    case Fenced(opening, code) => Block(opening, code)
  }

  function Render(pieces: seq<Piece>): string {
    if pieces == [] then "" else Text(pieces[0]) + Render(pieces[1..])
  }

  function CollapsePiece(p: Piece): Piece {
    match p
    case Outside(_) => p
    case Fenced(opening, code) => Fenced(opening, CollapseCode(code))
  }

  function CollapseAll(pieces: seq<Piece>): (r: seq<Piece>)
    ensures |r| == |pieces|
  {
    seq(|pieces|, i requires 0 <= i < |pieces| => CollapsePiece(pieces[i]))
  }

  /** Before position |pre| of pre + "```…" no fence begins. */
  predicate FenceFirst(pre: string) {
    IndexOf(pre + FENCE, FENCE) == |pre|
  }

  /** A fence as the parser understands it: an opening line, then code without a closing line. */
  predicate WellFenced(opening: string, code: string) {
    HasPrefix(opening, FENCE) && '\n' !in opening && !Contains(code, CLOSE)
  }

  // ---- where the parser cuts ---------------------------------------------------------------

  lemma MatchPrefix(s: string, t: string, pat: string, i: nat)
    requires HasPrefix(t, s) && i + |pat| <= |s|
    ensures MatchAt(t, pat, i) <==> MatchAt(s, pat, i)
  {
    assert s == t[..|s|];
    assert t[..|s|][i..i + |pat|] == t[i..i + |pat|];
  }

  /** A newline of the text inside "\n```" can only be its first character. */
  lemma NoStraddle(s: string, i: nat, p: nat)
    requires i < p < i + 4 <= |s| && s[p] == '\n'
    ensures !MatchAt(s, CLOSE, i)
  {
    assert s[i..i + 4][p - i] == s[p] && CLOSE[p - i] == '`';
  }

  lemma CloseIndex(code: string, rest: string)
    requires !Contains(code, CLOSE)
    ensures IndexOf(code + CLOSE + rest, CLOSE) == |code|
  {
    var s := code + CLOSE + rest;
    assert s[|code|..|code| + 4] == CLOSE;
    forall i | 0 <= i < |code| ensures !MatchAt(s, CLOSE, i) {
      if i + 4 <= |code| {
        assert HasPrefix(s, code);
        MatchPrefix(code, s, CLOSE, i);
      } else {
        assert s[|code|] == '\n';
        NoStraddle(s, i, |code|);
      }
    }
    IndexIs(s, CLOSE, |code|);
  }

  lemma NewlineIndex(line: string, rest: string)
    requires '\n' !in line
    ensures IndexOf(line + "\n" + rest, "\n") == |line|
  {
    var s := line + "\n" + rest;
    assert s[|line|..|line| + 1] == "\n";
    forall i | 0 <= i < |line| ensures !MatchAt(s, "\n", i) {
      assert s[i] == line[i] && (i + 1 <= |s| ==> s[i..i + 1] == [s[i]]);
    }
    IndexIs(s, "\n", |line|);
  }

  lemma FenceIndex(pre: string, rest: string)
    requires FenceFirst(pre) && HasPrefix(rest, FENCE)
    ensures IndexOf(pre + rest, FENCE) == |pre|
  {
    var s, head := pre + rest, pre + FENCE;
    assert HasPrefix(s, head) by {
      assert rest == FENCE + rest[3..];
      PlusAssoc(pre, FENCE, rest[3..]);
    }
    forall i | 0 <= i <= |pre| ensures MatchAt(s, FENCE, i) <==> MatchAt(head, FENCE, i) {
      MatchPrefix(head, s, FENCE, i);
    }
    IndexIs(s, FENCE, |pre|);
  }

  lemma BlockOpens(opening: string, code: string, rest: string)
    requires HasPrefix(opening, FENCE)
    ensures HasPrefix(Block(opening, code) + rest, FENCE)
  {
    assert (Block(opening, code) + rest)[..3] == opening[..3];
  }

  /** Assembling text, a fence and more text: the parser finds exactly that fence. */
  lemma CutAssembled(pre: string, opening: string, code: string, rest: string)
    requires FenceFirst(pre) && WellFenced(opening, code)
    ensures Cut(pre + Block(opening, code) + rest)
         == Some(Fence(|pre|, |pre| + |opening|, |pre| + |opening| + 1 + |code|))
  {
    hide Block, IndexOf, FirstMatch, MatchAt, Contains, FenceFirst;
    var s := pre + Block(opening, code) + rest;
    PlusAssoc(pre, Block(opening, code), rest);
    BlockOpens(opening, code, rest);
    FenceIndex(pre, Block(opening, code) + rest);
    AfterFence(pre, opening, code, rest);
    NewlineIndex(opening[3..], code + CLOSE + rest);
    AfterOpening(pre, opening, code, rest);
    CloseIndex(code, rest);
  }

  lemma AfterFence(pre: string, opening: string, code: string, rest: string)
    requires |opening| >= 3
    ensures (pre + Block(opening, code) + rest)[|pre| + 3..] == opening[3..] + "\n" + (code + CLOSE + rest)
  {
  }

  lemma AfterOpening(pre: string, opening: string, code: string, rest: string)
    ensures (pre + Block(opening, code) + rest)[|pre| + |opening| + 1..] == code + CLOSE + rest
  {
  }

  lemma CutFirst(s: string)
    requires Cut(s).Some?
    ensures FenceFirst(s[..Cut(s).value.start])
  {
    var start := Cut(s).value.start;
    var pre := s[..start];
    assert start == IndexOf(s, FENCE);
    assert s[..start + 3] == pre + FENCE by {
      CutParts(s);
      assert s[..start + 3] == s[..start] + s[start..start + 3];
    }
    forall i | 0 <= i <= start ensures MatchAt(pre + FENCE, FENCE, i) <==> MatchAt(s, FENCE, i) {
      MatchPrefix(pre + FENCE, s, FENCE, i);
    }
    IndexIs(pre + FENCE, FENCE, start);
  }

  /** Whatever the parser cuts is well fenced, and putting the pieces back gives the text. */
  lemma CutWellFenced(s: string)
    requires Cut(s).Some?
    ensures var f := Cut(s).value;
            && FenceFirst(s[..f.start]) && WellFenced(s[f.start..f.eol], s[f.eol + 1..f.close])
            && s == s[..f.start] + Block(s[f.start..f.eol], s[f.eol + 1..f.close]) + s[f.close + 4..]
  {
    hide Cut, Block, FenceFirst, Contains;
    var f := Cut(s).value;
    CutFirst(s);
    OpeningLine(s);
    CodeUnclosed(s);
    CutParts(s);
    CompleteBlock(s, f);
    assert s == s[..f.start] + s[f.start..f.close + 4] + s[f.close + 4..];
  }

  lemma OpeningLine(s: string)
    requires Cut(s).Some?
    ensures HasPrefix(s[Cut(s).value.start..Cut(s).value.eol], FENCE)
    ensures '\n' !in s[Cut(s).value.start..Cut(s).value.eol]
  {
    var f := Cut(s).value;
    var opening := s[f.start..f.eol];
    CutParts(s);
    assert opening[..3] == s[f.start..f.start + 3];
    var line := s[f.start + 3..];
    forall i | 0 <= i < |opening| ensures opening[i] != '\n' {
      if i < 3 {
        assert opening[i] == opening[..3][i];
      } else {
        assert !MatchAt(line, "\n", i - 3);
        assert line[i - 3..i - 2] == [line[i - 3]] && line[i - 3] == opening[i];
      }
    }
  }

  lemma CodeUnclosed(s: string)
    requires Cut(s).Some?
    ensures !Contains(s[Cut(s).value.eol + 1..Cut(s).value.close], CLOSE)
  {
    var f := Cut(s).value;
    var code, tail := s[f.eol + 1..f.close], s[f.eol + 1..];
    assert HasPrefix(tail, code) by {
      assert tail[..|code|] == code;
    }
    forall i | 0 <= i <= |code| ensures !MatchAt(code, CLOSE, i) {
      if i + 4 <= |code| {
        MatchPrefix(code, tail, CLOSE, i);
      }
    }
  }

  // ---- the collapsed code ------------------------------------------------------------------

  /** Adding one more line adds a closing line exactly when the line begins with a fence. */
  lemma ContainsLine(a: string, b: string)
    requires '\n' !in b
    ensures Contains(a + "\n" + b, CLOSE) <==> Contains(a, CLOSE) || HasPrefix(b, FENCE)
  {
    var s := a + "\n" + b;
    assert HasPrefix(s, a);
    forall i | 0 <= i <= |s|
      ensures MatchAt(s, CLOSE, i) <==> (i < |a| && MatchAt(a, CLOSE, i)) || (i == |a| && HasPrefix(b, FENCE))
    {
      if i + 4 <= |a| {
        MatchPrefix(a, s, CLOSE, i);
      } else if i < |a| {
        if i + 4 <= |s| {
          assert s[|a|] == '\n';
          NoStraddle(s, i, |a|);
        }
      } else if i == |a| {
        FenceLine(a, b);
      } else {
        assert i < |s| ==> s[i] == b[i - |a| - 1];
        assert i + 4 <= |s| ==> s[i..i + 4][0] == s[i];
      }
    }
    if Contains(a, CLOSE) {
      var i :| 0 <= i <= |a| && MatchAt(a, CLOSE, i);
      assert i < |a| && MatchAt(s, CLOSE, i);
    }
    if HasPrefix(b, FENCE) {
      assert MatchAt(s, CLOSE, |a|);
    }
    if Contains(s, CLOSE) {
      var i :| 0 <= i <= |s| && MatchAt(s, CLOSE, i);
      assert (i < |a| && MatchAt(a, CLOSE, i)) || HasPrefix(b, FENCE);
    }
  }

  lemma FenceLine(a: string, b: string)
    ensures MatchAt(a + "\n" + b, CLOSE, |a|) <==> HasPrefix(b, FENCE)
  {
    var s := a + "\n" + b;
    if |b| >= 3 {
      assert s[|a|..|a| + 4] == "\n" + b[..3];
      assert CLOSE == "\n" + FENCE;
      assert b[..3] == ("\n" + b[..3])[1..] && FENCE == CLOSE[1..];
    }
  }

  /** Code contains no closing line exactly when none of its later lines begins with a fence. */
  lemma {:induction false} ContainsLines(lines: seq<string>)
    requires lines != []
    requires forall i | 0 <= i < |lines| :: '\n' !in lines[i]
    ensures Contains(Join(lines, "\n"), CLOSE) <==> exists k | 1 <= k < |lines| :: HasPrefix(lines[k], FENCE)
  {
    if |lines| == 1 {
      OneLine(lines[0]);
    } else {
      var front, last := Init(lines), Last(lines);
      ContainsLines(front);
      ContainsLine(Join(front, "\n"), last);
      assert forall k | 1 <= k < |front| :: front[k] == lines[k];
    }
  }

  lemma OneLine(line: string)
    requires '\n' !in line
    ensures !Contains(line, CLOSE)
  {
    forall i | 0 <= i <= |line| ensures !MatchAt(line, CLOSE, i) {
      if i + 4 <= |line| {
        assert line[i..i + 4][0] == line[i];
      }
    }
  }

  /** The lines of collapsed code: all of them, or the first three, the ellipsis and the last. */
  lemma CollapsedLines(code: string, lines: seq<string>)
    requires lines == Split(code, '\n')
    ensures Split(CollapseCode(code), '\n')
         == if |lines| <= 4 then lines else [lines[0], lines[1], lines[2], "…", Last(lines)]
  {
    if |lines| > 4 {
      SplitJoin([lines[0], lines[1], lines[2], ELLIPSIS, Last(lines)], '\n');
    }
  }

  lemma CollapseStable(code: string)
    ensures CollapseCode(CollapseCode(code)) == CollapseCode(code)
  {
    CollapsedLines(code, Split(code, '\n'));
  }

  lemma CollapseUnclosed(code: string)
    requires !Contains(code, CLOSE)
    ensures !Contains(CollapseCode(code), CLOSE)
  {
    var lines, kept := Split(code, '\n'), Split(CollapseCode(code), '\n');
    JoinSplit(code, '\n');
    JoinSplit(CollapseCode(code), '\n');
    ContainsLines(lines);
    ContainsLines(kept);
    CollapsedLines(code, Split(code, '\n'));
  }

  // ---- main results ------------------------------------------------------------------------

  /** Trimming twice is trimming once, for every text. */
  lemma {:induction false} TrimIdempotent(s: string)
    ensures Trim(Trim(s)) == Trim(s)
    decreases |s|
  {
    if Cut(s).Some? {
      TrimIdempotent(s[Cut(s).value.close + 4..]);
      TrimTwice(s);
    }
  }

  lemma TrimTwice(s: string)
    requires Cut(s).Some?
    requires var rest := s[Cut(s).value.close + 4..]; Trim(Trim(rest)) == Trim(rest)
    ensures Trim(Trim(s)) == Trim(s)
  {
    hide Cut, Trim, Block, CollapseCode, Contains, FenceFirst;
    var f := Cut(s).value;
    var pre, opening, code, rest := s[..f.start], s[f.start..f.eol], s[f.eol + 1..f.close], s[f.close + 4..];
    CutWellFenced(s);
    TrimRound(s);
    var kept := CollapseCode(code);
    CollapseUnclosed(code);
    CollapseStable(code);
    assert Trim(s) == pre + Block(opening, kept) + Trim(rest);
    TrimAssembled(pre, opening, kept, Trim(rest));
  }

  lemma TrimAssembled(pre: string, opening: string, code: string, rest: string)
    requires FenceFirst(pre) && WellFenced(opening, code)
    ensures Trim(pre + Block(opening, code) + rest) == pre + Block(opening, CollapseCode(code)) + Trim(rest)
  {
    hide Trim, FenceFirst, Contains, CollapseCode, IndexOf;
    var s := pre + Block(opening, code) + rest;
    CutAssembled(pre, opening, code, rest);
    TrimRound(s);
    var f := Cut(s).value;
    AssembledParts(pre, opening, code, rest);
    assert s[..f.start] == pre && s[f.start..f.eol] == opening && s[f.eol + 1..f.close] == code;
  }

  lemma AssembledParts(pre: string, opening: string, code: string, rest: string)
    ensures var s := pre + Block(opening, code) + rest;
            && s[..|pre|] == pre
            && s[|pre|..|pre| + |opening|] == opening
            && s[|pre| + |opening| + 1..|pre| + |opening| + 1 + |code|] == code
            && s[|pre| + |opening| + 1 + |code| + 4..] == rest
  {
  }

  lemma ParseRound(s: string)
    requires Cut(s).Some?
    ensures var f := Cut(s).value;
            var a, b := Outside(s[..f.start]), Fenced(s[f.start..f.eol], s[f.eol + 1..f.close]);
            Parse(s) == [a, b] + Parse(s[f.close + 4..])
  {
  }

  lemma CollapseTwo(a: Piece, b: Piece, rest: seq<Piece>)
    ensures CollapseAll([a, b] + rest) == [CollapsePiece(a), CollapsePiece(b)] + CollapseAll(rest)
  {
  }

  /** The pieces: joined as they are they give the text, collapsed they give the trimmed text. */
  lemma {:induction false} TrimIsCollapse(s: string)
    ensures Render(Parse(s)) == s
    ensures Render(CollapseAll(Parse(s))) == Trim(s)
    decreases |s|
  {
    if Cut(s).None? {
      RenderOne(Outside(s));
      assert CollapseAll([Outside(s)]) == [Outside(s)];
    } else {
      TrimIsCollapse(s[Cut(s).value.close + 4..]);
      RoundIsCollapse(s);
    }
  }

  lemma RoundIsCollapse(s: string)
    requires Cut(s).Some?
    requires var rest := s[Cut(s).value.close + 4..];
             Render(Parse(rest)) == rest && Render(CollapseAll(Parse(rest))) == Trim(rest)
    ensures Render(Parse(s)) == s && Render(CollapseAll(Parse(s))) == Trim(s)
  {
    hide Cut, Trim, Render, Parse, Block, CollapseCode, CollapseAll;
    var f := Cut(s).value;
    var rest := s[f.close + 4..];
    CutWellFenced(s);
    TrimRound(s);
    ParseRound(s);
    var a, b := Outside(s[..f.start]), Fenced(s[f.start..f.eol], s[f.eol + 1..f.close]);
    RenderTwo(a, b, Parse(rest));
    RenderTwo(CollapsePiece(a), CollapsePiece(b), CollapseAll(Parse(rest)));
    CollapseTwo(a, b, Parse(rest));
  }

  lemma RenderOne(p: Piece)
    ensures Render([p]) == Text(p)
  {
    assert [p][1..] == [];
  }

  lemma RenderTwo(a: Piece, b: Piece, rest: seq<Piece>)
    ensures Render([a, b] + rest) == Text(a) + Text(b) + Render(rest)
  {
    assert ([a, b] + rest)[1..] == [b] + rest && ([b] + rest)[1..] == rest;
    PlusAssoc(Text(a), Text(b), Render(rest));
  }

  /** Text and complete fences alternate; each fence starts where the first one could, and the last
      text has no complete fence left. */
  ghost predicate WellParsed(pieces: seq<Piece>) {
    if |pieces| < 2 then |pieces| == 1 && pieces[0].Outside? && Cut(pieces[0].text).None?
    else
      && pieces[0].Outside? && FenceFirst(pieces[0].text)
      && pieces[1].Fenced? && WellFenced(pieces[1].opening, pieces[1].code)
      && WellParsed(pieces[2..])
  }

  lemma {:induction false} ParseWellFormed(s: string)
    ensures WellParsed(Parse(s))
    decreases |s|
  {
    if Cut(s).Some? {
      var rest := s[Cut(s).value.close + 4..];
      ParseWellFormed(rest);
      ParseRound(s);
      CutWellFenced(s);
      assert Parse(s)[2..] == Parse(rest);
    }
  }

  lemma ParseNone(s: string)
    requires Cut(s).None?
    ensures Parse(s) == [Outside(s)]
  {
  }

  /** A well-parsed list of pieces is the parse of its own text: there is no other way to read it. */
  lemma {:induction false} ParseUnique(pieces: seq<Piece>)
    requires WellParsed(pieces)
    ensures Parse(Render(pieces)) == pieces
  {
    hide Cut, Block, Parse, FenceFirst, WellFenced, Render;
    if |pieces| == 1 {
      assert pieces == [pieces[0]] == [Outside(pieces[0].text)];
      RenderOne(pieces[0]);
      ParseNone(pieces[0].text);
    } else {
      var a, b, rest := pieces[0], pieces[1], pieces[2..];
      ParseUnique(rest);
      assert pieces == [a, b] + rest;
      RenderTwo(a, b, rest);
      ParseAssembled(a.text, b.opening, b.code, Render(rest));
    }
  }

  lemma ParseAssembled(pre: string, opening: string, code: string, rest: string)
    requires FenceFirst(pre) && WellFenced(opening, code)
    ensures Parse(pre + Block(opening, code) + rest) == [Outside(pre), Fenced(opening, code)] + Parse(rest)
  {
    hide Parse, Block, FenceFirst, WellFenced, Cut;
    var s := pre + Block(opening, code) + rest;
    CutAssembled(pre, opening, code, rest);
    var f := Cut(s).value;
    AssembledParts(pre, opening, code, rest);
    assert s[..f.start] == pre && s[f.start..f.eol] == opening && s[f.eol + 1..f.close] == code;
    ParseRound(s);
  }
}
