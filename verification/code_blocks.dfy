/** splitCodeBlocks: which positions of a text are frozen, and why joining the segments gives the
    text back. Text is a sequence of characters. */
module CodeBlocks {
  import opened Seqs
  import opened GoStrings

  datatype Segment = Segment(text: string, isCode: bool)

  const THINK_OPEN := "<think>"
  const THINK_CLOSE := "</think>"
  const FENCE := "```"

  // ---- segments ----------------------------------------------------------------------------

  function Joined(segs: seq<Segment>): string {
    if segs == [] then "" else Joined(Init(segs)) + Last(segs).text
  }

  function Repeat(b: bool, n: nat): (r: seq<bool>)
    ensures |r| == n && forall i | 0 <= i < n :: r[i] == b
  {
    seq(n, _ => b)
  }

  /** The flag of every position, segment by segment. */
  function Flags(segs: seq<Segment>): seq<bool> {
    if segs == [] then [] else Flags(Init(segs)) + Repeat(Last(segs).isCode, |Last(segs).text|)
  }

  predicate NoEmpty(segs: seq<Segment>) {
    forall i | 0 <= i < |segs| :: segs[i].text != ""
  }

  predicate NoAdjacentProse(segs: seq<Segment>) {
    forall i | 0 < i < |segs| :: segs[i - 1].isCode || segs[i].isCode
  }

  /** Segments that may follow one another: not prose on prose. */
  predicate Apart(a: seq<Segment>, b: seq<Segment>) {
    a == [] || b == [] || Last(a).isCode || b[0].isCode
  }

  lemma ApartPlus(a: seq<Segment>, b: seq<Segment>)
    requires NoAdjacentProse(a) && NoAdjacentProse(b) && Apart(a, b)
    ensures NoAdjacentProse(a + b)
  {
  }

  lemma JoinedSnoc(segs: seq<Segment>, s: Segment)
    ensures Joined(segs + [s]) == Joined(segs) + s.text
    ensures Flags(segs + [s]) == Flags(segs) + Repeat(s.isCode, |s.text|)
  {
    assert Init(segs + [s]) == segs;
  }

  lemma {:induction false} JoinedPlus(a: seq<Segment>, b: seq<Segment>)
    ensures Joined(a + b) == Joined(a) + Joined(b)
    ensures Flags(a + b) == Flags(a) + Flags(b)
  {
    if b == [] {
      assert a + b == a;
      assert Joined(a) + "" == Joined(a) && Flags(a) + [] == Flags(a);
    } else {
      hide Joined, Flags;
      var front, s := Init(b), Last(b);
      JoinedPlus(a, front);
      InitLast(b);
      PlusAssoc(a, front, [s]);
      JoinedSnoc(a + front, s);
      JoinedSnoc(front, s);
      PlusAssoc(Joined(a), Joined(front), s.text);
      PlusAssoc(Flags(a), Flags(front), Repeat(s.isCode, |s.text|));
    }
  }

  lemma {:induction false} FlagsLength(segs: seq<Segment>)
    ensures |Flags(segs)| == |Joined(segs)|
  {
    if segs != [] {
      FlagsLength(Init(segs));
    }
  }

  // ---- layer 3: inline code ----------------------------------------------------------------

  /** Whether an odd number of backticks has been seen, starting from `odd`. */
  function Parity(odd: bool, s: string): bool {
    if s == "" then odd else Parity(odd, Init(s)) != (Last(s) == '`')
  }

  /** A position is frozen when the backticks up to and including it are odd in number. */
  function TickMask(odd: bool, s: string): (m: seq<bool>)
    ensures |m| == |s|
  {
    if s == "" then [] else TickMask(odd, Init(s)) + [Parity(odd, s)]
  }

  lemma {:induction false} TickMaskAt(odd: bool, s: string, p: nat)
    requires p < |s|
    ensures TickMask(odd, s)[p] == Parity(odd, s[..p + 1])
  {
    if p == |s| - 1 {
      assert s[..p + 1] == s;
    } else {
      TickMaskAt(odd, Init(s), p);
      assert Init(s)[..p + 1] == s[..p + 1];
    }
  }

  /** The closing backtick of a code span is not frozen. */
  lemma ClosingTickFree()
    ensures TickMask(false, "`x`") == [true, true, false]
  {
    assert Init("`x`") == "`x" && Init("`x") == "`" && Init("`") == "";
    assert Parity(false, "") == false;
    assert Parity(false, "`") && Parity(false, "`x") && !Parity(false, "`x`");
  }

  lemma {:induction false} TickPlus(odd: bool, a: string, b: string)
    ensures Parity(odd, a + b) == Parity(Parity(odd, a), b)
    ensures TickMask(odd, a + b) == TickMask(odd, a) + TickMask(Parity(odd, a), b)
  {
    if b == "" {
      assert a + b == a;
    } else {
      TickPlus(odd, a, Init(b));
      assert Init(a + b) == a + Init(b) && Last(a + b) == Last(b);
      PlusAssoc(TickMask(odd, a), TickMask(Parity(odd, a), Init(b)), [Parity(odd, a + b)]);
    }
  }

  /** What is collected in cur does not continue the last segment. */
  predicate Alternating(segs: seq<Segment>, cur: string, inCode: bool) {
    && NoAdjacentProse(segs)
    && (segs != [] ==> cur != "" && Last(segs).isCode != inCode)
  }

  /** The loop's state: the first i characters are in segs and cur. */
  ghost predicate InlineScanned(text: string, i: nat, segs: seq<Segment>, cur: string, inCode: bool)
    requires i <= |text|
  {
    && NoEmpty(segs) && Alternating(segs, cur, inCode)
    && Joined(segs) + cur == text[..i]
    && Flags(segs) + Repeat(inCode, |cur|) == TickMask(false, text[..i])
    && inCode == Parity(false, text[..i])
  }

  function FlushInline(segs: seq<Segment>, cur: string, inCode: bool): seq<Segment> {
    if |cur| > 0 then segs + [Segment(cur, inCode)] else segs
  }

  lemma FlushInlineKeeps(segs: seq<Segment>, cur: string, inCode: bool)
    ensures Joined(FlushInline(segs, cur, inCode)) == Joined(segs) + cur
    ensures Flags(FlushInline(segs, cur, inCode)) == Flags(segs) + Repeat(inCode, |cur|)
  {
    if |cur| > 0 {
      JoinedSnoc(segs, Segment(cur, inCode));
    } else {
      assert Joined(segs) + "" == Joined(segs) && Flags(segs) + [] == Flags(segs);
    }
  }

  lemma FlushInlineShape(segs: seq<Segment>, cur: string, inCode: bool)
    requires NoEmpty(segs) && Alternating(segs, cur, inCode)
    ensures NoEmpty(FlushInline(segs, cur, inCode)) && NoAdjacentProse(FlushInline(segs, cur, inCode))
    ensures Alternating(FlushInline(segs, cur, inCode), "`", !inCode)
  {
  }

  lemma InlineTick(text: string, i: nat, segs: seq<Segment>, cur: string, inCode: bool)
    requires i < |text| && text[i] == '`' && InlineScanned(text, i, segs, cur, inCode)
    ensures InlineScanned(text, i + 1, FlushInline(segs, cur, inCode), "`", !inCode)
  {
    hide FlushInline, Joined, Flags, TickMask, Parity, Alternating, NoEmpty;
    FlushInlineKeeps(segs, cur, inCode);
    FlushInlineShape(segs, cur, inCode);
    assert text[..i + 1] == text[..i] + ['`'];
    TickSnoc(text[..i], '`');
    assert Repeat(!inCode, 1) == [!inCode];
  }

  lemma InlineOther(text: string, i: nat, segs: seq<Segment>, cur: string, inCode: bool)
    requires i < |text| && text[i] != '`' && InlineScanned(text, i, segs, cur, inCode)
    ensures InlineScanned(text, i + 1, segs, cur + [text[i]], inCode)
  {
    assert text[..i + 1] == text[..i] + [text[i]];
    TickSnoc(text[..i], text[i]);
    RepeatSnoc(inCode, |cur|);
    PlusAssoc(Flags(segs), Repeat(inCode, |cur|), [inCode]);
    PlusAssoc(Joined(segs), cur, [text[i]]);
  }

  method SplitInlineCode(text: string) returns (segs: seq<Segment>)
    ensures Joined(segs) == text && Flags(segs) == TickMask(false, text) && NoEmpty(segs) && NoAdjacentProse(segs)
  {
    segs := [];
    var cur := "";
    var inCode := false;
    var i := 0;
    while i < |text|
      invariant 0 <= i <= |text|
      invariant InlineScanned(text, i, segs, cur, inCode)
    {
      hide InlineScanned;
      var r := text[i];
      if r == '`' {
        InlineTick(text, i, segs, cur, inCode);
        if |cur| > 0 {
          segs := segs + [Segment(cur, inCode)];
        }
        cur := "`";
        inCode := !inCode;
      } else {
        InlineOther(text, i, segs, cur, inCode);
        cur := cur + [r];
      }
      i := i + 1;
    }
    assert text[..i] == text;
    FlushInlineKeeps(segs, cur, inCode);
    FlushInlineShape(segs, cur, inCode);
    if |cur| > 0 {
      segs := segs + [Segment(cur, inCode)];
    }
  }

  lemma TickSnoc(s: string, r: char)
    ensures Parity(false, s + [r]) == (Parity(false, s) != (r == '`'))
    ensures TickMask(false, s + [r]) == TickMask(false, s) + [Parity(false, s + [r])]
  {
    assert Init(s + [r]) == s;
  }

  lemma RepeatSnoc(b: bool, n: nat)
    ensures Repeat(b, n + 1) == Repeat(b, n) + [b]
  {
  }

  // ---- layer 2: fenced code ----------------------------------------------------------------

  predicate IsFence(line: string) {
    HasPrefix(TrimSpace(line), FENCE)
  }

  /** Line i with the newline that ended it. */
  function WholeLine(lines: seq<string>, i: nat): string
    requires i < |lines|
  {
    lines[i] + (if i < |lines| - 1 then "\n" else "")
  }

  /** The mask of lines i, i+1, …: fence lines and lines inside a fence are frozen, other lines by
      backtick parity, which restarts after every fence line. */
  function LinesMask(lines: seq<string>, i: nat, inFence: bool, odd: bool): (m: seq<bool>)
    requires i <= |lines|
    ensures |m| == |LinesFrom(lines, i)|
    decreases |lines| - i
  {
    if i == |lines| then []
    else
      var line := WholeLine(lines, i);
      if IsFence(lines[i]) then Repeat(true, |line|) + LinesMask(lines, i + 1, !inFence, false)
      else if inFence then Repeat(true, |line|) + LinesMask(lines, i + 1, true, false)
      else TickMask(odd, line) + LinesMask(lines, i + 1, false, Parity(odd, line))
  }

  /** The frozen positions of a text outside reasoning blocks. */
  function RegionMask(text: string): (m: seq<bool>)
    ensures |m| == |text|
  {
    LinesFromSplit(text);
    LinesMask(Split(text, '\n'), 0, false, false)
  }

  lemma LinesFromSplit(text: string)
    ensures LinesFrom(Split(text, '\n'), 0) == text
  {
    JoinSplit(text, '\n');
    LinesFromJoin(Split(text, '\n'), 0);
    assert Split(text, '\n')[0..] == Split(text, '\n');
  }

  function CurMask(inFence: bool, cur: string): seq<bool> {
    if inFence then Repeat(true, |cur|) else TickMask(false, cur)
  }

  /** The mask of fence-level segments once their prose is split on inline code. */
  function InlineFlags(segs: seq<Segment>): seq<bool> {
    if segs == [] then []
    else InlineFlags(Init(segs)) + CurMask(Last(segs).isCode, Last(segs).text)
  }

  lemma InlineSnoc(segs: seq<Segment>, s: Segment)
    ensures InlineFlags(segs + [s]) == InlineFlags(segs) + CurMask(s.isCode, s.text)
  {
    assert Init(segs + [s]) == segs;
  }

  function Flush(segs: seq<Segment>, cur: string, isCode: bool): seq<Segment> {
    if cur == "" then segs else segs + [Segment(cur, isCode)]
  }

  lemma FlushKeeps(segs: seq<Segment>, cur: string, isCode: bool)
    requires NoEmpty(segs)
    ensures NoEmpty(Flush(segs, cur, isCode))
    ensures Joined(Flush(segs, cur, isCode)) == Joined(segs) + cur
    ensures InlineFlags(Flush(segs, cur, isCode)) == InlineFlags(segs) + CurMask(isCode, cur)
  {
    if cur == "" {
      assert Joined(segs) + "" == Joined(segs) && InlineFlags(segs) + [] == InlineFlags(segs);
    } else {
      JoinedSnoc(segs, Segment(cur, isCode));
      InlineSnoc(segs, Segment(cur, isCode));
    }
  }

  /** Text of the lines from i on. */
  function LinesFrom(lines: seq<string>, i: nat): string
    requires i <= |lines|
    decreases |lines| - i
  {
    if i == |lines| then "" else WholeLine(lines, i) + LinesFrom(lines, i + 1)
  }

  /** Segments that end a run: the next text starts a segment of its own. */
  predicate Shaped(segs: seq<Segment>) {
    NoEmpty(segs) && NoAdjacentProse(segs) && (segs != [] ==> Last(segs).isCode)
  }

  /** The loop's state: everything before line i is in segs and cur. */
  ghost predicate Scanned(text: string, lines: seq<string>, i: nat, segs: seq<Segment>, cur: string, inFence: bool)
    requires i <= |lines|
  {
    && Shaped(segs)
    && Joined(segs) + cur + LinesFrom(lines, i) == text
    && InlineFlags(segs) + CurMask(inFence, cur)
         + LinesMask(lines, i, inFence, !inFence && Parity(false, cur)) == RegionMask(text)
  }

  lemma ScanFence(text: string, lines: seq<string>, i: nat, segs: seq<Segment>, cur: string, inFence: bool)
    requires i < |lines| && IsFence(lines[i]) && Scanned(text, lines, i, segs, cur, inFence)
    ensures Scanned(text, lines, i + 1, Flush(Flush(segs, cur, inFence), WholeLine(lines, i), true), "", !inFence)
  {
    hide IsFence, Shaped, Flush, Joined, InlineFlags, LinesFrom, LinesMask, CurMask, Parity, RegionMask, WholeLine;
    FenceNotEmpty(lines, i);
    FenceShape(segs, cur, inFence, WholeLine(lines, i));
    FenceLine(lines, i, inFence, !inFence && Parity(false, cur));
    FlushTwice(segs, cur, inFence, WholeLine(lines, i));
    PlusAssoc(Joined(segs) + cur, WholeLine(lines, i), LinesFrom(lines, i + 1));
    PlusAssoc(InlineFlags(segs) + CurMask(inFence, cur), Repeat(true, |WholeLine(lines, i)|), LinesMask(lines, i + 1, !inFence, false));
    EmptyCur(Flush(Flush(segs, cur, inFence), WholeLine(lines, i), true), !inFence);
  }

  lemma FenceNotEmpty(lines: seq<string>, i: nat)
    requires i < |lines| && IsFence(lines[i])
    ensures WholeLine(lines, i) != ""
  {
    assert TrimSpace("") == "";
  }

  lemma FenceShape(segs: seq<Segment>, cur: string, inFence: bool, line: string)
    requires Shaped(segs) && line != ""
    ensures Shaped(Flush(Flush(segs, cur, inFence), line, true))
  {
  }

  /** A fence line at the head of the rest. */
  lemma FenceLine(lines: seq<string>, i: nat, inFence: bool, odd: bool)
    requires i < |lines| && IsFence(lines[i])
    ensures LinesFrom(lines, i) == WholeLine(lines, i) + LinesFrom(lines, i + 1)
    ensures LinesMask(lines, i, inFence, odd) == Repeat(true, |WholeLine(lines, i)|) + LinesMask(lines, i + 1, !inFence, false)
  {
    hide IsFence, WholeLine, Parity, TickMask;
  }

  lemma FlushTwice(segs: seq<Segment>, cur: string, inFence: bool, line: string)
    requires Shaped(segs)
    ensures var s := Flush(Flush(segs, cur, inFence), line, true);
            && Joined(s) == Joined(segs) + cur + line
            && InlineFlags(s) == InlineFlags(segs) + CurMask(inFence, cur) + Repeat(true, |line|)
  {
    hide Flush, Joined, InlineFlags, TickMask, NoAdjacentProse;
    FlushKeeps(segs, cur, inFence);
    FlushKeeps(Flush(segs, cur, inFence), line, true);
  }

  lemma EmptyCur(segs: seq<Segment>, inFence: bool)
    ensures Joined(segs) + "" == Joined(segs)
    ensures InlineFlags(segs) + CurMask(inFence, "") == InlineFlags(segs)
    ensures !Parity(false, "")
  {
    hide Joined, InlineFlags;
  }

  lemma CurMaskPlus(inFence: bool, cur: string, line: string)
    ensures CurMask(inFence, cur + line)
         == CurMask(inFence, cur) + (if inFence then Repeat(true, |line|) else TickMask(Parity(false, cur), line))
  {
    if !inFence {
      TickPlus(false, cur, line);
    }
  }

  lemma LinesMaskPlain(lines: seq<string>, i: nat, inFence: bool, cur: string)
    requires i < |lines| && !IsFence(lines[i])
    ensures LinesMask(lines, i, inFence, !inFence && Parity(false, cur))
         == (if inFence then Repeat(true, |WholeLine(lines, i)|) else TickMask(Parity(false, cur), WholeLine(lines, i)))
          + LinesMask(lines, i + 1, inFence, !inFence && Parity(false, cur + WholeLine(lines, i)))
  {
    TickPlus(false, cur, WholeLine(lines, i));
  }

  lemma ScanPlain(text: string, lines: seq<string>, i: nat, segs: seq<Segment>, cur: string, inFence: bool)
    requires i < |lines| && !IsFence(lines[i]) && Scanned(text, lines, i, segs, cur, inFence)
    ensures Scanned(text, lines, i + 1, segs, cur + WholeLine(lines, i), inFence)
  {
    var line := WholeLine(lines, i);
    assert LinesFrom(lines, i) == line + LinesFrom(lines, i + 1);
    hide LinesMask, LinesFrom, TickMask, Parity, CurMask, WholeLine, Split, Joined, InlineFlags, IsFence, Shaped, RegionMask;
    CurMaskPlus(inFence, cur, line);
    LinesMaskPlain(lines, i, inFence, cur);
    PlusAssoc(Joined(segs) + cur, line, LinesFrom(lines, i + 1));
    PlusAssoc(Joined(segs), cur, line);
    var mask := if inFence then Repeat(true, |line|) else TickMask(Parity(false, cur), line);
    var rest := LinesMask(lines, i + 1, inFence, !inFence && Parity(false, cur + line));
    PlusAssoc(InlineFlags(segs) + CurMask(inFence, cur), mask, rest);
    PlusAssoc(InlineFlags(segs), CurMask(inFence, cur), mask);
  }

  lemma {:induction false} LinesFromJoin(lines: seq<string>, i: nat)
    requires i < |lines|
    ensures LinesFrom(lines, i) == Join(lines[i..], "\n")
    decreases |lines| - i
  {
    if i == |lines| - 1 {
      assert lines[i..] == [lines[i]];
      assert LinesFrom(lines, i + 1) == "" && lines[i] + "" + "" == lines[i];
    } else {
      LinesFromJoin(lines, i + 1);
      assert lines[i..] == [lines[i]] + lines[i + 1..];
      JoinCons(lines[i], lines[i + 1..], "\n");
    }
  }

  lemma {:induction false} JoinCons(x: string, rest: seq<string>, glue: string)
    requires rest != []
    ensures Join([x] + rest, glue) == x + glue + Join(rest, glue)
  {
    hide Join;
    var front, last := Init(rest), Last(rest);
    InitLast(rest);
    JoinOne(x, glue);
    if front == [] {
      assert rest == [last] && [x] + rest == [x] + [last];
      JoinOne(last, glue);
      JoinSnoc([x], glue, last);
    } else {
      JoinCons(x, front, glue);
      PlusAssoc([x], front, [last]);
      JoinSnoc([x] + front, glue, last);
      JoinSnoc(front, glue, last);
      PlusAssoc(x + glue, Join(front, glue), glue);
      PlusAssoc(x + glue, Join(front, glue) + glue, last);
    }
  }

  method SplitFencedAndInline(text: string) returns (out: seq<Segment>)
    ensures Joined(out) == text && Flags(out) == RegionMask(text) && NoEmpty(out) && NoAdjacentProse(out)
  {
    hide Scanned, IsFence, Flush, RegionMask, Joined, Flags, InlineFlags, NoEmpty, NoAdjacentProse, Split;
    var segs: seq<Segment> := [];
    var cur := "";
    var inFence := false;
    var lines := Split(text, '\n');
    ScanStart(text, lines);
    var i := 0;
    while i < |lines|
      invariant 0 <= i <= |lines|
      invariant Scanned(text, lines, i, segs, cur, inFence)
    {
      var whole := if i < |lines| - 1 then lines[i] + "\n" else lines[i];
      WholeIs(lines, i);
      if IsFence(lines[i]) {
        ScanFence(text, lines, i, segs, cur, inFence);
        segs := Flush(segs, cur, inFence);
        segs := Flush(segs, whole, true);
        cur := "";
        inFence := !inFence;
      } else {
        ScanPlain(text, lines, i, segs, cur, inFence);
        cur := cur + whole;
      }
      i := i + 1;
    }
    ScanEnd(text, lines, segs, cur, inFence);
    segs := Flush(segs, cur, inFence);
    out := SplitInlineAll(segs);
  }

  lemma WholeIs(lines: seq<string>, i: nat)
    requires i < |lines|
    ensures WholeLine(lines, i) == if i < |lines| - 1 then lines[i] + "\n" else lines[i]
  {
    assert lines[i] + "" == lines[i];
  }

  lemma ScanEnd(text: string, lines: seq<string>, segs: seq<Segment>, cur: string, inFence: bool)
    requires Scanned(text, lines, |lines|, segs, cur, inFence)
    ensures NoEmpty(Flush(segs, cur, inFence)) && NoAdjacentProse(Flush(segs, cur, inFence))
    ensures Joined(Flush(segs, cur, inFence)) == text && InlineFlags(Flush(segs, cur, inFence)) == RegionMask(text)
  {
    hide Joined, InlineFlags, CurMask, RegionMask, Parity, Flush, Shaped, LinesFrom, LinesMask;
    LastShape(segs, cur, inFence);
    FlushKeeps(segs, cur, inFence);
    NoLines(lines, inFence, !inFence && Parity(false, cur));
    assert text + "" == text;
    assert InlineFlags(segs) + CurMask(inFence, cur) + [] == InlineFlags(segs) + CurMask(inFence, cur);
    assert Joined(segs) + cur + "" == Joined(segs) + cur;
  }

  lemma LastShape(segs: seq<Segment>, cur: string, inFence: bool)
    requires Shaped(segs)
    ensures NoEmpty(segs) && NoEmpty(Flush(segs, cur, inFence)) && NoAdjacentProse(Flush(segs, cur, inFence))
  {
  }

  lemma NoLines(lines: seq<string>, inFence: bool, odd: bool)
    ensures LinesFrom(lines, |lines|) == "" && LinesMask(lines, |lines|, inFence, odd) == []
  {
  }

  lemma ScanStart(text: string, lines: seq<string>)
    requires lines == Split(text, '\n')
    ensures Scanned(text, lines, 0, [], "", false)
  {
    hide Split, LinesFrom, LinesMask;
    LinesFromSplit(text);
    RegionIs(text);
    assert "" + text == text && [] + RegionMask(text) == RegionMask(text);
    EmptyCur([], false);
  }

  lemma RegionIs(text: string)
    ensures RegionMask(text) == LinesMask(Split(text, '\n'), 0, false, false)
  {
  }

  /** Prose segments are split on inline code, code segments stay. */
  method SplitInlineAll(segs: seq<Segment>) returns (out: seq<Segment>)
    requires NoEmpty(segs) && NoAdjacentProse(segs)
    ensures Joined(out) == Joined(segs) && Flags(out) == InlineFlags(segs) && NoEmpty(out) && NoAdjacentProse(out)
  {
    out := [];
    assert segs[..0] == [] && Inlined([], []);
    for i := 0 to |segs|
      invariant Inlined(segs[..i], out)
    {
      hide Inlined, Joined, Flags, InlineFlags, TickMask;
      var s := segs[i];
      assert segs[..i + 1] == segs[..i] + [s];
      ProsePrefix(segs, i);
      if s.isCode {
        OneFlag(s);
        InlineStep(segs[..i], out, s, [s]);
        out := out + [s];
      } else {
        var inner := SplitInlineCode(s.text);
        InlineStep(segs[..i], out, s, inner);
        out := out + inner;
      }
    }
    assert segs[..|segs|] == segs;
  }

  /** The segments of the first fence-level segments. */
  ghost predicate Inlined(done: seq<Segment>, out: seq<Segment>) {
    && NoEmpty(out) && NoAdjacentProse(out)
    && (out == [] || Last(out).isCode || (done != [] && !Last(done).isCode))
    && Joined(out) == Joined(done) && Flags(out) == InlineFlags(done)
  }

  lemma ProsePrefix(segs: seq<Segment>, i: nat)
    requires NoEmpty(segs) && NoAdjacentProse(segs) && i < |segs|
    ensures segs[i].text != "" && NoAdjacentProse(segs[..i] + [segs[i]])
  {
  }

  lemma InlineStep(done: seq<Segment>, out: seq<Segment>, s: Segment, inner: seq<Segment>)
    requires Inlined(done, out) && NoAdjacentProse(done + [s]) && s.text != ""
    requires if s.isCode then inner == [s] else NoEmpty(inner) && NoAdjacentProse(inner) && Flags(inner) == TickMask(false, s.text)
    requires Joined(inner) == s.text
    ensures Inlined(done + [s], out + inner)
  {
    hide Joined, Flags, InlineFlags, TickMask;
    InlineSnoc(done, s);
    JoinedSnoc(done, s);
    JoinedPlus(out, inner);
    if done != [] {
      assert (done + [s])[|done| - 1] == Last(done) && (done + [s])[|done|] == s;
    }
    ApartPlus(out, inner);
    if s.isCode {
      OneFlag(s);
    }
  }

  lemma OneFlag(s: Segment)
    ensures Joined([s]) == s.text && Flags([s]) == Repeat(s.isCode, |s.text|)
  {
    JoinedSnoc([], s);
    assert [] + [s] == [s] && "" + s.text == s.text && [] + Repeat(s.isCode, |s.text|) == Repeat(s.isCode, |s.text|);
  }

  // ---- layer 2, position by position -------------------------------------------------------

  function Offset(lines: seq<string>, i: nat): nat
    requires i <= |lines|
  {
    if i == 0 then 0 else Offset(lines, i - 1) + |WholeLine(lines, i - 1)|
  }

  /** Parity counts the backticks. */
  lemma {:induction false} ParityIs(s: string)
    ensures Parity(false, s) <==> multiset(s)['`'] % 2 == 1
  {
    if s != "" {
      ParityIs(Init(s));
      InitLast(s);
    }
  }

  /** Three backticks, with nothing but spaces before them. */
  ghost predicate FenceMark(line: string) {
    exists k {:trigger line[k]} | 0 <= k <= |line| - 3 ::
      line[k] == line[k + 1] == line[k + 2] == '`' && forall j | 0 <= j < k :: Space(line[j])
  }

  lemma FenceIs(line: string)
    ensures IsFence(line) <==> FenceMark(line)
  {
    hide TrimSpace, Space;
    var a, b := TrimSpaceIs(line);
    forall j | 0 <= j < a ensures Space(line[j]) {
      assert line[j] == line[..a][j];
    }
    forall j | b <= j < |line| ensures Space(line[j]) {
      assert line[j] == line[b..][j - b];
    }
    if IsFence(line) {
      assert line[a..b][..3] == FENCE;
      assert line[a] == line[a..b][..3][0] && line[a + 1] == line[a..b][..3][1] && line[a + 2] == line[a..b][..3][2];
    }
    if FenceMark(line) {
      var k :| 0 <= k <= |line| - 3 && line[k] == line[k + 1] == line[k + 2] == '`' && forall j | 0 <= j < k :: Space(line[j]);
      FenceInside(line, a, b, k);
    }
  }

  lemma FenceInside(line: string, a: nat, b: nat, k: nat)
    requires a <= b <= |line| && (a < b ==> !Space(line[a]))
    requires (forall j | 0 <= j < a :: Space(line[j])) && forall j | b <= j < |line| :: Space(line[j])
    requires k <= |line| - 3 && line[k] == line[k + 1] == line[k + 2] == '`' && forall j | 0 <= j < k :: Space(line[j])
    ensures a == k && k + 3 <= b && HasPrefix(line[a..b], FENCE)
  {
    assert !Space('`');
    hide Space;
    assert line[a..b][..3] == FENCE;
  }

  /** An odd number of the first i lines are fence lines. */
  ghost predicate OddFences(lines: seq<string>, i: nat)
    requires i <= |lines|
  {
    i > 0 && (OddFences(lines, i - 1) != FenceMark(lines[i - 1]))
  }

  /** The text of the lines since the last fence line before line i. */
  ghost function RunBefore(lines: seq<string>, i: nat): string
    requires i <= |lines|
  {
    if i == 0 || FenceMark(lines[i - 1]) then "" else RunBefore(lines, i - 1) + WholeLine(lines, i - 1)
  }

  lemma {:induction false} MaskFromLine(lines: seq<string>, i: nat)
    requires i <= |lines|
    ensures var mask := LinesMask(lines, 0, false, false);
            && Offset(lines, i) <= |mask|
            && mask[Offset(lines, i)..]
            == LinesMask(lines, i, OddFences(lines, i), !OddFences(lines, i) && Parity(false, RunBefore(lines, i)))
  {
    var mask := LinesMask(lines, 0, false, false);
    if i == 0 {
      assert mask[0..] == mask;
    } else {
      hide IsFence, FenceMark;
      FenceIs(lines[i - 1]);
      MaskFromLine(lines, i - 1);
      var line, run := WholeLine(lines, i - 1), RunBefore(lines, i - 1);
      TickPlus(false, run, line);
      var tail := LinesMask(lines, i, OddFences(lines, i), !OddFences(lines, i) && Parity(false, RunBefore(lines, i)));
      var before := mask[Offset(lines, i - 1)..];
      assert |before| == |line| + |tail| && before[|line|..] == tail;
      DropDrop(mask, Offset(lines, i - 1), Offset(lines, i));
    }
  }

  /** A position is frozen exactly when its line is a fence line, or an odd number of fence lines
      precede it, or the backticks of its prose run up to it are odd in number. */
  lemma RegionMaskAt(text: string, i: nat, q: nat)
    requires i < |Split(text, '\n')| && q < |WholeLine(Split(text, '\n'), i)|
    ensures var lines := Split(text, '\n');
            && Offset(lines, i) + q < |RegionMask(text)|
            && RegionMask(text)[Offset(lines, i) + q]
               == (FenceMark(lines[i]) || OddFences(lines, i)
                   || multiset(RunBefore(lines, i) + WholeLine(lines, i)[..q + 1])['`'] % 2 == 1)
  {
    hide IsFence, FenceMark;
    FenceIs(Split(text, '\n')[i]);
    ParityIs(RunBefore(Split(text, '\n'), i) + WholeLine(Split(text, '\n'), i)[..q + 1]);
    var lines := Split(text, '\n');
    var line, run := WholeLine(lines, i), RunBefore(lines, i);
    MaskFromLine(lines, i);
    var here := RegionMask(text)[Offset(lines, i)..];
    assert here[q] == RegionMask(text)[Offset(lines, i) + q];
    if !IsFence(lines[i]) && !OddFences(lines, i) {
      assert here[q] == TickMask(Parity(false, run), line)[q];
      TickMaskAt(Parity(false, run), line, q);
      TickPlus(false, run, line[..q + 1]);
    }
  }

  // ---- layer 1: reasoning blocks -----------------------------------------------------------

  /** Outside a reasoning block. */
  function OutMask(t: string): (m: seq<bool>)
    ensures |m| == |t|
    decreases |t|, 1
  {
    if t == "" then []
    else if HasPrefix(t, THINK_OPEN) then InMask(t)
    else [false] + OutMask(t[1..])
  }

  /** Inside one; the closing tag still belongs to it, and without one the rest is frozen. */
  function InMask(t: string): (m: seq<bool>)
    ensures |m| == |t|
    decreases |t|, 0
  {
    if t == "" then []
    else if HasPrefix(t, THINK_CLOSE) then Repeat(true, |THINK_CLOSE|) + OutMask(t[|THINK_CLOSE|..])
    else [true] + InMask(t[1..])
  }

  lemma PrefixAt(t: string, pat: string, i: nat)
    requires i <= |t|
    ensures HasPrefix(t[i..], pat) <==> MatchAt(t, pat, i)
  {
    if i + |pat| <= |t| {
      assert t[i..][..|pat|] == t[i..i + |pat|];
    }
  }

  lemma {:induction false} OutRun(t: string, n: nat)
    requires n <= |t| && forall i | 0 <= i < n :: !MatchAt(t, THINK_OPEN, i)
    ensures OutMask(t) == Repeat(false, n) + OutMask(t[n..])
  {
    if n == 0 {
      assert t[0..] == t && [] + OutMask(t) == OutMask(t);
    } else {
      OutRun(t, n - 1);
      PrefixAt(t, THINK_OPEN, n - 1);
      assert t[n - 1..][1..] == t[n..];
      RepeatSnoc(false, n - 1);
      PlusAssoc(Repeat(false, n - 1), [false], OutMask(t[n..]));
    }
  }

  lemma {:induction false} InRun(t: string, n: nat)
    requires n <= |t| && forall i | 0 <= i < n :: !MatchAt(t, THINK_CLOSE, i)
    ensures InMask(t) == Repeat(true, n) + InMask(t[n..])
  {
    if n == 0 {
      assert t[0..] == t && [] + InMask(t) == InMask(t);
    } else {
      InRun(t, n - 1);
      PrefixAt(t, THINK_CLOSE, n - 1);
      assert t[n - 1..][1..] == t[n..];
      RepeatSnoc(true, n - 1);
      PlusAssoc(Repeat(true, n - 1), [true], InMask(t[n..]));
    }
  }

  lemma OutNone(t: string)
    requires IndexOf(t, THINK_OPEN) == -1
    ensures OutMask(t) == Repeat(false, |t|)
  {
    OutRun(t, |t|);
    assert t[|t|..] == "" && Repeat(false, |t|) + [] == Repeat(false, |t|);
  }

  lemma OutSome(t: string, open: nat)
    requires IndexOf(t, THINK_OPEN) == open
    ensures OutMask(t) == Repeat(false, open) + InMask(t[open..])
  {
    OutRun(t, open);
    PrefixAt(t, THINK_OPEN, open);
  }

  lemma InNone(t: string)
    requires IndexOf(t, THINK_CLOSE) == -1
    ensures InMask(t) == Repeat(true, |t|)
  {
    InRun(t, |t|);
    assert t[|t|..] == "" && Repeat(true, |t|) + [] == Repeat(true, |t|);
  }

  lemma InSome(t: string, close: nat)
    requires IndexOf(t, THINK_CLOSE) == close
    ensures InMask(t) == Repeat(true, close + |THINK_CLOSE|) + OutMask(t[close + |THINK_CLOSE|..])
  {
    InRun(t, close);
    PrefixAt(t, THINK_CLOSE, close);
    assert t[close..][|THINK_CLOSE|..] == t[close + |THINK_CLOSE|..];
    assert Repeat(true, close) + Repeat(true, |THINK_CLOSE|) == Repeat(true, close + |THINK_CLOSE|);
    PlusAssoc(Repeat(true, close), Repeat(true, |THINK_CLOSE|), OutMask(t[close + |THINK_CLOSE|..]));
  }

  /** What is split so far, and what is left. */
  ghost predicate ThinkScanned(text: string, segs: seq<Segment>, rest: string) {
    && NoEmpty(segs) && NoAdjacentProse(segs)
    && (segs != [] ==> Last(segs).isCode)
    && Joined(segs) + rest == text
    && Flags(segs) + OutMask(rest) == OutMask(text)
  }

  ghost predicate ThinkDone(text: string, segs: seq<Segment>) {
    NoEmpty(segs) && NoAdjacentProse(segs) && Joined(segs) == text && Flags(segs) == OutMask(text)
  }

  function WithProse(segs: seq<Segment>, prose: string): seq<Segment> {
    if prose != "" then segs + [Segment(prose, false)] else segs
  }

  lemma WithProseKeeps(segs: seq<Segment>, prose: string)
    requires NoEmpty(segs) && NoAdjacentProse(segs) && (segs != [] ==> Last(segs).isCode)
    ensures NoEmpty(WithProse(segs, prose)) && NoAdjacentProse(WithProse(segs, prose))
    ensures Joined(WithProse(segs, prose)) == Joined(segs) + prose
    ensures Flags(WithProse(segs, prose)) == Flags(segs) + Repeat(false, |prose|)
  {
    hide Joined, Flags;
    if prose == "" {
      assert Joined(segs) + "" == Joined(segs) && Flags(segs) + [] == Flags(segs);
    } else {
      JoinedSnoc(segs, Segment(prose, false));
    }
  }

  lemma ThinkNone(text: string, segs: seq<Segment>, rest: string)
    requires ThinkScanned(text, segs, rest) && IndexOf(rest, THINK_OPEN) == -1
    ensures ThinkDone(text, WithProse(segs, rest))
  {
    OutNone(rest);
    WithProseKeeps(segs, rest);
  }

  lemma AddCode(segs: seq<Segment>, prose: string, code: string)
    requires NoEmpty(segs) && NoAdjacentProse(segs) && (segs != [] ==> Last(segs).isCode) && code != ""
    ensures var out := WithProse(segs, prose) + [Segment(code, true)];
            && NoEmpty(out) && NoAdjacentProse(out)
            && Joined(out) == Joined(segs) + prose + code
            && Flags(out) == Flags(segs) + Repeat(false, |prose|) + Repeat(true, |code|)
  {
    CodeShape(segs, prose, code);
    hide Joined, Flags, NoEmpty, NoAdjacentProse, WithProse;
    WithProseKeeps(segs, prose);
    JoinedSnoc(WithProse(segs, prose), Segment(code, true));
  }

  lemma CodeShape(segs: seq<Segment>, prose: string, code: string)
    requires NoEmpty(segs) && NoAdjacentProse(segs) && (segs != [] ==> Last(segs).isCode) && code != ""
    ensures NoEmpty(WithProse(segs, prose) + [Segment(code, true)]) && NoAdjacentProse(WithProse(segs, prose) + [Segment(code, true)])
  {
  }

  /** Prose, then a frozen block: the masks and the texts line up. */
  lemma ThinkStep(text: string, segs: seq<Segment>, rest: string, prose: string, code: string, left: string)
    requires ThinkScanned(text, segs, rest) && code != ""
    requires rest == prose + (code + left)
    requires OutMask(rest) == Repeat(false, |prose|) + (Repeat(true, |code|) + OutMask(left))
    ensures ThinkScanned(text, WithProse(segs, prose) + [Segment(code, true)], left)
  {
    hide OutMask, WithProse, Joined, Flags;
    AddCode(segs, prose, code);
    PlusAssoc(Joined(segs), prose, code + left);
    PlusAssoc(Joined(segs) + prose, code, left);
    var f, p, c := Flags(segs), Repeat(false, |prose|), Repeat(true, |code|);
    PlusAssoc(f, p, c + OutMask(left));
    PlusAssoc(f + p, c, OutMask(left));
  }

  lemma ThinkUnclosed(text: string, segs: seq<Segment>, rest: string, open: nat)
    requires ThinkScanned(text, segs, rest) && IndexOf(rest, THINK_OPEN) == open
    requires IndexOf(rest[open..], THINK_CLOSE) == -1
    ensures ThinkDone(text, WithProse(segs, rest[..open]) + [Segment(rest[open..], true)])
  {
    hide InMask, ThinkScanned;
    OutSome(rest, open);
    InNone(rest[open..]);
    OpenInside(rest, open);
    var prose, code := rest[..open], rest[open..];
    assert rest == prose + (code + "") && Repeat(true, |code|) + OutMask("") == Repeat(true, |code|);
    ThinkStep(text, segs, rest, prose, code, "");
    ThinkEnd(text, WithProse(segs, prose) + [Segment(code, true)]);
  }

  lemma ThinkEnd(text: string, segs: seq<Segment>)
    requires ThinkScanned(text, segs, "")
    ensures ThinkDone(text, segs)
  {
    assert Joined(segs) + "" == Joined(segs) && Flags(segs) + [] == Flags(segs);
  }

  lemma OpenInside(rest: string, open: nat)
    requires IndexOf(rest, THINK_OPEN) == open
    ensures open + |THINK_OPEN| <= |rest|
  {
  }

  lemma CloseInside(rest: string, open: nat, close: nat)
    requires open <= |rest| && IndexOf(rest[open..], THINK_CLOSE) == close
    ensures open + close + |THINK_CLOSE| <= |rest|
  {
  }

  lemma ThreeParts(rest: string, open: nat, end: nat)
    requires open <= end <= |rest|
    ensures rest == rest[..open] + (rest[open..end] + rest[end..])
    ensures rest[open..][end - open..] == rest[end..]
  {
  }

  lemma ThinkClosed(text: string, segs: seq<Segment>, rest: string, open: nat, close: nat, end: nat)
    requires ThinkScanned(text, segs, rest) && IndexOf(rest, THINK_OPEN) == open
    requires IndexOf(rest[open..], THINK_CLOSE) == close && end == open + close + |THINK_CLOSE| <= |rest|
    ensures ThinkScanned(text, WithProse(segs, rest[..open]) + [Segment(rest[open..end], true)], rest[end..])
  {
    hide OutMask, InMask, ThinkScanned, IndexOf, FirstMatch;
    OutSome(rest, open);
    InSome(rest[open..], close);
    ThreeParts(rest, open, end);
    ThinkStep(text, segs, rest, rest[..open], rest[open..end], rest[end..]);
  }

  method SplitThinkBlocks(text: string) returns (segs: seq<Segment>)
    ensures ThinkDone(text, segs)
  {
    segs := [];
    var rest := text;
    assert "" + text == text && [] + OutMask(text) == OutMask(text);
    while true
      invariant ThinkScanned(text, segs, rest)
      decreases |rest|
    {
      hide ThinkScanned, ThinkDone, IndexOf, FirstMatch;
      var openIdx := IndexOf(rest, THINK_OPEN);
      if openIdx == -1 {
        ThinkNone(text, segs, rest);
        if rest != "" {
          segs := segs + [Segment(rest, false)];
        }
        return;
      }
      OpenInside(rest, openIdx);
      ghost var before := segs;
      if openIdx > 0 {
        segs := segs + [Segment(rest[..openIdx], false)];
      }
      var closeRel := IndexOf(rest[openIdx..], THINK_CLOSE);
      if closeRel == -1 {
        ThinkUnclosed(text, before, rest, openIdx);
        segs := segs + [Segment(rest[openIdx..], true)];
        return;
      }
      CloseInside(rest, openIdx, closeRel);
      var end := openIdx + closeRel + |THINK_CLOSE|;
      ThinkClosed(text, before, rest, openIdx, closeRel, end);
      segs := segs + [Segment(rest[openIdx..end], true)];
      rest := rest[end..];
    }
  }

  // ---- the whole splitter ------------------------------------------------------------------

  /** How many positions from the start are not frozen. */
  function FalseRun(m: seq<bool>): (n: nat)
    ensures n <= |m|
  {
    if m == [] || m[0] then 0 else 1 + FalseRun(m[1..])
  }

  /** Reasoning blocks stay frozen; every maximal run outside them is masked on its own. */
  function Fill(t: string, m: seq<bool>): (r: seq<bool>)
    requires |t| == |m|
    decreases |t|
    ensures |r| == |t|
  {
    if t == "" then []
    else if m[0] then [true] + Fill(t[1..], m[1..])
    else RegionMask(t[..FalseRun(m)]) + Fill(t[FalseRun(m)..], m[FalseRun(m)..])
  }

  /** The frozen positions of a text: reasoning blocks, fence lines and what they enclose, inline code. */
  function FrozenMask(t: string): (m: seq<bool>)
    ensures |m| == |t|
  {
    Fill(t, OutMask(t))
  }

  function LayerMask(s: Segment): seq<bool> {
    if s.isCode then Repeat(true, |s.text|) else RegionMask(s.text)
  }

  function LayerFlags(segs: seq<Segment>): seq<bool> {
    if segs == [] then [] else LayerMask(segs[0]) + LayerFlags(segs[1..])
  }

  lemma FillTrueStep(t: string, m: seq<bool>)
    requires |t| == |m| > 0 && m[0]
    ensures Fill(t, m) == [true] + Fill(t[1..], m[1..])
  {
    hide RegionMask, FalseRun;
  }

  lemma {:induction false} FillTrue(u: string, v: string, m: seq<bool>)
    requires |v| == |m|
    ensures Fill(u + v, Repeat(true, |u|) + m) == Repeat(true, |u|) + Fill(v, m)
    decreases |u|
  {
    hide Fill;
    var trues := Repeat(true, |u|);
    if u == "" {
      assert u + v == v && trues + m == m && trues + Fill(v, m) == Fill(v, m);
    } else {
      FillTrue(u[1..], v, m);
      FillTrueStep(u + v, trues + m);
      assert (u + v)[1..] == u[1..] + v;
      assert (trues + m)[1..] == Repeat(true, |u| - 1) + m;
      assert trues == [true] + Repeat(true, |u| - 1);
      PlusAssoc([true], Repeat(true, |u| - 1), Fill(v, m));
    }
  }

  lemma {:induction false} FalseRunIs(n: nat, m: seq<bool>)
    requires m == [] || m[0]
    ensures FalseRun(Repeat(false, n) + m) == n
  {
    var all := Repeat(false, n) + m;
    if n == 0 {
      assert all == m;
    } else {
      FalseRunIs(n - 1, m);
      assert all[1..] == Repeat(false, n - 1) + m;
    }
  }

  lemma FillFalse(u: string, v: string, m: seq<bool>)
    requires u != "" && |v| == |m| && (m == [] || m[0])
    ensures Fill(u + v, Repeat(false, |u|) + m) == RegionMask(u) + Fill(v, m)
  {
    FalseRunIs(|u|, m);
    var all := Repeat(false, |u|) + m;
    assert (u + v)[..|u|] == u && (u + v)[|u|..] == v && all[|u|..] == m;
  }

  lemma FrontParts(s: Segment, rest: seq<Segment>)
    ensures Joined([s] + rest) == s.text + Joined(rest)
    ensures Flags([s] + rest) == Repeat(s.isCode, |s.text|) + Flags(rest)
  {
    JoinedPlus([s], rest);
    JoinedSnoc([], s);
    assert [] + [s] == [s] && "" + s.text == s.text;
    assert [] + Repeat(s.isCode, |s.text|) == Repeat(s.isCode, |s.text|);
  }

  /** On segments whose prose is maximal, filling works segment by segment. */
  lemma {:induction false} FillSegs(segs: seq<Segment>)
    requires NoEmpty(segs) && NoAdjacentProse(segs)
    ensures |Joined(segs)| == |Flags(segs)|
    ensures Fill(Joined(segs), Flags(segs)) == LayerFlags(segs)
  {
    hide Joined, Flags, Fill, RegionMask;
    FlagsLength(segs);
    if segs == [] {
      FillNothing();
    } else {
      var s, rest := segs[0], segs[1..];
      FlagsLength(rest);
      FillSegs(rest);
      assert segs == [s] + rest;
      FrontParts(s, rest);
      if s.isCode {
        FillTrue(s.text, Joined(rest), Flags(rest));
      } else {
        ProseThenCode(segs);
        FillFalse(s.text, Joined(rest), Flags(rest));
      }
    }
  }

  lemma FillNothing()
    ensures Joined([]) == "" && Flags([]) == [] && Fill("", []) == []
  {
  }

  /** What follows a prose segment starts frozen. */
  lemma ProseThenCode(segs: seq<Segment>)
    requires NoEmpty(segs) && NoAdjacentProse(segs) && segs != [] && !segs[0].isCode
    ensures var m := Flags(segs[1..]); m == [] || m[0]
  {
    hide Joined;
    var rest := segs[1..];
    if rest == [] {
      FillNothing();
    } else {
      assert segs[0].isCode || segs[1].isCode;
      hide Flags;
      assert rest == [rest[0]] + rest[1..];
      FrontParts(rest[0], rest[1..]);
    }
  }

  lemma {:induction false} LayerSnoc(segs: seq<Segment>, s: Segment)
    ensures LayerFlags(segs + [s]) == LayerFlags(segs) + LayerMask(s)
  {
    if segs == [] {
      assert [] + [s] == [s] && [s][1..] == [];
    } else {
      LayerSnoc(segs[1..], s);
      assert (segs + [s])[1..] == segs[1..] + [s];
      PlusAssoc(LayerMask(segs[0]), LayerFlags(segs[1..]), LayerMask(s));
    }
  }

  lemma ThinkLayer(text: string, segs: seq<Segment>)
    requires ThinkDone(text, segs)
    ensures Joined(segs) == text && LayerFlags(segs) == FrozenMask(text)
  {
    FillSegs(segs);
  }

  /** The segments of the first reasoning-level segments. */
  ghost predicate Layered(done: seq<Segment>, out: seq<Segment>) {
    && NoEmpty(out) && NoAdjacentProse(out)
    && (out == [] || Last(out).isCode || (done != [] && !Last(done).isCode))
    && Joined(out) == Joined(done) && Flags(out) == LayerFlags(done)
  }

  lemma LayerStep(done: seq<Segment>, out: seq<Segment>, s: Segment, inner: seq<Segment>)
    requires Layered(done, out) && NoAdjacentProse(done + [s]) && s.text != ""
    requires if s.isCode then inner == [s] else NoEmpty(inner) && NoAdjacentProse(inner) && Flags(inner) == RegionMask(s.text)
    requires Joined(inner) == s.text
    ensures Layered(done + [s], out + inner)
  {
    hide Joined, Flags, LayerFlags, RegionMask;
    LayerSnoc(done, s);
    JoinedSnoc(done, s);
    JoinedPlus(out, inner);
    LayerApart(done, out, s, inner);
    if s.isCode {
      OneFlag(s);
    }
  }

  lemma LayerApart(done: seq<Segment>, out: seq<Segment>, s: Segment, inner: seq<Segment>)
    requires Layered(done, out) && NoAdjacentProse(done + [s])
    requires NoAdjacentProse(inner) && (s.isCode ==> inner == [s])
    ensures NoAdjacentProse(out + inner)
  {
    hide Joined, Flags, LayerFlags, NoEmpty;
    if done != [] {
      assert (done + [s])[|done| - 1] == Last(done) && (done + [s])[|done|] == s;
    }
    ApartPlus(out, inner);
  }

  lemma LayerStart()
    ensures Layered([], [])
  {
  }

  lemma LayerPrefix(text: string, segs: seq<Segment>, i: nat)
    requires ThinkDone(text, segs) && i < |segs|
    ensures segs[i].text != "" && NoAdjacentProse(segs[..i] + [segs[i]])
  {
  }

  lemma LayerEnd(text: string, segs: seq<Segment>, out: seq<Segment>)
    requires ThinkDone(text, segs) && Layered(segs, out)
    ensures Joined(out) == text && Flags(out) == FrozenMask(text) && NoEmpty(out) && NoAdjacentProse(out)
  {
    ThinkLayer(text, segs);
  }

  /** Splitting is lossless and exact, and leaves no two prose segments side by side. */
  method SplitCodeBlocks(text: string) returns (out: seq<Segment>)
    ensures Joined(out) == text && Flags(out) == FrozenMask(text) && NoEmpty(out) && NoAdjacentProse(out)
  {
    hide Joined, Flags, LayerFlags, RegionMask, FrozenMask, OutMask, ThinkDone, Layered, NoEmpty, NoAdjacentProse;
    var thinkSegs := SplitThinkBlocks(text);
    out := [];
    LayerStart();
    assert thinkSegs[..0] == [];
    for i := 0 to |thinkSegs|
      invariant Layered(thinkSegs[..i], out)
    {
      var s := thinkSegs[i];
      assert thinkSegs[..i + 1] == thinkSegs[..i] + [s];
      LayerPrefix(text, thinkSegs, i);
      if s.isCode {
        OneFlag(s);
        LayerStep(thinkSegs[..i], out, s, [s]);
        out := out + [s];
      } else {
        var inner := SplitFencedAndInline(s.text);
        LayerStep(thinkSegs[..i], out, s, inner);
        out := out + inner;
      }
    }
    assert thinkSegs[..|thinkSegs|] == thinkSegs;
    LayerEnd(text, thinkSegs, out);
  }

  method JoinSegments(segs: seq<Segment>) returns (text: string)
    ensures text == Joined(segs)
  {
    text := "";
    var i := 0;
    while i < |segs|
      invariant 0 <= i <= |segs|
      invariant text == Joined(segs[..i])
    {
      text := text + segs[i].text;
      i := i + 1;
      assert Init(segs[..i]) == segs[..i - 1];
    }
    assert segs[..i] == segs;
  }

  // ---- rewriting prose ---------------------------------------------------------------------

  /** The maximal runs of frozen and of free positions. */
  function Runs(t: string, m: seq<bool>): (runs: seq<Segment>)
    requires |t| == |m|
  {
    if t == "" then []
    else Grown(Runs(Init(t), Init(m)), [Last(t)], Last(m))
  }

  function Grown(runs: seq<Segment>, text: string, flag: bool): seq<Segment> {
    if runs != [] && Last(runs).isCode == flag
    then Init(runs) + [Segment(Last(runs).text + text, flag)]
    else runs + [Segment(text, flag)]
  }

  lemma GrownTwice(runs: seq<Segment>, a: string, b: string, flag: bool)
    ensures Grown(Grown(runs, a, flag), b, flag) == Grown(runs, a + b, flag)
  {
    var once := Grown(runs, a, flag);
    if runs != [] && Last(runs).isCode == flag {
      assert Init(once) == Init(runs);
      PlusAssoc(Last(runs).text, a, b);
    } else {
      assert Init(once) == runs;
    }
  }

  lemma {:induction false} RunsPlus(t: string, m: seq<bool>, u: string, flag: bool)
    requires |t| == |m| && u != ""
    ensures Runs(t + u, m + Repeat(flag, |u|)) == Grown(Runs(t, m), u, flag)
  {
    var tu, mu := t + u, m + Repeat(flag, |u|);
    assert Init(tu) == t + Init(u) && Last(tu) == Last(u) && Last(mu) == flag;
    assert Init(mu) == m + Repeat(flag, |u| - 1);
    if |u| == 1 {
      assert t + Init(u) == t && m + Repeat(flag, 0) == m && [Last(u)] == u;
    } else {
      RunsPlus(t, m, Init(u), flag);
      GrownTwice(Runs(t, m), Init(u), [Last(u)], flag);
      InitLast(u);
    }
  }

  /** Same runs, frozen ones verbatim, free ones replaced. */
  predicate SameFrozen(runs: seq<Segment>, rewritten: seq<Segment>) {
    && |runs| == |rewritten|
    && forall i | 0 <= i < |runs| :: runs[i].isCode == rewritten[i].isCode
                                  && (runs[i].isCode ==> runs[i].text == rewritten[i].text)
  }

  /** `out` is `text` with its free runs replaced and its frozen runs in place, verbatim and in order. */
  ghost predicate FrozenKept(text: string, out: string) {
    exists rewritten :: SameFrozen(Runs(text, FrozenMask(text)), rewritten) && Joined(rewritten) == out
  }

  /** Prose rewritten by f, code as it is. */
  function MapProse(segs: seq<Segment>, f: string -> string): (r: seq<Segment>)
    ensures SameFrozen(segs, r)
  {
    seq(|segs|, i requires 0 <= i < |segs| => if segs[i].isCode then segs[i] else Segment(f(segs[i].text), false))
  }

  /** The text with f applied to every maximal run of free positions. */
  function Rewrite(text: string, f: string -> string): string {
    Joined(MapProse(Runs(text, FrozenMask(text)), f))
  }

  lemma MapProseSnoc(segs: seq<Segment>, s: Segment, f: string -> string)
    ensures MapProse(segs + [s], f) == MapProse(segs, f) + MapProse([s], f)
  {
  }

  lemma MappedOne(segs: seq<Segment>, s: Segment, f: string -> string)
    ensures Joined(MapProse(segs + [s], f)) == Joined(MapProse(segs, f)) + if s.isCode then s.text else f(s.text)
  {
    MapProseSnoc(segs, s, f);
    JoinedPlus(MapProse(segs, f), MapProse([s], f));
    var m := MapProse([s], f)[0];
    assert MapProse([s], f) == [m] && Init([m]) == [];
  }

  /** Growing the last run: frozen text grows the result by itself, a new free run by its rewriting. */
  lemma GrownMapped(runs: seq<Segment>, text: string, flag: bool, f: string -> string)
    requires flag || runs == [] || Last(runs).isCode
    ensures Joined(MapProse(Grown(runs, text, flag), f)) == Joined(MapProse(runs, f)) + if flag then text else f(text)
  {
    if runs != [] && Last(runs).isCode == flag {
      InitLast(runs);
      MappedOne(Init(runs), Last(runs), f);
      MappedOne(Init(runs), Segment(Last(runs).text + text, flag), f);
      PlusAssoc(Joined(MapProse(Init(runs), f)), Last(runs).text, text);
    } else {
      MappedOne(runs, Segment(text, flag), f);
    }
  }

  /** On segments whose prose is maximal, rewriting them is rewriting run by run. */
  lemma {:induction false} RewriteSegments(segs: seq<Segment>, f: string -> string)
    requires NoEmpty(segs) && NoAdjacentProse(segs)
    ensures |Joined(segs)| == |Flags(segs)|
    ensures var runs := Runs(Joined(segs), Flags(segs));
            && (segs == [] ==> runs == [])
            && (segs != [] ==> runs != [] && Last(runs).isCode == Last(segs).isCode)
            && Joined(MapProse(runs, f)) == Joined(MapProse(segs, f))
  {
    FlagsLength(segs);
    if segs != [] {
      hide Joined, Flags, MapProse, Grown;
      var front, s := Init(segs), Last(segs);
      RewriteSegments(front, f);
      if front != [] {
        assert segs[|segs| - 2].isCode || segs[|segs| - 1].isCode;
      }
      RunsPlus(Joined(front), Flags(front), s.text, s.isCode);
      GrownMapped(Runs(Joined(front), Flags(front)), s.text, s.isCode, f);
      InitLast(segs);
      MappedOne(front, s, f);
    }
  }

  /** What rewriting the prose of a text's segments amounts to. */
  lemma RewriteIs(text: string, segs: seq<Segment>, f: string -> string)
    requires Joined(segs) == text && Flags(segs) == FrozenMask(text) && NoEmpty(segs) && NoAdjacentProse(segs)
    ensures Joined(MapProse(segs, f)) == Rewrite(text, f)
  {
    RewriteSegments(segs, f);
  }

  /** Whatever the rewriter, the frozen runs of a text stay in place, verbatim and in order. */
  lemma RewriteKeepsFrozen(text: string, f: string -> string)
    ensures FrozenKept(text, Rewrite(text, f))
  {
    var rewritten := MapProse(Runs(text, FrozenMask(text)), f);
  }

  lemma {:induction false} RunsJoined(t: string, m: seq<bool>)
    requires |t| == |m|
    ensures Joined(Runs(t, m)) == t
  {
    if t != "" {
      RunsJoined(Init(t), Init(m));
      GrownJoined(Runs(Init(t), Init(m)), [Last(t)], Last(m));
      InitLast(t);
    }
  }

  lemma GrownJoined(runs: seq<Segment>, text: string, flag: bool)
    ensures Joined(Grown(runs, text, flag)) == Joined(runs) + text
  {
    if runs != [] && Last(runs).isCode == flag {
      JoinedSnoc(Init(runs), Segment(Last(runs).text + text, flag));
      PlusAssoc(Joined(Init(runs)), Last(runs).text, text);
    } else {
      JoinedSnoc(runs, Segment(text, flag));
    }
  }

  /** A rewriter that leaves every free run alone leaves the text alone. */
  lemma RewriteNothing(text: string, f: string -> string)
    requires forall r | r in Runs(text, FrozenMask(text)) && !r.isCode :: f(r.text) == r.text
    ensures Rewrite(text, f) == text
  {
    var runs := Runs(text, FrozenMask(text));
    assert MapProse(runs, f) == runs;
    RunsJoined(text, FrozenMask(text));
  }
}
