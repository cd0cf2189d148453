/** Which positions of a text are frozen, position by position: inside a reasoning block, on a fence
    line, inside a fence, or at odd backtick parity. */
module FrozenPositions {
  import opened Seqs
  import opened CodeBlocks

  // ---- the reasoning layer -------------------------------------------------------------------

  /** s is the position of an opening tag at or before p, and no closing tag that starts at or after s
      is over by p. */
  predicate OpenSince(t: string, s: nat, p: nat) {
    s <= p && MatchAt(t, "<think>", s) && NoneClosed(t, s, p)
  }

  predicate NoneClosed(t: string, s: nat, p: nat) {
    forall c | s <= c <= p && c + 8 <= p :: !MatchAt(t, "</think>", c)
  }

  /** Position p lies in a reasoning block; the tags belong to it. */
  ghost predicate Thinking(t: string, p: nat) {
    exists s: nat :: OpenSince(t, s, p)
  }

  lemma MatchDrop(t: string, pat: string, k: nat, i: nat)
    requires k <= |t| && k <= i
    ensures MatchAt(t, pat, i) <==> MatchAt(t[k..], pat, i - k)
  {
    if i + |pat| <= |t| {
      assert t[k..][i - k..i - k + |pat|] == t[i..i + |pat|];
    }
  }

  lemma NoneClosedDrop(t: string, k: nat, s: nat, p: nat)
    requires k <= |t| && k <= s && k <= p
    ensures NoneClosed(t, s, p) <==> NoneClosed(t[k..], s - k, p - k)
  {
    hide MatchAt;
    if NoneClosed(t, s, p) {
      forall c | s - k <= c <= p - k && c + |THINK_CLOSE| <= p - k ensures !MatchAt(t[k..], THINK_CLOSE, c) {
        MatchDrop(t, THINK_CLOSE, k, c + k);
      }
    }
    if NoneClosed(t[k..], s - k, p - k) {
      forall c | s <= c <= p && c + |THINK_CLOSE| <= p ensures !MatchAt(t, THINK_CLOSE, c) {
        MatchDrop(t, THINK_CLOSE, k, c);
      }
    }
  }

  lemma OpenDrop(t: string, k: nat, s: nat, p: nat)
    requires k <= |t| && k <= s && k <= p
    ensures OpenSince(t, s, p) <==> OpenSince(t[k..], s - k, p - k)
  {
    hide MatchAt, NoneClosed;
    MatchDrop(t, THINK_OPEN, k, s);
    NoneClosedDrop(t, k, s, p);
  }

  /** Dropping a front in which no block opens. */
  lemma ThinkingDrop(t: string, k: nat, p: nat)
    requires k <= |t| && k <= p && forall s: nat | s < k :: !MatchAt(t, THINK_OPEN, s)
    ensures Thinking(t, p) <==> Thinking(t[k..], p - k)
  {
    hide MatchAt, NoneClosed;
    if Thinking(t, p) {
      var s: nat :| OpenSince(t, s, p);
      OpenDrop(t, k, s, p);
    }
    if Thinking(t[k..], p - k) {
      var s: nat :| OpenSince(t[k..], s, p - k);
      OpenDrop(t, k, s + k, p);
      assert OpenSince(t, s + k, p);
    }
  }

  lemma PrefixMatch(t: string, pat: string)
    ensures HasPrefix(t, pat) <==> MatchAt(t, pat, 0)
  {
  }

  lemma MatchStarts(t: string, pat: string, s: nat)
    requires |pat| >= 2
    ensures MatchAt(t, pat, s) ==> s + 1 < |t| && t[s] == pat[0] && t[s + 1] == pat[1]
  {
    if MatchAt(t, pat, s) {
      assert t[s..s + |pat|][0] == t[s] && t[s..s + |pat|][1] == t[s + 1];
    }
  }

  /** No opening tag starts inside a closing one. */
  lemma CloseHoldsNoOpen(t: string, s: nat)
    requires HasPrefix(t, THINK_CLOSE) && s < |THINK_CLOSE|
    ensures !MatchAt(t, THINK_OPEN, s)
  {
    assert t[s] == THINK_CLOSE[s];
    assert t[1] == THINK_CLOSE[1];
    MatchStarts(t, THINK_OPEN, s);
  }

  /** The mask outside a block, and the mask inside one. */
  lemma {:induction false} OutMaskAt(t: string, p: nat)
    requires p < |t|
    ensures OutMask(t)[p] <==> Thinking(t, p)
    decreases |t|, 2
  {
    hide MatchAt, NoneClosed;
    PrefixMatch(t, THINK_OPEN);
    if HasPrefix(t, THINK_OPEN) {
      InMaskAt(t, p);
      if NoneClosed(t, 0, p) {
        assert OpenSince(t, 0, p);
      }
    } else if p == 0 {
      forall s: nat ensures !OpenSince(t, s, 0) {
      }
    } else {
      OutMaskAt(t[1..], p - 1);
      ThinkingDrop(t, 1, p);
    }
  }

  lemma {:induction false} InMaskAt(t: string, p: nat)
    requires p < |t|
    ensures InMask(t)[p] <==> NoneClosed(t, 0, p) || Thinking(t, p)
    decreases |t|, 1
  {
    hide MatchAt;
    PrefixMatch(t, THINK_CLOSE);
    if HasPrefix(t, THINK_CLOSE) {
      InsideClosed(t, p);
    } else if p == 0 {
      assert NoneClosed(t, 0, 0);
    } else {
      InMaskAt(t[1..], p - 1);
      InsideLater(t, p);
    }
  }

  lemma InsideClosed(t: string, p: nat)
    requires HasPrefix(t, THINK_CLOSE) && p < |t|
    ensures p < |THINK_CLOSE| ==> InMask(t)[p] && NoneClosed(t, 0, p)
    ensures p >= |THINK_CLOSE| ==> (InMask(t)[p] <==> NoneClosed(t, 0, p) || Thinking(t, p))
    decreases |t|, 0
  {
    hide MatchAt, NoneClosed, OpenSince;
    PrefixMatch(t, THINK_CLOSE);
    if p < |THINK_CLOSE| {
      NotOverYet(t, p);
    } else {
      var k := |THINK_CLOSE|;
      ClosedAtOnce(t, p);
      forall s: nat | s < k ensures !MatchAt(t, THINK_OPEN, s) {
        CloseHoldsNoOpen(t, s);
      }
      ThinkingDrop(t, k, p);
      OutMaskAt(t[k..], p - k);
    }
  }

  lemma NotOverYet(t: string, p: nat)
    requires p < |THINK_CLOSE|
    ensures NoneClosed(t, 0, p)
  {
  }

  lemma ClosedAtOnce(t: string, p: nat)
    requires MatchAt(t, THINK_CLOSE, 0) && p >= |THINK_CLOSE|
    ensures !NoneClosed(t, 0, p)
  {
  }

  lemma InsideLater(t: string, p: nat)
    requires 0 < p < |t| && !MatchAt(t, THINK_CLOSE, 0)
    ensures NoneClosed(t, 0, p) || Thinking(t, p) <==> NoneClosed(t[1..], 0, p - 1) || Thinking(t[1..], p - 1)
  {
    hide MatchAt;
    NoneClosedDrop(t, 1, 1, p);
    assert NoneClosed(t, 0, p) <==> NoneClosed(t, 1, p);
    if Thinking(t, p) {
      var s: nat :| OpenSince(t, s, p);
      if s > 0 {
        OpenDrop(t, 1, s, p);
      }
    }
    if Thinking(t[1..], p - 1) {
      var s: nat :| OpenSince(t[1..], s, p - 1);
      OpenDrop(t, 1, s + 1, p);
      assert OpenSince(t, s + 1, p);
    }
  }

  // ---- the runs between the blocks -----------------------------------------------------------

  /** Positions a to b are free in m, and the run cannot be made longer. */
  predicate Gap(m: seq<bool>, a: nat, b: nat) {
    && a < b <= |m| && (forall q | a <= q < b :: !m[q])
    && (a == 0 || m[a - 1]) && (b == |m| || m[b])
  }

  lemma {:induction false} FalseRunStops(m: seq<bool>)
    ensures forall q | 0 <= q < FalseRun(m) :: !m[q]
    ensures FalseRun(m) == |m| || m[FalseRun(m)]
  {
    if m != [] && !m[0] {
      FalseRunStops(m[1..]);
    }
  }

  lemma FirstGap(m: seq<bool>, b: nat)
    requires Gap(m, 0, b)
    ensures FalseRun(m) == b
  {
    FalseRunStops(m);
  }

  lemma GapDrop(m: seq<bool>, k: nat, a: nat, b: nat)
    requires Gap(m, a, b) && k <= a
    ensures Gap(m[k..], a - k, b - k)
  {
  }

  /** A frozen position of the reasoning layer stays frozen; in a gap the gap's own mask decides. */
  lemma {:induction false} FillAt(t: string, m: seq<bool>, a: nat, b: nat, p: nat)
    requires |t| == |m| && p < |t|
    ensures m[p] ==> Fill(t, m)[p]
    ensures Gap(m, a, b) && a <= p < b ==> Fill(t, m)[p] == RegionMask(t[a..b])[p - a]
    decreases |t|
  {
    hide RegionMask, FalseRun;
    if m[0] {
      if p > 0 {
        if 0 < a && Gap(m, a, b) {
          GapDrop(m, 1, a, b);
          assert t[1..][a - 1..b - 1] == t[a..b];
        }
        FillAt(t[1..], m[1..], if a > 0 then a - 1 else 0, if b > 0 then b - 1 else 0, p - 1);
      }
    } else {
      FillGapAt(t, m, a, b, p);
    }
  }

  lemma FillSplit(t: string, m: seq<bool>, p: nat)
    requires |t| == |m| && p < |t| && !m[0]
    ensures var n := FalseRun(m);
            Fill(t, m)[p] == if p < n then RegionMask(t[..n])[p] else Fill(t[n..], m[n..])[p - n]
  {
    hide RegionMask, FalseRun;
  }

  lemma FillGapAt(t: string, m: seq<bool>, a: nat, b: nat, p: nat)
    requires |t| == |m| && p < |t| && !m[0]
    ensures m[p] ==> Fill(t, m)[p]
    ensures Gap(m, a, b) && a <= p < b ==> Fill(t, m)[p] == RegionMask(t[a..b])[p - a]
    decreases |t|, 0
  {
    hide RegionMask, FalseRun, Fill;
    var n := FalseRun(m);
    FalseRunStops(m);
    FillSplit(t, m, p);
    if p < n {
      if Gap(m, a, b) && a <= p < b {
        assert a == 0;
        FirstGap(m, b);
        assert t[0..b] == t[..n];
      }
    } else {
      if n <= a && Gap(m, a, b) {
        GapDrop(m, n, a, b);
        assert t[n..][a - n..b - n] == t[a..b];
      }
      FillAt(t[n..], m[n..], if a >= n then a - n else 0, if b >= n then b - n else 0, p - n);
    }
  }

  lemma {:induction false} GapStart(m: seq<bool>, p: nat) returns (a: nat)
    requires p < |m| && !m[p]
    ensures a <= p && (forall q | a <= q <= p :: !m[q]) && (a == 0 || m[a - 1])
  {
    if p == 0 || m[p - 1] {
      a := p;
    } else {
      a := GapStart(m, p - 1);
    }
  }

  lemma {:induction false} GapEnd(m: seq<bool>, p: nat) returns (b: nat)
    requires p < |m| && !m[p]
    ensures p < b <= |m| && (forall q | p <= q < b :: !m[q]) && (b == |m| || m[b])
    decreases |m| - p
  {
    if p == |m| - 1 || m[p + 1] {
      b := p + 1;
    } else {
      b := GapEnd(m, p + 1);
    }
  }

  // ---- lines ---------------------------------------------------------------------------------

  lemma {:induction false} LineFrom(lines: seq<string>, i: nat, r: nat) returns (j: nat, q: nat)
    requires i <= |lines| && r < |LinesFrom(lines, i)|
    ensures i <= j < |lines| && q < |WholeLine(lines, j)| && Offset(lines, i) + r == Offset(lines, j) + q
    decreases |lines| - i
  {
    hide WholeLine;
    if r < |WholeLine(lines, i)| {
      j, q := i, r;
    } else {
      j, q := LineFrom(lines, i + 1, r - |WholeLine(lines, i)|);
    }
  }

  /** Position p of a text: inside a reasoning block it is frozen. Otherwise it lies at place q of line i
      of the gap [a, b) between two blocks, and is frozen exactly if that line is a fence line, or an odd
      number of the gap's fence lines precede it, or the backticks of its prose run up to it are odd. */
  lemma FrozenMaskAt(t: string, p: nat) returns (a: nat, b: nat, i: nat, q: nat)
    requires p < |t|
    ensures Thinking(t, p) ==> FrozenMask(t)[p]
    ensures !Thinking(t, p) ==>
              && a <= p < b <= |t| && (forall r: nat | a <= r < b :: !Thinking(t, r))
              && (a == 0 || Thinking(t, a - 1)) && (b == |t| || Thinking(t, b))
              && var lines := Split(t[a..b], '\n');
                 && i < |lines| && q < |WholeLine(lines, i)| && p == a + Offset(lines, i) + q
                 && (FrozenMask(t)[p] <==>
                     || FenceMark(lines[i])
                     || OddFences(lines, i)
                     || multiset(RunBefore(lines, i) + WholeLine(lines, i)[..q + 1])['`'] % 2 == 1)
  {
    hide Thinking, OutMask, Fill, RegionMask, FenceMark, OddFences, RunBefore, WholeLine, Split, LinesFrom;
    var m := OutMask(t);
    OutMaskAt(t, p);
    a, b, i, q := 0, 0, 0, 0;
    if Thinking(t, p) {
      FillAt(t, m, 0, 0, p);
    } else {
      a := GapStart(m, p);
      b := GapEnd(m, p);
      FillAt(t, m, a, b, p);
      forall r: nat | r < |t| ensures m[r] <==> Thinking(t, r) {
        OutMaskAt(t, r);
      }
      var lines := Split(t[a..b], '\n');
      LinesFromSplit(t[a..b]);
      i, q := LineFrom(lines, 0, p - a);
      RegionMaskAt(t[a..b], i, q);
    }
  }
}
