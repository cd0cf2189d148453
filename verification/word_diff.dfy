/** WordDiff: the LCS table, the backtracking walk and the grouping into segments. Words are the
    results of strings.Fields; a segment keeps its word list instead of the joined text. */
module WordDiffing {
  import opened Seqs

  type Words = seq<string>
  datatype Kind = Keep | Remove | Add
  datatype DiffSegment = DiffSegment(kind: Kind, words: Words)

  // ---- what an optimal diff is -------------------------------------------------------------

  /** s is a subsequence of a. */
  predicate Subseq(s: Words, a: Words) {
    if s == [] then true
    else if a == [] then false
    else (Last(s) == Last(a) && Subseq(Init(s), Init(a))) || Subseq(s, Init(a))
  }

  predicate Common(s: Words, a: Words, b: Words) {
    Subseq(s, a) && Subseq(s, b)
  }

  ghost predicate LongestCommon(s: Words, a: Words, b: Words) {
    Common(s, a, b) && forall t | Common(t, a, b) :: |t| <= |s|
  }

  /** a is an interleaving of k and r: every word of a is in exactly one of the two, order kept. */
  predicate Shuffle(a: Words, k: Words, r: Words) {
    if a == [] then k == [] && r == []
    else
      || (k != [] && k[0] == a[0] && Shuffle(a[1..], k[1..], r))
      || (r != [] && r[0] == a[0] && Shuffle(a[1..], k, r[1..]))
  }

  /** Words of the segments of one kind, in segment order. */
  function Of(segs: seq<DiffSegment>, kind: Kind): Words {
    if segs == [] then []
    else Of(Init(segs), kind) + (if Last(segs).kind == kind then Last(segs).words else [])
  }

  /** The same for segments listed last to first. */
  function BackOf(segs: seq<DiffSegment>, kind: Kind): Words {
    if segs == [] then []
    else (if Last(segs).kind == kind then Last(segs).words else []) + BackOf(Init(segs), kind)
  }

  // ---- the LCS recurrence ------------------------------------------------------------------

  function Lcs(a: Words, b: Words, i: nat, j: nat): nat
    requires i <= |a| && j <= |b|
  {
    if i == 0 || j == 0 then 0
    else if a[i - 1] == b[j - 1] then Lcs(a, b, i - 1, j - 1) + 1
    else if Lcs(a, b, i - 1, j) >= Lcs(a, b, i, j - 1) then Lcs(a, b, i - 1, j)
    else Lcs(a, b, i, j - 1)
  }

  lemma {:induction false} SubseqInit(s: Words, a: Words)
    requires s != [] && a != [] && Subseq(s, a)
    ensures Subseq(Init(s), Init(a))
  {
    if !(Last(s) == Last(a) && Subseq(Init(s), Init(a))) {
      SubseqDrop(s, Init(a));
    }
  }

  lemma {:induction false} SubseqDrop(s: Words, a: Words)
    requires s != [] && Subseq(s, a)
    ensures Subseq(Init(s), a)
  {
    if Last(s) == Last(a) && Subseq(Init(s), Init(a)) {
      SubseqWiden(Init(s), a);
    } else {
      SubseqDrop(s, Init(a));
      SubseqWiden(Init(s), a);
    }
  }

  lemma SubseqWiden(s: Words, a: Words)
    requires a != [] && Subseq(s, Init(a))
    ensures Subseq(s, a)
  {
  }

  /** No common subsequence of two prefixes is longer than the recurrence says. */
  lemma {:induction false} LcsBound(a: Words, b: Words, i: nat, j: nat, s: Words)
    requires i <= |a| && j <= |b|
    requires Common(s, a[..i], b[..j])
    ensures |s| <= Lcs(a, b, i, j)
    decreases i + j
  {
    if s != [] {
      assert Init(a[..i]) == a[..i - 1] && Init(b[..j]) == b[..j - 1];
      if a[i - 1] == b[j - 1] {
        SubseqInit(s, a[..i]);
        SubseqInit(s, b[..j]);
        LcsBound(a, b, i - 1, j - 1, Init(s));
      } else if Last(s) == a[i - 1] {
        LcsBound(a, b, i, j - 1, s);
      } else {
        LcsBound(a, b, i - 1, j, s);
      }
    }
  }

  /** A shuffle's first component is a subsequence. */
  lemma {:induction false} ShuffleSubseq(a: Words, k: Words, r: Words)
    requires Shuffle(a, k, r)
    ensures Subseq(k, a)
    decreases |a|
  {
    if a != [] {
      if k != [] && k[0] == a[0] && Shuffle(a[1..], k[1..], r) {
        ShuffleSubseq(a[1..], k[1..], r);
        SubseqCons(k[0], k[1..], a[1..]);
        assert [k[0]] + k[1..] == k && [k[0]] + a[1..] == a;
      } else {
        ShuffleSubseq(a[1..], k, r[1..]);
        SubseqPrepend(k, a[0], a[1..]);
        assert [a[0]] + a[1..] == a;
      }
    }
  }

  lemma {:induction false} SubseqCons(x: string, s: Words, a: Words)
    requires Subseq(s, a)
    ensures Subseq([x] + s, [x] + a)
  {
    if a == [] {
      assert Init([x] + a) == [] == Init([x] + s);
    } else {
      assert Init([x] + a) == [x] + Init(a);
      if s == [] {
        SubseqCons(x, s, Init(a));
      } else {
        assert Init([x] + s) == [x] + Init(s);
        if Last(s) == Last(a) && Subseq(Init(s), Init(a)) {
          SubseqCons(x, Init(s), Init(a));
        } else {
          SubseqCons(x, s, Init(a));
        }
      }
    }
  }

  lemma {:induction false} SubseqPrepend(s: Words, x: string, a: Words)
    requires Subseq(s, a)
    ensures Subseq(s, [x] + a)
  {
    if s != [] {
      assert Init([x] + a) == [x] + Init(a);
      if Last(s) == Last(a) && Subseq(Init(s), Init(a)) {
        SubseqPrepend(Init(s), x, Init(a));
      } else {
        SubseqPrepend(s, x, Init(a));
      }
    }
  }

  /** A common shuffle component as long as the recurrence is a longest common subsequence. */
  lemma OptimalKeep(a: Words, b: Words, k: Words, r: Words, d: Words)
    requires Shuffle(a, k, r) && Shuffle(b, k, d) && |k| == Lcs(a, b, |a|, |b|)
    ensures LongestCommon(k, a, b)
  {
    ShuffleSubseq(a, k, r);
    ShuffleSubseq(b, k, d);
    forall t | Common(t, a, b) ensures |t| <= |k| {
      assert a[..|a|] == a && b[..|b|] == b;
      LcsBound(a, b, |a|, |b|, t);
    }
  }

  // ---- the table ---------------------------------------------------------------------------

  ghost predicate RowFilled(a: Words, b: Words, lcs: array2<nat>, i: nat, n: nat)
    reads lcs
    requires lcs.Length0 == |a| + 1 && lcs.Length1 == |b| + 1 && i <= |a| && n <= |b| + 1
  {
    forall q | 0 <= q < n :: lcs[i, q] == Lcs(a, b, i, q)
  }

  ghost predicate RowFull(a: Words, b: Words, lcs: array2<nat>, i: nat)
    reads lcs
    requires lcs.Length0 == |a| + 1 && lcs.Length1 == |b| + 1 && i <= |a|
  {
    RowFilled(a, b, lcs, i, |b| + 1)
  }

  method FillRow(a: Words, b: Words, lcs: array2<nat>, i: nat)
    requires lcs.Length0 == |a| + 1 && lcs.Length1 == |b| + 1
    requires 1 <= i <= |a| && RowFull(a, b, lcs, i - 1) && lcs[i, 0] == 0
    modifies lcs
    ensures RowFull(a, b, lcs, i)
    ensures forall p, q | 0 <= p <= |a| && 0 <= q <= |b| && p != i :: lcs[p, q] == old(lcs[p, q])
  {
    var j := 1;
    while j <= |b|
      invariant 1 <= j <= |b| + 1
      invariant forall p, q | 0 <= p <= |a| && 0 <= q <= |b| && p != i :: lcs[p, q] == old(lcs[p, q])
      invariant RowFilled(a, b, lcs, i, j)
    {
      assert lcs[i - 1, j - 1] == Lcs(a, b, i - 1, j - 1) && lcs[i - 1, j] == Lcs(a, b, i - 1, j);
      assert lcs[i, j - 1] == Lcs(a, b, i, j - 1);
      if a[i - 1] == b[j - 1] {
        lcs[i, j] := lcs[i - 1, j - 1] + 1;
      } else if lcs[i - 1, j] >= lcs[i, j - 1] {
        lcs[i, j] := lcs[i - 1, j];
      } else {
        lcs[i, j] := lcs[i, j - 1];
      }
      j := j + 1;
    }
  }

  method FillTable(a: Words, b: Words) returns (lcs: array2<nat>)
    ensures fresh(lcs) && lcs.Length0 == |a| + 1 && lcs.Length1 == |b| + 1
    ensures forall i | 0 <= i <= |a| :: RowFull(a, b, lcs, i)
  {
    lcs := new nat[|a| + 1, |b| + 1]((i, j) => 0);
    var i := 1;
    while i <= |a|
      invariant 1 <= i <= |a| + 1
      invariant forall p | i <= p <= |a| :: lcs[p, 0] == 0
      invariant forall p | 0 <= p < i :: RowFull(a, b, lcs, p)
    {
      label before:
      FillRow(a, b, lcs, i);
      forall p | 0 <= p <= i ensures RowFull(a, b, lcs, p) {
        if p < i {
          assert old@before(RowFull(a, b, lcs, p));
          assert forall q | 0 <= q <= |b| :: lcs[p, q] == old@before(lcs[p, q]);
        }
      }
      i := i + 1;
    }
  }

  // ---- segments ----------------------------------------------------------------------------

  function Flushed(segs: seq<DiffSegment>, kind: Kind, words: Words): seq<DiffSegment> {
    if words == [] then segs else segs + [DiffSegment(kind, words)]
  }

  lemma FlushedOf(segs: seq<DiffSegment>, kind: Kind, words: Words, k: Kind)
    ensures BackOf(Flushed(segs, kind, words), k) == (if k == kind then words else []) + BackOf(segs, k)
  {
    if words != [] {
      assert Init(segs + [DiffSegment(kind, words)]) == segs;
    }
  }

  function FlushedAll(segs: seq<DiffSegment>, keep: Words, remove: Words, add: Words): seq<DiffSegment> {
    Flushed(Flushed(Flushed(segs, Remove, remove), Add, add), Keep, keep)
  }

  lemma FlushedAllOf(segs: seq<DiffSegment>, keep: Words, remove: Words, add: Words, k: Kind)
    ensures BackOf(FlushedAll(segs, keep, remove, add), k)
         == (match k case Keep => keep case Remove => remove case Add => add) + BackOf(segs, k)
  {
    var s1 := Flushed(segs, Remove, remove);
    var s2 := Flushed(s1, Add, add);
    FlushedOf(segs, Remove, remove, k);
    FlushedOf(s1, Add, add, k);
    FlushedOf(s2, Keep, keep, k);
    assert [] + BackOf(segs, k) == BackOf(segs, k);
    assert [] + BackOf(s1, k) == BackOf(s1, k);
    assert [] + BackOf(s2, k) == BackOf(s2, k);
  }

  /** Pending words of the three kinds become segments: removes, then adds, then keeps. */
  method Flush(segs: seq<DiffSegment>, keep: Words, remove: Words, add: Words) returns (out: seq<DiffSegment>)
    ensures out == FlushedAll(segs, keep, remove, add)
  {
    out := segs;
    if |remove| > 0 {
      out := out + [DiffSegment(Remove, remove)];
    }
    if |add| > 0 {
      out := out + [DiffSegment(Add, add)];
    }
    if |keep| > 0 {
      out := out + [DiffSegment(Keep, keep)];
    }
  }

  lemma ShuffleKeep(x: string, a: Words, k: Words, r: Words)
    requires Shuffle(a, k, r)
    ensures Shuffle([x] + a, [x] + k, r)
  {
    assert ([x] + a)[1..] == a && ([x] + k)[1..] == k;
  }

  lemma ShuffleRest(x: string, a: Words, k: Words, r: Words)
    requires Shuffle(a, k, r)
    ensures Shuffle([x] + a, k, [x] + r)
  {
    assert ([x] + a)[1..] == a && ([x] + r)[1..] == r;
  }

  /** What the walk has collected from position (i, j) to the end. */
  ghost predicate Walked(a: Words, b: Words, i: nat, j: nat, keep: Words, remove: Words, add: Words)
    requires i <= |a| && j <= |b|
  {
    && Shuffle(a[i..], keep, remove)
    && Shuffle(b[j..], keep, add)
    && |keep| + Lcs(a, b, i, j) == Lcs(a, b, |a|, |b|)
  }

  lemma StepKeep(a: Words, b: Words, i: nat, j: nat, keep: Words, remove: Words, add: Words)
    requires 0 < i <= |a| && 0 < j <= |b| && a[i - 1] == b[j - 1]
    requires Walked(a, b, i, j, keep, remove, add)
    ensures Walked(a, b, i - 1, j - 1, [a[i - 1]] + keep, remove, add)
  {
    ShuffleKeep(a[i - 1], a[i..], keep, remove);
    ShuffleKeep(a[i - 1], b[j..], keep, add);
    assert a[i - 1..] == [a[i - 1]] + a[i..] && b[j - 1..] == [b[j - 1]] + b[j..];
  }

  lemma StepAdd(a: Words, b: Words, i: nat, j: nat, keep: Words, remove: Words, add: Words)
    requires i <= |a| && 0 < j <= |b| && (i > 0 ==> a[i - 1] != b[j - 1] && Lcs(a, b, i, j - 1) >= Lcs(a, b, i - 1, j))
    requires Walked(a, b, i, j, keep, remove, add)
    ensures Walked(a, b, i, j - 1, keep, remove, [b[j - 1]] + add)
  {
    ShuffleRest(b[j - 1], b[j..], keep, add);
    assert b[j - 1..] == [b[j - 1]] + b[j..];
  }

  lemma StepRemove(a: Words, b: Words, i: nat, j: nat, keep: Words, remove: Words, add: Words)
    requires 0 < i <= |a| && j <= |b| && (j > 0 ==> a[i - 1] != b[j - 1] && Lcs(a, b, i, j - 1) < Lcs(a, b, i - 1, j))
    requires Walked(a, b, i, j, keep, remove, add)
    ensures Walked(a, b, i - 1, j, keep, [a[i - 1]] + remove, add)
  {
    ShuffleRest(a[i - 1], a[i..], keep, remove);
    assert a[i - 1..] == [a[i - 1]] + a[i..];
  }

  /** Collected words: the pending ones in front of those already in segments. */
  ghost predicate Collected(segs: seq<DiffSegment>, kind: Kind, pending: Words, all: Words) {
    all == pending + BackOf(segs, kind)
  }

  lemma CollectMore(segs: seq<DiffSegment>, kind: Kind, pending: Words, all: Words, x: string)
    requires Collected(segs, kind, pending, all)
    ensures Collected(segs, kind, [x] + pending, [x] + all)
  {
    PlusAssoc([x], pending, BackOf(segs, kind));
  }

  lemma CollectFlush(segs: seq<DiffSegment>, pk: Words, pr: Words, pa: Words, keep: Words, remove: Words, add: Words)
    requires Collected(segs, Keep, pk, keep) && Collected(segs, Remove, pr, remove) && Collected(segs, Add, pa, add)
    ensures var out := FlushedAll(segs, pk, pr, pa);
            Collected(out, Keep, [], keep) && Collected(out, Remove, [], remove) && Collected(out, Add, [], add)
  {
    FlushedAllOf(segs, pk, pr, pa, Keep);
    FlushedAllOf(segs, pk, pr, pa, Remove);
    FlushedAllOf(segs, pk, pr, pa, Add);
    assert [] + keep == keep && [] + remove == remove && [] + add == add;
  }

  lemma CollectedAll(segs: seq<DiffSegment>, kind: Kind, all: Words)
    requires Collected(segs, kind, [], all)
    ensures BackOf(segs, kind) == all
  {
    assert [] + BackOf(segs, kind) == BackOf(segs, kind);
  }

  lemma WalkStarts(a: Words, b: Words)
    ensures Walked(a, b, |a|, |b|, [], [], [])
    ensures forall kind :: Collected([], kind, [], [])
  {
    assert a[|a|..] == [] && b[|b|..] == [];
  }

  /** The walk from the lower right corner of the table; the segments come out last to first. */
  method Backtrack(a: Words, b: Words, lcs: array2<nat>) returns (segments: seq<DiffSegment>)
    requires lcs.Length0 == |a| + 1 && lcs.Length1 == |b| + 1
    requires forall i | 0 <= i <= |a| :: RowFull(a, b, lcs, i)
    ensures Walked(a, b, 0, 0, BackOf(segments, Keep), BackOf(segments, Remove), BackOf(segments, Add))
  {
    hide Walked, Collected, FlushedAll;
    segments := [];
    var i, j := |a|, |b|;
    WalkStarts(a, b);
    var pendingKeep: Words, pendingRemove: Words, pendingAdd: Words := [], [], [];
    ghost var keep: Words, remove: Words, add: Words := [], [], [];
    while i > 0 || j > 0
      invariant 0 <= i <= |a| && 0 <= j <= |b|
      invariant Collected(segments, Keep, pendingKeep, keep)
      invariant Collected(segments, Remove, pendingRemove, remove)
      invariant Collected(segments, Add, pendingAdd, add)
      invariant Walked(a, b, i, j, keep, remove, add)
      decreases i + j
    {
      assert RowFull(a, b, lcs, i) && (i > 0 ==> RowFull(a, b, lcs, i - 1));
      if i > 0 && j > 0 && a[i - 1] == b[j - 1] {
        CollectFlush(segments, pendingKeep, pendingRemove, pendingAdd, keep, remove, add);
        segments := Flush(segments, pendingKeep, pendingRemove, pendingAdd);
        pendingKeep, pendingRemove, pendingAdd := [], [], [];
        CollectMore(segments, Keep, pendingKeep, keep, a[i - 1]);
        StepKeep(a, b, i, j, keep, remove, add);
        keep := [a[i - 1]] + keep;
        pendingKeep := [a[i - 1]] + pendingKeep;
        i := i - 1;
        j := j - 1;
      } else if j > 0 && (i == 0 || lcs[i, j - 1] >= lcs[i - 1, j]) {
        CollectMore(segments, Add, pendingAdd, add, b[j - 1]);
        StepAdd(a, b, i, j, keep, remove, add);
        add := [b[j - 1]] + add;
        pendingAdd := [b[j - 1]] + pendingAdd;
        j := j - 1;
      } else {
        CollectMore(segments, Remove, pendingRemove, remove, a[i - 1]);
        StepRemove(a, b, i, j, keep, remove, add);
        remove := [a[i - 1]] + remove;
        pendingRemove := [a[i - 1]] + pendingRemove;
        i := i - 1;
      }
    }
    CollectFlush(segments, pendingKeep, pendingRemove, pendingAdd, keep, remove, add);
    segments := Flush(segments, pendingKeep, pendingRemove, pendingAdd);
    CollectedAll(segments, Keep, keep);
    CollectedAll(segments, Remove, remove);
    CollectedAll(segments, Add, add);
  }

  function Reversed(segs: seq<DiffSegment>): (r: seq<DiffSegment>)
    ensures |r| == |segs|
  {
    seq(|segs|, i requires 0 <= i < |segs| => segs[|segs| - 1 - i])
  }

  lemma {:induction false} ReversedOf(segs: seq<DiffSegment>, kind: Kind)
    ensures Of(Reversed(segs), kind) == BackOf(segs, kind)
  {
    if segs != [] {
      ReversedOf(Init(segs), kind);
      assert Reversed(segs) == [Last(segs)] + Reversed(Init(segs));
      OfCons(Last(segs), Reversed(Init(segs)), kind);
    }
  }

  lemma {:induction false} OfCons(s: DiffSegment, segs: seq<DiffSegment>, kind: Kind)
    ensures Of([s] + segs, kind) == (if s.kind == kind then s.words else []) + Of(segs, kind)
  {
    if segs == [] {
      assert [s] + segs == [s] && Init([s]) == [];
    } else {
      OfCons(s, Init(segs), kind);
      assert Init([s] + segs) == [s] + Init(segs);
    }
  }

  /** In-place reversal by swapping from both ends. */
  method Reverse(segs: seq<DiffSegment>) returns (out: seq<DiffSegment>)
    ensures out == Reversed(segs)
  {
    out := segs;
    var l, r := 0, |out| - 1;
    while l < r
      invariant 0 <= l && l + r == |segs| - 1 && |out| == |segs|
      invariant forall k | 0 <= k < |segs| && (k < l || r < k) :: out[k] == segs[|segs| - 1 - k]
      invariant forall k | l <= k <= r :: out[k] == segs[k]
    {
      out := out[l := out[r]][r := out[l]];
      l, r := l + 1, r - 1;
    }
  }

  const CAP := 2000

  /** The kept words, in segment order, are a longest common subsequence of the capped inputs; the
      removed and the added words are exactly what is left of each. */
  method WordDiff(original: Words, compressed: Words) returns (segments: seq<DiffSegment>)
    ensures var a, b := original[..if |original| > 2000 then 2000 else |original|],
                        compressed[..if |compressed| > 2000 then 2000 else |compressed|];
            && LongestCommon(Of(segments, Keep), a, b)
            && Shuffle(a, Of(segments, Keep), Of(segments, Remove))
            && Shuffle(b, Of(segments, Keep), Of(segments, Add))
  {
    var a, b := original, compressed;
    assert original[..|original|] == original && compressed[..|compressed|] == compressed;
    if |a| == 0 && |b| == 0 {
      segments := [];
      assert Of(segments, Keep) == [] == Of(segments, Remove);
      OptimalKeep([], [], [], [], []);
      return;
    }
    if |a| > CAP {
      a := a[..CAP];
    }
    if |b| > CAP {
      b := b[..CAP];
    }
    var lcs := FillTable(a, b);
    var back := Backtrack(a, b, lcs);
    segments := Reverse(back);
    ReversedOf(back, Keep);
    ReversedOf(back, Remove);
    ReversedOf(back, Add);
    assert a[0..] == a && b[0..] == b;
    OptimalKeep(a, b, Of(segments, Keep), Of(segments, Remove), Of(segments, Add));
  }
}
