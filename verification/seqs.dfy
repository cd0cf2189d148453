/** String-like operations on sequences shared by the other modules: splitting on a
    separator element, joining with a separator, substring search. */
module Seqs {

  datatype Option<+T> = None | Some(value: T)

  /** The last element of a nonempty sequence. */
  function Last<T>(s: seq<T>): T
    requires s != []
  {
    s[|s| - 1]
  }

  /** Everything but the last element. */
  function Init<T>(s: seq<T>): seq<T>
    requires s != []
  {
    s[..|s| - 1]
  }

  lemma InitLast<T>(s: seq<T>)
    requires s != []
    ensures s == Init(s) + [Last(s)]
  {
  }

  lemma PlusAssoc<T>(a: seq<T>, b: seq<T>, c: seq<T>)
    ensures (a + b) + c == a + (b + c)
  {
  }

  /** `pieces` with `x` appended to its last piece. */
  function Extend<T>(pieces: seq<seq<T>>, x: T): (longer: seq<seq<T>>)
    requires pieces != []
    ensures |longer| == |pieces|
  {
    Init(pieces) + [Last(pieces) + [x]]
  }

  /** The pieces between occurrences of `sep`; never empty, like Go's strings.Split. */
  function Split<T(==)>(s: seq<T>, sep: T): (pieces: seq<seq<T>>)
    ensures pieces != []
    ensures forall i | 0 <= i < |pieces| :: sep !in pieces[i]
  {
    if s == [] then [[]]
    else if Last(s) == sep then Split(Init(s), sep) + [[]]
    else Extend(Split(Init(s), sep), Last(s))
  }

  function Join<T>(pieces: seq<seq<T>>, glue: seq<T>): seq<T> {
    if pieces == [] then []
    else if |pieces| == 1 then pieces[0]
    else Join(Init(pieces), glue) + glue + Last(pieces)
  }

  function Concat<T>(pieces: seq<seq<T>>): seq<T> {
    if pieces == [] then [] else Concat(Init(pieces)) + Last(pieces)
  }

  lemma JoinSnoc<T>(pieces: seq<seq<T>>, glue: seq<T>, x: seq<T>)
    requires pieces != []
    ensures Join(pieces + [x], glue) == Join(pieces, glue) + glue + x
  {
    assert Init(pieces + [x]) == pieces;
  }

  lemma JoinExtend<T>(pieces: seq<seq<T>>, glue: seq<T>, x: T)
    requires pieces != []
    ensures Join(Extend(pieces, x), glue) == Join(pieces, glue) + [x]
  {
    var longer := Extend(pieces, x);
    assert Init(longer) == Init(pieces);
    if |pieces| > 1 {
      calc {
        Join(longer, glue);
        (Join(Init(pieces), glue) + glue) + (Last(pieces) + [x]);
        ((Join(Init(pieces), glue) + glue) + Last(pieces)) + [x];
      }
    }
  }

  lemma SplitSnoc<T>(s: seq<T>, x: T, sep: T)
    ensures Split(s + [x], sep) == if x == sep then Split(s, sep) + [[]] else Extend(Split(s, sep), x)
  {
    assert Init(s + [x]) == s;
  }

  lemma JoinSplitSnoc<T>(s: seq<T>, x: T, sep: T)
    requires Join(Split(s, sep), [sep]) == s
    ensures Join(Split(s + [x], sep), [sep]) == s + [x]
  {
    SplitSnoc(s, x, sep);
    if x == sep {
      JoinSnoc(Split(s, sep), [sep], []);
    } else {
      JoinExtend(Split(s, sep), [sep], x);
    }
  }

  /** Splitting loses nothing. */
  lemma {:induction false} JoinSplit<T>(s: seq<T>, sep: T)
    ensures Join(Split(s, sep), [sep]) == s
  {
    if s == [] {
      assert Split(s, sep) == [[]];
    } else {
      InitLast(s);
      JoinSplit(Init(s), sep);
      JoinSplitSnoc(Init(s), Last(s), sep);
    }
  }

  lemma SplitNothing<T>(sep: T)
    ensures Split([], sep) == [[]]
  {
  }

  lemma ExtendOne<T>(p: seq<T>, x: T)
    ensures Extend([p], x) == [p + [x]]
  {
  }

  lemma {:induction false} SplitFree<T>(s: seq<T>, sep: T)
    requires sep !in s
    ensures Split(s, sep) == [s]
  {
    hide Split, Extend;
    if s == [] {
      SplitNothing(sep);
    } else {
      var front, x := Init(s), Last(s);
      SplitFree(front, sep);
      InitLast(s);
      SplitSnoc(front, x, sep);
      ExtendOne(front, x);
    }
  }

  lemma ExtendAfter<T>(left: seq<seq<T>>, right: seq<seq<T>>, x: T)
    requires right != []
    ensures Extend(left + right, x) == left + Extend(right, x)
  {
    assert Init(left + right) == left + Init(right);
    PlusAssoc(left, Init(right), [Last(right) + [x]]);
  }

  /** Splitting a concatenation: only the last piece of the left part is still open. */
  lemma {:induction false} SplitConcat<T>(a: seq<T>, b: seq<T>, sep: T)
    ensures Split(a + b, sep) == Init(Split(a, sep)) + Split(Last(Split(a, sep)) + b, sep)
  {
    hide Split, Extend;
    var left, open := Init(Split(a, sep)), Last(Split(a, sep));
    if b == [] {
      assert a + b == a && open + b == open;
      SplitFree(open, sep);
      InitLast(Split(a, sep));
    } else {
      var b', x := Init(b), Last(b);
      SplitConcat(a, b', sep);
      InitLast(b);
      PlusAssoc(a, b', [x]);
      PlusAssoc(open, b', [x]);
      SplitSnoc(a + b', x, sep);
      SplitSnoc(open + b', x, sep);
      var right := Split(open + b', sep);
      if x == sep {
        PlusAssoc(left, right, [[]]);
      } else {
        ExtendAfter(left, right, x);
      }
    }
  }

  lemma JoinOne<T>(piece: seq<T>, glue: seq<T>)
    ensures Join([piece], glue) == piece
  {
  }

  /** Splitting a joined list of separator-free pieces gives the pieces back. */
  lemma {:induction false} SplitJoin<T>(pieces: seq<seq<T>>, sep: T)
    requires pieces != []
    requires forall i | 0 <= i < |pieces| :: sep !in pieces[i]
    ensures Split(Join(pieces, [sep]), sep) == pieces
  {
    hide Split, Join;
    var front, last := Init(pieces), Last(pieces);
    InitLast(pieces);
    SplitFree(last, sep);
    if front == [] {
      assert pieces == [last];
      JoinOne(last, [sep]);
    } else {
      SplitJoin(front, sep);
      var head := Join(front, [sep]) + [sep];
      SplitSnoc(Join(front, [sep]), sep, sep);
      SplitConcat(head, last, sep);
      JoinSnoc(front, [sep], last);
      assert Init(front + [[]]) == front && Last(front + [[]]) == [] && [] + last == last;
    }
  }

  lemma Pick<T>(s: set<T>) returns (k: T)
    requires s != {}
    ensures k in s
  {
    k :| k in s;
  }

  lemma NonEmpty(s: set<int>)
    ensures s != {} ==> exists k :: k in s
  {
    if s != {} {
      var k := Pick(s);
    }
  }

  lemma DropSlice<T>(s: seq<T>, c: nat, i: nat, j: nat)
    requires c <= i <= j <= |s|
    ensures s[c..][i - c..j - c] == s[i..j]
  {
  }

  lemma DropDrop<T>(s: seq<T>, c: nat, i: nat)
    requires c <= i <= |s|
    ensures s[c..][i - c..] == s[i..]
  {
  }

  predicate MatchAt<T(==)>(s: seq<T>, pat: seq<T>, i: int) {
    0 <= i && i + |pat| <= |s| && s[i..i + |pat|] == pat
  }

  predicate Contains<T(==)>(s: seq<T>, pat: seq<T>) {
    exists i | 0 <= i <= |s| :: MatchAt(s, pat, i)
  }

  predicate HasPrefix<T(==)>(s: seq<T>, pat: seq<T>) {
    |pat| <= |s| && s[..|pat|] == pat
  }

  lemma PrefixPlus<T>(s: seq<T>, a: seq<T>, b: seq<T>)
    requires HasPrefix(s, a)
    ensures HasPrefix(s, a + b) <==> HasPrefix(s[|a|..], b)
  {
    if |a + b| <= |s| {
      assert s[..|a + b|] == s[..|a|] + s[|a|..][..|b|];
    }
  }

  /** r is the first position where `pat` occurs in `s`, or -1 when there is none. */
  ghost predicate FirstMatch<T>(s: seq<T>, pat: seq<T>, r: int) {
    if r == -1 then forall i :: !MatchAt(s, pat, i)
    else MatchAt(s, pat, r) && forall i | i < r :: !MatchAt(s, pat, i)
  }

  /** The first match at or after i, or -1. */
  function FindFrom<T(==)>(s: seq<T>, pat: seq<T>, i: nat): (r: int)
    requires i <= |s|
    ensures r == -1 || i <= r
    ensures r == -1 ==> forall k | i <= k :: !MatchAt(s, pat, k)
    ensures r != -1 ==> MatchAt(s, pat, r) && forall k | i <= k < r :: !MatchAt(s, pat, k)
    decreases |s| - i
  {
    if MatchAt(s, pat, i) then i
    else if i == |s| then -1
    else FindFrom(s, pat, i + 1)
  }

  /** Position of the first occurrence of `pat`, or -1. */
  function IndexOf<T(==)>(s: seq<T>, pat: seq<T>): (r: int)
    ensures -1 <= r && FirstMatch(s, pat, r)
  {
    FindFrom(s, pat, 0)
  }

  /** There is only one first match. */
  lemma IndexIs<T>(s: seq<T>, pat: seq<T>, r: int)
    requires r >= -1 && FirstMatch(s, pat, r)
    ensures IndexOf(s, pat) == r
  {
    var q := IndexOf(s, pat);
    assert FirstMatch(s, pat, q);
    if q != -1 && r != -1 {
      assert MatchAt(s, pat, q) && MatchAt(s, pat, r);
    }
  }

  /** r is what of s has a property, in order; idx are the places it comes from. */
  ghost predicate Sifted<T>(s: seq<T>, keep: T -> bool, r: seq<T>, idx: seq<int>) {
    && |idx| == |r|
    && (forall k | 0 <= k < |r| :: 0 <= idx[k] < |s| && s[idx[k]] == r[k] && keep(r[k]))
    && (forall k, l | 0 <= k < l < |r| :: idx[k] < idx[l])
    && (forall i | 0 <= i < |s| && keep(s[i]) :: i in idx)
  }

  lemma NoneSifted<T>(keep: T -> bool)
    ensures Sifted([], keep, [], [])
  {
  }

  lemma SiftedSnoc<T>(s: seq<T>, keep: T -> bool, r: seq<T>, idx: seq<int>, x: T)
    requires Sifted(s, keep, r, idx)
    ensures if keep(x) then Sifted(s + [x], keep, r + [x], idx + [|s|]) else Sifted(s + [x], keep, r, idx)
  {
    var more, longer := s + [x], idx + [|s|];
    assert forall i | 0 <= i < |s| :: more[i] == s[i];
    assert longer[|idx|] == |s| && forall k | 0 <= k < |idx| :: longer[k] == idx[k];
    forall i | 0 <= i < |s| && keep(s[i]) ensures i in longer {
      assert i in idx;
    }
  }

  /** r is s without the places marked as gone; idx are the places that remain. */
  ghost predicate Remaining<T>(s: seq<T>, gone: seq<bool>, r: seq<T>, idx: seq<int>)
    requires |gone| == |s|
  {
    && |idx| == |r|
    && (forall k | 0 <= k < |r| :: 0 <= idx[k] < |s| && s[idx[k]] == r[k] && !gone[idx[k]])
    && (forall k, l | 0 <= k < l < |r| :: idx[k] < idx[l])
    && (forall i | 0 <= i < |s| && !gone[i] :: i in idx)
  }

  lemma RemainingSnoc<T>(s: seq<T>, gone: seq<bool>, r: seq<T>, idx: seq<int>, x: T, g: bool)
    requires |gone| == |s| && Remaining(s, gone, r, idx)
    ensures if g then Remaining(s + [x], gone + [g], r, idx) else Remaining(s + [x], gone + [g], r + [x], idx + [|s|])
  {
    var more, flags, longer := s + [x], gone + [g], idx + [|s|];
    assert forall i | 0 <= i < |s| :: more[i] == s[i] && flags[i] == gone[i];
    assert longer[|idx|] == |s| && forall k | 0 <= k < |idx| :: longer[k] == idx[k];
    forall i | 0 <= i < |s| && !gone[i] ensures i in longer {
      assert i in idx;
    }
  }
}
