/** Ultra mode: scoring words and pruning the low ones. Scores are reals. */
module Ultra {
  import opened Seqs
  import opened GoStrings
  import opened CodeBlocks

  // ---- scores ------------------------------------------------------------------------------

  /** Numbers, URLs, paths, error markers and fences. */
  predicate ForcePreserve(token: string) {
    || ContainsAny(token, "0123456789")
    || Contains(token, "http://") || Contains(token, "https://")
    || ContainsAny(token, "._/\\")
    || Contains(token, "Error:") || Contains(token, "Exception:")
    || Contains(token, "```")
  }

  /** `isStopword` tests the lower-cased token against the stopword table. */
  function ScoreToken(token: string, isStopword: string -> bool): real
  {
    if ForcePreserve(token) then 1.0
    else if isStopword(token) then 0.1
    else if |token| <= 2 then 0.2
    else if 'A' <= token[0] <= 'Z' then 0.8
    else if |token| >= 6 then 0.7
    else 0.5
  }

  // ---- words -------------------------------------------------------------------------------

  predicate IsSeparator(c: char) {
    c == ' ' || c == '\t' || c == '\n'
  }

  /** The maximal runs of non-separators; `open` tells whether the last word may still grow. */
  function Fields(s: string): (seq<string>, bool) {
    if s == "" then ([], false)
    else
      var (words, grows) := Fields(Init(s));
      if IsSeparator(Last(s)) then (words, false)
      else if grows && words != [] then (Init(words) + [Last(words) + [Last(s)]], true)
      else (words + [[Last(s)]], true)
  }

  // ---- the stable sort ---------------------------------------------------------------------

  datatype Scored = Scored(idx: nat, score: real)

  /** Sorted by score; equal scores keep the order of their positions. */
  predicate Before(a: Scored, b: Scored) {
    a.score < b.score || (a.score == b.score && a.idx < b.idx)
  }

  ghost predicate SortedScores(s: seq<Scored>) {
    forall i, j | 0 <= i < j < |s| :: Before(s[i], s[j])
  }

  /** Stable insertion: behind every entry whose score is not greater. */
  function Insert(s: seq<Scored>, x: Scored): (r: seq<Scored>)
    ensures |r| == |s| + 1
  {
    if s == [] || Last(s).score <= x.score then s + [x] else Insert(Init(s), x) + [Last(s)]
  }

  function StableSort(s: seq<Scored>): (r: seq<Scored>)
    ensures |r| == |s|
  {
    if s == [] then [] else Insert(StableSort(Init(s)), Last(s))
  }

  lemma {:induction false} InsertElements(s: seq<Scored>, x: Scored)
    ensures forall y :: y in Insert(s, x) <==> y in s || y == x
  {
    if s != [] && !(Last(s).score <= x.score) {
      InsertElements(Init(s), x);
      InitLast(s);
    }
  }

  lemma {:induction false} InsertSorted(s: seq<Scored>, x: Scored)
    requires SortedScores(s) && forall y | y in s :: y.idx < x.idx
    ensures SortedScores(Insert(s, x))
  {
    if s == [] || Last(s).score <= x.score {
      forall i | 0 <= i < |s| ensures Before(s[i], x) {
        if i < |s| - 1 {
          assert Before(s[i], Last(s));
        }
        assert s[i] in s;
      }
    } else {
      var front, last := Init(s), Last(s);
      assert forall y | y in front :: y in s;
      InsertSorted(front, x);
      InsertElements(front, x);
      var r := Insert(front, x);
      forall i | 0 <= i < |r| ensures Before(r[i], last) {
        assert r[i] in r;
        if r[i] in front {
          var k :| 0 <= k < |front| && front[k] == r[i];
          assert Before(s[k], s[|s| - 1]);
        }
      }
    }
  }

  lemma {:induction false} StableSortElements(s: seq<Scored>)
    ensures forall y :: y in StableSort(s) <==> y in s
  {
    if s != [] {
      StableSortElements(Init(s));
      InsertElements(StableSort(Init(s)), Last(s));
      InitLast(s);
    }
  }

  /** On entries in position order, sorting gives the (score, position) order. */
  lemma {:induction false} StableSortSorted(s: seq<Scored>)
    requires forall i, j | 0 <= i < j < |s| :: s[i].idx < s[j].idx
    ensures SortedScores(StableSort(s))
  {
    if s != [] {
      StableSortSorted(Init(s));
      StableSortElements(Init(s));
      forall y | y in StableSort(Init(s)) ensures y.idx < Last(s).idx {
        var k :| 0 <= k < |Init(s)| && Init(s)[k] == y;
        assert s[k].idx < s[|s| - 1].idx;
      }
      InsertSorted(StableSort(Init(s)), Last(s));
    }
  }

  // ---- the selection -----------------------------------------------------------------------

  function Entry(fields: seq<string>, score: string -> real, i: nat): Scored
    requires i < |fields|
  {
    Scored(i, score(fields[i]))
  }

  function Entries(fields: seq<string>, score: string -> real): (s: seq<Scored>)
    ensures |s| == |fields|
    ensures forall i | 0 <= i < |fields| :: s[i] == Entry(fields, score, i)
  {
    seq(|fields|, i requires 0 <= i < |fields| => Entry(fields, score, i))
  }

  /** The tokens that may be pruned. */
  function Low(fields: seq<string>, score: string -> real, minScore: real): (low: set<nat>)
  {
    set i: nat | i < |fields| && score(fields[i]) < minScore
  }

  /** At most maxPrune low tokens go; fewer only if none is left; and those that go come first in
      (score, position) order. */
  ghost predicate Selection(fields: seq<string>, score: string -> real, minScore: real, maxPrune: nat, prune: set<nat>) {
    var low := Low(fields, score, minScore);
    && prune <= low
    && |prune| <= maxPrune
    && (|prune| == maxPrune || prune == low)
    && forall i, j | i in prune && j in low && j !in prune :: Before(Entry(fields, score, i), Entry(fields, score, j))
  }

  lemma SubsetCard<T>(a: set<T>, b: set<T>)
    requires a <= b
    ensures |a| <= |b| && (|a| == |b| ==> a == b)
  {
    assert b == a + (b - a);
  }

  lemma SomethingElse<T>(p: set<T>, q: set<T>) returns (x: T)
    requires |p| >= |q| && p != q
    ensures x in p && x !in q
  {
    SubsetCard(p * q, p);
    SubsetCard(p * q, q);
    assert p == (p - q) + (p * q);
    x := Pick(p - q);
  }

  /** A token that goes precedes every low token that stays. */
  lemma Precedes(fields: seq<string>, score: string -> real, minScore: real, maxPrune: nat, prune: set<nat>, i: nat, j: nat)
    requires Selection(fields, score, minScore, maxPrune, prune)
    requires i in prune && j in Low(fields, score, minScore) && j !in prune
    ensures i < |fields| && j < |fields| && Before(Entry(fields, score, i), Entry(fields, score, j))
  {
  }

  /** The three conditions leave no choice. */
  lemma SelectionUnique(fields: seq<string>, score: string -> real, minScore: real, maxPrune: nat,
                        p: set<nat>, q: set<nat>)
    requires Selection(fields, score, minScore, maxPrune, p) && Selection(fields, score, minScore, maxPrune, q)
    ensures p == q
  {
    var low := Low(fields, score, minScore);
    SubsetCard(p, low);
    SubsetCard(q, low);
    assert |p| == |q|;
    if p != q {
      var i := SomethingElse(p, q);
      var j := SomethingElse(q, p);
      Precedes(fields, score, minScore, maxPrune, p, i, j);
      Precedes(fields, score, minScore, maxPrune, q, j, i);
      assert false;
    }
  }

  /** The fields that are not pruned, in order. */
  function Kept(fields: seq<string>, prune: set<nat>): seq<string> {
    if fields == [] then []
    else Kept(Init(fields), prune) + (if |fields| - 1 in prune then [] else [Last(fields)])
  }

  /** Go's conversion to int: towards zero. */
  function Truncated(x: real): int {
    if x < 0.0 then -(-x).Floor else x.Floor
  }

  /** ceil(x) for x with a fraction of at least a thousandth, as the code computes it. */
  function TargetKeep(n: nat, keepRate: real): int {
    Truncated(n as real * keepRate + 0.999)
  }

  /** At the call site's rate the target is the exact ceiling of 3n/5. */
  lemma TargetAtCallSite(n: nat)
    ensures TargetKeep(n, 0.6) == (3 * n + 4) / 5
  {
    var q, r := n / 5, n % 5;
    assert n == 5 * q + r;
    assert n as real * 0.6 == 3.0 * q as real + r as real * 0.6;
    assert n as real * 0.6 + 0.999 == (3 * q) as real + (r as real * 0.6 + 0.999);
    var c := if r == 0 then 0 else if r == 1 then 1 else if r <= 3 then 2 else 3;
    assert (3 * n + 4) / 5 == 3 * q + (3 * r + 4) / 5;
  }

  // ---- the pruner --------------------------------------------------------------------------

  /** The selection loop from entry k of the sorted list on. */
  function Chosen(sorted: seq<Scored>, minScore: real, maxPrune: nat, k: nat, prune: set<nat>): set<nat>
    requires k <= |sorted|
    decreases |sorted| - k
  {
    if k == |sorted| || |prune| >= maxPrune then prune
    else Chosen(sorted, minScore, maxPrune, k + 1, if sorted[k].score < minScore then prune + {sorted[k].idx} else prune)
  }

  /** The state of the loop after the first k entries. */
  ghost predicate Pruning(minScore: real, maxPrune: nat, sorted: seq<Scored>, k: nat, prune: set<nat>)
    requires k <= |sorted|
  {
    && |prune| <= maxPrune
    && (forall i | i in prune :: exists m | 0 <= m < k :: sorted[m].idx == i && sorted[m].score < minScore)
    && (forall m | 0 <= m < k && sorted[m].score < minScore :: sorted[m].idx in prune)
  }

  ghost predicate IsSortOf(fields: seq<string>, score: string -> real, sorted: seq<Scored>) {
    && SortedScores(sorted)
    && (forall m | 0 <= m < |sorted| :: sorted[m].idx < |fields| && sorted[m] == Entry(fields, score, sorted[m].idx))
    && (forall i | 0 <= i < |fields| :: Entry(fields, score, i) in sorted)
  }

  lemma SortIsSort(fields: seq<string>, score: string -> real)
    ensures IsSortOf(fields, score, StableSort(Entries(fields, score)))
  {
    var entries := Entries(fields, score);
    StableSortSorted(entries);
    StableSortElements(entries);
    var sorted := StableSort(entries);
    forall m | 0 <= m < |sorted|
      ensures sorted[m].idx < |fields| && sorted[m] == Entry(fields, score, sorted[m].idx)
    {
      assert sorted[m] in sorted;
    }
    forall i | 0 <= i < |fields| ensures Entry(fields, score, i) in sorted {
      assert entries[i] in entries;
    }
  }

  lemma DistinctIdx(fields: seq<string>, score: string -> real, sorted: seq<Scored>, k: nat)
    requires IsSortOf(fields, score, sorted) && k < |sorted|
    ensures forall m | 0 <= m < k :: sorted[m].idx != sorted[k].idx
  {
    forall m | 0 <= m < k ensures sorted[m].idx != sorted[k].idx {
      assert Before(sorted[m], sorted[k]);
    }
  }

  lemma PruneOne(fields: seq<string>, score: string -> real, minScore: real, maxPrune: nat,
                 sorted: seq<Scored>, k: nat, prune: set<nat>)
    requires IsSortOf(fields, score, sorted) && k < |sorted|
    requires Pruning(minScore, maxPrune, sorted, k, prune) && |prune| < maxPrune
    ensures sorted[k].score < minScore ==> sorted[k].idx !in prune
    ensures Pruning(minScore, maxPrune, sorted, k + 1,
                    if sorted[k].score < minScore then prune + {sorted[k].idx} else prune)
  {
    DistinctIdx(fields, score, sorted, k);
    hide IsSortOf;
    PruneNext(minScore, maxPrune, sorted, k, prune);
  }

  lemma PruneNext(minScore: real, maxPrune: nat, sorted: seq<Scored>, k: nat, prune: set<nat>)
    requires k < |sorted| && Pruning(minScore, maxPrune, sorted, k, prune) && |prune| < maxPrune
    requires forall m | 0 <= m < k :: sorted[m].idx != sorted[k].idx
    ensures sorted[k].score < minScore ==> sorted[k].idx !in prune
    ensures Pruning(minScore, maxPrune, sorted, k + 1,
                    if sorted[k].score < minScore then prune + {sorted[k].idx} else prune)
  {
    var next := if sorted[k].score < minScore then prune + {sorted[k].idx} else prune;
    assert |next| <= maxPrune;
    forall i | i in next ensures exists m | 0 <= m < k + 1 :: sorted[m].idx == i && sorted[m].score < minScore {
      if i in prune {
        var m :| 0 <= m < k && sorted[m].idx == i && sorted[m].score < minScore;
      } else {
        assert sorted[k].idx == i;
      }
    }
  }

  lemma PruneDone(fields: seq<string>, score: string -> real, minScore: real, maxPrune: nat,
                  sorted: seq<Scored>, k: nat, prune: set<nat>)
    requires IsSortOf(fields, score, sorted) && k <= |sorted|
    requires Pruning(minScore, maxPrune, sorted, k, prune)
    requires k == |sorted| || |prune| == maxPrune
    ensures Selection(fields, score, minScore, maxPrune, prune)
  {
    var low := Low(fields, score, minScore);
    forall j | j in low && j !in prune
      ensures k < |sorted| && forall i | i in prune :: Before(Entry(fields, score, i), Entry(fields, score, j))
    {
      var b :| 0 <= b < |sorted| && sorted[b] == Entry(fields, score, j);
      forall i | i in prune ensures Before(Entry(fields, score, i), Entry(fields, score, j)) {
        var a :| 0 <= a < k && sorted[a].idx == i && sorted[a].score < minScore;
        assert Before(sorted[a], sorted[b]);
      }
    }
  }

  lemma {:induction false} ChosenSelects(fields: seq<string>, score: string -> real, minScore: real, maxPrune: nat,
                                         sorted: seq<Scored>, k: nat, prune: set<nat>)
    requires IsSortOf(fields, score, sorted) && k <= |sorted|
    requires Pruning(minScore, maxPrune, sorted, k, prune)
    ensures Selection(fields, score, minScore, maxPrune, Chosen(sorted, minScore, maxPrune, k, prune))
    decreases |sorted| - k
  {
    hide Pruning, IsSortOf, Selection;
    PruningSize(minScore, maxPrune, sorted, k, prune);
    if k == |sorted| || |prune| >= maxPrune {
      PruneDone(fields, score, minScore, maxPrune, sorted, k, prune);
    } else {
      PruneOne(fields, score, minScore, maxPrune, sorted, k, prune);
      ChosenSelects(fields, score, minScore, maxPrune, sorted, k + 1,
                    if sorted[k].score < minScore then prune + {sorted[k].idx} else prune);
    }
  }

  lemma PruningSize(minScore: real, maxPrune: nat, sorted: seq<Scored>, k: nat, prune: set<nat>)
    requires k <= |sorted| && Pruning(minScore, maxPrune, sorted, k, prune)
    ensures |prune| <= maxPrune
  {
  }

  function Prunable(fields: seq<string>, score: string -> real, minScore: real, maxPrune: nat): set<nat> {
    Chosen(StableSort(Entries(fields, score)), minScore, maxPrune, 0, {})
  }

  lemma PrunableSelects(fields: seq<string>, score: string -> real, minScore: real, maxPrune: nat)
    ensures Selection(fields, score, minScore, maxPrune, Prunable(fields, score, minScore, maxPrune))
  {
    SortIsSort(fields, score);
    ChosenSelects(fields, score, minScore, maxPrune, StableSort(Entries(fields, score)), 0, {});
  }

  lemma PruningStart(minScore: real, maxPrune: nat, sorted: seq<Scored>)
    ensures Pruning(minScore, maxPrune, sorted, 0, {})
  {
  }

  method SelectPruned(fields: seq<string>, score: string -> real, minScore: real, maxPrune: nat) returns (prune: set<nat>)
    ensures prune == Prunable(fields, score, minScore, maxPrune)
    ensures Selection(fields, score, minScore, maxPrune, prune)
  {
    hide IsSortOf, Pruning, Selection, StableSort, Entries;
    PrunableSelects(fields, score, minScore, maxPrune);
    var sorted := StableSort(Entries(fields, score));
    SortIsSort(fields, score);
    prune := {};
    PruningStart(minScore, maxPrune, sorted);
    var pruned := 0;
    var k := 0;
    while k < |sorted|
      invariant 0 <= k <= |sorted| && pruned == |prune|
      invariant Pruning(minScore, maxPrune, sorted, k, prune)
      invariant Chosen(sorted, minScore, maxPrune, k, prune) == Prunable(fields, score, minScore, maxPrune)
    {
      if pruned >= maxPrune {
        break;
      }
      PruneOne(fields, score, minScore, maxPrune, sorted, k, prune);
      if sorted[k].score < minScore {
        prune := prune + {sorted[k].idx};
        pruned := pruned + 1;
      }
      k := k + 1;
    }
  }

  /** What pruneByScore promises about its result. */
  ghost predicate Pruned(text: string, keepRate: real, minScore: real, score: string -> real, out: string) {
    var fields := Fields(text).0;
    var target := TargetKeep(|fields|, keepRate);
    if text == "" || keepRate >= 1.0 || target >= |fields| then out == text
    else exists prune :: Selection(fields, score, minScore, |fields| - target, prune) && out == Join(Kept(fields, prune), " ")
  }

  method KeepOthers(fields: seq<string>, prune: set<nat>) returns (kept: seq<string>)
    ensures kept == Kept(fields, prune)
  {
    kept := [];
    for i := 0 to |fields|
      invariant kept == Kept(fields[..i], prune)
    {
      if i !in prune {
        kept := kept + [fields[i]];
      }
      assert Init(fields[..i + 1]) == fields[..i];
    }
    assert fields[..|fields|] == fields;
  }

  function PrunedText(text: string, keepRate: real, minScore: real, score: string -> real): string {
    var fields := Fields(text).0;
    var target := TargetKeep(|fields|, keepRate);
    if text == "" || keepRate >= 1.0 || target >= |fields| then text
    else Join(Kept(fields, Prunable(fields, score, minScore, |fields| - target)), " ")
  }

  method PruneByScore(text: string, keepRate: real, minScore: real, score: string -> real) returns (out: string)
    ensures out == PrunedText(text, keepRate, minScore, score)
    ensures Pruned(text, keepRate, minScore, score, out)
    ensures |out| <= |text|
  {
    hide Selection, Prunable, Join;
    if text == "" || keepRate >= 1.0 {
      return text;
    }
    var fields := Fields(text).0;
    if |fields| == 0 {
      return text;
    }
    var targetKeep := Truncated(|fields| as real * keepRate + 0.999);
    if targetKeep >= |fields| {
      return text;
    }
    var prune := SelectPruned(fields, score, minScore, |fields| - targetKeep);
    var kept := KeepOthers(fields, prune);
    out := Join(kept, " ");
    KeptShorter(fields, prune);
    FieldsFit(text);
  }

  // ---- sizes -------------------------------------------------------------------------------

  lemma {:induction false} KeptShorter(fields: seq<string>, prune: set<nat>)
    ensures |Join(Kept(fields, prune), " ")| <= |Join(fields, " ")|
    ensures |Kept(fields, prune)| <= |fields|
  {
    if fields != [] {
      var front, last := Init(fields), Last(fields);
      KeptShorter(front, prune);
      var kept := Kept(front, prune);
      assert fields == front + [last];
      JoinLength(front, last);
      JoinLength(kept, last);
      assert kept + [] == kept;
    }
  }

  lemma JoinLength(words: seq<string>, w: string)
    ensures |Join(words + [w], " ")| == |Join(words, " ")| + (if words == [] then 0 else 1) + |w|
  {
    if words == [] {
      assert words + [w] == [w];
    } else {
      JoinSnoc(words, " ", w);
    }
  }

  /** The words with single spaces between them fit into the text they came from. */
  lemma {:induction false} FieldsFit(s: string)
    ensures var (words, grows) := Fields(s);
            && (grows ==> words != [])
            && |Join(words, " ")| + (if words != [] && !grows then 1 else 0) <= |s|
  {
    if s != "" {
      FieldsFit(Init(s));
      var (words, grows) := Fields(Init(s));
      if !IsSeparator(Last(s)) {
        if grows && words != [] {
          var front, last := Init(words), Last(words);
          assert words == front + [last];
          JoinLength(front, last);
          JoinLength(front, last + [Last(s)]);
        } else {
          JoinLength(words, [Last(s)]);
        }
      }
    }
  }

  /** At least the target number of tokens survives. */
  lemma {:induction false} KeptCount(fields: seq<string>, prune: set<nat>)
    requires forall i | i in prune :: i < |fields|
    ensures |Kept(fields, prune)| == |fields| - |prune|
  {
    if fields != [] {
      var n := |fields| - 1;
      var rest := prune - {n};
      KeptCount(Init(fields), rest);
      KeptSame(Init(fields), prune, rest);
      if n in prune {
        assert prune == rest + {n};
      } else {
        assert prune == rest;
      }
    } else {
      if prune != {} {
        var i := Pick(prune);
      }
    }
  }

  lemma {:induction false} KeptSame(fields: seq<string>, p: set<nat>, q: set<nat>)
    requires forall i | 0 <= i < |fields| :: i in p <==> i in q
    ensures Kept(fields, p) == Kept(fields, q)
  {
    if fields != [] {
      KeptSame(Init(fields), p, q);
    }
  }

  /** Every token at or above the minimum survives, and so do at least `target` tokens in all. */
  lemma SurvivorsOf(fields: seq<string>, score: string -> real, minScore: real, target: nat, prune: set<nat>)
    requires target <= |fields| && Selection(fields, score, minScore, |fields| - target, prune)
    ensures |Kept(fields, prune)| >= target
    ensures forall i | 0 <= i < |fields| && score(fields[i]) >= minScore :: i !in prune && fields[i] in Kept(fields, prune)
  {
    KeptCount(fields, prune);
    forall i | 0 <= i < |fields| && i !in prune ensures fields[i] in Kept(fields, prune) {
      KeptHas(fields, prune, i);
    }
  }

  lemma {:induction false} KeptHas(fields: seq<string>, prune: set<nat>, i: nat)
    requires i < |fields| && i !in prune
    ensures fields[i] in Kept(fields, prune)
  {
    if i < |fields| - 1 {
      KeptHas(Init(fields), prune, i);
    }
  }

  // ---- tokens that must stay ---------------------------------------------------------------

  predicate Word(w: string) {
    w != "" && forall c | c in w :: !IsSeparator(c)
  }

  ghost predicate Words(words: seq<string>) {
    forall i | 0 <= i < |words| :: Word(words[i])
  }

  lemma {:induction false} FieldsAreWords(s: string)
    ensures Words(Fields(s).0)
  {
    if s != "" {
      FieldsAreWords(Init(s));
      var (words, grows) := Fields(Init(s));
      if !IsSeparator(Last(s)) && grows && words != [] {
        assert Word(words[|words| - 1]);
      }
    }
  }

  lemma {:induction false} FieldsAppend(s: string, w: string)
    requires Word(w) && !Fields(s).1
    ensures Fields(s + w) == (Fields(s).0 + [w], true)
  {
    var front, c := Init(w), Last(w);
    InitLast(w);
    assert Init(s + w) == s + front && Last(s + w) == c;
    assert forall x | x in front :: x in w;
    if front == "" {
      assert s + front == s && [c] == w;
    } else {
      FieldsAppend(s, front);
      var words := Fields(s).0 + [front];
      assert Init(words) == Fields(s).0 && Last(words) == front;
    }
  }

  /** Words joined with single spaces are split into the same words again. */
  lemma {:induction false} FieldsOfJoin(words: seq<string>)
    requires Words(words)
    ensures Fields(Join(words, " ")).0 == words
  {
    if words != [] {
      var front, w := Init(words), Last(words);
      assert Word(words[|words| - 1]);
      FieldsOfJoin(front);
      InitLast(words);
      if front == [] {
        FieldsAppend("", w);
        assert "" + w == w && Join(words, " ") == w;
      } else {
        var s := Join(front, " ") + " ";
        assert Init(s) == Join(front, " ") && Last(s) == ' ';
        FieldsAppend(s, w);
        JoinSnoc(front, " ", w);
      }
    }
  }

  lemma {:induction false} KeptWords(fields: seq<string>, prune: set<nat>)
    requires Words(fields)
    ensures Words(Kept(fields, prune))
  {
    if fields != [] {
      KeptWords(Init(fields), prune);
      assert Word(fields[|fields| - 1]);
    }
  }

  /** The tokens that must stay, in order. */
  function Forced(words: seq<string>): seq<string> {
    if words == [] then []
    else Forced(Init(words)) + if ForcePreserve(Last(words)) then [Last(words)] else []
  }

  lemma {:induction false} ForcedKept(fields: seq<string>, prune: set<nat>)
    requires forall i | i in prune && i < |fields| :: !ForcePreserve(fields[i])
    ensures Forced(Kept(fields, prune)) == Forced(fields)
  {
    hide ForcePreserve;
    if fields != [] {
      ForcedKept(Init(fields), prune);
      var kept := Kept(Init(fields), prune);
      assert Init(kept + [Last(fields)]) == kept;
      assert kept + [] == kept && Forced(Init(fields)) + [] == Forced(Init(fields));
    }
  }

  lemma ForcedNotLow(fields: seq<string>, isStopword: string -> bool, prune: set<nat>)
    requires prune <= Low(fields, t => ScoreToken(t, isStopword), MIN_SCORE)
    ensures forall i | i in prune && i < |fields| :: !ForcePreserve(fields[i])
  {
    hide ForcePreserve;
  }

  /** Numbers, URLs, paths, error markers and fences survive pruning: the tokens that must stay are the
      same, as many and in the same order, whatever the stop words. */
  lemma ForcedSurvive(text: string, isStopword: string -> bool)
    ensures Forced(Fields(PrunedText(text, KEEP_RATE, MIN_SCORE, t => ScoreToken(t, isStopword))).0) == Forced(Fields(text).0)
  {
    hide ForcePreserve, ScoreToken, Forced, Prunable, Kept, Fields, Join;
    var fields, score := Fields(text).0, (t: string) => ScoreToken(t, isStopword);
    var target := TargetKeep(|fields|, KEEP_RATE);
    if !(text == "" || target >= |fields|) {
      var prune := Prunable(fields, score, MIN_SCORE, |fields| - target);
      PrunableSelects(fields, score, MIN_SCORE, |fields| - target);
      ForcedNotLow(fields, isStopword, prune);
      ForcedKept(fields, prune);
      FieldsAreWords(text);
      KeptWords(fields, prune);
      FieldsOfJoin(Kept(fields, prune));
    }
  }

  // ---- one message -------------------------------------------------------------------------

  const KEEP_RATE := 0.6
  const MIN_SCORE := 0.3

  /** Every maximal run of prose pruned, if that makes the text shorter. */
  function UltraText(s: string, score: string -> real): string {
    var pruned := Rewrite(s, t => PrunedText(t, KEEP_RATE, MIN_SCORE, score));
    if |pruned| < |s| then pruned else s
  }

  /** Prose is pruned, frozen runs stay verbatim and in order, and the text never grows. */
  method UltraRewrite(s: string, score: string -> real) returns (out: string)
    ensures out == UltraText(s, score)
    ensures FrozenKept(s, out)
    ensures |out| <= |s| && (out == s || |out| < |s|)
  {
    hide PrunedText, Pruned, FrozenKept, FrozenMask, Runs, Joined, Flags;
    var segs := SplitCodeBlocks(s);
    ghost var original := segs;
    ghost var f := t => PrunedText(t, KEEP_RATE, MIN_SCORE, score);
    var changed := false;
    for j := 0 to |segs|
      invariant |segs| == |original|
      invariant forall k | 0 <= k < |segs| :: segs[k] == (if k < j then MapProse(original, f)[k] else original[k])
      invariant !changed ==> segs == original
    {
      if !segs[j].isCode {
        var pruned := PruneByScore(segs[j].text, KEEP_RATE, MIN_SCORE, score);
        if pruned != segs[j].text {
          segs := segs[j := segs[j].(text := pruned)];
          changed := true;
        }
      }
    }
    assert segs == MapProse(original, f);
    RewriteIs(s, original, f);
    RewriteKeepsFrozen(s, f);
    RewriteNothing(s, t => t);
    RewriteKeepsFrozen(s, t => t);
    out := s;
    if changed {
      var newText := JoinSegments(segs);
      if |newText| < |s| {
        out := newText;
      }
    }
  }
}
