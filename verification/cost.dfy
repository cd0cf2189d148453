/** Longest-prefix price lookup, after internal/cost/cost.go: the price table is read out in an
    arbitrary order, sorted in place by prefix length, and scanned for the first match. */
module Cost {
  import opened Seqs

  /** USD per million tokens. */
  datatype Price = Price(In: real, Out: real)

  datatype Entry = Entry(prefix: string, p: Price)

  const FALLBACK := Price(1.00, 5.00)

  function Entries(table: map<string, Price>): set<Entry> {
    set k | k in table :: Entry(k, table[k])
  }

  ghost predicate LongestFirst(es: seq<Entry>) {
    forall i, j | 0 <= i < j < |es| :: |es[i].prefix| >= |es[j].prefix|
  }

  // ---- what a price is, without any order ------------------------------------------------------

  /** The longest prefix of m, of length n at most, that the table knows. */
  function LongestKnown(table: map<string, Price>, m: string, n: nat): (r: Option<string>)
    requires n <= |m|
    ensures r.Some? ==> r.value in table && r.value <= m
  {
    if m[..n] in table then Some(m[..n])
    else if n == 0 then None
    else LongestKnown(table, m, n - 1)
  }

  function PriceOf(table: map<string, Price>, m: string): Price {
    var k := LongestKnown(table, m, |m|);
    if k.Some? then table[k.value] else FALLBACK
  }

  lemma PrefixIs(p: string, m: string)
    requires p <= m
    ensures p == m[..|p|]
  {
  }

  /** LongestKnown finds k exactly if k is a known prefix of m and no other known prefix is as long. */
  lemma {:induction false} LongestUnique(table: map<string, Price>, m: string, n: nat, k: string)
    requires n <= |m| && k <= m && |k| <= n
    ensures LongestKnown(table, m, n) == Some(k) <==>
            k in table && forall p | p in table && p <= m && |p| <= n && p != k :: |p| < |k|
  {
    if m[..n] in table {
      assert |m[..n]| == n && m[..n] <= m;
    } else if n > 0 && |k| < n {
      LongestUnique(table, m, n - 1, k);
      forall p | p in table && p <= m && |p| <= n ensures |p| <= n - 1 {
        PrefixIs(p, m);
      }
    } else {
      assert k == m[..n];
    }
  }

  lemma {:induction false} NoneKnown(table: map<string, Price>, m: string, n: nat)
    requires n <= |m|
    ensures LongestKnown(table, m, n) == None <==> forall p | p in table && p <= m :: |p| > n
  {
    if m[..n] in table {
      assert m[..n] <= m && |m[..n]| == n;
    } else if n > 0 {
      NoneKnown(table, m, n - 1);
      forall p | p in table && p <= m ensures |p| != n {
        PrefixIs(p, m);
      }
    }
  }

  /** A known prefix of m longer than every other one gives the price; without one it is 1 in and 5 out. */
  lemma PriceIs(table: map<string, Price>, m: string, k: string)
    ensures k in table && k <= m && (forall p | p in table && p <= m && p != k :: |p| < |k|) ==> PriceOf(table, m) == table[k]
    ensures (forall p | p in table :: !(p <= m)) ==> PriceOf(table, m) == Price(1.0, 5.0)
  {
    if k <= m {
      LongestUnique(table, m, |m|, k);
    }
    NoneKnown(table, m, |m|);
  }

  /** In any list of the table's entries with the longest prefixes first, the first match gives the price. */
  lemma FirstMatchIsPrice(table: map<string, Price>, es: seq<Entry>, m: string, i: nat)
    requires LongestFirst(es) && forall e :: e in es <==> e in Entries(table)
    requires i < |es| && es[i].prefix <= m && forall j | 0 <= j < i :: !(es[j].prefix <= m)
    ensures es[i].p == PriceOf(table, m)
  {
    var k := es[i].prefix;
    assert es[i] in es;
    forall p | p in table && p <= m && p != k ensures |p| < |k| {
      var e := Entry(p, table[p]);
      assert e in Entries(table);
      var j :| 0 <= j < |es| && es[j] == e;
      assert j > i;
      PrefixIs(p, m);
      PrefixIs(k, m);
    }
    LongestUnique(table, m, |m|, k);
  }

  lemma NoMatchIsFallback(table: map<string, Price>, es: seq<Entry>, m: string)
    requires forall e :: e in es <==> e in Entries(table)
    requires forall j | 0 <= j < |es| :: !(es[j].prefix <= m)
    ensures PriceOf(table, m) == FALLBACK
  {
    forall p | p in table ensures !(p <= m) {
      assert Entry(p, table[p]) in Entries(table);
      var j :| 0 <= j < |es| && es[j] == Entry(p, table[p]);
    }
    NoneKnown(table, m, |m|);
  }

  // ---- the exchange sort -------------------------------------------------------------------------

  /** The first i entries are in place. */
  ghost predicate Placed(es: seq<Entry>, i: nat) {
    forall p, q | 0 <= p < i && p < q < |es| :: |es[p].prefix| >= |es[q].prefix|
  }

  /** Entry i is as long as any up to j. */
  ghost predicate Leads(es: seq<Entry>, i: nat, j: nat) {
    i < |es| && forall q | i < q < j && q < |es| :: |es[i].prefix| >= |es[q].prefix|
  }

  lemma Exchange(es: seq<Entry>, i: nat, j: nat)
    requires i < j < |es| && Placed(es, i) && Leads(es, i, j) && |es[j].prefix| > |es[i].prefix|
    ensures Placed(es[i := es[j]][j := es[i]], i) && Leads(es[i := es[j]][j := es[i]], i, j + 1)
    ensures multiset(es[i := es[j]][j := es[i]]) == multiset(es)
  {
  }

  lemma LeadOn(es: seq<Entry>, i: nat, j: nat)
    requires i < j < |es| && Leads(es, i, j) && |es[j].prefix| <= |es[i].prefix|
    ensures Leads(es, i, j + 1)
  {
  }

  lemma LeadStart(es: seq<Entry>, i: nat)
    requires i < |es|
    ensures Leads(es, i, i + 1)
  {
  }

  lemma PlaceNext(es: seq<Entry>, i: nat)
    requires Placed(es, i) && Leads(es, i, |es|)
    ensures Placed(es, i + 1)
  {
  }

  lemma AllPlaced(es: seq<Entry>)
    ensures Placed(es, 0)
    ensures Placed(es, |es|) ==> LongestFirst(es)
  {
  }

  method SortByLength(a: array<Entry>)
    modifies a
    ensures LongestFirst(a[..])
    ensures multiset(a[..]) == multiset(old(a[..]))
  {
    hide Placed, Leads, LongestFirst;
    AllPlaced(a[..]);
    for i := 0 to a.Length
      invariant multiset(a[..]) == multiset(old(a[..])) && Placed(a[..], i)
    {
      LeadStart(a[..], i);
      for j := i + 1 to a.Length
        invariant multiset(a[..]) == multiset(old(a[..])) && Placed(a[..], i) && Leads(a[..], i, j)
      {
        ghost var es := a[..];
        if |a[j].prefix| > |a[i].prefix| {
          Exchange(es, i, j);
          a[i], a[j] := a[j], a[i];
          assert a[..] == es[i := es[j]][j := es[i]];
        } else {
          LeadOn(es, i, j);
        }
      }
      PlaceNext(a[..], i);
    }
    AllPlaced(a[..]);
  }

  // ---- the lookup --------------------------------------------------------------------------------

  class PriceBook {
    const table: map<string, Price>
    const lower: string -> string
    var lookup: array<Entry>
    var built: bool

    constructor (table: map<string, Price>, lower: string -> string)
      ensures Valid() && this.table == table && this.lower == lower && fresh(lookup) && !built
    {
      this.table, this.lower, this.built := table, lower, false;
      lookup := new Entry[0];
    }

    /** Once built, a permutation of the table with the longest prefixes first. */
    ghost predicate Valid()
      reads this, lookup
    {
      built ==> LongestFirst(lookup[..]) && multiset(lookup[..]) == multiset(Entries(table))
    }

    /** Go's range over the table, in whatever order it comes. */
    method ReadOut() returns (es: seq<Entry>)
      ensures multiset(es) == multiset(Entries(table))
    {
      es := [];
      var rest := table.Keys;
      while rest != {}
        invariant rest <= table.Keys
        invariant multiset(es) == multiset(set k | k in table && k !in rest :: Entry(k, table[k]))
        decreases rest
      {
        var k :| k in rest;
        ghost var before := set k | k in table && k !in rest :: Entry(k, table[k]);
        es, rest := es + [Entry(k, table[k])], rest - {k};
        ghost var after := set k | k in table && k !in rest :: Entry(k, table[k]);
        assert after == before + {Entry(k, table[k])};
        assert Entry(k, table[k]) !in before;
      }
      assert Entries(table) == set k | k in table && k !in rest :: Entry(k, table[k]);
    }

    method EnsureBuilt()
      requires Valid()
      modifies this, lookup
      ensures Valid() && built
      ensures old(built) ==> lookup == old(lookup) && lookup[..] == old(lookup[..])
      ensures !old(built) ==> fresh(lookup)
    {
      if built {
        return;
      }
      var es := ReadOut();
      lookup := new Entry[|es|](i requires 0 <= i < |es| => es[i]);
      assert lookup[..] == es;
      SortByLength(lookup);
      built := true;
    }

    /** The price of a model depends on the table alone, not on the order it was read out in. */
    method PriceFor(model: string) returns (p: Price)
      requires Valid()
      modifies this, lookup
      ensures Valid() && built
      ensures p == PriceOf(table, lower(model))
    {
      EnsureBuilt();
      var m := lower(model);
      ghost var es := lookup[..];
      SameEntries(es, table);
      for i := 0 to lookup.Length
        invariant lookup[..] == es && Valid() && built
        invariant forall j | 0 <= j < i :: !(es[j].prefix <= m)
      {
        if lookup[i].prefix <= m {
          FirstMatchIsPrice(table, es, m, i);
          return lookup[i].p;
        }
      }
      NoMatchIsFallback(table, es, m);
      return FALLBACK;
    }
  }

  lemma SameEntries(es: seq<Entry>, table: map<string, Price>)
    requires multiset(es) == multiset(Entries(table))
    ensures forall e :: e in es <==> e in Entries(table)
  {
    forall e ensures e in es <==> e in Entries(table) {
      assert e in es <==> e in multiset(es);
    }
  }
}
