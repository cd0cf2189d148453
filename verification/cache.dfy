/** The response cache of internal/cache/semantic.go: entries with an expiry, and a queue of keys
    from which a full cache evicts. */
module Cache {
  import opened Seqs

  datatype Entry = Entry(body: string, expiresAt: int)

  datatype State = State(items: map<string, Entry>, order: seq<string>, hits: nat, misses: nat, enabled: bool)

  datatype Limits = Limits(ttl: int, max: int)

  datatype Op = Get(key: string, now: int) | Put(key: string, body: string, at: int) | Enable(on: bool)

  const DEFAULT_TTL := 300_000_000_000
  const DEFAULT_MAX := 256

  function LimitsFor(ttl: int, max: int): (l: Limits)
    ensures l.ttl > 0 && l.max > 0
  {
    Limits(if ttl <= 0 then DEFAULT_TTL else ttl, if max <= 0 then DEFAULT_MAX else max)
  }

  const EMPTY := State(map[], [], 0, 0, true)

  predicate Live(s: State, key: string, now: int) {
    key in s.items && now <= s.items[key].expiresAt
  }

  function Lookup(s: State, key: string, now: int): Option<string> {
    if key != "" && s.enabled && Live(s, key, now) then Some(s.items[key].body) else None
  }

  function AfterGet(s: State, key: string, now: int): State {
    if key == "" then s
    else if !s.enabled then s.(misses := s.misses + 1)
    else if Live(s, key, now) then s.(hits := s.hits + 1)
    else s.(items := s.items - {key}, misses := s.misses + 1)
  }

  /** The eviction loop. */
  function Evict(s: State, max: int): State
    decreases |s.order|
  {
    if |s.items| > max && s.order != [] then Evict(s.(items := s.items - {s.order[0]}, order := s.order[1..]), max) else s
  }

  predicate Accepts(s: State, op: Op) {
    op.Put? && op.key != "" && op.body != "" && s.enabled
  }

  function Stored(s: State, op: Op, l: Limits): State
    requires op.Put?
  {
    s.(items := s.items[op.key := Entry(op.body, op.at + l.ttl)],
       order := if op.key in s.items then s.order else s.order + [op.key])
  }

  function Step(s: State, op: Op, l: Limits): State {
    match op
    case Get(key, now) => AfterGet(s, key, now)
    case Put(_, _, _) => if Accepts(s, op) then Evict(Stored(s, op, l), l.max) else s
    case Enable(on) => s.(enabled := on)
  }

  function Run(ops: seq<Op>, l: Limits): State {
    if ops == [] then EMPTY else Step(Run(Init(ops), l), Last(ops), l)
  }

  // ---- the queue covers the entries, and the entries fit ---------------------------------------

  ghost predicate Covered(s: State) {
    forall k | k in s.items :: k in s.order
  }

  /** The position of the first queued key that is cached; the key a full cache gives up. */
  function Victim(s: State): (i: nat)
    requires Covered(s) && s.items != map[]
    ensures i < |s.order| && s.order[i] in s.items
    ensures forall j | 0 <= j < i :: s.order[j] !in s.items
    decreases |s.order|
  {
    QueueNonempty(s);
    if s.order[0] in s.items then 0
    else
      CoveredTail(s);
      Victim(s.(order := s.order[1..])) + 1
  }

  lemma CoveredTail(s: State)
    requires Covered(s) && s.order != [] && s.order[0] !in s.items
    ensures Covered(s.(order := s.order[1..]))
  {
    assert forall k | k in s.order :: k == s.order[0] || k in s.order[1..];
  }

  lemma SomeKey<V>(m: map<string, V>)
    requires m != map[]
    ensures exists k :: k in m
  {
    assert (forall k :: k !in m) ==> m == map[];
  }

  /** One entry too many: the loop drops the queue up to and with the victim, and nothing else. */
  lemma {:induction false} EvictOne(s: State, max: int)
    requires Covered(s) && max > 0 && |s.items| == max + 1
    ensures s.items != map[]
    ensures Evict(s, max) == s.(items := s.items - {s.order[Victim(s)]}, order := s.order[Victim(s) + 1..])
    decreases |s.order|
  {
    hide Victim, Covered, Evict;
    assert s.items.Keys != {};
    QueueNonempty(s);
    if s.order[0] in s.items {
      VictimFirst(s);
      EvictLive(s, max);
    } else {
      EvictStale(s, max);
      VictimLater(s);
      var s1 := s.(order := s.order[1..]);
      EvictOne(s1, max);
      TailQueue(s.order, Victim(s1));
    }
  }

  lemma TailQueue(order: seq<string>, v: nat)
    requires v + 1 < |order|
    ensures order[1..][v] == order[v + 1] && order[1..][v + 1..] == order[v + 1 + 1..]
  {
  }

  lemma EvictLive(s: State, max: int)
    requires s.order != [] && s.order[0] in s.items && |s.items| == max + 1
    ensures Evict(s, max) == s.(items := s.items - {s.order[0]}, order := s.order[1..])
  {
    var s1 := s.(items := s.items - {s.order[0]}, order := s.order[1..]);
    assert s1.items.Keys == s.items.Keys - {s.order[0]};
    EvictDone(s1, max);
  }

  lemma EvictStale(s: State, max: int)
    requires s.order != [] && s.order[0] !in s.items && |s.items| > max
    ensures Evict(s, max) == Evict(s.(order := s.order[1..]), max)
  {
    assert s.items - {s.order[0]} == s.items;
  }

  lemma QueueNonempty(s: State)
    requires Covered(s) && s.items != map[]
    ensures s.order != []
  {
    SomeKey(s.items);
  }

  lemma VictimFirst(s: State)
    requires Covered(s) && s.order != [] && s.order[0] in s.items
    ensures s.items != map[] && Victim(s) == 0
  {
    assert s.items != map[];
  }

  lemma VictimLater(s: State)
    requires Covered(s) && s.items != map[] && s.order != [] && s.order[0] !in s.items
    ensures Covered(s.(order := s.order[1..]))
    ensures Victim(s) == Victim(s.(order := s.order[1..])) + 1
  {
    CoveredTail(s);
    hide Covered;
  }

  lemma EvictNext(s: State, max: int)
    requires |s.items| > max && s.order != []
    ensures Evict(s, max) == Evict(s.(items := s.items - {s.order[0]}, order := s.order[1..]), max)
  {
  }

  lemma EvictDone(s: State, max: int)
    requires !(|s.items| > max && |s.order| > 0)
    ensures Evict(s, max) == s
  {
  }

  ghost predicate Inv(s: State, l: Limits) {
    && Covered(s)
    && |s.items| <= l.max
    && Filled(s.items)
  }

  ghost predicate Filled(items: map<string, Entry>) {
    forall k | k in items :: k != "" && items[k].body != ""
  }

  /** The whole effect of an accepted Put: at most one other entry goes, the victim. */
  lemma PutEffect(s: State, op: Op, l: Limits)
    requires Accepts(s, op) && Inv(s, l) && l.max > 0
    ensures var full, s' := Stored(s, op, l), Step(s, op, l);
            && Inv(s', l)
            && Covered(full) && full.items != map[]
            && if op.key in s.items || |s.items| < l.max then s' == full
               else
                 var v := Victim(full);
                 s' == full.(items := full.items - {full.order[v]}, order := full.order[v + 1..])
  {
    hide Evict, Victim, Covered, Filled;
    var full := Stored(s, op, l);
    StoredCovered(s, op, l);
    assert Filled(full.items) by {
      StoredFilled(s, op, l);
    }
    if |full.items| <= l.max {
      EvictDone(full, l.max);
    } else {
      EvictOne(full, l.max);
      EvictedCovered(full, Victim(full), l.max);
      FilledMinus(full.items, full.order[Victim(full)]);
    }
  }

  lemma StoredFilled(s: State, op: Op, l: Limits)
    requires Accepts(s, op) && Filled(s.items)
    ensures Filled(Stored(s, op, l).items)
  {
  }

  lemma FilledMinus(items: map<string, Entry>, k: string)
    requires Filled(items)
    ensures Filled(items - {k})
  {
  }

  lemma StoredCovered(s: State, op: Op, l: Limits)
    requires op.Put? && Covered(s)
    ensures Covered(Stored(s, op, l)) && Stored(s, op, l).items != map[]
    ensures |Stored(s, op, l).items| == |s.items| + if op.key in s.items then 0 else 1
  {
    var full := Stored(s, op, l);
    assert op.key in full.items;
    assert full.items.Keys == s.items.Keys + {op.key};
    forall k | k in full.items ensures k in full.order {
      if k != op.key || op.key in s.items {
        assert k in s.order;
      }
    }
  }

  lemma EvictedCovered(full: State, v: nat, max: int)
    requires Covered(full) && v < |full.order| && full.order[v] in full.items && |full.items| == max + 1
    requires forall j | 0 <= j < v :: full.order[j] !in full.items
    ensures var s' := full.(items := full.items - {full.order[v]}, order := full.order[v + 1..]);
            Covered(s') && |s'.items| == max
  {
    var items := full.items - {full.order[v]};
    assert items.Keys == full.items.Keys - {full.order[v]};
    forall k | k in items ensures k in full.order[v + 1..] {
      var i :| 0 <= i < |full.order| && full.order[i] == k;
      assert full.order[v + 1..][i - v - 1] == k;
    }
  }

  /** Over every run: each cached key is queued, and the entries never exceed the limit. */
  lemma {:induction false} RunInv(ops: seq<Op>, l: Limits)
    requires l.max > 0
    ensures Inv(Run(ops, l), l)
  {
    if ops != [] {
      RunInv(Init(ops), l);
      var s := Run(Init(ops), l);
      if Accepts(s, Last(ops)) {
        PutEffect(s, Last(ops), l);
      } else if Last(ops).Get? {
        GetKeeps(s, Last(ops).key, Last(ops).now, l);
      }
    }
  }

  lemma GetKeeps(s: State, key: string, now: int, l: Limits)
    requires Inv(s, l)
    ensures Inv(AfterGet(s, key, now), l)
  {
    var s' := AfterGet(s, key, now);
    assert s'.items.Keys <= s.items.Keys;
    SubsetSize(s'.items.Keys, s.items.Keys);
  }

  lemma {:induction false} SubsetSize(a: set<string>, b: set<string>)
    requires a <= b
    ensures |a| <= |b|
  {
    assert b == a + (b - a);
  }

  // ---- a hit is the last accepted Put ----------------------------------------------------------

  /** The last Put of a key that the cache took, by the history alone. */
  function LastPut(ops: seq<Op>, l: Limits, key: string): (r: Option<Op>)
    ensures r.Some? ==> r.value.Put?
  {
    if ops == [] then None
    else if Accepts(Run(Init(ops), l), Last(ops)) && Last(ops).key == key then Some(Last(ops))
    else LastPut(Init(ops), l, key)
  }

  lemma {:induction false} EvictKeeps(s: State, max: int, k: string)
    requires k in Evict(s, max).items
    ensures k in s.items && Evict(s, max).items[k] == s.items[k]
    decreases |s.order|
  {
    if |s.items| > max && s.order != [] {
      EvictKeeps(s.(items := s.items - {s.order[0]}, order := s.order[1..]), max, k);
    }
  }

  lemma {:induction false} EntryIsLastPut(ops: seq<Op>, l: Limits, key: string)
    requires key in Run(ops, l).items
    ensures var p := LastPut(ops, l, key);
            p.Some? && Run(ops, l).items[key] == Entry(p.value.body, p.value.at + l.ttl)
  {
    hide Evict;
    var s := Run(Init(ops), l);
    if Accepts(s, Last(ops)) {
      EvictKeeps(Stored(s, Last(ops), l), l.max, key);
    }
    if !Accepts(s, Last(ops)) || Last(ops).key != key {
      EntryIsLastPut(Init(ops), l, key);
    }
  }

  /** A hit, in every run, returns the body of the last Put the cache took for that key, and only
      until that Put's expiry. */
  lemma HitIsLastPut(ops: seq<Op>, l: Limits, key: string, now: int)
    requires Lookup(Run(ops, l), key, now).Some?
    ensures var p := LastPut(ops, l, key);
            p.Some? && Lookup(Run(ops, l), key, now) == Some(p.value.body) && now <= p.value.at + l.ttl
  {
    EntryIsLastPut(ops, l, key);
  }

  // ---- when a Put is found again ---------------------------------------------------------------

  /** A queued copy of an expired key stands before every cached key. */
  ghost predicate StaleAhead(s: State, key: string) {
    exists j | 0 <= j < |s.order| :: s.order[j] == key && forall i | 0 <= i < j :: s.order[i] !in s.items
  }

  /** A Get right after a Put finds it, exactly unless the cache is full, the key is new and a
      stale copy of it is first in line for eviction. */
  lemma PutThenGetIff(ops: seq<Op>, l: Limits, op: Op, now: int)
    requires l.max > 0 && Accepts(Run(ops, l), op) && now <= op.at + l.ttl
    ensures var s := Run(ops, l);
            Lookup(Run(ops + [op], l), op.key, now) == Some(op.body) <==>
            op.key in s.items || |s.items| < l.max || !StaleAhead(s, op.key)
  {
    hide Run, Evict, Victim, StaleAhead, Covered;
    RunInv(ops, l);
    var s := Run(ops, l);
    assert Run(ops + [op], l) == Step(s, op, l) by {
      RunSnoc(ops, op, l);
    }
    PutEffect(s, op, l);
    if op.key !in s.items && |s.items| >= l.max {
      SelfEvicted(s, op, l);
    }
  }

  lemma RunSnoc(ops: seq<Op>, op: Op, l: Limits)
    ensures Run(ops + [op], l) == Step(Run(ops, l), op, l)
  {
    assert Init(ops + [op]) == ops;
  }

  lemma SelfEvicted(s: State, op: Op, l: Limits)
    requires Accepts(s, op) && op.key !in s.items && s.items != map[]
    requires Covered(s) && Covered(Stored(s, op, l))
    ensures Stored(s, op, l).items != map[]
    ensures var full := Stored(s, op, l); full.order[Victim(full)] == op.key <==> StaleAhead(s, op.key)
  {
    hide Victim, Covered;
    var full := Stored(s, op, l);
    assert op.key in full.items;
    SelfFirst(s, full, op.key, Victim(full), Victim(s));
  }

  /** The queue of full is that of s with k behind it, v its first live position and w that of s. */
  lemma SelfFirst(s: State, full: State, k: string, v: nat, w: nat)
    requires full.order == s.order + [k] && k !in s.items
    requires forall x :: x in full.items <==> x in s.items || x == k
    requires v < |full.order| && full.order[v] in full.items && forall j | 0 <= j < v :: full.order[j] !in full.items
    requires w < |s.order| && s.order[w] in s.items && forall j | 0 <= j < w :: s.order[j] !in s.items
    ensures full.order[v] == k <==> StaleAhead(s, k)
  {
    assert forall j | 0 <= j < |s.order| :: full.order[j] == s.order[j];
    assert v <= w;
    if StaleAhead(s, k) {
      var j :| 0 <= j < |s.order| && s.order[j] == k && forall i | 0 <= i < j :: s.order[i] !in s.items;
      assert v <= j;
    }
  }

  /** With room for one: a is stored, expires, is dropped by a Get but stays queued, and after b
      the next Put of a evicts a itself. */
  lemma PutThenMiss(ttl: int)
    requires ttl > 0
    ensures var ops := [Put("a", "1", 0), Get("a", ttl + 1), Put("b", "2", ttl + 1), Put("a", "3", ttl + 1)];
            Lookup(Run(ops, Limits(ttl, 1)), "a", ttl + 1) == None
  {
    hide Step, StaleAhead, Lookup;
    var l := Limits(ttl, 1);
    var o1, o2, o3, o4 := Put("a", "1", 0), Get("a", ttl + 1), Put("b", "2", ttl + 1), Put("a", "3", ttl + 1);
    var s2 := Step(Step(EMPTY, o1, l), o2, l);
    assert Run([], l) == EMPTY;
    RunSnoc([], o1, l);
    RunSnoc([o1], o2, l);
    RunSnoc([o1, o2], o3, l);
    assert [] + [o1] == [o1] && [o1] + [o2] == [o1, o2] && [o1, o2] + [o3] == [o1, o2, o3];
    assert [o1, o2, o3] + [o4] == [o1, o2, o3, o4];
    Round(EMPTY, l, 0);
    OneMore(s2, l, o3);
    PutThenGetIff([o1, o2, o3], l, o4, ttl + 1);
    MissOrBody([o1, o2, o3, o4], l, "a", ttl + 1);
  }

  /** The cache after the expired a and the Put of b: full, a new and first in line. */
  lemma OneMore(s: State, l: Limits, op: Op)
    requires l.max == 1 && s.items == map[] && s.order == ["a"] && s.enabled && op.Put? && op.key == "b" && op.body != ""
    ensures var t := Step(s, op, l);
            t.enabled && "a" !in t.items && |t.items| == 1 && StaleAhead(t, "a")
  {
    var full := Stored(s, op, l);
    assert full.items == map["b" := Entry(op.body, op.at + l.ttl)];
    EvictDone(full, 1);
    assert full.order[0] == "a";
  }

  lemma MissOrBody(ops: seq<Op>, l: Limits, key: string, now: int)
    requires ops != [] && Accepts(Run(Init(ops), l), Last(ops)) && Last(ops).key == key
    ensures Lookup(Run(ops, l), key, now) in [None, Some(Last(ops).body)]
  {
    if Lookup(Run(ops, l), key, now).Some? {
      HitIsLastPut(ops, l, key, now);
    }
  }

  // ---- without expired Gets the queue is a queue ------------------------------------------------

  /** Each cached key is queued exactly once, and nothing else is. */
  ghost predicate Tidy(s: State) {
    && (forall k :: k in s.items <==> k in s.order)
    && (forall i, j | 0 <= i < j < |s.order| :: s.order[i] != s.order[j])
  }

  /** No Get of the run met an expired entry. */
  ghost predicate NoneExpired(ops: seq<Op>, l: Limits) {
    ops != [] ==>
      var s := Run(Init(ops), l);
      && NoneExpired(Init(ops), l)
      && (Last(ops).Get? && Last(ops).key in s.items ==> !s.enabled || Live(s, Last(ops).key, Last(ops).now))
  }

  lemma TidyPut(s: State, op: Op, l: Limits)
    requires Tidy(s) && Accepts(s, op) && Inv(s, l) && l.max > 0
    ensures Tidy(Step(s, op, l))
    ensures Step(s, op, l).order ==
            if op.key in s.items then s.order else if |s.items| < l.max then s.order + [op.key] else s.order[1..] + [op.key]
  {
    hide Evict, Victim, Tidy, Covered, Filled;
    PutEffect(s, op, l);
    TidyStored(s, op, l);
    if op.key !in s.items && |s.items| >= l.max {
      TidyEvict(Stored(s, op, l), Victim(Stored(s, op, l)));
      QueueNonempty(s);
      assert (s.order + [op.key])[1..] == s.order[1..] + [op.key];
    }
  }

  lemma TidyStored(s: State, op: Op, l: Limits)
    requires Tidy(s) && op.Put?
    ensures Tidy(Stored(s, op, l))
  {
  }

  lemma TidyEvict(full: State, v: nat)
    requires Tidy(full) && v < |full.order| && full.order[v] in full.items
    requires forall j | 0 <= j < v :: full.order[j] !in full.items
    ensures v == 0 && Tidy(full.(items := full.items - {full.order[0]}, order := full.order[1..]))
  {
    assert full.order[0] in full.order;
    assert full.order == [full.order[0]] + full.order[1..];
  }

  /** Until a Get drops an expired entry, eviction is first in, first out, and every Put is found. */
  lemma {:induction false} TidyRun(ops: seq<Op>, l: Limits)
    requires NoneExpired(ops, l) && l.max > 0
    ensures Tidy(Run(ops, l))
  {
    if ops != [] {
      TidyRun(Init(ops), l);
      RunInv(Init(ops), l);
      var s := Run(Init(ops), l);
      if Accepts(s, Last(ops)) {
        TidyPut(s, Last(ops), l);
      } else if Last(ops).Get? {
        assert Last(ops).key !in s.items ==> s.items - {Last(ops).key} == s.items;
      }
    }
  }

  lemma TidyPutThenGet(ops: seq<Op>, l: Limits, op: Op, now: int)
    requires NoneExpired(ops, l) && l.max > 0 && Accepts(Run(ops, l), op) && now <= op.at + l.ttl
    ensures Lookup(Run(ops + [op], l), op.key, now) == Some(op.body)
  {
    hide Run, NoneExpired, Evict;
    TidyRun(ops, l);
    PutThenGetIff(ops, l, op, now);
  }

  // ---- the queue itself is not bounded ----------------------------------------------------------

  /** Once per lifetime and a moment. */
  function Tick(n: nat, l: Limits): int {
    if n == 0 then 0 else Tick(n - 1, l) + l.ttl + 1
  }

  /** Store a key, let it expire, ask for it, store it again at once: n times. */
  function Churn(n: nat, l: Limits): seq<Op> {
    if n == 0 then []
    else Churn(n - 1, l) + [Put("a", "1", Tick(n - 1, l))] + [Get("a", Tick(n, l))]
  }

  function TimeOf(op: Op): int {
    match op
    case Get(_, now) => now
    case Put(_, _, at) => at
    case Enable(_) => 0
  }

  /** The clock of a run of Gets and Puts never goes back. */
  ghost predicate Monotone(ops: seq<Op>) {
    forall i, j | 0 <= i <= j < |ops| :: TimeOf(ops[i]) <= TimeOf(ops[j])
  }

  lemma {:induction false} ChurnMonotone(n: nat, l: Limits)
    requires l.ttl >= 0
    ensures Monotone(Churn(n, l)) && forall i | 0 <= i < |Churn(n, l)| :: TimeOf(Churn(n, l)[i]) <= Tick(n, l)
  {
    if n > 0 {
      ChurnMonotone(n - 1, l);
    }
  }

  /** One round leaves the key queued once more and the cache empty. */
  lemma Round(s: State, l: Limits, at: int)
    requires l.max > 0 && s.items == map[] && s.enabled
    ensures var t := Step(Step(s, Put("a", "1", at), l), Get("a", at + l.ttl + 1), l);
            t.items == map[] && t.order == s.order + ["a"] && t.enabled
  {
    var full := Stored(s, Put("a", "1", at), l);
    assert full.items == map["a" := Entry("1", at + l.ttl)];
    EvictDone(full, l.max);
    assert full.items - {"a"} == map[];
  }

  /** The entries are bounded, the queue is not: on a clock that never goes back any length is reached,
      with an empty cache. */
  lemma {:induction false} QueueUnbounded(n: nat, l: Limits)
    requires l.max > 0 && l.ttl >= 0
    ensures Monotone(Churn(n, l))
    ensures |Run(Churn(n, l), l).order| == n && Run(Churn(n, l), l).items == map[] && Run(Churn(n, l), l).enabled
  {
    hide Step, Monotone;
    ChurnMonotone(n, l);
    if n > 0 {
      var ops, put, get := Churn(n - 1, l), Put("a", "1", Tick(n - 1, l)), Get("a", Tick(n, l));
      QueueUnbounded(n - 1, l);
      RunSnoc(ops, put, l);
      RunSnoc(ops + [put], get, l);
      Round(Run(ops, l), l, Tick(n - 1, l));
    }
  }

  // ---- the counters ------------------------------------------------------------------------------

  /** Lookups with a key, and those of them that were answered. */
  function Asked(ops: seq<Op>): nat {
    if ops == [] then 0 else Asked(Init(ops)) + if Last(ops).Get? && Last(ops).key != "" then 1 else 0
  }

  function Answered(ops: seq<Op>, l: Limits): nat {
    if ops == [] then 0
    else Answered(Init(ops), l) + if Last(ops).Get? && Lookup(Run(Init(ops), l), Last(ops).key, Last(ops).now).Some? then 1 else 0
  }

  /** Over every run the hits are the answered lookups, and hits and misses together all of them. */
  lemma {:induction false} Counted(ops: seq<Op>, l: Limits)
    ensures Run(ops, l).hits == Answered(ops, l) && Run(ops, l).hits + Run(ops, l).misses == Asked(ops)
  {
    hide Step;
    if ops != [] {
      Counted(Init(ops), l);
      StepCounts(Run(Init(ops), l), Last(ops), l);
    }
  }

  lemma StepCounts(s: State, op: Op, l: Limits)
    ensures var t := Step(s, op, l);
            && t.hits == s.hits + (if op.Get? && Lookup(s, op.key, op.now).Some? then 1 else 0)
            && t.hits + t.misses == s.hits + s.misses + if op.Get? && op.key != "" then 1 else 0
  {
    if op.Put? && Accepts(s, op) {
      EvictCounts(Stored(s, op, l), l.max);
    }
  }

  lemma {:induction false} EvictCounts(s: State, max: int)
    ensures Evict(s, max).hits == s.hits && Evict(s, max).misses == s.misses
    decreases |s.order|
  {
    if |s.items| > max && s.order != [] {
      EvictCounts(s.(items := s.items - {s.order[0]}, order := s.order[1..]), max);
    }
  }

  // ---- the store ---------------------------------------------------------------------------------

  class Store {
    var items: map<string, Entry>
    var order: seq<string>
    var hits: nat
    var misses: nat
    var enabled: bool
    const ttl: int
    const max: int

    constructor (ttl: int, max: int)
      ensures Now() == EMPTY && Bounds() == LimitsFor(ttl, max)
      ensures this.ttl == (if ttl <= 0 then 300_000_000_000 else ttl) && this.max == if max <= 0 then 256 else max
    {
      this.ttl := if ttl <= 0 then DEFAULT_TTL else ttl;
      this.max := if max <= 0 then DEFAULT_MAX else max;
      items, order, hits, misses, enabled := map[], [], 0, 0, true;
    }

    function Now(): State
      reads this
    {
      State(items, order, hits, misses, enabled)
    }

    function Bounds(): Limits {
      Limits(ttl, max)
    }

    method SetEnabled(on: bool)
      modifies this`enabled
      ensures Now() == Step(old(Now()), Enable(on), Bounds())
    {
      enabled := on;
    }

    method Get(key: string, now: int) returns (body: Option<string>)
      modifies this
      ensures body == Lookup(old(Now()), key, now)
      ensures Now() == Step(old(Now()), Op.Get(key, now), Bounds())
    {
      if key == "" {
        return None;
      }
      if !enabled {
        misses := misses + 1;
        return None;
      }
      if key !in items || now > items[key].expiresAt {
        if key in items {
          items := items - {key};
        }
        misses := misses + 1;
        assert key !in old(items) ==> old(items) - {key} == items;
        return None;
      }
      hits := hits + 1;
      return Some(items[key].body);
    }

    method Put(key: string, body: string, now: int)
      modifies this
      ensures Now() == Step(old(Now()), Op.Put(key, body, now), Bounds())
    {
      if key == "" || body == "" {
        return;
      }
      if !enabled {
        return;
      }
      if key !in items {
        order := order + [key];
      }
      items := items[key := Entry(body, now + ttl)];
      ghost var full := Stored(old(Now()), Op.Put(key, body, now), Bounds());
      assert Now() == full;
      hide Evict, Stored;
      while |items| > max && |order| > 0
        invariant Evict(Now(), max) == Evict(full, max)
        decreases |order|
      {
        EvictNext(Now(), max);
        var oldest := order[0];
        order := order[1..];
        items := items - {oldest};
      }
      EvictDone(Now(), max);
    }
  }
}
