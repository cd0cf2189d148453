/** loginLimiter: two sliding logs per client, trimmed on every access and by a periodic cleanup,
    refine the reference that keeps every admitted attempt for ever. Times are nanoseconds. */
module LoginLimiting {
  import opened Seqs

  const MINUTE := 60_000_000_000
  const HOUR := 60 * MINUTE
  const PER_MINUTE := 5
  const PER_HOUR := 20

  datatype Entry = Entry(minute: seq<int>, hour: seq<int>)

  /** The times strictly after the cutoff. */
  function After(times: seq<int>, cutoff: int): seq<int> {
    if times == [] then []
    else After(Init(times), cutoff) + (if Last(times) > cutoff then [Last(times)] else [])
  }

  function Trimmed(e: Entry, now: int): Entry {
    Entry(After(e.minute, now - MINUTE), After(e.hour, now - HOUR))
  }

  predicate Room(e: Entry) {
    |e.minute| < PER_MINUTE && |e.hour| < PER_HOUR
  }

  function Recorded(e: Entry, now: int): Entry {
    Entry(e.minute + [now], e.hour + [now])
  }

  function Lookup(entries: map<string, Entry>, ip: string): Entry {
    if ip in entries then entries[ip] else Entry([], [])
  }

  function Attempted(entries: map<string, Entry>, ip: string, now: int): (bool, map<string, Entry>) {
    var e := Trimmed(Lookup(entries, ip), now);
    (Room(e), entries[ip := if Room(e) then Recorded(e, now) else e])
  }

  function Swept(entries: map<string, Entry>, now: int): map<string, Entry> {
    map ip | ip in entries && Trimmed(entries[ip], now).hour != [] :: Trimmed(entries[ip], now)
  }

  /** Halfway through a sweep: the clients in `rest` are untouched, the others swept. */
  ghost predicate Sweeping(before: map<string, Entry>, entries: map<string, Entry>, rest: set<string>, now: int) {
    && rest <= before.Keys
    && (forall ip | ip in entries :: ip in before)
    && (forall ip | ip in rest :: ip in entries && entries[ip] == before[ip])
    && (forall ip | ip in before && ip !in rest ::
          && (ip in entries <==> Trimmed(before[ip], now).hour != [])
          && (ip in entries ==> entries[ip] == Trimmed(before[ip], now)))
  }

  lemma SweepStarts(before: map<string, Entry>, now: int)
    ensures Sweeping(before, before, before.Keys, now)
  {
  }

  lemma SweepStep(before: map<string, Entry>, entries: map<string, Entry>, rest: set<string>, now: int, ip: string)
    requires Sweeping(before, entries, rest, now) && ip in rest
    ensures ip in entries
    ensures var e := Trimmed(entries[ip], now);
            var put := entries[ip := e];
            Sweeping(before, if |e.hour| == 0 then put - {ip} else put, rest - {ip}, now)
  {
    hide After;
  }

  lemma SweepEnds(before: map<string, Entry>, entries: map<string, Entry>, now: int)
    requires Sweeping(before, entries, {}, now)
    ensures entries == Swept(before, now)
  {
    hide After;
  }

  class LoginLimiter {
    var entries: map<string, Entry>

    constructor ()
      ensures entries == map[]
    {
      entries := map[];
    }

    static method TrimBefore(times: seq<int>, cutoff: int) returns (out: seq<int>)
      ensures out == After(times, cutoff)
    {
      out := [];
      var i := 0;
      while i < |times|
        invariant 0 <= i <= |times|
        invariant out == After(times[..i], cutoff)
      {
        if times[i] > cutoff {
          out := out + [times[i]];
        }
        i := i + 1;
        assert Init(times[..i]) == times[..i - 1];
      }
      assert times[..i] == times;
    }

    /** One login attempt, from the lookup to the record. */
    method Attempt(ip: string, now: int) returns (ok: bool)
      modifies this
      ensures ok == Attempted(old(entries), ip, now).0
      ensures entries == Attempted(old(entries), ip, now).1
    {
      ghost var before := entries;
      var e := Entry([], []);
      if ip in entries {
        e := entries[ip];
      }
      var minute := TrimBefore(e.minute, now - MINUTE);
      var hour := TrimBefore(e.hour, now - HOUR);
      e := Entry(minute, hour);
      entries := entries[ip := e];
      if |e.minute| >= PER_MINUTE {
        return false;
      }
      if |e.hour| >= PER_HOUR {
        return false;
      }
      entries := entries[ip := Entry(e.minute + [now], e.hour + [now])];
      assert entries == before[ip := Recorded(e, now)];
      return true;
    }

    method Cleanup(now: int)
      modifies this
      ensures entries == Swept(old(entries), now)
    {
      hide After, Sweeping;
      var rest := entries.Keys;
      SweepStarts(entries, now);
      while rest != {}
        invariant Sweeping(old(entries), entries, rest, now)
        decreases |rest|
      {
        var ip :| ip in rest;
        SweepStep(old(entries), entries, rest, now, ip);
        var minute := TrimBefore(entries[ip].minute, now - MINUTE);
        var hour := TrimBefore(entries[ip].hour, now - HOUR);
        entries := entries[ip := Entry(minute, hour)];
        if |hour| == 0 {
          entries := entries - {ip};
        }
        rest := rest - {ip};
      }
      SweepEnds(old(entries), entries, now);
    }
  }

  // ---- runs and the reference --------------------------------------------------------------

  datatype Event = Try(ip: string, at: int) | Sweep(at: int)

  ghost predicate Monotone(run: seq<Event>) {
    forall i, j | 0 <= i <= j < |run| :: run[i].at <= run[j].at
  }

  datatype Outcome = Outcome(entries: map<string, Entry>, decisions: seq<bool>)

  function Play(run: seq<Event>): Outcome {
    if run == [] then Outcome(map[], [])
    else
      var o := Play(Init(run));
      match Last(run)
      case Sweep(at) => Outcome(Swept(o.entries, at), o.decisions)
      case Try(ip, at) =>
        var (ok, entries) := Attempted(o.entries, ip, at);
        Outcome(entries, o.decisions + [ok])
  }

  /** The reference rule on the full log of admitted attempts. */
  predicate Allowed(log: seq<int>, now: int) {
    |After(log, now - 60_000_000_000)| < 5 && |After(log, now - 3_600_000_000_000)| < 20
  }

  datatype Reference = Reference(logs: map<string, seq<int>>, decisions: seq<bool>)

  function LogOf(logs: map<string, seq<int>>, ip: string): seq<int> {
    if ip in logs then logs[ip] else []
  }

  /** The reference ignores sweeps and forgets nothing. */
  function Refer(run: seq<Event>): Reference {
    if run == [] then Reference(map[], [])
    else
      var r := Refer(Init(run));
      match Last(run)
      case Sweep(_) => r
      case Try(ip, at) =>
        var log := LogOf(r.logs, ip);
        Reference(if Allowed(log, at) then r.logs[ip := log + [at]] else r.logs, r.decisions + [Allowed(log, at)])
  }

  // ---- filters -----------------------------------------------------------------------------

  lemma {:induction false} AfterTwice(times: seq<int>, c: int, d: int)
    ensures After(After(times, c), d) == After(times, if c < d then d else c)
  {
    if times != [] {
      AfterTwice(Init(times), c, d);
      if Last(times) > c {
        AfterSnoc(After(Init(times), c), Last(times), d);
      } else {
        assert After(times, c) == After(Init(times), c);
      }
    }
  }

  lemma AfterSnoc(times: seq<int>, t: int, c: int)
    ensures After(times + [t], c) == After(times, c) + (if t > c then [t] else [])
  {
    assert Init(times + [t]) == times;
  }

  /** What the entry of a client still says about its full log at time `now`. */
  ghost predicate Agrees(e: Entry, log: seq<int>, now: int) {
    && After(e.minute, now - MINUTE) == After(log, now - MINUTE)
    && After(e.hour, now - HOUR) == After(log, now - HOUR)
  }

  /** The minute log is the hour log from some cutoff on. */
  ghost predicate Nested(e: Entry, now: int) {
    exists c | c < now :: e.minute == After(e.hour, c)
  }

  lemma AgreesLater(e: Entry, log: seq<int>, now: int, later: int)
    requires Agrees(e, log, now) && now <= later
    ensures Agrees(e, log, later)
  {
    AfterTwice(e.minute, now - MINUTE, later - MINUTE);
    AfterTwice(log, now - MINUTE, later - MINUTE);
    AfterTwice(e.hour, now - HOUR, later - HOUR);
    AfterTwice(log, now - HOUR, later - HOUR);
  }

  lemma TrimAgrees(e: Entry, log: seq<int>, now: int)
    requires Agrees(e, log, now)
    ensures Agrees(Trimmed(e, now), log, now)
  {
    AfterTwice(e.minute, now - MINUTE, now - MINUTE);
    AfterTwice(e.hour, now - HOUR, now - HOUR);
  }

  lemma RecordAgrees(e: Entry, log: seq<int>, now: int)
    requires Agrees(e, log, now)
    ensures Agrees(Recorded(e, now), log + [now], now)
  {
    AfterSnoc(e.minute, now, now - MINUTE);
    AfterSnoc(log, now, now - MINUTE);
    AfterSnoc(e.hour, now, now - HOUR);
    AfterSnoc(log, now, now - HOUR);
  }

  lemma TrimNested(e: Entry, now: int)
    requires Nested(e, now)
    ensures exists c | c < now :: Trimmed(e, now).minute == After(Trimmed(e, now).hour, c)
  {
    var c :| c < now && e.minute == After(e.hour, c);
    var d := if c < now - MINUTE then now - MINUTE else c;
    AfterTwice(e.hour, c, now - MINUTE);
    AfterTwice(e.hour, now - HOUR, d);
    assert Trimmed(e, now).minute == After(Trimmed(e, now).hour, d);
  }

  lemma RecordNested(e: Entry, now: int)
    requires Nested(e, now)
    ensures Nested(Recorded(e, now), now)
  {
    var c :| c < now && e.minute == After(e.hour, c);
    AfterSnoc(e.hour, now, c);
    assert Recorded(e, now).minute == After(Recorded(e, now).hour, c);
  }

  // ---- refinement --------------------------------------------------------------------------

  ghost predicate Refines(entries: map<string, Entry>, logs: map<string, seq<int>>, now: int) {
    forall ip :: Agrees(Lookup(entries, ip), LogOf(logs, ip), now) && Nested(Lookup(entries, ip), now)
  }

  lemma RefinesLater(entries: map<string, Entry>, logs: map<string, seq<int>>, now: int, later: int)
    requires Refines(entries, logs, now) && now <= later
    ensures Refines(entries, logs, later)
  {
    forall ip ensures Agrees(Lookup(entries, ip), LogOf(logs, ip), later) && Nested(Lookup(entries, ip), later) {
      AgreesLater(Lookup(entries, ip), LogOf(logs, ip), now, later);
      var c :| c < now && Lookup(entries, ip).minute == After(Lookup(entries, ip).hour, c);
      assert c < later;
    }
  }

  lemma OneAttempt(e: Entry, log: seq<int>, now: int)
    requires Agrees(e, log, now) && Nested(e, now)
    ensures Room(Trimmed(e, now)) == Allowed(log, now)
    ensures Agrees(Trimmed(e, now), log, now) && Nested(Trimmed(e, now), now)
    ensures Agrees(Recorded(Trimmed(e, now), now), log + [now], now) && Nested(Recorded(Trimmed(e, now), now), now)
  {
    TrimAgrees(e, log, now);
    TrimNested(e, now);
    RecordAgrees(Trimmed(e, now), log, now);
    RecordNested(Trimmed(e, now), now);
  }

  lemma PutRefines(entries: map<string, Entry>, logs: map<string, seq<int>>, ip: string, now: int,
                   e: Entry, logs': map<string, seq<int>>)
    requires Refines(entries, logs, now)
    requires Agrees(e, LogOf(logs', ip), now) && Nested(e, now)
    requires forall other | other != ip :: LogOf(logs', other) == LogOf(logs, other)
    ensures Refines(entries[ip := e], logs', now)
  {
    forall other
      ensures Agrees(Lookup(entries[ip := e], other), LogOf(logs', other), now)
      ensures Nested(Lookup(entries[ip := e], other), now)
    {
      if other != ip {
        assert Lookup(entries[ip := e], other) == Lookup(entries, other);
      }
    }
  }

  lemma AttemptRefines(entries: map<string, Entry>, logs: map<string, seq<int>>, ip: string, now: int,
                       logs': map<string, seq<int>>)
    requires Refines(entries, logs, now)
    requires logs' == if Allowed(LogOf(logs, ip), now) then logs[ip := LogOf(logs, ip) + [now]] else logs
    ensures Attempted(entries, ip, now).0 == Allowed(LogOf(logs, ip), now)
    ensures Refines(Attempted(entries, ip, now).1, logs', now)
  {
    var e, log := Lookup(entries, ip), LogOf(logs, ip);
    assert Agrees(e, log, now) && Nested(e, now);
    OneAttempt(e, log, now);
    var kept := Trimmed(e, now);
    if Allowed(log, now) {
      assert LogOf(logs', ip) == log + [now];
      PutRefines(entries, logs, ip, now, Recorded(kept, now), logs');
    } else {
      PutRefines(entries, logs, ip, now, kept, logs');
    }
  }

  lemma SweepRefines(entries: map<string, Entry>, logs: map<string, seq<int>>, now: int)
    requires Refines(entries, logs, now)
    ensures Refines(Swept(entries, now), logs, now)
  {
    forall ip
      ensures Agrees(Lookup(Swept(entries, now), ip), LogOf(logs, ip), now)
      ensures Nested(Lookup(Swept(entries, now), ip), now)
    {
      var e := Lookup(entries, ip);
      TrimAgrees(e, LogOf(logs, ip), now);
      TrimNested(e, now);
      if ip in entries && Trimmed(e, now).hour == [] {
        var c :| c < now && Trimmed(e, now).minute == After(Trimmed(e, now).hour, c);
        assert Trimmed(e, now) == Entry([], []);
      }
    }
  }

  /** Every run, sweeps anywhere: the decisions are the reference's, and each minute log is the
      tail of its hour log. */
  lemma {:induction false} LimiterRefines(run: seq<Event>, now: int)
    requires Monotone(run) && (run != [] ==> Last(run).at <= now)
    ensures Play(run).decisions == Refer(run).decisions
    ensures Refines(Play(run).entries, Refer(run).logs, now)
  {
    if run == [] {
      assert now - 1 < now && Entry([], []).minute == After(Entry([], []).hour, now - 1);
    } else {
      var pre, e := Init(run), Last(run);
      assert pre != [] ==> Last(pre) == run[|run| - 2];
      LimiterRefines(pre, e.at);
      match e {
        case Sweep(at) => SweepRefines(Play(pre).entries, Refer(pre).logs, at);
        case Try(ip, at) => AttemptRefines(Play(pre).entries, Refer(pre).logs, ip, at, Refer(run).logs);
      }
      RefinesLater(Play(run).entries, Refer(run).logs, e.at, now);
    }
  }

  function TriesOnly(run: seq<Event>): seq<Event> {
    if run == [] then []
    else TriesOnly(Init(run)) + (if Last(run).Try? then [Last(run)] else [])
  }

  lemma {:induction false} ReferIgnoresSweeps(run: seq<Event>)
    ensures Refer(TriesOnly(run)) == Refer(run)
  {
    if run != [] {
      var tries := TriesOnly(Init(run));
      ReferIgnoresSweeps(Init(run));
      if Last(run).Try? {
        assert Init(TriesOnly(run)) == tries;
      } else {
        assert TriesOnly(run) == tries;
      }
    }
  }

  lemma {:induction false} TriesMonotone(run: seq<Event>)
    requires Monotone(run)
    ensures Monotone(TriesOnly(run))
    ensures forall i | 0 <= i < |TriesOnly(run)| :: run != [] && TriesOnly(run)[i].at <= Last(run).at
  {
    if run != [] {
      var pre := Init(run);
      TriesMonotone(pre);
      assert pre != [] ==> Last(pre) == run[|run| - 2];
    }
  }

  /** Cleanup never changes a decision. */
  lemma CleanupUnnoticed(run: seq<Event>)
    requires Monotone(run)
    ensures Play(run).decisions == Play(TriesOnly(run)).decisions
  {
    ReferIgnoresSweeps(run);
    TriesMonotone(run);
    LimiterRefines(run, if run == [] then 0 else Last(run).at);
    var tries := TriesOnly(run);
    LimiterRefines(tries, if tries == [] then 0 else Last(tries).at);
  }

  // ---- the window bounds -------------------------------------------------------------------

  /** Admitted attempts in the window (lo, hi]. */
  function Within(log: seq<int>, lo: int, hi: int): seq<int> {
    if log == [] then []
    else Within(Init(log), lo, hi) + (if lo < Last(log) <= hi then [Last(log)] else [])
  }

  lemma {:induction false} WithinAfter(log: seq<int>, lo: int, hi: int, c: int)
    requires c <= lo
    ensures |Within(log, lo, hi)| <= |After(log, c)|
  {
    if log != [] {
      WithinAfter(Init(log), lo, hi, c);
    }
  }

  lemma WithinSnoc(log: seq<int>, at: int, lo: int, span: int, cap: int)
    requires |Within(log, lo, lo + span)| <= cap && |After(log, at - span)| < cap
    ensures |Within(log + [at], lo, lo + span)| <= cap
  {
    assert Init(log + [at]) == log;
    if at <= lo + span {
      WithinAfter(log, lo, lo + span, at - span);
    }
  }

  /** In every run, any minute holds at most 5 admitted attempts of a client, any hour at most 20. */
  lemma {:induction false} WindowBounds(run: seq<Event>, ip: string, lo: int)
    ensures |Within(LogOf(Refer(run).logs, ip), lo, lo + 60_000_000_000)| <= 5
    ensures |Within(LogOf(Refer(run).logs, ip), lo, lo + 3_600_000_000_000)| <= 20
  {
    if run != [] {
      WindowBounds(Init(run), ip, lo);
      var log := LogOf(Refer(Init(run)).logs, ip);
      match Last(run)
      case Sweep(_) =>
      case Try(other, at) =>
        if other == ip && Allowed(log, at) {
          WithinSnoc(log, at, lo, MINUTE, PER_MINUTE);
          WithinSnoc(log, at, lo, HOUR, PER_HOUR);
        }
    }
  }

  /** The windows are half-open: five attempts exactly one minute old no longer count. */
  lemma MinuteOldIsOut(t: int)
    ensures Allowed([t, t, t, t, t], t + 60_000_000_000) && !Allowed([t, t, t, t, t], t + 59_999_999_999)
  {
    var five := [t, t, t, t, t];
    AfterEqual(five, t, t);
    AfterEqual(five, t, t - 1);
    AfterEqual(five, t, t + MINUTE - HOUR);
    AfterEqual(five, t, t + MINUTE - 1 - HOUR);
  }

  lemma {:induction false} AfterEqual(times: seq<int>, t: int, c: int)
    requires forall i | 0 <= i < |times| :: times[i] == t
    ensures |After(times, c)| == if t > c then |times| else 0
  {
    if times != [] {
      AfterEqual(Init(times), t, c);
    }
  }
}
