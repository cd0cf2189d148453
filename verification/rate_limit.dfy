/** The token-bucket limiter: how much it can admit, and exactly when its cleanup goes unnoticed.
    Times are seconds as reals; the clock is an argument. */
module RateLimit {
  import opened Seqs

  datatype Bucket = Bucket(tokens: real, lastTime: real)

  function Min(a: real, b: real): real {
    if a < b then a else b
  }

  /** burst <= 0 stands for rpm. */
  function EffectiveBurst(rpm: int, burst: int): int {
    if burst <= 0 then rpm else burst
  }

  /** Tokens gained in `elapsed` seconds. */
  function Refill(elapsed: real, rpm: int, window: real): real
    requires window > 0.0
  {
    elapsed * rpm as real / window
  }

  function Refilled(b: Bucket, rpm: int, burst: int, window: real, now: real): real
    requires window > 0.0
  {
    Min(burst as real, b.tokens + Refill(now - b.lastTime, rpm, window))
  }

  /** One decision on the bucket of one client; rpm and burst are positive here. */
  function Decide(ob: Option<Bucket>, rpm: int, burst: int, window: real, now: real): (bool, Bucket)
    requires window > 0.0
  {
    match ob
    case None => (true, Bucket(burst as real - 1.0, now))
    case Some(b) =>
      var tokens := Refilled(b, rpm, burst, window, now);
      if tokens >= 1.0 then (true, Bucket(tokens - 1.0, now)) else (false, Bucket(tokens, now))
  }

  function Lookup(clients: map<string, Bucket>, id: string): Option<Bucket> {
    if id in clients then Some(clients[id]) else None
  }

  /** cleanup drops the buckets idle for more than ten minutes. */
  const IDLE := 600.0

  predicate Stale(b: Bucket, now: real) {
    b.lastTime < now - IDLE
  }

  function Swept(clients: map<string, Bucket>, now: real): map<string, Bucket> {
    map id | id in clients && !Stale(clients[id], now) :: clients[id]
  }

  class Limiter {
    const limit: int
    const burst: int
    const window: real
    var clients: map<string, Bucket>

    constructor (limit: int, burst: int, window: real)
      ensures this.limit == limit && this.burst == burst && this.window == window && clients == map[]
    {
      this.limit, this.burst, this.window, this.clients := limit, burst, window, map[];
    }

    method Allow(clientID: string, now: real) returns (ok: bool)
      requires window > 0.0
      modifies this
      ensures limit <= 0 ==> ok && clients == old(clients)
      ensures limit > 0 ==>
                var d := Decide(Lookup(old(clients), clientID), limit, EffectiveBurst(limit, burst), window, now);
                ok == d.0 && clients == old(clients)[clientID := d.1]
    {
      ok := AllowWithLimit(clientID, limit, burst, now);
    }

    method AllowWithLimit(clientID: string, rpm: int, burst: int, now: real) returns (ok: bool)
      requires window > 0.0
      modifies this
      ensures rpm <= 0 ==> ok && clients == old(clients)
      ensures rpm > 0 ==>
                var d := Decide(Lookup(old(clients), clientID), rpm, EffectiveBurst(rpm, burst), window, now);
                ok == d.0 && clients == old(clients)[clientID := d.1]
    {
      if rpm <= 0 {
        return true;
      }
      var cap := burst;
      if cap <= 0 {
        cap := rpm;
      }
      if clientID !in clients {
        clients := clients[clientID := Bucket(cap as real - 1.0, now)];
        return true;
      }
      var bucket := clients[clientID];
      var elapsed := now - bucket.lastTime;
      var refill := Refill(elapsed, rpm, window);
      bucket := bucket.(tokens := bucket.tokens + refill);
      if bucket.tokens > cap as real {
        bucket := bucket.(tokens := cap as real);
      }
      bucket := bucket.(lastTime := now);
      if bucket.tokens >= 1.0 {
        bucket := bucket.(tokens := bucket.tokens - 1.0);
        clients := clients[clientID := bucket];
        return true;
      }
      clients := clients[clientID := bucket];
      return false;
    }

    method Cleanup(now: real)
      modifies this
      ensures clients == Swept(old(clients), now)
      ensures forall id | id in old(clients) :: id in clients <==> old(clients)[id].lastTime >= now - 600.0
      ensures forall id | id in clients :: id in old(clients) && clients[id] == old(clients)[id]
    {
      var cutoff := now - IDLE;
      var rest := clients.Keys;
      while rest != {}
        invariant rest <= old(clients).Keys
        invariant forall id | id in clients :: id in old(clients) && clients[id] == old(clients)[id]
        invariant forall id | id in old(clients) ::
                    id in clients <==> id in rest || !Stale(old(clients)[id], now)
        decreases |rest|
      {
        var id :| id in rest;
        if clients[id].lastTime < cutoff {
          clients := clients - {id};
        }
        rest := rest - {id};
      }
    }
  }

  // ---- runs --------------------------------------------------------------------------------

  /** Per-client limits that do not change over the run. */
  datatype Limit = Limit(rpm: int, burst: int)
  datatype Event = Call(id: string, at: real) | Sweep(at: real)

  ghost predicate Monotone(run: seq<Event>) {
    forall i, j | 0 <= i <= j < |run| :: run[i].at <= run[j].at
  }

  datatype Outcome = Outcome(clients: map<string, Bucket>, decisions: seq<bool>)

  /** The state after one event and, for a call, the decision. */
  function After(lim: string -> Limit, window: real, o: Outcome, e: Event): Outcome
    requires window > 0.0
  {
    match e
    case Sweep(at) => o.(clients := Swept(o.clients, at))
    case Call(id, at) =>
      if lim(id).rpm <= 0 then o.(decisions := o.decisions + [true])
      else
        var d := Decide(Lookup(o.clients, id), lim(id).rpm, EffectiveBurst(lim(id).rpm, lim(id).burst), window, at);
        Outcome(o.clients[id := d.1], o.decisions + [d.0])
  }

  function Play(lim: string -> Limit, window: real, o: Outcome, run: seq<Event>): Outcome
    requires window > 0.0
  {
    if run == [] then o else After(lim, window, Play(lim, window, o, Init(run)), Last(run))
  }

  const START := Outcome(map[], [])

  function Decisions(lim: string -> Limit, window: real, run: seq<Event>): seq<bool>
    requires window > 0.0
  {
    Play(lim, window, START, run).decisions
  }

  function CallsOnly(run: seq<Event>): seq<Event> {
    if run == [] then []
    else CallsOnly(Init(run)) + (if Last(run).Call? then [Last(run)] else [])
  }

  /** Calls of client id that were admitted when `run` is played from o. */
  function Admitted(lim: string -> Limit, window: real, o: Outcome, run: seq<Event>, id: string): nat
    requires window > 0.0
  {
    if run == [] then 0
    else
      var before := Play(lim, window, o, Init(run));
      Admitted(lim, window, o, Init(run), id) +
      (if Last(run).Call? && Last(run).id == id && Last(After(lim, window, before, Last(run)).decisions) then 1 else 0)
  }

  // ---- the tokens a client can spend -------------------------------------------------------

  /** An unknown client has a full bucket. */
  function Tokens(clients: map<string, Bucket>, id: string, l: Limit, window: real, now: real): real
    requires window > 0.0
  {
    match Lookup(clients, id)
    case None => Burst(l) as real
    case Some(b) => Refilled(b, l.rpm, Burst(l), window, now)
  }

  function Burst(l: Limit): int {
    EffectiveBurst(l.rpm, l.burst)
  }

  /** Ten minutes of refill fill the bucket. */
  predicate Patient(l: Limit, window: real)
    requires window > 0.0
  {
    600.0 * l.rpm as real / window >= (if l.burst <= 0 then l.rpm else l.burst) as real
  }

  /** Buckets are never negative and never from the future. */
  ghost predicate Sane(clients: map<string, Bucket>, now: real) {
    forall id | id in clients :: clients[id].tokens >= 0.0 && clients[id].lastTime <= now
  }

  lemma RefillPlus(a: real, b: real, rpm: int, window: real)
    requires window > 0.0
    ensures Refill(a + b, rpm, window) == Refill(a, rpm, window) + Refill(b, rpm, window)
    ensures Refill(0.0, rpm, window) == 0.0
  {
  }

  lemma RefillGrows(a: real, b: real, rpm: int, window: real)
    requires window > 0.0 && rpm > 0 && a <= b
    ensures Refill(a, rpm, window) <= Refill(b, rpm, window)
    ensures a >= 0.0 ==> Refill(a, rpm, window) >= 0.0
  {
    Quotient(a * rpm as real, b * rpm as real, window);
    Quotient(0.0, a * rpm as real, window);
  }

  lemma Quotient(x: real, y: real, window: real)
    requires window > 0.0
    ensures x <= y ==> x / window <= y / window
  {
  }

  /** Time turns the tokens at `now` into the tokens at `later`, whatever the bucket behind them. */
  lemma Advance(clients: map<string, Bucket>, id: string, l: Limit, window: real, now: real, later: real)
    requires window > 0.0 && l.rpm > 0 && now <= later
    ensures Tokens(clients, id, l, window, later)
         == Min(Burst(l) as real, Tokens(clients, id, l, window, now) + Refill(later - now, l.rpm, window))
  {
    RefillGrows(0.0, later - now, l.rpm, window);
    if id in clients {
      var b := clients[id];
      assert later - b.lastTime == (now - b.lastTime) + (later - now);
      RefillPlus(now - b.lastTime, later - now, l.rpm, window);
    }
  }

  /** A call is admitted exactly when a whole token is there, and then spends it. */
  lemma Spend(lim: string -> Limit, window: real, o: Outcome, id: string, at: real)
    requires window > 0.0 && lim(id).rpm > 0 && Sane(o.clients, at)
    ensures var t := Tokens(o.clients, id, lim(id), window, at);
            var o' := After(lim, window, o, Call(id, at));
            && Last(o'.decisions) == (t >= 1.0)
            && Tokens(o'.clients, id, lim(id), window, at) == (if t >= 1.0 then t - 1.0 else t)
            && Sane(o'.clients, at)
  {
    var l := lim(id);
    RefillPlus(0.0, 0.0, l.rpm, window);
    if id in o.clients {
      RefillGrows(0.0, at - o.clients[id].lastTime, l.rpm, window);
    }
  }

  lemma OthersKeep(lim: string -> Limit, window: real, o: Outcome, id: string, at: real, other: string, l: Limit)
    requires window > 0.0 && other != id
    ensures Tokens(After(lim, window, o, Call(id, at)).clients, other, l, window, at) == Tokens(o.clients, other, l, window, at)
  {
  }

  /** A sweep never takes tokens; for a patient limit it changes nothing. */
  lemma SweepTokens(clients: map<string, Bucket>, id: string, l: Limit, window: real, at: real)
    requires window > 0.0 && l.rpm > 0 && Sane(clients, at)
    ensures Tokens(Swept(clients, at), id, l, window, at) >= Tokens(clients, id, l, window, at)
    ensures Patient(l, window) ==> Tokens(Swept(clients, at), id, l, window, at) == Tokens(clients, id, l, window, at)
    ensures Sane(Swept(clients, at), at)
  {
    if id in clients && Stale(clients[id], at) {
      RefillGrows(IDLE, at - clients[id].lastTime, l.rpm, window);
    }
  }

  lemma TokensRange(clients: map<string, Bucket>, id: string, l: Limit, window: real, now: real)
    requires window > 0.0 && l.rpm > 0 && Sane(clients, now)
    ensures 0.0 <= Tokens(clients, id, l, window, now) <= Burst(l) as real
  {
    if id in clients {
      RefillGrows(0.0, now - clients[id].lastTime, l.rpm, window);
    }
  }

  // ---- the admission bound -----------------------------------------------------------------

  lemma SaneAfter(lim: string -> Limit, window: real, o: Outcome, e: Event)
    requires window > 0.0 && Sane(o.clients, e.at)
    ensures Sane(After(lim, window, o, e).clients, e.at)
  {
    if e.Call? && lim(e.id).rpm > 0 {
      Spend(lim, window, o, e.id, e.at);
    }
  }

  lemma SaneLater(clients: map<string, Bucket>, now: real, later: real)
    requires Sane(clients, now) && now <= later
    ensures Sane(clients, later)
  {
  }

  lemma {:induction false} SanePlay(lim: string -> Limit, window: real, o: Outcome, run: seq<Event>, now: real)
    requires window > 0.0 && Monotone(run) && run != [] && Sane(o.clients, now) && now <= run[0].at
    ensures Sane(Play(lim, window, o, run).clients, Last(run).at)
  {
    if |run| == 1 {
      assert Init(run) == [];
      SaneLater(o.clients, now, Last(run).at);
      SaneAfter(lim, window, o, Last(run));
    } else {
      SanePlay(lim, window, o, Init(run), now);
      var before := Play(lim, window, o, Init(run));
      assert Last(Init(run)) == run[|run| - 2];
      SaneLater(before.clients, Last(Init(run)).at, Last(run).at);
      SaneAfter(lim, window, before, Last(run));
    }
  }

  /** What a call of client id costs: one token if admitted. */
  function Cost(lim: string -> Limit, window: real, o: Outcome, e: Event, id: string): real
    requires window > 0.0
  {
    if e.Call? && e.id == id && Last(After(lim, window, o, e).decisions) then 1.0 else 0.0
  }

  /** One event: admissions are paid for by tokens. */
  lemma Charge(lim: string -> Limit, window: real, o: Outcome, e: Event, id: string)
    requires window > 0.0 && lim(id).rpm > 0 && Sane(o.clients, e.at)
    requires e.Sweep? ==> Patient(lim(id), window)
    ensures Tokens(After(lim, window, o, e).clients, id, lim(id), window, e.at) + Cost(lim, window, o, e, id)
         == Tokens(o.clients, id, lim(id), window, e.at)
  {
    match e
    case Sweep(at) => SweepTokens(o.clients, id, lim(id), window, at);
    case Call(other, at) =>
      if other == id {
        Spend(lim, window, o, id, at);
      } else {
        OthersKeep(lim, window, o, other, at, id, lim(id));
      }
  }

  lemma {:induction false} Potential(lim: string -> Limit, window: real, o: Outcome, run: seq<Event>, id: string)
    requires window > 0.0 && lim(id).rpm > 0
    requires run != [] && Monotone(run) && Sane(o.clients, run[0].at)
    requires Patient(lim(id), window) || forall i | 0 <= i < |run| :: run[i].Call?
    ensures Admitted(lim, window, o, run, id) as real
              + Tokens(Play(lim, window, o, run).clients, id, lim(id), window, Last(run).at)
         <= Tokens(o.clients, id, lim(id), window, run[0].at) + Refill(Last(run).at - run[0].at, lim(id).rpm, window)
  {
    var l, pre, e := lim(id), Init(run), Last(run);
    if pre == [] {
      Charge(lim, window, o, e, id);
      RefillPlus(0.0, 0.0, l.rpm, window);
    } else {
      hide Tokens, Refill;
      Potential(lim, window, o, pre, id);
      var before := Play(lim, window, o, pre);
      SanePlay(lim, window, o, pre, run[0].at);
      var then' := Last(pre).at;
      assert then' == run[|run| - 2].at <= e.at;
      SaneLater(before.clients, then', e.at);
      Charge(lim, window, before, e, id);
      Advance(before.clients, id, l, window, then', e.at);
      assert e.at - run[0].at == (then' - run[0].at) + (e.at - then');
      RefillPlus(then' - run[0].at, e.at - then', l.rpm, window);
    }
  }

  /** What a span of that many seconds allows: the burst, rpm where none is set, and the refill. */
  function Allowance(l: Limit, window: real, elapsed: real): real
    requires window > 0.0
  {
    (if l.burst <= 0 then l.rpm else l.burst) as real + elapsed * l.rpm as real / window
  }

  lemma AllowanceIs(l: Limit, window: real, elapsed: real)
    requires window > 0.0
    ensures Burst(l) as real + Refill(elapsed, l.rpm, window) == Allowance(l, window, elapsed)
  {
  }

  lemma SaneAt(lim: string -> Limit, window: real, run: seq<Event>, i: nat)
    requires window > 0.0 && Monotone(run) && i < |run|
    ensures Sane(Play(lim, window, START, run[..i]).clients, run[i].at)
  {
    if i > 0 {
      SanePlay(lim, window, START, run[..i], run[0].at);
      assert Last(run[..i]) == run[i - 1];
      SaneLater(Play(lim, window, START, run[..i]).clients, run[i - 1].at, run[i].at);
      hide Play;
    }
  }

  lemma SpanBound(lim: string -> Limit, window: real, run: seq<Event>, i: nat, j: nat, id: string)
    requires window > 0.0 && lim(id).rpm > 0
    requires Monotone(run) && i < j <= |run|
    requires Patient(lim(id), window) || forall k | 0 <= k < |run| :: run[k].Call?
    ensures Admitted(lim, window, Play(lim, window, START, run[..i]), run[i..j], id) as real
         <= Allowance(lim(id), window, run[j - 1].at - run[i].at)
  {
    hide Play, Admitted, Refill, Tokens, Allowance;
    var o, span := Play(lim, window, START, run[..i]), run[i..j];
    SaneAt(lim, window, run, i);
    assert Last(span) == run[j - 1];
    Potential(lim, window, o, span, id);
    TokensRange(o.clients, id, lim(id), window, run[i].at);
    SanePlay(lim, window, o, span, run[i].at);
    TokensRange(Play(lim, window, o, span).clients, id, lim(id), window, Last(span).at);
    AllowanceIs(lim(id), window, run[j - 1].at - run[i].at);
  }

  /** Between any two events of a run, at most burst plus the refill of that span is admitted; with
      cleanups in the run this needs a patient limit. */
  lemma AdmissionBound(lim: string -> Limit, window: real, run: seq<Event>, i: nat, j: nat, id: string)
    requires window > 0.0 && lim(id).rpm > 0
    requires Monotone(run) && i < j <= |run|
    requires Patient(lim(id), window) || forall k | 0 <= k < |run| :: run[k].Call?
    ensures Admitted(lim, window, Play(lim, window, START, run[..i]), run[i..j], id) as real
         <= (if lim(id).burst <= 0 then lim(id).rpm else lim(id).burst) as real
            + (run[j - 1].at - run[i].at) * lim(id).rpm as real / window
  {
    hide Play, Admitted, Patient;
    SpanBound(lim, window, run, i, j, id);
  }

  // ---- exactly which calls are admitted ------------------------------------------------------

  lemma {:induction false} PlayPlus(lim: string -> Limit, window: real, o: Outcome, a: seq<Event>, b: seq<Event>)
    requires window > 0.0
    ensures Play(lim, window, o, a + b) == Play(lim, window, Play(lim, window, o, a), b)
  {
    hide After;
    if b == [] {
      assert a + b == a;
    } else {
      PlayPlus(lim, window, o, a, Init(b));
      assert Init(a + b) == a + Init(b) && Last(a + b) == Last(b);
    }
  }

  /** Admissions of a client among the events i, …, j - 1 of a run. */
  function AdmittedIn(lim: string -> Limit, window: real, run: seq<Event>, i: nat, j: nat, id: string): nat
    requires window > 0.0 && i <= j <= |run|
  {
    Admitted(lim, window, Play(lim, window, START, run[..i]), run[i..j], id)
  }

  lemma AdmittedNext(lim: string -> Limit, window: real, run: seq<Event>, i: nat, j: nat, id: string)
    requires window > 0.0 && i <= j < |run|
    ensures AdmittedIn(lim, window, run, i, i, id) == 0
    ensures AdmittedIn(lim, window, run, i, j + 1, id) as real
         == AdmittedIn(lim, window, run, i, j, id) as real + Cost(lim, window, Play(lim, window, START, run[..j]), run[j], id)
  {
    hide After, Play;
    assert Init(run[i..j + 1]) == run[i..j] && Last(run[i..j + 1]) == run[j];
    PlayPlus(lim, window, START, run[..i], run[i..j]);
    assert run[..i] + run[i..j] == run[..j];
  }

  /** Tokens are never more than any span allows … */
  lemma TokensAtMost(lim: string -> Limit, window: real, run: seq<Event>, j: nat, n: nat, id: string)
    requires window > 0.0 && lim(id).rpm > 0 && Monotone(run) && j <= n < |run|
    requires Patient(lim(id), window) || forall k | 0 <= k < |run| :: run[k].Call?
    ensures Tokens(Play(lim, window, START, run[..n]).clients, id, lim(id), window, run[n].at)
         <= Burst(lim(id)) as real + Refill(run[n].at - run[j].at, lim(id).rpm, window) - AdmittedIn(lim, window, run, j, n, id) as real
    decreases n - j
  {
    hide Play, Tokens, Refill, Patient, AdmittedIn;
    SaneAt(lim, window, run, n);
    var o := Play(lim, window, START, run[..n]);
    AdmittedNext(lim, window, run, j, n, id);
    RefillPlus(0.0, 0.0, lim(id).rpm, window);
    if j == n {
      TokensRange(o.clients, id, lim(id), window, run[n].at);
    } else {
      TokensAtMost(lim, window, run, j, n - 1, id);
      TokensStep(lim, window, run, n, id);
      AdmittedNext(lim, window, run, j, n - 1, id);
      RefillPlus(run[n - 1].at - run[j].at, run[n].at - run[n - 1].at, lim(id).rpm, window);
    }
  }

  /** … and some span allows no more. */
  lemma {:induction false} TokensAtLeast(lim: string -> Limit, window: real, run: seq<Event>, n: nat, id: string) returns (j: nat)
    requires window > 0.0 && lim(id).rpm > 0 && Monotone(run) && n < |run|
    requires Patient(lim(id), window) || forall k | 0 <= k < |run| :: run[k].Call?
    ensures j <= n
    ensures Tokens(Play(lim, window, START, run[..n]).clients, id, lim(id), window, run[n].at)
         >= Burst(lim(id)) as real + Refill(run[n].at - run[j].at, lim(id).rpm, window) - AdmittedIn(lim, window, run, j, n, id) as real
  {
    hide Play, Tokens, Refill, Patient, AdmittedIn;
    AdmittedNext(lim, window, run, n, n, id);
    RefillPlus(0.0, 0.0, lim(id).rpm, window);
    if n == 0 {
      j := 0;
      NewClient(lim, window, run, id);
    } else {
      j := TokensAtLeast(lim, window, run, n - 1, id);
      TokensStep(lim, window, run, n, id);
      AdmittedNext(lim, window, run, j, n - 1, id);
      RefillPlus(run[n - 1].at - run[j].at, run[n].at - run[n - 1].at, lim(id).rpm, window);
      if Tokens(Play(lim, window, START, run[..n]).clients, id, lim(id), window, run[n].at) >= Burst(lim(id)) as real {
        j := n;
      }
    }
  }

  lemma NewClient(lim: string -> Limit, window: real, run: seq<Event>, id: string)
    requires window > 0.0 && run != []
    ensures Tokens(Play(lim, window, START, run[..0]).clients, id, lim(id), window, run[0].at) == Burst(lim(id)) as real
  {
  }

  /** From one event to the next: what the first one costs goes, what the time between them gives comes. */
  lemma TokensStep(lim: string -> Limit, window: real, run: seq<Event>, n: nat, id: string)
    requires window > 0.0 && lim(id).rpm > 0 && Monotone(run) && 0 < n < |run|
    requires Patient(lim(id), window) || forall k | 0 <= k < |run| :: run[k].Call?
    ensures var before, o := Play(lim, window, START, run[..n - 1]), Play(lim, window, START, run[..n]);
            Tokens(o.clients, id, lim(id), window, run[n].at)
            == Min(Burst(lim(id)) as real,
                   Tokens(before.clients, id, lim(id), window, run[n - 1].at) - Cost(lim, window, before, run[n - 1], id)
                     + Refill(run[n].at - run[n - 1].at, lim(id).rpm, window))
  {
    var before, o := Play(lim, window, START, run[..n - 1]), Play(lim, window, START, run[..n]);
    assert Init(run[..n]) == run[..n - 1] && Last(run[..n]) == run[n - 1];
    assert o == After(lim, window, before, run[n - 1]);
    hide Play, Tokens, Refill, Patient, Cost, After;
    SaneAt(lim, window, run, n - 1);
    Charge(lim, window, before, run[n - 1], id);
    Advance(o.clients, id, lim(id), window, run[n - 1].at, run[n].at);
  }

  lemma SpansDecide(lim: string -> Limit, window: real, run: seq<Event>, i: nat)
    requires window > 0.0 && Monotone(run) && i < |run| && run[i].Call? && lim(run[i].id).rpm > 0
    requires Patient(lim(run[i].id), window) || forall k | 0 <= k < |run| :: run[k].Call?
    ensures var id := run[i].id;
            Last(After(lim, window, Play(lim, window, START, run[..i]), run[i]).decisions) <==>
            forall j | 0 <= j <= i ::
              AdmittedIn(lim, window, run, j, i, id) as real + 1.0 <= Allowance(lim(id), window, run[i].at - run[j].at)
  {
    hide Play, Tokens, Refill, Patient, After, AdmittedIn, Allowance, Burst;
    var id, o := run[i].id, Play(lim, window, START, run[..i]);
    SaneAt(lim, window, run, i);
    Spend(lim, window, o, id, run[i].at);
    var t := Tokens(o.clients, id, lim(id), window, run[i].at);
    forall j | 0 <= j <= i
      ensures t <= Allowance(lim(id), window, run[i].at - run[j].at) - AdmittedIn(lim, window, run, j, i, id) as real
    {
      TokensAtMost(lim, window, run, j, i, id);
      AllowanceIs(lim(id), window, run[i].at - run[j].at);
    }
    var w := TokensAtLeast(lim, window, run, i, id);
    AllowanceIs(lim(id), window, run[i].at - run[w].at);
  }

  lemma DecisionOf(lim: string -> Limit, window: real, run: seq<Event>, i: nat)
    requires window > 0.0 && i < |run| && run[i].Call?
    ensures var decisions := After(lim, window, Play(lim, window, START, run[..i]), run[i]).decisions;
            Decisions(lim, window, run[..i + 1]) == decisions != [] && (lim(run[i].id).rpm <= 0 ==> Last(decisions))
  {
    assert Init(run[..i + 1]) == run[..i] && Last(run[..i + 1]) == run[i];
  }

  /** A call is admitted exactly if, with it, no span of the run that ends in it holds more admissions of
      its client than the burst and the span's refill; without a rate every call is. */
  lemma AdmittedExactly(lim: string -> Limit, window: real, run: seq<Event>, i: nat)
    requires window > 0.0 && Monotone(run) && i < |run| && run[i].Call?
    requires Patient(lim(run[i].id), window) || forall k | 0 <= k < |run| :: run[k].Call?
    ensures var id, decisions := run[i].id, Decisions(lim, window, run[..i + 1]);
            && decisions != []
            && (lim(id).rpm <= 0 ==> Last(decisions))
            && (lim(id).rpm > 0 ==>
                  (Last(decisions) <==>
                     forall j | 0 <= j <= i ::
                       AdmittedIn(lim, window, run, j, i, id) as real + 1.0 <= Allowance(lim(id), window, run[i].at - run[j].at)))
  {
    hide Play, Patient, After, AdmittedIn, Decisions, Allowance;
    DecisionOf(lim, window, run, i);
    if lim(run[i].id).rpm > 0 {
      SpansDecide(lim, window, run, i);
    }
  }

  // ---- cleanup unnoticed -------------------------------------------------------------------

  /** Two client tables that give every limited client the same tokens. */
  ghost predicate Alike(lim: string -> Limit, window: real, c: map<string, Bucket>, d: map<string, Bucket>, now: real)
    requires window > 0.0
  {
    forall id | lim(id).rpm > 0 :: Tokens(c, id, lim(id), window, now) == Tokens(d, id, lim(id), window, now)
  }

  lemma AlikeLater(lim: string -> Limit, window: real, c: map<string, Bucket>, d: map<string, Bucket>, now: real, later: real)
    requires window > 0.0 && now <= later && Alike(lim, window, c, d, now)
    ensures Alike(lim, window, c, d, later)
  {
    forall id | lim(id).rpm > 0
      ensures Tokens(c, id, lim(id), window, later) == Tokens(d, id, lim(id), window, later)
    {
      Advance(c, id, lim(id), window, now, later);
      Advance(d, id, lim(id), window, now, later);
    }
  }

  lemma AlikeCall(lim: string -> Limit, window: real, o: Outcome, p: Outcome, id: string, at: real)
    requires window > 0.0 && Alike(lim, window, o.clients, p.clients, at)
    requires Sane(o.clients, at) && Sane(p.clients, at) && o.decisions == p.decisions
    ensures var o', p' := After(lim, window, o, Call(id, at)), After(lim, window, p, Call(id, at));
            Alike(lim, window, o'.clients, p'.clients, at) && o'.decisions == p'.decisions
  {
    var o', p' := After(lim, window, o, Call(id, at)), After(lim, window, p, Call(id, at));
    if lim(id).rpm > 0 {
      Spend(lim, window, o, id, at);
      Spend(lim, window, p, id, at);
      forall other | lim(other).rpm > 0
        ensures Tokens(o'.clients, other, lim(other), window, at) == Tokens(p'.clients, other, lim(other), window, at)
      {
        if other != id {
          OthersKeep(lim, window, o, id, at, other, lim(other));
          OthersKeep(lim, window, p, id, at, other, lim(other));
        }
      }
    }
  }

  lemma AlikeSweep(lim: string -> Limit, window: real, c: map<string, Bucket>, d: map<string, Bucket>, at: real)
    requires window > 0.0 && Alike(lim, window, c, d, at) && Sane(c, at)
    requires forall id | lim(id).rpm > 0 :: Patient(lim(id), window)
    ensures Alike(lim, window, Swept(c, at), d, at)
  {
    forall id | lim(id).rpm > 0
      ensures Tokens(Swept(c, at), id, lim(id), window, at) == Tokens(d, id, lim(id), window, at)
    {
      SweepTokens(c, id, lim(id), window, at);
    }
  }

  lemma {:induction false} CallsOnlyRun(lim: string -> Limit, window: real, run: seq<Event>, now: real)
    requires window > 0.0 && Monotone(run) && (run != [] ==> Last(run).at <= now)
    requires forall id | lim(id).rpm > 0 :: Patient(lim(id), window)
    ensures var o, p := Play(lim, window, START, run), Play(lim, window, START, CallsOnly(run));
            && Sane(o.clients, now) && Sane(p.clients, now)
            && Alike(lim, window, o.clients, p.clients, now)
            && o.decisions == p.decisions
  {
    if run != [] {
      var pre, e := Init(run), Last(run);
      assert pre != [] ==> Last(pre) == run[|run| - 2];
      CallsOnlyRun(lim, window, pre, e.at);
      var o, p := Play(lim, window, START, pre), Play(lim, window, START, CallsOnly(pre));
      SaneAfter(lim, window, o, e);
      match e {
        case Sweep(at) =>
          assert CallsOnly(run) == CallsOnly(pre);
          AlikeSweep(lim, window, o.clients, p.clients, at);
        case Call(id, at) =>
          assert Init(CallsOnly(run)) == CallsOnly(pre) && Last(CallsOnly(run)) == e;
          SaneAfter(lim, window, p, e);
          AlikeCall(lim, window, o, p, id, at);
      }
      var o', p' := Play(lim, window, START, run), Play(lim, window, START, CallsOnly(run));
      SaneLater(o'.clients, e.at, now);
      SaneLater(p'.clients, e.at, now);
      AlikeLater(lim, window, o'.clients, p'.clients, e.at, now);
    }
  }

  ghost predicate CleanupUnnoticed(lim: string -> Limit, window: real)
    requires window > 0.0
  {
    forall run :: Monotone(run) ==> Decisions(lim, window, run) == Decisions(lim, window, CallsOnly(run))
  }

  // ---- an impatient limit shows the cleanup --------------------------------------------------

  function Calls(id: string, at: real, n: nat): (run: seq<Event>)
    ensures |run| == n && forall i | 0 <= i < n :: run[i] == Call(id, at)
  {
    seq(n, i => Call(id, at))
  }

  /** A full bucket serves `burst` simultaneous calls. */
  lemma {:induction false} FullServes(lim: string -> Limit, window: real, pre: seq<Event>, id: string, at: real, n: nat)
    requires window > 0.0 && lim(id).rpm > 0 && n <= Burst(lim(id))
    requires id !in Play(lim, window, START, pre).clients
    ensures var o, o' := Play(lim, window, START, pre), Play(lim, window, START, pre + Calls(id, at, n));
            && o'.decisions == o.decisions + Trues(n)
            && (n == 0 ==> o' == o)
            && (n > 0 ==> o'.clients == o.clients[id := Bucket(Burst(lim(id)) as real - n as real, at)])
  {
    hide After, Burst, Play, Calls, Trues;
    var o := Play(lim, window, START, pre);
    if n == 0 {
      Nobody(pre, id, at);
      assert o.decisions + [] == o.decisions;
    } else {
      FullServes(lim, window, pre, id, at, n - 1);
      var o' := Play(lim, window, START, pre + Calls(id, at, n - 1));
      OneMore(lim, window, pre, id, at, n);
      ServeOne(lim, window, o', id, at, Burst(lim(id)) - (n - 1));
      PlusAssoc(o.decisions, Trues(n - 1), [true]);
    }
  }

  lemma Nobody(pre: seq<Event>, id: string, at: real)
    ensures pre + Calls(id, at, 0) == pre && Trues(0) == []
  {
  }

  lemma OneMore(lim: string -> Limit, window: real, pre: seq<Event>, id: string, at: real, n: nat)
    requires window > 0.0 && n > 0
    ensures Play(lim, window, START, pre + Calls(id, at, n))
         == After(lim, window, Play(lim, window, START, pre + Calls(id, at, n - 1)), Call(id, at))
    ensures Trues(n) == Trues(n - 1) + [true]
  {
    var run := pre + Calls(id, at, n);
    assert Init(run) == pre + Calls(id, at, n - 1) && Last(run) == Call(id, at);
  }

  /** A call that finds `left` tokens and no time passed is served. */
  lemma ServeOne(lim: string -> Limit, window: real, o: Outcome, id: string, at: real, left: int)
    requires window > 0.0 && lim(id).rpm > 0 && 1 <= left
    requires if id in o.clients then o.clients[id] == Bucket(left as real, at) && left <= Burst(lim(id)) else left == Burst(lim(id))
    ensures After(lim, window, o, Call(id, at)) == Outcome(o.clients[id := Bucket(left as real - 1.0, at)], o.decisions + [true])
  {
    RefillPlus(0.0, 0.0, lim(id).rpm, window);
  }

  function Trues(n: nat): seq<bool> {
    seq(n, i => true)
  }

  lemma {:induction false} CallsAreCalls(id: string, run: seq<Event>)
    requires forall i | 0 <= i < |run| :: run[i].Call?
    ensures CallsOnly(run) == run
  {
    if run != [] {
      CallsAreCalls(id, Init(run));
      InitLast(run);
    }
  }

  lemma {:induction false} CallsOnlyPlus(a: seq<Event>, b: seq<Event>)
    ensures CallsOnly(a + b) == CallsOnly(a) + CallsOnly(b)
  {
    if b == [] {
      assert a + b == a;
    } else {
      CallsOnlyPlus(a, Init(b));
      assert Init(a + b) == a + Init(b) && Last(a + b) == Last(b);
    }
  }

  /** If every decision on a run of calls of one client is positive, all of them were admitted. */
  lemma {:induction false} AllAdmitted(lim: string -> Limit, window: real, run: seq<Event>, id: string)
    requires window > 0.0
    requires forall i | 0 <= i < |run| :: run[i].Call? && run[i].id == id
    ensures |Decisions(lim, window, run)| == |run|
    ensures (forall i | 0 <= i < |run| :: Decisions(lim, window, run)[i]) ==> Admitted(lim, window, START, run, id) == |run|
  {
    if run != [] {
      AllAdmitted(lim, window, Init(run), id);
      var before, all := Decisions(lim, window, Init(run)), Decisions(lim, window, run);
      assert forall i | 0 <= i < |before| :: all[i] == before[i];
    }
  }

  /** A moment after the idle limit at which the bucket would not yet be full. */
  lemma LateButNotFull(l: Limit, window: real) returns (t: real)
    requires window > 0.0 && l.rpm > 0 && !Patient(l, window)
    ensures t > IDLE && Refill(t, l.rpm, window) < Burst(l) as real
  {
    var rate, b := l.rpm as real / window, Burst(l) as real;
    Reassociate(IDLE, l.rpm as real, window);
    assert IDLE * rate < b;
    var gap := (b - IDLE * rate) / (2.0 * rate);
    t := IDLE + gap;
    HalfTheGap(b, IDLE * rate, rate);
    Reassociate(t, l.rpm as real, window);
    assert t * rate == IDLE * rate + gap * rate;
  }

  lemma HalfTheGap(b: real, full: real, rate: real)
    requires full < b && rate > 0.0
    ensures (b - full) / (2.0 * rate) > 0.0
    ensures (b - full) / (2.0 * rate) * rate == (b - full) / 2.0
  {
    var gap := (b - full) / (2.0 * rate);
    assert gap * (2.0 * rate) == b - full;
  }

  lemma Reassociate(x: real, r: real, w: real)
    requires w > 0.0
    ensures x * r / w == x * (r / w)
  {
  }

  /** Drain the bucket, wait just over ten minutes, sweep, drain again. */
  function Drains(id: string, t: real, n: nat): seq<Event> {
    Calls(id, 0.0, n) + [Sweep(t)] + Calls(id, t, n)
  }

  lemma DrainsWithoutSweep(id: string, t: real, n: nat)
    ensures CallsOnly(Drains(id, t, n)) == Calls(id, 0.0, n) + Calls(id, t, n)
  {
    var first, second := Calls(id, 0.0, n), Calls(id, t, n);
    CallsOnlyPlus(first, [Sweep(t)]);
    CallsOnlyPlus(first + [Sweep(t)], second);
    CallsAreCalls(id, first);
    CallsAreCalls(id, second);
    assert CallsOnly([Sweep(t)]) == [];
  }

  /** With the sweep, both drains are served in full. */
  lemma DrainsServed(lim: string -> Limit, window: real, id: string, t: real, n: nat)
    requires window > 0.0 && lim(id).rpm > 0 && n == Burst(lim(id)) && t > IDLE
    ensures var d := Decisions(lim, window, Drains(id, t, n)); |d| == 2 * n && forall i | 0 <= i < |d| :: d[i]
  {
    hide After, Burst, Play, Calls;
    var first := Calls(id, 0.0, n);
    StartEmpty(lim, window);
    FullServes(lim, window, [], id, 0.0, n);
    assert [] + first == first;
    DrainedSwept(lim, window, first, id, t, n);
    FullServes(lim, window, first + [Sweep(t)], id, t, n);
  }

  /** The sweep at t takes the drained bucket of time 0 away, and no decision. */
  lemma DrainedSwept(lim: string -> Limit, window: real, first: seq<Event>, id: string, t: real, n: nat)
    requires window > 0.0 && lim(id).rpm > 0 && n == Burst(lim(id)) && t > IDLE
    requires var o := Play(lim, window, START, first);
             && o.decisions == [] + Trues(n)
             && (if n == 0 then o == START else o.clients == map[id := Bucket(Burst(lim(id)) as real - n as real, 0.0)])
    ensures var swept := Play(lim, window, START, first + [Sweep(t)]);
            id !in swept.clients && swept.decisions == Trues(n)
  {
    assert Init(first + [Sweep(t)]) == first && Last(first + [Sweep(t)]) == Sweep(t);
    assert [] + Trues(n) == Trues(n);
    hide Play;
  }

  lemma StartEmpty(lim: string -> Limit, window: real)
    requires window > 0.0
    ensures Play(lim, window, START, []) == START
  {
  }

  /** Without it, they cannot be. */
  lemma DrainsLimited(lim: string -> Limit, window: real, id: string, t: real, n: nat)
    requires window > 0.0 && lim(id).rpm > 0 && n == Burst(lim(id)) && t > IDLE
    requires Refill(t, lim(id).rpm, window) < n as real
    ensures var bare := Calls(id, 0.0, n) + Calls(id, t, n);
            exists i | 0 <= i < |Decisions(lim, window, bare)| :: !Decisions(lim, window, bare)[i]
  {
    hide Play, Refill, Admitted, Decisions, Allowance, Patient;
    var bare := Calls(id, 0.0, n) + Calls(id, t, n);
    StartEmpty(lim, window);
    assert Monotone(bare) && bare[0].at == 0.0 && bare[|bare| - 1].at == t;
    AllAdmitted(lim, window, bare, id);
    assert bare[..0] == [] && bare[0..|bare|] == bare;
    SpanBound(lim, window, bare, 0, |bare|, id);
    AllowanceIs(lim(id), window, t);
  }

  lemma ImpatientNoticed(lim: string -> Limit, window: real, id: string)
    requires window > 0.0 && lim(id).rpm > 0 && !Patient(lim(id), window)
    ensures !CleanupUnnoticed(lim, window)
  {
    var n: nat := Burst(lim(id));
    var t := LateButNotFull(lim(id), window);
    assert Monotone(Drains(id, t, n));
    DrainsWithoutSweep(id, t, n);
    DrainsServed(lim, window, id, t, n);
    DrainsLimited(lim, window, id, t, n);
  }

  /** Cleanup goes unnoticed exactly when ten minutes refill every limited client's bucket. */
  lemma CleanupUnnoticedIff(lim: string -> Limit, window: real)
    requires window > 0.0
    ensures CleanupUnnoticed(lim, window) <==>
            forall id | lim(id).rpm > 0 ::
              600.0 * lim(id).rpm as real / window >= (if lim(id).burst <= 0 then lim(id).rpm else lim(id).burst) as real
  {
    if forall id | lim(id).rpm > 0 :: Patient(lim(id), window) {
      forall run | Monotone(run)
        ensures Decisions(lim, window, run) == Decisions(lim, window, CallsOnly(run))
      {
        CallsOnlyRun(lim, window, run, if run == [] then 0.0 else Last(run).at);
      }
    } else {
      var id :| lim(id).rpm > 0 && !Patient(lim(id), window);
      ImpatientNoticed(lim, window, id);
    }
  }
}
