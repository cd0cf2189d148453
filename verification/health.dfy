/** UpstreamHealth: the circuit breaker, and what holds over every run of request results,
    admissions and active probes. Times are nanoseconds; the clock is an argument. */
module Health {
  import opened Seqs

  const OPEN_THRESHOLD := 5
  const OPEN_DURATION := 60_000_000_000
  const HALF_OPEN_PROBES := 1

  datatype CircuitState = Closed | Open | HalfOpen
  datatype Breaker = Breaker(state: CircuitState, errs: int, openedAt: int, probes: int)

  const FRESH := Breaker(Closed, 0, 0, 0)

  /** HTTP statuses an active probe takes for healthy. */
  predicate StatusOK(code: int) {
    200 <= code < 400
  }

  /** How an active check ended. */
  datatype CheckResult = NoAccounts | AllDisabled | TransportError | Status(code: int)

  function Failed(b: Breaker, now: int): Breaker {
    var c := b.(errs := b.errs + 1);
    if c.errs >= OPEN_THRESHOLD && c.state == Closed then c.(state := Open, openedAt := now) else c
  }

  /** A good request clears the probe count when it closes the circuit; a good check does not. */
  function Succeeded(b: Breaker, clearProbes: bool): Breaker {
    match b.state
    case HalfOpen => b.(state := Closed, errs := 0, probes := if clearProbes then 0 else b.probes)
    case Closed => b.(errs := 0)
    case Open => b
  }

  function Asked(b: Breaker, now: int): (bool, Breaker) {
    match b.state
    case Closed => (true, b)
    case Open => if now - b.openedAt >= OPEN_DURATION then (true, b.(state := HalfOpen, probes := 0)) else (false, b)
    case HalfOpen => if b.probes < HALF_OPEN_PROBES then (true, b.(probes := b.probes + 1)) else (false, b)
  }

  /** `countsEmpty`: an empty pool is a failure for Grok and CodeBuddy, not for Cloudflare. */
  function Checked(b: Breaker, result: CheckResult, countsEmpty: bool, now: int): Breaker {
    match result
    case NoAccounts => if countsEmpty then Failed(b, now) else b
    case AllDisabled => b
    case TransportError => Failed(b, now)
    case Status(code) => if StatusOK(code) then Succeeded(b, false) else Failed(b, now)
  }

  class UpstreamHealth {
    var state: CircuitState
    var consecutiveErrs: int
    var openedAt: int
    var halfOpenProbes: int
    var totalRequests: int
    var totalErrors: int
    var totalLatencyMs: int
    var lastCheckOK: bool

    function Value(): Breaker
      reads this
    {
      Breaker(state, consecutiveErrs, openedAt, halfOpenProbes)
    }

    constructor ()
      ensures Value() == FRESH && totalRequests == totalErrors == totalLatencyMs == 0 && !lastCheckOK
    {
      state, consecutiveErrs, openedAt, halfOpenProbes := Closed, 0, 0, 0;
      totalRequests, totalErrors, totalLatencyMs, lastCheckOK := 0, 0, 0, false;
    }

    method RecordRequest(latencyMs: int, isErr: bool, now: int)
      modifies this
      ensures Value() == if isErr then Failed(old(Value()), now) else Succeeded(old(Value()), true)
      ensures !isErr && old(state) == HalfOpen ==> Value() == Breaker(Closed, 0, old(openedAt), 0)
      ensures totalRequests == old(totalRequests) + 1 && totalLatencyMs == old(totalLatencyMs) + latencyMs
      ensures totalErrors == old(totalErrors) + (if isErr then 1 else 0)
      ensures lastCheckOK == old(lastCheckOK)
    {
      totalRequests := totalRequests + 1;
      totalLatencyMs := totalLatencyMs + latencyMs;
      if isErr {
        totalErrors := totalErrors + 1;
        consecutiveErrs := consecutiveErrs + 1;
        if consecutiveErrs >= OPEN_THRESHOLD && state == Closed {
          state := Open;
          openedAt := now;
        }
      } else {
        if state == HalfOpen {
          state := Closed;
          consecutiveErrs := 0;
          halfOpenProbes := 0;
        } else if state == Closed {
          consecutiveErrs := 0;
        }
      }
    }

    method CanRequest(now: int) returns (ok: bool)
      modifies this`state, this`halfOpenProbes
      ensures (ok, Value()) == Asked(old(Value()), now)
    {
      match state
      case Closed => return true;
      case Open =>
        if now - openedAt >= OPEN_DURATION {
          state := HalfOpen;
          halfOpenProbes := 0;
          return true;
        }
        return false;
      case HalfOpen =>
        if halfOpenProbes < HALF_OPEN_PROBES {
          halfOpenProbes := halfOpenProbes + 1;
          return true;
        }
        return false;
    }

    /** The state update of checkGrok, checkCB and checkCF once the probe has ended. */
    method Check(result: CheckResult, countsEmpty: bool, now: int)
      modifies this`state, this`consecutiveErrs, this`openedAt, this`lastCheckOK
      ensures Value() == Checked(old(Value()), result, countsEmpty, now)
      ensures lastCheckOK == (result.Status? && StatusOK(result.code))
    {
      match result {
        case NoAccounts =>
          lastCheckOK := false;
          if countsEmpty {
            CountError(now);
          }
        case AllDisabled =>
          lastCheckOK := false;
        case TransportError =>
          lastCheckOK := false;
          CountError(now);
        case Status(code) =>
          lastCheckOK := StatusOK(code);
          if lastCheckOK {
            if state == HalfOpen {
              state := Closed;
              consecutiveErrs := 0;
            } else if state == Closed {
              consecutiveErrs := 0;
            }
          } else {
            CountError(now);
          }
      }
    }

    method CountError(now: int)
      modifies this`state, this`consecutiveErrs, this`openedAt
      ensures Value() == Failed(old(Value()), now)
    {
      consecutiveErrs := consecutiveErrs + 1;
      if consecutiveErrs >= OPEN_THRESHOLD && state == Closed {
        state := Open;
        openedAt := now;
      }
    }
  }

  // ---- runs --------------------------------------------------------------------------------

  datatype Event =
    | Request(isErr: bool, at: int)
    | Ask(at: int)
    | Probe(result: CheckResult, countsEmpty: bool, at: int)

  function Step(b: Breaker, e: Event): Breaker {
    match e
    case Request(isErr, at) => if isErr then Failed(b, at) else Succeeded(b, true)
    case Ask(at) => Asked(b, at).1
    case Probe(result, countsEmpty, at) => Checked(b, result, countsEmpty, at)
  }

  function Run(run: seq<Event>): Breaker {
    if run == [] then FRESH else Step(Run(Init(run)), Last(run))
  }

  /** A failed request, a probe without an answer or with a status outside 200–399, or an empty pool
      where that counts. */
  predicate IsFailure(e: Event) {
    || (e.Request? && e.isErr)
    || (e.Probe? && match e.result
                    case NoAccounts => e.countsEmpty
                    case AllDisabled => false
                    case TransportError => true
                    case Status(code) => code < 200 || code >= 400)
  }

  predicate IsSuccess(e: Event) {
    (e.Request? && !e.isErr) || (e.Probe? && e.result.Status? && 200 <= e.result.code < 400)
  }

  /** Event i of the run is an admission that was granted. */
  predicate Admitted(run: seq<Event>, i: nat)
    requires i < |run|
  {
    run[i].Ask? && Asked(Run(run[..i]), run[i].at).0
  }

  /** Event i opened the circuit. */
  predicate Opened(run: seq<Event>, i: nat)
    requires i < |run|
  {
    Run(run[..i]).state == Closed && Run(run[..i + 1]).state == Open
  }

  ghost predicate Monotone(run: seq<Event>) {
    forall i, j | 0 <= i <= j < |run| :: run[i].at <= run[j].at
  }

  /** Failures recorded after the last recorded success. */
  function Trailing(run: seq<Event>): nat {
    if run == [] || IsSuccess(Last(run)) then 0
    else Trailing(Init(run)) + (if IsFailure(Last(run)) then 1 else 0)
  }

  /** While the circuit is closed, its error count is the history's, and below the threshold. */
  lemma {:induction false} ClosedCounts(run: seq<Event>)
    ensures Run(run).state == Closed ==> Run(run).errs == Trailing(run) < 5
  {
    if run != [] {
      ClosedCounts(Init(run));
    }
  }

  lemma RunAt(run: seq<Event>, i: nat)
    requires i < |run|
    ensures Run(run[..i + 1]) == Step(Run(run[..i]), run[i])
  {
    assert Init(run[..i + 1]) == run[..i];
  }

  /** The circuit opens exactly at a failure that, closed, is the fifth since the last success. */
  lemma OpensExactly(run: seq<Event>, i: nat)
    requires i < |run|
    ensures Opened(run, i) <==>
            Run(run[..i]).state == Closed && IsFailure(run[i]) && Trailing(run[..i + 1]) == 5
  {
    RunAt(run, i);
    ClosedCounts(run[..i]);
    assert Init(run[..i + 1]) == run[..i];
  }

  function FailuresFrom(run: seq<Event>, from: nat): set<int> {
    set i | from <= i < |run| && IsFailure(run[i])
  }

  /** Trailing failures really are failures with no success among or after them. */
  lemma {:induction false} TrailingWitness(run: seq<Event>) returns (from: nat)
    ensures from <= |run|
    ensures forall i | from <= i < |run| :: !IsSuccess(run[i])
    ensures Trailing(run) == |FailuresFrom(run, from)|
    ensures from > 0 ==> IsSuccess(run[from - 1])
  {
    if run == [] || IsSuccess(Last(run)) {
      from := |run|;
      NoneLeft(run);
    } else {
      var pre := Init(run);
      from := TrailingWitness(pre);
      OneMoreFailure(run, from);
    }
  }

  lemma OneMoreFailure(run: seq<Event>, from: nat)
    requires from < |run|
    ensures |FailuresFrom(run, from)| == |FailuresFrom(Init(run), from)| + (if IsFailure(Last(run)) then 1 else 0)
  {
    hide IsFailure;
    if IsFailure(Last(run)) {
      assert FailuresFrom(run, from) == FailuresFrom(Init(run), from) + {|run| - 1};
    } else {
      assert FailuresFrom(run, from) == FailuresFrom(Init(run), from);
    }
  }

  lemma NoneLeft(run: seq<Event>)
    ensures FailuresFrom(run, |run|) == {}
  {
  }

  // ---- after an opening --------------------------------------------------------------------

  /** Within the open duration of an opening the circuit stays open, with the same opening time. */
  lemma {:induction false} StaysOpen(run: seq<Event>, i: nat, n: nat)
    requires Monotone(run) && i < n <= |run| && Opened(run, i)
    requires forall k | i <= k < n :: run[k].at - run[i].at < OPEN_DURATION
    ensures Run(run[..n]).state == Open && Run(run[..n]).openedAt == run[i].at
  {
    hide Step, Run;
    RunAt(run, n - 1);
    if n - 1 > i {
      StaysOpen(run, i, n - 1);
      StillOpen(Run(run[..n - 1]), run[n - 1]);
    } else {
      JustOpened(Run(run[..i]), run[i]);
    }
  }

  lemma StillOpen(b: Breaker, e: Event)
    requires b.state == Open && e.at - b.openedAt < OPEN_DURATION
    ensures Step(b, e).state == Open && Step(b, e).openedAt == b.openedAt
  {
  }

  lemma JustOpened(b: Breaker, e: Event)
    requires b.state == Closed && Step(b, e).state == Open
    ensures Step(b, e).openedAt == e.at
  {
  }

  /** Nothing is admitted within the open duration of an opening. */
  lemma NoneAdmittedWhileOpen(run: seq<Event>, i: nat, j: nat)
    requires Monotone(run) && i < j < |run| && Opened(run, i)
    requires run[j].at - run[i].at < 60_000_000_000
    ensures !Admitted(run, j)
  {
    assert forall k | i <= k < j :: run[k].at <= run[j].at;
    StaysOpen(run, i, j);
  }

  /** Admissions granted by the events from i on, up to n. */
  function Grants(run: seq<Event>, i: nat, n: nat): nat
    requires i <= n <= |run|
  {
    if n == i then 0 else Grants(run, i, n - 1) + (if Admitted(run, n - 1) then 1 else 0)
  }

  /** Until the next closing, exactly the half-open transition and its probes are admitted. */
  lemma {:induction false} GrantsSinceOpening(run: seq<Event>, i: nat, n: nat)
    requires i < n <= |run| && Opened(run, i)
    requires forall k | i < k <= n :: Run(run[..k]).state != Closed
    ensures var b := Run(run[..n]);
            && 0 <= (if b.state == HalfOpen then b.probes else 0) <= HALF_OPEN_PROBES
            && Grants(run, i + 1, n) == if b.state == Open then 0 else 1 + b.probes
  {
    RunAt(run, n - 1);
    if n - 1 > i {
      GrantsSinceOpening(run, i, n - 1);
    }
  }

  /** At most two requests, the transition and one probe, are admitted between an opening and the next closing. */
  lemma GrantsBound(run: seq<Event>, i: nat, n: nat)
    requires i < n <= |run| && Opened(run, i)
    requires forall k | i < k <= n :: Run(run[..k]).state != Closed
    ensures Grants(run, i + 1, n) <= 2
  {
    GrantsSinceOpening(run, i, n);
  }

  /** A half-open circuit with its probe spent does not reopen and does not admit: only a success,
      of a request or of an active probe, gets it out. */
  lemma {:induction false} SpentUntilSuccess(run: seq<Event>, i: nat, n: nat)
    requires i <= n <= |run|
    requires Run(run[..i]).state == HalfOpen && Run(run[..i]).probes >= HALF_OPEN_PROBES
    requires forall k | i <= k < n :: !IsSuccess(run[k])
    ensures Run(run[..n]).state == HalfOpen && Run(run[..n]).probes >= HALF_OPEN_PROBES
    ensures forall k | i <= k < n :: !Admitted(run, k)
  {
    if n > i {
      SpentUntilSuccess(run, i, n - 1);
      RunAt(run, n - 1);
    }
  }

  lemma RunSnoc(run: seq<Event>, e: Event)
    ensures Run(run + [e]) == Step(Run(run), e)
  {
    assert Init(run + [e]) == run;
  }

  /** n failed requests at time 0. */
  function Failures(n: nat): seq<Event> {
    if n == 0 then [] else Failures(n - 1) + [Request(true, 0)]
  }

  lemma {:induction false} FailuresCount(n: nat)
    requires n <= OPEN_THRESHOLD
    ensures Run(Failures(n)) == Breaker(if n == OPEN_THRESHOLD then Open else Closed, n, 0, 0)
  {
    if n > 0 {
      FailuresCount(n - 1);
      RunSnoc(Failures(n - 1), Request(true, 0));
    }
  }

  /** A probe that fails: five failures, the half-open transition, its one probe, and that fails too.
      The circuit is still half-open and admits nothing, however long one waits. */
  lemma FailedProbeStays()
    ensures var minute := 60_000_000_000;
            var run := Failures(5) + [Ask(minute)] + [Ask(minute)] + [Request(true, minute)];
            Run(run).state == HalfOpen && forall now :: !Asked(Run(run), now).0
  {
    FailuresCount(5);
    RunSnoc(Failures(5), Ask(OPEN_DURATION));
    RunSnoc(Failures(5) + [Ask(OPEN_DURATION)], Ask(OPEN_DURATION));
    RunSnoc(Failures(5) + [Ask(OPEN_DURATION)] + [Ask(OPEN_DURATION)], Request(true, OPEN_DURATION));
  }

  /** The circuit closes exactly when a success is recorded half-open. */
  lemma ClosesExactly(run: seq<Event>, i: nat)
    requires i < |run|
    ensures Run(run[..i]).state != Closed && Run(run[..i + 1]).state == Closed <==>
            Run(run[..i]).state == HalfOpen && IsSuccess(run[i])
  {
    RunAt(run, i);
  }

  // ---- when a request gets through ---------------------------------------------------------

  /** Event i took the circuit from open to half-open. */
  predicate HalfOpened(run: seq<Event>, i: nat)
    requires i < |run|
  {
    Run(run[..i]).state == Open && Run(run[..i + 1]).state == HalfOpen
  }

  ghost predicate LastOpening(run: seq<Event>, i: nat, j: int)
    requires i <= |run|
  {
    0 <= j < i && Opened(run, j) && forall k | j < k < i :: !Opened(run, k)
  }

  ghost predicate LastHalfOpening(run: seq<Event>, i: nat, j: int)
    requires i <= |run|
  {
    0 <= j < i && HalfOpened(run, j) && forall k | j < k < i :: !HalfOpened(run, k)
  }

  /** An open circuit carries the time of its last opening, a half-open one the number of admissions
      since the transition. */
  lemma {:induction false} Remembers(run: seq<Event>, n: nat) returns (j: int)
    requires n <= |run|
    ensures Run(run[..n]).state == Open ==> LastOpening(run, n, j) && Run(run[..n]).openedAt == run[j].at
    ensures Run(run[..n]).state == HalfOpen ==>
              LastHalfOpening(run, n, j) && Run(run[..n]).probes == Grants(run, j + 1, n)
  {
    hide Run;
    if n > 0 {
      j := Remembers(run, n - 1);
      RunAt(run, n - 1);
      if Run(run[..n]).state != Run(run[..n - 1]).state {
        j := n - 1;
        assert Grants(run, n, n) == 0;
      }
    } else {
      j := -1;
      NewCircuit(run);
    }
  }

  /** Exactly when a request gets through: closed; open, a minute or more after the last opening; or
      half-open, with nothing admitted since the transition. */
  lemma AdmittedIff(run: seq<Event>, i: nat)
    requires i < |run| && run[i].Ask?
    ensures Admitted(run, i) <==>
            match Run(run[..i]).state
            case Closed => true
            case Open => exists j :: LastOpening(run, i, j) && run[i].at - run[j].at >= 60_000_000_000
            case HalfOpen => exists j :: LastHalfOpening(run, i, j) && forall k | j < k < i :: !Admitted(run, k)
  {
    hide Run, Admitted, LastOpening, LastHalfOpening;
    var w := Remembers(run, i);
    AnswerOf(run, i);
    match Run(run[..i]).state
    case Closed =>
    case Open =>
      forall j | LastOpening(run, i, j) ensures j == w {
        OneOpening(run, i, j, w);
      }
    case HalfOpen =>
      forall j | LastHalfOpening(run, i, j) ensures j == w {
        OneHalfOpening(run, i, j, w);
      }
      InRange(run, i, w);
      NoGrants(run, w + 1, i);
  }

  lemma InRange(run: seq<Event>, i: nat, j: int)
    requires i <= |run| && LastHalfOpening(run, i, j)
    ensures 0 <= j < i
  {
  }

  lemma AnswerOf(run: seq<Event>, i: nat)
    requires i < |run| && run[i].Ask?
    ensures var b := Run(run[..i]);
            Admitted(run, i) <==> b.state == Closed || (b.state == Open && run[i].at - b.openedAt >= 60_000_000_000)
                                                    || (b.state == HalfOpen && b.probes < 1)
  {
    hide Run;
  }

  lemma OneOpening(run: seq<Event>, i: nat, j: int, k: int)
    requires i <= |run| && LastOpening(run, i, j) && LastOpening(run, i, k)
    ensures j == k
  {
    hide Opened;
  }

  lemma OneHalfOpening(run: seq<Event>, i: nat, j: int, k: int)
    requires i <= |run| && LastHalfOpening(run, i, j) && LastHalfOpening(run, i, k)
    ensures j == k
  {
    hide HalfOpened;
  }

  lemma {:induction false} NoGrants(run: seq<Event>, from: nat, n: nat)
    requires from <= n <= |run|
    ensures Grants(run, from, n) == 0 <==> forall k | from <= k < n :: !Admitted(run, k)
  {
    hide Admitted;
    if n > from {
      NoGrants(run, from, n - 1);
    }
  }

  /** The states themselves, from the events: the circuit starts closed, opens at the fifth failure since
      the last success, half-opens at a request a minute or more after the opening, closes at a success
      while half-open, and stays as it is at every other event. */
  lemma StateAfter(run: seq<Event>, i: nat)
    requires i < |run|
    ensures Run([]).state == Closed
    ensures Run(run[..i + 1]).state ==
            match Run(run[..i]).state
            case Closed => if IsFailure(run[i]) && Trailing(run[..i + 1]) == 5 then Open else Closed
            case Open => if run[i].Ask? && Admitted(run, i) then HalfOpen else Open
            case HalfOpen => if IsSuccess(run[i]) then Closed else HalfOpen
  {
    RunAt(run, i);
    ClosedCounts(run[..i]);
    assert Init(run[..i + 1]) == run[..i];
  }

  /** Without five failures in a row no request is refused. */
  lemma {:induction false} CalmAdmits(run: seq<Event>, n: nat)
    requires n <= |run| && forall j | 0 <= j <= n :: Trailing(run[..j]) < 5
    ensures Run(run[..n]).state == Closed
    ensures n < |run| && run[n].Ask? ==> Admitted(run, n)
  {
    hide Run, Admitted, Trailing;
    if n > 0 {
      CalmAdmits(run, n - 1);
      StateAfter(run, n - 1);
      assert Trailing(run[..n]) < 5;
    } else {
      NewCircuit(run);
    }
    if n < |run| && run[n].Ask? {
      AdmittedIff(run, n);
    }
  }

  lemma NewCircuit(run: seq<Event>)
    ensures Run(run[..0]).state == Closed
  {
  }

  /** Nor before the circuit has opened. */
  lemma {:induction false} UnopenedAdmits(run: seq<Event>, n: nat)
    requires n <= |run| && forall j | 0 <= j < n :: !Opened(run, j)
    ensures Run(run[..n]).state == Closed
    ensures n < |run| && run[n].Ask? ==> Admitted(run, n)
  {
    hide Run, Admitted, Trailing;
    if n > 0 {
      UnopenedAdmits(run, n - 1);
      StateAfter(run, n - 1);
      assert !Opened(run, n - 1);
    } else {
      NewCircuit(run);
    }
    if n < |run| && run[n].Ask? {
      AdmittedIff(run, n);
    }
  }
}
