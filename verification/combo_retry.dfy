/** The retry chain of a combo request, in the handler of internal/proxy/proxy.go: which candidates are
    tried, what each of them is sent, and which buffered answer reaches the client. */
module ComboRetry {
  import opened Combos
  import opened Seqs

  // ---- the buffered writer -------------------------------------------------------------------

  type Headers = map<string, seq<string>>

  /** What an upstream does to the writer it is given. */
  datatype Call = PutHeader(key: string, values: seq<string>) | WriteHeader(code: int) | Write(data: string)

  datatype Buffer = Buffer(status: int, headers: Headers, body: string, written: bool)

  /** What has been handed to the client's writer; no status until one was set. */
  datatype Reply = Reply(status: Option<int>, headers: Headers, body: string)

  const EMPTY_BUFFER := Buffer(200, map[], "", false)

  function Capture(b: Buffer, c: Call): Buffer {
    match c
    case PutHeader(key, values) => b.(headers := b.headers[key := values])
    case WriteHeader(code) => if b.written then b else b.(status := code, written := true)
    case Write(data) => b.(body := b.body + data, written := true)
  }

  function Captured(calls: seq<Call>): Buffer {
    if calls == [] then EMPTY_BUFFER else Capture(Captured(Init(calls)), Last(calls))
  }

  predicate Speaks(c: Call) {
    c.WriteHeader? || c.Write?
  }

  /** The captured status is the code of the first call that speaks, and 200 if that is a write or there
      is none. */
  lemma {:induction false} StatusIs(calls: seq<Call>, p: nat)
    requires p <= |calls| && (forall j | 0 <= j < p :: !Speaks(calls[j])) && (p < |calls| ==> Speaks(calls[p]))
    ensures Captured(calls).status == if p < |calls| && calls[p].WriteHeader? then calls[p].code else 200
    ensures Captured(calls).written <==> p < |calls|
  {
    if calls != [] {
      StatusIs(Init(calls), if p == |calls| then p - 1 else p);
    }
  }

  function Values(h: Headers, key: string): seq<string> {
    if key in h then h[key] else []
  }

  function Carrying(h: Headers): set<string> {
    set key | key in h && h[key] != []
  }

  /** Both sides' values of every header, the ones already there first. */
  function Merged(base: Headers, more: Headers): Headers {
    map key | key in base.Keys + Carrying(more) :: Values(base, key) + Values(more, key)
  }

  function Flushed(r: Reply, b: Buffer): Reply {
    Reply(Some(b.status), Merged(r.headers, b.headers), r.body + b.body)
  }

  class Client {
    var headers: Headers
    var status: Option<int>
    var body: string

    constructor (headers: Headers)
      ensures Value() == Reply(None, headers, "")
    {
      this.headers, this.status, this.body := headers, None, "";
    }

    ghost function Value(): Reply
      reads this
    {
      Reply(status, headers, body)
    }

    method AddAll(key: string, values: seq<string>)
      modifies this`headers
      ensures headers == if values == [] then old(headers) else old(headers)[key := Values(old(headers), key) + values]
    {
      for i := 0 to |values|
        invariant headers == if i == 0 then old(headers) else old(headers)[key := Values(old(headers), key) + values[..i]]
      {
        headers := headers[key := Values(headers, key) + [values[i]]];
        assert values[..i + 1] == values[..i] + [values[i]];
        PlusAssoc(Values(old(headers), key), values[..i], [values[i]]);
        assert i == 0 ==> Values(old(headers), key) + values[..i] == Values(old(headers), key);
        assert headers == old(headers)[key := Values(old(headers), key) + values[..i + 1]];
      }
      assert values[..|values|] == values;
    }
  }

  /** One header more has been copied. */
  lemma MergedAt(base: Headers, more: Headers, key: string)
    ensures key in Merged(base, more) <==> key in base || (key in more && more[key] != [])
    ensures Values(Merged(base, more), key) == Values(base, key) + Values(more, key)
  {
    assert key !in base && key !in more ==> Values(base, key) + Values(more, key) == [];
  }

  lemma SameHeaders(a: Headers, b: Headers)
    requires forall key :: (key in a <==> key in b) && Values(a, key) == Values(b, key)
    ensures a == b
  {
    forall key | key in a ensures key in b && a[key] == b[key] {
      assert Values(a, key) == Values(b, key);
    }
    assert a.Keys == b.Keys;
  }

  lemma MergedNone(base: Headers)
    ensures Merged(base, map[]) == base
  {
    hide Merged;
    forall key ensures (key in Merged(base, map[]) <==> key in base) && Values(Merged(base, map[]), key) == Values(base, key) {
      MergedAt(base, map[], key);
      assert Values(base, key) + [] == Values(base, key);
    }
    SameHeaders(Merged(base, map[]), base);
  }

  /** One header more has been copied. */
  lemma MergedNext(base: Headers, more: Headers, rest: set<string>, key: string)
    requires key in rest && rest <= more.Keys
    ensures var done, next := Merged(base, more - rest), Merged(base, more - (rest - {key}));
            next == if more[key] == [] then done else done[key := Values(done, key) + more[key]]
  {
    hide Merged;
    var done, next := Merged(base, more - rest), Merged(base, more - (rest - {key}));
    var wanted := if more[key] == [] then done else done[key := Values(done, key) + more[key]];
    forall k ensures (k in next <==> k in wanted) && Values(next, k) == Values(wanted, k) {
      MergedAt(base, more - rest, k);
      MergedAt(base, more - (rest - {key}), k);
      LessOne(more, rest, key, k);
      assert Values(base, k) + [] == Values(base, k);
    }
    SameHeaders(next, wanted);
  }

  lemma LessOne(more: Headers, rest: set<string>, key: string, k: string)
    requires key in rest && rest <= more.Keys
    ensures k != key ==> (k in more - (rest - {key}) <==> k in more - rest)
    ensures k != key ==> Values(more - (rest - {key}), k) == Values(more - rest, k)
    ensures key in more - (rest - {key}) && Values(more - (rest - {key}), key) == more[key]
    ensures key !in more - rest && Values(more - rest, key) == []
  {
  }

  class BufferedWriter {
    const target: Client
    var status: int
    var headers: Headers
    var buf: string
    var written: bool

    constructor (target: Client)
      ensures this.target == target && Value() == EMPTY_BUFFER
    {
      this.target := target;
      status, headers, buf, written := 200, map[], "", false;
    }

    ghost function Value(): Buffer
      reads this
    {
      Buffer(status, headers, buf, written)
    }

    /** One call of the upstream: headers stay pending, the first status wins, bytes are appended. */
    method Do(c: Call)
      modifies this
      ensures Value() == Capture(old(Value()), c)
    {
      match c {
        case PutHeader(key, values) => headers := headers[key := values];
        case WriteHeader(code) =>
          if written {
            return;
          }
          status := code;
          written := true;
        case Write(data) =>
          if !written {
            written := true;
          }
          buf := buf + data;
      }
    }

    /** Copies what was captured onto the real writer: headers are added to those already there. */
    method Flush()
      modifies target
      ensures target.Value() == Flushed(old(target.Value()), Value())
    {
      hide Merged;
      var rest := headers.Keys;
      assert headers - rest == map[];
      MergedNone(target.headers);
      while rest != {}
        invariant rest <= headers.Keys
        invariant target.Value() == old(target.Value()).(headers := Merged(old(target.headers), headers - rest))
        decreases |rest|
      {
        var key :| key in rest;
        MergedNext(old(target.headers), headers, rest, key);
        target.AddAll(key, headers[key]);
        rest := rest - {key};
      }
      assert headers - {} == headers;
      target.status := Some(status);
      if |buf| > 0 {
        target.body := target.body + buf;
      }
    }
  }

  // ---- what a candidate is sent --------------------------------------------------------------

  datatype Custom = Custom(upstream: string, name: string)

  /** Aliases and custom models; both empty stand for no registry. */
  datatype Registry = Registry(aliases: map<string, string>, models: map<string, Custom>)

  datatype Route = Route(model: string, upstream: string, name: string)

  /** One hop through the aliases, then the custom models. */
  function Lookup(reg: Registry, model: string): Route {
    var m := if model in reg.aliases && reg.aliases[model] != "" then reg.aliases[model] else model;
    if m in reg.models then Route(m, reg.models[m].upstream, reg.models[m].name) else Route(m, "", "")
  }

  function AliasEffort(model: string): Option<string> {
    match model
    case "grok-4.5-high" => Some("high")
    case "grok-4.5-xhigh" => Some("high")
    case "grok-4.5-medium" => Some("medium")
    case "grok-4.5-low" => Some("low")
    case "grok-4.5-auto" => Some("auto")
    case "grok-4.5-none" => Some("none")
    case _ => None
  }

  /** The effort a route stands for; a custom model stands for itself. */
  function OwnEffort(route: Route): Option<string> {
    if route.upstream == "" then AliasEffort(route.model) else None
  }

  /** What an upstream gets: the route and the effort in the body. */
  datatype Sent = Sent(route: Route, effort: Option<string>)

  /** The effort is filled in unless the body has one, or a reasoning field. */
  function Prepared(route: Route, effort: Option<string>, reasoning: bool): Sent {
    if OwnEffort(route).None? then Sent(route, effort)
    else Sent(route.(model := "grok-4.5"), if effort.None? && !reasoning then OwnEffort(route) else effort)
  }

  /** The effort in the body after n candidates; one body serves them all. */
  function EffortAfter(reg: Registry, models: seq<string>, effort: Option<string>, reasoning: bool, n: nat): Option<string>
    requires n <= |models|
  {
    if n == 0 then effort
    else Prepared(Lookup(reg, models[n - 1]), EffortAfter(reg, models, effort, reasoning, n - 1), reasoning).effort
  }

  function SentAt(reg: Registry, models: seq<string>, effort: Option<string>, reasoning: bool, i: nat): Sent
    requires i < |models|
  {
    Prepared(Lookup(reg, models[i]), EffortAfter(reg, models, effort, reasoning, i), reasoning)
  }

  /** The first effort any of the candidates stands for. */
  function FirstEffort(reg: Registry, models: seq<string>): Option<string> {
    if models == [] then None
    else if FirstEffort(reg, Init(models)).Some? then FirstEffort(reg, Init(models))
    else OwnEffort(Lookup(reg, Last(models)))
  }

  lemma {:induction false} EffortAfterIs(reg: Registry, models: seq<string>, effort: Option<string>, reasoning: bool, n: nat)
    requires n <= |models|
    ensures EffortAfter(reg, models, effort, reasoning, n)
         == if effort.Some? || reasoning then effort else FirstEffort(reg, models[..n])
  {
    hide AliasEffort, Lookup;
    if n > 0 {
      EffortAfterIs(reg, models, effort, reasoning, n - 1);
      assert Init(models[..n]) == models[..n - 1] && Last(models[..n]) == models[n - 1];
    }
  }

  lemma {:induction false} FirstEffortCons(reg: Registry, pick: string, models: seq<string>)
    ensures FirstEffort(reg, [pick] + models)
         == if OwnEffort(Lookup(reg, pick)).Some? then OwnEffort(Lookup(reg, pick)) else FirstEffort(reg, models)
  {
    hide AliasEffort, Lookup;
    if models == [] {
      assert [pick] + models == [pick] && Init([pick]) == [];
    } else {
      FirstEffortCons(reg, pick, Init(models));
      assert Init([pick] + models) == [pick] + Init(models);
    }
  }

  /** The effort a candidate is sent: the client's own, or else the first that the resolved model or any
      candidate up to this one stands for. */
  lemma CandidateEffort(reg: Registry, pick: string, models: seq<string>, effort: Option<string>, reasoning: bool, i: nat)
    requires i < |models|
    ensures var first := Prepared(Lookup(reg, pick), effort, reasoning).effort;
            SentAt(reg, models, first, reasoning, i).effort
            == if effort.Some? || reasoning then effort else FirstEffort(reg, [pick] + models[..i + 1])
  {
    hide AliasEffort, Lookup;
    var first := Prepared(Lookup(reg, pick), effort, reasoning).effort;
    EffortAfterIs(reg, models, first, reasoning, i + 1);
    FirstEffortCons(reg, pick, models[..i + 1]);
  }

  /** Without an effort of the client's, a candidate is sent its own exactly if none before it, the
      resolved model included, stands for another. */
  lemma OwnEffortIff(reg: Registry, pick: string, models: seq<string>, i: nat)
    requires i < |models|
    ensures var first := Prepared(Lookup(reg, pick), None, false).effort;
            var own, earlier := OwnEffort(Lookup(reg, models[i])), FirstEffort(reg, [pick] + models[..i]);
            SentAt(reg, models, first, false, i).effort == own <==> earlier in {None, own}
  {
    hide AliasEffort, Lookup;
    CandidateEffort(reg, pick, models, None, false, i);
    var upTo := [pick] + models[..i + 1];
    assert Init(upTo) == [pick] + models[..i] && Last(upTo) == models[i];
  }

  /** The second candidate asks for little effort, the third for none of it: both are sent the first's. */
  lemma EffortSticks()
    ensures var reg, models := Registry(map[], map[]), ["grok-4.5-high", "grok-4.5-low", "cb/gpt-5.5"];
            var first := Prepared(Lookup(reg, models[0]), None, false).effort;
            && SentAt(reg, models, first, false, 1) == Sent(Route("grok-4.5", "", ""), Some("high"))
            && SentAt(reg, models, first, false, 2) == Sent(Route("cb/gpt-5.5", "", ""), Some("high"))
  {
    var reg, models := Registry(map[], map[]), ["grok-4.5-high", "grok-4.5-low", "cb/gpt-5.5"];
    var first := Prepared(Lookup(reg, models[0]), None, false).effort;
    assert "cb/gpt-5.5"[0] != "grok-4.5"[0];
    EffortAfterIs(reg, models, first, false, 1);
    EffortAfterIs(reg, models, first, false, 2);
  }

  // ---- where the chain stops -----------------------------------------------------------------

  /** Statuses that make the loop go on: server errors, and a model the upstream no longer has. */
  predicate Retried(status: int) {
    status >= 500 || status == 404
  }

  /** The last position tried, given what each candidate would answer. */
  function LastTry(statuses: seq<int>): (k: nat)
    requires statuses != []
    ensures k < |statuses|
  {
    if |statuses| == 1 || !Retried(statuses[0]) then 0 else 1 + LastTry(statuses[1..])
  }

  /** It is the first whose status is final, and the last of all if there is none. */
  lemma {:induction false} LastTryIs(statuses: seq<int>, k: nat)
    requires k < |statuses|
    ensures LastTry(statuses) == k <==>
            && (forall i | 0 <= i < k :: statuses[i] >= 500 || statuses[i] == 404)
            && (k == |statuses| - 1 || (statuses[k] < 500 && statuses[k] != 404))
  {
    if |statuses| > 1 && Retried(statuses[0]) && k > 0 {
      var rest := statuses[1..];
      LastTryIs(rest, k - 1);
      assert rest[k - 1] == statuses[k];
      assert forall i | 0 <= i < k - 1 :: rest[i] == statuses[i + 1];
      if forall i | 0 <= i < k - 1 :: rest[i] >= 500 || rest[i] == 404 {
        forall i | 0 <= i < k ensures statuses[i] >= 500 || statuses[i] == 404 {
          assert i > 0 ==> statuses[i] == rest[i - 1];
        }
      }
    }
  }

  /** The client sees a status that would have been retried exactly if every candidate answers with one. */
  lemma FailsIff(statuses: seq<int>)
    requires statuses != []
    ensures statuses[LastTry(statuses)] >= 500 || statuses[LastTry(statuses)] == 404 <==>
            forall i | 0 <= i < |statuses| :: statuses[i] >= 500 || statuses[i] == 404
  {
    LastTryIs(statuses, LastTry(statuses));
  }

  /** What the upstreams do to the writer: at that position of the list, on that request. */
  type Upstreams = (nat, Sent) -> seq<Call>

  function Statuses(reg: Registry, models: seq<string>, effort: Option<string>, reasoning: bool, ups: Upstreams): (r: seq<int>)
    ensures |r| == |models|
    ensures forall i | 0 <= i < |models| :: r[i] == Captured(ups(i, SentAt(reg, models, effort, reasoning, i))).status
  {
    seq(|models|, i requires 0 <= i < |models| => Captured(ups(i, SentAt(reg, models, effort, reasoning, i))).status)
  }

  /** The tries of a chain: each position up to the last one, once and in order. */
  ghost predicate Tries(reg: Registry, models: seq<string>, effort: Option<string>, reasoning: bool, ups: Upstreams,
                        tries: seq<Sent>)
  {
    && |tries| == (if models == [] then 0 else LastTry(Statuses(reg, models, effort, reasoning, ups)) + 1)
    && forall i | 0 <= i < |tries| :: tries[i] == SentAt(reg, models, effort, reasoning, i)
  }

  /** The answer of the last try alone, on top of what was there. */
  function Answered(ups: Upstreams, tries: seq<Sent>, before: Reply): Reply {
    if tries == [] then before else Flushed(before, Captured(ups(|tries| - 1, Last(tries))))
  }

  lemma SentNow(reg: Registry, models: seq<string>, effort: Option<string>, reasoning: bool, i: nat)
    requires i < |models|
    ensures Prepared(Lookup(reg, models[i]), EffortAfter(reg, models, effort, reasoning, i), reasoning)
         == SentAt(reg, models, effort, reasoning, i)
    ensures SentAt(reg, models, effort, reasoning, i).effort == EffortAfter(reg, models, effort, reasoning, i + 1)
  {
    hide Prepared;
  }

  method Dispatch(bw: BufferedWriter, calls: seq<Call>)
    requires bw.Value() == EMPTY_BUFFER
    modifies bw
    ensures bw.Value() == Captured(calls)
  {
    for i := 0 to |calls|
      invariant bw.Value() == Captured(calls[..i])
    {
      bw.Do(calls[i]);
      assert Init(calls[..i + 1]) == calls[..i];
    }
    assert calls[..|calls|] == calls;
  }

  /** All candidates so far were tried, and failed. */
  ghost predicate Failing(reg: Registry, models: seq<string>, effort: Option<string>, reasoning: bool, ups: Upstreams,
                          tries: seq<Sent>)
  {
    && |tries| <= |models|
    && forall i | 0 <= i < |tries| ::
         tries[i] == SentAt(reg, models, effort, reasoning, i) && Retried(Statuses(reg, models, effort, reasoning, ups)[i])
  }

  /** One more try: the chain goes on if its status is retried and the list has not ended. */
  lemma NextTry(reg: Registry, models: seq<string>, effort: Option<string>, reasoning: bool, ups: Upstreams,
                tries: seq<Sent>, sent: Sent)
    requires Failing(reg, models, effort, reasoning, ups, tries) && |tries| < |models|
    requires sent == SentAt(reg, models, effort, reasoning, |tries|)
    ensures var more, goes := tries + [sent], Retried(Captured(ups(|tries|, sent)).status);
            && (goes ==> Failing(reg, models, effort, reasoning, ups, more))
            && (!goes || |more| == |models| ==> Tries(reg, models, effort, reasoning, ups, more))
  {
    hide Captured, SentAt, LastTry;
    LastTryIs(Statuses(reg, models, effort, reasoning, ups), |tries|);
  }

  lemma NoTries(reg: Registry, models: seq<string>, effort: Option<string>, reasoning: bool, ups: Upstreams)
    ensures Failing(reg, models, effort, reasoning, ups, [])
    ensures models == [] ==> Tries(reg, models, effort, reasoning, ups, [])
    ensures EffortAfter(reg, models, effort, reasoning, 0) == effort
  {
  }

  /** The loop over the combo's models. The body, and with it the effort, is shared by all candidates. */
  method RetryChain(reg: Registry, models: seq<string>, effort: Option<string>, reasoning: bool, ups: Upstreams, client: Client)
    returns (tries: seq<Sent>)
    modifies client
    ensures Tries(reg, models, effort, reasoning, ups, tries)
    ensures client.Value() == Answered(ups, tries, old(client.Value()))
  {
    hide Captured, Lookup, Prepared, EffortAfter, SentAt, Failing, Tries, Flushed;
    NoTries(reg, models, effort, reasoning, ups);
    tries := [];
    var effortNow := effort;
    var lastRecorder: BufferedWriter? := null;
    var i := 0;
    while i < |models|
      invariant 0 <= i == |tries| <= |models|
      invariant effortNow == EffortAfter(reg, models, effort, reasoning, i)
      invariant Failing(reg, models, effort, reasoning, ups, tries)
      invariant i == |models| ==> Tries(reg, models, effort, reasoning, ups, tries)
      invariant client.Value() == old(client.Value())
      invariant i == 0 <==> lastRecorder == null
      invariant lastRecorder != null ==>
                  fresh(lastRecorder) && lastRecorder.target == client && lastRecorder.Value() == Captured(ups(i - 1, Last(tries)))
    {
      SentNow(reg, models, effort, reasoning, i);
      var sent := Prepared(Lookup(reg, models[i]), effortNow, reasoning);
      effortNow := sent.effort;
      var bw := new BufferedWriter(client);
      Dispatch(bw, ups(i, sent));
      NextTry(reg, models, effort, reasoning, ups, tries, sent);
      tries := tries + [sent];
      lastRecorder := bw;
      if bw.status < 500 && bw.status != 404 {
        break;
      }
      i := i + 1;
    }
    if lastRecorder != null {
      lastRecorder.Flush();
    }
  }

  // ---- the request ---------------------------------------------------------------------------

  predicate Chained(strategy: string) {
    strategy in ["fallback", "fill_first", "priority"]
  }

  /** The combo whose list is walked: not for streams, and only for three of the strategies. */
  function WalkOf(combos: map<string, Combo>, model: string, stream: bool): (n: Option<string>)
    ensures n.Some? ==> n.value in combos
  {
    var n := Target(combos, model);
    if n.Some? && n.value != "" && Chained(combos[n.value].strategy) && !stream then n else None
  }

  /** The first model of the request: what the combo resolved to, or the model itself. */
  function FirstRoute(reg: Registry, model: string, picked: Option<string>): Route {
    if picked.Some? then Lookup(reg, picked.value) else Lookup(reg, model)
  }

  /** From the client's model name to the upstreams. Without a walk the one dispatch writes to the client
      directly, which is not followed here. */
  method Serve(registry: ComboRegistry, reg: Registry, req: Request, stream: bool, effort: Option<string>, reasoning: bool,
               ups: Upstreams, client: Client)
    returns (tries: seq<Sent>, walked: bool)
    modifies registry`usageN, registry`fallbackSeq, client
    ensures var aliased := req.(model := Lookup(reg, req.model).model);
            var (picked, counters) := Resolved(registry.combos, registry.usd, old(registry.Now()), aliased);
            var first := Prepared(FirstRoute(reg, req.model, picked), effort, reasoning);
            var n := WalkOf(registry.combos, aliased.model, stream);
            && registry.Now() == counters
            && walked == n.Some?
            && (walked ==> Tries(reg, registry.combos[n.value].models, first.effort, reasoning, ups, tries)
                           && client.Value() == Answered(ups, tries, old(client.Value())))
            && (!walked ==> tries == [first] && client.Value() == old(client.Value()))
  {
    hide Tries, Answered, Lookup, AliasEffort, Resolved;
    var route := Lookup(reg, req.model);
    var model := route.model;
    var comboName, comboStrategy := "", "";
    var next := registry.Resolve(req.(model := model));
    if next.Some? {
      ResolvedTarget(registry.combos, registry.usd, old(registry.Now()), req.(model := model));
      comboName := model[|PREFIX|..];
      comboStrategy := registry.combos[comboName].strategy;
      route := Lookup(reg, next.value);
    } else {
      ResolvedTarget(registry.combos, registry.usd, old(registry.Now()), req.(model := model));
    }
    var first := Prepared(route, effort, reasoning);
    walked := comboName != "" && Chained(comboStrategy) && !stream;
    if walked {
      tries := RetryChain(reg, registry.combos[comboName].models, first.effort, reasoning, ups, client);
    } else {
      tries := [first];
    }
  }

  lemma ResolvedTarget(combos: map<string, Combo>, usd: Pricing, k: Counters, req: Request)
    ensures Resolved(combos, usd, k, req).0.Some? <==> Target(combos, req.model).Some?
    ensures Target(combos, req.model).Some? ==> PREFIX <= req.model && Target(combos, req.model).value == req.model[|PREFIX|..]
  {
    hide SmartPick;
  }

  // ---- where the chain starts ----------------------------------------------------------------

  lemma {:induction false} HealthyHead(models: seq<string>, open: string -> bool) returns (p: nat)
    requires Healthy(models, open) != []
    ensures p < |models| && models[p] == Healthy(models, open)[0] && !open(models[p])
    ensures forall j | 0 <= j < p :: open(models[j])
  {
    var front := Init(models);
    if Healthy(front, open) == [] {
      p := |models| - 1;
      forall j | 0 <= j < p ensures open(models[j]) {
        assert models[j] == front[j] && front[j] in front;
      }
    } else {
      p := HealthyHead(front, open);
      assert forall j | 0 <= j <= p :: front[j] == models[j];
    }
  }

  lemma HeadIsHealthy(models: seq<string>, open: string -> bool)
    requires models != []
    ensures Healthy(models, open) == [] <==> forall m | m in models :: open(m)
    ensures Healthy(models, open) != [] && Healthy(models, open)[0] == models[0] <==> !open(models[0])
  {
    var healthy := Healthy(models, open);
    assert models[0] in models;
    if healthy == [] {
      assert forall m | m in models :: m !in healthy;
    } else {
      var p := HealthyHead(models, open);
      assert healthy[0] in healthy;
    }
    hide Healthy;
  }

  lemma StrategiesApart(s: string)
    requires Chained(s)
    ensures s != "round_robin" && (Smart(s) <==> s != "fallback")
    ensures s !in ["auto", "random", "least_used", "latency", "cost"]
  {
    assert "fallback"[0] == 'f' && "fallback"[1] == 'a' && "fill_first"[0] == 'f' && "fill_first"[1] == 'i' && "priority"[0] == 'p';
    assert "round_robin"[0] == 'r' && "auto"[0] == 'a' && "random"[0] == 'r' && "least_used"[0] == 'l' && "latency"[0] == 'l'
        && "cost"[0] == 'c';
  }

  /** What the three strategies resolve to: the head, or the first model with a closed circuit. */
  lemma PickOf(combos: map<string, Combo>, usd: Pricing, k: Counters, req: Request, stream: bool)
    requires WalkOf(combos, req.model, stream).Some?
    ensures var c := combos[WalkOf(combos, req.model, stream).value];
            var healthy := Healthy(c.models, req.open);
            && c.models != []
            && Resolved(combos, usd, k, req).0 == Some(if c.strategy == "fallback" || healthy == [] then c.models[0] else healthy[0])
  {
    hide Healthy;
    StrategiesApart(combos[WalkOf(combos, req.model, stream).value].strategy);
  }

  /** The walk starts at the head of the list. That is the model the combo resolved to, always for
      "fallback", for "fill_first" and "priority" exactly if the head's circuit is closed or all are open. */
  lemma StartsAtPickIff(combos: map<string, Combo>, usd: Pricing, k: Counters, req: Request, stream: bool)
    requires WalkOf(combos, req.model, stream).Some?
    ensures var c := combos[WalkOf(combos, req.model, stream).value];
            && c.models != []
            && (Resolved(combos, usd, k, req).0 == Some(c.models[0]) <==>
                c.strategy == "fallback" || !req.open(c.models[0]) || forall m | m in c.models :: req.open(m))
  {
    hide Healthy, Resolved, WalkOf;
    PickOf(combos, usd, k, req, stream);
    HeadIsHealthy(combos[WalkOf(combos, req.model, stream).value].models, req.open);
  }

  /** The models before the pick have open circuits: if those answer with a status that is retried, the
      walk gets to the pick. */
  lemma PickReached(models: seq<string>, open: string -> bool, statuses: seq<int>) returns (p: nat)
    requires |statuses| == |models| && Healthy(models, open) != []
    requires forall i | 0 <= i < |models| && open(models[i]) :: statuses[i] >= 500 || statuses[i] == 404
    ensures p < |models| && models[p] == Healthy(models, open)[0] && p <= LastTry(statuses)
  {
    p := HealthyHead(models, open);
    var k := LastTry(statuses);
    LastTryIs(statuses, k);
    assert k == |statuses| - 1 || !Retried(statuses[k]);
    assert forall j | 0 <= j < p :: Retried(statuses[j]);
  }
}
