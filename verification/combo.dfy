/** Combos: one logical model name resolved to one of several models, after internal/proxy/combo.go. */
module Combos {
  import opened Modular
  import opened Seqs

  datatype Combo = Combo(name: string, strategy: string, models: seq<string>)

  /** The per-process counters: usageN by model, fallbackSeq by combo name. */
  datatype Counters = Counters(usage: map<string, nat>, turns: map<string, nat>)

  /** A model name to resolve, and what the health checker says at that moment. */
  datatype Request = Request(model: string, open: string -> bool, latency: string -> real)

  type Pricing = (string, int, int) -> real

  const PREFIX := "combo/"

  function Count(counts: map<string, nat>, key: string): nat {
    if key in counts then counts[key] else 0
  }

  function Bump(counts: map<string, nat>, key: string): (r: map<string, nat>)
    ensures forall k :: Count(r, k) == Count(counts, k) + (if k == key then 1 else 0)
  {
    counts[key := Count(counts, key) + 1]
  }

  /** The combo a model name stands for: none without the prefix, unknown, or without models. */
  function Target(combos: map<string, Combo>, model: string): (r: Option<string>)
    ensures r.Some? ==> r.value in combos && combos[r.value].models != []
  {
    if !(PREFIX <= model) || model[|PREFIX|..] !in combos || combos[model[|PREFIX|..]].models == [] then None
    else Some(model[|PREFIX|..])
  }

  /** The models whose upstream circuit is not open, in order. */
  function Healthy(models: seq<string>, open: string -> bool): (r: seq<string>)
    ensures forall m :: m in r <==> m in models && !open(m)
  {
    if models == [] then []
    else
      assert forall m :: m in models <==> m in Init(models) || m == Last(models);
      Healthy(Init(models), open) + if open(Last(models)) then [] else [Last(models)]
  }

  /** No model has a smaller score than r, and the ones before its first place have larger ones. */
  ghost predicate LeastFirst(models: seq<string>, score: string -> real, r: string) {
    && (exists i | 0 <= i < |models| :: models[i] == r && forall j | 0 <= j < i :: score(r) < score(models[j]))
    && forall m | m in models :: score(r) <= score(m)
  }

  /** The first model of least score. */
  function FirstMin(models: seq<string>, score: string -> real): (r: string)
    requires models != []
    ensures LeastFirst(models, score, r)
  {
    if |models| == 1 then models[0]
    else
      var best := FirstMin(Init(models), score);
      assert forall j | 0 <= j < |Init(models)| :: Init(models)[j] == models[j];
      assert models[|models| - 1] == Last(models);
      assert forall m | m in models :: m in Init(models) || m == Last(models);
      if score(Last(models)) < score(best) then Last(models) else best
  }

  lemma MinOne(x: string, score: string -> real)
    ensures FirstMin([x], score) == x
  {
  }

  lemma MinSnoc(models: seq<string>, x: string, score: string -> real)
    requires models != []
    ensures var best := FirstMin(models, score); FirstMin(models + [x], score) == if score(x) < score(best) then x else best
  {
    assert Init(models + [x]) == models && Last(models + [x]) == x;
  }

  function FirstWith(models: seq<string>, p: string -> bool): (r: Option<string>)
    ensures r.Some? <==> exists m | m in models :: p(m)
    ensures r.Some? ==>
              exists i | 0 <= i < |models| :: models[i] == r.value && p(r.value) && forall j | 0 <= j < i :: !p(models[j])
  {
    if models == [] then None
    else if p(models[0]) then Some(models[0])
    else
      assert forall m | m in models :: m == models[0] || m in models[1..];
      var r := FirstWith(models[1..], p);
      assert forall j | 0 < j < |models| :: models[j] == models[1..][j - 1];
      r
  }

  predicate IsCloudflare(m: string) {
    "@cf/" <= m || "cf/" <= m
  }

  /** The three tiers of "auto": not Cloudflare, priced Cloudflare, the rest. */
  function AutoPick(healthy: seq<string>, usd: Pricing): string
    requires healthy != []
  {
    var tier1 := FirstWith(healthy, m => !IsCloudflare(m));
    var tier2 := FirstWith(healthy, m => IsCloudflare(m) && usd(m, 1, 1) > 0.0);
    if tier1.Some? then tier1.value else if tier2.Some? then tier2.value else healthy[0]
  }

  function LeastUsed(healthy: seq<string>, usage: map<string, nat>): string
    requires healthy != []
  {
    FirstMin(healthy, m => Count(usage, m) as real)
  }

  function SmartPick(c: Combo, req: Request, usd: Pricing, k: Counters): (string, Counters)
    requires c.models != []
  {
    var healthy := Healthy(c.models, req.open);
    if healthy == [] then (c.models[0], k)
    else match c.strategy
      case "auto" => (AutoPick(healthy, usd), k)
      case "random" =>
        var turns := Bump(k.turns, c.name + ":rnd");
        (healthy[Count(turns, c.name + ":rnd") % |healthy|], k.(turns := turns))
      case "least_used" =>
        var best := LeastUsed(healthy, k.usage);
        (best, k.(usage := Bump(k.usage, best)))
      case "latency" => (FirstMin(healthy, req.latency), k)
      case "cost" => (FirstMin(healthy, m => usd(m, 1_000_000, 1_000_000)), k)
      case _ => (healthy[0], k)
  }

  predicate Smart(strategy: string) {
    strategy in ["latency", "cost", "fill_first", "least_used", "random", "auto", "priority"]
  }

  /** One resolution: the answer and the counters after it. */
  function Resolved(combos: map<string, Combo>, usd: Pricing, k: Counters, req: Request): (Option<string>, Counters) {
    var n := Target(combos, req.model);
    if n.None? then (None, k)
    else
      var c := combos[n.value];
      if c.strategy == "round_robin" then
        var turns := Bump(k.turns, n.value);
        (Some(c.models[(Count(turns, n.value) - 1) % |c.models|]), k.(turns := turns))
      else if Smart(c.strategy) then
        var p := SmartPick(c, req, usd, k);
        (Some(p.0), p.1)
      else (Some(c.models[0]), k)
  }

  /** A combo is named by "combo/" and its name; it must be known and have models. */
  lemma TargetIs(combos: map<string, Combo>, model: string, n: string)
    ensures Target(combos, model) == Some(n) <==> model == "combo/" + n && n in combos && combos[n].models != []
  {
    if |model| >= 6 && model[..6] == "combo/" {
      assert model == model[..6] + model[6..];
    }
    assert ("combo/" + n)[6..] == n && ("combo/" + n)[..6] == "combo/";
  }

  // ---- what each strategy picks --------------------------------------------------------------

  /** Of the models with a closed circuit the one of least score, the first of them on a tie. */
  ghost predicate FirstBest(models: seq<string>, open: string -> bool, score: string -> real, a: string) {
    exists i | 0 <= i < |models| :: models[i] == a && BestAt(models, open, score, i)
  }

  ghost predicate BestAt(models: seq<string>, open: string -> bool, score: string -> real, i: nat)
    requires i < |models|
  {
    && !open(models[i])
    && forall j | 0 <= j < |models| && !open(models[j]) ::
         score(models[i]) <= score(models[j]) && (j < i ==> score(models[i]) < score(models[j]))
  }

  lemma {:induction false} FirstMinBest(models: seq<string>, open: string -> bool, score: string -> real)
    requires Healthy(models, open) != []
    ensures FirstBest(models, open, score, FirstMin(Healthy(models, open), score))
  {
    var front, x := Init(models), Last(models);
    if Healthy(front, open) == [] {
      forall j | 0 <= j < |front| ensures open(models[j]) {
        assert models[j] == front[j] && front[j] in front;
      }
      assert Healthy(models, open) == [x];
      assert BestAt(models, open, score, |models| - 1);
    } else {
      FirstMinBest(front, open, score);
      var best := FirstMin(Healthy(front, open), score);
      var i :| 0 <= i < |front| && front[i] == best && BestAt(front, open, score, i);
      hide Healthy, FirstMin;
      FirstMinSnoc(models, open, score);
      BestSnoc(models, open, score, i);
    }
  }

  lemma FirstMinSnoc(models: seq<string>, open: string -> bool, score: string -> real)
    requires models != [] && Healthy(Init(models), open) != []
    ensures Healthy(models, open) != []
    ensures var best := FirstMin(Healthy(Init(models), open), score);
            FirstMin(Healthy(models, open), score)
            == if !open(Last(models)) && score(Last(models)) < score(best) then Last(models) else best
  {
    hide FirstMin;
    var h := Healthy(Init(models), open);
    assert h + [] == h;
    MinSnoc(h, Last(models), score);
  }

  lemma BestSnoc(models: seq<string>, open: string -> bool, score: string -> real, i: nat)
    requires i < |models| - 1 && BestAt(Init(models), open, score, i)
    ensures var x, best := Last(models), models[i];
            FirstBest(models, open, score, if !open(x) && score(x) < score(best) then x else best)
  {
    var front, x, n := Init(models), Last(models), |models| - 1;
    assert forall j | 0 <= j < n :: front[j] == models[j];
    if !open(x) && score(x) < score(models[i]) {
      assert BestAt(models, open, score, n);
    } else {
      assert BestAt(models, open, score, i);
    }
  }

  /** The first model with a closed circuit that has a property. */
  ghost predicate FirstSuch(models: seq<string>, open: string -> bool, p: string -> bool, a: string) {
    exists i | 0 <= i < |models| :: models[i] == a && SuchAt(models, open, p, i)
  }

  predicate SuchAt(models: seq<string>, open: string -> bool, p: string -> bool, i: nat)
    requires i < |models|
  {
    !open(models[i]) && p(models[i]) && forall j | 0 <= j < i :: open(models[j]) || !p(models[j])
  }

  lemma {:induction false} FirstWithSuch(models: seq<string>, open: string -> bool, p: string -> bool)
    ensures var r := FirstWith(Healthy(models, open), p);
            && (r.Some? ==> FirstSuch(models, open, p, r.value))
            && (r.None? ==> forall j | 0 <= j < |models| :: open(models[j]) || !p(models[j]))
  {
    hide Healthy, FirstWith, FirstSuch;
    if models == [] {
      NoneHealthy(open, p);
    } else {
      var h := Healthy(Init(models), open);
      FirstWithSuch(Init(models), open, p);
      HealthySnoc(models, open);
      FirstWithSnoc(h, Last(models), p);
      assert h + [] == h;
      SuchSnoc(models, open, p, FirstWith(h, p));
    }
  }

  lemma NoneHealthy(open: string -> bool, p: string -> bool)
    ensures FirstWith(Healthy([], open), p).None?
  {
  }

  lemma SuchSnoc(models: seq<string>, open: string -> bool, p: string -> bool, r: Option<string>)
    requires models != []
    requires r.Some? ==> FirstSuch(Init(models), open, p, r.value)
    requires r.None? ==> forall j | 0 <= j < |models| - 1 :: open(Init(models)[j]) || !p(Init(models)[j])
    ensures r.Some? ==> FirstSuch(models, open, p, r.value)
    ensures r.None? && !open(Last(models)) && p(Last(models)) ==> FirstSuch(models, open, p, Last(models))
    ensures r.None? && (open(Last(models)) || !p(Last(models))) ==> forall j | 0 <= j < |models| :: open(models[j]) || !p(models[j])
  {
    var front := Init(models);
    assert forall j | 0 <= j < |front| :: front[j] == models[j];
    if r.Some? {
      var i :| 0 <= i < |front| && front[i] == r.value && SuchAt(front, open, p, i);
      assert SuchAt(models, open, p, i);
    } else if !open(Last(models)) && p(Last(models)) {
      assert SuchAt(models, open, p, |models| - 1);
    }
  }

  lemma HealthySnoc(models: seq<string>, open: string -> bool)
    requires models != []
    ensures Healthy(models, open) == Healthy(Init(models), open) + if open(Last(models)) then [] else [Last(models)]
  {
  }

  lemma FirstHealthy(models: seq<string>, open: string -> bool)
    requires Healthy(models, open) != []
    ensures FirstSuch(models, open, m => true, Healthy(models, open)[0])
  {
    var h := Healthy(models, open);
    FirstWithSuch(models, open, m => true);
    assert FirstWith(h, m => true) == Some(h[0]);
  }

  /** The answer of a combo by strategy: with every circuit open the head; else the first model of least
      mean latency, of least price for a million tokens each way, or of least use; for "auto" the first
      that is not Cloudflare's, else the first priced one, else the first; for "fill_first" and
      "priority" the first; for "random" the one the combo's own counter points at. */
  lemma AnswerIs(combos: map<string, Combo>, usd: Pricing, k: Counters, req: Request)
    requires Target(combos, req.model).Some? && Smart(combos[Target(combos, req.model).value].strategy)
    ensures var c, (a, k') := combos[Target(combos, req.model).value], Resolved(combos, usd, k, req);
            && a.Some?
            && ((forall m | m in c.models :: req.open(m)) ==> a.value == c.models[0] && k' == k)
            && (!(forall m | m in c.models :: req.open(m)) ==>
                  && (c.strategy == "latency" ==> FirstBest(c.models, req.open, req.latency, a.value))
                  && (c.strategy == "cost" ==> FirstBest(c.models, req.open, m => usd(m, 1_000_000, 1_000_000), a.value))
                  && (c.strategy == "least_used" ==> FirstBest(c.models, req.open, m => Count(k.usage, m) as real, a.value)
                                                     && k'.usage == Bump(k.usage, a.value))
                  && (c.strategy in {"fill_first", "priority"} ==> FirstSuch(c.models, req.open, m => true, a.value))
                  && (c.strategy == "auto" ==> AutoAnswer(c.models, req.open, usd, a.value))
                  && (c.strategy == "random" ==>
                        var h, turn := Healthy(c.models, req.open), Count(k.turns, c.name + ":rnd") + 1;
                        h != [] && a.value == h[turn % |h|] && k'.turns == Bump(k.turns, c.name + ":rnd")))
  {
    hide Healthy, FirstMin, FirstBest, FirstSuch, AutoAnswer, AutoPick, Target;
    var c := combos[Target(combos, req.model).value];
    PickIs(c, req, usd, k);
    RoundRobinApart(c.strategy);
  }

  lemma RoundRobinApart(s: string)
    requires Smart(s)
    ensures s != "round_robin"
  {
    assert "round_robin"[1] == 'o' && "random"[1] == 'a';
  }

  /** The same for the pick. */
  lemma PickIs(c: Combo, req: Request, usd: Pricing, k: Counters)
    requires c.models != []
    ensures var (a, k') := SmartPick(c, req, usd, k);
            && ((forall m | m in c.models :: req.open(m)) ==> a == c.models[0] && k' == k)
            && (!(forall m | m in c.models :: req.open(m)) ==>
                  && (c.strategy == "latency" ==> FirstBest(c.models, req.open, req.latency, a))
                  && (c.strategy == "cost" ==> FirstBest(c.models, req.open, m => usd(m, 1_000_000, 1_000_000), a))
                  && (c.strategy == "least_used" ==> FirstBest(c.models, req.open, m => Count(k.usage, m) as real, a)
                                                     && k'.usage == Bump(k.usage, a))
                  && (c.strategy in {"fill_first", "priority"} ==> FirstSuch(c.models, req.open, m => true, a))
                  && (c.strategy == "auto" ==> AutoAnswer(c.models, req.open, usd, a))
                  && (c.strategy == "random" ==>
                        var h, turn := Healthy(c.models, req.open), Count(k.turns, c.name + ":rnd") + 1;
                        h != [] && a == h[turn % |h|] && k'.turns == Bump(k.turns, c.name + ":rnd")))
  {
    hide Healthy, FirstMin, FirstBest, FirstSuch, AutoAnswer, AutoPick, Count;
    var h := Healthy(c.models, req.open);
    if h != [] {
      assert h[0] in h;
      match c.strategy
      case "latency" => FirstMinBest(c.models, req.open, req.latency);
      case "cost" => FirstMinBest(c.models, req.open, m => usd(m, 1_000_000, 1_000_000));
      case "least_used" => FirstMinBest(c.models, req.open, m => Count(k.usage, m) as real);
      case "auto" => AutoIs(c.models, req.open, usd);
      case "random" => CountBump(k.turns, c.name + ":rnd");
      case _ => FirstHealthy(c.models, req.open);
    } else {
      assert forall m | m in c.models :: m !in h;
    }
  }

  lemma CountBump(counts: map<string, nat>, key: string)
    ensures Count(Bump(counts, key), key) == Count(counts, key) + 1
  {
  }

  ghost predicate AutoAnswer(models: seq<string>, open: string -> bool, usd: Pricing, a: string) {
    var cloudflare := (m: string) => "@cf/" <= m || "cf/" <= m;
    if exists m | m in models :: !open(m) && !cloudflare(m) then FirstSuch(models, open, m => !cloudflare(m), a)
    else if exists m | m in models :: !open(m) && usd(m, 1, 1) > 0.0 then FirstSuch(models, open, m => usd(m, 1, 1) > 0.0, a)
    else FirstSuch(models, open, m => true, a)
  }

  lemma SameSuch(models: seq<string>, open: string -> bool, p: string -> bool, q: string -> bool, a: string)
    requires FirstSuch(models, open, p, a) && forall m | m in models && !open(m) :: p(m) == q(m)
    ensures FirstSuch(models, open, q, a)
  {
    var i :| 0 <= i < |models| && models[i] == a && SuchAt(models, open, p, i);
    forall j | 0 <= j <= i ensures models[j] in models {
    }
    assert SuchAt(models, open, q, i);
  }

  lemma AutoIs(models: seq<string>, open: string -> bool, usd: Pricing)
    requires Healthy(models, open) != []
    ensures AutoAnswer(models, open, usd, AutoPick(Healthy(models, open), usd))
  {
    var h := Healthy(models, open);
    var plain, priced := (m => !IsCloudflare(m)), (m => IsCloudflare(m) && usd(m, 1, 1) > 0.0);
    FirstWithSuch(models, open, plain);
    FirstWithSuch(models, open, priced);
    FirstHealthy(models, open);
    if FirstWith(h, plain).Some? {
      SameSuch(models, open, plain, m => !("@cf/" <= m || "cf/" <= m), FirstWith(h, plain).value);
    } else if FirstWith(h, priced).Some? {
      SameSuch(models, open, priced, m => usd(m, 1, 1) > 0.0, FirstWith(h, priced).value);
    }
  }

  // ---- runs ----------------------------------------------------------------------------------

  function After(combos: map<string, Combo>, usd: Pricing, k: Counters, reqs: seq<Request>): Counters {
    if reqs == [] then k else Resolved(combos, usd, After(combos, usd, k, Init(reqs)), Last(reqs)).1
  }

  /** The answers a run gives to requests for combo n, in order. */
  function Answers(combos: map<string, Combo>, usd: Pricing, k: Counters, reqs: seq<Request>, n: string): seq<string> {
    if reqs == [] then []
    else
      var a := Resolved(combos, usd, After(combos, usd, k, Init(reqs)), Last(reqs)).0;
      Answers(combos, usd, k, Init(reqs), n) + if Target(combos, Last(reqs).model) == Some(n) && a.Some? then [a.value] else []
  }

  /** The names validateName lets into the registry. */
  predicate ValidName(n: string) {
    && 0 < |n| <= 64
    && !Contains(n, "..")
    && forall c | c in n :: 'A' <= c <= 'Z' || 'a' <= c <= 'z' || '0' <= c <= '9' || c in "._/-"
  }

  /** "random" combos count on their name plus ":rnd", which is no valid name. */
  lemma OwnTurns(n: string, other: string)
    requires ValidName(n)
    ensures other + ":rnd" != n
  {
    assert (other + ":rnd")[|other|] == ':';
    assert ':' in other + ":rnd";
    assert ':' !in n;
  }

  /** Answer t of a round-robin combo, whatever other requests come between. */
  lemma {:induction false} RoundRobinTurn(combos: map<string, Combo>, usd: Pricing, k: Counters, reqs: seq<Request>, n: string)
    requires n in combos && combos[n].strategy == "round_robin" && combos[n].models != [] && ValidName(n)
    ensures var a, models := Answers(combos, usd, k, reqs, n), combos[n].models;
            && Count(After(combos, usd, k, reqs).turns, n) == Count(k.turns, n) + |a|
            && forall t | 0 <= t < |a| :: a[t] == models[(Count(k.turns, n) + t) % |models|]
  {
    hide Resolved, Target, ValidName, Count;
    if reqs != [] {
      RoundRobinTurn(combos, usd, k, Init(reqs), n);
      TurnStep(combos, usd, After(combos, usd, k, Init(reqs)), Last(reqs), n);
    }
  }

  lemma TurnStep(combos: map<string, Combo>, usd: Pricing, k: Counters, req: Request, n: string)
    requires n in combos && combos[n].strategy == "round_robin" && combos[n].models != [] && ValidName(n)
    ensures var r := Resolved(combos, usd, k, req);
            if Target(combos, req.model) == Some(n) then
              && r.0.Some? && r.0.value == combos[n].models[Count(k.turns, n) % |combos[n].models|]
              && Count(r.1.turns, n) == Count(k.turns, n) + 1
            else Count(r.1.turns, n) == Count(k.turns, n)
  {
    hide Healthy, LeastUsed, AutoPick, ValidName;
    var t := Target(combos, req.model);
    if t.Some? {
      OwnTurns(n, combos[t.value].name);
    }
  }

  /** Round robin is fair: any |models| consecutive answers are the models, each position once,
      from whatever counter the run starts. */
  lemma RoundRobinBalance(combos: map<string, Combo>, usd: Pricing, k: Counters, reqs: seq<Request>, n: string, from: nat)
    requires n in combos && combos[n].strategy == "round_robin" && combos[n].models != [] && ValidName(n)
    requires from + |combos[n].models| <= |Answers(combos, usd, k, reqs, n)|
    ensures multiset(Answers(combos, usd, k, reqs, n)[from..from + |combos[n].models|]) == multiset(combos[n].models)
  {
    hide Answers, Count, ValidName;
    RoundRobinTurn(combos, usd, k, reqs, n);
    Rotation(combos[n].models, Answers(combos, usd, k, reqs, n)[from..from + |combos[n].models|], Count(k.turns, n) + from);
  }

  lemma Rotation(models: seq<string>, a: seq<string>, start: nat)
    requires |a| == |models| > 0
    requires forall t | 0 <= t < |a| :: a[t] == models[(start + t) % |models|]
    ensures multiset(a) == multiset(models)
  {
    var q := start % |models|;
    forall t | 0 <= t < |a| ensures a[t] == (models[q..] + models[..q])[t] {
      ModSum(start, t, |models|);
    }
    assert a == models[q..] + models[..q];
    assert models == models[..q] + models[q..];
  }

  // ---- least_used ----------------------------------------------------------------------------

  /** Within the run only combo n is resolved by least_used, always over the healthy models h. */
  ghost predicate OnlyUser(combos: map<string, Combo>, reqs: seq<Request>, n: string, h: seq<string>) {
    forall r | r in reqs ::
      var t := Target(combos, r.model);
      t.Some? && combos[t.value].strategy == "least_used" ==> t.value == n && Healthy(combos[n].models, r.open) == h
  }

  /** Conservation, and levelling from any starting counts: what the run picked ends at most one
      above every healthy model. */
  lemma {:induction false} LeastUsedLevels(combos: map<string, Combo>, usd: Pricing, k: Counters, reqs: seq<Request>,
                                           n: string, h: seq<string>)
    requires n in combos && combos[n].strategy == "least_used" && h != [] && OnlyUser(combos, reqs, n, h)
    ensures var a, usage := Answers(combos, usd, k, reqs, n), After(combos, usd, k, reqs).usage;
            && (forall m :: Count(usage, m) == Count(k.usage, m) + multiset(a)[m])
            && (forall m | m in a :: m in h && forall b | b in h :: Count(usage, m) <= Count(usage, b) + 1)
  {
    if reqs != [] {
      assert forall r | r in Init(reqs) :: r in reqs;
      assert Last(reqs) in reqs;
      hide Resolved, Target, Healthy, Count;
      LeastUsedLevels(combos, usd, k, Init(reqs), n, h);
      var k1 := After(combos, usd, k, Init(reqs));
      LevelStep(combos, usd, k1, Last(reqs), n, h);
      var r := Resolved(combos, usd, k1, Last(reqs));
      if Target(combos, Last(reqs).model) == Some(n) {
        Levelled(k.usage, k1.usage, Answers(combos, usd, k, Init(reqs), n), r.0.value, h);
      }
    }
  }

  /** Levelling survives one more pick of a least-used model x. */
  lemma Levelled(start: map<string, nat>, usage: map<string, nat>, a: seq<string>, x: string, h: seq<string>)
    requires forall m :: Count(usage, m) == Count(start, m) + multiset(a)[m]
    requires forall m | m in a :: m in h && forall b | b in h :: Count(usage, m) <= Count(usage, b) + 1
    requires x in h && forall b | b in h :: Count(usage, x) <= Count(usage, b)
    ensures forall m :: Count(Bump(usage, x), m) == Count(start, m) + multiset(a + [x])[m]
    ensures forall m | m in a + [x] :: m in h && forall b | b in h :: Count(Bump(usage, x), m) <= Count(Bump(usage, x), b) + 1
  {
    hide Count;
    assert multiset(a + [x]) == multiset(a) + multiset{x};
  }

  lemma LevelStep(combos: map<string, Combo>, usd: Pricing, k: Counters, req: Request, n: string, h: seq<string>)
    requires n in combos && combos[n].strategy == "least_used" && h != [] && OnlyUser(combos, [req], n, h)
    ensures var (a, k') := Resolved(combos, usd, k, req);
            if Target(combos, req.model) == Some(n) then
              && a.Some? && a.value in h
              && (forall b | b in h :: Count(k.usage, a.value) <= Count(k.usage, b))
              && k'.usage == Bump(k.usage, a.value)
            else k'.usage == k.usage
  {
    assert req in [req];
    hide Healthy;
  }

  ghost predicate Distinct(h: seq<string>) {
    forall i, j | 0 <= i < j < |h| :: h[i] != h[j]
  }

  /** From equal counts over distinct models, t resolutions leave every count at the floor or the
      ceiling of an equal share. */
  lemma LeastUsedBalance(combos: map<string, Combo>, usd: Pricing, k: Counters, reqs: seq<Request>,
                         n: string, h: seq<string>, base: nat)
    requires n in combos && combos[n].strategy == "least_used" && h != [] && OnlyUser(combos, reqs, n, h)
    requires Distinct(h) && forall m | m in h :: Count(k.usage, m) == base
    ensures var t := |Answers(combos, usd, k, reqs, n)|;
            forall m | m in h ::
              var extra := Count(After(combos, usd, k, reqs).usage, m) - base;
              extra == t / |h| || (extra == t / |h| + 1 && t % |h| > 0)
  {
    hide OnlyUser, Answers, After, Distinct, Count;
    var a, usage := Answers(combos, usd, k, reqs, n), After(combos, usd, k, reqs).usage;
    LeastUsedLevels(combos, usd, k, reqs, n, h);
    forall m, b | m in h && b in h ensures multiset(a)[m] <= multiset(a)[b] + 1 {
      if m in a {
        assert Count(usage, m) <= Count(usage, b) + 1;
      }
    }
    Shares(a, h);
  }

  function Picks(a: seq<string>, h: seq<string>): nat {
    if h == [] then 0 else Picks(a, Init(h)) + multiset(a)[Last(h)]
  }

  lemma {:induction false} PicksGrow(a: seq<string>, x: string, h: seq<string>)
    requires Distinct(h)
    ensures Picks(a + [x], h) == Picks(a, h) + (if x in h then 1 else 0)
  {
    if h != [] {
      PicksGrow(a, x, Init(h));
      assert multiset(a + [x]) == multiset(a) + multiset{x};
      InitLast(h);
    }
  }

  lemma {:induction false} PicksAll(a: seq<string>, h: seq<string>)
    requires Distinct(h) && forall x | x in a :: x in h
    ensures Picks(a, h) == |a|
  {
    if a == [] {
      NoPicks(h);
    } else {
      InitLast(a);
      PicksAll(Init(a), h);
      PicksGrow(Init(a), Last(a), h);
    }
  }

  lemma {:induction false} NoPicks(h: seq<string>)
    ensures Picks([], h) == 0
  {
    if h != [] {
      NoPicks(Init(h));
    }
  }

  /** low is the count of some model and no model is below it. */
  lemma {:induction false} PicksBetween(a: seq<string>, h: seq<string>, low: nat)
    requires forall m | m in h :: low <= multiset(a)[m] <= low + 1
    ensures low * |h| <= Picks(a, h) <= low * |h| + |h|
    ensures (exists m | m in h :: multiset(a)[m] == low) ==> Picks(a, h) < low * |h| + |h|
    ensures (exists m | m in h :: multiset(a)[m] == low + 1) ==> Picks(a, h) > low * |h|
  {
    if h != [] {
      InitLast(h);
      PicksBetween(a, Init(h), low);
      OneTimesMore(low, |Init(h)|);
      assert Last(h) in h;
    }
  }

  lemma OneTimesMore(low: nat, n: nat)
    ensures low * (n + 1) == low * n + low
  {
  }

  lemma Shares(a: seq<string>, h: seq<string>)
    requires Distinct(h) && h != [] && forall x | x in a :: x in h
    requires forall m, b | m in h && b in h :: multiset(a)[m] <= multiset(a)[b] + 1
    ensures forall m | m in h ::
              multiset(a)[m] == |a| / |h| || (multiset(a)[m] == |a| / |h| + 1 && |a| % |h| > 0)
  {
    var rare := FirstMin(h, m => multiset(a)[m] as real);
    var low := multiset(a)[rare];
    forall m | m in h ensures low <= multiset(a)[m] <= low + 1 {
      assert low as real <= multiset(a)[m] as real;
    }
    PicksAll(a, h);
    PicksBetween(a, h, low);
    DivUnique(|a|, low, |a| - low * |h|, |h|);
  }

  // ---- the registry --------------------------------------------------------------------------

  class ComboRegistry {
    var combos: map<string, Combo>
    const usd: Pricing
    var usageN: map<string, nat>
    var fallbackSeq: map<string, nat>

    constructor (combos: map<string, Combo>, usd: Pricing)
      ensures this.combos == combos && this.usd == usd && Now() == Counters(map[], map[])
    {
      this.combos, this.usd := combos, usd;
      this.usageN, this.fallbackSeq := map[], map[];
    }

    function Now(): Counters
      reads this
    {
      Counters(usageN, fallbackSeq)
    }

    method FallbackCounter(name: string) returns (n: nat)
      modifies this`fallbackSeq
      ensures fallbackSeq == Bump(old(fallbackSeq), name) && n == Count(fallbackSeq, name)
    {
      fallbackSeq := Bump(fallbackSeq, name);
      n := Count(fallbackSeq, name);
    }

    method Resolve(req: Request) returns (answer: Option<string>)
      modifies this`usageN, this`fallbackSeq
      ensures (answer, Now()) == Resolved(combos, usd, old(Now()), req)
    {
      if !(PREFIX <= req.model) {
        return None;
      }
      var name := req.model[|PREFIX|..];
      if name !in combos || combos[name].models == [] {
        return None;
      }
      var c := combos[name];
      if c.strategy == "round_robin" {
        var counter := FallbackCounter(name);
        return Some(c.models[(counter - 1) % |c.models|]);
      }
      if Smart(c.strategy) {
        var picked := ResolveSmart(c, req);
        return Some(picked);
      }
      return Some(c.models[0]);
    }

    method ResolveSmart(c: Combo, req: Request) returns (picked: string)
      requires c.models != []
      modifies this`usageN, this`fallbackSeq
      ensures (picked, Now()) == SmartPick(c, req, usd, old(Now()))
    {
      var healthy := SkipOpen(c.models, req.open);
      if healthy == [] {
        return c.models[0];
      }
      match c.strategy {
        case "auto" => picked := PickTier(healthy, usd);
        case "random" =>
          var n := FallbackCounter(c.name + ":rnd");
          picked := healthy[n % |healthy|];
        case "least_used" =>
          var usage := usageN;
          picked := PickMin(healthy, m => Count(usage, m) as real);
          assert picked == LeastUsed(healthy, usage);
          usageN := Bump(usageN, picked);
        case "latency" => picked := PickMin(healthy, req.latency);
        case "cost" => picked := PickMin(healthy, m => usd(m, 1_000_000, 1_000_000));
        case _ => picked := healthy[0];
      }
    }
  }

  method SkipOpen(models: seq<string>, open: string -> bool) returns (healthy: seq<string>)
    ensures healthy == Healthy(models, open)
  {
    healthy := [];
    for i := 0 to |models|
      invariant healthy == Healthy(models[..i], open)
    {
      assert Init(models[..i + 1]) == models[..i];
      if !open(models[i]) {
        healthy := healthy + [models[i]];
      }
    }
    assert models[..|models|] == models;
  }

  method PickMin(healthy: seq<string>, score: string -> real) returns (best: string)
    requires healthy != []
    ensures best == FirstMin(healthy, score)
  {
    hide FirstMin, LeastFirst;
    best := healthy[0];
    MinOne(best, score);
    assert healthy[..1] == [best];
    var bestScore := score(best);
    for i := 1 to |healthy|
      invariant best == FirstMin(healthy[..i], score) && bestScore == score(best)
    {
      MinSnoc(healthy[..i], healthy[i], score);
      assert healthy[..i + 1] == healthy[..i] + [healthy[i]];
      var s := score(healthy[i]);
      if s < bestScore {
        best, bestScore := healthy[i], s;
      }
    }
    assert healthy[..|healthy|] == healthy;
  }

  method PickTier(healthy: seq<string>, usd: Pricing) returns (picked: string)
    requires healthy != []
    ensures picked == AutoPick(healthy, usd)
  {
    hide FirstWith, IsCloudflare;
    var tier1, tier2, tier3 := [], [], [];
    var plain, priced := (m => !IsCloudflare(m)), (m => IsCloudflare(m) && usd(m, 1, 1) > 0.0);
    FirstWithNone(plain);
    FirstWithNone(priced);
    for i := 0 to |healthy|
      invariant FirstWith(healthy[..i], plain) == Head(tier1)
      invariant FirstWith(healthy[..i], priced) == Head(tier2)
      invariant if i == 0 then tier3 == [] else tier1 == [] && tier2 == [] ==> Head(tier3) == Some(healthy[0])
    {
      assert healthy[..i + 1] == healthy[..i] + [healthy[i]];
      var m := healthy[i];
      FirstWithSnoc(healthy[..i], m, plain);
      FirstWithSnoc(healthy[..i], m, priced);
      if !IsCloudflare(m) {
        tier1 := tier1 + [m];
      } else if usd(m, 1, 1) > 0.0 {
        tier2 := tier2 + [m];
      } else {
        tier3 := tier3 + [m];
      }
    }
    assert healthy[..|healthy|] == healthy;
    picked := if tier1 != [] then tier1[0] else if tier2 != [] then tier2[0] else tier3[0];
  }

  function Head(tier: seq<string>): Option<string> {
    if tier == [] then None else Some(tier[0])
  }

  lemma FirstWithNone(p: string -> bool)
    ensures FirstWith([], p) == None
  {
  }

  lemma {:induction false} FirstWithSnoc(models: seq<string>, x: string, p: string -> bool)
    ensures FirstWith(models + [x], p) ==
            if FirstWith(models, p).Some? then FirstWith(models, p) else if p(x) then Some(x) else None
  {
    if models == [] {
      assert ([] + [x])[0] == x;
      assert FirstWith([x][1..], p).None?;
    } else {
      assert (models + [x])[1..] == models[1..] + [x];
      FirstWithSnoc(models[1..], x, p);
    }
  }

  // ---- the successor of a failed model (no code of the handler asks for it) ------------------

  /** The model after the failed one; none if it is the last entry or unknown. */
  function NextModel(models: seq<string>, failed: string): Option<string> {
    if |models| < 2 then None
    else if models[0] == failed then Some(models[1])
    else NextModel(models[1..], failed)
  }

  method NextInFallback(combos: map<string, Combo>, name: string, failed: string) returns (next: Option<string>)
    ensures next == if name in combos && combos[name].strategy == "fallback" then NextModel(combos[name].models, failed) else None
  {
    if name !in combos || combos[name].strategy != "fallback" || combos[name].models == [] {
      return None;
    }
    var models := combos[name].models;
    for i := 0 to |models|
      invariant NextModel(models[i..], failed) == NextModel(models, failed)
    {
      if models[i] == failed && i + 1 < |models| {
        return Some(models[i + 1]);
      }
      assert models[i..][1..] == models[i + 1..];
    }
    return None;
  }

  /** After a failed model's first place in the list comes the next one, and nothing after the last. */
  lemma {:induction false} NextModelAt(models: seq<string>, i: nat)
    requires i < |models| && models[i] !in models[..i]
    ensures NextModel(models, models[i]) == if i + 1 < |models| then Some(models[i + 1]) else None
  {
    if i > 0 {
      assert models[0] in models[..i];
      assert models[1..][..i - 1] == models[..i][1..];
      NextModelAt(models[1..], i - 1);
    }
  }
}
