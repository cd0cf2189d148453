/** What validation accepts and what each operation does to an entry, written out field by field. */
module ProxyEntries {
  import opened Seqs
  import opened GoStrings
  import opened ProxyPooling

  // ---- the upstream list ---------------------------------------------------------------------

  /** The values as they are compared: trimmed and lower-cased. */
  function Compared(lower: string -> string, us: seq<string>): (r: seq<string>)
    ensures |r| == |us| && forall i | 0 <= i < |us| :: r[i] == lower(TrimSpace(us[i]))
  {
    seq(|us|, i requires 0 <= i < |us| => lower(TrimSpace(us[i])))
  }

  /** u holds the values of vs that are not blank, each once, in the order of their first places idx. */
  ghost predicate FirstPlaces(vs: seq<string>, u: seq<string>, idx: seq<int>) {
    && |idx| == |u|
    && (forall k | 0 <= k < |u| :: 0 <= idx[k] < |vs| && vs[idx[k]] == u[k] != "" && forall j | 0 <= j < idx[k] :: vs[j] != u[k])
    && (forall k, l | 0 <= k < l < |u| :: idx[k] < idx[l])
    && (forall j | 0 <= j < |vs| && vs[j] != "" :: vs[j] in u)
  }

  lemma {:induction false} CleanIs(lower: string -> string, us: seq<string>) returns (idx: seq<int>)
    ensures FirstPlaces(Compared(lower, us), CleanUpstreams(lower, us), idx)
  {
    if us == [] {
      idx := [];
    } else {
      var front := Init(us);
      var before := CleanIs(lower, front);
      var vs, u, v := Compared(lower, front), CleanUpstreams(lower, front), lower(TrimSpace(Last(us)));
      assert Compared(lower, us) == vs + [v];
      idx := if v == "" || v in u then before else before + [|front|];
      PlacesSnoc(vs, u, before, v);
    }
  }

  lemma PlacesSnoc(vs: seq<string>, u: seq<string>, idx: seq<int>, v: string)
    requires FirstPlaces(vs, u, idx)
    ensures if v == "" || v in u then FirstPlaces(vs + [v], u, idx) else FirstPlaces(vs + [v], u + [v], idx + [|vs|])
  {
    var more := vs + [v];
    assert forall j | 0 <= j < |vs| :: more[j] == vs[j];
    if v != "" && v !in u {
      forall j | 0 <= j < |vs| ensures more[j] != v {
        assert vs[j] != "" ==> vs[j] in u;
      }
    }
  }

  /** An entry's upstreams once validated: ["all"] if none is named or "all" is among them, and else the
      named ones, each once, in order. */
  lemma UpstreamsAre(lower: string -> string, us: seq<string>) returns (idx: seq<int>)
    ensures var vs, u := Compared(lower, us), NormaliseUpstreams(lower, us);
            if "all" in vs || forall i | 0 <= i < |vs| :: vs[i] == "" then u == ["all"]
            else FirstPlaces(vs, u, idx)
  {
    hide CleanUpstreams;
    idx := CleanIs(lower, us);
    var vs, u := Compared(lower, us), CleanUpstreams(lower, us);
    if "all" in vs {
      var j :| 0 <= j < |vs| && vs[j] == "all";
      assert vs[j] in u;
    }
    if u != [] {
      assert vs[idx[0]] == u[0] != "";
    }
    if "all" in u {
      var k :| 0 <= k < |u| && u[k] == "all";
      assert vs[idx[k]] == "all";
    }
  }

  // ---- what is accepted ----------------------------------------------------------------------

  /** A host without blanks, line breaks or slashes, of at most 253 characters. */
  predicate GoodHost(host: string) {
    0 < |host| <= 253 && forall i | 0 <= i < |host| :: host[i] !in {' ', '\t', '\r', '\n', '/', '\\'}
  }

  /** Validation accepts exactly the entries in range, and normalises the four texts and the upstreams. */
  lemma ValidateIs(lower: string -> string, e: Entry)
    ensures var vs, p, host := Compared(lower, e.upstreams), lower(TrimSpace(e.protocol)), TrimSpace(e.host);
            && (Validate(lower, e).Some? <==>
                  && ("all" in vs || forall i | 0 <= i < |vs| :: vs[i] in {"", "grok", "codebuddy"})
                  && p in {"http", "socks5"} && GoodHost(host) && 1 <= e.port <= 65535
                  && |TrimSpace(e.caption)| <= 64 && |TrimSpace(e.username)| <= 256 && |e.password| <= 256)
            && (Validate(lower, e).Some? ==>
                  Validate(lower, e).value == e.(protocol := p, host := host, caption := TrimSpace(e.caption),
                    username := TrimSpace(e.username), upstreams := NormaliseUpstreams(lower, e.upstreams)))
  {
    hide TrimSpace, CleanUpstreams, NormaliseUpstreams, ContainsAny;
    var vs, u := Compared(lower, e.upstreams), NormaliseUpstreams(lower, e.upstreams);
    KnownUpstreams(lower, e.upstreams);
    HostIs(TrimSpace(e.host));
    assert (exists i | 0 <= i < |u| :: u[i] !in [ALL, "grok", "codebuddy"]) <==>
           !(forall i | 0 <= i < |u| :: u[i] in {"all", "grok", "codebuddy"});
  }

  lemma HostIs(host: string)
    ensures GoodHost(host) <==> host != "" && |host| <= 253 && !ContainsAny(host, " \t\r\n/\\")
  {
    var bad := " \t\r\n/\\";
    assert bad[0] == ' ' && bad[1] == '\t' && bad[2] == '\r' && bad[3] == '\n' && bad[4] == '/' && bad[5] == '\\';
    forall c ensures c in bad <==> c in {' ', '\t', '\r', '\n', '/', '\\'} {
    }
    forall i | 0 <= i < |host| ensures host[i] in host {
    }
  }

  lemma KnownUpstreams(lower: string -> string, us: seq<string>)
    ensures var vs, u := Compared(lower, us), NormaliseUpstreams(lower, us);
            (forall i | 0 <= i < |u| :: u[i] in {"all", "grok", "codebuddy"}) <==>
            "all" in vs || forall i | 0 <= i < |vs| :: vs[i] in {"", "grok", "codebuddy"}
  {
    var vs, u := Compared(lower, us), NormaliseUpstreams(lower, us);
    var idx := UpstreamsAre(lower, us);
    hide NormaliseUpstreams, CleanUpstreams;
    if "all" !in vs && !(forall i | 0 <= i < |vs| :: vs[i] == "") {
      forall k | 0 <= k < |u| ensures u[k] == vs[idx[k]] && u[k] != "" {
      }
      if forall i | 0 <= i < |u| :: u[i] in {"all", "grok", "codebuddy"} {
        forall i | 0 <= i < |vs| ensures vs[i] in {"", "grok", "codebuddy"} {
          assert vs[i] in vs;
          assert vs[i] != "" ==> vs[i] in u;
        }
      }
    }
  }

  // ---- what the operations do ------------------------------------------------------------------

  /** The first entry of that id is replaced, the others stay. */
  predicate OnlyAt(before: seq<Entry>, after: seq<Entry>, i: nat) {
    |after| == |before| && i < |before| && forall k | 0 <= k < |before| && k != i :: after[k] == before[k]
  }

  /** A failure adds one to the count and takes the entry out at the fifth; nothing else changes. */
  lemma FailIs(p: Pool, id: string)
    ensures id == "" || (forall k | 0 <= k < |p.entries| :: p.entries[k].id != id) ==> Failed(p, id) == p
    ensures id != "" && !(forall k | 0 <= k < |p.entries| :: p.entries[k].id != id) ==>
              var i, q := Find(p.entries, id), Failed(p, id);
              && 0 <= i < |p.entries| && p.entries[i].id == id && (forall k | 0 <= k < i :: p.entries[k].id != id)
              && OnlyAt(p.entries, q.entries, i)
              && q.entries[i] == p.entries[i].(failCount := p.entries[i].failCount + 1,
                                               enabled := p.entries[i].enabled && p.entries[i].failCount + 1 < 5)
  {
  }

  /** A success clears the count. */
  lemma GoodIs(p: Pool, id: string)
    ensures id == "" || (forall k | 0 <= k < |p.entries| :: p.entries[k].id != id) ==> Succeeded(p, id) == p
    ensures id != "" && !(forall k | 0 <= k < |p.entries| :: p.entries[k].id != id) ==>
              var i, q := Find(p.entries, id), Succeeded(p, id);
              && OnlyAt(p.entries, q.entries, i) && q.enabled == p.enabled
              && p.entries[i].id == id && q.entries[i] == p.entries[i].(failCount := 0)
  {
  }

  /** Toggling negates the flag, and clears the count when it enables. */
  lemma FlipIs(p: Pool, id: string)
    ensures (forall k | 0 <= k < |p.entries| :: p.entries[k].id != id) ==> Toggled(p, id) == p
    ensures !(forall k | 0 <= k < |p.entries| :: p.entries[k].id != id) ==>
              var i, q := Find(p.entries, id), Toggled(p, id);
              && OnlyAt(p.entries, q.entries, i) && p.entries[i].id == id
              && q.entries[i] == p.entries[i].(enabled := !p.entries[i].enabled,
                                               failCount := if p.entries[i].enabled then p.entries[i].failCount else 0)
  {
  }

  /** A new entry goes to the end, with the new id and no failures, if it is valid. */
  lemma AddIs(lower: string -> string, p: Pool, e: Entry, id: string, now: int)
    ensures Validate(lower, e).None? ==> Added(lower, p, e, id, now) == p
    ensures Validate(lower, e).Some? ==>
              Added(lower, p, e, id, now).entries == p.entries + [Validate(lower, e).value.(id := id, createdAt := now, failCount := 0)]
  {
    hide Validate;
  }

  /** A patch: protocol, host and port where given, the password unless it is three stars, the upstreams
      unless they are missing; user name, label and flag always; and the count is cleared. */
  lemma ChangeIs(lower: string -> string, p: Pool, id: string, q: Patch)
    ensures id == "" || (forall k | 0 <= k < |p.entries| :: p.entries[k].id != id) ==> Updated(lower, p, id, q) == p
    ensures id != "" && !(forall k | 0 <= k < |p.entries| :: p.entries[k].id != id) ==>
              var i := Find(p.entries, id);
              && 0 <= i < |p.entries| && p.entries[i].id == id
              && var c := p.entries[i];
                 var wanted := Entry(id, if q.protocol == "" then c.protocol else q.protocol,
                                     if q.host == "" then c.host else q.host, if q.port == 0 then c.port else q.port,
                                     q.username, if q.password == "***" then c.password else q.password, q.enabled, q.caption,
                                     if q.upstreams.None? then c.upstreams else q.upstreams.value, c.createdAt, c.failCount);
                 var r := Updated(lower, p, id, q);
                 if Validate(lower, wanted).None? then r == p
                 else OnlyAt(p.entries, r.entries, i) && r.entries[i] == Validate(lower, wanted).value.(failCount := 0)
  {
    hide Validate;
  }

  function OtherThan(id: string): Entry -> bool {
    (e: Entry) => e.id != id
  }

  function IsEnabled(): Entry -> bool {
    (e: Entry) => e.enabled
  }

  function ScopedTo(upstream: string): Entry -> bool {
    (e: Entry) => e.upstreams == [] || "all" in e.upstreams || upstream in e.upstreams
  }

  /** Deleting removes every entry of that id and keeps the others in order. */
  lemma DropIs(p: Pool, id: string) returns (idx: seq<int>)
    ensures id == "" ==> Deleted(p, id) == p
    ensures id != "" ==> Sifted(p.entries, OtherThan(id), Deleted(p, id).entries, idx)
  {
    idx := WithoutIs(p.entries, id);
    if Find(p.entries, id) == -1 {
      idx := seq(|p.entries|, i => i);
    }
  }

  lemma {:induction false} WithoutIs(entries: seq<Entry>, id: string) returns (idx: seq<int>)
    ensures Sifted(entries, OtherThan(id), Without(entries, id), idx)
  {
    hide Sifted;
    if entries == [] {
      idx := [];
      NoneSifted(OtherThan(id));
    } else {
      var front, x := Init(entries), Last(entries);
      var before := WithoutIs(front, id);
      InitLast(entries);
      SiftedSnoc(front, OtherThan(id), Without(front, id), before, x);
      idx := if OtherThan(id)(x) then before + [|front|] else before;
      assert Without(front, id) + [] == Without(front, id);
    }
  }

  /** The index: the enabled entries in order. */
  lemma {:induction false} EnabledIs(entries: seq<Entry>) returns (idx: seq<int>)
    ensures Sifted(entries, IsEnabled(), EnabledOf(entries), idx)
  {
    hide Sifted;
    if entries == [] {
      idx := [];
      NoneSifted(IsEnabled());
    } else {
      var front, x := Init(entries), Last(entries);
      var before := EnabledIs(front);
      InitLast(entries);
      SiftedSnoc(front, IsEnabled(), EnabledOf(front), before, x);
      idx := if IsEnabled()(x) then before + [|front|] else before;
      assert EnabledOf(front) + [] == EnabledOf(front);
    }
  }

  /** The candidates: the entries without a scope, scoped to "all" or to that upstream, in order. */
  lemma {:induction false} ScopedIs(entries: seq<Entry>, upstream: string) returns (idx: seq<int>)
    ensures Sifted(entries, ScopedTo(upstream), Scoped(entries, upstream), idx)
  {
    hide Sifted, AppliesTo;
    if entries == [] {
      idx := [];
      NoneSifted(ScopedTo(upstream));
    } else {
      var front, x := Init(entries), Last(entries);
      var before := ScopedIs(front, upstream);
      InitLast(entries);
      ScopeOf(x, upstream);
      SiftedSnoc(front, ScopedTo(upstream), Scoped(front, upstream), before, x);
      idx := if ScopedTo(upstream)(x) then before + [|front|] else before;
      assert Scoped(front, upstream) + [] == Scoped(front, upstream);
    }
  }

  lemma ScopeOf(e: Entry, upstream: string)
    ensures AppliesTo(e, upstream) <==> e.upstreams == [] || "all" in e.upstreams || upstream in e.upstreams
  {
  }
}
