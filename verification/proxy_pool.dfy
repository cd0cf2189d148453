/** ProxyPool: the full list of proxies and the pre-filtered slice that Next rotates over. */
module ProxyPooling {
  import opened Seqs
  import opened GoStrings

  const FAIL_THRESHOLD := 5

  datatype Entry = Entry(id: string, protocol: string, host: string, port: int, username: string, password: string,
                         enabled: bool, caption: string, upstreams: seq<string>, createdAt: int, failCount: int)

  /** An Update request; upstreams None is Go's nil slice. */
  datatype Patch = Patch(protocol: string, host: string, port: int, username: string, password: string,
                         enabled: bool, caption: string, upstreams: Option<seq<string>>)

  // ---- validation --------------------------------------------------------------------------

  const ALL := "all"

  /** Trimmed, lower-cased, without blanks and repetitions. */
  function CleanUpstreams(lower: string -> string, us: seq<string>): seq<string> {
    if us == [] then []
    else
      var front := CleanUpstreams(lower, Init(us));
      var v := lower(TrimSpace(Last(us)));
      if v == "" || v in front then front else front + [v]
  }

  function NormaliseUpstreams(lower: string -> string, us: seq<string>): seq<string> {
    var clean := CleanUpstreams(lower, us);
    if clean == [] || ALL in clean then [ALL] else clean
  }

  function Validate(lower: string -> string, e: Entry): (r: Option<Entry>)
    ensures r.Some? ==> r.value.id == e.id && r.value.enabled == e.enabled && r.value.failCount == e.failCount
  {
    var n := e.(protocol := lower(TrimSpace(e.protocol)), host := TrimSpace(e.host), caption := TrimSpace(e.caption),
                username := TrimSpace(e.username), upstreams := NormaliseUpstreams(lower, e.upstreams));
    if (exists i | 0 <= i < |n.upstreams| :: n.upstreams[i] !in [ALL, "grok", "codebuddy"]) then None
    else if n.protocol !in ["http", "socks5"] then None
    else if n.host == "" || |n.host| > 253 || ContainsAny(n.host, " \t\r\n/\\") then None
    else if n.port < 1 || n.port > 65535 then None
    else if |n.caption| > 64 || |n.username| > 256 || |n.password| > 256 then None
    else Some(n)
  }

  /** Trims and lower-cases, drops blanks and repetitions; "all" wins, and stands for an empty list. */
  method NormaliseList(lower: string -> string, us: seq<string>) returns (out: seq<string>)
    ensures out == NormaliseUpstreams(lower, us)
  {
    hide TrimSpace;
    out := [];
    var hasAll := false;
    for i := 0 to |us|
      invariant out == CleanUpstreams(lower, us[..i])
      invariant hasAll <==> ALL in out
    {
      assert Init(us[..i + 1]) == us[..i] && Last(us[..i + 1]) == us[i];
      var v := lower(TrimSpace(us[i]));
      if v == "" || v in out {
        continue;
      }
      if v == ALL {
        hasAll := true;
      }
      out := out + [v];
    }
    assert us[..|us|] == us;
    if |out| == 0 || hasAll {
      out := [ALL];
    }
  }

  method ValidateEntry(lower: string -> string, entry: Entry) returns (valid: Option<Entry>)
    ensures valid == Validate(lower, entry)
  {
    hide TrimSpace, NormaliseUpstreams, ContainsAny;
    var e := entry.(protocol := lower(TrimSpace(entry.protocol)), host := TrimSpace(entry.host),
                    caption := TrimSpace(entry.caption), username := TrimSpace(entry.username));
    var us := NormaliseList(lower, entry.upstreams);
    e := e.(upstreams := us);
    for i := 0 to |us|
      invariant forall j | 0 <= j < i :: us[j] in [ALL, "grok", "codebuddy"]
    {
      if us[i] !in [ALL, "grok", "codebuddy"] {
        return None;
      }
    }
    if e.protocol != "http" && e.protocol != "socks5" {
      return None;
    }
    if e.host == "" || |e.host| > 253 || ContainsAny(e.host, " \t\r\n/\\") {
      return None;
    }
    if e.port < 1 || e.port > 65535 || |e.caption| > 64 || |e.username| > 256 || |e.password| > 256 {
      return None;
    }
    return Some(e);
  }

  // ---- the pool as a value -----------------------------------------------------------------

  datatype Pool = Pool(entries: seq<Entry>, enabled: seq<Entry>)

  /** First position of an id, or -1. */
  function Find(entries: seq<Entry>, id: string): (i: int)
    ensures -1 <= i < |entries|
    ensures i == -1 ==> forall k | 0 <= k < |entries| :: entries[k].id != id
    ensures i != -1 ==> entries[i].id == id && forall k | 0 <= k < i :: entries[k].id != id
  {
    if entries == [] then -1
    else
      var i := Find(Init(entries), id);
      if i != -1 then i else if Last(entries).id == id then |entries| - 1 else -1
  }

  function EnabledOf(entries: seq<Entry>): seq<Entry> {
    if entries == [] then []
    else EnabledOf(Init(entries)) + (if Last(entries).enabled then [Last(entries)] else [])
  }

  function Rebuilt(entries: seq<Entry>): Pool {
    Pool(entries, EnabledOf(entries))
  }

  function Added(lower: string -> string, p: Pool, e: Entry, id: string, now: int): Pool {
    match Validate(lower, e)
    case None => p
    case Some(n) => Rebuilt(p.entries + [n.(id := id, createdAt := now, failCount := 0)])
  }

  /** Blank protocol, host and port keep the old value; a password of three stars does too. */
  function Patched(c: Entry, q: Patch): Entry {
    c.(protocol := if q.protocol != "" then q.protocol else c.protocol,
       host := if q.host != "" then q.host else c.host,
       port := if q.port != 0 then q.port else c.port,
       username := q.username,
       caption := q.caption,
       password := if q.password != "***" then q.password else c.password,
       enabled := q.enabled,
       upstreams := if q.upstreams.Some? then q.upstreams.value else c.upstreams)
  }

  function Updated(lower: string -> string, p: Pool, id: string, q: Patch): Pool {
    var i := Find(p.entries, id);
    if id == "" || i == -1 then p
    else match Validate(lower, Patched(p.entries[i], q))
      case None => p
      case Some(n) => Rebuilt(p.entries[i := n.(failCount := 0)])
  }

  function Without(entries: seq<Entry>, id: string): seq<Entry> {
    if entries == [] then []
    else Without(Init(entries), id) + (if Last(entries).id == id then [] else [Last(entries)])
  }

  function Deleted(p: Pool, id: string): Pool {
    if id == "" || Find(p.entries, id) == -1 then p else Rebuilt(Without(p.entries, id))
  }

  function Flipped(e: Entry): Entry {
    if e.enabled then e.(enabled := false) else e.(enabled := true, failCount := 0)
  }

  function Toggled(p: Pool, id: string): Pool {
    var i := Find(p.entries, id);
    if i == -1 then p else Rebuilt(p.entries[i := Flipped(p.entries[i])])
  }

  /** A failure disables the entry when it reaches the threshold; only then is the slice rebuilt. */
  function Failed(p: Pool, id: string): Pool {
    var i := Find(p.entries, id);
    if id == "" || i == -1 then p
    else
      var e := p.entries[i].(failCount := p.entries[i].failCount + 1);
      if e.failCount >= FAIL_THRESHOLD && e.enabled then Rebuilt(p.entries[i := e.(enabled := false)])
      else p.(entries := p.entries[i := e])
  }

  function Succeeded(p: Pool, id: string): Pool {
    var i := Find(p.entries, id);
    if id == "" || i == -1 then p else p.(entries := p.entries[i := p.entries[i].(failCount := 0)])
  }

  predicate AppliesTo(e: Entry, upstream: string) {
    e.upstreams == [] || exists i | 0 <= i < |e.upstreams| :: e.upstreams[i] == ALL || e.upstreams[i] == upstream
  }

  function Scoped(entries: seq<Entry>, upstream: string): seq<Entry> {
    if entries == [] then []
    else Scoped(Init(entries), upstream) + (if AppliesTo(Last(entries), upstream) then [Last(entries)] else [])
  }

  lemma NoEntries(id: string, upstream: string)
    ensures Without([], id) == [] && Find([], id) == -1 && Scoped([], upstream) == []
  {
  }

  /** One more entry: it joins what is left unless it carries the id, and the candidates if it applies. */
  lemma NextEntry(entries: seq<Entry>, i: nat, id: string, upstream: string)
    requires i < |entries|
    ensures Without(entries[..i + 1], id)
         == if entries[i].id == id then Without(entries[..i], id) else Without(entries[..i], id) + [entries[i]]
    ensures Find(entries[..i + 1], id) != -1 <==> Find(entries[..i], id) != -1 || entries[i].id == id
    ensures Scoped(entries[..i + 1], upstream)
         == if AppliesTo(entries[i], upstream) then Scoped(entries[..i], upstream) + [entries[i]] else Scoped(entries[..i], upstream)
  {
    hide AppliesTo;
    assert Init(entries[..i + 1]) == entries[..i];
  }

  // ---- the index invariant -----------------------------------------------------------------

  /** Equal on all fields but FailCount. */
  predicate SameBut(a: Entry, b: Entry) {
    a.(failCount := 0) == b.(failCount := 0)
  }

  ghost predicate SameButAll(a: seq<Entry>, b: seq<Entry>) {
    |a| == |b| && forall i | 0 <= i < |a| :: SameBut(a[i], b[i])
  }

  /** The slice is the enabled entries in order, and every enabled entry is below the threshold. */
  ghost predicate Indexed(p: Pool) {
    && SameButAll(p.enabled, EnabledOf(p.entries))
    && forall i | 0 <= i < |p.entries| && p.entries[i].enabled :: p.entries[i].failCount < FAIL_THRESHOLD
  }

  lemma {:induction false} EnabledSame(a: seq<Entry>, b: seq<Entry>)
    requires SameButAll(a, b)
    ensures SameButAll(EnabledOf(a), EnabledOf(b))
  {
    if a != [] {
      EnabledSame(Init(a), Init(b));
      assert SameBut(a[|a| - 1], b[|b| - 1]);
    }
  }

  lemma {:induction false} WithoutIn(entries: seq<Entry>, id: string)
    ensures forall e | e in Without(entries, id) :: e in entries && e.id != id
    ensures forall e | e in entries && e.id != id :: e in Without(entries, id)
  {
    if entries != [] {
      WithoutIn(Init(entries), id);
      InitLast(entries);
    }
  }

  lemma AddedIndexed(lower: string -> string, p: Pool, e: Entry, id: string, now: int)
    requires Indexed(p)
    ensures Indexed(Added(lower, p, e, id, now))
  {
  }

  lemma UpdatedIndexed(lower: string -> string, p: Pool, id: string, q: Patch)
    requires Indexed(p)
    ensures Indexed(Updated(lower, p, id, q))
  {
  }

  lemma DeletedIndexed(p: Pool, id: string)
    requires Indexed(p)
    ensures Indexed(Deleted(p, id))
  {
    WithoutIn(p.entries, id);
    var left := Without(p.entries, id);
    forall i | 0 <= i < |left| && left[i].enabled ensures left[i].failCount < FAIL_THRESHOLD {
      assert left[i] in left;
    }
  }

  lemma ToggledIndexed(p: Pool, id: string)
    requires Indexed(p)
    ensures Indexed(Toggled(p, id))
  {
  }

  lemma CountOnlyIndexed(p: Pool, i: nat, n: int)
    requires Indexed(p) && i < |p.entries| && (p.entries[i].enabled ==> n < FAIL_THRESHOLD)
    ensures Indexed(p.(entries := p.entries[i := p.entries[i].(failCount := n)]))
  {
    var entries := p.entries[i := p.entries[i].(failCount := n)];
    EnabledSame(p.entries, entries);
  }

  lemma FailedIndexed(p: Pool, id: string)
    requires Indexed(p)
    ensures Indexed(Failed(p, id))
  {
    var i := Find(p.entries, id);
    if i != -1 {
      var n := p.entries[i].failCount + 1;
      if !(n >= FAIL_THRESHOLD && p.entries[i].enabled) {
        CountOnlyIndexed(p, i, n);
      }
    }
  }

  lemma SucceededIndexed(p: Pool, id: string)
    requires Indexed(p)
    ensures Indexed(Succeeded(p, id))
  {
    var i := Find(p.entries, id);
    if i != -1 {
      CountOnlyIndexed(p, i, 0);
    }
  }

  // ---- the pool object ---------------------------------------------------------------------

  class ProxyPool {
    const lower: string -> string
    var entries: seq<Entry>
    var enabled: seq<Entry>
    var rrIndex: nat

    ghost function Value(): Pool
      reads this
    {
      Pool(entries, enabled)
    }

    ghost predicate Valid()
      reads this
    {
      Indexed(Value())
    }

    constructor (lower: string -> string)
      ensures this.lower == lower && Valid() && Value() == Pool([], []) && rrIndex == 0
    {
      this.lower := lower;
      entries, enabled, rrIndex := [], [], 0;
    }

    method RebuildEnabled()
      modifies this`enabled
      ensures enabled == EnabledOf(entries)
    {
      var next: seq<Entry> := [];
      var i := 0;
      while i < |entries|
        invariant 0 <= i <= |entries|
        invariant next == EnabledOf(entries[..i])
      {
        if entries[i].enabled {
          next := next + [entries[i]];
        }
        i := i + 1;
        assert Init(entries[..i]) == entries[..i - 1];
      }
      assert entries[..i] == entries;
      enabled := next;
    }

    method IndexOfId(id: string) returns (idx: int)
      ensures idx == Find(entries, id)
    {
      idx := -1;
      var i := 0;
      while i < |entries|
        invariant 0 <= i <= |entries|
        invariant idx == -1 && forall k | 0 <= k < i :: entries[k].id != id
      {
        if entries[i].id == id {
          return i;
        }
        i := i + 1;
      }
    }

    /** `id` is the freshly generated identifier. */
    method AddProxy(entry: Entry, id: string, now: int) returns (created: Option<Entry>)
      requires Valid()
      modifies this`entries, this`enabled
      ensures Valid() && Value() == Added(lower, old(Value()), entry, id, now)
      ensures created.None? <==> Validate(lower, entry).None?
      ensures created.Some? ==> created.value == Last(entries) && created.value.id == id
    {
      AddedIndexed(lower, Value(), entry, id, now);
      var valid := ValidateEntry(lower, entry);
      if valid.None? {
        return None;
      }
      var e := valid.value.(id := id, createdAt := now, failCount := 0);
      entries := entries + [e];
      RebuildEnabled();
      return Some(e);
    }

    method ApplyPatch(existing: Entry, input: Patch) returns (current: Entry)
      ensures current == Patched(existing, input)
    {
      current := existing;
      if input.protocol != "" {
        current := current.(protocol := input.protocol);
      }
      if input.host != "" {
        current := current.(host := input.host);
      }
      if input.port != 0 {
        current := current.(port := input.port);
      }
      current := current.(username := input.username, caption := input.caption);
      if input.password != "***" {
        current := current.(password := input.password);
      }
      current := current.(enabled := input.enabled);
      if input.upstreams.Some? {
        current := current.(upstreams := input.upstreams.value);
      }
    }

    method Update(id: string, input: Patch) returns (updated: Option<Entry>)
      requires Valid()
      modifies this`entries, this`enabled
      ensures Valid() && Value() == Updated(lower, old(Value()), id, input)
      ensures updated.Some? ==> updated.value in entries && updated.value.failCount == 0
    {
      hide Validate, Patched;
      UpdatedIndexed(lower, Value(), id, input);
      if id == "" {
        return None;
      }
      var idx := IndexOfId(id);
      if idx == -1 {
        return None;
      }
      var current := ApplyPatch(entries[idx], input);
      var valid := ValidateEntry(lower, current);
      if valid.None? {
        return None;
      }
      current := valid.value.(failCount := 0);
      entries := entries[idx := current];
      assert entries[idx] == current;
      RebuildEnabled();
      return Some(current);
    }

    method Delete(id: string) returns (found: bool)
      requires Valid()
      modifies this`entries, this`enabled
      ensures Valid() && Value() == Deleted(old(Value()), id)
      ensures found == (id != "" && Find(old(entries), id) != -1)
    {
      hide Indexed, Without, EnabledOf, Find;
      DeletedIndexed(Value(), id);
      NoEntries(id, "");
      found := false;
      if id == "" {
        return;
      }
      var next: seq<Entry> := [];
      var i := 0;
      while i < |entries|
        invariant 0 <= i <= |entries|
        invariant Value() == old(Value())
        invariant next == Without(entries[..i], id)
        invariant found <==> Find(entries[..i], id) != -1
      {
        if entries[i].id == id {
          found := true;
        } else {
          next := next + [entries[i]];
        }
        NextEntry(entries, i, id, "");
        i := i + 1;
      }
      assert entries[..i] == entries;
      if !found {
        return;
      }
      entries := next;
      RebuildEnabled();
    }

    method Toggle(id: string) returns (state: Option<bool>)
      requires Valid()
      modifies this`entries, this`enabled
      ensures Valid() && Value() == Toggled(old(Value()), id)
      ensures state == var i := Find(old(entries), id);
                       if i == -1 then None else Some(!old(entries)[i].enabled)
    {
      ToggledIndexed(Value(), id);
      var idx := IndexOfId(id);
      if idx == -1 {
        return None;
      }
      entries := entries[idx := entries[idx].(enabled := !entries[idx].enabled)];
      if entries[idx].enabled {
        entries := entries[idx := entries[idx].(failCount := 0)];
      }
      assert entries == old(entries)[idx := Flipped(old(entries)[idx])];
      RebuildEnabled();
      return Some(entries[idx].enabled);
    }

    method MarkFailed(id: string)
      requires Valid()
      modifies this`entries, this`enabled
      ensures Valid() && Value() == Failed(old(Value()), id)
    {
      FailedIndexed(Value(), id);
      if id == "" {
        return;
      }
      var idx := IndexOfId(id);
      if idx == -1 {
        return;
      }
      entries := entries[idx := entries[idx].(failCount := entries[idx].failCount + 1)];
      var fc := entries[idx].failCount;
      if fc >= FAIL_THRESHOLD && entries[idx].enabled {
        entries := entries[idx := entries[idx].(enabled := false)];
        assert entries == old(entries)[idx := old(entries)[idx].(failCount := fc, enabled := false)];
        RebuildEnabled();
      }
    }

    method MarkSuccess(id: string)
      requires Valid()
      modifies this`entries
      ensures Valid() && Value() == Succeeded(old(Value()), id)
    {
      SucceededIndexed(Value(), id);
      if id == "" {
        return;
      }
      var idx := IndexOfId(id);
      if idx == -1 {
        return;
      }
      if entries[idx].failCount != 0 {
        entries := entries[idx := entries[idx].(failCount := 0)];
      }
      assert entries == old(entries)[idx := old(entries)[idx].(failCount := 0)];
    }

    /** Round robin with the in-process counter over the enabled entries scoped to the upstream:
        what it hands out is, but for the failure count, an enabled entry of the full list. */
    method Next(upstream: string) returns (r: Option<Entry>)
      requires Valid()
      modifies this`rrIndex
      ensures r.None? <==> forall i | 0 <= i < |entries| :: !(entries[i].enabled && AppliesTo(entries[i], upstream))
      ensures r.None? ==> rrIndex == old(rrIndex)
      ensures r.Some? ==>
                && rrIndex == old(rrIndex) + 1
                && |Scoped(enabled, upstream)| > 0
                && r.value == Scoped(enabled, upstream)[old(rrIndex) % |Scoped(enabled, upstream)|]
                && exists i | 0 <= i < |entries| ::
                     entries[i].enabled && AppliesTo(entries[i], upstream) && SameBut(entries[i], r.value)
    {
      hide Scoped, AppliesTo, EnabledOf, Indexed;
      NoEntries("", upstream);
      var scoped: seq<Entry> := [];
      var i := 0;
      while i < |enabled|
        invariant 0 <= i <= |enabled| && rrIndex == old(rrIndex)
        invariant scoped == Scoped(enabled[..i], upstream)
      {
        if AppliesTo(enabled[i], upstream) {
          scoped := scoped + [enabled[i]];
        }
        NextEntry(enabled, i, "", upstream);
        i := i + 1;
      }
      assert enabled[..i] == enabled;
      ghost var p := Value();
      assert p.entries == entries && p.enabled == enabled;
      ScopedIsEligible(p, upstream);
      hide SameBut, SameButAll;
      var n := |scoped|;
      if n == 0 {
        return None;
      }
      rrIndex := rrIndex + 1;
      var idx := (rrIndex - 1) % n;
      ghost var w := ServedBy(p, upstream, idx);
      assert entries[w] == p.entries[w];
      return Some(scoped[idx]);
    }
  }

  lemma {:induction false} ScopedIn(entries: seq<Entry>, upstream: string)
    ensures forall e :: e in Scoped(entries, upstream) <==> e in entries && AppliesTo(e, upstream)
  {
    if entries != [] {
      ScopedIn(Init(entries), upstream);
      InitLast(entries);
    }
  }

  lemma {:induction false} EnabledIn(entries: seq<Entry>)
    ensures forall e :: e in EnabledOf(entries) <==> e in entries && e.enabled
  {
    if entries != [] {
      EnabledIn(Init(entries));
      InitLast(entries);
    }
  }

  /** The scoped slice is empty exactly when no enabled entry applies, and holds only such entries. */
  lemma ScopedIsEligible(p: Pool, upstream: string)
    requires Indexed(p)
    ensures forall e | e in Scoped(p.enabled, upstream) ::
              exists i | 0 <= i < |p.entries| ::
                p.entries[i].enabled && AppliesTo(p.entries[i], upstream) && SameBut(p.entries[i], e)
    ensures |Scoped(p.enabled, upstream)| == 0 <==>
            forall i | 0 <= i < |p.entries| :: !(p.entries[i].enabled && AppliesTo(p.entries[i], upstream))
  {
    hide Scoped, EnabledOf;
    ScopedIn(p.enabled, upstream);
    EnabledIn(p.entries);
    var on := EnabledOf(p.entries);
    forall e | e in Scoped(p.enabled, upstream)
      ensures exists i | 0 <= i < |p.entries| ::
                p.entries[i].enabled && AppliesTo(p.entries[i], upstream) && SameBut(p.entries[i], e)
    {
      var k :| 0 <= k < |p.enabled| && p.enabled[k] == e;
      assert on[k] in on && SameBut(p.enabled[k], on[k]);
    }
    forall i | 0 <= i < |p.entries| && p.entries[i].enabled && AppliesTo(p.entries[i], upstream)
      ensures |Scoped(p.enabled, upstream)| > 0
    {
      assert p.entries[i] in on;
      var k :| 0 <= k < |on| && on[k] == p.entries[i];
      assert SameBut(p.enabled[k], on[k]);
      assert p.enabled[k] in Scoped(p.enabled, upstream);
    }
    if |Scoped(p.enabled, upstream)| > 0 {
      assert Scoped(p.enabled, upstream)[0] in Scoped(p.enabled, upstream);
    }
  }

  /** The enabled entry of the full list behind a candidate. */
  lemma ServedBy(p: Pool, upstream: string, idx: nat) returns (w: nat)
    requires Indexed(p) && idx < |Scoped(p.enabled, upstream)|
    ensures w < |p.entries| && p.entries[w].enabled && AppliesTo(p.entries[w], upstream)
    ensures SameBut(p.entries[w], Scoped(p.enabled, upstream)[idx])
  {
    hide Scoped, EnabledOf, Indexed, AppliesTo, SameBut;
    ScopedIsEligible(p, upstream);
    var e := Scoped(p.enabled, upstream)[idx];
    assert e in Scoped(p.enabled, upstream);
    w :| w < |p.entries| && p.entries[w].enabled && AppliesTo(p.entries[w], upstream) && SameBut(p.entries[w], e);
  }

  // ---- runs --------------------------------------------------------------------------------

  datatype Event =
    | Add(entry: Entry, newId: string, at: int)
    | Change(id: string, patch: Patch)
    | Drop(id: string)
    | Flip(id: string)
    | Fail(id: string)
    | Good(id: string)

  function Step(lower: string -> string, p: Pool, e: Event): Pool {
    match e
    case Add(entry, newId, at) => Added(lower, p, entry, newId, at)
    case Change(id, patch) => Updated(lower, p, id, patch)
    case Drop(id) => Deleted(p, id)
    case Flip(id) => Toggled(p, id)
    case Fail(id) => Failed(p, id)
    case Good(id) => Succeeded(p, id)
  }

  function Play(lower: string -> string, run: seq<Event>): Pool {
    if run == [] then Pool([], []) else Step(lower, Play(lower, Init(run)), Last(run))
  }

  /** In every run the slice and the list agree. */
  lemma {:induction false} AlwaysIndexed(lower: string -> string, run: seq<Event>)
    ensures Indexed(Play(lower, run))
  {
    if run != [] {
      AlwaysIndexed(lower, Init(run));
      var p := Play(lower, Init(run));
      match Last(run)
      case Add(entry, newId, at) => AddedIndexed(lower, p, entry, newId, at);
      case Change(id, patch) => UpdatedIndexed(lower, p, id, patch);
      case Drop(id) => DeletedIndexed(p, id);
      case Flip(id) => ToggledIndexed(p, id);
      case Fail(id) => FailedIndexed(p, id);
      case Good(id) => SucceededIndexed(p, id);
    }
  }

  // ---- failure counts ----------------------------------------------------------------------

  /** A run whose generated ids are not in use when they are added. */
  ghost predicate FreshIds(lower: string -> string, run: seq<Event>) {
    forall i | 0 <= i < |run| && run[i].Add? :: Find(Play(lower, run[..i]).entries, run[i].newId) == -1 && run[i].newId != ""
  }

  /** The events after which an operator or a success has given the entry a clean slate. */
  predicate Clears(lower: string -> string, p: Pool, e: Event, id: string) {
    match e
    case Add(_, newId, _) => newId == id
    case Change(cid, patch) =>
      var i := Find(p.entries, id);
      cid == id && i != -1 && Validate(lower, Patched(p.entries[i], patch)).Some?
    case Flip(fid) => fid == id && Find(p.entries, id) != -1 && !p.entries[Find(p.entries, id)].enabled
    case Good(gid) => gid == id
    case _ => false
  }

  /** Failures marked for an id since the last event that cleared it. */
  function FailuresSince(lower: string -> string, run: seq<Event>, id: string): nat {
    if run == [] then 0
    else
      var p := Play(lower, Init(run));
      if Clears(lower, p, Last(run), id) then 0
      else FailuresSince(lower, Init(run), id) + (if Last(run) == Fail(id) then 1 else 0)
  }

  ghost predicate DistinctIds(entries: seq<Entry>) {
    && (forall i, j | 0 <= i < j < |entries| :: entries[i].id != entries[j].id)
    && forall i | 0 <= i < |entries| :: entries[i].id != ""
  }

  lemma {:induction false} WithoutDistinct(entries: seq<Entry>, id: string)
    requires DistinctIds(entries)
    ensures DistinctIds(Without(entries, id))
  {
    if entries != [] {
      DistinctLast(entries);
      WithoutDistinct(Init(entries), id);
      WithoutIn(Init(entries), id);
      DistinctSnoc(Without(Init(entries), id), Last(entries));
      hide DistinctIds;
    }
  }

  lemma DistinctLast(entries: seq<Entry>)
    requires entries != [] && DistinctIds(entries)
    ensures DistinctIds(Init(entries)) && Last(entries).id != ""
    ensures forall e | e in Init(entries) :: e.id != Last(entries).id
  {
  }

  lemma DistinctSnoc(entries: seq<Entry>, e: Entry)
    requires DistinctIds(entries) && e.id != ""
    requires forall x | x in entries :: x.id != e.id
    ensures DistinctIds(entries + [e])
  {
    forall i | 0 <= i < |entries| ensures entries[i].id != e.id {
      assert entries[i] in entries;
    }
  }

  lemma StepDistinct(lower: string -> string, p: Pool, e: Event)
    requires DistinctIds(p.entries)
    requires e.Add? ==> Find(p.entries, e.newId) == -1 && e.newId != ""
    ensures DistinctIds(Step(lower, p, e).entries)
  {
    hide Validate, Patched;
    match e
    case Drop(id) => WithoutDistinct(p.entries, id);
    case Change(id, patch) =>
      var i := Find(p.entries, id);
      if i != -1 {
        assert Patched(p.entries[i], patch).id == id by {
          PatchedId(p.entries[i], patch);
        }
      }
    case _ =>
  }

  lemma PatchedId(c: Entry, q: Patch)
    ensures Patched(c, q).id == c.id
  {
  }

  lemma FindAt(entries: seq<Entry>, i: nat)
    requires DistinctIds(entries) && i < |entries|
    ensures Find(entries, entries[i].id) == i
  {
  }

  /** Where an entry after one step comes from: it is cleared, or it is the old entry of the same
      id, one failure later if the step marked one. */
  ghost predicate Accounted(lower: string -> string, p: Pool, e: Event, x: Entry) {
    var k := Find(p.entries, x.id);
    if Clears(lower, p, e, x.id) then x.failCount == 0
    else k != -1 && x.failCount == p.entries[k].failCount + (if e == Fail(x.id) then 1 else 0)
  }

  lemma AddCounts(lower: string -> string, p: Pool, entry: Entry, newId: string, at: int, i: nat)
    requires DistinctIds(p.entries) && Find(p.entries, newId) == -1
    requires i < |Added(lower, p, entry, newId, at).entries|
    ensures Accounted(lower, p, Add(entry, newId, at), Added(lower, p, entry, newId, at).entries[i])
  {
    hide Validate;
    if i < |p.entries| {
      FindAt(p.entries, i);
      assert p.entries[i].id != newId;
    }
  }

  lemma ChangeCounts(lower: string -> string, p: Pool, id: string, patch: Patch, i: nat)
    requires DistinctIds(p.entries) && i < |Updated(lower, p, id, patch).entries|
    ensures Accounted(lower, p, Change(id, patch), Updated(lower, p, id, patch).entries[i])
  {
    hide Validate, Patched;
    FindAt(p.entries, i);
    var k := Find(p.entries, id);
    if k != -1 {
      PatchedId(p.entries[k], patch);
      FindAt(p.entries, k);
    }
  }

  lemma DropCounts(lower: string -> string, p: Pool, id: string, i: nat)
    requires DistinctIds(p.entries) && i < |Deleted(p, id).entries|
    ensures Accounted(lower, p, Drop(id), Deleted(p, id).entries[i])
  {
    WithoutIn(p.entries, id);
    var x := Deleted(p, id).entries[i];
    assert x in Deleted(p, id).entries && x in p.entries;
    var k :| 0 <= k < |p.entries| && p.entries[k] == x;
    FindAt(p.entries, k);
  }

  lemma CountCounts(lower: string -> string, p: Pool, e: Event, i: nat)
    requires DistinctIds(p.entries) && (e.Flip? || e.Fail? || e.Good?)
    requires i < |Step(lower, p, e).entries|
    ensures Accounted(lower, p, e, Step(lower, p, e).entries[i])
  {
    CountsAt(lower, p, e, i);
    FindAt(p.entries, i);
    assert p.entries[i].id != "";
    hide DistinctIds, Find, Step;
  }

  /** Only the entry of the event's id changes. */
  lemma CountsAt(lower: string -> string, p: Pool, e: Event, i: nat)
    requires DistinctIds(p.entries) && (e.Flip? || e.Fail? || e.Good?)
    requires i < |Step(lower, p, e).entries|
    ensures i < |p.entries|
    ensures var x, y := p.entries[i], Step(lower, p, e).entries[i];
            && y.id == x.id
            && y.failCount == if x.id != e.id then x.failCount
                              else match e
                                   case Flip(_) => if x.enabled then x.failCount else 0
                                   case Fail(_) => if x.id == "" then x.failCount else x.failCount + 1
                                   case _ => if x.id == "" then x.failCount else 0
  {
    FindAt(p.entries, i);
    hide DistinctIds;
  }

  lemma StepCounts(lower: string -> string, p: Pool, e: Event, i: nat)
    requires DistinctIds(p.entries)
    requires e.Add? ==> Find(p.entries, e.newId) == -1 && e.newId != ""
    requires i < |Step(lower, p, e).entries|
    ensures Accounted(lower, p, e, Step(lower, p, e).entries[i])
  {
    hide Accounted, Find, Rebuilt;
    match e
    case Add(entry, newId, at) => AddCounts(lower, p, entry, newId, at, i);
    case Change(id, patch) => ChangeCounts(lower, p, id, patch, i);
    case Drop(id) => DropCounts(lower, p, id, i);
    case _ => CountCounts(lower, p, e, i);
  }

  lemma FreshPrefix(lower: string -> string, run: seq<Event>)
    requires run != [] && FreshIds(lower, run)
    ensures FreshIds(lower, Init(run))
    ensures Last(run).Add? ==> Find(Play(lower, Init(run)).entries, Last(run).newId) == -1 && Last(run).newId != ""
  {
    assert run[..|run| - 1] == Init(run);
    forall i | 0 <= i < |Init(run)| && Init(run)[i].Add?
      ensures Find(Play(lower, Init(run)[..i]).entries, Init(run)[i].newId) == -1 && Init(run)[i].newId != ""
    {
      assert Init(run)[..i] == run[..i] && run[i].Add?;
    }
  }

  /** In every run with fresh ids, ids stay distinct and every FailCount is the number of failures
      marked since the entry's last success, update, re-enabling or creation. */
  lemma {:induction false} FailCountIsHistory(lower: string -> string, run: seq<Event>)
    requires FreshIds(lower, run)
    ensures DistinctIds(Play(lower, run).entries)
    ensures forall i | 0 <= i < |Play(lower, run).entries| ::
              Play(lower, run).entries[i].failCount == FailuresSince(lower, run, Play(lower, run).entries[i].id)
  {
    if run != [] {
      FreshPrefix(lower, run);
      FailCountIsHistory(lower, Init(run));
      var p, e := Play(lower, Init(run)), Last(run);
      StepDistinct(lower, p, e);
      forall i | 0 <= i < |Step(lower, p, e).entries|
        ensures Step(lower, p, e).entries[i].failCount == FailuresSince(lower, run, Step(lower, p, e).entries[i].id)
      {
        StepCounts(lower, p, e, i);
      }
    }
  }
}
