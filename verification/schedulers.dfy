/** The cyclic scans of CBKeyManager.Next and GrokAccountManager.Next, and bounded waiting. */
module Schedulers {
  import opened Modular
  import opened Seqs

  // ---- the cyclic scan ---------------------------------------------------------------------

  /** The first available position among next+i, next+i+1, … (mod n), one full round in all. */
  function ScanFrom(avail: seq<bool>, next: nat, i: nat): (r: Option<nat>)
    requires i <= |avail|
    ensures r.Some? ==> r.value < |avail| && avail[r.value]
    decreases |avail| - i
  {
    if i == |avail| then None
    else if avail[(next + i) % |avail|] then Some((next + i) % |avail|)
    else ScanFrom(avail, next, i + 1)
  }

  function Scan(avail: seq<bool>, next: nat): (r: Option<nat>)
    ensures r.Some? ==> r.value < |avail| && avail[r.value]
  {
    ScanFrom(avail, next, 0)
  }

  /** The cursor after a scan. */
  function Moved(avail: seq<bool>, next: nat): nat {
    match Scan(avail, next)
    case None => next
    case Some(idx) => (idx + 1) % |avail|
  }

  /** How many positions the cursor has to move to reach k. */
  function Distance(next: nat, k: nat, n: nat): (d: nat)
    requires k < n
    ensures d < n
  {
    if next % n <= k then k - next % n else k + n - next % n
  }

  lemma DistanceReaches(next: nat, k: nat, n: nat)
    requires k < n
    ensures (next + Distance(next, k, n)) % n == k
  {
    ModSum(next, Distance(next, k, n), n);
  }

  /** While k is available, a scan returns k or brings the cursor strictly closer to it. */
  lemma {:induction false} ScanCloser(avail: seq<bool>, next: nat, k: nat, i: nat)
    requires k < |avail| && avail[k]
    requires i <= Distance(next, k, |avail|)
    ensures var r := ScanFrom(avail, next, i);
            r.Some? && (r.value != k ==>
              Distance(r.value + 1, k, |avail|) < Distance(next, k, |avail|))
    decreases |avail| - i
  {
    var n, d := |avail|, Distance(next, k, |avail|);
    DistanceReaches(next, k, n);
    ModSum(next, i, n);
    if avail[(next + i) % n] {
      var idx := (next + i) % n;
      if idx != k {
        ModSum(idx, 1 % n, n);
        OneStep(next, i, k, n, idx);
      }
    } else {
      ScanCloser(avail, next, k, i + 1);
    }
  }

  lemma OneStep(next: nat, i: nat, k: nat, n: nat, idx: nat)
    requires k < n && i <= Distance(next, k, n) && idx == (next + i) % n && idx != k
    ensures Distance(idx + 1, k, n) < Distance(next, k, n)
  {
    ModSum(next, i, n);
    if n > 1 {
      ModSum(idx, 1, n);
      ModSmall(idx, n);
    }
  }

  /** The results of a series of scans, availability changing between them. */
  function Results(next: nat, avails: seq<seq<bool>>): seq<Option<nat>>
    decreases |avails|
  {
    if avails == [] then []
    else [Scan(avails[0], next)] + Results(Moved(avails[0], next), avails[1..])
  }

  /** A position that stays available is returned within its distance, whatever the others do. */
  lemma {:induction false} ReachedWithin(next: nat, avails: seq<seq<bool>>, k: nat, n: nat)
    requires k < n && forall t | 0 <= t < |avails| :: |avails[t]| == n && avails[t][k]
    requires Distance(next, k, n) < |avails|
    ensures Some(k) in Results(next, avails)
    decreases |avails|
  {
    var avail := avails[0];
    ScanCloser(avail, next, k, 0);
    var r := Scan(avail, next);
    if r.value == k {
      assert Results(next, avails)[0] == Some(k);
    } else {
      var next' := Moved(avail, next);
      DistanceMod(r.value + 1, k, n);
      ReachedWithin(next', avails[1..], k, n);
      assert Some(k) in [r] + Results(next', avails[1..]);
    }
  }

  lemma DistanceMod(x: nat, k: nat, n: nat)
    requires k < n
    ensures Distance(x % n, k, n) == Distance(x, k, n)
  {
    ModSmall(x % n, n);
  }

  /** Bounded waiting: on a pool of n, n consecutive scans return every position that stays available. */
  lemma BoundedWaiting(next: nat, avails: seq<seq<bool>>, k: nat)
    requires forall t | 0 <= t < |avails| :: |avails[t]| == |avails| && k < |avails| && avails[t][k]
    requires avails != []
    ensures Some(k) in Results(next, avails)
  {
    assert |avails[0]| == |avails|;
    ReachedWithin(next, avails, k, |avails|);
  }

  /** A scan fails only when nothing is available. */
  lemma {:induction false} ScanNone(avail: seq<bool>, next: nat)
    ensures Scan(avail, next).None? <==> forall k | 0 <= k < |avail| :: !avail[k]
  {
    forall k | 0 <= k < |avail| && avail[k] ensures Scan(avail, next).Some? {
      ScanCloser(avail, next, k, 0);
    }
  }

  // ---- CodeBuddy keys ----------------------------------------------------------------------

  const COOLDOWN := 600_000_000_000

  /** disabledAt None is Go's zero time: on a disabled key it marks a permanent disable. */
  datatype KeyState = KeyState(disabled: bool, disabledAt: Option<int>)

  /** What happens to a key without an operator: a permanent disable, a cooldown that starts,
      a pass of the re-enable worker. */
  datatype KeyOp = Permanent | Cooldown(at: int) | Reenable(now: int)

  function KeyStep(k: KeyState, op: KeyOp): KeyState {
    match op
    case Permanent => KeyState(true, None)
    case Cooldown(at) => KeyState(true, Some(at))
    case Reenable(now) =>
      if k.disabled && k.disabledAt.Some? && now - k.disabledAt.value > COOLDOWN then k.(disabled := false) else k
  }

  function KeyRun(k: KeyState, ops: seq<KeyOp>): KeyState {
    if ops == [] then k else KeyStep(KeyRun(k, Init(ops)), Last(ops))
  }

  /** From position i on: a cooldown, then worker passes only, one of them past the cooldown's end. */
  ghost predicate CooldownLapsed(ops: seq<KeyOp>, i: nat) {
    && i < |ops| && ops[i].Cooldown?
    && (forall k | i < k < |ops| :: ops[k].Reenable?)
    && (exists j | i < j < |ops| :: ops[j].now - ops[i].at > 600_000_000_000)
  }

  /** The state after a run that left the key disabled, or the cooldown it last went through. */
  lemma {:induction false} KeyHistory(k: KeyState, ops: seq<KeyOp>)
    requires k == KeyState(true, None)
    ensures var r := KeyRun(k, ops);
            && (r.disabledAt.None? ==> r.disabled && forall i | 0 <= i < |ops| && ops[i].Cooldown? ::
                  exists j | i < j < |ops| :: !ops[j].Reenable?)
            && (r.disabledAt.Some? ==> exists i | 0 <= i < |ops| :: LastCooldown(ops, i, r))
  {
    if ops != [] {
      var m := Init(ops);
      KeyHistory(k, m);
      var q, r := KeyRun(k, m), KeyRun(k, ops);
      if Last(ops).Cooldown? {
        assert LastCooldown(ops, |ops| - 1, r);
      } else if Last(ops).Reenable? && q.disabledAt.Some? {
        var i :| 0 <= i < |m| && LastCooldown(m, i, q);
        assert forall j | 0 <= j < |m| :: ops[j] == m[j];
        assert LastCooldown(ops, i, r);
      } else if Last(ops).Reenable? {
        forall i | 0 <= i < |ops| && ops[i].Cooldown? ensures exists j | i < j < |ops| :: !ops[j].Reenable? {
          var j :| i < j < |m| && !m[j].Reenable?;
          assert !ops[j].Reenable?;
        }
      } else {
        assert !ops[|ops| - 1].Reenable?;
      }
    }
  }

  /** ops[i] is the cooldown r stems from, and r is still disabled exactly if no pass came late enough. */
  ghost predicate LastCooldown(ops: seq<KeyOp>, i: nat, r: KeyState) {
    && i < |ops| && ops[i].Cooldown? && r.disabledAt == Some(ops[i].at)
    && (forall k | i < k < |ops| :: ops[k].Reenable?)
    && (r.disabled <==> forall j | i < j < |ops| :: ops[j].now - ops[i].at <= 600_000_000_000)
  }

  lemma LapsedLifts(ops: seq<KeyOp>, h: nat, i: nat, r: KeyState)
    requires LastCooldown(ops, i, r) && CooldownLapsed(ops, h)
    ensures !r.disabled
  {
    assert h == i;
  }

  /** A permanent disable is documented never to be lifted without an operator. It is lifted exactly
      when a later cooldown overwrites it, the last disable of the run, and then lapses. */
  lemma PermanentLiftedIff(ops: seq<KeyOp>)
    ensures !KeyRun(KeyState(true, None), ops).disabled <==> exists i :: CooldownLapsed(ops, i)
  {
    var k := KeyState(true, None);
    KeyHistory(k, ops);
    var r := KeyRun(k, ops);
    if r.disabledAt.Some? {
      var i :| 0 <= i < |ops| && LastCooldown(ops, i, r);
      if !r.disabled {
        assert CooldownLapsed(ops, i);
      } else {
        forall h: nat ensures !CooldownLapsed(ops, h) {
          if CooldownLapsed(ops, h) {
            LapsedLifts(ops, h, i, r);
          }
        }
      }
    }
  }

  /** Two requests in flight on one key, one answered 401 and one 429. */
  lemma PermanentLifted()
    ensures !KeyRun(KeyState(false, None), [Permanent, Cooldown(0), Reenable(600_000_000_001)]).disabled
  {
    var ops := [Permanent, Cooldown(0), Reenable(COOLDOWN + 1)];
    assert Init(ops) == [Permanent, Cooldown(0)];
    assert Init(Init(ops)) == [Permanent];
    assert Init(Init(Init(ops))) == [];
  }

  class CBKey {
    var disabled: bool
    var disabledAt: Option<int>

    constructor ()
      ensures State() == KeyState(false, None)
    {
      disabled, disabledAt := false, None;
    }

    function State(): KeyState
      reads this
    {
      KeyState(disabled, disabledAt)
    }

    method PermanentDisable()
      modifies this
      ensures State() == KeyStep(old(State()), Permanent)
    {
      disabled, disabledAt := true, None;
    }

    method CooldownDisable(now: int)
      modifies this
      ensures State() == KeyStep(old(State()), Cooldown(now))
    {
      disabled, disabledAt := true, Some(now);
    }

    /** One key's share of ReenableCooldowns. */
    method LiftCooldown(now: int)
      modifies this
      ensures State() == KeyStep(old(State()), Reenable(now))
    {
      if disabled && disabledAt.Some? && now - disabledAt.value > COOLDOWN {
        disabled := false;
      }
    }
  }

  function KeyAvail(keys: seq<CBKey>): (a: seq<bool>)
    reads keys
    ensures |a| == |keys| && forall i | 0 <= i < |keys| :: a[i] == !keys[i].disabled
  {
    if keys == [] then [] else KeyAvail(Init(keys)) + [!Last(keys).disabled]
  }

  class CBKeyManager {
    var keys: seq<CBKey>
    var next: nat

    constructor (keys: seq<CBKey>)
      ensures this.keys == keys && next == 0
    {
      this.keys, this.next := keys, 0;
    }

    /** The scan loop of Next. */
    method FirstEnabled() returns (r: Option<nat>)
      ensures r == Scan(KeyAvail(keys), next)
    {
      hide KeyAvail;
      ghost var avail := KeyAvail(keys);
      var i := 0;
      while i < |keys|
        invariant 0 <= i <= |keys|
        invariant ScanFrom(avail, next, i) == Scan(avail, next)
      {
        var idx := (next + i) % |keys|;
        assert avail[idx] == !keys[idx].disabled;
        if !keys[idx].disabled {
          return Some(idx);
        }
        i := i + 1;
      }
      return None;
    }

    /** Returns None for Go's two errors: no keys, all keys disabled. */
    method Next() returns (r: Option<CBKey>)
      modifies this`next
      ensures r.None? <==> forall i | 0 <= i < |keys| :: keys[i].disabled
      ensures r.None? ==> Scan(KeyAvail(keys), old(next)).None? && next == old(next)
      ensures r.Some? ==>
                && Scan(KeyAvail(keys), old(next)).Some?
                && r.value == keys[Scan(KeyAvail(keys), old(next)).value]
                && next == Moved(KeyAvail(keys), old(next))
    {
      hide KeyAvail, Scan, ScanFrom;
      ghost var avail := KeyAvail(keys);
      ScanNone(avail, next);
      var idx := FirstEnabled();
      if idx.None? {
        assert forall k | 0 <= k < |keys| :: avail[k] == !keys[k].disabled;
        return None;
      }
      next := (idx.value + 1) % |keys|;
      assert avail[idx.value];
      return Some(keys[idx.value]);
    }

    /** One pass of the re-enable worker over the pool. */
    method ReenableCooldowns(now: int)
      modifies keys
      ensures forall k | k in keys :: k.State() == KeyStep(old(k.State()), Reenable(now))
    {
      var i := 0;
      while i < |keys|
        invariant 0 <= i <= |keys|
        invariant forall k | k in keys ::
                    k.State() == (if k in keys[..i] then KeyStep(old(k.State()), Reenable(now)) else old(k.State()))
      {
        keys[i].LiftCooldown(now);
        assert keys[..i + 1] == keys[..i] + [keys[i]];
        i := i + 1;
      }
      assert keys[..i] == keys;
    }
  }

  // ---- Grok accounts -----------------------------------------------------------------------

  const REFRESH_BUFFER := 600_000_000_000

  class GrokAccount {
    var disabled: bool
    var expiresAt: int

    constructor (expiresAt: int)
      ensures !disabled && this.expiresAt == expiresAt
    {
      this.disabled, this.expiresAt := false, expiresAt;
    }
  }

  /** Enabled and outside the refresh window. */
  function FreshAvail(accounts: seq<GrokAccount>, now: int): (a: seq<bool>)
    reads accounts
    ensures |a| == |accounts|
    ensures forall i | 0 <= i < |accounts| ::
              a[i] == (!accounts[i].disabled && now < accounts[i].expiresAt - 600_000_000_000)
  {
    if accounts == [] then []
    else FreshAvail(Init(accounts), now) + [!Last(accounts).disabled && now < Last(accounts).expiresAt - REFRESH_BUFFER]
  }

  class GrokAccountManager {
    var accounts: seq<GrokAccount>
    var next: nat

    constructor (accounts: seq<GrokAccount>)
      ensures this.accounts == accounts && next == 0
    {
      this.accounts, this.next := accounts, 0;
    }

    /** First pass: the cyclic scan for a fresh token. */
    method FirstFresh(now: int) returns (r: Option<nat>)
      ensures r == Scan(FreshAvail(accounts, now), next)
    {
      hide FreshAvail;
      ghost var avail := FreshAvail(accounts, now);
      var i := 0;
      while i < |accounts|
        invariant 0 <= i <= |accounts|
        invariant ScanFrom(avail, next, i) == Scan(avail, next)
      {
        var idx := (next + i) % |accounts|;
        var acc := accounts[idx];
        assert avail[idx] == (!acc.disabled && now < acc.expiresAt - REFRESH_BUFFER);
        if !acc.disabled && now < acc.expiresAt - REFRESH_BUFFER {
          return Some(idx);
        }
        i := i + 1;
      }
      return None;
    }

    /** The fresh account the scan finds; failing that, of the enabled accounts the one that expires
        last, the first of several. None stands for no accounts or all disabled. */
    method Next(now: int) returns (r: Option<GrokAccount>)
      modifies this`next
      ensures r.None? <==> forall i | 0 <= i < |accounts| :: accounts[i].disabled
      ensures r.None? ==> next == old(next)
      ensures Scan(FreshAvail(accounts, now), old(next)).Some? ==>
                && r == Some(accounts[Scan(FreshAvail(accounts, now), old(next)).value])
                && next == Moved(FreshAvail(accounts, now), old(next))
      ensures Scan(FreshAvail(accounts, now), old(next)).None? && r.Some? ==>
                && next == (old(next) + 1) % |accounts|
                && exists b | 0 <= b < |accounts| :: r.value == accounts[b] && IsBest(b)
    {
      hide FreshAvail, Scan, ScanFrom, IsBest;
      ghost var avail := FreshAvail(accounts, now);
      var idx := FirstFresh(now);
      if idx.Some? {
        assert avail[idx.value];
        next := (idx.value + 1) % |accounts|;
        return Some(accounts[idx.value]);
      }
      var best := BestExpiry();
      if best == -1 {
        return None;
      }
      next := (next + 1) % |accounts|;
      return Some(accounts[best]);
    }

    /** Account b is enabled, none enabled expires later, and none before it as late. */
    ghost predicate IsBest(b: nat)
      reads this`accounts, accounts
      requires b < |accounts|
    {
      && !accounts[b].disabled
      && (forall i | 0 <= i < |accounts| && !accounts[i].disabled :: accounts[i].expiresAt <= accounts[b].expiresAt)
      && (forall i | 0 <= i < b && !accounts[i].disabled :: accounts[i].expiresAt < accounts[b].expiresAt)
    }

    method BestExpiry() returns (best: int)
      ensures -1 <= best < |accounts|
      ensures best == -1 <==> forall i | 0 <= i < |accounts| :: accounts[i].disabled
      ensures best >= 0 ==> IsBest(best) && !accounts[best].disabled
    {
      best := -1;
      var i := 0;
      while i < |accounts|
        invariant 0 <= i <= |accounts| && -1 <= best < i
        invariant best == -1 <==> forall j | 0 <= j < i :: accounts[j].disabled
        invariant best >= 0 ==>
                    && !accounts[best].disabled
                    && (forall j | 0 <= j < i && !accounts[j].disabled :: accounts[j].expiresAt <= accounts[best].expiresAt)
                    && (forall j | 0 <= j < best && !accounts[j].disabled :: accounts[j].expiresAt < accounts[best].expiresAt)
      {
        if !accounts[i].disabled && (best == -1 || accounts[i].expiresAt > accounts[best].expiresAt) {
          best := i;
        }
        i := i + 1;
      }
    }
  }
}
