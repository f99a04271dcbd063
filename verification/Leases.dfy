/**
  Leases: the Redis locker, the in-process locker, and timed renewal.
 */
module Leases {
  import opened Common

  type Key = string
  type Token = nat
  type Time = int   // nanoseconds

  // ===== RedisLocker =============================================================

  datatype Held = Held(token: Token, expiresAt: Time)
  type Store = map<Key, Held>

  predicate Present(s: Store, k: Key, now: Time) {
    k in s && now < s[k].expiresAt
  }

  predicate HeldBy(s: Store, k: Key, token: Token, now: Time) {
    Present(s, k, now) && s[k].token == token
  }

  /** The server side of the locker: SET NX with an expiry, and the two scripts
      that act only for the token they find. */
  class RedisLocker {
    var store: Store

    constructor ()
      ensures store == map[]
    {
      store := map[];
    }

    method Acquire(k: Key, token: Token, ttl: Time, now: Time) returns (ok: bool)
      modifies this
      ensures ok <==> !Present(old(store), k, now)
      ensures ok <==> k !in old(store) || old(store)[k].expiresAt <= now
      ensures store == if ok then old(store)[k := Held(token, now + ttl)] else old(store)
    {
      ok := !(k in store && now < store[k].expiresAt);
      if ok {
        store := store[k := Held(token, now + ttl)];
      }
    }

    method Refresh(k: Key, token: Token, ttl: Time, now: Time) returns (ok: bool)
      modifies this
      ensures ok <==> HeldBy(old(store), k, token, now)
      ensures ok <==> k in old(store) && old(store)[k].token == token && now < old(store)[k].expiresAt
      ensures store == if ok then old(store)[k := Held(token, now + ttl)] else old(store)
    {
      ok := k in store && now < store[k].expiresAt && store[k].token == token;
      if ok {
        store := store[k := store[k].(expiresAt := now + ttl)];
      }
    }

    method Release(k: Key, token: Token, now: Time)
      modifies this
      ensures store == if HeldBy(old(store), k, token, now) then old(store) - {k} else old(store)
      ensures k in old(store) && old(store)[k].token == token && now < old(store)[k].expiresAt ==> k !in store
      ensures k !in old(store) || old(store)[k].token != token || old(store)[k].expiresAt <= now ==>
        store == old(store)
    {
      if k in store && now < store[k].expiresAt && store[k].token == token {
        store := store - {k};
      }
    }
  }

  /** Any number of clients; `issued` remembers which key each token is for. */
  datatype Redis = Redis(now: Time, store: Store, issued: map<Token, Key>)

  datatype RedisAction =
    | Wait(to: Time)
    | Take(k: Key, token: Token, ttl: Time)
    | Extend(token: Token, ttl: Time)
    | Give(token: Token)

  predicate RedisEnabled(r: Redis, a: RedisAction) {
    match a
    case Wait(to) => r.now <= to
    case Take(_, token, _) => token !in r.issued     // 16 random bytes
    case Extend(token, _) => token in r.issued
    case Give(token) => token in r.issued
  }

  function RedisDo(r: Redis, a: RedisAction): Redis
    requires RedisEnabled(r, a)
  {
    match a
    case Wait(to) => r.(now := to)
    case Take(k, token, ttl) =>
      r.(store := if Present(r.store, k, r.now) then r.store else r.store[k := Held(token, r.now + ttl)],
         issued := r.issued[token := k])
    case Extend(token, ttl) =>
      var k := r.issued[token];
      if HeldBy(r.store, k, token, r.now) then r.(store := r.store[k := Held(token, r.now + ttl)]) else r
    case Give(token) =>
      var k := r.issued[token];
      if HeldBy(r.store, k, token, r.now) then r.(store := r.store - {k}) else r
  }

  ghost predicate RedisRun(r: Redis, actions: seq<RedisAction>)
    decreases |actions|
  {
    actions == [] || (RedisEnabled(r, actions[0]) && RedisRun(RedisDo(r, actions[0]), actions[1..]))
  }

  ghost function RedisAfter(r: Redis, actions: seq<RedisAction>): Redis
    requires RedisRun(r, actions)
    decreases |actions|
  {
    if actions == [] then r else RedisAfter(RedisDo(r, actions[0]), actions[1..])
  }

  ghost predicate TokensKnown(r: Redis) {
    forall k :: k in r.store ==> r.store[k].token in r.issued && r.issued[r.store[k].token] == k
  }

  /** The lease a token stands for is live. */
  predicate LeaseLive(r: Redis, token: Token) {
    token in r.issued && HeldBy(r.store, r.issued[token], token, r.now)
  }

  /** A step taken for one token cannot end or move the lease of another, and a
      lease that is not live does not come back. */
  lemma RedisStepLaw(r: Redis, a: RedisAction)
    requires TokensKnown(r) && RedisEnabled(r, a)
    ensures TokensKnown(RedisDo(r, a))
    ensures forall t :: t in r.issued ==> t in RedisDo(r, a).issued && RedisDo(r, a).issued[t] == r.issued[t]
    ensures forall t :: t in r.issued && !LeaseLive(r, t) ==> !LeaseLive(RedisDo(r, a), t)
    ensures !a.Wait? ==> forall t :: LeaseLive(r, t) && t != a.token ==>
      LeaseLive(RedisDo(r, a), t) && RedisDo(r, a).store[r.issued[t]] == r.store[r.issued[t]]
  {
  }

  lemma {:induction false} RedisRunLaw(r: Redis, actions: seq<RedisAction>, token: Token)
    requires TokensKnown(r) && RedisRun(r, actions) && token in r.issued
    ensures TokensKnown(RedisAfter(r, actions))
    ensures token in RedisAfter(r, actions).issued
    ensures !LeaseLive(r, token) ==> !LeaseLive(RedisAfter(r, actions), token)
    decreases |actions|
  {
    if actions != [] {
      RedisStepLaw(r, actions[0]);
      RedisRunLaw(RedisDo(r, actions[0]), actions[1..], token);
    }
  }

  lemma {:induction false} RedisTokensKnown(r: Redis, actions: seq<RedisAction>)
    requires TokensKnown(r) && RedisRun(r, actions)
    ensures TokensKnown(RedisAfter(r, actions))
    decreases |actions|
  {
    if actions != [] {
      RedisStepLaw(r, actions[0]);
      RedisTokensKnown(RedisDo(r, actions[0]), actions[1..]);
    }
  }

  /** In every reachable state at most one lease per key is live; a lease that
      has once lapsed or been released is never live again; and nothing done in
      its name afterwards changes the lease of a later holder. */
  lemma LeasesAreExclusive(
    start: Time, before: seq<RedisAction>, later: seq<RedisAction>, t: Token, u: Token)
    requires RedisRun(Redis(start, map[], map[]), before)
    requires RedisRun(RedisAfter(Redis(start, map[], map[]), before), later)
    ensures var r := RedisAfter(Redis(start, map[], map[]), before);
            var z := RedisAfter(r, later);
      && (LeaseLive(r, t) && LeaseLive(r, u) && r.issued[t] == r.issued[u] ==> t == u)
      && (t in r.issued && !LeaseLive(r, t) ==>
            && t in z.issued && !LeaseLive(z, t)
            && RedisDo(z, Give(t)) == z
            && forall ttl :: RedisDo(z, Extend(t, ttl)) == z)
  {
    RedisTokensKnown(Redis(start, map[], map[]), before);
    var r := RedisAfter(Redis(start, map[], map[]), before);
    if t in r.issued {
      RedisRunLaw(r, later, t);
    }
  }

  /** What the three calls do to one key, in terms of the stored token and expiry:
      a lapsed key can be taken, a held one cannot, and only the holder extends or
      gives up a lease, and only before it lapses. */
  lemma RedisCalls(r: Redis, k: Key, t: Token, ttl: Time)
    ensures t !in r.issued ==>
      RedisDo(r, Take(k, t, ttl)).store
        == if k in r.store && r.now < r.store[k].expiresAt then r.store else r.store[k := Held(t, r.now + ttl)]
    ensures t in r.issued && r.issued[t] == k ==>
      var holds := k in r.store && r.store[k].token == t && r.now < r.store[k].expiresAt;
      && RedisDo(r, Extend(t, ttl)).store == (if holds then r.store[k := Held(t, r.now + ttl)] else r.store)
      && RedisDo(r, Give(t)).store == (if holds then r.store - {k} else r.store)
  {
  }

  /** The holder of `t` does nothing about its lease. */
  predicate LeftAlone(actions: seq<RedisAction>, t: Token) {
    forall i :: 0 <= i < |actions| ==> !((actions[i].Extend? || actions[i].Give?) && actions[i].token == t)
  }

  predicate NobodyAsks(actions: seq<RedisAction>, k: Key) {
    forall i :: 0 <= i < |actions| ==> !(actions[i].Take? && actions[i].k == k)
  }

  /** A lease that runs until `end` and is left alone: stored with that end until then,
      and never with a later one. */
  predicate RunsUntil(r: Redis, k: Key, t: Token, end: Time) {
    && (r.now < end ==> k in r.store && r.store[k] == Held(t, end))
    && (k in r.store && r.store[k].token == t ==> r.store[k].expiresAt == end)
  }

  lemma {:induction false} LeaseRunsOut(r: Redis, actions: seq<RedisAction>, k: Key, t: Token, end: Time)
    requires TokensKnown(r) && RedisRun(r, actions) && LeftAlone(actions, t)
    requires t in r.issued && r.issued[t] == k && RunsUntil(r, k, t, end)
    ensures RunsUntil(RedisAfter(r, actions), k, t, end)
    ensures NobodyAsks(actions, k) && k in r.store && r.store[k] == Held(t, end) ==>
      k in RedisAfter(r, actions).store && RedisAfter(r, actions).store[k] == Held(t, end)
    decreases |actions|
  {
    if actions != [] {
      var z := RedisDo(r, actions[0]);
      RedisStepLaw(r, actions[0]);
      assert RunsUntil(z, k, t, end);
      assert forall i :: 0 <= i < |actions[1..]| ==> actions[1..][i] == actions[i + 1];
      LeaseRunsOut(z, actions[1..], k, t, end);
    }
  }

  /** Over every run: a lease taken at T for `ttl` and left alone is in force exactly
      until T + ttl.  Until then nobody else can take its key, and its holder can
      move the end to exactly the lifetime after the moment of asking; from then on
      the holder can do neither, and whoever asks first takes the key. */
  lemma LeasesLastExactly(
    start: Time, before: seq<RedisAction>, k: Key, t: Token, ttl: Time, later: seq<RedisAction>, u: Token, more: Time)
    requires RedisRun(Redis(start, map[], map[]), before)
    requires var r := RedisAfter(Redis(start, map[], map[]), before);
      && RedisEnabled(r, Take(k, t, ttl)) && (k !in r.store || r.store[k].expiresAt <= r.now)
      && RedisRun(RedisDo(r, Take(k, t, ttl)), later) && LeftAlone(later, t)
      && u !in RedisAfter(RedisDo(r, Take(k, t, ttl)), later).issued
    ensures var r := RedisAfter(Redis(start, map[], map[]), before);
            var end := r.now + ttl;
            var z := RedisAfter(RedisDo(r, Take(k, t, ttl)), later);
      && t in z.issued
      && (z.now < end ==>
            && k in z.store && z.store[k] == Held(t, end)
            && RedisDo(z, Take(k, u, more)).store == z.store
            && RedisDo(z, Extend(t, more)).store == z.store[k := Held(t, z.now + more)]
            && RedisDo(z, Give(t)).store == z.store - {k})
      && (z.now >= end ==>
            && RedisDo(z, Extend(t, more)).store == z.store && RedisDo(z, Give(t)).store == z.store
            && (NobodyAsks(later, k) ==> RedisDo(z, Take(k, u, more)).store == z.store[k := Held(u, z.now + more)]))
  {
    RedisTokensKnown(Redis(start, map[], map[]), before);
    var r := RedisAfter(Redis(start, map[], map[]), before);
    var y := RedisDo(r, Take(k, t, ttl));
    RedisStepLaw(r, Take(k, t, ttl));
    RedisCalls(r, k, t, ttl);
    LeaseRunsOut(y, later, k, t, r.now + ttl);
    IssuedStays(y, later, t);
    var z := RedisAfter(y, later);
    RedisCalls(z, k, t, more);
    RedisCalls(z, k, u, more);
  }

  lemma {:induction false} IssuedStays(r: Redis, actions: seq<RedisAction>, t: Token)
    requires TokensKnown(r) && RedisRun(r, actions) && t in r.issued
    ensures t in RedisAfter(r, actions).issued && RedisAfter(r, actions).issued[t] == r.issued[t]
    decreases |actions|
  {
    if actions != [] {
      RedisStepLaw(r, actions[0]);
      IssuedStays(RedisDo(r, actions[0]), actions[1..], t);
    }
  }

  // ===== LocalLocker ==============================================================

  type LeaseId = nat

  /** `outstanding`: leases handed out and not yet released (history only). */
  class LocalLocker {
    var locks: set<Key>
    ghost var known: map<LeaseId, Key>
    ghost var outstanding: set<LeaseId>

    ghost predicate Valid()
      reads this
    {
      LocalInv(Local(locks, known, outstanding))
    }

    constructor ()
      ensures Valid() && locks == {} && known == map[] && outstanding == {}
    {
      locks, known, outstanding := {}, map[], {};
    }

    /** The lifetime is ignored: an in-process lease never lapses. */
    method Acquire(k: Key, ghost id: LeaseId) returns (ok: bool)
      requires id !in known
      modifies this
      ensures ok <==> k !in old(locks)
      ensures old(Valid()) ==> Valid() && (ok <==> forall l :: l in old(outstanding) ==> old(known)[l] != k)
      ensures Local(locks, known, outstanding) == Acquired(old(Local(locks, known, outstanding)), k, id)
    {
      ok := k !in locks;
      if ok {
        locks := locks + {k};
        known := known[id := k];
        outstanding := outstanding + {id};
      }
    }

    /** Deletes the key, whoever holds it: exclusion survives exactly if this is the
        lease's first release, or nobody holds the key by now. */
    method Release(k: Key, ghost id: LeaseId)
      requires id in known && known[id] == k
      modifies this
      ensures Local(locks, known, outstanding) == ReleasedBy(old(Local(locks, known, outstanding)), id)
      ensures old(Valid()) ==> (Valid() <==> id in old(outstanding) || k !in old(locks))
    {
      if Valid() {
        ReleaseKeepsExclusionIff(Local(locks, known, outstanding), id);
      }
      locks := locks - {k};
      outstanding := outstanding - {id};
    }
  }

  datatype Local = Local(locks: set<Key>, known: map<LeaseId, Key>, outstanding: set<LeaseId>)

  ghost predicate LocalInv(s: Local) {
    && s.outstanding <= s.known.Keys
    && (forall l :: l in s.outstanding ==> s.known[l] in s.locks)
    && (forall k :: k in s.locks ==> exists l :: l in s.outstanding && s.known[l] == k)
    && (forall l, m :: l in s.outstanding && m in s.outstanding && s.known[l] == s.known[m] ==> l == m)
  }

  ghost function Acquired(s: Local, k: Key, id: LeaseId): Local {
    if k in s.locks then s else Local(s.locks + {k}, s.known[id := k], s.outstanding + {id})
  }

  ghost function ReleasedBy(s: Local, id: LeaseId): Local
    requires id in s.known
  {
    Local(s.locks - {s.known[id]}, s.known, s.outstanding - {id})
  }

  /** A release keeps the locker sound exactly when it is the lease's first, or
      nobody holds the key by now. */
  lemma ReleaseKeepsExclusionIff(s: Local, id: LeaseId)
    requires LocalInv(s) && id in s.known
    ensures LocalInv(ReleasedBy(s, id)) <==> id in s.outstanding || s.known[id] !in s.locks
  {
    var z := ReleasedBy(s, id);
    if id in s.outstanding {
      forall k | k in z.locks
        ensures exists l :: l in z.outstanding && z.known[l] == k
      {
        var l :| l in s.outstanding && s.known[l] == k;
        assert l in z.outstanding;
      }
    } else if s.known[id] !in s.locks {
      assert z == s;
    } else {
      var l :| l in s.outstanding && s.known[l] == s.known[id];
      assert l in z.outstanding && z.known[l] !in z.locks;
    }
  }

  datatype LocalAction = Lock(k: Key, id: LeaseId) | Unlock(id: LeaseId)

  predicate LocalEnabled(s: Local, a: LocalAction) {
    match a
    case Lock(_, id) => id !in s.known
    case Unlock(id) => id in s.known
  }

  ghost function LocalDo(s: Local, a: LocalAction): Local
    requires LocalEnabled(s, a)
  {
    match a
    case Lock(k, id) => Acquired(s, k, id)
    case Unlock(id) => ReleasedBy(s, id)
  }

  ghost predicate LocalRun(s: Local, actions: seq<LocalAction>)
    decreases |actions|
  {
    actions == [] || (LocalEnabled(s, actions[0]) && LocalRun(LocalDo(s, actions[0]), actions[1..]))
  }

  ghost function LocalAfter(s: Local, actions: seq<LocalAction>): Local
    requires LocalRun(s, actions)
    decreases |actions|
  {
    if actions == [] then s else LocalAfter(LocalDo(s, actions[0]), actions[1..])
  }

  /** No lease is released twice. */
  predicate ReleasedOnce(actions: seq<LocalAction>) {
    forall i, j :: 0 <= i < j < |actions| && actions[i].Unlock? ==> actions[i] != actions[j]
  }

  lemma AcquireKeepsExclusion(s: Local, k: Key, id: LeaseId)
    requires LocalInv(s) && id !in s.known
    ensures LocalInv(Acquired(s, k, id))
  {
    var z := Acquired(s, k, id);
    if k !in s.locks {
      forall j | j in z.locks
        ensures exists l :: l in z.outstanding && z.known[l] == j
      {
        if j == k {
          assert id in z.outstanding && z.known[id] == k;
        } else {
          var l :| l in s.outstanding && s.known[l] == j;
          assert l in z.outstanding && z.known[l] == j;
        }
      }
    }
  }

  lemma {:induction false} LocalRunsKeepExclusion(s: Local, actions: seq<LocalAction>)
    requires LocalInv(s) && LocalRun(s, actions) && ReleasedOnce(actions)
    requires forall k :: 0 <= k < |actions| && actions[k].Unlock? && actions[k].id in s.known ==>
      actions[k].id in s.outstanding
    ensures LocalInv(LocalAfter(s, actions))
    decreases |actions|
  {
    if actions != [] {
      var z := LocalDo(s, actions[0]);
      match actions[0] {
        case Lock(k, id) => AcquireKeepsExclusion(s, k, id);
        case Unlock(id) => ReleaseKeepsExclusionIff(s, id);
      }
      assert forall k :: 0 <= k < |actions[1..]| ==> actions[1..][k] == actions[k + 1];
      LocalRunsKeepExclusion(z, actions[1..]);
    }
  }

  /** Over every history in which each lease is released at most once: no two
      unreleased leases are for one key, and a key can be acquired exactly when
      there is none for it. */
  lemma LocalLeasesAreExclusive(actions: seq<LocalAction>)
    requires LocalRun(Local({}, map[], {}), actions) && ReleasedOnce(actions)
    ensures var s := LocalAfter(Local({}, map[], {}), actions);
      && s.outstanding <= s.known.Keys
      && (forall l, m :: l in s.outstanding && m in s.outstanding && s.known[l] == s.known[m] ==> l == m)
      && (forall k :: k !in s.locks <==> forall l :: l in s.outstanding ==> s.known[l] != k)
  {
    LocalRunsKeepExclusion(Local({}, map[], {}), actions);
  }

  /** Releasing the same lease twice lets two clients hold one key. */
  lemma DoubleReleaseBreaksExclusion(k: Key)
    ensures var s := Acquired(Local({}, map[], {}), k, 0);
            var z := Acquired(ReleasedBy(Acquired(ReleasedBy(s, 0), k, 1), 0), k, 2);
            {1, 2} <= z.outstanding && z.known[1] == z.known[2] == k
  {
  }

  // ===== WithRenewal ==============================================================

  const SECOND: Time := 1_000_000_000
  const MILLI: Time := 1_000_000
  const REFRESH_TIMEOUT: Time := 2 * SECOND

  function RenewEvery(ttl: Time): Time {
    if ttl / 2 < SECOND then SECOND else ttl / 2
  }

  /** Redis keeps expiries in whole milliseconds. */
  function Granted(ttl: Time): Time {
    ttl / MILLI * MILLI
  }

  /** One refresh, relative to its tick: when the server carries it out, if it
      does, and when the client learns the result. */
  datatype Attempt = Attempt(executed: bool, execAfter: Time, doneAfter: Time, ok: bool)

  predicate Plausible(a: Attempt) {
    && 0 <= a.execAfter <= a.doneAfter <= REFRESH_TIMEOUT
    && (a.ok ==> a.executed)
  }

  /** Everything a run of WithRenewal depends on: when the lease was granted,
      when the ticker started, and how each refresh goes. */
  datatype Renewal = Renewal(acquiredAt: Time, startedAt: Time, ttl: Time, attempt: nat -> Attempt)

  function Tick(r: Renewal, k: nat): Time {
    if k == 0 then r.startedAt + RenewEvery(r.ttl) else Tick(r, k - 1) + RenewEvery(r.ttl)
  }

  ghost predicate Possible(r: Renewal) {
    r.ttl > 0 && r.acquiredAt <= r.startedAt && forall k :: Plausible(r.attempt(k))
  }

  /** The expiry in force at `t`, given that the first `n` ticks may have fired. */
  function InForce(r: Renewal, n: nat, t: Time): Time {
    if n == 0 then r.acquiredAt + Granted(r.ttl)
    else
      var a, at := r.attempt(n - 1), Tick(r, n - 1) + r.attempt(n - 1).execAfter;
      if a.executed && at <= t then at + Granted(r.ttl) else InForce(r, n - 1, t)
  }

  /** The run context has not been cancelled by `t`. */
  ghost predicate Uncancelled(r: Renewal, t: Time) {
    forall k :: Tick(r, k) + r.attempt(k).doneAfter <= t ==> r.attempt(k).ok
  }

  /** At `t` the lease has not lapsed; `n` is the number of ticks so far. */
  predicate Unexpired(r: Renewal, n: nat, t: Time) {
    t < InForce(r, n, t)
  }

  predicate TicksBy(r: Renewal, n: nat, t: Time) {
    t < Tick(r, n) && (n > 0 ==> Tick(r, n - 1) <= t)
  }

  /** The slack a lifetime needs: start-up delay, one period and one time-out. */
  predicate Roomy(ttl: Time, delay: Time) {
    delay + RenewEvery(ttl) + REFRESH_TIMEOUT <= Granted(ttl)
  }

  lemma RoomyPeriod(ttl: Time, delay: Time)
    requires ttl > 0 && delay >= 0 && Roomy(ttl, delay)
    ensures RenewEvery(ttl) >= REFRESH_TIMEOUT && Granted(ttl) <= ttl
  {
  }

  /** With enough slack the lease is live at every moment before the context is
      cancelled, however the refreshes go. */
  lemma RenewalKeepsTheLease(r: Renewal, n: nat, t: Time)
    requires Possible(r) && Roomy(r.ttl, r.startedAt - r.acquiredAt)
    requires r.acquiredAt <= t && TicksBy(r, n, t) && Uncancelled(r, t)
    ensures Unexpired(r, n, t)
  {
    RoomyPeriod(r.ttl, r.startedAt - r.acquiredAt);
    if n > 0 {
      var last := r.attempt(n - 1);
      assert Plausible(last);
      if !(last.executed && Tick(r, n - 1) + last.execAfter <= t) {
        assert t < Tick(r, n - 1) + last.doneAfter;
        if n > 1 {
          var earlier := r.attempt(n - 2);
          assert Plausible(earlier);
          assert Tick(r, n - 1) == Tick(r, n - 2) + RenewEvery(r.ttl);
          assert Tick(r, n - 2) + earlier.doneAfter <= t;
          assert InForce(r, n - 1, t) == Tick(r, n - 2) + earlier.execAfter + Granted(r.ttl);
        }
      }
    }
  }

  /** Without it, one refresh that times out is enough: the lease lapses while
      the protected function is still running. */
  lemma TightLeasesLapse(ttl: Time, delay: Time) returns (r: Renewal, n: nat, t: Time)
    requires ttl > 0 && delay >= 0 && !Roomy(ttl, delay)
    ensures Possible(r) && r.ttl == ttl && r.startedAt - r.acquiredAt == delay
    ensures r.acquiredAt <= t && TicksBy(r, n, t) && Uncancelled(r, t) && !Unexpired(r, n, t)
  {
    r := Renewal(0, delay, ttl, k => Attempt(false, 0, REFRESH_TIMEOUT, false));
    t := Granted(ttl);
    n := 0;
    while Tick(r, n) <= t
      invariant n > 0 ==> Tick(r, n - 1) <= t
      invariant InForce(r, n, t) == Granted(ttl)
      decreases t - Tick(r, n)
    {
      n := n + 1;
    }
    forall k ensures Tick(r, k) + REFRESH_TIMEOUT > t {
      TicksGrow(r, k);
    }
  }

  /** Ticks come every half lifetime, but at least a second apart. */
  lemma {:induction false} TicksAreEven(r: Renewal, k: nat)
    ensures Tick(r, k) == r.startedAt + (k + 1) * (if r.ttl / 2 < 1_000_000_000 then 1_000_000_000 else r.ttl / 2)
  {
    if k > 0 {
      TicksAreEven(r, k - 1);
    }
  }

  lemma {:induction false} TicksGrow(r: Renewal, k: nat)
    ensures Tick(r, k) >= Tick(r, 0)
  {
    if k > 0 {
      TicksGrow(r, k - 1);
    }
  }

  /** Every whole-millisecond lifetime of at least four seconds has the slack,
      if renewal starts at once. */
  lemma FourSecondsSuffice(ttl: Time)
    requires ttl >= 4 * SECOND && ttl % MILLI == 0
    ensures Roomy(ttl, 0)
  {
    assert Granted(ttl) == ttl;
  }

  /** Four seconds alone do not: the server drops the fraction of a millisecond
      that the ticker keeps. */
  lemma SubMillisecondLifetimesAreTight()
    ensures !Roomy(4 * SECOND + MILLI / 2, 0)
    ensures !Roomy(4 * SECOND - MILLI, 0)
  {
  }

  /** The renewal loop: refresh on every tick until one fails or the protected
      function returns after `ticks` ticks. */
  method WithRenewal(r: Renewal, ticks: nat) returns (cancelledAt: Option<Time>)
    ensures r.ttl <= 0 ==> cancelledAt.None?
    ensures r.ttl > 0 && cancelledAt.None? ==> forall k :: 0 <= k < ticks ==> r.attempt(k).ok
    ensures r.ttl > 0 && cancelledAt.Some? ==>
      exists k :: 0 <= k < ticks && !r.attempt(k).ok && (forall j :: 0 <= j < k ==> r.attempt(j).ok)
                  && cancelledAt.value == Tick(r, k) + r.attempt(k).doneAfter
  {
    cancelledAt := None;
    if r.ttl <= 0 {
      return;
    }
    var every := r.ttl / 2;
    if every < SECOND {
      every := SECOND;
    }
    var tick, k := r.startedAt + every, 0;
    while k < ticks
      invariant 0 <= k <= ticks && tick == Tick(r, k)
      invariant forall j :: 0 <= j < k ==> r.attempt(j).ok
    {
      if !r.attempt(k).ok {
        cancelledAt := Some(tick + r.attempt(k).doneAfter);
        return;
      }
      tick, k := tick + every, k + 1;
    }
  }
}
