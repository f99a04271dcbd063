/**
  The limiter in front of agent key authentication (checkKeyAuthRate).

  Two maps of timestamps are pruned and updated under one mutex: the last attempt
  per host, and the last attempt per host and node, keyed by `host/node`.
 */
module KeyAuthLimiter {
  type Time = int   // nanoseconds
  type Stamps = map<string, Time>

  const SECOND: Time := 1_000_000_000
  const SPACING: Time := 10 * SECOND
  const HORIZON: Time := 60 * SECOND
  const CAPACITY := 10000

  datatype State = State(hosts: Stamps, pairs: Stamps)
  datatype Verdict = Accepted | HostTooSoon | PairTooSoon

  function PairKey(host: string, node: string): string {
    host + "/" + node
  }

  predicate NoSlash(s: string) {
    '/' !in s
  }

  function Pruned(m: Stamps, cutoff: Time): Stamps {
    map k | k in m && m[k] > cutoff :: m[k]
  }

  function Attempt(s: State, host: string, node: string, now: Time): (State, Verdict) {
    if host in s.hosts && now - s.hosts[host] < SPACING then (s, HostTooSoon)
    else
      var hosts := Pruned(s.hosts[host := now], now - HORIZON);
      var kept := Pruned(s.pairs, now - HORIZON);
      var pairs := if |kept| > CAPACITY then map[] else kept;
      var key := PairKey(host, node);
      if key in pairs && now - pairs[key] < SPACING then (State(hosts, pairs), PairTooSoon)
      else (State(hosts, pairs[key := now]), Accepted)
  }

  class KeyAuth {
    var hosts: Stamps
    var pairs: Stamps

    constructor ()
      ensures hosts == map[] && pairs == map[]
    {
      hosts, pairs := map[], map[];
    }

    method CheckKeyAuthRate(host: string, node: string, now: Time) returns (ok: bool)
      modifies this
      ensures (State(hosts, pairs), ok)
           == (Attempt(old(State(hosts, pairs)), host, node, now).0,
               Attempt(old(State(hosts, pairs)), host, node, now).1.Accepted?)
    {
      var cutoff := now - HORIZON;
      if host in hosts && now - hosts[host] < SPACING {
        return false;
      }
      hosts := hosts[host := now];
      hosts := Keep(hosts, cutoff);
      var key := host + "/" + node;
      var kept := Keep(pairs, cutoff);
      if |kept| > CAPACITY {
        kept := map[];
      }
      pairs := kept;
      if key in kept && now - kept[key] < SPACING {
        return false;
      }
      pairs := pairs[key := now];
      return true;
    }

    /** The pruning loop. */
    static method Keep(m: Stamps, cutoff: Time) returns (kept: Stamps)
      ensures kept == Pruned(m, cutoff)
    {
      kept := map[];
      var todo := m.Keys;
      while todo != {}
        invariant todo <= m.Keys
        invariant kept == map k | k in m && k !in todo && m[k] > cutoff :: m[k]
        decreases todo
      {
        var k :| k in todo;
        if m[k] > cutoff {
          kept := kept[k := m[k]];
        }
        todo := todo - {k};
      }
    }
  }

  // ----- Over every history --------------------------------------------------------------

  datatype Request = Request(host: string, node: string, at: Time)

  predicate Orderly(rs: seq<Request>, now: Time) {
    rs == [] || (now <= rs[0].at && NoSlash(rs[0].host) && Orderly(rs[1..], rs[0].at))
  }

  function After(s: State, rs: seq<Request>): State
    decreases |rs|
  {
    if rs == [] then s else After(Attempt(s, rs[0].host, rs[0].node, rs[0].at).0, rs[1..])
  }

  function Verdicts(s: State, rs: seq<Request>): (vs: seq<Verdict>)
    ensures |vs| == |rs|
    decreases |rs|
  {
    if rs == [] then []
    else
      var a := Attempt(s, rs[0].host, rs[0].node, rs[0].at);
      [a.1] + Verdicts(a.0, rs[1..])
  }

  /** A host has a recent stamp at least as late as `t`, unless `t` is old. */
  predicate Stamped(s: State, host: string, t: Time, now: Time) {
    t > now - HORIZON ==> host in s.hosts && t <= s.hosts[host]
  }

  /** Whatever the pair map remembers, the host map remembers too. */
  ghost predicate Covered(s: State, now: Time) {
    && (forall h, n :: NoSlash(h) && PairKey(h, n) in s.pairs ==> Stamped(s, h, s.pairs[PairKey(h, n)], now))
    && |s.pairs| <= CAPACITY + 1
  }

  lemma {:induction false} PairKeyInjective(h: string, n: string, g: string, m: string)
    requires NoSlash(h) && NoSlash(g) && PairKey(h, n) == PairKey(g, m)
    ensures h == g && n == m
  {
    var k := PairKey(h, n);
    assert k[|h|] == '/' && k[|g|] == '/';
    assert |h| == |g|;
    assert k[..|h|] == h && k[..|g|] == g;
    assert k[|h| + 1..] == n && k[|g| + 1..] == m;
  }

  lemma SizeOfInsert(m: Stamps, k: string, t: Time)
    ensures |m[k := t]| <= |m| + 1
  {
    assert m[k := t].Keys == m.Keys + {k};
  }

  /** The second test never fires, and both maps stay in step. */
  lemma AttemptKeepsCovered(s: State, r: Request, now: Time)
    requires Covered(s, now) && now <= r.at && NoSlash(r.host)
    ensures var (z, v) := Attempt(s, r.host, r.node, r.at);
            Covered(z, r.at) && !v.PairTooSoon?
  {
    var (z, v) := Attempt(s, r.host, r.node, r.at);
    if !v.HostTooSoon? {
      var kept := Pruned(s.pairs, r.at - HORIZON);
      var pairs := if |kept| > CAPACITY then map[] else kept;
      var key := PairKey(r.host, r.node);
      assert key in pairs ==> Stamped(s, r.host, s.pairs[key], now);
      SizeOfInsert(pairs, key, r.at);
      forall h, n | NoSlash(h) && PairKey(h, n) in z.pairs
        ensures Stamped(z, h, z.pairs[PairKey(h, n)], r.at)
      {
        if PairKey(h, n) == key {
          PairKeyInjective(h, n, r.host, r.node);
        } else {
          assert PairKey(h, n) in s.pairs && Stamped(s, h, s.pairs[PairKey(h, n)], now);
        }
      }
    }
  }

  lemma HostStampKept(s: State, r: Request, now: Time, host: string, t: Time)
    requires Stamped(s, host, t, now) && t <= now <= r.at
    ensures Stamped(Attempt(s, r.host, r.node, r.at).0, host, t, r.at)
  {
  }

  /** A host stamped at `t` is not accepted again within the spacing. */
  lemma {:induction false} NextAcceptanceWaits(s: State, rs: seq<Request>, now: Time, host: string, t: Time, j: nat)
    requires Covered(s, now) && Orderly(rs, now) && t <= now && Stamped(s, host, t, now)
    requires j < |rs| && rs[j].host == host && Verdicts(s, rs)[j].Accepted?
    ensures rs[j].at - t >= SPACING
    decreases |rs|
  {
    var z := Attempt(s, rs[0].host, rs[0].node, rs[0].at).0;
    if j > 0 {
      AttemptKeepsCovered(s, rs[0], now);
      HostStampKept(s, rs[0], now, host, t);
      NextAcceptanceWaits(z, rs[1..], rs[0].at, host, t, j - 1);
    }
  }

  lemma VerdictsTail(s: State, rs: seq<Request>, k: nat)
    requires 0 < k < |rs|
    ensures Verdicts(s, rs)[k] == Verdicts(Attempt(s, rs[0].host, rs[0].node, rs[0].at).0, rs[1..])[k - 1]
  {
  }

  /** An accepted request leaves its host stamped. */
  lemma AcceptanceStamps(s: State, r: Request)
    requires Attempt(s, r.host, r.node, r.at).1.Accepted?
    ensures Stamped(Attempt(s, r.host, r.node, r.at).0, r.host, r.at, r.at)
  {
  }

  lemma FirstIsSpaced(s: State, rs: seq<Request>, now: Time, j: nat)
    requires Covered(s, now) && Orderly(rs, now) && 0 < j < |rs| && rs[0].host == rs[j].host
    requires Verdicts(s, rs)[0].Accepted? && Verdicts(s, rs)[j].Accepted?
    ensures rs[j].at - rs[0].at >= SPACING
  {
    AttemptKeepsCovered(s, rs[0], now);
    AcceptanceStamps(s, rs[0]);
    VerdictsTail(s, rs, j);
    var z := Attempt(s, rs[0].host, rs[0].node, rs[0].at).0;
    NextAcceptanceWaits(z, rs[1..], rs[0].at, rs[0].host, rs[0].at, j - 1);
  }

  lemma {:induction false} AcceptancesAreSpacedFrom(s: State, rs: seq<Request>, now: Time, i: nat, j: nat)
    requires Covered(s, now) && Orderly(rs, now) && i < j < |rs| && rs[i].host == rs[j].host
    requires Verdicts(s, rs)[i].Accepted? && Verdicts(s, rs)[j].Accepted?
    ensures rs[j].at - rs[i].at >= SPACING
    decreases |rs|
  {
    if i == 0 {
      FirstIsSpaced(s, rs, now, j);
    } else {
      AttemptKeepsCovered(s, rs[0], now);
      VerdictsTail(s, rs, i);
      VerdictsTail(s, rs, j);
      AcceptancesAreSpacedFrom(Attempt(s, rs[0].host, rs[0].node, rs[0].at).0, rs[1..], rs[0].at, i - 1, j - 1);
    }
  }

  lemma {:induction false} RunsStayCovered(s: State, rs: seq<Request>, now: Time)
    requires Covered(s, now) && Orderly(rs, now)
    ensures |After(s, rs).pairs| <= CAPACITY + 1
    ensures forall i :: 0 <= i < |rs| ==> !Verdicts(s, rs)[i].PairTooSoon?
    decreases |rs|
  {
    if rs != [] {
      AttemptKeepsCovered(s, rs[0], now);
      RunsStayCovered(Attempt(s, rs[0].host, rs[0].node, rs[0].at).0, rs[1..], rs[0].at);
    }
  }

  /** Every host stamp is the time of an accepted request, of this run or before it. */
  ghost predicate Earned(s: State, rs: seq<Request>, n: nat, host: string)
    requires n <= |rs|
  {
    host in After(s, rs[..n]).hosts ==>
      || (host in s.hosts && After(s, rs[..n]).hosts[host] == s.hosts[host])
      || exists i :: 0 <= i < n && rs[i].host == host && Verdicts(s, rs)[i].Accepted?
                     && rs[i].at == After(s, rs[..n]).hosts[host]
  }

  lemma {:induction false} StateBefore(s: State, rs: seq<Request>, n: nat)
    requires n < |rs|
    ensures var cur := After(s, rs[..n]);
      && After(s, rs[..n + 1]) == Attempt(cur, rs[n].host, rs[n].node, rs[n].at).0
      && Verdicts(s, rs)[n] == Attempt(cur, rs[n].host, rs[n].node, rs[n].at).1
    decreases |rs|
  {
    if n == 0 {
      assert rs[..1][1..] == [];
    } else {
      VerdictsTail(s, rs, n);
      StateBefore(Attempt(s, rs[0].host, rs[0].node, rs[0].at).0, rs[1..], n - 1);
      assert rs[..n + 1][1..] == rs[1..][..n] && rs[..n][1..] == rs[1..][..n - 1];
    }
  }

  /** One request leaves a host's stamp, drops it, or was accepted from that host. */
  lemma StampsStep(s: State, r: Request, host: string)
    ensures var (z, v) := Attempt(s, r.host, r.node, r.at);
      host in z.hosts ==>
        || (host in s.hosts && z.hosts[host] == s.hosts[host])
        || (host == r.host && z.hosts[host] == r.at && !v.HostTooSoon?)
  {
  }

  lemma {:induction false} StampsAreEarned(rs: seq<Request>, start: Time, n: nat, host: string)
    requires Orderly(rs, start) && n <= |rs|
    ensures Earned(State(map[], map[]), rs, n, host)
  {
    var s := State(map[], map[]);
    if n == 0 {
      assert rs[..0] == [];
    } else {
      StampsAreEarned(rs, start, n - 1, host);
      StateBefore(s, rs, n - 1);
      StampsStep(After(s, rs[..n - 1]), rs[n - 1], host);
      RunsStayCovered(s, rs, start);
    }
  }

  /** No request from the host of request `j` was accepted in the ten seconds before. */
  ghost predicate QuietBefore(rs: seq<Request>, j: int)
    requires 0 <= j < |rs|
  {
    forall i :: 0 <= i < j && rs[i].host == rs[j].host && rs[j].at - rs[i].at < 10_000_000_000 ==>
      !Verdicts(State(map[], map[]), rs)[i].Accepted?
  }

  lemma QuietHostsAreAccepted(rs: seq<Request>, start: Time, j: nat)
    requires Orderly(rs, start) && j < |rs| && QuietBefore(rs, j)
    ensures Verdicts(State(map[], map[]), rs)[j].Accepted?
  {
    var s := State(map[], map[]);
    StateBefore(s, rs, j);
    StampsAreEarned(rs, start, j, rs[j].host);
    RunsStayCovered(s, rs, start);
  }

  /** Over every history with a monotone clock and slash-free hosts: a request is
      accepted exactly when none from its host was accepted in the ten seconds
      before, the per-pair test never rejects, and the pair map never holds more
      than 10001 entries. */
  lemma KeyAuthIsSpaced(rs: seq<Request>, start: Time)
    requires Orderly(rs, start)
    ensures var s := State(map[], map[]);
      && |After(s, rs).pairs| <= 10001
      && (forall i :: 0 <= i < |rs| ==> !Verdicts(s, rs)[i].PairTooSoon?)
      && (forall j :: 0 <= j < |rs| ==> (Verdicts(s, rs)[j].Accepted? <==> QuietBefore(rs, j)))
  {
    var s := State(map[], map[]);
    RunsStayCovered(s, rs, start);
    forall j | 0 <= j < |rs|
      ensures Verdicts(s, rs)[j].Accepted? <==> QuietBefore(rs, j)
    {
      if QuietBefore(rs, j) {
        QuietHostsAreAccepted(rs, start, j);
      }
      if Verdicts(s, rs)[j].Accepted? {
        forall i | 0 <= i < j && rs[i].host == rs[j].host && Verdicts(s, rs)[i].Accepted?
          ensures rs[j].at - rs[i].at >= 10_000_000_000
        {
          AcceptancesAreSpacedFrom(s, rs, start, i, j);
        }
      }
    }
  }
}
