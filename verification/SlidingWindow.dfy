/**
  The per-IP sliding window limiter (checkIPRate).

  Each key's recent acceptances live in one cache entry with a two-minute
  lifetime.  The limiter is proved to decide exactly as an ideal one that never
  forgets an acceptance.
 */
module SlidingWindow {
  import opened Common
  import opened Cache

  const WINDOW: Time := 60 * SECOND
  const KEEP: Time := 120 * SECOND

  type Entries = map<string, Stored<seq<Time>>>

  /** The times strictly after `cutoff`, in order. */
  function Recent(times: seq<Time>, cutoff: Time): seq<Time> {
    if times == [] then []
    else
      var rest := Recent(times[..|times| - 1], cutoff);
      if times[|times| - 1] > cutoff then rest + [times[|times| - 1]] else rest
  }

  function Times(b: Backend, m: Entries, key: string, now: Time): seq<Time> {
    var got := Get(b, m, key, now);
    if got.Some? then got.value else []
  }

  datatype Verdict = Verdict(entries: Entries, ok: bool)

  /** One call, as a function of the cache. */
  function Check(b: Backend, m: Entries, key: string, limit: int, now: Time): Verdict {
    var kept := Recent(Times(b, m, key, now), now - WINDOW);
    if |kept| >= limit then Verdict(Put(m, key, kept, KEEP, now), false)
    else Verdict(Put(m, key, kept + [now], KEEP, now), true)
  }

  class IPRateLimiter {
    const cache: Cache<seq<Time>>

    constructor (backend: Backend)
      ensures fresh(cache) && cache.backend == backend && cache.data == map[]
    {
      cache := new Cache(backend);
    }

    method CheckIPRate(key: string, limit: int, now: Time) returns (ok: bool)
      modifies cache
      ensures Verdict(cache.data, ok) == Check(cache.backend, old(cache.data), key, limit, now)
    {
      var cutoff := now - WINDOW;
      var entry := cache.Fetch(key, now);
      var times := if entry.Some? then entry.value else [];
      var kept := [];
      for i := 0 to |times|
        invariant kept == Recent(times[..i], cutoff)
      {
        assert times[..i + 1][..i] == times[..i];
        if times[i] > cutoff {
          kept := kept + [times[i]];
        }
      }
      assert times[..|times|] == times;
      if |kept| >= limit {
        cache.Store(key, kept, KEEP, now);
        return false;
      }
      cache.Store(key, kept + [now], KEEP, now);
      return true;
    }
  }

  // ----- The ideal limiter ----------------------------------------------------------

  /** Every acceptance ever, per key. */
  type Ledger = map<string, seq<Time>>

  function Accepted(l: Ledger, key: string): seq<Time> {
    if key in l then l[key] else []
  }

  predicate IdealAllows(l: Ledger, key: string, limit: int, now: Time) {
    |Recent(Accepted(l, key), now - WINDOW)| < limit
  }

  datatype Call = Call(key: string, limit: int, at: Time)

  function IdealStep(l: Ledger, c: Call): Ledger {
    if IdealAllows(l, c.key, c.limit, c.at) then l[c.key := Accepted(l, c.key) + [c.at]] else l
  }

  // ----- Facts about windows ----------------------------------------------------------

  lemma {:induction false} RecentAppend(s: seq<Time>, t: Time, cutoff: Time)
    ensures Recent(s + [t], cutoff) == Recent(s, cutoff) + if t > cutoff then [t] else []
  {
    assert (s + [t])[..|s|] == s;
  }

  lemma {:induction false} RecentOfRecent(s: seq<Time>, early: Time, late: Time)
    requires early <= late
    ensures Recent(Recent(s, early), late) == Recent(s, late)
    decreases |s|
  {
    if s != [] {
      var init, t := s[..|s| - 1], s[|s| - 1];
      RecentOfRecent(init, early, late);
      RecentAppend(Recent(init, early), t, late);
    }
  }

  lemma {:induction false} NothingRecent(s: seq<Time>, cutoff: Time)
    requires forall i :: 0 <= i < |s| ==> s[i] <= cutoff
    ensures Recent(s, cutoff) == []
    decreases |s|
  {
    if s != [] {
      NothingRecent(s[..|s| - 1], cutoff);
    }
  }

  // ----- The limiter agrees with the ideal one --------------------------------------------

  predicate Past(l: Ledger, now: Time) {
    forall key, i :: key in l && 0 <= i < |l[key]| ==> l[key][i] <= now
  }

  /** From now on, what the cache will answer is what the ledger says. */
  ghost predicate Faithful(b: Backend, m: Entries, l: Ledger, now: Time) {
    forall key, t :: t >= now ==>
      Recent(Times(b, m, key, t), t - WINDOW) == Recent(Accepted(l, key), t - WINDOW)
  }

  /** What a call stores stands, at any later time, for the whole ledger entry. */
  lemma StoredStaysFaithful(b: Backend, all: seq<Time>, at: Time, ok: bool, t: Time)
    requires (forall i :: 0 <= i < |all| ==> all[i] <= at) && at <= t
    ensures var more := if ok then [at] else [];
            var stored := Stored(Recent(all, at - WINDOW) + more, at, KEEP);
      Recent(if Alive(b, stored, t) then stored.value else [], t - WINDOW) == Recent(all + more, t - WINDOW)
  {
    var more := if ok then [at] else [];
    var stored := Stored(Recent(all, at - WINDOW) + more, at, KEEP);
    PruningLosesNothing(all, at, ok, t);
    NeverEarlyNorLate(b, stored, t);
    WholeMillis();
    if !Alive(b, stored, t) {
      NothingRecent(all + more, t - WINDOW);
      assert Recent([], t - WINDOW) == [];
    }
  }

  lemma WholeMillis()
    ensures KEEP / MILLI * MILLI == KEEP
  {
  }

  /** What was outside the window once stays outside. */
  lemma PruningLosesNothing(all: seq<Time>, at: Time, ok: bool, t: Time)
    requires at <= t
    ensures var more := if ok then [at] else [];
      Recent(Recent(all, at - WINDOW) + more, t - WINDOW) == Recent(all + more, t - WINDOW)
  {
    var kept := Recent(all, at - WINDOW);
    RecentOfRecent(all, at - WINDOW, t - WINDOW);
    if ok {
      RecentAppend(kept, at, t - WINDOW);
      RecentAppend(all, at, t - WINDOW);
    } else {
      assert kept + [] == kept && all + [] == all;
    }
  }

  lemma StepDecides(b: Backend, m: Entries, l: Ledger, c: Call)
    requires Recent(Times(b, m, c.key, c.at), c.at - WINDOW) == Recent(Accepted(l, c.key), c.at - WINDOW)
    ensures var v := Check(b, m, c.key, c.limit, c.at);
            var more := if v.ok then [c.at] else [];
      && v.ok == IdealAllows(l, c.key, c.limit, c.at)
      && v.entries == m[c.key := Stored(Recent(Accepted(l, c.key), c.at - WINDOW) + more, c.at, KEEP)]
      && Accepted(IdealStep(l, c), c.key) == Accepted(l, c.key) + more
      && forall key :: key != c.key ==> Accepted(IdealStep(l, c), key) == Accepted(l, key)
  {
    var kept := Recent(Accepted(l, c.key), c.at - WINDOW);
    assert kept + [] == kept && Accepted(l, c.key) + [] == Accepted(l, c.key);
  }

  lemma OwnKeyStaysFaithful(b: Backend, m: Entries, l: Ledger, c: Call, t: Time)
    requires Recent(Times(b, m, c.key, c.at), c.at - WINDOW) == Recent(Accepted(l, c.key), c.at - WINDOW)
    requires (forall i :: 0 <= i < |Accepted(l, c.key)| ==> Accepted(l, c.key)[i] <= c.at) && c.at <= t
    ensures var v := Check(b, m, c.key, c.limit, c.at);
      Recent(Times(b, v.entries, c.key, t), t - WINDOW) == Recent(Accepted(IdealStep(l, c), c.key), t - WINDOW)
  {
    StepDecides(b, m, l, c);
    StoredStaysFaithful(b, Accepted(l, c.key), c.at, Check(b, m, c.key, c.limit, c.at).ok, t);
  }

  lemma StepStaysFaithful(b: Backend, m: Entries, l: Ledger, c: Call, now: Time)
    requires Faithful(b, m, l, now) && Past(l, now) && now <= c.at
    ensures var v := Check(b, m, c.key, c.limit, c.at);
      && v.ok == IdealAllows(l, c.key, c.limit, c.at)
      && Faithful(b, v.entries, IdealStep(l, c), c.at)
  {
    StepDecides(b, m, l, c);
    var v := Check(b, m, c.key, c.limit, c.at);
    forall key, t | t >= c.at
      ensures Recent(Times(b, v.entries, key, t), t - WINDOW)
           == Recent(Accepted(IdealStep(l, c), key), t - WINDOW)
    {
      if key == c.key {
        OwnKeyStaysFaithful(b, m, l, c, t);
      } else {
        assert Times(b, v.entries, key, t) == Times(b, m, key, t);
        assert Accepted(IdealStep(l, c), key) == Accepted(l, key);
      }
    }
  }

  lemma StepStaysPast(l: Ledger, c: Call, now: Time)
    requires Past(l, now) && now <= c.at
    ensures Past(IdealStep(l, c), c.at)
  {
  }

  predicate Ordered(calls: seq<Call>, now: Time) {
    calls == [] || (now <= calls[0].at && Ordered(calls[1..], calls[0].at))
  }

  function Decisions(b: Backend, m: Entries, calls: seq<Call>): seq<bool>
    decreases |calls|
  {
    if calls == [] then []
    else
      var v := Check(b, m, calls[0].key, calls[0].limit, calls[0].at);
      [v.ok] + Decisions(b, v.entries, calls[1..])
  }

  function IdealDecisions(l: Ledger, calls: seq<Call>): seq<bool>
    decreases |calls|
  {
    if calls == [] then []
    else [IdealAllows(l, calls[0].key, calls[0].limit, calls[0].at)] + IdealDecisions(IdealStep(l, calls[0]), calls[1..])
  }

  lemma {:induction false} DecisionsAgree(b: Backend, m: Entries, l: Ledger, calls: seq<Call>, now: Time)
    requires Faithful(b, m, l, now) && Past(l, now) && Ordered(calls, now)
    ensures Decisions(b, m, calls) == IdealDecisions(l, calls)
    decreases |calls|
  {
    if calls != [] {
      StepStaysFaithful(b, m, l, calls[0], now);
      StepStaysPast(l, calls[0], now);
      var v := Check(b, m, calls[0].key, calls[0].limit, calls[0].at);
      DecisionsAgree(b, v.entries, IdealStep(l, calls[0]), calls[1..], calls[0].at);
    }
  }

  /** On either backend, for every history of calls on any keys with any limits,
      the cached limiter decides as the one that never forgets. */
  lemma CacheForgetsNothingThatMatters(b: Backend, calls: seq<Call>, start: Time)
    requires Ordered(calls, start)
    ensures Decisions(b, map[], calls) == IdealDecisions(map[], calls)
  {
    DecisionsAgree(b, map[], map[], calls, start);
  }

  /** How many of the first `n` calls on `key` were accepted after `cutoff`. */
  function AcceptedSince(calls: seq<Call>, ok: seq<bool>, n: nat, key: string, cutoff: Time): nat
    requires n <= |calls| == |ok|
  {
    if n == 0 then 0
    else
      var one := if ok[n - 1] && calls[n - 1].key == key && calls[n - 1].at > cutoff then 1 else 0;
      AcceptedSince(calls, ok, n - 1, key, cutoff) + one
  }

  function LedgerAfter(l: Ledger, calls: seq<Call>): Ledger
    decreases |calls|
  {
    if calls == [] then l else LedgerAfter(IdealStep(l, calls[0]), calls[1..])
  }

  lemma {:induction false} LedgerAfterLast(l: Ledger, calls: seq<Call>, n: nat)
    requires n < |calls|
    ensures LedgerAfter(l, calls[..n + 1]) == IdealStep(LedgerAfter(l, calls[..n]), calls[n])
    ensures |IdealDecisions(l, calls)| == |calls|
    ensures IdealDecisions(l, calls)[n] == IdealAllows(LedgerAfter(l, calls[..n]), calls[n].key, calls[n].limit, calls[n].at)
    decreases |calls|
  {
    IdealDecisionsLength(l, calls);
    if n == 0 {
      assert calls[..1][1..] == [];
    } else {
      LedgerAfterLast(IdealStep(l, calls[0]), calls[1..], n - 1);
      assert calls[..n + 1][1..] == calls[1..][..n];
      assert calls[..n][1..] == calls[1..][..n - 1];
    }
  }

  lemma {:induction false} IdealDecisionsLength(l: Ledger, calls: seq<Call>)
    ensures |IdealDecisions(l, calls)| == |calls|
    decreases |calls|
  {
    if calls != [] {
      IdealDecisionsLength(IdealStep(l, calls[0]), calls[1..]);
    }
  }

  lemma LedgerGrows(l: Ledger, c: Call, key: string, cutoff: Time)
    ensures |Recent(Accepted(IdealStep(l, c), key), cutoff)| == |Recent(Accepted(l, key), cutoff)|
              + if IdealAllows(l, c.key, c.limit, c.at) && c.key == key && c.at > cutoff then 1 else 0
  {
    RecentAppend(Accepted(l, key), c.at, cutoff);
  }

  lemma {:induction false} LedgerCounts(calls: seq<Call>, n: nat, key: string, cutoff: Time)
    requires n <= |calls|
    ensures |IdealDecisions(map[], calls)| == |calls|
    ensures |Recent(Accepted(LedgerAfter(map[], calls[..n]), key), cutoff)|
         == AcceptedSince(calls, IdealDecisions(map[], calls), n, key, cutoff)
  {
    IdealDecisionsLength(map[], calls);
    if n == 0 {
      assert calls[..0] == [];
    } else {
      LedgerCounts(calls, n - 1, key, cutoff);
      LedgerAfterLast(map[], calls, n - 1);
      LedgerGrows(LedgerAfter(map[], calls[..n - 1]), calls[n - 1], key, cutoff);
    }
  }

  /** The sliding-window bound: a call accepted under limit L at time t is at most
      the L-th acceptance on its key in the sixty seconds up to t; and a call is
      accepted whenever fewer than L precede it there. */
  lemma SlidingWindowBound(b: Backend, calls: seq<Call>, start: Time, n: nat)
    requires Ordered(calls, start) && n < |calls|
    ensures var ok := Decisions(b, map[], calls);
            var c := calls[n];
      && |ok| == |calls|
      && (ok[n] <==> AcceptedSince(calls, ok, n, c.key, c.at - 60_000_000_000) < c.limit)
      && (ok[n] ==> AcceptedSince(calls, ok, n + 1, c.key, c.at - 60_000_000_000) <= c.limit)
  {
    CacheForgetsNothingThatMatters(b, calls, start);
    LedgerAfterLast(map[], calls, n);
    LedgerCounts(calls, n, calls[n].key, calls[n].at - WINDOW);
  }
}
