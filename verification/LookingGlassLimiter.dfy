/**
  The looking-glass limiter (allow): lazily created token buckets with idle
  eviction, against the same buckets kept for ever.

  A bucket holds three tokens and regains one every ten seconds.  Token counts are
  kept in units of 10^-10 token, which makes the refill one unit per nanosecond
  and all arithmetic exact.
 */
module LookingGlassLimiter {
  type Time = int   // nanoseconds
  type Key = string

  const SECOND: Time := 1_000_000_000
  const TOKEN := 10 * SECOND
  const BURST := 3 * TOKEN
  const IDLE: Time := 30 * 60 * SECOND
  const SWEEP_EVERY: Time := 10 * 60 * SECOND

  datatype Bucket = Bucket(tokens: int, last: Time)

  function Level(b: Bucket, now: Time): int {
    if b.tokens + (now - b.last) < BURST then b.tokens + (now - b.last) else BURST
  }

  predicate Allows(b: Bucket, now: Time) {
    Level(b, now) >= TOKEN
  }

  function Spend(b: Bucket, now: Time): Bucket {
    if Allows(b, now) then Bucket(Level(b, now) - TOKEN, now) else b
  }

  datatype Entry = Entry(bucket: Bucket, lastSeen: Time)
  datatype State = State(limiters: map<Key, Entry>, lastSweep: Time)

  function Swept(s: State, now: Time): State {
    if now - s.lastSweep > SWEEP_EVERY
    then State(map k | k in s.limiters && now - s.limiters[k].lastSeen <= IDLE :: s.limiters[k], now)
    else s
  }

  function BucketFor(m: map<Key, Entry>, key: Key, now: Time): Bucket {
    if key in m then m[key].bucket else Bucket(BURST, now)
  }

  function Allow(s: State, key: Key, now: Time): (State, bool) {
    var t := Swept(s, now);
    var b := BucketFor(t.limiters, key, now);
    (t.(limiters := t.limiters[key := Entry(Spend(b, now), now)]), Allows(b, now))
  }

  class LookingGlass {
    var limiters: map<Key, Entry>
    var lastSweep: Time

    constructor (epoch: Time)
      ensures limiters == map[] && lastSweep == epoch
    {
      limiters, lastSweep := map[], epoch;
    }

    method AllowQuery(key: Key, now: Time) returns (ok: bool)
      modifies this
      ensures (State(limiters, lastSweep), ok) == Allow(old(State(limiters, lastSweep)), key, now)
    {
      if now - lastSweep > SWEEP_EVERY {
        var todo := limiters.Keys;
        ghost var all := limiters;
        while todo != {}
          invariant todo <= all.Keys
          invariant limiters == map k | k in all && (k in todo || now - all[k].lastSeen <= IDLE) :: all[k]
          invariant lastSweep == old(lastSweep)
          decreases todo
        {
          var k :| k in todo;
          if now - limiters[k].lastSeen > IDLE {
            limiters := limiters - {k};
          }
          todo := todo - {k};
        }
        assert limiters == map k | k in all && now - all[k].lastSeen <= IDLE :: all[k];
        lastSweep := now;
      }
      ghost var t := Swept(old(State(limiters, lastSweep)), now);
      assert limiters == t.limiters && lastSweep == t.lastSweep;
      if key !in limiters {
        limiters := limiters[key := Entry(Bucket(BURST, now), now)];
      }
      var b := limiters[key].bucket;
      ok := Level(b, now) >= TOKEN;
      if ok {
        b := Bucket(Level(b, now) - TOKEN, now);
      }
      limiters := limiters[key := Entry(b, now)];
      assert limiters == t.limiters[key := Entry(b, now)];
    }
  }

  // ----- The limiter that never evicts ------------------------------------------------------

  type Buckets = map<Key, Bucket>

  function KeptBucket(m: Buckets, key: Key, now: Time): Bucket {
    if key in m then m[key] else Bucket(BURST, now)
  }

  function KeepAllow(m: Buckets, key: Key, now: Time): (Buckets, bool) {
    var b := KeptBucket(m, key, now);
    (m[key := Spend(b, now)], Allows(b, now))
  }

  /** Every entry present in both is the same bucket; every evicted one is full,
      and so indistinguishable from a new one. */
  ghost predicate Matches(s: State, m: Buckets, now: Time) {
    && s.limiters.Keys <= m.Keys
    && (forall k :: k in s.limiters ==>
          && s.limiters[k].bucket == m[k]
          && 0 <= m[k].tokens && m[k].last <= s.limiters[k].lastSeen <= now)
    && (forall k :: k in m && k !in s.limiters ==> m[k].tokens + (now - m[k].last) >= BURST)
  }

  lemma AllowMatches(s: State, m: Buckets, key: Key, now: Time, at: Time)
    requires Matches(s, m, now) && now <= at
    ensures Allow(s, key, at).1 == KeepAllow(m, key, at).1
    ensures Matches(Allow(s, key, at).0, KeepAllow(m, key, at).0, at)
  {
    var t := Swept(s, at);
    assert Matches(t, m, at);
    var b, c := BucketFor(t.limiters, key, at), KeptBucket(m, key, at);
    assert Level(b, at) == Level(c, at);
  }

  datatype Query = Query(key: Key, at: Time)

  predicate Ordered(qs: seq<Query>, now: Time) {
    qs == [] || (now <= qs[0].at && Ordered(qs[1..], qs[0].at))
  }

  function Decisions(s: State, qs: seq<Query>): (oks: seq<bool>)
    ensures |oks| == |qs|
    decreases |qs|
  {
    if qs == [] then []
    else var (t, ok) := Allow(s, qs[0].key, qs[0].at); [ok] + Decisions(t, qs[1..])
  }

  function KeepDecisions(m: Buckets, qs: seq<Query>): seq<bool>
    decreases |qs|
  {
    if qs == [] then []
    else var (t, ok) := KeepAllow(m, qs[0].key, qs[0].at); [ok] + KeepDecisions(t, qs[1..])
  }

  lemma {:induction false} DecisionsMatch(s: State, m: Buckets, qs: seq<Query>, now: Time)
    requires Matches(s, m, now) && Ordered(qs, now)
    ensures Decisions(s, qs) == KeepDecisions(m, qs)
    decreases |qs|
  {
    if qs != [] {
      AllowMatches(s, m, qs[0].key, now, qs[0].at);
      DecisionsMatch(Allow(s, qs[0].key, qs[0].at).0, KeepAllow(m, qs[0].key, qs[0].at).0, qs[1..], qs[0].at);
    }
  }

  /** Lazy creation and idle eviction change no decision, over any history of
      queries, whenever the sweeps happen to run. */
  lemma EvictionIsInvisible(qs: seq<Query>, start: Time, lastSweep: Time)
    requires Ordered(qs, start)
    ensures Decisions(State(map[], lastSweep), qs) == KeepDecisions(map[], qs)
  {
    DecisionsMatch(State(map[], lastSweep), map[], qs, start);
  }

  // ----- What the buckets allow ----------------------------------------------------------

  /** The bucket of one key over the queries for it. */
  function BucketAfter(m: Buckets, qs: seq<Query>): Buckets
    decreases |qs|
  {
    if qs == [] then m else BucketAfter(KeepAllow(m, qs[0].key, qs[0].at).0, qs[1..])
  }

  /** How many of the queries for `key` are allowed. */
  function Granted(m: Buckets, qs: seq<Query>, key: Key): nat
    decreases |qs|
  {
    if qs == [] then 0
    else
      var (z, ok) := KeepAllow(m, qs[0].key, qs[0].at);
      Granted(z, qs[1..], key) + if ok && qs[0].key == key then 1 else 0
  }

  /** Buckets are neither overdrawn nor overfull, nor ahead of the clock. */
  ghost predicate Sane(m: Buckets, now: Time) {
    forall k :: k in m ==> 0 <= m[k].tokens <= BURST && m[k].last <= now
  }

  function LevelOf(m: Buckets, key: Key, now: Time): int {
    Level(KeptBucket(m, key, now), now)
  }

  lemma QueryStep(m: Buckets, q: Query, now: Time, key: Key)
    requires Sane(m, now) && now <= q.at
    ensures var (z, ok) := KeepAllow(m, q.key, q.at);
      && Sane(z, q.at)
      && LevelOf(m, key, q.at) <= LevelOf(m, key, now) + (q.at - now)
      && LevelOf(z, key, q.at) == LevelOf(m, key, q.at) - (if ok && q.key == key then TOKEN else 0)
      && 0 <= LevelOf(z, key, q.at) <= BURST
  {
  }

  predicate EndsBy(qs: seq<Query>, end: Time) {
    qs == [] || qs[|qs| - 1].at <= end
  }

  lemma {:induction false} SpendingIsCovered(m: Buckets, qs: seq<Query>, key: Key, now: Time, end: Time)
    requires Sane(m, now) && Ordered(qs, now) && now <= end && EndsBy(qs, end)
    ensures Granted(m, qs, key) * TOKEN <= LevelOf(m, key, now) + (end - now)
    decreases |qs|
  {
    if qs == [] {
      assert LevelOf(m, key, now) >= 0;
    } else {
      QueryStep(m, qs[0], now, key);
      LastIsLatest(qs, now);
      var z := KeepAllow(m, qs[0].key, qs[0].at).0;
      SpendingIsCovered(z, qs[1..], key, qs[0].at, end);
    }
  }

  lemma {:induction false} LastIsLatest(qs: seq<Query>, now: Time)
    requires Ordered(qs, now) && qs != []
    ensures now <= qs[0].at <= qs[|qs| - 1].at
    decreases |qs|
  {
    if |qs| > 1 {
      LastIsLatest(qs[1..], qs[0].at);
    }
  }

  lemma {:induction false} BucketsStaySane(m: Buckets, qs: seq<Query>, now: Time)
    requires Sane(m, now) && Ordered(qs, now)
    ensures Sane(BucketAfter(m, qs), if qs == [] then now else qs[|qs| - 1].at)
    decreases |qs|
  {
    if qs != [] {
      QueryStep(m, qs[0], now, "");
      BucketsStaySane(KeepAllow(m, qs[0].key, qs[0].at).0, qs[1..], qs[0].at);
    }
  }

  lemma AtMostTheRate(before: seq<Query>, stretch: seq<Query>, key: Key, start: Time)
    requires Ordered(before, start) && stretch != []
    requires Ordered(stretch, if before == [] then start else before[|before| - 1].at)
    ensures (Granted(BucketAfter(map[], before), stretch, key) - 3) * 10_000_000_000
         <= stretch[|stretch| - 1].at - stretch[0].at
  {
    var now := if before == [] then start else before[|before| - 1].at;
    var m := BucketAfter(map[], before);
    BucketsStaySane(map[], before, start);
    var first, end := stretch[0].at, stretch[|stretch| - 1].at;
    LastIsLatest(stretch, now);
    assert Sane(m, first);
    assert Ordered(stretch, first);
    SpendingIsCovered(m, stretch, key, first, end);
    assert LevelOf(m, key, first) <= BURST;
  }

  lemma {:induction false} OrderedSplit(xs: seq<Query>, ys: seq<Query>, now: Time)
    requires Ordered(xs + ys, now)
    ensures Ordered(xs, now) && Ordered(ys, if xs == [] then now else xs[|xs| - 1].at)
    decreases |xs|
  {
    if xs == [] {
      assert xs + ys == ys;
    } else {
      assert (xs + ys)[1..] == xs[1..] + ys;
      OrderedSplit(xs[1..], ys, xs[0].at);
    }
  }

  lemma {:induction false} DecisionsSplit(m: Buckets, xs: seq<Query>, ys: seq<Query>)
    ensures KeepDecisions(m, xs + ys) == KeepDecisions(m, xs) + KeepDecisions(BucketAfter(m, xs), ys)
    ensures BucketAfter(m, xs + ys) == BucketAfter(BucketAfter(m, xs), ys)
    ensures |KeepDecisions(m, xs)| == |xs|
    decreases |xs|
  {
    if xs == [] {
      assert xs + ys == ys;
    } else {
      assert (xs + ys)[1..] == xs[1..] + ys;
      DecisionsSplit(KeepAllow(m, xs[0].key, xs[0].at).0, xs[1..], ys);
    }
  }

  /** How many queries for `key` were answered yes. */
  function CountAllowed(oks: seq<bool>, qs: seq<Query>, key: Key): nat
    requires |oks| == |qs|
    decreases |qs|
  {
    if qs == [] then 0 else CountAllowed(oks[1..], qs[1..], key) + if oks[0] && qs[0].key == key then 1 else 0
  }

  lemma {:induction false} GrantedCounts(m: Buckets, qs: seq<Query>, key: Key)
    ensures |KeepDecisions(m, qs)| == |qs|
    ensures Granted(m, qs, key) == CountAllowed(KeepDecisions(m, qs), qs, key)
    decreases |qs|
  {
    if qs != [] {
      var (z, ok) := KeepAllow(m, qs[0].key, qs[0].at);
      GrantedCounts(z, qs[1..], key);
      assert KeepDecisions(m, qs)[1..] == KeepDecisions(z, qs[1..]);
    }
  }

  /** In any stretch of any history the limiter allows one user at most three queries,
      and one more for every ten seconds the stretch lasts. */
  lemma RateIsBounded(before: seq<Query>, stretch: seq<Query>, key: Key, start: Time, lastSweep: Time)
    requires Ordered(before + stretch, start) && stretch != []
    ensures var oks := Decisions(State(map[], lastSweep), before + stretch);
      && |oks| == |before| + |stretch|
      && (CountAllowed(oks[|before|..], stretch, key) - 3) * 10_000_000_000
           <= stretch[|stretch| - 1].at - stretch[0].at
  {
    EvictionIsInvisible(before + stretch, start, lastSweep);
    DecisionsSplit(map[], before, stretch);
    OrderedSplit(before, stretch, start);
    AtMostTheRate(before, stretch, key, start);
    GrantedCounts(BucketAfter(map[], before), stretch, key);
  }

  /** A bucket's time is that of an allowed query for its key. */
  ghost predicate LastWasAllowed(qs: seq<Query>, key: Key) {
    key in BucketAfter(map[], qs) ==>
      exists i :: 0 <= i < |qs| && qs[i].key == key && Answer(qs, i) && qs[i].at == BucketAfter(map[], qs)[key].last
  }

  /** The answer to query `i`. */
  ghost predicate Answer(qs: seq<Query>, i: int)
    requires 0 <= i < |qs|
  {
    Allows(KeptBucket(BucketAfter(map[], qs[..i]), qs[i].key, qs[i].at), qs[i].at)
  }

  lemma AnswersAreDecisions(qs: seq<Query>, i: nat)
    requires i < |qs|
    ensures |KeepDecisions(map[], qs)| == |qs| && KeepDecisions(map[], qs)[i] == Answer(qs, i)
  {
    assert qs == qs[..i] + qs[i..];
    DecisionsSplit(map[], qs[..i], qs[i..]);
    DecisionsSplit(map[], qs, []);
  }

  lemma {:induction false} BucketsRecordAllowances(qs: seq<Query>, key: Key)
    ensures LastWasAllowed(qs, key)
    decreases |qs|
  {
    if qs != [] {
      var n := |qs| - 1;
      var init, q := qs[..n], qs[n];
      BucketsRecordAllowances(init, key);
      assert qs == init + [q];
      DecisionsSplit(map[], init, [q]);
      var m := BucketAfter(map[], init);
      assert BucketAfter(m, [q]) == KeepAllow(m, q.key, q.at).0;
      if key in m && !(q.key == key && Answer(qs, n)) {
        var i :| 0 <= i < n && init[i].key == key && Answer(init, i) && init[i].at == m[key].last;
        assert qs[i] == init[i] && init[..i] == qs[..i] && Answer(qs, i);
        assert BucketAfter(map[], qs)[key] == m[key];
      } else if q.key == key {
        assert Answer(qs, n);
      }
    }
  }

  /** A user without an allowed query in the last ten seconds is allowed. */
  lemma RestedUsersAreAllowed(before: seq<Query>, q: Query, start: Time, lastSweep: Time)
    requires Ordered(before + [q], start)
    requires forall i :: 0 <= i < |before| && before[i].key == q.key && q.at - before[i].at < 10_000_000_000 ==>
      !Decisions(State(map[], lastSweep), before)[i]
    ensures var oks := Decisions(State(map[], lastSweep), before + [q]);
      |oks| == |before| + 1 && oks[|before|]
  {
    OrderedSplit(before, [q], start);
    EvictionIsInvisible(before, start, lastSweep);
    EvictionIsInvisible(before + [q], start, lastSweep);
    var m := BucketAfter(map[], before);
    DecisionsSplit(map[], before, [q]);
    BucketsStaySane(map[], before, start);
    BucketsRecordAllowances(before, q.key);
    if q.key in m {
      var i :| 0 <= i < |before| && before[i].key == q.key && Answer(before, i) && before[i].at == m[q.key].last;
      AnswersAreDecisions(before, i);
    }
    assert Allows(KeptBucket(m, q.key, q.at), q.at);
    assert KeepDecisions(m, [q])[0];
  }
}
