/**
  The latency checker: run-length analysis of recent round-trip times, and the
  alert and recovery machine over the cache.
 */
module LatencyAlerts {
  import opened Common
  import opened Cache

  const HOUR: Time := 3600 * SECOND
  const QUIET_AFTER_RECOVERY: Time := 6 * HOUR

  // ----- Readings ---------------------------------------------------------------------

  /** A row of the metrics query; points without a value or a time are skipped. */
  datatype Point = Point(rtt: Option<real>, timed: bool)

  datatype Settings = Settings(
    threshold: real, multiplier: real, sustained: int, count: int, cooldownHours: int, recoverEnabled: bool)

  predicate Abnormal(cfg: Settings, baseline: Option<real>, rtt: real) {
    var effective := if baseline.Some? && baseline.value > 1.0 then baseline.value else 1.0;
    rtt > effective * cfg.multiplier || rtt > cfg.threshold
  }

  function Readings(cfg: Settings, baseline: Option<real>, points: seq<Point>): seq<bool> {
    if points == [] then []
    else
      var p := points[|points| - 1];
      var rest := Readings(cfg, baseline, points[..|points| - 1]);
      if p.rtt.Some? && p.timed then rest + [Abnormal(cfg, baseline, p.rtt.value)] else rest
  }

  predicate AllAre(xs: seq<bool>, lo: int, hi: int, v: bool)
    requires 0 <= lo <= hi <= |xs|
  {
    forall i :: lo <= i < hi ==> xs[i] == v
  }

  /** `m` is the length of the longest stretch of abnormal readings. */
  ghost predicate IsLongestRun(xs: seq<bool>, m: int) {
    && (exists lo, hi :: 0 <= lo <= hi <= |xs| && hi - lo == m && AllAre(xs, lo, hi, true))
    && (forall lo, hi :: 0 <= lo <= hi <= |xs| && AllAre(xs, lo, hi, true) ==> hi - lo <= m)
  }

  /** `n` is how many readings at the end are normal. */
  predicate IsTrailingNormal(xs: seq<bool>, n: int) {
    && 0 <= n <= |xs| && AllAre(xs, |xs| - n, |xs|, false)
    && (n < |xs| ==> xs[|xs| - n - 1])
  }

  function Abnormals(xs: seq<bool>): nat {
    if xs == [] then 0 else Abnormals(xs[..|xs| - 1]) + if xs[|xs| - 1] then 1 else 0
  }

  /** The stretch of abnormal readings that ends at `i`. */
  predicate EndsRun(xs: seq<bool>, i: int, c: int)
    requires 0 <= i <= |xs|
  {
    0 <= c <= i && AllAre(xs, i - c, i, true) && (c < i ==> !xs[i - c - 1])
  }

  method Measure(xs: seq<bool>) returns (maxConsecutive: nat, abnormalCount: nat)
    ensures IsLongestRun(xs, maxConsecutive) && abnormalCount == Abnormals(xs)
  {
    var current := 0;
    maxConsecutive, abnormalCount := 0, 0;
    ghost var from, upto := 0, 0;
    for i := 0 to |xs|
      invariant EndsRun(xs, i, current) && current <= maxConsecutive
      invariant abnormalCount == Abnormals(xs[..i])
      invariant 0 <= from <= upto <= i && upto - from == maxConsecutive && AllAre(xs, from, upto, true)
      invariant forall lo, hi :: 0 <= lo <= hi <= i && AllAre(xs, lo, hi, true) ==> hi - lo <= maxConsecutive
    {
      assert xs[..i + 1][..i] == xs[..i];
      ghost var previous := current;
      if xs[i] {
        current, abnormalCount := current + 1, abnormalCount + 1;
        if current > maxConsecutive {
          maxConsecutive := current;
          from, upto := i + 1 - current, i + 1;
        }
      } else {
        current := 0;
      }
      forall lo, hi | 0 <= lo <= hi <= i + 1 && AllAre(xs, lo, hi, true)
        ensures hi - lo <= maxConsecutive
      {
        if hi == i + 1 && lo <= i {
          assert xs[i] && lo >= i - previous;
        }
      }
    }
    assert xs[..|xs|] == xs;
  }

  method CountTrailingNormal(xs: seq<bool>) returns (n: nat)
    ensures IsTrailingNormal(xs, n)
  {
    n := 0;
    var i := |xs| - 1;
    while i >= 0 && !xs[i]
      invariant -1 <= i < |xs| && n == |xs| - 1 - i
      invariant AllAre(xs, |xs| - n, |xs|, false)
    {
      n, i := n + 1, i - 1;
    }
  }

  lemma LongestRunUnique(xs: seq<bool>, m: int, n: int)
    requires IsLongestRun(xs, m) && IsLongestRun(xs, n)
    ensures m == n
  {
  }

  // ----- The alert machine ---------------------------------------------------------------

  /** What the cache holds about one peer: the mute entry and the open alert. */
  datatype Alarm = Alarm(mute: Option<Stored<bool>>, open: bool)

  datatype Notice = Silent | Alert | Recovery

  predicate Muted(b: Backend, a: Alarm, now: Time) {
    a.mute.Some? && Alive(b, a.mute.value, now)
  }

  function Raised(now: Time, cooldownHours: int): Alarm {
    Alarm(Some(Stored(true, now, cooldownHours * HOUR)), true)
  }

  function Cleared(now: Time): Alarm {
    Alarm(Some(Stored(true, now, QUIET_AFTER_RECOVERY)), false)
  }

  /** One check: whether either trigger fired, whether at least two trailing
      readings are normal, and the settings of the moment. */
  datatype Check = Check(trigger: bool, calm: bool, cooldownHours: int, recoverEnabled: bool, at: Time)

  function Step(b: Backend, a: Alarm, c: Check): (Alarm, Notice) {
    if c.trigger then
      if Muted(b, a, c.at) then (a, Silent) else (Raised(c.at, c.cooldownHours), Alert)
    else if a.open && c.recoverEnabled && c.calm then (Cleared(c.at), Recovery)
    else (a, Silent)
  }

  // ----- The checker -----------------------------------------------------------------------

  function MuteKey(peer: string): string { "a:lat:" + peer }
  function OpenKey(peer: string): string { "lat:act:" + peer }

  function AlarmOf(data: map<string, Stored<bool>>, peer: string): Alarm {
    Alarm(if MuteKey(peer) in data && data[MuteKey(peer)].value then Some(data[MuteKey(peer)]) else None,
          OpenKey(peer) in data && data[OpenKey(peer)].value && data[OpenKey(peer)].ttl <= 0)
  }

  lemma KeysApart(p: string, q: string)
    ensures MuteKey(p) != OpenKey(q)
    ensures p != q ==> MuteKey(p) != MuteKey(q) && OpenKey(p) != OpenKey(q)
  {
    assert MuteKey(p)[0] == 'a' && OpenKey(q)[0] == 'l';
    assert MuteKey(p)[6..] == p && MuteKey(q)[6..] == q;
    assert OpenKey(p)[8..] == p && OpenKey(q)[8..] == q;
  }

  ghost predicate Tidy(data: map<string, Stored<bool>>) {
    forall p :: OpenKey(p) in data ==> data[OpenKey(p)].ttl <= 0
  }

  class Checker {
    const c: Cache<bool>

    constructor (backend: Backend)
      ensures fresh(c) && c.backend == backend && c.data == map[] && Tidy(c.data)
    {
      c := new Cache(backend);
    }

    /** The rows of the query that count as readings. */
    static method Collect(cfg: Settings, baseline: Option<real>, points: seq<Point>) returns (readings: seq<bool>)
      ensures readings == Readings(cfg, baseline, points)
    {
      readings := [];
      for i := 0 to |points|
        invariant readings == Readings(cfg, baseline, points[..i])
      {
        assert points[..i + 1][..i] == points[..i];
        if points[i].rtt.Some? && points[i].timed {
          readings := readings + [Abnormal(cfg, baseline, points[i].rtt.value)];
        }
      }
      assert points[..|points|] == points;
    }

    /** The cache side of a check: one step of the peer's alarm, and no other. */
    method Decide(peer: string, check: Check) returns (notice: Notice)
      requires Tidy(c.data)
      modifies c
      ensures Tidy(c.data)
      ensures (AlarmOf(c.data, peer), notice) == Step(c.backend, AlarmOf(old(c.data), peer), check)
      ensures forall q :: q != peer ==> AlarmOf(c.data, q) == AlarmOf(old(c.data), q)
    {
      forall q
        ensures MuteKey(peer) != OpenKey(q) && OpenKey(peer) != MuteKey(q)
        ensures q != peer ==> MuteKey(q) != MuteKey(peer) && OpenKey(q) != OpenKey(peer)
      {
        KeysApart(peer, q);
        KeysApart(q, peer);
      }
      notice := Silent;
      if check.trigger {
        var notified := c.Fetch(MuteKey(peer), check.at);
        if notified == Some(true) {
          return;
        }
        c.Store(MuteKey(peer), true, check.cooldownHours * HOUR, check.at);
        c.Store(OpenKey(peer), true, 0, check.at);
        notice := Alert;
        return;
      }
      var active := c.Fetch(OpenKey(peer), check.at);
      if active != Some(true) || !check.recoverEnabled || !check.calm {
        return;
      }
      c.Delete(OpenKey(peer));
      c.Store(MuteKey(peer), true, QUIET_AFTER_RECOVERY, check.at);
      notice := Recovery;
    }

    /** checkPeer: what it decides is one step of the peer's alarm, on the triggers
        computed from the readings; without readings nothing happens. */
    method CheckPeer(peer: string, cfg: Settings, baseline: Option<real>, points: seq<Point>, now: Time)
      returns (notice: Notice, maxConsecutive: nat, trailingNormal: nat)
      requires Tidy(c.data)
      modifies c
      ensures Tidy(c.data)
      ensures var xs := Readings(cfg, baseline, points);
        && IsLongestRun(xs, maxConsecutive) && IsTrailingNormal(xs, trailingNormal)
        && var check := Check(maxConsecutive >= cfg.sustained || Abnormals(xs) >= cfg.count, trailingNormal >= 2,
                              cfg.cooldownHours, cfg.recoverEnabled, now);
           (AlarmOf(c.data, peer), notice)
             == if xs == [] then (AlarmOf(old(c.data), peer), Silent)
                else Step(c.backend, AlarmOf(old(c.data), peer), check)
      ensures forall q :: q != peer ==> AlarmOf(c.data, q) == AlarmOf(old(c.data), q)
    {
      var readings := Collect(cfg, baseline, points);
      var abnormalCount;
      maxConsecutive, abnormalCount := Measure(readings);
      trailingNormal := CountTrailingNormal(readings);
      notice := Silent;
      if readings != [] {
        var trigger := maxConsecutive >= cfg.sustained || abnormalCount >= cfg.count;
        notice := Decide(peer, Check(trigger, trailingNormal >= 2, cfg.cooldownHours, cfg.recoverEnabled, now));
      }
    }
  }

  // ----- Over every run of checks ------------------------------------------------------------

  predicate Orderly(cs: seq<Check>, now: Time) {
    cs == [] || (now <= cs[0].at && Orderly(cs[1..], cs[0].at))
  }

  function Notices(b: Backend, a: Alarm, cs: seq<Check>): (ns: seq<Notice>)
    ensures |ns| == |cs|
    decreases |cs|
  {
    if cs == [] then []
    else var (z, n) := Step(b, a, cs[0]); [n] + Notices(b, z, cs[1..])
  }

  /** The last notice that was not silent, before index `j`, was an alert. */
  ghost predicate AlertPending(ns: seq<Notice>, j: int)
    requires 0 <= j <= |ns|
  {
    exists i :: 0 <= i < j && ns[i].Alert? && forall k :: i < k < j ==> !ns[k].Recovery?
  }

  lemma {:induction false} RecoveryNeedsOpen(b: Backend, a: Alarm, cs: seq<Check>, j: nat)
    requires j < |cs| && Notices(b, a, cs)[j].Recovery?
    ensures AlertPending(Notices(b, a, cs), j) ||
            (a.open && forall k :: 0 <= k < j ==> !Notices(b, a, cs)[k].Recovery?)
    decreases |cs|
  {
    var ns := Notices(b, a, cs);
    var (z, n) := Step(b, a, cs[0]);
    if j > 0 {
      RecoveryNeedsOpen(b, z, cs[1..], j - 1);
      var rest := Notices(b, z, cs[1..]);
      if AlertPending(rest, j - 1) {
        var i :| 0 <= i < j - 1 && rest[i].Alert? && forall k :: i < k < j - 1 ==> !rest[k].Recovery?;
        assert ns[i + 1].Alert?;
        assert forall k :: i + 1 < k < j ==> ns[k] == rest[k - 1];
      } else {
        assert forall k :: 0 < k < j ==> ns[k] == rest[k - 1];
        if n.Alert? {
          assert ns[0].Alert?;
        }
      }
    }
  }

  /** Silence is guaranteed from now until `until`. */
  ghost predicate QuietUntil(b: Backend, a: Alarm, now: Time, until: Time) {
    forall t :: now <= t < until ==> Muted(b, a, t)
  }

  lemma MuteLasts(b: Backend, a: Alarm, until: Time)
    requires a.mute.Some? && a.mute.value.ttl % MILLI == 0 && until <= a.mute.value.putAt + a.mute.value.ttl
    ensures QuietUntil(b, a, a.mute.value.putAt, until)
  {
    forall t | a.mute.value.putAt <= t < until
      ensures Muted(b, a, t)
    {
      NeverEarlyNorLate(b, a.mute.value, t);
    }
  }

  lemma {:induction false} NextAlertWaits(b: Backend, a: Alarm, cs: seq<Check>, now: Time, until: Time, j: nat)
    requires Orderly(cs, now) && QuietUntil(b, a, now, until) && until <= now + QUIET_AFTER_RECOVERY
    requires j < |cs| && Notices(b, a, cs)[j].Alert?
    ensures cs[j].at >= until
    decreases |cs|
  {
    var (z, n) := Step(b, a, cs[0]);
    if j > 0 && cs[0].at < until {
      if n.Recovery? {
        MuteLasts(b, z, until);
      }
      NextAlertWaits(b, z, cs[1..], cs[0].at, until, j - 1);
    } else if j > 0 {
      TimesGrow(cs[1..], cs[0].at, j - 1);
    }
  }

  lemma {:induction false} TimesGrow(cs: seq<Check>, now: Time, j: nat)
    requires Orderly(cs, now) && j < |cs|
    ensures now <= cs[j].at
    decreases |cs|
  {
    if j > 0 {
      TimesGrow(cs[1..], cs[0].at, j - 1);
    }
  }

  function Min(x: int, y: int): int { if x < y then x else y }

  lemma {:induction false} AlertsAreSpacedFrom(b: Backend, a: Alarm, cs: seq<Check>, now: Time, i: nat, j: nat)
    requires Orderly(cs, now) && i < j < |cs|
    requires Notices(b, a, cs)[i].Alert? && Notices(b, a, cs)[j].Alert?
    ensures cs[j].at - cs[i].at >= Min(cs[i].cooldownHours * HOUR, QUIET_AFTER_RECOVERY)
    decreases |cs|
  {
    var (z, n) := Step(b, a, cs[0]);
    if i > 0 {
      AlertsAreSpacedFrom(b, z, cs[1..], cs[0].at, i - 1, j - 1);
    } else {
      var until := cs[0].at + Min(cs[0].cooldownHours * HOUR, QUIET_AFTER_RECOVERY);
      HoursAreMillis(cs[0].cooldownHours);
      MuteLasts(b, z, until);
      NextAlertWaits(b, z, cs[1..], cs[0].at, until, j - 1);
    }
  }

  lemma HoursAreMillis(h: int)
    ensures h * HOUR % MILLI == 0
  {
    assert h * HOUR == (h * 3_600_000) * MILLI;
  }

  /** Over every run of checks of one peer, starting with nothing in the cache:
      each recovery answers an alert with no other recovery in between, and two
      alerts are at least the earlier one's cooldown, or six hours, apart.  (A
      cooldown of zero is an entry that never expires.) */
  lemma AlertsAndRecoveries(b: Backend, cs: seq<Check>, start: Time)
    requires Orderly(cs, start)
    ensures var ns := Notices(b, Alarm(None, false), cs);
      && (forall j :: 0 <= j < |cs| && ns[j].Recovery? ==> AlertPending(ns, j))
      && (forall i, j :: 0 <= i < j < |cs| && ns[i].Alert? && ns[j].Alert? ==>
            cs[j].at - cs[i].at >= Min(cs[i].cooldownHours * HOUR, QUIET_AFTER_RECOVERY))
  {
    var ns := Notices(b, Alarm(None, false), cs);
    forall j | 0 <= j < |cs| && ns[j].Recovery?
      ensures AlertPending(ns, j)
    {
      RecoveryNeedsOpen(b, Alarm(None, false), cs, j);
    }
    forall i, j | 0 <= i < j < |cs| && ns[i].Alert? && ns[j].Alert?
      ensures cs[j].at - cs[i].at >= Min(cs[i].cooldownHours * HOUR, QUIET_AFTER_RECOVERY)
    {
      AlertsAreSpacedFrom(b, Alarm(None, false), cs, start, i, j);
    }
  }

  // ----- When exactly is a notice sent? ------------------------------------------------------

  function AlarmAfter(b: Backend, a: Alarm, cs: seq<Check>): Alarm
    decreases |cs|
  {
    if cs == [] then a else AlarmAfter(b, Step(b, a, cs[0]).0, cs[1..])
  }

  lemma {:induction false} AlarmBefore(b: Backend, a: Alarm, cs: seq<Check>, n: nat)
    requires n < |cs|
    ensures var cur := AlarmAfter(b, a, cs[..n]);
      && AlarmAfter(b, a, cs[..n + 1]) == Step(b, cur, cs[n]).0
      && Notices(b, a, cs)[n] == Step(b, cur, cs[n]).1
    decreases |cs|
  {
    if n == 0 {
      assert cs[..1][1..] == [];
    } else {
      AlarmBefore(b, Step(b, a, cs[0]).0, cs[1..], n - 1);
      assert cs[..n + 1][1..] == cs[1..][..n] && cs[..n][1..] == cs[1..][..n - 1];
    }
  }

  /** Notice `i` is the last that was sent before check `j`. */
  predicate IsLastNotice(ns: seq<Notice>, j: int, i: int)
    requires 0 <= j <= |ns|
  {
    0 <= i < j && !ns[i].Silent? && forall k :: i < k < j ==> ns[k].Silent?
  }

  /** The mute entry a notice leaves: the cooldown after an alert, six hours after a
      recovery. */
  function MuteLeft(c: Check, n: Notice): Stored<bool> {
    Stored(true, c.at, if n.Alert? then c.cooldownHours * HOUR else 6 * HOUR)
  }

  /** What the cache holds after `n` checks, told by the notices sent. */
  ghost predicate Recounts(ns: seq<Notice>, cs: seq<Check>, n: nat, a: Alarm)
    requires n <= |cs| == |ns|
  {
    && (a.open <==> AlertPending(ns, n))
    && (a.mute.None? ==> forall i :: 0 <= i < n ==> ns[i].Silent?)
    && (a.mute.Some? ==> exists i :: IsLastNotice(ns, n, i) && a.mute.value == MuteLeft(cs[i], ns[i]))
  }

  lemma PendingAfter(ns: seq<Notice>, n: nat)
    requires n < |ns|
    ensures var next := n + 1;
      AlertPending(ns, next) <==> ns[n].Alert? || (!ns[n].Recovery? && AlertPending(ns, n))
  {
    var next := n + 1;
    if ns[n].Alert? {
      assert 0 <= n < next && ns[n].Alert?;
    } else if AlertPending(ns, n) && !ns[n].Recovery? {
      var i :| 0 <= i < n && ns[i].Alert? && forall k :: i < k < n ==> !ns[k].Recovery?;
      assert 0 <= i < next && ns[i].Alert? && forall k :: i < k < next ==> !ns[k].Recovery?;
    }
  }

  lemma StepRecounts(b: Backend, ns: seq<Notice>, cs: seq<Check>, n: nat, a: Alarm)
    requires n < |cs| == |ns| && Recounts(ns, cs, n, a) && ns[n] == Step(b, a, cs[n]).1
    ensures Recounts(ns, cs, n + 1, Step(b, a, cs[n]).0)
  {
    PendingAfter(ns, n);
    var next, z := n + 1, Step(b, a, cs[n]).0;
    if ns[n].Silent? {
      assert z == a;
      if a.mute.Some? {
        var i :| IsLastNotice(ns, n, i) && a.mute.value == MuteLeft(cs[i], ns[i]);
        assert IsLastNotice(ns, next, i);
      }
    } else {
      assert IsLastNotice(ns, next, n) && z.mute.value == MuteLeft(cs[n], ns[n]);
    }
  }

  lemma {:induction false} RunsRecount(b: Backend, cs: seq<Check>, n: nat)
    requires n <= |cs|
    ensures Recounts(Notices(b, Alarm(None, false), cs), cs, n, AlarmAfter(b, Alarm(None, false), cs[..n]))
  {
    if n == 0 {
      assert cs[..0] == [];
    } else {
      RunsRecount(b, cs, n - 1);
      AlarmBefore(b, Alarm(None, false), cs, n - 1);
      StepRecounts(b, Notices(b, Alarm(None, false), cs), cs, n - 1, AlarmAfter(b, Alarm(None, false), cs[..n - 1]));
    }
  }

  /** Over every run of checks of one peer, starting with nothing in the cache: an alert
      is sent exactly when a trigger fires and the mute entry of the last notice, if
      there was one, is no longer alive; a recovery exactly at a calm check without a
      trigger while recoveries are enabled and an alert is pending. */
  lemma NoticesAreExact(b: Backend, cs: seq<Check>, j: nat)
    requires j < |cs|
    ensures var ns := Notices(b, Alarm(None, false), cs);
      && (ns[j].Alert? <==>
            cs[j].trigger && forall i :: IsLastNotice(ns, j, i) ==> !Alive(b, MuteLeft(cs[i], ns[i]), cs[j].at))
      && (ns[j].Recovery? <==>
            !cs[j].trigger && cs[j].recoverEnabled && cs[j].calm && AlertPending(ns, j))
  {
    RunsRecount(b, cs, j);
    AlarmBefore(b, Alarm(None, false), cs, j);
  }

  // ----- What counts as a reading, and as abnormal ----------------------------------------------

  /** The round-trip times that count, in order. */
  function Usable(points: seq<Point>): seq<real> {
    if points == [] then []
    else
      var rest, p := Usable(points[..|points| - 1]), points[|points| - 1];
      if p.rtt.Some? && p.timed then rest + [p.rtt.value] else rest
  }

  /** A reading is abnormal if it exceeds the absolute threshold, or the multiple of the
      baseline, where a baseline below one millisecond counts as one. */
  lemma {:induction false} ReadingsAreExact(cfg: Settings, baseline: Option<real>, points: seq<Point>)
    ensures |Readings(cfg, baseline, points)| == |Usable(points)|
    ensures forall i :: 0 <= i < |Usable(points)| ==>
      var rtt := Usable(points)[i];
      (Readings(cfg, baseline, points)[i] <==>
         || rtt > cfg.threshold
         || (baseline.Some? && baseline.value > 1.0 && rtt > baseline.value * cfg.multiplier)
         || ((baseline.None? || baseline.value <= 1.0) && rtt > cfg.multiplier))
    decreases |points|
  {
    if points != [] {
      ReadingsAreExact(cfg, baseline, points[..|points| - 1]);
    }
  }
}
