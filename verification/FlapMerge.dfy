/**
  Merging the flap snapshots of all connected agents (mergedSnapshot).

  Statistics are summed per timestamp, peer rates per ASN, and of each prefix an
  entry with the largest count is kept.  Unsigned counters keep the widths of the
  source and wrap around; rates are exact reals.
 */
module FlapMerge {
  import opened Common

  const TWO64 := 0x1_0000_0000_0000_0000
  const TWO32 := 0x1_0000_0000

  type uint64 = x: int | 0 <= x < TWO64
  type uint32 = x: int | 0 <= x < TWO32

  datatype Stat = Stat(time: int, changes: uint64, listed: uint64, active: int, routes: uint32)
  datatype PeerRate = PeerRate(asn: uint32, rate: int, avg: real)
  datatype Flap = Flap(prefix: string, firstSeen: int, rate: int, total: uint64)
  datatype Metric = Metric(flaps: int, flapChanges: uint64, changes: uint64, average: real, sessions: int)

  datatype Snapshot = Snapshot(
    capabilities: string, metric: Metric, stats: seq<Stat>, flaps: seq<Flap>, peers: seq<PeerRate>,
    sessions: seq<string>, sessionCount: int, generatedAt: int)

  const EMPTY := Snapshot("", Metric(0, 0, 0, 0.0, 0), [], [], [], [], 0, 0)

  function Add64(a: uint64, b: uint64): uint64 { (a + b) % TWO64 }
  function Add32(a: uint32, b: uint32): uint32 { (a + b) % TWO32 }

  // ----- The columns ------------------------------------------------------------------

  function TimeOf(s: Stat): int { s.time }
  function ChangesOf(s: Stat): int { s.changes }
  function ListedOf(s: Stat): int { s.listed }
  function ActiveOf(s: Stat): int { s.active }
  function RoutesOf(s: Stat): int { s.routes }
  function AsnOf(p: PeerRate): int { p.asn }
  function RateOf(p: PeerRate): int { p.rate }
  function AvgOf(p: PeerRate): real { p.avg }
  function PrefixOf(f: Flap): string { f.prefix }
  function CountOf(f: Flap): real { f.total as real }
  function Earliness(s: Stat): real { -(s.time as real) }

  function StatsOf(s: Snapshot): seq<Stat> { s.stats }
  function PeersOf(s: Snapshot): seq<PeerRate> { s.peers }
  function FlapsOf(s: Snapshot): seq<Flap> { s.flaps }

  // ----- What the totals are ------------------------------------------------------------

  /** The sum of column `f` over the entries filed under key `k`. */
  function SumAt<T>(xs: seq<T>, key: T -> int, k: int, f: T -> int): int {
    if xs == [] then 0
    else SumAt(xs[..|xs| - 1], key, k, f) + if key(xs[|xs| - 1]) == k then f(xs[|xs| - 1]) else 0
  }

  function SumRealsAt<T>(xs: seq<T>, key: T -> int, k: int, f: T -> real): real {
    if xs == [] then 0.0
    else SumRealsAt(xs[..|xs| - 1], key, k, f) + if key(xs[|xs| - 1]) == k then f(xs[|xs| - 1]) else 0.0
  }

  function StatTotal(xs: seq<Stat>, t: int): Stat {
    Stat(t,
         SumAt(xs, TimeOf, t, ChangesOf) % TWO64,
         SumAt(xs, TimeOf, t, ListedOf) % TWO64,
         SumAt(xs, TimeOf, t, ActiveOf),
         SumAt(xs, TimeOf, t, RoutesOf) % TWO32)
  }

  function PeerTotal(xs: seq<PeerRate>, asn: uint32): PeerRate {
    PeerRate(asn, SumAt(xs, AsnOf, asn, RateOf), SumRealsAt(xs, AsnOf, asn, AvgOf))
  }

  /** `f` is an entry for its prefix that no entry for it exceeds. */
  ghost predicate IsPeak(xs: seq<Flap>, f: Flap) {
    f in xs && forall g :: g in xs && g.prefix == f.prefix ==> g.total <= f.total
  }

  ghost function KeysOf<T, K>(xs: seq<T>, key: T -> K): set<K> { set x | x in xs :: key(x) }

  ghost predicate TotalsByTime(m: map<int, Stat>, xs: seq<Stat>) {
    m.Keys == KeysOf(xs, TimeOf) && forall t :: t in m ==> m[t] == StatTotal(xs, t)
  }

  ghost predicate TotalsByAsn(m: map<uint32, PeerRate>, xs: seq<PeerRate>) {
    m.Keys == KeysOf(xs, AsnOf) && forall a :: a in m ==> m[a] == PeerTotal(xs, a)
  }

  ghost predicate PeaksByPrefix(m: map<string, Flap>, xs: seq<Flap>) {
    m.Keys == KeysOf(xs, PrefixOf) && forall p :: p in m ==> m[p].prefix == p && IsPeak(xs, m[p])
  }

  // ----- Sums grow by one entry ------------------------------------------------------------

  lemma SumAppend<T>(xs: seq<T>, x: T, key: T -> int, k: int, f: T -> int)
    ensures SumAt(xs + [x], key, k, f) == SumAt(xs, key, k, f) + if key(x) == k then f(x) else 0
  {
    assert (xs + [x])[..|xs|] == xs;
  }

  lemma SumRealsAppend<T>(xs: seq<T>, x: T, key: T -> int, k: int, f: T -> real)
    ensures SumRealsAt(xs + [x], key, k, f) == SumRealsAt(xs, key, k, f) + if key(x) == k then f(x) else 0.0
  {
    assert (xs + [x])[..|xs|] == xs;
  }

  lemma {:induction false} SumAbsent<T>(xs: seq<T>, key: T -> int, k: int, f: T -> int)
    requires k !in KeysOf(xs, key)
    ensures SumAt(xs, key, k, f) == 0
    decreases |xs|
  {
    if xs != [] {
      assert xs[|xs| - 1] in xs;
      SumAbsent(xs[..|xs| - 1], key, k, f);
    }
  }

  lemma {:induction false} SumRealsAbsent<T>(xs: seq<T>, key: T -> int, k: int, f: T -> real)
    requires k !in KeysOf(xs, key)
    ensures SumRealsAt(xs, key, k, f) == 0.0
    decreases |xs|
  {
    if xs != [] {
      assert xs[|xs| - 1] in xs;
      SumRealsAbsent(xs[..|xs| - 1], key, k, f);
    }
  }

  lemma KeysAppend<T, K>(xs: seq<T>, x: T, key: T -> K)
    ensures KeysOf(xs + [x], key) == KeysOf(xs, key) + {key(x)}
  {
  }

  /** What the branch for a known timestamp stores. */
  function Plus(a: Stat, b: Stat): Stat {
    Stat(a.time, Add64(a.changes, b.changes), Add64(a.listed, b.listed), a.active + b.active, Add32(a.routes, b.routes))
  }

  lemma Wrap64(a: int, b: uint64)
    ensures Add64(a % TWO64, b) == (a + b) % TWO64
  {
  }

  lemma Wrap32(a: int, b: uint32)
    ensures Add32(a % TWO32, b) == (a + b) % TWO32
  {
  }

  lemma StatTotalGrows(xs: seq<Stat>, s: Stat)
    ensures StatTotal(xs + [s], s.time) == Plus(StatTotal(xs, s.time), s)
  {
    var t := s.time;
    SumAppend(xs, s, TimeOf, t, ChangesOf);
    SumAppend(xs, s, TimeOf, t, ListedOf);
    SumAppend(xs, s, TimeOf, t, ActiveOf);
    SumAppend(xs, s, TimeOf, t, RoutesOf);
    Wrap64(SumAt(xs, TimeOf, t, ChangesOf), s.changes);
    Wrap64(SumAt(xs, TimeOf, t, ListedOf), s.listed);
    Wrap32(SumAt(xs, TimeOf, t, RoutesOf), s.routes);
  }

  lemma StatTotalAbsent(xs: seq<Stat>, t: int)
    requires t !in KeysOf(xs, TimeOf)
    ensures StatTotal(xs, t) == Stat(t, 0, 0, 0, 0)
  {
    SumAbsent(xs, TimeOf, t, ChangesOf);
    SumAbsent(xs, TimeOf, t, ListedOf);
    SumAbsent(xs, TimeOf, t, ActiveOf);
    SumAbsent(xs, TimeOf, t, RoutesOf);
  }

  lemma PlusNothing(s: Stat)
    ensures Plus(Stat(s.time, 0, 0, 0, 0), s) == s
  {
  }

  lemma StatTotalStays(xs: seq<Stat>, s: Stat, t: int)
    requires t != s.time
    ensures StatTotal(xs + [s], t) == StatTotal(xs, t)
  {
    SumAppend(xs, s, TimeOf, t, ChangesOf);
    SumAppend(xs, s, TimeOf, t, ListedOf);
    SumAppend(xs, s, TimeOf, t, ActiveOf);
    SumAppend(xs, s, TimeOf, t, RoutesOf);
  }

  lemma PeerTotalGrows(xs: seq<PeerRate>, p: PeerRate, a: uint32)
    ensures var t := PeerTotal(xs, a);
      PeerTotal(xs + [p], a) == if p.asn == a then PeerRate(a, t.rate + p.rate, t.avg + p.avg) else t
    ensures p.asn == a && a !in KeysOf(xs, AsnOf) ==> PeerTotal(xs + [p], a) == p
  {
    SumAppend(xs, p, AsnOf, a, RateOf);
    SumRealsAppend(xs, p, AsnOf, a, AvgOf);
    if a !in KeysOf(xs, AsnOf) {
      SumAbsent(xs, AsnOf, a, RateOf);
      SumRealsAbsent(xs, AsnOf, a, AvgOf);
    }
  }

  // ----- The three accumulating loops ----------------------------------------------------------

  method AddStats(m: map<int, Stat>, more: seq<Stat>, ghost seen: seq<Stat>) returns (r: map<int, Stat>)
    requires TotalsByTime(m, seen)
    ensures TotalsByTime(r, seen + more)
  {
    r := m;
    assert seen + more[..0] == seen;
    for i := 0 to |more|
      invariant TotalsByTime(r, seen + more[..i])
    {
      var s := more[i];
      ghost var xs := seen + more[..i];
      assert seen + more[..i + 1] == xs + [s];
      StatTotalGrows(xs, s);
      KeysAppend(xs, s, TimeOf);
      forall t | t != s.time ensures StatTotal(xs + [s], t) == StatTotal(xs, t) {
        StatTotalStays(xs, s, t);
      }
      if s.time !in r {
        StatTotalAbsent(xs, s.time);
        PlusNothing(s);
        r := r[s.time := s];
      } else {
        r := r[s.time := Plus(r[s.time], s)];
      }
    }
    assert more[..|more|] == more;
  }

  method AddPeers(m: map<uint32, PeerRate>, more: seq<PeerRate>, ghost seen: seq<PeerRate>)
    returns (r: map<uint32, PeerRate>)
    requires TotalsByAsn(m, seen)
    ensures TotalsByAsn(r, seen + more)
  {
    r := m;
    assert seen + more[..0] == seen;
    for i := 0 to |more|
      invariant TotalsByAsn(r, seen + more[..i])
    {
      var p := more[i];
      ghost var xs := seen + more[..i];
      assert seen + more[..i + 1] == xs + [p];
      KeysAppend(xs, p, AsnOf);
      forall a: uint32
        ensures var t := PeerTotal(xs, a);
          PeerTotal(xs + [p], a) == if p.asn == a then PeerRate(a, t.rate + p.rate, t.avg + p.avg) else t
        ensures p.asn == a && a !in KeysOf(xs, AsnOf) ==> PeerTotal(xs + [p], a) == p
      {
        PeerTotalGrows(xs, p, a);
      }
      if p.asn !in r {
        r := r[p.asn := p];
      } else {
        var cur := r[p.asn];
        r := r[p.asn := cur.(rate := cur.rate + p.rate, avg := cur.avg + p.avg)];
      }
    }
    assert more[..|more|] == more;
  }

  lemma PeakKept(xs: seq<Flap>, f: Flap, peak: Flap)
    requires IsPeak(xs, peak) && (f.prefix == peak.prefix ==> f.total <= peak.total)
    ensures IsPeak(xs + [f], peak)
  {
  }

  method AddFlaps(m: map<string, Flap>, more: seq<Flap>, ghost seen: seq<Flap>) returns (r: map<string, Flap>)
    requires PeaksByPrefix(m, seen)
    ensures PeaksByPrefix(r, seen + more)
  {
    r := m;
    assert seen + more[..0] == seen;
    for i := 0 to |more|
      invariant PeaksByPrefix(r, seen + more[..i])
    {
      var f := more[i];
      ghost var xs, was := seen + more[..i], r;
      assert seen + more[..i + 1] == xs + [f];
      KeysAppend(xs, f, PrefixOf);
      if f.prefix !in r || f.total > r[f.prefix].total {
        r := r[f.prefix := f];
      }
      forall p | p in r ensures r[p].prefix == p && IsPeak(xs + [f], r[p]) {
        if p != f.prefix || r == was {
          PeakKept(xs, f, r[p]);
        } else {
          forall g | g in xs && g.prefix == p ensures g.total <= f.total {
            assert PrefixOf(g) in was;
          }
        }
      }
    }
    assert more[..|more|] == more;
  }

  // ----- Listing and sorting a map ----------------------------------------------------------

  /** The values of a map in which no two keys share one, each exactly once. */
  method Listed<K, V(==)>(m: map<K, V>) returns (out: seq<V>)
    requires forall j, k :: j in m && k in m && m[j] == m[k] ==> j == k
    ensures multiset(out) == multiset(m.Values)
  {
    out := [];
    var todo := m.Keys;
    ghost var done: set<V> := {};
    while todo != {}
      invariant todo <= m.Keys
      invariant done == set k | k in m && k !in todo :: m[k]
      invariant multiset(out) == multiset(done)
      decreases todo
    {
      var k :| k in todo;
      assert m[k] !in done;
      out := out + [m[k]];
      done := done + {m[k]};
      todo := todo - {k};
    }
    assert done == m.Values;
  }

  predicate Descending<T>(xs: seq<T>, key: T -> real) {
    forall i, j :: 0 <= i < j < |xs| ==> key(xs[i]) >= key(xs[j])
  }

  method InsertDescending<T>(xs: seq<T>, x: T, key: T -> real) returns (out: seq<T>)
    requires Descending(xs, key)
    ensures Descending(out, key) && multiset(out) == multiset(xs) + multiset{x}
  {
    var k := 0;
    while k < |xs| && key(xs[k]) >= key(x)
      invariant 0 <= k <= |xs|
      invariant forall j :: 0 <= j < k ==> key(xs[j]) >= key(x)
    {
      k := k + 1;
    }
    out := xs[..k] + [x] + xs[k..];
    InsertedDescending(xs, k, x, key);
    InsertedMultiset(xs, k, x);
  }

  lemma InsertedDescending<T>(xs: seq<T>, k: nat, x: T, key: T -> real)
    requires Descending(xs, key) && k <= |xs|
    requires forall j :: 0 <= j < k ==> key(xs[j]) >= key(x)
    requires k < |xs| ==> key(xs[k]) < key(x)
    ensures Descending(xs[..k] + [x] + xs[k..], key)
  {
    var out := xs[..k] + [x] + xs[k..];
    forall i, j | 0 <= i < j < |out|
      ensures key(out[i]) >= key(out[j])
    {
      var a := if i < k then i else i - 1;
      var b := if j < k then j else j - 1;
      assert i != k ==> out[i] == xs[a];
      assert j != k ==> out[j] == xs[b];
      assert j > k && k < b ==> key(xs[k]) >= key(xs[b]);
    }
  }

  lemma InsertedMultiset<T>(xs: seq<T>, k: nat, x: T)
    requires k <= |xs|
    ensures multiset(xs[..k] + [x] + xs[k..]) == multiset(xs) + multiset{x}
  {
    assert xs == xs[..k] + xs[k..];
  }

  /** sort.Slice by descending key; equal keys may come in any order. */
  method SortDescending<T>(xs: seq<T>, key: T -> real) returns (out: seq<T>)
    ensures Descending(out, key) && multiset(out) == multiset(xs)
  {
    out := [];
    for i := 0 to |xs|
      invariant Descending(out, key) && multiset(out) == multiset(xs[..i])
    {
      assert xs[..i + 1] == xs[..i] + [xs[i]];
      out := InsertDescending(out, xs[i], key);
    }
    assert xs[..|xs|] == xs;
  }

  /** One entry per key of the input: none missing, none extra, none twice. */
  ghost predicate OnePer<T, K>(out: seq<T>, keys: set<K>, key: T -> K) {
    && (forall i :: 0 <= i < |out| ==> key(out[i]) in keys)
    && (forall k :: k in keys ==> exists i :: 0 <= i < |out| && key(out[i]) == k)
    && (forall i, j :: 0 <= i < j < |out| ==> key(out[i]) != key(out[j]))
  }

  lemma OnceApart<T>(xs: seq<T>, i: nat, j: nat)
    requires i < j < |xs| && multiset(xs)[xs[i]] <= 1
    ensures xs[i] != xs[j]
  {
    assert xs == xs[..j] + xs[j..];
    assert xs[..j][i] in xs[..j] && xs[j..][0] in xs[j..];
  }

  /** Every value of a map filed under its own key is listed once. */
  lemma ListedOnePer<T, K>(out: seq<T>, m: map<K, T>, key: T -> K)
    requires multiset(out) == multiset(m.Values) && forall k :: k in m ==> key(m[k]) == k
    ensures OnePer(out, m.Keys, key)
    ensures forall i :: 0 <= i < |out| ==> key(out[i]) in m && out[i] == m[key(out[i])]
  {
    forall i | 0 <= i < |out|
      ensures key(out[i]) in m && out[i] == m[key(out[i])]
    {
      assert out[i] in multiset(out);
      assert out[i] in m.Values;
    }
    forall k | k in m
      ensures exists i :: 0 <= i < |out| && key(out[i]) == k
    {
      assert m[k] in m.Values;
      assert m[k] in multiset(out);
      assert m[k] in out;
    }
    forall i, j | 0 <= i < j < |out|
      ensures key(out[i]) != key(out[j])
    {
      assert multiset(m.Values)[out[i]] <= 1;
      OnceApart(out, i, j);
    }
  }

  // ----- The merge ----------------------------------------------------------------------------

  ghost predicate MergesStats(out: seq<Stat>, xs: seq<Stat>) {
    && OnePer(out, KeysOf(xs, TimeOf), TimeOf)
    && (forall i :: 0 <= i < |out| ==> out[i] == StatTotal(xs, out[i].time))
    && (forall i, j :: 0 <= i < j < |out| ==> out[i].time < out[j].time)
  }

  ghost predicate MergesPeers(out: seq<PeerRate>, xs: seq<PeerRate>) {
    && OnePer(out, KeysOf(xs, AsnOf), AsnOf)
    && (forall i :: 0 <= i < |out| ==> out[i] == PeerTotal(xs, out[i].asn))
    && (forall i, j :: 0 <= i < j < |out| ==> out[i].avg >= out[j].avg)
  }

  ghost predicate MergesFlaps(out: seq<Flap>, xs: seq<Flap>) {
    && OnePer(out, KeysOf(xs, PrefixOf), PrefixOf)
    && (forall i :: 0 <= i < |out| ==> IsPeak(xs, out[i]))
    && (forall i, j :: 0 <= i < j < |out| ==> out[i].total >= out[j].total)
  }

  method ListStats(m: map<int, Stat>, ghost xs: seq<Stat>) returns (out: seq<Stat>)
    requires TotalsByTime(m, xs)
    ensures MergesStats(out, xs)
  {
    out := Listed(m);
    out := SortDescending(out, Earliness);
    ListedOnePer(out, m, TimeOf);
    forall i, j | 0 <= i < j < |out| ensures out[i].time < out[j].time {
      assert Earliness(out[i]) >= Earliness(out[j]);
      assert TimeOf(out[i]) != TimeOf(out[j]);
    }
  }

  method ListPeers(m: map<uint32, PeerRate>, ghost xs: seq<PeerRate>) returns (out: seq<PeerRate>)
    requires TotalsByAsn(m, xs)
    ensures MergesPeers(out, xs)
  {
    out := Listed(m);
    out := SortDescending(out, AvgOf);
    ListedOnePer(out, m, AsnOf);
    forall i, j | 0 <= i < j < |out| ensures out[i].avg >= out[j].avg {
      assert AvgOf(out[i]) >= AvgOf(out[j]);
    }
  }

  method ListFlaps(m: map<string, Flap>, ghost xs: seq<Flap>) returns (out: seq<Flap>)
    requires PeaksByPrefix(m, xs)
    ensures MergesFlaps(out, xs)
  {
    out := Listed(m);
    out := SortDescending(out, CountOf);
    ListedOnePer(out, m, PrefixOf);
    forall i, j | 0 <= i < j < |out| ensures out[i].total >= out[j].total {
      assert CountOf(out[i]) >= CountOf(out[j]);
    }
  }

  /** The snapshots of the agents that answered. */
  function Heard(answers: seq<Option<Snapshot>>): seq<Snapshot> {
    if answers == [] then []
    else
      var last := answers[|answers| - 1];
      Heard(answers[..|answers| - 1]) + if last.Some? then [last.value] else []
  }

  /** The concatenation of one list of every snapshot. */
  function Gather<T>(snaps: seq<Snapshot>, part: Snapshot -> seq<T>): seq<T> {
    if snaps == [] then [] else Gather(snaps[..|snaps| - 1], part) + part(snaps[|snaps| - 1])
  }

  function Anyone(s: Snapshot): int { 0 }
  function SessionsOf(s: Snapshot): seq<string> { s.sessions }
  function SessionCountOf(s: Snapshot): int { s.sessionCount }
  function MetricFlaps(s: Snapshot): int { s.metric.flaps }
  function MetricFlapChanges(s: Snapshot): int { s.metric.flapChanges }
  function MetricChanges(s: Snapshot): int { s.metric.changes }
  function MetricAverage(s: Snapshot): real { s.metric.average }
  function MetricSessions(s: Snapshot): int { s.metric.sessions }

  function MetricTotal(snaps: seq<Snapshot>): Metric {
    Metric(SumAt(snaps, Anyone, 0, MetricFlaps),
           SumAt(snaps, Anyone, 0, MetricFlapChanges) % TWO64,
           SumAt(snaps, Anyone, 0, MetricChanges) % TWO64,
           SumRealsAt(snaps, Anyone, 0, MetricAverage),
           SumAt(snaps, Anyone, 0, MetricSessions))
  }

  function MetricPlus(a: Metric, b: Metric): Metric {
    Metric(a.flaps + b.flaps, Add64(a.flapChanges, b.flapChanges), Add64(a.changes, b.changes),
           a.average + b.average, a.sessions + b.sessions)
  }

  lemma MetricTotalGrows(snaps: seq<Snapshot>, s: Snapshot)
    ensures MetricTotal(snaps + [s]) == MetricPlus(MetricTotal(snaps), s.metric)
  {
    SumAppend(snaps, s, Anyone, 0, MetricFlaps);
    SumAppend(snaps, s, Anyone, 0, MetricFlapChanges);
    SumAppend(snaps, s, Anyone, 0, MetricChanges);
    SumRealsAppend(snaps, s, Anyone, 0, MetricAverage);
    SumAppend(snaps, s, Anyone, 0, MetricSessions);
    Wrap64(SumAt(snaps, Anyone, 0, MetricFlapChanges), s.metric.flapChanges);
    Wrap64(SumAt(snaps, Anyone, 0, MetricChanges), s.metric.changes);
  }

  lemma GatherAppend<T>(snaps: seq<Snapshot>, s: Snapshot, part: Snapshot -> seq<T>)
    ensures Gather(snaps + [s], part) == Gather(snaps, part) + part(s)
  {
    assert (snaps + [s])[..|snaps|] == snaps;
  }

  /** The latest time any agent reports, and no less than zero. */
  ghost predicate IsLatest(t: int, snaps: seq<Snapshot>) {
    && t >= 0
    && (forall s :: s in snaps ==> s.generatedAt <= t)
    && (t == 0 || exists s :: s in snaps && s.generatedAt == t)
  }

  lemma LatestGrows(t: int, snaps: seq<Snapshot>, s: Snapshot)
    requires IsLatest(t, snaps)
    ensures IsLatest(if s.generatedAt > t then s.generatedAt else t, snaps + [s])
  {
    assert s in snaps + [s];
    if t != 0 {
      var w :| w in snaps && w.generatedAt == t;
      assert w in snaps + [s];
    }
  }

  /** The headline fields of a merged snapshot. */
  ghost predicate Headline(out: Snapshot, snaps: seq<Snapshot>) {
    && out.capabilities == (if snaps == [] then EMPTY.capabilities else snaps[0].capabilities)
    && out.metric == MetricTotal(snaps)
    && out.sessionCount == SumAt(snaps, Anyone, 0, SessionCountOf)
    && out.sessions == Gather(snaps, SessionsOf)
    && IsLatest(out.generatedAt, snaps)
  }

  /** One answering agent's headline fields are added. */
  method AddHeadline(base: Snapshot, s: Snapshot, first: bool, ghost snaps: seq<Snapshot>) returns (out: Snapshot)
    requires Headline(base, snaps) && first == (snaps == [])
    ensures Headline(out, snaps + [s])
  {
    out := base.(metric := MetricPlus(base.metric, s.metric),
                 capabilities := if first then s.capabilities else base.capabilities,
                 sessionCount := base.sessionCount + s.sessionCount,
                 sessions := base.sessions + s.sessions,
                 generatedAt := if s.generatedAt > base.generatedAt then s.generatedAt else base.generatedAt);
    MetricTotalGrows(snaps, s);
    SumAppend(snaps, s, Anyone, 0, SessionCountOf);
    GatherAppend(snaps, s, SessionsOf);
    LatestGrows(base.generatedAt, snaps, s);
  }

  /** What mergedSnapshot promises about the agents that answered. */
  ghost predicate Merges(out: Snapshot, snaps: seq<Snapshot>) {
    && Headline(out, snaps)
    && MergesStats(out.stats, Gather(snaps, StatsOf))
    && MergesPeers(out.peers, Gather(snaps, PeersOf))
    && MergesFlaps(out.flaps, Gather(snaps, FlapsOf))
  }

  /** The state of the outer loop after the agents in `heard`. */
  ghost predicate Accumulated(out: Snapshot, byTime: map<int, Stat>, byAsn: map<uint32, PeerRate>,
                              byPrefix: map<string, Flap>, heard: seq<Snapshot>)
  {
    && Headline(out, heard)
    && TotalsByTime(byTime, Gather(heard, StatsOf))
    && TotalsByAsn(byAsn, Gather(heard, PeersOf))
    && PeaksByPrefix(byPrefix, Gather(heard, FlapsOf))
  }

  /** The body of the outer loop, for an agent that answered. */
  method AddSnapshot(out: Snapshot, byTime: map<int, Stat>, byAsn: map<uint32, PeerRate>,
                     byPrefix: map<string, Flap>, snap: Snapshot, first: bool, ghost heard: seq<Snapshot>)
    returns (out': Snapshot, byTime': map<int, Stat>, byAsn': map<uint32, PeerRate>, byPrefix': map<string, Flap>)
    requires Accumulated(out, byTime, byAsn, byPrefix, heard) && first == (heard == [])
    ensures Accumulated(out', byTime', byAsn', byPrefix', heard + [snap])
  {
    out' := AddHeadline(out, snap, first, heard);
    byPrefix' := AddFlaps(byPrefix, snap.flaps, Gather(heard, FlapsOf));
    byAsn' := AddPeers(byAsn, snap.peers, Gather(heard, PeersOf));
    byTime' := AddStats(byTime, snap.stats, Gather(heard, StatsOf));
    GatherAppend(heard, snap, FlapsOf);
    GatherAppend(heard, snap, PeersOf);
    GatherAppend(heard, snap, StatsOf);
  }

  method MergedSnapshot(answers: seq<Option<Snapshot>>) returns (out: Snapshot)
    ensures Merges(out, Heard(answers))
  {
    out := EMPTY;
    var byPrefix: map<string, Flap> := map[];
    var byAsn: map<uint32, PeerRate> := map[];
    var byTime: map<int, Stat> := map[];
    var first := true;
    ghost var heard: seq<Snapshot> := [];
    for i := 0 to |answers|
      invariant heard == Heard(answers[..i]) && first == (heard == [])
      invariant Accumulated(out, byTime, byAsn, byPrefix, heard)
    {
      assert answers[..i + 1][..i] == answers[..i];
      if answers[i].Some? {
        var snap := answers[i].value;
        out, byTime, byAsn, byPrefix := AddSnapshot(out, byTime, byAsn, byPrefix, snap, first, heard);
        heard := heard + [snap];
        first := false;
      }
    }
    assert answers[..|answers|] == answers;
    var flaps := ListFlaps(byPrefix, Gather(heard, FlapsOf));
    var peers := ListPeers(byAsn, Gather(heard, PeersOf));
    var stats := ListStats(byTime, Gather(heard, StatsOf));
    out := out.(flaps := flaps, peers := peers, stats := stats);
  }

  // ----- The order of the agents does not matter ----------------------------------------------

  function Without<T>(xs: seq<T>, i: nat): seq<T>
    requires i < |xs|
  {
    xs[..i] + xs[i + 1..]
  }

  lemma WithoutMultiset<T>(xs: seq<T>, i: nat)
    requires i < |xs|
    ensures multiset(xs) == multiset(Without(xs, i)) + multiset{xs[i]}
  {
    assert xs == xs[..i] + [xs[i]] + xs[i + 1..];
  }

  lemma WithoutLast<T>(xs: seq<T>, i: nat)
    requires i < |xs| - 1
    ensures Without(xs, i) == Without(xs[..|xs| - 1], i) + [xs[|xs| - 1]]
    ensures xs[..|xs| - 1][i] == xs[i]
  {
  }

  lemma {:induction false} SumWithout<T>(xs: seq<T>, i: nat, key: T -> int, k: int, f: T -> int)
    requires i < |xs|
    ensures SumAt(xs, key, k, f) == SumAt(Without(xs, i), key, k, f) + if key(xs[i]) == k then f(xs[i]) else 0
    decreases |xs|
  {
    var n := |xs| - 1;
    if i == n {
      assert Without(xs, i) == xs[..n];
    } else {
      SumWithout(xs[..n], i, key, k, f);
      WithoutLast(xs, i);
      SumAppend(Without(xs[..n], i), xs[n], key, k, f);
    }
  }

  lemma {:induction false} SumRealsWithout<T>(xs: seq<T>, i: nat, key: T -> int, k: int, f: T -> real)
    requires i < |xs|
    ensures SumRealsAt(xs, key, k, f)
         == SumRealsAt(Without(xs, i), key, k, f) + if key(xs[i]) == k then f(xs[i]) else 0.0
    decreases |xs|
  {
    var n := |xs| - 1;
    if i == n {
      assert Without(xs, i) == xs[..n];
    } else {
      SumRealsWithout(xs[..n], i, key, k, f);
      WithoutLast(xs, i);
      SumRealsAppend(Without(xs[..n], i), xs[n], key, k, f);
    }
  }

  /** Where the last element of one list stands in a permutation of it. */
  lemma LastInPermutation<T>(xs: seq<T>, ys: seq<T>) returns (i: nat)
    requires xs != [] && multiset(xs) == multiset(ys)
    ensures i < |ys| && ys[i] == xs[|xs| - 1]
    ensures multiset(xs[..|xs| - 1]) == multiset(Without(ys, i))
  {
    var n := |xs| - 1;
    assert xs[n] in multiset(ys);
    i :| 0 <= i < |ys| && ys[i] == xs[n];
    WithoutMultiset(ys, i);
    assert xs == xs[..n] + [xs[n]];
    assert multiset(xs[..n]) == multiset(xs) - multiset{xs[n]};
    assert multiset(Without(ys, i)) == multiset(ys) - multiset{xs[n]};
  }

  lemma {:induction false} SumPermuted<T>(xs: seq<T>, ys: seq<T>, key: T -> int, k: int, f: T -> int)
    requires multiset(xs) == multiset(ys)
    ensures SumAt(xs, key, k, f) == SumAt(ys, key, k, f)
    decreases |xs|
  {
    if xs == [] {
      assert |multiset(ys)| == 0;
    } else {
      var i := LastInPermutation(xs, ys);
      SumPermuted(xs[..|xs| - 1], Without(ys, i), key, k, f);
      SumWithout(ys, i, key, k, f);
    }
  }

  lemma {:induction false} SumRealsPermuted<T>(xs: seq<T>, ys: seq<T>, key: T -> int, k: int, f: T -> real)
    requires multiset(xs) == multiset(ys)
    ensures SumRealsAt(xs, key, k, f) == SumRealsAt(ys, key, k, f)
    decreases |xs|
  {
    if xs == [] {
      assert |multiset(ys)| == 0;
    } else {
      var i := LastInPermutation(xs, ys);
      SumRealsPermuted(xs[..|xs| - 1], Without(ys, i), key, k, f);
      SumRealsWithout(ys, i, key, k, f);
    }
  }

  /** The entries of all snapshots, without their order. */
  ghost function Bag<T>(snaps: seq<Snapshot>, part: Snapshot -> seq<T>): multiset<T> {
    if snaps == [] then multiset{} else Bag(snaps[..|snaps| - 1], part) + multiset(part(snaps[|snaps| - 1]))
  }

  lemma {:induction false} GatherBag<T>(snaps: seq<Snapshot>, part: Snapshot -> seq<T>)
    ensures multiset(Gather(snaps, part)) == Bag(snaps, part)
    decreases |snaps|
  {
    if snaps != [] {
      GatherBag(snaps[..|snaps| - 1], part);
    }
  }

  lemma BagAppend<T>(snaps: seq<Snapshot>, s: Snapshot, part: Snapshot -> seq<T>)
    ensures Bag(snaps + [s], part) == Bag(snaps, part) + multiset(part(s))
  {
    assert (snaps + [s])[..|snaps|] == snaps;
  }

  lemma {:induction false} BagWithout<T>(snaps: seq<Snapshot>, i: nat, part: Snapshot -> seq<T>)
    requires i < |snaps|
    ensures Bag(snaps, part) == Bag(Without(snaps, i), part) + multiset(part(snaps[i]))
    decreases |snaps|
  {
    var n := |snaps| - 1;
    if i == n {
      assert Without(snaps, i) == snaps[..n];
    } else {
      BagWithout(snaps[..n], i, part);
      WithoutLast(snaps, i);
      BagAppend(Without(snaps[..n], i), snaps[n], part);
    }
  }

  lemma {:induction false} BagPermuted<T>(xs: seq<Snapshot>, ys: seq<Snapshot>, part: Snapshot -> seq<T>)
    requires multiset(xs) == multiset(ys)
    ensures Bag(xs, part) == Bag(ys, part)
    decreases |xs|
  {
    if xs == [] {
      assert |multiset(ys)| == 0;
    } else {
      var i := LastInPermutation(xs, ys);
      BagPermuted(xs[..|xs| - 1], Without(ys, i), part);
      BagWithout(ys, i, part);
    }
  }

  lemma GatherPermuted<T>(xs: seq<Snapshot>, ys: seq<Snapshot>, part: Snapshot -> seq<T>)
    requires multiset(xs) == multiset(ys)
    ensures multiset(Gather(xs, part)) == multiset(Gather(ys, part))
  {
    GatherBag(xs, part);
    GatherBag(ys, part);
    BagPermuted(xs, ys, part);
  }

  lemma StatTotalPermuted(xs: seq<Stat>, ys: seq<Stat>, t: int)
    requires multiset(xs) == multiset(ys)
    ensures StatTotal(xs, t) == StatTotal(ys, t)
  {
    SumPermuted(xs, ys, TimeOf, t, ChangesOf);
    SumPermuted(xs, ys, TimeOf, t, ListedOf);
    SumPermuted(xs, ys, TimeOf, t, ActiveOf);
    SumPermuted(xs, ys, TimeOf, t, RoutesOf);
  }

  lemma PeerTotalPermuted(xs: seq<PeerRate>, ys: seq<PeerRate>, a: uint32)
    requires multiset(xs) == multiset(ys)
    ensures PeerTotal(xs, a) == PeerTotal(ys, a)
  {
    SumPermuted(xs, ys, AsnOf, a, RateOf);
    SumRealsPermuted(xs, ys, AsnOf, a, AvgOf);
  }

  lemma MetricTotalPermuted(xs: seq<Snapshot>, ys: seq<Snapshot>)
    requires multiset(xs) == multiset(ys)
    ensures MetricTotal(xs) == MetricTotal(ys)
  {
    SumPermuted(xs, ys, Anyone, 0, MetricFlaps);
    SumPermuted(xs, ys, Anyone, 0, MetricFlapChanges);
    SumPermuted(xs, ys, Anyone, 0, MetricChanges);
    SumRealsPermuted(xs, ys, Anyone, 0, MetricAverage);
    SumPermuted(xs, ys, Anyone, 0, MetricSessions);
  }

  lemma SameMembers<T>(xs: seq<T>, ys: seq<T>)
    requires multiset(xs) == multiset(ys)
    ensures forall x :: x in xs <==> x in ys
  {
    forall x ensures x in xs <==> x in ys {
      assert x in xs <==> x in multiset(xs);
      assert x in ys <==> x in multiset(ys);
    }
  }

  lemma SameKeys<T, K>(xs: seq<T>, ys: seq<T>, key: T -> K)
    requires multiset(xs) == multiset(ys)
    ensures KeysOf(xs, key) == KeysOf(ys, key)
  {
    SameMembers(xs, ys);
  }

  /** A strictly increasing list is determined by its members: the first is the least. */
  lemma {:induction false} IncreasingUnique(a: seq<Stat>, b: seq<Stat>)
    requires forall i, j :: 0 <= i < j < |a| ==> a[i].time < a[j].time
    requires forall i, j :: 0 <= i < j < |b| ==> b[i].time < b[j].time
    requires forall x :: x in a <==> x in b
    ensures a == b
    decreases |a|
  {
    assert a != [] ==> a[0] in b;
    assert b != [] ==> b[0] in a;
    if a != [] {
      assert a[0] == b[0];
      assert a == [a[0]] + a[1..] && b == [b[0]] + b[1..];
      assert forall x :: x in a[1..] <==> x in a && x != a[0];
      assert forall x :: x in b[1..] <==> x in b && x != b[0];
      IncreasingUnique(a[1..], b[1..]);
    }
  }

  lemma StatsDetermined(a: seq<Stat>, b: seq<Stat>, xs: seq<Stat>, ys: seq<Stat>)
    requires MergesStats(a, xs) && MergesStats(b, ys) && multiset(xs) == multiset(ys)
    ensures forall x :: x in a ==> x in b
  {
    SameKeys(xs, ys, TimeOf);
    forall x | x in a ensures x in b {
      var i :| 0 <= i < |a| && a[i] == x;
      assert TimeOf(a[i]) in KeysOf(ys, TimeOf);
      var j :| 0 <= j < |b| && TimeOf(b[j]) == x.time;
      StatTotalPermuted(xs, ys, x.time);
    }
  }

  lemma PeersDetermined(a: seq<PeerRate>, b: seq<PeerRate>, xs: seq<PeerRate>, ys: seq<PeerRate>)
    requires MergesPeers(a, xs) && MergesPeers(b, ys) && multiset(xs) == multiset(ys)
    ensures forall x :: x in a ==> x in b
  {
    SameKeys(xs, ys, AsnOf);
    forall x | x in a ensures x in b {
      var i :| 0 <= i < |a| && a[i] == x;
      assert AsnOf(a[i]) in KeysOf(ys, AsnOf);
      var j :| 0 <= j < |b| && AsnOf(b[j]) == x.asn;
      PeerTotalPermuted(xs, ys, x.asn);
    }
  }

  /** `f` has a counterpart in `b` for the same prefix with the same count. */
  ghost predicate Matched(f: Flap, b: seq<Flap>) {
    exists g :: g in b && g.prefix == f.prefix && g.total == f.total
  }

  lemma FlapsDetermined(a: seq<Flap>, b: seq<Flap>, xs: seq<Flap>, ys: seq<Flap>)
    requires MergesFlaps(a, xs) && MergesFlaps(b, ys) && multiset(xs) == multiset(ys)
    ensures forall x :: x in a ==> Matched(x, b)
  {
    SameKeys(xs, ys, PrefixOf);
    SameMembers(xs, ys);
    forall x | x in a ensures Matched(x, b) {
      var i :| 0 <= i < |a| && a[i] == x;
      assert PrefixOf(a[i]) in KeysOf(ys, PrefixOf);
      var j :| 0 <= j < |b| && PrefixOf(b[j]) == x.prefix;
      assert IsPeak(xs, a[i]) && IsPeak(ys, b[j]);
      assert b[j] in b;
    }
  }

  lemma LatestUnique(t: int, u: int, xs: seq<Snapshot>, ys: seq<Snapshot>)
    requires IsLatest(t, xs) && IsLatest(u, ys) && multiset(xs) == multiset(ys)
    ensures t == u
  {
    SameMembers(xs, ys);
  }

  /** Two merges of the same answers, the agents taken in different orders, agree
      on the time series, on the metric and the times, on which rates are listed,
      and on every prefix and its peak count. */
  lemma MergeIsOrderFree(a: Snapshot, b: Snapshot, xs: seq<Snapshot>, ys: seq<Snapshot>)
    requires Merges(a, xs) && Merges(b, ys) && multiset(xs) == multiset(ys)
    ensures a.stats == b.stats
    ensures a.metric == b.metric && a.sessionCount == b.sessionCount && a.generatedAt == b.generatedAt
    ensures multiset(a.sessions) == multiset(b.sessions)
    ensures forall p :: p in a.peers <==> p in b.peers
    ensures forall f :: f in a.flaps ==> Matched(f, b.flaps)
    ensures forall f :: f in b.flaps ==> Matched(f, a.flaps)
  {
    GatherPermuted(xs, ys, StatsOf);
    GatherPermuted(xs, ys, PeersOf);
    GatherPermuted(xs, ys, FlapsOf);
    GatherPermuted(xs, ys, SessionsOf);
    StatsDetermined(a.stats, b.stats, Gather(xs, StatsOf), Gather(ys, StatsOf));
    StatsDetermined(b.stats, a.stats, Gather(ys, StatsOf), Gather(xs, StatsOf));
    IncreasingUnique(a.stats, b.stats);
    PeersDetermined(a.peers, b.peers, Gather(xs, PeersOf), Gather(ys, PeersOf));
    PeersDetermined(b.peers, a.peers, Gather(ys, PeersOf), Gather(xs, PeersOf));
    FlapsDetermined(a.flaps, b.flaps, Gather(xs, FlapsOf), Gather(ys, FlapsOf));
    FlapsDetermined(b.flaps, a.flaps, Gather(ys, FlapsOf), Gather(xs, FlapsOf));
    MetricTotalPermuted(xs, ys);
    SumPermuted(xs, ys, Anyone, 0, SessionCountOf);
    LatestUnique(a.generatedAt, b.generatedAt, xs, ys);
  }

  /** With one agent answering, its own figures come back: the metric, the counts, the
      sessions and the capabilities, and a statistic, rate or prefix that is the only
      one of its kind. */
  lemma OneAgentIsItself(out: Snapshot, s: Snapshot)
    requires Merges(out, [s])
    ensures out.metric == s.metric && out.sessionCount == s.sessionCount && out.sessions == s.sessions
    ensures out.capabilities == s.capabilities
    ensures out.generatedAt == if s.generatedAt > 0 then s.generatedAt else 0
    ensures forall x :: s.stats == [x] ==> out.stats == [x]
    ensures forall x :: s.peers == [x] ==> out.peers == [x]
    ensures forall x :: s.flaps == [x] ==> out.flaps == [x]
  {
    HeadlineOfOne(out, s);
    ListsOfOne(out, s);
  }

  lemma ListsOfOne(out: Snapshot, s: Snapshot)
    requires MergesStats(out.stats, Gather([s], StatsOf)) && MergesPeers(out.peers, Gather([s], PeersOf))
    requires MergesFlaps(out.flaps, Gather([s], FlapsOf))
    ensures forall x :: s.stats == [x] ==> out.stats == [x]
    ensures forall x :: s.peers == [x] ==> out.peers == [x]
    ensures forall x :: s.flaps == [x] ==> out.flaps == [x]
  {
    GatherOne(s, StatsOf);
    GatherOne(s, PeersOf);
    GatherOne(s, FlapsOf);
    forall x | s.stats == [x] ensures out.stats == [x] { OneStat(out.stats, x); }
    forall x | s.peers == [x] ensures out.peers == [x] { OnePeer(out.peers, x); }
    forall x | s.flaps == [x] ensures out.flaps == [x] { OneFlap(out.flaps, x); }
  }

  lemma GatherOne<T>(s: Snapshot, part: Snapshot -> seq<T>)
    ensures Gather([s], part) == part(s)
  {
    var none: seq<Snapshot> := [];
    assert none + [s] == [s];
    GatherAppend(none, s, part);
    assert Gather(none, part) + part(s) == part(s);
  }

  lemma HeadlineOfOne(out: Snapshot, s: Snapshot)
    requires Headline(out, [s])
    ensures out.metric == s.metric && out.sessionCount == s.sessionCount && out.sessions == s.sessions
    ensures out.capabilities == s.capabilities
    ensures out.generatedAt == if s.generatedAt > 0 then s.generatedAt else 0
  {
    var none: seq<Snapshot> := [];
    assert none + [s] == [s];
    MetricTotalGrows(none, s);
    MetricOfNone(s.metric);
    SumAppend(none, s, Anyone, 0, SessionCountOf);
    GatherOne(s, SessionsOf);
    assert s in [s];
  }

  lemma MetricOfNone(m: Metric)
    ensures MetricPlus(MetricTotal([]), m) == m
  {
  }

  lemma OneListed<T, K>(out: seq<T>, x: T, key: T -> K)
    requires OnePer(out, KeysOf([x], key), key)
    ensures |out| == 1 && key(out[0]) == key(x)
  {
    assert x in [x];
    assert key(x) in KeysOf([x], key);
    assert forall i :: 0 <= i < |out| ==> key(out[i]) == key(x);
    FirstTwoDiffer(out, key);
  }

  lemma FirstTwoDiffer<T, K>(out: seq<T>, key: T -> K)
    requires forall i, j :: 0 <= i < j < |out| ==> key(out[i]) != key(out[j])
    ensures |out| >= 2 ==> key(out[0]) != key(out[1])
  {
  }

  lemma OneStat(out: seq<Stat>, x: Stat)
    requires MergesStats(out, [x])
    ensures out == [x]
  {
    OneListed(out, x, TimeOf);
    assert [] + [x] == [x];
    StatTotalGrows([], x);
    StatTotalAbsent([], x.time);
    PlusNothing(x);
  }

  lemma OnePeer(out: seq<PeerRate>, x: PeerRate)
    requires MergesPeers(out, [x])
    ensures out == [x]
  {
    OneListed(out, x, AsnOf);
    assert [] + [x] == [x];
    PeerTotalGrows([], x, x.asn);
  }

  lemma OneFlap(out: seq<Flap>, x: Flap)
    requires MergesFlaps(out, [x])
    ensures out == [x]
  {
    OneListed(out, x, PrefixOf);
  }
}
