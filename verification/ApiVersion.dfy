/**
  Dated API versions: the chain of backward transforms that reshapes the latest
  response for an older client (internal/apiversion).

  JSON values are values here; the source mutates the decoded maps in place.
 */
module ApiVersion {
  datatype Json =
    | Null | Bool(b: bool) | Number(n: real) | String(s: string)
    | Array(items: seq<Json>) | Object(fields: map<string, Json>)

  type Fields = map<string, Json>

  /** How a change is undone on one resource object: by deleting keys, as all the
      registered changes do, or by any other function. */
  datatype Transform = Drop(keys: set<string>) | Rewrite(f: Fields -> Fields)

  function Apply(t: Transform, o: Fields): Fields {
    match t
    case Drop(keys) => o - keys
    case Rewrite(f) => f(o)
  }

  datatype Change = Change(version: string, resource: string, transform: Transform)

  // ----- Ordering of versions -------------------------------------------------------

  /** Go's `<` on strings. */
  predicate Before(a: string, b: string) {
    if b == [] then false
    else if a == [] then true
    else a[0] < b[0] || (a[0] == b[0] && Before(a[1..], b[1..]))
  }

  lemma {:induction false} BeforeTotal(a: string, b: string)
    ensures a == b || Before(a, b) || Before(b, a)
    decreases |a|
  {
    if a != [] && b != [] && a[0] == b[0] {
      BeforeTotal(a[1..], b[1..]);
      assert a == [a[0]] + a[1..] && b == [b[0]] + b[1..];
    }
  }

  lemma {:induction false} BeforeTransitive(a: string, b: string, c: string)
    requires Before(a, b) && Before(b, c)
    ensures Before(a, c)
    decreases |a|
  {
    if a != [] && a[0] == b[0] == c[0] {
      BeforeTransitive(a[1..], b[1..], c[1..]);
    }
  }

  lemma {:induction false} BeforeIrreflexive(a: string)
    ensures !Before(a, a)
    decreases |a|
  {
    if a != [] {
      BeforeIrreflexive(a[1..]);
    }
  }

  // ----- Applying one change ---------------------------------------------------------

  function OnObject(v: Json, t: Transform): Json {
    if v.Object? then Object(Apply(t, v.fields)) else v
  }

  /** applyToValue with an empty list key. */
  function OnValue(v: Json, t: Transform): Json {
    match v
    case Object(_) => OnObject(v, t)
    case Array(items) => Array(seq(|items|, i requires 0 <= i < |items| => OnObject(items[i], t)))
    case _ => v
  }

  function ApplyToValue(v: Json, listKey: string, t: Transform): Json {
    if v.Object? && listKey != "" then
      if listKey in v.fields then Object(v.fields[listKey := OnValue(v.fields[listKey], t)]) else v
    else OnValue(v, t)
  }

  function ApplyAll(v: Json, listKey: string, cs: seq<Change>): Json
    decreases |cs|
  {
    if cs == [] then v
    else ApplyToValue(ApplyAll(v, listKey, cs[..|cs| - 1]), listKey, cs[|cs| - 1].transform)
  }

  // ----- The downgrade ------------------------------------------------------------------

  const VERSIONS := ["2025-01-01", "2026-06-06", "2026-06-07"]

  function Latest(): string { VERSIONS[|VERSIONS| - 1] }

  function Selected(cs: seq<Change>, p: Change -> bool): seq<Change>
    decreases |cs|
  {
    if cs == [] then []
    else
      var rest := Selected(cs[..|cs| - 1], p);
      if p(cs[|cs| - 1]) then rest + [cs[|cs| - 1]] else rest
  }

  function NewerThan(cs: seq<Change>, target: string): seq<Change> {
    Selected(cs, (c: Change) => Before(target, c.version))
  }

  /** The changes in the half-open range of versions (low, high]. */
  function Between(cs: seq<Change>, low: string, high: string): seq<Change> {
    Selected(cs, (c: Change) => Before(low, c.version) && !Before(high, c.version))
  }

  predicate NewestFirst(cs: seq<Change>) {
    forall i, j :: 0 <= i < j < |cs| ==> !Before(cs[i].version, cs[j].version)
  }

  /** What the loop computes, fast path aside. */
  function Downgraded(cs: seq<Change>, target: string, v: Json, listKey: string): Json {
    ApplyAll(v, listKey, NewerThan(cs, target))
  }

  /** changesForResourceNewestFirst: filter, then sort in place; equal versions may
      come in any order. */
  method ChangesNewestFirst(registered: seq<Change>, resource: string) returns (out: seq<Change>)
    ensures NewestFirst(out)
    ensures multiset(out) == multiset(Selected(registered, (c: Change) => c.resource == resource))
  {
    out := [];
    ghost var mine := (c: Change) => c.resource == resource;
    for i := 0 to |registered|
      invariant NewestFirst(out)
      invariant multiset(out) == multiset(Selected(registered[..i], mine))
    {
      assert registered[..i + 1][..i] == registered[..i];
      if registered[i].resource == resource {
        out := Insert(out, registered[i]);
      }
    }
    assert registered[..|registered|] == registered;
  }

  method Insert(sorted: seq<Change>, c: Change) returns (out: seq<Change>)
    requires NewestFirst(sorted)
    ensures NewestFirst(out) && multiset(out) == multiset(sorted + [c])
  {
    var k := 0;
    while k < |sorted| && !Before(sorted[k].version, c.version)
      invariant 0 <= k <= |sorted|
      invariant forall i :: 0 <= i < k ==> !Before(sorted[i].version, c.version)
    {
      k := k + 1;
    }
    out := sorted[..k] + [c] + sorted[k..];
    InsertedInOrder(sorted, k, c);
    assert sorted == sorted[..k] + sorted[k..];
  }

  lemma InsertedInOrder(sorted: seq<Change>, k: nat, c: Change)
    requires NewestFirst(sorted) && k <= |sorted|
    requires forall i :: 0 <= i < k ==> !Before(sorted[i].version, c.version)
    requires k < |sorted| ==> Before(sorted[k].version, c.version)
    ensures NewestFirst(sorted[..k] + [c] + sorted[k..])
  {
    forall j | k <= j < |sorted|
      ensures !Before(c.version, sorted[j].version)
    {
      BeforeIrreflexive(sorted[k].version);
      if Before(c.version, sorted[j].version) {
        BeforeTransitive(sorted[k].version, c.version, sorted[j].version);
      }
    }
    var out := sorted[..k] + [c] + sorted[k..];
    forall i, j | 0 <= i < j < |out|
      ensures !Before(out[i].version, out[j].version)
    {
      var x := if i < k then i else i - 1;
      var y := if j < k then j else j - 1;
      assert i != k ==> out[i] == sorted[x];
      assert j != k ==> out[j] == sorted[y];
    }
  }

  method Downgrade(registered: seq<Change>, resource: string, target: string, v: Json, listKey: string)
    returns (r: Json, ghost ordered: seq<Change>)
    ensures NewestFirst(ordered)
    ensures multiset(ordered) == multiset(Selected(registered, (c: Change) => c.resource == resource))
    ensures r == if target == Latest() then v else Downgraded(ordered, target, v, listKey)
  {
    var cs := ChangesNewestFirst(registered, resource);
    ordered := cs;
    if target == Latest() {
      return v, ordered;
    }
    r := v;
    for i := 0 to |cs|
      invariant r == Downgraded(cs[..i], target, v, listKey)
    {
      assert cs[..i + 1][..i] == cs[..i];
      if Before(target, cs[i].version) {
        r := ApplyToValue(r, listKey, cs[i].transform);
        ghost var chosen := NewerThan(cs[..i + 1], target);
        assert chosen[..|chosen| - 1] == NewerThan(cs[..i], target);
      }
    }
    assert cs[..|cs|] == cs;
  }

  lemma {:induction false} SelectedFrom(cs: seq<Change>, p: Change -> bool, c: Change)
    requires c in Selected(cs, p)
    ensures c in cs && p(c)
    decreases |cs|
  {
    var n := |cs| - 1;
    if c in Selected(cs[..n], p) {
      SelectedFrom(cs[..n], p, c);
    }
  }

  lemma {:induction false} NothingNewer(cs: seq<Change>, target: string)
    requires forall i :: 0 <= i < |cs| ==> !Before(target, cs[i].version)
    ensures NewerThan(cs, target) == []
    decreases |cs|
  {
    if cs != [] {
      NothingNewer(cs[..|cs| - 1], target);
    }
  }

  /** The fast path for the latest version is what the loop would have done, as
      long as no change is registered for a version newer than the latest. */
  lemma FastPathIsTheLoop(cs: seq<Change>, v: Json, listKey: string)
    requires forall i :: 0 <= i < |cs| ==> !Before(Latest(), cs[i].version)
    ensures Downgraded(cs, Latest(), v, listKey) == v
  {
    NothingNewer(cs, Latest());
  }

  lemma {:induction false} ApplyAllConcat(v: Json, listKey: string, xs: seq<Change>, ys: seq<Change>)
    ensures ApplyAll(v, listKey, xs + ys) == ApplyAll(ApplyAll(v, listKey, xs), listKey, ys)
    decreases |ys|
  {
    if ys == [] {
      assert xs + ys == xs;
    } else {
      assert (xs + ys)[..|xs + ys| - 1] == xs + ys[..|ys| - 1];
      ApplyAllConcat(v, listKey, xs, ys[..|ys| - 1]);
    }
  }

  /** Newest first, the changes above the lower version are those above the upper
      one followed by those in between. */
  lemma {:induction false} NewerSplits(cs: seq<Change>, low: string, high: string)
    requires NewestFirst(cs) && !Before(high, low)
    ensures NewerThan(cs, low) == NewerThan(cs, high) + Between(cs, low, high)
    decreases |cs|
  {
    if cs != [] {
      var n := |cs| - 1;
      var c := cs[n];
      NewerSplits(cs[..n], low, high);
      if Before(high, c.version) {
        // Everything before c is at least as new, so nothing is in between yet.
        forall i | 0 <= i < n
          ensures Before(high, cs[..n][i].version)
        {
          BeforeTotal(c.version, cs[i].version);
          if Before(c.version, cs[i].version) {
            BeforeTransitive(high, c.version, cs[i].version);
          }
        }
        NothingBetween(cs[..n], low, high);
        BeforeTotal(high, low);
        if Before(low, high) {
          BeforeTransitive(low, high, c.version);
        }
      }
    }
  }

  lemma {:induction false} NothingBetween(cs: seq<Change>, low: string, high: string)
    requires forall i :: 0 <= i < |cs| ==> Before(high, cs[i].version)
    ensures Between(cs, low, high) == []
    decreases |cs|
  {
    if cs != [] {
      NothingBetween(cs[..|cs| - 1], low, high);
    }
  }

  /** Downgrading composes: the way to an older version is the way to any version
      in between, followed by the remaining changes; for arbitrary transforms. */
  lemma DowngradeComposes(cs: seq<Change>, low: string, high: string, v: Json, listKey: string)
    requires NewestFirst(cs) && !Before(high, low)
    ensures Downgraded(cs, low, v, listKey)
         == ApplyAll(Downgraded(cs, high, v, listKey), listKey, Between(cs, low, high))
  {
    NewerSplits(cs, low, high);
    ApplyAllConcat(v, listKey, NewerThan(cs, high), Between(cs, low, high));
  }

  // ----- The registered deletions -----------------------------------------------------------

  predicate OnlyDrops(cs: seq<Change>) {
    forall i :: 0 <= i < |cs| ==> cs[i].transform.Drop?
  }

  /** Every key dropped on the way down to `target`; no order involved. */
  function DroppedKeys(cs: seq<Change>, target: string): set<string>
    requires OnlyDrops(cs)
  {
    set i, k | 0 <= i < |cs| && Before(target, cs[i].version) && k in cs[i].transform.keys :: k
  }

  function AllKeys(cs: seq<Change>): set<string>
    requires OnlyDrops(cs)
  {
    set i, k | 0 <= i < |cs| && k in cs[i].transform.keys :: k
  }

  lemma DropTwice(v: Json, listKey: string, s: set<string>, t: set<string>)
    ensures ApplyToValue(ApplyToValue(v, listKey, Drop(s)), listKey, Drop(t)) == ApplyToValue(v, listKey, Drop(s + t))
  {
    DropTwiceInside(v, s, t);
    if v.Object? && listKey != "" && listKey in v.fields {
      DropTwiceInside(v.fields[listKey], s, t);
      var once := v.fields[listKey := OnValue(v.fields[listKey], Drop(s))];
      assert once[listKey := OnValue(once[listKey], Drop(t))]
          == v.fields[listKey := OnValue(v.fields[listKey], Drop(s + t))];
    }
  }

  lemma DropTwiceInside(v: Json, s: set<string>, t: set<string>)
    ensures OnValue(OnValue(v, Drop(s)), Drop(t)) == OnValue(v, Drop(s + t))
  {
    if v.Object? {
      assert v.fields - s - t == v.fields - (s + t);
    } else if v.Array? {
      forall i | 0 <= i < |v.items|
        ensures OnObject(OnObject(v.items[i], Drop(s)), Drop(t)) == OnObject(v.items[i], Drop(s + t))
      {
        if v.items[i].Object? {
          assert v.items[i].fields - s - t == v.items[i].fields - (s + t);
        }
      }
    }
  }

  lemma DropNothing(v: Json, listKey: string)
    ensures ApplyToValue(v, listKey, Drop({})) == v
  {
    DropNothingInside(v);
    if v.Object? && listKey != "" && listKey in v.fields {
      DropNothingInside(v.fields[listKey]);
      assert v.fields[listKey := v.fields[listKey]] == v.fields;
    }
  }

  lemma DropNothingInside(v: Json)
    ensures OnValue(v, Drop({})) == v
  {
    if v.Object? {
      assert v.fields - {} == v.fields;
    } else if v.Array? {
      forall i | 0 <= i < |v.items|
        ensures OnObject(v.items[i], Drop({})) == v.items[i]
      {
        if v.items[i].Object? {
          assert v.items[i].fields - {} == v.items[i].fields;
        }
      }
    }
  }

  lemma {:induction false} DropsAddUp(cs: seq<Change>, v: Json, listKey: string)
    requires OnlyDrops(cs)
    ensures ApplyAll(v, listKey, cs) == ApplyToValue(v, listKey, Drop(AllKeys(cs)))
    decreases |cs|
  {
    if cs == [] {
      assert AllKeys(cs) == {};
      DropNothing(v, listKey);
    } else {
      var n := |cs| - 1;
      DropsAddUp(cs[..n], v, listKey);
      DropTwice(v, listKey, AllKeys(cs[..n]), cs[n].transform.keys);
      assert AllKeys(cs) == AllKeys(cs[..n]) + cs[n].transform.keys by {
        forall k | k in AllKeys(cs)
          ensures k in AllKeys(cs[..n]) + cs[n].transform.keys
        {
          var i :| 0 <= i < |cs| && k in cs[i].transform.keys;
          assert i < n ==> cs[..n][i] == cs[i];
        }
        forall k | k in AllKeys(cs[..n])
          ensures k in AllKeys(cs)
        {
          var i :| 0 <= i < n && k in cs[..n][i].transform.keys;
          assert cs[i] == cs[..n][i];
        }
      }
    }
  }

  lemma {:induction false} NewerDrops(cs: seq<Change>, target: string)
    requires OnlyDrops(cs)
    ensures OnlyDrops(NewerThan(cs, target))
    ensures AllKeys(NewerThan(cs, target)) == DroppedKeys(cs, target)
    decreases |cs|
  {
    var p := (c: Change) => Before(target, c.version);
    forall i | 0 <= i < |NewerThan(cs, target)|
      ensures NewerThan(cs, target)[i] in cs && p(NewerThan(cs, target)[i])
    {
      SelectedFrom(cs, p, NewerThan(cs, target)[i]);
    }
    forall k | k in DroppedKeys(cs, target)
      ensures k in AllKeys(NewerThan(cs, target))
    {
      var i :| 0 <= i < |cs| && Before(target, cs[i].version) && k in cs[i].transform.keys;
      SelectedHas(cs, p, i);
    }
  }

  lemma {:induction false} SelectedHas(cs: seq<Change>, p: Change -> bool, i: nat)
    requires i < |cs| && p(cs[i])
    ensures cs[i] in Selected(cs, p)
    decreases |cs|
  {
    var n := |cs| - 1;
    if i < n {
      SelectedHas(cs[..n], p, i);
    }
  }

  /** For deletions the downgrade is one deletion of the dropped keys: it does not
      depend on the order of the changes and doing it twice changes nothing. */
  lemma DropsAreOrderFree(cs: seq<Change>, ds: seq<Change>, target: string, v: Json, listKey: string)
    requires OnlyDrops(cs) && multiset(cs) == multiset(ds)
    ensures Downgraded(cs, target, v, listKey) == ApplyToValue(v, listKey, Drop(DroppedKeys(cs, target)))
    ensures Downgraded(ds, target, v, listKey) == Downgraded(cs, target, v, listKey)
    ensures Downgraded(cs, target, Downgraded(cs, target, v, listKey), listKey) == Downgraded(cs, target, v, listKey)
  {
    forall i | 0 <= i < |ds| ensures ds[i] in cs { assert ds[i] in multiset(ds); }
    forall i | 0 <= i < |cs| ensures cs[i] in ds { assert cs[i] in multiset(cs); }
    DropsDowngrade(cs, target, v, listKey);
    DropsDowngrade(ds, target, v, listKey);
    assert DroppedKeys(cs, target) == DroppedKeys(ds, target) by {
      SameDrops(cs, ds, target);
      SameDrops(ds, cs, target);
    }
    var once := Downgraded(cs, target, v, listKey);
    DropsDowngrade(cs, target, once, listKey);
    var keys := DroppedKeys(cs, target);
    DropTwice(v, listKey, keys, keys);
    assert keys + keys == keys;
  }

  lemma SameDrops(cs: seq<Change>, ds: seq<Change>, target: string)
    requires OnlyDrops(cs) && OnlyDrops(ds) && forall i :: 0 <= i < |cs| ==> cs[i] in ds
    ensures DroppedKeys(cs, target) <= DroppedKeys(ds, target)
  {
    forall k | k in DroppedKeys(cs, target)
      ensures k in DroppedKeys(ds, target)
    {
      var i :| 0 <= i < |cs| && Before(target, cs[i].version) && k in cs[i].transform.keys;
      assert cs[i] in ds;
      var j :| 0 <= j < |ds| && ds[j] == cs[i];
      assert Before(target, ds[j].version) && k in ds[j].transform.keys;
    }
  }

  lemma DropsDowngrade(cs: seq<Change>, target: string, v: Json, listKey: string)
    requires OnlyDrops(cs)
    ensures Downgraded(cs, target, v, listKey) == ApplyToValue(v, listKey, Drop(DroppedKeys(cs, target)))
  {
    NewerDrops(cs, target);
    DropsAddUp(NewerThan(cs, target), v, listKey);
  }

  /** `r` is `v` without `keys`: in an object, or in every object of a list; nothing
      else differs. */
  predicate OnlyDropped(v: Json, r: Json, keys: set<string>) {
    match v
    case Object(fields) =>
      && r.Object? && r.fields.Keys == fields.Keys - keys
      && forall k :: k in r.fields ==> r.fields[k] == fields[k]
    case Array(items) =>
      && r.Array? && |r.items| == |items|
      && forall i :: 0 <= i < |items| ==>
           if items[i].Object? then r.items[i] == Object(items[i].fields - keys) else r.items[i] == items[i]
    case _ => r == v
  }

  /** What a deletion leaves alone: other keys, wrapper fields, the length of a
      list, and everything in it that is not an object. */
  lemma DropsTouchNothingElse(v: Json, listKey: string, keys: set<string>)
    ensures var r := ApplyToValue(v, listKey, Drop(keys));
      if v.Object? && listKey != "" then
        && r.Object? && r.fields.Keys == v.fields.Keys
        && (forall k :: k in r.fields && k != listKey ==> r.fields[k] == v.fields[k])
        && (listKey in v.fields ==> OnlyDropped(v.fields[listKey], r.fields[listKey], keys))
      else OnlyDropped(v, r, keys)
  {
    DropIsOnlyDropped(v, keys);
    if v.Object? && listKey in v.fields {
      DropIsOnlyDropped(v.fields[listKey], keys);
    }
  }

  lemma DropIsOnlyDropped(v: Json, keys: set<string>)
    ensures OnlyDropped(v, OnValue(v, Drop(keys)), keys)
  {
    assert v.Object? ==> (v.fields - keys).Keys == v.fields.Keys - keys;
  }

  const ENDPOINT_KEYS: set<string> := {"endpoint_mismatch_since", "bgp_suspended_by_endpoint"}
  const PSK_KEYS: set<string> := {"wg_preshared_key"}

  const REGISTERED: seq<Change> := [
    Change("2026-06-06", "peer", Drop(ENDPOINT_KEYS)), Change("2026-06-07", "peer", Drop(PSK_KEYS))]

  /** The keys a client pinned to `target` does not see. */
  function MissingKeys(target: string): set<string> {
    (if Before(target, "2026-06-06") then ENDPOINT_KEYS else {}) +
    (if Before(target, "2026-06-07") then PSK_KEYS else {})
  }

  lemma DropsOfTwo(cs: seq<Change>, a: Change, b: Change, target: string, v: Json, listKey: string)
    requires cs == [a, b] && a.transform.Drop? && b.transform.Drop?
    ensures var keys := (if Before(target, a.version) then a.transform.keys else {})
                      + (if Before(target, b.version) then b.transform.keys else {});
            Downgraded(cs, target, v, listKey) == ApplyToValue(v, listKey, Drop(keys))
  {
    var keys := (if Before(target, a.version) then a.transform.keys else {})
              + (if Before(target, b.version) then b.transform.keys else {});
    DropsDowngrade(cs, target, v, listKey);
    assert DroppedKeys(cs, target) == keys by {
      assert cs[0] == a && cs[1] == b;
    }
  }

  /** The shipped registry, for any target whatsoever. */
  lemma RegisteredDowngrades(target: string, v: Json, listKey: string)
    ensures Downgraded(REGISTERED, target, v, listKey) == ApplyToValue(v, listKey, Drop(MissingKeys(target)))
  {
    DropsOfTwo(REGISTERED, REGISTERED[0], REGISTERED[1], target, v, listKey);
  }

  lemma RegisteredIsForPeers(resource: string)
    ensures Selected(REGISTERED, (c: Change) => c.resource == resource)
         == if resource == "peer" then REGISTERED else []
  {
    var p := (c: Change) => c.resource == resource;
    var first := REGISTERED[..1];
    assert REGISTERED[..|REGISTERED| - 1] == first && first[..|first| - 1] == [];
    assert Selected(first[..|first| - 1], p) == [];
    assert Selected(first, p) == if resource == "peer" then first else [];
    assert REGISTERED == first + [REGISTERED[1]];
  }

  /** The shipped downgrade: of a peer it removes exactly the keys introduced after the
      target, and no other resource is touched, whatever order the sort leaves. */
  method DowngradeRegistered(resource: string, target: string, v: Json, listKey: string) returns (r: Json)
    ensures target == Latest() ==> r == v
    ensures resource != "peer" ==> r == v
    ensures resource == "peer" && target != Latest() ==> r == ApplyToValue(v, listKey, Drop(MissingKeys(target)))
  {
    ghost var ordered;
    r, ordered := Downgrade(REGISTERED, resource, target, v, listKey);
    RegisteredIsForPeers(resource);
    if resource == "peer" {
      assert OnlyDrops(REGISTERED);
      DropsAreOrderFree(REGISTERED, ordered, target, v, listKey);
      RegisteredDowngrades(target, v, listKey);
    } else {
      assert |multiset(ordered)| == 0;
      assert ordered == [];
      NothingNewer(ordered, target);
    }
  }

  lemma KnownVersions()
    ensures MissingKeys("2025-01-01") == ENDPOINT_KEYS + PSK_KEYS
    ensures MissingKeys("2026-06-06") == PSK_KEYS
    ensures MissingKeys("2026-06-07") == {}
  {
    VersionOrder();
  }

  lemma VersionOrder()
    ensures Before("2025-01-01", "2026-06-06") && Before("2026-06-06", "2026-06-07")
    ensures Before("2025-01-01", "2026-06-07") && !Before("2026-06-06", "2026-06-06")
    ensures !Before("2026-06-07", "2026-06-06") && !Before("2026-06-07", "2026-06-07")
  {
    var first, second, third := "2025-01-01", "2026-06-06", "2026-06-07";
    FirstBeforeSecond();
    SecondBeforeThird();
    ChainOrder(first, second, third);
  }

  lemma FirstBeforeSecond()
    ensures Before("2025-01-01", "2026-06-06")
  {
    var prefix, a, b := "202", "5-01-01", "6-06-06";
    BeforeStep(prefix, a, b);
    assert prefix + a == "2025-01-01" && prefix + b == "2026-06-06";
  }

  lemma SecondBeforeThird()
    ensures Before("2026-06-06", "2026-06-07")
  {
    var prefix, a, b := "2026-06-0", "6", "7";
    BeforeStep(prefix, a, b);
    assert prefix + a == "2026-06-06" && prefix + b == "2026-06-07";
  }

  lemma ChainOrder(a: string, b: string, c: string)
    requires Before(a, b) && Before(b, c)
    ensures Before(a, c) && !Before(b, b) && !Before(c, c) && !Before(c, b)
  {
    BeforeTransitive(a, b, c);
    BeforeIrreflexive(b);
    BeforeIrreflexive(c);
    if Before(c, b) {
      BeforeTransitive(c, b, c);
    }
  }

  lemma {:induction false} BeforeStep(prefix: string, a: string, b: string)
    requires a != [] && b != [] && a[0] < b[0]
    ensures Before(prefix + a, prefix + b)
    decreases |prefix|
  {
    if prefix == [] {
      assert prefix + a == a && prefix + b == b;
    } else {
      BeforeStep(prefix[1..], a, b);
      assert (prefix + a)[1..] == prefix[1..] + a && (prefix + b)[1..] == prefix[1..] + b;
    }
  }
}
