/**
  Exporting and importing peers as JSON (ExportPeers, ImportPeers and
  ImportPeerFull).

  Rows are keyed by node and ASN; the table also keeps listening ports unique per
  node, so an insert or update may fail on a port another peer holds.
 */
module PeerImport {
  import opened Common

  datatype Key = Key(node: string, asn: int)

  /** The columns an export carries. */
  datatype Columns = Columns(
    pubkey: string, endpoint: string, lla: string, email: string, port: int, iface: string,
    proto: string, birdFile: string, managed: bool, mtu: Option<int>, psk: Option<string>, status: string)

  type Table = map<Key, Columns>

  datatype Entry = Entry(key: Key, nodeName: string, columns: Columns)

  datatype Reason = MissingNode | InvalidAsn | UnknownNode | PortTaken

  datatype Result = Imported | Overwritten | Skipped | Failed(reason: Reason)

  /** An empty status is stored as pending. */
  function Normal(c: Columns): Columns {
    if c.status == "" then c.(status := "pending") else c
  }

  predicate PortConflict(t: Table, k: Key, port: int) {
    exists other :: other in t && other != k && other.node == k.node && t[other].port == port
  }

  function Check(nodes: set<string>, e: Entry): Option<Reason> {
    if e.key.node == "" then Some(MissingNode)
    else if e.key.asn <= 0 then Some(InvalidAsn)
    else if e.key.node !in nodes then Some(UnknownNode)
    else None
  }

  predicate Valid(nodes: set<string>, e: Entry) {
    Check(nodes, e).None?
  }

  /** What ImportPeerFull answers for an entry that passed the checks. */
  function Upserted(t: Table, e: Entry, overwrite: bool): Result {
    if e.key in t && !overwrite then Skipped
    else if PortConflict(t, e.key, e.columns.port) then Failed(PortTaken)
    else if e.key in t then Overwritten
    else Imported
  }

  function Outcome(t: Table, nodes: set<string>, e: Entry, overwrite: bool): Result {
    if !Valid(nodes, e) then Failed(Check(nodes, e).value) else Upserted(t, e, overwrite)
  }

  function ImportOne(t: Table, nodes: set<string>, e: Entry, overwrite: bool): Table {
    var r := Outcome(t, nodes, e, overwrite);
    if r.Imported? || r.Overwritten? then t[e.key := Normal(e.columns)] else t
  }

  function Import(t: Table, nodes: set<string>, es: seq<Entry>, overwrite: bool): Table
    decreases |es|
  {
    if es == [] then t
    else ImportOne(Import(t, nodes, es[..|es| - 1], overwrite), nodes, es[|es| - 1], overwrite)
  }

  /** What becomes of one entry, for every table, entry and mode: the four answers, the
      reasons for a failure in the order they are looked for, and the row stored. */
  lemma OutcomeIsExact(t: Table, nodes: set<string>, e: Entry, overwrite: bool)
    ensures var r := Outcome(t, nodes, e, overwrite);
            var z := ImportOne(t, nodes, e, overwrite);
            var bad := e.key.node == "" || e.key.asn <= 0 || e.key.node !in nodes;
            var taken := exists k :: k in t && k != e.key && k.node == e.key.node && t[k].port == e.columns.port;
      && (r == Failed(MissingNode) <==> e.key.node == "")
      && (r == Failed(InvalidAsn) <==> e.key.node != "" && e.key.asn <= 0)
      && (r == Failed(UnknownNode) <==> e.key.node != "" && e.key.asn > 0 && e.key.node !in nodes)
      && (r == Skipped <==> !bad && e.key in t && !overwrite)
      && (r == Failed(PortTaken) <==> !bad && (e.key !in t || overwrite) && taken)
      && (r == Overwritten <==> !bad && e.key in t && overwrite && !taken)
      && (r == Imported <==> !bad && e.key !in t && !taken)
      && (r.Imported? || r.Overwritten? ==>
            && e.key in z && z == t[e.key := z[e.key]]
            && z[e.key].status == (if e.columns.status == "" then "pending" else e.columns.status)
            && z[e.key].(status := e.columns.status) == e.columns)
      && (r.Skipped? || r.Failed? ==> z == t)
  {
  }

  class PeerTable {
    var rows: Table

    constructor (rows: Table)
      ensures this.rows == rows
    {
      this.rows := rows;
    }

    method ImportPeerFull(e: Entry, overwrite: bool) returns (action: Result)
      modifies this
      ensures action == Upserted(old(rows), e, overwrite)
      ensures rows == if action.Imported? || action.Overwritten? then old(rows)[e.key := Normal(e.columns)] else old(rows)
    {
      var columns := if e.columns.status == "" then e.columns.(status := "pending") else e.columns;
      if e.key in rows && !overwrite {
        return Skipped;
      }
      if k :| k in rows && k != e.key && k.node == e.key.node && rows[k].port == columns.port {
        assert PortConflict(rows, e.key, e.columns.port);
        return Failed(PortTaken);
      }
      assert !PortConflict(rows, e.key, e.columns.port);
      action := if e.key in rows then Overwritten else Imported;
      rows := rows[e.key := columns];
    }

    /** The body of the loop; `nodeExists` remembers which nodes have been looked up. */
    method ImportEntry(nodes: set<string>, e: Entry, overwrite: bool, nodeExists: map<string, bool>)
      returns (action: Result, known: map<string, bool>)
      requires forall n :: n in nodeExists ==> nodeExists[n] == (n in nodes)
      modifies this
      ensures action == Outcome(old(rows), nodes, e, overwrite)
      ensures rows == ImportOne(old(rows), nodes, e, overwrite)
      ensures forall n :: n in known ==> known[n] == (n in nodes)
    {
      known := nodeExists;
      if e.key.node == "" {
        return Failed(MissingNode), known;
      }
      if e.key.asn <= 0 {
        return Failed(InvalidAsn), known;
      }
      if e.key.node !in known {
        known := known[e.key.node := e.key.node in nodes];
      }
      if !known[e.key.node] {
        return Failed(UnknownNode), known;
      }
      action := ImportPeerFull(e, overwrite);
    }

    /** The import loop: every entry is counted exactly once, and the counters say
        what happened to the table. */
    method ImportPeers(nodes: set<string>, es: seq<Entry>, overwrite: bool)
      returns (imported: nat, overwritten: nat, skipped: nat, errors: seq<(Key, Reason)>)
      modifies this
      ensures rows == Import(old(rows), nodes, es, overwrite)
      ensures Tally(imported, overwritten, skipped, |errors|) == Tallied(old(rows), nodes, es, overwrite)
      ensures imported + overwritten + skipped + |errors| == |es|
      ensures |rows| == |old(rows)| + imported
      ensures (!overwrite ==> overwritten == 0) && (overwrite ==> skipped == 0)
      ensures |errors| >= Invalids(nodes, es)
    {
      imported, overwritten, skipped, errors := 0, 0, 0, [];
      var nodeExists: map<string, bool> := map[];
      for i := 0 to |es|
        invariant rows == Import(old(rows), nodes, es[..i], overwrite)
        invariant Tally(imported, overwritten, skipped, |errors|) == Tallied(old(rows), nodes, es[..i], overwrite)
        invariant forall n :: n in nodeExists ==> nodeExists[n] == (n in nodes)
      {
        assert es[..i + 1][..i] == es[..i];
        var action;
        action, nodeExists := ImportEntry(nodes, es[i], overwrite, nodeExists);
        match action
        case Imported => imported := imported + 1;
        case Overwritten => overwritten := overwritten + 1;
        case Skipped => skipped := skipped + 1;
        case Failed(reason) => errors := errors + [(es[i].key, reason)];
      }
      assert es[..|es|] == es;
      TallyAddsUp(old(rows), nodes, es, overwrite);
    }
  }

  datatype Tally = Tally(imported: nat, overwritten: nat, skipped: nat, failed: nat)

  function Counted(c: Tally, r: Result): Tally {
    match r
    case Imported => c.(imported := c.imported + 1)
    case Overwritten => c.(overwritten := c.overwritten + 1)
    case Skipped => c.(skipped := c.skipped + 1)
    case Failed(_) => c.(failed := c.failed + 1)
  }

  /** The counters after importing `es`. */
  function Tallied(t: Table, nodes: set<string>, es: seq<Entry>, overwrite: bool): Tally {
    if es == [] then Tally(0, 0, 0, 0)
    else
      var init, e := es[..|es| - 1], es[|es| - 1];
      Counted(Tallied(t, nodes, init, overwrite), Outcome(Import(t, nodes, init, overwrite), nodes, e, overwrite))
  }

  /** Every entry is counted once, rows appear exactly for the imported ones, the
      mode decides which counters can move, and invalid entries fail. */
  lemma {:induction false} TallyAddsUp(t: Table, nodes: set<string>, es: seq<Entry>, overwrite: bool)
    ensures var c := Tallied(t, nodes, es, overwrite);
      && c.imported + c.overwritten + c.skipped + c.failed == |es|
      && |Import(t, nodes, es, overwrite)| == |t| + c.imported
      && (!overwrite ==> c.overwritten == 0) && (overwrite ==> c.skipped == 0)
      && c.failed >= Invalids(nodes, es)
    decreases |es|
  {
    if es != [] {
      TallyAddsUp(t, nodes, es[..|es| - 1], overwrite);
      SizeAfter(Import(t, nodes, es[..|es| - 1], overwrite), nodes, es[|es| - 1], overwrite);
    }
  }

  lemma SizeAfter(t: Table, nodes: set<string>, e: Entry, overwrite: bool)
    ensures |ImportOne(t, nodes, e, overwrite)|
         == |t| + if Outcome(t, nodes, e, overwrite).Imported? then 1 else 0
  {
    var z := t[e.key := Normal(e.columns)];
    assert z.Keys == t.Keys + {e.key};
    assert e.key in t ==> z.Keys == t.Keys;
  }

  function Invalids(nodes: set<string>, es: seq<Entry>): nat {
    if es == [] then 0
    else Invalids(nodes, es[..|es| - 1]) + if Valid(nodes, es[|es| - 1]) then 0 else 1
  }

  // ----- First wins, last wins ---------------------------------------------------------------

  function Lookup(t: Table, k: Key): Option<Columns> {
    if k in t then Some(t[k]) else None
  }

  function OrElse<T>(a: Option<T>, b: Option<T>): Option<T> {
    if a.Some? then a else b
  }

  /** Entry `i` is for `k`, valid, and no other peer holds its port when its turn
      comes. */
  predicate Lands(t: Table, nodes: set<string>, es: seq<Entry>, overwrite: bool, k: Key, i: int)
    requires 0 <= i < |es|
  {
    && es[i].key == k && Valid(nodes, es[i])
    && !PortConflict(Import(t, nodes, es[..i], overwrite), k, es[i].columns.port)
  }

  /** None of the entries from `lo` up to `hi` lands. */
  predicate NoneLands(t: Table, nodes: set<string>, es: seq<Entry>, overwrite: bool, k: Key, lo: int, hi: int)
    requires 0 <= lo && hi <= |es|
  {
    forall i :: lo <= i < hi ==> !Lands(t, nodes, es, overwrite, k, i)
  }

  /** One entry: it lands and gives the row, or leaves it. */
  lemma LandingStep(t: Table, nodes: set<string>, es: seq<Entry>, n: nat, k: Key, overwrite: bool)
    requires n < |es|
    ensures var cur, z := Import(t, nodes, es[..n], overwrite), Import(t, nodes, es[..n + 1], overwrite);
      Lookup(z, k) == if Lands(t, nodes, es, overwrite, k, n) && (overwrite || k !in cur)
                      then Some(Normal(es[n].columns)) else Lookup(cur, k)
  {
    assert es[..n + 1][..n] == es[..n];
    var cur := Import(t, nodes, es[..n], overwrite);
    assert Import(t, nodes, es[..n + 1], overwrite) == ImportOne(cur, nodes, es[n], overwrite);
  }

  /** With overwrite, whatever clashes there are: the last entry that lands gives
      the row, and without any the row is as before. */
  lemma {:induction false} LastLandingWins(t: Table, nodes: set<string>, es: seq<Entry>, n: nat, k: Key)
    requires n <= |es|
    ensures NoneLands(t, nodes, es, true, k, 0, n) ==> Lookup(Import(t, nodes, es[..n], true), k) == Lookup(t, k)
    ensures forall i ::
      0 <= i < n && Lands(t, nodes, es, true, k, i) && NoneLands(t, nodes, es, true, k, i + 1, n) ==>
        Lookup(Import(t, nodes, es[..n], true), k) == Some(Normal(es[i].columns))
  {
    if NoneLands(t, nodes, es, true, k, 0, n) {
      NothingLanded(t, nodes, es, 0, n, k, true);
      assert es[..0] == [];
    }
    forall i | 0 <= i < n && Lands(t, nodes, es, true, k, i) && NoneLands(t, nodes, es, true, k, i + 1, n)
      ensures Lookup(Import(t, nodes, es[..n], true), k) == Some(Normal(es[i].columns))
    {
      LandingStep(t, nodes, es, i, k, true);
      NothingLanded(t, nodes, es, i + 1, n, k, true);
    }
  }

  /** A row changes only when an entry lands. */
  lemma {:induction false} NothingLanded(
    t: Table, nodes: set<string>, es: seq<Entry>, lo: nat, hi: nat, k: Key, overwrite: bool)
    requires lo <= hi <= |es| && NoneLands(t, nodes, es, overwrite, k, lo, hi)
    ensures Lookup(Import(t, nodes, es[..hi], overwrite), k) == Lookup(Import(t, nodes, es[..lo], overwrite), k)
    decreases hi
  {
    if lo < hi {
      NothingLanded(t, nodes, es, lo, hi - 1, k, overwrite);
      LandingStep(t, nodes, es, hi - 1, k, overwrite);
    }
  }

  /** Without overwrite a row that exists stays. */
  lemma {:induction false} PresentStays(t: Table, nodes: set<string>, es: seq<Entry>, lo: nat, hi: nat, k: Key)
    requires lo <= hi <= |es| && k in Import(t, nodes, es[..lo], false)
    ensures Lookup(Import(t, nodes, es[..hi], false), k) == Lookup(Import(t, nodes, es[..lo], false), k)
    decreases hi
  {
    if lo < hi {
      PresentStays(t, nodes, es, lo, hi - 1, k);
      LandingStep(t, nodes, es, hi - 1, k, false);
    }
  }

  /** Without overwrite an existing row stays; a missing one is given by the first
      entry that lands, if any does. */
  lemma {:induction false} FirstLandingWins(t: Table, nodes: set<string>, es: seq<Entry>, n: nat, k: Key)
    requires n <= |es|
    ensures k in t || NoneLands(t, nodes, es, false, k, 0, n) ==>
      Lookup(Import(t, nodes, es[..n], false), k) == Lookup(t, k)
    ensures forall i ::
      k !in t && 0 <= i < n && Lands(t, nodes, es, false, k, i) && NoneLands(t, nodes, es, false, k, 0, i) ==>
        Lookup(Import(t, nodes, es[..n], false), k) == Some(Normal(es[i].columns))
  {
    assert es[..0] == [];
    if k in t {
      PresentStays(t, nodes, es, 0, n, k);
    } else if NoneLands(t, nodes, es, false, k, 0, n) {
      NothingLanded(t, nodes, es, 0, n, k, false);
    }
    forall i | k !in t && 0 <= i < n && Lands(t, nodes, es, false, k, i) && NoneLands(t, nodes, es, false, k, 0, i)
      ensures Lookup(Import(t, nodes, es[..n], false), k) == Some(Normal(es[i].columns))
    {
      NothingLanded(t, nodes, es, 0, i, k, false);
      LandingStep(t, nodes, es, i, k, false);
      PresentStays(t, nodes, es, i + 1, n, k);
    }
  }

  /** What the last valid entry for `k` says. */
  function LastFor(nodes: set<string>, es: seq<Entry>, k: Key): Option<Columns> {
    if es == [] then None
    else
      var e := es[|es| - 1];
      if Valid(nodes, e) && e.key == k then Some(Normal(e.columns)) else LastFor(nodes, es[..|es| - 1], k)
  }

  /** What the first valid entry for `k` says. */
  function FirstFor(nodes: set<string>, es: seq<Entry>, k: Key): Option<Columns> {
    if es == [] then None
    else
      var e := es[|es| - 1];
      OrElse(FirstFor(nodes, es[..|es| - 1], k),
             if Valid(nodes, e) && e.key == k then Some(Normal(e.columns)) else None)
  }

  predicate Clash(j: Key, c: Columns, k: Key, d: Columns) {
    j.node == k.node && c.port == d.port
  }

  predicate PortsUnique(t: Table) {
    forall j, k :: j in t && k in t && Clash(j, t[j], k, t[k]) ==> j == k
  }

  /** No two peers among the rows and the valid entries claim one port of a node. */
  ghost predicate PortSafe(t: Table, nodes: set<string>, es: seq<Entry>) {
    && PortsUnique(t)
    && (forall k, i :: k in t && 0 <= i < |es| && Valid(nodes, es[i]) && Clash(k, t[k], es[i].key, es[i].columns) ==>
          k == es[i].key)
    && (forall i, j :: 0 <= i < |es| && 0 <= j < |es| && Valid(nodes, es[i]) && Valid(nodes, es[j]) ==>
          Clash(es[i].key, es[i].columns, es[j].key, es[j].columns) ==> es[i].key == es[j].key)
  }

  /** Every row's port is that of the original row or of an entry for its key. */
  ghost predicate Sourced(cur: Table, t: Table, nodes: set<string>, es: seq<Entry>) {
    forall k :: k in cur ==>
      (k in t && cur[k] == t[k]) ||
      (exists i :: 0 <= i < |es| && Valid(nodes, es[i]) && es[i].key == k && cur[k] == Normal(es[i].columns))
  }

  lemma {:induction false} ImportIsSourced(t: Table, nodes: set<string>, es: seq<Entry>, overwrite: bool)
    ensures Sourced(Import(t, nodes, es, overwrite), t, nodes, es)
    decreases |es|
  {
    if es != [] {
      var n := |es| - 1;
      var cur := Import(t, nodes, es[..n], overwrite);
      ImportIsSourced(t, nodes, es[..n], overwrite);
      var z := Import(t, nodes, es, overwrite);
      forall k | k in z && !(k in t && z[k] == t[k])
        ensures exists i :: 0 <= i < |es| && Valid(nodes, es[i]) && es[i].key == k && z[k] == Normal(es[i].columns)
      {
        if z == cur || k != es[n].key {
          var i :| 0 <= i < n && Valid(nodes, es[..n][i]) && es[..n][i].key == k && cur[k] == Normal(es[..n][i].columns);
          assert es[i] == es[..n][i];
        } else {
          assert z[k] == Normal(es[n].columns);
        }
      }
    }
  }

  lemma NoConflict(cur: Table, t: Table, nodes: set<string>, es: seq<Entry>, i: nat)
    requires PortSafe(t, nodes, es) && Sourced(cur, t, nodes, es) && i < |es| && Valid(nodes, es[i])
    ensures !PortConflict(cur, es[i].key, es[i].columns.port)
  {
    forall other | other in cur && other.node == es[i].key.node && cur[other].port == es[i].columns.port
      ensures other == es[i].key
    {
      Claim(cur, t, nodes, es, other);
    }
  }

  lemma SourcedGrows(cur: Table, t: Table, nodes: set<string>, es: seq<Entry>, n: nat)
    requires n <= |es| && Sourced(cur, t, nodes, es[..n])
    ensures Sourced(cur, t, nodes, es)
  {
    forall k | k in cur && !(k in t && cur[k] == t[k])
      ensures exists i :: 0 <= i < |es| && Valid(nodes, es[i]) && es[i].key == k && cur[k] == Normal(es[i].columns)
    {
      var i :| 0 <= i < n && Valid(nodes, es[..n][i]) && es[..n][i].key == k && cur[k] == Normal(es[..n][i].columns);
      assert es[i] == es[..n][i];
    }
  }

  /** Without clashes every valid entry lands. */
  ghost predicate AllLand(t: Table, nodes: set<string>, es: seq<Entry>, overwrite: bool) {
    forall i :: 0 <= i < |es| && Valid(nodes, es[i]) ==> Lands(t, nodes, es, overwrite, es[i].key, i)
  }

  lemma PortSafeAllLand(t: Table, nodes: set<string>, es: seq<Entry>, overwrite: bool)
    requires PortSafe(t, nodes, es)
    ensures AllLand(t, nodes, es, overwrite)
  {
    forall i | 0 <= i < |es| && Valid(nodes, es[i])
      ensures Lands(t, nodes, es, overwrite, es[i].key, i)
    {
      ValidLands(t, nodes, es, i, overwrite);
    }
  }

  lemma LandedStep(t: Table, nodes: set<string>, es: seq<Entry>, n: nat, k: Key, overwrite: bool)
    requires AllLand(t, nodes, es, overwrite) && n < |es|
    ensures var cur, z := Import(t, nodes, es[..n], overwrite), Import(t, nodes, es[..n + 1], overwrite);
      Lookup(z, k) == if Valid(nodes, es[n]) && es[n].key == k && (overwrite || k !in cur)
                      then Some(Normal(es[n].columns)) else Lookup(cur, k)
  {
    LandingStep(t, nodes, es, n, k, overwrite);
  }

  lemma WordsGrow(nodes: set<string>, es: seq<Entry>, n: nat, k: Key)
    requires n < |es|
    ensures var word := if Valid(nodes, es[n]) && es[n].key == k then Some(Normal(es[n].columns)) else None;
      && FirstFor(nodes, es[..n + 1], k) == OrElse(FirstFor(nodes, es[..n], k), word)
      && LastFor(nodes, es[..n + 1], k) == OrElse(word, LastFor(nodes, es[..n], k))
  {
    assert es[..n + 1][..n] == es[..n];
  }

  lemma {:induction false} LastWins(t: Table, nodes: set<string>, es: seq<Entry>, n: nat, k: Key)
    requires AllLand(t, nodes, es, true) && n <= |es|
    ensures Lookup(Import(t, nodes, es[..n], true), k) == OrElse(LastFor(nodes, es[..n], k), Lookup(t, k))
    decreases n
  {
    if n == 0 {
      assert es[..0] == [];
    } else {
      LastWins(t, nodes, es, n - 1, k);
      LandedStep(t, nodes, es, n - 1, k, true);
      WordsGrow(nodes, es, n - 1, k);
    }
  }

  lemma {:induction false} FirstWins(t: Table, nodes: set<string>, es: seq<Entry>, n: nat, k: Key)
    requires AllLand(t, nodes, es, false) && n <= |es|
    ensures Lookup(Import(t, nodes, es[..n], false), k) == OrElse(Lookup(t, k), FirstFor(nodes, es[..n], k))
    decreases n
  {
    if n == 0 {
      assert es[..0] == [];
    } else {
      FirstWins(t, nodes, es, n - 1, k);
      LandedStep(t, nodes, es, n - 1, k, false);
      WordsGrow(nodes, es, n - 1, k);
    }
  }

  /** Without port clashes, an import with overwrite leaves the last valid entry of
      every key, and one without leaves existing rows and otherwise the first. */
  lemma ImportWinsWithoutClashes(t: Table, nodes: set<string>, es: seq<Entry>, n: nat, k: Key)
    requires PortSafe(t, nodes, es) && n <= |es|
    ensures Lookup(Import(t, nodes, es[..n], true), k) == OrElse(LastFor(nodes, es[..n], k), Lookup(t, k))
    ensures Lookup(Import(t, nodes, es[..n], false), k) == OrElse(Lookup(t, k), FirstFor(nodes, es[..n], k))
  {
    PortSafeAllLand(t, nodes, es, true);
    PortSafeAllLand(t, nodes, es, false);
    LastWins(t, nodes, es, n, k);
    FirstWins(t, nodes, es, n, k);
  }

  lemma ValidLands(t: Table, nodes: set<string>, es: seq<Entry>, i: nat, overwrite: bool)
    requires PortSafe(t, nodes, es) && i < |es|
    ensures Lands(t, nodes, es, overwrite, es[i].key, i) <==> Valid(nodes, es[i])
  {
    if Valid(nodes, es[i]) {
      ImportIsSourced(t, nodes, es[..i], overwrite);
      SourcedGrows(Import(t, nodes, es[..i], overwrite), t, nodes, es, i);
      NoConflict(Import(t, nodes, es[..i], overwrite), t, nodes, es, i);
    }
  }

  // ----- Importing again --------------------------------------------------------------------------

  lemma {:induction false} InsertOnlyKeepsRows(t: Table, nodes: set<string>, es: seq<Entry>, n: nat)
    requires n <= |es|
    ensures forall k :: k in Import(t, nodes, es[..n], false) ==>
      k in Import(t, nodes, es, false) && Import(t, nodes, es, false)[k] == Import(t, nodes, es[..n], false)[k]
    decreases |es| - n
  {
    if n < |es| {
      assert es[..n + 1][..n] == es[..n];
      InsertOnlyKeepsRows(t, nodes, es, n + 1);
    } else {
      assert es[..n] == es;
    }
  }

  /** After an import without overwrite, importing the same entries again changes
      nothing, whatever conflicts there were. */
  lemma {:induction false} ReimportSkips(t: Table, nodes: set<string>, es: seq<Entry>, n: nat)
    requires n <= |es|
    ensures var z := Import(t, nodes, es, false); Import(z, nodes, es[..n], false) == z
  {
    var z := Import(t, nodes, es, false);
    if n == 0 {
      assert es[..0] == [];
    } else {
      assert es[..n][..n - 1] == es[..n - 1];
      ReimportSkips(t, nodes, es, n - 1);
      var e := es[n - 1];
      var cur := Import(t, nodes, es[..n - 1], false);
      InsertOnlyKeepsRows(t, nodes, es, n - 1);
      InsertOnlyKeepsRows(t, nodes, es, n);
      if Valid(nodes, e) && e.key !in z {
        assert PortConflict(cur, e.key, e.columns.port);
        var other :| other in cur && other != e.key && other.node == e.key.node && cur[other].port == e.columns.port;
        assert other in z && z[other].port == e.columns.port;
      }
    }
  }

  /** Importing is idempotent: always without overwrite; with overwrite whenever no
      port is claimed twice. */
  lemma ImportIsIdempotent(t: Table, nodes: set<string>, es: seq<Entry>)
    ensures var z := Import(t, nodes, es, false); Import(z, nodes, es, false) == z
    ensures PortSafe(t, nodes, es) ==>
      var z := Import(t, nodes, es, true); Import(z, nodes, es, true) == z
  {
    assert es[..|es|] == es;
    ReimportSkips(t, nodes, es, |es|);
    if PortSafe(t, nodes, es) {
      var z := Import(t, nodes, es, true);
      ImportIsSourced(t, nodes, es, true);
      StillPortSafe(z, t, nodes, es);
      forall k
        ensures Lookup(Import(z, nodes, es, true), k) == Lookup(z, k)
      {
        ImportWinsWithoutClashes(t, nodes, es, |es|, k);
        ImportWinsWithoutClashes(z, nodes, es, |es|, k);
      }
      SameLookups(Import(z, nodes, es, true), z);
    }
  }

  lemma SameLookups(a: Table, b: Table)
    requires forall k :: Lookup(a, k) == Lookup(b, k)
    ensures a == b
  {
    assert forall k :: k in a <==> k in b by {
      forall k ensures k in a <==> k in b { assert Lookup(a, k) == Lookup(b, k); }
    }
    assert forall k :: k in a ==> Lookup(a, k) == Lookup(b, k);
  }

  lemma StillPortSafe(z: Table, t: Table, nodes: set<string>, es: seq<Entry>)
    requires PortSafe(t, nodes, es) && Sourced(z, t, nodes, es)
    ensures PortSafe(z, nodes, es)
  {
    forall j, k | j in z && k in z && j.node == k.node && z[j].port == z[k].port
      ensures j == k
    {
      Claim(z, t, nodes, es, j);
      Claim(z, t, nodes, es, k);
    }
    forall k, i | k in z && 0 <= i < |es| && Valid(nodes, es[i]) && k.node == es[i].key.node
                  && z[k].port == es[i].columns.port
      ensures k == es[i].key
    {
      Claim(z, t, nodes, es, k);
    }
  }

  /** A row's port was claimed for its key, by a row or by an entry. */
  lemma Claim(z: Table, t: Table, nodes: set<string>, es: seq<Entry>, k: Key)
    requires Sourced(z, t, nodes, es) && k in z
    ensures (k in t && z[k].port == t[k].port) ||
            exists i :: 0 <= i < |es| && Valid(nodes, es[i]) && es[i].key == k && z[k].port == es[i].columns.port
  {
    if !(k in t && z[k] == t[k]) {
      var i :| 0 <= i < |es| && Valid(nodes, es[i]) && es[i].key == k && z[k] == Normal(es[i].columns);
      assert z[k].port == es[i].columns.port;
    }
  }

  /** With a clash, overwriting twice can differ from overwriting once: the first
      pass frees the port that the second pass then takes. */
  lemma OverwriteNeedNotBeIdempotent(c: Columns)
    ensures var a, b := Key("n", 1), Key("n", 2);
            var t: Table := map[a := c.(port := 1, status := "active"), b := c.(port := 2, status := "active")];
            var es := [Entry(a, "", c.(port := 2, status := "active")), Entry(b, "", c.(port := 3, status := "active"))];
            var once := Import(t, {"n"}, es, true);
            var again := Import(once, {"n"}, es, true);
            a in once && once[a].port == 1 && a in again && again[a].port == 2
  {
    FreedPort(Key("n", 1), Key("n", 2), {"n"}, c.(port := 1, status := "active"), c.(port := 2, status := "active"),
              c.(port := 3, status := "active"));
  }

  /** The shape of it: `a` asks for the port of `b`, which then moves away. */
  lemma FreedPort(a: Key, b: Key, nodes: set<string>, one: Columns, two: Columns, three: Columns)
    requires a != b && a.node == b.node != "" && a.node in nodes && a.asn > 0 && b.asn > 0
    requires one.port != two.port && two.port != three.port && one.port != three.port
    ensures var t: Table := map[a := one, b := two];
            var es := [Entry(a, "", two), Entry(b, "", three)];
            var once := Import(t, nodes, es, true);
            var again := Import(once, nodes, es, true);
            a in once && once[a].port == one.port && a in again && again[a].port == two.port
  {
    var t: Table := map[a := one, b := two];
    var e, f := Entry(a, "", two), Entry(b, "", three);
    TwoEntries(t, nodes, e, f);
    assert b in t && PortConflict(t, a, two.port);
    assert !PortConflict(t, b, three.port);
    var once := t[b := Normal(three)];
    assert Import(t, nodes, [e, f], true) == once;
    TwoEntries(once, nodes, e, f);
    assert !PortConflict(once, a, two.port);
    var moved := once[a := Normal(two)];
    assert ImportOne(once, nodes, e, true) == moved;
    assert !PortConflict(moved, b, three.port);
  }

  predicate DistinctKeys(es: seq<Entry>) {
    forall i, j :: 0 <= i < j < |es| ==> es[i].key != es[j].key
  }

  /** An overwriting import has nothing to do for this entry: it is invalid, it is
      stored already, or its port belongs to another peer. */
  predicate Settled(t: Table, nodes: set<string>, e: Entry) {
    || !Valid(nodes, e)
    || Lookup(t, e.key) == Some(Normal(e.columns))
    || PortConflict(t, e.key, e.columns.port)
  }

  lemma {:induction false} OthersKeepTheirRows(t: Table, nodes: set<string>, es: seq<Entry>, overwrite: bool, k: Key)
    requires forall i :: 0 <= i < |es| ==> es[i].key != k
    ensures Lookup(Import(t, nodes, es, overwrite), k) == Lookup(t, k)
    decreases |es|
  {
    if es != [] {
      OthersKeepTheirRows(t, nodes, es[..|es| - 1], overwrite, k);
    }
  }

  /** The entry that changes `t` is still seen in the result, since no other entry
      has its key. */
  lemma UnsettledShows(t: Table, nodes: set<string>, es: seq<Entry>, n: nat)
    requires DistinctKeys(es) && n < |es| && Import(t, nodes, es[..n], true) == t && !Settled(t, nodes, es[n])
    ensures Import(t, nodes, es, true) != t
  {
    assert es[..n + 1][..n] == es[..n];
    var z := Import(t, nodes, es[..n + 1], true);
    assert Lookup(z, es[n].key) == Some(Normal(es[n].columns));
    assert es == es[..n + 1] + es[n + 1..];
    ImportConcat(t, nodes, es[..n + 1], es[n + 1..], true);
    OthersKeepTheirRows(z, nodes, es[n + 1..], true, es[n].key);
  }

  lemma {:induction false} ImportConcat(t: Table, nodes: set<string>, xs: seq<Entry>, ys: seq<Entry>, overwrite: bool)
    ensures Import(t, nodes, xs + ys, overwrite) == Import(Import(t, nodes, xs, overwrite), nodes, ys, overwrite)
    decreases |ys|
  {
    if ys == [] {
      assert xs + ys == xs;
    } else {
      assert (xs + ys)[..|xs + ys| - 1] == xs + ys[..|ys| - 1];
      ImportConcat(t, nodes, xs, ys[..|ys| - 1], overwrite);
    }
  }

  lemma {:induction false} SettledStays(t: Table, nodes: set<string>, es: seq<Entry>, n: nat)
    requires n <= |es| && forall i :: 0 <= i < n ==> Settled(t, nodes, es[i])
    ensures Import(t, nodes, es[..n], true) == t
  {
    if n == 0 {
      assert es[..0] == [];
    } else {
      SettledStays(t, nodes, es, n - 1);
      assert es[..n][..n - 1] == es[..n - 1];
      assert Lookup(t, es[n - 1].key) == Some(Normal(es[n - 1].columns)) ==>
          t[es[n - 1].key := Normal(es[n - 1].columns)] == t;
    }
  }

  /** When exactly an overwriting import of distinct peers leaves a table as it is,
      in particular the table an earlier import produced. */
  lemma OverwriteIsStableIff(t: Table, nodes: set<string>, es: seq<Entry>)
    requires DistinctKeys(es)
    ensures Import(t, nodes, es, true) == t <==> forall i :: 0 <= i < |es| ==> Settled(t, nodes, es[i])
  {
    assert es[..|es|] == es;
    var n := 0;
    while n < |es| && Settled(t, nodes, es[n])
      invariant 0 <= n <= |es| && forall i :: 0 <= i < n ==> Settled(t, nodes, es[i])
    {
      n := n + 1;
    }
    SettledStays(t, nodes, es, n);
    if n < |es| {
      UnsettledShows(t, nodes, es, n);
    }
  }

  lemma {:induction false} PortsStayUnique(t: Table, nodes: set<string>, es: seq<Entry>, overwrite: bool)
    requires PortsUnique(t)
    ensures PortsUnique(Import(t, nodes, es, overwrite))
    decreases |es|
  {
    if es != [] {
      PortsStayUnique(t, nodes, es[..|es| - 1], overwrite);
    }
  }

  /** Entry `i` was refused its port in the first pass. */
  predicate Blocked(t: Table, nodes: set<string>, es: seq<Entry>, i: int)
    requires 0 <= i < |es|
  {
    Valid(nodes, es[i]) && PortConflict(Import(t, nodes, es[..i], true), es[i].key, es[i].columns.port)
  }

  /** After a pass an entry has nothing left to do, unless its port was taken and
      has become free. */
  lemma SettledAfterPass(t: Table, nodes: set<string>, es: seq<Entry>, i: nat)
    requires DistinctKeys(es) && PortsUnique(t) && i < |es|
    ensures var z := Import(t, nodes, es, true);
      Settled(z, nodes, es[i]) <==> (Blocked(t, nodes, es, i) ==> PortConflict(z, es[i].key, es[i].columns.port))
  {
    var k, z := es[i].key, Import(t, nodes, es, true);
    assert es[..|es|] == es;
    LastLandingWins(t, nodes, es, |es|, k);
    assert NoneLands(t, nodes, es, true, k, i + 1, |es|) && NoneLands(t, nodes, es, true, k, 0, i);
    if Blocked(t, nodes, es, i) && !PortConflict(z, k, es[i].columns.port) {
      // The row of k is the original one, and its port was not the one refused.
      var cur := Import(t, nodes, es[..i], true);
      LastLandingWins(t, nodes, es, i, k);
      assert Lookup(cur, k) == Lookup(t, k) == Lookup(z, k);
      PortsStayUnique(t, nodes, es[..i], true);
      var other :| other in cur && other != k && other.node == k.node && cur[other].port == es[i].columns.port;
      assert k in cur ==> !Clash(k, cur[k], other, cur[other]);
    }
  }

  /** Importing twice with overwrite, for distinct peers: the second pass changes
      nothing exactly when every port refused in the first is still taken after it. */
  lemma OverwriteTwiceIff(t: Table, nodes: set<string>, es: seq<Entry>)
    requires DistinctKeys(es) && PortsUnique(t)
    ensures var z := Import(t, nodes, es, true);
      Import(z, nodes, es, true) == z <==>
        forall i :: 0 <= i < |es| && Blocked(t, nodes, es, i) ==> PortConflict(z, es[i].key, es[i].columns.port)
  {
    var z := Import(t, nodes, es, true);
    OverwriteIsStableIff(z, nodes, es);
    forall i | 0 <= i < |es|
      ensures Settled(z, nodes, es[i]) <==> (Blocked(t, nodes, es, i) ==> PortConflict(z, es[i].key, es[i].columns.port))
    {
      SettledAfterPass(t, nodes, es, i);
    }
  }

  /** Entry `i` is the last to land for its peer. */
  predicate Decides(t: Table, nodes: set<string>, es: seq<Entry>, i: int)
    requires 0 <= i < |es|
  {
    Lands(t, nodes, es, true, es[i].key, i) && NoneLands(t, nodes, es, true, es[i].key, i + 1, |es|)
  }

  /** The general condition, peers repeated or not: the last entry to land for a
      peer says what the table already has. */
  lemma OverwriteIsStableByPeer(t: Table, nodes: set<string>, es: seq<Entry>)
    ensures Import(t, nodes, es, true) == t <==>
      forall i :: 0 <= i < |es| && Decides(t, nodes, es, i) ==> Lookup(t, es[i].key) == Some(Normal(es[i].columns))
  {
    var z := Import(t, nodes, es, true);
    assert es[..|es|] == es;
    forall i | 0 <= i < |es| && Decides(t, nodes, es, i)
      ensures Lookup(z, es[i].key) == Some(Normal(es[i].columns))
    {
      LastLandingWins(t, nodes, es, |es|, es[i].key);
    }
    if forall i :: 0 <= i < |es| && Decides(t, nodes, es, i) ==> Lookup(t, es[i].key) == Some(Normal(es[i].columns)) {
      forall k ensures Lookup(z, k) == Lookup(t, k) {
        LastLandingWins(t, nodes, es, |es|, k);
        if i :| 0 <= i < |es| && Lands(t, nodes, es, true, k, i) {
          var last := LastLanding(t, nodes, es, k, i);
          assert Decides(t, nodes, es, last);
        }
      }
      SameLookups(z, t);
    }
  }

  lemma {:induction false} LastLanding(t: Table, nodes: set<string>, es: seq<Entry>, k: Key, i: nat) returns (last: nat)
    requires i < |es| && Lands(t, nodes, es, true, k, i)
    ensures last < |es| && Lands(t, nodes, es, true, k, last) && NoneLands(t, nodes, es, true, k, last + 1, |es|)
    decreases |es| - i
  {
    if j :| i < j < |es| && Lands(t, nodes, es, true, k, j) {
      last := LastLanding(t, nodes, es, k, j);
    } else {
      last := i;
    }
  }

  // ----- Repeated peers: a condition on the table before the second pass -----------------

  /** Some entry for `k` has something to do on `z`. */
  ghost predicate Mover(z: Table, nodes: set<string>, es: seq<Entry>, k: Key) {
    exists i :: 0 <= i < |es| && es[i].key == k && !Settled(z, nodes, es[i])
  }

  /** A valid entry whose port no other peer of `z` holds. */
  predicate Open(z: Table, nodes: set<string>, e: Entry) {
    Valid(nodes, e) && !PortConflict(z, e.key, e.columns.port)
  }

  /** The port is held by another peer that no entry moves. */
  ghost predicate HeldFast(z: Table, nodes: set<string>, es: seq<Entry>, k: Key, port: int) {
    exists j :: j in z && j != k && j.node == k.node && z[j].port == port && !Mover(z, nodes, es, j)
  }

  predicate LastOpen(z: Table, nodes: set<string>, es: seq<Entry>, i: int)
    requires 0 <= i < |es|
  {
    Open(z, nodes, es[i]) && forall j :: i < j < |es| && es[j].key == es[i].key ==> !Open(z, nodes, es[j])
  }

  /** Taken ports are held fast, and the last open entry of a peer is its row. */
  ghost predicate Quiescent(z: Table, nodes: set<string>, es: seq<Entry>) {
    && (forall i :: 0 <= i < |es| && Valid(nodes, es[i]) && PortConflict(z, es[i].key, es[i].columns.port) ==>
          HeldFast(z, nodes, es, es[i].key, es[i].columns.port))
    && (forall i :: 0 <= i < |es| && LastOpen(z, nodes, es, i) ==>
          Lookup(z, es[i].key) == Some(Normal(es[i].columns)))
  }

  /** The row of `k` in `c` is that of `z`, or an open entry among the first `n` put it there. */
  ghost predicate Accounted(c: Table, z: Table, nodes: set<string>, es: seq<Entry>, n: nat, k: Key)
    requires n <= |es|
  {
    || Lookup(c, k) == Lookup(z, k)
    || exists m :: 0 <= m < n && es[m].key == k && Open(z, nodes, es[m]) && Lookup(c, k) == Some(Normal(es[m].columns))
  }

  /** In the second pass the unmoved peers keep their rows, and only open entries land. */
  lemma {:induction false} SecondPassSoFar(z: Table, nodes: set<string>, es: seq<Entry>, n: nat)
    requires Quiescent(z, nodes, es) && n <= |es|
    ensures var c := Import(z, nodes, es[..n], true);
      forall k :: Accounted(c, z, nodes, es, n, k) && (!Mover(z, nodes, es, k) ==> Lookup(c, k) == Lookup(z, k))
  {
    if n == 0 {
      assert es[..0] == [];
    } else {
      SecondPassSoFar(z, nodes, es, n - 1);
      var c, d := Import(z, nodes, es[..n - 1], true), Import(z, nodes, es[..n], true);
      forall k
        ensures Accounted(d, z, nodes, es, n, k) && (!Mover(z, nodes, es, k) ==> Lookup(d, k) == Lookup(z, k))
      {
        LandingStep(z, nodes, es, n - 1, k, true);
        assert Accounted(c, z, nodes, es, n - 1, k);
        if Lands(z, nodes, es, true, k, n - 1) {
          LandedIsOpen(c, z, nodes, es, n - 1);
        }
      }
    }
  }

  lemma LandedIsOpen(c: Table, z: Table, nodes: set<string>, es: seq<Entry>, i: nat)
    requires Quiescent(z, nodes, es) && i < |es| && Valid(nodes, es[i])
    requires forall k :: !Mover(z, nodes, es, k) ==> Lookup(c, k) == Lookup(z, k)
    ensures PortConflict(c, es[i].key, es[i].columns.port) || Open(z, nodes, es[i])
  {
    var k, port := es[i].key, es[i].columns.port;
    if PortConflict(z, k, port) {
      assert HeldFast(z, nodes, es, k, port);
      var j :| j in z && j != k && j.node == k.node && z[j].port == port && !Mover(z, nodes, es, j);
      assert Lookup(c, j) == Lookup(z, j);
      assert PortConflict(c, k, port);
    }
  }

  /** The last open entry of a peer lands in the second pass. */
  lemma LastOpenLands(z: Table, nodes: set<string>, es: seq<Entry>, l: nat)
    requires Quiescent(z, nodes, es) && PortsUnique(z) && l < |es| && LastOpen(z, nodes, es, l)
    ensures Lands(z, nodes, es, true, es[l].key, l)
  {
    var k, port, c := es[l].key, es[l].columns.port, Import(z, nodes, es[..l], true);
    SecondPassSoFar(z, nodes, es, l);
    assert k in z && z[k].port == port;
    forall x | x in c && x != k && x.node == k.node
      ensures c[x].port != port
    {
      assert Accounted(c, z, nodes, es, l, x);
      if Lookup(c, x) == Lookup(z, x) {
        assert Clash(x, z[x], k, z[k]) ==> x == k;
      } else {
        var m :| 0 <= m < l && es[m].key == x && Open(z, nodes, es[m]) && Lookup(c, x) == Some(Normal(es[m].columns));
        assert es[m].columns.port == port ==> PortConflict(z, x, port);
      }
    }
  }

  lemma {:induction false} FindLastOpen(z: Table, nodes: set<string>, es: seq<Entry>, i: nat) returns (l: nat)
    requires i < |es| && Open(z, nodes, es[i])
    ensures i <= l < |es| && es[l].key == es[i].key && LastOpen(z, nodes, es, l)
    decreases |es| - i
  {
    if j :| i < j < |es| && es[j].key == es[i].key && Open(z, nodes, es[j]) {
      l := FindLastOpen(z, nodes, es, j);
    } else {
      l := i;
    }
  }

  /** Peers repeated or not: an overwriting import leaves a quiescent table alone.  The
      condition is read off the table before that import. */
  lemma QuiescentIsStable(z: Table, nodes: set<string>, es: seq<Entry>)
    requires PortsUnique(z) && Quiescent(z, nodes, es)
    ensures Import(z, nodes, es, true) == z
  {
    assert es[..|es|] == es;
    forall k
      ensures Lookup(Import(z, nodes, es, true), k) == Lookup(z, k)
    {
      LastLandingWins(z, nodes, es, |es|, k);
      if i :| 0 <= i < |es| && Lands(z, nodes, es, true, k, i) {
        var last := LastLanding(z, nodes, es, k, i);
        SecondPassSoFar(z, nodes, es, last);
        LandedIsOpen(Import(z, nodes, es[..last], true), z, nodes, es, last);
        var l := FindLastOpen(z, nodes, es, last);
        LastOpenLands(z, nodes, es, l);
        assert l == last;
      }
    }
    SameLookups(Import(z, nodes, es, true), z);
  }

  /** Where every entry is settled the table is quiescent, so for distinct peers
      nothing is lost; and after an import without clashes it is. */
  lemma SettledIsQuiescent(z: Table, nodes: set<string>, es: seq<Entry>)
    requires forall i :: 0 <= i < |es| ==> Settled(z, nodes, es[i])
    ensures Quiescent(z, nodes, es)
  {
    forall i | 0 <= i < |es| && Valid(nodes, es[i]) && PortConflict(z, es[i].key, es[i].columns.port)
      ensures HeldFast(z, nodes, es, es[i].key, es[i].columns.port)
    {
      var k, port := es[i].key, es[i].columns.port;
      var j :| j in z && j != k && j.node == k.node && z[j].port == port;
      assert !Mover(z, nodes, es, j);
    }
  }

  lemma PortSafeIsQuiescent(t: Table, nodes: set<string>, es: seq<Entry>)
    requires PortSafe(t, nodes, es)
    ensures Quiescent(Import(t, nodes, es, true), nodes, es)
  {
    var z := Import(t, nodes, es, true);
    ImportIsSourced(t, nodes, es, true);
    StillPortSafe(z, t, nodes, es);
    forall i | 0 <= i < |es| && Valid(nodes, es[i])
      ensures Open(z, nodes, es[i])
    {
      ValidLands(z, nodes, es, i, true);
      NoConflict(z, t, nodes, es, i);
    }
    assert es[..|es|] == es;
    forall i | 0 <= i < |es| && LastOpen(z, nodes, es, i)
      ensures Lookup(z, es[i].key) == Some(Normal(es[i].columns))
    {
      LastLandingWins(t, nodes, es, |es|, es[i].key);
      ValidLands(t, nodes, es, i, true);
      assert NoneLands(t, nodes, es, true, es[i].key, i + 1, |es|);
    }
  }

  /** Importing twice with overwrite, for all entries: if the first pass leaves a
      quiescent table, the second changes nothing. */
  lemma OverwriteTwiceIfQuiescent(t: Table, nodes: set<string>, es: seq<Entry>)
    requires PortsUnique(t)
    ensures var z := Import(t, nodes, es, true);
      Quiescent(z, nodes, es) ==> Import(z, nodes, es, true) == z
  {
    var z := Import(t, nodes, es, true);
    PortsStayUnique(t, nodes, es, true);
    if Quiescent(z, nodes, es) {
      QuiescentIsStable(z, nodes, es);
    }
  }

  lemma TwoEntries(t: Table, nodes: set<string>, e: Entry, f: Entry)
    ensures Import(t, nodes, [e, f], true) == ImportOne(ImportOne(t, nodes, e, true), nodes, f, true)
  {
    assert [e, f][..1] == [e] && [e][..0] == [];
    assert Import(t, nodes, [e], true) == ImportOne(Import(t, nodes, [], true), nodes, e, true);
  }

  // ----- Export, then import ----------------------------------------------------------------------

  /** `dump` lists every row exactly once, in any order. */
  ghost predicate IsExport(t: Table, dump: seq<Entry>) {
    && (forall i :: 0 <= i < |dump| ==> dump[i].key in t && dump[i].columns == t[dump[i].key])
    && (forall i, j :: 0 <= i < j < |dump| ==> dump[i].key != dump[j].key)
    && (forall k :: k in t ==> exists i :: 0 <= i < |dump| && dump[i].key == k)
  }

  method ExportPeers(t: Table, order: seq<Key>, nodeNames: map<string, string>) returns (dump: seq<Entry>)
    requires forall i, j :: 0 <= i < j < |order| ==> order[i] != order[j]
    requires forall k :: k in t <==> k in order
    ensures IsExport(t, dump)
    ensures |dump| == |order| && forall i :: 0 <= i < |order| ==> dump[i].key == order[i]
  {
    dump := [];
    for i := 0 to |order|
      invariant |dump| == i
      invariant forall j :: 0 <= j < i ==> dump[j].key == order[j] && dump[j].key in t && dump[j].columns == t[order[j]]
    {
      assert order[i] in t;
      var name := if order[i].node in nodeNames then nodeNames[order[i].node] else "";
      dump := dump + [Entry(order[i], name, t[order[i]])];
    }
    forall k | k in t
      ensures exists i :: 0 <= i < |dump| && dump[i].key == k
    {
      var i :| 0 <= i < |order| && order[i] == k;
      assert dump[i].key == k;
    }
  }

  /** The rows an import accepts back. */
  function Restorable(t: Table, nodes: set<string>): Table {
    map k | k in t && k.node != "" && k.asn > 0 && k.node in nodes :: Normal(t[k])
  }

  lemma {:induction false} LastForFirstFor(nodes: set<string>, es: seq<Entry>, k: Key)
    requires forall i, j :: 0 <= i < j < |es| ==> es[i].key != es[j].key
    ensures LastFor(nodes, es, k) == FirstFor(nodes, es, k)
    ensures forall i :: 0 <= i < |es| && es[i].key == k ==>
      LastFor(nodes, es, k) == if Valid(nodes, es[i]) then Some(Normal(es[i].columns)) else None
    ensures (forall i :: 0 <= i < |es| ==> es[i].key != k) ==> LastFor(nodes, es, k).None?
    decreases |es|
  {
    if es != [] {
      LastForFirstFor(nodes, es[..|es| - 1], k);
    }
  }

  /** Exporting a table and importing the dump into an empty one, in either mode,
      restores every row with a positive ASN on a known node, column for column,
      an empty status becoming pending. */
  lemma ExportImportRoundTrip(t: Table, nodes: set<string>, dump: seq<Entry>, overwrite: bool)
    requires PortsUnique(t) && IsExport(t, dump)
    ensures Import(map[], nodes, dump, overwrite) == Restorable(t, nodes)
    ensures (forall k :: k in t ==> k.node != "" && k.asn > 0 && k.node in nodes && t[k].status != "") ==>
      Import(map[], nodes, dump, overwrite) == t
  {
    var z := Import(map[], nodes, dump, overwrite);
    assert PortSafe(map[], nodes, dump);
    assert dump[..|dump|] == dump;
    forall k
      ensures Lookup(z, k) == Lookup(Restorable(t, nodes), k)
    {
      ImportWinsWithoutClashes(map[], nodes, dump, |dump|, k);
      DumpSays(t, nodes, dump, k);
    }
    SameLookups(z, Restorable(t, nodes));
    if forall k :: k in t ==> k.node != "" && k.asn > 0 && k.node in nodes && t[k].status != "" {
      assert Restorable(t, nodes).Keys == t.Keys;
      assert Restorable(t, nodes) == t;
    }
  }

  /** A dump has one entry per row, so its first and last word on a peer is the row. */
  lemma DumpSays(t: Table, nodes: set<string>, dump: seq<Entry>, k: Key)
    requires IsExport(t, dump)
    ensures LastFor(nodes, dump, k) == FirstFor(nodes, dump, k) == Lookup(Restorable(t, nodes), k)
  {
    LastForFirstFor(nodes, dump, k);
    if k in t {
      var i :| 0 <= i < |dump| && dump[i].key == k;
    }
  }
}
