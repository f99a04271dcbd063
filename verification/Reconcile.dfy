/**
  The reconcile worker's pass over the fleet (internal/reconcile).

  A pass lists the enabled nodes and pushes each connected one its active peers;
  the agent then runs exactly that set.  A pass stops early when its context is
  cancelled, skips nodes that are offline, and pushes an empty list when the
  rows of a node cannot be read.  A list that does not fit the send buffer is
  parked and tried once more later; the pass counts it as pushed all the same.
 */
module Reconcile {
  import opened PeerLifecycle

  type NodeId = string
  type PeerId = string

  datatype Entry = Entry(node: NodeId, row: Row)

  type Rows = map<PeerId, Entry>
  type List = map<PeerId, Wiring>

  /** The active peers of a node, as the database has them. */
  function ActiveSet(rows: Rows, n: NodeId): List {
    map p | p in rows && rows[p].node == n && rows[p].row.status.Active? :: rows[p].row.wiring
  }

  /** Agent `n` runs peer `p` iff the row is active on `n`, with the same wiring. */
  predicate NodeAgrees(rows: Rows, n: NodeId, running: List) {
    && (forall p :: p in running ==> p in rows && rows[p].node == n && rows[p].row == Row(Active, running[p]))
    && (forall p :: p in rows && rows[p].node == n && rows[p].row.status.Active? ==> p in running)
  }

  lemma ActiveSetAgrees(rows: Rows, n: NodeId, running: List)
    ensures NodeAgrees(rows, n, running) <==> running == ActiveSet(rows, n)
  {
    if NodeAgrees(rows, n, running) {
      assert running.Keys == ActiveSet(rows, n).Keys;
      assert forall p :: p in running ==> running[p] == ActiveSet(rows, n)[p];
    }
  }

  // ----- One pass ---------------------------------------------------------------------

  /** What a pass meets: which nodes are connected, whose rows cannot be read, and
      whose send buffer is full. */
  datatype Conditions = Conditions(online: set<NodeId>, unreadable: set<NodeId>, full: set<NodeId>)

  datatype Fleet = Fleet(agents: map<NodeId, List>, parked: seq<(NodeId, List)>)

  function ListFor(rows: Rows, c: Conditions, n: NodeId): List {
    if n in c.unreadable then map[] else ActiveSet(rows, n)
  }

  function Push(f: Fleet, rows: Rows, c: Conditions, n: NodeId): Fleet {
    if n !in c.online then f
    else if n in c.full then f.(parked := f.parked + [(n, ListFor(rows, c, n))])
    else f.(agents := f.agents[n := ListFor(rows, c, n)])
  }

  function Pass(f: Fleet, rows: Rows, c: Conditions, visited: seq<NodeId>): Fleet
    decreases |visited|
  {
    if visited == [] then f
    else Push(Pass(f, rows, c, visited[..|visited| - 1]), rows, c, visited[|visited| - 1])
  }

  /** How often the nodes of `list` are in `s`. */
  function CountIn(list: seq<NodeId>, s: set<NodeId>): nat {
    if list == [] then 0
    else CountIn(list[..|list| - 1], s) + if list[|list| - 1] in s then 1 else 0
  }

  /** A node the pass reaches runs its list afterwards; no other agent changes. */
  lemma {:induction false} PassReaches(f: Fleet, rows: Rows, c: Conditions, visited: seq<NodeId>, n: NodeId)
    ensures var z := Pass(f, rows, c, visited);
      if n in visited && n in c.online && n !in c.full
      then n in z.agents && z.agents[n] == ListFor(rows, c, n)
      else (n in z.agents <==> n in f.agents) && (n in z.agents ==> z.agents[n] == f.agents[n])
    decreases |visited|
  {
    if visited != [] {
      var init, last := visited[..|visited| - 1], visited[|visited| - 1];
      PassReaches(f, rows, c, init, n);
      assert visited == init + [last];
      assert n in visited <==> n in init || n == last;
    }
  }

  /** What is parked is the list of a connected node with a full buffer. */
  lemma {:induction false} PassParks(f: Fleet, rows: Rows, c: Conditions, visited: seq<NodeId>)
    ensures var z := Pass(f, rows, c, visited);
      && |f.parked| <= |z.parked| && z.parked[..|f.parked|] == f.parked
      && |z.parked| - |f.parked| == CountIn(visited, c.online * c.full)
      && forall k :: |f.parked| <= k < |z.parked| ==>
           z.parked[k].0 in c.online && z.parked[k].0 in c.full && z.parked[k].1 == ListFor(rows, c, z.parked[k].0)
    decreases |visited|
  {
    if visited != [] {
      PassParks(f, rows, c, visited[..|visited| - 1]);
    }
  }

  /** The state of the fleet after a pass over `visited`, in the fleet's own terms. */
  ghost predicate Reconciled(before: Fleet, after: Fleet, rows: Rows, c: Conditions, visited: seq<NodeId>) {
    && (forall n :: n in visited && n in c.online && n !in c.full && n !in c.unreadable ==>
          n in after.agents && NodeAgrees(rows, n, after.agents[n]))
    && (forall n :: n in visited && n in c.online && n !in c.full && n in c.unreadable ==>
          n in after.agents && after.agents[n] == map[])
    && (forall n :: n !in visited || n !in c.online || n in c.full ==>
          (n in after.agents <==> n in before.agents) && (n in after.agents ==> after.agents[n] == before.agents[n]))
    && |after.parked| == |before.parked| + CountIn(visited, c.online * c.full)
  }

  lemma PassReconciles(f: Fleet, rows: Rows, c: Conditions, visited: seq<NodeId>)
    ensures Reconciled(f, Pass(f, rows, c, visited), rows, c, visited)
  {
    PassParks(f, rows, c, visited);
    forall n
      ensures var z := Pass(f, rows, c, visited);
        if n in visited && n in c.online && n !in c.full
        then n in z.agents && z.agents[n] == ListFor(rows, c, n)
        else (n in z.agents <==> n in f.agents) && (n in z.agents ==> z.agents[n] == f.agents[n])
    {
      PassReaches(f, rows, c, visited, n);
    }
    forall n ensures NodeAgrees(rows, n, ActiveSet(rows, n)) {
      ActiveSetAgrees(rows, n, ActiveSet(rows, n));
    }
  }

  class Hub {
    var rows: Rows
    var agents: map<NodeId, List>
    var parked: seq<(NodeId, List)>

    constructor (rows: Rows, agents: map<NodeId, List>)
      ensures this.rows == rows && this.agents == agents && parked == []
    {
      this.rows, this.agents, parked := rows, agents, [];
    }

    function Now(): Fleet
      reads this
    {
      Fleet(agents, parked)
    }

    method TriggerPeersSync(n: NodeId, c: Conditions) returns (pushed: bool)
      modifies `agents, `parked
      ensures pushed == (n in c.online)
      ensures Now() == Push(old(Now()), rows, c, n)
    {
      if n !in c.online {
        return false;
      }
      var list := map[];
      if n !in c.unreadable {
        list := ActiveSet(rows, n);
      }
      if n in c.full {
        parked := parked + [(n, list)];
      } else {
        agents := agents[n := list];
      }
      return true;
    }

    /** The delayed second try for a parked list, on the rows as they are by now:
        it is delivered or dropped, and a delivered one makes the node agree exactly
        when it is still the node's active set. */
    method Retry(k: nat, room: bool)
      requires k < |parked|
      modifies `agents, `parked
      ensures parked == old(parked)[..k] + old(parked)[k + 1..]
      ensures var (n, list) := old(parked)[k];
        && agents == (if room then old(agents)[n := list] else old(agents))
        && (room ==> (NodeAgrees(rows, n, agents[n]) <==> list == ActiveSet(rows, n)))
    {
      var (n, list) := parked[k];
      if room {
        agents := agents[n := list];
      }
      parked := parked[..k] + parked[k + 1..];
      ActiveSetAgrees(rows, n, list);
    }

    /** `budget` is how many nodes are visited before the context is cancelled. */
    method RunPass(nodes: seq<NodeId>, c: Conditions, budget: nat) returns (synced: nat)
      modifies `agents, `parked
      ensures var visited := nodes[..if budget < |nodes| then budget else |nodes|];
        && synced == CountIn(visited, c.online)
        && Now() == Pass(old(Now()), rows, c, visited)
        && Reconciled(old(Now()), Now(), rows, c, visited)
    {
      synced := 0;
      var i := 0;
      while i < |nodes| && i < budget
        invariant 0 <= i <= |nodes| && i <= budget
        invariant synced == CountIn(nodes[..i], c.online)
        invariant Now() == Pass(old(Now()), rows, c, nodes[..i])
      {
        assert nodes[..i + 1][..i] == nodes[..i];
        var pushed := TriggerPeersSync(nodes[i], c);
        if pushed {
          synced := synced + 1;
        }
        i := i + 1;
      }
      PassReconciles(old(Now()), rows, c, nodes[..i]);
    }
  }
}
