/**
  Every interleaving of the requests on one peer.

  A run is a sequence of atomic actions: requests arrive, take the lock
  `peer:<id>`, read the row, perform their calls one at a time with arbitrary
  outcomes, and release.  Syncs (of the reconcile worker, or asked for by the
  agent) read the row and deliver it to the agent later, or drop it, and the
  unlocked reject reads and writes the row, whenever they like.  A request for
  which acquiring the lock errs proceeds without it (`Barge`); the theorems about
  exclusion are for runs without that, and `UnlockedRunsDiverge` shows why.
 */
module PeerInterleaving {
  import opened Common
  import opened PeerLifecycle

  type Pid = nat

  datatype Phase =
    | Wanting(op: Op)          // has not asked for the lock yet
    | Reading(op: Op)          // holds the lock, has not read the row
    | Running(prog: Prog)      // holds the lock, these calls remain
    | Rejecting                // unlocked reject: has seen a pending row
    | Pushing(list: Option<Wiring>)   // sync: has read the row, not delivered it yet
    | Replied(reply: Reply)
    | Busy                     // found the lock taken
    | Synced                   // sync: delivered or dropped

  /** `tainted`: an event that parts the stores, or may, has happened since the
      last sync that left things healthy. */
  datatype System = System(world: World, holder: Option<Pid>, phase: map<Pid, Phase>, tainted: bool)

  datatype Action =
    | Arrive(i: Pid, op: Op)
    | Acquire(i: Pid)
    | Barge(i: Pid)            // acquiring the lock erred: go on without it
    | Read(i: Pid, found: bool)
    | Call(i: Pid, outcome: CmdOutcome)
    | Save(i: Pid, stored: bool)
    | Release(i: Pid)
    | RejectRead(i: Pid)
    | RejectWrite(i: Pid)
    | SyncRead(i: Pid, listed: bool)
    | SyncPush(i: Pid, delivered: bool)

  predicate Critical(p: Phase) {
    p.Reading? || p.Running?
  }

  predicate Enabled(s: System, a: Action) {
    match a
    case Arrive(i, op) =>
      && i !in s.phase
      && (op.BotDelete? ==> s.world.row == Some(op.seen))
    case Acquire(i) => i in s.phase && s.phase[i].Wanting?
    case Barge(i) => i in s.phase && s.phase[i].Wanting?
    case Read(i, _) => i in s.phase && s.phase[i].Reading?
    case Call(i, _) => i in s.phase && s.phase[i].Running? && s.phase[i].prog.Send?
    case Save(i, _) => i in s.phase && s.phase[i].Running? && s.phase[i].prog.Write?
    case Release(i) => i in s.phase && s.phase[i].Running? && s.phase[i].prog.Done?
    case RejectRead(i) => i !in s.phase && s.world.row.Some? && s.world.row.value.status.Pending?
    case RejectWrite(i) => i in s.phase && s.phase[i].Rejecting?
    case SyncRead(i, _) => i !in s.phase
    case SyncPush(i, _) => i in s.phase && s.phase[i].Pushing?
  }

  predicate IsActive(row: Option<Row>) {
    row.Some? && row.value.status.Active?
  }

  /** What an action does to the stores, the lock and the requests. */
  function Next(s: System, a: Action): System
    requires Enabled(s, a)
  {
    match a
    case Arrive(i, op) => s.(phase := s.phase[i := Wanting(op)])
    case Acquire(i) =>
      if s.holder.Some? then s.(phase := s.phase[i := Busy])
      else s.(holder := Some(i), phase := s.phase[i := Reading(s.phase[i].op)])
    case Barge(i) => s.(phase := s.phase[i := Reading(s.phase[i].op)])
    case Read(i, found) =>
      s.(phase := s.phase[i := Running(Plan(s.phase[i].op, if found then s.world.row else None))])
    case Call(i, o) =>
      var p := s.phase[i].prog;
      var next := if o.Applied? then p.onApplied else if o.Refused? then p.onRefused else p.onLost;
      s.(world := Obey(p.command, o, s.world), phase := s.phase[i := Running(next)])
    case Save(i, stored) =>
      var p := s.phase[i].prog;
      if stored then s.(world := Store(p.write, s.world), phase := s.phase[i := Running(p.onStored)])
      else s.(phase := s.phase[i := Running(p.onFailed)])
    case Release(i) =>
      // Without a lease of its own the release does nothing.
      s.(holder := if s.holder == Some(i) then None else s.holder,
         phase := s.phase[i := Replied(s.phase[i].prog.reply)])
    case RejectRead(i) => s.(phase := s.phase[i := Rejecting])
    case RejectWrite(i) =>
      // The write is not guarded by the status the handler checked.
      s.(world := Store(SetStatus(Rejected), s.world), phase := s.phase[i := Replied(Success)])
    case SyncRead(i, listed) =>
      // When the row query fails an empty list is pushed.
      s.(phase := s.phase[i := Pushing(if listed then Wanted(s.world.row) else None)])
    case SyncPush(i, delivered) =>
      if delivered then s.(world := s.world.(agent := s.phase[i].list), phase := s.phase[i := Synced])
      else s.(phase := s.phase[i := Synced])
  }

  /** Whatever a request that is about to read the row finds, its calls lead back
      to agreement (if it is informed at all). */
  predicate Steady(op: Op, w: World) {
    Informed(op, w.row) ==> Safe(Plan(op, w.row), w) && Safe(Plan(op, None), w)
  }

  /** Outside every critical section the stores agree; inside one, whatever the
      holder still has to do leads back to agreement. */
  predicate Healthy(s: System) {
    if s.holder.None? then Agree(s.world)
    else
      && s.holder.value in s.phase
      && match s.phase[s.holder.value]
         case Reading(op) => Steady(op, s.world)
         case Running(p) => Safe(p, s.world)
         case _ => false
  }

  /** An action that tells of no fault and of no race with an unlocked writer. */
  predicate Clean(s: System, a: Action)
    requires Enabled(s, a)
  {
    match a
    case Call(i, o) => !BlamesCommand(s.phase[i].prog.compensating, o)
    case Save(i, stored) => stored || !s.phase[i].prog.exposed
    case Barge(_) => false
    case Read(i, _) =>
      // The bot's delete works from the row it saw on arrival.
      Informed(s.phase[i].op, s.world.row) || Healthy(Next(s, a))
    case RejectWrite(i) => Healthy(Next(s, a))
    case SyncPush(i, delivered) => delivered ==> Healthy(Next(s, a))
    case _ => true
  }

  function Do(s: System, a: Action): System
    requires Enabled(s, a)
  {
    var z := Next(s, a);
    z.(tainted := if a.SyncPush? && a.delivered then !Healthy(z) else s.tainted || !Clean(s, a))
  }

  ghost predicate IsRun(s: System, actions: seq<Action>)
    decreases |actions|
  {
    actions == [] || (Enabled(s, actions[0]) && IsRun(Do(s, actions[0]), actions[1..]))
  }

  ghost function After(s: System, actions: seq<Action>): System
    requires IsRun(s, actions)
    decreases |actions|
  {
    if actions == [] then s else After(Do(s, actions[0]), actions[1..])
  }

  function Start(row: Option<Row>): System {
    System(World(row, Wanted(row)), None, map[], false)
  }

  // ----- The invariant --------------------------------------------------------

  ghost predicate Exclusive(s: System) {
    && (forall i :: i in s.phase && Critical(s.phase[i]) ==> s.holder == Some(i))
    && (s.holder.Some? ==> s.holder.value in s.phase && Critical(s.phase[s.holder.value]))
  }

  ghost predicate Inv(s: System) {
    Exclusive(s) && (s.tainted || Healthy(s))
  }

  /** Two worlds that differ at most in which inactive status the row has. */
  predicate Alike(s: World, t: World) {
    && s.agent == t.agent
    && (s.row.Some? <==> t.row.Some?)
    && (s.row.Some? ==>
          && s.row.value.wiring == t.row.value.wiring
          && (s.row.value.status == t.row.value.status || (!IsActive(s.row) && !IsActive(t.row))))
  }

  /** Safety of the holder's remaining calls does not depend on it. */
  lemma {:induction false} SafeIsStable(p: Prog, s: World, t: World)
    requires Alike(s, t) && Safe(p, s)
    ensures Safe(p, t)
    decreases p
  {
    match p
    case Done(_) =>
    case Send(c, comp, onApplied, onRefused, _) =>
      SafeIsStable(onApplied, Obey(c, Applied, s), Obey(c, Applied, t));
      if !comp {
        SafeIsStable(onRefused, s, t);
      }
    case Write(w, exposed, onStored, onFailed) =>
      SafeIsStable(onStored, Store(w, s), Store(w, t));
      if !exposed {
        SafeIsStable(onFailed, s, t);
      }
  }

  lemma AgreementIsSteady(op: Op, w: World)
    requires Agree(w)
    ensures Steady(op, w)
  {
    if Informed(op, w.row) {
      PlansAreSafe(op, w.row, w);
      PlansAreSafe(op, None, w);
    }
  }

  /** Nor does it matter to a request that is about to read. */
  lemma SteadyIsStable(op: Op, w: World, z: World)
    requires Steady(op, w) && Alike(w, z) && !IsActive(w.row)
    ensures Steady(op, z)
  {
    if op.BotDelete? {
      SafeIsStable(Plan(op, w.row), w, z);
    } else {
      assert Plan(op, None).Done?;
      AgreementIsSteady(op, z);
    }
  }

  /** An action that finds the locker working. */
  predicate Locked(actions: seq<Action>) {
    forall k :: 0 <= k < |actions| ==> !actions[k].Barge?
  }

  lemma StepKeepsExclusion(s: System, a: Action)
    requires Exclusive(s) && Enabled(s, a) && !a.Barge?
    ensures Exclusive(Do(s, a))
  {
  }

  lemma StepKeepsHealth(s: System, a: Action)
    requires Exclusive(s) && Healthy(s) && Enabled(s, a) && Clean(s, a)
    ensures Healthy(Do(s, a))
  {
    var t := Do(s, a);
    match a
    case Acquire(i) =>
      if s.holder.None? {
        AgreementIsSteady(s.phase[i].op, s.world);
      }
    case _ =>
  }

  /** From a healthy state a reject is harmless wherever the row is not active, and
      with the lock free only there; a sync with the lock free is harmless exactly
      if it carries what the row wants. */
  lemma RacesOutsideTheLock(s: System, i: Pid)
    requires Exclusive(s) && Healthy(s) && i in s.phase
    ensures s.phase[i].Rejecting? && !IsActive(s.world.row) ==> Clean(s, RejectWrite(i))
    ensures s.phase[i].Rejecting? && s.holder.None? ==> (Clean(s, RejectWrite(i)) <==> !IsActive(s.world.row))
    ensures s.phase[i].Pushing? && s.holder.None? ==>
      (Clean(s, SyncPush(i, true)) <==> s.phase[i].list == Wanted(s.world.row))
  {
    if s.phase[i].Rejecting? && !IsActive(s.world.row) && s.holder.Some? {
      var t := Next(s, RejectWrite(i));
      assert Alike(s.world, t.world);
      match s.phase[s.holder.value]
      case Running(p) => SafeIsStable(p, s.world, t.world);
      case Reading(op) => SteadyIsStable(op, s.world, t.world);
    }
  }

  /** From a healthy state, an action that may race is counted as a race exactly when
      it leaves an unhealthy one. */
  lemma RacesAreExact(s: System, a: Action)
    requires Exclusive(s) && Healthy(s) && Enabled(s, a) && (a.Read? || a.RejectWrite? || a.SyncPush?)
    ensures Clean(s, a) <==> Healthy(Do(s, a))
  {
    if Clean(s, a) {
      StepKeepsHealth(s, a);
    }
  }

  lemma StepKeepsInv(s: System, a: Action)
    requires Inv(s) && Enabled(s, a) && !a.Barge?
    ensures Inv(Do(s, a))
  {
    StepKeepsExclusion(s, a);
    if !s.tainted && Clean(s, a) {
      StepKeepsHealth(s, a);
    }
  }

  lemma {:induction false} RunsKeepInv(s: System, actions: seq<Action>)
    requires Inv(s) && IsRun(s, actions) && Locked(actions)
    ensures Inv(After(s, actions))
    decreases |actions|
  {
    if actions != [] {
      StepKeepsInv(s, actions[0]);
      RunsKeepInv(Do(s, actions[0]), actions[1..]);
    }
  }

  // ----- The theorems -----------------------------------------------------------

  /** While the locker works: in every reachable state at most one request is in its critical section,
      and outside every critical section the stores agree unless a tainting
      event has happened since the last sync that left things healthy. */
  lemma LockedRequestsAgree(row: Option<Row>, actions: seq<Action>)
    requires IsRun(Start(row), actions) && Locked(actions)
    ensures var s := After(Start(row), actions);
      && (forall i, j :: i in s.phase && j in s.phase && Critical(s.phase[i]) && Critical(s.phase[j]) ==> i == j)
      && (s.holder.None? && !s.tainted ==> Agree(s.world))
  {
    RunsKeepInv(Start(row), actions);
  }

  ghost predicate AllClean(s: System, actions: seq<Action>)
    requires IsRun(s, actions)
    decreases |actions|
  {
    actions == [] || (Clean(s, actions[0]) && AllClean(Do(s, actions[0]), actions[1..]))
  }

  lemma {:induction false} CleanRunsStayHealthy(s: System, actions: seq<Action>)
    requires Exclusive(s) && Healthy(s) && IsRun(s, actions) && AllClean(s, actions)
    ensures Healthy(After(s, actions))
    decreases |actions|
  {
    if actions != [] {
      StepKeepsExclusion(s, actions[0]);
      StepKeepsHealth(s, actions[0]);
      CleanRunsStayHealthy(Do(s, actions[0]), actions[1..]);
    }
  }

  /** Without faults and races, agreement holds whenever the lock is free. */
  lemma FaultFreeRunsAgree(row: Option<Row>, actions: seq<Action>)
    requires IsRun(Start(row), actions) && AllClean(Start(row), actions)
    ensures var s := After(Start(row), actions); s.holder.None? ==> Agree(s.world)
  {
    CleanRunsStayHealthy(Start(row), actions);
  }

  // ----- Health is exact ----------------------------------------------------------

  /** An unhealthy holder can finish, without any fault, with the stores apart. */
  lemma {:induction false} UnsafeHolderParts(s: System, i: Pid) returns (run: seq<Action>)
    requires s.holder == Some(i) && i in s.phase && s.phase[i].Running? && !Safe(s.phase[i].prog, s.world)
    ensures IsRun(s, run) && AllClean(s, run)
    ensures After(s, run).holder.None? && !Agree(After(s, run).world)
    decreases s.phase[i].prog
  {
    var p := s.phase[i].prog;
    var a;
    match p {
      case Done(_) => a := Release(i);
      case Send(c, comp, onApplied, onRefused, _) =>
        a := Call(i, if !Safe(onApplied, Obey(c, Applied, s.world)) then Applied else Refused);
      case Write(w, exposed, onStored, onFailed) =>
        a := Save(i, !Safe(onStored, Store(w, s.world)));
    }
    var rest := [];
    if !p.Done? {
      rest := UnsafeHolderParts(Do(s, a), i);
    }
    run := [a] + rest;
    assert run[1..] == rest;
  }

  lemma UnhealthyParts(s: System) returns (run: seq<Action>)
    requires Exclusive(s) && !Healthy(s)
    ensures IsRun(s, run) && AllClean(s, run)
    ensures After(s, run).holder.None? && !Agree(After(s, run).world)
  {
    run := [];
    if s.holder.Some? {
      var i := s.holder.value;
      match s.phase[i]
      case Running(p) => run := UnsafeHolderParts(s, i);
      case Reading(op) =>
        var a := Read(i, !Safe(Plan(op, s.world.row), s.world));
        var rest := UnsafeHolderParts(Do(s, a), i);
        run := [a] + rest;
        assert run[1..] == rest;
    }
  }

  /** Health is exactly what it should be: every continuation without faults and
      races agrees whenever the lock is free.  So a sync is counted as a race
      exactly when the requests under way, completing without a fault, can end
      with the stores apart. */
  lemma HealthIsExact(s: System)
    requires Exclusive(s)
    ensures Healthy(s) <==>
      forall run :: IsRun(s, run) && AllClean(s, run) && After(s, run).holder.None? ==> Agree(After(s, run).world)
  {
    if Healthy(s) {
      forall run | IsRun(s, run) && AllClean(s, run) && After(s, run).holder.None?
        ensures Agree(After(s, run).world)
      {
        CleanRunsStayHealthy(s, run);
      }
    } else {
      var run := UnhealthyParts(s);
      assert IsRun(s, run);
    }
  }

  // ----- Reconciliation heals -------------------------------------------------------

  lemma {:induction false} PendingPushKept(s: System, actions: seq<Action>, i: Pid)
    requires IsRun(s, actions) && i in s.phase && (s.phase[i].Pushing? || s.phase[i].Synced?)
    ensures var z := After(s, actions);
      i in z.phase && (z.phase[i] == s.phase[i] || z.phase[i].Synced?)
    decreases |actions|
  {
    if actions != [] {
      PendingPushKept(Do(s, actions[0]), actions[1..], i);
    }
  }

  /** After any run whatsoever, requests without the lock included: a sync delivered
      while no request is in its critical section restores agreement exactly when
      the agent's share of the row is what it was when the sync read it, whatever
      happened in between; clean runs keep it from there. */
  lemma ReconcileHeals(row: Option<Row>, faulty: seq<Action>, i: Pid, between: seq<Action>, clean: seq<Action>)
    requires IsRun(Start(row), faulty) && Enabled(After(Start(row), faulty), SyncRead(i, true))
    requires IsRun(Do(After(Start(row), faulty), SyncRead(i, true)), between)
    requires var m := After(Do(After(Start(row), faulty), SyncRead(i, true)), between);
             && Quiet(m) && Enabled(m, SyncPush(i, true))
             && IsRun(Do(m, SyncPush(i, true)), clean) && AllClean(Do(m, SyncPush(i, true)), clean)
    ensures var s := After(Start(row), faulty);
            var m := After(Do(s, SyncRead(i, true)), between);
            var healed := Do(m, SyncPush(i, true));
            && (Agree(healed.world) <==> Wanted(m.world.row) == Wanted(s.world.row))
            && (Agree(healed.world) && After(healed, clean).holder.None? ==> Agree(After(healed, clean).world))
  {
    var r := Do(After(Start(row), faulty), SyncRead(i, true));
    PendingPushKept(r, between, i);
    var healed := Do(After(r, between), SyncPush(i, true));
    if Agree(healed.world) {
      CleanRunsStayHealthy(healed, clean);
    }
  }

  /** No request is in its critical section, with or without the lock. */
  ghost predicate Quiet(s: System) {
    s.holder.None? && forall i :: i in s.phase ==> !Critical(s.phase[i])
  }

  // ----- Why the side conditions are there ------------------------------------

  lemma RunConcat(s: System, xs: seq<Action>, a: Action)
    requires IsRun(s, xs) && Enabled(After(s, xs), a)
    ensures IsRun(s, xs + [a]) && After(s, xs + [a]) == Do(After(s, xs), a)
    decreases |xs|
  {
    if xs == [] {
      assert (xs + [a])[1..] == [];
    } else {
      assert (xs + [a])[1..] == xs[1..] + [a];
      RunConcat(Do(s, xs[0]), xs[1..], a);
    }
  }

  /** What a suspension still has to do once the agent has removed the peer. */
  function Suspending(w: Wiring): Prog {
    Transition(Remove, Add(w), Suspended).onApplied
  }

  /** A reject that lands on an active row whose tunnel is down already is no race
      inside a deletion, which drops the row in any case; inside a suspension it is
      one, for if the status write fails the tunnel is put back. */
  lemma RejectInsideRemoval(s: System, i: Pid, j: Pid, w: Wiring)
    requires i in s.phase && s.phase[i].Rejecting? && s.holder == Some(j) && j in s.phase && s.phase[j].Running?
    requires s.world == World(Some(Row(Active, w)), None)
    ensures s.phase[j].prog == DeletePlan(Row(Active, w)).onApplied ==> Clean(s, RejectWrite(i))
    ensures s.phase[j].prog == Suspending(w) ==> !Clean(s, RejectWrite(i))
  {
    var t := Next(s, RejectWrite(i)).world;
    assert Safe(Done(Success), Store(DeleteRow, t));
    assert !Safe(Done(StoreFailed), Obey(Add(w), Applied, t));
    assert !Safe(Send(Add(w), true, Done(StoreFailed), Done(StoreFailed), Done(StoreFailed)), t);
    assert !Safe(Suspending(w), t);
  }

  /** A suspension runs until its command is acknowledged. */
  lemma SuspensionSends(s0: System, s: System, run: seq<Action>, i: Pid, w: Wiring)
    returns (t: System, longer: seq<Action>)
    requires IsRun(s0, run) && After(s0, run) == s
    requires i !in s.phase && s.holder.None? && s.world == World(Some(Row(Active, w)), Some(w))
    ensures IsRun(s0, longer) && After(s0, longer) == t
    ensures t.holder == Some(i) && t.world == World(Some(Row(Active, w)), None)
    ensures t.phase == s.phase[i := Running(Suspending(w))]
  {
    var s1, r1 := Extend(s0, s, run, Arrive(i, Suspend));
    var s2, r2 := Extend(s0, s1, r1, Acquire(i));
    var s3, r3 := Extend(s0, s2, r2, Read(i, true));
    var s4, r4 := Extend(s0, s3, r3, Call(i, Applied));
    t, longer := s4, r4;
  }

  /** A request whose only remaining call is a write that succeeds. */
  lemma SavesAndReleases(s0: System, s: System, run: seq<Action>, i: Pid) returns (t: System, longer: seq<Action>)
    requires IsRun(s0, run) && After(s0, run) == s
    requires i in s.phase && s.phase[i].Running? && s.phase[i].prog.Write? && s.phase[i].prog.onStored == Done(Success)
    ensures IsRun(s0, longer) && After(s0, longer) == t
    ensures t.world == Store(s.phase[i].prog.write, s.world) && t.phase == s.phase[i := Replied(Success)]
    ensures t.holder == if s.holder == Some(i) then None else s.holder
  {
    var s1, r1 := Extend(s0, s, run, Save(i, true));
    t, longer := Extend(s0, s1, r1, Release(i));
  }

  /** A sync inside a suspension restores the tunnel the suspension has just
      removed: no call fails, and the stores part. */
  lemma ReconcileCanRace(w: Wiring) returns (run: seq<Action>)
    ensures IsRun(Start(Some(Row(Active, w))), run)
    ensures var s := After(Start(Some(Row(Active, w))), run);
            && 0 in s.phase && s.phase[0] == Replied(Success)
            && s.holder.None? && !Agree(s.world)
  {
    var s0 := Start(Some(Row(Active, w)));
    var s1, r1 := SuspensionSends(s0, s0, [], 0, w);
    var s2, r2 := Extend(s0, s1, r1, SyncRead(1, true));
    var s3, r3 := Extend(s0, s2, r2, SyncPush(1, true));
    var s4, r4 := SavesAndReleases(s0, s3, r3, 0);
    run := r4;
  }

  /** A sync that reads before a suspension and is delivered after it does the
      same, although the lock is free at both moments. */
  lemma StaleSyncParts(w: Wiring) returns (run: seq<Action>)
    ensures IsRun(Start(Some(Row(Active, w))), run)
    ensures var s := After(Start(Some(Row(Active, w))), run);
            && 0 in s.phase && s.phase[0] == Replied(Success)
            && s.holder.None? && s.world == World(Some(Row(Suspended, w)), Some(w))
  {
    var s0 := Start(Some(Row(Active, w)));
    var s1, r1 := Extend(s0, s0, [], SyncRead(1, true));
    var s2, r2 := SuspensionSends(s0, s1, r1, 0, w);
    var s3, r3 := SavesAndReleases(s0, s2, r2, 0);
    var s4, r4 := Extend(s0, s3, r3, SyncPush(1, true));
    run := r4;
  }

  lemma Extend(s0: System, s: System, run: seq<Action>, a: Action) returns (t: System, longer: seq<Action>)
    requires IsRun(s0, run) && After(s0, run) == s && Enabled(s, a)
    ensures IsRun(s0, longer) && After(s0, longer) == t
    ensures t.world == Next(s, a).world && t.holder == Next(s, a).holder && t.phase == Next(s, a).phase
  {
    RunConcat(s0, run, a);
    t, longer := Do(s, a), run + [a];
  }

  /** An approval of a pending peer runs from arrival to release. */
  lemma ApprovalCompletes(s0: System, s: System, run: seq<Action>, i: Pid, w: Wiring)
    returns (t: System, longer: seq<Action>)
    requires IsRun(s0, run) && After(s0, run) == s
    requires i !in s.phase && s.holder.None? && s.world == World(Some(Row(Pending, w)), None)
    ensures IsRun(s0, longer) && After(s0, longer) == t
    ensures t.holder.None? && t.world == World(Some(Row(Active, w)), Some(w))
    ensures t.phase == s.phase[i := Replied(Success)]
  {
    var s1, r1 := ApprovalSends(s0, s, run, i, w);
    t, longer := SavesAndReleases(s0, s1, r1, i);
  }

  /** What an approval still has to do once the agent has added the peer. */
  function Approving(w: Wiring): Prog {
    Transition(Add(w), Remove, Active).onApplied
  }

  lemma ApprovalSends(s0: System, s: System, run: seq<Action>, i: Pid, w: Wiring)
    returns (t: System, longer: seq<Action>)
    requires IsRun(s0, run) && After(s0, run) == s
    requires i !in s.phase && s.holder.None? && s.world == World(Some(Row(Pending, w)), None)
    ensures IsRun(s0, longer) && After(s0, longer) == t
    ensures t.holder == Some(i) && t.world == World(Some(Row(Pending, w)), Some(w))
    ensures t.phase == s.phase[i := Running(Approving(w))]
  {
    var s1, r1 := Extend(s0, s, run, Arrive(i, Approve));
    var s2, r2 := Extend(s0, s1, r1, Acquire(i));
    var s3, r3 := Extend(s0, s2, r2, Read(i, true));
    var s4, r4 := Extend(s0, s3, r3, Call(i, Applied));
    t, longer := s4, r4;
  }

  /** The bot's delete reads the row before it takes the lock.  If an approval
      completes in between, the row goes and the tunnel stays. */
  lemma BotDeleteCanRace(w: Wiring) returns (run: seq<Action>)
    ensures IsRun(Start(Some(Row(Pending, w))), run)
    ensures var s := After(Start(Some(Row(Pending, w))), run);
            && 0 in s.phase && s.phase[0] == Replied(Success)
            && 1 in s.phase && s.phase[1] == Replied(Success)
            && s.holder.None? && s.world == World(None, Some(w))
  {
    var s0 := Start(Some(Row(Pending, w)));
    var s1, r1 := Extend(s0, s0, [], Arrive(1, BotDelete(Row(Pending, w), true)));
    var s2, r2 := ApprovalCompletes(s0, s1, r1, 0, w);
    var s3, r3 := Extend(s0, s2, r2, Acquire(1));
    var s4, r4 := Extend(s0, s3, r3, Read(1, true));
    var s5, r5 := SavesAndReleases(s0, s4, r4, 1);
    run := r5;
  }

  /** The reject handler checks the status and writes it in two steps, without
      the lock.  An approval in between is overwritten while its tunnel stays. */
  lemma RejectCanRace(w: Wiring) returns (run: seq<Action>)
    ensures IsRun(Start(Some(Row(Pending, w))), run)
    ensures var s := After(Start(Some(Row(Pending, w))), run);
            && 0 in s.phase && s.phase[0] == Replied(Success)
            && 1 in s.phase && s.phase[1] == Replied(Success)
            && s.holder.None? && s.world == World(Some(Row(Rejected, w)), Some(w))
  {
    var s0 := Start(Some(Row(Pending, w)));
    var s1, r1 := Extend(s0, s0, [], RejectRead(1));
    var s2, r2 := ApprovalCompletes(s0, s1, r1, 0, w);
    var s3, r3 := Extend(s0, s2, r2, RejectWrite(1));
    run := r3;
  }

  /** If acquiring the lock errs, a second request enters its critical section: a
      delete runs inside an approval, both succeed, and the tunnel stays without a
      row, although no command and no write failed. */
  lemma UnlockedRunsDiverge(w: Wiring) returns (run: seq<Action>)
    ensures IsRun(Start(Some(Row(Pending, w))), run)
    ensures var s := After(Start(Some(Row(Pending, w))), run);
            && 0 in s.phase && s.phase[0] == Replied(Success)
            && 1 in s.phase && s.phase[1] == Replied(Success)
            && Quiet(s) && s.world == World(None, Some(w))
  {
    var s0 := Start(Some(Row(Pending, w)));
    var s1, r1 := ApprovalSends(s0, s0, [], 0, w);
    var s2, r2 := DeletionBarges(s0, s1, r1, 1, w);
    var s3, r3 := SavesAndReleases(s0, s2, r2, 0);
    run := r3;
  }

  /** A deletion of a pending peer that goes on without the lock. */
  lemma DeletionBarges(s0: System, s: System, run: seq<Action>, i: Pid, w: Wiring)
    returns (t: System, longer: seq<Action>)
    requires IsRun(s0, run) && After(s0, run) == s
    requires i !in s.phase && s.holder != Some(i) && s.world.row == Some(Row(Pending, w))
    ensures IsRun(s0, longer) && After(s0, longer) == t
    ensures t.holder == s.holder && t.world == World(None, s.world.agent)
    ensures t.phase == s.phase[i := Replied(Success)]
  {
    var s1, r1 := Extend(s0, s, run, Arrive(i, AdminDelete));
    var s2, r2 := Extend(s0, s1, r1, Barge(i));
    var s3, r3 := Extend(s0, s2, r2, Read(i, true));
    t, longer := SavesAndReleases(s0, s3, r3, i);
  }
}
