/**
  The peer lifecycle as a protocol over two stores.

  A peer lives in a database row and, while it is active, in the WireGuard/BIRD
  configuration of its node's agent.  Every lifecycle handler sends `peer.add` /
  `peer.remove` to the agent, writes the row, and compensates when the write
  fails.  `Plan` gives each handler as the finite tree of calls it may make;
  `Exec` runs such a tree against one resolution of all outcomes.  The class
  `PeerController` holds the handlers in their imperative form and is proved to
  follow the trees.
 */
module PeerLifecycle {
  import opened Common

  datatype Status = Pending | Active | Suspended | Rejected

  /** The columns a `peer.add` payload carries. */
  datatype Wiring = Wiring(
    asn: int, endpoint: string, pubkey: string, lla: string,
    port: int, iface: string, mtu: Option<int>, psk: Option<string>)

  datatype Row = Row(status: Status, wiring: Wiring)

  /** One peer: its row, and what its node's agent has configured for it. */
  datatype World = World(row: Option<Row>, agent: Option<Wiring>)

  /** What the agent ought to run, given the row. */
  function Wanted(row: Option<Row>): Option<Wiring> {
    if row.Some? && row.value.status.Active? then Some(row.value.wiring) else None
  }

  predicate Agree(s: World) {
    s.agent == Wanted(s.row)
  }

  // ----- Calls and their outcomes -------------------------------------------

  datatype Command = Add(wiring: Wiring) | Remove

  /** A command is acknowledged, refused by the agent, or its reply is lost, in
      which case nobody knows whether the agent carried it out. */
  datatype CmdOutcome = Applied | Refused | Lost(took: bool)

  datatype DbWrite =
    | SetStatus(status: Status)
    | SetFields(endpoint: string, pubkey: string, lla: string, mtu: Option<int>)
    | DeleteRow

  predicate Effective(o: CmdOutcome) {
    o.Applied? || (o.Lost? && o.took)
  }

  function Obey(c: Command, o: CmdOutcome, s: World): World {
    if !Effective(o) then s
    else match c
      case Add(w) => s.(agent := Some(w))
      case Remove => s.(agent := None)
  }

  /** An UPDATE or DELETE of a row that is gone succeeds and does nothing. */
  function Store(w: DbWrite, s: World): World {
    if s.row.None? then s
    else match w
      case SetStatus(st) => s.(row := Some(s.row.value.(status := st)))
      case SetFields(e, k, l, m) =>
        s.(row := Some(s.row.value.(wiring := s.row.value.wiring.(endpoint := e, pubkey := k, lla := l, mtu := m))))
      case DeleteRow => s.(row := None)
  }

  // ----- Handlers as trees of calls -----------------------------------------

  datatype Reply =
    | Success | NotFound | BadRequest | AgentUnreachable | AgentRefused | StoreFailed

  /** `compensating` marks a command sent to undo an earlier one; `exposed`
      marks a write whose failure the handler does not compensate although
      commands have been acknowledged before it. */
  datatype Prog =
    | Done(reply: Reply)
    | Send(command: Command, compensating: bool, onApplied: Prog, onRefused: Prog, onLost: Prog)
    | Write(write: DbWrite, exposed: bool, onStored: Prog, onFailed: Prog)

  /** The decoded body of an update; `syntaxOk` is the verdict of the key,
      endpoint and address validators. */
  datatype Patch = Patch(
    pubkey: Option<string>, endpoint: Option<string>, lla: Option<string>,
    mtuSet: bool, mtu: Option<int>, syntaxOk: bool)

  predicate ValidPatch(p: Patch) {
    && (p.pubkey.Some? || p.endpoint.Some? || p.lla.Some? || p.mtuSet)
    && p.syntaxOk
    && (p.mtuSet && p.mtu.Some? ==> 576 <= p.mtu.value <= 9000)
  }

  function Patched(w: Wiring, p: Patch): Wiring {
    w.(endpoint := if p.endpoint.Some? then p.endpoint.value else w.endpoint,
       pubkey := if p.pubkey.Some? then p.pubkey.value else w.pubkey,
       lla := if p.lla.Some? then p.lla.value else w.lla,
       mtu := if p.mtuSet then p.mtu else w.mtu)
  }

  /** The requests that take the lock `peer:<id>`.  `BotDelete` carries the row
      it read before it took the lock, and whether the node was connected. */
  datatype Op =
    | Approve | Suspend | Unsuspend
    | AdminDelete | AdminUpdate(patch: Patch)
    | UserDelete(asn: int) | UserUpdate(asn: int, patch: Patch)
    | BotDelete(seen: Row, online: bool)

  /** Command, then status write, then the undoing command if the write fails. */
  function Transition(command: Command, undo: Command, target: Status): Prog {
    Send(command, false,
         Write(SetStatus(target), false,
               Done(Success),
               Send(undo, true, Done(StoreFailed), Done(StoreFailed), Done(StoreFailed))),
         Done(AgentRefused),
         Done(AgentUnreachable))
  }

  function DeletePlan(row: Row): Prog {
    var erase := Write(DeleteRow, row.status.Active?, Done(Success), Done(StoreFailed));
    if row.status.Active? then Send(Remove, false, erase, Done(AgentRefused), Done(AgentUnreachable))
    else erase
  }

  function FieldsOf(w: Wiring): DbWrite {
    SetFields(w.endpoint, w.pubkey, w.lla, w.mtu)
  }

  function UpdatePlan(row: Row, patch: Patch): Prog {
    var updated := Patched(row.wiring, patch);
    var save := Write(FieldsOf(updated), row.status.Active?, Done(Success), Done(StoreFailed));
    if row.status.Active? then
      Send(Remove, false,
           Send(Add(updated), false, save,
                Send(Add(row.wiring), true, Done(AgentRefused), Done(AgentRefused), Done(AgentRefused)),
                Send(Add(row.wiring), true, Done(AgentUnreachable), Done(AgentUnreachable), Done(AgentUnreachable))),
           Done(AgentRefused),
           Done(AgentUnreachable))
    else save
  }

  /** The bot's delete ignores the agent's answer. */
  function BotDeletePlan(seen: Row, online: bool): Prog {
    var erase := Write(DeleteRow, seen.status.Active?, Done(Success), Done(StoreFailed));
    if seen.status.Active? && online then Send(Remove, true, erase, erase, erase) else erase
  }

  /** The calls a request makes once it has read `row` (None: the read failed or
      found nothing). */
  function Plan(op: Op, row: Option<Row>): Prog {
    match op
    case AdminUpdate(patch) =>
      if !ValidPatch(patch) then Done(BadRequest)
      else if row.None? then Done(NotFound)
      else UpdatePlan(row.value, patch)
    case UserUpdate(asn, patch) =>
      if !ValidPatch(patch) then Done(BadRequest)
      else if row.None? || row.value.wiring.asn != asn then Done(NotFound)
      else if !row.value.status.Pending? && !row.value.status.Active? then Done(BadRequest)
      else UpdatePlan(row.value, patch)
    case BotDelete(seen, online) => BotDeletePlan(seen, online)
    case Approve =>
      if row.None? || !row.value.status.Pending? then Done(NotFound)
      else Transition(Add(row.value.wiring), Remove, Active)
    case Suspend =>
      if row.None? || !row.value.status.Active? then Done(NotFound)
      else Transition(Remove, Add(row.value.wiring), Suspended)
    case Unsuspend =>
      if row.None? || !row.value.status.Suspended? then Done(NotFound)
      else Transition(Add(row.value.wiring), Remove, Active)
    case AdminDelete =>
      if row.None? then Done(NotFound) else DeletePlan(row.value)
    case UserDelete(asn) =>
      if row.None? || row.value.wiring.asn != asn then Done(NotFound) else DeletePlan(row.value)
  }

  // ----- Running a tree ------------------------------------------------------

  /** One resolution of everything a handler cannot control: the outcome of its
      first, second and third command, and whether its write is stored. */
  datatype Env = Env(c1: CmdOutcome, c2: CmdOutcome, c3: CmdOutcome, stored: bool) {
    function Later(): Env { Env(c2, c3, c3, stored) }
  }

  /** `blamed` records that the run met an event that may part the two stores. */
  datatype Run = Run(world: World, reply: Reply, blamed: bool)

  predicate BlamesCommand(compensating: bool, o: CmdOutcome) {
    o.Lost? || (compensating && !o.Applied?)
  }

  function Exec(p: Prog, s: World, env: Env): Run
    decreases p
  {
    match p
    case Done(reply) => Run(s, reply, false)
    case Send(c, comp, onApplied, onRefused, onLost) =>
      var next := if env.c1.Applied? then onApplied else if env.c1.Refused? then onRefused else onLost;
      var r := Exec(next, Obey(c, env.c1, s), env.Later());
      r.(blamed := r.blamed || BlamesCommand(comp, env.c1))
    case Write(w, exposed, onStored, onFailed) =>
      if env.stored then Exec(onStored, Store(w, s), env)
      else
        var r := Exec(onFailed, s, env);
        r.(blamed := r.blamed || exposed)
  }

  /** Every completion of `p` from `s` that meets no blamed event ends in agreement. */
  predicate Safe(p: Prog, s: World) {
    match p
    case Done(_) => Agree(s)
    case Send(c, comp, onApplied, onRefused, _) =>
      && Safe(onApplied, Obey(c, Applied, s))
      && (comp || Safe(onRefused, s))
    case Write(w, exposed, onStored, onFailed) =>
      && Safe(onStored, Store(w, s))
      && (exposed || Safe(onFailed, s))
  }

  lemma {:induction false} SafeRunsAgree(p: Prog, s: World, env: Env)
    requires Safe(p, s)
    ensures var r := Exec(p, s, env); !r.blamed ==> Agree(r.world)
    decreases p
  {
    match p
    case Done(_) =>
    case Send(c, comp, onApplied, onRefused, onLost) =>
      if env.c1.Applied? {
        SafeRunsAgree(onApplied, Obey(c, env.c1, s), env.Later());
      } else if env.c1.Refused? && !comp {
        SafeRunsAgree(onRefused, Obey(c, env.c1, s), env.Later());
      }
    case Write(w, exposed, onStored, onFailed) =>
      if env.stored {
        SafeRunsAgree(onStored, Store(w, s), env);
      } else if !exposed {
        SafeRunsAgree(onFailed, s, env);
      }
  }

  // ----- Safety is exact --------------------------------------------------------

  function Most(a: nat, b: nat): nat { if a < b then b else a }

  /** The longest chain of commands, and of writes, in a tree. */
  function Sends(p: Prog): nat {
    match p
    case Done(_) => 0
    case Send(_, _, a, r, l) => 1 + Most(Sends(a), Most(Sends(r), Sends(l)))
    case Write(_, _, t, f) => Most(Sends(t), Sends(f))
  }

  function Writes(p: Prog): nat {
    match p
    case Done(_) => 0
    case Send(_, _, a, r, l) => Most(Writes(a), Most(Writes(r), Writes(l)))
    case Write(_, _, t, f) => 1 + Most(Writes(t), Writes(f))
  }

  lemma PlansAreShort(op: Op, row: Option<Row>)
    ensures Sends(Plan(op, row)) <= 3 && Writes(Plan(op, row)) <= 1
  {
    match op
    case BotDelete(seen, online) => BotDeletePlanIsShort(seen, online);
    case AdminUpdate(patch) => if row.Some? { UpdatePlanIsShort(row.value, patch); }
    case UserUpdate(_, patch) => if row.Some? { UpdatePlanIsShort(row.value, patch); }
    case AdminDelete => if row.Some? { DeletePlanIsShort(row.value); }
    case UserDelete(_) => if row.Some? { DeletePlanIsShort(row.value); }
    case Approve => if row.Some? { TransitionIsShort(Add(row.value.wiring), Remove, Active); }
    case Suspend => if row.Some? { TransitionIsShort(Remove, Add(row.value.wiring), Suspended); }
    case Unsuspend => if row.Some? { TransitionIsShort(Add(row.value.wiring), Remove, Active); }
  }

  lemma TransitionIsShort(c: Command, undo: Command, target: Status)
    ensures Sends(Transition(c, undo, target)) <= 3 && Writes(Transition(c, undo, target)) <= 1
  {
    var undoing := Send(undo, true, Done(StoreFailed), Done(StoreFailed), Done(StoreFailed));
    assert Writes(Done(Success)) == 0 && Writes(Done(StoreFailed)) == 0;
    assert Sends(Done(Success)) == 0 && Sends(Done(StoreFailed)) == 0;
    assert Sends(undoing) == 1 && Writes(undoing) == 0;
    var write := Write(SetStatus(target), false, Done(Success), undoing);
    assert Sends(write) == 1 && Writes(write) == 1;
  }

  lemma DeletePlanIsShort(row: Row)
    ensures Sends(DeletePlan(row)) <= 3 && Writes(DeletePlan(row)) <= 1
  {
    var erase := Write(DeleteRow, row.status.Active?, Done(Success), Done(StoreFailed));
    assert Writes(Done(Success)) == 0 && Writes(Done(StoreFailed)) == 0;
    assert Sends(Done(Success)) == 0 && Sends(Done(StoreFailed)) == 0;
    assert Sends(erase) == 0 && Writes(erase) == 1;
  }

  lemma BotDeletePlanIsShort(seen: Row, online: bool)
    ensures Sends(BotDeletePlan(seen, online)) <= 3 && Writes(BotDeletePlan(seen, online)) <= 1
  {
    var erase := Write(DeleteRow, seen.status.Active?, Done(Success), Done(StoreFailed));
    assert Writes(Done(Success)) == 0 && Writes(Done(StoreFailed)) == 0;
    assert Sends(Done(Success)) == 0 && Sends(Done(StoreFailed)) == 0;
    assert Sends(erase) == 0 && Writes(erase) == 1;
  }

  lemma UpdatePlanIsShort(row: Row, patch: Patch)
    ensures Sends(UpdatePlan(row, patch)) <= 3 && Writes(UpdatePlan(row, patch)) <= 1
  {
    var updated := Patched(row.wiring, patch);
    var save := Write(FieldsOf(updated), row.status.Active?, Done(Success), Done(StoreFailed));
    assert Writes(Done(Success)) == 0 && Writes(Done(StoreFailed)) == 0;
    assert Sends(Done(Success)) == 0 && Sends(Done(StoreFailed)) == 0;
    assert Sends(save) == 0 && Writes(save) == 1;
    var back1 := Send(Add(row.wiring), true, Done(AgentRefused), Done(AgentRefused), Done(AgentRefused));
    var back2 := Send(Add(row.wiring), true, Done(AgentUnreachable), Done(AgentUnreachable), Done(AgentUnreachable));
    assert Sends(back1) == 1 && Sends(back2) == 1 && Writes(back1) == 0 && Writes(back2) == 0;
    var second := Send(Add(updated), false, save, back1, back2);
    assert Sends(second) == 2 && Writes(second) == 1;
  }

  /** The first `n` outcomes of two resolutions are the same. */
  predicate SameOutcomes(e: Env, f: Env, n: nat) {
    (n >= 1 ==> e.c1 == f.c1) && (n >= 2 ==> e.c2 == f.c2) && (n >= 3 ==> e.c3 == f.c3)
  }

  /** A tree depends on no more outcomes than it has calls. */
  lemma {:induction false} ExecSame(p: Prog, s: World, e: Env, f: Env)
    requires Sends(p) <= 3 && SameOutcomes(e, f, Sends(p)) && (Writes(p) == 0 || e.stored == f.stored)
    ensures Exec(p, s, e) == Exec(p, s, f)
    decreases p
  {
    match p
    case Done(_) =>
    case Send(c, _, onApplied, onRefused, onLost) =>
      var next := if e.c1.Applied? then onApplied else if e.c1.Refused? then onRefused else onLost;
      ExecSame(next, Obey(c, e.c1, s), e.Later(), f.Later());
    case Write(w, _, onStored, onFailed) =>
      if e.stored {
        ExecSame(onStored, Store(w, s), e, f);
      } else {
        ExecSame(onFailed, s, e, f);
      }
  }

  /** An unsafe tree has a run without a blamed event that ends in disagreement. */
  lemma {:induction false} UnsafeRunsPart(p: Prog, s: World) returns (env: Env)
    requires !Safe(p, s) && Sends(p) <= 3 && Writes(p) <= 1
    ensures var r := Exec(p, s, env); !r.blamed && !Agree(r.world)
    decreases p
  {
    match p
    case Done(_) =>
      env := Env(Applied, Applied, Applied, true);
    case Send(c, comp, onApplied, onRefused, _) =>
      var applied := !Safe(onApplied, Obey(c, Applied, s));
      var next := if applied then onApplied else onRefused;
      var first := if applied then Applied else Refused;
      var later := UnsafeRunsPart(next, Obey(c, first, s));
      env := Env(first, later.c1, later.c2, later.stored);
      ExecSame(next, Obey(c, first, s), later, env.Later());
    case Write(w, exposed, onStored, onFailed) =>
      var stored := !Safe(onStored, Store(w, s));
      var next, z := if stored then onStored else onFailed, if stored then Store(w, s) else s;
      var later := UnsafeRunsPart(next, z);
      env := later.(stored := stored);
      ExecSame(next, z, later, env);
  }

  /** Safety says exactly what it should: every run of the tree without a blamed
      event ends in agreement.  The trees of all requests are short enough. */
  lemma SafeIsExact(p: Prog, s: World)
    requires Sends(p) <= 3 && Writes(p) <= 1
    ensures Safe(p, s) <==> forall env :: !Exec(p, s, env).blamed ==> Agree(Exec(p, s, env).world)
  {
    if Safe(p, s) {
      forall env ensures !Exec(p, s, env).blamed ==> Agree(Exec(p, s, env).world) {
        SafeRunsAgree(p, s, env);
      }
    } else {
      var env := UnsafeRunsPart(p, s);
      assert !Exec(p, s, env).blamed;
    }
  }

  /** The bot's delete of an active peer will tell the agent: the row it read before
      it took the lock was active already, and the node is connected. */
  predicate Informed(op: Op, row: Option<Row>) {
    op.BotDelete? && row.Some? && row.value.status.Active? ==> op.seen.status.Active? && op.online
  }

  /** From an agreeing state every request is safe, whatever its read gave, except
      exactly the bot's delete that is not informed. */
  lemma PlansAreSafe(op: Op, row: Option<Row>, s: World)
    requires Agree(s) && (row == s.row || row.None?)
    ensures Safe(Plan(op, row), s) <==> Informed(op, s.row)
  {
    if Informed(op, s.row) {
      InformedPlansAreSafe(op, row, s);
    } else {
      assert !Safe(Done(Success), Store(DeleteRow, s));
    }
  }

  lemma InformedPlansAreSafe(op: Op, row: Option<Row>, s: World)
    requires Agree(s) && (row == s.row || row.None?)
    requires Informed(op, s.row)
    ensures Safe(Plan(op, row), s)
  {
    match op
    case BotDelete(seen, online) =>
      var erase := Write(DeleteRow, seen.status.Active?, Done(Success), Done(StoreFailed));
      assert Safe(Done(Success), Store(DeleteRow, Obey(Remove, Applied, s)));
      if seen.status.Active? && online {
        assert Safe(erase, Obey(Remove, Applied, s));
      }
    case UserUpdate(_, patch) => if row.Some? { UpdatePlanSafe(row.value, patch, s); }
    case AdminUpdate(patch) => if row.Some? { UpdatePlanSafe(row.value, patch, s); }
    case _ =>
      if row.Some? {
        TransitionSafe(row.value, s);
        DeletePlanSafe(row.value, s);
      }
  }

  lemma TransitionSafe(row: Row, s: World)
    requires Agree(s) && s.row == Some(row)
    ensures !row.status.Active? ==> Safe(Transition(Add(row.wiring), Remove, Active), s)
    ensures row.status.Active? ==> Safe(Transition(Remove, Add(row.wiring), Suspended), s)
  {
    if row.status.Active? {
      var gone := Obey(Remove, Applied, s);
      assert Safe(Done(Success), Store(SetStatus(Suspended), gone));
      assert Safe(Done(StoreFailed), Obey(Add(row.wiring), Applied, gone));
    } else {
      var there := Obey(Add(row.wiring), Applied, s);
      assert Safe(Done(Success), Store(SetStatus(Active), there));
      assert Safe(Done(StoreFailed), Obey(Remove, Applied, there));
    }
  }

  lemma DeletePlanSafe(row: Row, s: World)
    requires Agree(s) && s.row == Some(row)
    ensures Safe(DeletePlan(row), s)
  {
    var erase := Write(DeleteRow, row.status.Active?, Done(Success), Done(StoreFailed));
    if row.status.Active? {
      assert Safe(Done(Success), Store(DeleteRow, Obey(Remove, Applied, s)));
      assert Safe(erase, Obey(Remove, Applied, s));
    }
  }

  lemma UpdatePlanSafe(row: Row, patch: Patch, s: World)
    requires Agree(s) && s.row == Some(row)
    ensures Safe(UpdatePlan(row, patch), s)
  {
    var updated := Patched(row.wiring, patch);
    var save := Write(FieldsOf(updated), row.status.Active?, Done(Success), Done(StoreFailed));
    if row.status.Active? {
      var gone := Obey(Remove, Applied, s);
      var readded := Obey(Add(updated), Applied, gone);
      assert Safe(Done(Success), Store(FieldsOf(updated), readded));
      assert Safe(save, readded);
      var restored := Obey(Add(row.wiring), Applied, gone);
      assert restored == s;
      assert Safe(Send(Add(row.wiring), true, Done(AgentRefused), Done(AgentRefused), Done(AgentRefused)), gone);
      var second := Send(Add(updated), false, save,
                Send(Add(row.wiring), true, Done(AgentRefused), Done(AgentRefused), Done(AgentRefused)),
                Send(Add(row.wiring), true, Done(AgentUnreachable), Done(AgentUnreachable), Done(AgentUnreachable)));
      assert Safe(second, gone);
    } else {
      assert Safe(Done(Success), Store(FieldsOf(updated), s));
    }
  }

  // ----- When exactly do the stores part? ------------------------------------

  /** The work a request does once its guards have passed. */
  datatype Work =
    | Nothing | Toggling | Erasing | Rewiring(before: Wiring, after: Wiring)
    | Dropping(told: bool)   // the bot's delete of an active peer; `told`: it sends the command

  /** The bot's delete sends the command only if it saw an active row and a
      connected node. */
  predicate Tells(op: Op) {
    op.BotDelete? && op.seen.status.Active? && op.online
  }

  function WorkOf(op: Op, row: Option<Row>): Work {
    if row.None? then Nothing
    else match op
      case Approve => if row.value.status.Pending? then Toggling else Nothing
      case Suspend => if row.value.status.Active? then Toggling else Nothing
      case Unsuspend => if row.value.status.Suspended? then Toggling else Nothing
      case AdminDelete => if row.value.status.Active? then Erasing else Nothing
      case UserDelete(asn) =>
        if row.value.status.Active? && asn == row.value.wiring.asn then Erasing else Nothing
      case AdminUpdate(p) =>
        if ValidPatch(p) && row.value.status.Active?
        then Rewiring(row.value.wiring, Patched(row.value.wiring, p)) else Nothing
      case UserUpdate(asn, p) =>
        if ValidPatch(p) && row.value.status.Active? && asn == row.value.wiring.asn
        then Rewiring(row.value.wiring, Patched(row.value.wiring, p)) else Nothing
      case BotDelete(_, _) => if row.value.status.Active? then Dropping(Tells(op)) else Nothing
  }

  /** Read off the outcomes alone: which of them leave the stores apart. */
  predicate Diverging(work: Work, env: Env) {
    match work
    case Nothing => false
    case Toggling =>
      || env.c1 == Lost(true)
      || (env.c1.Applied? && !env.stored && !Effective(env.c2))
    case Erasing =>
      || env.c1 == Lost(true)
      || (env.c1.Applied? && !env.stored)
    case Rewiring(before, after) =>
      || env.c1 == Lost(true)
      || (env.c1.Applied? && env.c2.Applied? && !env.stored && after != before)
      || (env.c1.Applied? && !env.c2.Applied? && !Effective(env.c3) && (after != before || !Effective(env.c2)))
    case Dropping(told) =>
      if told then Effective(env.c1) != env.stored else env.stored
  }

  // Each tree unrolled into the run it leads to.

  function Toggled(c: Command, undo: Command, target: Status, s: World, env: Env): Run {
    var s1 := Obey(c, env.c1, s);
    if env.c1.Lost? then Run(s1, AgentUnreachable, true)
    else if env.c1.Refused? then Run(s1, AgentRefused, false)
    else if env.stored then Run(Store(SetStatus(target), s1), Success, false)
    else Run(Obey(undo, env.c2, s1), StoreFailed, !env.c2.Applied?)
  }

  function Erased(row: Row, s: World, env: Env): Run {
    var s1 := if row.status.Active? then Obey(Remove, env.c1, s) else s;
    if row.status.Active? && env.c1.Lost? then Run(s1, AgentUnreachable, true)
    else if row.status.Active? && env.c1.Refused? then Run(s1, AgentRefused, false)
    else if env.stored then Run(Store(DeleteRow, s1), Success, false)
    else Run(s1, StoreFailed, row.status.Active?)
  }

  function Rewired(row: Row, patch: Patch, s: World, env: Env): Run {
    var updated := Patched(row.wiring, patch);
    var s1 := if row.status.Active? then Obey(Remove, env.c1, s) else s;
    var s2 := if row.status.Active? then Obey(Add(updated), env.c2, s1) else s;
    if row.status.Active? && !env.c1.Applied? then
      Run(s1, if env.c1.Lost? then AgentUnreachable else AgentRefused, env.c1.Lost?)
    else if row.status.Active? && !env.c2.Applied? then
      Run(Obey(Add(row.wiring), env.c3, s2), if env.c2.Lost? then AgentUnreachable else AgentRefused,
          env.c2.Lost? || !env.c3.Applied?)
    else if env.stored then Run(Store(FieldsOf(updated), s2), Success, false)
    else Run(s2, StoreFailed, row.status.Active?)
  }

  function Dropped(op: Op, s: World, env: Env): Run
    requires op.BotDelete?
  {
    var s1 := if Tells(op) then Obey(Remove, env.c1, s) else s;
    var ignored := Tells(op) && !env.c1.Applied?;
    if env.stored then Run(Store(DeleteRow, s1), Success, ignored)
    else Run(s1, StoreFailed, ignored || op.seen.status.Active?)
  }

  lemma TransitionExec(c: Command, undo: Command, target: Status, s: World, env: Env)
    ensures Exec(Transition(c, undo, target), s, env) == Toggled(c, undo, target, s, env)
  {
    var s1 := Obey(c, env.c1, s);
    var undoing := Send(undo, true, Done(StoreFailed), Done(StoreFailed), Done(StoreFailed));
    assert Exec(undoing, s1, env.Later()) == Run(Obey(undo, env.c2, s1), StoreFailed, !env.c2.Applied?);
    assert Exec(Write(SetStatus(target), false, Done(Success), undoing), s1, env.Later())
        == if env.stored then Run(Store(SetStatus(target), s1), Success, false)
           else Exec(undoing, s1, env.Later());
  }

  lemma DeleteExec(row: Row, s: World, env: Env)
    ensures Exec(DeletePlan(row), s, env) == Erased(row, s, env)
  {
    var s1 := Obey(Remove, env.c1, s);
    var erase := Write(DeleteRow, row.status.Active?, Done(Success), Done(StoreFailed));
    assert Exec(erase, s1, env.Later())
        == if env.stored then Run(Store(DeleteRow, s1), Success, false) else Run(s1, StoreFailed, row.status.Active?);
  }

  lemma UpdateExec(row: Row, patch: Patch, s: World, env: Env)
    ensures Exec(UpdatePlan(row, patch), s, env) == Rewired(row, patch, s, env)
  {
    var updated := Patched(row.wiring, patch);
    var save := Write(FieldsOf(updated), row.status.Active?, Done(Success), Done(StoreFailed));
    if row.status.Active? {
      var e1, e2 := env.Later(), env.Later().Later();
      var s1 := Obey(Remove, env.c1, s);
      var s2 := Obey(Add(updated), env.c2, s1);
      assert Exec(save, s2, e2)
          == if env.stored then Run(Store(FieldsOf(updated), s2), Success, false) else Run(s2, StoreFailed, true);
      var back1 := Send(Add(row.wiring), true, Done(AgentRefused), Done(AgentRefused), Done(AgentRefused));
      var back2 := Send(Add(row.wiring), true, Done(AgentUnreachable), Done(AgentUnreachable), Done(AgentUnreachable));
      assert Exec(back1, s2, e2) == Run(Obey(Add(row.wiring), env.c3, s2), AgentRefused, !env.c3.Applied?);
      assert Exec(back2, s2, e2) == Run(Obey(Add(row.wiring), env.c3, s2), AgentUnreachable, !env.c3.Applied?);
      var r := Exec(Send(Add(updated), false, save, back1, back2), s1, e1);
      assert r == if env.c2.Applied? then Exec(save, s2, e2)
                  else if env.c2.Refused? then Exec(back1, s2, e2)
                  else Exec(back2, s2, e2).(blamed := true);
    }
  }

  lemma DropExec(op: Op, s: World, env: Env)
    requires op.BotDelete?
    ensures Exec(BotDeletePlan(op.seen, op.online), s, env) == Dropped(op, s, env)
  {
    var erase := Write(DeleteRow, op.seen.status.Active?, Done(Success), Done(StoreFailed));
    var s1 := Obey(Remove, env.c1, s);
    assert Exec(erase, s1, env.Later())
        == if env.stored then Run(Store(DeleteRow, s1), Success, false)
           else Run(s1, StoreFailed, op.seen.status.Active?);
  }

  /** The run of a request, without the tree. */
  function Closed(op: Op, s: World, env: Env): Run {
    var row := s.row;
    match op
    case BotDelete(_, _) => Dropped(op, s, env)
    case Approve =>
      if row.None? || !row.value.status.Pending? then Run(s, NotFound, false)
      else Toggled(Add(row.value.wiring), Remove, Active, s, env)
    case Suspend =>
      if row.None? || !row.value.status.Active? then Run(s, NotFound, false)
      else Toggled(Remove, Add(row.value.wiring), Suspended, s, env)
    case Unsuspend =>
      if row.None? || !row.value.status.Suspended? then Run(s, NotFound, false)
      else Toggled(Add(row.value.wiring), Remove, Active, s, env)
    case AdminDelete =>
      if row.None? then Run(s, NotFound, false) else Erased(row.value, s, env)
    case UserDelete(asn) =>
      if row.None? || row.value.wiring.asn != asn then Run(s, NotFound, false) else Erased(row.value, s, env)
    case AdminUpdate(patch) =>
      if !ValidPatch(patch) then Run(s, BadRequest, false)
      else if row.None? then Run(s, NotFound, false)
      else Rewired(row.value, patch, s, env)
    case UserUpdate(asn, patch) =>
      if !ValidPatch(patch) then Run(s, BadRequest, false)
      else if row.None? || row.value.wiring.asn != asn then Run(s, NotFound, false)
      else if !row.value.status.Pending? && !row.value.status.Active? then Run(s, BadRequest, false)
      else Rewired(row.value, patch, s, env)
  }

  lemma ExecIsClosed(op: Op, s: World, env: Env)
    ensures Exec(Plan(op, s.row), s, env) == Closed(op, s, env)
  {
    if op.BotDelete? {
      DropExec(op, s, env);
    } else if s.row.Some? {
      var row := s.row.value;
      match op
      case UserUpdate(_, patch) => UpdateExec(row, patch, s, env);
      case AdminUpdate(patch) => UpdateExec(row, patch, s, env);
      case UserDelete(_) => DeleteExec(row, s, env);
      case AdminDelete => DeleteExec(row, s, env);
      case Suspend => TransitionExec(Remove, Add(row.wiring), Suspended, s, env);
      case Approve => TransitionExec(Add(row.wiring), Remove, Active, s, env);
      case Unsuspend => TransitionExec(Add(row.wiring), Remove, Active, s, env);
    }
  }

  /** A request started in agreement ends in disagreement exactly on the
      outcomes `Diverging` names. */
  lemma DivergenceIsExact(op: Op, s: World, env: Env)
    requires Agree(s)
    ensures Agree(Exec(Plan(op, s.row), s, env).world) <==> !Diverging(WorkOf(op, s.row), env)
  {
    ExecIsClosed(op, s, env);
  }

  /** The bot deletes the row of an active peer whose agent it has not reached. */
  predicate Blind(op: Op, row: Option<Row>, env: Env) {
    op.BotDelete? && row.Some? && row.value.status.Active? && !(Tells(op) && Effective(env.c1))
  }

  /** A request that reports success leaves the stores in agreement, and has met no
      blamed event, whatever else happened; except the bot's delete, whose success
      means agreement exactly when it was not blind. */
  lemma SuccessMeansAgreement(op: Op, s: World, env: Env)
    requires Agree(s)
    ensures var r := Exec(Plan(op, s.row), s, env);
            r.reply.Success? ==>
              && (Agree(r.world) <==> !Blind(op, s.row, env))
              && (!op.BotDelete? ==> Agree(r.world) && !r.blamed)
  {
    ExecIsClosed(op, s, env);
  }

  /** Whether a request may change a row at all. */
  predicate Permitted(op: Op, row: Row) {
    match op
    case BotDelete(_, _) => true   // ownership was checked on the row it saw
    case Approve => row.status == Pending
    case Suspend => row.status == Active
    case Unsuspend => row.status == Suspended
    case AdminDelete => true
    case UserDelete(asn) => row.wiring.asn == asn
    case AdminUpdate(p) => ValidPatch(p)
    case UserUpdate(asn, p) => ValidPatch(p) && row.wiring.asn == asn && row.status in {Pending, Active}
  }

  /** The patch of an update, if the request is one. */
  function PatchOf(op: Op): Option<Patch> {
    match op
    case AdminUpdate(p) => Some(p)
    case UserUpdate(_, p) => Some(p)
    case _ => None
  }

  /** A new value where the patch names one, the old value where it does not. */
  predicate Takes<T(==)>(named: Option<T>, before: T, after: T) {
    (named.Some? ==> after == named.value) && (named.None? ==> after == before)
  }

  /** `after` is `before` with exactly the fields the patch names, each its own value. */
  predicate FieldByField(p: Patch, before: Wiring, after: Wiring) {
    && Takes(p.endpoint, before.endpoint, after.endpoint)
    && Takes(p.pubkey, before.pubkey, after.pubkey)
    && Takes(p.lla, before.lla, after.lla)
    && (p.mtuSet ==> after.mtu == p.mtu) && (!p.mtuSet ==> after.mtu == before.mtu)
    && after.asn == before.asn && after.port == before.port && after.iface == before.iface && after.psk == before.psk
  }

  /** A patch that names nothing, does not pass the validators, or asks for an MTU
      outside 576 to 9000. */
  predicate Unusable(p: Patch) {
    || (p.endpoint.None? && p.pubkey.None? && p.lla.None? && !p.mtuSet)
    || !p.syntaxOk
    || (p.mtuSet && p.mtu.Some? && (p.mtu.value < 576 || p.mtu.value > 9000))
  }

  /** What a request is asked to make of a row. */
  function Intended(op: Op, row: Row): Option<Row> {
    match op
    case BotDelete(_, _) => None
    case Approve => Some(row.(status := Active))
    case Suspend => Some(row.(status := Suspended))
    case Unsuspend => Some(row.(status := Active))
    case AdminDelete => None
    case UserDelete(_) => None
    case AdminUpdate(p) => Some(row.(wiring := Patched(row.wiring, p)))
    case UserUpdate(_, p) => Some(row.(wiring := Patched(row.wiring, p)))
  }

  /** A request succeeds only where it is permitted, and always there when no call
      fails; the row then is what was asked for, and otherwise it is untouched.
      The bot's delete also succeeds on a row that is gone by then. */
  lemma SuccessDoesTheJob(op: Op, s: World, env: Env)
    ensures var r := Exec(Plan(op, s.row), s, env);
      && (r.reply.Success? ==>
            && env.stored
            && (s.row.None? ==> op.BotDelete? && r.world.row.None?)
            && (s.row.Some? ==> Permitted(op, s.row.value) && r.world.row == Intended(op, s.row.value))
            && (s.row.Some? && PatchOf(op).Some? ==>
                  r.world.row.Some? && FieldByField(PatchOf(op).value, s.row.value.wiring, r.world.row.value.wiring)))
      && (!r.reply.Success? ==> r.world.row == s.row)
      && (s.row.Some? && Permitted(op, s.row.value) && env.c1.Applied? && env.c2.Applied? && env.stored ==>
            r.reply.Success?)
  {
    ExecIsClosed(op, s, env);
  }

  /** An update that succeeds has given every field of the row the value the patch
      names for it and left the others, and an agent that agreed has the same; an
      update with an unusable patch is refused and changes nothing. */
  lemma UpdatesGoWhereTheyShould(op: Op, s: World, env: Env)
    requires PatchOf(op).Some?
    ensures var r := Exec(Plan(op, s.row), s, env);
            var p := PatchOf(op).value;
      && (r.reply.Success? ==>
            && s.row.Some? && r.world.row.Some? && r.world.row.value.status == s.row.value.status
            && FieldByField(p, s.row.value.wiring, r.world.row.value.wiring)
            && (Agree(s) && s.row.value.status.Active? ==> r.world.agent == Some(r.world.row.value.wiring))
            && (Agree(s) && !s.row.value.status.Active? ==> r.world.agent.None?))
      && (Unusable(p) ==> r.reply.BadRequest? && r.world == s)
  {
    ExecIsClosed(op, s, env);
  }

  /** The request sends at least one command once its guards have passed. */
  predicate Calls(op: Op, row: Row) {
    op.Approve? || op.Suspend? || op.Unsuspend? || row.status == Active
  }

  /** The row may be changed by this caller: it is theirs, or they administer it. */
  predicate Owned(op: Op, row: Row) {
    (op.UserDelete? || op.UserUpdate?) ==> row.wiring.asn == op.asn
  }

  /** What each reply says about the request, the row and the outcomes.  The bot's
      delete reports only whether its write succeeded. */
  lemma RepliesAreExact(op: Op, s: World, env: Env)
    ensures op.BotDelete? ==>
      Exec(Plan(op, s.row), s, env).reply == if env.stored then Success else StoreFailed
    ensures !op.BotDelete? ==>
            var reply := Exec(Plan(op, s.row), s, env).reply;
            var unusable := PatchOf(op).Some? && Unusable(PatchOf(op).value);
            var locked := op.UserUpdate? && s.row.Some? && Owned(op, s.row.value)
                          && (s.row.value.status == Suspended || s.row.value.status == Rejected);
            var fits := s.row.Some? && Permitted(op, s.row.value);
            var again := fits && PatchOf(op).Some? && s.row.value.status == Active && env.c1.Applied?;
      && (reply.BadRequest? <==> unusable || locked)
      && (reply.NotFound? <==> !unusable && !locked && !fits)
      && (reply.AgentUnreachable? <==> fits && ((Calls(op, s.row.value) && env.c1.Lost?) || (again && env.c2.Lost?)))
      && (reply.AgentRefused? <==> fits && ((Calls(op, s.row.value) && env.c1.Refused?) || (again && env.c2.Refused?)))
      && (reply.StoreFailed? <==>
            fits && (Calls(op, s.row.value) ==> env.c1.Applied?) && (again ==> env.c2.Applied?) && !env.stored)
  {
    ExecIsClosed(op, s, env);
  }

  /** Disagreement after a request has a cause: a lost command, an unsuccessful
      compensation, or a failed write after acknowledged commands in an update
      or delete (`blamed` records exactly these), or a bot's delete that read the row
      too early or found the node not connected. */
  lemma DisagreementHasACause(op: Op, s: World, env: Env)
    requires Agree(s)
    ensures var r := Exec(Plan(op, s.row), s, env); !Agree(r.world) ==> r.blamed || !Informed(op, s.row)
  {
    if Informed(op, s.row) {
      PlansAreSafe(op, s.row, s);
      SafeRunsAgree(Plan(op, s.row), s, env);
    }
  }

  /** What every handler promises: it follows its tree, reports success only in
      agreement (unless it is the bot's delete, and blind), and leaves agreement
      exactly on the diverging outcomes. */
  predicate Follows(op: Op, env: Env, before: World, after: World, reply: Reply) {
    var r := Exec(Plan(op, before.row), before, env);
    && after == r.world
    && reply == r.reply
    && (Agree(before) ==>
          && (reply.Success? ==> (Agree(after) <==> !Blind(op, before.row, env)))
          && (Agree(after) <==> !Diverging(WorkOf(op, before.row), env)))
  }

  lemma ClosedFollows(op: Op, env: Env, before: World)
    ensures var r := Closed(op, before, env); Follows(op, env, before, r.world, r.reply)
  {
    ExecIsClosed(op, before, env);
    if Agree(before) {
      SuccessMeansAgreement(op, before, env);
      DivergenceIsExact(op, before, env);
    }
  }

  // ----- The handlers in their imperative form -------------------------------

  /** One peer as the center sees it: the row it stores and the agent it talks to. */
  class PeerController {
    var row: Option<Row>
    var agent: Option<Wiring>
    var diverged: bool   // a `peer.approve.diverged` audit entry has been written

    constructor (row: Option<Row>)
      ensures this.row == row && agent == Wanted(row) && !diverged
    {
      this.row := row;
      agent := if row.Some? && row.value.status.Active? then Some(row.value.wiring) else None;
      diverged := false;
    }

    function Now(): World
      reads this
    {
      World(row, agent)
    }

    method SendCommand(c: Command, o: CmdOutcome)
      modifies `agent
      ensures Now() == Obey(c, o, old(Now()))
    {
      if Effective(o) {
        match c
        case Add(w) => agent := Some(w);
        case Remove => agent := None;
      }
    }

    method UpdateStatus(status: Status, stored: bool)
      modifies `row
      ensures Now() == if stored then Store(SetStatus(status), old(Now())) else old(Now())
    {
      if stored && row.Some? {
        row := Some(row.value.(status := status));
      }
    }

    method UpdateFields(w: Wiring, stored: bool)
      modifies `row
      ensures Now() == if stored then Store(FieldsOf(w), old(Now())) else old(Now())
    {
      if stored && row.Some? {
        var wiring := row.value.wiring.(endpoint := w.endpoint, pubkey := w.pubkey, lla := w.lla, mtu := w.mtu);
        row := Some(row.value.(wiring := wiring));
      }
    }

    method Delete(stored: bool)
      modifies `row
      ensures Now() == if stored then Store(DeleteRow, old(Now())) else old(Now())
    {
      if stored {
        row := None;
      }
    }

    /** The audit entry marks an approval whose rollback was not acknowledged. */
    method ApprovePeer(env: Env) returns (reply: Reply)
      modifies this
      ensures Follows(Approve, env, old(Now()), Now(), reply)
      ensures diverged == (old(diverged) || (reply.StoreFailed? && !env.c2.Applied?))
      ensures Agree(old(Now())) && !Agree(Now()) ==> diverged || env.c1 == Lost(true)
    {
      var peer := row;
      if peer.None? || !peer.value.status.Pending? {
        reply := NotFound;
      } else {
        SendCommand(Add(peer.value.wiring), env.c1);
        if env.c1.Lost? {
          reply := AgentUnreachable;
        } else if env.c1.Refused? {
          reply := AgentRefused;
        } else {
          UpdateStatus(Active, env.stored);
          if !env.stored {
            SendCommand(Remove, env.c2);
            diverged := diverged || !env.c2.Applied?;
            reply := StoreFailed;
          } else {
            reply := Success;
          }
        }
      }
      ClosedFollows(Approve, env, old(Now()));
    }

    method SuspendPeer(env: Env) returns (reply: Reply)
      modifies this
      ensures Follows(Suspend, env, old(Now()), Now(), reply) && diverged == old(diverged)
    {
      var peer := row;
      if peer.None? || !peer.value.status.Active? {
        reply := NotFound;
      } else {
        SendCommand(Remove, env.c1);
        if env.c1.Lost? {
          reply := AgentUnreachable;
        } else if env.c1.Refused? {
          reply := AgentRefused;
        } else {
          UpdateStatus(Suspended, env.stored);
          if !env.stored {
            SendCommand(Add(peer.value.wiring), env.c2);
            reply := StoreFailed;
          } else {
            reply := Success;
          }
        }
      }
      ClosedFollows(Suspend, env, old(Now()));
    }

    method UnsuspendPeer(env: Env) returns (reply: Reply)
      modifies this
      ensures Follows(Unsuspend, env, old(Now()), Now(), reply) && diverged == old(diverged)
    {
      var peer := row;
      if peer.None? || !peer.value.status.Suspended? {
        reply := NotFound;
      } else {
        SendCommand(Add(peer.value.wiring), env.c1);
        if env.c1.Lost? {
          reply := AgentUnreachable;
        } else if env.c1.Refused? {
          reply := AgentRefused;
        } else {
          UpdateStatus(Active, env.stored);
          if !env.stored {
            SendCommand(Remove, env.c2);
            reply := StoreFailed;
          } else {
            reply := Success;
          }
        }
      }
      ClosedFollows(Unsuspend, env, old(Now()));
    }

    /** The admin's delete (`asn` absent) and the user's (own rows only). */
    method DeletePeer(asn: Option<int>, env: Env) returns (reply: Reply)
      modifies this
      ensures Follows(if asn.Some? then UserDelete(asn.value) else AdminDelete, env, old(Now()), Now(), reply)
      ensures diverged == old(diverged)
    {
      var peer := row;
      if peer.None? || (asn.Some? && peer.value.wiring.asn != asn.value) {
        reply := NotFound;
      } else {
        var proceed := true;
        if peer.value.status.Active? {
          SendCommand(Remove, env.c1);
          if env.c1.Lost? {
            reply, proceed := AgentUnreachable, false;
          } else if env.c1.Refused? {
            reply, proceed := AgentRefused, false;
          }
        }
        if proceed {
          Delete(env.stored);
          reply := if env.stored then Success else StoreFailed;
        }
      }
      ClosedFollows(if asn.Some? then UserDelete(asn.value) else AdminDelete, env, old(Now()));
    }

    /** The bot's delete: `seen` was read before the lock, and the agent's answer is
        ignored. */
    method BotDeletePeer(seen: Row, online: bool, env: Env) returns (reply: Reply)
      modifies this
      ensures Follows(BotDelete(seen, online), env, old(Now()), Now(), reply) && diverged == old(diverged)
    {
      if seen.status.Active? && online {
        SendCommand(Remove, env.c1);
      }
      Delete(env.stored);
      reply := if env.stored then Success else StoreFailed;
      ClosedFollows(BotDelete(seen, online), env, old(Now()));
    }

    /** The admin's update (`asn` absent) and the user's (own rows, pending or active only). */
    method UpdatePeer(asn: Option<int>, patch: Patch, env: Env) returns (reply: Reply)
      modifies this
      ensures Follows(if asn.Some? then UserUpdate(asn.value, patch) else AdminUpdate(patch), env, old(Now()), Now(), reply)
      ensures diverged == old(diverged)
      ensures reply.Success? ==>
        && old(row).Some? && row.Some? && row.value.status == old(row).value.status
        && FieldByField(patch, old(row).value.wiring, row.value.wiring)
        && (old(Agree(Now())) && row.value.status.Active? ==> agent == Some(row.value.wiring))
      ensures !reply.Success? ==> row == old(row)
      ensures Unusable(patch) ==> reply.BadRequest? && Now() == old(Now())
    {
      var peer := row;
      if !ValidPatch(patch) {
        reply := BadRequest;
      } else if peer.None? || (asn.Some? && peer.value.wiring.asn != asn.value) {
        reply := NotFound;
      } else if asn.Some? && !peer.value.status.Pending? && !peer.value.status.Active? {
        reply := BadRequest;
      } else {
        var updated := Patched(peer.value.wiring, patch);
        var proceed := true;
        if peer.value.status.Active? {
          SendCommand(Remove, env.c1);
          if !env.c1.Applied? {
            reply, proceed := if env.c1.Lost? then AgentUnreachable else AgentRefused, false;
          } else {
            SendCommand(Add(updated), env.c2);
            if !env.c2.Applied? {
              SendCommand(Add(peer.value.wiring), env.c3);
              reply, proceed := if env.c2.Lost? then AgentUnreachable else AgentRefused, false;
            }
          }
        }
        if proceed {
          UpdateFields(updated, env.stored);
          reply := if env.stored then Success else StoreFailed;
        }
      }
      ghost var op := if asn.Some? then UserUpdate(asn.value, patch) else AdminUpdate(patch);
      ClosedFollows(op, env, old(Now()));
      UpdatesGoWhereTheyShould(op, old(Now()), env);
      SuccessDoesTheJob(op, old(Now()), env);
    }
  }
}
