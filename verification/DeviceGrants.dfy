/**
  Device authorization grants (RFC 8628, sections 3.4 and 3.5).

  A device polls with its device code while a signed-in person approves or
  denies the request by its user code.  Authorization, polling, the check of the
  approving administrator and the exchange are separate statements against the
  database; any number of them interleave.
 */
module DeviceGrants {
  import opened Common

  type Gid = nat
  type Sid = nat
  type Pid = nat
  type Time = int

  datatype Scope = UserScope | AdminScope
  datatype GrantStatus = Pending | Approved | Denied | Exchanged

  /** Whom a session speaks for. */
  datatype Identity = UserIdentity(asn: int, email: string) | AdminIdentity(adminId: string, email: string)

  /** A signed-in person: the session of the request and whom it speaks for.
      Impersonation sessions may not authorize devices. */
  datatype Approver = Approver(sid: Sid, who: Identity)

  datatype Grant = Grant(
    scope: Scope, status: GrantStatus, expiresAt: Time, polls: nat,
    approvedAsn: Option<int>, approvedEmail: string, approvedBy: Option<Sid>, exchangedTo: Option<Sid>)

  predicate ScopeAllows(scope: Scope, who: Identity) {
    scope.UserScope? <==> who.UserIdentity?
  }

  // ----- The statements ---------------------------------------------------------

  predicate Authorizable(g: Grant, now: Time) {
    g.status.Pending? && g.expiresAt > now
  }

  /** AuthorizeAuthDeviceGrant on a grant that is still pending and unexpired. */
  function Authorized(g: Grant, signer: Approver, approve: bool): Grant {
    if !approve then g.(status := Denied)
    else g.(status := Approved,
            approvedAsn := if g.scope.UserScope? && signer.who.UserIdentity? then Some(signer.who.asn) else None,
            approvedEmail := signer.who.email,
            approvedBy := Some(signer.sid))
  }

  function Polled(g: Grant): Grant {
    g.(polls := g.polls + 1)
  }

  /** The UPDATE and the checks of ExchangeAuthDeviceGrant for a session of `who`. */
  predicate Exchangeable(g: Grant, who: Identity, now: Time) {
    && g.status.Approved? && g.expiresAt > now && g.approvedEmail != ""
    && (who.UserIdentity? ==> g.approvedAsn.Some?)
    && (who.AdminIdentity? ==> g.approvedBy.Some?)
  }

  /** What is known of a token request before its device code is looked up. */
  datatype TokenRequest = TokenRequest(withinRate: bool, decoded: bool, grantType: string, blankCode: bool)

  const DEVICE_CODE_GRANT := "urn:ietf:params:oauth:grant-type:device_code"

  predicate Admitted(req: TokenRequest) {
    req.withinRate && req.decoded && req.grantType == DEVICE_CODE_GRANT && !req.blankCode
  }

  datatype TokenReply =
    | SlowDown | BadRequest | UnsupportedGrantType
    | AuthorizationPending | AccessDenied | ExpiredToken
    | Ready              // the grant is approved: go on to the exchange
    | Token(sid: Sid)    // a session was minted

  /** What a poll answers, from the row it read back (RFC 8628, section 3.5). */
  function PollReply(g: Grant, now: Time): TokenReply {
    if now > g.expiresAt then ExpiredToken
    else match g.status
      case Pending => AuthorizationPending
      case Denied => AccessDenied
      case Exchanged => ExpiredToken
      case Approved => Ready
  }

  /** Whom an approved grant mints a session for: the approved user, or the
      administrator behind the approving session while that session is alive. */
  function Beneficiary(g: Grant, sessions: map<Sid, Identity>, dead: set<Sid>): Option<Identity> {
    match g.scope
    case UserScope =>
      if g.approvedAsn.Some? then Some(UserIdentity(g.approvedAsn.value, g.approvedEmail)) else None
    case AdminScope =>
      if g.approvedBy.Some? && g.approvedBy.value in sessions && g.approvedBy.value !in dead
         && sessions[g.approvedBy.value].AdminIdentity?
      then Some(sessions[g.approvedBy.value]) else None
  }

  /** `who` is whom the row approves: the user it names, or the administrator whose
      session approved it, while that session exists and is not dead. */
  predicate Approves(g: Grant, sessions: map<Sid, Identity>, dead: set<Sid>, who: Identity) {
    match g.scope
    case UserScope => who.UserIdentity? && g.approvedAsn == Some(who.asn) && g.approvedEmail == who.email
    case AdminScope =>
      && who.AdminIdentity? && g.approvedBy.Some?
      && g.approvedBy.value in sessions && g.approvedBy.value !in dead && sessions[g.approvedBy.value] == who
  }

  lemma BeneficiaryIsApproved(g: Grant, sessions: map<Sid, Identity>, dead: set<Sid>, who: Identity)
    ensures Beneficiary(g, sessions, dead) == Some(who) <==> Approves(g, sessions, dead, who)
  {
  }

  /** The grant and session tables with the statements run against them. */
  class GrantStore {
    var grants: map<Gid, Grant>
    var sessions: map<Sid, Identity>
    var dead: set<Sid>

    constructor ()
      ensures grants == map[] && sessions == map[] && dead == {}
    {
      grants, sessions, dead := map[], map[], {};
    }

    method AuthorizeAuthDeviceGrant(g: Gid, signer: Approver, approve: bool, now: Time) returns (ok: bool)
      modifies `grants
      ensures ok <==> g in old(grants) && Authorizable(old(grants)[g], now)
      ensures ok <==> g in old(grants) && old(grants)[g].status == Pending && now < old(grants)[g].expiresAt
      ensures ok ==> g in grants
      ensures ok && !approve ==> grants[g] == old(grants)[g].(status := Denied)
      ensures ok && approve ==>
        && grants[g].status == Approved && grants[g].approvedBy == Some(signer.sid)
        && grants[g].approvedEmail == signer.who.email
        && (grants[g].scope.UserScope? && signer.who.UserIdentity? ==> grants[g].approvedAsn == Some(signer.who.asn))
      ensures grants == if ok then old(grants)[g := Authorized(old(grants)[g], signer, approve)] else old(grants)
    {
      ok := g in grants && grants[g].status.Pending? && grants[g].expiresAt > now;
      if ok && !approve {
        grants := grants[g := grants[g].(status := Denied)];
      } else if ok {
        var asn := if grants[g].scope.UserScope? && signer.who.UserIdentity? then Some(signer.who.asn) else None;
        grants := grants[g := grants[g].(status := Approved, approvedAsn := asn,
                                         approvedEmail := signer.who.email, approvedBy := Some(signer.sid))];
      }
    }

    method ExchangeAuthDeviceGrant(g: Gid, sid: Sid, who: Identity, now: Time) returns (ok: bool)
      requires sid !in sessions
      modifies `grants, `sessions
      ensures ok <==> g in old(grants) && Exchangeable(old(grants)[g], who, now)
      ensures ok <==>
        && g in old(grants) && old(grants)[g].status == Approved && now < old(grants)[g].expiresAt
        && old(grants)[g].approvedEmail != ""
        && match who
           case UserIdentity(_, _) => old(grants)[g].approvedAsn.Some?
           case AdminIdentity(_, _) => old(grants)[g].approvedBy.Some?
      ensures grants == if ok then old(grants)[g := old(grants)[g].(status := Exchanged, exchangedTo := Some(sid))]
                        else old(grants)
      ensures sessions == if ok then old(sessions)[sid := who] else old(sessions)
    {
      ok := false;
      if g in grants && grants[g].status.Approved? && grants[g].expiresAt > now {
        // Inside the transaction: a missing approver rolls the update back.
        var missing := grants[g].approvedEmail == "" ||
                       (if who.UserIdentity? then grants[g].approvedAsn.None? else grants[g].approvedBy.None?);
        if !missing {
          grants := grants[g := grants[g].(status := Exchanged, exchangedTo := Some(sid))];
          sessions := sessions[sid := who];
          ok := true;
        }
      }
    }

    /** The token endpoint run without interference.  A request that is not admitted
        is answered without looking at the grant.  Otherwise it mints exactly for an
        approved, strictly unexpired grant whose beneficiary can be established,
        and then exactly that beneficiary's session; otherwise it changes
        nothing but the poll counter and answers by the status. */
    method DeviceToken(req: TokenRequest, g: Gid, sid: Sid, now: Time) returns (reply: TokenReply)
      requires sid !in sessions
      modifies `grants, `sessions
      ensures reply.SlowDown? <==> !req.withinRate
      ensures reply.BadRequest? <==> req.withinRate && !req.decoded
      ensures reply.UnsupportedGrantType? <==>
        req.withinRate && req.decoded && (req.grantType != DEVICE_CODE_GRANT || req.blankCode)
      ensures !Admitted(req) ==> grants == old(grants) && sessions == old(sessions)
      ensures reply.Token? <==>
        && Admitted(req) && g in old(grants) && old(grants)[g].status.Approved? && now < old(grants)[g].expiresAt
        && old(grants)[g].approvedEmail != "" && Beneficiary(old(grants)[g], old(sessions), dead).Some?
      ensures forall who ::
        (reply.Token? && sid in sessions && sessions[sid] == who) <==>
          && Admitted(req) && g in old(grants) && old(grants)[g].status == Approved && now < old(grants)[g].expiresAt
          && old(grants)[g].approvedEmail != "" && Approves(old(grants)[g], old(sessions), dead, who)
      ensures reply.Token? ==>
        && reply.sid == sid
        && sessions == old(sessions)[sid := Beneficiary(old(grants)[g], old(sessions), dead).value]
        && grants == old(grants)[g := Polled(old(grants)[g]).(status := Exchanged, exchangedTo := Some(sid))]
      ensures Admitted(req) && !reply.Token? ==>
        && sessions == old(sessions)
        && grants == if g in old(grants) then old(grants)[g := Polled(old(grants)[g])] else old(grants)
      ensures reply.AuthorizationPending? <==>
        Admitted(req) && g in old(grants) && old(grants)[g].status.Pending? && now <= old(grants)[g].expiresAt
      ensures reply.AccessDenied? <==>
        Admitted(req) && g in old(grants) && old(grants)[g].status.Denied? && now <= old(grants)[g].expiresAt
      ensures !reply.Ready?
    {
      if !req.withinRate {
        return SlowDown;
      }
      if !req.decoded {
        return BadRequest;
      }
      if req.grantType != DEVICE_CODE_GRANT || req.blankCode {
        return UnsupportedGrantType;
      }
      if g !in grants {
        return ExpiredToken;
      }
      var row := grants[g].(polls := grants[g].polls + 1);
      grants := grants[g := row];
      if now > row.expiresAt {
        return ExpiredToken;
      }
      match row.status
      case Pending => return AuthorizationPending;
      case Denied => return AccessDenied;
      case Exchanged => return ExpiredToken;
      case Approved =>
        var who := Beneficiary(row, sessions, dead);
        forall w ensures who == Some(w) <==> Approves(row, sessions, dead, w) {
          BeneficiaryIsApproved(row, sessions, dead, w);
        }
        if who.None? {
          return ExpiredToken;
        }
        var ok := ExchangeAuthDeviceGrant(g, sid, who.value, now);
        reply := if ok then Token(sid) else ExpiredToken;
    }
  }

  // ----- Interleaved handlers -------------------------------------------------------

  datatype Step =
    | Deciding(g: Gid, signer: Approver)              // DeviceAuthorize has read the grant
    | Polling(g: Gid, seen: Grant)                // DeviceToken holds the polled row
    | Minting(g: Gid, seen: Grant, who: Identity) // and knows whom the session is for

  datatype Mint = Mint(g: Gid, sid: Sid, who: Identity, at: Time)

  /** `sessions` is the identity of every session row, `dead` those revoked or
      expired.  History: `approvers` (who approved each grant) and `minted`. */
  datatype System = System(
    now: Time, grants: map<Gid, Grant>, sessions: map<Sid, Identity>, dead: set<Sid>, steps: map<Pid, Step>,
    approvers: map<Gid, Approver>, minted: seq<Mint>)

  datatype Action =
    | Tick(to: Time)
    | SessionAppears(sid: Sid, who: Identity)
    | SessionDies(sid: Sid)
    | SessionPurged(sid: Sid)
    | Request(g: Gid, scope: Scope, expiresAt: Time)
    | AuthorizeBegin(p: Pid, g: Gid, signer: Approver)
    | AuthorizeCommit(p: Pid, approve: bool)
    | Poll(p: Pid, g: Gid)
    | Choose(p: Pid)
    | Exchange(p: Pid, sid: Sid)

  predicate Enabled(y: System, a: Action) {
    match a
    case Tick(to) => y.now <= to
    case SessionAppears(sid, who) => sid !in y.sessions && sid !in y.dead
    case SessionDies(sid) => sid in y.sessions
    case SessionPurged(sid) => sid in y.sessions
    case Request(g, _, _) => g !in y.grants
    case AuthorizeBegin(p, g, signer) =>
      && p !in y.steps && g in y.grants && y.now <= y.grants[g].expiresAt
      && ScopeAllows(y.grants[g].scope, signer.who)
      && signer.sid in y.sessions && y.sessions[signer.sid] == signer.who
    case AuthorizeCommit(p, _) => p in y.steps && y.steps[p].Deciding?
    case Poll(p, g) => p !in y.steps && g in y.grants
    case Choose(p) =>
      p in y.steps && y.steps[p].Polling? && Beneficiary(y.steps[p].seen, y.sessions, y.dead).Some?
    case Exchange(p, sid) => p in y.steps && y.steps[p].Minting? && sid !in y.sessions && sid !in y.dead
  }

  function Do(y: System, a: Action): System
    requires Enabled(y, a)
  {
    match a
    case Tick(to) => y.(now := to)
    case SessionAppears(sid, who) => y.(sessions := y.sessions[sid := who])
    case SessionDies(sid) => y.(dead := y.dead + {sid})
    case SessionPurged(sid) =>
      // ON DELETE SET NULL; the id is never used again.
      y.(sessions := y.sessions - {sid}, dead := y.dead + {sid},
         grants := map g | g in y.grants :: ForgetSession(y.grants[g], sid))
    case Request(g, scope, expiresAt) =>
      y.(grants := y.grants[g := Grant(scope, Pending, expiresAt, 0, None, "", None, None)])
    case AuthorizeBegin(p, g, signer) => y.(steps := y.steps[p := Deciding(g, signer)])
    case AuthorizeCommit(p, approve) =>
      var Deciding(g, signer) := y.steps[p];
      var rest := y.(steps := y.steps - {p});
      if g in y.grants && Authorizable(y.grants[g], y.now) && signer.sid in y.sessions then
        rest.(grants := y.grants[g := Authorized(y.grants[g], signer, approve)],
              approvers := if approve then y.approvers[g := signer] else y.approvers)
      else rest
    case Poll(p, g) =>
      var row := Polled(y.grants[g]);
      var rest := y.(grants := y.grants[g := row]);
      if PollReply(row, y.now).Ready? then rest.(steps := y.steps[p := Polling(g, row)]) else rest
    case Choose(p) =>
      var Polling(g, seen) := y.steps[p];
      y.(steps := y.steps[p := Minting(g, seen, Beneficiary(seen, y.sessions, y.dead).value)])
    case Exchange(p, sid) =>
      var Minting(g, _, who) := y.steps[p];
      var rest := y.(steps := y.steps - {p});
      if g in y.grants && Exchangeable(y.grants[g], who, y.now) then
        rest.(grants := y.grants[g := y.grants[g].(status := Exchanged, exchangedTo := Some(sid))],
              sessions := y.sessions[sid := who],
              minted := y.minted + [Mint(g, sid, who, y.now)])
      else rest
  }

  function ForgetSession(g: Grant, sid: Sid): Grant {
    g.(approvedBy := if g.approvedBy == Some(sid) then None else g.approvedBy,
       exchangedTo := if g.exchangedTo == Some(sid) then None else g.exchangedTo)
  }

  ghost predicate IsRun(y: System, actions: seq<Action>)
    decreases |actions|
  {
    actions == [] || (Enabled(y, actions[0]) && IsRun(Do(y, actions[0]), actions[1..]))
  }

  ghost function After(y: System, actions: seq<Action>): System
    requires IsRun(y, actions)
    decreases |actions|
  {
    if actions == [] then y else After(Do(y, actions[0]), actions[1..])
  }

  function Start(now: Time): System {
    System(now, map[], map[], {}, map[], map[], [])
  }

  // ----- What every action keeps -------------------------------------------------

  /** The only moves: pending to approved or denied, approved to exchanged. */
  predicate Moves(from: GrantStatus, to: GrantStatus) {
    || from == to
    || (from.Pending? && (to.Approved? || to.Denied?))
    || (from.Approved? && to.Exchanged?)
  }

  /** The transitive closure of `Moves`. */
  predicate Reaches(from: GrantStatus, to: GrantStatus) {
    Moves(from, to) || (from.Pending? && to.Exchanged?)
  }

  /** A grant that left `Pending` keeps what its approver wrote; only the link to
      a purged session may be cleared. */
  predicate Frozen(g: Grant, h: Grant) {
    && h.scope == g.scope && h.expiresAt == g.expiresAt
    && (!g.status.Pending? ==>
          && h.approvedAsn == g.approvedAsn && h.approvedEmail == g.approvedEmail
          && (h.approvedBy == g.approvedBy || h.approvedBy.None?))
  }

  ghost predicate Evolves(y: System, z: System) {
    forall g :: g in y.grants ==>
      g in z.grants && Reaches(y.grants[g].status, z.grants[g].status) && Frozen(y.grants[g], z.grants[g])
  }

  lemma StepEvolves(y: System, a: Action)
    requires Enabled(y, a)
    ensures Evolves(y, Do(y, a))
    ensures forall g :: g in y.grants ==> Moves(y.grants[g].status, Do(y, a).grants[g].status)
  {
    forall g | g in y.grants
      ensures g in Do(y, a).grants
      ensures Moves(y.grants[g].status, Do(y, a).grants[g].status) && Frozen(y.grants[g], Do(y, a).grants[g])
    {
      if a.SessionPurged? {
        assert Do(y, a).grants[g] == ForgetSession(y.grants[g], a.sid);
      }
    }
  }

  /** `g` shows the approval of `signer`. */
  predicate Shows(g: Grant, signer: Approver) {
    && ScopeAllows(g.scope, signer.who)
    && g.approvedEmail == signer.who.email
    && (g.scope.UserScope? ==> signer.who.UserIdentity? && g.approvedAsn == Some(signer.who.asn))
    && (g.approvedBy.Some? ==> g.approvedBy.value == signer.sid)
  }

  /** A session id, as long as its row exists, speaks for the same person. */
  predicate SpeaksFor(y: System, signer: Approver) {
    if signer.sid in y.sessions then y.sessions[signer.sid] == signer.who else signer.sid in y.dead
  }

  ghost predicate ApprovalsShown(y: System) {
    forall g :: g in y.grants && (y.grants[g].status.Approved? || y.grants[g].status.Exchanged?) ==>
      g in y.approvers && Shows(y.grants[g], y.approvers[g])
  }

  ghost predicate ApproversKnown(y: System) {
    forall g :: g in y.approvers ==>
      g in y.grants && !y.grants[g].status.Pending? && SpeaksFor(y, y.approvers[g])
  }

  predicate Informed(y: System, step: Step) {
    match step
    case Deciding(g, signer) => g in y.grants && ScopeAllows(y.grants[g].scope, signer.who) && SpeaksFor(y, signer)
    case Polling(g, seen) => g in y.approvers && Shows(seen, y.approvers[g])
    case Minting(g, seen, who) => g in y.approvers && who == y.approvers[g].who
  }

  ghost predicate StepsInformed(y: System) {
    forall p :: p in y.steps ==> Informed(y, y.steps[p])
  }

  ghost predicate MintsSound(y: System) {
    && (forall k :: 0 <= k < |y.minted| ==> MintSound(y, y.minted[k]))
    && (forall k, l :: 0 <= k < l < |y.minted| ==> y.minted[k].g != y.minted[l].g)
  }

  ghost predicate HasMinted(y: System, g: Gid) {
    exists k :: 0 <= k < |y.minted| && y.minted[k].g == g
  }

  ghost predicate ExchangesMinted(y: System) {
    forall g :: g in y.grants && y.grants[g].status.Exchanged? ==> HasMinted(y, g)
  }

  ghost predicate Inv(y: System) {
    ApprovalsShown(y) && ApproversKnown(y) && StepsInformed(y) && MintsSound(y) && ExchangesMinted(y)
  }

  lemma StepKeepsVoices(y: System, a: Action)
    requires Enabled(y, a)
    ensures forall signer :: SpeaksFor(y, signer) ==> SpeaksFor(Do(y, a), signer)
  {
  }

  /** Once recorded, the approver of a grant is never replaced. */
  lemma StepKeepsSigners(y: System, a: Action)
    requires ApproversKnown(y) && Enabled(y, a)
    ensures forall g :: g in y.approvers ==> g in Do(y, a).approvers && Do(y, a).approvers[g] == y.approvers[g]
  {
  }

  lemma StepKeepsApprovals(y: System, a: Action)
    requires ApprovalsShown(y) && ApproversKnown(y) && StepsInformed(y) && Enabled(y, a)
    ensures ApprovalsShown(Do(y, a))
  {
    StepEvolves(y, a);
    StepKeepsSigners(y, a);
    var z := Do(y, a);
    forall g | g in z.grants && (z.grants[g].status.Approved? || z.grants[g].status.Exchanged?)
      ensures g in z.approvers && Shows(z.grants[g], z.approvers[g])
    {
      if g in y.grants && y.grants[g].status.Pending? {
        ApprovalIsShown(y, a, g);
      } else {
        assert g in y.grants && Moves(y.grants[g].status, z.grants[g].status);
      }
    }
  }

  lemma ApprovalIsShown(y: System, a: Action, g: Gid)
    requires StepsInformed(y) && Enabled(y, a) && g in y.grants && y.grants[g].status.Pending?
    requires Do(y, a).grants[g].status.Approved? || Do(y, a).grants[g].status.Exchanged?
    ensures g in Do(y, a).approvers && Shows(Do(y, a).grants[g], Do(y, a).approvers[g])
  {
    assert a.AuthorizeCommit? && Informed(y, y.steps[a.p]);
  }

  lemma StepKeepsApprovers(y: System, a: Action)
    requires ApproversKnown(y) && StepsInformed(y) && Enabled(y, a)
    ensures ApproversKnown(Do(y, a))
  {
    StepEvolves(y, a);
    StepKeepsVoices(y, a);
    StepKeepsSigners(y, a);
    var z := Do(y, a);
    forall g | g in z.approvers
      ensures g in z.grants && !z.grants[g].status.Pending? && SpeaksFor(z, z.approvers[g])
    {
      if g !in y.approvers {
        assert a.AuthorizeCommit? && Informed(y, y.steps[a.p]);
      }
    }
  }

  lemma StepKeepsSteps(y: System, a: Action)
    requires ApprovalsShown(y) && ApproversKnown(y) && StepsInformed(y) && Enabled(y, a)
    ensures StepsInformed(Do(y, a))
  {
    StepEvolves(y, a);
    StepKeepsVoices(y, a);
    StepKeepsSigners(y, a);
    var z := Do(y, a);
    forall p | p in z.steps
      ensures Informed(z, z.steps[p])
    {
      if p in y.steps && z.steps[p] == y.steps[p] {
        InformedStays(y, z, y.steps[p]);
      } else {
        NewStepIsInformed(y, a, p);
      }
    }
  }

  lemma InformedStays(y: System, z: System, step: Step)
    requires Evolves(y, z) && Informed(y, step)
    requires forall signer :: SpeaksFor(y, signer) ==> SpeaksFor(z, signer)
    requires forall g :: g in y.approvers ==> g in z.approvers && z.approvers[g] == y.approvers[g]
    ensures Informed(z, step)
  {
  }

  lemma NewStepIsInformed(y: System, a: Action, p: Pid)
    requires ApprovalsShown(y) && ApproversKnown(y) && StepsInformed(y) && Enabled(y, a)
    requires p in Do(y, a).steps && !(p in y.steps && Do(y, a).steps[p] == y.steps[p])
    ensures Informed(Do(y, a), Do(y, a).steps[p])
  {
    if p in y.steps {
      assert a.Choose? && a.p == p && Informed(y, y.steps[p]);
      ChoiceIsTheApprover(y, y.steps[p].g, y.steps[p].seen);
    }
  }

  /** The beneficiary of a polled row is the person who approved the grant. */
  lemma ChoiceIsTheApprover(y: System, g: Gid, seen: Grant)
    requires ApproversKnown(y) && g in y.approvers && Shows(seen, y.approvers[g])
    ensures Beneficiary(seen, y.sessions, y.dead).Some? ==>
      Beneficiary(seen, y.sessions, y.dead).value == y.approvers[g].who
  {
    assert SpeaksFor(y, y.approvers[g]);
  }

  lemma StepKeepsMints(y: System, a: Action)
    requires ApprovalsShown(y) && ApproversKnown(y) && StepsInformed(y) && MintsSound(y) && Enabled(y, a)
    ensures MintsSound(Do(y, a))
  {
    StepEvolves(y, a);
    StepKeepsSigners(y, a);
    var z := Do(y, a);
    OldMintsStaySound(y, z);
    if z.minted != y.minted {
      NewMintIsSound(y, a);
    }
    MintsCombine(y, z);
  }

  predicate MintSound(y: System, m: Mint) {
    && m.g in y.grants && y.grants[m.g].status.Exchanged?
    && m.g in y.approvers && m.who == y.approvers[m.g].who
    && m.at < y.grants[m.g].expiresAt
  }

  lemma OldMintsStaySound(y: System, z: System)
    requires MintsSound(y) && Evolves(y, z)
    requires forall g :: g in y.approvers ==> g in z.approvers && z.approvers[g] == y.approvers[g]
    ensures forall k :: 0 <= k < |y.minted| ==> MintSound(z, y.minted[k])
  {
  }

  lemma MintsCombine(y: System, z: System)
    requires MintsSound(y) && forall k :: 0 <= k < |y.minted| ==> MintSound(z, y.minted[k])
    requires z.minted != y.minted ==>
      && |z.minted| == |y.minted| + 1 && z.minted[..|y.minted|] == y.minted
      && MintSound(z, z.minted[|y.minted|])
      && forall k :: 0 <= k < |y.minted| ==> y.minted[k].g != z.minted[|y.minted|].g
    ensures MintsSound(z)
  {
  }

  lemma NewMintIsSound(y: System, a: Action)
    requires StepsInformed(y) && MintsSound(y) && Enabled(y, a) && Do(y, a).minted != y.minted
    ensures var z := Do(y, a);
      && |z.minted| == |y.minted| + 1 && z.minted[..|y.minted|] == y.minted
      && MintSound(z, z.minted[|y.minted|])
      && forall k :: 0 <= k < |y.minted| ==> y.minted[k].g != z.minted[|y.minted|].g
  {
    assert a.Exchange? && Informed(y, y.steps[a.p]);
  }

  lemma StepKeepsExchanges(y: System, a: Action)
    requires ExchangesMinted(y) && Enabled(y, a)
    ensures ExchangesMinted(Do(y, a))
  {
    var z := Do(y, a);
    forall g | g in z.grants && z.grants[g].status.Exchanged?
      ensures HasMinted(z, g)
    {
      if g in y.grants && y.grants[g].status.Exchanged? {
        var k :| 0 <= k < |y.minted| && y.minted[k].g == g;
        assert z.minted[k] == y.minted[k];
      } else {
        assert z.minted[|z.minted| - 1].g == g;
      }
    }
  }

  lemma {:induction false} RunsKeepInv(y: System, actions: seq<Action>)
    requires Inv(y) && IsRun(y, actions)
    ensures Inv(After(y, actions)) && Evolves(y, After(y, actions))
    decreases |actions|
  {
    if actions != [] {
      var z := Do(y, actions[0]);
      StepKeepsApprovals(y, actions[0]);
      StepKeepsApprovers(y, actions[0]);
      StepKeepsSteps(y, actions[0]);
      StepKeepsMints(y, actions[0]);
      StepKeepsExchanges(y, actions[0]);
      StepEvolves(y, actions[0]);
      RunsKeepInv(z, actions[1..]);
    }
  }

  // ----- The theorems ---------------------------------------------------------------

  /** Between any two points of any run a grant only moves forward, and what its
      approver wrote stays; a denied or exchanged grant stays as it is. */
  lemma GrantsOnlyMoveForward(start: Time, before: seq<Action>, later: seq<Action>, g: Gid)
    requires IsRun(Start(start), before) && IsRun(After(Start(start), before), later)
    requires g in After(Start(start), before).grants
    ensures var y := After(Start(start), before);
            var z := After(y, later);
      && g in z.grants
      && Reaches(y.grants[g].status, z.grants[g].status) && Frozen(y.grants[g], z.grants[g])
      && (y.grants[g].status.Denied? || y.grants[g].status.Exchanged? ==> z.grants[g].status == y.grants[g].status)
  {
    RunsKeepInv(Start(start), before);
    RunsKeepInv(After(Start(start), before), later);
  }

  /** In every interleaving a grant mints at most one session, exactly when it is
      exchanged, before it expires, and for exactly the person who approved it,
      whose role fits the requested scope. */
  lemma GrantsMintOnceForTheirApprover(start: Time, actions: seq<Action>)
    requires IsRun(Start(start), actions)
    ensures var y := After(Start(start), actions);
      && (forall k, l :: 0 <= k < l < |y.minted| ==> y.minted[k].g != y.minted[l].g)
      && (forall k :: 0 <= k < |y.minted| ==>
            var m := y.minted[k];
            && m.g in y.grants && y.grants[m.g].status.Exchanged? && m.at < y.grants[m.g].expiresAt
            && m.g in y.approvers && m.who == y.approvers[m.g].who
            && ScopeAllows(y.grants[m.g].scope, m.who))
      && (forall g :: g in y.grants && y.grants[g].status.Exchanged? ==> HasMinted(y, g))
  {
    RunsKeepInv(Start(start), actions);
  }

  /** An approved grant is of use: from every reachable state in which it is unexpired
      and its approval complete, with the approving session alive where that
      matters, a poll that is not interfered with mints its session, for the
      approver. */
  lemma ApprovedGrantsMint(start: Time, actions: seq<Action>, g: Gid, p: Pid, sid: Sid)
    requires IsRun(Start(start), actions)
    requires var y := After(Start(start), actions);
      && g in y.grants && y.grants[g].status == Approved && y.now < y.grants[g].expiresAt
      && y.grants[g].approvedEmail != ""
      && (y.grants[g].scope.AdminScope? ==>
            && y.grants[g].approvedBy.Some?
            && y.grants[g].approvedBy.value in y.sessions && y.grants[g].approvedBy.value !in y.dead)
      && p !in y.steps && sid !in y.sessions && sid !in y.dead
    ensures var y := After(Start(start), actions);
      && IsRun(y, [Poll(p, g), Choose(p), Exchange(p, sid)])
      && var z := After(y, [Poll(p, g), Choose(p), Exchange(p, sid)]);
      && g in y.approvers && z.minted == y.minted + [Mint(g, sid, y.approvers[g].who, y.now)]
      && z.sessions == y.sessions[sid := y.approvers[g].who]
      && g in z.grants && z.grants[g].status == Exchanged
  {
    RunsKeepInv(Start(start), actions);
    var y := After(Start(start), actions);
    assert Shows(y.grants[g], y.approvers[g]) && SpeaksFor(y, y.approvers[g]);
    var x := Do(y, Poll(p, g));
    ApprovalHasABeneficiary(y, g);
    var w := Do(x, Choose(p));
    assert w.steps[p] == Minting(g, Polled(y.grants[g]), y.approvers[g].who);
    ThreeSteps(y, Poll(p, g), Choose(p), Exchange(p, sid));
  }

  /** A pending grant can be decided: from every reachable state in which it is
      unexpired, a signed-in person whom its scope admits approves or denies it. */
  lemma PendingGrantsAreDecided(
    start: Time, actions: seq<Action>, g: Gid, p: Pid, signer: Approver, approve: bool)
    requires IsRun(Start(start), actions)
    requires var y := After(Start(start), actions);
      && g in y.grants && y.grants[g].status == Pending && y.now < y.grants[g].expiresAt
      && (y.grants[g].scope.UserScope? <==> signer.who.UserIdentity?)
      && signer.sid in y.sessions && y.sessions[signer.sid] == signer.who && p !in y.steps
    ensures var y := After(Start(start), actions);
      && IsRun(y, [AuthorizeBegin(p, g, signer), AuthorizeCommit(p, approve)])
      && var z := After(y, [AuthorizeBegin(p, g, signer), AuthorizeCommit(p, approve)]);
      && g in z.grants && z.grants[g].status == (if approve then Approved else Denied)
      && (approve ==>
            && g in z.approvers && z.approvers[g] == signer
            && z.grants[g].approvedBy == Some(signer.sid) && z.grants[g].approvedEmail == signer.who.email)
  {
    var y := After(Start(start), actions);
    var a, b := AuthorizeBegin(p, g, signer), AuthorizeCommit(p, approve);
    var z := Do(Do(y, a), b);
    assert [a, b][1..] == [b] && [b][1..] == [];
    assert IsRun(z, []) && After(z, []) == z;
    assert IsRun(Do(y, a), [b]) && After(Do(y, a), [b]) == z;
  }

  lemma ApprovalHasABeneficiary(y: System, g: Gid)
    requires g in y.grants && g in y.approvers && Shows(y.grants[g], y.approvers[g]) && SpeaksFor(y, y.approvers[g])
    requires y.grants[g].scope.AdminScope? ==>
      && y.grants[g].approvedBy.Some?
      && y.grants[g].approvedBy.value in y.sessions && y.grants[g].approvedBy.value !in y.dead
    ensures Beneficiary(Polled(y.grants[g]), y.sessions, y.dead) == Some(y.approvers[g].who)
  {
  }

  lemma ThreeSteps(y: System, a: Action, b: Action, c: Action)
    requires Enabled(y, a) && Enabled(Do(y, a), b) && Enabled(Do(Do(y, a), b), c)
    ensures IsRun(y, [a, b, c]) && After(y, [a, b, c]) == Do(Do(Do(y, a), b), c)
  {
    assert [a, b, c][1..] == [b, c] && [b, c][1..] == [c] && [c][1..] == [];
    var z := Do(Do(Do(y, a), b), c);
    assert IsRun(z, []) && After(z, []) == z;
    assert IsRun(Do(Do(y, a), b), [c]) && After(Do(Do(y, a), b), [c]) == z;
    assert IsRun(Do(y, a), [b, c]) && After(Do(y, a), [b, c]) == z;
  }
}
