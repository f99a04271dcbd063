/**
  Stored login sessions: refresh rotation, revocation and impersonation.

  The first part is the repository: guarded UPDATEs over the session rows, as
  functions on the table and as the methods of `AuthStore`.  The second part
  interleaves the handlers that use it.  A refresh looks its session up, signs a
  token and rotates in separate steps; an impersonation login is authenticated
  and inserts its row in separate steps; revocations, clean-ups and clock ticks
  may fall between any two of them, and revocation writes may fail.
 */
module Sessions {
  import opened Common

  type Sid = nat
  type Hash = nat
  type Time = int

  datatype Subject = User | Admin | Impersonation

  datatype Session = Session(
    subject: Subject, asn: Option<int>, adminId: Option<string>, email: string, parent: Option<Sid>,
    refresh: Option<Hash>, previous: Option<Hash>, previousUntil: Time,
    expiresAt: Time, revokedAt: Option<Time>)

  type Db = map<Sid, Session>

  /** The table's CHECK constraint. */
  predicate WellShaped(s: Session) {
    match s.subject
    case User => s.asn.Some? && s.adminId.None?
    case Admin => s.adminId.Some? && s.asn.None? && s.parent.None?
    case Impersonation => s.asn.Some? && s.adminId.Some? && s.parent.Some?
  }

  /** `revoked_at IS NULL AND expires_at > now()` */
  predicate Live(s: Session, now: Time) {
    s.revokedAt.None? && s.expiresAt > now
  }

  const REUSE_WINDOW: Time := 10
  const PURGE_AFTER: Time := 7 * 24 * 3600

  predicate Rotatable(db: Db, id: Sid, oldHash: Hash, now: Time) {
    id in db && db[id].refresh == Some(oldHash) && Live(db[id], now)
  }

  function Rotate(db: Db, id: Sid, oldHash: Hash, newHash: Hash, now: Time): Db {
    if Rotatable(db, id, oldHash, now)
    then db[id := db[id].(refresh := Some(newHash), previous := Some(oldHash), previousUntil := now + REUSE_WINDOW)]
    else db
  }

  function Revoked(s: Session, now: Time): Session {
    if s.revokedAt.Some? then s else s.(revokedAt := Some(now), refresh := None)
  }

  function Revoke(db: Db, id: Sid, now: Time): Db {
    if id in db then db[id := Revoked(db[id], now)] else db
  }

  function RevokeChildren(db: Db, parent: Sid, now: Time): Db {
    map id | id in db :: if db[id].parent == Some(parent) then Revoked(db[id], now) else db[id]
  }

  predicate Purgeable(db: Db, id: Sid, now: Time) {
    id in db && db[id].expiresAt < now - PURGE_AFTER
  }

  /** Deletes long-expired rows and, by the foreign key, their children. */
  function Purge(db: Db, now: Time): Db {
    map id | id in db && !Purgeable(db, id, now)
             && !(db[id].parent.Some? && Purgeable(db, db[id].parent.value, now)) :: db[id]
  }

  // ----- Tokens ---------------------------------------------------------------

  datatype Role = UserRole | AdminRole

  /** The claims of a session-backed access token. */
  datatype Claims = Claims(role: Role, sid: Sid, asn: int, adminId: string, parent: Option<Sid>)

  /** The claims signed for a session, at login and at every refresh. */
  function Sign(id: Sid, s: Session): Claims
    requires WellShaped(s)
  {
    match s.subject
    case Admin => Claims(AdminRole, id, 0, s.adminId.value, None)
    case User => Claims(UserRole, id, s.asn.value, "", None)
    case Impersonation => Claims(UserRole, id, s.asn.value, s.adminId.value, s.parent)
  }

  /** A token speaks for exactly the person, the administrator and the parent of its
      session, in the role of its subject. */
  predicate SaysTheSession(c: Claims, s: Session) {
    && (c.role == AdminRole <==> s.subject == Admin)
    && (s.subject == User || s.subject == Impersonation ==> s.asn == Some(c.asn))
    && (s.subject == Admin || s.subject == Impersonation ==> s.adminId == Some(c.adminId))
    && (s.subject == User ==> c.adminId == "") && (s.subject == Admin ==> c.asn == 0)
    && c.parent == if s.subject == Impersonation then s.parent else None
  }

  lemma SignSaysTheSession(id: Sid, s: Session)
    requires WellShaped(s)
    ensures Sign(id, s).sid == id && SaysTheSession(Sign(id, s), s)
  {
  }

  /** Exactly one session has its hash replaced: the old one is remembered for ten
      seconds, and nothing else about it, its expiry included, or about any other
      session changes. */
  ghost predicate Rotated(before: Db, after: Db, id: Sid, oldHash: Hash, newHash: Hash, now: Time) {
    && after.Keys == before.Keys && id in before
    && before[id].refresh == Some(oldHash) && before[id].revokedAt.None? && now < before[id].expiresAt
    && after[id].refresh == Some(newHash)
    && after[id].previous == Some(oldHash) && after[id].previousUntil == now + 10
    && after[id].(refresh := before[id].refresh, previous := before[id].previous,
                  previousUntil := before[id].previousUntil) == before[id]
    && forall k :: k in before && k != id ==> after[k] == before[k]
  }

  /** Exactly the sessions in `ids` and those under `parent` are revoked, at `now`
      unless they were before, and lose their refresh hash; nothing else changes. */
  ghost predicate RevokedUnder(before: Db, after: Db, ids: set<Sid>, parent: Sid, now: Time) {
    && after.Keys == before.Keys
    && forall k :: k in before ==>
         if before[k].revokedAt.None? && (k in ids || before[k].parent == Some(parent))
         then after[k].revokedAt == Some(now) && after[k].refresh == None
              && after[k].(revokedAt := None, refresh := before[k].refresh) == before[k]
         else after[k] == before[k]
  }

  /** What the revoking statements do, and that afterwards nothing of the revoked
      sessions is accepted or rotated. */
  lemma RevocationIsExact(db: Db, id: Sid, now: Time)
    ensures RevokedUnder(db, RevokeChildren(Revoke(db, id, now), id, now), {id}, id, now)
    ensures RevokedUnder(db, RevokeChildren(db, id, now), {}, id, now)
    ensures var z := Revoke(db, id, now);
      && z.Keys == db.Keys && (forall k :: k in db && k != id ==> z[k] == db[k])
      && (id in z ==> z[id].revokedAt.Some?)
      && (forall c: Claims, t :: c.sid == id ==> !Accepts(z, c, t))
      && (forall hash, t :: id in db && (db[id].revokedAt.Some? ==> db[id].refresh.None?) ==> !Rotatable(z, id, hash, t))
  {
  }

  /** Cleaning up keeps every session that expired less than a week ago, unless its
      parent expired earlier than that, and keeps it as it is. */
  lemma PurgeIsExact(db: Db, now: Time, id: Sid)
    requires id in db
    ensures var stale := db[id].expiresAt < now - 604800;
            var orphaned := db[id].parent.Some? && db[id].parent.value in db
                            && db[db[id].parent.value].expiresAt < now - 604800;
      && (id in Purge(db, now) <==> !stale && !orphaned)
      && (id in Purge(db, now) ==> Purge(db, now)[id] == db[id])
  {
  }

  predicate Inactive(s: Session, now: Time) {
    s.revokedAt.Some? || now > s.expiresAt
  }

  /** validateSession */
  predicate Accepts(db: Db, c: Claims, now: Time) {
    && c.sid in db
    && var s := db[c.sid];
       && !Inactive(s, now)
       && (c.role.AdminRole? ==> s.subject.Admin?)
       && (c.role.UserRole? ==> s.subject.User? || s.subject.Impersonation?)
       && (s.subject.Impersonation? && s.parent.Some? ==>
             s.parent.value in db && !Inactive(db[s.parent.value], now))
  }

  // ----- The repository -------------------------------------------------------

  class AuthStore {
    var sessions: Db

    constructor ()
      ensures sessions == map[]
    {
      sessions := map[];
    }

    /** Fails when the id is taken, a unique hash or the CHECK is violated, or the
        parent does not exist. */
    method CreateAuthSession(id: Sid, s: Session) returns (ok: bool)
      modifies this
      ensures ok <==> Insertable(old(sessions), id, s)
      ensures sessions == if ok then old(sessions)[id := s] else old(sessions)
    {
      ok := Insertable(sessions, id, s);
      if ok {
        sessions := sessions[id := s];
      }
    }

    method GetAuthSessionByRefreshHash(hash: Hash, now: Time) returns (found: Option<Sid>)
      ensures found.Some? ==> Rotatable(sessions, found.value, hash, now)
      ensures found.None? ==> forall id :: !Rotatable(sessions, id, hash, now)
      ensures found.Some? <==>
        exists id :: id in sessions && sessions[id].refresh == Some(hash)
                     && sessions[id].revokedAt == None && now < sessions[id].expiresAt
    {
      found := None;
      if id :| id in sessions && Rotatable(sessions, id, hash, now) {
        found := Some(id);
      }
    }

    method GetAuthSessionByPreviousRefreshHash(hash: Hash, now: Time) returns (found: Option<Sid>)
      ensures found.Some? ==> Reused(sessions, found.value, hash, now)
      ensures found.None? ==> forall id :: !Reused(sessions, id, hash, now)
      ensures found.Some? <==>
        exists id :: id in sessions && sessions[id].previous == Some(hash) && now < sessions[id].previousUntil
                     && sessions[id].revokedAt == None && now < sessions[id].expiresAt
    {
      found := None;
      if id :| id in sessions && Reused(sessions, id, hash, now) {
        found := Some(id);
      }
    }

    method RotateAuthSessionRefresh(id: Sid, oldHash: Hash, newHash: Hash, now: Time) returns (ok: bool)
      modifies this
      ensures ok <==> Rotatable(old(sessions), id, oldHash, now)
      ensures sessions == Rotate(old(sessions), id, oldHash, newHash, now)
      ensures ok ==> Rotated(old(sessions), sessions, id, oldHash, newHash, now)
      ensures !ok ==> sessions == old(sessions)
    {
      ok := id in sessions && sessions[id].refresh == Some(oldHash)
            && sessions[id].revokedAt.None? && sessions[id].expiresAt > now;
      if ok {
        var s := sessions[id];
        sessions := sessions[id := s.(refresh := Some(newHash), previous := Some(oldHash), previousUntil := now + 10)];
      }
    }

    method RevokeAuthSession(id: Sid, now: Time) returns (ok: bool)
      modifies this
      ensures ok <==> id in old(sessions) && old(sessions)[id].revokedAt.None?
      ensures sessions == Revoke(old(sessions), id, now)
    {
      ok := id in sessions && sessions[id].revokedAt.None?;
      if ok {
        sessions := sessions[id := sessions[id].(revokedAt := Some(now), refresh := None)];
      }
    }

    method RevokeChildAuthSessions(parent: Sid, now: Time)
      modifies this
      ensures sessions == RevokeChildren(old(sessions), parent, now)
      ensures RevokedUnder(old(sessions), sessions, {}, parent, now)
    {
      var todo := sessions.Keys;
      while todo != {}
        invariant todo <= sessions.Keys == old(sessions).Keys
        invariant forall id :: id in sessions ==>
          sessions[id] == (if id !in todo && old(sessions)[id].parent == Some(parent)
                           then Revoked(old(sessions)[id], now) else old(sessions)[id])
        decreases todo
      {
        var id :| id in todo;
        if sessions[id].parent == Some(parent) && sessions[id].revokedAt.None? {
          sessions := sessions[id := sessions[id].(revokedAt := Some(now), refresh := None)];
        }
        todo := todo - {id};
      }
    }

    method ValidateSession(c: Claims, now: Time) returns (ok: bool)
      ensures ok <==> Accepts(sessions, c, now)
    {
      if c.sid !in sessions {
        return false;
      }
      var s := sessions[c.sid];
      if s.revokedAt.Some? || now > s.expiresAt {
        return false;
      }
      if c.role.AdminRole? && !s.subject.Admin? {
        return false;
      }
      if c.role.UserRole? && !s.subject.User? && !s.subject.Impersonation? {
        return false;
      }
      if s.subject.Impersonation? && s.parent.Some? {
        if s.parent.value !in sessions {
          return false;
        }
        var p := sessions[s.parent.value];
        if p.revokedAt.Some? || now > p.expiresAt {
          return false;
        }
      }
      return true;
    }

    /** The refresh handler run without interference: a live token is rotated
        and answered; a recently rotated one revokes its session and the
        sessions under it; anything else changes nothing. */
    method Refresh(hash: Hash, newHash: Hash, now: Time) returns (token: Option<Claims>)
      requires WellFormed(sessions)
      modifies this
      ensures token.Some? <==> exists id :: Rotatable(old(sessions), id, hash, now)
      ensures token.Some? ==>
        && var id := token.value.sid;
        && Rotatable(old(sessions), id, hash, now)
        && token.value == Sign(id, old(sessions)[id])
        && SaysTheSession(token.value, old(sessions)[id])
        && sessions == Rotate(old(sessions), id, hash, newHash, now)
        && Rotated(old(sessions), sessions, id, hash, newHash, now)
      ensures token.None? && (forall id :: !Reused(old(sessions), id, hash, now)) ==> sessions == old(sessions)
      ensures token.None? ==> forall id :: Reused(old(sessions), id, hash, now) ==>
        exists r :: Reused(old(sessions), r, hash, now)
                    && sessions == RevokeChildren(Revoke(old(sessions), r, now), r, now)
                    && RevokedUnder(old(sessions), sessions, {r}, r, now)
    {
      var found := GetAuthSessionByRefreshHash(hash, now);
      if found.None? {
        var reused := GetAuthSessionByPreviousRefreshHash(hash, now);
        if reused.Some? {
          var _ := RevokeAuthSession(reused.value, now);
          RevokeChildAuthSessions(reused.value, now);
          RevocationIsExact(old(sessions), reused.value, now);
        }
        return None;
      }
      token := Some(Sign(found.value, sessions[found.value]));
      SignSaysTheSession(found.value, sessions[found.value]);
      var rotated := RotateAuthSessionRefresh(found.value, hash, newHash, now);
      assert rotated;
    }
  }

  predicate Insertable(db: Db, id: Sid, s: Session) {
    && id !in db
    && WellShaped(s)
    && (forall k :: k in db ==> s.refresh.None? || db[k].refresh != s.refresh)
    && (s.parent.Some? ==> s.parent.value in db)
  }

  predicate Reused(db: Db, id: Sid, hash: Hash, now: Time) {
    && id in db && db[id].previous == Some(hash) && db[id].previousUntil > now && Live(db[id], now)
  }

  predicate WellFormed(db: Db) {
    forall id :: id in db ==> WellShaped(db[id])
  }

  // ----- Interleaved handlers ---------------------------------------------------

  type Pid = nat

  /** What a handler remembers between its steps. */
  datatype Pending =
    | Refreshing(sid: Sid, hash: Hash, token: Claims)
    | Impersonating(adminId: string, parent: Sid)

  datatype Redemption = Redemption(sid: Sid, hash: Hash, at: Time)

  /** `issued` and `born` are history: every refresh hash ever handed out, and
      the expiry every session was created with.  `redeemed` lists successful
      rotations in order; `tokens` holds every access token ever returned. */
  datatype System = System(
    now: Time, db: Db, pending: map<Pid, Pending>, tokens: set<Claims>,
    issued: set<Hash>, born: map<Sid, Time>, redeemed: seq<Redemption>)

  datatype Action =
    | Tick(to: Time)
    | Login(id: Sid, s: Session)
    | RefreshBegin(p: Pid, id: Sid, hash: Hash)
    | RefreshRotate(p: Pid, newHash: Hash, written: bool)
    | LoginAsBegin(p: Pid, token: Claims)
    | LoginAsCreate(p: Pid, id: Sid, asn: int, email: string, hash: Hash, expiresAt: Time)
    | RevokeOne(id: Sid)
    | RevokeUnder(parent: Sid)
    | CleanUp

  function Impersonator(p: Pending, asn: int, email: string, hash: Hash, expiresAt: Time): Session
    requires p.Impersonating?
  {
    Session(Impersonation, Some(asn), Some(p.adminId), email, Some(p.parent), Some(hash), None, 0, expiresAt, None)
  }

  predicate Enabled(y: System, a: Action) {
    match a
    case Tick(to) => y.now <= to
    case Login(id, s) =>
      // createUserSession / createAdminSession with a fresh random token; a
      // session id is never reused (gen_random_uuid).
      && id !in y.born && Insertable(y.db, id, s) && !s.subject.Impersonation? && s.parent.None?
      && s.refresh.Some? && s.refresh.value !in y.issued && s.previous.None? && s.revokedAt.None?
    case RefreshBegin(p, id, hash) =>
      p !in y.pending && Rotatable(y.db, id, hash, y.now) && WellShaped(y.db[id])
    case RefreshRotate(p, newHash, written) =>
      p in y.pending && y.pending[p].Refreshing? && newHash !in y.issued
    case LoginAsBegin(p, token) =>
      // RequireAdminWithSessions let the request through.
      p !in y.pending && token in y.tokens && token.role.AdminRole? && Accepts(y.db, token, y.now)
    case LoginAsCreate(p, id, asn, email, hash, expiresAt) =>
      && p in y.pending && y.pending[p].Impersonating?
      && id !in y.born && hash !in y.issued
      && Insertable(y.db, id, Impersonator(y.pending[p], asn, email, hash, expiresAt))
    case RevokeOne(id) => true
    case RevokeUnder(parent) => true
    case CleanUp => true
  }

  function Do(y: System, a: Action): System
    requires Enabled(y, a)
  {
    match a
    case Tick(to) => y.(now := to)
    case Login(id, s) =>
      y.(db := y.db[id := s], born := y.born[id := s.expiresAt],
         issued := y.issued + {s.refresh.value}, tokens := y.tokens + {Sign(id, s)})
    case RefreshBegin(p, id, hash) =>
      y.(pending := y.pending[p := Refreshing(id, hash, Sign(id, y.db[id]))])
    case RefreshRotate(p, newHash, written) =>
      var Refreshing(id, hash, token) := y.pending[p];
      var rest := y.(pending := y.pending - {p}, issued := y.issued + {newHash});
      if written && Rotatable(y.db, id, hash, y.now)
      then rest.(db := Rotate(y.db, id, hash, newHash, y.now), tokens := y.tokens + {token},
                 redeemed := y.redeemed + [Redemption(id, hash, y.now)])
      else rest
    case LoginAsBegin(p, token) =>
      y.(pending := y.pending[p := Impersonating(token.adminId, token.sid)])
    case LoginAsCreate(p, id, asn, email, hash, expiresAt) =>
      var s := Impersonator(y.pending[p], asn, email, hash, expiresAt);
      y.(db := y.db[id := s], pending := y.pending - {p}, born := y.born[id := expiresAt],
         issued := y.issued + {hash}, tokens := y.tokens + {Sign(id, s)})
    case RevokeOne(id) => y.(db := Revoke(y.db, id, y.now))
    case RevokeUnder(parent) => y.(db := RevokeChildren(y.db, parent, y.now))
    case CleanUp => y.(db := Purge(y.db, y.now))
  }

  ghost predicate IsRun(y: System, actions: seq<Action>)
    decreases |actions|
  {
    actions == [] || (Enabled(y, actions[0]) && IsRun(Do(y, actions[0]), actions[1..]))
  }

  ghost function After(y: System, actions: seq<Action>): System
    requires IsRun(y, actions)
    decreases |actions|
  {
    if actions == [] then y else After(Do(y, actions[0]), actions[1..])
  }

  function Start(now: Time): System {
    System(now, map[], map[], {}, {}, map[], [])
  }

  // ----- Invariants ---------------------------------------------------------------

  ghost predicate RowsRecorded(y: System) {
    forall id :: id in y.db ==>
      && WellShaped(y.db[id])
      && id in y.born && y.db[id].expiresAt == y.born[id]
      && (y.db[id].refresh.Some? ==> y.db[id].refresh.value in y.issued)
      && (y.db[id].revokedAt.Some? ==> y.db[id].refresh.None?)
  }

  ghost predicate PendingRecorded(y: System) {
    forall p :: p in y.pending && y.pending[p].Refreshing? ==>
      y.pending[p].sid in y.born && y.pending[p].hash in y.issued
  }

  ghost predicate RedeemedRecorded(y: System) {
    forall k :: 0 <= k < |y.redeemed| ==>
      && y.redeemed[k].hash in y.issued
      && y.redeemed[k].sid in y.born && y.redeemed[k].at < y.born[y.redeemed[k].sid]
  }

  ghost predicate Recorded(y: System) {
    WellFormed(y.db) && RowsRecorded(y) && PendingRecorded(y) && RedeemedRecorded(y)
  }

  ghost predicate HashesDistinct(y: System) {
    forall i, j :: i in y.db && j in y.db && i != j && y.db[i].refresh.Some? ==> y.db[i].refresh != y.db[j].refresh
  }

  ghost predicate RedeemedOnce(y: System) {
    && (forall k, l :: 0 <= k < l < |y.redeemed| ==> y.redeemed[k].hash != y.redeemed[l].hash)
    && (forall k, id :: 0 <= k < |y.redeemed| && id in y.db ==> y.db[id].refresh != Some(y.redeemed[k].hash))
  }

  /** A token says what its session says. */
  ghost predicate Matches(y: System, c: Claims)
    requires WellFormed(y.db)
  {
    c.sid in y.born && (c.sid in y.db ==> c == Sign(c.sid, y.db[c.sid]))
  }

  ghost predicate AdminIfPresent(y: System, id: Sid) {
    id in y.born && (id in y.db ==> y.db[id].subject.Admin?)
  }

  /** Tokens match the session they are bound to, and impersonation hangs off
      administrator sessions only. */
  ghost predicate Bound(y: System)
    requires WellFormed(y.db)
  {
    && (forall c :: c in y.tokens ==> Matches(y, c))
    && (forall p :: p in y.pending && y.pending[p].Refreshing? ==>
          y.pending[p].token.sid == y.pending[p].sid && Matches(y, y.pending[p].token))
    && (forall p :: p in y.pending && y.pending[p].Impersonating? ==> AdminIfPresent(y, y.pending[p].parent))
    && (forall id :: id in y.db && y.db[id].parent.Some? ==> AdminIfPresent(y, y.db[id].parent.value))
  }

  ghost predicate Inv(y: System) {
    Recorded(y) && HashesDistinct(y) && RedeemedOnce(y) && Bound(y)
  }

  /** What no action ever does to a session row. */
  ghost predicate RowKept(s: Session, t: Session) {
    && t.subject == s.subject && t.asn == s.asn && t.adminId == s.adminId && t.parent == s.parent
    && t.expiresAt == s.expiresAt
    && (s.revokedAt.Some? ==> t == s)
  }

  /** One action: known ids are never recreated, and surviving rows keep their
      identity, their expiry and their revocation. */
  ghost predicate Evolves(y: System, z: System) {
    && y.now <= z.now
    && y.tokens <= z.tokens
    && (forall id :: id in y.born ==> id in z.born && z.born[id] == y.born[id])
    && (forall id :: id in y.born && id in z.db ==> id in y.db && RowKept(y.db[id], z.db[id]))
    && |y.redeemed| <= |z.redeemed| && z.redeemed[..|y.redeemed|] == y.redeemed
  }

  lemma StepEvolves(y: System, a: Action)
    requires Recorded(y) && Enabled(y, a)
    ensures Evolves(y, Do(y, a))
  {
  }

  lemma StepKeepsRows(y: System, a: Action)
    requires Recorded(y) && Enabled(y, a)
    ensures RowsRecorded(Do(y, a))
  {
  }

  lemma StepKeepsPending(y: System, a: Action)
    requires Recorded(y) && Enabled(y, a)
    ensures PendingRecorded(Do(y, a))
  {
  }

  lemma StepKeepsRedeemed(y: System, a: Action)
    requires Recorded(y) && Enabled(y, a)
    ensures RedeemedRecorded(Do(y, a))
  {
  }

  lemma StepKeepsRecorded(y: System, a: Action)
    requires Recorded(y) && Enabled(y, a)
    ensures Recorded(Do(y, a))
  {
    StepKeepsRows(y, a);
    StepKeepsPending(y, a);
    StepKeepsRedeemed(y, a);
  }

  lemma StepKeepsHashes(y: System, a: Action)
    requires Recorded(y) && HashesDistinct(y) && RedeemedOnce(y) && Enabled(y, a)
    ensures HashesDistinct(Do(y, a)) && RedeemedOnce(Do(y, a))
  {
    StepKeepsDistinct(y, a);
  }

  lemma StepKeepsDistinct(y: System, a: Action)
    requires Recorded(y) && HashesDistinct(y) && Enabled(y, a)
    ensures HashesDistinct(Do(y, a))
  {
  }

  lemma EvolutionKeepsMatches(y: System, z: System)
    requires WellFormed(y.db) && WellFormed(z.db) && Evolves(y, z)
    ensures forall c :: Matches(y, c) ==> Matches(z, c)
    ensures forall id :: AdminIfPresent(y, id) ==> AdminIfPresent(z, id)
  {
  }

  lemma StepKeepsParents(y: System, a: Action)
    requires Recorded(y) && Bound(y) && Enabled(y, a)
    ensures var z := Do(y, a);
      && (forall p :: p in z.pending && z.pending[p].Impersonating? ==> AdminIfPresent(z, z.pending[p].parent))
      && (forall id :: id in z.db && z.db[id].parent.Some? ==> AdminIfPresent(z, z.db[id].parent.value))
  {
    StepKeepsRecorded(y, a);
    StepEvolves(y, a);
    var z := Do(y, a);
    EvolutionKeepsMatches(y, z);
    if a.LoginAsBegin? {
      assert Matches(y, a.token);
    }
    forall id | id in z.db && z.db[id].parent.Some?
      ensures AdminIfPresent(z, z.db[id].parent.value)
    {
      if id in y.db {
        assert AdminIfPresent(y, y.db[id].parent.value);
      } else {
        assert a.LoginAsCreate?;
        assert AdminIfPresent(y, y.pending[a.p].parent);
      }
    }
  }

  lemma StepKeepsTokens(y: System, a: Action)
    requires Recorded(y) && Bound(y) && Enabled(y, a)
    ensures var z := Do(y, a);
      && WellFormed(z.db)
      && (forall c :: c in z.tokens ==> Matches(z, c))
      && (forall p :: p in z.pending && z.pending[p].Refreshing? ==>
            z.pending[p].token.sid == z.pending[p].sid && Matches(z, z.pending[p].token))
  {
    StepKeepsRecorded(y, a);
    StepEvolves(y, a);
    EvolutionKeepsMatches(y, Do(y, a));
  }

  lemma StepKeepsInv(y: System, a: Action)
    requires Inv(y) && Enabled(y, a)
    ensures Inv(Do(y, a)) && Evolves(y, Do(y, a))
  {
    StepKeepsRecorded(y, a);
    StepKeepsHashes(y, a);
    StepKeepsTokens(y, a);
    StepKeepsParents(y, a);
    StepEvolves(y, a);
  }

  lemma {:induction false} RunsKeepInv(y: System, actions: seq<Action>)
    requires Inv(y) && IsRun(y, actions)
    ensures Inv(After(y, actions)) && Evolves(y, After(y, actions))
    decreases |actions|
  {
    if actions != [] {
      var z := Do(y, actions[0]);
      StepKeepsInv(y, actions[0]);
      RunsKeepInv(z, actions[1..]);
      EvolvesTransitive(y, z, After(z, actions[1..]));
    }
  }

  lemma EvolvesTransitive(x: System, y: System, z: System)
    requires Evolves(x, y) && Evolves(y, z)
    ensures Evolves(x, z)
  {
  }

  // ----- The theorems ---------------------------------------------------------------

  /** Over every interleaving: each refresh hash is redeemed at most once, live
      hashes are pairwise distinct, and every redemption happens before the
      expiry its session was created with, which no rotation moves. */
  lemma RefreshIsOneShot(start: Time, actions: seq<Action>)
    requires IsRun(Start(start), actions)
    ensures var y := After(Start(start), actions);
      && (forall k, l :: 0 <= k < l < |y.redeemed| ==> y.redeemed[k].hash != y.redeemed[l].hash)
      && (forall i, j :: i in y.db && j in y.db && i != j && y.db[i].refresh.Some? ==>
            y.db[i].refresh != y.db[j].refresh)
      && (forall id :: id in y.db ==> id in y.born && y.db[id].expiresAt == y.born[id])
      && (forall k :: 0 <= k < |y.redeemed| ==>
            y.redeemed[k].sid in y.born && y.redeemed[k].at < y.born[y.redeemed[k].sid])
  {
    RunsKeepInv(Start(start), actions);
  }

  ghost predicate Dead(y: System, id: Sid) {
    id in y.born && (id in y.db ==> Inactive(y.db[id], y.now))
  }

  lemma DeathIsForever(y: System, z: System, id: Sid)
    requires Recorded(y) && Evolves(y, z) && Dead(y, id)
    ensures Dead(z, id)
  {
  }

  ghost predicate NewlyRedeemed(y: System, z: System, id: Sid) {
    exists k :: |y.redeemed| <= k < |z.redeemed| && z.redeemed[k].sid == id
  }

  lemma DeadIsNotRedeemedNow(y: System, a: Action, id: Sid)
    requires Enabled(y, a) && Dead(y, id)
    ensures !NewlyRedeemed(y, Do(y, a), id)
  {
  }

  lemma {:induction false} DeadIsNeverRedeemed(y: System, actions: seq<Action>, id: Sid)
    requires Inv(y) && IsRun(y, actions) && Dead(y, id)
    ensures !NewlyRedeemed(y, After(y, actions), id)
    decreases |actions|
  {
    if actions != [] {
      var x := Do(y, actions[0]);
      StepKeepsInv(y, actions[0]);
      DeathIsForever(y, x, id);
      DeadIsNotRedeemedNow(y, actions[0], id);
      DeadIsNeverRedeemed(x, actions[1..], id);
      RunsKeepInv(x, actions[1..]);
      var z := After(x, actions[1..]);
      forall k | |y.redeemed| <= k < |z.redeemed|
        ensures z.redeemed[k].sid != id
      {
        if k < |x.redeemed| {
          assert z.redeemed[k] == z.redeemed[..|x.redeemed|][k] == x.redeemed[k];
        }
      }
    }
  }

  /** Once a session is revoked, expired or cleaned away, no later state redeems
      a refresh token of it. */
  lemma DeadSessionsNeverRefresh(start: Time, before: seq<Action>, later: seq<Action>, id: Sid)
    requires IsRun(Start(start), before) && IsRun(After(Start(start), before), later)
    requires Dead(After(Start(start), before), id)
    ensures var y := After(Start(start), before);
            !NewlyRedeemed(y, After(y, later), id)
  {
    RunsKeepInv(Start(start), before);
    DeadIsNeverRedeemed(After(Start(start), before), later, id);
  }

  /** Once an administrator's session is dead, no token of an impersonation under
      it is accepted in any later state, whether or not the write that revokes
      the impersonations ever happened. */
  lemma ImpersonationEndsWithItsParent(
    start: Time, before: seq<Action>, later: seq<Action>, parent: Sid, c: Claims)
    requires IsRun(Start(start), before) && IsRun(After(Start(start), before), later)
    requires Dead(After(Start(start), before), parent)
    ensures var z := After(After(Start(start), before), later);
      c.sid in z.db && z.db[c.sid].subject.Impersonation? && z.db[c.sid].parent == Some(parent) ==>
        !Accepts(z.db, c, z.now)
  {
    RunsKeepInv(Start(start), before);
    var y := After(Start(start), before);
    RunsKeepInv(y, later);
    DeathIsForever(y, After(y, later), parent);
  }

  /** In every reachable state a returned token that is accepted carries the role,
      the ASN and the administrator of its session; the parent of an accepted
      impersonation is a live administrator session, itself without a parent. */
  lemma AcceptedTokensAreBound(start: Time, actions: seq<Action>, c: Claims)
    requires IsRun(Start(start), actions)
    requires var y := After(Start(start), actions); c in y.tokens && Accepts(y.db, c, y.now)
    ensures var y := After(Start(start), actions);
      && WellShaped(y.db[c.sid]) && SaysTheSession(c, y.db[c.sid])
      && (c.parent.Some? ==>
            && c.parent.value in y.db && y.db[c.parent.value].subject.Admin?
            && y.db[c.parent.value].parent.None? && !Inactive(y.db[c.parent.value], y.now))
  {
    RunsKeepInv(Start(start), actions);
    var y := After(Start(start), actions);
    assert Matches(y, c);
    SignSaysTheSession(c.sid, y.db[c.sid]);
    if c.parent.Some? {
      assert AdminIfPresent(y, c.parent.value);
    }
  }

  /** In every reachable state a token that was ever returned is accepted exactly
      while its session exists, unrevoked and not past its expiry, and, for an
      impersonation, the session of its administrator is too. */
  lemma TokensAreAcceptedExactly(start: Time, actions: seq<Action>, c: Claims)
    requires IsRun(Start(start), actions) && c in After(Start(start), actions).tokens
    ensures var y := After(Start(start), actions);
      Accepts(y.db, c, y.now) <==>
        && c.sid in y.db && y.db[c.sid].revokedAt == None && y.now <= y.db[c.sid].expiresAt
        && (c.parent.Some? ==>
              c.parent.value in y.db && y.db[c.parent.value].revokedAt == None
              && y.now <= y.db[c.parent.value].expiresAt)
  {
    RunsKeepInv(Start(start), actions);
    var y := After(Start(start), actions);
    assert Matches(y, c);
  }

  /** In every reachable state the holder of a session's refresh token can redeem it
      while the session is live, and gets the session's own claims. */
  lemma LiveSessionsRefresh(start: Time, actions: seq<Action>, id: Sid, p: Pid, newHash: Hash)
    requires IsRun(Start(start), actions)
    requires var y := After(Start(start), actions);
      && id in y.db && y.db[id].refresh.Some? && y.db[id].revokedAt.None? && y.now < y.db[id].expiresAt
      && p !in y.pending && newHash !in y.issued
    ensures var y := After(Start(start), actions);
            var hash := y.db[id].refresh.value;
      && Enabled(y, RefreshBegin(p, id, hash))
      && var x := Do(y, RefreshBegin(p, id, hash));
      && Enabled(x, RefreshRotate(p, newHash, true))
      && var z := Do(x, RefreshRotate(p, newHash, true));
      && z.redeemed == y.redeemed + [Redemption(id, hash, y.now)]
      && Rotated(y.db, z.db, id, hash, newHash, y.now)
      && exists c :: c in z.tokens && c.sid == id && SaysTheSession(c, z.db[id])
  {
    RunsKeepInv(Start(start), actions);
    var y := After(Start(start), actions);
    var x := Do(y, RefreshBegin(p, id, y.db[id].refresh.value));
    var z := Do(x, RefreshRotate(p, newHash, true));
    SignSaysTheSession(id, y.db[id]);
    assert Sign(id, y.db[id]) in z.tokens;
  }
}
