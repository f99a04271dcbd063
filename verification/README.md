# autopeer-center: a verified model of its state machines

autopeer-center is the control plane of an automatic BGP peering service. Its
difficult code is a collection of state machines over database rows, agent
configuration, leases, caches and clocks, in which any call may be refused, may
fail, or may succeed without the caller ever learning it. This project models
those machines in Dafny and proves what they keep over every run.

Handlers that change stored state are classes whose methods are tied to a
specification function of the old state; the specification functions are what
the protocol machines and the theorems are about. Network, database and agent
outcomes are parameters, so one quantified statement covers every combination of
outcomes; time is an integer parameter. A run is a sequence of atomic actions,
and the theorems quantify over all runs.

| file | component |
|---|---|
| `PeerLifecycle.dfy` | approve, suspend, unsuspend, update and delete as a protocol over the database row and the agent |
| `PeerInterleaving.dfy` | all interleavings of those requests on one peer, with syncs of the active peers and the unlocked reject |
| `Reconcile.dfy` | one reconcile pass over the fleet |
| `Sessions.dfy` | refresh rotation, revocation, impersonation and token validation, interleaved |
| `DeviceGrants.dfy` | device authorization grants (sections 3.4 and 3.5 of RFC 8628), interleaved |
| `Leases.dfy` | Redis leases, the in-process locker, timed renewal |
| `Inactivity.dfy` | the inactivity sweep racing heartbeats |
| `Cache.dfy` | expiry of the key-value cache on either backend |
| `SlidingWindow.dfy`, `KeyAuthLimiter.dfy`, `LookingGlassLimiter.dfy` | the three rate limiters |
| `LatencyAlerts.dfy`, `EndpointAlerts.dfy` | the two alert machines |
| `ApiVersion.dfy`, `PeerImport.dfy`, `FlapMerge.dfy` | response downgrade, peer export and import, merging of flap snapshots |
| `Common.dfy` | `Option` |

## Assumptions

- A refused command has no effect on the agent; a command whose reply is lost may
  or may not have taken effect; a failed database write leaves the row unchanged.
- In `PeerInterleaving` the 30-second lease on `peer:<id>` does not lapse. The
  handlers proceed without the lock when acquiring it errs
  (internal/handler/lock.go:19-33); the machine has that step, the theorem on
  exclusion is for runs without it, and `UnlockedRunsDiverge` shows what it costs.
- Random tokens and generated ids are fresh; hashes are taken to be the tokens;
  signatures are taken to verify exactly what was signed.
- Clocks are monotone and shared. The looking-glass limiter reads the clock once
  per call.
- The cache backend is available. (With Redis configured, no local backend is
  opened, so a failing `Put` can return without storing anything.)
- Rates, round-trip times and averages are real numbers. Unsigned counters of the
  flap merge wrap as in the source; all other integers are unbounded.

## Where the code does not do what one would expect

The model follows the code in each of these places.

- Inactivity sweep. The comments at internal/inactivity/worker.go:204-209 say that
  a peer that becomes active again is not deleted. A heartbeat that lands between
  the snapshot and the stage-3 write is overwritten by that write, and the peer is
  deleted (`RevivedPeersCanBeDeleted`). `SweepDeletesExactly` gives the condition. If
  that delete fails, the peer stays at stage 3 and a later sweep deletes it without
  a new warning; `WarningsAreOrderly` states exactly when a deletion is unwarned.
- Renewal. A lifetime of four seconds is not enough when it is not a whole number
  of milliseconds, because Redis drops the fraction that the ticker keeps, nor
  when renewal starts late. `Roomy` is the exact condition (`RenewalKeepsTheLease`
  and `TightLeasesLapse`).
- Import with overwrite is not idempotent in general: an update that fails on the
  unique (node, port) constraint can succeed the second time
  (`OverwriteNeedNotBeIdempotent`). Without overwrite it always is. With overwrite,
  `OverwriteTwiceIff` gives the exact condition for distinct peers; for repeated ones
  `OverwriteTwiceIfQuiescent` gives a condition on the table after the first pass,
  and `OverwriteIsStableByPeer` the exact one by following the pass.
- The bot's delete reads the row before taking the lock and ignores the agent's
  answer (internal/ws/bot_peer_handler.go:196-237); the reject handler checks the
  status and writes it without the lock (internal/handler/admin_peer.go:489-526);
  a sync of the active peers may be delivered inside a critical section, or after
  the row it read has changed. Each can part the stores without any failing call
  (`BotDeleteCanRace`, `RejectCanRace`, `ReconcileCanRace`, `StaleSyncParts`). Among
  the modelled actions these races are the only ones, and each of them is one exactly
  when it leaves a state from which a faultless continuation ends in disagreement
  (`RacesAreExact` with `HealthIsExact`).
- A push of the active peers sends an empty list when the rows cannot be read
  (internal/ws/handshake.go:264-320), and a list dropped for a full send buffer is
  counted as pushed; `Reconcile.Hub.RunPass` states both.
- The in-process locker deletes a key whoever holds it, so a lease released twice
  breaks exclusion (`DoubleReleaseBreaksExclusion`); `ReleaseKeepsExclusionIff` is
  the exact condition.

## Model

| member | source | states |
|---|---|---|
| PeerLifecycle.DivergenceIsExact | internal/handler/admin_peer.go:398-732 | For every request, the bot's delete included, and every combination of command and write outcomes, from an agreeing state: database and agent agree afterwards if and only if the outcomes are not among the listed diverging ones (lost command that took effect, ineffective compensation after a failed write, failed write after acknowledged commands of an update or delete; for the bot's delete of an active peer, exactly one of command and write taking effect). |
| PeerLifecycle.SuccessMeansAgreement | internal/handler/admin_peer.go:1079-1241 | A request that reports success leaves database and agent in agreement, with the same configuration; the bot's delete does so exactly when it did not delete an active peer whose agent it never reached. |
| PeerLifecycle.SuccessDoesTheJob | internal/handler/peer.go:650-822 | Success is reported only where the request is permitted, always when it is permitted and no call fails; the row is then exactly what was asked for, for an update field by field, and untouched on every other reply. Only the bot's delete succeeds on a row that is gone. |
| PeerLifecycle.UpdatesGoWhereTheyShould | internal/handler/admin_peer.go:1079-1241 | A successful update gives endpoint, public key, link-local address and MTU of the row the values the body names for them and leaves the rest; an active peer's agent has the same; a body that names nothing, fails validation or asks for an MTU outside 576 to 9000 is refused without any change. |
| PeerLifecycle.RepliesAreExact | internal/handler/peer.go:650-822 | When each reply is given, as an iff on the request, the row and the outcomes: bad request, not found, agent unreachable, agent refused, store failed; the bot's delete reports only its write. |
| PeerLifecycle.DisagreementHasACause | internal/handler/peer.go:439-511 | If stores that agreed disagree after a request, the run met a lost command, a compensation that was not acknowledged, or a failed write after acknowledged commands in an update or delete, or it was the bot's delete with a stale read or a node not connected. |
| PeerLifecycle.SafeRunsAgree | internal/handler/admin_peer.go:398-464 | A call tree that is safe in a state ends in agreement on every resolution of its outcomes that meets no blamed event. |
| PeerLifecycle.PlansAreSafe | internal/handler/admin_peer.go:528-732 | From every agreeing state the call tree of a request is safe, whatever the row read gave, if and only if it is not a bot's delete of an active peer that read the row before it was active or found the node not connected. |
| PeerLifecycle.SafeIsExact | internal/handler/admin_peer.go:398-464 | A call tree of at most three commands and one write per path is safe if and only if every run of it without a blamed event ends in agreement. |
| PeerLifecycle.PlansAreShort | internal/handler/admin_peer.go:1079-1241 | The call tree of every request has at most three commands and one write on any path. |
| PeerLifecycle.PeerController.ApprovePeer | internal/handler/admin_peer.go:398-464 | Follows the approval tree; success only in agreement; disagreement exactly on the diverging outcomes, and then either the divergence audit entry was written or the first command was lost after taking effect. |
| PeerLifecycle.PeerController.SuspendPeer | internal/handler/admin_peer.go:528-600 | Follows the suspension tree, with the same agreement guarantees. |
| PeerLifecycle.PeerController.UnsuspendPeer | internal/handler/admin_peer.go:602-667 | Follows the unsuspension tree, with the same agreement guarantees. |
| PeerLifecycle.PeerController.DeletePeer | internal/handler/admin_peer.go:669-732 | Follows the deletion tree of the administrator, or of the user on their own rows only, with the same agreement guarantees. |
| PeerLifecycle.PeerController.BotDeletePeer | internal/ws/bot_peer_handler.go:196-237 | Follows the bot's deletion tree: success means agreement unless the deletion was blind, and the stores part exactly on the diverging outcomes. |
| PeerLifecycle.PeerController.UpdatePeer | internal/handler/admin_peer.go:1079-1241 | Follows the update tree (remove, add, restore on failure, write) of the administrator or the user, with the same agreement guarantees; on success every named field has its own new value in row and agent and the others are kept; an unusable body changes nothing. |
| PeerInterleaving.LockedRequestsAgree | internal/handler/lock.go:19-33 | In every interleaving in which acquiring the lock never errs, at most one request is in its critical section, and whenever the lock is free the stores agree unless a fault or one of the named races happened since the last sync that left things healthy. |
| PeerInterleaving.FaultFreeRunsAgree | internal/handler/admin_peer.go:466-487 | Without faults and races, the stores agree in every reachable state in which the lock is free. |
| PeerInterleaving.ReconcileHeals | internal/ws/handshake.go:253-320 | After any run whatsoever, requests without the lock included, a sync delivered while no request is in its critical section restores agreement if and only if the agent's share of the row is what it was when the sync read it, whatever happened in between; clean runs keep it. |
| PeerInterleaving.HealthIsExact | internal/ws/handshake.go:264-320 | A state is healthy if and only if every continuation without faults and races agrees whenever the lock is free. |
| PeerInterleaving.RacesAreExact | internal/handler/admin_peer.go:489-526 | From a healthy state a reject, a sync or the bot's read counts as a race if and only if it leaves an unhealthy state. |
| PeerInterleaving.RacesOutsideTheLock | internal/handler/admin_peer.go:489-526 | From a healthy state a reject is harmless wherever the row is not active, and with the lock free only there; a sync with the lock free is harmless if and only if it carries what the row wants. |
| PeerInterleaving.RejectInsideRemoval | internal/handler/admin_peer.go:669-732 | A reject on an active row is harmless inside a deletion that has removed the tunnel, and a race inside such a suspension. |
| PeerInterleaving.UnhealthyParts | internal/handler/admin_peer.go:528-600 | From every unhealthy state the lock holder can finish without any fault with the stores apart. |
| PeerInterleaving.StepKeepsHealth | internal/handler/peer.go:439-511 | Every action without a fault or race keeps: outside critical sections the stores agree; inside one, what the holder still has to do leads back to agreement. |
| PeerInterleaving.SafeIsStable | internal/handler/admin_peer.go:489-526 | An unlocked reject of an inactive row does not disturb the safety of whatever the lock holder still has to do. |
| PeerInterleaving.ReconcileCanRace | internal/ws/handshake.go:264-320 | A sync inside a suspension leaves the stores apart although every call succeeded. |
| PeerInterleaving.StaleSyncParts | internal/ws/handshake.go:264-320 | A sync that reads before a suspension and is delivered after it leaves a tunnel for a suspended row, although the lock was free at both moments. |
| PeerInterleaving.BotDeleteCanRace | internal/ws/bot_peer_handler.go:196-237 | An approval between the bot's read and its lock leaves a tunnel without a row although every call succeeded. |
| PeerInterleaving.RejectCanRace | internal/handler/admin_peer.go:489-526 | An approval between the reject handler's check and write leaves a rejected row with a running tunnel. |
| PeerInterleaving.UnlockedRunsDiverge | internal/handler/lock.go:24-28 | If acquiring the lock errs, a delete runs inside an approval; both succeed, no command or write fails, and the tunnel stays without a row. |
| Reconcile.Hub.RunPass | internal/reconcile/reconcile.go:106-129 | After a pass, every visited online node with readable rows and room in its buffer runs exactly its active peers with their configuration; unreadable ones run nothing; lists for full buffers are parked, though counted; all other agents are untouched; the count is the number of online nodes visited. |
| Reconcile.Hub.Retry | internal/ws/handshake.go:307-318 | A parked list is delivered or dropped; delivered, the node agrees if and only if the list is still its active set. |
| Reconcile.PassReaches | internal/reconcile/reconcile.go:106-129 | A pass changes exactly the agents it reaches, each to its list. |
| Reconcile.ActiveSetAgrees | internal/ws/handshake.go:264-320 | The pushed set is the only one that agrees with the rows of a node. |
| Sessions.RefreshIsOneShot | internal/repository/auth.go:225-271 | In every interleaving each refresh hash is redeemed at most once, live hashes are pairwise distinct, the expiry fixed at creation never moves, and every redemption happens before it. |
| Sessions.DeadSessionsNeverRefresh | internal/handler/auth.go:1424-1517 | Once a session is revoked, expired or cleaned away, no later state redeems a refresh token of it, even by a request already under way. |
| Sessions.ImpersonationEndsWithItsParent | internal/middleware/middleware.go:339-371 | Once an administrator's session is dead, no token of an impersonation under it is accepted in any later state, whether or not the children were ever revoked. |
| Sessions.AcceptedTokensAreBound | internal/middleware/middleware.go:198-276 | In every reachable state an accepted token has the role of its session's subject, its ASN for user and impersonation sessions, its administrator for admin and impersonation sessions, and its parent; the parent of an accepted impersonation is a live administrator session without a parent of its own. |
| Sessions.TokensAreAcceptedExactly | internal/middleware/middleware.go:339-371 | In every reachable state a token ever returned is accepted if and only if its session exists, is unrevoked and not past its expiry, and so is the parent of an impersonation. |
| Sessions.LiveSessionsRefresh | internal/handler/auth.go:1424-1517 | From every reachable state the holder of a live session's refresh token can redeem it, gets the session's own claims, and exactly the hash columns of that session change. |
| Sessions.RevocationIsExact | internal/repository/auth.go:283-309 | Revoking sets the time and clears the hash of exactly the session, or the children, that were not revoked; afterwards no token of the session is accepted and no hash of it rotated. |
| Sessions.PurgeIsExact | internal/repository/audit.go:208-215 | Cleaning up removes exactly the sessions that expired more than a week ago and those whose parent did, and leaves the others as they are. |
| Sessions.RunsKeepInv | internal/handler/auth.go:1380-1422 | Every run keeps the session invariants and evolves rows monotonically (identity, expiry and revocation are permanent). |
| Sessions.AuthStore.Refresh | internal/handler/auth.go:1424-1517 | A token is returned iff a live session holds the hash; it carries that session's ASN, administrator, parent and role, and exactly that session's hash is rotated, the old one being remembered for ten seconds; a recently rotated hash revokes exactly its session and its children; anything else changes nothing. |
| Sessions.AuthStore.GetAuthSessionByRefreshHash | internal/repository/auth.go:225-237 | Finds a live session with the hash, and nothing only if there is none. |
| Sessions.AuthStore.GetAuthSessionByPreviousRefreshHash | internal/repository/auth.go:239-252 | Finds a live session whose previous hash is still in its reuse window, and nothing only if there is none. |
| Sessions.AuthStore.RotateAuthSessionRefresh | internal/repository/auth.go:254-271 | Compare-and-swap: succeeds iff the live session still holds the old hash. |
| Sessions.AuthStore.RevokeAuthSession | internal/repository/auth.go:283-297 | Revokes a session once and clears its hash; reports whether it did. |
| Sessions.AuthStore.RevokeChildAuthSessions | internal/repository/auth.go:299-309 | Revokes exactly the unrevoked children of a session. |
| Sessions.AuthStore.ValidateSession | internal/middleware/middleware.go:339-371 | Accepts iff the session is live, its subject fits the role, and the parent of an impersonation exists and is live. |
| DeviceGrants.GrantsMintOnceForTheirApprover | internal/repository/auth.go:404-447 | In every interleaving a grant mints at most one session, exactly when it is exchanged, before it expires, and for exactly the identity that approved it, which fits the requested scope. |
| DeviceGrants.GrantsOnlyMoveForward | internal/repository/auth.go:351-447 | Between any two points of any run a grant moves only from pending to approved or denied and from approved to exchanged, and what its approver wrote never changes. |
| DeviceGrants.StepEvolves | internal/repository/auth.go:351-402 | Every single action makes at most one such move on a grant and keeps the approved fields. |
| DeviceGrants.StepKeepsSteps | internal/handler/auth.go:970-1034 | A poll under way never knows a beneficiary other than the recorded approver. |
| DeviceGrants.GrantStore.AuthorizeAuthDeviceGrant | internal/repository/auth.go:351-385 | Approves or denies iff the grant is pending and unexpired, and records the approver. |
| DeviceGrants.GrantStore.ExchangeAuthDeviceGrant | internal/repository/auth.go:404-447 | Exchanges and inserts the session together iff the grant is approved, unexpired and has an approver. |
| DeviceGrants.GrantStore.DeviceToken | internal/handler/auth.go:970-1034 | The replies of section 3.5 of RFC 8628: slow_down over the rate, unsupported_grant_type for another grant type or a blank code, otherwise by the grant's status; an admitted poll of an approved, unexpired grant with an email mints for an identity iff that is the user with the approved ASN and email, or the administrator of the approving session while it exists and is not dead. |
| DeviceGrants.ApprovedGrantsMint | internal/handler/auth.go:600-675 | From every reachable state in which a grant is approved, unexpired and complete, and for the admin scope its approving session alive, the run of poll, choice and exchange mints its session for its approver. |
| DeviceGrants.PendingGrantsAreDecided | internal/handler/auth.go:909-968 | From every reachable state a pending, unexpired grant is approved or denied by a signed-in person whom its scope admits, and records that person. |
| Leases.LeasesAreExclusive | internal/lock/lock.go:83-121 | In every reachable state at most one lease per key is live; a lease that lapsed or was released never lives again, and refreshing or releasing it changes nothing for a later holder. |
| Leases.LeasesLastExactly | internal/lock/lock.go:83-121 | Over every run a lease taken at T for ttl and left alone is in force exactly until T + ttl: until then nobody else takes its key and its holder's refresh moves the end to exactly the lifetime after that moment; from then on its holder can do nothing and the next to ask takes the key. |
| Leases.RedisCalls | internal/lock/lock.go:83-121 | What acquire, refresh and release store, in terms of the stored token and expiry. |
| Leases.RedisStepLaw | internal/lock/lock.go:108-121 | A step taken for one token neither ends nor moves the lease of another. |
| Leases.RedisLocker.Acquire | internal/lock/lock.go:83-97 | Succeeds iff the key is absent or its expiry has passed. |
| Leases.RedisLocker.Refresh | internal/lock/lock.go:108-117 | Extends iff the token holds the key and its expiry has not passed. |
| Leases.RedisLocker.Release | internal/lock/lock.go:119-121 | Deletes iff the token holds the key and its expiry has not passed. |
| Leases.LocalLocker.Acquire | internal/lock/lock.go:130-144 | Succeeds iff the key is free, which in a sound locker means that no outstanding lease is for it, and keeps exclusion. |
| Leases.LocalLocker.Release | internal/lock/lock.go:152-157 | Any release, first or not, deletes the key; exclusion survives if and only if it was the lease's first or nobody held the key. |
| Leases.LocalLeasesAreExclusive | internal/lock/lock.go:123-157 | Over every history in which each lease is released at most once, no two unreleased leases are for one key, and a key can be acquired if and only if there is none for it. |
| Leases.ReleaseKeepsExclusionIff | internal/lock/lock.go:152-157 | A release keeps the locker sound iff it is the lease's first or nobody holds the key. |
| Leases.DoubleReleaseBreaksExclusion | internal/lock/lock.go:152-157 | Releasing one lease twice lets two clients hold one key. |
| Leases.RenewalKeepsTheLease | internal/lock/lock.go:23-72 | With enough slack the lease is unexpired at every moment before the run context is cancelled, however the refreshes go. |
| Leases.TightLeasesLapse | internal/lock/lock.go:23-72 | Without that slack some run lets the lease lapse before the context is cancelled. |
| Leases.FourSecondsSuffice | internal/lock/lock.go:23-72 | Every whole-millisecond lifetime of at least four seconds has the slack if renewal starts at once. |
| Leases.SubMillisecondLifetimesAreTight | internal/lock/lock.go:108-117 | A lifetime of four seconds and half a millisecond does not. |
| Leases.WithRenewal | internal/lock/lock.go:23-72 | The loop cancels at the first failed refresh, when its result is known, and otherwise never. |
| Leases.TicksAreEven | internal/lock/lock.go:23-72 | Ticks come every half lifetime, but at least a second apart. |
| Inactivity.SweepDeletesExactly | internal/inactivity/worker.go:94-237 | Over every interleaving with heartbeats and every outcome of its writes, a sweep deletes exactly the peers past the threshold that are not spared: by any heartbeat since the snapshot if it showed stage 3, otherwise only by one after the stage-3 write. |
| Inactivity.SweepWarnsExactly | internal/inactivity/worker.go:94-191 | Over every interleaving and every outcome of its writes, a sweep sends each peer of its snapshot exactly the warning it deserves by its age and stage (final from the delete threshold, second from the second, first from the first), followed by one write of that stage, and nothing otherwise or in a dry run. |
| Inactivity.RevivedPeersCanBeDeleted | internal/inactivity/worker.go:193-237 | A peer heard from between the snapshot and the stage-3 write is deleted. |
| Inactivity.WarningsAreOrderly | internal/inactivity/worker.go:94-191 | Over any history of heartbeats, new peers and sweeps, whichever writes fail: every deleted peer had a final warning first, and lacks one since its last heartbeat if and only if the stage-3 write the deletion relies on overwrote a heartbeat; a warning level is repeated in one inactive period only after a failed write of its stage, so never if stage writes succeed. |
| Inactivity.VouchedDeletion | internal/repository/peer.go:634-657 | For a peer at the final stage, a heartbeat has answered the final warning if and only if the stage write overwrote it. |
| Inactivity.SweepKeeps | internal/inactivity/worker.go:94-153 | One sweep, interleaved with heartbeats and with any write failing, keeps stages in step with the warnings sent and every final stage vouched for by a stage write that followed a final warning. |
| Inactivity.Worker.RunSweep | internal/inactivity/worker.go:94-153 | The sweep loop is the sweep function of the snapshot and the interleaving, and sends every peer of the snapshot exactly the warning it deserves; a disabled worker does nothing. |
| Inactivity.Worker.DeletePeer | internal/repository/peer.go:643-657 | Deletes only a row whose stage is still final, and never in a dry run. |
| Inactivity.Worker.MarkPeersActive | internal/repository/peer.go:623-632 | Resets stage and time of exactly the marked peers. |
| Cache.NeverEarlyNorLate | internal/cache/cache.go:131-187 | No entry is dropped before its lifetime in whole milliseconds is over, and none with a lifetime is served a second past it: on Redis exactly to the millisecond, locally to the end of the second in which it ends; a lifetime of zero never ends. |
| Cache.Cache.Fetch | internal/cache/cache.go:131-187 | Returns the stored value iff it is alive by the backend's rounding. |
| SlidingWindow.SlidingWindowBound | internal/handler/auth.go:741-772 | For every history on any keys and limits: a call is accepted iff fewer than its limit were accepted on its key in the sixty seconds before, so including itself at most the limit are. |
| SlidingWindow.CacheForgetsNothingThatMatters | internal/cache/cache.go:525-536 | On either backend the cached limiter decides every history as one that never forgets an acceptance. |
| SlidingWindow.StoredStaysFaithful | internal/handler/auth.go:741-772 | What a call stores stands, at any later time, for the whole ledger: expiry with rounding drops no time still in the window. |
| SlidingWindow.IPRateLimiter.CheckIPRate | internal/handler/auth.go:741-772 | The pruning loop and the writes are the specified step on the cache. |
| KeyAuthLimiter.KeyAuthIsSpaced | internal/handler/agent.go:120-157 | Over every history with a monotone clock and slash-free hosts: a request is accepted if and only if none from its host was accepted in the ten seconds before, the per-pair test never rejects, and the pair map never exceeds 10001 entries. |
| KeyAuthLimiter.AttemptKeepsCovered | internal/handler/agent.go:120-157 | Whatever the pair map remembers the host map remembers too, across pruning and reset. |
| KeyAuthLimiter.PairKeyInjective | internal/handler/agent.go:120-157 | Pair keys of slash-free hosts do not collide. |
| KeyAuthLimiter.KeyAuth.CheckKeyAuthRate | internal/handler/agent.go:120-157 | Pruning, reset and stamps are the specified step on both maps. |
| LookingGlassLimiter.EvictionIsInvisible | internal/handler/lookingglass.go:56-77 | Over any history of queries, the limiter with lazy creation and idle eviction decides exactly as one that never evicts. |
| LookingGlassLimiter.RateIsBounded | internal/handler/lookingglass.go:20-26 | In any stretch of any history the limiter allows a user at most three queries and one more for every ten seconds the stretch lasts. |
| LookingGlassLimiter.RestedUsersAreAllowed | internal/handler/lookingglass.go:56-77 | Over any history a user without an allowed query in the last ten seconds is allowed. |
| LookingGlassLimiter.AllowMatches | internal/handler/lookingglass.go:20-26 | One call keeps the correspondence with the limiter that never evicts: what was evicted would by now be full. |
| LookingGlassLimiter.LookingGlass.AllowQuery | internal/handler/lookingglass.go:56-77 | The eviction loop, creation and spending are the specified step. |
| LatencyAlerts.AlertsAndRecoveries | internal/latency/checker.go:183-376 | Over any run of checks of one peer, each recovery answers an alert with no recovery in between, and two alerts are at least the smaller of the cooldown and six hours apart. |
| LatencyAlerts.NoticesAreExact | internal/latency/checker.go:246-339 | Over any run an alert is sent if and only if a trigger fires and the mute entry of the last notice is no longer alive; a recovery if and only if an alert is pending, no trigger fires, recoveries are enabled and the last two readings are normal. |
| LatencyAlerts.ReadingsAreExact | internal/latency/checker.go:206-221 | Readings are the timed points with a value, in order; one is abnormal iff it exceeds the threshold or the multiple of the baseline, a baseline below one counting as one. |
| LatencyAlerts.Measure | internal/latency/checker.go:227-240 | The loop's maximum is the length of the longest stretch of abnormal readings, and its count their number. |
| LatencyAlerts.CountTrailingNormal | internal/latency/checker.go:326-333 | The backward loop's result is the number of normal readings at the end. |
| LatencyAlerts.LongestRunUnique | internal/latency/checker.go:227-244 | There is only one longest-run length. |
| LatencyAlerts.Checker.CheckPeer | internal/latency/checker.go:183-376 | A check is one step of the peer's alarm on triggers defined by the run lengths; no readings, no effect; no other peer's alarm is touched. |
| LatencyAlerts.KeysApart | internal/cache/keys.go:10-32 | The cache keys of different peers and kinds never coincide. |
| EndpointAlerts.NoticesAreExact | internal/endpoint/checker.go:137-243 | With successful row writes, a mismatch notice is sent iff the comparison mismatches and a mismatch has stood for the threshold with no match in between; a recovery notice iff a match ends a standing mismatch. |
| EndpointAlerts.SuspendedUntilResumed | internal/endpoint/checker.go:160-196 | A peer left suspended stays silent and suspended until a match at which an open mismatch is resumed; that match is announced and the rest of the run is as from a fresh state. |
| EndpointAlerts.FailedResumeStaysOpen | internal/endpoint/checker.go:160-196 | While the resume command fails nothing is announced and the mismatch stays open. |
| EndpointAlerts.EndpointTracker.HandleMatch | internal/endpoint/checker.go:160-196 | Clears and announces only an open mismatch whose resume succeeded, or that needs none. |
| EndpointAlerts.EndpointTracker.HandleMismatch | internal/endpoint/checker.go:198-243 | Records the first mismatch, and announces from the threshold on unless suspended. |
| ApiVersion.DowngradeComposes | internal/apiversion/apiversion.go:122-132 | For arbitrary transforms: downgrading to an older version is downgrading to any version in between followed by the remaining changes. |
| ApiVersion.FastPathIsTheLoop | internal/apiversion/apiversion.go:122-132 | The shortcut for the latest version is what the loop would do. |
| ApiVersion.DropsAreOrderFree | internal/apiversion/changes.go:7-30 | For deletions the downgrade is one deletion of the dropped keys: independent of registration order and idempotent. |
| ApiVersion.DropsTouchNothingElse | internal/apiversion/apiversion.go:137-154 | Exactly the dropped keys disappear from an object, and from every object of a list, at the top or under the list key; other keys, wrapper fields, list lengths and non-object elements are unchanged. |
| ApiVersion.RegisteredDowngrades | internal/apiversion/changes.go:7-30 | For any target string the registered changes remove exactly the keys introduced after it. |
| ApiVersion.DowngradeRegistered | internal/apiversion/apiversion.go:122-132 | The shipped registry downgrades a peer by exactly the keys introduced after the target and touches no other resource. |
| ApiVersion.ChangesNewestFirst | internal/apiversion/apiversion.go:103-112 | The result is the resource's changes, none lost or added, newest first. |
| ApiVersion.Downgrade | internal/apiversion/apiversion.go:122-132 | The loop applies exactly the changes newer than the target, newest first. |
| PeerImport.ExportImportRoundTrip | internal/handler/admin_peer.go:841-1025 | Exporting and importing into an empty table restores exactly the rows with a positive ASN on known nodes, column for column, an empty status becoming pending. |
| PeerImport.LastLandingWins | internal/repository/peer.go:467-526 | With overwrite, for every table and entries whatever ports clash: the row of a (node, ASN) is that of the last valid entry for it whose port no other peer held at its turn, and the old row if there is none. |
| PeerImport.FirstLandingWins | internal/repository/peer.go:467-526 | Without overwrite, likewise: an existing row stays, and a missing one is given by the first valid entry whose port was free at its turn. |
| PeerImport.ImportWinsWithoutClashes | internal/handler/admin_peer.go:904-1025 | If no port is claimed twice: with overwrite the last valid entry wins, without it an existing row and then the first valid entry. |
| PeerImport.ImportIsIdempotent | internal/handler/admin_peer.go:904-1025 | Importing again changes nothing: always without overwrite; with overwrite if no port is claimed twice (OverwriteTwiceIff and OverwriteIsStableByPeer give exact conditions). |
| PeerImport.OverwriteTwiceIff | internal/repository/peer.go:467-526 | For distinct peers over a table with unique ports: the second overwriting import changes nothing if and only if every port refused in the first is still taken after it. |
| PeerImport.OverwriteTwiceIfQuiescent | internal/repository/peer.go:467-526 | For all entries, peers repeated or not: the second overwriting import changes nothing if in the table after the first every taken port is held by a peer no entry moves and each peer's last open entry is its row. |
| PeerImport.SettledIsQuiescent | internal/repository/peer.go:467-526 | A table on which every entry is settled meets that condition, so it covers all the stable cases of distinct peers. |
| PeerImport.PortSafeIsQuiescent | internal/repository/peer.go:467-526 | So does the table after any import in which no port is claimed twice. |
| PeerImport.OverwriteIsStableByPeer | internal/repository/peer.go:467-526 | For any entries, peers repeated or not: an overwriting import leaves a table alone if and only if the last entry to land for each peer says what the table already has. |
| PeerImport.OverwriteIsStableIff | internal/repository/peer.go:467-526 | An overwriting import of distinct peers leaves a table alone iff every entry is invalid, stored already, or blocked by another peer's port. |
| PeerImport.OverwriteNeedNotBeIdempotent | internal/repository/peer.go:467-526 | Two peers and two entries for which overwriting twice differs from overwriting once. |
| PeerImport.PeerTable.ImportPeers | internal/handler/admin_peer.go:904-1025 | The table and the counters are the fold of the entries; imported, overwritten, skipped and failed add up to all entries; the table grows by the imported ones; invalid entries fail. |
| PeerImport.PeerTable.ImportPeerFull | internal/repository/peer.go:467-526 | Inserts, overwrites, skips or fails on a port conflict, and changes only that row. |
| PeerImport.OutcomeIsExact | internal/handler/admin_peer.go:904-1025 | For every table, entry and mode: when it is imported, overwritten, skipped or failed and for which reason, and the row that is stored, an empty status becoming pending. |
| PeerImport.ExportPeers | internal/handler/admin_peer.go:841-898 | Every row exactly once, with its columns, in query order. |
| FlapMerge.MergedSnapshot | internal/handler/flap.go:216-293 | Over the agents that answered: one statistic per timestamp with the summed counters in time order, one rate per ASN with the summed rates, highest average first, one entry per prefix with the largest count, largest first; metric and session sums, all sessions, the latest time. |
| FlapMerge.MergeIsOrderFree | internal/handler/flap.go:216-293 | Taking the agents in another order gives the same time series, metric, counts and rates, and the same peak count for every prefix. |
| FlapMerge.OneAgentIsItself | internal/handler/flap.go:216-293 | With one agent answering its own metric, counts, sessions and capabilities come back, and a lone statistic, rate or prefix unchanged. |
| FlapMerge.AddStats | internal/handler/flap.go:262-272 | The per-timestamp map holds the wrapped sums of everything seen, for exactly the timestamps seen. |
| FlapMerge.AddPeers | internal/handler/flap.go:253-261 | The per-ASN map holds the sums of everything seen, for exactly the ASNs seen. |
| FlapMerge.AddFlaps | internal/handler/flap.go:248-252 | The per-prefix map holds, for exactly the prefixes seen, an entry no other exceeds. |
| FlapMerge.SumPermuted | internal/handler/flap.go:232-273 | Sums per key depend only on the multiset of entries. |

## Left out

- HTTP parsing and rendering, SQL text, JSON encoding, WebSocket framing, logging and audit writes other than the divergence entry.
- Cryptography: password hashing, token encoding, WebAuthn, OpenPGP.
- Tokens without a session id, one-shot login codes and the asynchronous touch of a session.
- Peer creation and auto-approval, the bot's admin actions and the cancel tool, which do not take the peer's lock; the bot's update, which makes the same calls as the user's update.
- The inactivity worker's own removal command to the agent and its lease.
- Idempotency of tool calls (internal/handler/mcp.go): the in-progress branch is taken by the creator too, so an exactly-once statement does not hold of the code.
- The sliding window across handlers: the registry handler shares the key under a mutex of its own.
- Two backends at once in the cache, bucket listing and integer counters.
- DNS resolution in the endpoint comparison; its result is a parameter.
- Clearing of alert keys when a peer is deleted; baseline computation of the latency checker.
- Concurrent checks of one peer by the latency or endpoint checker.
- ApiVersion.Downgrade: JSON objects are values, so sharing of a decoded map between two places of one response is not captured.
- ApiVersion.ChangesNewestFirst: the order among changes of equal version is left open, as the source's sort leaves it.
- PeerImport.OverwriteIsStableIff: covers entries with distinct (node, ASN), as OverwriteTwiceIff does, because an entry overwritten later in the same import need not be settled; OverwriteIsStableByPeer covers repeated ones.
- Changes of rows during a fleet-wide reconcile pass: Reconcile.Hub.RunPass works on one state of the rows; on one peer, PeerInterleaving separates the read from the delivery.
- Overflow of signed counters in the flap merge.
- Merged capabilities and the order of merged sessions depend on which agent answers first, as in the source.
