# A model of the backend's session, socket, log and record logic

This project models five parts of the backend and proves what they guarantee.  Check it with
`dafny verify dfyconfig.toml` (Dafny 4.11).

| Files | Part |
|---|---|
| `TokenTable`, `AuthProtocol`, `AuthTheorems`, `AuthOutcomes`, `AuthServices` | refresh-token rotation, logout, admin lifecycle, session validity |
| `Buckets`, `ConnectionManager`, `Teardowns`, `TeardownTheorems`, `TeardownCaps`, `TeardownLoops`, `TeardownShutdown` | the WebSocket connection manager |
| `Sessions`, `Gateway` | login to socket: access tokens, tickets, handshake, periodic re-check |
| `LogQuery`, `LogService` | two-layer cursor pagination of logs |
| `LikeSearch`, `RecordList`, `RecordService` | keyword search, listing and counting of records |
| `RateLimiter`, `Lease`, `Channels` | control-message limit, sampler leader lease, pub/sub channels |

## What the model is

**Tokens.**  `TokenTable` has the repository's SQL statements as functions on a table and a class
that performs them in place inside a transaction.  `AuthProtocol` is a transition system over the
committed database and the requests in flight.  `refresh`, `login`/`admin_login` and `logout` are
two atomic steps each, the read with its checks and the write with its commit; every other
operation is one atomic step.  A request may stop between its two steps (`Abort`).
`AuthOutcomes` says what each request comes to in terms of rows, accounts and instants.
`AuthServices` holds the service classes; each method is proved to be exactly one step.

**From login to socket.**  `Sessions` joins the token protocol with tickets, handshakes in flight
and open connections.  A handshake is two atomic steps: it consumes its ticket and checks the
admin; then, after the `await` of the accept, it checks the caps and registers.  `Gateway` performs
these steps in place; each method is proved to be exactly one of them.

**Connections.**  `ConnectionManager` is the manager as a class whose four dictionaries are updated
in place, with one ghost set of open connections behind them; there each coroutine runs to its end.
`Teardowns` is the finer model: every `await` of a socket close is a scheduling point at which any
other task may run and at which the waiting task may be cancelled.  The admission check and the
start of `register` are one uninterrupted piece there, as in the code.  A shutdown opens each bucket
by a step of its own, which allows more interleavings than the code has.

**Logs.**  A stream is a sequence with strictly increasing ids.  `XADD` appends at the tail,
trimming removes a prefix, `XRANGE` selects a range.

**Records.**  `_predicate` is a method that collects and folds clauses; the two joins, the filter,
the sort and the slice are functions on sequences; `RecordService.List` is the whole request.

**Limiter, lease, channels.**  The limiter is a class around the deque, compared with a rule over
the whole arrival history.  The lease is a transition system in which every Redis command is a step
of its own.  The channel names are strings, matched by a glob matcher and parsed by the bridge's
branches.

### Assumptions

- A token is identified with its row id, an admin with its principal id: hashes and new tokens are
  fresh and distinct.  Ids are never reused, not even after a rollback or a purge.  Family ids and
  tickets are fresh when drawn.
- Commit and rollback are atomic, the database clock does not go back, token lifetime and grace
  window are constant.  Passwords have been checked and are right.
- Drawing a ticket, consuming it together with reloading its admin, and one round of the periodic
  re-check are one step each.  An archive inside one of them acts as one before or after it: the
  next check sees it.
- A connection object is registered by one handshake only.
- `create_access_token` records the principal and session id it signs; signatures are not forged.
- A welcome message always serialises, so only the transport can fail on it.
- Lower-casing, white space, and the collation that orders text are parameters.  Categories and
  records have unique ids, category names and creators' principal ids are unique, and both foreign
  keys hold.
- Instants are integers, or reals for the limiter; floating-point rounding is not modelled.
- Page limits, queue capacity, token lifetime and lease length are at least 1, as the settings demand.

### What does not hold, and exactly when

- *An archived or deleted admin owns no live token* fails when a login checks its admin before the
  archive and writes its token after it (`LateLoginRace`).  `InactiveAdminsOwnNothingIff` shows
  that this is the only way.
- *A disabled account gets no new token* fails when a login or a refresh passes its check before the
  account is disabled and writes after it; disabling a user revokes nothing.  `DisabledGainsTokenIff`
  shows that this is the only way.
- *Logging out ends the session* fails when a rotation wins between the logout's read and its
  unguarded write (`LogoutRace`); `LogoutEndsSessionIff` gives the condition.
- *A session whose tokens have all expired is over* fails when a refresh passed its check before the
  expiry and writes after it, because the write looks only at `revoked_at` (`LateRefreshRace`).
  `ExpiredSessionRevivesIff` shows that this is the only way.
- *Logging out everywhere, or changing the password, forces a new login* fails for a login that had
  checked the password before and writes after (`LoginAcrossPasswordChange`).
  `OwnsAfterRevocationIff` shows that this is the only way, for archive and delete too; the sessions
  that existed stay dead for ever (`RevokedSessionsNeverValid`).
- *An archived or deleted admin gets no socket* fails when a handshake passes its check before the
  archive and registers after it, when the kick has already run (`LateHandshake`).
  `OpensAfterDeactivationIff` shows that this is the only way; the first re-check closes such a
  socket (`InactiveAdminLosesSockets`).
- *One connection per tab* fails when two reconnects wait for the same old connection to close
  (`DoubleReplacement`); `OneOwnerIff` gives the condition.
- *The connection caps hold* with `register` as one step (`CapsHoldInEveryRun`).  Under interleaving
  they fail when a registration that waited for its old connection ends while a cap is full again,
  also with one owner per tab throughout (`CapExceeded`); `CapsIff` gives the condition, and
  `CapsHaveNoBound` shows that the excess has no bound.
- *A closed connection is in no index* fails for the topic index when a subscribe is handled after
  the teardown (`TopicLeak`, and `Subscribe` itself); `TopicIndexCleanIff` gives the condition.
- *A shutdown leaves no connection open* fails for a connection that registers while the shutdown
  waits for a socket to close (`ShutdownMissesNewcomer`).  Every connection registered when it began
  is closed (`ShutdownClosesEverybody`), so whoever is left has joined since.
- *A log scan returns everything* fails only for a page limit of 0 (`ScanIsExact`).
- *One leader at a time* fails when an `EXPIRE` finds the key gone or somebody else's, or a `DELETE`
  finds it somebody else's, because time has passed since the `GET` (`LateRenewal`, `LateRelease`).
  Call such a command stale.  A run without one never has two leaders (`FreshRunsAreExclusive`), and
  after any stale command a few more commands, all of them in time, lead to two; `TwoLeadersIff` is
  the equivalence over whole runs.

### Where code and documentation differ

- `AdminService.restore` is documented as "deleted to active" (app/services/service_admin.py:310).
  The code clears only `deleted_at`, so an admin archived before the delete comes back archived.
  The model follows the code (`RestoreActivatesIff`).
- `_purge_expired_best_effort` may lose to an error and roll back; a purge that does not happen is
  a run without that step.

## Model

| member | source | states |
|---|---|---|
| TokenTable.RefreshTokenRepository.Consume | app/repositories/repo_refresh_token.py:40-55 | the guarded UPDATE wins exactly on an unrevoked row, which it stamps with the given instant and successor, leaves it unconsumable for everybody else, and changes nothing when it loses |
| TokenTable.RefreshTokenRepository.RevokeFamily | app/repositories/repo_refresh_token.py:57-66 | afterwards the family has no unrevoked row, the rows revoked carry the given instant, no other field or row changed, and the count is that of the rows revoked |
| TokenTable.RefreshTokenRepository.RevokeAllForPrincipal | app/repositories/repo_refresh_token.py:68-77 | the same for everything one principal holds |
| TokenTable.RefreshTokenRepository.DeleteExpired | app/repositories/repo_refresh_token.py:79-87 | deletes exactly the rows expired at `before`, clearing pointers at them, and counts them |
| TokenTable.RefreshTokenRepository.GetByHash | app/repositories/repo_refresh_token.py:32-38 | the row of the token if there is one |
| TokenTable.UnrevokedIsNewest | app/repositories/repo_refresh_token.py:40-55 | in a chained table an unrevoked row is the newest and only unrevoked one of its family |
| TokenTable.RotatingKeepsChains | app/services/service_auth.py:268-277 | consuming the newest row and appending its successor keeps every family one chain with ordered expiry |
| TokenTable.PurgeCutsPrefixes | app/repositories/repo_refresh_token.py:79-87 | a purge removes a prefix of each chain, leaves every surviving row as it was, and the rest is still chained |
| TokenTable.PurgeIsInvisibleToLiveness | app/repositories/repo_refresh_token.py:16-30 | no liveness query at or after the purge's time can tell that it ran |
| AuthProtocol.StepKeepsInv | app/services/service_auth.py:225-310 | every step of every request keeps the invariant, never un-revokes a row, and adds rows only to new or still live families |
| AuthProtocol.RunKeepsInv | app/services/service_auth.py:225-310 | the invariant holds after every interleaving |
| AuthTheorems.AtMostOneUnrevokedToken | app/services/service_auth.py:268-277 | in every reachable state a family has at most one unrevoked token, its newest row |
| AuthTheorems.RotationEdgesFormALine | app/services/service_auth.py:267-277 | `replaced_by_id` leads to the next row of the same family and principal, and no two rows share a target |
| AuthTheorems.OneSidOnePrincipal | app/services/service_auth.py:215-219 | a session id never names two principals, in the table or in an access token |
| AuthTheorems.DeadStaysDead | app/services/service_auth.py:225-285 | a family without an unrevoked row never has one again, whatever is in flight |
| AuthTheorems.PresentingARevokedToken | app/services/service_auth.py:243-251 | past the grace window a revoked token kills its family for ever; within it nothing changes; both answer 401 |
| AuthTheorems.ExpiredSessionNeverRevives | app/services/service_auth.py:253-255 | once all tokens of a session have expired and no refresh in flight holds an unspent one, later requests never make it valid again |
| AuthTheorems.ExpiredSessionRevivesIff | app/services/service_auth.py:253-277 | once all tokens of a session have expired, requests that start later can make it valid again if and only if a refresh that passed its check before is in flight with an unspent token |
| AuthTheorems.LateRefreshRace | app/services/service_auth.py:253-277 | a concrete run in which a refresh checked in time writes after the expiry: invalid before the write, valid after it |
| AuthTheorems.AtMostOneWinner | app/services/service_auth.py:267-277 | of all requests that ever present one token, in any order of reads and writes, at most one succeeds |
| AuthTheorems.SpentTokenNeverWins | app/services/service_auth.py:267-277 | once a token is revoked or deleted no request presenting it succeeds |
| AuthTheorems.WinnerAndLoser | app/services/service_auth.py:268-277 | a write wins exactly when its token is unrevoked and then adds one successor; a loser leaves rows, accounts and access tokens untouched |
| AuthTheorems.LogoutEndsSessionIff | app/services/service_auth.py:293-303 | the unguarded logout write leaves the family dead exactly when the row was still unrevoked or the family dead already; when the row was purged meanwhile the write fails and changes no row |
| AuthTheorems.LoggedOutSessionNeverValid | app/services/ws/reauth.py:29-47 | after logging out the live token every re-check of that session fails for ever |
| AuthTheorems.LogoutRace | app/services/service_auth.py:293-303 | a concrete run in which a rotation between the two halves of a logout keeps the session valid |
| AuthTheorems.InactiveAdminsStep | app/services/service_admin.py:265-307 | one step keeps inactive admins without live tokens exactly when it is not a late login |
| AuthTheorems.InactiveAdminsOwnNothingIff | app/services/service_admin.py:265-307 | over any run, refreshes in flight included: archived and deleted admins never own a live token if and only if no login is late |
| AuthTheorems.AtomicLoginsSuffice | app/services/service_auth.py:196-223 | with login as one step the guarantee is unconditional |
| AuthTheorems.LateLoginRace | app/services/service_auth.py:212-220 | a concrete run in which a late login survives an archive and is valid after the unarchive |
| AuthTheorems.SessionsOfADeactivatedAdminNeverValid | app/services/service_admin.py:265-307 | every session that existed at an archive or delete fails the re-check for ever, also after unarchive or restore |
| AuthTheorems.RevokedSessionsNeverValid | app/services/service_auth.py:305-310 | the same for every session that existed at a logout of all devices or a change of password |
| AuthTheorems.OwnsAfterRevocationIff | app/repositories/repo_refresh_token.py:68-77 | after everything of a principal was revoked, and while nobody starts to log in as it, it can own a token again if and only if a login had passed its check before |
| AuthTheorems.LoginAcrossPasswordChange | app/services/service_admin.py:181-190 | a concrete run in which a login that checked the old password has a valid session after the change |
| AuthTheorems.RootStaysActive | app/services/service_admin.py:248-263 | in every reachable state the protected root admin is neither archived nor deleted |
| AuthTheorems.PurgeIsSafe | app/services/service_auth.py:110-117 | in reachable states a purge removes exactly the expired rows, which are chain prefixes, leaves no dangling pointer and is invisible to liveness |
| AuthOutcomes.RefreshInOneGo | app/services/service_auth.py:235-277 | a refresh succeeds exactly for an unrevoked, unexpired token of an enabled account; it stamps that row with the request's instant, adds one successor with a full lifetime and changes nothing else |
| AuthOutcomes.LoginInOneGo | app/services/service_auth.py:159-220 | a login succeeds exactly for an enabled account and opens one new session, valid until its token expires and not after |
| AuthOutcomes.RegisterInOneGo | app/services/service_auth.py:119-157 | a registration leaves an enabled account with one session of a full lifetime |
| AuthOutcomes.LogoutInOneGo | app/services/service_auth.py:293-303 | a logout of an unrevoked token revokes that row now and leaves the session dead; of an unknown or revoked one it changes nothing |
| AuthOutcomes.RotatedTokenComesBack | app/services/service_auth.py:243-271 | a rotated token presented again kills its family exactly when more than the grace window has passed since the rotating request began |
| AuthOutcomes.PendingRemembersItsStart | app/services/service_auth.py:231-237 | a refresh in flight carries the token and the instant it began with |
| AuthOutcomes.StampsAreInstants | app/repositories/repo_refresh_token.py:40-77 | in reachable states every step writes its own instant into `revoked_at`, and only a logout's write moves a stamp that is there |
| AuthOutcomes.RevocationIsExact | app/repositories/repo_refresh_token.py:68-77 | archive, delete, logout of all devices and change of password revoke exactly the unrevoked rows of the principal, now |
| AuthOutcomes.ReuseIsExact | app/services/service_auth.py:243-251 | a reuse beyond the grace window revokes exactly the unrevoked rows of the family, at the request's instant |
| AuthOutcomes.DisabledPassesNoCheck | app/services/service_auth.py:264-265 | a disabled account, user or admin, passes neither the check of a refresh nor that of a login |
| AuthOutcomes.DisabledGainsTokenIff | app/services/service_auth.py:256-277 | while an account stays disabled, user or admin, it can gain a token if and only if a login of it, or a refresh of it with an unspent token, had passed its check before |
| AuthOutcomes.ArchiveOutcome | app/services/service_admin.py:235-282 | not found, forbidden, refused or done, each under its exact condition on role, protection and actor; a second archive is a no-op |
| AuthOutcomes.DeleteOutcome | app/services/service_admin.py:235-307 | the same for a delete, which also takes archived admins |
| AuthOutcomes.ArchiveRoundTrip | app/services/service_admin.py:265-291 | unarchive undoes an archive in the accounts, and no token comes back |
| AuthOutcomes.DeleteRoundTrip | app/services/service_admin.py:293-321 | restore undoes a delete in the accounts, and no token comes back |
| AuthOutcomes.RecoveryOutcome | app/services/service_admin.py:284-321 | unarchive finds exactly the admins that are not deleted, restore every admin, and restore changes nothing on one that is not deleted |
| AuthOutcomes.PasswordOutcome | app/services/service_admin.py:181-190 | a change of password works exactly for an admin that is not deleted and leaves it without an unrevoked token |
| AuthOutcomes.SwitchOutcome | app/services/service_user.py:72-99 | switching a user on or off changes just that; its tokens and the requests in flight stay |
| AuthServices.AuthService.IssueRefreshToken | app/services/service_auth.py:88-108 | inserts one unrevoked row that expires a lifetime from now, uncommitted |
| AuthServices.AuthService.LoginRead | app/services/service_auth.py:205-213 | one protocol step: refuses unknown and inactive accounts, otherwise proceeds |
| AuthServices.AuthService.LoginWrite | app/services/service_auth.py:215-220 | one protocol step: a new family with one committed token |
| AuthServices.AuthService.RefreshRead | app/services/service_auth.py:235-265 | one protocol step: the four checks, and the committed family revocation on reuse |
| AuthServices.AuthService.RefreshWrite | app/services/service_auth.py:267-285 | one protocol step: insert, guarded consume, then commit or roll back |
| AuthServices.AuthService.LogoutRead | app/services/service_auth.py:295-299 | one protocol step: silent for unknown and revoked tokens |
| AuthServices.AuthService.LogoutWrite | app/services/service_auth.py:300-301 | one protocol step: stamps the row whatever it holds by now |
| AuthServices.AuthService.LogoutAll | app/services/service_auth.py:305-308 | one protocol step: revokes everything the principal holds |
| AuthServices.AuthService.PurgeExpired | app/services/service_auth.py:110-117 | one protocol step: the committed purge |
| AuthServices.AdminService.Get | app/services/service_admin.py:89-97 | finds the admin, a deleted one only on request |
| AuthServices.AdminService.Archive | app/services/service_admin.py:265-282 | one protocol step: idempotent repeat, guards in order, then archive and revoke in one commit |
| AuthServices.AdminService.Unarchive | app/services/service_admin.py:284-291 | one protocol step: clears the archive and restores no token |
| AuthServices.AdminService.Delete | app/services/service_admin.py:293-307 | one protocol step: guards, then soft-delete and revoke in one commit |
| AuthServices.AdminService.Restore | app/services/service_admin.py:309-321 | one protocol step: clears only the deletion |
| AuthServices.AdminService.ChangePassword | app/services/service_admin.py:181-190 | one protocol step: revokes everything the admin holds |
| Sessions.TicketAdmitsOnce | app/services/ws/ticket.py:38-47 | in any history, with handshakes in flight, a ticket admits at most one connection |
| Sessions.TicketIssuedIff | app/services/ws/ticket.py:27-36 | a ticket is stored exactly for an admin in service with a signed session id or none, bound to both |
| Sessions.PresentingSpendsTicket | app/services/ws/ticket.py:38-47 | presenting a ticket spends it whatever the answer; it passes exactly when it was stored and its admin is in service, under the ticket's claims |
| Sessions.SocketOpensIff | app/api/routers/ws/router.py:228-260 | a handshake in flight opens its socket exactly when its own tab is connected or both caps have room, and takes the place of its own tab's socket and no other |
| Sessions.TicketOpensSocket | app/api/routers/ws/router.py:213-260 | an admin in service who draws a ticket and presents it, with a place free, is connected, and the ticket is gone |
| Sessions.RecheckIff | app/services/ws/reauth.py:29-47 | a re-check keeps a socket exactly when its admin is in service and its session, if any, holds an unrevoked, unexpired token; it touches no other |
| Sessions.CapsHoldInEveryRun | app/api/routers/ws/router.py:213-260 | with register as one step: after any history both caps hold, a tab has one connection, and a connection's principal owns its session id |
| Sessions.AuthRunsAlone | app/services/ws/reauth.py:29-47 | sockets and tickets never influence the token protocol, so its theorems hold in every joint history |
| Sessions.RecheckClosesDeactivatedSessions | app/api/routers/ws/router.py:180-195 | after an archive or delete the next re-check closes any socket of a session that existed then, whatever happened since |
| Sessions.InactiveAdminLosesSockets | app/api/routers/ws/router.py:180-195 | while an admin is inactive each of its registered sockets is closed for good by its first re-check |
| Sessions.OpensAfterDeactivationIff | app/api/routers/ws/router.py:213-260 | after an archive or delete, while the admin stays inactive, a socket of it can still open if and only if one of its handshakes had passed the check before |
| Sessions.LateHandshake | app/api/routers/ws/router.py:221-260 | a concrete run in which a handshake registers after the archive and its kick |
| Gateway.AdminSocket.IssueTicket | app/services/ws/ticket.py:27-36 | one `Sessions` step: the ticket is bound to the caller's principal and session id |
| Gateway.AdminSocket.HandshakeRead | app/api/routers/ws/router.py:213-226 | one `Sessions` step: the ticket is consumed in any case, and the handshake goes on exactly for a stored ticket of an active admin |
| Gateway.AdminSocket.HandshakeWrite | app/api/routers/ws/router.py:228-260 | one `Sessions` step on the real manager: refused exactly over a cap, otherwise a fresh connection is registered |
| Gateway.AdminSocket.Recheck | app/api/routers/ws/router.py:180-195 | one `Sessions` step on the real manager: an open connection that is no longer valid is closed with 4401 |
| ConnectionManager.Connection.Offer | app/services/ws/manager.py:174-181 | appends to a bounded queue exactly when there is room |
| ConnectionManager.Manager.ConnectionsForPrincipal | app/services/ws/manager.py:80-81 | exactly the open connections of the principal |
| ConnectionManager.Manager.ConnectionsForSid | app/services/ws/manager.py:83-84 | exactly the open connections of the session |
| ConnectionManager.Manager.HasSidCid | app/services/ws/manager.py:86-90 | true exactly when an open connection of that tab exists |
| ConnectionManager.Manager.TotalConnections | app/services/ws/manager.py:92-94 | the bucket sizes add up to the number of open connections |
| ConnectionManager.Manager.Register | app/services/ws/manager.py:97-112 | the four indexes stay the views of the open set, which gains the connection and loses the tab's previous one, closed with 4409 |
| ConnectionManager.Manager.Unregister | app/services/ws/manager.py:114-130 | all four indexes become the views of the open set without the connection; no bucket stays empty and no other owner is removed |
| ConnectionManager.Manager.Teardown | app/services/ws/manager.py:132-142 | closes and unregisters once; a closed connection is left alone; 1000 is sent only if no frame went out before |
| ConnectionManager.Manager.Subscribe | app/services/ws/manager.py:145-147 | the indexes still agree exactly when the connection is open |
| ConnectionManager.Manager.Unsubscribe | app/services/ws/manager.py:149-153 | removes the topic from the connection and the connection from the topic, keeping all indexes exact |
| ConnectionManager.EnqueueEach | app/services/ws/manager.py:173-181 | the message goes exactly once to every open target with room; returns how many, and exactly the full ones |
| ConnectionManager.Manager.SendLocal | app/services/ws/manager.py:156-189 | only the addressed connections are touched; the full ones are torn down with 1013, the others get the message once, and their number is returned |
| ConnectionManager.Manager.SendToConnection | app/services/ws/manager.py:191-204 | appends once, or tears down for want of room, or leaves a closed connection alone |
| ConnectionManager.Manager.AllConnections | app/services/ws/manager.py:210-212 | the principal buckets together are exactly the open connections |
| ConnectionManager.Manager.BroadcastLocal | app/services/ws/manager.py:206-222 | the same delivery to every open connection |
| ConnectionManager.Manager.KickLocal | app/services/ws/manager.py:224-228 | closes exactly the principal's connections with the given code |
| ConnectionManager.Manager.KickLocalSid | app/services/ws/manager.py:230-234 | closes exactly the session's connections with the given code |
| ConnectionManager.Manager.CloseAll | app/services/ws/manager.py:236-242 | with nothing interleaved: closes every connection with the given code and leaves all indexes empty |
| ConnectionManager.Manager.WriterTurn | app/services/ws/manager.py:244-257 | sends the oldest message; a transport error tears down, a serialisation error does not; the first message on the wire is the welcome |
| ConnectionManager.Manager.OverCap | app/api/routers/ws/router.py:232-240 | refuses exactly over a cap and not for a same-tab reconnect |
| ConnectionManager.Manager.Handshake | app/api/routers/ws/router.py:229-260 | refuses with nothing changed, or registers a fresh connection whose queue starts with the welcome |
| ConnectionManager.AdmissionKeepsCaps | app/api/routers/ws/router.py:232-240 | both caps survive although a same-tab reconnect skips the check, because one session id belongs to one principal |
| ConnectionManager.RefusalIsNeeded | app/api/routers/ws/router.py:232-240 | whoever is refused would have broken a cap |
| ConnectionManager.RefusedIff | app/api/routers/ws/router.py:232-240 | with the caps kept so far, a handshake is refused if and only if admitting it would break one of them |
| ConnectionManager.AdmissionKeepsOwners | app/services/ws/manager.py:97-112 | after an admission each tab still has one connection and each session id one principal |
| Teardowns.MoveKeepsInv | app/services/ws/manager.py:97-242 | with every socket close a scheduling point, any move and any cancellation keeps the indexes, the queues and the waiting tasks consistent |
| Teardowns.PlayKeepsInv | app/services/ws/manager.py:97-242 | the same over every interleaved run |
| TeardownTheorems.TeardownRunsAtMostOnce | app/services/ws/manager.py:132-142 | the teardown body has run once for a closed connection and never for any other |
| TeardownTheorems.ClosedConnectionsLeaveTheIndexes | app/services/ws/manager.py:114-142 | principal and session index hold exactly the joined, unclosed connections, no bucket is empty, and a tab entry points to one of them |
| TeardownTheorems.NothingIsQueuedAfterClose | app/services/ws/manager.py:174-204 | a closed connection's queue only shrinks and stays within its bound |
| TeardownTheorems.QueueStep | app/services/ws/manager.py:156-222 | one move and the queue of a registered connection: a delivery appends its message once to each addressee with room, the writer takes the oldest, nothing else touches it |
| TeardownTheorems.OverflowIs | app/services/ws/manager.py:173-187 | the connections a delivery tears down are exactly the registered addressees with a full queue |
| TeardownTheorems.OwnersStep | app/services/ws/manager.py:99-107 | a move keeps one owner per tab exactly when it does not overwrite a taken tab entry |
| TeardownTheorems.OneOwnerIff | app/services/ws/manager.py:99-107 | over a run, each tab has one owner throughout if and only if no waiting registration finds its tab taken |
| TeardownTheorems.DoubleReplacement | app/services/ws/manager.py:99-107 | two reconnects waiting for the same old connection both end up registered |
| TeardownTheorems.DoubleReplacementArises | app/services/ws/manager.py:99-107 | a concrete run leads to that situation |
| TeardownTheorems.SubscriptionOutcome | app/services/ws/manager.py:145-153 | subscribing and unsubscribing change one topic of one connection, and the index follows for every registered connection |
| TeardownTheorems.TopicIndexCleanIff | app/services/ws/manager.py:145-147 | over a run, the topic index holds no closed connection throughout if and only if nobody subscribes a closed one |
| TeardownTheorems.TopicLeak | app/services/ws/manager.py:145-147 | any connection torn down before its last subscribe is handled stays in the topic index |
| TeardownCaps.NewcomerOutcome | app/api/routers/ws/router.py:232-260 | a handshake on a taken tab waits for the old connection; otherwise it joins at once, welcome queued, exactly when both caps have room |
| TeardownCaps.CapsStep | app/api/routers/ws/router.py:232-240 | a move keeps both caps exactly when no registration that waited ends at a full cap |
| TeardownCaps.CapsIff | app/api/routers/ws/router.py:232-260 | over a run, both caps hold throughout if and only if no registration that waited ends while a cap it counts against is full |
| TeardownCaps.CapExceeded | app/api/routers/ws/router.py:232-260 | a concrete run over a cap of 1 in which every tab has one owner throughout |
| TeardownCaps.CapsHaveNoBound | app/api/routers/ws/router.py:232-260 | with both caps at 1, for every number there is a run that leaves more connections of one principal registered and nothing waiting |
| TeardownLoops.LoopsCloseTheirVictims | app/services/ws/manager.py:185-187 | whatever interleaves, a kick or an overflow loop that is not cancelled has closed every victim once it ends, and at the latest after two resumptions for each |
| TeardownLoops.LoopClosesExactly | app/services/ws/manager.py:185-187 | with nothing in between it closes its victims and nobody else |
| TeardownLoops.KickClosesEverybody | app/services/ws/manager.py:224-228 | so a kick closes every connection the principal had registered when it began |
| TeardownLoops.RecheckCloses | app/api/routers/ws/router.py:192-195 | and a re-check or heartbeat that gives a connection up has closed it after two resumptions |
| TeardownShutdown.ShutdownClosesEverybody | app/services/ws/manager.py:236-242 | a shutdown that ends without being cancelled has closed every connection registered when it began, whatever joins or leaves meanwhile |
| TeardownShutdown.ShutdownMissesNewcomer | app/services/ws/manager.py:236-242 | a concrete run in which a connection registers while the shutdown waits and stays open |
| LogQuery.PageCovers | app/services/monitoring/logs.py:26-70 | whichever cursor a page returns, it holds exactly what is sought up to that cursor, or everything if there is none, and at most `limit` entries |
| LogQuery.WindowShrinks | app/services/monitoring/store.py:114-144 | the entries left to walk strictly decrease with each page, so a scan ends |
| LogQuery.PageExtent | app/services/monitoring/logs.py:26-70 | a page is the last one exactly when it has read the rest of the range with room left; a full page ends at its last hit; any other has read four times the limit, at most 2000, entries |
| LogQuery.ScanReturnsWhatIsAskedFor | app/services/monitoring/logs.py:26-70 | a scan returns an entry exactly when it lies between `since` or the cursor and `until` and carries the requested level, request id and logger |
| LogQuery.ScanIsExact | app/services/monitoring/logs.py:26-70 | scanning until there is no cursor returns exactly the matching entries in range, in increasing id order, if and only if the limit is positive or there are none |
| LogService.RedisStreamStore.Append | app/services/monitoring/store.py:59-73 | the new id lies above every id ever drawn; the stream gains the entry at its tail and loses a prefix |
| LogService.RedisStreamStore.AppendMany | app/services/monitoring/store.py:75-103 | the batch enters in order under ascending ids, with any trimming in between and at the end; an empty batch changes nothing |
| LogService.RedisStreamStore.Query | app/services/monitoring/store.py:114-144 | the look-ahead query returns the first `limit` entries in range and a cursor exactly when there are more |
| LogService.LogQueryService.Filter | app/services/monitoring/logs.py:36-60 | the loop collects the matching entries and stops early exactly at `limit` of them |
| LogService.LogQueryService.Query | app/services/monitoring/logs.py:26-70 | one page, with the cursor of the last hit of a full page and the store's otherwise, covers its stretch |
| LogService.LiveScanIsSound | app/services/monitoring/logs.py:26-70 | an entry returned while the stream moves matches, is in range and was present when its page was read |
| LogService.LiveScanNeverRepeats | app/services/monitoring/logs.py:62-70 | however the stream grows and is trimmed between pages, ids come out strictly increasing |
| LogService.LiveScanMissesNothingStable | app/services/monitoring/logs.py:62-70 | a finished scan returns every matching entry that was present at each of its pages |
| LikeSearch.SuccessiveIsPerCharacter | app/services/service_record.py:201 | the three successive replacements are one escape per special character |
| LikeSearch.PatternIsWellEscaped | app/services/service_record.py:201-202 | every escape is followed by a special character, as section 8.5 of ISO/IEC 9075:1992 requires |
| LikeSearch.EscapedMatchesItself | app/repositories/repo_record.py:54-55 | an escaped text matches itself and nothing else |
| LikeSearch.PatternIsSubstring | app/services/service_record.py:201-202 | matching the built pattern is the substring test |
| LikeSearch.StripCuts | app/services/service_record.py:198 | stripping removes exactly the white space at both ends |
| LikeSearch.KeywordSearch | app/services/service_record.py:194-202 | no filter exactly for an absent or blank keyword; otherwise a title passes exactly when it contains the stripped, lowered keyword |
| RecordList.BuildPredicate | app/repositories/repo_record.py:40-65 | the folded condition accepts exactly the records the filter describes, and is absent exactly when nothing is asked |
| RecordList.Fold | app/repositories/repo_record.py:60-65 | the loop's conjunction holds exactly when every clause does |
| RecordList.OneRow | app/repositories/repo_record.py:68-74 | the two inner joins give each record exactly one row |
| RecordList.JoinLosesAndRepeatsNothing | app/repositories/repo_record.py:68-74 | the joined rows are the matching records, one each, in order |
| RecordList.JoinResolves | app/repositories/repo_record.py:77-81 | a row shows its own record's category name and creator |
| RecordList.SortedIsUnique | app/repositories/repo_record.py:114-121 | the id tie-break leaves one possible order |
| RecordList.PrecedesIff | app/repositories/repo_record.py:114-121 | the comparison the sort uses is, for each of the ten field and direction pairs, the order in the columns themselves |
| RecordList.SliceIsPage | app/repositories/repo_record.py:121 | LIMIT and OFFSET give page n: the rows after those of the pages before, as many as fit |
| RecordList.FirstPagesIsPrefix | app/repositories/repo_record.py:121 | the first pages together are a prefix of the listing |
| RecordList.ListingIsExact | app/repositories/repo_record.py:89-147 | the listing is ordered column by column with the id as tie-break, both in the requested direction, holds each matching record once, and its length is the count computed without joins |
| RecordList.DateRangeIsWholeDays | app/services/service_record.py:169-181 | a date range accepts exactly the records whose UTC day lies in it, both ends included |
| RecordService.ParseSortIff | app/services/service_record.py:183-192 | the parser accepts exactly the ten `field:direction` strings, and the empty string as the default |
| RecordService.ParsedSortMeans | app/repositories/repo_record.py:114-121 | each of the accepted strings, written out, orders rows by its own column in its own direction, ties by id in the same direction |
| RecordService.ByNameFinds | app/repositories/repo_record_category.py:31-35 | finds the one category of that name, active or not, or none |
| RecordService.FilterMeansWanted | app/services/service_record.py:61-65 | the normalised filter means what the user asked for: named category, contained keyword, whole days |
| RecordService.RefusedIff | app/services/service_record.py:183-211 | a request is refused exactly for a sort that is none of the eleven accepted strings or, failing that, an unknown category |
| RecordService.AcceptedIsExact | app/services/service_record.py:34-86 | an accepted request reports the number of all wanted records and returns its page of them, row for row, ordered as the sort's text says and resolved, with page and size clamped to the bounds that go with a date range or without |
| RecordService.PagesPartitionTheAnswer | app/services/service_record.py:51-86 | all pages together are the wanted records, each once, in order, as many as `total`; the next page is empty |
| RecordService.TheAnswerIsUnique | app/services/service_record.py:34-86 | the meaning of a request fixes its rows, columns and order |
| RateLimiter.Limiter.Arrive | app/api/routers/ws/router.py:277-289 | the deque is always the accepted instants of the last ten seconds, and each decision is that of the rule over the whole history |
| RateLimiter.Limiter.Expire | app/api/routers/ws/router.py:279-280 | popping from the left leaves exactly the instants at most ten seconds old |
| RateLimiter.RefusedIff | app/api/routers/ws/router.py:281-288 | a message is refused exactly when `rate_limit` were accepted in the ten seconds before it |
| RateLimiter.RefusedByInstants | app/api/routers/ws/router.py:277-289 | the same in instants: a message is refused exactly when the one accepted `rate_limit` messages before it is at most ten seconds old |
| RateLimiter.AcceptedAreSpread | app/api/routers/ws/router.py:277-289 | between an accepted message and the one accepted `rate_limit` messages later more than ten seconds pass |
| RateLimiter.LimitHolds | app/api/routers/ws/router.py:277-289 | every closed interval of ten seconds holds at most `rate_limit` accepted messages |
| RateLimiter.NoRuleAcceptsMore | app/api/routers/ws/router.py:277-289 | no rule that keeps that bound ever accepts more messages than the limiter |
| Lease.Sampler.AcquireLease | app/services/monitoring/sampler.py:55-65 | runs the three commands of the protocol: succeeds exactly when the key is free or the instance's own, and then leads holding it |
| Lease.Sampler.ReleaseLease | app/services/monitoring/sampler.py:67-71 | runs the two commands of the protocol: afterwards the instance neither leads nor holds the key |
| Lease.StepKeepsSafeIff | app/services/monitoring/sampler.py:55-71 | after one command, commands that come in time can lead to two leaders exactly when it was stale |
| Lease.TwoLeadersIff | app/services/monitoring/sampler.py:55-71 | over a run of single commands, late ones included: at no point can commands that come in time lead to two leaders if and only if no command of the run is stale |
| Lease.FreshRunsAreExclusive | app/services/monitoring/sampler.py:55-71 | a run without a stale command never has two leaders, however late its commands are |
| Lease.ReleaseRemovesOwnKey | app/services/monitoring/sampler.py:67-71 | in such runs a release deletes the instance's own key and takes the lease from nobody |
| Lease.AtomicCallsAreExclusive | app/services/monitoring/sampler.py:55-71 | with acquire and release as single steps there is never more than one leader |
| Lease.AcquireIsThreeCommands | app/services/monitoring/sampler.py:55-65 | what the three commands of an acquire do when nothing comes between them |
| Lease.ReleaseIsTwoCommands | app/services/monitoring/sampler.py:67-71 | what the two commands of a release do when nothing comes between them |
| Lease.OnlyTheLeaderAcquires | app/services/monitoring/sampler.py:55-65 | while an instance leads its renewals succeed and all others fail without effect |
| Lease.LateRenewal | app/services/monitoring/sampler.py:60-64 | a concrete run in which a late `EXPIRE` gives two leaders |
| Lease.LateRelease | app/services/monitoring/sampler.py:67-71 | a concrete run in which a late `DELETE` removes another's lease and gives two leaders |
| Channels.ParseIntPrintInt | app/services/ws/bridge.py:77-91 | printing an integer and parsing it gives it back |
| Channels.PatternsMatchPrefixes | app/services/ws/protocol.py:59-65 | each subscribed pattern accepts exactly its own family of channels |
| Channels.PatternsAreDisjoint | app/services/ws/protocol.py:59-65 | no channel whatever matches two subscribed patterns |
| Channels.BranchOfFamily | app/services/ws/bridge.py:77-94 | the branch taken is that of the channel's family, whatever the order of the branches |
| Channels.DispatchUndoesPublish | app/services/ws/publisher.py:28-49 | the bridge decodes every publish call to the same kind of recipient, argument and payload |
| Channels.KickCode | app/services/ws/bridge.py:77-87 | a kick takes its close code from the payload, and 4401 when there is none |
| Channels.ExactlyOnce | app/services/ws/publisher.py:28-49 | every publish call reaches each instance's manager exactly once, as it was made |
| Channels.IgnoredIffNotSubscribed | app/services/ws/bridge.py:73-94 | the bridge has a branch for exactly the channels it subscribes to |

## Left out

- HTTP routing, request and response schemas, dependency injection, settings, logging, middleware and the application's start and stop.
- JWT signing, password hashing and field encryption; the hash of a refresh token stands for its row id.
- User registration beyond its first token, user and admin create, rename and role-change rules; a role change is a step that changes the role.
- Redis and MariaDB themselves: their commands and statements are modelled by their effect.
- Publishing a kick after a revocation is best effort in the code; the re-check is what the session theorems rest on.
- ConnectionManager.Manager.WriterTurn: takes the outcome of the send as a parameter; the socket is not modelled.
- Heartbeat timing, missed pongs, oversized and malformed control messages, role checks of topics.
- RecordService.FilterMeansWanted: text comparison in the database is exact here, without the case or accent folding a collation may add to `=` and LIKE.
- RecordList.DateRangeIsWholeDays: the calendar has no last day here; the code raises on the day after 9999-12-31.
- Creating, importing, updating and deleting records.
- LogService.LogQueryService.Query: numbers in `ts` and `line` are taken to parse, and no entry lacks its fields.
- Channels.ParseIntPrintInt: `int` also accepts white space and underscores, which no printed channel contains.
- Channels.PatternsMatchPrefixes: the matcher has no character classes, which no subscribed pattern uses.
- Lease.TwoLeadersIff: a sample taken by a leader is not part of the model, nor a connection to Redis that loses an answer.
- Infrastructure probes, the sampler's measurements, real-time history and caching.
