/**
  Refresh-token rotation as a protocol over one shared table: logins, rotations, logouts,
  admin lifecycle and purge, run by any number of requests in any order
  (app/services/service_auth.py, app/services/service_admin.py, app/services/ws/reauth.py).

  A state holds the committed database together with what every request in flight has read.
  `refresh`, `login`/`admin_login` and `logout` are two atomic steps each: the read (with its
  checks) and the write (with its commit).  Every other operation is one atomic step.
*/
module AuthProtocol {
  import opened Wrappers
  import opened TokenTable

  const SUPER_ADMIN: int := 100

  datatype Account =
    | UserAccount(isActive: bool)
    | AdminAccount(role: int, isProtected: bool, archivedAt: Option<Time>, deletedAt: Option<Time>)
  {
    predicate Active() {
      match this
      case UserAccount(isActive) => isActive
      case AdminAccount(_, _, archivedAt, deletedAt) => archivedAt.None? && deletedAt.None?
    }
  }

  /** What `refresh` holds between its checks and its write. */
  datatype PendingRefresh = PendingRefresh(token: nat, principal: Principal, family: Family, started: Time)

  /**
    `rows`, `nextId` and `accounts` are the database.  `issued` records which principal each
    family id was ever created for, and `minted` the (sub, sid) claims of every access token
    ever signed.  The last three maps are the requests in flight.
  */
  datatype Auth = Auth(
    lifetime: nat,
    grace: nat,
    clock: Time,
    rows: Table,
    nextId: nat,
    accounts: map<Principal, Account>,
    issued: map<Family, Principal>,
    minted: set<(Principal, Family)>,
    refreshes: map<nat, PendingRefresh>,
    logins: map<nat, Principal>,
    logouts: map<nat, nat>
  )

  datatype Action =
    | Tick(elapsed: nat)
    | CreateAdmin(principal: Principal, role: int, isProtected: bool)
    | Register(principal: Principal, family: Family)
    | SetUserActive(principal: Principal, isActive: bool)
    | SetRole(principal: Principal, role: int)
    | LoginRead(request: nat, principal: Principal)
    | LoginWrite(request: nat, family: Family)
    | RefreshRead(request: nat, token: nat, started: Time)
    | RefreshWrite(request: nat)
    | LogoutRead(request: nat, token: nat)
    | LogoutWrite(request: nat)
    | Abort(request: nat)
    | LogoutAll(principal: Principal)
    | ChangePassword(principal: Principal)
    | Purge
    | Archive(principal: Principal, actor: Option<Principal>)
    | Unarchive(principal: Principal)
    | Delete(principal: Principal, actor: Option<Principal>)
    | Restore(principal: Principal)

  /** `Skipped` marks an action that cannot occur in the state at hand. */
  datatype Outcome = Done | Proceed | Unauthorized | NotFound | Forbidden | BusinessRule | StaleRow | Skipped

  function Init(lifetime: nat, grace: nat): Auth {
    Auth(lifetime, grace, 0, map[], 0, map[], map[], {}, map[], map[], map[])
  }

  // ------------------------------------------------------------------ issuing

  /** A new session: its first token row and its first access token. */
  function Issued(s: Auth, p: Principal, f: Family): Auth {
    s.(rows := s.rows[s.nextId := Row(p, f, s.clock + s.lifetime, None, None)],
       nextId := s.nextId + 1,
       issued := s.issued[f := p],
       minted := s.minted + {(p, f)})
  }

  function RegisterStep(s: Auth, p: Principal, f: Family): (Auth, Outcome) {
    if p in s.accounts || f in s.issued then (s, Skipped)
    else (Issued(s.(accounts := s.accounts[p := UserAccount(true)]), p, f), Done)
  }

  function LoginReadStep(s: Auth, q: nat, p: Principal): (Auth, Outcome) {
    if q in s.logins then (s, Skipped)
    else if p !in s.accounts || !s.accounts[p].Active() then (s, Unauthorized)
    else (s.(logins := s.logins[q := p]), Proceed)
  }

  function LoginWriteStep(s: Auth, q: nat, f: Family): (Auth, Outcome) {
    if q !in s.logins || f in s.issued then (s, Skipped)
    else (Issued(s.(logins := s.logins - {q}), s.logins[q], f), Done)
  }

  // ------------------------------------------------------------------ rotation

  /** `started` is the request's own clock reading, taken before the row was read. */
  function RefreshReadStep(s: Auth, q: nat, token: nat, started: Time): (Auth, Outcome) {
    if q in s.refreshes || started > s.clock then (s, Skipped)
    else if token !in s.rows then (s, Unauthorized)
    else
      var rt := s.rows[token];
      if rt.revokedAt.Some? then
        if started - rt.revokedAt.value <= s.grace then (s, Unauthorized)
        else (s.(rows := RevokedFamily(s.rows, rt.family, started)), Unauthorized)
      else if rt.expires <= started then (s, Unauthorized)
      else if rt.principal !in s.accounts || !s.accounts[rt.principal].Active() then (s, Unauthorized)
      else (s.(refreshes := s.refreshes[q := PendingRefresh(token, rt.principal, rt.family, started)]), Proceed)
  }

  /** Insert the successor, then consume: a loser's insert is rolled back, its id is not. */
  function TakenRefresh(s: Auth, r: PendingRefresh): (Auth, Outcome) {
    if Consumable(s.rows, r.token) then
      var successor := Row(r.principal, r.family, s.clock + s.lifetime, None, None);
      (s.(rows := Consumed(s.rows, r.token, r.started, Some(s.nextId))[s.nextId := successor],
          nextId := s.nextId + 1,
          minted := s.minted + {(r.principal, r.family)}),
       Done)
    else (s.(nextId := s.nextId + 1), Unauthorized)
  }

  function RefreshWriteStep(s: Auth, q: nat): (Auth, Outcome) {
    if q !in s.refreshes then (s, Skipped)
    else TakenRefresh(s.(refreshes := s.refreshes - {q}), s.refreshes[q])
  }

  // ------------------------------------------------------------------ revocation

  function LogoutReadStep(s: Auth, q: nat, token: nat): (Auth, Outcome) {
    if q in s.logouts then (s, Skipped)
    else if !Consumable(s.rows, token) then (s, Done)
    else (s.(logouts := s.logouts[q := token]), Proceed)
  }

  /** Writes `revoked_at` whatever the row holds by now. */
  function LogoutWriteStep(s: Auth, q: nat): (Auth, Outcome) {
    if q !in s.logouts then (s, Skipped)
    else
      var t := s.(logouts := s.logouts - {q});
      if s.logouts[q] in s.rows then (t.(rows := Stamped(s.rows, s.logouts[q], s.clock)), Done)
      else (t, StaleRow)
  }

  function RevokeAllStep(s: Auth, p: Principal): Auth {
    s.(rows := RevokedPrincipal(s.rows, p, s.clock))
  }

  // ------------------------------------------------------------------ admin lifecycle

  /** `AdminService.get`: the admin row, a soft-deleted one counting only on request. */
  predicate Found(s: Auth, p: Principal, includeDeleted: bool) {
    p in s.accounts && s.accounts[p].AdminAccount? && (includeDeleted || s.accounts[p].deletedAt.None?)
  }

  /** `_guard_transition` */
  function Guard(a: Account, p: Principal, actor: Option<Principal>): Outcome
    requires a.AdminAccount?
  {
    if a.isProtected && actor.Some? && actor.value != p then Forbidden
    else if a.isProtected then BusinessRule
    else if a.role == SUPER_ADMIN then BusinessRule
    else if actor == Some(p) then BusinessRule
    else Done
  }

  function WithAccount(s: Auth, p: Principal, a: Account): Auth {
    s.(accounts := s.accounts[p := a])
  }

  function ArchiveStep(s: Auth, p: Principal, actor: Option<Principal>): (Auth, Outcome) {
    if !Found(s, p, false) then (s, NotFound)
    else
      var a := s.accounts[p];
      if a.archivedAt.Some? then (s, Done)
      else
        var verdict := Guard(a, p, actor);
        if !verdict.Done? then (s, verdict)
        else (RevokeAllStep(WithAccount(s, p, a.(archivedAt := Some(s.clock))), p), Done)
  }

  function UnarchiveStep(s: Auth, p: Principal): (Auth, Outcome) {
    if !Found(s, p, false) then (s, NotFound)
    else (WithAccount(s, p, s.accounts[p].(archivedAt := None)), Done)
  }

  function DeleteStep(s: Auth, p: Principal, actor: Option<Principal>): (Auth, Outcome) {
    if !Found(s, p, false) then (s, NotFound)
    else
      var a := s.accounts[p];
      var verdict := Guard(a, p, actor);
      if !verdict.Done? then (s, verdict)
      else (RevokeAllStep(WithAccount(s, p, a.(deletedAt := Some(s.clock))), p), Done)
  }

  function RestoreStep(s: Auth, p: Principal): (Auth, Outcome) {
    if !Found(s, p, true) then (s, NotFound)
    else (WithAccount(s, p, s.accounts[p].(deletedAt := None)), Done)
  }

  // ------------------------------------------------------------------ the transition system

  function Apply(s: Auth, a: Action): (Auth, Outcome) {
    match a
    case Tick(d) => (s.(clock := s.clock + d), Done)
    case CreateAdmin(p, role, isProtected) =>
      if p in s.accounts then (s, Skipped)
      else (WithAccount(s, p, AdminAccount(role, isProtected, None, None)), Done)
    case Register(p, f) => RegisterStep(s, p, f)
    case SetUserActive(p, b) =>
      if p in s.accounts && s.accounts[p].UserAccount? then (WithAccount(s, p, UserAccount(b)), Done)
      else (s, NotFound)
    case SetRole(p, role) =>
      if Found(s, p, false) then (WithAccount(s, p, s.accounts[p].(role := role)), Done)
      else (s, NotFound)
    case LoginRead(q, p) => LoginReadStep(s, q, p)
    case LoginWrite(q, f) => LoginWriteStep(s, q, f)
    case RefreshRead(q, token, started) => RefreshReadStep(s, q, token, started)
    case RefreshWrite(q) => RefreshWriteStep(s, q)
    case LogoutRead(q, token) => LogoutReadStep(s, q, token)
    case LogoutWrite(q) => LogoutWriteStep(s, q)
    case Abort(q) =>
      (s.(refreshes := s.refreshes - {q}, logins := s.logins - {q}, logouts := s.logouts - {q}), Done)
    case LogoutAll(p) => (RevokeAllStep(s, p), Done)
    case ChangePassword(p) => if Found(s, p, false) then (RevokeAllStep(s, p), Done) else (s, NotFound)
    case Purge => (s.(rows := Purged(s.rows, s.clock)), Done)
    case Archive(p, actor) => ArchiveStep(s, p, actor)
    case Unarchive(p) => UnarchiveStep(s, p)
    case Delete(p, actor) => DeleteStep(s, p, actor)
    case Restore(p) => RestoreStep(s, p)
  }

  function Run(s: Auth, actions: seq<Action>): Auth
    decreases |actions|
  {
    if actions == [] then s else Run(Apply(s, actions[0]).0, actions[1..])
  }

  /** `WsReauthService.is_connection_valid` */
  predicate IsConnectionValid(s: Auth, p: Principal, sid: Option<Family>, now: Time) {
    && p in s.accounts && s.accounts[p].AdminAccount? && s.accounts[p].Active()
    && (sid.Some? ==> HasLiveTokensInFamily(s.rows, sid.value, now))
  }

  // ------------------------------------------------------------------ the invariant

  predicate PendingMatches(s: Auth, r: PendingRefresh) {
    && r.token < s.nextId && r.started <= s.clock
    && r.family in s.issued && s.issued[r.family] == r.principal
    && (r.token in s.rows ==> s.rows[r.token].principal == r.principal && s.rows[r.token].family == r.family)
  }

  predicate RowMatches(s: Auth, i: nat)
    requires i in s.rows
  {
    && i < s.nextId
    && s.rows[i].expires <= s.clock + s.lifetime
    && s.rows[i].family in s.issued && s.issued[s.rows[i].family] == s.rows[i].principal
  }

  ghost predicate Inv(s: Auth) {
    && Chained(s.rows)
    && (forall i {:trigger RowMatches(s, i)} | i in s.rows :: RowMatches(s, i))
    && (forall q | q in s.refreshes :: PendingMatches(s, s.refreshes[q]))
    && (forall m | m in s.minted :: m.1 in s.issued && s.issued[m.1] == m.0)
    && (forall q | q in s.logins :: s.logins[q] in s.accounts)
  }

  /** An old row keeps its identity and is never un-revoked; a new row opens a family that
      was never issued, or succeeds an unrevoked row. */
  predicate RowEvolves(s: Auth, t: Auth, i: nat)
    requires i in t.rows
  {
    if i < s.nextId then
      && i in s.rows
      && t.rows[i] == s.rows[i].(revokedAt := t.rows[i].revokedAt, replacedBy := t.rows[i].replacedBy)
      && (t.rows[i].Unrevoked() ==> s.rows[i].Unrevoked())
    else
      t.rows[i].family in s.issued ==> !Dead(s.rows, t.rows[i].family)
  }

  /** What one step may do to rows, families and counters. */
  ghost predicate Evolves(s: Auth, t: Auth) {
    && s.clock <= t.clock && s.nextId <= t.nextId && t.lifetime == s.lifetime && t.grace == s.grace
    && (forall f | f in s.issued :: f in t.issued && t.issued[f] == s.issued[f])
    && (forall i {:trigger RowEvolves(s, t, i)} | i in t.rows :: RowEvolves(s, t, i))
  }

  /** A step made after one that touched no row. */
  lemma EvolvesAfterQuiet(s: Auth, m: Auth, t: Auth)
    requires m.rows == s.rows && Evolves(s, m) && m.nextId == s.nextId && m.issued == s.issued
    requires Evolves(m, t)
    ensures Evolves(s, t)
  {
    forall i | i in t.rows
      ensures RowEvolves(s, t, i)
    {
      assert RowEvolves(m, t, i);
    }
  }

  lemma IssueKeepsInv(s: Auth, p: Principal, f: Family)
    requires Inv(s) && f !in s.issued
    ensures Inv(Issued(s, p, f)) && Evolves(s, Issued(s, p, f))
  {
    var r := Row(p, f, s.clock + s.lifetime, None, None);
    forall i | i in s.rows
      ensures s.rows[i].family != f && i < s.nextId
    {
      assert RowMatches(s, i);
    }
    IssuingKeepsChains(s.rows, s.nextId, r);
    var t := Issued(s, p, f);
    forall i | i in t.rows
      ensures RowMatches(t, i)
    {
      assert i != s.nextId ==> RowMatches(s, i);
    }
    forall q | q in t.refreshes
      ensures PendingMatches(t, t.refreshes[q])
    {
      assert PendingMatches(s, s.refreshes[q]);
    }
  }

  /** The winner's table update, with the request already taken off the in-flight list. */
  lemma RotationKeepsInv(s: Auth, r: PendingRefresh, successor: Row)
    requires Inv(s) && PendingMatches(s, r) && Consumable(s.rows, r.token)
    requires successor == Row(r.principal, r.family, s.clock + s.lifetime, None, None)
    ensures var t := s.(rows := Consumed(s.rows, r.token, r.started, Some(s.nextId))[s.nextId := successor],
                        nextId := s.nextId + 1,
                        minted := s.minted + {(r.principal, r.family)});
            Inv(t) && Evolves(s, t)
  {
    var t := s.(rows := Consumed(s.rows, r.token, r.started, Some(s.nextId))[s.nextId := successor],
                nextId := s.nextId + 1,
                minted := s.minted + {(r.principal, r.family)});
    forall i | i in s.rows
      ensures i < s.nextId && s.rows[i].expires <= successor.expires
    {
      assert RowMatches(s, i);
    }
    RotatingKeepsChains(s.rows, r.token, r.started, s.nextId, successor);
    forall i | i in t.rows
      ensures RowMatches(t, i)
    {
      assert i != s.nextId ==> RowMatches(s, i);
    }
    forall k | k in t.refreshes
      ensures PendingMatches(t, t.refreshes[k])
    {
      assert PendingMatches(s, s.refreshes[k]);
    }
    assert !Dead(s.rows, r.family);
  }

  lemma RefreshWriteKeepsInv(s: Auth, q: nat)
    requires Inv(s)
    ensures Inv(RefreshWriteStep(s, q).0) && Evolves(s, RefreshWriteStep(s, q).0)
  {
    QuietStepKeepsInv(s, s);
    if q in s.refreshes {
      var s' := s.(refreshes := s.refreshes - {q});
      QuietStepKeepsInv(s, s');
      TakenRefreshKeepsInv(s', s.refreshes[q]);
      assert RefreshWriteStep(s, q).0 == TakenRefresh(s', s.refreshes[q]).0;
      EvolvesAfterQuiet(s, s', RefreshWriteStep(s, q).0);
    }
  }

  lemma TakenRefreshKeepsInv(s: Auth, r: PendingRefresh)
    requires Inv(s) && PendingMatches(s, r)
    ensures Inv(TakenRefresh(s, r).0) && Evolves(s, TakenRefresh(s, r).0)
  {
    if Consumable(s.rows, r.token) {
      RotationKeepsInv(s, r, Row(r.principal, r.family, s.clock + s.lifetime, None, None));
    } else {
      LosingKeepsInv(s);
    }
  }

  /** A rolled-back insert only burns an id. */
  lemma LosingKeepsInv(s: Auth)
    requires Inv(s)
    ensures Inv(s.(nextId := s.nextId + 1)) && Evolves(s, s.(nextId := s.nextId + 1))
  {
    var t := s.(nextId := s.nextId + 1);
    forall i | i in t.rows
      ensures RowMatches(t, i) && i < s.nextId
    {
      assert RowMatches(s, i);
    }
    forall k | k in t.refreshes
      ensures PendingMatches(t, t.refreshes[k])
    {
      assert PendingMatches(s, s.refreshes[k]);
    }
  }

  lemma RevokingKeepsInv(s: Auth, u: Table)
    requires Inv(s) && OnlyRevokes(s.rows, u)
    ensures Inv(s.(rows := u)) && Evolves(s, s.(rows := u))
  {
    RevokingKeepsChains(s.rows, u);
    var t := s.(rows := u);
    forall i | i in u
      ensures RowMatches(t, i)
    {
      assert RowMatches(s, i);
    }
    forall q | q in t.refreshes
      ensures PendingMatches(t, t.refreshes[q])
    {
      assert PendingMatches(s, s.refreshes[q]);
    }
  }

  lemma PurgeKeepsInv(s: Auth)
    requires Inv(s)
    ensures Inv(s.(rows := Purged(s.rows, s.clock))) && Evolves(s, s.(rows := Purged(s.rows, s.clock)))
  {
    PurgeCutsPrefixes(s.rows, s.clock);
    var t := s.(rows := Purged(s.rows, s.clock));
    forall i | i in t.rows
      ensures RowMatches(t, i)
    {
      assert RowMatches(s, i);
    }
    forall q | q in t.refreshes
      ensures PendingMatches(t, t.refreshes[q])
    {
      assert PendingMatches(s, s.refreshes[q]);
    }
  }

  /** Steps that leave the token table, the counters and the families alone. */
  lemma QuietStepKeepsInv(s: Auth, t: Auth)
    requires Inv(s)
    requires t.rows == s.rows && t.nextId == s.nextId && t.issued == s.issued && t.minted == s.minted
    requires t.clock >= s.clock && t.lifetime == s.lifetime && t.grace == s.grace
    requires s.accounts.Keys <= t.accounts.Keys
    requires forall q | q in t.logins :: t.logins[q] in t.accounts
    requires forall q | q in t.refreshes :: PendingMatches(s, t.refreshes[q])
    ensures Inv(t) && Evolves(s, t)
  {
    forall i | i in t.rows
      ensures RowMatches(t, i)
    {
      assert RowMatches(s, i);
    }
  }

  lemma RefreshReadKeepsInv(s: Auth, q: nat, token: nat, started: Time)
    requires Inv(s)
    ensures Inv(RefreshReadStep(s, q, token, started).0) && Evolves(s, RefreshReadStep(s, q, token, started).0)
  {
    var t := RefreshReadStep(s, q, token, started).0;
    QuietStepKeepsInv(s, s);
    if t.refreshes == s.refreshes {
      if t != s {
        RevokedWhereOnlyRevokes(s.rows, (r: Row) => r.family == s.rows[token].family, started);
        RevokingKeepsInv(s, t.rows);
      }
    } else {
      assert RowMatches(s, token);
      QuietStepKeepsInv(s, t);
    }
  }

  lemma RevokeAllKeepsInv(s: Auth, p: Principal)
    requires Inv(s)
    ensures Inv(RevokeAllStep(s, p)) && Evolves(s, RevokeAllStep(s, p))
  {
    RevokedWhereOnlyRevokes(s.rows, (r: Row) => r.principal == p, s.clock);
    RevokingKeepsInv(s, RevokedPrincipal(s.rows, p, s.clock));
  }

  /** An account change, followed or not by revoking everything the principal holds. */
  lemma AccountStepKeepsInv(s: Auth, p: Principal, a: Account)
    requires Inv(s)
    ensures Inv(WithAccount(s, p, a)) && Evolves(s, WithAccount(s, p, a))
    ensures Inv(RevokeAllStep(WithAccount(s, p, a), p)) && Evolves(s, RevokeAllStep(WithAccount(s, p, a), p))
  {
    QuietStepKeepsInv(s, WithAccount(s, p, a));
    RevokeAllKeepsInv(WithAccount(s, p, a), p);
    EvolvesAfterQuiet(s, WithAccount(s, p, a), RevokeAllStep(WithAccount(s, p, a), p));
  }

  lemma LifecycleKeepsInv(s: Auth, a: Action)
    requires Inv(s)
    requires a.CreateAdmin? || a.SetUserActive? || a.SetRole? || a.Archive? || a.Unarchive? || a.Delete? || a.Restore?
    ensures Inv(Apply(s, a).0) && Evolves(s, Apply(s, a).0)
  {
    var p := a.principal;
    QuietStepKeepsInv(s, s);
    if Apply(s, a).0 != s {
      AccountStepKeepsInv(s, p, Apply(s, a).0.accounts[p]);
    }
  }

  lemma LogoutWriteKeepsInv(s: Auth, q: nat)
    requires Inv(s)
    ensures Inv(LogoutWriteStep(s, q).0) && Evolves(s, LogoutWriteStep(s, q).0)
  {
    QuietStepKeepsInv(s, s);
    if q in s.logouts {
      var s' := s.(logouts := s.logouts - {q});
      QuietStepKeepsInv(s, s');
      RevokingKeepsInv(s', Stamped(s.rows, s.logouts[q], s.clock));
      EvolvesAfterQuiet(s, s', LogoutWriteStep(s, q).0);
    }
  }

  lemma RegisterKeepsInv(s: Auth, p: Principal, f: Family)
    requires Inv(s)
    ensures Inv(RegisterStep(s, p, f).0) && Evolves(s, RegisterStep(s, p, f).0)
  {
    QuietStepKeepsInv(s, s);
    if p !in s.accounts && f !in s.issued {
      var s' := s.(accounts := s.accounts[p := UserAccount(true)]);
      QuietStepKeepsInv(s, s');
      IssueKeepsInv(s', p, f);
      EvolvesAfterQuiet(s, s', Issued(s', p, f));
    }
  }

  lemma LoginWriteKeepsInv(s: Auth, q: nat, f: Family)
    requires Inv(s)
    ensures Inv(LoginWriteStep(s, q, f).0) && Evolves(s, LoginWriteStep(s, q, f).0)
  {
    QuietStepKeepsInv(s, s);
    if q in s.logins && f !in s.issued {
      var s' := s.(logins := s.logins - {q});
      QuietStepKeepsInv(s, s');
      IssueKeepsInv(s', s.logins[q], f);
      EvolvesAfterQuiet(s, s', Issued(s', s.logins[q], f));
    }
  }

  lemma LoginReadKeepsInv(s: Auth, q: nat, p: Principal)
    requires Inv(s)
    ensures Inv(LoginReadStep(s, q, p).0) && Evolves(s, LoginReadStep(s, q, p).0)
  {
    QuietStepKeepsInv(s, LoginReadStep(s, q, p).0);
  }

  lemma LogoutReadKeepsInv(s: Auth, q: nat, token: nat)
    requires Inv(s)
    ensures Inv(LogoutReadStep(s, q, token).0) && Evolves(s, LogoutReadStep(s, q, token).0)
  {
    QuietStepKeepsInv(s, LogoutReadStep(s, q, token).0);
  }

  lemma QuietActionKeepsInv(s: Auth, a: Action)
    requires Inv(s) && (a.Tick? || a.Abort?)
    ensures Inv(Apply(s, a).0) && Evolves(s, Apply(s, a).0)
  {
    QuietStepKeepsInv(s, Apply(s, a).0);
  }

  lemma StepKeepsInv(s: Auth, a: Action)
    requires Inv(s)
    ensures Inv(Apply(s, a).0) && Evolves(s, Apply(s, a).0)
  {
    match a
    case Register(p, f) => RegisterKeepsInv(s, p, f);
    case LoginWrite(q, f) => LoginWriteKeepsInv(s, q, f);
    case RefreshRead(q, token, started) => RefreshReadKeepsInv(s, q, token, started);
    case RefreshWrite(q) => RefreshWriteKeepsInv(s, q);
    case LogoutWrite(q) => LogoutWriteKeepsInv(s, q);
    case LogoutAll(p) => RevokeAllKeepsInv(s, p);
    case ChangePassword(p) =>
      RevokeAllKeepsInv(s, p);
      QuietStepKeepsInv(s, s);
    case Purge => PurgeKeepsInv(s);
    case Tick(_) => QuietActionKeepsInv(s, a);
    case LoginRead(q, p) => LoginReadKeepsInv(s, q, p);
    case LogoutRead(q, token) => LogoutReadKeepsInv(s, q, token);
    case Abort(_) => QuietActionKeepsInv(s, a);
    case _ => LifecycleKeepsInv(s, a);
  }

  /** The invariant holds after every run, whatever the interleaving. */
  lemma {:induction false} RunKeepsInv(s: Auth, actions: seq<Action>)
    requires Inv(s)
    ensures Inv(Run(s, actions))
    decreases |actions|
  {
    if actions != [] {
      StepKeepsInv(s, actions[0]);
      RunKeepsInv(Apply(s, actions[0]).0, actions[1..]);
    }
  }
}
