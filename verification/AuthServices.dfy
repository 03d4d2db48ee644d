/**
  `AuthService` and `AdminService` as they run: each method works in a database session,
  writes in place, and commits or rolls back (app/services/service_auth.py,
  app/services/service_admin.py).  Every method is proved to be exactly one step of the
  protocol, so all of `AuthTheorems` applies to any sequence of calls.
*/
module AuthServices {
  import opened Wrappers
  import opened TokenTable
  import opened AuthProtocol

  /** The database, the clock, and the locals of the requests in flight. */
  class Backend {
    const lifetime: nat
    const grace: nat
    const tokens: RefreshTokenRepository
    var clock: Time
    var accounts: map<Principal, Account>
    var refreshes: map<nat, PendingRefresh>
    var logins: map<nat, Principal>
    var logouts: map<nat, nat>
    ghost var issued: map<Family, Principal>
    ghost var minted: set<(Principal, Family)>

    constructor (lifetime: nat, grace: nat)
      ensures Valid() && fresh(tokens)
      ensures State() == Init(lifetime, grace)
    {
      this.lifetime, this.grace := lifetime, grace;
      tokens := new RefreshTokenRepository();
      clock, accounts := 0, map[];
      refreshes, logins, logouts := map[], map[], map[];
      issued, minted := map[], {};
    }

    ghost function State(): Auth
      reads this, tokens
    {
      Auth(lifetime, grace, clock, tokens.committed, tokens.nextId, accounts, issued, minted,
           refreshes, logins, logouts)
    }

    /** Between requests: no transaction is open and the protocol invariant holds. */
    ghost predicate Valid()
      reads this, tokens
    {
      tokens.rows == tokens.committed && tokens.Valid() && Inv(State())
    }
  }

  class AuthService {
    const backend: Backend

    constructor (backend: Backend)
      ensures this.backend == backend
    {
      this.backend := backend;
    }

    ghost predicate Valid()
      reads this, backend, backend.tokens
    {
      backend.Valid()
    }

    /** `_issue_refresh_token`: insert the row, leave the commit to the caller. */
    method IssueRefreshToken(p: Principal, f: Family) returns (id: nat)
      requires backend.tokens.Valid()
      modifies backend.tokens`rows, backend.tokens`nextId
      ensures backend.tokens.Valid() && id == old(backend.tokens.nextId) && backend.tokens.nextId == id + 1
      ensures backend.tokens.rows
           == old(backend.tokens.rows)[id := Row(p, f, backend.clock + backend.lifetime, None, None)]
    {
      id := backend.tokens.Add(Row(p, f, backend.clock + backend.lifetime, None, None));
    }

    /** `login` and `admin_login`, up to the activity check (the password is right). */
    method LoginRead(q: nat, p: Principal) returns (outcome: Outcome)
      requires Valid() && q !in backend.logins
      modifies backend
      ensures Valid() && (backend.State(), outcome) == Apply(old(backend.State()), Action.LoginRead(q, p))
    {
      ghost var s := backend.State();
      StepKeepsInv(s, Action.LoginRead(q, p));
      if p !in backend.accounts || !backend.accounts[p].Active() {
        return Unauthorized;
      }
      backend.logins := backend.logins[q := p];
      outcome := Proceed;
    }

    /** `login` and `admin_login`, from the fresh family id to the commit. */
    method LoginWrite(q: nat, f: Family) returns (outcome: Outcome)
      requires Valid() && q in backend.logins && f !in backend.issued
      modifies backend, backend.tokens
      ensures Valid() && (backend.State(), outcome) == Apply(old(backend.State()), Action.LoginWrite(q, f))
    {
      ghost var s := backend.State();
      LoginWriteKeepsInv(s, q, f);
      var p := backend.logins[q];
      backend.logins := backend.logins - {q};
      OpenSession(p, f);
      outcome := Done;
      assert Apply(s, Action.LoginWrite(q, f)) == LoginWriteStep(s, q, f);
    }

    /** The access token and the first refresh token of a new family. */
    method OpenSession(p: Principal, f: Family)
      requires backend.tokens.Valid() && backend.tokens.rows == backend.tokens.committed
      modifies backend`minted, backend`issued, backend.tokens
      ensures backend.tokens.Valid() && backend.tokens.rows == backend.tokens.committed
      ensures backend.State() == Issued(old(backend.State()), p, f)
    {
      backend.minted := backend.minted + {(p, f)};
      var _ := IssueRefreshToken(p, f);
      backend.tokens.Commit();
      backend.issued := backend.issued[f := p];
    }

    /** `refresh`, checks 1 to 4.  Reuse commits its revocations before it fails. */
    method RefreshRead(q: nat, token: nat, now: Time) returns (outcome: Outcome)
      requires Valid() && q !in backend.refreshes && now <= backend.clock
      modifies backend, backend.tokens
      ensures Valid() && (backend.State(), outcome) == Apply(old(backend.State()), Action.RefreshRead(q, token, now))
    {
      ghost var s := backend.State();
      StepKeepsInv(s, Action.RefreshRead(q, token, now));
      var rt := backend.tokens.GetByHash(token);
      if rt.None? {
        return Unauthorized;
      }
      if rt.value.revokedAt.Some? {
        if now - rt.value.revokedAt.value <= backend.grace {
          return Unauthorized;
        }
        var _ := backend.tokens.RevokeFamily(rt.value.family, now);
        backend.tokens.Commit();
        return Unauthorized;
      }
      if rt.value.expires <= now {
        return Unauthorized;
      }
      var p := rt.value.principal;
      if p !in backend.accounts || !backend.accounts[p].Active() {
        return Unauthorized;
      }
      backend.refreshes := backend.refreshes[q := PendingRefresh(token, p, rt.value.family, now)];
      outcome := Proceed;
    }

    /** `refresh`, step 5: insert the successor, consume the old row, commit or roll back. */
    method RefreshWrite(q: nat) returns (outcome: Outcome)
      requires Valid() && q in backend.refreshes
      modifies backend, backend.tokens
      ensures Valid() && (backend.State(), outcome) == Apply(old(backend.State()), Action.RefreshWrite(q))
    {
      ghost var s := backend.State();
      RefreshWriteKeepsInv(s, q);
      var rt := backend.refreshes[q];
      assert PendingMatches(s, rt);
      backend.refreshes := backend.refreshes - {q};
      outcome := Rotate(rt);
      assert Apply(s, Action.RefreshWrite(q)) == RefreshWriteStep(s, q);
    }

    /** The transaction of a refresh. */
    method Rotate(rt: PendingRefresh) returns (outcome: Outcome)
      requires backend.tokens.Valid() && backend.tokens.rows == backend.tokens.committed
      requires rt.token < backend.tokens.nextId
      modifies backend`minted, backend.tokens
      ensures backend.tokens.Valid() && backend.tokens.rows == backend.tokens.committed
      ensures (backend.State(), outcome) == TakenRefresh(old(backend.State()), rt)
    {
      ghost var s := backend.State();
      var successor := IssueRefreshToken(rt.principal, rt.family);
      var won := backend.tokens.Consume(rt.token, rt.started, Some(successor));
      if !won {
        backend.tokens.Rollback();
        return Unauthorized;
      }
      backend.tokens.Commit();
      backend.minted := backend.minted + {(rt.principal, rt.family)};
      assert Consumed(s.rows, rt.token, rt.started, Some(successor))
             [successor := Row(rt.principal, rt.family, s.clock + s.lifetime, None, None)] == backend.tokens.committed;
      outcome := Done;
    }

    /** `logout`, up to the check of `revoked_at`: silent when there is nothing to revoke. */
    method LogoutRead(q: nat, token: nat) returns (outcome: Outcome)
      requires Valid() && q !in backend.logouts
      modifies backend
      ensures Valid() && (backend.State(), outcome) == Apply(old(backend.State()), Action.LogoutRead(q, token))
    {
      StepKeepsInv(backend.State(), Action.LogoutRead(q, token));
      var rt := backend.tokens.GetByHash(token);
      if rt.None? || rt.value.revokedAt.Some? {
        return Done;
      }
      backend.logouts := backend.logouts[q := token];
      outcome := Proceed;
    }

    /** `logout`, the assignment of `revoked_at` and its commit. */
    method LogoutWrite(q: nat) returns (outcome: Outcome)
      requires Valid() && q in backend.logouts
      modifies backend, backend.tokens
      ensures Valid() && (backend.State(), outcome) == Apply(old(backend.State()), Action.LogoutWrite(q))
    {
      StepKeepsInv(backend.State(), Action.LogoutWrite(q));
      var token := backend.logouts[q];
      backend.logouts := backend.logouts - {q};
      var rt := backend.tokens.GetByHash(token);
      if rt.None? {
        return StaleRow;
      }
      backend.tokens.Stamp(token, backend.clock);
      backend.tokens.Commit();
      outcome := Done;
    }

    method LogoutAll(p: Principal) returns (outcome: Outcome)
      requires Valid()
      modifies backend.tokens
      ensures Valid() && (backend.State(), outcome) == Apply(old(backend.State()), Action.LogoutAll(p))
    {
      StepKeepsInv(backend.State(), Action.LogoutAll(p));
      var _ := backend.tokens.RevokeAllForPrincipal(p, backend.clock);
      backend.tokens.Commit();
      outcome := Done;
    }

    /** `_purge_expired_best_effort` */
    method PurgeExpired() returns (outcome: Outcome)
      requires Valid()
      modifies backend.tokens
      ensures Valid() && (backend.State(), outcome) == Apply(old(backend.State()), Purge)
    {
      StepKeepsInv(backend.State(), Purge);
      var _ := backend.tokens.DeleteExpired(backend.clock);
      backend.tokens.Commit();
      outcome := Done;
    }
  }

  class AdminService {
    const backend: Backend

    constructor (backend: Backend)
      ensures this.backend == backend
    {
      this.backend := backend;
    }

    ghost predicate Valid()
      reads this, backend, backend.tokens
    {
      backend.Valid()
    }

    method Get(p: Principal, includeDeleted: bool) returns (admin: Option<Account>)
      ensures admin.Some? <==> Found(backend.State(), p, includeDeleted)
      ensures admin.Some? ==> admin.value == backend.accounts[p]
    {
      if p !in backend.accounts || !backend.accounts[p].AdminAccount?
         || (!includeDeleted && backend.accounts[p].deletedAt.Some?) {
        return None;
      }
      admin := Some(backend.accounts[p]);
    }

    method Archive(p: Principal, actor: Option<Principal>) returns (outcome: Outcome)
      requires Valid()
      modifies backend, backend.tokens
      ensures Valid() && (backend.State(), outcome) == Apply(old(backend.State()), Action.Archive(p, actor))
    {
      StepKeepsInv(backend.State(), Action.Archive(p, actor));
      var admin := Get(p, false);
      if admin.None? {
        return NotFound;
      }
      if admin.value.archivedAt.Some? {
        return Done;
      }
      var verdict := Guard(admin.value, p, actor);
      if verdict != Done {
        return verdict;
      }
      backend.accounts := backend.accounts[p := admin.value.(archivedAt := Some(backend.clock))];
      var _ := backend.tokens.RevokeAllForPrincipal(p, backend.clock);
      backend.tokens.Commit();
      outcome := Done;
    }

    method Unarchive(p: Principal) returns (outcome: Outcome)
      requires Valid()
      modifies backend
      ensures Valid() && (backend.State(), outcome) == Apply(old(backend.State()), Action.Unarchive(p))
    {
      StepKeepsInv(backend.State(), Action.Unarchive(p));
      var admin := Get(p, false);
      if admin.None? {
        return NotFound;
      }
      backend.accounts := backend.accounts[p := admin.value.(archivedAt := None)];
      outcome := Done;
    }

    method Delete(p: Principal, actor: Option<Principal>) returns (outcome: Outcome)
      requires Valid()
      modifies backend, backend.tokens
      ensures Valid() && (backend.State(), outcome) == Apply(old(backend.State()), Action.Delete(p, actor))
    {
      StepKeepsInv(backend.State(), Action.Delete(p, actor));
      var admin := Get(p, false);
      if admin.None? {
        return NotFound;
      }
      var verdict := Guard(admin.value, p, actor);
      if verdict != Done {
        return verdict;
      }
      backend.accounts := backend.accounts[p := admin.value.(deletedAt := Some(backend.clock))];
      var _ := backend.tokens.RevokeAllForPrincipal(p, backend.clock);
      backend.tokens.Commit();
      outcome := Done;
    }

    method Restore(p: Principal) returns (outcome: Outcome)
      requires Valid()
      modifies backend
      ensures Valid() && (backend.State(), outcome) == Apply(old(backend.State()), Action.Restore(p))
    {
      StepKeepsInv(backend.State(), Action.Restore(p));
      var admin := Get(p, true);
      if admin.None? {
        return NotFound;
      }
      if admin.value.deletedAt.None? {
        assert backend.accounts[p := admin.value.(deletedAt := None)] == backend.accounts;
        return Done;
      }
      backend.accounts := backend.accounts[p := admin.value.(deletedAt := None)];
      outcome := Done;
    }

    /** The token half of `change_password`: both password checks have passed. */
    method ChangePassword(p: Principal) returns (outcome: Outcome)
      requires Valid()
      modifies backend.tokens
      ensures Valid() && (backend.State(), outcome) == Apply(old(backend.State()), Action.ChangePassword(p))
    {
      StepKeepsInv(backend.State(), Action.ChangePassword(p));
      var admin := Get(p, false);
      if admin.None? {
        return NotFound;
      }
      var _ := backend.tokens.RevokeAllForPrincipal(p, backend.clock);
      backend.tokens.Commit();
      outcome := Done;
    }
  }
}
