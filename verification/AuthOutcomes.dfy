/**
  What each request comes to, in the terms of rows, accounts and instants: whom a login, a
  refresh or a logout serves, what it writes, and when
  (app/services/service_auth.py, app/services/service_admin.py).
*/
module AuthOutcomes {
  import opened Wrappers
  import opened TokenTable
  import opened AuthProtocol
  import opened AuthTheorems

  /** A user switched off, or an admin archived or deleted. */
  predicate Disabled(a: Account) {
    match a
    case UserAccount(isActive) => !isActive
    case AdminAccount(_, _, archivedAt, deletedAt) => archivedAt.Some? || deletedAt.Some?
  }

  predicate Enabled(s: Auth, p: Principal) {
    p in s.accounts && !Disabled(s.accounts[p])
  }

  /** A token that earns a new one at instant `at`. */
  predicate Usable(s: Auth, token: nat, at: Time) {
    && token in s.rows && s.rows[token].revokedAt == None && at < s.rows[token].expires
    && Enabled(s, s.rows[token].principal)
  }

  // ------------------------------------------------------------------ requests with nothing in between

  /** A refresh succeeds exactly for a usable token.  It then revokes it at the instant the
      request began, adds one successor with a full lifetime, and changes nothing else. */
  lemma RefreshInOneGo(s: Auth, q: nat, token: nat, started: Time)
    requires Reachable(s) && q !in s.refreshes && started <= s.clock
    ensures var (s1, read) := Apply(s, RefreshRead(q, token, started));
            var (s2, written) := Apply(s1, RefreshWrite(q));
            && (written == Done <==> Usable(s, token, started))
            && (read == if Usable(s, token, started) then Proceed else Unauthorized)
            && (Usable(s, token, started) ==>
                  var row := s.rows[token];
                  var spent := row.(revokedAt := Some(started), replacedBy := Some(s.nextId));
                  var next := Row(row.principal, row.family, s.clock + s.lifetime, None, None);
                  && s2.rows == s.rows[token := spent][s.nextId := next]
                  && s2.accounts == s.accounts && s2.refreshes == s.refreshes && s.nextId !in s.rows)
  {
    ReachableInv(s);
    assert s.nextId in s.rows ==> RowMatches(s, s.nextId);
    var s1 := Apply(s, RefreshRead(q, token, started)).0;
    if Usable(s, token, started) {
      assert s1.refreshes - {q} == s.refreshes;
      assert token != s.nextId;
    }
  }

  /** The one session a login opens is live until its token expires. */
  lemma NewSessionIsLive(s: Auth, p: Principal, f: Family, now: Time)
    requires Inv(s) && f !in s.issued
    ensures HasLiveTokensInFamily(Issued(s, p, f).rows, f, now) <==> now < s.clock + s.lifetime
  {
    var t := Issued(s, p, f);
    assert t.rows[s.nextId] == Row(p, f, s.clock + s.lifetime, None, None);
    forall i | i in t.rows && t.rows[i].family == f
      ensures i == s.nextId
    {
      assert i in s.rows ==> RowMatches(s, i);
    }
  }

  /** A login succeeds exactly for an enabled account.  It opens one new session with one token;
      an admin's connections of it are valid until the token expires, and not after. */
  lemma LoginInOneGo(s: Auth, q: nat, p: Principal, f: Family)
    requires Reachable(s) && q !in s.logins && f !in s.issued
    ensures var (s1, read) := Apply(s, LoginRead(q, p));
            var (s2, written) := Apply(s1, LoginWrite(q, f));
            && (read == if Enabled(s, p) then Proceed else Unauthorized)
            && (!Enabled(s, p) ==> s1 == s && written == Skipped)
            && (Enabled(s, p) ==>
                  && written == Done && s2.accounts == s.accounts && s2.logins == s.logins
                  && s2.rows == s.rows[s.nextId := Row(p, f, s.clock + s.lifetime, None, None)]
                  && (p, f) in s2.minted && s2.issued == s.issued[f := p]
                  && (s.accounts[p].AdminAccount? ==> forall now ::
                        IsConnectionValid(s2, p, Some(f), now) <==> now < s.clock + s.lifetime))
  {
    ReachableInv(s);
    var s1 := Apply(s, LoginRead(q, p)).0;
    if Enabled(s, p) {
      assert s1.logins - {q} == s.logins;
      var s2 := Apply(s1, LoginWrite(q, f)).0;
      assert s2 == Issued(s, p, f);
      forall now
        ensures HasLiveTokensInFamily(s2.rows, f, now) <==> now < s.clock + s.lifetime
      {
        NewSessionIsLive(s, p, f, now);
      }
    }
  }

  /** A logout of a live token revokes that one row, now, and so ends the session; an unknown
      or revoked token changes nothing and is not told apart. */
  lemma LogoutInOneGo(s: Auth, q: nat, token: nat)
    requires Reachable(s) && q !in s.logouts
    ensures var (s1, read) := Apply(s, LogoutRead(q, token));
            var (s2, written) := Apply(s1, LogoutWrite(q));
            if token in s.rows && s.rows[token].revokedAt == None
            then && written == Done && Dead(s2.rows, s.rows[token].family)
                 && s2 == s.(rows := s.rows[token := s.rows[token].(revokedAt := Some(s.clock))])
            else read == Done && s1 == s
  {
    ReachableInv(s);
    var s1 := Apply(s, LogoutRead(q, token)).0;
    if Consumable(s.rows, token) {
      assert s1.logouts - {q} == s.logouts;
      UnrevokedIsNewest(s.rows, token);
    }
  }

  /** A new account is enabled and has one session. */
  lemma RegisterInOneGo(s: Auth, p: Principal, f: Family)
    requires p !in s.accounts && f !in s.issued
    ensures var (t, outcome) := Apply(s, Register(p, f));
            && outcome == Done && Enabled(t, p)
            && t.rows == s.rows[s.nextId := Row(p, f, s.clock + s.lifetime, None, None)]
  {
  }

  // ------------------------------------------------------------------ reuse, from the requests' own instants

  /** A rotated token comes back: later than the grace window after the instant at which the
      rotating request began, its family dies; sooner, nothing changes. */
  lemma RotatedTokenComesBack(s: Auth, q: nat, again: nat, wait: nat)
    requires Reachable(s) && q in s.refreshes && Consumable(s.rows, s.refreshes[q].token)
    requires again !in s.refreshes
    ensures var r := s.refreshes[q];
            var s1 := Apply(s, RefreshWrite(q)).0;
            var s2 := Apply(s1, Tick(wait)).0;
            var (s3, outcome) := Apply(s2, RefreshRead(again, r.token, s2.clock));
            && outcome == Unauthorized
            && if s2.clock - r.started > s.grace then Dead(s3.rows, r.family) else s3 == s2
  {
    ReachableInv(s);
    assert PendingMatches(s, s.refreshes[q]);
    assert RowMatches(s, s.refreshes[q].token);
  }

  /** The request remembers the instant at which it began. */
  lemma PendingRemembersItsStart(s: Auth, q: nat, token: nat, started: Time)
    requires q !in s.refreshes && Apply(s, RefreshRead(q, token, started)).1 == Proceed
    ensures var t := Apply(s, RefreshRead(q, token, started)).0;
            q in t.refreshes && t.refreshes[q].started == started && t.refreshes[q].token == token
  {
  }

  // ------------------------------------------------------------------ stamps

  /** The instant a step writes into `revoked_at`. */
  function InstantOf(s: Auth, a: Action): Time {
    if a.RefreshRead? then a.started
    else if a.RefreshWrite? && a.request in s.refreshes then s.refreshes[a.request].started
    else s.clock
  }

  predicate StampOk(s: Auth, a: Action, before: Option<Time>, after: Option<Time>) {
    || after == before
    || (before == None && after == Some(InstantOf(s, a)))
    || (a.LogoutWrite? && after == Some(s.clock))
  }

  lemma OtherStepsStampNothing(s: Auth, a: Action, i: nat)
    requires i in s.rows && i in Apply(s, a).0.rows
    requires !a.RefreshRead? && !a.RefreshWrite? && !a.LogoutWrite? && !RevokesAll(s, a)
    requires i < s.nextId
    ensures Apply(s, a).0.rows[i].revokedAt == s.rows[i].revokedAt
  {
  }

  lemma RotationStamps(s: Auth, q: nat, i: nat)
    requires i in s.rows && i < s.nextId
    ensures i in RefreshWriteStep(s, q).0.rows
    ensures StampOk(s, RefreshWrite(q), s.rows[i].revokedAt, RefreshWriteStep(s, q).0.rows[i].revokedAt)
  {
  }

  /** In every reachable state each step stamps a row it revokes with its own instant, and only
      a logout's write ever moves a stamp. */
  lemma StampsAreInstants(s: Auth, a: Action, i: nat)
    requires Reachable(s) && i in s.rows && i in Apply(s, a).0.rows
    ensures StampOk(s, a, s.rows[i].revokedAt, Apply(s, a).0.rows[i].revokedAt)
  {
    ReachableInv(s);
    assert RowMatches(s, i);
    if RevokesAll(s, a) {
      RevokedRows(s, a);
    } else if a.RefreshWrite? {
      RotationStamps(s, a.request, i);
    } else if !a.RefreshRead? && !a.LogoutWrite? {
      OtherStepsStampNothing(s, a, i);
    }
  }

  /** Revoking everything of a principal revokes exactly that, now. */
  lemma RevocationIsExact(s: Auth, a: Action, i: nat)
    requires RevokesAll(s, a) && i in s.rows
    ensures i in Apply(s, a).0.rows
    ensures Apply(s, a).0.rows[i] ==
              if s.rows[i].principal == a.principal && s.rows[i].revokedAt == None
              then s.rows[i].(revokedAt := Some(s.clock)) else s.rows[i]
  {
    RevokedRows(s, a);
  }

  /** A reuse beyond the grace window revokes exactly the family, at the request's instant. */
  lemma ReuseIsExact(s: Auth, q: nat, token: nat, started: Time, i: nat)
    requires q !in s.refreshes && started <= s.clock && token in s.rows && i in s.rows
    requires s.rows[token].revokedAt.Some? && started - s.rows[token].revokedAt.value > s.grace
    ensures var t := Apply(s, RefreshRead(q, token, started)).0;
            && i in t.rows && t.accounts == s.accounts && t.refreshes == s.refreshes
            && t.rows[i] ==
                 if s.rows[i].family == s.rows[token].family && s.rows[i].revokedAt == None
                 then s.rows[i].(revokedAt := Some(started)) else s.rows[i]
  {
  }

  // ------------------------------------------------------------------ disabled accounts

  /** A disabled account passes no check, with whatever token. */
  lemma DisabledPassesNoCheck(s: Auth, q: nat, token: nat, started: Time)
    requires token in s.rows && s.rows[token].principal in s.accounts
    requires Disabled(s.accounts[s.rows[token].principal])
    ensures Apply(s, RefreshRead(q, token, started)).0.refreshes == s.refreshes
    ensures Apply(s, RefreshRead(q, token, started)).1 != Proceed
    ensures Apply(s, LoginRead(q, s.rows[token].principal)).0 == s
  {
  }

  /** A request of `p` has passed its check and will write. */
  predicate PassInFlight(s: Auth, p: Principal) {
    || LoginPending(s, p)
    || exists q :: q in s.refreshes && s.refreshes[q].principal == p && Consumable(s.rows, s.refreshes[q].token)
  }

  predicate DisabledThroughout(s: Auth, actions: seq<Action>, p: Principal)
    decreases |actions|
  {
    && p in s.accounts && Disabled(s.accounts[p])
    && (actions != [] ==> DisabledThroughout(Apply(s, actions[0]).0, actions[1..], p))
  }

  /** A row of `p` with a number from `first` on. */
  predicate HasRowFrom(s: Auth, p: Principal, first: nat) {
    exists i :: i in s.rows && s.rows[i].principal == p && i >= first
  }

  lemma NewRowNeedsPass(s: Auth, a: Action, i: nat)
    requires Inv(s) && i in Apply(s, a).0.rows && i !in s.rows
    ensures var p := Apply(s, a).0.rows[i].principal; p !in s.accounts || PassInFlight(s, p)
  {
    if !a.RefreshWrite? && !a.Register? && !a.LoginWrite? {
      OtherStepsAddNoRow(s, a);
    }
  }

  lemma ReadsStartOnePrincipal(s: Auth, q: nat, token: nat, started: Time, r: nat)
    requires r in RefreshReadStep(s, q, token, started).0.refreshes && r !in s.refreshes
    ensures Enabled(s, RefreshReadStep(s, q, token, started).0.refreshes[r].principal)
  {
  }

  lemma ReadsLeaveOthers(s: Auth, q: nat, token: nat, started: Time, r: nat)
    requires r in s.refreshes
    ensures r in RefreshReadStep(s, q, token, started).0.refreshes
    ensures RefreshReadStep(s, q, token, started).0.refreshes[r] == s.refreshes[r]
  {
  }

  lemma LoginsNeedCheck(s: Auth, a: Action, p: Principal)
    requires p in s.accounts && Disabled(s.accounts[p]) && !LoginPending(s, p)
    ensures !LoginPending(Apply(s, a).0, p)
  {
    if !a.LoginRead? {
      OnlyReadsStartLogins(s, a);
    }
  }

  lemma NoPassStep(s: Auth, a: Action, p: Principal)
    requires Inv(s) && p in s.accounts && Disabled(s.accounts[p]) && !PassInFlight(s, p)
    ensures !PassInFlight(Apply(s, a).0, p)
  {
    var t := Apply(s, a).0;
    StepKeepsInv(s, a);
    LoginsNeedCheck(s, a, p);
    forall q | q in t.refreshes && t.refreshes[q].principal == p
      ensures !Consumable(t.rows, t.refreshes[q].token)
    {
      if a.RefreshRead? {
        if q in s.refreshes {
          ReadsLeaveOthers(s, a.request, a.token, a.started, q);
        } else {
          ReadsStartOnePrincipal(s, a.request, a.token, a.started, q);
        }
      } else {
        OnlyReadsStartRefreshes(s, a);
      }
      assert PendingMatches(s, s.refreshes[q]);
      assert t.refreshes[q].token in t.rows ==> RowEvolves(s, t, t.refreshes[q].token);
    }
  }

  lemma NoRowStep(s: Auth, a: Action, p: Principal, first: nat)
    requires Inv(s) && p in s.accounts && !PassInFlight(s, p) && !HasRowFrom(s, p, first)
    ensures !HasRowFrom(Apply(s, a).0, p, first)
  {
    var t := Apply(s, a).0;
    StepKeepsInv(s, a);
    forall i | i in t.rows && t.rows[i].principal == p
      ensures i < first
    {
      if i in s.rows {
        assert RowMatches(s, i) && RowEvolves(s, t, i);
      } else {
        NewRowNeedsPass(s, a, i);
      }
    }
  }

  lemma {:induction false} NoPassNoRow(s: Auth, actions: seq<Action>, p: Principal, first: nat)
    requires Inv(s) && DisabledThroughout(s, actions, p) && !PassInFlight(s, p) && !HasRowFrom(s, p, first)
    ensures !HasRowFrom(Run(s, actions), p, first)
    decreases |actions|
  {
    if actions != [] {
      StepKeepsInv(s, actions[0]);
      NoPassStep(s, actions[0], p);
      NoRowStep(s, actions[0], p, first);
      NoPassNoRow(Apply(s, actions[0]).0, actions[1..], p, first);
    }
  }

  lemma OneStepRun(s: Auth, a: Action, p: Principal)
    requires p in s.accounts && Disabled(s.accounts[p]) && Apply(s, a).0.accounts == s.accounts
    ensures Run(s, [a]) == Apply(s, a).0 && DisabledThroughout(s, [a], p)
  {
    assert [a][1..] == [];
    assert Run(Apply(s, a).0, []) == Apply(s, a).0 && DisabledThroughout(Apply(s, a).0, [], p);
  }

  lemma PassWritesRow(s: Auth, p: Principal) returns (a: Action)
    requires Inv(s) && PassInFlight(s, p)
    ensures Apply(s, a).0.accounts == s.accounts && HasRowFrom(Apply(s, a).0, p, s.nextId)
  {
    if q :| q in s.logins && s.logins[q] == p {
      var f := NewFamily(s.issued.Keys);
      a := LoginWrite(q, f);
      assert Apply(s, a) == LoginWriteStep(s, q, f);
      var t := LoginWriteStep(s, q, f).0;
      assert s.nextId in t.rows && t.rows[s.nextId].principal == p;
    } else {
      var q :| q in s.refreshes && s.refreshes[q].principal == p && Consumable(s.rows, s.refreshes[q].token);
      a := RefreshWrite(q);
      assert Apply(s, a) == RefreshWriteStep(s, q);
      var t := RefreshWriteStep(s, q).0;
      assert s.nextId in t.rows && t.rows[s.nextId].principal == p;
    }
  }

  /** Over a run in which `p` stays disabled, it gains a token. */
  predicate GainsToken(s: Auth, later: seq<Action>, p: Principal) {
    DisabledThroughout(s, later, p) && HasRowFrom(Run(s, later), p, s.nextId)
  }

  /** While an account stays disabled, user or admin, it can gain a token if and only if a login
      of it, or a refresh of it with an unspent token, had passed its check before. */
  lemma DisabledGainsTokenIff(s: Auth, p: Principal)
    requires Inv(s) && p in s.accounts && Disabled(s.accounts[p])
    ensures (exists later: seq<Action> :: GainsToken(s, later, p)) <==> PassInFlight(s, p)
  {
    if PassInFlight(s, p) {
      var a := PassWritesRow(s, p);
      OneStepRun(s, a, p);
      assert GainsToken(s, [a], p);
    } else {
      forall i | i in s.rows
        ensures i < s.nextId
      {
        assert RowMatches(s, i);
      }
      forall later: seq<Action> | DisabledThroughout(s, later, p)
        ensures !GainsToken(s, later, p)
      {
        NoPassNoRow(s, later, p, s.nextId);
      }
    }
  }

  // ------------------------------------------------------------------ the admin lifecycle

  /** The admin is there for ordinary requests. */
  predicate Present(s: Auth, p: Principal) {
    p in s.accounts && s.accounts[p].AdminAccount? && s.accounts[p].deletedAt == None
  }

  /** What the guards answer for an admin about to be archived or deleted. */
  predicate GuardAnswers(a: Account, p: Principal, actor: Option<Principal>, outcome: Outcome)
    requires a.AdminAccount?
  {
    && (outcome == Forbidden <==> a.isProtected && actor.Some? && actor.value != p)
    && (outcome == Done <==> !a.isProtected && a.role != 100 && actor != Some(p))
    && (outcome == Forbidden || outcome == Done || outcome == BusinessRule)
  }

  lemma ArchiveOutcome(s: Auth, p: Principal, actor: Option<Principal>)
    ensures var (t, outcome) := Apply(s, Archive(p, actor));
            && (outcome == NotFound <==> !Present(s, p))
            && (Present(s, p) && s.accounts[p].archivedAt.Some? ==> t == s && outcome == Done)
            && (Present(s, p) && s.accounts[p].archivedAt == None ==> GuardAnswers(s.accounts[p], p, actor, outcome))
            && (outcome != Done ==> t == s)
            && (outcome == Done && s.accounts[p].archivedAt == None ==>
                  t.accounts == s.accounts[p := s.accounts[p].(archivedAt := Some(s.clock))])
  {
  }

  lemma DeleteOutcome(s: Auth, p: Principal, actor: Option<Principal>)
    ensures var (t, outcome) := Apply(s, Delete(p, actor));
            && (outcome == NotFound <==> !Present(s, p))
            && (Present(s, p) ==> GuardAnswers(s.accounts[p], p, actor, outcome))
            && (outcome != Done ==> t == s)
            && (outcome == Done ==> t.accounts == s.accounts[p := s.accounts[p].(deletedAt := Some(s.clock))])
  {
  }

  /** Unarchive undoes an archive: the accounts are as before, and no token comes back. */
  lemma ArchiveRoundTrip(s: Auth, p: Principal, actor: Option<Principal>)
    requires Deactivates(s, Archive(p, actor))
    ensures var t := Apply(s, Archive(p, actor)).0;
            var (u, outcome) := Apply(t, Unarchive(p));
            outcome == Done && u.accounts == s.accounts && u.rows == t.rows && !OwnsToken(t, p)
  {
    RevokedRows(s, Archive(p, actor));
  }

  /** Restore undoes a delete in the same way. */
  lemma DeleteRoundTrip(s: Auth, p: Principal, actor: Option<Principal>)
    requires Deactivates(s, Delete(p, actor))
    ensures var t := Apply(s, Delete(p, actor)).0;
            var (u, outcome) := Apply(t, Restore(p));
            outcome == Done && u.accounts == s.accounts && u.rows == t.rows && !OwnsToken(t, p)
  {
    RevokedRows(s, Delete(p, actor));
  }

  /** Changing the password works for every admin that is not deleted, and revokes all it holds. */
  lemma PasswordOutcome(s: Auth, p: Principal)
    ensures var (t, outcome) := Apply(s, ChangePassword(p));
            && (outcome == if Present(s, p) then Done else NotFound)
            && (outcome == NotFound ==> t == s)
            && (outcome == Done ==> t.accounts == s.accounts && !OwnsToken(t, p))
  {
    if Present(s, p) {
      RevokedRows(s, ChangePassword(p));
    }
  }

  /** Switching a user on or off is just that: it revokes nothing. */
  lemma SwitchOutcome(s: Auth, p: Principal, on: bool)
    requires p in s.accounts && s.accounts[p].UserAccount?
    ensures var (t, outcome) := Apply(s, SetUserActive(p, on));
            && outcome == Done && (Enabled(t, p) <==> on) && t.rows == s.rows && t.refreshes == s.refreshes
            && (forall r | r != p :: Enabled(t, r) <==> Enabled(s, r))
  {
  }

  /** Unarchive and restore find the admin exactly when it is there, restore a deleted one too;
      on others they change nothing. */
  lemma RecoveryOutcome(s: Auth, p: Principal)
    ensures var (t, outcome) := Apply(s, Unarchive(p));
            && (outcome == if Present(s, p) then Done else NotFound)
            && (outcome == NotFound ==> t == s)
    ensures var (t, outcome) := Apply(s, Restore(p));
            && (outcome == if p in s.accounts && s.accounts[p].AdminAccount? then Done else NotFound)
            && (Present(s, p) || outcome == NotFound ==> t == s)
  {
    if Present(s, p) {
      assert s.accounts[p := s.accounts[p].(deletedAt := None)] == s.accounts;
    }
  }
}
