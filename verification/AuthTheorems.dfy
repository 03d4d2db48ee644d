/**
  What the rotation protocol guarantees over every run, and exactly where it stops.
*/
module AuthTheorems {
  import opened Wrappers
  import opened TokenTable
  import opened AuthProtocol

  ghost predicate Reachable(s: Auth) {
    exists lifetime: nat, grace: nat, actions: seq<Action> :: s == Run(Init(lifetime, grace), actions)
  }

  lemma ReachableInv(s: Auth)
    requires Reachable(s)
    ensures Inv(s)
  {
    var lifetime: nat, grace: nat, actions: seq<Action> :| s == Run(Init(lifetime, grace), actions);
    RunKeepsInv(Init(lifetime, grace), actions);
  }

  // ------------------------------------------------------------------ families are chains

  /** In every reachable state a family has at most one unrevoked token, and it is the
      newest row of the family. */
  lemma AtMostOneUnrevokedToken(s: Auth, i: nat, j: nat)
    requires Reachable(s)
    requires i in s.rows && j in s.rows && s.rows[i].family == s.rows[j].family && s.rows[i].Unrevoked()
    ensures j <= i
    ensures s.rows[j].Unrevoked() ==> i == j
  {
    ReachableInv(s);
    UnrevokedIsNewest(s.rows, i);
  }

  /** In every reachable state a rotation edge goes to the very next row of the same family
      and principal, from a revoked row; a row without an edge is its family's newest. */
  lemma RotationEdgesFormALine(s: Auth, i: nat)
    requires Reachable(s) && i in s.rows
    ensures s.rows[i].replacedBy.None? ==> NewestOfFamily(s.rows, i)
    ensures s.rows[i].replacedBy.Some? ==>
              var n := s.rows[i].replacedBy.value;
              && NextInFamily(s.rows, i, n) && s.rows[n].principal == s.rows[i].principal
              && !s.rows[i].Unrevoked()
    ensures forall j | j in s.rows && j != i && s.rows[i].replacedBy.Some? ::
              s.rows[j].replacedBy != s.rows[i].replacedBy
  {
    ReachableInv(s);
    assert Linked(s.rows, i);
    forall j | j in s.rows && j != i && s.rows[i].replacedBy.Some? && s.rows[j].replacedBy == s.rows[i].replacedBy
      ensures false
    {
      SuccessorsAreDistinct(s.rows, i, j);
    }
  }

  /** One session id never names two principals, in the table or in any signed access token. */
  lemma OneSidOnePrincipal(s: Auth, f: Family, p: Principal, p': Principal)
    requires Reachable(s)
    requires (p, f) in s.minted || exists i :: i in s.rows && s.rows[i].family == f && s.rows[i].principal == p
    requires (p', f) in s.minted || exists i :: i in s.rows && s.rows[i].family == f && s.rows[i].principal == p'
    ensures f in s.issued && p == p' == s.issued[f]
  {
    ReachableInv(s);
    if i :| i in s.rows && s.rows[i].family == f && s.rows[i].principal == p {
      assert RowMatches(s, i);
    }
    if i :| i in s.rows && s.rows[i].family == f && s.rows[i].principal == p' {
      assert RowMatches(s, i);
    }
  }

  // ------------------------------------------------------------------ revocation is final

  lemma DeadStaysDeadOneStep(s: Auth, f: Family, a: Action)
    requires Inv(s) && f in s.issued && Dead(s.rows, f)
    ensures Dead(Apply(s, a).0.rows, f) && f in Apply(s, a).0.issued
  {
    StepKeepsInv(s, a);
    var t := Apply(s, a).0;
    forall i | i in t.rows && t.rows[i].family == f
      ensures !t.rows[i].Unrevoked()
    {
      assert RowEvolves(s, t, i);
    }
  }

  /** A family without an unrevoked row never has one again, whatever is in flight. */
  lemma {:induction false} DeadStaysDead(s: Auth, f: Family, later: seq<Action>)
    requires Inv(s) && f in s.issued && Dead(s.rows, f)
    ensures Dead(Run(s, later).rows, f)
    decreases |later|
  {
    if later != [] {
      DeadStaysDeadOneStep(s, f, later[0]);
      StepKeepsInv(s, later[0]);
      DeadStaysDead(Apply(s, later[0]).0, f, later[1..]);
    }
  }

  /** Presenting a revoked token: past the grace window the family is dead for ever, within
      it nothing at all changes. */
  lemma PresentingARevokedToken(s: Auth, q: nat, token: nat, started: Time, later: seq<Action>)
    requires Reachable(s) && q !in s.refreshes && started <= s.clock
    requires token in s.rows && !s.rows[token].Unrevoked()
    ensures var (t, outcome) := Apply(s, RefreshRead(q, token, started));
            && outcome == Unauthorized
            && if started - s.rows[token].revokedAt.value > s.grace
               then Dead(Run(t, later).rows, s.rows[token].family)
               else t == s
  {
    ReachableInv(s);
    var a := RefreshRead(q, token, started);
    StepKeepsInv(s, a);
    assert RowMatches(s, token);
    if started - s.rows[token].revokedAt.value > s.grace {
      DeadStaysDead(Apply(s, a).0, s.rows[token].family, later);
    }
  }

  // ------------------------------------------------------------------ expiry

  /** Every token the family has so far expires by `end`. */
  predicate AllExpireBy(s: Auth, f: Family, end: Time) {
    f in s.issued && forall i | i in s.rows && s.rows[i].family == f :: s.rows[i].expires <= end
  }

  /** A refresh of the family has passed its checks and its token is still unspent. */
  predicate RefreshPending(s: Auth, f: Family) {
    exists q :: q in s.refreshes && s.refreshes[q].family == f && Consumable(s.rows, s.refreshes[q].token)
  }

  predicate ExpiredBy(s: Auth, f: Family, end: Time) {
    AllExpireBy(s, f, end) && !RefreshPending(s, f)
  }

  /** No refresh in the list read its clock before `end`. */
  predicate StartAfter(actions: seq<Action>, end: Time) {
    forall i | 0 <= i < |actions| && actions[i].RefreshRead? :: end <= actions[i].started
  }

  lemma OnlyReadsStartRefreshes(s: Auth, a: Action)
    requires !a.RefreshRead?
    ensures forall q | q in Apply(s, a).0.refreshes :: q in s.refreshes && Apply(s, a).0.refreshes[q] == s.refreshes[q]
  {
  }

  lemma ReadsStartOneRefresh(s: Auth, q: nat, token: nat, started: Time, r: nat)
    requires r in RefreshReadStep(s, q, token, started).0.refreshes
    ensures var t := RefreshReadStep(s, q, token, started).0;
            (r in s.refreshes && t.refreshes[r] == s.refreshes[r])
            || (token in s.rows && s.rows[token].expires > started && t.refreshes[r].family == s.rows[token].family)
  {
  }

  lemma OtherStepsAddNoRow(s: Auth, a: Action)
    requires !a.RefreshWrite? && !a.Register? && !a.LoginWrite?
    ensures Apply(s, a).0.rows.Keys <= s.rows.Keys
  {
  }

  /** A new row belongs to a new family or to a refresh in flight with an unspent token. */
  lemma NewRowsFamily(s: Auth, a: Action, i: nat)
    requires i in Apply(s, a).0.rows && i !in s.rows
    ensures var f := Apply(s, a).0.rows[i].family; f !in s.issued || RefreshPending(s, f)
  {
    if !a.RefreshWrite? && !a.Register? && !a.LoginWrite? {
      OtherStepsAddNoRow(s, a);
    }
  }

  /** A pending refresh was pending before, or has just passed its checks. */
  lemma PendingStep(s: Auth, f: Family, end: Time, a: Action)
    requires Inv(s) && ExpiredBy(s, f, end) && (a.RefreshRead? ==> end <= a.started)
    ensures !RefreshPending(Apply(s, a).0, f)
  {
    var t := Apply(s, a).0;
    StepKeepsInv(s, a);
    forall q | q in t.refreshes && t.refreshes[q].family == f
      ensures !Consumable(t.rows, t.refreshes[q].token)
    {
      if a.RefreshRead? {
        ReadsStartOneRefresh(s, a.request, a.token, a.started, q);
      } else {
        OnlyReadsStartRefreshes(s, a);
      }
      var token := t.refreshes[q].token;
      assert PendingMatches(s, s.refreshes[q]);
      assert token in t.rows ==> RowEvolves(s, t, token);
    }
  }

  lemma ExpiredStep(s: Auth, f: Family, end: Time, a: Action)
    requires Inv(s) && ExpiredBy(s, f, end) && (a.RefreshRead? ==> end <= a.started)
    ensures ExpiredBy(Apply(s, a).0, f, end)
  {
    var t := Apply(s, a).0;
    StepKeepsInv(s, a);
    PendingStep(s, f, end, a);
    forall i | i in t.rows && t.rows[i].family == f
      ensures t.rows[i].expires <= end
    {
      if i in s.rows {
        assert RowMatches(s, i) && RowEvolves(s, t, i);
      } else {
        NewRowsFamily(s, a, i);
      }
    }
  }

  /** A session that was not refreshed in time is over: whatever later requests do, no
      connection of it is ever valid again. */
  lemma {:induction false} ExpiredSessionNeverRevives(
    s: Auth, f: Family, end: Time, later: seq<Action>, p: Principal, now: Time)
    requires Inv(s) && ExpiredBy(s, f, end) && StartAfter(later, end) && end <= now
    ensures !IsConnectionValid(Run(s, later), p, Some(f), now)
    ensures !HasLiveTokensInFamily(Run(s, later).rows, f, now)
    decreases |later|
  {
    if later != [] {
      ExpiredStep(s, f, end, later[0]);
      StepKeepsInv(s, later[0]);
      ExpiredSessionNeverRevives(Apply(s, later[0]).0, f, end, later[1..], p, now);
    }
  }

  /** After `later` the clock has reached `end`, the session is live, and a re-check for the
      admin `p` under this session passes. */
  predicate Revives(s: Auth, f: Family, end: Time, later: seq<Action>, p: Principal) {
    var t := Run(s, later);
    StartAfter(later, end) && end <= t.clock && IsConnectionValid(t, p, Some(f), t.clock)
  }

  /** A won rotation hands out a token that lives for a full lifetime, whatever the clock says. */
  lemma PendingWriteIsLive(s: Auth, q: nat)
    requires Inv(s) && q in s.refreshes && Consumable(s.rows, s.refreshes[q].token) && s.lifetime >= 1
    ensures var t := Apply(s, RefreshWrite(q)).0;
            && HasLiveTokensInFamily(t.rows, s.refreshes[q].family, t.clock)
            && t.clock == s.clock && t.accounts == s.accounts
  {
    var t := Apply(s, RefreshWrite(q)).0;
    assert t == RefreshWriteStep(s, q).0;
    assert s.nextId in t.rows && t.rows[s.nextId] == Row(s.refreshes[q].principal, s.refreshes[q].family,
                                                          s.clock + s.lifetime, None, None);
  }

  lemma ThreeSteps(s: Auth, a: Action, b: Action, c: Action)
    ensures Run(s, [a, b, c]) == Apply(Apply(Apply(s, a).0, b).0, c).0
  {
    var s1 := Apply(s, a).0;
    var s2 := Apply(s1, b).0;
    assert [a, b, c][1..] == [b, c] && [b, c][1..] == [c] && [c][1..] == [];
    assert Run(Apply(s2, c).0, []) == Apply(s2, c).0;
    assert Run(s2, [c]) == Apply(s2, c).0;
    assert Run(s1, [b, c]) == Run(s2, [c]);
  }

  lemma PendingRefreshRevives(s: Auth, f: Family, end: Time, q: nat) returns (later: seq<Action>, p: Principal)
    requires Inv(s) && q in s.refreshes && s.refreshes[q].family == f && Consumable(s.rows, s.refreshes[q].token)
    requires s.lifetime >= 1
    ensures Revives(s, f, end, later, p)
  {
    p := SomethingNew(s.accounts.Keys);
    var wait := if s.clock < end then end - s.clock else 0;
    var a, b, c := Tick(wait), CreateAdmin(p, 0, false), RefreshWrite(q);
    later := [a, b, c];
    var s1 := Apply(s, a).0;
    var s2 := Apply(s1, b).0;
    StepKeepsInv(s, a);
    StepKeepsInv(s1, b);
    assert s1 == s.(clock := s.clock + wait);
    assert s2 == s1.(accounts := s1.accounts[p := AdminAccount(0, false, None, None)]);
    PendingWriteIsLive(s2, q);
    ThreeSteps(s, a, b, c);
  }

  /** Once all its tokens have expired by `end`, requests that start after `end` can make the
      session valid again if and only if a refresh that passed its check before is still in
      flight and its token unspent: its write does not look at the expiry. */
  lemma ExpiredSessionRevivesIff(s: Auth, f: Family, end: Time)
    requires Inv(s) && AllExpireBy(s, f, end) && s.lifetime >= 1
    ensures (exists later: seq<Action>, p :: Revives(s, f, end, later, p)) <==> RefreshPending(s, f)
  {
    if RefreshPending(s, f) {
      var q :| q in s.refreshes && s.refreshes[q].family == f && Consumable(s.rows, s.refreshes[q].token);
      var later, p := PendingRefreshRevives(s, f, end, q);
      assert Revives(s, f, end, later, p);
    } else {
      forall later: seq<Action>, p
        ensures !Revives(s, f, end, later, p)
      {
        if StartAfter(later, end) && end <= Run(s, later).clock {
          ExpiredSessionNeverRevives(s, f, end, later, p, Run(s, later).clock);
        }
      }
    }
  }

  // ------------------------------------------------------------------ one winner

  /** How often a presentation of `token` succeeds during a run. */
  function Wins(s: Auth, token: nat, actions: seq<Action>): nat
    decreases |actions|
  {
    if actions == [] then 0
    else
      var a := actions[0];
      var won := a.RefreshWrite? && a.request in s.refreshes && s.refreshes[a.request].token == token
                 && Apply(s, a).1 == Done;
      (if won then 1 else 0) + Wins(Apply(s, a).0, token, actions[1..])
  }

  lemma {:induction false} SpentTokenNeverWins(s: Auth, token: nat, actions: seq<Action>)
    requires Inv(s) && token < s.nextId && !Consumable(s.rows, token)
    ensures Wins(s, token, actions) == 0
    decreases |actions|
  {
    if actions != [] {
      var t := Apply(s, actions[0]).0;
      StepKeepsInv(s, actions[0]);
      assert token in t.rows ==> RowEvolves(s, t, token);
      SpentTokenNeverWins(t, token, actions[1..]);
    }
  }

  /** However many requests present the same token, in whatever order they read and write,
      at most one of them ever succeeds. */
  lemma {:induction false} AtMostOneWinner(s: Auth, token: nat, actions: seq<Action>)
    requires Inv(s)
    ensures Wins(s, token, actions) <= 1
    decreases |actions|
  {
    if actions != [] {
      var a := actions[0];
      var t := Apply(s, a).0;
      StepKeepsInv(s, a);
      if a.RefreshWrite? && a.request in s.refreshes && s.refreshes[a.request].token == token && Apply(s, a).1 == Done {
        assert PendingMatches(s, s.refreshes[a.request]);
        SpentTokenNeverWins(t, token, actions[1..]);
      } else {
        AtMostOneWinner(t, token, actions[1..]);
      }
    }
  }

  /** A write wins exactly when its token is still unrevoked, and a loser leaves tokens,
      accounts and signed access tokens as if it had never inserted anything. */
  lemma WinnerAndLoser(s: Auth, q: nat)
    requires Reachable(s) && q in s.refreshes
    ensures var token := s.refreshes[q].token;
            var (t, outcome) := Apply(s, RefreshWrite(q));
            if Consumable(s.rows, token)
            then && outcome == Done
                 && t.rows.Keys == s.rows.Keys + {s.nextId}
                 && t.rows[token].replacedBy == Some(s.nextId) && !t.rows[token].Unrevoked()
                 && t.rows[s.nextId].Unrevoked()
                 && t.rows[s.nextId].family == s.rows[token].family
                 && t.rows[s.nextId].principal == s.rows[token].principal
                 && (forall i | i in s.rows && i != token :: t.rows[i] == s.rows[i])
            else outcome == Unauthorized && t.rows == s.rows && t.accounts == s.accounts && t.minted == s.minted
  {
    ReachableInv(s);
    assert PendingMatches(s, s.refreshes[q]);
    forall i | i in s.rows
      ensures i != s.nextId
    {
      assert RowMatches(s, i);
    }
  }

  // ------------------------------------------------------------------ logout

  /** The unguarded write of a logout ends the session exactly when the row it stamps is
      still unrevoked at that moment (or the session had ended before).  When the row has been
      purged since the read, the write fails and changes no row. */
  lemma LogoutEndsSessionIff(s: Auth, q: nat)
    requires Reachable(s) && q in s.logouts
    ensures var token := s.logouts[q];
            var (t, outcome) := Apply(s, LogoutWrite(q));
            if token in s.rows
            then Dead(t.rows, s.rows[token].family) <==> Consumable(s.rows, token) || Dead(s.rows, s.rows[token].family)
            else outcome == StaleRow && t.rows == s.rows
  {
    ReachableInv(s);
    var token := s.logouts[q];
    var t := Apply(s, LogoutWrite(q)).0;
    if Consumable(s.rows, token) {
      UnrevokedIsNewest(s.rows, token);
    } else if token in s.rows && !Dead(s.rows, s.rows[token].family) {
      var i :| i in s.rows && s.rows[i].family == s.rows[token].family && s.rows[i].Unrevoked();
      assert i in t.rows && t.rows[i].family == s.rows[token].family && t.rows[i].Unrevoked();
    }
  }

  /** One revoked row is enough: no connection of that session is ever valid again. */
  lemma LoggedOutSessionNeverValid(s: Auth, q: nat, later: seq<Action>, p: Principal, now: Time)
    requires Reachable(s) && q in s.logouts && Consumable(s.rows, s.logouts[q])
    ensures !IsConnectionValid(Run(Apply(s, LogoutWrite(q)).0, later), p, Some(s.rows[s.logouts[q]].family), now)
  {
    LogoutEndsSessionIff(s, q);
    ReachableInv(s);
    assert RowMatches(s, s.logouts[q]);
    StepKeepsInv(s, LogoutWrite(q));
    DeadStaysDead(Apply(s, LogoutWrite(q)).0, s.rows[s.logouts[q]].family, later);
  }

  function Then(s: Auth, a: Action): Auth {
    Apply(s, a).0
  }

  /** An admin with one session `f` whose token is row 0. */
  function OneSession(lifetime: nat, grace: nat): Auth {
    Then(Then(Then(Init(lifetime, grace), CreateAdmin(1, 0, false)), LoginRead(0, 1)), LoginWrite(0, "f"))
  }

  lemma OneSessionIs(lifetime: nat, grace: nat)
    ensures OneSession(lifetime, grace)
         == Auth(lifetime, grace, 0, map[0 := Row(1, "f", lifetime, None, None)], 1,
                 map[1 := AdminAccount(0, false, None, None)], map["f" := 1], {(1, "f")}, map[], map[], map[])
  {
    var s2 := Then(Then(Init(lifetime, grace), CreateAdmin(1, 0, false)), LoginRead(0, 1));
    assert s2.logins == map[0 := 1];
    assert s2.logins - {0} == map[];
  }

  /** A refresh passes its check in time and writes when the session has expired: not valid
      before the write, valid after it. */
  lemma LateRefreshRace(lifetime: nat, grace: nat)
    requires lifetime > 0
    ensures var s := Then(Then(OneSession(lifetime, grace), RefreshRead(1, 0, 0)), Tick(lifetime));
            && AllExpireBy(s, "f", s.clock) && !IsConnectionValid(s, 1, Some("f"), s.clock)
            && IsConnectionValid(Then(s, RefreshWrite(1)), 1, Some("f"), s.clock)
  {
    OneSessionIs(lifetime, grace);
    var s0 := OneSession(lifetime, grace);
    var s1 := Then(s0, RefreshRead(1, 0, 0));
    assert s1 == s0.(refreshes := map[1 := PendingRefresh(0, 1, "f", 0)]);
    var s2 := Then(s1, Tick(lifetime));
    assert s2 == s1.(clock := lifetime);
    var s3 := Then(s2, RefreshWrite(1));
    assert 1 in s3.rows && s3.rows[1] == Row(1, "f", lifetime + lifetime, None, None);
  }

  /** A rotation between the read and the write of a logout keeps the session alive. */
  lemma LogoutRace(lifetime: nat, grace: nat)
    requires lifetime > 0
    ensures var s := Then(Then(Then(Then(OneSession(lifetime, grace),
                       RefreshRead(1, 0, 0)), LogoutRead(2, 0)), RefreshWrite(1)), LogoutWrite(2));
            s.logouts == map[] && IsConnectionValid(s, 1, Some("f"), s.clock)
  {
    OneSessionIs(lifetime, grace);
    var s3 := OneSession(lifetime, grace);
    var s4 := Then(s3, RefreshRead(1, 0, 0));
    assert s4 == s3.(refreshes := map[1 := PendingRefresh(0, 1, "f", 0)]);
    var s5 := Then(s4, LogoutRead(2, 0));
    assert s5 == s4.(logouts := map[2 := 0]);
    var s6 := Then(s5, RefreshWrite(1));
    assert s6.rows[1] == Row(1, "f", lifetime, None, None) && s6.logouts == s5.logouts;
    var s7 := Then(s6, LogoutWrite(2));
    assert 1 in s7.rows && s7.rows[1].Unrevoked() && s7.rows[1].family == "f" && s7.rows[1].expires > 0;
  }

  // ------------------------------------------------------------------ archive and delete

  predicate InactiveAdmin(s: Auth, p: Principal) {
    p in s.accounts && s.accounts[p].AdminAccount? && !s.accounts[p].Active()
  }

  /** No archived or soft-deleted admin owns an unrevoked token. */
  predicate InactiveAdminsOwnNothing(s: Auth) {
    forall i | i in s.rows && s.rows[i].Unrevoked() :: !InactiveAdmin(s, s.rows[i].principal)
  }

  /** A login that inserts its token for an admin archived or deleted since its check. */
  predicate LateLogin(s: Auth, a: Action) {
    a.LoginWrite? && a.request in s.logins && a.family !in s.issued && InactiveAdmin(s, s.logins[a.request])
  }

  lemma AccountStepsAndInactiveAdmins(s: Auth, a: Action)
    requires Inv(s) && InactiveAdminsOwnNothing(s)
    requires a.CreateAdmin? || a.SetUserActive? || a.SetRole? || a.Archive? || a.Unarchive? || a.Delete? || a.Restore?
    ensures InactiveAdminsOwnNothing(Apply(s, a).0)
  {
  }

  lemma RefreshWriteAndInactiveAdmins(s: Auth, q: nat)
    requires Inv(s) && InactiveAdminsOwnNothing(s)
    ensures InactiveAdminsOwnNothing(RefreshWriteStep(s, q).0)
  {
  }

  lemma LoginWriteAndInactiveAdmins(s: Auth, q: nat, f: Family)
    requires Inv(s) && InactiveAdminsOwnNothing(s)
    ensures InactiveAdminsOwnNothing(LoginWriteStep(s, q, f).0) <==> !LateLogin(s, LoginWrite(q, f))
  {
    var t := LoginWriteStep(s, q, f).0;
    if LateLogin(s, LoginWrite(q, f)) {
      assert s.nextId in t.rows && t.rows[s.nextId].Unrevoked() && InactiveAdmin(t, t.rows[s.nextId].principal);
    }
  }

  /** The rest leaves the accounts alone, or adds an active one, and un-revokes nothing. */
  lemma OtherStepsAndInactiveAdmins(s: Auth, a: Action)
    requires Inv(s) && InactiveAdminsOwnNothing(s) && (!TouchesAccount(a) || a.Register?)
    requires !a.RefreshWrite? && !a.LoginWrite?
    ensures InactiveAdminsOwnNothing(Apply(s, a).0)
  {
  }

  /** One step: the guarantee survives exactly when the step is not a late login. */
  lemma InactiveAdminsStep(s: Auth, a: Action)
    requires Inv(s) && InactiveAdminsOwnNothing(s)
    ensures InactiveAdminsOwnNothing(Apply(s, a).0) <==> !LateLogin(s, a)
  {
    match a
    case RefreshWrite(q) => RefreshWriteAndInactiveAdmins(s, q);
    case LoginWrite(q, f) => LoginWriteAndInactiveAdmins(s, q, f);
    case CreateAdmin(_, _, _) => AccountStepsAndInactiveAdmins(s, a);
    case SetUserActive(_, _) => AccountStepsAndInactiveAdmins(s, a);
    case SetRole(_, _) => AccountStepsAndInactiveAdmins(s, a);
    case Archive(_, _) => AccountStepsAndInactiveAdmins(s, a);
    case Unarchive(_) => AccountStepsAndInactiveAdmins(s, a);
    case Delete(_, _) => AccountStepsAndInactiveAdmins(s, a);
    case Restore(_) => AccountStepsAndInactiveAdmins(s, a);
    case _ => OtherStepsAndInactiveAdmins(s, a);
  }

  /** The guarantee holds in every state a run goes through. */
  predicate AlwaysOwnNothing(s: Auth, actions: seq<Action>)
    decreases |actions|
  {
    && InactiveAdminsOwnNothing(s)
    && (actions != [] ==> AlwaysOwnNothing(Apply(s, actions[0]).0, actions[1..]))
  }

  predicate NoLateLogin(s: Auth, actions: seq<Action>)
    decreases |actions|
  {
    actions != [] ==> !LateLogin(s, actions[0]) && NoLateLogin(Apply(s, actions[0]).0, actions[1..])
  }

  /** Over a whole run, refreshes in flight included: no archived or deleted admin ever owns
      an unrevoked token if and only if every login writes while its admin is active. */
  lemma {:induction false} InactiveAdminsOwnNothingIff(s: Auth, actions: seq<Action>)
    requires Inv(s) && InactiveAdminsOwnNothing(s)
    ensures AlwaysOwnNothing(s, actions) <==> NoLateLogin(s, actions)
    decreases |actions|
  {
    if actions != [] {
      InactiveAdminsStep(s, actions[0]);
      StepKeepsInv(s, actions[0]);
      if !LateLogin(s, actions[0]) {
        InactiveAdminsOwnNothingIff(Apply(s, actions[0]).0, actions[1..]);
      }
    }
  }

  /** Every login's write follows its own check with nothing in between. */
  predicate AtomicLogins(s: Auth, actions: seq<Action>)
    decreases |actions|
  {
    if actions == [] then true
    else if actions[0].LoginRead? then
      && |actions| > 1 && actions[1].LoginWrite?
      && actions[1].request == actions[0].request && actions[1].family !in s.issued
      && AtomicLogins(Apply(Apply(s, actions[0]).0, actions[1]).0, actions[2..])
    else !actions[0].LoginWrite? && AtomicLogins(Apply(s, actions[0]).0, actions[1..])
  }

  lemma AtomicLoginIsNeverLate(s: Auth, q: nat, p: Principal, f: Family)
    requires Inv(s) && s.logins == map[] && InactiveAdminsOwnNothing(s) && f !in s.issued
    ensures var s1 := Apply(s, LoginRead(q, p)).0;
            var s2 := Apply(s1, LoginWrite(q, f)).0;
            && Inv(s2) && s2.logins == map[] && InactiveAdminsOwnNothing(s1) && InactiveAdminsOwnNothing(s2)
  {
    var s1 := Apply(s, LoginRead(q, p)).0;
    StepKeepsInv(s, LoginRead(q, p));
    StepKeepsInv(s1, LoginWrite(q, f));
    InactiveAdminsStep(s, LoginRead(q, p));
    InactiveAdminsStep(s1, LoginWrite(q, f));
    assert s1.logins - {q} == map[];
  }

  lemma OtherStepsKeepLoginsEmpty(s: Auth, a: Action)
    requires s.logins == map[] && !a.LoginRead?
    ensures Apply(s, a).0.logins == map[]
  {
  }

  /** When logins are atomic the guarantee is unconditional. */
  lemma {:induction false} AtomicLoginsSuffice(s: Auth, actions: seq<Action>)
    requires Inv(s) && s.logins == map[] && InactiveAdminsOwnNothing(s) && AtomicLogins(s, actions)
    ensures AlwaysOwnNothing(s, actions)
    decreases |actions|
  {
    if actions == [] {
    } else if actions[0].LoginRead? {
      var s1 := Apply(s, actions[0]).0;
      var s2 := Apply(s1, actions[1]).0;
      AtomicLoginIsNeverLate(s, actions[0].request, actions[0].principal, actions[1].family);
      AtomicLoginsSuffice(s2, actions[2..]);
      assert actions[1..][1..] == actions[2..] && actions[1..][0] == actions[1];
    } else {
      OtherStepsKeepLoginsEmpty(s, actions[0]);
      InactiveAdminsStep(s, actions[0]);
      StepKeepsInv(s, actions[0]);
      AtomicLoginsSuffice(Apply(s, actions[0]).0, actions[1..]);
    }
  }

  /** A login has checked its admin, who is then archived. */
  function ArchivedMeanwhile(lifetime: nat, grace: nat): Auth {
    Then(Then(Then(Init(lifetime, grace), CreateAdmin(1, 0, false)), LoginRead(0, 1)), Archive(1, None))
  }

  lemma ArchivedMeanwhileIs(lifetime: nat, grace: nat)
    ensures ArchivedMeanwhile(lifetime, grace)
         == Auth(lifetime, grace, 0, map[], 0, map[1 := AdminAccount(0, false, Some(0), None)],
                 map[], {}, map[], map[0 := 1], map[])
  {
  }

  /** A login that checked before the archive and writes after it leaves a live token, which
      the next unarchive turns into a valid session. */
  lemma LateLoginRace(lifetime: nat, grace: nat)
    requires lifetime > 0
    ensures var s := Then(ArchivedMeanwhile(lifetime, grace), LoginWrite(0, "f"));
            && !InactiveAdminsOwnNothing(s)
            && IsConnectionValid(Then(s, Unarchive(1)), 1, Some("f"), s.clock)
  {
    ArchivedMeanwhileIs(lifetime, grace);
    var s4 := Then(ArchivedMeanwhile(lifetime, grace), LoginWrite(0, "f"));
    assert 0 in s4.rows && s4.rows[0] == Row(1, "f", lifetime, None, None);
    var s5 := Then(s4, Unarchive(1));
    assert s5.rows == s4.rows && s5.clock == 0;
  }

  /** The action really archives or deletes the admin (rather than failing or being the
      idempotent repeat of an archive). */
  predicate Deactivates(s: Auth, a: Action) {
    match a
    case Archive(p, _) => Apply(s, a).1 == Done && s.accounts[p].archivedAt.None?
    case Delete(_, _) => Apply(s, a).1 == Done
    case _ => false
  }

  /** The calls that force a new login everywhere: archive, delete, logout of all devices and
      change of password, when they succeed. */
  predicate RevokesAll(s: Auth, a: Action) {
    Deactivates(s, a) || a.LogoutAll? || (a.ChangePassword? && Apply(s, a).1 == Done)
  }

  lemma RevokedRows(s: Auth, a: Action)
    requires RevokesAll(s, a)
    ensures var t := Apply(s, a).0;
            && t.rows == RevokedPrincipal(s.rows, a.principal, s.clock)
            && t.refreshes == s.refreshes && t.logins == s.logins && t.issued == s.issued
            && s.accounts.Keys <= t.accounts.Keys
  {
  }

  /** Every session family the principal had when everything was revoked fails the periodic
      re-check for ever: at any clock, under any principal, whatever logins and refreshes
      were in flight. */
  lemma RevokedSessionsNeverValid(
    s: Auth, a: Action, f: Family, later: seq<Action>, viewer: Principal, now: Time)
    requires Reachable(s) && RevokesAll(s, a)
    requires f in s.issued && s.issued[f] == a.principal
    ensures !IsConnectionValid(Run(Apply(s, a).0, later), viewer, Some(f), now)
  {
    ReachableInv(s);
    StepKeepsInv(s, a);
    RevokedRows(s, a);
    var t := Apply(s, a).0;
    forall i | i in t.rows && t.rows[i].family == f
      ensures !t.rows[i].Unrevoked()
    {
      assert RowMatches(s, i);
    }
    DeadStaysDead(t, f, later);
  }

  /** An archive or delete in particular: also after unarchive or restore. */
  lemma SessionsOfADeactivatedAdminNeverValid(
    s: Auth, a: Action, f: Family, later: seq<Action>, viewer: Principal, now: Time)
    requires Reachable(s) && Deactivates(s, a)
    requires f in s.issued && s.issued[f] == a.principal
    ensures !IsConnectionValid(Run(Apply(s, a).0, later), viewer, Some(f), now)
  {
    RevokedSessionsNeverValid(s, a, f, later, viewer, now);
  }

  // ------------------------------------------------------------------ logins across a revocation

  predicate OwnsToken(s: Auth, p: Principal) {
    exists i :: i in s.rows && s.rows[i].principal == p && s.rows[i].Unrevoked()
  }

  predicate LoginPending(s: Auth, p: Principal) {
    exists q :: q in s.logins && s.logins[q] == p
  }

  /** Nobody starts to log in as `p`. */
  predicate NoLoginStarts(actions: seq<Action>, p: Principal) {
    forall i | 0 <= i < |actions| && actions[i].LoginRead? :: actions[i].principal != p
  }

  lemma OnlyReadsStartLogins(s: Auth, a: Action)
    requires !a.LoginRead?
    ensures forall q | q in Apply(s, a).0.logins :: q in s.logins && Apply(s, a).0.logins[q] == s.logins[q]
  {
  }

  lemma AccountsStay(s: Auth, a: Action)
    ensures s.accounts.Keys <= Apply(s, a).0.accounts.Keys
  {
    if !TouchesAccount(a) {
      OtherStepsLeaveAccounts(s, a);
    }
  }

  /** A new row is a fresh account's, a login's in flight, or follows an unrevoked one. */
  lemma NewRowsPrincipal(s: Auth, a: Action, i: nat)
    requires Inv(s) && i in Apply(s, a).0.rows && i !in s.rows
    ensures var p := Apply(s, a).0.rows[i].principal;
            p !in s.accounts || LoginPending(s, p) || OwnsToken(s, p)
  {
    if a.RefreshWrite? && a.request in s.refreshes {
      assert PendingMatches(s, s.refreshes[a.request]);
    } else if !a.Register? && !a.LoginWrite? && !a.RefreshWrite? {
      OtherStepsAddNoRow(s, a);
    }
  }

  lemma TokenlessStep(s: Auth, p: Principal, a: Action)
    requires Inv(s) && p in s.accounts && !OwnsToken(s, p) && !LoginPending(s, p)
    requires a.LoginRead? ==> a.principal != p
    ensures var t := Apply(s, a).0; p in t.accounts && !OwnsToken(t, p) && !LoginPending(t, p)
  {
    var t := Apply(s, a).0;
    StepKeepsInv(s, a);
    AccountsStay(s, a);
    if !a.LoginRead? {
      OnlyReadsStartLogins(s, a);
    }
    forall i | i in t.rows && t.rows[i].principal == p
      ensures !t.rows[i].Unrevoked()
    {
      if i in s.rows {
        assert RowMatches(s, i) && RowEvolves(s, t, i);
      } else {
        NewRowsPrincipal(s, a, i);
      }
    }
  }

  lemma {:induction false} TokenlessStaysTokenless(s: Auth, p: Principal, later: seq<Action>)
    requires Inv(s) && p in s.accounts && !OwnsToken(s, p) && !LoginPending(s, p) && NoLoginStarts(later, p)
    ensures !OwnsToken(Run(s, later), p)
    decreases |later|
  {
    if later != [] {
      TokenlessStep(s, p, later[0]);
      StepKeepsInv(s, later[0]);
      TokenlessStaysTokenless(Apply(s, later[0]).0, p, later[1..]);
    }
  }

  /** A family id that was never drawn. */
  lemma NewFamily(known: set<Family>) returns (f: Family)
    ensures f !in known
  {
    var lengths := set g | g in known :: |g|;
    var n := SomethingNew(lengths);
    f := seq(n, _ => 'f');
  }

  lemma PendingLoginOwns(s: Auth, p: Principal, q: nat) returns (later: seq<Action>)
    requires Inv(s) && q in s.logins && s.logins[q] == p
    ensures NoLoginStarts(later, p) && OwnsToken(Run(s, later), p)
  {
    var f := NewFamily(s.issued.Keys);
    later := [LoginWrite(q, f)];
    var t := Apply(s, LoginWrite(q, f)).0;
    assert t == LoginWriteStep(s, q, f).0;
    assert s.nextId in t.rows && t.rows[s.nextId] == Row(p, f, s.clock + s.lifetime, None, None);
    assert later[1..] == [] && Run(s, later) == t;
  }

  /** After everything of a principal was revoked, and while nobody starts to log in as it, it
      can own a token again if and only if a login had passed its check before. */
  lemma OwnsAfterRevocationIff(s: Auth, a: Action)
    requires Inv(s) && RevokesAll(s, a) && a.principal in s.accounts
    ensures var t := Apply(s, a).0;
            (exists later: seq<Action> :: NoLoginStarts(later, a.principal) && OwnsToken(Run(t, later), a.principal))
            <==> LoginPending(s, a.principal)
  {
    var t := Apply(s, a).0;
    StepKeepsInv(s, a);
    RevokedRows(s, a);
    assert LoginPending(t, a.principal) <==> LoginPending(s, a.principal);
    if q :| q in t.logins && t.logins[q] == a.principal {
      var later := PendingLoginOwns(t, a.principal, q);
      assert NoLoginStarts(later, a.principal) && OwnsToken(Run(t, later), a.principal);
    } else {
      assert !OwnsToken(t, a.principal);
      forall later: seq<Action> | NoLoginStarts(later, a.principal)
        ensures !OwnsToken(Run(t, later), a.principal)
      {
        TokenlessStaysTokenless(t, a.principal, later);
      }
    }
  }

  /** A login has checked the old password, the password is changed and everything revoked,
      then the login writes: its session is valid. */
  lemma LoginAcrossPasswordChange(lifetime: nat, grace: nat)
    requires lifetime > 0
    ensures var s := Then(Then(Then(OneSession(lifetime, grace),
                       LoginRead(1, 1)), ChangePassword(1)), LoginWrite(1, "g"));
            && !IsConnectionValid(s, 1, Some("f"), s.clock)
            && IsConnectionValid(s, 1, Some("g"), s.clock)
  {
    OneSessionIs(lifetime, grace);
    var s0 := OneSession(lifetime, grace);
    var s1 := Then(s0, LoginRead(1, 1));
    assert s1 == s0.(logins := map[1 := 1]);
    var s2 := Then(s1, ChangePassword(1));
    assert s2 == s1.(rows := map[0 := Row(1, "f", lifetime, Some(0), None)]);
    var s3 := Then(s2, LoginWrite(1, "g"));
    assert 1 in s3.rows && s3.rows[1] == Row(1, "g", lifetime, None, None);
    assert s3.rows == map[0 := Row(1, "f", lifetime, Some(0), None), 1 := Row(1, "g", lifetime, None, None)];
  }

  // ------------------------------------------------------------------ the root admin

  predicate Protected(s: Auth, p: Principal) {
    p in s.accounts && s.accounts[p].AdminAccount? && s.accounts[p].isProtected
  }

  ghost predicate ProtectedAdminsActive(s: Auth) {
    forall p | Protected(s, p) :: s.accounts[p].Active()
  }

  predicate TouchesAccount(a: Action) {
    || a.CreateAdmin? || a.Register? || a.SetUserActive? || a.SetRole?
    || a.Archive? || a.Unarchive? || a.Delete? || a.Restore?
  }

  lemma OtherStepsLeaveAccounts(s: Auth, a: Action)
    requires !TouchesAccount(a)
    ensures Apply(s, a).0.accounts == s.accounts
  {
  }

  predicate SameAccount(s: Auth, t: Auth, p: Principal) {
    (p in t.accounts <==> p in s.accounts) && (p in s.accounts ==> t.accounts[p] == s.accounts[p])
  }

  lemma DeactivationTouchesOne(s: Auth, a: Action, p: Principal)
    requires (a.Archive? || a.Delete?) && p != a.principal
    ensures SameAccount(s, Apply(s, a).0, p)
  {
  }

  lemma AccountStepTouchesOne(s: Auth, a: Action, p: Principal)
    requires TouchesAccount(a) && p != a.principal
    ensures SameAccount(s, Apply(s, a).0, p)
  {
    if a.Archive? || a.Delete? {
      DeactivationTouchesOne(s, a, p);
    }
  }

  lemma AccountStepKeepsProtectedActive(s: Auth, a: Action, p: Principal)
    requires ProtectedAdminsActive(s) && TouchesAccount(a) && Protected(Apply(s, a).0, p)
    ensures Apply(s, a).0.accounts[p].Active()
  {
    assert Protected(s, p) || p !in s.accounts;
    if p != a.principal {
      AccountStepTouchesOne(s, a, p);
    }
  }

  lemma {:induction false} ProtectedAdminsActiveInRuns(s: Auth, actions: seq<Action>)
    requires ProtectedAdminsActive(s)
    ensures ProtectedAdminsActive(Run(s, actions))
    decreases |actions|
  {
    if actions != [] {
      if TouchesAccount(actions[0]) {
        forall p | Protected(Apply(s, actions[0]).0, p)
          ensures Apply(s, actions[0]).0.accounts[p].Active()
        {
          AccountStepKeepsProtectedActive(s, actions[0], p);
        }
      } else {
        OtherStepsLeaveAccounts(s, actions[0]);
      }
      ProtectedAdminsActiveInRuns(Apply(s, actions[0]).0, actions[1..]);
    }
  }

  /** The protected root admin is never archived or deleted, by nobody and in no run. */
  lemma RootStaysActive(s: Auth, p: Principal)
    requires Reachable(s) && Protected(s, p)
    ensures s.accounts[p].Active()
  {
    var lifetime: nat, grace: nat, actions: seq<Action> :| s == Run(Init(lifetime, grace), actions);
    ProtectedAdminsActiveInRuns(Init(lifetime, grace), actions);
  }

  // ------------------------------------------------------------------ restore

  /** `restore` gives back an active admin exactly when it was not archived before the
      delete: the archive outlives the delete. */
  lemma RestoreActivatesIff(s: Auth, p: Principal)
    requires Apply(s, Restore(p)).1 == Done
    ensures !InactiveAdmin(Apply(s, Restore(p)).0, p) <==> s.accounts[p].archivedAt.None?
  {
  }

  // ------------------------------------------------------------------ purge

  /** In a reachable state a purge removes exactly the expired rows, which are a prefix of every
      chain, changes no surviving row (so no pointer at a deleted row is left), and no liveness
      query now or later notices. */
  lemma PurgeIsSafe(s: Auth, f: Family, now: Time)
    requires Reachable(s) && s.clock <= now
    ensures var t := Apply(s, Purge).0;
            && (forall i :: i in t.rows <==> i in s.rows && s.rows[i].expires > s.clock)
            && (forall i, j | i in s.rows && j in s.rows && s.rows[i].family == s.rows[j].family && i < j
                              && j !in t.rows :: i !in t.rows)
            && (forall i | i in t.rows :: i in s.rows && t.rows[i] == s.rows[i]
                                         && (t.rows[i].replacedBy.Some? ==> t.rows[i].replacedBy.value in t.rows))
            && (HasLiveTokensInFamily(t.rows, f, now) <==> HasLiveTokensInFamily(s.rows, f, now))
  {
    ReachableInv(s);
    PurgeCutsPrefixes(s.rows, s.clock);
    PurgeIsInvisibleToLiveness(s.rows, s.clock, f, now);
    var t := Apply(s, Purge).0;
    forall i | i in t.rows && t.rows[i].replacedBy.Some?
      ensures t.rows[i].replacedBy.value in t.rows
    {
      assert Linked(t.rows, i);
    }
  }
}
