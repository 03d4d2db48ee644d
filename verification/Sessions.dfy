/**
  From a login to a socket: access tokens, single-use tickets, the handshake and the periodic
  re-check, on top of the token protocol and the connection manager
  (app/services/ws/ticket.py, app/api/routers/ws/router.py, app/services/ws/reauth.py).

  A handshake is two steps: it consumes its ticket and checks the admin, then, after the
  `await` of the accept, it checks the caps and registers.  Connections are the manager's own
  objects; only their constant fields matter here.  `Gateway` performs the steps in place.
*/
module Sessions {
  import opened Wrappers
  import opened TokenTable
  import opened AuthProtocol
  import opened AuthTheorems
  import CM = ConnectionManager

  type Ticket = string

  /** What a handshake holds between its check and its registration. */
  datatype Pass = Pass(ticket: Ticket, principal: Principal, sid: Option<Family>)

  /** `tickets` is the Redis store and `pending` the handshakes in flight; `everIssued` are the
      tickets ever drawn and `seen` the connections ever registered. */
  datatype System = System(
    auth: Auth,
    tickets: map<Ticket, (Principal, Option<Family>)>,
    everIssued: set<Ticket>,
    pending: map<nat, Pass>,
    open: set<CM.Connection>,
    seen: set<CM.Connection>,
    maxTotal: nat,
    maxPerPrincipal: nat
  )

  datatype Event =
    | Authenticate(action: Action)
    | IssueTicket(ticket: Ticket, principal: Principal, sid: Option<Family>)
    | ExpireTicket(ticket: Ticket)
    | HandshakeRead(request: nat, ticket: Ticket)
    | HandshakeWrite(request: nat, conn: CM.Connection)
    | HandshakeAbort(request: nat)
    | Recheck(conn: CM.Connection, now: Time)
    | Close(conns: set<CM.Connection>)

  predicate ActiveAdmin(a: Auth, p: Principal) {
    p in a.accounts && a.accounts[p].AdminAccount? && a.accounts[p].Active()
  }

  /** An active admin exchanges an access token for a ticket bound to the token's claims.
      A token from before sessions had ids carries no sid. */
  predicate MayIssue(s: System, t: Ticket, p: Principal, sid: Option<Family>) {
    && t !in s.everIssued
    && ActiveAdmin(s.auth, p)
    && (sid.Some? ==> (p, sid.value) in s.auth.minted)
  }

  predicate PassMatches(pass: Pass, conn: CM.Connection) {
    pass.principal == conn.principal && pass.sid == conn.sid
  }

  /** A handshake in flight has passed its check for this new connection. */
  predicate PassFor(s: System, q: nat, conn: CM.Connection) {
    q in s.pending && PassMatches(s.pending[q], conn) && conn !in s.seen
  }

  predicate Admits(s: System, q: nat, conn: CM.Connection) {
    PassFor(s, q, conn) && !CM.Refused(s.open, conn.principal, conn.sid, conn.cid, s.maxTotal, s.maxPerPrincipal)
  }

  /** Consuming the ticket and checking the admin; nothing here is looked at again. */
  function ReadStep(s: System, q: nat, t: Ticket): System {
    if q in s.pending then s
    else
      var passed := t in s.tickets && ActiveAdmin(s.auth, s.tickets[t].0);
      s.(tickets := s.tickets - {t},
         pending := if passed then s.pending[q := Pass(t, s.tickets[t].0, s.tickets[t].1)] else s.pending)
  }

  /** The caps, then `register`. */
  function WriteStep(s: System, q: nat, conn: CM.Connection): System {
    if Admits(s, q, conn) then
      s.(pending := s.pending - {q}, open := CM.Admitted(s.open, conn), seen := s.seen + {conn})
    else if PassFor(s, q, conn) then s.(pending := s.pending - {q})
    else s
  }

  function Step(s: System, e: Event): System {
    match e
    case Authenticate(a) => s.(auth := Apply(s.auth, a).0)
    case IssueTicket(t, p, sid) =>
      if MayIssue(s, t, p, sid)
      then s.(tickets := s.tickets[t := (p, sid)], everIssued := s.everIssued + {t})
      else s
    case ExpireTicket(t) => s.(tickets := s.tickets - {t})
    case HandshakeRead(q, t) => ReadStep(s, q, t)
    case HandshakeWrite(q, conn) => WriteStep(s, q, conn)
    case HandshakeAbort(q) => s.(pending := s.pending - {q})
    case Recheck(conn, now) =>
      if IsConnectionValid(s.auth, conn.principal, conn.sid, now) then s else s.(open := s.open - {conn})
    case Close(conns) => s.(open := s.open - conns)
  }

  function RunEvents(s: System, events: seq<Event>): System
    decreases |events|
  {
    if events == [] then s else RunEvents(Step(s, events[0]), events[1..])
  }

  function Start(lifetime: nat, grace: nat, maxTotal: nat, maxPerPrincipal: nat): System {
    System(Init(lifetime, grace), map[], {}, map[], {}, {}, maxTotal, maxPerPrincipal)
  }

  // ------------------------------------------------------------------ caps and ownership

  /** A session id handed out is owned by the principal it is bound to. */
  predicate Bound(auth: Auth, p: Principal, sid: Option<Family>) {
    sid.Some? ==> sid.value in auth.issued && auth.issued[sid.value] == p
  }

  predicate PassOk(s: System, q: nat)
    requires q in s.pending
  {
    && s.pending[q].ticket in s.everIssued && s.pending[q].ticket !in s.tickets
    && Bound(s.auth, s.pending[q].principal, s.pending[q].sid)
  }

  ghost predicate SystemInv(s: System) {
    && Inv(s.auth)
    && (forall t | t in s.tickets :: t in s.everIssued && Bound(s.auth, s.tickets[t].0, s.tickets[t].1))
    && (forall q | q in s.pending :: PassOk(s, q))
    && (forall q, r | q in s.pending && r in s.pending && s.pending[q].ticket == s.pending[r].ticket :: q == r)
    && s.open <= s.seen
    && CM.SidsOwned(s.open, s.auth.issued)
    && CM.OneOwnerPerTab(s.open)
    && CM.WithinCaps(s.open, s.maxTotal, s.maxPerPrincipal)
  }

  lemma WriteKeepsSystemInv(s: System, q: nat, conn: CM.Connection)
    requires SystemInv(s)
    ensures SystemInv(WriteStep(s, q, conn))
  {
    assert q in s.pending ==> PassOk(s, q);
    if Admits(s, q, conn) {
      CM.AdmissionKeepsCaps(s.open, conn, s.auth.issued, s.maxTotal, s.maxPerPrincipal);
      CM.AdmissionKeepsOwners(s.open, conn, s.auth.issued);
    }
    forall r | r in WriteStep(s, q, conn).pending
      ensures PassOk(WriteStep(s, q, conn), r)
    {
      assert PassOk(s, r);
    }
  }

  lemma ReadKeepsSystemInv(s: System, q: nat, t: Ticket)
    requires SystemInv(s)
    ensures SystemInv(ReadStep(s, q, t))
  {
    forall r | r in ReadStep(s, q, t).pending
      ensures PassOk(ReadStep(s, q, t), r)
    {
      assert r in s.pending ==> PassOk(s, r);
    }
    assert t in s.tickets ==> forall r | r in s.pending :: s.pending[r].ticket != t by {
      forall r | r in s.pending
        ensures s.pending[r].ticket !in s.tickets
      {
        assert PassOk(s, r);
      }
    }
  }

  /** Steps that admit nobody: tickets and handshakes may come and go, connections only go. */
  lemma OtherEventsKeepSystemInv(s: System, e: Event)
    requires SystemInv(s) && !e.HandshakeRead? && !e.HandshakeWrite?
    ensures SystemInv(Step(s, e))
  {
    var t := Step(s, e);
    if e.Authenticate? {
      StepKeepsInv(s.auth, e.action);
    }
    CM.ClosingKeepsCaps(s.open, t.open, s.maxTotal, s.maxPerPrincipal);
    forall q | q in t.pending
      ensures PassOk(t, q)
    {
      assert PassOk(s, q);
    }
  }

  lemma StepKeepsSystemInv(s: System, e: Event)
    requires SystemInv(s)
    ensures SystemInv(Step(s, e))
  {
    match e
    case HandshakeRead(q, t) => ReadKeepsSystemInv(s, q, t);
    case HandshakeWrite(q, conn) => WriteKeepsSystemInv(s, q, conn);
    case _ => OtherEventsKeepSystemInv(s, e);
  }

  lemma {:induction false} RunKeepsSystemInv(s: System, events: seq<Event>)
    requires SystemInv(s)
    ensures SystemInv(RunEvents(s, events))
    decreases |events|
  {
    if events != [] {
      StepKeepsSystemInv(s, events[0]);
      RunKeepsSystemInv(Step(s, events[0]), events[1..]);
    }
  }

  /** After any history of logins, rotations, tickets, handshakes and closings: both caps
      hold, a tab has one connection, and a connection's principal owns its session. */
  lemma CapsHoldInEveryRun(lifetime: nat, grace: nat, maxTotal: nat, maxPerPrincipal: nat, events: seq<Event>,
                           c: CM.Connection, d: CM.Connection)
    requires c in RunEvents(Start(lifetime, grace, maxTotal, maxPerPrincipal), events).open
    requires d in RunEvents(Start(lifetime, grace, maxTotal, maxPerPrincipal), events).open
    ensures var s := RunEvents(Start(lifetime, grace, maxTotal, maxPerPrincipal), events);
            && |s.open| <= maxTotal
            && |CM.OfPrincipal(s.open, c.principal)| <= maxPerPrincipal
            && (c.sid.Some? && c.sid == d.sid ==> c.principal == d.principal)
            && (c.sid.Some? && c.cid.Some? && c.sid == d.sid && c.cid == d.cid ==> c == d)
            && (c.sid.Some? ==> c.sid.value in s.auth.issued && s.auth.issued[c.sid.value] == c.principal)
  {
    var s0 := Start(lifetime, grace, maxTotal, maxPerPrincipal);
    forall p: nat
      ensures |CM.OfPrincipal(s0.open, p)| <= maxPerPrincipal
    {
      assert CM.OfPrincipal(s0.open, p) == {};
    }
    RunKeepsSystemInv(s0, events);
    CapsAreFixed(s0, events);
  }

  lemma {:induction false} CapsAreFixed(s: System, events: seq<Event>)
    ensures RunEvents(s, events).maxTotal == s.maxTotal
    ensures RunEvents(s, events).maxPerPrincipal == s.maxPerPrincipal
    decreases |events|
  {
    if events != [] {
      CapsAreFixed(Step(s, events[0]), events[1..]);
    }
  }

  // ------------------------------------------------------------------ a ticket works once

  function Admissions(s: System, t: Ticket, events: seq<Event>): nat
    decreases |events|
  {
    if events == [] then 0
    else
      var e := events[0];
      (if e.HandshakeWrite? && Admits(s, e.request, e.conn) && s.pending[e.request].ticket == t then 1 else 0)
      + Admissions(Step(s, e), t, events[1..])
  }

  /** Drawn, consumed, and no longer held by a handshake in flight. */
  predicate Spent(s: System, t: Ticket) {
    t in s.everIssued && t !in s.tickets && forall q | q in s.pending :: s.pending[q].ticket != t
  }

  lemma {:induction false} SpentTicketNeverAdmits(s: System, t: Ticket, events: seq<Event>)
    requires Spent(s, t)
    ensures Admissions(s, t, events) == 0
    decreases |events|
  {
    if events != [] {
      SpentTicketNeverAdmits(Step(s, events[0]), t, events[1..]);
    }
  }

  lemma {:induction false} TicketAdmitsOnce(s: System, t: Ticket, events: seq<Event>)
    requires SystemInv(s)
    ensures Admissions(s, t, events) <= 1
    decreases |events|
  {
    if events != [] {
      var e := events[0];
      if e.HandshakeWrite? && Admits(s, e.request, e.conn) && s.pending[e.request].ticket == t {
        assert PassOk(s, e.request);
        SpentTicketNeverAdmits(Step(s, e), t, events[1..]);
      } else {
        StepKeepsSystemInv(s, e);
        TicketAdmitsOnce(Step(s, e), t, events[1..]);
      }
    }
  }

  // ------------------------------------------------------------------ who gets a ticket, a socket, and keeps it

  /** An admin that is neither archived nor deleted. */
  predicate InService(a: Auth, p: Principal) {
    && p in a.accounts && a.accounts[p].AdminAccount?
    && a.accounts[p].archivedAt == None && a.accounts[p].deletedAt == None
  }

  /** A new ticket is stored exactly for an admin in service with a signed session id or none. */
  lemma TicketIssuedIff(s: System, t: Ticket, p: Principal, sid: Option<Family>)
    requires t !in s.everIssued && t !in s.tickets
    ensures var u := Step(s, IssueTicket(t, p, sid));
            if InService(s.auth, p) && (sid == None || (p, sid.value) in s.auth.minted)
            then u.tickets == s.tickets[t := (p, sid)] && u.open == s.open && u.pending == s.pending
            else u == s
  {
  }

  /** Presenting a ticket spends it, whoever asks; it passes exactly when it was still stored
      and its admin is in service now, and the handshake goes on under the ticket's claims. */
  lemma PresentingSpendsTicket(s: System, q: nat, t: Ticket)
    requires q !in s.pending
    ensures var u := Step(s, HandshakeRead(q, t));
            && u.tickets == s.tickets - {t} && u.open == s.open && u.auth == s.auth
            && (q in u.pending <==> t in s.tickets && InService(s.auth, s.tickets[t].0))
            && (q in u.pending ==> u.pending[q].principal == s.tickets[t].0 && u.pending[q].sid == s.tickets[t].1)
  {
  }

  /** There is room for the connection, or it takes the place of its own tab. */
  predicate HasPlace(s: System, conn: CM.Connection) {
    || (exists c :: c in s.open && TakesPlaceOf(conn, c))
    || (|s.open| < s.maxTotal && |set c | c in s.open && c.principal == conn.principal| < s.maxPerPrincipal)
  }

  predicate TakesPlaceOf(conn: CM.Connection, c: CM.Connection) {
    conn.sid.Some? && conn.cid.Some? && c.sid == conn.sid && c.cid == conn.cid
  }

  /** A handshake in flight opens its socket exactly when there is a place, in exchange for
      that of its own tab and no other. */
  lemma SocketOpensIff(s: System, q: nat, conn: CM.Connection)
    requires PassFor(s, q, conn) && s.open <= s.seen
    ensures var u := Step(s, HandshakeWrite(q, conn));
            && (conn in u.open <==> HasPlace(s, conn))
            && (conn !in u.open ==> u.open == s.open)
            && (conn in u.open ==> forall c | c in s.open :: c in u.open <==> !TakesPlaceOf(conn, c))
            && (forall c | c in u.open :: c == conn || c in s.open)
            && q !in u.pending
  {
    var tab := CM.SameTab(s.open, conn.sid, conn.cid);
    assert forall c :: c in tab <==> c in s.open && TakesPlaceOf(conn, c);
    assert (set c | c in s.open && c.principal == conn.principal) == CM.OfPrincipal(s.open, conn.principal);
  }

  /** From the access token to the socket: an admin in service who draws a ticket and presents
      it, with a place free, is connected. */
  lemma TicketOpensSocket(s: System, t: Ticket, q: nat, conn: CM.Connection)
    requires SystemInv(s) && t !in s.everIssued && q !in s.pending && conn !in s.seen
    requires InService(s.auth, conn.principal) && HasPlace(s, conn)
    requires conn.sid == None || (conn.principal, conn.sid.value) in s.auth.minted
    ensures var s1 := Step(s, IssueTicket(t, conn.principal, conn.sid));
            var s2 := Step(s1, HandshakeRead(q, t));
            var s3 := Step(s2, HandshakeWrite(q, conn));
            conn in s3.open && t !in s3.tickets
  {
    TicketIssuedIff(s, t, conn.principal, conn.sid);
    var s1 := Step(s, IssueTicket(t, conn.principal, conn.sid));
    PresentingSpendsTicket(s1, q, t);
    var s2 := Step(s1, HandshakeRead(q, t));
    assert s2.open == s.open && s2.seen == s.seen;
    assert HasPlace(s2, conn);
    SocketOpensIff(s2, q, conn);
  }

  /** A re-check keeps exactly the socket whose admin is in service and whose session, if it
      has one, holds a live token; it touches no other. */
  lemma RecheckIff(s: System, conn: CM.Connection, now: Time)
    ensures var u := Step(s, Recheck(conn, now));
            && (conn in u.open <==>
                  && conn in s.open && InService(s.auth, conn.principal)
                  && (conn.sid.Some? ==> exists i :: i in s.auth.rows && LiveRow(s.auth.rows[i], conn.sid.value, now)))
            && (forall c | c != conn :: c in u.open <==> c in s.open)
            && u == s.(open := u.open)
  {
    if conn.sid.Some? {
      assert HasLiveTokensInFamily(s.auth.rows, conn.sid.value, now) <==>
             exists i :: i in s.auth.rows && LiveRow(s.auth.rows[i], conn.sid.value, now);
    }
  }

  predicate LiveRow(r: Row, sid: Family, now: Time) {
    r.family == sid && r.revokedAt == None && now < r.expires
  }

  // ------------------------------------------------------------------ revocation reaches the sockets

  /** The token actions of a history, in order. */
  function AuthActions(events: seq<Event>): seq<Action> {
    if events == [] then []
    else (if events[0].Authenticate? then [events[0].action] else []) + AuthActions(events[1..])
  }

  lemma {:induction false} AuthRunsAlone(s: System, events: seq<Event>)
    ensures RunEvents(s, events).auth == Run(s.auth, AuthActions(events))
    decreases |events|
  {
    if events != [] {
      AuthRunsAlone(Step(s, events[0]), events[1..]);
      if events[0].Authenticate? {
        assert AuthActions(events)[1..] == AuthActions(events[1..]);
      } else {
        assert AuthActions(events) == AuthActions(events[1..]);
      }
    }
  }

  /** Archive or delete an admin, then let anything happen, unarchive and new handshakes
      included: any socket of a session the admin had at that moment is closed by its next
      re-check. */
  lemma RecheckClosesDeactivatedSessions(
    s: System, a: Action, later: seq<Event>, conn: CM.Connection, now: Time)
    requires Reachable(s.auth) && Deactivates(s.auth, a)
    requires conn.sid.Some? && conn.sid.value in s.auth.issued && s.auth.issued[conn.sid.value] == a.principal
    ensures conn !in Step(RunEvents(Step(s, Authenticate(a)), later), Recheck(conn, now)).open
  {
    AuthRunsAlone(Step(s, Authenticate(a)), later);
    SessionsOfADeactivatedAdminNeverValid(s.auth, a, conn.sid.value, AuthActions(later), conn.principal, now);
  }

  // ------------------------------------------------------------------ an inactive admin's sockets

  /** The admin is inactive in every state the history goes through. */
  predicate InactiveThroughout(s: System, events: seq<Event>, p: Principal)
    decreases |events|
  {
    && !ActiveAdmin(s.auth, p)
    && (events != [] ==> InactiveThroughout(Step(s, events[0]), events[1..], p))
  }

  /** A registered connection that is no longer open never opens again. */
  lemma {:induction false} ClosedStaysClosed(s: System, events: seq<Event>, conn: CM.Connection)
    requires conn in s.seen && conn !in s.open
    ensures conn !in RunEvents(s, events).open
    decreases |events|
  {
    if events != [] {
      ClosedStaysClosed(Step(s, events[0]), events[1..], conn);
    }
  }

  /** While an admin is inactive, each of its sockets, with a session id or without, is closed
      for good by its first re-check. */
  lemma {:induction false} InactiveAdminLosesSockets(s: System, events: seq<Event>, conn: CM.Connection)
    requires InactiveThroughout(s, events, conn.principal) && conn in s.seen
    requires conn in RunEvents(s, events).open
    ensures conn in s.open
    ensures forall now :: Recheck(conn, now) !in events
    decreases |events|
  {
    if conn !in s.open {
      ClosedStaysClosed(s, events, conn);
    } else if events != [] {
      InactiveAdminLosesSockets(Step(s, events[0]), events[1..], conn);
      forall now
        ensures Recheck(conn, now) !in events
      {
        assert events == [events[0]] + events[1..];
      }
    }
  }

  lemma {:induction false} NoPassNoSocket(s: System, events: seq<Event>, conn: CM.Connection)
    requires InactiveThroughout(s, events, conn.principal) && conn !in s.open
    requires forall q | q in s.pending :: !PassMatches(s.pending[q], conn)
    ensures conn !in RunEvents(s, events).open
    decreases |events|
  {
    if events != [] {
      NoPassNoSocket(Step(s, events[0]), events[1..], conn);
    }
  }

  /** Room is made, and the handshake goes on. */
  lemma PassRegisters(s: System, q: nat, conn: CM.Connection, conns: set<CM.Connection>)
    requires PassFor(s, q, conn) && s.open <= conns && s.maxTotal >= 1 && s.maxPerPrincipal >= 1
    ensures var t := Step(Step(s, Close(conns)), HandshakeWrite(q, conn));
            conn in t.open && t.auth == s.auth
  {
    var s1 := Step(s, Close(conns));
    assert s1 == s.(open := {});
    assert CM.OfPrincipal(s1.open, conn.principal) == {};
    assert Step(s1, HandshakeWrite(q, conn)) == WriteStep(s1, q, conn);
  }

  lemma RunOneMore(s: System, e: Event, rest: seq<Event>, p: Principal)
    ensures RunEvents(s, [e] + rest) == RunEvents(Step(s, e), rest)
    ensures InactiveThroughout(s, [e] + rest, p) <==> !ActiveAdmin(s.auth, p) && InactiveThroughout(Step(s, e), rest, p)
  {
    assert ([e] + rest)[1..] == rest;
  }

  predicate OpensInactive(s: System, events: seq<Event>, conn: CM.Connection) {
    InactiveThroughout(s, events, conn.principal) && conn in RunEvents(s, events).open
  }

  lemma PassOpensSocket(s: System, q: nat, conn: CM.Connection)
    requires !ActiveAdmin(s.auth, conn.principal) && PassFor(s, q, conn)
    requires s.maxTotal >= 1 && s.maxPerPrincipal >= 1
    ensures exists events: seq<Event> :: OpensInactive(s, events, conn)
  {
    var a := Close(s.open);
    var b := HandshakeWrite(q, conn);
    PassRegisters(s, q, conn, s.open);
    RunOneMore(s, a, [b] + [], conn.principal);
    RunOneMore(Step(s, a), b, [], conn.principal);
    assert OpensInactive(s, [a] + ([b] + []), conn);
  }

  /** After an archive or delete, and while the admin stays inactive, a socket of that admin
      can still open if and only if one of its handshakes had passed the check before. */
  lemma OpensAfterDeactivationIff(s: System, a: Action, conn: CM.Connection)
    requires Deactivates(s.auth, a) && conn.principal == a.principal
    requires conn !in s.seen && s.open <= s.seen && s.maxTotal >= 1 && s.maxPerPrincipal >= 1
    ensures var t := Step(s, Authenticate(a));
            (exists later: seq<Event> :: OpensInactive(t, later, conn)) <==> exists q :: PassFor(s, q, conn)
  {
    var t := Step(s, Authenticate(a));
    assert forall q :: PassFor(t, q, conn) <==> PassFor(s, q, conn);
    if q :| PassFor(s, q, conn) {
      PassOpensSocket(t, q, conn);
    } else {
      forall later: seq<Event> | InactiveThroughout(t, later, conn.principal)
        ensures !OpensInactive(t, later, conn)
      {
        forall q | q in t.pending
          ensures !PassMatches(t.pending[q], conn)
        {
          assert !PassFor(s, q, conn);
        }
        NoPassNoSocket(t, later, conn);
      }
    }
  }

  // ------------------------------------------------------------------ the race itself

  /** Admin 1 has logged in, drawn a ticket, and its handshake has passed the check. */
  function Checked(lifetime: nat, grace: nat, maxTotal: nat, maxPerPrincipal: nat): System {
    var s := Start(lifetime, grace, maxTotal, maxPerPrincipal).(auth := OneSession(lifetime, grace));
    Step(Step(s, IssueTicket("t", 1, Some("f"))), HandshakeRead(0, "t"))
  }

  lemma CheckedIs(lifetime: nat, grace: nat, maxTotal: nat, maxPerPrincipal: nat)
    ensures var s := Checked(lifetime, grace, maxTotal, maxPerPrincipal);
            s == RunEvents(Start(lifetime, grace, maxTotal, maxPerPrincipal),
                   [Authenticate(CreateAdmin(1, 0, false)), Authenticate(LoginRead(0, 1)),
                    Authenticate(LoginWrite(0, "f")), IssueTicket("t", 1, Some("f")), HandshakeRead(0, "t")])
            && s.auth == OneSession(lifetime, grace)
            && s.pending == map[0 := Pass("t", 1, Some("f"))] && s.open == {} && s.seen == {}
  {
    OneSessionIs(lifetime, grace);
  }

  /** The archive is committed and its kick finds nothing to close; then the handshake registers. */
  lemma LateHandshake(lifetime: nat, grace: nat, maxTotal: nat, maxPerPrincipal: nat, conn: CM.Connection)
    requires maxTotal >= 1 && maxPerPrincipal >= 1 && conn.principal == 1 && conn.sid == Some("f")
    ensures var s0 := Checked(lifetime, grace, maxTotal, maxPerPrincipal);
            var s1 := Step(s0, Authenticate(Archive(1, None)));
            var s2 := Step(s1, Close(CM.OfPrincipal(s1.open, 1)));
            var s3 := Step(s2, HandshakeWrite(0, conn));
            InactiveAdmin(s3.auth, 1) && conn in s3.open
  {
    CheckedIs(lifetime, grace, maxTotal, maxPerPrincipal);
    ArchivedSession(lifetime, grace);
    var s0 := Checked(lifetime, grace, maxTotal, maxPerPrincipal);
    var s1 := Step(s0, Authenticate(Archive(1, None)));
    assert s1 == s0.(auth := s1.auth) && PassFor(s1, 0, conn);
    PassRegisters(s1, 0, conn, CM.OfPrincipal(s1.open, 1));
  }

  lemma ArchivedSession(lifetime: nat, grace: nat)
    ensures InactiveAdmin(Apply(OneSession(lifetime, grace), Archive(1, None)).0, 1)
  {
    OneSessionIs(lifetime, grace);
  }
}
