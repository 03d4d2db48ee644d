/**
  Tickets, handshakes and the periodic re-check as they run: each method works on the ticket
  store, the database and the connection manager in place and is proved to be exactly one
  step of `Sessions`, so its theorems apply to any sequence of calls
  (app/services/ws/ticket.py, app/api/routers/ws/router.py).
*/
module Gateway {
  import opened Wrappers
  import opened TokenTable
  import opened AuthProtocol
  import opened Sessions
  import AuthServices
  import CM = ConnectionManager

  /** The tickets in Redis. */
  class TicketService {
    var tickets: map<Ticket, (Principal, Option<Family>)>

    constructor ()
      ensures tickets == map[]
    {
      tickets := map[];
    }

    method Issue(t: Ticket, p: Principal, sid: Option<Family>)
      modifies this
      ensures tickets == old(tickets)[t := (p, sid)]
    {
      tickets := tickets[t := (p, sid)];
    }

    /** Reads and deletes at once. */
    method Consume(t: Ticket) returns (claims: Option<(Principal, Option<Family>)>)
      modifies this
      ensures claims == if t in old(tickets) then Some(old(tickets)[t]) else None
      ensures tickets == old(tickets) - {t}
    {
      claims := None;
      if t in tickets {
        claims := Some(tickets[t]);
        tickets := tickets - {t};
      }
    }
  }

  lemma AdmittedStep(s: System, q: nat, conn: CM.Connection)
    requires Admits(s, q, conn)
    ensures Step(s, HandshakeWrite(q, conn))
         == s.(pending := s.pending - {q}, open := CM.Admitted(s.open, conn), seen := s.seen + {conn})
  {
  }

  class AdminSocket {
    const backend: AuthServices.Backend
    const tickets: TicketService
    const manager: CM.Manager
    const maxTotal: nat
    const maxPerPrincipal: nat
    var pending: map<nat, Pass>
    ghost var everIssued: set<Ticket>
    ghost var seen: set<CM.Connection>

    constructor (backend: AuthServices.Backend, maxTotal: nat, maxPerPrincipal: nat)
      ensures Valid() && fresh(tickets) && fresh(manager)
      ensures this.backend == backend && this.maxTotal == maxTotal && this.maxPerPrincipal == maxPerPrincipal
      ensures pending == map[] && tickets.tickets == map[] && everIssued == {} && manager.open == seen == {}
    {
      this.backend, this.maxTotal, this.maxPerPrincipal := backend, maxTotal, maxPerPrincipal;
      tickets := new TicketService();
      manager := new CM.Manager();
      pending, everIssued, seen := map[], {}, {};
    }

    ghost function State(): System
      reads this, backend, backend.tokens, tickets, manager
    {
      System(backend.State(), tickets.tickets, everIssued, pending, manager.open, seen, maxTotal, maxPerPrincipal)
    }

    /** A registered connection is open or has run its teardown. */
    ghost predicate Valid()
      reads this, manager, manager.open, seen
    {
      && manager.Valid() && manager.open <= seen
      && forall c | c in seen :: c in manager.open || c.closed
    }

    /** `issue_ws_ticket`: the caller is an active admin with the access token's session id. */
    method IssueTicket(t: Ticket, p: Principal, sid: Option<Family>)
      requires Valid() && MayIssue(State(), t, p, sid)
      modifies this`everIssued, tickets
      ensures Valid() && State() == Step(old(State()), Event.IssueTicket(t, p, sid))
    {
      tickets.Issue(t, p, sid);
      everIssued := everIssued + {t};
    }

    /** `admin_ws` up to the accept: consume the ticket, reload the admin. */
    method HandshakeRead(q: nat, t: Ticket) returns (passed: bool)
      requires Valid() && q !in pending
      modifies this`pending, tickets
      ensures Valid() && State() == Step(old(State()), Event.HandshakeRead(q, t))
      ensures passed <==> q in pending
    {
      var claims := tickets.Consume(t);
      if claims.None? {
        return false;
      }
      var p := claims.value.0;
      if !(p in backend.accounts && backend.accounts[p].AdminAccount? && backend.accounts[p].Active()) {
        return false;
      }
      pending := pending[q := Pass(t, p, claims.value.1)];
      passed := true;
    }

    /** The caps and `register`, for a handshake that has passed its check. */
    method Admit(pass: Pass, cid: Option<CM.Cid>, adminRole: int, capacity: nat, welcome: CM.Message)
      returns (conn: CM.Connection?)
      requires Valid() && 1 <= capacity && welcome.kind == CM.WELCOME
      modifies this`seen, manager, manager.open
      ensures Valid()
      ensures conn == null <==> CM.Refused(old(manager.open), pass.principal, pass.sid, cid, maxTotal, maxPerPrincipal)
      ensures conn == null ==> manager.open == old(manager.open) && seen == old(seen)
      ensures conn != null ==>
                && fresh(conn) && conn.principal == pass.principal && conn.sid == pass.sid && conn.cid == cid
                && manager.open == CM.Admitted(old(manager.open), conn) && seen == old(seen) + {conn}
    {
      conn := manager.Handshake(pass.principal, pass.sid, cid, adminRole, capacity, maxTotal, maxPerPrincipal, welcome);
      if conn != null {
        seen := seen + {conn};
      }
    }

    /** `admin_ws` from the admission check to `register`; null is a refusal with 1013. */
    method HandshakeWrite(q: nat, cid: Option<CM.Cid>, adminRole: int, capacity: nat, welcome: CM.Message)
      returns (conn: CM.Connection?)
      requires Valid() && q in pending && 1 <= capacity && welcome.kind == CM.WELCOME
      modifies this`pending, this`seen, manager, manager.open
      ensures Valid()
      ensures conn == null <==> CM.Refused(old(manager.open), old(pending)[q].principal, old(pending)[q].sid, cid,
                                           maxTotal, maxPerPrincipal)
      ensures conn == null ==> State() == Step(old(State()), HandshakeAbort(q))
      ensures conn != null ==>
                fresh(conn) && conn.cid == cid && State() == Step(old(State()), Event.HandshakeWrite(q, conn))
    {
      ghost var s := State();
      conn := Admit(pending[q], cid, adminRole, capacity, welcome);
      pending := pending - {q};
      assert State() == s.(pending := pending, open := manager.open, seen := seen);
      if conn != null {
        AdmittedStep(s, q, conn);
      } else {
        assert Step(s, HandshakeAbort(q)) == s.(pending := s.pending - {q});
      }
    }

    /** One round of `_run_reauth`: a connection that is no longer valid is closed with 4401. */
    method Recheck(conn: CM.Connection, now: Time)
      requires Valid() && conn in seen
      modifies manager, conn
      ensures Valid() && State() == Step(old(State()), Event.Recheck(conn, now))
      ensures old(conn in manager.open && !IsConnectionValid(backend.State(), conn.principal, conn.sid, now)) ==>
                CM.ClosedWith(conn, CM.UNAUTHENTICATED)
    {
      if conn.closed {
        return;
      }
      var p := conn.principal;
      var valid := p in backend.accounts && backend.accounts[p].AdminAccount? && backend.accounts[p].Active();
      if valid && conn.sid.Some? {
        valid := HasLiveTokensInFamily(backend.tokens.committed, conn.sid.value, now);
      }
      if !valid {
        manager.CloseEach({conn}, CM.UNAUTHENTICATED);
      }
    }
  }
}
