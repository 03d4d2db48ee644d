/**
  Closing loops under interleaving: a kick, a delivery that found full queues, a heartbeat or
  re-check that gives a connection up, and a shutdown close every one of their victims unless
  they are cancelled (app/services/ws/manager.py, app/api/routers/ws/router.py).
*/
module TeardownLoops {
  import opened Wrappers
  import opened Buckets
  import opened CM = ConnectionManager
  import opened T = Teardowns
  import opened Theorems = TeardownTheorems

  predicate ClosesInALoop(m: Move) {
    m.Kick? || m.KickSid? || m.Send? || m.Expire?
  }

  /** Whom the loop is there to close, at the moment it starts. */
  function Victims(w: World, m: Move): set<Peer>
    requires ClosesInALoop(m)
  {
    match m
    case Kick(_, p, _) => Bucket(w.byPrincipal, p)
    case KickSid(_, sid, _) => Bucket(w.bySid, sid)
    case Send(_, a, _, _) => Overflow(w, a)
    case Expire(_, c) => {c}
  }

  /** The order in which it closes them. */
  function OrderOf(m: Move): seq<Peer>
    requires ClosesInALoop(m)
  {
    if m.Expire? then [m.conn] else m.order
  }

  predicate BeginsLoop(w: World, m: Move) {
    && ClosesInALoop(m) && m.task !in w.tasks && Enumerates(OrderOf(m), Victims(w, m))
    && (m.Send? && m.address.ToOne? ==> m.address.conn in w.joined)
    && (m.Expire? ==> m.conn in Registered(w))
  }

  /** At most `n` resumptions of task `q` from now, every victim is closed. */
  predicate Left(w: World, q: nat, victims: set<Peer>, n: nat) {
    || victims <= w.closed
    || (q in w.tasks &&
        match w.tasks[q]
        case Closing(todo, _) => victims <= w.closed + (set c | c in todo) && 2 * |todo| <= n
        case Draining(rest, _) => victims <= w.closed + (set c | c in rest) && 2 * |rest| + 1 <= n
        case _ => false)
  }

  lemma ClosedGrows(w: World, m: Move)
    ensures w.closed <= Make(w, m).closed
  {
    match m
    case Resume(q) =>
    case Connect(_, _, _) =>
    case Drop(_, _) =>
    case _ => OtherMovesLeaveOwners(w, m);
  }

  lemma OthersLeaveTask(w: World, m: Move, q: nat)
    requires q in w.tasks && m != Resume(q) && m != Cancel(q)
    requires !(m.Sweep? && m.task == q && w.tasks[q].Sweeping?)
    ensures q in Make(w, m).tasks && Make(w, m).tasks[q] == w.tasks[q]
  {
    if OnlySchedules(m) {
      SchedulingOnlyTouchesTasks(w, m);
    }
  }

  lemma HeadOrTail(todo: seq<Peer>)
    requires todo != []
    ensures (set c | c in todo) == {todo[0]} + (set c | c in todo[1..])
  {
  }

  lemma ClosingMakesProgress(w: World, q: nat, victims: set<Peer>, n: nat)
    requires Left(w, q, victims, n) && !(victims <= w.closed) && w.tasks[q].Closing?
    ensures n > 0 && Left(ResumeMove(w, q), q, victims, n - 1)
  {
    var todo, more := w.tasks[q].todo, w.tasks[q].more;
    assert todo != [];
    HeadOrTail(todo);
    if todo[0] in w.closed {
      assert ResumeMove(w, q) == CloseNext(w, q, todo[1..], more);
    } else {
      assert ResumeMove(w, q) == BodyTurn(w, q, todo[0], Draining(todo[1..], more));
    }
  }

  lemma ResumeMakesProgress(w: World, q: nat, victims: set<Peer>, n: nat)
    requires Left(w, q, victims, n)
    ensures Left(ResumeMove(w, q), q, victims, if n > 0 then n - 1 else 0)
  {
    if !(victims <= w.closed) {
      match w.tasks[q]
      case Closing(_, _) => ClosingMakesProgress(w, q, victims, n);
      case Draining(rest, more) =>
        assert ResumeMove(w, q) == CloseNext(w, q, rest, more);
    }
  }

  lemma OthersKeepLeft(w: World, m: Move, q: nat, victims: set<Peer>, n: nat)
    requires Left(w, q, victims, n) && m != Resume(q) && m != Cancel(q)
    ensures Left(Make(w, m), q, victims, n)
  {
    ClosedGrows(w, m);
    if !(victims <= w.closed) {
      OthersLeaveTask(w, m, q);
    }
  }

  function Resumptions(moves: seq<Move>, q: nat): nat {
    if moves == [] then 0 else (if moves[0] == Resume(q) then 1 else 0) + Resumptions(moves[1..], q)
  }

  lemma {:induction false} LoopRuns(w: World, moves: seq<Move>, q: nat, victims: set<Peer>, n: nat)
    requires Left(w, q, victims, n) && Cancel(q) !in moves
    ensures var done := Resumptions(moves, q);
            Left(Play(w, moves), q, victims, if done <= n then n - done else 0)
    decreases |moves|
  {
    if moves != [] {
      var m := moves[0];
      if m == Resume(q) {
        ResumeMakesProgress(w, q, victims, n);
        LoopRuns(Make(w, m), moves[1..], q, victims, if n > 0 then n - 1 else 0);
      } else {
        OthersKeepLeft(w, m, q, victims, n);
        LoopRuns(Make(w, m), moves[1..], q, victims, n);
      }
    }
  }

  /** Whatever interleaves, a closing loop that is not cancelled has closed every victim once
      it has ended, and it has closed them all after two resumptions for each. */
  lemma LoopsCloseTheirVictims(w: World, m: Move, moves: seq<Move>, c: Peer)
    requires BeginsLoop(w, m) && Cancel(m.task) !in moves && c in Victims(w, m)
    ensures var v := Play(Make(w, m), moves);
            m.task !in v.tasks || Resumptions(moves, m.task) >= 2 * |OrderOf(m)| ==> c in v.closed
  {
    var order := OrderOf(m);
    LoopBegins(w, m);
    LoopRuns(Make(w, m), moves, m.task, Victims(w, m), 2 * |order|);
  }

  lemma LoopBegins(w: World, m: Move)
    requires BeginsLoop(w, m)
    ensures Left(Make(w, m), m.task, Victims(w, m), 2 * |OrderOf(m)|)
  {
    var order := OrderOf(m);
    assert Victims(w, m) == set d | d in order;
    if m.Send? {
      assert Make(w, m) == CloseNext(w.(queues := T.Enqueued(w, m.address, m.message)), m.task, order, []);
    } else {
      assert Make(w, m) == CloseNext(w, m.task, order, []);
    }
  }

  // ------------------------------------------------------------------ and nobody else

  /** Task `q` is a plain closing loop, or over, and has only `victims` to close. */
  predicate Confined(w: World, q: nat, base: set<Peer>, victims: set<Peer>) {
    && base <= w.closed <= base + victims
    && (q in w.tasks ==>
          match w.tasks[q]
          case Closing(todo, more) => more == [] && forall c | c in todo :: c in victims
          case Draining(rest, more) => more == [] && forall c | c in rest :: c in victims
          case _ => false)
  }

  lemma NextStaysConfined(w: World, q: nat, base: set<Peer>, victims: set<Peer>, todo: seq<Peer>)
    requires base <= w.closed <= base + victims && forall c | c in todo :: c in victims
    ensures Confined(CloseNext(w, q, todo, []), q, base, victims)
  {
  }

  lemma BodyStaysConfined(w: World, q: nat, base: set<Peer>, victims: set<Peer>, todo: seq<Peer>)
    requires base <= w.closed <= base + victims && todo != [] && forall c | c in todo :: c in victims
    ensures Confined(BodyTurn(w, q, todo[0], Draining(todo[1..], [])), q, base, victims)
  {
    TeardownIs(w, q, todo[0], Draining(todo[1..], []));
  }

  lemma ResumeStaysConfined(w: World, q: nat, base: set<Peer>, victims: set<Peer>)
    requires Confined(w, q, base, victims)
    ensures Confined(ResumeMove(w, q), q, base, victims)
  {
    if q in w.tasks {
      match w.tasks[q]
      case Closing(todo, _) =>
        if todo == [] {
          NextStaysConfined(w, q, base, victims, []);
        } else if todo[0] in w.closed {
          NextStaysConfined(w, q, base, victims, todo[1..]);
        } else {
          BodyStaysConfined(w, q, base, victims, todo);
        }
      case Draining(rest, _) => NextStaysConfined(w, q, base, victims, rest);
    }
  }

  function Resumes(q: nat, n: nat): seq<Move> {
    if n == 0 then [] else [Resume(q)] + Resumes(q, n - 1)
  }

  lemma {:induction false} ResumesCounted(q: nat, n: nat)
    ensures Resumptions(Resumes(q, n), q) == n && Cancel(q) !in Resumes(q, n)
  {
    if n > 0 {
      ResumesCounted(q, n - 1);
      assert Resumes(q, n)[1..] == Resumes(q, n - 1);
    }
  }

  lemma {:induction false} OwnRunStaysConfined(w: World, q: nat, n: nat, base: set<Peer>, victims: set<Peer>)
    requires Confined(w, q, base, victims)
    ensures Confined(Play(w, Resumes(q, n)), q, base, victims)
    decreases n
  {
    if n > 0 {
      ResumeStaysConfined(w, q, base, victims);
      OwnRunStaysConfined(ResumeMove(w, q), q, n - 1, base, victims);
      assert Resumes(q, n)[1..] == Resumes(q, n - 1);
    }
  }

  /** With nothing in between, a closing loop closes its victims and nobody else. */
  lemma LoopClosesExactly(w: World, m: Move, n: nat)
    requires BeginsLoop(w, m) && n >= 2 * |OrderOf(m)|
    ensures Play(Make(w, m), Resumes(m.task, n)).closed == w.closed + Victims(w, m)
  {
    var v := Make(w, m);
    LoopIsConfined(w, m);
    OwnRunStaysConfined(v, m.task, n, w.closed, Victims(w, m));
    ResumesCounted(m.task, n);
    forall c | c in Victims(w, m)
      ensures c in Play(v, Resumes(m.task, n)).closed
    {
      LoopsCloseTheirVictims(w, m, Resumes(m.task, n), c);
    }
  }

  lemma LoopIsConfined(w: World, m: Move)
    requires BeginsLoop(w, m)
    ensures Confined(Make(w, m), m.task, w.closed, Victims(w, m))
  {
    var order := OrderOf(m);
    assert Victims(w, m) == set d | d in order;
    var v := if m.Send? then w.(queues := T.Enqueued(w, m.address, m.message)) else w;
    assert Make(w, m) == CloseNext(v, m.task, order, []);
    NextStaysConfined(v, m.task, w.closed, Victims(w, m), order);
  }

  /** Kicking a principal closes every connection it had registered at that moment. */
  lemma KickClosesEverybody(w: World, q: nat, p: nat, order: seq<Peer>, moves: seq<Move>, c: Peer)
    requires WorldInv(w) && BeginsLoop(w, Kick(q, p, order)) && Cancel(q) !in moves
    requires c in Registered(w) && c.principal == p
    ensures var v := Play(Make(w, Kick(q, p, order)), moves);
            q !in v.tasks || Resumptions(moves, q) >= 2 * |order| ==> c in v.closed
  {
    BucketsHoldJoined(w, c);
    LoopsCloseTheirVictims(w, Kick(q, p, order), moves, c);
  }

  /** A re-check or heartbeat that gives a connection up has closed it after two resumptions. */
  lemma RecheckCloses(w: World, q: nat, c: Peer, moves: seq<Move>)
    requires q !in w.tasks && c in Registered(w) && Cancel(q) !in moves
    ensures var v := Play(Make(w, Expire(q, c)), moves);
            q !in v.tasks || Resumptions(moves, q) >= 2 ==> c in v.closed
  {
    LoopsCloseTheirVictims(w, Expire(q, c), moves, c);
  }
}
