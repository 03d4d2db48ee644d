/**
  The shutdown under interleaving: it walks the buckets it found at its start, and each bucket
  as it is when its turn comes (app/services/ws/manager.py).
*/
module TeardownShutdown {
  import opened Wrappers
  import opened Buckets
  import opened CM = ConnectionManager
  import opened T = Teardowns
  import opened Theorems = TeardownTheorems
  import opened Loops = TeardownLoops
  import opened Caps = TeardownCaps

  /** A bucket still to come had the connection at the start. */
  predicate InSnapshot(c: Peer, more: seq<Snapshot>) {
    exists b :: b in more && b.principal == c.principal && c in b.members
  }

  /** The connection is closed, or the shutdown `q` will still come to it. */
  predicate Due(w: World, q: nat, c: Peer) {
    || c in w.closed
    || (q in w.tasks &&
        match w.tasks[q]
        case Closing(todo, more) => c in todo || InSnapshot(c, more)
        case Draining(rest, more) => c in rest || InSnapshot(c, more)
        case Sweeping(more) => InSnapshot(c, more)
        case _ => false)
  }

  lemma CloseNextKeepsDue(w: World, q: nat, todo: seq<Peer>, more: seq<Snapshot>, c: Peer)
    requires c in w.closed || c in todo || InSnapshot(c, more)
    ensures Due(CloseNext(w, q, todo, more), q, c)
  {
  }

  lemma ResumeKeepsDue(w: World, q: nat, c: Peer)
    requires Due(w, q, c)
    ensures Due(ResumeMove(w, q), q, c)
  {
    if c !in w.closed {
      match w.tasks[q]
      case Closing(todo, more) =>
        if todo == [] {
          CloseNextKeepsDue(w, q, [], more, c);
        } else if todo[0] in w.closed {
          CloseNextKeepsDue(w, q, todo[1..], more, c);
        } else {
          assert ResumeMove(w, q) == BodyTurn(w, q, todo[0], Draining(todo[1..], more));
        }
      case Draining(rest, more) => CloseNextKeepsDue(w, q, rest, more, c);
      case Sweeping(_) =>
    }
  }

  lemma SweepKeepsDue(w: World, q: nat, order: seq<Peer>, c: Peer)
    requires WorldInv(w) && c in w.joined && Due(w, q, c)
    ensures Due(SweepMove(w, q, order), q, c)
  {
    if Sweeps(w, q, order) && c !in w.closed {
      var more := w.tasks[q].more;
      var b :| b in more && b.principal == c.principal && c in b.members;
      if b == more[0] {
        BucketsHoldJoined(w, c);
        assert c in (set d | d in order);
      } else {
        assert b in more[1..];
      }
      CloseNextKeepsDue(w, q, order, more[1..], c);
    }
  }

  lemma MoveKeepsDue(w: World, m: Move, q: nat, c: Peer)
    requires WorldInv(w) && c in w.joined && Due(w, q, c) && m != Cancel(q)
    ensures Due(Make(w, m), q, c)
  {
    if m == Resume(q) {
      ResumeKeepsDue(w, q, c);
    } else if m.Sweep? && m.task == q {
      SweepKeepsDue(w, q, m.order, c);
    } else {
      ClosedGrows(w, m);
      if c !in w.closed {
        OthersLeaveTask(w, m, q);
      }
    }
  }

  lemma JoinedGrows(w: World, m: Move)
    ensures w.joined <= Make(w, m).joined
  {
    match m
    case Resume(q) =>
    case Connect(_, _, _) =>
    case Drop(_, _) =>
    case _ => OtherMovesLeaveOwners(w, m);
  }

  lemma {:induction false} RunKeepsDue(w: World, moves: seq<Move>, q: nat, c: Peer)
    requires WorldInv(w) && c in w.joined && Due(w, q, c) && Cancel(q) !in moves
    ensures Due(Play(w, moves), q, c)
    decreases |moves|
  {
    if moves != [] {
      MoveKeepsInv(w, moves[0]);
      MoveKeepsDue(w, moves[0], q, c);
      JoinedGrows(w, moves[0]);
      RunKeepsDue(Make(w, moves[0]), moves[1..], q, c);
    }
  }

  /** A shutdown that ends without being cancelled has closed every connection registered when
      it began, whatever joins or leaves meanwhile. */
  lemma ShutdownClosesEverybody(w: World, q: nat, buckets: seq<Snapshot>, moves: seq<Move>, c: Peer)
    requires WorldInv(w) && q !in w.tasks && Snapshots(w, buckets) && Cancel(q) !in moves
    requires c in Registered(w)
    ensures var v := Play(Make(w, Shutdown(q, buckets)), moves);
            q !in v.tasks ==> c in v.closed
  {
    BucketsHoldJoined(w, c);
    assert c in Bucket(w.byPrincipal, c.principal);
    var b := Snapshot(c.principal, w.byPrincipal[c.principal]);
    assert b in buckets && c in b.members;
    CloseNextKeepsDue(w, q, [], buckets, c);
    MoveKeepsInv(w, Shutdown(q, buckets));
    RunKeepsDue(Make(w, Shutdown(q, buckets)), moves, q, c);
  }

  // ------------------------------------------------------------------ whoever joins meanwhile

  const BUCKETS := [Snapshot(1, {Tab(0)})]

  lemma OnlyBucket(w: World)
    requires WorldInv(w) && Registered(w) == {Tab(0)}
    ensures Snapshots(w, BUCKETS) && Bucket(w.byPrincipal, 1) == {Tab(0)}
  {
    forall p: nat
      ensures p in w.byPrincipal <==> p == 1
    {
      BucketIsOwned(w, p);
      BucketIsExact(ByPrincipalRel(Registered(w)), p, Tab(0));
      assert p != 1 ==> Owned(w, p) == {};
    }
    BucketIsOwned(w, 1);
    assert Owned(w, 1) == {Tab(0)};
  }

  lemma ShutdownBegins(w: World)
    requires Snapshots(w, BUCKETS) && 5 !in w.tasks
    ensures Make(w, Shutdown(5, BUCKETS)) == Continued(w, 5, Sweeping(BUCKETS))
  {
  }

  lemma ShutdownOpensBucket(w: World)
    requires 5 in w.tasks && w.tasks[5] == Sweeping(BUCKETS) && Bucket(w.byPrincipal, 1) == {Tab(0)}
    ensures Make(w, Sweep(5, [Tab(0)])) == Continued(w, 5, Closing([Tab(0)], []))
  {
    assert (set d | d in [Tab(0)]) == {Tab(0)};
    assert BUCKETS[1..] == [];
    assert Sweeps(w, 5, [Tab(0)]);
  }

  lemma ShutdownReachesTab()
    ensures var w := Make(Make(OneTab(), Shutdown(5, BUCKETS)), Sweep(5, [Tab(0)]));
            WorldInv(w) && w == OneTab().(tasks := map[5 := Closing([Tab(0)], [])])
  {
    OneTabIs();
    var w0 := OneTab();
    assert Registered(w0) == {Tab(0)};
    OnlyBucket(w0);
    ShutdownBegins(w0);
    var w1 := Make(w0, Shutdown(5, BUCKETS));
    ShutdownOpensBucket(w1);
    MoveKeepsInv(w0, Shutdown(5, BUCKETS));
    MoveKeepsInv(w1, Sweep(5, [Tab(0)]));
  }

  lemma TabIsTornDown(w: World)
    requires WorldInv(w) && w.tasks == map[5 := Closing([Tab(0)], [])] && w.closed == {} && w.joined == {Tab(0)}
    requires w.bySidCid == map[("s", "t") := Tab(0)] && w.started == {Tab(0)} && w.maxTotal == w.maxPerPrincipal == 1
    ensures var v := Make(w, Resume(5));
            && v.bySidCid == map[] && Registered(v) == {} && v.maxTotal == v.maxPerPrincipal == 1
            && v.closed == {Tab(0)} && v.joined == v.started == {Tab(0)} && v.tasks == map[5 := Draining([], [])]
  {
    assert [Tab(0)][1..] == [];
    assert Make(w, Resume(5)) == BodyTurn(w, 5, Tab(0), Draining([], []));
    BodyFreesTab(w, 5, Tab(0), Draining([], []));
    assert w.bySidCid - {("s", "t")} == map[];
  }

  lemma ShutdownEnds(w: World)
    requires w.tasks == map[5 := Draining([], [])]
    ensures Make(w, Resume(5)) == w.(tasks := map[])
  {
    assert Make(w, Resume(5)) == Ended(w, 5);
    assert w.tasks - {5} == map[];
  }

  /** A connection that registers while the shutdown waits for a socket stays open. */
  lemma ShutdownMissesNewcomer()
    ensures var w2 := Make(Make(OneTab(), Shutdown(5, BUCKETS)), Sweep(5, [Tab(0)]));
            var v := Make(Make(Make(w2, Resume(5)), Connect(3, OTHER, HELLO)), Resume(5));
            v.tasks == map[] && Registered(v) == {OTHER}
  {
    ShutdownReachesTab();
    OneTabIs();
    NewcomerJoins(OneTab().(tasks := map[5 := Closing([Tab(0)], [])]));
  }

  lemma NewcomerJoins(w: World)
    requires WorldInv(w) && w.tasks == map[5 := Closing([Tab(0)], [])] && w.closed == {} && w.joined == {Tab(0)}
    requires w.bySidCid == map[("s", "t") := Tab(0)] && w.started == {Tab(0)} && w.maxTotal == w.maxPerPrincipal == 1
    ensures var v := Make(Make(Make(w, Resume(5)), Connect(3, OTHER, HELLO)), Resume(5));
            v.tasks == map[] && Registered(v) == {OTHER}
  {
    TabIsTornDown(w);
    MoveKeepsInv(w, Resume(5));
    ThirdCrowdMove(Make(w, Resume(5)));
    ShutdownEnds(Make(Make(w, Resume(5)), Connect(3, OTHER, HELLO)));
  }
}
