/**
  The connection caps when coroutines interleave: the admission check counts what is
  registered, and a registration that waits for an old connection is not counted
  (app/api/routers/ws/router.py, app/services/ws/manager.py).
*/
module TeardownCaps {
  import opened Wrappers
  import opened Buckets
  import opened CM = ConnectionManager
  import opened T = Teardowns
  import opened Theorems = TeardownTheorems

  function Owned(w: World, p: nat): set<Peer> {
    set c | c in Registered(w) && c.principal == p
  }

  ghost predicate CapsHold(w: World) {
    |Registered(w)| <= w.maxTotal && forall p: nat :: |Owned(w, p)| <= w.maxPerPrincipal
  }

  /** The principal's bucket is what the admission check counts. */
  lemma BucketIsOwned(w: World, p: nat)
    requires WorldInv(w)
    ensures Bucket(w.byPrincipal, p) == Owned(w, p)
  {
    forall c
      ensures c in Bucket(w.byPrincipal, p) <==> c in Owned(w, p)
    {
      BucketsHoldJoined(w, c);
    }
  }

  /** A registration that has waited reaches its end when a cap is full again; nothing
      re-checks it. */
  predicate Overfills(w: World, m: Move) {
    m.Resume? && m.task in w.tasks &&
    match w.tasks[m.task]
    case Replacing(c, existing) => existing in w.closed && Filled(w, c)
    case Joining(c) => Filled(w, c)
    case _ => false
  }

  // ------------------------------------------------------------------ one move

  /** The caps look at these fields only. */
  lemma CapsFrame(w: World, v: World)
    requires Registered(v) == Registered(w) && v.maxTotal == w.maxTotal && v.maxPerPrincipal == w.maxPerPrincipal
    ensures CapsHold(v) <==> CapsHold(w)
  {
    assert forall p: nat :: Owned(v, p) == Owned(w, p);
  }

  lemma FewerKeepCaps(w: World, v: World)
    requires Registered(v) <= Registered(w) && v.maxTotal == w.maxTotal && v.maxPerPrincipal == w.maxPerPrincipal
    requires CapsHold(w)
    ensures CapsHold(v)
  {
    SubsetIsSmaller(Registered(v), Registered(w));
    forall p: nat
      ensures |Owned(v, p)| <= v.maxPerPrincipal
    {
      SubsetIsSmaller(Owned(v, p), Owned(w, p));
    }
  }

  lemma JoiningAndCaps(w: World, c: Peer)
    requires WorldInv(w) && CapsHold(w) && c !in w.joined
    ensures CapsHold(Join(w, c)) <==> !Filled(w, c)
  {
    BucketIsOwned(w, c.principal);
    JoiningCounts(w, c);
    forall p: nat
      ensures |Owned(w, p)| <= w.maxPerPrincipal
    {
    }
  }

  lemma JoiningCounts(w: World, c: Peer)
    requires WorldInv(w) && c !in w.joined
    ensures var v := Join(w, c);
            && |Registered(v)| == |Registered(w)| + 1
            && |Owned(v, c.principal)| == |Owned(w, c.principal)| + 1
            && (forall p: nat | p != c.principal :: Owned(v, p) == Owned(w, p))
  {
    var v := Join(w, c);
    assert Registered(v) == Registered(w) + {c} && c !in Registered(w);
    OneMoreOwned(w, v, c);
  }

  lemma OneMoreOwned(w: World, v: World, c: Peer)
    requires Registered(v) == Registered(w) + {c} && c !in Registered(w)
    ensures |Owned(v, c.principal)| == |Owned(w, c.principal)| + 1
    ensures forall p: nat | p != c.principal :: Owned(v, p) == Owned(w, p)
  {
    assert Owned(v, c.principal) == Owned(w, c.principal) + {c};
  }

  lemma BodyKeepsCaps(w: World, c: Peer)
    requires CapsHold(w)
    ensures CapsHold(TeardownBody(w, c))
  {
    FewerKeepCaps(w, TeardownBody(w, c));
  }

  lemma SchedulingKeepsCaps(w: World, v: World)
    requires v == w.(tasks := v.tasks)
    ensures CapsHold(v) <==> CapsHold(w)
  {
    CapsFrame(w, v);
  }

  lemma ReconnectOutcome(w: World, q: nat, c: Peer, welcome: Message)
    requires q !in w.tasks && c !in w.started && c.capacity >= 1
    requires HasTab(c) && TabOf(c) in w.bySidCid
    ensures var v := ConnectMove(w, q, c, welcome);
            && v.tasks == w.tasks[q := Replacing(c, w.bySidCid[TabOf(c)])] && v.queues == w.queues[c := [welcome]]
            && v.joined == w.joined && v.closed == w.closed
  {
  }

  lemma AdmissionOutcome(w: World, q: nat, c: Peer, welcome: Message)
    requires q !in w.tasks && c !in w.started && c.capacity >= 1
    requires !(HasTab(c) && TabOf(c) in w.bySidCid)
    ensures var v := ConnectMove(w, q, c, welcome);
            if Filled(w, c) then v == w
            else && v.tasks == w.tasks && v.queues == w.queues[c := [welcome]]
                 && v.joined == w.joined + {c} && v.closed == w.closed
  {
  }

  lemma FilledIff(w: World, c: Peer)
    requires WorldInv(w)
    ensures Filled(w, c) <==> |Registered(w)| >= w.maxTotal || |Owned(w, c.principal)| >= w.maxPerPrincipal
  {
    BucketIsOwned(w, c.principal);
  }

  /** A handshake of a new connection: a taken tab makes it wait for the old connection, room
      under both caps lets it join at once with its welcome queued, and otherwise nothing happens. */
  lemma NewcomerOutcome(w: World, q: nat, c: Peer, welcome: Message)
    requires WorldInv(w) && q !in w.tasks && c !in w.started && c.capacity >= 1
    ensures var v := Make(w, Connect(q, c, welcome));
            if HasTab(c) && TabOf(c) in w.bySidCid then
              && v.tasks == w.tasks[q := Replacing(c, w.bySidCid[TabOf(c)])] && v.queues == w.queues[c := [welcome]]
              && v.joined == w.joined && v.closed == w.closed
            else if |Registered(w)| < w.maxTotal && |Owned(w, c.principal)| < w.maxPerPrincipal then
              && v.tasks == w.tasks && v.queues == w.queues[c := [welcome]]
              && v.joined == w.joined + {c} && v.closed == w.closed
            else v == w
  {
    FilledIff(w, c);
    assert Make(w, Connect(q, c, welcome)) == ConnectMove(w, q, c, welcome);
    if HasTab(c) && TabOf(c) in w.bySidCid {
      ReconnectOutcome(w, q, c, welcome);
    } else {
      AdmissionOutcome(w, q, c, welcome);
    }
  }

  lemma ResumeAndCaps(w: World, q: nat)
    requires WorldInv(w) && CapsHold(w) && q in w.tasks
    ensures CapsHold(ResumeMove(w, q)) <==> !Overfills(w, Resume(q))
  {
    assert TaskOk(w, w.tasks[q]);
    match w.tasks[q]
    case Replacing(c, existing) =>
      if existing in w.closed {
        JoiningAndCaps(w, c);
        SchedulingKeepsCaps(Join(w, c), JoinTurn(w, q, c));
      } else {
        BodyKeepsCaps(w, existing);
        SchedulingKeepsCaps(TeardownBody(w, existing), BodyTurn(w, q, existing, Joining(c)));
      }
    case Joining(c) =>
      JoiningAndCaps(w, c);
      SchedulingKeepsCaps(Join(w, c), JoinTurn(w, q, c));
    case Closing(todo, more) =>
      if todo != [] && todo[0] !in w.closed {
        BodyKeepsCaps(w, todo[0]);
        SchedulingKeepsCaps(TeardownBody(w, todo[0]), BodyTurn(w, q, todo[0], Draining(todo[1..], more)));
      } else {
        SchedulingKeepsCaps(w, ResumeMove(w, q));
      }
    case Draining(rest, more) => SchedulingKeepsCaps(w, CloseNext(w, q, rest, more));
    case Sweeping(_) =>
  }

  lemma ConnectKeepsCaps(w: World, q: nat, c: Peer, welcome: Message)
    requires WorldInv(w) && CapsHold(w)
    ensures CapsHold(ConnectMove(w, q, c, welcome))
  {
    if Starts(w, q, c) {
      var v := Started(w, c, welcome);
      StartingKeepsInv(w, c, welcome);
      CapsFrame(w, v);
      if Exempt(w, c) {
        SchedulingKeepsCaps(v, Continued(v, q, Replacing(c, w.bySidCid[TabOf(c)])));
      } else {
        JoiningAndCaps(v, c);
      }
    }
  }

  lemma OtherMovesLeaveCaps(w: World, m: Move)
    requires !m.Connect? && !m.Resume? && !m.Drop?
    ensures Make(w, m).maxTotal == w.maxTotal && Make(w, m).maxPerPrincipal == w.maxPerPrincipal
  {
    if OnlySchedules(m) {
      SchedulingOnlyTouchesTasks(w, m);
    }
  }

  /** One move keeps both caps exactly when no waiting registration ends at a full cap. */
  lemma CapsStep(w: World, m: Move)
    requires WorldInv(w) && CapsHold(w)
    ensures CapsHold(Make(w, m)) <==> !Overfills(w, m)
  {
    match m
    case Resume(q) =>
      if q in w.tasks {
        ResumeAndCaps(w, q);
      }
    case Connect(q, c, welcome) => ConnectKeepsCaps(w, q, c, welcome);
    case Drop(q, c) =>
      if q !in w.tasks && c in Registered(w) {
        BodyKeepsCaps(w, c);
        SchedulingKeepsCaps(TeardownBody(w, c), BodyTurn(w, q, c, Draining([], [])));
      }
    case _ =>
      OtherMovesLeaveOwners(w, m);
      OtherMovesLeaveCaps(w, m);
      CapsFrame(w, Make(w, m));
  }

  // ------------------------------------------------------------------ a whole run

  ghost predicate AlwaysWithinCaps(w: World, moves: seq<Move>)
    decreases |moves|
  {
    CapsHold(w) && (moves != [] ==> AlwaysWithinCaps(Make(w, moves[0]), moves[1..]))
  }

  predicate NeverOverfills(w: World, moves: seq<Move>)
    decreases |moves|
  {
    moves != [] ==> !Overfills(w, moves[0]) && NeverOverfills(Make(w, moves[0]), moves[1..])
  }

  /** Over a whole interleaved run: both caps hold throughout if and only if no registration
      that waited ends while a cap it counts against is full. */
  lemma {:induction false} CapsIff(w: World, moves: seq<Move>)
    requires WorldInv(w) && CapsHold(w)
    ensures AlwaysWithinCaps(w, moves) <==> NeverOverfills(w, moves)
    decreases |moves|
  {
    if moves != [] {
      CapsStep(w, moves[0]);
      MoveKeepsInv(w, moves[0]);
      if !Overfills(w, moves[0]) {
        CapsIff(Make(w, moves[0]), moves[1..]);
      }
    }
  }

  // ------------------------------------------------------------------ with one owner per tab throughout

  const OTHER := Peer(2, 2, Some("u"), Some("t"), 8)

  /** A reconnect waits, its old connection drops, a third connection takes the free place:
      the reconnect joins over a total cap of 1, and every tab has its one owner throughout. */
  function Crowded(): seq<Move> {
    [Connect(1, Tab(1), HELLO), Drop(2, Tab(0)), Connect(3, OTHER, HELLO), Resume(1)]
  }

  lemma FirstCrowdMove()
    ensures var w := Make(OneTab(), Connect(1, Tab(1), HELLO));
            && WorldInv(w) && w.bySidCid == map[("s", "t") := Tab(0)] && w.maxTotal == w.maxPerPrincipal == 1
            && w.started == {Tab(0), Tab(1)} && w.closed == {} && w.joined == {Tab(0)}
            && w.tasks == map[1 := Replacing(Tab(1), Tab(0))]
  {
    OneTabIs();
    ReconnectWaits(OneTab(), 1, Tab(1));
  }

  lemma SecondCrowdMove(w: World)
    requires WorldInv(w) && w.bySidCid == map[("s", "t") := Tab(0)] && w.maxTotal == w.maxPerPrincipal == 1
    requires w.started == {Tab(0), Tab(1)} && w.closed == {} && w.joined == {Tab(0)}
    requires w.tasks == map[1 := Replacing(Tab(1), Tab(0))]
    ensures var v := Make(w, Drop(2, Tab(0)));
            && v.bySidCid == map[] && Registered(v) == {} && v.maxTotal == v.maxPerPrincipal == 1
            && v.closed == v.joined == {Tab(0)} && OTHER !in v.started
            && 1 in v.tasks && v.tasks[1] == Replacing(Tab(1), Tab(0)) && 3 !in v.tasks
  {
    DropFreesTab(w, 2, Tab(0));
    assert w.bySidCid - {("s", "t")} == map[];
  }

  lemma DropFreesTab(w: World, q: nat, c: Peer)
    requires q !in w.tasks && c in Registered(w) && Exempt(w, c) && w.bySidCid[TabOf(c)] == c
    ensures var v := Make(w, Drop(q, c));
            && v.bySidCid == w.bySidCid - {TabOf(c)} && v.closed == w.closed + {c} && v.joined == w.joined
            && v.started == w.started && v.tasks == w.tasks[q := Draining([], [])]
            && v.maxTotal == w.maxTotal && v.maxPerPrincipal == w.maxPerPrincipal
  {
    BodyFreesTab(w, q, c, Draining([], []));
  }

  lemma BodyFreesTab(w: World, q: nat, c: Peer, t: Task)
    requires Exempt(w, c) && w.bySidCid[TabOf(c)] == c
    ensures var v := BodyTurn(w, q, c, t);
            && v.bySidCid == w.bySidCid - {TabOf(c)} && v.closed == w.closed + {c} && v.joined == w.joined
            && v.started == w.started && v.tasks == w.tasks[q := t]
            && v.maxTotal == w.maxTotal && v.maxPerPrincipal == w.maxPerPrincipal
  {
    TeardownIs(w, q, c, t);
  }

  lemma ThirdCrowdMove(w: World)
    requires WorldInv(w) && w.bySidCid == map[] && Registered(w) == {} && w.maxTotal == w.maxPerPrincipal == 1
    requires OTHER !in w.started && 3 !in w.tasks
    ensures var v := Make(w, Connect(3, OTHER, HELLO));
            && v.bySidCid == map[("u", "t") := OTHER] && v.tasks == w.tasks && v.closed == w.closed
            && v.joined == w.joined + {OTHER} && v.maxTotal == 1
  {
    BucketIsOwned(w, 2);
    assert Owned(w, 2) == {};
    assert Starts(w, 3, OTHER) && !Exempt(w, OTHER);
    assert Make(w, Connect(3, OTHER, HELLO)) == Join(Started(w, OTHER, HELLO), OTHER);
  }

  lemma FourthCrowdMove(w: World)
    requires w.bySidCid == map[("u", "t") := OTHER] && w.closed == {Tab(0)} && w.joined == {Tab(0), OTHER}
    requires 1 in w.tasks && w.tasks[1] == Replacing(Tab(1), Tab(0))
    ensures !Overwrites(w, Resume(1))
    ensures Registered(Make(w, Resume(1))) == {OTHER, Tab(1)} && Make(w, Resume(1)).maxTotal == w.maxTotal
  {
    assert Make(w, Resume(1)) == JoinTurn(w, 1, Tab(1));
  }

  lemma CrowdIsOver()
    ensures var w := Play(OneTab(), Crowded());
            Registered(w) == {OTHER, Tab(1)} && w.maxTotal == 1 && NeverOverwrites(OneTab(), Crowded())
  {
    var a, b, c := Connect(1, Tab(1), HELLO), Drop(2, Tab(0)), Connect(3, OTHER, HELLO);
    FirstCrowdMove();
    SecondCrowdMove(Make(OneTab(), a));
    MoveKeepsInv(Make(OneTab(), a), b);
    ThirdCrowdMove(Make(Make(OneTab(), a), b));
    FourthCrowdMove(Make(Make(Make(OneTab(), a), b), c));
    FourMoves(OneTab(), a, b, c, Resume(1));
  }

  lemma CapExceeded()
    ensures AlwaysOneOwner(OneTab(), Crowded())
    ensures |Registered(Play(OneTab(), Crowded()))| == 2 && Play(OneTab(), Crowded()).maxTotal == 1
  {
    CrowdIsOver();
    OneTabIs();
    assert OneOwner(OneTab()) && Registered(OneTab()) == {Tab(0)};
    OneOwnerIff(OneTab(), Crowded());
  }

  lemma FourMoves(w: World, a: Move, b: Move, c: Move, d: Move)
    ensures Play(w, [a, b, c, d]) == Make(Make(Make(Make(w, a), b), c), d)
    ensures NeverOverwrites(w, [a, b, c, d]) <==>
              && !Overwrites(w, a) && !Overwrites(Make(w, a), b) && !Overwrites(Make(Make(w, a), b), c)
              && !Overwrites(Make(Make(Make(w, a), b), c), d)
  {
    PlayOne(w, a, [b, c, d]);
    PlayOne(Make(w, a), b, [c, d]);
    PlayOne(Make(Make(w, a), b), c, [d]);
    PlayOne(Make(Make(Make(w, a), b), c), d, []);
  }

  lemma PlayOne(w: World, m: Move, rest: seq<Move>)
    ensures Play(w, [m] + rest) == Play(Make(w, m), rest)
    ensures NeverOverwrites(w, [m] + rest) <==> !Overwrites(w, m) && NeverOverwrites(Make(w, m), rest)
  {
    assert ([m] + rest)[1..] == rest;
  }

  // ------------------------------------------------------------------ no bound

  /** Nothing is waiting, the tab is taken, and `n` connections of principal 1 are registered. */
  ghost predicate Loaded(w: World, n: nat) {
    && WorldInv(w) && w.tasks == map[] && ("s", "t") in w.bySidCid
    && |Registered(w)| == n && Owned(w, 1) == Registered(w)
  }

  lemma TwoReconnectsWait(w: World, b: Peer, c: Peer)
    requires WorldInv(w) && w.tasks == map[] && ("s", "t") in w.bySidCid
    requires b !in w.started && c !in w.started && b != c && b.capacity >= 1 && c.capacity >= 1
    requires HasTab(b) && HasTab(c) && TabOf(b) == TabOf(c) == ("s", "t")
    ensures var v := Make(Make(w, Connect(0, b, HELLO)), Connect(1, c, HELLO));
            var a := w.bySidCid[("s", "t")];
            && WorldInv(v) && v.tasks == map[0 := Replacing(b, a), 1 := Replacing(c, a)]
            && v.joined == w.joined && v.closed == w.closed
  {
    ReconnectWaits(w, 0, b);
    ReconnectWaits(Make(w, Connect(0, b, HELLO)), 1, c);
  }

  lemma PlayFive(w: World, a: Move, b: Move, c: Move, d: Move, e: Move) returns (moves: seq<Move>)
    ensures Play(w, moves) == Make(Make(Make(Make(Make(w, a), b), c), d), e)
  {
    moves := [a] + [b, c, d, e];
    PlayOne(w, a, [b, c, d, e]);
    FourMoves(Make(w, a), b, c, d, e);
  }

  lemma OneMoreCounted(w: World, v: World, n: nat, a: Peer, b: Peer, c: Peer)
    requires Loaded(w, n) && WorldInv(v) && v.tasks == map[] && ("s", "t") in v.bySidCid
    requires a in Registered(w) && b !in Registered(w) && c !in Registered(w) && b != c
    requires b.principal == c.principal == 1 && Registered(v) == Registered(w) - {a} + {b, c}
    ensures Loaded(v, n + 1)
  {
    assert Registered(w) - {a} + {b, c} == Registered(w) - {a} + {b} + {c};
    forall d | d in Registered(v)
      ensures d in Owned(v, 1)
    {
      assert d in Registered(w) ==> d in Owned(w, 1);
    }
    assert Owned(v, 1) == Registered(v);
  }

  /** Two reconnects of the tab that wait for the same connection leave one more than before. */
  lemma OneMoreOverTheCap(w: World, n: nat, b: Peer, c: Peer) returns (moves: seq<Move>)
    requires Loaded(w, n) && b !in w.started && c !in w.started && b != c
    requires b == Tab(b.id) && c == Tab(c.id)
    ensures Loaded(Play(w, moves), n + 1)
  {
    moves := PlayFive(w, Connect(0, b, HELLO), Connect(1, c, HELLO), Resume(0), Resume(0), Resume(1));
    PlayKeepsInv(w, moves);
    DoubleReconnect(w, b, c);
    OneMoreCounted(w, Play(w, moves), n, w.bySidCid[("s", "t")], b, c);
  }

  /** The five moves from two handshakes to two registered connections of one tab. */
  lemma DoubleReconnect(w: World, b: Peer, c: Peer)
    requires WorldInv(w) && w.tasks == map[] && ("s", "t") in w.bySidCid
    requires b !in w.started && c !in w.started && b != c && b.capacity >= 1 && c.capacity >= 1
    requires HasTab(b) && HasTab(c) && TabOf(b) == TabOf(c) == ("s", "t")
    ensures var w2 := Make(Make(w, Connect(0, b, HELLO)), Connect(1, c, HELLO));
            var v := Make(Make(Make(w2, Resume(0)), Resume(0)), Resume(1));
            && v.tasks == map[] && ("s", "t") in v.bySidCid && b !in w.joined && c !in w.joined
            && Registered(v) == Registered(w) - {w.bySidCid[("s", "t")]} + {b, c}
  {
    TwoReconnectsWait(w, b, c);
    BothReconnectsJoin(Make(Make(w, Connect(0, b, HELLO)), Connect(1, c, HELLO)), w.bySidCid[("s", "t")], b, c);
  }

  lemma BothReconnectsJoin(w: World, a: Peer, b: Peer, c: Peer)
    requires WorldInv(w) && w.tasks == map[0 := Replacing(b, a), 1 := Replacing(c, a)] && a !in w.closed
    requires HasTab(b) && HasTab(c) && TabOf(b) == TabOf(c)
    ensures var v := Make(Make(Make(w, Resume(0)), Resume(0)), Resume(1));
            && v.tasks == map[] && TabOf(b) in v.bySidCid && b !in w.joined && c !in w.joined
            && Registered(v) == Registered(w) - {a} + {b, c}
  {
    DoubleReplacement(w, 0, 1, a, b, c);
    assert w.tasks - {0} - {1} == map[];
  }

  lemma TwoNewPeers(w: World) returns (b: Peer, c: Peer)
    ensures b !in w.started && c !in w.started && b != c && b == Tab(b.id) && c == Tab(c.id)
  {
    var ids := set p | p in w.started :: p.id;
    var k := SomethingNew(ids);
    var l := SomethingNew(ids + {k});
    b, c := Tab(k), Tab(l);
  }

  lemma {:induction false} PlayAppend(w: World, a: seq<Move>, b: seq<Move>)
    ensures Play(w, a + b) == Play(Play(w, a), b)
    decreases |a|
  {
    if a == [] {
      assert a + b == b;
    } else {
      calc {
        Play(w, a + b);
        { assert a + b == [a[0]] + (a[1..] + b); PlayOne(w, a[0], a[1..] + b); }
        Play(Make(w, a[0]), a[1..] + b);
        { PlayAppend(Make(w, a[0]), a[1..], b); }
        Play(Play(Make(w, a[0]), a[1..]), b);
      }
    }
  }

  lemma {:induction false} LoadGrows(n: nat) returns (moves: seq<Move>)
    ensures Loaded(Play(OneTab(), moves), n + 1)
  {
    if n == 0 {
      moves := [];
      OneTabIs();
      assert Registered(OneTab()) == {Tab(0)} && Owned(OneTab(), 1) == {Tab(0)};
    } else {
      var before := LoadGrows(n - 1);
      var b, c := TwoNewPeers(Play(OneTab(), before));
      var more := OneMoreOverTheCap(Play(OneTab(), before), n, b, c);
      PlayAppend(OneTab(), before, more);
      moves := before + more;
    }
  }

  /** The caps bound nothing by themselves: with both at 1, any number of connections of one
      principal can end up registered, with nothing left waiting. */
  lemma CapsHaveNoBound(n: nat)
    ensures exists moves: seq<Move> :: Loaded(Play(OneTab(), moves), n + 1)
    ensures OneTab().maxTotal == OneTab().maxPerPrincipal == 1
  {
    var moves := LoadGrows(n);
    assert Loaded(Play(OneTab(), moves), n + 1);
  }
}
