/**
  What survives when the manager's coroutines interleave at socket closes, and the two
  guarantees that do not, each with the exact move that breaks it.
*/
module TeardownTheorems {
  import opened Wrappers
  import opened Buckets
  import opened CM = ConnectionManager
  import opened T = Teardowns

  lemma PlayedWorldInv(maxTotal: nat, maxPerPrincipal: nat, moves: seq<Move>)
    ensures WorldInv(Play(Empty(maxTotal, maxPerPrincipal), moves))
  {
    var w := Empty(maxTotal, maxPerPrincipal);
    assert ByPrincipalRel(Registered(w)) == {} && BySidRel(Registered(w)) == {};
    assert WorldInv(w);
    PlayKeepsInv(w, moves);
  }

  /** After any interleaving, cancellations included, the teardown body of a connection has
      run once if the connection is closed and never otherwise. */
  lemma TeardownRunsAtMostOnce(maxTotal: nat, maxPerPrincipal: nat, moves: seq<Move>, c: Peer)
    ensures var w := Play(Empty(maxTotal, maxPerPrincipal), moves);
            w.bodies[c] == if c in w.closed then 1 else 0
  {
    PlayedWorldInv(maxTotal, maxPerPrincipal, moves);
  }

  /** After any interleaving the principal index and the session index hold exactly the
      connections that have joined and not closed, and every tab entry points to one. */
  lemma ClosedConnectionsLeaveTheIndexes(maxTotal: nat, maxPerPrincipal: nat, moves: seq<Move>, c: Peer)
    ensures var w := Play(Empty(maxTotal, maxPerPrincipal), moves);
            && (forall p :: c in Bucket(w.byPrincipal, p) <==> c in w.joined && c !in w.closed && c.principal == p)
            && (forall sid :: c in Bucket(w.bySid, sid) <==> c in w.joined && c !in w.closed && c.sid == Some(sid))
            && (forall k | k in w.bySidCid && w.bySidCid[k] == c ::
                  c in w.joined && c !in w.closed && c.sid == Some(k.0) && c.cid == Some(k.1))
            && (forall p | p in w.byPrincipal :: w.byPrincipal[p] != {})
            && (forall sid | sid in w.bySid :: w.bySid[sid] != {})
  {
    PlayedWorldInv(maxTotal, maxPerPrincipal, moves);
    var w := Play(Empty(maxTotal, maxPerPrincipal), moves);
    BucketsHoldJoined(w, c);
    forall p | p in w.byPrincipal
      ensures w.byPrincipal[p] != {}
    {
      BucketIsExact(ByPrincipalRel(Registered(w)), p, c);
    }
    forall sid | sid in w.bySid
      ensures w.bySid[sid] != {}
    {
      BucketIsExact(BySidRel(Registered(w)), sid, c);
    }
  }

  lemma ResumingLeavesQueues(w: World, q: nat)
    ensures ResumeMove(w, q).queues == w.queues
  {
  }

  predicate OnlySchedules(m: Move) {
    m.Cancel? || m.Kick? || m.KickSid? || m.Expire? || m.Shutdown? || m.Sweep?
  }

  lemma SchedulingOnlyTouchesTasks(w: World, m: Move)
    requires OnlySchedules(m)
    ensures Make(w, m) == w.(tasks := Make(w, m).tasks)
  {
  }

  lemma OtherMovesLeaveQueues(w: World, m: Move)
    requires !m.Connect? && !m.Send? && !m.WriterTake? && !m.Resume?
    ensures Make(w, m).queues == w.queues
  {
  }

  lemma SendLeavesClosedQueues(w: World, q: nat, a: Address, message: Message, order: seq<Peer>, c: Peer)
    requires c in w.queues && c in w.closed
    ensures c in Make(w, Send(q, a, message, order)).queues
    ensures Make(w, Send(q, a, message, order)).queues[c] == w.queues[c]
  {
  }

  lemma ClosedQueueOnlyShrinks(w: World, m: Move, c: Peer)
    requires c in w.queues && c in w.closed && c in w.started
    ensures c in Make(w, m).queues
    ensures Make(w, m).queues[c] == w.queues[c]
         || (w.queues[c] != [] && Make(w, m).queues[c] == w.queues[c][1..])
  {
    match m
    case Connect(_, _, _) =>
    case WriterTake(_) =>
    case Send(q, a, message, order) => SendLeavesClosedQueues(w, q, a, message, order, c);
    case Resume(q) => ResumingLeavesQueues(w, q);
    case _ => OtherMovesLeaveQueues(w, m);
  }

  /** Nothing is ever put on the queue of a closed connection, and no queue outgrows its bound. */
  lemma NothingIsQueuedAfterClose(maxTotal: nat, maxPerPrincipal: nat, moves: seq<Move>, m: Move, c: Peer)
    requires c in Play(Empty(maxTotal, maxPerPrincipal), moves).closed
    ensures var w := Play(Empty(maxTotal, maxPerPrincipal), moves);
            var v := Make(w, m);
            && c in w.queues && c in v.queues && |v.queues[c]| <= c.capacity
            && (v.queues[c] == w.queues[c] || (w.queues[c] != [] && v.queues[c] == w.queues[c][1..]))
  {
    var w := Play(Empty(maxTotal, maxPerPrincipal), moves);
    PlayedWorldInv(maxTotal, maxPerPrincipal, moves);
    assert c in w.joined && c in w.started;
    MoveKeepsInv(w, m);
    ClosedQueueOnlyShrinks(w, m, c);
    assert Sane(Make(w, m));
  }

  // ------------------------------------------------------------------ delivery

  /** Whom a message is for, in terms of the connection itself. */
  predicate IsFor(w: World, a: Address, c: Peer) {
    match a
    case ToPrincipal(p) => c.principal == p
    case ToTopic(t) => c in w.subscriptions && t in w.subscriptions[c]
    case ToAll => true
    case ToOne(d) => c == d
  }

  /** The registered addressees whose queues are full. */
  predicate TooSlow(w: World, a: Address, c: Peer) {
    c in Registered(w) && IsFor(w, a, c) && c in w.queues && |w.queues[c]| >= c.capacity
  }

  lemma TargetsAre(w: World, a: Address, c: Peer)
    requires WorldInv(w) && c in Registered(w)
    ensures c in Targets(w, a) <==> IsFor(w, a, c)
  {
    BucketsHoldJoined(w, c);
    match a
    case ToPrincipal(p) =>
    case ToTopic(t) =>
    case ToAll => assert c in Bucket(w.byPrincipal, c.principal);
    case ToOne(d) =>
  }

  /** A delivery tears down exactly the registered addressees that are too slow. */
  lemma OverflowIs(w: World, a: Address, c: Peer)
    requires WorldInv(w) && (a.ToOne? ==> a.conn in w.joined)
    ensures c in Overflow(w, a) <==> TooSlow(w, a, c)
  {
    if c in Targets(w, a) {
      TargetsHaveJoined(w, a, c);
    }
    if c in Registered(w) {
      TargetsAre(w, a, c);
    }
  }

  /** The delivery can begin: its task is new, and `order` lists whom it will have to close. */
  ghost predicate Delivers(w: World, m: Move) {
    && m.Send? && m.task !in w.tasks && (m.address.ToOne? ==> m.address.conn in w.joined)
    && (forall c :: c in m.order <==> TooSlow(w, m.address, c))
    && (forall i, j | 0 <= i < j < |m.order| :: m.order[i] != m.order[j])
  }

  lemma SendBeginsIff(w: World, m: Move)
    requires WorldInv(w) && m.Send? && m.task !in w.tasks && (m.address.ToOne? ==> m.address.conn in w.joined)
    ensures Delivers(w, m) <==> Enumerates(m.order, Overflow(w, m.address))
  {
    forall c
      ensures c in Overflow(w, m.address) <==> TooSlow(w, m.address, c)
    {
      OverflowIs(w, m.address, c);
    }
  }

  lemma SendQueues(w: World, m: Move, c: Peer)
    requires WorldInv(w) && m.Send? && c in Registered(w)
    ensures c in Make(w, m).queues && c in w.queues
    ensures Make(w, m).queues[c] ==
              if Delivers(w, m) && IsFor(w, m.address, c) && |w.queues[c]| < c.capacity
              then w.queues[c] + [m.message] else w.queues[c]
  {
    TargetsAre(w, m.address, c);
    assert Make(w, m) == SendMove(w, m.task, m.address, m.message, m.order);
    if m.task !in w.tasks && (m.address.ToOne? ==> m.address.conn in w.joined) {
      SendBeginsIff(w, m);
    }
  }

  lemma ConnectLeavesQueues(w: World, m: Move, c: Peer)
    requires m.Connect? && c in w.queues && c in w.started
    ensures c in Make(w, m).queues && Make(w, m).queues[c] == w.queues[c]
  {
    assert Make(w, m) == ConnectMove(w, m.task, m.conn, m.welcome);
  }

  lemma WriterTakesOldest(w: World, m: Move, c: Peer)
    requires m.WriterTake? && c in w.queues && c in w.joined
    ensures c in Make(w, m).queues
    ensures Make(w, m).queues[c] == if m.conn == c && w.queues[c] != [] then w.queues[c][1..] else w.queues[c]
  {
  }

  lemma QueuedWhileRegistered(w: World, c: Peer)
    requires WorldInv(w) && c in Registered(w)
    ensures c in w.queues && c in w.started && c in w.joined
  {
  }

  /** What one move does to the queue of a registered connection: a delivery appends its message
      once to each addressee with room, the writer takes the oldest, nothing else touches it. */
  lemma QueueStep(w: World, m: Move, c: Peer)
    requires WorldInv(w) && c in Registered(w)
    ensures c in Make(w, m).queues && c in w.queues
    ensures Make(w, m).queues[c] ==
              if Delivers(w, m) && IsFor(w, m.address, c) && |w.queues[c]| < c.capacity
              then w.queues[c] + [m.message]
              else if m == WriterTake(c) && w.queues[c] != [] then w.queues[c][1..]
              else w.queues[c]
  {
    QueuedWhileRegistered(w, c);
    if m.Send? {
      SendQueues(w, m, c);
    } else if m.Connect? {
      ConnectLeavesQueues(w, m, c);
    } else if m.WriterTake? {
      WriterTakesOldest(w, m, c);
    } else if m.Resume? {
      ResumingLeavesQueues(w, m.task);
    } else {
      OtherMovesLeaveQueues(w, m);
    }
  }

  // ------------------------------------------------------------------ one owner per tab

  /** Every registered connection of a tab is the one its tab entry names. */
  ghost predicate OneOwner(w: World) {
    forall c | c in Registered(w) && HasTab(c) :: TabOf(c) in w.bySidCid && w.bySidCid[TabOf(c)] == c
  }

  /** A registration that waited for the old connection to close finds the tab taken again
      and overwrites the entry, which nothing re-checks. */
  predicate Overwrites(w: World, m: Move) {
    m.Resume? && m.task in w.tasks &&
    match w.tasks[m.task]
    case Replacing(c, existing) => existing in w.closed && HasTab(c) && TabOf(c) in w.bySidCid
    case Joining(c) => HasTab(c) && TabOf(c) in w.bySidCid
    case _ => false
  }

  lemma JoiningAndOwners(w: World, c: Peer)
    requires WorldInv(w) && OneOwner(w) && Fresh(w, c)
    ensures OneOwner(Join(w, c)) <==> !(HasTab(c) && TabOf(c) in w.bySidCid)
  {
  }

  lemma BodyKeepsOneOwner(w: World, c: Peer)
    requires WorldInv(w) && OneOwner(w) && c in Registered(w)
    ensures OneOwner(TeardownBody(w, c))
  {
  }

  /** `OneOwner` looks at these three fields only. */
  lemma OneOwnerFrame(w: World, v: World)
    requires v.joined == w.joined && v.closed == w.closed && v.bySidCid == w.bySidCid
    ensures OneOwner(v) <==> OneOwner(w)
  {
  }

  lemma RegistrationEndAndOwners(w: World, q: nat, c: Peer)
    requires WorldInv(w) && OneOwner(w) && q in w.tasks && Registers(w.tasks[q], c)
    ensures OneOwner(JoinTurn(w, q, c)) <==> !(HasTab(c) && TabOf(c) in w.bySidCid)
  {
    assert TaskOk(w, w.tasks[q]);
    JoiningAndOwners(w, c);
    OneOwnerFrame(Join(w, c), JoinTurn(w, q, c));
  }

  lemma BodyTurnKeepsOneOwner(w: World, q: nat, c: Peer, t: Task)
    requires WorldInv(w) && OneOwner(w) && c in Registered(w)
    ensures OneOwner(BodyTurn(w, q, c, t))
  {
  }

  lemma CloseNextKeepsOneOwner(w: World, q: nat, todo: seq<Peer>, more: seq<Snapshot>)
    requires OneOwner(w)
    ensures OneOwner(CloseNext(w, q, todo, more))
  {
  }

  lemma ResumeAndOwners(w: World, q: nat)
    requires WorldInv(w) && OneOwner(w) && q in w.tasks
    ensures OneOwner(ResumeMove(w, q)) <==> !Overwrites(w, Resume(q))
  {
    assert TaskOk(w, w.tasks[q]);
    match w.tasks[q]
    case Replacing(c, existing) =>
      if existing in w.closed {
        RegistrationEndAndOwners(w, q, c);
      } else {
        BodyTurnKeepsOneOwner(w, q, existing, Joining(c));
      }
    case Joining(c) => RegistrationEndAndOwners(w, q, c);
    case Closing(todo, more) =>
      if todo == [] {
        CloseNextKeepsOneOwner(w, q, [], more);
      } else if todo[0] in w.closed {
        CloseNextKeepsOneOwner(w, q, todo[1..], more);
      } else {
        BodyTurnKeepsOneOwner(w, q, todo[0], Draining(todo[1..], more));
      }
    case Draining(rest, more) => CloseNextKeepsOneOwner(w, q, rest, more);
    case Sweeping(_) =>
  }

  lemma JoiningAFreeTab(w: World, c: Peer)
    requires OneOwner(w) && !Exempt(w, c)
    ensures OneOwner(Join(w, c))
  {
    forall d | d in Registered(Join(w, c)) && HasTab(d) && d != c
      ensures TabOf(d) in w.bySidCid && w.bySidCid[TabOf(d)] == d
    {
      assert d in Registered(w);
    }
  }

  lemma ConnectAndOwners(w: World, q: nat, c: Peer, welcome: Message)
    requires OneOwner(w)
    ensures OneOwner(ConnectMove(w, q, c, welcome))
  {
    if Starts(w, q, c) {
      var v := Started(w, c, welcome);
      OneOwnerFrame(w, v);
      if Exempt(w, c) {
        OneOwnerFrame(v, ConnectMove(w, q, c, welcome));
      } else {
        JoiningAFreeTab(v, c);
      }
    }
  }

  lemma SendLeavesOwners(w: World, m: Move)
    requires m.Send?
    ensures Make(w, m).joined == w.joined && Make(w, m).closed == w.closed && Make(w, m).bySidCid == w.bySidCid
  {
    assert Make(w, m) == SendMove(w, m.task, m.address, m.message, m.order);
  }

  lemma SubscriptionsLeaveOwners(w: World, m: Move)
    requires m.Subscribe? || m.Unsubscribe? || m.WriterTake?
    ensures Make(w, m).joined == w.joined && Make(w, m).closed == w.closed && Make(w, m).bySidCid == w.bySidCid
  {
  }

  lemma OtherMovesLeaveOwners(w: World, m: Move)
    requires !m.Connect? && !m.Resume? && !m.Drop?
    ensures Make(w, m).joined == w.joined && Make(w, m).closed == w.closed && Make(w, m).bySidCid == w.bySidCid
  {
    if OnlySchedules(m) {
      SchedulingOnlyTouchesTasks(w, m);
    } else if m.Send? {
      SendLeavesOwners(w, m);
    } else {
      SubscriptionsLeaveOwners(w, m);
    }
  }

  lemma OwnersStep(w: World, m: Move)
    requires WorldInv(w) && OneOwner(w)
    ensures OneOwner(Make(w, m)) <==> !Overwrites(w, m)
  {
    match m
    case Resume(q) =>
      if q in w.tasks {
        ResumeAndOwners(w, q);
      }
    case Connect(q, c, welcome) => ConnectAndOwners(w, q, c, welcome);
    case Drop(q, c) =>
      if q !in w.tasks && c in Registered(w) {
        BodyKeepsOneOwner(w, c);
        OneOwnerFrame(TeardownBody(w, c), Make(w, m));
      }
    case _ =>
      OtherMovesLeaveOwners(w, m);
      OneOwnerFrame(w, Make(w, m));
  }

  predicate NeverOverwrites(w: World, moves: seq<Move>)
    decreases |moves|
  {
    moves != [] ==> !Overwrites(w, moves[0]) && NeverOverwrites(Make(w, moves[0]), moves[1..])
  }

  ghost predicate AlwaysOneOwner(w: World, moves: seq<Move>)
    decreases |moves|
  {
    OneOwner(w) && (moves != [] ==> AlwaysOneOwner(Make(w, moves[0]), moves[1..]))
  }

  /** Over a whole interleaved run: each tab keeps a single owner if and only if no waiting
      registration finds its tab taken when it resumes. */
  lemma {:induction false} OneOwnerIff(w: World, moves: seq<Move>)
    requires WorldInv(w) && OneOwner(w)
    ensures AlwaysOneOwner(w, moves) <==> NeverOverwrites(w, moves)
    decreases |moves|
  {
    if moves != [] {
      OwnersStep(w, moves[0]);
      MoveKeepsInv(w, moves[0]);
      if !Overwrites(w, moves[0]) {
        OneOwnerIff(Make(w, moves[0]), moves[1..]);
      }
    }
  }

  /** Two reconnects `b` and `c` of the tab of `a`, both waiting for `a` to close: once both
      have been resumed to their end, both are registered although they share the tab. */
  lemma DoubleReplacement(w: World, q: nat, r: nat, a: Peer, b: Peer, c: Peer)
    requires WorldInv(w) && q in w.tasks && r in w.tasks && q != r
    requires w.tasks[q] == Replacing(b, a) && w.tasks[r] == Replacing(c, a) && a !in w.closed
    requires HasTab(b) && HasTab(c) && TabOf(b) == TabOf(c)
    ensures var v := Make(Make(Make(w, Resume(q)), Resume(q)), Resume(r));
            && b != c && b in Registered(v) && c in Registered(v) && !OneOwner(v)
            && v.tasks == w.tasks - {q} - {r} && v.started == w.started
            && Registered(v) == Registered(w) - {a} + {b, c} && b !in w.joined && c !in w.joined
            && TabOf(b) in v.bySidCid && v.bySidCid[TabOf(b)] == c
  {
    assert TaskOk(w, w.tasks[r]) && Registers(w.tasks[q], b) && Registers(w.tasks[r], c);
    var w2 := Make(Make(w, Resume(q)), Resume(q));
    FirstReplacementEnds(w, q, a, b);
    SecondReplacementEnds(w2, r, a, c);
    OneOutTwoIn(w, Make(w2, Resume(r)), a, b, c);
  }

  lemma OneOutTwoIn(w: World, v: World, a: Peer, b: Peer, c: Peer)
    requires Sane(w) && b !in w.joined && c !in w.joined && a in w.joined && b != c
    requires v.joined == w.joined + {b} + {c} && v.closed == w.closed + {a}
    requires HasTab(b) && HasTab(c) && TabOf(b) == TabOf(c)
    ensures Registered(v) == Registered(w) - {a} + {b, c} && !OneOwner(v)
  {
    assert b in Registered(v) && c in Registered(v);
  }

  /** One reconnect resumed twice: the old connection is torn down, the new one has joined. */
  lemma FirstReplacementEnds(w: World, q: nat, a: Peer, b: Peer)
    requires WorldInv(w) && q in w.tasks && w.tasks[q] == Replacing(b, a) && a !in w.closed && HasTab(b)
    ensures var v := Make(Make(w, Resume(q)), Resume(q));
            && v.tasks == w.tasks - {q} && v.started == w.started
            && v.closed == w.closed + {a} && v.joined == w.joined + {b}
    ensures b !in w.joined && b != a
  {
    assert TaskOk(w, w.tasks[q]);
    TeardownIs(w, q, a, Joining(b));
    JoinIs(Make(w, Resume(q)), q, b);
    assert w.tasks[q := Joining(b)] - {q} == w.tasks - {q};
  }

  lemma TeardownIs(w: World, q: nat, a: Peer, t: Task)
    ensures var v := BodyTurn(w, q, a, t);
            && v.tasks == w.tasks[q := t] && v.started == w.started && v.joined == w.joined
            && v.maxTotal == w.maxTotal && v.maxPerPrincipal == w.maxPerPrincipal
  {
  }

  lemma JoinIs(w: World, q: nat, c: Peer)
    ensures var v := JoinTurn(w, q, c);
            && v.tasks == w.tasks - {q} && v.started == w.started && v.joined == w.joined + {c}
            && (HasTab(c) ==> TabOf(c) in v.bySidCid && v.bySidCid[TabOf(c)] == c)
  {
  }

  /** The other one finds the old connection closed and joins at once. */
  lemma SecondReplacementEnds(w: World, r: nat, a: Peer, c: Peer)
    requires r in w.tasks && w.tasks[r] == Replacing(c, a) && a in w.closed && HasTab(c)
    ensures var v := Make(w, Resume(r));
            && v.tasks == w.tasks - {r} && v.started == w.started
            && v.closed == w.closed && v.joined == w.joined + {c}
            && TabOf(c) in v.bySidCid && v.bySidCid[TabOf(c)] == c
  {
    JoinIs(w, r, c);
  }

  const HELLO: Message := Message(WELCOME, "")

  function Tab(id: nat): Peer {
    Peer(id, 1, Some("s"), Some("t"), 8)
  }

  function OneTab(): World {
    Make(Empty(1, 1), Connect(0, Tab(0), HELLO))
  }

  lemma OneTabIs()
    ensures OneTab().bySidCid == map[("s", "t") := Tab(0)]
    ensures OneTab().started == OneTab().joined == {Tab(0)} && OneTab().tasks == map[] && OneTab().closed == {}
    ensures OneTab().maxTotal == OneTab().maxPerPrincipal == 1
    ensures WorldInv(OneTab())
  {
    PlayedWorldInv(1, 1, []);
    MoveKeepsInv(Empty(1, 1), Connect(0, Tab(0), HELLO));
  }

  /** A reconnect that finds its tab taken waits for the old connection to close. */
  lemma ReconnectWaits(w: World, q: nat, c: Peer)
    requires WorldInv(w) && q !in w.tasks && c !in w.started && c.capacity >= 1
    requires HasTab(c) && TabOf(c) in w.bySidCid
    ensures var v := Make(w, Connect(q, c, HELLO));
            && WorldInv(v) && v.tasks == w.tasks[q := Replacing(c, w.bySidCid[TabOf(c)])]
            && v.bySidCid == w.bySidCid && v.started == w.started + {c} && v.closed == w.closed && v.joined == w.joined
            && v.maxTotal == w.maxTotal && v.maxPerPrincipal == w.maxPerPrincipal
  {
    MoveKeepsInv(w, Connect(q, c, HELLO));
  }

  /** The situation arises: one open connection, then two reconnects of its tab. */
  lemma DoubleReplacementArises()
    ensures var w := Make(Make(OneTab(), Connect(1, Tab(1), HELLO)), Connect(2, Tab(2), HELLO));
            && WorldInv(w) && w.tasks == map[1 := Replacing(Tab(1), Tab(0)), 2 := Replacing(Tab(2), Tab(0))]
            && Tab(0) !in w.closed
  {
    OneTabIs();
    ReconnectWaits(OneTab(), 1, Tab(1));
    ReconnectWaits(Make(OneTab(), Connect(1, Tab(1), HELLO)), 2, Tab(2));
  }

  // ------------------------------------------------------------------ the topic index

  /** No closed connection sits in a topic bucket. */
  predicate TopicIndexClean(w: World) {
    forall t | t in w.byTopic :: w.byTopic[t] !! w.closed
  }

  /** The receive loop handles one more subscribe for a connection that was torn down. */
  predicate SubscribesClosed(w: World, m: Move) {
    m.Subscribe? && m.conn in w.closed
  }

  lemma BodyKeepsTopicIndexClean(w: World, c: Peer)
    requires WorldInv(w) && TopicIndexClean(w)
    ensures TopicIndexClean(TeardownBody(w, c))
  {
    BodyKeepsTopics(w, c);
    var v := TeardownBody(w, c);
    forall t, d | t in v.byTopic && d in v.byTopic[t]
      ensures d !in v.closed
    {
      assert d in Bucket(v.byTopic, t);
      assert d in Bucket(w.byTopic, t);
    }
  }

  lemma TopicIndexFrame(w: World, v: World)
    requires v.byTopic == w.byTopic && v.closed == w.closed
    ensures TopicIndexClean(v) <==> TopicIndexClean(w)
  {
  }

  lemma BodyTurnKeepsTopicIndexClean(w: World, q: nat, c: Peer, t: Task)
    requires WorldInv(w) && TopicIndexClean(w)
    ensures TopicIndexClean(BodyTurn(w, q, c, t))
  {
    BodyKeepsTopicIndexClean(w, c);
    TopicIndexFrame(TeardownBody(w, c), BodyTurn(w, q, c, t));
  }

  lemma CloseNextKeepsTopicIndexClean(w: World, q: nat, todo: seq<Peer>, more: seq<Snapshot>)
    requires TopicIndexClean(w)
    ensures TopicIndexClean(CloseNext(w, q, todo, more))
  {
  }

  lemma RegistrationEndKeepsTopicIndexClean(w: World, q: nat, c: Peer)
    requires TopicIndexClean(w)
    ensures TopicIndexClean(JoinTurn(w, q, c))
  {
  }

  lemma ResumeKeepsTopicIndexClean(w: World, q: nat)
    requires WorldInv(w) && TopicIndexClean(w) && q in w.tasks
    ensures TopicIndexClean(ResumeMove(w, q))
  {
    match w.tasks[q]
    case Replacing(c, existing) =>
      if existing in w.closed {
        RegistrationEndKeepsTopicIndexClean(w, q, c);
      } else {
        BodyTurnKeepsTopicIndexClean(w, q, existing, Joining(c));
      }
    case Joining(c) => RegistrationEndKeepsTopicIndexClean(w, q, c);
    case Closing(todo, more) =>
      if todo == [] {
        CloseNextKeepsTopicIndexClean(w, q, [], more);
      } else if todo[0] in w.closed {
        CloseNextKeepsTopicIndexClean(w, q, todo[1..], more);
      } else {
        BodyTurnKeepsTopicIndexClean(w, q, todo[0], Draining(todo[1..], more));
      }
    case Draining(rest, more) => CloseNextKeepsTopicIndexClean(w, q, rest, more);
    case Sweeping(_) =>
  }

  lemma SubscribeAndTopicIndex(w: World, c: Peer, t: Topic)
    requires WorldInv(w) && TopicIndexClean(w)
    ensures TopicIndexClean(Make(w, Subscribe(c, t))) <==> c !in w.closed
  {
    if c in w.closed {
      assert c in w.joined && c in Make(w, Subscribe(c, t)).byTopic[t];
    }
  }

  lemma UnsubscribeKeepsTopicIndexClean(w: World, c: Peer, t: Topic)
    requires TopicIndexClean(w)
    ensures TopicIndexClean(Make(w, Unsubscribe(c, t)))
  {
  }

  lemma OtherMovesLeaveTopicIndex(w: World, m: Move)
    requires !m.Resume? && !m.Drop? && !m.Subscribe? && !m.Unsubscribe?
    ensures Make(w, m).byTopic == w.byTopic && Make(w, m).closed == w.closed
  {
  }

  lemma TopicIndexStep(w: World, m: Move)
    requires WorldInv(w) && TopicIndexClean(w)
    ensures TopicIndexClean(Make(w, m)) <==> !SubscribesClosed(w, m)
  {
    match m
    case Resume(q) =>
      if q in w.tasks {
        ResumeKeepsTopicIndexClean(w, q);
      }
    case Drop(q, c) =>
      if q !in w.tasks && c in Registered(w) {
        BodyKeepsTopicIndexClean(w, c);
        TopicIndexFrame(TeardownBody(w, c), Make(w, m));
      }
    case Subscribe(c, t) => SubscribeAndTopicIndex(w, c, t);
    case Unsubscribe(c, t) => UnsubscribeKeepsTopicIndexClean(w, c, t);
    case _ =>
      OtherMovesLeaveTopicIndex(w, m);
      TopicIndexFrame(w, Make(w, m));
  }

  predicate NeverSubscribesClosed(w: World, moves: seq<Move>)
    decreases |moves|
  {
    moves != [] ==> !SubscribesClosed(w, moves[0]) && NeverSubscribesClosed(Make(w, moves[0]), moves[1..])
  }

  predicate AlwaysTopicIndexClean(w: World, moves: seq<Move>)
    decreases |moves|
  {
    TopicIndexClean(w) && (moves != [] ==> AlwaysTopicIndexClean(Make(w, moves[0]), moves[1..]))
  }

  /** Over a whole interleaved run: the topic index never holds a closed connection if and
      only if nobody subscribes one. */
  lemma {:induction false} TopicIndexCleanIff(w: World, moves: seq<Move>)
    requires WorldInv(w) && TopicIndexClean(w)
    ensures AlwaysTopicIndexClean(w, moves) <==> NeverSubscribesClosed(w, moves)
    decreases |moves|
  {
    if moves != [] {
      TopicIndexStep(w, moves[0]);
      MoveKeepsInv(w, moves[0]);
      if !SubscribesClosed(w, moves[0]) {
        TopicIndexCleanIff(Make(w, moves[0]), moves[1..]);
      }
    }
  }

  /** Subscribing adds one topic to one connection, unsubscribing removes it, and the index
      follows for every registered connection. */
  lemma SubscriptionOutcome(w: World, m: Move, d: Peer, u: Topic)
    requires WorldInv(w) && (m.Subscribe? || m.Unsubscribe?) && m.conn in w.joined
    ensures var v := Make(w, m);
            && (u in SubscriptionsOf(v, d) <==>
                  if d == m.conn && u == m.topic then m.Subscribe? else u in SubscriptionsOf(w, d))
            && (d in Registered(w) ==> (d in Bucket(v.byTopic, u) <==> u in SubscriptionsOf(v, d)))
  {
    var v := Make(w, m);
    MoveKeepsInv(w, m);
    assert Registered(v) == Registered(w);
    assert d in Bucket(v.byTopic, u) ==> u in SubscriptionsOf(v, d);
  }

  lemma DropEnds(w: World, q: nat, c: Peer)
    requires q !in w.tasks && c in Registered(w)
    ensures var v := Make(Make(w, Drop(q, c)), Resume(q));
            q !in v.tasks && v.closed == w.closed + {c} && v.joined == w.joined
  {
    TeardownIs(w, q, c, Draining([], []));
    var w1 := Make(w, Drop(q, c));
    assert Make(w1, Resume(q)) == Ended(w1, q);
  }

  lemma SubscribeAnyway(w: World, c: Peer, t: Topic)
    requires c in w.joined
    ensures var v := Make(w, Subscribe(c, t));
            v.tasks == w.tasks && v.closed == w.closed && c in Bucket(v.byTopic, t)
  {
  }

  /** A subscribe that was already on its way when its connection, any connection, was torn down. */
  lemma TopicLeak(w: World, q: nat, c: Peer, t: Topic)
    requires q !in w.tasks && c in Registered(w)
    ensures var v := Make(Make(Make(w, Drop(q, c)), Resume(q)), Subscribe(c, t));
            q !in v.tasks && c in v.closed && c in Bucket(v.byTopic, t)
  {
    DropEnds(w, q, c);
    SubscribeAnyway(Make(Make(w, Drop(q, c)), Resume(q)), c, t);
  }
}
