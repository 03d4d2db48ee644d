/**
  `Connection` and `ConnectionManager`: four indexes over the open connections of one server
  instance, bounded outgoing queues, and a once-only teardown
  (app/services/ws/manager.py, app/api/routers/ws/router.py).

  Here every coroutine runs to completion before the next one starts.  `Teardowns` lets
  them interleave at each socket close.
*/
module ConnectionManager {
  import opened Wrappers
  import opened Buckets

  type Sid = string
  type Cid = string
  type Topic = string

  datatype MessageType = WELCOME | SUBSCRIBED | UNSUBSCRIBED | EVENT | PING | ERROR
  datatype Message = Message(kind: MessageType, body: string)

  const NORMAL: nat := 1000
  const BACKPRESSURE: nat := 1013
  const UNAUTHENTICATED: nat := 4401
  const REPLACED: nat := 4409

  /** How one `send_json` of the writer ends. */
  datatype SendOutcome = Sent | TransportError | SerializationError

  class Connection {
    const principal: nat
    const sid: Option<Sid>
    const cid: Option<Cid>
    const adminRole: int
    const capacity: nat
    var subscriptions: set<Topic>
    var queue: seq<Message>
    var closed: bool
    var closeCode: Option<nat>      // the first close frame sent
    ghost var enqueued: seq<Message>  // everything ever accepted for this connection
    ghost var taken: seq<Message>     // what the writer has dequeued
    ghost var wire: seq<Message>      // what reached the socket

    constructor (principal: nat, sid: Option<Sid>, cid: Option<Cid>, adminRole: int, capacity: nat, welcome: Message)
      ensures this.principal == principal && this.sid == sid && this.cid == cid
      ensures this.adminRole == adminRole && this.capacity == capacity
      ensures !closed && closeCode.None? && subscriptions == {}
      ensures queue == enqueued == [welcome] && taken == wire == []
    {
      this.principal, this.sid, this.cid := principal, sid, cid;
      this.adminRole, this.capacity := adminRole, capacity;
      closed, closeCode, subscriptions := false, None, {};
      queue, enqueued, taken, wire := [welcome], [welcome], [], [];
    }

    /** The queue is bounded and first-in first-out; the wire starts with the welcome. */
    ghost predicate QueueOk()
      reads this
    {
      && 1 <= capacity && |queue| <= capacity
      && taken + queue == enqueued
      && enqueued != [] && enqueued[0].kind == WELCOME
      && (wire == [] || wire[0] == enqueued[0])
      && (!closed && taken != [] ==> wire != [])
    }

    /** `Connection.close`: only the first close frame counts. */
    method Close(code: nat)
      modifies this`closeCode
      ensures closeCode == if old(closeCode).None? then Some(code) else old(closeCode)
    {
      if closeCode.None? {
        closeCode := Some(code);
      }
    }

    /** `queue.put_nowait`: false is `QueueFull`. */
    method Offer(m: Message) returns (accepted: bool)
      requires QueueOk()
      modifies this`queue, this`enqueued
      ensures QueueOk() && accepted == (old(|queue|) < capacity)
      ensures accepted ==> queue == old(queue) + [m] && enqueued == old(enqueued) + [m]
      ensures !accepted ==> queue == old(queue) && enqueued == old(enqueued)
    {
      accepted := |queue| < capacity;
      if accepted {
        queue := queue + [m];
        enqueued := enqueued + [m];
      }
    }
  }

  // ------------------------------------------------------------------ the relations behind the indexes

  function PrincipalRel(conns: set<Connection>): set<(nat, Connection)> {
    set c | c in conns :: (c.principal, c)
  }

  function SidRel(conns: set<Connection>): set<(Sid, Connection)> {
    set c | c in conns && c.sid.Some? :: (c.sid.value, c)
  }

  function TopicRel(conns: set<Connection>): set<(Topic, Connection)>
    reads conns`subscriptions
  {
    set c, t | c in conns && t in c.subscriptions :: (t, c)
  }

  function OfPrincipal(conns: set<Connection>, p: nat): set<Connection> {
    set c | c in conns && c.principal == p
  }

  function OfSid(conns: set<Connection>, sid: Sid): set<Connection> {
    set c | c in conns && c.sid == Some(sid)
  }

  function OfTopic(conns: set<Connection>, t: Topic): set<Connection>
    reads conns`subscriptions
  {
    set c | c in conns && t in c.subscriptions
  }

  /** The connections of the same tab: same session and same client id. */
  function SameTab(conns: set<Connection>, sid: Option<Sid>, cid: Option<Cid>): set<Connection> {
    if sid.None? || cid.None? then {} else set c | c in conns && c.sid == sid && c.cid == cid
  }

  /** Each `(sid, cid)` in use has exactly one owner. */
  predicate OwnersExact(owners: map<(Sid, Cid), Connection>, conns: set<Connection>) {
    && (forall k | k in owners :: owners[k] in conns && owners[k].sid == Some(k.0) && owners[k].cid == Some(k.1))
    && (forall c | c in conns && c.sid.Some? && c.cid.Some? ::
          (c.sid.value, c.cid.value) in owners && owners[(c.sid.value, c.cid.value)] == c)
  }

  /** The open ones whose queue takes one more message. */
  function WithRoom(conns: set<Connection>): set<Connection>
    reads conns`queue, conns`closed
  {
    set c | c in conns && !c.closed && |c.queue| < c.capacity
  }

  /** The open ones whose queue is full. */
  function NoRoom(conns: set<Connection>): set<Connection>
    reads conns`queue, conns`closed
  {
    set c | c in conns && !c.closed && |c.queue| >= c.capacity
  }

  /** Torn down, with `code` on the wire unless some close frame had gone out before. */
  twostate predicate ClosedWith(c: Connection, code: nat)
    reads c`closed, c`closeCode
  {
    c.closed && c.closeCode == if old(c.closeCode).None? then Some(code) else old(c.closeCode)
  }

  /** What the enqueueing loop does to one target's queue. */
  twostate predicate Enqueued(c: Connection, m: Message)
    reads c
  {
    if !old(c.closed) && old(|c.queue|) < c.capacity
    then c.queue == old(c.queue) + [m] && c.enqueued == old(c.enqueued) + [m]
    else c.queue == old(c.queue) && c.enqueued == old(c.enqueued)
  }

  /** What one delivery does to one target: append the message exactly once, or close with
      1013 for want of room, or leave a closed connection alone. */
  twostate predicate Delivery(c: Connection, m: Message)
    reads c
  {
    && Enqueued(c, m)
    && c.subscriptions == old(c.subscriptions)
    && if !old(c.closed) && old(|c.queue|) >= c.capacity
       then ClosedWith(c, BACKPRESSURE)
       else c.closed == old(c.closed) && c.closeCode == old(c.closeCode)
  }

  /** The first loop of `send_local` and `broadcast_local`: enqueue where there is room,
      remember who had none. */
  method EnqueueEach(targets: set<Connection>, message: Message) returns (delivered: nat, overflow: set<Connection>)
    requires forall c | c in targets && !c.closed :: c.QueueOk()
    modifies targets`queue, targets`enqueued
    ensures forall c | c in targets && !c.closed :: c.QueueOk()
    ensures delivered == |old(WithRoom(targets))| && overflow == old(NoRoom(targets))
    ensures forall c | c in targets :: Enqueued(c, message)
  {
    delivered, overflow := 0, {};
    var todo := targets;
    ghost var room, full := WithRoom(targets), NoRoom(targets);
    ghost var served: set<Connection> := {};
    while todo != {}
      invariant todo <= targets
      invariant forall c :: c in served <==> c in room && c !in todo
      invariant forall c :: c in overflow <==> c in full && c !in todo
      invariant delivered == |served|
      invariant forall c | c in targets && !c.closed :: c.QueueOk()
      invariant forall c | c in todo :: c.queue == old(c.queue) && c.enqueued == old(c.enqueued)
      invariant forall c | c in targets && c !in todo :: Enqueued(c, message)
      decreases todo
    {
      var c :| c in todo;
      todo := todo - {c};
      if c.closed {
        continue;
      }
      var accepted := c.Offer(message);
      if accepted {
        delivered := delivered + 1;
        served := served + {c};
      } else {
        overflow := overflow + {c};
      }
    }
    assert served == room && overflow == full;
  }

  // ------------------------------------------------------------------ the manager

  class Manager {
    var byPrincipal: map<nat, set<Connection>>
    var byTopic: map<Topic, set<Connection>>
    var bySid: map<Sid, set<Connection>>
    var bySidCid: map<(Sid, Cid), Connection>
    ghost var open: set<Connection>

    /** All four indexes are the views of the one set of open connections. */
    ghost predicate IndexesMatch()
      reads this, open`subscriptions
    {
      && byPrincipal == BucketsOf(PrincipalRel(open))
      && bySid == BucketsOf(SidRel(open))
      && byTopic == BucketsOf(TopicRel(open))
      && OwnersExact(bySidCid, open)
    }

    ghost predicate Valid()
      reads this, open
    {
      && IndexesMatch()
      && forall c | c in open :: !c.closed && c.QueueOk()
    }

    constructor ()
      ensures Valid() && open == {}
    {
      byPrincipal, byTopic, bySid, bySidCid := map[], map[], map[], map[];
      open := {};
    }

    // ---------------------------------------------------------------- queries

    method ConnectionsForPrincipal(p: nat) returns (conns: set<Connection>)
      requires Valid()
      ensures conns == OfPrincipal(open, p)
    {
      conns := Bucket(byPrincipal, p);
      forall c
        ensures c in conns <==> (p, c) in PrincipalRel(open)
      {
        BucketIsExact(PrincipalRel(open), p, c);
      }
    }

    method ConnectionsForSid(sid: Sid) returns (conns: set<Connection>)
      requires Valid()
      ensures conns == OfSid(open, sid)
    {
      conns := Bucket(bySid, sid);
      forall c
        ensures c in conns <==> (sid, c) in SidRel(open)
      {
        BucketIsExact(SidRel(open), sid, c);
      }
    }

    method ConnectionsForTopic(t: Topic) returns (conns: set<Connection>)
      requires Valid()
      ensures conns == OfTopic(open, t)
    {
      conns := Bucket(byTopic, t);
      forall c
        ensures c in conns <==> (t, c) in TopicRel(open)
      {
        BucketIsExact(TopicRel(open), t, c);
      }
    }

    method HasSidCid(sid: Option<Sid>, cid: Option<Cid>) returns (has: bool)
      requires Valid()
      ensures has <==> SameTab(open, sid, cid) != {}
    {
      if sid.None? || cid.None? {
        return false;
      }
      has := (sid.value, cid.value) in bySidCid;
      if has {
        assert bySidCid[(sid.value, cid.value)] in SameTab(open, sid, cid);
      }
    }

    /** `total_connections`: the bucket sizes add up to the number of open connections. */
    method TotalConnections() returns (total: nat)
      requires Valid()
      ensures total == |open|
    {
      total := 0;
      var principals := byPrincipal.Keys;
      ghost var counted: set<Connection> := {};
      forall c | c in open
        ensures c.principal in byPrincipal
      {
        assert (c.principal, c) in PrincipalRel(open);
        BucketIsExact(PrincipalRel(open), c.principal, c);
      }
      while principals != {}
        invariant principals <= byPrincipal.Keys
        invariant counted == set c | c in open && c.principal !in principals
        invariant total == |counted|
        decreases principals
      {
        var p :| p in principals;
        principals := principals - {p};
        forall c
          ensures c in byPrincipal[p] <==> (p, c) in PrincipalRel(open)
        {
          BucketIsExact(PrincipalRel(open), p, c);
        }
        assert counted !! byPrincipal[p];
        total := total + |byPrincipal[p]|;
        counted := counted + byPrincipal[p];
      }
      assert counted == open;
    }

    // ---------------------------------------------------------------- unregister and teardown

    method DropTopic(conn: Connection, topic: Topic, ghost rel: set<(Topic, Connection)>)
      requires byTopic == BucketsOf(rel)
      modifies this`byTopic
      ensures byTopic == BucketsOf(rel - {(topic, conn)})
    {
      DiscardingKeepsBuckets(rel, topic, conn);
      byTopic := Discarded(byTopic, topic, conn);
    }

    method AddTopic(conn: Connection, topic: Topic, ghost rel: set<(Topic, Connection)>)
      requires byTopic == BucketsOf(rel)
      modifies this`byTopic
      ensures byTopic == BucketsOf(rel + {(topic, conn)})
    {
      AddingKeepsBuckets(rel, topic, conn);
      byTopic := Added(byTopic, topic, conn);
    }

    /** The topic loop of `unregister`. */
    method UnregisterTopics(conn: Connection)
      requires byTopic == BucketsOf(TopicRel(open))
      modifies this`byTopic
      ensures byTopic == BucketsOf(TopicRel(open - {conn}))
    {
      var topics := conn.subscriptions;
      ghost var rest := TopicRel(open);
      while topics != {}
        invariant topics <= conn.subscriptions
        invariant rest == set e | e in TopicRel(open) && (e.1 == conn ==> e.0 in topics)
        invariant byTopic == BucketsOf(rest)
        decreases topics
      {
        var t :| t in topics;
        DropTopic(conn, t, rest);
        topics := topics - {t};
        rest := rest - {(t, conn)};
      }
      assert rest == TopicRel(open - {conn});
    }

    /** The session half of `unregister`; an entry of somebody else's is left in place. */
    method UnregisterSession(conn: Connection)
      requires bySid == BucketsOf(SidRel(open)) && OwnersExact(bySidCid, open)
      modifies this`bySid, this`bySidCid, this`open
      ensures open == old(open) - {conn}
      ensures bySid == BucketsOf(SidRel(open)) && OwnersExact(bySidCid, open)
    {
      if conn.sid.Some? {
        bySid := Discarded(bySid, conn.sid.value, conn);
        DiscardingKeepsBuckets(SidRel(open), conn.sid.value, conn);
        assert SidRel(open) - {(conn.sid.value, conn)} == SidRel(open - {conn});
        if conn.cid.Some? {
          var key := (conn.sid.value, conn.cid.value);
          if key in bySidCid && bySidCid[key] == conn {
            bySidCid := bySidCid - {key};
          }
        }
      } else {
        assert SidRel(open) == SidRel(open - {conn});
      }
      open := open - {conn};
    }

    method UnregisterPrincipal(conn: Connection)
      requires byPrincipal == BucketsOf(PrincipalRel(open))
      modifies this`byPrincipal
      ensures byPrincipal == BucketsOf(PrincipalRel(open - {conn}))
    {
      DiscardingKeepsBuckets(PrincipalRel(open), conn.principal, conn);
      assert PrincipalRel(open) - {(conn.principal, conn)} == PrincipalRel(open - {conn});
      byPrincipal := Discarded(byPrincipal, conn.principal, conn);
    }

    method Unregister(conn: Connection)
      requires IndexesMatch()
      modifies this
      ensures IndexesMatch() && open == old(open) - {conn}
    {
      UnregisterPrincipal(conn);
      UnregisterTopics(conn);
      UnregisterSession(conn);
    }

    /** Runs its body once: a closed connection is left alone. */
    method Teardown(conn: Connection)
      requires IndexesMatch() && (conn in open ==> !conn.closed)
      requires forall c | c in open && c != conn :: !c.closed && c.QueueOk()
      modifies this, conn`closed, conn`closeCode
      ensures Valid() && open == old(open) - {conn} && conn.closed
      ensures conn.closeCode
           == if old(conn.closed) || old(conn.closeCode).Some? then old(conn.closeCode) else Some(NORMAL)
    {
      if conn.closed {
        return;
      }
      conn.closed := true;
      Unregister(conn);
      conn.Close(NORMAL);
    }

    /** `await conn.close(code)` and `_teardown(conn)` for each victim in turn. */
    method CloseEach(victims: set<Connection>, code: nat)
      requires Valid() && victims <= open
      modifies this, victims`closed, victims`closeCode
      ensures Valid() && open == old(open) - victims
      ensures forall c | c in victims :: ClosedWith(c, code)
    {
      var todo := victims;
      while todo != {}
        invariant todo <= victims && Valid() && open == old(open) - (victims - todo)
        invariant forall c | c in todo :: c.closeCode == old(c.closeCode)
        invariant forall c | c in victims - todo :: ClosedWith(c, code)
        decreases todo
      {
        var c :| c in todo;
        todo := todo - {c};
        CloseOne(c, code);
      }
    }

    method CloseOne(c: Connection, code: nat)
      requires Valid() && c in open
      modifies this, c`closed, c`closeCode
      ensures Valid() && open == old(open) - {c} && ClosedWith(c, code)
    {
      c.Close(code);
      Teardown(c);
    }

    // ---------------------------------------------------------------- register

    method EnterPrincipal(conn: Connection)
      requires byPrincipal == BucketsOf(PrincipalRel(open))
      modifies this`byPrincipal
      ensures byPrincipal == BucketsOf(PrincipalRel(open + {conn}))
    {
      AddingKeepsBuckets(PrincipalRel(open), conn.principal, conn);
      assert PrincipalRel(open) + {(conn.principal, conn)} == PrincipalRel(open + {conn});
      byPrincipal := Added(byPrincipal, conn.principal, conn);
    }

    method EnterSession(conn: Connection)
      requires bySid == BucketsOf(SidRel(open))
      modifies this`bySid
      ensures bySid == BucketsOf(SidRel(open + {conn}))
    {
      if conn.sid.Some? {
        AddingKeepsBuckets(SidRel(open), conn.sid.value, conn);
        assert SidRel(open) + {(conn.sid.value, conn)} == SidRel(open + {conn});
        bySid := Added(bySid, conn.sid.value, conn);
      } else {
        assert SidRel(open) == SidRel(open + {conn});
      }
    }

    method EnterTab(conn: Connection)
      requires OwnersExact(bySidCid, open) && SameTab(open, conn.sid, conn.cid) <= {conn}
      modifies this`bySidCid
      ensures OwnersExact(bySidCid, open + {conn})
    {
      forall c | c in open && c.sid == conn.sid && c.cid == conn.cid && conn.sid.Some? && conn.cid.Some?
        ensures c == conn
      {
        assert c in SameTab(open, conn.sid, conn.cid);
      }
      if conn.sid.Some? && conn.cid.Some? {
        bySidCid := bySidCid[(conn.sid.value, conn.cid.value) := conn];
      }
    }

    /** The tail of `register`: enter `conn` into the indexes. */
    method Enter(conn: Connection)
      requires IndexesMatch() && SameTab(open, conn.sid, conn.cid) <= {conn}
      requires conn in open || conn.subscriptions == {}
      modifies this
      ensures IndexesMatch() && open == old(open) + {conn}
    {
      assert TopicRel(open) == TopicRel(open + {conn});
      EnterTab(conn);
      EnterPrincipal(conn);
      EnterSession(conn);
      open := open + {conn};
    }

    /** The head of `register`: close and tear down the tab's previous connection. */
    method Replace(conn: Connection)
      requires Valid()
      modifies this, SameTab(open, conn.sid, conn.cid)`closed, SameTab(open, conn.sid, conn.cid)`closeCode
      ensures Valid() && SameTab(open, conn.sid, conn.cid) <= {conn}
      ensures open == old(open) - (SameTab(old(open), conn.sid, conn.cid) - {conn})
      ensures forall c | c in SameTab(old(open), conn.sid, conn.cid) - {conn} :: ClosedWith(c, REPLACED)
      ensures conn.closed == old(conn.closed) && conn.closeCode == old(conn.closeCode)
    {
      if conn.sid.Some? && conn.cid.Some? {
        var key := (conn.sid.value, conn.cid.value);
        if key in bySidCid && bySidCid[key] != conn {
          var existing := bySidCid[key];
          assert SameTab(open, conn.sid, conn.cid) == {existing};
          CloseEach({existing}, REPLACED);
        }
      }
    }

    /** Registers `conn`; another connection of the same tab is closed with 4409 and replaced. */
    method Register(conn: Connection)
      requires Valid() && !conn.closed && conn.QueueOk()
      requires conn in open || conn.subscriptions == {}
      modifies this, SameTab(open, conn.sid, conn.cid)`closed, SameTab(open, conn.sid, conn.cid)`closeCode
      ensures Valid()
      ensures open == old(open) - SameTab(old(open), conn.sid, conn.cid) + {conn}
      ensures forall c | c in SameTab(old(open), conn.sid, conn.cid) - {conn} :: ClosedWith(c, REPLACED)
      ensures !conn.closed && conn.closeCode == old(conn.closeCode)
    {
      Replace(conn);
      Enter(conn);
    }

    // ---------------------------------------------------------------- subscriptions

    /** Nothing checks that `conn` is still open: subscribing a closed connection leaves it
        in the topic index for good, and that is the only way to break the indexes. */
    method Subscribe(conn: Connection, topic: Topic)
      requires Valid()
      modifies this`byTopic, conn`subscriptions
      ensures conn.subscriptions == old(conn.subscriptions) + {topic}
      ensures Valid() <==> conn in open
    {
      ghost var rel := TopicRel(open);
      AddTopic(conn, topic, rel);
      conn.subscriptions := conn.subscriptions + {topic};
      if conn in open {
        assert TopicRel(open) == rel + {(topic, conn)};
        assert IndexesMatch();
      } else {
        assert TopicRel(open) == rel && (topic, conn) !in rel;
        BucketsDiffer(rel, topic, conn);
      }
    }

    method Unsubscribe(conn: Connection, topic: Topic)
      requires Valid()
      modifies this`byTopic, conn`subscriptions
      ensures Valid() && conn.subscriptions == old(conn.subscriptions) - {topic}
    {
      DropTopic(conn, topic, TopicRel(open));
      conn.subscriptions := conn.subscriptions - {topic};
      assert TopicRel(open) == old(TopicRel(open)) - {(topic, conn)};
    }

    // ---------------------------------------------------------------- delivery

    /** Both loops: enqueue, then close with 1013 every open target that had no room. */
    method Deliver(targets: set<Connection>, message: Message) returns (delivered: nat)
      requires Valid() && forall c | c in targets :: c in open || c.closed
      modifies this, targets
      ensures Valid()
      ensures open == old(open) - old(NoRoom(targets)) && delivered == |old(WithRoom(targets))|
      ensures forall c | c in targets :: Delivery(c, message)
    {
      var overflow: set<Connection>;
      delivered, overflow := EnqueueEach(targets, message);
      label Queued:
      CloseEach(overflow, BACKPRESSURE);
      forall c | c in targets
        ensures Delivery(c, message)
      {
        assert c.queue == old@Queued(c.queue) && c.enqueued == old@Queued(c.enqueued);
        assert c in overflow ==> ClosedWith@Queued(c, BACKPRESSURE);
      }
    }

    /** Exactly one of `principal_id` and `topic` selects the targets; neither, nobody. */
    method SendLocal(principal: Option<nat>, topic: Option<Topic>, message: Message) returns (delivered: nat)
      requires Valid()
      modifies this, open
      ensures Valid()
      ensures var targets := old(Addressed(principal, topic));
              && delivered == |old(WithRoom(targets))|
              && open == old(open) - old(NoRoom(targets))
              && (forall c | c in targets :: Delivery(c, message))
              && (forall c | c in old(open) - targets :: unchanged(c))
    {
      var targets: set<Connection>;
      if principal.Some? {
        targets := ConnectionsForPrincipal(principal.value);
      } else if topic.Some? {
        targets := ConnectionsForTopic(topic.value);
      } else {
        return 0;
      }
      delivered := Deliver(targets, message);
    }

    method SendToConnection(conn: Connection, message: Message) returns (sent: bool)
      requires Valid() && (conn in open || conn.closed)
      modifies this, conn
      ensures Valid() && Delivery(conn, message)
      ensures sent <==> old(!conn.closed && |conn.queue| < conn.capacity)
      ensures open == old(open) - old(NoRoom({conn}))
    {
      if conn.closed {
        return false;
      }
      sent := conn.Offer(message);
      if !sent {
        CloseEach({conn}, BACKPRESSURE);
      }
    }

    /** The members of all principal buckets together. */
    method AllConnections() returns (conns: set<Connection>)
      requires Valid()
      ensures conns == open
    {
      conns := {};
      var principals := byPrincipal.Keys;
      forall c | c in open
        ensures c.principal in byPrincipal
      {
        assert (c.principal, c) in PrincipalRel(open);
        BucketIsExact(PrincipalRel(open), c.principal, c);
      }
      while principals != {}
        invariant principals <= byPrincipal.Keys
        invariant conns == set c | c in open && c.principal !in principals
        decreases principals
      {
        var p :| p in principals;
        principals := principals - {p};
        forall c
          ensures c in byPrincipal[p] <==> (p, c) in PrincipalRel(open)
        {
          BucketIsExact(PrincipalRel(open), p, c);
        }
        conns := conns + byPrincipal[p];
      }
    }

    method BroadcastLocal(message: Message) returns (delivered: nat)
      requires Valid()
      modifies this, open
      ensures Valid()
      ensures delivered == |old(WithRoom(open))| && open == old(open) - old(NoRoom(open))
      ensures forall c | c in old(open) :: Delivery(c, message)
    {
      var targets := AllConnections();
      delivered := Deliver(targets, message);
    }

    // ---------------------------------------------------------------- kicks

    method KickLocal(p: nat, code: nat)
      requires Valid()
      modifies this, OfPrincipal(open, p)`closed, OfPrincipal(open, p)`closeCode
      ensures Valid() && open == old(open) - OfPrincipal(old(open), p)
      ensures forall c | c in OfPrincipal(old(open), p) :: ClosedWith(c, code)
    {
      var victims := ConnectionsForPrincipal(p);
      CloseEach(victims, code);
    }

    method KickLocalSid(sid: Sid, code: nat)
      requires Valid()
      modifies this, OfSid(open, sid)`closed, OfSid(open, sid)`closeCode
      ensures Valid() && open == old(open) - OfSid(old(open), sid)
      ensures forall c | c in OfSid(old(open), sid) :: ClosedWith(c, code)
    {
      var victims := ConnectionsForSid(sid);
      CloseEach(victims, code);
    }

    method CloseAll(code: nat)
      requires Valid()
      modifies this, open`closed, open`closeCode
      ensures Valid() && open == {} && byPrincipal == map[] && byTopic == map[] && bySid == map[] && bySidCid == map[]
      ensures forall c | c in old(open) :: ClosedWith(c, code)
    {
      var victims := AllConnections();
      CloseEach(victims, code);
      assert PrincipalRel(open) == {} && SidRel(open) == {} && TopicRel(open) == {};
    }

    // ---------------------------------------------------------------- the writer

    /** One turn of `_run_writer`.  Only the transport can fail on a welcome, which is plain
        text and a number; the first message on any wire is therefore the welcome. */
    method WriterTurn(conn: Connection, outcome: SendOutcome)
      requires Valid() && conn in open && conn.queue != []
      requires conn.queue[0].kind == WELCOME ==> outcome != SerializationError
      modifies this, conn
      ensures Valid() && conn.QueueOk()
      ensures conn.queue == old(conn.queue)[1..] && conn.taken == old(conn.taken) + [old(conn.queue)[0]]
      ensures conn.wire == if outcome == Sent then old(conn.wire) + [old(conn.queue)[0]] else old(conn.wire)
      ensures open == if outcome == TransportError then old(open) - {conn} else old(open)
      ensures conn.wire != [] ==> conn.wire[0].kind == WELCOME
    {
      var message := conn.queue[0];
      conn.queue := conn.queue[1..];
      conn.taken := conn.taken + [message];
      match outcome {
        case Sent => conn.wire := conn.wire + [message];
        case TransportError => Teardown(conn);
        case SerializationError =>
      }
      assert conn.taken + conn.queue == old(conn.taken + conn.queue);
    }

    // ---------------------------------------------------------------- the handshake

    /** The connection caps, from which a same-tab reconnect is exempt. */
    method OverCap(principal: nat, sid: Option<Sid>, cid: Option<Cid>, maxTotal: nat, maxPerPrincipal: nat)
      returns (over: bool)
      requires Valid()
      ensures over <==> Refused(open, principal, sid, cid, maxTotal, maxPerPrincipal)
    {
      over := HasSidCid(sid, cid);
      over := !over;
      if over {
        var total := TotalConnections();
        var mine := ConnectionsForPrincipal(principal);
        over := total >= maxTotal || |mine| >= maxPerPrincipal;
      }
    }

    /** `admin_ws` from the admission check to `register`; null is a refusal with 1013. */
    method Handshake(principal: nat, sid: Option<Sid>, cid: Option<Cid>, adminRole: int, capacity: nat,
                     maxTotal: nat, maxPerPrincipal: nat, welcome: Message)
      returns (conn: Connection?)
      requires Valid() && 1 <= capacity && welcome.kind == WELCOME
      modifies this, SameTab(open, sid, cid)`closed, SameTab(open, sid, cid)`closeCode
      ensures Valid()
      ensures conn == null <==> Refused(old(open), principal, sid, cid, maxTotal, maxPerPrincipal)
      ensures conn == null ==> open == old(open)
      ensures conn != null ==>
                && fresh(conn) && conn.principal == principal && conn.sid == sid && conn.cid == cid
                && conn.queue == [welcome] && open == Admitted(old(open), conn)
                && forall c | c in SameTab(old(open), sid, cid) :: ClosedWith(c, REPLACED)
    {
      var over := OverCap(principal, sid, cid, maxTotal, maxPerPrincipal);
      if over {
        return null;
      }
      var c := new Connection(principal, sid, cid, adminRole, capacity, welcome);
      label joining:
      Register(c);
      forall d | d in SameTab(old(open), sid, cid)
        ensures ClosedWith(d, REPLACED)
      {
        assert ClosedWith@joining(d, REPLACED);
      }
      conn := c;
    }

    /** Whom `send_local` addresses. */
    ghost function Addressed(principal: Option<nat>, topic: Option<Topic>): set<Connection>
      reads this`open, open`subscriptions
    {
      if principal.Some? then OfPrincipal(open, principal.value)
      else if topic.Some? then OfTopic(open, topic.value)
      else {}
    }
  }

  // ------------------------------------------------------------------ admission

  /** The admission check: over a cap, and not a same-tab reconnect. */
  predicate Refused(conns: set<Connection>, p: nat, sid: Option<Sid>, cid: Option<Cid>,
                    maxTotal: nat, maxPerPrincipal: nat)
  {
    SameTab(conns, sid, cid) == {} && (|conns| >= maxTotal || |OfPrincipal(conns, p)| >= maxPerPrincipal)
  }

  function Admitted(conns: set<Connection>, conn: Connection): set<Connection> {
    conns - SameTab(conns, conn.sid, conn.cid) + {conn}
  }

  ghost predicate WithinCaps(conns: set<Connection>, maxTotal: nat, maxPerPrincipal: nat) {
    |conns| <= maxTotal && forall p: nat :: |OfPrincipal(conns, p)| <= maxPerPrincipal
  }

  predicate SidsOwned(conns: set<Connection>, owner: map<Sid, nat>) {
    forall c | c in conns && c.sid.Some? :: c.sid.value in owner && owner[c.sid.value] == c.principal
  }

  predicate OneOwnerPerTab(conns: set<Connection>) {
    forall c, d | c in conns && d in conns && c.sid.Some? && c.cid.Some? && c.sid == d.sid && c.cid == d.cid :: c == d
  }

  lemma SubsetIsSmaller<T>(a: set<T>, b: set<T>)
    requires a <= b
    ensures |a| <= |b|
  {
    assert b == a + (b - a);
  }

  lemma ClosingKeepsCaps(conns: set<Connection>, rest: set<Connection>, maxTotal: nat, maxPerPrincipal: nat)
    requires WithinCaps(conns, maxTotal, maxPerPrincipal) && rest <= conns
    ensures WithinCaps(rest, maxTotal, maxPerPrincipal)
  {
    SubsetIsSmaller(rest, conns);
    forall p: nat
      ensures |OfPrincipal(rest, p)| <= maxPerPrincipal
    {
      SubsetIsSmaller(OfPrincipal(rest, p), OfPrincipal(conns, p));
    }
  }

  lemma JoiningKeepsCaps(conns: set<Connection>, conn: Connection, maxTotal: nat, maxPerPrincipal: nat)
    requires WithinCaps(conns, maxTotal, maxPerPrincipal)
    requires |conns| < maxTotal && |OfPrincipal(conns, conn.principal)| < maxPerPrincipal
    ensures WithinCaps(conns + {conn}, maxTotal, maxPerPrincipal)
  {
    forall p: nat
      ensures |OfPrincipal(conns + {conn}, p)| <= maxPerPrincipal
    {
      if p == conn.principal {
        assert OfPrincipal(conns + {conn}, p) == OfPrincipal(conns, p) + {conn};
      } else {
        assert OfPrincipal(conns + {conn}, p) == OfPrincipal(conns, p);
      }
    }
  }

  lemma SwappingKeepsCaps(conns: set<Connection>, previous: Connection, conn: Connection,
                          maxTotal: nat, maxPerPrincipal: nat)
    requires WithinCaps(conns, maxTotal, maxPerPrincipal)
    requires previous in conns && previous.principal == conn.principal
    ensures WithinCaps(conns - {previous} + {conn}, maxTotal, maxPerPrincipal)
  {
    var rest := conns - {previous};
    forall p: nat
      ensures |OfPrincipal(rest + {conn}, p)| <= maxPerPrincipal
    {
      if p == conn.principal {
        assert OfPrincipal(rest + {conn}, p) == OfPrincipal(conns, p) - {previous} + {conn};
        assert previous in OfPrincipal(conns, p);
      } else {
        assert OfPrincipal(rest + {conn}, p) == OfPrincipal(conns, p);
      }
    }
  }

  /** Admission keeps both caps although a same-tab reconnect skips the check: it replaces a
      connection of the same principal, because one sid belongs to one principal. */
  lemma AdmissionKeepsCaps(conns: set<Connection>, conn: Connection, owner: map<Sid, nat>,
                           maxTotal: nat, maxPerPrincipal: nat)
    requires WithinCaps(conns, maxTotal, maxPerPrincipal) && OneOwnerPerTab(conns)
    requires SidsOwned(conns + {conn}, owner)
    requires !Refused(conns, conn.principal, conn.sid, conn.cid, maxTotal, maxPerPrincipal)
    ensures WithinCaps(Admitted(conns, conn), maxTotal, maxPerPrincipal)
  {
    var tab := SameTab(conns, conn.sid, conn.cid);
    if tab == {} {
      assert Admitted(conns, conn) == conns + {conn};
      JoiningKeepsCaps(conns, conn, maxTotal, maxPerPrincipal);
    } else {
      var previous :| previous in tab;
      assert tab == {previous};
      SwappingKeepsCaps(conns, previous, conn, maxTotal, maxPerPrincipal);
    }
  }

  /** A refusal is needed: admitting the newcomer would break a cap. */
  lemma RefusalIsNeeded(conns: set<Connection>, conn: Connection, maxTotal: nat, maxPerPrincipal: nat)
    requires conn !in conns
    requires Refused(conns, conn.principal, conn.sid, conn.cid, maxTotal, maxPerPrincipal)
    ensures !WithinCaps(Admitted(conns, conn), maxTotal, maxPerPrincipal)
  {
    assert Admitted(conns, conn) == conns + {conn};
    assert OfPrincipal(conns + {conn}, conn.principal) == OfPrincipal(conns, conn.principal) + {conn};
  }

  /** So, with both caps kept so far, a handshake is refused if and only if letting it in would
      break one of them. */
  lemma RefusedIff(conns: set<Connection>, conn: Connection, owner: map<Sid, nat>,
                   maxTotal: nat, maxPerPrincipal: nat)
    requires WithinCaps(conns, maxTotal, maxPerPrincipal) && OneOwnerPerTab(conns)
    requires conn !in conns && SidsOwned(conns + {conn}, owner)
    ensures Refused(conns, conn.principal, conn.sid, conn.cid, maxTotal, maxPerPrincipal) <==>
              !WithinCaps(Admitted(conns, conn), maxTotal, maxPerPrincipal)
  {
    if Refused(conns, conn.principal, conn.sid, conn.cid, maxTotal, maxPerPrincipal) {
      RefusalIsNeeded(conns, conn, maxTotal, maxPerPrincipal);
    } else {
      AdmissionKeepsCaps(conns, conn, owner, maxTotal, maxPerPrincipal);
    }
  }

  lemma AdmissionKeepsOwners(conns: set<Connection>, conn: Connection, owner: map<Sid, nat>)
    requires OneOwnerPerTab(conns) && SidsOwned(conns + {conn}, owner)
    ensures OneOwnerPerTab(Admitted(conns, conn)) && SidsOwned(Admitted(conns, conn), owner)
  {
  }
}
