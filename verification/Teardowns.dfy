/**
  The connection manager with its coroutines interleaved: every `await` of a socket close is
  a scheduling point at which any other task may run and at which the waiting task may be
  cancelled (app/services/ws/manager.py).

  Between two closes a coroutine runs without interruption, so a task is just what is left
  to do after the close it waits for.
*/
module Teardowns {
  import opened Wrappers
  import opened Buckets
  import opened CM = ConnectionManager

  /** One connection object: its constant fields and an identity. */
  datatype Peer = Peer(id: nat, principal: nat, sid: Option<Sid>, cid: Option<Cid>, capacity: nat)

  /** A principal's bucket as a shutdown found it at its start. */
  datatype Snapshot = Snapshot(principal: nat, members: set<Peer>)

  datatype Task =
    | Replacing(conn: Peer, existing: Peer)  // register: waiting for existing.close(4409)
    | Joining(conn: Peer)                    // register: waiting for the close inside _teardown(existing)
    | Closing(todo: seq<Peer>, more: seq<Snapshot>)   // a closing loop: waiting for todo[0].close(code)
    | Draining(rest: seq<Peer>, more: seq<Snapshot>)  // a closing loop: waiting for the close inside _teardown
    | Sweeping(more: seq<Snapshot>)          // a shutdown between two buckets

  /** `started` connections have been handed to `register`, `joined` ones have reached its
      end, `closed` ones have run the teardown body, `bodies` counts how often. */
  datatype World = World(
    byPrincipal: map<nat, set<Peer>>,
    bySid: map<Sid, set<Peer>>,
    byTopic: map<Topic, set<Peer>>,
    bySidCid: map<(Sid, Cid), Peer>,
    subscriptions: map<Peer, set<Topic>>,
    queues: map<Peer, seq<Message>>,
    started: set<Peer>,
    joined: set<Peer>,
    closed: set<Peer>,
    bodies: multiset<Peer>,
    tasks: map<nat, Task>,
    maxTotal: nat,
    maxPerPrincipal: nat
  )

  datatype Address = ToPrincipal(principal: nat) | ToTopic(topic: Topic) | ToAll | ToOne(conn: Peer)

  /** `order` is the order in which a task walks its snapshot of a set. */
  datatype Move =
    | Connect(task: nat, conn: Peer, welcome: Message)
    | Resume(task: nat)
    | Cancel(task: nat)
    | Kick(task: nat, principal: nat, order: seq<Peer>)
    | KickSid(task: nat, sid: Sid, order: seq<Peer>)
    | Send(task: nat, address: Address, message: Message, order: seq<Peer>)
    | Shutdown(task: nat, buckets: seq<Snapshot>)
    | Sweep(task: nat, order: seq<Peer>)
    | Expire(task: nat, conn: Peer)
    | Drop(task: nat, conn: Peer)
    | Subscribe(conn: Peer, topic: Topic)
    | Unsubscribe(conn: Peer, topic: Topic)
    | WriterTake(conn: Peer)

  function Registered(w: World): set<Peer> {
    w.joined - w.closed
  }

  function ByPrincipalRel(peers: set<Peer>): set<(nat, Peer)> {
    set c | c in peers :: (c.principal, c)
  }

  function BySidRel(peers: set<Peer>): set<(Sid, Peer)> {
    set c | c in peers && c.sid.Some? :: (c.sid.value, c)
  }

  predicate HasTab(c: Peer) {
    c.sid.Some? && c.cid.Some?
  }

  function TabOf(c: Peer): (Sid, Cid)
    requires HasTab(c)
  {
    (c.sid.value, c.cid.value)
  }

  // ------------------------------------------------------------------ uninterrupted pieces

  /** `unregister`'s loop over `conn.subscriptions`. */
  function WithoutTopics(d: map<Topic, set<Peer>>, topics: set<Topic>, c: Peer): map<Topic, set<Peer>> {
    map t | t in d && (t in topics ==> d[t] - {c} != {}) :: if t in topics then d[t] - {c} else d[t]
  }

  function SubscriptionsOf(w: World, c: Peer): set<Topic> {
    if c in w.subscriptions then w.subscriptions[c] else {}
  }

  /** `_teardown` of an open connection, up to its socket close. */
  function TeardownBody(w: World, c: Peer): (v: World)
    ensures v.queues == w.queues && v.subscriptions == w.subscriptions && v.tasks == w.tasks
    ensures v.started == w.started && v.joined == w.joined
  {
    w.(closed := w.closed + {c},
       bodies := w.bodies + multiset{c},
       byPrincipal := Discarded(w.byPrincipal, c.principal, c),
       byTopic := WithoutTopics(w.byTopic, SubscriptionsOf(w, c), c),
       bySid := if c.sid.Some? then Discarded(w.bySid, c.sid.value, c) else w.bySid,
       bySidCid := if HasTab(c) && TabOf(c) in w.bySidCid && w.bySidCid[TabOf(c)] == c
                   then w.bySidCid - {TabOf(c)} else w.bySidCid)
  }

  /** The end of `register`: the tab entry is written whatever it holds by now. */
  function Join(w: World, c: Peer): (v: World)
    ensures v.queues == w.queues && v.subscriptions == w.subscriptions && v.tasks == w.tasks
    ensures v.started == w.started && v.closed == w.closed && v.bodies == w.bodies && v.byTopic == w.byTopic
  {
    w.(bySidCid := if HasTab(c) then w.bySidCid[TabOf(c) := c] else w.bySidCid,
       byPrincipal := Added(w.byPrincipal, c.principal, c),
       bySid := if c.sid.Some? then Added(w.bySid, c.sid.value, c) else w.bySid,
       joined := w.joined + {c})
  }

  /** Every other task waits where it waited. */
  predicate SameTasksBut(w: World, v: World, q: nat) {
    forall r | r in w.tasks && r != q :: r in v.tasks && v.tasks[r] == w.tasks[r]
  }

  function Ended(w: World, q: nat): (v: World)
    ensures v == w.(tasks := v.tasks) && SameTasksBut(w, v, q)
  {
    w.(tasks := w.tasks - {q})
  }

  function Continued(w: World, q: nat, t: Task): (v: World)
    ensures v == w.(tasks := v.tasks) && SameTasksBut(w, v, q)
  {
    w.(tasks := w.tasks[q := t])
  }

  /** A closing loop reaches its next victim, the next bucket of a shutdown, or its end. */
  function CloseNext(w: World, q: nat, todo: seq<Peer>, more: seq<Snapshot>): (v: World)
    ensures v == w.(tasks := v.tasks) && SameTasksBut(w, v, q)
  {
    if todo != [] then Continued(w, q, Closing(todo, more))
    else if more != [] then Continued(w, q, Sweeping(more))
    else Ended(w, q)
  }

  /** A registration reaches its end. */
  function JoinTurn(w: World, q: nat, c: Peer): (v: World)
    ensures v.queues == w.queues && v.closed == w.closed && SameTasksBut(w, v, q)
  {
    Ended(Join(w, c), q)
  }

  /** A task tears a connection down and waits for the socket to close. */
  function BodyTurn(w: World, q: nat, c: Peer, t: Task): (v: World)
    ensures v.queues == w.queues && v.closed == w.closed + {c} && SameTasksBut(w, v, q)
  {
    Continued(TeardownBody(w, c), q, t)
  }

  predicate Enumerates(order: seq<Peer>, s: set<Peer>) {
    && (set c | c in order) == s
    && (forall i, j | 0 <= i < j < |order| :: order[i] != order[j])
  }

  function Targets(w: World, a: Address): set<Peer> {
    match a
    case ToPrincipal(p) => Bucket(w.byPrincipal, p)
    case ToTopic(t) => Bucket(w.byTopic, t)
    case ToAll => set p, c | p in w.byPrincipal && c in w.byPrincipal[p] :: c
    case ToOne(c) => {c}
  }

  predicate Full(w: World, c: Peer) {
    c in w.queues && |w.queues[c]| >= c.capacity
  }

  function Overflow(w: World, a: Address): set<Peer> {
    set c | c in Targets(w, a) && c !in w.closed && Full(w, c)
  }

  /** The enqueueing loop: nothing is put on a closed connection or a full queue. */
  function Enqueued(w: World, a: Address, m: Message): map<Peer, seq<Message>> {
    map c | c in w.queues ::
      if c in Targets(w, a) && c !in w.closed && !Full(w, c) then w.queues[c] + [m] else w.queues[c]
  }

  // ------------------------------------------------------------------ moves

  /** The connection caps would be exceeded by one more. */
  predicate Filled(w: World, c: Peer) {
    |Registered(w)| >= w.maxTotal || |Bucket(w.byPrincipal, c.principal)| >= w.maxPerPrincipal
  }

  /** A reconnect of a tab that is in the index. */
  predicate Exempt(w: World, c: Peer) {
    HasTab(c) && TabOf(c) in w.bySidCid
  }

  /** The handshake has made a connection object with its welcome queued. */
  function Started(w: World, c: Peer, welcome: Message): World {
    w.(started := w.started + {c}, subscriptions := w.subscriptions[c := {}], queues := w.queues[c := [welcome]])
  }

  predicate Starts(w: World, q: nat, c: Peer) {
    q !in w.tasks && c !in w.started && c.capacity >= 1 && (Exempt(w, c) || !Filled(w, c))
  }

  /** The admission check and `register`, which run without interruption up to its first close. */
  function ConnectMove(w: World, q: nat, c: Peer, welcome: Message): World {
    if !Starts(w, q, c) then w
    else if Exempt(w, c) then Continued(Started(w, c, welcome), q, Replacing(c, w.bySidCid[TabOf(c)]))
    else Join(Started(w, c, welcome), c)
  }

  function ResumeMove(w: World, q: nat): (v: World)
    ensures v.queues == w.queues && w.closed <= v.closed && SameTasksBut(w, v, q)
  {
    if q !in w.tasks then w
    else
      match w.tasks[q]
      case Replacing(c, existing) =>
        if existing in w.closed then JoinTurn(w, q, c) else BodyTurn(w, q, existing, Joining(c))
      case Joining(c) => JoinTurn(w, q, c)
      case Closing(todo, more) =>
        if todo == [] then CloseNext(w, q, [], more)
        else if todo[0] in w.closed then CloseNext(w, q, todo[1..], more)
        else BodyTurn(w, q, todo[0], Draining(todo[1..], more))
      case Draining(rest, more) => CloseNext(w, q, rest, more)
      case Sweeping(_) => w
  }

  /** A loop over a snapshot of one bucket. */
  function KickMove(w: World, q: nat, victims: set<Peer>, order: seq<Peer>): (v: World)
    ensures v == w.(tasks := v.tasks)
  {
    if q in w.tasks || !Enumerates(order, victims) then w else CloseNext(w, q, order, [])
  }

  function SendMove(w: World, q: nat, a: Address, m: Message, order: seq<Peer>): (v: World)
    ensures v == w.(tasks := v.tasks, queues := v.queues)
  {
    if q in w.tasks || !Enumerates(order, Overflow(w, a)) || (a.ToOne? && a.conn !in w.joined) then w
    else CloseNext(w.(queues := Enqueued(w, a, m)), q, order, [])
  }

  /** `list(self._by_principal.values())`, in some order. */
  predicate Snapshots(w: World, buckets: seq<Snapshot>) {
    && (forall b | b in buckets :: b.principal in w.byPrincipal && b.members == w.byPrincipal[b.principal])
    && (forall p | p in w.byPrincipal :: Snapshot(p, w.byPrincipal[p]) in buckets)
  }

  /** `close_all` takes its list of buckets.  The first bucket is opened by a step of its own,
      which allows more interleavings than the code has. */
  function ShutdownMove(w: World, q: nat, buckets: seq<Snapshot>): (v: World)
    ensures v == w.(tasks := v.tasks) && SameTasksBut(w, v, q)
  {
    if q in w.tasks || !Snapshots(w, buckets) then w else CloseNext(w, q, [], buckets)
  }

  /** The shutdown lists the next bucket as it is now.  A bucket that has emptied meanwhile has
      left the index for good, and stays empty even if its principal comes back. */
  predicate Sweeps(w: World, q: nat, order: seq<Peer>) {
    && q in w.tasks && w.tasks[q].Sweeping? && w.tasks[q].more != []
    && var bucket := w.tasks[q].more[0];
       (Enumerates(order, Bucket(w.byPrincipal, bucket.principal)) || (order == [] && bucket.members <= w.closed))
  }

  function SweepMove(w: World, q: nat, order: seq<Peer>): (v: World)
    ensures v == w.(tasks := v.tasks) && SameTasksBut(w, v, q)
  {
    if !Sweeps(w, q, order) then w else CloseNext(w, q, order, w.tasks[q].more[1..])
  }

  function Make(w: World, m: Move): World {
    match m
    case Connect(q, c, welcome) => ConnectMove(w, q, c, welcome)
    case Resume(q) => ResumeMove(w, q)
    case Cancel(q) => Ended(w, q)
    case Kick(q, p, order) => KickMove(w, q, Bucket(w.byPrincipal, p), order)
    case KickSid(q, sid, order) => KickMove(w, q, Bucket(w.bySid, sid), order)
    case Send(q, a, message, order) => SendMove(w, q, a, message, order)
    case Shutdown(q, buckets) => ShutdownMove(w, q, buckets)
    case Sweep(q, order) => SweepMove(w, q, order)
    case Expire(q, c) =>  // heartbeat or re-check: close(code), then _teardown
      if q in w.tasks || c !in w.joined || c in w.closed then w else CloseNext(w, q, [c], [])
    case Drop(q, c) =>  // writer failure or end of the receive loop: _teardown at once
      if q in w.tasks || c !in Registered(w) then w
      else BodyTurn(w, q, c, Draining([], []))
    case Subscribe(c, t) =>
      if c !in w.joined then w
      else w.(subscriptions := w.subscriptions[c := SubscriptionsOf(w, c) + {t}], byTopic := Added(w.byTopic, t, c))
    case Unsubscribe(c, t) =>
      if c !in w.joined then w
      else w.(subscriptions := w.subscriptions[c := SubscriptionsOf(w, c) - {t}], byTopic := Discarded(w.byTopic, t, c))
    case WriterTake(c) =>
      if c !in w.joined || c !in w.queues || w.queues[c] == [] then w
      else w.(queues := w.queues[c := w.queues[c][1..]])
  }

  function Play(w: World, moves: seq<Move>): World
    decreases |moves|
  {
    if moves == [] then w else Play(Make(w, moves[0]), moves[1..])
  }

  function Empty(maxTotal: nat, maxPerPrincipal: nat): World {
    World(map[], map[], map[], map[], map[], map[], {}, {}, {}, multiset{}, map[], maxTotal, maxPerPrincipal)
  }

  // ------------------------------------------------------------------ the invariant

  /** The principal and session indexes both are the views of the registered connections,
      and a tab entry points to one of those. */
  ghost predicate IndexesAgree(w: World) {
    && w.byPrincipal == BucketsOf(ByPrincipalRel(Registered(w)))
    && w.bySid == BucketsOf(BySidRel(Registered(w)))
    && forall k | k in w.bySidCid ::
         w.bySidCid[k] in Registered(w) && HasTab(w.bySidCid[k]) && TabOf(w.bySidCid[k]) == k
  }

  /** A topic bucket holds only subscribers, and every registered subscriber. */
  ghost predicate TopicsCover(w: World) {
    && (forall t | t in w.byTopic :: w.byTopic[t] != {})
    && (forall t, c | c in Bucket(w.byTopic, t) :: c in w.joined && t in SubscriptionsOf(w, c))
    && (forall t, c | c in Registered(w) && t in SubscriptionsOf(w, c) :: c in Bucket(w.byTopic, t))
  }

  /** What `register` may rely on for a connection it has not entered yet. */
  predicate Fresh(w: World, c: Peer) {
    c in w.started && c !in w.joined && SubscriptionsOf(w, c) == {}
  }

  predicate TaskOk(w: World, t: Task) {
    match t
    case Replacing(c, existing) => Fresh(w, c) && existing in w.joined
    case Joining(c) => Fresh(w, c)
    case Closing(todo, _) => forall c | c in todo :: c in w.joined
    case Draining(rest, _) => forall c | c in rest :: c in w.joined
    case Sweeping(_) => true
  }

  predicate Registers(t: Task, c: Peer) {
    (t.Replacing? || t.Joining?) && t.conn == c
  }

  ghost predicate TasksOk(w: World) {
    && (forall q | q in w.tasks :: TaskOk(w, w.tasks[q]))
    && (forall q, r, c | q in w.tasks && r in w.tasks && Registers(w.tasks[q], c) && Registers(w.tasks[r], c) :: q == r)
  }

  ghost predicate Sane(w: World) {
    && w.closed <= w.joined <= w.started
    && w.subscriptions.Keys == w.queues.Keys == w.started
    && (forall c | c in w.queues :: |w.queues[c]| <= c.capacity)
    && (forall c :: w.bodies[c] == if c in w.closed then 1 else 0)
  }

  ghost predicate WorldInv(w: World) {
    Sane(w) && IndexesAgree(w) && TopicsCover(w) && TasksOk(w)
  }

  // ------------------------------------------------------------------ the pieces keep it

  lemma OneLessByPrincipal(peers: set<Peer>, c: Peer)
    requires c in peers
    ensures Discarded(BucketsOf(ByPrincipalRel(peers)), c.principal, c) == BucketsOf(ByPrincipalRel(peers - {c}))
  {
    DiscardingKeepsBuckets(ByPrincipalRel(peers), c.principal, c);
    assert ByPrincipalRel(peers) - {(c.principal, c)} == ByPrincipalRel(peers - {c});
  }

  lemma OneLessBySid(peers: set<Peer>, c: Peer)
    requires c in peers
    ensures c.sid.Some? ==>
              Discarded(BucketsOf(BySidRel(peers)), c.sid.value, c) == BucketsOf(BySidRel(peers - {c}))
    ensures c.sid.None? ==> BySidRel(peers - {c}) == BySidRel(peers)
  {
    if c.sid.Some? {
      DiscardingKeepsBuckets(BySidRel(peers), c.sid.value, c);
      assert BySidRel(peers) - {(c.sid.value, c)} == BySidRel(peers - {c});
    }
  }

  lemma BodyKeepsIndexes(w: World, c: Peer)
    requires IndexesAgree(w) && c in Registered(w)
    ensures IndexesAgree(TeardownBody(w, c))
  {
    assert Registered(TeardownBody(w, c)) == Registered(w) - {c};
    OneLessByPrincipal(Registered(w), c);
    OneLessBySid(Registered(w), c);
  }

  lemma BodyKeepsTopics(w: World, c: Peer)
    requires TopicsCover(w)
    ensures TopicsCover(TeardownBody(w, c))
    ensures forall t :: c !in Bucket(TeardownBody(w, c).byTopic, t)
    ensures forall t, d | d != c :: d in Bucket(TeardownBody(w, c).byTopic, t) <==> d in Bucket(w.byTopic, t)
  {
    var v := TeardownBody(w, c);
    forall t, d
      ensures d in Bucket(v.byTopic, t) <==> d in Bucket(w.byTopic, t) && d != c
    {
      assert c in Bucket(w.byTopic, t) ==> t in SubscriptionsOf(w, c);
      assert d in Bucket(w.byTopic, t) && d != c ==> d in Bucket(w.byTopic, t) - {c};
    }
    forall t, d | d in Bucket(v.byTopic, t)
      ensures d in v.joined && t in SubscriptionsOf(v, d)
    {
      assert d in Bucket(w.byTopic, t);
    }
    forall t, d | d in Registered(v) && t in SubscriptionsOf(v, d)
      ensures d in Bucket(v.byTopic, t)
    {
      assert d in Registered(w) && t in SubscriptionsOf(w, d);
    }
  }

  lemma BodyKeepsSane(w: World, c: Peer)
    requires Sane(w) && c in Registered(w)
    ensures Sane(TeardownBody(w, c))
  {
  }

  lemma BodyKeepsInv(w: World, c: Peer)
    requires WorldInv(w) && c in Registered(w)
    ensures WorldInv(TeardownBody(w, c))
  {
    BodyKeepsSane(w, c);
    BodyKeepsIndexes(w, c);
    BodyKeepsTopics(w, c);
    assert forall t :: TaskOk(w, t) ==> TaskOk(TeardownBody(w, c), t);
  }

  lemma JoinKeepsIndexes(w: World, c: Peer)
    requires IndexesAgree(w) && c !in w.closed
    ensures IndexesAgree(Join(w, c))
  {
    var peers := Registered(w);
    assert Registered(Join(w, c)) == peers + {c};
    AddingKeepsBuckets(ByPrincipalRel(peers), c.principal, c);
    assert ByPrincipalRel(peers) + {(c.principal, c)} == ByPrincipalRel(peers + {c});
    if c.sid.Some? {
      AddingKeepsBuckets(BySidRel(peers), c.sid.value, c);
      assert BySidRel(peers) + {(c.sid.value, c)} == BySidRel(peers + {c});
    } else {
      assert BySidRel(peers) == BySidRel(peers + {c});
    }
  }

  /** Everything but the tasks themselves looks elsewhere. */
  lemma TasksLeaveTheRest(w: World, v: World)
    requires Sane(w) && IndexesAgree(w) && TopicsCover(w) && v == w.(tasks := v.tasks)
    ensures Sane(v) && IndexesAgree(v) && TopicsCover(v)
    ensures forall t :: TaskOk(w, t) ==> TaskOk(v, t)
  {
    assert Registered(v) == Registered(w);
    assert forall c :: SubscriptionsOf(v, c) == SubscriptionsOf(w, c);
  }

  lemma EndingKeepsInv(w: World, q: nat)
    requires WorldInv(w)
    ensures WorldInv(Ended(w, q))
  {
    TasksLeaveTheRest(w, Ended(w, q));
  }

  /** Starting or continuing a task that registers nobody new. */
  lemma ContinuingKeepsInv(w: World, q: nat, t: Task)
    requires WorldInv(w) && TaskOk(w, t)
    requires forall r, c | r in w.tasks && r != q && Registers(w.tasks[r], c) :: !Registers(t, c)
    ensures WorldInv(Continued(w, q, t))
  {
    var v := Continued(w, q, t);
    TasksLeaveTheRest(w, v);
    forall r | r in v.tasks
      ensures TaskOk(v, v.tasks[r])
    {
      assert r != q ==> TaskOk(w, w.tasks[r]);
    }
  }

  lemma CloseNextKeepsInv(w: World, q: nat, todo: seq<Peer>, more: seq<Snapshot>)
    requires WorldInv(w) && forall c | c in todo :: c in w.joined
    ensures WorldInv(CloseNext(w, q, todo, more))
  {
    if todo != [] {
      ContinuingKeepsInv(w, q, Closing(todo, more));
    } else if more != [] {
      ContinuingKeepsInv(w, q, Sweeping(more));
    } else {
      EndingKeepsInv(w, q);
    }
  }

  /** The end of a registration, with its task already over. */
  lemma JoinKeepsInv(w: World, c: Peer)
    requires WorldInv(w) && Fresh(w, c)
    requires forall q | q in w.tasks :: !Registers(w.tasks[q], c)
    ensures WorldInv(Join(w, c))
  {
    var v := Join(w, c);
    JoinKeepsIndexes(w, c);
    assert Registered(v) == Registered(w) + {c};
    forall q | q in v.tasks
      ensures TaskOk(v, v.tasks[q])
    {
      assert TaskOk(w, w.tasks[q]);
      assert !Registers(w.tasks[q], c);
    }
    forall t, d | d in Registered(v) && t in SubscriptionsOf(v, d)
      ensures d in Bucket(v.byTopic, t)
    {
      assert d in Registered(w) && t in SubscriptionsOf(w, d);
    }
  }

  // ------------------------------------------------------------------ the moves keep it

  lemma StartingKeepsTasks(w: World, c: Peer, welcome: Message)
    requires Sane(w) && TasksOk(w) && c !in w.started
    ensures TasksOk(Started(w, c, welcome)) && forall r | r in w.tasks :: !Registers(w.tasks[r], c)
  {
    var v := Started(w, c, welcome);
    forall r | r in w.tasks
      ensures TaskOk(v, w.tasks[r]) && !Registers(w.tasks[r], c)
    {
      assert TaskOk(w, w.tasks[r]);
    }
  }

  lemma StartingKeepsInv(w: World, c: Peer, welcome: Message)
    requires WorldInv(w) && c !in w.started && c.capacity >= 1
    ensures WorldInv(Started(w, c, welcome)) && Fresh(Started(w, c, welcome), c)
    ensures forall r | r in w.tasks :: !Registers(w.tasks[r], c)
  {
    var v := Started(w, c, welcome);
    assert Registered(v) == Registered(w);
    assert forall t, d :: t in SubscriptionsOf(v, d) <==> t in SubscriptionsOf(w, d);
    StartingKeepsTasks(w, c, welcome);
    assert IndexesAgree(v) && TopicsCover(v);
  }

  lemma ConnectKeepsInv(w: World, q: nat, c: Peer, welcome: Message)
    requires WorldInv(w)
    ensures WorldInv(ConnectMove(w, q, c, welcome))
  {
    if Starts(w, q, c) {
      StartingKeepsInv(w, c, welcome);
      var v := Started(w, c, welcome);
      if Exempt(w, c) {
        ContinuingKeepsInv(v, q, Replacing(c, w.bySidCid[TabOf(c)]));
      } else {
        JoinKeepsInv(v, c);
      }
    }
  }

  lemma RegistrationEndKeepsInv(w: World, q: nat)
    requires WorldInv(w) && q in w.tasks && (w.tasks[q].Replacing? || w.tasks[q].Joining?)
    ensures WorldInv(JoinTurn(w, q, w.tasks[q].conn))
  {
    var c := w.tasks[q].conn;
    assert TaskOk(w, w.tasks[q]) && Registers(w.tasks[q], c);
    EndingKeepsInv(w, q);
    var v := Ended(w, q);
    forall r | r in v.tasks
      ensures !Registers(v.tasks[r], c)
    {
      assert r in w.tasks && r != q;
    }
    JoinKeepsInv(v, c);
    assert JoinTurn(w, q, c) == Join(v, c);
  }

  lemma ResumeKeepsInv(w: World, q: nat)
    requires WorldInv(w)
    ensures WorldInv(ResumeMove(w, q))
  {
    if q in w.tasks {
      assert TaskOk(w, w.tasks[q]);
      match w.tasks[q]
      case Replacing(c, existing) =>
        if existing in w.closed {
          RegistrationEndKeepsInv(w, q);
        } else {
          BodyKeepsInv(w, existing);
          assert Registers(w.tasks[q], c);
          ContinuingKeepsInv(TeardownBody(w, existing), q, Joining(c));
        }
      case Joining(c) => RegistrationEndKeepsInv(w, q);
      case Closing(todo, more) =>
        if todo == [] {
          CloseNextKeepsInv(w, q, [], more);
        } else if todo[0] in w.closed {
          CloseNextKeepsInv(w, q, todo[1..], more);
        } else {
          BodyKeepsInv(w, todo[0]);
          ContinuingKeepsInv(TeardownBody(w, todo[0]), q, Draining(todo[1..], more));
        }
      case Draining(rest, more) => CloseNextKeepsInv(w, q, rest, more);
      case Sweeping(_) =>
    }
  }

  /** Everything a principal, session or topic bucket holds has joined. */
  lemma BucketsHoldJoined(w: World, c: Peer)
    requires WorldInv(w)
    ensures forall p :: c in Bucket(w.byPrincipal, p) <==> c in Registered(w) && c.principal == p
    ensures forall sid :: c in Bucket(w.bySid, sid) <==> c in Registered(w) && c.sid == Some(sid)
    ensures forall t | c in Bucket(w.byTopic, t) :: c in w.joined
  {
    forall p
      ensures c in Bucket(w.byPrincipal, p) <==> c in Registered(w) && c.principal == p
    {
      BucketIsExact(ByPrincipalRel(Registered(w)), p, c);
    }
    forall sid
      ensures c in Bucket(w.bySid, sid) <==> c in Registered(w) && c.sid == Some(sid)
    {
      BucketIsExact(BySidRel(Registered(w)), sid, c);
    }
  }

  lemma TargetsHaveJoined(w: World, a: Address, c: Peer)
    requires WorldInv(w) && c in Targets(w, a) && (a.ToOne? ==> a.conn in w.joined)
    ensures c in w.joined
  {
  }

  lemma QueuesKeepInv(w: World, queues: map<Peer, seq<Message>>)
    requires WorldInv(w) && queues.Keys == w.queues.Keys
    requires forall c | c in queues :: |queues[c]| <= c.capacity
    ensures WorldInv(w.(queues := queues))
  {
    var v := w.(queues := queues);
    assert Registered(v) == Registered(w);
    assert forall c :: SubscriptionsOf(v, c) == SubscriptionsOf(w, c);
    assert forall t :: TaskOk(w, t) ==> TaskOk(v, t);
  }

  lemma SendKeepsInv(w: World, q: nat, a: Address, m: Message, order: seq<Peer>)
    requires WorldInv(w)
    ensures WorldInv(Make(w, Send(q, a, m, order)))
  {
    if q !in w.tasks && Enumerates(order, Overflow(w, a)) && (a.ToOne? ==> a.conn in w.joined) {
      QueuesKeepInv(w, Enqueued(w, a, m));
      forall c | c in order
        ensures c in w.joined
      {
        assert c in Overflow(w, a);
        TargetsHaveJoined(w, a, c);
      }
      CloseNextKeepsInv(w.(queues := Enqueued(w, a, m)), q, order, []);
    }
  }

  lemma KickKeepsInv(w: World, m: Move)
    requires WorldInv(w) && (m.Kick? || m.KickSid?)
    ensures WorldInv(Make(w, m))
  {
    if Make(w, m) != w {
      forall c | c in m.order
        ensures c in w.joined
      {
        BucketsHoldJoined(w, c);
        assert c in (set d | d in m.order);
      }
      CloseNextKeepsInv(w, m.task, m.order, []);
    }
  }

  lemma SweepKeepsInv(w: World, q: nat, order: seq<Peer>)
    requires WorldInv(w)
    ensures WorldInv(SweepMove(w, q, order))
  {
    if Sweeps(w, q, order) {
      forall c | c in order
        ensures c in w.joined
      {
        BucketsHoldJoined(w, c);
        assert c in (set d | d in order);
      }
      CloseNextKeepsInv(w, q, order, w.tasks[q].more[1..]);
    }
  }

  /** One topic bucket and one subscription set change together. */
  lemma SubscriptionKeepsTopics(w: World, v: World, c: Peer, t: Topic, subscribed: bool)
    requires TopicsCover(w) && c in w.joined
    requires v.joined == w.joined && v.closed == w.closed
    requires v.subscriptions
          == w.subscriptions[c := if subscribed then SubscriptionsOf(w, c) + {t} else SubscriptionsOf(w, c) - {t}]
    requires v.byTopic == if subscribed then Added(w.byTopic, t, c) else Discarded(w.byTopic, t, c)
    ensures TopicsCover(v)
  {
    forall t', d
      ensures d in Bucket(v.byTopic, t') <==> if d == c && t' == t then subscribed else d in Bucket(w.byTopic, t')
      ensures t' in SubscriptionsOf(v, d) <==> if d == c && t' == t then subscribed else t' in SubscriptionsOf(w, d)
    {
      assert d in Bucket(w.byTopic, t) && d != c ==> d in Bucket(w.byTopic, t) - {c};
    }
    assert Registered(v) == Registered(w);
  }

  lemma SubscriptionKeepsInv(w: World, m: Move)
    requires WorldInv(w) && (m.Subscribe? || m.Unsubscribe?)
    ensures WorldInv(Make(w, m))
  {
    var v := Make(w, m);
    if v != w {
      SubscriptionKeepsTopics(w, v, m.conn, m.topic, m.Subscribe?);
      assert Registered(v) == Registered(w);
      assert v.subscriptions.Keys == w.subscriptions.Keys;
      forall q | q in v.tasks
        ensures TaskOk(v, v.tasks[q])
      {
        assert TaskOk(w, w.tasks[q]);
      }
      assert Sane(v) && IndexesAgree(v) && TasksOk(v);
    }
  }

  lemma MoveKeepsInv(w: World, m: Move)
    requires WorldInv(w)
    ensures WorldInv(Make(w, m))
  {
    match m
    case Connect(q, c, welcome) => ConnectKeepsInv(w, q, c, welcome);
    case Resume(q) => ResumeKeepsInv(w, q);
    case Cancel(q) => EndingKeepsInv(w, q);
    case Kick(_, _, _) => KickKeepsInv(w, m);
    case KickSid(_, _, _) => KickKeepsInv(w, m);
    case Send(q, a, message, order) => SendKeepsInv(w, q, a, message, order);
    case Shutdown(q, buckets) => CloseNextKeepsInv(w, q, [], buckets);
    case Sweep(q, order) => SweepKeepsInv(w, q, order);
    case Expire(q, c) =>
      if Make(w, m) != w {
        CloseNextKeepsInv(w, q, [c], []);
      }
    case Drop(q, c) =>
      if Make(w, m) != w {
        BodyKeepsInv(w, c);
        ContinuingKeepsInv(TeardownBody(w, c), q, Draining([], []));
      }
    case Subscribe(_, _) => SubscriptionKeepsInv(w, m);
    case Unsubscribe(_, _) => SubscriptionKeepsInv(w, m);
    case WriterTake(c) =>
      if Make(w, m) != w {
        QueuesKeepInv(w, w.queues[c := w.queues[c][1..]]);
      }
  }

  lemma {:induction false} PlayKeepsInv(w: World, moves: seq<Move>)
    requires WorldInv(w)
    ensures WorldInv(Play(w, moves))
    decreases |moves|
  {
    if moves != [] {
      MoveKeepsInv(w, moves[0]);
      PlayKeepsInv(Make(w, moves[0]), moves[1..]);
    }
  }
}
