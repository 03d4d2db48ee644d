/**
  The sampler's leader lease: one shared key with a holder and a time to live
  (app/services/monitoring/sampler.py).  Every Redis command is a step of its own.
*/
module Lease {
  import opened Wrappers

  datatype Entry = Entry(holder: nat, expiry: int)

  type Key = Option<Entry>

  predicate Live(key: Key, now: int) {
    key.Some? && now < key.value.expiry
  }

  predicate HeldBy(key: Key, now: int, i: nat) {
    Live(key, now) && key.value.holder == i
  }

  /** `SET key i NX EX lease` */
  function AfterSet(key: Key, now: int, i: nat, lease: nat): Key {
    if Live(key, now) then key else Some(Entry(i, now + lease))
  }

  /** `EXPIRE key lease`: whoever holds it, and nothing when it is gone. */
  function AfterExpire(key: Key, now: int, lease: nat): Key {
    if Live(key, now) then Some(key.value.(expiry := now + lease)) else key
  }

  // ------------------------------------------------------------------ the protocol, command by command

  /** Where an instance stands between two commands; `seen` is the expiry of its own key at its GET. */
  datatype Phase = Idle | Checking | Renewing(seen: int) | Releasing(seen: int)

  /** `lead[i]` is the instant of the last acquisition that instance `i` was told succeeded and
      has not given up. */
  datatype World = World(now: int, key: Key, phases: map<nat, Phase>, lead: map<nat, int>)
  {
    function PhaseOf(i: nat): Phase {
      if i in phases then phases[i] else Idle
    }

    /** Instance `i` believes it leads: acquired, not released, younger than the lease. */
    predicate Leads(i: nat, lease: nat) {
      i in lead && now < lead[i] + lease
    }
  }

  const START := World(0, None, map[], map[])

  datatype Move =
    | Elapse(seconds: nat)
    | Set(i: nat)      // acquire, first command
    | Check(i: nat)    // acquire, second command: GET
    | Renew(i: nat)    // acquire, third command: EXPIRE
    | Stop(i: nat)     // stop: the loop is cancelled, then release's GET
    | Delete(i: nat)   // release, second command

  function Step(w: World, m: Move, lease: nat): World {
    match m
    case Elapse(seconds) => w.(now := w.now + seconds)
    case Set(i) =>
      if !w.PhaseOf(i).Idle? then w
      else if Live(w.key, w.now) then w.(phases := w.phases[i := Checking])
      else w.(key := AfterSet(w.key, w.now, i, lease), lead := w.lead[i := w.now])
    case Check(i) =>
      if !w.PhaseOf(i).Checking? then w
      else w.(phases := w.phases[i := if HeldBy(w.key, w.now, i) then Renewing(w.key.value.expiry) else Idle])
    case Renew(i) =>
      if !w.PhaseOf(i).Renewing? then w
      else w.(key := AfterExpire(w.key, w.now, lease), phases := w.phases[i := Idle], lead := w.lead[i := w.now])
    case Stop(i) =>
      if w.PhaseOf(i).Releasing? then w
      else w.(phases := w.phases[i := if HeldBy(w.key, w.now, i) then Releasing(w.key.value.expiry) else Idle],
              lead := w.lead - {i})
    case Delete(i) =>
      if !w.PhaseOf(i).Releasing? then w else w.(key := None, phases := w.phases[i := Idle])
  }

  function Run(w: World, moves: seq<Move>, lease: nat): World
    decreases |moves|
  {
    if moves == [] then w else Run(Step(w, moves[0], lease), moves[1..], lease)
  }

  lemma RunCons(w: World, m: Move, rest: seq<Move>, lease: nat)
    ensures Run(w, [m] + rest, lease) == Run(Step(w, m, lease), rest, lease)
  {
  }

  // ------------------------------------------------------------------ exclusivity

  /** Whoever believes it leads holds the key for at least as long as it believes so. */
  ghost predicate Backed(w: World, lease: nat) {
    forall i | w.Leads(i, lease) :: HeldBy(w.key, w.now, i) && w.key.value.expiry >= w.lead[i] + lease
  }

  ghost predicate Timely(w: World, lease: nat) {
    && (w.key.Some? ==> w.key.value.expiry <= w.now + lease)
    && (forall i | i in w.lead :: w.lead[i] <= w.now)
    && (forall i | w.PhaseOf(i).Releasing? :: i !in w.lead)
  }

  ghost predicate Exclusive(w: World, lease: nat) {
    forall i, j | w.Leads(i, lease) && w.Leads(j, lease) :: i == j
  }

  lemma BackedIsExclusive(w: World, lease: nat)
    requires Backed(w, lease)
    ensures Exclusive(w, lease)
  {
  }

  lemma StepKeepsTimely(w: World, m: Move, lease: nat)
    requires Timely(w, lease)
    ensures Timely(Step(w, m, lease), lease)
  {
  }

  /** The second command of a renewal or a release takes the key from under a leader. */
  ghost predicate Harmful(w: World, m: Move, lease: nat) {
    match m
    case Renew(i) => w.PhaseOf(i).Renewing? && !HeldBy(w.key, w.now, i)
    case Delete(i) => w.PhaseOf(i).Releasing? && exists j :: w.Leads(j, lease)
    case _ => false
  }

  lemma HarmlessKeeps(w: World, m: Move, lease: nat)
    requires lease >= 1 && Timely(w, lease) && Backed(w, lease) && !Harmful(w, m, lease)
    ensures Backed(Step(w, m, lease), lease)
  {
    var v := Step(w, m, lease);
    forall j | v.Leads(j, lease)
      ensures HeldBy(v.key, v.now, j) && v.key.value.expiry >= v.lead[j] + lease
    {
      if j in w.lead && v.lead[j] == w.lead[j] {
        assert w.Leads(j, lease);
      }
    }
  }

  // ------------------------------------------------------------------ punctual runs

  /** The instance's second command is executed before the key it saw can expire. */
  predicate Punctual(w: World, m: Move) {
    match m
    case Renew(i) => w.PhaseOf(i).Renewing? ==> w.now < w.PhaseOf(i).seen
    case Delete(i) => w.PhaseOf(i).Releasing? ==> w.now < w.PhaseOf(i).seen
    case _ => true
  }

  predicate PunctualRun(w: World, moves: seq<Move>, lease: nat)
    decreases |moves|
  {
    moves != [] ==> Punctual(w, moves[0]) && PunctualRun(Step(w, moves[0], lease), moves[1..], lease)
  }

  predicate Claims(p: Phase, now: int) {
    (p.Renewing? || p.Releasing?) && now < p.seen
  }

  /** What an instance saw at its GET still holds until the instant it saw. */
  ghost predicate Sure(w: World) {
    forall i | Claims(w.PhaseOf(i), w.now) :: HeldBy(w.key, w.now, i) && w.key.value.expiry >= w.PhaseOf(i).seen
  }

  // ------------------------------------------------------------------ stale commands

  /** The second command finds the key no longer the instance's own: it renews a key that is
      gone or somebody else's, or deletes somebody else's. */
  predicate Stale(w: World, m: Move) {
    match m
    case Renew(i) => w.PhaseOf(i).Renewing? && !HeldBy(w.key, w.now, i)
    case Delete(i) => w.PhaseOf(i).Releasing? && Live(w.key, w.now) && w.key.value.holder != i
    case _ => false
  }

  /** A live key belongs to a leader, for as long as it leads, or to an instance that has read
      the key in order to delete it. */
  ghost predicate Owned(w: World, lease: nat) {
    Live(w.key, w.now) ==>
      var h := w.key.value.holder;
      || (h in w.lead && w.key.value.expiry == w.lead[h] + lease)
      || w.PhaseOf(h) == Releasing(w.key.value.expiry)
  }

  ghost predicate LeaseInv(w: World, lease: nat) {
    Timely(w, lease) && Backed(w, lease) && Owned(w, lease) && Sure(w)
  }

  lemma FreshStepKeepsSure(w: World, m: Move, lease: nat)
    requires lease >= 1 && Timely(w, lease) && Sure(w) && !Stale(w, m)
    ensures Sure(Step(w, m, lease))
  {
    var v := Step(w, m, lease);
    forall i | Claims(v.PhaseOf(i), v.now)
      ensures HeldBy(v.key, v.now, i) && v.key.value.expiry >= v.PhaseOf(i).seen
    {
      if w.PhaseOf(i) == v.PhaseOf(i) {
        assert Claims(w.PhaseOf(i), w.now);
      }
    }
  }

  lemma FreshStepKeepsInv(w: World, m: Move, lease: nat)
    requires lease >= 1 && LeaseInv(w, lease) && !Stale(w, m)
    ensures LeaseInv(Step(w, m, lease), lease)
  {
    StepKeepsTimely(w, m, lease);
    FreshStepKeepsSure(w, m, lease);
    HarmlessKeeps(w, m, lease);
  }

  lemma PunctualIsFresh(w: World, m: Move)
    requires Sure(w) && Punctual(w, m)
    ensures !Stale(w, m)
  {
    if m.Renew? || m.Delete? {
      assert Claims(w.PhaseOf(m.i), w.now) ==> HeldBy(w.key, w.now, m.i);
    }
  }

  lemma {:induction false} PunctualRunsKeep(w: World, moves: seq<Move>, lease: nat)
    requires lease >= 1 && LeaseInv(w, lease) && PunctualRun(w, moves, lease)
    ensures LeaseInv(Run(w, moves, lease), lease)
    decreases |moves|
  {
    if moves != [] {
      PunctualIsFresh(w, moves[0]);
      FreshStepKeepsInv(w, moves[0], lease);
      PunctualRunsKeep(Step(w, moves[0], lease), moves[1..], lease);
    }
  }

  // ------------------------------------------------------------------ exactly when two instances can lead

  /** Commands that come in time never lead to two leaders from here. */
  ghost predicate Safe(w: World, lease: nat) {
    forall more: seq<Move> | PunctualRun(w, more, lease) :: Exclusive(Run(w, more, lease), lease)
  }

  lemma InvIsSafe(w: World, lease: nat)
    requires lease >= 1 && LeaseInv(w, lease)
    ensures Safe(w, lease)
  {
    forall more: seq<Move> | PunctualRun(w, more, lease)
      ensures Exclusive(Run(w, more, lease), lease)
    {
      PunctualRunsKeep(w, more, lease);
      BackedIsExclusive(Run(w, more, lease), lease);
    }
  }

  lemma UnsafeBefore(w: World, m: Move, lease: nat)
    requires Punctual(w, m) && !Safe(Step(w, m, lease), lease)
    ensures !Safe(w, lease)
  {
    var v := Step(w, m, lease);
    var more: seq<Move> :| PunctualRun(v, more, lease) && !Exclusive(Run(v, more, lease), lease);
    RunCons(w, m, more, lease);
    assert ([m] + more)[1..] == more;
    assert PunctualRun(w, [m] + more, lease);
  }

  lemma TwoLeadersAreUnsafe(w: World, i: nat, j: nat, lease: nat)
    requires w.Leads(i, lease) && w.Leads(j, lease) && i != j
    ensures !Safe(w, lease)
  {
    assert PunctualRun(w, [], lease) && !Exclusive(Run(w, [], lease), lease);
  }

  /** A leader without a key: any newcomer becomes the second leader. */
  lemma LeaderWithoutKey(w: World, i: nat, lease: nat)
    requires lease >= 1 && w.Leads(i, lease) && !Live(w.key, w.now)
    ensures !Safe(w, lease)
  {
    var k := SomethingNew(w.phases.Keys + w.lead.Keys);
    TwoLeadersAreUnsafe(Step(w, Set(k), lease), i, k, lease);
    UnsafeBefore(w, Set(k), lease);
  }

  /** A leader whose key another instance is about to delete in time. */
  lemma LeaderAboutToLoseKey(w: World, i: nat, j: nat, lease: nat)
    requires lease >= 1 && w.Leads(i, lease) && w.PhaseOf(j).Releasing? && w.now < w.PhaseOf(j).seen
    ensures !Safe(w, lease)
  {
    LeaderWithoutKey(Step(w, Delete(j), lease), i, lease);
    UnsafeBefore(w, Delete(j), lease);
  }

  lemma StaleRenewalIsUnsafe(w: World, i: nat, lease: nat)
    requires lease >= 1 && LeaseInv(w, lease) && Stale(w, Renew(i))
    ensures !Safe(Step(w, Renew(i), lease), lease)
  {
    var v := Step(w, Renew(i), lease);
    assert v.Leads(i, lease);
    if !Live(w.key, w.now) {
      LeaderWithoutKey(v, i, lease);
    } else {
      var h := w.key.value.holder;
      if w.PhaseOf(h).Releasing? {
        LeaderAboutToLoseKey(v, i, h, lease);
      } else {
        TwoLeadersAreUnsafe(v, i, h, lease);
      }
    }
  }

  lemma StaleDeleteIsUnsafe(w: World, i: nat, lease: nat)
    requires lease >= 1 && LeaseInv(w, lease) && Stale(w, Delete(i))
    ensures !Safe(Step(w, Delete(i), lease), lease)
  {
    var v := Step(w, Delete(i), lease);
    var h := w.key.value.holder;
    if w.Leads(h, lease) {
      LeaderWithoutKey(v, h, lease);
    } else {
      var k := SomethingNew(v.phases.Keys + v.lead.Keys + {h});
      LeaderAboutToLoseKey(Step(v, Set(k), lease), k, h, lease);
      UnsafeBefore(v, Set(k), lease);
    }
  }

  /** One command: afterwards punctual commands can lead to two leaders exactly when it was stale. */
  lemma StepKeepsSafeIff(w: World, m: Move, lease: nat)
    requires lease >= 1 && LeaseInv(w, lease)
    ensures Safe(Step(w, m, lease), lease) <==> !Stale(w, m)
  {
    if !Stale(w, m) {
      FreshStepKeepsInv(w, m, lease);
      InvIsSafe(Step(w, m, lease), lease);
    } else if m.Renew? {
      StaleRenewalIsUnsafe(w, m.i, lease);
    } else {
      StaleDeleteIsUnsafe(w, m.i, lease);
    }
  }

  ghost predicate AlwaysSafe(w: World, moves: seq<Move>, lease: nat)
    decreases |moves|
  {
    Safe(w, lease) && (moves != [] ==> AlwaysSafe(Step(w, moves[0], lease), moves[1..], lease))
  }

  predicate NeverStale(w: World, moves: seq<Move>, lease: nat)
    decreases |moves|
  {
    moves != [] ==> !Stale(w, moves[0]) && NeverStale(Step(w, moves[0], lease), moves[1..], lease)
  }

  lemma {:induction false} NeverStaleIffFrom(w: World, moves: seq<Move>, lease: nat)
    requires lease >= 1 && LeaseInv(w, lease)
    ensures AlwaysSafe(w, moves, lease) <==> NeverStale(w, moves, lease)
    decreases |moves|
  {
    InvIsSafe(w, lease);
    if moves != [] {
      StepKeepsSafeIff(w, moves[0], lease);
      if !Stale(w, moves[0]) {
        FreshStepKeepsInv(w, moves[0], lease);
        NeverStaleIffFrom(Step(w, moves[0], lease), moves[1..], lease);
      }
    }
  }

  /** Over a whole run of single commands, late ones included: at no point can commands that
      come in time lead to two leaders if and only if no command of the run is stale. */
  lemma TwoLeadersIff(moves: seq<Move>, lease: nat)
    requires lease >= 1
    ensures AlwaysSafe(START, moves, lease) <==> NeverStale(START, moves, lease)
  {
    NeverStaleIffFrom(START, moves, lease);
  }

  lemma {:induction false} FreshRunsKeep(w: World, moves: seq<Move>, lease: nat)
    requires lease >= 1 && LeaseInv(w, lease) && NeverStale(w, moves, lease)
    ensures LeaseInv(Run(w, moves, lease), lease)
    decreases |moves|
  {
    if moves != [] {
      FreshStepKeepsInv(w, moves[0], lease);
      FreshRunsKeep(Step(w, moves[0], lease), moves[1..], lease);
    }
  }

  /** A run without a stale command never has two leaders, however late its commands are. */
  lemma FreshRunsAreExclusive(moves: seq<Move>, lease: nat)
    requires lease >= 1 && NeverStale(START, moves, lease)
    ensures Exclusive(Run(START, moves, lease), lease)
  {
    FreshRunsKeep(START, moves, lease);
    BackedIsExclusive(Run(START, moves, lease), lease);
  }

  /** No two instances ever lead at once in a run in which every second command comes in time. */
  lemma OneLeader(moves: seq<Move>, lease: nat)
    requires lease >= 1 && PunctualRun(START, moves, lease)
    ensures Exclusive(Run(START, moves, lease), lease)
  {
    PunctualRunsKeep(START, moves, lease);
    BackedIsExclusive(Run(START, moves, lease), lease);
  }

  /** Release removes the instance's own key only, and no leader loses its lease to it. */
  lemma ReleaseRemovesOwnKey(moves: seq<Move>, i: nat, lease: nat)
    requires lease >= 1 && PunctualRun(START, moves, lease)
    requires var w := Run(START, moves, lease); Punctual(w, Delete(i)) && w.PhaseOf(i).Releasing?
    ensures var w := Run(START, moves, lease);
            HeldBy(w.key, w.now, i) && forall j :: !w.Leads(j, lease)
  {
    PunctualRunsKeep(START, moves, lease);
    var w := Run(START, moves, lease);
    assert Claims(w.PhaseOf(i), w.now);
  }

  // ------------------------------------------------------------------ commands that are not torn apart

  /** Acquire and release without another command or a tick of the clock in between. */
  datatype Call = Acquire(i: nat) | Release(i: nat) | Wait(seconds: nat)

  function MovesOf(c: Call): seq<Move> {
    match c
    case Acquire(i) => [Set(i), Check(i), Renew(i)]
    case Release(i) => [Stop(i), Delete(i)]
    case Wait(seconds) => [Elapse(seconds)]
  }

  lemma RunOfCall(w: World, c: Call, lease: nat)
    ensures c.Acquire? ==>
              Run(w, MovesOf(c), lease) == Step(Step(Step(w, Set(c.i), lease), Check(c.i), lease), Renew(c.i), lease)
    ensures c.Release? ==> Run(w, MovesOf(c), lease) == Step(Step(w, Stop(c.i), lease), Delete(c.i), lease)
    ensures c.Wait? ==> Run(w, MovesOf(c), lease) == Step(w, Elapse(c.seconds), lease)
  {
    match c
    case Acquire(i) =>
      var w1 := Step(w, Set(i), lease);
      RunCons(w, Set(i), [Check(i), Renew(i)], lease);
      RunCons(w1, Check(i), [Renew(i)], lease);
      RunCons(Step(w1, Check(i), lease), Renew(i), [], lease);
    case Release(i) =>
      RunCons(w, Stop(i), [Delete(i)], lease);
      RunCons(Step(w, Stop(i), lease), Delete(i), [], lease);
    case Wait(seconds) =>
      RunCons(w, Elapse(seconds), [], lease);
  }

  function AllMoves(calls: seq<Call>): seq<Move> {
    if calls == [] then [] else MovesOf(calls[0]) + AllMoves(calls[1..])
  }

  ghost predicate Quiet(w: World) {
    forall i :: w.PhaseOf(i).Idle?
  }

  lemma CallEndsQuiet(w: World, c: Call, lease: nat)
    requires Quiet(w)
    ensures Quiet(Run(w, MovesOf(c), lease))
  {
    RunOfCall(w, c, lease);
    var v := Run(w, MovesOf(c), lease);
    forall k
      ensures v.PhaseOf(k).Idle?
    {
      assert w.PhaseOf(k).Idle?;
    }
  }

  lemma CallIsPunctual(w: World, c: Call, rest: seq<Move>, lease: nat)
    requires lease >= 1 && Quiet(w)
    requires PunctualRun(Run(w, MovesOf(c), lease), rest, lease)
    ensures PunctualRun(w, MovesOf(c) + rest, lease)
  {
    var all := MovesOf(c) + rest;
    var w1 := Step(w, all[0], lease);
    RunOfCall(w, c, lease);
    match c
    case Wait(_) =>
      assert all[1..] == rest;
    case Release(i) =>
      assert all[1..] == [Delete(i)] + rest && all[1..][1..] == rest;
    case Acquire(i) =>
      assert all[1..] == [Check(i), Renew(i)] + rest && all[1..][1..] == [Renew(i)] + rest;
      assert all[1..][1..][1..] == rest;
  }

  lemma {:induction false} CallsArePunctual(w: World, calls: seq<Call>, lease: nat)
    requires lease >= 1 && Quiet(w)
    ensures PunctualRun(w, AllMoves(calls), lease)
    decreases |calls|
  {
    if calls != [] {
      CallEndsQuiet(w, calls[0], lease);
      CallsArePunctual(Run(w, MovesOf(calls[0]), lease), calls[1..], lease);
      CallIsPunctual(w, calls[0], AllMoves(calls[1..]), lease);
    }
  }

  /** With acquire and release as single steps the lease is exclusive in every run. */
  lemma AtomicCallsAreExclusive(calls: seq<Call>, lease: nat)
    requires lease >= 1
    ensures Exclusive(Run(START, AllMoves(calls), lease), lease)
  {
    CallsArePunctual(START, calls, lease);
    OneLeader(AllMoves(calls), lease);
  }

  // ------------------------------------------------------------------ the two races

  /** Instance 1 checks in time and renews after its key expired: EXPIRE's answer is not looked
      at, so it leads beside instance 2. */
  lemma LateRenewal()
    ensures var w := Run(START, [Set(1), Elapse(9), Set(1), Check(1), Elapse(1), Set(2), Renew(1)], 10);
            w.Leads(1, 10) && w.Leads(2, 10)
  {
  }

  /** Instance 1 deletes instance 2's key; instance 3 then leads beside instance 2. */
  lemma LateRelease()
    ensures var w := Run(START, [Set(1), Elapse(9), Stop(1), Elapse(1), Set(2), Delete(1), Set(3)], 10);
            w.Leads(2, 10) && w.Leads(3, 10)
  {
  }

  // ------------------------------------------------------------------ the code

  /** The key in Redis and the clock, with what the instances are at and believe. */
  class SharedKey {
    var key: Key
    var now: int
    ghost var phases: map<nat, Phase>
    ghost var lead: map<nat, int>

    constructor ()
      ensures State() == START
    {
      key, now := None, 0;
      phases, lead := map[], map[];
    }

    ghost function State(): World
      reads this
    {
      World(now, key, phases, lead)
    }
  }

  class Sampler {
    const id: nat
    const lease: nat
    const redis: SharedKey

    constructor (id: nat, lease: nat, redis: SharedKey)
      ensures this.id == id && this.lease == lease && this.redis == redis
    {
      this.id := id;
      this.lease := lease;
      this.redis := redis;
    }

    /** `_acquire_lease` with nothing in between: the three commands of the protocol. */
    method AcquireLease() returns (acquired: bool)
      requires lease >= 1 && redis.State().PhaseOf(id).Idle?
      modifies redis
      ensures redis.State() == Run(old(redis.State()), MovesOf(Acquire(id)), lease)
      ensures acquired <==> !Live(old(redis.key), redis.now) || old(redis.key).value.holder == id
      ensures acquired ==> redis.State().Leads(id, lease) && HeldBy(redis.key, redis.now, id)
    {
      ghost var w := redis.State();
      AcquireIsThreeCommands(w, id, lease);
      redis.phases := Run(w, MovesOf(Acquire(id)), lease).phases;
      var free := !Live(redis.key, redis.now);
      redis.key := AfterSet(redis.key, redis.now, id, lease);
      if free {
        redis.lead := redis.lead[id := redis.now];
        return true;
      }
      if redis.key.value.holder == id {
        redis.key := AfterExpire(redis.key, redis.now, lease);
        redis.lead := redis.lead[id := redis.now];
        return true;
      }
      return false;
    }

    /** `_release_lease` with nothing in between: the two commands of the protocol. */
    method ReleaseLease()
      requires !redis.State().PhaseOf(id).Releasing?
      modifies redis
      ensures redis.State() == Run(old(redis.State()), MovesOf(Release(id)), lease)
      ensures !redis.State().Leads(id, lease) && !HeldBy(redis.key, redis.now, id)
    {
      ghost var w := redis.State();
      ReleaseIsTwoCommands(w, id, lease);
      redis.phases := Run(w, MovesOf(Release(id)), lease).phases;
      redis.lead := redis.lead - {id};
      if Live(redis.key, redis.now) && redis.key.value.holder == id {
        redis.key := None;
      }
    }
  }

  /** What the two commands of a release do when nothing comes between them. */
  lemma ReleaseIsTwoCommands(w: World, i: nat, lease: nat)
    requires !w.PhaseOf(i).Releasing?
    ensures var v := Run(w, MovesOf(Release(i)), lease);
            && v.PhaseOf(i).Idle? && v.now == w.now && v.lead == w.lead - {i}
            && v.key == if HeldBy(w.key, w.now, i) then None else w.key
  {
    RunOfCall(w, Release(i), lease);
  }

  /** What the three commands of an acquire do when nothing comes between them. */
  lemma AcquireIsThreeCommands(w: World, i: nat, lease: nat)
    requires lease >= 1 && w.PhaseOf(i).Idle?
    ensures var v := Run(w, MovesOf(Acquire(i)), lease);
            var acquired := !Live(w.key, w.now) || w.key.value.holder == i;
            && v.PhaseOf(i).Idle? && v.now == w.now
            && v.key == (if acquired then Some(Entry(i, w.now + lease)) else w.key)
            && v.lead == if acquired then w.lead[i := w.now] else w.lead
  {
    RunOfCall(w, Acquire(i), lease);
  }

  /** While an instance leads, it alone can acquire, and its acquire succeeds. */
  lemma OnlyTheLeaderAcquires(w: World, i: nat, j: nat, lease: nat)
    requires lease >= 1 && Backed(w, lease) && w.Leads(i, lease) && w.PhaseOf(j).Idle?
    ensures var v := Run(w, MovesOf(Acquire(j)), lease);
            i in v.lead && (j == i ==> v.lead[i] == w.now) && (j != i ==> v.lead == w.lead && v.key == w.key)
  {
    AcquireIsThreeCommands(w, j, lease);
  }
}
