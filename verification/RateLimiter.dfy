/**
  The sliding-window limit on a connection's control messages (app/api/routers/ws/router.py).
*/
module RateLimiter {
  import opened Wrappers

  /** Seconds. */
  const WINDOW: real := 10.0

  ghost predicate Nondecreasing(times: seq<real>) {
    forall i, j | 0 <= i <= j < |times| :: times[i] <= times[j]
  }

  /** The instants in the closed interval from `lo` to `hi`. */
  function Within(times: seq<real>, lo: real, hi: real): seq<real> {
    if times == [] then []
    else (if lo <= times[0] <= hi then [times[0]] else []) + Within(times[1..], lo, hi)
  }

  /** The arrivals a rule lets through. */
  function Chosen(arrivals: seq<real>, choice: seq<bool>): seq<real>
    requires |choice| == |arrivals|
  {
    if arrivals == [] then []
    else
      var n := |arrivals| - 1;
      Chosen(arrivals[..n], choice[..n]) + if choice[n] then [arrivals[n]] else []
  }

  /** The limiter's rule over the whole history: let a message through when fewer than `limit`
      of the messages let through before it are at most ten seconds old. */
  function Decide(arrivals: seq<real>, limit: nat): (choice: seq<bool>)
    ensures |choice| == |arrivals|
  {
    if arrivals == [] then []
    else
      var n := |arrivals| - 1;
      var before := Decide(arrivals[..n], limit);
      var now := arrivals[n];
      before + [|Within(Chosen(arrivals[..n], before), now - WINDOW, now)| < limit]
  }

  function Accepted(arrivals: seq<real>, limit: nat): seq<real> {
    Chosen(arrivals, Decide(arrivals, limit))
  }

  ghost predicate Fits(times: seq<real>, lo: real, limit: nat) {
    |Within(times, lo, lo + 10.0)| <= limit
  }

  /** What the limit is for: no closed interval of ten seconds holds more. */
  ghost predicate Compliant(times: seq<real>, limit: nat) {
    forall lo: real :: Fits(times, lo, limit)
  }

  ghost predicate All(times: seq<real>, p: real -> bool) {
    forall i | 0 <= i < |times| :: p(times[i])
  }

  // ------------------------------------------------------------------ the filter

  lemma {:induction false} WithinConcat(a: seq<real>, b: seq<real>, lo: real, hi: real)
    ensures Within(a + b, lo, hi) == Within(a, lo, hi) + Within(b, lo, hi)
  {
    if a == [] {
      assert a + b == b;
    } else {
      var head := if lo <= a[0] <= hi then [a[0]] else [];
      calc {
        Within(a + b, lo, hi);
        { assert (a + b)[0] == a[0] && (a + b)[1..] == a[1..] + b; }
        head + Within(a[1..] + b, lo, hi);
        { WithinConcat(a[1..], b, lo, hi); }
        head + (Within(a[1..], lo, hi) + Within(b, lo, hi));
        { ConcatIsAssociative(head, Within(a[1..], lo, hi), Within(b, lo, hi)); }
        (head + Within(a[1..], lo, hi)) + Within(b, lo, hi);
      }
    }
  }

  lemma {:induction false} WithinGrows(times: seq<real>, lo: real, hi: real, lo': real, hi': real)
    requires lo' <= lo && forall i | 0 <= i < |times| :: times[i] <= hi'
    ensures |Within(times, lo, hi)| <= |Within(times, lo', hi')|
  {
    if times != [] {
      WithinGrows(times[1..], lo, hi, lo', hi');
    }
  }

  lemma {:induction false} WithinAll(times: seq<real>, lo: real, hi: real)
    requires forall i | 0 <= i < |times| :: lo <= times[i] <= hi
    ensures Within(times, lo, hi) == times
  {
    if times != [] {
      WithinAll(times[1..], lo, hi);
    }
  }

  lemma {:induction false} WithinNone(times: seq<real>, lo: real, hi: real)
    requires forall i | 0 <= i < |times| :: times[i] < lo
    ensures Within(times, lo, hi) == []
  {
    if times != [] {
      WithinNone(times[1..], lo, hi);
    }
  }

  lemma {:induction false} WithinIsShorter(times: seq<real>, lo: real, hi: real)
    ensures |Within(times, lo, hi)| <= |times|
  {
    if times != [] {
      WithinIsShorter(times[1..], lo, hi);
    }
  }

  lemma {:induction false} WithinTwice(times: seq<real>, lo: real, hi: real, lo': real, hi': real)
    requires lo <= lo' && hi <= hi' && forall i | 0 <= i < |times| :: times[i] <= hi
    ensures Within(Within(times, lo, hi), lo', hi') == Within(times, lo', hi')
  {
    if times != [] {
      WithinTwice(times[1..], lo, hi, lo', hi');
      var rest := Within(times[1..], lo, hi);
      if lo <= times[0] <= hi {
        assert Within(times, lo, hi)[1..] == rest;
      } else {
        assert Within(times, lo, hi) == rest;
      }
    }
  }

  lemma {:induction false} WithinKeepsOrder(times: seq<real>, lo: real, hi: real, floor: real)
    requires Nondecreasing(times) && forall i | 0 <= i < |times| :: floor <= times[i]
    ensures Nondecreasing(Within(times, lo, hi))
    ensures forall i | 0 <= i < |Within(times, lo, hi)| :: floor <= Within(times, lo, hi)[i] <= hi
  {
    if times != [] {
      WithinKeepsOrder(times[1..], lo, hi, times[0]);
    }
  }

  // ------------------------------------------------------------------ the chosen arrivals

  /** What is chosen from message `m` on comes after what is chosen before it. */
  lemma {:induction false} ChosenSplits(arrivals: seq<real>, choice: seq<bool>, m: nat, p: real -> bool)
    requires |choice| == |arrivals| && m <= |arrivals| && All(arrivals[m..], p)
    ensures Chosen(arrivals[..m], choice[..m]) <= Chosen(arrivals, choice)
    ensures All(Chosen(arrivals, choice)[|Chosen(arrivals[..m], choice[..m])|..], p)
  {
    if m == |arrivals| {
      assert arrivals[..m] == arrivals && choice[..m] == choice;
    } else {
      var n := |arrivals| - 1;
      assert forall i | 0 <= i < n - m :: arrivals[..n][m..][i] == arrivals[m..][i];
      ChosenSplits(arrivals[..n], choice[..n], m, p);
      assert arrivals[..n][..m] == arrivals[..m] && choice[..n][..m] == choice[..m];
      var early := Chosen(arrivals[..m], choice[..m]);
      assert Chosen(arrivals, choice)[|early|..]
          == Chosen(arrivals[..n], choice[..n])[|early|..] + if choice[n] then [arrivals[n]] else [];
      assert arrivals[n] == arrivals[m..][n - m];
    }
  }

  lemma ChosenArrived(arrivals: seq<real>, choice: seq<bool>, p: real -> bool)
    requires |choice| == |arrivals| && All(arrivals, p)
    ensures All(Chosen(arrivals, choice), p)
  {
  }

  lemma {:induction false} ChosenKeepsOrder(arrivals: seq<real>, choice: seq<bool>)
    requires |choice| == |arrivals| && Nondecreasing(arrivals)
    ensures Nondecreasing(Chosen(arrivals, choice))
  {
    if arrivals != [] {
      var n := |arrivals| - 1;
      ChosenKeepsOrder(arrivals[..n], choice[..n]);
      ChosenArrived(arrivals[..n], choice[..n], t => t <= arrivals[n]);
    }
  }

  lemma {:induction false} DecideIsOnline(arrivals: seq<real>, limit: nat, m: nat)
    requires m <= |arrivals|
    ensures Decide(arrivals, limit)[..m] == Decide(arrivals[..m], limit)
  {
    if m == |arrivals| {
      assert arrivals[..m] == arrivals;
    } else {
      var n := |arrivals| - 1;
      DecideIsOnline(arrivals[..n], limit, m);
      assert arrivals[..n][..m] == arrivals[..m];
    }
  }

  /** The last arrival, and what it adds. */
  lemma LastArrival(arrivals: seq<real>, limit: nat)
    requires arrivals != []
    ensures var n := |arrivals| - 1;
            var before := Accepted(arrivals[..n], limit);
            && (Decide(arrivals, limit)[n] <==> |Within(before, arrivals[n] - WINDOW, arrivals[n])| < limit)
            && Accepted(arrivals, limit) == before + if Decide(arrivals, limit)[n] then [arrivals[n]] else []
  {
  }

  /** Message `k` is refused exactly when `limit` messages were accepted in the ten seconds before it. */
  lemma RefusedIff(arrivals: seq<real>, limit: nat, k: nat)
    requires k < |arrivals|
    ensures !Decide(arrivals, limit)[k] <==>
              |Within(Accepted(arrivals[..k], limit), arrivals[k] - WINDOW, arrivals[k])| >= limit
  {
    DecideIsOnline(arrivals, limit, k + 1);
    LastArrival(arrivals[..k + 1], limit);
    assert arrivals[..k + 1][..k] == arrivals[..k];
  }

  // ------------------------------------------------------------------ safety

  /** Every closed interval of ten seconds holds at most `limit` accepted messages. */
  lemma {:induction false} LimitHolds(arrivals: seq<real>, limit: nat)
    requires Nondecreasing(arrivals)
    ensures Compliant(Accepted(arrivals, limit), limit)
  {
    if arrivals != [] {
      var n := |arrivals| - 1;
      LimitHolds(arrivals[..n], limit);
      forall lo: real
        ensures Fits(Accepted(arrivals, limit), lo, limit)
      {
        OneMoreFits(arrivals, limit, lo);
      }
    }
  }

  lemma OneMoreFits(arrivals: seq<real>, limit: nat, lo: real)
    requires Nondecreasing(arrivals) && arrivals != []
    requires Compliant(Accepted(arrivals[..|arrivals| - 1], limit), limit)
    ensures Fits(Accepted(arrivals, limit), lo, limit)
  {
    var n := |arrivals| - 1;
    var now := arrivals[n];
    var before := Accepted(arrivals[..n], limit);
    LastArrival(arrivals, limit);
    var last := if Decide(arrivals, limit)[n] then [now] else [];
    WithinConcat(before, last, lo, lo + WINDOW);
    assert Fits(before, lo, limit);
    if Decide(arrivals, limit)[n] && lo <= now <= lo + WINDOW {
      ChosenArrived(arrivals[..n], Decide(arrivals[..n], limit), t => t <= now);
      WithinGrows(before, lo, lo + WINDOW, now - WINDOW, now);
    }
  }

  // ------------------------------------------------------------------ the same, instant by instant

  /** In a history up to `now`, the last `n` instants are what counts. */
  lemma {:induction false} AtLeastWithin(times: seq<real>, now: real, n: nat)
    requires Nondecreasing(times) && forall i | 0 <= i < |times| :: times[i] <= now
    ensures |Within(times, now - WINDOW, now)| >= n <==>
              n == 0 || (n <= |times| && now - times[|times| - n] <= 10.0)
  {
    WithinIsShorter(times, now - WINDOW, now);
    if times != [] {
      if now - WINDOW <= times[0] {
        WithinAll(times, now - WINDOW, now);
      } else {
        AtLeastWithin(times[1..], now, n);
        WithinIsShorter(times[1..], now - WINDOW, now);
      }
    }
  }

  /** Message `k` is refused exactly when the message accepted `limit` messages before it is at
      most ten seconds old. */
  lemma RefusedByInstants(arrivals: seq<real>, limit: nat, k: nat)
    requires Nondecreasing(arrivals) && k < |arrivals|
    ensures var before := Accepted(arrivals[..k], limit);
            !Decide(arrivals, limit)[k] <==>
              limit == 0 || (|before| >= limit && arrivals[k] - before[|before| - limit] <= 10.0)
  {
    RefusedIff(arrivals, limit, k);
    ChosenKeepsOrder(arrivals[..k], Decide(arrivals[..k], limit));
    ChosenArrived(arrivals[..k], Decide(arrivals[..k], limit), t => t <= arrivals[k]);
    AtLeastWithin(Accepted(arrivals[..k], limit), arrivals[k], limit);
  }

  lemma MiddleCounts(a: seq<real>, b: seq<real>, c: seq<real>, lo: real, hi: real)
    requires forall i | 0 <= i < |b| :: lo <= b[i] <= hi
    ensures |Within(a + b + c, lo, hi)| >= |b|
  {
    WithinConcat(a + b, c, lo, hi);
    WithinConcat(a, b, lo, hi);
    WithinAll(b, lo, hi);
  }

  lemma Crowd(times: seq<real>, i: nat, n: nat, hi: real)
    requires Nondecreasing(times) && i + n < |times| && times[i + n] <= hi
    ensures |Within(times, times[i], hi)| > n
  {
    MiddleCounts(times[..i], times[i..i + n + 1], times[i + n + 1..], times[i], hi);
    assert times == times[..i] + times[i..i + n + 1] + times[i + n + 1..];
  }

  /** Between an accepted message and the one accepted `limit` messages later, more than ten
      seconds pass. */
  lemma AcceptedAreSpread(arrivals: seq<real>, limit: nat, i: nat)
    requires Nondecreasing(arrivals) && i + limit < |Accepted(arrivals, limit)|
    ensures Accepted(arrivals, limit)[i + limit] - Accepted(arrivals, limit)[i] > 10.0
  {
    var times := Accepted(arrivals, limit);
    LimitHolds(arrivals, limit);
    ChosenKeepsOrder(arrivals, Decide(arrivals, limit));
    assert Fits(times, times[i], limit);
    if times[i + limit] <= times[i] + 10.0 {
      Crowd(times, i, limit, times[i] + 10.0);
      assert false;
    }
  }

  // ------------------------------------------------------------------ the limiter refuses no more than it must

  /** How many arrivals are more than ten seconds before `now`. */
  ghost function OldPrefix(arrivals: seq<real>, now: real): (m: nat)
    requires Nondecreasing(arrivals)
    ensures m <= |arrivals|
    ensures forall i | 0 <= i < m :: arrivals[i] < now - WINDOW
    ensures forall i | m <= i < |arrivals| :: arrivals[i] >= now - WINDOW
  {
    var n := |arrivals| - 1;
    if n < 0 || arrivals[n] < now - WINDOW then |arrivals| else OldPrefix(arrivals[..n], now)
  }

  /** A full window: the limiter has accepted at least `limit` since message `m`. */
  lemma FullWindow(arrivals: seq<real>, limit: nat, m: nat, now: real)
    requires m <= |arrivals|
    requires forall i | 0 <= i < m :: arrivals[i] < now - WINDOW
    requires |Within(Accepted(arrivals, limit), now - WINDOW, now)| >= limit
    ensures |Accepted(arrivals, limit)| >= |Accepted(arrivals[..m], limit)| + limit
  {
    var all := Accepted(arrivals, limit);
    var early := Accepted(arrivals[..m], limit);
    DecideIsOnline(arrivals, limit, m);
    ChosenSplits(arrivals, Decide(arrivals, limit), m, t => true);
    var late := all[|early|..];
    assert all == early + late;
    WithinConcat(early, late, now - WINDOW, now);
    ChosenArrived(arrivals[..m], Decide(arrivals[..m], limit), t => t < now - WINDOW);
    WithinNone(early, now - WINDOW, now);
    WithinIsShorter(late, now - WINDOW, now);
  }

  /** A rule that keeps the bound and lets `now` through has chosen fewer than `limit` since message `m`. */
  lemma RoomForOne(arrivals: seq<real>, choice: seq<bool>, limit: nat, m: nat, now: real)
    requires |choice| == |arrivals| && m <= |arrivals|
    requires forall i | m <= i < |arrivals| :: now - WINDOW <= arrivals[i] <= now
    requires Compliant(Chosen(arrivals, choice) + [now], limit)
    ensures |Chosen(arrivals, choice)| + 1 <= |Chosen(arrivals[..m], choice[..m])| + limit
  {
    var all := Chosen(arrivals, choice);
    var early := Chosen(arrivals[..m], choice[..m]);
    ChosenSplits(arrivals, choice, m, t => now - WINDOW <= t <= now);
    var late := all[|early|..];
    assert all + [now] == early + (late + [now]);
    var lo := now - WINDOW;
    assert lo + WINDOW == now;
    WithinConcat(early, late + [now], lo, now);
    WithinAll(late + [now], lo, now);
    assert Fits(all + [now], lo, limit);
  }

  lemma PrefixComplies(a: seq<real>, b: seq<real>, limit: nat)
    requires a <= b && Compliant(b, limit)
    ensures Compliant(a, limit)
  {
    forall lo: real
      ensures Fits(a, lo, limit)
    {
      assert b == a + b[|a|..];
      WithinConcat(a, b[|a|..], lo, lo + WINDOW);
      assert Fits(b, lo, limit);
    }
  }

  lemma PrefixOfChosen(arrivals: seq<real>, choice: seq<bool>, limit: nat, m: nat)
    requires |choice| == |arrivals| && m <= |arrivals|
    requires Compliant(Chosen(arrivals, choice), limit)
    ensures Compliant(Chosen(arrivals[..m], choice[..m]), limit)
  {
    ChosenSplits(arrivals, choice, m, t => true);
    PrefixComplies(Chosen(arrivals[..m], choice[..m]), Chosen(arrivals, choice), limit);
  }

  /** The step where the limiter refuses and the other rule does not. */
  lemma NoGainAtARefusal(arrivals: seq<real>, choice: seq<bool>, limit: nat, m: nat, now: real)
    requires |choice| == |arrivals| && m <= |arrivals|
    requires forall i | 0 <= i < m :: arrivals[i] < now - WINDOW
    requires forall i | m <= i < |arrivals| :: now - WINDOW <= arrivals[i] <= now
    requires Compliant(Chosen(arrivals, choice) + [now], limit)
    requires |Chosen(arrivals[..m], choice[..m])| <= |Accepted(arrivals[..m], limit)|
    requires |Within(Accepted(arrivals, limit), now - WINDOW, now)| >= limit
    ensures |Chosen(arrivals, choice)| + 1 <= |Accepted(arrivals, limit)|
  {
    RoomForOne(arrivals, choice, limit, m, now);
    FullWindow(arrivals, limit, m, now);
  }

  /** No rule that keeps the bound, not even one that knows the future, ever lets more messages
      through than the limiter does. */
  lemma {:induction false} NoRuleAcceptsMore(arrivals: seq<real>, choice: seq<bool>, limit: nat)
    requires Nondecreasing(arrivals) && |choice| == |arrivals|
    requires Compliant(Chosen(arrivals, choice), limit)
    ensures |Chosen(arrivals, choice)| <= |Accepted(arrivals, limit)|
    decreases |arrivals|
  {
    if arrivals != [] {
      var n := |arrivals| - 1;
      LastArrival(arrivals, limit);
      if choice[n] && !Decide(arrivals, limit)[n] {
        var m := OldPrefix(arrivals[..n], arrivals[n]);
        assert arrivals[..n][..m] == arrivals[..m] && choice[..n][..m] == choice[..m];
        PrefixOfChosen(arrivals, choice, limit, m);
        NoRuleAcceptsMore(arrivals[..m], choice[..m], limit);
        NoGainAtARefusal(arrivals[..n], choice[..n], limit, m, arrivals[n]);
      } else {
        PrefixOfChosen(arrivals, choice, limit, n);
        NoRuleAcceptsMore(arrivals[..n], choice[..n], limit);
      }
    }
  }

  // ------------------------------------------------------------------ the receive loop's deque

  /** The accepted instants at most ten seconds before the last arrival. */
  ghost predicate HoldsWindow(recent: seq<real>, arrivals: seq<real>, limit: nat) {
    && Nondecreasing(arrivals)
    && (arrivals == [] ==> recent == [])
    && (arrivals != [] ==>
          var last := arrivals[|arrivals| - 1];
          recent == Within(Accepted(arrivals, limit), last - WINDOW, last))
  }

  class Limiter {
    const limit: nat
    var recent: seq<real>
    ghost var arrivals: seq<real>

    /** The deque holds the accepted instants of the last ten seconds and no others. */
    ghost predicate Valid()
      reads this
    {
      HoldsWindow(recent, arrivals, limit)
    }

    constructor (limit: nat)
      ensures Valid() && arrivals == [] && this.limit == limit
    {
      this.limit := limit;
      recent := [];
      arrivals := [];
    }

    /** One control message at instant `now`: drop what is too old, then count. */
    method Arrive(now: real) returns (admitted: bool)
      requires Valid()
      requires arrivals != [] ==> arrivals[|arrivals| - 1] <= now
      modifies this
      ensures Valid() && arrivals == old(arrivals) + [now]
      ensures admitted == Decide(arrivals, limit)[|arrivals| - 1]
      ensures recent == if admitted then Within(Accepted(old(arrivals), limit), now - WINDOW, now) + [now]
                        else Within(Accepted(old(arrivals), limit), now - WINDOW, now)
    {
      Forget(now);
      NextDeque(arrivals, limit, now);
      Expire(now);
      arrivals := arrivals + [now];
      if |recent| >= limit {
        return false;
      }
      recent := recent + [now];
      return true;
    }

    /** Pop from the left while the oldest instant is more than ten seconds old. */
    method Expire(now: real)
      requires Nondecreasing(recent) && forall i | 0 <= i < |recent| :: recent[i] <= now
      modifies this`recent
      ensures recent == Within(old(recent), now - WINDOW, now)
    {
      while recent != [] && now - recent[0] > WINDOW
        invariant Nondecreasing(recent) && forall i | 0 <= i < |recent| :: recent[i] <= now
        invariant Within(recent, now - WINDOW, now) == Within(old(recent), now - WINDOW, now)
        decreases |recent|
      {
        assert Within(recent, now - WINDOW, now) == Within(recent[1..], now - WINDOW, now);
        recent := recent[1..];
      }
      WithinAll(recent, now - WINDOW, now);
    }

    /** What the deque says about the window that ends now. */
    lemma Forget(now: real)
      requires Valid()
      requires arrivals != [] ==> arrivals[|arrivals| - 1] <= now
      ensures Nondecreasing(recent) && forall i | 0 <= i < |recent| :: recent[i] <= now
      ensures Within(recent, now - WINDOW, now) == Within(Accepted(arrivals, limit), now - WINDOW, now)
    {
      if arrivals != [] {
        var last := arrivals[|arrivals| - 1];
        var accepted := Accepted(arrivals, limit);
        ChosenArrived(arrivals, Decide(arrivals, limit), t => t <= last);
        ChosenKeepsOrder(arrivals, Decide(arrivals, limit));
        WithinKeepsOrder(accepted, last - WINDOW, last, if accepted == [] then last else accepted[0]);
        WithinTwice(accepted, last - WINDOW, last, now - WINDOW, now);
      }
    }
  }

  /** One more arrival: the decision, and the window it leaves. */
  lemma NextWindow(past: seq<real>, limit: nat, now: real)
    requires Nondecreasing(past) && (past != [] ==> past[|past| - 1] <= now)
    ensures Nondecreasing(past + [now])
    ensures var window := Within(Accepted(past, limit), now - WINDOW, now);
            var admitted := Decide(past + [now], limit)[|past|];
            && (admitted <==> |window| < limit)
            && Within(Accepted(past + [now], limit), now - WINDOW, now) == window + if admitted then [now] else []
  {
    var arrivals := past + [now];
    assert arrivals[..|past|] == past;
    LastArrival(arrivals, limit);
    WithinConcat(Accepted(past, limit), [now], now - WINDOW, now);
    WithinAll([now], now - WINDOW, now);
    assert Accepted(past, limit) + [] == Accepted(past, limit);
  }

  lemma NextDeque(past: seq<real>, limit: nat, now: real)
    requires Nondecreasing(past) && (past != [] ==> past[|past| - 1] <= now)
    ensures var window := Within(Accepted(past, limit), now - WINDOW, now);
            var admitted := Decide(past + [now], limit)[|past|];
            && (admitted <==> |window| < limit)
            && HoldsWindow(if admitted then window + [now] else window, past + [now], limit)
  {
    NextWindow(past, limit, now);
    var window := Within(Accepted(past, limit), now - WINDOW, now);
    assert window + [] == window;
  }
}
