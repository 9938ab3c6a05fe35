// How often and when a failed event is published again: four times after the first, 100, 200, 400 and 800
// milliseconds after the failure before, as long as it may be retried and nothing cancels it.
module DeliveryRetries {
  import opened Text
  import opened EventKeys
  import opened EventDelivery
  import opened DeliveryProtocol
  import opened DeliveryCapacity

  /** The milliseconds between a failed attempt and the next one. */
  function Pause(attempts: nat): int {
    if attempts == 1 then 100 else if attempts == 2 then 200 else if attempts == 3 then 400 else 800
  }

  /** A failed publish that is queued is due again after 100 milliseconds, as it was, counted as tried once. */
  lemma FirstRetryDue(s: Shared, e: Event, key: string, now: int, t: Shared)
    requires EnqueueSpec(s, e, key, now, t, true)
    ensures key in t.pending && t.pending[key].event == e.(attempt := 1) && t.pending[key].key == key && t.pending[key].attempts == 1
    ensures t.pending[key].nextTryAt == now + 100 && t.pending[key].queuedAt == now && t.latest == s.latest[key := e.id]
  {
  }

  /** What is pending under other keys stays while there are fewer than 256 or the key is taken over; otherwise
      exactly the oldest goes that may be dropped. */
  lemma MakesRoomForOne(s: Shared, e: Event, key: string, now: int, t: Shared)
    requires EnqueueSpec(s, e, key, now, t, true)
    ensures |s.pending| < 256 || key in s.pending ==> t.pending - {key} == s.pending - {key}
    ensures |s.pending| >= 256 && key !in s.pending ==> exists k :: OldestDroppable(s.pending, k) && t.pending - {key} == s.pending - {k}
  {
    if |s.pending| >= 256 && key !in s.pending {
      var k :| OldestDroppable(s.pending, k) && t.pending == (s.pending - {k})[key := Queued(e, key, now)];
      assert t.pending - {key} == s.pending - {k};
    }
  }

  /** An entry taken off the queue is tried again if and only if it is the newest of its key and its job still
      runs, checked before and after the wait for the publisher. */
  lemma TriedAgainIff(s: State, t: State)
    requires Step(s, Check, t) || Step(s, Recheck, t)
    ensures var p := s.loop.p;
      var current := s.hub.delivering && s.hub.stream == p.event.stream && s.hub.generation == p.event.generation && Latest(s.hub, p.key) == p.event.id;
      && (t.loop.Checked? || t.loop.Cleared? <==> current) && (!current ==> t.loop == Waiting)
      && (current ==> t.loop.p.attempts == p.attempts + if s.loop.Selected? then 1 else 0)
      && t.hub == s.hub && t.log == s.log
  {
  }

  lemma DelayIsPause(attempts: nat)
    requires 1 <= attempts <= 4
    ensures RetryDelay(attempts) == Pause(attempts)
  {
    assert Pow2(0) == 1 && Pow2(1) == 2 && Pow2(2) == 4 && Pow2(3) == 8;
  }

  lemma ClearedAttempts(s: State)
    requires Reachable(s) && s.loop.Cleared?
    ensures 2 <= s.loop.p.attempts <= 5 && s.loop.p.event.attempt == s.loop.p.attempts
  {
    ReachableInv(s);
    assert LoopTried(s.log, s.loop);
    assert WaitingOk(s.issued, s.calls, s.loop.p);
  }

  lemma RetryMove(s: State, outcome: Outcome, cancelled: bool, now: int, t: State)
    requires s.loop.Cleared? && Move(s, PublishRetry(outcome, cancelled, now), t) && 2 <= s.loop.p.attempts <= 5
    ensures var p := s.loop.p;
      && t.log == s.log + [Entry(p.event, p.key, outcome == Delivered)] && t.hub == s.hub
      && t.loop == if outcome == Retryable && !cancelled && p.attempts < 5 then Retrying(p.(nextTryAt := now + Pause(p.attempts))) else Waiting
  {
    if s.loop.p.attempts < 5 {
      DelayIsPause(s.loop.p.attempts);
    }
  }

  /** What a retry leads to: its publish is logged under the number of the attempt, and there will be another
      one if and only if it failed retryably, was not cancelled, and was not the fifth. */
  lemma AnotherRetryIff(s: State, outcome: Outcome, cancelled: bool, now: int, t: State)
    requires Reachable(s) && s.loop.Cleared? && Step(s, PublishRetry(outcome, cancelled, now), t)
    ensures var p := s.loop.p;
      && 2 <= p.attempts <= 5 && p.event.attempt == p.attempts
      && t.log == s.log + [Entry(p.event, p.key, outcome == Delivered)] && t.hub == s.hub
      && (t.loop.Retrying? <==> outcome == Retryable && !cancelled && p.attempts < 5)
      && (t.loop.Retrying? ==> t.loop.p == p.(nextTryAt := now + Pause(p.attempts)))
      && (!t.loop.Retrying? ==> t.loop == Waiting)
  {
    ClearedAttempts(s);
    RetryMove(s, outcome, cancelled, now, t);
  }

  /** One that is to be retried is put back as it is, if and only if its job still runs and no newer event
      waits under its key. */
  lemma PutBackIff(s: State, t: State)
    requires s.loop.Retrying? && Step(s, Requeue, t)
    ensures var p := s.loop.p; var back := SameJob(s.hub, p.event) && s.hub.delivering && p.key !in s.hub.pending;
      t.loop == Waiting && t.hub.pending == if back then s.hub.pending[p.key := p] else s.hub.pending
  {
  }

  // ----- a run of five attempts -----

  /** The only thing pending is the event, after so many failed attempts. */
  ghost predicate Lone(s: State, p: Pending) {
    && s.loop == Waiting && s.publisher == Nobody && s.hub.delivering && s.hub.pending == map[p.key := p]
    && IsCurrentSpec(s.hub, p) && p.attempts > 0
  }

  lemma LoneChecked(s: State, p: Pending) returns (t: State)
    requires Reachable(s) && Lone(s, p)
    ensures Reachable(t) && t == s.(hub := s.hub.(pending := map[]), loop := Checked(Again(p)))
  {
    var u := s.(hub := s.hub.(pending := map[]), loop := Selected(p));
    assert s.hub.pending - {p.key} == map[];
    assert OldestReady(s.hub.pending, p.key, p.nextTryAt);
    ReachableMove(s, Select(p.nextTryAt, p.key), u);
    t := u.(loop := Checked(Again(p)));
    ReachableMove(u, Check, t);
  }

  lemma LoneTaken(s: State, p: Pending) returns (t: State)
    requires Reachable(s) && Lone(s, p)
    ensures Reachable(t) && t == s.(hub := s.hub.(pending := map[]), publisher := ByLoop, loop := Cleared(Again(p)))
  {
    var u := LoneChecked(s, p);
    var v := u.(publisher := ByLoop, loop := Holding(Again(p)));
    ReachableMove(u, Lock, v);
    t := v.(loop := Cleared(Again(p)));
    ReachableMove(v, Recheck, t);
  }

  lemma FailedAndBack(s: State, p: Pending) returns (t: State, q: Pending)
    requires Reachable(s) && s.loop == Cleared(p) && s.publisher == ByLoop && s.hub.pending == map[] && IsCurrentSpec(s.hub, p)
    requires 0 < p.attempts < 5
    ensures Reachable(t) && Lone(t, q) && q == p.(nextTryAt := Pause(p.attempts)) && t.log == s.log + [Entry(p.event, p.key, false)]
  {
    DelayIsPause(p.attempts);
    q := p.(nextTryAt := Pause(p.attempts));
    var s1 := s.(publisher := Nobody, log := s.log + [Entry(p.event, p.key, false)], loop := Retrying(q));
    ReachableMove(s, PublishRetry(Retryable, false, 0), s1);
    t := s1.(hub := s1.hub.(pending := map[p.key := q]), loop := Waiting);
    assert s1.hub.pending[p.key := q] == map[p.key := q];
    ReachableMove(s1, Requeue, t);
  }

  lemma Round(s: State, p: Pending) returns (t: State, q: Pending)
    requires Reachable(s) && Lone(s, p) && p.attempts < 4
    ensures Reachable(t) && Lone(t, q) && q.attempts == p.attempts + 1 && q.event == p.event.(attempt := q.attempts) && q.key == p.key
    ensures t.log == s.log + [Entry(q.event, q.key, false)]
  {
    var u := LoneTaken(s, p);
    t, q := FailedAndBack(u, Again(p));
  }

  /** An event of the running job, still the newest of its key, whose every publish fails: it is published
      five times, and then given up. */
  lemma FiveAttempts() returns (s: State)
    ensures Reachable(s) && s.loop == Waiting && s.hub.pending == map[] && |s.log| == 5
    ensures forall i :: 0 <= i < 5 ==> s.log[i] == Entry(EventOf(0).(attempt := i + 1), KeyOf(0), false)
  {
    var s0 := Started();
    var e, key := EventOf(0), KeyOf(0);
    assert Name(0) !in s0.issued.Keys && key !in s0.hub.pending.Keys;
    var s1 := QueuedUp(s0, e, key);
    var p1 := Queued(e, key, 0);
    assert s0.hub.pending == map[];
    assert s1.hub.pending == map[key := p1];
    var s2, p2 := Round(s1, p1);
    var s3, p3 := Round(s2, p2);
    var s4, p4 := Round(s3, p3);
    var u := LoneTaken(s4, p4);
    s := LastFailure(u, Again(p4));
  }

  lemma LastFailure(s: State, p: Pending) returns (t: State)
    requires Reachable(s) && s.loop == Cleared(p) && p.attempts == 5
    ensures Reachable(t) && t == s.(publisher := Nobody, log := s.log + [Entry(p.event, p.key, false)], loop := Waiting)
  {
    t := s.(publisher := Nobody, log := s.log + [Entry(p.event, p.key, false)], loop := Waiting);
    ReachableMove(s, PublishRetry(Retryable, false, 0), t);
  }
}
