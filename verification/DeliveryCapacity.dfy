// The bound of 256 pending events is checked where a failed publish is queued, but not where a failed
// retry is put back: exactly when it breaks, and a run in which it does.
module DeliveryCapacity {
  import opened Text
  import opened Sequences
  import opened EventKeys
  import opened EventDelivery
  import opened DeliveryProtocol

  /** A failed retry of a current event, whose key is not pending, is put back into a full queue. */
  ghost predicate Overfills(s: State, a: Action) {
    && a.Requeue? && s.loop.Retrying? && SameJob(s.hub, s.loop.p.event) && s.hub.delivering
    && s.loop.p.key !in s.hub.pending && |s.hub.pending| == MAX_PENDING
  }

  lemma PendingShrinks(s: State, a: Action, t: State)
    requires Move(s, a, t) && !a.Enqueue? && !a.Requeue?
    ensures t.hub.pending.Keys <= s.hub.pending.Keys
  {
  }

  lemma RequeueSize(hub: Shared, p: Pending)
    ensures var added := SameJob(hub, p.event) && hub.delivering && p.key !in hub.pending;
      |RequeueSpec(hub, p).pending| == |hub.pending| + if added then 1 else 0
  {
    assert hub.pending[p.key := p].Keys == hub.pending.Keys + {p.key};
  }

  lemma RequeueMove(s: State, t: State)
    requires Move(s, Requeue, t)
    ensures s.loop.Retrying? && t.hub == RequeueSpec(s.hub, s.loop.p)
  {
  }

  lemma CapacityRequeue(s: State, t: State)
    requires Move(s, Requeue, t) && |s.hub.pending| <= MAX_PENDING
    ensures |t.hub.pending| <= MAX_PENDING <==> !Overfills(s, Requeue)
  {
    RequeueMove(s, t);
    RequeueSize(s.hub, s.loop.p);
  }

  lemma CapacityEnqueue(s: State, a: Action, t: State)
    requires Move(s, a, t) && a.Enqueue? && |s.hub.pending| <= MAX_PENDING
    ensures |t.hub.pending| <= MAX_PENDING
  {
    EnqueueSize(s.hub, s.calls[a.id].event, s.calls[a.id].key, a.now, t.hub, a.ok);
  }

  /** From at most 256 pending events a step leads to more if and only if it is of that one kind. */
  lemma CapacityKeptIff(s: State, a: Action, t: State)
    requires Step(s, a, t) && |s.hub.pending| <= MAX_PENDING
    ensures |t.hub.pending| <= MAX_PENDING <==> !Overfills(s, a)
  {
    if a.Enqueue? {
      CapacityEnqueue(s, a, t);
    } else if a.Requeue? {
      CapacityRequeue(s, t);
    } else {
      PendingShrinks(s, a, t);
      SubsetSize(t.hub.pending.Keys, s.hub.pending.Keys);
    }
  }

  // ----- a run that reaches 257 -----

  function Name(k: nat): (s: string)
    ensures |s| == k + 1
  {
    seq(k + 1, _ => 'a')
  }

  /** The k-th event of the run, all of one stream, each with a key of its own. */
  function EventOf(k: nat): Event {
    Event(Name(k), "s", OtherKind("x"), None, None, 1, 1)
  }

  function KeyOf(k: nat): string {
    WorkerEventKey(EventOf(k))
  }

  lemma NameTrimmed(k: nat)
    ensures Trim(Name(k)) == Name(k)
  {
    assert !IsSpace(Name(k)[0]) && !IsSpace(Name(k)[k]);
  }

  lemma KeysDiffer(j: nat, k: nat)
    requires KeyOf(j) == KeyOf(k)
    ensures j == k
  {
    NameTrimmed(j);
    NameTrimmed(k);
    SameKeyIffSameSlot(EventOf(j), EventOf(k));
  }

  ghost predicate ReadyToRetry(hub: Shared, key: string)
    requires key in hub.pending
  {
    var p := hub.pending[key];
    p == Pending(p.event, key, 1, RETRY_BASE, 0) && SameJob(hub, p.event) && Latest(hub, key) == p.event.id
  }

  /** Of the first m events n are pending, no call is under way, and the loop is as given. */
  ghost predicate Loaded(s: State, m: nat, n: nat, loop: LoopPc) {
    && s.hub.stream == "s" && s.hub.generation == 1 && !s.hub.stopping && s.hub.delivering
    && s.calls == map[] && s.publisher == Nobody && s.life == Free && s.loop == loop
    && |s.hub.pending| == n
    && (forall k :: m <= k ==> Name(k) !in s.issued.Keys)
    && (forall k :: m <= k ==> KeyOf(k) !in s.hub.pending.Keys)
    && (forall key :: key in s.hub.pending ==> ReadyToRetry(s.hub, key))
  }

  lemma ReachableStep(s: State, a: Action, t: State)
    requires Reachable(s) && Step(s, a, t)
    ensures Reachable(t)
  {
    var states, actions :| Run(states, actions) && states[|states| - 1] == s;
    assert Run(states + [t], actions + [a]);
  }

  lemma ReachableMove(s: State, a: Action, t: State)
    requires Reachable(s) && Move(s, a, t) && !a.Begin?
    ensures Reachable(t)
  {
    ReachableStep(s, a, t);
  }

  lemma Started() returns (s: State)
    ensures Reachable(s) && Loaded(s, 0, 0, Waiting) && s.log == []
  {
    var s1 := Init().(hub := Shared("s", 1, false, true, map[], map[]), life := Starting);
    s := s1.(life := Free);
    assert Run([Init()], []);
    assert [Init()][|[Init()]| - 1] == Init();
    ReachableMove(Init(), StartCommit("s"), s1);
    ReachableMove(s1, StartDone, s);
  }

  lemma Begun(s: State, e: Event, key: string) returns (t: State)
    requires Reachable(s) && Admitted(s, e, key) && key == WorkerEventKey(e) && s.calls == map[]
    ensures Reachable(t) && t == s.(calls := map[e.id := Call(e, key, Entered)], issued := s.issued[e.id := Issue(|s.issued|, e, key)])
  {
    t := s.(calls := map[e.id := Call(e, key, Entered)], issued := s.issued[e.id := Issue(|s.issued|, e, key)]);
    assert s.calls[e.id := Call(e, key, Entered)] == t.calls;
    ReachableStep(s, Begin(e, key), t);
  }

  lemma Marked(s: State, e: Event, key: string) returns (t: State)
    requires Reachable(s) && s.calls == map[e.id := Call(e, key, Entered)] && SameJob(s.hub, e) && key !in s.hub.pending
    ensures Reachable(t)
    ensures t == s.(hub := s.hub.(latest := s.hub.latest[key := e.id]), calls := map[e.id := Call(e, key, Superseded)])
  {
    t := s.(hub := s.hub.(latest := s.hub.latest[key := e.id]), calls := map[e.id := Call(e, key, Superseded)]);
    assert s.hub.pending - {key} == s.hub.pending;
    assert s.calls[e.id := s.calls[e.id].(pc := Superseded)] == t.calls;
    ReachableMove(s, Supersede(e.id), t);
  }

  lemma Failed(s: State, e: Event, key: string) returns (t: State)
    requires Reachable(s) && s.calls == map[e.id := Call(e, key, Superseded)] && s.publisher == Nobody
    ensures Reachable(t)
    ensures t == s.(log := s.log + [Entry(e, key, false)], calls := map[e.id := Call(e, key, CallPc.Failed)])
  {
    var u := s.(publisher := ByCall(e.id), calls := map[e.id := Call(e, key, Publishing)]);
    assert s.calls[e.id := s.calls[e.id].(pc := Publishing)] == u.calls;
    ReachableMove(s, Acquire(e.id), u);
    t := s.(log := s.log + [Entry(e, key, false)], calls := map[e.id := Call(e, key, CallPc.Failed)]);
    assert u.calls[e.id := u.calls[e.id].(pc := CallPc.Failed)] == t.calls;
    ReachableMove(u, Publish(e.id, Retryable), t);
  }

  lemma Enqueued(s: State, e: Event, key: string) returns (t: State)
    requires Reachable(s) && s.calls == map[e.id := Call(e, key, CallPc.Failed)] && SameJob(s.hub, e) && s.hub.delivering
    requires key !in s.hub.pending && |s.hub.pending| < MAX_PENDING && Latest(s.hub, key) == e.id && key in s.hub.latest
    ensures Reachable(t) && t == s.(hub := s.hub.(pending := s.hub.pending[key := Queued(e, key, 0)]), calls := map[])
  {
    t := s.(hub := s.hub.(pending := s.hub.pending[key := Queued(e, key, 0)]), calls := map[]);
    assert s.hub.latest[key := e.id] == s.hub.latest;
    assert s.calls - {e.id} == map[];
    ReachableMove(s, Enqueue(e.id, 0, true), t);
  }

  /** A publish that fails adds its event to the queue. */
  lemma QueuedUp(s: State, e: Event, key: string) returns (t: State)
    requires Reachable(s) && Admitted(s, e, key) && key == WorkerEventKey(e) && s.calls == map[] && s.publisher == Nobody
    requires s.hub.delivering && key !in s.hub.pending && |s.hub.pending| < MAX_PENDING
    ensures Reachable(t) && t.issued == s.issued[e.id := Issue(|s.issued|, e, key)] && t.calls == map[] && t.publisher == Nobody
    ensures t.life == s.life && t.loop == s.loop && t.log == s.log + [Entry(e, key, false)]
    ensures t.hub == s.hub.(latest := s.hub.latest[key := e.id], pending := s.hub.pending[key := Queued(e, key, 0)])
  {
    var s1 := Begun(s, e, key);
    var s2 := Marked(s1, e, key);
    var s3 := Failed(s2, e, key);
    t := Enqueued(s3, e, key);
  }

  /** Adding an event with a key of its own leaves the others ready to be retried. */
  lemma OthersReady(hub: Shared, e: Event, key: string, t: Shared)
    requires key !in hub.pending && SameJob(hub, e) && e.attempt == 1
    requires t == hub.(latest := hub.latest[key := e.id], pending := hub.pending[key := Queued(e, key, 0)])
    requires forall k :: k in hub.pending ==> ReadyToRetry(hub, k)
    ensures (forall k :: k in t.pending ==> ReadyToRetry(t, k)) && |t.pending| == |hub.pending| + 1 && t.pending.Keys == hub.pending.Keys + {key}
  {
    assert t.pending.Keys == hub.pending.Keys + {key};
  }

  lemma NamesLater(m: nat, keys: set<string>, ids: set<string>)
    requires forall k :: m <= k ==> Name(k) !in ids
    requires forall k :: m <= k ==> KeyOf(k) !in keys
    ensures forall k :: m + 1 <= k ==> Name(k) !in ids + {Name(m)}
    ensures forall k :: m + 1 <= k ==> KeyOf(k) !in keys + {KeyOf(m)}
  {
    forall k | m + 1 <= k ensures Name(k) !in ids + {Name(m)} {
      assert |Name(k)| != |Name(m)|;
    }
    forall k | m + 1 <= k ensures KeyOf(k) !in keys + {KeyOf(m)} {
      if KeyOf(k) == KeyOf(m) {
        KeysDiffer(k, m);
      }
    }
  }

  lemma AddOne(s: State, m: nat, n: nat, loop: LoopPc) returns (t: State)
    requires Reachable(s) && Loaded(s, m, n, loop) && n < MAX_PENDING
    ensures Reachable(t) && Loaded(t, m + 1, n + 1, loop)
    ensures t.hub.pending.Keys == s.hub.pending.Keys + {KeyOf(m)}
  {
    var e, key := EventOf(m), KeyOf(m);
    assert Name(m) !in s.issued.Keys && key !in s.hub.pending.Keys;
    t := QueuedUp(s, e, key);
    OthersReady(s.hub, e, key, t.hub);
    NamesLater(m, s.hub.pending.Keys, s.issued.Keys);
    assert t.issued.Keys == s.issued.Keys + {Name(m)};
  }

  lemma {:induction false} FillUp(n: nat) returns (s: State)
    requires n <= MAX_PENDING
    ensures Reachable(s) && Loaded(s, n, n, Waiting)
  {
    if n == 0 {
      s := Started();
    } else {
      s := FillUp(n - 1);
      s := AddOne(s, n - 1, n - 1, Waiting);
    }
  }

  lemma Taken(s: State, key: string) returns (t: State)
    requires Reachable(s) && s.loop == Waiting && s.publisher == Nobody && s.hub.delivering
    requires key in s.hub.pending && forall k :: k in s.hub.pending ==> ReadyToRetry(s.hub, k)
    ensures Reachable(t)
    ensures t == s.(hub := s.hub.(pending := s.hub.pending - {key}), publisher := ByLoop,
                    loop := Holding(Again(s.hub.pending[key])))
  {
    var p0, p1 := s.hub.pending[key], Again(s.hub.pending[key]);
    assert ReadyToRetry(s.hub, key);
    var s1 := s.(hub := s.hub.(pending := s.hub.pending - {key}), loop := Selected(p0));
    assert OldestReady(s.hub.pending, key, RETRY_BASE) by {
      assert forall k :: k in s.hub.pending ==> s.hub.pending[k].queuedAt == 0 && ReadyToRetry(s.hub, k);
    }
    ReachableMove(s, Select(RETRY_BASE, key), s1);
    var s2 := s1.(loop := Checked(p1));
    ReachableMove(s1, Check, s2);
    t := s2.(publisher := ByLoop, loop := Holding(p1));
    ReachableMove(s2, Lock, t);
  }

  /** The entry as it is handed over for its second attempt. */
  function Again(p: Pending): Pending {
    p.(attempts := p.attempts + 1, event := p.event.(attempt := p.attempts + 1))
  }

  lemma FailsAgain(s: State, p: Pending) returns (t: State, q: Pending)
    requires Reachable(s) && s.loop == Holding(p) && s.publisher == ByLoop && IsCurrentSpec(s.hub, p) && p.attempts == 2
    ensures Reachable(t) && q == p.(nextTryAt := q.nextTryAt)
    ensures t == s.(publisher := Nobody, log := s.log + [Entry(p.event, p.key, false)], loop := Retrying(q))
  {
    var s1 := s.(loop := Cleared(p));
    ReachableMove(s, Recheck, s1);
    q := p.(nextTryAt := RetryDelay(2));
    t := s.(publisher := Nobody, log := s.log + [Entry(p.event, p.key, false)], loop := Retrying(q));
    ReachableMove(s1, PublishRetry(Retryable, false, 0), t);
  }

  lemma FewerReady(hub: Shared, key: string)
    requires key in hub.pending && forall k :: k in hub.pending ==> ReadyToRetry(hub, k)
    ensures var t := hub.(pending := hub.pending - {key});
      (forall k :: k in t.pending ==> ReadyToRetry(t, k)) && |t.pending| == |hub.pending| - 1 && t.pending.Keys == hub.pending.Keys - {key}
  {
    assert (hub.pending - {key}).Keys == hub.pending.Keys - {key};
  }

  /** The loop takes one event off the full queue and its retry fails. */
  lemma RetryFails(s: State, key: string) returns (t: State, p: Pending)
    requires Reachable(s) && Loaded(s, MAX_PENDING, MAX_PENDING, Waiting) && key in s.hub.pending
    ensures Reachable(t) && Loaded(t, MAX_PENDING, MAX_PENDING - 1, Retrying(p))
    ensures p.key == key && key !in t.hub.pending && SameJob(t.hub, p.event)
  {
    assert ReadyToRetry(s.hub, key);
    var u := Taken(s, key);
    FewerReady(s.hub, key);
    t, p := FailsAgain(u, Again(s.hub.pending[key]));
  }

  /** A run fills the queue, takes one event off it for a retry that fails, fills the place with another,
      and puts the first one back. */
  lemma QueueReaches257() returns (s: State, t: State)
    ensures Reachable(s) && Step(s, Requeue, t) && Overfills(s, Requeue)
    ensures |s.hub.pending| == 256 && |t.hub.pending| == 257
  {
    var full := FillUp(MAX_PENDING);
    assert full.hub.pending != map[];
    var key :| key in full.hub.pending;
    var retrying, p := RetryFails(full, key);
    s := AddOne(retrying, MAX_PENDING, MAX_PENDING - 1, Retrying(p));
    t := PutBack(s, p);
  }

  lemma PutBack(s: State, p: Pending) returns (t: State)
    requires s.loop == Retrying(p) && SameJob(s.hub, p.event) && s.hub.delivering && p.key !in s.hub.pending
    requires |s.hub.pending| == MAX_PENDING
    ensures Step(s, Requeue, t) && Overfills(s, Requeue) && |t.hub.pending| == MAX_PENDING + 1
  {
    t := s.(hub := RequeueSpec(s.hub, p), loop := Waiting);
    assert t.hub.pending.Keys == s.hub.pending.Keys + {p.key};
  }
}
