// The fields that the direct publish path and the retry loop share under Manager.mu, and the
// locked sections that update them. Each section is one method; its contract is the relation that
// the protocol in DeliveryProtocol.dfy steps with.
module EventDelivery {
  import opened Text
  import opened EventKeys

  const MAX_PENDING: nat := 256
  const MAX_ATTEMPTS: nat := 5
  const RETRY_BASE: nat := 100   // milliseconds
  const RETRY_MAX: nat := 2000

  datatype Pending = Pending(event: Event, key: string, attempts: nat, nextTryAt: int, queuedAt: int)

  datatype Shared = Shared(stream: string, generation: nat, stopping: bool, delivering: bool,
                           pending: map<string, Pending>, latest: map<string, string>)

  /** The roster and the active speaker are never dropped to make room. */
  predicate Droppable(p: Pending) {
    !p.event.kind.Participants? && !p.event.kind.ActiveSpeaker?
  }

  ghost predicate AnyDroppable(m: map<string, Pending>) {
    exists k :: k in m && Droppable(m[k])
  }

  ghost predicate OldestDroppable(m: map<string, Pending>, k: string) {
    k in m && Droppable(m[k]) && forall j :: j in m && Droppable(m[j]) ==> m[k].queuedAt <= m[j].queuedAt
  }

  predicate Ready(p: Pending, now: int) {
    p.nextTryAt == 0 || p.nextTryAt <= now
  }

  ghost predicate OldestReady(m: map<string, Pending>, k: string, now: int) {
    k in m && Ready(m[k], now) && forall j :: j in m && Ready(m[j], now) ==> m[k].queuedAt <= m[j].queuedAt
  }

  /** The event still belongs to the running job. */
  predicate SameJob(s: Shared, e: Event) {
    s.stream == e.stream && s.generation == e.generation
  }

  /** A Go map yields the zero value for a missing key. */
  function Latest(s: Shared, key: string): string {
    if key in s.latest then s.latest[key] else ""
  }

  predicate IsCurrentSpec(s: Shared, p: Pending) {
    SameJob(s, p.event) && Latest(s, p.key) == p.event.id && s.delivering
  }

  function SupersedeSpec(s: Shared, e: Event, key: string): Shared {
    if SameJob(s, e) then s.(latest := s.latest[key := e.id], pending := s.pending - {key}) else s
  }

  function Queued(e: Event, key: string, now: int): Pending {
    Pending(e.(attempt := 1), key, 1, now + RETRY_BASE, now)
  }

  ghost predicate EnqueueSpec(s: Shared, e: Event, key: string, now: int, t: Shared, ok: bool) {
    if !SameJob(s, e) || !s.delivering then t == s && !ok
    else
      var marked := s.(latest := s.latest[key := e.id]);
      if key in s.pending || |s.pending| < MAX_PENDING then
        ok && t == marked.(pending := s.pending[key := Queued(e, key, now)])
      else if AnyDroppable(s.pending) then
        ok && exists k :: OldestDroppable(s.pending, k) && t == marked.(pending := (s.pending - {k})[key := Queued(e, key, now)])
      else !ok && t == marked
  }

  function RetryDelay(attempts: nat): nat
    requires attempts > 0
  {
    var delay := RETRY_BASE * Pow2(attempts - 1);
    if delay > RETRY_MAX then RETRY_MAX else delay
  }

  function Pow2(n: nat): nat { if n == 0 then 1 else 2 * Pow2(n - 1) }

  function RequeueSpec(s: Shared, p: Pending): Shared {
    if SameJob(s, p.event) && s.delivering && p.key !in s.pending then s.(pending := s.pending[p.key := p]) else s
  }

  function StartDeliverySpec(s: Shared): Shared { s.(delivering := true) }

  function StopDeliverySpec(s: Shared): Shared { s.(delivering := false, pending := map[], latest := map[]) }

  class Hub {
    var stream: string
    var generation: nat
    var stopping: bool
    var delivering: bool
    var pending: map<string, Pending>
    var latest: map<string, string>

    ghost predicate Valid() reads this {
      forall k :: k in pending ==> pending[k].key == k
    }

    ghost function View(): Shared reads this {
      Shared(stream, generation, stopping, delivering, pending, latest)
    }

    constructor ()
      ensures Valid() && View() == Shared("", 0, false, false, map[], map[])
    {
      stream, generation, stopping, delivering, pending, latest := "", 0, false, false, map[], map[];
    }

    method StartEventDelivery()
      requires Valid()
      modifies this
      ensures Valid() && View() == StartDeliverySpec(old(View()))
    {
      if delivering {
        return;
      }
      delivering := true;
    }

    method StopEventDelivery()
      modifies this
      ensures Valid() && View() == StopDeliverySpec(old(View()))
    {
      delivering := false;
      pending := map[];
      latest := map[];
    }

    method DropOldestPending() returns (ok: bool)
      requires Valid()
      modifies this`pending
      ensures Valid() && ok == AnyDroppable(old(pending))
      ensures !ok ==> pending == old(pending)
      ensures ok ==> exists k :: OldestDroppable(old(pending), k) && pending == old(pending) - {k}
    {
      var oldestKey: Option<string> := None;
      var todo := pending.Keys;
      while todo != {}
        invariant todo <= pending.Keys
        invariant oldestKey.Some? ==> oldestKey.value in pending && Droppable(pending[oldestKey.value])
        invariant forall j :: j in pending && j !in todo && Droppable(pending[j]) ==>
          oldestKey.Some? && pending[oldestKey.value].queuedAt <= pending[j].queuedAt
        decreases todo
      {
        var key :| key in todo;
        todo := todo - {key};
        if Droppable(pending[key]) && (oldestKey.None? || pending[key].queuedAt < pending[oldestKey.value].queuedAt) {
          oldestKey := Some(key);
        }
      }
      if oldestKey.None? {
        return false;
      }
      assert OldestDroppable(pending, oldestKey.value);
      pending := pending - {oldestKey.value};
      ok := true;
    }

    method Enqueue(e: Event, now: int) returns (ok: bool)
      requires Valid()
      modifies this
      ensures Valid() && EnqueueSpec(old(View()), e, WorkerEventKey(e), now, View(), ok)
    {
      var key := WorkerEventKey(e);
      if stream != e.stream || generation != e.generation || !delivering {
        return false;
      }
      latest := latest[key := e.id];
      if key !in pending && |pending| >= MAX_PENDING {
        var dropped := DropOldestPending();
        if !dropped {
          return false;
        }
      }
      pending := pending[key := Queued(e, key, now)];
      ok := true;
    }

    method Supersede(e: Event)
      requires Valid()
      modifies this
      ensures Valid() && View() == SupersedeSpec(old(View()), e, WorkerEventKey(e))
    {
      var key := WorkerEventKey(e);
      if generation == e.generation && stream == e.stream {
        latest := latest[key := e.id];
        pending := pending - {key};
      }
    }

    /** Takes the oldest due entry, or says how long until one is due (0: nothing is queued). The
        clock is read once for the scan and again, not earlier, for the wait: an entry that falls due
        between the two readings leaves a wait that is not positive although the queue is not empty,
        and the loop then sleeps until it is woken. */
    method NextPending(now: int, later: int) returns (selected: Option<Pending>, wait: int)
      requires Valid() && now <= later
      modifies this`pending
      ensures Valid()
      ensures selected.Some? <==> exists k :: k in old(pending) && Ready(old(pending)[k], now)
      ensures selected.Some? ==> (
        && OldestReady(old(pending), selected.value.key, now)
        && selected.value == old(pending)[selected.value.key]
        && pending == old(pending) - {selected.value.key} && wait == 0)
      ensures selected.None? ==> pending == old(pending)
      ensures selected.None? && pending == map[] ==> wait == 0
      ensures selected.None? && pending != map[] ==> (
        && (forall j :: j in pending ==> later + wait <= pending[j].nextTryAt)
        && (exists j :: j in pending && later + wait == pending[j].nextTryAt)
        && (wait > 0 <==> forall j :: j in pending ==> later < pending[j].nextTryAt))
    {
      selected := None;
      var next: Option<string> := None;
      var todo := pending.Keys;
      while todo != {}
        invariant todo <= pending.Keys
        invariant selected.Some? ==> selected.value.key in pending && selected.value == pending[selected.value.key] && Ready(selected.value, now)
        invariant forall j :: j in pending && j !in todo && Ready(pending[j], now) ==> selected.Some? && selected.value.queuedAt <= pending[j].queuedAt
        invariant next.Some? ==> next.value in pending && !Ready(pending[next.value], now)
        invariant forall j :: j in pending && j !in todo && !Ready(pending[j], now) ==> next.Some? && pending[next.value].nextTryAt <= pending[j].nextTryAt
        decreases todo
      {
        var key :| key in todo;
        todo := todo - {key};
        var p := pending[key];
        if Ready(p, now) {
          if selected.None? || p.queuedAt < selected.value.queuedAt {
            selected := Some(p);
          }
        } else if next.None? || p.nextTryAt < pending[next.value].nextTryAt {
          next := Some(key);
        }
      }
      if selected.Some? {
        pending := pending - {selected.value.key};
        return selected, 0;
      }
      if next.Some? {
        return None, pending[next.value].nextTryAt - later;
      }
      assert forall j :: j !in pending;
      return None, 0;
    }

    method IsCurrent(p: Pending) returns (current: bool)
      ensures current == IsCurrentSpec(View(), p)
    {
      current := stream == p.event.stream && generation == p.event.generation &&
                 (if p.key in latest then latest[p.key] else "") == p.event.id && delivering;
    }

    /** Puts a failed retry back unless a newer event took its place. */
    method Requeue(p: Pending)
      requires Valid()
      modifies this`pending
      ensures Valid() && View() == RequeueSpec(old(View()), p)
    {
      if stream == p.event.stream && generation == p.event.generation && delivering {
        if p.key !in pending {
          pending := pending[p.key := p];
        }
      }
    }
  }

  /** The 2 s ceiling on the back-off is never reached: an event that failed five times is given up. */
  lemma BackOffBelowCeiling(attempts: nat)
    requires 0 < attempts < MAX_ATTEMPTS
    ensures RetryDelay(attempts) == RETRY_BASE * Pow2(attempts - 1) < RETRY_MAX
  {
    assert Pow2(0) == 1 && Pow2(1) == 2 && Pow2(2) == 4 && Pow2(3) == 8;
    assert attempts == 1 || attempts == 2 || attempts == 3 || attempts == 4;
  }
}
