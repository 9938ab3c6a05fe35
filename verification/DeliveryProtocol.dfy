// Event delivery as a protocol: any number of ingress calls, the retry loop, and Start/Stop/video
// failure interleave, one locked section of EventDelivery.dfy (or one publisher call under
// publisherMu) at a time. The log records every call made to the publisher, in order.
module DeliveryProtocol {
  import opened Text
  import opened EventKeys
  import opened EventDelivery

  datatype Outcome = Delivered | Retryable | Fatal

  datatype CallPc = Entered | Superseded | Publishing | Failed
  datatype Call = Call(event: Event, key: string, pc: CallPc)

  /** Where the retry loop is with the entry it took off the queue. */
  datatype LoopPc = Waiting | Selected(p: Pending) | Checked(p: Pending) | Holding(p: Pending) | Cleared(p: Pending) | Retrying(p: Pending)

  /** Progress of the operation that holds lifecycleMu. */
  datatype Lifecycle = Free | Starting | Clearing(stop: bool) | Joining(stop: bool)

  datatype Holder = Nobody | ByCall(id: string) | ByLoop

  datatype Entry = Entry(event: Event, key: string, ok: bool)

  /** What is remembered of an event for the statements below: its place in ingress order. */
  datatype Issue = Issue(turn: nat, event: Event, key: string)

  datatype State = State(hub: Shared, calls: map<string, Call>, loop: LoopPc, publisher: Holder, life: Lifecycle,
                         issued: map<string, Issue>, log: seq<Entry>)

  datatype Action =
    | StartCommit(stream: string) | StartDone | StartFail | StopFence | VideoFail | Clear | Joined(persisted: bool)
    | Begin(e: Event, key: string) | Supersede(id: string) | SceneFail(id: string) | Acquire(id: string)
    | Publish(id: string, outcome: Outcome) | Enqueue(id: string, now: int, ok: bool)
    | Select(now: int, key: string) | Check | Lock | Recheck | PublishRetry(outcome: Outcome, cancelled: bool, now: int) | Requeue

  function Init(): State {
    State(Shared("", 0, false, false, map[], map[]), map[], Waiting, Nobody, Free, map[], [])
  }

  /** The assumptions on ingress: the event has a fresh, non-empty ID, and no other call for its
      key is still running. The rest are the checks of the first locked section. */
  ghost predicate Admitted(s: State, e: Event, key: string) {
    && s.hub.stream != "" && !s.hub.stopping && SameJob(s.hub, e) && e.attempt == 1
    && e.id != "" && e.id !in s.issued
    && (forall c :: c in s.calls ==> s.calls[c].key != key)
  }

  /** The effect of one step; the protocol is correct whatever key an event is given at ingress. */
  ghost predicate Move(s: State, a: Action, t: State) {
    match a
    case StartCommit(stream) =>
      && s.life == Free && s.hub.stream == "" && stream != ""
      && t == s.(hub := StartDeliverySpec(s.hub.(stream := stream, generation := s.hub.generation + 1)), life := Starting)
    case StartDone => s.life == Starting && t == s.(life := Free)
    case StartFail => s.life == Starting && t == s.(hub := s.hub.(stream := ""), life := Clearing(false))
    case StopFence =>
      && s.life == Free && s.hub.stream != ""
      && t == s.(hub := s.hub.(stopping := true, generation := s.hub.generation + 1), life := Clearing(true))
    case VideoFail =>
      && s.life == Free && s.hub.stream != ""
      && t == s.(hub := s.hub.(stream := "", generation := s.hub.generation + 1), life := Clearing(false))
    case Clear => s.life.Clearing? && t == s.(hub := StopDeliverySpec(s.hub), life := Joining(s.life.stop))
    case Joined(persisted) =>
      // deliveryWG.Wait has returned: the loop goroutine is gone.
      && s.life.Joining? && s.loop == Waiting
      && t == s.(life := Free, hub := if s.life.stop && persisted then s.hub.(stream := "", stopping := false) else s.hub)
    case Begin(e, key) =>
      && Admitted(s, e, key)
      && t == s.(calls := s.calls[e.id := Call(e, key, Entered)], issued := s.issued[e.id := Issue(|s.issued|, e, key)])
    case Supersede(id) =>
      && id in s.calls && s.calls[id].pc == Entered
      && t == s.(hub := SupersedeSpec(s.hub, s.calls[id].event, s.calls[id].key), calls := s.calls[id := s.calls[id].(pc := Superseded)])
    case SceneFail(id) =>
      && id in s.calls && s.calls[id].pc == Superseded
      && t == s.(calls := s.calls - {id})
    case Acquire(id) =>
      && id in s.calls && s.calls[id].pc == Superseded && s.publisher == Nobody
      && t == s.(publisher := ByCall(id), calls := s.calls[id := s.calls[id].(pc := Publishing)])
    case Publish(id, outcome) =>
      && id in s.calls && s.calls[id].pc == Publishing
      && t == s.(publisher := Nobody, log := s.log + [Entry(s.calls[id].event, s.calls[id].key, outcome == Delivered)],
                 calls := if outcome == Retryable then s.calls[id := s.calls[id].(pc := Failed)] else s.calls - {id})
    case Enqueue(id, now, ok) =>
      && id in s.calls && s.calls[id].pc == Failed
      && EnqueueSpec(s.hub, s.calls[id].event, s.calls[id].key, now, t.hub, ok)
      && t == s.(hub := t.hub, calls := s.calls - {id})
    case Select(now, key) =>
      && s.loop == Waiting && OldestReady(s.hub.pending, key, now)
      && t == s.(hub := s.hub.(pending := s.hub.pending - {key}), loop := Selected(s.hub.pending[key]))
    case Check =>
      && s.loop.Selected?
      && var n := s.loop.p.attempts + 1;
         t == s.(loop := if IsCurrentSpec(s.hub, s.loop.p)
                         then Checked(s.loop.p.(attempts := n, event := s.loop.p.event.(attempt := n)))
                         else Waiting)
    case Lock => s.loop.Checked? && s.publisher == Nobody && t == s.(publisher := ByLoop, loop := Holding(s.loop.p))
    case Recheck =>
      && s.loop.Holding?
      && t == if IsCurrentSpec(s.hub, s.loop.p) then s.(loop := Cleared(s.loop.p)) else s.(publisher := Nobody, loop := Waiting)
    case PublishRetry(outcome, cancelled, now) =>
      && s.loop.Cleared?
      && var p := s.loop.p;
         t == s.(publisher := Nobody, log := s.log + [Entry(p.event, p.key, outcome == Delivered)],
                 loop := if outcome == Retryable && 0 < p.attempts < MAX_ATTEMPTS && !cancelled
                         then Retrying(p.(nextTryAt := now + RetryDelay(p.attempts))) else Waiting)
    case Requeue => s.loop.Retrying? && t == s.(hub := RequeueSpec(s.hub, s.loop.p), loop := Waiting)
  }

  ghost predicate Step(s: State, a: Action, t: State) {
    Move(s, a, t) && (a.Begin? ==> a.key == WorkerEventKey(a.e))
  }

  ghost predicate Run(states: seq<State>, actions: seq<Action>) {
    && |states| == |actions| + 1 && states[0] == Init()
    && forall i :: 0 <= i < |actions| ==> Step(states[i], actions[i], states[i + 1])
  }

  ghost predicate Reachable(s: State) {
    exists states, actions :: Run(states, actions) && states[|states| - 1] == s
  }

  type Issues = map<string, Issue>

  // ----- the statements -----

  function Turn(issued: Issues, id: string): nat {
    if id in issued then issued[id].turn else 0
  }

  /** Per key and generation, the publisher never sees an older event after a newer one. */
  ghost predicate Ordered(issued: Issues, log: seq<Entry>) {
    forall i, j :: 0 <= i < j < |log| && log[i].key == log[j].key && log[i].event.generation == log[j].event.generation ==>
      Turn(issued, log[i].event.id) <= Turn(issued, log[j].event.id)
  }

  /** The attempt numbers under which an event was handed to the publisher, in order. */
  ghost function Tried(log: seq<Entry>, id: string): seq<nat> {
    if log == [] then []
    else
      var last := log[|log| - 1];
      Tried(log[..|log| - 1], id) + if last.event.id == id then [last.event.attempt] else []
  }

  function Upto(n: nat): seq<nat> {
    seq(n, i => i + 1)
  }

  function InFlight(loop: LoopPc): nat { if loop.Waiting? then 0 else 1 }

  // ----- the invariant, one predicate for each part of the state it speaks of -----

  ghost predicate IssuedOk(issued: Issues) {
    forall i :: i in issued ==> issued[i].event.id == i && i != "" && issued[i].turn < |issued| && issued[i].event.stream != ""
  }

  /** x is the event issued under its ID, up to the attempt number. */
  ghost predicate Tied(issued: Issues, x: Event, key: string) {
    x.id in issued && x.(attempt := 1) == issued[x.id].event && key == issued[x.id].key
  }

  ghost predicate Newest(issued: Issues, id: string, key: string) {
    forall j :: j in issued && issued[j].key == key ==> issued[j].turn <= Turn(issued, id)
  }

  ghost predicate CallOk(issued: Issues, id: string, c: Call) {
    c.event.id == id && c.event.attempt == 1 && Tied(issued, c.event, c.key) && Newest(issued, id, c.key)
  }

  ghost predicate CallsOk(issued: Issues, calls: map<string, Call>) {
    && (forall c :: c in calls ==> CallOk(issued, c, calls[c]))
    && (forall c, d :: c in calls && d in calls && c != d ==> calls[c].key != calls[d].key)
  }

  ghost predicate WaitingOk(issued: Issues, calls: map<string, Call>, p: Pending) {
    Tied(issued, p.event, p.key) && p.event.attempt == p.attempts && p.event.id !in calls
  }

  ghost predicate QueueOk(issued: Issues, calls: map<string, Call>, pending: map<string, Pending>) {
    forall k :: k in pending ==> k == pending[k].key && WaitingOk(issued, calls, pending[k])
  }

  ghost predicate LoopOk(issued: Issues, calls: map<string, Call>, pending: map<string, Pending>, loop: LoopPc) {
    !loop.Waiting? ==>
      WaitingOk(issued, calls, loop.p) && (loop.p.key in pending ==> pending[loop.p.key].event.id != loop.p.event.id)
  }

  ghost predicate MarksOk(issued: Issues, latest: map<string, string>) {
    forall k :: k in latest ==> latest[k] in issued && issued[latest[k]].key == k
  }

  ghost predicate LogOk(issued: Issues, log: seq<Entry>) {
    forall i :: 0 <= i < |log| ==> Tied(issued, log[i].event, log[i].key)
  }

  ghost predicate LocksOk(calls: map<string, Call>, loop: LoopPc, publisher: Holder) {
    && (forall c :: c in calls ==> (calls[c].pc == Publishing <==> publisher == ByCall(c)))
    && ((loop.Holding? || loop.Cleared?) <==> publisher == ByLoop)
    && (publisher.ByCall? ==> publisher.id in calls)
  }

  ghost predicate JobsOk(issued: Issues, hub: Shared, life: Lifecycle) {
    && (forall i :: i in issued ==> issued[i].event.generation <= hub.generation)
    && (hub.stream != "" ==> forall i :: i in issued && issued[i].event.generation == hub.generation ==> issued[i].event.stream == hub.stream)
    && ((life.Clearing? || life.Joining?) && hub.stream != "" ==>
          hub.stopping && forall i :: i in issued ==> issued[i].event.generation < hub.generation)
    && ((life == Free || life == Starting) ==> forall k :: k in hub.pending ==> hub.pending[k].event.generation == hub.generation)
    && (!hub.delivering ==> hub.pending == map[])
    && (life.Joining? ==> !hub.delivering)
    && (life == Free && hub.stream == "" ==> !hub.delivering)
    && (life == Starting ==> hub.stream != "")
  }

  ghost predicate Live(hub: Shared) { hub.delivering && hub.stream != "" }

  ghost predicate Marked(issued: Issues, latest: map<string, string>, key: string, id: string) {
    key in latest && Turn(issued, id) <= Turn(issued, latest[key])
  }

  ghost predicate LogMarked(issued: Issues, hub: Shared, log: seq<Entry>) {
    Live(hub) ==>
      forall i :: 0 <= i < |log| && log[i].event.generation == hub.generation ==> Marked(issued, hub.latest, log[i].key, log[i].event.id)
  }

  ghost predicate CallsMarked(hub: Shared, calls: map<string, Call>) {
    Live(hub) ==>
      forall c :: c in calls && calls[c].pc != Entered && calls[c].event.generation == hub.generation ==>
        calls[c].key in hub.latest && hub.latest[calls[c].key] == c
  }

  ghost predicate LoopMarked(issued: Issues, hub: Shared, loop: LoopPc) {
    Live(hub) && loop.Cleared? && loop.p.event.generation == hub.generation ==> Marked(issued, hub.latest, loop.p.key, loop.p.event.id)
  }

  ghost predicate NothingNewer(issued: Issues, log: seq<Entry>, p: Pending) {
    forall i :: 0 <= i < |log| && log[i].key == p.key && log[i].event.generation == p.event.generation ==>
      Turn(issued, log[i].event.id) <= Turn(issued, p.event.id)
  }

  ghost predicate LoopCurrent(issued: Issues, log: seq<Entry>, loop: LoopPc) {
    loop.Cleared? ==> NothingNewer(issued, log, loop.p)
  }

  ghost predicate Tidy(s: State) {
    && IssuedOk(s.issued) && CallsOk(s.issued, s.calls) && QueueOk(s.issued, s.calls, s.hub.pending)
    && LoopOk(s.issued, s.calls, s.hub.pending, s.loop) && MarksOk(s.issued, s.hub.latest) && LogOk(s.issued, s.log)
    && LocksOk(s.calls, s.loop, s.publisher) && JobsOk(s.issued, s.hub, s.life)
  }

  ghost predicate Safe(s: State) {
    && Tidy(s)
    && LogMarked(s.issued, s.hub, s.log) && CallsMarked(s.hub, s.calls) && LoopMarked(s.issued, s.hub, s.loop)
    && LoopCurrent(s.issued, s.log, s.loop) && Ordered(s.issued, s.log)
  }

  predicate IsLifecycle(a: Action) {
    a.StartCommit? || a.StartDone? || a.StartFail? || a.StopFence? || a.VideoFail? || a.Clear? || a.Joined?
  }

  predicate IsLoop(a: Action) {
    a.Select? || a.Check? || a.Lock? || a.Recheck? || a.PublishRetry? || a.Requeue?
  }

  lemma LifecycleSafe(s: State, a: Action, t: State)
    requires Safe(s) && Move(s, a, t) && IsLifecycle(a)
    ensures Safe(t)
  {
  }

  lemma SelectSafe(s: State, a: Action, t: State)
    requires Safe(s) && Move(s, a, t) && a.Select?
    ensures Safe(t)
  {
  }

  lemma CheckSafe(s: State, a: Action, t: State)
    requires Safe(s) && Move(s, a, t) && a.Check?
    ensures Safe(t)
  {
  }

  lemma LockSafe(s: State, a: Action, t: State)
    requires Safe(s) && Move(s, a, t) && a.Lock?
    ensures Safe(t)
  {
  }

  /** The second check runs under publisherMu, so nothing newer is in the log when it passes. */
  lemma RecheckSafe(s: State, a: Action, t: State)
    requires Safe(s) && Move(s, a, t) && a.Recheck?
    ensures Safe(t)
  {
  }

  lemma PublishRetrySafe(s: State, a: Action, t: State)
    requires Safe(s) && Move(s, a, t) && a.PublishRetry?
    ensures Safe(t)
  {
  }

  lemma RequeueSafe(s: State, a: Action, t: State)
    requires Safe(s) && Move(s, a, t) && a.Requeue?
    ensures Safe(t)
  {
  }

  lemma SceneFailSafe(s: State, a: Action, t: State)
    requires Safe(s) && Move(s, a, t) && a.SceneFail?
    ensures Safe(t)
  {
  }

  lemma AcquireSafe(s: State, a: Action, t: State)
    requires Safe(s) && Move(s, a, t) && a.Acquire?
    ensures Safe(t)
  {
  }

  lemma PublishTidy(s: State, a: Action, t: State)
    requires Tidy(s) && Move(s, a, t) && a.Publish?
    ensures Tidy(t)
  {
  }

  lemma PublishSafe(s: State, a: Action, t: State)
    requires Safe(s) && Move(s, a, t) && a.Publish?
    ensures Safe(t)
  {
    PublishTidy(s, a, t);
  }

  /** An event with a key of its own leaves every running call the newest of its key. */
  lemma StillNewest(issued: Issues, e: Event, key: string, id: string, c: Call)
    requires CallOk(issued, id, c) && e.id !in issued && c.key != key
    ensures CallOk(issued[e.id := Issue(|issued|, e, key)], id, c)
  {
  }

  lemma BeginCalls(s: State, a: Action, t: State)
    requires IssuedOk(s.issued) && CallsOk(s.issued, s.calls) && Move(s, a, t) && a.Begin?
    ensures IssuedOk(t.issued) && CallsOk(t.issued, t.calls)
  {
    forall c | c in s.calls ensures CallOk(t.issued, c, s.calls[c]) {
      StillNewest(s.issued, a.e, a.key, c, s.calls[c]);
    }
    assert CallOk(t.issued, a.e.id, t.calls[a.e.id]);
  }

  lemma BeginQueue(s: State, a: Action, t: State)
    requires Tidy(s) && Move(s, a, t) && a.Begin?
    ensures QueueOk(t.issued, t.calls, t.hub.pending) && LoopOk(t.issued, t.calls, t.hub.pending, t.loop)
  {
  }

  lemma BeginTidy(s: State, a: Action, t: State)
    requires Tidy(s) && Move(s, a, t) && a.Begin?
    ensures Tidy(t)
  {
    BeginCalls(s, a, t);
    BeginQueue(s, a, t);
  }

  lemma BeginSafe(s: State, a: Action, t: State)
    requires Safe(s) && Move(s, a, t) && a.Begin?
    ensures Safe(t)
  {
    BeginTidy(s, a, t);
    assert forall id :: id in s.issued ==> Turn(t.issued, id) == Turn(s.issued, id);
  }

  lemma SupersedeTidy(s: State, a: Action, t: State)
    requires Tidy(s) && Move(s, a, t) && a.Supersede?
    ensures Tidy(t)
  {
  }

  /** Making a running call's event the latest of its key keeps everything marked: nothing newer has that key. */
  lemma MarkCall(s: State, id: string, hub: Shared)
    requires Safe(s) && id in s.calls && hub.latest == s.hub.latest[s.calls[id].key := id]
    requires hub == s.hub.(latest := hub.latest, pending := hub.pending)
    ensures LogMarked(s.issued, hub, s.log) && LoopMarked(s.issued, hub, s.loop)
    ensures CallsMarked(hub, s.calls) && CallsMarked(hub, s.calls[id := s.calls[id].(pc := Superseded)])
  {
    assert CallOk(s.issued, id, s.calls[id]);
  }

  lemma SupersedeSafe(s: State, a: Action, t: State)
    requires Safe(s) && Move(s, a, t) && a.Supersede?
    ensures Safe(t)
  {
    SupersedeTidy(s, a, t);
    if SameJob(s.hub, s.calls[a.id].event) {
      MarkCall(s, a.id, t.hub);
    }
  }

  /** What an enqueue can do to the shared fields, whether or not it is accepted. */
  ghost predicate EnqueueFrame(s: Shared, e: Event, key: string, now: int, t: Shared) {
    && t == s.(latest := t.latest, pending := t.pending)
    && (t.latest == s.latest || (t.latest == s.latest[key := e.id] && SameJob(s, e) && s.delivering))
    && (t.pending != s.pending ==> SameJob(s, e) && s.delivering)
    && (forall k :: k in t.pending ==> (k in s.pending && t.pending[k] == s.pending[k]) || (k == key && t.pending[k] == Queued(e, key, now)))
  }

  lemma EnqueueEffect(s: Shared, e: Event, key: string, now: int, t: Shared, ok: bool)
    requires EnqueueSpec(s, e, key, now, t, ok)
    ensures EnqueueFrame(s, e, key, now, t)
  {
  }

  ghost predicate EnqueueMove(s: State, id: string, now: int, t: State) {
    && id in s.calls && s.calls[id].pc == Failed && t == s.(hub := t.hub, calls := s.calls - {id})
    && EnqueueFrame(s.hub, s.calls[id].event, s.calls[id].key, now, t.hub)
  }

  lemma EnqueueTidy(s: State, id: string, now: int, t: State)
    requires Tidy(s) && EnqueueMove(s, id, now, t)
    ensures Tidy(t)
  {
    assert CallOk(s.issued, id, s.calls[id]);
  }

  lemma EnqueueSafe(s: State, id: string, now: int, t: State)
    requires Safe(s) && EnqueueMove(s, id, now, t)
    ensures Safe(t)
  {
    EnqueueTidy(s, id, now, t);
    if t.hub.latest != s.hub.latest {
      MarkCall(s, id, t.hub);
    }
  }

  lemma EnqueueIsMove(s: State, a: Action, t: State)
    requires Move(s, a, t) && a.Enqueue?
    ensures EnqueueMove(s, a.id, a.now, t)
  {
    EnqueueEffect(s.hub, s.calls[a.id].event, s.calls[a.id].key, a.now, t.hub, a.ok);
  }

  lemma SafeMove(s: State, a: Action, t: State)
    requires Safe(s) && Move(s, a, t)
    ensures Safe(t)
  {
    match a {
      case Begin(_, _) => BeginSafe(s, a, t);
      case Supersede(_) => SupersedeSafe(s, a, t);
      case SceneFail(_) => SceneFailSafe(s, a, t);
      case Acquire(_) => AcquireSafe(s, a, t);
      case Publish(_, _) => PublishSafe(s, a, t);
      case Enqueue(id, now, _) => EnqueueIsMove(s, a, t); EnqueueSafe(s, id, now, t);
      case Select(_, _) => SelectSafe(s, a, t);
      case Check => CheckSafe(s, a, t);
      case Lock => LockSafe(s, a, t);
      case Recheck => RecheckSafe(s, a, t);
      case PublishRetry(_, _, _) => PublishRetrySafe(s, a, t);
      case Requeue => RequeueSafe(s, a, t);
      case _ => LifecycleSafe(s, a, t);
    }
  }

  // ----- attempts -----

  ghost predicate Unsent(log: seq<Entry>, id: string) {
    forall i :: 0 <= i < |log| && log[i].event.id == id ==> !log[i].ok
  }

  ghost predicate OnceDelivered(log: seq<Entry>) {
    forall i, j :: 0 <= i < j < |log| && log[i].event.id == log[j].event.id ==> !log[i].ok
  }

  ghost predicate TriedTimes(log: seq<Entry>, id: string, n: int) {
    0 <= n <= MAX_ATTEMPTS && Tried(log, id) == Upto(n) && Unsent(log, id)
  }

  ghost predicate CallsTried(log: seq<Entry>, calls: map<string, Call>) {
    forall c :: c in calls ==> TriedTimes(log, c, if calls[c].pc == Failed then 1 else 0)
  }

  ghost predicate QueueTried(log: seq<Entry>, pending: map<string, Pending>) {
    forall k :: k in pending ==> 0 < pending[k].attempts < MAX_ATTEMPTS && TriedTimes(log, pending[k].event.id, pending[k].attempts)
  }

  ghost predicate LoopTried(log: seq<Entry>, loop: LoopPc) {
    && (loop.Selected? || loop.Retrying? ==> 0 < loop.p.attempts < MAX_ATTEMPTS && TriedTimes(log, loop.p.event.id, loop.p.attempts))
    && (loop.Checked? || loop.Holding? || loop.Cleared? ==>
          1 < loop.p.attempts <= MAX_ATTEMPTS && TriedTimes(log, loop.p.event.id, loop.p.attempts - 1))
  }

  ghost predicate Numbered(log: seq<Entry>) {
    forall id :: |Tried(log, id)| <= MAX_ATTEMPTS && Tried(log, id) == Upto(|Tried(log, id)|)
  }

  ghost predicate Counted(s: State) {
    CallsTried(s.log, s.calls) && QueueTried(s.log, s.hub.pending) && LoopTried(s.log, s.loop) && Numbered(s.log) && OnceDelivered(s.log)
  }

  lemma TriedAppend(log: seq<Entry>, e: Entry, id: string)
    ensures Tried(log + [e], id) == Tried(log, id) + if e.event.id == id then [e.event.attempt] else []
  {
    assert (log + [e])[..|log|] == log;
  }

  lemma NeverTried(log: seq<Entry>, id: string)
    requires forall i :: 0 <= i < |log| ==> log[i].event.id != id
    ensures Tried(log, id) == []
  {
  }

  lemma UptoNext(n: nat)
    ensures Upto(n) + [n + 1] == Upto(n + 1)
  {
  }

  /** Publishing under the next number keeps the numbering, and leaves other events' history alone. */
  lemma CountAppend(log: seq<Entry>, e: Entry, n: nat)
    requires Numbered(log) && OnceDelivered(log) && TriedTimes(log, e.event.id, n) && n < MAX_ATTEMPTS && e.event.attempt == n + 1
    ensures Numbered(log + [e]) && OnceDelivered(log + [e])
    ensures !e.ok ==> TriedTimes(log + [e], e.event.id, n + 1)
    ensures forall id, m :: id != e.event.id && TriedTimes(log, id, m) ==> TriedTimes(log + [e], id, m)
  {
    UptoNext(n);
    forall id ensures Tried(log + [e], id) == Tried(log, id) + if e.event.id == id then [e.event.attempt] else [] {
      TriedAppend(log, e, id);
    }
  }

  lemma CountedLoop(s: State, a: Action, t: State)
    requires Tidy(s) && Counted(s) && Move(s, a, t) && (a.Select? || a.Requeue?)
    ensures Counted(t)
  {
  }

  lemma CountedCheck(s: State, a: Action, t: State)
    requires LoopTried(s.log, s.loop) && Move(s, a, t) && (a.Check? || a.Lock? || a.Recheck?)
    ensures LoopTried(t.log, t.loop) && t.log == s.log && t.calls == s.calls && t.hub == s.hub
  {
  }

  lemma CountedQuiet(s: State, a: Action, t: State)
    requires Tidy(s) && Counted(s) && Move(s, a, t) && (IsLifecycle(a) || a.Supersede? || a.SceneFail? || a.Acquire?)
    ensures Counted(t)
  {
  }

  lemma CountedBegin(s: State, a: Action, t: State)
    requires Tidy(s) && Counted(s) && Move(s, a, t) && a.Begin?
    ensures Counted(t)
  {
    NeverTried(s.log, a.e.id);
  }

  lemma CountedEnqueue(s: State, id: string, now: int, t: State)
    requires Tidy(s) && Counted(s) && EnqueueMove(s, id, now, t)
    ensures Counted(t)
  {
    assert CallOk(s.issued, id, s.calls[id]);
  }

  lemma CountedPublish(s: State, a: Action, t: State)
    requires Tidy(s) && Counted(s) && Move(s, a, t) && a.Publish?
    ensures Counted(t)
  {
    assert CallOk(s.issued, a.id, s.calls[a.id]);
    CountAppend(s.log, t.log[|s.log|], 0);
  }

  lemma CountedRetry(s: State, a: Action, t: State)
    requires Tidy(s) && Counted(s) && Move(s, a, t) && a.PublishRetry?
    ensures Counted(t)
  {
    CountAppend(s.log, t.log[|s.log|], s.loop.p.attempts - 1);
  }

  lemma CountedMove(s: State, a: Action, t: State)
    requires Tidy(s) && Counted(s) && Move(s, a, t)
    ensures Counted(t)
  {
    if a.Begin? { CountedBegin(s, a, t); }
    else if a.Publish? { CountedPublish(s, a, t); }
    else if a.PublishRetry? { CountedRetry(s, a, t); }
    else if a.Enqueue? { EnqueueIsMove(s, a, t); CountedEnqueue(s, a.id, a.now, t); }
    else if a.Select? || a.Requeue? { CountedLoop(s, a, t); }
    else if IsLoop(a) { CountedCheck(s, a, t); }
    else { CountedQuiet(s, a, t); }
  }

  // ----- the queue bound -----

  ghost predicate Bounded(s: State) {
    |s.hub.pending| + InFlight(s.loop) <= MAX_PENDING + 1
  }

  lemma ReplaceSize(m: map<string, Pending>, k: string, key: string, p: Pending)
    requires k in m && key !in m
    ensures |(m - {k})[key := p]| == |m|
  {
    assert (m - {k})[key := p].Keys == m.Keys - {k} + {key};
  }

  lemma EnqueueSize(s: Shared, e: Event, key: string, now: int, t: Shared, ok: bool)
    requires EnqueueSpec(s, e, key, now, t, ok)
    ensures |t.pending| <= |s.pending| || |t.pending| <= MAX_PENDING
  {
    forall k | k in s.pending && key !in s.pending ensures |(s.pending - {k})[key := Queued(e, key, now)]| == |s.pending| {
      ReplaceSize(s.pending, k, key, Queued(e, key, now));
    }
  }

  lemma BoundedMove(s: State, a: Action, t: State)
    requires Bounded(s) && Move(s, a, t)
    ensures Bounded(t)
  {
    if a.Enqueue? {
      EnqueueSize(s.hub, s.calls[a.id].event, s.calls[a.id].key, a.now, t.hub, a.ok);
    } else if a.Select? {
      assert t.hub.pending.Keys == s.hub.pending.Keys - {a.key};
    } else if a.Supersede? {
      assert t.hub.pending.Keys <= s.hub.pending.Keys;
    }
  }

  // ----- theorems over every run -----

  ghost predicate Keyed(issued: Issues) {
    forall i :: i in issued ==> issued[i].key == WorkerEventKey(issued[i].event)
  }

  ghost predicate Inv(s: State) {
    Safe(s) && Counted(s) && Bounded(s) && Keyed(s.issued) && Quiet(s)
  }

  lemma InvStep(s: State, a: Action, t: State)
    requires Inv(s) && Step(s, a, t)
    ensures Inv(t)
  {
    SafeMove(s, a, t);
    CountedMove(s, a, t);
    BoundedMove(s, a, t);
    KeyedStep(s, a, t);
    QuietStep(s, a, t);
  }

  ghost predicate Quiet(s: State) {
    s.life == Free && s.hub.stream == "" ==> s.loop == Waiting
  }

  lemma QuietStep(s: State, a: Action, t: State)
    requires JobsOk(s.issued, s.hub, s.life) && Quiet(s) && Move(s, a, t)
    ensures Quiet(t)
  {
  }

  lemma KeyedStep(s: State, a: Action, t: State)
    requires Keyed(s.issued) && Step(s, a, t)
    ensures Keyed(t.issued)
  {
  }

  lemma {:induction false} RunInv(states: seq<State>, actions: seq<Action>, n: nat)
    requires Run(states, actions) && n < |states|
    ensures Inv(states[n])
  {
    if n > 0 {
      RunInv(states, actions, n - 1);
      InvStep(states[n - 1], actions[n - 1], states[n]);
    }
  }

  lemma ReachableInv(s: State)
    requires Reachable(s)
    ensures Inv(s)
  {
    var states, actions :| Run(states, actions) && states[|states| - 1] == s;
    RunInv(states, actions, |states| - 1);
  }

  /** Whatever the interleaving, the publisher sees each key's events of a job in ingress order:
      a superseded event is never published after its successor. */
  lemma PublishOrder(s: State, i: nat, j: nat)
    requires Reachable(s) && i < j < |s.log|
    requires WorkerEventKey(s.log[i].event) == WorkerEventKey(s.log[j].event) && s.log[i].event.generation == s.log[j].event.generation
    ensures s.log[i].event.id in s.issued && s.log[j].event.id in s.issued
    ensures s.issued[s.log[i].event.id].turn <= s.issued[s.log[j].event.id].turn
  {
    ReachableInv(s);
    LogKey(s, i);
    LogKey(s, j);
  }

  lemma LogKey(s: State, i: nat)
    requires Inv(s) && i < |s.log|
    ensures s.log[i].key == WorkerEventKey(s.log[i].event) && s.log[i].event.id in s.issued
  {
    var x := s.log[i].event;
    assert Tied(s.issued, x, s.log[i].key);
    SameKeyAnyAttempt(x, 1);
  }

  lemma SameKeyAnyAttempt(e: Event, n: nat)
    ensures WorkerEventKey(e.(attempt := n)) == WorkerEventKey(e)
  {
  }

  /** An event is handed over at most five times, under the numbers 1, 2, 3, ... without gaps, and
      never again once a hand-over succeeded. */
  lemma AttemptsNumbered(s: State, id: string)
    requires Reachable(s)
    ensures |Tried(s.log, id)| <= 5 && Tried(s.log, id) == Upto(|Tried(s.log, id)|)
    ensures forall i, j :: 0 <= i < j < |s.log| && s.log[i].event.id == id && s.log[j].event.id == id ==> !s.log[i].ok
  {
    ReachableInv(s);
  }

  /** The queue and the one retry in flight never hold more than 257 events. */
  lemma QueueBound(s: State)
    requires Reachable(s)
    ensures |s.hub.pending| + InFlight(s.loop) <= 257
  {
    ReachableInv(s);
  }

  lemma TwoKeys(keys: set<string>, a: string, b: string)
    requires keys <= {a, b}
    ensures |keys| <= 2
  {
    var rest := keys - {a, b};
    assert rest == {};
    assert keys == (if a in keys then {a} else {}) + (if b in keys then {b} else {});
  }

  /** A queue of one stream that must not drop anything holds at most the roster and the speaker. */
  lemma UndroppableIsSmall(pending: map<string, Pending>, stream: string)
    requires !AnyDroppable(pending)
    requires forall k :: k in pending ==> pending[k].event.stream == stream && WorkerEventKey(pending[k].event) == k
    ensures |pending| <= 2
  {
    var a, b := ParticipantsKey(Trim(stream)), SpeakerKey(Trim(stream));
    forall k | k in pending ensures k in {a, b} {
      assert !Droppable(pending[k]);
    }
    TwoKeys(pending.Keys, a, b);
    assert |pending| == |pending.Keys|;
  }

  /** Every queued event belongs to the running job as soon as one event of that job was admitted. */
  lemma QueueOfOneStream(s: State, e: Event, k: string)
    requires Inv(s) && e.id in s.issued && e == s.issued[e.id].event && SameJob(s.hub, e) && s.hub.delivering && k in s.hub.pending
    ensures s.hub.pending[k].event.stream == e.stream && WorkerEventKey(s.hub.pending[k].event) == k
  {
    var x := s.hub.pending[k].event;
    assert Tied(s.issued, x, k);
    SameKeyAnyAttempt(x, 1);
  }

  lemma RoomCanBeMade(s: State, e: Event)
    requires Inv(s) && e.id in s.issued && e == s.issued[e.id].event && SameJob(s.hub, e) && s.hub.delivering
    ensures AnyDroppable(s.hub.pending) || |s.hub.pending| <= 2
  {
    if !AnyDroppable(s.hub.pending) {
      forall k | k in s.hub.pending ensures s.hub.pending[k].event.stream == e.stream && WorkerEventKey(s.hub.pending[k].event) == k {
        QueueOfOneStream(s, e, k);
      }
      UndroppableIsSmall(s.hub.pending, e.stream);
    }
  }

  lemma RoomForCall(s: State, id: string)
    requires Reachable(s) && id in s.calls && SameJob(s.hub, s.calls[id].event) && s.hub.delivering
    ensures AnyDroppable(s.hub.pending) || |s.hub.pending| <= 2
  {
    ReachableInv(s);
    assert CallOk(s.issued, id, s.calls[id]);
    RoomCanBeMade(s, s.calls[id].event);
  }

  /** A retryable failure is queued if and only if its job is still the running one: the queue is
      never refused for lack of room. */
  lemma EnqueueNeverRefused(s: State, id: string, now: int, ok: bool, hub: Shared)
    requires Reachable(s) && id in s.calls && EnqueueSpec(s.hub, s.calls[id].event, s.calls[id].key, now, hub, ok)
    ensures ok <==> SameJob(s.hub, s.calls[id].event) && s.hub.delivering
  {
    if SameJob(s.hub, s.calls[id].event) && s.hub.delivering {
      RoomForCall(s, id);
    }
  }

  /** Once Stop, a failed Start or a video failure has returned, nothing of the job is left in the
      queue or in the hands of the retry loop. */
  lemma IdleDeliversNothing(s: State)
    requires Reachable(s) && s.life == Free && s.hub.stream == ""
    ensures !s.hub.delivering && s.hub.pending == map[] && s.loop == Waiting
  {
    ReachableInv(s);
  }
}
