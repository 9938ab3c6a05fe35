// Any number of sessions one after another: Start, Stop, the writer of each session, the monitor that
// watches it, and the shutdown all of them share, one step at a time.
module VideoProtocol {
  import opened Text
  import opened ChunkScan
  import opened VideoOutput

  /** The monitor of a session: not started, waiting, woken, in possession of lifecycleMu, about to call
      the failure callback, and gone. */
  datatype Monitor = Unborn | Watching | Woken | Acting | Reporting | Gone

  /** A dialled session, with how often Stop and the monitor took it out, and the callbacks made for it. */
  datatype Session = Session(feed: Feed, ending: Ending, monitor: Monitor, stops: nat, failures: nat, callbacks: nat)

  const NEW: Session := Session(FRESH, UNTOUCHED, Unborn, 0, 0, 0)

  /** Who has lifecycleMu, and for which session. */
  datatype Op = Free | Starting(x: nat) | Failing(x: nat) | Stopping(x: nat) | Monitoring(x: nat, failed: bool)

  datatype State = State(current: Option<nat>, op: Op, sessions: map<nat, Session>)

  const INIT: State := State(None, Free, map[])

  datatype Action =
    | Dialled(x: nat) | Started | StartFails | StopBegins | Wakes(x: nat) | MonitorBegins(x: nat) | Ends | Reports(x: nat)
    | Writes(x: nat, w: WriterStep) | Shuts(e: EndingStep) | LateProbe(x: nat)

  // ----- the steps -----

  ghost predicate DialledStep(s: State, x: nat, t: State) {
    s.op == Free && s.current == None && x !in s.sessions && t == s.(op := Starting(x), sessions := s.sessions[x := NEW])
  }

  ghost predicate StartedStep(s: State, t: State) {
    && s.op.Starting? && s.op.x in s.sessions && s.sessions[s.op.x].feed.first
    && t == State(Some(s.op.x), Free, s.sessions[s.op.x := s.sessions[s.op.x].(monitor := Watching)])
  }

  ghost predicate StartFailsStep(s: State, t: State) {
    s.op.Starting? && t == s.(op := Failing(s.op.x))
  }

  ghost predicate StopBeginsStep(s: State, t: State) {
    && s.op == Free && s.current.Some? && s.current.value in s.sessions
    && var x := s.current.value;
       t == State(None, Stopping(x), s.sessions[x := s.sessions[x].(stops := s.sessions[x].stops + 1)])
  }

  ghost predicate WakesStep(s: State, x: nat, t: State) {
    && x in s.sessions && s.sessions[x].monitor == Watching
    && (s.sessions[x].feed.errors > 0 || s.sessions[x].feed.writer.Exited?)
    && t == s.(sessions := s.sessions[x := s.sessions[x].(monitor := Woken)])
  }

  ghost predicate MonitorBeginsStep(s: State, x: nat, t: State) {
    && s.op == Free && x in s.sessions && s.sessions[x].monitor == Woken
    && var failed := s.current == Some(x);
       t == State(if failed then None else s.current, Monitoring(x, failed),
                  s.sessions[x := s.sessions[x].(monitor := Acting, failures := s.sessions[x].failures + if failed then 1 else 0)])
  }

  /** The shutdown has returned, or had been done before; lifecycleMu is released. */
  ghost predicate EndsStep(s: State, t: State) {
    && (s.op.Failing? || s.op.Stopping? || s.op.Monitoring?) && s.op.x in s.sessions && s.sessions[s.op.x].ending.phase == Finished
    && var z := s.sessions[s.op.x];
       t == State(s.current, Free,
                  s.sessions[s.op.x := if s.op.Monitoring? then z.(monitor := if s.op.failed then Reporting else Gone) else z])
  }

  ghost predicate ReportsStep(s: State, x: nat, t: State) {
    && x in s.sessions && s.sessions[x].monitor == Reporting
    && t == s.(sessions := s.sessions[x := s.sessions[x].(monitor := Gone, callbacks := s.sessions[x].callbacks + 1)])
  }

  ghost predicate WritesStep(s: State, x: nat, w: WriterStep, t: State) {
    && x in s.sessions
    && var z := s.sessions[x];
       exists g :: WriterStepped(z.feed, VideoOutput.Stopping(z.ending), w, g) && t == s.(sessions := s.sessions[x := z.(feed := g)])
  }

  /** Whoever has lifecycleMu shuts the session down. Only the context of a Stop can run out. */
  ghost predicate ShutsStep(s: State, e: EndingStep, t: State) {
    && (s.op.Failing? || s.op.Stopping? || s.op.Monitoring?) && s.op.x in s.sessions && (e == Expire ==> s.op.Stopping?)
    && var z := s.sessions[s.op.x];
       exists n :: EndingStepped(z.ending, z.feed.writer, e, n) && t == s.(sessions := s.sessions[s.op.x := z.(ending := n)])
  }

  /** The probe of a shutdown that has returned may still get the lock later. */
  ghost predicate LateProbeStep(s: State, x: nat, t: State) {
    && x in s.sessions
    && var z := s.sessions[x];
       exists n :: EndingStepped(z.ending, z.feed.writer, Probe, n) && t == s.(sessions := s.sessions[x := z.(ending := n)])
  }

  ghost predicate Step(s: State, a: Action, t: State) {
    match a
    case Dialled(x) => DialledStep(s, x, t)
    case Started => StartedStep(s, t)
    case StartFails => StartFailsStep(s, t)
    case StopBegins => StopBeginsStep(s, t)
    case Wakes(x) => WakesStep(s, x, t)
    case MonitorBegins(x) => MonitorBeginsStep(s, x, t)
    case Ends => EndsStep(s, t)
    case Reports(x) => ReportsStep(s, x, t)
    case Writes(x, w) => WritesStep(s, x, w, t)
    case Shuts(e) => ShutsStep(s, e, t)
    case LateProbe(x) => LateProbeStep(s, x, t)
  }

  // ----- what every step keeps -----

  /** Where a session is: being started, current, being shut down by someone, or done with. */
  datatype Role = Begun | Live | Failed | Stopped | Monitored(failed: bool) | Past

  function RoleOf(current: Option<nat>, op: Op, x: nat): Role {
    if current == Some(x) then Live
    else match op
      case Free => Past
      case Starting(y) => if x == y then Begun else Past
      case Failing(y) => if x == y then Failed else Past
      case Stopping(y) => if x == y then Stopped else Past
      case Monitoring(y, failed) => if x == y then Monitored(failed) else Past
  }

  ghost predicate Counts(z: Session, stops: nat, failures: nat, callbacks: nat) {
    z.stops == stops && z.failures == failures && z.callbacks == callbacks
  }

  ghost predicate RoleOk(z: Session, role: Role) {
    match role
    case Begun => z.monitor == Unborn && z.ending == UNTOUCHED && Counts(z, 0, 0, 0)
    case Live => (z.monitor == Watching || z.monitor == Woken) && z.ending == UNTOUCHED && Counts(z, 0, 0, 0)
    case Failed => z.monitor == Unborn && !z.ending.expired && Counts(z, 0, 0, 0)
    case Stopped => (z.monitor == Watching || z.monitor == Woken) && Counts(z, 1, 0, 0)
    case Monitored(failed) =>
      z.monitor == Acting && if failed then !z.ending.expired && Counts(z, 0, 1, 0) else z.ending.phase == Finished && Counts(z, 1, 0, 0)
    case Past =>
      z.ending.phase == Finished && (z.ending.expired ==> z.stops == 1) && z.monitor != Acting &&
      match z.monitor
      case Unborn => Counts(z, 0, 0, 0)
      case Reporting => Counts(z, 0, 1, 0)
      case Gone => Counts(z, 1, 0, 0) || Counts(z, 0, 1, 1)
      case _ => Counts(z, 1, 0, 0)
  }

  ghost predicate SessionOk(z: Session, role: Role) {
    FeedOk(z.feed) && EndingOk(z.ending, z.feed.writer) && RoleOk(z, role)
  }

  ghost predicate Inv(s: State) {
    && (forall x :: x in s.sessions ==> SessionOk(s.sessions[x], RoleOf(s.current, s.op, x)))
    && (s.current.Some? ==> s.current.value in s.sessions)
    && (s.op != Free ==> s.op.x in s.sessions && s.current != Some(s.op.x))
    && (s.op.Starting? || s.op.Failing? || s.op.Stopping? ==> s.current == None)
  }

  lemma StartInv(s: State, a: Action, t: State)
    requires Inv(s) && Step(s, a, t) && (a.Dialled? || a.Started? || a.StartFails?)
    ensures Inv(t)
  {
  }

  lemma StopInv(s: State, t: State)
    requires Inv(s) && StopBeginsStep(s, t)
    ensures Inv(t)
  {
  }

  lemma UpdateInv(s: State, x: nat, z: Session)
    requires Inv(s) && x in s.sessions && SessionOk(z, RoleOf(s.current, s.op, x))
    ensures Inv(s.(sessions := s.sessions[x := z]))
  {
  }

  lemma WakesInv(s: State, x: nat, t: State)
    requires Inv(s) && WakesStep(s, x, t)
    ensures Inv(t)
  {
    UpdateInv(s, x, s.sessions[x].(monitor := Woken));
  }

  lemma ReportsInv(s: State, x: nat, t: State)
    requires Inv(s) && ReportsStep(s, x, t)
    ensures Inv(t)
  {
    UpdateInv(s, x, s.sessions[x].(monitor := Gone, callbacks := s.sessions[x].callbacks + 1));
  }

  lemma MonitorBeginsInv(s: State, x: nat, t: State)
    requires Inv(s) && MonitorBeginsStep(s, x, t)
    ensures Inv(t)
  {
  }

  lemma EndsInv(s: State, t: State)
    requires Inv(s) && EndsStep(s, t)
    ensures Inv(t)
  {
  }

  lemma WritesInv(s: State, x: nat, w: WriterStep, t: State)
    requires Inv(s) && WritesStep(s, x, w, t)
    ensures Inv(t)
  {
    var z := s.sessions[x];
    var g :| WriterStepped(z.feed, VideoOutput.Stopping(z.ending), w, g) && t == s.(sessions := s.sessions[x := z.(feed := g)]);
    FeedKept(z.feed, VideoOutput.Stopping(z.ending), w, g);
    EndingSurvivesWriter(z.ending, z.feed, w, g);
    UpdateInv(s, x, z.(feed := g));
  }

  lemma ShutsInv(s: State, e: EndingStep, t: State)
    requires Inv(s) && ShutsStep(s, e, t)
    ensures Inv(t)
  {
    var z := s.sessions[s.op.x];
    var n :| EndingStepped(z.ending, z.feed.writer, e, n) && t == s.(sessions := s.sessions[s.op.x := z.(ending := n)]);
    EndingKept(z.ending, z.feed.writer, e, n);
    UpdateInv(s, s.op.x, z.(ending := n));
  }

  lemma LateProbeInv(s: State, x: nat, t: State)
    requires Inv(s) && LateProbeStep(s, x, t)
    ensures Inv(t)
  {
    var z := s.sessions[x];
    var n :| EndingStepped(z.ending, z.feed.writer, Probe, n) && t == s.(sessions := s.sessions[x := z.(ending := n)]);
    EndingKept(z.ending, z.feed.writer, Probe, n);
    UpdateInv(s, x, z.(ending := n));
  }

  lemma InvStep(s: State, a: Action, t: State)
    requires Inv(s) && Step(s, a, t)
    ensures Inv(t)
  {
    match a {
      case Dialled(_) => StartInv(s, a, t);
      case Started => StartInv(s, a, t);
      case StartFails => StartInv(s, a, t);
      case StopBegins => StopInv(s, t);
      case Ends => EndsInv(s, t);
      case Writes(x, w) => WritesInv(s, x, w, t);
      case Shuts(e) => ShutsInv(s, e, t);
      case LateProbe(x) => LateProbeInv(s, x, t);
      case Wakes(x) => WakesInv(s, x, t);
      case MonitorBegins(x) => MonitorBeginsInv(s, x, t);
      case Reports(x) => ReportsInv(s, x, t);
    }
  }

  // ----- theorems over every run -----

  ghost predicate Run(states: seq<State>, actions: seq<Action>) {
    && |states| == |actions| + 1 && states[0] == INIT
    && forall i :: 0 <= i < |actions| ==> StepAt(states, actions, i)
  }

  ghost predicate StepAt(states: seq<State>, actions: seq<Action>, i: nat)
    requires |states| == |actions| + 1 && i < |actions|
  {
    Step(states[i], actions[i], states[i + 1])
  }

  lemma {:induction false} RunInv(states: seq<State>, actions: seq<Action>, n: nat)
    requires Run(states, actions) && n < |states|
    ensures Inv(states[n])
  {
    if n > 0 {
      RunInv(states, actions, n - 1);
      assert StepAt(states, actions, n - 1);
      InvStep(states[n - 1], actions[n - 1], states[n]);
    }
  }

  /** What a session has sent is whole frames one after another, then at most a part of one more frame;
      the byte counter is the size of the whole frames. */
  lemma FramesSentWhole(states: seq<State>, actions: seq<Action>, n: nat, x: nat)
    requires Run(states, actions) && n < |states| && x in states[n].sessions
    ensures var f := states[n].sessions[x].feed;
      && f.bytes == |Flat(f.frames)|
      && (exists frame, k :: SentUpTo(f, frame, k))
      && (!f.writer.Writing? && !f.writer.Exited? ==> f.sent == Flat(f.frames))
  {
    RunInv(states, actions, n);
    var f := states[n].sessions[x].feed;
    if f.writer.Writing? || f.writer.Exited? {
      assert SentUpTo(f, f.writer.frame, f.writer.done);
    } else {
      assert SentUpTo(f, [], 0);
    }
  }

  /** The step that closes a connection never comes between the check and the end of a frame's write,
      unless the context of the shutdown has run out, and then it was a Stop that took the session out. */
  lemma NeverClosedDuringWrite(states: seq<State>, actions: seq<Action>, n: nat)
    requires Run(states, actions) && n < |actions| && actions[n] == Shuts(CloseConn)
    ensures states[n].op != Free && states[n].op.x in states[n].sessions
    ensures var z := states[n].sessions[states[n].op.x];
      && z.ending.closes == 0
      && (MidWrite(z.feed.writer) ==> z.ending.expired && z.stops == 1 && states[n].op.Stopping?)
  {
    RunInv(states, actions, n);
    assert StepAt(states, actions, n);
  }

  /** A session is closed at most once. Whenever lifecycleMu is free, every session ever dialled is
      closed, except the current one, which is open. */
  lemma OnlyCurrentIsOpen(states: seq<State>, actions: seq<Action>, n: nat, x: nat)
    requires Run(states, actions) && n < |states| && x in states[n].sessions
    ensures states[n].sessions[x].ending.closes <= 1
    ensures states[n].op == Free ==> (states[n].sessions[x].ending.closes == 0 <==> states[n].current == Some(x))
    ensures states[n].op == Free && states[n].current == Some(x) ==> !VideoOutput.Stopping(states[n].sessions[x].ending)
  {
    RunInv(states, actions, n);
  }

  /** A session that was installed is taken out by Stop or by its monitor, never by both or twice. The
      failure callback is made at most once, and never for a session that a Stop took out. */
  lemma RemovedOnce(states: seq<State>, actions: seq<Action>, n: nat, x: nat)
    requires Run(states, actions) && n < |states| && x in states[n].sessions
    ensures var z := states[n].sessions[x];
      && z.stops + z.failures <= 1 && z.callbacks <= z.failures
      && (z.stops == 1 ==> z.callbacks == 0 && z.monitor != Reporting)
      && (z.stops + z.failures == 1 <==> z.monitor != Unborn && states[n].current != Some(x))
      && (z.monitor == Gone ==> z.stops + z.failures == 1 && z.callbacks == z.failures)
  {
    RunInv(states, actions, n);
  }

  lemma SessionKept(s: State, a: Action, t: State, x: nat)
    requires Inv(s) && Step(s, a, t) && x in s.sessions
    ensures x in t.sessions
    ensures s.sessions[x].ending.idle ==> t.sessions[x].ending.idle
    ensures VideoOutput.Stopping(s.sessions[x].ending) ==> VideoOutput.Stopping(t.sessions[x].ending)
  {
  }

  /** Nothing is past its check, and after stopping nothing will be. */
  ghost predicate Quiet(s: State, x: nat) {
    x in s.sessions && VideoOutput.Stopping(s.sessions[x].ending) && !s.sessions[x].feed.writer.Checked?
  }

  lemma QuietStays(s: State, a: Action, t: State, x: nat)
    requires Inv(s) && Step(s, a, t) && Quiet(s, x)
    ensures Quiet(t, x) && a != Writes(x, Begin)
  {
    SessionKept(s, a, t, x);
  }

  lemma RunQuiet(states: seq<State>, actions: seq<Action>, n: nat, x: nat)
    requires Run(states, actions) && n < |actions| && Quiet(states[n], x)
    ensures Quiet(states[n + 1], x) && actions[n] != Writes(x, Begin)
  {
    RunInv(states, actions, n);
    assert StepAt(states, actions, n);
    QuietStays(states[n], actions[n], states[n + 1], x);
  }

  /** After stopping is set, a write still begins only if its frame had passed the check before: from a
      moment at which none has, none ever begins. */
  lemma {:induction false} NoWriteBeginsAfterStopping(states: seq<State>, actions: seq<Action>, m: nat, n: nat, x: nat)
    requires Run(states, actions) && m <= n < |actions| && Quiet(states[m], x)
    ensures Quiet(states[n], x) && actions[n] != Writes(x, Begin)
  {
    if m < n {
      NoWriteBeginsAfterStopping(states, actions, m, n - 1, x);
      RunQuiet(states, actions, n - 1, x);
    }
    RunQuiet(states, actions, n, x);
  }

  lemma Extend(states: seq<State>, actions: seq<Action>, a: Action, t: State)
    requires Run(states, actions) && Step(states[|actions|], a, t)
    ensures Run(states + [t], actions + [a])
  {
    forall i | 0 <= i < |actions| + 1 ensures StepAt(states + [t], actions + [a], i) {
      assert i < |actions| ==> StepAt(states, actions, i);
    }
  }

  lemma Wrote(s: State, x: nat, w: WriterStep, g: Feed)
    requires x in s.sessions && WriterStepped(s.sessions[x].feed, VideoOutput.Stopping(s.sessions[x].ending), w, g)
    ensures Step(s, Writes(x, w), s.(sessions := s.sessions[x := s.sessions[x].(feed := g)]))
  {
  }

  /** A longer run, in which step n begins a write. */
  ghost predicate BeginsIn(states: seq<State>, actions: seq<Action>, x: nat, more: seq<State>, later: seq<Action>, n: nat) {
    Run(more, later) && states <= more && actions <= later && |actions| <= n < |later| && later[n] == Writes(x, Begin)
  }

  lemma BeginNow(states: seq<State>, actions: seq<Action>, x: nat)
    requires Run(states, actions) && x in states[|actions|].sessions && states[|actions|].sessions[x].feed.writer.Checked?
    ensures exists more, later, n :: BeginsIn(states, actions, x, more, later, n)
  {
    var s := states[|actions|];
    var f := s.sessions[x].feed;
    var g := f.(writer := Writing(f.writer.frame, 0));
    var t := s.(sessions := s.sessions[x := s.sessions[x].(feed := g)]);
    Wrote(s, x, Begin, g);
    Extend(states, actions, Writes(x, Begin), t);
    assert BeginsIn(states, actions, x, states + [t], actions + [Writes(x, Begin)], |actions|);
  }

  /** After stopping is set, some continuation begins a write if and only if a frame has passed the check
      and not begun its write. */
  lemma WriteBeginsLaterIffChecked(states: seq<State>, actions: seq<Action>, x: nat)
    requires Run(states, actions) && x in states[|actions|].sessions && VideoOutput.Stopping(states[|actions|].sessions[x].ending)
    ensures (exists more, later, n :: BeginsIn(states, actions, x, more, later, n)) <==> states[|actions|].sessions[x].feed.writer.Checked?
  {
    if states[|actions|].sessions[x].feed.writer.Checked? {
      BeginNow(states, actions, x);
    }
    forall more, later, n | BeginsIn(states, actions, x, more, later, n) ensures states[|actions|].sessions[x].feed.writer.Checked? {
      assert more[|actions|] == states[|actions|];
      if !states[|actions|].sessions[x].feed.writer.Checked? {
        NoWriteBeginsAfterStopping(more, later, |actions|, n, x);
      }
    }
  }

  lemma IdleSendsNothing(s: State, a: Action, t: State, x: nat)
    requires Inv(s) && Step(s, a, t) && x in s.sessions && s.sessions[x].ending.idle
    ensures x in t.sessions && t.sessions[x].ending.idle && t.sessions[x].feed.sent == s.sessions[x].feed.sent
  {
    SessionKept(s, a, t, x);
  }

  lemma RunIdle(states: seq<State>, actions: seq<Action>, n: nat, x: nat)
    requires Run(states, actions) && n < |actions| && x in states[n].sessions && states[n].sessions[x].ending.idle
    ensures x in states[n + 1].sessions && states[n + 1].sessions[x].ending.idle
    ensures states[n + 1].sessions[x].feed.sent == states[n].sessions[x].feed.sent
  {
    RunInv(states, actions, n);
    assert StepAt(states, actions, n);
    IdleSendsNothing(states[n], actions[n], states[n + 1], x);
  }

  /** Once the probe of a shutdown has had the write lock, nothing is ever sent again. */
  lemma {:induction false} NothingSentAfterIdle(states: seq<State>, actions: seq<Action>, m: nat, n: nat, x: nat)
    requires Run(states, actions) && m <= n < |states| && x in states[m].sessions && states[m].sessions[x].ending.idle
    ensures x in states[n].sessions && states[n].sessions[x].ending.idle
    ensures states[n].sessions[x].feed.sent == states[m].sessions[x].feed.sent
  {
    if m < n {
      NothingSentAfterIdle(states, actions, m, n - 1, x);
      RunIdle(states, actions, n - 1, x);
    }
  }

  /** The check and the write are two steps: a frame that passed the check before stopping was set can
      begin its write after it. The shutdown then waits for that write. */
  lemma WriteCanBeginAfterStopping() returns (states: seq<State>, actions: seq<Action>)
    ensures Run(states, actions) && |actions| > 0 && actions[|actions| - 1] == Writes(0, Begin)
    ensures 0 in states[|actions| - 1].sessions && VideoOutput.Stopping(states[|actions| - 1].sessions[0].ending)
  {
    var frame := [7];
    var s1 := State(None, Starting(0), map[0 := NEW]);
    var s2 := s1.(sessions := s1.sessions[0 := NEW.(feed := FRESH.(writer := Waiting(frame)))]);
    var s3 := s2.(sessions := s2.sessions[0 := NEW.(feed := FRESH.(writer := Locked(frame)))]);
    var z := NEW.(feed := FRESH.(writer := Checked(frame)));
    var s4 := s3.(sessions := s3.sessions[0 := z]);
    var s5 := s4.(op := Failing(0));
    var stopped := UNTOUCHED.(phase := Probing);
    var s6 := s5.(sessions := s5.sessions[0 := z.(ending := stopped)]);
    var s7 := s6.(sessions := s6.sessions[0 := z.(ending := stopped, feed := FRESH.(writer := Writing(frame, 0)))]);
    states, actions := [INIT], [];
    Extend(states, actions, Dialled(0), s1);
    states, actions := states + [s1], actions + [Dialled(0)];
    Wrote(s1, 0, Render(frame), FRESH.(writer := Waiting(frame)));
    Extend(states, actions, Writes(0, Render(frame)), s2);
    states, actions := states + [s2], actions + [Writes(0, Render(frame))];
    Wrote(s2, 0, Lock, FRESH.(writer := Locked(frame)));
    Extend(states, actions, Writes(0, Lock), s3);
    states, actions := states + [s3], actions + [Writes(0, Lock)];
    Wrote(s3, 0, Check, z.feed);
    Extend(states, actions, Writes(0, Check), s4);
    states, actions := states + [s4], actions + [Writes(0, Check)];
    Extend(states, actions, StartFails, s5);
    states, actions := states + [s5], actions + [StartFails];
    assert EndingStepped(UNTOUCHED, z.feed.writer, Shut, stopped);
    Extend(states, actions, Shuts(Shut), s6);
    states, actions := states + [s6], actions + [Shuts(Shut)];
    Wrote(s6, 0, Begin, FRESH.(writer := Writing(frame, 0)));
    Extend(states, actions, Writes(0, Begin), s7);
    states, actions := states + [s7], actions + [Writes(0, Begin)];
  }
}
