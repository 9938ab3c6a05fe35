// Which caption sessions carry the same generation pair. Installed ones never do; sessions that were
// created and then not installed can.
module LifecycleSessions {
  import opened Text
  import opened Lifecycle
  import opened LifecycleProtocol

  /** An installation, a stop or a video failure: the steps that move the session generation on. */
  ghost predicate Moves(s: State, a: Action) {
    match a
    case Commit(h) =>
      s.op.Prepared? && s.op.purpose.ForStart? &&
      !CommitSpec(s.fields, s.op.purpose.c, s.op.session, s.op.pair.generation, h, s.ingresses).1.NotStarted?
    case Swap(expired, primary) =>
      s.op.Prepared? && s.op.purpose.ForUpdate? && s.op.session.Some? && !expired &&
      SwapSpec(s.fields, s.op.purpose.stream, s.op.pair, primary, s.op.session.value, s.ingresses).1.Done?
    case StopBegin(stream, wasStopped) => StopBeginSpec(s.fields, stream, wasStopped).1.Done?
    case VideoFails(stream, generation) => FailVideoSpec(s.fields, stream, generation).1.Some?
    case _ => false
  }

  lemma MovesIff(s: State, a: Action, t: State)
    requires Inv(s) && Step(s, a, t)
    ensures s.fields.sessionGeneration <= t.fields.sessionGeneration
    ensures s.fields.sessionGeneration < t.fields.sessionGeneration <==> Moves(s, a)
  {
  }

  /** As long as the session generation has not moved since a session was created, neither has the job
      generation, nor has a job begun or ended. */
  ghost predicate Unmoved(s: State, job: nat, active: bool) {
    s.fields.jobGeneration == job && Active(s.fields) == active && !s.op.Launching? && !(s.op.TearDown? && s.op.stopping)
  }

  lemma UnmovedStep(s: State, a: Action, t: State, job: nat, active: bool)
    requires Inv(s) && Step(s, a, t) && Unmoved(s, job, active) && !Moves(s, a)
    ensures Unmoved(t, job, active)
  {
  }

  lemma RunMoves(states: seq<State>, actions: seq<Action>, n: nat)
    requires Run(states, actions) && n < |actions|
    ensures states[n].fields.sessionGeneration <= states[n + 1].fields.sessionGeneration
    ensures states[n].fields.sessionGeneration < states[n + 1].fields.sessionGeneration <==> Moves(states[n], actions[n])
  {
    RunInv(states, actions, n);
    assert StepAt(states, actions, n);
    MovesIff(states[n], actions[n], states[n + 1]);
  }

  ghost predicate MovedBetween(states: seq<State>, actions: seq<Action>, m: nat, n: nat)
    requires m <= n <= |actions| < |states|
  {
    exists k :: m <= k < n && Moves(states[k], actions[k])
  }

  lemma {:induction false} GenerationMovedIff(states: seq<State>, actions: seq<Action>, m: nat, n: nat)
    requires Run(states, actions) && m <= n <= |actions|
    ensures states[m].fields.sessionGeneration <= states[n].fields.sessionGeneration
    ensures states[m].fields.sessionGeneration < states[n].fields.sessionGeneration <==> MovedBetween(states, actions, m, n)
  {
    if m < n {
      GenerationMovedIff(states, actions, m, n - 1);
      RunMoves(states, actions, n - 1);
    }
  }

  lemma RunUnmoved(states: seq<State>, actions: seq<Action>, n: nat, job: nat, active: bool)
    requires Run(states, actions) && n < |actions| && Unmoved(states[n], job, active) && !Moves(states[n], actions[n])
    ensures Unmoved(states[n + 1], job, active)
  {
    RunInv(states, actions, n);
    assert StepAt(states, actions, n);
    UnmovedStep(states[n], actions[n], states[n + 1], job, active);
  }

  lemma {:induction false} UnmovedBetween(states: seq<State>, actions: seq<Action>, m: nat, n: nat, job: nat, active: bool)
    requires Run(states, actions) && m <= n <= |actions| && Unmoved(states[m], job, active) && !MovedBetween(states, actions, m, n)
    ensures Unmoved(states[n], job, active)
  {
    if m < n {
      UnmovedBetween(states, actions, m, n - 1, job, active);
      RunUnmoved(states, actions, n - 1, job, active);
    }
  }

  /** What a session is created with follows from the fields at that moment. */
  lemma CreatedWith(states: seq<State>, actions: seq<Action>, n: nat)
    requires Run(states, actions) && n < |actions| && actions[n].Create?
    ensures var f := states[n].fields;
      && |states[n + 1].sessions| == |states[n].sessions| + 1
      && states[n + 1].sessions[|states[n].sessions|].pair
         == Pair(f.jobGeneration + (if Active(f) then 0 else 1), f.sessionGeneration + 1)
      && Unmoved(states[n], f.jobGeneration, Active(f))
  {
    RunInv(states, actions, n);
    assert StepAt(states, actions, n);
  }

  lemma {:induction false} SessionKept(states: seq<State>, actions: seq<Action>, m: nat, n: nat, x: nat)
    requires Run(states, actions) && m <= n <= |actions| && x < |states[m].sessions|
    ensures x < |states[n].sessions| && states[n].sessions[x] == states[m].sessions[x]
  {
    if m < n {
      SessionKept(states, actions, m, n - 1, x);
      assert StepAt(states, actions, n - 1);
    }
  }

  /** Two sessions created at different times carry the same pair if and only if in between nothing was
      installed and no job was stopped or lost to a video failure. */
  lemma SamePairIff(states: seq<State>, actions: seq<Action>, m: nat, n: nat)
    requires Run(states, actions) && m < n < |actions| && actions[m].Create? && actions[n].Create?
    ensures var x, y := |states[m].sessions|, |states[n].sessions|;
      && x < y < |states[|actions|].sessions|
      && (states[|actions|].sessions[x].pair == states[|actions|].sessions[y].pair <==> !MovedBetween(states, actions, m, n))
  {
    var x, y := |states[m].sessions|, |states[n].sessions|;
    CreatedWith(states, actions, m);
    CreatedWith(states, actions, n);
    SessionKept(states, actions, m + 1, |actions|, x);
    SessionKept(states, actions, n + 1, |actions|, y);
    SessionKept(states, actions, m + 1, n, x);
    GenerationMovedIff(states, actions, m, n);
    if !MovedBetween(states, actions, m, n) {
      UnmovedBetween(states, actions, m, n, states[m].fields.jobGeneration, Active(states[m].fields));
    }
  }

  // ----- a run -----

  lemma Aborted(c: Context, x: Session) returns (states: seq<State>, actions: seq<Action>)
    requires c == Context("s", false) && x == Session("s", Pair(1, 1))
    ensures Run(states, actions) && states[|actions|] == INIT.(sessions := [x], closed := {0}, closes := 1)
  {
    var refused := Commit(Host(false, true, true, true));
    var s1 := INIT.(op := Preparing(ForStart(c), Pair(1, 1)));
    var s2 := INIT.(op := Prepared(ForStart(c), Pair(1, 1), Some(0)), sessions := [x]);
    var s3 := s2.(op := TearDown(false, None, Some(0), false));
    var s4 := s2.(op := TearDown(false, None, None, false), closed := {0}, closes := 1);
    states, actions := [INIT], [];
    Extend(states, actions, StartBegin(c, true), s1);
    states, actions := states + [s1], actions + [StartBegin(c, true)];
    Extend(states, actions, Create(false), s2);
    states, actions := states + [s2], actions + [Create(false)];
    assert CommitStep(s2, refused.h, s3);
    Extend(states, actions, refused, s3);
    states, actions := states + [s3], actions + [refused];
    Extend(states, actions, CloseSession, s4);
    states, actions := states + [s4], actions + [CloseSession];
    Extend(states, actions, Finish(false), s4.(op := Free));
    states, actions := states + [s4.(op := Free)], actions + [Finish(false)];
  }

  /** A session is created for a start that is then refused, and closed; the next start hands out the
      same pair. Nobody ever gave the first one audio, so no transcript of it is on its way. */
  lemma AbortedPairIsReused() returns (states: seq<State>, actions: seq<Action>)
    ensures Run(states, actions)
    ensures var s := states[|actions|];
      && |s.sessions| == 2 && s.sessions[0].pair == s.sessions[1].pair && s.fields.session == Some(1)
      && 0 in s.closed && 0 !in s.installs && 0 !in s.fed
  {
    var c, x := Context("s", false), Session("s", Pair(1, 1));
    states, actions := Aborted(c, x);
    states, actions := StartAgain(states, actions, c, x);
  }

  lemma StartAgain(before: seq<State>, done: seq<Action>, c: Context, x: Session) returns (states: seq<State>, actions: seq<Action>)
    requires Run(before, done) && c == Context("s", false) && x == Session("s", Pair(1, 1))
    requires before[|done|] == INIT.(sessions := [x], closed := {0}, closes := 1)
    ensures Run(states, actions) && states[|actions|].sessions == [x, x] && states[|actions|].closed == {0} && states[|actions|].installs == [1] && states[|actions|].fed == {}
    ensures states[|actions|].fields == Fields(c, false, 1, 1, Some(1), Some(0), 0, true)
  {
    var s4 := before[|done|];
    var s5 := s4.(op := Preparing(ForStart(c), Pair(1, 1)));
    var s6 := s4.(op := Prepared(ForStart(c), Pair(1, 1), Some(1)), sessions := [x, x]);
    var s7 := State(Fields(c, false, 1, 1, Some(1), Some(0), 0, true), Launching(c, Some(1), Some(0)), [x, x], {0}, 1, [1], 1, {0}, {}, [], map[], 0, {});
    states, actions := before, done;
    Extend(states, actions, StartBegin(c, true), s5);
    states, actions := states + [s5], actions + [StartBegin(c, true)];
    Extend(states, actions, Create(false), s6);
    states, actions := states + [s6], actions + [Create(false)];
    var commit := Commit(Host(true, true, true, true));
    assert CommitStep(s6, commit.h, s7);
    Extend(states, actions, commit, s7);
    states, actions := states + [s7], actions + [commit];
  }
}
