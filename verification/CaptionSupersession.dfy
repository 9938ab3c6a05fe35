// One ingress from its first batch to its end: the endpoint that fills it, the goroutine that empties it,
// and a newer connection that counts what is left and cancels it. The endpoint works under Manager.mu,
// and so does a supersession from its first step to its last; the goroutine needs that lock only at its
// fences, so everything else it does may come in between.
module CaptionSupersession {
  import opened Text
  import opened CaptionQueue

  /** The goroutine: waiting; holding a batch it received; having metered it out; having found the ingress
      not cancelled; having passed the fence on the generations; feeding; and returned. */
  datatype Pc = Waiting | Received | Marked | Checked | Fenced | Feeding | Exited

  /** Who has Manager.mu across several steps: nobody, or a supersession that has the lock, has counted, or
      has cancelled. */
  datatype Holder = Nobody | Begun | Counted | Cancelled

  /** Current: the manager still uses this ingress. Batches are known by their place in the log: passed are
      those the fence let through, handed those the provider was given packets of, and those from counted
      on are in the number of dropped packets. */
  datatype State = State(log: Log, pc: Pc, holder: Holder, current: bool, passed: set<nat>, handed: set<nat>,
                         counted: Option<nat>, drops: nat)

  const INIT: State := State(EMPTY, Waiting, Nobody, true, {}, {}, None, 0)

  datatype Action =
    | Enqueue(b: Batch) | Receive | Quit | Mark | CheckContext | Fence | TakeSession(ok: bool) | HandOver | EndAttempt(again: bool)
    | Supersede | Snapshot | CancelOld | Replace | Retire | CancelRetired

  // ----- the steps -----

  ghost predicate EnqueueStep(s: State, b: Batch, t: State) {
    && s.holder == Nobody && s.current && LogOk(s.log)
    && t == s.(log := EnqueueSpec(s.log, b).0)
  }

  /** A select with a batch waiting and the context done may take either way. */
  ghost predicate ReceiveStep(s: State, t: State) {
    && s.pc == Waiting && s.log.received < |s.log.accepted|
    && t == s.(pc := Received, log := s.log.(received := s.log.received + 1))
  }

  ghost predicate QuitStep(s: State, t: State) {
    s.pc == Waiting && s.log.cancelled && t == s.(pc := Exited)
  }

  ghost predicate MarkStep(s: State, t: State) {
    s.pc == Received && t == s.(pc := Marked, log := s.log.(marked := s.log.marked + 1))
  }

  ghost predicate CheckContextStep(s: State, t: State) {
    s.pc == Marked && t == s.(pc := if s.log.cancelled then Exited else Checked)
  }

  /** captionAudioGenerationCurrent, which for a batch of this ingress asks whether it is the current one. */
  ghost predicate FenceStep(s: State, t: State) {
    && s.pc == Checked && s.holder == Nobody && s.log.marked > 0
    && t == if s.current then s.(pc := Fenced, passed := s.passed + {s.log.marked - 1}) else s.(pc := Waiting)
  }

  /** The attempt looks at the generations again before it takes the session; a supersession has moved
      the connection generation. */
  ghost predicate TakeSessionStep(s: State, ok: bool, t: State) {
    && s.pc == Fenced && s.holder == Nobody
    && t == s.(pc := if ok && s.counted.None? then Feeding else Waiting)
  }

  ghost predicate HandOverStep(s: State, t: State) {
    s.pc == Feeding && s.log.marked > 0 && t == s.(handed := s.handed + {s.log.marked - 1})
  }

  ghost predicate EndAttemptStep(s: State, again: bool, t: State) {
    s.pc == Feeding && t == s.(pc := if again then Checked else Waiting)
  }

  ghost predicate SupersedeStep(s: State, t: State) {
    s.holder == Nobody && s.current && t == s.(holder := Begun)
  }

  ghost predicate SnapshotStep(s: State, t: State) {
    && s.holder == Begun && s.log.marked <= |s.log.accepted|
    && t == s.(holder := Counted, counted := Some(s.log.marked), drops := Metered(s.log))
  }

  ghost predicate CancelOldStep(s: State, t: State) {
    s.holder == Counted && t == s.(holder := Cancelled, log := s.log.(cancelled := true))
  }

  ghost predicate ReplaceStep(s: State, t: State) {
    s.holder == Cancelled && t == s.(holder := Nobody, current := false)
  }

  /** A stop, an update or a failure takes the ingress out, and cancels it after letting go of the lock. */
  ghost predicate RetireStep(s: State, t: State) {
    s.holder == Nobody && s.current && t == s.(current := false)
  }

  ghost predicate CancelRetiredStep(s: State, t: State) {
    !s.current && t == s.(log := s.log.(cancelled := true))
  }

  ghost predicate Step(s: State, a: Action, t: State) {
    match a
    case Enqueue(b) => EnqueueStep(s, b, t)
    case Receive => ReceiveStep(s, t)
    case Quit => QuitStep(s, t)
    case Mark => MarkStep(s, t)
    case CheckContext => CheckContextStep(s, t)
    case Fence => FenceStep(s, t)
    case TakeSession(ok) => TakeSessionStep(s, ok, t)
    case HandOver => HandOverStep(s, t)
    case EndAttempt(again) => EndAttemptStep(s, again, t)
    case Supersede => SupersedeStep(s, t)
    case Snapshot => SnapshotStep(s, t)
    case CancelOld => CancelOldStep(s, t)
    case Replace => ReplaceStep(s, t)
    case Retire => RetireStep(s, t)
    case CancelRetired => CancelRetiredStep(s, t)
  }

  // ----- what every step keeps -----

  predicate InHand(pc: Pc) {
    pc == Marked || pc == Checked || pc == Fenced || pc == Feeding
  }

  /** The goroutine holds a batch that is metered out and has not passed the fence. */
  predicate HoldsUnfenced(s: State) {
    (s.pc == Marked || s.pc == Checked) && s.log.marked > 0 && s.log.marked - 1 !in s.passed
  }

  ghost predicate ConsumerOk(l: Log, pc: Pc, passed: set<nat>, handed: set<nat>) {
    && (l.marked < l.received <==> pc == Received) && (InHand(pc) ==> l.marked > 0)
    && (forall i :: i in passed ==> i < l.marked) && handed <= passed
    && (pc == Marked ==> l.marked - 1 !in passed)
    && (pc == Fenced || pc == Feeding ==> l.marked - 1 in passed)
  }

  /** Until something is counted or the ingress retires it is not cancelled, and all that was metered out
      has passed the fence, but for the batch in hand. */
  ghost predicate CurrentOk(s: State) {
    s.current && s.counted.None? ==>
      && !s.log.cancelled && (s.holder == Nobody || s.holder == Begun) && s.pc != Exited
      && forall i: nat :: i < s.log.marked && i !in s.passed ==> i == s.log.marked - 1 && (s.pc == Marked || s.pc == Checked)
  }

  /** Nothing that was counted has passed the fence, and nobody can pass it any more. */
  ghost predicate CountedOk(s: State) {
    && (s.holder == Begun ==> s.current && s.counted.None?)
    && (s.holder == Counted || s.holder == Cancelled ==> s.counted.Some?)
    && (s.counted.Some? ==>
          && s.counted.value <= |s.log.accepted| && s.counted.value <= s.log.marked
          && (s.holder == Nobody ==> !s.current) && (s.holder != Begun)
          && s.drops == PacketCount(s.log.accepted[s.counted.value..])
          && forall i :: i in s.passed ==> i < s.counted.value)
  }

  ghost predicate Inv(s: State) {
    LogOk(s.log) && ConsumerOk(s.log, s.pc, s.passed, s.handed) && CurrentOk(s) && CountedOk(s)
  }

  lemma EnqueueInv(s: State, b: Batch, t: State)
    requires Inv(s) && EnqueueStep(s, b, t)
    ensures Inv(t)
  {
    EnqueueOk(s.log, b);
  }

  lemma ReceiveInv(s: State, t: State)
    requires Inv(s) && ReceiveStep(s, t)
    ensures Inv(t)
  {
  }

  lemma MarkInv(s: State, t: State)
    requires Inv(s) && MarkStep(s, t)
    ensures Inv(t)
  {
    MarkOk(s.log);
  }

  lemma GoroutineInv(s: State, a: Action, t: State)
    requires Inv(s) && Step(s, a, t)
    requires a.Quit? || a.CheckContext? || a.Fence? || a.TakeSession? || a.HandOver? || a.EndAttempt?
    ensures Inv(t)
  {
  }

  lemma ManagerInv(s: State, a: Action, t: State)
    requires Inv(s) && Step(s, a, t)
    requires a.Supersede? || a.Snapshot? || a.CancelOld? || a.Replace? || a.Retire? || a.CancelRetired?
    ensures Inv(t)
  {
  }

  lemma InvStep(s: State, a: Action, t: State)
    requires Inv(s) && Step(s, a, t)
    ensures Inv(t)
  {
    match a {
      case Enqueue(b) => EnqueueInv(s, b, t);
      case Receive => ReceiveInv(s, t);
      case Mark => MarkInv(s, t);
      case _ =>
        if a.Supersede? || a.Snapshot? || a.CancelOld? || a.Replace? || a.Retire? || a.CancelRetired? {
          ManagerInv(s, a, t);
        } else {
          GoroutineInv(s, a, t);
        }
    }
  }

  // ----- theorems over every run -----

  ghost predicate Run(states: seq<State>, actions: seq<Action>) {
    && |states| == |actions| + 1 && states[0] == INIT
    && forall i :: 0 <= i < |actions| ==> StepAt(states, actions, i)
  }

  ghost predicate StepAt(states: seq<State>, actions: seq<Action>, i: nat)
    requires |states| == |actions| + 1 && i < |actions|
  {
    Step(states[i], actions[i], states[i + 1])
  }

  lemma {:induction false} RunInv(states: seq<State>, actions: seq<Action>, n: nat)
    requires Run(states, actions) && n < |states|
    ensures Inv(states[n])
  {
    if n > 0 {
      RunInv(states, actions, n - 1);
      assert StepAt(states, actions, n - 1);
      InvStep(states[n - 1], actions[n - 1], states[n]);
    }
  }

  /** No packet of a batch that was counted as dropped is ever handed to the provider; and what was counted
      are exactly the packets of the batches not metered out when the count was taken. */
  lemma CountedNeverHanded(states: seq<State>, actions: seq<Action>, n: nat, i: nat)
    requires Run(states, actions) && n < |states| && states[n].counted.Some?
    ensures states[n].counted.value <= |states[n].log.accepted|
    ensures states[n].drops == PacketCount(states[n].log.accepted[states[n].counted.value..])
    ensures states[n].counted.value <= i ==> i !in states[n].passed && i !in states[n].handed
  {
    RunInv(states, actions, n);
  }

  /** From the count on, nothing is accepted, and nothing passes the fence. */
  lemma CountedFreezes(s: State, a: Action, t: State)
    requires Inv(s) && Step(s, a, t) && s.counted.Some?
    ensures t.counted == s.counted && t.passed == s.passed && t.log.accepted == s.log.accepted
  {
  }

  lemma {:induction false} FrozenSince(states: seq<State>, actions: seq<Action>, m: nat, n: nat)
    requires Run(states, actions) && m <= n < |states| && states[m].counted.Some?
    ensures states[n].counted == states[m].counted && states[n].passed == states[m].passed && states[n].log.accepted == states[m].log.accepted
  {
    if m < n {
      FrozenSince(states, actions, m, n - 1);
      RunInv(states, actions, n - 1);
      assert StepAt(states, actions, n - 1);
      CountedFreezes(states[n - 1], actions[n - 1], states[n]);
    }
  }

  /** Each of the first n batches was let through to an attempt, or counted as dropped. */
  ghost predicate AllAccountedFor(n: nat, passed: set<nat>, counted: Option<nat>) {
    forall i: nat :: i < n ==> i in passed || (counted.Some? && counted.value <= i)
  }

  lemma AccountedAtSnapshot(s: State, t: State)
    requires Inv(s) && SnapshotStep(s, t)
    ensures AllAccountedFor(|t.log.accepted|, t.passed, t.counted) <==> !HoldsUnfenced(s)
  {
    if HoldsUnfenced(s) {
      assert s.log.marked - 1 < |t.log.accepted| && s.log.marked - 1 !in t.passed;
    }
  }

  /** At any time after a supersession, every batch that was ever accepted has been let through to an
      attempt or was counted as dropped, if and only if at the moment of the count the goroutine held no
      batch that was metered out and had not passed the fence. */
  lemma AllAccountedForIff(states: seq<State>, actions: seq<Action>, m: nat, n: nat)
    requires Run(states, actions) && m < n < |states| && actions[m] == Snapshot
    ensures AllAccountedFor(|states[n].log.accepted|, states[n].passed, states[n].counted) <==> !HoldsUnfenced(states[m])
  {
    RunInv(states, actions, m);
    assert StepAt(states, actions, m);
    AccountedAtSnapshot(states[m], states[m + 1]);
    FrozenSince(states, actions, m + 1, n);
  }

  // ----- two runs -----

  lemma Extend(states: seq<State>, actions: seq<Action>, a: Action, t: State)
    requires Run(states, actions) && Step(states[|actions|], a, t)
    ensures Run(states + [t], actions + [a])
  {
    forall i | 0 <= i < |actions| + 1 ensures StepAt(states + [t], actions + [a], i) {
      assert i < |actions| ==> StepAt(states, actions, i);
    }
  }

  function Small(): (b: Batch)
    ensures BatchOk(b) && |b.packets| == 1
  {
    Batch("s", 1, 1, [Packet(1, [], 1, 1, 0, [1])], 129)
  }

  /** One batch has been accepted. */
  function Loaded(): State {
    INIT.(log := Log([Small()], 0, 0, false))
  }

  lemma RunToLoaded() returns (states: seq<State>, actions: seq<Action>)
    ensures Run(states, actions) && states[|actions|] == Loaded()
  {
    assert EMPTY.accepted[0..] == [] && [] + [Small()] == [Small()];
    assert EnqueueSpec(EMPTY, Small()).0 == Loaded().log;
    Extend([INIT], [], Enqueue(Small()), Loaded());
    states, actions := [INIT] + [Loaded()], [] + [Enqueue(Small())];
  }

  /** A batch received and metered out just before the count is neither counted nor let through. */
  lemma BatchCanBeLost() returns (states: seq<State>, actions: seq<Action>)
    ensures Run(states, actions)
    ensures var s := states[|actions|]; s.pc == Exited && !s.current && |s.log.accepted| == 1 && 0 !in s.passed && s.counted == Some(1) && s.drops == 0
  {
    states, actions := RunToLoaded();
    var s1 := Loaded().(pc := Received, log := Log([Small()], 1, 0, false));
    var s2 := Loaded().(pc := Marked, log := Log([Small()], 1, 1, false));
    var s3 := s2.(holder := Begun);
    var s4 := s2.(holder := Counted, counted := Some(1));
    var s5 := s4.(holder := Cancelled, log := Log([Small()], 1, 1, true));
    var s6 := s5.(pc := Exited);
    Extend(states, actions, Receive, s1);
    states, actions := states + [s1], actions + [Receive];
    Extend(states, actions, Mark, s2);
    states, actions := states + [s2], actions + [Mark];
    Extend(states, actions, Supersede, s3);
    states, actions := states + [s3], actions + [Supersede];
    assert Metered(s3.log) == 0;
    Extend(states, actions, Snapshot, s4);
    states, actions := states + [s4], actions + [Snapshot];
    Extend(states, actions, CancelOld, s5);
    states, actions := states + [s5], actions + [CancelOld];
    Extend(states, actions, CheckContext, s6);
    states, actions := states + [s6], actions + [CheckContext];
    Extend(states, actions, Replace, s6.(holder := Nobody, current := false));
    states, actions := states + [s6.(holder := Nobody, current := false)], actions + [Replace];
  }

  /** Between the count and the cancellation a counted batch can still be metered out and find the ingress
      not cancelled: it is the fence that stops it. */
  lemma CountedBatchPassesContextCheck() returns (states: seq<State>, actions: seq<Action>)
    ensures Run(states, actions)
    ensures var s := states[|actions|]; s.counted == Some(0) && s.log.marked == 1 && s.pc == Checked && s.drops == 1
  {
    states, actions := RunToLoaded();
    var s1 := Loaded().(holder := Begun);
    var s2 := Loaded().(holder := Counted, counted := Some(0), drops := 1);
    var s3 := s2.(pc := Received, log := Log([Small()], 1, 0, false));
    var s4 := s2.(pc := Marked, log := Log([Small()], 1, 1, false));
    Extend(states, actions, Supersede, s1);
    states, actions := states + [s1], actions + [Supersede];
    assert s1.log.accepted[0..] == [Small()] && [Small()][1..] == [];
    assert Metered(s1.log) == 1;
    Extend(states, actions, Snapshot, s2);
    states, actions := states + [s2], actions + [Snapshot];
    Extend(states, actions, Receive, s3);
    states, actions := states + [s3], actions + [Receive];
    Extend(states, actions, Mark, s4);
    states, actions := states + [s4], actions + [Mark];
    Extend(states, actions, CheckContext, s4.(pc := Checked));
    states, actions := states + [s4.(pc := Checked)], actions + [CheckContext];
  }
}
