// Starts, stops, video failures and process restarts, as far as they concern the receipts of stopped
// streams, with time passing and any write failing in between.
module ReceiptProtocol {
  import opened Text
  import opened Sequences
  import opened StopReceipts
  import L = Lifecycle

  /** The active stream is empty while the manager is idle. */
  datatype State = State(list: seq<Receipt>, disk: File, active: string, now: int)

  datatype Action =
    | Tick(now: int) | Start(stream: string, w: Write) | StartFails | Stop(w: Write) | VideoFails(w: Write) | Restart

  function Init(now: int): State {
    State([], Missing, "", now)
  }

  /** The disk after a write of a list. */
  function WrittenTo(disk: File, list: seq<Receipt>, w: Write): File {
    if w == Fails then disk else Content(VERSION, list)
  }

  /** A start forgets the receipt of its stream, and does not go on when that cannot be written. */
  ghost predicate StartStep(s: State, stream: string, w: Write, t: State) {
    && s.active == "" && stream != "" && Trim(stream) == stream
    && var list := Without(s.list, stream, s.now);
       if !WasStopped(s.list, stream, s.now) then t == s.(active := stream)
       else if w == Succeeds then t == s.(list := list, disk := WrittenTo(s.disk, list, w), active := stream)
       else t == s.(disk := WrittenTo(s.disk, list, w))
  }

  /** A stop keeps its stream active when its receipt cannot be written. */
  ghost predicate StopStep(s: State, w: Write, t: State) {
    && s.active != ""
    && var list := Remembered(s.list, s.active, s.now, s.now);
       if w == Succeeds then t == s.(list := list, disk := WrittenTo(s.disk, list, w), active := "")
       else t == s.(disk := WrittenTo(s.disk, list, w))
  }

  /** A video failure ends the job in any case, with a receipt at least in memory. */
  ghost predicate VideoFailsStep(s: State, w: Write, t: State) {
    && s.active != ""
    && var list := Remembered(s.list, s.active, s.now, s.now);
       t == s.(list := list, disk := WrittenTo(s.disk, list, w), active := "")
  }

  ghost predicate Step(s: State, a: Action, t: State) {
    match a
    case Tick(now) => s.now <= now && t == s.(now := now)
    case Start(stream, w) => StartStep(s, stream, w, t)
    case StartFails => s.active != "" && t == s.(active := "")
    case Stop(w) => StopStep(s, w, t)
    case VideoFails(w) => VideoFailsStep(s, w, t)
    case Restart => LoadSpec(s.disk, s.now).Ok? && t == s.(list := LoadSpec(s.disk, s.now).receipts, active := "")
  }

  // ----- what every step keeps -----

  ghost predicate Inv(s: State) {
    && ListOk(s.list) && s.now > 0
    && (s.active != "" ==> Trim(s.active) == s.active && !WasStopped(s.list, s.active, s.now))
  }

  lemma StartInv(s: State, stream: string, w: Write, t: State)
    requires Inv(s) && StartStep(s, stream, w, t)
    ensures Inv(t)
  {
    WithoutOk(s.list, stream, s.now);
  }

  lemma EndInv(s: State, a: Action, t: State)
    requires Inv(s) && Step(s, a, t) && (a.Stop? || a.VideoFails?)
    ensures Inv(t)
  {
    RememberedOk(s.list, s.active, s.now, s.now);
  }

  lemma InvStep(s: State, a: Action, t: State)
    requires Inv(s) && Step(s, a, t)
    ensures Inv(t)
  {
    match a {
      case Start(stream, w) => StartInv(s, stream, w, t);
      case Stop(_) => EndInv(s, a, t);
      case VideoFails(_) => EndInv(s, a, t);
      case Restart => LoadedOk(s.disk, s.now);
      case _ =>
    }
  }

  // ----- what a restart finds -----

  /** What is alive in memory is what is alive in the file. */
  ghost predicate Synced(s: State) {
    match s.disk
    case Missing => s.list == []
    case Garbled => false
    case Content(version, written) => version == VERSION && ListOk(written) && Alive(s.list, s.now) == Alive(written, s.now)
  }

  /** The step leaves file and memory alike: no write ends between the rename and its sync, and no video
      failure has to do without its write. */
  ghost predicate Clean(s: State, a: Action) {
    match a
    case Start(stream, w) => WasStopped(s.list, stream, s.now) ==> w != Unsynced
    case Stop(w) => w != Unsynced
    case VideoFails(w) => w == Succeeds
    case _ => true
  }

  lemma CleanTick(s: State, now: int, t: State)
    requires Synced(s) && s.now <= now && t == s.(now := now)
    ensures Synced(t)
  {
    AliveLater(s.list, s.now, now);
    if s.disk.Content? {
      AliveLater(s.disk.receipts, s.now, now);
    }
  }

  lemma CleanRestart(s: State, t: State)
    requires Synced(s) && Step(s, Restart, t)
    ensures Synced(t) && t.list == Alive(s.list, s.now)
  {
    if s.disk.Content? {
      LoadReturnsWritten(s.disk.receipts, s.now);
      AliveLater(s.disk.receipts, s.now, s.now);
    }
  }

  /** A write that succeeds brings file and memory together, whatever happened before it. */
  ghost predicate Writes(s: State, a: Action) {
    match a
    case Start(stream, w) => WasStopped(s.list, stream, s.now) && w == Succeeds
    case Stop(w) => w == Succeeds
    case VideoFails(w) => w == Succeeds
    case _ => false
  }

  lemma WriteSyncs(s: State, a: Action, t: State)
    requires Inv(s) && Step(s, a, t) && Writes(s, a)
    ensures Synced(t)
  {
    InvStep(s, a, t);
  }

  lemma CleanStep(s: State, a: Action, t: State)
    requires Inv(s) && Step(s, a, t) && Synced(s) && Clean(s, a)
    ensures Synced(t)
  {
    if Writes(s, a) {
      WriteSyncs(s, a, t);
    } else {
      match a {
        case Tick(now) => CleanTick(s, now, t);
        case Restart => CleanRestart(s, t);
        case _ =>
      }
    }
  }

  // ----- theorems over every run -----

  ghost predicate Run(states: seq<State>, actions: seq<Action>) {
    && |states| == |actions| + 1 && states[0].now > 0 && states[0] == Init(states[0].now)
    && forall i :: 0 <= i < |actions| ==> StepAt(states, actions, i)
  }

  ghost predicate StepAt(states: seq<State>, actions: seq<Action>, i: nat)
    requires |states| == |actions| + 1 && i < |actions|
  {
    Step(states[i], actions[i], states[i + 1])
  }

  lemma {:induction false} RunInv(states: seq<State>, actions: seq<Action>, n: nat)
    requires Run(states, actions) && n < |states|
    ensures Inv(states[n])
  {
    if n > 0 {
      RunInv(states, actions, n - 1);
      assert StepAt(states, actions, n - 1);
      InvStep(states[n - 1], actions[n - 1], states[n]);
    }
  }

  /** At every point the list has no two receipts of a stream, at most 64 of them, all for trimmed,
      non-empty stream IDs; and the active stream has none that is alive. */
  lemma ReceiptsAlwaysOk(states: seq<State>, actions: seq<Action>, n: nat)
    requires Run(states, actions) && n < |states|
    ensures var s := states[n];
      && Distinct(s.list) && |s.list| <= 64 && AllWellFormed(s.list)
      && (s.active != "" ==> !WasStopped(s.list, s.active, s.now))
  {
    RunInv(states, actions, n);
  }

  /** The streams stopped in steps m to n. */
  ghost function StoppedSince(states: seq<State>, actions: seq<Action>, m: nat, n: nat): set<string>
    requires m <= n <= |actions| < |states|
  {
    if m == n then {}
    else StoppedSince(states, actions, m, n - 1) + if actions[n - 1].Stop? || actions[n - 1].VideoFails? then {states[n - 1].active} else {}
  }

  /** The receipt is there, behind no more than the streams given. */
  ghost predicate Held(s: State, r: Receipt, since: set<string>) {
    r in s.list && After(s.list, r.stream) <= since
  }

  lemma HeldStop(s: State, r: Receipt, since: set<string>, more: set<string>)
    requires Inv(s) && s.active != "" && Held(s, r, since) && Live(r, s.now)
    requires more == since + {s.active} && |more| < MAX_RECEIPTS
    ensures Held(s, r, more)
    ensures r in Remembered(s.list, s.active, s.now, s.now) && After(Remembered(s.list, s.active, s.now, s.now), r.stream) <= more
  {
    assert s.active != r.stream;
    SubsetSize(After(s.list, r.stream) + {s.active}, more);
    RememberedKeeps(s.list, s.active, s.now, s.now, r);
  }

  lemma HeldStep(s: State, a: Action, t: State, r: Receipt, since: set<string>, more: set<string>)
    requires Inv(s) && Step(s, a, t) && Held(s, r, since) && Live(r, t.now)
    requires (a == Restart ==> Synced(s)) && (a.Start? ==> a.stream != r.stream)
    requires more == since + (if a.Stop? || a.VideoFails? then {s.active} else {}) && |more| < MAX_RECEIPTS
    ensures Held(t, r, more)
  {
    match a {
      case Start(stream, _) =>
        WithoutMember(s.list, stream, s.now, r);
        AfterWithout(s.list, stream, s.now, r);
      case Stop(_) => HeldStop(s, r, since, more);
      case VideoFails(_) => HeldStop(s, r, since, more);
      case Restart =>
        CleanRestart(s, t);
        AliveOk(s.list, s.now);
        AfterAlive(s.list, s.now, r);
      case _ =>
    }
  }

  /** The stream is not started, and whenever the process restarts the file has what memory had. */
  ghost predicate Undisturbed(states: seq<State>, actions: seq<Action>, m: nat, n: nat, stream: string)
    requires m <= n <= |actions| < |states|
  {
    forall i :: m <= i < n ==> (actions[i] == Restart ==> Synced(states[i])) && (actions[i].Start? ==> actions[i].stream != stream)
  }

  lemma {:induction false} TimePasses(states: seq<State>, actions: seq<Action>, m: nat, n: nat)
    requires Run(states, actions) && m <= n < |states|
    ensures states[m].now <= states[n].now
  {
    if m < n {
      TimePasses(states, actions, m, n - 1);
      assert StepAt(states, actions, n - 1);
    }
  }

  lemma RunHeld(states: seq<State>, actions: seq<Action>, n: nat, r: Receipt, since: set<string>, more: set<string>)
    requires Run(states, actions) && n < |actions| && Held(states[n], r, since) && Live(r, states[n + 1].now)
    requires (actions[n] == Restart ==> Synced(states[n])) && (actions[n].Start? ==> actions[n].stream != r.stream)
    requires more == since + (if actions[n].Stop? || actions[n].VideoFails? then {states[n].active} else {}) && |more| < MAX_RECEIPTS
    ensures Held(states[n + 1], r, more)
  {
    RunInv(states, actions, n);
    assert StepAt(states, actions, n);
    HeldStep(states[n], actions[n], states[n + 1], r, since, more);
  }

  lemma {:induction false} HeldSince(states: seq<State>, actions: seq<Action>, m: nat, n: nat, r: Receipt)
    requires Run(states, actions) && m <= n <= |actions| && Undisturbed(states, actions, m, n, r.stream)
    requires states[m].list != [] && states[m].list[|states[m].list| - 1] == r
    requires Live(r, states[n].now) && |StoppedSince(states, actions, m, n)| < MAX_RECEIPTS
    ensures Held(states[n], r, StoppedSince(states, actions, m, n))
  {
    if m < n {
      TimePasses(states, actions, n - 1, n);
      SubsetSize(StoppedSince(states, actions, m, n - 1), StoppedSince(states, actions, m, n));
      HeldSince(states, actions, m, n - 1, r);
      RunHeld(states, actions, n - 1, r, StoppedSince(states, actions, m, n - 1), StoppedSince(states, actions, m, n));
    }
  }

  lemma StopLeavesReceipt(s: State, a: Action, t: State)
    requires Inv(s) && Step(s, a, t) && (a == Stop(Succeeds) || a.VideoFails?)
    ensures t.list != [] && t.list[|t.list| - 1] == Receipt(s.active, s.now)
  {
    RememberedOk(s.list, s.active, s.now, s.now);
  }

  lemma HeldIsStopped(s: State, r: Receipt, since: set<string>)
    requires Held(s, r, since) && Live(r, s.now)
    ensures WasStopped(s.list, r.stream, s.now)
  {
  }

  /** A stop that succeeds leaves a receipt, which survives for 24 hours unless the stream is started
      again or 64 other streams are stopped, whatever fails in between, and across restarts of the process
      whose file is in step. */
  lemma ReceiptSurvives(states: seq<State>, actions: seq<Action>, m: nat, n: nat)
    requires Run(states, actions) && m < n <= |actions| && (actions[m] == Stop(Succeeds) || actions[m].VideoFails?)
    requires Undisturbed(states, actions, m + 1, n, states[m].active)
    requires states[n].now <= states[m].now + 24 * 60 * 60 * 1000000000 && |StoppedSince(states, actions, m + 1, n)| < 64
    ensures WasStopped(states[n].list, states[m].active, states[n].now)
  {
    RunInv(states, actions, m);
    assert StepAt(states, actions, m);
    StopLeavesReceipt(states[m], actions[m], states[m + 1]);
    var r := Receipt(states[m].active, states[m].now);
    HeldSince(states, actions, m + 1, n, r);
    HeldIsStopped(states[n], r, StoppedSince(states, actions, m + 1, n));
  }

  /** As long as it does, a late stop for that stream is acknowledged and leaves a manager that is idle
      or busy with another stream as it is. */
  lemma LateStopAcknowledged(states: seq<State>, actions: seq<Action>, m: nat, n: nat, f: L.Fields, stopped: bool)
    requires Run(states, actions) && m < n <= |actions| && (actions[m] == Stop(Succeeds) || actions[m].VideoFails?)
    requires Undisturbed(states, actions, m + 1, n, states[m].active)
    requires states[n].now <= states[m].now + 24 * 60 * 60 * 1000000000 && |StoppedSince(states, actions, m + 1, n)| < 64
    requires f.current.stream == states[n].active && stopped == WasStopped(states[n].list, states[m].active, states[n].now)
    ensures L.StopBeginSpec(f, states[m].active, stopped) == (f, L.Refused(L.AlreadyStopped))
  {
    ReceiptSurvives(states, actions, m, n);
    RunInv(states, actions, n);
    assert StepAt(states, actions, m);
  }

  lemma {:induction false} SyncedSince(states: seq<State>, actions: seq<Action>, m: nat, n: nat)
    requires Run(states, actions) && m <= n < |states| && (m == 0 || Writes(states[m - 1], actions[m - 1]))
    requires forall i :: m <= i < n ==> Clean(states[i], actions[i])
    ensures Synced(states[n])
  {
    if m < n {
      SyncedSince(states, actions, m, n - 1);
      RunInv(states, actions, n - 1);
      assert StepAt(states, actions, n - 1);
      CleanStep(states[n - 1], actions[n - 1], states[n]);
    } else if m > 0 {
      RunInv(states, actions, m - 1);
      assert StepAt(states, actions, m - 1);
      WriteSyncs(states[m - 1], actions[m - 1], states[m]);
    }
  }

  /** Whenever the process restarts, however long after the last successful write, it comes back with its
      receipts minus those whose time is up, unless a write since then ended between the rename and its
      sync, or a video failure had to do without its write. */
  lemma RestartKeepsReceipts(states: seq<State>, actions: seq<Action>, m: nat, n: nat)
    requires Run(states, actions) && m <= n < |actions| && actions[n] == Restart
    requires m == 0 || Writes(states[m - 1], actions[m - 1])
    requires forall i :: m <= i < n ==> Clean(states[i], actions[i])
    ensures states[n + 1].list == Alive(states[n].list, states[n].now) && states[n + 1].active == ""
  {
    SyncedSince(states, actions, m, n);
    assert StepAt(states, actions, n);
    CleanRestart(states[n], states[n + 1]);
  }
}
