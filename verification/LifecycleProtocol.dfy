// Start, Stop, Update and the video failure callback, taken apart at every point where Manager.mu is
// released, with audio and transcripts arriving in between. lifecycleMu is modelled by `op`: at most
// one lifecycle operation is under way, and audio and transcripts never wait for it.
module LifecycleProtocol {
  import opened Text
  import opened Lifecycle

  datatype Purpose = ForStart(c: Context) | ForUpdate(stream: string)

  /** The lifecycle operation in progress: looking for a profile and secret; holding the new session,
      if the stream has one; starting video; or tearing down what it took, which ends a stop with the
      receipt. What a teardown still holds it still has to release, in this order. */
  datatype Op =
    | Free
    | Preparing(purpose: Purpose, pair: Pair)
    | Prepared(purpose: Purpose, pair: Pair, session: Option<nat>)
    | Launching(c: Context, session: Option<nat>, ingress: Option<nat>)
    | TearDown(delivery: bool, ingress: Option<nat>, session: Option<nat>, stopping: bool)

  /** A caption session that was created, with what its transcript handler captured. */
  datatype Session = Session(stream: string, pair: Pair)

  /** A batch that passed the second fence, with the ingress it was put in. */
  datatype Accepted = Accepted(ingress: nat, stream: string, job: nat, connection: nat)

  datatype Tag = Tag(stream: string, job: nat, connection: nat)

  datatype State = State(
    fields: Fields, op: Op,
    sessions: seq<Session>, closed: set<nat>, closes: nat, installs: seq<nat>,
    ingresses: nat, running: set<nat>, orphaned: set<nat>, batches: seq<Accepted>, tags: map<nat, Tag>,
    issued: nat, fed: set<nat>)

  const INIT: State := State(NEW, Free, [], {}, 0, [], 0, {}, {}, [], map[], 0, {})

  datatype Action =
    | StartBegin(c: Context, primary: bool) | UpdateBegin(stream: string)
    | Abandon | Create(broken: bool) | GoWithout
    | Commit(h: Host) | Swap(expired: bool, primary: bool)
    | Launched | LaunchFails
    | StopBegin(stream: string, wasStopped: bool) | VideoFails(stream: string, generation: nat)
    | EndDelivery | CancelIngress | CloseSession | Finish(recorded: bool)
    | FenceAudio(stream: string, generation: nat, connection: nat)
    | AdmitAudio(stream: string, generation: nat, connection: nat, ingress: nat)
    | IngestAudio(stream: string, generation: nat, connection: nat) | Heard(x: nat, accepted: bool)

  function StreamOf(p: Purpose): string {
    match p
    case ForStart(c) => c.stream
    case ForUpdate(stream) => stream
  }

  /** The session the operation still has to close or install. */
  function Hand(op: Op): Option<nat> {
    match op
    case Prepared(_, _, session) => session
    case TearDown(_, _, session, _) => session
    case _ => None
  }

  function HandIngress(op: Op): Option<nat> {
    if op.TearDown? then op.ingress else None
  }

  function Size(o: Option<nat>): nat {
    if o.Some? then 1 else 0
  }

  function AsSet(o: Option<nat>): set<nat> {
    if o.Some? then {o.value} else {}
  }

  // ----- the steps -----

  ghost predicate StartBeginStep(s: State, c: Context, primary: bool, t: State) {
    && s.op == Free && c.stream != ""
    && var r := StartCheckSpec(s.fields, primary);
       t == if r.Done? then s.(op := Preparing(ForStart(c), r.value)) else s
  }

  ghost predicate UpdateBeginStep(s: State, stream: string, t: State) {
    && s.op == Free && stream != ""
    && var r := UpdateCheckSpec(s.fields, stream);
       t == if r.Done? then s.(op := Preparing(ForUpdate(stream), r.value)) else s
  }

  /** Any of the exits before a session exists. */
  ghost predicate AbandonStep(s: State, t: State) {
    s.op.Preparing? && t == s.(op := Free)
  }

  /** The factory returns a session, or a session with an error, which is closed at once. */
  ghost predicate CreateStep(s: State, broken: bool, t: State) {
    && s.op.Preparing?
    && t == s.(sessions := s.sessions + [Session(StreamOf(s.op.purpose), s.op.pair)],
               op := if broken then TearDown(false, None, Some(|s.sessions|), false)
                     else Prepared(s.op.purpose, s.op.pair, Some(|s.sessions|)))
  }

  /** A stream without a caption profile starts without a session. */
  ghost predicate GoWithoutStep(s: State, t: State) {
    s.op.Preparing? && s.op.purpose.ForStart? && t == s.(op := Prepared(s.op.purpose, s.op.pair, None))
  }

  ghost predicate CommitStep(s: State, h: Host, t: State) {
    && s.op.Prepared? && s.op.purpose.ForStart?
    && var (f, r) := CommitSpec(s.fields, s.op.purpose.c, s.op.session, s.op.pair.generation, h, s.ingresses);
       match r
       case NotStarted(_) => t == s.(fields := f, op := TearDown(false, None, s.op.session, false))
       case RolledBack => t == s.(fields := f, op := TearDown(true, None, s.op.session, false))
       case Running(generation, ingress) =>
         t == s.(fields := f, op := Launching(s.op.purpose.c, s.op.session, ingress),
                 installs := if s.op.session.Some? then s.installs + [s.op.session.value] else s.installs,
                 ingresses := s.ingresses + Size(ingress), running := s.running + AsSet(ingress),
                 issued := if s.op.purpose.c.video then generation else s.issued)
  }

  ghost predicate SwapStep(s: State, expired: bool, primary: bool, t: State) {
    && s.op.Prepared? && s.op.purpose.ForUpdate? && s.op.session.Some?
    && var (f, r) := SwapSpec(s.fields, s.op.purpose.stream, s.op.pair, primary, s.op.session.value, s.ingresses);
       if expired || r.Refused? then t == s.(op := TearDown(false, None, s.op.session, false))
       else t == s.(fields := f, op := TearDown(false, r.value.ingress, r.value.session, false),
                    installs := s.installs + [s.op.session.value],
                    ingresses := s.ingresses + 1, running := s.running + {s.ingresses})
  }

  ghost predicate LaunchedStep(s: State, t: State) {
    s.op.Launching? && t == s.(op := Free)
  }

  /** The start releases the ingress it created itself. If audio has replaced that one meanwhile, the
      replacement is dropped from the manager and keeps running. */
  ghost predicate LaunchFailsStep(s: State, t: State) {
    && s.op.Launching? && s.op.c.video
    && t == s.(fields := LaunchFailedSpec(s.fields, s.op.c.stream), op := TearDown(true, s.op.ingress, s.op.session, false),
               orphaned := s.orphaned + (AsSet(s.fields.ingress) - AsSet(s.op.ingress)))
  }

  ghost predicate StopBeginStep(s: State, stream: string, wasStopped: bool, t: State) {
    && s.op == Free
    && var (f, r) := StopBeginSpec(s.fields, stream, wasStopped);
       t == if r.Done? then s.(fields := f, op := TearDown(true, r.value.ingress, r.value.session, true)) else s
  }

  /** The video output reports the failure of an output it was once asked to start. */
  ghost predicate VideoFailsStep(s: State, stream: string, generation: nat, t: State) {
    && s.op == Free && stream != "" && 0 < generation <= s.issued
    && var (f, r) := FailVideoSpec(s.fields, stream, generation);
       t == if r.Some? then s.(fields := f, op := TearDown(true, r.value.ingress, r.value.session, false)) else s
  }

  ghost predicate EndDeliveryStep(s: State, t: State) {
    && s.op.TearDown? && s.op.delivery
    && t == s.(fields := s.fields.(delivering := false), op := s.op.(delivery := false))
  }

  ghost predicate CancelIngressStep(s: State, t: State) {
    && s.op.TearDown? && !s.op.delivery && s.op.ingress.Some?
    && t == s.(running := s.running - {s.op.ingress.value}, op := s.op.(ingress := None))
  }

  ghost predicate CloseSessionStep(s: State, t: State) {
    && s.op.TearDown? && !s.op.delivery && s.op.ingress == None && s.op.session.Some?
    && t == s.(closed := s.closed + {s.op.session.value}, closes := s.closes + 1, op := s.op.(session := None))
  }

  /** A stop ends by recording its receipt; when that fails the job stays, fenced, for another stop. */
  ghost predicate FinishStep(s: State, recorded: bool, t: State) {
    && s.op.TearDown? && !s.op.delivery && s.op.ingress == None && s.op.session == None
    && t == s.(fields := if s.op.stopping then StopFinishSpec(s.fields, recorded) else s.fields, op := Free)
  }

  ghost predicate FenceAudioStep(s: State, stream: string, generation: nat, connection: nat, t: State) {
    && generation != 0 && connection != 0
    && var (f, r) := FenceSpec(s.fields, stream, generation, connection, s.ingresses);
       t == if r.Done? && r.value.superseded.Some?
            then s.(fields := f, ingresses := s.ingresses + 1, running := s.running - AsSet(r.value.superseded) + {s.ingresses})
            else s.(fields := f)
  }

  ghost predicate AdmitAudioStep(s: State, stream: string, generation: nat, connection: nat, ingress: nat, t: State) {
    && generation != 0 && connection != 0 && AdmitSpec(s.fields, stream, generation, connection, ingress) == None
    && t == s.(batches := s.batches + [Accepted(ingress, stream, generation, connection)],
               tags := if ingress in s.tags then s.tags else s.tags[ingress := Tag(stream, generation, connection)])
  }

  /** An attempt takes the session to give its audio to from the fields. */
  ghost predicate IngestAudioStep(s: State, stream: string, generation: nat, connection: nat, t: State) {
    var r := SessionForAudio(s.fields, stream, generation, connection);
    t == if r.Done? then s.(fed := s.fed + {r.value}) else s
  }

  /** A session that was given audio yields a transcript, at any time later, and the fence decides. */
  ghost predicate HeardStep(s: State, x: nat, accepted: bool, t: State) {
    && x in s.fed && x < |s.sessions| && t == s
    && (accepted <==> TranscriptSpec(s.fields, s.sessions[x].stream, s.sessions[x].pair) == None)
  }

  ghost predicate Step(s: State, a: Action, t: State) {
    match a
    case StartBegin(c, primary) => StartBeginStep(s, c, primary, t)
    case UpdateBegin(stream) => UpdateBeginStep(s, stream, t)
    case Abandon => AbandonStep(s, t)
    case Create(broken) => CreateStep(s, broken, t)
    case GoWithout => GoWithoutStep(s, t)
    case Commit(h) => CommitStep(s, h, t)
    case Swap(expired, primary) => SwapStep(s, expired, primary, t)
    case Launched => LaunchedStep(s, t)
    case LaunchFails => LaunchFailsStep(s, t)
    case StopBegin(stream, wasStopped) => StopBeginStep(s, stream, wasStopped, t)
    case VideoFails(stream, generation) => VideoFailsStep(s, stream, generation, t)
    case EndDelivery => EndDeliveryStep(s, t)
    case CancelIngress => CancelIngressStep(s, t)
    case CloseSession => CloseSessionStep(s, t)
    case Finish(recorded) => FinishStep(s, recorded, t)
    case FenceAudio(stream, generation, connection) => FenceAudioStep(s, stream, generation, connection, t)
    case AdmitAudio(stream, generation, connection, ingress) => AdmitAudioStep(s, stream, generation, connection, ingress, t)
    case IngestAudio(stream, generation, connection) => IngestAudioStep(s, stream, generation, connection, t)
    case Heard(x, accepted) => HeardStep(s, x, accepted, t)
  }

  // ----- what every step keeps -----

  ghost predicate Active(f: Fields) {
    f.current.stream != ""
  }

  ghost predicate FieldsOk(f: Fields) {
    && (!Active(f) ==> f.session == None && f.connection == 0 && !f.stopping)
    && (Active(f) ==> f.jobGeneration > 0)
    && (f.stopping ==> f.session == None && f.connection == 0)
    && (f.session.Some? <==> f.ingress.Some?)
  }

  ghost predicate PairOk(f: Fields, p: Purpose, pair: Pair) {
    && pair.generation == f.sessionGeneration + 1 && StreamOf(p) != ""
    && match p
       case ForStart(_) => !Active(f) && pair.job == f.jobGeneration + 1
       case ForUpdate(stream) => f.current.stream == stream && !f.stopping && pair.job == f.jobGeneration
  }

  /** What an operation read before it let go of Manager.mu is still so. */
  ghost predicate OpOk(f: Fields, op: Op) {
    match op
    case Free => true
    case Preparing(p, pair) => PairOk(f, p, pair)
    case Prepared(p, pair, session) => PairOk(f, p, pair) && (p.ForUpdate? ==> session.Some?)
    case Launching(c, session, ingress) => c.stream != "" && f.current == c && !f.stopping && f.session == session && (ingress.Some? <==> session.Some?)
    case TearDown(delivery, _, _, stopping) => (stopping ==> f.stopping) && (delivery ==> !Active(f) || f.stopping)
  }

  ghost predicate DeliveryOk(f: Fields, op: Op) {
    && (f.delivering ==> (Active(f) && !f.stopping) || (op.TearDown? && op.delivery))
    && (Active(f) && !f.stopping ==> f.delivering)
  }

  /** Handlers carry the pair that is current, or will be when their session is installed. */
  ghost predicate HandlersOk(f: Fields, op: Op, sessions: seq<Session>) {
    && (forall x :: 0 <= x < |sessions| ==> sessions[x].pair.job > 0 && sessions[x].pair.generation > 0)
    && (f.session.Some? ==> f.session.value < |sessions| && !f.stopping &&
                            sessions[f.session.value] == Session(f.current.stream, Pair(f.jobGeneration, f.sessionGeneration)))
    && (op.Prepared? && op.session.Some? ==> op.session.value < |sessions| && sessions[op.session.value] == Session(StreamOf(op.purpose), op.pair))
  }

  /** Every session is in exactly one place: closed, installed, or in the operation's hand. */
  ghost predicate OwnersOk(installed: Option<nat>, hand: Option<nat>, closed: set<nat>, closes: nat, created: nat) {
    && closes == |closed| && created == closes + Size(installed) + Size(hand)
    && (installed.Some? ==> installed.value < created && installed.value !in closed && installed != hand)
    && (hand.Some? ==> hand.value < created && hand.value !in closed)
    && (forall x :: x in closed ==> x < created)
    && (forall x: nat :: x < created ==> x in closed || installed == Some(x) || hand == Some(x))
  }

  ghost predicate Outdated(pair: Pair, f: Fields) {
    !Active(f) || pair.job < f.jobGeneration || pair.generation < f.sessionGeneration
  }

  ghost predicate HistoryOk(f: Fields, op: Op, sessions: seq<Session>, installs: seq<nat>) {
    && (forall x :: x in installs ==> x < |sessions| && sessions[x].pair.job <= f.jobGeneration && sessions[x].pair.generation <= f.sessionGeneration)
    && (forall x :: x in installs && f.session != Some(x) ==> Outdated(sessions[x].pair, f))
    && (forall x :: x in installs && op.Prepared? ==> op.session != Some(x))
  }

  /** The installed session is in the list of those ever installed, and only those were given audio. */
  ghost predicate FedOk(session: Option<nat>, installs: seq<nat>, fed: set<nat>) {
    (session.Some? ==> session.value in installs) && forall x :: x in fed ==> x in installs
  }

  /** Each installed session has a later session generation than all before it, and no earlier job. */
  ghost predicate Increasing(sessions: seq<Session>, installs: seq<nat>) {
    forall i, j :: 0 <= i < j < |installs| ==> Before(sessions, installs[i], installs[j])
  }

  ghost predicate Before(sessions: seq<Session>, x: nat, y: nat) {
    && x < |sessions| && y < |sessions|
    && sessions[x].pair.generation < sessions[y].pair.generation && sessions[x].pair.job <= sessions[y].pair.job
  }

  /** All batches in one ingress carry the generations of its first, current while it is current. */
  ghost predicate TagsOk(f: Fields, ingresses: nat, batches: seq<Accepted>, tags: map<nat, Tag>) {
    && (forall b :: b in batches ==> b.ingress in tags && tags[b.ingress] == Tag(b.stream, b.job, b.connection))
    && (forall i :: i in tags ==> i < ingresses)
    && (f.ingress.Some? ==> f.ingress.value < ingresses)
    && (f.ingress.Some? && f.ingress.value in tags ==> f.connection != 0 && tags[f.ingress.value] == Tag(f.current.stream, f.jobGeneration, f.connection))
  }

  /** A running ingress is current, about to be cancelled, or orphaned; nobody holds an orphan. */
  ghost predicate RunningOk(ingress: Option<nat>, op: Op, ingresses: nat, running: set<nat>, orphaned: set<nat>) {
    && (forall i :: i in running ==> i < ingresses && (ingress == Some(i) || HandIngress(op) == Some(i) || i in orphaned))
    && orphaned <= running
    && (ingress.Some? ==> ingress.value in running && ingress.value !in orphaned)
    && ((op.TearDown? || op.Launching?) && op.ingress.Some? ==> op.ingress.value < ingresses && op.ingress.value !in orphaned)
    && (op.TearDown? && op.ingress.Some? ==> op.ingress != ingress)
  }

  ghost predicate VideoOk(f: Fields, issued: nat) {
    issued <= f.jobGeneration && (f.stopping ==> issued < f.jobGeneration)
  }

  ghost predicate Inv(s: State) {
    && FieldsOk(s.fields) && OpOk(s.fields, s.op) && DeliveryOk(s.fields, s.op)
    && HandlersOk(s.fields, s.op, s.sessions)
    && OwnersOk(s.fields.session, Hand(s.op), s.closed, s.closes, |s.sessions|)
    && HistoryOk(s.fields, s.op, s.sessions, s.installs) && Increasing(s.sessions, s.installs)
    && TagsOk(s.fields, s.ingresses, s.batches, s.tags)
    && RunningOk(s.fields.ingress, s.op, s.ingresses, s.running, s.orphaned)
    && VideoOk(s.fields, s.issued) && FedOk(s.fields.session, s.installs, s.fed)
  }

  lemma StartBeginInv(s: State, c: Context, primary: bool, t: State)
    requires Inv(s) && StartBeginStep(s, c, primary, t)
    ensures Inv(t)
  {
  }

  lemma UpdateBeginInv(s: State, stream: string, t: State)
    requires Inv(s) && UpdateBeginStep(s, stream, t)
    ensures Inv(t)
  {
  }

  lemma CreateInv(s: State, broken: bool, t: State)
    requires Inv(s) && CreateStep(s, broken, t)
    ensures Inv(t)
  {
  }

  lemma CommitNow(s: State, h: Host, t: State)
    requires Inv(s) && CommitStep(s, h, t)
    ensures FieldsOk(t.fields) && OpOk(t.fields, t.op) && DeliveryOk(t.fields, t.op) && HandlersOk(t.fields, t.op, t.sessions)
    ensures OwnersOk(t.fields.session, Hand(t.op), t.closed, t.closes, |t.sessions|) && VideoOk(t.fields, t.issued) && FedOk(t.fields.session, t.installs, t.fed)
  {
  }

  lemma Appended(f: Fields, op: Op, sessions: seq<Session>, installs: seq<nat>, x: nat)
    requires HistoryOk(f, op, sessions, installs) && Increasing(sessions, installs) && x < |sessions|
    requires f.sessionGeneration < sessions[x].pair.generation && f.jobGeneration <= sessions[x].pair.job
    ensures Increasing(sessions, installs + [x])
  {
  }

  lemma CommitPast(s: State, h: Host, t: State)
    requires Inv(s) && CommitStep(s, h, t)
    ensures HistoryOk(t.fields, t.op, t.sessions, t.installs)
  {
  }

  lemma CommitOrder(s: State, h: Host, t: State)
    requires Inv(s) && CommitStep(s, h, t)
    ensures Increasing(t.sessions, t.installs)
  {
    if s.op.session.Some? {
      Appended(s.fields, s.op, s.sessions, s.installs, s.op.session.value);
    }
  }

  lemma CommitIngress(s: State, h: Host, t: State)
    requires Inv(s) && CommitStep(s, h, t)
    ensures TagsOk(t.fields, t.ingresses, t.batches, t.tags)
    ensures RunningOk(t.fields.ingress, t.op, t.ingresses, t.running, t.orphaned)
  {
  }

  lemma SwapNow(s: State, expired: bool, primary: bool, t: State)
    requires Inv(s) && SwapStep(s, expired, primary, t)
    ensures FieldsOk(t.fields) && OpOk(t.fields, t.op) && DeliveryOk(t.fields, t.op) && HandlersOk(t.fields, t.op, t.sessions)
    ensures OwnersOk(t.fields.session, Hand(t.op), t.closed, t.closes, |t.sessions|) && VideoOk(t.fields, t.issued) && FedOk(t.fields.session, t.installs, t.fed)
  {
  }

  lemma SwapPast(s: State, expired: bool, primary: bool, t: State)
    requires Inv(s) && SwapStep(s, expired, primary, t)
    ensures HistoryOk(t.fields, t.op, t.sessions, t.installs) && Increasing(t.sessions, t.installs)
    ensures TagsOk(t.fields, t.ingresses, t.batches, t.tags)
    ensures RunningOk(t.fields.ingress, t.op, t.ingresses, t.running, t.orphaned)
  {
  }

  lemma LaunchFailsInv(s: State, t: State)
    requires Inv(s) && LaunchFailsStep(s, t)
    ensures Inv(t)
  {
  }

  lemma StopBeginInv(s: State, stream: string, wasStopped: bool, t: State)
    requires Inv(s) && StopBeginStep(s, stream, wasStopped, t)
    ensures Inv(t)
  {
  }

  lemma VideoFailsInv(s: State, stream: string, generation: nat, t: State)
    requires Inv(s) && VideoFailsStep(s, stream, generation, t)
    ensures Inv(t)
  {
  }

  lemma CloseSessionInv(s: State, t: State)
    requires Inv(s) && CloseSessionStep(s, t)
    ensures Inv(t)
  {
  }

  lemma FinishInv(s: State, recorded: bool, t: State)
    requires Inv(s) && FinishStep(s, recorded, t)
    ensures Inv(t)
  {
  }

  lemma FenceAudioNow(s: State, stream: string, generation: nat, connection: nat, t: State)
    requires Inv(s) && FenceAudioStep(s, stream, generation, connection, t)
    ensures FieldsOk(t.fields) && OpOk(t.fields, t.op) && DeliveryOk(t.fields, t.op) && HandlersOk(t.fields, t.op, t.sessions)
    ensures OwnersOk(t.fields.session, Hand(t.op), t.closed, t.closes, |t.sessions|) && VideoOk(t.fields, t.issued) && FedOk(t.fields.session, t.installs, t.fed)
  {
  }

  lemma FenceAudioPast(s: State, stream: string, generation: nat, connection: nat, t: State)
    requires Inv(s) && FenceAudioStep(s, stream, generation, connection, t)
    ensures HistoryOk(t.fields, t.op, t.sessions, t.installs) && Increasing(t.sessions, t.installs)
    ensures TagsOk(t.fields, t.ingresses, t.batches, t.tags)
    ensures RunningOk(t.fields.ingress, t.op, t.ingresses, t.running, t.orphaned)
  {
  }

  lemma AdmitAudioInv(s: State, stream: string, generation: nat, connection: nat, ingress: nat, t: State)
    requires Inv(s) && AdmitAudioStep(s, stream, generation, connection, ingress, t)
    ensures Inv(t)
  {
  }

  lemma FeedInv(s: State, a: Action, t: State)
    requires Inv(s) && Step(s, a, t) && (a.IngestAudio? || a.Heard?)
    ensures Inv(t)
  {
  }

  lemma QuietInv(s: State, a: Action, t: State)
    requires Inv(s) && Step(s, a, t) && (a.Abandon? || a.GoWithout? || a.Launched? || a.EndDelivery? || a.CancelIngress?)
    ensures Inv(t)
  {
  }

  lemma AudioInv(s: State, a: Action, t: State)
    requires Inv(s) && Step(s, a, t) && (a.FenceAudio? || a.AdmitAudio? || a.IngestAudio? || a.Heard?)
    ensures Inv(t)
  {
    if a.FenceAudio? {
      FenceAudioNow(s, a.stream, a.generation, a.connection, t);
      FenceAudioPast(s, a.stream, a.generation, a.connection, t);
    } else if a.AdmitAudio? {
      AdmitAudioInv(s, a.stream, a.generation, a.connection, a.ingress, t);
    } else {
      FeedInv(s, a, t);
    }
  }

  lemma SessionInv(s: State, a: Action, t: State)
    requires Inv(s) && Step(s, a, t) && (a.Create? || a.Commit? || a.Swap? || a.CloseSession?)
    ensures Inv(t)
  {
    match a {
      case Create(broken) => CreateInv(s, broken, t);
      case Commit(h) => CommitNow(s, h, t); CommitPast(s, h, t); CommitOrder(s, h, t); CommitIngress(s, h, t);
      case Swap(expired, primary) => SwapNow(s, expired, primary, t); SwapPast(s, expired, primary, t);
      case CloseSession => CloseSessionInv(s, t);
    }
  }

  lemma JobInv(s: State, a: Action, t: State)
    requires Inv(s) && Step(s, a, t) && (a.StopBegin? || a.VideoFails? || a.LaunchFails? || a.Finish?)
    ensures Inv(t)
  {
    match a {
      case LaunchFails => LaunchFailsInv(s, t);
      case StopBegin(stream, wasStopped) => StopBeginInv(s, stream, wasStopped, t);
      case VideoFails(stream, generation) => VideoFailsInv(s, stream, generation, t);
      case Finish(recorded) => FinishInv(s, recorded, t);
    }
  }

  lemma BeginInv(s: State, a: Action, t: State)
    requires Inv(s) && Step(s, a, t) && (a.StartBegin? || a.UpdateBegin?)
    ensures Inv(t)
  {
    if a.StartBegin? {
      StartBeginInv(s, a.c, a.primary, t);
    } else {
      UpdateBeginInv(s, a.stream, t);
    }
  }

  lemma InvStep(s: State, a: Action, t: State)
    requires Inv(s) && Step(s, a, t)
    ensures Inv(t)
  {
    if a.StartBegin? || a.UpdateBegin? {
      BeginInv(s, a, t);
    } else if a.Create? || a.Commit? || a.Swap? || a.CloseSession? {
      SessionInv(s, a, t);
    } else if a.StopBegin? || a.VideoFails? || a.LaunchFails? || a.Finish? {
      JobInv(s, a, t);
    } else if a.FenceAudio? || a.AdmitAudio? || a.IngestAudio? || a.Heard? {
      AudioInv(s, a, t);
    } else {
      QuietInv(s, a, t);
    }
  }

  // ----- theorems over every run -----

  ghost predicate Run(states: seq<State>, actions: seq<Action>) {
    && |states| == |actions| + 1 && states[0] == INIT
    && forall i :: 0 <= i < |actions| ==> StepAt(states, actions, i)
  }

  ghost predicate StepAt(states: seq<State>, actions: seq<Action>, i: nat)
    requires |states| == |actions| + 1 && i < |actions|
  {
    Step(states[i], actions[i], states[i + 1])
  }

  lemma {:induction false} RunInv(states: seq<State>, actions: seq<Action>, n: nat)
    requires Run(states, actions) && n < |states|
    ensures Inv(states[n])
  {
    if n > 0 {
      RunInv(states, actions, n - 1);
      assert StepAt(states, actions, n - 1);
      InvStep(states[n - 1], actions[n - 1], states[n]);
    }
  }

  /** Of the sessions created so far, however each operation ended: every one is installed, in the hand
      of the operation in progress, or closed, and no session is ever closed twice. */
  lemma SessionAccounting(states: seq<State>, actions: seq<Action>, n: nat)
    requires Run(states, actions) && n < |states|
    ensures var s := states[n];
      && s.closes == |s.closed| && |s.sessions| == s.closes + Size(s.fields.session) + Size(Hand(s.op))
      && (s.op == Free ==> |s.sessions| == s.closes + Size(s.fields.session))
      && (forall x: nat :: x < |s.sessions| && s.fields.session != Some(x) && Hand(s.op) != Some(x) ==> x in s.closed)
      && (forall x: nat :: x in s.closed ==> s.fields.session != Some(x) && Hand(s.op) != Some(x))
  {
    RunInv(states, actions, n);
  }

  /** Between operations, an idle manager has no session, no ingress, no event delivery, and is not
      stopping; an active one that is not stopping has its event delivery. */
  lemma IdleHoldsNothing(states: seq<State>, actions: seq<Action>, n: nat)
    requires Run(states, actions) && n < |states| && states[n].op == Free
    ensures var f := states[n].fields;
      && (!Active(f) ==> f.session == None && f.ingress == None && f.connection == 0 && !f.delivering && !f.stopping)
      && (f.delivering <==> Active(f) && !f.stopping)
      && (f.stopping ==> f.session == None && f.ingress == None)
  {
    RunInv(states, actions, n);
  }

  /** Whenever a session is installed, its handler's pair is the current one, and neither is zero. */
  lemma HandlerCarriesCurrentPair(states: seq<State>, actions: seq<Action>, n: nat)
    requires Run(states, actions) && n < |states| && states[n].fields.session.Some?
    ensures var s := states[n]; var x := s.fields.session.value;
      && x < |s.sessions| && s.sessions[x] == Session(s.fields.current.stream, Pair(s.fields.jobGeneration, s.fields.sessionGeneration))
      && s.fields.jobGeneration > 0 && s.fields.sessionGeneration > 0
  {
    RunInv(states, actions, n);
  }

  /** Of any two installed sessions, the later has the greater session generation and no smaller job
      generation: the pairs strictly increase. */
  lemma InstalledPairsIncrease(states: seq<State>, actions: seq<Action>, n: nat, i: nat, j: nat)
    requires Run(states, actions) && n < |states| && i < j < |states[n].installs|
    ensures Before(states[n].sessions, states[n].installs[i], states[n].installs[j])
  {
    RunInv(states, actions, n);
  }

  /** A transcript from a session that was ever installed passes the fence exactly while that session
      is the installed one. */
  lemma TranscriptAcceptedIffInstalled(states: seq<State>, actions: seq<Action>, n: nat, x: nat)
    requires Run(states, actions) && n < |states| && x in states[n].installs
    ensures x < |states[n].sessions|
    ensures TranscriptSpec(states[n].fields, states[n].sessions[x].stream, states[n].sessions[x].pair) == None <==> states[n].fields.session == Some(x)
  {
    RunInv(states, actions, n);
  }

  /** The session was installed and has been taken out again. */
  ghost predicate Removed(s: State, x: nat) {
    x in s.installs && s.fields.session != Some(x)
  }

  lemma RemovedStays(s: State, a: Action, t: State, x: nat)
    requires Inv(s) && Step(s, a, t) && Removed(s, x)
    ensures Removed(t, x)
  {
  }

  lemma RunRemoved(states: seq<State>, actions: seq<Action>, n: nat, x: nat)
    requires Run(states, actions) && n < |actions| && Removed(states[n], x)
    ensures Removed(states[n + 1], x)
  {
    RunInv(states, actions, n);
    assert StepAt(states, actions, n);
    RemovedStays(states[n], actions[n], states[n + 1], x);
  }

  lemma {:induction false} RemovedForever(states: seq<State>, actions: seq<Action>, m: nat, n: nat, x: nat)
    requires Run(states, actions) && m <= n < |states| && Removed(states[m], x)
    ensures Removed(states[n], x)
  {
    if m < n {
      RemovedForever(states, actions, m, n - 1, x);
      RunRemoved(states, actions, n - 1, x);
    }
  }

  /** Once a stop, a video failure, a failed start or a replacement has taken a session out, its late
      transcripts are rejected from then on, through any later jobs. */
  lemma LateTranscriptRejected(states: seq<State>, actions: seq<Action>, m: nat, n: nat, x: nat)
    requires Run(states, actions) && m <= n < |states| && Removed(states[m], x)
    ensures x < |states[n].sessions|
    ensures TranscriptSpec(states[n].fields, states[n].sessions[x].stream, states[n].sessions[x].pair).Some?
  {
    RemovedForever(states, actions, m, n, x);
    TranscriptAcceptedIffInstalled(states, actions, n, x);
  }

  /** Whatever transcript arrives comes from a session that was installed, and is taken exactly while that
      session is the installed one. */
  lemma EveryTranscriptIsFenced(states: seq<State>, actions: seq<Action>, n: nat)
    requires Run(states, actions) && n < |actions| && actions[n].Heard?
    ensures actions[n].x in states[n].installs
    ensures actions[n].accepted <==> states[n].fields.session == Some(actions[n].x)
  {
    RunInv(states, actions, n);
    assert StepAt(states, actions, n);
    TranscriptAcceptedIffInstalled(states, actions, n, actions[n].x);
  }

  /** The fence of the retry loop lets a batch through exactly while its ingress is the current one. */
  lemma FenceIffIngressCurrent(states: seq<State>, actions: seq<Action>, n: nat, b: Accepted)
    requires Run(states, actions) && n < |states| && b in states[n].batches
    ensures AudioCurrent(states[n].fields, b.stream, b.job, b.connection, b.ingress) <==> states[n].fields.ingress == Some(b.ingress)
  {
    RunInv(states, actions, n);
  }

  /** All batches ever put in one ingress carry one job generation and one connection generation. */
  lemma IngressHomogeneous(states: seq<State>, actions: seq<Action>, n: nat, b: Accepted, c: Accepted)
    requires Run(states, actions) && n < |states| && b in states[n].batches && c in states[n].batches
    requires b.ingress == c.ingress
    ensures b.job == c.job && b.connection == c.connection
  {
    RunInv(states, actions, n);
  }

  /** A step never lowers the job generation, and within a job never lowers the connection generation. */
  ghost predicate Forward(f: Fields, g: Fields) {
    f.jobGeneration <= g.jobGeneration &&
    (f.jobGeneration == g.jobGeneration && Active(g) ==> Active(f) && f.connection <= g.connection)
  }

  lemma AudioForward(f: Fields, stream: string, generation: nat, connection: nat, unused: nat)
    requires FieldsOk(f)
    ensures Forward(f, FenceSpec(f, stream, generation, connection, unused).0)
  {
  }

  lemma StepForward(s: State, a: Action, t: State)
    requires Inv(s) && Step(s, a, t)
    ensures Forward(s.fields, t.fields)
  {
    match a {
      case FenceAudio(stream, generation, connection) => AudioForward(s.fields, stream, generation, connection, s.ingresses);
      case _ =>
    }
  }

  lemma RunForward(states: seq<State>, actions: seq<Action>, n: nat)
    requires Run(states, actions) && n < |actions|
    ensures Forward(states[n].fields, states[n + 1].fields)
  {
    RunInv(states, actions, n);
    assert StepAt(states, actions, n);
    StepForward(states[n], actions[n], states[n + 1]);
  }

  /** Between any two points of one active job the connection generation has not gone down. */
  lemma {:induction false} ConnectionNeverDecreases(states: seq<State>, actions: seq<Action>, m: nat, n: nat)
    requires Run(states, actions) && m <= n < |states|
    ensures Forward(states[m].fields, states[n].fields)
  {
    if m < n {
      ConnectionNeverDecreases(states, actions, m, n - 1);
      RunForward(states, actions, n - 1);
    }
  }

  /** While a stop is unfinished no report of a failed video output can take the job away from it, so
      a manager that is stopping always has the job a repeated stop will find. */
  lemma StoppingKeepsItsJob(states: seq<State>, actions: seq<Action>, n: nat, stream: string, generation: nat)
    requires Run(states, actions) && n < |states| && states[n].fields.stopping && generation <= states[n].issued
    ensures Active(states[n].fields) && FailVideoSpec(states[n].fields, stream, generation).1 == None
  {
    RunInv(states, actions, n);
  }

  /** No step of preparing a session touches the manager, so a failed update leaves the old session
      alone. The swap keeps the job, its connection generation and its delivery, installs exactly the
      prepared session with a new ingress, and takes on the old ones to tear down. */
  lemma UpdateSwapsOrChangesNothing(states: seq<State>, actions: seq<Action>, n: nat)
    requires Run(states, actions) && n < |actions|
    requires var a := actions[n]; a.UpdateBegin? || a.Abandon? || a.Create? || a.Swap?
    ensures var s, t := states[n], states[n + 1]; var f, g := s.fields, t.fields;
      g == f || (&& actions[n].Swap? && Hand(s.op).Some? && g.session == Hand(s.op) && g.ingress == Some(s.ingresses)
                 && g == f.(session := g.session, ingress := g.ingress, sessionGeneration := f.sessionGeneration + 1)
                 && t.op == TearDown(false, f.ingress, f.session, false))
  {
    RunInv(states, actions, n);
    assert StepAt(states, actions, n);
  }

  // ----- which ingresses keep running -----

  /** A video start fails after audio has replaced the ingress the start had created. */
  ghost predicate Loses(s: State, a: Action) {
    a.LaunchFails? && s.op.Launching? && s.fields.ingress != s.op.ingress
  }

  lemma OrphansKept(s: State, a: Action, t: State)
    requires Step(s, a, t) && !a.LaunchFails?
    ensures t.orphaned == s.orphaned
  {
  }

  lemma LaunchOrphans(s: State, t: State)
    requires OpOk(s.fields, s.op) && FieldsOk(s.fields) && LaunchFailsStep(s, t)
    ensures t.orphaned != {} <==> s.orphaned != {} || s.fields.ingress != s.op.ingress
  {
    if s.fields.ingress != s.op.ingress {
      assert s.fields.ingress.value in t.orphaned;
    }
  }

  lemma StepOrphans(s: State, a: Action, t: State)
    requires Inv(s) && Step(s, a, t)
    ensures t.orphaned != {} <==> s.orphaned != {} || Loses(s, a)
  {
    if a.LaunchFails? {
      LaunchOrphans(s, t);
    } else {
      OrphansKept(s, a, t);
    }
  }

  lemma RunOrphans(states: seq<State>, actions: seq<Action>, n: nat)
    requires Run(states, actions) && n < |actions|
    ensures states[n + 1].orphaned != {} <==> states[n].orphaned != {} || Loses(states[n], actions[n])
  {
    RunInv(states, actions, n);
    assert StepAt(states, actions, n);
    StepOrphans(states[n], actions[n], states[n + 1]);
  }

  lemma {:induction false} OrphansIff(states: seq<State>, actions: seq<Action>, n: nat)
    requires Run(states, actions) && n < |states|
    ensures states[n].orphaned != {} <==> exists i :: 0 <= i < n && Loses(states[i], actions[i])
  {
    if n > 0 {
      OrphansIff(states, actions, n - 1);
      RunOrphans(states, actions, n - 1);
    }
  }

  /** An idle manager has stopped every ingress it ever created, if and only if no video start failed
      after audio had replaced the ingress of that start. */
  lemma IdleIngressesStoppedIff(states: seq<State>, actions: seq<Action>, n: nat)
    requires Run(states, actions) && n < |states| && states[n].op == Free && !Active(states[n].fields)
    ensures states[n].running == {} <==> !exists i :: 0 <= i < n && Loses(states[i], actions[i])
  {
    RunInv(states, actions, n);
    OrphansIff(states, actions, n);
    assert states[n].running == states[n].orphaned;
  }

  lemma Extend(states: seq<State>, actions: seq<Action>, a: Action, t: State)
    requires Run(states, actions) && Step(states[|actions|], a, t)
    ensures Run(states + [t], actions + [a])
  {
    forall i | 0 <= i < |actions| + 1 ensures StepAt(states + [t], actions + [a], i) {
      assert i < |actions| ==> StepAt(states, actions, i);
    }
  }

  const VIDEO: Context := Context("s", true)
  const STARTING: Fields := Fields(VIDEO, false, 1, 1, Some(0), Some(0), 0, true)
  const FAILED: Fields := Fields(IDLE, false, 1, 1, None, None, 0, false)

  /** The stream's output is starting, with its session and the first ingress. */
  const LAUNCHING: State :=
    State(STARTING, Launching(VIDEO, Some(0), Some(0)), [Session("s", Pair(1, 1))], {}, 0, [0], 1, {0}, {}, [], map[], 1, {})

  /** Two connections have sent audio meanwhile. */
  const RACED: State :=
    LAUNCHING.(fields := STARTING.(connection := 2, ingress := Some(1)), ingresses := 2, running := {1})

  lemma RunToLaunching() returns (states: seq<State>, actions: seq<Action>)
    ensures Run(states, actions) && states[|actions|] == LAUNCHING
  {
    var s1 := INIT.(op := Preparing(ForStart(VIDEO), Pair(1, 1)));
    var s2 := s1.(op := Prepared(ForStart(VIDEO), Pair(1, 1), Some(0)), sessions := [Session("s", Pair(1, 1))]);
    var commit := Commit(Host(true, true, true, true));
    Extend([INIT], [], StartBegin(VIDEO, true), s1);
    Extend([INIT] + [s1], [] + [StartBegin(VIDEO, true)], Create(false), s2);
    states, actions := [INIT] + [s1] + [s2], [] + [StartBegin(VIDEO, true)] + [Create(false)];
    assert CommitStep(s2, commit.h, LAUNCHING);
    Extend(states, actions, commit, LAUNCHING);
    states, actions := states + [LAUNCHING], actions + [commit];
  }

  lemma RunToRaced() returns (states: seq<State>, actions: seq<Action>)
    ensures Run(states, actions) && states[|actions|] == RACED
  {
    states, actions := RunToLaunching();
    var s4 := LAUNCHING.(fields := STARTING.(connection := 1));
    var first, second := FenceAudio("s", 1, 1), FenceAudio("s", 1, 2);
    assert FenceAudioStep(LAUNCHING, "s", 1, 1, s4);
    Extend(states, actions, first, s4);
    states, actions := states + [s4], actions + [first];
    assert FenceAudioStep(s4, "s", 1, 2, RACED);
    Extend(states, actions, second, RACED);
    states, actions := states + [RACED], actions + [second];
  }

  /** That does happen: two connections send audio while the video output is starting, and the start
      then fails. The manager ends idle with the second ingress still running. */
  lemma IngressOutlivesFailedStart() returns (states: seq<State>, actions: seq<Action>)
    ensures Run(states, actions)
    ensures states[|actions|].op == Free && !Active(states[|actions|].fields) && states[|actions|].running == {1}
  {
    states, actions := RunToRaced();
    var s6 := RACED.(fields := FAILED.(delivering := true), op := TearDown(true, Some(0), Some(0), false), orphaned := {1});
    var s7 := s6.(fields := FAILED, op := TearDown(false, Some(0), Some(0), false));
    var s8 := s7.(op := TearDown(false, None, Some(0), false));
    var s9 := s8.(op := TearDown(false, None, None, false), closed := {0}, closes := 1);
    assert LaunchFailsStep(RACED, s6);
    Extend(states, actions, LaunchFails, s6);
    states, actions := states + [s6], actions + [LaunchFails];
    Extend(states, actions, EndDelivery, s7);
    states, actions := states + [s7], actions + [EndDelivery];
    Extend(states, actions, CancelIngress, s8);
    states, actions := states + [s8], actions + [CancelIngress];
    Extend(states, actions, CloseSession, s9);
    states, actions := states + [s9], actions + [CloseSession];
    Extend(states, actions, Finish(true), s9.(op := Free));
    states, actions := states + [s9.(op := Free)], actions + [Finish(true)];
  }
}
