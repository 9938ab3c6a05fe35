// The fields of the job manager that decide which job, caption session and audio ingress are current,
// and the sections under Manager.mu that change or test them.
module Lifecycle {
  import opened Text

  /** The current stream; the stream ID is empty while the manager is idle. */
  datatype Context = Context(stream: string, video: bool)

  const IDLE: Context := Context("", false)

  /** Sessions and ingresses are known by their number; delivering says whether an event loop runs. */
  datatype Fields = Fields(current: Context, stopping: bool, jobGeneration: nat, sessionGeneration: nat,
                           session: Option<nat>, ingress: Option<nat>, connection: nat, delivering: bool)

  datatype Error =
    | NoActiveJob | AlreadyActive | NotAssigned | StreamRequired | StreamMismatch | AlreadyStopped | Stopping
    | JobGenerationMismatch | SessionGenerationMismatch | ReceiptUnavailable | Incapable | NotConfigured
    | AudioUnavailable | ConnectionStale

  datatype Outcome<T> = Refused(error: Error) | Done(value: T)

  /** What a section took out of the manager for its caller to close. */
  datatype Taken = Taken(stream: string, session: Option<nat>, ingress: Option<nat>)

  /** The generation pair a new session's transcript handler will carry. */
  datatype Pair = Pair(job: nat, generation: nat)

  const NEW: Fields := Fields(IDLE, false, 0, 0, None, None, 0, false)

  // ----- what each section does -----

  /** ensureStreamLocked */
  function EnsureStream(f: Fields, stream: string): (e: Option<Error>)
    ensures e == None <==> stream != "" && stream == f.current.stream && !f.stopping
  {
    if f.current.stream == "" then Some(NoActiveJob)
    else if f.stopping then Some(Stopping)
    else if stream == "" then Some(StreamRequired)
    else if stream != f.current.stream then Some(StreamMismatch)
    else None
  }

  function StartCheckSpec(f: Fields, primary: bool): (r: Outcome<Pair>)
    ensures r.Done? <==> primary && f.current.stream == ""
  {
    if !primary then Refused(NotAssigned)
    else if f.current.stream != "" then Refused(AlreadyActive)
    else Done(Pair(f.jobGeneration + 1, f.sessionGeneration + 1))
  }

  /** What else decides a start: assignment, the receipt file, the renderer and output the stream
      asks for, and whether the renderer takes the appearance. */
  datatype Host = Host(primary: bool, forgotten: bool, capable: bool, configured: bool)

  datatype Commit = NotStarted(error: Error) | RolledBack | Running(generation: nat, ingress: Option<nat>)

  function CommitSpec(f: Fields, c: Context, session: Option<nat>, next: nat, h: Host, unused: nat): (r: (Fields, Commit))
    ensures r.1.NotStarted? ==> r.0 == f
    ensures r.1.Running? <==> h == Host(true, true, true, true) && f.current.stream == ""
    ensures r.1.Running? ==> r.0.jobGeneration == r.1.generation && r.0.current == c && r.0.session == session
    ensures r.1.Running? ==> r.0.jobGeneration == f.jobGeneration + 1 && r.0.sessionGeneration == next && r.0.delivering && r.0.connection == 0
    ensures r.1.Running? && session.Some? ==> r.0.ingress == r.1.ingress == Some(unused)
    ensures r.1.RolledBack? ==> r.0.current == IDLE && r.0.session == None
  {
    if !h.primary then (f, NotStarted(NotAssigned))
    else if f.current.stream != "" then (f, NotStarted(AlreadyActive))
    else if !h.forgotten then (f, NotStarted(ReceiptUnavailable))
    else
      var g := f.(jobGeneration := f.jobGeneration + 1, sessionGeneration := next, delivering := true);
      if !h.capable then (g.(current := IDLE, session := None), RolledBack)
      else if !h.configured then (g.(current := IDLE, session := None, ingress := None), RolledBack)
      else
        (g.(current := c, session := session, ingress := if session.Some? then Some(unused) else f.ingress, connection := 0),
         Running(g.jobGeneration, if session.Some? then Some(unused) else None))
  }

  function LaunchFailedSpec(f: Fields, stream: string): Fields {
    if f.current.stream == stream then f.(current := IDLE, session := None, ingress := None, connection := 0) else f
  }

  function StopBeginSpec(f: Fields, stream: string, wasStopped: bool): (r: (Fields, Outcome<Taken>))
    ensures r.1.Refused? ==> r.0 == f
    ensures r.1.Done? <==> f.current.stream != "" && (stream == "" || stream == f.current.stream)
    ensures r.1.Done? ==> r.0.session == None && r.0.ingress == None && r.1.value == Taken(f.current.stream, f.session, f.ingress)
    ensures r.1.Done? ==> r.0.jobGeneration > f.jobGeneration && EnsureStream(r.0, f.current.stream) == Some(Stopping)
    ensures r.1 == Refused(AlreadyStopped) <==> stream != "" && stream != f.current.stream && wasStopped
  {
    if f.current.stream == "" then (f, Refused(if stream != "" && wasStopped then AlreadyStopped else NoActiveJob))
    else if stream != "" && stream != f.current.stream then (f, Refused(if wasStopped then AlreadyStopped else StreamMismatch))
    else (f.(session := None, ingress := None, sessionGeneration := f.sessionGeneration + 1, connection := 0,
             stopping := true, jobGeneration := f.jobGeneration + 1),
          Done(Taken(f.current.stream, f.session, f.ingress)))
  }

  function StopFinishSpec(f: Fields, recorded: bool): (r: Fields)
    ensures recorded ==> r.current == IDLE && EnsureStream(r, f.current.stream) == Some(NoActiveJob)
    ensures !recorded ==> r.stopping == f.stopping && r.current == f.current
    ensures r.jobGeneration == f.jobGeneration && r.session == f.session && r.ingress == f.ingress
  {
    if recorded then f.(current := IDLE, stopping := false) else f
  }

  function UpdateCheckSpec(f: Fields, stream: string): (r: Outcome<Pair>)
    ensures stream != "" ==> (r.Done? <==> EnsureStream(f, stream) == None)
  {
    if f.current.stream == "" then Refused(NoActiveJob)
    else if f.stopping then Refused(Stopping)
    else if f.current.stream != stream then Refused(StreamMismatch)
    else Done(Pair(f.jobGeneration, f.sessionGeneration + 1))
  }

  function SwapSpec(f: Fields, stream: string, pair: Pair, primary: bool, session: nat, unused: nat): (r: (Fields, Outcome<Taken>))
    ensures r.1.Refused? ==> r.0 == f
    ensures stream != "" ==> (r.1.Done? <==> EnsureStream(f, stream) == None && f.jobGeneration == pair.job && primary)
  {
    if f.current.stream == "" then (f, Refused(NoActiveJob))
    else if f.stopping then (f, Refused(Stopping))
    else if f.current.stream != stream then (f, Refused(StreamMismatch))
    else if f.jobGeneration != pair.job then (f, Refused(JobGenerationMismatch))
    else if !primary then (f, Refused(NotAssigned))
    else (f.(session := Some(session), ingress := Some(unused), sessionGeneration := pair.generation), Done(Taken(stream, f.session, f.ingress)))
  }

  function FailVideoSpec(f: Fields, stream: string, generation: nat): (r: (Fields, Option<Taken>))
    ensures r.1.None? ==> r.0 == f
    ensures r.1.Some? <==> f.current.stream == stream && f.jobGeneration == generation && f.current.video
    ensures r.1.Some? ==> r.0.current == IDLE && r.0.session == None && r.0.ingress == None && r.1 == Some(Taken(stream, f.session, f.ingress))
    ensures r.1.Some? ==> r.0.jobGeneration > generation && r.0.sessionGeneration > f.sessionGeneration
  {
    if f.current.stream != stream || f.jobGeneration != generation || !f.current.video then (f, None)
    else (f.(current := IDLE, session := None, ingress := None, sessionGeneration := f.sessionGeneration + 1,
             connection := 0, jobGeneration := f.jobGeneration + 1),
          Some(Taken(stream, f.session, f.ingress)))
  }

  /** The ingress a batch is to go to, and the one it superseded. */
  datatype Fence = Fence(ingress: nat, superseded: Option<nat>)

  function FenceSpec(f: Fields, stream: string, generation: nat, connection: nat, unused: nat): (r: (Fields, Outcome<Fence>))
    ensures r.1.Refused? ==> r.0 == f
    ensures r.1.Done? <==> EnsureStream(f, stream) == None && generation == f.jobGeneration && f.session.Some? && f.ingress.Some? && f.connection <= connection
    ensures r.1.Done? ==> AdmitSpec(r.0, stream, generation, connection, r.1.value.ingress) == None
    ensures r.1.Done? ==> (r.1.value.superseded.Some? <==> 0 < f.connection < connection)
  {
    if EnsureStream(f, stream).Some? then (f, Refused(EnsureStream(f, stream).value))
    else if generation != f.jobGeneration then (f, Refused(JobGenerationMismatch))
    else if f.session.None? then (f, Refused(NotConfigured))
    else if f.ingress.None? then (f, Refused(AudioUnavailable))
    else if f.connection > connection then (f, Refused(ConnectionStale))
    else if f.connection == 0 then (f.(connection := connection), Done(Fence(f.ingress.value, None)))
    else if connection > f.connection then (f.(ingress := Some(unused), connection := connection), Done(Fence(unused, f.ingress)))
    else (f, Done(Fence(f.ingress.value, None)))
  }

  function AdmitSpec(f: Fields, stream: string, generation: nat, connection: nat, ingress: nat): (e: Option<Error>)
    ensures e == None <==> EnsureStream(f, stream) == None && generation == f.jobGeneration && f.session.Some? && connection == f.connection && f.ingress == Some(ingress)
  {
    if EnsureStream(f, stream).Some? then EnsureStream(f, stream)
    else if generation != f.jobGeneration then Some(JobGenerationMismatch)
    else if f.session.None? then Some(NotConfigured)
    else if f.connection > connection then Some(ConnectionStale)
    else if f.connection != connection || f.ingress != Some(ingress) then Some(AudioUnavailable)
    else None
  }

  /** captionAudioGenerationCurrent: the ingress a batch was put in is still the one its stream uses. */
  predicate AudioCurrent(f: Fields, stream: string, generation: nat, connection: nat, ingress: nat) {
    f.current.stream == stream && f.jobGeneration == generation && f.connection == connection && f.ingress == Some(ingress) && !f.stopping
  }

  /** The session an attempt gives its audio to; zero stands for no expectation. */
  function SessionForAudio(f: Fields, stream: string, generation: nat, connection: nat): (r: Outcome<nat>)
    ensures r.Done? ==> f.session == Some(r.value)
    ensures r.Done? <==> (&& EnsureStream(f, stream) == None && f.session.Some? && generation in {0, f.jobGeneration} && connection in {0, f.connection})
  {
    if EnsureStream(f, stream).Some? then Refused(EnsureStream(f, stream).value)
    else if generation != 0 && generation != f.jobGeneration then Refused(JobGenerationMismatch)
    else if connection != 0 && connection != f.connection then Refused(ConnectionStale)
    else if f.session.None? then Refused(NotConfigured)
    else Done(f.session.value)
  }

  /** The fence every transcript passes; zero stands for no expectation. */
  function TranscriptSpec(f: Fields, stream: string, pair: Pair): (e: Option<Error>)
    ensures e == None <==> EnsureStream(f, stream) == None && (pair.job == 0 || pair.job == f.jobGeneration) && (pair.generation == 0 || pair.generation == f.sessionGeneration)
  {
    if EnsureStream(f, stream).Some? then EnsureStream(f, stream)
    else if pair.job != 0 && pair.job != f.jobGeneration then Some(JobGenerationMismatch)
    else if pair.generation != 0 && pair.generation != f.sessionGeneration then Some(SessionGenerationMismatch)
    else None
  }

  // ----- the sections themselves -----

  class Manager {
    var current: Context
    var stopping: bool
    var jobGeneration: nat
    var sessionGeneration: nat
    var session: Option<nat>
    var ingress: Option<nat>
    var connection: nat
    var delivering: bool

    function View(): Fields
      reads this
    {
      Fields(current, stopping, jobGeneration, sessionGeneration, session, ingress, connection, delivering)
    }

    constructor ()
      ensures View() == NEW
    {
      current, stopping, jobGeneration, sessionGeneration := IDLE, false, 0, 0;
      session, ingress, connection, delivering := None, None, 0, false;
    }

    method EnsureStreamLocked(stream: string) returns (e: Option<Error>)
      ensures e == EnsureStream(View(), stream)
    {
      if current.stream == "" {
        return Some(NoActiveJob);
      }
      if stopping {
        return Some(Stopping);
      }
      if stream == "" {
        return Some(StreamRequired);
      }
      if stream != current.stream {
        return Some(StreamMismatch);
      }
      return None;
    }

    method StartCheck(primary: bool) returns (r: Outcome<Pair>)
      ensures r == StartCheckSpec(View(), primary)
    {
      if !primary {
        return Refused(NotAssigned);
      }
      if current.stream != "" {
        return Refused(AlreadyActive);
      }
      r := Done(Pair(jobGeneration + 1, sessionGeneration + 1));
    }

    method StartCommit(c: Context, caption: Option<nat>, next: nat, h: Host, unused: nat) returns (r: Commit)
      modifies this
      ensures (View(), r) == CommitSpec(old(View()), c, caption, next, h, unused)
    {
      if !h.primary {
        return NotStarted(NotAssigned);
      }
      if current.stream != "" {
        return NotStarted(AlreadyActive);
      }
      if !h.forgotten {
        return NotStarted(ReceiptUnavailable);
      }
      current := c;
      jobGeneration := jobGeneration + 1;
      sessionGeneration := next;
      delivering := true;
      session := caption;
      if !h.capable {
        current, session := IDLE, None;
        return RolledBack;
      }
      if !h.configured {
        current, session, ingress := IDLE, None, None;
        return RolledBack;
      }
      if session.Some? {
        ingress := Some(unused);
      }
      connection := 0;
      r := Running(jobGeneration, if session.Some? then ingress else None);
    }

    method LaunchFailed(stream: string)
      modifies this
      ensures View() == LaunchFailedSpec(old(View()), stream)
    {
      if current.stream == stream {
        current, session, ingress, connection := IDLE, None, None, 0;
      }
    }

    method StopBegin(stream: string, wasStopped: bool) returns (r: Outcome<Taken>)
      modifies this
      ensures (View(), r) == StopBeginSpec(old(View()), stream, wasStopped)
    {
      if current.stream == "" {
        return Refused(if stream != "" && wasStopped then AlreadyStopped else NoActiveJob);
      }
      if stream != "" && stream != current.stream {
        return Refused(if wasStopped then AlreadyStopped else StreamMismatch);
      }
      r := Done(Taken(current.stream, session, ingress));
      session, ingress := None, None;
      sessionGeneration := sessionGeneration + 1;
      connection := 0;
      stopping := true;
      jobGeneration := jobGeneration + 1;
    }

    method StopFinish(recorded: bool)
      modifies this
      ensures View() == StopFinishSpec(old(View()), recorded)
    {
      if recorded {
        current, stopping := IDLE, false;
      }
    }

    method StopDelivery()
      modifies this`delivering
      ensures View() == old(View()).(delivering := false)
    {
      delivering := false;
    }

    method UpdateCheck(stream: string) returns (r: Outcome<Pair>)
      ensures r == UpdateCheckSpec(View(), stream)
    {
      if current.stream == "" {
        return Refused(NoActiveJob);
      }
      if stopping {
        return Refused(Stopping);
      }
      if current.stream != stream {
        return Refused(StreamMismatch);
      }
      r := Done(Pair(jobGeneration, sessionGeneration + 1));
    }

    method UpdateSwap(stream: string, pair: Pair, primary: bool, caption: nat, unused: nat) returns (r: Outcome<Taken>)
      modifies this
      ensures (View(), r) == SwapSpec(old(View()), stream, pair, primary, caption, unused)
    {
      if current.stream == "" {
        return Refused(NoActiveJob);
      }
      if stopping {
        return Refused(Stopping);
      }
      if current.stream != stream {
        return Refused(StreamMismatch);
      }
      if jobGeneration != pair.job {
        return Refused(JobGenerationMismatch);
      }
      if !primary {
        return Refused(NotAssigned);
      }
      r := Done(Taken(stream, session, ingress));
      session, ingress, sessionGeneration := Some(caption), Some(unused), pair.generation;
    }

    method FailVideo(stream: string, generation: nat) returns (r: Option<Taken>)
      modifies this
      ensures (View(), r) == FailVideoSpec(old(View()), stream, generation)
    {
      if current.stream != stream || jobGeneration != generation || !current.video {
        return None;
      }
      r := Some(Taken(stream, session, ingress));
      current, session, ingress := IDLE, None, None;
      sessionGeneration := sessionGeneration + 1;
      connection := 0;
      jobGeneration := jobGeneration + 1;
    }

    method FenceAudio(stream: string, generation: nat, incoming: nat, unused: nat) returns (r: Outcome<Fence>)
      modifies this
      ensures (View(), r) == FenceSpec(old(View()), stream, generation, incoming, unused)
    {
      var e := EnsureStreamLocked(stream);
      if e.Some? {
        return Refused(e.value);
      }
      if generation != jobGeneration {
        return Refused(JobGenerationMismatch);
      }
      if session.None? {
        return Refused(NotConfigured);
      }
      if ingress.None? {
        return Refused(AudioUnavailable);
      }
      if connection > incoming {
        return Refused(ConnectionStale);
      }
      var superseded := None;
      var target := ingress.value;
      if connection == 0 {
        connection := incoming;
      } else if incoming > connection {
        superseded, target := Some(target), unused;
        ingress, connection := Some(target), incoming;
      }
      r := Done(Fence(target, superseded));
    }

    method AdmitAudio(stream: string, generation: nat, incoming: nat, target: nat) returns (e: Option<Error>)
      ensures e == AdmitSpec(View(), stream, generation, incoming, target)
    {
      e := EnsureStreamLocked(stream);
      if e.Some? {
        return;
      }
      if generation != jobGeneration {
        return Some(JobGenerationMismatch);
      }
      if session.None? {
        return Some(NotConfigured);
      }
      if connection > incoming {
        return Some(ConnectionStale);
      }
      if connection != incoming || ingress != Some(target) {
        return Some(AudioUnavailable);
      }
      return None;
    }

    method IsAudioCurrent(stream: string, generation: nat, incoming: nat, target: nat) returns (r: bool)
      ensures r == AudioCurrent(View(), stream, generation, incoming, target)
    {
      r := current.stream == stream && jobGeneration == generation && connection == incoming && ingress == Some(target) && !stopping;
    }

    method TakeSession(stream: string, generation: nat, incoming: nat) returns (r: Outcome<nat>)
      ensures r == SessionForAudio(View(), stream, generation, incoming)
    {
      var e := EnsureStreamLocked(stream);
      if e.Some? {
        return Refused(e.value);
      }
      if generation != 0 && generation != jobGeneration {
        return Refused(JobGenerationMismatch);
      }
      if incoming != 0 && incoming != connection {
        return Refused(ConnectionStale);
      }
      if session.None? {
        return Refused(NotConfigured);
      }
      r := Done(session.value);
    }

    method AdmitTranscript(stream: string, pair: Pair) returns (e: Option<Error>)
      ensures e == TranscriptSpec(View(), stream, pair)
    {
      e := EnsureStreamLocked(stream);
      if e.Some? {
        return;
      }
      if pair.job != 0 && pair.job != jobGeneration {
        return Some(JobGenerationMismatch);
      }
      if pair.generation != 0 && pair.generation != sessionGeneration {
        return Some(SessionGenerationMismatch);
      }
      return None;
    }
  }
}
