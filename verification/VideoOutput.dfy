// One scene frame session: the writer that feeds frames to the connection, and the shutdown that ends
// it. Each step is what happens between two points where another goroutine can come in.
module VideoOutput {
  import opened Text
  import opened ChunkScan

  const MAX_FRAME: nat := 16777216

  // ----- writing one frame -----

  /** What a Write call does: how much it takes, how much it says it took, and whether it fails. */
  datatype Reply = Reply(taken: nat, reported: int, failed: bool)

  /** A writer that reports an honest success took what it reported. */
  predicate Honest(r: Reply, n: nat) {
    r.taken <= n && (!r.failed && 0 < r.reported <= n ==> r.taken == r.reported)
  }

  /** A reply that WriteFull goes on after. */
  predicate Sound(r: Reply, n: nat) {
    !r.failed && 0 < r.reported <= n
  }

  datatype WriteError = WriteFailed | ShortWrite

  /** The connection, as far as what was sent on it. */
  class Wire {
    const replies: (nat, nat) -> Reply
    var calls: nat
    var sent: seq<Byte>

    constructor (replies: (nat, nat) -> Reply)
      ensures sent == [] && this.replies == replies
    {
      this.replies, calls, sent := replies, 0, [];
    }

    method Write(data: seq<Byte>) returns (n: int, failed: bool)
      requires Honest(replies(calls, |data|), |data|)
      modifies this
      ensures calls == old(calls) + 1 && n == replies(old(calls), |data|).reported && failed == replies(old(calls), |data|).failed
      ensures exists k :: 0 <= k <= |data| && sent == old(sent) + data[..k] && (!failed && 0 < n <= |data| ==> k == n)
    {
      var r := replies(calls, |data|);
      sent := sent + data[..r.taken];
      calls := calls + 1;
      n, failed := r.reported, r.failed;
    }

    /** One of these calls was not answered soundly. */
    ghost predicate Stopped(from: nat, to: nat) {
      exists c, n: nat :: from <= c < to && n > 0 && !Sound(replies(c, n), n)
    }

    /** writeFull: on success exactly the data was sent, on failure a prefix of it. It fails only
        if a call of Write does, or reports nothing or too much. */
    method WriteFull(data: seq<Byte>) returns (e: Option<WriteError>)
      requires forall c, n :: Honest(replies(c, n), n)
      modifies this
      ensures e.None? ==> sent == old(sent) + data
      ensures e.Some? ==> exists k :: 0 <= k <= |data| && sent == old(sent) + data[..k]
      ensures old(calls) <= calls && (e.Some? ==> Stopped(old(calls), calls))
    {
      var rest := data;
      ghost var done := 0;
      while |rest| > 0
        invariant 0 <= done <= |data| && rest == data[done..] && sent == old(sent) + data[..done] && old(calls) <= calls
        decreases |rest|
      {
        ghost var before := sent;
        var n, failed := Write(rest);
        assert !Sound(replies(calls - 1, |rest|), |rest|) ==> Stopped(old(calls), calls);
        ghost var k :| 0 <= k <= |rest| && sent == before + rest[..k] && (!failed && 0 < n <= |rest| ==> k == n);
        assert data[..done] + rest[..k] == data[..done + k];
        if failed {
          return Some(WriteFailed);
        }
        if n <= 0 || n > |rest| {
          return Some(ShortWrite);
        }
        rest, done := rest[n..], done + n;
      }
      assert data[..done] == data;
      return None;
    }
  }

  // ----- rendering one frame -----

  /** What rendering and encoding the scene lead to. */
  datatype Scene = Unrendered | Rendered(width: int, height: int, encoded: Option<seq<Byte>>)

  datatype FrameError = SceneFrameRender | FrameShapeMismatch | JpegEncode | JpegSize | TransportStopped | SrtWrite

  /** Why a scene never gets as far as the connection, if so. */
  function SceneError(scene: Scene, width: int, height: int): (e: Option<FrameError>)
    ensures e.None? <==> (
              && scene.Rendered? && scene.width == width && scene.height == height
              && scene.encoded.Some? && 0 < |scene.encoded.value| <= 16 * 1024 * 1024)
  {
    if scene.Unrendered? then Some(SceneFrameRender)
    else if scene.width != width || scene.height != height then Some(FrameShapeMismatch)
    else if scene.encoded.None? then Some(JpegEncode)
    else if scene.encoded.value == [] || |scene.encoded.value| > MAX_FRAME then Some(JpegSize)
    else None
  }

  class Session {
    const wire: Wire
    var stopping: bool
    var bytes: nat
    var first: bool

    constructor (wire: Wire)
      ensures this.wire == wire && !stopping && bytes == 0 && !first
    {
      this.wire, stopping, bytes, first := wire, false, 0, false;
    }

    /** renderFrame: nothing is sent unless the scene is fit to send and the session is not stopping; the
        counter and the signal for the first frame move only when the whole frame was sent. */
    method RenderFrame(scene: Scene, width: int, height: int) returns (e: Option<FrameError>)
      requires forall c, n :: Honest(wire.replies(c, n), n)
      modifies wire, this`bytes, this`first
      ensures var refused := SceneError(scene, width, height);
        if refused.Some? then e == refused else if stopping then e == Some(TransportStopped) else e == None || e == Some(SrtWrite)
      ensures e.None? ==>
                && wire.sent == old(wire.sent) + scene.encoded.value && first && bytes == old(bytes) + |scene.encoded.value|
      ensures e == Some(SrtWrite) ==> wire.Stopped(old(wire.calls), wire.calls)
      ensures e == Some(SrtWrite) ==> exists k :: 0 <= k <= |scene.encoded.value| && wire.sent == old(wire.sent) + scene.encoded.value[..k]
      ensures e.Some? && e != Some(SrtWrite) ==> wire.sent == old(wire.sent)
      ensures e.Some? ==> bytes == old(bytes) && first == old(first)
    {
      e := SceneError(scene, width, height);
      if e.Some? {
        return;
      }
      if stopping {
        return Some(TransportStopped);
      }
      var failed := wire.WriteFull(scene.encoded.value);
      if failed.Some? {
        return Some(SrtWrite);
      }
      bytes, first := bytes + |scene.encoded.value|, true;
    }
  }

  // ----- the writer -----

  /** An exited writer is remembered with the frame whose write failed, and how much of it went. */
  datatype Writer =
    | Rendering | Waiting(frame: seq<Byte>) | Locked(frame: seq<Byte>) | Checked(frame: seq<Byte>)
    | Writing(frame: seq<Byte>, done: nat) | Exited(frame: seq<Byte>, done: nat)

  const QUIT: Writer := Exited([], 0)

  /** Everything sent, the frames written in full, the byte counter, and whether first is closed. */
  datatype Feed = Feed(writer: Writer, sent: seq<Byte>, frames: seq<seq<Byte>>, bytes: nat, first: bool, errors: nat)

  const FRESH: Feed := Feed(Rendering, [], [], 0, false, 0)

  predicate HoldsLock(w: Writer) {
    w.Locked? || w.Checked? || w.Writing?
  }

  datatype WriterStep =
    | Render(frame: seq<Byte>) | RenderFails | Quit | Lock | Check | Begin | Send(n: nat) | SendFails(n: nat) | Complete

  /** The error channel holds two; more are dropped. */
  function Signalled(errors: nat): nat {
    if errors < 2 then errors + 1 else errors
  }

  ghost predicate WriterStepped(f: Feed, stopping: bool, a: WriterStep, g: Feed) {
    var w := f.writer;
    match a
    case Render(frame) => w.Rendering? && 0 < |frame| <= MAX_FRAME && g == f.(writer := Waiting(frame))
    case RenderFails => w.Rendering? && g == f.(writer := QUIT, errors := Signalled(f.errors))
    case Quit => w.Rendering? && stopping && g == f.(writer := QUIT)
    case Lock => w.Waiting? && g == f.(writer := Locked(w.frame))
    case Check =>
      w.Locked? && g == if stopping then f.(writer := QUIT, errors := Signalled(f.errors)) else f.(writer := Checked(w.frame))
    case Begin => w.Checked? && g == f.(writer := Writing(w.frame, 0))
    case Send(n) =>
      w.Writing? && w.done + n <= |w.frame| &&
      g == f.(writer := Writing(w.frame, w.done + n), sent := f.sent + w.frame[w.done..w.done + n])
    case SendFails(n) =>
      w.Writing? && w.done + n <= |w.frame| &&
      g == f.(writer := Exited(w.frame, w.done + n), sent := f.sent + w.frame[w.done..w.done + n], errors := Signalled(f.errors))
    case Complete =>
      w.Writing? && w.done == |w.frame| &&
      g == f.(writer := Rendering, frames := f.frames + [w.frame], bytes := f.bytes + |w.frame|, first := true)
  }

  function Flat(frames: seq<seq<Byte>>): seq<Byte> {
    if frames == [] then [] else Flat(frames[..|frames| - 1]) + frames[|frames| - 1]
  }

  lemma FlatAppend(frames: seq<seq<Byte>>, frame: seq<Byte>)
    ensures Flat(frames + [frame]) == Flat(frames) + frame
  {
    assert (frames + [frame])[..|frames|] == frames;
  }

  /** What was sent is whole frames, one after another, then the first k bytes of one frame more. */
  ghost predicate SentUpTo(f: Feed, frame: seq<Byte>, k: nat) {
    |frame| <= MAX_FRAME && k <= |frame| && f.sent == Flat(f.frames) + frame[..k]
  }

  /** The one frame more is the frame being written, or the one whose write failed, after which nothing
      follows. */
  ghost predicate FeedOk(f: Feed) {
    && f.bytes == |Flat(f.frames)| && (f.first <==> f.frames != [])
    && match f.writer
       case Rendering => f.sent == Flat(f.frames)
       case Writing(frame, done) => SentUpTo(f, frame, done)
       case Exited(frame, done) => SentUpTo(f, frame, done)
       case Waiting(frame) => |frame| <= MAX_FRAME && f.sent == Flat(f.frames)
       case Locked(frame) => |frame| <= MAX_FRAME && f.sent == Flat(f.frames)
       case Checked(frame) => |frame| <= MAX_FRAME && f.sent == Flat(f.frames)
  }

  lemma SendOk(sent: seq<Byte>, whole: seq<Byte>, frame: seq<Byte>, done: nat, n: nat)
    requires done + n <= |frame| && sent == whole + frame[..done]
    ensures sent + frame[done..done + n] == whole + frame[..done + n]
  {
    assert frame[..done] + frame[done..done + n] == frame[..done + n];
  }

  lemma FeedKept(f: Feed, stopping: bool, a: WriterStep, g: Feed)
    requires FeedOk(f) && WriterStepped(f, stopping, a, g)
    ensures FeedOk(g) && f.frames <= g.frames && f.sent <= g.sent
  {
    match a {
      case Send(n) => SendOk(f.sent, Flat(f.frames), f.writer.frame, f.writer.done, n);
      case SendFails(n) => SendOk(f.sent, Flat(f.frames), f.writer.frame, f.writer.done, n);
      case Complete =>
        FlatAppend(f.frames, f.writer.frame);
        assert f.writer.frame[..f.writer.done] == f.writer.frame;
      case _ =>
    }
  }

  // ----- shutdown -----

  datatype Phase = Open | Probing | Closed | Finished

  /** Idle: the probe has had the write lock. Expired: the context of the shutdown ran out. */
  datatype Ending = Ending(phase: Phase, idle: bool, expired: bool, closes: nat)

  const UNTOUCHED: Ending := Ending(Open, false, false, 0)

  datatype EndingStep = Shut | Probe | Expire | CloseConn | Return

  predicate Stopping(e: Ending) {
    e.phase != Open
  }

  /** The steps of shutdown and of the probe it starts, while the writer is as given. */
  ghost predicate EndingStepped(e: Ending, w: Writer, a: EndingStep, t: Ending) {
    match a
    case Shut => e.phase == Open && t == e.(phase := Probing)
    case Probe => e.phase != Open && !HoldsLock(w) && t == e.(idle := true)
    case Expire => (e.phase == Probing || e.phase == Closed) && t == e.(expired := true)
    case CloseConn => e.phase == Probing && (e.idle || e.expired) && t == e.(phase := Closed, closes := e.closes + 1)
    case Return => e.phase == Closed && (w.Exited? || e.expired) && t == e.(phase := Finished)
  }

  predicate MidWrite(w: Writer) {
    w.Checked? || w.Writing?
  }

  /** Once the probe has had the lock no frame is past its check, and none will be. The connection is
      closed once, and not before the probe had the lock or the context ran out. */
  ghost predicate EndingOk(e: Ending, w: Writer) {
    && (e.phase == Open ==> e == UNTOUCHED)
    && (e.idle ==> !MidWrite(w))
    && e.closes == (if e.phase == Closed || e.phase == Finished then 1 else 0)
    && (e.closes > 0 ==> e.idle || e.expired)
    && (e.phase == Finished && !e.expired ==> w.Exited?)
  }

  lemma EndingKept(e: Ending, w: Writer, a: EndingStep, t: Ending)
    requires EndingOk(e, w) && EndingStepped(e, w, a, t)
    ensures EndingOk(t, w) && (Stopping(e) ==> Stopping(t))
  {
  }

  lemma EndingSurvivesWriter(e: Ending, f: Feed, a: WriterStep, g: Feed)
    requires EndingOk(e, f.writer) && WriterStepped(f, Stopping(e), a, g)
    ensures EndingOk(e, g.writer)
  {
  }

  datatype ShutdownError = CloseFailed | ContextExpired

  /** What a shutdown meets: whether the probe gets the write lock before the context runs out, whether the
      close fails, and whether the writer is done before the context runs out. */
  datatype Course = Course(idle: bool, closeFails: bool, done: bool)

  class Closer {
    var ending: Ending

    constructor ()
      ensures ending == UNTOUCHED
    {
      ending := UNTOUCHED;
    }

    /** shutdown, with the writer as the probe and the final wait find it. The first call goes through the
        steps of the protocol, closes the connection once and returns; every other call does nothing. */
    method Shutdown(c: Course, ghost probed: Writer, ghost last: Writer) returns (e: Option<ShutdownError>)
      requires (c.idle ==> !HoldsLock(probed)) && (c.done ==> last.Exited?)
      modifies this
      ensures old(ending.phase) != Open ==> ending == old(ending) && e == None
      ensures old(ending) == UNTOUCHED ==>
                && ending == Ending(Finished, c.idle, !c.idle || !c.done, 1)
                && exists e1, e2, e3, e4 ::
                     && EndingStepped(old(ending), probed, Shut, e1) && EndingStepped(e1, probed, if c.idle then Probe else Expire, e2)
                     && EndingStepped(e2, probed, CloseConn, e3) && (e4 == e3 || EndingStepped(e3, last, Expire, e4)) && EndingStepped(e4, last, Return, ending)
      ensures old(ending) == UNTOUCHED ==>
                e == if c.closeFails then Some(CloseFailed) else if !c.idle || !c.done then Some(ContextExpired) else None
    {
      e := None;
      if ending.phase != Open {
        return;
      }
      ghost var e0 := ending;
      ending := ending.(phase := Probing);
      ghost var e1 := ending;
      if c.idle {
        ending := ending.(idle := true);
      } else {
        ending := ending.(expired := true);
      }
      ghost var e2 := ending;
      ending := ending.(phase := Closed, closes := ending.closes + 1);
      ghost var e3 := ending;
      if c.closeFails {
        e := Some(CloseFailed);
      }
      if !c.idle && e == None {
        e := Some(ContextExpired);
      }
      if !c.done {
        ending := ending.(expired := true);
        if e == None {
          e := Some(ContextExpired);
        }
      }
      ghost var e4 := ending;
      ending := ending.(phase := Finished);
      assert e0 == UNTOUCHED ==>
          && EndingStepped(e0, probed, Shut, e1) && EndingStepped(e1, probed, if c.idle then Probe else Expire, e2)
          && EndingStepped(e2, probed, CloseConn, e3) && (e4 == e3 || EndingStepped(e3, last, Expire, e4)) && EndingStepped(e4, last, Return, ending);
    }
  }

  // ----- the manager's pointer to the current session -----

  class Manager {
    var starting: bool
    var current: Option<nat>

    constructor ()
      ensures !starting && current == None
    {
      starting, current := false, None;
    }

    /** The first section of Start: false means that a session is running already. */
    method ClaimStart() returns (ok: bool)
      modifies this`starting
      ensures ok == (!old(starting) && current == None) && starting == (old(starting) || ok)
    {
      if starting || current.Some? {
        return false;
      }
      starting := true;
      return true;
    }

    method EndStart()
      modifies this`starting
      ensures !starting
    {
      starting := false;
    }

    method Install(x: nat)
      modifies this`current
      ensures current == Some(x)
    {
      current := Some(x);
    }

    method TakeForStop() returns (x: Option<nat>)
      modifies this`current
      ensures x == old(current) && current == None
    {
      x := current;
      current := None;
    }

    /** The monitor of session x removes it only if it is still the current one. */
    method TakeForMonitor(x: nat) returns (failed: bool)
      modifies this`current
      ensures failed == (old(current) == Some(x)) && current == if failed then None else old(current)
    {
      failed := current == Some(x);
      if current == Some(x) {
        current := None;
      }
    }
  }
}
