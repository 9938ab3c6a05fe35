// How one batch of caption audio is fed to the provider: at most three attempts, each over what failed in
// the one before. What is outside is an oracle: the k-th time the generations, the ingress or the deadline
// is looked at, and the k-th answer of the provider.
module CaptionRetry {
  import opened Text
  import opened CaptionQueue

  const MAX_ATTEMPTS: nat := 3

  /** A provider answer. A batch-wide error fails all the packets that follow as well. */
  datatype Answer = Ok | Fail(errorClass: string, httpStatus: int, retryable: bool, batchWide: bool)

  /** Fenced: the generations are not current any more. Cancelled: the ingress was cancelled. Late: the
      deadline has passed before a packet. Expired: it has passed when a retry is due. */
  datatype Oracle = Oracle(fenced: nat -> bool, cancelled: nat -> bool, late: nat -> bool, expired: nat -> bool, answers: nat -> Answer)

  /** How often each was looked at. */
  datatype Looks = Looks(fences: nat, cancels: nat, packets: nat, waits: nat, answers: nat)

  /** The looks so far; and the packets handed over and accepted so far, known by their place in the batch. */
  datatype Feed = Feed(at: Looks, handed: seq<nat>, accepted: seq<nat>)

  const START: Feed := Feed(Looks(0, 0, 0, 0, 0), [], [])

  datatype Failure = Failure(position: nat, errorClass: string, httpStatus: int, retryable: bool, batchWide: bool)

  function FailureOf(position: nat, a: Answer): Failure
    requires a.Fail?
  {
    Failure(position, a.errorClass, a.httpStatus, a.retryable, a.batchWide)
  }

  // ----- folds over failures -----

  predicate AllRetryable(failures: seq<Failure>) {
    failures != [] && forall i :: 0 <= i < |failures| ==> failures[i].retryable
  }

  method FailuresRetryable(failures: seq<Failure>) returns (r: bool)
    ensures r == AllRetryable(failures)
  {
    if failures == [] {
      return false;
    }
    for i := 0 to |failures|
      invariant forall j :: 0 <= j < i ==> failures[j].retryable
    {
      if !failures[i].retryable {
        return false;
      }
    }
    return true;
  }

  /** The reported class is the class all failures share, if they share one. */
  method FailureClass(failures: seq<Failure>) returns (r: string)
    ensures failures == [] ==> r == "unknown"
    ensures failures != [] && r != "mixed" ==> forall i :: 0 <= i < |failures| ==> failures[i].errorClass == r
    ensures r == "mixed" && failures != [] && failures[0].errorClass != "mixed" ==>
              exists i :: 0 <= i < |failures| && failures[i].errorClass != failures[0].errorClass
  {
    if failures == [] {
      return "unknown";
    }
    r := failures[0].errorClass;
    for i := 1 to |failures|
      invariant r == failures[0].errorClass
      invariant forall j :: 0 <= j < i ==> failures[j].errorClass == r
    {
      if failures[i].errorClass != r {
        return "mixed";
      }
    }
  }

  /** The reported status is the non-zero status all failures share, or zero when there is none. */
  method FailureStatus(failures: seq<Failure>) returns (r: int)
    ensures r != 0 ==> failures != [] && forall i :: 0 <= i < |failures| ==> failures[i].httpStatus == r
    ensures r == 0 && failures != [] ==>
              failures[0].httpStatus == 0 || exists i :: 0 <= i < |failures| && failures[i].httpStatus != failures[0].httpStatus
  {
    if failures == [] || failures[0].httpStatus == 0 {
      return 0;
    }
    r := failures[0].httpStatus;
    for i := 1 to |failures|
      invariant r == failures[0].httpStatus
      invariant forall j :: 0 <= j < i ==> failures[j].httpStatus == r
    {
      if failures[i].httpStatus != r {
        return 0;
      }
    }
  }

  function PositionsOf(failures: seq<Failure>): (r: seq<nat>)
    ensures |r| == |failures| && forall i :: 0 <= i < |r| ==> r[i] == failures[i].position
  {
    seq(|failures|, i requires 0 <= i < |failures| => failures[i].position)
  }

  method FailurePackets(failures: seq<Failure>) returns (r: seq<nat>)
    ensures r == PositionsOf(failures)
  {
    r := [];
    for i := 0 to |failures|
      invariant |r| == i && forall j :: 0 <= j < i ==> r[j] == failures[j].position
    {
      r := r + [failures[i].position];
    }
  }

  // ----- one attempt -----

  /** Whether an attempt went over all its packets, or what cut it short. */
  datatype Cut = Whole | ByFence | ByDeadline | ByEmptyPayload

  datatype Attempt = Attempt(cut: Cut, failures: seq<Failure>, feed: Feed)

  ghost predicate Places(batch: seq<Packet>, positions: seq<nat>) {
    forall i :: 0 <= i < |positions| ==> positions[i] < |batch|
  }

  ghost predicate Within(batch: seq<Packet>, failures: seq<Failure>) {
    forall i :: 0 <= i < |failures| ==> failures[i].position < |batch|
  }

  function FailRest(failure: Failure, positions: seq<nat>, i: nat): (r: seq<Failure>)
    requires i <= |positions|
    ensures |r| == |positions| - i && forall j :: 0 <= j < |r| ==> r[j] == failure.(position := positions[i + j])
  {
    seq(|positions| - i, j requires 0 <= j < |positions| - i => failure.(position := positions[i + j]))
  }

  /** Feeding the packets from the i-th on, after what f and failures say of those before. */
  function FeedSpec(o: Oracle, batch: seq<Packet>, positions: seq<nat>, i: nat, failures: seq<Failure>, f: Feed): (a: Attempt)
    requires i <= |positions| && Places(batch, positions) && Within(batch, failures)
    ensures Within(batch, a.failures)
    decreases |positions| - i
  {
    if i == |positions| then Attempt(Whole, failures, f)
    else
      var g := f.(at := f.at.(packets := f.at.packets + 1));
      if o.late(f.at.packets) then Attempt(ByDeadline, failures, g)
      else if batch[positions[i]].opus == [] then Attempt(ByEmptyPayload, failures, g)
      else
        var a := o.answers(g.at.answers);
        var h := g.(at := g.at.(answers := g.at.answers + 1), handed := g.handed + [positions[i]]);
        if a.Ok? then FeedSpec(o, batch, positions, i + 1, failures, h.(accepted := h.accepted + [positions[i]]))
        else if a.batchWide then Attempt(Whole, failures + FailRest(FailureOf(positions[i], a), positions, i), h)
        else FeedSpec(o, batch, positions, i + 1, failures + [FailureOf(positions[i], a)], h)
  }

  function AttemptSpec(o: Oracle, batch: seq<Packet>, positions: seq<nat>, f: Feed): (a: Attempt)
    requires Places(batch, positions)
    ensures Within(batch, a.failures)
  {
    if positions == [] then Attempt(ByEmptyPayload, [], f)
    else if o.fenced(f.at.fences) then Attempt(ByFence, [], FenceLooked(f))
    else FeedSpec(o, batch, positions, 0, [], FenceLooked(f))
  }

  // ----- the whole batch -----

  /** How the work on a batch ends. Only dropped packets are counted. */
  datatype Exit = Delivered | Dropped(failures: seq<Failure>, retries: nat) | Abandoned(why: Why)

  datatype Why = Fenced | Cancelled | Late | EmptyPayload

  datatype Result = Result(exit: Exit, feed: Feed)

  function WhyCut(c: Cut): Why {
    match c
    case ByDeadline => Late
    case ByEmptyPayload => EmptyPayload
    case _ => Fenced
  }

  function FenceLooked(f: Feed): Feed { f.(at := f.at.(fences := f.at.fences + 1)) }
  function CancelLooked(f: Feed): Feed { f.(at := f.at.(cancels := f.at.cancels + 1)) }
  function WaitLooked(f: Feed): Feed { f.(at := f.at.(waits := f.at.waits + 1)) }

  /** recordCaptionAudioProviderDrop */
  function DropSpec(o: Oracle, failures: seq<Failure>, retries: nat, f: Feed): Result {
    Result(if o.fenced(f.at.fences) then Abandoned(Fenced) else Dropped(failures, retries), FenceLooked(f))
  }

  /** The drop after the loop is not counted for a cancelled ingress. */
  function EndSpec(o: Oracle, failures: seq<Failure>, retries: nat, f: Feed): Result {
    if o.cancelled(f.at.cancels) then Result(Abandoned(Cancelled), CancelLooked(f)) else DropSpec(o, failures, retries, CancelLooked(f))
  }

  /** After an attempt with failures: the end, or None and what has been looked at when there is a retry. */
  function AfterSpec(o: Oracle, failures: seq<Failure>, attempt: nat, f: Feed): (r: (Option<Result>, Feed))
    requires attempt > 0
    ensures attempt == MAX_ATTEMPTS ==> r.0.Some?
  {
    var f1 := CancelLooked(f);
    if o.cancelled(f.at.cancels) then (Some(Result(Abandoned(Cancelled), f1)), f1)
    else if !AllRetryable(failures) || attempt == MAX_ATTEMPTS then (Some(EndSpec(o, failures, attempt - 1, f1)), f1)
    else
      var f2 := WaitLooked(f1);
      if o.expired(f1.at.waits) then (Some(EndSpec(o, failures, attempt - 1, f2)), f2)
      else
        var f3 := CancelLooked(f2);
        if o.cancelled(f2.at.cancels) then (Some(Result(Abandoned(Cancelled), f3)), f3)
        else
          var f4 := WaitLooked(f3);
          if o.expired(f3.at.waits) then (Some(DropSpec(o, failures, attempt - 1, f4)), f4)
          else
            var f5 := FenceLooked(f4);
            if o.fenced(f4.at.fences) then (Some(Result(Abandoned(Fenced), f5)), f5) else (None, f5)
  }

  /** The attempts from the given one on. */
  function WorkSpec(o: Oracle, batch: seq<Packet>, positions: seq<nat>, attempt: nat, f: Feed): Result
    requires Places(batch, positions) && 0 < attempt <= MAX_ATTEMPTS
    decreases MAX_ATTEMPTS - attempt
  {
    var g := FenceLooked(f);
    if o.fenced(f.at.fences) then Result(Abandoned(Fenced), g)
    else
      var a := AttemptSpec(o, batch, positions, g);
      if a.cut != Whole then Result(Abandoned(WhyCut(a.cut)), a.feed)
      else if a.failures == [] then Result(Delivered, a.feed)
      else
        var (end, h) := AfterSpec(o, a.failures, attempt, a.feed);
        if end.Some? then end.value else WorkSpec(o, batch, PositionsOf(a.failures), attempt + 1, h)
  }

  // ----- the methods -----

  class World {
    const oracle: Oracle
    var at: Looks
    ghost var handed: seq<nat>
    ghost var accepted: seq<nat>

    ghost function View(): Feed reads this { Feed(at, handed, accepted) }

    constructor (oracle: Oracle)
      ensures this.oracle == oracle && View() == START
    {
      this.oracle, at, handed, accepted := oracle, START.at, [], [];
    }

    method Fenced() returns (b: bool)
      modifies this`at
      ensures b == oracle.fenced(old(at).fences) && View() == FenceLooked(old(View()))
    {
      b := oracle.fenced(at.fences);
      at := at.(fences := at.fences + 1);
    }

    method Cancelled() returns (b: bool)
      modifies this`at
      ensures b == oracle.cancelled(old(at).cancels) && View() == CancelLooked(old(View()))
    {
      b := oracle.cancelled(at.cancels);
      at := at.(cancels := at.cancels + 1);
    }

    method Late() returns (b: bool)
      modifies this`at
      ensures b == oracle.late(old(at).packets) && View() == old(View()).(at := old(at).(packets := old(at).packets + 1))
    {
      b := oracle.late(at.packets);
      at := at.(packets := at.packets + 1);
    }

    method Expired() returns (b: bool)
      modifies this`at
      ensures b == oracle.expired(old(at).waits) && View() == WaitLooked(old(View()))
    {
      b := oracle.expired(at.waits);
      at := at.(waits := at.waits + 1);
    }

    method Ingest(position: nat) returns (a: Answer)
      modifies this
      ensures a == oracle.answers(old(at).answers) && at == old(at).(answers := old(at).answers + 1)
      ensures handed == old(handed) + [position] && accepted == if a.Ok? then old(accepted) + [position] else old(accepted)
    {
      a := oracle.answers(at.answers);
      at := at.(answers := at.answers + 1);
      handed := handed + [position];
      if a.Ok? {
        accepted := accepted + [position];
      }
    }

    /** ingestCaptionAudioAttempt */
    method IngestAttempt(batch: seq<Packet>, positions: seq<nat>) returns (cut: Cut, failures: seq<Failure>)
      requires Places(batch, positions)
      modifies this
      ensures Attempt(cut, failures, View()) == AttemptSpec(oracle, batch, positions, old(View()))
    {
      cut, failures := Whole, [];
      if positions == [] {
        return ByEmptyPayload, [];
      }
      var fenced := Fenced();
      if fenced {
        return ByFence, [];
      }
      cut, failures := FeedPackets(batch, positions);
    }

    /** The loop over the packets of an attempt. */
    method FeedPackets(batch: seq<Packet>, positions: seq<nat>) returns (cut: Cut, failures: seq<Failure>)
      requires Places(batch, positions)
      modifies this
      ensures Attempt(cut, failures, View()) == FeedSpec(oracle, batch, positions, 0, [], old(View()))
    {
      cut, failures := Whole, [];
      ghost var goal := FeedSpec(oracle, batch, positions, 0, [], View());
      for i := 0 to |positions|
        invariant Within(batch, failures) && cut == Whole
        invariant FeedSpec(oracle, batch, positions, i, failures, View()) == goal
      {
        var late := Late();
        if late {
          return ByDeadline, failures;
        }
        if batch[positions[i]].opus == [] {
          return ByEmptyPayload, failures;
        }
        var a := Ingest(positions[i]);
        if a.Fail? {
          var failure := FailureOf(positions[i], a);
          if failure.batchWide {
            var rest := PassOn(failure, positions, i);
            failures := failures + rest;
            return;
          }
          failures := failures + [failure];
        }
      }
    }

    /** A batch-wide failure is passed on to every packet after it. */
    method PassOn(failure: Failure, positions: seq<nat>, from: nat) returns (failures: seq<Failure>)
      requires from < |positions| && failure.position == positions[from]
      ensures failures == FailRest(failure, positions, from)
    {
      failures := [failure];
      for j := from + 1 to |positions|
        invariant failures == FailRest(failure, positions, from)[..j - from]
      {
        failures := failures + [failure.(position := positions[j])];
      }
    }

    method RecordDrop(failures: seq<Failure>, retries: nat) returns (exit: Exit)
      modifies this`at
      ensures Result(exit, View()) == DropSpec(oracle, failures, retries, old(View()))
    {
      var stale := Fenced();
      exit := if stale then Abandoned(Why.Fenced) else Dropped(failures, retries);
    }

    method EndBatch(failures: seq<Failure>, retries: nat) returns (exit: Exit)
      modifies this`at
      ensures Result(exit, View()) == EndSpec(oracle, failures, retries, old(View()))
    {
      var ended := Cancelled();
      if ended {
        return Abandoned(Why.Cancelled);
      }
      exit := RecordDrop(failures, retries);
    }

    /** What follows an attempt with failures; None is another attempt. */
    method AfterFailures(failures: seq<Failure>, attempt: nat) returns (exit: Option<Exit>)
      requires attempt > 0
      modifies this`at
      ensures var (end, f) := AfterSpec(oracle, failures, attempt, old(View()));
        if end.Some? then exit.Some? && Result(exit.value, View()) == end.value else exit.None? && View() == f
    {
      var cancelled := Cancelled();
      if cancelled {
        return Some(Abandoned(Why.Cancelled));
      }
      var retryable := FailuresRetryable(failures);
      if !retryable || attempt == MAX_ATTEMPTS {
        var e := EndBatch(failures, attempt - 1);
        return Some(e);
      }
      var expired := Expired();
      if expired {
        var e := EndBatch(failures, attempt - 1);
        return Some(e);
      }
      var cancelledWaiting := Cancelled();
      if cancelledWaiting {
        return Some(Abandoned(Why.Cancelled));
      }
      var expiredWaiting := Expired();
      if expiredWaiting {
        var e := RecordDrop(failures, attempt - 1);
        return Some(e);
      }
      var stale := Fenced();
      exit := if stale then Some(Abandoned(Why.Fenced)) else None;
    }

    /** processCaptionAudioBatch */
    method ProcessBatch(batch: seq<Packet>) returns (exit: Exit)
      modifies this
      ensures Result(exit, View()) == WorkSpec(oracle, batch, Positions(|batch|), 1, old(View()))
    {
      var remaining, attempt := Positions(|batch|), 1;
      ghost var goal := WorkSpec(oracle, batch, remaining, 1, View());
      while true
        invariant 0 < attempt <= MAX_ATTEMPTS && Places(batch, remaining)
        invariant WorkSpec(oracle, batch, remaining, attempt, View()) == goal
        decreases MAX_ATTEMPTS - attempt
      {
        var fenced := Fenced();
        if fenced {
          return Abandoned(Why.Fenced);
        }
        var cut, failures := IngestAttempt(batch, remaining);
        if cut != Whole {
          return Abandoned(WhyCut(cut));
        }
        if failures == [] {
          return Delivered;
        }
        var end := AfterFailures(failures, attempt);
        if end.Some? {
          return end.value;
        }
        remaining := FailurePackets(failures);
        attempt := attempt + 1;
      }
    }
  }

  /** All packets of the batch, in order. */
  function Positions(n: nat): (r: seq<nat>)
    ensures |r| == n && forall i :: 0 <= i < n ==> r[i] == i
  {
    seq(n, i => i)
  }

  // ----- what is handed over, accepted and dropped -----

  ghost predicate Increasing(s: seq<nat>) {
    forall i, j :: 0 <= i < j < |s| ==> s[i] < s[j]
  }

  /** How often a position occurs. */
  function Count(s: seq<nat>, x: nat): nat {
    if s == [] then 0 else Count(s[..|s| - 1], x) + if s[|s| - 1] == x then 1 else 0
  }

  lemma {:induction false} CountConcat(s: seq<nat>, t: seq<nat>, x: nat)
    ensures Count(s + t, x) == Count(s, x) + Count(t, x)
  {
    if t != [] {
      CountConcat(s, t[..|t| - 1], x);
      assert (s + t)[..|s + t| - 1] == s + t[..|t| - 1];
    } else {
      assert s + t == s;
    }
  }

  lemma {:induction false} CountIncreasing(s: seq<nat>, x: nat)
    requires Increasing(s)
    ensures Count(s, x) == if x in s then 1 else 0
  {
    if s != [] {
      var front := s[..|s| - 1];
      CountIncreasing(front, x);
      assert s == front + [s[|s| - 1]];
    }
  }

  lemma AppendIncreasing(s: seq<nat>, positions: seq<nat>, i: nat)
    requires Increasing(s) && Increasing(positions) && i < |positions|
    requires forall x :: x in s ==> x in positions[..i]
    ensures Increasing(s + [positions[i]])
  {
    forall k | 0 <= k < |s| ensures s[k] < positions[i] {
      assert s[k] in positions[..i];
    }
  }

  /** Accepted and failed are disjoint increasing lists that together are the positions tried. */
  ghost predicate Split(positions: seq<nat>, accepted: seq<nat>, failed: seq<nat>) {
    && Increasing(accepted) && Increasing(failed)
    && (forall x :: x in positions <==> x in accepted || x in failed)
    && (forall x :: x in accepted ==> x !in failed)
  }

  lemma SplitStep(positions: seq<nat>, i: nat, accepted: seq<nat>, failed: seq<nat>)
    requires Increasing(positions) && i < |positions| && Split(positions[..i], accepted, failed)
    ensures positions[..i + 1] == positions[..i] + [positions[i]]
    ensures Split(positions[..i + 1], accepted + [positions[i]], failed)
    ensures Split(positions[..i + 1], accepted, failed + [positions[i]])
  {
    AppendIncreasing(accepted, positions, i);
    AppendIncreasing(failed, positions, i);
    forall x | x in accepted || x in failed ensures x != positions[i] {
      assert x in positions[..i];
    }
    assert positions[..i + 1] == positions[..i] + [positions[i]];
  }

  lemma {:induction false} SplitRest(positions: seq<nat>, i: nat, accepted: seq<nat>, failed: seq<nat>)
    requires Increasing(positions) && i <= |positions| && Split(positions[..i], accepted, failed)
    ensures Split(positions, accepted, failed + positions[i..])
    decreases |positions| - i
  {
    if i == |positions| {
      assert positions[..i] == positions && failed + positions[i..] == failed;
    } else {
      SplitStep(positions, i, accepted, failed);
      SplitRest(positions, i + 1, accepted, failed + [positions[i]]);
      assert failed + [positions[i]] + positions[i + 1..] == failed + positions[i..];
    }
  }

  /** Since f0, the first i positions were handed over, some of them accepted and the others failed. */
  ghost predicate FedUpTo(positions: seq<nat>, i: nat, f0: Feed, failures: seq<Failure>, f: Feed, accepted: seq<nat>)
    requires i <= |positions|
  {
    f.handed == f0.handed + positions[..i] && f.accepted == f0.accepted + accepted && Split(positions[..i], accepted, PositionsOf(failures))
  }

  /** Since f0, an attempt handed over a beginning of the positions and had some of them accepted. */
  ghost predicate Tried(positions: seq<nat>, f0: Feed, a: Attempt, handed: seq<nat>, accepted: seq<nat>) {
    && a.feed.handed == f0.handed + handed && handed <= positions
    && a.feed.accepted == f0.accepted + accepted && Increasing(accepted) && (forall x :: x in accepted ==> x in positions)
    && (a.cut == Whole ==> Split(positions, accepted, PositionsOf(a.failures)))
  }

  lemma Concat3(a: seq<nat>, b: seq<nat>, x: nat)
    ensures a + b + [x] == a + (b + [x])
  {
  }

  lemma {:induction false} FeedTried(o: Oracle, batch: seq<Packet>, positions: seq<nat>, i: nat, failures: seq<Failure>, f: Feed, f0: Feed, accepted: seq<nat>)
    returns (handed: seq<nat>, all: seq<nat>)
    requires Places(batch, positions) && Within(batch, failures) && Increasing(positions) && i <= |positions|
    requires FedUpTo(positions, i, f0, failures, f, accepted)
    ensures Tried(positions, f0, FeedSpec(o, batch, positions, i, failures, f), handed, all)
    decreases |positions| - i
  {
    handed, all := positions[..i], accepted;
    var g := f.(at := f.at.(packets := f.at.packets + 1));
    if i < |positions| && !o.late(f.at.packets) && batch[positions[i]].opus != [] {
      var a := o.answers(g.at.answers);
      var h := g.(at := g.at.(answers := g.at.answers + 1), handed := g.handed + [positions[i]]);
      SplitStep(positions, i, accepted, PositionsOf(failures));
      Concat3(f0.handed, positions[..i], positions[i]);
      Concat3(f0.accepted, accepted, positions[i]);
      if a.Ok? {
        handed, all := FeedTried(o, batch, positions, i + 1, failures, h.(accepted := h.accepted + [positions[i]]), f0, accepted + [positions[i]]);
      } else if a.batchWide {
        handed := positions[..i + 1];
        SplitRest(positions, i, accepted, PositionsOf(failures));
        assert PositionsOf(failures + FailRest(FailureOf(positions[i], a), positions, i)) == PositionsOf(failures) + positions[i..];
      } else {
        assert PositionsOf(failures + [FailureOf(positions[i], a)]) == PositionsOf(failures) + [positions[i]];
        handed, all := FeedTried(o, batch, positions, i + 1, failures + [FailureOf(positions[i], a)], h, f0, accepted);
      }
    }
  }

  /** An attempt hands its packets over in order, each at most once; one that is not cut short splits them
      into those accepted and those failed. */
  lemma AttemptSplits(o: Oracle, batch: seq<Packet>, positions: seq<nat>, f: Feed) returns (handed: seq<nat>, accepted: seq<nat>)
    requires Places(batch, positions) && Increasing(positions)
    ensures Tried(positions, f, AttemptSpec(o, batch, positions, f), handed, accepted)
  {
    handed, accepted := [], [];
    assert f.handed + [] == f.handed && f.accepted + [] == f.accepted && positions[..0] == [];
    if positions != [] && !o.fenced(f.at.fences) {
      handed, accepted := FeedTried(o, batch, positions, 0, [], FenceLooked(f), f, []);
    }
  }

  /** While a batch is worked on: what is still to be fed has not been accepted, everything else has been
      exactly once, and nothing has been handed over more often than there were attempts. */
  ghost predicate Progress(n: nat, remaining: seq<nat>, f: Feed, attempts: nat) {
    && Increasing(remaining) && (forall x :: x in remaining ==> x < n)
    && (forall x: nat :: Count(f.accepted, x) == if x < n && x !in remaining then 1 else 0)
    && (forall x: nat :: Count(f.handed, x) <= attempts)
  }

  lemma EmptyProgress(n: nat)
    ensures Progress(n, Positions(n), START, 0)
  {
    forall x: nat | x < n ensures x in Positions(n) {
      assert Positions(n)[x] == x;
    }
  }

  /** Nothing has been handed over more than three times, or accepted twice. */
  ghost predicate Modest(f: Feed) {
    forall x: nat :: Count(f.handed, x) <= MAX_ATTEMPTS && Count(f.accepted, x) <= 1
  }

  lemma AttemptProgress(n: nat, remaining: seq<nat>, f: Feed, attempts: nat, a: Attempt, handed: seq<nat>, accepted: seq<nat>)
    requires Progress(n, remaining, f, attempts) && Tried(remaining, f, a, handed, accepted)
    ensures forall x: nat :: Count(a.feed.handed, x) <= attempts + 1 && Count(a.feed.accepted, x) <= 1
    ensures a.cut == Whole ==> Progress(n, PositionsOf(a.failures), a.feed, attempts + 1)
  {
    forall x: nat ensures Count(a.feed.handed, x) <= attempts + 1 {
      CountConcat(f.handed, handed, x);
      CountIncreasing(handed, x);
    }
    forall x: nat ensures Count(a.feed.accepted, x) == Count(f.accepted, x) + if x in accepted then 1 else 0 {
      CountConcat(f.accepted, accepted, x);
      CountIncreasing(accepted, x);
    }
  }

  /** Looks change nothing that was handed over or accepted. */
  lemma AfterKeeps(o: Oracle, failures: seq<Failure>, attempt: nat, f: Feed)
    requires 0 < attempt <= MAX_ATTEMPTS
    ensures var (end, g) := AfterSpec(o, failures, attempt, f);
      && g.handed == f.handed && g.accepted == f.accepted
      && (end.Some? ==> end.value.feed.handed == f.handed && end.value.feed.accepted == f.accepted && !end.value.exit.Delivered?)
      && (end.Some? && end.value.exit.Dropped? ==> end.value.exit.failures == failures && end.value.exit.retries == attempt - 1)
      && (end.None? ==> AllRetryable(failures) && attempt < MAX_ATTEMPTS)
  {
  }

  /** Every packet of the batch was accepted exactly once. */
  ghost predicate AllAccepted(n: nat, f: Feed) {
    forall x: nat :: Count(f.accepted, x) == if x < n then 1 else 0
  }

  /** Every packet was either accepted once or is one of those counted once as dropped. */
  ghost predicate AcceptedOrDropped(n: nat, f: Feed, dropped: seq<nat>) {
    Increasing(dropped) && forall x: nat :: Count(f.accepted, x) + Count(dropped, x) == if x < n then 1 else 0
  }

  lemma DroppedComplement(n: nat, dropped: seq<nat>, f: Feed, attempts: nat)
    requires Progress(n, dropped, f, attempts)
    ensures AcceptedOrDropped(n, f, dropped)
  {
    forall x: nat ensures Count(dropped, x) == if x in dropped then 1 else 0 {
      CountIncreasing(dropped, x);
    }
  }

  ghost predicate Conserved(n: nat, r: Result) {
    && Modest(r.feed)
    && (r.exit.Delivered? ==> AllAccepted(n, r.feed))
    && (r.exit.Dropped? ==> r.exit.failures != [] && r.exit.retries < MAX_ATTEMPTS && AcceptedOrDropped(n, r.feed, PositionsOf(r.exit.failures)))
  }

  lemma {:induction false} WorkConserves(o: Oracle, batch: seq<Packet>, positions: seq<nat>, attempt: nat, f: Feed)
    requires Places(batch, positions) && 0 < attempt <= MAX_ATTEMPTS && Progress(|batch|, positions, f, attempt - 1)
    ensures Conserved(|batch|, WorkSpec(o, batch, positions, attempt, f))
    decreases MAX_ATTEMPTS - attempt
  {
    var g := FenceLooked(f);
    if !o.fenced(f.at.fences) {
      var a := AttemptSpec(o, batch, positions, g);
      var handed, accepted := AttemptSplits(o, batch, positions, g);
      AttemptProgress(|batch|, positions, g, attempt - 1, a, handed, accepted);
      if a.cut == Whole && a.failures != [] {
        AfterKeeps(o, a.failures, attempt, a.feed);
        DroppedComplement(|batch|, PositionsOf(a.failures), a.feed, attempt);
        var (end, h) := AfterSpec(o, a.failures, attempt, a.feed);
        if end.None? {
          WorkConserves(o, batch, PositionsOf(a.failures), attempt + 1, h);
        }
      }
    }
  }

  /** However the work on a batch ends, no packet was handed over more than three times or accepted twice.
      If it ends delivered, every packet was accepted exactly once; if it ends dropped, every packet was
      either accepted once or counted once as dropped. */
  lemma BatchConserved(o: Oracle, batch: seq<Packet>)
    ensures Conserved(|batch|, WorkSpec(o, batch, Positions(|batch|), 1, START))
  {
    EmptyProgress(|batch|);
    WorkConserves(o, batch, Positions(|batch|), 1, START);
  }

  // ----- when a batch is abandoned -----

  /** One of the looks from the given one up to another struck. */
  ghost predicate Struck(looks: nat -> bool, from: nat, to: nat) {
    exists k :: from <= k < to && looks(k)
  }

  /** The looks of f up to those of g that struck: at the fence, at the ingress, at the deadline before a packet. */
  ghost predicate FenceStruck(o: Oracle, f: Feed, g: Feed) { Struck(o.fenced, f.at.fences, g.at.fences) }
  ghost predicate CancelStruck(o: Oracle, f: Feed, g: Feed) { Struck(o.cancelled, f.at.cancels, g.at.cancels) }
  ghost predicate LateStruck(o: Oracle, f: Feed, g: Feed) { Struck(o.late, f.at.packets, g.at.packets) }

  ghost predicate Later(f: Feed, g: Feed) {
    f.at.fences <= g.at.fences && f.at.cancels <= g.at.cancels && f.at.packets <= g.at.packets
  }

  /** No payload is empty, which validation makes sure of before a batch is queued. */
  ghost predicate Filled(batch: seq<Packet>) {
    forall i :: 0 <= i < |batch| ==> batch[i].opus != []
  }

  lemma FilledWhenValid(batch: seq<Packet>, generation: nat, connection: nat)
    requires forall i :: 0 <= i < |batch| ==> PacketOk(batch[i], generation, connection)
    ensures Filled(batch)
  {
  }

  lemma {:induction false} FeedCut(o: Oracle, batch: seq<Packet>, positions: seq<nat>, i: nat, failures: seq<Failure>, f: Feed)
    requires Places(batch, positions) && Within(batch, failures) && i <= |positions| && Filled(batch)
    ensures var a := FeedSpec(o, batch, positions, i, failures, f);
      && Later(f, a.feed) && a.feed.at.fences == f.at.fences && a.feed.at.cancels == f.at.cancels
      && (a.cut == Whole || a.cut == ByDeadline) && (a.cut == ByDeadline <==> LateStruck(o, f, a.feed))
    decreases |positions| - i
  {
    var a := FeedSpec(o, batch, positions, i, failures, f);
    if i < |positions| {
      assert batch[positions[i]].opus != [];
      var g := f.(at := f.at.(packets := f.at.packets + 1));
      if !o.late(f.at.packets) {
        var answer := o.answers(g.at.answers);
        var h := g.(at := g.at.(answers := g.at.answers + 1), handed := g.handed + [positions[i]]);
        if answer.Ok? {
          FeedCut(o, batch, positions, i + 1, failures, h.(accepted := h.accepted + [positions[i]]));
        } else if !answer.batchWide {
          FeedCut(o, batch, positions, i + 1, failures + [FailureOf(positions[i], answer)], h);
        }
      }
    }
  }

  lemma AttemptCut(o: Oracle, batch: seq<Packet>, positions: seq<nat>, f: Feed)
    requires Places(batch, positions) && positions != [] && Filled(batch)
    ensures var a := AttemptSpec(o, batch, positions, f);
      && Later(f, a.feed) && a.feed.at.cancels == f.at.cancels
      && (a.cut == ByFence <==> FenceStruck(o, f, a.feed)) && (a.cut == ByDeadline <==> LateStruck(o, f, a.feed))
      && a.cut != ByEmptyPayload
  {
    if !o.fenced(f.at.fences) {
      FeedCut(o, batch, positions, 0, [], FenceLooked(f));
    }
  }

  lemma AfterLooks(o: Oracle, failures: seq<Failure>, attempt: nat, f: Feed)
    requires 0 < attempt <= MAX_ATTEMPTS
    ensures var (end, g) := AfterSpec(o, failures, attempt, f);
      && Later(f, g) && g.at.packets == f.at.packets
      && (end.None? ==> !FenceStruck(o, f, g) && !CancelStruck(o, f, g))
      && (end.Some? ==> Later(f, end.value.feed) && end.value.feed.at.packets == f.at.packets &&
                        (end.value.exit.Abandoned? <==> FenceStruck(o, f, end.value.feed) || CancelStruck(o, f, end.value.feed)))
  {
  }

  lemma StruckSplit(looks: nat -> bool, a: nat, b: nat, c: nat)
    requires a <= b <= c
    ensures Struck(looks, a, c) <==> Struck(looks, a, b) || Struck(looks, b, c)
  {
  }

  lemma LooksSplit(o: Oracle, f: Feed, g: Feed, h: Feed)
    requires Later(f, g) && Later(g, h)
    ensures FenceStruck(o, f, h) <==> FenceStruck(o, f, g) || FenceStruck(o, g, h)
    ensures CancelStruck(o, f, h) <==> CancelStruck(o, f, g) || CancelStruck(o, g, h)
    ensures LateStruck(o, f, h) <==> LateStruck(o, f, g) || LateStruck(o, g, h)
  {
    StruckSplit(o.fenced, f.at.fences, g.at.fences, h.at.fences);
    StruckSplit(o.cancelled, f.at.cancels, g.at.cancels, h.at.cancels);
    StruckSplit(o.late, f.at.packets, g.at.packets, h.at.packets);
  }

  ghost predicate AbandonedIffStruck(o: Oracle, f: Feed, r: Result) {
    Later(f, r.feed) && (r.exit.Abandoned? <==> FenceStruck(o, f, r.feed) || CancelStruck(o, f, r.feed) || LateStruck(o, f, r.feed))
  }

  lemma {:induction false} WorkAbandons(o: Oracle, batch: seq<Packet>, positions: seq<nat>, attempt: nat, f: Feed)
    requires Places(batch, positions) && 0 < attempt <= MAX_ATTEMPTS && positions != [] && Filled(batch)
    ensures AbandonedIffStruck(o, f, WorkSpec(o, batch, positions, attempt, f))
    decreases MAX_ATTEMPTS - attempt
  {
    var r := WorkSpec(o, batch, positions, attempt, f);
    var g := FenceLooked(f);
    if !o.fenced(f.at.fences) {
      var a := AttemptSpec(o, batch, positions, g);
      AttemptCut(o, batch, positions, g);
      LooksSplit(o, f, g, a.feed);
      if a.cut == Whole && a.failures != [] {
        var (end, h) := AfterSpec(o, a.failures, attempt, a.feed);
        AfterLooks(o, a.failures, attempt, a.feed);
        if end.None? {
          AfterKeeps(o, a.failures, attempt, a.feed);
          WorkAbandons(o, batch, PositionsOf(a.failures), attempt + 1, h);
          LooksSplit(o, a.feed, h, r.feed);
        }
        LooksSplit(o, f, a.feed, r.feed);
      }
    }
  }

  /** A batch ends uncounted if and only if the fence or a cancelled ingress was met, or the deadline had
      passed when it was looked at before a packet. A deadline met when a retry is due does not do it. */
  lemma AbandonedIff(o: Oracle, batch: seq<Packet>)
    requires batch != [] && Filled(batch)
    ensures var r := WorkSpec(o, batch, Positions(|batch|), 1, START);
      r.exit.Abandoned? <==> FenceStruck(o, START, r.feed) || CancelStruck(o, START, r.feed) || LateStruck(o, START, r.feed)
  {
    WorkAbandons(o, batch, Positions(|batch|), 1, START);
  }

  /** Without a fence, a cancellation or a deadline between packets, every packet ends up accepted once or
      counted once as dropped. */
  lemma UndisturbedBatchCompletes(o: Oracle, batch: seq<Packet>)
    requires batch != [] && Filled(batch)
    requires forall k :: !o.fenced(k) && !o.cancelled(k) && !o.late(k)
    ensures var r := WorkSpec(o, batch, Positions(|batch|), 1, START);
      && (r.exit.Delivered? || r.exit.Dropped?)
      && AcceptedOrDropped(|batch|, r.feed, if r.exit.Dropped? then PositionsOf(r.exit.failures) else [])
  {
    AbandonedIff(o, batch);
    BatchConserved(o, batch);
  }

  /** The deadline passes between two packets, and nothing else happens: the first is accepted, the second
      is neither accepted nor counted as dropped. */
  lemma DeadlineBetweenPackets(first: Packet, second: Packet)
    requires first.opus != [] && second.opus != []
    ensures var o := Oracle(_ => false, _ => false, k => k == 1, _ => false, _ => Answer.Ok);
      var r := WorkSpec(o, [first, second], Positions(2), 1, START);
      r.exit == Abandoned(Why.Late) && r.feed.accepted == [0] && r.feed.handed == [0]
  {
    var o := Oracle(_ => false, _ => false, k => k == 1, _ => false, _ => Answer.Ok);
    var batch, p := [first, second], Positions(2);
    var f1 := FenceLooked(FenceLooked(START));
    var f2 := Feed(Looks(2, 0, 1, 0, 1), [0], [0]);
    assert FeedSpec(o, batch, p, 0, [], f1) == FeedSpec(o, batch, p, 1, [], f2);
    assert FeedSpec(o, batch, p, 1, [], f2) == Attempt(ByDeadline, [], Feed(Looks(2, 0, 2, 0, 1), [0], [0]));
    assert AttemptSpec(o, batch, p, FenceLooked(START)) == FeedSpec(o, batch, p, 0, [], f1);
  }
}
