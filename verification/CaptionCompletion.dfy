// How far a batch of caption audio gets, read off the provider's answers alone. An attempt over n packets
// uses up answers one by one; a batch-wide failure fails the packets that are left without asking again.
module CaptionCompletion {
  import opened CaptionQueue
  import opened CaptionRetry

  // ----- what was accepted is what the provider took -----

  /** The packets handed over whose answer was Ok. */
  ghost function Taken(o: Oracle, handed: seq<nat>): seq<nat> {
    if handed == [] then []
    else
      var last := |handed| - 1;
      Taken(o, handed[..last]) + if o.answers(last).Ok? then [handed[last]] else []
  }

  /** The k-th answer was given to the k-th packet handed over. */
  ghost predicate Answered(o: Oracle, f: Feed) {
    |f.handed| == f.at.answers && f.accepted == Taken(o, f.handed)
  }

  lemma OneMore(o: Oracle, f: Feed, position: nat)
    requires Answered(o, f)
    ensures Taken(o, f.handed + [position]) == f.accepted + if o.answers(f.at.answers).Ok? then [position] else []
  {
    assert (f.handed + [position])[..|f.handed|] == f.handed;
  }

  /** Every failure is one the provider gave among the answers so far. */
  ghost predicate Given(o: Oracle, failures: seq<Failure>, upTo: nat) {
    forall i :: 0 <= i < |failures| ==> IsGiven(o, failures[i], upTo)
  }

  ghost predicate IsGiven(o: Oracle, failure: Failure, upTo: nat) {
    exists k: nat :: k < upTo && o.answers(k) == Fail(failure.errorClass, failure.httpStatus, failure.retryable, failure.batchWide)
  }

  lemma {:induction false} FeedAnswered(o: Oracle, batch: seq<Packet>, positions: seq<nat>, i: nat, failures: seq<Failure>, f: Feed)
    requires Places(batch, positions) && Within(batch, failures) && i <= |positions|
    requires Answered(o, f) && Given(o, failures, f.at.answers)
    ensures var a := FeedSpec(o, batch, positions, i, failures, f);
      Answered(o, a.feed) && Given(o, a.failures, a.feed.at.answers)
    decreases |positions| - i
  {
    if i < |positions| && !o.late(f.at.packets) && batch[positions[i]].opus != [] {
      var k := f.at.answers;
      var a := o.answers(k);
      var h := Feed(f.at.(packets := f.at.packets + 1, answers := k + 1), f.handed + [positions[i]], f.accepted);
      OneMore(o, f, positions[i]);
      GivenLater(o, failures, k, k + 1);
      if a.Ok? {
        FeedAnswered(o, batch, positions, i + 1, failures, h.(accepted := h.accepted + [positions[i]]));
      } else {
        assert IsGiven(o, FailureOf(positions[i], a), k + 1);
        if !a.batchWide {
          FeedAnswered(o, batch, positions, i + 1, failures + [FailureOf(positions[i], a)], h);
        }
      }
    }
  }

  lemma GivenLater(o: Oracle, failures: seq<Failure>, k: nat, l: nat)
    requires Given(o, failures, k) && k <= l
    ensures Given(o, failures, l)
  {
    forall i | 0 <= i < |failures| ensures IsGiven(o, failures[i], l) {
      assert IsGiven(o, failures[i], k);
    }
  }

  lemma AttemptAnswered(o: Oracle, batch: seq<Packet>, positions: seq<nat>, f: Feed)
    requires Places(batch, positions) && Answered(o, f)
    ensures var a := AttemptSpec(o, batch, positions, f);
      Answered(o, a.feed) && Given(o, a.failures, a.feed.at.answers)
  {
    if positions != [] && !o.fenced(f.at.fences) {
      FeedAnswered(o, batch, positions, 0, [], FenceLooked(f));
    }
  }

  lemma AfterAnswered(o: Oracle, failures: seq<Failure>, attempt: nat, f: Feed)
    requires 0 < attempt <= MAX_ATTEMPTS
    ensures var (end, g) := AfterSpec(o, failures, attempt, f);
      g.at.answers == f.at.answers && (end.Some? ==> end.value.feed.at.answers == f.at.answers)
  {
  }

  ghost predicate Honest(o: Oracle, r: Result) {
    Answered(o, r.feed) && (r.exit.Dropped? ==> Given(o, r.exit.failures, r.feed.at.answers))
  }

  lemma {:induction false} WorkHonest(o: Oracle, batch: seq<Packet>, positions: seq<nat>, attempt: nat, f: Feed)
    requires Places(batch, positions) && 0 < attempt <= MAX_ATTEMPTS && Answered(o, f)
    ensures Honest(o, WorkSpec(o, batch, positions, attempt, f))
    decreases MAX_ATTEMPTS - attempt
  {
    var g := FenceLooked(f);
    if !o.fenced(f.at.fences) {
      var a := AttemptSpec(o, batch, positions, g);
      AttemptAnswered(o, batch, positions, g);
      if a.cut == Whole && a.failures != [] {
        var (end, h) := AfterSpec(o, a.failures, attempt, a.feed);
        AfterKeeps(o, a.failures, attempt, a.feed);
        AfterAnswered(o, a.failures, attempt, a.feed);
        if end.None? {
          WorkHonest(o, batch, PositionsOf(a.failures), attempt + 1, h);
        }
      }
    }
  }

  /** However a batch ends, a packet counts as accepted if and only if the provider answered Ok to it, and
      every failure of a dropped batch is one the provider gave. */
  lemma AcceptedAsAnswered(o: Oracle, batch: seq<Packet>)
    ensures Honest(o, WorkSpec(o, batch, Positions(|batch|), 1, START))
  {
    WorkHonest(o, batch, Positions(|batch|), 1, START);
  }

  // ----- when a batch is given up -----

  ghost predicate ExpiredStruck(o: Oracle, f: Feed, g: Feed) { Struck(o.expired, f.at.waits, g.at.waits) }

  ghost predicate GivenUpFor(o: Oracle, f: Feed, r: Result) {
    && f.at.waits <= r.feed.at.waits
    && (r.exit.Dropped? ==>
      (exists i :: 0 <= i < |r.exit.failures| && !r.exit.failures[i].retryable) || r.exit.retries == 2 || ExpiredStruck(o, f, r.feed))
  }

  lemma {:induction false} FeedWaits(o: Oracle, batch: seq<Packet>, positions: seq<nat>, i: nat, failures: seq<Failure>, f: Feed)
    requires Places(batch, positions) && Within(batch, failures) && i <= |positions|
    ensures FeedSpec(o, batch, positions, i, failures, f).feed.at.waits == f.at.waits
    decreases |positions| - i
  {
    if i < |positions| && !o.late(f.at.packets) && batch[positions[i]].opus != [] {
      var a := o.answers(f.at.answers);
      var h := Feed(f.at.(packets := f.at.packets + 1, answers := f.at.answers + 1), f.handed + [positions[i]], f.accepted);
      if a.Ok? {
        FeedWaits(o, batch, positions, i + 1, failures, h.(accepted := h.accepted + [positions[i]]));
      } else if !a.batchWide {
        FeedWaits(o, batch, positions, i + 1, failures + [FailureOf(positions[i], a)], h);
      }
    }
  }

  lemma AfterGivesUp(o: Oracle, failures: seq<Failure>, attempt: nat, f: Feed)
    requires 0 < attempt <= MAX_ATTEMPTS && failures != []
    ensures var (end, g) := AfterSpec(o, failures, attempt, f);
      f.at.waits <= g.at.waits && (end.Some? ==> GivenUpFor(o, f, end.value))
  {
  }

  lemma {:induction false} WorkGivesUp(o: Oracle, batch: seq<Packet>, positions: seq<nat>, attempt: nat, f: Feed)
    requires Places(batch, positions) && 0 < attempt <= MAX_ATTEMPTS
    ensures GivenUpFor(o, f, WorkSpec(o, batch, positions, attempt, f))
    decreases MAX_ATTEMPTS - attempt
  {
    var g := FenceLooked(f);
    if !o.fenced(f.at.fences) {
      var a := AttemptSpec(o, batch, positions, g);
      if positions != [] && !o.fenced(g.at.fences) {
        FeedWaits(o, batch, positions, 0, [], FenceLooked(g));
      }
      assert a.feed.at.waits == f.at.waits;
      if a.cut == Whole && a.failures != [] {
        var (end, h) := AfterSpec(o, a.failures, attempt, a.feed);
        AfterGivesUp(o, a.failures, attempt, a.feed);
        if end.None? {
          AfterKeeps(o, a.failures, attempt, a.feed);
          WorkGivesUp(o, batch, PositionsOf(a.failures), attempt + 1, h);
        }
      }
    }
  }

  /** A batch is dropped only over a failure that is no use retrying, after two retries, or when the
      deadline had passed at the time a retry was due. */
  lemma DroppedOnlyIf(o: Oracle, batch: seq<Packet>)
    ensures var r := WorkSpec(o, batch, Positions(|batch|), 1, START);
      r.exit.Dropped? ==>
        (exists i :: 0 <= i < |r.exit.failures| && !r.exit.failures[i].retryable) || r.exit.retries == 2 || ExpiredStruck(o, START, r.feed)
  {
    WorkGivesUp(o, batch, Positions(|batch|), 1, START);
  }

  // ----- when a batch is delivered -----

  /** Of n packets fed from the given answer on, how many fail. */
  ghost function Failing(o: Oracle, from: nat, n: nat): (r: nat)
    ensures r <= n
    decreases n
  {
    if n == 0 then 0
    else if o.answers(from).Ok? then Failing(o, from + 1, n - 1)
    else if o.answers(from).batchWide then n
    else 1 + Failing(o, from + 1, n - 1)
  }

  /** The first answer that they leave unused. */
  ghost function Until(o: Oracle, from: nat, n: nat): (r: nat)
    ensures from <= r <= from + n
    decreases n
  {
    if n == 0 then from
    else if o.answers(from).Fail? && o.answers(from).batchWide then from + 1
    else Until(o, from + 1, n - 1)
  }

  /** Every failure among these answers may be retried. */
  ghost predicate Retryable(o: Oracle, from: nat, to: nat) {
    forall k :: from <= k < to ==> o.answers(k).Ok? || o.answers(k).retryable
  }

  /** Nothing is fenced, cancelled, late or expired. */
  ghost predicate Undisturbed(o: Oracle) {
    forall k :: !o.fenced(k) && !o.cancelled(k) && !o.late(k) && !o.expired(k)
  }

  /** What an attempt that is not cut short has to show for itself. */
  ghost predicate Fed(o: Oracle, n: nat, before: seq<Failure>, f: Feed, a: Attempt) {
    && a.cut == Whole
    && |a.failures| == |before| + Failing(o, f.at.answers, n)
    && a.feed.at.answers == Until(o, f.at.answers, n)
    && (NoneFinal(a.failures) <==> NoneFinal(before) && Retryable(o, f.at.answers, Until(o, f.at.answers, n)))
  }

  ghost predicate NoneFinal(failures: seq<Failure>) {
    forall i :: 0 <= i < |failures| ==> failures[i].retryable
  }

  lemma RetryableFrom(o: Oracle, from: nat, to: nat)
    requires from < to
    ensures Retryable(o, from, to) <==> (o.answers(from).Ok? || o.answers(from).retryable) && Retryable(o, from + 1, to)
  {
  }

  lemma NoneFinalMore(before: seq<Failure>, more: seq<Failure>)
    ensures NoneFinal(before + more) <==> NoneFinal(before) && NoneFinal(more)
  {
    assert forall i :: 0 <= i < |before| ==> (before + more)[i] == before[i];
    assert forall i :: 0 <= i < |more| ==> (before + more)[|before| + i] == more[i];
  }

  lemma {:induction false} FeedReads(o: Oracle, batch: seq<Packet>, positions: seq<nat>, i: nat, failures: seq<Failure>, f: Feed)
    requires Places(batch, positions) && Within(batch, failures) && i <= |positions| && Filled(batch) && Undisturbed(o)
    ensures Fed(o, |positions| - i, failures, f, FeedSpec(o, batch, positions, i, failures, f))
    decreases |positions| - i
  {
    if i < |positions| {
      assert batch[positions[i]].opus != [];
      var k, n := f.at.answers, |positions| - i;
      var a := o.answers(k);
      var h := Feed(f.at.(packets := f.at.packets + 1, answers := k + 1), f.handed + [positions[i]], f.accepted);
      RetryableFrom(o, k, if a.Fail? && a.batchWide then k + 1 else Until(o, k + 1, n - 1));
      if a.Ok? {
        FeedReads(o, batch, positions, i + 1, failures, h.(accepted := h.accepted + [positions[i]]));
      } else if a.batchWide {
        var rest := FailRest(FailureOf(positions[i], a), positions, i);
        NoneFinalMore(failures, rest);
        assert rest[0].retryable == a.retryable;
      } else {
        NoneFinalMore(failures, [FailureOf(positions[i], a)]);
        assert [FailureOf(positions[i], a)][0].retryable == a.retryable;
        FeedReads(o, batch, positions, i + 1, failures + [FailureOf(positions[i], a)], h);
      }
    }
  }

  lemma AfterUndisturbed(o: Oracle, failures: seq<Failure>, attempt: nat, f: Feed)
    requires 0 < attempt <= 3 && failures != [] && Undisturbed(o)
    ensures var (end, g) := AfterSpec(o, failures, attempt, f);
      && g.at.answers == f.at.answers
      && (end.None? <==> NoneFinal(failures) && attempt < 3)
      && (end.Some? ==> end.value.exit == Dropped(failures, attempt - 1))
  {
  }

  /** The batch ends delivered, or dropped with so many failures after so many retries. */
  ghost predicate Ends(r: Result, failures: nat, retries: nat) {
    if failures == 0 then r.exit.Delivered? else r.exit.Dropped? && |r.exit.failures| == failures && r.exit.retries == retries
  }

  /** One attempt: the end, or the packets that failed are worked on again, from the next answer on. */
  lemma AttemptReads(o: Oracle, batch: seq<Packet>, positions: seq<nat>, attempt: nat, f: Feed) returns (again: seq<nat>, h: Feed)
    requires Places(batch, positions) && 0 < attempt <= 3 && positions != [] && Filled(batch) && Undisturbed(o)
    ensures Places(batch, again) && |again| == Failing(o, f.at.answers, |positions|) && h.at.answers == Until(o, f.at.answers, |positions|)
    ensures var r := WorkSpec(o, batch, positions, attempt, f);
      if again != [] && Retryable(o, f.at.answers, h.at.answers) && attempt < 3 then r == WorkSpec(o, batch, again, attempt + 1, h)
      else Ends(r, |again|, attempt - 1)
  {
    var g := FenceLooked(f);
    var a := AttemptSpec(o, batch, positions, g);
    FeedReads(o, batch, positions, 0, [], FenceLooked(g));
    again, h := PositionsOf(a.failures), a.feed;
    if a.failures != [] {
      AfterUndisturbed(o, a.failures, attempt, a.feed);
      h := AfterSpec(o, a.failures, attempt, a.feed).1;
    }
  }

  /** With nothing to disturb it, how a batch ends is settled by the answers: as long as all its failures may be
      retried it is tried three times, each time with what failed before. It is delivered as soon as nothing
      fails, and dropped with what fails for good or fails the third time. */
  lemma EndsAsAnswered(o: Oracle, batch: seq<Packet>)
    requires batch != [] && Filled(batch) && Undisturbed(o)
    ensures
      var first, k1 := Failing(o, 0, |batch|), Until(o, 0, |batch|);
      var second, k2 := Failing(o, k1, first), Until(o, k1, first);
      var third := Failing(o, k2, second);
      var r := WorkSpec(o, batch, Positions(|batch|), 1, START);
      if !Retryable(o, 0, k1) then Ends(r, first, 0)
      else if !Retryable(o, k1, k2) then Ends(r, second, 1)
      else Ends(r, third, if first == 0 then 0 else if second == 0 then 1 else 2)
  {
    var second, h := AttemptReads(o, batch, Positions(|batch|), 1, START);
    if second != [] && Retryable(o, 0, h.at.answers) {
      var third, g := AttemptReads(o, batch, second, 2, h);
      if third != [] && Retryable(o, h.at.answers, g.at.answers) {
        var _, _ := AttemptReads(o, batch, third, 3, g);
      }
    }
  }

  /** A batch whose failures may all be retried is delivered if and only if the first, the second or the
      third attempt leaves no packet failing. */
  lemma DeliveredIff(o: Oracle, batch: seq<Packet>)
    requires batch != [] && Filled(batch) && Undisturbed(o)
    requires forall k: nat :: o.answers(k).Ok? || o.answers(k).retryable
    ensures
      var first, k1 := Failing(o, 0, |batch|), Until(o, 0, |batch|);
      var second, k2 := Failing(o, k1, first), Until(o, k1, first);
      WorkSpec(o, batch, Positions(|batch|), 1, START).exit.Delivered? <==> (first == 0 || second == 0 || Failing(o, k2, second) == 0)
  {
    EndsAsAnswered(o, batch);
  }
}
