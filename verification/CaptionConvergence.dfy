// The caption pipeline end to end: whatever order the transcripts of an utterance are delivered
// in, and however often, the scene ends up showing the newest one that was delivered.
module CaptionConvergence {
  import opened Text
  import opened Sequences
  import opened SceneState
  import opened SceneAgreement
  import T = Transcripts

  /** The event built from a transcript, as the scene reads it. It carries no display name. */
  function CaptionPayload(t: T.Transcript): Payload {
    CaptionText(t.text, t.speakerUserID, "", t.utteranceID, t.revision, t.final)
  }

  // ----- what one connection can send for an utterance -----

  ghost predicate SentFor(ts: seq<T.Transcript>, id: string, p: Payload) {
    exists j :: 0 <= j < |ts| && ts[j].utteranceID == id && p == CaptionPayload(ts[j])
  }

  /** Payloads of one utterance are told apart by their revision, and none follows the final. */
  lemma SentForOrdered(k: T.Speaker, inputs: seq<T.Input>, id: string, p: Payload, q: Payload)
    requires SentFor(T.Emitted(k, inputs), id, p) && SentFor(T.Emitted(k, inputs), id, q)
    ensures p.CaptionText? && q.CaptionText? && p.revision > 0
    ensures p.revision == q.revision ==> p == q
    ensures p.final ==> q.revision <= p.revision
  {
    var ts := T.Emitted(k, inputs);
    T.EmitsWellRevised(k, inputs);
    var i :| 0 <= i < |ts| && ts[i].utteranceID == id && p == CaptionPayload(ts[i]);
    var j :| 0 <= j < |ts| && ts[j].utteranceID == id && q == CaptionPayload(ts[j]);
    assert ts[i].revision == T.CountID(ts[..i], id) + 1;
  }

  // ----- what the scene shows for an utterance -----

  /** c shows the content of the payload p. */
  predicate Shows(c: Caption, p: Payload) {
    p.CaptionText? && c.revision == p.revision && c.final == p.final && c.text == CleanText(p.text, 500)
  }

  ghost predicate AllShow(captions: seq<Caption>, u: string, p: Payload) {
    forall c :: c in captions && c.utteranceID == u ==> Shows(c, p)
  }

  ghost predicate Present(captions: seq<Caption>, u: string) {
    exists c :: c in captions && c.utteranceID == u
  }

  ghost predicate Distinct(s: Scene) {
    Pairwise(OtherUtterance, s.captions) && |s.captions| <= s.config.maxCaptions
  }

  /** The operation gives the scene a valid caption of utterance u for the stream it shows. */
  predicate Delivers(s: Scene, op: Op, u: string) {
    op.ApplyOp? && op.payload.CaptionText? && PayloadValid(op.payload) && Accepts(s, op.stream, op.generation) &&
    CleanText(op.payload.utteranceID, 160) == u
  }

  /** No caption of u has expired by the time of the operation. */
  ghost predicate Unexpired(s: Scene, op: Op, u: string) {
    forall c :: c in s.captions && c.utteranceID == u ==>
      (op.ApplyOp? ==> CaptionAlive(op.now, c)) && (op.SnapshotOp? ==> CaptionAlive(op.at, c))
  }

  /** Every caption of u in cs comes from one in captions with the same content. */
  ghost predicate NothingNew(cs: seq<Caption>, captions: seq<Caption>, u: string) {
    forall c :: c in cs && c.utteranceID == u ==>
      exists d :: d in captions && d.utteranceID == u && d.revision == c.revision && d.final == c.final && d.text == c.text
  }

  lemma PrunedCaptions(s: Scene, now: int, t: Scene)
    requires Distinct(s) && Pruned(s, now, t)
    ensures t.config == s.config && t.roster == s.roster && Distinct(t)
    ensures forall c :: c in t.captions <==> c in s.captions && CaptionAlive(now, c)
  {
    var keep := (c: Caption) => CaptionAlive(now, c);
    FilterPairwise(keep, OtherUtterance, s.captions);
    forall c ensures c in t.captions <==> c in s.captions && CaptionAlive(now, c) { FilterMember(keep, s.captions, c); }
  }

  lemma RefreshNothingNew(r: Roster, captions: seq<Caption>, u: string)
    requires Pairwise(OtherUtterance, captions)
    ensures Pairwise(OtherUtterance, RefreshCaptions(r, captions)) && NothingNew(RefreshCaptions(r, captions), captions, u)
  {
    var cs := RefreshCaptions(r, captions);
    forall m, n | 0 <= m < n < |cs| ensures OtherUtterance(cs[m], cs[n]) {
      assert OtherUtterance(captions[m], captions[n]);
    }
    forall n | 0 <= n < |cs| && cs[n].utteranceID == u
      ensures exists d :: d in captions && d.utteranceID == u && d.revision == cs[n].revision && d.final == cs[n].final && d.text == cs[n].text {
      assert captions[n] in captions;
    }
  }

  /** Any other event leaves what is shown of u alone, except that it may remove it. */
  lemma OtherEffect(m: Scene, p: Payload, now: int, u: string)
    requires Distinct(m) && PayloadValid(p) && (p.CaptionText? ==> CleanText(p.utteranceID, 160) != u)
    ensures var t := Effect(m, p, now); t.config == m.config && Distinct(t) && NothingNew(t.captions, m.captions, u)
  {
    match p {
      case ParticipantsList(entries) => RefreshNothingNew(Effect(m, p, now).roster, m.captions, u);
      case SpeakerEdge(_, _, _) => RefreshNothingNew(Effect(m, p, now).roster, m.captions, u);
      case CaptionText(_, _, _, _, _, _) =>
        var v := ResolveVoice(m.roster, p);
        if Shown(m.captions, v) {
          MergeCaptionsOk(m.config, m.captions, v, now);
        }
      case _ =>
    }
  }

  lemma OtherApply(s: Scene, op: Op, t: Scene, u: string)
    requires Distinct(s) && op.ApplyOp? && OpStep(s, op, t) && !Delivers(s, op, u)
    ensures t.config == s.config && Distinct(t) && NothingNew(t.captions, s.captions, u)
  {
    if Accepts(s, op.stream, op.generation) {
      var ok :| Applied(s, op.stream, op.generation, op.payload, op.now, t, ok);
      var m :| Pruned(s, op.now, m) && t == if ok then Effect(m, op.payload, op.now) else m;
      PrunedCaptions(s, op.now, m);
      if ok {
        OtherEffect(m, op.payload, op.now, u);
      }
    }
  }

  lemma OtherStep(s: Scene, op: Op, t: Scene, u: string)
    requires Distinct(s) && OpStep(s, op, t) && !Delivers(s, op, u)
    ensures Distinct(t) && NothingNew(t.captions, s.captions, u)
  {
    match op {
      case ApplyOp(_, _, _, _) => OtherApply(s, op, t, u);
      case SnapshotOp(at) => PrunedCaptions(s, at, t);
      case _ =>
    }
  }

  /** Delivering p where b is shown leaves the newer of the two. */
  lemma MergeShows(m: Scene, p: Payload, now: int, u: string, b: Payload)
    requires Distinct(m) && PayloadValid(p) && p.CaptionText? && b.CaptionText? && u != "" && CleanText(p.utteranceID, 160) == u
    requires Present(m.captions, u) && AllShow(m.captions, u, b)
    requires p.revision > 0 && (p.revision == b.revision ==> p == b)
    requires (p.final ==> b.revision <= p.revision) && (b.final ==> p.revision <= b.revision)
    ensures var t := Effect(m, p, now); Distinct(t) && AllShow(t.captions, u, if p.revision < b.revision then b else p)
  {
    var v := ResolveVoice(m.roster, p);
    var same := CaptionIndex(m.captions, u);
    assert same >= 0 && m.captions[same] in m.captions;
    if Shown(m.captions, v) {
      MergeCaptionsOk(m.config, m.captions, v, now);
    }
  }

  lemma FirstShows(m: Scene, p: Payload, now: int, u: string)
    requires Distinct(m) && PayloadValid(p) && p.CaptionText? && u != "" && CleanText(p.utteranceID, 160) == u
    requires !Present(m.captions, u)
    ensures var t := Effect(m, p, now); Distinct(t) && AllShow(t.captions, u, p)
  {
    var v := ResolveVoice(m.roster, p);
    assert forall i :: 0 <= i < |m.captions| ==> m.captions[i] in m.captions;
    MergeCaptionsOk(m.config, m.captions, v, now);
  }

  // ----- runs -----

  /** The payloads of u delivered by the first n operations. */
  ghost function Delivered(states: seq<Scene>, ops: seq<Op>, u: string, n: nat): set<Payload>
    requires Run(states, ops) && n <= |ops|
  {
    set i | 0 <= i < n && Delivers(states[i], ops[i], u) :: PayloadOf(ops[i])
  }

  function PayloadOf(op: Op): Payload { if op.ApplyOp? then op.payload else OtherPayload }

  /** Once delivered, u neither expires nor is crowded out during the first n operations. */
  ghost predicate Uninterrupted(states: seq<Scene>, ops: seq<Op>, u: string, n: nat)
    requires Run(states, ops) && n <= |ops|
  {
    forall i :: 0 <= i < n ==> KeptAt(states, ops, u, i)
  }

  ghost predicate KeptAt(states: seq<Scene>, ops: seq<Op>, u: string, i: nat)
    requires Run(states, ops) && i < |ops|
  {
    && (Delivered(states, ops, u, i) != {} ==> Unexpired(states[i], ops[i], u))
    && (Delivered(states, ops, u, i + 1) != {} ==> Present(states[i + 1].captions, u))
  }

  /** Every caption the scene takes as u's was sent by the connection under the one utterance ID. */
  ghost predicate OneSource(states: seq<Scene>, ops: seq<Op>, u: string, ts: seq<T.Transcript>, id: string) {
    Run(states, ops) && forall i :: 0 <= i < |ops| && Delivers(states[i], ops[i], u) ==> SentFor(ts, id, ops[i].payload)
  }

  /** b is the greatest of the payloads in the order (final, revision), and none has a higher revision. */
  ghost predicate Newest(b: Payload, ps: set<Payload>) {
    b in ps && b.CaptionText? && forall p :: p in ps ==> p.CaptionText? && AtMost(p, b)
  }

  predicate AtMost(p: Payload, b: Payload)
    requires p.CaptionText? && b.CaptionText?
  {
    p.revision <= b.revision && (p.final ==> b.final)
  }

  lemma DeliveredNext(states: seq<Scene>, ops: seq<Op>, u: string, n: nat)
    requires Run(states, ops) && n < |ops|
    ensures Delivered(states, ops, u, n + 1) ==
      Delivered(states, ops, u, n) + if Delivers(states[n], ops[n], u) then {PayloadOf(ops[n])} else {}
  {
  }

  lemma DeliveryPrunesFirst(s: Scene, op: Op, t: Scene, u: string) returns (m: Scene)
    ensures OpStep(s, op, t) && Delivers(s, op, u) ==> Pruned(s, op.now, m) && t == Effect(m, op.payload, op.now)
  {
    m := s;
    if OpStep(s, op, t) && Delivers(s, op, u) {
      var ok :| Applied(s, op.stream, op.generation, op.payload, op.now, t, ok);
      m :| Pruned(s, op.now, m) && t == if ok then Effect(m, op.payload, op.now) else m;
    }
  }

  function NewerOf(known: set<Payload>, b: Payload, p: Payload): Payload {
    if known != {} && b.CaptionText? && p.CaptionText? && p.revision < b.revision then b else p
  }

  /** How a payload compares with the newest one so far, when one connection sent both. */
  predicate Comparable(p: Payload, b: Payload) {
    && p.CaptionText? && b.CaptionText? && (p.revision == b.revision ==> p == b)
    && (p.final ==> b.revision <= p.revision) && (b.final ==> p.revision <= b.revision)
  }

  lemma NewestGrows(known: set<Payload>, b: Payload, p: Payload)
    requires p.CaptionText? && (known != {} ==> Newest(b, known) && Comparable(p, b))
    ensures Newest(NewerOf(known, b, p), known + {p})
  {
  }

  /** The step of the induction below in which a payload arrives, once m is what pruning has left. */
  lemma DeliverStep(s: Scene, m: Scene, p: Payload, now: int, u: string, known: set<Payload>, b: Payload)
    requires Distinct(s) && Pruned(s, now, m) && PayloadValid(p) && p.CaptionText? && CleanText(p.utteranceID, 160) == u
    requires u != "" && p.revision > 0
    requires known == {} ==> !Present(s.captions, u)
    requires known != {} ==> Present(m.captions, u) && AllShow(s.captions, u, b) && Comparable(p, b)
    ensures var t := Effect(m, p, now); Distinct(t) && AllShow(t.captions, u, NewerOf(known, b, p))
  {
    PrunedCaptions(s, now, m);
    if known == {} {
      FirstShows(m, p, now, u);
    } else {
      MergeShows(m, p, now, u, b);
    }
  }

  /** What the induction carries: b is the newest payload delivered so far, and it is what u shows. */
  ghost predicate Tracked(s: Scene, u: string, known: set<Payload>, ts: seq<T.Transcript>, id: string, b: Payload) {
    && Distinct(s)
    && (known == {} ==> !Present(s.captions, u))
    && (known != {} ==> Newest(b, known) && AllShow(s.captions, u, b) && SentFor(ts, id, b))
  }

  lemma StillPresent(s: Scene, op: Op, m: Scene, u: string)
    requires Distinct(s) && op.ApplyOp? && Pruned(s, op.now, m) && Present(s.captions, u) && Unexpired(s, op, u)
    ensures Present(m.captions, u)
  {
    PrunedCaptions(s, op.now, m);
    var c :| c in s.captions && c.utteranceID == u;
    assert c in m.captions;
  }

  lemma TrackedDelivery(k: T.Speaker, inputs: seq<T.Input>, id: string, s: Scene, m: Scene, p: Payload, now: int, u: string, known: set<Payload>, b: Payload)
    requires Tracked(s, u, known, T.Emitted(k, inputs), id, b) && Pruned(s, now, m) && u != ""
    requires PayloadValid(p) && p.CaptionText? && CleanText(p.utteranceID, 160) == u && SentFor(T.Emitted(k, inputs), id, p)
    requires known != {} ==> Present(m.captions, u)
    ensures Tracked(Effect(m, p, now), u, known + {p}, T.Emitted(k, inputs), id, NewerOf(known, b, p))
  {
    SentForOrdered(k, inputs, id, p, p);
    if known != {} {
      SentForOrdered(k, inputs, id, p, b);
      SentForOrdered(k, inputs, id, b, p);
    }
    DeliverStep(s, m, p, now, u, known, b);
    NewestGrows(known, b, p);
  }

  lemma TrackedOther(s: Scene, op: Op, t: Scene, u: string, known: set<Payload>, ts: seq<T.Transcript>, id: string, b: Payload)
    requires Tracked(s, u, known, ts, id, b) && OpStep(s, op, t) && !Delivers(s, op, u)
    ensures Tracked(t, u, known, ts, id, b)
  {
    OtherStep(s, op, t, u);
  }

  lemma KnownPresent(states: seq<Scene>, ops: seq<Op>, u: string, n: nat)
    requires Run(states, ops) && n < |ops| && Uninterrupted(states, ops, u, n + 1) && Delivered(states, ops, u, n) != {}
    ensures Present(states[n].captions, u) && Unexpired(states[n], ops[n], u)
  {
    assert n > 0;
    assert KeptAt(states, ops, u, n) && KeptAt(states, ops, u, n - 1);
  }

  lemma RunStep(states: seq<Scene>, ops: seq<Op>, u: string, ts: seq<T.Transcript>, id: string, n: nat)
    requires OneSource(states, ops, u, ts, id) && n < |ops|
    ensures OpStep(states[n], ops[n], states[n + 1]) && (Delivers(states[n], ops[n], u) ==> SentFor(ts, id, ops[n].payload))
  {
  }

  lemma RunNext(k: T.Speaker, inputs: seq<T.Input>, id: string, states: seq<Scene>, ops: seq<Op>, u: string, n: nat, b: Payload) returns (c: Payload)
    requires OneSource(states, ops, u, T.Emitted(k, inputs), id) && n < |ops| && u != "" && Uninterrupted(states, ops, u, n + 1)
    requires Tracked(states[n], u, Delivered(states, ops, u, n), T.Emitted(k, inputs), id, b)
    ensures Tracked(states[n + 1], u, Delivered(states, ops, u, n + 1), T.Emitted(k, inputs), id, c)
  {
    var known := Delivered(states, ops, u, n);
    RunStep(states, ops, u, T.Emitted(k, inputs), id, n);
    DeliveredNext(states, ops, u, n);
    if known != {} {
      KnownPresent(states, ops, u, n);
    }
    c := StepShows(k, inputs, id, states[n], ops[n], states[n + 1], u, known, b);
  }

  lemma {:induction false} RunShows(k: T.Speaker, inputs: seq<T.Input>, id: string, states: seq<Scene>, ops: seq<Op>, u: string, n: nat) returns (b: Payload)
    requires OneSource(states, ops, u, T.Emitted(k, inputs), id) && n <= |ops| && u != ""
    requires Distinct(states[0]) && !Present(states[0].captions, u) && Uninterrupted(states, ops, u, n)
    ensures Tracked(states[n], u, Delivered(states, ops, u, n), T.Emitted(k, inputs), id, b)
  {
    if n == 0 {
      assert Delivered(states, ops, u, 0) == {};
      b := OtherPayload;
    } else {
      b := RunShows(k, inputs, id, states, ops, u, n - 1);
      b := RunNext(k, inputs, id, states, ops, u, n - 1, b);
    }
  }

  lemma StepShows(k: T.Speaker, inputs: seq<T.Input>, id: string, s: Scene, op: Op, t: Scene, u: string, known: set<Payload>, b: Payload) returns (c: Payload)
    requires Tracked(s, u, known, T.Emitted(k, inputs), id, b) && OpStep(s, op, t) && u != ""
    requires Delivers(s, op, u) ==> SentFor(T.Emitted(k, inputs), id, op.payload)
    requires known != {} ==> Present(s.captions, u) && Unexpired(s, op, u)
    ensures Tracked(t, u, known + if Delivers(s, op, u) then {PayloadOf(op)} else {}, T.Emitted(k, inputs), id, c)
  {
    if Delivers(s, op, u) {
      var m := DeliveryPrunesFirst(s, op, t, u);
      if known != {} {
        StillPresent(s, op, m, u);
      }
      TrackedDelivery(k, inputs, id, s, m, op.payload, op.now, u, known, b);
      c := NewerOf(known, b, op.payload);
    } else {
      TrackedOther(s, op, t, u, known, T.Emitted(k, inputs), id, b);
      assert known + {} == known;
      c := b;
    }
  }

  /** The scene shows exactly the newest of the delivered transcripts of an utterance, in text,
      revision and finality, whatever their order and however often each was repeated. A final one
      is never displaced. */
  lemma ShowsNewestDelivered(k: T.Speaker, inputs: seq<T.Input>, id: string, states: seq<Scene>, ops: seq<Op>, u: string, n: nat)
    requires OneSource(states, ops, u, T.Emitted(k, inputs), id) && n <= |ops| && u != ""
    requires Distinct(states[0]) && !Present(states[0].captions, u) && Uninterrupted(states, ops, u, n)
    requires Delivered(states, ops, u, n) != {}
    ensures Present(states[n].captions, u)
    ensures exists b :: Newest(b, Delivered(states, ops, u, n)) && AllShow(states[n].captions, u, b)
  {
    var b := RunShows(k, inputs, id, states, ops, u, n);
    assert n > 0;
    assert KeptAt(states, ops, u, n - 1);
  }

  /** Two scenes that were given the same transcripts of an utterance, each in its own order and
      among its own other events, show the same caption for it. */
  lemma Convergence(k: T.Speaker, inputs: seq<T.Input>, id: string, u: string,
                    states1: seq<Scene>, ops1: seq<Op>, states2: seq<Scene>, ops2: seq<Op>, c1: Caption, c2: Caption)
    requires OneSource(states1, ops1, u, T.Emitted(k, inputs), id) && OneSource(states2, ops2, u, T.Emitted(k, inputs), id) && u != ""
    requires Distinct(states1[0]) && !Present(states1[0].captions, u) && Uninterrupted(states1, ops1, u, |ops1|)
    requires Distinct(states2[0]) && !Present(states2[0].captions, u) && Uninterrupted(states2, ops2, u, |ops2|)
    requires Delivered(states1, ops1, u, |ops1|) == Delivered(states2, ops2, u, |ops2|)
    requires c1 in states1[|ops1|].captions && c1.utteranceID == u && c2 in states2[|ops2|].captions && c2.utteranceID == u
    ensures c1.text == c2.text && c1.revision == c2.revision && c1.final == c2.final
  {
    var b1 := RunShows(k, inputs, id, states1, ops1, u, |ops1|);
    var b2 := RunShows(k, inputs, id, states2, ops2, u, |ops2|);
    SentForOrdered(k, inputs, id, b1, b2);
  }

  /** The merge alone does not converge: without the producer's numbering, a final with a lower
      revision than an interim is lost if it comes second and wins if it comes first. */
  lemma MergeAloneDependsOnOrder(config: Config)
    requires config.maxCaptions > 0
    ensures var interim := Voice("u", 2, false, "a", "", "", "", false);
      var final := Voice("u", 1, true, "b", "", "", "", false);
      MergeCaptions(config, MergeCaptions(config, [], interim, 1), final, 1) != MergeCaptions(config, MergeCaptions(config, [], final, 1), interim, 1)
  {
    var interim := Voice("u", 2, false, "a", "", "", "", false);
    var final := Voice("u", 1, true, "b", "", "", "", false);
    var first := VoiceCaption(interim, 1, Expiry(config, interim, 1));
    var second := VoiceCaption(final, 1, Expiry(config, final, 1));
    assert MergeCaptions(config, [], interim, 1) == [first];
    assert WithoutReplaced(final, []) == [];
    assert MergeCaptions(config, [], final, 1) == [second];
    assert CaptionIndex([first], "u") == 0 && CaptionIndex([second], "u") == 0;
  }

  /** What the caption list shows for an utterance after one merge. */
  lemma MergeResult(config: Config, captions: seq<Caption>, v: Voice, now: int)
    requires config.maxCaptions > 0 && v.utteranceID != ""
    ensures var same := CaptionIndex(captions, v.utteranceID);
      var r := MergeCaptions(config, captions, v, now);
      var i := CaptionIndex(r, v.utteranceID);
      i >= 0 && r[i] == if same >= 0 && Ignored(captions[same], v) then captions[same] else VoiceCaption(v, now, Expiry(config, v, now))
  {
    var same := CaptionIndex(captions, v.utteranceID);
    var r := MergeCaptions(config, captions, v, now);
    if !(same >= 0 && Ignored(captions[same], v)) {
      if !v.final && same >= 0 {
        assert forall j :: same < j < |r| ==> r[j].utteranceID != v.utteranceID;
      } else {
        assert r[|r| - 1] == VoiceCaption(v, now, Expiry(config, v, now));
      }
    }
  }

  predicate SameShown(a: Caption, b: Caption) {
    a.text == b.text && a.revision == b.revision && a.final == b.final
  }

  /** Whether the caption shown for the event's utterance, if there is one, is kept against it. */
  predicate Refused(captions: seq<Caption>, v: Voice) {
    var same := CaptionIndex(captions, v.utteranceID);
    same >= 0 && Ignored(captions[same], v)
  }

  /** Two events of one utterance end up showing the same in either order if and only if they show the
      same themselves, or what is listed is kept against both, or it is kept against one of them and so
      is the other one, or exactly one of the two is kept against the other. */
  lemma MergeOrderIrrelevantIff(config: Config, captions: seq<Caption>, v: Voice, w: Voice, now: int)
    requires config.maxCaptions > 0 && v.utteranceID != "" && v.utteranceID == w.utteranceID
    ensures var vw := MergeCaptions(config, MergeCaptions(config, captions, v, now), w, now);
      var wv := MergeCaptions(config, MergeCaptions(config, captions, w, now), v, now);
      var i, j := CaptionIndex(vw, v.utteranceID), CaptionIndex(wv, v.utteranceID);
      var cv, cw := VoiceCaption(v, now, Expiry(config, v, now)), VoiceCaption(w, now, Expiry(config, w, now));
      i >= 0 && j >= 0 &&
      (SameShown(vw[i], wv[j]) <==>
        || SameShown(cv, cw)
        || (if Refused(captions, v) && Refused(captions, w) then true
            else if Refused(captions, v) then Ignored(cw, v)
            else if Refused(captions, w) then Ignored(cv, w)
            else Ignored(cv, w) != Ignored(cw, v)))
  {
    MergeResult(config, captions, v, now);
    MergeResult(config, captions, w, now);
    MergeResult(config, MergeCaptions(config, captions, v, now), w, now);
    MergeResult(config, MergeCaptions(config, captions, w, now), v, now);
  }

  /** For a new utterance and numbered events: if and only if equal finality comes with different
      revisions or equal text, and the final one has no lower revision than the interim one. What one
      connection emits meets both. */
  lemma NumberedOrderIrrelevantIff(config: Config, captions: seq<Caption>, v: Voice, w: Voice, now: int)
    requires config.maxCaptions > 0 && v.utteranceID != "" && v.utteranceID == w.utteranceID && CaptionIndex(captions, v.utteranceID) < 0
    requires v.revision > 0 && w.revision > 0
    ensures var vw := MergeCaptions(config, MergeCaptions(config, captions, v, now), w, now);
      var wv := MergeCaptions(config, MergeCaptions(config, captions, w, now), v, now);
      var i, j := CaptionIndex(vw, v.utteranceID), CaptionIndex(wv, v.utteranceID);
      i >= 0 && j >= 0 &&
      (SameShown(vw[i], wv[j]) <==>
        if v.final == w.final then v.revision != w.revision || v.text == w.text
        else if v.final then w.revision <= v.revision else v.revision <= w.revision)
  {
    MergeOrderIrrelevantIff(config, captions, v, w, now);
  }
}
