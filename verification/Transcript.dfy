// One speaker's connection to the transcription provider: recognition results become
// revisioned transcripts, grouped into utterances.
module Transcripts {
  import opened Text

  datatype Result = Result(text: string, final: bool, speechFinal: bool, utteranceEnd: bool,
                           receivedAt: int, startedAt: int, confidence: real)

  datatype Transcript = Transcript(text: string, speakerUserID: string, utteranceID: string, revision: nat, final: bool,
                                   startedAt: int, updatedAt: int, endedAt: int, confidence: real, reason: string, audioReceivedAt: int)

  /** Fixed when the connection is made. localFinalize is 0 when the feature is off. */
  datatype Speaker = Speaker(userID: string, ssrc: nat, localFinalize: int)

  /** The fields guarded by stateMu; a time of 0 is the zero time. */
  datatype Utterance = Utterance(sequence: nat, id: string, text: string, revision: nat, started: int,
                                 lastAudioAt: int, lastResultAt: int, lastConfidence: real)

  function UtteranceID(k: Speaker, sequence: nat): string {
    k.userID + "-" + Decimal(k.ssrc) + "-" + Decimal(sequence)
  }

  /** On one connection every utterance has its own ID. */
  lemma UtteranceIDInjective(k: Speaker, m: nat, n: nat)
    requires UtteranceID(k, m) == UtteranceID(k, n)
    ensures m == n
  {
    var prefix := k.userID + "-" + Decimal(k.ssrc) + "-";
    assert UtteranceID(k, m)[|prefix|..] == Decimal(m);
    assert UtteranceID(k, n)[|prefix|..] == Decimal(n);
    DecimalInjective(m, n);
  }

  // ----- specification -----

  function Build(k: Speaker, u: Utterance, now: int, final: bool, reason: string): Transcript {
    Transcript(u.text, k.userID, u.id, if final then u.revision + 1 else u.revision, final, u.started, now,
               if final then now else 0, u.lastConfidence, reason, u.lastAudioAt)
  }

  function Cleared(u: Utterance): Utterance {
    u.(id := "", text := "", revision := 0, started := 0, lastConfidence := 0.0)
  }

  function Opened(k: Speaker, u: Utterance, r: Result, now: int): Utterance {
    var v := if u.id != "" then u
             else u.(sequence := u.sequence + 1, id := UtteranceID(k, u.sequence + 1), started := if r.startedAt == 0 then now else r.startedAt);
    if r.startedAt < v.started && r.startedAt != 0 then v.(started := r.startedAt) else v
  }

  function ApplySpec(k: Speaker, u0: Utterance, r: Result, now: int): (Utterance, Option<Transcript>) {
    var u := u0.(lastResultAt := now);
    if r.utteranceEnd then
      if u.text == "" then (u, None) else (Cleared(u), Some(Build(k, u, now, true, "utterance_end")))
    else if r.text == "" then (u, None)
    else
      var v := Opened(k, u, r, now).(lastConfidence := r.confidence, text := r.text);
      if r.final || r.speechFinal then
        (Cleared(v), Some(Build(k, v, now, true, if r.speechFinal then "speech_final" else "is_final")))
      else if r.text == u.text then (v, None)
      else var w := v.(revision := v.revision + 1); (w, Some(Build(k, w, now, false, "")))
  }

  predicate FinalizeDue(k: Speaker, u: Utterance, now: int) {
    && k.localFinalize > 0 && u.text != "" && u.lastResultAt != 0 && now - u.lastResultAt >= k.localFinalize
    && (u.lastAudioAt == 0 || now - u.lastAudioAt >= k.localFinalize)
  }

  function FinalizeSpec(k: Speaker, u: Utterance, now: int): (Utterance, Option<Transcript>) {
    if FinalizeDue(k, u, now) then (Cleared(u), Some(Build(k, u, now, true, "local_finalize"))) else (u, None)
  }

  class SpeakerConnection {
    const speaker: Speaker
    var utteranceSeq: nat
    var utteranceID: string
    var utteranceText: string
    var utteranceRevision: nat
    var utteranceStarted: int
    var lastAudioAt: int
    var lastResultAt: int
    var lastConfidence: real

    ghost function View(): Utterance reads this {
      Utterance(utteranceSeq, utteranceID, utteranceText, utteranceRevision, utteranceStarted, lastAudioAt, lastResultAt, lastConfidence)
    }

    constructor (speaker: Speaker)
      ensures this.speaker == speaker && View() == Fresh()
    {
      this.speaker := speaker;
      utteranceSeq, utteranceID, utteranceText, utteranceRevision, utteranceStarted := 0, "", "", 0, 0;
      lastAudioAt, lastResultAt, lastConfidence := 0, 0, 0.0;
    }

    method MarkAudio(receivedAt: int, clock: int)
      modifies this`lastAudioAt
      ensures View() == old(View()).(lastAudioAt := if receivedAt == 0 then clock else receivedAt)
    {
      lastAudioAt := if receivedAt == 0 then clock else receivedAt;
    }

    /** Raises the revision of a final result, like the source, before it is read. */
    method BuildTranscript(now: int, final: bool, reason: string, text: string, confidence: real) returns (t: Transcript)
      modifies this`utteranceRevision
      ensures utteranceRevision == old(utteranceRevision) + if final then 1 else 0
      ensures t == Build(speaker, old(View()).(text := text, lastConfidence := confidence), now, final, reason)
    {
      if final {
        utteranceRevision := utteranceRevision + 1;
      }
      t := Transcript(text, speaker.userID, utteranceID, utteranceRevision, final, utteranceStarted, now,
                      if final then now else 0, confidence, reason, lastAudioAt);
    }

    method ResetUtterance()
      modifies this
      ensures View() == Cleared(old(View()))
    {
      utteranceID, utteranceText, utteranceRevision, utteranceStarted, lastConfidence := "", "", 0, 0, 0.0;
    }

    /** Starts an utterance if none is open, and moves its start back if the result says so. */
    method OpenUtterance(r: Result, now: int)
      modifies this`utteranceSeq, this`utteranceID, this`utteranceStarted
      ensures View() == Opened(speaker, old(View()), r, now)
    {
      if utteranceID == "" {
        utteranceSeq := utteranceSeq + 1;
        utteranceID := UtteranceID(speaker, utteranceSeq);
        utteranceStarted := r.startedAt;
        if utteranceStarted == 0 {
          utteranceStarted := now;
        }
      }
      if r.startedAt < utteranceStarted && r.startedAt != 0 {
        utteranceStarted := r.startedAt;
      }
    }

    method ApplyResult(r: Result, clock: int) returns (t: Option<Transcript>)
      modifies this
      ensures (View(), t) == ApplySpec(speaker, old(View()), r, if r.receivedAt == 0 then clock else r.receivedAt)
    {
      var now := if r.receivedAt == 0 then clock else r.receivedAt;
      lastResultAt := now;
      if r.utteranceEnd {
        if utteranceText == "" {
          return None;
        }
        var built := BuildTranscript(now, true, "utterance_end", utteranceText, lastConfidence);
        ResetUtterance();
        return Some(built);
      }
      if r.text == "" {
        return None;
      }
      OpenUtterance(r, now);
      lastConfidence := r.confidence;
      var changed := r.text != utteranceText;
      utteranceText := r.text;
      if r.final || r.speechFinal {
        var reason := if r.speechFinal then "speech_final" else "is_final";
        var built := BuildTranscript(now, true, reason, r.text, r.confidence);
        ResetUtterance();
        return Some(built);
      }
      if !changed {
        return None;
      }
      utteranceRevision := utteranceRevision + 1;
      var built := BuildTranscript(now, false, "", r.text, r.confidence);
      t := Some(built);
    }

    method LocalFinalizeDue(now: int) returns (t: Option<Transcript>)
      modifies this
      ensures (View(), t) == FinalizeSpec(speaker, old(View()), now)
    {
      if speaker.localFinalize <= 0 {
        return None;
      }
      if utteranceText == "" || lastResultAt == 0 || now - lastResultAt < speaker.localFinalize {
        return None;
      }
      if lastAudioAt != 0 && now - lastAudioAt < speaker.localFinalize {
        return None;
      }
      var built := BuildTranscript(now, true, "local_finalize", utteranceText, lastConfidence);
      ResetUtterance();
      t := Some(built);
    }
  }

  // ----- every run of one connection -----

  datatype Input = Recognised(r: Result, now: int) | Tick(now: int) | Audio(at: int)

  function Fresh(): Utterance { Utterance(0, "", "", 0, 0, 0, 0, 0.0) }

  function Step(k: Speaker, u: Utterance, i: Input): (Utterance, Option<Transcript>) {
    match i
    case Recognised(r, now) => ApplySpec(k, u, r, now)
    case Tick(now) => FinalizeSpec(k, u, now)
    case Audio(at) => (u.(lastAudioAt := at), None)
  }

  function Emit(out: Option<Transcript>): seq<Transcript> {
    if out.Some? then [out.value] else []
  }

  function State(k: Speaker, inputs: seq<Input>): Utterance {
    if inputs == [] then Fresh() else Step(k, State(k, inputs[..|inputs| - 1]), inputs[|inputs| - 1]).0
  }

  /** Everything the connection emits, in order. */
  function Emitted(k: Speaker, inputs: seq<Input>): seq<Transcript> {
    if inputs == [] then []
    else
      var before := inputs[..|inputs| - 1];
      Emitted(k, before) + Emit(Step(k, State(k, before), inputs[|inputs| - 1]).1)
  }

  function CountID(ts: seq<Transcript>, id: string): nat {
    if ts == [] then 0 else CountID(ts[..|ts| - 1], id) + if ts[|ts| - 1].utteranceID == id then 1 else 0
  }

  /** Per utterance the revisions are 1, 2, 3, ... without gaps, and a final one is the last. */
  ghost predicate WellRevised(ts: seq<Transcript>) {
    && (forall j :: 0 <= j < |ts| ==> ts[j].revision == CountID(ts[..j], ts[j].utteranceID) + 1)
    && (forall i, j :: 0 <= i < j < |ts| && ts[i].utteranceID == ts[j].utteranceID ==> !ts[i].final)
  }

  ghost predicate NotFinal(ts: seq<Transcript>, id: string) {
    forall j :: 0 <= j < |ts| && ts[j].utteranceID == id ==> !ts[j].final
  }

  /** Every transcript carries text and one of the first n utterance IDs of the connection. */
  ghost predicate Named(k: Speaker, n: nat, ts: seq<Transcript>) {
    forall j :: 0 <= j < |ts| ==> ts[j].text != "" && NamedUpto(k, n, ts[j].utteranceID)
  }

  ghost predicate NamedUpto(k: Speaker, n: nat, id: string) {
    exists m: nat :: m <= n && id == UtteranceID(k, m)
  }

  /** How the connection's fields relate to what it has emitted. */
  ghost predicate Tracks(k: Speaker, u: Utterance, ts: seq<Transcript>) {
    && WellRevised(ts)
    && (u.id == "" <==> u.text == "")
    && (u.id != "" ==> u.sequence > 0 && u.id == UtteranceID(k, u.sequence) && u.revision == CountID(ts, u.id))
    && (u.id == "" ==> u.revision == 0)
    && (u.id != "" ==> NotFinal(ts, u.id))
    && Named(k, u.sequence, ts)
  }

  lemma CountAbsent(ts: seq<Transcript>, id: string)
    requires forall j :: 0 <= j < |ts| ==> ts[j].utteranceID != id
    ensures CountID(ts, id) == 0
  {
  }

  lemma CountAppend(ts: seq<Transcript>, t: Transcript, id: string)
    ensures CountID(ts + [t], id) == CountID(ts, id) + if t.utteranceID == id then 1 else 0
  {
    assert (ts + [t])[..|ts|] == ts;
  }

  lemma RevisedAppend(ts: seq<Transcript>, t: Transcript)
    requires WellRevised(ts) && t.revision == CountID(ts, t.utteranceID) + 1
    requires NotFinal(ts, t.utteranceID)
    ensures WellRevised(ts + [t])
  {
    var more := ts + [t];
    forall j | 0 <= j < |more| ensures more[j].revision == CountID(more[..j], more[j].utteranceID) + 1 {
      assert more[..j] == ts[..j];
      assert j == |ts| ==> ts[..j] == ts;
    }
  }

  /** A result that opens an utterance gives it an ID nothing was emitted under. */
  lemma FreshID(k: Speaker, u: Utterance, ts: seq<Transcript>)
    requires Tracks(k, u, ts)
    ensures forall j :: 0 <= j < |ts| ==> ts[j].utteranceID != UtteranceID(k, u.sequence + 1)
    ensures CountID(ts, UtteranceID(k, u.sequence + 1)) == 0
  {
    forall j | 0 <= j < |ts| ensures ts[j].utteranceID != UtteranceID(k, u.sequence + 1) {
      assert NamedUpto(k, u.sequence, ts[j].utteranceID);
      var n: nat :| n <= u.sequence && ts[j].utteranceID == UtteranceID(k, n);
      if ts[j].utteranceID == UtteranceID(k, u.sequence + 1) {
        UtteranceIDInjective(k, n, u.sequence + 1);
      }
    }
    CountAbsent(ts, UtteranceID(k, u.sequence + 1));
  }

  lemma OpenTracks(k: Speaker, u: Utterance, ts: seq<Transcript>, r: Result, now: int)
    requires Tracks(k, u, ts) && r.text != ""
    ensures Tracks(k, Opened(k, u, r, now).(lastConfidence := r.confidence, text := r.text), ts)
  {
    FreshID(k, u, ts);
    assert |UtteranceID(k, u.sequence + 1)| > 0;
    NamedMore(k, u.sequence, Opened(k, u, r, now).sequence, ts);
  }

  lemma NamedMore(k: Speaker, m: nat, n: nat, ts: seq<Transcript>)
    requires Named(k, m, ts) && m <= n
    ensures Named(k, n, ts)
  {
    forall j | 0 <= j < |ts| ensures NamedUpto(k, n, ts[j].utteranceID) {
      assert NamedUpto(k, m, ts[j].utteranceID);
    }
  }

  /** One more transcript of the open utterance. */
  lemma NextTracks(k: Speaker, w: Utterance, ts: seq<Transcript>, t: Transcript)
    requires Tracks(k, w, ts) && w.id != "" && t.utteranceID == w.id && t.text != "" && t.revision == w.revision + 1
    ensures Tracks(k, if t.final then Cleared(w) else w.(revision := w.revision + 1), ts + [t])
  {
    RevisedAppend(ts, t);
    CountAppend(ts, t, w.id);
    assert NamedUpto(k, w.sequence, w.id);
  }

  lemma ApplyTracks(k: Speaker, u0: Utterance, r: Result, now: int, ts: seq<Transcript>)
    requires Tracks(k, u0, ts)
    ensures var (v, out) := ApplySpec(k, u0, r, now); Tracks(k, v, ts + Emit(out))
  {
    var (v, out) := ApplySpec(k, u0, r, now);
    var u := u0.(lastResultAt := now);
    assert Tracks(k, u, ts);
    if out.None? {
      assert ts + Emit(out) == ts;
    }
    if r.utteranceEnd {
      if u.text != "" {
        NextTracks(k, u, ts, out.value);
      }
    } else if r.text != "" {
      var w := Opened(k, u, r, now).(lastConfidence := r.confidence, text := r.text);
      OpenTracks(k, u, ts, r, now);
      if out.Some? {
        NextTracks(k, w, ts, out.value);
      }
    }
  }

  lemma StepTracks(k: Speaker, u: Utterance, i: Input, ts: seq<Transcript>)
    requires Tracks(k, u, ts)
    ensures var (v, out) := Step(k, u, i); Tracks(k, v, ts + Emit(out))
  {
    var (v, out) := Step(k, u, i);
    if out.None? {
      assert ts + Emit(out) == ts;
    }
    match i {
      case Recognised(r, now) => ApplyTracks(k, u, r, now, ts);
      case Tick(now) => if out.Some? { NextTracks(k, u, ts, out.value); }
      case Audio(_) =>
    }
  }

  lemma {:induction false} RunTracks(k: Speaker, inputs: seq<Input>)
    ensures Tracks(k, State(k, inputs), Emitted(k, inputs))
  {
    if inputs != [] {
      var before := inputs[..|inputs| - 1];
      RunTracks(k, before);
      StepTracks(k, State(k, before), inputs[|inputs| - 1], Emitted(k, before));
    }
  }

  /** Whatever the recogniser sends, one connection numbers the revisions of each utterance
      1, 2, 3, ... and closes it with at most one final, which is the last and the highest. */
  lemma EmitsWellRevised(k: Speaker, inputs: seq<Input>)
    ensures WellRevised(Emitted(k, inputs))
    ensures forall i, j :: 0 <= i < j < |Emitted(k, inputs)| && Emitted(k, inputs)[i].utteranceID == Emitted(k, inputs)[j].utteranceID ==>
      Emitted(k, inputs)[i].revision < Emitted(k, inputs)[j].revision && !Emitted(k, inputs)[i].final
  {
    RunTracks(k, inputs);
    var ts := Emitted(k, inputs);
    forall i, j | 0 <= i < j < |ts| && ts[i].utteranceID == ts[j].utteranceID ensures ts[i].revision < ts[j].revision {
      CountGrows(ts, i, j);
    }
  }

  lemma {:induction false} CountGrows(ts: seq<Transcript>, i: nat, j: nat)
    requires i < j <= |ts|
    ensures CountID(ts[..i], ts[i].utteranceID) < CountID(ts[..j], ts[i].utteranceID)
    decreases j
  {
    assert ts[..j][..j - 1] == ts[..j - 1];
    if i < j - 1 {
      CountGrows(ts, i, j - 1);
    }
  }
}
