// What the transcripts of one connection say: text, speaker, times and reason of each, told from the
// inputs alone, by what was recognised since the utterance began.
module TranscriptContent {
  import opened Text
  import opened Transcripts

  /** A result with text in it. */
  predicate Voiced(i: Input) {
    i.Recognised? && !i.r.utteranceEnd && i.r.text != ""
  }

  predicate AllVoiced(spoken: seq<Input>) {
    forall j {:trigger spoken[j]} :: 0 <= j < |spoken| ==> Voiced(spoken[j])
  }

  /** When anything was last recognised, and when audio was last sent; 0 for never. */
  function LastResult(inputs: seq<Input>): int {
    if inputs == [] then 0
    else if inputs[|inputs| - 1].Recognised? then inputs[|inputs| - 1].now
    else LastResult(inputs[..|inputs| - 1])
  }

  function LastAudio(inputs: seq<Input>): int {
    if inputs == [] then 0
    else if inputs[|inputs| - 1].Audio? then inputs[|inputs| - 1].at
    else LastAudio(inputs[..|inputs| - 1])
  }

  /** Results and audio have been missing for long enough to close an utterance. */
  predicate Silent(k: Speaker, inputs: seq<Input>, now: int) {
    && k.localFinalize > 0 && LastResult(inputs) != 0 && now - LastResult(inputs) >= k.localFinalize
    && (LastAudio(inputs) == 0 || now - LastAudio(inputs) >= k.localFinalize)
  }

  /** The input ends an utterance, if one is open. */
  predicate Closes(k: Speaker, inputs: seq<Input>, i: Input) {
    match i
    case Recognised(r, _) => r.utteranceEnd || (r.text != "" && (r.final || r.speechFinal))
    case Tick(now) => Silent(k, inputs, now)
    case Audio(_) => false
  }

  /** The results with text since the open utterance began; none while no utterance is open. */
  function Spoken(k: Speaker, inputs: seq<Input>): seq<Input> {
    if inputs == [] then []
    else
      var before, i := inputs[..|inputs| - 1], inputs[|inputs| - 1];
      if Closes(k, before, i) then [] else if Voiced(i) then Spoken(k, before) + [i] else Spoken(k, before)
  }

  /** The same with the input that comes next. */
  function SpokenWith(k: Speaker, inputs: seq<Input>, i: Input): seq<Input> {
    if Voiced(i) then Spoken(k, inputs) + [i] else Spoken(k, inputs)
  }

  /** How many utterances have begun. */
  function Begun(k: Speaker, inputs: seq<Input>): nat {
    if inputs == [] then 0
    else
      var before, i := inputs[..|inputs| - 1], inputs[|inputs| - 1];
      Begun(k, before) + if Voiced(i) && Spoken(k, before) == [] then 1 else 0
  }

  /** The earliest start any of the results names; one that names none counts with its arrival only if it
      is the first. */
  function EarliestStart(spoken: seq<Input>): int
    requires spoken != [] && AllVoiced(spoken)
  {
    var last := spoken[|spoken| - 1];
    if |spoken| == 1 then (if last.r.startedAt != 0 then last.r.startedAt else last.now)
    else
      var before := EarliestStart(spoken[..|spoken| - 1]);
      if last.r.startedAt != 0 && last.r.startedAt < before then last.r.startedAt else before
  }

  lemma {:induction false} EarliestIsLeast(spoken: seq<Input>)
    requires spoken != [] && AllVoiced(spoken)
    ensures forall j :: 0 <= j < |spoken| && spoken[j].r.startedAt != 0 ==> EarliestStart(spoken) <= spoken[j].r.startedAt
    ensures (exists j :: 0 <= j < |spoken| && EarliestStart(spoken) == spoken[j].r.startedAt) ||
            (spoken[0].r.startedAt == 0 && EarliestStart(spoken) == spoken[0].now)
  {
    if |spoken| > 1 {
      var before := spoken[..|spoken| - 1];
      EarliestIsLeast(before);
      assert forall j :: 0 <= j < |before| ==> before[j] == spoken[j];
    }
  }

  /** A transcript follows the input: it closes an open utterance, or brings text that is new. */
  predicate Speaks(k: Speaker, inputs: seq<Input>, i: Input) {
    if Closes(k, inputs, i) then SpokenWith(k, inputs, i) != []
    else Voiced(i) && (Spoken(k, inputs) == [] ||
                       (var last := Spoken(k, inputs)[|Spoken(k, inputs)| - 1]; last.Recognised? && last.r.text != i.r.text))
  }

  function TimeOf(i: Input): int {
    if i.Audio? then i.at else i.now
  }

  function Reason(i: Input): string {
    match i
    case Recognised(r, _) =>
      if r.utteranceEnd then "utterance_end" else if r.speechFinal then "speech_final" else if r.final then "is_final" else ""
    case Tick(_) => "local_finalize"
    case Audio(_) => ""
  }

  // ----- the fields of a connection, told from its inputs -----

  ghost predicate Reflects(k: Speaker, inputs: seq<Input>, u: Utterance) {
    var spoken := Spoken(k, inputs);
    && AllVoiced(spoken)
    && u.lastResultAt == LastResult(inputs) && u.lastAudioAt == LastAudio(inputs) && u.sequence == Begun(k, inputs)
    && (spoken == [] ==> u.text == "" && u.id == "")
    && (spoken != [] ==>
          && u.text == spoken[|spoken| - 1].r.text && u.lastConfidence == spoken[|spoken| - 1].r.confidence
          && u.id == UtteranceID(k, u.sequence) && u.id != "" && u.started == EarliestStart(spoken))
  }

  lemma IDNotEmpty(k: Speaker, n: nat)
    ensures UtteranceID(k, n) != ""
  {
    assert |UtteranceID(k, n)| >= 2;
  }

  lemma StateStep(k: Speaker, inputs: seq<Input>, i: Input)
    ensures State(k, inputs + [i]) == Step(k, State(k, inputs), i).0
    ensures Emitted(k, inputs + [i]) == Emitted(k, inputs) + Emit(Step(k, State(k, inputs), i).1)
    ensures LastResult(inputs + [i]) == if i.Recognised? then i.now else LastResult(inputs)
    ensures LastAudio(inputs + [i]) == if i.Audio? then i.at else LastAudio(inputs)
    ensures Spoken(k, inputs + [i]) == if Closes(k, inputs, i) then [] else SpokenWith(k, inputs, i)
    ensures Begun(k, inputs + [i]) == Begun(k, inputs) + if Voiced(i) && Spoken(k, inputs) == [] then 1 else 0
  {
    assert (inputs + [i])[..|inputs|] == inputs;
  }

  /** The transcript says what was recognised. */
  ghost predicate Says(k: Speaker, inputs: seq<Input>, i: Input, t: Transcript) {
    var spoken := SpokenWith(k, inputs, i);
    && spoken != [] && AllVoiced(spoken)
    && t.text == spoken[|spoken| - 1].r.text && t.confidence == spoken[|spoken| - 1].r.confidence
    && t.speakerUserID == k.userID && t.utteranceID == UtteranceID(k, Begun(k, inputs + [i]))
    && t.final == Closes(k, inputs, i) && t.reason == Reason(i)
    && t.startedAt == EarliestStart(spoken) && t.updatedAt == TimeOf(i) && t.endedAt == (if t.final then TimeOf(i) else 0)
    && t.audioReceivedAt == LastAudio(inputs)
  }

  lemma EarliestNext(spoken: seq<Input>, i: Input)
    requires Voiced(i) && AllVoiced(spoken)
    ensures EarliestStart(spoken + [i]) ==
            if spoken == [] then (if i.r.startedAt != 0 then i.r.startedAt else i.now)
            else if i.r.startedAt != 0 && i.r.startedAt < EarliestStart(spoken) then i.r.startedAt
            else EarliestStart(spoken)
  {
    assert (spoken + [i])[..|spoken|] == spoken;
  }

  /** The utterance as a result with text leaves it, before it is closed or counted. */
  ghost function WithResult(k: Speaker, u: Utterance, i: Input): Utterance
    requires Voiced(i)
  {
    Opened(k, u.(lastResultAt := i.now), i.r, i.now).(lastConfidence := i.r.confidence, text := i.r.text)
  }

  lemma ResultReflects(k: Speaker, inputs: seq<Input>, i: Input, u: Utterance)
    requires Reflects(k, inputs, u) && Voiced(i)
    ensures var v := WithResult(k, u, i);
      var n := Begun(k, inputs) + if Spoken(k, inputs) == [] then 1 else 0;
      && v.text == i.r.text && v.lastConfidence == i.r.confidence && v.lastResultAt == i.now && v.lastAudioAt == LastAudio(inputs)
      && v.sequence == n && v.id == UtteranceID(k, n) && v.id != "" && v.started == EarliestStart(Spoken(k, inputs) + [i])
  {
    IDNotEmpty(k, u.sequence + 1);
    EarliestNext(Spoken(k, inputs), i);
  }

  lemma ResultState(k: Speaker, inputs: seq<Input>, i: Input, u: Utterance)
    requires Reflects(k, inputs, u) && Voiced(i)
    ensures Reflects(k, inputs + [i], Step(k, u, i).0)
  {
    StateStep(k, inputs, i);
    ResultReflects(k, inputs, i, u);
    var v := WithResult(k, u, i);
    assert Step(k, u, i).0 == if Closes(k, inputs, i) then Cleared(v) else v.(revision := Step(k, u, i).0.revision);
  }

  lemma ResultSays(k: Speaker, inputs: seq<Input>, i: Input, u: Utterance)
    requires Reflects(k, inputs, u) && Voiced(i)
    ensures var out := Step(k, u, i).1; (out.Some? <==> Speaks(k, inputs, i)) && (out.Some? ==> Says(k, inputs, i, out.value))
  {
    StateStep(k, inputs, i);
    ResultReflects(k, inputs, i, u);
  }

  lemma OtherSays(k: Speaker, inputs: seq<Input>, i: Input, u: Utterance)
    requires Reflects(k, inputs, u) && !Voiced(i)
    ensures var (v, out) := Step(k, u, i);
      && Reflects(k, inputs + [i], v) && (out.Some? <==> Speaks(k, inputs, i)) && (out.Some? ==> Says(k, inputs, i, out.value))
  {
    StateStep(k, inputs, i);
  }

  lemma {:induction false} RunReflects(k: Speaker, inputs: seq<Input>)
    ensures Reflects(k, inputs, State(k, inputs))
  {
    if inputs != [] {
      var before, i := inputs[..|inputs| - 1], inputs[|inputs| - 1];
      assert before + [i] == inputs;
      RunReflects(k, before);
      StateStep(k, before, i);
      if Voiced(i) {
        ResultState(k, before, i, State(k, before));
      } else {
        OtherSays(k, before, i, State(k, before));
      }
    }
  }

  /** After any inputs, one more is answered with a transcript exactly when it brings new text or closes
      an open utterance. The transcript carries the text and confidence recognised last since the
      utterance began, the speaker, the earliest start, the time of the input, the reason it was closed
      for, and the time of the last audio. */
  lemma EmitsWhatWasRecognised(k: Speaker, inputs: seq<Input>, i: Input)
    ensures var was, more := Emitted(k, inputs), Emitted(k, inputs + [i]);
      if Speaks(k, inputs, i) then more != [] && more[..|more| - 1] == was && Says(k, inputs, i, more[|more| - 1]) else more == was
  {
    RunReflects(k, inputs);
    StateStep(k, inputs, i);
    if Voiced(i) {
      ResultSays(k, inputs, i, State(k, inputs));
    } else {
      OtherSays(k, inputs, i, State(k, inputs));
    }
  }
}
