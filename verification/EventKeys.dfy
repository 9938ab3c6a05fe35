// The latest-wins key under which a worker event is queued for retry.
module EventKeys {
  import opened Text

  datatype Kind = Participants | ActiveSpeaker | DiscordChat | CaptionTelop | CaptionFinal | OtherKind(name: string)

  /** An event on its way to the encoder. The two payload fields that the key depends on are
      None when the payload lacks them or holds something other than a string. */
  datatype Event = Event(id: string, stream: string, kind: Kind, messageID: Option<string>, utteranceID: Option<string>,
                         generation: nat, attempt: nat)

  function NamedKey(stream: string, family: string, id: string): string {
    stream + "\0" + family + "\0" + id
  }

  function ParticipantsKey(stream: string): string { stream + "\0" + "participants" }

  function SpeakerKey(stream: string): string { stream + "\0" + "active_speaker" }

  predicate HasID(field: Option<string>) {
    field.Some? && Trim(field.value) != ""
  }

  function WorkerEventKey(e: Event): string {
    var stream := Trim(e.stream);
    if e.kind.Participants? then ParticipantsKey(stream)
    else if e.kind.ActiveSpeaker? then SpeakerKey(stream)
    else if e.kind.DiscordChat? && HasID(e.messageID) then NamedKey(stream, "chat", Trim(e.messageID.value))
    else if (e.kind.CaptionTelop? || e.kind.CaptionFinal?) && HasID(e.utteranceID) then
      NamedKey(stream, "caption", Trim(e.utteranceID.value))
    else NamedKey(stream, "event", Trim(e.id))
  }

  /** What an event replaces: the roster, the speaker, one chat message, one utterance, or only itself. */
  datatype Slot = RosterSlot | SpeakerSlot | ChatSlot(id: string) | CaptionSlot(id: string) | OwnSlot(id: string)

  function SlotOf(e: Event): Slot {
    match e.kind
    case Participants => RosterSlot
    case ActiveSpeaker => SpeakerSlot
    case DiscordChat => if HasID(e.messageID) then ChatSlot(Trim(e.messageID.value)) else OwnSlot(Trim(e.id))
    case CaptionTelop => if HasID(e.utteranceID) then CaptionSlot(Trim(e.utteranceID.value)) else OwnSlot(Trim(e.id))
    case CaptionFinal => if HasID(e.utteranceID) then CaptionSlot(Trim(e.utteranceID.value)) else OwnSlot(Trim(e.id))
    case OtherKind(_) => OwnSlot(Trim(e.id))
  }

  function Suffix(slot: Slot): string {
    match slot
    case RosterSlot => "participants"
    case SpeakerSlot => "active_speaker"
    case ChatSlot(id) => "chat" + "\0" + id
    case CaptionSlot(id) => "caption" + "\0" + id
    case OwnSlot(id) => "event" + "\0" + id
  }

  lemma NamedKeySplits(stream: string, family: string, id: string)
    ensures NamedKey(stream, family, id) == stream + "\0" + (family + "\0" + id)
  {
  }

  lemma KeyIsStreamAndSuffix(e: Event)
    ensures WorkerEventKey(e) == Trim(e.stream) + "\0" + Suffix(SlotOf(e))
  {
    var stream := Trim(e.stream);
    match SlotOf(e) {
      case ChatSlot(id) => NamedKeySplits(stream, "chat", id);
      case CaptionSlot(id) => NamedKeySplits(stream, "caption", id);
      case OwnSlot(id) => NamedKeySplits(stream, "event", id);
      case _ =>
    }
  }

  lemma SuffixInjective(a: Slot, b: Slot)
    requires Suffix(a) == Suffix(b)
    ensures a == b
  {
    var sa, sb := Suffix(a), Suffix(b);
    assert sa[0] == sb[0] && sa[1] == sb[1];
    match a {
      case ChatSlot(id) => assert sa[5..] == id; if b.ChatSlot? { assert sb[5..] == b.id; }
      case CaptionSlot(id) => assert sa[8..] == id; if b.CaptionSlot? { assert sb[8..] == b.id; }
      case OwnSlot(id) => assert sa[6..] == id; if b.OwnSlot? { assert sb[6..] == b.id; }
      case _ =>
    }
  }

  /** Within one stream two events share a key exactly when they share a slot, so the queue
      replaces an event only by a newer state of the same thing. */
  lemma SameKeyIffSameSlot(a: Event, b: Event)
    requires Trim(a.stream) == Trim(b.stream)
    ensures WorkerEventKey(a) == WorkerEventKey(b) <==> SlotOf(a) == SlotOf(b)
  {
    KeyIsStreamAndSuffix(a);
    KeyIsStreamAndSuffix(b);
    if WorkerEventKey(a) == WorkerEventKey(b) {
      var prefix := Trim(a.stream) + "\0";
      assert (prefix + Suffix(SlotOf(a)))[|prefix|..] == Suffix(SlotOf(a));
      assert (prefix + Suffix(SlotOf(b)))[|prefix|..] == Suffix(SlotOf(b));
      SuffixInjective(SlotOf(a), SlotOf(b));
    }
  }
}
