// What the scene shows, and how one event changes it, as functions on values.
module SceneState {
  import opened Text
  import opened Sequences

  const SEEN_TTL: nat := 600000   // milliseconds
  const MAX_SEEN: nat := 256

  datatype Config = Config(maxChat: nat, chatTTL: nat, maxCaptions: nat, interimTTL: nat, finalTTL: nat, maxParticipants: nat,
                           maxItems: nat, reorderWindow: nat, showVoice: bool)

  datatype Participant = Participant(userID: string, displayName: string, avatarURL: string, isBot: bool, speaking: bool)

  datatype ChatMessage = ChatMessage(messageID: string, authorID: string, displayName: string, avatarURL: string, isBot: bool,
                                     content: string, createdAt: int, expiresAt: int)

  datatype Caption = Caption(utteranceID: string, revision: int, speakerUserID: string, speakerName: string, text: string,
                             final: bool, createdAt: int, expiresAt: int)

  datatype Kind = ChatKind | VoiceKind

  datatype Item = Item(id: string, kind: Kind, authorID: string, displayName: string, avatarURL: string, isBot: bool,
                       text: string, final: bool, revision: int, createdAt: int, expiresAt: int)

  datatype Roster = Roster(participants: map<string, Participant>, ids: seq<string>, speaking: set<string>)

  /** A time of 0 is the zero time. */
  datatype Scene = Scene(config: Config, stream: string, generation: nat, roster: Roster, chat: seq<ChatMessage>,
                         captions: seq<Caption>, conversation: seq<Item>, seen: map<string, int>)

  datatype RosterEntry = RosterEntry(userID: string, displayName: string, avatarURL: string, isBot: bool, speaking: bool)

  /** The payload fields as the scene reads them. An avatar URL that the avatar cache refuses is "". */
  datatype Payload =
    | ParticipantsList(entries: Option<seq<RosterEntry>>)
    | SpeakerEdge(userID: string, displayName: string, speaking: Option<bool>)
    | ChatPost(messageID: string, authorID: string, content: string, displayName: string, avatarURL: string, isBot: bool, createdAt: Option<int>)
    | CaptionText(text: string, speakerUserID: string, speakerName: string, utteranceID: string, revision: int, final: bool)
    | OtherPayload

  const EmptyRoster := Roster(map[], [], {})

  function Blank(s: Scene): Scene {
    s.(roster := EmptyRoster, chat := [], captions := [], conversation := [], seen := map[])
  }

  function Configured(s: Scene, maxItems: nat, reorderWindow: nat, interimTTL: nat, finalTTL: nat, showVoice: bool): Scene {
    var c := s.config;
    s.(config := c.(maxItems := if maxItems > 0 then maxItems else c.maxItems, reorderWindow := reorderWindow,
                    interimTTL := if interimTTL > 0 then interimTTL else c.interimTTL,
                    finalTTL := if finalTTL > 0 then finalTTL else c.finalTTL, showVoice := showVoice),
       conversation := if maxItems > 0 then TakeLast(maxItems, s.conversation) else s.conversation)
  }

  // ----- expiry -----

  predicate ChatAlive(now: int, m: ChatMessage) { m.expiresAt == 0 || m.expiresAt > now }
  predicate CaptionAlive(now: int, c: Caption) { c.expiresAt > now }
  predicate ItemAlive(now: int, i: Item) { i.expiresAt == 0 || i.expiresAt > now }

  /** Seen IDs lose their expired entries, and then the earliest to expire until 256 remain. */
  ghost predicate SeenPruned(seen: map<string, int>, now: int, t: map<string, int>) {
    && (forall k :: k in t ==> k in seen && t[k] == seen[k] && seen[k] > now)
    && (forall k, j :: k in t && j in seen && j !in t && seen[j] > now ==> seen[j] <= t[k])
    && |t| <= MAX_SEEN
    && (|t| < MAX_SEEN ==> forall k :: k in seen && seen[k] > now ==> k in t)
  }

  function AliveChat(now: int, chat: seq<ChatMessage>): seq<ChatMessage> { Filter((m: ChatMessage) => ChatAlive(now, m), chat) }
  function AliveCaptions(now: int, captions: seq<Caption>): seq<Caption> { Filter((c: Caption) => CaptionAlive(now, c), captions) }
  function AliveItems(now: int, conversation: seq<Item>): seq<Item> { Filter((i: Item) => ItemAlive(now, i), conversation) }

  function PruneLists(s: Scene, now: int): Scene {
    s.(chat := AliveChat(now, s.chat),
       captions := AliveCaptions(now, s.captions),
       conversation := AliveItems(now, s.conversation))
  }

  ghost predicate Pruned(s: Scene, now: int, t: Scene) {
    t == PruneLists(s, now).(seen := t.seen) && SeenPruned(s.seen, now, t.seen)
  }

  // ----- who is speaking -----

  ghost function SpeakingParticipants(r: Roster): set<string> {
    set u | u in r.speaking && u in r.participants
  }

  ghost function UniqueSpeaker(r: Roster): string {
    var candidates := SpeakingParticipants(r);
    if |candidates| > 1 then ""
    else if candidates != {} then var u :| u in candidates; u
    else if |r.ids| == 1 then r.ids[0]
    else ""
  }

  predicate UnknownName(name: string) {
    var n := Trim(name);
    n == "" || (|n| == 3 && n[0] in "mM" && n[1] in "iI" && n[2] in "cC")
  }

  ghost function ResolveUser(r: Roster, userID: string): string {
    if Trim(userID) == "" then UniqueSpeaker(r) else Trim(userID)
  }

  function ResolveName(r: Roster, user: string, name: string): string {
    var n := Trim(name);
    if user in r.participants && (UnknownName(n) || n == user) then r.participants[user].displayName else n
  }

  ghost function RefreshCaption(r: Roster, c: Caption): Caption {
    var user := ResolveUser(r, c.speakerUserID);
    if user != "" && user in r.participants then
      var name := ResolveName(r, user, c.speakerName);
      c.(speakerUserID := user,
         speakerName := if UnknownName(name) || name == user then r.participants[user].displayName else name)
    else c
  }

  ghost function RefreshItem(r: Roster, i: Item): Item {
    var user := ResolveUser(r, i.authorID);
    if i.kind == VoiceKind && user in r.participants then
      i.(authorID := user,
         displayName := if UnknownName(i.displayName) || i.displayName == user then r.participants[user].displayName else i.displayName,
         avatarURL := if i.avatarURL == "" then r.participants[user].avatarURL else i.avatarURL,
         isBot := r.participants[user].isBot)
    else i
  }

  ghost function RefreshCaptions(r: Roster, captions: seq<Caption>): seq<Caption> {
    Map((c: Caption) => RefreshCaption(r, c), captions)
  }

  ghost function RefreshItems(r: Roster, conversation: seq<Item>): seq<Item> {
    Map((i: Item) => RefreshItem(r, i), conversation)
  }

  ghost function Refresh(s: Scene): Scene {
    s.(captions := RefreshCaptions(s.roster, s.captions), conversation := RefreshItems(s.roster, s.conversation))
  }

  // ----- participants -----

  function AddEntry(max: nat, r: Roster, e: RosterEntry): Roster {
    var user := CleanText(e.userID, 128);
    if |r.ids| >= max || user == "" || user in r.participants then r
    else
      var name := CleanText(e.displayName, 80);
      Roster(r.participants[user := Participant(user, if name == "" then user else name, e.avatarURL, e.isBot, e.speaking)],
             r.ids + [user], if e.speaking then r.speaking + {user} else r.speaking)
  }

  function ListRoster(max: nat, entries: seq<RosterEntry>): Roster {
    if entries == [] then EmptyRoster else AddEntry(max, ListRoster(max, entries[..|entries| - 1]), entries[|entries| - 1])
  }

  function Silenced(r: Roster): Roster {
    r.(speaking := {}, participants := map u | u in r.participants :: r.participants[u].(speaking := false))
  }

  function SetSpeaking(max: nat, r: Roster, user: string, displayName: string, speaking: bool): Roster {
    var edge := if speaking then r.speaking + {user} else r.speaking - {user};
    if user in r.participants && r.participants[user].userID != "" then
      r.(speaking := edge, participants := r.participants[user := r.participants[user].(speaking := speaking)])
    else if user !in r.participants && speaking && |r.ids| < max then
      var name := CleanText(displayName, 80);
      Roster(r.participants[user := Participant(user, if name == "" then user else name, "", false, speaking)], r.ids + [user], edge)
    else r.(speaking := edge)
  }

  // ----- conversation -----

  /** The first entry with the ID, or the length. */
  function ItemIndex(conversation: seq<Item>, id: string): (i: nat)
    ensures i <= |conversation| && (i < |conversation| ==> conversation[i].id == id)
    ensures forall j :: 0 <= j < i ==> conversation[j].id != id
  {
    if conversation == [] || conversation[0].id == id then 0 else 1 + ItemIndex(conversation[1..], id)
  }

  /** The first entry created after the time, or the length. */
  function LaterIndex(conversation: seq<Item>, time: int): (i: nat)
    ensures i <= |conversation| && (i < |conversation| ==> time < conversation[i].createdAt)
    ensures forall j :: 0 <= j < i ==> conversation[j].createdAt <= time
  {
    if conversation == [] || time < conversation[0].createdAt then 0 else 1 + LaterIndex(conversation[1..], time)
  }

  function InsertPosition(config: Config, conversation: seq<Item>, item: Item): (p: nat)
    ensures p <= |conversation|
  {
    if conversation == [] || item.createdAt < conversation[|conversation| - 1].createdAt - config.reorderWindow then |conversation|
    else LaterIndex(conversation, item.createdAt)
  }

  function Insert(config: Config, conversation: seq<Item>, item: Item): seq<Item> {
    var same := ItemIndex(conversation, item.id);
    if item.id == "" || item.text == "" then conversation
    else if same < |conversation| then conversation[same := item]
    else TakeLast(config.maxItems, InsertAt(conversation, InsertPosition(config, conversation, item), item))
  }

  // ----- captions -----

  /** A caption event after cleaning and speaker resolution. */
  datatype Voice = Voice(utteranceID: string, revision: int, final: bool, text: string, speakerUserID: string, speakerName: string,
                         avatarURL: string, isBot: bool)

  function VoiceItemID(utteranceID: string, speaker: string): string {
    "voice:" + if utteranceID == "" then speaker + ":active" else utteranceID
  }

  function VoiceItem(v: Voice, now: int, expiresAt: int): Item {
    Item(VoiceItemID(v.utteranceID, v.speakerUserID), VoiceKind, v.speakerUserID, v.speakerName, v.avatarURL, v.isBot, v.text, v.final, v.revision, now, expiresAt)
  }

  function VoiceCaption(v: Voice, now: int, expiresAt: int): Caption {
    Caption(v.utteranceID, v.revision, v.speakerUserID, v.speakerName, v.text, v.final, now, expiresAt)
  }

  /** The last caption of the utterance, or -1; an empty ID names no utterance. */
  function CaptionIndex(captions: seq<Caption>, utteranceID: string): (i: int)
    ensures -1 <= i < |captions|
    ensures i >= 0 ==> utteranceID != "" && captions[i].utteranceID == utteranceID
    ensures utteranceID != "" ==> forall j :: i < j < |captions| ==> captions[j].utteranceID != utteranceID
  {
    if captions == [] || utteranceID == "" then -1
    else if captions[|captions| - 1].utteranceID == utteranceID then |captions| - 1
    else CaptionIndex(captions[..|captions| - 1], utteranceID)
  }

  /** A late interim never reopens a final; a lower revision never replaces a higher one; an equal
      or unversioned final repeats what is shown. */
  predicate Ignored(existing: Caption, v: Voice) {
    || (!v.final && existing.final)
    || (v.revision > 0 && existing.revision > v.revision)
    || (v.final && existing.final && (v.revision == 0 || existing.revision >= v.revision))
  }

  predicate ReplacedByFinal(v: Voice, c: Caption) {
    if v.utteranceID != "" then c.utteranceID == v.utteranceID else !c.final && c.speakerUserID == v.speakerUserID
  }

  predicate RemovedByFinal(v: Voice, i: Item) {
    i.kind == VoiceKind &&
    (if v.utteranceID != "" then i.id == "voice:" + v.utteranceID else !i.final && i.authorID == v.speakerUserID)
  }

  function WithoutReplaced(v: Voice, captions: seq<Caption>): seq<Caption> { Filter((c: Caption) => !ReplacedByFinal(v, c), captions) }
  function WithoutRemoved(v: Voice, conversation: seq<Item>): seq<Item> { Filter((i: Item) => !RemovedByFinal(v, i), conversation) }

  function Expiry(config: Config, v: Voice, now: int): int {
    now + if v.final then config.finalTTL else config.interimTTL
  }

  function MergeCaptions(config: Config, captions: seq<Caption>, v: Voice, now: int): seq<Caption> {
    var same := CaptionIndex(captions, v.utteranceID);
    var caption := VoiceCaption(v, now, Expiry(config, v, now));
    if same >= 0 && Ignored(captions[same], v) then captions
    else if v.final then TakeLast(config.maxCaptions, WithoutReplaced(v, captions) + [caption])
    else if same >= 0 then captions[same := caption]
    else TakeLast(config.maxCaptions, captions + [caption])
  }

  function UpsertVoice(config: Config, conversation: seq<Item>, v: Voice, now: int): seq<Item> {
    var kept := if v.final then WithoutRemoved(v, conversation) else conversation;
    if config.showVoice then Insert(config, kept, VoiceItem(v, now, Expiry(config, v, now))) else kept
  }

  function MergeConversation(config: Config, captions: seq<Caption>, conversation: seq<Item>, v: Voice, now: int): seq<Item> {
    var same := CaptionIndex(captions, v.utteranceID);
    if same >= 0 && Ignored(captions[same], v) then conversation else UpsertVoice(config, conversation, v, now)
  }

  function MergeVoice(s: Scene, v: Voice, now: int): Scene {
    s.(captions := MergeCaptions(s.config, s.captions, v, now),
       conversation := MergeConversation(s.config, s.captions, s.conversation, v, now))
  }

  ghost function ResolveVoice(r: Roster, p: Payload): Voice
    requires p.CaptionText?
  {
    var user := ResolveUser(r, CleanText(p.speakerUserID, 128));
    var name := ResolveName(r, user, CleanText(p.speakerName, 80));
    var shown := if name == "" && user in r.participants then r.participants[user].displayName else name;
    Voice(CleanText(p.utteranceID, 160), p.revision, p.final, CleanText(p.text, 500), user,
          if shown == "" && user != "" then user else shown,
          if user in r.participants then r.participants[user].avatarURL else "",
          user in r.participants && r.participants[user].isBot)
  }

  // ----- chat -----

  function ChatOf(config: Config, p: Payload, now: int): ChatMessage
    requires p.ChatPost?
  {
    var author := CleanText(p.authorID, 128);
    var name := CleanText(p.displayName, 80);
    ChatMessage(CleanText(p.messageID, 128), author, if name == "" then author else name, p.avatarURL, p.isBot,
                CleanText(p.content, 1000), if p.createdAt.Some? then p.createdAt.value else now,
                if config.chatTTL > 0 then now + config.chatTTL else 0)
  }

  function ChatItem(m: ChatMessage): Item {
    Item("chat:" + m.messageID, ChatKind, m.authorID, m.displayName, m.avatarURL, m.isBot, m.content, false, 0, m.createdAt, m.expiresAt)
  }

  function PostChat(s: Scene, m: ChatMessage, now: int): Scene {
    if m.messageID in s.seen then s
    else s.(chat := TakeLast(s.config.maxChat, s.chat + [m]), seen := s.seen[m.messageID := now + SEEN_TTL],
            conversation := Insert(s.config, s.conversation, ChatItem(m)))
  }

  // ----- one event -----

  predicate Accepts(s: Scene, stream: string, generation: nat) {
    s.stream != "" && Trim(stream) == s.stream && (generation == 0 || generation == s.generation)
  }

  predicate PayloadValid(p: Payload) {
    match p
    case ParticipantsList(entries) => entries.Some?
    case SpeakerEdge(userID, _, speaking) => CleanText(userID, 128) != "" || speaking != Some(true)
    case ChatPost(messageID, authorID, content, _, _, _, _) =>
      CleanText(messageID, 128) != "" && CleanText(authorID, 128) != "" && CleanText(content, 1000) != ""
    case CaptionText(text, _, _, _, _, _) => CleanText(text, 500) != ""
    case OtherPayload => true
  }

  ghost function Effect(s: Scene, p: Payload, now: int): Scene
    requires PayloadValid(p)
  {
    match p
    case ParticipantsList(entries) => Refresh(s.(roster := ListRoster(s.config.maxParticipants, entries.value)))
    case SpeakerEdge(userID, displayName, speaking) =>
      var user := CleanText(userID, 128);
      var on := if speaking.Some? then speaking.value else user != "";
      if !on && user == "" then s.(roster := Silenced(s.roster))
      else Refresh(s.(roster := SetSpeaking(s.config.maxParticipants, s.roster, user, displayName, on)))
    case ChatPost(_, _, _, _, _, _, _) => PostChat(s, ChatOf(s.config, p, now), now)
    case CaptionText(_, _, _, _, _, _) => MergeVoice(s, ResolveVoice(s.roster, p), now)
    case OtherPayload => s
  }

  /** Apply: an event for another stream or generation changes nothing; any other prunes first, and an
      invalid payload changes nothing else. */
  ghost predicate Applied(s: Scene, stream: string, generation: nat, p: Payload, now: int, t: Scene, ok: bool) {
    if !Accepts(s, stream, generation) then t == s && !ok
    else ok == PayloadValid(p) && exists m :: Pruned(s, now, m) && t == if ok then Effect(m, p, now) else m
  }
}
