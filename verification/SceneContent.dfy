// What the lists of the scene hold after an event: the message, caption or roster it brought, entry by
// entry, and where in the conversation it stands.
module SceneContent {
  import opened Text
  import opened Sequences
  import opened SceneState

  // ----- the conversation -----

  /** Where a new entry belongs: at the end if the list is empty or the entry is older than its last by
      more than the reorder window, and before the first later entry otherwise. */
  ghost predicate Belongs(window: int, list: seq<Item>, createdAt: int, q: nat) {
    && q <= |list|
    && if list == [] || createdAt + window < list[|list| - 1].createdAt then q == |list|
       else (forall j :: 0 <= j < q ==> list[j].createdAt <= createdAt) && (q < |list| ==> createdAt < list[q].createdAt)
  }

  ghost predicate Lists(list: seq<Item>, id: string) {
    exists j :: 0 <= j < |list| && list[j].id == id
  }

  /** The entry with the item's ID is replaced where it stands; a new entry is put where it belongs, and
      then the newest stay. */
  ghost predicate Placed(config: Config, list: seq<Item>, y: Item, t: seq<Item>) {
    if Lists(list, y.id) then exists j :: 0 <= j < |list| && list[j].id == y.id && t == list[j := y]
    else exists q: nat :: Belongs(config.reorderWindow, list, y.createdAt, q) && t == Newest(config.maxItems, list[..q] + [y] + list[q..])
  }

  /** The last n entries. */
  function Newest<T>(n: nat, s: seq<T>): seq<T> {
    if |s| <= n then s else s[|s| - n..]
  }

  lemma InsertPlaces(config: Config, list: seq<Item>, y: Item)
    requires y.id != "" && y.text != ""
    ensures Placed(config, list, y, Insert(config, list, y))
  {
    var same := ItemIndex(list, y.id);
    if Lists(list, y.id) {
      var j :| 0 <= j < |list| && list[j].id == y.id;
      assert same < |list|;
      assert Insert(config, list, y) == list[same := y];
    } else {
      var q := InsertPosition(config, list, y);
      assert Belongs(config.reorderWindow, list, y.createdAt, q);
    }
  }

  lemma InsertedAt(list: seq<Item>, q: nat, y: Item, j: nat)
    requires q <= |list| && !Lists(list, y.id) && j <= |list|
    ensures var all := list[..q] + [y] + list[q..]; |all| == |list| + 1 && (all[j].id == y.id <==> j == q) && all[q] == y
  {
    var all := list[..q] + [y] + list[q..];
    assert j < q ==> all[j] == list[j];
    assert j > q ==> all[j] == list[j - 1];
  }

  lemma NewestHas(n: nat, list: seq<Item>, q: nat, y: Item)
    requires q <= |list| && !Lists(list, y.id)
    ensures var t := Newest(n, list[..q] + [y] + list[q..]);
      (Lists(t, y.id) <==> |list| + 1 <= q + n) && (Lists(t, y.id) ==> y in t)
  {
    var all := list[..q] + [y] + list[q..];
    var t := Newest(n, all);
    var cut := |all| - |t|;
    forall j | 0 <= j < |t| ensures t[j] == all[j + cut] && (t[j].id == y.id <==> j + cut == q) {
      InsertedAt(list, q, y, j + cut);
    }
    InsertedAt(list, q, y, q);
    if cut <= q {
      assert t[q - cut] == y;
    }
  }

  /** A new entry is in the list afterwards if and only if it did not belong so far to the front of a full
      list that it was pushed out at once. */
  lemma PlacedIff(config: Config, list: seq<Item>, y: Item, t: seq<Item>)
    requires Placed(config, list, y, t) && !Lists(list, y.id)
    ensures Lists(t, y.id) ==> y in t
    ensures Lists(t, y.id) <==> exists q: nat :: Belongs(config.reorderWindow, list, y.createdAt, q) && |list| + 1 <= q + config.maxItems
  {
    var q: nat :| Belongs(config.reorderWindow, list, y.createdAt, q) && t == Newest(config.maxItems, list[..q] + [y] + list[q..]);
    NewestHas(config.maxItems, list, q, y);
    forall p: nat | Belongs(config.reorderWindow, list, y.createdAt, p) ensures p == q {
      OnePlace(config.reorderWindow, list, y.createdAt, p, q);
    }
  }

  lemma OnePlace(window: int, list: seq<Item>, createdAt: int, p: nat, q: nat)
    requires Belongs(window, list, createdAt, p) && Belongs(window, list, createdAt, q)
    ensures p == q
  {
  }

  // ----- a chat message -----

  /** The list loses what has expired, and keeps the rest in order. */
  lemma AliveChatIs(now: int, chat: seq<ChatMessage>, m: ChatMessage)
    ensures m in AliveChat(now, chat) <==> m in chat && (m.expiresAt == 0 || m.expiresAt > now)
  {
    FilterMember((x: ChatMessage) => ChatAlive(now, x), chat, m);
  }

  /** The message carries what was posted, cleaned. */
  ghost predicate CarriesPost(x: ChatMessage, p: Payload, config: Config, now: int)
    requires p.ChatPost?
  {
    && x.messageID == CleanText(p.messageID, 128) && x.authorID == CleanText(p.authorID, 128) && x.content == CleanText(p.content, 1000)
    && x.displayName == (if CleanText(p.displayName, 80) != "" then CleanText(p.displayName, 80) else x.authorID)
    && x.avatarURL == p.avatarURL && x.isBot == p.isBot
    && x.createdAt == (if p.createdAt.Some? then p.createdAt.value else now)
    && x.expiresAt == (if config.chatTTL > 0 then now + config.chatTTL else 0)
  }

  /** The entry of the conversation shows the same as the message. */
  ghost predicate ShowsMessage(y: Item, x: ChatMessage) {
    && y.id == "chat:" + x.messageID && y.kind == ChatKind && y.authorID == x.authorID && y.displayName == x.displayName
    && y.avatarURL == x.avatarURL && y.isBot == x.isBot && y.text == x.content && y.createdAt == x.createdAt && y.expiresAt == x.expiresAt
  }

  /** The message stands at the end of the chat and where it belongs in the conversation, and its ID will
      be known for ten minutes. */
  ghost predicate Posted(m: Scene, p: Payload, now: int, t: Scene, x: ChatMessage, y: Item)
    requires p.ChatPost?
  {
    && CarriesPost(x, p, m.config, now) && ShowsMessage(y, x)
    && t.chat == Newest(m.config.maxChat, m.chat + [x]) && Placed(m.config, m.conversation, y, t.conversation)
    && t.seen == m.seen[x.messageID := now + 600000]
    && t.config == m.config && t.stream == m.stream && t.generation == m.generation && t.roster == m.roster && t.captions == m.captions
  }

  lemma ChatCarries(config: Config, p: Payload, now: int)
    requires p.ChatPost?
    ensures CarriesPost(ChatOf(config, p, now), p, config, now)
  {
  }

  lemma ChatPlaced(m: Scene, x: ChatMessage, now: int)
    requires x.messageID !in m.seen && x.content != ""
    ensures var t := PostChat(m, x, now);
      && t.chat == Newest(m.config.maxChat, m.chat + [x]) && Placed(m.config, m.conversation, ChatItem(x), t.conversation)
      && t == m.(chat := t.chat, conversation := t.conversation, seen := m.seen[x.messageID := now + 600000])
  {
    assert |ChatItem(x).id| >= 5;
    InsertPlaces(m.config, m.conversation, ChatItem(x));
  }

  lemma PostShows(m: Scene, p: Payload, now: int) returns (x: ChatMessage, y: Item)
    requires p.ChatPost? && PayloadValid(p) && CleanText(p.messageID, 128) !in m.seen
    ensures Posted(m, p, now, Effect(m, p, now), x, y)
  {
    x := ChatOf(m.config, p, now);
    y := ChatItem(x);
    ChatCarries(m.config, p, now);
    ChatPlaced(m, x, now);
  }

  /** An accepted chat message whose ID is not known is shown in both lists; one whose ID is known changes
      nothing. Either way the scene has been pruned before. */
  lemma ChatShown(s: Scene, stream: string, generation: nat, p: Payload, now: int, t: Scene)
    returns (m: Scene, x: ChatMessage, y: Item)
    requires p.ChatPost? && PayloadValid(p) && Accepts(s, stream, generation) && Applied(s, stream, generation, p, now, t, true)
    ensures Pruned(s, now, m)
    ensures if CleanText(p.messageID, 128) in m.seen then t == m else Posted(m, p, now, t, x, y)
  {
    m :| Pruned(s, now, m) && t == Effect(m, p, now);
    if CleanText(p.messageID, 128) !in m.seen {
      x, y := PostShows(m, p, now);
    } else {
      x, y := ChatOf(m.config, p, now), ChatItem(ChatOf(m.config, p, now));
    }
  }

  /** With room for any chat at all, the message just posted is its last. */
  lemma PostedIsLast(m: Scene, p: Payload, now: int, t: Scene, x: ChatMessage, y: Item)
    requires p.ChatPost? && Posted(m, p, now, t, x, y) && m.config.maxChat > 0
    ensures t.chat != [] && t.chat[|t.chat| - 1] == x
  {
  }

  lemma EqualWhenFull(part: map<string, int>, whole: set<string>, k: string)
    requires part.Keys <= whole && |whole| <= |part| && k in whole
    ensures k in part
  {
    SubsetSize(part.Keys + {k}, whole);
    assert k !in part ==> |part.Keys + {k}| == |part| + 1;
  }

  /** A known ID is forgotten when its time is up, or to make room when there are more than 256. */
  lemma SeenStays(seen: map<string, int>, now: int, t: map<string, int>, id: string)
    requires SeenPruned(seen, now, t) && id in seen && seen[id] > now && |seen| <= 256
    ensures id in t
  {
    if |t| == MAX_SEEN {
      EqualWhenFull(t, seen.Keys, id);
    }
  }

  /** Before its time is up an ID is only forgotten for 256 others that expire no earlier. */
  lemma ForgottenFor256(seen: map<string, int>, now: int, t: map<string, int>, id: string)
    requires SeenPruned(seen, now, t) && id in seen && seen[id] > now && id !in t
    ensures |t| == 256 && forall k :: k in t ==> seen[id] <= t[k]
  {
  }

  /** A second delivery within the ten minutes changes nothing but what pruning does. */
  lemma RepeatIgnored(s: Scene, stream: string, generation: nat, p: Payload, now: int, t: Scene)
    requires p.ChatPost? && PayloadValid(p) && Accepts(s, stream, generation) && Applied(s, stream, generation, p, now, t, true)
    requires var id := CleanText(p.messageID, 128); id in s.seen && s.seen[id] > now && |s.seen| <= 256
    ensures Pruned(s, now, t)
  {
    var m :| Pruned(s, now, m) && t == Effect(m, p, now);
    SeenStays(s.seen, now, m.seen, CleanText(p.messageID, 128));
  }

  // ----- a caption -----

  /** The caption carries what was recognised, cleaned, and lives as long as its kind does. */
  ghost predicate CarriesCaption(c: Caption, p: Payload, config: Config, now: int)
    requires p.CaptionText?
  {
    && c.utteranceID == CleanText(p.utteranceID, 160) && c.text == CleanText(p.text, 500)
    && c.revision == p.revision && c.final == p.final && c.createdAt == now
    && c.expiresAt == now + (if p.final then config.finalTTL else config.interimTTL)
  }

  /** The entry of the conversation shows the same as the caption. */
  ghost predicate ShowsCaption(y: Item, c: Caption) {
    && y.id == "voice:" + c.utteranceID && y.kind == VoiceKind && y.authorID == c.speakerUserID && y.displayName == c.speakerName
    && y.text == c.text && y.revision == c.revision && y.final == c.final && y.createdAt == c.createdAt && y.expiresAt == c.expiresAt
  }

  /** The only speaker there is: the one listed participant marked as speaking, or, when none is, the only
      one listed. */
  ghost predicate OnlySpeaker(r: Roster, user: string) {
    || (forall u :: u in r.speaking && u in r.participants <==> u == user)
    || ((forall u :: u in r.speaking ==> u !in r.participants) && r.ids == [user])
  }

  /** The caption is of the user it names, or of the only speaker; a listed user goes by the listed name
      when the caption names none. */
  ghost predicate SpokenBy(c: Caption, p: Payload, r: Roster)
    requires p.CaptionText?
  {
    var named := Trim(CleanText(p.speakerUserID, 128));
    && (named != "" ==> c.speakerUserID == named)
    && (forall user :: named == "" && OnlySpeaker(r, user) ==> c.speakerUserID == user)
    && (CleanText(p.speakerName, 80) == "" && c.speakerUserID in r.participants && r.participants[c.speakerUserID].displayName != "" ==>
          c.speakerName == r.participants[c.speakerUserID].displayName)
  }

  lemma OneOf(all: set<string>, user: string)
    requires forall u :: u in all <==> u == user
    ensures |all| == 1 && all == {user}
  {
    assert all == {user};
  }

  lemma OnlySpeakerIs(r: Roster, user: string)
    requires OnlySpeaker(r, user)
    ensures UniqueSpeaker(r) == user
  {
    var all := SpeakingParticipants(r);
    if forall u :: u in r.speaking && u in r.participants <==> u == user {
      OneOf(all, user);
    } else {
      assert all == {};
    }
  }

  lemma SpeakerResolved(r: Roster, p: Payload)
    requires p.CaptionText?
    ensures forall c: Caption :: c.speakerUserID == ResolveVoice(r, p).speakerUserID && c.speakerName == ResolveVoice(r, p).speakerName ==> SpokenBy(c, p, r)
  {
    forall user | OnlySpeaker(r, user) ensures UniqueSpeaker(r) == user {
      OnlySpeakerIs(r, user);
    }
  }

  /** Whether a caption that is listed stands against an event of its utterance: a final against an interim,
      one of a higher revision against a numbered event, and a final against a final that is not newer. */
  predicate StandsAgainst(c: Caption, revision: int, final: bool) {
    || (c.final && !final)
    || (revision > 0 && revision < c.revision)
    || (c.final && final && (revision == 0 || revision <= c.revision))
  }

  /** No listed caption of the event's utterance stands against it. */
  ghost predicate NoneStands(captions: seq<Caption>, p: Payload)
    requires p.CaptionText?
  {
    var u := CleanText(p.utteranceID, 160);
    u != "" ==> forall d :: d in captions && d.utteranceID == u ==> !StandsAgainst(d, p.revision, p.final)
  }

  lemma CaptionListed(config: Config, captions: seq<Caption>, v: Voice, now: int)
    requires config.maxCaptions > 0
    requires v.utteranceID != "" ==> forall d :: d in captions && d.utteranceID == v.utteranceID ==> !StandsAgainst(d, v.revision, v.final)
    ensures VoiceCaption(v, now, Expiry(config, v, now)) in MergeCaptions(config, captions, v, now)
    ensures CaptionIndex(captions, v.utteranceID) >= 0 ==> !Ignored(captions[CaptionIndex(captions, v.utteranceID)], v)
  {
    var c := VoiceCaption(v, now, Expiry(config, v, now));
    var same := CaptionIndex(captions, v.utteranceID);
    var t := MergeCaptions(config, captions, v, now);
    assert same >= 0 ==> captions[same] in captions;
    if !v.final && same >= 0 {
      assert t[same] == c;
    } else {
      assert t[|t| - 1] == c;
    }
  }

  lemma VoiceCarries(m: Scene, p: Payload, now: int)
    requires p.CaptionText?
    ensures var v := ResolveVoice(m.roster, p);
      CarriesCaption(VoiceCaption(v, now, Expiry(m.config, v, now)), p, m.config, now)
  {
  }

  predicate IsOld(i: Item, v: Voice) {
    && i.kind == VoiceKind
    && if v.utteranceID != "" then i.id == "voice:" + v.utteranceID else !i.final && i.authorID == v.speakerUserID
  }

  /** The conversation without the voice entry of an utterance, or without the open entries of a speaker,
      that a final replaces. */
  ghost predicate WithoutOld(list: seq<Item>, v: Voice, kept: seq<Item>) {
    if v.final then
      |kept| <= |list| && forall i :: i in kept <==> (i in list && !IsOld(i, v))
    else kept == list
  }

  lemma VoicePlaced(config: Config, list: seq<Item>, v: Voice, now: int) returns (kept: seq<Item>)
    requires config.showVoice && v.text != ""
    ensures WithoutOld(list, v, kept) && Placed(config, kept, VoiceItem(v, now, Expiry(config, v, now)), UpsertVoice(config, list, v, now))
  {
    kept := if v.final then WithoutRemoved(v, list) else list;
    forall i | v.final ensures i in kept <==> i in list && !RemovedByFinal(v, i) {
      FilterMember((j: Item) => !RemovedByFinal(v, j), list, i);
    }
    assert |VoiceItem(v, now, Expiry(config, v, now)).id| >= 6;
    InsertPlaces(config, kept, VoiceItem(v, now, Expiry(config, v, now)));
  }

  /** An accepted caption that nothing listed stands against is listed with what was recognised, and lives
      for the time of its kind; when voice is shown, so is its entry in the conversation, in the place of an
      older one or where it belongs. */
  lemma CaptionShown(s: Scene, stream: string, generation: nat, p: Payload, now: int, t: Scene)
    returns (m: Scene, c: Caption, kept: seq<Item>)
    requires p.CaptionText? && PayloadValid(p) && Accepts(s, stream, generation) && Applied(s, stream, generation, p, now, t, true)
    requires s.config.maxCaptions > 0 && NoneStands(s.captions, p)
    ensures Pruned(s, now, m) && CarriesCaption(c, p, s.config, now) && c in t.captions
    ensures SpokenBy(c, p, s.roster)
    ensures WithoutOld(m.conversation, ResolveVoice(m.roster, p), kept)
    ensures s.config.showVoice && c.utteranceID != "" ==> exists y :: ShowsCaption(y, c) && Placed(s.config, kept, y, t.conversation)
  {
    m :| Pruned(s, now, m) && t == Effect(m, p, now);
    var v := ResolveVoice(m.roster, p);
    c := VoiceCaption(v, now, Expiry(m.config, v, now));
    forall d | d in m.captions ensures d in s.captions {
      FilterMember((x: Caption) => CaptionAlive(now, x), s.captions, d);
    }
    CaptionListed(m.config, m.captions, v, now);
    VoiceCarries(m, p, now);
    SpeakerResolved(s.roster, p);
    kept := if v.final then WithoutRemoved(v, m.conversation) else m.conversation;
    if s.config.showVoice {
      kept := VoicePlaced(m.config, m.conversation, v, now);
      assert ShowsCaption(VoiceItem(v, now, Expiry(m.config, v, now)), c) || c.utteranceID == "";
    } else {
      forall i | v.final ensures i in kept <==> i in m.conversation && !RemovedByFinal(v, i) {
        FilterMember((j: Item) => !RemovedByFinal(v, j), m.conversation, i);
      }
    }
  }

  // ----- the roster -----

  /** The first entry that names the user, by its cleaned ID. */
  ghost predicate FirstOf(entries: seq<RosterEntry>, j: nat, user: string) {
    j < |entries| && CleanText(entries[j].userID, 128) == user && forall i :: 0 <= i < j ==> CleanText(entries[i].userID, 128) != user
  }

  ghost predicate CarriesEntry(x: Participant, e: RosterEntry, user: string) {
    && x.userID == user && x.avatarURL == e.avatarURL && x.isBot == e.isBot && x.speaking == e.speaking
    && x.displayName == if CleanText(e.displayName, 80) != "" then CleanText(e.displayName, 80) else user
  }

  ghost predicate FromFirst(entries: seq<RosterEntry>, user: string, x: Participant) {
    exists j: nat :: FirstOf(entries, j, user) && CarriesEntry(x, entries[j], user)
  }

  ghost predicate EachFromFirst(entries: seq<RosterEntry>, participants: map<string, Participant>) {
    forall u :: u in participants ==> u != "" && FromFirst(entries, u, participants[u])
  }

  ghost predicate AllListed(entries: seq<RosterEntry>, participants: map<string, Participant>) {
    forall j :: 0 <= j < |entries| ==> ListedIfNamed(CleanText(entries[j].userID, 128), participants)
  }

  predicate ListedIfNamed(user: string, participants: map<string, Participant>) {
    user != "" ==> user in participants
  }

  /** Everybody listed is there as the first entry with the ID says, and nobody is left out but for lack of
      room or of an ID. */
  ghost predicate RosterIs(max: nat, entries: seq<RosterEntry>, r: Roster) {
    && EachFromFirst(entries, r.participants) && (|r.ids| < max ==> AllListed(entries, r.participants))
    && (forall u :: u in r.ids <==> u in r.participants)
    && (forall u :: u in r.speaking <==> u in r.participants && r.participants[u].speaking)
    && |r.ids| <= max
  }

  lemma FirstOfMore(entries: seq<RosterEntry>, e: RosterEntry, user: string, x: Participant)
    requires FromFirst(entries, user, x)
    ensures FromFirst(entries + [e], user, x)
  {
    var j: nat :| FirstOf(entries, j, user) && CarriesEntry(x, entries[j], user);
    assert FirstOf(entries + [e], j, user) && (entries + [e])[j] == entries[j];
  }

  lemma {:induction false} SomeFirst(entries: seq<RosterEntry>, user: string, n: nat)
    requires n < |entries| && CleanText(entries[n].userID, 128) == user
    requires forall i :: 0 <= i < n ==> CleanText(entries[i].userID, 128) != user
    ensures FirstOf(entries, n, user)
  {
  }

  /** An entry that is added names a user whom, as long as there was room, no entry before has named. */
  lemma NewEntryFirst(entries: seq<RosterEntry>, e: RosterEntry, participants: map<string, Participant>, x: Participant)
    requires AllListed(entries, participants)
    requires var user := CleanText(e.userID, 128); user != "" && user !in participants && CarriesEntry(x, e, user)
    ensures FromFirst(entries + [e], CleanText(e.userID, 128), x)
  {
    var user, all := CleanText(e.userID, 128), entries + [e];
    forall i | 0 <= i < |entries| ensures CleanText(all[i].userID, 128) != user {
      assert all[i] == entries[i] && ListedIfNamed(CleanText(entries[i].userID, 128), participants);
    }
    assert all[|entries|] == e;
    SomeFirst(all, user, |entries|);
  }

  lemma ListedMore(entries: seq<RosterEntry>, e: RosterEntry, was: map<string, Participant>, participants: map<string, Participant>)
    requires AllListed(entries, was) && ListedIfNamed(CleanText(e.userID, 128), participants)
    requires forall u :: u in was ==> u in participants
    ensures AllListed(entries + [e], participants)
  {
    var all := entries + [e];
    forall j | 0 <= j < |all| ensures ListedIfNamed(CleanText(all[j].userID, 128), participants) {
      if j < |entries| {
        assert all[j] == entries[j] && ListedIfNamed(CleanText(entries[j].userID, 128), was);
      }
    }
  }

  lemma AddedEntry(max: nat, r: Roster, e: RosterEntry) returns (x: Participant)
    ensures var user, t := CleanText(e.userID, 128), AddEntry(max, r, e);
      && CarriesEntry(x, e, user)
      && if |r.ids| >= max || user == "" || user in r.participants then t == r
         else t == Roster(r.participants[user := x], r.ids + [user], if e.speaking then r.speaking + {user} else r.speaking)
  {
    var user, name := CleanText(e.userID, 128), CleanText(e.displayName, 80);
    x := Participant(user, if name == "" then user else name, e.avatarURL, e.isBot, e.speaking);
  }

  lemma AddedFromFirst(max: nat, entries: seq<RosterEntry>, e: RosterEntry, r: Roster)
    requires RosterIs(max, entries, r)
    ensures EachFromFirst(entries + [e], AddEntry(max, r, e).participants)
  {
    var x := AddedEntry(max, r, e);
    forall u | u in r.participants ensures FromFirst(entries + [e], u, r.participants[u]) {
      FirstOfMore(entries, e, u, r.participants[u]);
    }
    if AddEntry(max, r, e) != r {
      NewEntryFirst(entries, e, r.participants, x);
    }
  }

  lemma AddedListed(max: nat, entries: seq<RosterEntry>, e: RosterEntry, r: Roster)
    requires RosterIs(max, entries, r) && |r.ids| < max
    ensures AllListed(entries + [e], AddEntry(max, r, e).participants)
  {
    var x := AddedEntry(max, r, e);
    ListedMore(entries, e, r.participants, AddEntry(max, r, e).participants);
  }

  lemma EntryAdded(max: nat, entries: seq<RosterEntry>, e: RosterEntry, r: Roster)
    requires RosterIs(max, entries, r)
    ensures RosterIs(max, entries + [e], AddEntry(max, r, e))
  {
    var x := AddedEntry(max, r, e);
    AddedFromFirst(max, entries, e, r);
    if |r.ids| < max {
      AddedListed(max, entries, e, r);
    }
  }

  lemma {:induction false} RosterListed(max: nat, entries: seq<RosterEntry>)
    ensures RosterIs(max, entries, ListRoster(max, entries))
  {
    if entries != [] {
      var before, e := entries[..|entries| - 1], entries[|entries| - 1];
      RosterListed(max, before);
      EntryAdded(max, before, e, ListRoster(max, before));
      assert before + [e] == entries;
    }
  }

  /** An accepted list of participants becomes the roster, as far as there is room. */
  lemma ParticipantsShown(s: Scene, stream: string, generation: nat, p: Payload, now: int, t: Scene)
    requires p.ParticipantsList? && PayloadValid(p) && Accepts(s, stream, generation) && Applied(s, stream, generation, p, now, t, true)
    ensures RosterIs(s.config.maxParticipants, p.entries.value, t.roster)
  {
    var m :| Pruned(s, now, m) && t == Effect(m, p, now);
    RosterListed(s.config.maxParticipants, p.entries.value);
  }

  /** An accepted speaker edge marks exactly its user, listing one who speaks if there is room; a stop
      without a user silences everybody. */
  lemma SpeakerShown(s: Scene, stream: string, generation: nat, p: Payload, now: int, t: Scene)
    requires p.SpeakerEdge? && PayloadValid(p) && Accepts(s, stream, generation) && Applied(s, stream, generation, p, now, t, true)
    requires forall u :: u in s.roster.participants ==> s.roster.participants[u].userID == u
    ensures var user, r, q := CleanText(p.userID, 128), s.roster, t.roster;
      var on := if p.speaking.Some? then p.speaking.value else user != "";
      if user == "" then q.speaking == {} && q.ids == r.ids && forall u :: u in q.participants ==> !q.participants[u].speaking
      else
        && (user in q.speaking <==> on) && (forall u :: u != user ==> (u in q.speaking <==> u in r.speaking))
        && (user in q.participants <==> user in r.participants || (on && |r.ids| < s.config.maxParticipants))
        && (user in q.participants ==> q.participants[user].speaking == on)
        && (forall u :: u in r.participants && u != user ==> u in q.participants && q.participants[u] == r.participants[u])
  {
    var m :| Pruned(s, now, m) && t == Effect(m, p, now);
  }
}
