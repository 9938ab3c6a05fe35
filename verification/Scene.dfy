// The scene object: the fields under its mutex and the loops that update them, each proved
// against the value functions of SceneState.dfy.
module SceneObject {
  import opened Text
  import opened Sequences
  import S = SceneState
  import opened SceneState
  import opened SceneAgreement

  class Board {
    var config: Config
    var stream: string
    var generation: nat
    var roster: Roster
    var chat: seq<ChatMessage>
    var captions: seq<Caption>
    var conversation: seq<Item>
    var seen: map<string, int>

    ghost function View(): S.Scene reads this {
      S.Scene(config, stream, generation, roster, chat, captions, conversation, seen)
    }

    /** The participant IDs list the participants without repetition. */
    ghost predicate Valid() reads this {
      RosterOk(config.maxParticipants, roster)
    }

    constructor (config: Config)
      ensures Valid() && View() == S.Scene(config, "", 0, EmptyRoster, [], [], [], map[])
    {
      this.config, stream, generation, roster := config, "", 0, EmptyRoster;
      chat, captions, conversation, seen := [], [], [], map[];
    }

    method Reset(generation: nat, stream: string)
      modifies this
      ensures Valid() && View() == Blank(old(View())).(stream := Trim(stream), generation := generation)
    {
      this.stream, this.generation := Trim(stream), generation;
      ResetState();
    }

    method Clear(stream: string)
      requires Valid()
      modifies this
      ensures Valid() && View() == ClearSpec(old(View()), stream)
    {
      var id := Trim(stream);
      if id != "" && id != this.stream {
        return;
      }
      this.stream := "";
      ResetState();
    }

    method ResetState()
      modifies this
      ensures Valid() && View() == Blank(old(View()))
    {
      roster, chat, captions, conversation, seen := EmptyRoster, [], [], [], map[];
    }

    /** A count or duration of 0 keeps the current value; the reorder window is taken as it is. */
    method ConfigureDisplay(maxItems: nat, reorderWindow: nat, interimTTL: nat, finalTTL: nat, showVoice: bool)
      requires Valid()
      modifies this
      ensures Valid() && View() == Configured(old(View()), maxItems, reorderWindow, interimTTL, finalTTL, showVoice)
    {
      if maxItems > 0 {
        config := config.(maxItems := maxItems);
        if |conversation| > maxItems {
          conversation := conversation[|conversation| - maxItems..];
        }
      }
      config := config.(reorderWindow := reorderWindow, showVoice := showVoice);
      if interimTTL > 0 {
        config := config.(interimTTL := interimTTL);
      }
      if finalTTL > 0 {
        config := config.(finalTTL := finalTTL);
      }
    }

    method PruneChat(now: int)
      modifies this`chat
      ensures chat == AliveChat(now, old(chat))
    {
      var kept := [];
      for i := 0 to |chat|
        invariant kept == AliveChat(now, chat[..i])
      {
        assert chat[..i + 1][..i] == chat[..i];
        if ChatAlive(now, chat[i]) {
          kept := kept + [chat[i]];
        }
      }
      assert chat[..|chat|] == chat;
      chat := kept;
    }

    method PruneCaptions(now: int)
      modifies this`captions
      ensures captions == AliveCaptions(now, old(captions))
    {
      var kept := [];
      for i := 0 to |captions|
        invariant kept == AliveCaptions(now, captions[..i])
      {
        assert captions[..i + 1][..i] == captions[..i];
        if CaptionAlive(now, captions[i]) {
          kept := kept + [captions[i]];
        }
      }
      assert captions[..|captions|] == captions;
      captions := kept;
    }

    method PruneConversation(now: int)
      modifies this`conversation
      ensures conversation == AliveItems(now, old(conversation))
    {
      var kept := [];
      for n := 0 to |conversation|
        invariant kept == AliveItems(now, conversation[..n])
      {
        assert conversation[..n + 1][..n] == conversation[..n];
        if ItemAlive(now, conversation[n]) {
          kept := kept + [conversation[n]];
        }
      }
      assert conversation[..|conversation|] == conversation;
      conversation := kept;
    }

    method EarliestSeen() returns (id: string)
      requires seen != map[]
      ensures id in seen && forall j :: j in seen ==> seen[id] <= seen[j]
    {
      ghost var any :| any in seen;
      var oldest: Option<string> := None;
      var todo := seen.Keys;
      while todo != {}
        invariant todo <= seen.Keys
        invariant oldest.Some? ==> oldest.value in seen
        invariant forall j :: j in seen && j !in todo ==> oldest.Some? && seen[oldest.value] <= seen[j]
        decreases todo
      {
        var k :| k in todo;
        todo := todo - {k};
        if oldest.None? || seen[k] < seen[oldest.value] {
          oldest := Some(k);
        }
      }
      id := oldest.value;
    }

    method PruneSeen(now: int)
      modifies this`seen
      ensures SeenPruned(old(seen), now, seen)
    {
      var todo := seen.Keys;
      while todo != {}
        invariant todo <= seen.Keys
        invariant forall k :: k in seen ==> k in old(seen) && seen[k] == old(seen)[k] && (k in todo || seen[k] > now)
        invariant forall k :: k in old(seen) && k !in seen ==> old(seen)[k] <= now
        decreases todo
      {
        var k :| k in todo;
        todo := todo - {k};
        if seen[k] <= now {
          seen := seen - {k};
        }
      }
      while |seen| > MAX_SEEN
        invariant forall k :: k in seen ==> k in old(seen) && seen[k] == old(seen)[k] && seen[k] > now
        invariant forall k, j :: k in seen && j in old(seen) && j !in seen && old(seen)[j] > now ==> old(seen)[j] <= seen[k]
        invariant |seen| < MAX_SEEN ==> forall k :: k in old(seen) && old(seen)[k] > now ==> k in seen
        decreases |seen|
      {
        var oldest := EarliestSeen();
        assert (seen - {oldest}).Keys == seen.Keys - {oldest};
        seen := seen - {oldest};
      }
    }

    method Prune(now: int)
      modifies this
      ensures Pruned(old(View()), now, View())
    {
      PruneChat(now);
      PruneCaptions(now);
      PruneConversation(now);
      PruneSeen(now);
    }

    /** At the end when the item is older than the reorder window allows, else in time order. */
    method FindPosition(item: Item) returns (index: nat)
      ensures index == InsertPosition(config, conversation, item)
    {
      index := |conversation|;
      if conversation == [] || item.createdAt < conversation[|conversation| - 1].createdAt - config.reorderWindow {
        return;
      }
      for i := 0 to |conversation|
        invariant index == |conversation|
        invariant forall j :: 0 <= j < i ==> item.createdAt >= conversation[j].createdAt
      {
        if item.createdAt < conversation[i].createdAt {
          return i;
        }
      }
    }

    method InsertConversation(item: Item)
      modifies this`conversation
      ensures conversation == Insert(config, old(conversation), item)
    {
      if item.id == "" || item.text == "" {
        return;
      }
      for i := 0 to |conversation|
        invariant conversation == old(conversation)
        invariant forall j :: 0 <= j < i ==> conversation[j].id != item.id
      {
        if conversation[i].id == item.id {
          conversation := conversation[i := item];
          return;
        }
      }
      var index := FindPosition(item);
      conversation := conversation[..index] + [item] + conversation[index..];
      if |conversation| > config.maxItems {
        conversation := conversation[|conversation| - config.maxItems..];
      }
    }

    method RemoveConversationVoice(v: Voice)
      modifies this`conversation
      ensures conversation == WithoutRemoved(v, old(conversation))
    {
      var kept := [];
      for n := 0 to |conversation|
        invariant kept == WithoutRemoved(v, conversation[..n])
      {
        assert conversation[..n + 1][..n] == conversation[..n];
        if !RemovedByFinal(v, conversation[n]) {
          kept := kept + [conversation[n]];
        }
      }
      assert conversation[..|conversation|] == conversation;
      conversation := kept;
    }

    method UpsertConversationVoice(v: Voice, now: int, expiresAt: int)
      modifies this`conversation
      ensures conversation == if config.showVoice then Insert(config, old(conversation), VoiceItem(v, now, expiresAt)) else old(conversation)
    {
      if !config.showVoice {
        return;
      }
      InsertConversation(VoiceItem(v, now, expiresAt));
    }

    method FindCaption(utteranceID: string) returns (index: int)
      ensures index == CaptionIndex(captions, utteranceID)
    {
      index := -1;
      var i := |captions| - 1;
      while i >= 0
        invariant -1 <= i < |captions|
        invariant index == -1 && (utteranceID != "" ==> forall j :: i < j < |captions| ==> captions[j].utteranceID != utteranceID)
      {
        if utteranceID != "" && captions[i].utteranceID == utteranceID {
          return i;
        }
        i := i - 1;
      }
    }

    method RemoveCaptions(v: Voice)
      modifies this`captions
      ensures captions == WithoutReplaced(v, old(captions))
    {
      var kept := [];
      for i := 0 to |captions|
        invariant kept == WithoutReplaced(v, captions[..i])
      {
        assert captions[..i + 1][..i] == captions[..i];
        if !ReplacedByFinal(v, captions[i]) {
          kept := kept + [captions[i]];
        }
      }
      assert captions[..|captions|] == captions;
      captions := kept;
    }

    method IsOutdated(existing: Caption, v: Voice) returns (outdated: bool)
      ensures outdated == Ignored(existing, v)
    {
      if !v.final && existing.final {
        return true;
      }
      if v.revision > 0 && existing.revision > v.revision {
        return true;
      }
      if v.final && existing.final && (v.revision == 0 || existing.revision >= v.revision) {
        return true;
      }
      outdated := false;
    }

    method AppendCaption(caption: Caption)
      modifies this`captions
      ensures captions == TakeLast(config.maxCaptions, old(captions) + [caption])
    {
      captions := captions + [caption];
      if |captions| > config.maxCaptions {
        captions := captions[|captions| - config.maxCaptions..];
      }
    }

    /** The caption list's share of an event that is not outdated. */
    method ShowCaption(v: Voice, same: int, now: int)
      requires same == CaptionIndex(captions, v.utteranceID) && (same >= 0 ==> !Ignored(captions[same], v))
      modifies this`captions
      ensures captions == MergeCaptions(config, old(captions), v, now)
    {
      if v.final {
        RemoveCaptions(v);
      } else if same >= 0 {
        captions := captions[same := VoiceCaption(v, now, now + config.interimTTL)];
        return;
      }
      AppendCaption(VoiceCaption(v, now, Expiry(config, v, now)));
    }

    method ShowInConversation(v: Voice, now: int)
      modifies this`conversation
      ensures conversation == UpsertVoice(config, old(conversation), v, now)
    {
      if v.final {
        RemoveConversationVoice(v);
      }
      UpsertConversationVoice(v, now, Expiry(config, v, now));
    }

    method ApplyVoice(v: Voice, now: int)
      modifies this`captions, this`conversation
      ensures View() == MergeVoice(old(View()), v, now)
    {
      var same := FindCaption(v.utteranceID);
      if same >= 0 {
        var outdated := IsOutdated(captions[same], v);
        if outdated {
          return;
        }
      }
      ShowCaption(v, same, now);
      ShowInConversation(v, now);
    }

    method FindUniqueSpeaker() returns (user: string)
      requires Valid()
      ensures user == UniqueSpeaker(roster)
    {
      var candidate := "";
      var todo := roster.speaking;
      while todo != {}
        invariant todo <= roster.speaking
        invariant candidate == "" ==> SpeakingParticipants(roster) <= todo
        invariant candidate != "" ==> candidate in SpeakingParticipants(roster) - todo && SpeakingParticipants(roster) - todo == {candidate}
        decreases todo
      {
        var u :| u in todo;
        todo := todo - {u};
        if u in roster.participants {
          if candidate != "" {
            assert {candidate, u} <= SpeakingParticipants(roster);
            TwoCandidates(SpeakingParticipants(roster), candidate, u);
            return "";
          }
          candidate := u;
        }
      }
      if candidate != "" {
        assert SpeakingParticipants(roster) == {candidate};
        return candidate;
      }
      assert SpeakingParticipants(roster) == {};
      if |roster.ids| == 1 {
        return roster.ids[0];
      }
      user := "";
    }

    method ResolveSpeaker(userID: string, name: string) returns (user: string, shown: string)
      requires Valid()
      ensures user == ResolveUser(roster, userID) && shown == ResolveName(roster, user, name)
    {
      user := Trim(userID);
      shown := Trim(name);
      if user == "" {
        user := FindUniqueSpeaker();
      }
      if user in roster.participants {
        if UnknownName(shown) || shown == user {
          shown := roster.participants[user].displayName;
        }
      }
    }

    method ApplyCaption(p: Payload, now: int) returns (ok: bool)
      requires p.CaptionText? && Valid()
      modifies this`captions, this`conversation
      ensures ok == PayloadValid(p)
      ensures View() == if ok then Effect(old(View()), p, now) else old(View())
    {
      var text := CleanText(p.text, 500);
      if text == "" {
        return false;
      }
      var user, name := ResolveSpeaker(CleanText(p.speakerUserID, 128), CleanText(p.speakerName, 80));
      var avatarURL, isBot := "", false;
      if user in roster.participants {
        var participant := roster.participants[user];
        if name == "" {
          name := participant.displayName;
        }
        avatarURL, isBot := participant.avatarURL, participant.isBot;
      }
      if name == "" && user != "" {
        name := user;
      }
      ApplyVoice(Voice(CleanText(p.utteranceID, 160), p.revision, p.final, text, user, name, avatarURL, isBot), now);
      ok := true;
    }

    method RefreshedCaption(caption: Caption) returns (c: Caption)
      requires Valid()
      ensures c == RefreshCaption(roster, caption)
    {
      var user, name := ResolveSpeaker(caption.speakerUserID, caption.speakerName);
      if user == "" || user !in roster.participants {
        return caption;
      }
      if UnknownName(name) || name == user {
        name := roster.participants[user].displayName;
      }
      c := caption.(speakerUserID := user, speakerName := name);
    }

    method RefreshCaptionSpeakers()
      requires Valid()
      modifies this`captions
      ensures captions == RefreshCaptions(roster, old(captions))
    {
      for n := 0 to |captions|
        invariant |captions| == |old(captions)|
        invariant forall j :: 0 <= j < n ==> captions[j] == RefreshCaption(roster, old(captions)[j])
        invariant forall j :: n <= j < |captions| ==> captions[j] == old(captions)[j]
      {
        var caption := RefreshedCaption(captions[n]);
        captions := captions[n := caption];
      }
    }

    method RefreshedItem(item: Item) returns (r: Item)
      requires Valid()
      ensures r == RefreshItem(roster, item)
    {
      r := item;
      if item.kind != VoiceKind {
        return;
      }
      var user := Trim(item.authorID);
      if user == "" {
        user := FindUniqueSpeaker();
      }
      if user !in roster.participants {
        return;
      }
      var participant := roster.participants[user];
      r := r.(authorID := user, isBot := participant.isBot);
      if UnknownName(r.displayName) || r.displayName == user {
        r := r.(displayName := participant.displayName);
      }
      if r.avatarURL == "" {
        r := r.(avatarURL := participant.avatarURL);
      }
    }

    method RefreshConversationSpeakers()
      requires Valid()
      modifies this`conversation
      ensures conversation == RefreshItems(roster, old(conversation))
    {
      for n := 0 to |conversation|
        invariant |conversation| == |old(conversation)|
        invariant forall j :: 0 <= j < n ==> conversation[j] == RefreshItem(roster, old(conversation)[j])
        invariant forall j :: n <= j < |conversation| ==> conversation[j] == old(conversation)[j]
      {
        var item := RefreshedItem(conversation[n]);
        conversation := conversation[n := item];
      }
    }

    method RefreshVoiceSpeakers()
      requires Valid()
      modifies this`captions, this`conversation
      ensures View() == Refresh(old(View()))
    {
      RefreshCaptionSpeakers();
      RefreshConversationSpeakers();
    }

    method ApplyParticipants(entries: seq<RosterEntry>)
      modifies this
      ensures View() == Refresh(old(View()).(roster := ListRoster(config.maxParticipants, entries)))
    {
      var participants: map<string, Participant>, ids: seq<string>, speaking: set<string> := map[], [], {};
      var i := 0;
      while i < |entries| && |ids| < config.maxParticipants
        invariant i <= |entries|
        invariant Roster(participants, ids, speaking) == ListRoster(config.maxParticipants, entries[..i])
      {
        var item := entries[i];
        assert entries[..i + 1][..i] == entries[..i];
        var user := CleanText(item.userID, 128);
        if user != "" && user !in participants {
          var name := CleanText(item.displayName, 80);
          if name == "" {
            name := user;
          }
          participants := participants[user := Participant(user, name, item.avatarURL, item.isBot, item.speaking)];
          ids := ids + [user];
          if item.speaking {
            speaking := speaking + {user};
          }
        }
        i := i + 1;
      }
      FullRoster(config.maxParticipants, entries, i);
      roster := Roster(participants, ids, speaking);
      ListRosterOk(config.maxParticipants, entries);
      RefreshVoiceSpeakers();
    }

    method ApplySpeaker(p: Payload) returns (ok: bool)
      requires p.SpeakerEdge? && Valid()
      modifies this
      ensures ok == PayloadValid(p)
      ensures View() == if ok then Effect(old(View()), p, 0) else old(View())
    {
      var user := CleanText(p.userID, 128);
      var on := user != "";
      if p.speaking.Some? {
        on := p.speaking.value;
      }
      if !on && user == "" {
        roster := Silenced(roster);
        return true;
      }
      if user == "" {
        return false;
      }
      SetSpeakingOk(config.maxParticipants, roster, user, p.displayName, on);
      roster := SetSpeaking(config.maxParticipants, roster, user, p.displayName, on);
      RefreshVoiceSpeakers();
      ok := true;
    }

    method ApplyChat(p: Payload, now: int) returns (ok: bool)
      requires p.ChatPost?
      modifies this
      ensures ok == PayloadValid(p)
      ensures View() == if ok then Effect(old(View()), p, now) else old(View())
    {
      if CleanText(p.messageID, 128) == "" || CleanText(p.authorID, 128) == "" || CleanText(p.content, 1000) == "" {
        return false;
      }
      var message := ChatOf(config, p, now);
      if message.messageID in seen {
        return true;
      }
      chat := chat + [message];
      seen := seen[message.messageID := now + SEEN_TTL];
      if |chat| > config.maxChat {
        chat := chat[|chat| - config.maxChat..];
      }
      InsertConversation(ChatItem(message));
      ok := true;
    }

    method Apply(stream: string, generation: nat, p: Payload, now: int) returns (ok: bool)
      requires Valid()
      modifies this
      ensures Valid() && Applied(old(View()), stream, generation, p, now, View(), ok)
    {
      if this.stream == "" || Trim(stream) != this.stream || (generation != 0 && generation != this.generation) {
        return false;
      }
      Prune(now);
      ghost var m := View();
      assert Pruned(old(View()), now, m);
      match p {
        case ParticipantsList(entries) =>
          ok := entries.Some?;
          if ok {
            ApplyParticipants(entries.value);
          }
        case SpeakerEdge(_, _, _) => ok := ApplySpeaker(p);
        case ChatPost(_, _, _, _, _, _, _) => ok := ApplyChat(p, now);
        case CaptionText(_, _, _, _, _, _) => ok := ApplyCaption(p, now);
        case OtherPayload => ok := true;
      }
      assert View() == if ok then Effect(m, p, now) else m;
      RosterApplied(old(View()), stream, generation, p, now, View(), ok);
    }
  }

  lemma TwoCandidates(s: set<string>, a: string, b: string)
    requires a in s && b in s && a != b
    ensures |s| > 1
  {
    assert b in s - {a};
    assert |s - {a}| == |s| - 1;
  }

  /** Once the roster is full, the remaining entries change nothing. */
  lemma {:induction false} FullRoster(max: nat, entries: seq<RosterEntry>, i: nat)
    requires i <= |entries| && (i < |entries| ==> |ListRoster(max, entries[..i]).ids| >= max)
    ensures ListRoster(max, entries) == ListRoster(max, entries[..i])
  {
    if i == |entries| {
      assert entries[..i] == entries;
    } else {
      var front := entries[..|entries| - 1];
      assert front[..i] == entries[..i];
      FullRoster(max, front, i);
    }
  }
}
