// What every run of a scene keeps: its lists stay within their bounds, identifiers are not
// repeated, and the caption list and the conversation agree about every utterance.
module SceneAgreement {
  import opened Text
  import opened Sequences
  import opened SceneState

  datatype Op =
    | ApplyOp(stream: string, generation: nat, payload: Payload, now: int)
    | SnapshotOp(at: int)
    | ResetOp(generation: nat, stream: string)
    | ClearOp(stream: string)
    | ConfigureOp(maxItems: nat, reorderWindow: nat, interimTTL: nat, finalTTL: nat, showVoice: bool)

  function ClearSpec(s: Scene, stream: string): Scene {
    if Trim(stream) != "" && Trim(stream) != s.stream then s else Blank(s).(stream := "")
  }

  ghost predicate OpStep(s: Scene, op: Op, t: Scene) {
    match op
    case ApplyOp(stream, generation, payload, now) => exists ok :: Applied(s, stream, generation, payload, now, t, ok)
    case SnapshotOp(at) => Pruned(s, at, t)
    case ResetOp(generation, stream) => t == Blank(s).(stream := Trim(stream), generation := generation)
    case ClearOp(stream) => t == ClearSpec(s, stream)
    case ConfigureOp(maxItems, reorderWindow, interimTTL, finalTTL, showVoice) =>
      t == Configured(s, maxItems, reorderWindow, interimTTL, finalTTL, showVoice)
  }

  // ----- participants -----

  /** The ID list names every participant once, and nobody else. */
  ghost predicate RosterOk(max: nat, r: Roster) {
    && |r.ids| <= max
    && (forall i, j :: 0 <= i < j < |r.ids| ==> r.ids[i] != r.ids[j])
    && (forall i :: 0 <= i < |r.ids| ==> r.ids[i] in r.participants)
    && (forall u :: u in r.participants ==> u in r.ids && u != "" && r.participants[u].userID == u)
  }

  lemma AddEntryOk(max: nat, r: Roster, e: RosterEntry)
    requires RosterOk(max, r)
    ensures RosterOk(max, AddEntry(max, r, e))
  {
    var t := AddEntry(max, r, e);
    if t != r {
      var user := CleanText(e.userID, 128);
      assert t.ids == r.ids + [user] && user !in r.ids;
      assert forall u :: u in t.participants ==> u in r.participants || u == user;
    }
  }

  lemma {:induction false} ListRosterOk(max: nat, entries: seq<RosterEntry>)
    ensures RosterOk(max, ListRoster(max, entries))
  {
    if entries != [] {
      ListRosterOk(max, entries[..|entries| - 1]);
      AddEntryOk(max, ListRoster(max, entries[..|entries| - 1]), entries[|entries| - 1]);
    }
  }

  lemma SetSpeakingOk(max: nat, r: Roster, user: string, displayName: string, speaking: bool)
    requires RosterOk(max, r) && user != ""
    ensures RosterOk(max, SetSpeaking(max, r, user, displayName, speaking))
  {
    var t := SetSpeaking(max, r, user, displayName, speaking);
    if t.ids != r.ids {
      assert t.ids == r.ids + [user] && user !in r.ids;
    }
    assert forall u :: u in t.participants ==> u in r.participants || u == user;
  }

  lemma RosterEffect(s: Scene, p: Payload, now: int)
    requires RosterOk(s.config.maxParticipants, s.roster) && PayloadValid(p)
    ensures Effect(s, p, now).config == s.config && RosterOk(s.config.maxParticipants, Effect(s, p, now).roster)
  {
    match p {
      case ParticipantsList(entries) => ListRosterOk(s.config.maxParticipants, entries.value);
      case SpeakerEdge(userID, displayName, speaking) =>
        var user := CleanText(userID, 128);
        if user != "" {
          SetSpeakingOk(s.config.maxParticipants, s.roster, user, displayName, if speaking.Some? then speaking.value else user != "");
        }
      case _ =>
    }
  }

  lemma RosterApplied(s: Scene, stream: string, generation: nat, p: Payload, now: int, t: Scene, ok: bool)
    requires RosterOk(s.config.maxParticipants, s.roster) && Applied(s, stream, generation, p, now, t, ok)
    ensures t.config == s.config && RosterOk(t.config.maxParticipants, t.roster)
  {
    if Accepts(s, stream, generation) {
      var m :| Pruned(s, now, m) && t == if ok then Effect(m, p, now) else m;
      if ok {
        RosterEffect(m, p, now);
      }
    }
  }

  // ----- the lists -----

  ghost predicate OtherUtterance(a: Caption, b: Caption) {
    a.utteranceID != "" ==> a.utteranceID != b.utteranceID
  }

  ghost predicate OtherItem(a: Item, b: Item) { a.id != b.id }

  /** IDs of this form belong to captions without an utterance. */
  predicate Synthetic(utteranceID: string) {
    |utteranceID| >= 7 && utteranceID[|utteranceID| - 7..] == ":active"
  }

  ghost predicate SameContent(c: Caption, i: Item) {
    i.kind == VoiceKind && c.text == i.text && c.final == i.final && c.revision == i.revision && c.expiresAt == i.expiresAt
  }

  ghost predicate AgreeOn(c: Caption, i: Item) {
    c.utteranceID != "" && i.id == "voice:" + c.utteranceID ==> SameContent(c, i)
  }

  ghost predicate Agree(captions: seq<Caption>, conversation: seq<Item>) {
    forall c, i :: c in captions && i in conversation ==> AgreeOn(c, i)
  }

  ghost predicate NoSynthetic(captions: seq<Caption>) {
    forall c :: c in captions ==> !Synthetic(c.utteranceID)
  }

  ghost predicate ListsOk(captions: seq<Caption>, conversation: seq<Item>) {
    Pairwise(OtherUtterance, captions) && Pairwise(OtherItem, conversation) && Agree(captions, conversation) && NoSynthetic(captions)
  }

  ghost predicate BoundsOk(s: Scene) {
    |s.chat| <= s.config.maxChat && |s.captions| <= s.config.maxCaptions && |s.conversation| <= s.config.maxItems && |s.seen| <= MAX_SEEN + 1
  }

  ghost predicate SceneOk(s: Scene) {
    && s.config.showVoice && s.config.maxItems > 0
    && RosterOk(s.config.maxParticipants, s.roster) && ListsOk(s.captions, s.conversation) && BoundsOk(s)
  }

  /** The operations the statement is about: the voice transcripts stay shown, and no utterance ID
      has the synthetic form. */
  predicate Plain(op: Op) {
    match op
    case ApplyOp(_, _, p, _) => p.CaptionText? ==> !Synthetic(CleanText(p.utteranceID, 160))
    case ConfigureOp(_, _, _, _, showVoice) => showVoice
    case _ => true
  }

  lemma VoiceIDInjective(a: string, b: string)
    ensures "voice:" + a == "voice:" + b <==> a == b
  {
    assert ("voice:" + a)[6..] == a && ("voice:" + b)[6..] == b;
  }

  lemma ChatIsNotVoice(a: string, b: string)
    ensures "chat:" + a != "voice:" + b
  {
    assert ("chat:" + a)[0] == 'c' && ("voice:" + b)[0] == 'v';
  }

  /** Dropping entries from either list keeps the agreement. */
  lemma AgreeFewer(captions: seq<Caption>, conversation: seq<Item>, cs: seq<Caption>, items: seq<Item>)
    requires Agree(captions, conversation) && NoSynthetic(captions)
    requires forall c :: c in cs ==> c in captions
    requires forall i :: i in items ==> i in conversation
    ensures Agree(cs, items) && NoSynthetic(cs)
  {
  }

  lemma PruneOk(s: Scene, now: int, t: Scene)
    requires SceneOk(s) && Pruned(s, now, t)
    ensures SceneOk(t) && t.config == s.config && |t.seen| <= MAX_SEEN
  {
    var keepCaption, keepItem := (c: Caption) => CaptionAlive(now, c), (i: Item) => ItemAlive(now, i);
    FilterPairwise(keepCaption, OtherUtterance, s.captions);
    FilterPairwise(keepItem, OtherItem, s.conversation);
    forall c | c in t.captions ensures c in s.captions { FilterMember(keepCaption, s.captions, c); }
    forall i | i in t.conversation ensures i in s.conversation { FilterMember(keepItem, s.conversation, i); }
    AgreeFewer(s.captions, s.conversation, t.captions, t.conversation);
  }

  lemma ReplaceItemOk(conversation: seq<Item>, same: nat, item: Item)
    requires Pairwise(OtherItem, conversation) && same < |conversation| && conversation[same].id == item.id
    ensures var r := conversation[same := item];
      Pairwise(OtherItem, r) && forall i :: i in r ==> i == item || (i in conversation && i.id != item.id)
  {
    forall j | 0 <= j < |conversation| && j != same ensures conversation[j].id != item.id {
      assert OtherItem(conversation[if j < same then j else same], conversation[if j < same then same else j]);
    }
  }

  lemma NewItemOk(config: Config, conversation: seq<Item>, item: Item, p: nat)
    requires Pairwise(OtherItem, conversation) && p <= |conversation|
    requires forall j :: 0 <= j < |conversation| ==> conversation[j].id != item.id
    ensures var r := TakeLast(config.maxItems, InsertAt(conversation, p, item));
      Pairwise(OtherItem, r) && forall i :: i in r ==> i == item || (i in conversation && i.id != item.id)
  {
    InsertPairwise(OtherItem, conversation, p, item);
    TakeLastPairwise(config.maxItems, OtherItem, InsertAt(conversation, p, item));
  }

  /** Inserting replaces the entry of the same ID; everything else was there before. */
  lemma InsertOk(config: Config, conversation: seq<Item>, item: Item)
    requires Pairwise(OtherItem, conversation) && |conversation| <= config.maxItems && item.id != "" && item.text != ""
    ensures var r := Insert(config, conversation, item);
      Pairwise(OtherItem, r) && |r| <= config.maxItems && forall i :: i in r ==> i == item || (i in conversation && i.id != item.id)
  {
    var same := ItemIndex(conversation, item.id);
    if same < |conversation| {
      ReplaceItemOk(conversation, same, item);
    } else {
      NewItemOk(config, conversation, item, InsertPosition(config, conversation, item));
    }
  }

  lemma KeptCaptions(captions: seq<Caption>, v: Voice)
    requires Pairwise(OtherUtterance, captions)
    ensures var r := WithoutReplaced(v, captions);
      Pairwise(OtherUtterance, r) && forall c :: c in r ==> c in captions && !ReplacedByFinal(v, c)
  {
    var keep := (c: Caption) => !ReplacedByFinal(v, c);
    FilterPairwise(keep, OtherUtterance, captions);
    forall c | c in Filter(keep, captions) ensures c in captions && keep(c) { FilterMember(keep, captions, c); }
  }

  lemma KeptItems(conversation: seq<Item>, v: Voice)
    requires Pairwise(OtherItem, conversation)
    ensures var r := WithoutRemoved(v, conversation);
      Pairwise(OtherItem, r) && forall i :: i in r ==> i in conversation
  {
    var keep := (i: Item) => !RemovedByFinal(v, i);
    FilterPairwise(keep, OtherItem, conversation);
    forall i | i in Filter(keep, conversation) ensures i in conversation { FilterMember(keep, conversation, i); }
  }

  /** A caption of an utterance that is not in the list goes at the end. */
  lemma AppendCaptionOk(max: nat, captions: seq<Caption>, caption: Caption)
    requires Pairwise(OtherUtterance, captions)
    requires caption.utteranceID != "" ==> forall c :: c in captions ==> c.utteranceID != caption.utteranceID
    ensures var r := TakeLast(max, captions + [caption]);
      Pairwise(OtherUtterance, r) && |r| <= max && forall c :: c in r ==> c == caption || c in captions
  {
    assert forall k :: 0 <= k < |captions| ==> captions[k] in captions;
    assert Pairwise(OtherUtterance, captions + [caption]);
    TakeLastPairwise(max, OtherUtterance, captions + [caption]);
  }

  predicate Shown(captions: seq<Caption>, v: Voice) {
    var same := CaptionIndex(captions, v.utteranceID);
    same < 0 || !Ignored(captions[same], v)
  }

  /** A caption event that is not ignored leaves one caption of its utterance: its own. */
  lemma MergeCaptionsOk(config: Config, captions: seq<Caption>, v: Voice, now: int)
    requires Pairwise(OtherUtterance, captions) && |captions| <= config.maxCaptions && Shown(captions, v)
    ensures var r := MergeCaptions(config, captions, v, now);
      && Pairwise(OtherUtterance, r) && |r| <= config.maxCaptions
      && forall c :: c in r ==> c == VoiceCaption(v, now, Expiry(config, v, now)) || (c in captions && (v.utteranceID != "" ==> c.utteranceID != v.utteranceID))
  {
    var same := CaptionIndex(captions, v.utteranceID);
    var caption := VoiceCaption(v, now, Expiry(config, v, now));
    if v.final {
      KeptCaptions(captions, v);
      AppendCaptionOk(config.maxCaptions, WithoutReplaced(v, captions), caption);
    } else if same >= 0 {
      assert forall j :: 0 <= j < same ==> OtherUtterance(captions[j], captions[same]);
    } else {
      assert v.utteranceID != "" ==> forall c :: c in captions ==> c.utteranceID != v.utteranceID;
      AppendCaptionOk(config.maxCaptions, captions, caption);
    }
  }

  lemma MergeConversationOk(config: Config, captions: seq<Caption>, conversation: seq<Item>, v: Voice, now: int)
    requires Pairwise(OtherItem, conversation) && |conversation| <= config.maxItems && Shown(captions, v) && v.text != "" && config.showVoice
    ensures var r := MergeConversation(config, captions, conversation, v, now);
      var item := VoiceItem(v, now, Expiry(config, v, now));
      && Pairwise(OtherItem, r) && |r| <= config.maxItems
      && forall i :: i in r ==> i == item || (i in conversation && i.id != item.id)
  {
    var kept := if v.final then WithoutRemoved(v, conversation) else conversation;
    KeptItems(conversation, v);
    InsertOk(config, kept, VoiceItem(v, now, Expiry(config, v, now)));
  }

  lemma SyntheticID(speaker: string)
    ensures Synthetic(speaker + ":active")
  {
    assert (speaker + ":active")[|speaker|..] == ":active";
  }

  lemma MergeAgrees(config: Config, captions: seq<Caption>, conversation: seq<Item>, v: Voice, now: int, c: Caption, i: Item)
    requires Agree(captions, conversation) && NoSynthetic(captions) && !Synthetic(v.utteranceID)
    requires c == VoiceCaption(v, now, Expiry(config, v, now)) || (c in captions && (v.utteranceID != "" ==> c.utteranceID != v.utteranceID))
    requires var item := VoiceItem(v, now, Expiry(config, v, now)); i == item || (i in conversation && i.id != item.id)
    ensures AgreeOn(c, i)
  {
    if i == VoiceItem(v, now, Expiry(config, v, now)) {
      SyntheticID(v.speakerUserID);
      VoiceIDInjective(if v.utteranceID == "" then v.speakerUserID + ":active" else v.utteranceID, c.utteranceID);
    }
  }

  lemma MergeOk(s: Scene, v: Voice, now: int)
    requires SceneOk(s) && v.text != "" && !Synthetic(v.utteranceID)
    ensures SceneOk(MergeVoice(s, v, now))
  {
    if Shown(s.captions, v) {
      MergeCaptionsOk(s.config, s.captions, v, now);
      MergeConversationOk(s.config, s.captions, s.conversation, v, now);
      var t := MergeVoice(s, v, now);
      forall c, i | c in t.captions && i in t.conversation ensures AgreeOn(c, i) {
        MergeAgrees(s.config, s.captions, s.conversation, v, now, c, i);
      }
    }
  }

  lemma ChatOk(s: Scene, m: ChatMessage, now: int)
    requires SceneOk(s) && |s.seen| <= MAX_SEEN && m.content != ""
    ensures SceneOk(PostChat(s, m, now))
  {
    if m.messageID !in s.seen {
      InsertOk(s.config, s.conversation, ChatItem(m));
      var t := PostChat(s, m, now);
      forall c, i | c in t.captions && i in t.conversation ensures AgreeOn(c, i) {
        ChatIsNotVoice(m.messageID, c.utteranceID);
      }
    }
  }

  lemma RefreshKeeps(r: Roster, c: Caption, i: Item)
    ensures var d := RefreshCaption(r, c);
      d.utteranceID == c.utteranceID && d.text == c.text && d.final == c.final && d.revision == c.revision && d.expiresAt == c.expiresAt
    ensures var j := RefreshItem(r, i);
      j.id == i.id && j.kind == i.kind && j.text == i.text && j.final == i.final && j.revision == i.revision && j.expiresAt == i.expiresAt
  {
  }

  /** Renaming speakers changes nothing the lists are compared by. */
  lemma RefreshLists(r: Roster, captions: seq<Caption>, conversation: seq<Item>)
    requires ListsOk(captions, conversation)
    ensures ListsOk(RefreshCaptions(r, captions), RefreshItems(r, conversation))
  {
    var cs, items := RefreshCaptions(r, captions), RefreshItems(r, conversation);
    forall m, n | 0 <= m < n < |cs| ensures OtherUtterance(cs[m], cs[n]) {
      assert OtherUtterance(captions[m], captions[n]);
    }
    forall m, n | 0 <= m < n < |items| ensures OtherItem(items[m], items[n]) {
      assert OtherItem(conversation[m], conversation[n]);
    }
    forall m, n | 0 <= m < |cs| && 0 <= n < |items| ensures AgreeOn(cs[m], items[n]) {
      RefreshKeeps(r, captions[m], conversation[n]);
      assert AgreeOn(captions[m], conversation[n]);
    }
    forall m | 0 <= m < |cs| ensures !Synthetic(cs[m].utteranceID) {
      assert captions[m] in captions;
    }
  }

  lemma RefreshOk(s: Scene)
    requires SceneOk(s)
    ensures SceneOk(Refresh(s))
  {
    RefreshLists(s.roster, s.captions, s.conversation);
  }

  lemma EffectOk(s: Scene, p: Payload, now: int)
    requires SceneOk(s) && |s.seen| <= MAX_SEEN && PayloadValid(p)
    requires p.CaptionText? ==> !Synthetic(CleanText(p.utteranceID, 160))
    ensures SceneOk(Effect(s, p, now))
  {
    RosterEffect(s, p, now);
    match p {
      case ParticipantsList(entries) => RefreshOk(s.(roster := Effect(s, p, now).roster));
      case SpeakerEdge(_, _, _) => RefreshOk(s.(roster := Effect(s, p, now).roster));
      case ChatPost(_, _, _, _, _, _, _) => ChatOk(s, ChatOf(s.config, p, now), now);
      case CaptionText(_, _, _, _, _, _) => MergeOk(s, ResolveVoice(s.roster, p), now);
      case OtherPayload =>
    }
  }

  lemma StepOk(s: Scene, op: Op, t: Scene)
    requires SceneOk(s) && Plain(op) && OpStep(s, op, t)
    ensures SceneOk(t)
  {
    match op {
      case ApplyOp(stream, generation, payload, now) =>
        if Accepts(s, stream, generation) {
          var ok :| Applied(s, stream, generation, payload, now, t, ok);
          var m :| Pruned(s, now, m) && t == if ok then Effect(m, payload, now) else m;
          PruneOk(s, now, m);
          if ok { EffectOk(m, payload, now); }
        }
      case SnapshotOp(at) => PruneOk(s, at, t);
      case ConfigureOp(maxItems, _, _, _, _) =>
        TakeLastPairwise(maxItems, OtherItem, s.conversation);
        AgreeFewer(s.captions, s.conversation, t.captions, t.conversation);
      case _ =>
    }
  }

  ghost predicate Run(states: seq<Scene>, ops: seq<Op>) {
    && |states| == |ops| + 1
    && forall i :: 0 <= i < |ops| ==> OpStep(states[i], ops[i], states[i + 1])
  }

  function NewScene(config: Config): Scene {
    Scene(config, "", 0, EmptyRoster, [], [], [], map[])
  }

  lemma {:induction false} RunOk(config: Config, states: seq<Scene>, ops: seq<Op>, n: nat)
    requires config.showVoice && config.maxItems > 0 && Run(states, ops) && states[0] == NewScene(config) && n < |states|
    requires forall i :: 0 <= i < |ops| ==> Plain(ops[i])
    ensures SceneOk(states[n])
  {
    if n > 0 {
      RunOk(config, states, ops, n - 1);
      StepOk(states[n - 1], ops[n - 1], states[n]);
    }
  }

  /** In every state of every run: an utterance has at most one caption and one conversation entry,
      and where it has both they show the same text, finality, revision and expiry. */
  lemma CaptionsAndConversationAgree(config: Config, states: seq<Scene>, ops: seq<Op>, n: nat, u: string)
    requires config.showVoice && config.maxItems > 0 && Run(states, ops) && states[0] == NewScene(config) && n < |states|
    requires forall i :: 0 <= i < |ops| ==> Plain(ops[i])
    requires u != ""
    ensures var s := states[n];
      && (forall i, j :: 0 <= i < j < |s.captions| && s.captions[i].utteranceID == u ==> s.captions[j].utteranceID != u)
      && (forall i, j :: 0 <= i < j < |s.conversation| ==> s.conversation[i].id != s.conversation[j].id)
      && (forall i, j :: 0 <= i < |s.captions| && 0 <= j < |s.conversation| && s.captions[i].utteranceID == u && s.conversation[j].id == "voice:" + u ==>
            SameContent(s.captions[i], s.conversation[j]))
  {
    RunOk(config, states, ops, n);
    var s := states[n];
    forall i, j | 0 <= i < j < |s.captions| && s.captions[i].utteranceID == u ensures s.captions[j].utteranceID != u {
      assert OtherUtterance(s.captions[i], s.captions[j]);
    }
    forall i, j | 0 <= i < j < |s.conversation| ensures s.conversation[i].id != s.conversation[j].id {
      assert OtherItem(s.conversation[i], s.conversation[j]);
    }
    forall i, j | 0 <= i < |s.captions| && 0 <= j < |s.conversation| && s.captions[i].utteranceID == u && s.conversation[j].id == "voice:" + u
      ensures SameContent(s.captions[i], s.conversation[j]) {
      assert AgreeOn(s.captions[i], s.conversation[j]);
    }
  }

  /** Every list of the scene stays within its configured bound, and the participant IDs list the
      participants without repetition. */
  lemma ListsStayBounded(config: Config, states: seq<Scene>, ops: seq<Op>, n: nat)
    requires config.showVoice && config.maxItems > 0 && Run(states, ops) && states[0] == NewScene(config) && n < |states|
    requires forall i :: 0 <= i < |ops| ==> Plain(ops[i])
    ensures var s := states[n];
      && |s.chat| <= s.config.maxChat && |s.captions| <= s.config.maxCaptions && |s.conversation| <= s.config.maxItems && |s.seen| <= 257
      && |s.roster.ids| <= s.config.maxParticipants && |s.roster.ids| == |s.roster.participants|
      && (forall id :: id in s.roster.ids <==> id in s.roster.participants)
  {
    RunOk(config, states, ops, n);
    DistinctCount(states[n].roster.ids, states[n].roster.participants.Keys);
  }

  lemma {:induction false} DistinctCount(ids: seq<string>, keys: set<string>)
    requires forall i, j :: 0 <= i < j < |ids| ==> ids[i] != ids[j]
    requires forall id :: id in ids <==> id in keys
    ensures |ids| == |keys|
  {
    if ids != [] {
      var front, last := ids[..|ids| - 1], ids[|ids| - 1];
      assert ids == front + [last];
      DistinctCount(front, keys - {last});
    }
  }

  // ----- the conversation outlives the captions -----

  /** A late interim leaves the final entry of its utterance in the conversation final if and only if the
      caption of the utterance is still listed: only captions are looked at to tell that it is late. */
  lemma FinalEntryStaysIff(s: Scene, v: Voice, now: int, k: nat)
    requires SceneOk(s) && v.utteranceID != "" && !v.final && v.text != ""
    requires k < |s.conversation| && s.conversation[k].id == "voice:" + v.utteranceID && s.conversation[k].final
    ensures var t := MergeVoice(s, v, now).conversation;
      |t| == |s.conversation| && t[k].id == s.conversation[k].id && (t[k].final <==> CaptionIndex(s.captions, v.utteranceID) >= 0)
  {
    var same, i := CaptionIndex(s.captions, v.utteranceID), ItemIndex(s.conversation, s.conversation[k].id);
    assert i == k by {
      assert i < k ==> OtherItem(s.conversation[i], s.conversation[k]);
    }
    if same >= 0 {
      assert AgreeOn(s.captions[same], s.conversation[k]);
    }
  }

  const FINAL: Voice := Voice("u", 2, true, "a", "", "", "", false)
  const OTHER: Voice := Voice("w", 1, true, "b", "", "", "", false)
  const LATE: Voice := Voice("u", 1, false, "c", "", "", "", false)

  function ItemOf(config: Config, v: Voice, now: int): Item {
    VoiceItem(v, now, Expiry(config, v, now))
  }

  lemma CrowdedOut(s: Scene, now: int)
    requires s.config.showVoice && s.config.maxCaptions == 1 && s.config.maxItems > 1 && s.captions == [] && s.conversation == []
    ensures var t := MergeVoice(MergeVoice(s, FINAL, now), OTHER, now);
      t == s.(captions := [VoiceCaption(OTHER, now, Expiry(s.config, OTHER, now))],
              conversation := [ItemOf(s.config, FINAL, now), ItemOf(s.config, OTHER, now)])
  {
    var one, two := ItemOf(s.config, FINAL, now), ItemOf(s.config, OTHER, now);
    VoiceIDInjective("u", "w");
    var t := MergeVoice(s, FINAL, now);
    assert t.captions == [VoiceCaption(FINAL, now, Expiry(s.config, FINAL, now))] && t.conversation == [one];
    assert MergeVoice(t, OTHER, now).conversation == [one, two];
  }

  /** That happens: a final, another utterance that crowds it out of a caption list of one, and then a
      late interim of the first. */
  lemma LateInterimReopensEntry(s: Scene, now: int)
    requires s.config.showVoice && s.config.maxCaptions == 1 && s.config.maxItems > 1 && s.captions == [] && s.conversation == []
    ensures var t := MergeVoice(MergeVoice(s, FINAL, now), OTHER, now);
      t.conversation == [ItemOf(s.config, FINAL, now), ItemOf(s.config, OTHER, now)] &&
      MergeVoice(t, LATE, now).conversation == [ItemOf(s.config, LATE, now), ItemOf(s.config, OTHER, now)]
  {
    CrowdedOut(s, now);
  }
}
