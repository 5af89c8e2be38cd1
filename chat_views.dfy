/** The chat views: getting or starting the conversation with another user, posting a message,
    the blocking toggle, and the conversation list. */
module ChatViews {
  import opened Text
  import opened Tables
  import opened ChatModels

  // ---------------------------------------------------------------------------
  // GetOrCreateConversationView
  // ---------------------------------------------------------------------------

  /** The responses of `GetOrCreateConversationView.get`; `ServerError` is the 500 of an
      exception the view does not catch. */
  datatype Reply =
    | Found(conversation: Conversation)
    | Started(conversation: Conversation)
    | BadRequest(error: string)
    | NotFound(error: string)
    | ServerError

  const MissingReceiver := "reciver key not sended in url"
  const NoSuchUser := "user not exists"
  const SelfConversation := "you can not create conversation with yourself"

  /** The conversation joins the two users, in either direction. */
  predicate Between(c: Conversation, a: nat, b: nat) {
    (c.sender == a && c.receiver == b) || (c.sender == b && c.receiver == a)
  }

  /** No two conversations join the same pair of users. */
  predicate OnePerPair(cs: seq<Conversation>) {
    forall i, j :: 0 <= i < j < |cs| ==> !Between(cs[j], cs[i].sender, cs[i].receiver)
  }

  /** Under `OnePerPair`, a conversation is not between the users of an earlier one. */
  lemma PairOrder(cs: seq<Conversation>, i: nat, k: nat)
    requires OnePerPair(cs) && k < |cs| && i < |cs|
    ensures k < i ==> !Between(cs[i], cs[k].sender, cs[k].receiver)
  {
  }

  /** Under `OnePerPair` a pair has at most one conversation. */
  lemma OnlyOneBetween(cs: seq<Conversation>, a: nat, b: nat, i: nat)
    requires i < |cs| && Between(cs[i], a, b)
    ensures OnePerPair(cs) ==> forall k :: 0 <= k < |cs| && Between(cs[k], a, b) ==> k == i
  {
    if OnePerPair(cs) {
      forall k | 0 <= k < |cs| && Between(cs[k], a, b)
        ensures k == i
      {
        PairOrder(cs, i, k);
        PairOrder(cs, k, i);
      }
    }
  }

  /** The conversation is blocked exactly when someone is recorded as blocking it, and that
      someone takes part in it. */
  predicate BlockRecorded(c: Conversation) {
    (c.isBlocked <==> c.blockedBy.Some?) && (c.blockedBy.Some? ==> Participant(c, c.blockedBy.value))
  }

  predicate AllBlocksRecorded(cs: seq<Conversation>) {
    forall k :: 0 <= k < |cs| ==> BlockRecorded(cs[k])
  }

  /** The first conversation between the two users, in table order. `.first()` follows
      `Meta.ordering` (latest message first) instead; under `OnePerPair` at most one
      conversation qualifies, so the order does not change the answer. */
  method FindBetween(store: ChatStore, a: nat, b: nat) returns (r: Option<nat>)
    ensures r.Some? ==> r.value < |store.conversations| && Between(store.conversations[r.value], a, b)
    ensures r.Some? && OnePerPair(store.conversations) ==>
      forall k :: 0 <= k < |store.conversations| && Between(store.conversations[k], a, b) ==> k == r.value
    ensures r.None? ==> forall k :: 0 <= k < |store.conversations| ==> !Between(store.conversations[k], a, b)
  {
    var i := 0;
    while i < |store.conversations|
      invariant 0 <= i <= |store.conversations|
      invariant forall k :: 0 <= k < i ==> !Between(store.conversations[k], a, b)
    {
      if Between(store.conversations[i], a, b) {
        OnlyOneBetween(store.conversations, a, b, i);
        return Some(i);
      }
      i := i + 1;
    }
    return None;
  }

  /** `GetOrCreateConversationView.get`. `userId` is the `user_id` query parameter, `lookup`
      Django's conversion of it to a user key (`None` when it is not a UUID, which raises an
      error other than `DoesNotExist`), `users` the existing users, and `newId` and `now` the
      key and creation time of a new conversation. */
  method GetOrCreate(store: ChatStore, requester: nat, userId: Option<string>, lookup: string -> Option<nat>,
                     users: set<nat>, newId: string, now: int) returns (r: Reply)
    modifies store
    ensures store.messages == old(store.messages)
    ensures (userId.None? || userId == Some("")) ==> r == BadRequest(MissingReceiver)
    ensures (userId.Some? && userId.value != "" && lookup(userId.value).None?) ==> r == ServerError
    ensures (userId.Some? && userId.value != "" && lookup(userId.value).Some? && lookup(userId.value).value !in users)
      ==> r == NotFound(NoSuchUser)
    ensures (userId.Some? && userId.value != "" && lookup(userId.value) == Some(requester) && requester in users)
      ==> r == BadRequest(SelfConversation)
    ensures !r.Started? ==> store.conversations == old(store.conversations)
    ensures r.Found? ==> (r.conversation in old(store.conversations)
      && userId.Some? && lookup(userId.value).Some? && Between(r.conversation, requester, lookup(userId.value).value))
    ensures r.Started? ==> (userId.Some? && lookup(userId.value).Some?
      && lookup(userId.value).value in users && lookup(userId.value).value != requester
      && (forall k :: 0 <= k < old(|store.conversations|) ==> !Between(old(store.conversations[k]), requester, lookup(userId.value).value))
      && r.conversation == Conversation(newId, requester, lookup(userId.value).value, None, None, false, None, now)
      && store.conversations == old(store.conversations) + [r.conversation])
    ensures (userId.Some? && userId.value != "" && lookup(userId.value).Some? && lookup(userId.value).value in users
      && lookup(userId.value).value != requester) ==> (r.Found? || r.Started?)
    ensures OnePerPair(old(store.conversations)) ==> OnePerPair(store.conversations)
    ensures AllBlocksRecorded(old(store.conversations)) ==> AllBlocksRecorded(store.conversations)
  {
    if userId.None? || userId.value == "" {
      return BadRequest(MissingReceiver);
    }
    var key := lookup(userId.value);
    if key.None? {
      return ServerError;
    }
    if key.value !in users {
      return NotFound(NoSuchUser);
    }
    var other := key.value;
    if other == requester {
      return BadRequest(SelfConversation);
    }
    var at := FindBetween(store, requester, other);
    if at.Some? {
      return Found(store.conversations[at.value]);
    }
    var c := Conversation(newId, requester, other, None, None, false, None, now);
    ghost var before := store.conversations;
    store.conversations := store.conversations + [c];
    assert forall k :: 0 <= k < |before| ==> store.conversations[k] == before[k];
    assert forall i :: 0 <= i < |before| ==> !Between(c, before[i].sender, before[i].receiver);
    return Started(c);
  }

  // ---------------------------------------------------------------------------
  // MessageListView.perform_create
  // ---------------------------------------------------------------------------

  /** The conversation's last-message text: the first 100 characters of the message, or
      "Image" when it has no text. */
  function Preview(text: Option<string>): (r: string)
    ensures |r| <= 100
    ensures text.Some? && text.value != "" ==> StartsWith(text.value, r) && (|text.value| <= 100 ==> r == text.value)
    ensures !(text.Some? && text.value != "") ==> r == "Image"
  {
    if text.Some? && text.value != "" then text.value[..Min(100, |text.value|)] else "Image"
  }

  /** The participant a message from `current` goes to: the receiver when `current` is the
      sender, and the sender otherwise. */
  function OtherParty(c: Conversation, current: nat): nat {
    if current == c.sender then c.receiver else c.sender
  }

  /** The message `perform_create` stores, unread and stamped `now`. */
  function NewMessage(c: Conversation, current: nat, text: Option<string>, msgId: string, now: int): Message {
    Message(msgId, current, OtherParty(c, current), c.id, text, false, now)
  }

  /** The conversation after a message: its last message and its date. */
  function AfterMessage(c: Conversation, text: Option<string>, now: int): Conversation {
    c.(lastMessage := Some(Preview(text)), dateLastMessage := Some(now))
  }

  /** A participant's message goes to the other participant: the two parties of the message are
      the two parties of the conversation. */
  lemma MessageBetweenParticipants(c: Conversation, current: nat, text: Option<string>, msgId: string, now: int)
    requires Participant(c, current)
    ensures var m := NewMessage(c, current, text, msgId, now);
      m.sender == current && {m.sender, m.receiver} == {c.sender, c.receiver}
  {
  }

  /** As written, someone outside the conversation can post into it, and the message goes to
      the conversation's sender. */
  lemma OutsiderPosts(c: Conversation, outsider: nat, text: Option<string>, msgId: string, now: int)
    requires !Participant(c, outsider)
    ensures var m := NewMessage(c, outsider, text, msgId, now);
      m.sender == outsider && m.receiver == c.sender && {m.sender, m.receiver} != {c.sender, c.receiver}
  {
    var m := NewMessage(c, outsider, text, msgId, now);
    assert outsider in {m.sender, m.receiver};
  }

  /** The first conversation with the given key, as `get_object_or_404` finds it. */
  method FindConversation(store: ChatStore, id: string) returns (r: Option<nat>)
    ensures r.Some? ==> r.value < |store.conversations| && store.conversations[r.value].id == id
    ensures r.Some? ==> forall k :: 0 <= k < r.value ==> store.conversations[k].id != id
    ensures r.None? ==> forall k :: 0 <= k < |store.conversations| ==> store.conversations[k].id != id
  {
    var i := 0;
    while i < |store.conversations|
      invariant 0 <= i <= |store.conversations|
      invariant forall k :: 0 <= k < i ==> store.conversations[k].id != id
    {
      if store.conversations[i].id == id {
        return Some(i);
      }
      i := i + 1;
    }
    return None;
  }

  datatype PostReply = Posted(message: Message) | Forbidden | Missing

  /** `MessageListView.perform_create` as written: the conversation is looked up (404 when
      missing), the message is stored for the other party, and the conversation's last message
      and its date are updated. No participation check runs, because `IsParticipant` only
      defines the object-level check, which creation never invokes. */
  method PostMessage(store: ChatStore, convId: string, current: nat, text: Option<string>, msgId: string, now: int)
    returns (r: PostReply)
    modifies store
    ensures !r.Forbidden?
    ensures r.Missing? <==> forall k :: 0 <= k < old(|store.conversations|) ==> old(store.conversations[k]).id != convId
    ensures r.Missing? ==> store.conversations == old(store.conversations) && store.messages == old(store.messages)
    ensures r.Posted? ==> exists i :: (0 <= i < old(|store.conversations|) && old(store.conversations[i]).id == convId
      && (forall k :: 0 <= k < i ==> old(store.conversations[k]).id != convId)
      && r.message == NewMessage(old(store.conversations[i]), current, text, msgId, now)
      && store.conversations == old(store.conversations)[i := AfterMessage(old(store.conversations[i]), text, now)])
    ensures r.Posted? ==> store.messages == old(store.messages) + [r.message]
  {
    var at := FindConversation(store, convId);
    if at.None? {
      return Missing;
    }
    var i := at.value;
    var c := store.conversations[i];
    var m := NewMessage(c, current, text, msgId, now);
    store.messages := store.messages + [m];
    store.conversations := store.conversations[i := AfterMessage(c, text, now)];
    return Posted(m);
  }

  /** `perform_create` with the participation check `IsParticipant` evidently intends: an
      outsider is refused and nothing changes; a participant's message goes to the other
      participant. */
  method PostAsParticipant(store: ChatStore, convId: string, current: nat, text: Option<string>, msgId: string, now: int)
    returns (r: PostReply)
    modifies store
    ensures r.Forbidden? ==> store.conversations == old(store.conversations) && store.messages == old(store.messages)
    ensures r.Missing? <==> forall k :: 0 <= k < old(|store.conversations|) ==> old(store.conversations[k]).id != convId
    ensures r.Missing? ==> store.conversations == old(store.conversations) && store.messages == old(store.messages)
    ensures r.Forbidden? ==> exists i :: (0 <= i < old(|store.conversations|) && old(store.conversations[i]).id == convId
      && !Participant(old(store.conversations[i]), current))
    ensures r.Posted? ==> exists i :: (0 <= i < old(|store.conversations|) && old(store.conversations[i]).id == convId
      && Participant(old(store.conversations[i]), current)
      && r.message.sender == current
      && {r.message.sender, r.message.receiver} == {old(store.conversations[i]).sender, old(store.conversations[i]).receiver}
      && r.message == NewMessage(old(store.conversations[i]), current, text, msgId, now)
      && store.conversations == old(store.conversations)[i := AfterMessage(old(store.conversations[i]), text, now)])
    ensures r.Posted? ==> store.messages == old(store.messages) + [r.message]
  {
    var at := FindConversation(store, convId);
    if at.None? {
      return Missing;
    }
    var c := store.conversations[at.value];
    if !Participant(c, current) {
      return Forbidden;
    }
    MessageBetweenParticipants(c, current, text, msgId, now);
    ghost var before := store.conversations;
    r := PostMessage(store, convId, current, text, msgId, now);
    assert r.Posted? ==> (r.message == NewMessage(before[at.value], current, text, msgId, now)
      && store.conversations == before[at.value := AfterMessage(before[at.value], text, now)]) by {
      if r.Posted? {
        var j :| 0 <= j < |before| && before[j].id == convId
          && (forall k :: 0 <= k < j ==> before[k].id != convId)
          && r.message == NewMessage(before[j], current, text, msgId, now)
          && store.conversations == before[j := AfterMessage(before[j], text, now)];
        assert j == at.value;
      }
    }
  }

  // ---------------------------------------------------------------------------
  // ToggleBlockConversationView and ConversationListView
  // ---------------------------------------------------------------------------

  datatype BlockReply = BlockToggled(isBlocked: bool) | BlockForbidden | BlockMissing

  /** `ToggleBlockConversationView.post`: a participant flips the blocking flag, and
      `blocked_by` becomes the requester when the conversation is now blocked and empty when
      it is not. Anyone else is refused. */
  method ToggleBlockView(store: ChatStore, convId: string, requester: nat) returns (r: BlockReply)
    modifies store
    ensures store.messages == old(store.messages)
    ensures r.BlockMissing? <==> forall k :: 0 <= k < old(|store.conversations|) ==> old(store.conversations[k]).id != convId
    ensures !r.BlockToggled? ==> store.conversations == old(store.conversations)
    ensures r.BlockToggled? ==> exists i :: (0 <= i < old(|store.conversations|) && old(store.conversations[i]).id == convId
      && Participant(old(store.conversations[i]), requester)
      && r.isBlocked == !old(store.conversations[i]).isBlocked
      && store.conversations == old(store.conversations)[i := old(store.conversations[i]).(
           isBlocked := r.isBlocked, blockedBy := if r.isBlocked then Some(requester) else None)])
    ensures r.BlockForbidden? ==> exists i :: (0 <= i < old(|store.conversations|) && old(store.conversations[i]).id == convId
      && !Participant(old(store.conversations[i]), requester))
    ensures AllBlocksRecorded(old(store.conversations)) ==> AllBlocksRecorded(store.conversations)
  {
    var at := FindConversation(store, convId);
    if at.None? {
      return BlockMissing;
    }
    var i := at.value;
    if !Participant(store.conversations[i], requester) {
      return BlockForbidden;
    }
    var isBlocked := store.ToggleBlock(i, requester);
    store.conversations := store.conversations[i := store.conversations[i].(blockedBy := if isBlocked then Some(requester) else None)];
    return BlockToggled(isBlocked);
  }

  /** `filter(last_message__isnull=False)` */
  function HasLastMessage(c: Conversation): bool {
    c.lastMessage.Some?
  }

  /** `ConversationListView.get_queryset`: the user's conversations that have a last message. */
  function ConversationList(cs: seq<Conversation>, user: nat): (r: seq<Conversation>)
    ensures forall c :: c in r <==> c in cs && Participant(c, user) && c.lastMessage.Some?
  {
    Filter(UserConversations(cs, user), HasLastMessage)
  }

  /** A conversation just started is listed for neither party; after a message it is listed
      for both. */
  lemma ListedAfterMessage(cs: seq<Conversation>, i: nat, c: Conversation, user: nat, text: Option<string>, now: int)
    requires i < |cs| && cs[i] == c && Participant(c, user)
    ensures c.lastMessage.None? ==> c !in ConversationList(cs, user)
    ensures AfterMessage(c, text, now) in ConversationList(cs[i := AfterMessage(c, text, now)], user)
  {
    assert cs[i := AfterMessage(c, text, now)][i] == AfterMessage(c, text, now);
  }
}
