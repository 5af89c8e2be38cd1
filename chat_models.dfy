/** The chat models: conversations between two users and the messages inside them, with the
    blocking toggle, the read flag, the two class-level queries and the upload path of a
    message attachment. */
module ChatModels {
  import opened Text
  import opened Tables

  /** A conversation. `id` is the text of its UUID; `dateLastMessage` and `createdAt` are in
      seconds. */
  datatype Conversation = Conversation(
    id: string, sender: nat, receiver: nat, lastMessage: Option<string>, dateLastMessage: Option<int>,
    isBlocked: bool, blockedBy: Option<nat>, createdAt: int)

  /** A message of conversation `conversation`; `text` is the nullable `message` column. */
  datatype Message = Message(
    id: string, sender: nat, receiver: nat, conversation: string, text: Option<string>,
    isRead: bool, createdAt: int)

  /** The user takes part in the conversation, as sender or receiver. */
  predicate Participant(c: Conversation, user: nat) {
    c.sender == user || c.receiver == user
  }

  /** `get_user_conversations`: the conversations where the user is sender or receiver. */
  function UserConversations(cs: seq<Conversation>, user: nat): (r: seq<Conversation>)
    ensures |r| <= |cs|
    ensures forall c :: c in r <==> c in cs && (c.sender == user || c.receiver == user)
  {
    Filter(cs, (c: Conversation) => Participant(c, user))
  }

  // ---------------------------------------------------------------------------
  // get_conversation_messages
  // ---------------------------------------------------------------------------

  /** The default `limit` of `get_conversation_messages`. */
  const DefaultMessageLimit: nat := 50

  predicate SortedByCreation(ms: seq<Message>) {
    forall i, j :: 0 <= i < j < |ms| ==> ms[i].createdAt <= ms[j].createdAt
  }

  /** Places a message into a list ordered by creation time. */
  function Insert(m: Message, ms: seq<Message>): (r: seq<Message>)
    requires SortedByCreation(ms)
    ensures SortedByCreation(r)
    ensures multiset(r) == multiset(ms) + multiset{m}
    ensures |r| == |ms| + 1
    ensures r[0] == if |ms| > 0 && ms[0].createdAt < m.createdAt then ms[0] else m
  {
    if |ms| == 0 || m.createdAt <= ms[0].createdAt then
      ConsSorted(m, ms);
      [m] + ms
    else
      var rest := Insert(m, ms[1..]);
      assert ms == [ms[0]] + ms[1..];
      ConsSorted(ms[0], rest);
      [ms[0]] + rest
  }

  /** A message no later than the head of a sorted list can go in front of it. */
  lemma ConsSorted(x: Message, ms: seq<Message>)
    requires SortedByCreation(ms)
    requires |ms| > 0 ==> x.createdAt <= ms[0].createdAt
    ensures SortedByCreation([x] + ms)
  {
    var r := [x] + ms;
    forall i, j | 0 <= i < j < |r| ensures r[i].createdAt <= r[j].createdAt {
      if i > 0 {
        assert r[i] == ms[i - 1] && r[j] == ms[j - 1];
      } else {
        assert r[j] == ms[j - 1];
      }
    }
  }

  /** `order_by('created_at')` */
  function SortByCreation(ms: seq<Message>): (r: seq<Message>)
    ensures SortedByCreation(r)
    ensures multiset(r) == multiset(ms)
  {
    if |ms| == 0 then []
    else
      assert ms == [ms[0]] + ms[1..];
      Insert(ms[0], SortByCreation(ms[1..]))
  }

  /** `filter(conversation=conversation)` */
  function InConversation(conv: string): Message -> bool {
    (m: Message) => m.conversation == conv
  }

  /** `order_by('created_at')[:limit]`: the earliest `limit` messages in ascending creation order,
      or all of them when there are fewer. Each is taken at most as often as it occurs, and every
      message left out is no earlier than every message returned. */
  function Earliest(mine: seq<Message>, limit: nat): (r: seq<Message>)
    ensures |r| == Min(limit, |mine|)
    ensures forall k :: 0 <= k < |r| ==> r[k] in mine
    ensures SortedByCreation(r)
    ensures multiset(r) <= multiset(mine)
    ensures limit >= |mine| ==> multiset(r) == multiset(mine)
    ensures forall m :: m in multiset(mine) - multiset(r) ==>
      forall k :: 0 <= k < |r| ==> r[k].createdAt <= m.createdAt
  {
    var sorted := SortByCreation(mine);
    SortedTake(mine, sorted, limit);
    Take(sorted, limit)
  }

  /** `Earliest`'s promises, for the first `limit` messages of a sorted permutation of `mine`. */
  lemma SortedTake(mine: seq<Message>, sorted: seq<Message>, limit: nat)
    requires SortedByCreation(sorted) && multiset(sorted) == multiset(mine)
    ensures var r := Take(sorted, limit);
      && |r| == Min(limit, |mine|)
      && (forall k :: 0 <= k < |r| ==> r[k] in mine)
      && SortedByCreation(r)
      && multiset(r) <= multiset(mine)
      && (limit >= |mine| ==> multiset(r) == multiset(mine))
      && (forall m :: m in multiset(mine) - multiset(r) ==>
            forall k :: 0 <= k < |r| ==> r[k].createdAt <= m.createdAt)
  {
    SameElements(sorted, mine);
    TakeSorted(sorted, limit);
    var r := Take(sorted, limit);
    forall k | 0 <= k < |r|
      ensures r[k] in mine
    {
      assert r[k] == sorted[k];
    }
  }

  /** `get_conversation_messages`: the earliest `limit` messages of the conversation, as
      `Earliest` describes them. */
  function ConversationMessages(ms: seq<Message>, conv: string, limit: nat): (r: seq<Message>)
    ensures |r| == Min(limit, |Filter(ms, InConversation(conv))|)
    ensures forall k :: 0 <= k < |r| ==> r[k] in ms && r[k].conversation == conv
    ensures SortedByCreation(r)
    ensures multiset(r) <= multiset(Filter(ms, InConversation(conv)))
    ensures limit >= |Filter(ms, InConversation(conv))| ==> multiset(r) == multiset(Filter(ms, InConversation(conv)))
    ensures forall m :: m in multiset(Filter(ms, InConversation(conv))) - multiset(r) ==>
      forall k :: 0 <= k < |r| ==> r[k].createdAt <= m.createdAt
  {
    Earliest(Filter(ms, InConversation(conv)), limit)
  }

  /** The first `limit` messages of a sorted list and the ones after them: together the whole
      list, and none of the later ones earlier than a taken one. */
  lemma TakeSorted(sorted: seq<Message>, limit: nat)
    requires SortedByCreation(sorted)
    ensures multiset(Take(sorted, limit)) <= multiset(sorted)
    ensures limit >= |sorted| ==> Take(sorted, limit) == sorted
    ensures forall m :: m in multiset(sorted) - multiset(Take(sorted, limit)) ==>
      forall k :: 0 <= k < |Take(sorted, limit)| ==> Take(sorted, limit)[k].createdAt <= m.createdAt
  {
    var n := Min(limit, |sorted|);
    var r := Take(sorted, limit);
    var rest := sorted[n..];
    TakeAndRest(sorted, limit);
    forall m | m in multiset(sorted) - multiset(r)
      ensures forall k :: 0 <= k < |r| ==> r[k].createdAt <= m.createdAt
    {
      assert m in multiset(rest);
      var j :| 0 <= j < |rest| && rest[j] == m;
      assert sorted[n + j] == m;
    }
  }

  /** The first `limit` elements and the ones after them make up the list. */
  lemma TakeAndRest<T>(xs: seq<T>, limit: nat)
    ensures xs == Take(xs, limit) + xs[Min(limit, |xs|)..]
    ensures multiset(xs) == multiset(Take(xs, limit)) + multiset(xs[Min(limit, |xs|)..])
  {
    assert xs == Take(xs, limit) + xs[Min(limit, |xs|)..];
  }

  /** Two lists holding the same multiset have the same length and the same elements. */
  lemma SameElements(a: seq<Message>, b: seq<Message>)
    requires multiset(a) == multiset(b)
    ensures |a| == |b|
    ensures forall m :: m in a <==> m in b
  {
    assert |multiset(a)| == |a| && |multiset(b)| == |b|;
    forall m
      ensures m in a <==> m in b
    {
      assert m in a <==> m in multiset(a);
      assert m in b <==> m in multiset(b);
    }
  }

  // ---------------------------------------------------------------------------
  // message_upload_path
  // ---------------------------------------------------------------------------

  /** `message_upload_path`: the attachment goes to the folder of its conversation under a
      fresh name that keeps the uploaded file's extension; `uuid` is the text of
      `uuid.uuid4()`. */
  function MessageUploadPath(conversationId: string, uuid: string, filename: string): (r: string)
    ensures StartsWith(r, "messages/")
    ensures |uuid + Extension(filename)| < |r| && r[|r| - |uuid + Extension(filename)|..] == uuid + Extension(filename)
  {
    PathAffixes("messages/", conversationId, uuid + Extension(filename));
    "messages/" + conversationId + "/" + (uuid + Extension(filename))
  }

  /** The path has three components: `messages`, the conversation's folder and the new file
      name, which is the uuid followed by the original extension. */
  lemma MessagePathComponents(conversationId: string, uuid: string, filename: string)
    requires '/' !in conversationId && '/' !in uuid
    ensures Split(MessageUploadPath(conversationId, uuid, filename), '/') ==
      ["messages", conversationId, uuid + Extension(filename)]
  {
    var name := uuid + Extension(filename);
    assert '/' !in name by {
      assert forall k :: 0 <= k < |name| ==> name[k] == (if k < |uuid| then uuid[k] else Extension(filename)[k - |uuid|]);
    }
    var tail := conversationId + "/" + name;
    assert MessageUploadPath(conversationId, uuid, filename) == "messages" + "/" + tail by {
      assert "messages" + "/" == "messages/";
    }
    SplitNoSeparator(name, '/');
    SplitSlash(conversationId, name);
    SplitSlash("messages", tail);
  }

  // ---------------------------------------------------------------------------
  // The chat tables
  // ---------------------------------------------------------------------------

  /** The `Conversation` and `Message` tables. */
  class ChatStore {
    var conversations: seq<Conversation>
    var messages: seq<Message>

    constructor()
      ensures conversations == [] && messages == []
    {
      conversations := [];
      messages := [];
    }

    /** `Conversation.toggle_block`: flips the blocking flag of conversation `i` and returns the
        new value; the `user` argument has no effect. */
    method ToggleBlock(i: nat, user: nat) returns (r: bool)
      requires i < |conversations|
      modifies this
      ensures conversations == old(conversations)[i := old(conversations[i]).(isBlocked := !old(conversations[i].isBlocked))]
      ensures r == conversations[i].isBlocked
      ensures messages == old(messages)
    {
      conversations := conversations[i := conversations[i].(isBlocked := !conversations[i].isBlocked)];
      r := conversations[i].isBlocked;
    }

    /** `Message.mark_as_read`: an unread message becomes read; a read one is left alone. */
    method MarkAsRead(i: nat)
      requires i < |messages|
      modifies this
      ensures messages == old(messages)[i := old(messages[i]).(isRead := true)]
      ensures conversations == old(conversations)
    {
      if !messages[i].isRead {
        messages := messages[i := messages[i].(isRead := true)];
      }
      assert messages[i] == old(messages[i]).(isRead := true);
    }
  }

  /** Marking a message read twice is the same as marking it once. */
  method MarkAsReadTwice(s: ChatStore, i: nat)
    requires i < |s.messages|
    modifies s
    ensures s.messages == old(s.messages)[i := old(s.messages[i]).(isRead := true)]
  {
    s.MarkAsRead(i);
    ghost var once := s.messages;
    s.MarkAsRead(i);
    assert s.messages == once;
  }

  /** Two toggles restore the blocking flag, whoever calls them. */
  method ToggleBlockTwice(s: ChatStore, i: nat, user: nat, other: nat) returns (first: bool, second: bool)
    requires i < |s.conversations|
    modifies s
    ensures s.conversations == old(s.conversations)
    ensures first != second
  {
    first := s.ToggleBlock(i, user);
    second := s.ToggleBlock(i, other);
  }
}
