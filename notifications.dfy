/** The notification manager: the message templates of `_generate_message` and the suppression
    rules of `create_notification` (no notification to oneself, no repeated like or favorite of
    the same item within a day). */
module Notifications {
  import opened Text

  // ---------------------------------------------------------------------------
  // _generate_message
  // ---------------------------------------------------------------------------

  /** The data dict handed to `_generate_message`: a key may be absent, or present with `None`. */
  type Data = map<string, Option<string>>

  /** How an f-string renders a Python value: `None` prints as "None". */
  function Show(v: Option<string>): string {
    if v.None? then "None" else v.value
  }

  /** `data.get(key, default)`, as the f-string renders it. */
  function Lookup(data: Data, key: string, default: string): string {
    if key in data then Show(data[key]) else default
  }

  function User(data: Data): string { Lookup(data, "user", "Someone") }
  function ItemName(data: Data): string { Lookup(data, "item_name", "") }
  function Action(data: Data): string { Lookup(data, "action", "") }

  /** The notification types that have a template of their own. */
  const Templated: set<string> := {"like", "favorite", "comment", "message", "block", "unblock"}

  /** `_generate_message`: the template of the type, or the default template. */
  function GenerateMessage(kind: string, data: Data): (r: string)
    ensures kind in {"like", "favorite", "comment", "message"} ==> StartsWith(r, User(data))
    ensures kind in {"block", "unblock"} ==> StartsWith(r, "Your property '" + ItemName(data) + "' has been ")
  {
    var user := User(data);
    var item := ItemName(data);
    var action := Action(data);
    if kind == "block" || kind == "unblock" then
      var head := "Your property '" + item + "' has been ";
      assert (head + (action + " by admin"))[..|head|] == head;
      head + (action + " by admin")
    else if kind !in Templated then "You have a new notification from " + user
    else
      var tail :=
        if kind == "like" then " liked " + item
        else if kind == "favorite" then " favorited " + item
        else if kind == "comment" then " commented on " + item
        else " sent you a new message";
      assert (user + tail)[..|user|] == user;
      user + tail
  }

  /** The message is determined by the rendered user, item name and action. */
  lemma MessageOfFields(kind: string, d1: Data, d2: Data)
    requires User(d1) == User(d2) && ItemName(d1) == ItemName(d2) && Action(d1) == Action(d2)
    ensures GenerateMessage(kind, d1) == GenerateMessage(kind, d2)
  {
  }

  /** An unknown type gets the default template, which names only the acting user. */
  lemma UnknownTypeIsDefault(kind: string, data: Data)
    requires kind !in Templated
    ensures GenerateMessage(kind, data) == "You have a new notification from " + User(data)
  {
  }

  /** A missing `user` key reads as "Someone", a missing `item_name` or `action` as the empty
      text; a key present with `None` prints as "None" instead. */
  lemma MissingKeysDefault(kind: string, data: Data)
    ensures "user" !in data ==> GenerateMessage(kind, data) == GenerateMessage(kind, data["user" := Some("Someone")])
    ensures "item_name" !in data ==> GenerateMessage(kind, data) == GenerateMessage(kind, data["item_name" := Some("")])
    ensures "action" !in data ==> GenerateMessage(kind, data) == GenerateMessage(kind, data["action" := Some("")])
    ensures User(data["user" := None]) == "None"
  {
    if "user" !in data {
      MessageOfFields(kind, data, data["user" := Some("Someone")]);
    }
    if "item_name" !in data {
      MessageOfFields(kind, data, data["item_name" := Some("")]);
    }
    if "action" !in data {
      MessageOfFields(kind, data, data["action" := Some("")]);
    }
  }

  /** Block and unblock share one template; only the `action` word tells them apart. */
  lemma BlockSharesUnblockTemplate(data: Data)
    ensures GenerateMessage("block", data) == GenerateMessage("unblock", data)
    ensures GenerateMessage("block", data) == "Your property '" + ItemName(data) + "' has been " + Action(data) + " by admin"
  {
  }

  /** Only the block templates read `action`, and the message and default templates read only the
      user. */
  lemma TemplateInputs(kind: string, data: Data, item: Option<string>, action: Option<string>)
    ensures kind !in {"block", "unblock"} ==>
      GenerateMessage(kind, data) == GenerateMessage(kind, data["action" := action])
    ensures kind == "message" || kind !in Templated ==>
      GenerateMessage(kind, data) == GenerateMessage(kind, data["item_name" := item]["action" := action])
  {
    var d1 := data["action" := action];
    var d2 := data["item_name" := item]["action" := action];
    assert User(d1) == User(data) && ItemName(d1) == ItemName(data);
    assert User(d2) == User(data);
  }

  // ---------------------------------------------------------------------------
  // create_notification
  // ---------------------------------------------------------------------------

  /** A user as the manager sees it: compared by primary key. */
  datatype Account = Account(id: nat, username: string)

  /** A stored notification. `createdAt` is in seconds. */
  datatype Notification = Notification(
    target: nat, actor: nat, kind: string, typeItem: Option<string>, itemId: Option<string>,
    message: string, createdAt: int, isRead: bool)

  /** `False`, or the success dict with the new notification. */
  datatype Outcome = Suppressed | Created(notification: Notification)

  /** `timedelta(hours=24)`, in seconds. */
  const Day := 86400

  /** The types that are not repeated within a day. */
  const NoDuplicateTypes: set<string> := {"like", "favorite"}

  /** Python truthiness of an optional text. */
  predicate Truthy(o: Option<string>) {
    o.Some? && o.value != ""
  }

  /** The lookup key of the duplicate check. */
  predicate SameKey(n: Notification, target: nat, actor: nat, kind: string, typeItem: Option<string>, itemId: Option<string>) {
    n.target == target && n.actor == actor && n.kind == kind && n.typeItem == typeItem && n.itemId == itemId
  }

  /** The duplicate check applies: a like or favorite naming its item. */
  predicate Deduplicated(kind: string, typeItem: Option<string>, itemId: Option<string>) {
    kind in NoDuplicateTypes && Truthy(typeItem) && Truthy(itemId)
  }

  /** An identical notification created at or after `now` minus 24 hours. */
  predicate RecentDuplicate(rows: seq<Notification>, target: nat, actor: nat, kind: string,
                            typeItem: Option<string>, itemId: Option<string>, now: int) {
    exists i :: 0 <= i < |rows| && SameKey(rows[i], target, actor, kind, typeItem, itemId) && rows[i].createdAt >= now - Day
  }

  /** Two deduplicated notifications with one key are more than a day apart, in insertion order. */
  predicate SpacedOut(rows: seq<Notification>) {
    forall i, j :: (0 <= i < j < |rows| && Deduplicated(rows[j].kind, rows[j].typeItem, rows[j].itemId)
      && SameKey(rows[i], rows[j].target, rows[j].actor, rows[j].kind, rows[j].typeItem, rows[j].itemId))
      ==> rows[j].createdAt > rows[i].createdAt + Day
  }

  /** The message `create_notification` generates: the three keys are always present. */
  function MessageFor(actor: Account, kind: string, itemName: Option<string>, action: Option<string>): string {
    GenerateMessage(kind, map["user" := Some(actor.username), "item_name" := itemName, "action" := action])
  }

  /** The block and unblock notifications name the item and the action word. */
  lemma AdminMessage(actor: Account, kind: string, title: string, word: string)
    requires kind == "block" || kind == "unblock"
    ensures MessageFor(actor, kind, Some(title), Some(word)) == "Your property '" + title + "' has been " + word + " by admin"
  {
    var data := map["user" := Some(actor.username), "item_name" := Some(title), "action" := Some(word)];
    assert ItemName(data) == title && Action(data) == word;
    BlockSharesUnblockTemplate(data);
  }

  /** A notification appended when no recent duplicate exists keeps the rows spaced out. */
  lemma AppendKeepsSpacing(rows: seq<Notification>, n: Notification, now: int)
    requires SpacedOut(rows) && n.createdAt == now
    requires Deduplicated(n.kind, n.typeItem, n.itemId) ==>
      !RecentDuplicate(rows, n.target, n.actor, n.kind, n.typeItem, n.itemId, now)
    ensures SpacedOut(rows + [n])
  {
    var w := rows + [n];
    forall i, j | (0 <= i < j < |w| && Deduplicated(w[j].kind, w[j].typeItem, w[j].itemId)
      && SameKey(w[i], w[j].target, w[j].actor, w[j].kind, w[j].typeItem, w[j].itemId))
      ensures w[j].createdAt > w[i].createdAt + Day
    {
      if j < |rows| {
        assert w[i] == rows[i] && w[j] == rows[j];
      } else {
        assert w[j] == n && w[i] == rows[i];
        assert !(SameKey(rows[i], n.target, n.actor, n.kind, n.typeItem, n.itemId) && rows[i].createdAt >= now - Day);
      }
    }
  }

  /** A second like within a day is suppressed, and a like more than a day later is not. */
  lemma RepeatWithinDay(rows: seq<Notification>, n: Notification, now: int)
    requires n.createdAt <= now <= n.createdAt + Day
    ensures RecentDuplicate(rows + [n], n.target, n.actor, n.kind, n.typeItem, n.itemId, now)
  {
    assert (rows + [n])[|rows|] == n;
  }

  /** The notification table. */
  class NotificationStore {
    var rows: seq<Notification>

    constructor()
      ensures rows == []
    {
      rows := [];
    }

    /** `self.filter(...).exists()` for the duplicate check. */
    method HasRecentDuplicate(target: nat, actor: nat, kind: string, typeItem: Option<string>,
                              itemId: Option<string>, now: int) returns (found: bool)
      ensures found <==> RecentDuplicate(rows, target, actor, kind, typeItem, itemId, now)
    {
      var i := 0;
      while i < |rows|
        invariant 0 <= i <= |rows|
        invariant !RecentDuplicate(rows[..i], target, actor, kind, typeItem, itemId, now)
      {
        if SameKey(rows[i], target, actor, kind, typeItem, itemId) && rows[i].createdAt >= now - Day {
          assert rows[..i + 1][i] == rows[i];
          assert RecentDuplicate(rows[..i + 1], target, actor, kind, typeItem, itemId, now);
          found := true;
          forall k | 0 <= k <= i ensures rows[..i + 1][k] == rows[k] { }
          return;
        }
        forall k | 0 <= k <= i ensures rows[..i + 1][k] == rows[k] { }
        i := i + 1;
      }
      assert rows[..i] == rows;
      found := false;
    }

    /** `create_notification`: nothing for oneself, nothing for a repeated like or favorite of the
        same item within 24 hours, and otherwise exactly one new notification, unread, stamped
        `now`, with the generated message. */
    method CreateNotification(target: Account, actor: Account, kind: string, typeItem: Option<string>,
                              itemId: Option<string>, itemName: Option<string>, action: Option<string>, now: int)
      returns (r: Outcome)
      modifies this
      ensures target.id == actor.id ==> r == Suppressed
      ensures (target.id != actor.id && Deduplicated(kind, typeItem, itemId)
        && RecentDuplicate(old(rows), target.id, actor.id, kind, typeItem, itemId, now)) ==> r == Suppressed
      ensures r.Suppressed? <==> (target.id == actor.id
        || (Deduplicated(kind, typeItem, itemId) && RecentDuplicate(old(rows), target.id, actor.id, kind, typeItem, itemId, now)))
      ensures r.Suppressed? ==> rows == old(rows)
      ensures r.Created? ==> (r.notification
        == Notification(target.id, actor.id, kind, typeItem, itemId, MessageFor(actor, kind, itemName, action), now, false))
      ensures r.Created? ==> rows == old(rows) + [r.notification]
      ensures SpacedOut(old(rows)) ==> SpacedOut(rows)
    {
      if target.id == actor.id {
        return Suppressed;
      }
      if kind in NoDuplicateTypes && Truthy(typeItem) && Truthy(itemId) {
        var found := HasRecentDuplicate(target.id, actor.id, kind, typeItem, itemId, now);
        if found {
          return Suppressed;
        }
      }
      var n := Notification(target.id, actor.id, kind, typeItem, itemId, MessageFor(actor, kind, itemName, action), now, false);
      if SpacedOut(rows) {
        AppendKeepsSpacing(rows, n, now);
      }
      rows := rows + [n];
      return Created(n);
    }
  }
}
