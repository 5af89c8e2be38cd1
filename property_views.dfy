/** The property views: the like and favorite toggles, the admin block action, and the
    visibility rules of the property lists. */
module PropertyViews {
  import opened Text
  import opened Tables
  import opened Notifications
  import opened PropertyModels

  // ---------------------------------------------------------------------------
  // BaseToggleView
  // ---------------------------------------------------------------------------

  /** The `relation_field` of a toggle view: `likes` for `ToggleLikeView`, `favorites` for
      `ToggleFavoriteView`. */
  datatype Relation = Likes | Favorites

  /** The view's `action_name`, which is also the notification type and action word. */
  function ActionName(rel: Relation): string {
    if rel == Likes then "like" else "favorite"
  }

  /** The users in a property's relation. */
  function Members(p: Property, rel: Relation): set<nat> {
    if rel == Likes then p.likes else p.favorites
  }

  /** The property with the users of one relation replaced. */
  function WithMembers(p: Property, rel: Relation, m: set<nat>): (r: Property)
    ensures Members(r, rel) == m
    ensures forall other :: other != rel ==> Members(r, other) == Members(p, other)
  {
    if rel == Likes then p.(likes := m) else p.(favorites := m)
  }

  /** Remove the user when present, add them otherwise. */
  function Toggled(m: set<nat>, u: nat): (r: set<nat>)
    ensures u in r <==> u !in m
    ensures forall v :: v != u ==> (v in r <==> v in m)
    ensures |r| == if u in m then |m| - 1 else |m| + 1
  {
    if u in m then m - {u} else m + {u}
  }

  /** Toggling the same user twice restores the relation. */
  lemma ToggledTwice(m: set<nat>, u: nat)
    ensures Toggled(Toggled(m, u), u) == m
  {
  }

  /** What `create_notification` does with the request of the add branch: the like or favorite
      notification, addressed to the owner from the acting user, about the property. */
  predicate ToggleNotified(before: seq<Notification>, after: seq<Notification>, r: Outcome,
                           p: Property, rel: Relation, user: Account, now: int) {
    var kind := ActionName(rel);
    (r.Suppressed? <==> (p.owner.id == user.id
      || (Deduplicated(kind, Some("property"), Some(p.id))
          && RecentDuplicate(before, p.owner.id, user.id, kind, Some("property"), Some(p.id), now))))
    && (r.Suppressed? ==> after == before)
    && (r.Created? ==> (after == before + [r.notification]
        && r.notification == Notification(p.owner.id, user.id, kind, Some("property"), Some(p.id),
                                           MessageFor(user, kind, Some(p.title), Some(kind)), now, false)))
  }

  /** `get_object_or_404(Property, id=pk)`: the position of the property with that key, or `None`
      for the 404 answer. */
  function PropertyIndex(ps: seq<Property>, pk: string): (r: Option<nat>)
    ensures r.Some? ==> r.value < |ps| && ps[r.value].id == pk
    ensures r.Some? ==> forall k :: 0 <= k < r.value ==> ps[k].id != pk
    ensures r.None? ==> forall k :: 0 <= k < |ps| ==> ps[k].id != pk
  {
    if |ps| == 0 then None
    else if ps[0].id == pk then Some(0)
    else match PropertyIndex(ps[1..], pk) {
      case None => None
      case Some(j) => Some(j + 1)
    }
  }

  /** `BaseToggleView.post` on the property with key `pk`. An unknown key gets the 404 answer
      (`found` is false) and nothing changes. Otherwise a user already in the relation is removed
      and the status is false; a user not in it is added, the status is true and the owner is
      notified. The count is the size of the relation afterwards. */
  method ToggleRelation(props: PropertyStore, pk: string, rel: Relation, user: Account,
                        notes: NotificationStore, now: int)
    returns (found: bool, status: bool, count: nat, note: Option<Outcome>)
    modifies props, notes
    ensures found <==> PropertyIndex(old(props.properties), pk).Some?
    ensures !found ==> props.properties == old(props.properties) && notes.rows == old(notes.rows) && note == None
    ensures props.comments == old(props.comments) && props.priceTypes == old(props.priceTypes)
    ensures found ==> (
      var i := PropertyIndex(old(props.properties), pk).value;
      var p := old(props.properties)[i];
      && props.properties == old(props.properties)[i := WithMembers(p, rel, Toggled(Members(p, rel), user.id))]
      && (status <==> user.id !in Members(p, rel))
      && count == |Members(props.properties[i], rel)|
      && (!status ==> note == None && notes.rows == old(notes.rows))
      && (status ==> note.Some? && ToggleNotified(old(notes.rows), notes.rows, note.value, p, rel, user, now)))
    ensures SpacedOut(old(notes.rows)) ==> SpacedOut(notes.rows)
  {
    var at := PropertyIndex(props.properties, pk);
    if at.None? {
      return false, false, 0, None;
    }
    found := true;
    var i := at.value;
    var p := props.properties[i];
    var m := Members(p, rel);
    if user.id in m {
      props.properties := props.properties[i := WithMembers(p, rel, m - {user.id})];
      status := false;
      note := None;
    } else {
      props.properties := props.properties[i := WithMembers(p, rel, m + {user.id})];
      status := true;
      var kind := ActionName(rel);
      var r := notes.CreateNotification(p.owner, user, kind, Some("property"), Some(p.id), Some(p.title), Some(kind), now);
      note := Some(r);
    }
    count := |Members(props.properties[i], rel)|;
  }

  /** Toggling twice restores the membership, and the two calls report opposite statuses; an
      unknown key is refused twice. */
  method ToggleTwice(props: PropertyStore, pk: string, rel: Relation, user: Account, notes: NotificationStore,
                     now: int, later: int)
    returns (first: bool, second: bool)
    modifies props, notes
    ensures props.properties == old(props.properties)
    ensures PropertyIndex(old(props.properties), pk).Some? ==> first != second
  {
    ghost var ps := props.properties;
    var f1, f2, c1, c2;
    var n1, n2;
    f1, first, c1, n1 := ToggleRelation(props, pk, rel, user, notes, now);
    f2, second, c2, n2 := ToggleRelation(props, pk, rel, user, notes, later);
    if f1 {
      var i := PropertyIndex(ps, pk).value;
      ToggledTwice(Members(ps[i], rel), user.id);
      assert props.properties[i] == ps[i];
    }
  }

  // ---------------------------------------------------------------------------
  // AdminPropertyBlockView
  // ---------------------------------------------------------------------------

  /** `AdminPropertyBlockView.post` on the property with key `pk`. An unknown key gets the 404
      answer (`found` is false) and nothing changes. Otherwise the blocking flag flips; since it
      always changes, the owner is always sent a block or unblock notification, suppressed only
      when the admin owns the property. */
  method AdminBlock(props: PropertyStore, pk: string, admin: Account, notes: NotificationStore, now: int)
    returns (found: bool, blocked: bool, r: Outcome)
    modifies props, notes
    ensures found <==> PropertyIndex(old(props.properties), pk).Some?
    ensures !found ==> props.properties == old(props.properties) && notes.rows == old(notes.rows)
    ensures props.comments == old(props.comments) && props.priceTypes == old(props.priceTypes)
    ensures found ==> (
      var i := PropertyIndex(old(props.properties), pk).value;
      var p := old(props.properties)[i];
      && props.properties == old(props.properties)[i := p.(isBlocked := !p.isBlocked)]
      && blocked == props.properties[i].isBlocked && blocked == !p.isBlocked
      && (r.Suppressed? <==> admin.id == p.owner.id)
      && (r.Suppressed? ==> notes.rows == old(notes.rows))
      && (r.Created? ==> notes.rows == old(notes.rows) + [r.notification])
      && (r.Created? ==> (r.notification.kind == (if blocked then "block" else "unblock")
        && r.notification.target == p.owner.id && r.notification.actor == admin.id
        && r.notification.message == "Your property '" + p.title + "' has been "
                                     + (if blocked then "blocked" else "unblocked") + " by admin")))
  {
    var at := PropertyIndex(props.properties, pk);
    if at.None? {
      return false, false, Suppressed;
    }
    found := true;
    var i := at.value;
    var oldStatus := props.properties[i].isBlocked;
    var p := props.ChangeBlocked(i);
    var newStatus := p.isBlocked;
    blocked := newStatus;
    r := Suppressed;
    if oldStatus != newStatus {
      var kind, word;
      if newStatus {
        kind, word := "block", "blocked";
      } else {
        kind, word := "unblock", "unblocked";
      }
      AdminMessage(admin, kind, p.title, word);
      r := notes.CreateNotification(p.owner, admin, kind, Some("property"), Some(p.id), Some(p.title), Some(word), now);
    }
  }

  // ---------------------------------------------------------------------------
  // Visibility
  // ---------------------------------------------------------------------------

  /** Shown to the public: active and not blocked. */
  predicate Listed(p: Property) {
    p.status && !p.isBlocked
  }

  /** `PropertyListView.get_queryset`. */
  function PublicProperties(ps: seq<Property>): (r: seq<Property>)
    ensures |r| <= |ps|
    ensures forall p :: p in r <==> p in ps && p.status && !p.isBlocked
  {
    Filter(ps, Listed)
  }

  /** `UserFavoritesView.get_queryset`: the user's favorites that are public. */
  function FavoriteProperties(ps: seq<Property>, user: nat): (r: seq<Property>)
    ensures forall p :: p in r <==> p in ps && user in p.favorites && p.status && !p.isBlocked
  {
    Filter(ps, (p: Property) => user in p.favorites && Listed(p))
  }

  /** `filter(user_id=user_id)` */
  function OwnedBy(userId: nat): Property -> bool {
    (p: Property) => p.owner.id == userId
  }

  /** `filter(user_id=user_id, status=True, is_blocked=False)` */
  function OwnedAndListed(userId: nat): Property -> bool {
    (p: Property) => p.owner.id == userId && Listed(p)
  }

  /** A Python value as `==` sees it: a text never equals a UUID object. */
  datatype PyObject = PyStr(text: string) | PyUuid(uuid: nat)

  /** `str(self.request.user.id)`: the text of the requester's UUID, or "None" when the request
      is anonymous; `uuidText` renders a UUID. */
  function RequesterText(requester: Option<nat>, uuidText: nat -> string): string {
    if requester.Some? then uuidText(requester.value) else "None"
  }

  /** `UserPropertyListView.get_queryset` as written: the `<uuid:user_id>` route passes a UUID
      object, which is compared with the text of the requester's id. */
  function UserPropertiesAsWritten(ps: seq<Property>, requester: Option<nat>, userId: nat,
                                   uuidText: nat -> string): (r: seq<Property>)
    ensures forall p :: p in r ==> p in ps && p.owner.id == userId
  {
    if PyStr(RequesterText(requester, uuidText)) == PyUuid(userId) then Filter(ps, OwnedBy(userId))
    else Filter(ps, OwnedAndListed(userId))
  }

  /** As written, the owner branch is never taken: not even the owner sees an inactive
      property of theirs. */
  lemma OwnerMissesInactiveProperty(p: Property, uuidText: nat -> string)
    requires !p.status
    ensures p !in UserPropertiesAsWritten([p], Some(p.owner.id), p.owner.id, uuidText)
    ensures p in UserProperties([p], Some(p.owner.id), p.owner.id)
  {
  }

  /** `UserPropertyListView.get_queryset` as intended: the owner sees all of their properties,
      anyone else only the public ones. */
  function UserProperties(ps: seq<Property>, requester: Option<nat>, userId: nat): (r: seq<Property>)
    ensures forall p :: p in r <==>
      (p in ps && p.owner.id == userId && (requester == Some(userId) || (p.status && !p.isBlocked)))
  {
    if requester == Some(userId) then Filter(ps, OwnedBy(userId))
    else Filter(ps, OwnedAndListed(userId))
  }

  /** What a visitor sees of a user's properties is that user's part of the public list, and
      so is any favorite list. */
  lemma VisibilityAgrees(ps: seq<Property>, requester: Option<nat>, userId: nat, user: nat)
    requires requester != Some(userId)
    ensures UserProperties(ps, requester, userId) == Filter(PublicProperties(ps), OwnedBy(userId))
    ensures forall p :: p in FavoriteProperties(ps, user) ==> p in PublicProperties(ps)
  {
    FilterFilter(ps, Listed, OwnedBy(userId), OwnedAndListed(userId));
  }
}
