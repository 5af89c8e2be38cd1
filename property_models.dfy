/** The property models: the status and blocking toggles of a property, the status toggle of
    a comment, the seeding of the price types, and the upload path of a property image. */
module PropertyModels {
  import opened Text
  import opened Notifications

  // ---------------------------------------------------------------------------
  // Rows
  // ---------------------------------------------------------------------------

  /** A listed property. `id` is the text of its UUID; `likes` and `favorites` are the ids of the
      users in the two many-to-many relations. `price` and `area` are decimals. */
  datatype Property = Property(
    id: string, title: string, owner: Account, price: real, area: real,
    status: bool, isBlocked: bool, likes: set<nat>, favorites: set<nat>)

  /** A comment on a property; `parent` is the comment it replies to. */
  datatype Comment = Comment(id: string, user: nat, property: string, text: string,
                             parent: Option<string>, status: bool)

  /** A pricing option of the platform. */
  datatype PriceType = PriceType(name: string, description: Option<string>, status: bool)

  // ---------------------------------------------------------------------------
  // default_types
  // ---------------------------------------------------------------------------

  /** The types `default_types` creates, in creation order; `status` takes its model default. */
  const DefaultPriceTypes: seq<PriceType> := [
    PriceType("fixed_sale", Some("Fixed Sale Price"), true),
    PriceType("negotiable_sale", Some("Negotiable Sale Price"), true),
    PriceType("auction", Some("Auction"), true),
    PriceType("monthly_rent", Some("Monthly Rent"), true),
    PriceType("daily_rent", Some("Daily Rent"), true),
    PriceType("yearly_rent", Some("Yearly Rent"), true),
    PriceType("negotiable_rent", Some("Negotiable Rent"), true),
    PriceType("seasonal_rent", Some("Seasonal Rent"), true),
    PriceType("vacation_rent", Some("Vacation Rent"), true)
  ]

  /** The nine defaults are active, fit the 50-character `name` column and respect its
      `unique` constraint. */
  lemma DefaultPriceTypesValid()
    ensures |DefaultPriceTypes| == 9
    ensures forall i :: 0 <= i < |DefaultPriceTypes| ==>
      DefaultPriceTypes[i].status && |DefaultPriceTypes[i].name| <= 50 && DefaultPriceTypes[i].description.Some?
    ensures forall i, j :: 0 <= i < j < |DefaultPriceTypes| ==> DefaultPriceTypes[i].name != DefaultPriceTypes[j].name
  {
  }

  // ---------------------------------------------------------------------------
  // upload paths
  // ---------------------------------------------------------------------------

  /** `property_image_upload_path`: the image goes to the folder of its property (or
      `unknown`) under a fresh name that keeps the uploaded file's extension; `uuid` is the text
      of `uuid.uuid4()`. The `unknown` folder cannot be reached in Django: the image's property
      key is not nullable, and reading an unset one raises `RelatedObjectDoesNotExist` before the
      test; the path is modelled as written. */
  function ImageUploadPath(propertyId: Option<string>, uuid: string, filename: string): (r: string)
    ensures StartsWith(r, "properties/images/")
    ensures |uuid + Extension(filename)| < |r| && r[|r| - |uuid + Extension(filename)|..] == uuid + Extension(filename)
  {
    var folder := if propertyId.Some? then propertyId.value else "unknown";
    PathAffixes("properties/images/", folder, uuid + Extension(filename));
    "properties/images/" + folder + "/" + (uuid + Extension(filename))
  }

  /** The path of a folder and a name, with its prefix written as two components. */
  lemma ImagePathPieces(folder: string, name: string)
    ensures "properties/images/" + folder + "/" + name == "properties" + "/" + "images" + "/" + folder + "/" + name
  {
    assert "properties" + "/" + "images" + "/" == "properties/images/";
  }

  /** `a/b/c/d` regrouped from the right. */
  lemma FourPieces(a: string, b: string, c: string, d: string)
    ensures a + "/" + b + "/" + c + "/" + d == a + "/" + (b + "/" + (c + "/" + d))
  {
    var ab := a + "/" + b;
    assert ab + "/" + c + "/" + d == ab + "/" + (c + "/" + d);
    assert a + "/" + b + "/" + (c + "/" + d) == a + "/" + (b + "/" + (c + "/" + d));
  }

  /** Splitting `a/b/c/d` on slashes when no piece holds one. */
  lemma SplitFour(a: string, b: string, c: string, d: string)
    requires '/' !in a && '/' !in b && '/' !in c && '/' !in d
    ensures Split(a + "/" + b + "/" + c + "/" + d, '/') == [a, b, c, d]
  {
    var cd := c + "/" + d;
    var bcd := b + "/" + cd;
    FourPieces(a, b, c, d);
    SplitNoSeparator(d, '/');
    SplitSlash(c, d);
    SplitSlash(b, cd);
    SplitSlash(a, bcd);
  }

  /** The path has four components: `properties`, `images`, the property's folder and the new
      file name, which is the uuid followed by the original extension. */
  lemma ImagePathComponents(propertyId: Option<string>, uuid: string, filename: string)
    requires propertyId.Some? ==> '/' !in propertyId.value
    requires '/' !in uuid
    ensures Split(ImageUploadPath(propertyId, uuid, filename), '/') ==
      ["properties", "images", if propertyId.Some? then propertyId.value else "unknown", uuid + Extension(filename)]
  {
    var folder := if propertyId.Some? then propertyId.value else "unknown";
    var name := uuid + Extension(filename);
    assert '/' !in name by {
      assert forall k :: 0 <= k < |name| ==> name[k] == (if k < |uuid| then uuid[k] else Extension(filename)[k - |uuid|]);
    }
    SplitFour("properties", "images", folder, name);
    assert ImageUploadPath(propertyId, uuid, filename) == "properties/images/" + folder + "/" + name;
    ImagePathPieces(folder, name);
  }

  // ---------------------------------------------------------------------------
  // The property tables
  // ---------------------------------------------------------------------------

  /** The `Property`, `Comment` and `PriceType` tables. */
  class PropertyStore {
    var properties: seq<Property>
    var comments: seq<Comment>
    var priceTypes: seq<PriceType>

    constructor()
      ensures properties == [] && comments == [] && priceTypes == []
    {
      properties := [];
      comments := [];
      priceTypes := [];
    }

    /** `change_status`: flips the status of property `i`, and nothing else, and returns the
        property. */
    method ChangeStatus(i: nat) returns (r: Property)
      requires i < |properties|
      modifies this
      ensures properties == old(properties)[i := old(properties[i]).(status := !old(properties[i].status))]
      ensures r == properties[i]
      ensures comments == old(comments) && priceTypes == old(priceTypes)
    {
      properties := properties[i := properties[i].(status := !properties[i].status)];
      r := properties[i];
    }

    /** `change_blocked`: flips the blocking flag of property `i`, leaving its status alone, and
        returns the property. */
    method ChangeBlocked(i: nat) returns (r: Property)
      requires i < |properties|
      modifies this
      ensures properties == old(properties)[i := old(properties[i]).(isBlocked := !old(properties[i].isBlocked))]
      ensures r == properties[i] && r.status == old(properties[i].status)
      ensures comments == old(comments) && priceTypes == old(priceTypes)
    {
      properties := properties[i := properties[i].(isBlocked := !properties[i].isBlocked)];
      r := properties[i];
    }

    /** `Comment.toggle_status`: flips the status of comment `i` and returns the new value. */
    method ToggleCommentStatus(i: nat) returns (r: bool)
      requires i < |comments|
      modifies this
      ensures comments == old(comments)[i := old(comments[i]).(status := !old(comments[i].status))]
      ensures r == comments[i].status
      ensures properties == old(properties) && priceTypes == old(priceTypes)
    {
      comments := comments[i := comments[i].(status := !comments[i].status)];
      r := comments[i].status;
    }

    /** `default_types`: on an empty table, creates the nine default types one by one and
        answers true; on any other table, creates nothing and answers false. */
    method DefaultTypes() returns (created: bool)
      modifies this
      ensures created <==> old(priceTypes) == []
      ensures created ==> priceTypes == DefaultPriceTypes
      ensures !created ==> priceTypes == old(priceTypes)
      ensures properties == old(properties) && comments == old(comments)
    {
      if priceTypes != [] {
        return false;
      }
      for i := 0 to |DefaultPriceTypes|
        invariant priceTypes == DefaultPriceTypes[..i]
        invariant properties == old(properties) && comments == old(comments)
      {
        priceTypes := priceTypes + [DefaultPriceTypes[i]];
      }
      return true;
    }
  }

  /** Changing the status twice restores the property. */
  method ChangeStatusTwice(s: PropertyStore, i: nat)
    requires i < |s.properties|
    modifies s
    ensures s.properties == old(s.properties)
  {
    var _ := s.ChangeStatus(i);
    var _ := s.ChangeStatus(i);
  }

  /** Changing the blocking flag twice restores the property. */
  method ChangeBlockedTwice(s: PropertyStore, i: nat)
    requires i < |s.properties|
    modifies s
    ensures s.properties == old(s.properties)
  {
    var _ := s.ChangeBlocked(i);
    var _ := s.ChangeBlocked(i);
  }

  /** Toggling a comment twice restores its status. */
  method ToggleCommentTwice(s: PropertyStore, i: nat) returns (first: bool, second: bool)
    requires i < |s.comments|
    modifies s
    ensures first == !old(s.comments[i].status) && second == old(s.comments[i].status)
    ensures s.comments == old(s.comments)
  {
    first := s.ToggleCommentStatus(i);
    second := s.ToggleCommentStatus(i);
  }

  /** Seeding is idempotent: a second call creates nothing and answers false. */
  method DefaultTypesTwice(s: PropertyStore) returns (first: bool, second: bool)
    modifies s
    ensures first <==> old(s.priceTypes) == []
    ensures !second
    ensures s.priceTypes == if first then DefaultPriceTypes else old(s.priceTypes)
  {
    first := s.DefaultTypes();
    second := s.DefaultTypes();
  }
}
