/** The settings models: the CORS origin list, the active social links, the city status toggle,
    and the single-row rule shared by the four settings tables (`save` adopting the existing
    row, `get_*_settings` creating the defaults only on an empty table). */
module SettingsModels {
  import opened Text
  import opened Values

  // ---------------------------------------------------------------------------
  // SecuritySettings.get_allowed_cors_list
  // ---------------------------------------------------------------------------

  /** `[origin.strip() for origin in parts if origin.strip()]` */
  function CleanOrigins(parts: seq<string>): (r: seq<string>)
    ensures |r| <= |parts|
    ensures forall k :: 0 <= k < |r| ==> r[k] != "" && IsStripped(r[k])
    decreases |parts|
  {
    if parts == [] then []
    else
      var s := Strip(parts[0]);
      StripIsStripped(parts[0]);
      (if s != "" then [s] else []) + CleanOrigins(parts[1..])
  }

  /** Stripping keeps the pieces free of the separator. */
  lemma {:induction false} CleanOriginsNoComma(parts: seq<string>)
    requires forall j :: 0 <= j < |parts| ==> ',' !in parts[j]
    ensures forall k :: 0 <= k < |CleanOrigins(parts)| ==> ',' !in CleanOrigins(parts)[k]
    decreases |parts|
  {
    if parts != [] {
      StripKeepsAbsent(parts[0], ',');
      assert forall j :: 1 <= j < |parts| ==> parts[1..][j - 1] == parts[j];
      CleanOriginsNoComma(parts[1..]);
    }
  }

  /** `get_allowed_cors_list`: nothing for an empty or missing value; otherwise the comma-separated
      origins, stripped, without blank ones. */
  function AllowedCorsList(allowed: Option<string>): (r: seq<string>)
    ensures allowed.None? || allowed.value == "" ==> r == []
    ensures forall k :: 0 <= k < |r| ==> r[k] != "" && IsStripped(r[k]) && ',' !in r[k]
  {
    if allowed.Some? && allowed.value != "" then
      CleanOriginsNoComma(Split(allowed.value, ','));
      CleanOrigins(Split(allowed.value, ','))
    else []
  }

  /** Origins padded with whitespace and joined by commas come back stripped, in their order. */
  lemma {:induction false} CleanPadded(padded: seq<string>, origins: seq<string>)
    requires |padded| == |origins|
    requires forall k :: 0 <= k < |padded| ==> Strip(padded[k]) == origins[k] && origins[k] != ""
    ensures CleanOrigins(padded) == origins
    decreases |padded|
  {
    if padded != [] {
      CleanPadded(padded[1..], origins[1..]);
    }
  }

  /** Writing a list of origins with commas (and any whitespace around them) and reading it back
      gives the list. */
  lemma CorsRoundTrip(padded: seq<string>, origins: seq<string>)
    requires |padded| == |origins| >= 1
    requires forall k :: 0 <= k < |padded| ==> ',' !in padded[k]
    requires forall k :: 0 <= k < |padded| ==> Strip(padded[k]) == origins[k] && origins[k] != ""
    ensures AllowedCorsList(Some(Join(padded, ","))) == origins
  {
    SplitJoin(padded, ',');
    CleanPadded(padded, origins);
  }

  /** Blank entries, such as the one a trailing comma leaves, are dropped. */
  lemma {:induction false} BlankOriginsDropped(parts: seq<string>)
    requires forall k :: 0 <= k < |parts| ==> Strip(parts[k]) == ""
    ensures CleanOrigins(parts) == []
    decreases |parts|
  {
    if parts != [] {
      assert forall k :: 1 <= k < |parts| ==> parts[1..][k - 1] == parts[k];
      BlankOriginsDropped(parts[1..]);
    }
  }

  // ---------------------------------------------------------------------------
  // SocialMediaSettings.get_active_social_media
  // ---------------------------------------------------------------------------

  datatype Platform = Facebook | WhatsApp | Twitter | Instagram | LinkedIn | TikTok | Telegram | YouTube

  function PlatformId(p: Platform): string {
    match p
    case Facebook => "facebook"
    case WhatsApp => "whatsapp"
    case Twitter => "twitter"
    case Instagram => "instagram"
    case LinkedIn => "linkedin"
    case TikTok => "tiktok"
    case Telegram => "telegram"
    case YouTube => "youtube"
  }

  function PlatformName(p: Platform): string {
    match p
    case Facebook => "Facebook"
    case WhatsApp => "WhatsApp"
    case Twitter => "Twitter"
    case Instagram => "Instagram"
    case LinkedIn => "LinkedIn"
    case TikTok => "TikTok"
    case Telegram => "Telegram"
    case YouTube => "YouTube"
  }

  /** The eight URL fields of the social media row. */
  datatype SocialLinks = SocialLinks(
    facebook: Option<string>, whatsapp: Option<string>, twitter: Option<string>, instagram: Option<string>,
    linkedin: Option<string>, tiktok: Option<string>, telegram: Option<string>, youtube: Option<string>)

  /** The `platforms` list, in its fixed order. */
  function Platforms(s: SocialLinks): (r: seq<(Platform, Option<string>)>)
    ensures |r| == 8
  {
    [(Facebook, s.facebook), (WhatsApp, s.whatsapp), (Twitter, s.twitter), (Instagram, s.instagram),
     (LinkedIn, s.linkedin), (TikTok, s.tiktok), (Telegram, s.telegram), (YouTube, s.youtube)]
  }

  /** One dict of the result. */
  datatype SocialEntry = SocialEntry(id: string, name: string, url: string, iconClass: string)

  predicate Active(url: Option<string>) {
    url.Some? && url.value != ""
  }

  function EntryOf(p: Platform, url: string): SocialEntry {
    SocialEntry(PlatformId(p), PlatformName(p), url, "fab fa-" + PlatformId(p))
  }

  /** The positions of the platforms with a truthy URL, in increasing order. */
  function ActivePositions(ps: seq<(Platform, Option<string>)>): (pos: seq<nat>)
    ensures |pos| <= |ps|
    ensures forall k :: 0 <= k < |pos| ==> pos[k] < |ps| && Active(ps[pos[k]].1)
    ensures forall a, b :: 0 <= a < b < |pos| ==> pos[a] < pos[b]
    decreases |ps|
  {
    if ps == [] then []
    else
      var init := ps[..|ps| - 1];
      var pos := ActivePositions(init);
      assert forall i :: 0 <= i < |init| ==> init[i] == ps[i];
      if Active(ps[|ps| - 1].1) then pos + [|ps| - 1] else pos
  }

  /** Every platform with a truthy URL has its position listed. */
  lemma {:induction false} ActivePositionsComplete(ps: seq<(Platform, Option<string>)>)
    ensures forall i :: 0 <= i < |ps| && Active(ps[i].1) ==> i in ActivePositions(ps)
    decreases |ps|
  {
    if ps != [] {
      var init := ps[..|ps| - 1];
      ActivePositionsComplete(init);
      assert forall i :: 0 <= i < |init| ==> init[i] == ps[i];
    }
  }

  /** Extending the scanned prefix by one platform adds its position when its URL is truthy. */
  lemma ActivePositionsStep(ps: seq<(Platform, Option<string>)>, i: nat)
    requires i < |ps|
    ensures ActivePositions(ps[..i + 1]) == ActivePositions(ps[..i]) + (if Active(ps[i].1) then [i] else [])
  {
    assert ps[..i + 1][..i] == ps[..i];
  }

  /** `get_active_social_media`: one entry per platform with a truthy URL, in the platforms'
      order; the URL is the field's value and the icon class is `fab fa-` and the id. */
  method GetActiveSocialMedia(s: SocialLinks) returns (r: seq<SocialEntry>)
    ensures var ps := Platforms(s); var pos := ActivePositions(ps);
      |r| == |pos| && forall k :: 0 <= k < |r| ==> r[k] == EntryOf(ps[pos[k]].0, ps[pos[k]].1.value)
  {
    var ps := Platforms(s);
    r := [];
    ghost var pos: seq<nat> := [];
    var i := 0;
    while i < |ps|
      invariant 0 <= i <= |ps|
      invariant pos == ActivePositions(ps[..i]) && |r| == |pos|
      invariant forall k :: 0 <= k < |r| ==>
        pos[k] < i && Active(ps[pos[k]].1) && r[k] == EntryOf(ps[pos[k]].0, ps[pos[k]].1.value)
    {
      var (platform, url) := ps[i];
      ActivePositionsStep(ps, i);
      if url.Some? && url.value != "" {
        r := r + [EntryOf(platform, url.value)];
        pos := pos + [i];
      }
      i := i + 1;
    }
    assert ps[..|ps|] == ps;
  }

  /** At most eight entries, each with a non-empty URL, its platform's id and name, and the icon
      class built from the id; a platform is listed exactly when its URL is truthy. */
  lemma ActiveSocialMedia(s: SocialLinks, r: seq<SocialEntry>)
    requires var ps := Platforms(s); var pos := ActivePositions(ps);
      |r| == |pos| && forall k :: 0 <= k < |r| ==> r[k] == EntryOf(ps[pos[k]].0, ps[pos[k]].1.value)
    ensures |r| <= 8
    ensures forall k :: 0 <= k < |r| ==> r[k].url != "" && r[k].iconClass == "fab fa-" + r[k].id
    ensures forall i :: 0 <= i < 8 && Active(Platforms(s)[i].1) ==>
      exists k :: 0 <= k < |r| && r[k] == EntryOf(Platforms(s)[i].0, Platforms(s)[i].1.value)
  {
    var ps := Platforms(s);
    var pos := ActivePositions(ps);
    ActivePositionsComplete(ps);
    forall i | 0 <= i < 8 && Active(ps[i].1)
      ensures exists k :: 0 <= k < |r| && r[k] == EntryOf(ps[i].0, ps[i].1.value)
    {
      var k :| 0 <= k < |pos| && pos[k] == i;
      assert r[k] == EntryOf(ps[i].0, ps[i].1.value);
    }
  }

  /** With every link set, all eight platforms are listed, Facebook first and YouTube last. */
  lemma AllLinksListed(s: SocialLinks)
    requires forall i :: 0 <= i < 8 ==> Active(Platforms(s)[i].1)
    ensures ActivePositions(Platforms(s)) == [0, 1, 2, 3, 4, 5, 6, 7]
  {
    var ps := Platforms(s);
    var pos := ActivePositions(ps);
    ActivePositionsComplete(ps);
    assert forall i :: 0 <= i < 8 ==> i in pos;
    AllPositions(pos, 8);
  }

  /** A strictly increasing list of positions below `n` that holds every one of them is `0..n-1`. */
  lemma {:induction false} AllPositions(pos: seq<nat>, n: nat)
    requires |pos| <= n
    requires forall k :: 0 <= k < |pos| ==> pos[k] < n
    requires forall a, b :: 0 <= a < b < |pos| ==> pos[a] < pos[b]
    requires forall i :: 0 <= i < n ==> i in pos
    ensures pos == seq(n, i => i)
    decreases n
  {
    if n > 0 {
      assert n - 1 in pos;
      var m :| 0 <= m < |pos| && pos[m] == n - 1;
      assert pos[|pos| - 1] < n;
      assert forall a :: 0 <= a < |pos| - 1 ==> pos[a] < pos[|pos| - 1];
      assert m == |pos| - 1;
      var init := pos[..|pos| - 1];
      forall i | 0 <= i < n - 1 ensures i in init {
        assert i in pos;
        var j :| 0 <= j < |pos| && pos[j] == i;
        assert j != |pos| - 1;
        assert init[j] == i;
      }
      AllPositions(init, n - 1);
      assert pos == init + [n - 1];
    }
  }

  // ---------------------------------------------------------------------------
  // City.toggle_status
  // ---------------------------------------------------------------------------

  class City {
    var name: string
    var status: bool

    constructor(name: string)
      ensures this.name == name && status
    {
      this.name := name;
      status := true;
    }

    /** `toggle_status`: flips `status` and returns the new value. */
    method ToggleStatus() returns (r: bool)
      modifies this
      ensures status == !old(status) && r == status && name == old(name)
    {
      status := !status;
      r := status;
    }
  }

  /** Two toggles restore the original status. */
  method ToggleTwice(c: City)
    modifies c
    ensures c.status == old(c.status) && c.name == old(c.name)
  {
    var _ := c.ToggleStatus();
    var _ := c.ToggleStatus();
  }

  // ---------------------------------------------------------------------------
  // The single-row settings tables
  // ---------------------------------------------------------------------------

  /** A stored settings row. */
  datatype Row = Row(pk: nat, fields: map<string, Value>)

  /** Whether some row has the key. */
  predicate KeyAt(rows: seq<Row>, key: nat) {
    exists i :: 0 <= i < |rows| && rows[i].pk == key
  }

  /** The outcome of a `save`: the key the row was written under, or the database's refusal. */
  datatype SaveOutcome = Saved(pk: nat) | IntegrityError

  /** Primary keys are unique. */
  predicate UniqueKeys(rows: seq<Row>) {
    forall i, j :: 0 <= i < j < |rows| ==> rows[i].pk != rows[j].pk
  }

  /** One of the settings tables (`PlatformSettings`, `SocialMediaSettings`, `SeoSettings`,
      `SecuritySettings`); `objects.first()` is its first row. */
  class SettingsTable {
    var rows: seq<Row>

    constructor()
      ensures rows == []
    {
      rows := [];
    }

    /** The position of the row with a given key. */
    method Find(pk: nat) returns (r: Option<nat>)
      ensures r.Some? ==> r.value < |rows| && rows[r.value].pk == pk
      ensures r.None? ==> forall i :: 0 <= i < |rows| ==> rows[i].pk != pk
    {
      var i := 0;
      while i < |rows|
        invariant 0 <= i <= |rows|
        invariant forall k :: 0 <= k < i ==> rows[k].pk != pk
      {
        if rows[i].pk == pk {
          return Some(i);
        }
        i := i + 1;
      }
      return None;
    }

    /** The singleton `save` followed by Django's `Model.save`. `adding` is `_state.adding`:
        true for an instance built in memory, false for one loaded from the table. `pk` is the
        instance's key. A new instance already holds its `uuid4` default, so `pk` is `None`
        only when it was cleared. The guard gives a key-less instance the first row's key when a
        row exists; a key still missing is the default `newPk`. Because the key field has a
        default, an adding instance is always inserted, and the insert raises `IntegrityError`
        when its key is taken. A loaded instance updates the row with its key, or is inserted
        when no row has it. */
    method Save(adding: bool, pk: Option<nat>, fields: map<string, Value>, newPk: nat) returns (r: SaveOutcome)
      modifies this
      ensures var key := if old(|rows|) > 0 && pk.None? then old(rows)[0].pk else if pk.Some? then pk.value else newPk;
        && (adding && KeyAt(old(rows), key) ==> r == IntegrityError && rows == old(rows))
        && (!KeyAt(old(rows), key) ==> r == Saved(key) && rows == old(rows) + [Row(key, fields)])
        && (!adding && KeyAt(old(rows), key) ==> (
              && r == Saved(key) && |rows| == old(|rows|)
              && (UniqueKeys(old(rows)) ==> forall i :: 0 <= i < |rows| ==>
                    rows[i] == if old(rows)[i].pk == key then Row(key, fields) else old(rows)[i])))
      ensures UniqueKeys(old(rows)) ==> UniqueKeys(rows)
    {
      var key: nat;
      if |rows| > 0 && pk.None? {
        key := rows[0].pk;
      } else if pk.Some? {
        key := pk.value;
      } else {
        key := newPk;
      }
      var at := Find(key);
      if at.Some? && adding {
        return IntegrityError;
      }
      if at.Some? {
        rows := rows[at.value := Row(key, fields)];
      } else {
        rows := rows + [Row(key, fields)];
      }
      r := Saved(key);
    }

    /** `get_settings` and its siblings: the first row when the table has one, otherwise a new row
        with the defaults. */
    method GetSettings(defaults: map<string, Value>, newPk: nat) returns (r: Row)
      modifies this
      ensures old(|rows|) > 0 ==> r == old(rows)[0] && rows == old(rows)
      ensures old(|rows|) == 0 ==> r == Row(newPk, defaults) && rows == [r]
    {
      if |rows| > 0 {
        return rows[0];
      }
      var _ := Save(true, Some(newPk), defaults, newPk);
      r := rows[0];
    }
  }

  /** A row loaded from the table and saved with its key cleared overwrites the first row: the
      row count does not grow. */
  method SaveKeepsOneRow(t: SettingsTable, fields: map<string, Value>, newPk: nat)
    requires |t.rows| == 1
    modifies t
    ensures |t.rows| == 1 && t.rows[0] == Row(old(t.rows[0].pk), fields)
  {
    var _ := t.Save(false, None, fields, newPk);
  }

  /** A new instance saved while a row exists: holding its own default key, it skips the guard
      and is inserted as a second row; with its key cleared it takes the first row's key and the
      forced insert raises. */
  method NewInstanceSave(t: SettingsTable, fields: map<string, Value>, defaultPk: nat, newPk: nat)
    returns (own: SaveOutcome, cleared: SaveOutcome)
    requires |t.rows| == 1 && defaultPk != t.rows[0].pk
    modifies t
    ensures own == Saved(defaultPk) && t.rows == old(t.rows) + [Row(defaultPk, fields)]
    ensures cleared == IntegrityError
  {
    own := t.Save(true, Some(defaultPk), fields, newPk);
    cleared := t.Save(true, None, fields, newPk);
    assert t.rows[0].pk == old(t.rows[0].pk);
  }

  /** A second `get_*_settings` call returns the row the first one created and changes nothing. */
  method GetSettingsTwice(t: SettingsTable, defaults: map<string, Value>, pk1: nat, pk2: nat)
    returns (first: Row, second: Row)
    modifies t
    ensures first == second
    ensures old(|t.rows|) == 0 ==> t.rows == [Row(pk1, defaults)]
    ensures old(|t.rows|) > 0 ==> t.rows == old(t.rows)
  {
    first := t.GetSettings(defaults, pk1);
    second := t.GetSettings(defaults, pk2);
  }

  /** The defaults `get_settings` creates, with the model defaults of the unnamed fields. */
  const PlatformDefaults: map<string, Value> := map[
    "title" := Str("Real Estate Platform"),
    "description" := Str("A platform for buying and renting real estate in Morocco."),
    "currency" := Str("MAD"),
    "currency_symbol" := Str("DH"),
    "timezone" := Str("Africa/Casablanca"),
    "contact_email" := Str("kamfour1997@gmail.com"),
    "support_email" := Str("kamfour1997@gmail.com"),
    "phone" := Str("0772013984"),
    "maintenance_mode" := Bool(false),
    "allow_registration" := Bool(true)]

  /** The defaults `get_social_media_settings` creates. */
  const SocialDefaults: SocialLinks := SocialLinks(
    Some("https://facebook.com/yourpage"), Some("https://wa.me/212772013984"),
    Some("https://twitter.com/yourprofile"), Some("https://instagram.com/yourprofile"),
    Some("https://linkedin.com/yourprofile"), Some("https://tiktok.com/yourprofile"),
    Some("https://telegram.com/yourprofile"), Some("https://youtube.com/yourprofile"))

  /** The defaults `get_seo_settings` creates. */
  const SeoDefaults: map<string, Value> := map[
    "title" := Str("Real Estate Platform"),
    "description" := Str("A platform for buying and renting real estate in Morocco."),
    "keywords" := Str("real estate, property, morocco, buy, rent, casa, rabat")]

  /** The defaults `get_security_settings` creates. */
  const SecurityDefaults: map<string, Value> := map[
    "enable_cors" := Bool(true),
    "allowed_cors" := Str("http://localhost:8000, http://127.0.0.1:8000")]

  /** The default social row lists all eight platforms. */
  lemma DefaultSocialLinksAllActive()
    ensures ActivePositions(Platforms(SocialDefaults)) == [0, 1, 2, 3, 4, 5, 6, 7]
  {
    AllLinksListed(SocialDefaults);
  }
}
