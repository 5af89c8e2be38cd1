/** The visitor manager: classifying a request (referrer, client address, device, browser), the
    visitor key derived from it, and `record_visit`, which gets or creates the visitor, fills in
    its missing fields and inserts at most one visit per visitor per 24 hours. */
module Visitors {
  import opened Text

  /** The parts of a request the manager reads: `META`, `COOKIES` and `GET`. */
  datatype Request = Request(meta: map<string, string>, cookies: map<string, string>, query: map<string, string>)

  /** `d.get(k, default)` on a string dictionary. */
  function GetOr(d: map<string, string>, k: string, default: string): string {
    if k in d then d[k] else default
  }

  // ---------------------------------------------------------------------------
  // Classifying a request
  // ---------------------------------------------------------------------------

  /** `clean_referrer`: an empty referrer is `"direct"`; otherwise the query string is cut off at
      the first `?` and the rest is stripped, so the result holds no `?` and no outer blanks. */
  function CleanReferrer(ref: string): (r: string)
    ensures ref == "" ==> r == "direct"
    ensures ref != "" ==> '?' !in r && IsStripped(r)
    ensures ref != "" && '?' !in ref ==> r == Strip(ref)
  {
    if ref == "" then "direct"
    else
      var p := BeforeFirst(ref, '?');
      StripIsStripped(p);
      BeforeFirstIsPrefix(ref, '?');
      var i := |p| - |StripLeft(p)|;
      assert Strip(p) == p[i..][..|Strip(p)|];
      assert forall k :: 0 <= k < |Strip(p)| ==> Strip(p)[k] == p[i + k];
      Strip(p)
  }

  /** A query string is dropped whatever it holds; a referrer made only of a query string leaves
      the empty string, not `"direct"`. */
  lemma QueryDropped(p: string, q: string)
    requires '?' !in p
    ensures CleanReferrer(p + "?" + q) == Strip(p)
    ensures p == "" ==> CleanReferrer(p + "?" + q) == ""
  {
    SplitAfterPrefix(p, '?', q);
    assert p + "?" + q == p + ['?'] + q;
  }

  const ForwardedFor := "HTTP_X_FORWARDED_FOR"
  const RemoteAddr := "REMOTE_ADDR"

  /** `if x_forwarded_for:` */
  predicate Forwarded(req: Request) {
    ForwardedFor in req.meta && req.meta[ForwardedFor] != ""
  }

  /** `get_client_ip`: the forwarded header's text up to its first comma, taken verbatim, or else
      `REMOTE_ADDR` with `'0.0.0.0'` as default. */
  function ClientIp(req: Request): (r: string)
    ensures Forwarded(req) ==> ',' !in r && StartsWith(req.meta[ForwardedFor], r)
    ensures Forwarded(req) && ',' in req.meta[ForwardedFor] ==> req.meta[ForwardedFor][|r|] == ','
    ensures Forwarded(req) && ',' !in req.meta[ForwardedFor] ==> r == req.meta[ForwardedFor]
    ensures !Forwarded(req) ==> r == GetOr(req.meta, RemoteAddr, "0.0.0.0")
  {
    if Forwarded(req) then
      BeforeFirstIsPrefix(req.meta[ForwardedFor], ',');
      BeforeFirst(req.meta[ForwardedFor], ',')
    else GetOr(req.meta, RemoteAddr, "0.0.0.0")
  }

  /** The first forwarded address is not stripped: `" 10.0.0.1, proxy"` gives `" 10.0.0.1"`. */
  lemma FirstForwardedAddress(req: Request, first: string, rest: string)
    requires ',' !in first && first != ""
    requires ForwardedFor in req.meta && req.meta[ForwardedFor] == first + "," + rest
    ensures ClientIp(req) == first
  {
    SplitAfterPrefix(first, ',', rest);
    assert first + "," + rest == first + [','] + rest;
  }

  const Unknown := "Unknown"
  const Mobile := "Mobile"
  const Tablet := "Tablet"
  const Desktop := "Desktop"

  /** `get_device_type`: one of four labels; "mobile" is looked for before "tablet". */
  function DeviceType(ua: string): (r: string)
    ensures r in {Unknown, Mobile, Tablet, Desktop}
    ensures r == Unknown <==> ua == ""
    ensures r == Mobile <==> ua != "" && Contains(Lower(ua), "mobile")
    ensures r == Tablet <==> ua != "" && !Contains(Lower(ua), "mobile") && Contains(Lower(ua), "tablet")
  {
    if ua == "" then Unknown
    else if Contains(Lower(ua), "mobile") then Mobile
    else if Contains(Lower(ua), "tablet") then Tablet
    else Desktop
  }

  /** An agent that names both is a phone. */
  lemma MobileBeforeTablet(ua: string)
    requires Contains(Lower(ua), "mobile") && Contains(Lower(ua), "tablet")
    ensures DeviceType(ua) == Mobile
  {
  }

  const NoBrowser := "null"

  /** `get_browser_from_user_agent`: the first of Chrome (without "edg"), Firefox, Safari (without
      "chrome"), Edge, Opera whose marker occurs, or `'null'`. */
  function Browser(ua: string): (r: string)
    ensures r in {"Chrome", "Firefox", "Safari", "Edge", "Opera", NoBrowser}
    ensures ua == "" ==> r == NoBrowser
    ensures r == "Chrome" <==> ua != "" && Contains(Lower(ua), "chrome") && !Contains(Lower(ua), "edg")
  {
    if ua == "" then NoBrowser
    else
      var s := Lower(ua);
      if Contains(s, "chrome") && !Contains(s, "edg") then "Chrome"
      else if Contains(s, "firefox") then "Firefox"
      else if Contains(s, "safari") && !Contains(s, "chrome") then "Safari"
      else if Contains(s, "edg") then "Edge"
      else if Contains(s, "opera") then "Opera"
      else NoBrowser
  }

  /** An agent naming Chrome and Edge (as Edge's own agent string does) is Edge, unless it also
      names Firefox, which is tested first. */
  lemma ChromeAndEdgIsEdge(ua: string)
    requires Contains(Lower(ua), "chrome") && Contains(Lower(ua), "edg") && !Contains(Lower(ua), "firefox")
    ensures Browser(ua) == "Edge"
  {
  }

  /** An agent naming Chrome but not Edge is Chrome whatever else it names, Opera included. */
  lemma ChromeShadowsOthers(ua: string)
    requires Contains(Lower(ua), "chrome") && !Contains(Lower(ua), "edg")
    ensures Browser(ua) == "Chrome"
  {
  }

  /** The string `create_visitor_hash` digests: `f"{ip_address}-{user_agent}-{referrer}"`. */
  function HashInput(ip: string, agent: string, ref: string): (r: string)
    ensures |r| == |ip| + |agent| + |ref| + 2
    ensures r[|ip|] == '-' && r[|ip| + |agent| + 1] == '-'
  {
    ip + "-" + agent + "-" + ref
  }

  /** The input is ambiguous: a `-` can move between two parts, so two different visitors can get
      the same digest. */
  lemma {:induction false} HashInputAmbiguous(a: string, b: string, c: string, ref: string)
    ensures HashInput(a + "-" + b, c, ref) == HashInput(a, b + "-" + c, ref)
  {
    calc {
      HashInput(a + "-" + b, c, ref);
      (a + "-" + b) + "-" + c + "-" + ref;
      { assert (a + "-" + b) + "-" + c == a + "-" + (b + "-" + c); }
      a + "-" + (b + "-" + c) + "-" + ref;
      HashInput(a, b + "-" + c, ref);
    }
  }

  // ---------------------------------------------------------------------------
  // record_visit
  // ---------------------------------------------------------------------------

  /** A stored visitor; every column but the key may be null. */
  datatype Visitor = Visitor(
    ip: Option<string>, agent: Option<string>, country: Option<string>,
    browser: Option<string>, device: Option<string>, lastVisit: Option<int>)

  /** A stored visit; `time` is `visit_time` in seconds. */
  datatype Visit = Visit(visitor: string, pageUrl: string, pageTitle: string, referrer: string, time: int)

  /** The dictionary `record_visit` returns, without the visitor object itself. */
  datatype VisitRecord = VisitRecord(key: string, isNewVisitor: bool, isNewVisit: bool)

  const Day := 86400

  /** `if not field`: null or empty. */
  predicate Blank(o: Option<string>) {
    o.None? || o.value == ""
  }

  /** A backfill step: a blank field takes the fresh value, any other field stays. */
  predicate Filled(before: Option<string>, after: Option<string>, value: string) {
    (Blank(before) ==> after == Some(value)) && (!Blank(before) ==> after == before)
  }

  function Agent(req: Request): string { GetOr(req.meta, "HTTP_USER_AGENT", "") }
  function Referrer(req: Request): string { CleanReferrer(GetOr(req.meta, "HTTP_REFERER", "")) }

  /** The cookie's key when it is set and non-empty, otherwise the digest of the request. */
  function VisitorKey(req: Request, sha: string -> string): (r: string)
    ensures GetOr(req.cookies, "visitor_hash", "") != "" ==> r == req.cookies["visitor_hash"]
    ensures GetOr(req.cookies, "visitor_hash", "") == "" ==> r == sha(HashInput(ClientIp(req), Agent(req), Referrer(req)))
  {
    var cookie := GetOr(req.cookies, "visitor_hash", "");
    if cookie != "" then cookie else sha(HashInput(ClientIp(req), Agent(req), Referrer(req)))
  }

  /** The `defaults` of `get_or_create`. */
  function Defaults(req: Request, country: string -> string): Visitor {
    var ip := ClientIp(req);
    Visitor(Some(ip), Some(Agent(req)), Some(country(ip)), Some(Browser(Agent(req))), Some(DeviceType(Agent(req))), None)
  }

  /** `is_new_visit`: no visit of this visitor at or after 24 hours before `now`. */
  predicate HasRecentVisit(visits: seq<Visit>, key: string, now: int) {
    exists i :: 0 <= i < |visits| && visits[i].visitor == key && visits[i].time >= now - Day
  }

  /** The invariant the 24-hour rule keeps: two visits of one visitor lie more than a day apart. */
  predicate OncePerDay(visits: seq<Visit>) {
    forall i, j :: 0 <= i < j < |visits| && visits[i].visitor == visits[j].visitor ==>
      visits[j].time > visits[i].time + Day
  }

  /** Recording a visit where none was recent keeps the visits a day apart. */
  lemma NewVisitKeepsSpacing(visits: seq<Visit>, v: Visit, now: int)
    requires OncePerDay(visits) && !HasRecentVisit(visits, v.visitor, now) && v.time == now
    ensures OncePerDay(visits + [v])
  {
    var w := visits + [v];
    forall i, j | 0 <= i < j < |w| && w[i].visitor == w[j].visitor
      ensures w[j].time > w[i].time + Day
    {
      if j == |visits| {
        assert w[i] == visits[i];
        assert !(visits[i].visitor == v.visitor && visits[i].time >= now - Day);
      } else {
        assert w[i] == visits[i] && w[j] == visits[j];
      }
    }
  }

  /** A visit stays recent for a day: the same visitor gets no second visit before it is more than
      24 hours old. */
  lemma RecentWithinDay(visits: seq<Visit>, v: Visit, now: int)
    requires v.time <= now <= v.time + Day
    ensures HasRecentVisit(visits + [v], v.visitor, now)
  {
    assert (visits + [v])[|visits|] == v;
  }

  /** The visitor after the update step: `last_visit` is now, blank address, agent, country and
      browser are filled in, `device_type` is never touched. */
  predicate Backfilled(before: Visitor, after: Visitor, ip: string, agent: string, countryName: string, browser: string, now: int) {
    && Filled(before.ip, after.ip, ip)
    && Filled(before.agent, after.agent, agent)
    && Filled(before.country, after.country, countryName)
    && Filled(before.browser, after.browser, browser)
    && after.device == before.device
    && after.lastVisit == Some(now)
  }

  /** The `if not visitor.<field>:` assignments of `record_visit`. */
  method Backfill(visitor: Visitor, ip: string, agent: string, countryName: string, browser: string, now: int)
    returns (after: Visitor)
    ensures Backfilled(visitor, after, ip, agent, countryName, browser, now)
  {
    after := visitor.(lastVisit := Some(now));
    if Blank(after.ip) {
      after := after.(ip := Some(ip));
    }
    if Blank(after.agent) {
      after := after.(agent := Some(agent));
    }
    if Blank(after.country) {
      after := after.(country := Some(countryName));
    }
    if Blank(after.browser) {
      after := after.(browser := Some(browser));
    }
  }

  // ---------------------------------------------------------------------------
  // The `key` column is a `UUIDField`
  // ---------------------------------------------------------------------------

  predicate IsHexDigit(c: char) {
    IsDigit(c) || 'a' <= c <= 'f' || 'A' <= c <= 'F'
  }

  /** A UUID as its 32 lower-case hex digits. */
  predicate IsUuidHex(u: string) {
    |u| == 32 && forall i :: 0 <= i < |u| ==> IsDigit(u[i]) || 'a' <= u[i] <= 'f'
  }

  /** A SHA-256 `hexdigest()`: 64 hex digits. */
  predicate IsHexDigest(d: string) {
    |d| == 64 && forall i :: 0 <= i < |d| ==> IsHexDigit(d[i])
  }

  /** `s.replace(pat, '')`: the occurrences of `pat` are removed left to right, without overlap. */
  function RemoveAll(s: string, pat: string): (r: string)
    requires pat != ""
    ensures |r| <= |s|
    decreases |s|
  {
    if |s| < |pat| then s
    else if s[..|pat|] == pat then RemoveAll(s[|pat|..], pat)
    else [s[0]] + RemoveAll(s[1..], pat)
  }

  /** A text that lacks the last character of `pat` holds no occurrence to remove. */
  lemma {:induction false} RemoveAllAbsent(s: string, pat: string)
    requires pat != "" && pat[|pat| - 1] !in s
    ensures RemoveAll(s, pat) == s
    decreases |s|
  {
    if |s| >= |pat| {
      assert s[..|pat|][|pat| - 1] == s[|pat| - 1];
      assert s[..|pat|] != pat;
      assert forall c :: c in s[1..] ==> c in s;
      RemoveAllAbsent(s[1..], pat);
      assert [s[0]] + s[1..] == s;
    }
  }

  predicate IsBrace(c: char) { c == '{' || c == '}' }

  function StripBracesLeft(s: string): string {
    if |s| > 0 && IsBrace(s[0]) then StripBracesLeft(s[1..]) else s
  }

  function StripBracesRight(s: string): string {
    if |s| > 0 && IsBrace(s[|s| - 1]) then StripBracesRight(s[..|s| - 1]) else s
  }

  /** `s.strip('{}')` */
  function StripBraces(s: string): string {
    StripBracesRight(StripBracesLeft(s))
  }

  /** `s.replace('-', '')` */
  function DropDashes(s: string): (r: string)
    ensures '-' !in r
    ensures forall c :: c in r ==> c in s
  {
    if s == [] then []
    else if s[0] == '-' then DropDashes(s[1..])
    else [s[0]] + DropDashes(s[1..])
  }

  lemma {:induction false} DropDashesAppend(a: string, b: string)
    ensures DropDashes(a + b) == DropDashes(a) + DropDashes(b)
    decreases |a|
  {
    if a == [] {
      assert a + b == b;
    } else {
      assert (a + b)[1..] == a[1..] + b;
      DropDashesAppend(a[1..], b);
    }
  }

  lemma DropDashesJoin(x: string, y: string)
    ensures DropDashes(x + "-" + y) == DropDashes(x) + DropDashes(y)
  {
    DropDashesAppend(x + "-", y);
    DropDashesAppend(x, "-");
  }

  lemma {:induction false} DropDashesAbsent(s: string)
    requires '-' !in s
    ensures DropDashes(s) == s
    decreases |s|
  {
    if s != [] {
      assert forall c :: c in s[1..] ==> c in s;
      DropDashesAbsent(s[1..]);
      assert [s[0]] + s[1..] == s;
    }
  }

  /** The text `uuid.UUID(hex=s)` reads: the `urn:` and `uuid:` prefixes, the outer braces and
      every `-` are removed. */
  function HexBody(s: string): string {
    DropDashes(StripBraces(RemoveAll(RemoveAll(s, "urn:"), "uuid:")))
  }

  /** `UUIDField.to_python` on a text: the UUID (as its lower-case hex digits) that
      `uuid.UUID(hex=s)` builds, or `None` where it raises `ValueError`, which Django turns into a
      `ValidationError`. The hex body must have exactly 32 characters. */
  function UuidOfText(s: string): (r: Option<string>)
    ensures r.Some? ==> IsUuidHex(r.value)
    ensures |HexBody(s)| != 32 ==> r == None
  {
    var h := HexBody(s);
    if |h| == 32 && forall i :: 0 <= i < 32 ==> IsHexDigit(h[i]) then
      assert forall i :: 0 <= i < 32 ==> IsDigit(Lower(h)[i]) || 'a' <= Lower(h)[i] <= 'f';
      Some(Lower(h))
    else None
  }

  /** A text free of `:` and braces is read with its dashes dropped. */
  lemma HexBodyOfDashed(s: string)
    requires ':' !in s && '{' !in s && '}' !in s
    ensures HexBody(s) == DropDashes(s)
  {
    RemoveAllAbsent(s, "urn:");
    RemoveAllAbsent(s, "uuid:");
  }

  /** A text free of `:`, braces and dashes is read as it stands. */
  lemma HexBodyPlain(s: string)
    requires ':' !in s && '{' !in s && '}' !in s && '-' !in s
    ensures HexBody(s) == s
  {
    HexBodyOfDashed(s);
    DropDashesAbsent(s);
  }

  /** A SHA-256 hex digest is not a UUID: its 64 digits give 64 after the rewriting, not 32. */
  lemma DigestIsNotUuid(d: string)
    requires IsHexDigest(d)
    ensures UuidOfText(d) == None
  {
    assert forall c :: c in d ==> IsHexDigit(c);
    HexBodyPlain(d);
  }

  /** `str(uuid)`: the 8-4-4-4-12 hyphenated form. */
  function UuidString(u: string): (r: string)
    requires IsUuidHex(u)
    ensures |r| == 36
  {
    u[..8] + "-" + u[8..12] + "-" + u[12..16] + "-" + u[16..20] + "-" + u[20..]
  }

  /** A slice of a UUID's digits holds no dash, colon or brace. */
  lemma UuidPiece(u: string, i: nat, j: nat)
    requires IsUuidHex(u) && i <= j <= 32
    ensures DropDashes(u[i..j]) == u[i..j]
    ensures ':' !in u[i..j] && '{' !in u[i..j] && '}' !in u[i..j]
  {
    assert forall c :: c in u[i..j] ==> IsDigit(c) || 'a' <= c <= 'f';
    DropDashesAbsent(u[i..j]);
  }

  /** The lower-case hex digits of a UUID are unchanged by `lower()`. */
  lemma LowerUuid(u: string)
    requires IsUuidHex(u)
    ensures Lower(u) == u
  {
    assert forall i :: 0 <= i < |u| ==> ToLower(u[i]) == u[i];
  }

  /** The `visitor_key` a response hands out reads back as the same UUID: a client that echoes it
      in the `visitor_hash` cookie finds the same visitor. */
  lemma UuidRoundTrip(u: string)
    requires IsUuidHex(u)
    ensures UuidOfText(UuidString(u)) == Some(u)
  {
    var p0, p1, p2, p3, p4 := u[..8], u[8..12], u[12..16], u[16..20], u[20..];
    UuidPiece(u, 0, 8);
    UuidPiece(u, 8, 12);
    UuidPiece(u, 12, 16);
    UuidPiece(u, 16, 20);
    UuidPiece(u, 20, 32);
    assert u[0..8] == p0 && u[20..32] == p4;
    var a := p0 + "-" + p1;
    var b := a + "-" + p2;
    var c := b + "-" + p3;
    var t := c + "-" + p4;
    assert t == UuidString(u);
    DropDashesJoin(p0, p1);
    DropDashesJoin(a, p2);
    DropDashesJoin(b, p3);
    DropDashesJoin(c, p4);
    assert DropDashes(t) == p0 + p1 + p2 + p3 + p4;
    assert p0 + p1 + p2 + p3 + p4 == u;
    assert ':' !in t && '{' !in t && '}' !in t;
    HexBodyOfDashed(t);
    LowerUuid(u);
  }

  /** A request without a `visitor_hash` cookie has its digest as key, which is not a UUID: the
      `UUIDField` lookup of `get_or_create` raises. */
  lemma CookieLessRequestRaises(req: Request, sha: string -> string)
    requires GetOr(req.cookies, "visitor_hash", "") == ""
    requires IsHexDigest(sha(HashInput(ClientIp(req), Agent(req), Referrer(req))))
    ensures UuidOfText(VisitorKey(req, sha)) == None
  {
    DigestIsNotUuid(VisitorKey(req, sha));
  }

  /** What `record_visit` does once the visitor's key is known: the visitor is created with the
      defaults when the key is new, backfilled either way, and one visit is appended unless the
      visitor had one in the last 24 hours. `v0`/`vs0` are the tables before, `v1`/`vs1` after. */
  predicate RecordedUnder(key: string, req: Request, page: string, now: int, country: string -> string,
    v0: map<string, Visitor>, vs0: seq<Visit>, v1: map<string, Visitor>, vs1: seq<Visit>, r: VisitRecord)
  {
    && r.key == key
    && (r.isNewVisitor <==> key !in v0)
    && v1.Keys == v0.Keys + {key}
    && (forall k :: k in v0 && k != key ==> v1[k] == v0[k])
    && Backfilled(if r.isNewVisitor then Defaults(req, country) else v0[key], v1[key],
      ClientIp(req), Agent(req), country(ClientIp(req)), Browser(Agent(req)), now)
    && (r.isNewVisit <==> !HasRecentVisit(vs0, key, now))
    && vs1 == vs0 + if r.isNewVisit then [Visit(key, page, GetOr(req.query, "page_title", ""), Referrer(req), now)] else []
  }

  /** The answer of `record_visit` as written: the record and the `visitor_key` text, or the
      `ValidationError` of the key lookup. */
  datatype Tracked = Tracked(record: VisitRecord, visitorKey: string) | LookupRaised

  /** The stored visitors and visits. */
  class VisitorStore {
    var visitors: map<string, Visitor>
    var visits: seq<Visit>

    constructor()
      ensures visitors == map[] && visits == []
    {
      visitors := map[];
      visits := [];
    }

    /** The body of `record_visit` from `get_or_create` on, for a key the lookup accepts. */
    method RecordUnder(key: string, req: Request, page: string, now: int, country: string -> string)
      returns (r: VisitRecord)
      modifies this
      ensures RecordedUnder(key, req, page, now, country, old(visitors), old(visits), visitors, visits, r)
      ensures OncePerDay(old(visits)) ==> OncePerDay(visits)
    {
      var ip := ClientIp(req);
      var agent := Agent(req);
      var ref := Referrer(req);
      var created := key !in visitors;
      var visitor := if created then Defaults(req, country) else visitors[key];
      visitor := Backfill(visitor, ip, agent, country(ip), Browser(agent), now);
      var isNew := !HasRecentVisit(visits, key, now);
      if isNew {
        var v := Visit(key, page, GetOr(req.query, "page_title", ""), ref, now);
        if OncePerDay(visits) {
          NewVisitKeepsSpacing(visits, v, now);
        }
        visits := visits + [v];
      }
      visitors := visitors[key := visitor];
      r := VisitRecord(key, created, isNew);
    }

    /** `record_visit` as written. The key (the cookie, or else the digest) goes through the
        `UUIDField` conversion before any row is read. When the conversion refuses it, the call
        raises and nothing is written; this is every cookie-less request. Otherwise the visit
        is recorded under the UUID. `visitor_key` is `str(visitor.key)`: for a visitor that
        `get_or_create` has just built, `Model.__init__` keeps the key text as it was given;
        for a stored visitor it is the UUID read back, in its hyphenated form. Either way it
        converts back to the same UUID. `sha` is SHA-256
        as a hex string, `country` the IP-to-country lookup and `now` the current time in seconds. */
    method RecordVisitAsWritten(req: Request, page: string, now: int, sha: string -> string, country: string -> string)
      returns (r: Tracked)
      modifies this
      ensures UuidOfText(VisitorKey(req, sha)).None? ==>
        r == LookupRaised && visitors == old(visitors) && visits == old(visits)
      ensures UuidOfText(VisitorKey(req, sha)).Some? ==> (
        var u := UuidOfText(VisitorKey(req, sha)).value;
        && r.Tracked?
        && r.visitorKey == (if r.record.isNewVisitor then VisitorKey(req, sha) else UuidString(u))
        && UuidOfText(r.visitorKey) == Some(u)
        && RecordedUnder(u, req, page, now, country, old(visitors), old(visits), visitors, visits, r.record))
      ensures OncePerDay(old(visits)) ==> OncePerDay(visits)
    {
      var key := GetOr(req.cookies, "visitor_hash", "");
      if key == "" {
        key := sha(HashInput(ClientIp(req), Agent(req), Referrer(req)));
      }
      var u := UuidOfText(key);
      if u.None? {
        return LookupRaised;
      }
      var rec := RecordUnder(u.value, req, page, now, country);
      UuidRoundTrip(u.value);
      r := Tracked(rec, if rec.isNewVisitor then key else UuidString(u.value));
    }

    /** `record_visit` with a `key` column that holds the visitor key as it stands, the digest
        included; every request is recorded under `VisitorKey`. */
    method RecordVisit(req: Request, page: string, now: int, sha: string -> string, country: string -> string)
      returns (r: VisitRecord)
      modifies this
      ensures RecordedUnder(VisitorKey(req, sha), req, page, now, country, old(visitors), old(visits), visitors, visits, r)
      ensures OncePerDay(old(visits)) ==> OncePerDay(visits)
    {
      var key := GetOr(req.cookies, "visitor_hash", "");
      if key == "" {
        key := sha(HashInput(ClientIp(req), Agent(req), Referrer(req)));
      }
      r := RecordUnder(key, req, page, now, country);
    }
  }

  /** A second request of the same visitor within the day records no visit; once a day has passed
      it does again. */
  lemma SecondRequestWithinDay(visits: seq<Visit>, key: string, t1: int, t2: int, v: Visit)
    requires v.visitor == key && v.time == t1
    ensures t1 <= t2 <= t1 + Day ==> HasRecentVisit(visits + [v], key, t2)
    ensures t2 > t1 + Day && !HasRecentVisit(visits, key, t2) ==> !HasRecentVisit(visits + [v], key, t2)
  {
    if t1 <= t2 <= t1 + Day {
      RecentWithinDay(visits, v, t2);
    }
    if t2 > t1 + Day && !HasRecentVisit(visits, key, t2) {
      forall i | 0 <= i < |visits + [v]| && (visits + [v])[i].visitor == key
        ensures (visits + [v])[i].time < t2 - Day
      {
        if i < |visits| {
          assert (visits + [v])[i] == visits[i];
        }
      }
    }
  }
}
