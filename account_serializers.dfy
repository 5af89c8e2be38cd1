/** The admin user serializer (validator wiring, password confirmation, permission collection,
    `create` and `update`) and the login serializer's decision chain. */
module AccountSerializers {
  import opened Text
  import opened Values
  import opened Checks
  import opened Validator
  import opened RuleTables

  /** `to_internal_value`: the user table, `is_update` from the presence of an instance, and that
      instance excluded from `unique`. */
  function ToInternalValue(instance: Option<nat>, data: map<string, Value>, env: Env): (r: Outcome)
    ensures r.Ok? ==> r.cleaned.Keys == data.Keys
    ensures r.Ok? && instance.None? ==> RequiredFields(UserRules) <= data.Keys
    ensures r.Ok? && "username" in data && !HasSize(data["username"]) ==>
      !Clash(env.(instance := instance), "username", r.cleaned["username"])
      && 3 <= TextLength(r.cleaned["username"]) <= 20
  {
    var e := env.(instance := instance);
    var r := ValidateSpec(data, RenderTable(UserRules), instance.Some?, e);
    UserTable();
    if r.Ok? then
      ValidatorLaws.OkIsSanitisedInput(data, RenderTable(UserRules), instance.Some?, e);
      OkUserUsername(data, instance.Some?, e);
      if instance.None? then OkHasRequired(data, UserRules, e); r else r
    else r
  }

  /** An update that sends the user's own unchanged username back is not refused as taken,
      whatever other users the table holds; on create the same name is taken. */
  lemma OwnUsernameNotTaken(row: Row, v: Value, env: Env)
    requires OwnValue(env.store, "username", v, row)
    ensures !Clash(env.(instance := Some(row.pk)), "username", v)
    ensures Clash(env.(instance := None), "username", v)
  {
    UniqueOwnRow("username", v, row, env);
  }

  // ---------------------------------------------------------------------------
  // validate
  // ---------------------------------------------------------------------------

  datatype Confirmation = Confirmed | Mismatch(field: string)

  /** `validate`: when either password field is sent, `data.get` of both must agree. */
  function CheckPasswords(data: map<string, Value>): (r: Confirmation)
    ensures r.Mismatch? ==> r.field == "confirm_password"
    ensures "password" !in data && "confirm_password" !in data ==> r == Confirmed
    ensures "password" in data && "confirm_password" in data ==>
      (r == Confirmed <==> data["password"] == data["confirm_password"])
    ensures "password" in data && "confirm_password" !in data ==> (r == Confirmed <==> data["password"] == Null)
    ensures "password" !in data && "confirm_password" in data ==> (r == Confirmed <==> data["confirm_password"] == Null)
  {
    if ("password" in data || "confirm_password" in data) && Get(data, "password") != Get(data, "confirm_password")
    then Mismatch("confirm_password")
    else Confirmed
  }

  // ---------------------------------------------------------------------------
  // Permissions
  // ---------------------------------------------------------------------------

  /** A group and the codenames of its permissions. */
  datatype Group = Group(id: nat, permissions: set<string>)

  /** Every permission of some group of the list. */
  function GroupPermissions(groups: seq<Group>): set<string> {
    set i, p | 0 <= i < |groups| && p in groups[i].permissions :: p
  }

  /** `for group in groups: all_permissions.update(group.permissions.all())` */
  method CollectPermissions(groups: seq<Group>) returns (all: set<string>)
    ensures all == GroupPermissions(groups)
  {
    all := {};
    var i := 0;
    while i < |groups|
      invariant 0 <= i <= |groups|
      invariant all == GroupPermissions(groups[..i])
    {
      assert forall k :: 0 <= k <= i ==> groups[..i + 1][k] == groups[k];
      all := all + groups[i].permissions;
      i := i + 1;
      assert GroupPermissions(groups[..i]) == GroupPermissions(groups[..i - 1]) + groups[i - 1].permissions by {
        forall p | p in GroupPermissions(groups[..i])
          ensures p in GroupPermissions(groups[..i - 1]) + groups[i - 1].permissions
        {
          var k :| 0 <= k < i && p in groups[..i][k].permissions;
          if k < i - 1 {
            assert groups[..i - 1][k] == groups[k];
          }
        }
        forall p | p in GroupPermissions(groups[..i - 1])
          ensures p in GroupPermissions(groups[..i])
        {
          var k :| 0 <= k < i - 1 && p in groups[..i - 1][k].permissions;
          assert groups[..i][k] == groups[k];
        }
        assert groups[..i][i - 1] == groups[i - 1];
      }
    }
    assert groups[..|groups|] == groups;
  }

  /** A codename is collected exactly when some group of the list holds it. */
  lemma CollectedPermission(groups: seq<Group>, p: string)
    ensures p in GroupPermissions(groups) <==> exists i :: 0 <= i < |groups| && p in groups[i].permissions
  {
    if exists i :: 0 <= i < |groups| && p in groups[i].permissions {
      var i :| 0 <= i < |groups| && p in groups[i].permissions;
      assert p in GroupPermissions(groups);
    }
  }

  /** A user as the serializers see it: its plain attributes, its groups and its direct
      permissions. */
  class AdminUser {
    var attrs: map<string, Value>
    var groups: seq<Group>
    var permissions: set<string>

    constructor(attrs: map<string, Value>)
      ensures this.attrs == attrs && groups == [] && permissions == {}
    {
      this.attrs := attrs;
      groups := [];
      permissions := {};
    }

    /** `get_permissions`: the codenames of the user's groups' permissions and of its direct
        permissions, each once. */
    method GetPermissions() returns (r: set<string>)
      ensures r == GroupPermissions(groups) + permissions
    {
      r := CollectPermissions(groups);
      r := r + permissions;
    }

    /** `update`: the two password fields are discarded and every other attribute is assigned.
        When groups are sent they replace the user's groups and its direct permissions become
        exactly the groups' permissions; otherwise both stay as they were. */
    method Update(validated: map<string, Value>, groupsData: Option<seq<Group>>)
      modifies this
      ensures attrs == old(attrs) + (validated - {"password", "confirm_password"})
      ensures groupsData.Some? ==> groups == groupsData.value && permissions == GroupPermissions(groupsData.value)
      ensures groupsData.None? ==> groups == old(groups) && permissions == old(permissions)
    {
      var data := validated - {"password", "confirm_password"};
      var todo := data.Keys;
      while todo != {}
        invariant todo <= data.Keys
        invariant attrs == old(attrs) + map k | k in data.Keys - todo :: data[k]
        invariant groups == old(groups) && permissions == old(permissions)
        decreases todo
      {
        var k :| k in todo;
        attrs := attrs[k := data[k]];
        todo := todo - {k};
      }
      assert data.Keys - todo == data.Keys;
      assert (map k | k in data.Keys :: data[k]) == data;
      if groupsData.Some? {
        groups := groupsData.value;
        var all := CollectPermissions(groupsData.value);
        permissions := all;
      }
    }
  }

  /** The keys `create_user` reads with `validated_data[...]`; a missing one raises `KeyError`. */
  predicate HasCreateKeys(validated: map<string, Value>) {
    "username" in validated && "email" in validated && "phone" in validated && "password" in validated
  }

  /** `BaseUserManager.normalize_email`: a falsy address becomes `""`; otherwise the stripped text
      is split at its last `@` and the domain part is lower-cased. Text without `@` is kept as
      sent, unstripped. A truthy value that is not text has no `strip()` and raises (`None`). */
  function NormalizeEmail(v: Value): (r: Option<Value>)
    ensures !Truthy(v) ==> r == Some(Str(""))
    ensures r.None? <==> Truthy(v) && !v.Str?
    ensures v.Str? && '@' !in Strip(v.s) ==> r == Some(v)
    ensures r.Some? ==> r.value.Str?
  {
    if !Truthy(v) then Some(Str(""))
    else if !v.Str? then None
    else
      var s := Strip(v.s);
      var i := LastIndex(s, '@');
      if i < 0 then Some(v) else Some(Str(s[..i] + "@" + Lower(s[i + 1..])))
  }

  /** `s.rfind(c)` is the position of a `c` with no `c` after it. */
  lemma {:induction false} LastIndexAt(s: string, c: char, i: nat)
    requires i < |s| && s[i] == c && forall k :: i < k < |s| ==> s[k] != c
    ensures LastIndex(s, c) == i
    decreases |s|
  {
    if s[|s| - 1] != c {
      LastIndexAt(s[..|s| - 1], c, i);
    }
  }

  lemma LowerTwice(s: string)
    ensures Lower(Lower(s)) == Lower(s)
  {
  }

  /** Lower-casing neither makes nor removes whitespace or an `@`. */
  lemma ToLowerKeeps(c: char)
    ensures IsSpace(ToLower(c)) <==> IsSpace(c)
    ensures ToLower(c) == '@' <==> c == '@'
  {
  }

  /** The text `normalize_email` builds from a stripped address with an `@` at `i`, its last. */
  lemma NormalText(s: string, i: nat)
    requires IsStripped(s) && i < |s| && LastIndex(s, '@') == i
    ensures var t := s[..i] + "@" + Lower(s[i + 1..]);
      && IsStripped(t) && LastIndex(t, '@') == i && t[..i] == s[..i] && t[i + 1..] == Lower(s[i + 1..])
  {
    var d := Lower(s[i + 1..]);
    var t := s[..i] + "@" + d;
    assert |t| == |s|;
    forall k | i < k < |t|
      ensures t[k] != '@'
    {
      assert t[k] == d[k - i - 1] == ToLower(s[k]);
      ToLowerKeeps(s[k]);
    }
    if i > 0 {
      assert t[0] == s[0];
    }
    if i + 1 < |s| {
      assert t[|t| - 1] == ToLower(s[|s| - 1]);
      ToLowerKeeps(s[|s| - 1]);
    }
    LastIndexAt(t, '@', i);
    assert t[..i] == s[..i] && t[i + 1..] == d;
  }

  /** `normalize_email` on text whose stripped form has its last `@` at `i`. */
  lemma NormalizeEmailAt(v: Value, s: string, i: int)
    requires v.Str? && v.s != "" && s == Strip(v.s) && i == LastIndex(s, '@') && i >= 0
    ensures NormalizeEmail(v) == Some(Str(s[..i] + "@" + Lower(s[i + 1..])))
  {
  }

  /** Normalising an address that is already normal changes nothing. */
  lemma NormalizeEmailTwice(v: Value)
    requires NormalizeEmail(v).Some?
    ensures NormalizeEmail(NormalizeEmail(v).value) == NormalizeEmail(v)
  {
    if Truthy(v) && LastIndex(Strip(v.s), '@') >= 0 {
      var s := Strip(v.s);
      StripIsStripped(v.s);
      var i := LastIndex(s, '@');
      var t := s[..i] + "@" + Lower(s[i + 1..]);
      NormalizeEmailAt(v, s, i);
      NormalText(s, i);
      StrippedIsFixed(t);
      LowerTwice(s[i + 1..]);
      assert t[i] == '@';
      NormalizeEmailAt(Str(t), t, i);
    }
  }

  /** The attributes `create` passes to `create_user`, with its defaults, as `create_user` stores
      them: the address normalised (`email`) and the password replaced by `make_password` of it
      (`hash`). */
  function CreateAttrs(validated: map<string, Value>, email: Value, hash: Value -> Value): (r: map<string, Value>)
    requires HasCreateKeys(validated)
    ensures "password" in r && r["password"] == hash(validated["password"])
    ensures "email" in r && r["email"] == email
    ensures "is_superuser" in r && r["is_superuser"] == Bool(false)
    ensures forall k :: k in validated && k in r && k !in {"password", "email", "is_superuser"} ==> r[k] == validated[k]
  {
    map[
      "username" := validated["username"],
      "email" := email,
      "phone" := validated["phone"],
      "password" := hash(validated["password"]),
      "first_name" := if "first_name" in validated then validated["first_name"] else Str(""),
      "last_name" := if "last_name" in validated then validated["last_name"] else Str(""),
      "account_type" := if "account_type" in validated then validated["account_type"] else Str("admin"),
      "is_active" := if "is_active" in validated then validated["is_active"] else Bool(false),
      "is_staff" := if "is_staff" in validated then validated["is_staff"] else Bool(false),
      "is_superuser" := Bool(false),
      "avatar" := Get(validated, "avatar")]
  }

  /** `create`: `create_user` stores the normalised address and the hashed password (`hash` is
      `make_password`); it raises on a missing key, on a falsy username (`_create_user`'s
      `ValueError`, checked before the address is read) or on an address it cannot normalise. The new
      user starts without groups or permissions; a non-empty list of groups is assigned, and the
      user's direct permissions become exactly those groups' permissions. */
  method Create(validated: map<string, Value>, groupsData: Option<seq<Group>>, hash: Value -> Value)
    returns (r: Option<AdminUser>)
    ensures r.Some? <==> HasCreateKeys(validated) && Truthy(validated["username"]) && NormalizeEmail(validated["email"]).Some?
    ensures r.Some? ==> fresh(r.value) && r.value.attrs == CreateAttrs(validated, NormalizeEmail(validated["email"]).value, hash)
    ensures r.Some? ==> r.value.groups == (if groupsData.Some? then groupsData.value else [])
    ensures r.Some? ==> r.value.permissions == (if groupsData.Some? then GroupPermissions(groupsData.value) else {})
  {
    if !HasCreateKeys(validated) || !Truthy(validated["username"]) {
      return None;
    }
    var email := NormalizeEmail(validated["email"]);
    if email.None? {
      return None;
    }
    var user := new AdminUser(CreateAttrs(validated, email.value, hash));
    if groupsData.Some? && groupsData.value != [] {
      user.groups := groupsData.value;
      var all := CollectPermissions(groupsData.value);
      user.permissions := all;
    }
    assert groupsData.Some? && groupsData.value == [] ==> GroupPermissions(groupsData.value) == {};
    return Some(user);
  }

  // ---------------------------------------------------------------------------
  // Login
  // ---------------------------------------------------------------------------

  /** The account flags the login check reads. */
  datatype Account = Account(id: nat, isActive: bool, isBlocked: bool)

  datatype LoginResult = LoggedIn(user: Account) | LoginError(error: string)

  const InvalidCredentials := "Invalid phone number or password"
  const Deactivated := "Your account is deactivated"
  const Blocked := "Sorry, Your Account Blocked Contact Sepport"

  /** `CustomLoginUserSerializer.validate`; `authenticate` is Django's credential check. */
  function Login(phone: Value, password: Value, authenticate: (Value, Value) -> Option<Account>): (r: LoginResult)
    ensures r.LoggedIn? ==> authenticate(phone, password) == Some(r.user)
    ensures r.LoginError? ==> r.error in {InvalidCredentials, Deactivated, Blocked}
    ensures !Truthy(phone) || !Truthy(password) ==> r == LoginError(InvalidCredentials)
  {
    if Truthy(phone) && Truthy(password) then
      match authenticate(phone, password)
      case None => LoginError(InvalidCredentials)
      case Some(user) =>
        if !user.isActive then LoginError(Deactivated)
        else if user.isBlocked then LoginError(Blocked)
        else LoggedIn(user)
    else LoginError(InvalidCredentials)
  }

  /** A login succeeds exactly for sent credentials of an active, unblocked account, and then
      yields that account. */
  lemma LoginSucceeds(phone: Value, password: Value, authenticate: (Value, Value) -> Option<Account>)
    ensures Login(phone, password, authenticate).LoggedIn? <==>
      Truthy(phone) && Truthy(password) && authenticate(phone, password).Some?
      && authenticate(phone, password).value.isActive && !authenticate(phone, password).value.isBlocked
    ensures Login(phone, password, authenticate).LoggedIn? ==>
      Login(phone, password, authenticate).user == authenticate(phone, password).value
  {
  }

  /** The checks run in order: missing or wrong credentials, then deactivation, then blocking, so
      a deactivated account that is also blocked is reported as deactivated. `authenticate` is
      any backend. Django's default `ModelBackend` never returns an inactive user, so with it the
      deactivation answer cannot occur and such a user gets the credentials error; the
      deactivation branch needs a backend that returns inactive users, such as
      `AllowAllUsersModelBackend`. */
  lemma LoginOrder(phone: Value, password: Value, authenticate: (Value, Value) -> Option<Account>)
    ensures !(Truthy(phone) && Truthy(password)) ==> Login(phone, password, authenticate) == LoginError(InvalidCredentials)
    ensures Truthy(phone) && Truthy(password) && authenticate(phone, password).None? ==>
      Login(phone, password, authenticate) == LoginError(InvalidCredentials)
    ensures (Truthy(phone) && Truthy(password) && authenticate(phone, password).Some?
      && !authenticate(phone, password).value.isActive) ==>
      Login(phone, password, authenticate) == LoginError(Deactivated)
    ensures (Truthy(phone) && Truthy(password) && authenticate(phone, password).Some?
      && authenticate(phone, password).value.isActive && authenticate(phone, password).value.isBlocked) ==>
      Login(phone, password, authenticate) == LoginError(Blocked)
  {
  }
}
