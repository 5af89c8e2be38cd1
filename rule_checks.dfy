/** The single-rule checkers of the dynamic validator (`_check_required` and the `_validate_*`
    methods) and the per-field loop over a rule list. A checker either passes, fails with the
    messages of a `ValidationError`, or raises another exception, which escapes the validator. */
module Checks {
  import opened Text
  import opened Values

  /** Outcome of an external validator (Django's e-mail and URL validators). */
  datatype Verdict = Accepted | Rejected | Raised

  /** A stored row of the model the validator was built for: its primary key and field values. */
  datatype Row = Row(pk: nat, fields: map<string, Value>)

  /** What a validator instance can see: the external cleaner and validators, the rows of its model,
      and the primary key of the instance being updated, if any. */
  datatype Env = Env(
    bleach: string -> string,
    email: Value -> Verdict,
    url: Value -> Verdict,
    store: seq<Row>,
    instance: Option<nat>)

  datatype Check = Pass | Fail(msg: string) | Raise

  const RequiredOnUpdate := "This field is required."
  const RequiredOnCreate := "This field is required"

  /** `_check_required`. On update only a key that was sent is checked; on create a missing key
      counts as empty. */
  function CheckRequired(field: string, value: Value, rules: seq<string>, data: map<string, Value>,
                         isUpdate: bool): (r: Option<string>)
    ensures r.Some? <==> "required" in rules && IsEmpty(value) && (isUpdate ==> field in data)
    ensures r.Some? ==> r.value == (if isUpdate then RequiredOnUpdate else RequiredOnCreate)
  {
    if "required" in rules then
      if isUpdate then
        if field in data && IsEmpty(value) then Some(RequiredOnUpdate) else None
      else
        if IsEmpty(value) then Some(RequiredOnCreate) else None
    else None
  }

  /** `rule.split(":")[1]` */
  function ParamText(token: string): string {
    var parts := Split(token, ':');
    if |parts| >= 2 then parts[1] else ""
  }

  /** `_validate_max` with its argument parsed: files are measured in KiB, everything else by the
      length of `str(value)`. */
  function MaxCheck(value: Value, n: int): Check {
    if HasSize(value) then
      if value.size > n * 1024 then Fail("File size must not exceed " + IntToString(n) + " KB.") else Pass
    else if TextLength(value) > n then Fail("Value must not exceed " + IntToString(n) + " characters.")
    else Pass
  }

  /** `_validate_max`: an argument that is not an integer makes `int()` raise. */
  function ValidateMax(value: Value, token: string): (r: Check)
    ensures r == Raise <==> PyInt(ParamText(token)).None?
    ensures r == Pass <==> (PyInt(ParamText(token)).Some? &&
      var n := PyInt(ParamText(token)).value;
      if HasSize(value) then value.size <= n * 1024 else TextLength(value) <= n)
  {
    match PyInt(ParamText(token))
    case None => Raise
    case Some(n) => MaxCheck(value, n)
  }

  /** `_validate_min` with its argument parsed: the length of `str(value)`, for files too. */
  function MinCheck(value: Value, n: int): Check {
    if TextLength(value) < n then Fail("Value must be at least " + IntToString(n) + " characters.") else Pass
  }

  /** `_validate_min`: an argument that is not an integer makes `int()` raise. */
  function ValidateMin(value: Value, token: string): (r: Check)
    ensures r == Raise <==> PyInt(ParamText(token)).None?
    ensures r == Pass <==> PyInt(ParamText(token)).Some? && TextLength(value) >= PyInt(ParamText(token)).value
  {
    match PyInt(ParamText(token))
    case None => Raise
    case Some(n) => MinCheck(value, n)
  }

  /** `_validate_email`: Django's `EmailValidator`; its `ValidationError` becomes the message. */
  function ValidateEmail(value: Value, env: Env): (r: Check)
    ensures r == Pass <==> env.email(value) == Accepted
    ensures r == Raise <==> env.email(value) == Raised
    ensures r.Fail? ==> r.msg == "Enter a valid email address."
  {
    match env.email(value)
    case Accepted => Pass
    case Rejected => Fail("Enter a valid email address.")
    case Raised => Raise
  }

  /** `_validate_url`: Django's `URLValidator`; its `ValidationError` becomes the message. */
  function ValidateUrl(value: Value, env: Env): (r: Check)
    ensures r == Pass <==> env.url(value) == Accepted
    ensures r == Raise <==> env.url(value) == Raised
    ensures r.Fail? ==> r.msg == "Enter a valid URL."
  {
    match env.url(value)
    case Accepted => Pass
    case Rejected => Fail("Enter a valid URL.")
    case Raised => Raise
  }

  /** `_validate_file`: anything with a `size` attribute is a file. */
  function ValidateFile(value: Value): (r: Check)
    ensures r != Raise
    ensures r == Pass <==> HasSize(value)
  {
    if HasSize(value) then Pass else Fail("Must upload a valid file.")
  }

  /** `_validate_file_size` with its argument parsed: the argument is in MiB; a value without
      `size` raises `AttributeError`. */
  function SizeCheck(value: Value, n: int): Check {
    if !HasSize(value) then Raise
    else if value.size > n * 1024 * 1024 then Fail("File size must not exceed " + IntToString(n) + " MB.")
    else Pass
  }

  /** `_validate_file_size`: the argument is parsed first, so a malformed one raises even on a
      file. */
  function ValidateFileSize(value: Value, token: string): (r: Check)
    ensures r == Raise <==> PyInt(ParamText(token)).None? || !HasSize(value)
    ensures r == Pass <==> (PyInt(ParamText(token)).Some? && HasSize(value)
      && value.size <= PyInt(ParamText(token)).value * 1024 * 1024)
  {
    match PyInt(ParamText(token))
    case None => Raise
    case Some(n) => SizeCheck(value, n)
  }

  /** `os.path.splitext(name)[1][1:]`: the extension without its dot. */
  function ExtensionOf(name: string): string {
    var e := Extension(name);
    if e == "" then "" else e[1..]
  }

  /** `_validate_file_extensions` with its argument split: the lower-cased extension must be one
      of the names, compared verbatim. A value without `name` raises `AttributeError`. */
  function ExtensionsCheck(value: Value, allowed: seq<string>): Check {
    if !HasSize(value) then Raise
    else if Lower(ExtensionOf(value.name)) in allowed then Pass
    else Fail("File type not allowed. Allowed types: " + Join(allowed, ", "))
  }

  /** `_validate_file_extensions`: the argument is split on commas. */
  function ValidateFileExtensions(value: Value, token: string): (r: Check)
    ensures r == Raise <==> !HasSize(value)
    ensures r == Pass <==> HasSize(value) && Lower(ExtensionOf(value.name)) in Split(ParamText(token), ',')
  {
    ExtensionsCheck(value, Split(ParamText(token), ','))
  }

  /** Another stored row, other than the instance being updated, holds `value` in `field`. */
  predicate Clash(env: Env, field: string, value: Value) {
    exists i :: 0 <= i < |env.store| && field in env.store[i].fields && env.store[i].fields[field] == value
      && (env.instance.None? || env.store[i].pk != env.instance.value)
  }

  /** The message of a failed `unique` rule. */
  function UniqueMessage(field: string): string {
    "This " + field + " already exists."
  }

  /** `_validate_unique`: a lookup of the value in the field, with the instance excluded. */
  function ValidateUnique(field: string, value: Value, env: Env): (r: Check)
    ensures r != Raise
    ensures r == Pass <==> !Clash(env, field, value)
    ensures r.Fail? ==> r.msg == UniqueMessage(field)
  {
    if Clash(env, field, value) then Fail(UniqueMessage(field)) else Pass
  }

  /** One rule of a field's list, dispatched on its prefix in the order the validator tests them.
      `no_html` and `required` are handled elsewhere, and unknown rules are ignored. */
  function CheckToken(field: string, value: Value, token: string, env: Env): Check {
    if token == "no_html" || token == "required" then Pass
    else if StartsWith(token, "max:") then ValidateMax(value, token)
    else if StartsWith(token, "min:") then ValidateMin(value, token)
    else if token == "email" then ValidateEmail(value, env)
    else if token == "url" then ValidateUrl(value, env)
    else if token == "file" then ValidateFile(value)
    else if StartsWith(token, "size:") then ValidateFileSize(value, token)
    else if StartsWith(token, "extensions:") then ValidateFileExtensions(value, token)
    else if token == "unique" then ValidateUnique(field, value, env)
    else Pass
  }

  /** The messages one field collects, or `Crashed` when a rule raised something other than a
      validation error. */
  datatype FieldResult = Msgs(msgs: seq<string>) | Crashed

  function Prepend(pre: seq<string>, r: FieldResult): FieldResult {
    match r
    case Crashed => Crashed
    case Msgs(ms) => Msgs(pre + ms)
  }

  /** The rule loop of one field: every rule is checked in order, each failure adds its message. */
  function RuleMessages(field: string, value: Value, rules: seq<string>, env: Env): FieldResult
    decreases |rules|
  {
    if |rules| == 0 then Msgs([])
    else
      match CheckToken(field, value, rules[0], env)
      case Raise => Crashed
      case Pass => RuleMessages(field, value, rules[1..], env)
      case Fail(m) => Prepend([m], RuleMessages(field, value, rules[1..], env))
  }

  // ---------------------------------------------------------------------------
  // The rule loop
  // ---------------------------------------------------------------------------

  /** A field crashes exactly when one of its rules raises. */
  lemma {:induction false} RuleMessagesCrash(field: string, value: Value, rules: seq<string>, env: Env)
    ensures RuleMessages(field, value, rules, env).Crashed?
        <==> exists i :: 0 <= i < |rules| && CheckToken(field, value, rules[i], env).Raise?
    decreases |rules|
  {
    if |rules| > 0 {
      RuleMessagesCrash(field, value, rules[1..], env);
      if exists i :: 0 <= i < |rules[1..]| && CheckToken(field, value, rules[1..][i], env).Raise? {
        var i :| 0 <= i < |rules[1..]| && CheckToken(field, value, rules[1..][i], env).Raise?;
        assert rules[1..][i] == rules[i + 1];
      }
      if exists i :: 0 <= i < |rules| && CheckToken(field, value, rules[i], env).Raise? {
        var i :| 0 <= i < |rules| && CheckToken(field, value, rules[i], env).Raise?;
        if i > 0 {
          assert rules[1..][i - 1] == rules[i];
        }
      }
    }
  }

  /** A field collects no message exactly when every one of its rules passes. */
  lemma {:induction false} RuleMessagesClean(field: string, value: Value, rules: seq<string>, env: Env)
    ensures RuleMessages(field, value, rules, env) == Msgs([])
        <==> forall i :: 0 <= i < |rules| ==> CheckToken(field, value, rules[i], env).Pass?
    decreases |rules|
  {
    if |rules| > 0 {
      RuleMessagesClean(field, value, rules[1..], env);
      if forall i :: 0 <= i < |rules| ==> CheckToken(field, value, rules[i], env).Pass? {
        forall i | 0 <= i < |rules[1..]|
          ensures CheckToken(field, value, rules[1..][i], env).Pass?
        {
          assert rules[1..][i] == rules[i + 1];
        }
      }
      if RuleMessages(field, value, rules, env) == Msgs([]) {
        forall i | 0 <= i < |rules|
          ensures CheckToken(field, value, rules[i], env).Pass?
        {
          if i > 0 {
            assert rules[1..][i - 1] == rules[i];
          }
        }
      }
    }
  }

  /** Messages appear in the order of the rules that produced them: the messages of a split
      rule list are those of its front followed by those of its back. */
  lemma {:induction false} RuleMessagesAppend(field: string, value: Value, r1: seq<string>, r2: seq<string>, env: Env)
    ensures RuleMessages(field, value, r1 + r2, env) == Then(RuleMessages(field, value, r1, env), RuleMessages(field, value, r2, env))
    decreases |r1|
  {
    var back := RuleMessages(field, value, r2, env);
    if |r1| == 0 {
      assert r1 + r2 == r2;
      ThenNothing(back);
    } else {
      var c := CheckToken(field, value, r1[0], env);
      var front := RuleMessages(field, value, r1[1..], env);
      assert RuleMessages(field, value, r1 + r2, env) == Continue(c, Then(front, back)) by {
        assert (r1 + r2)[0] == r1[0];
        assert (r1 + r2)[1..] == r1[1..] + r2;
        RuleMessagesAppend(field, value, r1[1..], r2, env);
        RuleMessagesCons(field, value, r1 + r2, env);
      }
      assert RuleMessages(field, value, r1, env) == Continue(c, front) by {
        RuleMessagesCons(field, value, r1, env);
      }
      ContinueThen(c, front, back);
    }
  }

  lemma ThenNothing(back: FieldResult)
    ensures Then(Msgs([]), back) == back
  {
    if back.Msgs? {
      assert [] + back.msgs == back.msgs;
    }
  }

  /** What one checked rule does to the messages of the rules after it. */
  function Continue(c: Check, rest: FieldResult): FieldResult {
    match c
    case Raise => Crashed
    case Pass => rest
    case Fail(m) => Prepend([m], rest)
  }

  /** The messages of a front followed by those of a back, unless the front crashed. */
  function Then(front: FieldResult, back: FieldResult): FieldResult {
    match front
    case Crashed => Crashed
    case Msgs(ms) => Prepend(ms, back)
  }

  lemma RuleMessagesCons(field: string, value: Value, rules: seq<string>, env: Env)
    requires |rules| > 0
    ensures RuleMessages(field, value, rules, env)
      == Continue(CheckToken(field, value, rules[0], env), RuleMessages(field, value, rules[1..], env))
  {
  }

  /** Checking one more rule in front commutes with appending the back's messages. */
  lemma ContinueThen(c: Check, front: FieldResult, back: FieldResult)
    ensures Continue(c, Then(front, back)) == Then(Continue(c, front), back)
  {
    if c.Fail? && front.Msgs? && back.Msgs? {
      assert [c.msg] + (front.msgs + back.msgs) == ([c.msg] + front.msgs) + back.msgs;
    }
  }

  // ---------------------------------------------------------------------------
  // What each rule token means
  // ---------------------------------------------------------------------------

  /** The argument of `name:arg` is `arg` when neither part holds another colon. Here `prefix`
      is `name:`, colon included. */
  lemma ParamOfToken(prefix: string, arg: string)
    requires |prefix| >= 1 && prefix[|prefix| - 1] == ':' && ':' !in prefix[..|prefix| - 1]
    requires ':' !in arg
    ensures ParamText(prefix + arg) == arg
  {
    var name := prefix[..|prefix| - 1];
    assert prefix + arg == name + [':'] + arg;
    SplitAfterPrefix(name, ':', arg);
    SplitNoSeparator(arg, ':');
  }

  lemma ParamOfNumber(prefix: string, n: int)
    requires |prefix| >= 1 && prefix[|prefix| - 1] == ':' && ':' !in prefix[..|prefix| - 1]
    ensures PyInt(ParamText(prefix + IntToString(n))) == Some(n)
  {
    ParamOfToken(prefix, IntToString(n));
    PyIntOfIntToString(n);
  }

  /** The allowed list of `extensions:` + the comma-joined names is the list of names. */
  lemma AllowedOfToken(exts: seq<string>)
    requires |exts| >= 1
    requires forall k :: 0 <= k < |exts| ==> ':' !in exts[k] && ',' !in exts[k]
    ensures Split(ParamText("extensions:" + Join(exts, [','])), ',') == exts
  {
    JoinHasNo(exts, ',', ':');
    ExtensionsPrefix();
    ParamOfToken("extensions:", Join(exts, [',']));
    SplitJoin(exts, ',');
  }

  /** `extensions:` has its only colon at the end. */
  lemma ExtensionsPrefix()
    ensures |"extensions:"| >= 1 && "extensions:"[|"extensions:"| - 1] == ':'
    ensures ':' !in "extensions:"[..|"extensions:"| - 1]
  {
    var p := "extensions:";
    assert forall i :: 0 <= i < 10 ==> p[i] != ':';
    assert forall i :: 0 <= i < 10 ==> p[..10][i] == p[i];
  }

  /** Joining pieces free of `d` with a separator other than `d` gives a string free of `d`. */
  lemma {:induction false} JoinHasNo(parts: seq<string>, c: char, d: char)
    requires c != d
    requires forall k :: 0 <= k < |parts| ==> d !in parts[k]
    ensures d !in Join(parts, [c])
    decreases |parts|
  {
    if |parts| > 1 {
      JoinHasNo(parts[1..], c, d);
    }
  }

  /** `int()` rejects a string that does not start or end with whitespace and has a character
      other than a digit or an underscore after its first character. */
  lemma PyIntRejects(s: string, i: nat)
    requires 0 < i < |s| && !IsSpace(s[0]) && !IsSpace(s[|s| - 1])
    requires !IsDigit(s[i]) && s[i] != '_'
    ensures PyInt(s) == None
  {
    assert StripLeft(s) == s;
    assert StripRight(s) == s;
    var body := if s[0] == '-' || s[0] == '+' then s[1..] else s;
    if s[0] == '-' || s[0] == '+' {
      assert body[i - 1] == s[i];
    }
  }

  /** A malformed argument makes `max:` raise rather than fail. */
  lemma MaxMalformedRaises(value: Value, arg: string)
    requires ':' !in arg && PyInt(arg) == None
    ensures ValidateMax(value, "max:" + arg) == Raise
  {
    MaxPrefix();
    ParamOfToken("max:", arg);
    assert PyInt(ParamText("max:" + arg)) == None;
  }

  /** `max:` has its only colon at the end. */
  lemma MaxPrefix()
    ensures |"max:"| >= 1 && "max:"[|"max:"| - 1] == ':'
    ensures ':' !in "max:"[..|"max:"| - 1]
  {
    var p := "max:";
    assert p[..3] == ['m', 'a', 'x'];
  }

  // ---------------------------------------------------------------------------
  // Uniqueness and file names
  // ---------------------------------------------------------------------------

  /** Excluding the instance being updated can only remove clashes: whatever fails the
      uniqueness rule on update also fails it on create. */
  lemma UniqueExclusionWeakens(field: string, value: Value, env: Env)
    ensures ValidateUnique(field, value, env).Fail? ==> ValidateUnique(field, value, env.(instance := None)).Fail?
  {
    if Clash(env, field, value) {
      var i :| 0 <= i < |env.store| && field in env.store[i].fields && env.store[i].fields[field] == value
        && (env.instance.None? || env.store[i].pk != env.instance.value);
      assert Clash(env.(instance := None), field, value);
    }
  }

  /** `row` is stored, holds `value` in `field`, and every stored row holding that value shares
      its key: the value is the row's own. */
  predicate OwnValue(store: seq<Row>, field: string, value: Value, row: Row) {
    && row in store && field in row.fields && row.fields[field] == value
    && forall r :: r in store && field in r.fields && r.fields[field] == value ==> r.pk == row.pk
  }

  /** With an instance excluded, a value clashes exactly when a stored row with another key
      holds it. */
  lemma ExcludedClash(field: string, value: Value, pk: nat, env: Env)
    ensures Clash(env.(instance := Some(pk)), field, value) <==>
      exists r :: r in env.store && field in r.fields && r.fields[field] == value && r.pk != pk
  {
    var e := env.(instance := Some(pk));
    if exists r :: r in env.store && field in r.fields && r.fields[field] == value && r.pk != pk {
      var r :| r in env.store && field in r.fields && r.fields[field] == value && r.pk != pk;
      var i :| 0 <= i < |env.store| && env.store[i] == r;
      assert e.store[i] == r;
    }
  }

  /** However many rows the table holds, a row's own value never clashes with itself once its key
      is excluded, but does on create. */
  lemma UniqueOwnRow(field: string, value: Value, row: Row, env: Env)
    requires OwnValue(env.store, field, value, row)
    ensures ValidateUnique(field, value, env.(instance := Some(row.pk))) == Pass
    ensures ValidateUnique(field, value, env.(instance := None)) == Fail(UniqueMessage(field))
  {
    ExcludedClash(field, value, row.pk, env);
    var i :| 0 <= i < |env.store| && env.store[i] == row;
    assert env.(instance := None).store[i] == row;
  }
}
