/** `DynamicValidator.validate`: a first pass sanitises every `no_html` field and records
    markup-only input on create; a second pass checks `required`, skips empty values and runs the
    field's rules in order. Any error makes the whole call fail with the map of messages; an
    exception other than a validation error escapes. */
module Validator {
  import opened Text
  import opened Values
  import opened Sanitizer
  import opened Checks

  /** A rule table `{field: [rules]}`, in declaration order. */
  type Table = seq<(string, seq<string>)>

  /** A Python dict has each key once. */
  predicate DistinctKeys(t: Table) {
    forall i, j :: 0 <= i < j < |t| ==> t[i].0 != t[j].0
  }

  function Fields(t: Table): set<string> {
    set i | 0 <= i < |t| :: t[i].0
  }

  /** `rules_config[field]`, or no rules for a field the table does not name. */
  function RulesFor(t: Table, f: string): seq<string>
    decreases |t|
  {
    if |t| == 0 then [] else if t[0].0 == f then t[0].1 else RulesFor(t[1..], f)
  }

  lemma {:induction false} RulesForAt(t: Table, i: nat)
    requires DistinctKeys(t) && i < |t|
    ensures RulesFor(t, t[i].0) == t[i].1
    decreases i
  {
    if i > 0 {
      RulesForAt(t[1..], i - 1);
    }
  }

  datatype Outcome =
    | Ok(cleaned: map<string, Value>)
    | Invalid(errors: map<string, seq<string>>)
    | Crash

  const MarkupOnly := "This field is required and cannot contain only HTML code."

  /** `data.get(key)` */
  function Get(m: map<string, Value>, k: string): Value {
    if k in m then m[k] else Null
  }

  function GetErrors(m: map<string, seq<string>>, k: string): seq<string> {
    if k in m then m[k] else []
  }

  /** What the first pass leaves in a field: truthy `no_html` values are sanitised. */
  function CleanedValue(v: Value, rules: seq<string>, bleach: string -> string): Value {
    if Truthy(v) && "no_html" in rules then CleanNoHtml(v, bleach) else v
  }

  /** The first pass prints a non-zero number of a `no_html` field with `str()` and sanitises it. */
  lemma CleanedNumber(v: Value, rules: seq<string>, bleach: string -> string)
    requires v.Num? && v.n != 0 && "no_html" in rules
    ensures CleanedValue(v, rules, bleach) == Str(SanitizeText(IntToString(v.n), bleach))
  {
    assert Truthy(v) && !HasSize(v) && PyStr(v) == IntToString(v.n);
  }

  /** The input after the first pass: the same keys, sanitised where the table says so. */
  function CleanedData(data: map<string, Value>, t: Table, bleach: string -> string): map<string, Value> {
    map k | k in data :: if k in Fields(t) then CleanedValue(data[k], RulesFor(t, k), bleach) else data[k]
  }

  /** The first-pass message of a field: required markup-only input, on create. */
  function MarkupMessages(f: string, rules: seq<string>, data: map<string, Value>, isUpdate: bool,
                          bleach: string -> string): seq<string> {
    var v := Get(data, f);
    if Truthy(v) && "no_html" in rules && CleanNoHtml(v, bleach) == Str("") && "required" in rules && !isUpdate
    then [MarkupOnly] else []
  }

  /** Everything both passes record for one field. A rule failure replaces the first-pass
      message, a required error is appended to it. */
  function FieldVerdict(f: string, rules: seq<string>, data: map<string, Value>, isUpdate: bool,
                        env: Env): FieldResult {
    var html := MarkupMessages(f, rules, data, isUpdate, env.bleach);
    var v := CleanedValue(Get(data, f), rules, env.bleach);
    match CheckRequired(f, v, rules, data, isUpdate)
    case Some(m) => Msgs(html + [m])
    case None =>
      if IsEmpty(v) then Msgs(html)
      else match RuleMessages(f, v, rules, env)
        case Crashed => Crashed
        case Msgs(ms) => Msgs(if ms == [] then html else ms)
  }

  function FieldOf(t: Table, f: string, data: map<string, Value>, isUpdate: bool, env: Env): FieldResult {
    FieldVerdict(f, RulesFor(t, f), data, isUpdate, env)
  }

  /** The fields with at least one message, each with its messages. */
  function ErrorsOf(fields: set<string>, verdict: string -> FieldResult): map<string, seq<string>> {
    map f | f in fields && verdict(f).Msgs? && verdict(f).msgs != [] :: verdict(f).msgs
  }

  function ErrorMap(data: map<string, Value>, t: Table, isUpdate: bool, env: Env): map<string, seq<string>> {
    ErrorsOf(Fields(t), f => FieldOf(t, f, data, isUpdate, env))
  }

  predicate AnyCrash(data: map<string, Value>, t: Table, isUpdate: bool, env: Env) {
    exists i :: 0 <= i < |t| && FieldVerdict(t[i].0, t[i].1, data, isUpdate, env).Crashed?
  }

  /** The outcome of `validate(data, rules_config, is_update)`, field by field. */
  function ValidateSpec(data: map<string, Value>, t: Table, isUpdate: bool, env: Env): Outcome {
    if AnyCrash(data, t, isUpdate, env) then Crash
    else
      var e := ErrorMap(data, t, isUpdate, env);
      if e != map[] then Invalid(e) else Ok(CleanedData(data, t, env.bleach))
  }

  /** The two passes of `validate`. */
  method Validate(data: map<string, Value>, t: Table, isUpdate: bool, env: Env) returns (o: Outcome)
    requires DistinctKeys(t)
    ensures o == ValidateSpec(data, t, isUpdate, env)
  {
    var cleaned, errors := SanitizePass(data, t, isUpdate, env.bleach);

    // Second pass: check.
    var i := 0;
    while i < |t|
      invariant 0 <= i <= |t|
      invariant forall j :: 0 <= j < i ==> (!FieldVerdict(t[j].0, t[j].1, data, isUpdate, env).Crashed? &&
        GetErrors(errors, t[j].0) == FieldVerdict(t[j].0, t[j].1, data, isUpdate, env).msgs)
      invariant forall j :: i <= j < |t| ==>
        GetErrors(errors, t[j].0) == MarkupMessages(t[j].0, t[j].1, data, isUpdate, env.bleach)
      invariant forall k :: k in errors ==> errors[k] != [] && exists j :: 0 <= j < |t| && t[j].0 == k
    {
      var f := t[i].0;
      var rules := t[i].1;
      var value := Get(cleaned, f);
      RulesForAt(t, i);
      assert value == CleanedValue(Get(data, f), rules, env.bleach);
      var fieldResult := CheckField(f, rules, data, isUpdate, env, value, GetErrors(errors, f));
      if fieldResult.Crashed? {
        return Crash;
      }
      RecordVerdict(data, t, isUpdate, env, errors, i, fieldResult.msgs);
      if fieldResult.msgs != [] {
        errors := errors[f := fieldResult.msgs];
      }
      i := i + 1;
    }
    ErrorsAfterSecondPass(data, t, isUpdate, env, errors);
    if errors != map[] {
      return Invalid(errors);
    }
    return Ok(cleaned);
  }

  /** Recording the verdict of field `i` (when it has messages) keeps the errors map in step
      with the passes: verdicts up to `i`, first-pass messages after it. */
  lemma RecordVerdict(data: map<string, Value>, t: Table, isUpdate: bool, env: Env,
                      errors: map<string, seq<string>>, i: nat, msgs: seq<string>)
    requires DistinctKeys(t) && i < |t|
    requires FieldVerdict(t[i].0, t[i].1, data, isUpdate, env) == Msgs(msgs)
    requires forall j :: 0 <= j < i ==> (!FieldVerdict(t[j].0, t[j].1, data, isUpdate, env).Crashed? &&
      GetErrors(errors, t[j].0) == FieldVerdict(t[j].0, t[j].1, data, isUpdate, env).msgs)
    requires forall j :: i <= j < |t| ==>
      GetErrors(errors, t[j].0) == MarkupMessages(t[j].0, t[j].1, data, isUpdate, env.bleach)
    requires forall k :: k in errors ==> errors[k] != [] && exists j :: 0 <= j < |t| && t[j].0 == k
    ensures var e := if msgs != [] then errors[t[i].0 := msgs] else errors;
      && (forall j :: 0 <= j < i + 1 ==> (!FieldVerdict(t[j].0, t[j].1, data, isUpdate, env).Crashed? &&
        GetErrors(e, t[j].0) == FieldVerdict(t[j].0, t[j].1, data, isUpdate, env).msgs))
      && (forall j :: i + 1 <= j < |t| ==>
        GetErrors(e, t[j].0) == MarkupMessages(t[j].0, t[j].1, data, isUpdate, env.bleach))
      && (forall k :: k in e ==> e[k] != [] && exists j :: 0 <= j < |t| && t[j].0 == k)
  {
    var f := t[i].0;
    assert forall j :: 0 <= j < |t| && j != i ==> t[j].0 != f;
    if msgs == [] {
      EmptyVerdictHasNoMarkup(f, t[i].1, data, isUpdate, env);
    }
  }

  /** A field without final messages had no first-pass message either. */
  lemma EmptyVerdictHasNoMarkup(f: string, rules: seq<string>, data: map<string, Value>, isUpdate: bool, env: Env)
    requires FieldVerdict(f, rules, data, isUpdate, env) == Msgs([])
    ensures MarkupMessages(f, rules, data, isUpdate, env.bleach) == []
  {
  }

  /** The second pass on one field: the `required` message is appended to what the first pass
      recorded; a non-empty value runs its rules, whose messages, if any, replace the recorded
      ones. The result is the field's final list of messages. */
  method CheckField(f: string, rules: seq<string>, data: map<string, Value>, isUpdate: bool, env: Env,
                    value: Value, recorded: seq<string>) returns (r: FieldResult)
    requires value == CleanedValue(Get(data, f), rules, env.bleach)
    requires recorded == MarkupMessages(f, rules, data, isUpdate, env.bleach)
    ensures r == FieldVerdict(f, rules, data, isUpdate, env)
  {
    var requiredError := CheckRequired(f, value, rules, data, isUpdate);
    if requiredError.Some? {
      return Msgs(recorded + [requiredError.value]);
    }
    if IsEmpty(value) {
      return Msgs(recorded);
    }
    var fieldResult := RuleLoop(f, value, rules, env);
    if fieldResult.Crashed? {
      return Crashed;
    }
    if fieldResult.msgs != [] {
      return Msgs(fieldResult.msgs);
    }
    return Msgs(recorded);
  }

  /** The first pass: sanitise every truthy `no_html` field; on create, record required fields
      whose input was nothing but markup. */
  method SanitizePass(data: map<string, Value>, t: Table, isUpdate: bool, bleach: string -> string)
    returns (cleaned: map<string, Value>, errors: map<string, seq<string>>)
    requires DistinctKeys(t)
    ensures cleaned == CleanedData(data, t, bleach)
    ensures forall j :: 0 <= j < |t| ==> GetErrors(errors, t[j].0) == MarkupMessages(t[j].0, t[j].1, data, isUpdate, bleach)
    ensures forall k :: k in errors ==> errors[k] != [] && exists j :: 0 <= j < |t| && t[j].0 == k
  {
    errors := map[];
    cleaned := data;
    var i := 0;
    while i < |t|
      invariant 0 <= i <= |t|
      invariant cleaned.Keys == data.Keys
      invariant forall j :: 0 <= j < i && t[j].0 in data ==>
        cleaned[t[j].0] == CleanedValue(data[t[j].0], t[j].1, bleach)
      invariant forall k :: k in data && (forall j :: 0 <= j < i ==> t[j].0 != k) ==> cleaned[k] == data[k]
      invariant forall k :: k in errors ==> errors[k] != [] && exists j :: 0 <= j < i && t[j].0 == k
      invariant forall j :: 0 <= j < i ==>
        GetErrors(errors, t[j].0) == MarkupMessages(t[j].0, t[j].1, data, isUpdate, bleach)
      invariant forall j :: i <= j < |t| ==> t[j].0 !in errors
    {
      var f := t[i].0;
      var rules := t[i].1;
      var value := Get(data, f);
      assert forall j :: 0 <= j < |t| && j != i ==> t[j].0 != f;
      if Truthy(value) && "no_html" in rules {
        var cleanedValue := CleanNoHtml(value, bleach);
        cleaned := cleaned[f := cleanedValue];
        if cleanedValue == Str("") && "required" in rules && !isUpdate {
          errors := errors[f := GetErrors(errors, f) + [MarkupOnly]];
        }
      }
      i := i + 1;
    }
    CleanedAfterFirstPass(data, t, cleaned, bleach);
  }

  /** The rule loop of one field; it stops at the first rule that raises. */
  method RuleLoop(f: string, value: Value, rules: seq<string>, env: Env) returns (r: FieldResult)
    ensures r == RuleMessages(f, value, rules, env)
  {
    var fieldErrors: seq<string> := [];
    var j := 0;
    while j < |rules|
      invariant 0 <= j <= |rules|
      invariant RuleMessages(f, value, rules, env) == Prepend(fieldErrors, RuleMessages(f, value, rules[j..], env))
    {
      assert rules[j..][1..] == rules[j + 1..];
      var check := CheckToken(f, value, rules[j], env);
      match check {
        case Raise =>
          return Crashed;
        case Fail(m) =>
          PrependTwice(fieldErrors, [m], RuleMessages(f, value, rules[j + 1..], env));
          fieldErrors := fieldErrors + [m];
        case Pass =>
      }
      j := j + 1;
    }
    assert rules[|rules|..] == [];
    assert fieldErrors + [] == fieldErrors;
    return Msgs(fieldErrors);
  }

  lemma PrependTwice(a: seq<string>, b: seq<string>, r: FieldResult)
    ensures Prepend(a, Prepend(b, r)) == Prepend(a + b, r)
  {
    if r.Msgs? {
      assert a + (b + r.msgs) == (a + b) + r.msgs;
    }
  }

  /** The map the first pass builds is `CleanedData`. */
  lemma CleanedAfterFirstPass(data: map<string, Value>, t: Table, cleaned: map<string, Value>, bleach: string -> string)
    requires DistinctKeys(t)
    requires cleaned.Keys == data.Keys
    requires forall j :: 0 <= j < |t| && t[j].0 in data ==> cleaned[t[j].0] == CleanedValue(data[t[j].0], t[j].1, bleach)
    requires forall k :: k in data && (forall j :: 0 <= j < |t| ==> t[j].0 != k) ==> cleaned[k] == data[k]
    ensures cleaned == CleanedData(data, t, bleach)
  {
    forall k | k in data
      ensures cleaned[k] == CleanedData(data, t, bleach)[k]
    {
      if k in Fields(t) {
        var j :| 0 <= j < |t| && t[j].0 == k;
        RulesForAt(t, j);
      }
    }
  }

  /** The map the second pass builds, when nothing crashed, is `ErrorMap`. */
  lemma ErrorsAfterSecondPass(data: map<string, Value>, t: Table, isUpdate: bool, env: Env,
                              errors: map<string, seq<string>>)
    requires DistinctKeys(t)
    requires forall j :: 0 <= j < |t| ==> !FieldVerdict(t[j].0, t[j].1, data, isUpdate, env).Crashed?
    requires forall j :: 0 <= j < |t| ==>
      GetErrors(errors, t[j].0) == FieldVerdict(t[j].0, t[j].1, data, isUpdate, env).msgs
    requires forall k :: k in errors ==> errors[k] != [] && exists j :: 0 <= j < |t| && t[j].0 == k
    ensures !AnyCrash(data, t, isUpdate, env)
    ensures errors == ErrorMap(data, t, isUpdate, env)
  {
    var verdict := f => FieldOf(t, f, data, isUpdate, env);
    forall j | 0 <= j < |t|
      ensures verdict(t[j].0) == FieldVerdict(t[j].0, t[j].1, data, isUpdate, env)
    {
      RulesForAt(t, j);
    }
    ErrorsMatch(t, verdict, errors);
  }

  lemma ErrorsMatch(t: Table, verdict: string -> FieldResult, errors: map<string, seq<string>>)
    requires forall j :: 0 <= j < |t| ==> !verdict(t[j].0).Crashed? && GetErrors(errors, t[j].0) == verdict(t[j].0).msgs
    requires forall k :: k in errors ==> errors[k] != [] && exists j :: 0 <= j < |t| && t[j].0 == k
    ensures errors == ErrorsOf(Fields(t), verdict)
  {
    var e := ErrorsOf(Fields(t), verdict);
    forall k | k in errors
      ensures k in e && e[k] == errors[k]
    {
      var j :| 0 <= j < |t| && t[j].0 == k;
    }
    forall k | k in e
      ensures k in errors
    {
      var j :| 0 <= j < |t| && t[j].0 == k;
    }
  }
}
