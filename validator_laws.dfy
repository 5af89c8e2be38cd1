/** What the dynamic validator promises its callers, stated over `ValidateSpec`. */
module ValidatorLaws {
  import opened Text
  import opened Values
  import opened Sanitizer
  import opened Checks
  import opened Validator

  /** A successful call returns every submitted key; only `no_html` fields of the table change.
      Each of those is `_clean_no_html` of the value sent: falsy values and files come back as
      sent, anything else as the stripped, sanitised text of `str(value)`. */
  lemma OkIsSanitisedInput(data: map<string, Value>, t: Table, isUpdate: bool, env: Env)
    requires ValidateSpec(data, t, isUpdate, env).Ok?
    ensures ValidateSpec(data, t, isUpdate, env).cleaned.Keys == data.Keys
    ensures forall k :: k in data && (k !in Fields(t) || "no_html" !in RulesFor(t, k)) ==>
      ValidateSpec(data, t, isUpdate, env).cleaned[k] == data[k]
    ensures forall k :: k in data && k in Fields(t) && "no_html" in RulesFor(t, k) ==>
      ValidateSpec(data, t, isUpdate, env).cleaned[k] == CleanNoHtml(data[k], env.bleach)
    ensures forall k :: k in data && k in Fields(t) && "no_html" in RulesFor(t, k) && (!Truthy(data[k]) || HasSize(data[k])) ==>
      ValidateSpec(data, t, isUpdate, env).cleaned[k] == data[k]
    ensures forall k :: k in data && k in Fields(t) && "no_html" in RulesFor(t, k) && Truthy(data[k]) && !HasSize(data[k]) ==>
      ValidateSpec(data, t, isUpdate, env).cleaned[k] == Str(SanitizeText(PyStr(data[k]), env.bleach))
    ensures forall k :: k in data && k in Fields(t) && "no_html" in RulesFor(t, k) && Truthy(data[k]) && !HasSize(data[k]) ==>
      ValidateSpec(data, t, isUpdate, env).cleaned[k].Str? && IsStripped(ValidateSpec(data, t, isUpdate, env).cleaned[k].s)
  {
    var c := ValidateSpec(data, t, isUpdate, env).cleaned;
    assert c == CleanedData(data, t, env.bleach);
    forall k | k in data && k in Fields(t) && "no_html" in RulesFor(t, k)
      ensures c[k] == CleanNoHtml(data[k], env.bleach)
      ensures !Truthy(data[k]) || HasSize(data[k]) ==> c[k] == data[k]
      ensures Truthy(data[k]) && !HasSize(data[k]) ==> c[k] == Str(SanitizeText(PyStr(data[k]), env.bleach))
      ensures Truthy(data[k]) && !HasSize(data[k]) ==> c[k].Str? && IsStripped(c[k].s)
    {
      assert c[k] == CleanedValue(data[k], RulesFor(t, k), env.bleach);
    }
  }

  /** A successful call returns a non-zero number sent to a `no_html` field as the sanitised
      text `str()` prints for it. */
  lemma OkCleansNumber(data: map<string, Value>, t: Table, isUpdate: bool, env: Env, f: string)
    requires ValidateSpec(data, t, isUpdate, env).Ok?
    requires f in data && f in Fields(t) && "no_html" in RulesFor(t, f)
    requires data[f].Num? && data[f].n != 0
    ensures ValidateSpec(data, t, isUpdate, env).cleaned[f] == Str(SanitizeText(IntToString(data[f].n), env.bleach))
  {
    assert ValidateSpec(data, t, isUpdate, env).cleaned == CleanedData(data, t, env.bleach);
    CleanedNumber(data[f], RulesFor(t, f), env.bleach);
  }

  /** A failed call names only fields of the table, each with the non-empty list of messages
      that field collected. */
  lemma InvalidNamesFailingFields(data: map<string, Value>, t: Table, isUpdate: bool, env: Env)
    requires ValidateSpec(data, t, isUpdate, env).Invalid?
    ensures forall f :: f in ValidateSpec(data, t, isUpdate, env).errors ==>
      f in Fields(t) && ValidateSpec(data, t, isUpdate, env).errors[f] == FieldOf(t, f, data, isUpdate, env).msgs != []
  {
    var verdict := f => FieldOf(t, f, data, isUpdate, env);
    var e := ErrorsOf(Fields(t), verdict);
    assert ValidateSpec(data, t, isUpdate, env).errors == e;
    forall f | f in e
      ensures f in Fields(t) && e[f] == verdict(f).msgs != []
    {
    }
  }

  /** Validation is all-or-nothing: data comes back only when no field of the table collected a
      message and nothing raised. */
  lemma OkOnlyWithoutMessages(data: map<string, Value>, t: Table, isUpdate: bool, env: Env)
    requires DistinctKeys(t)
    ensures ValidateSpec(data, t, isUpdate, env).Ok? <==>
      (forall i :: 0 <= i < |t| ==> FieldVerdict(t[i].0, t[i].1, data, isUpdate, env) == Msgs([]))
    ensures ValidateSpec(data, t, isUpdate, env).Crash? <==> AnyCrash(data, t, isUpdate, env)
  {
    var verdict := f => FieldOf(t, f, data, isUpdate, env);
    forall i | 0 <= i < |t|
      ensures verdict(t[i].0) == FieldVerdict(t[i].0, t[i].1, data, isUpdate, env)
    {
      RulesForAt(t, i);
    }
    if forall i :: 0 <= i < |t| ==> FieldVerdict(t[i].0, t[i].1, data, isUpdate, env) == Msgs([]) {
      assert ErrorMap(data, t, isUpdate, env) == map[] by {
        forall f | f in Fields(t)
          ensures !(verdict(f).Msgs? && verdict(f).msgs != [])
        {
          var i :| 0 <= i < |t| && t[i].0 == f;
        }
      }
    }
    if ValidateSpec(data, t, isUpdate, env).Ok? {
      forall i | 0 <= i < |t|
        ensures FieldVerdict(t[i].0, t[i].1, data, isUpdate, env) == Msgs([])
      {
        assert t[i].0 in Fields(t);
        assert t[i].0 !in ErrorMap(data, t, isUpdate, env);
      }
    }
  }

  // ---------------------------------------------------------------------------
  // One field
  // ---------------------------------------------------------------------------

  /** On create, a required field that is empty after sanitising gets the required message,
      preceded by the markup message when the input was nothing but markup. */
  lemma RequiredOnCreateField(f: string, rules: seq<string>, data: map<string, Value>, env: Env)
    requires "required" in rules
    requires IsEmpty(CleanedValue(Get(data, f), rules, env.bleach))
    ensures FieldVerdict(f, rules, data, false, env)
      == Msgs(if Truthy(Get(data, f)) then [MarkupOnly, RequiredOnCreate] else [RequiredOnCreate])
  {
    var v := Get(data, f);
    var c := CleanedValue(v, rules, env.bleach);
    assert CheckRequired(f, c, rules, data, false) == Some(RequiredOnCreate);
    if Truthy(v) {
      if !("no_html" in rules) {
        EmptyIsFalsy(v);
      }
      assert c == CleanNoHtml(v, env.bleach) == Str("");
      assert MarkupMessages(f, rules, data, false, env.bleach) == [MarkupOnly];
    } else {
      assert MarkupMessages(f, rules, data, false, env.bleach) == [];
    }
  }

  /** On update, a key that was not sent is never checked: partial updates are allowed. */
  lemma AbsentOnUpdateField(f: string, rules: seq<string>, data: map<string, Value>, env: Env)
    requires f !in data
    ensures FieldVerdict(f, rules, data, true, env) == Msgs([])
  {
  }

  /** On update, a required key that was sent empty (or as nothing but markup) gets the
      update variant of the required message, and only that. */
  lemma EmptyOnUpdateField(f: string, rules: seq<string>, data: map<string, Value>, env: Env)
    requires f in data && "required" in rules
    requires IsEmpty(CleanedValue(data[f], rules, env.bleach))
    ensures FieldVerdict(f, rules, data, true, env) == Msgs([RequiredOnUpdate])
  {
  }

  /** An optional field that is empty after sanitising is skipped: none of its rules runs, so it
      can neither fail nor raise. */
  lemma OptionalEmptyField(f: string, rules: seq<string>, data: map<string, Value>, isUpdate: bool, env: Env)
    requires "required" !in rules
    requires IsEmpty(CleanedValue(Get(data, f), rules, env.bleach))
    ensures FieldVerdict(f, rules, data, isUpdate, env) == Msgs([])
  {
  }

  /** Once a field is non-empty and passes `required`, its verdict is exactly its rule loop: the
      first-pass message can only exist for a field that then fails `required`, so the rule
      loop's assignment never discards a message. */
  lemma RulesDecideField(f: string, rules: seq<string>, data: map<string, Value>, isUpdate: bool, env: Env)
    requires !IsEmpty(CleanedValue(Get(data, f), rules, env.bleach))
    ensures FieldVerdict(f, rules, data, isUpdate, env)
      == RuleMessages(f, CleanedValue(Get(data, f), rules, env.bleach), rules, env)
  {
  }

  // ---------------------------------------------------------------------------
  // The whole call
  // ---------------------------------------------------------------------------

  /** A field of the table that collects messages makes the call fail (or crash), and a failure
      reports exactly those messages for it. */
  lemma FieldMessagesReported(data: map<string, Value>, t: Table, isUpdate: bool, env: Env, i: nat, ms: seq<string>)
    requires DistinctKeys(t) && i < |t|
    requires FieldVerdict(t[i].0, t[i].1, data, isUpdate, env) == Msgs(ms) && ms != []
    ensures !ValidateSpec(data, t, isUpdate, env).Ok?
    ensures ValidateSpec(data, t, isUpdate, env).Invalid? ==>
      t[i].0 in ValidateSpec(data, t, isUpdate, env).errors && ValidateSpec(data, t, isUpdate, env).errors[t[i].0] == ms
  {
    OkOnlyWithoutMessages(data, t, isUpdate, env);
    RulesForAt(t, i);
    assert t[i].0 in Fields(t);
  }

  /** When every other field is silent, field `i` alone decides: the call succeeds when it has
      no messages and otherwise fails with exactly its messages. */
  lemma SingleFieldDecides(data: map<string, Value>, t: Table, isUpdate: bool, env: Env, i: nat, ms: seq<string>)
    requires DistinctKeys(t) && i < |t|
    requires FieldVerdict(t[i].0, t[i].1, data, isUpdate, env) == Msgs(ms)
    requires forall j :: 0 <= j < |t| && j != i ==> FieldVerdict(t[j].0, t[j].1, data, isUpdate, env) == Msgs([])
    ensures ms == [] ==> ValidateSpec(data, t, isUpdate, env).Ok?
    ensures ms != [] ==> ValidateSpec(data, t, isUpdate, env) == Invalid(map[t[i].0 := ms])
  {
    OkOnlyWithoutMessages(data, t, isUpdate, env);
    assert forall j :: 0 <= j < |t| ==> !FieldVerdict(t[j].0, t[j].1, data, isUpdate, env).Crashed?;
    if ms != [] {
      FieldMessagesReported(data, t, isUpdate, env, i, ms);
      InvalidNamesFailingFields(data, t, isUpdate, env);
      var errs := ValidateSpec(data, t, isUpdate, env).errors;
      forall f | f in errs ensures f == t[i].0 {
        var j :| 0 <= j < |t| && t[j].0 == f;
        RulesForAt(t, j);
      }
      assert errs == map[t[i].0 := ms];
    }
  }

  /** On create, leaving out a required field makes the call fail with `This field is required`
      for it, unless another field raised. */
  lemma MissingRequiredOnCreate(data: map<string, Value>, t: Table, env: Env, i: nat)
    requires DistinctKeys(t) && i < |t|
    requires "required" in t[i].1 && t[i].0 !in data
    ensures !ValidateSpec(data, t, false, env).Ok?
    ensures ValidateSpec(data, t, false, env).Invalid? ==>
      t[i].0 in ValidateSpec(data, t, false, env).errors
      && ValidateSpec(data, t, false, env).errors[t[i].0] == [RequiredOnCreate]
  {
    RequiredOnCreateField(t[i].0, t[i].1, data, env);
    FieldMessagesReported(data, t, false, env, i, [RequiredOnCreate]);
  }

  /** On update, a field that was not sent never appears among the errors. */
  lemma AbsentNeverReportedOnUpdate(data: map<string, Value>, t: Table, env: Env, f: string)
    requires f !in data
    requires ValidateSpec(data, t, true, env).Invalid?
    ensures f !in ValidateSpec(data, t, true, env).errors
  {
    if f in Fields(t) {
      AbsentOnUpdateField(f, RulesFor(t, f), data, env);
    }
  }

  /** A rule that raises on a non-empty field that passes `required` makes the whole call crash,
      whatever the other fields hold. */
  lemma RaisingRuleCrashes(data: map<string, Value>, t: Table, isUpdate: bool, env: Env, i: nat, k: nat)
    requires i < |t| && k < |t[i].1|
    requires !IsEmpty(CleanedValue(Get(data, t[i].0), t[i].1, env.bleach))
    requires CheckToken(t[i].0, CleanedValue(Get(data, t[i].0), t[i].1, env.bleach), t[i].1[k], env).Raise?
    ensures ValidateSpec(data, t, isUpdate, env) == Crash
  {
    var v := CleanedValue(Get(data, t[i].0), t[i].1, env.bleach);
    RulesDecideField(t[i].0, t[i].1, data, isUpdate, env);
    RuleMessagesCrash(t[i].0, v, t[i].1, env);
    assert FieldVerdict(t[i].0, t[i].1, data, isUpdate, env).Crashed?;
  }
}
