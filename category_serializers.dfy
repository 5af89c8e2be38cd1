/** The category serializers: how each `to_internal_value` hook wires the dynamic validator
    (which table, whether it is an update, which instance `unique` excludes), and the `update` and
    `create` methods that copy validated data onto a category. */
module CategorySerializers {
  import opened Text
  import opened Values
  import opened Checks
  import opened Validator
  import opened RuleTokens
  import opened RuleTables
  import ValidatorLaws

  datatype Kind = CategoryTypeKind | MainCategoryKind | SubCategoryKind

  function RulesOf(kind: Kind): Rules {
    match kind
    case CategoryTypeKind => CategoryTypeRules
    case MainCategoryKind => MainCategoryRules
    case SubCategoryKind => SubCategoryRules
  }

  /** What a hook hands the validator: the update flag, and the instance whose row `unique`
      skips. */
  datatype Wiring = Wiring(isUpdate: bool, excluded: Option<nat>)

  /** The hooks as written: every hook sets `is_update` from the presence of an instance, but the
      main-category hook builds its validator with `instance=None`. */
  function WiringAsWritten(kind: Kind, instance: Option<nat>): (r: Wiring)
    ensures r.isUpdate <==> instance.Some?
    ensures r.excluded == (if kind == MainCategoryKind then None else instance)
  {
    if kind == MainCategoryKind then Wiring(instance.Some?, None) else Wiring(instance.Some?, instance)
  }

  /** The wiring the three hooks evidently intend: the instance is excluded on update. */
  function WiringIntended(kind: Kind, instance: Option<nat>): (r: Wiring)
    ensures r.isUpdate <==> instance.Some?
    ensures r.excluded == instance
  {
    Wiring(instance.Some?, instance)
  }

  /** `to_internal_value` up to the model serializer's own field conversion: the validator's
      outcome, with its field-to-messages map re-raised as it is. */
  function ToInternalValue(kind: Kind, w: Wiring, data: map<string, Value>, env: Env): (r: Outcome)
    ensures r.Ok? ==> r.cleaned.Keys == data.Keys
    ensures r.Ok? && !w.isUpdate ==> "title" in data
    ensures r.Ok? && !w.isUpdate && kind == SubCategoryKind ==> "main_id" in data
  {
    AcceptedPayload(kind, w.isUpdate, data, env.(instance := w.excluded));
    CategoryRequired();
    ValidateSpec(data, RenderTable(RulesOf(kind)), w.isUpdate, env.(instance := w.excluded))
  }

  /** What an accepted category payload holds. */
  lemma AcceptedPayload(kind: Kind, isUpdate: bool, data: map<string, Value>, e: Env)
    ensures ValidateSpec(data, RenderTable(RulesOf(kind)), isUpdate, e).Ok? ==>
      ValidateSpec(data, RenderTable(RulesOf(kind)), isUpdate, e).cleaned.Keys == data.Keys
    ensures ValidateSpec(data, RenderTable(RulesOf(kind)), isUpdate, e).Ok? && !isUpdate ==>
      RequiredFields(RulesOf(kind)) <= data.Keys
  {
    if ValidateSpec(data, RenderTable(RulesOf(kind)), isUpdate, e).Ok? {
      ValidatorLaws.OkIsSanitisedInput(data, RenderTable(RulesOf(kind)), isUpdate, e);
      if !isUpdate {
        CategoryTables();
        OkHasRequired(data, RulesOf(kind), e);
      }
    }
  }

  /** Only the main-category hook differs from the intended wiring, and only on update. */
  lemma WiringDiffers(kind: Kind, instance: Option<nat>)
    ensures WiringAsWritten(kind, instance).isUpdate <==> instance.Some?
    ensures WiringAsWritten(kind, instance) != WiringIntended(kind, instance)
      <==> kind == MainCategoryKind && instance.Some?
  {
  }

  // ---------------------------------------------------------------------------
  // Resubmitting a title on update
  // ---------------------------------------------------------------------------

  /** The title rule, on a text that has the right length, fails with the uniqueness message alone
      exactly when another row holds it. */
  lemma TitleMessages(f: string, v: Value, env: Env)
    requires !HasSize(v) && 2 <= TextLength(v) <= 200
    ensures ExpectedMessages(f, v, CategoryTitle, env)
      == (if Clash(env, f, v) then Msgs([UniqueMessage(f)]) else Msgs([]))
  {
    var rest := CategoryTitle[2..];
    BoundedMeaning(f, v, rest, 2, 200, env);
    assert CategoryTitle[1..][1..] == rest;
  }

  /** An update that sends only `title`: every other field of a category table is left out, so
      only the title can produce messages. */
  lemma OnlyTitleDecides(kind: Kind, data: map<string, Value>, env: Env)
    requires data.Keys == {"title"}
    ensures var t := RenderTable(RulesOf(kind));
      forall i :: 1 <= i < |t| ==> FieldVerdict(t[i].0, t[i].1, data, true, env) == Msgs([])
  {
    var t := RenderTable(RulesOf(kind));
    CategoryTables();
    forall i | 1 <= i < |t|
      ensures FieldVerdict(t[i].0, t[i].1, data, true, env) == Msgs([])
    {
      assert t[i].0 != "title" by {
        assert t[i].0[0] != 't';
      }
      ValidatorLaws.AbsentOnUpdateField(t[i].0, t[i].1, data, env);
    }
  }

  /** Updating a category while sending its current title back, as the only field. */
  predicate ResubmitsOwnTitle(data: map<string, Value>, row: Row, env: Env) {
    && data.Keys == {"title"}
    && !HasSize(data["title"])
    && "title" in row.fields
    && OwnValue(env.store, "title", row.fields["title"], row)
    && row.fields["title"] == CleanedValue(data["title"], RenderAll(CategoryTitle), env.bleach)
    && !IsEmpty(row.fields["title"])
    && 2 <= TextLength(row.fields["title"]) <= 200
  }

  /** Every category table starts with the title rule. */
  lemma TitleFirst(kind: Kind)
    ensures |RulesOf(kind)| > 0 && RulesOf(kind)[0] == ("title", CategoryTitle)
  {
  }

  /** The title's verdict when the category's own title comes back on update. */
  lemma OwnTitleVerdict(kind: Kind, w: Wiring, data: map<string, Value>, row: Row, env: Env)
    requires ResubmitsOwnTitle(data, row, env) && w.isUpdate
    ensures var t := RenderTable(RulesOf(kind));
      FieldVerdict(t[0].0, t[0].1, data, true, env.(instance := w.excluded))
        == (if w.excluded == Some(row.pk) then Msgs([]) else Msgs([UniqueMessage("title")]))
  {
    TitleFirst(kind);
    var t := RenderTable(RulesOf(kind));
    assert t[0] == ("title", RenderAll(CategoryTitle));
    TitleFieldVerdict(data, row, env, w.excluded);
  }

  /** The verdict of the title field itself, with `excluded` the row that `unique` skips. */
  lemma TitleFieldVerdict(data: map<string, Value>, row: Row, env: Env, excluded: Option<nat>)
    requires ResubmitsOwnTitle(data, row, env)
    ensures FieldVerdict("title", RenderAll(CategoryTitle), data, true, env.(instance := excluded))
      == (if excluded == Some(row.pk) then Msgs([]) else Msgs([UniqueMessage("title")]))
  {
    var e := env.(instance := excluded);
    TitleCleaned(data, row, env, e);
    TitleTokensWellFormed();
    FieldByMeaning("title", CategoryTitle, data, true, e);
    TitleExpected(data, row, env, excluded);
  }

  /** The resent title cleans to the stored one under any environment with the same cleaner. */
  lemma TitleCleaned(data: map<string, Value>, row: Row, env: Env, e: Env)
    requires ResubmitsOwnTitle(data, row, env) && e.bleach == env.bleach
    ensures CleanedValue(Get(data, "title"), RenderAll(CategoryTitle), e.bleach) == row.fields["title"]
    ensures !IsEmpty(row.fields["title"])
  {
    TitleValue(data, row, env);
  }

  lemma TitleTokensWellFormed()
    ensures AllWellFormed(CategoryTitle)
  {
  }

  /** What the title tokens say about the resent title. */
  lemma TitleExpected(data: map<string, Value>, row: Row, env: Env, excluded: Option<nat>)
    requires ResubmitsOwnTitle(data, row, env)
    ensures ExpectedMessages("title", row.fields["title"], CategoryTitle, env.(instance := excluded))
      == (if excluded == Some(row.pk) then Msgs([]) else Msgs([UniqueMessage("title")]))
  {
    TitleValue(data, row, env);
    TitleClash(row, env, excluded);
    TitleMessages("title", row.fields["title"], env.(instance := excluded));
  }

  /** The resent title cleans to the stored one, which is not empty. */
  lemma TitleValue(data: map<string, Value>, row: Row, env: Env)
    requires ResubmitsOwnTitle(data, row, env)
    ensures CleanedValue(Get(data, "title"), RenderAll(CategoryTitle), env.bleach) == row.fields["title"]
    ensures !IsEmpty(row.fields["title"]) && !HasSize(row.fields["title"])
    ensures 2 <= TextLength(row.fields["title"]) <= 200
  {
    assert "title" in data;
  }

  /** A stored title held only by its own row clashes with itself unless that row is the
      excluded one. */
  lemma TitleClash(row: Row, env: Env, excluded: Option<nat>)
    requires "title" in row.fields && OwnValue(env.store, "title", row.fields["title"], row)
    ensures Clash(env.(instance := excluded), "title", row.fields["title"]) <==> excluded != Some(row.pk)
  {
    var v := row.fields["title"];
    var e := env.(instance := excluded);
    UniqueOwnRow("title", v, row, env);
    if excluded.Some? && excluded != Some(row.pk) {
      var i :| 0 <= i < |env.store| && env.store[i] == row;
      assert e.store[i] == row;
    }
  }

  /** Main categories as written: sending a main category's unchanged title back on update is
      refused, because its own row counts as a clash. */
  lemma MainTitleCollidesWithItself(data: map<string, Value>, row: Row, env: Env)
    requires ResubmitsOwnTitle(data, row, env)
    ensures ToInternalValue(MainCategoryKind, WiringAsWritten(MainCategoryKind, Some(row.pk)), data, env).Invalid?
    ensures ToInternalValue(MainCategoryKind, WiringAsWritten(MainCategoryKind, Some(row.pk)), data, env).errors
      == map["title" := [UniqueMessage("title")]]
  {
    var w := WiringAsWritten(MainCategoryKind, Some(row.pk));
    OutcomeOfOwnTitle(MainCategoryKind, w, data, row, env);
  }

  /** With the intended wiring every category kind accepts its own unchanged title on update. */
  lemma OwnTitleAccepted(kind: Kind, data: map<string, Value>, row: Row, env: Env)
    requires ResubmitsOwnTitle(data, row, env)
    ensures ToInternalValue(kind, WiringIntended(kind, Some(row.pk)), data, env).Ok?
  {
    OutcomeOfOwnTitle(kind, WiringIntended(kind, Some(row.pk)), data, row, env);
  }

  /** Category types and sub categories are wired as intended, so the refusal is particular to
      main categories. */
  lemma OthersAcceptOwnTitle(kind: Kind, data: map<string, Value>, row: Row, env: Env)
    requires kind != MainCategoryKind && ResubmitsOwnTitle(data, row, env)
    ensures ToInternalValue(kind, WiringAsWritten(kind, Some(row.pk)), data, env).Ok?
  {
    OwnTitleAccepted(kind, data, row, env);
  }

  /** The whole outcome of the update that resends the own title: accepted when the own row is
      excluded, refused with the single uniqueness message otherwise. */
  lemma OutcomeOfOwnTitle(kind: Kind, w: Wiring, data: map<string, Value>, row: Row, env: Env)
    requires ResubmitsOwnTitle(data, row, env) && w.isUpdate
    ensures w.excluded == Some(row.pk) ==> ToInternalValue(kind, w, data, env).Ok?
    ensures w.excluded != Some(row.pk) ==>
      ToInternalValue(kind, w, data, env) == Invalid(map["title" := [UniqueMessage("title")]])
  {
    var e := env.(instance := w.excluded);
    var t := RenderTable(RulesOf(kind));
    assert DistinctKeys(t) && 0 < |t| by { CategoryTables(); }
    OwnTitleVerdict(kind, w, data, row, env);
    OnlyTitleDecides(kind, data, e);
    var ms := if w.excluded == Some(row.pk) then [] else [UniqueMessage("title")];
    ValidatorLaws.SingleFieldDecides(data, t, true, e, 0, ms);
    assert t[0].0 == "title";
  }

  // ---------------------------------------------------------------------------
  // update and create
  // ---------------------------------------------------------------------------

  /** A stored category: its attributes and, for sub categories, the category types it belongs
      to. */
  class Category {
    var attrs: map<string, Value>
    var types: set<Value>

    constructor(attrs: map<string, Value>, types: set<Value>)
      ensures this.attrs == attrs && this.types == types
    {
      this.attrs := attrs;
      this.types := types;
    }

    /** `for attr, value in data.items(): setattr(instance, attr, value)` */
    method AssignAll(data: map<string, Value>)
      modifies this
      ensures attrs == old(attrs) + data && types == old(types)
    {
      var todo := data.Keys;
      while todo != {}
        invariant todo <= data.Keys
        invariant attrs == old(attrs) + map k | k in data.Keys - todo :: data[k]
        invariant types == old(types)
        decreases todo
      {
        var k :| k in todo;
        attrs := attrs[k := data[k]];
        todo := todo - {k};
      }
      assert data.Keys - todo == data.Keys;
      assert (map k | k in data.Keys :: data[k]) == data;
    }

    /** The category-type and main-category `update`: every validated attribute is assigned. */
    method Update(data: map<string, Value>)
      modifies this
      ensures attrs == old(attrs) + data && types == old(types)
    {
      AssignAll(data);
    }

    /** The sub-category `update`: `types` is taken out of the data and replaces the category's
        types only when it was sent; every other attribute is assigned. */
    method UpdateSub(data: map<string, Value>)
      requires "types" in data ==> data["types"].List?
      modifies this
      ensures attrs == old(attrs) + (data - {"types"})
      ensures types == if "types" in data then ItemSet(data["types"].items) else old(types)
    {
      var typesData: Option<seq<Value>> := if "types" in data then Some(data["types"].items) else None;
      AssignAll(data - {"types"});
      if typesData.Some? {
        types := ItemSet(typesData.value);
      }
    }
  }

  function ItemSet(items: seq<Value>): set<Value> {
    set i | 0 <= i < |items| :: items[i]
  }

  /** What the sub-category `create` ends with: the new row, or the row together with the
      exception raised after it was written. */
  datatype SubCreated = Created(row: Category) | RaisedAfterInsert(row: Category)

  /** The sub-category `create`: `types` is popped when present, the row is created from the rest,
      and the types are set on it when they are a non-empty list. Without a `types` key the name
      `types_data` is unbound when `if types_data:` reads it, so `create` raises
      `UnboundLocalError` after the row has been written. */
  method CreateSub(data: map<string, Value>) returns (r: SubCreated)
    requires "types" in data ==> data["types"].List?
    ensures fresh(r.row)
    ensures r.row.attrs == data - {"types"}
    ensures r.Created? <==> "types" in data
    ensures r.row.types == if "types" in data then ItemSet(data["types"].items) else {}
  {
    var c := new Category(data - {"types"}, {});
    if "types" !in data {
      return RaisedAfterInsert(c);
    }
    var typesData := data["types"].items;
    if typesData != [] {
      c.types := ItemSet(typesData);
    }
    return Created(c);
  }
}
