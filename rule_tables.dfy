/** The per-entity rule tables the validator interprets, written with the tokens of `RuleTokens`
    and rendered to exactly the strings the tables hold. */
module RuleTables {
  import opened Text
  import opened Values
  import opened Checks
  import opened Validator
  import opened RuleTokens
  import ValidatorLaws

  /** A rule table by the meaning of its tokens. */
  type Rules = seq<(string, seq<Tok>)>

  function RenderTable(t: Rules): (r: Table)
    ensures |r| == |t| && forall i :: 0 <= i < |t| ==> r[i] == (t[i].0, RenderAll(t[i].1))
  {
    seq(|t|, i requires 0 <= i < |t| => (t[i].0, RenderAll(t[i].1)))
  }

  predicate AllWellFormed(toks: seq<Tok>) {
    forall i :: 0 <= i < |toks| ==> WellFormed(toks[i])
  }

  // ---------------------------------------------------------------------------
  // Dict literals
  // ---------------------------------------------------------------------------

  /** Python's `d[k] = v` on an insertion-ordered dict: an existing key keeps its position. */
  function Insert(t: Rules, k: string, toks: seq<Tok>): (r: Rules)
    ensures |r| == |t| || |r| == |t| + 1
    ensures forall i :: 0 <= i < |r| ==> r[i].0 == k || exists j :: 0 <= j < |t| && t[j].0 == r[i].0
    decreases |t|
  {
    if |t| == 0 then [(k, toks)]
    else if t[0].0 == k then [(k, toks)] + t[1..]
    else [t[0]] + Insert(t[1..], k, toks)
  }

  /** A dict display `{k1: v1, k2: v2, ...}`: entries are inserted left to right, so a repeated key
      keeps the position of its first occurrence and the value of its last. */
  function DictLiteral(entries: Rules): Rules
    decreases |entries|
  {
    if |entries| == 0 then []
    else
      var last := entries[|entries| - 1];
      Insert(DictLiteral(entries[..|entries| - 1]), last.0, last.1)
  }

  /** A display that repeats one entry any number of times builds a one-key dict. */
  lemma {:induction false} RepeatedKeyCollapses(entries: Rules, k: string, toks: seq<Tok>)
    requires |entries| >= 1 && forall i :: 0 <= i < |entries| ==> entries[i] == (k, toks)
    ensures DictLiteral(entries) == [(k, toks)]
    decreases |entries|
  {
    var front := entries[..|entries| - 1];
    if |front| >= 1 {
      RepeatedKeyCollapses(front, k, toks);
    }
  }

  // ---------------------------------------------------------------------------
  // From the table to the messages
  // ---------------------------------------------------------------------------

  /** Each field named once, as in any dict. */
  predicate KeysDistinct(t: Rules) {
    forall i, j :: 0 <= i < j < |t| ==> t[i].0 != t[j].0
  }

  /** A token list with `no_html` renders to a rule list with `no_html`, and likewise for
      `required`. */
  lemma RenderedKeywords(toks: seq<Tok>)
    ensures NoHtml in toks ==> NoHtmlTok in RenderAll(toks)
    ensures Required in toks ==> RequiredTok in RenderAll(toks)
  {
    if NoHtml in toks {
      var i :| 0 <= i < |toks| && toks[i] == NoHtml;
      assert RenderAll(toks)[i] == NoHtmlTok;
    }
    if Required in toks {
      var i :| 0 <= i < |toks| && toks[i] == Required;
      assert RenderAll(toks)[i] == RequiredTok;
    }
  }

  /** A field whose cleaned value is not empty and passes `required` is decided by the meanings of
      its tokens alone. */
  lemma FieldByMeaning(f: string, toks: seq<Tok>, data: map<string, Value>, isUpdate: bool, env: Env)
    requires AllWellFormed(toks)
    requires !IsEmpty(CleanedValue(Get(data, f), RenderAll(toks), env.bleach))
    ensures FieldVerdict(f, RenderAll(toks), data, isUpdate, env)
      == ExpectedMessages(f, CleanedValue(Get(data, f), RenderAll(toks), env.bleach), toks, env)
  {
    RenderedMessages(f, CleanedValue(Get(data, f), RenderAll(toks), env.bleach), toks, env);
  }

  /** What a successful call tells about one field of the table: a required field was sent (or,
      on update, left out), a field that was sent comes back cleaned, and every field whose
      cleaned value is not empty meets every one of its tokens. */
  lemma OkField(data: map<string, Value>, t: Rules, i: nat, isUpdate: bool, env: Env)
    requires KeysDistinct(t) && i < |t| && AllWellFormed(t[i].1)
    requires ValidateSpec(data, RenderTable(t), isUpdate, env).Ok?
    ensures Required in t[i].1 && (t[i].0 in data || !isUpdate) ==>
      !IsEmpty(CleanedValue(Get(data, t[i].0), RenderAll(t[i].1), env.bleach))
    ensures t[i].0 in data ==>
      ValidateSpec(data, RenderTable(t), isUpdate, env).cleaned[t[i].0]
        == CleanedValue(Get(data, t[i].0), RenderAll(t[i].1), env.bleach)
    ensures !IsEmpty(CleanedValue(Get(data, t[i].0), RenderAll(t[i].1), env.bleach)) ==>
      ExpectedMessages(t[i].0, CleanedValue(Get(data, t[i].0), RenderAll(t[i].1), env.bleach), t[i].1, env) == Msgs([])
  {
    var r := RenderTable(t);
    ValidatorLaws.OkOnlyWithoutMessages(data, r, isUpdate, env);
    assert FieldVerdict(r[i].0, r[i].1, data, isUpdate, env) == Msgs([]);
    RenderedKeywords(t[i].1);
    RulesForAt(r, i);
    assert r[i].0 in Fields(r);
    var v := CleanedValue(Get(data, t[i].0), RenderAll(t[i].1), env.bleach);
    if !IsEmpty(v) {
      FieldByMeaning(t[i].0, t[i].1, data, isUpdate, env);
    }
  }

  /** The messages are empty exactly when every token holds. */
  lemma {:induction false} ExpectedClean(f: string, v: Value, toks: seq<Tok>, env: Env)
    ensures ExpectedMessages(f, v, toks, env) == Msgs([])
      <==> forall i :: 0 <= i < |toks| ==> Expected(toks[i], f, v, env) == Pass
    decreases |toks|
  {
    if |toks| > 0 {
      ExpectedClean(f, v, toks[1..], env);
      assert forall i :: 1 <= i < |toks| ==> toks[i] == toks[1..][i - 1];
    }
  }

  /** A field crashes exactly when one of its tokens raises. */
  lemma {:induction false} ExpectedCrash(f: string, v: Value, toks: seq<Tok>, env: Env)
    ensures ExpectedMessages(f, v, toks, env) == Crashed
      <==> exists i :: 0 <= i < |toks| && Expected(toks[i], f, v, env) == Raise
    decreases |toks|
  {
    if |toks| > 0 {
      ExpectedCrash(f, v, toks[1..], env);
      assert forall i :: 1 <= i < |toks| ==> toks[i] == toks[1..][i - 1];
      if Expected(toks[0], f, v, env) != Raise {
        match Expected(toks[0], f, v, env) {
          case Pass =>
          case Fail(m) =>
        }
      }
    }
  }

  /** The fields a table marks `required`. */
  function RequiredFields(t: Rules): set<string> {
    set i | 0 <= i < |t| && Required in t[i].1 :: t[i].0
  }

  /** On create, a successful call was given every required field. */
  lemma OkHasRequired(data: map<string, Value>, t: Rules, env: Env)
    requires KeysDistinct(t) && forall i :: 0 <= i < |t| ==> AllWellFormed(t[i].1)
    requires ValidateSpec(data, RenderTable(t), false, env).Ok?
    ensures RequiredFields(t) <= data.Keys
  {
    forall f | f in RequiredFields(t)
      ensures f in data
    {
      var i :| 0 <= i < |t| && Required in t[i].1 && t[i].0 == f;
      OkField(data, t, i, false, env);
    }
  }

  /** Every `min:` of a field is at most every `max:` of it, so some length passes both. */
  predicate BoundsConsistent(toks: seq<Tok>) {
    forall j, k :: 0 <= j < |toks| && 0 <= k < |toks| && toks[j].Min? && toks[k].Max? ==> toks[j].n <= toks[k].n
  }

  predicate TableBoundsConsistent(t: Rules) {
    forall i :: 0 <= i < |t| ==> BoundsConsistent(t[i].1)
  }

  // ---------------------------------------------------------------------------
  // The shapes the tables use
  // ---------------------------------------------------------------------------

  /** `[required, no_html]`: any non-empty value passes; the field is only sanitised. */
  lemma RequiredTextMeaning(f: string, v: Value, toks: seq<Tok>, env: Env)
    requires toks == [Required, NoHtml]
    ensures ExpectedMessages(f, v, toks, env) == Msgs([])
  {
    ExpectedClean(f, v, toks, env);
    assert Expected(toks[0], f, v, env) == Pass && Expected(toks[1], f, v, env) == Pass;
  }

  /** `[min:lo, max:hi, no_html]` on text: a length between the bounds, both included. */
  lemma BoundedMeaning(f: string, v: Value, toks: seq<Tok>, lo: int, hi: int, env: Env)
    requires toks == [Min(lo), Max(hi), NoHtml] && !HasSize(v)
    ensures ExpectedMessages(f, v, toks, env) == Msgs([]) <==> lo <= TextLength(v) <= hi
    ensures ExpectedMessages(f, v, toks, env) != Crashed
  {
    ExpectedClean(f, v, toks, env);
    ExpectedCrash(f, v, toks, env);
  }

  /** `[required, min:lo, max:hi, no_html]` on text: a length between the bounds. */
  lemma RequiredBoundedMeaning(f: string, v: Value, toks: seq<Tok>, lo: int, hi: int, env: Env)
    requires toks == [Required, Min(lo), Max(hi), NoHtml] && !HasSize(v)
    ensures ExpectedMessages(f, v, toks, env) == Msgs([]) <==> lo <= TextLength(v) <= hi
    ensures ExpectedMessages(f, v, toks, env) != Crashed
  {
    BoundedMeaning(f, v, toks[1..], lo, hi, env);
    assert ExpectedMessages(f, v, toks, env) == ExpectedMessages(f, v, toks[1..], env);
  }

  /** `[required, unique, min:lo, max:hi, no_html]` on text: not held by another row, and a
      length between the bounds. */
  lemma UniqueBoundedMeaning(f: string, v: Value, toks: seq<Tok>, lo: int, hi: int, env: Env)
    requires toks == [Required, Unique, Min(lo), Max(hi), NoHtml] && !HasSize(v)
    ensures ExpectedMessages(f, v, toks, env) == Msgs([]) <==> !Clash(env, f, v) && lo <= TextLength(v) <= hi
    ensures ExpectedMessages(f, v, toks, env) != Crashed
  {
    var rest := toks[2..];
    BoundedMeaning(f, v, rest, lo, hi, env);
    assert toks[1..][1..] == rest;
    assert ExpectedMessages(f, v, toks, env) == ExpectedMessages(f, v, toks[1..], env);
  }

  /** The image rule on files: at most 2 MiB and one of the four extensions. Any other non-empty
      value gets the file message and then makes `size:` raise. */
  lemma ImageMeaning(f: string, v: Value, env: Env)
    ensures HasSize(v) ==> (ExpectedMessages(f, v, Image, env) == Msgs([])
      <==> v.size <= 2 * 1048576 && Lower(ExtensionOf(v.name)) in ["jpg", "jpeg", "png", "gif"])
    ensures HasSize(v) ==> ExpectedMessages(f, v, Image, env) != Crashed
    ensures !HasSize(v) ==> ExpectedMessages(f, v, Image, env) == Crashed
  {
    FileRuleMeaning(f, v, 2, ["jpg", "jpeg", "png", "gif"], env);
  }

  /** `[required, email, unique, max:100, no_html]` on text: an address the validator accepts,
      not held by another row, of at most 100 characters. Only the address check can raise. */
  lemma UserEmailMeaning(f: string, v: Value, env: Env)
    requires !HasSize(v)
    ensures ExpectedMessages(f, v, UserEmail, env) == Msgs([])
      <==> env.email(v) == Accepted && !Clash(env, f, v) && TextLength(v) <= 100
    ensures ExpectedMessages(f, v, UserEmail, env) == Crashed <==> env.email(v) == Raised
  {
    ExpectedClean(f, v, UserEmail, env);
    ExpectedCrash(f, v, UserEmail, env);
  }

  /** `[max:500, no_html]` on text: at most 500 characters. */
  lemma BioMeaning(f: string, v: Value, env: Env)
    requires !HasSize(v)
    ensures ExpectedMessages(f, v, Bio, env) == Msgs([]) <==> TextLength(v) <= 500
    ensures ExpectedMessages(f, v, Bio, env) != Crashed
  {
    ExpectedClean(f, v, Bio, env);
    ExpectedCrash(f, v, Bio, env);
  }

  // ---------------------------------------------------------------------------
  // accounts/rules.py
  // ---------------------------------------------------------------------------

  const Username: seq<Tok> := [Required, Unique, Min(3), Max(20), NoHtml]
  const Phone: seq<Tok> := [Required, Unique, Min(10), Max(13), NoHtml]
  const UserEmail: seq<Tok> := [Required, Email, Unique, Max(100), NoHtml]
  const PersonName: seq<Tok> := [Required, Min(2), Max(30), NoHtml]
  const Bio: seq<Tok> := [Max(500), NoHtml]
  /** The image rule shared by users and categories: a file of at most 2 MiB. */
  const Image: seq<Tok> := [Tok.File, Size(2), Extensions(["jpg", "jpeg", "png", "gif"])]

  const UserRules: Rules := [
    ("username", Username),
    ("phone", Phone),
    ("email", UserEmail),
    ("first_name", PersonName),
    ("last_name", PersonName),
    ("bio", Bio),
    ("avatar", Image)
  ]

  /** The user table: distinct fields, consistent bounds, well-formed tokens. */
  lemma UserTable()
    ensures KeysDistinct(UserRules) && TableBoundsConsistent(UserRules)
    ensures forall i :: 0 <= i < |UserRules| ==> AllWellFormed(UserRules[i].1)
  {
  }

  /** Of the user fields, only `bio` and `avatar` are optional. */
  lemma UserRequired()
    ensures RequiredFields(UserRules) == {"username", "phone", "email", "first_name", "last_name"}
  {
    var t := UserRules;
    var want := {"username", "phone", "email", "first_name", "last_name"};
    forall f | f in RequiredFields(t) ensures f in want {
      var i :| 0 <= i < |t| && Required in t[i].1 && t[i].0 == f;
      assert i < 5 by {
        assert Required !in Bio && Required !in Image;
      }
    }
    forall i | 0 <= i < 5 ensures t[i].0 in RequiredFields(t) {
      assert Required == t[i].1[0];
    }
    assert t[0].0 in RequiredFields(t) && t[1].0 in RequiredFields(t) && t[2].0 in RequiredFields(t);
    assert t[3].0 in RequiredFields(t) && t[4].0 in RequiredFields(t);
    assert want <= RequiredFields(t);
  }

  /** A successful validation of a user has a username: on create it was sent, and whenever it
      was sent as text it is free and has 3 to 20 characters after sanitising. */
  lemma OkUserUsername(data: map<string, Value>, isUpdate: bool, env: Env)
    requires ValidateSpec(data, RenderTable(UserRules), isUpdate, env).Ok?
    ensures !isUpdate ==> "username" in data
    ensures "username" in data && !HasSize(data["username"]) ==>
      var u := ValidateSpec(data, RenderTable(UserRules), isUpdate, env).cleaned["username"];
      !Clash(env, "username", u) && 3 <= TextLength(u) <= 20
  {
    UserTable();
    var f := UserRules[0].0;
    OkField(data, UserRules, 0, isUpdate, env);
    var v := CleanedValue(Get(data, f), RenderAll(Username), env.bleach);
    if f in data && !HasSize(data[f]) {
      assert !HasSize(v);
      UniqueBoundedMeaning(f, v, Username, 3, 20, env);
    }
  }

  // ---------------------------------------------------------------------------
  // categories/rules.py
  // ---------------------------------------------------------------------------

  const CategoryTitle: seq<Tok> := [Required, Unique, Min(2), Max(200), NoHtml]
  const TypeDescription: seq<Tok> := [Min(3), Max(500), NoHtml]
  const CategoryDescription: seq<Tok> := [Min(4), Max(500), NoHtml]
  /** `[required, no_html]`: required and sanitised, with no other check. */
  const RequiredText: seq<Tok> := [Required, NoHtml]

  const CategoryTypeRules: Rules := [
    ("title", CategoryTitle),
    ("description", TypeDescription),
    ("image", Image)
  ]

  const MainCategoryRules: Rules := [
    ("title", CategoryTitle),
    ("description", CategoryDescription),
    ("image", Image)
  ]

  const SubCategoryRules: Rules := [
    ("title", CategoryTitle),
    ("description", CategoryDescription),
    ("main_id", RequiredText),
    ("image", Image)
  ]

  lemma CategoryTables()
    ensures KeysDistinct(CategoryTypeRules) && TableBoundsConsistent(CategoryTypeRules)
    ensures KeysDistinct(MainCategoryRules) && TableBoundsConsistent(MainCategoryRules)
    ensures KeysDistinct(SubCategoryRules) && TableBoundsConsistent(SubCategoryRules)
    ensures forall i :: 0 <= i < |SubCategoryRules| ==> AllWellFormed(SubCategoryRules[i].1)
    ensures forall i :: 0 <= i < |MainCategoryRules| ==> AllWellFormed(MainCategoryRules[i].1)
    ensures forall i :: 0 <= i < |CategoryTypeRules| ==> AllWellFormed(CategoryTypeRules[i].1)
  {
    TableShape(CategoryTypeRules);
    TableShape(MainCategoryRules);
    TableShape(SubCategoryRules);
  }

  /** Distinct keys, consistent bounds and well-formed tokens, one category table at a time. */
  lemma TableShape(t: Rules)
    requires t == CategoryTypeRules || t == MainCategoryRules || t == SubCategoryRules
    ensures KeysDistinct(t) && TableBoundsConsistent(t)
    ensures forall i :: 0 <= i < |t| ==> AllWellFormed(t[i].1)
  {
    if t == CategoryTypeRules {
    } else if t == MainCategoryRules {
    } else {
    }
  }

  /** Only `title` is required, except that a sub category also requires `main_id`. */
  lemma CategoryRequired()
    ensures RequiredFields(CategoryTypeRules) == {"title"}
    ensures RequiredFields(MainCategoryRules) == {"title"}
    ensures RequiredFields(SubCategoryRules) == {"title", "main_id"}
  {
    assert Required !in TypeDescription && Required !in CategoryDescription && Required !in Image;
    var t := CategoryTypeRules;
    assert Required == t[0].1[0];
    forall f | f in RequiredFields(t) ensures f == "title" {
      var i :| 0 <= i < |t| && Required in t[i].1 && t[i].0 == f;
      assert i == 0;
    }
    var m := MainCategoryRules;
    assert Required == m[0].1[0];
    forall f | f in RequiredFields(m) ensures f == "title" {
      var i :| 0 <= i < |m| && Required in m[i].1 && m[i].0 == f;
      assert i == 0;
    }
    var u := SubCategoryRules;
    assert Required == u[0].1[0] && Required == u[2].1[0];
    assert u[0].0 in RequiredFields(u) && u[2].0 in RequiredFields(u);
    forall f | f in RequiredFields(u) ensures f == "title" || f == "main_id" {
      var i :| 0 <= i < |u| && Required in u[i].1 && u[i].0 == f;
      assert i == 0 || i == 2;
    }
  }

  // ---------------------------------------------------------------------------
  // properties/rules.py
  // ---------------------------------------------------------------------------

  const PropertyTitle: seq<Tok> := [Required, Min(2), Max(200), NoHtml]
  /** A long optional text: 3 to 2000 characters. */
  const LongDescription: seq<Tok> := [Min(3), Max(2000), NoHtml]
  const Address: seq<Tok> := [Min(2), Max(255), NoHtml]
  const PriceTypeDescription: seq<Tok> := [Required, Min(3), Max(2000), NoHtml]
  const CommentText: seq<Tok> := [Required, Min(2), NoHtml]

  const PropertyRules: Rules := [
    ("title", PropertyTitle),
    ("description", LongDescription),
    ("category_type", RequiredText),
    ("main_category", RequiredText),
    ("sub_category", RequiredText),
    ("city", RequiredText),
    ("address", Address),
    ("area", RequiredText),
    ("price", RequiredText),
    ("price_type", RequiredText)
  ]

  const PriceTypeRules: Rules := [
    ("title", PropertyTitle),
    ("description", PriceTypeDescription)
  ]

  const CommentRules: Rules := [
    ("comment", CommentText)
  ]

  lemma PropertyTables()
    ensures KeysDistinct(PropertyRules) && TableBoundsConsistent(PropertyRules)
    ensures KeysDistinct(PriceTypeRules) && TableBoundsConsistent(PriceTypeRules)
    ensures KeysDistinct(CommentRules) && TableBoundsConsistent(CommentRules)
    ensures forall i :: 0 <= i < |PropertyRules| ==> AllWellFormed(PropertyRules[i].1)
  {
  }

  /** `[required, min:2, no_html]` on text: at least two characters and no upper bound. */
  lemma CommentMeaning(f: string, v: Value, env: Env)
    requires !HasSize(v)
    ensures ExpectedMessages(f, v, CommentText, env) == Msgs([]) <==> 2 <= TextLength(v)
    ensures ExpectedMessages(f, v, CommentText, env) != Crashed
  {
    ExpectedClean(f, v, CommentText, env);
    ExpectedCrash(f, v, CommentText, env);
  }

  /** A property's `area` or `price` sent as a non-zero number is accepted and comes back as the
      sanitised text of the number, because `no_html` prints it with `str()`. */
  lemma NumericPriceBecomesText(data: map<string, Value>, isUpdate: bool, env: Env, i: nat)
    requires i == 7 || i == 8
    requires PropertyRules[i].0 in data && data[PropertyRules[i].0].Num? && data[PropertyRules[i].0].n != 0
    requires ValidateSpec(data, RenderTable(PropertyRules), isUpdate, env).Ok?
    ensures ValidateSpec(data, RenderTable(PropertyRules), isUpdate, env).cleaned[PropertyRules[i].0]
      == Str(Sanitizer.SanitizeText(IntToString(data[PropertyRules[i].0].n), env.bleach))
  {
    assert KeysDistinct(PropertyRules) && PropertyRules[i].1 == RequiredText by { PropertyTables(); }
    NumericRequiredText(data, PropertyRules, i, isUpdate, env);
  }

  /** A `[required, no_html]` field sent as a non-zero number comes back as sanitised text. */
  lemma NumericRequiredText(data: map<string, Value>, t: Rules, i: nat, isUpdate: bool, env: Env)
    requires KeysDistinct(t) && i < |t| && t[i].1 == RequiredText
    requires t[i].0 in data && data[t[i].0].Num? && data[t[i].0].n != 0
    requires ValidateSpec(data, RenderTable(t), isUpdate, env).Ok?
    ensures ValidateSpec(data, RenderTable(t), isUpdate, env).cleaned[t[i].0]
      == Str(Sanitizer.SanitizeText(IntToString(data[t[i].0].n), env.bleach))
  {
    var r := RenderTable(t);
    assert DistinctKeys(r) && r[i] == (t[i].0, RenderAll(RequiredText));
    RulesForAt(r, i);
    assert t[i].0 in Fields(r);
    RequiredTextSanitised();
    ValidatorLaws.OkCleansNumber(data, r, isUpdate, env, t[i].0);
  }

  /** `[required, no_html]` renders with the `no_html` token. */
  lemma RequiredTextSanitised()
    ensures NoHtmlTok in RenderAll(RequiredText)
  {
    assert RenderAll(RequiredText)[1] == Render(NoHtml);
  }

  /** A property's required reference fields accept any non-empty value: the table asks for
      nothing but presence. */
  lemma PropertyReferencesUnchecked(f: string, v: Value, env: Env, i: nat)
    requires 2 <= i <= 9 && i != 6
    ensures PropertyRules[i].1 == RequiredText
    ensures ExpectedMessages(f, v, PropertyRules[i].1, env) == Msgs([])
  {
    RequiredTextMeaning(f, v, RequiredText, env);
  }

  // ---------------------------------------------------------------------------
  // settings_app/rules.py
  // ---------------------------------------------------------------------------

  /** The token `'max:2MB'` as written: its argument is not an integer. */
  const MaxTwoMegabytes: Tok := Raw("max:" + "2MB")
  /** The logo rule: the file check, the malformed `max:`, `size:` in MiB, the extensions. */
  const Logo: seq<Tok> := [Tok.File, MaxTwoMegabytes, Size(1048576), Extensions(["jpg", "jpeg", "png", "gif"])]

  const PlatformRules: Rules := [
    ("title", [Required, Min(3), Max(255), NoHtml]),
    ("description", [Required, Min(10), Max(2000), NoHtml]),
    ("timezone", [Required, Min(2), Max(25), NoHtml]),
    ("currency", [Required, Min(2), Max(10), NoHtml]),
    ("currency_symbol", [Required, Min(1), Max(10), NoHtml]),
    ("dark_logo", Logo),
    ("light_logo", Logo)
  ]

  const Social: seq<Tok> := [Url, Min(3), Max(255), NoHtml]

  /** The display of the media table repeats the key `"facebook"` nine times. */
  const MediaEntries: Rules := seq(9, _ => ("facebook", Social))
  const MediaRules: Rules := DictLiteral(MediaEntries)

  const SeoText: seq<Tok> := [Min(3), Max(255), NoHtml]

  const SeoRules: Rules := [
    ("title", SeoText),
    ("description", LongDescription),
    ("keywords", SeoText),
    ("google_analytics_id", SeoText),
    ("facebook_pixel_id", SeoText),
    ("tiktok_pixel_id", SeoText)
  ]

  const Cors: seq<Tok> := [Min(100), Url, NoHtml]
  const SecurityRules: Rules := [("allowed_cors", Cors)]

  const CityName: seq<Tok> := [Unique, Max(100), Min(2), NoHtml]
  const CityRules: Rules := [("name", CityName)]

  const PhoneNumber: seq<Tok> := [Min(8), Max(13), NoHtml]
  const UserSettingsRules: Rules := [
    ("number_whatsapp", PhoneNumber),
    ("number_vocal", PhoneNumber)
  ]

  lemma SettingsTables()
    ensures KeysDistinct(PlatformRules) && TableBoundsConsistent(PlatformRules)
    ensures KeysDistinct(SeoRules) && TableBoundsConsistent(SeoRules)
    ensures TableBoundsConsistent(SecurityRules) && TableBoundsConsistent(CityRules)
    ensures KeysDistinct(UserSettingsRules) && TableBoundsConsistent(UserSettingsRules)
    ensures RequiredFields(SeoRules) == {}
    ensures RequiredFields(UserSettingsRules) == {} && RequiredFields(CityRules) == {}
  {
    assert Required !in SeoText && Required !in LongDescription && Required !in PhoneNumber;
    assert Required !in CityName;
  }

  /** The nine `"facebook"` entries collapse into one: the media table checks `facebook` alone. */
  lemma MediaHasOneKey()
    ensures MediaRules == [("facebook", Social)]
  {
    RepeatedKeyCollapses(MediaEntries, "facebook", Social);
  }

  /** Every social field other than `facebook` is passed through untouched on success and never
      reported on failure. */
  lemma OtherSocialFieldsUnchecked(data: map<string, Value>, isUpdate: bool, env: Env, k: string)
    requires k != "facebook"
    ensures ValidateSpec(data, RenderTable(MediaRules), isUpdate, env).Ok? && k in data ==>
      ValidateSpec(data, RenderTable(MediaRules), isUpdate, env).cleaned[k] == data[k]
    ensures ValidateSpec(data, RenderTable(MediaRules), isUpdate, env).Invalid? ==>
      k !in ValidateSpec(data, RenderTable(MediaRules), isUpdate, env).errors
  {
    MediaHasOneKey();
    var t := RenderTable(MediaRules);
    assert |t| == 1 && t[0].0 == "facebook";
    assert t[0].0 in Fields(t);
    assert Fields(t) == {"facebook"};
    if ValidateSpec(data, t, isUpdate, env).Ok? {
      ValidatorLaws.OkIsSanitisedInput(data, t, isUpdate, env);
    }
    if ValidateSpec(data, t, isUpdate, env).Invalid? {
      ValidatorLaws.InvalidNamesFailingFields(data, t, isUpdate, env);
    }
  }

  /** `[url, min:3, max:255, no_html]` on text: a URL the validator accepts, of 3 to 255
      characters; only the URL check can raise. */
  lemma SocialMeaning(f: string, v: Value, env: Env)
    requires !HasSize(v)
    ensures ExpectedMessages(f, v, Social, env) == Msgs([])
      <==> env.url(v) == Accepted && 3 <= TextLength(v) <= 255
    ensures ExpectedMessages(f, v, Social, env) == Crashed <==> env.url(v) == Raised
  {
    ExpectedClean(f, v, Social, env);
    ExpectedCrash(f, v, Social, env);
  }

  /** `[min:100, url, no_html]` on text: at least 100 characters and one URL the validator
      accepts. */
  lemma CorsMeaning(f: string, v: Value, env: Env)
    requires !HasSize(v)
    ensures ExpectedMessages(f, v, Cors, env) == Msgs([])
      <==> 100 <= TextLength(v) && env.url(v) == Accepted
    ensures ExpectedMessages(f, v, Cors, env) == Crashed <==> env.url(v) == Raised
  {
    ExpectedClean(f, v, Cors, env);
    ExpectedCrash(f, v, Cors, env);
  }

  /** `[unique, max:100, min:2, no_html]` on text: a city name not held by another city, of 2 to
      100 characters. */
  lemma CityNameMeaning(f: string, v: Value, env: Env)
    requires !HasSize(v)
    ensures ExpectedMessages(f, v, CityName, env) == Msgs([])
      <==> !Clash(env, f, v) && 2 <= TextLength(v) <= 100
    ensures ExpectedMessages(f, v, CityName, env) != Crashed
  {
    ExpectedClean(f, v, CityName, env);
    ExpectedCrash(f, v, CityName, env);
  }

  /** `'max:2MB'` makes every logo crash, a file or not. */
  lemma LogoCrashes(f: string, v: Value, env: Env)
    ensures ExpectedMessages(f, v, Logo, env) == Crashed
  {
    MalformedMaxRaises(f, v, env, "2MB");
    assert Expected(Logo[1], f, v, env) == Raise;
    ExpectedCrash(f, v, Logo, env);
  }

  /** Logos are not sanitised: their rules do not include `no_html`. */
  lemma LogoKeepsItsValue()
    ensures NoHtmlTok !in RenderAll(Logo)
  {
    var r := RenderAll(Logo);
    assert MaxTwoMegabytes.text[0] == 'm';
    forall k | 0 <= k < |r| ensures r[k] != NoHtmlTok {
      RenderNotNoHtml(Logo[k]);
    }
  }

  /** A platform update or create that carries any non-empty logo escapes as an exception,
      whatever else it holds. */
  lemma LogoCrashesPlatform(data: map<string, Value>, isUpdate: bool, env: Env, i: nat)
    requires i == 5 || i == 6
    requires !IsEmpty(Get(data, PlatformRules[i].0))
    ensures ValidateSpec(data, RenderTable(PlatformRules), isUpdate, env) == Crash
  {
    var t := RenderTable(PlatformRules);
    assert t[i] == (PlatformRules[i].0, RenderAll(Logo));
    LogoFieldCrashes(data, t, isUpdate, env, i);
  }

  /** Any table with a logo field raises on a non-empty logo. */
  lemma LogoFieldCrashes(data: map<string, Value>, t: Table, isUpdate: bool, env: Env, i: nat)
    requires i < |t| && t[i].1 == RenderAll(Logo)
    requires !IsEmpty(Get(data, t[i].0))
    ensures ValidateSpec(data, t, isUpdate, env) == Crash
  {
    var f := t[i].0;
    LogoKeepsItsValue();
    var v := Get(data, f);
    assert CleanedValue(v, t[i].1, env.bleach) == v;
    MalformedMaxRaises(f, v, env, "2MB");
    assert t[i].1[1] == "max:" + "2MB";
    ValidatorLaws.RaisingRuleCrashes(data, t, isUpdate, env, i, 1);
  }

  /** `size:1048576` is read in MiB: it admits files of up to 2^40 bytes. */
  lemma LogoSizeCap(f: string, v: Value, env: Env)
    requires HasSize(v)
    ensures Expected(Logo[2], f, v, env).Fail? <==> v.size > 1099511627776
  {
  }
}
