# A verified model of the property platform's rule-driven validation

This project models, in Dafny, the core of a Django back end for a real-estate listing platform.

The centre of the model is `DynamicValidator`. It interprets a per-entity table of rule tokens
(`required`, `no_html`, `min:N`, `max:N`, `size:N`, `extensions:a,b`, `file`, `email`, `url`,
`unique`) over a submitted field map, in two passes:
- a sanitising pass over the `no_html` fields;
- a checking pass that applies each field's rules in table order and collects every failure.

It answers with the cleaned copy of the input, with one aggregated field-to-messages error, or
with an exception that escapes because it is not a validation error. The model proves what
the rule tables of accounts, categories, properties and settings mean once interpreted, quirks
included:
- a dict literal with a repeated key;
- a `max:2MB` whose argument is not an integer;
- a `size:` argument read in MiB.

It also checks the serializer hooks that decide `is_update` and which row `unique` skips.

The smaller cores around it are modelled as well:
- visitor and traffic-source classification and visit counting;
- notification templates and duplicate suppression;
- the settings singletons and helpers;
- the property and chat toggles and seeding;
- like and favourite toggling and list visibility;
- conversation get-or-create and last-message bookkeeping;
- the cached maintenance gate;
- the price filters.

ORM tables are sequences (or maps) held by a class, so state-changing operations are methods
with `modifies` clauses and full post-states. Pure lookups and if-chains are functions. Loops of
the source are `while`/`for` loops with invariants, proved against a specification function.

Foreign code becomes parameters:
- `bleach.clean` and Django's e-mail and URL validators;
- SHA-256, `uuid4`, the IP-to-country lookup;
- Django's `authenticate`, `Decimal(...)` parsing and the rendering of a UUID;
- the current time, as an integer `now`.

Modules, one per source file or component:
- `Text`: Python string primitives.
- `Values`: the Python values the validator sees.
- `Tables`: filtering.
- `Sanitizer`: `_clean_no_html`.
- `Checks`: `_check_required` and the `_validate_*` checkers.
- `Validator`: `validate`.
- `ValidatorLaws`: its properties.
- `RuleTokens`: tokens and their meaning.
- `RuleTables`: the four `rules.py` files.
- `CategorySerializers` and `AccountSerializers`.
- `Visitors`, `SourceAnalysis`, `Notifications`.
- `SettingsModels`, `PropertyModels`, `PropertyViews`, `ChatModels`, `ChatViews`.
- `Maintenance`, `PriceFilters`.

## Model

| member | source | states |
|---|---|---|
| Validator.Validate | utils/validators.py:44-107 | the two loops of `validate` compute exactly `ValidateSpec`: `Crash` when some field raised, otherwise `Invalid` with every field's messages when any field has one, otherwise `Ok` with the sanitised copy of the input |
| Validator.SanitizePass | utils/validators.py:49-57 | the first loop leaves the input with its `no_html` fields sanitised, and records the markup-only message for required fields on create |
| Validator.CheckField | utils/validators.py:61-102 | one iteration of the second loop yields the field's verdict: the required message, nothing for an empty value, or the rule loop's messages, which replace the first-pass message |
| Validator.RuleLoop | utils/validators.py:76-99 | the inner loop collects the message of every failing rule in declaration order, and reports a crash as soon as a rule raises something other than a validation error |
| Validator.CleanedNumber | utils/validators.py:22-35 | a non-zero number under `no_html` is printed with `str()` and sanitised into text |
| ValidatorLaws.OkIsSanitisedInput | utils/validators.py:44-107 | on success the result has exactly the submitted keys; fields outside the table or without `no_html` are unchanged; each `no_html` field is `_clean_no_html` of the value sent: a falsy value or a file comes back as sent, anything else as the stripped, sanitised text of `str(value)` |
| ValidatorLaws.OkCleansNumber | utils/validators.py:52-54 | a successful call returns a non-zero number of a `no_html` field as the sanitised text of `str(n)` |
| ValidatorLaws.InvalidNamesFailingFields | utils/validators.py:101-105 | a failure names only fields of the table, each with the non-empty list of messages it collected |
| ValidatorLaws.OkOnlyWithoutMessages | utils/validators.py:104-107 | validation is all-or-nothing: data comes back only when no field has a message and nothing raised |
| ValidatorLaws.RequiredOnCreateField | utils/validators.py:56-68 | on create a required field empty after sanitising gets `This field is required`, preceded by the markup-only message when the input was only markup, and no other rule is applied |
| ValidatorLaws.AbsentOnUpdateField | utils/validators.py:117-121 | on update a key that was not sent is never checked |
| ValidatorLaws.EmptyOnUpdateField | utils/validators.py:117-121 | on update a required key sent empty gets `This field is required.` and only that |
| ValidatorLaws.OptionalEmptyField | utils/validators.py:70-72 | an optional field that is empty (None, `""`, `[]`) after sanitising has no rule applied, so it can neither fail nor raise |
| ValidatorLaws.RulesDecideField | utils/validators.py:74-102 | a non-empty field that passes `required` is decided by its rule loop alone |
| ValidatorLaws.FieldMessagesReported | utils/validators.py:101-105 | a field that collects messages makes the call fail (or crash), and the failure reports exactly those messages for it |
| ValidatorLaws.SingleFieldDecides | utils/validators.py:61-107 | when every other field is silent, one field decides: success without messages, otherwise failure with exactly its messages |
| ValidatorLaws.MissingRequiredOnCreate | utils/validators.py:122-124 | on create a missing required field makes the call fail with `This field is required` for it, unless something raised |
| ValidatorLaws.AbsentNeverReportedOnUpdate | utils/validators.py:119-121 | on update a field that was not sent never appears among the errors |
| ValidatorLaws.RaisingRuleCrashes | utils/validators.py:80-99 | a rule raising a non-validation exception on a non-empty field makes the whole call crash, whatever the other fields hold |
| Checks.CheckRequired | utils/validators.py:117-125 | a required message exactly when `required` is listed, the value is empty and (on update) the key was sent; its wording depends on the flag |
| Checks.RuleMessagesCrash | utils/validators.py:76-99 | a field crashes exactly when one of its rules raises |
| Checks.RuleMessagesClean | utils/validators.py:76-99 | a field collects no message exactly when every rule passes |
| Checks.RuleMessagesAppend | utils/validators.py:76-99 | the messages of a rule list followed by more rules are those of the first part followed by those of the rest |
| Checks.ParamOfToken | utils/validators.py:135 | `rule.split(":")[1]` of `prefix:arg` is `arg` when the argument has no colon |
| Checks.MaxMalformedRaises | utils/validators.py:134-135 | a `max:` argument that `int()` rejects raises on every value |
| Checks.UniqueExclusionWeakens | utils/validators.py:218-225 | excluding the instance can only remove clashes, never add one |
| Checks.UniqueOwnRow | utils/validators.py:218-225 | whatever else the table holds, a value held only by the instance's own row clashes without the exclusion and passes with it |
| Checks.ExcludedClash | utils/validators.py:218-225 | with an instance excluded, a value clashes exactly when a stored row with another key holds it |
| Checks.ValidateMax | utils/validators.py:134-140 | raises exactly when the argument after `max:` is not an integer; passes exactly when a file's byte size is at most that many KiB, or, for any other value, `len(str(value))` is at most the argument |
| Checks.ValidateMin | utils/validators.py:149-152 | raises exactly when the `min:` argument is not an integer; passes exactly when `len(str(value))` reaches it, files included |
| Checks.ValidateEmail | utils/validators.py:160-162 | passes exactly when Django's `EmailValidator` accepts the value, raises exactly when it raises something other than a validation error, and otherwise fails with `Enter a valid email address.` |
| Checks.ValidateUrl | utils/validators.py:171-173 | passes exactly when `URLValidator` accepts the value, raises exactly when it raises otherwise, and fails with `Enter a valid URL.` |
| Checks.ValidateFile | utils/validators.py:182-184 | never raises; passes exactly for a value with a `size` |
| Checks.ValidateFileSize | utils/validators.py:192-196 | raises exactly when the `size:` argument is not an integer or the value has no `size`; passes exactly for a file of at most that many MiB |
| Checks.ValidateFileExtensions | utils/validators.py:205-209 | raises exactly when the value has no `name`; passes exactly when the lower-cased extension is one of the comma-separated names, compared verbatim |
| Checks.ValidateUnique | utils/validators.py:218-225 | never raises; passes exactly when no stored row other than the excluded instance holds the value, and otherwise fails with `This <field> already exists.` |
| Values.FalsyButNotEmpty | utils/validators.py:71 | 0 and False are falsy but are not empty values, so their rules still apply |
| Values.EmptyIsFalsy | utils/validators.py:52 | every empty value is falsy, so the first pass never sanitises one |
| Text.PyIntOfIntToString | utils/validators.py:135 | `int(str(n)) == n`: a token written from a number is read back as that number |
| Text.Extension | utils/validators.py:207 | `os.path.splitext(name)[1]` is empty or starts with the dot, and has no dot or slash after it |
| Text.ExtensionOfName | utils/validators.py:207 | `base.ext`, with a non-dot character in `base` and a dot-free `ext`, has the extension `.ext` |
| Text.NoDotNoExtension | utils/validators.py:207 | a name without a dot has no extension |
| Text.HiddenFileHasNoExtension | utils/validators.py:207 | a hidden file name such as `.bashrc` has no extension |
| Sanitizer.RemoveLiteral | utils/validators.py:31 | one left-to-right pass removing a case-insensitive literal never lengthens the text and leaves text shorter than the pattern alone |
| Sanitizer.HandlerMatch | utils/validators.py:32 | a match of `on\w+\s*=` at the front is `on`, a non-empty run of word characters, blanks and `=` |
| Sanitizer.RemoveHandlers | utils/validators.py:32 | removing handler patterns never lengthens the text |
| Sanitizer.SanitizeText | utils/validators.py:29-35 | the text `_clean_no_html` builds from `str(value)` is stripped and never longer than the external cleaner's output |
| Sanitizer.CleanNoHtml | utils/validators.py:22-35 | `_clean_no_html` returns falsy values and files unchanged; anything else becomes a stripped string no longer than the cleaner's output |
| Sanitizer.SchemeSurvivesOnePass | utils/validators.py:31 | one pass can reassemble the scheme: `javajavascript:script:` becomes `javascript:` |
| Sanitizer.HandlerPatternCutsWords | utils/validators.py:32 | the handler pattern cuts into ordinary words: `monkey=1` becomes `m1` |
| RuleTokens.DispatchWords | utils/validators.py:77-96 | `required` and `no_html` are skipped; `unique`, `email`, `url` and `file` call their checkers |
| RuleTokens.DispatchMin | utils/validators.py:83-84 | a `min:` token calls `_validate_min` |
| RuleTokens.DispatchMax | utils/validators.py:81-82 | a `max:` token calls `_validate_max` |
| RuleTokens.DispatchSize | utils/validators.py:91-92 | a `size:` token calls `_validate_file_size` |
| RuleTokens.DispatchExtensions | utils/validators.py:93-94 | an `extensions:` token calls `_validate_file_extensions` |
| RuleTokens.TwoMegabytesIsNotAnInteger | utils/validators.py:135 | `int("2MB")` raises |
| RuleTokens.MalformedMaxRaises | utils/validators.py:134-135 | the token `max:2MB` raises on every value |
| RuleTokens.MinMeaning | utils/validators.py:149-152 | `min:N` fails exactly when `len(str(v)) < N` |
| RuleTokens.MaxMeaning | utils/validators.py:134-140 | `max:N` fails when a file exceeds N×1024 bytes, or else when `len(str(v)) > N` |
| RuleTokens.SizeMeaning | utils/validators.py:192-196 | `size:N` fails when a file exceeds N×1024×1024 bytes and raises on a non-file |
| RuleTokens.ExtensionsMeaning | utils/validators.py:205-209 | `extensions:` compares the lower-cased text after the last dot with the listed names verbatim, and raises on a non-file |
| RuleTokens.FileRuleMeaning | utils/validators.py:182-209 | `[file, size:n, extensions:…]` on a file passes exactly within n MiB and with a listed extension, and never raises; on anything else the file message is followed by `size:` raising |
| RuleTokens.TokenMeaning | utils/validators.py:76-99 | the string dispatch of every well-formed token agrees with that token's meaning |
| RuleTokens.RenderedMessages | utils/validators.py:76-99 | the rule loop over a rendered token list collects exactly the messages the tokens' meanings give |
| RuleTables.Insert | settings_app/rules.py:25-35 | Python's `d[k] = v`: a new key goes last, an existing one keeps its place and takes the new value |
| RuleTables.RepeatedKeyCollapses | settings_app/rules.py:25-35 | a dict display repeating one entry builds a one-key dict |
| RuleTables.MediaHasOneKey | settings_app/rules.py:25-35 | the nine `"facebook"` entries of the media table collapse into one |
| RuleTables.OtherSocialFieldsUnchecked | settings_app/rules.py:25-35 | every social field other than `facebook` passes through untouched and is never reported |
| RuleTables.SocialMeaning | settings_app/rules.py:26 | a non-empty text `facebook` passes exactly when the URL validator accepts it and it has 3 to 255 characters |
| RuleTables.RenderedKeywords | utils/validators.py:52 | a token list holding `no_html` or `required` renders to a rule list holding it |
| RuleTables.FieldByMeaning | utils/validators.py:61-102 | a field that is non-empty and passes `required` is decided by the meanings of its tokens |
| RuleTables.OkField | utils/validators.py:44-107 | a success sent every required field (on create), returns each sent field cleaned, and every non-empty field meets all its tokens |
| RuleTables.ExpectedClean | utils/validators.py:76-102 | a field's messages are empty exactly when every token holds |
| RuleTables.ExpectedCrash | utils/validators.py:80-99 | a field crashes exactly when one of its tokens raises |
| RuleTables.OkHasRequired | utils/validators.py:122-124 | on create a success was given every required field of the table |
| RuleTables.RequiredTextMeaning | properties/rules.py:10-17 | `[required, no_html]` accepts every non-empty value |
| RuleTables.BoundedMeaning | categories/rules.py:9 | `[min:lo, max:hi, no_html]` on text passes exactly for lengths from lo to hi |
| RuleTables.RequiredBoundedMeaning | properties/rules.py:8 | `[required, min:lo, max:hi, no_html]` on text passes exactly for lengths from lo to hi |
| RuleTables.UniqueBoundedMeaning | accounts/rules.py:8-9 | `[required, unique, min:lo, max:hi, no_html]` on text passes exactly for a free value of length lo to hi |
| RuleTables.ImageMeaning | accounts/rules.py:16 | the image rule passes a file of at most 2 MiB with extension jpg, jpeg, png or gif; any other non-empty value fails the file check and then raises |
| RuleTables.UserEmailMeaning | accounts/rules.py:10 | `email` passes exactly for an accepted, free address of at most 100 characters; only the address check can raise |
| RuleTables.BioMeaning | accounts/rules.py:15 | `bio` passes exactly for at most 500 characters |
| RuleTables.UserTable | accounts/rules.py:7-18 | the user table has distinct fields, well-formed tokens, and min ≤ max wherever both appear |
| RuleTables.UserRequired | accounts/rules.py:7-18 | the required user fields are exactly username, phone, email, first_name and last_name |
| RuleTables.OkUserUsername | accounts/rules.py:8 | a successful user validation had a username on create, and a text username is free and has 3 to 20 characters |
| RuleTables.CategoryTables | categories/rules.py:7-35 | each category table has distinct fields, well-formed tokens, and min ≤ max wherever both appear |
| RuleTables.TableShape | categories/rules.py:7-35 | the same three facts, one category table at a time |
| RuleTables.CategoryRequired | categories/rules.py:7-35 | only `title` is required, except that sub categories also require `main_id` |
| RuleTables.PropertyTables | properties/rules.py:7-35 | the property, price-type and comment tables have distinct fields and min ≤ max wherever both appear |
| RuleTables.CommentMeaning | properties/rules.py:34 | a comment passes exactly with at least 2 characters, with no upper bound, and never raises |
| RuleTables.NumericPriceBecomesText | properties/rules.py:15-16 | a non-zero numeric `area` or `price` is accepted and comes back as the sanitised text of the number |
| RuleTables.NumericRequiredText | properties/rules.py:10-17 | any `[required, no_html]` field sent as a non-zero number comes back as sanitised text |
| RuleTables.RequiredTextSanitised | properties/rules.py:10-17 | `[required, no_html]` carries `no_html` |
| RuleTables.PropertyReferencesUnchecked | properties/rules.py:10-17 | the reference, area, price and price-type fields ask for nothing but presence |
| RuleTables.SettingsTables | settings_app/rules.py:7-81 | the platform, SEO, security, city and user-settings tables have consistent bounds; no SEO, city or user-settings field is required |
| RuleTables.CorsMeaning | settings_app/rules.py:59 | a non-empty `allowed_cors` passes exactly with at least 100 characters and one accepted URL |
| RuleTables.CityNameMeaning | settings_app/rules.py:69 | a city name passes exactly when free and of 2 to 100 characters, and never raises |
| RuleTables.LogoCrashes | settings_app/rules.py:15-16 | the logo rule crashes on every value because of `max:2MB` |
| RuleTables.LogoKeepsItsValue | settings_app/rules.py:15-16 | logos are not sanitised: the rule has no `no_html` |
| RuleTables.LogoCrashesPlatform | settings_app/rules.py:15-16 | any non-empty `dark_logo` or `light_logo` makes platform validation raise, whatever else is sent |
| RuleTables.LogoFieldCrashes | settings_app/rules.py:15-16 | any table with a logo field raises on a non-empty logo |
| RuleTables.LogoSizeCap | settings_app/rules.py:15-16 | `size:1048576` is read in MiB, so it admits files of up to 2^40 bytes |
| CategorySerializers.WiringDiffers | categories/serializers.py:39-43 | every hook sets `is_update` to "an instance is present", and only the main-category hook on update departs from excluding the instance |
| CategorySerializers.WiringAsWritten | categories/serializers.py:39-43 | the hooks as written: `is_update` is set exactly when there is an instance; the main-category hook (categories/serializers.py:90) excludes no instance, the other two exclude it |
| CategorySerializers.WiringIntended | categories/serializers.py:136-143 | the wiring the type and sub-category hooks use: `is_update` exactly with an instance, and that instance excluded |
| CategorySerializers.ToInternalValue | categories/serializers.py:89-96 | an accepted payload comes back with exactly the keys sent; on create it was sent a `title`, and a sub category also a `main_id` |
| CategorySerializers.TitleMessages | categories/rules.py:8 | a title of 2 to 200 characters fails with the uniqueness message alone exactly when another row holds it |
| CategorySerializers.OnlyTitleDecides | categories/serializers.py:91-93 | an update sending only `title` leaves every other category field silent |
| CategorySerializers.TitleFirst | categories/rules.py:8 | every category table starts with the title rule |
| CategorySerializers.OwnTitleVerdict | categories/serializers.py:136-143 | a resent own title is accepted when its row is excluded and refused as taken otherwise |
| CategorySerializers.TitleFieldVerdict | categories/serializers.py:136-143 | the same, for the title field's verdict itself |
| CategorySerializers.TitleExpected | categories/rules.py:8 | the title tokens on the resent title clash exactly unless the own row is excluded |
| CategorySerializers.TitleValue | categories/rules.py:8 | the resent title cleans to the stored one |
| CategorySerializers.TitleClash | utils/validators.py:218-225 | in a table of any size, a title held only by its own row clashes with itself unless that row is the excluded instance |
| CategorySerializers.MainTitleCollidesWithItself | categories/serializers.py:89-96 | as written, updating a main category with its unchanged title fails with `This title already exists.` |
| CategorySerializers.OwnTitleAccepted | categories/serializers.py:39-46 | with the instance excluded, every category kind accepts its own unchanged title on update |
| CategorySerializers.OthersAcceptOwnTitle | categories/serializers.py:136-143 | category types and sub categories, as written, accept their own unchanged title |
| CategorySerializers.OutcomeOfOwnTitle | categories/serializers.py:39-46 | the whole outcome of resending the own title: accepted when the row is excluded, otherwise one uniqueness error and nothing more |
| CategorySerializers.Category.AssignAll | categories/serializers.py:55-56 | the `setattr` loop assigns every validated attribute and only those |
| CategorySerializers.Category.Update | categories/serializers.py:51-59 | category-type and main-category `update` assign every validated attribute |
| CategorySerializers.Category.UpdateSub | categories/serializers.py:161-175 | sub-category `update` assigns every attribute but `types`, and replaces `types` only when it was sent |
| CategorySerializers.CreateSub | categories/serializers.py:151-157 | sub-category `create` always writes a new row with the attributes other than `types`; with a `types` key it sets a non-empty list of types and returns the row, and without one it raises `UnboundLocalError` after the row is written (the declared `type_ids` field, categories/serializers.py:118, is required, so a create through the serializer always carries `types`) |
| AccountSerializers.OwnUsernameNotTaken | accounts/serializers.py:49-53 | whatever other users the table holds, with the instance passed the user's own username is not a clash; without it, it is |
| AccountSerializers.ToInternalValue | accounts/serializers.py:49-57 | an accepted payload comes back with exactly the keys sent; on create it holds every required user field; an accepted username has 3 to 20 characters and no other user holds it, the own row excluded on update |
| AccountSerializers.CheckPasswords | accounts/serializers.py:68-72 | the error is on `confirm_password`; no password field passes; otherwise `data.get` of both must agree |
| AccountSerializers.CollectPermissions | accounts/serializers.py:99-101 | the loop collects exactly the union of the groups' permissions |
| AccountSerializers.CollectedPermission | accounts/serializers.py:99-101 | a codename is collected exactly when some group holds it |
| AccountSerializers.AdminUser.GetPermissions | accounts/serializers.py:98-104 | the permissions of the user's groups together with its direct permissions, each once |
| AccountSerializers.AdminUser.Update | accounts/serializers.py:151-178 | the password fields are discarded and the rest assigned; sent groups replace the groups and make the direct permissions exactly theirs; otherwise both are untouched |
| AccountSerializers.Create | accounts/serializers.py:112-142 | `create_user` with the listed defaults, storing the normalised address and `make_password` of the password, and raising when a mandatory key is missing, the username is falsy (`_create_user`'s `ValueError`) or the address cannot be normalised; the new user's groups are the given ones and its permissions exactly theirs, none without groups |
| AccountSerializers.CreateAttrs | accounts/serializers.py:116-127 | the attributes `create_user` stores: `make_password` of the password, the normalised address, `is_superuser` false, and every other key it reads as validated |
| AccountSerializers.NormalizeEmail | accounts/serializers.py:116-118 | `create_user`'s address normalisation: a falsy address is `""`, text without `@` is kept as sent, a truthy non-text value raises, and the result is always text |
| AccountSerializers.NormalizeEmailTwice | accounts/serializers.py:116-118 | normalising is idempotent: the stripped name with its lower-cased domain normalises to itself |
| AccountSerializers.LoginSucceeds | accounts/serializers.py:193-214 | login succeeds exactly for sent credentials of an active, unblocked, authenticated account, and yields that account |
| AccountSerializers.LoginOrder | accounts/serializers.py:197-211 | missing or wrong credentials are reported first, then deactivation, then blocking, for any authentication backend (with Django's default `ModelBackend` an inactive user is never returned, so only the credentials error occurs for one) |
| AccountSerializers.Login | accounts/serializers.py:193-214 | a success carries the user the backend returned; every failure is one of the three messages; missing credentials give the credentials error |
| Visitors.CleanReferrer | visitors/managers.py:96-99 | an empty referrer is `"direct"`; otherwise the stripped text before the first `?`, which holds no `?` |
| Visitors.QueryDropped | visitors/managers.py:96-99 | a query string is dropped whatever it holds; a referrer that is only a query string gives `""` |
| Visitors.ClientIp | visitors/managers.py:119-123 | the forwarded header's text before its first comma, or else `REMOTE_ADDR`, defaulting to `0.0.0.0` |
| Visitors.FirstForwardedAddress | visitors/managers.py:119-123 | the first forwarded address is taken verbatim, blanks included |
| Visitors.DeviceType | visitors/managers.py:128-137 | always one of Unknown, Mobile, Tablet, Desktop; Unknown exactly for an empty agent |
| Visitors.MobileBeforeTablet | visitors/managers.py:128-137 | an agent naming both mobile and tablet is Mobile |
| Visitors.Browser | visitors/managers.py:157-172 | `'null'` for an empty agent, and otherwise one of the five names or `'null'` |
| Visitors.ChromeAndEdgIsEdge | visitors/managers.py:157-172 | an agent naming Chrome and Edg but not Firefox is Edge |
| Visitors.ChromeShadowsOthers | visitors/managers.py:157-172 | an agent naming Chrome but not Edg is Chrome, whatever else it names |
| Visitors.HashInput | visitors/managers.py:89-91 | the digested text is the three parts joined with `-` |
| Visitors.HashInputAmbiguous | visitors/managers.py:89-91 | moving a `-` between two parts gives the same digest input, so different visitors can share a key |
| Visitors.VisitorKey | visitors/managers.py:24-26 | a non-empty cookie key is reused; otherwise the digest of the request |
| Visitors.Backfill | visitors/managers.py:45-56 | `last_visit` becomes now, blank ip, agent, country and browser are filled in, filled ones are kept, `device_type` is untouched |
| Visitors.NewVisitKeepsSpacing | visitors/managers.py:62-71 | recording a visit only when none is recent keeps any two visits of a visitor more than a day apart |
| Visitors.RecentWithinDay | visitors/managers.py:104-114 | a visit stays recent for 24 hours |
| Visitors.SecondRequestWithinDay | visitors/managers.py:62-71 | a second request within the day records no visit; one more than a day later does |
| Visitors.UuidOfText | visitors/managers.py:30-32 | the `UUIDField` lookup conversion of `key=visitor_key`: a hex body (prefixes, braces and dashes removed) other than 32 characters raises; an accepted text gives 32 lower-case hex digits |
| Visitors.DigestIsNotUuid | visitors/managers.py:24-32 | a 64-digit SHA-256 hex digest is refused by the `UUIDField` conversion |
| Visitors.UuidRoundTrip | visitors/managers.py:80 | the hyphenated lower-case text of a stored UUID, which `str(visitor.key)` gives for a visitor read from the table, converts back to the same UUID |
| Visitors.CookieLessRequestRaises | visitors/managers.py:24-32 | a request without a `visitor_hash` cookie has its digest as key, which the lookup refuses |
| Visitors.VisitorStore.RecordUnder | visitors/managers.py:30-83 | for an accepted key: get-or-create of the visitor with the defaults, then the backfill, then one visit row exactly when none was recent, keeping visits a day apart |
| Visitors.VisitorStore.RecordVisitAsWritten | visitors/managers.py:12-83 | when the key (the cookie, or else the digest) is not a UUID the call raises and nothing is written; otherwise the visit is recorded under the UUID; `visitor_key` is the key text as sent for a newly created visitor (`Model.__init__` does not convert it) and the hyphenated UUID for a stored one, and either way converts back to the same UUID, so a client echoing it as the cookie finds the same visitor |
| Visitors.VisitorStore.RecordVisit | visitors/managers.py:12-83 | with a key column holding the visitor key as derived, every request is recorded under that key: get-or-create with the defaults, the backfill, one visit row exactly when none was recent |
| SourceAnalysis.MainSource | analytics/views.py:171-197 | a missing or empty referrer, or one mentioning "direct", is direct; otherwise a source of the map or `other` |
| SourceAnalysis.FirstMatch | analytics/views.py:193-195 | none exactly when no listed domain occurs; otherwise the value of the first entry whose domain occurs |
| SourceAnalysis.FirstMatchAt | analytics/views.py:193-195 | the first occurring domain in declaration order decides |
| SourceAnalysis.MainSourceByDomain | analytics/views.py:176-195 | a referrer without "direct" is classified by the first listed domain it contains |
| SourceAnalysis.MainSourceOther | analytics/views.py:197 | a referrer without "direct" and without a listed domain is `other` |
| SourceAnalysis.DropboxIsTwitter | analytics/views.py:179-195 | `dropbox.com` is Twitter, because domains match as substrings and it contains `x.com` |
| SourceAnalysis.SubSource | analytics/views.py:199-245 | each main source yields one of its own sub sources; a source other than Facebook, Google, Instagram and TikTok yields `general` |
| SourceAnalysis.FacebookSubSource | analytics/views.py:203-215 | on Facebook `/ads/` or `utm_campaign=` gives `ads` before all other markers, and no marker gives `posts` |
| SourceAnalysis.SourceDomain | analytics/views.py:261-274 | a listed name gets its domain and any other name comes back unchanged |
| SourceAnalysis.DomainListed | analytics/views.py:261-274 | every domain of the reverse map is the first domain the forward map pairs with that name |
| SourceAnalysis.TallyMeaning | analytics/views.py:147-149 | the counter built by counting a list holds each label once with its number of occurrences, and its counts sum to the list's length |
| SourceAnalysis.BumpLaws | analytics/views.py:147-149 | one increment adds one to the label's count, changes no other count and keeps labels distinct |
| SourceAnalysis.EntriesCount | analytics/views.py:134-149 | the sources are distinct, their totals sum to the number of visits, each total is that source's number of visits and equals the sum of its sub counts |
| SourceAnalysis.SortDesc | analytics/views.py:168 | sorted by descending total, a permutation of its input |
| SourceAnalysis.InsertDesc | analytics/views.py:168 | inserting into a descending list keeps it descending and adds exactly the one entry |
| SourceAnalysis.AnalysisCounts | analytics/views.py:130-169 | the result is sorted by descending total, totals sum to the number of visits, each sub count sums to its total, and every visit's source is listed |
| SourceAnalysis.CountVisit | analytics/views.py:138-149 | one loop iteration updates the nested counters as `Counted` says |
| SourceAnalysis.Counted | analytics/views.py:138-149 | the list grows by one entry exactly when the main source is new |
| SourceAnalysis.AnalyzeMainSources | analytics/views.py:130-169 | null referrers make the method raise; otherwise the result is the sorted per-source entries of the classified visits |
| Notifications.GenerateMessage | notifications/managers.py:9-24 | the template of a known type with the rendered user, item name and action, or the default template |
| Notifications.MessageOfFields | notifications/managers.py:9-24 | the message depends only on the type and the three rendered values |
| Notifications.UnknownTypeIsDefault | notifications/managers.py:21-24 | an unknown type gets `You have a new notification from {user}` |
| Notifications.MissingKeysDefault | notifications/managers.py:10-12 | a missing `user` renders as `Someone` and a missing `item_name` or `action` as `""`; a key present with None prints `None` |
| Notifications.BlockSharesUnblockTemplate | notifications/managers.py:19-20 | block and unblock share one template; only the action word differs |
| Notifications.TemplateInputs | notifications/managers.py:14-22 | only the block templates read the action, and the message and default templates read only the user |
| Notifications.AdminMessage | notifications/managers.py:65-69 | the block and unblock notifications name the item and the action word |
| Notifications.AppendKeepsSpacing | notifications/managers.py:46-62 | appending only when no recent duplicate exists keeps identical deduplicated notifications more than a day apart |
| Notifications.RepeatWithinDay | notifications/managers.py:50-62 | a second like within a day is suppressed, one more than a day later is not |
| Notifications.NotificationStore.HasRecentDuplicate | notifications/managers.py:52-59 | true exactly when a notification with the same five keys exists from the last 24 hours |
| Notifications.NotificationStore.CreateNotification | notifications/managers.py:34-85 | nothing for oneself; nothing for a like or favorite of a named item repeated within 24 hours; otherwise exactly one new unread notification with the generated message |
| SettingsModels.CleanOrigins | settings_app/models.py:310 | the stripped, non-blank pieces in their order |
| SettingsModels.CleanOriginsNoComma | settings_app/models.py:310 | stripped pieces of a comma split hold no comma |
| SettingsModels.AllowedCorsList | settings_app/models.py:308-311 | an empty or missing value gives `[]`; otherwise the stripped non-blank comma-separated origins |
| SettingsModels.CleanPadded | settings_app/models.py:310 | origins padded with blanks come back stripped, in order |
| SettingsModels.CorsRoundTrip | settings_app/models.py:308-311 | writing origins with commas and blanks and reading them back gives the origins |
| SettingsModels.BlankOriginsDropped | settings_app/models.py:310 | blank entries, such as a trailing comma's, are dropped |
| SettingsModels.Platforms | settings_app/models.py:143-152 | the eight platforms in their fixed order, each with its field |
| SettingsModels.GetActiveSocialMedia | settings_app/models.py:141-163 | the loop lists one entry per platform with a truthy URL, in platform order |
| SettingsModels.ActiveSocialMedia | settings_app/models.py:154-161 | at most eight entries, each with its platform's id and name, its non-empty URL and `fab fa-` plus the id; a platform is listed exactly when its URL is truthy |
| SettingsModels.AllLinksListed | settings_app/models.py:141-163 | with every link set, all eight platforms are listed, Facebook first and YouTube last |
| SettingsModels.City.ToggleStatus | settings_app/models.py:200-203 | flips `status` and returns the new value |
| SettingsModels.ToggleTwice | settings_app/models.py:200-203 | two toggles restore the status |
| SettingsModels.SettingsTable.Save | settings_app/models.py:47-52 | the guard gives a key-less instance the first row's key when a row exists; then a new instance is always inserted and raises `IntegrityError` when its key is taken, while a loaded one updates the row with its key or is inserted when none has it; keys stay unique |
| SettingsModels.SettingsTable.GetSettings | settings_app/models.py:59-73 | the first row when one exists, unchanged table; otherwise one new row with the defaults |
| SettingsModels.SettingsTable.Find | settings_app/models.py:52 | the lookup by primary key that `Model.save` does: a position holding the key, or none when no row has it |
| SettingsModels.SaveKeepsOneRow | settings_app/models.py:47-52 | a row loaded from the table and saved with its key cleared overwrites the single row, so the table does not grow |
| SettingsModels.NewInstanceSave | settings_app/models.py:47-52 | a new instance saved while a row exists keeps its default key, skips the guard and becomes a second row; one with its key cleared takes the first row's key and raises `IntegrityError` |
| SettingsModels.GetSettingsTwice | settings_app/models.py:59-73 | a second call returns the row the first call returned and changes nothing |
| SettingsModels.DefaultSocialLinksAllActive | settings_app/models.py:121-135 | the default social row lists all eight platforms |
| PropertyModels.DefaultPriceTypesValid | properties/models.py:52-70 | the nine default types are active, have descriptions, fit the 50-character name and have distinct names |
| PropertyModels.ImagePathComponents | properties/models.py:179-184 | the path is `properties`, `images`, the property id (or `unknown`, a branch Django never reaches because the property key is not nullable) and the uuid followed by the original extension |
| PropertyModels.ImageUploadPath | properties/models.py:179-184 | the path starts with `properties/images/` and ends with the fresh uuid followed by the uploaded file's extension |
| PropertyModels.PropertyStore.ChangeStatus | properties/models.py:149-152 | flips only the status of the property and returns it |
| PropertyModels.PropertyStore.ChangeBlocked | properties/models.py:162-165 | flips only the blocking flag, status untouched |
| PropertyModels.PropertyStore.ToggleCommentStatus | properties/models.py:245-248 | flips the comment's status and returns the new value |
| PropertyModels.PropertyStore.DefaultTypes | properties/models.py:52-70 | on an empty table creates the nine types in order and answers true; otherwise creates nothing and answers false |
| PropertyModels.ChangeStatusTwice | properties/models.py:149-152 | two status changes restore the properties |
| PropertyModels.ChangeBlockedTwice | properties/models.py:162-165 | two blocking changes restore the properties |
| PropertyModels.ToggleCommentTwice | properties/models.py:245-248 | two comment toggles return opposite values and restore the status |
| PropertyModels.DefaultTypesTwice | properties/models.py:52-70 | a second seeding creates nothing and answers false |
| PropertyViews.Toggled | properties/views.py:256-261 | a member is removed and a non-member added, and nobody else changes |
| PropertyViews.ToggledTwice | properties/views.py:256-261 | toggling the same user twice restores the relation |
| PropertyViews.PropertyIndex | properties/views.py:228-231 | `get_object_or_404`: the first property with the key, or none for the 404 answer |
| PropertyViews.ToggleRelation | properties/views.py:228-276 | an unknown key gets the 404 answer with nothing changed; otherwise a member is removed with status false, a non-member added with status true and the owner notified; the count is the relation's size afterwards |
| PropertyViews.ToggleTwice | properties/views.py:256-275 | two toggles restore the membership and, for a known key, report opposite statuses |
| PropertyViews.AdminBlock | properties/views.py:416-441 | an unknown key gets the 404 answer with nothing changed; otherwise the flag flips and the owner gets `block`/`blocked` when now blocked and `unblock`/`unblocked` otherwise |
| PropertyViews.PublicProperties | properties/views.py:127-128 | exactly the active, unblocked properties |
| PropertyViews.FavoriteProperties | properties/views.py:175-176 | exactly the user's favorites that are active and unblocked |
| PropertyViews.UserPropertiesAsWritten | properties/views.py:153-158 | as written, text is compared with a UUID, so every requester gets only the public properties of the user |
| PropertyViews.OwnerMissesInactiveProperty | properties/views.py:155 | as written, not even the owner sees their own inactive property |
| PropertyViews.UserProperties | properties/views.py:153-158 | as intended: the owner sees all of their properties, anyone else only the public ones |
| PropertyViews.VisibilityAgrees | properties/views.py:153-176 | a visitor sees that user's part of the public list, and favorites lists are part of it too |
| ChatModels.UserConversations | chats/models.py:47-49 | exactly the conversations where the user is sender or receiver |
| ChatModels.Insert | chats/models.py:109 | insertion keeps the order by creation time and adds exactly the message |
| ChatModels.SortByCreation | chats/models.py:109 | sorted by creation time, a permutation of its input |
| ChatModels.Earliest | chats/models.py:109 | `order_by('created_at')[:limit]`: the earliest `limit` messages in ascending order, each at most as often as it occurs, all of them when fewer, and none left out earlier than one returned |
| ChatModels.ConversationMessages | chats/models.py:107-109 | the earliest `limit` (default 50) of the conversation's messages in ascending creation order, all of them when fewer, none left out earlier than one returned |
| ChatModels.MessagePathComponents | chats/models.py:64-68 | the path is `messages`, the conversation id and the uuid followed by the original extension |
| ChatModels.MessageUploadPath | chats/models.py:64-68 | the path starts with `messages/` and ends with the fresh uuid followed by the uploaded file's extension |
| ChatModels.ChatStore.ToggleBlock | chats/models.py:39-42 | flips `is_blocked`, returns the new value and ignores the user |
| ChatModels.ChatStore.MarkAsRead | chats/models.py:102-105 | the message becomes read, whatever it was |
| ChatModels.MarkAsReadTwice | chats/models.py:102-105 | marking twice is marking once |
| ChatModels.ToggleBlockTwice | chats/models.py:39-42 | two toggles, by anyone, restore the flag and return opposite values |
| ChatViews.FindBetween | chats/views.py:80-83 | a conversation between the two users in either direction, or none when there is none; under one conversation per pair it is the only one, so the `-date_last_message` order `.first()` follows does not change it |
| ChatViews.OnlyOneBetween | chats/views.py:80-83 | under one conversation per pair, a pair of users has at most one conversation |
| ChatViews.GetOrCreate | chats/views.py:65-93 | 400 without `user_id`, 404 for an unknown user, 400 for oneself; an existing conversation of the pair is returned unchanged; otherwise exactly one is created with the requester as sender, keeping one conversation per pair |
| ChatViews.Preview | chats/views.py:199 | the first 100 characters of the text, or `Image` without text |
| ChatViews.MessageBetweenParticipants | chats/views.py:191-196 | a participant's message goes to the other participant |
| ChatViews.OutsiderPosts | chats/views.py:184-201 | as written, an outsider's message is stored and addressed to the conversation's sender |
| ChatViews.FindConversation | chats/views.py:188 | the conversation with the given key, or none |
| ChatViews.PostMessage | chats/views.py:184-201 | as written: 404 for an unknown conversation; otherwise the message is stored for the other party and the conversation's preview and date are updated |
| ChatViews.PostAsParticipant | chats/views.py:178-201 | with the participation check: an outsider is refused and nothing changes; a participant's message is stored as above |
| ChatViews.ToggleBlockView | chats/views.py:120-128 | a participant flips the flag, and `blocked_by` is the requester when now blocked and none otherwise; others are refused |
| ChatViews.ConversationList | chats/views.py:32-36 | exactly the user's conversations that have a last message |
| ChatViews.ListedAfterMessage | chats/views.py:35 | a new conversation is listed for neither party, and after a message it is listed for both |
| Maintenance.PlatformSettingsIsApi | middleware/maintenance.py:20-22 | every platform-settings path is an API path |
| Maintenance.MaintenanceMiddleware.CheckMaintenanceMode | middleware/maintenance.py:33-43 | a cached mode is returned unread; otherwise the stored mode is read and cached; a failed read answers false and caches nothing |
| Maintenance.MaintenanceMiddleware.Call | middleware/maintenance.py:18-31 | non-API and platform-settings paths pass without reading the mode; other API paths get the 503 body exactly when the mode is on |
| Maintenance.StaleAfterFirstRead | middleware/maintenance.py:36-40 | once read, later changes of the stored mode are not seen by the same instance |
| Maintenance.RetryAfterFailedRead | middleware/maintenance.py:42-43 | after a failed read the request passes and the next request reads again |
| PriceFilters.BoundFilter | properties/filters.py:23-29 | a `gte`/`lte` bound keeps exactly the rows on the right side of the value |
| PriceFilters.BoundsInclusive | properties/filters.py:23-29 | a row whose column equals the value passes both bounds |
| PriceFilters.ParseRangeAsWritten | properties/filters.py:111-117 | a value without `-` is unfiltered; a range or a crash only comes from exactly two pieces joined by `-` |
| PriceFilters.RangeOfTwoHalves | properties/filters.py:113-116 | `a-b` with dash-free halves is the range of the stripped, parsed halves, or the escaping exception when one does not parse |
| PriceFilters.TwoDashesUnfiltered | properties/filters.py:113-119 | a value with two dashes fails the unpacking, which is caught, so nothing is filtered |
| PriceFilters.FilterPriceRangeAsWritten | properties/filters.py:109-119 | as written, raises exactly when a half does not parse; otherwise agrees with the corrected filter |
| PriceFilters.MissingLowerBoundRaises | properties/filters.py:113-117 | as written, `-5000` makes the filter raise; the corrected filter leaves the list unchanged |
| PriceFilters.FilterPriceRange | properties/filters.py:109-119 | a parsed range keeps exactly the rows with lo ≤ price ≤ hi; anything else leaves the list unchanged |
| PriceFilters.ReversedRangeEmpty | properties/filters.py:116 | a range with lo > hi keeps nothing |
| PriceFilters.RangeIsTwoBounds | properties/filters.py:116 | a range is the `min_price` bound followed by the `max_price` bound |

## Left out

- `bleach.clean`, Django's `EmailValidator` and `URLValidator`: foreign code, modelled as parameters. An address or URL validator that raises something other than a validation error is a crash.
- Sanitizer: the model does not claim that the output is free of `javascript:`, `on…=` or `data-`, nor that sanitising is idempotent. The removals are single passes; `SchemeSurvivesOnePass` and `HandlerPatternCutsWords` show what they let through.
- Values: numbers are modelled as integers only. A JSON float such as `1500.5` has no case, so what `len(str(value))` (`min:`/`max:`) and `_clean_no_html` do with its `str()` is not modelled.
- Text: lower-casing, `\w`, `\s` and `strip()` are modelled on ASCII (plus the C0 information separators U+001C–U+001F for `strip`); Unicode case folding and Unicode digits are not modelled.
- Text.Extension: only what `_validate_file_extensions` and the upload paths need from `os.path.splitext` (POSIX rules, last dot of the last component) is modelled.
- Checks: the `unique` check is a read of an in-memory table; the race between that read and the later write is not modelled.
- Checks: an `AttributeError` from a non-file under `size:` or `extensions:`, a `ValueError` from a non-integer argument, and any other non-validation exception are all the one `Crash` outcome. Their messages are not modelled.
- Validator.Validate: requires distinct field names in the table. A Python dict has them by construction, and duplicate keys of a dict display are modelled separately by `RuleTables.DictLiteral`.
- CategorySerializers and AccountSerializers: the model serializer's own field conversion after the validator (`super().to_internal_value`) and `handle_file_update`'s file deletion are not modelled.
- AccountSerializers.Create: the `groups` list arrives as a separate parameter, since the model does not pop it from the validated data.
- AccountSerializers.Create: `make_password` is a parameter. `normalize_username` (Unicode NFKC) is not modelled, so the username is stored as sent.
- AccountSerializers.LoginOrder: `authenticate` is a parameter standing for any backend; the deactivation answer needs a backend that returns inactive users, such as `AllowAllUsersModelBackend`.
- AccountSerializers.AdminUser.GetPermissions: returns a set; the order of the returned list is not modelled.
- SourceAnalysis.AnalyzeMainSources: percentages and `round()` (lines 155, 163 and `analyze_source_referrers`) are floating point and are left out; the entries keep totals and sub-source counters.
- SourceAnalysis.SourceDomain: stated as a lookup plus `DomainListed`, the agreement of the reverse map with `sources_map`.
- The conversion rates and other statistics of the analytics views, and the views that only format responses, are not modelled.
- Visitors.VisitorStore.RecordVisitAsWritten: SHA-256 and the IP-to-country HTTP call are parameters. The response dict is modelled by its flags and `visitor_key` only. The `ValidationError` escapes `TrackVisitAPIView`; the error response it becomes is not modelled.
- Visitors.UuidOfText: a 32-character body that is not all hex digits is refused, although Python's `int(…, 16)` also accepts a sign, surrounding blanks and underscores.
- Visitors.VisitorStore.RecordVisit: `device_type` is only set when the visitor is created; the model keeps that.
- Visitors.ChromeAndEdgIsEdge: requires that the agent does not name Firefox, because Firefox is looked for before Edge.
- Notifications.NotificationStore.CreateNotification: the `except Exception` branch (lines 86-91) is not modelled, since nothing in the modelled insert raises.
- Notifications.NotificationStore.CreateNotification: extra keyword arguments are not modelled.
- `NotificationManager.mark_as_read` reads instance fields on a manager and cannot work; it is not modelled.
- SettingsModels.SettingsTable.Save: `_state.adding` is a parameter, and the forced insert for an adding instance is that of Django 3.0 and later. New instances hold their `uuid4` key, so the guard only fires for a key cleared by hand; the model does not claim that the table holds one row.
- SettingsModels.SettingsTable.GetSettings: `objects.first()` on the unordered queryset orders by primary key, a random `uuid4` here; the model takes the table's first row, since it does not model the keys' order.
- PropertyModels.ImagePathComponents: `uuid4()` is a parameter.
- ChatModels.MessagePathComponents: `uuid4()` is a parameter.
- ChatModels.UserConversations: the `order_by('-date_last_message')` ordering is not modelled, and neither is the same ordering in ChatViews.ConversationList.
- ChatViews.GetOrCreate: `User.objects.get` on a malformed key raises something other than `DoesNotExist`; the model reports it as a failed lookup.
- ChatViews.GetOrCreate: the serializer output is not modelled.
- ChatViews.PostMessage: a blocked conversation still accepts messages, as in the source; message images, the serializer's own validation (its `MESSAGE_RULES` table is not part of this model) and the timestamps are parameters or left out.
- User ids are natural numbers, and conversation and property ids are the text of their UUIDs.
- Maintenance: an exception while reading the settings is modelled as a read that yields no value.
- PriceFilters: `Decimal` parsing is a parameter, so `NaN` and `Infinity` are not represented. The other filters of the property filter set (categories, city, status, search, dates) are not modelled.
- Permission classes, the generic views, `urls.py`, `admin.py`, `apps.py`, `signals.py`, pagination and the exception middleware are wiring and are not modelled. The one exception is `IsParticipant`, whose missing list-level check is a finding.

## Findings

| source | as written | input that shows it | evidently intended | confidence | as-written member | corrected member |
|---|---|---|---|---|---|---|
| properties/filters.py:113-117 | `Decimal("")` raises `InvalidOperation`, which is not a `ValueError`, so the `except` does not catch it | `price_range="-5000"` (any `-X` or `X-`) makes the list request fail | a malformed range leaves the list unfiltered, like the other malformed inputs | not executed | PriceFilters.MissingLowerBoundRaises | PriceFilters.FilterPriceRange |
| categories/serializers.py:90 | the main-category validator is built with `instance=None`, so `unique` does not skip the category's own row | updating a main category while sending back its unchanged `title` fails with `This title already exists.` | pass the instance on update, as the other two hooks do | not executed | CategorySerializers.MainTitleCollidesWithItself | CategorySerializers.OwnTitleAccepted |
| properties/views.py:155 | `str(self.request.user.id)` is compared with the UUID object the `<uuid:user_id>` route passes, which is never equal | the owner listing their own properties does not see an inactive one | the owner sees all of their properties | not executed | PropertyViews.OwnerMissesInactiveProperty | PropertyViews.UserProperties |
| visitors/managers.py:24-32 | without a `visitor_hash` cookie the key is the 64-digit SHA-256 hex digest, but `key` is a `UUIDField` (visitors/models.py:14), whose lookup accepts only 32 hex digits and raises `ValidationError` | any request to the visit tracker without the cookie (`CookieLessRequestRaises`): the request fails and no visitor or visit is written; no code sets the cookie | every request is recorded under the key derived from it | not executed | Visitors.VisitorStore.RecordVisitAsWritten | Visitors.VisitorStore.RecordVisit |
| chats/views.py:184-201 | `IsParticipant` only defines `has_object_permission`, and `perform_create` never checks objects, so anyone can post | an authenticated outsider posting to a conversation gets the message stored, addressed to the sender | only participants may post | not executed | ChatViews.OutsiderPosts | ChatViews.PostAsParticipant |
