# Startup reconciler, user and record helpers, and emergency-fund plan

A Dafny model of the database layer of a personal-finance web application
(`models.py`) and of the plan arithmetic of its emergency-fund calculator
(`personal/emergency_fund.py`).

- **Startup (`initialize_database`).**
  - The bounded ping loop is modelled with the ping outcome of each attempt as an input.
  - The six declared collections are reconciled in declaration order. A missing collection is
    created with its validator. Each declared index is checked against one index snapshot per
    collection. `create_index` is issued unless the first existing index with the same
    `(field, direction)` tuple also has equal options once `key`, `v` and `ns` are stripped.
  - The three reference collections are seeded only when empty, and the courses config is
    published.
  - The store is a `DocStore.Store` object. It holds collections with validators, ordered index
    lists and documents in insertion order, and it records every write call it receives.
  - The imperative methods (`Reconcile.InitializeDatabase` and the loops it calls) are proved
    equal to a functional description of one pass, `Reconcile.Startup`.
  - Over that description it is proved that a successful pass leaves every declared index in
    place and every reference collection non-empty. It follows that a second pass over the
    resulting store issues no call at all, so in particular no create call
    (`ReconcileProofs.SecondStartupIssuesNoCalls`).
  - For an empty store, the exact call sequence of the first pass is derived
    (`ReconcileProofs.EmptyDatabaseScenario`).
- **Database name.** `get_db`'s parse of the URI.
- **Users.** The defaulting chain of `User.__init__`, the user document that `create_user`
  builds (including its error paths), duplicate refusal, and `get_user` / `get_user_by_email`
  reading back what was inserted.
- **Records.**
  - The required-field creators: nothing is inserted when any listed field is missing.
  - The `get_*` accessors: filter one collection, then sort by a fixed field and direction.
    They are proved sorted and a permutation of the matching documents.
- **Emergency fund.**
  - The plan: recommended months, target, gap, monthly saving, percent of income and badges.
  - The insights shown for a stored plan.
  - The comma-stripping numeric fields, with Python's `int()` and `float()` string parsing
    written out.

A declared index whose key matches an existing index but whose stripped options differ is
not skipped: `index_exists` stays false and `create_index` is issued again
(models.py:266-273, `ReconcileProofs.DivergentOptionsStillCreate`). The store answers such a
call with an error that aborts startup (`Reconcile.InitError.IndexConflict`), as MongoDB does
for an index-options conflict.

Values are exact: money and percentages are `real`, and counts are unbounded `int`.

## Model

| member | source | states |
|---|---|---|
| Connection.Connect | models.py:63-76 | at most 3 pings; the first success stops the loop; every earlier attempt failed transiently; one sleep of `retry_delay` (1 second) between attempts; a transient failure on the 3rd attempt gives `Exhausted` (RuntimeError); any other exception escapes from the attempt that raised it |
| Connection.RetryOutcomeUnique | models.py:67-76 | the retry contract determines the outcome, ping count and sleep count uniquely from the probe outcomes |
| Connection.AllTransientExhausts | models.py:67-76 | when every ping fails transiently: `Exhausted` after 3 pings and 2 sleeps |
| Connection.FirstPingConnects | models.py:67-71 | a succeeding first ping connects after 1 ping and no sleep |
| Connection.EffectiveUri | models.py:51 | the argument when it is a non-empty string, else `MONGO_URI`, else the default URI |
| Connection.AfterLastSlash | models.py:53 | the suffix after the last `/`: it has no `/`, and the character before it is `/` |
| Connection.BeforeFirstQuery | models.py:53 | the prefix before the first `?`: it has no `?`, and the character after it is `?` |
| Connection.DbName | models.py:53 | the text after the last `/` and before the first `?`, or `minirecords` if that text is empty; never empty, never contains `/` or `?` |
| Connection.DbNameOfUri | models.py:53 | `.../name` and `.../name?query` both give `name` |
| Connection.DbNameDefaultsOnTrailingSlash | models.py:53 | a URI ending in `/` gives `minirecords` |
| Schema.CollectionSchemasWellFormed | models.py:83-252 | six specs, distinct names, distinct index keys within each spec, no declared option named `key`, `v` or `ns` |
| Schema.SeedSetsShape | models.py:15-43 | 3 sample courses, 2 tax rates and 1 payment location, none with an `_id` |
| Documents.Select | models.py:424 | `find(filter)`: exactly the documents that match the filter, each as often as it is stored |
| Documents.SelectAppend | models.py:424 | the matches keep stored order: a document stored last comes after the earlier matches, iff it matches |
| Documents.FirstMatch | models.py:382 | `find_one`: the index of the first matching document, or none iff no document matches |
| Documents.FindOneAppended | models.py:382 | a document appended to a collection with no earlier match is what `find_one` returns |
| Documents.WithoutId | models.py:281 | the projection `{'_id': 0}`: every field but `_id` kept unchanged, and nothing else |
| DocStore.Strip | models.py:267 | removes exactly `key`, `v` and `ns` and keeps the other entries |
| DocStore.FirstKeyMatch | models.py:265-271 | the first index in snapshot order with an equal key tuple; none before it has that key; none iff no index has it |
| DocStore.CreateCollectionOp | models.py:256 | a new collection with exactly the declared validator, only the `_id` index and no documents; every other collection unchanged |
| DocStore.CreateIndexOp | models.py:273 | the store's `create_index`: no-op when an equal index exists, a conflict error for the same key with other options, otherwise the index appended with its version |
| DocStore.InsertDocs | models.py:279 | the documents appended in order, each given a fresh `_id` unless it has one; other collections unchanged |
| DocStore.FindWithoutId | models.py:281 | the collection's documents in order, each without `_id` |
| DocStore.Store.ListCollectionNames | models.py:81 | the names of the existing collections |
| DocStore.Store.CreateCollection | models.py:256 | creates the collection iff the name is free; logs the call either way |
| DocStore.Store.IndexInformation | models.py:259 | the collection's current index list |
| DocStore.Store.CreateIndex | models.py:273 | applies `CreateIndexOp` and reports its failure; logs the call either way |
| DocStore.Store.CountDocuments | models.py:277 | the number of documents in the collection |
| DocStore.Store.InsertOne | models.py:279 | appends one document and logs the call |
| DocStore.Store.InsertMany | models.py:289 | appends the documents in order and logs one call |
| DocStore.Store.Find | models.py:281 | the documents without `_id`, in insertion order |
| Reconcile.IndexExists | models.py:264-271 | the result is true iff the first existing index with the declared key has equal stripped options; later key matches are not examined |
| Reconcile.ReconcileIndexes | models.py:259-274 | the loop over one collection's declared indexes against one snapshot leaves the store and the call log that `RunIndexes` describes, stopping at the first store error |
| Reconcile.ReconcileCollection | models.py:255-274 | one declared collection: created when its name was not in the snapshot (stopping on a store error), then its indexes; store, log and error are those `StepSpec` describes |
| Reconcile.ReconcileCollections | models.py:254-274 | the loop over the six specs, with one `list_collection_names` snapshot, leaves the store and log that `RunSpecs` describes |
| Reconcile.InsertInOrder | models.py:278-279 | one `insert_one` per course, in list order: the store and log that `InsertEach` describes |
| Reconcile.SeedReferenceData | models.py:276-298 | the three seed guards and the courses config leave the store and log that `Seed` describes (`SeedEach` for the courses, `SeedMany` for the other two); the config is the courses read back without `_id` |
| Reconcile.ReconcileAndSeed | models.py:78-298 | the reconcile loop then the seed step: the store and log that `Pass` describes; the first store error is the result, otherwise the courses config |
| Reconcile.InitializeDatabase | models.py:62-302 | a failed connection changes nothing and reports `RuntimeError` or the escaping error; otherwise the store, log and result are those of `Startup` |
| ReconcileProofs.StepIndexCreatesIff | models.py:264-273 | a declared index issues no call iff the skip rule holds; otherwise exactly one `create_index(keys, **options)` |
| ReconcileProofs.DivergentOptionsStillCreate | models.py:266-273 | a first key match whose stripped options differ still issues `create_index` |
| ReconcileProofs.LaterMatchesIgnored | models.py:265-271 | once a key match exists, indexes after it do not change the skip decision |
| ReconcileProofs.StripVersioned | models.py:267 | the version entry the store adds to an index is stripped before comparing, so a recorded index compares equal |
| ReconcileProofs.CreateIndexSatisfies | models.py:273 | after a successful `create_index` the skip rule holds for that index |
| ReconcileProofs.RunIndexesExtends | models.py:259-274 | the index loop keeps every existing collection and its validator, and only appends to its index list and documents |
| ReconcileProofs.RunSpecsExtends | models.py:254-274 | the reconcile loop keeps every existing collection and its validator, and only appends to its index list and documents |
| ReconcileProofs.RunSpecsFrame | models.py:254-257 | only the declared collections can appear or change; every other collection is untouched |
| ReconcileProofs.AbsentCreatedWithValidator | models.py:255-256 | every declared collection missing from the snapshot exists afterwards with exactly its declared validator |
| ReconcileProofs.RunIndexesConverge | models.py:259-274 | after an index loop without error, every declared index of that collection satisfies the skip rule |
| ReconcileProofs.RunSpecsConverge | models.py:254-274 | after a reconcile pass without error, every declared index of every declared collection satisfies the skip rule |
| ReconcileProofs.RunIndexesNoOp | models.py:259-273 | when every declared index already satisfies the skip rule, the index loop issues nothing |
| ReconcileProofs.RunSpecsNoOp | models.py:254-273 | over a converged store whose collections all exist, the reconcile pass issues nothing |
| ReconcileProofs.InsertEachStores | models.py:278-279 | `insert_one` per course in list order: the courses are stored in that order with one logged call each |
| ReconcileProofs.SeedEachGuard | models.py:277-279 | the courses are inserted one call each, in order, iff the count is zero; otherwise nothing changes |
| ReconcileProofs.SeedManyGuard | models.py:284-297 | a seed set is inserted by one `insert_many` iff the collection is empty; otherwise nothing changes |
| ReconcileProofs.CoursesConfigAfterSeeding | models.py:277-281 | after seeding an empty courses collection with documents that have no `_id`, the config equals the seed list |
| ReconcileProofs.SeedingEstablishes | models.py:276-298 | after the seed step all three reference collections are non-empty, nothing already stored is lost, and the config is the stored courses without `_id` |
| ReconcileProofs.SeedingSeeded | models.py:276-298 | when all three reference collections hold documents, the seed step changes and issues nothing |
| ReconcileProofs.PassEstablishes | models.py:254-298 | for any well-formed declarations and non-empty seed sets, a successful pass only adds to the store and leaves it converged and seeded |
| ReconcileProofs.PassTwice | models.py:254-298 | for any well-formed declarations and non-empty seed sets, a second pass over what a successful pass produced changes nothing, issues nothing and publishes the same config |
| ReconcileProofs.StartupEstablishes | models.py:78-298 | a successful startup only adds to the store and leaves it converged and seeded |
| ReconcileProofs.SecondStartupIssuesNoCalls | models.py:78-298 | a second startup over the store a successful first startup produced issues no call, leaves the store as it is, and publishes the same courses |
| ReconcileProofs.SecondStartupCreatesNothing | models.py:78-298 | that second startup succeeds and its log holds no create call |
| ReconcileProofs.FreshSpecs | models.py:254-274 | on a store without the declared collections, each is created and then all of its indexes are created, in declaration order |
| ReconcileProofs.FirstPass | models.py:254-298 | on an empty store, with declarations that name distinct collections, no `_id` index and no reference collection: every collection and index created in order, then the courses one by one and the two `insert_many` calls; the config is the seed courses |
| ReconcileProofs.EmptyDatabaseScenario | models.py:78-298 | on an empty store, startup succeeds with exactly: 6 collection creates, each followed by its index creates; the 3 course `insert_one`s; the two `insert_many`s; the config equals `SAMPLE_COURSES` |
| Users.LocalPart | models.py:308 | `split('@')[0]`: the longest prefix without `@` |
| Users.LocalPartOfAddress | models.py:337 | the local part of `name@domain` is `name` |
| Users.Lower | models.py:343 | `lower()` applied to each character |
| Users.NewUser | models.py:305-315 | fields copied; fails iff neither name is truthy and the email is not a string |
| Users.NamesTruthyTogether | models.py:308-310 | username is the first truthy of `username`, `display_name`, the local part; display name is `display_name` or that username; the two are truthy together |
| Users.NamesFromAddress | models.py:308-310 | with neither name given, both are the address's local part |
| Users.UserDoc | models.py:337-356 | the errors (`email` missing or not text, `username` not text, no password): a document is built iff none occurs; `password_hash` is set in the caller's dict exactly when a password is given; a built document has every user field |
| Users.UserDocContents | models.py:337-356 | the 14 fields of a built document: lowercased id (from `username` or the local part) and email, the hash as password, each other field from the dict or its default (role `personal`, coin balance 10, language from `lang` or `en`, the current time), and the three `*_details` fields from the dict or `None` |
| Users.BuildUserDoc | models.py:341-356 | the user document has exactly the 14 listed fields, each from the dict or its default, the three `*_details` fields `None` when absent |
| Users.UserFromDoc | models.py:384-395 | `_id` and `email` are required; role defaults to `personal`, coin balance to 0 and language to `en` |
| Users.CreateUser | models.py:335-378 | the caller's dict after hashing; when no document can be built, that error and an unchanged store |
| Users.CreateUserInserts | models.py:357-378 | a built document is refused with `UserExists` iff its id or email is already stored, and then the store is unchanged; otherwise it is appended and the returned user carries its id, email, role and balance |
| Users.GetUser | models.py:401-420 | `find_one` on `_id`: `None` when no user matches (or the first match is empty); otherwise the first matching document read as a `User`, with a missing `_id` or `email` as the re-raised `KeyError` |
| Users.GetUserByEmail | models.py:380-399 | the same lookup on the lowercased address |
| Users.CreatedUserFound | models.py:401-417 | a created user is found by `get_user` under its id |
| Users.CreatedUserFoundByEmail | models.py:380-396 | a created user is found by `get_user_by_email` under any spelling of its address that lowercases to the stored one |
| Users.SecondRegistrationRefused | models.py:373-375 | registering a second time with the same address (in any case) is refused and stores nothing |
| Users.RegistrationDefaults | models.py:337-356 | a registration with only email and password gives the local part as id and display name, role `personal`, 10 coins, `en`, the hashed password and the current time |
| Users.StoredBalanceDefaultsToZero | models.py:392 | a stored user without a balance reads back with balance 0 |
| Records.LeTotal | models.py:424 | the store's order on values is total |
| Records.LeTrans | models.py:424 | the store's order on values is transitive |
| Records.SortBy | models.py:424 | sorted by the field and direction, and a permutation of its input |
| Records.FindSorted | models.py:424 | `find(filter).sort(field, dir)`: sorted, and a permutation of the matching documents |
| Records.InAnswerIff | models.py:424 | a document is in the answer iff it is stored and matches the filter |
| Records.GetFinancialHealth | models.py:422-427 | matching `financial_health` documents, newest `created_at` first |
| Records.GetBudgets | models.py:429-434 | matching `budgets` documents, newest `created_at` first |
| Records.GetBills | models.py:436-441 | matching `bills` documents by ascending `due_date` |
| Records.GetNetWorth | models.py:443-448 | matching `net_worth` documents, newest `created_at` first |
| Records.GetEmergencyFunds | models.py:450-455 | matching `emergency_funds` documents, newest `created_at` first |
| Records.GetLearningProgress | models.py:457-462 | exactly the matching `learning_progress` documents, each as often as stored, unsorted (their order is `Documents.SelectAppend`'s) |
| Records.GetQuizResults | models.py:464-469 | matching `quiz_results` documents, newest `created_at` first |
| Records.GetNewsArticles | models.py:471-476 | matching `news_articles` documents, newest `published_at` first |
| Records.GetTaxRates | models.py:478-483 | matching `tax_rates` documents by ascending `min_income` |
| Records.GetPaymentLocations | models.py:485-490 | matching `payment_locations` documents by ascending `name` |
| Records.GetTaxReminders | models.py:492-497 | matching `tax_reminders` documents by ascending `due_date` |
| Records.AllPresent | models.py:502 | `all(field in data for field in required)` |
| Records.CreateRecord | models.py:541-545 | fails iff a required field is missing, then nothing is inserted; otherwise the dict gets its `_id`, is appended, and the `_id` is returned |
| Records.CreateFeedback | models.py:499-508 | fails iff one of `user_id`, `tool_name`, `rating`, `timestamp` is missing; otherwise the dict plus a fresh `_id` is appended to `feedback`, nothing else changes, and nothing is returned |
| Records.NewsDefaults | models.py:529-530 | `setdefault`: `is_verified` false and `is_active` true only when absent; every field of the dict kept and no other added |
| Records.CreateNewsArticle | models.py:524-536 | fails iff one of `title`, `content`, `source_type`, `published_at` is missing; otherwise the stored document is the dict with `is_verified` defaulting to false and `is_active` to true only when absent, plus a fresh `_id`; other collections are unchanged; the id is returned |
| Records.CreateTaxRate | models.py:538-548 | fails iff one of `role`, `min_income`, `max_income`, `rate`, `description` is missing; otherwise the dict plus a fresh `_id` is appended to `tax_rates`, nothing else changes, and the id is returned |
| Records.CreatePaymentLocation | models.py:550-560 | fails iff one of `name`, `address`, `contact` is missing; otherwise the dict plus a fresh `_id` is appended to `payment_locations`, nothing else changes, and the id is returned |
| Records.CreateTaxReminder | models.py:562-572 | fails iff one of `user_id`, `tax_type`, `due_date`, `amount`, `status`, `created_at` is missing; otherwise the dict plus a fresh `_id` is appended to `tax_reminders`, nothing else changes, and the id is returned |
| Records.CreatedRecordKeepsFields | models.py:543-545 | the stored record is the caller's dict plus the new `_id`, and it is the last one stored |
| Records.CreatedTaxRateListed | models.py:538-548 | a created tax rate is listed by `get_tax_rates` iff it matches the filter |
| EmergencyFund.Months | personal/emergency_fund.py:131 | the timeline choice as 6, 12 or 18 months |
| EmergencyFund.RecommendedMonths | personal/emergency_fund.py:133-141 | `max(12, months)` for high risk, `min(6, months)` for low, `months` otherwise, plus 2 for two or more dependents |
| EmergencyFund.LowRiskRecommendsSix | personal/emergency_fund.py:137-141 | with the choices 6/12/18, low risk always gives 6 (8 with dependents) |
| EmergencyFund.DependentsAddTwoMonths | personal/emergency_fund.py:140-141 | two or more dependents add exactly 2 months |
| EmergencyFund.MonthlySavings | personal/emergency_fund.py:145 | never negative; times the months it equals a positive gap; 0 without a gap |
| EmergencyFund.PercentOfIncome | personal/emergency_fund.py:147-149 | set iff the income is positive, and then it is the saving as a percentage of the income |
| EmergencyFund.Badges | personal/emergency_fund.py:151-159 | Planner iff 6 or 12 months, Protector iff 2+ dependents, Steady Saver iff no gap, Fund Master iff savings cover the target, in that order |
| EmergencyFund.PlanOf | personal/emergency_fund.py:131-159 | the plan: recommended months, gap = target minus savings (0 when absent), monthly saving, percent and badges as above |
| EmergencyFund.RecommendedBounds | personal/emergency_fund.py:133-141 | the recommendation is always between 6 and 20 months |
| EmergencyFund.PlanTarget | personal/emergency_fund.py:143 | target = expenses times recommended months, so between 6 and 20 times non-negative expenses |
| EmergencyFund.SteadySaverIffFundMaster | personal/emergency_fund.py:156-159 | Steady Saver is earned iff Fund Master is |
| EmergencyFund.SavingsCloseTheGap | personal/emergency_fund.py:144-145 | the monthly saving times the timeline's months equals the gap when positive, else 0 |
| EmergencyFund.Insights | personal/emergency_fund.py:238-250 | none without a record; only "fully funded" iff the gap is at most 0; otherwise the gap insight first, then high income iff the percent > 30, then large family iff dependents > 2, in that order |
| EmergencyFund.InsightsAgreeWithBadges | personal/emergency_fund.py:238-250 | for a stored plan, "fully funded" alone appears iff the plan earned Fund Master, and large family only with Protector |
| FormFields.StripCommas | personal/emergency_fund.py:40 | no comma remains; every other character is kept; comma-free text is unchanged |
| FormFields.StripCommasConcat | personal/emergency_fund.py:40 | stripping distributes over concatenation |
| FormFields.ParseInt | personal/emergency_fund.py:49 | `int()` of a string: a value iff the trimmed text is an optional sign and digits with single underscores between digits; the value is the digits' value, underscores skipped and leading zeros allowed, negated after `-` |
| FormFields.ParseFloat | personal/emergency_fund.py:40 | `float()` of a string: no value for blank text; a decimal literal after an optional sign gives its value, negated after `-`; `inf`/`infinity` in any case give a signed infinity and `nan` not-a-number; nothing else is accepted |
| FormFields.TrimLeftSuffix | personal/emergency_fund.py:49 | skipping the leading spaces keeps the rest of the text: the result is a suffix of the input |
| FormFields.ParseIntDigits | personal/emergency_fund.py:49 | `int()` reads back every decimal rendering of a natural number |
| FormFields.ParseIntNegative | personal/emergency_fund.py:49 | a leading minus negates the amount |
| FormFields.ParseIntRejectsPoint | personal/emergency_fund.py:49-52 | a decimal point makes `int()` fail, so the integer field reports an error |
| FormFields.GroupedStrips | personal/emergency_fund.py:40 | stripping the commas of a thousands-grouped rendering leaves the digits of the same number |
| FormFields.GroupedAmountParses | personal/emergency_fund.py:49 | a thousands-grouped whole amount reads back as the same integer |
| FormFields.ThousandSeparatorExample | personal/emergency_fund.py:49 | "1,234" gives 1234 |
| FormFields.DigitsParseAsFloat | personal/emergency_fund.py:40 | `float()` reads a digit run as its value |
| FormFields.GroupedAmountParsesAsFloat | personal/emergency_fund.py:40 | a thousands-grouped whole amount reads back as the same float |
| FormFields.DecimalPointParses | personal/emergency_fund.py:40 | `digits.digits` reads as the whole part plus the fraction digits over ten to their count |
| FormFields.GroupedDecimalParses | personal/emergency_fund.py:40 | a thousands-grouped amount with a fractional part reads as the same number as its plain rendering |
| FormFields.GroupedCentsExample | personal/emergency_fund.py:40 | "1,234.56" gives 1234.56 |
| FormFields.InfinityExample | personal/emergency_fund.py:40 | "-Infinity" gives negative infinity |
| FormFields.NanExample | personal/emergency_fund.py:40 | "NaN" gives not-a-number |
| FormFields.FloatField.ProcessFormdata | personal/emergency_fund.py:36-43 | an empty submission leaves `data` alone; otherwise `data` is the parse of the comma-stripped first value, and on a parse failure `data` is `None` and "Not a valid number" is raised |
| FormFields.IntegerField.ProcessFormdata | personal/emergency_fund.py:45-52 | the same with `int()` and "Not a number" |

## Left out

- Driver I/O is not modelled:
  - the construction of `MongoClient` (models.py:52, 65), the real `ping`, and `get_db`'s second connection (models.py:79);
  - ping outcomes are an input function, and `time.sleep` is a counter.
- `get_db` is modelled only as its name parse. Connecting, pinging and logging inside it are I/O.
- Logging and `trans()` message lookup are left out. The seed tax-rate descriptions are their untranslated default texts.
- `$jsonSchema` validation, including the email pattern, is not modelled. Validators are opaque values: a list of required fields is kept only to tell validators apart.
- Store semantics beyond what the startup pass observes are left out:
  - duplicate `_id` on insert;
  - `insert_many([])`;
  - unique and sparse index enforcement. `users`' uniqueness on `_id` and `email` is stated directly as `Users.Clashes`.
- DocStore.CreateIndexOp: the store's answer to a second `create_index` with the same key and other options is an assumed conflict error. models.py does not show that behaviour.
- The in-place `_id` that `insert_one` writes into the `SAMPLE_COURSES` dicts is not modelled. The seed list is a value, so a second pass in one process would see it without `_id`.
- `generate_password_hash` is an uninterpreted function parameter. `datetime.utcnow()` and `uuid4` are parameters.
- Records.CreateNewsArticle: the model returns the new `ObjectId` value, not `str(inserted_id)`. The same holds for the other id-returning creators.
- `User.is_authenticated`, `is_active`, `is_anonymous`, `get_id` and `get` (models.py:317-333) are constant or attribute lookups and are not modelled.
- Records.SortBy: ordering among documents with equal sort keys is unspecified in the source and is not stated.
  - Records.Le compares values by kind first. Within a kind, numbers compare by value, strings character by character, dates by time, object ids by their counter, and booleans with false before true. Two embedded documents always compare equal, where the store compares them field by field.
- `log_tool_usage` (models.py:510-522) is not modelled. Its only caller in the calculator passes `mongo=` where the function takes `db` (personal/emergency_fund.py:108-114).
- The Flask handler around the plan is not modelled:
  - routing, session, `render_template`, `flash`, email sending and the cross-tool budget query;
  - the WTForms validators `DataRequired`, `Optional`, `Email` and `NumberRange`;
  - `personal/__init__.py` (blueprint registration and access checks).
- The handler shows `records[-1]` of a newest-first list, which is the oldest record (personal/emergency_fund.py:226, 236). `EmergencyFund.Insights` is a function of the record it is given.
- Floating point is not modelled:
  - amounts, target, gap and percent are exact reals, with no rounding;
  - `float()` reads exact decimals, with no overflow to infinity and no rounding of long mantissas.
- FormFields.ParseInt, FormFields.ParseFloat: only ASCII digits and ASCII whitespace are recognised. Python's `int()` and `float()` also accept other Unicode decimal digits (such as `١`) and every character `str.isspace` recognises.
- FormFields.ParseInt: the 4300-digit limit that CPython 3.11 and later (and the 2022 security releases of older versions) put on `int()` of a string is not modelled. A longer digit run reads as its value here; there `data` becomes None and "Not a number" is raised (personal/emergency_fund.py:49-52).
- Documents.Matches: equality filters only. Query operators such as `$gt` are compared as literal embedded documents. An `Int` and a `Real` of equal value do not match, although the store matches `1` with `1.0`. Field order inside embedded documents is not modelled. The `get_*` accessors pass any filter on to the store (models.py:422-494); neither models.py nor personal/emergency_fund.py calls them with a filter of another kind.
- Array-valued fields are not represented: `Documents.Value` has no list kind, so the `badges` list stored with a saved plan (personal/emergency_fund.py:180) is outside the model.
- Users.Lower: lowercases ASCII letters only.
