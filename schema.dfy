/**
 * The desired database shape compiled into models.py: six collection specs in
 * declaration order, each with its validator and its ordered index list, and the
 * canonical seed documents of the three reference collections.
 */
module Schema {
  import opened Documents

  /** Sort direction of one index field (pymongo's ASCENDING = 1, DESCENDING = -1). */
  datatype Dir = Asc | Desc

  /** The identity of an index: its ordered (field, direction) pairs. */
  type IndexKey = seq<(string, Dir)>

  /** The value of an index option (`unique`, `sparse`, the store's `v`, `ns`, ...). */
  datatype OptVal = Flag(b: bool) | Num(n: int) | Text(s: string)

  type Options = map<string, OptVal>

  /** A declared index: the `key` entry and every other entry of the declaration as options. */
  datatype IndexSpec = IndexSpec(key: IndexKey, options: Options)

  /**
   * A `$jsonSchema` validator, kept opaque except for its list of required fields;
   * `NoValidator` is the empty validator of a collection created implicitly.
   */
  datatype Validator = NoValidator | JsonSchema(required: seq<string>)

  datatype CollectionSpec = CollectionSpec(name: string, validator: Validator, indexes: seq<IndexSpec>)

  /** The entries `initialize_database` strips from an existing index before comparing options. */
  const StrippedEntries: set<string> := {"key", "v", "ns"}

  /** A declaration is well formed when its options use none of the stripped entry names. */
  predicate WellFormedIndex(ix: IndexSpec) {
    ix.options.Keys !! StrippedEntries
  }

  predicate WellFormed(specs: seq<CollectionSpec>) {
    forall i, j :: 0 <= i < |specs| && 0 <= j < |specs[i].indexes| ==> WellFormedIndex(specs[i].indexes[j])
  }

  /** Collection names appear once each in the declaration. */
  predicate DistinctNames(specs: seq<CollectionSpec>) {
    forall i, j :: 0 <= i < j < |specs| ==> specs[i].name != specs[j].name
  }

  /** Within each collection, no two declared indexes share a key tuple. */
  predicate DistinctKeys(specs: seq<CollectionSpec>) {
    forall i, j, k :: 0 <= i < |specs| && 0 <= j < k < |specs[i].indexes| ==>
      specs[i].indexes[j].key != specs[i].indexes[k].key
  }

  function Single(field: string, d: Dir): IndexKey { [(field, d)] }

  function Plain(key: IndexKey): IndexSpec { IndexSpec(key, map[]) }

  /** `collection_schemas`, in declaration order. */
  const CollectionSchemas: seq<CollectionSpec> := [
    CollectionSpec("users", JsonSchema(["_id", "email", "password", "role"]), [
      IndexSpec(Single("email", Asc), map["unique" := Flag(true)]),
      IndexSpec(Single("reset_token", Asc), map["sparse" := Flag(true)]),
      Plain(Single("role", Asc))]),
    CollectionSpec("records", JsonSchema(["user_id", "type", "name", "amount_owed"]), [
      Plain([("user_id", Asc), ("type", Asc)]),
      Plain(Single("created_at", Desc))]),
    CollectionSpec("cashflows", JsonSchema(["user_id", "type", "party_name", "amount"]), [
      Plain([("user_id", Asc), ("type", Asc)]),
      Plain(Single("created_at", Desc))]),
    CollectionSpec("inventory", JsonSchema(["user_id", "item_name", "qty", "unit", "buying_price", "selling_price"]), [
      Plain(Single("user_id", Asc)),
      Plain(Single("item_name", Asc))]),
    CollectionSpec("coin_transactions", JsonSchema(["user_id", "amount", "type", "date"]), [
      Plain(Single("user_id", Asc)),
      Plain(Single("date", Desc))]),
    CollectionSpec("audit_logs", JsonSchema(["admin_id", "action", "timestamp"]), [
      Plain(Single("admin_id", Asc)),
      Plain(Single("timestamp", Desc))])
  ]

  lemma CollectionSchemasWellFormed()
    ensures |CollectionSchemas| == 6
    ensures WellFormed(CollectionSchemas)
    ensures DistinctNames(CollectionSchemas)
    ensures DistinctKeys(CollectionSchemas)
  {
    SchemaOptionsWellFormed();
    SchemaNamesDistinct();
    SchemaKeysDistinct();
  }

  lemma SchemaOptionsWellFormed()
    ensures WellFormed(CollectionSchemas)
  {
  }

  lemma SchemaNamesDistinct()
    ensures DistinctNames(CollectionSchemas)
  {
  }

  lemma SchemaKeysDistinct()
    ensures DistinctKeys(CollectionSchemas)
  {
  }

  function Course(id: string, titleKey: string, titleEn: string, titleHa: string, descEn: string, descHa: string): Document {
    map["id" := Str(id), "title_key" := Str(titleKey),
        "title_en" := Str(titleEn), "title_ha" := Str(titleHa),
        "description_en" := Str(descEn), "description_ha" := Str(descHa),
        "is_premium" := Bool(false)]
  }

  /** `SAMPLE_COURSES`, in list order. */
  const SampleCourses: seq<Document> := [
    Course("budgeting_learning_101", "learning_hub_course_budgeting101_title",
           "Budgeting Learning 101", "Tsarin Kudi 101",
           "Learn the basics of budgeting.", "Koyon asalin tsarin kudi."),
    Course("financial_quiz", "learning_hub_course_financial_quiz_title",
           "Financial Quiz", "Jarabawar Kudi",
           "Test your financial knowledge.", "Gwada ilimin ku na kudi."),
    Course("savings_basics", "learning_hub_course_savings_basics_title",
           "Savings Basics", "Asalin Tattara Kudi",
           "Understand how to save effectively.", "Fahimci yadda ake tattara kudi yadda ya kamata.")
  ]

  /** The two seed tax rates; descriptions are the untranslated default texts. */
  const SampleTaxRates: seq<Document> := [
    map["role" := Str("personal"), "min_income" := Int(0), "max_income" := Int(100000), "rate" := Real(0.1),
        "description" := Str("10% tax for income up to 100,000")],
    map["role" := Str("trader"), "min_income" := Int(0), "max_income" := Int(500000), "rate" := Real(0.15),
        "description" := Str("15% tax for turnover up to 500,000")]
  ]

  /** The single seed payment location. */
  const SampleLocations: seq<Document> := [
    map["name" := Str("Gombe State IRS Office"), "address" := Str("123 Tax Street, Gombe"),
        "contact" := Str("+234 123 456 7890"),
        "coordinates" := Obj(map["lat" := Real(10.2896), "lng" := Real(11.1673)])]
  ]

  lemma SeedSetsShape()
    ensures |SampleCourses| == 3 && |SampleTaxRates| == 2 && |SampleLocations| == 1
    ensures forall i :: 0 <= i < |SampleCourses| ==> "_id" !in SampleCourses[i]
    ensures forall i :: 0 <= i < |SampleTaxRates| ==> "_id" !in SampleTaxRates[i]
    ensures forall i :: 0 <= i < |SampleLocations| ==> "_id" !in SampleLocations[i]
  {
  }
}
