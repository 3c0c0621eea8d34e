/**
 * The record helpers of models.py: the creators that insert a caller's dict after
 * checking its required fields, and the `get_*` accessors that filter one collection
 * and sort the result by a fixed field and direction.
 */
module Records {
  import opened Wrappers
  import opened Documents
  import opened Schema
  import opened DocStore

  // ---- the store's ordering of values ----

  /** The store's cross-type order: null (and a missing field), numbers, strings, objects, ids, booleans, dates. */
  function Rank(v: Value): nat {
    match v
    case Null => 0
    case Int(_) => 1
    case Real(_) => 1
    case Str(_) => 2
    case Obj(_) => 3
    case Oid(_) => 4
    case Bool(_) => 5
    case Date(_) => 6
  }

  function NumberOf(v: Value): real
    requires v.Int? || v.Real?
  {
    if v.Int? then v.i as real else v.r
  }

  /** Strings compare by code point, a proper prefix first. */
  predicate StrLe(a: string, b: string)
    decreases |a|
  {
    a == [] || (b != [] && (a[0] < b[0] || (a[0] == b[0] && StrLe(a[1..], b[1..]))))
  }

  /** `a` sorts no later than `b` in an ascending sort. */
  predicate Le(a: Value, b: Value) {
    Rank(a) < Rank(b) ||
    (Rank(a) == Rank(b) &&
     match a
     case Null => true
     case Int(_) => NumberOf(a) <= NumberOf(b)
     case Real(_) => NumberOf(a) <= NumberOf(b)
     case Str(s) => StrLe(s, b.s)
     case Obj(_) => true
     case Oid(n) => n <= b.n
     case Bool(x) => !x || b.b
     case Date(t) => t <= b.t)
  }

  lemma {:induction false} StrLeTotal(a: string, b: string)
    ensures StrLe(a, b) || StrLe(b, a)
    decreases |a|
  {
    if a != [] && b != [] && a[0] == b[0] {
      StrLeTotal(a[1..], b[1..]);
    }
  }

  lemma {:induction false} StrLeTrans(a: string, b: string, c: string)
    requires StrLe(a, b) && StrLe(b, c)
    ensures StrLe(a, c)
    decreases |a|
  {
    if a != [] && b != [] && c != [] && a[0] == b[0] == c[0] {
      StrLeTrans(a[1..], b[1..], c[1..]);
    }
  }

  lemma LeTotal(a: Value, b: Value)
    ensures Le(a, b) || Le(b, a)
  {
    if a.Str? && b.Str? {
      StrLeTotal(a.s, b.s);
    }
  }

  lemma LeTrans(a: Value, b: Value, c: Value)
    requires Le(a, b) && Le(b, c)
    ensures Le(a, c)
  {
    if a.Str? && b.Str? && c.Str? {
      StrLeTrans(a.s, b.s, c.s);
    }
  }

  // ---- sorting by one field ----

  /** The value a sort on `field` uses: a missing field sorts as null. */
  function SortKey(doc: Document, field: string): Value {
    Get(doc, field, Null)
  }

  predicate InOrder(a: Document, b: Document, field: string, dir: Dir) {
    if dir == Asc then Le(SortKey(a, field), SortKey(b, field)) else Le(SortKey(b, field), SortKey(a, field))
  }

  lemma InOrderTotal(a: Document, b: Document, field: string, dir: Dir)
    ensures InOrder(a, b, field, dir) || InOrder(b, a, field, dir)
  {
    LeTotal(SortKey(a, field), SortKey(b, field));
  }

  lemma InOrderTrans(a: Document, b: Document, c: Document, field: string, dir: Dir)
    requires InOrder(a, b, field, dir) && InOrder(b, c, field, dir)
    ensures InOrder(a, c, field, dir)
  {
    if dir == Asc {
      LeTrans(SortKey(a, field), SortKey(b, field), SortKey(c, field));
    } else {
      LeTrans(SortKey(c, field), SortKey(b, field), SortKey(a, field));
    }
  }

  /** `.sort(field, dir)` holds of `s`: every earlier document sorts no later than every later one. */
  predicate Sorted(s: seq<Document>, field: string, dir: Dir) {
    forall i, j :: 0 <= i < j < |s| ==> InOrder(s[i], s[j], field, dir)
  }

  function Insert(d: Document, s: seq<Document>, field: string, dir: Dir): (r: seq<Document>)
    requires Sorted(s, field, dir)
    ensures multiset(r) == multiset(s) + multiset{d}
    ensures Sorted(r, field, dir)
    decreases |s|
  {
    if s == [] then [d]
    else
      if InOrder(d, s[0], field, dir) then
        BelowHead(d, s, field, dir);
        HeadSorted(d, s, field, dir);
        [d] + s
      else
        InOrderTotal(d, s[0], field, dir);
        assert s == [s[0]] + s[1..];
        TailSorted(s, field, dir);
        HeadFirst(s, field, dir);
        var rest := Insert(d, s[1..], field, dir);
        BelowAll(s[0], d, s[1..], rest, field, dir);
        HeadSorted(s[0], rest, field, dir);
        [s[0]] + rest
  }

  lemma HeadSorted(h: Document, s: seq<Document>, field: string, dir: Dir)
    requires Sorted(s, field, dir)
    requires forall x :: x in s ==> InOrder(h, x, field, dir)
    ensures Sorted([h] + s, field, dir)
  {
    forall i, j | 0 <= i < j < |[h] + s| ensures InOrder(([h] + s)[i], ([h] + s)[j], field, dir) {
      if i == 0 {
        assert ([h] + s)[j] == s[j - 1];
        assert s[j - 1] in s;
      } else {
        assert ([h] + s)[i] == s[i - 1] && ([h] + s)[j] == s[j - 1];
      }
    }
  }

  /** The first document of a sorted sequence sorts no later than any other. */
  lemma HeadFirst(s: seq<Document>, field: string, dir: Dir)
    requires Sorted(s, field, dir) && s != []
    ensures forall x :: x in s[1..] ==> InOrder(s[0], x, field, dir)
  {
    forall x | x in s[1..] ensures InOrder(s[0], x, field, dir) {
      var k :| 0 <= k < |s[1..]| && s[1..][k] == x;
      assert s[k + 1] == x;
    }
  }

  /** A document that sorts no later than the head of a sorted sequence sorts no later than all of it. */
  lemma BelowHead(d: Document, s: seq<Document>, field: string, dir: Dir)
    requires Sorted(s, field, dir) && s != [] && InOrder(d, s[0], field, dir)
    ensures forall x :: x in s ==> InOrder(d, x, field, dir)
  {
    HeadFirst(s, field, dir);
    forall x | x in s ensures InOrder(d, x, field, dir) {
      if x != s[0] {
        assert s == [s[0]] + s[1..];
        assert x in s[1..];
        InOrderTrans(d, s[0], x, field, dir);
      }
    }
  }

  lemma TailSorted(s: seq<Document>, field: string, dir: Dir)
    requires Sorted(s, field, dir) && s != []
    ensures Sorted(s[1..], field, dir)
  {
    forall i, j | 0 <= i < j < |s[1..]| ensures InOrder(s[1..][i], s[1..][j], field, dir) {
      assert s[1..][i] == s[i + 1] && s[1..][j] == s[j + 1];
    }
  }

  /** A document that sorts no later than `d` and than all of `s` sorts no later than anything made of them. */
  lemma BelowAll(h: Document, d: Document, s: seq<Document>, r: seq<Document>, field: string, dir: Dir)
    requires multiset(r) == multiset(s) + multiset{d}
    requires InOrder(h, d, field, dir)
    requires forall x :: x in s ==> InOrder(h, x, field, dir)
    ensures forall x :: x in r ==> InOrder(h, x, field, dir)
  {
    forall x | x in r ensures InOrder(h, x, field, dir) {
      assert x in multiset(r);
      if x != d {
        assert x in multiset(s);
      }
    }
  }

  /** The documents sorted on `field`; among equal keys the store may return any order, this is one of them. */
  function SortBy(s: seq<Document>, field: string, dir: Dir): (r: seq<Document>)
    ensures multiset(r) == multiset(s)
    ensures Sorted(r, field, dir)
    decreases |s|
  {
    if s == [] then []
    else
      assert s == [s[0]] + s[1..];
      Insert(s[0], SortBy(s[1..], field, dir), field, dir)
  }

  /** `list(db[name].find(filter).sort(field, dir))`. */
  function FindSorted(db: Db, name: string, filter: Document, field: string, dir: Dir): (r: seq<Document>)
    ensures Sorted(r, field, dir)
    ensures multiset(r) == multiset(Select(Docs(db, name), filter))
    ensures forall d :: d in r <==> d in Docs(db, name) && Matches(d, filter)
  {
    var r := SortBy(Select(Docs(db, name), filter), field, dir);
    assert forall d :: d in r <==> d in multiset(r);
    r
  }

  /** Deciding that a document is in a sorted answer needs only the filter. */
  lemma InAnswerIff(db: Db, name: string, filter: Document, field: string, dir: Dir, d: Document)
    ensures d in FindSorted(db, name, filter, field, dir) <==> d in Docs(db, name) && Matches(d, filter)
  {
  }

  // ---- the accessors ----

  function GetFinancialHealth(db: Db, filter: Document): (r: seq<Document>)
    ensures Sorted(r, "created_at", Desc) && multiset(r) == multiset(Select(Docs(db, "financial_health"), filter))
  {
    FindSorted(db, "financial_health", filter, "created_at", Desc)
  }

  function GetBudgets(db: Db, filter: Document): (r: seq<Document>)
    ensures Sorted(r, "created_at", Desc) && multiset(r) == multiset(Select(Docs(db, "budgets"), filter))
  {
    FindSorted(db, "budgets", filter, "created_at", Desc)
  }

  function GetBills(db: Db, filter: Document): (r: seq<Document>)
    ensures Sorted(r, "due_date", Asc) && multiset(r) == multiset(Select(Docs(db, "bills"), filter))
  {
    FindSorted(db, "bills", filter, "due_date", Asc)
  }

  function GetNetWorth(db: Db, filter: Document): (r: seq<Document>)
    ensures Sorted(r, "created_at", Desc) && multiset(r) == multiset(Select(Docs(db, "net_worth"), filter))
  {
    FindSorted(db, "net_worth", filter, "created_at", Desc)
  }

  function GetEmergencyFunds(db: Db, filter: Document): (r: seq<Document>)
    ensures Sorted(r, "created_at", Desc) && multiset(r) == multiset(Select(Docs(db, "emergency_funds"), filter))
  {
    FindSorted(db, "emergency_funds", filter, "created_at", Desc)
  }

  /** The one accessor without a sort: the matching documents in stored order. */
  function GetLearningProgress(db: Db, filter: Document): (r: seq<Document>)
    ensures forall d :: d in r <==> d in Docs(db, "learning_progress") && Matches(d, filter)
    ensures multiset(r) <= multiset(Docs(db, "learning_progress"))
    ensures forall d :: multiset(r)[d] == if Matches(d, filter) then multiset(Docs(db, "learning_progress"))[d] else 0
  {
    Select(Docs(db, "learning_progress"), filter)
  }

  function GetQuizResults(db: Db, filter: Document): (r: seq<Document>)
    ensures Sorted(r, "created_at", Desc) && multiset(r) == multiset(Select(Docs(db, "quiz_results"), filter))
  {
    FindSorted(db, "quiz_results", filter, "created_at", Desc)
  }

  function GetNewsArticles(db: Db, filter: Document): (r: seq<Document>)
    ensures Sorted(r, "published_at", Desc) && multiset(r) == multiset(Select(Docs(db, "news_articles"), filter))
  {
    FindSorted(db, "news_articles", filter, "published_at", Desc)
  }

  function GetTaxRates(db: Db, filter: Document): (r: seq<Document>)
    ensures Sorted(r, "min_income", Asc) && multiset(r) == multiset(Select(Docs(db, "tax_rates"), filter))
  {
    FindSorted(db, "tax_rates", filter, "min_income", Asc)
  }

  function GetPaymentLocations(db: Db, filter: Document): (r: seq<Document>)
    ensures Sorted(r, "name", Asc) && multiset(r) == multiset(Select(Docs(db, "payment_locations"), filter))
  {
    FindSorted(db, "payment_locations", filter, "name", Asc)
  }

  function GetTaxReminders(db: Db, filter: Document): (r: seq<Document>)
    ensures Sorted(r, "due_date", Asc) && multiset(r) == multiset(Select(Docs(db, "tax_reminders"), filter))
  {
    FindSorted(db, "tax_reminders", filter, "due_date", Asc)
  }

  // ---- the creators ----

  /** The `ValueError` a creator raises, naming the collection it refused to write. */
  datatype RecordError = MissingRequired(collection: string)

  /**
   * The end of a creator: the caller's dict (the driver adds the new `_id` to it), the store,
   * and the returned id (`None` for `create_feedback`) or the exception.
   */
  datatype Inserted = Inserted(data: Document, db: Db, result: Result<Value, RecordError>)

  predicate AllPresent(data: Document, required: seq<string>)
    ensures AllPresent(data, required) <==> forall i :: 0 <= i < |required| ==> required[i] in data
    decreases |required|
  {
    required == [] || (required[0] in data && AllPresent(data, required[1..]))
  }

  /** Check every required field, then `insert_one` the dict. */
  function CreateRecord(db: Db, name: string, data: Document, required: seq<string>): (o: Inserted)
    ensures o.result.Failure? <==> !AllPresent(data, required)
    ensures o.result.Failure? ==> o == Inserted(data, db, Failure(MissingRequired(name)))
    ensures o.result.Success? ==>
      o.data == WithId(data, Oid(db.nextOid)) && o.result.value == o.data["_id"] &&
      Docs(o.db, name) == Docs(db, name) + [o.data] &&
      forall n :: n != name ==> Docs(o.db, n) == Docs(db, n)
  {
    if !AllPresent(data, required) then Inserted(data, db, Failure(MissingRequired(name)))
    else
      var stored := WithId(data, Oid(db.nextOid));
      assert Stored([data], db.nextOid) == [stored];
      Inserted(stored, InsertDocs(db, name, [data]), Success(stored["_id"]))
  }

  function CreateFeedback(db: Db, data: Document): (o: Inserted)
    ensures o.result.Failure? <==>
      !("user_id" in data && "tool_name" in data && "rating" in data && "timestamp" in data)
    ensures o.result.Failure? ==> o.db == db && o.data == data
    ensures o.result.Success? ==>
      o.data == WithId(data, Oid(db.nextOid)) && o.result.value == Null &&
      Docs(o.db, "feedback") == Docs(db, "feedback") + [o.data] &&
      forall n :: n != "feedback" ==> Docs(o.db, n) == Docs(db, n)
  {
    var o := CreateRecord(db, "feedback", data, ["user_id", "tool_name", "rating", "timestamp"]);
    if o.result.Success? then o.(result := Success(Null)) else o
  }

  /** The two defaults `create_news_article` sets on the dict: `is_verified` false, `is_active` true. */
  function NewsDefaults(data: Document): (d: Document)
    ensures "is_verified" in d && d["is_verified"] == Get(data, "is_verified", Bool(false))
    ensures "is_active" in d && d["is_active"] == Get(data, "is_active", Bool(true))
    ensures forall f :: f in data ==> f in d && d[f] == data[f]
    ensures forall f :: f in d ==> f in data || f == "is_verified" || f == "is_active"
  {
    var d1 := if "is_verified" in data then data else data["is_verified" := Bool(false)];
    if "is_active" in d1 then d1 else d1["is_active" := Bool(true)]
  }

  /** `create_news_article`: after the check, `is_verified` defaults to false and `is_active` to true. */
  function CreateNewsArticle(db: Db, data: Document): (o: Inserted)
    ensures o.result.Failure? <==>
      !("title" in data && "content" in data && "source_type" in data && "published_at" in data)
    ensures o.result.Failure? ==> o.db == db && o.data == data
    ensures o.result.Success? ==>
      "is_verified" in o.data && "is_active" in o.data &&
      o.data["is_verified"] == Get(data, "is_verified", Bool(false)) &&
      o.data["is_active"] == Get(data, "is_active", Bool(true)) &&
      (forall f :: f in data ==> f in o.data && o.data[f] == data[f]) &&
      o.data == WithId(NewsDefaults(data), Oid(db.nextOid)) &&
      Docs(o.db, "news_articles") == Docs(db, "news_articles") + [o.data] && "_id" in o.data && o.result.value == o.data["_id"]
    ensures o.result.Success? ==> forall n :: n != "news_articles" ==> Docs(o.db, n) == Docs(db, n)
  {
    var required := ["title", "content", "source_type", "published_at"];
    if !AllPresent(data, required) then Inserted(data, db, Failure(MissingRequired("news_articles")))
    else
      var d := NewsDefaults(data);
      assert AllPresent(d, required);
      CreateRecord(db, "news_articles", d, required)
  }

  function CreateTaxRate(db: Db, data: Document): (o: Inserted)
    ensures o.result.Failure? <==>
      !("role" in data && "min_income" in data && "max_income" in data && "rate" in data && "description" in data)
    ensures o.result.Failure? ==> o.db == db && o.data == data
    ensures o.result.Success? ==>
      o.data == WithId(data, Oid(db.nextOid)) && o.result.value == o.data["_id"] &&
      Docs(o.db, "tax_rates") == Docs(db, "tax_rates") + [o.data] &&
      forall n :: n != "tax_rates" ==> Docs(o.db, n) == Docs(db, n)
  {
    CreateRecord(db, "tax_rates", data, ["role", "min_income", "max_income", "rate", "description"])
  }

  function CreatePaymentLocation(db: Db, data: Document): (o: Inserted)
    ensures o.result.Failure? <==> !("name" in data && "address" in data && "contact" in data)
    ensures o.result.Failure? ==> o.db == db && o.data == data
    ensures o.result.Success? ==>
      o.data == WithId(data, Oid(db.nextOid)) && o.result.value == o.data["_id"] &&
      Docs(o.db, "payment_locations") == Docs(db, "payment_locations") + [o.data] &&
      forall n :: n != "payment_locations" ==> Docs(o.db, n) == Docs(db, n)
  {
    CreateRecord(db, "payment_locations", data, ["name", "address", "contact"])
  }

  function CreateTaxReminder(db: Db, data: Document): (o: Inserted)
    ensures o.result.Failure? <==>
      !("user_id" in data && "tax_type" in data && "due_date" in data && "amount" in data &&
        "status" in data && "created_at" in data)
    ensures o.result.Failure? ==> o.db == db && o.data == data
    ensures o.result.Success? ==>
      o.data == WithId(data, Oid(db.nextOid)) && o.result.value == o.data["_id"] &&
      Docs(o.db, "tax_reminders") == Docs(db, "tax_reminders") + [o.data] &&
      forall n :: n != "tax_reminders" ==> Docs(o.db, n) == Docs(db, n)
  {
    CreateRecord(db, "tax_reminders", data, ["user_id", "tax_type", "due_date", "amount", "status", "created_at"])
  }

  /** A stored record without `_id` keeps every field of the caller's dict and gets a fresh id. */
  lemma {:induction false} CreatedRecordKeepsFields(db: Db, name: string, data: Document, required: seq<string>)
    requires AllPresent(data, required) && "_id" !in data
    ensures var o := CreateRecord(db, name, data, required);
            WithoutId(o.data) == data && o.result == Success(Oid(db.nextOid)) &&
            Docs(o.db, name)[|Docs(o.db, name)| - 1] == o.data
  {
    var o := CreateRecord(db, name, data, required);
    assert o.data == WithId(data, Oid(db.nextOid));
  }

  /** A record a creator stores appears in an accessor's answer exactly when the filter selects it. */
  lemma CreatedTaxRateListed(db: Db, data: Document, filter: Document)
    requires CreateTaxRate(db, data).result.Success?
    ensures var o := CreateTaxRate(db, data);
            o.data in GetTaxRates(o.db, filter) <==> Matches(o.data, filter)
  {
    var o := CreateTaxRate(db, data);
    assert o.data in Docs(o.db, "tax_rates");
  }
}
