/**
 * Documents of the document store: a document maps field names to values.
 * The scalar kinds the application stores and embedded documents are distinguished;
 * arrays (such as the list of badges a saved plan carries) are not represented.
 */
module Documents {
  import opened Wrappers

  datatype Value =
    | Null
    | Bool(b: bool)
    | Int(i: int)
    | Real(r: real)
    | Str(s: string)
    | Date(t: int)                 // seconds since the epoch, supplied by the caller
    | Oid(n: nat)                  // an object id generated by the store or the driver
    | Obj(fields: map<string, Value>)

  type Document = map<string, Value>

  /** Python truthiness of a stored value (None, False, 0, 0.0, "" and {} are falsy). */
  predicate Truthy(v: Value) {
    match v
    case Null => false
    case Bool(b) => b
    case Int(i) => i != 0
    case Real(r) => r != 0.0
    case Str(s) => s != ""
    case Date(_) => true
    case Oid(_) => true
    case Obj(m) => m != map[]
  }

  /** `doc.get(field, default)` */
  function Get(doc: Document, field: string, default: Value): (v: Value)
    ensures field in doc ==> v == doc[field]
    ensures field !in doc ==> v == default
  {
    if field in doc then doc[field] else default
  }

  /** The document without its `_id` field, as a `{'_id': 0}` projection returns it. */
  function WithoutId(doc: Document): (d: Document)
    ensures "_id" !in d
    ensures forall f :: f in doc && f != "_id" ==> f in d && d[f] == doc[f]
    ensures forall f :: f in d ==> f in doc
  {
    doc - {"_id"}
  }

  /** The document as the store keeps it after an insert: an `_id` is added when it has none. */
  function WithId(doc: Document, id: Value): (d: Document)
    ensures "_id" in d
    ensures "_id" in doc ==> d == doc
    ensures "_id" !in doc ==> d["_id"] == id && WithoutId(d) == doc
    ensures forall f :: f in doc ==> f in d && d[f] == doc[f]
  {
    if "_id" in doc then doc else doc["_id" := id]
  }

  /**
   * An equality filter such as `{'email': e}`: every filter field equals the document's;
   * a `None` in the filter also matches a missing field. Values are compared structurally;
   * query operators are not interpreted.
   */
  predicate Matches(doc: Document, filter: Document) {
    forall f :: f in filter ==> if f in doc then doc[f] == filter[f] else filter[f] == Null
  }

  /** `find(filter)` without a sort: the matching documents in stored order. */
  function Select(docs: seq<Document>, filter: Document): (r: seq<Document>)
    ensures forall d :: d in r <==> d in docs && Matches(d, filter)
    ensures |r| <= |docs|
    ensures multiset(r) <= multiset(docs)
    ensures forall d :: multiset(r)[d] == if Matches(d, filter) then multiset(docs)[d] else 0
  {
    if docs == [] then []
    else
      var rest := Select(docs[1..], filter);
      assert docs == [docs[0]] + docs[1..];
      assert multiset(docs) == multiset([docs[0]]) + multiset(docs[1..]);
      if Matches(docs[0], filter) then [docs[0]] + rest else rest
  }

  /** Concatenation is associative; stated once so that proofs can name the step. */
  lemma SeqAssoc<T>(a: seq<T>, b: seq<T>, c: seq<T>)
    ensures a + (b + c) == (a + b) + c
  {
  }

  /** Selection keeps stored order: a document appended later comes after the earlier matches. */
  lemma {:induction false} SelectAppend(docs: seq<Document>, x: Document, filter: Document)
    ensures Select(docs + [x], filter) == Select(docs, filter) + (if Matches(x, filter) then [x] else [])
  {
    if docs == [] {
      assert [] + [x] == [x];
      assert [x][1..] == [];
    } else {
      var ys := docs + [x];
      assert ys[0] == docs[0];
      assert ys[1..] == docs[1..] + [x];
      SelectAppend(docs[1..], x, filter);
      var tail := if Matches(x, filter) then [x] else [];
      if Matches(docs[0], filter) {
        calc {
          Select(ys, filter);
          [docs[0]] + Select(docs[1..] + [x], filter);
          [docs[0]] + (Select(docs[1..], filter) + tail);
          { SeqAssoc([docs[0]], Select(docs[1..], filter), tail); }
          ([docs[0]] + Select(docs[1..], filter)) + tail;
        }
      }
    }
  }

  /** The position of the first document `find_one(filter)` returns. */
  function FirstMatch(docs: seq<Document>, filter: Document): (r: Option<nat>)
    ensures r.Some? ==> r.value < |docs| && Matches(docs[r.value], filter)
    ensures r.Some? ==> forall j :: 0 <= j < r.value ==> !Matches(docs[j], filter)
    ensures r.None? <==> forall j :: 0 <= j < |docs| ==> !Matches(docs[j], filter)
  {
    if docs == [] then None
    else if Matches(docs[0], filter) then Some(0)
    else match FirstMatch(docs[1..], filter)
      case None => None
      case Some(k) => Some(k + 1)
  }

  /** `find_one(filter)`. */
  function FindOne(docs: seq<Document>, filter: Document): Option<Document> {
    match FirstMatch(docs, filter)
    case None => None
    case Some(k) => Some(docs[k])
  }

  /** A document appended after documents that do not match is the one `find_one` returns. */
  lemma {:induction false} FindOneAppended(docs: seq<Document>, d: Document, filter: Document)
    requires forall j :: 0 <= j < |docs| ==> !Matches(docs[j], filter)
    requires Matches(d, filter)
    ensures FindOne(docs + [d], filter) == Some(d)
  {
    if docs == [] {
      assert ([] + [d])[0] == d;
    } else {
      assert (docs + [d])[1..] == docs[1..] + [d];
      FindOneAppended(docs[1..], d, filter);
    }
  }
}
