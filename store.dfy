/**
 * An in-memory stand-in for the document store that `initialize_database`
 * talks to: collections with a validator, an ordered index list (the order
 * `index_information()` reports) and documents in insertion order. The store
 * answers the driver calls the startup pass makes and records every write call
 * it receives, so that the calls a run issues can be stated.
 */
module DocStore {
  import opened Wrappers
  import opened Documents
  import opened Schema

  /** An entry of `index_information()`: the key tuple and every other entry (`v`, `unique`, ...). */
  datatype IndexInfo = IndexInfo(key: IndexKey, info: Options)

  datatype Collection = Collection(validator: Validator, indexes: seq<IndexInfo>, docs: seq<Document>)

  /** The whole store: collections by name, and the next object id the store will hand out. */
  datatype Db = Db(colls: map<string, Collection>, nextOid: nat)

  /** A write call received by the store, in the order received. */
  datatype Call =
    | CreateCollectionCall(name: string, validator: Validator)
    | CreateIndexCall(coll: string, key: IndexKey, options: Options)
    | InsertOneCall(coll: string, doc: Document)
    | InsertManyCall(coll: string, docs: seq<Document>)

  predicate IsCreate(c: Call) {
    c.CreateCollectionCall? || c.CreateIndexCall?
  }

  /** The index format version the store records with each index it builds. */
  const IndexVersion: int := 2

  /** The `_id_` index every collection is created with. */
  const IdIndex: IndexInfo := IndexInfo([("_id", Asc)], map["v" := Num(IndexVersion)])

  function NewCollection(validator: Validator): (c: Collection)
    ensures c.validator == validator && c.docs == [] && c.indexes == [IdIndex]
  {
    Collection(validator, [IdIndex], [])
  }

  /** The unnamed index options: every entry but `key`, `v` and `ns`. */
  function Strip(info: Options): (r: Options)
    ensures r.Keys == info.Keys - StrippedEntries
    ensures forall k :: k in r ==> r[k] == info[k]
  {
    info - StrippedEntries
  }

  /** The position of the first index whose key tuple equals `key`. */
  function FirstKeyMatch(s: seq<IndexInfo>, key: IndexKey): (r: Option<nat>)
    ensures r.Some? ==> r.value < |s| && s[r.value].key == key
    ensures r.Some? ==> forall j :: 0 <= j < r.value ==> s[j].key != key
    ensures r.None? ==> forall j :: 0 <= j < |s| ==> s[j].key != key
  {
    if s == [] then None
    else if s[0].key == key then Some(0)
    else match FirstKeyMatch(s[1..], key)
      case None => None
      case Some(k) => Some(k + 1)
  }

  /**
   * The skip rule: a declared index is already present when the first existing
   * index with its key tuple has exactly its options once `key`, `v` and `ns`
   * are stripped.
   */
  predicate Satisfied(s: seq<IndexInfo>, ix: IndexSpec) {
    var m := FirstKeyMatch(s, ix.key);
    m.Some? && Strip(s[m.value].info) == ix.options
  }

  /** `index_information()` of a collection; a missing collection has no indexes. */
  function Snapshot(db: Db, name: string): seq<IndexInfo> {
    if name in db.colls then db.colls[name].indexes else []
  }

  /** `count_documents({})`; a missing collection counts zero. */
  function CountDocs(db: Db, name: string): nat {
    if name in db.colls then |db.colls[name].docs| else 0
  }

  /** The collection a write lands in: the existing one, or one created implicitly. */
  function Target(db: Db, name: string): (c: Collection)
    ensures name in db.colls ==> c == db.colls[name]
    ensures name !in db.colls ==> c == NewCollection(NoValidator)
  {
    if name in db.colls then db.colls[name] else NewCollection(NoValidator)
  }

  function CreateCollectionOp(db: Db, name: string, validator: Validator): (d: Db)
    requires name !in db.colls
    ensures d.colls.Keys == db.colls.Keys + {name} && d.nextOid == db.nextOid
    ensures d.colls[name] == NewCollection(validator)
    ensures forall n :: n in db.colls ==> d.colls[n] == db.colls[n]
  {
    db.(colls := db.colls[name := NewCollection(validator)])
  }

  /**
   * What the store does with `create_index(keys, **options)`: nothing when an
   * index with that key tuple already has those options, a conflict (None) when
   * the first index with that key tuple has other options, and otherwise a new
   * index recorded after the existing ones.
   */
  function CreateIndexOp(c: Collection, ix: IndexSpec): (r: Option<Collection>)
    ensures r.None? <==> FirstKeyMatch(c.indexes, ix.key).Some? && !Satisfied(c.indexes, ix)
    ensures r.Some? ==> r.value.validator == c.validator && r.value.docs == c.docs
    ensures r.Some? && Satisfied(c.indexes, ix) ==> r.value == c
    ensures r.Some? && !Satisfied(c.indexes, ix) ==>
      r.value.indexes == c.indexes + [IndexInfo(ix.key, ix.options["v" := Num(IndexVersion)])]
  {
    match FirstKeyMatch(c.indexes, ix.key)
    case Some(k) => if Strip(c.indexes[k].info) == ix.options then Some(c) else None
    case None => Some(c.(indexes := c.indexes + [IndexInfo(ix.key, ix.options["v" := Num(IndexVersion)])]))
  }

  /** The documents as stored: each gets the next object id unless it has an `_id`. */
  function Stored(docs: seq<Document>, start: nat): (r: seq<Document>)
    ensures |r| == |docs|
    ensures forall i :: 0 <= i < |docs| ==> r[i] == WithId(docs[i], Oid(start + i))
  {
    seq(|docs|, i requires 0 <= i < |docs| => WithId(docs[i], Oid(start + i)))
  }

  function SetColl(db: Db, name: string, c: Collection): (d: Db)
    ensures d.colls.Keys == db.colls.Keys + {name} && d.colls[name] == c && d.nextOid == db.nextOid
    ensures forall n :: n in db.colls && n != name ==> d.colls[n] == db.colls[n]
  {
    db.(colls := db.colls[name := c])
  }

  /** `insert_one`/`insert_many`: appends the documents, creating the collection if needed. */
  function InsertDocs(db: Db, name: string, docs: seq<Document>): (d: Db)
    ensures d.colls.Keys == db.colls.Keys + {name}
    ensures forall n :: n in db.colls && n != name ==> d.colls[n] == db.colls[n]
    ensures d.colls[name].validator == Target(db, name).validator
    ensures d.colls[name].indexes == Target(db, name).indexes
    ensures d.colls[name].docs == Target(db, name).docs + Stored(docs, db.nextOid)
    ensures d.nextOid == db.nextOid + |docs|
  {
    var c := Target(db, name);
    Db(db.colls[name := c.(docs := c.docs + Stored(docs, db.nextOid))], db.nextOid + |docs|)
  }

  /** The documents of a collection, in natural order; a missing collection has none. */
  function Docs(db: Db, name: string): seq<Document> {
    if name in db.colls then db.colls[name].docs else []
  }

  /** The projection `find({}, {'_id': 0})`. */
  function FindWithoutId(db: Db, name: string): (r: seq<Document>)
    ensures |r| == |Docs(db, name)|
    ensures forall i :: 0 <= i < |r| ==> r[i] == WithoutId(Docs(db, name)[i])
  {
    var ds := Docs(db, name);
    seq(|ds|, i requires 0 <= i < |ds| => WithoutId(ds[i]))
  }

  /** The store as a mutable object, answering the driver calls of the startup pass. */
  class Store {
    var colls: map<string, Collection>
    var nextOid: nat
    var log: seq<Call>

    function State(): Db
      reads this
    {
      Db(colls, nextOid)
    }

    constructor (db: Db)
      ensures State() == db && log == []
    {
      colls := db.colls;
      nextOid := db.nextOid;
      log := [];
    }

    method ListCollectionNames() returns (names: set<string>)
      ensures names == colls.Keys
    {
      names := colls.Keys;
    }

    /** `create_collection(name, validator=...)`; ok is false when the name is taken (CollectionInvalid). */
    method CreateCollection(name: string, validator: Validator) returns (ok: bool)
      modifies this
      ensures ok == (name !in old(colls))
      ensures ok ==> State() == CreateCollectionOp(old(State()), name, validator)
      ensures !ok ==> State() == old(State())
      ensures log == old(log) + [CreateCollectionCall(name, validator)]
    {
      log := log + [CreateCollectionCall(name, validator)];
      ok := name !in colls;
      if ok {
        colls := colls[name := NewCollection(validator)];
      }
    }

    method IndexInformation(name: string) returns (s: seq<IndexInfo>)
      ensures s == Snapshot(State(), name)
    {
      s := if name in colls then colls[name].indexes else [];
    }

    /** `create_index(keys, **options)`; ok is false when the store rejects it as conflicting. */
    method CreateIndex(name: string, ix: IndexSpec) returns (ok: bool)
      modifies this
      ensures ok == CreateIndexOp(Target(old(State()), name), ix).Some?
      ensures ok ==> State() == SetColl(old(State()), name, CreateIndexOp(Target(old(State()), name), ix).value)
      ensures !ok ==> State() == old(State())
      ensures log == old(log) + [CreateIndexCall(name, ix.key, ix.options)]
    {
      log := log + [CreateIndexCall(name, ix.key, ix.options)];
      var r := CreateIndexOp(Target(State(), name), ix);
      ok := r.Some?;
      if ok {
        colls := colls[name := r.value];
      }
    }

    method CountDocuments(name: string) returns (n: nat)
      ensures n == CountDocs(State(), name)
    {
      n := if name in colls then |colls[name].docs| else 0;
    }

    method InsertOne(name: string, doc: Document)
      modifies this
      ensures State() == InsertDocs(old(State()), name, [doc])
      ensures log == old(log) + [InsertOneCall(name, doc)]
    {
      log := log + [InsertOneCall(name, doc)];
      var d := InsertDocs(State(), name, [doc]);
      colls, nextOid := d.colls, d.nextOid;
    }

    method InsertMany(name: string, docs: seq<Document>)
      modifies this
      ensures State() == InsertDocs(old(State()), name, docs)
      ensures log == old(log) + [InsertManyCall(name, docs)]
    {
      log := log + [InsertManyCall(name, docs)];
      var d := InsertDocs(State(), name, docs);
      colls, nextOid := d.colls, d.nextOid;
    }

    method Find(name: string) returns (docs: seq<Document>)
      ensures docs == FindWithoutId(State(), name)
    {
      docs := FindWithoutId(State(), name);
    }
  }
}
