/**
 * `initialize_database`: connect with bounded retry, reconcile the six declared
 * collections and their indexes against the store, seed the three reference
 * collections when they are empty, and publish the courses to the app config.
 *
 * The functions below describe one pass on store values; the methods perform
 * the same pass on a `Store` object and are proved to agree with them.
 */
module Reconcile {
  import opened Wrappers
  import opened Documents
  import opened Schema
  import opened DocStore
  import opened Connection

  datatype InitError =
    | ConnectionFailed                             // RuntimeError after the last retry
    | ProbeError                                   // a non-transient ping exception, re-raised as is
    | CollectionExists(name: string)               // create_collection rejected: the name is taken
    | IndexConflict(coll: string, key: IndexKey)   // create_index rejected by the store

  /** A pass in progress: the store, the write calls issued so far, and the error that stopped it, if any. */
  datatype Run = Run(db: Db, log: seq<Call>, failed: Option<InitError>)

  /** One declared index, judged against the collection's single index snapshot. */
  function StepIndex(e: Run, name: string, snapshot: seq<IndexInfo>, ix: IndexSpec): Run
    requires e.failed.None?
  {
    if Satisfied(snapshot, ix) then e
    else
      var log := e.log + [CreateIndexCall(name, ix.key, ix.options)];
      match CreateIndexOp(Target(e.db, name), ix)
      case None => Run(e.db, log, Some(IndexConflict(name, ix.key)))
      case Some(c) => Run(SetColl(e.db, name, c), log, None)
  }

  function RunIndexes(e: Run, name: string, snapshot: seq<IndexInfo>, ixs: seq<IndexSpec>): Run
    decreases |ixs|
  {
    if ixs == [] || e.failed.Some? then e
    else RunIndexes(StepIndex(e, name, snapshot, ixs[0]), name, snapshot, ixs[1..])
  }

  /** Create the collection if its name was not listed, then reconcile its indexes. */
  function CreateIfAbsent(e: Run, present: set<string>, spec: CollectionSpec): Run
    requires e.failed.None?
  {
    if spec.name in present then e
    else
      var log := e.log + [CreateCollectionCall(spec.name, spec.validator)];
      if spec.name in e.db.colls then Run(e.db, log, Some(CollectionExists(spec.name)))
      else Run(CreateCollectionOp(e.db, spec.name, spec.validator), log, None)
  }

  function StepSpec(e: Run, present: set<string>, spec: CollectionSpec): Run
    requires e.failed.None?
  {
    var e1 := CreateIfAbsent(e, present, spec);
    if e1.failed.Some? then e1
    else RunIndexes(e1, spec.name, Snapshot(e1.db, spec.name), spec.indexes)
  }

  /** The collections in declaration order; `present` is the one `list_collection_names()` snapshot. */
  function RunSpecs(e: Run, present: set<string>, specs: seq<CollectionSpec>): Run
    decreases |specs|
  {
    if specs == [] || e.failed.Some? then e
    else RunSpecs(StepSpec(e, present, specs[0]), present, specs[1..])
  }

  /** The courses are inserted one `insert_one` at a time, in list order. */
  function InsertEach(e: Run, name: string, docs: seq<Document>): (r: Run)
    ensures r.failed == e.failed
    decreases |docs|
  {
    if docs == [] then e
    else InsertEach(Run(InsertDocs(e.db, name, [docs[0]]), e.log + [InsertOneCall(name, docs[0])], e.failed),
                    name, docs[1..])
  }

  /** The courses guard: one `insert_one` per document, in list order, when the collection is empty. */
  function SeedEach(e: Run, name: string, docs: seq<Document>): Run {
    if CountDocs(e.db, name) == 0 then InsertEach(e, name, docs) else e
  }

  /** One `insert_many` of the whole seed set, when the collection is empty. */
  function SeedMany(e: Run, name: string, docs: seq<Document>): Run {
    if CountDocs(e.db, name) == 0 then Run(InsertDocs(e.db, name, docs), e.log + [InsertManyCall(name, docs)], e.failed)
    else e
  }

  /** The end of a startup pass: the store and calls, and `app.config['COURSES']` when it was set. */
  datatype Outcome = Outcome(run: Run, courses: Option<seq<Document>>)

  /** The seed step after reconciliation: the courses, their config, then the tax rates and payment locations. */
  function Seed(r: Run, courses: seq<Document>, taxes: seq<Document>, places: seq<Document>): (o: Outcome)
    ensures o.run.failed == r.failed && o.courses.Some?
  {
    var c := SeedEach(r, "courses", courses);
    Outcome(SeedMany(SeedMany(c, "tax_rates", taxes), "payment_locations", places), Some(FindWithoutId(c.db, "courses")))
  }

  /** A pass after the connection is established, for given declarations and seed sets. */
  function Pass(e: Run, specs: seq<CollectionSpec>, courses: seq<Document>, taxes: seq<Document>, places: seq<Document>): Outcome
    requires e.failed.None?
  {
    var r := RunSpecs(e, e.db.colls.Keys, specs);
    if r.failed.Some? then Outcome(r, None) else Seed(r, courses, taxes, places)
  }

  /** Everything after the connection is established, with the declarations and seed sets of models.py. */
  function Startup(e: Run): Outcome
    requires e.failed.None?
  {
    Pass(e, CollectionSchemas, SampleCourses, SampleTaxRates, SampleLocations)
  }

  function ConnectError(o: ConnectOutcome): InitError {
    if o == Exhausted then ConnectionFailed else ProbeError
  }

  /** The store's current value as a pass in progress. */
  function Current(store: Store): Run
    reads store
  {
    Run(store.State(), store.log, None)
  }

  /** The search of one index snapshot for the first entry with the declared key tuple. */
  method IndexExists(snapshot: seq<IndexInfo>, ix: IndexSpec) returns (indexExists: bool)
    ensures indexExists == Satisfied(snapshot, ix)
  {
    indexExists := false;
    var k := 0;
    while k < |snapshot|
      invariant 0 <= k <= |snapshot|
      invariant forall m :: 0 <= m < k ==> snapshot[m].key != ix.key
    {
      if snapshot[k].key == ix.key {
        indexExists := Strip(snapshot[k].info) == ix.options;
        return;
      }
      k := k + 1;
    }
  }

  /** The loop over one collection's declared indexes, against one snapshot. */
  method ReconcileIndexes(store: Store, name: string, snapshot: seq<IndexInfo>, ixs: seq<IndexSpec>)
    returns (err: Option<InitError>)
    modifies store
    ensures var e := RunIndexes(Run(old(store.State()), old(store.log), None), name, snapshot, ixs);
            store.State() == e.db && store.log == e.log && err == e.failed
  {
    ghost var start := Current(store);
    var j := 0;
    while j < |ixs|
      invariant 0 <= j <= |ixs|
      invariant RunIndexes(start, name, snapshot, ixs) == RunIndexes(Current(store), name, snapshot, ixs[j..])
    {
      var ix := ixs[j];
      assert ixs[j..][1..] == ixs[j + 1..];
      var present := IndexExists(snapshot, ix);
      if !present {
        var ok := store.CreateIndex(name, ix);
        if !ok {
          return Some(IndexConflict(name, ix.key));
        }
      }
      j := j + 1;
    }
    return None;
  }

  /** One declared collection: created when its name was not listed, then its indexes against one snapshot. */
  method ReconcileCollection(store: Store, present: set<string>, spec: CollectionSpec) returns (err: Option<InitError>)
    modifies store
    ensures var e := StepSpec(Run(old(store.State()), old(store.log), None), present, spec);
            store.State() == e.db && store.log == e.log && err == e.failed
  {
    if spec.name !in present {
      var ok := store.CreateCollection(spec.name, spec.validator);
      if !ok {
        return Some(CollectionExists(spec.name));
      }
    }
    var snapshot := store.IndexInformation(spec.name);
    err := ReconcileIndexes(store, spec.name, snapshot, spec.indexes);
  }

  /** The reconcile loop of models.py, on the store object. */
  method ReconcileCollections(store: Store, specs: seq<CollectionSpec>) returns (err: Option<InitError>)
    modifies store
    ensures var e := RunSpecs(Run(old(store.State()), old(store.log), None), old(store.colls.Keys), specs);
            store.State() == e.db && store.log == e.log && err == e.failed
  {
    var present := store.ListCollectionNames();
    ghost var start := Current(store);
    var i := 0;
    while i < |specs|
      invariant 0 <= i <= |specs|
      invariant RunSpecs(start, present, specs) == RunSpecs(Current(store), present, specs[i..])
    {
      assert specs[i..][1..] == specs[i + 1..];
      err := ReconcileCollection(store, present, specs[i]);
      if err.Some? {
        return;
      }
      i := i + 1;
    }
    return None;
  }

  /** `insert_one` of each document in list order. */
  method InsertInOrder(store: Store, name: string, docs: seq<Document>)
    modifies store
    ensures var e := InsertEach(Run(old(store.State()), old(store.log), None), name, docs);
            store.State() == e.db && store.log == e.log
  {
    ghost var start := Current(store);
    var k := 0;
    while k < |docs|
      invariant 0 <= k <= |docs|
      invariant InsertEach(start, name, docs) == InsertEach(Current(store), name, docs[k..])
    {
      assert docs[k..][1..] == docs[k + 1..];
      store.InsertOne(name, docs[k]);
      k := k + 1;
    }
  }

  /** The three seed guards and the courses config write. */
  method SeedReferenceData(store: Store, courses: seq<Document>, taxes: seq<Document>, places: seq<Document>)
    returns (config: seq<Document>)
    modifies store
    ensures var o := Seed(Run(old(store.State()), old(store.log), None), courses, taxes, places);
            store.State() == o.run.db && store.log == o.run.log && Some(config) == o.courses
  {
    var n := store.CountDocuments("courses");
    if n == 0 {
      InsertInOrder(store, "courses", courses);
    }
    config := store.Find("courses");
    n := store.CountDocuments("tax_rates");
    if n == 0 {
      store.InsertMany("tax_rates", taxes);
    }
    n := store.CountDocuments("payment_locations");
    if n == 0 {
      store.InsertMany("payment_locations", places);
    }
  }

  /** One startup pass after the connection is up: reconcile, then seed; the courses or the error. */
  method ReconcileAndSeed(store: Store, specs: seq<CollectionSpec>,
                          courses: seq<Document>, taxes: seq<Document>, places: seq<Document>)
    returns (r: Result<seq<Document>, InitError>)
    modifies store
    ensures var o := Pass(Run(old(store.State()), old(store.log), None), specs, courses, taxes, places);
            store.State() == o.run.db && store.log == o.run.log &&
            r == (if o.run.failed.Some? then Failure(o.run.failed.value) else Success(o.courses.value))
  {
    var err := ReconcileCollections(store, specs);
    if err.Some? {
      return Failure(err.value);
    }
    var config := SeedReferenceData(store, courses, taxes, places);
    r := Success(config);
  }

  /**
   * `initialize_database(app)`: returns `app.config['COURSES']` or the error
   * that aborts startup, and how many pings and sleeps the connection took.
   */
  method InitializeDatabase(store: Store, probe: nat -> Probe)
    returns (conn: ConnectOutcome, pings: nat, sleeps: nat, r: Result<seq<Document>, InitError>)
    modifies store
    ensures RetryOutcome(probe, conn, pings, sleeps)
    ensures conn != Connected ==>
      r == Failure(ConnectError(conn)) && store.State() == old(store.State()) && store.log == old(store.log)
    ensures conn == Connected ==>
      var o := Startup(Run(old(store.State()), old(store.log), None));
      store.State() == o.run.db && store.log == o.run.log &&
      r == (if o.run.failed.Some? then Failure(o.run.failed.value) else Success(o.courses.value))
  {
    var slept;
    conn, pings, sleeps, slept := Connect(probe);
    if conn != Connected {
      return conn, pings, sleeps, Failure(ConnectError(conn));
    }
    r := ReconcileAndSeed(store, CollectionSchemas, SampleCourses, SampleTaxRates, SampleLocations);
  }
}
