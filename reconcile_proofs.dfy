/**
 * What a startup pass guarantees: the skip/create rule for indexes, that the
 * pass only ever adds to the store, that a successful pass leaves every declared
 * index present, that the seed guard inserts all of a seed set or nothing, and
 * that a second pass over the result issues no call at all.
 */
module ReconcileProofs {
  import opened Wrappers
  import opened Documents
  import opened Schema
  import opened DocStore
  import opened Reconcile

  // ---- the index rule ----

  /** `create_index` is issued for a declared index exactly when the skip rule fails on the snapshot. */
  lemma StepIndexCreatesIff(e: Run, name: string, snapshot: seq<IndexInfo>, ix: IndexSpec)
    requires e.failed.None?
    ensures Satisfied(snapshot, ix) ==> StepIndex(e, name, snapshot, ix) == e
    ensures !Satisfied(snapshot, ix) ==>
      StepIndex(e, name, snapshot, ix).log == e.log + [CreateIndexCall(name, ix.key, ix.options)]
  {
  }

  /** A key match whose options differ does not skip: `create_index` is still issued. */
  lemma DivergentOptionsStillCreate(e: Run, name: string, snapshot: seq<IndexInfo>, ix: IndexSpec, k: nat)
    requires e.failed.None?
    requires k < |snapshot| && snapshot[k].key == ix.key && Strip(snapshot[k].info) != ix.options
    requires forall j :: 0 <= j < k ==> snapshot[j].key != ix.key
    ensures StepIndex(e, name, snapshot, ix).log == e.log + [CreateIndexCall(name, ix.key, ix.options)]
  {
    assert FirstKeyMatch(snapshot, ix.key) == Some(k);
  }

  lemma {:induction false} FirstKeyMatchAppend(s: seq<IndexInfo>, t: seq<IndexInfo>, key: IndexKey)
    requires FirstKeyMatch(s, key).Some?
    ensures FirstKeyMatch(s + t, key) == FirstKeyMatch(s, key)
  {
    if s[0].key != key {
      assert (s + t)[1..] == s[1..] + t;
      FirstKeyMatchAppend(s[1..], t, key);
    }
  }

  lemma {:induction false} FirstKeyMatchNew(s: seq<IndexInfo>, n: IndexInfo)
    requires FirstKeyMatch(s, n.key).None?
    ensures FirstKeyMatch(s + [n], n.key) == Some(|s|)
  {
    if s != [] {
      assert (s + [n])[1..] == s[1..] + [n];
      FirstKeyMatchNew(s[1..], n);
    }
  }

  /** Only the first key match is examined: what follows it never changes the verdict. */
  lemma LaterMatchesIgnored(s: seq<IndexInfo>, t: seq<IndexInfo>, ix: IndexSpec)
    requires FirstKeyMatch(s, ix.key).Some?
    ensures Satisfied(s + t, ix) == Satisfied(s, ix)
  {
    FirstKeyMatchAppend(s, t, ix.key);
    var k := FirstKeyMatch(s, ix.key).value;
    assert (s + t)[k] == s[k];
  }

  /** A satisfied declaration stays satisfied when indexes are added after the existing ones. */
  lemma SatisfiedPrefix(s: seq<IndexInfo>, s': seq<IndexInfo>, ix: IndexSpec)
    requires Satisfied(s, ix) && s <= s'
    ensures Satisfied(s', ix)
  {
    assert s' == s + s'[|s|..];
    LaterMatchesIgnored(s, s'[|s|..], ix);
  }

  lemma StripVersioned(options: Options)
    requires options.Keys !! StrippedEntries
    ensures Strip(options["v" := Num(IndexVersion)]) == options
  {
    assert Strip(options["v" := Num(IndexVersion)]).Keys == options.Keys;
  }

  /** After a successful `create_index`, the declaration is satisfied by the collection's indexes. */
  lemma CreateIndexSatisfies(c: Collection, ix: IndexSpec)
    requires WellFormedIndex(ix)
    requires CreateIndexOp(c, ix).Some?
    ensures Satisfied(CreateIndexOp(c, ix).value.indexes, ix)
  {
    if !Satisfied(c.indexes, ix) {
      var n := IndexInfo(ix.key, ix.options["v" := Num(IndexVersion)]);
      FirstKeyMatchNew(c.indexes, n);
      StripVersioned(ix.options);
    }
  }

  // ---- a pass only adds to the store ----

  ghost predicate CollExtends(c: Collection, c': Collection) {
    c'.validator == c.validator && c.indexes <= c'.indexes && c.docs <= c'.docs
  }

  /** Every collection of `db` is still in `db'`, with the same validator, and its
      indexes and documents only gained entries at the end. */
  ghost predicate Extends(db: Db, db': Db) {
    db.colls.Keys <= db'.colls.Keys &&
    forall n :: n in db.colls ==> CollExtends(db.colls[n], db'.colls[n])
  }

  lemma ExtendsTrans(a: Db, b: Db, c: Db)
    requires Extends(a, b) && Extends(b, c)
    ensures Extends(a, c)
  {
    forall n | n in a.colls ensures CollExtends(a.colls[n], c.colls[n]) {
      assert CollExtends(a.colls[n], b.colls[n]) && CollExtends(b.colls[n], c.colls[n]);
    }
  }

  lemma StepIndexExtends(e: Run, name: string, snapshot: seq<IndexInfo>, ix: IndexSpec)
    requires e.failed.None?
    ensures Extends(e.db, StepIndex(e, name, snapshot, ix).db)
  {
  }

  lemma {:induction false} RunIndexesExtends(e: Run, name: string, snapshot: seq<IndexInfo>, ixs: seq<IndexSpec>)
    ensures Extends(e.db, RunIndexes(e, name, snapshot, ixs).db)
    decreases |ixs|
  {
    if ixs != [] && e.failed.None? {
      var e1 := StepIndex(e, name, snapshot, ixs[0]);
      StepIndexExtends(e, name, snapshot, ixs[0]);
      RunIndexesExtends(e1, name, snapshot, ixs[1..]);
      ExtendsTrans(e.db, e1.db, RunIndexes(e, name, snapshot, ixs).db);
    }
  }

  lemma StepSpecExtends(e: Run, present: set<string>, spec: CollectionSpec)
    requires e.failed.None?
    ensures Extends(e.db, StepSpec(e, present, spec).db)
  {
    var e1 := CreateIfAbsent(e, present, spec);
    assert Extends(e.db, e1.db);
    if e1.failed.None? {
      RunIndexesExtends(e1, spec.name, Snapshot(e1.db, spec.name), spec.indexes);
      ExtendsTrans(e.db, e1.db, StepSpec(e, present, spec).db);
    }
  }

  lemma {:induction false} RunSpecsExtends(e: Run, present: set<string>, specs: seq<CollectionSpec>)
    ensures Extends(e.db, RunSpecs(e, present, specs).db)
    decreases |specs|
  {
    if specs != [] && e.failed.None? {
      var e1 := StepSpec(e, present, specs[0]);
      StepSpecExtends(e, present, specs[0]);
      RunSpecsExtends(e1, present, specs[1..]);
      ExtendsTrans(e.db, e1.db, RunSpecs(e, present, specs).db);
    }
  }

  // ---- a successful pass leaves every declared index in place ----

  ghost predicate AllSatisfied(s: seq<IndexInfo>, ixs: seq<IndexSpec>) {
    forall j :: 0 <= j < |ixs| ==> Satisfied(s, ixs[j])
  }

  /** Every declared collection exists and every one of its declared indexes passes the skip rule. */
  ghost predicate Converged(db: Db, specs: seq<CollectionSpec>) {
    forall i :: 0 <= i < |specs| ==>
      specs[i].name in db.colls && AllSatisfied(db.colls[specs[i].name].indexes, specs[i].indexes)
  }

  lemma AllSatisfiedPrefix(s: seq<IndexInfo>, s': seq<IndexInfo>, ixs: seq<IndexSpec>)
    requires AllSatisfied(s, ixs) && s <= s'
    ensures AllSatisfied(s', ixs)
  {
    forall j | 0 <= j < |ixs| ensures Satisfied(s', ixs[j]) {
      SatisfiedPrefix(s, s', ixs[j]);
    }
  }

  lemma ConvergedExtends(db: Db, db': Db, specs: seq<CollectionSpec>)
    requires Converged(db, specs) && Extends(db, db')
    ensures Converged(db', specs)
  {
    forall i | 0 <= i < |specs|
      ensures specs[i].name in db'.colls && AllSatisfied(db'.colls[specs[i].name].indexes, specs[i].indexes)
    {
      var n := specs[i].name;
      assert CollExtends(db.colls[n], db'.colls[n]);
      AllSatisfiedPrefix(db.colls[n].indexes, db'.colls[n].indexes, specs[i].indexes);
    }
  }

  /** One index step that succeeds leaves the index satisfied and the snapshot still a prefix. */
  lemma StepIndexConverges(e: Run, name: string, snapshot: seq<IndexInfo>, ix: IndexSpec)
    requires e.failed.None? && name in e.db.colls && snapshot <= e.db.colls[name].indexes && WellFormedIndex(ix)
    ensures var e1 := StepIndex(e, name, snapshot, ix);
            e1.failed.None? ==> name in e1.db.colls && Satisfied(e1.db.colls[name].indexes, ix) &&
                                snapshot <= e1.db.colls[name].indexes
  {
    var e1 := StepIndex(e, name, snapshot, ix);
    StepIndexExtends(e, name, snapshot, ix);
    if e1.failed.None? {
      if Satisfied(snapshot, ix) {
        SatisfiedPrefix(snapshot, e1.db.colls[name].indexes, ix);
      } else {
        CreateIndexSatisfies(e.db.colls[name], ix);
      }
      assert CollExtends(e.db.colls[name], e1.db.colls[name]);
    }
  }

  /** A satisfied head and a satisfied tail make the whole list satisfied. */
  lemma AllSatisfiedCons(s: seq<IndexInfo>, ixs: seq<IndexSpec>)
    requires ixs != [] && Satisfied(s, ixs[0]) && AllSatisfied(s, ixs[1..])
    ensures AllSatisfied(s, ixs)
  {
    forall j | 0 <= j < |ixs| ensures Satisfied(s, ixs[j]) {
      if j > 0 {
        assert ixs[j] == ixs[1..][j - 1];
      }
    }
  }

  lemma {:induction false} RunIndexesConverge(e: Run, name: string, snapshot: seq<IndexInfo>, ixs: seq<IndexSpec>)
    requires e.failed.None? && name in e.db.colls && snapshot <= e.db.colls[name].indexes
    requires forall j :: 0 <= j < |ixs| ==> WellFormedIndex(ixs[j])
    ensures var r := RunIndexes(e, name, snapshot, ixs);
            r.failed.None? ==> name in r.db.colls && AllSatisfied(r.db.colls[name].indexes, ixs)
    decreases |ixs|
  {
    var r := RunIndexes(e, name, snapshot, ixs);
    if ixs != [] {
      var ix := ixs[0];
      var e1 := StepIndex(e, name, snapshot, ix);
      StepIndexConverges(e, name, snapshot, ix);
      if e1.failed.None? {
        assert forall j :: 0 <= j < |ixs[1..]| ==> WellFormedIndex(ixs[1..][j]) by {
          forall j | 0 <= j < |ixs[1..]| ensures WellFormedIndex(ixs[1..][j]) {
            assert ixs[1..][j] == ixs[j + 1];
          }
        }
        RunIndexesConverge(e1, name, snapshot, ixs[1..]);
        RunIndexesExtends(e1, name, snapshot, ixs[1..]);
        assert r == RunIndexes(e1, name, snapshot, ixs[1..]);
        if r.failed.None? {
          assert CollExtends(e1.db.colls[name], r.db.colls[name]);
          SatisfiedPrefix(e1.db.colls[name].indexes, r.db.colls[name].indexes, ix);
          AllSatisfiedCons(r.db.colls[name].indexes, ixs);
        }
      }
    }
  }

  lemma StepSpecConverges(e: Run, present: set<string>, spec: CollectionSpec)
    requires e.failed.None? && present <= e.db.colls.Keys
    requires forall j :: 0 <= j < |spec.indexes| ==> WellFormedIndex(spec.indexes[j])
    ensures var r := StepSpec(e, present, spec);
            r.failed.None? ==> spec.name in r.db.colls && AllSatisfied(r.db.colls[spec.name].indexes, spec.indexes)
  {
    var e1 := CreateIfAbsent(e, present, spec);
    if e1.failed.None? {
      RunIndexesConverge(e1, spec.name, Snapshot(e1.db, spec.name), spec.indexes);
    }
  }

  /** Convergence: after a successful reconcile, every declared index of every declared collection is present. */
  lemma {:induction false} RunSpecsConverge(e: Run, present: set<string>, specs: seq<CollectionSpec>)
    requires e.failed.None? && present <= e.db.colls.Keys
    requires WellFormed(specs)
    ensures var r := RunSpecs(e, present, specs); r.failed.None? ==> Converged(r.db, specs)
    decreases |specs|
  {
    var r := RunSpecs(e, present, specs);
    if specs != [] {
      var e1 := StepSpec(e, present, specs[0]);
      StepSpecExtends(e, present, specs[0]);
      if e1.failed.None? {
        StepSpecConverges(e, present, specs[0]);
        assert WellFormed(specs[1..]) by {
          forall i, j | 0 <= i < |specs[1..]| && 0 <= j < |specs[1..][i].indexes|
            ensures WellFormedIndex(specs[1..][i].indexes[j])
          {
            assert specs[1..][i] == specs[i + 1];
          }
        }
        RunSpecsConverge(e1, present, specs[1..]);
        RunSpecsExtends(e1, present, specs[1..]);
        if r.failed.None? {
          ConvergedExtends(e1.db, r.db, [specs[0]]);
          forall i | 0 <= i < |specs|
            ensures specs[i].name in r.db.colls && AllSatisfied(r.db.colls[specs[i].name].indexes, specs[i].indexes)
          {
            if i == 0 {
              assert [specs[0]][0] == specs[0];
            } else {
              assert specs[i] == specs[1..][i - 1];
            }
          }
        }
      }
    }
  }

  // ---- what a pass creates, and what it leaves alone ----

  function SpecNames(specs: seq<CollectionSpec>): set<string> {
    set i | 0 <= i < |specs| :: specs[i].name
  }

  lemma {:induction false} RunIndexesFrame(e: Run, name: string, snapshot: seq<IndexInfo>, ixs: seq<IndexSpec>)
    ensures var r := RunIndexes(e, name, snapshot, ixs);
            e.db.colls.Keys <= r.db.colls.Keys <= e.db.colls.Keys + {name} &&
            (name in e.db.colls ==> r.db.colls.Keys == e.db.colls.Keys) &&
            forall n :: n in e.db.colls && n != name ==> r.db.colls[n] == e.db.colls[n]
    decreases |ixs|
  {
    if ixs != [] && e.failed.None? {
      RunIndexesFrame(StepIndex(e, name, snapshot, ixs[0]), name, snapshot, ixs[1..]);
    }
  }

  lemma StepSpecFrame(e: Run, present: set<string>, spec: CollectionSpec)
    requires e.failed.None?
    ensures var r := StepSpec(e, present, spec);
            e.db.colls.Keys <= r.db.colls.Keys <= e.db.colls.Keys + {spec.name} &&
            forall n :: n in e.db.colls && n != spec.name ==> r.db.colls[n] == e.db.colls[n]
  {
    var e1 := CreateIfAbsent(e, present, spec);
    if e1.failed.None? {
      RunIndexesFrame(e1, spec.name, Snapshot(e1.db, spec.name), spec.indexes);
    }
  }

  /** Only declared collections are created or touched; every other collection is left exactly as it was. */
  lemma {:induction false} RunSpecsFrame(e: Run, present: set<string>, specs: seq<CollectionSpec>)
    ensures var r := RunSpecs(e, present, specs);
            e.db.colls.Keys <= r.db.colls.Keys <= e.db.colls.Keys + SpecNames(specs) &&
            forall n :: n in e.db.colls && n !in SpecNames(specs) ==> r.db.colls[n] == e.db.colls[n]
    decreases |specs|
  {
    if specs != [] && e.failed.None? {
      var e1 := StepSpec(e, present, specs[0]);
      StepSpecFrame(e, present, specs[0]);
      RunSpecsFrame(e1, present, specs[1..]);
      assert SpecNames(specs) == {specs[0].name} + SpecNames(specs[1..]) by {
        forall n | n in SpecNames(specs) ensures n in {specs[0].name} + SpecNames(specs[1..]) {
          var i :| 0 <= i < |specs| && specs[i].name == n;
          if i > 0 {
            assert specs[1..][i - 1] == specs[i];
          }
        }
        forall n | n in SpecNames(specs[1..]) ensures n in SpecNames(specs) {
          var i :| 0 <= i < |specs[1..]| && specs[1..][i].name == n;
          assert specs[i + 1] == specs[1..][i];
        }
      }
    }
  }

  /**
   * A collection whose name was not listed is created with exactly its declared
   * validator; one that was listed keeps its validator (Extends).
   */
  lemma {:induction false} AbsentCreatedWithValidator(e: Run, present: set<string>, specs: seq<CollectionSpec>)
    requires e.failed.None? && DistinctNames(specs)
    requires forall i :: 0 <= i < |specs| && specs[i].name !in present ==> specs[i].name !in e.db.colls
    ensures var r := RunSpecs(e, present, specs);
            r.failed.None? ==>
              forall i :: 0 <= i < |specs| && specs[i].name !in present ==>
                specs[i].name in r.db.colls && r.db.colls[specs[i].name].validator == specs[i].validator
    decreases |specs|
  {
    var r := RunSpecs(e, present, specs);
    if specs != [] {
      var spec := specs[0];
      var e1 := StepSpec(e, present, spec);
      StepSpecFrame(e, present, spec);
      StepSpecExtends(e, present, spec);
      if e1.failed.None? {
        var c1 := CreateIfAbsent(e, present, spec);
        if spec.name !in present {
          RunIndexesExtends(c1, spec.name, Snapshot(c1.db, spec.name), spec.indexes);
          assert CollExtends(c1.db.colls[spec.name], e1.db.colls[spec.name]);
          assert e1.db.colls[spec.name].validator == spec.validator;
        }
        assert DistinctNames(specs[1..]) by {
          forall i, j | 0 <= i < j < |specs[1..]| ensures specs[1..][i].name != specs[1..][j].name {
            assert specs[1..][i] == specs[i + 1] && specs[1..][j] == specs[j + 1];
          }
        }
        forall i | 0 <= i < |specs[1..]| && specs[1..][i].name !in present
          ensures specs[1..][i].name !in e1.db.colls
        {
          assert specs[1..][i] == specs[i + 1];
        }
        AbsentCreatedWithValidator(e1, present, specs[1..]);
        RunSpecsExtends(e1, present, specs[1..]);
        if r.failed.None? {
          forall i | 0 <= i < |specs| && specs[i].name !in present
            ensures specs[i].name in r.db.colls && r.db.colls[specs[i].name].validator == specs[i].validator
          {
            if i == 0 {
              assert CollExtends(e1.db.colls[spec.name], r.db.colls[spec.name]);
            } else {
              assert specs[i] == specs[1..][i - 1];
            }
          }
        }
      }
    }
  }

  // ---- a converged store is left alone ----

  lemma {:induction false} RunIndexesNoOp(e: Run, name: string, ixs: seq<IndexSpec>)
    requires e.failed.None? && name in e.db.colls && AllSatisfied(e.db.colls[name].indexes, ixs)
    ensures RunIndexes(e, name, e.db.colls[name].indexes, ixs) == e
    decreases |ixs|
  {
    if ixs != [] {
      assert Satisfied(e.db.colls[name].indexes, ixs[0]);
      assert AllSatisfied(e.db.colls[name].indexes, ixs[1..]) by {
        forall j | 0 <= j < |ixs[1..]| ensures Satisfied(e.db.colls[name].indexes, ixs[1..][j]) {
          assert ixs[1..][j] == ixs[j + 1];
        }
      }
      RunIndexesNoOp(e, name, ixs[1..]);
    }
  }

  /** Idempotence of reconciliation: on a converged store nothing is created and no call is issued. */
  lemma {:induction false} RunSpecsNoOp(e: Run, specs: seq<CollectionSpec>)
    requires e.failed.None? && Converged(e.db, specs)
    ensures RunSpecs(e, e.db.colls.Keys, specs) == e
    decreases |specs|
  {
    if specs != [] {
      assert specs[0].name in e.db.colls && AllSatisfied(e.db.colls[specs[0].name].indexes, specs[0].indexes);
      RunIndexesNoOp(e, specs[0].name, specs[0].indexes);
      assert StepSpec(e, e.db.colls.Keys, specs[0]) == e;
      assert Converged(e.db, specs[1..]) by {
        forall i | 0 <= i < |specs[1..]|
          ensures specs[1..][i].name in e.db.colls && AllSatisfied(e.db.colls[specs[1..][i].name].indexes, specs[1..][i].indexes)
        {
          assert specs[1..][i] == specs[i + 1];
        }
      }
      RunSpecsNoOp(e, specs[1..]);
    }
  }

  // ---- seeding ----

  function InsertOneCalls(name: string, docs: seq<Document>): (r: seq<Call>)
    ensures |r| == |docs| && forall i :: 0 <= i < |docs| ==> r[i] == InsertOneCall(name, docs[i])
  {
    seq(|docs|, i requires 0 <= i < |docs| => InsertOneCall(name, docs[i]))
  }

  lemma StoredConcat(a: seq<Document>, b: seq<Document>, k: nat)
    ensures Stored(a, k) + Stored(b, k + |a|) == Stored(a + b, k)
  {
    var l, r := Stored(a, k) + Stored(b, k + |a|), Stored(a + b, k);
    forall i | 0 <= i < |a + b| ensures l[i] == r[i] {
      if i < |a| {
        assert (a + b)[i] == a[i];
      } else {
        assert (a + b)[i] == b[i - |a|];
      }
    }
  }

  lemma InsertDocsConcat(db: Db, name: string, a: seq<Document>, b: seq<Document>)
    ensures InsertDocs(InsertDocs(db, name, a), name, b) == InsertDocs(db, name, a + b)
  {
    var k := db.nextOid;
    var c := Target(db, name);
    var sa, sb, sab := Stored(a, k), Stored(b, k + |a|), Stored(a + b, k);
    StoredConcat(a, b, k);
    SeqAssoc(c.docs, sa, sb);
    var c1 := c.(docs := c.docs + sa);
    var c2 := c.(docs := c.docs + sab);
    var d0 := InsertDocs(db, name, a);
    assert d0 == Db(db.colls[name := c1], k + |a|);
    assert Target(d0, name) == c1;
    assert InsertDocs(d0, name, b) == Db(d0.colls[name := c2], k + |a| + |b|);
    assert d0.colls[name := c2] == db.colls[name := c2];
  }

  /** One `insert_one` per document stores the same as one insert of them all, in order. */
  lemma InsertOneCallsCons(name: string, docs: seq<Document>)
    requires docs != []
    ensures InsertOneCalls(name, docs) == [InsertOneCall(name, docs[0])] + InsertOneCalls(name, docs[1..])
  {
    var l := [InsertOneCall(name, docs[0])] + InsertOneCalls(name, docs[1..]);
    assert forall i :: 1 <= i < |docs| ==> l[i] == InsertOneCalls(name, docs[1..])[i - 1];
  }

  lemma {:induction false} InsertEachStores(e: Run, name: string, docs: seq<Document>)
    requires docs != []
    ensures InsertEach(e, name, docs) == Run(InsertDocs(e.db, name, docs), e.log + InsertOneCalls(name, docs), e.failed)
    decreases |docs|
  {
    var call := InsertOneCall(name, docs[0]);
    var e1 := Run(InsertDocs(e.db, name, [docs[0]]), e.log + [call], e.failed);
    assert InsertEach(e, name, docs) == InsertEach(e1, name, docs[1..]);
    InsertOneCallsCons(name, docs);
    if |docs| == 1 {
      assert docs == [docs[0]];
    } else {
      InsertEachStores(e1, name, docs[1..]);
      InsertDocsConcat(e.db, name, [docs[0]], docs[1..]);
      assert [docs[0]] + docs[1..] == docs;
      SeqAssoc(e.log, [call], InsertOneCalls(name, docs[1..]));
    }
  }

  /** The courses guard: the documents in list order, one `insert_one` each, or nothing. */
  lemma SeedEachGuard(e: Run, name: string, docs: seq<Document>)
    requires docs != []
    ensures CountDocs(e.db, name) == 0 ==>
      SeedEach(e, name, docs) == Run(InsertDocs(e.db, name, docs), e.log + InsertOneCalls(name, docs), e.failed)
    ensures CountDocs(e.db, name) != 0 ==> SeedEach(e, name, docs) == e
  {
    if CountDocs(e.db, name) == 0 {
      InsertEachStores(e, name, docs);
    }
  }

  /** The tax-rate and payment-location guards: the whole seed set in one `insert_many`, or nothing. */
  lemma SeedManyGuard(e: Run, name: string, docs: seq<Document>)
    ensures CountDocs(e.db, name) == 0 ==>
      SeedMany(e, name, docs) == Run(InsertDocs(e.db, name, docs), e.log + [InsertManyCall(name, docs)], e.failed)
    ensures CountDocs(e.db, name) == 0 ==> Docs(SeedMany(e, name, docs).db, name) == Stored(docs, e.db.nextOid)
    ensures CountDocs(e.db, name) != 0 ==> SeedMany(e, name, docs) == e
  {
  }

  /** Documents without an `_id`, inserted into an empty collection, read back unchanged without `_id`. */
  lemma FindAfterInsert(db: Db, name: string, docs: seq<Document>)
    requires CountDocs(db, name) == 0
    requires forall i :: 0 <= i < |docs| ==> "_id" !in docs[i]
    ensures FindWithoutId(InsertDocs(db, name, docs), name) == docs
  {
    var d := InsertDocs(db, name, docs);
    assert Target(db, name).docs == [];
    assert Docs(d, name) == Stored(docs, db.nextOid);
    var r := FindWithoutId(d, name);
    forall i | 0 <= i < |docs| ensures r[i] == docs[i] {
      assert Docs(d, name)[i] == WithId(docs[i], Oid(db.nextOid + i));
    }
  }

  /** Right after seeding an empty courses collection, `app.config['COURSES']` is exactly the seed list. */
  lemma CoursesConfigAfterSeeding(e: Run, courses: seq<Document>)
    requires CountDocs(e.db, "courses") == 0 && courses != []
    requires forall i :: 0 <= i < |courses| ==> "_id" !in courses[i]
    ensures FindWithoutId(SeedEach(e, "courses", courses).db, "courses") == courses
  {
    SeedEachGuard(e, "courses", courses);
    FindAfterInsert(e.db, "courses", courses);
  }

  lemma InsertDocsExtends(db: Db, name: string, docs: seq<Document>)
    ensures Extends(db, InsertDocs(db, name, docs))
  {
  }

  lemma InsertEachExtends(e: Run, name: string, docs: seq<Document>)
    ensures Extends(e.db, InsertEach(e, name, docs).db)
  {
    if docs != [] {
      InsertEachStores(e, name, docs);
    }
  }

  lemma SeedManyKeeps(e: Run, name: string, docs: seq<Document>)
    requires docs != []
    ensures var r := SeedMany(e, name, docs);
            Extends(e.db, r.db) && CountDocs(r.db, name) > 0 &&
            forall n :: n != name ==> Docs(r.db, n) == Docs(e.db, n)
  {
    InsertDocsExtends(e.db, name, docs);
    var r := SeedMany(e, name, docs);
    if CountDocs(e.db, name) != 0 {
      assert name in e.db.colls && CollExtends(e.db.colls[name], r.db.colls[name]);
    }
  }

  lemma SeedEachKeeps(e: Run, name: string, docs: seq<Document>)
    requires docs != []
    ensures var r := SeedEach(e, name, docs);
            Extends(e.db, r.db) && CountDocs(r.db, name) > 0 &&
            forall n :: n != name ==> Docs(r.db, n) == Docs(e.db, n)
  {
    SeedEachGuard(e, name, docs);
    InsertDocsExtends(e.db, name, docs);
    var r := SeedEach(e, name, docs);
    if CountDocs(e.db, name) != 0 {
      assert name in e.db.colls && CollExtends(e.db.colls[name], r.db.colls[name]);
    }
  }

  /** The three reference collections all hold documents. */
  ghost predicate ReferenceSeeded(db: Db) {
    CountDocs(db, "courses") > 0 && CountDocs(db, "tax_rates") > 0 && CountDocs(db, "payment_locations") > 0
  }

  /** Seeding after reconciliation: only adds, fills the reference collections, keeps the courses read for the config. */
  lemma SeedingEstablishes(r: Run, courses: seq<Document>, taxes: seq<Document>, places: seq<Document>)
    requires courses != [] && taxes != [] && places != []
    ensures var o := Seed(r, courses, taxes, places);
            Extends(r.db, o.run.db) && ReferenceSeeded(o.run.db) &&
            o.courses == Some(FindWithoutId(o.run.db, "courses"))
  {
    var c := SeedEach(r, "courses", courses);
    SeedEachKeeps(r, "courses", courses);
    var t := SeedMany(c, "tax_rates", taxes);
    SeedManyKeeps(c, "tax_rates", taxes);
    var p := SeedMany(t, "payment_locations", places);
    SeedManyKeeps(t, "payment_locations", places);
    ExtendsTrans(r.db, c.db, t.db);
    ExtendsTrans(r.db, t.db, p.db);
    assert Docs(p.db, "courses") == Docs(c.db, "courses");
  }

  /** On a seeded store the seed step changes nothing and reads the courses as they are. */
  lemma SeedingSeeded(r: Run, courses: seq<Document>, taxes: seq<Document>, places: seq<Document>)
    requires ReferenceSeeded(r.db)
    ensures Seed(r, courses, taxes, places) == Outcome(r, Some(FindWithoutId(r.db, "courses")))
  {
  }

  /** A successful pass only added to the store, converged it and left every reference collection non-empty. */
  lemma PassEstablishes(e: Run, specs: seq<CollectionSpec>, courses: seq<Document>, taxes: seq<Document>, places: seq<Document>)
    requires e.failed.None? && WellFormed(specs) && courses != [] && taxes != [] && places != []
    requires Pass(e, specs, courses, taxes, places).run.failed.None?
    ensures var o := Pass(e, specs, courses, taxes, places);
            Extends(e.db, o.run.db) && Converged(o.run.db, specs) && ReferenceSeeded(o.run.db) &&
            o.courses == Some(FindWithoutId(o.run.db, "courses"))
  {
    var r := RunSpecs(e, e.db.colls.Keys, specs);
    RunSpecsExtends(e, e.db.colls.Keys, specs);
    RunSpecsConverge(e, e.db.colls.Keys, specs);
    SeedingEstablishes(r, courses, taxes, places);
    var d := Seed(r, courses, taxes, places).run.db;
    ExtendsTrans(e.db, r.db, d);
    ConvergedExtends(r.db, d, specs);
  }

  /** Idempotence of a pass: over the store a successful pass produced, a second pass changes and issues nothing. */
  lemma PassTwice(e: Run, specs: seq<CollectionSpec>, courses: seq<Document>, taxes: seq<Document>, places: seq<Document>,
                  log: seq<Call>)
    requires e.failed.None? && WellFormed(specs) && courses != [] && taxes != [] && places != []
    requires Pass(e, specs, courses, taxes, places).run.failed.None?
    ensures var o := Pass(e, specs, courses, taxes, places);
            Pass(Run(o.run.db, log, None), specs, courses, taxes, places) == Outcome(Run(o.run.db, log, None), o.courses)
  {
    var o := Pass(e, specs, courses, taxes, places);
    PassEstablishes(e, specs, courses, taxes, places);
    var e2 := Run(o.run.db, log, None);
    RunSpecsNoOp(e2, specs);
    SeedingSeeded(e2, courses, taxes, places);
  }

  /** A successful startup pass only added to the store, converged it and left every reference collection non-empty. */
  lemma StartupEstablishes(e: Run)
    requires e.failed.None? && Startup(e).run.failed.None?
    ensures var d := Startup(e).run.db;
            Extends(e.db, d) && Converged(d, CollectionSchemas) && ReferenceSeeded(d)
  {
    CollectionSchemasWellFormed();
    SeedSetsShape();
    PassEstablishes(e, CollectionSchemas, SampleCourses, SampleTaxRates, SampleLocations);
  }

  /**
   * Idempotence of startup: a second pass over the store a successful first pass
   * produced issues no call at all (so no create call), leaves the store as it is,
   * and publishes the same courses.
   */
  lemma SecondStartupIssuesNoCalls(e: Run, log: seq<Call>)
    requires e.failed.None? && Startup(e).run.failed.None?
    ensures var o := Startup(e);
            Startup(Run(o.run.db, log, None)) == Outcome(Run(o.run.db, log, None), o.courses)
  {
    CollectionSchemasWellFormed();
    SeedSetsShape();
    PassTwice(e, CollectionSchemas, SampleCourses, SampleTaxRates, SampleLocations, log);
  }

  /** The same, read as the property of the call log: a second pass issues no create call. */
  lemma SecondStartupCreatesNothing(e: Run)
    requires e.failed.None? && Startup(e).run.failed.None?
    ensures var o := Startup(e);
            var o2 := Startup(Run(o.run.db, [], None));
            o2.run.failed.None? && forall c :: c in o2.run.log ==> !IsCreate(c)
  {
    SecondStartupIssuesNoCalls(e, []);
  }

  // ---- the empty-database scenario ----

  /** The `create_index` call of each declared index, in order. */
  function IndexCalls(name: string, ixs: seq<IndexSpec>): (r: seq<Call>)
    ensures |r| == |ixs|
    ensures forall j :: 0 <= j < |ixs| ==> r[j] == CreateIndexCall(name, ixs[j].key, ixs[j].options)
  {
    seq(|ixs|, j requires 0 <= j < |ixs| => CreateIndexCall(name, ixs[j].key, ixs[j].options))
  }

  lemma IndexCallsCons(name: string, ixs: seq<IndexSpec>)
    requires ixs != []
    ensures IndexCalls(name, ixs) == [CreateIndexCall(name, ixs[0].key, ixs[0].options)] + IndexCalls(name, ixs[1..])
  {
    var l := [CreateIndexCall(name, ixs[0].key, ixs[0].options)] + IndexCalls(name, ixs[1..]);
    assert forall j :: 1 <= j < |ixs| ==> l[j] == IndexCalls(name, ixs[1..])[j - 1];
  }

  /** Every collection created, each followed by the creation of each of its indexes. */
  function FreshCalls(specs: seq<CollectionSpec>): seq<Call>
    decreases |specs|
  {
    if specs == [] then []
    else [CreateCollectionCall(specs[0].name, specs[0].validator)] + IndexCalls(specs[0].name, specs[0].indexes)
         + FreshCalls(specs[1..])
  }

  /** No declaration duplicates the index on `_id` a new collection starts with. */
  predicate NoIdIndexDeclared(specs: seq<CollectionSpec>) {
    forall i, j :: 0 <= i < |specs| && 0 <= j < |specs[i].indexes| ==> specs[i].indexes[j].key != IdIndex.key
  }

  /** One declared index on a collection that has no index with its key: created and appended. */
  lemma FreshIndexStep(e: Run, name: string, ix: IndexSpec)
    requires e.failed.None? && name in e.db.colls && ix.key != IdIndex.key
    requires FirstKeyMatch(e.db.colls[name].indexes, ix.key).None?
    ensures var r := StepIndex(e, name, [IdIndex], ix);
            r.failed.None? && r.log == e.log + [CreateIndexCall(name, ix.key, ix.options)] &&
            name in r.db.colls &&
            r.db.colls[name].indexes == e.db.colls[name].indexes + [IndexInfo(ix.key, ix.options["v" := Num(IndexVersion)])]
  {
    assert [IdIndex][1..] == [];
    assert !Satisfied([IdIndex], ix);
  }

  lemma {:induction false} FreshIndexes(e: Run, name: string, ixs: seq<IndexSpec>)
    requires e.failed.None? && name in e.db.colls
    requires forall j :: 0 <= j < |ixs| ==> ixs[j].key != IdIndex.key
    requires forall j, k :: 0 <= j < k < |ixs| ==> ixs[j].key != ixs[k].key
    requires forall j :: 0 <= j < |ixs| ==> FirstKeyMatch(e.db.colls[name].indexes, ixs[j].key).None?
    ensures var r := RunIndexes(e, name, [IdIndex], ixs);
            r.failed.None? && r.log == e.log + IndexCalls(name, ixs)
    decreases |ixs|
  {
    if ixs == [] {
      assert IndexCalls(name, ixs) == [];
    } else {
      var ix := ixs[0];
      FreshIndexStep(e, name, ix);
      var e1 := StepIndex(e, name, [IdIndex], ix);
      var s := e.db.colls[name].indexes;
      var n := IndexInfo(ix.key, ix.options["v" := Num(IndexVersion)]);
      var rest := ixs[1..];
      forall j | 0 <= j < |rest| ensures FirstKeyMatch(s + [n], rest[j].key).None? {
        assert rest[j] == ixs[j + 1];
        NoKeyMatchAppend(s, n, rest[j].key);
      }
      assert e1.db.colls[name].indexes == s + [n];
      FreshIndexes(e1, name, rest);
      assert RunIndexes(e, name, [IdIndex], ixs) == RunIndexes(e1, name, [IdIndex], rest);
      IndexCallsCons(name, ixs);
      SeqAssoc(e.log, [CreateIndexCall(name, ix.key, ix.options)], IndexCalls(name, rest));
    }
  }

  lemma {:induction false} NoKeyMatchAppend(s: seq<IndexInfo>, n: IndexInfo, key: IndexKey)
    requires FirstKeyMatch(s, key).None? && n.key != key
    ensures FirstKeyMatch(s + [n], key).None?
  {
    if s == [] {
      assert ([] + [n])[1..] == [];
    } else {
      assert (s + [n])[1..] == s[1..] + [n];
      NoKeyMatchAppend(s[1..], n, key);
    }
  }

  /** A declared collection missing from the store: created, then each of its indexes created. */
  lemma FreshSpecStep(e: Run, present: set<string>, spec: CollectionSpec)
    requires e.failed.None? && spec.name !in present && spec.name !in e.db.colls
    requires forall j :: 0 <= j < |spec.indexes| ==> spec.indexes[j].key != IdIndex.key
    requires forall j, k :: 0 <= j < k < |spec.indexes| ==> spec.indexes[j].key != spec.indexes[k].key
    ensures var r := StepSpec(e, present, spec);
            r.failed.None? &&
            r.log == e.log + ([CreateCollectionCall(spec.name, spec.validator)] + IndexCalls(spec.name, spec.indexes))
  {
    var c1 := CreateIfAbsent(e, present, spec);
    assert c1.db.colls[spec.name] == NewCollection(spec.validator);
    assert Snapshot(c1.db, spec.name) == [IdIndex];
    forall j | 0 <= j < |spec.indexes| ensures FirstKeyMatch(c1.db.colls[spec.name].indexes, spec.indexes[j].key).None? {
      assert [IdIndex][1..] == [];
    }
    FreshIndexes(c1, spec.name, spec.indexes);
  }

  /** None of the declared collections is listed or stored yet. */
  ghost predicate AllAbsent(present: set<string>, db: Db, specs: seq<CollectionSpec>) {
    forall i :: 0 <= i < |specs| ==> specs[i].name !in present && specs[i].name !in db.colls
  }

  /** The side conditions of a fresh run carry over from the declarations to their tail. */
  lemma FreshTail(present: set<string>, db: Db, db': Db, specs: seq<CollectionSpec>)
    requires specs != [] && DistinctNames(specs) && DistinctKeys(specs) && NoIdIndexDeclared(specs)
    requires AllAbsent(present, db, specs)
    requires db'.colls.Keys <= db.colls.Keys + {specs[0].name}
    ensures var rest := specs[1..];
            DistinctNames(rest) && DistinctKeys(rest) && NoIdIndexDeclared(rest) && AllAbsent(present, db', rest)
  {
    var rest := specs[1..];
    forall i | 0 <= i < |rest| ensures rest[i].name !in present && rest[i].name !in db'.colls {
      assert rest[i] == specs[i + 1];
    }
    forall i, j | 0 <= i < j < |rest| ensures rest[i].name != rest[j].name {
      assert rest[i] == specs[i + 1] && rest[j] == specs[j + 1];
    }
    forall i, j, k | 0 <= i < |rest| && 0 <= j < k < |rest[i].indexes|
      ensures rest[i].indexes[j].key != rest[i].indexes[k].key
    {
      assert rest[i] == specs[i + 1];
    }
    forall i, j | 0 <= i < |rest| && 0 <= j < |rest[i].indexes| ensures rest[i].indexes[j].key != IdIndex.key {
      assert rest[i] == specs[i + 1];
    }
  }

  /** The head declaration of a fresh run meets the conditions of a fresh step. */
  lemma FreshHead(present: set<string>, db: Db, specs: seq<CollectionSpec>)
    requires specs != [] && DistinctKeys(specs) && NoIdIndexDeclared(specs) && AllAbsent(present, db, specs)
    ensures var spec := specs[0];
            spec.name !in present && spec.name !in db.colls &&
            (forall j :: 0 <= j < |spec.indexes| ==> spec.indexes[j].key != IdIndex.key) &&
            (forall j, k :: 0 <= j < k < |spec.indexes| ==> spec.indexes[j].key != spec.indexes[k].key)
  {
  }

  /** On a store holding none of the declared collections, every collection and every index is created, in order. */
  lemma {:induction false} FreshSpecs(e: Run, present: set<string>, specs: seq<CollectionSpec>)
    requires e.failed.None? && DistinctNames(specs) && DistinctKeys(specs) && NoIdIndexDeclared(specs)
    requires AllAbsent(present, e.db, specs)
    ensures var r := RunSpecs(e, present, specs);
            r.failed.None? && r.log == e.log + FreshCalls(specs)
    decreases |specs|
  {
    if specs != [] {
      var spec := specs[0];
      FreshHead(present, e.db, specs);
      FreshSpecStep(e, present, spec);
      var e1 := StepSpec(e, present, spec);
      var rest := specs[1..];
      StepSpecFrame(e, present, spec);
      FreshTail(present, e.db, e1.db, specs);
      FreshSpecs(e1, present, rest);
      assert RunSpecs(e, present, specs) == RunSpecs(e1, present, rest);
      var head := [CreateCollectionCall(spec.name, spec.validator)] + IndexCalls(spec.name, spec.indexes);
      assert FreshCalls(specs) == head + FreshCalls(rest);
      SeqAssoc(e.log, head, FreshCalls(rest));
    }
  }

  /** The declarations: no index on `_id`, and no reference collection among them. */
  lemma SchemasLeaveReferenceAlone()
    ensures NoIdIndexDeclared(CollectionSchemas)
    ensures "courses" !in SpecNames(CollectionSchemas)
    ensures "tax_rates" !in SpecNames(CollectionSchemas)
    ensures "payment_locations" !in SpecNames(CollectionSchemas)
  {
  }

  /** The calls a first start on an empty database issues, in order. */
  function FirstStartCalls(): seq<Call> {
    FreshCalls(CollectionSchemas) + InsertOneCalls("courses", SampleCourses)
    + [InsertManyCall("tax_rates", SampleTaxRates), InsertManyCall("payment_locations", SampleLocations)]
  }

  /** The two `insert_many` guards on empty collections: both seed sets inserted, in order. */
  lemma SeedManyBothEmpty(c: Run, taxes: seq<Document>, places: seq<Document>)
    requires CountDocs(c.db, "tax_rates") == 0 && CountDocs(c.db, "payment_locations") == 0 && taxes != []
    ensures var p := SeedMany(SeedMany(c, "tax_rates", taxes), "payment_locations", places);
            p.failed == c.failed &&
            p.log == c.log + [InsertManyCall("tax_rates", taxes), InsertManyCall("payment_locations", places)]
  {
    var t := SeedMany(c, "tax_rates", taxes);
    SeedManyKeeps(c, "tax_rates", taxes);
    assert Docs(t.db, "payment_locations") == Docs(c.db, "payment_locations");
  }

  /** Seeding when all three reference collections are empty: every seed set inserted, in order. */
  lemma SeedingEmpty(r: Run, courses: seq<Document>, taxes: seq<Document>, places: seq<Document>)
    requires CountDocs(r.db, "courses") == 0 && CountDocs(r.db, "tax_rates") == 0 && CountDocs(r.db, "payment_locations") == 0
    requires courses != [] && taxes != []
    requires forall i :: 0 <= i < |courses| ==> "_id" !in courses[i]
    ensures var o := Seed(r, courses, taxes, places);
            o.run.failed == r.failed && o.courses == Some(courses) &&
            o.run.log == r.log + (InsertOneCalls("courses", courses)
                                  + [InsertManyCall("tax_rates", taxes), InsertManyCall("payment_locations", places)])
  {
    SeedEachGuard(r, "courses", courses);
    CoursesConfigAfterSeeding(r, courses);
    var c := SeedEach(r, "courses", courses);
    SeedEachKeeps(r, "courses", courses);
    assert Docs(c.db, "tax_rates") == Docs(r.db, "tax_rates");
    assert Docs(c.db, "payment_locations") == Docs(r.db, "payment_locations");
    SeedManyBothEmpty(c, taxes, places);
  }

  lemma LogAssoc(a: seq<Call>, f: seq<Call>, i: seq<Call>, m: seq<Call>)
    ensures (a + f) + (i + m) == a + (f + i + m)
  {
  }

  /** Reconciliation on an empty database: every declaration created, no reference collection touched. */
  lemma FreshRun(e: Run, specs: seq<CollectionSpec>)
    requires e.failed.None? && e.db.colls == map[]
    requires DistinctNames(specs) && DistinctKeys(specs) && NoIdIndexDeclared(specs)
    requires "courses" !in SpecNames(specs) && "tax_rates" !in SpecNames(specs) && "payment_locations" !in SpecNames(specs)
    ensures var r := RunSpecs(e, e.db.colls.Keys, specs);
            r.failed.None? && r.log == e.log + FreshCalls(specs) &&
            "courses" !in r.db.colls && "tax_rates" !in r.db.colls && "payment_locations" !in r.db.colls
  {
    FreshSpecs(e, e.db.colls.Keys, specs);
    RunSpecsFrame(e, e.db.colls.Keys, specs);
  }

  /** A first pass on an empty database: every collection and index created, then every seed set inserted. */
  lemma FirstPass(e: Run, specs: seq<CollectionSpec>, courses: seq<Document>, taxes: seq<Document>, places: seq<Document>)
    requires e.failed.None? && e.db.colls == map[]
    requires DistinctNames(specs) && DistinctKeys(specs) && NoIdIndexDeclared(specs)
    requires "courses" !in SpecNames(specs) && "tax_rates" !in SpecNames(specs) && "payment_locations" !in SpecNames(specs)
    requires courses != [] && taxes != []
    requires forall i :: 0 <= i < |courses| ==> "_id" !in courses[i]
    ensures var o := Pass(e, specs, courses, taxes, places);
            o.run.failed.None? && o.courses == Some(courses) &&
            o.run.log == e.log + (FreshCalls(specs) + InsertOneCalls("courses", courses)
                                  + [InsertManyCall("tax_rates", taxes), InsertManyCall("payment_locations", places)])
  {
    var r := RunSpecs(e, e.db.colls.Keys, specs);
    FreshRun(e, specs);
    assert CountDocs(r.db, "courses") == 0 && CountDocs(r.db, "tax_rates") == 0 && CountDocs(r.db, "payment_locations") == 0;
    SeedingEmpty(r, courses, taxes, places);
    LogAssoc(e.log, FreshCalls(specs), InsertOneCalls("courses", courses),
             [InsertManyCall("tax_rates", taxes), InsertManyCall("payment_locations", places)]);
  }

  /** A first start on an empty database: every collection and index created, then every seed set
      inserted, and `COURSES` set to the sample courses. */
  lemma EmptyDatabaseScenario(e: Run)
    requires e.failed.None? && e.db.colls == map[]
    ensures Startup(e).run.failed.None?
    ensures Startup(e).run.log == e.log + FirstStartCalls()
    ensures Startup(e).courses == Some(SampleCourses)
  {
    CollectionSchemasWellFormed();
    SchemasLeaveReferenceAlone();
    SeedSetsShape();
    FirstPass(e, CollectionSchemas, SampleCourses, SampleTaxRates, SampleLocations);
  }
}
