/** Serving State: the store of observed values beside a State projection, and its refresh
(index/state.go, index/state_store.go). */
module ServingState {
  import opened Kernel
  import opened Ids
  import opened Knowledge
  import C = Compile

  const BATCH_SIZE := 500

  type ObjectId = string

  datatype Record = Record(value: Json, observations: seq<C.Observation>, doc: C.Doc)

  type Records = map<ObjectId, Record>

  /** Reading an object may fail; observing its bindings and compiling what they give may, too. */
  datatype Reader = Reader(fetch: ObjectId -> Option<ErrorCode>, hydrate: ObjectId -> Result<Record>)

  /** What the refresh makes of one object: nothing of a schema object. */
  function Outcome(read: Reader, id: ObjectId): Result<Option<Record>>
  {
    if read.fetch(id).Some? then Failure(read.fetch(id).value)
    else if IsSchemaObject(id) then Success(None)
    else
      var record :- read.hydrate(id);
      Success(Some(record))
  }

  predicate Observes(read: Reader, id: ObjectId)
  {
    !IsSchemaObject(id) && Outcome(read, id).Success?
  }

  /** What observing these objects yields. */
  function Observed(read: Reader, ids: set<ObjectId>): Records
  {
    map id | id in ids && Observes(read, id) :: Outcome(read, id).value.value
  }

  lemma ObservedNext(base: Records, read: Reader, ids: set<ObjectId>, id: ObjectId)
    ensures base + Observed(read, ids + {id}) ==
      if Observes(read, id) then (base + Observed(read, ids))[id := Outcome(read, id).value.value] else base + Observed(read, ids)
  {}

  lemma CountPut<K, V>(m: map<K, V>, k: K, v: V)
    ensures |m[k := v]| == if k in m then |m| else |m| + 1
  {
    assert m[k := v].Keys == m.Keys + {k};
    assert |m| == |m.Keys| && |m[k := v]| == |m[k := v].Keys|;
    if k in m {
      assert m.Keys + {k} == m.Keys;
    } else {
      assert |m.Keys + {k}| == |m.Keys| + 1;
    }
  }

  function Union(batches: seq<Records>): Records
  {
    if batches == [] then map[] else Union(batches[..|batches| - 1]) + batches[|batches| - 1]
  }

  function Flat(batches: seq<seq<C.Doc>>): seq<C.Doc>
  {
    if batches == [] then [] else Flat(batches[..|batches| - 1]) + batches[|batches| - 1]
  }

  /** A batch is full: it joins the others, and the next one starts empty. */
  lemma Flushed(batches: seq<Records>, batch: Records)
    ensures Union(batches + [batch]) == Union(batches) + batch
    ensures Union(batches + [batch]) + map[] == Union(batches) + batch
    ensures SizeOf(batches + [batch]) == SizeOf(batches) + |batch|
  {
    Front(batches, batch);
  }

  lemma Front(batches: seq<Records>, batch: Records)
    ensures (batches + [batch])[..|batches|] == batches
  {}

  lemma UnionTake(batches: seq<Records>, i: nat)
    requires i < |batches|
    ensures Union(batches[..i + 1]) == Union(batches[..i]) + batches[i]
    ensures SizeOf(batches[..i + 1]) == SizeOf(batches[..i]) + |batches[i]|
  {
    TakeFront(batches, i);
  }

  lemma TakeFront(batches: seq<Records>, i: nat)
    requires i < |batches|
    ensures batches[..i + 1][..i] == batches[..i]
  {}

  lemma TakeAll(batches: seq<Records>)
    ensures batches[..|batches|] == batches
  {}

  lemma AndNothing(a: Records)
    ensures a + map[] == a
  {}

  lemma FlatNext(batches: seq<seq<C.Doc>>, batch: seq<C.Doc>)
    ensures Flat(batches + [batch]) == Flat(batches) + batch
  {
    assert (batches + [batch])[..|batches|] == batches;
  }

  function SizeOf(batches: seq<Records>): nat
  {
    if batches == [] then 0 else SizeOf(batches[..|batches| - 1]) + |batches[|batches| - 1]|
  }

  /** The documents of the records under these keys, in that order. */
  function DocsOf(db: Records, keys: seq<ObjectId>): seq<C.Doc>
    requires forall k :: k in keys ==> k in db
  {
    seq(|keys|, i requires 0 <= i < |keys| => db[keys[i]].doc)
  }

  /** The bucket of one store. */
  class Store {
    var db: Records
    var open: bool

    constructor ()
      ensures open && db == map[]
    {
      db, open := map[], true;
    }

    /** `PutBatch`, one transaction. */
    method PutBatch(records: Records) returns (failure: Option<ErrorCode>)
      modifies this`db
      ensures open == old(open) && (if open then failure == None else failure == Some(TemporaryUnavailable))
      ensures db == if open then old(db) + records else old(db)
    {
      if !open {
        return Some(TemporaryUnavailable);
      }
      var pending := records.Keys;
      while pending != {}
        invariant pending <= records.Keys
        invariant db == old(db) + (map id | id in records && id !in pending :: records[id])
        decreases pending
      {
        var id :| id in pending;
        PutOne(old(db), records, pending, id);
        db := db[id := records[id]];
        pending := pending - {id};
      }
      assert (map id | id in records && id !in pending :: records[id]) == records;
      return None;
    }

    /** `Get`. */
    method Get(id: ObjectId) returns (r: Result<Option<Record>>)
      ensures if open then r.Success? else r == Failure(TemporaryUnavailable)
      ensures r.Success? ==> r.value == if id in db then Some(db[id]) else None
    {
      if !open {
        return Failure(TemporaryUnavailable);
      }
      return Success(if id in db then Some(db[id]) else None);
    }

    /** `WalkRecords`: the batches handed to the visitor, in cursor order. */
    method WalkRecords(batchSize: int, cursor: seq<ObjectId>) returns (r: Result<seq<Records>>)
      requires AllDistinct(cursor) && IdSet(cursor) == db.Keys
      ensures r.Success? <==> batchSize > 0 && open
      ensures batchSize <= 0 ==> r == Failure(UsageInvalid)
      ensures batchSize > 0 && !open ==> r == Failure(TemporaryUnavailable)
      ensures r.Success? ==> Union(r.value) == db && SizeOf(r.value) == |db|
      ensures r.Success? ==> forall b :: b in r.value ==> 0 < |b| <= batchSize
    {
      if batchSize <= 0 {
        return Failure(UsageInvalid);
      }
      if !open {
        return Failure(TemporaryUnavailable);
      }
      var batches: seq<Records> := [];
      var batch: Records := map[];
      WalkStarts(db, cursor);
      for i := 0 to |cursor|
        invariant Walked(db, cursor, i, batches, batch)
        invariant |batch| < batchSize
        invariant forall b :: b in batches ==> 0 < |b| <= batchSize
      {
        WalkNext(db, cursor, i, batches, batch);
        batch := batch[cursor[i] := db[cursor[i]]];
        if |batch| == batchSize {
          WalkFlush(db, cursor, i + 1, batches, batch);
          batches := batches + [batch];
          batch := map[];
        }
      }
      if |batch| > 0 {
        WalkFlush(db, cursor, |cursor|, batches, batch);
        batches := batches + [batch];
        batch := map[];
      }
      WalkEnds(db, cursor, batches, batch);
      return Success(batches);
    }

    /** `WalkDocs`: the same walk over the compiled documents. */
    method WalkDocs(batchSize: int, cursor: seq<ObjectId>) returns (r: Result<seq<seq<C.Doc>>>)
      requires AllDistinct(cursor) && IdSet(cursor) == db.Keys
      ensures r.Success? <==> batchSize > 0 && open
      ensures batchSize <= 0 ==> r == Failure(UsageInvalid)
      ensures batchSize > 0 && !open ==> r == Failure(TemporaryUnavailable)
      ensures r.Success? ==> (forall k :: k in cursor ==> k in db) && Flat(r.value) == DocsOf(db, cursor)
      ensures r.Success? ==> Bounded(r.value, batchSize)
    {
      if batchSize <= 0 {
        return Failure(UsageInvalid);
      }
      if !open {
        return Failure(TemporaryUnavailable);
      }
      forall k | k in cursor ensures k in db { assert k in IdSet(cursor); }
      var batches: seq<seq<C.Doc>> := [];
      var batch: seq<C.Doc> := [];
      for i := 0 to |cursor|
        invariant Flat(batches) + batch == DocsOf(db, cursor[..i])
        invariant |batch| < batchSize
        invariant Bounded(batches, batchSize)
      {
        DocsNext(db, cursor, i, Flat(batches), batch);
        batch := batch + [db[cursor[i]].doc];
        if |batch| == batchSize {
          FlatNext(batches, batch);
          BatchFits(batches, batch, batchSize);
          batches := batches + [batch];
          batch := [];
        }
      }
      assert cursor[..|cursor|] == cursor;
      if |batch| > 0 {
        FlatNext(batches, batch);
        BatchFits(batches, batch, batchSize);
        batches := batches + [batch];
      }
      return Success(batches);
    }
  }

  /** No batch is empty or too long. */
  predicate Bounded(batches: seq<seq<C.Doc>>, batchSize: int)
  {
    forall b :: b in batches ==> 0 < |b| <= batchSize
  }

  lemma BatchFits(batches: seq<seq<C.Doc>>, batch: seq<C.Doc>, batchSize: int)
    requires Bounded(batches, batchSize) && 0 < |batch| <= batchSize
    ensures Bounded(batches + [batch], batchSize)
  {
    forall b | b in batches + [batch] ensures 0 < |b| <= batchSize {
      assert b in batches || b == batch;
    }
  }

  lemma DocsNext(db: Records, cursor: seq<ObjectId>, i: nat, flat: seq<C.Doc>, batch: seq<C.Doc>)
    requires i < |cursor| && (forall k :: k in cursor ==> k in db) && flat + batch == DocsOf(db, cursor[..i])
    ensures flat + (batch + [db[cursor[i]].doc]) == DocsOf(db, cursor[..i + 1])
  {
    assert DocsOf(db, cursor[..i + 1]) == DocsOf(db, cursor[..i]) + [db[cursor[i]].doc];
  }

  function Restrict(db: Records, ids: set<ObjectId>): Records
  {
    map id | id in db && id in ids :: db[id]
  }

  lemma CursorNext(db: Records, cursor: seq<ObjectId>, i: nat)
    requires i < |cursor| && AllDistinct(cursor) && IdSet(cursor) == db.Keys
    ensures cursor[i] in db && cursor[i] !in Restrict(db, IdSet(cursor[..i]))
    ensures Restrict(db, IdSet(cursor[..i + 1])) == Restrict(db, IdSet(cursor[..i]))[cursor[i] := db[cursor[i]]]
  {
    assert cursor[i] in IdSet(cursor);
    IdSetTake(cursor, i);
  }

  /** The batches given out and the one being filled are the records under the first keys. */
  ghost predicate Walked(db: Records, cursor: seq<ObjectId>, i: nat, batches: seq<Records>, batch: Records)
  {
    && i <= |cursor|
    && Union(batches) + batch == Restrict(db, IdSet(cursor[..i]))
    && SizeOf(batches) + |batch| == |Restrict(db, IdSet(cursor[..i]))|
  }

  lemma WalkStarts(db: Records, cursor: seq<ObjectId>)
    ensures Walked(db, cursor, 0, [], map[])
  {
    assert Restrict(db, {}) == map[];
    assert IdSet(cursor[..0]) == {};
  }

  lemma WalkNext(db: Records, cursor: seq<ObjectId>, i: nat, batches: seq<Records>, batch: Records)
    requires i < |cursor| && AllDistinct(cursor) && IdSet(cursor) == db.Keys && Walked(db, cursor, i, batches, batch)
    ensures cursor[i] in db && cursor[i] !in batch
    ensures Walked(db, cursor, i + 1, batches, batch[cursor[i] := db[cursor[i]]])
    ensures |batch[cursor[i] := db[cursor[i]]]| == |batch| + 1
  {
    CursorNext(db, cursor, i);
    var key, r := cursor[i], db[cursor[i]];
    assert key !in Union(batches) + batch;
    PutAfter(Union(batches), batch, key, r);
    CountPut(batch, key, r);
    CountPut(Restrict(db, IdSet(cursor[..i])), key, r);
  }

  lemma WalkFlush(db: Records, cursor: seq<ObjectId>, i: nat, batches: seq<Records>, batch: Records)
    requires Walked(db, cursor, i, batches, batch)
    ensures Walked(db, cursor, i, batches + [batch], map[])
  {
    Flushed(batches, batch);
  }

  lemma WalkEnds(db: Records, cursor: seq<ObjectId>, batches: seq<Records>, batch: Records)
    requires IdSet(cursor) == db.Keys && Walked(db, cursor, |cursor|, batches, batch) && |batch| == 0
    ensures Union(batches) == db && SizeOf(batches) == |db|
  {
    assert cursor[..|cursor|] == cursor;
    assert batch == map[];
    AndNothing(Union(batches));
    assert Restrict(db, db.Keys) == db;
  }

  lemma PutOne(base: Records, records: Records, pending: set<ObjectId>, id: ObjectId)
    requires id in pending && pending <= records.Keys
    ensures (base + (map x | x in records && x !in pending :: records[x]))[id := records[id]] ==
      base + (map x | x in records && x !in pending - {id} :: records[x])
  {}

  // ------------------------------------------------------------------------------- the refresh

  datatype Built = Built(store: Store, count: nat, updated: nat)

  /** What the new store has to hold: everything for a full refresh, the previous records
  overridden by the refreshed objects for an incremental one. */
  function Refreshed(base: Records, read: Reader, ids: set<ObjectId>): Records
  {
    base + Observed(read, ids)
  }

  predicate AllRead(read: Reader, ids: set<ObjectId>)
  {
    forall id :: id in ids ==> Outcome(read, id).Success?
  }

  /** Copy the previous records, batch by batch. */
  method CopyPrevious(previous: Store, store: Store, cursor: seq<ObjectId>) returns (failure: Option<ErrorCode>, count: nat)
    requires previous != store && store.open && store.db == map[]
    requires AllDistinct(cursor) && IdSet(cursor) == previous.db.Keys
    modifies store`db
    ensures failure.None? ==> store.db == previous.db && count == |previous.db|
    ensures if previous.open then failure == None else failure == Some(TemporaryUnavailable)
    ensures store.open
  {
    count := 0;
    var walked := previous.WalkRecords(BATCH_SIZE, cursor);
    if walked.Failure? {
      return Some(walked.error), 0;
    }
    var batches := walked.value;
    ghost var copied: Records := map[];
    for i := 0 to |batches|
      invariant store.open && store.db == copied
      invariant copied == Union(batches[..i]) && count == SizeOf(batches[..i])
    {
      UnionTake(batches, i);
      count := count + |batches[i]|;
      failure := store.PutBatch(batches[i]);
      copied := copied + batches[i];
    }
    TakeAll(batches);
    return None, count;
  }

  /** Flushed and pending records together are what the objects seen so far call for. */
  ghost predicate Gathered(base: Records, read: Reader, seen: set<ObjectId>, db: Records, records: Records, count: nat, updated: nat)
  {
    && db + records == Refreshed(base, read, seen)
    && count == |Refreshed(base, read, seen)|
    && updated == |Observed(read, seen)|
  }

  lemma GatherStarts(base: Records, read: Reader)
    ensures Gathered(base, read, {}, base, map[], |base|, 0)
  {
    assert Observed(read, {}) == map[];
    AndNothing(base);
  }

  lemma GatherNext(base: Records, read: Reader, seen: set<ObjectId>, db: Records, records: Records, count: nat, updated: nat, id: ObjectId)
    requires Gathered(base, read, seen, db, records, count, updated) && id !in seen && Observes(read, id)
    ensures Gathered(base, read, seen + {id}, db, records[id := Outcome(read, id).value.value], if id in base then count else count + 1, updated + 1)
  {
    var r := Outcome(read, id).value.value;
    ObservedGrows(base, read, seen, id);
    PutAfter(db, records, id, r);
    CountPut(Observed(read, seen), id, r);
    CountPut(Refreshed(base, read, seen), id, r);
  }

  lemma ObservedGrows(base: Records, read: Reader, seen: set<ObjectId>, id: ObjectId)
    requires id !in seen && Observes(read, id)
    ensures Observed(read, seen + {id}) == Observed(read, seen)[id := Outcome(read, id).value.value]
    ensures Refreshed(base, read, seen + {id}) == Refreshed(base, read, seen)[id := Outcome(read, id).value.value]
    ensures id !in Observed(read, seen)
    ensures id in Refreshed(base, read, seen) <==> id in base
  {
    ObservedNext(base, read, seen, id);
    ObservedNext(map[], read, seen, id);
    NothingAnd(Observed(read, seen));
    NothingAnd(Observed(read, seen + {id}));
  }

  lemma NothingAnd(a: Records)
    ensures map[] + a == a
  {}

  lemma GatherSkip(base: Records, read: Reader, seen: set<ObjectId>, db: Records, records: Records, count: nat, updated: nat, id: ObjectId)
    requires Gathered(base, read, seen, db, records, count, updated) && !Observes(read, id)
    ensures Gathered(base, read, seen + {id}, db, records, count, updated)
  {
    assert Observed(read, seen + {id}) == Observed(read, seen);
  }

  lemma GatherFlush(base: Records, read: Reader, seen: set<ObjectId>, db: Records, records: Records, count: nat, updated: nat)
    requires Gathered(base, read, seen, db, records, count, updated)
    ensures Gathered(base, read, seen, db + records, map[], count, updated)
  {
    AndNothing(db + records);
  }

  /** The object cannot be read or observed, or the previous store is closed by then. */
  predicate FailsAs(previous: Option<Store>, read: Reader, id: ObjectId, error: ErrorCode)
    reads if previous.Some? then {previous.value} else {}
  {
    if read.fetch(id).Some? then read.fetch(id).value == error
    else if IsSchema(id) then false
    else if read.hydrate(id).Failure? then read.hydrate(id).error == error
    else previous.Some? && !previous.value.open && error == TemporaryUnavailable
  }

  /** The `hydrate` closure: observe one object, count it, flush a full batch. */
  method HydrateOne(store: Store, previous: Option<Store>, read: Reader, id: ObjectId, pending: Records, counted: nat, done: nat,
                    ghost base: Records, ghost seen: set<ObjectId>)
    returns (failure: Option<ErrorCode>, records: Records, count: nat, updated: nat)
    requires store.open && (previous.Some? ==> previous.value != store && previous.value.db == base) && (previous.None? ==> base == map[])
    requires id !in seen && Gathered(base, read, seen, store.db, pending, counted, done)
    modifies store`db
    ensures store.open && (previous.Some? ==> previous.value.db == base)
    ensures failure.Some? ==> Outcome(read, id).Failure? || (previous.Some? && !previous.value.open)
    ensures failure.Some? ==> FailsAs(previous, read, id, failure.value)
    ensures failure.None? ==> Outcome(read, id).Success? && Gathered(base, read, seen + {id}, store.db, records, count, updated)
  {
    failure, records, count, updated := None, pending, counted, done;
    var unread := read.fetch(id);
    if unread.Some? {
      return unread, records, count, updated;
    }
    if IsSchemaObject(id) {
      GatherSkip(base, read, seen, store.db, records, count, updated, id);
      return;
    }
    var record := read.hydrate(id);
    if record.Failure? {
      return Some(record.error), records, count, updated;
    }
    GatherNext(base, read, seen, store.db, records, count, updated, id);
    records := records[id := record.value];
    var isNew := IsNew(previous, id);
    if isNew.Failure? {
      return Some(isNew.error), records, count, updated;
    }
    count := if isNew.value then count + 1 else count;
    updated := updated + 1;
    if |records| == BATCH_SIZE {
      GatherFlush(base, read, seen + {id}, store.db, records, count, updated);
      failure := store.PutBatch(records);
      records := map[];
    }
  }

  /** The loop of `refreshState` over listed or walked objects, and the last flush. */
  method Hydrate(store: Store, previous: Option<Store>, read: Reader, ids: seq<ObjectId>, start: nat)
    returns (failure: Option<ErrorCode>, count: nat, updated: nat)
    requires store.open && (previous.Some? ==> previous.value != store && store.db == previous.value.db)
    requires previous.None? ==> store.db == map[] && AllDistinct(ids)
    requires start == |store.db|
    modifies store`db
    ensures failure.None? ==> AllRead(read, IdSet(ids))
    ensures failure.Some? ==> !AllRead(read, IdSet(ids)) || (previous.Some? && !previous.value.open)
    ensures failure.Some? ==> exists id :: id in ids && FailsAs(previous, read, id, failure.value)
    ensures failure.None? ==> Gathered(old(store.db), read, IdSet(ids), store.db, map[], count, updated)
  {
    count, updated := start, 0;
    var records: Records := map[];
    var seen: set<ObjectId> := {};
    ghost var base := store.db;
    GatherStarts(base, read);
    for i := 0 to |ids|
      invariant store.open && (previous.Some? ==> previous.value.db == base)
      invariant SeenUpTo(ids, i, seen) && AllRead(read, seen)
      invariant Gathered(base, read, seen, store.db, records, count, updated)
    {
      var id := ids[i];
      SeenNext(ids, i, seen);
      if previous.Some? && id in seen {
        continue;
      }
      failure, records, count, updated := HydrateOne(store, previous, read, id, records, count, updated, base, seen);
      if failure.Some? {
        assert id in IdSet(ids);
        return;
      }
      seen := seen + {id};
    }
    SeenAll(ids, seen);
    if |records| > 0 {
      GatherFlush(base, read, seen, store.db, records, count, updated);
      failure := store.PutBatch(records);
    } else {
      assert records == map[];
    }
    return None, count, updated;
  }

  /** Whether the object adds to the previous store; with none, every object does. */
  method IsNew(previous: Option<Store>, id: ObjectId) returns (r: Result<bool>)
    ensures r.Success? <==> previous.None? || previous.value.open
    ensures r.Failure? ==> r.error == TemporaryUnavailable
    ensures r.Success? ==> (r.value <==> previous.None? || id !in previous.value.db)
  {
    if previous.None? {
      return Success(true);
    }
    var found := previous.value.Get(id);
    if found.Failure? {
      return Failure(found.error);
    }
    return Success(found.value.None?);
  }

  lemma GatherEnds(base: Records, read: Reader, ids: set<ObjectId>, db: Records, count: nat, updated: nat)
    requires Gathered(base, read, ids, db, map[], count, updated)
    ensures db == Refreshed(base, read, ids) && count == |db| && updated == |Observed(read, ids)|
  {
    AndNothing(db);
  }

  predicate SeenUpTo(ids: seq<ObjectId>, i: nat, seen: set<ObjectId>)
  {
    i <= |ids| && seen == IdSet(ids[..i])
  }

  lemma SeenNext(ids: seq<ObjectId>, i: nat, seen: set<ObjectId>)
    requires i < |ids| && SeenUpTo(ids, i, seen)
    ensures SeenUpTo(ids, i + 1, seen + {ids[i]})
    ensures ids[i] in seen ==> SeenUpTo(ids, i + 1, seen)
    ensures AllDistinct(ids) ==> ids[i] !in seen
  {
    IdSetTake(ids, i);
    assert ids[i] in seen ==> seen + {ids[i]} == seen;
  }

  lemma SeenAll(ids: seq<ObjectId>, seen: set<ObjectId>)
    requires SeenUpTo(ids, |ids|, seen)
    ensures seen == IdSet(ids)
  {
    assert ids[..|ids|] == ids;
  }

  lemma PutAfter(a: Records, b: Records, id: ObjectId, r: Record)
    ensures (a + b)[id := r] == a + b[id := r]
  {}

  /** The listed objects that are no schemas. */
  function NonSchema(ids: seq<ObjectId>): set<ObjectId>
  {
    set id | id in ids && !IsSchemaObject(id)
  }

  lemma ObservesNonSchema(read: Reader, ids: seq<ObjectId>)
    requires AllRead(read, IdSet(ids))
    ensures Observed(read, IdSet(ids)).Keys == NonSchema(ids)
  {}

  predicate IsSchema(id: ObjectId)
  {
    |id| >= 7 && id[..7] == "schema/"
  }

  /** The object can be read, and unless it is a schema its bindings can be observed. */
  predicate Readable(read: Reader, id: ObjectId)
  {
    read.fetch(id).None? && (IsSchema(id) || read.hydrate(id).Success?)
  }

  /** The new store holds what was just observed of the listed objects, schemas apart, and of any
  other what the previous one held. */
  predicate Holds(base: Records, read: Reader, ids: seq<ObjectId>, db: Records)
  {
    && (forall id :: id in ids && !IsSchema(id) ==> id in db && read.hydrate(id) == Success(db[id]))
    && (forall id :: id in base && (id !in ids || IsSchema(id)) ==> id in db && db[id] == base[id])
    && (forall id :: id in db ==> id in base || (id in ids && !IsSchema(id)))
  }

  lemma RefreshedHolds(base: Records, read: Reader, ids: seq<ObjectId>)
    requires AllRead(read, IdSet(ids))
    ensures Holds(base, read, ids, Refreshed(base, read, IdSet(ids)))
    ensures forall id :: id in ids ==> Readable(read, id)
  {
    forall id ensures IsSchema(id) <==> IsSchemaObject(id) {}
    forall id | id in ids ensures Outcome(read, id).Success? { assert id in IdSet(ids); }
  }

  /** `refreshState` up to the publication.  A failed refresh changes no existing store. */
  method Refresh(previous: Option<Store>, cursor: seq<ObjectId>, read: Reader, objectIds: seq<ObjectId>, walk: seq<ObjectId>)
    returns (r: Result<Built>)
    requires previous.Some? ==> AllDistinct(cursor) && IdSet(cursor) == previous.value.db.Keys
    requires AllDistinct(walk)
    ensures r.Success? ==> fresh(r.value.store) && r.value.store.open
    ensures (if |objectIds| > 0 && previous.Some? then previous.value.open && AllRead(read, IdSet(objectIds)) else AllRead(read, IdSet(walk))) ==>
      r.Success?
    ensures r.Success? ==> r.value.count == |r.value.store.db|
    ensures r.Success? ==>
      if |objectIds| > 0 && previous.Some?
      then r.value.store.db == Refreshed(previous.value.db, read, IdSet(objectIds)) && r.value.updated == |Observed(read, IdSet(objectIds))|
      else r.value.store.db == Observed(read, IdSet(walk)) && r.value.updated == |Observed(read, IdSet(walk))|
    ensures r.Success? ==>
      if |objectIds| > 0 && previous.Some?
      then r.value.store.db.Keys == previous.value.db.Keys + NonSchema(objectIds)
      else r.value.store.db.Keys == NonSchema(walk)
    ensures r.Success? ==>
      var incremental := |objectIds| > 0 && previous.Some?;
      && Holds(if incremental then previous.value.db else map[], read, if incremental then objectIds else walk, r.value.store.db)
      && forall id :: id in (if incremental then objectIds else walk) ==> Readable(read, id)
    ensures r.Failure? ==>
      if |objectIds| > 0 && previous.Some?
      then (!previous.value.open && r.error == TemporaryUnavailable) || exists id :: id in objectIds && FailsAs(previous, read, id, r.error)
      else exists id :: id in walk && FailsAs(None, read, id, r.error)
  {
    var store := new Store();
    var incremental := |objectIds| > 0 && previous.Some?;
    var failure: Option<ErrorCode>;
    var count, updated := 0, 0;
    if incremental {
      failure, count := CopyPrevious(previous.value, store, cursor);
      if failure.Some? {
        return Failure(failure.value);
      }
      failure, count, updated := Hydrate(store, previous, read, objectIds, count);
    } else {
      failure, count, updated := Hydrate(store, None, read, walk, 0);
      NothingAnd(Observed(read, IdSet(walk)));
    }
    if failure.Some? {
      return Failure(failure.value);
    }
    ObservesNonSchema(read, if incremental then objectIds else walk);
    RefreshedHolds(if incremental then previous.value.db else map[], read, if incremental then objectIds else walk);
    GatherEnds(if incremental then previous.value.db else map[], read, IdSet(if incremental then objectIds else walk), store.db, count, updated);
    return Success(Built(store, count, updated));
  }
}
