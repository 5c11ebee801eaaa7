/** The maintenance calls on one engine (index/sync.go): ensure, apply, rebuild. */
module Sync {
  import opened Kernel
  import opened Ids
  import opened Compile
  import opened Projection

  datatype Mode = IsReady | Incremental | Rebuilt

  datatype Cause = Content | Schema | AlreadyReady | Cold | Diverged

  datatype IndexSync = IndexSync(mode: Mode, cause: Cause, basis: Commit, objectCount: nat, updated: nat, removed: nat)

  /** What the provider makes of a publication.  A broken one may leave anything behind, but not
  under a serving state. */
  datatype Publish = Published | Refused(error: ErrorCode) | Broken(error: ErrorCode, left: Engine)

  /** What a call meets: failing reads, whether the basis still exists, the walk of a rebuild and
  the answer of the provider. */
  datatype Surroundings = Surroundings(
    prepare: Option<ErrorCode>, count: Option<ErrorCode>, read: nat -> Option<ErrorCode>,
    hasBasis: bool, changes: Result<seq<ObjectId>>,
    order: seq<ObjectId>, streaming: bool, publish: Publish)

  ghost predicate NoReadFails(s: Surroundings)
  {
    forall n :: s.read(n).None?
  }

  /** Nothing around the call fails. */
  ghost predicate Calm(s: Surroundings)
  {
    s.prepare.None? && s.count.None? && NoReadFails(s) && s.changes.Success? && s.publish.Published?
  }

  lemma Everything(h: History, fields: seq<Field>, c: Commit, ids: set<ObjectId>)
    ensures AllCompile(h, fields, c) ==> IdsCompile(h, fields, c, ids)
  {
    if AllCompile(h, fields, c) { CompilesEverywhere(h, fields, c); }
  }

  // ---------------------------------------------------------------- one call's effect, as data

  /** An incremental publication over some list of ids. */
  ghost predicate Stepped(h: History, e: Engine, ids: set<ObjectId>, f: Engine)
  {
    && Serves(e.meta) && f.meta.basis != "" && h.fields(f.meta.basis).Success?
    && var fields := h.fields(f.meta.basis).value;
       && e.meta.access == Some(fields) && f.meta.access == Some(fields)
       && IdsCompile(h, fields, f.meta.basis, ids)
       && f.docs == Advanced(e.docs, FullOver(h, fields, e.meta.basis, ids), FullOver(h, fields, f.meta.basis, ids))
  }

  /** All a maintenance call can do to an engine. */
  ghost predicate Moved(h: History, e: Engine, ids: set<ObjectId>, f: Engine)
  {
    || f == e
    || !Serves(f.meta)
    || ExactAt(h, f, f.meta.basis)
    || Stepped(h, e, ids, f)
  }

  /** What an incremental publication needs of its list; a rebuild has none. */
  ghost predicate ListsAll(h: History, e: Engine, ids: set<ObjectId>, f: Engine)
  {
    Stepped(h, e, ids, f) && f.meta.access.Some? ==> Complete(h, f.meta.access.value, e.meta.basis, f.meta.basis, ids)
  }

  lemma MovedKeepsExact(h: History, e: Engine, ids: set<ObjectId>, f: Engine)
    requires Exact(h, e) && Moved(h, e, ids, f) && ListsAll(h, e, ids, f)
    ensures Exact(h, f)
  {
    if Stepped(h, e, ids, f) {
      var fields := h.fields(f.meta.basis).value;
      CompleteCompiles(h, fields, e.meta.basis, f.meta.basis, ids);
      IncrementalIsExactIff(h, fields, e.meta.basis, f.meta.basis, ids);
    }
  }

  /** Over any run of maintenance calls, failed or not, with complete lists of changed ids for the
  incremental ones: at every moment an engine that serves a basis holds exactly the full compile
  of that basis. */
  lemma {:induction false} ServedBasisIsExact(h: History, run: seq<Engine>, lists: seq<set<ObjectId>>)
    requires |run| == |lists| + 1 && !Serves(run[0].meta)
    requires forall i :: 0 <= i < |lists| ==> Moved(h, run[i], lists[i], run[i + 1]) && ListsAll(h, run[i], lists[i], run[i + 1])
    ensures forall e :: e in run ==> Exact(h, e)
  {
    if |lists| > 0 {
      var n := |lists| - 1;
      ServedBasisIsExact(h, run[..n + 1], lists[..n]);
      assert run[n] == run[..n + 1][n];
      MovedKeepsExact(h, run[n], lists[n], run[n + 1]);
      assert run == run[..n + 1] + [run[n + 1]];
    }
  }

  // ------------------------------------------------------------------------- which way a call takes

  /** The engine is ready, under these access fields and the provider's physical identity. */
  predicate Usable(physical: Physical, meta: Meta, fields: seq<Field>)
  {
    && meta.state in {Unset, Ready} && meta.access == Some(fields)
    && (physical.Some? ==> meta.physicalDigest == physical.value.0 && meta.providerRevision == physical.value.1)
  }

  /** What was done, and why. */
  datatype Way = Way(mode: Mode, cause: Cause)

  function WayOf(sync: IndexSync): Way
  {
    Way(sync.mode, sync.cause)
  }

  /** `Ensure` leaves a matching engine alone.  It rebuilds one that never had a basis, one of other
  fields or another physical identity, and one whose basis is gone, and advances any other. */
  ghost predicate EnsureTakes(physical: Physical, meta: Meta, c: Commit, fields: seq<Field>, hasBasis: bool, way: Way)
  {
    var usable := Usable(physical, meta, fields);
    && (way == Way(IsReady, AlreadyReady) <==> meta.basis == c && usable)
    && (way == Way(Rebuilt, Cold) <==> meta.basis == "" && !(c == "" && usable))
    && (way == Way(Rebuilt, Schema) <==> meta.basis != "" && !usable)
    && (way == Way(Rebuilt, Diverged) <==> meta.basis != "" && usable && meta.basis != c && !hasBasis)
    && (way == Way(Incremental, Content) <==> meta.basis != "" && usable && meta.basis != c && hasBasis)
  }

  /** `Apply` advances from where the engine stands, if that is where the caller says. */
  ghost predicate ApplyTakes(physical: Physical, meta: Meta, from: Commit, to: Commit, fields: seq<Field>, way: Way)
  {
    var usable := Usable(physical, meta, fields);
    var stands := from == "" || from == meta.basis;
    && (way == Way(Rebuilt, Cold) <==> meta.basis == "")
    && (way == Way(Rebuilt, Schema) <==> meta.basis != "" && !usable)
    && (way == Way(Rebuilt, Diverged) <==> meta.basis != "" && usable && !stands)
    && (way == Way(IsReady, AlreadyReady) <==> meta.basis != "" && usable && stands && meta.basis == to)
    && (way == Way(Incremental, Content) <==> meta.basis != "" && usable && stands && meta.basis != to)
  }

  /** A fixed projection is left alone or rebuilt. */
  ghost predicate EnsureAtTakes(physical: Physical, meta: Meta, c: Commit, fields: seq<Field>, way: Way)
  {
    && (way == Way(IsReady, AlreadyReady) <==> meta.basis == c && Usable(physical, meta, fields))
    && (way == Way(Rebuilt, Cold) <==> meta.basis == "" && !(c == "" && Usable(physical, meta, fields)))
    && (way == Way(Rebuilt, Content) <==> meta.basis != "" && !(meta.basis == c && Usable(physical, meta, fields)))
  }

  ghost predicate RebuildTakes(physical: Physical, meta: Meta, fields: seq<Field>, way: Way)
  {
    && (way == Way(Rebuilt, Cold) <==> meta.basis == "")
    && (way == Way(Rebuilt, Schema) <==> meta.basis != "" && !Usable(physical, meta, fields))
    && (way == Way(Rebuilt, Content) <==> meta.basis != "" && Usable(physical, meta, fields))
  }

  /** Nothing fails that a rebuild meets; it asks for no changes. */
  ghost predicate CalmRebuild(s: Surroundings)
  {
    s.prepare.None? && NoReadFails(s) && s.publish.Published?
  }

  // ------------------------------------------------------------------------------- the code

  function Put(docs: map<ObjectId, Doc>, batch: seq<Doc>): map<ObjectId, Doc>
  {
    if batch == [] then docs else Put(docs, batch[..|batch| - 1])[batch[|batch| - 1].objectId := batch[|batch| - 1]]
  }

  lemma FullOverNext(h: History, fields: seq<Field>, c: Commit, ids: set<ObjectId>, id: ObjectId)
    ensures FullOver(h, fields, c, ids + {id}) ==
      if Indexed(h, fields, c, id) then FullOver(h, fields, c, ids)[id := DocOf(h, fields, c, id)] else FullOver(h, fields, c, ids)
  {}

  lemma CountNext<K, V>(m: map<K, V>, k: K, v: V)
    requires k !in m
    ensures |m[k := v]| == |m| + 1
  {
    assert m[k := v].Keys == m.Keys + {k};
    assert |m[k := v].Keys| == |m.Keys| + 1;
    assert |m| == |m.Keys| && |m[k := v]| == |m[k := v].Keys|;
  }

  lemma PutNext(docs: map<ObjectId, Doc>, batch: seq<Doc>, d: Doc)
    ensures Put(docs, batch + [d]) == Put(docs, batch)[d.objectId := d]
  {
    assert (batch + [d])[..|batch + [d]| - 1] == batch;
  }

  lemma DocIsRegular(h: History, fields: seq<Field>, c: Commit, id: ObjectId)
    requires Faithful(h) && Indexed(h, fields, c, id)
    ensures Regular(id, DocOf(h, fields, c, id))
  {
    assert Placed(h, c, id);
  }

  /** The walk visits every object of the commit once. */
  ghost predicate Walks(h: History, c: Commit, order: seq<ObjectId>)
  {
    && (forall id :: id in order <==> id in h.content(c))
    && AllDistinct(order)
  }

  /** What the session has been handed, with what waits in the batch, is the compile of the walked
  objects, and is counted. */
  ghost predicate Handed(h: History, c: Commit, fields: seq<Field>, walked: set<ObjectId>, session: map<ObjectId, Doc>, batch: seq<Doc>, count: nat)
  {
    && Put(session, batch) == FullOver(h, fields, c, walked) && count + |batch| == |FullOver(h, fields, c, walked)|
    && IdsCompile(h, fields, c, walked)
  }

  lemma HandStarts(h: History, c: Commit, fields: seq<Field>)
    ensures Handed(h, c, fields, IdSet([]), map[], [], 0)
  {
    assert FullOver(h, fields, c, IdSet([])) == map[];
  }

  lemma NotWalkedYet(h: History, c: Commit, order: seq<ObjectId>, i: nat)
    requires Walks(h, c, order) && i < |order|
    ensures order[i] in h.content(c) && order[i] !in IdSet(order[..i]) && IdSet(order[..i + 1]) == IdSet(order[..i]) + {order[i]}
  {
    assert order[i] in order;
    IdSetTake(order, i);
  }

  lemma HandDoc(h: History, c: Commit, fields: seq<Field>, walked: set<ObjectId>, session: map<ObjectId, Doc>, batch: seq<Doc>, count: nat, id: ObjectId)
    requires Faithful(h) && Handed(h, c, fields, walked, session, batch, count) && id !in walked && Indexed(h, fields, c, id)
    ensures Handed(h, c, fields, walked + {id}, session, batch + [DocOf(h, fields, c, id)], count)
  {
    var doc := DocOf(h, fields, c, id);
    FullOverNext(h, fields, c, walked, id);
    DocIsRegular(h, fields, c, id);
    CountNext(FullOver(h, fields, c, walked), id, doc);
    PutNext(session, batch, doc);
  }

  lemma HandNothing(h: History, c: Commit, fields: seq<Field>, walked: set<ObjectId>, session: map<ObjectId, Doc>, batch: seq<Doc>, count: nat, id: ObjectId)
    requires Handed(h, c, fields, walked, session, batch, count) && Compiled(h, fields, c, id) == Success(None)
    ensures Handed(h, c, fields, walked + {id}, session, batch, count)
  {
    FullOverNext(h, fields, c, walked, id);
  }

  lemma HandFlush(h: History, c: Commit, fields: seq<Field>, walked: set<ObjectId>, session: map<ObjectId, Doc>, batch: seq<Doc>, count: nat)
    requires Handed(h, c, fields, walked, session, batch, count)
    ensures Handed(h, c, fields, walked, Put(session, batch), [], count + |batch|)
  {
  }

  lemma HandEnds(h: History, c: Commit, fields: seq<Field>, order: seq<ObjectId>, session: map<ObjectId, Doc>, batch: seq<Doc>, count: nat)
    requires Walks(h, c, order) && Handed(h, c, fields, IdSet(order[..|order|]), session, batch, count)
    ensures Put(session, batch) == Full(h, fields, c) && count + |batch| == |Full(h, fields, c)| && AllCompile(h, fields, c)
  {
    assert order[..|order|] == order;
    assert IdSet(order) == h.content(c).Keys;
  }

  /** One more batch of distinct ids, compiled at a basis. */
  lemma BatchJoins(h: History, fields: seq<Field>, c: Commit, ids: seq<ObjectId>, start: nat, end: nat, done: map<ObjectId, Doc>)
    requires Faithful(h) && start <= end <= |ids| && AllDistinct(ids) && done == FullOver(h, fields, c, IdSet(ids[..start]))
    ensures var batch := FullOver(h, fields, c, IdSet(ids[start..end]));
      && AllRegular(batch) && batch.Keys <= IdSet(ids[start..end]) && IdSet(ids[start..end]) !! done.Keys
      && done + batch == FullOver(h, fields, c, IdSet(ids[..end])) && AllDistinct(ids[start..end])
    ensures IdsCompile(h, fields, c, IdSet(ids[..start])) && IdsCompile(h, fields, c, IdSet(ids[start..end])) ==>
      IdsCompile(h, fields, c, IdSet(ids[..end]))
  {
    BatchIsNew(ids, start, end);
    BatchesAreSeparate(h, fields, c, ids, start, end);
  }

  class Live {
    var meta: Meta
    var docs: map<ObjectId, Doc>
    var physical: Physical

    constructor (physical: Physical)
      ensures !Serves(meta) && docs == map[] && this.physical == physical
    {
      this.physical := physical;
      meta, docs := Meta("", None, "", "", Unset), map[];
    }

    function Engine(): Engine
      reads this
    {
      Projection.Engine(meta, docs)
    }

    /** The atomic publication of the provider. */
    method Answer(next: Engine, publish: Publish) returns (failure: Option<ErrorCode>)
      modifies this`meta, this`docs
      ensures publish.Published? ==> failure.None? && Engine() == next
      ensures publish.Refused? ==> failure.Some? && Engine() == old(Engine())
      ensures publish.Broken? ==> failure.Some? && !Serves(meta)
    {
      match publish
      case Published =>
        meta, docs := next.meta, next.docs;
        failure := None;
      case Refused(error) =>
        failure := Some(error);
      case Broken(error, left) =>
        meta := if left.meta.state == Unset || left.meta.state == Ready then left.meta.(state := Failed) else left.meta;
        docs := left.docs;
        failure := Some(error);
    }

    /** The walk of a rebuild: what the session has been handed, in batches or at the end. */
    method Gather(h: History, c: Commit, fields: seq<Field>, s: Surroundings) returns (r: Result<(map<ObjectId, Doc>, nat)>)
      requires Faithful(h) && Walks(h, c, s.order)
      ensures r.Success? ==> r.value.0 == Full(h, fields, c) && r.value.1 == |r.value.0| && AllCompile(h, fields, c)
      ensures AllCompile(h, fields, c) && NoReadFails(s) ==> r.Success?
    {
      var session: map<ObjectId, Doc> := map[];
      var batch: seq<Doc> := [];
      var count: nat := 0;
      assert s.order[..0] == [];
      HandStarts(h, c, fields);
      ghost var walked := IdSet([]);
      for i := 0 to |s.order|
        invariant walked == IdSet(s.order[..i])
        invariant Handed(h, c, fields, walked, session, batch, count)
      {
        var id := s.order[i];
        if s.read(i).Some? {
          assert !NoReadFails(s);
          return Failure(s.read(i).value);
        }
        NotWalkedYet(h, c, s.order, i);
        var doc := Compiled(h, fields, c, id);
        if doc.Failure? {
          assert !AllCompile(h, fields, c);
          return Failure(doc.error);
        }
        if doc.value.Some? {
          HandDoc(h, c, fields, walked, session, batch, count, id);
          batch := batch + [doc.value.value];
        } else {
          HandNothing(h, c, fields, walked, session, batch, count, id);
        }
        walked := walked + {id};
        if s.streaming && |batch| == BATCH_SIZE {
          HandFlush(h, c, fields, walked, session, batch, count);
          session, count, batch := Put(session, batch), count + |batch|, [];
        }
      }
      HandEnds(h, c, fields, s.order, session, batch, count);
      return Success((Put(session, batch), count + |batch|));
    }

    /** `rebuild`: walk, compile, hand over, publish. */
    method Rebuild(h: History, c: Commit, fields: seq<Field>, cause: Cause, s: Surroundings) returns (r: Result<IndexSync>)
      requires Faithful(h) && h.fields(c) == Success(fields) && Walks(h, c, s.order)
      modifies this`meta, this`docs
      ensures r.Success? ==> ExactAt(h, Engine(), c) && meta == ReadyMeta(physical, c, fields)
      ensures r.Success? ==> r.value == IndexSync(Rebuilt, cause, c, |docs|, |docs|, 0)
      ensures r.Failure? ==> Engine() == old(Engine()) || !Serves(meta)
      ensures AllCompile(h, fields, c) && CalmRebuild(s) ==> r.Success?
    {
      var gathered := Gather(h, c, fields, s);
      if gathered.Failure? {
        return Failure(gathered.error);
      }
      var failure := Answer(Projection.Engine(ReadyMeta(physical, c, fields), gathered.value.0), s.publish);
      if failure.Some? {
        return Failure(failure.value);
      }
      return Success(IndexSync(Rebuilt, cause, c, gathered.value.1, gathered.value.1, 0));
    }

    /** `compileProjectionBatch`. */
    method CompileBatch(h: History, c: Commit, ids: seq<ObjectId>, fields: seq<Field>, readError: Option<ErrorCode>)
      returns (r: Result<map<ObjectId, Doc>>)
      requires Faithful(h)
      ensures r.Success? ==> IdsCompile(h, fields, c, IdSet(ids)) && r.value == FullOver(h, fields, c, IdSet(ids))
      ensures r.Success? <==> readError.None? && IdsCompile(h, fields, c, IdSet(ids))
    {
      if readError.Some? {
        return Failure(readError.value);
      }
      var out: map<ObjectId, Doc> := map[];
      for i := 0 to |ids|
        invariant out == FullOver(h, fields, c, IdSet(ids[..i]))
        invariant IdsCompile(h, fields, c, IdSet(ids[..i]))
      {
        var id := ids[i];
        assert id in IdSet(ids);
        assert IdSet(ids[..i + 1]) == IdSet(ids[..i]) + {id};
        FullOverNext(h, fields, c, IdSet(ids[..i]), id);
        if id in h.content(c) {
          assert Placed(h, c, id);
          var value := h.content(c)[id];
          if value.repository != h.repository || value.commit != c || value.address.objectId != id {
            assert false;
            return Failure(PreconditionFailed);
          }
          var doc := Compiled(h, fields, c, id);
          if doc.Failure? {
            return Failure(doc.error);
          }
          if doc.value.Some? {
            out := out[id := doc.value.value];
          }
        }
      }
      assert ids[..|ids|] == ids;
      return Success(out);
    }

    /** The difference of one batch, appended to what earlier batches gave. */
    method Diff(before: map<ObjectId, Doc>, after: map<ObjectId, Doc>, batch: seq<ObjectId>, upserts: seq<Doc>, deletes: seq<ObjectId>,
                ghost b: map<ObjectId, Doc>, ghost a: map<ObjectId, Doc>)
      returns (ups: seq<Doc>, dels: seq<ObjectId>)
      requires Delta(b, a, upserts, deletes) && AllRegular(before) && AllRegular(after)
      requires before.Keys + after.Keys <= IdSet(batch) && IdSet(batch) !! (b.Keys + a.Keys)
      requires AllDistinct(batch)
      ensures Delta(b + before, a + after, ups, dels)
    {
      ups, dels := upserts, deletes;
      DiffStarts(b, before, batch);
      DiffStarts(a, after, batch);
      for i := 0 to |batch|
        invariant Delta(UpTo(b, before, batch, i), UpTo(a, after, batch, i), ups, dels)
      {
        var id := batch[i];
        DiffNext(b, a, before, after, batch, i, ups, dels);
        if id in after && (id !in before || DigestOfDoc(before[id]) != DigestOfDoc(after[id])) {
          ups := ups + [after[id]];
        } else if id in before && id !in after {
          dels := dels + [id];
        }
      }
      DiffEnds(b, before, batch);
      DiffEnds(a, after, batch);
    }

    /** The changes of `applyHydrated`: recompile the listed ids at both bases, batch by batch. */
    method Changes(h: History, from: Commit, to: Commit, fields: seq<Field>, objectIds: seq<ObjectId>, s: Surroundings)
      returns (r: Result<(seq<Doc>, seq<ObjectId>)>)
      requires Faithful(h)
      ensures r.Success? ==> IdsCompile(h, fields, to, IdSet(objectIds))
      ensures AllCompile(h, fields, from) && AllCompile(h, fields, to) && NoReadFails(s) ==> r.Success?
      ensures r.Success? ==> Delta(FullOver(h, fields, from, IdSet(objectIds)), FullOver(h, fields, to, IdSet(objectIds)), r.value.0, r.value.1)
    {
      var ids := Distinct(objectIds);
      var upserts: seq<Doc>, deletes: seq<ObjectId> := [], [];
      var start := 0;
      ghost var b, a: map<ObjectId, Doc> := map[], map[];
      while start < |ids|
        invariant 0 <= start <= |ids|
        invariant b == FullOver(h, fields, from, IdSet(ids[..start])) && a == FullOver(h, fields, to, IdSet(ids[..start]))
        invariant Delta(b, a, upserts, deletes)
        invariant IdsCompile(h, fields, to, IdSet(ids[..start]))
      {
        var end := if start + BATCH_SIZE > |ids| then |ids| else start + BATCH_SIZE;
        var batch := ids[start..end];
        Everything(h, fields, from, IdSet(batch));
        Everything(h, fields, to, IdSet(batch));
        assert NoReadFails(s) ==> s.read(start).None? && s.read(end).None?;
        var before := CompileBatch(h, from, batch, fields, s.read(start));
        if before.Failure? {
          return Failure(before.error);
        }
        var after := CompileBatch(h, to, batch, fields, s.read(end));
        if after.Failure? {
          return Failure(after.error);
        }
        BatchJoins(h, fields, from, ids, start, end, b);
        BatchJoins(h, fields, to, ids, start, end, a);
        upserts, deletes := Diff(before.value, after.value, batch, upserts, deletes, b, a);
        b, a := b + before.value, a + after.value;
        start := end;
      }
      assert ids[..|ids|] == ids;
      return Success((upserts, deletes));
    }

    /** `applyHydrated`: publish the changes of the listed ids. */
    method ApplyHydrated(h: History, from: Commit, to: Commit, fields: seq<Field>, objectIds: seq<ObjectId>, cause: Cause, s: Surroundings)
      returns (r: Result<IndexSync>)
      requires Faithful(h) && h.fields(to) == Success(fields) && to != ""
      requires Serves(meta) && meta.basis == from && meta.access == Some(fields)
      modifies this`meta, this`docs
      ensures Moved(h, old(Engine()), IdSet(objectIds), Engine())
      ensures r.Success? ==> meta == ReadyMeta(physical, to, fields)
      ensures r.Success? ==> Stepped(h, old(Engine()), IdSet(objectIds), Engine())
      ensures r.Success? ==> r.value == IndexSync(Incremental, cause, to, |docs|,
        |UpsertIds(FullOver(h, fields, from, IdSet(objectIds)), FullOver(h, fields, to, IdSet(objectIds)))|,
        |DeleteIds(FullOver(h, fields, from, IdSet(objectIds)), FullOver(h, fields, to, IdSet(objectIds)))|)
      ensures AllCompile(h, fields, from) && AllCompile(h, fields, to) && Calm(s) ==> r.Success?
    {
      var changes := Changes(h, from, to, fields, objectIds, s);
      if changes.Failure? {
        return Failure(changes.error);
      }
      var upserts, deletes := changes.value.0, changes.value.1;
      DeltaPublishes(FullOver(h, fields, from, IdSet(objectIds)), FullOver(h, fields, to, IdSet(objectIds)), upserts, deletes, docs);
      var failure := Answer(Projection.Engine(ReadyMeta(physical, to, fields), Put(docs - IdSet(deletes), upserts)), s.publish);
      if failure.Some? {
        return Failure(failure.value);
      }
      if s.count.Some? {
        return Failure(s.count.value);
      }
      return Success(IndexSync(Incremental, cause, to, |docs|, |upserts|, |deletes|));
    }

    /** `readySync`. */
    method Report(c: Commit, s: Surroundings) returns (r: Result<IndexSync>)
      ensures r.Success? <==> s.count.None?
      ensures r.Success? ==> r.value == IndexSync(IsReady, AlreadyReady, c, |docs|, 0, 0)
    {
      if s.count.Some? {
        return Failure(s.count.value);
      }
      return Success(IndexSync(IsReady, AlreadyReady, c, |docs|, 0, 0));
    }

    /** `Ensure`: bring the live engine to the commit, by the changed ids where that is possible. */
    method Ensure(h: History, c: Commit, s: Surroundings) returns (r: Result<IndexSync>)
      requires Faithful(h) && Walks(h, c, s.order)
      modifies this`meta, this`docs
      ensures Moved(h, old(Engine()), Listed(s.changes), Engine())
      ensures r.Success? ==> h.fields(c).Success? && meta.basis == c && Usable(physical, meta, h.fields(c).value)
      ensures r.Success? ==> Reported(h, old(Engine()), Listed(s.changes), Engine(), r.value)
      ensures r.Success? ==> EnsureTakes(physical, old(meta), c, h.fields(c).value, s.hasBasis, WayOf(r.value))
      ensures Unprepared(h, c, s) ==> r == Failure(UnpreparedError(h, c, s)) && Engine() == old(Engine())
      ensures !Unprepared(h, c, s) && EnsureTakes(physical, old(meta), c, h.fields(c).value, s.hasBasis, Way(Incremental, Content)) && s.changes.Failure? ==>
        r == Failure(s.changes.error) && Engine() == old(Engine())
      ensures Calm(s) && CompilesBoth(h, old(meta).basis, c) ==> r.Success?
      ensures CalmRebuild(s) && CompilesBoth(h, c, c) && Rebuilds(physical, old(meta), c, h.fields(c).value, s.hasBasis) ==> r.Success?
    {
      var spec := h.fields(c);
      if spec.Failure? {
        return Failure(spec.error);
      }
      var fields := spec.value;
      if s.prepare.Some? {
        return Failure(s.prepare.value);
      }
      EnsureChooses(physical, meta, c, fields, s.hasBasis);
      if ProjectionMatches(physical, meta, c, fields) {
        r := Report(c, s);
        return;
      }
      if meta.basis == "" {
        r := Rebuild(h, c, fields, Cold, s);
      } else if meta.access != Some(fields) || !PhysicalMatches(physical, meta) {
        r := Rebuild(h, c, fields, Schema, s);
      } else if !s.hasBasis {
        r := Rebuild(h, c, fields, Diverged, s);
      } else if s.changes.Failure? {
        r := Failure(s.changes.error);
      } else {
        r := ApplyHydrated(h, meta.basis, c, fields, s.changes.value, Content, s);
      }
    }

    /** `EnsureAt`: a projection of one fixed commit, built or left alone. */
    method EnsureAt(h: History, c: Commit, s: Surroundings) returns (r: Result<IndexSync>)
      requires Faithful(h) && Walks(h, c, s.order)
      modifies this`meta, this`docs
      ensures Moved(h, old(Engine()), {}, Engine())
      ensures c == "" ==> r == Failure(UsageInvalid) && Engine() == old(Engine())
      ensures r.Success? ==> h.fields(c).Success? && meta.basis == c && Usable(physical, meta, h.fields(c).value)
      ensures r.Success? ==> r.value.mode != Incremental && Reported(h, old(Engine()), {}, Engine(), r.value)
      ensures r.Success? ==> EnsureAtTakes(physical, old(meta), c, h.fields(c).value, WayOf(r.value))
      ensures c != "" && Unprepared(h, c, s) ==> r == Failure(UnpreparedError(h, c, s)) && Engine() == old(Engine())
      ensures c != "" && Calm(s) && CompilesBoth(h, c, c) ==> r.Success?
    {
      if c == "" {
        return Failure(UsageInvalid);
      }
      var spec := h.fields(c);
      if spec.Failure? {
        return Failure(spec.error);
      }
      if s.prepare.Some? {
        return Failure(s.prepare.value);
      }
      if ProjectionMatches(physical, meta, c, spec.value) {
        r := Report(c, s);
        return;
      }
      r := Rebuild(h, c, spec.value, if meta.basis != "" then Content else Cold, s);
    }

    /** `Apply`: advance from a stated commit by stated ids, or rebuild when the engine does not
    stand there. */
    method Apply(h: History, from: Commit, to: Commit, ids: seq<ObjectId>, s: Surroundings) returns (r: Result<IndexSync>)
      requires Faithful(h) && Walks(h, to, s.order)
      modifies this`meta, this`docs
      ensures Moved(h, old(Engine()), IdSet(ids), Engine())
      ensures r.Success? ==> h.fields(to).Success? && meta.basis == to && Usable(physical, meta, h.fields(to).value)
      ensures r.Success? ==> Reported(h, old(Engine()), IdSet(ids), Engine(), r.value)
      ensures r.Success? && r.value.mode == Incremental ==> from == "" || from == old(meta).basis
      ensures r.Success? ==> ApplyTakes(physical, old(meta), from, to, h.fields(to).value, WayOf(r.value))
      ensures Unprepared(h, to, s) ==> r == Failure(UnpreparedError(h, to, s)) && Engine() == old(Engine())
      ensures Calm(s) && CompilesBoth(h, old(meta).basis, to) ==> r.Success?
    {
      var spec := h.fields(to);
      if spec.Failure? {
        return Failure(spec.error);
      }
      var fields := spec.value;
      if s.prepare.Some? {
        return Failure(s.prepare.value);
      }
      var rebuild := Classify(physical, meta, from, fields);
      if rebuild.Some? {
        r := Rebuild(h, to, fields, rebuild.value, s);
      } else if meta.basis == to {
        r := Report(to, s);
      } else {
        r := ApplyHydrated(h, if from == "" then meta.basis else from, to, fields, ids, Content, s);
      }
    }

    /** `Rebuild`, on request. */
    method RebuildAt(h: History, c: Commit, s: Surroundings) returns (r: Result<IndexSync>)
      requires Faithful(h) && Walks(h, c, s.order)
      modifies this`meta, this`docs
      ensures Moved(h, old(Engine()), {}, Engine())
      ensures r.Success? ==> h.fields(c).Success? && meta.basis == c && Usable(physical, meta, h.fields(c).value)
      ensures r.Success? ==> r.value.mode == Rebuilt && Reported(h, old(Engine()), {}, Engine(), r.value)
      ensures r.Success? ==> RebuildTakes(physical, old(meta), h.fields(c).value, WayOf(r.value))
      ensures Unprepared(h, c, s) ==> r == Failure(UnpreparedError(h, c, s)) && Engine() == old(Engine())
      ensures Calm(s) && CompilesBoth(h, c, c) ==> r.Success?
    {
      var spec := h.fields(c);
      if spec.Failure? {
        return Failure(spec.error);
      }
      if s.prepare.Some? {
        return Failure(s.prepare.value);
      }
      var cause := if meta.basis == "" then Cold
                   else if meta.access != Some(spec.value) || !PhysicalMatches(physical, meta) then Schema else Content;
      r := Rebuild(h, c, spec.value, cause, s);
    }
  }

  /** The target has access fields, and under them everything compiles at both commits. */
  ghost predicate CompilesBoth(h: History, from: Commit, to: Commit)
  {
    h.fields(to).Success? && AllCompile(h, h.fields(to).value, from) && AllCompile(h, h.fields(to).value, to)
  }

  /** The access fields of the commit, or the engine, cannot be had. */
  predicate Unprepared(h: History, c: Commit, s: Surroundings)
  {
    h.fields(c).Failure? || s.prepare.Some?
  }

  function UnpreparedError(h: History, c: Commit, s: Surroundings): ErrorCode
    requires Unprepared(h, c, s)
  {
    if h.fields(c).Failure? then h.fields(c).error else s.prepare.value
  }

  lemma EnsureChooses(physical: Physical, meta: Meta, c: Commit, fields: seq<Field>, hasBasis: bool)
    requires c != ""
    ensures ProjectionMatches(physical, meta, c, fields) <==> meta.basis == c && Usable(physical, meta, fields)
    ensures EnsureTakes(physical, meta, c, fields, hasBasis,
      if ProjectionMatches(physical, meta, c, fields) then Way(IsReady, AlreadyReady)
      else if meta.basis == "" then Way(Rebuilt, Cold)
      else if meta.access != Some(fields) || !PhysicalMatches(physical, meta) then Way(Rebuilt, Schema)
      else if !hasBasis then Way(Rebuilt, Diverged) else Way(Incremental, Content))
  {}

  /** `Ensure` has to rebuild. */
  predicate Rebuilds(physical: Physical, meta: Meta, c: Commit, fields: seq<Field>, hasBasis: bool)
  {
    meta.basis == "" || !Usable(physical, meta, fields) || (meta.basis != c && !hasBasis)
  }

  function Listed(changes: Result<seq<ObjectId>>): set<ObjectId>
  {
    if changes.Success? then IdSet(changes.value) else {}
  }

  /** `classify`: the cause of a rebuild, or none when the engine stands where it is said to. */
  function Classify(physical: Physical, meta: Meta, from: Commit, fields: seq<Field>): (r: Option<Cause>)
    ensures r.None? <==> Serves(meta) && Usable(physical, meta, fields) && (from == "" || from == meta.basis)
    ensures r == Some(Cold) <==> meta.basis == ""
    ensures r == Some(Schema) <==> meta.basis != "" && !Usable(physical, meta, fields)
    ensures r == Some(Diverged) <==> meta.basis != "" && Usable(physical, meta, fields) && from != "" && from != meta.basis
  {
    if meta.basis == "" then Some(Cold)
    else if meta.access != Some(fields) || !PhysicalMatches(physical, meta) then Some(Schema)
    else if from != "" && meta.basis != from then Some(Diverged)
    else None
  }

  /** What a successful call says about itself. */
  ghost predicate Reported(h: History, e: Engine, ids: set<ObjectId>, f: Engine, sync: IndexSync)
  {
    && sync.basis == f.meta.basis && sync.objectCount == |f.docs|
    && match sync.mode
       case IsReady => f == e && sync.updated == 0 && sync.removed == 0
       case Rebuilt => ExactAt(h, f, f.meta.basis) && sync.updated == |f.docs| && sync.removed == 0
       case Incremental =>
         && Stepped(h, e, ids, f)
         && var before, after := FullOver(h, f.meta.access.value, e.meta.basis, ids), FullOver(h, f.meta.access.value, f.meta.basis, ids);
            sync.updated == |UpsertIds(before, after)| && sync.removed == |DeleteIds(before, after)|
  }

  /** With a complete list, an incremental call on an exact engine reports exactly how many
  documents are new or different and how many are gone; batches and repeated ids do not show. */
  lemma ReportIsExact(h: History, e: Engine, ids: set<ObjectId>, f: Engine, sync: IndexSync)
    requires Exact(h, e) && ListsAll(h, e, ids, f) && Reported(h, e, ids, f, sync) && sync.mode == Incremental
    ensures Exact(h, f)
    ensures sync.updated == |UpsertIds(e.docs, f.docs)| && sync.removed == |DeleteIds(e.docs, f.docs)|
    ensures sync.objectCount == |f.docs|
  {
    var fields := h.fields(f.meta.basis).value;
    MovedKeepsExact(h, e, ids, f);
    CompleteCompiles(h, fields, e.meta.basis, f.meta.basis, ids);
    IncrementalIsExactIff(h, fields, e.meta.basis, f.meta.basis, ids);
    CountsAreExact(h, fields, e.meta.basis, f.meta.basis, ids);
  }

  /** The list without its repetitions. */
  method Distinct(objectIds: seq<ObjectId>) returns (ids: seq<ObjectId>)
    ensures IdSet(ids) == IdSet(objectIds)
    ensures AllDistinct(ids)
  {
    ids := [];
    var seen: set<ObjectId> := {};
    for i := 0 to |objectIds|
      invariant seen == IdSet(objectIds[..i]) == IdSet(ids)
      invariant AllDistinct(ids)
    {
      var id := objectIds[i];
      assert objectIds[..i + 1] == objectIds[..i] + [id];
      if id in seen {
        continue;
      }
      assert id !in ids;
      seen := seen + {id};
      ids := ids + [id];
    }
    assert objectIds[..|objectIds|] == objectIds;
  }

  /** The difference gathered so far: its documents, its deletions, and how many of each. */
  ghost predicate Delta(b: map<ObjectId, Doc>, a: map<ObjectId, Doc>, upserts: seq<Doc>, deletes: seq<ObjectId>)
  {
    && Put(map[], upserts) == Upserts(b, a) && |upserts| == |UpsertIds(b, a)|
    && IdSet(deletes) == DeleteIds(b, a) && |deletes| == |DeleteIds(b, a)|
  }

  function Find(docs: map<ObjectId, Doc>, id: ObjectId): Option<Doc>
  {
    if id in docs then Some(docs[id]) else None
  }

  function Grown(docs: map<ObjectId, Doc>, id: ObjectId, d: Option<Doc>): map<ObjectId, Doc>
  {
    if d.Some? then docs[id := d.value] else docs
  }

  function Within(docs: map<ObjectId, Doc>, ids: set<ObjectId>): map<ObjectId, Doc>
  {
    map id | id in docs.Keys && id in ids :: docs[id]
  }

  /** A batch compiles to regular documents of ids no earlier batch had. */
  lemma BatchesAreSeparate(h: History, fields: seq<Field>, c: Commit, ids: seq<ObjectId>, start: nat, end: nat)
    requires Faithful(h) && start <= end <= |ids| && AllDistinct(ids)
    ensures
      var before, batch := FullOver(h, fields, c, IdSet(ids[..start])), FullOver(h, fields, c, IdSet(ids[start..end]));
      && AllRegular(batch) && batch.Keys <= IdSet(ids[start..end]) && IdSet(ids[start..end]) !! before.Keys
      && before + batch == FullOver(h, fields, c, IdSet(ids[..end]))
  {
    BatchIsNew(ids, start, end);
    FullIsRegular(h, fields, c, IdSet(ids[start..end]));
    FullOverUnion(h, fields, c, IdSet(ids[..start]), IdSet(ids[start..end]));
  }

  lemma FullOverUnion(h: History, fields: seq<Field>, c: Commit, x: set<ObjectId>, y: set<ObjectId>)
    ensures FullOver(h, fields, c, x + y) == FullOver(h, fields, c, x) + FullOver(h, fields, c, y)
  {}

  /** Earlier batches and the first `i` ids of this one. */
  function UpTo(base: map<ObjectId, Doc>, docs: map<ObjectId, Doc>, batch: seq<ObjectId>, i: nat): map<ObjectId, Doc>
    requires i <= |batch|
  {
    base + Within(docs, IdSet(batch[..i]))
  }

  lemma DiffStarts(base: map<ObjectId, Doc>, docs: map<ObjectId, Doc>, batch: seq<ObjectId>)
    ensures UpTo(base, docs, batch, 0) == base
  {}

  lemma DiffEnds(base: map<ObjectId, Doc>, docs: map<ObjectId, Doc>, batch: seq<ObjectId>)
    requires docs.Keys <= IdSet(batch)
    ensures UpTo(base, docs, batch, |batch|) == base + docs
  {
    assert batch[..|batch|] == batch;
    assert Within(docs, IdSet(batch)) == docs;
  }

  lemma WithinNext(base: map<ObjectId, Doc>, docs: map<ObjectId, Doc>, ids: set<ObjectId>, id: ObjectId)
    ensures base + Within(docs, ids + {id}) == Grown(base + Within(docs, ids), id, Find(docs, id))
  {}

  lemma NotYet(base: map<ObjectId, Doc>, docs: map<ObjectId, Doc>, batch: seq<ObjectId>, i: nat)
    requires i < |batch| && AllDistinct(batch) && IdSet(batch) !! base.Keys
    ensures batch[i] !in UpTo(base, docs, batch, i)
  {
    assert batch[i] in IdSet(batch);
  }

  lemma UpToNext(base: map<ObjectId, Doc>, docs: map<ObjectId, Doc>, batch: seq<ObjectId>, i: nat)
    requires i < |batch| && AllDistinct(batch) && IdSet(batch) !! base.Keys
    ensures batch[i] !in UpTo(base, docs, batch, i)
    ensures UpTo(base, docs, batch, i + 1) == Grown(UpTo(base, docs, batch, i), batch[i], Find(docs, batch[i]))
  {
    NotYet(base, docs, batch, i);
    IdSetTake(batch, i);
    WithinNext(base, docs, IdSet(batch[..i]), batch[i]);
  }

  lemma UpsertGrows(b: map<ObjectId, Doc>, a: map<ObjectId, Doc>, id: ObjectId, was: Option<Doc>, now: Doc)
    requires id !in b && id !in a && was != Some(now)
    ensures UpsertIds(Grown(b, id, was), a[id := now]) == UpsertIds(b, a) + {id}
  {}

  lemma UpsertStays(b: map<ObjectId, Doc>, a: map<ObjectId, Doc>, id: ObjectId, was: Doc, now: Option<Doc>)
    requires id !in b && id !in a && (now.None? || now == Some(was))
    ensures UpsertIds(b[id := was], Grown(a, id, now)) == UpsertIds(b, a)
  {}

  lemma DeleteGrows(b: map<ObjectId, Doc>, a: map<ObjectId, Doc>, id: ObjectId, was: Doc)
    requires id !in b && id !in a
    ensures DeleteIds(b[id := was], a) == DeleteIds(b, a) + {id}
  {}

  lemma DeleteStays(b: map<ObjectId, Doc>, a: map<ObjectId, Doc>, id: ObjectId, was: Option<Doc>, now: Doc)
    requires id !in b && id !in a
    ensures DeleteIds(Grown(b, id, was), a[id := now]) == DeleteIds(b, a)
  {}

  lemma UpsertsGrow(b: map<ObjectId, Doc>, a: map<ObjectId, Doc>, id: ObjectId, was: Option<Doc>, now: Doc)
    requires id !in b && id !in a && was != Some(now)
    ensures Upserts(Grown(b, id, was), a[id := now]) == Upserts(b, a)[id := now]
  {
    UpsertGrows(b, a, id, was, now);
  }

  lemma UpsertsStay(b: map<ObjectId, Doc>, a: map<ObjectId, Doc>, id: ObjectId, was: Doc, now: Option<Doc>)
    requires id !in b && id !in a && (now.None? || now == Some(was))
    ensures Upserts(b[id := was], Grown(a, id, now)) == Upserts(b, a)
  {
    UpsertStays(b, a, id, was, now);
  }

  lemma OneMore(ids: set<ObjectId>, id: ObjectId)
    requires id !in ids
    ensures |ids + {id}| == |ids| + 1
  {}

  lemma DeltaUpsert(b: map<ObjectId, Doc>, a: map<ObjectId, Doc>, upserts: seq<Doc>, deletes: seq<ObjectId>, id: ObjectId, was: Option<Doc>, now: Doc)
    requires Delta(b, a, upserts, deletes) && id !in b && id !in a && now.objectId == id
    requires was != Some(now)
    ensures Delta(Grown(b, id, was), a[id := now], upserts + [now], deletes)
  {
    UpsertGrows(b, a, id, was, now);
    UpsertsGrow(b, a, id, was, now);
    DeleteStays(b, a, id, was, now);
    OneMore(UpsertIds(b, a), id);
    PutNext(map[], upserts, now);
  }

  lemma DeltaDelete(b: map<ObjectId, Doc>, a: map<ObjectId, Doc>, upserts: seq<Doc>, deletes: seq<ObjectId>, id: ObjectId, was: Doc)
    requires Delta(b, a, upserts, deletes) && id !in b && id !in a
    ensures Delta(b[id := was], a, upserts, deletes + [id])
  {
    UpsertStays(b, a, id, was, None);
    UpsertsStay(b, a, id, was, None);
    DeleteGrows(b, a, id, was);
    OneMore(DeleteIds(b, a), id);
    IdSetNext(deletes, id);
  }

  lemma DeltaSame(b: map<ObjectId, Doc>, a: map<ObjectId, Doc>, upserts: seq<Doc>, deletes: seq<ObjectId>, id: ObjectId, doc: Doc)
    requires Delta(b, a, upserts, deletes) && id !in b && id !in a
    ensures Delta(b[id := doc], a[id := doc], upserts, deletes)
  {
    UpsertStays(b, a, id, doc, Some(doc));
    UpsertsStay(b, a, id, doc, Some(doc));
    DeleteStays(b, a, id, Some(doc), doc);
  }

  /** Which of the cases of an id extends the difference how. */
  lemma DeltaNext(b: map<ObjectId, Doc>, a: map<ObjectId, Doc>, upserts: seq<Doc>, deletes: seq<ObjectId>,
                  id: ObjectId, was: Option<Doc>, now: Option<Doc>)
    requires Delta(b, a, upserts, deletes) && id !in b && id !in a
    requires (was.Some? ==> Regular(id, was.value)) && (now.Some? ==> Regular(id, now.value))
    ensures now.Some? && (was.None? || DigestOfDoc(was.value) != DigestOfDoc(now.value)) ==>
      Delta(Grown(b, id, was), Grown(a, id, now), upserts + [now.value], deletes)
    ensures now.Some? && was.Some? && DigestOfDoc(was.value) == DigestOfDoc(now.value) ==>
      Delta(Grown(b, id, was), Grown(a, id, now), upserts, deletes)
    ensures was.Some? && now.None? ==> Delta(Grown(b, id, was), Grown(a, id, now), upserts, deletes + [id])
  {
    if now.Some? {
      if was != now {
        DeltaUpsert(b, a, upserts, deletes, id, was, now.value);
      } else {
        DeltaSame(b, a, upserts, deletes, id, now.value);
      }
    } else if was.Some? {
      DeltaDelete(b, a, upserts, deletes, id, was.value);
    }
  }

  lemma DiffNext(b: map<ObjectId, Doc>, a: map<ObjectId, Doc>, before: map<ObjectId, Doc>, after: map<ObjectId, Doc>,
                 batch: seq<ObjectId>, i: nat, upserts: seq<Doc>, deletes: seq<ObjectId>)
    requires i < |batch| && AllDistinct(batch) && IdSet(batch) !! b.Keys && IdSet(batch) !! a.Keys
    requires AllRegular(before) && AllRegular(after)
    requires Delta(UpTo(b, before, batch, i), UpTo(a, after, batch, i), upserts, deletes)
    ensures
      var id := batch[i];
      var b', a' := UpTo(b, before, batch, i + 1), UpTo(a, after, batch, i + 1);
      if id in after && (id !in before || DigestOfDoc(before[id]) != DigestOfDoc(after[id])) then Delta(b', a', upserts + [after[id]], deletes)
      else if id in before && id !in after then Delta(b', a', upserts, deletes + [id])
      else Delta(b', a', upserts, deletes)
  {
    UpToNext(b, before, batch, i);
    UpToNext(a, after, batch, i);
    DeltaNext(UpTo(b, before, batch, i), UpTo(a, after, batch, i), upserts, deletes, batch[i], Find(before, batch[i]), Find(after, batch[i]));
  }

  lemma BatchIsNew(ids: seq<ObjectId>, start: nat, end: nat)
    requires start <= end <= |ids| && AllDistinct(ids)
    ensures IdSet(ids[..start]) + IdSet(ids[start..end]) == IdSet(ids[..end])
    ensures AllDistinct(ids[start..end]) && IdSet(ids[..start]) !! IdSet(ids[start..end])
  {
    assert ids[..end] == ids[..start] + ids[start..end];
  }

  lemma {:induction false} PutMerges(docs: map<ObjectId, Doc>, batch: seq<Doc>)
    ensures Put(docs, batch) == docs + Put(map[], batch)
  {
    if batch != [] { PutMerges(docs, batch[..|batch| - 1]); }
  }

  lemma DeltaPublishes(b: map<ObjectId, Doc>, a: map<ObjectId, Doc>, upserts: seq<Doc>, deletes: seq<ObjectId>, docs: map<ObjectId, Doc>)
    requires Delta(b, a, upserts, deletes)
    ensures Put(docs - IdSet(deletes), upserts) == Advanced(docs, b, a)
  {
    PutMerges(docs - IdSet(deletes), upserts);
  }
}
