/** A projection kept in step with its authority (index/sync.go).

The live engine is advanced from changed ids, in batches, or rebuilt.  Whatever mixture of the
two has happened and whatever failed, an engine that serves a basis holds exactly the documents
a full compile of that basis gives, provided the changed ids were complete. */
module Projection {
  import opened Kernel
  import opened Knowledge
  import opened Compile

  const BATCH_SIZE := 500

  type ObjectId = string
  type Commit = string

  /** Everything the authority ever committed, and the access fields in force at each commit. */
  datatype History = History(
    repository: string, env: Env,
    content: Commit -> map<ObjectId, KnowledgeValue>,
    fields: Commit -> Result<seq<Field>>)

  /** Values are stored under their own identity, and no commit is named by the empty string. */
  ghost predicate Faithful(h: History)
  {
    && h.fields("").Failure?
    && forall c: Commit, id :: id in h.content(c) ==> Placed(h, c, id)
  }

  ghost predicate Placed(h: History, c: Commit, id: ObjectId)
    requires id in h.content(c)
  {
    h.content(c)[id].repository == h.repository && h.content(c)[id].commit == c && h.content(c)[id].address.objectId == id
  }

  /** `compileValue` for the object at a commit; nothing for a schema or an absent object. */
  function Compiled(h: History, fields: seq<Field>, c: Commit, id: ObjectId): Result<Option<Doc>>
  {
    if id !in h.content(c) || IsSchemaObject(id) then Success(None)
    else
      var doc :- Document(h.env, h.content(c)[id], [], fields);
      Success(Some(doc))
  }

  ghost predicate AllCompile(h: History, fields: seq<Field>, c: Commit)
  {
    forall id :: id in h.content(c) ==> Compiled(h, fields, c, id).Success?
  }

  predicate Indexed(h: History, fields: seq<Field>, c: Commit, id: ObjectId)
  {
    Compiled(h, fields, c, id).Success? && Compiled(h, fields, c, id).value.Some?
  }

  function DocOf(h: History, fields: seq<Field>, c: Commit, id: ObjectId): Doc
    requires Indexed(h, fields, c, id)
  {
    Compiled(h, fields, c, id).value.value
  }

  /** The documents of the listed objects that are indexed at the commit. */
  function FullOver(h: History, fields: seq<Field>, c: Commit, ids: set<ObjectId>): map<ObjectId, Doc>
  {
    map id | id in ids && Indexed(h, fields, c, id) :: DocOf(h, fields, c, id)
  }

  /** The documents of a full compile. */
  function Full(h: History, fields: seq<Field>, c: Commit): map<ObjectId, Doc>
  {
    FullOver(h, fields, c, h.content(c).Keys)
  }

  /** A full compile has one document for every object that is no schema and compiles. */
  lemma FullMeans(h: History, fields: seq<Field>, c: Commit)
    ensures forall id :: id in Full(h, fields, c) <==>
      id in h.content(c) && !(|id| >= 7 && id[..7] == "schema/") && Document(h.env, h.content(c)[id], [], fields).Success?
    ensures forall id :: id in Full(h, fields, c) ==> Success(Full(h, fields, c)[id]) == Document(h.env, h.content(c)[id], [], fields)
    ensures AllCompile(h, fields, c) <==> forall id :: id in h.content(c) ==>
      (|id| >= 7 && id[..7] == "schema/") || Document(h.env, h.content(c)[id], [], fields).Success?
  {
    forall id: ObjectId ensures IsSchemaObject(id) <==> |id| >= 7 && id[..7] == "schema/" {}
    forall id | id in h.content(c) ensures Compiled(h, fields, c, id).Success? <==>
      IsSchemaObject(id) || Document(h.env, h.content(c)[id], [], fields).Success?
    {}
  }

  /** Two compiled objects with the same object digest are the same document. */
  datatype ObjectDigest = ObjectDigest(objectId: ObjectId, kind: AddressKind, eligible: seq<string>, cells: seq<Cell>,
                                       relation: Option<Compile.Relation>, text: string)

  function DigestOfDoc(d: Doc): ObjectDigest
  {
    ObjectDigest(d.objectId, d.kind, d.eligible, d.cells, d.relation, d.text)
  }

  /** A document under its own id, with the pairs its cells give. */
  predicate Regular(id: ObjectId, d: Doc)
  {
    d.objectId == id && d.pairs == Pairs(d.cells)
  }

  predicate AllRegular(docs: map<ObjectId, Doc>)
  {
    forall id :: id in docs ==> Regular(id, docs[id])
  }

  lemma FullIsRegular(h: History, fields: seq<Field>, c: Commit, ids: set<ObjectId>)
    requires Faithful(h)
    ensures AllRegular(FullOver(h, fields, c, ids))
  {
    forall id | id in FullOver(h, fields, c, ids) ensures Regular(id, DocOf(h, fields, c, id)) {
      assert Placed(h, c, id);
    }
  }

  // ------------------------------------------------------------------------------- the engine

  datatype State = Unset | Ready | Building | Updating | Failed | Retired

  /** The provider's physical identity, where it declares one: digest and revision. */
  type Physical = Option<(string, string)>

  datatype Meta = Meta(basis: Commit, access: Option<seq<Field>>, physicalDigest: string, providerRevision: string, state: State)

  datatype Engine = Engine(meta: Meta, docs: map<ObjectId, Doc>)

  predicate Serves(meta: Meta)
  {
    meta.basis != "" && (meta.state == Unset || meta.state == Ready)
  }

  predicate PhysicalMatches(physical: Physical, meta: Meta)
  {
    && (meta.state == Unset || meta.state == Ready)
    && (physical.Some? ==> physical.value == (meta.physicalDigest, meta.providerRevision))
  }

  predicate ProjectionMatches(physical: Physical, meta: Meta, basis: Commit, fields: seq<Field>)
  {
    meta.basis == basis && meta.access == Some(fields) && PhysicalMatches(physical, meta)
  }

  function ReadyMeta(physical: Physical, basis: Commit, fields: seq<Field>): Meta
  {
    Meta(basis, Some(fields), if physical.Some? then physical.value.0 else "", if physical.Some? then physical.value.1 else "", Ready)
  }

  /** What is promised of an engine: if it serves a basis, it is the full compile of that basis. */
  ghost predicate Exact(h: History, e: Engine)
  {
    Serves(e.meta) ==> ExactAt(h, e, e.meta.basis)
  }

  ghost predicate ExactAt(h: History, e: Engine, c: Commit)
  {
    && h.fields(c).Success?
    && e.meta.access == Some(h.fields(c).value)
    && AllCompile(h, h.fields(c).value, c)
    && e.docs == Full(h, h.fields(c).value, c)
  }

  // ------------------------------------------------------------------------ advancing by ids

  function UpsertIds(before: map<ObjectId, Doc>, after: map<ObjectId, Doc>): set<ObjectId>
  {
    set id | id in after.Keys && (id in before ==> before[id] != after[id])
  }

  function DeleteIds(before: map<ObjectId, Doc>, after: map<ObjectId, Doc>): set<ObjectId>
  {
    before.Keys - after.Keys
  }

  function Upserts(before: map<ObjectId, Doc>, after: map<ObjectId, Doc>): map<ObjectId, Doc>
  {
    map id | id in UpsertIds(before, after) :: after[id]
  }

  /** What an incremental publication leaves in the engine: the listed objects before and after
  decide what is taken out and what is put in. */
  function Advanced(docs: map<ObjectId, Doc>, before: map<ObjectId, Doc>, after: map<ObjectId, Doc>): map<ObjectId, Doc>
  {
    docs - DeleteIds(before, after) + Upserts(before, after)
  }

  ghost predicate IdsCompile(h: History, fields: seq<Field>, c: Commit, ids: set<ObjectId>)
  {
    forall id :: id in ids ==> Compiled(h, fields, c, id).Success?
  }

  /** Every object whose document differs is listed. */
  ghost predicate Complete(h: History, fields: seq<Field>, from: Commit, to: Commit, ids: set<ObjectId>)
  {
    forall id :: id !in ids ==> SameDocument(h, fields, from, to, id)
  }

  ghost predicate SameDocument(h: History, fields: seq<Field>, from: Commit, to: Commit, id: ObjectId)
  {
    Compiled(h, fields, from, id) == Compiled(h, fields, to, id)
  }

  /** Agreement of two document maps at one id. */
  predicate Agree(a: map<ObjectId, Doc>, b: map<ObjectId, Doc>, id: ObjectId)
  {
    (id in a <==> id in b) && (id in a ==> a[id] == b[id])
  }

  lemma FullAt(h: History, fields: seq<Field>, c: Commit, id: ObjectId)
    ensures id in Full(h, fields, c) <==> Indexed(h, fields, c, id)
    ensures Indexed(h, fields, c, id) ==> Full(h, fields, c)[id] == DocOf(h, fields, c, id)
  {}

  lemma AgreeMeans(h: History, fields: seq<Field>, from: Commit, to: Commit, id: ObjectId)
    requires Compiled(h, fields, from, id).Success? && Compiled(h, fields, to, id).Success?
    ensures Agree(Full(h, fields, from), Full(h, fields, to), id) <==> SameDocument(h, fields, from, to, id)
  {
    FullAt(h, fields, from, id);
    FullAt(h, fields, to, id);
  }

  /** Listed objects end up as after, unlisted ones stay as before. */
  lemma AdvancedAt(docs: map<ObjectId, Doc>, b: map<ObjectId, Doc>, a: map<ObjectId, Doc>,
                   before: map<ObjectId, Doc>, after: map<ObjectId, Doc>, ids: set<ObjectId>, id: ObjectId)
    requires docs == before
    requires b == (map x | x in before.Keys && x in ids :: before[x]) && a == (map x | x in after.Keys && x in ids :: after[x])
    ensures id in ids ==> Agree(Advanced(docs, b, a), after, id)
    ensures id !in ids ==> Agree(Advanced(docs, b, a), before, id)
  {}

  lemma FullRestricted(h: History, fields: seq<Field>, c: Commit, ids: set<ObjectId>)
    ensures FullOver(h, fields, c, ids) == (map id | id in Full(h, fields, c).Keys && id in ids :: Full(h, fields, c)[id])
  {
    forall id | Indexed(h, fields, c, id) ensures id in h.content(c) {}
  }

  lemma CompilesEverywhere(h: History, fields: seq<Field>, c: Commit)
    requires AllCompile(h, fields, c)
    ensures forall id :: Compiled(h, fields, c, id).Success?
  {}

  /** An incremental publication gives the full compile of the new basis exactly when no
  unlisted object compiles differently. */
  lemma IncrementalIsExactIff(h: History, fields: seq<Field>, from: Commit, to: Commit, ids: set<ObjectId>)
    requires AllCompile(h, fields, from) && AllCompile(h, fields, to)
    ensures Advanced(Full(h, fields, from), FullOver(h, fields, from, ids), FullOver(h, fields, to, ids)) == Full(h, fields, to) <==>
      Complete(h, fields, from, to, ids)
  {
    var b, a := FullOver(h, fields, from, ids), FullOver(h, fields, to, ids);
    var before, after := Full(h, fields, from), Full(h, fields, to);
    FullRestricted(h, fields, from, ids);
    FullRestricted(h, fields, to, ids);
    CompilesEverywhere(h, fields, from);
    CompilesEverywhere(h, fields, to);
    forall id ensures Agree(Advanced(before, b, a), after, id) <==> id in ids || SameDocument(h, fields, from, to, id) {
      AdvancedAt(before, b, a, before, after, ids, id);
      AgreeMeans(h, fields, from, to, id);
    }
    AgreeEverywhere(Advanced(before, b, a), after);
  }

  lemma AgreeEverywhere(a: map<ObjectId, Doc>, b: map<ObjectId, Doc>)
    ensures a == b <==> forall id :: Agree(a, b, id)
  {
    if forall id :: Agree(a, b, id) {
      forall id ensures (id in a <==> id in b) && (id in a ==> a[id] == b[id]) {
        assert Agree(a, b, id);
      }
      assert a.Keys == b.Keys;
      assert a == b;
    }
  }

  lemma CompleteCompiles(h: History, fields: seq<Field>, from: Commit, to: Commit, ids: set<ObjectId>)
    requires AllCompile(h, fields, from) && IdsCompile(h, fields, to, ids) && Complete(h, fields, from, to, ids)
    ensures AllCompile(h, fields, to)
  {
    CompilesEverywhere(h, fields, from);
    forall id | id in h.content(to) ensures Compiled(h, fields, to, id).Success? {
      assert id !in ids ==> SameDocument(h, fields, from, to, id);
    }
  }

  /** What incremental maintenance reports as updated and removed, given a complete list, are the
  objects whose documents are new or different, and those that are gone. */
  lemma CountsAreExact(h: History, fields: seq<Field>, from: Commit, to: Commit, ids: set<ObjectId>)
    requires AllCompile(h, fields, from) && AllCompile(h, fields, to) && Complete(h, fields, from, to, ids)
    ensures
      var before, after := FullOver(h, fields, from, ids), FullOver(h, fields, to, ids);
      && UpsertIds(before, after) == UpsertIds(Full(h, fields, from), Full(h, fields, to))
      && DeleteIds(before, after) == DeleteIds(Full(h, fields, from), Full(h, fields, to))
  {
    FullRestricted(h, fields, from, ids);
    FullRestricted(h, fields, to, ids);
    CompilesEverywhere(h, fields, from);
    CompilesEverywhere(h, fields, to);
    forall id | id !in ids ensures Agree(Full(h, fields, from), Full(h, fields, to), id) {
      assert SameDocument(h, fields, from, to, id);
      AgreeMeans(h, fields, from, to, id);
    }
  }
}
