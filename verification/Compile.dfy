/** The projection document of one object (index/extract.go).

Cells, field pairs and eligible fields are canonical: they depend on what the units say, not
on the order of the units nor on how often a scalar is repeated.  The text does depend on it. */
module Compile {
  import opened Kernel
  import opened Knowledge
  import Text

  datatype Unit = Unit(address: Address, declarationDigest: Digest, schemaRef: string, source: Option<ValueSource>)

  datatype Observation = Observation(address: Address, declarationCommit: string, declarationDigest: Digest)

  datatype KnowledgeValue = KnowledgeValue(
    repository: string, commit: string, address: Address, body: Json,
    units: seq<Address>, declarations: seq<Unit>)

  /** An access field; `scalar` says that it carries the filter or the sort hint. */
  datatype Field = Field(schema: string, aspect: string, path: string, kind: string, text: bool, scalar: bool)

  /** A cell; `typed` is the logical type under which a whole-value scalar is indexed. */
  datatype Cell = Cell(field: string, value: string, text: string, typed: Option<string>)

  datatype Relation = Relation(relationType: string, direction: string, endpoints: seq<(string, string, string)>)

  datatype Doc = Doc(objectId: string, kind: AddressKind, eligible: seq<string>, cells: seq<Cell>,
                     pairs: seq<(string, string)>, relation: Option<Relation>, text: string)

  /** Parsing the compiler relies on: scalar literals, relation bodies, schema references, and
  the declaration of a unit that the value itself does not declare. */
  datatype Env = Env(
    normalize: (string, Json) -> Option<string>,
    decodeRelation: (string, Json) -> Result<Relation>,
    parseSchema: string -> Option<string>,
    resolve: (Address, string) -> Option<(string, Option<ValueSource>)>)

  const NUL: char := '\0'

  function FieldKey(f: Field): string
  {
    f.schema + [SEPARATOR] + f.aspect + [SEPARATOR] + f.path
  }

  // ----------------------------------------------------------------------------- units

  predicate IsBinding(u: Unit)
  {
    u.source.Some? && u.source.value.kind == "binding"
  }

  predicate IsStream(u: Unit)
  {
    IsBinding(u) && u.source.value.binding == Some(Stream)
  }

  /** `projectionUnits`. */
  function Units(env: Env, value: KnowledgeValue): seq<Unit>
  {
    if |value.declarations| > 0 then value.declarations
    else
      var addresses := if |value.units| == 0 then [value.address] else value.units;
      seq(|addresses|, i requires 0 <= i < |addresses| => Undeclared(env, value.commit, addresses[i]))
  }

  function Undeclared(env: Env, commit: string, address: Address): Unit
  {
    match env.resolve(address, commit)
    case None => Unit(address, NoDigest, "", None)
    case Some((schemaRef, source)) => Unit(address, NoDigest, schemaRef, source)
  }

  function Kind(value: KnowledgeValue): AddressKind
  {
    if value.address.kind == AddressKind.Relation || exists u :: u in value.declarations && u.address.kind == AddressKind.Relation
    then AddressKind.Relation else Entity
  }

  /** `projectionUnitValue`. */
  function UnitValue(body: Json, a: Address): Option<Json>
  {
    if IsEntityBlob(a) || a.kind == AddressKind.Relation then (if body == Null then None else Some(body))
    else if !body.Object? || a.aspectName !in body.fields then None
    else
      var aspect := body.fields[a.aspectName];
      if a.kind != Member then Some(aspect)
      else if !aspect.Object? || a.memberKey !in aspect.fields then None
      else Some(aspect.fields[a.memberKey])
  }

  /** The observation of a unit: the last one given for its address. */
  function Observed(observations: seq<Observation>, a: Address): Option<Observation>
  {
    if observations == [] then None
    else
      var last := observations[|observations| - 1];
      if AddressKey(last.address) == AddressKey(a) then Some(last)
      else Observed(observations[..|observations| - 1], a)
  }

  /** What a unit puts in front of the fields: nothing for a stream or an unobserved binding;
  an observed binding counts even when its value is null. */
  function Presented(value: KnowledgeValue, observations: seq<Observation>, u: Unit): Result<Option<Json>>
  {
    if IsStream(u) then Success(None)
    else if IsBinding(u) then
      match Observed(observations, u.address)
      case None => Success(None)
      case Some(o) =>
        if o.declarationCommit != value.commit || o.declarationDigest != u.declarationDigest then Failure(PreconditionFailed)
        else
          var v := UnitValue(value.body, u.address);
          Success(Some(if v.Some? then v.value else Null))
    else Success(UnitValue(value.body, u.address))
  }

  /** `projectionFieldApplies`. */
  predicate Applies(env: Env, u: Unit, f: Field)
  {
    if u.schemaRef != "" then env.parseSchema(u.schemaRef) == Some(f.schema)
    else if f.aspect != "" then f.aspect == u.address.aspectName
    else u.address.aspectName == ""
  }

  // --------------------------------------------------------------------------- scalars

  function Parts(path: string): (r: seq<string>)
    ensures |r| >= 1
  {
    if path == "" then [""]
    else
      var rest := Parts(path[1..]);
      if path[0] == '.' then [""] + rest else [[path[0]] + rest[0]] + rest[1..]
  }

  /** `lookupPath` below the first part. */
  function Descend(value: Json, parts: seq<string>): Option<Json>
  {
    if parts == [] then Some(value)
    else if parts[0] == "" then Descend(value, parts[1..])
    else if value.Object? && parts[0] in value.fields then Descend(value.fields[parts[0]], parts[1..])
    else None
  }

  function Lookup(value: Json, path: string): Option<Json>
  {
    if path == "" then (if value == Null then None else Some(value)) else Descend(value, Parts(path))
  }

  /** `projectionScalarValues`. */
  function Scalars(value: Json): seq<Json>
  {
    if value.List? then Flatten(value.items) else [value]
  }

  function Flatten(items: seq<Json>): seq<Json>
  {
    if items == [] then [] else Scalars(items[0]) + Flatten(items[1..])
  }

  /** The scalars a presented unit value holds for a field. */
  function Items(presented: Json, f: Field): seq<Json>
  {
    match Lookup(presented, f.path)
    case None => []
    case Some(raw) => if raw == Null then [] else Scalars(raw)
  }

  // ----------------------------------------------------------------------------- cells

  function CellFor(f: Field, normalized: string): Cell
  {
    Cell(FieldKey(f), normalized, if f.text then normalized else "", if f.scalar then Some(f.kind) else None)
  }

  /** Under which cells count as duplicates. */
  function Identity(c: Cell): string
  {
    c.field + [NUL] + c.value
  }

  function ByIdentity(): Cell -> string
  {
    (c: Cell) => Identity(c)
  }

  /** What the loops have gathered; both sequences are free of duplicates. */
  datatype Gathered = Gathered(eligible: seq<string>, cells: seq<Cell>)

  function WithField(g: Gathered, key: string): Gathered
  {
    if key in g.eligible then g else g.(eligible := g.eligible + [key])
  }

  predicate Seen(cells: seq<Cell>, identity: string)
  {
    exists c :: c in cells && Identity(c) == identity
  }

  function WithCell(g: Gathered, c: Cell): Gathered
  {
    if Seen(g.cells, Identity(c)) then g else g.(cells := g.cells + [c])
  }

  function AddItems(env: Env, f: Field, items: seq<Json>, g: Gathered): Result<Gathered>
  {
    if items == [] then Success(g)
    else
      var normalized := env.normalize(f.kind, items[0]);
      if normalized.None? then Failure(UsageInvalid)
      else AddItems(env, f, items[1..], WithCell(g, CellFor(f, normalized.value)))
  }

  function AddFields(env: Env, u: Unit, presented: Json, fields: seq<Field>, g: Gathered): Result<Gathered>
  {
    if fields == [] then Success(g)
    else if !Applies(env, u, fields[0]) then AddFields(env, u, presented, fields[1..], g)
    else
      var next :- AddItems(env, fields[0], Items(presented, fields[0]), WithField(g, FieldKey(fields[0])));
      AddFields(env, u, presented, fields[1..], next)
  }

  function AddUnits(env: Env, value: KnowledgeValue, observations: seq<Observation>, fields: seq<Field>,
                    units: seq<Unit>, g: Gathered): Result<Gathered>
  {
    if units == [] then Success(g)
    else
      var presented :- Presented(value, observations, units[0]);
      if presented.None? then AddUnits(env, value, observations, fields, units[1..], g)
      else
        var next :- AddFields(env, units[0], presented.value, fields, g);
        AddUnits(env, value, observations, fields, units[1..], next)
  }

  function Texts(cells: seq<Cell>): seq<string>
  {
    if cells == [] then []
    else (if cells[0].text != "" then [cells[0].text] else []) + Texts(cells[1..])
  }

  function Join(parts: seq<string>): string
  {
    if parts == [] then "" else if |parts| == 1 then parts[0] else parts[0] + " " + Join(parts[1..])
  }

  function Pairs(cells: seq<Cell>): seq<(string, string)>
  {
    seq(|cells|, i requires 0 <= i < |cells| => (cells[i].field, cells[i].value))
  }

  /** The document of a value: what `CompileDocument` computes. */
  function Document(env: Env, value: KnowledgeValue, observations: seq<Observation>, fields: seq<Field>): Result<Doc>
  {
    var g :- AddUnits(env, value, observations, fields, Units(env, value), Gathered([], []));
    var relation :- RelationOf(env, value);
    var cells := Text.SortBy(ByIdentity(), g.cells);
    Success(Doc(value.address.objectId, Kind(value), Text.SortBy((k: string) => k, g.eligible),
                cells, Pairs(cells), relation, Join(Texts(g.cells))))
  }

  function RelationOf(env: Env, value: KnowledgeValue): Result<Option<Relation>>
  {
    if Kind(value) != AddressKind.Relation then Success(None)
    else
      var relation :- env.decodeRelation(value.address.objectId, value.body);
      Success(Some(relation))
  }

  // ------------------------------------------------------------------ what a value says

  /** A spec lists every field once, and no field key holds the separator of identities. */
  ghost predicate WellFormed(fields: seq<Field>)
  {
    && (forall f :: f in fields ==> NUL !in FieldKey(f))
    && (forall f, g :: f in fields && g in fields && FieldKey(f) == FieldKey(g) ==> f == g)
  }

  ghost predicate FromItems(env: Env, f: Field, items: seq<Json>, c: Cell)
  {
    c == CellFor(f, c.value) && exists item :: item in items && env.normalize(f.kind, item) == Some(c.value)
  }

  ghost predicate FromField(env: Env, u: Unit, presented: Json, f: Field, c: Cell)
  {
    Applies(env, u, f) && FromItems(env, f, Items(presented, f), c)
  }

  ghost predicate FromFields(env: Env, u: Unit, presented: Json, fields: seq<Field>, c: Cell)
  {
    exists f :: f in fields && FromField(env, u, presented, f, c)
  }

  predicate Presents(value: KnowledgeValue, observations: seq<Observation>, u: Unit)
  {
    var p := Presented(value, observations, u);
    p.Success? && p.value.Some?
  }

  ghost predicate FromUnit(env: Env, value: KnowledgeValue, observations: seq<Observation>, fields: seq<Field>, u: Unit, c: Cell)
  {
    Presents(value, observations, u) &&
    FromFields(env, u, Presented(value, observations, u).value.value, fields, c)
  }

  /** Some unit of the value says this cell. */
  ghost predicate Says(env: Env, value: KnowledgeValue, observations: seq<Observation>, fields: seq<Field>, units: seq<Unit>, c: Cell)
  {
    exists u :: u in units && FromUnit(env, value, observations, fields, u, c)
  }

  ghost predicate UnitCarries(env: Env, value: KnowledgeValue, observations: seq<Observation>, fields: seq<Field>, u: Unit, key: string)
  {
    Presents(value, observations, u) && AppliesKey(env, u, fields, key)
  }

  ghost predicate AppliesKey(env: Env, u: Unit, fields: seq<Field>, key: string)
  {
    exists f :: f in fields && Applies(env, u, f) && FieldKey(f) == key
  }

  /** Some unit that presents a value carries the field. */
  ghost predicate Carries(env: Env, value: KnowledgeValue, observations: seq<Observation>, fields: seq<Field>, units: seq<Unit>, key: string)
  {
    exists u :: u in units && UnitCarries(env, value, observations, fields, u, key)
  }

  ghost predicate ItemsParse(env: Env, f: Field, items: seq<Json>)
  {
    forall item :: item in items ==> env.normalize(f.kind, item).Some?
  }

  ghost predicate FieldsParse(env: Env, u: Unit, presented: Json, fields: seq<Field>)
  {
    forall f :: f in fields && Applies(env, u, f) ==> ItemsParse(env, f, Items(presented, f))
  }

  /** The unit's observation fits its declaration, and its values have the declared types. */
  ghost predicate UnitCompiles(env: Env, value: KnowledgeValue, observations: seq<Observation>, fields: seq<Field>, u: Unit)
  {
    var p := Presented(value, observations, u);
    p.Success? && (p.value.Some? ==> FieldsParse(env, u, p.value.value, fields))
  }

  ghost predicate UnitsCompile(env: Env, value: KnowledgeValue, observations: seq<Observation>, fields: seq<Field>, units: seq<Unit>)
  {
    forall u :: u in units ==> UnitCompiles(env, value, observations, fields, u)
  }

  // ------------------------------------------------------- gathering keeps exactly the facts

  ghost predicate Shaped(fields: seq<Field>, c: Cell)
  {
    exists f :: f in fields && c == CellFor(f, c.value)
  }

  ghost predicate Good(fields: seq<Field>, g: Gathered)
  {
    && (forall c :: c in g.cells ==> Shaped(fields, c))
    && Text.DistinctKeys(ByIdentity(), g.cells)
    && Text.DistinctKeys((k: string) => k, g.eligible)
  }

  /** Duplicates are duplicates: the identity determines the cell. */
  lemma IdentityDetermines(fields: seq<Field>, c: Cell, d: Cell)
    requires WellFormed(fields) && Shaped(fields, c) && Shaped(fields, d) && Identity(c) == Identity(d)
    ensures c == d
  {
    var f :| f in fields && c == CellFor(f, c.value);
    var g :| g in fields && d == CellFor(g, d.value);
    Text.SplitUnique(NUL, c.field, d.field, c.value, d.value);
  }

  lemma WithCellKeeps(fields: seq<Field>, g: Gathered, c: Cell)
    requires WellFormed(fields) && Good(fields, g) && Shaped(fields, c)
    ensures Good(fields, WithCell(g, c)) && WithCell(g, c).eligible == g.eligible
    ensures forall d :: d in WithCell(g, c).cells <==> d in g.cells || d == c
  {
    if Seen(g.cells, Identity(c)) {
      var d :| d in g.cells && Identity(d) == Identity(c);
      IdentityDetermines(fields, c, d);
    } else {
      forall i | 0 <= i < |g.cells| ensures Identity(g.cells[i]) != Identity(c) {
        assert g.cells[i] in g.cells;
      }
      Text.DistinctConcat(ByIdentity(), g.cells, [c]);
    }
  }

  lemma WithFieldKeeps(fields: seq<Field>, g: Gathered, key: string)
    requires Good(fields, g)
    ensures Good(fields, WithField(g, key)) && WithField(g, key).cells == g.cells
    ensures forall k :: k in WithField(g, key).eligible <==> k in g.eligible || k == key
  {
    if key !in g.eligible {
      Text.DistinctConcat((k: string) => k, g.eligible, [key]);
    }
  }

  lemma {:induction false} AddItemsMeans(env: Env, fields: seq<Field>, f: Field, items: seq<Json>, g: Gathered)
    requires WellFormed(fields) && f in fields && Good(fields, g)
    ensures AddItems(env, f, items, g).Success? <==> ItemsParse(env, f, items)
    ensures AddItems(env, f, items, g).Success? ==>
      var r := AddItems(env, f, items, g).value;
      Good(fields, r) && r.eligible == g.eligible && forall c :: c in r.cells <==> c in g.cells || FromItems(env, f, items, c)
  {
    if items != [] {
      assert items == [items[0]] + items[1..];
      var normalized := env.normalize(f.kind, items[0]);
      if normalized.Some? {
        var c := CellFor(f, normalized.value);
        WithCellKeeps(fields, g, c);
        AddItemsMeans(env, fields, f, items[1..], WithCell(g, c));
        assert FromItems(env, f, items, c);
        forall d ensures FromItems(env, f, items, d) <==> d == c || FromItems(env, f, items[1..], d) {}
      }
    }
  }

  lemma {:induction false} AddFieldsMeans(env: Env, all: seq<Field>, u: Unit, presented: Json, fields: seq<Field>, g: Gathered)
    requires WellFormed(all) && (forall f :: f in fields ==> f in all) && Good(all, g)
    ensures AddFields(env, u, presented, fields, g).Success? <==> FieldsParse(env, u, presented, fields)
    ensures AddFields(env, u, presented, fields, g).Success? ==>
      var r := AddFields(env, u, presented, fields, g).value;
      && Good(all, r)
      && (forall c :: c in r.cells <==> c in g.cells || FromFields(env, u, presented, fields, c))
      && (forall k :: k in r.eligible <==> k in g.eligible || AppliesKey(env, u, fields, k))
  {
    if fields != [] {
      var f, rest := fields[0], fields[1..];
      assert fields == [f] + rest;
      forall c ensures FromFields(env, u, presented, fields, c) <==> FromField(env, u, presented, f, c) || FromFields(env, u, presented, rest, c) {}
      if !Applies(env, u, f) {
        AddFieldsMeans(env, all, u, presented, rest, g);
      } else {
        var h := WithField(g, FieldKey(f));
        WithFieldKeeps(all, g, FieldKey(f));
        AddItemsMeans(env, all, f, Items(presented, f), h);
        var next := AddItems(env, f, Items(presented, f), h);
        if next.Success? {
          AddFieldsMeans(env, all, u, presented, rest, next.value);
          assert AppliesKey(env, u, fields, FieldKey(f));
        }
      }
    }
  }

  lemma {:induction false} AddUnitsMeans(env: Env, value: KnowledgeValue, observations: seq<Observation>, fields: seq<Field>,
                                        units: seq<Unit>, g: Gathered)
    requires WellFormed(fields) && Good(fields, g)
    ensures AddUnits(env, value, observations, fields, units, g).Success? <==> UnitsCompile(env, value, observations, fields, units)
    ensures AddUnits(env, value, observations, fields, units, g).Success? ==>
      var r := AddUnits(env, value, observations, fields, units, g).value;
      && Good(fields, r)
      && (forall c :: c in r.cells <==> c in g.cells || Says(env, value, observations, fields, units, c))
      && (forall k :: k in r.eligible <==> k in g.eligible || Carries(env, value, observations, fields, units, k))
  {
    if units != [] {
      var u, rest := units[0], units[1..];
      assert units == [u] + rest;
      forall c ensures Says(env, value, observations, fields, units, c) <==>
        FromUnit(env, value, observations, fields, u, c) || Says(env, value, observations, fields, rest, c) {}
      forall k ensures Carries(env, value, observations, fields, units, k) <==>
        UnitCarries(env, value, observations, fields, u, k) || Carries(env, value, observations, fields, rest, k) {}
      assert UnitsCompile(env, value, observations, fields, units) <==>
        UnitCompiles(env, value, observations, fields, u) && UnitsCompile(env, value, observations, fields, rest);
      var p := Presented(value, observations, u);
      if p.Success? {
        if p.value.None? {
          AddUnitsMeans(env, value, observations, fields, rest, g);
        } else {
          AddFieldsMeans(env, fields, u, p.value.value, fields, g);
          var next := AddFields(env, u, p.value.value, fields, g);
          if next.Success? {
            AddUnitsMeans(env, value, observations, fields, rest, next.value);
          }
        }
      }
    }
  }

  // ------------------------------------------------------------------------- the document

  ghost predicate Compiles(env: Env, value: KnowledgeValue, observations: seq<Observation>, fields: seq<Field>)
  {
    UnitsCompile(env, value, observations, fields, Units(env, value)) && RelationOf(env, value).Success?
  }

  /** When a value compiles, and what its document holds: exactly the cells and fields its units
  say, each once and in order. */
  lemma DocumentSays(env: Env, value: KnowledgeValue, observations: seq<Observation>, fields: seq<Field>)
    requires WellFormed(fields)
    ensures Document(env, value, observations, fields).Success? <==> Compiles(env, value, observations, fields)
    ensures Document(env, value, observations, fields).Success? ==>
      var doc := Document(env, value, observations, fields).value;
      && (forall c :: c in doc.cells <==> Says(env, value, observations, fields, Units(env, value), c))
      && (forall k :: k in doc.eligible <==> Carries(env, value, observations, fields, Units(env, value), k))
      && Text.Ascending(ByIdentity(), doc.cells)
      && Text.Ascending((k: string) => k, doc.eligible)
      && doc.pairs == Pairs(doc.cells)
  {
    var empty := Gathered([], []);
    AddUnitsMeans(env, value, observations, fields, Units(env, value), empty);
    var r := AddUnits(env, value, observations, fields, Units(env, value), empty);
    if r.Success? {
      Text.SortAscending(ByIdentity(), r.value.cells);
      Text.SortAscending((k: string) => k, r.value.eligible);
    }
  }

  ghost predicate SameFacts(env: Env, fields: seq<Field>, v: KnowledgeValue, ov: seq<Observation>, w: KnowledgeValue, ow: seq<Observation>)
  {
    && (forall c :: Says(env, v, ov, fields, Units(env, v), c) <==> Says(env, w, ow, fields, Units(env, w), c))
    && (forall k :: Carries(env, v, ov, fields, Units(env, v), k) <==> Carries(env, w, ow, fields, Units(env, w), k))
  }

  /** Two values that say the same compile to the same cells, pairs and eligible fields. */
  lemma DocumentIsCanonical(env: Env, fields: seq<Field>, v: KnowledgeValue, ov: seq<Observation>, w: KnowledgeValue, ow: seq<Observation>)
    requires WellFormed(fields) && SameFacts(env, fields, v, ov, w, ow)
    requires Document(env, v, ov, fields).Success? && Document(env, w, ow, fields).Success?
    ensures
      var a, b := Document(env, v, ov, fields).value, Document(env, w, ow, fields).value;
      a.cells == b.cells && a.pairs == b.pairs && a.eligible == b.eligible
  {
    DocumentSays(env, v, ov, fields);
    DocumentSays(env, w, ow, fields);
    var a, b := Document(env, v, ov, fields).value, Document(env, w, ow, fields).value;
    Text.AscendingUnique(ByIdentity(), a.cells, b.cells);
    Text.AscendingUnique((k: string) => k, a.eligible, b.eligible);
  }

  ghost predicate SameMembers<T(!new)>(s: seq<T>, t: seq<T>)
  {
    forall x :: x in s <==> x in t
  }

  /** Everything of a document but its text. */
  ghost predicate SameCanonicalParts(a: Doc, b: Doc)
  {
    a == b.(text := a.text)
  }

  lemma UnitsFromSameMembers(env: Env, fields: seq<Field>, v: KnowledgeValue, w: KnowledgeValue, observations: seq<Observation>)
    requires SameMembers(Units(env, v), Units(env, w)) && w == v.(declarations := w.declarations)
    ensures SameFacts(env, fields, v, observations, w, observations)
    ensures UnitsCompile(env, v, observations, fields, Units(env, v)) <==> UnitsCompile(env, w, observations, fields, Units(env, w))
  {
    forall u ensures Presented(v, observations, u) == Presented(w, observations, u) {}
    forall c ensures Says(env, v, observations, fields, Units(env, v), c) <==> Says(env, w, observations, fields, Units(env, w), c) {
      forall u ensures FromUnit(env, v, observations, fields, u, c) <==> FromUnit(env, w, observations, fields, u, c) {}
    }
    forall k ensures Carries(env, v, observations, fields, Units(env, v), k) <==> Carries(env, w, observations, fields, Units(env, w), k) {
      forall u ensures UnitCarries(env, v, observations, fields, u, k) <==> UnitCarries(env, w, observations, fields, u, k) {}
    }
    forall u ensures UnitCompiles(env, v, observations, fields, u) <==> UnitCompiles(env, w, observations, fields, u) {}
  }

  /** Reordering or repeating the declared units changes neither whether the value compiles nor
  its cells, pairs, eligible fields and relation. */
  lemma UnitOrderIsIrrelevant(env: Env, fields: seq<Field>, v: KnowledgeValue, declarations: seq<Unit>, observations: seq<Observation>)
    requires WellFormed(fields) && v.declarations != [] && SameMembers(v.declarations, declarations)
    ensures
      var a := Document(env, v, observations, fields);
      var b := Document(env, v.(declarations := declarations), observations, fields);
      && a.Success? == b.Success?
      && (a.Success? ==> SameCanonicalParts(a.value, b.value))
  {
    var w := v.(declarations := declarations);
    assert v.declarations[0] in declarations;
    assert Units(env, v) == v.declarations && Units(env, w) == declarations;
    UnitsFromSameMembers(env, fields, v, w, observations);
    DocumentSays(env, v, observations, fields);
    DocumentSays(env, w, observations, fields);
    assert Kind(v) == Kind(w);
    if Document(env, v, observations, fields).Success? {
      DocumentIsCanonical(env, fields, v, observations, w, observations);
    }
  }

  /** The same values in front of the same fields, up to order and repetition of the scalars. */
  ghost predicate SameScalars(env: Env, fields: seq<Field>, v: KnowledgeValue, w: KnowledgeValue, observations: seq<Observation>, u: Unit)
  {
    var p, q := Presented(v, observations, u), Presented(w, observations, u);
    && p.Success? == q.Success?
    && (p.Success? ==> p.value.Some? == q.value.Some?)
    && (p.Success? && p.value.Some? ==> forall f :: f in fields && Applies(env, u, f) ==>
          SameMembers(Items(p.value.value, f), Items(q.value.value, f)))
  }

  lemma FieldFromSameScalars(env: Env, u: Unit, a: Json, b: Json, f: Field, c: Cell)
    requires Applies(env, u, f) ==> SameMembers(Items(a, f), Items(b, f))
    ensures FromField(env, u, a, f, c) <==> FromField(env, u, b, f, c)
  {}

  lemma UnitFromSameScalars(env: Env, fields: seq<Field>, v: KnowledgeValue, w: KnowledgeValue, observations: seq<Observation>, u: Unit, c: Cell)
    requires SameScalars(env, fields, v, w, observations, u)
    ensures FromUnit(env, v, observations, fields, u, c) <==> FromUnit(env, w, observations, fields, u, c)
  {
    if Presents(v, observations, u) {
      var a, b := Presented(v, observations, u).value.value, Presented(w, observations, u).value.value;
      forall f | f in fields ensures FromField(env, u, a, f, c) <==> FromField(env, u, b, f, c) {
        FieldFromSameScalars(env, u, a, b, f, c);
      }
    }
  }

  lemma FactsFromSameScalars(env: Env, fields: seq<Field>, v: KnowledgeValue, w: KnowledgeValue, observations: seq<Observation>)
    requires Units(env, w) == Units(env, v)
    requires forall u :: u in Units(env, v) ==> SameScalars(env, fields, v, w, observations, u)
    ensures SameFacts(env, fields, v, observations, w, observations)
  {
    var units := Units(env, v);
    forall c ensures Says(env, v, observations, fields, units, c) <==> Says(env, w, observations, fields, units, c) {
      forall u | u in units ensures FromUnit(env, v, observations, fields, u, c) <==> FromUnit(env, w, observations, fields, u, c) {
        UnitFromSameScalars(env, fields, v, w, observations, u, c);
      }
    }
    forall k ensures Carries(env, v, observations, fields, units, k) <==> Carries(env, w, observations, fields, units, k) {
      forall u | u in units ensures UnitCarries(env, v, observations, fields, u, k) <==> UnitCarries(env, w, observations, fields, u, k) {
        assert SameScalars(env, fields, v, w, observations, u);
      }
    }
  }

  /** Repeating or reordering scalars inside the body changes no cell, pair or eligible field. */
  lemma ScalarRepetitionIsIrrelevant(env: Env, fields: seq<Field>, v: KnowledgeValue, body: Json, observations: seq<Observation>)
    requires WellFormed(fields)
    requires forall u :: u in Units(env, v) ==> SameScalars(env, fields, v, v.(body := body), observations, u)
    requires Document(env, v, observations, fields).Success? && Document(env, v.(body := body), observations, fields).Success?
    ensures
      var a, b := Document(env, v, observations, fields).value, Document(env, v.(body := body), observations, fields).value;
      a.cells == b.cells && a.pairs == b.pairs && a.eligible == b.eligible
  {
    var w := v.(body := body);
    assert Units(env, w) == Units(env, v);
    FactsFromSameScalars(env, fields, v, w, observations);
    DocumentIsCanonical(env, fields, v, observations, w, observations);
  }

  /** Lists with the same members flatten to the same scalars, whatever their order and nesting below. */
  lemma FlattenForgetsOrder(items: seq<Json>, other: seq<Json>)
    requires SameMembers(items, other)
    ensures SameMembers(Scalars(List(items)), Scalars(List(other)))
  {
    FlattenMembers(items);
    FlattenMembers(other);
  }

  ghost predicate InSome(items: seq<Json>, x: Json)
  {
    exists item :: item in items && x in Scalars(item)
  }

  lemma {:induction false} FlattenMembers(items: seq<Json>)
    ensures forall x :: x in Flatten(items) <==> InSome(items, x)
  {
    if items != [] {
      assert items == [items[0]] + items[1..];
      FlattenMembers(items[1..]);
      forall x ensures InSome(items, x) <==> x in Scalars(items[0]) || InSome(items[1..], x) {}
    }
  }

  // ------------------------------------------------------------------------------- the code

  function PairKey(): ((string, string)) -> string
  {
    (p: (string, string)) => p.0 + [NUL] + p.1
  }

  /** The order of cells and pairs, field first and then value, is the order of identities. */
  lemma {:induction false} PairOrder(f: string, g: string, x: string, y: string)
    requires NUL !in f && NUL !in g
    ensures Text.Less(f + [NUL] + x, g + [NUL] + y) <==> Text.Less(f, g) || (f == g && Text.Less(x, y))
  {
    var s, t := f + [NUL] + x, g + [NUL] + y;
    if f == [] && g == [] {
      assert s[1..] == x && t[1..] == y;
      Text.LessIrreflexive([]);
    } else if f == [] {
      assert g[0] in g && NUL < g[0] && s[0] == NUL && t[0] == g[0];
    } else if g == [] {
      assert f[0] in f && NUL < f[0] && t[0] == NUL && s[0] == f[0];
    } else {
      assert s[0] == f[0] && t[0] == g[0];
      assert s[1..] == f[1..] + [NUL] + x && t[1..] == g[1..] + [NUL] + y;
      if f[0] == g[0] {
        PairOrder(f[1..], g[1..], x, y);
        assert f == [f[0]] + f[1..] && g == [g[0]] + g[1..];
      }
    }
  }

  lemma {:induction false} TextsNext(cells: seq<Cell>, c: Cell)
    ensures Texts(cells + [c]) == Texts(cells) + if c.text != "" then [c.text] else []
  {
    if cells == [] {
      assert cells + [c] == [c] && [c][1..] == [];
    } else {
      TextsNext(cells[1..], c);
      assert (cells + [c])[1..] == cells[1..] + [c];
    }
  }

  /** The document under construction. */
  class Builder {
    var eligible: set<string>
    var seenCells: set<string>
    var cells: seq<Cell>
    var pairs: seq<(string, string)>
    var textParts: seq<string>

    /** The builder holds what has been gathered. */
    ghost predicate Holds(g: Gathered)
      reads this
    {
      && eligible == (set k | k in g.eligible)
      && seenCells == (set c | c in g.cells :: Identity(c))
      && cells == g.cells && pairs == Pairs(g.cells) && textParts == Texts(g.cells)
      && Text.DistinctKeys(ByIdentity(), g.cells)
      && Text.DistinctKeys((k: string) => k, g.eligible)
    }

    constructor ()
      ensures Holds(Gathered([], []))
    {
      eligible, seenCells, cells, pairs, textParts := {}, {}, [], [], [];
    }

    method AddCell(c: Cell, ghost g: Gathered)
      requires Holds(g)
      modifies this
      ensures Holds(WithCell(g, c))
    {
      var identity := Identity(c);
      assert identity in seenCells <==> Seen(g.cells, identity);
      if identity in seenCells {
        return;
      }
      forall i | 0 <= i < |g.cells| ensures Identity(g.cells[i]) != identity {
        assert g.cells[i] in g.cells;
      }
      Text.DistinctConcat(ByIdentity(), g.cells, [c]);
      TextsNext(g.cells, c);
      IdentityNext(g.cells, c);
      seenCells := seenCells + {identity};
      cells := cells + [c];
      pairs := pairs + [(c.field, c.value)];
      assert pairs == Pairs(cells);
      if c.text != "" {
        textParts := textParts + [c.text];
      }
    }

    method AddKey(key: string, ghost g: Gathered)
      requires Holds(g)
      modifies this`eligible
      ensures Holds(WithField(g, key))
    {
      eligible := eligible + {key};
      if key !in g.eligible {
        Text.DistinctConcat((k: string) => k, g.eligible, [key]);
      }
    }

    /** One unit: every field that applies, every scalar under it. */
    method AddUnit(env: Env, u: Unit, presented: Json, fields: seq<Field>, ghost g: Gathered)
      returns (failure: Option<ErrorCode>, ghost r: Gathered)
      requires Holds(g)
      modifies this
      ensures failure.None? ==> Holds(r) && AddFields(env, u, presented, fields, g) == Success(r)
      ensures failure.Some? ==> AddFields(env, u, presented, fields, g) == Failure(failure.value)
    {
      r := g;
      for i := 0 to |fields|
        invariant Holds(r)
        invariant AddFields(env, u, presented, fields, g) == AddFields(env, u, presented, fields[i..], r)
      {
        var f := fields[i];
        assert fields[i..][1..] == fields[i + 1..];
        if !Applies(env, u, f) {
          continue;
        }
        AddKey(FieldKey(f), r);
        ghost var start := WithField(r, FieldKey(f));
        ghost var now := start;
        var items := Items(presented, f);
        for j := 0 to |items|
          invariant Holds(now)
          invariant AddItems(env, f, items, start) == AddItems(env, f, items[j..], now)
        {
          assert items[j..][1..] == items[j + 1..];
          var normalized := env.normalize(f.kind, items[j]);
          if normalized.None? {
            return Some(UsageInvalid), r;
          }
          AddCell(CellFor(f, normalized.value), now);
          now := WithCell(now, CellFor(f, normalized.value));
        }
        r := now;
      }
      return None, r;
    }
  }

  lemma IdentityNext(cells: seq<Cell>, c: Cell)
    ensures (set d | d in cells + [c] :: Identity(d)) == (set d | d in cells :: Identity(d)) + {Identity(c)}
  {
    assert c in cells + [c];
    forall d | d in cells ensures d in cells + [c] {}
    forall d | d in cells + [c] ensures d in cells || d == c {}
  }

  /** The keys of the set, in whatever order a map iteration yields them, then sorted. */
  method SortedKeys(keys: set<string>, ghost listed: seq<string>) returns (r: seq<string>)
    requires keys == (set k | k in listed) && Text.DistinctKeys((k: string) => k, listed)
    ensures r == Text.SortBy((k: string) => k, listed)
  {
    var pending := keys;
    var picked: seq<string> := [];
    while pending != {}
      invariant pending <= keys
      invariant forall k :: k in picked <==> k in keys - pending
      invariant Text.DistinctKeys((k: string) => k, picked)
    {
      var k :| k in pending;
      forall i | 0 <= i < |picked| ensures picked[i] != k {
        assert picked[i] in picked;
      }
      pending := pending - {k};
      Text.DistinctConcat((k: string) => k, picked, [k]);
      picked := picked + [k];
    }
    r := Text.SortBy((k: string) => k, picked);
    Text.SortIsCanonical((k: string) => k, picked, listed);
  }

  lemma PairsSorted(cells: seq<Cell>)
    requires Text.DistinctKeys(ByIdentity(), cells)
    ensures Text.SortBy(PairKey(), Pairs(cells)) == Pairs(Text.SortBy(ByIdentity(), cells))
  {
    var sorted := Text.SortBy(ByIdentity(), cells);
    Text.SortAscending(ByIdentity(), cells);
    forall i, j | 0 <= i < j < |cells| ensures PairKey()(Pairs(cells)[i]) != PairKey()(Pairs(cells)[j]) {
      assert ByIdentity()(cells[i]) != ByIdentity()(cells[j]);
    }
    Text.SortAscending(PairKey(), Pairs(cells));
    forall i, j | 0 <= i < j < |sorted| ensures Text.Less(PairKey()(Pairs(sorted)[i]), PairKey()(Pairs(sorted)[j])) {
      assert Text.Less(ByIdentity()(sorted[i]), ByIdentity()(sorted[j]));
    }
    SameMembersPairs(cells, sorted);
    Text.AscendingUnique(PairKey(), Text.SortBy(PairKey(), Pairs(cells)), Pairs(sorted));
  }

  lemma SameMembersPairs(s: seq<Cell>, t: seq<Cell>)
    requires SameMembers(s, t)
    ensures SameMembers(Pairs(s), Pairs(t))
  {
    PairsWithin(s, t);
    PairsWithin(t, s);
  }

  lemma PairsWithin(s: seq<Cell>, t: seq<Cell>)
    requires forall c :: c in s ==> c in t
    ensures forall p :: p in Pairs(s) ==> p in Pairs(t)
  {
    forall p | p in Pairs(s) ensures p in Pairs(t) {
      var i :| 0 <= i < |s| && Pairs(s)[i] == p;
      assert s[i] in t;
      var j :| 0 <= j < |t| && t[j] == s[i];
      assert Pairs(t)[j] == p;
    }
  }

  /** `compileProjectionDocumentObserved`. */
  method CompileDocument(env: Env, value: KnowledgeValue, observations: seq<Observation>, fields: seq<Field>) returns (r: Result<Doc>)
    ensures r == Document(env, value, observations, fields)
  {
    var doc := new Builder();
    ghost var g := Gathered([], []);
    var units := Units(env, value);
    for i := 0 to |units|
      invariant fresh(doc) && doc.Holds(g)
      invariant AddUnits(env, value, observations, fields, units, Gathered([], [])) ==
        AddUnits(env, value, observations, fields, units[i..], g)
    {
      assert units[i..][1..] == units[i + 1..];
      var presented := Presented(value, observations, units[i]);
      if presented.Failure? {
        return Failure(presented.error);
      }
      if presented.value.Some? {
        ghost var before := g;
        var failure;
        failure, g := doc.AddUnit(env, units[i], presented.value.value, fields, before);
        if failure.Some? {
          return Failure(failure.value);
        }
      }
    }
    var eligible := SortedKeys(doc.eligible, g.eligible);
    var relation := RelationOf(env, value);
    if relation.Failure? {
      return Failure(relation.error);
    }
    PairsSorted(doc.cells);
    return Success(Doc(value.address.objectId, Kind(value), eligible, Text.SortBy(ByIdentity(), doc.cells),
                       Text.SortBy(PairKey(), doc.pairs), relation.value, Join(doc.textParts)));
  }
}
