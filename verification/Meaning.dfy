/** What a projection document means, said without the compiler (index/extract.go): paths are chains
of named fields, a list stands for its leaves, and a unit holds what its address names.

`DocumentMeans` is the connection: the document holds exactly the cells and fields stated here. */
module Meaning {
  import opened Kernel
  import opened Knowledge
  import opened Compile
  import Text

  // ------------------------------------------------------------------------------ paths

  function JoinDots(parts: seq<string>): string
  {
    if parts == [] then "" else if |parts| == 1 then parts[0] else parts[0] + "." + JoinDots(parts[1..])
  }

  ghost predicate Dotless(parts: seq<string>)
  {
    forall p :: p in parts ==> '.' !in p
  }

  /** The parts of a path are what lies between its dots. */
  lemma {:induction false} PartsJoin(path: string)
    ensures JoinDots(Parts(path)) == path && Dotless(Parts(path))
  {
    if path != "" {
      var rest := Parts(path[1..]);
      PartsJoin(path[1..]);
      assert path == [path[0]] + path[1..];
      if path[0] == '.' {
        assert Parts(path)[1..] == rest;
        assert JoinDots(Parts(path)) == "" + "." + JoinDots(rest);
      } else {
        var parts := [[path[0]] + rest[0]] + rest[1..];
        assert Parts(path) == parts && parts[1..] == rest[1..];
        assert rest == [rest[0]] + rest[1..];
        assert JoinDots(parts) == [path[0]] + JoinDots(rest);
        forall p | p in parts ensures '.' !in p {
          assert p in rest || p == [path[0]] + rest[0];
          assert rest[0] in rest;
        }
      }
    }
  }

  /** They are determined by it. */
  lemma {:induction false} PartsUnique(parts: seq<string>)
    requires parts != [] && Dotless(parts)
    ensures Parts(JoinDots(parts)) == parts
  {
    var first := parts[0];
    assert parts == [first] + parts[1..];
    if |parts| == 1 {
      PartsOfOne(first);
    } else {
      PartsUnique(parts[1..]);
      PartsOfFirst(first, JoinDots(parts[1..]));
      assert JoinDots(parts) == first + "." + JoinDots(parts[1..]);
    }
  }

  lemma {:induction false} PartsOfOne(part: string)
    requires '.' !in part
    ensures Parts(part) == [part]
  {
    if part != "" {
      PartsOfOne(part[1..]);
      assert part == [part[0]] + part[1..];
    }
  }

  lemma {:induction false} PartsOfFirst(first: string, rest: string)
    requires '.' !in first
    ensures Parts(first + "." + rest) == [first] + Parts(rest)
  {
    var path := first + "." + rest;
    if first == "" {
      assert path[1..] == rest;
    } else {
      PartsOfFirst(first[1..], rest);
      assert path[1..] == first[1..] + "." + rest;
      assert first == [first[0]] + first[1..];
      assert ([first[1..]] + Parts(rest))[1..] == Parts(rest);
    }
  }

  /** The names on the way: the parts that are not empty. */
  function Named(parts: seq<string>): seq<string>
  {
    if parts == [] then []
    else (if parts[0] == "" then [] else [parts[0]]) + Named(parts[1..])
  }

  /** Each value is the field, by the next name, of the object before. */
  ghost predicate Chain(values: seq<Json>, names: seq<string>)
  {
    |values| == |names| + 1 && forall i :: 0 <= i < |names| ==> IsFieldOf(values[i], names[i], values[i + 1])
  }

  predicate IsFieldOf(value: Json, name: string, x: Json)
  {
    value.Object? && name in value.fields && value.fields[name] == x
  }

  /** Following the names from the value leads to x. */
  ghost predicate Leads(value: Json, names: seq<string>, x: Json)
  {
    exists values :: Chain(values, names) && values[0] == value && values[|names|] == x
  }

  lemma LeadsByNone(value: Json, x: Json)
    ensures Leads(value, [], x) <==> x == value
  {
    assert Chain([value], []);
  }

  lemma LeadsByFirst(value: Json, name: string, names: seq<string>, x: Json)
    ensures Leads(value, [name] + names, x) <==> value.Object? && name in value.fields && Leads(value.fields[name], names, x)
  {
    if Leads(value, [name] + names, x) {
      LeadsOnward(value, name, names, x);
    }
    if value.Object? && name in value.fields && Leads(value.fields[name], names, x) {
      LeadsFrom(value, name, names, x);
    }
  }

  lemma LeadsOnward(value: Json, name: string, names: seq<string>, x: Json)
    requires Leads(value, [name] + names, x)
    ensures value.Object? && name in value.fields && Leads(value.fields[name], names, x)
  {
    var all := [name] + names;
    var values :| Chain(values, all) && values[0] == value && values[|all|] == x;
    assert IsFieldOf(values[0], all[0], values[0 + 1]);
    var rest := values[1..];
    forall i | 0 <= i < |names| ensures IsFieldOf(rest[i], names[i], rest[i + 1]) {
      assert IsFieldOf(values[i + 1], all[i + 1], values[i + 1 + 1]);
    }
    assert Chain(rest, names);
  }

  lemma LeadsFrom(value: Json, name: string, names: seq<string>, x: Json)
    requires value.Object? && name in value.fields && Leads(value.fields[name], names, x)
    ensures Leads(value, [name] + names, x)
  {
    var all := [name] + names;
    var rest :| Chain(rest, names) && rest[0] == value.fields[name] && rest[|names|] == x;
    var values := [value] + rest;
    forall i | 0 <= i < |all| ensures IsFieldOf(values[i], all[i], values[i + 1]) {
      assert i > 0 ==> IsFieldOf(rest[i - 1], names[i - 1], rest[i - 1 + 1]);
    }
    assert Chain(values, all);
  }

  lemma DescendNext(value: Json, parts: seq<string>, x: Json)
    requires parts != [] && parts[0] != ""
    requires value.Object? && parts[0] in value.fields ==>
      (Descend(value.fields[parts[0]], parts[1..]) == Some(x) <==> Leads(value.fields[parts[0]], Named(parts[1..]), x))
    ensures Descend(value, parts) == Some(x) <==> Leads(value, Named(parts), x)
  {
    var names := Named(parts[1..]);
    assert Named(parts) == [parts[0]] + names;
    LeadsByFirst(value, parts[0], names, x);
  }

  lemma {:induction false} DescendIff(value: Json, parts: seq<string>, x: Json)
    ensures Descend(value, parts) == Some(x) <==> Leads(value, Named(parts), x)
  {
    if parts == [] {
      LeadsByNone(value, x);
    } else if parts[0] == "" {
      DescendIff(value, parts[1..], x);
    } else {
      if value.Object? && parts[0] in value.fields {
        DescendIff(value.fields[parts[0]], parts[1..], x);
      }
      DescendNext(value, parts, x);
    }
  }

  /** The path, read as names between dots, leads from the value to x; the empty path leads to the
  value itself, unless that is null. */
  ghost predicate Denotes(value: Json, path: string, x: Json)
  {
    && (path == "" ==> x != Null)
    && exists parts :: parts != [] && Dotless(parts) && JoinDots(parts) == path && Leads(value, Named(parts), x)
  }

  /** Looking a path up finds exactly what the path denotes. */
  lemma LookupIff(value: Json, path: string, x: Json)
    ensures Lookup(value, path) == Some(x) <==> Denotes(value, path, x)
  {
    PartsJoin(path);
    forall parts | parts != [] && Dotless(parts) && JoinDots(parts) == path ensures parts == Parts(path) {
      PartsUnique(parts);
    }
    DescendIff(value, Parts(path), x);
    if path == "" {
      assert Named([""]) == [];
      LeadsByNone(value, x);
    }
  }

  /** The item is the value, or a leaf of a list in it. */
  ghost predicate Leaf(item: Json, value: Json)
  {
    if value.List? then exists child :: child in value.items && Leaf(item, child) else item == value
  }

  lemma {:induction false} ScalarsIff(value: Json, item: Json)
    ensures item in Scalars(value) <==> Leaf(item, value)
    decreases value, 1
  {
    if value.List? {
      FlattenIff(value.items, item);
    }
  }

  lemma {:induction false} FlattenIff(items: seq<Json>, item: Json)
    ensures item in Flatten(items) <==> exists child :: child in items && Leaf(item, child)
    decreases items, 0
  {
    if items != [] {
      assert items == [items[0]] + items[1..];
      ScalarsIff(items[0], item);
      FlattenIff(items[1..], item);
    }
  }

  /** The unit's value holds the scalar under the field's path. */
  ghost predicate Offers(presented: Json, f: Field, item: Json)
  {
    exists raw :: Denotes(presented, f.path, raw) && raw != Null && Leaf(item, raw)
  }

  lemma ItemsIff(presented: Json, f: Field, item: Json)
    ensures item in Items(presented, f) <==> Offers(presented, f, item)
  {
    forall x ensures Lookup(presented, f.path) == Some(x) <==> Denotes(presented, f.path, x) {
      LookupIff(presented, f.path, x);
    }
    var found := Lookup(presented, f.path);
    if found.Some? {
      ScalarsIff(found.value, item);
    }
  }

  // ------------------------------------------------------------------------------ units

  /** What an aspect or member address names, from the object's value down. */
  function NamesOf(a: Address): seq<string>
  {
    if a.kind == Member then [a.aspectName, a.memberKey] else [a.aspectName]
  }

  /** The unit's part of the object's value. */
  ghost predicate PartOf(body: Json, a: Address, x: Json)
  {
    if (a.aspectName == "" && a.memberKey == "") || a.kind == AddressKind.Relation then x == body && x != Null
    else Leads(body, NamesOf(a), x)
  }

  lemma UnitValueIff(body: Json, a: Address, x: Json)
    ensures UnitValue(body, a) == Some(x) <==> PartOf(body, a, x)
  {
    forall value ensures Leads(value, [], x) <==> x == value {
      LeadsByNone(value, x);
    }
    LeadsByFirst(body, a.aspectName, [], x);
    LeadsByFirst(body, a.aspectName, [a.memberKey], x);
    assert [a.aspectName] + [] == [a.aspectName] && [a.aspectName] + [a.memberKey] == [a.aspectName, a.memberKey];
    if body.Object? && a.aspectName in body.fields {
      LeadsByFirst(body.fields[a.aspectName], a.memberKey, [], x);
      assert [a.memberKey] + [] == [a.memberKey];
    }
  }

  /** The observation is the last one given for the address. */
  ghost predicate IsObservationOf(observations: seq<Observation>, a: Address, o: Observation)
  {
    exists i :: 0 <= i < |observations| && LastAt(observations, a, i) && observations[i] == o
  }

  predicate LastAt(observations: seq<Observation>, a: Address, i: nat)
    requires i < |observations|
  {
    && AddressKey(observations[i].address) == AddressKey(a)
    && forall j :: i < j < |observations| ==> AddressKey(observations[j].address) != AddressKey(a)
  }

  lemma {:induction false} ObservedIff(observations: seq<Observation>, a: Address, o: Observation)
    ensures Observed(observations, a) == Some(o) <==> IsObservationOf(observations, a, o)
  {
    if observations != [] {
      var n := |observations| - 1;
      var front := observations[..n];
      ObservedIff(front, a, o);
      if AddressKey(observations[n].address) == AddressKey(a) {
        assert LastAt(observations, a, n);
        if i :| 0 <= i < |observations| && LastAt(observations, a, i) && observations[i] == o {
          assert !(i < n);
        }
      } else {
        forall i | 0 <= i < n ensures LastAt(observations, a, i) <==> LastAt(front, a, i) {}
        if IsObservationOf(front, a, o) {
          var i :| 0 <= i < |front| && LastAt(front, a, i) && front[i] == o;
          assert LastAt(observations, a, i);
        }
        if i :| 0 <= i < |observations| && LastAt(observations, a, i) && observations[i] == o {
          assert LastAt(front, a, i);
        }
      }
    }
  }

  /** Declared or, where the value declares none, resolved at its commit. */
  ghost predicate IsUnit(env: Env, value: KnowledgeValue, u: Unit)
  {
    if value.declarations != [] then u in value.declarations
    else
      && (if value.units != [] then u.address in value.units else u.address == value.address)
      && u.declarationDigest == NoDigest
      && match env.resolve(u.address, value.commit)
         case None => u.schemaRef == "" && u.source == None
         case Some(found) => u.schemaRef == found.0 && u.source == found.1
  }

  lemma UnitsIff(env: Env, value: KnowledgeValue, u: Unit)
    ensures u in Units(env, value) <==> IsUnit(env, value, u)
  {
    if |value.declarations| == 0 {
      var addresses := if |value.units| == 0 then [value.address] else value.units;
      var units := Units(env, value);
      assert IsUnit(env, value, u) <==> u.address in addresses && u == Undeclared(env, value.commit, u.address);
      if IsUnit(env, value, u) {
        var i :| 0 <= i < |addresses| && addresses[i] == u.address;
        assert units[i] == u;
      }
      if u in units {
        var i :| 0 <= i < |units| && units[i] == u;
        assert u == Undeclared(env, value.commit, addresses[i]) && addresses[i] in addresses;
      }
    }
  }

  /** The unit is bound to a source, and not read as a stream. */
  predicate IsBound(u: Unit)
  {
    u.source.Some? && u.source.value.kind == "binding"
  }

  predicate Streams(u: Unit)
  {
    IsBound(u) && u.source.value.binding == Some(Stream)
  }

  /** The object was observed under another declaration of the unit. */
  ghost predicate Misobserved(value: KnowledgeValue, observations: seq<Observation>, u: Unit)
  {
    IsBound(u) && !Streams(u) &&
    exists o :: IsObservationOf(observations, u.address, o) && !Fits(value, u, o)
  }

  predicate Fits(value: KnowledgeValue, u: Unit, o: Observation)
  {
    o.declarationCommit == value.commit && o.declarationDigest == u.declarationDigest
  }

  /** The unit was read, and holds x: its part of the value, or null for a binding that was observed
  without one. */
  ghost predicate Reads(value: KnowledgeValue, observations: seq<Observation>, u: Unit, x: Json)
  {
    if !IsBound(u) then PartOf(value.body, u.address, x)
    else
      && !Streams(u)
      && (exists o :: IsObservationOf(observations, u.address, o) && Fits(value, u, o))
      && (PartOf(value.body, u.address, x) || (x == Null && forall y :: !PartOf(value.body, u.address, y)))
  }

  lemma PresentedIff(value: KnowledgeValue, observations: seq<Observation>, u: Unit)
    ensures Presented(value, observations, u).Failure? <==> Misobserved(value, observations, u)
    ensures Presented(value, observations, u).Failure? ==> Presented(value, observations, u).error == PreconditionFailed
    ensures forall x :: Presented(value, observations, u) == Success(Some(x)) <==> Reads(value, observations, u, x)
  {
    forall x ensures UnitValue(value.body, u.address) == Some(x) <==> PartOf(value.body, u.address, x) {
      UnitValueIff(value.body, u.address, x);
    }
    forall o ensures Observed(observations, u.address) == Some(o) <==> IsObservationOf(observations, u.address, o) {
      ObservedIff(observations, u.address, o);
    }
    var v, o := UnitValue(value.body, u.address), Observed(observations, u.address);
    if v.Some? { assert PartOf(value.body, u.address, v.value); }
    if o.Some? { assert IsObservationOf(observations, u.address, o.value); }
  }

  /** The field is one of the unit's schema, or of its aspect if the unit has no schema. */
  predicate BelongsTo(env: Env, u: Unit, f: Field)
  {
    if u.schemaRef != "" then env.parseSchema(u.schemaRef) == Some(f.schema) else f.aspect == u.address.aspectName
  }

  // --------------------------------------------------------------------------- documents

  /** A cell of the field, with this value: searchable text where the field asks for it, typed where
  it filters or sorts. */
  predicate CellOf(f: Field, c: Cell)
  {
    && c.field == FieldKey(f)
    && (if f.text then c.text == c.value else c.text == "")
    && (if f.scalar then c.typed == Some(f.kind) else c.typed == None)
  }

  /** Different fields have different keys, if schema and aspect hold no separator. */
  lemma FieldKeyIdentifies(f: Field, g: Field)
    requires SEPARATOR !in f.schema && SEPARATOR !in f.aspect && SEPARATOR !in g.schema && SEPARATOR !in g.aspect
    requires FieldKey(f) == FieldKey(g)
    ensures f.schema == g.schema && f.aspect == g.aspect && f.path == g.path
  {
    var p, q := f.aspect + [SEPARATOR] + f.path, g.aspect + [SEPARATOR] + g.path;
    assert FieldKey(f) == f.schema + [SEPARATOR] + p && FieldKey(g) == g.schema + [SEPARATOR] + q;
    Text.SplitUnique(SEPARATOR, f.schema, g.schema, p, q);
    Text.SplitUnique(SEPARATOR, f.aspect, g.aspect, f.path, g.path);
  }

  /** The field gets this normalised value from the unit. */
  ghost predicate Gives(env: Env, value: KnowledgeValue, observations: seq<Observation>, u: Unit, f: Field, v: string)
  {
    && IsUnit(env, value, u) && BelongsTo(env, u, f)
    && exists x, item :: Reads(value, observations, u, x) && Offers(x, f, item) && env.normalize(f.kind, item) == Some(v)
  }

  /** The object states the cell. */
  ghost predicate States(env: Env, value: KnowledgeValue, observations: seq<Observation>, fields: seq<Field>, c: Cell)
  {
    exists u, f :: f in fields && CellOf(f, c) && Gives(env, value, observations, u, f, c.value)
  }

  /** Some unit that was read bears the field, with or without a value. */
  ghost predicate Bears(env: Env, value: KnowledgeValue, observations: seq<Observation>, f: Field)
  {
    exists u, x :: IsUnit(env, value, u) && BelongsTo(env, u, f) && Reads(value, observations, u, x)
  }

  /** No unit was observed under another declaration, and whatever a read unit offers a field of its
  own parses as the field's type. */
  ghost predicate Parses(env: Env, value: KnowledgeValue, observations: seq<Observation>, fields: seq<Field>)
  {
    && (forall u :: IsUnit(env, value, u) ==> !Misobserved(value, observations, u))
    && forall u, f, x :: IsUnit(env, value, u) && f in fields && BelongsTo(env, u, f) && Reads(value, observations, u, x) ==>
         forall item :: Offers(x, f, item) ==> env.normalize(f.kind, item).Some?
  }

  /** The object, or a unit it declares, is a relation. */
  ghost predicate IsRelation(value: KnowledgeValue)
  {
    value.address.kind == AddressKind.Relation || exists u :: u in value.declarations && u.address.kind == AddressKind.Relation
  }

  lemma SaysIff(env: Env, value: KnowledgeValue, observations: seq<Observation>, fields: seq<Field>, c: Cell)
    ensures Says(env, value, observations, fields, Units(env, value), c) <==> States(env, value, observations, fields, c)
  {
    var units := Units(env, value);
    forall u, f, v | f in fields ensures UnitSays(env, value, observations, units, u, f, v) <==> Gives(env, value, observations, u, f, v) {
      UnitSaysIff(env, value, observations, u, f, v);
    }
    if Says(env, value, observations, fields, units, c) {
      var u :| u in units && FromUnit(env, value, observations, fields, u, c);
      var presented := Presented(value, observations, u).value.value;
      var f :| f in fields && FromField(env, u, presented, f, c);
      assert UnitSays(env, value, observations, units, u, f, c.value);
    }
    if States(env, value, observations, fields, c) {
      var u, f :| f in fields && CellOf(f, c) && Gives(env, value, observations, u, f, c.value);
      assert UnitSays(env, value, observations, units, u, f, c.value);
      assert FromField(env, u, Presented(value, observations, u).value.value, f, c);
      assert FromUnit(env, value, observations, fields, u, c);
    }
  }

  /** What the compiler takes from a unit for a field. */
  ghost predicate UnitSays(env: Env, value: KnowledgeValue, observations: seq<Observation>, units: seq<Unit>, u: Unit, f: Field, v: string)
  {
    && u in units && Presents(value, observations, u) && Applies(env, u, f)
    && exists item :: item in Items(Presented(value, observations, u).value.value, f) && env.normalize(f.kind, item) == Some(v)
  }

  lemma UnitSaysIff(env: Env, value: KnowledgeValue, observations: seq<Observation>, u: Unit, f: Field, v: string)
    ensures UnitSays(env, value, observations, Units(env, value), u, f, v) <==> Gives(env, value, observations, u, f, v)
  {
    UnitsIff(env, value, u);
    PresentedIff(value, observations, u);
    forall x, item ensures item in Items(x, f) <==> Offers(x, f, item) {
      ItemsIff(x, f, item);
    }
    if Presents(value, observations, u) {
      assert Reads(value, observations, u, Presented(value, observations, u).value.value);
    }
  }

  lemma CarriesIff(env: Env, value: KnowledgeValue, observations: seq<Observation>, fields: seq<Field>, f: Field)
    requires WellFormed(fields) && f in fields
    ensures Carries(env, value, observations, fields, Units(env, value), FieldKey(f)) <==> Bears(env, value, observations, f)
  {
    var units := Units(env, value);
    forall u ensures u in units <==> IsUnit(env, value, u) {
      UnitsIff(env, value, u);
    }
    forall u ensures Presents(value, observations, u) <==> exists x :: Reads(value, observations, u, x) {
      PresentedIff(value, observations, u);
      if Presents(value, observations, u) {
        assert Reads(value, observations, u, Presented(value, observations, u).value.value);
      }
    }
    if Carries(env, value, observations, fields, units, FieldKey(f)) {
      var u :| u in units && UnitCarries(env, value, observations, fields, u, FieldKey(f));
      assert BelongsTo(env, u, f);
    }
    if Bears(env, value, observations, f) {
      var u, x :| IsUnit(env, value, u) && BelongsTo(env, u, f) && Reads(value, observations, u, x);
      assert AppliesKey(env, u, fields, FieldKey(f));
      assert UnitCarries(env, value, observations, fields, u, FieldKey(f));
    }
  }

  lemma UnitCompilesIff(env: Env, value: KnowledgeValue, observations: seq<Observation>, fields: seq<Field>, u: Unit)
    ensures UnitCompiles(env, value, observations, fields, u) <==>
      && !Misobserved(value, observations, u)
      && forall f, x :: f in fields && BelongsTo(env, u, f) && Reads(value, observations, u, x) ==>
           forall item :: Offers(x, f, item) ==> env.normalize(f.kind, item).Some?
  {
    PresentedIff(value, observations, u);
    forall x, f, item ensures item in Items(x, f) <==> Offers(x, f, item) {
      ItemsIff(x, f, item);
    }
    if Presents(value, observations, u) {
      assert Reads(value, observations, u, Presented(value, observations, u).value.value);
    }
  }

  lemma CompilesIff(env: Env, value: KnowledgeValue, observations: seq<Observation>, fields: seq<Field>)
    ensures UnitsCompile(env, value, observations, fields, Units(env, value)) <==> Parses(env, value, observations, fields)
  {
    forall u ensures u in Units(env, value) <==> IsUnit(env, value, u) {
      UnitsIff(env, value, u);
    }
    forall u ensures UnitCompiles(env, value, observations, fields, u) <==>
      && !Misobserved(value, observations, u)
      && forall f, x :: f in fields && BelongsTo(env, u, f) && Reads(value, observations, u, x) ==>
           forall item :: Offers(x, f, item) ==> env.normalize(f.kind, item).Some?
    {
      UnitCompilesIff(env, value, observations, fields, u);
    }
  }

  /** When an object compiles, and what its document holds: exactly the cells it states and the
  fields its read units bear, each once and in order; and its relation, if it is one. */
  lemma DocumentMeans(env: Env, value: KnowledgeValue, observations: seq<Observation>, fields: seq<Field>)
    requires WellFormed(fields)
    ensures Document(env, value, observations, fields).Success? <==>
      Parses(env, value, observations, fields) && (IsRelation(value) ==> env.decodeRelation(value.address.objectId, value.body).Success?)
    ensures Document(env, value, observations, fields).Success? ==>
      var doc := Document(env, value, observations, fields).value;
      && doc.objectId == value.address.objectId
      && (doc.kind == AddressKind.Relation <==> IsRelation(value)) && (doc.kind == Entity <==> !IsRelation(value))
      && (forall c :: c in doc.cells <==> States(env, value, observations, fields, c))
      && (forall f :: f in fields ==> (FieldKey(f) in doc.eligible <==> Bears(env, value, observations, f)))
      && (forall k :: k in doc.eligible ==> exists f :: f in fields && FieldKey(f) == k)
      && Text.Ascending(ByIdentity(), doc.cells)
      && Text.Ascending((k: string) => k, doc.eligible)
      && |doc.pairs| == |doc.cells|
      && (forall i :: 0 <= i < |doc.cells| ==> doc.pairs[i] == (doc.cells[i].field, doc.cells[i].value))
      && (IsRelation(value) ==> Success(doc.relation) == Wrapped(env.decodeRelation(value.address.objectId, value.body)))
      && (!IsRelation(value) ==> doc.relation == None)
  {
    DocumentSays(env, value, observations, fields);
    CompilesIff(env, value, observations, fields);
    if Document(env, value, observations, fields).Success? {
      var doc := Document(env, value, observations, fields).value;
      forall c ensures c in doc.cells <==> States(env, value, observations, fields, c) {
        SaysIff(env, value, observations, fields, c);
      }
      forall f | f in fields ensures FieldKey(f) in doc.eligible <==> Bears(env, value, observations, f) {
        CarriesIff(env, value, observations, fields, f);
      }
      forall k | k in doc.eligible ensures exists f :: f in fields && FieldKey(f) == k {
        var u :| u in Units(env, value) && UnitCarries(env, value, observations, fields, u, k);
      }
    }
  }

  lemma {:induction false} ItemsFailAs(env: Env, f: Field, items: seq<Json>, g: Gathered)
    ensures AddItems(env, f, items, g).Failure? ==> AddItems(env, f, items, g).error == UsageInvalid
  {
    if items != [] && env.normalize(f.kind, items[0]).Some? {
      ItemsFailAs(env, f, items[1..], WithCell(g, CellFor(f, env.normalize(f.kind, items[0]).value)));
    }
  }

  lemma {:induction false} FieldsFailAs(env: Env, u: Unit, presented: Json, fields: seq<Field>, g: Gathered)
    ensures AddFields(env, u, presented, fields, g).Failure? ==> AddFields(env, u, presented, fields, g).error == UsageInvalid
  {
    if fields != [] {
      var f := fields[0];
      if !Applies(env, u, f) {
        FieldsFailAs(env, u, presented, fields[1..], g);
      } else {
        ItemsFailAs(env, f, Items(presented, f), WithField(g, FieldKey(f)));
        var next := AddItems(env, f, Items(presented, f), WithField(g, FieldKey(f)));
        if next.Success? {
          FieldsFailAs(env, u, presented, fields[1..], next.value);
        }
      }
    }
  }

  lemma {:induction false} UnitsFailAs(env: Env, value: KnowledgeValue, observations: seq<Observation>, fields: seq<Field>, units: seq<Unit>, g: Gathered)
    ensures AddUnits(env, value, observations, fields, units, g).Failure? ==>
      || AddUnits(env, value, observations, fields, units, g).error == UsageInvalid
      || (AddUnits(env, value, observations, fields, units, g).error == PreconditionFailed && exists u :: u in units && Misobserved(value, observations, u))
  {
    if units != [] {
      var u, rest := units[0], units[1..];
      assert units == [u] + rest;
      PresentedIff(value, observations, u);
      var p := Presented(value, observations, u);
      if p.Success? && p.value.None? {
        UnitsFailAs(env, value, observations, fields, rest, g);
      } else if p.Success? {
        FieldsFailAs(env, u, p.value.value, fields, g);
        var next := AddFields(env, u, p.value.value, fields, g);
        if next.Success? {
          UnitsFailAs(env, value, observations, fields, rest, next.value);
        }
      }
    }
  }

  /** What an object that does not compile fails with. */
  lemma DocumentFailsAs(env: Env, value: KnowledgeValue, observations: seq<Observation>, fields: seq<Field>)
    requires WellFormed(fields) && Document(env, value, observations, fields).Failure?
    ensures
      var error := Document(env, value, observations, fields).error;
      && (!Parses(env, value, observations, fields) ==>
            error == UsageInvalid || (error == PreconditionFailed && exists u :: IsUnit(env, value, u) && Misobserved(value, observations, u)))
      && (Parses(env, value, observations, fields) ==> env.decodeRelation(value.address.objectId, value.body) == Failure(error))
  {
    CompilesIff(env, value, observations, fields);
    DocumentSays(env, value, observations, fields);
    UnitsFailAs(env, value, observations, fields, Units(env, value), Gathered([], []));
    AddUnitsMeans(env, value, observations, fields, Units(env, value), Gathered([], []));
    forall u ensures u in Units(env, value) <==> IsUnit(env, value, u) {
      UnitsIff(env, value, u);
    }
  }

  function Wrapped<T>(r: Result<T>): Result<Option<T>>
  {
    if r.Success? then Success(Some(r.value)) else Failure(r.error)
  }
}
