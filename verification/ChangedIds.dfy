/** Where the changed ids of an incremental publication come from
(knowledge/internal/maintenanceimpl/change.go).

Without a native change feed two scans are compared, by value only.  A change of declarations
alone escapes them; it does harm exactly when it changes what the units of the object say. */
module ChangedIds {
  import opened Kernel
  import opened Knowledge
  import opened Compile
  import opened Projection
  import opened UnitOrder

  /** The comparison of the two scans. */
  function ScannedChanges(h: History, from: Commit, to: Commit): set<ObjectId>
  {
    (set id | id in h.content(to).Keys &&
       (id !in h.content(from) || h.content(from)[id].body != h.content(to)[id].body)) +
    (h.content(from).Keys - h.content(to).Keys)
  }

  /** `ChangedObjectIDs` without a native change feed. */
  function ChangedObjectIds(h: History, from: Commit, to: Commit): set<ObjectId>
  {
    if from == "" || from == to then h.content(to).Keys else ScannedChanges(h, from, to)
  }

  /** An object that keeps its value. */
  predicate Kept(h: History, from: Commit, to: Commit, id: ObjectId)
  {
    id in h.content(from) && id in h.content(to) && !IsSchemaObject(id) && h.content(from)[id].body == h.content(to)[id].body
  }

  /** Its units say the same cells, fields, relation and text at both commits. */
  ghost predicate SaysAlike(h: History, fields: seq<Field>, v: KnowledgeValue, w: KnowledgeValue)
  {
    && Kind(v) == Kind(w) && RelationOf(h.env, v) == RelationOf(h.env, w)
    && SameFacts(h.env, fields, v, [], w, [])
    && Join(TextParts(h.env, v, [], fields)) == Join(TextParts(h.env, w, [], fields))
  }

  lemma SameDocumentIff(h: History, fields: seq<Field>, from: Commit, to: Commit, id: ObjectId)
    requires WellFormed(fields) && Faithful(h) && Kept(h, from, to, id)
    requires Compiled(h, fields, from, id).Success? && Compiled(h, fields, to, id).Success?
    ensures SameDocument(h, fields, from, to, id) <==> SaysAlike(h, fields, h.content(from)[id], h.content(to)[id])
  {
    var v, w := h.content(from)[id], h.content(to)[id];
    assert Placed(h, from, id) && Placed(h, to, id);
    DocumentsEqualIff(h, fields, v, w);
  }

  lemma DocumentsEqualIff(h: History, fields: seq<Field>, v: KnowledgeValue, w: KnowledgeValue)
    requires WellFormed(fields) && v.address.objectId == w.address.objectId
    requires Document(h.env, v, [], fields).Success? && Document(h.env, w, [], fields).Success?
    ensures Document(h.env, v, [], fields) == Document(h.env, w, [], fields) <==> SaysAlike(h, fields, v, w)
  {
    TextMeans(h.env, v, [], fields);
    TextMeans(h.env, w, [], fields);
    OfDocument(h.env, v, fields);
    OfDocument(h.env, w, fields);
    if Document(h.env, v, [], fields) == Document(h.env, w, [], fields) {
      FactsOfDocument(h.env, v, w, fields);
    }
    if SaysAlike(h, fields, v, w) {
      DocumentIsCanonical(h.env, fields, v, [], w, []);
    }
  }

  lemma OfDocument(env: Env, v: KnowledgeValue, fields: seq<Field>)
    requires Document(env, v, [], fields).Success?
    ensures var doc := Document(env, v, [], fields).value;
      doc.objectId == v.address.objectId && doc.kind == Kind(v) && RelationOf(env, v) == Success(doc.relation) && doc.pairs == Pairs(doc.cells)
  {
  }

  lemma FactsOfDocument(env: Env, v: KnowledgeValue, w: KnowledgeValue, fields: seq<Field>)
    requires WellFormed(fields) && Document(env, v, [], fields).Success? && Document(env, v, [], fields) == Document(env, w, [], fields)
    ensures SameFacts(env, fields, v, [], w, [])
  {
    DocumentSays(env, v, [], fields);
    DocumentSays(env, w, [], fields);
    var doc := Document(env, v, [], fields).value;
    forall c ensures Says(env, v, [], fields, Units(env, v), c) <==> Says(env, w, [], fields, Units(env, w), c) {
      assert c in doc.cells <==> Says(env, v, [], fields, Units(env, v), c);
    }
    forall k ensures Carries(env, v, [], fields, Units(env, v), k) <==> Carries(env, w, [], fields, Units(env, w), k) {
      assert k in doc.eligible <==> Carries(env, v, [], fields, Units(env, v), k);
    }
  }

  /** The changed ids of the fallback are complete exactly when every object that keeps its value
  says the same at both commits. */
  lemma ScanIsCompleteIff(h: History, fields: seq<Field>, from: Commit, to: Commit)
    requires WellFormed(fields) && Faithful(h) && from != ""
    requires AllCompile(h, fields, from) && AllCompile(h, fields, to)
    ensures Complete(h, fields, from, to, ChangedObjectIds(h, from, to)) <==>
      forall id :: Kept(h, from, to, id) ==> SaysAlike(h, fields, h.content(from)[id], h.content(to)[id])
  {
    var ids := ChangedObjectIds(h, from, to);
    CompilesEverywhere(h, fields, from);
    CompilesEverywhere(h, fields, to);
    forall id | Kept(h, from, to, id)
      ensures SameDocument(h, fields, from, to, id) <==> SaysAlike(h, fields, h.content(from)[id], h.content(to)[id])
      ensures from != to ==> id !in ids
    {
      SameDocumentIff(h, fields, from, to, id);
    }
    forall id | id !in ids ensures Kept(h, from, to, id) || SameDocument(h, fields, from, to, id) {}
  }

  // ------------------------------------------------------ what a declaration must not change

  /** What an unobserved reader sees of the units: bindings are skipped, and of the others address
  and schema reference count. */
  function Faces(units: seq<Unit>): seq<(Address, string)>
  {
    if units == [] then []
    else (if IsBinding(units[0]) then [] else [(units[0].address, units[0].schemaRef)]) + Faces(units[1..])
  }

  /** The object's declarations, or what resolving finds, read alike. */
  predicate DeclaredAlike(env: Env, v: KnowledgeValue, w: KnowledgeValue)
  {
    Kind(v) == Kind(w) && Faces(Units(env, v)) == Faces(Units(env, w))
  }

  lemma {:induction false} SameFaceFields(env: Env, u: Unit, x: Unit, presented: Json, fields: seq<Field>, g: Gathered)
    requires u.address == x.address && u.schemaRef == x.schemaRef
    ensures AddFields(env, u, presented, fields, g) == AddFields(env, x, presented, fields, g)
    decreases fields
  {
    if fields != [] {
      assert Applies(env, u, fields[0]) == Applies(env, x, fields[0]);
      if !Applies(env, u, fields[0]) {
        SameFaceFields(env, u, x, presented, fields[1..], g);
      } else {
        var next := AddItems(env, fields[0], Items(presented, fields[0]), WithField(g, FieldKey(fields[0])));
        if next.Success? {
          SameFaceFields(env, u, x, presented, fields[1..], next.value);
        }
      }
    }
  }

  lemma SkipBinding(env: Env, v: KnowledgeValue, fields: seq<Field>, units: seq<Unit>, g: Gathered)
    requires units != [] && IsBinding(units[0])
    ensures AddUnits(env, v, [], fields, units, g) == AddUnits(env, v, [], fields, units[1..], g)
    ensures Faces(units) == Faces(units[1..])
  {
    assert Presented(v, [], units[0]) == Success(None);
  }

  lemma {:induction false} SameFacesUnits(env: Env, v: KnowledgeValue, w: KnowledgeValue, fields: seq<Field>,
                                         us: seq<Unit>, ws: seq<Unit>, g: Gathered)
    requires v.body == w.body && Faces(us) == Faces(ws)
    ensures AddUnits(env, v, [], fields, us, g) == AddUnits(env, w, [], fields, ws, g)
    decreases |us| + |ws|
  {
    if us != [] && IsBinding(us[0]) {
      SkipBinding(env, v, fields, us, g);
      SameFacesUnits(env, v, w, fields, us[1..], ws, g);
    } else if ws != [] && IsBinding(ws[0]) {
      SkipBinding(env, w, fields, ws, g);
      SameFacesUnits(env, v, w, fields, us, ws[1..], g);
    } else if us != [] && ws != [] {
      SameHeads(us, ws);
      var presented := UnitValue(v.body, us[0].address);
      if presented.None? {
        SameFacesUnits(env, v, w, fields, us[1..], ws[1..], g);
      } else {
        SameFaceFields(env, us[0], ws[0], presented.value, fields, g);
        var next := AddFields(env, us[0], presented.value, fields, g);
        if next.Success? {
          SameFacesUnits(env, v, w, fields, us[1..], ws[1..], next.value);
        }
      }
    }
  }

  lemma SameHeads(us: seq<Unit>, ws: seq<Unit>)
    requires us != [] && ws != [] && !IsBinding(us[0]) && !IsBinding(ws[0]) && Faces(us) == Faces(ws)
    ensures us[0].address == ws[0].address && us[0].schemaRef == ws[0].schemaRef && Faces(us[1..]) == Faces(ws[1..])
  {
    assert Faces(us)[0] == Faces(ws)[0] && Faces(us)[1..] == Faces(us[1..]) && Faces(ws)[1..] == Faces(ws[1..]);
  }

  /** An object that keeps its value and whose units keep address and schema reference keeps its
  document: value sources other than bindings and declaration digests do not show. */
  lemma DeclaredAlikeSuffices(h: History, fields: seq<Field>, from: Commit, to: Commit, id: ObjectId)
    requires Faithful(h) && Kept(h, from, to, id) && DeclaredAlike(h.env, h.content(from)[id], h.content(to)[id])
    ensures SameDocument(h, fields, from, to, id)
  {
    var v, w := h.content(from)[id], h.content(to)[id];
    assert Placed(h, from, id) && Placed(h, to, id);
    SameFacesUnits(h.env, v, w, fields, Units(h.env, v), Units(h.env, w), Gathered([], []));
    assert RelationOf(h.env, v) == RelationOf(h.env, w);
  }

  /** So the fallback is complete if no kept object is declared otherwise. */
  lemma ScanIsCompleteIfDeclaredAlike(h: History, fields: seq<Field>, from: Commit, to: Commit)
    requires Faithful(h) && from != ""
    requires forall id :: Kept(h, from, to, id) ==> DeclaredAlike(h.env, h.content(from)[id], h.content(to)[id])
    ensures Complete(h, fields, from, to, ChangedObjectIds(h, from, to))
  {
    forall id | id !in ChangedObjectIds(h, from, to) ensures SameDocument(h, fields, from, to, id) {
      if Kept(h, from, to, id) {
        DeclaredAlikeSuffices(h, fields, from, to, id);
      }
    }
  }

  /** One object whose value stays while its unit moves to another schema. */
  function Redeclared(): History
  {
    var env := Env((kind, item: Json) => if item.Text? then Some(item.text) else None,
                   (id, body) => Failure(UsageInvalid), ref => Some(ref), (a, c) => None);
    History("r", env, c => if c == "" then map[] else map["o" := RedeclaredAt(c)],
            c => if c == "" then Failure(PreconditionFailed) else Success([RedeclaredField()]))
  }

  function RedeclaredAt(c: Commit): KnowledgeValue
  {
    KnowledgeValue("r", c, Address(Entity, "o", "", ""), Json.Text("v"), [],
                   [Unit(Address(Entity, "o", "", ""), NoDigest, if c == "1" then "s" else "t", None)])
  }

  function RedeclaredField(): Field
  {
    Field("s", "", "", "", true, false)
  }

  lemma RedeclaredCarries(c: Commit)
    requires c != ""
    ensures Document(Redeclared().env, RedeclaredAt(c), [], [RedeclaredField()]).Success?
    ensures FieldKey(RedeclaredField()) in Document(Redeclared().env, RedeclaredAt(c), [], [RedeclaredField()]).value.eligible <==> c == "1"
  {
    var env, v, f := Redeclared().env, RedeclaredAt(c), RedeclaredField();
    var u := v.declarations[0];
    assert FieldKey(f) == ['s', SEPARATOR, SEPARATOR];
    assert WellFormed([f]);
    assert Presented(v, [], u) == Success(Some(Json.Text("v")));
    assert Items(Json.Text("v"), f) == [Json.Text("v")];
    assert FieldsParse(env, u, Json.Text("v"), [f]);
    assert UnitCompiles(env, v, [], [f], u);
    assert Kind(v) == Entity;
    DocumentSays(env, v, [], [f]);
    assert Applies(env, u, f) <==> c == "1";
    assert AppliesKey(env, u, [f], FieldKey(f)) <==> Applies(env, u, f);
    assert UnitCarries(env, v, [], [f], u, FieldKey(f)) <==> Applies(env, u, f);
  }

  lemma RedeclaredDiffers()
    ensures Compiled(Redeclared(), [RedeclaredField()], "1", "o") != Compiled(Redeclared(), [RedeclaredField()], "2", "o")
  {
    RedeclaredCarries("1");
    RedeclaredCarries("2");
    var d1 := Document(Redeclared().env, RedeclaredAt("1"), [], [RedeclaredField()]);
    var d2 := Document(Redeclared().env, RedeclaredAt("2"), [], [RedeclaredField()]);
    assert d1.value.eligible != d2.value.eligible;
    assert Compiled(Redeclared(), [RedeclaredField()], "1", "o") == Success(Some(d1.value));
    assert Compiled(Redeclared(), [RedeclaredField()], "2", "o") == Success(Some(d2.value));
  }

  lemma RedeclaredScan()
    ensures ChangedObjectIds(Redeclared(), "1", "2") == {}
  {}

  /** The scan does miss such a change: the value is the same, the document is not. */
  lemma ScanMissesDeclarations()
    ensures Faithful(Redeclared())
    ensures !Complete(Redeclared(), [RedeclaredField()], "1", "2", ChangedObjectIds(Redeclared(), "1", "2"))
  {
    RedeclaredDiffers();
    RedeclaredScan();
    assert !SameDocument(Redeclared(), [RedeclaredField()], "1", "2", "o");
    assert "o" !in ChangedObjectIds(Redeclared(), "1", "2");
  }
}
