/** The logical predicate of a search, evaluated on the compiled document of a hydrated object
(index/residual.go, retrieval/expression.go), and the guarantee of a search whose provider
only promises a superset (index/search.go). */
module Residual {
  import opened Kernel
  import opened Knowledge
  import opened Compile
  import opened Meaning

  datatype Op = Match | Eq | In | Neq | Exists | Missing | Prefix | Contains | Gt | Gte | Lt | Lte | Sort

  datatype FieldRef = FieldRef(schema: string, aspect: string, path: string)

  datatype Clause = Clause(op: Op, field: Option<FieldRef>, value: string, values: seq<string>, mode: string)

  datatype Expr = Leaf(clause: Clause) | All(children: seq<Expr>) | Any(children: seq<Expr>)

  /** What the evaluation is handed: comparison of normalised scalars (-1, 0 or 1, if they
  compare), and the provider's analysed match, if it offers one. */
  datatype Judge = Judge(
    compare: (string, string, string) -> Option<int>,
    verify: Option<(string, string, string) -> Result<bool>>)

  // ------------------------------------------------------------------------- field resolution

  predicate RefMatches(ref: FieldRef, f: Field)
  {
    (ref.schema == "" || f.schema == ref.schema) && (ref.aspect == "" || f.aspect == ref.aspect) && f.path == ref.path
  }

  function Candidates(fields: seq<Field>, ref: FieldRef): (r: seq<Field>)
    ensures forall f :: f in r <==> f in fields && RefMatches(ref, f)
  {
    if fields == [] then []
    else (if RefMatches(ref, fields[0]) then [fields[0]] else []) + Candidates(fields[1..], ref)
  }

  /** `ResolveField`: the one field the reference names. */
  function ResolveField(fields: seq<Field>, ref: FieldRef): (r: Result<Field>)
    ensures r.Success? ==> r.value in fields && Names(ref, r.value) && forall f :: f in fields && Names(ref, f) ==> f == r.value
    ensures r == Failure(CapabilityUnsatisfied) ==> forall f :: f in fields ==> !Names(ref, f)
  {
    var found := Candidates(fields, ref);
    if |found| == 0 then Failure(CapabilityUnsatisfied)
    else if |found| > 1 then Failure(UsageInvalid)
    else Success(found[0])
  }

  /** The reference gives the path, and schema and aspect where it does not leave them open. */
  predicate Names(ref: FieldRef, f: Field)
  {
    ref.path == f.path && ref.schema in {"", f.schema} && ref.aspect in {"", f.aspect}
  }

  /** Field i is the only one of the list the reference names. */
  ghost predicate OnlyNamed(fields: seq<Field>, ref: FieldRef, i: nat)
    requires i < |fields|
  {
    Names(ref, fields[i]) && forall j :: 0 <= j < |fields| && Names(ref, fields[j]) ==> j == i
  }

  ghost predicate NamedOnce(fields: seq<Field>, ref: FieldRef, f: Field)
  {
    exists i :: 0 <= i < |fields| && OnlyNamed(fields, ref, i) && fields[i] == f
  }

  /** A reference resolves exactly if the list holds one field it names, one time; it is unsatisfied
  if the list holds none, and ambiguous otherwise. */
  lemma {:induction false} ResolveIff(fields: seq<Field>, ref: FieldRef)
    ensures forall f :: ResolveField(fields, ref) == Success(f) <==> NamedOnce(fields, ref, f)
    ensures ResolveField(fields, ref) == Failure(CapabilityUnsatisfied) <==> forall f :: f in fields ==> !Names(ref, f)
    ensures ResolveField(fields, ref).Failure? ==> ResolveField(fields, ref).error in {CapabilityUnsatisfied, UsageInvalid}
  {
    if fields != [] {
      var first, rest := fields[0], fields[1..];
      assert fields == [first] + rest;
      ResolveIff(rest, ref);
      if Names(ref, first) {
        OnceAtFront(fields, ref);
      } else {
        forall f ensures NamedOnce(fields, ref, f) <==> NamedOnce(rest, ref, f) {
          NotAtFront(fields, ref, f);
        }
      }
    }
  }

  lemma OnceAtFront(fields: seq<Field>, ref: FieldRef)
    requires fields != [] && Names(ref, fields[0])
    ensures forall f :: NamedOnce(fields, ref, f) <==> f == fields[0] && forall g :: g in fields[1..] ==> !Names(ref, g)
  {
    var rest := fields[1..];
    if forall g :: g in rest ==> !Names(ref, g) {
      forall j | 0 < j < |fields| ensures !Names(ref, fields[j]) {
        assert fields[j] == rest[j - 1] && rest[j - 1] in rest;
      }
      assert OnlyNamed(fields, ref, 0);
    }
    forall g | g in rest && Names(ref, g) ensures forall f :: !NamedOnce(fields, ref, f) {
      var j :| 0 <= j < |rest| && rest[j] == g;
      assert fields[j + 1] == g;
    }
  }

  lemma NotAtFront(fields: seq<Field>, ref: FieldRef, f: Field)
    requires fields != [] && !Names(ref, fields[0])
    ensures NamedOnce(fields, ref, f) <==> NamedOnce(fields[1..], ref, f)
  {
    var rest := fields[1..];
    if i :| 0 <= i < |fields| && OnlyNamed(fields, ref, i) && fields[i] == f {
      forall j | 0 <= j < |rest| && Names(ref, rest[j]) ensures j == i - 1 {
        assert fields[j + 1] == rest[j];
      }
      assert OnlyNamed(rest, ref, i - 1);
    }
    if i :| 0 <= i < |rest| && OnlyNamed(rest, ref, i) && rest[i] == f {
      forall j | 0 <= j < |fields| && Names(ref, fields[j]) ensures j == i + 1 {
        assert fields[j] == rest[j - 1];
      }
      assert OnlyNamed(fields, ref, i + 1);
    }
  }

  predicate Unfielded(clause: Clause)
  {
    clause.op == Match && clause.field.None?
  }

  /** Every leaf but an unfielded MATCH names a field, as request resolution guarantees. */
  predicate Resolved(e: Expr)
  {
    match e
    case Leaf(clause) => Unfielded(clause) || clause.field.Some?
    case All(children) => forall child :: child in children ==> Resolved(child)
    case Any(children) => forall child :: child in children ==> Resolved(child)
  }

  // ------------------------------------------------------------------------------- evaluation

  function VerifyMatch(judge: Judge, text: string, clause: Clause): Result<bool>
  {
    if judge.verify.None? then Failure(CapabilityUnsatisfied)
    else judge.verify.value(text, clause.value, clause.mode)
  }

  predicate SameScalar(judge: Judge, kind: string, value: string, target: string)
  {
    judge.compare(kind, value, target) == Some(0)
  }

  predicate Compares(judge: Judge, op: Op, kind: string, value: string, target: string)
  {
    var cmp := judge.compare(kind, value, target);
    cmp.Some? &&
    match op
    case Gt => cmp.value > 0
    case Gte => cmp.value >= 0
    case Lt => cmp.value < 0
    case Lte => cmp.value <= 0
    case _ => false
  }

  predicate HasPrefix(value: string, prefix: string)
  {
    prefix <= value
  }

  predicate HasInfix(value: string, infix: string)
  {
    exists i :: 0 <= i <= |value| && infix <= value[i..]
  }

  predicate ContainsScalar(judge: Judge, kind: string, values: seq<string>, target: string)
  {
    exists v :: v in values && SameScalar(judge, kind, v, target)
  }

  /** `residualScalarClause`, with EXISTS and MISSING. */
  predicate ScalarClause(judge: Judge, clause: Clause, kind: string, values: seq<string>)
  {
    match clause.op
    case Exists => |values| > 0
    case Missing => |values| == 0
    case Eq => ContainsScalar(judge, kind, values, clause.value)
    case In => exists t :: t in clause.values && ContainsScalar(judge, kind, values, t)
    case Neq => |values| > 0 && !ContainsScalar(judge, kind, values, clause.value)
    case Prefix => exists v :: v in values && HasPrefix(v, clause.value)
    case Contains => exists v :: v in values && HasInfix(v, clause.value)
    case Gt | Gte | Lt | Lte => exists v :: v in values && Compares(judge, clause.op, kind, v, clause.value)
    case Match | Sort => false
  }

  function ValuesOf(cells: seq<Cell>, key: string): (r: seq<string>)
    ensures forall v :: v in r <==> exists c :: c in cells && c.field == key && c.value == v
  {
    if cells == [] then []
    else
      var rest := ValuesOf(cells[1..], key);
      assert cells == [cells[0]] + cells[1..];
      (if cells[0].field == key then [cells[0].value] else []) + rest
  }

  function TextsOf(cells: seq<Cell>, key: string): (r: seq<string>)
    ensures forall t :: t in r <==> t != "" && exists c :: c in cells && c.field == key && c.text == t
  {
    if cells == [] then []
    else
      var rest := TextsOf(cells[1..], key);
      assert cells == [cells[0]] + cells[1..];
      (if cells[0].field == key && cells[0].text != "" then [cells[0].text] else []) + rest
  }

  /** Texts one after the other until one matches. */
  function MatchTexts(judge: Judge, clause: Clause, texts: seq<string>): Result<bool>
  {
    if texts == [] then Success(false)
    else
      var matched :- VerifyMatch(judge, texts[0], clause);
      if matched then Success(true) else MatchTexts(judge, clause, texts[1..])
  }

  function EvalClause(judge: Judge, fields: seq<Field>, doc: Doc, clause: Clause): Result<bool>
    requires Unfielded(clause) || clause.field.Some?
  {
    if Unfielded(clause) then VerifyMatch(judge, doc.text, clause)
    else
      var field :- ResolveField(fields, clause.field.value);
      var key := FieldKey(field);
      if key !in doc.eligible then Success(false)
      else if clause.op == Match then MatchTexts(judge, clause, TextsOf(doc.cells, key))
      else Success(ScalarClause(judge, clause, field.kind, ValuesOf(doc.cells, key)))
  }

  /** `matchesResidualExpression`: left to right, stopping at the first child that decides. */
  function Eval(judge: Judge, fields: seq<Field>, doc: Doc, e: Expr): Result<bool>
    requires Resolved(e)
    decreases e, 1
  {
    match e
    case Leaf(clause) => EvalClause(judge, fields, doc, clause)
    case All(children) => EvalAll(judge, fields, doc, children)
    case Any(children) => EvalAny(judge, fields, doc, children)
  }

  function EvalAll(judge: Judge, fields: seq<Field>, doc: Doc, children: seq<Expr>): Result<bool>
    requires forall child :: child in children ==> Resolved(child)
    decreases children, 0
  {
    if children == [] then Success(true)
    else
      var first :- Eval(judge, fields, doc, children[0]);
      if !first then Success(false) else EvalAll(judge, fields, doc, children[1..])
  }

  function EvalAny(judge: Judge, fields: seq<Field>, doc: Doc, children: seq<Expr>): Result<bool>
    requires forall child :: child in children ==> Resolved(child)
    decreases children, 0
  {
    if children == [] then Success(false)
    else
      var first :- Eval(judge, fields, doc, children[0]);
      if first then Success(true) else EvalAny(judge, fields, doc, children[1..])
  }

  /** Why a clause cannot be judged: its field is unknown or ambiguous, or a MATCH has no verifier, or
  the verifier fails. */
  lemma {:induction false} ClauseFailsAs(judge: Judge, fields: seq<Field>, doc: Doc, clause: Clause)
    requires Unfielded(clause) || clause.field.Some?
    requires EvalClause(judge, fields, doc, clause).Failure?
    ensures
      var error := EvalClause(judge, fields, doc, clause).error;
      || (clause.field.Some? && ResolveField(fields, clause.field.value) == Failure(error) && error in {CapabilityUnsatisfied, UsageInvalid})
      || (clause.op == Match && judge.verify.None? && error == CapabilityUnsatisfied)
      || (clause.op == Match && judge.verify.Some? && exists text :: judge.verify.value(text, clause.value, clause.mode) == Failure(error))
  {
    if Unfielded(clause) {
      TextsFailAs(judge, clause, [doc.text]);
    } else {
      ResolveIff(fields, clause.field.value);
      var field := ResolveField(fields, clause.field.value);
      if field.Success? {
        TextsFailAs(judge, clause, TextsOf(doc.cells, FieldKey(field.value)));
      }
    }
  }

  lemma {:induction false} TextsFailAs(judge: Judge, clause: Clause, texts: seq<string>)
    ensures MatchTexts(judge, clause, texts).Failure? ==>
      var error := MatchTexts(judge, clause, texts).error;
      || (judge.verify.None? && error == CapabilityUnsatisfied)
      || (judge.verify.Some? && exists text :: judge.verify.value(text, clause.value, clause.mode) == Failure(error))
  {
    if texts != [] {
      TextsFailAs(judge, clause, texts[1..]);
    }
  }

  /** The same evaluation as the loop over the children. */
  method MatchesExpression(judge: Judge, fields: seq<Field>, doc: Doc, e: Expr) returns (r: Result<bool>)
    requires Resolved(e)
    ensures r == Eval(judge, fields, doc, e)
    decreases e
  {
    if e.Leaf? {
      return EvalClause(judge, fields, doc, e.clause);
    }
    var isAny := e.Any?;
    var children := e.children;
    for i := 0 to |children|
      invariant isAny ==> Eval(judge, fields, doc, e) == EvalAny(judge, fields, doc, children[i..])
      invariant !isAny ==> Eval(judge, fields, doc, e) == EvalAll(judge, fields, doc, children[i..])
    {
      assert children[i..][1..] == children[i + 1..];
      var matched := MatchesExpression(judge, fields, doc, children[i]);
      if matched.Failure? {
        return matched;
      }
      if isAny && matched.value {
        return Success(true);
      }
      if !isAny && !matched.value {
        return Success(false);
      }
    }
    return Success(!isAny);
  }

  // ---------------------------------------------------------------------- the logical predicate

  /** An object as the predicate sees it. */
  datatype Subject = Subject(env: Env, value: KnowledgeValue, observations: seq<Observation>, fields: seq<Field>)

  /** The object states the cell. */
  ghost predicate HasCell(s: Subject, c: Cell)
  {
    States(s.env, s.value, s.observations, s.fields, c)
  }

  /** Some unit that was really read carries the field. */
  ghost predicate HasField(s: Subject, f: Field)
  {
    Bears(s.env, s.value, s.observations, f)
  }

  /** The field has this normalised value. */
  ghost predicate HasValue(s: Subject, f: Field, v: string)
  {
    exists c :: HasCell(s, c) && c.field == FieldKey(f) && c.value == v
  }

  ghost predicate SomeValue(s: Subject, f: Field)
  {
    exists v :: HasValue(s, f, v)
  }

  /** The value and the target compare, and this is how. */
  predicate Below(judge: Judge, kind: string, v: string, target: string)
  {
    var answer := judge.compare(kind, v, target);
    answer.Some? && answer.value < 0
  }

  predicate Level(judge: Judge, kind: string, v: string, target: string)
  {
    var answer := judge.compare(kind, v, target);
    answer.Some? && answer.value == 0
  }

  predicate Above(judge: Judge, kind: string, v: string, target: string)
  {
    var answer := judge.compare(kind, v, target);
    answer.Some? && answer.value > 0
  }

  ghost predicate StartsWith(v: string, prefix: string)
  {
    exists rest :: v == prefix + rest
  }

  ghost predicate HoldsInside(v: string, infix: string)
  {
    exists before, after :: v == before + infix + after
  }

  ghost predicate SomeEqual(judge: Judge, s: Subject, f: Field, target: string)
  {
    exists v :: HasValue(s, f, v) && Level(judge, f.kind, v, target)
  }

  ghost predicate SomeAbove(judge: Judge, s: Subject, f: Field, target: string)
  {
    exists v :: HasValue(s, f, v) && Above(judge, f.kind, v, target)
  }

  ghost predicate SomeAtLeast(judge: Judge, s: Subject, f: Field, target: string)
  {
    exists v :: HasValue(s, f, v) && (Above(judge, f.kind, v, target) || Level(judge, f.kind, v, target))
  }

  ghost predicate SomeBelow(judge: Judge, s: Subject, f: Field, target: string)
  {
    exists v :: HasValue(s, f, v) && Below(judge, f.kind, v, target)
  }

  ghost predicate SomeAtMost(judge: Judge, s: Subject, f: Field, target: string)
  {
    exists v :: HasValue(s, f, v) && (Below(judge, f.kind, v, target) || Level(judge, f.kind, v, target))
  }

  /** The provider's verifier finds the clause's text in this one. */
  predicate TextMatches(judge: Judge, text: string, clause: Clause)
  {
    judge.verify.Some? && judge.verify.value(text, clause.value, clause.mode) == Success(true)
  }

  ghost predicate SomeText(judge: Judge, s: Subject, f: Field, clause: Clause)
  {
    exists c :: HasCell(s, c) && c.field == FieldKey(f) && c.text != "" && TextMatches(judge, c.text, clause)
  }

  ghost predicate FieldSatisfies(judge: Judge, s: Subject, f: Field, clause: Clause)
  {
    match clause.op
    case Exists => SomeValue(s, f)
    case Missing => !SomeValue(s, f)
    case Eq => SomeEqual(judge, s, f, clause.value)
    case In => exists t :: t in clause.values && SomeEqual(judge, s, f, t)
    case Neq => SomeValue(s, f) && !SomeEqual(judge, s, f, clause.value)
    case Prefix => exists v :: HasValue(s, f, v) && StartsWith(v, clause.value)
    case Contains => exists v :: HasValue(s, f, v) && HoldsInside(v, clause.value)
    case Gt => SomeAbove(judge, s, f, clause.value)
    case Gte => SomeAtLeast(judge, s, f, clause.value)
    case Lt => SomeBelow(judge, s, f, clause.value)
    case Lte => SomeAtMost(judge, s, f, clause.value)
    case Match => SomeText(judge, s, f, clause)
    case Sort => false
  }

  /** A MATCH that names no field speaks of the whole text; any other clause of the one field it names,
  which some read unit must bear. */
  ghost predicate ClauseHolds(judge: Judge, s: Subject, text: string, clause: Clause)
  {
    if clause.op == Match && clause.field.None? then TextMatches(judge, text, clause)
    else clause.field.Some? && exists f :: FieldHolds(judge, s, f, clause)
  }

  ghost predicate FieldHolds(judge: Judge, s: Subject, f: Field, clause: Clause)
    requires clause.field.Some?
  {
    NamedOnce(s.fields, clause.field.value, f) && HasField(s, f) && FieldSatisfies(judge, s, f, clause)
  }

  /** The predicate: All is for all, Any is there is. */
  ghost predicate Holds(judge: Judge, s: Subject, text: string, e: Expr)
  {
    match e
    case Leaf(clause) => ClauseHolds(judge, s, text, clause)
    case All(children) => forall child :: child in children ==> Holds(judge, s, text, child)
    case Any(children) => exists child :: child in children && Holds(judge, s, text, child)
  }

  /** The document of the subject. */
  ghost predicate Documents(s: Subject, doc: Doc)
  {
    WellFormed(s.fields) && Document(s.env, s.value, s.observations, s.fields) == Success(doc)
  }

  lemma ValuesMean(s: Subject, doc: Doc, f: Field)
    requires Documents(s, doc) && f in s.fields
    ensures forall v :: v in ValuesOf(doc.cells, FieldKey(f)) <==> HasValue(s, f, v)
    ensures |ValuesOf(doc.cells, FieldKey(f))| > 0 <==> SomeValue(s, f)
    ensures FieldKey(f) in doc.eligible <==> HasField(s, f)
  {
    DocumentMeans(s.env, s.value, s.observations, s.fields);
    var values := ValuesOf(doc.cells, FieldKey(f));
    forall v ensures v in values <==> HasValue(s, f, v) {}
    assert |values| > 0 ==> values[0] in values;
  }

  lemma {:induction false} MatchTextsMean(judge: Judge, clause: Clause, texts: seq<string>)
    ensures MatchTexts(judge, clause, texts).Success? ==>
      (MatchTexts(judge, clause, texts).value <==> exists t :: t in texts && TextMatches(judge, t, clause))
  {
    if texts != [] {
      assert texts == [texts[0]] + texts[1..];
      assert VerifyMatch(judge, texts[0], clause) == Success(true) <==> TextMatches(judge, texts[0], clause);
      MatchTextsMean(judge, clause, texts[1..]);
    }
  }

  ghost predicate ValuesListed(s: Subject, f: Field, values: seq<string>)
  {
    forall v :: v in values <==> HasValue(s, f, v)
  }

  lemma EqualMeans(judge: Judge, s: Subject, f: Field, values: seq<string>, target: string)
    requires ValuesListed(s, f, values)
    ensures ContainsScalar(judge, f.kind, values, target) <==> SomeEqual(judge, s, f, target)
  {}

  lemma PrefixIff(v: string, prefix: string)
    ensures HasPrefix(v, prefix) <==> StartsWith(v, prefix)
  {
    if HasPrefix(v, prefix) { assert v == prefix + v[|prefix|..]; }
  }

  lemma InfixIff(v: string, infix: string)
    ensures HasInfix(v, infix) <==> HoldsInside(v, infix)
  {
    if i :| 0 <= i <= |v| && infix <= v[i..] {
      var after := v[i..][|infix|..];
      assert v[i..] == infix + after;
      assert v == v[..i] + (infix + after) == v[..i] + infix + after;
    }
    if before, after :| v == before + infix + after {
      assert v[|before|..] == infix + after;
    }
  }

  lemma ScalarClauseMeans(judge: Judge, s: Subject, f: Field, values: seq<string>, clause: Clause)
    requires ValuesListed(s, f, values) && clause.op != Match
    ensures ScalarClause(judge, clause, f.kind, values) <==> FieldSatisfies(judge, s, f, clause)
  {
    assert |values| > 0 ==> values[0] in values;
    match clause.op
    case Eq | In | Neq =>
      forall target ensures ContainsScalar(judge, f.kind, values, target) <==> SomeEqual(judge, s, f, target) {
        EqualMeans(judge, s, f, values, target);
      }
    case Prefix =>
      forall v ensures HasPrefix(v, clause.value) <==> StartsWith(v, clause.value) { PrefixIff(v, clause.value); }
    case Contains =>
      forall v ensures HasInfix(v, clause.value) <==> HoldsInside(v, clause.value) { InfixIff(v, clause.value); }
    case _ =>
  }

  lemma TextClauseMeans(judge: Judge, s: Subject, doc: Doc, f: Field, clause: Clause)
    requires Documents(s, doc) && MatchTexts(judge, clause, TextsOf(doc.cells, FieldKey(f))).Success?
    ensures MatchTexts(judge, clause, TextsOf(doc.cells, FieldKey(f))).value <==> SomeText(judge, s, f, clause)
  {
    DocumentMeans(s.env, s.value, s.observations, s.fields);
    MatchTextsMean(judge, clause, TextsOf(doc.cells, FieldKey(f)));
    if SomeText(judge, s, f, clause) {
      var c :| HasCell(s, c) && c.field == FieldKey(f) && c.text != "" && TextMatches(judge, c.text, clause);
      assert c in doc.cells;
      assert c.text in TextsOf(doc.cells, FieldKey(f));
    }
  }

  lemma ClauseMeans(judge: Judge, s: Subject, doc: Doc, clause: Clause)
    requires Documents(s, doc) && (Unfielded(clause) || clause.field.Some?)
    requires EvalClause(judge, s.fields, doc, clause).Success?
    ensures EvalClause(judge, s.fields, doc, clause).value <==> ClauseHolds(judge, s, doc.text, clause)
  {
    if !Unfielded(clause) {
      ResolveIff(s.fields, clause.field.value);
      var f := ResolveField(s.fields, clause.field.value).value;
      ValuesMean(s, doc, f);
      if FieldKey(f) in doc.eligible {
        if clause.op == Match {
          TextClauseMeans(judge, s, doc, f, clause);
        } else {
          ScalarClauseMeans(judge, s, f, ValuesOf(doc.cells, FieldKey(f)), clause);
        }
      }
      assert ClauseHolds(judge, s, doc.text, clause) <==> FieldHolds(judge, s, f, clause);
    }
  }

  /** Evaluation on the document decides the predicate of the object. */
  lemma {:induction false} EvalMeans(judge: Judge, s: Subject, doc: Doc, e: Expr)
    requires Documents(s, doc) && Resolved(e) && Eval(judge, s.fields, doc, e).Success?
    ensures Eval(judge, s.fields, doc, e).value <==> Holds(judge, s, doc.text, e)
    decreases e, 1
  {
    match e
    case Leaf(clause) => ClauseMeans(judge, s, doc, clause);
    case All(children) => EvalAllMeans(judge, s, doc, children);
    case Any(children) => EvalAnyMeans(judge, s, doc, children);
  }

  lemma {:induction false} EvalAllMeans(judge: Judge, s: Subject, doc: Doc, children: seq<Expr>)
    requires Documents(s, doc) && (forall child :: child in children ==> Resolved(child))
    requires EvalAll(judge, s.fields, doc, children).Success?
    ensures EvalAll(judge, s.fields, doc, children).value <==> forall child :: child in children ==> Holds(judge, s, doc.text, child)
    decreases children, 0
  {
    if children != [] {
      assert children == [children[0]] + children[1..];
      EvalMeans(judge, s, doc, children[0]);
      if Eval(judge, s.fields, doc, children[0]).value {
        EvalAllMeans(judge, s, doc, children[1..]);
      }
    }
  }

  lemma AnySplits(judge: Judge, s: Subject, text: string, children: seq<Expr>)
    requires children != []
    ensures forall child :: child in children[1..] ==> child in children
    ensures (exists child :: child in children && Holds(judge, s, text, child)) <==>
      Holds(judge, s, text, children[0]) || exists child :: child in children[1..] && Holds(judge, s, text, child)
  {
    assert children == [children[0]] + children[1..];
  }

  lemma {:induction false} EvalAnyMeans(judge: Judge, s: Subject, doc: Doc, children: seq<Expr>)
    requires Documents(s, doc) && (forall child :: child in children ==> Resolved(child))
    requires EvalAny(judge, s.fields, doc, children).Success?
    ensures EvalAny(judge, s.fields, doc, children).value <==> exists child :: child in children && Holds(judge, s, doc.text, child)
    decreases children, 0
  {
    if children != [] {
      AnySplits(judge, s, doc.text, children);
      EvalMeans(judge, s, doc, children[0]);
      if !Eval(judge, s.fields, doc, children[0]).value {
        EvalAnyMeans(judge, s, doc, children[1..]);
      }
    }
  }

  /** Every leaf can be judged: its field resolves, and a MATCH has a verifier that answers. */
  ghost predicate Judgeable(judge: Judge, fields: seq<Field>, e: Expr)
  {
    match e
    case Leaf(clause) =>
      && (Unfielded(clause) || (clause.field.Some? && ResolveField(fields, clause.field.value).Success?))
      && (clause.op == Match ==> judge.verify.Some? && forall text :: judge.verify.value(text, clause.value, clause.mode).Success?)
    case All(children) => forall child :: child in children ==> Judgeable(judge, fields, child)
    case Any(children) => forall child :: child in children ==> Judgeable(judge, fields, child)
  }

  lemma {:induction false} MatchTextsSucceed(judge: Judge, clause: Clause, texts: seq<string>)
    requires judge.verify.Some? && forall text :: judge.verify.value(text, clause.value, clause.mode).Success?
    ensures MatchTexts(judge, clause, texts).Success?
  {
    if texts != [] { MatchTextsSucceed(judge, clause, texts[1..]); }
  }

  /** Evaluation only fails on a leaf that cannot be judged. */
  lemma {:induction false} EvalSucceeds(judge: Judge, fields: seq<Field>, doc: Doc, e: Expr)
    requires Resolved(e) && Judgeable(judge, fields, e)
    ensures Eval(judge, fields, doc, e).Success?
    decreases e, 1
  {
    match e
    case Leaf(clause) =>
      if !Unfielded(clause) && clause.op == Match {
        var f := ResolveField(fields, clause.field.value).value;
        MatchTextsSucceed(judge, clause, TextsOf(doc.cells, FieldKey(f)));
      }
    case All(children) => EvalChildrenSucceed(judge, fields, doc, children);
    case Any(children) => EvalChildrenSucceed(judge, fields, doc, children);
  }

  lemma {:induction false} EvalChildrenSucceed(judge: Judge, fields: seq<Field>, doc: Doc, children: seq<Expr>)
    requires forall child :: child in children ==> Resolved(child) && Judgeable(judge, fields, child)
    ensures EvalAll(judge, fields, doc, children).Success? && EvalAny(judge, fields, doc, children).Success?
    decreases children, 0
  {
    if children != [] {
      EvalSucceeds(judge, fields, doc, children[0]);
      EvalChildrenSucceed(judge, fields, doc, children[1..]);
    }
  }

  // ------------------------------------------------------------------- laws of the predicate

  function On(op: Op, ref: FieldRef, value: string): Clause
  {
    Clause(op, Some(ref), value, [], "")
  }

  /** On a field the object carries exactly one of EXISTS and MISSING holds; on one it does not
  carry neither does.  NEQ implies EXISTS and excludes EQ. */
  lemma PresenceLaws(judge: Judge, s: Subject, text: string, ref: FieldRef, f: Field, value: string)
    requires NamedOnce(s.fields, ref, f)
    ensures
      var exists_, missing := ClauseHolds(judge, s, text, On(Exists, ref, "")), ClauseHolds(judge, s, text, On(Missing, ref, ""));
      var eq, neq := ClauseHolds(judge, s, text, On(Eq, ref, value)), ClauseHolds(judge, s, text, On(Neq, ref, value));
      && (HasField(s, f) <==> exists_ || missing)
      && !(exists_ && missing)
      && (neq <==> exists_ && !eq)
      && (eq ==> exists_)
  {
    OnField(judge, s, text, Exists, ref, f, "");
    OnField(judge, s, text, Missing, ref, f, "");
    OnField(judge, s, text, Eq, ref, f, value);
    OnField(judge, s, text, Neq, ref, f, value);
  }

  /** GTE is GT or EQ, LTE is LT or EQ, and none of the five holds of an object whose values of the
  field do not compare with the target. */
  lemma RangeLaws(judge: Judge, s: Subject, text: string, ref: FieldRef, f: Field, value: string)
    requires NamedOnce(s.fields, ref, f)
    ensures
      var eq := ClauseHolds(judge, s, text, On(Eq, ref, value));
      var gt, gte := ClauseHolds(judge, s, text, On(Gt, ref, value)), ClauseHolds(judge, s, text, On(Gte, ref, value));
      var lt, lte := ClauseHolds(judge, s, text, On(Lt, ref, value)), ClauseHolds(judge, s, text, On(Lte, ref, value));
      && (gte <==> gt || eq) && (lte <==> lt || eq)
      && (NoneCompares(judge, s, f, value) ==> !gte && !lte)
  {
    AtLeastLaw(judge, s, text, ref, f, value);
    AtMostLaw(judge, s, text, ref, f, value);
  }

  lemma AtLeastLaw(judge: Judge, s: Subject, text: string, ref: FieldRef, f: Field, value: string)
    requires NamedOnce(s.fields, ref, f)
    ensures ClauseHolds(judge, s, text, On(Gte, ref, value)) <==>
      ClauseHolds(judge, s, text, On(Gt, ref, value)) || ClauseHolds(judge, s, text, On(Eq, ref, value))
    ensures NoneCompares(judge, s, f, value) ==> !ClauseHolds(judge, s, text, On(Gte, ref, value))
  {
    OnGte(judge, s, text, ref, f, value);
    OnGt(judge, s, text, ref, f, value);
    OnEq(judge, s, text, ref, f, value);
    FieldAtLeast(judge, s, f, value);
  }

  lemma AtMostLaw(judge: Judge, s: Subject, text: string, ref: FieldRef, f: Field, value: string)
    requires NamedOnce(s.fields, ref, f)
    ensures ClauseHolds(judge, s, text, On(Lte, ref, value)) <==>
      ClauseHolds(judge, s, text, On(Lt, ref, value)) || ClauseHolds(judge, s, text, On(Eq, ref, value))
    ensures NoneCompares(judge, s, f, value) ==> !ClauseHolds(judge, s, text, On(Lte, ref, value))
  {
    OnLte(judge, s, text, ref, f, value);
    OnLt(judge, s, text, ref, f, value);
    OnEq(judge, s, text, ref, f, value);
    FieldAtMost(judge, s, f, value);
  }

  lemma OnEq(judge: Judge, s: Subject, text: string, ref: FieldRef, f: Field, value: string)
    requires NamedOnce(s.fields, ref, f)
    ensures ClauseHolds(judge, s, text, On(Eq, ref, value)) <==> HasField(s, f) && SomeEqual(judge, s, f, value)
  {
    OnField(judge, s, text, Eq, ref, f, value);
  }

  lemma OnGt(judge: Judge, s: Subject, text: string, ref: FieldRef, f: Field, value: string)
    requires NamedOnce(s.fields, ref, f)
    ensures ClauseHolds(judge, s, text, On(Gt, ref, value)) <==> HasField(s, f) && SomeAbove(judge, s, f, value)
  {
    OnField(judge, s, text, Gt, ref, f, value);
  }

  lemma OnGte(judge: Judge, s: Subject, text: string, ref: FieldRef, f: Field, value: string)
    requires NamedOnce(s.fields, ref, f)
    ensures ClauseHolds(judge, s, text, On(Gte, ref, value)) <==> HasField(s, f) && SomeAtLeast(judge, s, f, value)
  {
    OnField(judge, s, text, Gte, ref, f, value);
  }

  lemma OnLt(judge: Judge, s: Subject, text: string, ref: FieldRef, f: Field, value: string)
    requires NamedOnce(s.fields, ref, f)
    ensures ClauseHolds(judge, s, text, On(Lt, ref, value)) <==> HasField(s, f) && SomeBelow(judge, s, f, value)
  {
    OnField(judge, s, text, Lt, ref, f, value);
  }

  lemma OnLte(judge: Judge, s: Subject, text: string, ref: FieldRef, f: Field, value: string)
    requires NamedOnce(s.fields, ref, f)
    ensures ClauseHolds(judge, s, text, On(Lte, ref, value)) <==> HasField(s, f) && SomeAtMost(judge, s, f, value)
  {
    OnField(judge, s, text, Lte, ref, f, value);
  }

  ghost predicate NoneCompares(judge: Judge, s: Subject, f: Field, value: string)
  {
    forall v :: HasValue(s, f, v) ==> judge.compare(f.kind, v, value).None?
  }

  /** The same for the values of one field. */
  lemma FieldAtLeast(judge: Judge, s: Subject, f: Field, value: string)
    ensures SomeAtLeast(judge, s, f, value) <==> SomeAbove(judge, s, f, value) || SomeEqual(judge, s, f, value)
    ensures SomeAtLeast(judge, s, f, value) ==> !NoneCompares(judge, s, f, value)
  {
    if v :| HasValue(s, f, v) && Above(judge, f.kind, v, value) {
      assert SomeAtLeast(judge, s, f, value);
    }
    if v :| HasValue(s, f, v) && Level(judge, f.kind, v, value) {
      assert SomeAtLeast(judge, s, f, value);
    }
  }

  lemma FieldAtMost(judge: Judge, s: Subject, f: Field, value: string)
    ensures SomeAtMost(judge, s, f, value) <==> SomeBelow(judge, s, f, value) || SomeEqual(judge, s, f, value)
    ensures SomeAtMost(judge, s, f, value) ==> !NoneCompares(judge, s, f, value)
  {
    if v :| HasValue(s, f, v) && Below(judge, f.kind, v, value) {
      assert SomeAtMost(judge, s, f, value);
    }
    if v :| HasValue(s, f, v) && Level(judge, f.kind, v, value) {
      assert SomeAtMost(judge, s, f, value);
    }
  }

  /** Of an object with one value, exactly one of LT, EQ and GT holds if that compares with the target:
  the one that the sign of the comparison says. */
  lemma OneValueLaws(judge: Judge, s: Subject, text: string, ref: FieldRef, f: Field, value: string, v: string)
    requires NamedOnce(s.fields, ref, f) && HasField(s, f) && forall w :: HasValue(s, f, w) <==> w == v
    ensures
      var answer := judge.compare(f.kind, v, value);
      && (ClauseHolds(judge, s, text, On(Lt, ref, value)) <==> answer.Some? && answer.value < 0)
      && (ClauseHolds(judge, s, text, On(Eq, ref, value)) <==> answer == Some(0))
      && (ClauseHolds(judge, s, text, On(Gt, ref, value)) <==> answer.Some? && answer.value > 0)
  {
    assert HasValue(s, f, v);
    OnField(judge, s, text, Lt, ref, f, value);
    OnField(judge, s, text, Eq, ref, f, value);
    OnField(judge, s, text, Gt, ref, f, value);
  }

  /** A clause on a resolved field speaks of that field alone. */
  lemma OnField(judge: Judge, s: Subject, text: string, op: Op, ref: FieldRef, f: Field, value: string)
    requires NamedOnce(s.fields, ref, f) && op != Match
    ensures ClauseHolds(judge, s, text, On(op, ref, value)) <==> HasField(s, f) && FieldSatisfies(judge, s, f, On(op, ref, value))
  {
    assert forall g :: NamedOnce(s.fields, ref, g) ==> g == f;
    assert ClauseHolds(judge, s, text, On(op, ref, value)) <==> FieldHolds(judge, s, f, On(op, ref, value));
  }

  /** The unit was not read: a stream, or a binding without an observation. */
  ghost predicate Unread(s: Subject, u: Unit)
  {
    Streams(u) || (IsBound(u) && forall o :: !IsObservationOf(s.observations, u.address, o))
  }

  /** A field carried only by units that were not read satisfies no clause, not even MISSING. */
  lemma UnreadFieldIsSilent(judge: Judge, s: Subject, text: string, clause: Clause, f: Field)
    requires clause.field.Some? && NamedOnce(s.fields, clause.field.value, f)
    requires forall u :: IsUnit(s.env, s.value, u) && BelongsTo(s.env, u, f) ==> Unread(s, u)
    ensures !ClauseHolds(judge, s, text, clause)
  {
    assert forall g :: NamedOnce(s.fields, clause.field.value, g) ==> g == f;
    assert !HasField(s, f);
  }

  // ----------------------------------------------------------------------- provider guarantees

  datatype Guarantee = Exact | Superset | Approximate | Unsupported

  datatype Capability = Capability(guarantee: Guarantee, coverage: real)

  predicate Weak(c: Capability)
  {
    c.guarantee == Approximate || c.coverage < 1.0
  }

  /** `applySearchGuarantees`. */
  method ApplySearchGuarantees(composition: Capability, fragments: seq<Capability>) returns (refused: bool, needsResidual: bool, partial: bool)
    ensures refused <==> exists c :: c in [composition] + fragments && c.guarantee == Unsupported
    ensures !refused ==> (needsResidual <==> exists c :: c in [composition] + fragments && c.guarantee == Superset)
    ensures !refused ==> (partial <==> exists c :: c in [composition] + fragments && (c.guarantee == Approximate || c.coverage < 1.0))
  {
    refused, needsResidual, partial := false, false, false;
    var all := [composition] + fragments;
    for i := 0 to |all|
      invariant forall c :: c in all[..i] ==> c.guarantee != Unsupported
      invariant needsResidual <==> exists c :: c in all[..i] && c.guarantee == Superset
      invariant partial <==> exists c :: c in all[..i] && Weak(c)
    {
      assert all[..i + 1] == all[..i] + [all[i]];
      if all[i].guarantee == Unsupported {
        refused := true;
        return;
      }
      if all[i].guarantee == Superset {
        needsResidual := true;
      }
      if Weak(all[i]) {
        partial := true;
      }
    }
    assert all[..|all|] == all;
  }
}
