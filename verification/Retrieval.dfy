/** Paging and predicate together: a search over a provider that keeps its guarantee answers
exactly the objects that satisfy the logical predicate. */
module Retrieval {
  import opened Kernel
  import C = Compile
  import P = Paging
  import R = Residual

  /** The fixed commit as a search sees it.  A value is named by its object id. */
  datatype Corpus = Corpus(
    env: C.Env, objects: map<string, C.KnowledgeValue>, observations: map<string, seq<C.Observation>>,
    fields: seq<C.Field>, judge: R.Judge, expr: R.Expr)
  {
    ghost predicate Valid()
    {
      && R.Resolved(expr) && C.WellFormed(fields)
      && observations.Keys == objects.Keys
    }

    function Doc(id: string): Result<C.Doc>
    {
      if id in objects && id in observations then C.Document(env, objects[id], observations[id], fields)
      else Failure(PreconditionFailed)
    }

    /** `matchesResidual`. */
    function Residual(id: string): Result<bool>
      requires R.Resolved(expr)
    {
      var doc :- Doc(id);
      R.Eval(judge, fields, doc, expr)
    }

    /** The object's logical content satisfies the predicate. */
    ghost predicate Satisfies(id: string)
      requires Valid()
    {
      id in objects && Doc(id).Success? &&
      R.Holds(judge, R.Subject(env, objects[id], observations[id], fields), Doc(id).value.text, expr)
    }
  }

  function ViewOf(corpus: Corpus, repository: string, commit: string, scope: Option<string -> Result<bool>>, needsResidual: bool): P.View
    requires R.Resolved(corpus.expr)
  {
    P.View(repository, commit, scope, id => if id in corpus.objects then Some(id) else None,
           if needsResidual then Some(id => corpus.Residual(id)) else None)
  }

  predicate Visible(scope: Option<string -> Result<bool>>, id: string)
  {
    scope.Some? ==> scope.value(id) == Success(true)
  }

  /** With full coverage every satisfying object is a candidate; without a residual pass the
  provider has promised that nothing else is.  No candidate's evaluation failed. */
  ghost predicate KeepsGuarantee(corpus: Corpus, needsResidual: bool, stream: seq<P.Candidate>)
    requires corpus.Valid()
  {
    && (forall id :: corpus.Satisfies(id) ==> Listed(stream, id))
    && (!needsResidual ==> forall c :: c in stream ==> corpus.Satisfies(c.objectId))
    && (needsResidual ==> forall c :: c in stream ==> corpus.Residual(c.objectId).Success?)
  }

  ghost predicate Listed(stream: seq<P.Candidate>, id: string)
  {
    exists c :: c in stream && c.objectId == id
  }

  lemma ResidualDecides(corpus: Corpus, id: string)
    requires corpus.Valid() && corpus.Residual(id).Success?
    ensures corpus.Residual(id).value <==> corpus.Satisfies(id)
  {
    R.EvalMeans(corpus.judge, R.Subject(corpus.env, corpus.objects[id], corpus.observations[id], corpus.fields),
                corpus.Doc(id).value, corpus.expr);
  }

  ghost predicate Answered(hits: seq<P.Hit>, id: string)
  {
    exists hit :: hit in hits && hit.value == id
  }

  /** Over the whole stream, residual or exact: the hits are the visible satisfying objects. */
  lemma AnswerIsExact(corpus: Corpus, repository: string, commit: string, scope: Option<string -> Result<bool>>,
                      needsResidual: bool, stream: seq<P.Candidate>)
    requires corpus.Valid() && KeepsGuarantee(corpus, needsResidual, stream)
    ensures forall id :: Answered(P.Answer(ViewOf(corpus, repository, commit, scope, needsResidual), stream), id) <==>
      corpus.Satisfies(id) && Visible(scope, id)
  {
    var view := ViewOf(corpus, repository, commit, scope, needsResidual);
    var scoped := P.ScopeFilter(view, stream);
    P.ScopeFilterMeans(view, stream);
    P.HitsMean(view, scoped);
    forall id ensures Answered(P.Answer(view, stream), id) <==> corpus.Satisfies(id) && Visible(scope, id) {
      if Answered(P.Answer(view, stream), id) {
        var hit :| hit in P.Answer(view, stream) && hit.value == id;
        assert P.SomeYields(view, scoped, hit);
        var c :| c in scoped && P.Yields(view, c, hit);
        assert c in stream && c.objectId == id;
        if needsResidual { ResidualDecides(corpus, id); }
      }
      if corpus.Satisfies(id) && Visible(scope, id) {
        assert Listed(stream, id);
        var c :| c in stream && c.objectId == id;
        assert c in scoped;
        if needsResidual { ResidualDecides(corpus, id); }
        assert P.Yields(view, c, P.Hit(id, c.evidence));
        assert P.SomeYields(view, scoped, P.Hit(id, c.evidence));
      }
    }
  }

  /** The same for any chain of continued searches that has come to its end. */
  lemma ContinuedSearchIsExact(corpus: Corpus, repository: string, commit: string, scope: Option<string -> Result<bool>>,
                               needsResidual: bool, stream: seq<P.Candidate>, at: string -> nat, calls: seq<P.Call>)
    requires corpus.Valid() && KeepsGuarantee(corpus, needsResidual, stream)
    requires at("") == 0 && P.Followed(calls) && calls[|calls| - 1].next.None?
    requires P.EachAnswers(ViewOf(corpus, repository, commit, scope, needsResidual), stream, at, calls)
    ensures forall id :: Answered(P.Collected(calls), id) <==> corpus.Satisfies(id) && Visible(scope, id)
  {
    P.ContinuedSearchIsComplete(ViewOf(corpus, repository, commit, scope, needsResidual), stream, at, calls);
    AnswerIsExact(corpus, repository, commit, scope, needsResidual, stream);
  }
}
