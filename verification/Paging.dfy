/** One repository search and its continuation (index/search.go, index/candidate_scope.go).

The provider is untrusted: whatever it answers, only objects of the fixed basis that pass
scope and residual become hits.  If its pages are cuts of one candidate stream, then the
pages of a continued search concatenate to exactly the filtered stream. */
module Paging {
  import opened Kernel

  type ObjectId = string
  type Value = string

  datatype Candidate = Candidate(repository: string, objectId: ObjectId, basis: string, evidence: string)

  datatype Page = Page(candidates: seq<Candidate>, continuation: string, exhausted: bool)

  datatype Hit = Hit(value: Value, evidence: string)

  /** What fixes the meaning of a search: basis, scope, authority content and predicate. */
  datatype View = View(
    repository: string, commit: string,
    scope: Option<ObjectId -> Result<bool>>,
    content: ObjectId -> Option<Value>,
    residual: Option<Value -> Result<bool>>)

  /** The public token; encoding and decoding are taken as exact. */
  datatype Token = Token(query: string, view: string, projection: string, position: string)

  datatype Status = Running | Expired | Canceled(error: ErrorCode)

  datatype Reserve = Grant(reserved: nat) | Exhausted | Interrupted(error: ErrorCode)

  /** What the surroundings do during one turn of the loop; the provider answers separately. */
  datatype Turn = Turn(reserve: Reserve, afterRetrieve: Status, readError: Option<ErrorCode>, afterRead: Status)

  type Provider = (nat, string, nat) -> Result<Page>

  // --------------------------------------------------------------------- filtering, as data

  predicate OnBasis(view: View, c: Candidate)
  {
    (c.repository == "" || c.repository == view.repository) && c.basis == view.commit
  }

  /** The scope has an answer for the candidate, which is of the fixed basis. */
  predicate ScopeFine(view: View, c: Candidate)
  {
    view.scope.Some? ==> OnBasis(view, c) && view.scope.value(c.objectId).Success?
  }

  /** The candidate's object exists, and the residual has an answer for it. */
  predicate Judged(view: View, c: Candidate)
  {
    && view.content(c.objectId).Some?
    && (view.residual.Some? ==> view.residual.value(view.content(c.objectId).value).Success?)
  }

  predicate InScope(view: View, c: Candidate)
  {
    view.scope.Some? ==> view.scope.value(c.objectId) == Success(true)
  }

  predicate Matches(view: View, value: Value)
  {
    view.residual.Some? ==> view.residual.value(value) == Success(true)
  }

  function ScopeFilter(view: View, cs: seq<Candidate>): seq<Candidate>
  {
    if cs == [] then []
    else ScopeFilter(view, cs[..|cs| - 1]) + if InScope(view, cs[|cs| - 1]) then [cs[|cs| - 1]] else []
  }

  /** The hits of candidates whose objects exist and match. */
  function Hits(view: View, cs: seq<Candidate>): seq<Hit>
  {
    if cs == [] then []
    else
      var c := cs[|cs| - 1];
      Hits(view, cs[..|cs| - 1]) +
      if view.content(c.objectId).Some? && Matches(view, view.content(c.objectId).value)
      then [Hit(view.content(c.objectId).value, c.evidence)] else []
  }

  /** The logical answer over a candidate stream. */
  function Answer(view: View, cs: seq<Candidate>): seq<Hit>
  {
    Hits(view, ScopeFilter(view, cs))
  }

  lemma {:induction false} ScopeFilterConcat(view: View, a: seq<Candidate>, b: seq<Candidate>)
    ensures ScopeFilter(view, a + b) == ScopeFilter(view, a) + ScopeFilter(view, b)
  {
    if b == [] {
      assert a + b == a;
    } else {
      ScopeFilterConcat(view, a, b[..|b| - 1]);
      assert (a + b)[..|a + b| - 1] == a + b[..|b| - 1];
    }
  }

  lemma {:induction false} HitsConcat(view: View, a: seq<Candidate>, b: seq<Candidate>)
    ensures Hits(view, a + b) == Hits(view, a) + Hits(view, b)
  {
    if b == [] {
      assert a + b == a;
    } else {
      HitsConcat(view, a, b[..|b| - 1]);
      assert (a + b)[..|a + b| - 1] == a + b[..|b| - 1];
    }
  }

  lemma AnswerConcat(view: View, a: seq<Candidate>, b: seq<Candidate>)
    ensures Answer(view, a + b) == Answer(view, a) + Answer(view, b)
  {
    ScopeFilterConcat(view, a, b);
    HitsConcat(view, ScopeFilter(view, a), ScopeFilter(view, b));
  }

  lemma {:induction false} HitsNoLonger(view: View, cs: seq<Candidate>)
    ensures |Hits(view, cs)| <= |cs|
  {
    if cs != [] { HitsNoLonger(view, cs[..|cs| - 1]); }
  }

  /** A hit is an object of the fixed basis, in scope and matching. */
  ghost predicate Legitimate(view: View, hit: Hit)
  {
    exists c: Candidate :: InScope(view, c) && view.content(c.objectId) == Some(hit.value) && Matches(view, hit.value)
  }

  ghost predicate AllLegitimate(view: View, hits: seq<Hit>)
  {
    forall hit :: hit in hits ==> Legitimate(view, hit)
  }

  lemma {:induction false} HitsLegitimate(view: View, cs: seq<Candidate>)
    requires forall c :: c in cs ==> InScope(view, c)
    ensures AllLegitimate(view, Hits(view, cs))
  {
    if cs != [] {
      HitsLegitimate(view, cs[..|cs| - 1]);
      var c := cs[|cs| - 1];
      assert c in cs;
      assert view.content(c.objectId).Some? && Matches(view, view.content(c.objectId).value) ==>
        Legitimate(view, Hit(view.content(c.objectId).value, c.evidence));
    }
  }

  lemma {:induction false} ScopeFilterMeans(view: View, cs: seq<Candidate>)
    ensures forall c :: c in ScopeFilter(view, cs) <==> c in cs && InScope(view, c)
  {
    if cs != [] {
      ScopeFilterMeans(view, cs[..|cs| - 1]);
      assert cs == cs[..|cs| - 1] + [cs[|cs| - 1]];
    }
  }

  /** The candidate stands for the hit. */
  predicate Yields(view: View, c: Candidate, hit: Hit)
  {
    view.content(c.objectId) == Some(hit.value) && Matches(view, hit.value) && c.evidence == hit.evidence
  }

  ghost predicate SomeYields(view: View, cs: seq<Candidate>, hit: Hit)
  {
    exists c :: c in cs && Yields(view, c, hit)
  }

  lemma {:induction false} HitsMean(view: View, cs: seq<Candidate>)
    ensures forall hit :: hit in Hits(view, cs) <==> SomeYields(view, cs, hit)
  {
    if cs != [] {
      var front, last := cs[..|cs| - 1], cs[|cs| - 1];
      HitsMean(view, front);
      assert cs == front + [last];
      forall hit ensures SomeYields(view, cs, hit) <==> SomeYields(view, front, hit) || Yields(view, last, hit) {}
    }
  }

  // ------------------------------------------------------------------------------- the code

  /** The result a search fills in as it goes. */
  class SearchResult {
    var hits: seq<Hit>
    var partial: bool
    var candidates: nat
    var dropped: nat
    var continuation: Option<Token>

    constructor ()
      ensures hits == [] && !partial && continuation == None
    {
      hits, partial, candidates, dropped, continuation := [], false, 0, 0, None;
    }
  }

  /** `filterCandidateScope`. */
  method FilterCandidateScope(view: View, page: seq<Candidate>) returns (r: Result<seq<Candidate>>)
    ensures r.Success? <==> forall k :: 0 <= k < |page| ==> ScopeFine(view, page[k])
    ensures r.Success? ==> r.value == ScopeFilter(view, page)
    ensures r.Success? ==> forall c :: c in r.value ==> InScope(view, c) && c in page
    ensures r.Success? && view.scope.Some? ==> forall c :: c in page ==> OnBasis(view, c)
    ensures r.Success? && view.scope.None? ==> r.value == page
  {
    if view.scope.None? {
      Unscoped(view, page);
      return Success(page);
    }
    var filtered: seq<Candidate> := [];
    for i := 0 to |page|
      invariant filtered == ScopeFilter(view, page[..i])
      invariant forall c :: c in filtered ==> InScope(view, c) && c in page
      invariant forall k :: 0 <= k < i ==> ScopeFine(view, page[k])
    {
      var c := page[i];
      assert page[..i + 1][..i] == page[..i];
      if !OnBasis(view, c) {
        assert !ScopeFine(view, page[i]);
        return Failure(PreconditionFailed);
      }
      var allowed := view.scope.value(c.objectId);
      if allowed.Failure? {
        assert !ScopeFine(view, page[i]);
        return Failure(allowed.error);
      }
      if allowed.value {
        filtered := filtered + [c];
      }
    }
    assert page[..|page|] == page;
    return Success(filtered);
  }

  lemma {:induction false} Unscoped(view: View, cs: seq<Candidate>)
    requires view.scope.None?
    ensures ScopeFilter(view, cs) == cs
  {
    if cs != [] { Unscoped(view, cs[..|cs| - 1]); }
  }

  /** `appendCandidatePage`: on failure some hits of the page may already be in the result. */
  method AppendCandidatePage(view: View, page: seq<Candidate>, limit: nat, readError: Option<ErrorCode>, result: SearchResult)
    returns (failure: Option<ErrorCode>)
    requires |result.hits| + |page| <= limit
    modifies result`hits, result`dropped
    ensures old(result.hits) <= result.hits
    ensures failure.None? ==> result.hits == old(result.hits) + Hits(view, page)
    ensures failure.None? <==> readError.None? && forall k :: 0 <= k < |page| ==> OnBasis(view, page[k]) && Judged(view, page[k])
  {
    for i := 0 to |page|
      invariant forall k :: 0 <= k < i ==> OnBasis(view, page[k])
    {
      if !OnBasis(view, page[i]) {
        return Some(PreconditionFailed);
      }
    }
    if readError.Some? {
      return readError;
    }
    var i := 0;
    ghost var found: seq<Hit> := [];
    while i < |page|
      invariant 0 <= i <= |page|
      invariant result.hits == old(result.hits) + found && found == Hits(view, page[..i])
      invariant forall k :: 0 <= k < i ==> Judged(view, page[k])
      invariant |result.hits| + |page| - i <= limit
    {
      var c := page[i];
      HitsNext(view, page, i);
      var value := view.content(c.objectId);
      if value.None? {
        assert !Judged(view, page[i]);
        return Some(PreconditionFailed);
      }
      var keep := true;
      if view.residual.Some? {
        var matched := view.residual.value(value.value);
        if matched.Failure? {
          assert !Judged(view, page[i]);
          return Some(matched.error);
        }
        keep := matched.value;
      }
      i := i + 1;
      if keep {
        result.hits := result.hits + [Hit(value.value, c.evidence)];
        found := found + [Hit(value.value, c.evidence)];
        if |result.hits| >= limit {
          break;
        }
      } else {
        result.dropped := result.dropped + 1;
      }
    }
    assert page[..i] == page;
    return None;
  }

  lemma HitsNext(view: View, page: seq<Candidate>, i: nat)
    requires i < |page|
    ensures Hits(view, page[..i + 1]) == Hits(view, page[..i]) +
      if view.content(page[i].objectId).Some? && Matches(view, view.content(page[i].objectId).value)
      then [Hit(view.content(page[i].objectId).value, page[i].evidence)] else []
  {
    assert page[..i + 1][..i] == page[..i];
  }

  /** The page continues the stream where the request stood. */
  ghost predicate Cut(stream: seq<Candidate>, at: string -> nat, token: string, limit: nat, page: Page)
  {
    && at(token) + |page.candidates| <= |stream|
    && page.candidates == stream[at(token)..at(token) + |page.candidates|]
    && (page.continuation != "" ==> at(page.continuation) == at(token) + |page.candidates|)
    && (page.exhausted ==> at(token) + |page.candidates| == |stream|)
  }

  /** Every page the provider ever serves is a cut of the stream. */
  ghost predicate Honest(stream: seq<Candidate>, at: string -> nat, provider: Provider)
  {
    && at("") == 0
    && (forall token :: at(token) <= |stream|)
    && forall n: nat, token, limit: nat :: provider(n, token, limit).Success? ==>
         Cut(stream, at, token, limit, provider(n, token, limit).value)
  }

  /** The hits answer the stream from `from`, up to the continuation or to its end. */
  ghost predicate Answers(view: View, stream: seq<Candidate>, at: string -> nat, from: string, hits: seq<Hit>, next: Option<string>)
  {
    && at(from) <= |stream|
    && var to := if next.Some? then at(next.value) else |stream|;
       at(from) <= to <= |stream| && hits == Answer(view, stream[at(from)..to])
  }

  /** What the loop keeps: against an honest provider the hits so far answer the stream. */
  ghost predicate Stands(view: View, stream: seq<Candidate>, at: string -> nat, provider: Provider, from: string, hits: seq<Hit>, next: Option<string>)
  {
    Honest(stream, at, provider) ==> Answers(view, stream, at, from, hits, next)
  }

  lemma AnswersFurther(view: View, stream: seq<Candidate>, at: string -> nat, from: nat, mid: nat, to: nat)
    requires from <= mid <= to <= |stream|
    ensures Answer(view, stream[from..to]) == Answer(view, stream[from..mid]) + Answer(view, stream[mid..to])
  {
    assert stream[from..to] == stream[from..mid] + stream[mid..to];
    AnswerConcat(view, stream[from..mid], stream[mid..to]);
  }

  /** A token is only good for what it was issued for: a search's for the same query, view, projection
  and scope, a relation lookup's for the same query, repository, basis and generation. */
  predicate Bound(token: Token, binding: Token)
  {
    token == binding.(position := token.position)
  }

  predicate IssuedFor(token: Token, query: string, view: string, projection: string)
  {
    token.query == query && token.view == view && token.projection == projection
  }

  function Position(token: Option<Token>): string
  {
    if token.Some? then token.value.position else ""
  }

  function Next(token: Option<Token>): Option<string>
  {
    if token.Some? then Some(token.value.position) else None
  }

  predicate Advances(token: string, page: Page)
  {
    page.exhausted || (page.continuation != "" && page.continuation != token)
  }

  /** Nothing goes wrong: the provider answers well-formed pages of judgeable candidates, and no
  turn is interrupted, canceled or unreadable.  Budget stops may still happen. */
  ghost predicate Smooth(view: View, provider: Provider, turns: nat -> Turn)
  {
    && (forall n: nat, token, limit: nat :: PageFine(view, token, limit, provider(n, token, limit)))
    && forall n :: TurnFine(turns(n))
  }

  predicate TurnFine(t: Turn)
  {
    !t.reserve.Interrupted? && !t.afterRetrieve.Canceled? && t.readError.None? && !t.afterRead.Canceled?
  }

  /** Every candidate is of the fixed commit, and names no other repository. */
  ghost predicate AllOfBasis(view: View, cs: seq<Candidate>)
  {
    forall c :: c in cs ==> c.basis == view.commit && c.repository in {"", view.repository}
  }

  /** The candidates are of the basis, the scope knows their objects, and the residual can judge them. */
  ghost predicate CandidatesFine(view: View, cs: seq<Candidate>)
  {
    && AllOfBasis(view, cs)
    && forall c :: c in cs ==>
         && (view.scope.Some? ==> view.scope.value(c.objectId).Success?)
         && view.content(c.objectId).Some?
         && (view.residual.Some? ==> view.residual.value(view.content(c.objectId).value).Success?)
  }

  ghost predicate PageFine(view: View, token: string, limit: nat, served: Result<Page>)
  {
    && served.Success? && |served.value.candidates| <= limit && Advances(token, served.value)
    && CandidatesFine(view, served.value.candidates)
  }

  // ------------------------------------------------------------------- turn by turn, as data

  /** Where a search stands between two turns. */
  datatype Spot = Spot(token: string, hits: seq<Hit>, exhausted: bool)

  /** The budget ends the turn. */
  predicate Stops(t: Turn)
  {
    t.reserve.Exhausted? || t.afterRetrieve.Expired? || t.afterRead.Expired?
  }

  /** There is nothing left to page for. */
  predicate Done(spot: Spot, limit: nat)
  {
    spot.exhausted || |spot.hits| >= limit
  }

  /** How many candidates the turn asks for: what is missing, or less if less was granted. */
  function Asked(t: Turn, missing: nat): nat
    requires t.reserve.Grant?
  {
    if t.reserve.reserved < missing then t.reserve.reserved else missing
  }

  /** What the provider serves in the turn. */
  function Served(provider: Provider, n: nat, t: Turn, spot: Spot, limit: nat): Result<Page>
    requires t.reserve.Grant? && |spot.hits| < limit
  {
    provider(n, spot.token, Asked(t, limit - |spot.hits|))
  }

  /** Turn n runs to its end: the page it is served joins the answer, and the search moves on to
  where that page ends. */
  ghost predicate Completes(view: View, provider: Provider, n: nat, t: Turn, limit: nat, before: Spot, after: Spot)
  {
    && !Done(before, limit) && !Stops(t) && t.reserve.Grant?
    && var served := Served(provider, n, t, before, limit);
       && served.Success? && AllOfBasis(view, served.value.candidates)
       && after == Spot(served.value.continuation, before.hits + Answer(view, served.value.candidates), served.value.exhausted)
  }

  /** Nothing goes wrong in the turn. */
  ghost predicate Undisturbed(view: View, provider: Provider, n: nat, t: Turn, limit: nat, spot: Spot)
  {
    && TurnFine(t)
    && (t.reserve.Grant? && |spot.hits| < limit ==>
          PageFine(view, spot.token, Asked(t, limit - |spot.hits|), Served(provider, n, t, spot, limit)))
  }

  /** The spots of a search, from its start over every turn that ran to its end. */
  ghost predicate Traced(view: View, provider: Provider, turns: nat -> Turn, limit: nat, from: string, trace: seq<Spot>)
  {
    && |trace| > 0 && trace[0] == Spot(from, [], false)
    && forall n :: 0 <= n < |trace| - 1 ==> CompletesAt(view, provider, turns, limit, trace, n)
  }

  ghost predicate CompletesAt(view: View, provider: Provider, turns: nat -> Turn, limit: nat, trace: seq<Spot>, n: nat)
    requires n + 1 < |trace|
  {
    Completes(view, provider, n, turns(n), limit, trace[n], trace[n + 1])
  }

  /** The search has come to its end with the last spot, by the budget or because it is done. */
  ghost predicate Concludes(turns: nat -> Turn, pages: nat, limit: nat, trace: seq<Spot>, budgetStopped: bool)
    requires |trace| > 0
  {
    && (budgetStopped <==> !Done(trace[|trace| - 1], limit))
    && (budgetStopped ==> |trace| - 1 == pages || Stops(turns(|trace| - 1)))
  }

  lemma TraceStarts(view: View, provider: Provider, turns: nat -> Turn, limit: nat, from: string)
    ensures Traced(view, provider, turns, limit, from, [Spot(from, [], false)])
  {}

  lemma TraceNext(view: View, provider: Provider, turns: nat -> Turn, limit: nat, from: string, trace: seq<Spot>, spot: Spot)
    requires Traced(view, provider, turns, limit, from, trace)
    requires Completes(view, provider, |trace| - 1, turns(|trace| - 1), limit, trace[|trace| - 1], spot)
    ensures Traced(view, provider, turns, limit, from, trace + [spot])
  {
    var longer := trace + [spot];
    forall n | 0 <= n < |longer| - 1 ensures CompletesAt(view, provider, turns, limit, longer, n) {
      assert n < |trace| - 1 ==> CompletesAt(view, provider, turns, limit, trace, n);
    }
  }

  /** Provider and turns decide how a search goes: two of its traces agree as far as both go. */
  lemma {:induction false} TracesAgree(view: View, provider: Provider, turns: nat -> Turn, limit: nat, from: string,
                                       a: seq<Spot>, b: seq<Spot>, n: nat)
    requires Traced(view, provider, turns, limit, from, a) && Traced(view, provider, turns, limit, from, b)
    requires n < |a| && n < |b|
    ensures a[n] == b[n]
  {
    if n > 0 {
      TracesAgree(view, provider, turns, limit, from, a, b, n - 1);
      assert CompletesAt(view, provider, turns, limit, a, n - 1) && CompletesAt(view, provider, turns, limit, b, n - 1);
    }
  }

  lemma NoLonger(view: View, provider: Provider, turns: nat -> Turn, pages: nat, limit: nat, from: string, a: seq<Spot>, stoppedA: bool, b: seq<Spot>)
    requires Traced(view, provider, turns, limit, from, a) && Traced(view, provider, turns, limit, from, b)
    requires Concludes(turns, pages, limit, a, stoppedA) && |b| - 1 <= pages
    ensures |b| <= |a|
  {
    if |a| < |b| {
      TracesAgree(view, provider, turns, limit, from, a, b, |a| - 1);
      GoesOn(view, provider, turns, limit, from, b, |a| - 1);
    }
  }

  lemma GoesOn(view: View, provider: Provider, turns: nat -> Turn, limit: nat, from: string, trace: seq<Spot>, n: nat)
    requires Traced(view, provider, turns, limit, from, trace) && n + 1 < |trace|
    ensures !Done(trace[n], limit) && !Stops(turns(n))
  {
    assert CompletesAt(view, provider, turns, limit, trace, n);
  }

  /** A conclusion is no matter of choice: a search that concludes does so in one way only. */
  lemma ConclusionIsUnique(view: View, provider: Provider, turns: nat -> Turn, pages: nat, limit: nat, from: string,
                           a: seq<Spot>, stoppedA: bool, b: seq<Spot>, stoppedB: bool)
    requires Traced(view, provider, turns, limit, from, a) && Traced(view, provider, turns, limit, from, b)
    requires Concludes(turns, pages, limit, a, stoppedA) && Concludes(turns, pages, limit, b, stoppedB)
    requires |a| - 1 <= pages && |b| - 1 <= pages
    ensures a == b && stoppedA == stoppedB
  {
    NoLonger(view, provider, turns, pages, limit, from, a, stoppedA, b);
    NoLonger(view, provider, turns, pages, limit, from, b, stoppedB, a);
    forall n | 0 <= n < |a| && n < |b| ensures a[n] == b[n] {
      TracesAgree(view, provider, turns, limit, from, a, b, n);
    }
  }

  /** The provider's part of one turn: ask, and check what it serves and the time. */
  method Retrieve(view: View, provider: Provider, n: nat, t: Turn, token: string, wanted: nat)
    returns (failure: Option<ErrorCode>, expired: bool, page: Page)
    requires t.reserve.Grant?
    ensures expired ==> failure.None? && t.afterRetrieve.Expired?
    ensures failure.None? && !expired ==> t.afterRetrieve.Running? && Advances(token, page) && |page.candidates| <= Asked(t, wanted)
    ensures failure.None? && !expired ==> provider(n, token, Asked(t, wanted)) == Success(page)
    ensures failure.Some? ==> !TurnFine(t) || !PageFine(view, token, Asked(t, wanted), provider(n, token, Asked(t, wanted)))
    ensures failure.Some? && provider(n, token, Asked(t, wanted)).Success? && !t.afterRetrieve.Canceled? ==> failure.value == PreconditionFailed
    ensures failure.Some? && provider(n, token, Asked(t, wanted)).Failure? && !t.afterRetrieve.Canceled? ==>
      failure.value == provider(n, token, Asked(t, wanted)).error
  {
    failure, expired, page := None, false, Page([], "", true);
    var reserved := if t.reserve.reserved > wanted then wanted else t.reserve.reserved;
    var served := provider(n, token, reserved);
    if served.Failure? {
      if t.afterRetrieve.Expired? {
        return None, true, page;
      }
      return Some(if t.afterRetrieve.Canceled? then t.afterRetrieve.error else served.error), false, page;
    }
    page := served.value;
    if |page.candidates| > reserved {
      return Some(PreconditionFailed), false, page;
    }
    if t.afterRetrieve.Expired? {
      return None, true, page;
    }
    if t.afterRetrieve.Canceled? {
      return Some(t.afterRetrieve.error), false, page;
    }
    if !page.exhausted && (page.continuation == "" || page.continuation == token) {
      return Some(PreconditionFailed), false, page;
    }
  }

  lemma FinePage(view: View, cs: seq<Candidate>)
    requires CandidatesFine(view, cs)
    ensures forall k :: 0 <= k < |cs| ==> ScopeFine(view, cs[k])
    ensures var scoped := ScopeFilter(view, cs); forall k :: 0 <= k < |scoped| ==> OnBasis(view, scoped[k]) && Judged(view, scoped[k])
  {
    var scoped := ScopeFilter(view, cs);
    ScopeFilterMeans(view, cs);
    forall k | 0 <= k < |scoped| ensures OnBasis(view, scoped[k]) && Judged(view, scoped[k]) {
      assert scoped[k] in cs;
    }
  }

  /** Without a scope every candidate is read, with one every candidate's basis is checked first. */
  lemma ReadIsOfBasis(view: View, cs: seq<Candidate>, scoped: seq<Candidate>)
    requires view.scope.None? ==> scoped == cs
    requires view.scope.Some? ==> forall c :: c in cs ==> OnBasis(view, c)
    ensures (forall k :: 0 <= k < |scoped| ==> OnBasis(view, scoped[k])) ==> AllOfBasis(view, cs)
  {
    if forall k :: 0 <= k < |scoped| ==> OnBasis(view, scoped[k]) {
      forall c | c in cs ensures OnBasis(view, c) {
        assert view.scope.None? ==> exists k :: 0 <= k < |scoped| && scoped[k] == c;
      }
    }
  }

  /** The rest of the turn: the page's hits join the result, unless time runs out meanwhile. */
  method TakePage(view: View, page: Page, limit: nat, t: Turn, result: SearchResult) returns (failure: Option<ErrorCode>, expired: bool)
    requires |result.hits| + |page.candidates| <= limit
    modifies result`hits, result`candidates, result`dropped
    ensures failure.None? && !expired ==> result.hits == old(result.hits) + Answer(view, page.candidates) && t.afterRead.Running?
    ensures failure.None? && !expired ==> AllOfBasis(view, page.candidates)
    ensures expired ==> failure.None? && result.hits == old(result.hits) && t.afterRead.Expired?
    ensures failure.Some? ==> !TurnFine(t) || !CandidatesFine(view, page.candidates)
  {
    result.candidates := result.candidates + |page.candidates|;
    var hitsBeforePage := |result.hits|;
    ghost var hitsBefore := result.hits;
    if CandidatesFine(view, page.candidates) {
      FinePage(view, page.candidates);
    }
    var scoped := FilterCandidateScope(view, page.candidates);
    if scoped.Failure? {
      return Some(scoped.error), false;
    }
    ReadIsOfBasis(view, page.candidates, scoped.value);
    ScopeFilterShorter(view, page.candidates);
    failure := AppendCandidatePage(view, scoped.value, limit, t.readError, result);
    if failure.Some? {
      if t.afterRead.Expired? {
        result.hits := result.hits[..hitsBeforePage];
        assert result.hits == hitsBefore;
        return None, true;
      }
      return Some(if t.afterRead.Canceled? then t.afterRead.error else failure.value), false;
    }
    if t.afterRead.Expired? {
      result.hits := result.hits[..hitsBeforePage];
      assert result.hits == hitsBefore;
      return None, true;
    }
    if t.afterRead.Canceled? {
      return Some(t.afterRead.error), false;
    }
    return None, false;
  }

  /** The paging loop of `searchEngineAtContext`.  `turns` and `provider` are arbitrary; `pages`
  bounds the turns as the page budget does.  A budget stop leaves the hits as they were before
  the page it interrupts. */
  method SearchPages(view: View, from: string, limit: nat, provider: Provider, turns: nat -> Turn, pages: nat,
                     result: SearchResult, ghost stream: seq<Candidate>, ghost at: string -> nat)
    returns (failure: Option<ErrorCode>, budgetStopped: bool, nextContinuation: string, ghost trace: seq<Spot>)
    requires limit >= 1 && result.hits == []
    modifies result`hits, result`candidates, result`dropped
    ensures Traced(view, provider, turns, limit, from, trace) && |trace| - 1 <= pages
    ensures failure.None? ==> Concludes(turns, pages, limit, trace, budgetStopped)
    ensures failure.None? ==> result.hits == trace[|trace| - 1].hits && nextContinuation == trace[|trace| - 1].token
    ensures failure.Some? ==> !Undisturbed(view, provider, |trace| - 1, turns(|trace| - 1), limit, trace[|trace| - 1])
    ensures failure.None? ==> |result.hits| <= limit && AllLegitimate(view, result.hits)
    ensures failure.None? ==> Stands(view, stream, at, provider, from, result.hits,
      if budgetStopped || (|result.hits| >= limit && nextContinuation != "") then Some(nextContinuation) else None)
    ensures failure.None? && budgetStopped ==> |result.hits| < limit
    ensures Smooth(view, provider, turns) ==> failure.None?
  {
    trace := [Spot(from, [], false)];
    failure, budgetStopped, nextContinuation := None, false, from;
    var turn := 0;
    Begins(view, stream, at, provider, from);
    TraceStarts(view, provider, turns, limit, from);
    while true
      invariant turn <= pages && |trace| == turn + 1 && |result.hits| < limit
      invariant Traced(view, provider, turns, limit, from, trace) && trace[turn] == Spot(nextContinuation, result.hits, false)
      invariant InStep(view, stream, at, provider, from, result.hits, nextContinuation)
      decreases pages - turn
    {
      var t := turns(turn);
      ghost var before := trace[turn];
      if turn == pages || t.reserve.Exhausted? {
        return None, true, nextContinuation, trace;
      }
      SmoothTurn(view, provider, turns, turn, limit, before);
      if t.reserve.Interrupted? {
        return Some(t.reserve.error), false, nextContinuation, trace;
      }
      var expired, page;
      failure, expired, page := Retrieve(view, provider, turn, t, nextContinuation, limit - |result.hits|);
      if failure.Some? {
        return failure, false, nextContinuation, trace;
      }
      if expired {
        return None, true, nextContinuation, trace;
      }
      failure, expired := TakePage(view, page, limit, t, result);
      if failure.Some? {
        return failure, false, nextContinuation, trace;
      }
      if expired {
        return None, true, nextContinuation, trace;
      }
      ghost var spot := Spot(page.continuation, result.hits, page.exhausted);
      TraceNext(view, provider, turns, limit, from, trace, spot);
      PageExtends(view, stream, at, provider, turn, Asked(t, limit - |before.hits|), from, nextContinuation, before.hits, page);
      AnswerNoLonger(view, page.candidates);
      trace := trace + [spot];
      turn, nextContinuation := turn + 1, page.continuation;
      if page.exhausted || page.continuation == "" || |result.hits| >= limit {
        return None, false, nextContinuation, trace;
      }
    }
  }

  /** `searchEngineAtContext` after planning: decode the continuation, page, encode the next one. */
  method Search(view: View, binding: Token, request: Option<Token>, limit: nat, provider: Provider,
                turns: nat -> Turn, pages: nat, ghost stream: seq<Candidate>, ghost at: string -> nat)
    returns (r: Result<SearchResult>, ghost trace: seq<Spot>)
    requires limit >= 1
    ensures r.Success? ==> Traced(view, provider, turns, limit, Position(request), trace) && |trace| - 1 <= pages
    ensures r.Success? ==> Concludes(turns, pages, limit, trace, r.value.partial) && r.value.hits == trace[|trace| - 1].hits
    ensures r.Success? ==>
      var last := trace[|trace| - 1];
      Next(r.value.continuation) ==
        if r.value.partial || (|last.hits| >= limit && last.token != "") then Some(last.token) else None
    ensures r.Failure? && (request.Some? ==> IssuedFor(request.value, binding.query, binding.view, binding.projection)) ==>
      && Traced(view, provider, turns, limit, Position(request), trace)
      && !Undisturbed(view, provider, |trace| - 1, turns(|trace| - 1), limit, trace[|trace| - 1])
    ensures r.Success? ==> fresh(r.value) && |r.value.hits| <= limit && AllLegitimate(view, r.value.hits)
    ensures r.Success? && request.Some? ==> IssuedFor(request.value, binding.query, binding.view, binding.projection)
    ensures r.Success? && r.value.continuation.Some? ==>
      IssuedFor(r.value.continuation.value, binding.query, binding.view, binding.projection)
    ensures r.Success? && r.value.partial ==> r.value.continuation.Some?
    ensures r.Success? && r.value.continuation.Some? ==> (r.value.partial <==> |r.value.hits| < limit)
    ensures request.Some? && !IssuedFor(request.value, binding.query, binding.view, binding.projection) ==> r == Failure(PreconditionFailed)
    ensures (request.Some? ==> IssuedFor(request.value, binding.query, binding.view, binding.projection)) && Smooth(view, provider, turns) ==>
      r.Success?
    ensures r.Success? ==>
      Stands(view, stream, at, provider, Position(request), r.value.hits, Next(r.value.continuation))
  {
    trace := [];
    if request.Some? && !Bound(request.value, binding) {
      return Failure(PreconditionFailed), trace;
    }
    var result := new SearchResult();
    var failure, budgetStopped, nextContinuation;
    failure, budgetStopped, nextContinuation, trace :=
      SearchPages(view, Position(request), limit, provider, turns, pages, result, stream, at);
    if failure.Some? {
      return Failure(failure.value), trace;
    }
    result.partial := budgetStopped;
    if budgetStopped || (|result.hits| >= limit && nextContinuation != "") {
      result.continuation := Some(binding.(position := nextContinuation));
    }
    return Success(result), trace;
  }

  lemma SmoothTurn(view: View, provider: Provider, turns: nat -> Turn, n: nat, limit: nat, spot: Spot)
    ensures Smooth(view, provider, turns) ==> Undisturbed(view, provider, n, turns(n), limit, spot)
  {
    var t := turns(n);
    if Smooth(view, provider, turns) && t.reserve.Grant? && |spot.hits| < limit {
      var asked := Asked(t, limit - |spot.hits|);
      assert PageFine(view, spot.token, asked, provider(n, spot.token, asked));
    }
  }

  /** What the loop keeps between two turns. */
  ghost predicate InStep(view: View, stream: seq<Candidate>, at: string -> nat, provider: Provider, from: string, hits: seq<Hit>, token: string)
  {
    AllLegitimate(view, hits) && Stands(view, stream, at, provider, from, hits, Some(token))
  }

  lemma Begins(view: View, stream: seq<Candidate>, at: string -> nat, provider: Provider, from: string)
    ensures InStep(view, stream, at, provider, from, [], from)
  {
    if Honest(stream, at, provider) {
      assert stream[at(from)..at(from)] == [];
    }
  }

  lemma {:induction false} ScopeFilterShorter(view: View, cs: seq<Candidate>)
    ensures |ScopeFilter(view, cs)| <= |cs|
  {
    if cs != [] { ScopeFilterShorter(view, cs[..|cs| - 1]); }
  }

  /** One page further along the stream. */
  lemma PageExtends(view: View, stream: seq<Candidate>, at: string -> nat, provider: Provider, turn: nat, reserved: nat,
                    from: string, continuation: string, hits: seq<Hit>, page: Page)
    requires provider(turn, continuation, reserved) == Success(page)
    requires InStep(view, stream, at, provider, from, hits, continuation)
    ensures AllLegitimate(view, hits + Answer(view, page.candidates))
    ensures page.continuation != "" ==> InStep(view, stream, at, provider, from, hits + Answer(view, page.candidates), page.continuation)
    ensures page.exhausted ==> Stands(view, stream, at, provider, from, hits + Answer(view, page.candidates), None)
  {
    PageStands(view, stream, at, provider, turn, reserved, from, continuation, hits, page);
    ScopeFilterMeans(view, page.candidates);
    HitsLegitimate(view, ScopeFilter(view, page.candidates));
  }

  lemma PageStands(view: View, stream: seq<Candidate>, at: string -> nat, provider: Provider, turn: nat, reserved: nat,
                   from: string, continuation: string, hits: seq<Hit>, page: Page)
    requires provider(turn, continuation, reserved) == Success(page)
    requires Stands(view, stream, at, provider, from, hits, Some(continuation))
    ensures page.continuation != "" ==>
      Stands(view, stream, at, provider, from, hits + Answer(view, page.candidates), Some(page.continuation))
    ensures page.exhausted ==> Stands(view, stream, at, provider, from, hits + Answer(view, page.candidates), None)
  {
    if Honest(stream, at, provider) {
      assert Cut(stream, at, continuation, reserved, page);
      AnswersFurther(view, stream, at, at(from), at(continuation), at(continuation) + |page.candidates|);
    }
  }

  // --------------------------------------------------------------------- following continuations

  /** One finished search: where it started, what it found, where it says to go on. */
  datatype Call = Call(from: string, hits: seq<Hit>, next: Option<string>)

  function Collected(calls: seq<Call>): seq<Hit>
  {
    if calls == [] then [] else Collected(calls[..|calls| - 1]) + calls[|calls| - 1].hits
  }

  /** A fresh request, then each request with the continuation of the one before. */
  ghost predicate Followed(calls: seq<Call>)
  {
    && |calls| > 0
    && calls[0].from == ""
    && forall i :: 0 < i < |calls| ==> calls[i - 1].next == Some(calls[i].from)
  }

  ghost predicate EachAnswers(view: View, stream: seq<Candidate>, at: string -> nat, calls: seq<Call>)
  {
    forall call :: call in calls ==> Answers(view, stream, at, call.from, call.hits, call.next)
  }

  /** Whatever the limits, page cuts and budget stops of the single requests were: the hits
  collected so far are the answer over the stream up to the last continuation, and over the
  whole stream once there is none. */
  lemma {:induction false} ContinuedSearchIsComplete(view: View, stream: seq<Candidate>, at: string -> nat, calls: seq<Call>)
    requires at("") == 0 && Followed(calls) && EachAnswers(view, stream, at, calls)
    ensures calls[|calls| - 1].next.Some? ==>
      at(calls[|calls| - 1].next.value) <= |stream| &&
      Collected(calls) == Answer(view, stream[..at(calls[|calls| - 1].next.value)])
    ensures calls[|calls| - 1].next.None? ==> Collected(calls) == Answer(view, stream)
  {
    var last := calls[|calls| - 1];
    var to := if last.next.Some? then at(last.next.value) else |stream|;
    assert Answers(view, stream, at, last.from, last.hits, last.next);
    if |calls| == 1 {
      assert Collected(calls) == last.hits;
    } else {
      var before := calls[..|calls| - 1];
      ContinuedSearchIsComplete(view, stream, at, before);
      assert before[|before| - 1].next == Some(last.from);
      AnswersFurther(view, stream, at, 0, at(last.from), to);
      assert stream[0..at(last.from)] == stream[..at(last.from)];
    }
    assert stream[0..to] == stream[..to];
    assert to == |stream| ==> stream[..to] == stream;
  }

  /** A search that no budget stops and that names a continuation has filled its limit. */
  lemma UnstoppedIsFull(turns: nat -> Turn, pages: nat, limit: nat, trace: seq<Spot>, next: Option<string>)
    requires limit >= 1 && |trace| > 0 && Concludes(turns, pages, limit, trace, false)
    requires next == if |trace[|trace| - 1].hits| >= limit && trace[|trace| - 1].token != "" then Some(trace[|trace| - 1].token) else None
    ensures next.Some? ==> trace[|trace| - 1].hits != []
    ensures next.None? && |trace[|trace| - 1].hits| < limit ==> trace[|trace| - 1].exhausted
  {}

  lemma {:induction false} CollectsOneEach(calls: seq<Call>)
    requires forall call :: call in calls ==> call.hits != []
    ensures |Collected(calls)| >= |calls|
  {
    if calls != [] { CollectsOneEach(calls[..|calls| - 1]); }
  }

  lemma AnswerNoLonger(view: View, cs: seq<Candidate>)
    ensures |Answer(view, cs)| <= |cs|
  {
    ScopeFilterShorter(view, cs);
    HitsNoLonger(view, ScopeFilter(view, cs));
  }

  /** Following continuations comes to an end: with at least one hit in every call before the last,
  as in calls that no budget stops, a chain over an honest provider's stream has no more calls
  than the stream has candidates, and one. */
  lemma ContinuedSearchEnds(view: View, stream: seq<Candidate>, at: string -> nat, calls: seq<Call>)
    requires at("") == 0 && Followed(calls) && EachAnswers(view, stream, at, calls)
    requires forall i :: 0 <= i < |calls| - 1 ==> calls[i].hits != []
    ensures |calls| <= |stream| + 1
  {
    var before := calls[..|calls| - 1];
    CollectsOneEach(before);
    if before != [] {
      ContinuedSearchIsComplete(view, stream, at, before);
      assert before[|before| - 1].next == Some(calls[|calls| - 1].from);
      AnswerNoLonger(view, stream[..at(before[|before| - 1].next.value)]);
    }
  }
}
