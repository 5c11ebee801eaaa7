/** One relation lookup and its continuation (index/relations.go, index/relation_continuation.go).

Each request answers every object once and in canonical order; across continuations the same
object may come back, so completeness is a statement about sets.  A continuation issued before
the first page of a fresh request holds no position, and the decoder refuses it. */
module Relations {
  import opened Kernel
  import opened Paging
  import Text

  datatype Ref = Ref(repository: string, objectId: string)

  datatype Endpoint = Endpoint(role: string, objectRef: Ref)

  datatype Relation = Relation(relationType: string, direction: string, endpoints: seq<Endpoint>)

  /** What the authority holds under an id: not a relation, one that does not decode, or a relation. */
  datatype Stored = Plain | Undecodable(error: ErrorCode) | Decoded(relation: Relation)

  datatype Query = Query(endpoint: Ref, relationType: string, role: string, direction: string)

  datatype RelationHit = RelationHit(objectId: ObjectId, roles: seq<string>, relation: Relation, evidence: string)

  datatype Source = Source(
    repository: string, commit: string,
    scope: Option<ObjectId -> Result<bool>>,
    content: ObjectId -> Option<Stored>)

  datatype RelationPage = RelationPage(hits: seq<RelationHit>, exhausted: bool, continuation: Option<Token>)

  /** `relationLimit`. */
  function RelationLimit(value: int): (r: Result<nat>)
    ensures r.Success? <==> 0 <= value <= 1000
    ensures r.Failure? ==> r.error == UsageInvalid
    ensures r.Success? ==> 1 <= r.value <= 1000
    ensures value == 0 ==> r == Success(100)
    ensures 0 < value <= 1000 ==> r == Success(value)
  {
    if value < 0 || value > 1000 then Failure(UsageInvalid)
    else if value == 0 then Success(100)
    else Success(value)
  }

  // -------------------------------------------------------------------- the canonical predicate

  predicate EndpointMatches(query: Query, e: Endpoint)
  {
    e.objectRef == query.endpoint && (query.role == "" || e.role == query.role)
  }

  function MatchedRoles(query: Query, endpoints: seq<Endpoint>): seq<string>
  {
    if endpoints == [] then []
    else
      MatchedRoles(query, endpoints[..|endpoints| - 1]) +
      if EndpointMatches(query, endpoints[|endpoints| - 1]) then [endpoints[|endpoints| - 1].role] else []
  }

  /** `relationHitAt`. */
  function RelationHitAt(query: Query, id: ObjectId, stored: Stored, evidence: string): Result<Option<RelationHit>>
  {
    match stored
    case Plain => Success(None)
    case Undecodable(error) => Failure(error)
    case Decoded(relation) =>
      if query.relationType != "" && relation.relationType != query.relationType then Success(None)
      else if query.direction != "" && relation.direction != query.direction then Success(None)
      else
        var roles := MatchedRoles(query, relation.endpoints);
        if roles == [] then Success(None)
        else Success(Some(RelationHit(id, Text.SortBy((role: string) => role, roles), relation, evidence)))
  }

  /** The query's endpoint takes part in the relation in this role, one the query allows. */
  ghost predicate TakesPart(query: Query, relation: Relation, role: string)
  {
    Endpoint(role, query.endpoint) in relation.endpoints && query.role in {"", role}
  }

  /** The relation the query asks for, said without the evaluation. */
  ghost predicate Wanted(query: Query, relation: Relation)
  {
    && query.relationType in {"", relation.relationType}
    && query.direction in {"", relation.direction}
    && exists role :: TakesPart(query, relation, role)
  }

  lemma {:induction false} MatchedRolesMean(query: Query, endpoints: seq<Endpoint>)
    ensures forall role :: role in MatchedRoles(query, endpoints) <==>
      exists e :: e in endpoints && e.role == role && EndpointMatches(query, e)
  {
    if endpoints != [] {
      var front, last := endpoints[..|endpoints| - 1], endpoints[|endpoints| - 1];
      MatchedRolesMean(query, front);
      assert endpoints == front + [last];
      forall role ensures role in MatchedRoles(query, endpoints) <==>
        exists e :: e in endpoints && e.role == role && EndpointMatches(query, e)
      {
        if exists e :: e in endpoints && e.role == role && EndpointMatches(query, e) {
          var e :| e in endpoints && e.role == role && EndpointMatches(query, e);
          assert e in front || e == last;
        }
      }
    }
  }

  /** A stored object is a hit exactly when it decodes to a wanted relation, and the hit names
  the roles in which the endpoint takes part. */
  lemma HitMeansWanted(query: Query, id: ObjectId, stored: Stored, evidence: string)
    ensures RelationHitAt(query, id, stored, evidence).Success? <==> !stored.Undecodable?
    ensures Matching(query, stored) <==> stored.Decoded? && Wanted(query, stored.relation)
    ensures Matching(query, stored) ==>
      var hit := RelationHitAt(query, id, stored, evidence).value.value;
      hit.objectId == id && hit.relation == stored.relation && hit.evidence == evidence &&
      forall role :: role in hit.roles <==> TakesPart(query, stored.relation, role)
  {
    if stored.Decoded? {
      var endpoints := stored.relation.endpoints;
      MatchedRolesMean(query, endpoints);
      forall role ensures role in MatchedRoles(query, endpoints) <==> TakesPart(query, stored.relation, role) {
        if TakesPart(query, stored.relation, role) {
          assert EndpointMatches(query, Endpoint(role, query.endpoint));
        }
      }
      if MatchedRoles(query, endpoints) != [] {
        assert MatchedRoles(query, endpoints)[0] in MatchedRoles(query, endpoints);
      }
    }
  }

  predicate Matching(query: Query, stored: Stored)
  {
    var r := RelationHitAt(query, "", stored, "");
    r.Success? && r.value.Some?
  }

  // -------------------------------------------------------------------------- answers as sets

  predicate Visible(source: Source, id: ObjectId)
  {
    source.scope.Some? ==> source.scope.value(id) == Success(true)
  }

  function VisibleIds(source: Source, cs: seq<Candidate>): set<ObjectId>
  {
    set c | c in cs && Visible(source, c.objectId) :: c.objectId
  }

  predicate Hit(source: Source, query: Query, id: ObjectId)
  {
    source.content(id).Some? && Matching(query, source.content(id).value)
  }

  /** The objects a lookup over these candidates has to answer. */
  function Relevant(source: Source, query: Query, cs: seq<Candidate>): set<ObjectId>
  {
    set id | id in VisibleIds(source, cs) && Hit(source, query, id)
  }

  lemma RelevantConcat(source: Source, query: Query, a: seq<Candidate>, b: seq<Candidate>)
    ensures VisibleIds(source, a + b) == VisibleIds(source, a) + VisibleIds(source, b)
    ensures Relevant(source, query, a + b) == Relevant(source, query, a) + Relevant(source, query, b)
  {
    forall c | c in a + b ensures c in a || c in b {}
    forall c | c in a || c in b ensures c in a + b {}
  }

  function HitIds(hits: seq<RelationHit>): set<ObjectId>
  {
    set h | h in hits :: h.objectId
  }

  function CandidateIds(cs: seq<Candidate>): set<ObjectId>
  {
    set c | c in cs :: c.objectId
  }

  function Key(): RelationHit -> string
  {
    (h: RelationHit) => h.objectId
  }

  /** A hit is a visible object of the fixed basis that is the wanted relation. */
  ghost predicate Genuine(source: Source, query: Query, h: RelationHit)
  {
    && Visible(source, h.objectId)
    && source.content(h.objectId).Some?
    && RelationHitAt(query, h.objectId, source.content(h.objectId).value, h.evidence) == Success(Some(h))
  }

  ghost predicate AllGenuine(source: Source, query: Query, hits: seq<RelationHit>)
  {
    forall h :: h in hits ==> Genuine(source, query, h)
  }

  // ------------------------------------------------------------------------------- the code

  /** The candidate is of the fixed basis, and the scope has an answer for it. */
  predicate Admissible(source: Source, c: Candidate)
  {
    && c.repository == source.repository && c.basis == source.commit
    && (source.scope.Some? ==> source.scope.value(c.objectId).Success?)
  }

  /** The object is in the authority, and decodes if it is a relation. */
  predicate Readable(source: Source, id: ObjectId)
  {
    source.content(id).Some? && !source.content(id).value.Undecodable?
  }

  /** Basis and scope of one page, and the first candidate of every id not seen in this request. */
  method Admit(source: Source, page: seq<Candidate>, before: set<ObjectId>)
    returns (failure: Option<ErrorCode>, admitted: seq<Candidate>, seen: set<ObjectId>)
    ensures failure.None? ==> |admitted| <= |page| && forall c :: c in admitted ==> c in page
    ensures failure.None? ==> seen == before + VisibleIds(source, page)
    ensures failure.None? ==> CandidateIds(admitted) == VisibleIds(source, page) - before
    ensures failure.None? ==> forall i, j :: 0 <= i < j < |admitted| ==> admitted[i].objectId != admitted[j].objectId
    ensures failure.None? <==> forall k :: 0 <= k < |page| ==> Admissible(source, page[k])
  {
    failure, admitted, seen := None, [], before;
    for i := 0 to |page|
      invariant |admitted| <= i && forall c :: c in admitted ==> c in page
      invariant seen == before + VisibleIds(source, page[..i])
      invariant CandidateIds(admitted) == VisibleIds(source, page[..i]) - before
      invariant forall k, j :: 0 <= k < j < |admitted| ==> admitted[k].objectId != admitted[j].objectId
      invariant failure.None? && forall k :: 0 <= k < i ==> Admissible(source, page[k])
    {
      var c := page[i];
      assert page[..i + 1] == page[..i] + [c];
      VisibleNext(source, page[..i], c);
      if c.repository != source.repository || c.basis != source.commit {
        assert !Admissible(source, page[i]);
        return Some(PreconditionFailed), [], {};
      }
      if source.scope.Some? {
        var allowed := source.scope.value(c.objectId);
        if allowed.Failure? {
          assert !Admissible(source, page[i]);
          return Some(allowed.error), [], {};
        }
        if !allowed.value {
          continue;
        }
      }
      if c.objectId in seen {
        continue;
      }
      seen := seen + {c.objectId};
      forall d | d in admitted ensures d.objectId != c.objectId {
        assert d.objectId in CandidateIds(admitted);
      }
      CandidateNext(admitted, c);
      admitted := admitted + [c];
    }
    assert page[..|page|] == page;
  }

  lemma VisibleNext(source: Source, cs: seq<Candidate>, c: Candidate)
    ensures VisibleIds(source, cs + [c]) == VisibleIds(source, cs) + if Visible(source, c.objectId) then {c.objectId} else {}
  {
    forall d | d in cs + [c] ensures d in cs || d == c {}
    assert c in cs + [c];
    forall d | d in cs ensures d in cs + [c] {}
  }

  lemma CandidateNext(cs: seq<Candidate>, c: Candidate)
    ensures CandidateIds(cs + [c]) == CandidateIds(cs) + {c.objectId}
  {
    forall d | d in cs + [c] ensures d in cs || d == c {}
    assert c in cs + [c];
    forall d | d in cs ensures d in cs + [c] {}
  }

  lemma HitNext(hits: seq<RelationHit>, h: RelationHit)
    ensures HitIds(hits + [h]) == HitIds(hits) + {h.objectId}
  {
    forall d | d in hits + [h] ensures d in hits || d == h {}
    assert h in hits + [h];
    forall d | d in hits ensures d in hits + [h] {}
  }

  function MatchingIds(source: Source, query: Query, cs: seq<Candidate>): set<ObjectId>
  {
    set id | id in CandidateIds(cs) && Hit(source, query, id)
  }

  lemma MatchingNext(source: Source, query: Query, cs: seq<Candidate>, c: Candidate)
    ensures MatchingIds(source, query, cs + [c]) ==
      MatchingIds(source, query, cs) + if Hit(source, query, c.objectId) then {c.objectId} else {}
  {
    CandidateNext(cs, c);
  }

  /** Complete objects are read at the fixed commit and checked against the query again. */
  method Recheck(source: Source, query: Query, admitted: seq<Candidate>, readError: Option<ErrorCode>, before: seq<RelationHit>)
    returns (failure: Option<ErrorCode>, hits: seq<RelationHit>)
    requires forall i, j :: 0 <= i < j < |admitted| ==> admitted[i].objectId != admitted[j].objectId
    requires forall c :: c in admitted ==> Visible(source, c.objectId)
    requires AllGenuine(source, query, before) && Text.DistinctKeys(Key(), before)
    requires HitIds(before) !! CandidateIds(admitted)
    ensures failure.None? ==> before <= hits && |hits| <= |before| + |admitted|
    ensures failure.None? ==> AllGenuine(source, query, hits) && Text.DistinctKeys(Key(), hits)
    ensures failure.None? ==> HitIds(hits) == HitIds(before) + MatchingIds(source, query, admitted)
    ensures failure.None? <==> (admitted == [] || readError.None?) && forall k :: 0 <= k < |admitted| ==> Readable(source, admitted[k].objectId)
  {
    failure, hits := None, before;
    if |admitted| > 0 && readError.Some? {
      return readError, hits;
    }
    for i := 0 to |admitted|
      invariant Rechecked(source, query, admitted[..i], before, hits)
      invariant failure.None? && forall k :: 0 <= k < i ==> Readable(source, admitted[k].objectId)
    {
      var c := admitted[i];
      assert admitted[..i + 1] == admitted[..i] + [c];
      var stored := source.content(c.objectId);
      if stored.None? {
        assert !Readable(source, admitted[i].objectId);
        return Some(PreconditionFailed), hits;
      }
      var checked := RelationHitAt(query, c.objectId, stored.value, c.evidence);
      HitMeansWanted(query, c.objectId, stored.value, c.evidence);
      if checked.Failure? {
        assert !Readable(source, admitted[i].objectId);
        return Some(checked.error), hits;
      }
      assert c in admitted;
      if checked.value.Some? {
        NotYetHit(source, query, admitted, i, before, hits);
        RecheckedHit(source, query, admitted[..i], c, before, hits, checked.value.value);
        hits := hits + [checked.value.value];
      } else {
        RecheckedMiss(source, query, admitted[..i], c, before, hits);
      }
    }
    assert admitted[..|admitted|] == admitted;
  }

  /** The hits are those before, then one for each matching candidate. */
  ghost predicate Rechecked(source: Source, query: Query, cs: seq<Candidate>, before: seq<RelationHit>, hits: seq<RelationHit>)
  {
    && before <= hits && |hits| <= |before| + |cs|
    && AllGenuine(source, query, hits) && Text.DistinctKeys(Key(), hits)
    && HitIds(hits) == HitIds(before) + MatchingIds(source, query, cs)
  }

  lemma RecheckedHit(source: Source, query: Query, cs: seq<Candidate>, c: Candidate, before: seq<RelationHit>, hits: seq<RelationHit>, h: RelationHit)
    requires Rechecked(source, query, cs, before, hits)
    requires Hit(source, query, c.objectId) && h.objectId == c.objectId && Genuine(source, query, h)
    requires forall other :: other in hits ==> other.objectId != h.objectId
    ensures Rechecked(source, query, cs + [c], before, hits + [h])
  {
    MatchingNext(source, query, cs, c);
    HitNext(hits, h);
  }

  lemma RecheckedMiss(source: Source, query: Query, cs: seq<Candidate>, c: Candidate, before: seq<RelationHit>, hits: seq<RelationHit>)
    requires Rechecked(source, query, cs, before, hits) && !Hit(source, query, c.objectId)
    ensures Rechecked(source, query, cs + [c], before, hits)
  {
    MatchingNext(source, query, cs, c);
  }

  lemma NotYetHit(source: Source, query: Query, admitted: seq<Candidate>, i: nat, before: seq<RelationHit>, hits: seq<RelationHit>)
    requires i < |admitted|
    requires forall i, j :: 0 <= i < j < |admitted| ==> admitted[i].objectId != admitted[j].objectId
    requires HitIds(before) !! CandidateIds(admitted)
    requires HitIds(hits) == HitIds(before) + MatchingIds(source, query, admitted[..i])
    ensures forall h :: h in hits ==> h.objectId != admitted[i].objectId
  {
    assert admitted[i] in admitted;
    assert admitted[i].objectId in CandidateIds(admitted);
    forall h | h in hits ensures h.objectId != admitted[i].objectId {
      assert h.objectId in HitIds(hits);
      if h.objectId in MatchingIds(source, query, admitted[..i]) {
        var c :| c in admitted[..i] && c.objectId == h.objectId;
      }
    }
  }

  /** `decodeRelationContinuation`; the token codec is exact. */
  predicate Accepted(token: Token, binding: Token)
  {
    Bound(token, binding) && token.position != ""
  }

  ghost predicate Covers(stream: seq<Candidate>, at: string -> nat, from: string, cs: seq<Candidate>, next: Option<string>)
  {
    var to := if next.Some? then at(next.value) else |stream|;
    at(from) <= to <= |stream| && cs == stream[at(from)..to]
  }

  /** Where the candidates of a request lie in the stream of an honest provider. */
  ghost predicate Spans(stream: seq<Candidate>, at: string -> nat, provider: Provider, from: string, cs: seq<Candidate>, next: Option<string>)
  {
    Honest(stream, at, provider) ==> Covers(stream, at, from, cs, next)
  }

  lemma SpansFurther(stream: seq<Candidate>, at: string -> nat, provider: Provider, turn: nat, reserved: nat,
                     from: string, continuation: string, cs: seq<Candidate>, page: Page)
    requires provider(turn, continuation, reserved) == Success(page)
    requires Spans(stream, at, provider, from, cs, Some(continuation))
    ensures page.continuation != "" ==> Spans(stream, at, provider, from, cs + page.candidates, Some(page.continuation))
    ensures page.exhausted ==> Spans(stream, at, provider, from, cs + page.candidates, None)
  {
    if Honest(stream, at, provider) {
      assert Cut(stream, at, continuation, reserved, page);
      var mid, to := at(continuation), at(continuation) + |page.candidates|;
      assert stream[at(from)..to] == stream[at(from)..mid] + stream[mid..to];
    }
  }

  /** What is known between two pages of one request. */
  ghost predicate Progress(source: Source, query: Query, limit: nat, cs: seq<Candidate>, seen: set<ObjectId>, hits: seq<RelationHit>)
  {
    && |hits| <= limit
    && seen == VisibleIds(source, cs)
    && HitIds(hits) == Relevant(source, query, cs)
    && AllGenuine(source, query, hits)
    && Text.DistinctKeys(Key(), hits)
  }

  lemma Progresses(source: Source, query: Query, cs: seq<Candidate>, page: seq<Candidate>, seen: set<ObjectId>, admitted: seq<Candidate>)
    requires seen == VisibleIds(source, cs)
    requires CandidateIds(admitted) == VisibleIds(source, page) - seen
    ensures Relevant(source, query, cs) + MatchingIds(source, query, admitted) == Relevant(source, query, cs + page)
    ensures seen + VisibleIds(source, page) == VisibleIds(source, cs + page)
    ensures Relevant(source, query, cs) !! CandidateIds(admitted)
    ensures forall c :: c in admitted ==> Visible(source, c.objectId)
  {
    RelevantConcat(source, query, cs, page);
    forall c | c in admitted ensures Visible(source, c.objectId) {
      assert c.objectId in CandidateIds(admitted);
    }
  }

  /** The budget ends the request before its first page is complete. */
  predicate StopsAtOnce(turns: nat -> Turn, pages: nat)
  {
    pages == 0 || turns(0).reserve.Exhausted? || turns(0).afterRetrieve.Expired? || turns(0).afterRead.Expired?
  }

  ghost predicate CandidatesFine(source: Source, cs: seq<Candidate>)
  {
    forall c :: c in cs ==> Admissible(source, c) && Readable(source, c.objectId)
  }

  /** Nothing goes wrong; budget stops may still happen. */
  ghost predicate RelationsSmooth(source: Source, provider: Provider, turns: nat -> Turn)
  {
    && (forall n: nat, token, limit: nat :: RelationPageFine(source, token, limit, provider(n, token, limit)))
    && forall n :: TurnFine(turns(n))
  }

  ghost predicate RelationPageFine(source: Source, token: string, limit: nat, served: Result<Page>)
  {
    served.Success? && |served.value.candidates| <= limit && Advances(token, served.value) && CandidatesFine(source, served.value.candidates)
  }

  // ------------------------------------------------------------------- turn by turn, as data

  /** Where a lookup stands between two turns: what it has read, and where it goes on. */
  datatype Place = Place(token: string, read: seq<Candidate>, exhausted: bool)

  /** How many relevant objects are still missing. */
  function Missing(source: Source, query: Query, limit: nat, read: seq<Candidate>): nat
  {
    var found := |Relevant(source, query, read)|;
    if found < limit then limit - found else 0
  }

  predicate Done(source: Source, query: Query, limit: nat, spot: Place)
  {
    spot.exhausted || Missing(source, query, limit, spot.read) == 0
  }

  function Served(source: Source, query: Query, provider: Provider, n: nat, t: Turn, limit: nat, spot: Place): Result<Page>
    requires t.reserve.Grant?
  {
    provider(n, spot.token, Asked(t, Missing(source, query, limit, spot.read)))
  }

  /** Every candidate names the repository and is of the fixed commit. */
  ghost predicate AllOfBasis(source: Source, cs: seq<Candidate>)
  {
    forall c :: c in cs ==> c.repository == source.repository && c.basis == source.commit
  }

  /** Turn n runs to its end: the page it is served has been read. */
  ghost predicate Completes(source: Source, query: Query, provider: Provider, n: nat, t: Turn, limit: nat, before: Place, after: Place)
  {
    && !Done(source, query, limit, before) && !Stops(t) && t.reserve.Grant?
    && var served := Served(source, query, provider, n, t, limit, before);
       && served.Success? && AllOfBasis(source, served.value.candidates)
       && after == Place(served.value.continuation, before.read + served.value.candidates, served.value.exhausted)
  }

  ghost predicate CompletesAt(source: Source, query: Query, provider: Provider, turns: nat -> Turn, limit: nat, trace: seq<Place>, n: nat)
    requires n + 1 < |trace|
  {
    Completes(source, query, provider, n, turns(n), limit, trace[n], trace[n + 1])
  }

  /** The spots of a lookup, from its start over every turn that ran to its end. */
  ghost predicate Traced(source: Source, query: Query, provider: Provider, turns: nat -> Turn, limit: nat, from: string, trace: seq<Place>)
  {
    && |trace| > 0 && trace[0] == Place(from, [], false)
    && forall n :: 0 <= n < |trace| - 1 ==> CompletesAt(source, query, provider, turns, limit, trace, n)
  }

  /** Nothing goes wrong in the turn. */
  ghost predicate Undisturbed(source: Source, query: Query, provider: Provider, n: nat, t: Turn, limit: nat, spot: Place)
  {
    && TurnFine(t)
    && (t.reserve.Grant? ==>
          RelationPageFine(source, spot.token, Asked(t, Missing(source, query, limit, spot.read)),
                           Served(source, query, provider, n, t, limit, spot)))
  }

  /** A lookup that is done with its last spot goes on only where the limit cut it; one that is not
  was stopped by the budget, and goes on where it stood. */
  ghost predicate Concludes(source: Source, query: Query, turns: nat -> Turn, pages: nat, limit: nat, trace: seq<Place>, next: Option<string>)
    requires |trace| > 0
  {
    var last := trace[|trace| - 1];
    && (!Done(source, query, limit, last) ==> |trace| - 1 == pages || Stops(turns(|trace| - 1)))
    && next == if last.exhausted then None else Some(last.token)
  }

  lemma TraceStarts(source: Source, query: Query, provider: Provider, turns: nat -> Turn, limit: nat, from: string)
    ensures Traced(source, query, provider, turns, limit, from, [Place(from, [], false)])
  {}

  lemma TraceNext(source: Source, query: Query, provider: Provider, turns: nat -> Turn, limit: nat, from: string, trace: seq<Place>, spot: Place)
    requires Traced(source, query, provider, turns, limit, from, trace)
    requires Completes(source, query, provider, |trace| - 1, turns(|trace| - 1), limit, trace[|trace| - 1], spot)
    ensures Traced(source, query, provider, turns, limit, from, trace + [spot])
  {
    var longer := trace + [spot];
    forall n | 0 <= n < |longer| - 1 ensures CompletesAt(source, query, provider, turns, limit, longer, n) {
      assert n < |trace| - 1 ==> CompletesAt(source, query, provider, turns, limit, trace, n);
    }
  }

  /** A conclusion is no matter of choice: provider and turns decide how a lookup goes and ends. */
  lemma ConclusionIsUnique(source: Source, query: Query, provider: Provider, turns: nat -> Turn, pages: nat, limit: nat, from: string,
                           a: seq<Place>, nextA: Option<string>, b: seq<Place>, nextB: Option<string>)
    requires Traced(source, query, provider, turns, limit, from, a) && Traced(source, query, provider, turns, limit, from, b)
    requires Concludes(source, query, turns, pages, limit, a, nextA) && Concludes(source, query, turns, pages, limit, b, nextB)
    requires |a| - 1 <= pages && |b| - 1 <= pages
    ensures a == b && nextA == nextB
  {
    NoLonger(source, query, provider, turns, pages, limit, from, a, nextA, b);
    NoLonger(source, query, provider, turns, pages, limit, from, b, nextB, a);
    forall n: nat | n < |a| && n < |b| ensures a[n] == b[n] {
      TracesAgree(source, query, provider, turns, limit, from, a, b, n);
    }
  }

  lemma NoLonger(source: Source, query: Query, provider: Provider, turns: nat -> Turn, pages: nat, limit: nat, from: string,
                 a: seq<Place>, nextA: Option<string>, b: seq<Place>)
    requires Traced(source, query, provider, turns, limit, from, a) && Traced(source, query, provider, turns, limit, from, b)
    requires Concludes(source, query, turns, pages, limit, a, nextA) && |b| - 1 <= pages
    ensures |b| <= |a|
  {
    if |a| < |b| {
      var n := |a| - 1;
      TracesAgree(source, query, provider, turns, limit, from, a, b, n);
      GoesOn(source, query, provider, turns, limit, from, b, n);
    }
  }

  lemma GoesOn(source: Source, query: Query, provider: Provider, turns: nat -> Turn, limit: nat, from: string, trace: seq<Place>, n: nat)
    requires Traced(source, query, provider, turns, limit, from, trace) && n + 1 < |trace|
    ensures !Done(source, query, limit, trace[n]) && !Stops(turns(n))
  {
    assert CompletesAt(source, query, provider, turns, limit, trace, n);
  }

  lemma {:induction false} TracesAgree(source: Source, query: Query, provider: Provider, turns: nat -> Turn, limit: nat, from: string,
                                       a: seq<Place>, b: seq<Place>, n: nat)
    requires Traced(source, query, provider, turns, limit, from, a) && Traced(source, query, provider, turns, limit, from, b)
    requires n < |a| && n < |b|
    ensures a[n] == b[n]
  {
    if n > 0 {
      TracesAgree(source, query, provider, turns, limit, from, a, b, n - 1);
      assert CompletesAt(source, query, provider, turns, limit, a, n - 1) && CompletesAt(source, query, provider, turns, limit, b, n - 1);
    }
  }

  lemma SmoothTurn(source: Source, query: Query, provider: Provider, turns: nat -> Turn, n: nat, limit: nat, spot: Place)
    ensures RelationsSmooth(source, provider, turns) ==> Undisturbed(source, query, provider, n, turns(n), limit, spot)
  {
    var t := turns(n);
    if RelationsSmooth(source, provider, turns) && t.reserve.Grant? {
      var asked := Asked(t, Missing(source, query, limit, spot.read));
      assert RelationPageFine(source, spot.token, asked, provider(n, spot.token, asked));
    }
  }

  lemma {:induction false} HitCount(hits: seq<RelationHit>)
    requires Text.DistinctKeys(Key(), hits)
    ensures |HitIds(hits)| == |hits|
  {
    if hits != [] {
      var front, last := hits[..|hits| - 1], hits[|hits| - 1];
      assert hits == front + [last];
      forall i | 0 <= i < |front| ensures front[i].objectId != last.objectId {
        assert Key()(hits[i]) != Key()(hits[|hits| - 1]);
      }
      assert Text.DistinctKeys(Key(), front) by {
        forall i, j | 0 <= i < j < |front| ensures Key()(front[i]) != Key()(front[j]) {
          assert hits[i] == front[i] && hits[j] == front[j];
        }
      }
      HitCount(front);
      HitNext(front, last);
    }
  }

  /** What the loop keeps between two turns. */
  ghost predicate InStep(source: Source, query: Query, provider: Provider, turns: nat -> Turn, limit: nat, from: string,
                         stream: seq<Candidate>, at: string -> nat, trace: seq<Place>, token: string, seen: set<ObjectId>, hits: seq<RelationHit>)
  {
    && Traced(source, query, provider, turns, limit, from, trace)
    && var last := trace[|trace| - 1];
       && last.token == token && !last.exhausted
       && Progress(source, query, limit, last.read, seen, hits)
       && Spans(stream, at, provider, from, last.read, Some(token))
       && Missing(source, query, limit, last.read) == limit - |hits|
  }

  lemma InStepStarts(source: Source, query: Query, provider: Provider, turns: nat -> Turn, limit: nat, from: string, stream: seq<Candidate>, at: string -> nat)
    ensures InStep(source, query, provider, turns, limit, from, stream, at, [Place(from, [], false)], from, {}, [])
  {
    TraceStarts(source, query, provider, turns, limit, from);
    if Honest(stream, at, provider) {
      assert stream[at(from)..at(from)] == [];
    }
  }

  lemma StepTaken(source: Source, query: Query, provider: Provider, turns: nat -> Turn, limit: nat, from: string,
                  stream: seq<Candidate>, at: string -> nat, trace: seq<Place>, token: string, seen: set<ObjectId>, hits: seq<RelationHit>,
                  page: Page, seenAfter: set<ObjectId>, hitsAfter: seq<RelationHit>)
    requires InStep(source, query, provider, turns, limit, from, stream, at, trace, token, seen, hits) && |hits| < limit
    requires var t := turns(|trace| - 1); t.reserve.Grant? && !Stops(t) && provider(|trace| - 1, token, Asked(t, limit - |hits|)) == Success(page)
    requires AllOfBasis(source, page.candidates) && Advances(token, page)
    requires Progress(source, query, limit, trace[|trace| - 1].read + page.candidates, seenAfter, hitsAfter)
    ensures var read := trace[|trace| - 1].read + page.candidates;
      var longer := trace + [Place(page.continuation, read, page.exhausted)];
      && Traced(source, query, provider, turns, limit, from, longer)
      && (!page.exhausted ==> InStep(source, query, provider, turns, limit, from, stream, at, longer, page.continuation, seenAfter, hitsAfter))
      && (page.exhausted ==> Spans(stream, at, provider, from, read, None))
      && Missing(source, query, limit, read) == limit - |hitsAfter|
  {
    var n := |trace| - 1;
    HitCount(hitsAfter);
    TraceNext(source, query, provider, turns, limit, from, trace, Place(page.continuation, trace[n].read + page.candidates, page.exhausted));
    SpansFurther(stream, at, provider, n, Asked(turns(n), limit - |hits|), from, token, trace[n].read, page);
  }

  /** The provider's part of one turn. */
  method Retrieve(source: Source, provider: Provider, n: nat, t: Turn, token: string, wanted: nat)
    returns (failure: Option<ErrorCode>, expired: bool, page: Page)
    requires t.reserve.Grant?
    ensures expired ==> failure.None? && t.afterRetrieve.Expired?
    ensures failure.None? && !expired ==> t.afterRetrieve.Running? && Advances(token, page) && |page.candidates| <= Asked(t, wanted)
    ensures failure.None? && !expired ==> provider(n, token, Asked(t, wanted)) == Success(page)
    ensures failure.Some? ==> !TurnFine(t) || !RelationPageFine(source, token, Asked(t, wanted), provider(n, token, Asked(t, wanted)))
  {
    failure, expired, page := None, false, Page([], "", true);
    var reserved := if t.reserve.reserved > wanted then wanted else t.reserve.reserved;
    var served := provider(n, token, reserved);
    if t.afterRetrieve.Expired? {
      return None, true, page;
    }
    if t.afterRetrieve.Canceled? {
      return Some(t.afterRetrieve.error), false, page;
    }
    if served.Failure? {
      return Some(served.error), false, page;
    }
    page := served.value;
    if |page.candidates| > reserved || (!page.exhausted && (page.continuation == "" || page.continuation == token)) {
      return Some(PreconditionFailed), false, page;
    }
  }

  /** The rest of the turn: admit the page's candidates and check them, unless time runs out meanwhile. */
  method TakePage(source: Source, query: Query, limit: nat, page: Page, t: Turn, seen: set<ObjectId>, hits: seq<RelationHit>,
                  ghost read: seq<Candidate>)
    returns (failure: Option<ErrorCode>, expired: bool, seenAfter: set<ObjectId>, hitsAfter: seq<RelationHit>)
    requires Progress(source, query, limit, read, seen, hits) && |hits| + |page.candidates| <= limit
    ensures failure.None? && !expired ==>
      Progress(source, query, limit, read + page.candidates, seenAfter, hitsAfter) && t.afterRead.Running? && AllOfBasis(source, page.candidates)
    ensures expired ==> failure.None? && t.afterRead.Expired?
    ensures failure.Some? ==> !TurnFine(t) || !CandidatesFine(source, page.candidates)
  {
    expired, hitsAfter := false, hits;
    var admitted;
    failure, admitted, seenAfter := Admit(source, page.candidates, seen);
    if failure.Some? {
      return;
    }
    Progresses(source, query, read, page.candidates, seen, admitted);
    failure, hitsAfter := Recheck(source, query, admitted, t.readError, hits);
    if failure.Some? {
      return;
    }
    assert forall c :: c in page.candidates ==> exists k :: 0 <= k < |page.candidates| && page.candidates[k] == c;
    if t.afterRead.Expired? {
      expired := true;
      return;
    }
    if t.afterRead.Canceled? {
      failure := Some(t.afterRead.error);
      return;
    }
  }

  /** One turn of the paging loop, with a page left. */
  method OneTurn(source: Source, query: Query, provider: Provider, n: nat, t: Turn, limit: nat, token: string,
                 seen: set<ObjectId>, hits: seq<RelationHit>, ghost read: seq<Candidate>)
    returns (failure: Option<ErrorCode>, stopped: bool, page: Page, seenAfter: set<ObjectId>, hitsAfter: seq<RelationHit>)
    requires Progress(source, query, limit, read, seen, hits) && |hits| < limit && Missing(source, query, limit, read) == limit - |hits|
    ensures failure.Some? ==> !Undisturbed(source, query, provider, n, t, limit, Place(token, read, false))
    ensures failure.None? ==> (stopped <==> Stops(t))
    ensures failure.None? && !stopped ==>
      && t.reserve.Grant? && provider(n, token, Asked(t, limit - |hits|)) == Success(page)
      && AllOfBasis(source, page.candidates) && Advances(token, page)
      && Progress(source, query, limit, read + page.candidates, seenAfter, hitsAfter)
  {
    failure, stopped, page, seenAfter, hitsAfter := None, true, Page([], "", true), seen, hits;
    if t.reserve.Exhausted? {
      return;
    }
    if t.reserve.Interrupted? {
      failure := Some(t.reserve.error);
      return;
    }
    failure, stopped, page := Retrieve(source, provider, n, t, token, limit - |hits|);
    if failure.Some? || stopped {
      return;
    }
    failure, stopped, seenAfter, hitsAfter := TakePage(source, query, limit, page, t, seen, hits, read);
  }

  /** The paging loop of `RelationsAtContext`. */
  method RelationPages(source: Source, query: Query, from: string, limit: nat, provider: Provider, turns: nat -> Turn, pages: nat,
                       ghost stream: seq<Candidate>, ghost at: string -> nat)
    returns (failure: Option<ErrorCode>, hits: seq<RelationHit>, next: Option<string>, ghost trace: seq<Place>)
    requires limit >= 1
    ensures Traced(source, query, provider, turns, limit, from, trace) && |trace| - 1 <= pages
    ensures failure.None? ==> Concludes(source, query, turns, pages, limit, trace, next)
    ensures failure.Some? ==> !Undisturbed(source, query, provider, |trace| - 1, turns(|trace| - 1), limit, trace[|trace| - 1])
    ensures failure.None? ==>
      var cs := trace[|trace| - 1].read;
      Progress(source, query, limit, cs, VisibleIds(source, cs), hits) && Spans(stream, at, provider, from, cs, next)
    ensures failure.None? && StopsAtOnce(turns, pages) ==> hits == [] && next == Some(from)
    ensures failure.None? && !StopsAtOnce(turns, pages) && next.Some? ==> next.value != ""
    ensures RelationsSmooth(source, provider, turns) ==> failure.None?
  {
    failure, hits, next, trace := None, [], None, [Place(from, [], false)];
    var continuation := from;
    var seen: set<ObjectId> := {};
    var turn := 0;
    InStepStarts(source, query, provider, turns, limit, from, stream, at);
    while |hits| < limit
      invariant turn <= pages && |trace| == turn + 1 && failure.None? && next.None? && |hits| < limit
      invariant InStep(source, query, provider, turns, limit, from, stream, at, trace, continuation, seen, hits)
      invariant turn == 0 ==> continuation == from && hits == []
      invariant turn > 0 ==> continuation != "" && !StopsAtOnce(turns, pages)
      decreases pages - turn
    {
      var t := turns(turn);
      ghost var before := trace[turn];
      if turn == pages {
        next := Some(continuation);
        return;
      }
      SmoothTurn(source, query, provider, turns, turn, limit, before);
      var stopped, page, seenAfter, hitsAfter;
      failure, stopped, page, seenAfter, hitsAfter := OneTurn(source, query, provider, turn, t, limit, continuation, seen, hits, before.read);
      if failure.Some? {
        return;
      }
      if stopped {
        next := Some(continuation);
        return;
      }
      StepTaken(source, query, provider, turns, limit, from, stream, at, trace, continuation, seen, hits, page, seenAfter, hitsAfter);
      seen, hits, trace := seenAfter, hitsAfter, trace + [Place(page.continuation, before.read + page.candidates, page.exhausted)];
      turn, continuation := turn + 1, page.continuation;
      if page.exhausted || |hits| >= limit {
        next := if page.exhausted then None else Some(page.continuation);
        return;
      }
    }
  }

  predicate WellAsked(query: Query, requested: int)
  {
    query.endpoint.repository != "" && query.endpoint.objectId != "" && 0 <= requested <= 1000
  }

  /** `RelationsAtContext`: check the request, page, and put the hits in canonical order. */
  method RelationsAt(source: Source, query: Query, binding: Token, request: Option<Token>, requested: int, provider: Provider,
                     turns: nat -> Turn, pages: nat, ghost stream: seq<Candidate>, ghost at: string -> nat)
    returns (r: Result<RelationPage>, ghost trace: seq<Place>)
    ensures r.Success? ==> WellAsked(query, requested) && |r.value.hits| <= RelationLimit(requested).value
    ensures !WellAsked(query, requested) ==> r == Failure(UsageInvalid)
    ensures WellAsked(query, requested) && request.Some? && !AcceptedFor(request.value, binding) ==> r == Failure(PreconditionFailed)
    ensures r.Success? && request.Some? ==> AcceptedFor(request.value, binding)
    ensures r.Success? ==>
      var limit := RelationLimit(requested).value;
      && Traced(source, query, provider, turns, limit, Position(request), trace) && |trace| - 1 <= pages
      && Concludes(source, query, turns, pages, limit, trace, Next(r.value.continuation))
    ensures r.Failure? && WellAsked(query, requested) && (request.Some? ==> AcceptedFor(request.value, binding)) ==>
      var limit := RelationLimit(requested).value;
      && Traced(source, query, provider, turns, limit, Position(request), trace)
      && !Undisturbed(source, query, provider, |trace| - 1, turns(|trace| - 1), limit, trace[|trace| - 1])
    ensures r.Success? ==> HitIds(r.value.hits) == Relevant(source, query, trace[|trace| - 1].read)
    ensures r.Success? ==> AllGenuine(source, query, r.value.hits) && Text.Ascending(Key(), r.value.hits)
    ensures r.Success? ==> Spans(stream, at, provider, Position(request), trace[|trace| - 1].read, Next(r.value.continuation))
    ensures r.Success? ==> (r.value.exhausted <==> r.value.continuation.None?)
    ensures r.Success? && r.value.continuation.Some? ==>
      && IssuedFor(r.value.continuation.value, binding.query, binding.view, binding.projection)
      && (!AcceptedFor(r.value.continuation.value, binding) <==> request.None? && StopsAtOnce(turns, pages))
    ensures WellAsked(query, requested) && (request.Some? ==> AcceptedFor(request.value, binding)) && RelationsSmooth(source, provider, turns) ==>
      r.Success?
  {
    trace := [];
    if query.endpoint.repository == "" || query.endpoint.objectId == "" {
      return Failure(UsageInvalid), trace;
    }
    var limit := RelationLimit(requested);
    if limit.Failure? {
      return Failure(limit.error), trace;
    }
    if request.Some? && !Accepted(request.value, binding) {
      return Failure(PreconditionFailed), trace;
    }
    var failure, hits, next;
    failure, hits, next, trace :=
      RelationPages(source, query, Position(request), limit.value, provider, turns, pages, stream, at);
    if failure.Some? {
      return Failure(failure.value), trace;
    }
    Text.SortAscending(Key(), hits);
    var sorted := Text.SortBy(Key(), hits);
    assert HitIds(sorted) == HitIds(hits);
    r := Success(RelationPage(sorted, next.None?, if next.Some? then Some(binding.(position := next.value)) else None));
  }

  /** The decoder takes the token: it was issued for the same lookup, at a place in its stream. */
  predicate AcceptedFor(token: Token, binding: Token)
  {
    IssuedFor(token, binding.query, binding.view, binding.projection) && token.position != ""
  }

  // --------------------------------------------------------------------- following continuations

  /** One finished lookup: what it saw the repository through, where it started, the ids it found,
  where it says to go on.  A token does not bind the scope, so that may change on the way. */
  datatype Lookup = Lookup(source: Source, from: string, found: set<ObjectId>, next: Option<string>)

  function Found(lookups: seq<Lookup>): set<ObjectId>
  {
    if lookups == [] then {} else Found(lookups[..|lookups| - 1]) + lookups[|lookups| - 1].found
  }

  ghost predicate Resumed(lookups: seq<Lookup>)
  {
    && |lookups| > 0
    && lookups[0].from == ""
    && forall i :: 0 < i < |lookups| ==> lookups[i - 1].next == Some(lookups[i].from)
  }

  function End(stream: seq<Candidate>, at: string -> nat, l: Lookup): nat
  {
    if l.next.Some? then at(l.next.value) else |stream|
  }

  /** It answered its own stretch of the stream, through its own scope. */
  ghost predicate Finds(query: Query, stream: seq<Candidate>, at: string -> nat, l: Lookup)
  {
    && at(l.from) <= End(stream, at, l) <= |stream|
    && l.found == Relevant(l.source, query, stream[at(l.from)..End(stream, at, l)])
  }

  /** What `RelationsAt` guarantees of a request, as a lookup. */
  lemma CoveredFinds(query: Query, stream: seq<Candidate>, at: string -> nat, l: Lookup, cs: seq<Candidate>)
    requires l.found == Relevant(l.source, query, cs) && Covers(stream, at, l.from, cs, l.next)
    ensures Finds(query, stream, at, l)
  {
  }

  /** The part of the stream read when the next lookup would start at `next`. */
  function ReadUpTo(stream: seq<Candidate>, at: string -> nat, next: Option<string>): seq<Candidate>
  {
    if next.Some? && at(next.value) <= |stream| then stream[..at(next.value)] else stream
  }

  /** Candidate k is read by lookup i. */
  predicate ReadBy(stream: seq<Candidate>, at: string -> nat, lookups: seq<Lookup>, i: nat, k: nat)
    requires i < |lookups|
  {
    at(lookups[i].from) <= k < End(stream, at, lookups[i])
  }

  /** Lookup i reads a candidate of the id, sees it through its scope, and it is a hit. */
  ghost predicate FoundIn(query: Query, stream: seq<Candidate>, at: string -> nat, lookups: seq<Lookup>, i: nat, id: ObjectId)
    requires i < |lookups|
  {
    && Visible(lookups[i].source, id) && Hit(lookups[i].source, query, id)
    && exists k :: 0 <= k < |stream| && ReadBy(stream, at, lookups, i, k) && stream[k].objectId == id
  }

  ghost predicate FoundThrough(query: Query, stream: seq<Candidate>, at: string -> nat, lookups: seq<Lookup>, id: ObjectId)
  {
    exists i :: 0 <= i < |lookups| && FoundIn(query, stream, at, lookups, i, id)
  }

  lemma FoundByOne(query: Query, stream: seq<Candidate>, at: string -> nat, lookups: seq<Lookup>, i: nat, id: ObjectId)
    requires i < |lookups| && Finds(query, stream, at, lookups[i])
    ensures id in lookups[i].found <==> FoundIn(query, stream, at, lookups, i, id)
  {
    var l := lookups[i];
    var cs := stream[at(l.from)..End(stream, at, l)];
    if id in l.found {
      var c :| c in cs && Visible(l.source, c.objectId) && c.objectId == id;
      var j :| 0 <= j < |cs| && cs[j] == c;
      assert stream[at(l.from) + j] == c && ReadBy(stream, at, lookups, i, at(l.from) + j);
    }
    if k :| 0 <= k < |stream| && ReadBy(stream, at, lookups, i, k) && stream[k].objectId == id
            && Visible(l.source, id) && Hit(l.source, query, id) {
      assert cs[k - at(l.from)] == stream[k];
    }
  }

  lemma {:induction false} FoundIsUnion(lookups: seq<Lookup>)
    ensures forall id :: id in Found(lookups) <==> exists i :: 0 <= i < |lookups| && id in lookups[i].found
  {
    if lookups != [] {
      FoundIsUnion(lookups[..|lookups| - 1]);
      assert lookups == lookups[..|lookups| - 1] + [lookups[|lookups| - 1]];
    }
  }

  /** Following continuations reads every candidate up to where the last lookup stopped, each in
  one lookup. */
  lemma {:induction false} LookupsTile(query: Query, stream: seq<Candidate>, at: string -> nat, lookups: seq<Lookup>, k: nat)
    requires at("") == 0 && Resumed(lookups) && forall l :: l in lookups ==> Finds(query, stream, at, l)
    ensures k < |ReadUpTo(stream, at, lookups[|lookups| - 1].next)| <==> exists i :: 0 <= i < |lookups| && ReadBy(stream, at, lookups, i, k)
    ensures forall i, j :: 0 <= i < |lookups| && 0 <= j < |lookups| && ReadBy(stream, at, lookups, i, k) && ReadBy(stream, at, lookups, j, k) ==> i == j
  {
    var n := |lookups| - 1;
    assert Finds(query, stream, at, lookups[n]);
    if n > 0 {
      var before := lookups[..n];
      LookupsTile(query, stream, at, before, k);
      assert before[n - 1].next == Some(lookups[n].from);
      forall i | 0 <= i < n ensures ReadBy(stream, at, lookups, i, k) <==> ReadBy(stream, at, before, i, k) {}
      if k < at(lookups[n].from) {
        var i :| 0 <= i < n && ReadBy(stream, at, before, i, k);
        assert ReadBy(stream, at, lookups, i, k);
      } else if k < End(stream, at, lookups[n]) {
        assert ReadBy(stream, at, lookups, n, k);
      }
    } else {
      assert ReadBy(stream, at, lookups, 0, k) <==> k < End(stream, at, lookups[0]);
    }
  }

  /** Over any limits, page cuts, budget stops and changes of scope: an id is found exactly if some
  candidate of it was read by a lookup through whose scope it is visible, and is a hit. */
  lemma ResumedLookupPerScope(query: Query, stream: seq<Candidate>, at: string -> nat, lookups: seq<Lookup>, id: ObjectId)
    requires forall l :: l in lookups ==> Finds(query, stream, at, l)
    ensures id in Found(lookups) <==> FoundThrough(query, stream, at, lookups, id)
  {
    FoundIsUnion(lookups);
    forall i | 0 <= i < |lookups|
      ensures id in lookups[i].found <==> FoundIn(query, stream, at, lookups, i, id)
    {
      assert lookups[i] in lookups;
      FoundByOne(query, stream, at, lookups, i, id);
    }
  }

  /** Under one scope: exactly the relevant objects of the stream read so far, and of the whole
  stream at the end. */
  lemma {:induction false} ResumedLookupIsComplete(source: Source, query: Query, stream: seq<Candidate>, at: string -> nat, lookups: seq<Lookup>)
    requires at("") == 0 && Resumed(lookups)
    requires forall l :: l in lookups ==> l.source == source && Finds(query, stream, at, l)
    ensures Found(lookups) == Relevant(source, query, ReadUpTo(stream, at, lookups[|lookups| - 1].next))
    ensures lookups[|lookups| - 1].next.None? ==> Found(lookups) == Relevant(source, query, stream)
  {
    var last := lookups[|lookups| - 1];
    assert Finds(query, stream, at, last);
    var cs := stream[at(last.from)..End(stream, at, last)];
    if |lookups| == 1 {
      assert Found(lookups) == last.found;
      assert cs == ReadUpTo(stream, at, last.next);
    } else {
      var before := lookups[..|lookups| - 1];
      ResumedLookupIsComplete(source, query, stream, at, before);
      assert before[|before| - 1].next == Some(last.from);
      RelevantConcat(source, query, stream[..at(last.from)], cs);
      assert stream[..at(last.from)] + cs == ReadUpTo(stream, at, last.next);
    }
  }

  /** Following continuations comes to an end: if every lookup before the last finds something, as
  those do that no budget stops, a chain has no more lookups than the stream has candidates, and one. */
  lemma {:induction false} ResumedLookupEnds(query: Query, stream: seq<Candidate>, at: string -> nat, lookups: seq<Lookup>)
    requires at("") == 0 && Resumed(lookups) && forall l :: l in lookups ==> Finds(query, stream, at, l)
    requires forall i :: 0 <= i < |lookups| - 1 ==> lookups[i].found != {}
    ensures |lookups| - 1 <= at(lookups[|lookups| - 1].from) <= |stream|
  {
    var n := |lookups| - 1;
    assert Finds(query, stream, at, lookups[n]);
    if n > 0 {
      assert lookups[n - 1] in lookups;
      ResumedLookupEnds(query, stream, at, lookups[..n]);
      FindingMovesOn(query, stream, at, lookups[n - 1]);
    }
  }

  lemma FindingMovesOn(query: Query, stream: seq<Candidate>, at: string -> nat, l: Lookup)
    requires Finds(query, stream, at, l) && l.found != {}
    ensures at(l.from) < End(stream, at, l)
  {
    var id :| id in l.found;
    var c :| c in stream[at(l.from)..End(stream, at, l)] && c.objectId == id;
  }
}
