/** Catching up: the controller against published heads (index/controller.go, index/consumer.go).

The queue is only a memory of work.  Whatever it holds, even nothing, one catch-up over fixed
heads brings every knowledge repository of the inventory, and every consumer, to its head. */
module Controller {
  import opened Kernel
  import opened Targets

  datatype Attempt = Built | Refused(error: ErrorCode, lost: bool)

  /** The surroundings of one catch-up.  A lookup fails, finds no knowledge repository, or finds one
  and what reading its head gives; an empty head is unpublished.  Then what the index makes of a
  request, and the registered consumers. */
  datatype Estate = Estate(
    inventory: seq<Repo>, lookup: Repo -> Result<Option<Result<Commit>>>, ensure: (Repo, Commit) -> Attempt,
    describable: Repo -> bool, lanes: seq<string>)

  /** Why there is no repository to work on. */
  function Unattached(e: Estate, id: Repo): Option<ErrorCode>
  {
    match e.lookup(id)
    case Failure(error) => Some(error)
    case Success(None) => Some(CapabilityUnsatisfied)
    case Success(Some(_)) => None
  }

  /** `consumerHead`. */
  function ConsumerHead(e: Estate, id: Repo): Result<Commit>
  {
    match e.lookup(id)
    case Failure(error) => Failure(error)
    case Success(None) => Failure(CapabilityUnsatisfied)
    case Success(Some(head)) => if head.Success? && head.value == "" then Failure(Unavailable("version unresolved")) else head
  }

  /** `publishedHead`. */
  function PublishedHead(e: Estate, id: Repo): Option<Commit>
  {
    match ConsumerHead(e, id)
    case Success(head) => Some(head)
    case Failure(_) => None
  }

  // --------------------------------------------------------- heads and outcomes, as they are meant

  /** A knowledge repository, published at this head. */
  predicate HasHead(e: Estate, id: Repo, head: Commit)
  {
    e.lookup(id) == Success(Some(Success(head))) && head != ""
  }

  ghost predicate Published(e: Estate, id: Repo)
  {
    exists head :: HasHead(e, id, head)
  }

  lemma PublishedIff(e: Estate, id: Repo)
    ensures forall head :: PublishedHead(e, id) == Some(head) <==> HasHead(e, id, head)
    ensures PublishedHead(e, id).Some? <==> Published(e, id)
  {
    if PublishedHead(e, id).Some? {
      assert HasHead(e, id, PublishedHead(e, id).value);
    }
  }

  /** Why a consumer has no head to go to. */
  predicate LacksHead(e: Estate, id: Repo, error: ErrorCode)
  {
    match e.lookup(id)
    case Failure(lookupError) => error == lookupError
    case Success(None) => error == CapabilityUnsatisfied
    case Success(Some(Failure(headError))) => error == headError
    case Success(Some(Success(head))) => head == "" && error == Unavailable("version unresolved")
  }

  lemma ConsumerHeadIff(e: Estate, id: Repo)
    ensures forall head :: ConsumerHead(e, id) == Success(head) <==> HasHead(e, id, head)
    ensures forall error :: ConsumerHead(e, id) == Failure(error) <==> LacksHead(e, id, error)
  {}

  /** The commits at which the index serves, by repository. */
  type Serving = map<Repo, Commit>

  predicate ServesAt(serving: Serving, repo: Repo, commit: Commit)
  {
    repo in serving && serving[repo] == commit
  }

  /** `needsHead`. */
  predicate NeedsHead(e: Estate, serving: Serving, id: Repo, head: Commit, t: Target)
  {
    || t.desired != head || t.applied != head || t.status != Ready
    || !e.describable(id) || !ServesAt(serving, id, head)
  }

  /** `alignedWithHead`. */
  predicate Aligned(e: Estate, repo: Repo, t: Target)
  {
    && t.status == Ready && t.applied == t.desired
    && (PublishedHead(e, repo).Some? ==> t.desired == PublishedHead(e, repo).value)
  }

  /** Ready at the head, with the index serving there. */
  predicate AtHead(targets: map<Repo, Target>, serving: Serving, repo: Repo, head: Commit)
  {
    && repo in targets && targets[repo].status == Ready
    && targets[repo].desired == head && targets[repo].applied == head && ServesAt(serving, repo, head)
  }

  /** The target is about to be taken to the commit. */
  predicate Awaits(targets: map<Repo, Target>, repo: Repo, commit: Commit)
  {
    repo in targets && targets[repo].status == Pending && targets[repo].desired == commit
  }

  /** Nothing has to be done for it: at the head, served there, and its projection can be described. */
  predicate Satisfied(e: Estate, targets: map<Repo, Target>, serving: Serving, repo: Repo, head: Commit)
  {
    AtHead(targets, serving, repo, head) && e.describable(repo)
  }

  /** Reconciling leaves what is satisfied alone, and has anything else taken to its head. */
  predicate Directed(e: Estate, was: map<Repo, Target>, now: map<Repo, Target>, serving: Serving, repo: Repo, head: Commit)
  {
    if Satisfied(e, was, serving, repo, head) then SameAt(was, now, repo) else Awaits(now, repo, head)
  }

  predicate ConsumerDesires(consumers: map<string, ConsumerTarget>, lane: string, repo: Repo, commit: Commit)
  {
    var key := ConsumerKey(lane, repo);
    key in consumers && consumers[key].target.desired == commit
  }

  predicate NulFree(lanes: seq<string>)
  {
    forall lane :: lane in lanes ==> NUL !in lane
  }

  /** So are all consumers that the repository is to be taken to the head for. */
  ghost predicate LanesDirected(e: Estate, was: map<Repo, Target>, serving: Serving, consumers: map<string, ConsumerTarget>, repo: Repo, head: Commit)
  {
    NulFree(e.lanes) && !Satisfied(e, was, serving, repo, head) ==>
      forall lane :: lane in e.lanes ==> ConsumerDesires(consumers, lane, repo, head)
  }

  /** Every consumer is told, and nothing else is touched. */
  lemma {:induction false} LanesDesireMeans(q: Queue, lanes: seq<string>, repo: Repo, commit: Commit)
    requires NulFree(lanes)
    ensures forall lane :: lane in lanes ==> ConsumerDesires(LanesDesire(q, lanes, repo, commit).consumers, lane, repo, commit)
    ensures forall id: string, other: Repo :: NUL !in id && other != repo ==>
      LaneSame(q.consumers, LanesDesire(q, lanes, repo, commit).consumers, id, other)
  {
    if lanes != [] {
      var n := |lanes| - 1;
      var front, last := LanesDesire(q, lanes[..n], repo, commit), lanes[n];
      LanesDesireMeans(q, lanes[..n], repo, commit);
      assert lanes == lanes[..n] + [last];
      var after := DesiredConsumer(front, last, repo, commit);
      forall id: string, other: Repo | NUL !in id && other != repo ensures LaneSame(q.consumers, after.consumers, id, other) {
        KeysAreDistinct(id, last, other, repo);
        assert LaneSame(q.consumers, front.consumers, id, other);
      }
      forall lane | lane in lanes[..n] ensures ConsumerDesires(after.consumers, lane, repo, commit) {
        KeysAreDistinct(lane, last, repo, repo);
        assert ConsumerDesires(front.consumers, lane, repo, commit);
      }
    }
  }

  function LanesDesire(q: Queue, lanes: seq<string>, repo: Repo, commit: Commit): Queue
  {
    if lanes == [] then q
    else DesiredConsumer(LanesDesire(q, lanes[..|lanes| - 1], repo, commit), lanes[|lanes| - 1], repo, commit)
  }

  class Controller {
    var targets: map<Repo, Target>
    var consumers: map<string, ConsumerTarget>
    var serving: Serving

    constructor ()
      ensures Contents() == Queue(map[], map[]) && serving == map[]
    {
      targets, consumers, serving := map[], map[], map[];
    }

    function Contents(): Queue
      reads this
    {
      Queue(targets, consumers)
    }

    // ------------------------------------------------------------------- store transactions

    method Desire(repo: Repo, commit: Commit)
      modifies this`targets
      ensures Contents() == Desired(old(Contents()), repo, commit)
    {
      var target := Blank();
      if repo in targets {
        target := targets[repo];
      }
      targets := targets[repo := target.(desired := commit, status := Pending, lastError := None)];
    }

    method Finish(repo: Repo, attempted: Commit, outcome: Result<Commit>)
      modifies this`targets
      ensures Contents() == Finished(old(Contents()), repo, attempted, outcome)
    {
      if repo !in targets {
        return;
      }
      var target := targets[repo];
      if target.desired != attempted {
        return;
      }
      if outcome.Failure? {
        target := target.(status := Failed, lastError := Some(outcome.error));
      } else {
        target := target.(status := Ready, lastError := None, applied := outcome.value);
      }
      targets := targets[repo := target];
    }

    method DesireConsumer(id: string, repo: Repo, commit: Commit)
      modifies this`consumers
      ensures Contents() == DesiredConsumer(old(Contents()), id, repo, commit)
    {
      var key := ConsumerKey(id, repo);
      var record := ConsumerTarget(id, repo, Blank());
      if key in consumers {
        record := consumers[key];
        if record.target.desired == commit {
          return;
        }
      }
      consumers := consumers[key := record.(target := record.target.(desired := commit, status := Pending, lastError := None))];
    }

    method FinishConsumer(id: string, repo: Repo, attempted: Commit, failure: Option<ErrorCode>)
      modifies this`consumers
      ensures Contents() == FinishedConsumer(old(Contents()), id, repo, attempted, failure)
    {
      var key := ConsumerKey(id, repo);
      if key !in consumers {
        return;
      }
      var record := consumers[key];
      var t := record.target;
      if t.desired != attempted {
        return;
      }
      if failure.None? && t.status == Ready && t.applied == attempted && t.lastError == None {
        assert consumers[key := record] == consumers;
        return;
      }
      if failure.Some? {
        t := t.(status := Failed, lastError := failure);
      } else {
        t := t.(status := Ready, applied := attempted, lastError := None);
      }
      consumers := consumers[key := record.(target := t)];
    }

    method FailConsumerHead(id: string, repo: Repo, error: ErrorCode)
      modifies this`consumers
      ensures Contents() == FailedHead(old(Contents()), id, repo, error)
    {
      var key := ConsumerKey(id, repo);
      var record := ConsumerTarget(id, repo, Blank());
      if key in consumers {
        record := consumers[key];
      } else if error == CapabilityUnsatisfied {
        return;
      }
      if record.target.status == Failed && record.target.lastError == Some(error) {
        assert consumers[key := record] == consumers;
        return;
      }
      consumers := consumers[key := record.(target := record.target.(status := Failed, lastError := Some(error)))];
    }

    // ------------------------------------------------------------------ the projection's lane

    /** `Controller.Desire`: the projection's record and every consumer's. */
    method DesireEverywhere(e: Estate, repo: Repo, commit: Commit)
      modifies this`targets, this`consumers
      ensures Contents() == LanesDesire(Desired(old(Contents()), repo, commit), e.lanes, repo, commit)
      ensures targets == Desired(old(Contents()), repo, commit).targets
    {
      Desire(repo, commit);
      ghost var q := Contents();
      for i := 0 to |e.lanes|
        invariant Contents() == LanesDesire(q, e.lanes[..i], repo, commit)
        invariant targets == q.targets
      {
        assert e.lanes[..i + 1][..i] == e.lanes[..i];
        DesireConsumer(e.lanes[i], repo, commit);
      }
      assert e.lanes[..|e.lanes|] == e.lanes;
    }

    /** `reconcile`: every repository of the inventory that is not at its head is desired there. */
    method Reconcile(e: Estate)
      modifies this`targets, this`consumers
      ensures AllDirected(e, old(targets), targets, serving, consumers, e.inventory)
    {
      var known := targets;
      for i := 0 to |e.inventory|
        invariant AllDirected(e, known, targets, serving, consumers, e.inventory[..i])
      {
        ghost var was, lanes := targets, consumers;
        ReconcileRepository(e, known, e.inventory[i], e.inventory[..i]);
        DirectedNext(e, known, was, targets, serving, lanes, consumers, e.inventory[..i], e.inventory[i]);
        assert e.inventory[..i + 1] == e.inventory[..i] + [e.inventory[i]];
      }
      assert e.inventory[..|e.inventory|] == e.inventory;
    }

    /** One repository of `reconcile`. */
    method ReconcileRepository(e: Estate, known: map<Repo, Target>, id: Repo, ghost done: seq<Repo>)
      requires AllDirected(e, known, targets, serving, consumers, done)
      modifies this`targets, this`consumers
      ensures forall head :: HasHead(e, id, head) ==>
        && Directed(e, known, targets, serving, id, head) && LanesDirected(e, known, serving, consumers, id, head)
      ensures !Published(e, id) ==> targets == old(targets) && consumers == old(consumers)
      ensures forall repo :: repo != id ==> SameAt(old(targets), targets, repo)
      ensures NulFree(e.lanes) ==> forall lane: string, repo: Repo :: NUL !in lane && repo != id ==> LaneSame(old(consumers), consumers, lane, repo)
    {
      var head := PublishedHead(e, id);
      PublishedIff(e, id);
      if head.None? {
        return;
      }
      var target := if id in known then known[id] else Blank();
      if !NeedsHead(e, serving, id, head.value, target) {
        SatisfiedStays(e, known, targets, serving, consumers, done, id, head.value);
        return;
      }
      ghost var q := Desired(Contents(), id, head.value);
      DesireEverywhere(e, id, head.value);
      if NulFree(e.lanes) {
        LanesDesireMeans(q, e.lanes, id, head.value);
      }
    }

    /** `applyPending`: every listed target that is not aligned is attempted and finished. */
    method ApplyPending(e: Estate)
      modifies this`targets, this`serving
      ensures targets.Keys == old(targets).Keys
      ensures forall repo :: repo in targets ==>
        Settled(e, old(targets)[repo], targets[repo], old(serving), serving, repo)
    {
      var listed := targets;
      ghost var before := serving;
      var pending := listed.Keys;
      while pending != {}
        invariant pending <= listed.Keys && targets.Keys == listed.Keys
        invariant forall repo :: repo in pending ==> targets[repo] == listed[repo] && SameServing(before, serving, repo)
        invariant forall repo :: repo in listed && repo !in pending ==> Settled(e, listed[repo], targets[repo], before, serving, repo)
        decreases pending
      {
        var repo :| repo in pending;
        ghost var was, served := targets, serving;
        pending := pending - {repo};
        ApplyOne(e, repo, listed[repo]);
        SettledSince(e, listed[repo], targets[repo], before, served, serving, repo);
        forall other | other in listed && other != repo ensures targets[other] == was[other] && SameServing(served, serving, other) {
          assert SameAt(was, targets, other);
        }
      }
    }

    /** One target of `applyPending`. */
    method ApplyOne(e: Estate, repo: Repo, target: Target)
      requires repo in targets && targets[repo] == target
      modifies this`targets, this`serving
      ensures targets.Keys == old(targets).Keys
      ensures Settled(e, target, targets[repo], old(serving), serving, repo)
      ensures forall other :: other != repo ==> SameAt(old(targets), targets, other) && SameServing(old(serving), serving, other)
    {
      if Aligned(e, repo, target) {
        return;
      }
      var missing := Unattached(e, repo);
      var outcome: Result<Commit>;
      if missing.Some? {
        outcome := Failure(missing.value);
      } else {
        outcome := Ensure(e, repo, target.desired);
      }
      ghost var q := Contents();
      Finish(repo, target.desired, outcome);
      assert targets == Finished(q, repo, target.desired, outcome).targets;
    }

    /** The index, asked to serve a repository at a commit. */
    method Ensure(e: Estate, repo: Repo, commit: Commit) returns (r: Result<Commit>)
      modifies this`serving
      ensures e.ensure(repo, commit).Built? ==> r == Success(commit) && ServesAt(serving, repo, commit)
      ensures e.ensure(repo, commit).Refused? ==> r == Failure(e.ensure(repo, commit).error)
      ensures forall other :: other != repo ==> SameServing(old(serving), serving, other)
    {
      match e.ensure(repo, commit)
      case Built =>
        serving := serving[repo := commit];
        r := Success(commit);
      case Refused(error, lost) =>
        if lost {
          serving := serving - {repo};
        }
        r := Failure(error);
    }

    /** `catchUpProjection` up to the State lane.  A repository at its head that is served there stays.
    Any other with a head ends READY there, or FAILED with the index's reason; and what has no head, or
    is not in the inventory, is settled where it stood. */
    method CatchUpProjection(e: Estate)
      modifies this`targets, this`consumers, this`serving
      ensures forall id, head :: id in e.inventory && HasHead(e, id, head) && e.ensure(id, head).Built? ==>
        AtHead(targets, serving, id, head)
      ensures forall id, head :: id in e.inventory && HasHead(e, id, head) ==>
        CaughtUp(e, old(targets), targets, old(serving), serving, id, head)
      ensures forall id, head :: id in e.inventory && HasHead(e, id, head) ==> LanesDirected(e, old(targets), old(serving), consumers, id, head)
      ensures forall repo :: repo !in e.inventory || !Published(e, repo) ==>
        && (repo in old(targets) <==> repo in targets)
        && (repo in targets ==> SettledThere(e, old(targets)[repo], targets[repo], old(serving), serving, repo))
    {
      ghost var was, stood := targets, serving;
      Reconcile(e);
      ghost var directed := targets;
      ApplyPending(e);
      forall repo | repo in targets ensures SettledThere(e, directed[repo], targets[repo], stood, serving, repo) {
        SettledMeans(e, directed[repo], targets[repo], stood, serving, repo);
      }
      forall id, head | id in e.inventory && HasHead(e, id, head) ensures CaughtUp(e, was, targets, stood, serving, id, head) {
        assert Directed(e, was, directed, stood, id, head);
      }
      forall repo | repo !in e.inventory || !Published(e, repo)
        ensures (repo in was <==> repo in targets) && (repo in targets ==> SettledThere(e, was[repo], targets[repo], stood, serving, repo))
      {
        assert SameAt(was, directed, repo);
      }
    }

    // --------------------------------------------------------------------- a consumer's lane

    /** The records of one consumer, by the prefix of their keys. */
    method ListConsumers(id: string) returns (r: seq<ConsumerTarget>)
      requires Inv(Contents()) && NUL !in id
      ensures forall c :: c in r <==> c.consumer == id && ConsumerKey(id, c.repository) in consumers && consumers[ConsumerKey(id, c.repository)] == c
    {
      r := [];
      var pending := consumers.Keys;
      while pending != {}
        invariant pending <= consumers.Keys
        invariant forall c :: c in r <==> c.consumer == id && ConsumerKey(id, c.repository) in consumers.Keys - pending &&
                                          consumers[ConsumerKey(id, c.repository)] == c
        decreases pending
      {
        var key :| key in pending;
        var c := consumers[key];
        assert Filed(key, c);
        PrefixIsOneConsumer(id, key, c);
        pending := pending - {key};
        if id + [NUL] <= key && c.consumer == id {
          r := r + [c];
        }
      }
    }

    /** `reconcileConsumer`: a record at its head for every repository of the inventory. */
    method ReconcileConsumer(e: Estate, lane: string)
      requires Inv(Contents()) && NUL !in lane
      modifies this`consumers
      ensures Inv(Contents()) && OthersKept(old(consumers), consumers, lane)
      ensures forall id :: id in e.inventory ==> Noted(e, old(consumers), consumers, lane, id)
      ensures forall id :: id !in e.inventory ==> LaneSame(old(consumers), consumers, lane, id)
    {
      ghost var was := consumers;
      for i := 0 to |e.inventory|
        invariant Inv(Contents()) && OthersKept(was, consumers, lane)
        invariant AllNoted(e, was, consumers, lane, e.inventory[..i])
      {
        ghost var before := consumers;
        NoteHead(e, lane, e.inventory[i]);
        KeptTwice(was, before, consumers, lane);
        NotedNext(e, was, before, consumers, lane, e.inventory[..i], e.inventory[i]);
        assert e.inventory[..i + 1] == e.inventory[..i] + [e.inventory[i]];
      }
      assert e.inventory[..|e.inventory|] == e.inventory;
    }

    /** One repository of `reconcileConsumer`. */
    method NoteHead(e: Estate, lane: string, id: Repo)
      requires Inv(Contents()) && NUL !in lane
      modifies this`consumers
      ensures Inv(Contents()) && OthersKept(old(consumers), consumers, lane)
      ensures Noted(e, old(consumers), consumers, lane, id)
      ensures forall other :: other != id ==> LaneSame(old(consumers), consumers, lane, other)
    {
      var head := ConsumerHead(e, id);
      ghost var q := Contents();
      if head.Failure? {
        FailConsumerHead(lane, id, head.error);
        OneLane(q, FailHead(lane, id, head.error), q.consumers);
      } else {
        DesireConsumer(lane, id, head.value);
        OneLane(q, Op.DesireConsumer(lane, id, head.value), q.consumers);
      }
    }

    /** One record of a consumer's catch-up. */
    method ReconcileOne(e: Estate, lane: string, target: ConsumerTarget, reconcile: (Repo, Commit) -> Option<ErrorCode>)
      requires Inv(Contents()) && NUL !in lane
      modifies this`consumers
      ensures Inv(Contents()) && OthersKept(old(consumers), consumers, lane)
      ensures Fits(e, old(consumers), lane, target) ==> Ends(e, reconcile, consumers, lane, target.repository)
      ensures Fits(e, old(consumers), lane, target) ==> Fits(e, consumers, lane, target)
      ensures forall repo :: repo != target.repository ==> LaneSame(old(consumers), consumers, lane, repo)
    {
      var repo := target.repository;
      var head := ConsumerHead(e, repo);
      ghost var q := Contents();
      if head.Failure? {
        FailConsumerHead(lane, repo, head.error);
        OneLane(q, FailHead(lane, repo, head.error), q.consumers);
        return;
      }
      if target.target.desired != head.value {
        DesireConsumer(lane, repo, head.value);
        OneLane(q, Op.DesireConsumer(lane, repo, head.value), q.consumers);
      }
      ghost var p := Contents();
      var failure := reconcile(repo, head.value);
      FinishConsumer(lane, repo, head.value, failure);
      OneLane(p, Op.FinishConsumer(lane, repo, head.value, failure), q.consumers);
      forall other | other != repo ensures LaneSame(q.consumers, consumers, lane, other) {
        assert LaneSame(q.consumers, p.consumers, lane, other) && LaneSame(p.consumers, consumers, lane, other);
      }
    }

    /** `catchUpConsumer`.  Every repository of the inventory, and every one the consumer already had a
    record of, ends READY at its head or FAILED with the reason; passed over is only what never was a
    target and is no knowledge repository. */
    method CatchUpConsumer(e: Estate, lane: string, reconcile: (Repo, Commit) -> Option<ErrorCode>)
      requires Inv(Contents()) && NUL !in lane
      modifies this`consumers
      ensures Inv(Contents()) && OthersKept(old(consumers), consumers, lane)
      ensures forall id, head :: id in e.inventory && HasHead(e, id, head) && reconcile(id, head).None? ==>
        ConsumerAtHead(consumers, lane, id, head)
      ensures forall id :: id in e.inventory || ConsumerKey(lane, id) in old(consumers) ==>
        if ConsumerKey(lane, id) !in old(consumers) && LacksHead(e, id, CapabilityUnsatisfied) then ConsumerKey(lane, id) !in consumers
        else Ends(e, reconcile, consumers, lane, id)
      ensures forall id :: id !in e.inventory && ConsumerKey(lane, id) !in old(consumers) ==> ConsumerKey(lane, id) !in consumers
    {
      ghost var was := consumers;
      ReconcileConsumer(e, lane);
      var listed := ListConsumers(lane);
      forall k | 0 <= k < |listed| ensures Fits(e, consumers, lane, listed[k]) {
        assert listed[k] in listed;
      }
      ghost var q := Contents();
      ListedAnswer(q, lane, listed);
      for i := 0 to |listed|
        invariant Inv(Contents()) && OthersKept(was, consumers, lane)
        invariant LaneEnded(e, reconcile, q.consumers, consumers, lane, listed, i)
      {
        ghost var before := consumers;
        ReconcileOne(e, lane, listed[i], reconcile);
        KeptTwice(was, before, consumers, lane);
        LaneEndedNext(e, reconcile, q.consumers, before, consumers, lane, listed, i);
      }
      forall id | id in e.inventory || ConsumerKey(lane, id) in was
        ensures if ConsumerKey(lane, id) !in was && LacksHead(e, id, CapabilityUnsatisfied) then ConsumerKey(lane, id) !in consumers
                else Ends(e, reconcile, consumers, lane, id)
      {
        LaneAnswers(e, reconcile, was, q.consumers, consumers, lane, listed, id);
        ConsumerHeadIff(e, id);
        assert if id in e.inventory then Noted(e, was, q.consumers, lane, id) else LaneSame(was, q.consumers, lane, id);
      }
      forall id | id !in e.inventory && ConsumerKey(lane, id) !in was ensures ConsumerKey(lane, id) !in consumers {
        assert LaneSame(was, q.consumers, lane, id);
        LaneAnswers(e, reconcile, was, q.consumers, consumers, lane, listed, id);
      }
    }
  }

  /** A consumer's record of a repository after the catch-up. */
  predicate Ends(e: Estate, reconcile: (Repo, Commit) -> Option<ErrorCode>, consumers: map<string, ConsumerTarget>, lane: string, repo: Repo)
  {
    var key := ConsumerKey(lane, repo);
    && key in consumers
    && var t := consumers[key].target;
       match e.lookup(repo)
       case Failure(error) => t.status == Failed && t.lastError == Some(error)
       case Success(None) => t.status == Failed && t.lastError == Some(CapabilityUnsatisfied)
       case Success(Some(Failure(error))) => t.status == Failed && t.lastError == Some(error)
       case Success(Some(Success(head))) =>
         if head == "" then t.status == Failed && t.lastError == Some(Unavailable("version unresolved"))
         else if reconcile(repo, head).None? then t == Target(head, head, Ready, None)
         else FailedAt(t, head, reconcile(repo, head).value)
  }

  /** Every record of the lane is listed under its repository. */
  ghost predicate Answering(consumers: map<string, ConsumerTarget>, lane: string, listed: seq<ConsumerTarget>)
  {
    forall repo: Repo :: ConsumerKey(lane, repo) in consumers <==> ListedAt(listed, repo)
  }

  ghost predicate ListedAt(listed: seq<ConsumerTarget>, repo: Repo)
  {
    exists k :: 0 <= k < |listed| && listed[k].repository == repo
  }

  lemma ListedAnswer(q: Queue, lane: string, listed: seq<ConsumerTarget>)
    requires Inv(q) && NUL !in lane
    requires forall c :: c in listed <==> c.consumer == lane && ConsumerKey(lane, c.repository) in q.consumers && q.consumers[ConsumerKey(lane, c.repository)] == c
    ensures Answering(q.consumers, lane, listed)
  {
    forall repo: Repo ensures ConsumerKey(lane, repo) in q.consumers <==> ListedAt(listed, repo) {
      RecordIsOwn(q, lane, repo);
      if ConsumerKey(lane, repo) in q.consumers {
        var c := q.consumers[ConsumerKey(lane, repo)];
        assert c in listed;
        var k :| 0 <= k < |listed| && listed[k] == c;
      }
      if k :| 0 <= k < |listed| && listed[k].repository == repo {
        assert listed[k] in listed;
      }
    }
  }

  /** The first records have ended, the others still have their place; what is not listed is untouched. */
  ghost predicate LaneEnded(e: Estate, reconcile: (Repo, Commit) -> Option<ErrorCode>, was: map<string, ConsumerTarget>,
                            now: map<string, ConsumerTarget>, lane: string, listed: seq<ConsumerTarget>, i: nat)
  {
    && i <= |listed|
    && (forall k :: 0 <= k < |listed| ==> Fits(e, now, lane, listed[k]))
    && (forall k :: 0 <= k < i ==> Ends(e, reconcile, now, lane, listed[k].repository))
    && (forall repo: Repo :: !ListedAt(listed, repo) ==> LaneSame(was, now, lane, repo))
  }

  lemma LaneEndedNext(e: Estate, reconcile: (Repo, Commit) -> Option<ErrorCode>, was: map<string, ConsumerTarget>,
                      before: map<string, ConsumerTarget>, now: map<string, ConsumerTarget>, lane: string, listed: seq<ConsumerTarget>, i: nat)
    requires LaneEnded(e, reconcile, was, before, lane, listed, i) && i < |listed|
    requires Ends(e, reconcile, now, lane, listed[i].repository) && Fits(e, now, lane, listed[i])
    requires forall repo :: repo != listed[i].repository ==> LaneSame(before, now, lane, repo)
    ensures LaneEnded(e, reconcile, was, now, lane, listed, i + 1)
  {
    forall k | 0 <= k < |listed| ensures Fits(e, now, lane, listed[k]) {
      assert Fits(e, before, lane, listed[k]);
      if listed[k].repository != listed[i].repository {
        assert LaneSame(before, now, lane, listed[k].repository);
      } else {
        EndsFits(e, reconcile, now, lane, listed[k]);
      }
    }
    forall k | 0 <= k < i + 1 ensures Ends(e, reconcile, now, lane, listed[k].repository) {
      if listed[k].repository != listed[i].repository {
        assert Ends(e, reconcile, before, lane, listed[k].repository) && LaneSame(before, now, lane, listed[k].repository);
      }
    }
    forall repo: Repo | !ListedAt(listed, repo) ensures LaneSame(was, now, lane, repo) {
      assert repo != listed[i].repository;
      assert LaneSame(was, before, lane, repo) && LaneSame(before, now, lane, repo);
    }
  }

  lemma EndsFits(e: Estate, reconcile: (Repo, Commit) -> Option<ErrorCode>, now: map<string, ConsumerTarget>, lane: string, listed: ConsumerTarget)
    requires Ends(e, reconcile, now, lane, listed.repository)
    ensures Fits(e, now, lane, listed)
  {
    ConsumerHeadIff(e, listed.repository);
  }

  /** What the catch-up leaves of one repository. */
  lemma LaneAnswers(e: Estate, reconcile: (Repo, Commit) -> Option<ErrorCode>, was: map<string, ConsumerTarget>,
                    noted: map<string, ConsumerTarget>, now: map<string, ConsumerTarget>, lane: string, listed: seq<ConsumerTarget>, repo: Repo)
    requires Answering(noted, lane, listed) && LaneEnded(e, reconcile, noted, now, lane, listed, |listed|)
    ensures ConsumerKey(lane, repo) in noted ==> Ends(e, reconcile, now, lane, repo)
    ensures ConsumerKey(lane, repo) !in noted ==> ConsumerKey(lane, repo) !in now
  {
    if k :| 0 <= k < |listed| && listed[k].repository == repo {
      assert Ends(e, reconcile, now, lane, listed[k].repository);
    }
    if !ListedAt(listed, repo) {
      assert LaneSame(noted, now, lane, repo);
    }
  }

  predicate ConsumerAtHead(consumers: map<string, ConsumerTarget>, lane: string, repo: Repo, head: Commit)
  {
    var key := ConsumerKey(lane, repo);
    key in consumers && consumers[key].target.status == Ready && consumers[key].target.desired == head && consumers[key].target.applied == head
  }

  /** What reconciling leaves of one repository: desired at its head, or failed without one; only
  what never was a target and is no knowledge repository is passed over. */
  predicate Noted(e: Estate, was: map<string, ConsumerTarget>, now: map<string, ConsumerTarget>, lane: string, repo: Repo)
  {
    var key := ConsumerKey(lane, repo);
    match ConsumerHead(e, repo)
    case Success(head) => key in now && now[key].target.desired == head
    case Failure(error) =>
      if key !in was && error == CapabilityUnsatisfied then key !in now
      else key in now && now[key].target.status == Failed && now[key].target.lastError == Some(error)
  }

  /** The listed repositories are noted, the lane's other records are as they were. */
  ghost predicate AllNoted(e: Estate, was: map<string, ConsumerTarget>, now: map<string, ConsumerTarget>, lane: string, done: seq<Repo>)
  {
    && (forall repo :: repo in done ==> Noted(e, was, now, lane, repo))
    && (forall repo :: repo !in done ==> LaneSame(was, now, lane, repo))
  }

  lemma NotedNext(e: Estate, was: map<string, ConsumerTarget>, before: map<string, ConsumerTarget>, now: map<string, ConsumerTarget>,
                  lane: string, done: seq<Repo>, id: Repo)
    requires AllNoted(e, was, before, lane, done) && Noted(e, before, now, lane, id)
    requires forall other :: other != id ==> LaneSame(before, now, lane, other)
    ensures AllNoted(e, was, now, lane, done + [id])
  {
    forall repo | repo in done + [id] ensures Noted(e, was, now, lane, repo) {
      if repo != id {
        assert Noted(e, was, before, lane, repo) && LaneSame(before, now, lane, repo);
      } else {
        assert if id in done then Noted(e, was, before, lane, id) else LaneSame(was, before, lane, id);
      }
    }
    forall repo | repo !in done + [id] ensures LaneSame(was, now, lane, repo) {
      assert repo !in done && repo != id;
      assert LaneSame(was, before, lane, repo) && LaneSame(before, now, lane, repo);
    }
  }

  /** A listed record still has its place in the queue, and if it desired the head it does so now. */
  predicate Fits(e: Estate, consumers: map<string, ConsumerTarget>, lane: string, listed: ConsumerTarget)
  {
    var key, head := ConsumerKey(lane, listed.repository), ConsumerHead(e, listed.repository);
    key in consumers && (head.Success? && listed.target.desired == head.value ==> consumers[key].target.desired == head.value)
  }

  /** Records of other consumers are the same, and no others appeared. */
  ghost predicate OthersKept(a: map<string, ConsumerTarget>, b: map<string, ConsumerTarget>, lane: string)
  {
    forall id: string, repo: Repo :: NUL !in id && id != lane ==> LaneSame(a, b, id, repo)
  }

  predicate LaneSame(a: map<string, ConsumerTarget>, b: map<string, ConsumerTarget>, id: string, repo: Repo)
  {
    var key := ConsumerKey(id, repo);
    (key in a <==> key in b) && (key in a ==> a[key] == b[key])
  }

  lemma KeptTwice(a: map<string, ConsumerTarget>, b: map<string, ConsumerTarget>, c: map<string, ConsumerTarget>, lane: string)
    requires OthersKept(a, b, lane) && OthersKept(b, c, lane)
    ensures OthersKept(a, c, lane)
  {
    forall id: string, repo: Repo | NUL !in id && id != lane ensures LaneSame(a, c, id, repo) {
      assert LaneSame(a, b, id, repo) && LaneSame(b, c, id, repo);
    }
  }

  /** One transaction of one consumer. */
  lemma OneLane(q: Queue, op: Op, base: map<string, ConsumerTarget>)
    requires Inv(q) && Lawful(op) && (op.DesireConsumer? || op.FinishConsumer? || op.FailHead?)
    requires OthersKept(base, q.consumers, op.id)
    ensures Inv(Apply(q, op)) && OthersKept(base, Apply(q, op).consumers, op.id)
    ensures q.consumers.Keys <= Apply(q, op).consumers.Keys
    ensures forall repo :: repo != op.repo ==> LaneSame(q.consumers, Apply(q, op).consumers, op.id, repo)
  {
    var n := Apply(q, op);
    ApplyKeeps(q, op);
    forall id: string, repo: Repo | NUL !in id && (id != op.id || repo != op.repo) ensures LaneSame(q.consumers, n.consumers, id, repo) {
      KeysAreDistinct(id, op.id, repo, op.repo);
    }
    forall id: string, repo: Repo | NUL !in id && id != op.id ensures LaneSame(base, n.consumers, id, repo) {
      assert LaneSame(base, q.consumers, id, repo) && LaneSame(q.consumers, n.consumers, id, repo);
    }
  }

  /** A record after `applyPending`, and where the index serves. */
  predicate Settled(e: Estate, was: Target, now: Target, before: Serving, serving: Serving, repo: Repo)
  {
    if Aligned(e, repo, was) then now == was && SameServing(before, serving, repo)
    else
      && now.desired == was.desired
      && match Unsettled(e, repo, was.desired)
         case None => now.status == Ready && now.applied == was.desired && now.lastError.None? && ServesAt(serving, repo, was.desired)
         case Some(error) => now.status == Failed && now.applied == was.applied && now.lastError == Some(error)
  }

  /** Why a repository cannot be brought to a commit: it is not attached, or the index refuses. */
  function Unsettled(e: Estate, repo: Repo, commit: Commit): Option<ErrorCode>
  {
    if Unattached(e, repo).Some? then Unattached(e, repo)
    else
      match e.ensure(repo, commit)
      case Built => None
      case Refused(error, _) => Some(error)
  }

  /** The target is where it should be: READY where it is desired, and that is the head if there is one. */
  ghost predicate InPlace(e: Estate, repo: Repo, t: Target)
  {
    t.status == Ready && t.applied == t.desired && forall head :: HasHead(e, repo, head) ==> t.desired == head
  }

  /** The attempt to bring the repository to the commit fails so. */
  predicate Refuses(e: Estate, repo: Repo, commit: Commit, error: ErrorCode)
  {
    match e.lookup(repo)
    case Failure(lookupError) => error == lookupError
    case Success(None) => error == CapabilityUnsatisfied
    case Success(Some(_)) => e.ensure(repo, commit).Refused? && e.ensure(repo, commit).error == error
  }

  predicate Accepts(e: Estate, repo: Repo, commit: Commit)
  {
    e.lookup(repo).Success? && e.lookup(repo).value.Some? && e.ensure(repo, commit).Built?
  }

  predicate FailedAt(t: Target, commit: Commit, error: ErrorCode)
  {
    t.status == Failed && t.desired == commit && t.lastError == Some(error)
  }

  /** A target after the catch-up, desired where it was before: left alone in its place, else READY
  there or FAILED with the reason. */
  ghost predicate SettledThere(e: Estate, was: Target, now: Target, before: Serving, serving: Serving, repo: Repo)
  {
    && (InPlace(e, repo, was) ==> now == was && SameServing(before, serving, repo))
    && (!InPlace(e, repo, was) && Accepts(e, repo, was.desired) ==>
          now == Target(was.desired, was.desired, Ready, None) && ServesAt(serving, repo, was.desired))
    && (!InPlace(e, repo, was) ==> forall error :: Refuses(e, repo, was.desired, error) ==>
          FailedAt(now, was.desired, error) && now.applied == was.applied)
  }

  lemma SettledMeans(e: Estate, was: Target, now: Target, before: Serving, serving: Serving, repo: Repo)
    requires Settled(e, was, now, before, serving, repo)
    ensures SettledThere(e, was, now, before, serving, repo)
  {
    PublishedIff(e, repo);
    if PublishedHead(e, repo).Some? {
      assert HasHead(e, repo, PublishedHead(e, repo).value);
    }
    assert Aligned(e, repo, was) <==> InPlace(e, repo, was);
  }

  /** A repository of the inventory after the catch-up. */
  predicate CaughtUp(e: Estate, was: map<Repo, Target>, now: map<Repo, Target>, before: Serving, serving: Serving, repo: Repo, head: Commit)
  {
    if Satisfied(e, was, before, repo, head) then SameAt(was, now, repo) && SameServing(before, serving, repo)
    else
      && repo in now
      && match e.ensure(repo, head)
         case Built => AtHead(now, serving, repo, head)
         case Refused(error, _) => FailedAt(now[repo], head, error)
  }

  /** What the first repositories of the inventory have come to. */
  ghost predicate AllDirected(e: Estate, was: map<Repo, Target>, now: map<Repo, Target>, serving: Serving,
                              consumers: map<string, ConsumerTarget>, done: seq<Repo>)
  {
    && (forall id, head :: id in done && HasHead(e, id, head) ==> Directed(e, was, now, serving, id, head))
    && (forall id, head :: id in done && HasHead(e, id, head) ==> LanesDirected(e, was, serving, consumers, id, head))
    && (forall repo :: repo !in done || !Published(e, repo) ==> SameAt(was, now, repo))
  }

  lemma SatisfiedStays(e: Estate, was: map<Repo, Target>, now: map<Repo, Target>, serving: Serving, consumers: map<string, ConsumerTarget>,
                       done: seq<Repo>, id: Repo, head: Commit)
    requires AllDirected(e, was, now, serving, consumers, done) && HasHead(e, id, head) && Satisfied(e, was, serving, id, head)
    ensures Directed(e, was, now, serving, id, head)
  {
    assert id !in done ==> SameAt(was, now, id);
  }

  lemma DirectedNext(e: Estate, was: map<Repo, Target>, before: map<Repo, Target>, now: map<Repo, Target>, serving: Serving,
                     lanes: map<string, ConsumerTarget>, consumers: map<string, ConsumerTarget>, done: seq<Repo>, id: Repo)
    requires AllDirected(e, was, before, serving, lanes, done)
    requires forall head :: HasHead(e, id, head) ==> Directed(e, was, now, serving, id, head) && LanesDirected(e, was, serving, consumers, id, head)
    requires !Published(e, id) ==> now == before && consumers == lanes
    requires forall repo :: repo != id ==> SameAt(before, now, repo)
    requires NulFree(e.lanes) ==> forall lane: string, repo: Repo :: NUL !in lane && repo != id ==> LaneSame(lanes, consumers, lane, repo)
    ensures AllDirected(e, was, now, serving, consumers, done + [id])
  {
    forall other, head | other in done + [id] && HasHead(e, other, head)
      ensures Directed(e, was, now, serving, other, head) && LanesDirected(e, was, serving, consumers, other, head)
    {
      if other != id {
        assert Directed(e, was, before, serving, other, head) && SameAt(before, now, other);
        LanesStay(e, was, serving, lanes, consumers, other, id, head);
      }
    }
    forall repo | repo !in done + [id] || !Published(e, repo) ensures SameAt(was, now, repo) {
      assert repo !in done || !Published(e, repo);
      assert SameAt(was, before, repo);
      assert repo != id ==> SameAt(before, now, repo);
    }
  }

  lemma LanesStay(e: Estate, was: map<Repo, Target>, serving: Serving, lanes: map<string, ConsumerTarget>, consumers: map<string, ConsumerTarget>,
                  repo: Repo, id: Repo, head: Commit)
    requires LanesDirected(e, was, serving, lanes, repo, head) && repo != id
    requires NulFree(e.lanes) ==> forall lane: string, other: Repo :: NUL !in lane && other != id ==> LaneSame(lanes, consumers, lane, other)
    ensures LanesDirected(e, was, serving, consumers, repo, head)
  {
    if NulFree(e.lanes) && !Satisfied(e, was, serving, repo, head) {
      forall lane | lane in e.lanes ensures ConsumerDesires(consumers, lane, repo, head) {
        assert ConsumerDesires(lanes, lane, repo, head) && LaneSame(lanes, consumers, lane, repo);
      }
    }
  }

  lemma SettledSince(e: Estate, was: Target, now: Target, before: Serving, served: Serving, serving: Serving, repo: Repo)
    requires SameServing(before, served, repo) && Settled(e, was, now, served, serving, repo)
    ensures Settled(e, was, now, before, serving, repo)
  {}

  predicate SameServing(a: Serving, b: Serving, repo: Repo)
  {
    (repo in a <==> repo in b) && (repo in a ==> a[repo] == b[repo])
  }

  predicate SameAt(a: map<Repo, Target>, b: map<Repo, Target>, repo: Repo)
  {
    (repo in a <==> repo in b) && (repo in a ==> a[repo] == b[repo])
  }
}
