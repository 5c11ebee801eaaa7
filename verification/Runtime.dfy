/** The durable record and one run of it, edited in place (integrationruntime/runtime.go).

The edits are the functions the state machine of `Publication` is made of; `Run` is the
body of one run, with what the outside world answered given as a parameter. */
module Runtime {
  import opened Kernel
  import opened Publication
  import Reconcile
  import PreviewMeaning

  /** What the login, the Writer and the Collector answered; a later answer is consulted
  only if the run gets that far. */
  datatype Answers = Answers(
    owner: Result<string>, head: Result<Commit>, collection: Result<Collection>, response: Response)

  /** The command the run puts to the Writer: the recovered one, or the one just diffed. */
  ghost predicate Sends(r: Record, answers: Answers, p: Pending)
  {
    && answers.owner == Success(r.owner)
    && if r.pending.Some? then p == r.pending.value
       else
         && answers.head.Success? && answers.collection.Success?
         && var preview := Reconcile.PreviewOf(PlanOf(r, answers.head.value, answers.collection.value));
            preview.Success? && !preview.value.empty
            && p == PendingOf(r, answers.collection.value.cursor, preview.value.changeSet)
  }

  /** The run finds nothing to publish at the head it read. */
  ghost predicate FindsNothing(r: Record, answers: Answers)
  {
    && answers.owner == Success(r.owner) && r.pending.None?
    && answers.head.Success? && answers.collection.Success?
    && var preview := Reconcile.PreviewOf(PlanOf(r, answers.head.value, answers.collection.value));
       preview.Success? && preview.value.empty
  }

  predicate Acknowledged(response: Response)
  {
    response.Receipt? && response.commit != ""
  }

  predicate RejectedBy(response: Response)
  {
    response.Error? && PublicationWasRejected(response.code)
  }

  /** The error of a run that took the lease, stage by stage; what a later stage would answer does
  not matter once an earlier one has failed. */
  ghost predicate FailsAs(r: Record, answers: Answers, failure: Option<ErrorCode>)
  {
    && (answers.owner.Failure? ==> failure == Some(answers.owner.error))
    && (answers.owner.Success? && answers.owner.value != r.owner ==> failure == Some(TargetRepositoryDenied))
    && (answers.owner == Success(r.owner) && r.pending.None? ==>
          && (answers.head.Failure? ==> failure == Some(answers.head.error))
          && (answers.head.Success? && answers.collection.Failure? ==> failure == Some(answers.collection.error))
          && (answers.head.Success? && answers.collection.Success? ==>
                var preview := Reconcile.PreviewOf(PlanOf(r, answers.head.value, answers.collection.value));
                preview.Failure? ==> failure == Some(preview.error)))
    && (forall p :: Sends(r, answers, p) ==>
          && (answers.response.Error? ==> failure == Some(answers.response.code))
          && (answers.response == Receipt("") ==> failure == Some(TemporaryUnavailable)))
  }

  /** The whole effect of one run that could take the lease and kept it. */
  ghost predicate Ran(before: Record, after: Record, answers: Answers, failure: Option<ErrorCode>)
  {
    && after.(checkpoint := before.checkpoint, pending := before.pending, phase := before.phase, lastError := before.lastError) ==
       before.(leaseId := "", leaseUntil := 0, runs := before.runs + 1)
    && (failure.None? <==>
          FindsNothing(before, answers) || (Acknowledged(answers.response) && exists p :: Sends(before, answers, p)))
    && FailsAs(before, answers, failure)
    && (FindsNothing(before, answers) ==>
          && after.checkpoint == Checkpoint(answers.collection.value.cursor, answers.head.value)
          && after.phase == UNCHANGED && after.pending.None?)
    && (forall p :: Sends(before, answers, p) ==> Settles(p, after, answers.response))
    && (forall p :: Sends(before, answers, p) && Acknowledged(answers.response) ==> after.phase == PUBLISHED)
    && (failure.None? ==> after.lastError.None?)
    && (failure.Some? ==> after.checkpoint == before.checkpoint && after.phase == FAILED && after.lastError == failure)
    && (failure.Some? && (forall p :: !Sends(before, answers, p)) ==> after.pending == before.pending)
  }

  /** A run can take the lease: the integration is active, and nobody holds a lease that lasts. */
  predicate CanRun(r: Record, now: int)
  {
    r.active && (r.leaseId == "" || r.leaseUntil <= now)
  }

  /** A command a run makes itself is bound to its integration, and asks for exactly what the
  Collector's answer asks for at the head that was read. */
  lemma SentIsBound(r: Record, answers: Answers, p: Pending)
    requires Sends(r, answers, p) && r.pending.None?
    ensures p.command.connector == r.manifest.id && p.command.content == p.changeSet
    ensures p.cursor == answers.collection.value.cursor
    ensures p.changeSet.expectedTargetCommit == answers.head.value
    ensures p.changeSet.targetRepository == r.manifest.repository && (r.manifest.ref != "" ==> p.changeSet.targetRef == r.manifest.ref)
    ensures r.owner != "" ==> p.changeSet.provenance.actorRef == r.owner
    ensures p.changeSet.provenance.sourceRefs == answers.collection.value.sourceRefs
    ensures exists plan: Reconcile.Plan ::
      && plan.mode == r.manifest.mode && plan.scope == r.manifest.scope
      && plan.desired == answers.collection.value.desired && plan.observed == answers.collection.value.observed
      && forall op :: op in p.changeSet.operations <==> PreviewMeaning.AskedFor(plan, op)
  {
    PreviewMeaning.PreviewMeans(PlanOf(r, answers.head.value, answers.collection.value));
  }

  /** What the body of a run, holding the lease throughout, leaves behind. */
  ghost predicate Worked(before: Record, after: Record, answers: Answers, failure: Option<ErrorCode>)
  {
    && after.(checkpoint := before.checkpoint, pending := before.pending, phase := before.phase, lastError := before.lastError) == before
    && (failure.None? <==>
          FindsNothing(before, answers) || (Acknowledged(answers.response) && exists p :: Sends(before, answers, p)))
    && FailsAs(before, answers, failure)
    && (failure.None? ==> after.lastError.None?)
    && (FindsNothing(before, answers) ==>
          && after.checkpoint == Checkpoint(answers.collection.value.cursor, answers.head.value)
          && after.phase == UNCHANGED && after.pending.None?)
    && (forall p :: Sends(before, answers, p) ==> Settles(p, after, answers.response))
    && (forall p :: Sends(before, answers, p) && Acknowledged(answers.response) ==> after.phase == PUBLISHED)
    && (failure.Some? ==> after.checkpoint == before.checkpoint)
    && (failure.Some? && (forall p :: !Sends(before, answers, p)) ==> after == before)
  }

  /** The fate of a command that was put to the Writer. */
  ghost predicate Settles(p: Pending, after: Record, response: Response)
  {
    && (Acknowledged(response) ==> after.checkpoint == Checkpoint(p.cursor, response.commit) && after.pending.None?)
    && (RejectedBy(response) ==> after.pending.None?)
    && (!Acknowledged(response) && !RejectedBy(response) ==> after.pending == Some(p))
  }

  /** A recovered command is the one that is settled; nothing is collected for it. */
  lemma RecoveredIsSettled(before: Record, after: Record, answers: Answers, failure: Option<ErrorCode>)
    requires Worked(before, after, answers, failure) && before.pending.Some?
    ensures after.pending.Some? ==> after.pending == before.pending
    ensures after.pending.None? ==>
      || (RejectedBy(answers.response) && after.checkpoint == before.checkpoint)
      || (Acknowledged(answers.response) && after.checkpoint == Checkpoint(before.pending.value.cursor, answers.response.commit))
  {
    var p := before.pending.value;
    if answers.owner == Success(before.owner) {
      assert Sends(before, answers, p);
    } else {
      assert forall q :: !Sends(before, answers, q);
    }
  }

  /** What the release of the lease makes of the body's effect. */
  lemma WorkedIsRan(before: Record, leased: Record, worked: Record, answers: Answers, failure: Option<ErrorCode>)
    requires leased == before.(leaseId := leased.leaseId, leaseUntil := leased.leaseUntil, phase := RUNNING, runs := before.runs + 1)
    requires Worked(leased, worked, answers, failure)
    ensures Ran(before, Unleased(worked, failure), answers, failure)
  {
    var after := Unleased(worked, failure);
    LeaseAsksAlike(before, leased, answers, failure);
    forall p ensures Settles(p, worked, answers.response) <==> Settles(p, after, answers.response) {}
  }

  /** Lease, phase and run count make no difference to what a run asks for. */
  lemma LeaseAsksAlike(before: Record, leased: Record, answers: Answers, failure: Option<ErrorCode>)
    requires leased == before.(leaseId := leased.leaseId, leaseUntil := leased.leaseUntil, phase := RUNNING, runs := before.runs + 1)
    ensures forall p :: Sends(leased, answers, p) <==> Sends(before, answers, p)
    ensures FindsNothing(leased, answers) <==> FindsNothing(before, answers)
    ensures FailsAs(leased, answers, failure) <==> FailsAs(before, answers, failure)
  {
    if answers.head.Success? && answers.collection.Success? {
      assert PlanOf(leased, answers.head.value, answers.collection.value) == PlanOf(before, answers.head.value, answers.collection.value);
    }
    forall p ensures Sends(leased, answers, p) <==> Sends(before, answers, p) {}
  }

  /** The record after the Writer's answer to its pending command. */
  function AfterResponse(r: Record, p: Pending, response: Response): Record
  {
    if Acknowledged(response) then Advanced(r, p, response.commit)
    else if RejectedBy(response) then WithoutPending(r)
    else r
  }

  lemma WorkedWithout(before: Record, answers: Answers)
    requires FindsNothing(before, answers)
    ensures Worked(before, WithoutChange(before, answers.collection.value.cursor, answers.head.value), answers, None)
  {
    assert forall p :: !Sends(before, answers, p);
  }

  lemma WorkedWith(before: Record, p: Pending, answers: Answers, failure: Option<ErrorCode>)
    requires Sends(before, answers, p) && (failure.None? <==> Acknowledged(answers.response))
    requires answers.response.Error? ==> failure == Some(answers.response.code)
    requires answers.response == Receipt("") ==> failure == Some(TemporaryUnavailable)
    ensures Worked(before, AfterResponse(if before.pending.Some? then before else WithPending(before, p), p, answers.response), answers, failure)
  {
    OnlyOneSends(before, p, answers);
    SentFailsAs(before, p, answers, failure);
    SentSettles(before, p, answers.response);
  }

  lemma SentFailsAs(before: Record, p: Pending, answers: Answers, failure: Option<ErrorCode>)
    requires Sends(before, answers, p)
    requires answers.response.Error? ==> failure == Some(answers.response.code)
    requires answers.response == Receipt("") ==> failure == Some(TemporaryUnavailable)
    ensures FailsAs(before, answers, failure)
  {
  }

  lemma SentSettles(before: Record, p: Pending, response: Response)
    ensures var after := AfterResponse(if before.pending.Some? then before else WithPending(before, p), p, response);
      && (before.pending.Some? ==> before.pending.value == p) ==> Settles(p, after, response)
  {
  }

  lemma OnlyOneSends(before: Record, p: Pending, answers: Answers)
    requires Sends(before, answers, p)
    ensures !FindsNothing(before, answers) && forall q :: Sends(before, answers, q) ==> q == p
  {
  }

  // ---------------------------------------------------------------------------- activation

  /** The manifest names its integration, artifact, server and repository, runs every second to every
  day, takes ten minutes at most, and has a mode and a scope. */
  predicate Sensible(m: Manifest)
  {
    && TrimSpace(m.id) != "" && "" !in {m.artifactId, m.server, m.repository}
    && m.intervalSeconds >= 1 && m.intervalSeconds <= 24 * 60 * 60 && m.timeoutSeconds >= 0 && m.timeoutSeconds <= 10 * 60
    && m.mode in {Reconcile.Patch, Reconcile.Mode.Reconcile} && m.scope.Valid()
  }

  /** What is left open is filled in: the default branch, and half a minute. */
  predicate Fills(asked: Manifest, m: Manifest)
  {
    && m == asked.(ref := m.ref, timeoutSeconds := m.timeoutSeconds)
    && (asked.ref != "" ==> m.ref == asked.ref) && (asked.ref == "" ==> m.ref == "refs/heads/main")
    && (asked.timeoutSeconds != 0 ==> m.timeoutSeconds == asked.timeoutSeconds) && (asked.timeoutSeconds == 0 ==> m.timeoutSeconds == 30)
  }

  /** The integration stands for another owner or another target. */
  ghost predicate StandsElsewhere(prior: Record, asked: Manifest, owner: string)
  {
    prior.owner != owner || prior.manifest.repository != asked.repository || prior.manifest.server != asked.server ||
    exists m :: Fills(asked, m) && prior.manifest.ref != m.ref
  }

  predicate Occupied(prior: Record, now: int)
  {
    prior.pending.Some? || (prior.leaseId != "" && now < prior.leaseUntil)
  }

  /** The record of a fresh activation, which keeps what the integration has come to. */
  predicate Activated(previous: Option<Record>, asked: Manifest, artifact: string, owner: string, r: Record)
  {
    && Fills(asked, r.manifest) && r.artifact == artifact && r.owner == owner && r.active && r.phase == ACTIVE
    && r.pending == None && r.lastError == None && r.leaseId == ""
    && (if previous.Some? then r.checkpoint == previous.value.checkpoint && r.runs == previous.value.runs
        else r.checkpoint == Checkpoint("", "") && r.runs == 0)
  }

  /** When an integration can be activated, why not, and what it is then. */
  lemma ActivationMeans(previous: Option<Record>, asked: Manifest, artifact: string, owner: string, now: int)
    ensures
      var r := Activation(previous, asked, artifact, owner, now);
      && (!Sensible(asked) ==> r == Failure(UsageInvalid))
      && (Sensible(asked) && previous.Some? && StandsElsewhere(previous.value, asked, owner) ==> r == Failure(TargetRepositoryDenied))
      && (Sensible(asked) && previous.Some? && !StandsElsewhere(previous.value, asked, owner) && Occupied(previous.value, now) ==>
            r == Failure(PreconditionFailed))
      && (Sensible(asked) && (previous.Some? ==> !StandsElsewhere(previous.value, asked, owner) && !Occupied(previous.value, now)) ==>
            r.Success? && Activated(previous, asked, artifact, owner, r.value))
  {
    assert Fills(asked, Completed(asked));
    forall m | Fills(asked, m) ensures m == Completed(asked) {}
  }

  class Store {
    var record: Option<Record>

    constructor ()
      ensures record == None
    {
      record := None;
    }

    method Activate(manifest: Manifest, artifact: string, owner: string, now: int) returns (r: Result<Record>)
      modifies this
      ensures r == Activation(old(record), manifest, artifact, owner, now)
      ensures r.Success? ==> Sensible(manifest) && Activated(old(record), manifest, artifact, owner, r.value)
      ensures r.Success? && old(record).Some? ==> !StandsElsewhere(old(record).value, manifest, owner) && !Occupied(old(record).value, now)
      ensures record == if r.Success? then Some(r.value) else old(record)
      ensures r.Success? && old(record).Some? ==> old(record).value.pending.None?
      ensures r.Success? && old(record).Some? ==> record.value.checkpoint == old(record).value.checkpoint
      ensures r.Success? && old(record).Some? ==> record.value.owner == old(record).value.owner
    {
      ActivationMeans(record, manifest, artifact, owner, now);
      r := Activation(record, manifest, artifact, owner, now);
      if r.Success? {
        record := Some(r.value);
      }
    }

    method Pause(owner: string, paused: bool) returns (r: Result<bool>)
      modifies this
      ensures old(record).None? ==> r == Failure(UsageInvalid) && record == None
      ensures old(record).Some? && old(record).value.owner != owner ==> r == Failure(TargetRepositoryDenied) && record == old(record)
      ensures old(record).Some? && old(record).value.owner == owner ==>
        r.Success? && record == Some(old(record).value.(active := !paused))
    {
      if record.None? {
        return Failure(UsageInvalid);
      }
      if owner != record.value.owner {
        return Failure(TargetRepositoryDenied);
      }
      record := Some(record.value.(active := !paused));
      return Success(paused);
    }

    method Acquire(run: RunId, now: int) returns (r: Result<Record>)
      modifies this
      ensures old(record).None? ==> r == Failure(UsageInvalid)
      ensures old(record).Some? ==> r == Acquired(old(record).value, run, now)
      ensures record == if r.Success? then Some(r.value) else old(record)
    {
      if record.None? {
        return Failure(UsageInvalid);
      }
      r := Acquired(record.value, run, now);
      if r.Success? {
        record := Some(r.value);
      }
    }

    /** `update`: the edit is refused once another run holds the lease. */
    method Edit(run: RunId, edited: Record) returns (held: bool)
      requires record.Some?
      modifies this
      ensures held == (old(record).value.leaseId == run)
      ensures record == Some(Update(old(record).value, run, edited))
    {
      held := record.value.leaseId == run;
      if held {
        record := Some(edited);
      }
    }

    /** Recover the stored command, or collect, diff and store one; none when nothing changed. */
    method Prepare(run: RunId, answers: Answers) returns (r: Result<Option<Pending>>)
      requires record.Some? && record.value.leaseId == run && answers.owner == Success(record.value.owner)
      modifies this
      ensures record.Some? && record.value.leaseId == run
      ensures r.Failure? ==> record == old(record) && !FindsNothing(old(record).value, answers) && forall p :: !Sends(old(record).value, answers, p)
      ensures r.Failure? ==> FailsAs(old(record).value, answers, Some(r.error))
      ensures r.Success? && r.value.None? ==> FindsNothing(old(record).value, answers)
      ensures r.Success? && r.value.None? ==>
        record.value == WithoutChange(old(record).value, answers.collection.value.cursor, answers.head.value)
      ensures r.Success? && r.value.Some? ==> Sends(old(record).value, answers, r.value.value)
      ensures r.Success? && r.value.Some? ==>
        record.value == (if old(record).value.pending.Some? then old(record).value else WithPending(old(record).value, r.value.value))
    {
      var value := record.value;
      if value.pending.Some? {
        return Success(value.pending);
      }
      if answers.head.Failure? {
        return Failure(answers.head.error);
      }
      if answers.collection.Failure? {
        return Failure(answers.collection.error);
      }
      var collection := answers.collection.value;
      var preview, _ := Reconcile.Preview(PlanOf(value, answers.head.value, collection));
      if preview.Failure? {
        return Failure(preview.error);
      }
      if preview.value.empty {
        var held := Edit(run, WithoutChange(record.value, collection.cursor, answers.head.value));
        return Success(None);
      }
      var pending := PendingOf(value, collection.cursor, preview.value.changeSet);
      var held := Edit(run, WithPending(record.value, pending));
      return Success(Some(pending));
    }

    /** What the run does with the Writer's answer to the stored command. */
    method Settle(run: RunId, pending: Pending, response: Response) returns (failure: Option<ErrorCode>)
      requires record.Some? && record.value.leaseId == run
      modifies this
      ensures record == Some(AfterResponse(old(record).value, pending, response))
      ensures failure.None? <==> Acknowledged(response)
      ensures response.Error? ==> failure == Some(response.code)
      ensures response == Receipt("") ==> failure == Some(TemporaryUnavailable)
    {
      if response.Error? {
        if PublicationWasRejected(response.code) {
          var held := Edit(run, WithoutPending(record.value));
        }
        return Some(response.code);
      }
      if response.commit == "" {
        return Some(TemporaryUnavailable);
      }
      var held := Edit(run, Advanced(record.value, pending, response.commit));
      return None;
    }

    /** The body between taking and releasing the lease; `failure` is the run's error. */
    method Work(run: RunId, answers: Answers) returns (failure: Option<ErrorCode>)
      requires record.Some? && record.value.leaseId == run
      modifies this
      ensures record.Some? && Worked(old(record).value, record.value, answers, failure)
    {
      if answers.owner.Failure? {
        return Some(answers.owner.error);
      }
      if answers.owner.value != record.value.owner {
        return Some(TargetRepositoryDenied);
      }
      var prepared := Prepare(run, answers);
      if prepared.Failure? {
        return Some(prepared.error);
      }
      if prepared.value.None? {
        WorkedWithout(old(record).value, answers);
        return None;
      }
      failure := Settle(run, prepared.value.value, answers.response);
      WorkedWith(old(record).value, prepared.value.value, answers, failure);
    }

    /** `Run`: take the lease, work, and release it whatever happened. */
    method Run(run: RunId, now: int, answers: Answers) returns (failure: Option<ErrorCode>)
      requires record.Some? && run != ""
      modifies this
      ensures record.Some?
      ensures !CanRun(old(record).value, now) ==> failure == Some(PreconditionFailed) && record == old(record)
      ensures CanRun(old(record).value, now) ==> Ran(old(record).value, record.value, answers, failure)
      ensures failure.Some? ==> record.value.checkpoint == old(record).value.checkpoint
      ensures old(record).value.pending.Some? && record.value.pending.Some? ==> record.value.pending == old(record).value.pending
      ensures old(record).value.pending.Some? && record.value.pending.None? ==>
        || (RejectedBy(answers.response) && record.value.checkpoint == old(record).value.checkpoint)
        || (Acknowledged(answers.response)
            && record.value.checkpoint == Checkpoint(old(record).value.pending.value.cursor, answers.response.commit))
    {
      var acquired := Acquire(run, now);
      if acquired.Failure? {
        return Some(acquired.error);
      }
      ghost var leased := record.value;
      failure := Work(run, answers);
      WorkedIsRan(old(record).value, leased, record.value, answers, failure);
      if leased.pending.Some? {
        RecoveredIsSettled(leased, record.value, answers, failure);
      }
      var held := Edit(run, Unleased(record.value, failure));
    }
  }
}
