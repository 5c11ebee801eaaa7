/** The work queue of the projection controller: desired and applied commits per repository, and
per registered Snapshot consumer (index/controller.go, index/consumer.go). */
module Targets {
  import opened Kernel
  import Text

  type Repo = string
  type Commit = string

  datatype Status = Unset | Pending | Ready | Failed

  datatype Target = Target(desired: Commit, applied: Commit, status: Status, lastError: Option<ErrorCode>)

  datatype ConsumerTarget = ConsumerTarget(consumer: string, repository: Repo, target: Target)

  datatype Queue = Queue(targets: map<Repo, Target>, consumers: map<string, ConsumerTarget>)

  const NUL: char := '\0'

  function ConsumerKey(id: string, repository: Repo): string
  {
    id + [NUL] + repository
  }

  function Blank(): Target
  {
    Target("", "", Unset, None)
  }

  // ------------------------------------------------------------------------ the transactions

  /** `Desire`. */
  function Desired(q: Queue, repo: Repo, commit: Commit): Queue
  {
    var was := if repo in q.targets then q.targets[repo] else Blank();
    q.(targets := q.targets[repo := was.(desired := commit, status := Pending, lastError := None)])
  }

  /** `finish`: the outcome of an attempt, with the basis it reports. */
  function Finished(q: Queue, repo: Repo, attempted: Commit, outcome: Result<Commit>): Queue
  {
    if repo !in q.targets || q.targets[repo].desired != attempted then q
    else
      var was := q.targets[repo];
      q.(targets := q.targets[repo :=
        match outcome
        case Success(basis) => was.(applied := basis, status := Ready, lastError := None)
        case Failure(error) => was.(status := Failed, lastError := Some(error))])
  }

  function ConsumerAt(q: Queue, id: string, repo: Repo): ConsumerTarget
  {
    if ConsumerKey(id, repo) in q.consumers then q.consumers[ConsumerKey(id, repo)] else ConsumerTarget(id, repo, Blank())
  }

  function PutConsumer(q: Queue, id: string, repo: Repo, t: Target): Queue
  {
    q.(consumers := q.consumers[ConsumerKey(id, repo) := ConsumerAt(q, id, repo).(target := t)])
  }

  /** `desireConsumer`: nothing to do when that commit is desired already. */
  function DesiredConsumer(q: Queue, id: string, repo: Repo, commit: Commit): Queue
  {
    var was := ConsumerAt(q, id, repo).target;
    if ConsumerKey(id, repo) in q.consumers && was.desired == commit then q
    else PutConsumer(q, id, repo, was.(desired := commit, status := Pending, lastError := None))
  }

  /** `finishConsumer`. */
  function FinishedConsumer(q: Queue, id: string, repo: Repo, attempted: Commit, failure: Option<ErrorCode>): Queue
  {
    if ConsumerKey(id, repo) !in q.consumers || ConsumerAt(q, id, repo).target.desired != attempted then q
    else
      var was := ConsumerAt(q, id, repo).target;
      PutConsumer(q, id, repo,
        match failure
        case None => was.(applied := attempted, status := Ready, lastError := None)
        case Some(error) => was.(status := Failed, lastError := Some(error)))
  }

  /** `failConsumerHead`: a repository that never was a target and is no knowledge repository is
  passed over. */
  function FailedHead(q: Queue, id: string, repo: Repo, error: ErrorCode): Queue
  {
    if ConsumerKey(id, repo) !in q.consumers && error == CapabilityUnsatisfied then q
    else PutConsumer(q, id, repo, ConsumerAt(q, id, repo).target.(status := Failed, lastError := Some(error)))
  }

  /** Any transaction of any actor. */
  datatype Op =
    | Desire(repo: Repo, commit: Commit)
    | Finish(repo: Repo, attempted: Commit, outcome: Result<Commit>)
    | DesireConsumer(id: string, repo: Repo, commit: Commit)
    | FinishConsumer(id: string, repo: Repo, attempted: Commit, failure: Option<ErrorCode>)
    | FailHead(id: string, repo: Repo, error: ErrorCode)

  function Apply(q: Queue, op: Op): Queue
  {
    match op
    case Desire(repo, commit) => Desired(q, repo, commit)
    case Finish(repo, attempted, outcome) => Finished(q, repo, attempted, outcome)
    case DesireConsumer(id, repo, commit) => DesiredConsumer(q, id, repo, commit)
    case FinishConsumer(id, repo, attempted, failure) => FinishedConsumer(q, id, repo, attempted, failure)
    case FailHead(id, repo, error) => FailedHead(q, id, repo, error)
  }

  /** A successful attempt reports the basis it was asked for, and consumer ids hold no NUL. */
  predicate Lawful(op: Op)
  {
    match op
    case Finish(_, attempted, outcome) => outcome.Success? ==> outcome.value == attempted
    case DesireConsumer(id, _, _) => NUL !in id
    case FinishConsumer(id, _, _, _) => NUL !in id
    case FailHead(id, _, _) => NUL !in id
    case Desire(_, _) => true
  }

  // ------------------------------------------------------------------------------ invariants

  predicate Truthful(t: Target)
  {
    t.status == Ready ==> t.applied == t.desired
  }

  /** Every consumer record is filed under its own key. */
  predicate Filed(key: string, c: ConsumerTarget)
  {
    NUL !in c.consumer && key == ConsumerKey(c.consumer, c.repository)
  }

  ghost predicate Inv(q: Queue)
  {
    && (forall repo :: repo in q.targets ==> Truthful(q.targets[repo]))
    && (forall key :: key in q.consumers ==> Filed(key, q.consumers[key]) && Truthful(q.consumers[key].target))
  }

  /** Keys of NUL-free ids tell consumer and repository apart. */
  lemma KeysAreDistinct(a: string, b: string, x: Repo, y: Repo)
    requires NUL !in a && NUL !in b
    ensures ConsumerKey(a, x) == ConsumerKey(b, y) <==> a == b && x == y
  {
    if ConsumerKey(a, x) == ConsumerKey(b, y) {
      Text.SplitUnique(NUL, a, b, x, y);
    }
  }

  /** The prefix scan of one consumer's records meets no other consumer's. */
  lemma PrefixIsOneConsumer(id: string, key: string, c: ConsumerTarget)
    requires NUL !in id && Filed(key, c)
    ensures id + [NUL] <= key <==> c.consumer == id
  {
    if id + [NUL] <= key {
      assert key == id + [NUL] + key[|id| + 1..];
      KeysAreDistinct(id, c.consumer, key[|id| + 1..], c.repository);
    }
  }

  lemma ApplyKeeps(q: Queue, op: Op)
    requires Inv(q) && Lawful(op)
    ensures Inv(Apply(q, op))
  {
    if op.DesireConsumer? || op.FinishConsumer? || op.FailHead? {
      RecordIsOwn(q, op.id, op.repo);
    }
  }

  lemma RecordIsOwn(q: Queue, id: string, repo: Repo)
    requires Inv(q) && NUL !in id
    ensures ConsumerAt(q, id, repo).consumer == id && ConsumerAt(q, id, repo).repository == repo
  {
    var key := ConsumerKey(id, repo);
    if key in q.consumers {
      assert Filed(key, q.consumers[key]);
      KeysAreDistinct(id, q.consumers[key].consumer, repo, q.consumers[key].repository);
    }
  }

  // ------------------------------------------------------------------------------ whole runs

  ghost predicate Run(qs: seq<Queue>, ops: seq<Op>)
  {
    && |qs| == |ops| + 1 && qs[0] == Queue(map[], map[])
    && forall i :: 0 <= i < |ops| ==> Lawful(ops[i]) && qs[i + 1] == Apply(qs[i], ops[i])
  }

  lemma {:induction false} Reachable(qs: seq<Queue>, ops: seq<Op>, i: nat)
    requires Run(qs, ops) && i < |qs|
    ensures Inv(qs[i])
  {
    if i > 0 {
      Reachable(qs, ops, i - 1);
      assert qs[i - 1 + 1] == Apply(qs[i - 1], ops[i - 1]);
      ApplyKeeps(qs[i - 1], ops[i - 1]);
    }
  }

  /** In every reachable queue a READY record has applied what it desires. */
  lemma ReadyIsApplied(qs: seq<Queue>, ops: seq<Op>, i: nat)
    requires Run(qs, ops) && i < |qs|
    ensures forall repo :: repo in qs[i].targets && qs[i].targets[repo].status == Ready ==>
      qs[i].targets[repo].applied == qs[i].targets[repo].desired
    ensures forall key :: key in qs[i].consumers && qs[i].consumers[key].target.status == Ready ==>
      qs[i].consumers[key].target.applied == qs[i].consumers[key].target.desired
  {
    Reachable(qs, ops, i);
    assert forall repo :: repo in qs[i].targets ==> Truthful(qs[i].targets[repo]);
    assert forall key :: key in qs[i].consumers ==> Truthful(qs[i].consumers[key].target);
  }

  predicate DesiresNothingNew(op: Op, repo: Repo)
  {
    op.Desire? ==> op.repo != repo
  }

  /** Only a later desire changes what is desired, and an attempt at anything else than what is
  desired now, however late it finishes, leaves the record as it is. */
  lemma {:induction false} DesireStands(qs: seq<Queue>, ops: seq<Op>, i: nat, j: nat, repo: Repo)
    requires Run(qs, ops) && i <= j < |qs| && repo in qs[i].targets
    requires forall k :: i <= k < j ==> DesiresNothingNew(ops[k], repo)
    ensures repo in qs[j].targets && qs[j].targets[repo].desired == qs[i].targets[repo].desired
    ensures (forall k :: i <= k < j ==> !(ops[k].Finish? && ops[k].repo == repo && ops[k].attempted == qs[i].targets[repo].desired)) ==>
      qs[j].targets[repo] == qs[i].targets[repo]
    decreases j
  {
    if i < j {
      DesireStands(qs, ops, i, j - 1, repo);
      assert qs[j - 1 + 1] == Apply(qs[j - 1], ops[j - 1]);
      assert DesiresNothingNew(ops[j - 1], repo);
    }
  }

  predicate ConcernsOther(op: Op, id: string)
  {
    op.Desire? || op.Finish? || op.id != id
  }

  /** What happens to one consumer or to the projection never alters another consumer's records,
  and consumers never alter the projection's. */
  lemma {:induction false} ConsumersAreIndependent(qs: seq<Queue>, ops: seq<Op>, i: nat, j: nat, id: string, repo: Repo)
    requires Run(qs, ops) && i <= j < |qs| && NUL !in id
    requires forall k :: i <= k < j ==> ConcernsOther(ops[k], id)
    ensures ConsumerKey(id, repo) in qs[j].consumers <==> ConsumerKey(id, repo) in qs[i].consumers
    ensures ConsumerKey(id, repo) in qs[i].consumers ==>
      qs[j].consumers[ConsumerKey(id, repo)] == qs[i].consumers[ConsumerKey(id, repo)]
    decreases j
  {
    if i < j {
      ConsumersAreIndependent(qs, ops, i, j - 1, id, repo);
      var op := ops[j - 1];
      assert qs[j - 1 + 1] == Apply(qs[j - 1], op) && Lawful(op) && ConcernsOther(op, id);
      if op.DesireConsumer? || op.FinishConsumer? || op.FailHead? {
        KeysAreDistinct(id, op.id, repo, op.repo);
      }
    }
  }

  lemma ConsumersLeaveTargets(q: Queue, op: Op)
    requires op.DesireConsumer? || op.FinishConsumer? || op.FailHead?
    ensures Apply(q, op).targets == q.targets
  {}
}
