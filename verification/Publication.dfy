/** The integration publish protocol (integrationruntime/runtime.go).

One durable record — lease, pending command, checkpoint — is edited atomically
(integrationruntime/store.go:59-78) by runs that may crash, time out, lose replies and
overlap after a lease expires.  The Writer looks a command up in its ledger first, then
validates and compares the expected commit with the head (knowledge/writer/writer.go,
snapshot/commandlog/log.go).  A request, once sent, may reach the Writer at any later
time and any number of times.
*/
module Publication {
  import opened Kernel
  import Reconcile

  type RunId = string
  type Commit = string
  type ChangeSet = Reconcile.ChangeSet

  /** Schema validation at the expected commit: a function of the ChangeSet alone. */
  type Verdict = ChangeSet -> Option<ErrorCode>

  datatype Manifest = Manifest(
    id: string, artifactId: string, server: string, repository: string, ref: string,
    mode: Reconcile.Mode, scope: Reconcile.Scope, intervalSeconds: int, timeoutSeconds: int)

  datatype Checkpoint = Checkpoint(cursor: string, commit: Commit)

  /** `connector:<id>:<digest of the ChangeSet>`, with the digest taken as injective. */
  datatype CommandId = CommandId(connector: string, content: ChangeSet)

  datatype Pending = Pending(command: CommandId, changeSet: ChangeSet, cursor: string)

  datatype Phase = ACTIVE | RUNNING | UNCHANGED | PUBLISHED | FAILED

  datatype Record = Record(
    manifest: Manifest, artifact: string, owner: string, active: bool, phase: Phase,
    checkpoint: Checkpoint, pending: Option<Pending>, lastError: Option<ErrorCode>,
    leaseId: RunId, leaseUntil: int, runs: nat)

  datatype Collection = Collection(
    desired: seq<Reconcile.Unit>, observed: seq<Reconcile.Observed>, sourceRefs: seq<string>,
    cursor: string, producedAt: string)

  // ------------------------------------------------------------------ edits of the record

  predicate ValidManifest(m: Manifest)
  {
    && TrimSpace(m.id) != "" && m.artifactId != "" && m.server != "" && m.repository != ""
    && 1 <= m.intervalSeconds <= 86400 && 0 <= m.timeoutSeconds <= 600
    && !m.mode.OtherMode? && m.scope.Valid()
  }

  function Completed(m: Manifest): Manifest
  {
    m.(ref := if m.ref == "" then Reconcile.DEFAULT_REF else m.ref,
       timeoutSeconds := if m.timeoutSeconds == 0 then 30 else m.timeoutSeconds)
  }

  predicate LeaseLive(r: Record, now: int)
  {
    r.leaseId != "" && now < r.leaseUntil
  }

  function Activation(previous: Option<Record>, manifest: Manifest, artifact: string, owner: string, now: int): Result<Record>
  {
    if !ValidManifest(manifest) then Failure(UsageInvalid)
    else
      var m := Completed(manifest);
      var first := Record(m, artifact, owner, true, ACTIVE, Checkpoint("", ""), None, None, "", 0, 0);
      if previous.None? then Success(first)
      else
        var prior := previous.value;
        if prior.owner != owner || prior.manifest.repository != m.repository || prior.manifest.server != m.server || prior.manifest.ref != m.ref
        then Failure(TargetRepositoryDenied)
        else if prior.pending.Some? || LeaseLive(prior, now) then Failure(PreconditionFailed)
        else Success(first.(checkpoint := prior.checkpoint, runs := prior.runs))
  }

  function Acquired(r: Record, run: RunId, now: int): Result<Record>
  {
    if !r.active || LeaseLive(r, now) then Failure(PreconditionFailed)
    else Success(r.(leaseId := run, leaseUntil := now + r.manifest.timeoutSeconds + 90, phase := RUNNING, runs := r.runs + 1))
  }

  function WithoutChange(r: Record, cursor: string, base: Commit): Record
  {
    r.(checkpoint := Checkpoint(cursor, base), phase := UNCHANGED, lastError := None)
  }

  function WithPending(r: Record, p: Pending): Record
  {
    r.(pending := Some(p))
  }

  function WithoutPending(r: Record): Record
  {
    r.(pending := None)
  }

  function Advanced(r: Record, p: Pending, commit: Commit): Record
  {
    r.(checkpoint := Checkpoint(p.cursor, commit), pending := None, phase := PUBLISHED, lastError := None)
  }

  function Unleased(r: Record, failure: Option<ErrorCode>): Record
  {
    var free := r.(leaseId := "", leaseUntil := 0);
    if failure.None? then free else free.(phase := FAILED, lastError := failure)
  }

  /** The edit of a run takes place only while the run holds the lease. */
  function Update(r: Record, run: RunId, edited: Record): Record
  {
    if r.leaseId == run then edited else r
  }

  // ------------------------------------------------------------------------ the machine

  /** How far the body of `Run` has come. */
  datatype RunState =
    | Leased(value: Record)
    | Collecting(value: Record)
    | Based(value: Record, base: Commit)
    | Previewed(value: Record, base: Commit, cursor: string, preview: Reconcile.PreviewResult)
    | Sending(pending: Pending)
    | Waiting(pending: Pending)
    | Refused(pending: Pending, code: ErrorCode)
    | Receipted(pending: Pending, commit: Commit)
    | Releasing(failure: Option<ErrorCode>)

  datatype Entry = Reserved | Applied(commit: Commit)

  datatype Published = Published(command: CommandId, changeSet: ChangeSet, commit: Commit)

  /** `errant` and `misled` are history: the commands whose apply failed after it had moved the
  head, and those whose apply failed with a code of rejection although nothing rejected them. */
  datatype Writer = Writer(
    head: Commit, used: set<Commit>, ledger: map<CommandId, Entry>, log: seq<Published>,
    errant: set<CommandId>, misled: set<CommandId>)

  datatype Request = Request(run: RunId, pending: Pending)

  datatype Response = Receipt(commit: Commit) | Error(code: ErrorCode)

  datatype Reply = Reply(request: Request, response: Response)

  /** What has happened so far; nothing in the protocol reads it. */
  datatype History = History(stored: set<Pending>, advanced: set<(Pending, Commit)>, released: set<Pending>)

  datatype World = World(
    record: Option<Record>, runs: map<RunId, RunState>, issued: set<RunId>,
    writer: Writer, requests: set<Request>, replies: set<Reply>, history: History)

  /** A Writer may die after reserving the command, before or after publishing it.  Its apply
  may fail with any code, a rejection's or another, before or after moving the head; the
  reservation is then forgotten if the ledger can still be written, and stays if not. */
  datatype Fate = Completes | DiesReserved | DiesPublished | FailsUnpublished(code: ErrorCode, forgotten: bool) | FailsPublished(code: ErrorCode, forgotten: bool)

  datatype Event =
    | Activate(manifest: Manifest, artifact: string, owner: string, now: int)
    | SetActive(owner: string, active: bool)
    | Acquire(run: RunId, now: int)
    | Authenticate(run: RunId, owner: string)
    | ReadHead(run: RunId)
    | Collect(run: RunId, collection: Collection)
    | SaveEmpty(run: RunId)
    | SavePending(run: RunId)
    | Send(run: RunId)
    | Receive(run: RunId, response: Response)
    | DropPending(run: RunId)
    | Advance(run: RunId)
    | Fail(run: RunId, code: ErrorCode)
    | Release(run: RunId)
    | Crash(run: RunId)
    | Execute(request: Request, commit: Commit, fate: Fate)
    | Deny(request: Request, code: ErrorCode)
    | Resolve(command: CommandId)
    | ForeignPublish(commit: Commit)

  /** `publicationWasRejected`: these codes prove that the command was not published. */
  predicate PublicationWasRejected(code: ErrorCode)
  {
    || code == NonFastForward
    || code == SchemaUnsupported
    || code == SchemaRevisionUnresolved
    || code == SchemaInstanceInvalid
    || code == SchemaIncompatible
  }

  function PlanOf(value: Record, base: Commit, c: Collection): Reconcile.Plan
  {
    Reconcile.Plan(
      value.manifest.id, value.manifest.mode, value.manifest.scope, value.manifest.repository, value.manifest.ref,
      base, c.desired, c.observed, c.sourceRefs, c.producedAt, value.owner, "")
  }

  function PendingOf(value: Record, cursor: string, changeSet: ChangeSet): Pending
  {
    Pending(CommandId(value.manifest.id, changeSet), changeSet, cursor)
  }

  predicate Fresh(w: World, commit: Commit)
  {
    commit != "" && commit !in w.writer.used
  }

  ghost predicate InLog(writer: Writer, command: CommandId)
  {
    exists i :: 0 <= i < |writer.log| && writer.log[i].command == command
  }

  ghost predicate InLogAs(writer: Writer, command: CommandId, commit: Commit)
  {
    exists i :: 0 <= i < |writer.log| && writer.log[i].command == command && writer.log[i].commit == commit
  }

  predicate At(w: World, run: RunId)
  {
    run in w.runs && w.record.Some?
  }

  ghost predicate Enabled(w: World, e: Event)
  {
    match e
    case Activate(manifest, artifact, owner, now) =>
      && (w.record.Some? ==> w.record.value.manifest.id == manifest.id)
      && Activation(w.record, manifest, artifact, owner, now).Success?
    case SetActive(owner, active) => w.record.Some? && w.record.value.owner == owner
    case Acquire(run, now) => w.record.Some? && run != "" && run !in w.issued && Acquired(w.record.value, run, now).Success?
    case Authenticate(run, owner) => At(w, run) && w.runs[run].Leased?
    case ReadHead(run) => At(w, run) && w.runs[run].Collecting?
    case Collect(run, collection) => At(w, run) && w.runs[run].Based?
    case SaveEmpty(run) => At(w, run) && w.runs[run].Previewed? && w.runs[run].preview.empty
    case SavePending(run) => At(w, run) && w.runs[run].Previewed? && !w.runs[run].preview.empty
    case Send(run) => At(w, run) && w.runs[run].Sending?
    case Receive(run, response) => At(w, run) && w.runs[run].Waiting? && Reply(Request(run, w.runs[run].pending), response) in w.replies
    case DropPending(run) => At(w, run) && w.runs[run].Refused?
    case Advance(run) => At(w, run) && w.runs[run].Receipted?
    case Fail(run, code) => At(w, run) && !w.runs[run].Releasing?
    case Release(run) => At(w, run) && w.runs[run].Releasing?
    case Crash(run) => At(w, run)
    case Execute(request, commit, fate) => request in w.requests && Fresh(w, commit)
    case Deny(request, code) => request in w.requests && !PublicationWasRejected(code)
    case Resolve(command) => command in w.writer.ledger && InLog(w.writer, command)
    case ForeignPublish(commit) => Fresh(w, commit)
  }

  function ToRun(w: World, run: RunId, s: RunState): World
  {
    w.(runs := w.runs[run := s])
  }

  function Edited(w: World, run: RunId, edited: Record): World
    requires w.record.Some?
  {
    w.(record := Some(Update(w.record.value, run, edited)))
  }

  /** Nothing stands against publishing. */
  predicate Publishable(verdict: Verdict, writer: Writer, changeSet: ChangeSet)
  {
    verdict(changeSet).None? && writer.head == changeSet.expectedTargetCommit
  }

  /** What a publication leaves in the ledger. */
  function EntryOf(fate: Fate, commit: Commit): Option<Entry>
  {
    if fate.Completes? then Some(Applied(commit))
    else if fate.FailsPublished? && fate.forgotten then None
    else Some(Reserved)
  }

  function Publish(writer: Writer, p: Pending, commit: Commit, fate: Fate): Writer
  {
    var entry := EntryOf(fate, commit);
    Writer(
      commit, writer.used + {commit},
      if entry.Some? then writer.ledger[p.command := entry.value] else writer.ledger,
      writer.log + [Published(p.command, p.changeSet, commit)],
      if fate.FailsPublished? then writer.errant + {p.command} else writer.errant, writer.misled)
  }

  /** What an apply leaves that fails without moving the head. */
  function Failing(verdict: Verdict, writer: Writer, p: Pending, fate: Fate): Writer
    requires fate.FailsUnpublished?
  {
    if !fate.forgotten then writer.(ledger := writer.ledger[p.command := Reserved])
    else if Misleads(verdict, writer, p, fate) then writer.(misled := writer.misled + {p.command})
    else writer
  }

  /** The Writer handles one request: replay lookup, validation, compare-and-set. */
  function Executed(verdict: Verdict, w: World, request: Request, commit: Commit, fate: Fate): World
  {
    var p, writer := request.pending, w.writer;
    if p.command in writer.ledger then
      var response := if writer.ledger[p.command].Applied? then Receipt(writer.ledger[p.command].commit) else Error(PreconditionFailed);
      w.(replies := w.replies + {Reply(request, response)})
    else if fate.DiesReserved? then w.(writer := writer.(ledger := writer.ledger[p.command := Reserved]))
    else if fate.FailsUnpublished? then
      w.(writer := Failing(verdict, writer, p, fate), replies := w.replies + {Reply(request, Error(fate.code))})
    else if verdict(p.changeSet).Some? then w.(replies := w.replies + {Reply(request, Error(verdict(p.changeSet).value))})
    else if writer.head != p.changeSet.expectedTargetCommit then w.(replies := w.replies + {Reply(request, Error(NonFastForward))})
    else
      var published := w.(writer := Publish(writer, p, commit, fate));
      match fate
      case Completes => published.(replies := w.replies + {Reply(request, Receipt(commit))})
      case FailsPublished(code, _) => published.(replies := w.replies + {Reply(request, Error(code))})
      case _ => published
  }

  /** The apply fails with a code of rejection, and yet the command can still be published. */
  predicate Misleads(verdict: Verdict, writer: Writer, p: Pending, fate: Fate)
  {
    fate.FailsUnpublished? && fate.forgotten && PublicationWasRejected(fate.code) && Publishable(verdict, writer, p.changeSet)
  }

  ghost function CommitOf(writer: Writer, command: CommandId): Commit
    requires InLog(writer, command)
  {
    var i :| 0 <= i < |writer.log| && writer.log[i].command == command;
    writer.log[i].commit
  }

  function Diffed(value: Record, base: Commit, cursor: string, preview: Result<Reconcile.PreviewResult>): RunState
  {
    if preview.Failure? then Releasing(Some(preview.error)) else Previewed(value, base, cursor, preview.value)
  }

  ghost function Next(verdict: Verdict, w: World, e: Event): World
    requires Enabled(w, e)
  {
    match e
    case Activate(manifest, artifact, owner, now) =>
      w.(record := Some(Activation(w.record, manifest, artifact, owner, now).value))
    case SetActive(owner, active) => w.(record := Some(w.record.value.(active := active)))
    case Acquire(run, now) =>
      var value := Acquired(w.record.value, run, now).value;
      ToRun(w, run, Leased(value)).(record := Some(value), issued := w.issued + {run})
    case Authenticate(run, owner) =>
      var value := w.runs[run].value;
      if owner != value.owner then ToRun(w, run, Releasing(Some(TargetRepositoryDenied)))
      else if value.pending.Some? then ToRun(w, run, Sending(value.pending.value))
      else ToRun(w, run, Collecting(value))
    case ReadHead(run) => ToRun(w, run, Based(w.runs[run].value, w.writer.head))
    case Collect(run, collection) =>
      var s := w.runs[run];
      ToRun(w, run, Diffed(s.value, s.base, collection.cursor, Reconcile.PreviewOf(PlanOf(s.value, s.base, collection))))
    case SaveEmpty(run) =>
      var s, r := w.runs[run], w.record.value;
      Edited(ToRun(w, run, Releasing(if r.leaseId == run then None else Some(PreconditionFailed))),
             run, WithoutChange(r, s.cursor, s.base))
    case SavePending(run) =>
      var s, r := w.runs[run], w.record.value;
      var p := PendingOf(s.value, s.cursor, s.preview.changeSet);
      if r.leaseId != run then ToRun(w, run, Releasing(Some(PreconditionFailed)))
      else Edited(ToRun(w, run, Sending(p)), run, WithPending(r, p)).(history := w.history.(stored := w.history.stored + {p}))
    case Send(run) =>
      var p := w.runs[run].pending;
      ToRun(w, run, Waiting(p)).(requests := w.requests + {Request(run, p)})
    case Receive(run, response) =>
      var p := w.runs[run].pending;
      if response.Error? then
        ToRun(w, run, if PublicationWasRejected(response.code) then Refused(p, response.code) else Releasing(Some(response.code)))
      else if response.commit == "" then ToRun(w, run, Releasing(Some(TemporaryUnavailable)))
      else ToRun(w, run, Receipted(p, response.commit))
    case DropPending(run) =>
      var s, r := w.runs[run], w.record.value;
      var after := Edited(ToRun(w, run, Releasing(Some(s.code))), run, WithoutPending(r));
      if r.leaseId != run then after
      else after.(history := w.history.(released := w.history.released + {s.pending}))
    case Advance(run) =>
      var s, r := w.runs[run], w.record.value;
      if r.leaseId != run then ToRun(w, run, Releasing(Some(PreconditionFailed)))
      else
        Edited(ToRun(w, run, Releasing(None)), run, Advanced(r, s.pending, s.commit))
          .(history := w.history.(advanced := w.history.advanced + {(s.pending, s.commit)}))
    case Fail(run, code) => ToRun(w, run, Releasing(Some(code)))
    case Release(run) =>
      Edited(w, run, Unleased(w.record.value, w.runs[run].failure)).(runs := w.runs - {run})
    case Crash(run) => w.(runs := w.runs - {run})
    case Execute(request, commit, fate) => Executed(verdict, w, request, commit, fate)
    case Deny(request, code) => w.(replies := w.replies + {Reply(request, Error(code))})
    case Resolve(command) =>
      w.(writer := w.writer.(ledger := w.writer.ledger[command := Applied(CommitOf(w.writer, command))]))
    case ForeignPublish(commit) => w.(writer := w.writer.(head := commit, used := w.writer.used + {commit}))
  }

  ghost predicate Initial(w: World)
  {
    && w.record.None? && w.runs == map[] && w.issued == {}
    && w.writer.head != "" && w.writer.used == {w.writer.head} && w.writer.ledger == map[] && w.writer.log == []
    && w.writer.errant == {} && w.writer.misled == {}
    && w.requests == {} && w.replies == {} && w.history == History({}, {}, {})
  }

  /** A behaviour: worlds, and the event between each two of them. */
  ghost predicate Execution(verdict: Verdict, ws: seq<World>, es: seq<Event>)
  {
    && |ws| == |es| + 1
    && Initial(ws[0])
    && forall i :: 0 <= i < |es| ==> Enabled(ws[i], es[i]) && ws[i + 1] == Next(verdict, ws[i], es[i])
  }

  // ----------------------------------------------------------------------- the invariant

  /** Not published, and never publishable: reserved for good, rejected by validation, or its
  expected commit is a past head. */
  ghost predicate Dead(verdict: Verdict, writer: Writer, p: Pending)
  {
    && !InLog(writer, p.command)
    && ( || p.command in writer.ledger
         || verdict(p.changeSet).Some?
         || (p.changeSet.expectedTargetCommit in writer.used && p.changeSet.expectedTargetCommit != writer.head))
  }

  /** Dead, unless a failed apply has blurred what happened to the command. */
  ghost predicate Closed(verdict: Verdict, writer: Writer, p: Pending)
  {
    Dead(verdict, writer, p) || Blurred(writer, p.command)
  }

  predicate Blurred(writer: Writer, command: CommandId)
  {
    command in writer.errant || command in writer.misled
  }

  function PendingOfRecord(record: Option<Record>): Option<Pending>
  {
    if record.None? then None else record.value.pending
  }

  ghost predicate Current(pending: Option<Pending>, command: CommandId)
  {
    pending.Some? && pending.value.command == command
  }

  ghost predicate WasAdvanced(advanced: set<(Pending, Commit)>, command: CommandId)
  {
    exists entry :: entry in advanced && entry.0.command == command
  }

  ghost predicate WasReleased(released: set<Pending>, command: CommandId)
  {
    exists p :: p in released && p.command == command
  }

  ghost predicate WasStored(stored: set<Pending>, command: CommandId)
  {
    exists p :: p in stored && p.command == command
  }

  function PendingIn(s: RunState): Option<Pending>
  {
    match s
    case Leased(value) => value.pending
    case Sending(p) => Some(p)
    case Waiting(p) => Some(p)
    case Refused(p, _) => Some(p)
    case Receipted(p, _) => Some(p)
    case _ => None
  }

  /** The lease names an issued run; the holder knows what is pending. */
  ghost predicate LeaseInv(record: Option<Record>, runs: map<RunId, RunState>, issued: set<RunId>)
  {
    && runs.Keys <= issued && "" !in issued
    && (record.None? ==> runs == map[])
    && (record.Some? ==> record.value.leaseId == "" || record.value.leaseId in issued)
    && (record.Some? && record.value.leaseId in runs && !runs[record.value.leaseId].Releasing? ==>
          record.value.pending == PendingIn(runs[record.value.leaseId]))
  }

  ghost predicate WellFormed(used: set<Commit>, p: Pending)
  {
    p.command.content == p.changeSet && p.changeSet.expectedTargetCommit in used
  }

  ghost predicate HistoryInv(history: History, used: set<Commit>)
  {
    && history.released <= history.stored
    && (forall p :: p in history.stored ==> WellFormed(used, p))
  }

  /** What a run holds was stored, and what it read was a head. */
  ghost predicate RunsInv(runs: map<RunId, RunState>, stored: set<Pending>, used: set<Commit>)
  {
    forall run :: run in runs ==> RunInv(runs[run], stored, used)
  }

  ghost predicate RunInv(s: RunState, stored: set<Pending>, used: set<Commit>)
  {
    && (PendingIn(s).Some? ==> PendingIn(s).value in stored)
    && (s.Based? ==> s.base in used)
    && (s.Previewed? ==> s.base in used && s.preview.changeSet.expectedTargetCommit == s.base)
  }

  ghost predicate WireInv(requests: set<Request>, replies: set<Reply>, stored: set<Pending>)
  {
    && (forall request :: request in requests ==> request.pending in stored)
    && (forall reply :: reply in replies ==> reply.request in requests)
  }

  ghost predicate Recorded(writer: Writer, entry: Published)
  {
    && (entry.command in writer.ledger || entry.command in writer.errant)
    && entry.command.content == entry.changeSet
    && entry.commit in writer.used
    && entry.changeSet.expectedTargetCommit in writer.used
    && entry.changeSet.expectedTargetCommit != writer.head
  }

  ghost predicate WriterInv(writer: Writer)
  {
    && "" !in writer.used && writer.head in writer.used
    && (forall i :: 0 <= i < |writer.log| ==> Recorded(writer, writer.log[i]))
    && (forall i, j :: 0 <= i < j < |writer.log| ==> writer.log[i].command != writer.log[j].command)
    && (forall command :: command in writer.ledger && writer.ledger[command].Applied? ==>
          InLogAs(writer, command, writer.ledger[command].commit))
    && (forall command :: command in writer.errant ==> InLog(writer, command))
  }

  /** The log holds only commands that were once stored as pending. */
  ghost predicate LogInv(log: seq<Published>, stored: set<Pending>)
  {
    forall i :: 0 <= i < |log| ==> WasStored(stored, log[i].command)
  }

  ghost predicate AnswerInv(verdict: Verdict, writer: Writer, p: Pending, response: Response)
  {
    match response
    case Receipt(commit) => commit != "" ==> InLogAs(writer, p.command, commit)
    case Error(code) => PublicationWasRejected(code) ==> Closed(verdict, writer, p)
  }

  ghost predicate RepliesInv(verdict: Verdict, writer: Writer, replies: set<Reply>)
  {
    forall reply :: reply in replies ==> AnswerInv(verdict, writer, reply.request.pending, reply.response)
  }

  ghost predicate Informed(verdict: Verdict, writer: Writer, s: RunState)
  {
    && (s.Refused? ==> Closed(verdict, writer, s.pending))
    && (s.Receipted? ==> InLogAs(writer, s.pending.command, s.commit))
  }

  ghost predicate InformedInv(verdict: Verdict, writer: Writer, runs: map<RunId, RunState>)
  {
    forall run :: run in runs ==> Informed(verdict, writer, runs[run])
  }

  ghost predicate OutcomesInv(verdict: Verdict, writer: Writer, history: History)
  {
    && (forall p :: p in history.released ==> Closed(verdict, writer, p))
    && (forall entry :: entry in history.advanced ==> InLogAs(writer, entry.0.command, entry.1))
  }

  /** Every pending ever stored is still pending, or was advanced, or was released. */
  ghost predicate SettledInv(pending: Option<Pending>, history: History)
  {
    forall p :: p in history.stored ==> Settled(pending, history, p.command)
  }

  ghost predicate Settled(pending: Option<Pending>, history: History, command: CommandId)
  {
    Current(pending, command) || WasAdvanced(history.advanced, command) || WasReleased(history.released, command)
  }

  ghost predicate Inv(verdict: Verdict, w: World)
  {
    && LeaseInv(w.record, w.runs, w.issued)
    && (PendingOfRecord(w.record).Some? ==> PendingOfRecord(w.record).value in w.history.stored)
    && HistoryInv(w.history, w.writer.used)
    && RunsInv(w.runs, w.history.stored, w.writer.used)
    && WireInv(w.requests, w.replies, w.history.stored)
    && WriterInv(w.writer)
    && LogInv(w.writer.log, w.history.stored)
    && RepliesInv(verdict, w.writer, w.replies)
    && InformedInv(verdict, w.writer, w.runs)
    && OutcomesInv(verdict, w.writer, w.history)
    && SettledInv(PendingOfRecord(w.record), w.history)
  }

  // ------------------------------------------------------------- what one event preserves

  lemma ActivateKeeps(verdict: Verdict, w: World, e: Event)
    requires Inv(verdict, w) && Enabled(w, e) && (e.Activate? || e.SetActive?)
    ensures Inv(verdict, Next(verdict, w, e))
  {
    assert PendingOfRecord(Next(verdict, w, e).record) == PendingOfRecord(w.record);
  }

  lemma AcquireKeeps(verdict: Verdict, w: World, e: Event)
    requires Inv(verdict, w) && Enabled(w, e) && e.Acquire?
    ensures Inv(verdict, Next(verdict, w, e))
  {
  }

  /** A run that moves on without editing the record. */
  lemma RunMovesOn(verdict: Verdict, w: World, run: RunId, s: RunState)
    requires Inv(verdict, w) && At(w, run) && !w.runs[run].Releasing?
    requires s.Releasing? || PendingIn(s) == PendingIn(w.runs[run])
    requires RunInv(s, w.history.stored, w.writer.used) && Informed(verdict, w.writer, s)
    ensures Inv(verdict, ToRun(w, run, s))
  {
  }

  /** What a run reads, or the reason why it stops, is fit for it. */
  lemma ReadingIsFit(verdict: Verdict, w: World, e: Event)
    requires Enabled(w, e) && (e.Authenticate? || e.ReadHead? || e.Collect? || e.Fail?)
    requires RunInv(w.runs[e.run], w.history.stored, w.writer.used) && w.writer.head in w.writer.used
    ensures var s := Next(verdict, w, e).runs[e.run];
      && Next(verdict, w, e) == ToRun(w, e.run, s) && !w.runs[e.run].Releasing?
      && (s.Releasing? || PendingIn(s) == PendingIn(w.runs[e.run]))
      && RunInv(s, w.history.stored, w.writer.used) && Informed(verdict, w.writer, s)
  {
  }

  lemma ReadingKeeps(verdict: Verdict, w: World, e: Event)
    requires Inv(verdict, w) && Enabled(w, e)
    requires e.Authenticate? || e.ReadHead? || e.Collect? || e.Fail?
    ensures Inv(verdict, Next(verdict, w, e))
  {
    ReadingIsFit(verdict, w, e);
    RunMovesOn(verdict, w, e.run, Next(verdict, w, e).runs[e.run]);
  }

  lemma ReceiveKeeps(verdict: Verdict, w: World, e: Event)
    requires Inv(verdict, w) && Enabled(w, e) && e.Receive?
    ensures Inv(verdict, Next(verdict, w, e))
  {
    var s := Next(verdict, w, e).runs[e.run];
    assert RunInv(w.runs[e.run], w.history.stored, w.writer.used);
    assert AnswerInv(verdict, w.writer, w.runs[e.run].pending, e.response);
    RunMovesOn(verdict, w, e.run, s);
  }

  lemma SendKeeps(verdict: Verdict, w: World, e: Event)
    requires Inv(verdict, w) && Enabled(w, e) && e.Send?
    ensures Inv(verdict, Next(verdict, w, e))
  {
    var p := w.runs[e.run].pending;
    assert RunInv(w.runs[e.run], w.history.stored, w.writer.used);
    RunMovesOn(verdict, w, e.run, Waiting(p));
  }

  lemma LeavingKeeps(verdict: Verdict, w: World, e: Event)
    requires Inv(verdict, w) && Enabled(w, e) && (e.Release? || e.Crash?)
    ensures Inv(verdict, Next(verdict, w, e))
  {
    var after := Next(verdict, w, e);
    assert PendingOfRecord(after.record) == PendingOfRecord(w.record);
    assert forall run :: run in after.runs ==> run in w.runs && after.runs[run] == w.runs[run];
  }

  lemma SaveEmptyKeeps(verdict: Verdict, w: World, e: Event)
    requires Inv(verdict, w) && Enabled(w, e) && e.SaveEmpty?
    ensures Inv(verdict, Next(verdict, w, e))
  {
    var after := Next(verdict, w, e);
    assert PendingOfRecord(after.record) == PendingOfRecord(w.record);
  }

  /** The lease holder edits the record and moves on. */
  function Held(w: World, run: RunId, s: RunState, edited: Record, history: History): World
  {
    w.(runs := w.runs[run := s], record := Some(edited), history := history)
  }

  lemma HeldKeeps(verdict: Verdict, w: World, run: RunId, s: RunState, edited: Record, history: History)
    requires Inv(verdict, w) && At(w, run) && w.record.value.leaseId == run == edited.leaseId
    requires s.Releasing? || (s.Sending? && edited.pending == Some(s.pending))
    requires w.history.stored <= history.stored
    requires HistoryInv(history, w.writer.used) && OutcomesInv(verdict, w.writer, history)
    requires edited.pending.Some? ==> edited.pending.value in history.stored
    requires SettledInv(edited.pending, history)
    ensures Inv(verdict, Held(w, run, s, edited, history))
  {
    LogKeeps(w.writer.log, w.history.stored, history.stored);
    HeldRuns(w, run, s, history);
  }

  lemma HeldRuns(w: World, run: RunId, s: RunState, history: History)
    requires RunsInv(w.runs, w.history.stored, w.writer.used) && w.history.stored <= history.stored
    requires RunInv(s, history.stored, w.writer.used)
    ensures RunsInv(w.runs[run := s], history.stored, w.writer.used)
  {
    forall other | other in w.runs ensures RunInv(w.runs[other], history.stored, w.writer.used) {
      assert RunInv(w.runs[other], w.history.stored, w.writer.used);
    }
  }

  lemma LogKeeps(log: seq<Published>, stored: set<Pending>, more: set<Pending>)
    requires LogInv(log, stored) && stored <= more
    ensures LogInv(log, more)
  {
    forall i | 0 <= i < |log| ensures WasStored(more, log[i].command) {
      assert WasStored(stored, log[i].command);
    }
  }

  lemma SavePendingKeeps(verdict: Verdict, w: World, e: Event)
    requires Inv(verdict, w) && Enabled(w, e) && e.SavePending?
    ensures Inv(verdict, Next(verdict, w, e))
  {
    var run, r, s := e.run, w.record.value, w.runs[e.run];
    if r.leaseId != run {
      RunMovesOn(verdict, w, run, Releasing(Some(PreconditionFailed)));
    } else {
      var p := PendingOf(s.value, s.cursor, s.preview.changeSet);
      var history := w.history.(stored := w.history.stored + {p});
      assert RunInv(s, w.history.stored, w.writer.used);
      forall q | q in history.stored ensures Settled(Some(p), history, q.command) {
        assert q in w.history.stored ==> Settled(r.pending, w.history, q.command);
      }
      HeldKeeps(verdict, w, run, Sending(p), WithPending(r, p), history);
    }
  }

  lemma ReleasedStays(released: set<Pending>, p: Pending, command: CommandId)
    ensures WasReleased(released, command) || p.command == command ==> WasReleased(released + {p}, command)
  {
    if q :| q in released && q.command == command { assert q in released + {p}; }
    assert p in released + {p};
  }

  lemma DropPendingKeeps(verdict: Verdict, w: World, e: Event)
    requires Inv(verdict, w) && Enabled(w, e) && e.DropPending?
    ensures Inv(verdict, Next(verdict, w, e))
  {
    var run, r, s := e.run, w.record.value, w.runs[e.run];
    if r.leaseId != run {
      RunMovesOn(verdict, w, run, Releasing(Some(s.code)));
    } else {
      var p := s.pending;
      assert Informed(verdict, w.writer, s) && r.pending == Some(p);
      var history := w.history.(released := w.history.released + {p});
      forall q | q in history.stored ensures Settled(None, history, q.command) {
        assert Settled(r.pending, w.history, q.command);
        ReleasedStays(w.history.released, p, q.command);
      }
      HeldKeeps(verdict, w, run, Releasing(Some(s.code)), WithoutPending(r), history);
    }
  }

  lemma AdvanceKeeps(verdict: Verdict, w: World, e: Event)
    requires Inv(verdict, w) && Enabled(w, e) && e.Advance?
    ensures Inv(verdict, Next(verdict, w, e))
  {
    var run, r, s := e.run, w.record.value, w.runs[e.run];
    if r.leaseId != run {
      RunMovesOn(verdict, w, run, Releasing(Some(PreconditionFailed)));
    } else {
      var entry := (s.pending, s.commit);
      var history := w.history.(advanced := w.history.advanced + {entry});
      assert Informed(verdict, w.writer, s);
      forall q | q in history.stored ensures Settled(None, history, q.command) {
        assert Settled(r.pending, w.history, q.command);
        if q.command == s.pending.command {
          assert entry in history.advanced;
        } else if WasAdvanced(w.history.advanced, q.command) {
          var prior :| prior in w.history.advanced && prior.0.command == q.command;
          assert prior in history.advanced;
        }
      }
      HeldKeeps(verdict, w, run, Releasing(None), Advanced(r, s.pending, s.commit), history);
    }
  }

  // -------------------------------------------------------------------- Writer-side events

  /** The facts about the Writer that the rest of the invariant relies on. */
  ghost predicate Extends(verdict: Verdict, before: Writer, after: Writer, stored: set<Pending>)
  {
    && before.used <= after.used
    && (forall command, commit :: InLogAs(before, command, commit) ==> InLogAs(after, command, commit))
    && (forall p :: p in stored && Closed(verdict, before, p) ==> Closed(verdict, after, p))
  }

  lemma WriterMovesOn(verdict: Verdict, w: World, after: Writer)
    requires Inv(verdict, w) && WriterInv(after) && LogInv(after.log, w.history.stored)
    requires Extends(verdict, w.writer, after, w.history.stored)
    ensures Inv(verdict, w.(writer := after))
  {
    HistoryMovesOn(verdict, w, after);
    RunsMoveOn(verdict, w, after);
    forall reply | reply in w.replies ensures AnswerInv(verdict, after, reply.request.pending, reply.response) {
      assert AnswerInv(verdict, w.writer, reply.request.pending, reply.response);
    }
  }

  lemma HistoryMovesOn(verdict: Verdict, w: World, after: Writer)
    requires Inv(verdict, w) && Extends(verdict, w.writer, after, w.history.stored)
    ensures HistoryInv(w.history, after.used) && OutcomesInv(verdict, after, w.history)
    ensures SettledInv(PendingOfRecord(w.record), w.history)
  {
    forall p | p in w.history.stored
      ensures WellFormed(after.used, p)
    {
      assert WellFormed(w.writer.used, p);
    }
  }

  lemma RunsMoveOn(verdict: Verdict, w: World, after: Writer)
    requires Inv(verdict, w) && Extends(verdict, w.writer, after, w.history.stored)
    ensures RunsInv(w.runs, w.history.stored, after.used) && InformedInv(verdict, after, w.runs)
  {
    forall run | run in w.runs
      ensures RunInv(w.runs[run], w.history.stored, after.used) && Informed(verdict, after, w.runs[run])
    {
      assert RunInv(w.runs[run], w.history.stored, w.writer.used) && Informed(verdict, w.writer, w.runs[run]);
    }
  }

  lemma ReplyKeeps(verdict: Verdict, w: World, request: Request, response: Response)
    requires Inv(verdict, w) && request in w.requests && AnswerInv(verdict, w.writer, request.pending, response)
    ensures Inv(verdict, w.(replies := w.replies + {Reply(request, response)}))
  {
  }

  /** The ledger knows every published command whose apply did not fail. */
  lemma UnknownIsUnpublished(writer: Writer, command: CommandId)
    requires WriterInv(writer) && command !in writer.ledger && command !in writer.errant
    ensures !InLog(writer, command)
  {
    forall i | 0 <= i < |writer.log| ensures writer.log[i].command != command {
      assert Recorded(writer, writer.log[i]);
    }
  }

  /** Even without a ledger entry: what was published expects a commit that is a head no more. */
  lemma AtHeadIsUnpublished(writer: Writer, p: Pending)
    requires WriterInv(writer) && p.command.content == p.changeSet && writer.head == p.changeSet.expectedTargetCommit
    ensures !InLog(writer, p.command)
  {
    forall i | 0 <= i < |writer.log| ensures writer.log[i].command != p.command {
      assert Recorded(writer, writer.log[i]);
    }
  }

  /** Changing only the ledger, or only the head to a fresh commit. */
  lemma SameLogExtends(verdict: Verdict, before: Writer, after: Writer, stored: set<Pending>)
    requires after.log == before.log && before.used <= after.used
    requires after.head == before.head || after.head !in before.used
    requires before.errant <= after.errant && before.misled <= after.misled && before.ledger.Keys <= after.ledger.Keys
    ensures Extends(verdict, before, after, stored)
  {
    forall command, commit | InLogAs(before, command, commit) ensures InLogAs(after, command, commit) {
      var i :| 0 <= i < |before.log| && before.log[i].command == command && before.log[i].commit == commit;
      assert after.log[i].command == command;
    }
    forall command ensures InLog(before, command) <==> InLog(after, command) {
      if i :| 0 <= i < |before.log| && before.log[i].command == command { assert after.log[i].command == command; }
    }
  }

  lemma LedgerWriter(before: Writer, command: CommandId, entry: Entry)
    requires WriterInv(before) && (entry.Applied? ==> InLogAs(before, command, entry.commit))
    ensures WriterInv(before.(ledger := before.ledger[command := entry]))
  {
    var after := before.(ledger := before.ledger[command := entry]);
    forall i | 0 <= i < |after.log| ensures Recorded(after, after.log[i]) {
      assert Recorded(before, before.log[i]);
    }
    forall c, commit | InLogAs(before, c, commit) ensures InLogAs(after, c, commit) {
      var i :| 0 <= i < |before.log| && before.log[i].command == c && before.log[i].commit == commit;
      assert after.log[i].command == c;
    }
  }

  lemma LedgerKeeps(verdict: Verdict, w: World, command: CommandId, entry: Entry)
    requires Inv(verdict, w) && (entry.Applied? ==> InLogAs(w.writer, command, entry.commit))
    ensures Inv(verdict, w.(writer := w.writer.(ledger := w.writer.ledger[command := entry])))
  {
    var after := w.writer.(ledger := w.writer.ledger[command := entry]);
    LedgerWriter(w.writer, command, entry);
    SameLogExtends(verdict, w.writer, after, w.history.stored);
    WriterMovesOn(verdict, w, after);
  }

  lemma ForeignKeeps(verdict: Verdict, w: World, e: Event)
    requires Inv(verdict, w) && Enabled(w, e) && e.ForeignPublish?
    ensures Inv(verdict, Next(verdict, w, e))
  {
    var after := Next(verdict, w, e).writer;
    SameLogExtends(verdict, w.writer, after, w.history.stored);
    forall i | 0 <= i < |after.log| ensures Recorded(after, after.log[i]) {
      assert Recorded(w.writer, w.writer.log[i]);
    }
    forall command | command in after.ledger && after.ledger[command].Applied?
      ensures InLogAs(after, command, after.ledger[command].commit)
    {
      assert InLogAs(w.writer, command, w.writer.ledger[command].commit);
    }
    WriterMovesOn(verdict, w, after);
  }

  ghost predicate CanPublish(verdict: Verdict, writer: Writer, p: Pending, commit: Commit)
  {
    && p.command.content == p.changeSet && Publishable(verdict, writer, p.changeSet) && p.command !in writer.ledger
    && commit !in writer.used && commit != ""
  }

  lemma LogGrows(writer: Writer, after: Writer, command: CommandId, commit: Commit)
    requires writer.log <= after.log
    ensures InLog(writer, command) ==> InLog(after, command)
    ensures InLogAs(writer, command, commit) ==> InLogAs(after, command, commit)
  {
    if i :| 0 <= i < |writer.log| && writer.log[i].command == command {
      assert after.log[i] == writer.log[i];
    }
    if i :| 0 <= i < |writer.log| && writer.log[i].command == command && writer.log[i].commit == commit {
      assert after.log[i] == writer.log[i];
    }
  }

  lemma PublishWriter(verdict: Verdict, writer: Writer, p: Pending, commit: Commit, fate: Fate)
    requires WriterInv(writer) && CanPublish(verdict, writer, p, commit)
    ensures WriterInv(Publish(writer, p, commit, fate))
  {
    var after := Publish(writer, p, commit, fate);
    AtHeadIsUnpublished(writer, p);
    assert after.log[|writer.log|] == Published(p.command, p.changeSet, commit);
    forall i | 0 <= i < |after.log| ensures Recorded(after, after.log[i]) {
      assert i < |writer.log| ==> Recorded(writer, writer.log[i]);
    }
    forall command | command in after.ledger && after.ledger[command].Applied?
      ensures InLogAs(after, command, after.ledger[command].commit)
    {
      LogGrows(writer, after, command, after.ledger[command].commit);
    }
    forall command | command in after.errant ensures InLog(after, command) {
      LogGrows(writer, after, command, "");
    }
  }

  /** Publishing one command leaves closed commands closed. */
  lemma PublishLeavesClosed(verdict: Verdict, writer: Writer, p: Pending, commit: Commit, fate: Fate, q: Pending)
    requires CanPublish(verdict, writer, p, commit)
    requires q.command.content == q.changeSet && Closed(verdict, writer, q)
    ensures Closed(verdict, Publish(writer, p, commit, fate), q)
  {
    var log := Publish(writer, p, commit, fate).log;
    if Dead(verdict, writer, q) {
      forall i | 0 <= i < |log| ensures log[i].command != q.command {
        assert i < |writer.log| ==> log[i] == writer.log[i];
      }
    }
  }

  lemma PublishKeeps(verdict: Verdict, w: World, p: Pending, commit: Commit, fate: Fate)
    requires Inv(verdict, w) && p in w.history.stored && CanPublish(verdict, w.writer, p, commit)
    ensures Inv(verdict, w.(writer := Publish(w.writer, p, commit, fate)))
  {
    var after := Publish(w.writer, p, commit, fate);
    PublishWriter(verdict, w.writer, p, commit, fate);
    forall command, c ensures InLogAs(w.writer, command, c) ==> InLogAs(after, command, c) {
      LogGrows(w.writer, after, command, c);
    }
    forall q | q in w.history.stored && Closed(verdict, w.writer, q) ensures Closed(verdict, after, q) {
      assert WellFormed(w.writer.used, q);
      PublishLeavesClosed(verdict, w.writer, p, commit, fate, q);
    }
    forall i | 0 <= i < |after.log| ensures WasStored(w.history.stored, after.log[i].command) {
      assert i < |w.writer.log| ==> WasStored(w.history.stored, w.writer.log[i].command);
    }
    WriterMovesOn(verdict, w, after);
  }

  /** A rejection is final, or the command is blurred. */
  lemma RejectionCloses(verdict: Verdict, writer: Writer, p: Pending)
    requires WriterInv(writer) && WellFormed(writer.used, p) && p.command !in writer.ledger
    requires !Publishable(verdict, writer, p.changeSet)
    ensures Closed(verdict, writer, p)
  {
    if p.command !in writer.errant {
      UnknownIsUnpublished(writer, p.command);
    }
  }

  lemma FailingKeeps(verdict: Verdict, w: World, request: Request, fate: Fate)
    requires Inv(verdict, w) && request in w.requests && fate.FailsUnpublished? && request.pending.command !in w.writer.ledger
    ensures Inv(verdict, Executed(verdict, w, request, "", fate))
  {
    var p := request.pending;
    var after := Failing(verdict, w.writer, p, fate);
    assert WellFormed(w.writer.used, p);
    if fate.forgotten {
      MisleadingKeeps(verdict, w, after);
    } else {
      LedgerKeeps(verdict, w, p.command, Reserved);
    }
    if Publishable(verdict, w.writer, p.changeSet) {
      AtHeadIsUnpublished(w.writer, p);
      assert !fate.forgotten ==> !InLog(after, p.command);
    } else {
      RejectionCloses(verdict, w.writer, p);
    }
    ReplyKeeps(verdict, w.(writer := after), request, Error(fate.code));
  }

  lemma MisleadingKeeps(verdict: Verdict, w: World, after: Writer)
    requires Inv(verdict, w) && after == w.writer.(misled := after.misled) && w.writer.misled <= after.misled
    ensures Inv(verdict, w.(writer := after))
  {
    SameLogExtends(verdict, w.writer, after, w.history.stored);
    SameLogWriter(w.writer, after);
    WriterMovesOn(verdict, w, after);
  }

  lemma SameLogWriter(before: Writer, after: Writer)
    requires WriterInv(before) && after == before.(misled := after.misled)
    ensures WriterInv(after)
  {
    forall i | 0 <= i < |after.log| ensures Recorded(after, after.log[i]) {
      assert Recorded(before, before.log[i]);
    }
    forall command, commit ensures InLogAs(before, command, commit) ==> InLogAs(after, command, commit) {
      LogGrows(before, after, command, commit);
    }
    forall command ensures InLog(before, command) ==> InLog(after, command) {
      LogGrows(before, after, command, "");
    }
  }

  lemma PublicationKeeps(verdict: Verdict, w: World, request: Request, commit: Commit, fate: Fate)
    requires Inv(verdict, w) && request in w.requests && CanPublish(verdict, w.writer, request.pending, commit)
    requires request.pending.command !in w.writer.ledger && !fate.DiesReserved? && !fate.FailsUnpublished?
    ensures Inv(verdict, Executed(verdict, w, request, commit, fate))
  {
    var p := request.pending;
    var published := w.(writer := Publish(w.writer, p, commit, fate));
    PublishKeeps(verdict, w, p, commit, fate);
    assert published.writer.log[|w.writer.log|] == Published(p.command, p.changeSet, commit);
    match fate
    case Completes => ReplyKeeps(verdict, published, request, Receipt(commit));
    case FailsPublished(code, _) => ReplyKeeps(verdict, published, request, Error(code));
    case _ =>
  }

  lemma ExecuteKeeps(verdict: Verdict, w: World, e: Event)
    requires Inv(verdict, w) && Enabled(w, e) && e.Execute?
    ensures Inv(verdict, Next(verdict, w, e))
  {
    var p, writer := e.request.pending, w.writer;
    assert WellFormed(writer.used, p);
    if p.command in writer.ledger {
      var response := if writer.ledger[p.command].Applied? then Receipt(writer.ledger[p.command].commit) else Error(PreconditionFailed);
      ReplyKeeps(verdict, w, e.request, response);
    } else if e.fate.DiesReserved? {
      LedgerKeeps(verdict, w, p.command, Reserved);
    } else if e.fate.FailsUnpublished? {
      FailingKeeps(verdict, w, e.request, e.fate);
    } else if Publishable(verdict, writer, p.changeSet) {
      PublicationKeeps(verdict, w, e.request, e.commit, e.fate);
    } else {
      RejectionCloses(verdict, writer, p);
      var code := if verdict(p.changeSet).Some? then verdict(p.changeSet).value else NonFastForward;
      ReplyKeeps(verdict, w, e.request, Error(code));
    }
  }

  lemma CommitOfIsLogged(writer: Writer, command: CommandId)
    requires InLog(writer, command)
    ensures InLogAs(writer, command, CommitOf(writer, command))
  {
  }

  /** Every event keeps the invariant. */
  lemma NextKeeps(verdict: Verdict, w: World, e: Event)
    requires Inv(verdict, w) && Enabled(w, e)
    ensures Inv(verdict, Next(verdict, w, e))
  {
    match e
    case Activate(_, _, _, _) => ActivateKeeps(verdict, w, e);
    case SetActive(_, _) => ActivateKeeps(verdict, w, e);
    case Acquire(_, _) => AcquireKeeps(verdict, w, e);
    case Authenticate(_, _) => ReadingKeeps(verdict, w, e);
    case ReadHead(_) => ReadingKeeps(verdict, w, e);
    case Collect(_, _) => ReadingKeeps(verdict, w, e);
    case Receive(_, _) => ReceiveKeeps(verdict, w, e);
    case Fail(_, _) => ReadingKeeps(verdict, w, e);
    case SaveEmpty(_) => SaveEmptyKeeps(verdict, w, e);
    case SavePending(_) => SavePendingKeeps(verdict, w, e);
    case Send(_) => SendKeeps(verdict, w, e);
    case DropPending(_) => DropPendingKeeps(verdict, w, e);
    case Advance(_) => AdvanceKeeps(verdict, w, e);
    case Release(_) => LeavingKeeps(verdict, w, e);
    case Crash(_) => LeavingKeeps(verdict, w, e);
    case Execute(_, _, _) => ExecuteKeeps(verdict, w, e);
    case Deny(request, code) => ReplyKeeps(verdict, w, request, Error(code));
    case Resolve(command) =>
      CommitOfIsLogged(w.writer, command);
      LedgerKeeps(verdict, w, command, Applied(CommitOf(w.writer, command)));
    case ForeignPublish(_) => ForeignKeeps(verdict, w, e);
  }
}
