/** A run of the publish protocol in which a published ChangeSet is given up as rejected.

The first run's apply moves the head and then fails; the second run sends the same command, of
which the ledger knows nothing any more, and is told NON_FAST_FORWARD. */
module PublicationFailure {
  import opened Kernel
  import Reconcile
  import opened Publication
  import opened PublicationSafety

  /** A behaviour so far. */
  datatype Trace = Trace(ws: seq<World>, es: seq<Event>)
  {
    ghost predicate Valid(verdict: Verdict)
    {
      Execution(verdict, ws, es)
    }

    ghost function Last(): World
      requires |ws| > 0
    {
      ws[|ws| - 1]
    }
  }

  ghost function Then(verdict: Verdict, t: Trace, e: Event): Trace
    requires t.Valid(verdict) && Enabled(t.Last(), e)
  {
    Trace(t.ws + [Next(verdict, t.Last(), e)], t.es + [e])
  }

  lemma ThenIsValid(verdict: Verdict, t: Trace, e: Event)
    requires t.Valid(verdict) && Enabled(t.Last(), e)
    ensures Then(verdict, t, e).Valid(verdict)
    ensures Then(verdict, t, e).Last() == Next(verdict, t.Last(), e)
  {
    var n := Then(verdict, t, e);
    forall i | 0 <= i < |n.es| ensures Enabled(n.ws[i], n.es[i]) && n.ws[i + 1] == Next(verdict, n.ws[i], n.es[i]) {
      if i < |t.es| {
        assert n.ws[i] == t.ws[i] && n.es[i] == t.es[i] && n.ws[i + 1] == t.ws[i + 1];
      }
    }
  }

  lemma Step(verdict: Verdict, t: Trace, e: Event) returns (n: Trace)
    requires t.Valid(verdict) && Enabled(t.Last(), e)
    ensures n.Valid(verdict) && n == Then(verdict, t, e) && n.Last() == Next(verdict, t.Last(), e)
  {
    n := Then(verdict, t, e);
    ThenIsValid(verdict, t, e);
  }

  ghost function Start(base: Commit): World
  {
    World(None, map[], {}, Writer(base, {base}, map[], [], {}, {}), {}, {}, History({}, {}, {}))
  }

  /** Before anything is sent: run "a" at work. */
  ghost function Working(base: Commit, record: Record, state: RunState, stored: set<Pending>): World
  {
    World(Some(record), map["a" := state], {"a"}, Start(base).writer, {}, {}, History(stored, {}, {}))
  }

  /** The record as the first run takes its lease. */
  function FirstLease(manifest: Manifest, artifact: string, owner: string): (r: Record)
    requires ValidManifest(manifest)
    ensures r.owner == owner && r.pending.None? && r.leaseId == "a" && r.active && r.checkpoint == Checkpoint("", "")
  {
    Acquired(Activation(None, manifest, artifact, owner, 0).value, "a", 0).value
  }

  lemma Begins(verdict: Verdict, base: Commit, manifest: Manifest, artifact: string, owner: string)
    requires ValidManifest(manifest)
    ensures Enabled(Start(base), Activate(manifest, artifact, owner, 0))
    ensures var w, first := Next(verdict, Start(base), Activate(manifest, artifact, owner, 0)), FirstLease(manifest, artifact, owner);
      Enabled(w, Acquire("a", 0)) && Next(verdict, w, Acquire("a", 0)) == Working(base, first, Leased(first), {})
  {
  }

  lemma Reads(verdict: Verdict, base: Commit, first: Record)
    requires first.pending.None?
    ensures var w := Working(base, first, Leased(first), {});
      Enabled(w, Authenticate("a", first.owner)) && Next(verdict, w, Authenticate("a", first.owner)) == Working(base, first, Collecting(first), {})
    ensures var w := Working(base, first, Collecting(first), {});
      Enabled(w, ReadHead("a")) && Next(verdict, w, ReadHead("a")) == Working(base, first, Based(first, base), {})
  {
  }

  lemma Collects(verdict: Verdict, w: World, run: RunId, c: Collection)
    requires At(w, run) && w.runs[run].Based?
    ensures var s := w.runs[run];
      Next(verdict, w, Collect(run, c)) == ToRun(w, run, Diffed(s.value, s.base, c.cursor, Reconcile.PreviewOf(PlanOf(s.value, s.base, c))))
  {
  }

  lemma Moves(base: Commit, record: Record, from: RunState, to: RunState, stored: set<Pending>)
    ensures ToRun(Working(base, record, from, stored), "a", to) == Working(base, record, to, stored)
  {
  }

  lemma Saves(verdict: Verdict, base: Commit, first: Record, cursor: string, preview: Reconcile.PreviewResult)
    requires first.leaseId == "a" && !preview.empty
    ensures var w, p := Working(base, first, Previewed(first, base, cursor, preview), {}), PendingOf(first, cursor, preview.changeSet);
      Enabled(w, SavePending("a")) && Next(verdict, w, SavePending("a")) == Working(base, WithPending(first, p), Sending(p), {p})
  {
  }

  /** Run "a" has stored its command and sent it. */
  lemma Offered(verdict: Verdict, base: Commit, manifest: Manifest, artifact: string, owner: string, first: Record, c: Collection,
                preview: Reconcile.PreviewResult, p: Pending)
    returns (t: Trace)
    requires base != "" && ValidManifest(manifest) && first == FirstLease(manifest, artifact, owner)
    requires Reconcile.PreviewOf(PlanOf(first, base, c)) == Success(preview) && !preview.empty
    requires p == PendingOf(first, c.cursor, preview.changeSet)
    ensures t.Valid(verdict) && t.Last() == Working(base, WithPending(first, p), Sending(p), {p})
  {
    t := Trace([Start(base)], []);
    Begins(verdict, base, manifest, artifact, owner);
    t := Step(verdict, t, Activate(manifest, artifact, owner, 0));
    t := Step(verdict, t, Acquire("a", 0));
    Reads(verdict, base, first);
    t := Step(verdict, t, Authenticate("a", owner));
    t := Step(verdict, t, ReadHead("a"));
    Collects(verdict, t.Last(), "a", c);
    Moves(base, first, Based(first, base), Previewed(first, base, c.cursor, preview), {});
    t := Step(verdict, t, Collect("a", c));
    Saves(verdict, base, first, c.cursor, preview);
    t := Step(verdict, t, SavePending("a"));
  }

  /** The head has moved to `p` as `commit`, the ledger is empty, and no run is at work. */
  ghost predicate Stranded(w: World, p: Pending, commit: Commit, late: Commit)
  {
    && w.record.Some? && w.record.value.pending == Some(p) && w.record.value.active && w.record.value.leaseId == ""
    && w.record.value.checkpoint == Checkpoint("", "")
    && w.runs == map[] && w.issued == {"a"} && InLog(w.writer, p.command)
    && w.writer.ledger == map[] && w.writer.head == commit != p.changeSet.expectedTargetCommit && Fresh(w, late)
  }

  /** The apply of run "a" fails after moving the head; the run leaves with the error. */
  lemma Strands(verdict: Verdict, t0: Trace, base: Commit, record: Record, p: Pending, commit: Commit, late: Commit) returns (t: Trace)
    requires t0.Valid(verdict) && t0.Last() == Working(base, record, Sending(p), {p})
    requires record.pending == Some(p) && record.active && record.leaseId == "a" && record.checkpoint == Checkpoint("", "")
    requires commit != "" && commit != base && late != "" && late !in {base, commit} && p.changeSet.expectedTargetCommit == base && verdict(p.changeSet).None?
    ensures t.Valid(verdict) && Stranded(t.Last(), p, commit, late)
  {
    var request, fate := Request("a", p), FailsPublished(TemporaryUnavailable, true);
    t := Step(verdict, t0, Send("a"));
    t := Step(verdict, t, Execute(request, commit, fate));
    assert t.Last().writer == Publish(Start(base).writer, p, commit, fate);
    assert t.Last().writer.log[0].command == p.command;
    t := Step(verdict, t, Receive("a", Error(TemporaryUnavailable)));
    assert t.Last().runs["a"] == Releasing(Some(TemporaryUnavailable));
    t := Step(verdict, t, Release("a"));
  }

  /** Run "b" has sent the stored command again. */
  ghost predicate Asked(w: World, p: Pending, commit: Commit, late: Commit)
  {
    && w.record.Some? && w.record.value.pending == Some(p) && w.record.value.leaseId == "b"
    && w.record.value.checkpoint == Checkpoint("", "")
    && At(w, "b") && w.runs["b"] == Waiting(p) && Request("b", p) in w.requests
    && InLog(w.writer, p.command) && w.writer.ledger == map[] && w.writer.head == commit != p.changeSet.expectedTargetCommit
    && Fresh(w, late)
  }

  lemma Asks(verdict: Verdict, t0: Trace, p: Pending, commit: Commit, late: Commit) returns (t: Trace)
    requires t0.Valid(verdict) && Stranded(t0.Last(), p, commit, late)
    ensures t.Valid(verdict) && Asked(t.Last(), p, commit, late)
  {
    t := Step(verdict, t0, Acquire("b", 0));
    t := Step(verdict, t, Authenticate("b", t0.Last().record.value.owner));
    t := Step(verdict, t, Send("b"));
  }

  /** The ledger does not know the command, and the head is no longer what it expects. */
  lemma IsTold(verdict: Verdict, t0: Trace, p: Pending, commit: Commit, late: Commit) returns (t: Trace)
    requires t0.Valid(verdict) && Asked(t0.Last(), p, commit, late) && verdict(p.changeSet).None?
    ensures t.Valid(verdict) && t.Last() == t0.Last().(
      replies := t0.Last().replies + {Reply(Request("b", p), Error(NonFastForward))}, runs := t0.Last().runs["b" := Refused(p, NonFastForward)])
  {
    t := Step(verdict, t0, Execute(Request("b", p), late, Completes));
    t := Step(verdict, t, Receive("b", Error(NonFastForward)));
  }

  /** The next run sends the stored command again and takes the answer for a rejection. */
  lemma GivesUp(verdict: Verdict, t0: Trace, p: Pending, commit: Commit, late: Commit) returns (t: Trace)
    requires t0.Valid(verdict) && Stranded(t0.Last(), p, commit, late) && verdict(p.changeSet).None?
    ensures ReleasedThoughPublished(verdict, t, p)
  {
    var asked := Asks(verdict, t0, p, commit, late);
    var told := IsTold(verdict, asked, p, commit, late);
    t := Step(verdict, told, DropPending("b"));
    assert t.ws[|t.es| - 1] == told.Last() && t.ws[|t.es|] == t.Last();
  }

  /** The last step releases `p` as rejected, although it is published; the checkpoint never moved. */
  ghost predicate ReleasedThoughPublished(verdict: Verdict, t: Trace, p: Pending)
  {
    && t.Valid(verdict) && |t.es| > 0 && |t.ws| == |t.es| + 1 && ReleasesAsRejected(t.ws, t.es, |t.es| - 1, p)
    && InLog(t.Last().writer, p.command) && t.Last().record.Some? && t.Last().record.value.checkpoint == Checkpoint("", "")
  }

  lemma Ends(verdict: Verdict, t0: Trace, base: Commit, record: Record, p: Pending, commit: Commit, late: Commit) returns (t: Trace)
    requires t0.Valid(verdict) && t0.Last() == Working(base, record, Sending(p), {p})
    requires record.pending == Some(p) && record.active && record.leaseId == "a" && record.checkpoint == Checkpoint("", "")
    requires commit != "" && commit != base && late != "" && late !in {base, commit}
    requires p.changeSet.expectedTargetCommit == base && verdict(p.changeSet).None?
    ensures ReleasedThoughPublished(verdict, t, p)
  {
    var stranded := Strands(verdict, t0, base, record, p, commit, late);
    t := GivesUp(verdict, stranded, p, commit, late);
  }

  /** Whatever there is to publish, some behaviour publishes it, then releases it as rejected, and
  never moves the checkpoint. */
  lemma PublishedThenRejected(verdict: Verdict, base: Commit, commit: Commit, late: Commit, manifest: Manifest, artifact: string,
                              owner: string, c: Collection, preview: Reconcile.PreviewResult)
    returns (t: Trace, p: Pending)
    requires base != "" && commit != "" && commit != base && late != "" && late !in {base, commit} && ValidManifest(manifest)
    requires Reconcile.PreviewOf(PlanOf(FirstLease(manifest, artifact, owner), base, c)) == Success(preview)
    requires !preview.empty && preview.changeSet.expectedTargetCommit == base && verdict(preview.changeSet).None?
    ensures p.changeSet == preview.changeSet && ReleasedThoughPublished(verdict, t, p)
  {
    var first := FirstLease(manifest, artifact, owner);
    p := PendingOf(first, c.cursor, preview.changeSet);
    var offered := Offered(verdict, base, manifest, artifact, owner, first, c, preview, p);
    t := Ends(verdict, offered, base, WithPending(first, p), p, commit, late);
  }
}
