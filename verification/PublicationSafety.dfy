/** What the publish protocol guarantees over whole behaviours: every interleaving of runs,
activations, pauses, crashes, lost replies and lease takeovers. */
module PublicationSafety {
  import opened Kernel
  import Reconcile
  import opened Publication

  /** The invariant passes from the first world to the second. */
  ghost predicate Passes(verdict: Verdict, a: World, b: World)
  {
    Inv(verdict, a) ==> Inv(verdict, b)
  }

  lemma {:induction false} ChainPasses(verdict: Verdict, ws: seq<World>, i: nat)
    requires i < |ws| && Inv(verdict, ws[0])
    requires forall j :: 0 <= j && j + 1 < |ws| ==> Passes(verdict, ws[j], ws[j + 1])
    ensures Inv(verdict, ws[i])
  {
    if i > 0 {
      ChainPasses(verdict, ws, i - 1);
      assert Passes(verdict, ws[i - 1], ws[i - 1 + 1]);
    }
  }

  lemma StartHolds(verdict: Verdict, w: World)
    requires Initial(w)
    ensures Inv(verdict, w)
  {
  }

  lemma StepPasses(verdict: Verdict, w: World, e: Event)
    requires Enabled(w, e)
    ensures Passes(verdict, w, Next(verdict, w, e))
  {
    if Inv(verdict, w) {
      NextKeeps(verdict, w, e);
    }
  }

  /** Every world of every behaviour satisfies the invariant. */
  lemma Reachable(verdict: Verdict, ws: seq<World>, es: seq<Event>, i: nat)
    requires Execution(verdict, ws, es) && i < |ws|
    ensures Inv(verdict, ws[i])
  {
    StartHolds(verdict, ws[0]);
    forall j | 0 <= j && j + 1 < |ws| ensures Passes(verdict, ws[j], ws[j + 1]) {
      StepPasses(verdict, ws[j], es[j]);
    }
    ChainPasses(verdict, ws, i);
  }

  function Stored(w: World): Option<Pending>
  {
    PendingOfRecord(w.record)
  }

  /** The run whose body takes the step, if any. */
  function RunOf(e: Event): Option<RunId>
  {
    match e
    case Authenticate(run, _) => Some(run)
    case ReadHead(run) => Some(run)
    case Collect(run, _) => Some(run)
    case SaveEmpty(run) => Some(run)
    case SavePending(run) => Some(run)
    case Send(run) => Some(run)
    case Receive(run, _) => Some(run)
    case DropPending(run) => Some(run)
    case Advance(run) => Some(run)
    case Fail(run, _) => Some(run)
    case Release(run) => Some(run)
    case Crash(run) => Some(run)
    case _ => None
  }

  // ---------------------------------------------------------------- what histories record

  /** What was recorded in the first world is recorded in the second. */
  ghost predicate Remembers(a: World, b: World)
  {
    && a.history.stored <= b.history.stored
    && a.history.released <= b.history.released
    && a.history.advanced <= b.history.advanced
    && a.writer.log <= b.writer.log
    && a.issued <= b.issued
  }

  lemma HistoryGrows(verdict: Verdict, w: World, e: Event)
    requires Enabled(w, e)
    ensures Remembers(w, Next(verdict, w, e))
  {
  }

  lemma {:induction false} ChainRemembers(ws: seq<World>, i: nat, k: nat)
    requires i <= k < |ws| && forall j :: 0 <= j && j + 1 < |ws| ==> Remembers(ws[j], ws[j + 1])
    ensures Remembers(ws[i], ws[k])
    decreases k
  {
    if i < k {
      ChainRemembers(ws, i, k - 1);
      assert Remembers(ws[k - 1], ws[k - 1 + 1]);
    }
  }

  lemma HistoryMonotone(verdict: Verdict, ws: seq<World>, es: seq<Event>, i: nat, k: nat)
    requires Execution(verdict, ws, es) && i <= k < |ws|
    ensures ws[i].history.stored <= ws[k].history.stored
    ensures ws[i].history.released <= ws[k].history.released
    ensures ws[i].history.advanced <= ws[k].history.advanced
    ensures ws[i].writer.log <= ws[k].writer.log
    ensures ws[i].issued <= ws[k].issued
  {
    forall j | 0 <= j && j + 1 < |ws| ensures Remembers(ws[j], ws[j + 1]) {
      HistoryGrows(verdict, ws[j], es[j]);
    }
    ChainRemembers(ws, i, k);
  }

  /** A pending was in the record before. */
  ghost predicate StoredBefore(ws: seq<World>, i: nat, p: Pending)
    requires i < |ws|
  {
    exists j :: 0 <= j <= i && Stored(ws[j]) == Some(p)
  }

  lemma StoredNow(verdict: Verdict, w: World, e: Event, p: Pending)
    requires Enabled(w, e) && p in Next(verdict, w, e).history.stored
    ensures p in w.history.stored || Stored(Next(verdict, w, e)) == Some(p)
  {
  }

  lemma {:induction false} StoredWasPending(verdict: Verdict, ws: seq<World>, es: seq<Event>, i: nat, p: Pending)
    requires Execution(verdict, ws, es) && i < |ws| && p in ws[i].history.stored
    ensures StoredBefore(ws, i, p)
  {
    if i > 0 {
      assert ws[i - 1 + 1] == Next(verdict, ws[i - 1], es[i - 1]);
      StoredNow(verdict, ws[i - 1], es[i - 1], p);
      if p in ws[i - 1].history.stored {
        StoredWasPending(verdict, ws, es, i - 1, p);
      }
    }
  }

  /** Step j moved the checkpoint to the pending's cursor and the published commit. */
  ghost predicate AdvancedAt(ws: seq<World>, es: seq<Event>, j: nat, p: Pending, commit: Commit)
    requires |ws| == |es| + 1
  {
    && j < |es| && es[j].Advance?
    && Stored(ws[j]) == Some(p)
    && ws[j + 1].record.Some?
    && ws[j + 1].record.value.checkpoint == Checkpoint(p.cursor, commit)
  }

  lemma AdvancedNow(verdict: Verdict, w: World, e: Event, entry: (Pending, Commit))
    requires LeaseInv(w.record, w.runs, w.issued) && Enabled(w, e) && entry in Next(verdict, w, e).history.advanced
    ensures entry in w.history.advanced ||
      (e.Advance? && Stored(w) == Some(entry.0) && Next(verdict, w, e).record.Some?
       && Next(verdict, w, e).record.value.checkpoint == Checkpoint(entry.0.cursor, entry.1))
  {
  }

  lemma {:induction false} AdvancedWasCheckpointed(verdict: Verdict, ws: seq<World>, es: seq<Event>, i: nat, entry: (Pending, Commit))
    requires Execution(verdict, ws, es) && i < |ws| && entry in ws[i].history.advanced
    ensures exists j :: 0 <= j < i && AdvancedAt(ws, es, j, entry.0, entry.1)
  {
    if i > 0 {
      Reachable(verdict, ws, es, i - 1);
      assert ws[i - 1 + 1] == Next(verdict, ws[i - 1], es[i - 1]);
      AdvancedNow(verdict, ws[i - 1], es[i - 1], entry);
      if entry in ws[i - 1].history.advanced {
        AdvancedWasCheckpointed(verdict, ws, es, i - 1, entry);
      } else {
        assert AdvancedAt(ws, es, i - 1, entry.0, entry.1);
      }
    }
  }

  // ------------------------------------------------------------------- where previews come from

  /** At step j the run's Collector output, diffed at `base`, gave this preview, and `base`
  was the head when the run read it. */
  ghost predicate PreviewedAt(ws: seq<World>, es: seq<Event>, h: nat, j: nat, run: RunId, s: RunState)
    requires |ws| == |es| + 1
  {
    && s.Previewed? && h < j < |es|
    && es[h] == ReadHead(run) && ws[h].writer.head == s.base
    && es[j].Collect? && es[j].run == run && es[j].collection.cursor == s.cursor
    && Reconcile.PreviewOf(PlanOf(s.value, s.base, es[j].collection)) == Success(s.preview)
  }

  ghost predicate BaseRead(ws: seq<World>, es: seq<Event>, h: nat, run: RunId, base: Commit)
    requires |ws| == |es| + 1
  {
    h < |es| && es[h] == ReadHead(run) && ws[h].writer.head == base
  }

  lemma BasedNow(verdict: Verdict, w: World, e: Event, run: RunId)
    requires Enabled(w, e)
    requires run in Next(verdict, w, e).runs && Next(verdict, w, e).runs[run].Based?
    ensures var s := Next(verdict, w, e).runs[run];
      (run in w.runs && w.runs[run] == s) || (e == ReadHead(run) && w.writer.head == s.base)
  {
  }

  lemma {:induction false} BaseWasHead(verdict: Verdict, ws: seq<World>, es: seq<Event>, i: nat, run: RunId)
    requires Execution(verdict, ws, es) && i < |ws| && run in ws[i].runs && ws[i].runs[run].Based?
    ensures exists h :: 0 <= h < i && BaseRead(ws, es, h, run, ws[i].runs[run].base)
  {
    if i > 0 {
      assert ws[i - 1 + 1] == Next(verdict, ws[i - 1], es[i - 1]);
      BasedNow(verdict, ws[i - 1], es[i - 1], run);
      if run in ws[i - 1].runs && ws[i - 1].runs[run] == ws[i].runs[run] {
        BaseWasHead(verdict, ws, es, i - 1, run);
      } else {
        assert BaseRead(ws, es, i - 1, run, ws[i].runs[run].base);
      }
    }
  }

  lemma PreviewedNow(verdict: Verdict, w: World, e: Event, run: RunId)
    requires Enabled(w, e)
    requires run in Next(verdict, w, e).runs && Next(verdict, w, e).runs[run].Previewed?
    ensures var s := Next(verdict, w, e).runs[run];
      || (run in w.runs && w.runs[run] == s)
      || (e.Collect? && e.run == run && run in w.runs && w.runs[run] == Based(s.value, s.base) && e.collection.cursor == s.cursor
          && Reconcile.PreviewOf(PlanOf(s.value, s.base, e.collection)) == Success(s.preview))
  {
  }

  lemma {:induction false} PreviewWasCollected(verdict: Verdict, ws: seq<World>, es: seq<Event>, i: nat, run: RunId)
    requires Execution(verdict, ws, es) && i < |ws| && run in ws[i].runs && ws[i].runs[run].Previewed?
    ensures exists h, j :: 0 <= h < j < i && PreviewedAt(ws, es, h, j, run, ws[i].runs[run])
  {
    if i > 0 {
      PreviewedStep(verdict, ws, es, i - 1, run);
      if run in ws[i - 1].runs && ws[i - 1].runs[run] == ws[i].runs[run] {
        PreviewWasCollected(verdict, ws, es, i - 1, run);
      }
    }
  }

  /** A preview is carried over, or collected in this step over a base read before it. */
  lemma PreviewedStep(verdict: Verdict, ws: seq<World>, es: seq<Event>, k: nat, run: RunId)
    requires Execution(verdict, ws, es) && k < |es| && run in ws[k + 1].runs && ws[k + 1].runs[run].Previewed?
    ensures (run in ws[k].runs && ws[k].runs[run] == ws[k + 1].runs[run]) || CollectedAt(ws, es, k, run, ws[k + 1].runs[run])
  {
    PreviewedNow(verdict, ws[k], es[k], run);
    if !(run in ws[k].runs && ws[k].runs[run] == ws[k + 1].runs[run]) {
      BaseWasHead(verdict, ws, es, k, run);
      var h :| 0 <= h < k && BaseRead(ws, es, h, run, ws[k].runs[run].base);
      assert PreviewedAt(ws, es, h, k, run, ws[k + 1].runs[run]);
    }
  }

  ghost predicate CollectedAt(ws: seq<World>, es: seq<Event>, k: nat, run: RunId, s: RunState)
    requires |ws| == |es| + 1 && k < |es|
  {
    exists h :: 0 <= h < k && PreviewedAt(ws, es, h, k, run, s)
  }

  // -------------------------------------------------------------------------- the theorems

  /** The new checkpoint is the cursor of a preview found empty at a commit that was the head. */
  ghost predicate EmptyAt(ws: seq<World>, es: seq<Event>, i: nat, checkpoint: Checkpoint)
    requires |ws| == |es| + 1 && i < |es|
  {
    exists h, j, run, s :: 0 <= h < j < i && PreviewedAt(ws, es, h, j, run, s)
      && s.preview.empty && checkpoint == Checkpoint(s.cursor, s.base)
  }

  /** The new checkpoint is the cursor of the pending ChangeSet, published as that commit. */
  ghost predicate PublishedAs(w: World, checkpoint: Checkpoint)
  {
    && Stored(w).Some?
    && checkpoint.cursor == Stored(w).value.cursor
    && Published(Stored(w).value.command, Stored(w).value.changeSet, checkpoint.commit) in w.writer.log
  }

  lemma LoggedIsPublished(writer: Writer, p: Pending, commit: Commit)
    requires WriterInv(writer) && InLogAs(writer, p.command, commit) && p.command.content == p.changeSet
    ensures Published(p.command, p.changeSet, commit) in writer.log
  {
    var i :| 0 <= i < |writer.log| && writer.log[i].command == p.command && writer.log[i].commit == commit;
    assert Recorded(writer, writer.log[i]);
    assert writer.log[i] == Published(p.command, p.changeSet, commit);
  }

  /** Only `SaveEmpty` and `Advance` of the lease holder move the checkpoint. */
  lemma CheckpointMovers(verdict: Verdict, w: World, e: Event)
    requires LeaseInv(w.record, w.runs, w.issued) && Enabled(w, e) && w.record.Some?
    ensures var after := Next(verdict, w, e).record;
      && after.Some?
      && (after.value.checkpoint == w.record.value.checkpoint
          || (e.SaveEmpty? && w.record.value.leaseId == e.run
              && after.value.checkpoint == Checkpoint(w.runs[e.run].cursor, w.runs[e.run].base))
          || (e.Advance? && w.record.value.leaseId == e.run && Stored(w) == Some(w.runs[e.run].pending)
              && after.value.checkpoint == Checkpoint(w.runs[e.run].pending.cursor, w.runs[e.run].commit)))
  {
  }

  /** A cursor becomes the checkpoint only if its ChangeSet was published, under the commit
  recorded with it, or its preview was empty at a head the run had read. */
  lemma CheckpointIsJustified(verdict: Verdict, ws: seq<World>, es: seq<Event>, i: nat)
    requires Execution(verdict, ws, es) && i < |es|
    requires ws[i].record.Some? && ws[i + 1].record.Some?
    requires ws[i].record.value.checkpoint != ws[i + 1].record.value.checkpoint
    ensures EmptyAt(ws, es, i, ws[i + 1].record.value.checkpoint) || PublishedAs(ws[i], ws[i + 1].record.value.checkpoint)
  {
    var w, e := ws[i], es[i];
    Reachable(verdict, ws, es, i);
    assert Enabled(w, e) && ws[i + 1] == Next(verdict, w, e);
    CheckpointMovers(verdict, w, e);
    if e.SaveEmpty? {
      PreviewWasCollected(verdict, ws, es, i, e.run);
      var h, j :| 0 <= h < j < i && PreviewedAt(ws, es, h, j, e.run, w.runs[e.run]);
      assert w.runs[e.run].preview.empty;
    } else {
      var p, commit := w.runs[e.run].pending, w.runs[e.run].commit;
      assert Informed(verdict, w.writer, w.runs[e.run]);
      assert WellFormed(w.writer.used, p);
      LoggedIsPublished(w.writer, p, commit);
    }
  }

  /** The run was issued and does not hold the lease. */
  predicate Superseded(w: World, run: RunId)
  {
    run in w.issued && w.record.Some? && w.record.value.leaseId != run
  }

  lemma StaysSuperseded(verdict: Verdict, w: World, e: Event, run: RunId)
    requires LeaseInv(w.record, w.runs, w.issued) && Enabled(w, e) && Superseded(w, run)
    ensures Superseded(Next(verdict, w, e), run)
    ensures RunOf(e) == Some(run) ==> Next(verdict, w, e).record == w.record
  {
    assert run != "";
  }

  lemma StepSuperseded(verdict: Verdict, ws: seq<World>, es: seq<Event>, run: RunId, k: nat)
    requires Execution(verdict, ws, es) && k + 1 < |ws| && Superseded(ws[k], run)
    ensures Superseded(ws[k + 1], run)
    ensures RunOf(es[k]) == Some(run) ==> ws[k + 1].record == ws[k].record
  {
    Reachable(verdict, ws, es, k);
    StaysSuperseded(verdict, ws[k], es[k], run);
  }

  ghost predicate KeepsSuperseded(a: World, b: World, run: RunId)
  {
    Superseded(a, run) ==> Superseded(b, run)
  }

  lemma {:induction false} ChainSuperseded(ws: seq<World>, run: RunId, i: nat, k: nat)
    requires i <= k < |ws| && Superseded(ws[i], run)
    requires forall j :: 0 <= j && j + 1 < |ws| ==> KeepsSuperseded(ws[j], ws[j + 1], run)
    ensures Superseded(ws[k], run)
    decreases k
  {
    if i < k {
      ChainSuperseded(ws, run, i, k - 1);
      assert KeepsSuperseded(ws[k - 1], ws[k - 1 + 1], run);
    }
  }

  /** A run that has lost the lease never gets it back and never changes the stored record. */
  lemma SupersededRunIsInert(verdict: Verdict, ws: seq<World>, es: seq<Event>, run: RunId, i: nat, k: nat)
    requires Execution(verdict, ws, es) && i <= k < |ws| && Superseded(ws[i], run)
    ensures Superseded(ws[k], run)
    ensures k < |es| && RunOf(es[k]) == Some(run) ==> ws[k + 1].record == ws[k].record
  {
    forall j | 0 <= j && j + 1 < |ws| ensures KeepsSuperseded(ws[j], ws[j + 1], run) {
      if Superseded(ws[j], run) {
        StepSuperseded(verdict, ws, es, run, j);
      }
    }
    ChainSuperseded(ws, run, i, k);
    if k < |es| {
      StepSuperseded(verdict, ws, es, run, k);
    }
  }

  /** Every Commit request carries a pair that was stored as pending before. */
  lemma CommitCarriesStoredPending(verdict: Verdict, ws: seq<World>, es: seq<Event>, i: nat, request: Request)
    requires Execution(verdict, ws, es) && i < |ws| && request in ws[i].requests
    ensures StoredBefore(ws, i, request.pending)
    ensures request.pending.command.content == request.pending.changeSet
  {
    Reachable(verdict, ws, es, i);
    StoredWasPending(verdict, ws, es, i, request.pending);
    assert WellFormed(ws[i].writer.used, request.pending);
  }

  lemma NoSwap(verdict: Verdict, w: World, e: Event)
    requires LeaseInv(w.record, w.runs, w.issued) && Enabled(w, e)
    requires Stored(w).Some? && Stored(Next(verdict, w, e)).Some?
    ensures Stored(w) == Stored(Next(verdict, w, e))
  {
  }

  /** The pending command is never replaced by another in one step. */
  lemma PendingNeverSwaps(verdict: Verdict, ws: seq<World>, es: seq<Event>, i: nat)
    requires Execution(verdict, ws, es) && i < |es|
    requires Stored(ws[i]).Some? && Stored(ws[i + 1]).Some?
    ensures Stored(ws[i]) == Stored(ws[i + 1])
  {
    Reachable(verdict, ws, es, i);
    NoSwap(verdict, ws[i], es[i]);
  }

  /** No command is published twice. */
  lemma PublishedAtMostOnce(verdict: Verdict, ws: seq<World>, es: seq<Event>, i: nat, a: nat, b: nat)
    requires Execution(verdict, ws, es) && i < |ws|
    requires a < |ws[i].writer.log| && b < |ws[i].writer.log|
    requires ws[i].writer.log[a].command == ws[i].writer.log[b].command
    ensures a == b
  {
    Reachable(verdict, ws, es, i);
  }

  /** Step i gives up the pending command as rejected. */
  ghost predicate ReleasesAsRejected(ws: seq<World>, es: seq<Event>, i: nat, p: Pending)
    requires |ws| == |es| + 1 && i < |es|
  {
    es[i].DropPending? && Stored(ws[i]) == Some(p) && Stored(ws[i + 1]).None?
  }

  lemma DroppedIsReleased(verdict: Verdict, w: World, e: Event, p: Pending)
    requires Inv(verdict, w) && Enabled(w, e) && e.DropPending?
    requires Stored(w) == Some(p) && Stored(Next(verdict, w, e)).None?
    ensures p in Next(verdict, w, e).history.released
  {
  }

  // ------------------------------------------------- what failed applies do to rejections

  /** Step j is handled by the Writer for this command, unknown to its ledger. */
  ghost predicate HandledAt(ws: seq<World>, es: seq<Event>, j: nat, command: CommandId)
    requires |ws| == |es| + 1
  {
    && j < |es| && es[j].Execute? && es[j].request.pending.command == command
    && command !in ws[j].writer.ledger
  }

  /** Step j moves the head to the command's ChangeSet. */
  ghost predicate PublishesAt(verdict: Verdict, ws: seq<World>, es: seq<Event>, j: nat, command: CommandId)
    requires |ws| == |es| + 1
  {
    && HandledAt(ws, es, j, command)
    && !es[j].fate.DiesReserved? && !es[j].fate.FailsUnpublished?
    && Publishable(verdict, ws[j].writer, es[j].request.pending.changeSet)
  }

  /** Step j moves the head and then fails. */
  ghost predicate FailsPublishedAt(verdict: Verdict, ws: seq<World>, es: seq<Event>, j: nat, command: CommandId)
    requires |ws| == |es| + 1
  {
    PublishesAt(verdict, ws, es, j, command) && es[j].fate.FailsPublished?
  }

  /** Step j fails with a code of rejection while nothing stands against publishing. */
  ghost predicate MisleadsAt(verdict: Verdict, ws: seq<World>, es: seq<Event>, j: nat, command: CommandId)
    requires |ws| == |es| + 1
  {
    HandledAt(ws, es, j, command) && Misleads(verdict, ws[j].writer, es[j].request.pending, es[j].fate)
  }

  /** What the Writer's state says of the command, step by step. */
  lemma BlurredNow(verdict: Verdict, ws: seq<World>, es: seq<Event>, k: nat, command: CommandId)
    requires |ws| == |es| + 1 && k < |es| && Enabled(ws[k], es[k]) && ws[k + 1] == Next(verdict, ws[k], es[k])
    ensures command in ws[k + 1].writer.errant <==> command in ws[k].writer.errant || FailsPublishedAt(verdict, ws, es, k, command)
    ensures command in ws[k + 1].writer.misled <==> command in ws[k].writer.misled || MisleadsAt(verdict, ws, es, k, command)
  {
  }

  lemma LoggedNow(verdict: Verdict, ws: seq<World>, es: seq<Event>, k: nat, command: CommandId)
    requires |ws| == |es| + 1 && k < |es| && Enabled(ws[k], es[k]) && ws[k + 1] == Next(verdict, ws[k], es[k])
    ensures InLog(ws[k + 1].writer, command) <==> InLog(ws[k].writer, command) || PublishesAt(verdict, ws, es, k, command)
  {
    var log, more := ws[k].writer.log, ws[k + 1].writer.log;
    LogGrows(ws[k].writer, ws[k + 1].writer, command, "");
    if PublishesAt(verdict, ws, es, k, command) {
      assert more[|log|].command == command;
    }
    forall i | 0 <= i < |more| && more[i].command == command
      ensures InLog(ws[k].writer, command) || PublishesAt(verdict, ws, es, k, command)
    {
      assert i < |log| ==> more[i] == log[i];
    }
  }

  lemma {:induction false} ErrantIff(verdict: Verdict, ws: seq<World>, es: seq<Event>, k: nat, command: CommandId)
    requires Execution(verdict, ws, es) && k < |ws|
    ensures command in ws[k].writer.errant <==> exists j :: 0 <= j < k && FailsPublishedAt(verdict, ws, es, j, command)
  {
    if k > 0 {
      ErrantIff(verdict, ws, es, k - 1, command);
      BlurredNow(verdict, ws, es, k - 1, command);
    }
  }

  lemma {:induction false} MisledIff(verdict: Verdict, ws: seq<World>, es: seq<Event>, k: nat, command: CommandId)
    requires Execution(verdict, ws, es) && k < |ws|
    ensures command in ws[k].writer.misled <==> exists j :: 0 <= j < k && MisleadsAt(verdict, ws, es, j, command)
  {
    if k > 0 {
      MisledIff(verdict, ws, es, k - 1, command);
      BlurredNow(verdict, ws, es, k - 1, command);
    }
  }

  lemma {:induction false} LoggedIff(verdict: Verdict, ws: seq<World>, es: seq<Event>, k: nat, command: CommandId)
    requires Execution(verdict, ws, es) && k < |ws|
    ensures InLog(ws[k].writer, command) <==> exists j :: 0 <= j < k && PublishesAt(verdict, ws, es, j, command)
  {
    if k > 0 {
      LoggedIff(verdict, ws, es, k - 1, command);
      LoggedNow(verdict, ws, es, k - 1, command);
    }
  }

  /** A command is published by one step only, although its ledger entry may be given up. */
  lemma PublishingStepIsUnique(verdict: Verdict, ws: seq<World>, es: seq<Event>, a: nat, b: nat, command: CommandId)
    requires Execution(verdict, ws, es)
    requires PublishesAt(verdict, ws, es, a, command) && PublishesAt(verdict, ws, es, b, command)
    ensures a == b
  {
    if a < b {
      LateIsUnpublished(verdict, ws, es, a, b, command);
    } else if b < a {
      LateIsUnpublished(verdict, ws, es, b, a, command);
    }
  }

  lemma LateIsUnpublished(verdict: Verdict, ws: seq<World>, es: seq<Event>, a: nat, b: nat, command: CommandId)
    requires Execution(verdict, ws, es) && a < b && PublishesAt(verdict, ws, es, b, command)
    ensures !PublishesAt(verdict, ws, es, a, command)
  {
    Reachable(verdict, ws, es, b);
    assert Enabled(ws[b], es[b]);
    assert WellFormed(ws[b].writer.used, es[b].request.pending);
    AtHeadIsUnpublished(ws[b].writer, es[b].request.pending);
    LoggedIff(verdict, ws, es, b, command);
  }

  lemma ReleasedNow(verdict: Verdict, ws: seq<World>, es: seq<Event>, k: nat, p: Pending)
    requires |ws| == |es| + 1 && k < |es| && Enabled(ws[k], es[k]) && ws[k + 1] == Next(verdict, ws[k], es[k])
    requires LeaseInv(ws[k].record, ws[k].runs, ws[k].issued) && p in ws[k + 1].history.released
    ensures p in ws[k].history.released || ReleasesAsRejected(ws, es, k, p)
  {
  }

  lemma {:induction false} ReleasedWasDropped(verdict: Verdict, ws: seq<World>, es: seq<Event>, i: nat, p: Pending)
    requires Execution(verdict, ws, es) && i < |ws| && p in ws[i].history.released
    ensures exists j :: 0 <= j < i && ReleasesAsRejected(ws, es, j, p)
  {
    if i > 0 {
      Reachable(verdict, ws, es, i - 1);
      ReleasedNow(verdict, ws, es, i - 1, p);
      if p in ws[i - 1].history.released {
        ReleasedWasDropped(verdict, ws, es, i - 1, p);
      }
    }
  }

  /** A failed apply is to blame for the publication at step j: its own, or an earlier or later
  one that passed for a rejection. */
  ghost predicate Blamed(verdict: Verdict, ws: seq<World>, es: seq<Event>, j: nat, command: CommandId)
    requires |ws| == |es| + 1
  {
    FailsPublishedAt(verdict, ws, es, j, command) || exists m :: 0 <= m < |es| && MisleadsAt(verdict, ws, es, m, command)
  }

  lemma BlurIsBlamed(verdict: Verdict, ws: seq<World>, es: seq<Event>, j: nat, k: nat, command: CommandId)
    requires Execution(verdict, ws, es) && k < |ws| && Blurred(ws[k].writer, command)
    requires PublishesAt(verdict, ws, es, j, command)
    ensures Blamed(verdict, ws, es, j, command)
  {
    ErrantIff(verdict, ws, es, k, command);
    MisledIff(verdict, ws, es, k, command);
    if command in ws[k].writer.errant {
      var m :| 0 <= m < k && FailsPublishedAt(verdict, ws, es, m, command);
      PublishingStepIsUnique(verdict, ws, es, m, j, command);
    }
  }

  /** A pending released as rejected is ever published exactly by a step that a failed apply is to
  blame for; delayed requests of stale runs publish it on no other account. */
  lemma RejectedIsPublishedIff(verdict: Verdict, ws: seq<World>, es: seq<Event>, i: nat, p: Pending, k: nat)
    requires Execution(verdict, ws, es) && i < |es| && ReleasesAsRejected(ws, es, i, p) && k < |ws|
    ensures InLog(ws[k].writer, p.command) <==>
      exists j :: 0 <= j < k && PublishesAt(verdict, ws, es, j, p.command) && Blamed(verdict, ws, es, j, p.command)
  {
    LoggedIff(verdict, ws, es, k, p.command);
    if InLog(ws[k].writer, p.command) {
      var j :| 0 <= j < k && PublishesAt(verdict, ws, es, j, p.command);
      var last := if k < i + 1 then i + 1 else k;
      ReleasedIsClosed(verdict, ws, es, i, p, last);
      HistoryMonotone(verdict, ws, es, k, last);
      LogGrows(ws[k].writer, ws[last].writer, p.command, "");
      BlurIsBlamed(verdict, ws, es, j, last, p.command);
    }
  }

  lemma ReleasedIsClosed(verdict: Verdict, ws: seq<World>, es: seq<Event>, i: nat, p: Pending, k: nat)
    requires Execution(verdict, ws, es) && i < |es| && ReleasesAsRejected(ws, es, i, p) && i < k < |ws|
    ensures Closed(verdict, ws[k].writer, p)
  {
    Reachable(verdict, ws, es, i);
    assert Enabled(ws[i], es[i]) && ws[i + 1] == Next(verdict, ws[i], es[i]);
    DroppedIsReleased(verdict, ws[i], es[i], p);
    HistoryMonotone(verdict, ws, es, i + 1, k);
    Reachable(verdict, ws, es, k);
  }

  /** No apply of the command fails with a code of rejection unless something does reject it. */
  ghost predicate HonestlyRejected(verdict: Verdict, ws: seq<World>, es: seq<Event>, command: CommandId)
    requires |ws| == |es| + 1
  {
    forall m :: 0 <= m < |es| ==> !MisleadsAt(verdict, ws, es, m, command)
  }

  /** With honest codes, a pending released as rejected stays unpublished through the whole
  behaviour exactly if no apply of its command failed after moving the head. */
  lemma RejectedIsNeverPublished(verdict: Verdict, ws: seq<World>, es: seq<Event>, i: nat, p: Pending)
    requires Execution(verdict, ws, es) && i < |es| && ReleasesAsRejected(ws, es, i, p)
    requires HonestlyRejected(verdict, ws, es, p.command)
    ensures (forall k :: 0 <= k < |ws| ==> !InLog(ws[k].writer, p.command)) <==>
      forall j :: 0 <= j < |es| ==> !FailsPublishedAt(verdict, ws, es, j, p.command)
  {
    forall k | 0 <= k < |ws| ensures InLog(ws[k].writer, p.command) ==>
      exists j :: 0 <= j < |es| && FailsPublishedAt(verdict, ws, es, j, p.command)
    {
      RejectedIsPublishedIff(verdict, ws, es, i, p, k);
    }
    forall j | 0 <= j < |es| && FailsPublishedAt(verdict, ws, es, j, p.command) ensures InLog(ws[|es|].writer, p.command) {
      LoggedIff(verdict, ws, es, |es|, p.command);
    }
  }

  /** The command was released as rejected, and a failed apply is to blame for its publication. */
  ghost predicate ForgottenByFailure(verdict: Verdict, ws: seq<World>, es: seq<Event>, i: nat, command: CommandId)
    requires |ws| == |es| + 1
  {
    && (exists j, p :: 0 <= j < i && j < |es| && ReleasesAsRejected(ws, es, j, p) && p.command == command)
    && (exists j :: 0 <= j < i && PublishesAt(verdict, ws, es, j, command) && Blamed(verdict, ws, es, j, command))
  }

  /** Every published ChangeSet is still pending, or some step moved the checkpoint to its cursor
  and its commit, or it was released as rejected over a failed apply. */
  lemma NoPublicationForgotten(verdict: Verdict, ws: seq<World>, es: seq<Event>, i: nat, n: nat)
    requires Execution(verdict, ws, es) && i < |ws| && n < |ws[i].writer.log|
    ensures var entry := ws[i].writer.log[n];
      || Current(Stored(ws[i]), entry.command)
      || (exists j, p :: 0 <= j < i && AdvancedAt(ws, es, j, p, entry.commit) && p.command == entry.command)
      || ForgottenByFailure(verdict, ws, es, i, entry.command)
  {
    var w := ws[i];
    var entry := w.writer.log[n];
    Reachable(verdict, ws, es, i);
    assert WasStored(w.history.stored, entry.command);
    var p :| p in w.history.stored && p.command == entry.command;
    assert Settled(Stored(w), w.history, p.command);
    if WasAdvanced(w.history.advanced, entry.command) {
      AdvancedLed(verdict, ws, es, i, n);
    } else if WasReleased(w.history.released, entry.command) {
      ReleasedOverFailure(verdict, ws, es, i, n);
    }
  }

  lemma AdvancedLed(verdict: Verdict, ws: seq<World>, es: seq<Event>, i: nat, n: nat)
    requires Execution(verdict, ws, es) && i < |ws| && n < |ws[i].writer.log|
    requires WasAdvanced(ws[i].history.advanced, ws[i].writer.log[n].command)
    ensures var entry := ws[i].writer.log[n];
      exists j, p :: 0 <= j < i && AdvancedAt(ws, es, j, p, entry.commit) && p.command == entry.command
  {
    var w := ws[i];
    var entry := w.writer.log[n];
    Reachable(verdict, ws, es, i);
    var done :| done in w.history.advanced && done.0.command == entry.command;
    assert InLogAs(w.writer, done.0.command, done.1);
    var m :| 0 <= m < |w.writer.log| && w.writer.log[m].command == done.0.command && w.writer.log[m].commit == done.1;
    assert m == n;
    AdvancedWasCheckpointed(verdict, ws, es, i, done);
    var j :| 0 <= j < i && AdvancedAt(ws, es, j, done.0, done.1);
  }

  lemma ReleasedOverFailure(verdict: Verdict, ws: seq<World>, es: seq<Event>, i: nat, n: nat)
    requires Execution(verdict, ws, es) && i < |ws| && n < |ws[i].writer.log|
    requires WasReleased(ws[i].history.released, ws[i].writer.log[n].command)
    ensures ForgottenByFailure(verdict, ws, es, i, ws[i].writer.log[n].command)
  {
    var w := ws[i];
    var command := w.writer.log[n].command;
    Reachable(verdict, ws, es, i);
    var p :| p in w.history.released && p.command == command;
    ReleasedWasDropped(verdict, ws, es, i, p);
    assert InLog(w.writer, command);
    LoggedIff(verdict, ws, es, i, command);
    var j :| 0 <= j < i && PublishesAt(verdict, ws, es, j, command);
    BlurIsBlamed(verdict, ws, es, j, i, command);
  }
}
