/** Leases and identity of an integration over whole behaviours of the publish protocol
(integrationruntime/runtime.go): who can take the lease when, and what never changes. */
module PublicationLease {
  import opened Kernel
  import opened Publication
  import opened PublicationSafety

  /** The run holds the lease, until then. */
  predicate Holds(w: World, run: RunId, until: int)
  {
    w.record.Some? && w.record.value.leaseId == run && w.record.value.leaseUntil == until
  }

  /** The step takes the lease, gives the run's back, or starts the record anew. */
  predicate MovesLease(e: Event, run: RunId)
  {
    e.Acquire? || e.Activate? || e == Release(run)
  }

  ghost predicate Unmoved(es: seq<Event>, i: nat, k: nat, run: RunId)
    requires k <= |es|
  {
    forall j :: i <= j < k ==> !MovesLease(es[j], run)
  }

  lemma HoldsOn(verdict: Verdict, w: World, e: Event, run: RunId, until: int)
    requires Enabled(w, e) && Holds(w, run, until) && !MovesLease(e, run)
    ensures Holds(Next(verdict, w, e), run, until)
  {
  }

  ghost predicate KeepsLease(ws: seq<World>, es: seq<Event>, j: nat, run: RunId, until: int)
    requires |ws| == |es| + 1 && j < |es|
  {
    Holds(ws[j], run, until) && !MovesLease(es[j], run) ==> Holds(ws[j + 1], run, until)
  }

  lemma {:induction false} ChainHolds(ws: seq<World>, es: seq<Event>, i: nat, k: nat, run: RunId, until: int)
    requires |ws| == |es| + 1 && i <= k < |ws| && Holds(ws[i], run, until) && Unmoved(es, i, k, run)
    requires forall j :: 0 <= j < |es| ==> KeepsLease(ws, es, j, run, until)
    ensures Holds(ws[k], run, until)
    decreases k
  {
    if i < k {
      ChainHolds(ws, es, i, k - 1, run, until);
      assert KeepsLease(ws, es, k - 1, run, until);
    }
  }

  lemma StillHolds(verdict: Verdict, ws: seq<World>, es: seq<Event>, i: nat, k: nat, run: RunId, until: int)
    requires Execution(verdict, ws, es) && i <= k < |ws| && Holds(ws[i], run, until) && Unmoved(es, i, k, run)
    ensures Holds(ws[k], run, until)
  {
    forall j | 0 <= j < |es| ensures KeepsLease(ws, es, j, run, until) {
      if Holds(ws[j], run, until) && !MovesLease(es[j], run) {
        HoldsOn(verdict, ws[j], es[j], run, until);
      }
    }
    ChainHolds(ws, es, i, k, run, until);
  }

  lemma Takes(verdict: Verdict, w: World, run: RunId, now: int)
    requires Enabled(w, Acquire(run, now))
    ensures Holds(Next(verdict, w, Acquire(run, now)), run, now + w.record.value.manifest.timeoutSeconds + 90)
  {
  }

  /** A run took the lease at step i and it has not been moved up to k: whatever has happened
  meanwhile, a new run can take it exactly if the integration is active and the time has run out;
  and until then no activation is possible. */
  lemma LeaseExcludesIff(verdict: Verdict, ws: seq<World>, es: seq<Event>, i: nat, k: nat, other: RunId, later: int)
    requires Execution(verdict, ws, es) && i < k < |ws| && es[i].Acquire? && Unmoved(es, i + 1, k, es[i].run)
    requires other != "" && other !in ws[k].issued
    ensures ws[i].record.Some? && ws[k].record.Some?
    ensures var until := es[i].now + ws[i].record.value.manifest.timeoutSeconds + 90;
      && (Enabled(ws[k], Acquire(other, later)) <==> ws[k].record.value.active && later >= until)
      && (later < until ==> forall manifest, artifact, owner :: !Enabled(ws[k], Activate(manifest, artifact, owner, later)))
  {
    var run, now := es[i].run, es[i].now;
    assert Enabled(ws[i], es[i]) && ws[i + 1] == Next(verdict, ws[i], es[i]);
    Takes(verdict, ws[i], run, now);
    StillHolds(verdict, ws, es, i + 1, k, run, now + ws[i].record.value.manifest.timeoutSeconds + 90);
    Reachable(verdict, ws, es, i);
  }

  predicate Free(w: World)
  {
    w.record.Some? && w.record.value.leaseId == ""
  }

  ghost predicate KeepsFree(ws: seq<World>, es: seq<Event>, j: nat)
    requires |ws| == |es| + 1 && j < |es|
  {
    Free(ws[j]) && !es[j].Acquire? ==> Free(ws[j + 1])
  }

  lemma StepFree(verdict: Verdict, w: World, e: Event)
    requires LeaseInv(w.record, w.runs, w.issued) && Enabled(w, e) && !e.Acquire?
    requires Free(w) || (e.Release? && w.record.value.leaseId == e.run)
    ensures Free(Next(verdict, w, e))
  {
  }

  ghost predicate Untaken(es: seq<Event>, k: nat, m: nat)
    requires m <= |es|
  {
    forall j :: k <= j < m ==> !es[j].Acquire?
  }

  lemma {:induction false} ChainFree(ws: seq<World>, es: seq<Event>, k: nat, m: nat)
    requires |ws| == |es| + 1 && k <= m < |ws| && Free(ws[k]) && Untaken(es, k, m)
    requires forall j :: 0 <= j < |es| ==> KeepsFree(ws, es, j)
    ensures Free(ws[m])
    decreases m
  {
    if k < m {
      ChainFree(ws, es, k, m - 1);
      assert KeepsFree(ws, es, m - 1);
    }
  }

  /** Once the holder has given the lease back, and until somebody takes it, a new run can take it
  at any time exactly if the integration is active, whatever superseded runs still do. */
  lemma ReleasedIsFree(verdict: Verdict, ws: seq<World>, es: seq<Event>, k: nat, m: nat, other: RunId, later: int)
    requires Execution(verdict, ws, es) && k < m < |ws|
    requires es[k].Release? && ws[k].record.Some? && ws[k].record.value.leaseId == es[k].run && Untaken(es, k, m)
    requires other != "" && other !in ws[m].issued
    ensures ws[m].record.Some? && (Enabled(ws[m], Acquire(other, later)) <==> ws[m].record.value.active)
  {
    forall j | 0 <= j < |es| ensures KeepsFree(ws, es, j) {
      if Free(ws[j]) && !es[j].Acquire? {
        Reachable(verdict, ws, es, j);
        StepFree(verdict, ws[j], es[j]);
      }
    }
    Reachable(verdict, ws, es, k);
    StepFree(verdict, ws[k], es[k]);
    ChainFree(ws, es, k + 1, m);
  }

  // ------------------------------------------------------------------------- what never changes

  /** The same integration for the same owner and target; runs are only ever added. */
  predicate SameIntegration(a: World, b: World)
  {
    a.record.Some? ==>
      && b.record.Some? && a.record.value.runs <= b.record.value.runs
      && a.record.value.owner == b.record.value.owner
      && a.record.value.manifest.id == b.record.value.manifest.id
      && a.record.value.manifest.repository == b.record.value.manifest.repository
      && a.record.value.manifest.server == b.record.value.manifest.server
      && a.record.value.manifest.ref == b.record.value.manifest.ref
  }

  lemma ActivateSame(verdict: Verdict, w: World, e: Event)
    requires Enabled(w, e) && e.Activate?
    ensures SameIntegration(w, Next(verdict, w, e))
  {
  }

  lemma OtherSame(verdict: Verdict, w: World, e: Event)
    requires Enabled(w, e) && !e.Activate? && !LeavesRecord(e)
    ensures SameIntegration(w, Next(verdict, w, e))
  {
  }

  /** The step is no edit of the record. */
  predicate LeavesRecord(e: Event)
  {
    || e.Authenticate? || e.ReadHead? || e.Collect? || e.Send? || e.Receive? || e.Fail? || e.Crash?
    || e.Execute? || e.Deny? || e.Resolve? || e.ForeignPublish?
  }

  lemma RecordStays(verdict: Verdict, w: World, e: Event)
    requires Enabled(w, e) && LeavesRecord(e)
    ensures Next(verdict, w, e).record == w.record
  {
  }

  lemma StepSame(verdict: Verdict, w: World, e: Event)
    requires Enabled(w, e)
    ensures SameIntegration(w, Next(verdict, w, e))
  {
    if e.Activate? {
      ActivateSame(verdict, w, e);
    } else if LeavesRecord(e) {
      RecordStays(verdict, w, e);
    } else {
      OtherSame(verdict, w, e);
    }
  }

  lemma {:induction false} ChainSame(ws: seq<World>, i: nat, k: nat)
    requires i <= k < |ws| && forall j :: 0 <= j && j + 1 < |ws| ==> SameIntegration(ws[j], ws[j + 1])
    ensures SameIntegration(ws[i], ws[k])
    decreases k
  {
    if i < k {
      ChainSame(ws, i, k - 1);
      assert SameIntegration(ws[k - 1], ws[k - 1 + 1]);
    }
  }

  /** However often it is activated, paused and run: an integration keeps owner, server, repository
  and ref, and its count of runs never falls. */
  lemma IntegrationIsFixed(verdict: Verdict, ws: seq<World>, es: seq<Event>, i: nat, k: nat)
    requires Execution(verdict, ws, es) && i <= k < |ws|
    ensures SameIntegration(ws[i], ws[k])
  {
    forall j | 0 <= j && j + 1 < |ws| ensures SameIntegration(ws[j], ws[j + 1]) {
      StepSame(verdict, ws[j], es[j]);
    }
    ChainSame(ws, i, k);
  }

  /** The step is a run's that moves the checkpoint. */
  predicate MovesCheckpoint(e: Event)
  {
    e.SaveEmpty? || e.Advance?
  }

  predicate SameCheckpoint(a: World, b: World)
  {
    a.record.Some? ==> b.record.Some? && a.record.value.checkpoint == b.record.value.checkpoint
  }

  lemma StepKeepsCheckpoint(verdict: Verdict, w: World, e: Event)
    requires Enabled(w, e) && !MovesCheckpoint(e)
    ensures SameCheckpoint(w, Next(verdict, w, e))
  {
    if LeavesRecord(e) {
      RecordStays(verdict, w, e);
    }
  }

  ghost predicate KeepsCheckpoint(ws: seq<World>, es: seq<Event>, j: nat)
    requires |ws| == |es| + 1 && j < |es|
  {
    !MovesCheckpoint(es[j]) ==> SameCheckpoint(ws[j], ws[j + 1])
  }

  ghost predicate Idle(es: seq<Event>, i: nat, k: nat)
    requires k <= |es|
  {
    forall j :: i <= j < k ==> !MovesCheckpoint(es[j])
  }

  lemma {:induction false} ChainCheckpoint(ws: seq<World>, es: seq<Event>, i: nat, k: nat)
    requires |ws| == |es| + 1 && i <= k < |ws| && Idle(es, i, k)
    requires forall j :: 0 <= j < |es| ==> KeepsCheckpoint(ws, es, j)
    ensures SameCheckpoint(ws[i], ws[k])
    decreases k
  {
    if i < k {
      ChainCheckpoint(ws, es, i, k - 1);
      assert KeepsCheckpoint(ws, es, k - 1);
    }
  }

  /** The activation at step j happens over no pending command and no live lease. */
  predicate Uncontested(w: World, e: Event)
  {
    e.Activate? && w.record.Some? ==> Stored(w).None? && !LeaseLive(w.record.value, e.now)
  }

  /** Between the steps of runs that move it, the checkpoint stays, however often the integration is
  activated, paused and run in vain; and no activation happens over a pending command or a live
  lease. */
  lemma ActivationKeepsProgress(verdict: Verdict, ws: seq<World>, es: seq<Event>, i: nat, k: nat)
    requires Execution(verdict, ws, es) && i <= k < |ws| && Idle(es, i, k)
    ensures SameCheckpoint(ws[i], ws[k])
    ensures forall j :: 0 <= j < |es| ==> Uncontested(ws[j], es[j])
  {
    forall j | 0 <= j < |es| ensures KeepsCheckpoint(ws, es, j) {
      if !MovesCheckpoint(es[j]) {
        StepKeepsCheckpoint(verdict, ws[j], es[j]);
      }
    }
    ChainCheckpoint(ws, es, i, k);
    forall j | 0 <= j < |es| ensures Uncontested(ws[j], es[j]) {
      assert Enabled(ws[j], es[j]);
    }
  }
}
