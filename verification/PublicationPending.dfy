/** How long a stored command stays pending, and when leases exclude each other, over whole
behaviours of the publish protocol (integrationruntime/runtime.go).

Only an acknowledgement or one of the codes of rejection ends a pending command.  Any other answer,
such as OBJECT_ID_CONFLICT of a ChangeSet that switches an object's layout, leaves it stored, and
while it is stored the integration cannot be activated anew. */
module PublicationPending {
  import opened Kernel
  import opened Publication
  import opened PublicationSafety

  /** The answer ends the command: it acknowledges a commit, or it is a code of rejection. */
  predicate Final(response: Response)
  {
    match response
    case Receipt(commit) => commit != ""
    case Error(code) => PublicationWasRejected(code)
  }

  /** The run has been given a final answer about `p`. */
  ghost predicate Told(replies: set<Reply>, run: RunId, p: Pending)
  {
    exists response :: Reply(Request(run, p), response) in replies && Final(response)
  }

  /** Nobody has been given one. */
  ghost predicate Untold(replies: set<Reply>, p: Pending)
  {
    forall reply :: reply in replies && reply.request.pending == p ==> !Final(reply.response)
  }

  /** What a run holds to be the outcome was answered to it. */
  predicate Heard(replies: set<Reply>, run: RunId, s: RunState)
  {
    match s
    case Refused(p, code) => Reply(Request(run, p), Error(code)) in replies && PublicationWasRejected(code)
    case Receipted(p, commit) => Reply(Request(run, p), Receipt(commit)) in replies && commit != ""
    case _ => true
  }

  ghost predicate AllHeard(w: World)
  {
    forall run :: run in w.runs ==> Heard(w.replies, run, w.runs[run])
  }

  lemma HeardStep(verdict: Verdict, w: World, e: Event, run: RunId)
    requires AllHeard(w) && Enabled(w, e) && run in Next(verdict, w, e).runs
    ensures Heard(Next(verdict, w, e).replies, run, Next(verdict, w, e).runs[run])
  {
    assert run in w.runs ==> Heard(w.replies, run, w.runs[run]);
  }

  lemma StepHeard(verdict: Verdict, w: World, e: Event)
    requires AllHeard(w) && Enabled(w, e)
    ensures AllHeard(Next(verdict, w, e))
  {
    var n := Next(verdict, w, e);
    forall run | run in n.runs ensures Heard(n.replies, run, n.runs[run]) {
      HeardStep(verdict, w, e, run);
    }
  }

  ghost predicate KeepsHeard(a: World, b: World)
  {
    AllHeard(a) ==> AllHeard(b)
  }

  lemma {:induction false} ChainHeard(ws: seq<World>, i: nat)
    requires i < |ws| && AllHeard(ws[0]) && forall j :: 0 <= j && j + 1 < |ws| ==> KeepsHeard(ws[j], ws[j + 1])
    ensures AllHeard(ws[i])
  {
    if i > 0 {
      ChainHeard(ws, i - 1);
      assert KeepsHeard(ws[i - 1], ws[i - 1 + 1]);
    }
  }

  lemma AlwaysHeard(verdict: Verdict, ws: seq<World>, es: seq<Event>, i: nat)
    requires Execution(verdict, ws, es) && i < |ws|
    ensures AllHeard(ws[i])
  {
    forall j | 0 <= j && j + 1 < |ws| ensures KeepsHeard(ws[j], ws[j + 1]) {
      if AllHeard(ws[j]) {
        StepHeard(verdict, ws[j], es[j]);
      }
    }
    ChainHeard(ws, i);
  }

  /** Step j is the lease holder's, giving the command up or advancing past it. */
  predicate Ends(w: World, e: Event)
  {
    (e.DropPending? || e.Advance?) && w.record.Some? && w.record.value.leaseId == e.run
  }

  lemma LeavesIff(verdict: Verdict, w: World, e: Event, p: Pending)
    requires LeaseInv(w.record, w.runs, w.issued) && Enabled(w, e) && Stored(w) == Some(p)
    ensures Stored(Next(verdict, w, e)) != Some(p) <==> Ends(w, e)
    ensures Ends(w, e) ==> e.run in w.runs && PendingIn(w.runs[e.run]) == Some(p)
  {
  }

  /** A pending command leaves the record exactly when the lease holder gives it up or advances past
  it, and then the holder has been given a final answer about it. */
  lemma PendingLeavesIff(verdict: Verdict, ws: seq<World>, es: seq<Event>, j: nat, p: Pending)
    requires Execution(verdict, ws, es) && j < |es| && Stored(ws[j]) == Some(p)
    ensures Stored(ws[j + 1]) != Some(p) <==> Ends(ws[j], es[j])
    ensures Ends(ws[j], es[j]) ==> Told(ws[j].replies, es[j].run, p)
  {
    Reachable(verdict, ws, es, j);
    LeavesIff(verdict, ws[j], es[j], p);
    if Ends(ws[j], es[j]) {
      AlwaysHeard(verdict, ws, es, j);
      assert Heard(ws[j].replies, es[j].run, ws[j].runs[es[j].run]);
    }
  }

  /** Step j ends the pending command. */
  ghost predicate EndsAt(ws: seq<World>, es: seq<Event>, j: nat, p: Pending)
    requires |ws| == |es| + 1 && j < |es|
  {
    Stored(ws[j]) == Some(p) && Ends(ws[j], es[j])
  }

  ghost predicate KeptOrEnded(ws: seq<World>, es: seq<Event>, j: nat, p: Pending)
    requires |ws| == |es| + 1 && j < |es|
  {
    Stored(ws[j]) == Some(p) ==> Stored(ws[j + 1]) == Some(p) || EndsAt(ws, es, j, p)
  }

  lemma {:induction false} ChainKept(ws: seq<World>, es: seq<Event>, i: nat, k: nat, p: Pending)
    requires |ws| == |es| + 1 && i <= k < |ws| && Stored(ws[i]) == Some(p)
    requires forall j :: 0 <= j < |es| ==> KeptOrEnded(ws, es, j, p)
    ensures Stored(ws[k]) == Some(p) || exists j :: i <= j < k && EndsAt(ws, es, j, p)
    decreases k
  {
    if i < k {
      ChainKept(ws, es, i, k - 1, p);
      assert KeptOrEnded(ws, es, k - 1, p);
    }
  }

  /** What is no longer pending was ended by a lease holder who had a final answer. */
  lemma GoneWasEnded(verdict: Verdict, ws: seq<World>, es: seq<Event>, i: nat, k: nat, p: Pending)
    requires Execution(verdict, ws, es) && i <= k < |ws| && Stored(ws[i]) == Some(p)
    ensures Stored(ws[k]) == Some(p) || exists j :: i <= j < k && EndsAt(ws, es, j, p)
  {
    forall j | 0 <= j < |es| ensures KeptOrEnded(ws, es, j, p) {
      if Stored(ws[j]) == Some(p) {
        PendingLeavesIff(verdict, ws, es, j, p);
      }
    }
    ChainKept(ws, es, i, k, p);
  }

  ghost predicate RepliesGrow(a: World, b: World)
  {
    a.replies <= b.replies
  }

  lemma {:induction false} ChainReplies(ws: seq<World>, i: nat, k: nat)
    requires i <= k < |ws| && forall j :: 0 <= j && j + 1 < |ws| ==> RepliesGrow(ws[j], ws[j + 1])
    ensures ws[i].replies <= ws[k].replies
    decreases k
  {
    if i < k {
      ChainReplies(ws, i, k - 1);
      assert RepliesGrow(ws[k - 1], ws[k - 1 + 1]);
    }
  }

  lemma RepliesStay(verdict: Verdict, w: World, e: Event)
    requires Enabled(w, e)
    ensures RepliesGrow(w, Next(verdict, w, e))
  {
  }

  lemma RepliesOnlyGrow(verdict: Verdict, ws: seq<World>, es: seq<Event>, i: nat, k: nat)
    requires Execution(verdict, ws, es) && i <= k < |ws|
    ensures ws[i].replies <= ws[k].replies
  {
    forall j | 0 <= j && j + 1 < |ws| ensures RepliesGrow(ws[j], ws[j + 1]) {
      RepliesStay(verdict, ws[j], es[j]);
    }
    ChainReplies(ws, i, k);
  }

  /** No activation is possible. */
  ghost predicate Unactivable(w: World)
  {
    forall manifest, artifact, owner, now :: Activation(w.record, manifest, artifact, owner, now).Failure?
  }

  lemma PendingBlocksActivation(w: World)
    requires Stored(w).Some?
    ensures Unactivable(w)
  {
  }

  /** As long as every answer about it is of another kind, a stored command stays pending, and every
  activation is refused, however many runs send it again. */
  lemma UnansweredStaysPending(verdict: Verdict, ws: seq<World>, es: seq<Event>, i: nat, k: nat, p: Pending)
    requires Execution(verdict, ws, es) && i <= k < |ws| && Stored(ws[i]) == Some(p) && Untold(ws[k].replies, p)
    ensures Stored(ws[k]) == Some(p) && Unactivable(ws[k])
  {
    GoneWasEnded(verdict, ws, es, i, k, p);
    if j :| i <= j < k && EndsAt(ws, es, j, p) {
      PendingLeavesIff(verdict, ws, es, j, p);
      RepliesOnlyGrow(verdict, ws, es, j, k);
    }
    PendingBlocksActivation(ws[k]);
  }
}
