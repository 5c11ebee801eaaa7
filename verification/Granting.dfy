/** The one-time grant of managed provisioning over whole runs (home/managed.go,
invocation/session_helpers.go): which calls can still reach a READY repository, and what becomes
of an initial rule that was revoked. */
module Granting {
  import opened Kernel
  import opened ManagedLedger
  import opened Provisioning

  // --------------------------------------------------------------------- the policy over runs

  predicate ReceiptKept(policy: Policy, grants: seq<Grant>, allocation: string)
    requires allocation in policy.receipts
  {
    policy.receipts[allocation] in grants && policy.receipts[allocation].allocation == allocation
  }

  predicate RuleKept(policy: Policy, rule: Rule)
  {
    && rule.allocation in policy.receipts
    && var g := policy.receipts[rule.allocation]; rule.repository == g.repository && rule.actions == g.actions
  }

  /** Receipts are of calls that were made, and rules of receipts. */
  ghost predicate PolicyInv(policy: Policy, grants: seq<Grant>)
  {
    && (forall allocation :: allocation in policy.receipts ==> ReceiptKept(policy, grants, allocation))
    && (forall rule :: rule in policy.rules ==> RuleKept(policy, rule))
  }

  lemma EnsureGrantKeeps(policy: Policy, grants: seq<Grant>, g: Grant, principal: Option<string>)
    requires PolicyInv(policy, grants) && EnsureGrant(policy, g, principal).Success?
    ensures PolicyInv(EnsureGrant(policy, g, principal).value, grants + [g])
  {
    var next := EnsureGrant(policy, g, principal).value;
    forall allocation | allocation in next.receipts ensures ReceiptKept(next, grants + [g], allocation) {
      assert allocation in policy.receipts ==> ReceiptKept(policy, grants, allocation);
    }
    forall rule | rule in next.rules ensures RuleKept(next, rule) {
      assert rule in policy.rules ==> RuleKept(policy, rule);
    }
  }

  lemma MoreCalls(policy: Policy, grants: seq<Grant>, g: Grant)
    requires PolicyInv(policy, grants)
    ensures PolicyInv(policy, grants + [g])
  {
    forall allocation | allocation in policy.receipts ensures ReceiptKept(policy, grants + [g], allocation) {
      assert ReceiptKept(policy, grants, allocation);
    }
  }

  lemma PolicyStep(d: Drivers, w: World, e: Event)
    requires PolicyInv(w.policy, w.grants)
    ensures PolicyInv(Next(d, w, e).policy, Next(d, w, e).grants)
  {
    if e.CallGrant? && e.op in w.ops {
      var g := PayloadOf(w.ops[e.op].record);
      MoreCalls(w.policy, w.grants, g);
      if EnsureGrant(w.policy, g, e.principal).Success? {
        EnsureGrantKeeps(w.policy, w.grants, g, e.principal);
      }
    } else if e.Revoke? {
      RevokeKeeps(w.policy, w.grants, e.allocation);
    }
  }

  lemma RevokeKeeps(policy: Policy, grants: seq<Grant>, allocation: string)
    requires PolicyInv(policy, grants)
    ensures PolicyInv(policy.(rules := Without(policy.rules, allocation)), grants)
  {
    var next := policy.(rules := Without(policy.rules, allocation));
    forall a | a in next.receipts ensures ReceiptKept(next, grants, a) { assert ReceiptKept(policy, grants, a); }
    forall rule | rule in next.rules ensures RuleKept(next, rule) { assert RuleKept(policy, rule); }
  }

  lemma {:induction false} PolicyReachable(d: Drivers, exclusive: bool, ws: seq<World>, events: seq<Event>, i: nat)
    requires Execution(d, exclusive, ws, events) && i < |ws|
    ensures PolicyInv(ws[i].policy, ws[i].grants)
  {
    if i > 0 {
      PolicyReachable(d, exclusive, ws, events, i - 1);
      Step(d, exclusive, ws, events, i - 1);
      PolicyStep(d, ws[i - 1], events[i - 1]);
    }
  }

  /** Every initial rule that stands is the ledger's grant of its repository. */
  lemma RulesMatchLedger(d: Drivers, exclusive: bool, ws: seq<World>, events: seq<Event>, i: nat, rule: Rule)
    requires Execution(d, exclusive, ws, events) && i < |ws| && rule in ws[i].policy.rules
    ensures rule.repository in ws[i].ledger.records
    ensures var r := ws[i].ledger.records[rule.repository]; rule.allocation == r.allocation && rule.actions == r.actions
  {
    PolicyReachable(d, exclusive, ws, events, i);
    assert RuleKept(ws[i].policy, rule);
    var g := ws[i].policy.receipts[rule.allocation];
    assert ReceiptKept(ws[i].policy, ws[i].grants, rule.allocation);
    GrantsHaveOnePayload(d, exclusive, ws, events, i, g, g);
  }

  /** The payload of a call about to be made is that of every earlier call for its allocation or
  its repository. */
  lemma CallRepeatsPayload(d: Drivers, exclusive: bool, ws: seq<World>, events: seq<Event>, i: nat, g: Grant)
    requires Execution(d, exclusive, ws, events) && i < |events| && events[i].CallGrant? && g in ws[i].grants
    ensures events[i].op in ws[i].ops
    ensures var call := PayloadOf(ws[i].ops[events[i].op].record);
      g.allocation == call.allocation || g.repository == call.repository ==> g == call
  {
    Step(d, exclusive, ws, events, i);
    var call := PayloadOf(ws[i].ops[events[i].op].record);
    assert ws[i + 1].grants == ws[i].grants + [call];
    if g.allocation == call.allocation || g.repository == call.repository {
      GrantsHaveOnePayload(d, exclusive, ws, events, i + 1, g, call);
    }
  }

  /** The callback never finds another payload under the allocation it is called for. */
  lemma CallbackNeverConflicts(d: Drivers, exclusive: bool, ws: seq<World>, events: seq<Event>, i: nat)
    requires Execution(d, exclusive, ws, events) && i < |events| && events[i].CallGrant?
    ensures events[i].op in ws[i].ops
    ensures EnsureGrant(ws[i].policy, PayloadOf(ws[i].ops[events[i].op].record), events[i].principal) != Failure(IdempotencyConflict)
  {
    Step(d, exclusive, ws, events, i);
    var call := PayloadOf(ws[i].ops[events[i].op].record);
    if call.allocation in ws[i].policy.receipts {
      PolicyReachable(d, exclusive, ws, events, i);
      assert ReceiptKept(ws[i].policy, ws[i].grants, call.allocation);
      CallRepeatsPayload(d, exclusive, ws, events, i, ws[i].policy.receipts[call.allocation]);
    }
  }

  /** The repository was granted once, and no initial rule for it stands. */
  ghost predicate Bare(policy: Policy, id: RepositoryId)
  {
    && (exists allocation :: allocation in policy.receipts && policy.receipts[allocation].repository == id)
    && NoRule(policy, id)
  }

  predicate NoRule(policy: Policy, id: RepositoryId)
  {
    forall rule :: rule in policy.rules ==> rule.repository != id
  }

  lemma BareStep(d: Drivers, exclusive: bool, ws: seq<World>, events: seq<Event>, i: nat, id: RepositoryId)
    requires Execution(d, exclusive, ws, events) && i + 1 < |ws| && Bare(ws[i].policy, id)
    ensures Bare(ws[i + 1].policy, id)
  {
    Step(d, exclusive, ws, events, i);
    var allocation :| allocation in ws[i].policy.receipts && ws[i].policy.receipts[allocation].repository == id;
    if events[i].CallGrant? {
      PolicyReachable(d, exclusive, ws, events, i);
      assert ReceiptKept(ws[i].policy, ws[i].grants, allocation);
      CallRepeatsPayload(d, exclusive, ws, events, i, ws[i].policy.receipts[allocation]);
    }
    assert allocation in ws[i + 1].policy.receipts && ws[i + 1].policy.receipts[allocation].repository == id;
  }

  ghost predicate KeepsBare(a: World, b: World, id: RepositoryId)
  {
    Bare(a.policy, id) ==> Bare(b.policy, id)
  }

  lemma {:induction false} ChainBare(ws: seq<World>, i: nat, j: nat, id: RepositoryId)
    requires i <= j < |ws| && Bare(ws[i].policy, id)
    requires forall k :: 0 <= k && k + 1 < |ws| ==> KeepsBare(ws[k], ws[k + 1], id)
    ensures Bare(ws[j].policy, id)
    decreases j
  {
    if i < j {
      ChainBare(ws, i, j - 1, id);
      assert KeepsBare(ws[j - 1], ws[j - 1 + 1], id);
    }
  }

  lemma StaysBare(d: Drivers, exclusive: bool, ws: seq<World>, events: seq<Event>, i: nat, j: nat, id: RepositoryId)
    requires Execution(d, exclusive, ws, events) && i <= j < |ws| && Bare(ws[i].policy, id)
    ensures Bare(ws[j].policy, id)
  {
    forall k | 0 <= k && k + 1 < |ws| ensures KeepsBare(ws[k], ws[k + 1], id) {
      if Bare(ws[k].policy, id) {
        BareStep(d, exclusive, ws, events, k, id);
      }
    }
    ChainBare(ws, i, j, id);
  }

  /** Once the initial rule of a repository is revoked, no initial rule for it ever stands again,
  under any allocation, whatever crashes, retries and overlaps follow. */
  lemma RevokedStaysRevoked(d: Drivers, exclusive: bool, ws: seq<World>, events: seq<Event>, i: nat, j: nat, rule: Rule)
    requires Execution(d, exclusive, ws, events) && i < j < |ws|
    requires rule in ws[i].policy.rules && events[i] == Revoke(rule.allocation)
    ensures NoRule(ws[j].policy, rule.repository)
  {
    Step(d, exclusive, ws, events, i);
    PolicyReachable(d, exclusive, ws, events, i);
    forall other | other in ws[i].policy.rules && other.repository == rule.repository ensures other.allocation == rule.allocation {
      RulesMatchLedger(d, exclusive, ws, events, i, rule);
      RulesMatchLedger(d, exclusive, ws, events, i, other);
    }
    assert RuleKept(ws[i].policy, rule);
    assert Bare(ws[i + 1].policy, rule.repository);
    StaysBare(d, exclusive, ws, events, i + 1, j, rule.repository);
  }

  // ------------------------------------------------------------ calls for READY repositories

  /** From its Begin at step b on, the operation is the one called `op` up to step j. */
  predicate Runs(events: seq<Event>, b: nat, j: nat, op: nat)
  {
    && b < j <= |events| && events[b].Begin? && events[b].op == op
    && forall k :: b < k < j ==> !BeginsAs(events[k], op)
  }

  predicate BeginsAs(e: Event, op: nat)
  {
    e.Begin? && e.op == op
  }

  /** What an operation keeps of the record it began with. */
  predicate Follows(w: World, op: nat, begun: Record)
  {
    op in w.ops ==>
      w.ops[op].record.request == begun.request && (begun.phase == Ready ==> w.ops[op].record.phase == Ready)
  }

  lemma SavedFollows(d: Drivers, w: World, other: nat, r: Record, stage: Stage, op: nat, begun: Record)
    requires Follows(w, op, begun)
    requires op == other ==> r.request == begun.request && (begun.phase == Ready ==> r.phase == Ready)
    ensures Follows(Saved(d, w, other, r, stage), op, begun)
  {
  }

  lemma FollowsStep(d: Drivers, exclusive: bool, w: World, e: Event, op: nat, begun: Record)
    requires Inv(d, w) && Enabled(d, exclusive, w, e) && Follows(w, op, begun) && !BeginsAs(e, op)
    ensures Follows(Next(d, w, e), op, begun)
  {
    if e.EnsureOwner? {
      SavedFollows(d, w, e.op, w.ops[e.op].record.(accountBackend := e.backend), Creating, op, begun);
    } else if e.Create? {
      assert Carries(d, w.ledger, w.ops[e.op]);
      SavedFollows(d, w, e.op, w.ops[e.op].record.(backend := e.backend, head := e.head, phase := Owned), Installed, op, begun);
    } else {
      OthersFollow(d, w, e, op, begun);
    }
  }

  lemma OthersFollow(d: Drivers, w: World, e: Event, op: nat, begun: Record)
    requires Follows(w, op, begun) && !BeginsAs(e, op) && !e.EnsureOwner? && !e.Create?
    ensures Follows(Next(d, w, e), op, begun)
  {
    var n := Next(d, w, e);
    assert op in n.ops ==> op in w.ops && n.ops[op].record == w.ops[op].record;
  }

  lemma {:induction false} FollowsOn(d: Drivers, exclusive: bool, ws: seq<World>, events: seq<Event>, b: nat, j: nat, op: nat)
    requires Execution(d, exclusive, ws, events) && Runs(events, b, j, op)
    ensures Follows(ws[j], op, events[b].record)
    decreases j
  {
    if b + 1 < j {
      FollowsOn(d, exclusive, ws, events, b, j - 1, op);
      FollowsFurther(d, exclusive, ws, events, j - 1, op, events[b].record);
    } else {
      FollowsFirst(d, exclusive, ws, events, b);
    }
  }

  lemma FollowsFirst(d: Drivers, exclusive: bool, ws: seq<World>, events: seq<Event>, b: nat)
    requires Execution(d, exclusive, ws, events) && b < |events| && events[b].Begin?
    ensures Follows(ws[b + 1], events[b].op, events[b].record)
  {
    Step(d, exclusive, ws, events, b);
  }

  lemma FollowsFurther(d: Drivers, exclusive: bool, ws: seq<World>, events: seq<Event>, k: nat, op: nat, begun: Record)
    requires Execution(d, exclusive, ws, events) && k < |events| && Follows(ws[k], op, begun) && !BeginsAs(events[k], op)
    ensures Follows(ws[k + 1], op, begun)
  {
    Reachable(d, exclusive, ws, events, k);
    Step(d, exclusive, ws, events, k);
    FollowsStep(d, exclusive, ws[k], events[k], op, begun);
  }

  /** An operation that found its repository READY never calls the callback, with or without the
  lock. */
  lemma ReadyReplayNeverGrants(d: Drivers, exclusive: bool, ws: seq<World>, events: seq<Event>, b: nat, j: nat, op: nat)
    requires Execution(d, exclusive, ws, events) && Runs(events, b, j, op) && j < |events|
    requires events[b].record.phase == Ready
    ensures !(events[j].CallGrant? && events[j].op == op)
  {
    FollowsOn(d, exclusive, ws, events, b, j, op);
    Step(d, exclusive, ws, events, j);
  }

  /** Step k writes the receipt that makes the repository READY. */
  predicate Readies(ws: seq<World>, events: seq<Event>, k: nat, id: RepositoryId)
    requires |ws| == |events| + 1 && k < |events|
  {
    events[k].Receipt? && !IsReady(ws[k].ledger, id) && IsReady(ws[k + 1].ledger, id)
  }

  lemma SavedNotReady(d: Drivers, w: World, op: nat, r: Record, stage: Stage, id: RepositoryId)
    requires !IsReady(w.ledger, id) && r.phase != Ready
    ensures !IsReady(Saved(d, w, op, r, stage).ledger, id)
  {
  }

  lemma OnlyReceiptReadies(d: Drivers, exclusive: bool, w: World, e: Event, id: RepositoryId)
    requires Inv(d, w) && Enabled(d, exclusive, w, e) && !IsReady(w.ledger, id) && IsReady(Next(d, w, e).ledger, id)
    ensures e.Receipt?
  {
    if e.Begin? {
      BegunNotReady(d, exclusive, w, e, id);
    } else if e.EnsureOwner? {
      SavedNotReady(d, w, e.op, w.ops[e.op].record.(accountBackend := e.backend), Creating, id);
    } else if e.Create? {
      SavedNotReady(d, w, e.op, w.ops[e.op].record.(backend := e.backend, head := e.head, phase := Owned), Installed, id);
    }
  }

  lemma BegunNotReady(d: Drivers, exclusive: bool, w: World, e: Event, id: RepositoryId)
    requires Inv(d, w) && Enabled(d, exclusive, w, e) && e.Begin? && !IsReady(w.ledger, id)
    ensures !IsReady(Next(d, w, e).ledger, id)
  {
    if KeyOf(e.request) !in w.ledger.commands {
      InheritedAccount(d, w.ledger, e.request, e.offer, e.record);
    }
  }

  lemma {:induction false} BecameReady(d: Drivers, exclusive: bool, ws: seq<World>, events: seq<Event>, i: nat, j: nat, id: RepositoryId)
    requires Execution(d, exclusive, ws, events) && i <= j < |ws| && !IsReady(ws[i].ledger, id) && IsReady(ws[j].ledger, id)
    ensures exists k :: i <= k < j && Readies(ws, events, k, id)
    decreases j
  {
    if IsReady(ws[j - 1].ledger, id) {
      BecameReady(d, exclusive, ws, events, i, j - 1, id);
    } else {
      Reachable(d, exclusive, ws, events, j - 1);
      Step(d, exclusive, ws, events, j - 1);
      OnlyReceiptReadies(d, exclusive, ws[j - 1], events[j - 1], id);
      assert Readies(ws, events, j - 1, id);
    }
  }

  /** A call of the callback is for a READY repository exactly when the calling operation began
  before the receipt was written: some other operation wrote it in between. */
  lemma GrantsReadyIff(d: Drivers, exclusive: bool, ws: seq<World>, events: seq<Event>, b: nat, j: nat, op: nat)
    requires Execution(d, exclusive, ws, events) && Runs(events, b, j, op) && j < |events|
    requires events[j].CallGrant? && events[j].op == op
    ensures op in ws[j].ops
    ensures var id := ws[j].ops[op].record.request.repository;
      IsReady(ws[j].ledger, id) <==> exists k :: b < k < j && Readies(ws, events, k, id)
  {
    Step(d, exclusive, ws, events, j);
    FollowsOn(d, exclusive, ws, events, b, j, op);
    var id := ws[j].ops[op].record.request.repository;
    Reachable(d, exclusive, ws, events, b);
    Step(d, exclusive, ws, events, b);
    BegunIsCurrent(d, exclusive, ws[b], events[b]);
    assert !IsReady(ws[b + 1].ledger, id);
    if IsReady(ws[j].ledger, id) {
      BecameReady(d, exclusive, ws, events, b + 1, j, id);
    }
    if k :| b < k < j && Readies(ws, events, k, id) {
      StaysReady(d, exclusive, ws, events, k + 1, j, id);
    }
  }
}
