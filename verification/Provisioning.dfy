/** Managed repository provisioning over all its crashes and retries (home/managed.go).

Every operation reserves or finds its allocation, then carries a copy of the record through
account, creation, grant and receipt, saving it between the external calls.  An operation can
disappear at any moment.  The driver creates idempotently per allocation.  The grant callback
(invocation/session_helpers.go) keeps a receipt per allocation beside the rules. */
module Provisioning {
  import opened Kernel
  import opened ManagedLedger

  datatype Grant = Grant(allocation: string, principal: string, repository: RepositoryId, actions: seq<string>)

  /** Where an operation stands: it has its record, its account is settled, its source is
  installed, its grant was accepted. */
  datatype Stage = Resumed | Creating | Installed | Granted

  datatype Op = Op(record: Record, stage: Stage)

  /** An initial rule; its id is made of the allocation. */
  datatype Rule = Rule(allocation: string, principal: string, repository: RepositoryId, actions: seq<string>)

  /** The durable policy: the payload granted per allocation, digests taken as injective, and the
  initial rules that stand. */
  datatype Policy = Policy(receipts: map<string, Grant>, rules: seq<Rule>)

  /** `grants` is every call made to the callback. */
  datatype World = World(ledger: Ledger, ops: map<nat, Op>, grants: seq<Grant>, policy: Policy)

  /** `EnsureManagedRepositoryGrant` on a readable policy; `principal` is what the payload's
  principal resolves to. */
  function EnsureGrant(policy: Policy, g: Grant, principal: Option<string>): Result<Policy>
  {
    if g.allocation == "" || g.principal == "" || g.repository == "" || g.actions == [] then Failure(PreconditionFailed)
    else if g.allocation in policy.receipts then
      if policy.receipts[g.allocation] != g then Failure(IdempotencyConflict) else Success(policy)
    else if principal.None? then Failure(PreconditionFailed)
    else
      Success(Policy(policy.receipts[g.allocation := g],
                     policy.rules + [Rule(g.allocation, principal.value, g.repository, g.actions)]))
  }

  /** `DropByID`. */
  function Without(rules: seq<Rule>, allocation: string): (r: seq<Rule>)
    ensures forall rule :: rule in r <==> rule in rules && rule.allocation != allocation
  {
    if rules == [] then []
    else (if rules[0].allocation != allocation then [rules[0]] else []) + Without(rules[1..], allocation)
  }

  datatype Event =
    | Begin(op: nat, request: Request, offer: Offer, ledger: Ledger, record: Record)
    | EnsureOwner(op: nat, backend: string)
    | SkipOwner(op: nat)
    | Create(op: nat, backend: string, head: string)
    | Open(op: nat)
    | CallGrant(op: nat, principal: Option<string>, written: bool, answered: bool)
    | Receipt(op: nat)
    | End(op: nat)
    | Revoke(allocation: string)

  function PayloadOf(r: Record): Grant
  {
    Grant(r.allocation, r.request.principal, r.request.repository, r.actions)
  }

  ghost predicate FreshAllocation(l: Ledger, allocation: string)
  {
    forall id :: id in l.records ==> l.records[id].allocation != allocation
  }

  /** `exclusive` is the lock that a process holds per directory. */
  ghost predicate Enabled(d: Drivers, exclusive: bool, w: World, e: Event)
  {
    match e
    case Begin(op, request, offer, ledger, record) =>
      && op !in w.ops && (exclusive ==> w.ops == map[])
      && Deployable(d, request, offer) && FreshAllocation(w.ledger, offer.nonce)
      && (if KeyOf(request) in w.ledger.commands then Replayed(d, w.ledger, request, record) && ledger == w.ledger
          else NewlyReserved(d, w.ledger, request, offer, ledger, record))
    case EnsureOwner(op, backend) => At(w, op, Resumed) && w.ops[op].record.phase == Reserved && w.ops[op].record.account != ""
    case SkipOwner(op) => At(w, op, Resumed) && w.ops[op].record.phase == Reserved
    case Create(op, backend, head) => At(w, op, Creating) && backend != "" && head != ""
    case Open(op) => At(w, op, Resumed) && w.ops[op].record.phase != Reserved
    case CallGrant(op, principal, written, answered) => At(w, op, Installed) && w.ops[op].record.phase != Ready
    case Receipt(op) => At(w, op, Stage.Granted)
    case End(op) => op in w.ops
    case Revoke(allocation) => true
  }

  predicate At(w: World, op: nat, stage: Stage)
  {
    op in w.ops && w.ops[op].stage == stage
  }

  /** The call is answered with success; it may also take effect without an answer. */
  predicate Accepts(w: World, e: Event)
    requires e.CallGrant?
  {
    e.op in w.ops && e.written && e.answered && EnsureGrant(w.policy, PayloadOf(w.ops[e.op].record), e.principal).Success?
  }

  /** Save and go on, or give up. */
  function Saved(d: Drivers, w: World, op: nat, r: Record, stage: Stage): World
  {
    match Save(d, w.ledger, r)
    case Success(l) => w.(ledger := l, ops := w.ops[op := Op(r, stage)])
    case Failure(_) => w.(ops := w.ops - {op})
  }

  function Next(d: Drivers, w: World, e: Event): World
  {
    match e
    case Begin(op, _, _, ledger, record) => w.(ledger := ledger, ops := w.ops[op := Op(record, Resumed)])
    case EnsureOwner(op, backend) =>
      if op in w.ops then Saved(d, w, op, w.ops[op].record.(accountBackend := backend), Creating) else w
    case SkipOwner(op) => if op in w.ops then w.(ops := w.ops[op := w.ops[op].(stage := Creating)]) else w
    case Create(op, backend, head) =>
      if op in w.ops then Saved(d, w, op, w.ops[op].record.(backend := backend, head := head, phase := Owned), Installed) else w
    case Open(op) => if op in w.ops then w.(ops := w.ops[op := w.ops[op].(stage := Installed)]) else w
    case CallGrant(op, principal, written, answered) =>
      if op !in w.ops then w
      else
        var g := PayloadOf(w.ops[op].record);
        World(w.ledger,
              if Accepts(w, e) then w.ops[op := w.ops[op].(stage := Stage.Granted)] else w.ops - {op},
              w.grants + [g],
              if written && EnsureGrant(w.policy, g, principal).Success? then EnsureGrant(w.policy, g, principal).value else w.policy)
    case Receipt(op) =>
      if op !in w.ops then w
      else
        var l := Save(d, w.ledger, w.ops[op].record.(phase := Ready));
        w.(ledger := if l.Success? then l.value else w.ledger, ops := w.ops - {op})
    case End(op) => w.(ops := w.ops - {op})
    case Revoke(allocation) => w.(policy := w.policy.(rules := Without(w.policy.rules, allocation)))
  }

  // ------------------------------------------------------------------------------ invariants

  /** The copy an operation carries differs from the ledger in progress only, and is complete. */
  predicate Carries(d: Drivers, l: Ledger, op: Op)
  {
    var id := op.record.request.repository;
    && id in l.records && Core(op.record) == Core(l.records[id])
    && Acceptable(d, op.record)
    && (op.stage == Creating ==> op.record.phase == Reserved)
    && (op.stage == Installed || op.stage == Stage.Granted ==> op.record.phase != Reserved)
  }

  ghost predicate OpsInv(d: Drivers, l: Ledger, ops: map<nat, Op>)
  {
    forall op :: op in ops ==> Carries(d, l, ops[op])
  }

  predicate Backed(l: Ledger, g: Grant)
  {
    g.repository in l.records && g == PayloadOf(l.records[g.repository])
  }

  /** Every grant call ever made carries the payload of the record in the ledger. */
  ghost predicate GrantsInv(l: Ledger, grants: seq<Grant>)
  {
    forall g :: g in grants ==> Backed(l, g)
  }

  ghost predicate AllocationsInv(l: Ledger)
  {
    forall a, b :: a in l.records && b in l.records && l.records[a].allocation == l.records[b].allocation ==> a == b
  }

  predicate ReadyGranted(l: Ledger, grants: seq<Grant>, id: RepositoryId)
    requires id in l.records
  {
    l.records[id].phase == Ready ==> PayloadOf(l.records[id]) in grants
  }

  /** What is READY, or about to be, was granted. */
  ghost predicate ReceiptsInv(l: Ledger, ops: map<nat, Op>, grants: seq<Grant>)
  {
    && (forall id :: id in l.records ==> ReadyGranted(l, grants, id))
    && (forall op :: op in ops ==> OpGranted(ops[op], grants))
  }

  predicate OpGranted(op: Op, grants: seq<Grant>)
  {
    op.stage == Stage.Granted || op.record.phase == Ready ==> PayloadOf(op.record) in grants
  }

  ghost predicate Inv(d: Drivers, w: World)
  {
    && LedgerInv(d, w.ledger) && OpsInv(d, w.ledger, w.ops) && GrantsInv(w.ledger, w.grants)
    && AllocationsInv(w.ledger) && ReceiptsInv(w.ledger, w.ops, w.grants)
  }

  /** Under the lock there is one operation, and its copy is what the ledger holds. */
  ghost predicate Alone(w: World)
  {
    && (forall a, b :: a in w.ops && b in w.ops ==> a == b)
    && (forall op :: op in w.ops ==> Current(w.ledger, w.ops[op]))
  }

  predicate Current(l: Ledger, op: Op)
  {
    op.record.request.repository in l.records && op.record == l.records[op.record.request.repository]
  }

  // ------------------------------------------------------------------- one step of any event

  /** A save by an operation that carries the record. */
  lemma SaveByCarrier(d: Drivers, l: Ledger, r: Record)
    requires LedgerInv(d, l) && r.request.repository in l.records && Core(r) == Core(l.records[r.request.repository])
    requires r.phase != Reserved ==> r.backend != "" && r.head != ""
    requires Save(d, l, r).Success?
    ensures LedgerInv(d, Save(d, l, r).value) && LedgerOnward(l, Save(d, l, r).value)
    ensures var m := Save(d, l, r).value; m.records == l.records || m.records == l.records[r.request.repository := r]
  {
    if Rank(l.records[r.request.repository].phase) > Rank(r.phase) {
      LedgerStays(l);
    } else {
      SaveKeepsIff(d, l, r);
    }
  }

  lemma LedgerStays(l: Ledger)
    ensures LedgerOnward(l, l)
  {}

  lemma CarriedOnward(d: Drivers, l: Ledger, m: Ledger, ops: map<nat, Op>, grants: seq<Grant>)
    requires LedgerOnward(l, m) && OpsInv(d, l, ops) && GrantsInv(l, grants)
    ensures OpsInv(d, m, ops) && GrantsInv(m, grants)
  {
    forall op | op in ops ensures Carries(d, m, ops[op]) {
      assert Carries(d, l, ops[op]);
      assert Onward(l.records[ops[op].record.request.repository], m.records[ops[op].record.request.repository]);
    }
    forall g | g in grants ensures Backed(m, g) {
      assert Backed(l, g);
      CoreFixes(l.records[g.repository], m.records[g.repository]);
    }
  }

  /** A complete record of the same core in place of the one in the ledger. */
  lemma PutKeepsHistory(l: Ledger, m: Ledger, r: Record, ops: map<nat, Op>, grants: seq<Grant>)
    requires AllocationsInv(l) && ReceiptsInv(l, ops, grants)
    requires r.request.repository in l.records && Core(r) == Core(l.records[r.request.repository])
    requires m.records == l.records || m.records == l.records[r.request.repository := r]
    requires r.phase == Ready ==> PayloadOf(r) in grants
    ensures AllocationsInv(m) && ReceiptsInv(m, ops, grants)
  {
    CoreFixes(r, l.records[r.request.repository]);
    forall id | id in m.records ensures ReadyGranted(m, grants, id) {
      assert ReadyGranted(l, grants, id);
    }
    forall a, b | a in m.records && b in m.records && m.records[a].allocation == m.records[b].allocation ensures a == b {
      assert m.records[a].allocation == l.records[a].allocation && m.records[b].allocation == l.records[b].allocation;
    }
  }

  lemma SavedKeeps(d: Drivers, w: World, op: nat, r: Record, stage: Stage)
    requires Inv(d, w) && op in w.ops && stage != Stage.Granted && r.phase != Ready
    requires r.request.repository in w.ledger.records && Core(r) == Core(w.ledger.records[r.request.repository])
    requires Acceptable(d, r) && (stage == Creating <==> r.phase == Reserved)
    ensures Inv(d, Saved(d, w, op, r, stage)) && LedgerOnward(w.ledger, Saved(d, w, op, r, stage).ledger)
  {
    var n := Saved(d, w, op, r, stage);
    if Save(d, w.ledger, r).Success? {
      SaveByCarrier(d, w.ledger, r);
      CarriedOnward(d, w.ledger, n.ledger, w.ops, w.grants);
      PutKeepsHistory(w.ledger, n.ledger, r, w.ops, w.grants);
      assert Onward(w.ledger.records[r.request.repository], n.ledger.records[r.request.repository]);
      OpsPut(d, n.ledger, w.ops, w.grants, op, Op(r, stage));
    } else {
      LedgerStays(w.ledger);
      OpsDrop(d, w.ledger, w.ops, w.grants, op);
    }
  }

  lemma OpsPut(d: Drivers, l: Ledger, ops: map<nat, Op>, grants: seq<Grant>, op: nat, now: Op)
    requires OpsInv(d, l, ops) && ReceiptsInv(l, ops, grants) && Carries(d, l, now) && OpGranted(now, grants)
    ensures OpsInv(d, l, ops[op := now]) && ReceiptsInv(l, ops[op := now], grants)
  {}

  lemma OpsDrop(d: Drivers, l: Ledger, ops: map<nat, Op>, grants: seq<Grant>, op: nat)
    requires OpsInv(d, l, ops) && ReceiptsInv(l, ops, grants)
    ensures OpsInv(d, l, ops - {op}) && ReceiptsInv(l, ops - {op}, grants)
  {}

  lemma BeginKeeps(d: Drivers, exclusive: bool, w: World, e: Event)
    requires Inv(d, w) && e.Begin? && Enabled(d, exclusive, w, e)
    ensures Inv(d, Next(d, w, e)) && LedgerOnward(w.ledger, Next(d, w, e).ledger)
  {
    var m, r := e.ledger, e.record;
    var now := Op(r, Resumed);
    if KeyOf(e.request) in w.ledger.commands {
      LedgerStays(w.ledger);
      assert Referenced(w.ledger, KeyOf(e.request)) && Filed(w.ledger, w.ledger.commands[KeyOf(e.request)]);
      assert Carries(d, w.ledger, now);
      assert ReadyGranted(w.ledger, w.grants, r.request.repository);
    } else {
      ReserveKeeps(d, w.ledger, e.request, e.offer, m, r);
      CarriedOnward(d, w.ledger, m, w.ops, w.grants);
      InheritedAccount(d, w.ledger, e.request, e.offer, r);
      NewRecord(w.ledger, m, r, w.ops, w.grants);
      assert Carries(d, m, now);
    }
    OpsPut(d, m, w.ops, w.grants, e.op, now);
  }

  lemma NewRecord(l: Ledger, m: Ledger, r: Record, ops: map<nat, Op>, grants: seq<Grant>)
    requires AllocationsInv(l) && ReceiptsInv(l, ops, grants) && FreshAllocation(l, r.allocation)
    requires r.request.repository !in l.records && m.records == l.records[r.request.repository := r] && r.phase == Reserved
    ensures AllocationsInv(m) && ReceiptsInv(m, ops, grants)
  {
    forall id | id in m.records ensures ReadyGranted(m, grants, id) {
      assert id in l.records ==> ReadyGranted(l, grants, id);
    }
  }

  lemma GrantKeeps(d: Drivers, exclusive: bool, w: World, e: Event)
    requires Inv(d, w) && e.CallGrant? && Enabled(d, exclusive, w, e)
    ensures Inv(d, Next(d, w, e)) && Next(d, w, e).ledger == w.ledger
  {
    var op := w.ops[e.op];
    var g := PayloadOf(op.record);
    var grants := w.grants + [g];
    assert Carries(d, w.ledger, op);
    CoreFixes(op.record, w.ledger.records[op.record.request.repository]);
    assert Acceptable(d, w.ledger.records[op.record.request.repository]);
    assert Backed(w.ledger, g);
    MoreGrants(w.ledger, w.ops, w.grants, g);
    if Accepts(w, e) {
      OpsPut(d, w.ledger, w.ops, grants, e.op, op.(stage := Stage.Granted));
    } else {
      OpsDrop(d, w.ledger, w.ops, grants, e.op);
    }
  }

  lemma MoreGrants(l: Ledger, ops: map<nat, Op>, grants: seq<Grant>, g: Grant)
    requires ReceiptsInv(l, ops, grants) && GrantsInv(l, grants) && Backed(l, g)
    ensures ReceiptsInv(l, ops, grants + [g]) && GrantsInv(l, grants + [g])
  {
    forall id | id in l.records ensures ReadyGranted(l, grants + [g], id) {
      assert ReadyGranted(l, grants, id);
    }
    forall op | op in ops ensures OpGranted(ops[op], grants + [g]) {
      assert OpGranted(ops[op], grants);
    }
  }

  lemma ReceiptKeeps(d: Drivers, exclusive: bool, w: World, e: Event)
    requires Inv(d, w) && e.Receipt? && Enabled(d, exclusive, w, e)
    ensures Inv(d, Next(d, w, e)) && LedgerOnward(w.ledger, Next(d, w, e).ledger)
  {
    var op := w.ops[e.op];
    var r := op.record.(phase := Ready);
    assert Carries(d, w.ledger, op) && OpGranted(op, w.grants);
    LedgerStays(w.ledger);
    if Save(d, w.ledger, r).Success? {
      var m := Save(d, w.ledger, r).value;
      SaveByCarrier(d, w.ledger, r);
      CarriedOnward(d, w.ledger, m, w.ops, w.grants);
      PutKeepsHistory(w.ledger, m, r, w.ops, w.grants);
      OpsDrop(d, m, w.ops, w.grants, e.op);
    } else {
      OpsDrop(d, w.ledger, w.ops, w.grants, e.op);
    }
  }

  lemma EnsureOwnerKeeps(d: Drivers, exclusive: bool, w: World, e: Event)
    requires Inv(d, w) && e.EnsureOwner? && Enabled(d, exclusive, w, e)
    ensures Inv(d, Next(d, w, e)) && LedgerOnward(w.ledger, Next(d, w, e).ledger)
  {
    assert Carries(d, w.ledger, w.ops[e.op]);
    SavedKeeps(d, w, e.op, w.ops[e.op].record.(accountBackend := e.backend), Creating);
  }

  lemma CreateKeeps(d: Drivers, exclusive: bool, w: World, e: Event)
    requires Inv(d, w) && e.Create? && Enabled(d, exclusive, w, e)
    ensures Inv(d, Next(d, w, e)) && LedgerOnward(w.ledger, Next(d, w, e).ledger)
  {
    assert Carries(d, w.ledger, w.ops[e.op]);
    SavedKeeps(d, w, e.op, w.ops[e.op].record.(backend := e.backend, head := e.head, phase := Owned), Installed);
  }

  lemma StageKeeps(d: Drivers, exclusive: bool, w: World, e: Event)
    requires Inv(d, w) && (e.SkipOwner? || e.Open?) && Enabled(d, exclusive, w, e)
    ensures Inv(d, Next(d, w, e)) && Next(d, w, e).ledger == w.ledger
  {
    var op := w.ops[e.op];
    assert Carries(d, w.ledger, op) && OpGranted(op, w.grants);
    OpsPut(d, w.ledger, w.ops, w.grants, e.op, op.(stage := if e.SkipOwner? then Creating else Installed));
  }

  lemma EndKeeps(d: Drivers, w: World, e: Event)
    requires Inv(d, w) && (e.End? || e.Revoke?)
    ensures Inv(d, Next(d, w, e)) && Next(d, w, e).ledger == w.ledger
  {
    if e.End? { OpsDrop(d, w.ledger, w.ops, w.grants, e.op); }
  }

  lemma QuietKeeps(d: Drivers, exclusive: bool, w: World, e: Event)
    requires Inv(d, w) && Enabled(d, exclusive, w, e)
    requires !(e.Begin? || e.EnsureOwner? || e.Create? || e.Receipt?)
    ensures Inv(d, Next(d, w, e)) && Next(d, w, e).ledger == w.ledger
  {
    if e.SkipOwner? || e.Open? {
      StageKeeps(d, exclusive, w, e);
    } else if e.CallGrant? {
      GrantKeeps(d, exclusive, w, e);
    } else {
      EndKeeps(d, w, e);
    }
  }

  /** Every event keeps the invariant, with or without the lock, and moves the ledger onward. */
  lemma NextKeeps(d: Drivers, exclusive: bool, w: World, e: Event)
    requires Inv(d, w) && Enabled(d, exclusive, w, e)
    ensures Inv(d, Next(d, w, e)) && LedgerOnward(w.ledger, Next(d, w, e).ledger)
  {
    if e.Begin? {
      BeginKeeps(d, exclusive, w, e);
    } else if e.EnsureOwner? {
      EnsureOwnerKeeps(d, exclusive, w, e);
    } else if e.Create? {
      CreateKeeps(d, exclusive, w, e);
    } else if e.Receipt? {
      ReceiptKeeps(d, exclusive, w, e);
    } else {
      QuietKeeps(d, exclusive, w, e);
      LedgerStays(w.ledger);
    }
  }

  // ------------------------------------------------------------------------------ whole runs

  ghost predicate Initial(w: World)
  {
    w == World(Ledger(map[], map[]), map[], [], Policy(map[], []))
  }

  /** A run: crashes are `End`, retries are further `Begin`s. */
  ghost predicate Execution(d: Drivers, exclusive: bool, ws: seq<World>, events: seq<Event>)
  {
    && |ws| == |events| + 1 && Initial(ws[0])
    && forall i :: 0 <= i < |events| ==> Enabled(d, exclusive, ws[i], events[i]) && ws[i + 1] == Next(d, ws[i], events[i])
  }

  lemma Step(d: Drivers, exclusive: bool, ws: seq<World>, events: seq<Event>, i: nat)
    requires Execution(d, exclusive, ws, events) && i + 1 < |ws|
    ensures Enabled(d, exclusive, ws[i], events[i]) && ws[i + 1] == Next(d, ws[i], events[i])
  {}

  lemma {:induction false} Reachable(d: Drivers, exclusive: bool, ws: seq<World>, events: seq<Event>, i: nat)
    requires Execution(d, exclusive, ws, events) && i < |ws|
    ensures Inv(d, ws[i])
  {
    if i > 0 {
      Reachable(d, exclusive, ws, events, i - 1);
      Step(d, exclusive, ws, events, i - 1);
      NextKeeps(d, exclusive, ws[i - 1], events[i - 1]);
    }
  }

  /** At any point of any run the ledger loads: its two indexes are inverse, every record is
  acceptable, and records of one holder share their account. */
  lemma LedgerAlwaysLoads(d: Drivers, exclusive: bool, ws: seq<World>, events: seq<Event>, i: nat)
    requires Execution(d, exclusive, ws, events) && i < |ws|
    ensures Inverse(ws[i].ledger) && AllAcceptable(d, ws[i].ledger.records) && AccountsShared(d, ws[i].ledger.records)
  {
    Reachable(d, exclusive, ws, events, i);
  }

  lemma StepOnward(d: Drivers, exclusive: bool, ws: seq<World>, events: seq<Event>, i: nat)
    requires Execution(d, exclusive, ws, events) && i + 1 < |ws|
    ensures LedgerOnward(ws[i].ledger, ws[i + 1].ledger)
  {
    Reachable(d, exclusive, ws, events, i);
    Step(d, exclusive, ws, events, i);
    NextKeeps(d, exclusive, ws[i], events[i]);
  }

  /** Between any two points of any run, even with overlapping processes: no record is lost, its
  request, allocation, binding, actions and account are the same, its rank has not fallen, and
  backend, head and account backend stay once they were saved. */
  lemma AllocationsOnlyMoveOnward(d: Drivers, exclusive: bool, ws: seq<World>, events: seq<Event>, i: nat, j: nat)
    requires Execution(d, exclusive, ws, events) && i <= j < |ws|
    ensures LedgerOnward(ws[i].ledger, ws[j].ledger)
  {
    var ledgers := seq(|ws|, k requires 0 <= k < |ws| => ws[k].ledger);
    forall k | 0 <= k && k + 1 < |ws| ensures StepsOnward(ledgers, k) {
      StepOnward(d, exclusive, ws, events, k);
    }
    ChainOnward(ledgers, i, j);
  }

  ghost predicate StepsOnward(ledgers: seq<Ledger>, k: nat)
    requires k + 1 < |ledgers|
  {
    LedgerOnward(ledgers[k], ledgers[k + 1])
  }

  lemma {:induction false} ChainOnward(ledgers: seq<Ledger>, i: nat, j: nat)
    requires i <= j < |ledgers| && forall k :: 0 <= k && k + 1 < |ledgers| ==> StepsOnward(ledgers, k)
    ensures LedgerOnward(ledgers[i], ledgers[j])
    decreases j
  {
    if i == j {
      LedgerStays(ledgers[i]);
    } else {
      ChainOnward(ledgers, i, j - 1);
      assert StepsOnward(ledgers, j - 1);
      OnwardIsTransitive(ledgers[i], ledgers[j - 1], ledgers[j]);
    }
  }

  /** All grant calls for one allocation, or one repository, have the same payload, the one the
  ledger records; and a READY repository has been granted. */
  lemma GrantsHaveOnePayload(d: Drivers, exclusive: bool, ws: seq<World>, events: seq<Event>, i: nat, g: Grant, h: Grant)
    requires Execution(d, exclusive, ws, events) && i < |ws| && g in ws[i].grants && h in ws[i].grants
    requires g.allocation == h.allocation || g.repository == h.repository
    ensures g == h && g.repository in ws[i].ledger.records && g == PayloadOf(ws[i].ledger.records[g.repository])
  {
    Reachable(d, exclusive, ws, events, i);
    assert Backed(ws[i].ledger, g) && Backed(ws[i].ledger, h);
  }

  lemma ReadyWasGranted(d: Drivers, exclusive: bool, ws: seq<World>, events: seq<Event>, i: nat, id: RepositoryId)
    requires Execution(d, exclusive, ws, events) && i < |ws| && id in ws[i].ledger.records && ws[i].ledger.records[id].phase == Ready
    ensures PayloadOf(ws[i].ledger.records[id]) in ws[i].grants
  {
    Reachable(d, exclusive, ws, events, i);
    assert ReadyGranted(ws[i].ledger, ws[i].grants, id);
  }

  // ------------------------------------------------------------------------- under the lock

  lemma SavedStaysCurrent(d: Drivers, w: World, op: nat, r: Record, stage: Stage)
    requires Inv(d, w) && Alone(w) && op in w.ops && r.request == w.ops[op].record.request
    requires Rank(r.phase) >= Rank(w.ops[op].record.phase)
    ensures Alone(Saved(d, w, op, r, stage))
  {
    assert Current(w.ledger, w.ops[op]);
  }

  lemma BegunIsCurrent(d: Drivers, exclusive: bool, w: World, e: Event)
    requires LedgerInv(d, w.ledger) && e.Begin? && Enabled(d, exclusive, w, e)
    ensures Current(e.ledger, Op(e.record, Resumed))
  {
    if KeyOf(e.request) in w.ledger.commands {
      assert Filed(w.ledger, w.ledger.commands[KeyOf(e.request)]);
    } else {
      InheritedAccount(d, w.ledger, e.request, e.offer, e.record);
    }
  }

  lemma BeginStaysAlone(d: Drivers, w: World, e: Event)
    requires Inv(d, w) && e.Begin? && Enabled(d, true, w, e)
    ensures Alone(Next(d, w, e))
  {
    BegunIsCurrent(d, true, w, e);
    assert Next(d, w, e).ops == map[e.op := Op(e.record, Resumed)];
  }

  lemma SaveStaysAlone(d: Drivers, w: World, e: Event)
    requires Inv(d, w) && Alone(w) && (e.EnsureOwner? || e.Create?) && Enabled(d, true, w, e)
    ensures Alone(Next(d, w, e))
  {
    var r := w.ops[e.op].record;
    assert Carries(d, w.ledger, w.ops[e.op]);
    if e.EnsureOwner? {
      SavedStaysCurrent(d, w, e.op, r.(accountBackend := e.backend), Creating);
    } else {
      SavedStaysCurrent(d, w, e.op, r.(backend := e.backend, head := e.head, phase := Owned), Installed);
    }
  }

  lemma NextStaysAlone(d: Drivers, w: World, e: Event)
    requires Inv(d, w) && Alone(w) && Enabled(d, true, w, e)
    ensures Alone(Next(d, w, e))
  {
    if e.Begin? {
      BeginStaysAlone(d, w, e);
    } else if e.EnsureOwner? || e.Create? {
      SaveStaysAlone(d, w, e);
    } else if e.Receipt? {
      assert Next(d, w, e).ops == map[];
    } else {
      OthersStayAlone(d, w, e);
    }
  }

  lemma OthersStayAlone(d: Drivers, w: World, e: Event)
    requires Alone(w) && (e.SkipOwner? || e.Open? || e.CallGrant? || e.End? || e.Revoke?) && Enabled(d, true, w, e)
    ensures Alone(Next(d, w, e))
  {
    var n := Next(d, w, e);
    assert n.ledger == w.ledger && n.ops.Keys <= w.ops.Keys;
    forall op | op in n.ops ensures Current(n.ledger, n.ops[op]) {
      assert Current(w.ledger, w.ops[op]) && n.ops[op].record == w.ops[op].record;
    }
  }

  lemma {:induction false} ReachableAlone(d: Drivers, ws: seq<World>, events: seq<Event>, i: nat)
    requires Execution(d, true, ws, events) && i < |ws|
    ensures Alone(ws[i])
  {
    if i > 0 {
      ReachableAlone(d, ws, events, i - 1);
      Reachable(d, true, ws, events, i - 1);
      Step(d, true, ws, events, i - 1);
      NextStaysAlone(d, ws[i - 1], events[i - 1]);
    }
  }

  /** The step calls the callback for no repository that is READY before it. */
  ghost predicate SparesReady(w: World, n: World, id: RepositoryId)
  {
    w.grants <= n.grants && forall k :: |w.grants| <= k < |n.grants| ==> n.grants[k].repository != id
  }

  lemma ReadyIsNotGranted(d: Drivers, w: World, e: Event, id: RepositoryId)
    requires Alone(w) && Enabled(d, true, w, e) && id in w.ledger.records && w.ledger.records[id].phase == Ready
    ensures SparesReady(w, Next(d, w, e), id)
  {
    if e.CallGrant? {
      assert Current(w.ledger, w.ops[e.op]);
    }
  }

  lemma ReadyStepSpares(d: Drivers, ws: seq<World>, events: seq<Event>, i: nat, j: nat, id: RepositoryId)
    requires Execution(d, true, ws, events) && i <= j && j + 1 < |ws|
    requires id in ws[i].ledger.records && ws[i].ledger.records[id].phase == Ready
    ensures SparesReady(ws[j], ws[j + 1], id)
  {
    StaysReady(d, true, ws, events, i, j, id);
    ReachableAlone(d, ws, events, j);
    Step(d, true, ws, events, j);
    ReadyIsNotGranted(d, ws[j], events[j], id);
  }

  /** Once a repository is READY nothing ever calls the callback for it again. */
  lemma NoGrantAfterReady(d: Drivers, ws: seq<World>, events: seq<Event>, i: nat, j: nat, id: RepositoryId)
    requires Execution(d, true, ws, events) && i <= j < |ws|
    requires id in ws[i].ledger.records && ws[i].ledger.records[id].phase == Ready
    ensures SparesReady(ws[i], ws[j], id)
  {
    forall k | i <= k && k + 1 < |ws| ensures SparesReady(ws[k], ws[k + 1], id) {
      ReadyStepSpares(d, ws, events, i, k, id);
    }
    ChainSpares(ws, i, j, id);
  }

  lemma {:induction false} ChainSpares(ws: seq<World>, i: nat, j: nat, id: RepositoryId)
    requires i <= j < |ws| && forall k :: i <= k && k + 1 < |ws| ==> SparesReady(ws[k], ws[k + 1], id)
    ensures SparesReady(ws[i], ws[j], id)
    decreases j
  {
    if i < j {
      ChainSpares(ws, i, j - 1, id);
      assert SparesReady(ws[j - 1], ws[j - 1 + 1], id);
      SparesFurther(ws[i], ws[j - 1], ws[j], id);
    }
  }

  lemma SparesFurther(a: World, b: World, c: World, id: RepositoryId)
    requires SparesReady(a, b, id) && SparesReady(b, c, id)
    ensures SparesReady(a, c, id)
  {}

  lemma StaysReady(d: Drivers, exclusive: bool, ws: seq<World>, events: seq<Event>, i: nat, j: nat, id: RepositoryId)
    requires Execution(d, exclusive, ws, events) && i <= j < |ws| && IsReady(ws[i].ledger, id)
    ensures IsReady(ws[j].ledger, id)
  {
    AllocationsOnlyMoveOnward(d, exclusive, ws, events, i, j);
    assert Onward(ws[i].ledger.records[id], ws[j].ledger.records[id]);
  }

  predicate IsReady(l: Ledger, id: RepositoryId)
  {
    id in l.records && l.records[id].phase == Ready
  }
}
