/** What a preview asks for, said from the plan alone (connector/preview.go). */
module PreviewMeaning {
  import opened Kernel
  import opened Knowledge
  import opened Reconcile
  import Text

  /** The connector may write the address: its prefix begins the object's id, and it declares the
  aspect, or entities where there is none. */
  ghost predicate MayWrite(scope: Scope, a: Address)
  {
    && (exists rest :: a.objectId == scope.objectPrefix + rest)
    && (if a.aspectName == "" then scope.allowEntity else a.aspectName in scope.aspects)
  }

  lemma MayWriteIff(scope: Scope, a: Address)
    ensures scope.Contains(a) <==> MayWrite(scope, a)
  {
    if scope.objectPrefix <= a.objectId {
      assert a.objectId == scope.objectPrefix + a.objectId[|scope.objectPrefix|..];
    }
  }

  /** Observation i is the last one in scope with this key. */
  ghost predicate LastInScope(plan: Plan, key: string, i: nat)
    requires i < |plan.observed|
  {
    && MayWrite(plan.scope, plan.observed[i].address) && AddressKey(plan.observed[i].address) == key
    && forall j :: i < j < |plan.observed| && MayWrite(plan.scope, plan.observed[j].address) ==> AddressKey(plan.observed[j].address) != key
  }

  ghost predicate Seen(plan: Plan, key: string, o: Observed)
  {
    exists i :: 0 <= i < |plan.observed| && LastInScope(plan, key, i) && plan.observed[i] == o
  }

  /** The declaration observed is the unit's; one observed without a declaration counts as the unit's
  only if the unit declares nothing. */
  predicate SameDeclaration(unit: Unit, o: Observed)
  {
    if o.declarationDigest == NoDigest
    then unit.schemaRef == "" && (unit.valueSource.None? || unit.valueSource.value.kind in {"", "snapshot"})
    else o.declarationDigest == DeclarationDigest(TrimSpace(unit.schemaRef), Normalized(unit.valueSource))
  }

  predicate Unchanged(unit: Unit, o: Observed)
  {
    o.digest == ValueDigest(unit.value) && SameDeclaration(unit, o)
  }

  /** The operation puts the unit as it is, on condition that it is still what was observed. */
  ghost predicate PutsUnit(plan: Plan, unit: Unit, op: Operation)
  {
    && op.Put? && op.address == unit.address && op.value == unit.value && op.pathHint == unit.pathHint
    && op.schemaRef == unit.schemaRef && op.valueSource == unit.valueSource
    && match op.precondition
       case IfAbsent => forall o :: !Seen(plan, AddressKey(unit.address), o)
       case IfDigestEquals(digest) => exists o :: Seen(plan, AddressKey(unit.address), o) && o.digest == digest && !Unchanged(unit, o)
  }

  /** Observation i is the last one with this key, in scope or not. */
  ghost predicate LastWithKey(items: seq<Observed>, key: string, i: nat)
    requires i < |items|
  {
    AddressKey(items[i].address) == key && forall j :: i < j < |items| ==> AddressKey(items[j].address) != key
  }

  /** The operation removes something observed in scope that is no longer desired. */
  ghost predicate RemovesUnit(plan: Plan, op: Operation)
  {
    && plan.mode.Reconcile? && op.Remove? && op.reason == "absent-from-source"
    && (exists o :: Seen(plan, AddressKey(op.address), o))
    && (forall unit :: unit in plan.desired ==> AddressKey(unit.address) != AddressKey(op.address))
    && exists i :: 0 <= i < |plan.observed| && LastWithKey(plan.observed, AddressKey(op.address), i) && plan.observed[i].address == op.address
  }

  ghost predicate AskedFor(plan: Plan, op: Operation)
  {
    (exists unit :: unit in plan.desired && PutsUnit(plan, unit, op)) || RemovesUnit(plan, op)
  }

  // --------------------------------------------------------------------------- connection

  lemma {:induction false} ObservedMapIff(plan: Plan, key: string, o: Observed)
    ensures key in ObservedMap(plan.scope, plan.observed) && ObservedMap(plan.scope, plan.observed)[key] == o <==> Seen(plan, key, o)
  {
    forall a ensures plan.scope.Contains(a) <==> MayWrite(plan.scope, a) {
      MayWriteIff(plan.scope, a);
    }
    var m := ObservedMap(plan.scope, plan.observed);
    if key in m {
      var i := ObservedMapIsLast(plan.scope, plan.observed, key);
      assert LastInScope(plan, key, i);
      assert Seen(plan, key, m[key]);
      OneSeen(plan, key, m[key], o);
    }
    if Seen(plan, key, o) {
      ObservedMapEntries(plan.scope, plan.observed);
    }
  }

  lemma OneSeen(plan: Plan, key: string, a: Observed, b: Observed)
    requires Seen(plan, key, a)
    ensures Seen(plan, key, b) ==> a == b
  {
    var i :| 0 <= i < |plan.observed| && LastInScope(plan, key, i) && plan.observed[i] == a;
    forall j | 0 <= j < |plan.observed| && LastInScope(plan, key, j) ensures j == i {}
  }

  lemma {:induction false} ObservedAddrsIsLast(items: seq<Observed>, digests: map<string, Observed>, key: string) returns (i: nat)
    requires key in ObservedAddrs(items, digests)
    ensures i < |items| && LastWithKey(items, key, i) && items[i].address == ObservedAddrs(items, digests)[key]
  {
    var n := |items| - 1;
    ObservedAddrsPrefix(items, digests);
    if AddressKey(items[n].address) == key {
      i := n;
    } else {
      i := ObservedAddrsIsLast(items[..n], digests, key);
      assert LastWithKey(items[..n], key, i);
    }
  }

  lemma PutsIff(plan: Plan, desired: map<string, Unit>, op: Operation)
    requires DesiredMap(plan.scope, plan.desired, map[]) == Success(desired)
    ensures op in PutSet(desired, ObservedMap(plan.scope, plan.observed)) <==> exists unit :: unit in plan.desired && PutsUnit(plan, unit, op)
  {
    var observed := ObservedMap(plan.scope, plan.observed);
    DesiredMapEntries(plan.scope, plan.desired, map[]);
    forall unit | unit in plan.desired
      ensures DesiredOp(unit, AddressKey(unit.address), observed) == Some(op) <==> PutsUnit(plan, unit, op)
    {
      DesiredOpIff(plan, unit, op);
    }
    if op in PutSet(desired, observed) {
      var key :| key in desired && DesiredOp(desired[key], key, observed) == Some(op);
      assert desired[key] in plan.desired;
    }
    if unit :| unit in plan.desired && PutsUnit(plan, unit, op) {
      assert desired[AddressKey(unit.address)] == unit;
    }
  }

  lemma DesiredOpIff(plan: Plan, unit: Unit, op: Operation)
    ensures DesiredOp(unit, AddressKey(unit.address), ObservedMap(plan.scope, plan.observed)) == Some(op) <==> PutsUnit(plan, unit, op)
  {
    var observed, key := ObservedMap(plan.scope, plan.observed), AddressKey(unit.address);
    forall o ensures key in observed && observed[key] == o <==> Seen(plan, key, o) {
      ObservedMapIff(plan, key, o);
    }
    if key in observed {
      assert Seen(plan, key, observed[key]);
    }
  }

  lemma RemovesIff(plan: Plan, desired: map<string, Unit>, op: Operation)
    requires DesiredMap(plan.scope, plan.desired, map[]) == Success(desired) && plan.mode.Reconcile?
    ensures op in RemoveSet(desired, ObservedAddrs(plan.observed, ObservedMap(plan.scope, plan.observed))) <==> RemovesUnit(plan, op)
  {
    var observed := ObservedMap(plan.scope, plan.observed);
    var addrs := ObservedAddrs(plan.observed, observed);
    DesiredMapEntries(plan.scope, plan.desired, map[]);
    ObservedMapEntries(plan.scope, plan.observed);
    ObservedAddrsEntries(plan.observed, observed);
    var key := AddressKey(op.address);
    assert key !in desired <==> forall unit :: unit in plan.desired ==> AddressKey(unit.address) != key;
    forall o ensures key in observed && observed[key] == o <==> Seen(plan, key, o) {
      ObservedMapIff(plan, key, o);
    }
    if key in addrs {
      assert Seen(plan, key, observed[key]);
      var i := ObservedAddrsIsLast(plan.observed, observed, key);
      forall k | 0 <= k < |plan.observed| && LastWithKey(plan.observed, key, k) ensures k == i {}
    }
  }

  /** A preview asks for exactly these operations, in the order of their keys, of the plan's own target,
  under the plan's own name, if they still find the commit the plan was made from. */
  lemma PreviewMeans(plan: Plan)
    requires PreviewOf(plan).Success?
    ensures var changes := PreviewOf(plan).value.changeSet;
      && (forall op :: op in changes.operations <==> AskedFor(plan, op))
      && Text.Ascending(OpKey, changes.operations)
      && (PreviewOf(plan).value.empty <==> forall op :: !AskedFor(plan, op))
      && changes.targetRepository == plan.targetRepository
      && (plan.targetRef != "" ==> changes.targetRef == plan.targetRef) && (plan.targetRef == "" ==> changes.targetRef == "refs/heads/main")
      && changes.baseCommit == plan.baseCommit && changes.expectedTargetCommit == plan.baseCommit
      && (plan.message != "" ==> changes.message == plan.message)
      && (plan.actorRef != "" ==> changes.provenance.actorRef == plan.actorRef)
      && (plan.actorRef == "" ==> changes.provenance.actorRef == plan.connectorId)
      && changes.provenance.sourceRefs == plan.sourceRefs && changes.provenance.producedAt == plan.producedAt
  {
    var desired := DesiredMap(plan.scope, plan.desired, map[]).value;
    var operations := PreviewOf(plan).value.changeSet.operations;
    SortedOperationsShape(plan, desired);
    forall op ensures op in operations <==> AskedFor(plan, op) {
      PutsIff(plan, desired, op);
      if plan.mode.Reconcile? {
        RemovesIff(plan, desired, op);
      }
    }
    assert operations != [] ==> operations[0] in operations;
  }

  /** The plan itself is in order. */
  ghost predicate InOrder(plan: Plan)
  {
    && TrimSpace(plan.connectorId) != "" && plan.mode in {Patch, Mode.Reconcile} && plan.sourceRefs != [] && plan.targetRepository != ""
    && (plan.scope.aspects != [] || plan.scope.allowEntity) && forall name :: name in plan.scope.aspects ==> TrimSpace(name) != ""
  }

  /** A preview fails exactly if the plan or one of its desired units is at fault: for want of a target
  only if nothing stands before that, else with the fault of the first unit that has one. */
  lemma PreviewFailsIff(plan: Plan)
    ensures PreviewOf(plan).Success? <==> InOrder(plan) && forall i :: 0 <= i < |plan.desired| ==> Fault(plan.scope, plan.desired, i).None?
    ensures PreviewOf(plan).Failure? && InOrder(plan) ==> FirstFault(plan.scope, plan.desired, PreviewOf(plan).error)
    ensures !InOrder(plan) ==> PreviewOf(plan).Failure? && PreviewOf(plan).error in {UsageInvalid, WriteTargetRequired}
    ensures !InOrder(plan) && InOrder(plan.(sourceRefs := ["source"], targetRepository := "target")) ==>
      (PreviewOf(plan) == Failure(WriteTargetRequired) <==> plan.targetRepository == "")
    ensures !InOrder(plan.(sourceRefs := ["source"], targetRepository := "target")) ==> PreviewOf(plan) == Failure(UsageInvalid)
  {
    DesiredMapFailsIff(plan.scope, plan.desired);
  }
}
