/** What a repository does with a connector's operations (internal/repofile/apply.go,
internal/repofile/layout.go), and whether that establishes the Desired state.

A PUT without a schema reference or value source keeps the stored one, and an object
is either one entity blob or a set of aspects.  Both matter: the exact conditions
under which a reconcile lands and under which it converges are stated below.
*/
module Application {
  import opened Kernel
  import opened Knowledge
  import opened Reconcile
  import Text

  datatype Stored = Stored(address: Address, value: Json, schemaRef: string, valueSource: Option<ValueSource>)

  type Store = map<string, Stored>

  ghost predicate HasUnit(store: Store, objectId: string, blob: bool)
  {
    exists key :: key in store && store[key].address.objectId == objectId && IsEntityBlob(store[key].address) == blob
  }

  /** `AssertLayout`. */
  ghost predicate LayoutAllows(store: Store, incoming: Address)
  {
    !HasUnit(store, incoming.objectId, !IsEntityBlob(incoming))
  }

  ghost predicate PreconditionHolds(store: Store, op: Operation)
    requires op.Put?
  {
    match op.precondition
    case IfAbsent => OpKey(op) !in store
    case IfDigestEquals(digest) =>
      digest == NoDigest || (OpKey(op) in store && DigestOf(store[OpKey(op)].value) == digest)
  }

  /** The stored unit after a PUT; an omitted declaration is inherited. */
  function Merged(store: Store, op: Operation): Stored
    requires op.Put?
  {
    var key := OpKey(op);
    Stored(
      op.address, op.value,
      if op.schemaRef == "" && key in store then store[key].schemaRef else op.schemaRef,
      if op.valueSource.None? && key in store then store[key].valueSource else Normalized(op.valueSource))
  }

  ghost function UnitsOf(store: Store, objectId: string): set<string>
  {
    set key | key in store && store[key].address.objectId == objectId
  }

  ghost function ApplyOp(store: Store, op: Operation): Result<Store>
  {
    if !Writable(op.address) then Failure(UsageInvalid)
    else if op.Put? then
      if !LayoutAllows(store, op.address) then Failure(ObjectIdConflict)
      else if !PreconditionHolds(store, op) then Failure(PreconditionFailed)
      else Success(store[OpKey(op) := Merged(store, op)])
    else if IsEntityBlob(op.address) then
      if UnitsOf(store, op.address.objectId) == {} then Failure(PreconditionFailed)
      else Success(store - UnitsOf(store, op.address.objectId))
    else
      if OpKey(op) !in store then Failure(PreconditionFailed)
      else Success(store - {OpKey(op)})
  }

  ghost function ApplyPrefix(store: Store, ops: seq<Operation>, n: nat): Result<Store>
    requires n <= |ops|
  {
    if n == 0 then Success(store)
    else
      match ApplyPrefix(store, ops, n - 1)
      case Failure(error) => Failure(error)
      case Success(before) => ApplyOp(before, ops[n - 1])
  }

  ghost function Apply(store: Store, ops: seq<Operation>): Result<Store>
  {
    ApplyPrefix(store, ops, |ops|)
  }

  // --------------------------------------------------------------- repository states

  /** Units are filed under their keys and no object mixes a blob with aspects. */
  ghost predicate Consistent(store: Store)
  {
    && (forall key :: key in store ==>
          AddressKey(store[key].address) == key && Separable(store[key].address) && Writable(store[key].address))
    && (forall key, other :: key in store && other in store && store[key].address.objectId == store[other].address.objectId ==>
          IsEntityBlob(store[key].address) == IsEntityBlob(store[other].address))
  }

  /** The observations are the in-scope part of the store, read at that state. */
  ghost predicate Exact(scope: Scope, items: seq<Observed>, store: Store)
  {
    && (forall item :: item in items ==> Separable(item.address))
    && (forall item :: item in items && scope.Contains(item.address) ==> ReadFrom(item, store))
    && (forall key :: key in store && scope.Contains(store[key].address) ==>
          exists item :: item in items && item.address == store[key].address)
  }

  ghost predicate ReadFrom(item: Observed, store: Store)
  {
    var key := AddressKey(item.address);
    && key in store
    && item.address == store[key].address
    && item.digest == DigestOf(store[key].value)
    && item.declarationDigest == DigestOfDeclaration(store[key].schemaRef, store[key].valueSource)
  }

  ghost predicate DesiredSeparable(units: seq<Unit>)
  {
    forall unit :: unit in units ==> Separable(unit.address)
  }

  /** The stored unit is what the Collector asked for, value and declaration. */
  predicate Agrees(stored: Stored, unit: Unit)
  {
    && stored.value == unit.value
    && DigestOfDeclaration(stored.schemaRef, stored.valueSource) == DigestOfDeclaration(unit.schemaRef, unit.valueSource)
  }

  /** The Desired unit omits a schema reference or value source that the store holds. */
  predicate DropsDeclaration(store: Store, unit: Unit)
  {
    var key := AddressKey(unit.address);
    && key in store
    && ( || (unit.schemaRef == "" && TrimSpace(store[key].schemaRef) != "")
         || (unit.valueSource.None? && Normalized(store[key].valueSource).Some?))
  }

  // --------------------------------------------------- the effect of a list, key by key

  ghost function Effect(store: Store, ops: seq<Operation>, n: nat): Store
    requires n <= |ops|
  {
    if n == 0 then store
    else
      Affected(store, Effect(store, ops, n - 1), ops[n - 1])
  }

  /** The state after one operation whose inherited declarations come from the original store. */
  ghost function Affected(store: Store, before: Store, op: Operation): Store
  {
    if op.Put? then before[OpKey(op) := Merged(store, op)] else before - {OpKey(op)}
  }

  lemma {:induction false} EffectMiss(store: Store, ops: seq<Operation>, n: nat, key: string)
    requires n <= |ops|
    requires forall i :: 0 <= i < n ==> OpKey(ops[i]) != key
    ensures key in Effect(store, ops, n) <==> key in store
    ensures key in store ==> Effect(store, ops, n)[key] == store[key]
  {
    if n == 0 {
    } else {
      EffectMiss(store, ops, n - 1, key);
    }
  }

  lemma {:induction false} EffectHit(store: Store, ops: seq<Operation>, n: nat, i: nat)
    requires i < n <= |ops|
    requires Text.DistinctKeys(OpKey, ops)
    ensures ops[i].Put? ==> OpKey(ops[i]) in Effect(store, ops, n) && Effect(store, ops, n)[OpKey(ops[i])] == Merged(store, ops[i])
    ensures ops[i].Remove? ==> OpKey(ops[i]) !in Effect(store, ops, n)
  {
    if i == n - 1 {
    } else {
      EffectHit(store, ops, n - 1, i);
    }
  }

  /** Operations on distinct keys, fit for the store: a removal names a stored unit, a
  PUT's digest precondition holds against the store, addresses are writable and separable. */
  ghost predicate Fits(store: Store, op: Operation)
  {
    && Writable(op.address)
    && Separable(op.address)
    && if op.Put? then PreconditionHolds(store, op)
       else OpKey(op) in store
  }

  /** A unit stands at `key` just before operation `i`: an earlier operation put it, or it
  was stored and no earlier operation removed it. */
  ghost predicate Standing(store: Store, ops: seq<Operation>, i: nat, address: Address)
    requires i <= |ops|
  {
    || (exists h :: 0 <= h < i && ops[h].Put? && ops[h].address == address)
    || (exists key :: key in store && store[key].address == address && forall h :: 0 <= h < i ==> OpKey(ops[h]) != key)
  }

  /** No PUT meets a standing unit of the other layout on its object. */
  ghost predicate LayoutAgrees(store: Store, ops: seq<Operation>)
  {
    forall i :: 0 <= i < |ops| && ops[i].Put? ==> !ClashStanding(store, ops, i)
  }

  predicate Clash(a: Address, b: Address)
  {
    a.objectId == b.objectId && IsEntityBlob(a) != IsEntityBlob(b)
  }

  ghost predicate HoldsAddress(store: Store, address: Address)
  {
    exists key :: key in store && store[key].address == address
  }

  lemma StandingIsStored(store: Store, ops: seq<Operation>, i: nat, address: Address)
    requires i <= |ops| && Consistent(store) && Text.DistinctKeys(OpKey, ops)
    requires forall op :: op in ops ==> Fits(store, op)
    ensures Standing(store, ops, i, address) <==> HoldsAddress(Effect(store, ops, i), address)
  {
    var after := Effect(store, ops, i);
    if Standing(store, ops, i, address) {
      if h :| 0 <= h < i && ops[h].Put? && ops[h].address == address {
        EffectHit(store, ops, i, h);
        assert after[OpKey(ops[h])].address == address;
      } else {
        var key :| key in store && store[key].address == address && forall h :: 0 <= h < i ==> OpKey(ops[h]) != key;
        EffectMiss(store, ops, i, key);
        assert after[key].address == address;
      }
    }
    if key :| key in after && after[key].address == address {
      if h :| 0 <= h < i && OpKey(ops[h]) == key {
        EffectHit(store, ops, i, h);
      } else {
        EffectMiss(store, ops, i, key);
      }
    }
  }

  /** A layout-consistent state stays consistent under one accepted operation. */
  lemma ApplyOpConsistent(store: Store, op: Operation)
    requires Consistent(store) && Separable(op.address)
    requires ApplyOp(store, op).Success?
    ensures Consistent(ApplyOp(store, op).value)
  {
    var after := ApplyOp(store, op).value;
    if op.Put? {
      forall key | key in store && store[key].address.objectId == op.address.objectId
        ensures IsEntityBlob(store[key].address) == IsEntityBlob(op.address)
      {
      }
    }
  }

  /** Removing an entity blob removes one unit: it is alone on its object. */
  lemma BlobAlone(store: Store, address: Address)
    requires Consistent(store) && Separable(address) && IsEntityBlob(address) && AddressKey(address) in store
    ensures UnitsOf(store, address.objectId) == {AddressKey(address)}
  {
    var own := AddressKey(address);
    KeyIdentifies(store[own].address, address);
    forall key | key in store && store[key].address.objectId == address.objectId ensures key == own {
      assert IsEntityBlob(store[key].address);
    }
  }

  ghost predicate Clean(store: Store, ops: seq<Operation>, n: nat)
    requires n <= |ops|
  {
    n == 0 || (Clean(store, ops, n - 1) && (ops[n - 1].Put? ==> !ClashStanding(store, ops, n - 1)))
  }

  lemma {:induction false} CleanIsAgreement(store: Store, ops: seq<Operation>, n: nat)
    requires n <= |ops|
    ensures Clean(store, ops, n) <==> forall i :: 0 <= i < n && ops[i].Put? ==> !ClashStanding(store, ops, i)
  {
    if n == 0 {
    } else {
      CleanIsAgreement(store, ops, n - 1);
    }
  }

  /** Applying operations on distinct keys is applying each to the original store, and it
  is accepted exactly when no PUT clashes with the layout standing before it. */
  lemma {:induction false} ApplyIsEffect(store: Store, ops: seq<Operation>, n: nat)
    requires n <= |ops| && Consistent(store) && Text.DistinctKeys(OpKey, ops)
    requires forall op :: op in ops ==> Fits(store, op)
    ensures ApplyPrefix(store, ops, n) == if Clean(store, ops, n) then Success(Effect(store, ops, n)) else Failure(ObjectIdConflict)
    ensures Clean(store, ops, n) ==> Consistent(Effect(store, ops, n))
  {
    if n == 0 {
    } else {
      ApplyIsEffect(store, ops, n - 1);
      if Clean(store, ops, n - 1) {
        OneMore(store, ops, n);
      }
    }
  }

  /** The next operation fits the original store, and its key is as it was there. */
  lemma NotYetTouched(store: Store, ops: seq<Operation>, i: nat)
    requires i < |ops| && Text.DistinctKeys(OpKey, ops) && forall op :: op in ops ==> Fits(store, op)
    ensures Fits(store, ops[i])
    ensures OpKey(ops[i]) in Effect(store, ops, i) <==> OpKey(ops[i]) in store
    ensures OpKey(ops[i]) in store ==> Effect(store, ops, i)[OpKey(ops[i])] == store[OpKey(ops[i])]
  {
    EffectMiss(store, ops, i, OpKey(ops[i]));
  }

  lemma OneMore(store: Store, ops: seq<Operation>, n: nat)
    requires 0 < n <= |ops| && Consistent(store) && Text.DistinctKeys(OpKey, ops)
    requires forall op :: op in ops ==> Fits(store, op)
    requires Consistent(Effect(store, ops, n - 1))
    ensures var op, before := ops[n - 1], Effect(store, ops, n - 1);
      if op.Put? && ClashStanding(store, ops, n - 1)
      then ApplyOp(before, op) == Failure(ObjectIdConflict)
      else ApplyOp(before, op) == Success(Effect(store, ops, n)) && Consistent(Effect(store, ops, n))
  {
    LayoutIsStanding(store, ops, n - 1);
    NextApplies(store, ops, n - 1);
  }

  lemma NextApplies(store: Store, ops: seq<Operation>, i: nat)
    requires i < |ops| && Text.DistinctKeys(OpKey, ops) && forall op :: op in ops ==> Fits(store, op)
    requires Consistent(Effect(store, ops, i))
    ensures var op, before := ops[i], Effect(store, ops, i);
      if op.Put? && !LayoutAllows(before, op.address)
      then ApplyOp(before, op) == Failure(ObjectIdConflict)
      else ApplyOp(before, op) == Success(Affected(store, before, op)) && Consistent(Affected(store, before, op))
  {
    NotYetTouched(store, ops, i);
    AppliesTo(store, Effect(store, ops, i), ops[i]);
  }

  /** On a state that has the operation's key as the original store has it. */
  lemma AppliesTo(store: Store, before: Store, op: Operation)
    requires Fits(store, op) && Consistent(before)
    requires OpKey(op) in before <==> OpKey(op) in store
    requires OpKey(op) in store ==> before[OpKey(op)] == store[OpKey(op)]
    ensures
      if op.Put? && !LayoutAllows(before, op.address)
      then ApplyOp(before, op) == Failure(ObjectIdConflict)
      else ApplyOp(before, op) == Success(Affected(store, before, op)) && Consistent(Affected(store, before, op))
  {
    if op.Put? {
      PutOnEffect(store, before, op);
    } else {
      RemoveStored(before, op);
    }
    if ApplyOp(before, op).Success? {
      ApplyOpConsistent(before, op);
    }
  }

  /** A stored unit is removed, and it alone. */
  lemma RemoveStored(before: Store, op: Operation)
    requires Consistent(before) && op.Remove? && OpKey(op) in before && Separable(op.address) && Writable(op.address)
    ensures ApplyOp(before, op) == Success(before - {OpKey(op)})
  {
    if IsEntityBlob(op.address) {
      BlobAlone(before, op.address);
    }
  }

  lemma PutOnEffect(store: Store, before: Store, op: Operation)
    requires op.Put? && Fits(store, op)
    requires OpKey(op) in before <==> OpKey(op) in store
    requires OpKey(op) in store ==> before[OpKey(op)] == store[OpKey(op)]
    ensures ApplyOp(before, op) ==
      if LayoutAllows(before, op.address) then Success(before[OpKey(op) := Merged(store, op)]) else Failure(ObjectIdConflict)
  {
  }

  ghost predicate ClashStanding(store: Store, ops: seq<Operation>, i: nat)
    requires i < |ops|
  {
    exists address :: Standing(store, ops, i, address) && Clash(ops[i].address, address)
  }

  lemma LayoutIsStanding(store: Store, ops: seq<Operation>, i: nat)
    requires i < |ops| && Consistent(store) && Text.DistinctKeys(OpKey, ops)
    requires forall op :: op in ops ==> Fits(store, op)
    ensures LayoutAllows(Effect(store, ops, i), ops[i].address) <==> !ClashStanding(store, ops, i)
  {
    var before, incoming := Effect(store, ops, i), ops[i].address;
    if HasUnit(before, incoming.objectId, !IsEntityBlob(incoming)) {
      var key :| key in before && before[key].address.objectId == incoming.objectId
                 && IsEntityBlob(before[key].address) == !IsEntityBlob(incoming);
      StandingIsStored(store, ops, i, before[key].address);
      assert Standing(store, ops, i, before[key].address) && Clash(incoming, before[key].address);
    }
    if ClashStanding(store, ops, i) {
      var address :| Standing(store, ops, i, address) && Clash(incoming, address);
      StandingIsStored(store, ops, i, address);
    }
  }

  // -------------------------------------------------------------- a preview applied

  lemma ScopeByKey(scope: Scope, a: Address, b: Address)
    requires Separable(a) && Separable(b) && AddressKey(a) == AddressKey(b)
    ensures scope.Contains(a) == scope.Contains(b) && IsEntityBlob(a) == IsEntityBlob(b)
  {
    KeyIdentifies(a, b);
  }

  lemma ObservedAt(scope: Scope, items: seq<Observed>, store: Store, key: string)
    requires Exact(scope, items, store) && Consistent(store)
    ensures var m := ObservedMap(scope, items);
      && (key in m <==> key in store && scope.Contains(store[key].address))
      && (key in m ==> ReadFrom(m[key], store) && AddressKey(m[key].address) == key)
  {
    ObservedMapEntries(scope, items);
    var m := ObservedMap(scope, items);
    if key in m {
      assert Filed(scope, items, key, m[key]);
    }
    if key in store && scope.Contains(store[key].address) {
      var item :| item in items && item.address == store[key].address;
    }
  }

  /** The valid plan, its Desired map, and a store its observations were read from. */
  ghost predicate Grounded(plan: Plan, desired: map<string, Unit>, store: Store)
  {
    && PlanError(plan).None?
    && DesiredMap(plan.scope, plan.desired, map[]) == Success(desired)
    && DesiredSeparable(plan.desired)
    && Consistent(store)
    && Exact(plan.scope, plan.observed, store)
  }

  /** What the diff sees of a Desired unit is what the store holds. */
  lemma DesiredAt(plan: Plan, desired: map<string, Unit>, store: Store, key: string)
    requires Grounded(plan, desired, store) && key in desired
    ensures AddressKey(desired[key].address) == key && Separable(desired[key].address) && Writable(desired[key].address)
    ensures plan.scope.Contains(desired[key].address)
    ensures var op := DesiredOp(desired[key], key, ObservedMap(plan.scope, plan.observed));
      && (op.None? <==> key in store && Agrees(store[key], desired[key]))
      && (op.Some? ==> op.value.Put? && Fits(store, op.value) && OpKey(op.value) == key)
  {
    DesiredMapEntries(plan.scope, plan.desired, map[]);
    ObservedAt(plan.scope, plan.observed, store, key);
    if key in store {
      ScopeByKey(plan.scope, store[key].address, desired[key].address);
    }
  }

  lemma OperationFits(plan: Plan, desired: map<string, Unit>, store: Store, op: Operation)
    requires Grounded(plan, desired, store) && op in OperationSet(plan, desired)
    ensures Fits(store, op)
    ensures op.Remove? ==> plan.mode.Reconcile? && OpKey(op) !in desired && plan.scope.Contains(store[OpKey(op)].address)
    ensures op.Put? ==> OpKey(op) in desired && DesiredOp(desired[OpKey(op)], OpKey(op), ObservedMap(plan.scope, plan.observed)) == Some(op)
  {
    var observed := ObservedMap(plan.scope, plan.observed);
    if op in PutSet(desired, observed) {
      var key :| key in desired && DesiredOp(desired[key], key, observed) == Some(op);
      DesiredAt(plan, desired, store, key);
    } else {
      var addrs := ObservedAddrs(plan.observed, observed);
      var key :| key in addrs && key !in desired && op == RemoveOp(addrs[key]);
      ObservedMapEntries(plan.scope, plan.observed);
      forall k | k in observed ensures observed[k] in plan.observed && AddressKey(observed[k].address) == k {
        assert Filed(plan.scope, plan.observed, k, observed[k]);
      }
      ObservedAddrsEntries(plan.observed, observed);
      ObservedAt(plan.scope, plan.observed, store, key);
      var item :| item in plan.observed && item.address == addrs[key];
      ScopeByKey(plan.scope, item.address, store[key].address);
      assert ReadFrom(item, store);
    }
  }

  /** The store a plan asks for: Desired units merged in; under reconcile, other in-scope units gone. */
  ghost function Target(plan: Plan, desired: map<string, Unit>, store: Store): Store
  {
    map key | key in store.Keys + desired.Keys && !(plan.mode.Reconcile? && key !in desired && plan.scope.Contains(store[key].address)) ::
      if key !in desired then store[key]
      else if key in store && Agrees(store[key], desired[key]) then store[key]
      else Merged(store, PutOp(desired[key], IfAbsent))
  }

  /** Membership in the target and its value, read off one key at a time. */
  ghost predicate SameAt(a: Store, b: Store, key: string)
  {
    (key in a <==> key in b) && (key in a ==> a[key] == b[key])
  }

  lemma PutIsTarget(plan: Plan, desired: map<string, Unit>, store: Store, after: Store, op: Operation)
    requires Grounded(plan, desired, store) && op in OperationSet(plan, desired) && op.Put?
    requires OpKey(op) in after && after[OpKey(op)] == Merged(store, op)
    ensures SameAt(after, Target(plan, desired, store), OpKey(op))
  {
    OperationFits(plan, desired, store, op);
    DesiredAt(plan, desired, store, OpKey(op));
  }

  lemma RemoveIsTarget(plan: Plan, desired: map<string, Unit>, store: Store, after: Store, op: Operation)
    requires Grounded(plan, desired, store) && op in OperationSet(plan, desired) && op.Remove?
    requires OpKey(op) !in after
    ensures SameAt(after, Target(plan, desired, store), OpKey(op))
  {
    OperationFits(plan, desired, store, op);
  }

  lemma RestIsTarget(plan: Plan, desired: map<string, Unit>, store: Store, after: Store, key: string)
    requires Grounded(plan, desired, store) && SameAt(after, store, key)
    requires forall op :: op in SortedOperations(plan, desired) ==> OpKey(op) != key
    ensures SameAt(after, Target(plan, desired, store), key)
  {
    if key in desired {
      DesiredAt(plan, desired, store, key);
      PutListed(plan, desired, key);
    } else if key in store && plan.mode.Reconcile? && plan.scope.Contains(store[key].address) {
      RemovalListed(plan, desired, store, key);
    }
  }

  lemma EffectIsTarget(plan: Plan, desired: map<string, Unit>, store: Store, key: string)
    requires Grounded(plan, desired, store)
    ensures SameAt(Effect(store, SortedOperations(plan, desired), |SortedOperations(plan, desired)|), Target(plan, desired, store), key)
  {
    var ops := SortedOperations(plan, desired);
    SortedOperationsShape(plan, desired);
    AscendingDistinct(ops);
    var after := Effect(store, ops, |ops|);
    if i :| 0 <= i < |ops| && OpKey(ops[i]) == key {
      assert ops[i] in ops;
      EffectHit(store, ops, |ops|, i);
      if ops[i].Put? {
        PutIsTarget(plan, desired, store, after, ops[i]);
      } else {
        RemoveIsTarget(plan, desired, store, after, ops[i]);
      }
    } else {
      EffectMiss(store, ops, |ops|, key);
      RestIsTarget(plan, desired, store, after, key);
    }
  }

  lemma SameEverywhere(a: Store, b: Store)
    requires forall key :: SameAt(a, b, key)
    ensures a == b
  {
    forall key ensures key in a <==> key in b {
      assert SameAt(a, b, key);
    }
    forall key | key in a ensures a[key] == b[key] {
      assert SameAt(a, b, key);
    }
  }

  lemma PutListed(plan: Plan, desired: map<string, Unit>, key: string)
    requires DesiredMap(plan.scope, plan.desired, map[]) == Success(desired) && key in desired
    ensures DesiredOp(desired[key], key, ObservedMap(plan.scope, plan.observed)).Some? ==>
      exists op :: op in SortedOperations(plan, desired) && OpKey(op) == key
  {
    var next := DesiredOp(desired[key], key, ObservedMap(plan.scope, plan.observed));
    DesiredMapEntries(plan.scope, plan.desired, map[]);
    SortedOperationsShape(plan, desired);
    if next.Some? {
      assert next.value in PutSet(desired, ObservedMap(plan.scope, plan.observed));
      assert next.value in SortedOperations(plan, desired);
    }
  }

  lemma RemovalListed(plan: Plan, desired: map<string, Unit>, store: Store, key: string)
    requires Grounded(plan, desired, store) && plan.mode.Reconcile?
    requires key in store && key !in desired && plan.scope.Contains(store[key].address)
    ensures exists op :: op in SortedOperations(plan, desired) && OpKey(op) == key
  {
    var observed := ObservedMap(plan.scope, plan.observed);
    ObservedMapEntries(plan.scope, plan.observed);
    forall k | k in observed ensures observed[k] in plan.observed && AddressKey(observed[k].address) == k {
      assert Filed(plan.scope, plan.observed, k, observed[k]);
    }
    ObservedAddrsEntries(plan.observed, observed);
    ObservedAt(plan.scope, plan.observed, store, key);
    var addrs := ObservedAddrs(plan.observed, observed);
    SortedOperationsShape(plan, desired);
    assert RemoveOp(addrs[key]) in RemoveSet(desired, addrs);
    assert RemoveOp(addrs[key]) in SortedOperations(plan, desired);
  }

  lemma AscendingDistinct(ops: seq<Operation>)
    requires Text.Ascending(OpKey, ops)
    ensures Text.DistinctKeys(OpKey, ops)
  {
    forall i, j | 0 <= i < j < |ops| ensures OpKey(ops[i]) != OpKey(ops[j]) {
      Text.LessIrreflexive(OpKey(ops[i]));
    }
  }

  /** The ChangeSet of a preview is accepted exactly when no PUT clashes with the layout
  standing before it, and then it turns the store into the target. */
  lemma PreviewLands(plan: Plan, desired: map<string, Unit>, store: Store)
    requires Grounded(plan, desired, store)
    ensures PreviewOf(plan).Success?
    ensures var ops := PreviewOf(plan).value.changeSet.operations;
      Apply(store, ops) == if LayoutAgrees(store, ops) then Success(Target(plan, desired, store)) else Failure(ObjectIdConflict)
    ensures LayoutAgrees(store, SortedOperations(plan, desired)) ==> Consistent(Target(plan, desired, store))
  {
    var ops := SortedOperations(plan, desired);
    SortedFit(plan, desired, store);
    ApplyIsEffect(store, ops, |ops|);
    CleanIsAgreement(store, ops, |ops|);
    WholeEffectIsTarget(plan, desired, store);
  }

  lemma SortedFit(plan: Plan, desired: map<string, Unit>, store: Store)
    requires Grounded(plan, desired, store)
    ensures Text.DistinctKeys(OpKey, SortedOperations(plan, desired))
    ensures forall op :: op in SortedOperations(plan, desired) ==> Fits(store, op)
  {
    var ops := SortedOperations(plan, desired);
    SortedOperationsShape(plan, desired);
    AscendingDistinct(ops);
    forall op | op in ops ensures Fits(store, op) {
      OperationFits(plan, desired, store, op);
    }
  }

  lemma WholeEffectIsTarget(plan: Plan, desired: map<string, Unit>, store: Store)
    requires Grounded(plan, desired, store)
    ensures Effect(store, SortedOperations(plan, desired), |SortedOperations(plan, desired)|) == Target(plan, desired, store)
  {
    var ops := SortedOperations(plan, desired);
    forall key ensures SameAt(Effect(store, ops, |ops|), Target(plan, desired, store), key) {
      EffectIsTarget(plan, desired, store, key);
    }
    SameEverywhere(Effect(store, ops, |ops|), Target(plan, desired, store));
  }

  /** The target holds every Desired value; the declaration agrees exactly when the unit
  did not drop a stored one.  Units outside Desired are untouched, or (reconcile, in
  scope) gone; patch removes nothing. */
  lemma TargetMeetsDesired(plan: Plan, desired: map<string, Unit>, store: Store, key: string)
    requires Grounded(plan, desired, store)
    ensures var after := Target(plan, desired, store);
      && (key in desired ==> key in after && after[key].value == desired[key].value)
      && (key in desired ==> (Agrees(after[key], desired[key]) <==> !DropsDeclaration(store, desired[key])))
      && (key !in desired && key in after ==> key in store && after[key] == store[key])
      && (key in store && key !in desired ==> (key !in after <==> plan.mode.Reconcile? && plan.scope.Contains(store[key].address)))
      && (plan.mode.Patch? ==> store.Keys <= after.Keys)
  {
    if key in desired {
      DesiredAt(plan, desired, store, key);
      var unit := desired[key];
      if key in store && !Agrees(store[key], unit) {
        assert DropsDeclaration(store, unit) <==>
          (unit.schemaRef == "" && TrimSpace(store[key].schemaRef) != "") || (unit.valueSource.None? && Normalized(store[key].valueSource).Some?);
      }
    }
  }

  /** A second preview, against observations of the resulting store, is empty exactly when
  no Desired unit dropped a stored declaration. */
  lemma SecondPreviewEmpty(plan: Plan, desired: map<string, Unit>, store: Store, again: Plan)
    requires Grounded(plan, desired, store)
    requires LayoutAgrees(store, SortedOperations(plan, desired))
    requires again.desired == plan.desired && again.scope == plan.scope && again.mode == plan.mode && PlanError(again).None?
    requires Exact(again.scope, again.observed, Target(plan, desired, store))
    ensures PreviewOf(again).Success?
    ensures PreviewOf(again).value.empty <==> forall key :: key in desired ==> !DropsDeclaration(store, desired[key])
  {
    var after := Target(plan, desired, store);
    PreviewLands(plan, desired, store);
    assert Grounded(again, desired, after);
    var ops := SortedOperations(again, desired);
    var observed := ObservedMap(again.scope, again.observed);
    SortedOperationsShape(again, desired);
    if ops != [] {
      var op := ops[0];
      assert op in ops;
      OperationFits(again, desired, after, op);
      TargetMeetsDesired(plan, desired, store, OpKey(op));
      if op.Put? {
        DesiredAt(again, desired, after, OpKey(op));
      }
      assert exists key :: key in desired && DropsDeclaration(store, desired[key]);
    }
    if key :| key in desired && DropsDeclaration(store, desired[key]) {
      TargetMeetsDesired(plan, desired, store, key);
      DesiredAt(again, desired, after, key);
      var op := DesiredOp(desired[key], key, observed);
      assert op.value in PutSet(desired, observed);
      assert op.value in ops;
    }
  }

  // ------------------------------------------------------------ where it does not hold

  /** No Desired unit differs in layout from a stored or another Desired unit of its object. */
  ghost predicate KeepsLayout(desired: map<string, Unit>, store: Store)
  {
    && (forall key, other :: key in desired && other in store ==> !Clash(desired[key].address, store[other].address))
    && (forall key, other :: key in desired && other in desired ==> !Clash(desired[key].address, desired[other].address))
  }

  /** Plans that keep every object's layout always land. */
  lemma KeptLayoutLands(plan: Plan, desired: map<string, Unit>, store: Store)
    requires Grounded(plan, desired, store) && KeepsLayout(desired, store)
    ensures LayoutAgrees(store, SortedOperations(plan, desired))
  {
    var ops := SortedOperations(plan, desired);
    forall i, address | 0 <= i < |ops| && ops[i].Put? && Standing(store, ops, i, address)
      ensures !Clash(ops[i].address, address)
    {
      StandingKeepsLayout(plan, desired, store, i, address);
    }
  }

  lemma StandingKeepsLayout(plan: Plan, desired: map<string, Unit>, store: Store, i: nat, address: Address)
    requires Grounded(plan, desired, store) && KeepsLayout(desired, store)
    requires i < |SortedOperations(plan, desired)| && SortedOperations(plan, desired)[i].Put?
    requires Standing(store, SortedOperations(plan, desired), i, address)
    ensures !Clash(SortedOperations(plan, desired)[i].address, address)
  {
    var ops := SortedOperations(plan, desired);
    PutsDesiredAddress(plan, desired, store, ops[i]);
    if h :| 0 <= h < i && ops[h].Put? && ops[h].address == address {
      PutsDesiredAddress(plan, desired, store, ops[h]);
    }
  }

  lemma PutsDesiredAddress(plan: Plan, desired: map<string, Unit>, store: Store, op: Operation)
    requires Grounded(plan, desired, store) && op in SortedOperations(plan, desired) && op.Put?
    ensures OpKey(op) in desired && op.address == desired[OpKey(op)].address
  {
    SortedOperationsShape(plan, desired);
    OperationFits(plan, desired, store, op);
  }

  lemma NotBefore(ops: seq<Operation>, i: nat, key: string)
    requires i < |ops| && Text.Ascending(OpKey, ops) && Text.Less(OpKey(ops[i]), key)
    ensures forall h :: 0 <= h < i ==> OpKey(ops[h]) != key
  {
    forall h | 0 <= h < i ensures OpKey(ops[h]) != key {
      Text.LessTransitive(OpKey(ops[h]), OpKey(ops[i]), key);
      Text.LessIrreflexive(key);
    }
  }

  lemma ClashRefuses(plan: Plan, desired: map<string, Unit>, store: Store, i: nat, key: string)
    requires Grounded(plan, desired, store)
    requires i < |SortedOperations(plan, desired)| && SortedOperations(plan, desired)[i].Put?
    requires key in store && Clash(SortedOperations(plan, desired)[i].address, store[key].address)
    requires Text.Less(OpKey(SortedOperations(plan, desired)[i]), key)
    ensures !LayoutAgrees(store, SortedOperations(plan, desired))
  {
    SortedOperationsShape(plan, desired);
    MeetsStanding(store, SortedOperations(plan, desired), i, key);
  }

  /** In key order a PUT meets every clashing stored unit of a later key still standing. */
  lemma MeetsStanding(store: Store, ops: seq<Operation>, i: nat, key: string)
    requires i < |ops| && ops[i].Put? && Text.Ascending(OpKey, ops) && Text.Less(OpKey(ops[i]), key)
    requires key in store && Clash(ops[i].address, store[key].address)
    ensures !LayoutAgrees(store, ops)
  {
    NotBefore(ops, i, key);
    assert Standing(store, ops, i, store[key].address);
    assert ClashStanding(store, ops, i);
  }

  /** A reconcile that turns an object from aspects into an entity blob is refused: the
  blob's key sorts before the aspect's, so its PUT meets the aspect still standing. */
  lemma LayoutSwitchRefused(plan: Plan, desired: map<string, Unit>, store: Store, blob: string, aspect: string)
    requires Grounded(plan, desired, store)
    requires blob in desired && blob !in store && aspect in store
    requires Clash(desired[blob].address, store[aspect].address)
    requires Text.Less(blob, aspect)
    ensures PreviewOf(plan).Success?
    ensures Apply(store, PreviewOf(plan).value.changeSet.operations) == Failure(ObjectIdConflict)
  {
    var i := PutOf(plan, desired, store, blob);
    ClashRefuses(plan, desired, store, i, aspect);
    PreviewLands(plan, desired, store);
  }

  /** Where a Desired unit that the store does not hold is put. */
  lemma PutOf(plan: Plan, desired: map<string, Unit>, store: Store, key: string) returns (i: nat)
    requires Grounded(plan, desired, store) && key in desired && key !in store
    ensures i < |SortedOperations(plan, desired)| && SortedOperations(plan, desired)[i].Put?
    ensures OpKey(SortedOperations(plan, desired)[i]) == key && SortedOperations(plan, desired)[i].address == desired[key].address
  {
    var ops := SortedOperations(plan, desired);
    DesiredAt(plan, desired, store, key);
    PutListed(plan, desired, key);
    SortedOperationsShape(plan, desired);
    var op :| op in ops && OpKey(op) == key;
    OperationFits(plan, desired, store, op);
    i := IndexIn(ops, op);
  }

  lemma IndexIn(ops: seq<Operation>, op: Operation) returns (i: nat)
    requires op in ops
    ensures i < |ops| && ops[i] == op
  {
    i :| 0 <= i < |ops| && ops[i] == op;
  }

  const ITEM := Address(Entity, "item", "", "")

  const EXAMPLE_PLAN := Plan(
    "c", Reconcile, Scope([], true, ""), "kr://r", "", "base",
    [Unit(ITEM, Null, "", None, "")],
    [Observed(ITEM, DigestOf(Text("old")), DigestOfDeclaration("s", None))],
    ["source"], "", "", "")

  const EXAMPLE_STORE: Store := map[AddressKey(ITEM) := Stored(ITEM, Text("old"), "s", None)]

  lemma ExampleGrounded(desired: map<string, Unit>)
    requires desired == map[AddressKey(ITEM) := EXAMPLE_PLAN.desired[0]]
    ensures Grounded(EXAMPLE_PLAN, desired, EXAMPLE_STORE)
  {
    var units := EXAMPLE_PLAN.desired;
    assert units[1..] == [];
    assert Writable(ITEM) && EXAMPLE_PLAN.scope.Contains(ITEM) && ValidValueSource(units[0].valueSource);
    assert DesiredMap(EXAMPLE_PLAN.scope, units, map[]) == DesiredMap(EXAMPLE_PLAN.scope, units[1..], desired);
    assert ReadFrom(EXAMPLE_PLAN.observed[0], EXAMPLE_STORE);
    assert TrimSpace("c") == "c";
  }

  /** A Desired unit without schema on a unit stored with one: the write lands, and yet
  every later preview is non-empty, because the store keeps the schema. */
  lemma DroppedDeclarationExample()
    ensures exists desired ::
      && Grounded(EXAMPLE_PLAN, desired, EXAMPLE_STORE)
      && LayoutAgrees(EXAMPLE_STORE, SortedOperations(EXAMPLE_PLAN, desired))
      && AddressKey(ITEM) in desired && DropsDeclaration(EXAMPLE_STORE, desired[AddressKey(ITEM)])
  {
    var desired := map[AddressKey(ITEM) := EXAMPLE_PLAN.desired[0]];
    ExampleGrounded(desired);
    KeptLayoutLands(EXAMPLE_PLAN, desired, EXAMPLE_STORE);
    assert TrimSpace("s") == "s";
    assert DropsDeclaration(EXAMPLE_STORE, desired[AddressKey(ITEM)]);
  }
}
