/** Whether a connector's ChangeSet will be refused, told from the desired units and the stored
ones, before any operation list is built (connector/preview.go, internal/repofile/layout.go). */
module LayoutOrder {
  import opened Kernel
  import opened Knowledge
  import opened Reconcile
  import opened Application
  import Text

  /** The desired unit is not in the store as it stands. */
  predicate Changed(store: Store, key: string, unit: Unit)
  {
    !(key in store && Agrees(store[key], unit))
  }

  /** The stored units that a reconcile removes. */
  function Removals(plan: Plan, desired: map<string, Unit>, store: Store): set<string>
  {
    set key | key in store && plan.mode.Reconcile? && key !in desired && plan.scope.Contains(store[key].address)
  }

  /** A unit of the other layout is stored on the same object and not removed before. */
  predicate MeetsStored(desired: map<string, Unit>, store: Store, removals: set<string>, key: string, other: string)
  {
    && key in desired && other in store && Clash(desired[key].address, store[other].address)
    && !(other in removals && Text.Less(other, key))
  }

  /** A desired unit of the other layout is put on the same object before. */
  predicate MeetsDesired(desired: map<string, Unit>, store: Store, key: string, other: string)
  {
    && key in desired && other in desired && Clash(desired[key].address, desired[other].address)
    && Changed(store, other, desired[other]) && Text.Less(other, key)
  }

  /** No unit that is put meets the other layout on its object. */
  ghost predicate LayoutFits(desired: map<string, Unit>, store: Store, removals: set<string>)
  {
    forall key, other :: key in desired && Changed(store, key, desired[key]) ==>
      !MeetsStored(desired, store, removals, key, other) && !MeetsDesired(desired, store, key, other)
  }

  // ----------------------------------------------------------------- what the list consists of

  predicate PutFor(desired: map<string, Unit>, store: Store, op: Operation)
  {
    op.Put? && OpKey(op) in desired && Changed(store, OpKey(op), desired[OpKey(op)]) && op.address == desired[OpKey(op)].address
  }

  predicate Means(desired: map<string, Unit>, store: Store, removals: set<string>, op: Operation)
  {
    PutFor(desired, store, op) || (op.Remove? && OpKey(op) in removals)
  }

  ghost predicate Listed(ops: seq<Operation>, key: string)
  {
    exists i :: 0 <= i < |ops| && OpKey(ops[i]) == key
  }

  /** Ascending; one PUT per changed desired unit and one REMOVE per removal, and no more. */
  ghost predicate Spells(desired: map<string, Unit>, store: Store, removals: set<string>, ops: seq<Operation>)
  {
    && Text.Ascending(OpKey, ops)
    && (forall i :: 0 <= i < |ops| ==> Means(desired, store, removals, ops[i]))
    && (forall key :: key in desired && Changed(store, key, desired[key]) ==> Listed(ops, key))
    && (forall key :: key in removals ==> Listed(ops, key))
    && removals !! desired.Keys && removals <= store.Keys
  }

  lemma SortedSpells(plan: Plan, desired: map<string, Unit>, store: Store)
    requires Grounded(plan, desired, store)
    ensures Spells(desired, store, Removals(plan, desired, store), SortedOperations(plan, desired))
  {
    var ops, removals := SortedOperations(plan, desired), Removals(plan, desired, store);
    SortedOperationsShape(plan, desired);
    forall i | 0 <= i < |ops| ensures Means(desired, store, removals, ops[i]) {
      assert ops[i] in ops;
      OperationFits(plan, desired, store, ops[i]);
      if ops[i].Put? {
        PutsDesiredAddress(plan, desired, store, ops[i]);
        DesiredAt(plan, desired, store, OpKey(ops[i]));
      }
    }
    forall key | key in desired && Changed(store, key, desired[key]) ensures Listed(ops, key) {
      DesiredAt(plan, desired, store, key);
      PutListed(plan, desired, key);
      var op :| op in ops && OpKey(op) == key;
      var i := IndexIn(ops, op);
    }
    forall key | key in removals ensures Listed(ops, key) {
      RemovalListed(plan, desired, store, key);
      var op :| op in ops && OpKey(op) == key;
      var i := IndexIn(ops, op);
    }
  }

  /** Units are filed under their keys, and keys without separators identify them. */
  ghost predicate WellKeyed(desired: map<string, Unit>, store: Store)
  {
    && (forall key :: key in desired ==> AddressKey(desired[key].address) == key && Separable(desired[key].address))
    && (forall key :: key in store ==> AddressKey(store[key].address) == key && Separable(store[key].address))
  }

  lemma GroundedIsWellKeyed(plan: Plan, desired: map<string, Unit>, store: Store)
    requires Grounded(plan, desired, store)
    ensures WellKeyed(desired, store)
  {
    forall key | key in desired ensures AddressKey(desired[key].address) == key && Separable(desired[key].address) {
      DesiredAt(plan, desired, store, key);
    }
  }

  lemma Before(ops: seq<Operation>, h: nat, i: nat)
    requires Text.Ascending(OpKey, ops) && h < |ops| && i < |ops|
    ensures h < i <==> Text.Less(OpKey(ops[h]), OpKey(ops[i]))
  {
    Text.LessIrreflexive(OpKey(ops[i]));
    if i < h && Text.Less(OpKey(ops[h]), OpKey(ops[i])) {
      Text.LessTransitive(OpKey(ops[h]), OpKey(ops[i]), OpKey(ops[h]));
      Text.LessIrreflexive(OpKey(ops[h]));
    }
  }

  /** What stands before PUT i, in terms of the units. */
  lemma ClashIsMeeting(desired: map<string, Unit>, store: Store, removals: set<string>, ops: seq<Operation>, i: nat)
    requires Spells(desired, store, removals, ops) && WellKeyed(desired, store) && i < |ops| && ops[i].Put?
    ensures ClashStanding(store, ops, i) ==> exists other ::
      MeetsStored(desired, store, removals, OpKey(ops[i]), other) || MeetsDesired(desired, store, OpKey(ops[i]), other)
  {
    var key := OpKey(ops[i]);
    assert Means(desired, store, removals, ops[i]);
    if address :| Standing(store, ops, i, address) && Clash(ops[i].address, address) {
      if h :| 0 <= h < i && ops[h].Put? && ops[h].address == address {
        assert Means(desired, store, removals, ops[h]);
        Before(ops, h, i);
        assert MeetsDesired(desired, store, key, OpKey(ops[h]));
      } else {
        var other :| other in store && store[other].address == address && forall h :: 0 <= h < i ==> OpKey(ops[h]) != other;
        if other in removals && Text.Less(other, key) {
          var h :| 0 <= h < |ops| && OpKey(ops[h]) == other;
          Before(ops, h, i);
        }
        assert MeetsStored(desired, store, removals, key, other);
      }
    }
  }

  lemma MeetingDesiredClashes(desired: map<string, Unit>, store: Store, removals: set<string>, ops: seq<Operation>, i: nat, other: string)
    requires Spells(desired, store, removals, ops) && i < |ops| && ops[i].Put? && MeetsDesired(desired, store, OpKey(ops[i]), other)
    ensures ClashStanding(store, ops, i)
  {
    assert Means(desired, store, removals, ops[i]);
    var h :| 0 <= h < |ops| && OpKey(ops[h]) == other;
    assert Means(desired, store, removals, ops[h]);
    Before(ops, h, i);
    assert Standing(store, ops, i, desired[other].address);
  }

  lemma MeetingStoredClashes(desired: map<string, Unit>, store: Store, removals: set<string>, ops: seq<Operation>, i: nat, other: string)
    requires Spells(desired, store, removals, ops) && WellKeyed(desired, store) && i < |ops| && ops[i].Put?
    requires MeetsStored(desired, store, removals, OpKey(ops[i]), other)
    ensures ClashStanding(store, ops, i)
  {
    assert Means(desired, store, removals, ops[i]);
    if h :| 0 <= h < i && OpKey(ops[h]) == other {
      assert Means(desired, store, removals, ops[h]);
      Before(ops, h, i);
      KeyIdentifies(desired[other].address, store[other].address);
      assert Standing(store, ops, i, desired[other].address) && Clash(ops[i].address, desired[other].address);
    } else {
      assert Standing(store, ops, i, store[other].address);
    }
  }

  lemma SpelledAgreesIff(desired: map<string, Unit>, store: Store, removals: set<string>, ops: seq<Operation>)
    requires Spells(desired, store, removals, ops) && WellKeyed(desired, store)
    ensures LayoutAgrees(store, ops) <==> LayoutFits(desired, store, removals)
  {
    if LayoutFits(desired, store, removals) {
      forall i | 0 <= i < |ops| && ops[i].Put? ensures !ClashStanding(store, ops, i) {
        assert Means(desired, store, removals, ops[i]);
        ClashIsMeeting(desired, store, removals, ops, i);
      }
    }
    if LayoutAgrees(store, ops) {
      forall key, other | key in desired && Changed(store, key, desired[key])
        ensures !MeetsStored(desired, store, removals, key, other) && !MeetsDesired(desired, store, key, other)
      {
        var i :| 0 <= i < |ops| && OpKey(ops[i]) == key;
        assert Means(desired, store, removals, ops[i]);
        if MeetsDesired(desired, store, key, other) {
          MeetingDesiredClashes(desired, store, removals, ops, i, other);
        }
        if MeetsStored(desired, store, removals, key, other) {
          MeetingStoredClashes(desired, store, removals, ops, i, other);
        }
      }
    }
  }

  /** The ChangeSet of a preview is accepted exactly if no changed desired unit meets, on its
  object, a unit of the other layout that is stored and not removed under a smaller key, or
  that is put under a smaller key. */
  lemma PreviewLandsIff(plan: Plan, desired: map<string, Unit>, store: Store)
    requires Grounded(plan, desired, store)
    ensures PreviewOf(plan).Success?
    ensures Apply(store, PreviewOf(plan).value.changeSet.operations).Success? <==>
      LayoutFits(desired, store, Removals(plan, desired, store))
  {
    PreviewLands(plan, desired, store);
    SortedSpells(plan, desired, store);
    GroundedIsWellKeyed(plan, desired, store);
    SpelledAgreesIff(desired, store, Removals(plan, desired, store), SortedOperations(plan, desired));
  }
}
