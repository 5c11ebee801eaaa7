/** The Collector's diff (connector/preview.go) and what a repository does with it
(internal/repofile/apply.go).

`Preview` walks Go maps, whose iteration order is arbitrary; the model picks keys
arbitrarily too, and its contract pins the result to `PreviewOf`, a function of the
plan alone.
*/
module Reconcile {
  import opened Kernel
  import opened Knowledge
  import Text

  datatype Mode = Patch | Reconcile | OtherMode(name: string)

  datatype Unit = Unit(address: Address, value: Json, schemaRef: string, valueSource: Option<ValueSource>, pathHint: string)

  datatype Observed = Observed(address: Address, digest: Digest, declarationDigest: Digest)

  datatype Scope = Scope(aspects: seq<string>, allowEntity: bool, objectPrefix: string)
  {
    predicate Valid()
    {
      && (aspects != [] || allowEntity)
      && forall name :: name in aspects ==> TrimSpace(name) != ""
    }

    predicate Contains(a: Address)
    {
      && objectPrefix <= a.objectId
      && if a.aspectName == "" then allowEntity else a.aspectName in aspects
    }
  }

  datatype Plan = Plan(
    connectorId: string, mode: Mode, scope: Scope, targetRepository: string, targetRef: string,
    baseCommit: string, desired: seq<Unit>, observed: seq<Observed>, sourceRefs: seq<string>,
    producedAt: string, actorRef: string, message: string)

  datatype Precondition = IfAbsent | IfDigestEquals(digest: Digest)

  datatype Operation =
    | Put(address: Address, value: Json, pathHint: string, schemaRef: string,
          valueSource: Option<ValueSource>, precondition: Precondition)
    | Remove(address: Address, reason: string)

  datatype Provenance = Provenance(actorRef: string, sourceRefs: seq<string>, producedAt: string)

  datatype ChangeSet = ChangeSet(
    targetRepository: string, targetRef: string, baseCommit: string, expectedTargetCommit: string,
    operations: seq<Operation>, message: string, provenance: Provenance)

  datatype Summary = Summary(added: nat, updated: nat, removed: nat, kept: nat, ignored: nat)

  datatype PreviewResult = PreviewResult(changeSet: ChangeSet, empty: bool)

  function OpKey(op: Operation): string
  {
    AddressKey(op.address)
  }

  const DEFAULT_REF := "refs/heads/main"

  // ---------------------------------------------------------------- specification

  /** The Desired list as a map; the first invalid unit decides the error. */
  function DesiredMap(scope: Scope, units: seq<Unit>, out: map<string, Unit>): Result<map<string, Unit>>
    decreases |units|
  {
    if units == [] then Success(out)
    else
      var unit := units[0];
      if !Writable(unit.address) || !ValidValueSource(unit.valueSource) then Failure(UsageInvalid)
      else if !scope.Contains(unit.address) then Failure(ScopeDenied)
      else if AddressKey(unit.address) in out then Failure(UsageInvalid)
      else DesiredMap(scope, units[1..], out[AddressKey(unit.address) := unit])
  }

  /** The observations inside the scope; a later one replaces an earlier one. */
  function ObservedMap(scope: Scope, items: seq<Observed>): map<string, Observed>
  {
    if items == [] then map[]
    else
      var rest, last := items[..|items| - 1], items[|items| - 1];
      if scope.Contains(last.address) then ObservedMap(scope, rest)[AddressKey(last.address) := last]
      else ObservedMap(scope, rest)
  }

  function ObservedAddrs(items: seq<Observed>, digests: map<string, Observed>): map<string, Address>
  {
    if items == [] then map[]
    else
      var rest, last := items[..|items| - 1], items[|items| - 1];
      if AddressKey(last.address) in digests then ObservedAddrs(rest, digests)[AddressKey(last.address) := last.address]
      else ObservedAddrs(rest, digests)
  }

  predicate DeclarationUnchanged(unit: Unit, existing: Observed)
  {
    if existing.declarationDigest == NoDigest
    then unit.schemaRef == "" && Normalized(unit.valueSource).None?
    else existing.declarationDigest == DigestOfDeclaration(unit.schemaRef, unit.valueSource)
  }

  function PutOp(unit: Unit, pre: Precondition): Operation
  {
    Put(unit.address, unit.value, unit.pathHint, unit.schemaRef, unit.valueSource, pre)
  }

  /** What one Desired unit asks for: nothing when it was observed unchanged. */
  function DesiredOp(unit: Unit, key: string, observed: map<string, Observed>): Option<Operation>
  {
    if key !in observed then Some(PutOp(unit, IfAbsent))
    else if observed[key].digest == DigestOf(unit.value) && DeclarationUnchanged(unit, observed[key]) then None
    else Some(PutOp(unit, IfDigestEquals(observed[key].digest)))
  }

  function RemoveOp(address: Address): Operation
  {
    Remove(address, "absent-from-source")
  }

  ghost function PutSet(desired: map<string, Unit>, observed: map<string, Observed>): set<Operation>
  {
    set key | key in desired && DesiredOp(desired[key], key, observed).Some? :: DesiredOp(desired[key], key, observed).value
  }

  ghost function RemoveSet(desired: map<string, Unit>, addrs: map<string, Address>): set<Operation>
  {
    set key | key in addrs && key !in desired :: RemoveOp(addrs[key])
  }

  ghost function OperationSet(plan: Plan, desired: map<string, Unit>): set<Operation>
  {
    var observed := ObservedMap(plan.scope, plan.observed);
    PutSet(desired, observed) +
    if plan.mode.Reconcile? then RemoveSet(desired, ObservedAddrs(plan.observed, observed)) else {}
  }

  ghost function Listing(s: set<Operation>): (r: seq<Operation>)
    ensures forall op :: op in r <==> op in s
    ensures |r| == |s|
  {
    if s == {} then [] else var op :| op in s; [op] + Listing(s - {op})
  }

  ghost function SortedOperations(plan: Plan, desired: map<string, Unit>): seq<Operation>
  {
    Text.SortBy(OpKey, Listing(OperationSet(plan, desired)))
  }

  function ChangeSetOf(plan: Plan, operations: seq<Operation>): ChangeSet
  {
    ChangeSet(
      plan.targetRepository,
      if plan.targetRef == "" then DEFAULT_REF else plan.targetRef,
      plan.baseCommit, plan.baseCommit, operations,
      if plan.message == "" then "connector " + plan.connectorId + " " + ModeName(plan.mode) else plan.message,
      Provenance(if plan.actorRef == "" then plan.connectorId else plan.actorRef, plan.sourceRefs, plan.producedAt))
  }

  function ModeName(mode: Mode): string
  {
    match mode
    case Patch => "patch"
    case Reconcile => "reconcile"
    case OtherMode(name) => name
  }

  function PlanError(plan: Plan): Option<ErrorCode>
  {
    if TrimSpace(plan.connectorId) == "" then Some(UsageInvalid)
    else if plan.mode.OtherMode? then Some(UsageInvalid)
    else if !plan.scope.Valid() then Some(UsageInvalid)
    else if plan.targetRepository == "" then Some(WriteTargetRequired)
    else if plan.sourceRefs == [] then Some(UsageInvalid)
    else None
  }

  ghost function PreviewOf(plan: Plan): Result<PreviewResult>
  {
    if PlanError(plan).Some? then Failure(PlanError(plan).value)
    else
      match DesiredMap(plan.scope, plan.desired, map[])
      case Failure(error) => Failure(error)
      case Success(desired) =>
        var operations := SortedOperations(plan, desired);
        Success(PreviewResult(ChangeSetOf(plan, operations), operations == []))
  }

  // ------------------------------------------------------------------- facts about the maps

  /** Every entry of the Desired map is a listed, in-scope, writable unit filed under its key. */
  lemma {:induction false} DesiredMapEntries(scope: Scope, units: seq<Unit>, out: map<string, Unit>)
    requires forall key :: key in out ==>
      AddressKey(out[key].address) == key && scope.Contains(out[key].address) && Writable(out[key].address)
    ensures var r := DesiredMap(scope, units, out);
      r.Success? ==>
        && (forall key :: key in out ==> key in r.value && r.value[key] == out[key])
        && (forall unit :: unit in units ==> AddressKey(unit.address) in r.value && r.value[AddressKey(unit.address)] == unit)
        && (forall key :: key in r.value ==> key in out || r.value[key] in units)
        && (forall key :: key in r.value ==>
              AddressKey(r.value[key].address) == key && scope.Contains(r.value[key].address) && Writable(r.value[key].address))
    decreases |units|
  {
    if units == [] || DesiredMap(scope, units, out).Failure? {
    } else {
      var unit := units[0];
      var next := out[AddressKey(unit.address) := unit];
      DesiredMapEntries(scope, units[1..], next);
      assert units == [unit] + units[1..];
      assert next[AddressKey(unit.address)] == unit;
    }
  }

  /** What is wrong with unit i of the Desired list, given the units before it. */
  ghost function Fault(scope: Scope, units: seq<Unit>, i: nat): Option<ErrorCode>
    requires i < |units|
  {
    var unit := units[i];
    if !Writable(unit.address) || !ValidValueSource(unit.valueSource) then Some(UsageInvalid)
    else if !scope.Contains(unit.address) then Some(ScopeDenied)
    else if exists j :: 0 <= j < i && AddressKey(units[j].address) == AddressKey(unit.address) then Some(UsageInvalid)
    else None
  }

  /** The Desired list fails with the fault of its first faulty unit, and only then. */
  ghost predicate FirstFault(scope: Scope, units: seq<Unit>, error: ErrorCode)
  {
    exists i :: 0 <= i < |units| && Fault(scope, units, i) == Some(error) && forall j :: 0 <= j < i ==> Fault(scope, units, j).None?
  }

  lemma {:induction false} DesiredMapFrom(scope: Scope, units: seq<Unit>, i: nat, out: map<string, Unit>)
    requires i <= |units| && forall j :: 0 <= j < i ==> Fault(scope, units, j).None?
    requires forall key :: key in out <==> exists j :: 0 <= j < i && AddressKey(units[j].address) == key
    ensures DesiredMap(scope, units[i..], out).Success? <==> forall j :: 0 <= j < |units| ==> Fault(scope, units, j).None?
    ensures DesiredMap(scope, units[i..], out).Failure? ==> FirstFault(scope, units, DesiredMap(scope, units[i..], out).error)
    decreases |units| - i
  {
    if i < |units| {
      assert units[i..][1..] == units[i + 1..];
      if Fault(scope, units, i).None? {
        DesiredMapFrom(scope, units, i + 1, out[AddressKey(units[i].address) := units[i]]);
      }
    }
  }

  lemma DesiredMapFailsIff(scope: Scope, units: seq<Unit>)
    ensures DesiredMap(scope, units, map[]).Success? <==> forall i :: 0 <= i < |units| ==> Fault(scope, units, i).None?
    ensures DesiredMap(scope, units, map[]).Failure? ==> FirstFault(scope, units, DesiredMap(scope, units, map[]).error)
  {
    assert units[0..] == units;
    DesiredMapFrom(scope, units, 0, map[]);
  }

  ghost predicate Filed(scope: Scope, items: seq<Observed>, key: string, item: Observed)
  {
    item in items && AddressKey(item.address) == key && scope.Contains(item.address)
  }

  lemma {:induction false} ObservedMapEntries(scope: Scope, items: seq<Observed>)
    ensures forall key :: key in ObservedMap(scope, items) ==> Filed(scope, items, key, ObservedMap(scope, items)[key])
    ensures forall item :: item in items && scope.Contains(item.address) ==> AddressKey(item.address) in ObservedMap(scope, items)
  {
    if items == [] {
    } else {
      var rest, last := items[..|items| - 1], items[|items| - 1];
      ObservedMapEntries(scope, rest);
      assert items == rest + [last];
      var m := ObservedMap(scope, items);
      forall key | key in m
        ensures Filed(scope, items, key, m[key])
      {
        var before := ObservedMap(scope, rest);
        assert key in before ==> Filed(scope, rest, key, before[key]);
      }
    }
  }

  /** The observed map holds, per key, the last observation in scope. */
  lemma {:induction false} ObservedMapIsLast(scope: Scope, items: seq<Observed>, key: string) returns (i: nat)
    requires key in ObservedMap(scope, items)
    ensures i < |items| && ObservedMap(scope, items)[key] == items[i]
    ensures scope.Contains(items[i].address) && AddressKey(items[i].address) == key
    ensures forall j :: i < j < |items| && scope.Contains(items[j].address) ==> AddressKey(items[j].address) != key
  {
    var rest, last := items[..|items| - 1], items[|items| - 1];
    if scope.Contains(last.address) && AddressKey(last.address) == key {
      i := |items| - 1;
    } else {
      i := ObservedMapIsLast(scope, rest, key);
    }
  }

  lemma {:induction false} ObservedAddrsEntries(items: seq<Observed>, digests: map<string, Observed>)
    requires forall key :: key in digests ==> digests[key] in items && AddressKey(digests[key].address) == key
    ensures var m := ObservedAddrs(items, digests);
      && m.Keys == digests.Keys
      && (forall key :: key in m ==> AddressKey(m[key]) == key)
      && (forall key :: key in m ==> exists item :: item in items && item.address == m[key])
  {
    ObservedAddrsPrefix(items, digests);
  }

  lemma {:induction false} ObservedAddrsPrefix(items: seq<Observed>, digests: map<string, Observed>)
    ensures var m := ObservedAddrs(items, digests);
      && m.Keys <= digests.Keys
      && (forall item :: item in items && AddressKey(item.address) in digests ==> AddressKey(item.address) in m)
      && (forall key :: key in m ==> AddressKey(m[key]) == key)
      && (forall key :: key in m ==> exists item :: item in items && item.address == m[key])
  {
    if items == [] {
    } else {
      ObservedAddrsPrefix(items[..|items| - 1], digests);
      assert items == items[..|items| - 1] + [items[|items| - 1]];
      assert items[|items| - 1] in items;
    }
  }

  /** Exactly one operation per key: a key is put or removed, never both. */
  lemma OperationsHaveDistinctKeys(plan: Plan, desired: map<string, Unit>, a: Operation, b: Operation)
    requires DesiredMap(plan.scope, plan.desired, map[]) == Success(desired)
    requires a in OperationSet(plan, desired) && b in OperationSet(plan, desired)
    requires OpKey(a) == OpKey(b)
    ensures a == b
  {
    var observed := ObservedMap(plan.scope, plan.observed);
    DesiredKeys(plan, desired);
    ObservedKeys(plan);
    KeyDecides(desired, observed, ObservedAddrs(plan.observed, observed), a, b);
  }

  lemma DesiredKeys(plan: Plan, desired: map<string, Unit>)
    requires DesiredMap(plan.scope, plan.desired, map[]) == Success(desired)
    ensures forall key :: key in desired ==> AddressKey(desired[key].address) == key
  {
    DesiredMapEntries(plan.scope, plan.desired, map[]);
  }

  lemma ObservedKeys(plan: Plan)
    ensures forall key :: key in ObservedAddrs(plan.observed, ObservedMap(plan.scope, plan.observed)) ==>
      AddressKey(ObservedAddrs(plan.observed, ObservedMap(plan.scope, plan.observed))[key]) == key
  {
    ObservedAddrsPrefix(plan.observed, ObservedMap(plan.scope, plan.observed));
  }

  lemma KeyDecides(desired: map<string, Unit>, observed: map<string, Observed>, addrs: map<string, Address>, a: Operation, b: Operation)
    requires forall key :: key in desired ==> AddressKey(desired[key].address) == key
    requires forall key :: key in addrs ==> AddressKey(addrs[key]) == key
    requires a in PutSet(desired, observed) + RemoveSet(desired, addrs) && b in PutSet(desired, observed) + RemoveSet(desired, addrs)
    requires OpKey(a) == OpKey(b)
    ensures a == b
  {
  }

  lemma DistinctListing(plan: Plan, desired: map<string, Unit>, ops: seq<Operation>)
    requires DesiredMap(plan.scope, plan.desired, map[]) == Success(desired)
    requires forall op :: op in ops ==> op in OperationSet(plan, desired)
    requires forall i, j :: 0 <= i < j < |ops| ==> ops[i] != ops[j]
    ensures Text.DistinctKeys(OpKey, ops)
  {
    forall i, j | 0 <= i < j < |ops| ensures OpKey(ops[i]) != OpKey(ops[j]) {
      if OpKey(ops[i]) == OpKey(ops[j]) {
        OperationsHaveDistinctKeys(plan, desired, ops[i], ops[j]);
      }
    }
  }

  lemma {:induction false} ListingDistinct(s: set<Operation>, i: nat, j: nat)
    requires i < j < |s|
    ensures Listing(s)[i] != Listing(s)[j]
  {
    var ops := Listing(s);
    var op := ops[0];
    assert ops == [op] + Listing(s - {op});
    if i == 0 {
      assert Listing(s - {op})[j - 1] in Listing(s - {op});
    } else {
      ListingDistinct(s - {op}, i - 1, j - 1);
    }
  }

  /** The operation list of a preview: strictly ascending keys, exactly the operation set. */
  lemma SortedOperationsShape(plan: Plan, desired: map<string, Unit>)
    requires DesiredMap(plan.scope, plan.desired, map[]) == Success(desired)
    ensures Text.Ascending(OpKey, SortedOperations(plan, desired))
    ensures forall op :: op in SortedOperations(plan, desired) <==> op in OperationSet(plan, desired)
  {
    var s := OperationSet(plan, desired);
    var ops := Listing(s);
    forall i, j | 0 <= i < j < |ops| ensures ops[i] != ops[j] {
      ListingDistinct(s, i, j);
    }
    DistinctListing(plan, desired, ops);
    Text.SortAscending(OpKey, ops);
  }

  // ------------------------------------------------------------------------ the code

  method BuildDesired(plan: Plan) returns (r: Result<map<string, Unit>>)
    ensures r == DesiredMap(plan.scope, plan.desired, map[])
  {
    var out: map<string, Unit> := map[];
    for i := 0 to |plan.desired|
      invariant DesiredMap(plan.scope, plan.desired[i..], out) == DesiredMap(plan.scope, plan.desired, map[])
    {
      var unit := plan.desired[i];
      assert plan.desired[i..][1..] == plan.desired[i + 1..];
      if !Writable(unit.address) || !ValidValueSource(unit.valueSource) {
        return Failure(UsageInvalid);
      }
      if !plan.scope.Contains(unit.address) {
        return Failure(ScopeDenied);
      }
      var key := AddressKey(unit.address);
      if key in out {
        return Failure(UsageInvalid);
      }
      out := out[key := unit];
    }
    return Success(out);
  }

  method BuildObserved(plan: Plan) returns (out: map<string, Observed>, ignored: nat)
    ensures out == ObservedMap(plan.scope, plan.observed)
    ensures ignored == |set i | 0 <= i < |plan.observed| && !plan.scope.Contains(plan.observed[i].address)|
  {
    out := map[];
    ignored := 0;
    for i := 0 to |plan.observed|
      invariant out == ObservedMap(plan.scope, plan.observed[..i])
      invariant ignored == |set k | 0 <= k < i && !plan.scope.Contains(plan.observed[k].address)|
    {
      var item := plan.observed[i];
      assert plan.observed[..i + 1][..i] == plan.observed[..i];
      ghost var before := set k | 0 <= k < i && !plan.scope.Contains(plan.observed[k].address);
      ghost var after := set k | 0 <= k < i + 1 && !plan.scope.Contains(plan.observed[k].address);
      if !plan.scope.Contains(item.address) {
        assert after == before + {i};
        ignored := ignored + 1;
      } else {
        assert after == before;
        out := out[AddressKey(item.address) := item];
      }
    }
    assert plan.observed[..|plan.observed|] == plan.observed;
  }

  method BuildObservedAddrs(plan: Plan, digests: map<string, Observed>) returns (out: map<string, Address>)
    ensures out == ObservedAddrs(plan.observed, digests)
  {
    out := map[];
    for i := 0 to |plan.observed|
      invariant out == ObservedAddrs(plan.observed[..i], digests)
    {
      var item := plan.observed[i];
      assert plan.observed[..i + 1][..i] == plan.observed[..i];
      var key := AddressKey(item.address);
      if key in digests {
        out := out[key := item.address];
      }
    }
    assert plan.observed[..|plan.observed|] == plan.observed;
  }

  /** The operations are exactly the values of `DesiredOp` at `keys`, one per key. */
  ghost predicate PutsFor(operations: seq<Operation>, keys: set<string>, desired: map<string, Unit>, observed: map<string, Observed>)
    requires keys <= desired.Keys
  {
    && (forall op :: op in operations ==> OpKey(op) in keys && DesiredOp(desired[OpKey(op)], OpKey(op), observed) == Some(op))
    && (forall key :: key in keys && DesiredOp(desired[key], key, observed).Some? ==> DesiredOp(desired[key], key, observed).value in operations)
    && Text.DistinctKeys(OpKey, operations)
  }

  function AsSeq<T>(o: Option<T>): seq<T>
  {
    if o.None? then [] else [o.value]
  }

  lemma CountNextKey(done: set<string>, key: string, seen: set<string>)
    requires key !in done
    ensures |(done + {key}) - seen| == |done - seen| + if key in seen then 0 else 1
  {
    if key in seen {
      assert (done + {key}) - seen == done - seen;
    } else {
      assert (done + {key}) - seen == (done - seen) + {key};
    }
  }

  lemma MoveKey(todo: set<string>, done: set<string>, key: string)
    requires key in todo && todo !! done
    ensures (todo - {key}) + (done + {key}) == todo + done && todo - {key} !! done + {key}
  {
  }

  lemma PutsForNextKey(operations: seq<Operation>, keys: set<string>, key: string, desired: map<string, Unit>, observed: map<string, Observed>)
    requires keys <= desired.Keys && key in desired.Keys - keys
    requires AddressKey(desired[key].address) == key
    requires PutsFor(operations, keys, desired, observed)
    ensures PutsFor(operations + AsSeq(DesiredOp(desired[key], key, observed)), keys + {key}, desired, observed)
  {
    var next := DesiredOp(desired[key], key, observed);
    var all := operations + AsSeq(next);
    if next.Some? {
      assert OpKey(next.value) == key;
      assert forall op :: op in all <==> op in operations || op == next.value;
      assert forall i :: 0 <= i < |operations| ==> operations[i] in operations;
    } else {
      assert all == operations;
    }
  }

  /** The operations of some keys, and how many of them are new, changed and unchanged. */
  ghost predicate Counted(operations: seq<Operation>, keys: set<string>, desired: map<string, Unit>, observed: map<string, Observed>,
    added: nat, updated: nat, kept: nat)
    requires keys <= desired.Keys
  {
    && PutsFor(operations, keys, desired, observed)
    && added + updated == |operations| && added + updated + kept == |keys|
    && added == |keys - observed.Keys|
  }

  lemma CountedNext(operations: seq<Operation>, keys: set<string>, key: string, desired: map<string, Unit>, observed: map<string, Observed>,
    added: nat, updated: nat, kept: nat)
    requires keys <= desired.Keys && key in desired.Keys - keys
    requires AddressKey(desired[key].address) == key
    requires Counted(operations, keys, desired, observed, added, updated, kept)
    ensures var next := DesiredOp(desired[key], key, observed);
      var all := operations + AsSeq(next);
      && (key !in observed ==> Counted(all, keys + {key}, desired, observed, added + 1, updated, kept))
      && (key in observed && next.None? ==> Counted(all, keys + {key}, desired, observed, added, updated, kept + 1))
      && (key in observed && next.Some? ==> Counted(all, keys + {key}, desired, observed, added, updated + 1, kept))
  {
    CountNextKey(keys, key, observed.Keys);
    assert |keys + {key}| == |keys| + 1;
    PutsForNextKey(operations, keys, key, desired, observed);
  }

  /** One operation per remaining key, appended in whatever order the map yields. */
  method CollectPuts(desired: map<string, Unit>, observed: map<string, Observed>)
    returns (operations: seq<Operation>, added: nat, updated: nat, kept: nat)
    requires forall key :: key in desired ==> AddressKey(desired[key].address) == key
    ensures PutsFor(operations, desired.Keys, desired, observed)
    ensures added + updated == |operations| && added + updated + kept == |desired|
    ensures added == |desired.Keys - observed.Keys|
  {
    operations := [];
    added, updated, kept := 0, 0, 0;
    var todo := desired.Keys;
    ghost var done := {};
    while todo != {}
      invariant todo !! done && todo + done == desired.Keys
      invariant Counted(operations, done, desired, observed, added, updated, kept)
      decreases todo
    {
      var key :| key in todo;
      MoveKey(todo, done, key);
      CountedNext(operations, done, key, desired, observed, added, updated, kept);
      var next := DesiredOp(desired[key], key, observed);
      operations := operations + AsSeq(next);
      if key !in observed {
        added := added + 1;
      } else if next.None? {
        kept := kept + 1;
      } else {
        updated := updated + 1;
      }
      todo, done := todo - {key}, done + {key};
    }
    assert done == desired.Keys;
  }

  ghost predicate RemovalsFor(operations: seq<Operation>, keys: set<string>, desired: map<string, Unit>, addrs: map<string, Address>)
    requires keys <= addrs.Keys
  {
    && (forall op :: op in operations ==> OpKey(op) in keys && OpKey(op) !in desired && op == RemoveOp(addrs[OpKey(op)]))
    && (forall key :: key in keys && key !in desired ==> RemoveOp(addrs[key]) in operations)
    && Text.DistinctKeys(OpKey, operations)
  }

  method CollectRemovals(desired: map<string, Unit>, addrs: map<string, Address>) returns (operations: seq<Operation>)
    requires forall key :: key in addrs ==> AddressKey(addrs[key]) == key
    ensures RemovalsFor(operations, addrs.Keys, desired, addrs)
  {
    operations := [];
    var todo := addrs.Keys;
    ghost var done := {};
    while todo != {}
      invariant todo !! done && todo + done == addrs.Keys
      invariant RemovalsFor(operations, done, desired, addrs)
      decreases todo
    {
      var key :| key in todo;
      if key !in desired {
        operations := operations + [RemoveOp(addrs[key])];
      }
      todo, done := todo - {key}, done + {key};
    }
    assert done == addrs.Keys;
  }

  lemma CollectedIsSet(desired: map<string, Unit>, observed: map<string, Observed>, puts: seq<Operation>)
    requires forall key :: key in desired ==> AddressKey(desired[key].address) == key
    requires PutsFor(puts, desired.Keys, desired, observed)
    ensures forall op :: op in puts <==> op in PutSet(desired, observed)
  {
    forall op ensures op in puts <==> op in PutSet(desired, observed) {
      if op in puts {
        assert OpKey(op) in desired;
      }
    }
  }

  /** Lists collected from the maps, in any order, sort to the specified list. */
  lemma CollectedIsSpecified(plan: Plan, desired: map<string, Unit>, puts: seq<Operation>, removals: seq<Operation>)
    requires DesiredMap(plan.scope, plan.desired, map[]) == Success(desired)
    requires PutsFor(puts, desired.Keys, desired, ObservedMap(plan.scope, plan.observed))
    requires var addrs := ObservedAddrs(plan.observed, ObservedMap(plan.scope, plan.observed));
      if plan.mode.Reconcile? then RemovalsFor(removals, addrs.Keys, desired, addrs) else removals == []
    ensures Text.SortBy(OpKey, puts + removals) == SortedOperations(plan, desired)
  {
    var observed := ObservedMap(plan.scope, plan.observed);
    var all := puts + removals;
    DesiredMapEntries(plan.scope, plan.desired, map[]);
    ObservedMapEntries(plan.scope, plan.observed);
    ObservedAddrsEntries(plan.observed, observed);
    forall i, j | 0 <= i < |puts| && 0 <= j < |removals| ensures OpKey(puts[i]) != OpKey(removals[j]) {
      assert puts[i] in puts && removals[j] in removals;
    }
    Text.DistinctConcat(OpKey, puts, removals);
    CollectedIsSet(desired, observed, puts);
    forall op ensures op in all <==> op in OperationSet(plan, desired) {
      assert op in all <==> op in puts || op in removals;
    }
    SortedOperationsShape(plan, desired);
    Text.SortAscending(OpKey, all);
    Text.AscendingUnique(OpKey, Text.SortBy(OpKey, all), SortedOperations(plan, desired));
  }

  /** `Preview`: the result is a function of the plan, whatever order the maps are walked in. */
  method Preview(plan: Plan) returns (r: Result<PreviewResult>, summary: Summary)
    ensures r == PreviewOf(plan)
    ensures r.Success? ==> summary.added + summary.updated + summary.removed == |r.value.changeSet.operations|
    ensures r.Success? && plan.mode.Patch? ==> summary.removed == 0
  {
    summary := Summary(0, 0, 0, 0, 0);
    var invalid := PlanError(plan);
    if invalid.Some? {
      return Failure(invalid.value), summary;
    }
    var built := BuildDesired(plan);
    if built.Failure? {
      return Failure(built.error), summary;
    }
    var desired := built.value;
    DesiredMapEntries(plan.scope, plan.desired, map[]);
    ObservedMapEntries(plan.scope, plan.observed);
    var observed, ignored := BuildObserved(plan);
    var operations, added, updated, kept := CollectPuts(desired, observed);
    var removals: seq<Operation> := [];
    if plan.mode.Reconcile? {
      var addrs := BuildObservedAddrs(plan, observed);
      ObservedAddrsEntries(plan.observed, observed);
      removals := CollectRemovals(desired, addrs);
    }
    CollectedIsSpecified(plan, desired, operations, removals);
    operations := Text.SortBy(OpKey, operations + removals);
    summary := Summary(added, updated, |removals|, kept, ignored);
    return Success(PreviewResult(ChangeSetOf(plan, operations), operations == [])), summary;
  }
}
