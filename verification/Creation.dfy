/** One call of `CreateManagedRepository` (home/managed.go), from reservation to receipt. */
module Creation {
  import opened Kernel
  import opened ManagedLedger
  import opened Provisioning

  /** The answers of everything outside the ledger during one call. */
  datatype Outside = Outside(
    archived: bool, poolLost: Option<ErrorCode>,
    ensureOwner: Option<Result<string>>, create: Result<string>, head: Result<string>,
    disk: nat -> Option<ErrorCode>, open: Option<ErrorCode>, hasHead: bool, install: Option<ErrorCode>,
    callback: bool, authority: Option<ErrorCode>, archivedLater: bool, grant: Option<ErrorCode>)

  datatype Outcome = Outcome(head: string, replayed: bool)

  /** A driver that creates names what it created, and what it created has a head. */
  predicate Sound(o: Outside)
  {
    && (o.create.Success? ==> o.create.value != "")
    && (o.head.Success? ==> o.head.value != "")
  }

  /** Nothing outside fails, and nothing is archived or missing. */
  ghost predicate Calm(o: Outside)
  {
    && !o.archived && o.poolLost.None? && (o.ensureOwner.Some? ==> o.ensureOwner.value.Success?)
    && o.create.Success? && o.head.Success? && (forall n :: o.disk(n).None?) && o.open.None? && o.hasHead
    && o.install.None? && o.callback && o.authority.None? && !o.archivedLater && o.grant.None?
  }

  /** The driver is idempotent: what the record already names it names again. */
  predicate Repeats(o: Outside, r: Record)
  {
    RepeatsAccount(o, r) && RepeatsSource(o, r)
  }

  predicate RepeatsAccount(o: Outside, r: Record)
  {
    r.accountBackend != "" && o.ensureOwner.Some? && o.ensureOwner.value.Success? ==> o.ensureOwner.value.value == r.accountBackend
  }

  predicate RepeatsSource(o: Outside, r: Record)
  {
    r.backend != "" && o.create.Success? && o.head.Success? ==> o.create.value == r.backend && o.head.value == r.head
  }

  /** The command was reserved before, under the same request, and the driver repeats itself. */
  predicate Retries(l: Ledger, req: Request, o: Outside)
  {
    && KeyOf(req) in l.commands && l.commands[KeyOf(req)] in l.records
    && l.records[l.commands[KeyOf(req)]].digest == req && Repeats(o, l.records[l.commands[KeyOf(req)]])
  }

  /** The command is new and can be reserved, and the driver knows the owner by the account that the
  owner's other records name. */
  ghost predicate Starts(d: Drivers, l: Ledger, req: Request, offer: Offer, o: Outside)
  {
    && KeyOf(req) !in l.commands && Reservable(d, l, req, offer)
    && (o.ensureOwner.Some? && o.ensureOwner.value.Success? ==>
          var own := OwnRecord(req, offer, offer.pool.value.0, offer.pool.value.1, offer.binding.value);
          forall id :: id in l.records && SameHolder(d, l.records[id], own) ==> l.records[id].accountBackend in {"", o.ensureOwner.value.value})
  }

  predicate WasReady(l: Ledger, req: Request)
  {
    KeyOf(req) in l.commands && IsReady(l, l.commands[KeyOf(req)])
  }

  /** The record is still to be built: nothing is reserved for the command, or nothing more than that. */
  predicate ToBuild(l: Ledger, req: Request)
  {
    KeyOf(req) !in l.commands || l.commands[KeyOf(req)] !in l.records ||
    l.records[l.commands[KeyOf(req)]].phase == ManagedLedger.Phase.Reserved
  }

  /** The record names the account, the source and the head the driver answered with. */
  predicate BuiltBy(o: Outside, r: Record)
  {
    && !o.archived && o.poolLost.None? && o.create == Success(r.backend) && o.head == Success(r.head)
    && (r.account != "" && o.ensureOwner.Some? ==> o.ensureOwner.value == Success(r.accountBackend))
  }

  /** The grant was called for, and succeeded. */
  predicate GrantSucceeded(o: Outside)
  {
    o.callback && o.authority.None? && !o.archivedLater && o.grant.None?
  }

  /** What has to be there of a source built before. */
  predicate Found(o: Outside)
  {
    o.open.None? && o.hasHead
  }

  /** The record as it stands once the source is installed: built by this call, or found as it was. */
  predicate Brought(l: Ledger, req: Request, o: Outside, r: Record)
  {
    && o.install.None? && (r.phase == Ready <==> WasReady(l, req))
    && (if ToBuild(l, req) then BuiltBy(o, r) && r.phase == Owned
        else Found(o) && r == l.records[l.commands[KeyOf(req)]] && r.phase != ManagedLedger.Phase.Reserved)
  }

  /** The repository is READY under its head, REPLAYED if it was so before; its source was installed,
  built now or found, and unless it is a replay the grant was called for and succeeded. */
  predicate Created(before: Ledger, after: Ledger, req: Request, o: Outside, outcome: Outcome)
  {
    && IsReady(after, req.repository)
    && outcome == Outcome(after.records[req.repository].head, WasReady(before, req))
    && o.install.None? && (outcome.replayed || GrantSucceeded(o))
    && (if ToBuild(before, req) then BuiltBy(o, after.records[req.repository]) else Found(o))
  }

  class Home {
    const ledger: Store
    var grants: seq<Grant>

    constructor (ledger: Store)
      ensures this.ledger == ledger && grants == []
    {
      this.ledger := ledger;
      grants := [];
    }

    /** A save by the one operation that holds the current record. */
    method SaveStep(d: Drivers, ghost was: Record, r: Record, disk: Option<ErrorCode>) returns (failure: Option<ErrorCode>)
      requires LedgerInv(d, ledger.Contents()) && Current(ledger.Contents(), Op(was, Resumed))
      requires Core(r) == Core(was) && Rank(was.phase) <= Rank(r.phase) && (r.phase != Reserved ==> r.backend != "" && r.head != "")
      requires r.request == was.request
      modifies ledger
      ensures LedgerInv(d, ledger.Contents()) && LedgerOnward(old(ledger.Contents()), ledger.Contents())
      ensures failure.None? ==> Current(ledger.Contents(), Op(r, Resumed))
      ensures failure.None? <==> disk.None? && SaveAllowed(was, r)
    {
      ghost var l := ledger.Contents();
      assert Acceptable(d, was);
      if disk.Some? {
        LedgerStays(l);
        return disk;
      }
      failure := ledger.SaveRecord(d, r);
      if failure.None? {
        SaveByCarrier(d, l, r);
      } else {
        LedgerStays(l);
      }
    }

    /** The account of the owner, where the driver keeps accounts, saved before anything else. */
    method EnsureAccount(d: Drivers, record: Record, o: Outside) returns (r: Result<Record>)
      requires LedgerInv(d, ledger.Contents()) && Current(ledger.Contents(), Op(record, Resumed)) && record.phase == ManagedLedger.Phase.Reserved
      modifies ledger
      ensures LedgerInv(d, ledger.Contents()) && LedgerOnward(old(ledger.Contents()), ledger.Contents())
      ensures r.Success? ==> r.value == record.(accountBackend := r.value.accountBackend) && Current(ledger.Contents(), Op(r.value, Resumed))
      ensures r.Success? && record.account != "" && o.ensureOwner.Some? ==> o.ensureOwner.value == Success(r.value.accountBackend)
      ensures r.Success? && (record.account == "" || o.ensureOwner.None?) ==> r.value == record
      ensures record.account != "" && o.ensureOwner.Some? && o.ensureOwner.value.Failure? ==> r == Failure(o.ensureOwner.value.error)
      ensures Calm(o) && RepeatsAccount(o, record) ==> r.Success?
    {
      LedgerStays(ledger.Contents());
      if record.account == "" || o.ensureOwner.None? {
        return Success(record);
      }
      if o.ensureOwner.value.Failure? {
        return Failure(o.ensureOwner.value.error);
      }
      var now := record.(accountBackend := o.ensureOwner.value.value);
      var failure := SaveStep(d, record, now, o.disk(0));
      if failure.Some? {
        return Failure(failure.value);
      }
      return Success(now);
    }

    /** The source and its first head, saved together with the phase. */
    method CreateSource(d: Drivers, record: Record, o: Outside) returns (r: Result<Record>)
      requires LedgerInv(d, ledger.Contents()) && Current(ledger.Contents(), Op(record, Resumed)) && record.phase == ManagedLedger.Phase.Reserved && Sound(o)
      modifies ledger
      ensures LedgerInv(d, ledger.Contents()) && LedgerOnward(old(ledger.Contents()), ledger.Contents())
      ensures r.Success? ==> r.value == record.(backend := r.value.backend, head := r.value.head, phase := Owned)
      ensures r.Success? ==> Current(ledger.Contents(), Op(r.value, Resumed))
      ensures r.Success? ==> o.poolLost.None? && o.create == Success(r.value.backend) && o.head == Success(r.value.head)
      ensures o.poolLost.Some? ==> r == Failure(o.poolLost.value)
      ensures o.poolLost.None? && o.create.Failure? ==> r == Failure(o.create.error)
      ensures o.poolLost.None? && o.create.Success? && o.head.Failure? ==> r == Failure(o.head.error)
      ensures Calm(o) && RepeatsSource(o, record) ==> r.Success?
    {
      LedgerStays(ledger.Contents());
      if o.poolLost.Some? {
        return Failure(o.poolLost.value);
      }
      if o.create.Failure? {
        return Failure(o.create.error);
      }
      if o.head.Failure? {
        return Failure(o.head.error);
      }
      var now := record.(backend := o.create.value, head := o.head.value, phase := Owned);
      var failure := SaveStep(d, record, now, o.disk(1));
      if failure.Some? {
        return Failure(failure.value);
      }
      return Success(now);
    }

    /** Bring a reserved record to OWNED: account, source and head, with a save after each part. */
    method Own(d: Drivers, record: Record, o: Outside) returns (r: Result<Record>)
      requires LedgerInv(d, ledger.Contents()) && Current(ledger.Contents(), Op(record, Resumed)) && record.phase == ManagedLedger.Phase.Reserved && Sound(o)
      modifies ledger
      ensures LedgerInv(d, ledger.Contents()) && LedgerOnward(old(ledger.Contents()), ledger.Contents())
      ensures r.Success? ==> r.value.phase == Owned && Core(r.value) == Core(record) && Current(ledger.Contents(), Op(r.value, Resumed))
      ensures r.Success? ==> BuiltBy(o, r.value)
      ensures o.archived ==> r == Failure(PreconditionFailed)
      ensures Calm(o) && Repeats(o, record) ==> r.Success?
    {
      LedgerStays(ledger.Contents());
      if o.archived {
        return Failure(PreconditionFailed);
      }
      var accounted := EnsureAccount(d, record, o);
      if accounted.Failure? {
        return accounted;
      }
      ghost var middle := ledger.Contents();
      r := CreateSource(d, accounted.value, o);
      OnwardIsTransitive(old(ledger.Contents()), middle, ledger.Contents());
      if r.Success? { OwnedKeepsCore(record, accounted.value, r.value); }
    }

    /** From the reserved or replayed record to an installed source. */
    method Continue(d: Drivers, record: Record, o: Outside) returns (r: Result<Record>)
      requires LedgerInv(d, ledger.Contents()) && Current(ledger.Contents(), Op(record, Resumed)) && Sound(o)
      modifies ledger
      ensures LedgerInv(d, ledger.Contents()) && LedgerOnward(old(ledger.Contents()), ledger.Contents())
      ensures r.Success? ==> Core(r.value) == Core(record) && Current(ledger.Contents(), Op(r.value, Resumed)) && o.install.None?
      ensures r.Success? && record.phase == ManagedLedger.Phase.Reserved ==> BuiltBy(o, r.value) && r.value.phase == Owned
      ensures r.Success? && record.phase != ManagedLedger.Phase.Reserved ==> Found(o) && r.value == record
      ensures Calm(o) && Repeats(o, record) ==> r.Success?
    {
      LedgerStays(ledger.Contents());
      r := Success(record);
      if record.phase == ManagedLedger.Phase.Reserved {
        r := Own(d, record, o);
      } else if o.open.Some? {
        r := Failure(o.open.value);
      } else if !o.hasHead {
        r := Failure(PreconditionFailed);
      }
      if r.Success? && o.install.Some? {
        r := Failure(o.install.value);
      }
    }

    /** Reserve or find the allocation, and get to an installed source. */
    method Resume(d: Drivers, req: Request, offer: Offer, o: Outside) returns (r: Result<Record>)
      requires LedgerInv(d, ledger.Contents()) && Deployable(d, req, offer) && Sound(o)
      modifies ledger
      ensures LedgerInv(d, ledger.Contents()) && LedgerOnward(old(ledger.Contents()), ledger.Contents())
      ensures r.Success? ==> r.value.request == req && Current(ledger.Contents(), Op(r.value, Resumed))
      ensures r.Success? ==> Brought(old(ledger.Contents()), req, o, r.value)
      ensures Calm(o) && (Retries(old(ledger.Contents()), req, o) || Starts(d, old(ledger.Contents()), req, offer, o)) ==> r.Success?
    {
      ghost var l0 := ledger.Contents();
      LedgerStays(l0);
      r := ledger.Reserve(d, req, offer);
      if r.Failure? {
        return;
      }
      ghost var l1 := ledger.Contents();
      var reserved := r.value;
      HandsOn(d, l0, req, offer, l1, reserved, o);
      if Starts(d, l0, req, offer, o) {
        StartRepeats(d, l0, req, offer, l1, reserved, o);
      }
      r := Continue(d, reserved, o);
      OnwardIsTransitive(l0, l1, ledger.Contents());
      if r.Success? { CoreFixes(r.value, reserved); }
    }

    /** The callback, once, and then the receipt. */
    method GrantAndFinish(d: Drivers, req: Request, record: Record, o: Outside) returns (failure: Option<ErrorCode>)
      requires LedgerInv(d, ledger.Contents()) && Current(ledger.Contents(), Op(record, Resumed))
      requires record.request == req && record.phase != ManagedLedger.Phase.Reserved
      modifies ledger, this`grants
      ensures LedgerInv(d, ledger.Contents()) && LedgerOnward(old(ledger.Contents()), ledger.Contents())
      ensures failure.None? ==> Current(ledger.Contents(), Op(record.(phase := Ready), Resumed))
      ensures grants == old(grants) || grants == old(grants) + [PayloadOf(record)]
      ensures failure.None? ==> grants == old(grants) + [PayloadOf(record)]
      ensures failure.None? ==> GrantSucceeded(o)
      ensures !o.callback ==> failure == Some(UsageInvalid) && grants == old(grants)
      ensures o.callback && o.authority.Some? ==> failure == o.authority && grants == old(grants)
      ensures o.callback && o.authority.None? && o.archivedLater ==> failure == Some(PreconditionFailed) && grants == old(grants)
      ensures o.callback && o.authority.None? && !o.archivedLater ==> grants == old(grants) + [PayloadOf(record)]
      ensures o.callback && o.authority.None? && !o.archivedLater && o.grant.Some? ==> failure == o.grant
      ensures Calm(o) ==> failure.None?
    {
      LedgerStays(ledger.Contents());
      if !o.callback {
        return Some(UsageInvalid);
      }
      if o.authority.Some? {
        return o.authority;
      }
      if o.archivedLater {
        return Some(PreconditionFailed);
      }
      grants := grants + [PayloadOf(record)];
      if o.grant.Some? {
        return o.grant;
      }
      assert Acceptable(d, record);
      failure := SaveStep(d, record, record.(phase := Ready), o.disk(2));
    }

    /** `CreateManagedRepository`. */
    method Create(d: Drivers, req: Request, offer: Offer, o: Outside) returns (r: Result<Outcome>)
      requires LedgerInv(d, ledger.Contents()) && Deployable(d, req, offer) && Sound(o)
      modifies ledger, this`grants
      ensures LedgerInv(d, ledger.Contents()) && LedgerOnward(old(ledger.Contents()), ledger.Contents())
      ensures r.Success? ==> Created(old(ledger.Contents()), ledger.Contents(), req, o, r.value)
      ensures WasReady(old(ledger.Contents()), req) ==> grants == old(grants)
      ensures grants == old(grants) ||
        (req.repository in ledger.records && grants == old(grants) + [PayloadOf(ledger.records[req.repository])])
      ensures r.Success? && !r.value.replayed ==> grants != old(grants)
      ensures Calm(o) && (Retries(old(ledger.Contents()), req, o) || Starts(d, old(ledger.Contents()), req, offer, o)) ==> r.Success?
    {
      ghost var before := ledger.Contents();
      var resumed := Resume(d, req, offer, o);
      if resumed.Failure? {
        return Failure(resumed.error);
      }
      var record := resumed.value;
      CreatedFrom(before, ledger.Contents(), req, o, record);
      if record.phase == Ready {
        return Success(Outcome(record.head, true));
      }
      ghost var middle := ledger.Contents();
      var failure := GrantAndFinish(d, req, record, o);
      OnwardIsTransitive(before, middle, ledger.Contents());
      PayloadStays(middle, ledger.Contents(), record);
      CreatedFrom(before, ledger.Contents(), req, o, record);
      return if failure.None? then Success(Outcome(record.head, false)) else Failure(failure.value);
    }
  }

  /** What a record asks to be granted is what the ledger goes on recording. */
  lemma PayloadStays(l: Ledger, m: Ledger, r: Record)
    requires Current(l, Op(r, Resumed)) && LedgerOnward(l, m)
    ensures r.request.repository in m.records && PayloadOf(m.records[r.request.repository]) == PayloadOf(r)
  {
    CoreFixes(r, m.records[r.request.repository]);
  }

  lemma CreatedFrom(before: Ledger, after: Ledger, req: Request, o: Outside, r: Record)
    requires Brought(before, req, o, r) && r.request == req
    ensures Current(after, Op(r.(phase := Ready), Resumed)) && (r.phase == Ready || GrantSucceeded(o)) ==>
      Created(before, after, req, o, Outcome(r.head, r.phase == Ready))
  {}

  lemma OwnedKeepsCore(record: Record, accounted: Record, owned: Record)
    requires accounted == record.(accountBackend := accounted.accountBackend)
    requires owned == accounted.(backend := owned.backend, head := owned.head, phase := Owned)
    ensures Core(owned) == Core(record) && owned.phase == Owned
  {}

  lemma StartRepeats(d: Drivers, l: Ledger, req: Request, offer: Offer, m: Ledger, r: Record, o: Outside)
    requires NewlyReserved(d, l, req, offer, m, r) && Starts(d, l, req, offer, o)
    ensures Repeats(o, r)
  {
    var own := OwnRecord(req, offer, offer.pool.value.0, offer.pool.value.1, offer.binding.value);
    if id :| Holds(d, l.records, own, id) && r == own.(account := l.records[id].account, accountBackend := l.records[id].accountBackend) {
      assert SameHolder(d, l.records[id], own);
    }
  }

  /** What a successful reservation hands on. */
  lemma HandsOn(d: Drivers, l: Ledger, req: Request, offer: Offer, m: Ledger, r: Record, o: Outside)
    requires LedgerInv(d, l) && Deployable(d, req, offer)
    requires if KeyOf(req) in l.commands then Replayed(d, l, req, r) && m == l else NewlyReserved(d, l, req, offer, m, r)
    ensures LedgerInv(d, m) && LedgerOnward(l, m) && r.request == req && Current(m, Op(r, Resumed))
    ensures r.phase == Ready <==> WasReady(l, req)
    ensures ToBuild(l, req) <==> r.phase == ManagedLedger.Phase.Reserved
    ensures !ToBuild(l, req) ==> r == l.records[l.commands[KeyOf(req)]]
    ensures Retries(l, req, o) ==> Repeats(o, r)
  {
    if KeyOf(req) in l.commands {
      LedgerStays(l);
      assert Filed(l, l.commands[KeyOf(req)]) && Referenced(l, KeyOf(req));
    } else {
      ReserveKeeps(d, l, req, offer, m, r);
      InheritedAccount(d, l, req, offer, r);
    }
  }
}
