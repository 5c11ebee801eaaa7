/** The durable ledger of managed repository allocations (home/managed_ledger.go): two indexes,
frozen fields, a phase that only advances, and accounts shared inside a provider namespace. */
module ManagedLedger {
  import opened Kernel

  type RepositoryId = string

  datatype Request = Request(catalog: string, repository: RepositoryId, command: string, principal: string, name: string, store: string)

  datatype Binding = Binding(id: RepositoryId, driver: string, dsn: string)

  datatype Phase = Reserved | Owned | Registered | Ready | Unknown

  /** `digest` is the canonical digest of a request, taken as injective. */
  datatype Record = Record(
    request: Request, digest: Request, allocation: string, binding: Binding,
    backend: string, head: string, actions: seq<string>, shareActions: seq<string>, phase: Phase,
    name: string, owner: string, store: string, managementURL: string,
    account: string, accountBackend: string)

  /** The digest of principal and command id. */
  datatype CommandKey = CommandKey(principal: string, command: string)

  datatype Ledger = Ledger(records: map<RepositoryId, Record>, commands: map<CommandKey, RepositoryId>)

  datatype Pool = Pool(driver: string, creatorActions: seq<string>, shareActions: seq<string>)

  /** What the deployment knows: the drivers, the namespace part of an address, and the actions a
  creator or share policy may name. */
  datatype Drivers = Drivers(known: set<string>, namespace: string -> string, creatorActions: set<string>, shareActions: set<string>)

  /** The surroundings of a reservation: the selected pool, whether the identity may be newly
  allocated, a fresh allocation id, what the driver binds, and whether it keeps user accounts. */
  datatype Offer = Offer(
    pool: Result<(Pool, string)>, admissible: Option<ErrorCode>, nonce: string,
    binding: Result<Binding>, managementURL: string, ownable: bool)

  function Rank(p: Phase): nat
  {
    match p
    case Reserved => 1
    case Owned => 2
    case Registered => 3
    case Ready => 4
    case Unknown => 0
  }

  function KeyOf(r: Request): CommandKey
  {
    CommandKey(r.principal, r.command)
  }

  predicate IsHex(c: char)
  {
    '0' <= c <= '9' || 'a' <= c <= 'f' || 'A' <= c <= 'F'
  }

  predicate AllocationId(s: string)
  {
    |s| == 32 && forall i :: 0 <= i < |s| ==> IsHex(s[i])
  }

  predicate DistinctActions(actions: seq<string>, allowed: set<string>)
  {
    && (forall i :: 0 <= i < |actions| ==> actions[i] in allowed)
    && (forall i, j :: 0 <= i < j < |actions| ==> actions[i] != actions[j])
  }

  predicate ValidActions(d: Drivers, creator: seq<string>, share: seq<string>)
  {
    |creator| > 0 && DistinctActions(creator, d.creatorActions) && DistinctActions(share, d.shareActions)
  }

  /** `decodeManagedRecord` accepts the record. */
  predicate Acceptable(d: Drivers, r: Record)
  {
    && r.allocation != "" && r.request.repository != "" && r.request.catalog != "" && r.request.command != "" && r.request.principal != ""
    && r.binding.id == r.request.repository && r.digest == r.request && Rank(r.phase) != 0
    && ValidActions(d, r.actions, r.shareActions)
    && AllocationId(r.allocation)
    && (r.phase != Reserved ==> r.backend != "" && r.head != "")
    && r.binding.driver in d.known
  }

  /** A choice of actions: none twice, all of them offered. */
  ghost predicate ChosenFrom(actions: seq<string>, offered: set<string>)
  {
    (set a | a in actions) <= offered && forall a :: multiset(actions)[a] <= 1
  }

  lemma {:induction false} OnceEach(actions: seq<string>)
    ensures (forall i, j :: 0 <= i < j < |actions| ==> actions[i] != actions[j]) <==> forall a :: multiset(actions)[a] <= 1
  {
    if actions != [] {
      var front, last := actions[..|actions| - 1], actions[|actions| - 1];
      OnceEach(front);
      assert actions == front + [last];
      assert forall a :: multiset(actions)[a] == multiset(front)[a] + if a == last then 1 else 0;
      assert last in front <==> multiset(front)[last] > 0;
      if forall i, j :: 0 <= i < j < |actions| ==> actions[i] != actions[j] {
        forall i, j | 0 <= i < j < |front| ensures front[i] != front[j] { assert actions[i] != actions[j]; }
        forall i | 0 <= i < |front| ensures front[i] != last { assert actions[i] != actions[|actions| - 1]; }
      }
    }
  }

  /** Which records a load accepts: complete, about themselves, of a known phase, with chosen actions, 32
  hexadecimal digits, a source receipt if they claim a source, and a driver that is there. */
  lemma AcceptableMeans(d: Drivers, r: Record)
    ensures Acceptable(d, r) <==>
      && "" !in {r.allocation, r.request.repository, r.request.catalog, r.request.command, r.request.principal}
      && r.binding.id == r.request.repository && r.digest == r.request && r.phase in {Reserved, Owned, Registered, Ready}
      && r.actions != [] && ChosenFrom(r.actions, d.creatorActions) && ChosenFrom(r.shareActions, d.shareActions)
      && |r.allocation| == 32 && (forall c :: c in r.allocation ==> c in "0123456789abcdefABCDEF")
      && (r.phase == Reserved || "" !in {r.backend, r.head}) && r.binding.driver in d.known
  {
    OnceEach(r.actions);
    OnceEach(r.shareActions);
    forall c ensures IsHex(c) <==> c in "0123456789abcdefABCDEF" {
      HexDigits(c);
    }
    AllOffered(r.actions, d.creatorActions);
    AllOffered(r.shareActions, d.shareActions);
    assert forall c :: c in r.allocation <==> exists i :: 0 <= i < |r.allocation| && r.allocation[i] == c;
  }

  lemma AllOffered(actions: seq<string>, offered: set<string>)
    ensures (forall i :: 0 <= i < |actions| ==> actions[i] in offered) <==> (set a | a in actions) <= offered
  {
    assert forall i :: 0 <= i < |actions| ==> actions[i] in (set a | a in actions);
  }

  lemma HexDigits(c: char)
    ensures IsHex(c) <==> c in "0123456789abcdefABCDEF"
  {
    var digits := "0123456789abcdefABCDEF";
    if IsHex(c) {
      if '0' <= c <= '9' {
        assert digits[c as int - '0' as int] == c;
      } else if 'a' <= c <= 'f' {
        assert digits[10 + (c as int - 'a' as int)] == c;
      } else {
        assert digits[16 + (c as int - 'A' as int)] == c;
      }
    }
  }

  // ------------------------------------------------------------------------ the transactions

  /** Same owner, same driver, same provider namespace. */
  predicate SameHolder(d: Drivers, a: Record, b: Record)
  {
    a.owner == b.owner && a.binding.driver == b.binding.driver && d.namespace(a.binding.dsn) == d.namespace(b.binding.dsn)
  }

  /** The account a new record takes over from an older record of the same holder, if any. */
  ghost predicate Inherits(d: Drivers, records: map<RepositoryId, Record>, own: Record, r: Record)
  {
    if exists id :: Holds(d, records, own, id)
    then exists id :: Holds(d, records, own, id) && r == own.(account := records[id].account, accountBackend := records[id].accountBackend)
    else r == own
  }

  predicate Holds(d: Drivers, records: map<RepositoryId, Record>, own: Record, id: RepositoryId)
  {
    id in records && SameHolder(d, records[id], own) && records[id].account != ""
  }

  function OwnRecord(req: Request, offer: Offer, pool: Pool, store: string, binding: Binding): Record
  {
    Record(req, req, offer.nonce, binding, "", "", pool.creatorActions, pool.shareActions, Reserved,
           req.name, req.principal, store, offer.managementURL, if offer.ownable then offer.nonce else "", "")
  }

  /** A reservation that does not find the command: what it may add to the ledger. */
  ghost predicate NewlyReserved(d: Drivers, l: Ledger, req: Request, offer: Offer, m: Ledger, r: Record)
  {
    && KeyOf(req) !in l.commands && req.repository !in l.records
    && offer.pool.Success? && offer.admissible.None? && offer.binding.Success?
    && offer.pool.value.0.driver in d.known
    && (req.name != "" ==> offer.managementURL != "")
    && var own := OwnRecord(req, offer, offer.pool.value.0, offer.pool.value.1, offer.binding.value);
       && (if offer.ownable then Inherits(d, l.records, own, r) else r == own)
       && m == Ledger(l.records[req.repository := r], l.commands[KeyOf(req) := req.repository])
  }

  /** The ledger and the offer admit a new reservation. */
  predicate Reservable(d: Drivers, l: Ledger, req: Request, offer: Offer)
  {
    && req.repository !in l.records && offer.pool.Success? && offer.admissible.None? && offer.binding.Success?
    && offer.pool.value.0.driver in d.known && (req.name != "" ==> offer.managementURL != "")
  }

  /** A reservation that finds the command under the same request. */
  predicate Replayed(d: Drivers, l: Ledger, req: Request, r: Record)
  {
    && KeyOf(req) in l.commands && l.commands[KeyOf(req)] in l.records
    && r == l.records[l.commands[KeyOf(req)]] && Acceptable(d, r) && r.digest == req
  }

  /** The fields `saveManaged` refuses to change. */
  predicate SaveAllowed(was: Record, r: Record)
  {
    && was.allocation == r.allocation && was.digest == r.digest && was.account == r.account
    && (was.accountBackend != "" ==> was.accountBackend == r.accountBackend)
    && was.managementURL == r.managementURL
    && (was.backend != "" ==> was.backend == r.backend && was.head == r.head)
  }

  /** `saveManaged`. */
  function Save(d: Drivers, l: Ledger, r: Record): Result<Ledger>
  {
    if r.request.repository !in l.records || !Acceptable(d, l.records[r.request.repository]) then Failure(PreconditionFailed)
    else if !SaveAllowed(l.records[r.request.repository], r) then Failure(PreconditionFailed)
    else if Rank(l.records[r.request.repository].phase) > Rank(r.phase) then Success(l)
    else Success(l.(records := l.records[r.request.repository := r]))
  }

  // ------------------------------------------------------------------------------ invariants

  /** The two indexes are inverse to each other. */
  ghost predicate Inverse(l: Ledger)
  {
    && (forall id :: id in l.records ==> Filed(l, id))
    && (forall key :: key in l.commands ==> Referenced(l, key))
  }

  predicate Filed(l: Ledger, id: RepositoryId)
    requires id in l.records
  {
    var req := l.records[id].request;
    req.repository == id && KeyOf(req) in l.commands && l.commands[KeyOf(req)] == id
  }

  predicate Referenced(l: Ledger, key: CommandKey)
    requires key in l.commands
  {
    l.commands[key] in l.records && KeyOf(l.records[l.commands[key]].request) == key
  }

  /** All records of one holder that have an account have the same account. */
  ghost predicate AccountsShared(d: Drivers, records: map<RepositoryId, Record>)
  {
    forall a, b :: a in records && b in records && SameHolder(d, records[a], records[b]) ==>
      SameAccount(records[a], records[b])
  }

  predicate SameAccount(a: Record, b: Record)
  {
    a.account != "" && b.account != "" ==> a.account == b.account
  }

  ghost predicate AllAcceptable(d: Drivers, records: map<RepositoryId, Record>)
  {
    forall id :: id in records ==> Acceptable(d, records[id])
  }

  ghost predicate LedgerInv(d: Drivers, l: Ledger)
  {
    Inverse(l) && AllAcceptable(d, l.records) && AccountsShared(d, l.records)
  }

  /** What never changes in a record. */
  function Core(r: Record): Record
  {
    r.(phase := Reserved, backend := "", head := "", accountBackend := "")
  }

  /** How a record may move on: its core stays, its rank never falls, and backend, head and
  account backend stay once they are set. */
  predicate Onward(a: Record, b: Record)
  {
    && Core(a) == Core(b)
    && Rank(a.phase) <= Rank(b.phase)
    && (a.backend != "" ==> a.backend == b.backend && a.head == b.head)
    && (a.accountBackend != "" ==> a.accountBackend == b.accountBackend)
  }

  ghost predicate LedgerOnward(l: Ledger, m: Ledger)
  {
    RecordsOnward(l.records, m.records) && CommandsKept(l.commands, m.commands)
  }

  ghost predicate RecordsOnward(a: map<RepositoryId, Record>, b: map<RepositoryId, Record>)
  {
    forall id :: id in a ==> id in b && Onward(a[id], b[id])
  }

  ghost predicate CommandsKept(a: map<CommandKey, RepositoryId>, b: map<CommandKey, RepositoryId>)
  {
    forall key :: key in a ==> key in b && b[key] == a[key]
  }

  lemma PutOnward(records: map<RepositoryId, Record>, id: RepositoryId, r: Record)
    requires id in records ==> Onward(records[id], r)
    ensures RecordsOnward(records, records[id := r])
  {}

  lemma PutCommand(commands: map<CommandKey, RepositoryId>, key: CommandKey, id: RepositoryId)
    requires key !in commands
    ensures CommandsKept(commands, commands[key := id])
  {}

  lemma PutAcceptable(d: Drivers, records: map<RepositoryId, Record>, id: RepositoryId, r: Record)
    requires AllAcceptable(d, records)
    ensures AllAcceptable(d, records[id := r]) <==> Acceptable(d, r)
  {
    assert records[id := r][id] == r;
  }

  lemma OnwardIsTransitive(l: Ledger, m: Ledger, n: Ledger)
    requires LedgerOnward(l, m) && LedgerOnward(m, n)
    ensures LedgerOnward(l, n)
  {}

  /** What the deployment owes a new reservation: a request with all its parts, validated action
  lists, a well-formed allocation id, and a binding of the requested repository. */
  predicate Deployable(d: Drivers, req: Request, offer: Offer)
  {
    && req.repository != "" && req.catalog != "" && req.command != "" && req.principal != ""
    && AllocationId(offer.nonce)
    && (offer.pool.Success? ==> ValidActions(d, offer.pool.value.0.creatorActions, offer.pool.value.0.shareActions))
    && (offer.pool.Success? && offer.binding.Success? ==>
          offer.binding.value.id == req.repository && offer.binding.value.driver == offer.pool.value.0.driver)
  }

  lemma IndexesStayInverse(l: Ledger, m: Ledger, req: Request, r: Record)
    requires Inverse(l) && KeyOf(req) !in l.commands && req.repository !in l.records && r.request == req
    requires m == Ledger(l.records[req.repository := r], l.commands[KeyOf(req) := req.repository])
    ensures Inverse(m)
  {
    forall id | id in m.records ensures Filed(m, id) {
      if id != req.repository { assert Filed(l, id); }
    }
    forall key | key in m.commands ensures Referenced(m, key) {
      if key != KeyOf(req) { assert Referenced(l, key); }
    }
  }

  /** Putting in one record that shares the account of its holder. */
  lemma AccountsStayShared(d: Drivers, records: map<RepositoryId, Record>, id: RepositoryId, r: Record)
    requires AccountsShared(d, records)
    requires forall i :: i in records && i != id && SameHolder(d, records[i], r) ==> SameAccount(records[i], r)
    ensures AccountsShared(d, records[id := r])
  {
    var next := records[id := r];
    forall a, b | a in next && b in next && SameHolder(d, next[a], next[b]) ensures SameAccount(next[a], next[b]) {
      if a != id && b != id {
        assert SameHolder(d, records[a], records[b]);
      } else if a == id && b != id {
        assert SameHolder(d, records[b], r);
      }
    }
  }

  lemma ReserveKeeps(d: Drivers, l: Ledger, req: Request, offer: Offer, m: Ledger, r: Record)
    requires LedgerInv(d, l) && Deployable(d, req, offer) && NewlyReserved(d, l, req, offer, m, r)
    ensures LedgerInv(d, m) && LedgerOnward(l, m) && Acceptable(d, r)
  {
    InheritedAccount(d, l, req, offer, r);
    IndexesStayInverse(l, m, req, r);
    AccountsStayShared(d, l.records, req.repository, r);
    PutAcceptable(d, l.records, req.repository, r);
    PutOnward(l.records, req.repository, r);
    PutCommand(l.commands, KeyOf(req), req.repository);
  }

  /** The new record's account is the one every record of the same holder has. */
  lemma InheritedAccount(d: Drivers, l: Ledger, req: Request, offer: Offer, r: Record)
    requires AccountsShared(d, l.records) && offer.pool.Success? && offer.binding.Success?
    requires
      var own := OwnRecord(req, offer, offer.pool.value.0, offer.pool.value.1, offer.binding.value);
      if offer.ownable then Inherits(d, l.records, own, r) else r == own
    ensures forall id :: id in l.records && SameHolder(d, l.records[id], r) ==> SameAccount(l.records[id], r)
    ensures r.request == req && r.digest == req && r.binding == offer.binding.value && r.allocation == offer.nonce && r.phase == Reserved
    ensures r.actions == offer.pool.value.0.creatorActions && r.shareActions == offer.pool.value.0.shareActions
  {
    var own := OwnRecord(req, offer, offer.pool.value.0, offer.pool.value.1, offer.binding.value);
    if offer.ownable {
      forall id | id in l.records && SameHolder(d, l.records[id], r) ensures SameAccount(l.records[id], r) {
        if l.records[id].account != "" { assert Holds(d, l.records, own, id); }
      }
    }
  }

  /** A saved record keeps the ledger loadable exactly when it is complete: a phase beyond
  RESERVED comes with a backend and a head. */
  lemma SaveKeepsIff(d: Drivers, l: Ledger, r: Record)
    requires LedgerInv(d, l) && r.request.repository in l.records && Core(r) == Core(l.records[r.request.repository])
    requires SaveAllowed(l.records[r.request.repository], r) && Rank(l.records[r.request.repository].phase) <= Rank(r.phase)
    ensures Save(d, l, r).Success?
    ensures LedgerInv(d, Save(d, l, r).value) <==> (r.phase != Reserved ==> r.backend != "" && r.head != "")
    ensures LedgerOnward(l, Save(d, l, r).value)
  {
    var id := r.request.repository;
    var m := Save(d, l, r).value;
    assert Acceptable(d, l.records[id]);
    CoreFixes(r, l.records[id]);
    assert Acceptable(d, r) <==> (r.phase != Reserved ==> r.backend != "" && r.head != "");
    SavedIndexes(l, m, r);
    PutAcceptable(d, l.records, id, r);
    PutOnward(l.records, id, r);
    forall i | i in l.records && i != id && SameHolder(d, l.records[i], r) ensures SameAccount(l.records[i], r) {
      assert SameHolder(d, l.records[i], l.records[id]);
    }
    AccountsStayShared(d, l.records, id, r);
  }

  lemma SavedIndexes(l: Ledger, m: Ledger, r: Record)
    requires Inverse(l) && r.request.repository in l.records && r.request == l.records[r.request.repository].request
    requires m == l.(records := l.records[r.request.repository := r])
    ensures Inverse(m)
  {
    forall i | i in m.records ensures Filed(m, i) { assert Filed(l, i); }
    forall key | key in m.commands ensures Referenced(m, key) { assert Referenced(l, key); }
  }

  lemma CoreFixes(a: Record, b: Record)
    requires Core(a) == Core(b)
    ensures a.request == b.request && a.digest == b.digest && a.allocation == b.allocation && a.binding == b.binding
    ensures a.actions == b.actions && a.shareActions == b.shareActions && a.owner == b.owner && a.account == b.account
  {
    assert Core(a).request == a.request && Core(b).request == b.request;
    assert Core(a).digest == a.digest && Core(b).digest == b.digest;
    assert Core(a).allocation == a.allocation && Core(b).allocation == b.allocation;
    assert Core(a).binding == a.binding && Core(b).binding == b.binding;
    assert Core(a).actions == a.actions && Core(b).actions == b.actions;
    assert Core(a).shareActions == a.shareActions && Core(b).shareActions == b.shareActions;
    assert Core(a).owner == a.owner && Core(b).owner == b.owner;
    assert Core(a).account == a.account && Core(b).account == b.account;
  }

  /** Without that a save is accepted by the saver and refused by every later load. */
  lemma IncompleteSaveIsRefusedLater(d: Drivers, l: Ledger, r: Record)
    requires LedgerInv(d, l) && r.request.repository in l.records && Core(r) == Core(l.records[r.request.repository])
    requires l.records[r.request.repository].phase == Reserved && l.records[r.request.repository].backend == "" && l.records[r.request.repository].accountBackend == ""
    requires r.phase == Owned && r.backend == ""
    ensures Save(d, l, r).Success? && !AllAcceptable(d, Save(d, l, r).value.records)
    ensures Save(d, Save(d, l, r).value, r).Failure?
  {
    CoreFixes(r, l.records[r.request.repository]);
    assert Acceptable(d, l.records[r.request.repository]);
    assert Core(r).managementURL == r.managementURL;
    assert Core(l.records[r.request.repository]).managementURL == l.records[r.request.repository].managementURL;
    var m := Save(d, l, r).value;
    assert m.records[r.request.repository] == r && !Acceptable(d, r);
  }

  // ------------------------------------------------------------------------------- the code

  class Store {
    var records: map<RepositoryId, Record>
    var commands: map<CommandKey, RepositoryId>

    constructor ()
      ensures Contents() == Ledger(map[], map[])
    {
      records, commands := map[], map[];
    }

    function Contents(): Ledger
      reads this
    {
      Ledger(records, commands)
    }

    /** The first pass of a load: every record decodes and is filed under its own identity. */
    method LoadRecords(d: Drivers) returns (r: Result<seq<Record>>)
      ensures r.Success? <==> (forall id :: id in records ==> Filed(Contents(), id)) && AllAcceptable(d, records)
      ensures r.Success? ==> Lists(r.value, records, records.Keys)
    {
      var listed: seq<Record> := [];
      var pending := records.Keys;
      while pending != {}
        invariant pending <= records.Keys
        invariant Loaded(Contents(), d, listed, records.Keys - pending)
        decreases pending
      {
        var id :| id in pending;
        var record := records[id];
        if !Acceptable(d, record) {
          return Failure(PreconditionFailed);
        }
        if id != record.request.repository || KeyOf(record.request) !in commands || commands[KeyOf(record.request)] != id {
          assert !Filed(Contents(), id);
          return Failure(PreconditionFailed);
        }
        LoadedNext(Contents(), d, listed, records.Keys - pending, id);
        TakeOut(records.Keys, pending, id);
        pending := pending - {id};
        listed := listed + [record];
      }
      assert records.Keys - {} == records.Keys;
      return Success(listed);
    }

    /** `loadManagedRecords`: it succeeds exactly on consistent indexes of acceptable records, and
    then lists every record once. */
    method Load(d: Drivers) returns (r: Result<seq<Record>>)
      ensures r.Success? <==> Inverse(Contents()) && AllAcceptable(d, records)
      ensures r.Success? ==> Lists(r.value, records, records.Keys)
    {
      r := LoadRecords(d);
      if r.Failure? {
        return;
      }
      var keys := commands.Keys;
      while keys != {}
        invariant keys <= commands.Keys
        invariant forall key :: key in commands.Keys - keys ==> Referenced(Contents(), key)
        decreases keys
      {
        var key :| key in keys;
        if commands[key] !in records || !Acceptable(d, records[commands[key]]) || KeyOf(records[commands[key]].request) != key {
          assert !Referenced(Contents(), key);
          return Failure(PreconditionFailed);
        }
        keys := keys - {key};
      }
    }

    /** `reserveManaged`, one transaction. */
    method Reserve(d: Drivers, req: Request, offer: Offer) returns (r: Result<Record>)
      requires LedgerInv(d, Contents())
      modifies this
      ensures r.Success? && KeyOf(req) in old(commands) ==> Replayed(d, old(Contents()), req, r.value) && Contents() == old(Contents())
      ensures r.Success? && KeyOf(req) !in old(commands) ==> NewlyReserved(d, old(Contents()), req, offer, Contents(), r.value)
      ensures r.Failure? ==> Contents() == old(Contents())
      ensures KeyOf(req) !in old(commands) && r.Failure? ==> !Reservable(d, old(Contents()), req, offer)
      ensures KeyOf(req) in old(commands) && r.Failure? ==>
        r.error == IdempotencyConflict && old(records)[old(commands)[KeyOf(req)]].digest != req
    {
      var key := KeyOf(req);
      if key in commands {
        assert Referenced(Contents(), key);
        var record := records[commands[key]];
        assert Acceptable(d, record);
        if record.digest != req {
          return Failure(IdempotencyConflict);
        }
        return Success(record);
      }
      if req.repository in records {
        return Failure(PreconditionFailed);
      }
      if offer.pool.Failure? {
        return Failure(offer.pool.error);
      }
      if offer.admissible.Some? {
        return Failure(offer.admissible.value);
      }
      var pool, store := offer.pool.value.0, offer.pool.value.1;
      if pool.driver !in d.known {
        return Failure(PreconditionFailed);
      }
      if offer.binding.Failure? {
        return Failure(offer.binding.error);
      }
      if req.name != "" && offer.managementURL == "" {
        return Failure(PreconditionFailed);
      }
      var own := OwnRecord(req, offer, pool, store, offer.binding.value);
      var record := own;
      if offer.ownable {
        record := Inherit(d, own);
      }
      records := records[req.repository := record];
      commands := commands[key := req.repository];
      return Success(record);
    }

    /** The walk over the older records, in whatever order the bucket yields them. */
    method Inherit(d: Drivers, own: Record) returns (r: Record)
      requires AllAcceptable(d, records)
      ensures Inherits(d, records, own, r)
    {
      r := own;
      var pending := records.Keys;
      ghost var found: Option<RepositoryId> := None;
      while pending != {}
        invariant pending <= records.Keys
        invariant found.None? ==> r == own && forall id :: id in records.Keys - pending ==> !Holds(d, records, own, id)
        invariant found.Some? ==> Holds(d, records, own, found.value)
        invariant found.Some? ==>
          r == own.(account := records[found.value].account, accountBackend := records[found.value].accountBackend)
        decreases pending
      {
        var id :| id in pending;
        pending := pending - {id};
        var existing := records[id];
        if existing.owner == r.owner && existing.binding.driver == own.binding.driver && existing.account != "" &&
           d.namespace(existing.binding.dsn) == d.namespace(own.binding.dsn) {
          r := r.(account := existing.account, accountBackend := existing.accountBackend);
          found := Some(id);
        }
      }
    }

    /** `saveManaged`, one transaction. */
    method SaveRecord(d: Drivers, r: Record) returns (failure: Option<ErrorCode>)
      modifies this`records
      ensures failure.None? ==> Save(d, old(Contents()), r) == Success(Contents())
      ensures failure.Some? ==> Save(d, old(Contents()), r) == Failure(failure.value) && Contents() == old(Contents())
    {
      var id := r.request.repository;
      if id !in records || !Acceptable(d, records[id]) {
        return Some(PreconditionFailed);
      }
      var was := records[id];
      if !SaveAllowed(was, r) {
        return Some(PreconditionFailed);
      }
      if Rank(was.phase) > Rank(r.phase) {
        return None;
      }
      records := records[id := r];
      return None;
    }
  }

  /** The records of these ids, each once. */
  ghost predicate Lists(listed: seq<Record>, records: map<RepositoryId, Record>, ids: set<RepositoryId>)
  {
    && |listed| == |ids|
    && forall x :: x in listed <==> x.request.repository in ids && x.request.repository in records && records[x.request.repository] == x
  }

  /** The records of these repositories are listed, and are as they should be. */
  ghost predicate Loaded(l: Ledger, d: Drivers, listed: seq<Record>, ids: set<RepositoryId>)
  {
    && Lists(listed, l.records, ids)
    && forall id :: id in l.records && id in ids ==> Filed(l, id) && Acceptable(d, l.records[id])
  }

  lemma LoadedNext(l: Ledger, d: Drivers, listed: seq<Record>, ids: set<RepositoryId>, id: RepositoryId)
    requires Loaded(l, d, listed, ids) && id !in ids && id in l.records && Filed(l, id) && Acceptable(d, l.records[id])
    ensures Loaded(l, d, listed + [l.records[id]], ids + {id})
  {
    ListsNext(listed, l.records, ids, id);
  }

  lemma TakeOut(all: set<RepositoryId>, pending: set<RepositoryId>, id: RepositoryId)
    requires pending <= all && id in pending
    ensures all - (pending - {id}) == (all - pending) + {id}
  {}

  lemma ListsNext(listed: seq<Record>, records: map<RepositoryId, Record>, ids: set<RepositoryId>, id: RepositoryId)
    requires Lists(listed, records, ids) && id !in ids && id in records && records[id].request.repository == id
    ensures Lists(listed + [records[id]], records, ids + {id})
  {}
}
