/** Two processes on one directory: the second calls the callback for a repository that the first
has made READY (home/managed.go).  The lock is per process, so this is outside its reach. */
module GrantOverlap {
  import opened Kernel
  import opened ManagedLedger
  import opened Provisioning
  import opened Granting

  function Setting(): Drivers
  {
    Drivers({"git"}, (dsn: string) => dsn, {"read"}, {})
  }

  const REQUEST := Request("catalog", "kr://r", "command", "alice", "", "store")
  const BINDING := Binding("kr://r", "git", "dsn")
  const FIRST := "00000000000000000000000000000000"
  const SECOND := "11111111111111111111111111111111"

  function OfferOf(nonce: string): Offer
  {
    Offer(Success((Pool("git", ["read"], []), "store")), None, nonce, Success(BINDING), "", false)
  }

  function RecordAt(phase: Phase): Record
  {
    var own := OwnRecord(REQUEST, OfferOf(FIRST), Pool("git", ["read"], []), "store", BINDING);
    if phase == Reserved then own else own.(backend := "backend", head := "head", phase := phase)
  }

  function LedgerAt(phase: Phase): Ledger
  {
    Ledger(map[REQUEST.repository := RecordAt(phase)], map[KeyOf(REQUEST) := REQUEST.repository])
  }

  function Payload(): Grant
  {
    PayloadOf(RecordAt(Owned))
  }

  function Granted(): Policy
  {
    Policy(map[FIRST := Payload()], [Rule(FIRST, "alice", REQUEST.repository, ["read"])])
  }

  /** The worlds of the run. */
  function Worlds(): seq<World>
  {
    var bare := Policy(map[], []);
    [ World(Ledger(map[], map[]), map[], [], bare),
      World(LedgerAt(Reserved), map[0 := Op(RecordAt(Reserved), Resumed)], [], bare),
      World(LedgerAt(Reserved), map[0 := Op(RecordAt(Reserved), Creating)], [], bare),
      World(LedgerAt(Owned), map[0 := Op(RecordAt(Owned), Installed)], [], bare),
      World(LedgerAt(Owned), map[0 := Op(RecordAt(Owned), Installed), 1 := Op(RecordAt(Owned), Resumed)], [], bare),
      World(LedgerAt(Owned), map[0 := Op(RecordAt(Owned), Installed), 1 := Op(RecordAt(Owned), Installed)], [], bare),
      World(LedgerAt(Owned), map[0 := Op(RecordAt(Owned), Stage.Granted), 1 := Op(RecordAt(Owned), Installed)], [Payload()], Granted()),
      World(LedgerAt(Ready), map[1 := Op(RecordAt(Owned), Installed)], [Payload()], Granted()),
      World(LedgerAt(Ready), map[1 := Op(RecordAt(Owned), Stage.Granted)], [Payload(), Payload()], Granted()) ]
  }

  function Events(): seq<Event>
  {
    [ Begin(0, REQUEST, OfferOf(FIRST), LedgerAt(Reserved), RecordAt(Reserved)),
      SkipOwner(0),
      Create(0, "backend", "head"),
      Begin(1, REQUEST, OfferOf(SECOND), LedgerAt(Owned), RecordAt(Owned)),
      Open(1),
      CallGrant(0, Some("alice"), true, true),
      Receipt(0),
      CallGrant(1, Some("alice"), true, true) ]
  }

  /** Step i of the run is a step of the protocol without the lock. */
  ghost predicate Holds(i: nat)
    requires i < 8
  {
    var w, e := Worlds()[i], Events()[i];
    Enabled(Setting(), false, w, e) && Worlds()[i + 1] == Next(Setting(), w, e)
  }

  lemma Reserves()
    ensures Holds(0)
  {
    assert DistinctActions(["read"], {"read"});
    assert KeyOf(REQUEST) !in Worlds()[0].ledger.commands;
  }

  lemma Skips()
    ensures Holds(1)
  {
  }

  lemma RecordsAcceptable(phase: Phase)
    requires phase != Unknown
    ensures Acceptable(Setting(), RecordAt(phase))
  {
    assert DistinctActions(["read"], {"read"});
  }

  lemma Creates()
    ensures Holds(2)
  {
    RecordsAcceptable(Reserved);
    RecordsAcceptable(Owned);
  }

  lemma Joins()
    ensures Holds(3)
  {
    RecordsAcceptable(Owned);
    assert DistinctActions(["read"], {"read"});
  }

  lemma Opens()
    ensures Holds(4)
  {
  }

  lemma Grants()
    ensures Holds(5)
  {
  }

  lemma Finishes()
    ensures Holds(6)
  {
    RecordsAcceptable(Owned);
  }

  lemma GrantsAgain()
    ensures Holds(7)
  {
  }

  /** A run from the initial world in which the callback is called for a READY repository. */
  lemma OverlapGrantsAgain()
    ensures Execution(Setting(), false, Worlds(), Events())
    ensures IsReady(Worlds()[7].ledger, REQUEST.repository) && Events()[7] == CallGrant(1, Some("alice"), true, true)
    ensures Worlds()[7].ops[1].record.request.repository == REQUEST.repository
    ensures Worlds()[8].grants == [Payload(), Payload()]
  {
    Reserves();
    Skips();
    Creates();
    Joins();
    Opens();
    Grants();
    Finishes();
    GrantsAgain();
    forall i | 0 <= i < |Events()|
      ensures Enabled(Setting(), false, Worlds()[i], Events()[i]) && Worlds()[i + 1] == Next(Setting(), Worlds()[i], Events()[i])
    {
      assert i in {0, 1, 2, 3, 4, 5, 6, 7};
      assert Holds(i);
    }
  }
}
