/** The reference-counted lock map of the outbox (hook/outbox.go, `lockOutbox`).

Lock objects are created when a path is first entered and discarded with their last user, and yet
two goroutines on one path are never in the critical section together. */
module OutboxLock {

  type Path = string
  type LockId = nat

  /** Registered and waiting, in the critical section, or on the way out. */
  datatype Phase = Waiting | Inside | Leaving

  datatype Routine = Routine(path: Path, lock: LockId, phase: Phase)

  /** `items` and `users` are the map and the counts; `held` the mutexes that are locked. */
  datatype World = World(items: map<Path, LockId>, users: map<LockId, int>, held: set<LockId>, routines: map<nat, Routine>)

  datatype Event =
    | Enter(routine: nat, path: Path, newLock: LockId)
    | Acquire(routine: nat)
    | Unlock(routine: nat)
    | Leave(routine: nat)

  predicate At(w: World, r: nat, phase: Phase)
  {
    r in w.routines && w.routines[r].phase == phase
  }

  /** A new lock object is unlike any that ever was. */
  predicate Enabled(w: World, e: Event)
  {
    match e
    case Enter(r, path, newLock) => r !in w.routines && newLock !in w.users
    case Acquire(r) => At(w, r, Waiting) && w.routines[r].lock !in w.held
    case Unlock(r) => At(w, r, Inside)
    case Leave(r) => At(w, r, Leaving)
  }

  function Entered(w: World, path: Path, newLock: LockId): LockId
  {
    if path in w.items then w.items[path] else newLock
  }

  function Next(w: World, e: Event): World
  {
    match e
    case Enter(r, path, newLock) =>
      var lock := Entered(w, path, newLock);
      World(w.items[path := lock], w.users[lock := (if lock in w.users then w.users[lock] else 0) + 1], w.held,
            w.routines[r := Routine(path, lock, Waiting)])
    case Acquire(r) =>
      if r in w.routines then w.(held := w.held + {w.routines[r].lock}, routines := w.routines[r := w.routines[r].(phase := Inside)]) else w
    case Unlock(r) =>
      if r in w.routines then w.(held := w.held - {w.routines[r].lock}, routines := w.routines[r := w.routines[r].(phase := Leaving)]) else w
    case Leave(r) =>
      if r in w.routines && w.routines[r].lock in w.users then
        var lock, path := w.routines[r].lock, w.routines[r].path;
        var left := w.users[lock] - 1;
        World(if left == 0 && path in w.items && w.items[path] == lock then w.items - {path} else w.items,
              w.users[lock := left], w.held, w.routines - {r})
      else w
  }

  // ------------------------------------------------------------------------------ invariants

  function Users(routines: map<nat, Routine>, lock: LockId): set<nat>
  {
    set r | r in routines && routines[r].lock == lock
  }

  /** The count of a lock object is the number of routines between enter and leave. */
  ghost predicate CountsInv(users: map<LockId, int>, routines: map<nat, Routine>)
  {
    forall lock :: lock in users ==> users[lock] == |Users(routines, lock)|
  }

  predicate Registered(items: map<Path, LockId>, users: map<LockId, int>, routine: Routine)
  {
    routine.path in items && items[routine.path] == routine.lock && routine.lock in users
  }

  /** Every routine uses the lock object that the map holds for its path. */
  ghost predicate RoutinesInv(items: map<Path, LockId>, users: map<LockId, int>, routines: map<nat, Routine>)
  {
    forall r :: r in routines ==> Registered(items, users, routines[r])
  }

  predicate InUse(users: map<LockId, int>, lock: LockId)
  {
    lock in users && users[lock] > 0
  }

  /** The map holds no object without users, and no object for two paths. */
  ghost predicate ItemsInv(items: map<Path, LockId>, users: map<LockId, int>)
  {
    && (forall path :: path in items ==> InUse(users, items[path]))
    && (forall p, q :: p in items && q in items && items[p] == items[q] ==> p == q)
  }

  predicate Locked(held: set<LockId>, routine: Routine)
  {
    routine.phase == Inside ==> routine.lock in held
  }

  predicate Apart(a: Routine, b: Routine)
  {
    a.phase == Inside && b.phase == Inside ==> a.lock != b.lock
  }

  /** A routine inside holds its mutex, and no other routine inside has the same. */
  ghost predicate HeldInv(held: set<LockId>, routines: map<nat, Routine>)
  {
    && (forall r :: r in routines ==> Locked(held, routines[r]))
    && (forall a, b :: a in routines && b in routines && a != b ==> Apart(routines[a], routines[b]))
  }

  ghost predicate Inv(w: World)
  {
    && CountsInv(w.users, w.routines) && RoutinesInv(w.items, w.users, w.routines)
    && ItemsInv(w.items, w.users) && HeldInv(w.held, w.routines)
  }

  lemma OneMoreUser(routines: map<nat, Routine>, r: nat, routine: Routine, lock: LockId)
    requires r !in routines
    ensures |Users(routines[r := routine], lock)| == |Users(routines, lock)| + if routine.lock == lock then 1 else 0
  {
    var us := Users(routines, lock);
    assert Users(routines[r := routine], lock) == us + if routine.lock == lock then {r} else {};
  }

  lemma SameUsers(routines: map<nat, Routine>, r: nat, phase: Phase, lock: LockId)
    requires r in routines
    ensures Users(routines[r := routines[r].(phase := phase)], lock) == Users(routines, lock)
  {}

  lemma OneLessUser(routines: map<nat, Routine>, r: nat, lock: LockId)
    requires r in routines
    ensures |Users(routines - {r}, lock)| == |Users(routines, lock)| - if routines[r].lock == lock then 1 else 0
  {
    var us := Users(routines, lock);
    assert Users(routines - {r}, lock) == us - if routines[r].lock == lock then {r} else {};
    assert routines[r].lock == lock ==> r in us;
  }

  lemma EnterCounts(users: map<LockId, int>, routines: map<nat, Routine>, r: nat, routine: Routine)
    requires CountsInv(users, routines) && r !in routines
    requires routine.lock !in users ==> Users(routines, routine.lock) == {}
    ensures CountsInv(users[routine.lock := (if routine.lock in users then users[routine.lock] else 0) + 1], routines[r := routine])
  {
    var now := users[routine.lock := (if routine.lock in users then users[routine.lock] else 0) + 1];
    forall l | l in now ensures now[l] == |Users(routines[r := routine], l)| {
      OneMoreUser(routines, r, routine, l);
    }
  }

  lemma EnterItems(items: map<Path, LockId>, users: map<LockId, int>, now: map<LockId, int>, path: Path, lock: LockId)
    requires ItemsInv(items, users) && (forall l :: l in users ==> l in now && now[l] >= users[l]) && InUse(now, lock)
    requires if path in items then lock == items[path] else forall p :: p in items ==> items[p] != lock
    ensures ItemsInv(items[path := lock], now)
  {
    var next := items[path := lock];
    forall p | p in next ensures InUse(now, next[p]) {
      assert p in items ==> InUse(users, items[p]);
    }
  }

  lemma EnterRegisters(w: World, path: Path, newLock: LockId, r: nat)
    requires RoutinesInv(w.items, w.users, w.routines)
    ensures var n := Next(w, Enter(r, path, newLock)); RoutinesInv(n.items, n.users, n.routines)
  {
    var n := Next(w, Enter(r, path, newLock));
    forall x | x in n.routines ensures Registered(n.items, n.users, n.routines[x]) {
      assert x in w.routines ==> Registered(w.items, w.users, w.routines[x]);
    }
  }

  /** The entered object is the map's for the path, or new to everyone. */
  lemma EnterFits(w: World, path: Path, newLock: LockId)
    requires Inv(w) && newLock !in w.users
    ensures
      var lock := Entered(w, path, newLock);
      && (lock !in w.users ==> Users(w.routines, lock) == {})
      && (lock in w.users ==> w.users[lock] >= 0)
      && (path !in w.items ==> forall p :: p in w.items ==> w.items[p] != lock)
  {
    if path !in w.items {
      Unused(w, newLock);
    } else {
      assert InUse(w.users, w.items[path]);
    }
  }

  lemma EnterKeeps(w: World, e: Event)
    requires Inv(w) && e.Enter? && Enabled(w, e)
    ensures Inv(Next(w, e))
  {
    var lock := Entered(w, e.path, e.newLock);
    var routine := Routine(e.path, lock, Waiting);
    EnterFits(w, e.path, e.newLock);
    EnterCounts(w.users, w.routines, e.routine, routine);
    EnterItems(w.items, w.users, Next(w, e).users, e.path, lock);
    EnterRegisters(w, e.path, e.newLock, e.routine);
    NewWaits(w.held, w.routines, e.routine, routine);
  }

  lemma NewWaits(held: set<LockId>, routines: map<nat, Routine>, r: nat, routine: Routine)
    requires HeldInv(held, routines) && r !in routines && routine.phase == Waiting
    ensures HeldInv(held, routines[r := routine])
  {
    var now := routines[r := routine];
    forall a, b | a in now && b in now && a != b ensures Apart(now[a], now[b]) {
      assert a != r && b != r ==> Apart(routines[a], routines[b]);
    }
    forall a | a in now ensures Locked(held, now[a]) {
      assert a != r ==> Locked(held, routines[a]);
    }
  }

  lemma Unused(w: World, lock: LockId)
    requires Inv(w) && lock !in w.users
    ensures Users(w.routines, lock) == {}
    ensures forall path :: path in w.items ==> w.items[path] != lock
  {
    forall r | r in w.routines ensures w.routines[r].lock != lock {
      assert Registered(w.items, w.users, w.routines[r]);
    }
    forall path | path in w.items ensures w.items[path] != lock {
      assert InUse(w.users, w.items[path]);
    }
  }

  lemma PhaseHolds(w: World, e: Event)
    requires HeldInv(w.held, w.routines) && (e.Acquire? || e.Unlock?) && Enabled(w, e)
    ensures HeldInv(Next(w, e).held, Next(w, e).routines)
  {
    var n := Next(w, e);
    var r := e.routine;
    forall x | x in n.routines ensures Locked(n.held, n.routines[x]) {
      assert Locked(w.held, w.routines[x]);
      assert x != r ==> Apart(w.routines[x], w.routines[r]);
    }
    forall a, b | a in n.routines && b in n.routines && a != b ensures Apart(n.routines[a], n.routines[b]) {
      assert Apart(w.routines[a], w.routines[b]) && Locked(w.held, w.routines[a]) && Locked(w.held, w.routines[b]);
    }
  }

  lemma PhaseKeeps(w: World, e: Event)
    requires Inv(w) && (e.Acquire? || e.Unlock?) && Enabled(w, e)
    ensures Inv(Next(w, e))
  {
    var n := Next(w, e);
    var r := e.routine;
    PhaseHolds(w, e);
    forall l | l in n.users ensures n.users[l] == |Users(n.routines, l)| {
      SameUsers(w.routines, r, if e.Acquire? then Inside else Leaving, l);
    }
    forall x | x in n.routines ensures Registered(n.items, n.users, n.routines[x]) {
      assert Registered(w.items, w.users, w.routines[x]);
    }
  }

  lemma LeaveKeeps(w: World, e: Event)
    requires Inv(w) && e.Leave? && Enabled(w, e)
    ensures Inv(Next(w, e))
  {
    var n := Next(w, e);
    var r := e.routine;
    assert Registered(w.items, w.users, w.routines[r]);
    forall l | l in n.users ensures n.users[l] == |Users(n.routines, l)| {
      OneLessUser(w.routines, r, l);
    }
    LeaveRegisters(w, e);
    forall p | p in n.items ensures InUse(n.users, n.items[p]) {
      assert InUse(w.users, w.items[p]);
    }
    assert HeldInv(n.held, n.routines);
  }

  /** A lock that still has users stays in the map. */
  lemma LeaveRegisters(w: World, e: Event)
    requires RoutinesInv(w.items, w.users, w.routines) && e.Leave? && Enabled(w, e)
    requires CountsInv(Next(w, e).users, Next(w, e).routines)
    ensures RoutinesInv(Next(w, e).items, Next(w, e).users, Next(w, e).routines)
  {
    var n := Next(w, e);
    var gone := w.routines[e.routine];
    assert Registered(w.items, w.users, gone);
    forall x | x in n.routines ensures Registered(n.items, n.users, n.routines[x]) {
      assert n.routines[x] == w.routines[x] && Registered(w.items, w.users, w.routines[x]);
      if w.routines[x].lock == gone.lock {
        assert x in Users(n.routines, gone.lock);
      }
    }
  }

  // ------------------------------------------------------------------------------ whole runs

  ghost predicate Execution(ws: seq<World>, events: seq<Event>)
  {
    && |ws| == |events| + 1 && ws[0] == World(map[], map[], {}, map[])
    && forall i :: 0 <= i < |events| ==> Enabled(ws[i], events[i]) && ws[i + 1] == Next(ws[i], events[i])
  }

  lemma {:induction false} Reachable(ws: seq<World>, events: seq<Event>, i: nat)
    requires Execution(ws, events) && i < |ws|
    ensures Inv(ws[i])
  {
    if i > 0 {
      Reachable(ws, events, i - 1);
      assert ws[i - 1 + 1] == Next(ws[i - 1], events[i - 1]);
      match events[i - 1]
      case Enter(_, _, _) => EnterKeeps(ws[i - 1], events[i - 1]);
      case Acquire(_) => PhaseKeeps(ws[i - 1], events[i - 1]);
      case Unlock(_) => PhaseKeeps(ws[i - 1], events[i - 1]);
      case Leave(_) => LeaveKeeps(ws[i - 1], events[i - 1]);
    }
  }

  /** At most one routine per path is in the critical section. */
  lemma MutualExclusion(ws: seq<World>, events: seq<Event>, i: nat, a: nat, b: nat)
    requires Execution(ws, events) && i < |ws|
    requires At(ws[i], a, Inside) && At(ws[i], b, Inside) && ws[i].routines[a].path == ws[i].routines[b].path
    ensures a == b
  {
    Reachable(ws, events, i);
    assert Registered(ws[i].items, ws[i].users, ws[i].routines[a]) && Registered(ws[i].items, ws[i].users, ws[i].routines[b]);
    assert a != b ==> Apart(ws[i].routines[a], ws[i].routines[b]);
  }

  /** The map keeps a lock object for a path exactly while some routine uses the path. */
  lemma ObjectsLiveWithTheirUsers(ws: seq<World>, events: seq<Event>, i: nat, path: Path)
    requires Execution(ws, events) && i < |ws|
    ensures path in ws[i].items <==> exists r :: r in ws[i].routines && ws[i].routines[r].path == path
  {
    Reachable(ws, events, i);
    var w := ws[i];
    if path in w.items {
      assert InUse(w.users, w.items[path]);
      assert Users(w.routines, w.items[path]) != {};
      var r :| r in Users(w.routines, w.items[path]);
      assert Registered(w.items, w.users, w.routines[r]);
    }
    forall r | r in w.routines && w.routines[r].path == path ensures path in w.items {
      assert Registered(w.items, w.users, w.routines[r]);
    }
  }
}
