/** The shared execution budget of concurrent searches (index/execution.go).

Every critical section of `reserveSearchPage` and of the `finish` closure is one atomic
step.  A channel is named by its generation: `finish` closes the current channel and
makes a new one, so exactly the channels of earlier generations are closed. */
module Budget {

  const DEFAULT_CANDIDATES := 10000
  const DEFAULT_PAGES := 100

  datatype Shared = Shared(candidates: int, pages: int, inFlight: int, generation: nat)

  datatype Outcome =
    | Granted(reserved: int)
    | Stopped(reason: Reason)
    | Blocked(channel: nat)

  datatype Reason = Pages | Candidates

  function Least(a: int, b: int): int
  {
    if a > b then b else a
  }

  /** One pass through the critical section of `reserveSearchPage`. */
  function Pass(s: Shared, requested: int): (r: (Shared, Outcome))
  {
    if s.pages == 0 then (s, Stopped(Pages))
    else if s.candidates > 0 then
      var reserved := Least(requested, s.candidates);
      (s.(candidates := s.candidates - reserved, pages := s.pages - 1, inFlight := s.inFlight + 1), Granted(reserved))
    else if s.inFlight == 0 then (s, Stopped(Candidates))
    else (s, Blocked(s.generation))
  }

  function Refund(reserved: int, actual: int): int
  {
    if 0 <= actual < reserved then reserved - actual else 0
  }

  /** `finish(actual)` for a reservation: refund, wake every waiter. */
  function Finished(s: Shared, reserved: int, actual: int): Shared
  {
    Shared(s.candidates + Refund(reserved, actual), s.pages, s.inFlight - 1, s.generation + 1)
  }

  // ------------------------------------------------------------------ any number of searches

  /** A reservation, and once finished what it gave back. */
  datatype Reservation = Reservation(reserved: int, refund: int, open: bool)

  /** Searches waiting on a channel, and every reservation ever granted. */
  datatype World = World(shared: Shared, initial: int, maxPages: int, log: seq<Reservation>, waiting: map<nat, nat>)

  datatype Event =
    | Enter(search: nat, requested: int)
    | Finish(reservation: nat, actual: int)
    | Leave(search: nat)

  /** A search enters afresh, or again once its channel is closed. */
  predicate Enabled(w: World, e: Event)
  {
    match e
    case Enter(search, requested) => requested >= 1 && (search in w.waiting ==> w.waiting[search] < w.shared.generation)
    case Finish(n, _) => n < |w.log| && w.log[n].open
    case Leave(search) => search in w.waiting
  }

  function Next(w: World, e: Event): World
    requires Enabled(w, e)
  {
    match e
    case Enter(search, requested) =>
      var (shared, outcome) := Pass(w.shared, requested);
      w.(shared := shared,
         log := if outcome.Granted? then w.log + [Reservation(outcome.reserved, 0, true)] else w.log,
         waiting := if outcome.Blocked? then w.waiting[search := outcome.channel] else w.waiting - {search})
    case Finish(n, actual) =>
      var r := w.log[n];
      w.(shared := Finished(w.shared, r.reserved, actual),
         log := w.log[n := Reservation(r.reserved, Refund(r.reserved, actual), false)])
    case Leave(search) => w.(waiting := w.waiting - {search})
  }

  predicate Start(w: World)
  {
    w.initial > 0 && w.maxPages > 0 && w.shared == Shared(w.initial, w.maxPages, 0, 0) && w.log == [] && w.waiting == map[]
  }

  /** Candidates reserved by unfinished pages. */
  function InFlight(log: seq<Reservation>): int
  {
    if log == [] then 0
    else InFlight(log[..|log| - 1]) + if log[|log| - 1].open then log[|log| - 1].reserved else 0
  }

  /** Candidates finished pages really used. */
  function Consumed(log: seq<Reservation>): int
  {
    if log == [] then 0
    else Consumed(log[..|log| - 1]) + if log[|log| - 1].open then 0 else log[|log| - 1].reserved - log[|log| - 1].refund
  }

  function OpenCount(log: seq<Reservation>): nat
  {
    if log == [] then 0
    else OpenCount(log[..|log| - 1]) + if log[|log| - 1].open then 1 else 0
  }

  ghost predicate Inv(w: World)
  {
    && Adds(w.shared, w.initial, w.maxPages, w.log) && AllSound(w.log)
    && Waits(w.waiting, w.shared.generation, w.shared.inFlight)
  }

  /** The counters agree with the reservations. */
  ghost predicate Adds(s: Shared, initial: int, maxPages: int, log: seq<Reservation>)
  {
    && s.candidates >= 0 && s.pages >= 0
    && s.candidates + InFlight(log) + Consumed(log) == initial
    && s.pages + |log| == maxPages
    && s.inFlight == OpenCount(log)
  }

  ghost predicate AllSound(log: seq<Reservation>)
  {
    forall n :: 0 <= n < |log| ==> Sound(log[n])
  }

  ghost predicate Waits(waiting: map<nat, nat>, generation: nat, inFlight: int)
  {
    forall search :: search in waiting ==> Wakes(waiting[search], generation, inFlight)
  }

  /** What a page gave back is no more than it had reserved. */
  predicate Sound(r: Reservation)
  {
    0 <= r.refund <= r.reserved && 1 <= r.reserved
  }

  /** The channel is closed already, or it is the current one and an unfinished page will close it. */
  predicate Wakes(channel: nat, generation: nat, inFlight: int)
  {
    channel < generation || (channel == generation && inFlight > 0)
  }

  lemma Appended(log: seq<Reservation>, r: Reservation)
    ensures InFlight(log + [r]) == InFlight(log) + if r.open then r.reserved else 0
    ensures Consumed(log + [r]) == Consumed(log) + if r.open then 0 else r.reserved - r.refund
    ensures OpenCount(log + [r]) == OpenCount(log) + if r.open then 1 else 0
  {
    assert (log + [r])[..|log|] == log;
  }

  lemma {:induction false} Closed(log: seq<Reservation>, n: nat, refund: int)
    requires n < |log| && log[n].open
    ensures var after := log[n := Reservation(log[n].reserved, refund, false)];
      && InFlight(after) == InFlight(log) - log[n].reserved
      && Consumed(after) == Consumed(log) + log[n].reserved - refund
      && OpenCount(after) == OpenCount(log) - 1
  {
    var last := |log| - 1;
    var after := log[n := Reservation(log[n].reserved, refund, false)];
    if n == last {
      assert after[..last] == log[..last];
    } else {
      Closed(log[..last], n, refund);
      assert after[..last] == log[..last][n := after[n]];
    }
  }

  lemma {:induction false} SumsAreNatural(log: seq<Reservation>)
    requires AllSound(log)
    ensures InFlight(log) >= 0 && Consumed(log) >= 0
    ensures OpenCount(log) == 0 ==> InFlight(log) == 0
    ensures (forall n :: 0 <= n < |log| ==> !log[n].open) <==> OpenCount(log) == 0
  {
    if log != [] {
      var rest := log[..|log| - 1];
      SumsAreNatural(rest);
      assert forall n :: 0 <= n < |rest| ==> rest[n] == log[n];
    }
  }

  lemma EnterAdds(w: World, e: Event)
    requires Inv(w) && Enabled(w, e) && e.Enter?
    ensures Adds(Next(w, e).shared, w.initial, w.maxPages, Next(w, e).log) && AllSound(Next(w, e).log)
  {
    var outcome := Pass(w.shared, e.requested).1;
    if outcome.Granted? {
      Appended(w.log, Reservation(outcome.reserved, 0, true));
    }
  }

  lemma EnterKeeps(w: World, e: Event)
    requires Inv(w) && Enabled(w, e) && e.Enter?
    ensures Inv(Next(w, e))
  {
    EnterAdds(w, e);
    forall search | search in Next(w, e).waiting
      ensures Wakes(Next(w, e).waiting[search], Next(w, e).shared.generation, Next(w, e).shared.inFlight)
    {
      assert search in w.waiting ==> Wakes(w.waiting[search], w.shared.generation, w.shared.inFlight);
      NonNegative(w.log);
    }
  }

  lemma NonNegative(log: seq<Reservation>)
    ensures OpenCount(log) >= 0
  {}

  lemma FinishKeeps(w: World, e: Event)
    requires Inv(w) && Enabled(w, e) && e.Finish?
    ensures Inv(Next(w, e))
  {
    Closed(w.log, e.reservation, Refund(w.log[e.reservation].reserved, e.actual));
    assert Sound(w.log[e.reservation]);
    forall search | search in w.waiting ensures Wakes(w.waiting[search], w.shared.generation + 1, w.shared.inFlight - 1) {
      assert Wakes(w.waiting[search], w.shared.generation, w.shared.inFlight);
    }
  }

  lemma NextKeeps(w: World, e: Event)
    requires Inv(w) && Enabled(w, e)
    ensures Inv(Next(w, e))
  {
    match e
    case Enter(_, _) => EnterKeeps(w, e);
    case Finish(_, _) => FinishKeeps(w, e);
    case Leave(_) =>
  }

  ghost predicate Execution(ws: seq<World>, es: seq<Event>)
  {
    && |ws| == |es| + 1
    && Start(ws[0])
    && forall i :: 0 <= i < |es| ==> Enabled(ws[i], es[i]) && ws[i + 1] == Next(ws[i], es[i])
  }

  lemma {:induction false} Reachable(ws: seq<World>, es: seq<Event>, i: nat)
    requires Execution(ws, es) && i < |ws|
    ensures Inv(ws[i]) && ws[i].initial == ws[0].initial && ws[i].maxPages == ws[0].maxPages
  {
    if i > 0 {
      Reachable(ws, es, i - 1);
      assert ws[i - 1 + 1] == Next(ws[i - 1], es[i - 1]);
      NextKeeps(ws[i - 1], es[i - 1]);
    }
  }

  /** Free, in-flight and consumed candidates always add up to the initial budget, none of
  them negative, and there are never more reservations than pages. */
  lemma BudgetIsConserved(ws: seq<World>, es: seq<Event>, i: nat)
    requires Execution(ws, es) && i < |ws|
    ensures ws[i].shared.candidates + InFlight(ws[i].log) + Consumed(ws[i].log) == ws[0].initial
    ensures ws[i].shared.candidates >= 0 && InFlight(ws[i].log) >= 0 && Consumed(ws[i].log) >= 0
    ensures |ws[i].log| <= ws[0].maxPages && ws[i].shared.inFlight == OpenCount(ws[i].log)
  {
    Reachable(ws, es, i);
    SumsAreNatural(ws[i].log);
  }

  /** A search is stopped for "candidates" only when the whole budget was consumed, and for
  "pages" only when every page was granted. */
  lemma StopsAreTrue(ws: seq<World>, es: seq<Event>, i: nat, requested: int)
    requires Execution(ws, es) && i < |ws|
    ensures Pass(ws[i].shared, requested).1 == Stopped(Candidates) ==> Consumed(ws[i].log) == ws[0].initial
    ensures Pass(ws[i].shared, requested).1 == Stopped(Pages) ==> |ws[i].log| == ws[0].maxPages
  {
    Reachable(ws, es, i);
    SumsAreNatural(ws[i].log);
  }

  /** Every waiter's channel is closed already, or some reservation is unfinished and
  whichever finishes first wakes it. */
  lemma NoLostWakeup(ws: seq<World>, es: seq<Event>, i: nat, search: nat, n: nat, actual: int)
    requires Execution(ws, es) && i < |ws| && search in ws[i].waiting
    ensures ws[i].waiting[search] < ws[i].shared.generation || exists m :: 0 <= m < |ws[i].log| && ws[i].log[m].open
    ensures Enabled(ws[i], Finish(n, actual)) ==>
      Enabled(Next(ws[i], Finish(n, actual)), Enter(search, 1))
  {
    Reachable(ws, es, i);
    SumsAreNatural(ws[i].log);
  }

  // -------------------------------------------------------------------- the shared object

  class Channel {
    var closed: bool

    constructor ()
      ensures !closed
    {
      closed := false;
    }
  }

  class State {
    var candidates: int
    var pages: int
    var inFlight: int
    var changed: Channel
    var generation: nat  // names `changed`

    function View(): Shared
      reads this
    {
      Shared(candidates, pages, inFlight, generation)
    }

    /** `WithSearchBudget` on a context that has no budget yet. */
    constructor (maxCandidates: int, maxPages: int)
      ensures View() == Shared(if maxCandidates <= 0 then DEFAULT_CANDIDATES else maxCandidates,
                               if maxPages <= 0 then DEFAULT_PAGES else maxPages, 0, 0)
      ensures fresh(changed) && !changed.closed
    {
      candidates := if maxCandidates <= 0 then DEFAULT_CANDIDATES else maxCandidates;
      pages := if maxPages <= 0 then DEFAULT_PAGES else maxPages;
      inFlight := 0;
      generation := 0;
      changed := new Channel();
    }

    method Reserve(requested: int) returns (outcome: Outcome, wait: Channel)
      modifies this
      ensures (View(), outcome) == Pass(old(View()), requested)
      ensures wait == old(changed) == changed
    {
      wait := changed;
      if pages == 0 {
        return Stopped(Pages), wait;
      }
      if candidates > 0 {
        var reserved := requested;
        if requested > candidates {
          reserved := candidates;
        }
        candidates := candidates - reserved;
        pages := pages - 1;
        inFlight := inFlight + 1;
        return Granted(reserved), wait;
      }
      if inFlight == 0 {
        return Stopped(Candidates), wait;
      }
      return Blocked(generation), wait;
    }

    method Finish(reserved: int, actual: int)
      modifies this, changed
      ensures View() == Finished(old(View()), reserved, actual)
      ensures old(changed).closed && fresh(changed) && !changed.closed
    {
      if actual >= 0 && actual < reserved {
        candidates := candidates + (reserved - actual);
      }
      inFlight := inFlight - 1;
      changed.closed := true;
      changed := new Channel();
      generation := generation + 1;
    }
  }
}
