/** Refreshes, searches and Close on the published State projections (index/state.go,
index/search.go, index/index.go).

The read-write lock is in the events: a search holds it shared from begin to end, so publication
and Close only happen when no search is in progress.  Building happens outside the lock, one
refresh at a time; retiring the replaced store happens after it. */
module StatePublication {
  import opened Kernel
  import opened ServingState

  type Key = string
  type StoreId = nat

  datatype Slot = Slot(db: Records, open: bool)

  /** The provider's generation: from which store it was built, and what was appended to it. */
  datatype Generation = Generation(store: StoreId, docs: Records)

  datatype Build = Idle | Filling(key: Key, store: StoreId) | Staged(key: Key, store: StoreId) | Retiring(replaced: StoreId)

  datatype Search = Search(key: Key, store: StoreId)

  datatype World = World(
    stores: map<StoreId, Slot>, states: map<Key, StoreId>, providers: map<Key, Generation>,
    build: Build, searches: map<nat, Search>)

  datatype Event =
    | StartRefresh(key: Key, store: StoreId)
    | Fill(db: Records)
    | Stage
    | Publish
    | Retire
    | FailRefresh
    | BeginSearch(search: nat, key: Key)
    | EndSearch(search: nat)
    | CloseIndex

  ghost predicate Enabled(w: World, e: Event)
  {
    match e
    case StartRefresh(key, store) => w.build.Idle? && store !in w.stores
    case Fill(db) => w.build.Filling?
    case Stage => w.build.Filling?
    case Publish => w.build.Staged? && w.searches == map[]
    case Retire => w.build.Retiring?
    case FailRefresh => w.build.Filling? || w.build.Staged?
    case BeginSearch(search, key) => search !in w.searches && key in w.states
    case EndSearch(search) => search in w.searches
    case CloseIndex => w.searches == map[]
  }

  function Closed(stores: map<StoreId, Slot>, which: set<StoreId>): map<StoreId, Slot>
  {
    map id | id in stores :: if id in which then stores[id].(open := false) else stores[id]
  }

  function Published(states: map<Key, StoreId>): set<StoreId>
  {
    set key | key in states :: states[key]
  }

  function Next(w: World, e: Event): World
  {
    match e
    case StartRefresh(key, store) => w.(stores := w.stores[store := Slot(map[], true)], build := Filling(key, store))
    case Fill(db) =>
      if w.build.Filling? && w.build.store in w.stores then w.(stores := w.stores[w.build.store := w.stores[w.build.store].(db := db)]) else w
    case Stage => if w.build.Filling? then w.(build := Staged(w.build.key, w.build.store)) else w
    case Publish =>
      if w.build.Staged? && w.build.store in w.stores then
        var key, store := w.build.key, w.build.store;
        w.(providers := w.providers[key := Generation(store, w.stores[store].db)], states := w.states[key := store],
           build := if key in w.states then Retiring(w.states[key]) else Idle)
      else w
    case Retire => if w.build.Retiring? then w.(stores := Closed(w.stores, {w.build.replaced}), build := Idle) else w
    case FailRefresh =>
      if w.build.Filling? || w.build.Staged? then w.(stores := Closed(w.stores, {w.build.store}), build := Idle) else w
    case BeginSearch(search, key) => if key in w.states then w.(searches := w.searches[search := Search(key, w.states[key])]) else w
    case EndSearch(search) => w.(searches := w.searches - {search})
    case CloseIndex => w.(stores := Closed(w.stores, Published(w.states)), states := map[])
  }

  // ------------------------------------------------------------------------------ invariants

  /** A published pair: an open store, and the provider's generation built from just that store. */
  predicate Paired(stores: map<StoreId, Slot>, states: map<Key, StoreId>, providers: map<Key, Generation>, key: Key)
    requires key in states
  {
    var store := states[key];
    store in stores && stores[store].open && key in providers && providers[key] == Generation(store, stores[store].db)
  }

  ghost predicate PairsInv(stores: map<StoreId, Slot>, states: map<Key, StoreId>, providers: map<Key, Generation>)
  {
    forall key :: key in states ==> Paired(stores, states, providers, key)
  }

  /** No store serves two keys. */
  ghost predicate OwnStores(states: map<Key, StoreId>)
  {
    forall a, b :: a in states && b in states && states[a] == states[b] ==> a == b
  }

  ghost predicate Unpublished(states: map<Key, StoreId>, store: StoreId)
  {
    forall key :: key in states ==> states[key] != store
  }

  ghost predicate BuildInv(stores: map<StoreId, Slot>, states: map<Key, StoreId>, build: Build)
  {
    match build
    case Idle => true
    case Filling(_, store) => store in stores && stores[store].open && Unpublished(states, store)
    case Staged(_, store) => store in stores && stores[store].open && Unpublished(states, store)
    case Retiring(replaced) => Unpublished(states, replaced)
  }

  /** A search in progress uses what is published. */
  ghost predicate SearchesInv(states: map<Key, StoreId>, searches: map<nat, Search>)
  {
    forall s :: s in searches ==> searches[s].key in states && states[searches[s].key] == searches[s].store
  }

  ghost predicate Inv(w: World)
  {
    && PairsInv(w.stores, w.states, w.providers) && OwnStores(w.states)
    && BuildInv(w.stores, w.states, w.build) && SearchesInv(w.states, w.searches)
  }

  /** Storing or closing something unpublished leaves the published pairs alone. */
  lemma PairsSurvive(w: World, stores: map<StoreId, Slot>, touched: StoreId)
    requires PairsInv(w.stores, w.states, w.providers) && Unpublished(w.states, touched)
    requires forall id :: id in w.stores && id != touched ==> id in stores && stores[id] == w.stores[id]
    ensures PairsInv(stores, w.states, w.providers)
  {
    forall key | key in w.states ensures Paired(stores, w.states, w.providers, key) {
      assert Paired(w.stores, w.states, w.providers, key);
    }
  }

  lemma PublishKeeps(w: World)
    requires Inv(w) && Enabled(w, Publish)
    ensures Inv(Next(w, Publish))
  {
    var n := Next(w, Publish);
    var key, store := w.build.key, w.build.store;
    forall k | k in n.states ensures Paired(n.stores, n.states, n.providers, k) {
      assert k != key ==> Paired(w.stores, w.states, w.providers, k);
    }
  }

  lemma NextKeeps(w: World, e: Event)
    requires Inv(w) && Enabled(w, e)
    ensures Inv(Next(w, e))
  {
    var n := Next(w, e);
    match e
    case StartRefresh(key, store) =>
      forall k | k in w.states ensures w.states[k] != store { assert Paired(w.stores, w.states, w.providers, k); }
      PairsSurvive(w, n.stores, store);
    case Fill(db) => PairsSurvive(w, n.stores, w.build.store);
    case Stage =>
    case Publish => PublishKeeps(w);
    case Retire => PairsSurvive(w, n.stores, w.build.replaced);
    case FailRefresh => PairsSurvive(w, n.stores, w.build.store);
    case BeginSearch(search, key) =>
    case EndSearch(search) =>
    case CloseIndex =>
      assert BuildInv(n.stores, n.states, n.build) by { ClosePublishedOnly(w); }
  }

  lemma ClosePublishedOnly(w: World)
    requires BuildInv(w.stores, w.states, w.build)
    ensures BuildInv(Closed(w.stores, Published(w.states)), map[], w.build)
  {}

  // ------------------------------------------------------------------------------ whole runs

  ghost predicate Initial(w: World)
  {
    w.states == map[] && w.build.Idle? && w.searches == map[]
  }

  ghost predicate Execution(ws: seq<World>, events: seq<Event>)
  {
    && |ws| == |events| + 1 && Initial(ws[0])
    && forall i :: 0 <= i < |events| ==> Enabled(ws[i], events[i]) && ws[i + 1] == Next(ws[i], events[i])
  }

  lemma {:induction false} Reachable(ws: seq<World>, events: seq<Event>, i: nat)
    requires Execution(ws, events) && i < |ws|
    ensures Inv(ws[i])
  {
    if i > 0 {
      Reachable(ws, events, i - 1);
      assert ws[i - 1 + 1] == Next(ws[i - 1], events[i - 1]);
      NextKeeps(ws[i - 1], events[i - 1]);
    }
  }

  /** In any interleaving of refreshes, searches and Close: a search works on an open store, and
  the provider generation beside it was built from that store and no other. */
  lemma SearchUsesOneRefresh(ws: seq<World>, events: seq<Event>, i: nat, s: nat)
    requires Execution(ws, events) && i < |ws| && s in ws[i].searches
    ensures
      var w, search := ws[i], ws[i].searches[s];
      && search.store in w.stores && w.stores[search.store].open
      && search.key in w.providers && w.providers[search.key] == Generation(search.store, w.stores[search.store].db)
  {
    Reachable(ws, events, i);
    assert Paired(ws[i].stores, ws[i].states, ws[i].providers, ws[i].searches[s].key);
  }

  /** What a search in progress sees does not change under it. */
  predicate SameView(a: World, b: World, s: nat)
  {
    s in a.searches && s in b.searches ==>
      var x := a.searches[s];
      && b.searches[s] == x && x.store in a.stores && x.store in b.stores && a.stores[x.store] == b.stores[x.store]
      && x.key in a.providers && x.key in b.providers && a.providers[x.key] == b.providers[x.key]
  }

  lemma StepKeepsView(w: World, e: Event, s: nat)
    requires Inv(w) && Enabled(w, e)
    ensures SameView(w, Next(w, e), s)
  {
    if s in w.searches {
      assert Paired(w.stores, w.states, w.providers, w.searches[s].key);
    }
  }

  lemma StepView(ws: seq<World>, events: seq<Event>, k: nat, s: nat)
    requires Execution(ws, events) && k + 1 < |ws|
    ensures SameView(ws[k], ws[k + 1], s)
  {
    Reachable(ws, events, k);
    StepKeepsView(ws[k], events[k], s);
  }

  lemma {:induction false} ChainView(ws: seq<World>, i: nat, j: nat, s: nat)
    requires i <= j < |ws| && s in ws[i].searches && SameView(ws[i], ws[i], s)
    requires forall k :: i <= k <= j ==> s in ws[k].searches
    requires forall k :: i <= k && k + 1 < |ws| ==> SameView(ws[k], ws[k + 1], s)
    ensures SameView(ws[i], ws[j], s)
    decreases j
  {
    if i < j {
      ChainView(ws, i, j - 1, s);
      assert SameView(ws[j - 1], ws[j - 1 + 1], s);
    }
  }

  /** For as long as a search runs, its store, its generation and their contents stay the same. */
  lemma ViewIsStable(ws: seq<World>, events: seq<Event>, i: nat, j: nat, s: nat)
    requires Execution(ws, events) && i <= j < |ws|
    requires forall k :: i <= k <= j ==> s in ws[k].searches
    ensures SameView(ws[i], ws[j], s)
  {
    SearchUsesOneRefresh(ws, events, i, s);
    forall k | i <= k && k + 1 < |ws| ensures SameView(ws[k], ws[k + 1], s) {
      StepView(ws, events, k, s);
    }
    ChainView(ws, i, j, s);
  }

  /** A refresh that has not published yet, or fails, leaves every published pair as it is. */
  lemma OnlyPublicationChangesPairs(w: World, e: Event, key: Key)
    requires Inv(w) && Enabled(w, e) && !e.Publish? && !e.CloseIndex? && key in w.states
    ensures
      var n := Next(w, e);
      && n.states == w.states && n.providers == w.providers
      && n.states[key] in n.stores && n.stores[n.states[key]] == w.stores[w.states[key]]
  {
    assert Paired(w.stores, w.states, w.providers, key);
  }
}
