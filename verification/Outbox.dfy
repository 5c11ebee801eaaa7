/** The durable outbox of post hooks and the dispatch that fills it (hook/outbox.go,
hook/dispatch.go). */
module Outbox {
  import opened Kernel

  datatype Binding = Binding(id: string, on: string, phase: string, repo: string, catalog: string, run: string, url: string)

  datatype Event = Event(action: string, phase: string, repo: string, catalog: string, commandId: string)

  /** `queuedAt` tells one queued item from another. */
  datatype Item = Item(binding: Binding, event: Event, error: Option<ErrorCode>, queuedAt: nat)

  /** A line of the file: an item, or what a torn append left. */
  datatype Line = Entry(item: Item) | Torn

  const PRE := "pre"
  const POST := "post"

  /** The outcome of each delivery attempt of one call, in order. */
  type Answers = nat -> Option<ErrorCode>

  /** A delivery that succeeded: of the queued item, or of the dispatched event, with this ticket. */
  datatype Delivery = Delivery(binding: Binding, event: Event, ticket: nat)

  function DeliveryOf(item: Item): Delivery
  {
    Delivery(item.binding, item.event, item.queuedAt)
  }

  function Items(lines: seq<Line>): seq<Item>
  {
    if lines == [] then []
    else Items(lines[..|lines| - 1]) + if lines[|lines| - 1].Entry? then [lines[|lines| - 1].item] else []
  }

  predicate AllEntries(lines: seq<Line>)
  {
    forall i :: 0 <= i < |lines| ==> lines[i].Entry?
  }

  function Lines(items: seq<Item>): seq<Line>
  {
    seq(|items|, i requires 0 <= i < |items| => Entry(items[i]))
  }

  lemma {:induction false} ItemsOfLines(items: seq<Item>)
    ensures Items(Lines(items)) == items && AllEntries(Lines(items))
  {
    if items != [] {
      ItemsOfLines(items[..|items| - 1]);
      assert Lines(items)[..|items| - 1] == Lines(items[..|items| - 1]);
    }
  }

  lemma ItemsNext(lines: seq<Line>, line: Line)
    ensures Items(lines + [line]) == Items(lines) + if line.Entry? then [line.item] else []
  {
    assert (lines + [line])[..|lines|] == lines;
  }

  lemma ItemsTake(lines: seq<Line>, i: nat)
    requires i < |lines|
    ensures Items(lines[..i + 1]) == Items(lines[..i]) + if lines[i].Entry? then [lines[i].item] else []
  {
    assert lines[..i + 1] == lines[..i] + [lines[i]];
    ItemsNext(lines[..i], lines[i]);
  }

  lemma KeptNext(items: seq<Item>, item: Item, answers: Answers)
    ensures Kept(items + [item], answers) ==
      Kept(items, answers) + if answers(|items|).Some? then [item.(error := answers(|items|))] else []
    ensures Done(items + [item], answers) ==
      Done(items, answers) + if answers(|items|).None? then [DeliveryOf(item)] else []
  {
    assert (items + [item])[..|items|] == items;
  }

  /** The items whose delivery failed, each with its latest error. */
  function Kept(items: seq<Item>, answers: Answers): seq<Item>
  {
    if items == [] then []
    else
      var n := |items| - 1;
      Kept(items[..n], answers) + if answers(n).Some? then [items[n].(error := answers(n))] else []
  }

  function Done(items: seq<Item>, answers: Answers): seq<Delivery>
  {
    if items == [] then []
    else
      var n := |items| - 1;
      Done(items[..n], answers) + if answers(n).None? then [DeliveryOf(items[n])] else []
  }

  predicate SameItem(a: Item, b: Item)
  {
    a.(error := None) == b.(error := None)
  }

  ghost predicate Holds(items: seq<Item>, item: Item)
  {
    exists k :: k in items && SameItem(k, item)
  }

  predicate InOrder(items: seq<Item>)
  {
    forall i, j :: 0 <= i < j < |items| ==> items[i].queuedAt < items[j].queuedAt
  }

  /** In order, and all before the clock. */
  predicate Stamped(items: seq<Item>, clock: nat)
  {
    forall j :: 0 <= j < |items| ==> StampedAt(items, j, clock)
  }

  predicate StampedAt(items: seq<Item>, j: nat, clock: nat)
    requires j < |items|
  {
    items[j].queuedAt < clock && forall i :: 0 <= i < j ==> items[i].queuedAt < items[j].queuedAt
  }

  lemma StampedIff(items: seq<Item>, clock: nat)
    ensures Stamped(items, clock) <==> InOrder(items) && forall item :: item in items ==> item.queuedAt < clock
  {
    if Stamped(items, clock) {
      forall i, j | 0 <= i < j < |items| ensures items[i].queuedAt < items[j].queuedAt {
        assert StampedAt(items, j, clock);
      }
      forall item | item in items ensures item.queuedAt < clock {
        var j :| 0 <= j < |items| && items[j] == item;
        assert StampedAt(items, j, clock);
      }
    }
  }

  lemma StampedNext(items: seq<Item>, clock: nat, item: Item)
    requires Stamped(items, clock) && item.queuedAt == clock
    ensures Stamped(items + [item], clock + 1) && Stamped(items, clock + 1)
  {
    var next, later := items + [item], clock + 1;
    forall j | 0 <= j < |items| ensures StampedAt(items, j, later) && items[j].queuedAt < clock {
      assert StampedAt(items, j, clock);
    }
    forall j | 0 <= j < |next| ensures StampedAt(next, j, later) {
      assert j < |items| ==> StampedAt(items, j, later);
    }
  }

  /** What a flush keeps is in the order in which it was queued. */
  lemma {:induction false} KeptInOrder(items: seq<Item>, answers: Answers)
    requires InOrder(items)
    ensures InOrder(Kept(items, answers))
    ensures forall k :: k in Kept(items, answers) ==> Holds(items, k)
  {
    if items != [] {
      var n := |items| - 1;
      KeptInOrder(items[..n], answers);
      assert items == items[..n] + [items[n]];
      forall k | k in Kept(items[..n], answers) ensures k.queuedAt < items[n].queuedAt && Holds(items, k) {
        var o :| o in items[..n] && SameItem(o, k);
        assert o in items;
        assert o.(error := None).queuedAt == k.(error := None).queuedAt;
      }
      assert SameItem(items[n], items[n].(error := answers(n)));
    }
  }

  lemma {:induction false} DoneIsOfItems(items: seq<Item>, answers: Answers)
    ensures forall d :: d in Done(items, answers) ==> exists item :: item in items && d == DeliveryOf(item)
  {
    if items != [] {
      var n := |items| - 1;
      DoneIsOfItems(items[..n], answers);
      assert items == items[..n] + [items[n]];
    }
  }

  /** Of a flush, every item is either still queued or delivered, itself and not another like it. */
  lemma {:induction false} KeptOrDone(items: seq<Item>, answers: Answers, i: nat)
    requires InOrder(items) && i < |items|
    ensures Holds(Kept(items, answers), items[i]) <==> answers(i).Some?
    ensures DeliveryOf(items[i]) in Done(items, answers) <==> answers(i).None?
  {
    var n := |items| - 1;
    var front, last := items[..n], items[n];
    assert items == front + [last];
    KeptNext(front, last, answers);
    KeptInOrder(front, answers);
    if i < n {
      KeptOrDone(front, answers, i);
      assert front[i] == items[i];
      HoldsNext(Kept(front, answers), last.(error := answers(n)), items[i]);
    } else {
      NotAmong(front, answers, last);
      HoldsNext(Kept(front, answers), last.(error := answers(n)), last);
    }
  }

  lemma HoldsNext(items: seq<Item>, more: Item, item: Item)
    ensures Holds(items + [more], item) <==> Holds(items, item) || SameItem(more, item)
  {
    assert more in items + [more];
    if k :| k in items && SameItem(k, item) { assert k in items + [more]; }
  }

  /** A later item is neither kept nor done by the earlier ones. */
  lemma NotAmong(front: seq<Item>, answers: Answers, last: Item)
    requires InOrder(front + [last])
    ensures !Holds(Kept(front, answers), last) && DeliveryOf(last) !in Done(front, answers)
  {
    assert InOrder(front) by { forall i, j | 0 <= i < j < |front| ensures front[i].queuedAt < front[j].queuedAt {
      assert (front + [last])[i] == front[i] && (front + [last])[j] == front[j];
    } }
    forall o | o in front ensures o.queuedAt < last.queuedAt {
      var i :| 0 <= i < |front| && front[i] == o;
      assert (front + [last])[i] == o && (front + [last])[|front|] == last;
    }
    KeptInOrder(front, answers);
    DoneIsOfItems(front, answers);
    forall k | k in Kept(front, answers) ensures !SameItem(k, last) {
      SameTicket(front, k);
      assert k.(error := None).queuedAt == k.queuedAt && last.(error := None).queuedAt == last.queuedAt;
    }
  }

  /** The first lines were items; these failed, those were delivered. */
  ghost predicate Read(lines: seq<Line>, i: nat, answers: Answers, remaining: seq<Item>, done: seq<Delivery>)
  {
    && i <= |lines| && (forall k :: 0 <= k < i ==> lines[k].Entry?)
    && |Items(lines[..i])| == i
    && remaining == Kept(Items(lines[..i]), answers) && done == Done(Items(lines[..i]), answers)
  }

  lemma ReadNext(lines: seq<Line>, i: nat, answers: Answers, remaining: seq<Item>, done: seq<Delivery>)
    requires Read(lines, i, answers, remaining, done) && i < |lines| && lines[i].Entry?
    ensures answers(i).Some? ==> Read(lines, i + 1, answers, remaining + [lines[i].item.(error := answers(i))], done)
    ensures answers(i).None? ==> Read(lines, i + 1, answers, remaining, done + [DeliveryOf(lines[i].item)])
  {
    ItemsTake(lines, i);
    KeptNext(Items(lines[..i]), lines[i].item, answers);
  }

  lemma SameTicket(items: seq<Item>, k: Item)
    requires Holds(items, k)
    ensures exists o :: o in items && o.queuedAt == k.queuedAt
  {
    var o :| o in items && SameItem(o, k);
    assert o.(error := None).queuedAt == k.(error := None).queuedAt;
  }

  lemma KeptIsStamped(items: seq<Item>, answers: Answers, clock: nat)
    requires Stamped(items, clock)
    ensures Stamped(Kept(items, answers), clock)
  {
    var kept := Kept(items, answers);
    StampedIff(items, clock);
    KeptInOrder(items, answers);
    forall k | k in kept ensures k.queuedAt < clock {
      SameTicket(items, k);
    }
    StampedIff(kept, clock);
  }

  /** What can go wrong with the files in one call: before anything is replaced, after the rename,
  or in an append, whole, torn or not at all. */
  datatype Disk = Fine | NotReplaced(error: ErrorCode) | ReplacedUnsynced(error: ErrorCode)

  datatype Append = Appended | AppendedUnsynced(error: ErrorCode) | AppendTorn(error: ErrorCode) | NotAppended(error: ErrorCode)

  class Store {
    var file: Option<seq<Line>>
    var clock: nat
    var delivered: seq<Delivery>

    function Queued(): seq<Item>
      reads this
    {
      if file.Some? then Items(file.value) else []
    }

    ghost predicate Valid()
      reads this
    {
      Stamped(Queued(), clock)
    }

    constructor ()
      ensures Valid() && Queued() == [] && delivered == []
    {
      file, clock, delivered := None, 0, [];
    }

    /** `appendOutbox`. */
    method AppendItem(b: Binding, event: Event, deliverErr: Option<ErrorCode>, disk: Append) returns (failure: Option<ErrorCode>)
      requires Valid()
      modifies this`file, this`clock
      ensures Valid()
      ensures failure.None? ==> Queued() == old(Queued()) + [Item(b, event, deliverErr, old(clock))]
      ensures failure.Some? ==> Queued() == old(Queued()) || Queued() == old(Queued()) + [Item(b, event, deliverErr, old(clock))]
      ensures failure.None? <==> disk.Appended?
      ensures old(Queued()) <= Queued() && clock == old(clock) + 1
    {
      var item := Item(b, event, deliverErr, clock);
      var before := if file.Some? then file.value else [];
      StampedNext(Queued(), clock, item);
      clock := clock + 1;
      ItemsNext(before, Entry(item));
      ItemsNext(before, Torn);
      match disk
      case Appended =>
        file := Some(before + [Entry(item)]);
        failure := None;
      case AppendedUnsynced(error) =>
        file := Some(before + [Entry(item)]);
        failure := Some(error);
      case AppendTorn(error) =>
        file := Some(before + [Torn]);
        failure := Some(error);
      case NotAppended(error) =>
        failure := Some(error);
    }

    /** The reading loop of `flushOutbox`: decode and deliver line by line. */
    method DeliverAll(lines: seq<Line>, answers: Answers) returns (r: Result<seq<Item>>)
      modifies this`delivered
      ensures r.Success? <==> AllEntries(lines)
      ensures r.Success? ==> r.value == Kept(Items(lines), answers) && delivered == old(delivered) + Done(Items(lines), answers)
      ensures old(delivered) <= delivered
    {
      var remaining: seq<Item> := [];
      ghost var done: seq<Delivery> := [];
      for i := 0 to |lines|
        invariant Read(lines, i, answers, remaining, done) && delivered == old(delivered) + done
      {
        if lines[i].Torn? {
          return Failure(Unavailable("decode"));
        }
        var item := lines[i].item;
        var error := answers(i);
        ReadNext(lines, i, answers, remaining, done);
        if error.Some? {
          remaining := remaining + [item.(error := error)];
        } else {
          delivered := delivered + [DeliveryOf(item)];
          done := done + [DeliveryOf(item)];
        }
      }
      assert lines[..|lines|] == lines;
      return Success(remaining);
    }

    /** `flushOutbox`: deliver every item once, then put what failed in place of the file. */
    method Flush(answers: Answers, disk: Disk) returns (failure: Option<ErrorCode>)
      requires Valid()
      modifies this`file, this`delivered
      ensures Valid()
      ensures failure.None? ==> Queued() == Kept(old(Queued()), answers) && delivered == old(delivered) + Done(old(Queued()), answers)
      ensures failure.Some? && Queued() != old(Queued()) ==>
        Queued() == Kept(old(Queued()), answers) && delivered == old(delivered) + Done(old(Queued()), answers)
      ensures old(delivered) <= delivered
      ensures failure.None? <==> old(file).None? || old(file).value == [] || (AllEntries(old(file).value) && disk.Fine?)
      ensures (old(file).Some? && !AllEntries(old(file).value)) ==> file == old(file)
    {
      if file.None? || |file.value| == 0 {
        return None;
      }
      ghost var queued := Queued();
      var remaining := DeliverAll(file.value, answers);
      if remaining.Failure? {
        return Some(remaining.error);
      }
      KeptIsStamped(queued, answers, clock);
      ItemsOfLines(remaining.value);
      failure := if disk.Fine? then None else Some(disk.error);
      if !disk.NotReplaced? {
        file := if |remaining.value| == 0 then None else Some(Lines(remaining.value));
      }
    }

    /** One matched binding: delivered, or queued when the delivery failed. */
    method DispatchOne(b: Binding, event: Event, error: Option<ErrorCode>, append: Append) returns (failure: bool)
      requires Valid()
      modifies this
      ensures Valid() && clock == old(clock) + 1
      ensures error.None? ==> delivered == old(delivered) + [Delivery(b, event, old(clock))] && Queued() == old(Queued())
      ensures error.Some? ==> delivered == old(delivered) && old(Queued()) <= Queued()
      ensures error.Some? && !failure ==> Queued() == old(Queued()) + [Item(b, event, error, old(clock))]
      ensures failure <==> error.Some? && !append.Appended?
    {
      if error.None? {
        StampedNext(Queued(), clock, Item(b, event, error, clock));
        delivered := delivered + [Delivery(b, event, clock)];
        clock := clock + 1;
        return false;
      }
      var appendFailure := AppendItem(b, event, error, append);
      return appendFailure.Some?;
    }

    /** One round of the loop over the matched bindings. */
    method DispatchNext(matched: seq<Binding>, i: nat, event: Event, answers: Answers, appends: nat -> Append, earlier: bool,
      ghost start: nat, ghost queued: seq<Item>, ghost done: seq<Delivery>) returns (failure: bool)
      requires Valid() && i < |matched|
      requires Dispatched(matched[..i], event, answers, appends, start, queued, done, clock, Queued(), delivered, earlier)
      modifies this
      ensures Valid()
      ensures Dispatched(matched[..i + 1], event, answers, appends, start, queued, done, clock, Queued(), delivered, failure)
    {
      var b, error, append := matched[i], answers(i), appends(i);
      ghost var waiting, sent := Queued(), delivered;
      var failed := DispatchOne(b, event, error, append);
      DispatchedNext(matched, i, event, answers, appends, start, queued, done, waiting, sent, earlier, Queued(), delivered, failed);
      return earlier || failed;
    }

    /** The loop over the matched bindings. */
    method DispatchAll(matched: seq<Binding>, event: Event, answers: Answers, appends: nat -> Append) returns (failure: bool)
      requires Valid()
      modifies this
      ensures Valid() && clock == old(clock) + |matched|
      ensures delivered == old(delivered) + Sent(matched, event, answers, old(clock))
      ensures !failure ==> Queued() == old(Queued()) + Waiting(matched, event, answers, old(clock))
      ensures old(Queued()) <= Queued()
      ensures failure <==> AppendFails(answers, appends, |matched|)
    {
      ghost var queued, done, start := Queued(), delivered, clock;
      failure := false;
      for i := 0 to |matched|
        invariant Valid() && Dispatched(matched[..i], event, answers, appends, start, queued, done, clock, Queued(), delivered, failure)
      {
        failure := DispatchNext(matched, i, event, answers, appends, failure, start, queued, done);
      }
      assert matched[..|matched|] == matched;
      AfterAppends(done, queued, matched, event, answers, start);
    }

    /** `DispatchObserved` for the post phase, after the bindings matched. */
    method DispatchPost(matched: seq<Binding>, event: Event, flushed: Answers, disk: Disk, answers: Answers, appends: nat -> Append)
      returns (failure: bool)
      requires Valid()
      modifies this
      ensures Valid() && clock == old(clock) + |matched|
      ensures !failure ==>
        && delivered == old(delivered) + Done(old(Queued()), flushed) + Sent(matched, event, answers, old(clock))
        && Queued() == Kept(old(Queued()), flushed) + Waiting(matched, event, answers, old(clock))
      ensures old(delivered) <= delivered
      ensures exists flush :: delivered == old(delivered) + flush + Sent(matched, event, answers, old(clock))
      ensures failure <==>
        || !(old(file).None? || old(file).value == [] || (AllEntries(old(file).value) && disk.Fine?))
        || AppendFails(answers, appends, |matched|)
    {
      ghost var earlier := delivered;
      var flushFailure := Flush(flushed, disk);
      ghost var flush := Rest(earlier, delivered);
      var failed := DispatchAll(matched, event, answers, appends);
      return flushFailure.Some? || failed;
    }
  }

  /** One of the first events could be neither delivered nor queued for certain. */
  ghost predicate AppendFails(answers: Answers, appends: nat -> Append, n: nat)
  {
    exists k :: 0 <= k < n && answers(k).Some? && !appends(k).Appended?
  }

  lemma AppendFailsNext(answers: Answers, appends: nat -> Append, n: nat)
    ensures AppendFails(answers, appends, n + 1) <==> AppendFails(answers, appends, n) || (answers(n).Some? && !appends(n).Appended?)
  {}

  /** From `queued` and `done`, the first events of a dispatch have led to `waiting` and `sent`. */
  ghost predicate Dispatched(first: seq<Binding>, event: Event, answers: Answers, appends: nat -> Append, start: nat,
    queued: seq<Item>, done: seq<Delivery>, clock: nat, waiting: seq<Item>, sent: seq<Delivery>, failure: bool)
  {
    && clock == start + |first| && queued <= waiting
    && sent == SentAfter(done, first, event, answers, start)
    && (!failure ==> waiting == QueuedAfter(queued, first, event, answers, start))
    && (failure <==> AppendFails(answers, appends, |first|))
  }

  lemma DispatchedNext(matched: seq<Binding>, i: nat, event: Event, answers: Answers, appends: nat -> Append, start: nat,
    queued: seq<Item>, done: seq<Delivery>, waiting: seq<Item>, sent: seq<Delivery>, earlier: bool,
    after: seq<Item>, sentAfter: seq<Delivery>, failed: bool)
    requires i < |matched| && waiting <= after && (failed <==> answers(i).Some? && !appends(i).Appended?)
    requires Dispatched(matched[..i], event, answers, appends, start, queued, done, start + i, waiting, sent, earlier)
    requires answers(i).None? ==> sentAfter == sent + [Delivery(matched[i], event, start + i)] && after == waiting
    requires answers(i).Some? ==> sentAfter == sent
    requires answers(i).Some? && !failed ==> after == waiting + [Item(matched[i], event, answers(i), start + i)]
    ensures Dispatched(matched[..i + 1], event, answers, appends, start, queued, done, start + i + 1, after, sentAfter, earlier || failed)
  {
    AfterNext(done, queued, matched, i, event, answers, start);
    AppendFailsNext(answers, appends, i);
  }

  /** The direct deliveries of one dispatch; event i of the dispatch has ticket `start + i`. */
  function Sent(matched: seq<Binding>, event: Event, answers: Answers, start: nat): seq<Delivery>
  {
    SentAfter([], matched, event, answers, start)
  }

  /** The same added to earlier ones. */
  function SentAfter(done: seq<Delivery>, matched: seq<Binding>, event: Event, answers: Answers, start: nat): seq<Delivery>
  {
    if matched == [] then done
    else
      var n := |matched| - 1;
      var before := SentAfter(done, matched[..n], event, answers, start);
      if answers(n).None? then before + [Delivery(matched[n], event, start + n)] else before
  }

  /** What one dispatch queues. */
  function Waiting(matched: seq<Binding>, event: Event, answers: Answers, start: nat): seq<Item>
  {
    QueuedAfter([], matched, event, answers, start)
  }

  function QueuedAfter(queued: seq<Item>, matched: seq<Binding>, event: Event, answers: Answers, start: nat): seq<Item>
  {
    if matched == [] then queued
    else
      var n := |matched| - 1;
      var before := QueuedAfter(queued, matched[..n], event, answers, start);
      if answers(n).Some? then before + [Item(matched[n], event, answers(n), start + n)] else before
  }

  ghost function Rest(before: seq<Delivery>, after: seq<Delivery>): (rest: seq<Delivery>)
    requires before <= after
    ensures after == before + rest
  {
    after[|before|..]
  }

  lemma AfterNext(done: seq<Delivery>, queued: seq<Item>, matched: seq<Binding>, i: nat, event: Event, answers: Answers, start: nat)
    requires i < |matched|
    ensures var before, after := SentAfter(done, matched[..i], event, answers, start), SentAfter(done, matched[..i + 1], event, answers, start);
      after == if answers(i).None? then before + [Delivery(matched[i], event, start + i)] else before
    ensures var before, after := QueuedAfter(queued, matched[..i], event, answers, start), QueuedAfter(queued, matched[..i + 1], event, answers, start);
      after == if answers(i).Some? then before + [Item(matched[i], event, answers(i), start + i)] else before
  {
    assert matched[..i + 1][..i] == matched[..i];
  }

  lemma {:induction false} AfterAppends(done: seq<Delivery>, queued: seq<Item>, matched: seq<Binding>, event: Event, answers: Answers, start: nat)
    ensures SentAfter(done, matched, event, answers, start) == done + Sent(matched, event, answers, start)
    ensures QueuedAfter(queued, matched, event, answers, start) == queued + Waiting(matched, event, answers, start)
  {
    if matched != [] {
      AfterAppends(done, queued, matched[..|matched| - 1], event, answers, start);
    }
  }

  /** Every matched event, by its own ticket, is delivered by this dispatch or queued by it, and
  never both. */
  lemma {:induction false} SentOrWaiting(matched: seq<Binding>, event: Event, answers: Answers, start: nat, k: nat)
    requires k < |matched|
    ensures Delivery(matched[k], event, start + k) in Sent(matched, event, answers, start) <==> answers(k).None?
    ensures Item(matched[k], event, answers(k), start + k) in Waiting(matched, event, answers, start) <==> answers(k).Some?
  {
    var n := |matched| - 1;
    TicketsBelow(matched[..n], event, answers, start);
    if k < n {
      SentOrWaiting(matched[..n], event, answers, start, k);
    }
  }

  lemma {:induction false} TicketsBelow(matched: seq<Binding>, event: Event, answers: Answers, start: nat)
    ensures forall d :: d in Sent(matched, event, answers, start) ==> d.ticket < start + |matched|
    ensures forall item :: item in Waiting(matched, event, answers, start) ==> item.queuedAt < start + |matched|
  {
    if matched != [] {
      TicketsBelow(matched[..|matched| - 1], event, answers, start);
    }
  }

  /** `DispatchObserved` for the pre phase: in order, up to the first refusal. */
  method DispatchPre(matched: seq<Binding>, answers: Answers) returns (failure: Option<ErrorCode>, tried: nat)
    ensures failure.None? ==> tried == |matched| && forall i :: 0 <= i < |matched| ==> answers(i).None?
    ensures failure.Some? ==> 0 < tried <= |matched| && failure == answers(tried - 1) && forall i :: 0 <= i < tried - 1 ==> answers(i).None?
  {
    for i := 0 to |matched|
      invariant forall k :: 0 <= k < i ==> answers(k).None?
    {
      if answers(i).Some? {
        return answers(i), i + 1;
      }
    }
    return None, |matched|;
  }

  // ------------------------------------------------------------------------------ whole runs

  /** What a call of any process does to the outbox, crashes included: an append is whole, torn or
  absent; `reached` is how many deliveries a flush got through, `replaced` whether it also
  replaced the file. */
  datatype Step =
    | Enqueue(binding: Binding, event: Event, error: Option<ErrorCode>)
    | Tear
    | FlushStep(answers: Answers, reached: nat, replaced: bool)

  /** `ever` is everything that was ever queued; the ticket of an item is its place there. */
  datatype World = World(lines: seq<Line>, delivered: seq<Delivery>, ever: seq<Item>)

  /** The lines up to the first torn one. */
  function Readable(lines: seq<Line>): (r: seq<Line>)
    ensures r <= lines && AllEntries(r)
    ensures r == lines || lines[|r|].Torn?
  {
    if lines == [] || lines[0].Torn? then [] else [lines[0]] + Readable(lines[1..])
  }

  function Attempted(lines: seq<Line>, reached: nat): seq<Item>
  {
    var items := Items(Readable(lines));
    items[..if reached < |items| then reached else |items|]
  }

  function Next(w: World, s: Step): World
  {
    match s
    case Enqueue(binding, event, error) =>
      var item := Item(binding, event, error, |w.ever|);
      w.(lines := w.lines + [Entry(item)], ever := w.ever + [item])
    case Tear => w.(lines := w.lines + [Torn])
    case FlushStep(answers, reached, replaced) =>
      if AllEntries(w.lines) && reached >= |w.lines| && replaced
      then w.(lines := Lines(Kept(Items(w.lines), answers)), delivered := w.delivered + Done(Items(w.lines), answers))
      else w.(delivered := w.delivered + Done(Attempted(w.lines, reached), answers))
  }

  /** The item is queued, or a delivery of it, and not of another like it, has succeeded. */
  ghost predicate Safe(queued: seq<Item>, delivered: seq<Delivery>, item: Item)
  {
    Holds(queued, item) || DeliveryOf(item) in delivered
  }

  predicate Ticketed(ever: seq<Item>)
  {
    forall k :: 0 <= k < |ever| ==> ever[k].queuedAt == k
  }

  ghost predicate Inv(w: World)
  {
    && Ticketed(w.ever) && InOrder(Items(w.lines)) && (forall k :: k in Items(w.lines) ==> Holds(w.ever, k))
    && (forall d :: d in w.delivered ==> OfEver(w.ever, d))
    && forall item :: item in w.ever ==> Safe(Items(w.lines), w.delivered, item)
  }

  ghost predicate OfEver(ever: seq<Item>, d: Delivery)
  {
    exists item :: item in ever && d == DeliveryOf(item)
  }

  lemma {:induction false} ItemsPrefix(lines: seq<Line>, more: seq<Line>)
    ensures Items(lines) <= Items(lines + more)
  {
    if more == [] {
      assert lines + more == lines;
    } else {
      var n := |more| - 1;
      ItemsPrefix(lines, more[..n]);
      assert lines + more == (lines + more[..n]) + [more[n]];
      ItemsNext(lines + more[..n], more[n]);
    }
  }

  lemma AttemptedIsQueued(lines: seq<Line>, reached: nat)
    ensures forall item :: item in Attempted(lines, reached) ==> item in Items(lines)
  {
    ItemsPrefix(Readable(lines), lines[|Readable(lines)|..]);
    assert Readable(lines) + lines[|Readable(lines)|..] == lines;
    var items := Items(Readable(lines));
    assert forall item :: item in items ==> item in Items(lines);
  }

  lemma SameDelivery(a: Item, b: Item)
    requires SameItem(a, b)
    ensures DeliveryOf(a) == DeliveryOf(b)
  {
    assert a.(error := None).binding == b.(error := None).binding && a.(error := None).event == b.(error := None).event;
    assert a.(error := None).queuedAt == b.(error := None).queuedAt;
  }

  lemma DoneOfEver(ever: seq<Item>, items: seq<Item>, answers: Answers)
    requires forall k :: k in items ==> Holds(ever, k)
    ensures forall d :: d in Done(items, answers) ==> OfEver(ever, d)
  {
    DoneIsOfItems(items, answers);
    forall d | d in Done(items, answers) ensures OfEver(ever, d) {
      var item :| item in items && d == DeliveryOf(item);
      var o :| o in ever && SameItem(o, item);
      SameDelivery(o, item);
    }
  }

  /** A flush that replaces the file. */
  lemma ReplaceKeeps(w: World, answers: Answers)
    requires Inv(w) && AllEntries(w.lines)
    ensures Inv(w.(lines := Lines(Kept(Items(w.lines), answers)), delivered := w.delivered + Done(Items(w.lines), answers)))
  {
    var queued := Items(w.lines);
    var kept := Kept(queued, answers);
    ItemsOfLines(kept);
    KeptInOrder(queued, answers);
    DoneOfEver(w.ever, queued, answers);
    forall k | k in kept ensures Holds(w.ever, k) {
      var o :| o in queued && SameItem(o, k);
      var e :| e in w.ever && SameItem(e, o);
      assert SameItem(e, k);
    }
    forall item | item in w.ever ensures Safe(kept, w.delivered + Done(queued, answers), item) {
      assert Safe(queued, w.delivered, item);
      if Holds(queued, item) {
        StaysSafe(queued, answers, item);
      }
    }
  }

  lemma StaysSafe(queued: seq<Item>, answers: Answers, item: Item)
    requires InOrder(queued) && Holds(queued, item)
    ensures Safe(Kept(queued, answers), Done(queued, answers), item)
  {
    var o :| o in queued && SameItem(o, item);
    var i :| 0 <= i < |queued| && queued[i] == o;
    KeptOrDone(queued, answers, i);
    SameDelivery(o, item);
    if Holds(Kept(queued, answers), o) {
      var k :| k in Kept(queued, answers) && SameItem(k, o);
      assert SameItem(k, item);
    }
  }

  lemma FlushKeeps(w: World, s: Step)
    requires Inv(w) && s.FlushStep?
    ensures Inv(Next(w, s))
  {
    if AllEntries(w.lines) && s.reached >= |w.lines| && s.replaced {
      ReplaceKeeps(w, s.answers);
    } else {
      var tried := Attempted(w.lines, s.reached);
      AttemptedIsQueued(w.lines, s.reached);
      DoneOfEver(w.ever, tried, s.answers);
      forall item | item in w.ever ensures Safe(Items(w.lines), w.delivered + Done(tried, s.answers), item) {
        assert Safe(Items(w.lines), w.delivered, item);
      }
    }
  }

  lemma HoldsMore(items: seq<Item>, more: seq<Item>, item: Item)
    requires Holds(items, item) && items <= more
    ensures Holds(more, item)
  {
    var k :| k in items && SameItem(k, item);
    assert k in more;
  }

  lemma EnqueueKeeps(w: World, s: Step)
    requires Inv(w) && s.Enqueue?
    ensures Inv(Next(w, s))
  {
    var n := Next(w, s);
    var last := Item(s.binding, s.event, s.error, |w.ever|);
    var queued, now := Items(w.lines), Items(n.lines);
    ItemsNext(w.lines, Entry(last));
    assert now == queued + [last] && SameItem(last, last) && last in n.ever && last in now;
    forall k | k in queued ensures Holds(n.ever, k) && k.queuedAt < last.queuedAt {
      HoldsMore(w.ever, n.ever, k);
      SameTicket(w.ever, k);
    }
    forall d | d in n.delivered ensures OfEver(n.ever, d) {
      assert OfEver(w.ever, d);
    }
    forall item | item in n.ever ensures Safe(now, n.delivered, item) {
      if item in w.ever {
        assert Safe(queued, w.delivered, item);
        if Holds(queued, item) { HoldsMore(queued, now, item); }
      }
    }
  }

  lemma TearKeeps(w: World)
    requires Inv(w)
    ensures Inv(Next(w, Tear))
  {
    ItemsNext(w.lines, Torn);
  }

  ghost predicate Run(ws: seq<World>, steps: seq<Step>)
  {
    && |ws| == |steps| + 1 && ws[0] == World([], [], [])
    && forall i :: 0 <= i < |steps| ==> ws[i + 1] == Next(ws[i], steps[i])
  }

  /** Over any run of enqueues and flushes, with torn appends and crashes at any point of a flush:
  what is queued is in queueing order, whatever was ever queued is still queued or was itself
  delivered, and nothing else was delivered. */
  lemma {:induction false} NothingIsLost(ws: seq<World>, steps: seq<Step>, i: nat)
    requires Run(ws, steps) && i < |ws|
    ensures Inv(ws[i])
  {
    if i > 0 {
      NothingIsLost(ws, steps, i - 1);
      assert ws[i - 1 + 1] == Next(ws[i - 1], steps[i - 1]);
      match steps[i - 1]
      case Enqueue(_, _, _) => EnqueueKeeps(ws[i - 1], steps[i - 1]);
      case Tear => TearKeeps(ws[i - 1]);
      case FlushStep(_, _, _) => FlushKeeps(ws[i - 1], steps[i - 1]);
    }
  }

  /** The item is queued behind a torn line. */
  ghost predicate Blocked(w: World, item: Item)
  {
    exists t, k :: 0 <= t < k < |w.lines| && w.lines[t].Torn? && w.lines[k] == Entry(item)
  }

  lemma BlockedStep(w: World, s: Step, item: Item)
    requires Inv(w) && Blocked(w, item) && DeliveryOf(item) !in w.delivered
    ensures Blocked(Next(w, s), item) && DeliveryOf(item) !in Next(w, s).delivered
  {
    var t, k :| 0 <= t < k < |w.lines| && w.lines[t].Torn? && w.lines[k] == Entry(item);
    var n := Next(w, s);
    assert !AllEntries(w.lines);
    assert n.lines[t] == w.lines[t] && n.lines[k] == w.lines[k];
    if s.FlushStep? {
      NotAttempted(w.lines, t, k, item, s.reached);
      DoneIsOfItems(Attempted(w.lines, s.reached), s.answers);
    }
  }

  /** Where the item of line k stands among the items. */
  lemma PlaceOf(lines: seq<Line>, i: nat, k: nat)
    requires i <= k < |lines| && lines[k].Entry?
    ensures |Items(lines[..i])| <= |Items(lines[..k])| < |Items(lines)| && Items(lines[..i]) <= Items(lines)
    ensures Items(lines)[|Items(lines[..k])|] == lines[k].item
  {
    ItemsTake(lines, k);
    ItemsPrefix(lines[..k + 1], lines[k + 1..]);
    assert lines[..k + 1] + lines[k + 1..] == lines;
    ItemsPrefix(lines[..i], lines[i..k]);
    assert lines[..i] + lines[i..k] == lines[..k];
  }

  /** Nothing behind a torn line is read: earlier items have earlier tickets. */
  lemma NotAttempted(lines: seq<Line>, t: nat, k: nat, item: Item, reached: nat)
    requires InOrder(Items(lines)) && t < k < |lines| && lines[t].Torn? && lines[k] == Entry(item)
    ensures forall o :: o in Attempted(lines, reached) ==> o.queuedAt < item.queuedAt
  {
    ReadableStops(lines, t);
    PlaceOf(lines, |Readable(lines)|, k);
    EarlierTickets(Items(Readable(lines)), Items(lines), |Items(lines[..k])|);
  }

  lemma ReadableStops(lines: seq<Line>, t: nat)
    requires t < |lines| && lines[t].Torn?
    ensures |Readable(lines)| <= t && lines[..|Readable(lines)|] == Readable(lines)
  {
    var front := Readable(lines);
    assert forall k :: 0 <= k < |front| ==> lines[k] == front[k] && front[k].Entry?;
  }

  lemma EarlierTickets(front: seq<Item>, all: seq<Item>, n: nat)
    requires InOrder(all) && front <= all && |front| <= n < |all|
    ensures forall o :: o in front ==> o.queuedAt < all[n].queuedAt
  {
    forall o | o in front ensures o.queuedAt < all[n].queuedAt {
      var i :| 0 <= i < |front| && front[i] == o;
      assert all[i] == o;
    }
  }

  lemma BlockedNext(ws: seq<World>, steps: seq<Step>, j: nat, item: Item)
    requires Run(ws, steps) && j < |steps| && Blocked(ws[j], item) && DeliveryOf(item) !in ws[j].delivered
    ensures Blocked(ws[j + 1], item) && DeliveryOf(item) !in ws[j + 1].delivered
  {
    NothingIsLost(ws, steps, j);
    assert ws[j + 1] == Next(ws[j], steps[j]);
    BlockedStep(ws[j], steps[j], item);
  }

  lemma {:induction false} StaysBlocked(ws: seq<World>, steps: seq<Step>, i: nat, j: nat, item: Item)
    requires Run(ws, steps) && i <= j < |ws| && Blocked(ws[i], item) && DeliveryOf(item) !in ws[i].delivered
    ensures Blocked(ws[j], item) && DeliveryOf(item) !in ws[j].delivered
    decreases j
  {
    if i < j {
      StaysBlocked(ws, steps, i, j - 1, item);
      BlockedNext(ws, steps, j - 1, item);
    }
  }

  /** An append torn by a crash blocks the outbox: an item queued behind it is kept for ever, and
  never delivered. */
  lemma TornBlocks(ws: seq<World>, steps: seq<Step>, i: nat, j: nat)
    requires Run(ws, steps) && i < |steps| && i < j < |ws| && steps[i].Enqueue? && !AllEntries(ws[i].lines)
    ensures var item := Item(steps[i].binding, steps[i].event, steps[i].error, |ws[i].ever|);
      item in Items(ws[j].lines) && DeliveryOf(item) !in ws[j].delivered
  {
    var w := ws[i];
    var item := Item(steps[i].binding, steps[i].event, steps[i].error, |w.ever|);
    NothingIsLost(ws, steps, i);
    assert ws[i + 1] == Next(w, steps[i]);
    var t :| 0 <= t < |w.lines| && w.lines[t].Torn?;
    assert ws[i + 1].lines[t].Torn? && ws[i + 1].lines[|w.lines|] == Entry(item);
    forall d | d in w.delivered ensures d != DeliveryOf(item) {
      assert OfEver(w.ever, d);
    }
    assert Blocked(ws[i + 1], item) && DeliveryOf(item) !in ws[i + 1].delivered;
    StaysBlocked(ws, steps, i + 1, j, item);
    BlockedIsQueued(ws[j], item);
  }

  lemma BlockedIsQueued(w: World, item: Item)
    requires Blocked(w, item)
    ensures item in Items(w.lines)
  {
    var t, k :| 0 <= t < k < |w.lines| && w.lines[t].Torn? && w.lines[k] == Entry(item);
    PlaceOf(w.lines, k, k);
  }
}
