/** The queue of State notices (index/controller.go, `enqueueNotice`, `finishNotice` and the last
loop of `catchUpState`).

A notice is filed under its key.  What finishes a refresh goes by the key as well, so it cannot
tell the notice it took from one enqueued meanwhile. */
module StateNotices {
  import opened Kernel

  datatype Status = Pending | Failed

  /** `busy` is the key under refresh.  `owed` is history: the keys that were enqueued and have not
  been taken up for refreshing since, or only for a refresh that failed. */
  datatype World = World(notices: map<string, Status>, busy: Option<string>, owed: set<string>)

  datatype Step = Enqueue(key: string) | Take(key: string) | Finish(success: bool) | Crash

  predicate Enabled(w: World, s: Step)
  {
    match s
    case Enqueue(_) => true
    case Take(key) => w.busy.None? && key in w.notices
    case Finish(_) => w.busy.Some?
    case Crash => true
  }

  function Next(w: World, s: Step): World
  {
    match s
    case Enqueue(key) => w.(notices := w.notices[key := Pending], owed := w.owed + {key})
    case Take(key) => w.(busy := Some(key), owed := w.owed - {key})
    case Finish(success) =>
      if w.busy.None? then w
      else if success then w.(notices := w.notices - {w.busy.value}, busy := None)
      else World(w.notices[w.busy.value := Failed], None, w.owed + {w.busy.value})
    case Crash => World(w.notices, None, if w.busy.Some? then w.owed + {w.busy.value} else w.owed)
  }

  ghost predicate Run(ws: seq<World>, steps: seq<Step>)
  {
    && |ws| == |steps| + 1 && ws[0] == World(map[], None, {})
    && forall i :: 0 <= i < |steps| ==> Enabled(ws[i], steps[i]) && ws[i + 1] == Next(ws[i], steps[i])
  }

  /** The key is owed a refresh that nothing will give it. */
  predicate Lost(w: World, key: string)
  {
    key in w.owed && key !in w.notices
  }

  /** A refresh of the key succeeds at step f although the key was enqueued while it ran. */
  predicate Drops(ws: seq<World>, steps: seq<Step>, f: nat, key: string)
    requires |ws| == |steps| + 1
  {
    f < |steps| && steps[f] == Finish(true) && ws[f].busy == Some(key) && key in ws[f].owed
  }

  predicate Unqueued(steps: seq<Step>, f: nat, j: nat, key: string)
    requires j <= |steps|
  {
    forall k :: f < k < j ==> steps[k] != Enqueue(key)
  }

  /** What is under refresh stays filed until the refresh finishes. */
  lemma {:induction false} BusyIsFiled(ws: seq<World>, steps: seq<Step>, i: nat)
    requires Run(ws, steps) && i < |ws| && ws[i].busy.Some?
    ensures ws[i].busy.value in ws[i].notices
  {
    if i > 0 {
      assert Enabled(ws[i - 1], steps[i - 1]) && ws[i - 1 + 1] == Next(ws[i - 1], steps[i - 1]);
      if ws[i - 1].busy.Some? {
        BusyIsFiled(ws, steps, i - 1);
      }
    }
  }

  lemma LostStep(ws: seq<World>, steps: seq<Step>, j: nat, key: string)
    requires Run(ws, steps) && j < |steps|
    ensures Lost(ws[j + 1], key) <==> Drops(ws, steps, j, key) || (Lost(ws[j], key) && steps[j] != Enqueue(key))
  {
    assert Enabled(ws[j], steps[j]) && ws[j + 1] == Next(ws[j], steps[j]);
    if ws[j].busy.Some? {
      BusyIsFiled(ws, steps, j);
    }
  }

  ghost predicate DroppedSince(ws: seq<World>, steps: seq<Step>, j: nat, key: string)
    requires |ws| == |steps| + 1 && j <= |steps|
  {
    exists f :: 0 <= f < j && Drops(ws, steps, f, key) && Unqueued(steps, f, j, key)
  }

  /** A State notice is lost exactly when a refresh of its key, begun before it was enqueued, has
  succeeded, and nobody has enqueued the key again. */
  lemma {:induction false} LostIff(ws: seq<World>, steps: seq<Step>, j: nat, key: string)
    requires Run(ws, steps) && j < |ws|
    ensures Lost(ws[j], key) <==> DroppedSince(ws, steps, j, key)
  {
    if j > 0 {
      LostIff(ws, steps, j - 1, key);
      LostStep(ws, steps, j - 1, key);
      if Drops(ws, steps, j - 1, key) {
        assert Unqueued(steps, j - 1, j, key);
      }
      if DroppedSince(ws, steps, j - 1, key) && steps[j - 1] != Enqueue(key) {
        var f :| 0 <= f < j - 1 && Drops(ws, steps, f, key) && Unqueued(steps, f, j - 1, key);
        assert Unqueued(steps, f, j, key);
      }
      if f :| 0 <= f < j && Drops(ws, steps, f, key) && Unqueued(steps, f, j, key) {
        if f < j - 1 {
          assert Unqueued(steps, f, j - 1, key);
          assert DroppedSince(ws, steps, j - 1, key);
        }
      }
    }
  }

  /** A refresh of the key runs from step b to step f, and step e in between enqueues the key. */
  predicate Meanwhile(steps: seq<Step>, b: nat, e: nat, f: nat, key: string)
  {
    && b < e < f < |steps| && steps[b] == Take(key) && steps[e] == Enqueue(key)
    && forall k :: b < k < f ==> !steps[k].Finish? && !steps[k].Crash?
  }

  lemma {:induction false} TakenAt(ws: seq<World>, steps: seq<Step>, i: nat, key: string) returns (b: nat)
    requires Run(ws, steps) && i < |ws| && ws[i].busy == Some(key)
    ensures b < i && steps[b] == Take(key) && forall k :: b < k < i ==> !steps[k].Finish? && !steps[k].Crash?
  {
    assert Enabled(ws[i - 1], steps[i - 1]) && ws[i - 1 + 1] == Next(ws[i - 1], steps[i - 1]);
    if steps[i - 1] == Take(key) {
      b := i - 1;
    } else {
      b := TakenAt(ws, steps, i - 1, key);
    }
  }

  /** What is owed during its own refresh was enqueued after the refresh had begun. */
  lemma {:induction false} OwedWasEnqueued(ws: seq<World>, steps: seq<Step>, f: nat, key: string)
    requires Run(ws, steps) && f < |steps| && ws[f].busy == Some(key) && key in ws[f].owed
    ensures exists b, e :: Meanwhile(steps, b, e, f, key)
  {
    assert Enabled(ws[f - 1], steps[f - 1]) && ws[f - 1 + 1] == Next(ws[f - 1], steps[f - 1]);
    if key in ws[f - 1].owed && ws[f - 1].busy == Some(key) {
      OwedWasEnqueued(ws, steps, f - 1, key);
      var b, e :| Meanwhile(steps, b, e, f - 1, key);
      assert Meanwhile(steps, b, e, f, key);
    } else {
      var b := TakenAt(ws, steps, f - 1, key);
      assert Meanwhile(steps, b, f - 1, f, key);
    }
  }

  /** A refresh, once begun, runs until it finishes, and leaves what is enqueued meanwhile owed. */
  lemma {:induction false} EnqueuedStaysOwed(ws: seq<World>, steps: seq<Step>, b: nat, e: nat, f: nat, key: string, i: nat)
    requires Run(ws, steps) && Meanwhile(steps, b, e, f, key) && b < i <= f
    ensures ws[i].busy == Some(key) && (e < i ==> key in ws[i].owed)
  {
    assert Enabled(ws[i - 1], steps[i - 1]) && ws[i - 1 + 1] == Next(ws[i - 1], steps[i - 1]);
    if b + 1 < i {
      EnqueuedStaysOwed(ws, steps, b, e, f, key, i - 1);
    }
  }

  /** A refresh drops a notice exactly if it succeeds and the key was enqueued while it ran. */
  lemma DropsIff(ws: seq<World>, steps: seq<Step>, f: nat, key: string)
    requires Run(ws, steps) && f < |steps|
    ensures Drops(ws, steps, f, key) <==> steps[f] == Finish(true) && exists b, e :: Meanwhile(steps, b, e, f, key)
  {
    if Drops(ws, steps, f, key) {
      OwedWasEnqueued(ws, steps, f, key);
    }
    if b, e :| Meanwhile(steps, b, e, f, key) {
      EnqueuedStaysOwed(ws, steps, b, e, f, key, f);
    }
  }

  /** The key was enqueued at e, during the refresh from b to f, which succeeded, and not again
  up to j. */
  predicate Overtaken(steps: seq<Step>, b: nat, e: nat, f: nat, j: nat, key: string)
    requires j <= |steps|
  {
    f < j && Meanwhile(steps, b, e, f, key) && steps[f] == Finish(true) && Unqueued(steps, f, j, key)
  }

  /** The same in terms of the steps alone. */
  lemma LostIffOvertaken(ws: seq<World>, steps: seq<Step>, j: nat, key: string)
    requires Run(ws, steps) && j < |ws|
    ensures Lost(ws[j], key) <==> exists b, e, f :: Overtaken(steps, b, e, f, j, key)
  {
    LostIff(ws, steps, j, key);
    if f :| 0 <= f < j && Drops(ws, steps, f, key) && Unqueued(steps, f, j, key) {
      DropsIff(ws, steps, f, key);
      var b, e :| Meanwhile(steps, b, e, f, key);
      assert Overtaken(steps, b, e, f, j, key);
    }
    if b, e, f :| Overtaken(steps, b, e, f, j, key) {
      DropsIff(ws, steps, f, key);
      assert DroppedSince(ws, steps, j, key);
    }
  }

  /** Such a run: two notices under one key, the second while the first is refreshed. */
  lemma LateNoticeIsLost(key: string)
    ensures exists ws, steps :: Run(ws, steps) && |steps| == 4 && Lost(ws[4], key)
  {
    var w0 := World(map[], None, {});
    var steps := [Enqueue(key), Take(key), Enqueue(key), Finish(true)];
    var w1 := Next(w0, steps[0]);
    var w2 := Next(w1, steps[1]);
    var w3 := Next(w2, steps[2]);
    var ws := [w0, w1, w2, w3, Next(w3, steps[3])];
    assert Run(ws, steps);
    assert Lost(ws[4], key);
  }
}
