/** The bounded-pool scheduler inside `run_core_batch_once`: messages whose backoff has not
    elapsed are held back, at most `max(1, maxInflight)` run at once, and the results come
    back in the order of the messages. Handlers are assumed to return. */
module BatchScheduler {
  import opened Common

  datatype Backoff = Immediate | NotBefore(time: int)

  /** A message that waits for its release time. */
  datatype Delayed = Delayed(index: nat, release: int)

  datatype Event = Start(index: nat, time: int) | Finish(index: nat, time: int)

  function Indices(ds: seq<Delayed>): (r: seq<nat>)
    ensures |r| == |ds| && forall i | 0 <= i < |ds| :: r[i] == ds[i].index
  {
    seq(|ds|, i requires 0 <= i < |ds| => ds[i].index)
  }

  ghost predicate PlacedOnce(n: nat, ready: seq<nat>, delayed: seq<Delayed>, running: set<nat>, finished: set<nat>,
      i: nat) {
    multiset(ready)[i] + multiset(Indices(delayed))[i] + One(i in running) + One(i in finished) == One(i < n)
  }

  /** Every message is in exactly one of the four places, and nothing else is in any. */
  ghost predicate Partition(n: nat, ready: seq<nat>, delayed: seq<Delayed>, running: set<nat>, finished: set<nat>) {
    forall i: nat :: PlacedOnce(n, ready, delayed, running, finished, i)
  }

  // ----- what a trace of starts and finishes must satisfy -----

  function Last(events: seq<Event>): Event
    requires events != []
  {
    events[|events| - 1]
  }

  function Front(events: seq<Event>): seq<Event>
    requires events != []
  {
    events[..|events| - 1]
  }

  ghost function Running(events: seq<Event>): set<nat> {
    if events == [] then {}
    else if Last(events).Start? then Running(Front(events)) + {Last(events).index}
    else Running(Front(events)) - {Last(events).index}
  }

  /** How often message `i` was started, and how often it finished. */
  ghost function Starts(events: seq<Event>, i: nat): nat {
    if events == [] then 0
    else Starts(Front(events), i) + One(Last(events) == Start(i, Last(events).time))
  }

  ghost function Finishes(events: seq<Event>, i: nat): nat {
    if events == [] then 0
    else Finishes(Front(events), i) + One(Last(events) == Finish(i, Last(events).time))
  }

  ghost predicate Accounted(running: set<nat>, finished: set<nat>, events: seq<Event>, i: nat) {
    && Starts(events, i) == One(i in running || i in finished)
    && Finishes(events, i) == One(i in finished)
  }

  predicate Released(b: Backoff, now: int) {
    b.Immediate? || b.time <= now
  }

  ghost predicate UpTo(events: seq<Event>, now: int) {
    events != [] ==> Last(events).time <= now
  }

  /** Starts respect the backoff, only running messages finish, time does not go back, and no
      more than `limit` messages run after any event. */
  ghost predicate WellScheduled(backoffs: seq<Backoff>, limit: int, events: seq<Event>) {
    events != [] ==>
      var e := Last(events);
      && WellScheduled(backoffs, limit, Front(events))
      && UpTo(Front(events), e.time)
      && e.index < |backoffs|
      && (e.Start? ==> Released(backoffs[e.index], e.time))
      && (e.Finish? ==> e.index in Running(Front(events)))
      && |Running(events)| <= limit
  }

  lemma AppendEvent(events: seq<Event>, e: Event)
    ensures Last(events + [e]) == e && Front(events + [e]) == events
  {
  }

  // ----- the clock and the queues -----

  /** A clock reading; the clock never goes back. */
  method Now(last: int) returns (t: int)
    ensures last <= t
  {
    var elapsed :| 0 <= elapsed;
    t := last + elapsed;
  }

  method NextRelease(delayed: seq<Delayed>) returns (t: int)
    requires delayed != []
    ensures exists i :: 0 <= i < |delayed| && delayed[i].release == t
    ensures forall i | 0 <= i < |delayed| :: t <= delayed[i].release
  {
    t := delayed[0].release;
    for i := 1 to |delayed|
      invariant exists j :: 0 <= j < |delayed| && delayed[j].release == t
      invariant forall j | 0 <= j < i :: t <= delayed[j].release
    {
      if delayed[i].release < t { t := delayed[i].release; }
    }
  }

  /** The waiting messages that are due at `now`, in order, and those that are not. */
  function Due(ds: seq<Delayed>, now: int): seq<nat> {
    if ds == [] then []
    else Due(ds[..|ds| - 1], now) + if ds[|ds| - 1].release <= now then [ds[|ds| - 1].index] else []
  }

  function NotDue(ds: seq<Delayed>, now: int): seq<Delayed> {
    if ds == [] then []
    else NotDue(ds[..|ds| - 1], now) + if ds[|ds| - 1].release <= now then [] else [ds[|ds| - 1]]
  }

  /** `_release_due_messages`. */
  method ReleaseDue(ready: seq<nat>, delayed: seq<Delayed>, now: int) returns (ready': seq<nat>, delayed': seq<Delayed>)
    ensures ready' == ready + Due(delayed, now)
    ensures delayed' == NotDue(delayed, now)
  {
    ready', delayed' := ready, [];
    for i := 0 to |delayed|
      invariant ready' == ready + Due(delayed[..i], now)
      invariant delayed' == NotDue(delayed[..i], now)
    {
      assert delayed[..i + 1][..i] == delayed[..i];
      if delayed[i].release <= now {
        ready' := ready' + [delayed[i].index];
      } else {
        delayed' := delayed' + [delayed[i]];
      }
    }
    assert delayed[..|delayed|] == delayed;
  }

  /** `delayed` holds messages with the release times of their backoffs. */
  ghost predicate Waiting(backoffs: seq<Backoff>, delayed: seq<Delayed>) {
    forall d | d in delayed :: d.index < |backoffs| && backoffs[d.index] == NotBefore(d.release)
  }

  ghost predicate AllReleased(backoffs: seq<Backoff>, ready: seq<nat>, now: int) {
    forall i | i in ready :: i < |backoffs| && Released(backoffs[i], now)
  }

  /** Releasing loses and invents nothing. */
  lemma {:induction false} ReleaseConserves(ds: seq<Delayed>, now: int)
    ensures multiset(Due(ds, now)) + multiset(Indices(NotDue(ds, now))) == multiset(Indices(ds))
    ensures |Due(ds, now)| + |NotDue(ds, now)| == |ds|
    decreases |ds|
  {
    if ds != [] {
      var front, d := ds[..|ds| - 1], ds[|ds| - 1];
      ReleaseConserves(front, now);
      assert Indices(ds) == Indices(front) + [d.index];
      if d.release <= now {
        assert NotDue(ds, now) == NotDue(front, now) && Due(ds, now) == Due(front, now) + [d.index];
      } else {
        assert Due(ds, now) == Due(front, now);
        assert Indices(NotDue(ds, now)) == Indices(NotDue(front, now)) + [d.index];
      }
    }
  }

  /** It releases only what is due. */
  lemma {:induction false} ReleaseRespectsBackoff(backoffs: seq<Backoff>, ds: seq<Delayed>, now: int)
    requires Waiting(backoffs, ds)
    ensures Waiting(backoffs, NotDue(ds, now)) && AllReleased(backoffs, Due(ds, now), now)
    decreases |ds|
  {
    if ds != [] {
      var front, d := ds[..|ds| - 1], ds[|ds| - 1];
      ReleaseRespectsBackoff(backoffs, front, now);
      assert d in ds;
      assert forall i | i in Due(ds, now) :: i in Due(front, now) || (i == d.index && d.release <= now);
    }
  }

  /** It makes progress as soon as the clock has reached some release time. */
  lemma {:induction false} ReleaseProgresses(ds: seq<Delayed>, now: int, i: nat)
    requires i < |ds| && ds[i].release <= now
    ensures Due(ds, now) != []
    decreases |ds|
  {
    if i < |ds| - 1 {
      ReleaseProgresses(ds[..|ds| - 1], now, i);
    }
  }

  // ----- the loop -----

  /** Where the messages are: what waits is not due yet, what is ready is released. */
  ghost predicate Placed(backoffs: seq<Backoff>, ready: seq<nat>, delayed: seq<Delayed>, running: set<nat>,
      finished: set<nat>, now: int)
  {
    && Partition(|backoffs|, ready, delayed, running, finished)
    && Waiting(backoffs, delayed) && AllReleased(backoffs, ready, now)
  }

  /** What the trace says: it is well scheduled and accounts for what runs and has finished. */
  ghost predicate Traced(backoffs: seq<Backoff>, limit: int, running: set<nat>, finished: set<nat>,
      events: seq<Event>, now: int) {
    && WellScheduled(backoffs, limit, events) && UpTo(events, now)
    && running == Running(events) && |running| <= limit
    && (forall i: nat :: Accounted(running, finished, events, i))
    && running !! finished
  }

  /** What holds whenever the scheduler looks at its queues. */
  ghost predicate Sound<R>(backoffs: seq<Backoff>, limit: int, handle: nat -> R, ready: seq<nat>,
      delayed: seq<Delayed>, running: set<nat>, byIndex: map<nat, R>, events: seq<Event>, now: int)
  {
    && Placed(backoffs, ready, delayed, running, byIndex.Keys, now)
    && Traced(backoffs, limit, running, byIndex.Keys, events, now)
    && (forall i | i in byIndex :: byIndex[i] == handle(i))
  }

  lemma PartitionGrow(n: nat, ready: seq<nat>, delayed: seq<Delayed>, release: int)
    requires Partition(n, ready, delayed, {}, {})
    ensures Partition(n + 1, ready + [n], delayed, {}, {})
    ensures Partition(n + 1, ready, delayed + [Delayed(n, release)], {}, {})
  {
    assert Indices(delayed + [Delayed(n, release)]) == Indices(delayed) + [n];
    var n1 := n + 1;
    forall i: nat ensures PlacedOnce(n1, ready + [n], delayed, {}, {}, i) {
      assert PlacedOnce(n, ready, delayed, {}, {}, i);
    }
    forall i: nat ensures PlacedOnce(n1, ready, delayed + [Delayed(n, release)], {}, {}, i) {
      assert PlacedOnce(n, ready, delayed, {}, {}, i);
    }
  }

  /** The first pass over the batch, with its own clock reading for each held-back message. */
  method Sort(backoffs: seq<Backoff>, start: int) returns (ready: seq<nat>, delayed: seq<Delayed>, now: int)
    ensures start <= now
    ensures Partition(|backoffs|, ready, delayed, {}, {})
    ensures Waiting(backoffs, delayed) && AllReleased(backoffs, ready, now)
  {
    ready, delayed, now := [], [], start;
    for i := 0 to |backoffs|
      invariant start <= now
      invariant Partition(i, ready, delayed, {}, {})
      invariant Waiting(backoffs, delayed) && AllReleased(backoffs, ready, now)
    {
      if backoffs[i].NotBefore? {
        now := Now(now);
      }
      PartitionGrow(i, ready, delayed, if backoffs[i].NotBefore? then backoffs[i].time else 0);
      if backoffs[i].NotBefore? && now < backoffs[i].time {
        delayed := delayed + [Delayed(i, backoffs[i].time)];
      } else {
        ready := ready + [i];
      }
    }
  }

  /** `while ready_messages and len(running) < worker_limit`. */
  method StartReady<R>(backoffs: seq<Backoff>, limit: int, ghost handle: nat -> R, ready: seq<nat>,
      ghost delayed: seq<Delayed>, running: set<nat>, ghost byIndex: map<nat, R>, events: seq<Event>, now: int)
    returns (ready': seq<nat>, running': set<nat>, events': seq<Event>, now': int)
    requires 1 <= limit && Sound(backoffs, limit, handle, ready, delayed, running, byIndex, events, now)
    ensures now <= now' && Sound(backoffs, limit, handle, ready', delayed, running', byIndex, events', now')
    ensures |ready'| + |running'| == |ready| + |running| && |ready'| <= |ready|
    ensures ready' == [] || |running'| == limit
  {
    ready', running', events', now' := ready, running, events, now;
    while ready' != [] && |running'| < limit
      invariant now <= now' && Sound(backoffs, limit, handle, ready', delayed, running', byIndex, events', now')
      invariant |ready'| + |running'| == |ready| + |running| && |ready'| <= |ready|
      decreases |ready'|
    {
      var later := Now(now');
      LaterKeepsSound(backoffs, limit, handle, ready', delayed, running', byIndex, events', now', later);
      now' := later;
      var i := ready'[0];
      StartKeepsSound(backoffs, limit, handle, ready', delayed, running', byIndex, events', now');
      ready', running', events' := ready'[1..], running' + {i}, events' + [Start(i, now')];
    }
  }

  lemma PartitionStart(n: nat, ready: seq<nat>, delayed: seq<Delayed>, running: set<nat>, finished: set<nat>)
    requires Partition(n, ready, delayed, running, finished) && ready != []
    ensures ready[0] < n && ready[0] !in running && ready[0] !in finished
    ensures Partition(n, ready[1..], delayed, running + {ready[0]}, finished)
  {
    assert ready == [ready[0]] + ready[1..];
    assert PlacedOnce(n, ready, delayed, running, finished, ready[0]);
    forall i: nat ensures PlacedOnce(n, ready[1..], delayed, running + {ready[0]}, finished, i) {
      assert PlacedOnce(n, ready, delayed, running, finished, i);
    }
  }

  lemma LaterKeepsSound<R>(backoffs: seq<Backoff>, limit: int, handle: nat -> R, ready: seq<nat>,
      delayed: seq<Delayed>, running: set<nat>, byIndex: map<nat, R>, events: seq<Event>, now: int, later: int)
    requires Sound(backoffs, limit, handle, ready, delayed, running, byIndex, events, now) && now <= later
    ensures Sound(backoffs, limit, handle, ready, delayed, running, byIndex, events, later)
  {
  }

  lemma StartKeepsSound<R>(backoffs: seq<Backoff>, limit: int, handle: nat -> R, ready: seq<nat>,
      delayed: seq<Delayed>, running: set<nat>, byIndex: map<nat, R>, events: seq<Event>, now: int)
    requires Sound(backoffs, limit, handle, ready, delayed, running, byIndex, events, now)
    requires ready != [] && |running| < limit
    ensures Sound(backoffs, limit, handle, ready[1..], delayed, running + {ready[0]}, byIndex,
        events + [Start(ready[0], now)], now)
    ensures ready[0] !in running
  {
    PartitionStart(|backoffs|, ready, delayed, running, byIndex.Keys);
    TraceStart(backoffs, limit, running, byIndex.Keys, events, now, ready[0]);
  }

  lemma PartitionFinish(n: nat, ready: seq<nat>, delayed: seq<Delayed>, running: set<nat>, finished: set<nat>, i: nat)
    requires Partition(n, ready, delayed, running, finished) && i in running
    ensures i < n && i !in finished
    ensures Partition(n, ready, delayed, running - {i}, finished + {i})
  {
    assert PlacedOnce(n, ready, delayed, running, finished, i);
    forall j: nat ensures PlacedOnce(n, ready, delayed, running - {i}, finished + {i}, j) {
      assert PlacedOnce(n, ready, delayed, running, finished, j);
    }
  }

  lemma TraceStart(backoffs: seq<Backoff>, limit: int, running: set<nat>, finished: set<nat>, events: seq<Event>,
      now: int, i: nat)
    requires Traced(backoffs, limit, running, finished, events, now)
    requires i < |backoffs| && i !in running && i !in finished && |running| < limit && Released(backoffs[i], now)
    ensures Traced(backoffs, limit, running + {i}, finished, events + [Start(i, now)], now)
  {
    AppendEvent(events, Start(i, now));
    forall j: nat ensures Accounted(running + {i}, finished, events + [Start(i, now)], j) {
      assert Accounted(running, finished, events, j);
    }
  }

  lemma TraceFinish(backoffs: seq<Backoff>, limit: int, running: set<nat>, finished: set<nat>, events: seq<Event>,
      now: int, i: nat)
    requires Traced(backoffs, limit, running, finished, events, now)
    requires i < |backoffs| && i in running
    ensures Traced(backoffs, limit, running - {i}, finished + {i}, events + [Finish(i, now)], now)
  {
    AppendEvent(events, Finish(i, now));
    forall j: nat ensures Accounted(running - {i}, finished + {i}, events + [Finish(i, now)], j) {
      assert Accounted(running, finished, events, j);
    }
  }

  lemma FinishKeepsSound<R>(backoffs: seq<Backoff>, limit: int, handle: nat -> R, ready: seq<nat>,
      delayed: seq<Delayed>, running: set<nat>, byIndex: map<nat, R>, events: seq<Event>, now: int, i: nat)
    requires Sound(backoffs, limit, handle, ready, delayed, running, byIndex, events, now) && i in running
    ensures Sound(backoffs, limit, handle, ready, delayed, running - {i}, byIndex[i := handle(i)],
        events + [Finish(i, now)], now)
  {
    PartitionFinish(|backoffs|, ready, delayed, running, byIndex.Keys, i);
    TraceFinish(backoffs, limit, running, byIndex.Keys, events, now, i);
    assert byIndex[i := handle(i)].Keys == byIndex.Keys + {i};
  }

  /** `for future in done`: the finished handlers leave the pool with their results. */
  method Collect<R>(backoffs: seq<Backoff>, limit: int, handle: nat -> R, ghost ready: seq<nat>,
      ghost delayed: seq<Delayed>, running: set<nat>, byIndex: map<nat, R>, events: seq<Event>, now: int,
      done: set<nat>)
    returns (running': set<nat>, byIndex': map<nat, R>, events': seq<Event>)
    requires Sound(backoffs, limit, handle, ready, delayed, running, byIndex, events, now) && done <= running
    ensures Sound(backoffs, limit, handle, ready, delayed, running', byIndex', events', now)
    ensures running' == running - done
  {
    running', byIndex', events' := running, byIndex, events;
    var rest := done;
    while rest != {}
      invariant rest <= done <= running
      invariant running' == running - done + rest
      invariant Sound(backoffs, limit, handle, ready, delayed, running', byIndex', events', now)
      decreases rest
    {
      var i :| i in rest;
      FinishKeepsSound(backoffs, limit, handle, ready, delayed, running', byIndex', events', now, i);
      running', byIndex', events' := running' - {i}, byIndex'[i := handle(i)], events' + [Finish(i, now)];
      rest := rest - {i};
    }
  }

  /** Moving what is due keeps the queues sound. */
  lemma ReleaseKeepsPlaced(backoffs: seq<Backoff>, ready: seq<nat>, delayed: seq<Delayed>, running: set<nat>,
      finished: set<nat>, now: int, later: int)
    requires Placed(backoffs, ready, delayed, running, finished, now) && now <= later
    ensures Placed(backoffs, ready + Due(delayed, later), NotDue(delayed, later), running, finished, later)
  {
    ReleaseConserves(delayed, later);
    ReleaseRespectsBackoff(backoffs, delayed, later);
    forall i: nat
      ensures PlacedOnce(|backoffs|, ready + Due(delayed, later), NotDue(delayed, later), running, finished, i)
    {
      assert PlacedOnce(|backoffs|, ready, delayed, running, finished, i);
      assert (multiset(Due(delayed, later)) + multiset(Indices(NotDue(delayed, later))))[i]
          == multiset(Indices(delayed))[i];
    }
  }

  /** Reads the clock and releases what is due. */
  method Release(ghost backoffs: seq<Backoff>, ready: seq<nat>, delayed: seq<Delayed>, ghost running: set<nat>,
      ghost finished: set<nat>, now: int)
    returns (ready': seq<nat>, delayed': seq<Delayed>, now': int)
    requires Placed(backoffs, ready, delayed, running, finished, now)
    ensures now <= now' && Placed(backoffs, ready', delayed', running, finished, now')
    ensures |ready'| + |delayed'| == |ready| + |delayed| && |delayed'| <= |delayed|
    ensures (exists i :: 0 <= i < |delayed| && delayed[i].release <= now) ==> |delayed'| < |delayed|
  {
    now' := Now(now);
    ready', delayed' := ReleaseDue(ready, delayed, now');
    ReleaseKeepsPlaced(backoffs, ready, delayed, running, finished, now, now');
    ReleaseConserves(delayed, now');
    if i :| 0 <= i < |delayed| && delayed[i].release <= now {
      ReleaseProgresses(delayed, now', i);
    }
  }

  /** When all queues are empty, every message has finished and nothing else has. */
  lemma AllFinished(backoffs: seq<Backoff>, limit: int, finished: set<nat>, events: seq<Event>, now: int)
    requires Placed(backoffs, [], [], {}, finished, now) && Traced(backoffs, limit, {}, finished, events, now)
    ensures forall i: nat | i < |backoffs| :: i in finished
    ensures forall i: nat :: Starts(events, i) == Finishes(events, i) == One(i < |backoffs|)
  {
    forall i: nat
      ensures i < |backoffs| ==> i in finished
      ensures Starts(events, i) == Finishes(events, i) == One(i < |backoffs|)
    {
      assert PlacedOnce(|backoffs|, [], [], {}, finished, i);
      assert Accounted({}, finished, events, i);
    }
  }

  /** `wait(..., FIRST_COMPLETED)` with a timeout exactly when some message is held back: it
      returns with a finished handler, or the timeout has brought the clock to a release time. */
  method Wait(running: set<nat>, delayed: seq<Delayed>, now: int) returns (done: set<nat>, now': int)
    requires running != {}
    ensures done <= running && now <= now'
    ensures done == {} ==> exists i :: 0 <= i < |delayed| && delayed[i].release <= now'
  {
    var first :| first in running;
    now' := Now(now);
    done :| done <= running;
    if done == {} {
      var timesOut: bool := *;
      if delayed != [] && timesOut {
        var next := NextRelease(delayed);
        now' := Now(Max(now', next));
      } else {
        done := {first};
      }
    }
  }

  /** The iteration with running handlers: wait, collect, release. */
  method WaitAndCollect<R>(backoffs: seq<Backoff>, limit: int, handle: nat -> R, ready: seq<nat>,
      delayed: seq<Delayed>, running: set<nat>, byIndex: map<nat, R>, events: seq<Event>, now: int)
    returns (ready': seq<nat>, delayed': seq<Delayed>, running': set<nat>, byIndex': map<nat, R>,
        events': seq<Event>, now': int)
    requires Sound(backoffs, limit, handle, ready, delayed, running, byIndex, events, now) && running != {}
    ensures Sound(backoffs, limit, handle, ready', delayed', running', byIndex', events', now')
    ensures 3 * |delayed'| + 2 * |ready'| + |running'| < 3 * |delayed| + 2 * |ready| + |running|
  {
    var done;
    done, now' := Wait(running, delayed, now);
    running', byIndex', events' := Collect(backoffs, limit, handle, ready, delayed, running, byIndex, events,
        now', done);
    if done != {} {
      var i :| i in done;
      assert running' <= running - {i};
      SubsetSize(running', running - {i});
    }
    ready', delayed', now' := Release(backoffs, ready, delayed, running', byIndex'.Keys, now');
  }

  /** The iteration with an empty pool: release, and sleep first if nothing is due yet. */
  method SleepUntilDue(ghost backoffs: seq<Backoff>, ready: seq<nat>, delayed: seq<Delayed>,
      ghost finished: set<nat>, now: int)
    returns (ready': seq<nat>, delayed': seq<Delayed>, now': int)
    requires Placed(backoffs, ready, delayed, {}, finished, now) && delayed != []
    ensures now <= now' && Placed(backoffs, ready', delayed', {}, finished, now')
    ensures |ready'| + |delayed'| == |ready| + |delayed| && |delayed'| < |delayed|
  {
    ready', delayed', now' := Release(backoffs, ready, delayed, {}, finished, now);
    if |delayed'| == |delayed| {
      var next := NextRelease(delayed');
      now' := Now(Max(now', next));
      ready', delayed', now' := Release(backoffs, ready', delayed', {}, finished, now');
    }
  }

  /** `run_core_batch_once` after the batch has been read: `handle(i)` is the result of the
      handler for message `i`. */
  method RunBatch<R>(backoffs: seq<Backoff>, maxInflight: int, handle: nat -> R, start: int)
    returns (results: seq<R>, events: seq<Event>)
    ensures |results| == |backoffs| && forall i | 0 <= i < |backoffs| :: results[i] == handle(i)
    ensures WellScheduled(backoffs, Max(1, maxInflight), events)
    ensures forall i: nat :: Starts(events, i) == Finishes(events, i) == One(i < |backoffs|)
  {
    var limit := Max(1, maxInflight);
    var ready, delayed, now := Sort(backoffs, start);
    var running: set<nat> := {};
    var byIndex: map<nat, R> := map[];
    events := [];
    assert byIndex.Keys == {};
    while ready != [] || delayed != [] || running != {}
      invariant Sound(backoffs, limit, handle, ready, delayed, running, byIndex, events, now)
      decreases 3 * |delayed| + 2 * |ready| + |running|
    {
      ready, running, events, now := StartReady(backoffs, limit, handle, ready, delayed, running, byIndex, events, now);
      if running != {} {
        ready, delayed, running, byIndex, events, now :=
          WaitAndCollect(backoffs, limit, handle, ready, delayed, running, byIndex, events, now);
      } else {
        ready, delayed, now := SleepUntilDue(backoffs, ready, delayed, byIndex.Keys, now);
      }
    }
    AllFinished(backoffs, limit, byIndex.Keys, events, now);
    results := seq(|backoffs|, i requires 0 <= i < |backoffs| && i in byIndex => byIndex[i]);
  }
}
