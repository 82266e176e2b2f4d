/** The fixed-window rate limiter of the admin API. Times are instants at or after Go's zero
    time, which is 0; a counter that was never set has that zero time as its window end. */
module RateLimiter {

  datatype Counter = Counter(count: int, windowEnd: nat)

  const NO_COUNTER := Counter(0, 0)

  datatype Verdict = Verdict(allowed: bool, counter: Counter)

  predicate Enabled(limit: int, window: int) {
    limit > 0 && window > 0
  }

  /** The window that a call at `now` falls into. */
  function Current(c: Counter, window: int, now: nat): Counter
    requires window > 0
  {
    if c.windowEnd == 0 || c.windowEnd <= now then Counter(0, now + window) else c
  }

  function Decide(c: Counter, limit: int, window: int, now: nat): Verdict
    requires Enabled(limit, window)
  {
    var d := Current(c, window, now);
    if d.count >= limit then Verdict(false, d) else Verdict(true, d.(count := d.count + 1))
  }

  function CounterOf(counters: map<string, Counter>, key: string): Counter {
    if key in counters then counters[key] else NO_COUNTER
  }

  class MemoryRateLimiter {
    const limit: int
    const window: int
    var counters: map<string, Counter>

    constructor (limit: int, window: int)
      ensures this.limit == limit && this.window == window && counters == map[]
    {
      this.limit, this.window, counters := limit, window, map[];
    }

    method Allow(key: string, now: nat) returns (ok: bool)
      modifies this
      ensures !Enabled(limit, window) ==> ok && counters == old(counters)
      ensures Enabled(limit, window) ==>
                var v := Decide(CounterOf(old(counters), key), limit, window, now);
                ok == v.allowed && counters == old(counters)[key := v.counter]
    {
      if limit <= 0 || window <= 0 { return true; }
      var counter := if key in counters then counters[key] else NO_COUNTER;
      if counter.windowEnd == 0 || !(counter.windowEnd > now) {
        counter := Counter(0, now + window);
      }
      if counter.count >= limit {
        counters := counters[key := counter];
        return false;
      }
      counter := counter.(count := counter.count + 1);
      counters := counters[key := counter];
      return true;
    }
  }

  // ----- any sequence of calls -----

  datatype Call = Call(key: string, now: nat)

  predicate InTimeOrder(calls: seq<Call>) {
    forall i, j | 0 <= i < j < |calls| :: calls[i].now <= calls[j].now
  }

  /** The limiter's table after the calls. */
  function After(limit: int, window: int, calls: seq<Call>): map<string, Counter>
    requires Enabled(limit, window)
  {
    if calls == [] then map[]
    else
      var before := After(limit, window, calls[..|calls| - 1]);
      var c := calls[|calls| - 1];
      before[c.key := Decide(CounterOf(before, c.key), limit, window, c.now).counter]
  }

  /** Whether a call that comes after `calls` is allowed. */
  predicate Allowed(limit: int, window: int, calls: seq<Call>, c: Call)
    requires Enabled(limit, window)
  {
    Decide(CounterOf(After(limit, window, calls), c.key), limit, window, c.now).allowed
  }

  /** An allowed call, with the end of the window it was counted in. */
  datatype Grant = Grant(time: nat, end: int)

  /** The allowed calls of `key`, in order. */
  function Grants(limit: int, window: int, calls: seq<Call>, key: string): seq<Grant>
    requires Enabled(limit, window)
  {
    if calls == [] then []
    else
      var front, c := calls[..|calls| - 1], calls[|calls| - 1];
      var v := Decide(CounterOf(After(limit, window, front), c.key), limit, window, c.now);
      Grants(limit, window, front, key) + if c.key == key && v.allowed then [Grant(c.now, v.counter.windowEnd)] else []
  }

  function CountEnd(gs: seq<Grant>, end: int): nat {
    if gs == [] then 0 else CountEnd(gs[..|gs| - 1], end) + if gs[|gs| - 1].end == end then 1 else 0
  }

  /** The grants in the half-open interval [from, from + length). */
  function CountWithin(gs: seq<Grant>, from: int, length: int): nat {
    if gs == [] then 0
    else CountWithin(gs[..|gs| - 1], from, length) + if from <= gs[|gs| - 1].time < from + length then 1 else 0
  }

  /** Some grant opened the window that ends at `end`. */
  ghost predicate Opened(window: int, gs: seq<Grant>, end: int) {
    exists o :: o in gs && o.end == end && o.time == end - window
  }

  /** Each grant lies in its window, which a grant opened, and distinct windows do not overlap. */
  ghost predicate WindowsOk(window: int, gs: seq<Grant>) {
    && (forall g | g in gs :: g.end - window <= g.time < g.end && Opened(window, gs, g.end))
    && (forall g, h | g in gs && h in gs && g.end < h.end :: g.end + window <= h.end)
  }

  /** How a counter relates to the grants of its key, given that the clock has reached `now`. */
  ghost predicate Tracks(limit: int, window: int, c: Counter, gs: seq<Grant>, now: nat) {
    && WindowsOk(window, gs)
    && (forall g | g in gs :: g.end <= c.windowEnd && (g.end < c.windowEnd ==> g.end + window <= c.windowEnd))
    && (c.windowEnd == 0 ==> gs == [])
    && 0 <= c.count <= limit && CountEnd(gs, c.windowEnd) == c.count
    && c.windowEnd <= now + window && (c.count > 0 ==> Opened(window, gs, c.windowEnd))
    && (forall e :: CountEnd(gs, e) <= limit)
  }

  /** A counter in the table belongs to no window or counts the call that opened it. */
  ghost predicate Stored(limit: int, window: int, c: Counter, gs: seq<Grant>, now: nat) {
    Tracks(limit, window, c, gs, now) && (c.windowEnd > 0 ==> c.count > 0)
  }

  lemma {:induction false} CountEndAbsent(gs: seq<Grant>, e: int)
    requires forall g | g in gs :: g.end != e
    ensures CountEnd(gs, e) == 0
    decreases |gs|
  {
    if gs != [] { CountEndAbsent(gs[..|gs| - 1], e); }
  }

  lemma CountEndSnoc(gs: seq<Grant>, g: Grant, e: int)
    ensures CountEnd(gs + [g], e) == CountEnd(gs, e) + if g.end == e then 1 else 0
  {
    assert (gs + [g])[..|gs|] == gs;
  }

  lemma AppendGrant(window: int, gs: seq<Grant>, g: Grant)
    requires WindowsOk(window, gs) && g.end - window <= g.time < g.end
    requires Opened(window, gs, g.end) || g.time == g.end - window
    requires forall h | h in gs :: h.end <= g.end && (h.end < g.end ==> h.end + window <= g.end)
    ensures WindowsOk(window, gs + [g]) && Opened(window, gs + [g], g.end)
  {
    var gs' := gs + [g];
    assert g in gs';
    forall e | Opened(window, gs, e) ensures Opened(window, gs', e) {
      var o :| o in gs && o.end == e && o.time == e - window;
      assert o in gs';
    }
    assert Opened(window, gs', g.end);
    assert forall x | x in gs' :: x in gs || x == g;
  }

  /** One more grant in a window that is not full leaves no window over its limit. */
  lemma GrantKeepsCounts(limit: int, gs: seq<Grant>, g: Grant)
    requires (forall e :: CountEnd(gs, e) <= limit) && CountEnd(gs, g.end) < limit
    ensures forall e :: CountEnd(gs + [g], e) <= limit
    ensures CountEnd(gs + [g], g.end) == CountEnd(gs, g.end) + 1
  {
    CountEndSnoc(gs, g, g.end);
    forall e ensures CountEnd(gs + [g], e) <= limit { CountEndSnoc(gs, g, e); }
  }

  lemma GrantTracks(limit: int, window: int, d: Counter, gs: seq<Grant>, now: nat)
    requires Tracks(limit, window, d, gs, now) && d.windowEnd - window <= now < d.windowEnd && d.count < limit
    requires d.count == 0 ==> d.windowEnd == now + window
    ensures Stored(limit, window, d.(count := d.count + 1), gs + [Grant(now, d.windowEnd)], now)
  {
    var g := Grant(now, d.windowEnd);
    AppendGrant(window, gs, g);
    GrantKeepsCounts(limit, gs, g);
    assert forall x | x in gs + [g] :: x in gs || x == g;
  }

  /** One call of the key keeps the counter and the grants in step. */
  lemma DecideTracks(limit: int, window: int, c: Counter, gs: seq<Grant>, last: nat, now: nat)
    requires Enabled(limit, window) && Stored(limit, window, c, gs, last) && last <= now
    ensures var v := Decide(c, limit, window, now);
            Stored(limit, window, v.counter, gs + if v.allowed then [Grant(now, v.counter.windowEnd)] else [], now)
  {
    var d := Current(c, window, now);
    CurrentTracks(limit, window, c, gs, last, now);
    if d.count < limit {
      GrantTracks(limit, window, d, gs, now);
    } else {
      assert gs + [] == gs;
    }
  }

  /** Opening a new window keeps them in step too, and the window then contains `now`. */
  lemma CurrentTracks(limit: int, window: int, c: Counter, gs: seq<Grant>, last: nat, now: nat)
    requires Enabled(limit, window) && Stored(limit, window, c, gs, last) && last <= now
    ensures var d := Current(c, window, now);
            && Tracks(limit, window, d, gs, now) && d.windowEnd - window <= now < d.windowEnd
            && (d.count == 0 ==> d.windowEnd == now + window)
  {
    if c.windowEnd == 0 || c.windowEnd <= now {
      CountEndAbsent(gs, now + window);
    }
  }

  function LastTime(calls: seq<Call>): nat {
    if calls == [] then 0 else calls[|calls| - 1].now
  }

  lemma {:induction false} AfterTracks(limit: int, window: int, calls: seq<Call>, key: string)
    requires Enabled(limit, window) && InTimeOrder(calls)
    ensures Stored(limit, window, CounterOf(After(limit, window, calls), key), Grants(limit, window, calls,
        key), LastTime(calls))
    decreases |calls|
  {
    if calls != [] {
      var front, c := calls[..|calls| - 1], calls[|calls| - 1];
      AfterTracks(limit, window, front, key);
      var before := After(limit, window, front);
      if c.key == key {
        DecideTracks(limit, window, CounterOf(before, key), Grants(limit, window, front, key), LastTime(front), c.now);
      } else {
        assert Grants(limit, window, calls, key) == Grants(limit, window, front, key);
      }
    }
  }

  /** In each window of a key at most `limit` calls are allowed. */
  lemma AtMostLimitPerWindow(limit: int, window: int, calls: seq<Call>, key: string, end: int)
    requires Enabled(limit, window) && InTimeOrder(calls)
    ensures CountEnd(Grants(limit, window, calls, key), end) <= limit
  {
    AfterTracks(limit, window, calls, key);
  }

  /** Grants of two windows at most. */
  lemma {:induction false} CountTwoWindows(gs: seq<Grant>, from: int, length: int, e: int, e': int)
    requires forall g | g in gs && from <= g.time < from + length :: g.end == e || g.end == e'
    ensures CountWithin(gs, from, length) <= CountEnd(gs, e) + CountEnd(gs, e')
    decreases |gs|
  {
    if gs != [] {
      assert gs[|gs| - 1] in gs;
      assert forall g | g in gs[..|gs| - 1] :: g in gs;
      CountTwoWindows(gs[..|gs| - 1], from, length, e, e');
    }
  }

  /** And one less if a grant of the first window lies outside the interval. */
  lemma {:induction false} CountOneLess(gs: seq<Grant>, from: int, length: int, e: int, e': int, o: Grant)
    requires forall g | g in gs && from <= g.time < from + length :: g.end == e || g.end == e'
    requires o in gs && o.end == e && !(from <= o.time < from + length)
    ensures CountWithin(gs, from, length) < CountEnd(gs, e) + CountEnd(gs, e')
    decreases |gs|
  {
    var front := gs[..|gs| - 1];
    assert gs[|gs| - 1] in gs;
    assert forall g | g in front :: g in gs;
    if gs[|gs| - 1] == o {
      CountTwoWindows(front, from, length, e, e');
    } else {
      assert o in front;
      CountOneLess(front, from, length, e, e', o);
    }
  }

  /** An interval that meets the windows ending at e and, later, at e' misses the opening of e. */
  lemma TwoWindowsInInterval(limit: int, window: int, gs: seq<Grant>, from: int, g: Grant, h: Grant)
    requires window > 0 && WindowsOk(window, gs) && (forall e :: CountEnd(gs, e) <= limit)
    requires g in gs && from <= g.time < from + window
    requires h in gs && from <= h.time < from + window && g.end < h.end
    ensures CountWithin(gs, from, window) < 2 * limit
  {
    var o :| o in gs && o.end == g.end && o.time == g.end - window;
    CountOneLess(gs, from, window, g.end, h.end, o);
  }

  /** In any half-open interval as long as the window fewer than twice `limit` calls are
      allowed: the interval meets at most two windows, and not the opening of the first. */
  lemma FewerThanTwiceLimitPerInterval(limit: int, window: int, calls: seq<Call>, key: string, from: int)
    requires Enabled(limit, window) && InTimeOrder(calls)
    ensures CountWithin(Grants(limit, window, calls, key), from, window) < 2 * limit
  {
    var gs := Grants(limit, window, calls, key);
    AfterTracks(limit, window, calls, key);
    if g :| g in gs && from <= g.time < from + window {
      if h :| h in gs && from <= h.time < from + window && h.end != g.end {
        if g.end < h.end { TwoWindowsInInterval(limit, window, gs, from, g, h); }
        else { TwoWindowsInInterval(limit, window, gs, from, h, g); }
      } else {
        CountOneWindow(gs, from, window, g.end);
      }
    } else {
      CountOneWindow(gs, from, window, 0);
    }
  }

  lemma {:induction false} CountOneWindow(gs: seq<Grant>, from: int, length: int, e: int)
    requires forall g | g in gs && from <= g.time < from + length :: g.end == e
    ensures CountWithin(gs, from, length) <= CountEnd(gs, e)
    decreases |gs|
  {
    if gs != [] {
      assert gs[|gs| - 1] in gs;
      assert forall g | g in gs[..|gs| - 1] :: g in gs;
      CountOneWindow(gs[..|gs| - 1], from, length, e);
    }
  }

  /** The calls of one key. */
  function Only(calls: seq<Call>, key: string): seq<Call> {
    if calls == [] then []
    else Only(calls[..|calls| - 1], key) + if calls[|calls| - 1].key == key then [calls[|calls| - 1]] else []
  }

  /** Other keys' calls change nothing: the decision is as if they had not been made. */
  lemma {:induction false} KeysAreIndependent(limit: int, window: int, calls: seq<Call>, c: Call)
    requires Enabled(limit, window)
    ensures CounterOf(After(limit, window, calls), c.key) == CounterOf(After(limit, window, Only(calls, c.key)), c.key)
    ensures Allowed(limit, window, calls, c) <==> Allowed(limit, window, Only(calls, c.key), c)
    decreases |calls|
  {
    if calls != [] {
      var front, last := calls[..|calls| - 1], calls[|calls| - 1];
      KeysAreIndependent(limit, window, front, c);
      var only := Only(front, c.key);
      if last.key == c.key {
        assert (only + [last])[..|only|] == only;
      } else {
        assert only + [] == only;
      }
    }
  }

  /** A call is refused exactly when its window is still open and full; so at or after the end
      of the window it is always allowed. */
  lemma RefusedExactlyWhenFull(limit: int, window: int, calls: seq<Call>, c: Call)
    requires Enabled(limit, window) && InTimeOrder(calls) && LastTime(calls) <= c.now
    ensures !Allowed(limit, window, calls, c)
       <==> var end := CounterOf(After(limit, window, calls), c.key).windowEnd;
            c.now < end && CountEnd(Grants(limit, window, calls, c.key), end) == limit
  {
    AfterTracks(limit, window, calls, c.key);
  }
}
