/** How old is the oldest un-acknowledged delivery? The admin service (Go) and the worker's metrics
    sampler (Python) both page through Redis's pending list for the answer. */
module PendingScan {
  import opened Common

  /** The admin service's answer, or the error of a failed fetch. */
  datatype Answer = Age(seconds: int) | Err

  /** Which fetch fails, if any. */
  datatype Fault = Never | Call(n: nat)

  /** One pending delivery; `idle` is in milliseconds. */
  datatype Entry = Entry(id: string, idle: int)

  /** The order of stream ids. */
  type Order = string -> int

  /** The pending list, oldest id first, as Redis keeps it. */
  ghost predicate Sorted(order: Order, pending: seq<Entry>) {
    forall i, j | 0 <= i < j < |pending| :: order(pending[i].id) < order(pending[j].id)
  }

  predicate Space(c: char) { c == ' ' || '\t' <= c <= '\r' }

  function TrimLeft(s: string): string {
    if s != "" && Space(s[0]) then TrimLeft(s[1..]) else s
  }

  /** Nothing is left after trimming. */
  predicate Blank(id: string) { TrimLeft(id) == "" }

  /** The start argument of `XPENDING`: `-`, or `(` and an id. */
  datatype Start = Beginning | After(id: string)

  function From(order: Order, pending: seq<Entry>, start: Start): seq<Entry> {
    if pending == [] || start.Beginning? || order(pending[0].id) > order(start.id) then pending
    else From(order, pending[1..], start)
  }

  /** One `XPENDING` call. */
  function Fetch(order: Order, pending: seq<Entry>, start: Start, count: nat): seq<Entry> {
    var rest := From(order, pending, start);
    if |rest| <= count then rest else rest[..count]
  }

  /** The scan has covered `pending[..pos]` and would continue there. */
  ghost predicate At(order: Order, pending: seq<Entry>, start: Start, pos: nat) {
    pos <= |pending| && From(order, pending, start) == pending[pos..]
  }

  lemma {:induction false} ContinuesAfter(order: Order, pending: seq<Entry>, pos: nat)
    requires Sorted(order, pending) && 0 < pos <= |pending|
    ensures At(order, pending, After(pending[pos - 1].id), pos)
    decreases pos
  {
    var start := After(pending[pos - 1].id);
    if pos == 1 {
      assert From(order, pending, start) == From(order, pending[1..], start);
    } else {
      ContinuesAfter(order, pending[1..], pos - 1);
      assert pending[1..][pos - 1..] == pending[pos..];
    }
  }

  // ----- the answer -----

  function Seconds(e: Entry): int { e.idle / 1000 }

  /** The greatest idle time in whole seconds, at least zero. */
  function Oldest(entries: seq<Entry>): int {
    if entries == [] then 0
    else Max(Oldest(entries[..|entries| - 1]), Seconds(entries[|entries| - 1]))
  }

  /** It is an upper bound, and one that is reached. */
  lemma {:induction false} OldestIsMaximum(entries: seq<Entry>)
    ensures forall e | e in entries :: Seconds(e) <= Oldest(entries)
    ensures Oldest(entries) == 0 || exists e :: e in entries && Seconds(e) == Oldest(entries)
    ensures Oldest(entries) >= 0
    decreases |entries|
  {
    if entries != [] {
      var front, last := entries[..|entries| - 1], entries[|entries| - 1];
      OldestIsMaximum(front);
      assert entries == front + [last];
      assert last in entries;
    }
  }

  lemma {:induction false} OldestOfConcat(a: seq<Entry>, b: seq<Entry>)
    ensures Oldest(a + b) == Max(Oldest(a), Oldest(b))
    decreases |b|
  {
    OldestIsMaximum(a);
    if b == [] {
      assert a + b == a;
    } else {
      OldestOfConcat(a, b[..|b| - 1]);
      assert (a + b)[..|a + b| - 1] == a + b[..|b| - 1];
    }
  }

  ghost predicate NoBlankIds(pending: seq<Entry>) {
    forall e | e in pending :: !Blank(e.id)
  }

  /** One `XPENDING` call made where the scan stands: the page is the next stretch of the list, a
      short page is the last one, and a full page leaves the scan right behind it. */
  method FetchPage(order: Order, pending: seq<Entry>, start: Start, size: nat, ghost pos: nat)
    returns (items: seq<Entry>, ghost next: nat)
    requires Sorted(order, pending) && At(order, pending, start, pos) && size > 0
    ensures next == pos + |items| == (if |pending| - pos < size then |pending| else pos + size)
    ensures Oldest(pending[..next]) == Max(Oldest(pending[..pos]), Oldest(items))
    ensures |items| == size ==> At(order, pending, After(items[size - 1].id), next)
    ensures |items| == size && NoBlankIds(pending) ==> !Blank(items[size - 1].id)
  {
    items := Fetch(order, pending, start, size);
    next := pos + |items|;
    assert items == pending[pos..next];
    OldestOfPrefix(pending, pos, next);
    if |items| == size {
      assert items[size - 1] == pending[next - 1];
      ContinuesAfter(order, pending, next);
    }
  }

  lemma OldestOfPrefix(pending: seq<Entry>, pos: nat, next: nat)
    requires pos <= next <= |pending|
    ensures Oldest(pending[..next]) == Max(Oldest(pending[..pos]), Oldest(pending[pos..next]))
  {
    assert pending[..next] == pending[..pos] + pending[pos..next];
    OldestOfConcat(pending[..pos], pending[pos..next]);
  }

  function PageSize(n: int): (r: nat)
    ensures r > 0
  {
    if n <= 0 then 100 else n
  }

  /** How many pages it takes to see a short one. */
  function Fetches(n: nat, size: nat): nat
    requires size > 0
  {
    if n < size then 1 else 1 + Fetches(n - size, size)
  }

  lemma {:induction false} FetchesClosedForm(n: nat, size: nat)
    requires size > 0
    ensures size * (Fetches(n, size) - 1) <= n < size * Fetches(n, size)
    decreases n
  {
    if n >= size { FetchesClosedForm(n - size, size); }
  }

  // ----- the admin service -----

  const SECOND := 1_000_000_000

  /** `int64(item.Idle / time.Second)`: a quotient of nanoseconds that truncates towards zero. */
  function IdleSeconds(e: Entry): int {
    var ns := e.idle * 1_000_000;
    if ns >= 0 then ns / SECOND else -(-ns / SECOND)
  }

  lemma IdleSecondsAreSeconds(e: Entry)
    ensures e.idle >= 0 ==> IdleSeconds(e) == Seconds(e)
    ensures e.idle < 0 ==> IdleSeconds(e) <= 0 && Seconds(e) < 0
  {
  }

  method OldestOnPage(items: seq<Entry>, start: int) returns (oldest: int)
    requires start >= 0
    ensures oldest == Max(start, Oldest(items))
  {
    oldest := start;
    for i := 0 to |items|
      invariant oldest == Max(start, Oldest(items[..i]))
    {
      assert items[..i + 1][..i] == items[..i];
      IdleSecondsAreSeconds(items[i]);
      var idleSeconds := IdleSeconds(items[i]);
      if idleSeconds > oldest { oldest := idleSeconds; }
    }
    assert items[..|items|] == items;
  }

  /** One page: fetch it and take it into account. `lastId` is the id the next page starts after. */
  method ScanPage(order: Order, pending: seq<Entry>, start: Start, size: nat, oldest: int, ghost pos: nat)
    returns (count: nat, lastId: string, oldest': int, ghost next: nat)
    requires Sorted(order, pending) && At(order, pending, start, pos) && size > 0
    requires oldest == Oldest(pending[..pos])
    ensures next == pos + count == (if |pending| - pos < size then |pending| else pos + size)
    ensures oldest' == Oldest(pending[..next])
    ensures count == size ==> At(order, pending, After(lastId), next)
    ensures count == size && NoBlankIds(pending) ==> !Blank(lastId)
  {
    OldestIsMaximum(pending[..pos]);
    var items;
    items, next := FetchPage(order, pending, start, size, pos);
    count, lastId := |items|, "";
    oldest' := OldestOnPage(items, oldest);
    if count > 0 { lastId := items[count - 1].id; }
  }

  lemma FullPage(n: nat, size: nat)
    requires 0 < size <= n
    ensures Fetches(n, size) == 1 + Fetches(n - size, size)
  {
  }

  /** `maxPendingIdleSeconds`. The first `pos` entries are covered. */
  method MaxPendingIdleSeconds(order: Order, pending: seq<Entry>, pageSize: int, fault: Fault)
    returns (r: Answer, ghost pos: nat)
    requires Sorted(order, pending)
    ensures pos <= |pending| && (r.Age? ==> r.seconds == Oldest(pending[..pos]))
    ensures NoBlankIds(pending) && r.Age? ==> pos == |pending|
    ensures NoBlankIds(pending) ==>
      (r.Err? <==> fault.Call? && fault.n < Fetches(|pending|, PageSize(pageSize)))
  {
    var size := PageSize(pageSize);
    var start, oldest, calls := Beginning, 0, 0;
    ghost var left := Fetches(|pending|, size);
    pos := 0;
    while true
      invariant At(order, pending, start, pos) && oldest == Oldest(pending[..pos])
      invariant left == Fetches(|pending| - pos, size) && 0 <= calls && calls + left == Fetches(|pending|, size)
      invariant fault.Call? ==> calls <= fault.n
      decreases |pending| - pos
    {
      if fault.Call? && fault.n == calls { return Err, pos; }
      var count, lastId;
      if |pending| - pos >= size { FullPage(|pending| - pos, size); }
      count, lastId, oldest, pos := ScanPage(order, pending, start, size, oldest, pos);
      if count == 0 || count < size { return Age(oldest), pos; }
      calls, left := calls + 1, left - 1;
      if Blank(lastId) { return Age(oldest), pos; }
      start := After(lastId);
    }
  }

  // ----- the worker -----

  function OldestMs(entries: seq<Entry>): int {
    if entries == [] then 0
    else Max(OldestMs(entries[..|entries| - 1]), entries[|entries| - 1].idle)
  }

  /** Rounding down the maximum is the maximum of the rounded values. */
  lemma {:induction false} RoundOnceOrEach(entries: seq<Entry>)
    ensures OldestMs(entries) / 1000 == Oldest(entries)
    decreases |entries|
  {
    if entries != [] { RoundOnceOrEach(entries[..|entries| - 1]); }
  }

  /** `_oldest_pending_age_seconds`: the greatest time in milliseconds, then whole seconds. */
  method OldestPendingAgeSeconds(entries: seq<Entry>) returns (r: int)
    ensures r == Oldest(entries)
  {
    var oldest := 0;
    for i := 0 to |entries|
      invariant oldest == OldestMs(entries[..i])
    {
      assert entries[..i + 1][..i] == entries[..i];
      if entries[i].idle > oldest { oldest := entries[i].idle; }
    }
    assert entries[..|entries|] == entries;
    RoundOnceOrEach(entries);
    r := oldest / 1000;
  }

  /** `_sample_oldest_pending_age_seconds`; no client means no pending list. */
  method SampleOldestPendingAgeSeconds(order: Order, client: Option<seq<Entry>>, pageSize: int)
    returns (r: int, ghost pos: nat)
    requires client.Some? ==> Sorted(order, client.value)
    ensures client.None? ==> r == 0
    ensures client.Some? ==> pos <= |client.value| && r == Oldest(client.value[..pos])
    ensures client.Some? && NoBlankIds(client.value) ==> pos == |client.value|
  {
    pos := 0;
    if client.None? { return 0, 0; }
    var pending := client.value;
    var size := PageSize(pageSize);
    var start := Beginning;
    r := 0;
    while true
      invariant At(order, pending, start, pos)
      invariant r == Oldest(pending[..pos])
      decreases |pending| - pos
    {
      var entries;
      entries, pos := FetchPage(order, pending, start, size, pos);
      var age := OldestPendingAgeSeconds(entries);
      r := Max(r, age);
      if |entries| < size { return; }
      var lastId := entries[|entries| - 1].id;
      if Blank(lastId) { return; }
      start := After(lastId);
    }
  }
}
