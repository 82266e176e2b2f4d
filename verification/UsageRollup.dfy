/** Usage facts, one per trace, and the hour and day aggregates rolled up from them: the full
    rebuild, and the windowed rebuild that the frequent path uses instead. */
module UsageRollup {

  // ----- data -----

  datatype Metric =
    | Requests | Successes | Errors | Streams
    | PromptTokens | CompletionTokens | TotalTokens | ReasoningTokens | CachedTokens
    | RequestBytes | ResponseBytes

  datatype Metrics = Metrics(
    requests: int, successes: int, errors: int, streams: int,
    promptTokens: int, completionTokens: int, totalTokens: int, reasoningTokens: int, cachedTokens: int,
    requestBytes: int, responseBytes: int)
  {
    function Of(i: Metric): int {
      match i
      case Requests => requests
      case Successes => successes
      case Errors => errors
      case Streams => streams
      case PromptTokens => promptTokens
      case CompletionTokens => completionTokens
      case TotalTokens => totalTokens
      case ReasoningTokens => reasoningTokens
      case CachedTokens => cachedTokens
      case RequestBytes => requestBytes
      case ResponseBytes => responseBytes
    }
  }

  /** Two rows with the same value for every metric are the same row. */
  lemma SameMetrics(a: Metrics, b: Metrics)
    requires forall i :: a.Of(i) == b.Of(i)
    ensures a == b
  {
    assert a.Of(Requests) == b.Of(Requests) && a.Of(Successes) == b.Of(Successes) && a.Of(Errors) == b.Of(Errors);
    assert a.Of(Streams) == b.Of(Streams) && a.Of(PromptTokens) == b.Of(PromptTokens);
    assert a.Of(CompletionTokens) == b.Of(CompletionTokens) && a.Of(TotalTokens) == b.Of(TotalTokens);
    assert a.Of(ReasoningTokens) == b.Of(ReasoningTokens) && a.Of(CachedTokens) == b.Of(CachedTokens);
    assert a.Of(RequestBytes) == b.Of(RequestBytes) && a.Of(ResponseBytes) == b.Of(ResponseBytes);
  }

  datatype Dims = Dims(fingerprint: string, username: string, model: string, route: string, protocol: string)

  /** Times are microseconds in UTC. */
  datatype Fact = Fact(trace: string, started: int, dims: Dims, metrics: Metrics)

  datatype Started = Unknown | StartedAt(time: int)

  /** One `UsageAggregateDelta`; `bucketStart` stands in for an unknown start. */
  datatype Delta = Delta(trace: string, started: Started, bucketStart: int, dims: Dims, metrics: Metrics)

  datatype Size = Hour | Day | Other(name: string)

  datatype AggKey = AggKey(start: int, size: Size, dims: Dims)

  type Aggregates = map<AggKey, Metrics>

  function Unit(size: Size): int {
    if size.Day? then 86_400_000_000 else 3_600_000_000
  }

  /** `date_trunc`. */
  function Trunc(size: Size, t: int): int {
    if size.Day? then t - t % 86_400_000_000 else t - t % 3_600_000_000
  }

  function KeyOf(size: Size, f: Fact): AggKey {
    AggKey(Trunc(size, f.started), size, f.dims)
  }

  function End(k: AggKey): int {
    k.start + Unit(k.size)
  }

  predicate Rolled(k: AggKey) {
    k.size.Hour? || k.size.Day?
  }

  // ----- sums over facts -----

  /** The sum of metric `i` over the facts whose key for `size` lies in `ks`. */
  function SumIn(facts: seq<Fact>, size: Size, ks: set<AggKey>, i: Metric): int {
    if facts == [] then 0
    else
      var f := facts[|facts| - 1];
      SumIn(facts[..|facts| - 1], size, ks, i) + if KeyOf(size, f) in ks then f.metrics.Of(i) else 0
  }

  function SumAll(facts: seq<Fact>, i: Metric): int {
    if facts == [] then 0 else SumAll(facts[..|facts| - 1], i) + facts[|facts| - 1].metrics.Of(i)
  }

  /** The row that `GROUP BY` computes for `k`. */
  function Group(facts: seq<Fact>, k: AggKey): (r: Metrics)
    ensures forall i :: r.Of(i) == SumIn(facts, k.size, {k}, i)
  {
    var sum := i => SumIn(facts, k.size, {k}, i);
    Metrics(sum(Requests), sum(Successes), sum(Errors), sum(Streams), sum(PromptTokens), sum(CompletionTokens),
            sum(TotalTokens), sum(ReasoningTokens), sum(CachedTokens), sum(RequestBytes), sum(ResponseBytes))
  }

  function Keys(facts: seq<Fact>, size: Size): set<AggKey> {
    set f | f in facts :: KeyOf(size, f)
  }

  /** The facts that started at or after `cutoff`. */
  function Window(facts: seq<Fact>, cutoff: int): seq<Fact> {
    if facts == [] then []
    else
      var f := facts[|facts| - 1];
      Window(facts[..|facts| - 1], cutoff) + if cutoff <= f.started then [f] else []
  }

  // ----- the two rebuilds as functions -----

  /** `INSERT ... SELECT ... GROUP BY ... ON CONFLICT DO UPDATE` for one bucket size. */
  function Rollup(aggs: Aggregates, facts: seq<Fact>, size: Size): Aggregates {
    aggs + map k | k in Keys(facts, size) :: Group(facts, k)
  }

  /** The rows that the `DELETE` of each rebuild leaves. */
  function KeptByFull(aggs: Aggregates): Aggregates {
    map k | k in aggs && !Rolled(k) :: aggs[k]
  }

  function KeptByRecent(aggs: Aggregates, cutoff: int): Aggregates {
    map k | k in aggs && !(Rolled(k) && cutoff <= k.start) :: aggs[k]
  }

  function Full(aggs: Aggregates, facts: seq<Fact>): Aggregates {
    Rollup(Rollup(KeptByFull(aggs), facts, Hour), facts, Day)
  }

  function Recent(aggs: Aggregates, facts: seq<Fact>, cutoff: int): Aggregates {
    Rollup(Rollup(KeptByRecent(aggs, cutoff), Window(facts, cutoff), Hour), Window(facts, cutoff), Day)
  }

  // ----- what the full rebuild holds -----

  /** After a full rebuild an hour or day row exists exactly for the keys that have facts, and
      holds their sum; rows of other sizes are untouched. */
  lemma FullIsExact(aggs: Aggregates, facts: seq<Fact>, k: AggKey)
    ensures Rolled(k) ==> (k in Full(aggs, facts) <==> k in Keys(facts, k.size))
    ensures Rolled(k) && k in Full(aggs, facts) ==> Full(aggs, facts)[k] == Group(facts, k)
    ensures !Rolled(k) ==> (k in Full(aggs, facts) <==> k in aggs)
    ensures !Rolled(k) && k in aggs ==> Full(aggs, facts)[k] == aggs[k]
  {
  }

  /** So a rebuild forgets what was there and repeating it changes nothing. */
  lemma FullIsIdempotent(aggs: Aggregates, facts: seq<Fact>)
    ensures Full(Full(aggs, facts), facts) == Full(aggs, facts)
  {
    var once := Full(aggs, facts);
    var twice := Full(once, facts);
    forall k ensures k in once <==> k in twice {
      FullIsExact(aggs, facts, k);
      FullIsExact(once, facts, k);
    }
    forall k | k in once ensures once[k] == twice[k] {
      FullIsExact(aggs, facts, k);
      FullIsExact(once, facts, k);
    }
  }

  // ----- the windowed rebuild against the full one -----

  /** A key's facts lie inside its bucket. */
  lemma FactInBucket(size: Size, f: Fact)
    ensures KeyOf(size, f).start <= f.started < End(KeyOf(size, f))
  {
  }

  lemma {:induction false} WindowMembers(facts: seq<Fact>, cutoff: int)
    ensures forall f :: f in Window(facts, cutoff) <==> f in facts && cutoff <= f.started
    decreases |facts|
  {
    if facts != [] {
      var front, last := facts[..|facts| - 1], facts[|facts| - 1];
      WindowMembers(front, cutoff);
      assert facts == front + [last];
    }
  }

  /** The sum of metric `i` over the facts of `k` that started before `cutoff`. */
  function SumBefore(facts: seq<Fact>, cutoff: int, k: AggKey, i: Metric): int {
    if facts == [] then 0
    else
      var f := facts[|facts| - 1];
      SumBefore(facts[..|facts| - 1], cutoff, k, i)
      + if KeyOf(k.size, f) == k && f.started < cutoff then f.metrics.Of(i) else 0
  }

  lemma {:induction false} SplitAtCutoff(facts: seq<Fact>, cutoff: int, k: AggKey, i: Metric)
    ensures SumIn(facts, k.size, {k}, i) == SumIn(Window(facts, cutoff), k.size, {k}, i) + SumBefore(facts,
        cutoff, k, i)
    decreases |facts|
  {
    if facts != [] {
      var front, last := facts[..|facts| - 1], facts[|facts| - 1];
      SplitAtCutoff(front, cutoff, k, i);
      var w, w' := Window(front, cutoff), Window(facts, cutoff);
      if cutoff <= last.started {
        assert w' == w + [last] && w'[..|w'| - 1] == w;
      } else {
        assert w' == w;
      }
    }
  }

  lemma {:induction false} NothingBefore(facts: seq<Fact>, cutoff: int, k: AggKey, i: Metric)
    requires forall f | f in facts && KeyOf(k.size, f) == k :: cutoff <= f.started
    ensures SumBefore(facts, cutoff, k, i) == 0
    decreases |facts|
  {
    if facts != [] {
      NothingBefore(facts[..|facts| - 1], cutoff, k, i);
    }
  }

  /** A key whose facts all lie in the window has the same row over the window. */
  lemma WindowGroup(facts: seq<Fact>, cutoff: int, k: AggKey)
    requires forall f | f in facts && KeyOf(k.size, f) == k :: cutoff <= f.started
    ensures Group(Window(facts, cutoff), k) == Group(facts, k)
  {
    forall i ensures Group(Window(facts, cutoff), k).Of(i) == Group(facts, k).Of(i) {
      SplitAtCutoff(facts, cutoff, k, i);
      NothingBefore(facts, cutoff, k, i);
    }
    SameMetrics(Group(Window(facts, cutoff), k), Group(facts, k));
  }

  /** What the windowed rebuild writes: the in-window sum where the key has an in-window fact;
      otherwise it deletes a bucket that starts in the window and keeps any other row. */
  lemma RecentIsExact(aggs: Aggregates, facts: seq<Fact>, cutoff: int, k: AggKey)
    ensures var w := Window(facts, cutoff);
            var r := Recent(aggs, facts, cutoff);
            if Rolled(k) && k in Keys(w, k.size) then k in r && r[k] == Group(w, k)
            else if Rolled(k) && cutoff <= k.start then k !in r
            else (k in r <==> k in aggs) && (k in aggs ==> r[k] == aggs[k])
  {
  }

  /** Buckets that start in the window come out as in a full rebuild, whatever was there. */
  lemma RecentRefinesFull(aggs: Aggregates, old': Aggregates, facts: seq<Fact>, cutoff: int, k: AggKey)
    requires Rolled(k) && cutoff <= k.start
    ensures k in Recent(aggs, facts, cutoff) <==> k in Full(old', facts)
    ensures k in Full(old', facts) ==> Recent(aggs, facts, cutoff)[k] == Full(old', facts)[k]
  {
    forall f | f in facts && KeyOf(k.size, f) == k ensures cutoff <= f.started {
      FactInBucket(k.size, f);
    }
    WindowMembers(facts, cutoff);
    WindowGroup(facts, cutoff, k);
    RecentIsExact(aggs, facts, cutoff, k);
    FullIsExact(old', facts, k);
    assert k in Keys(Window(facts, cutoff), k.size) <==> k in Keys(facts, k.size);
  }

  /** Buckets that end before the window are left alone. */
  lemma RecentKeepsThePast(aggs: Aggregates, facts: seq<Fact>, cutoff: int, k: AggKey)
    requires End(k) <= cutoff
    ensures k in Recent(aggs, facts, cutoff) <==> k in aggs
    ensures k in aggs ==> Recent(aggs, facts, cutoff)[k] == aggs[k]
  {
    WindowMembers(facts, cutoff);
    forall f | f in Window(facts, cutoff) ensures KeyOf(k.size, f) != k {
      FactInBucket(k.size, f);
    }
    RecentIsExact(aggs, facts, cutoff, k);
  }

  predicate Straddles(k: AggKey, cutoff: int) {
    k.start < cutoff < End(k)
  }

  /** At most one bucket of each size is neither: the one that contains the cutoff. */
  lemma OneBucketStraddles(k: AggKey, cutoff: int)
    requires Straddles(k, cutoff) && k.start == Trunc(k.size, k.start)
    ensures k.start == Trunc(k.size, cutoff)
  {
  }

  // ----- when the straddling bucket is right -----

  /** Every stored fact counts at least one request, so a part with a fact is not zero. */
  lemma {:induction false} SomethingBefore(facts: seq<Fact>, cutoff: int, k: AggKey)
    requires forall f | f in facts :: 0 < f.metrics.requests
    ensures 0 <= SumBefore(facts, cutoff, k, Requests)
    ensures SumBefore(facts, cutoff, k, Requests) == 0 ==> forall f | f in facts && KeyOf(k.size, f) == k ::
        cutoff <= f.started
    decreases |facts|
  {
    if facts != [] {
      var front, last := facts[..|facts| - 1], facts[|facts| - 1];
      assert facts == front + [last];
      SomethingBefore(front, cutoff, k);
    }
  }

  /** Two tables have the same row, or no row, for `k`. */
  ghost predicate SameRow(a: Aggregates, b: Aggregates, k: AggKey) {
    (k in a <==> k in b) && (k in a ==> a[k] == b[k])
  }

  ghost predicate NothingEarlier(facts: seq<Fact>, cutoff: int, k: AggKey) {
    forall f | f in facts && KeyOf(k.size, f) == k :: cutoff <= f.started
  }

  lemma RecentIsRightInWindow(aggs: Aggregates, facts: seq<Fact>, cutoff: int, k: AggKey)
    requires Rolled(k) && k in Keys(Window(facts, cutoff), k.size)
    requires forall f | f in facts :: 0 < f.metrics.requests
    ensures SameRow(Recent(aggs, facts, cutoff), Full(aggs, facts), k) <==> NothingEarlier(facts, cutoff, k)
  {
    WindowMembers(facts, cutoff);
    RecentIsExact(aggs, facts, cutoff, k);
    FullIsExact(aggs, facts, k);
    if NothingEarlier(facts, cutoff, k) {
      WindowGroup(facts, cutoff, k);
    } else {
      SplitAtCutoff(facts, cutoff, k, Requests);
      SomethingBefore(facts, cutoff, k);
      assert Group(Window(facts, cutoff), k).Of(Requests) != Group(facts, k).Of(Requests);
    }
  }

  /** An hour or day row comes out of the windowed rebuild as out of the full one in exactly these
      cases: it has in-window facts and none before the cutoff; or it has no in-window fact, and its
      bucket starts in the window or the old row was right already. So the straddling bucket is wrong
      for every key that had traffic on both sides of the cutoff: the rows of the hour and the day in
      progress at the cutoff are overwritten with the in-window part. */
  lemma RecentIsRightExactly(aggs: Aggregates, facts: seq<Fact>, cutoff: int, k: AggKey)
    requires Rolled(k) && forall f | f in facts :: 0 < f.metrics.requests
    ensures SameRow(Recent(aggs, facts, cutoff), Full(aggs, facts), k)
       <==> if k in Keys(Window(facts, cutoff), k.size) then NothingEarlier(facts, cutoff, k)
            else cutoff <= k.start || SameRow(aggs, Full(aggs, facts), k)
  {
    if k in Keys(Window(facts, cutoff), k.size) {
      RecentIsRightInWindow(aggs, facts, cutoff, k);
    } else {
      RecentIsExact(aggs, facts, cutoff, k);
      if cutoff <= k.start { RecentRefinesFull(aggs, aggs, facts, cutoff, k); }
    }
  }

  // Two requests on one day, at one and at ten o'clock, and a window that begins at seven.
  const NODIMS := Dims("", "", "", "", "")
  const ONE := Metrics(1, 1, 0, 0, 0, 0, 0, 0, 0, 0, 0)
  const EARLY := Fact("a", 3_600_000_000, NODIMS, ONE)
  const LATE := Fact("b", 36_000_000_000, NODIMS, ONE)
  const SEVEN := 25_200_000_000
  const TODAY := AggKey(0, Day, NODIMS)

  lemma TwoRequestsToday()
    ensures KeyOf(Day, EARLY) == TODAY && KeyOf(Day, LATE) == TODAY
    ensures Window([EARLY, LATE], SEVEN) == [LATE]
    ensures SumIn([EARLY, LATE], Day, {TODAY}, Requests) == 2 && SumIn([LATE], Day, {TODAY}, Requests) == 1
  {
    var facts := [EARLY, LATE];
    assert facts[..1] == [EARLY] && [EARLY][..0] == [] && [LATE][..0] == [];
    assert Window([EARLY], SEVEN) == [];
    assert SumIn([EARLY], Day, {TODAY}, Requests) == 1;
  }

  /** After a correct full rebuild the windowed one halves the day's count. */
  lemma RecentUndercountsToday()
    ensures var facts := [EARLY, LATE];
            var full := Full(map[], facts);
            var recent := Recent(full, facts, SEVEN);
            TODAY in full && TODAY in recent && full[TODAY].requests == 2 && recent[TODAY].requests == 1
  {
    var facts := [EARLY, LATE];
    TwoRequestsToday();
    assert EARLY in facts && LATE in [LATE];
    FullIsExact(map[], facts, TODAY);
    RecentIsExact(Full(map[], facts), facts, SEVEN, TODAY);
    assert Group(facts, TODAY).Of(Requests) == 2 && Group([LATE], TODAY).Of(Requests) == 1;
  }

  // ----- conservation -----

  lemma {:induction false} SumInAdds(facts: seq<Fact>, size: Size, a: set<AggKey>, b: set<AggKey>, i: Metric)
    requires a !! b
    ensures SumIn(facts, size, a + b, i) == SumIn(facts, size, a, i) + SumIn(facts, size, b, i)
    decreases |facts|
  {
    if facts != [] {
      SumInAdds(facts[..|facts| - 1], size, a, b, i);
    }
  }

  ghost function Pick(ks: set<AggKey>): AggKey
    requires ks != {}
  {
    var k :| k in ks;
    k
  }

  /** The sum of metric `i` over the rows `ks` of a table. */
  ghost function Total(aggs: Aggregates, ks: set<AggKey>, i: Metric): int
    requires ks <= aggs.Keys
  {
    if ks == {} then 0 else aggs[Pick(ks)].Of(i) + Total(aggs, ks - {Pick(ks)}, i)
  }

  /** Rows that hold the sums of their facts add up to the sum over the facts they cover. */
  lemma {:induction false} TotalIsSum(aggs: Aggregates, facts: seq<Fact>, size: Size, ks: set<AggKey>, i: Metric)
    requires ks <= aggs.Keys && forall k | k in ks :: k.size == size && aggs[k] == Group(facts, k)
    ensures Total(aggs, ks, i) == SumIn(facts, size, ks, i)
    decreases |ks|
  {
    if ks == {} {
      SumInNothing(facts, size, i);
    } else {
      var k := Pick(ks);
      TotalIsSum(aggs, facts, size, ks - {k}, i);
      SumInAdds(facts, size, {k}, ks - {k}, i);
      assert {k} + (ks - {k}) == ks;
    }
  }

  lemma {:induction false} SumInNothing(facts: seq<Fact>, size: Size, i: Metric)
    ensures SumIn(facts, size, {}, i) == 0
    decreases |facts|
  {
    if facts != [] {
      SumInNothing(facts[..|facts| - 1], size, i);
    }
  }

  lemma {:induction false} SumInEverything(facts: seq<Fact>, size: Size, ks: set<AggKey>, i: Metric)
    requires forall f | f in facts :: KeyOf(size, f) in ks
    ensures SumIn(facts, size, ks, i) == SumAll(facts, i)
    decreases |facts|
  {
    if facts != [] {
      SumInEverything(facts[..|facts| - 1], size, ks, i);
    }
  }

  ghost function RowsOf(aggs: Aggregates, size: Size): set<AggKey> {
    set k | k in aggs && k.size == size
  }

  /** After a full rebuild the hour rows, the day rows and the facts agree on every metric. */
  lemma FullConserves(aggs: Aggregates, facts: seq<Fact>, size: Size, i: Metric)
    requires size.Hour? || size.Day?
    ensures Total(Full(aggs, facts), RowsOf(Full(aggs, facts), size), i) == SumAll(facts, i)
  {
    var full := Full(aggs, facts);
    var ks := RowsOf(full, size);
    forall k | k in ks ensures full[k] == Group(facts, k) {
      FullIsExact(aggs, facts, k);
    }
    forall f | f in facts ensures KeyOf(size, f) in ks {
      FullIsExact(aggs, facts, KeyOf(size, f));
    }
    TotalIsSum(full, facts, size, ks, i);
    SumInEverything(facts, size, ks, i);
  }

  /** The hour rows of one day and one set of dimensions. */
  ghost function HoursOf(aggs: Aggregates, day: AggKey): set<AggKey> {
    set k | k in aggs && k.size.Hour? && k.dims == day.dims && Trunc(Day, k.start) == day.start
  }

  lemma HourWithinDay(t: int)
    ensures Trunc(Day, Trunc(Hour, t)) == Trunc(Day, t)
  {
    var h := t % 3_600_000_000;
    var d := t % 86_400_000_000;
    assert d % 3_600_000_000 == h;
    assert (t - h) % 86_400_000_000 == d - h;
  }

  lemma {:induction false} SumSameFacts(facts: seq<Fact>, hours: set<AggKey>, day: AggKey, i: Metric)
    requires forall f | f in facts :: KeyOf(Hour, f) in hours <==> KeyOf(Day, f) == day
    ensures SumIn(facts, Hour, hours, i) == SumIn(facts, Day, {day}, i)
    decreases |facts|
  {
    if facts != [] {
      SumSameFacts(facts[..|facts| - 1], hours, day, i);
    }
  }

  /** And each day row is the sum of its own hour rows. */
  lemma DayIsSumOfItsHours(aggs: Aggregates, facts: seq<Fact>, day: AggKey, i: Metric)
    requires day.size.Day? && day in Full(aggs, facts)
    ensures Full(aggs, facts)[day].Of(i) == Total(Full(aggs, facts), HoursOf(Full(aggs, facts), day), i)
  {
    var full := Full(aggs, facts);
    var hours := HoursOf(full, day);
    FullIsExact(aggs, facts, day);
    forall k | k in hours ensures full[k] == Group(facts, k) {
      FullIsExact(aggs, facts, k);
    }
    forall f | f in facts ensures KeyOf(Hour, f) in hours <==> KeyOf(Day, f) == day {
      HourWithinDay(f.started);
      FullIsExact(aggs, facts, KeyOf(Hour, f));
    }
    TotalIsSum(full, facts, Hour, hours, i);
    SumSameFacts(facts, hours, day, i);
  }
}
