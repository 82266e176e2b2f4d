/** The tables behind the rollup: how analysis saves write `trace_usage_facts`, and the
    rebuilds as statements on `usage_aggregates`. */
module UsageStore {
  import opened Common
  import opened UsageRollup

  // ----- one save -----

  /** The trace a delta belongs to: its own, or the only trace of the save. */
  ghost function Owner(d: Delta, traceIds: set<string>): string {
    if d.trace != "" then d.trace
    else if t :| traceIds == {t} then t
    else ""
  }

  function FactFrom(d: Delta, trace: string): Fact {
    Fact(trace, if d.started.StartedAt? then d.started.time else d.bucketStart, d.dims, d.metrics)
  }

  /** `INSERT ... ON CONFLICT (trace_id) DO UPDATE`. */
  function Upsert(facts: seq<Fact>, f: Fact): seq<Fact> {
    if facts == [] then [f]
    else if facts[0].trace == f.trace then [f] + facts[1..]
    else [facts[0]] + Upsert(facts[1..], f)
  }

  function Lookup(facts: seq<Fact>, trace: string): Option<Fact> {
    if facts == [] then None
    else if facts[0].trace == trace then Some(facts[0])
    else Lookup(facts[1..], trace)
  }

  ghost predicate OnePerTrace(facts: seq<Fact>) {
    forall i, j | 0 <= i < j < |facts| :: facts[i].trace != facts[j].trace
  }

  /** What a save leaves behind: the first delta of each trace is written, later ones are not. */
  ghost function Saved(facts: seq<Fact>, traceIds: set<string>, deltas: seq<Delta>, seen: set<string>): seq<Fact>
    decreases |deltas|
  {
    if deltas == [] then facts
    else
      var t := Owner(deltas[0], traceIds);
      if t == "" || t in seen then Saved(facts, traceIds, deltas[1..], seen)
      else Saved(Upsert(facts, FactFrom(deltas[0], t)), traceIds, deltas[1..], seen + {t})
  }

  /** The fact that a save writes for `trace`, if any. */
  ghost function Written(traceIds: set<string>, deltas: seq<Delta>, trace: string): Option<Fact>
    decreases |deltas|
  {
    if deltas == [] || trace == "" then None
    else if Owner(deltas[0], traceIds) == trace then Some(FactFrom(deltas[0], trace))
    else Written(traceIds, deltas[1..], trace)
  }

  lemma {:induction false} LookupUpsert(facts: seq<Fact>, f: Fact, t: string)
    ensures Lookup(Upsert(facts, f), t) == if t == f.trace then Some(f) else Lookup(facts, t)
    decreases |facts|
  {
    if facts != [] && facts[0].trace != f.trace {
      LookupUpsert(facts[1..], f, t);
    }
  }

  lemma {:induction false} LookupFinds(facts: seq<Fact>, t: string)
    ensures Lookup(facts, t).Some? <==> exists i :: 0 <= i < |facts| && facts[i].trace == t
    decreases |facts|
  {
    if facts != [] && facts[0].trace != t {
      LookupFinds(facts[1..], t);
      assert forall i | 0 < i < |facts| :: facts[i] == facts[1..][i - 1];
    }
  }

  lemma {:induction false} UpsertKeepsOnePerTrace(facts: seq<Fact>, f: Fact)
    requires OnePerTrace(facts)
    ensures OnePerTrace(Upsert(facts, f))
    decreases |facts|
  {
    if facts != [] && facts[0].trace != f.trace {
      UpsertKeepsOnePerTrace(facts[1..], f);
      var rest := Upsert(facts[1..], f);
      LookupUpsert(facts[1..], f, facts[0].trace);
      LookupFinds(rest, facts[0].trace);
      LookupFinds(facts[1..], facts[0].trace);
    }
  }

  lemma {:induction false} SaveWrites(facts: seq<Fact>, traceIds: set<string>, deltas: seq<Delta>,
      seen: set<string>, t: string)
    requires OnePerTrace(facts)
    ensures OnePerTrace(Saved(facts, traceIds, deltas, seen))
    ensures Lookup(Saved(facts, traceIds, deltas, seen), t)
         == if t !in seen && Written(traceIds, deltas, t).Some? then Written(traceIds, deltas, t) else Lookup(facts, t)
    decreases |deltas|
  {
    if deltas != [] {
      var o := Owner(deltas[0], traceIds);
      if o == "" || o in seen {
        SaveWrites(facts, traceIds, deltas[1..], seen, t);
      } else {
        var f := FactFrom(deltas[0], o);
        UpsertKeepsOnePerTrace(facts, f);
        LookupUpsert(facts, f, t);
        SaveWrites(Upsert(facts, f), traceIds, deltas[1..], seen + {o}, t);
      }
    }
  }

  // ----- any sequence of saves -----

  datatype Save = Save(traceIds: set<string>, deltas: seq<Delta>)

  ghost function After(saves: seq<Save>): seq<Fact> {
    if saves == [] then []
    else Saved(After(saves[..|saves| - 1]), saves[|saves| - 1].traceIds, saves[|saves| - 1].deltas, {})
  }

  /** What the last save that mentions `t` wrote for it. */
  ghost function LastWrite(saves: seq<Save>, t: string): Option<Fact> {
    if saves == [] then None
    else
      var last := saves[|saves| - 1];
      var w := Written(last.traceIds, last.deltas, t);
      if w.Some? then w else LastWrite(saves[..|saves| - 1], t)
  }

  /** However often traces are analysed again, there is one fact per trace and it is the one
      that was written last. */
  lemma {:induction false} LastWriteWins(saves: seq<Save>, t: string)
    ensures OnePerTrace(After(saves)) && Lookup(After(saves), t) == LastWrite(saves, t)
    decreases |saves|
  {
    if saves != [] {
      var last := saves[|saves| - 1];
      LastWriteWins(saves[..|saves| - 1], t);
      SaveWrites(After(saves[..|saves| - 1]), last.traceIds, last.deltas, {}, t);
    }
  }

  /** So a full rebuild after any sequence of saves counts each trace once, and its hour and day
      rows agree on every metric. */
  lemma SavesAreCountedOnce(aggs: Aggregates, saves: seq<Save>, i: Metric)
    ensures OnePerTrace(After(saves))
    ensures var full := Full(aggs, After(saves));
            Total(full, RowsOf(full, Hour), i) == SumAll(After(saves), i) == Total(full, RowsOf(full, Day), i)
  {
    LastWriteWins(saves, "");
    FullConserves(aggs, After(saves), Hour, i);
    FullConserves(aggs, After(saves), Day, i);
  }

  // ----- the job that a save records -----

  datatype Job = Job(trace: string, started: Started, status: int, stream: bool, dims: Dims,
                     promptTokens: int, completionTokens: int, totalTokens: int, reasoningTokens: int,
                         cachedTokens: int,
                     requestBytes: int, responseBytes: int)

  /** `aggregate_deltas`: an hour delta and a day delta that differ in the bucket only. */
  function AggregateDeltas(job: Job, hourStart: int, dayStart: int): seq<Delta> {
    var success := if 200 <= job.status < 400 || job.status == 0 then 1 else 0;
    var metrics := Metrics(1, success, if success == 1 then 0 else 1, if job.stream then 1 else 0,
                           job.promptTokens, job.completionTokens, job.totalTokens, job.reasoningTokens,
                               job.cachedTokens,
                           job.requestBytes, job.responseBytes);
    [Delta(job.trace, job.started, hourStart, job.dims, metrics), Delta(job.trace, job.started, dayStart,
        job.dims, metrics)]
  }

  /** What a job should be recorded as: one request at its start time, or at the hour of the save
      when that is unknown, with the job's own counts. */
  function JobFact(job: Job, hourStart: int): Fact {
    var failed := job.status != 0 && (job.status < 200 || job.status >= 400);
    Fact(job.trace, if job.started.StartedAt? then job.started.time else hourStart, job.dims,
         Metrics(1, if failed then 0 else 1, if failed then 1 else 0, if job.stream then 1 else 0,
                 job.promptTokens, job.completionTokens, job.totalTokens, job.reasoningTokens, job.cachedTokens,
                 job.requestBytes, job.responseBytes))
  }

  /** Both deltas of a job come down to that one fact; the day delta adds nothing, and the facts of
      other traces stay as they are. */
  lemma JobIsOneRequest(facts: seq<Fact>, traceIds: set<string>, job: Job, hourStart: int, dayStart: int)
    requires job.trace != "" && OnePerTrace(facts)
    ensures Lookup(Saved(facts, traceIds, AggregateDeltas(job, hourStart, dayStart), {}), job.trace)
         == Some(JobFact(job, hourStart))
    ensures forall t | t != job.trace ::
              Lookup(Saved(facts, traceIds, AggregateDeltas(job, hourStart, dayStart), {}), t) == Lookup(facts, t)
  {
    var ds := AggregateDeltas(job, hourStart, dayStart);
    SaveWrites(facts, traceIds, ds, {}, job.trace);
    forall t | t != job.trace ensures Lookup(Saved(facts, traceIds, ds, {}), t) == Lookup(facts, t) {
      SaveWrites(facts, traceIds, ds, {}, t);
      assert Written(traceIds, ds[1..], t) == Written(traceIds, ds[1..][1..], t);
    }
  }

  /** A save that records one job. */
  ghost predicate SavesJob(s: Save) {
    exists job, hourStart, dayStart :: s.deltas == AggregateDeltas(job, hourStart, dayStart)
  }

  ghost predicate CountsOne(facts: seq<Fact>) {
    forall f | f in facts :: f.metrics.requests == 1
  }

  lemma {:induction false} UpsertCountsOne(facts: seq<Fact>, f: Fact)
    requires CountsOne(facts) && f.metrics.requests == 1
    ensures CountsOne(Upsert(facts, f))
    decreases |facts|
  {
    if facts != [] && facts[0].trace != f.trace { UpsertCountsOne(facts[1..], f); }
  }

  lemma {:induction false} SavedCountsOne(facts: seq<Fact>, traceIds: set<string>, deltas: seq<Delta>,
      seen: set<string>)
    requires CountsOne(facts) && forall d | d in deltas :: d.metrics.requests == 1
    ensures CountsOne(Saved(facts, traceIds, deltas, seen))
    decreases |deltas|
  {
    if deltas != [] {
      var o := Owner(deltas[0], traceIds);
      if o == "" || o in seen {
        SavedCountsOne(facts, traceIds, deltas[1..], seen);
      } else {
        UpsertCountsOne(facts, FactFrom(deltas[0], o));
        SavedCountsOne(Upsert(facts, FactFrom(deltas[0], o)), traceIds, deltas[1..], seen + {o});
      }
    }
  }

  /** Every fact that jobs leave behind counts one request. */
  lemma {:induction false} JobFactsCountOne(saves: seq<Save>)
    requires forall s | s in saves :: SavesJob(s)
    ensures CountsOne(After(saves))
    decreases |saves|
  {
    if saves != [] {
      var last := saves[|saves| - 1];
      JobFactsCountOne(saves[..|saves| - 1]);
      assert SavesJob(last);
      SavedCountsOne(After(saves[..|saves| - 1]), last.traceIds, last.deltas, {});
    }
  }

  /** So the exact condition holds for the facts of any saved jobs. */
  lemma RecentIsRightForJobsExactly(aggs: Aggregates, saves: seq<Save>, cutoff: int, k: AggKey)
    requires Rolled(k) && forall s | s in saves :: SavesJob(s)
    ensures var facts := After(saves);
      var right := if k in Keys(Window(facts, cutoff), k.size) then NothingEarlier(facts, cutoff, k)
                   else cutoff <= k.start || SameRow(aggs, Full(aggs, facts), k);
      SameRow(Recent(aggs, facts, cutoff), Full(aggs, facts), k) <==> right
  {
    JobFactsCountOne(saves);
    RecentIsRightExactly(aggs, After(saves), cutoff, k);
  }

  /** `now() - (window_hours || ' hours')::interval`. */
  function Cutoff(now: int, windowHours: int): int {
    now - windowHours * 3_600_000_000
  }

  // ----- the tables -----

  class UsageTables {
    var facts: seq<Fact>
    var aggregates: Aggregates

    constructor ()
      ensures facts == [] && aggregates == map[]
    {
      facts, aggregates := [], map[];
    }

    /** The usage part of `save_trace_analysis`. */
    method SaveUsage(traceIds: set<string>, deltas: seq<Delta>)
      modifies this`facts
      ensures facts == Saved(old(facts), traceIds, deltas, {})
    {
      var seen: set<string> := {};
      for i := 0 to |deltas|
        invariant Saved(facts, traceIds, deltas[i..], seen) == Saved(old(facts), traceIds, deltas, {})
      {
        var d := deltas[i];
        assert deltas[i..][0] == d && deltas[i..][1..] == deltas[i + 1..];
        var t := d.trace;
        if t == "" && |traceIds| == 1 {
          t :| t in traceIds;
          assert traceIds == {t} by { Singleton(traceIds, t); }
        }
        assert t == Owner(d, traceIds) by { NotSingleton(traceIds); }
        if t != "" && t !in seen {
          facts := Upsert(facts, FactFrom(d, t));
          seen := seen + {t};
        }
      }
      assert deltas[|deltas|..] == [];
    }

    lemma Singleton(s: set<string>, t: string)
      requires |s| == 1 && t in s
      ensures s == {t}
    {
      assert |s - {t}| == 0;
    }

    lemma NotSingleton(s: set<string>)
      ensures |s| != 1 ==> forall t :: s != {t}
    {
    }

    /** The loop over the two bucket sizes that both rebuilds run, over the facts they select. */
    method RollUpSizes(source: seq<Fact>) returns (inserted: nat)
      modifies this`aggregates
      ensures aggregates == Rollup(Rollup(old(aggregates), source, Hour), source, Day)
      ensures inserted == |Keys(source, Hour)| + |Keys(source, Day)|
    {
      inserted := 0;
      var sizes := [Hour, Day];
      for i := 0 to |sizes|
        invariant i == 0 ==> aggregates == old(aggregates) && inserted == 0
        invariant i == 1 ==> aggregates == Rollup(old(aggregates), source, Hour) && inserted == |Keys(source, Hour)|
        invariant i == 2 ==> aggregates == Rollup(Rollup(old(aggregates), source, Hour), source, Day)
        invariant i == 2 ==> inserted == |Keys(source, Hour)| + |Keys(source, Day)|
      {
        aggregates := Rollup(aggregates, source, sizes[i]);
        inserted := inserted + |Keys(source, sizes[i])|;
      }
    }

    /** `rebuild_usage_aggregates_full`. */
    method RebuildFull() returns (inserted: nat)
      modifies this`aggregates
      ensures aggregates == Full(old(aggregates), facts)
      ensures inserted == |Keys(facts, Hour)| + |Keys(facts, Day)|
    {
      aggregates := KeptByFull(aggregates);
      inserted := RollUpSizes(facts);
    }

    /** `rebuild_usage_aggregates_recent`, at clock value `now`. */
    method RebuildRecent(now: int, windowHours: int) returns (inserted: nat)
      modifies this`aggregates
      ensures aggregates == Recent(old(aggregates), facts, Cutoff(now, windowHours))
      ensures var recent := Window(facts, Cutoff(now, windowHours));
        inserted == |Keys(recent, Hour)| + |Keys(recent, Day)|
    {
      var recent := Window(facts, Cutoff(now, windowHours));
      aggregates := KeptByRecent(aggregates, Cutoff(now, windowHours));
      inserted := RollUpSizes(recent);
    }
  }
}
