/** The analysis-task protocol as a state machine: the two Redis streams, the lease rows, the
    stage columns of `traces`, the dead-letter stream, and every handler that is part-way
    through a message. One step is one commit, one stream command or one crash; steps of
    different handlers interleave freely and every clock reading is arbitrary. */
module Protocol {
  import opened Common
  import opened TaskStore

  /** An entry of a stream. Every producer pairs a stage with its own stream, so the stage
      also names the stream; `known` is false when the entry carries an unknown stage.
      `requeue` marks an entry written by the retry path. */
  datatype Msg = Msg(trace: string, stage: Stage, known: bool, attempt: nat, requeue: bool)

  datatype StageStatus = NotRequired | Pending | Processing | Completed | Failed

  /** The stage columns of a `traces` row; `queued` is `enrichment_queued_at IS NOT NULL`. */
  datatype TraceRow = TraceRow(core: StageStatus, required: bool, enrich: StageStatus, queued: bool)

  /** Where a handler stands in `_process_stream_message`. `n` and `max` are the attempt count
      and the retry limit that its own claim returned. */
  datatype Phase =
    | Received
    | Inserted
    | Unclaimed
    | SawSucceeded
    | Recovering
    | Recovered
    | Claimed(n: nat, max: int)
    | Working(n: nat, max: int)
    | Committed(n: nat, max: int, required: bool)
    | Handed(n: nat, max: int)
    | Failing(n: nat, max: int)
    | DeadLettered(n: nat, max: int)
    | RetryMarked(n: nat, max: int)
    | Requeued
    | Done

  datatype Handler = Handler(worker: string, msg: nat, phase: Phase)

  datatype DeadLetter = DeadLetter(key: Key, attempt: nat)

  /** `commits` counts how often the results of a (trace, stage) were committed. */
  datatype State = State(
    msgs: seq<Msg>,
    delivered: set<nat>,
    acked: set<nat>,
    rows: map<Key, Row>,
    traces: map<string, TraceRow>,
    handlers: map<nat, Handler>,
    dlq: seq<DeadLetter>,
    commits: multiset<Key>)

  datatype Step =
    | CaptureTrace(t: string)
    | GatewayPublish(t: string, known: bool)
    | Deliver(h: nat, w: string, m: nat)
    | DropUnknownStage(m: nat)
    | DropBlankTrace(h: nat)
    | Insert(h: nat, limit: int)
    | ClaimWin(h: nat, now: int, until: int)
    | ClaimMiss(h: nat, now: int)
    | LookupFinal(h: nat)
    | CheckRecovery(h: nat)
    | PublishEnrichment(h: nat)
    | MarkEnqueued(h: nat, acknowledged: bool)
    | MarkProcessing(h: nat)
    | CommitResults(h: nat, now: int, required: bool, acknowledged: bool)
    | SkipHandoff(h: nat)
    | Raise(h: nat)
    | PublishDeadLetter(h: nat)
    | MarkTerminal(h: nat, now: int)
    | MarkRetryable(h: nat, now: int)
    | Requeue(h: nat)
    | Ack(h: nat)
    | Quit(h: nat)

  const NEW_TRACE := TraceRow(Pending, false, NotRequired, false)

  const INIT := State([], {}, {}, map[], map[], map[], [], multiset{})

  function KeyOf(m: Msg): Key {
    Key(m.trace, m.stage)
  }

  /** The (trace, stage) that handler `h` works on. */
  function KeyAt(s: State, h: nat): Key
    requires h in s.handlers && s.handlers[h].msg < |s.msgs|
  {
    KeyOf(s.msgs[s.handlers[h].msg])
  }

  predicate InPhase(s: State, h: nat) {
    h in s.handlers && s.handlers[h].msg < |s.msgs|
  }

  /** `h` is past its insert, so its row and its trace exist. */
  predicate AtRow(s: State, h: nat) {
    InPhase(s, h) && KeyAt(s, h) in s.rows && KeyAt(s, h).trace in s.traces
  }

  predicate HoldsRow(s: State, h: nat, now: int) {
    AtRow(s, h) && HoldsLease(s.rows[KeyAt(s, h)], s.handlers[h].worker, now)
  }

  /** The test of `trace_needs_enrichment_enqueue_recovery`. */
  predicate NeedsRecovery(s: State, k: Key)
    requires k.trace in s.traces
  {
    var tr := s.traces[k.trace];
    k.stage.Core? && tr.required && tr.enrich.Pending? && !tr.queued
  }

  predicate Enabled(s: State, a: Step) {
    match a
    case CaptureTrace(t) => t !in s.traces
    case GatewayPublish(t, known) => true
    // XREADGROUP for an entry never delivered, XAUTOCLAIM for a pending one
    case Deliver(h, w, m) => h !in s.handlers && m < |s.msgs| && m !in s.acked && s.msgs[m].known
    case DropUnknownStage(m) => m < |s.msgs| && m !in s.acked && !s.msgs[m].known
    case DropBlankTrace(h) => InPhase(s, h) && s.handlers[h].phase.Received? && KeyAt(s, h).trace == ""
    case Insert(h, limit) =>
      && InPhase(s, h) && s.handlers[h].phase.Received? && KeyAt(s, h).trace != ""
      && KeyAt(s, h).trace in s.traces && 0 < limit
    case ClaimWin(h, now, until) =>
      AtRow(s, h) && s.handlers[h].phase.Inserted? && Claimable(s.rows[KeyAt(s, h)], now)
    case ClaimMiss(h, now) =>
      AtRow(s, h) && s.handlers[h].phase.Inserted? && !Claimable(s.rows[KeyAt(s, h)], now)
    case LookupFinal(h) =>
      AtRow(s, h) && s.handlers[h].phase.Unclaimed? && Final(s.rows[KeyAt(s, h)].status)
    case CheckRecovery(h) => AtRow(s, h) && s.handlers[h].phase.SawSucceeded?
    case PublishEnrichment(h) =>
      && InPhase(s, h)
      && (s.handlers[h].phase.Recovering?
          || (s.handlers[h].phase.Committed? && s.handlers[h].phase.required && KeyAt(s, h).stage.Core?))
    case MarkEnqueued(h, acknowledged) => AtRow(s, h) && (s.handlers[h].phase.Recovered? || s.handlers[h].phase.Handed?)
    case MarkProcessing(h) => AtRow(s, h) && s.handlers[h].phase.Claimed?
    case CommitResults(h, now, required, acknowledged) => HoldsRow(s, h, now) && s.handlers[h].phase.Working?
    case SkipHandoff(h) =>
      && InPhase(s, h) && s.handlers[h].phase.Committed?
      && !(s.handlers[h].phase.required && KeyAt(s, h).stage.Core?)
    case Raise(h) =>
      InPhase(s, h) && (s.handlers[h].phase.Claimed? || s.handlers[h].phase.Working? || s.handlers[h].phase.Handed?)
    case PublishDeadLetter(h) =>
      InPhase(s, h) && s.handlers[h].phase.Failing? && s.handlers[h].phase.n >= s.handlers[h].phase.max
    case MarkTerminal(h, now) => HoldsRow(s, h, now) && s.handlers[h].phase.DeadLettered?
    case MarkRetryable(h, now) =>
      HoldsRow(s, h, now) && s.handlers[h].phase.Failing? && s.handlers[h].phase.n < s.handlers[h].phase.max
    case Requeue(h) => InPhase(s, h) && s.handlers[h].phase.RetryMarked?
    case Ack(h) => InPhase(s, h) && (s.handlers[h].phase.Requeued? || s.handlers[h].phase.Done?)
    case Quit(h) => InPhase(s, h)
  }

  datatype Next = Unmoved | Gone | Moves(to: Handler)

  /** What one step does: what becomes of its handler, and what it writes. `row` and `trace`
      are written for `key`; the other parts are added to the stream, the dead-letter stream
      and the acknowledgements. */
  datatype Effect = Effect(
    h: nat,
    key: Key,
    next: Next,
    row: Option<Row> := None,
    trace: Option<TraceRow> := None,
    publish: seq<Msg> := [],
    dead: seq<DeadLetter> := [],
    deliver: set<nat> := {},
    ack: set<nat> := {},
    commit: bool := false)

  /** Handler `h` moves to phase `p`, working on its own key. */
  function Goto(s: State, h: nat, p: Phase): Effect
    requires InPhase(s, h)
  {
    Effect(h, KeyAt(s, h), Moves(s.handlers[h].(phase := p)))
  }

  /** `mark_trace_stage_processing` and `mark_trace_stage_failed`: one column of one stage. */
  function WithStatus(tr: TraceRow, stage: Stage, status: StageStatus): TraceRow {
    if stage.Core? then tr.(core := status) else tr.(enrich := status)
  }

  /** What a stage writes to its trace inside the transaction that commits its results. */
  function WithResults(tr: TraceRow, stage: Stage, required: bool): TraceRow {
    if stage.Core? then TraceRow(Completed, required, if required then Pending else NotRequired, false)
    else tr.(enrich := Completed)
  }

  function EffectOf(s: State, a: Step): Effect
    requires Enabled(s, a)
  {
    match a
    case CaptureTrace(t) => Effect(0, Key(t, Core), Unmoved, trace := Some(NEW_TRACE))
    case GatewayPublish(t, known) => Effect(0, Key(t, Core), Unmoved, publish := [Msg(t, Core, known, 1, false)])
    case Deliver(h, w, m) => Effect(h, KeyOf(s.msgs[m]), Moves(Handler(w, m, Received)), deliver := {m})
    case DropUnknownStage(m) => Effect(0, KeyOf(s.msgs[m]), Unmoved, deliver := {m}, ack := {m})
    case DropBlankTrace(h) => Effect(h, KeyAt(s, h), Gone, ack := {s.handlers[h].msg})
    case Insert(h, limit) =>
      Goto(s, h, Inserted).(row := if KeyAt(s, h) in s.rows then None else Some(FreshRow(limit)))
    case ClaimWin(h, now, until) =>
      var r := s.rows[KeyAt(s, h)];
      Goto(s, h, Claimed(r.attempts + 1, r.maxAttempts)).(row := Some(ClaimRow(r, s.handlers[h].worker, until)))
    case ClaimMiss(h, now) => Goto(s, h, Unclaimed)
    case LookupFinal(h) =>
      Goto(s, h, if s.rows[KeyAt(s, h)].status.Succeeded? then SawSucceeded else Done)
    case CheckRecovery(h) => Goto(s, h, if NeedsRecovery(s, KeyAt(s, h)) then Recovering else Done)
    case PublishEnrichment(h) =>
      var p := s.handlers[h].phase;
      Goto(s, h, if p.Recovering? then Recovered else Handed(p.n, p.max))
        .(publish := [Msg(KeyAt(s, h).trace, Enrichment, true, 1, false)])
    case MarkEnqueued(h, acknowledged) =>
      var p := s.handlers[h].phase;
      // here too a commit may take effect and be reported as an error
      Goto(s, h, if acknowledged then Done else if p.Handed? then Failing(p.n, p.max) else p)
        .(trace := Some(s.traces[KeyAt(s, h).trace].(required := true, enrich := Pending, queued := true)))
    case MarkProcessing(h) =>
      var k := KeyAt(s, h);
      var p := s.handlers[h].phase;
      Goto(s, h, Working(p.n, p.max)).(trace := Some(WithStatus(s.traces[k.trace], k.stage, Processing)))
    case CommitResults(h, now, required, acknowledged) =>
      var k := KeyAt(s, h);
      var p := s.handlers[h].phase;
      // a commit that took effect but was reported as an error lands in the failure path
      Goto(s, h, if acknowledged then Committed(p.n, p.max, required) else Failing(p.n, p.max))
        .(row := Some(EndLease(s.rows[k], Succeeded)),
          trace := Some(WithResults(s.traces[k.trace], k.stage, required)), commit := true)
    case SkipHandoff(h) => Goto(s, h, Done)
    case Raise(h) => Goto(s, h, Failing(s.handlers[h].phase.n, s.handlers[h].phase.max))
    case PublishDeadLetter(h) =>
      var p := s.handlers[h].phase;
      Goto(s, h, DeadLettered(p.n, p.max)).(dead := [DeadLetter(KeyAt(s, h), p.n)])
    case MarkTerminal(h, now) =>
      var k := KeyAt(s, h);
      Goto(s, h, Done)
        .(row := Some(EndLease(s.rows[k], FailedTerminal)),
          trace := Some(WithStatus(s.traces[k.trace], k.stage, Failed)))
    case MarkRetryable(h, now) =>
      var k := KeyAt(s, h);
      var p := s.handlers[h].phase;
      Goto(s, h, RetryMarked(p.n, p.max))
        .(row := Some(EndLease(s.rows[k], FailedRetryable)),
          trace := Some(WithStatus(s.traces[k.trace], k.stage, Pending)))
    case Requeue(h) =>
      var k := KeyAt(s, h);
      Goto(s, h, Requeued).(publish := [Msg(k.trace, k.stage, true, s.handlers[h].phase.n + 1, true)])
    case Ack(h) => Effect(h, KeyAt(s, h), Gone, ack := {s.handlers[h].msg})
    case Quit(h) => Effect(h, KeyAt(s, h), Gone)
  }

  function Perform(s: State, e: Effect): State {
    State(
      s.msgs + e.publish,
      s.delivered + e.deliver,
      s.acked + e.ack,
      if e.row.Some? then s.rows[e.key := e.row.value] else s.rows,
      if e.trace.Some? then s.traces[e.key.trace := e.trace.value] else s.traces,
      match e.next
      case Unmoved => s.handlers
      case Gone => s.handlers - {e.h}
      case Moves(to) => s.handlers[e.h := to],
      s.dlq + e.dead,
      if e.commit then s.commits + multiset{e.key} else s.commits)
  }

  function Apply(s: State, a: Step): State
    requires Enabled(s, a)
  {
    Perform(s, EffectOf(s, a))
  }

  ghost predicate Step1(s: State, s': State) {
    exists a :: Enabled(s, a) && s' == Apply(s, a)
  }

  ghost predicate StepAt(run: seq<State>, i: nat)
    requires 0 < i < |run|
  {
    Step1(run[i - 1], run[i])
  }

  /** A run, given by the states it passes through. */
  ghost predicate IsRun(run: seq<State>) {
    run != [] && forall i | 0 < i < |run| :: StepAt(run, i)
  }

  /** Some run leads from `s` to `s'`. */
  ghost predicate Reaches(s: State, s': State) {
    exists run :: IsRun(run) && run[0] == s && run[|run| - 1] == s'
  }

  ghost predicate Reachable(s: State) {
    Reaches(INIT, s)
  }

  lemma ReachesRefl(s: State)
    ensures Reaches(s, s)
  {
    assert IsRun([s]);
  }

  lemma ReachesTrans(a: State, b: State, c: State)
    requires Reaches(a, b) && Reaches(b, c)
    ensures Reaches(a, c)
  {
    var xs :| IsRun(xs) && xs[0] == a && xs[|xs| - 1] == b;
    var ys :| IsRun(ys) && ys[0] == b && ys[|ys| - 1] == c;
    var zs := xs + ys[1..];
    forall i | 0 < i < |zs| ensures StepAt(zs, i) {
      if i < |xs| {
        assert zs[i - 1] == xs[i - 1] && zs[i] == xs[i] && StepAt(xs, i);
      } else {
        var j := i - |xs| + 1;
        assert zs[i - 1] == ys[j - 1] && zs[i] == ys[j] && StepAt(ys, j);
      }
    }
    assert IsRun(zs);
  }

  lemma ReachesStep(s: State, a: Step)
    requires Enabled(s, a)
    ensures Reaches(s, Apply(s, a))
  {
    var run := [s, Apply(s, a)];
    assert Step1(s, Apply(s, a));
    assert StepAt(run, 1);
    assert IsRun(run);
  }

  /** One more step at the end of a run. */
  lemma ReachesThen(s: State, s': State, a: Step)
    requires Reaches(s, s') && Enabled(s', a)
    ensures Reaches(s, Apply(s', a))
  {
    ReachesStep(s', a);
    ReachesTrans(s, s', Apply(s', a));
  }
}
