/** How a task can still end: which reachable states can reach `succeeded` and which can reach
    `failed_terminal`, exactly; what a dead letter says about its task; and which acknowledged
    entries leave no task behind. */
module ProtocolEndings {
  import opened Common
  import opened TaskStore
  import opened Protocol
  import opened ProtocolInvariant
  import opened ProtocolRetries
  import opened ProtocolResults
  import opened ProtocolClock

  // ----- what may still happen, read off a state and a bound on the clock -----

  /** Handler `h` claims the task under the id that its lease names. */
  ghost predicate Owns(s: State, k: Key, h: nat) {
    Claims(s, k, h) && k in s.rows && s.rows[k].status.Leased? && s.handlers[h].worker == s.rows[k].owner
  }

  predicate BeforeCommit(p: Phase) {
    p.Claimed? || p.Working?
  }

  predicate OnLastAttempt(p: Phase) {
    (p.Claimed? || p.Working? || p.Failing? || p.DeadLettered?) && p.max <= p.n
  }

  predicate HasAttempts(r: Row) {
    !Final(r.status) && r.attempts < r.maxAttempts
  }

  /** The lease has not lapsed for readings from `from` on. */
  predicate InTime(r: Row, from: int) {
    r.expires.At? && from <= r.expires.time
  }

  ghost predicate MaySucceed(s: State, k: Key, from: int)
    requires k in s.rows
  {
    || s.rows[k].status.Succeeded?
    || HasAttempts(s.rows[k])
    || (InTime(s.rows[k], from) && exists h :: Owns(s, k, h) && BeforeCommit(s.handlers[h].phase))
  }

  ghost predicate MayFail(s: State, k: Key, from: int)
    requires k in s.rows
  {
    || s.rows[k].status.FailedTerminal?
    || HasAttempts(s.rows[k])
    || (InTime(s.rows[k], from) && exists h :: Owns(s, k, h) && OnLastAttempt(s.handlers[h].phase))
  }

  // ----- no step creates a possibility -----

  /** Where the two endings come from. */
  ghost predicate EndsFrom(s: State, e: Effect, from: int) {
    e.row.Some? && Final(e.row.value.status) ==>
      && Claims(s, e.key, e.h) && e.key in s.rows && InTime(s.rows[e.key], from)
      && (e.row.value.status.Succeeded? ==> s.handlers[e.h].phase.Working?)
      && (e.row.value.status.FailedTerminal? ==> OnLastAttempt(s.handlers[e.h].phase))
  }

  /** Which phases a claiming handler comes from. */
  ghost predicate PhaseFlows(s: State, e: Effect) {
    e.next.Moves? && InPhase(s, e.h) && HasClaim(s.handlers[e.h].phase) ==>
      var p, q := s.handlers[e.h].phase, e.next.to.phase;
      && (BeforeCommit(q) ==> BeforeCommit(p))
      && (OnLastAttempt(q) ==> OnLastAttempt(p) || p.Handed?)
  }

  lemma StepEndsFrom(s: State, a: Step, from: int)
    requires Enabled(s, a) && HandlersOk(s) && (Reads(a) ==> from <= a.now)
    ensures EndsFrom(s, EffectOf(s, a), from)
  {
    if a.MarkTerminal? { assert HandlerOk(s, s.handlers[a.h]); }
  }

  lemma StepPhaseFlows(s: State, a: Step)
    requires Enabled(s, a)
    ensures PhaseFlows(s, EffectOf(s, a))
  {
  }

  /** What `h` owns after an effect it owned before, in a phase that comes before, or it has just
      used an attempt that was left. */
  lemma OwnerBefore(s: State, e: Effect, k: Key, h: nat)
    requires HandlersOk(s) && EffectOk(s, e) && ClaimEffectOk(s, e) && PhaseFlows(s, e)
    requires TableOk(Perform(s, e).rows) && k in s.rows && Owns(Perform(s, e), k, h)
    ensures var s' := Perform(s, e);
      || HasAttempts(s.rows[k])
      || (&& Owns(s, k, h) && s'.rows[k] == s.rows[k]
          && (BeforeCommit(s'.handlers[h].phase) ==> BeforeCommit(s.handlers[h].phase))
          && (OnLastAttempt(s'.handlers[h].phase) ==> OnLastAttempt(s.handlers[h].phase)))
  {
    var s' := Perform(s, e);
    ClaimOrigin(s, e, k, h);
    assert RowOk(s'.rows[k]);
    if e.row.Some? && e.key == k {
      assert RowEvolves(s.rows[k], s'.rows[k]);
    } else if Claims(s, k, h) {
      assert HandlerOk(s, s.handlers[h]);
    }
  }

  lemma MaySucceedBackward(s: State, e: Effect, k: Key, from: int)
    requires HandlersOk(s) && EffectOk(s, e) && ClaimEffectOk(s, e) && MarkEffectOk(s, e)
    requires EndsFrom(s, e, from) && PhaseFlows(s, e)
    requires TableOk(Perform(s, e).rows) && k in s.rows && k in Perform(s, e).rows
    requires MaySucceed(Perform(s, e), k, from)
    ensures MaySucceed(s, k, from)
  {
    var s' := Perform(s, e);
    assert RowEvolves(s.rows[k], s'.rows[k]);
    if s'.rows[k].status.Succeeded? {
      if e.row.Some? && e.key == k { assert s.rows[k] == s'.rows[k] || Owns(s, k, e.h); }
    } else if !HasAttempts(s'.rows[k]) {
      var h :| Owns(s', k, h) && BeforeCommit(s'.handlers[h].phase);
      OwnerBefore(s, e, k, h);
    }
  }

  lemma MayFailBackward(s: State, e: Effect, k: Key, from: int)
    requires HandlersOk(s) && EffectOk(s, e) && ClaimEffectOk(s, e) && MarkEffectOk(s, e)
    requires EndsFrom(s, e, from) && PhaseFlows(s, e)
    requires TableOk(Perform(s, e).rows) && k in s.rows && k in Perform(s, e).rows
    requires MayFail(Perform(s, e), k, from)
    ensures MayFail(s, k, from)
  {
    var s' := Perform(s, e);
    assert RowEvolves(s.rows[k], s'.rows[k]);
    if s'.rows[k].status.FailedTerminal? {
      if e.row.Some? && e.key == k { assert s.rows[k] == s'.rows[k] || Owns(s, k, e.h); }
    } else if !HasAttempts(s'.rows[k]) {
      var h :| Owns(s', k, h) && OnLastAttempt(s'.handlers[h].phase);
      OwnerBefore(s, e, k, h);
    }
  }

  lemma StepBackward(s: State, a: Step, k: Key, from: int)
    requires Inv(s) && Enabled(s, a) && k in s.rows && (Reads(a) ==> from <= a.now)
    ensures k in Apply(s, a).rows
    ensures MaySucceed(Apply(s, a), k, from) ==> MaySucceed(s, k, from)
    ensures MayFail(Apply(s, a), k, from) ==> MayFail(s, k, from)
  {
    var e := EffectOf(s, a);
    StepEffectOk(s, a);
    StepPreserves(s, a);
    StepClaimOk(s, a);
    StepMarkOk(s, a);
    StepEndsFrom(s, a, from);
    StepPhaseFlows(s, a);
    RowsOk(Apply(s, a));
    if MaySucceed(Apply(s, a), k, from) { MaySucceedBackward(s, e, k, from); }
    if MayFail(Apply(s, a), k, from) { MayFailBackward(s, e, k, from); }
  }

  lemma RowsOk(s: State)
    requires LedgerOk(s)
    ensures TableOk(s.rows)
  {
    forall k | k in s.rows ensures RowOk(s.rows[k]) { assert LedgerRowOk(s, k); }
  }

  lemma StepOfRunFrom(run: seq<State>, from: int, j: nat) returns (a: Step)
    requires IsRunFrom(run, from) && 0 < j < |run|
    ensures Enabled(run[j - 1], a) && run[j] == Apply(run[j - 1], a) && (Reads(a) ==> from <= a.now)
  {
    assert StepFromAt(run, from, j);
    a :| Enabled(run[j - 1], a) && run[j] == Apply(run[j - 1], a) && (Reads(a) ==> from <= a.now);
  }

  lemma {:induction false} RunFromInv(run: seq<State>, from: int, j: nat)
    requires IsRunFrom(run, from) && Inv(run[0]) && j < |run|
    ensures Inv(run[j])
    decreases j
  {
    if 0 < j {
      RunFromInv(run, from, j - 1);
      var a := StepOfRunFrom(run, from, j);
      StepPreserves(run[j - 1], a);
    }
  }

  lemma {:induction false} RunBackward(run: seq<State>, from: int, j: nat, k: Key)
    requires IsRunFrom(run, from) && Inv(run[0]) && j < |run| && k in run[0].rows
    ensures k in run[j].rows
    ensures MaySucceed(run[j], k, from) ==> MaySucceed(run[0], k, from)
    ensures MayFail(run[j], k, from) ==> MayFail(run[0], k, from)
    decreases j
  {
    if 0 < j {
      RunBackward(run, from, j - 1, k);
      RunFromInv(run, from, j - 1);
      var a := StepOfRunFrom(run, from, j);
      StepBackward(run[j - 1], a, k, from);
    }
  }

  // ----- what may happen can happen -----

  /** Handler `h` has message `m` of `k` in hand, at phase `p`. */
  ghost predicate Stands(s: State, h: nat, m: nat, k: Key, p: Phase) {
    && InPhase(s, h) && s.handlers[h].msg == m && s.handlers[h].phase == p && KeyOf(s.msgs[m]) == k
    && k in s.rows && k.trace in s.traces
  }

  /** A forward clock leads from `x` to `y`, where the row of `k` is `r`. */
  ghost predicate Leads(x: Moment, y: Moment, k: Key, r: Row) {
    Elapses(x, y) && k in y.s.rows && y.s.rows[k] == r
  }

  /** The moment after step `a`, made at time `t`. */
  ghost function Next(x: Moment, a: Step, t: int): Moment
    requires Enabled(x.s, a)
  {
    Moment(Apply(x.s, a), t)
  }

  lemma Then(x: Moment, a: Step, t: int)
    requires Enabled(x.s, a) && x.t <= t && (Reads(a) ==> a.now == t) && (a.ClaimWin? ==> a.now <= a.until)
    ensures Elapses(x, Next(x, a, t))
  {
    ElapsesStep(x, a, Next(x, a, t));
  }

  /** A message that is not acknowledged can be delivered to any worker. */
  lemma Delivers(x: Moment, k: Key, m: nat, h: nat, worker: string) returns (y: Moment)
    requires Unacked(x.s, k, m) && h !in x.s.handlers && k in x.s.rows && k.trace in x.s.traces && k.trace != ""
    ensures Leads(x, y, k, x.s.rows[k]) && y.t == x.t
    ensures Stands(y.s, h, m, k, Inserted) && y.s.handlers[h].worker == worker
  {
    var x1 := Next(x, Deliver(h, worker, m), x.t);
    Then(x, Deliver(h, worker, m), x.t);
    y := Next(x1, Insert(h, 1), x.t);
    Then(x1, Insert(h, 1), x.t);
    ElapsesTrans(x, x1, y);
  }

  lemma ClaimsLease(x: Moment, k: Key, h: nat, m: nat, now: int, lease: nat) returns (y: Moment)
    requires Stands(x.s, h, m, k, Inserted) && x.t <= now && Claimable(x.s.rows[k], now)
    ensures Leads(x, y, k, ClaimRow(x.s.rows[k], x.s.handlers[h].worker, now + lease)) && y.t == now
    ensures Owns(y.s, k, h)
    ensures Stands(y.s, h, m, k, Claimed(x.s.rows[k].attempts + 1, x.s.rows[k].maxAttempts))
  {
    var a := ClaimWin(h, now, now + lease);
    y := Next(x, a, now);
    Then(x, a, now);
  }

  /** A time from `from` on at which a row with attempts left can be claimed. */
  ghost function ClaimTime(r: Row, from: int): (now: int)
    requires RowOk(r) && HasAttempts(r)
    ensures from <= now && Claimable(r, now)
  {
    if r.expires.At? then Max(from, r.expires.time + 1) else from
  }

  lemma RowFacts(s: State, k: Key)
    requires Reachable(s) && k in s.rows
    ensures RowOk(s.rows[k]) && k.trace in s.traces && k.trace != ""
  {
    ReachableInv(s);
    assert LedgerRowOk(s, k);
  }

  /** Any worker can make the next claim of an unfinished task with an attempt left, with a lease of
      any length. */
  lemma ClaimsNext(x: Moment, k: Key, m: nat, worker: string, lease: nat) returns (y: Moment, h: nat)
    requires Reachable(x.s) && k in x.s.rows && HasAttempts(x.s.rows[k]) && Unacked(x.s, k, m)
    ensures Leads(x, y, k, ClaimRow(x.s.rows[k], worker, y.t + lease)) && Owns(y.s, k, h)
    ensures Stands(y.s, h, m, k, Claimed(x.s.rows[k].attempts + 1, x.s.rows[k].maxAttempts))
  {
    RowFacts(x.s, k);
    h := FreshId(x.s);
    var x1 := Delivers(x, k, m, h, worker);
    y := ClaimsLease(x1, k, h, m, ClaimTime(x.s.rows[k], x.t), lease);
    ElapsesTrans(x, x1, y);
  }

  lemma StartsWork(x: Moment, k: Key, h: nat, m: nat) returns (y: Moment)
    requires Owns(x.s, k, h) && Stands(x.s, h, m, k, x.s.handlers[h].phase) && x.s.handlers[h].phase.Claimed?
    ensures Leads(x, y, k, x.s.rows[k]) && Owns(y.s, k, h) && y.t == x.t
    ensures Stands(y.s, h, m, k, Working(x.s.handlers[h].phase.n, x.s.handlers[h].phase.max))
  {
    y := Next(x, MarkProcessing(h), x.t);
    Then(x, MarkProcessing(h), x.t);
  }

  /** An owner in time can commit, with nothing to hand over. */
  lemma Commits(x: Moment, k: Key, h: nat, m: nat) returns (y: Moment)
    requires Owns(x.s, k, h) && Stands(x.s, h, m, k, x.s.handlers[h].phase) && x.s.handlers[h].phase.Working?
    requires InTime(x.s.rows[k], x.t)
    ensures Leads(x, y, k, EndLease(x.s.rows[k], Succeeded)) && k.trace in y.s.traces
    ensures Stands(y.s, h, m, k, Committed(x.s.handlers[h].phase.n, x.s.handlers[h].phase.max, false))
    ensures k.stage.Core? ==> !y.s.traces[k.trace].required
  {
    var a := CommitResults(h, x.t, false, true);
    y := Next(x, a, x.t);
    Then(x, a, x.t);
  }

  lemma OwnerSucceeds(x: Moment, k: Key, h: nat, m: nat) returns (y: Moment)
    requires Owns(x.s, k, h) && Stands(x.s, h, m, k, x.s.handlers[h].phase) && BeforeCommit(x.s.handlers[h].phase)
    requires InTime(x.s.rows[k], x.t)
    ensures Leads(x, y, k, EndLease(x.s.rows[k], Succeeded)) && k.trace in y.s.traces
    ensures Stands(y.s, h, m, k, Committed(x.s.handlers[h].phase.n, x.s.handlers[h].phase.max, false))
    ensures k.stage.Core? ==> !y.s.traces[k.trace].required
  {
    var x1 := x;
    if x.s.handlers[h].phase.Claimed? {
      x1 := StartsWork(x, k, h, m);
    } else {
      ElapsesRefl(x);
    }
    y := Commits(x1, k, h, m);
    ElapsesTrans(x, x1, y);
  }

  lemma Acknowledges(x: Moment, k: Key, h: nat, m: nat, n: nat, max: int) returns (y: Moment)
    requires Stands(x.s, h, m, k, Committed(n, max, false))
    ensures Leads(x, y, k, x.s.rows[k]) && m in y.s.acked && y.s.traces == x.s.traces
  {
    var x1 := Next(x, SkipHandoff(h), x.t);
    Then(x, SkipHandoff(h), x.t);
    y := Next(x1, Ack(h), x.t);
    Then(x1, Ack(h), x.t);
    ElapsesTrans(x, x1, y);
  }

  /** Any un-acknowledged message of an unfinished task with an attempt left can finish it, in the
      hands of any worker and with any lease: some run under a forward clock ends with the task
      settled as succeeded and that message acknowledged. */
  lemma UnfinishedCanBeFinished(x: Moment, k: Key, m: nat, worker: string, lease: nat)
    requires Reachable(x.s) && k in x.s.rows && HasAttempts(x.s.rows[k]) && Unacked(x.s, k, m)
    ensures exists y :: Elapses(x, y) && Settled(y.s, k) && y.s.rows[k].status.Succeeded? && m in y.s.acked
  {
    var x1, h := ClaimsNext(x, k, m, worker, lease);
    var x2 := OwnerSucceeds(x1, k, h, m);
    var p := x1.s.handlers[h].phase;
    var y := Acknowledges(x2, k, h, m, p.n, p.max);
    ElapsesTrans(x, x1, x2);
    ElapsesTrans(x, x2, y);
  }

  lemma Fails(x: Moment, k: Key, h: nat, m: nat) returns (y: Moment)
    requires Owns(x.s, k, h) && Stands(x.s, h, m, k, x.s.handlers[h].phase) && BeforeCommit(x.s.handlers[h].phase)
    ensures Leads(x, y, k, x.s.rows[k]) && Owns(y.s, k, h) && y.t == x.t
    ensures Stands(y.s, h, m, k, Failing(x.s.handlers[h].phase.n, x.s.handlers[h].phase.max))
  {
    y := Next(x, Raise(h), x.t);
    Then(x, Raise(h), x.t);
  }

  lemma WritesDeadLetter(x: Moment, k: Key, h: nat, m: nat) returns (y: Moment)
    requires Owns(x.s, k, h) && Stands(x.s, h, m, k, x.s.handlers[h].phase)
    requires x.s.handlers[h].phase.Failing? && OnLastAttempt(x.s.handlers[h].phase)
    ensures Leads(x, y, k, x.s.rows[k]) && Owns(y.s, k, h) && y.t == x.t
    ensures Stands(y.s, h, m, k, DeadLettered(x.s.handlers[h].phase.n, x.s.handlers[h].phase.max))
  {
    y := Next(x, PublishDeadLetter(h), x.t);
    Then(x, PublishDeadLetter(h), x.t);
  }

  lemma MarksTerminal(x: Moment, k: Key, h: nat, m: nat) returns (y: Moment)
    requires Owns(x.s, k, h) && Stands(x.s, h, m, k, x.s.handlers[h].phase) && x.s.handlers[h].phase.DeadLettered?
    requires InTime(x.s.rows[k], x.t)
    ensures Leads(x, y, k, EndLease(x.s.rows[k], FailedTerminal))
  {
    y := Next(x, MarkTerminal(h, x.t), x.t);
    Then(x, MarkTerminal(h, x.t), x.t);
  }

  /** An owner in time on the last attempt can dead-letter it and mark it. */
  lemma OwnerFails(x: Moment, k: Key, h: nat, m: nat) returns (y: Moment)
    requires Owns(x.s, k, h) && Stands(x.s, h, m, k, x.s.handlers[h].phase) && OnLastAttempt(x.s.handlers[h].phase)
    requires InTime(x.s.rows[k], x.t)
    ensures Leads(x, y, k, EndLease(x.s.rows[k], FailedTerminal))
  {
    var x1 := x;
    ElapsesRefl(x);
    if BeforeCommit(x.s.handlers[h].phase) { x1 := Fails(x, k, h, m); }
    var x2 := x1;
    ElapsesRefl(x1);
    if x1.s.handlers[h].phase.Failing? { x2 := WritesDeadLetter(x1, k, h, m); }
    y := MarksTerminal(x2, k, h, m);
    ElapsesTrans(x, x1, x2);
    ElapsesTrans(x, x2, y);
  }

  /** A failure that leaves attempts puts the row back for the next one. */
  lemma GivesBack(x: Moment, k: Key, h: nat, m: nat) returns (y: Moment)
    requires Owns(x.s, k, h) && Stands(x.s, h, m, k, x.s.handlers[h].phase)
    requires x.s.handlers[h].phase.Failing? && x.s.handlers[h].phase.n < x.s.handlers[h].phase.max
    requires InTime(x.s.rows[k], x.t)
    ensures Leads(x, y, k, EndLease(x.s.rows[k], FailedRetryable))
  {
    y := Next(x, MarkRetryable(h, x.t), x.t);
    Then(x, MarkRetryable(h, x.t), x.t);
  }

  lemma ReachableLater(x: Moment, y: Moment)
    requires Reachable(x.s) && Elapses(x, y)
    ensures Reachable(y.s)
  {
    ElapsesFrom(x, y);
    FromReaches(x.s, x.t, y.s);
    ReachesTrans(INIT, x.s, y.s);
  }

  /** Failing every attempt that is left, whoever makes them, ends in a terminal failure. */
  lemma {:induction false} UnfinishedCanFail(x: Moment, k: Key, worker: string, lease: nat) returns (y: Moment)
    requires Reachable(x.s) && k in x.s.rows && HasAttempts(x.s.rows[k])
    ensures Elapses(x, y) && k in y.s.rows && y.s.rows[k].status.FailedTerminal?
    decreases x.s.rows[k].maxAttempts - x.s.rows[k].attempts
  {
    NoLostWork(x.s, k);
    var m :| Unacked(x.s, k, m);
    var x1, h := ClaimsNext(x, k, m, worker, lease);
    if x1.s.rows[k].attempts == x1.s.rows[k].maxAttempts {
      y := OwnerFails(x1, k, h, m);
    } else {
      var x2 := Fails(x1, k, h, m);
      var x3 := GivesBack(x2, k, h, m);
      ElapsesTrans(x, x1, x2);
      ElapsesTrans(x, x2, x3);
      ReachableLater(x, x3);
      y := UnfinishedCanFail(x3, k, worker, lease);
      ElapsesTrans(x1, x2, x3);
      ElapsesTrans(x1, x3, y);
    }
    ElapsesTrans(x, x1, y);
  }

  // ----- exactly -----

  /** Some run from `s` under a forward clock that starts at `from` ends with the task succeeded. */
  ghost predicate CanSucceed(s: State, k: Key, from: int) {
    exists y :: Elapses(Moment(s, from), y) && k in y.s.rows && y.s.rows[k].status.Succeeded?
  }

  ghost predicate CanFail(s: State, k: Key, from: int) {
    exists y :: Elapses(Moment(s, from), y) && k in y.s.rows && y.s.rows[k].status.FailedTerminal?
  }

  /** No run from `s` whose readings are all at `from` or later, in whatever order, does. */
  ghost predicate NeverSucceeds(s: State, k: Key, from: int) {
    forall s' | ReachesFrom(s, from, s') :: k in s'.rows && !s'.rows[k].status.Succeeded?
  }

  ghost predicate NeverFails(s: State, k: Key, from: int) {
    forall s' | ReachesFrom(s, from, s') :: k in s'.rows && !s'.rows[k].status.FailedTerminal?
  }

  lemma ReachesBackward(s: State, s': State, k: Key, from: int)
    requires Reachable(s) && ReachesFrom(s, from, s') && k in s.rows
    ensures k in s'.rows
    ensures s'.rows[k].status.Succeeded? ==> MaySucceed(s, k, from)
    ensures s'.rows[k].status.FailedTerminal? ==> MayFail(s, k, from)
  {
    ReachableInv(s);
    var run :| IsRunFrom(run, from) && run[0] == s && run[|run| - 1] == s';
    RunBackward(run, from, |run| - 1, k);
  }

  lemma OwnerStands(s: State, k: Key, h: nat)
    requires Reachable(s) && Owns(s, k, h)
    ensures Stands(s, h, s.handlers[h].msg, k, s.handlers[h].phase) && s.rows[k].expires.At?
  {
    RowFacts(s, k);
  }

  /** A task can still succeed if and only if it has, or it is unfinished with an attempt left, or
      its lease has not lapsed and its owner has a live handler that has not committed yet.
      Otherwise it never does. */
  lemma SucceedsExactly(s: State, k: Key, from: int)
    requires Reachable(s) && k in s.rows
    ensures CanSucceed(s, k, from) <==> MaySucceed(s, k, from)
    ensures NeverSucceeds(s, k, from) <==> !MaySucceed(s, k, from)
  {
    var x := Moment(s, from);
    forall s' | ReachesFrom(s, from, s')
      ensures k in s'.rows && (s'.rows[k].status.Succeeded? ==> MaySucceed(s, k, from))
    {
      ReachesBackward(s, s', k, from);
    }
    forall y | Elapses(x, y) ensures ReachesFrom(s, from, y.s) { ElapsesFrom(x, y); }
    if s.rows[k].status.Succeeded? {
      ElapsesRefl(x);
    } else if HasAttempts(s.rows[k]) {
      NoLostWork(s, k);
      var m :| Unacked(s, k, m);
      UnfinishedCanBeFinished(x, k, m, "worker", 1);
    } else if MaySucceed(s, k, from) {
      var h :| Owns(s, k, h) && BeforeCommit(s.handlers[h].phase);
      OwnerStands(s, k, h);
      var y := OwnerSucceeds(x, k, h, s.handlers[h].msg);
    }
  }

  /** A task can still fail for good if and only if it has, or it is unfinished with an attempt
      left, or its lease has not lapsed and its owner has a live handler on the last attempt.
      Otherwise it never does. */
  lemma FailsExactly(s: State, k: Key, from: int)
    requires Reachable(s) && k in s.rows
    ensures CanFail(s, k, from) <==> MayFail(s, k, from)
    ensures NeverFails(s, k, from) <==> !MayFail(s, k, from)
  {
    var x := Moment(s, from);
    forall s' | ReachesFrom(s, from, s')
      ensures k in s'.rows && (s'.rows[k].status.FailedTerminal? ==> MayFail(s, k, from))
    {
      ReachesBackward(s, s', k, from);
    }
    forall y | Elapses(x, y) ensures ReachesFrom(s, from, y.s) { ElapsesFrom(x, y); }
    if s.rows[k].status.FailedTerminal? {
      ElapsesRefl(x);
    } else if HasAttempts(s.rows[k]) {
      var y := UnfinishedCanFail(x, k, "worker", 1);
    } else if MayFail(s, k, from) {
      var h :| Owns(s, k, h) && OnLastAttempt(s.handlers[h].phase);
      OwnerStands(s, k, h);
      var y := OwnerFails(x, k, h, s.handlers[h].msg);
    }
  }

  /** A task whose last lease has lapsed never ends at all, even while the handler that outlived its
      lease goes on working, failing and dead-lettering. */
  lemma LapsedLastLeaseNeverEnds(s: State, k: Key, from: int)
    requires Reachable(s) && k in s.rows && s.rows[k].status.Leased?
    requires s.rows[k].attempts == s.rows[k].maxAttempts && !InTime(s.rows[k], from)
    ensures NeverSucceeds(s, k, from) && NeverFails(s, k, from)
  {
    SucceedsExactly(s, k, from);
    FailsExactly(s, k, from);
  }

  // ----- what a dead letter says -----

  /** A dead letter belongs to a task that is final or that nobody can ever claim again. */
  lemma DeadLetterIsFinalOrStranded(s: State, k: Key)
    requires Reachable(s) && DeadLetterFor(s, k)
    ensures k in s.rows && (Final(s.rows[k].status) || Stranded(s.rows[k]))
  {
    ReachableInv(s);
    assert LedgerRowOk(s, k);
    StrandedExactly(s.rows[k]);
  }

  /** The task of a dead letter can fail for good if and only if it already has, or its lease has
      not lapsed and its owner has a live handler on the last attempt; otherwise it never will. */
  lemma DeadLetterFailsExactly(s: State, k: Key, from: int)
    requires Reachable(s) && DeadLetterFor(s, k)
    ensures k in s.rows
    ensures CanFail(s, k, from) <==>
      || s.rows[k].status.FailedTerminal?
      || (InTime(s.rows[k], from) && exists h :: Owns(s, k, h) && OnLastAttempt(s.handlers[h].phase))
    ensures NeverFails(s, k, from) <==> !CanFail(s, k, from)
  {
    ReachableInv(s);
    assert LedgerRowOk(s, k);
    FailsExactly(s, k, from);
  }

  /** Seen from the handler that wrote it: the task can fail for good if and only if it already has,
      or that handler's worker id owns a lease that has not lapsed. */
  lemma WriterFailsExactly(s: State, k: Key, h: nat, from: int)
    requires Reachable(s) && Claims(s, k, h) && s.handlers[h].phase.DeadLettered?
    ensures k in s.rows
    ensures CanFail(s, k, from) <==>
      || s.rows[k].status.FailedTerminal?
      || (s.rows[k].status.Leased? && s.rows[k].owner == s.handlers[h].worker && InTime(s.rows[k], from))
  {
    LastClaimIsUnique(s, k, h);
    FailsExactly(s, k, from);
    assert OnLastAttempt(s.handlers[h].phase);
  }

  lemma LastClaimIsUnique(s: State, k: Key, h: nat)
    requires Reachable(s) && Claims(s, k, h) && s.handlers[h].phase.DeadLettered?
    ensures k in s.rows && s.rows[k].attempts == s.rows[k].maxAttempts && OnLastAttempt(s.handlers[h].phase)
    ensures forall h' | Owns(s, k, h') && OnLastAttempt(s.handlers[h'].phase) :: h' == h
  {
    var run :| IsRun(run) && run[0] == INIT && run[|run| - 1] == s;
    RunRetryInv(run, |run| - 1);
    assert HandlerOk(s, s.handlers[h]);
    forall h' | Owns(s, k, h') && OnLastAttempt(s.handlers[h'].phase) ensures h' == h {
      assert HandlerOk(s, s.handlers[h']);
      assert h' != h ==> ClaimNo(s, h') != ClaimNo(s, h);
    }
  }

  /** A commit that took effect but is reported as an error, on the last attempt. */
  lemma CommitsUnreported(x: Moment, k: Key, h: nat, m: nat) returns (y: Moment)
    requires Owns(x.s, k, h) && Stands(x.s, h, m, k, x.s.handlers[h].phase)
    requires x.s.handlers[h].phase.Working? && OnLastAttempt(x.s.handlers[h].phase) && InTime(x.s.rows[k], x.t)
    ensures Leads(x, y, k, EndLease(x.s.rows[k], Succeeded))
    ensures Stands(y.s, h, m, k, Failing(x.s.handlers[h].phase.n, x.s.handlers[h].phase.max))
  {
    var a := CommitResults(h, x.t, false, false);
    y := Next(x, a, x.t);
    Then(x, a, x.t);
  }

  lemma DeadLettersAnyway(x: Moment, k: Key, h: nat, m: nat, n: nat, max: int) returns (y: Moment)
    requires Stands(x.s, h, m, k, Failing(n, max)) && max <= n
    ensures Leads(x, y, k, x.s.rows[k]) && DeadLetterFor(y.s, k)
  {
    y := Next(x, PublishDeadLetter(h), x.t);
    Then(x, PublishDeadLetter(h), x.t);
    assert y.s.dlq[|x.s.dlq|] == DeadLetter(k, n);
  }

  /** From every reachable state, a task with one attempt left can end up succeeded and
      dead-lettered at once. */
  lemma SucceedsWithDeadLetter(x: Moment, k: Key, m: nat, worker: string, lease: nat) returns (y: Moment)
    requires Reachable(x.s) && k in x.s.rows && HasAttempts(x.s.rows[k]) && Unacked(x.s, k, m)
    requires x.s.rows[k].attempts + 1 == x.s.rows[k].maxAttempts
    ensures Elapses(x, y) && k in y.s.rows && y.s.rows[k].status.Succeeded? && DeadLetterFor(y.s, k)
  {
    var x1, h := ClaimsNext(x, k, m, worker, lease);
    var x2 := StartsWork(x1, k, h, m);
    var x3 := CommitsUnreported(x2, k, h, m);
    var p := x2.s.handlers[h].phase;
    y := DeadLettersAnyway(x3, k, h, m, p.n, p.max);
    ElapsesTrans(x, x1, x2);
    ElapsesTrans(x, x2, x3);
    ElapsesTrans(x, x3, y);
  }

  // ----- acknowledged entries without a task -----

  /** Neither a task nor a dead letter records entry `m`. */
  ghost predicate Untraced(s: State, m: nat)
    requires m < |s.msgs|
  {
    KeyOf(s.msgs[m]) !in s.rows && !DeadLetterFor(s, KeyOf(s.msgs[m]))
  }

  ghost predicate CanVanish(t: string, known: bool) {
    exists s, m :: Vanished(s, m, t, known)
  }

  /** In the reachable state `s` entry `m`, of trace `t`, is acknowledged and leaves no record. */
  ghost predicate Vanished(s: State, m: nat, t: string, known: bool) {
    && Reachable(s) && m < |s.msgs| && m in s.acked && s.msgs[m].trace == t && s.msgs[m].known == known
    && Untraced(s, m)
  }

  /** An entry can be acknowledged without leaving a task or a dead letter if and only if its stage
      is unknown or its trace id is blank. */
  lemma VanishesExactly(t: string, known: bool)
    ensures CanVanish(t, known) <==> !known || t == ""
  {
    forall s, m | Vanished(s, m, t, known) ensures !known || t == "" {
      ReachableInv(s);
    }
    if !known {
      var s := UnknownStageIsDropped(t);
      assert Vanished(s, 0, t, known);
    } else if t == "" {
      var s := BlankTraceIsDropped();
      assert Vanished(s, 0, t, known);
    }
  }

  /** The run in which an entry with an unknown stage is acknowledged and dropped; the dead-letter
      stream stays empty. */
  lemma UnknownStageIsDropped(t: string) returns (s: State)
    ensures Reachable(s) && s.msgs == [Msg(t, Core, false, 1, false)] && s.acked == {0}
    ensures s.rows == map[] && s.dlq == []
  {
    var s1 := Apply(INIT, GatewayPublish(t, false));
    ReachesStep(INIT, GatewayPublish(t, false));
    s := Apply(s1, DropUnknownStage(0));
    ReachesThen(INIT, s1, DropUnknownStage(0));
  }

  lemma BlankTraceIsDropped() returns (s: State)
    ensures Reachable(s) && s.msgs == [Msg("", Core, true, 1, false)] && s.acked == {0}
    ensures s.rows == map[] && s.dlq == []
  {
    var s1 := Apply(INIT, GatewayPublish("", true));
    ReachesStep(INIT, GatewayPublish("", true));
    var s2 := Apply(s1, Deliver(1, "", 0));
    ReachesThen(INIT, s1, Deliver(1, "", 0));
    assert s2.handlers == map[1 := Handler("", 0, Received)];
    s := Apply(s2, DropBlankTrace(1));
    ReachesThen(INIT, s2, DropBlankTrace(1));
  }
}
