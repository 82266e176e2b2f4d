/** What the protocol guarantees in every run, and where it does not. */
module ProtocolResults {
  import opened TaskStore
  import opened Protocol
  import opened ProtocolInvariant
  import opened ProtocolRetries

  // ----- no lost work -----

  /** Message `m` is still in its stream and will be delivered again. */
  predicate Unacked(s: State, k: Key, m: nat) {
    m < |s.msgs| && m !in s.acked && s.msgs[m].known && KeyOf(s.msgs[m]) == k
  }

  /** Under any interleaving, crash, lapse, redelivery or publish failure, a task that is
      neither succeeded nor failed for good still has a message. */
  lemma NoLostWork(s: State, k: Key)
    requires Reachable(s) && k in s.rows && !Final(s.rows[k].status)
    ensures exists m :: Unacked(s, k, m)
  {
    ReachableInv(s);
    assert !Settled(s, k);
    var m :| Witness(s, k, m);
    assert Unacked(s, k, m);
  }

  /** Once an entry with a known stage and a trace id is acknowledged, its task is recorded and
      either settled or represented by another entry. */
  lemma AckedIsAccountedFor(s: State, m: nat)
    requires Reachable(s) && m in s.acked && m < |s.msgs| && s.msgs[m].known && s.msgs[m].trace != ""
    ensures KeyOf(s.msgs[m]) in s.rows
    ensures Settled(s, KeyOf(s.msgs[m])) || exists m' :: m' != m && Unacked(s, KeyOf(s.msgs[m]), m')
  {
    ReachableInv(s);
    var k := KeyOf(s.msgs[m]);
    if !Settled(s, k) {
      var m' :| Witness(s, k, m');
      assert m' != m && Unacked(s, k, m');
    }
  }

  /** Extends a run by one step with a known outcome. */
  lemma Extend(s0: State, s: State, a: Step, s': State)
    requires Reaches(s0, s) && Enabled(s, a) && Apply(s, a) == s'
    ensures Reaches(s0, s')
  {
    ReachesThen(s0, s, a);
  }

  /** The state in which a handler `h` of `worker` has message `m` in hand at phase `p`. */
  function WithHandler(s: State, m: nat, h: nat, worker: string, p: Phase): State {
    s.(delivered := s.delivered + {m}, handlers := s.handlers[h := Handler(worker, m, p)])
  }

  /** A message that is not acknowledged can be delivered, whatever the others are doing. */
  lemma Arrives(s: State, k: Key, m: nat, h: nat, worker: string)
    requires Unacked(s, k, m) && h !in s.handlers && k in s.rows && k.trace in s.traces && k.trace != ""
    ensures Reaches(s, WithHandler(s, m, h, worker, Inserted))
  {
    var s1 := WithHandler(s, m, h, worker, Received);
    assert s.msgs + [] == s.msgs && s.dlq + [] == s.dlq;
    ReachesRefl(s);
    Extend(s, s, Deliver(h, worker, m), s1);
    assert s1.handlers[h := Handler(worker, m, Inserted)] == s.handlers[h := Handler(worker, m, Inserted)];
    assert s1.acked + {} == s1.acked && s1.delivered + {} == s1.delivered;
    Extend(s, s1, Insert(h, 1), WithHandler(s, m, h, worker, Inserted));
  }

  /** A claimable task can be claimed through a redelivered message of its own. */
  lemma ClaimableIsResumable(s: State, k: Key, worker: string, now: int, until: int)
    requires Reachable(s) && k in s.rows && Claimable(s.rows[k], now)
    ensures exists s' :: Reaches(s, s') && s'.rows == s.rows[k := ClaimRow(s.rows[k], worker, until)]
  {
    ReachableInv(s);
    assert LedgerRowOk(s, k);
    assert !Settled(s, k);
    var m :| Witness(s, k, m);
    assert Unacked(s, k, m);
    var h := FreshId(s);
    Arrives(s, k, m, h, worker);
    var s2 := WithHandler(s, m, h, worker, Inserted);
    var s3 := Apply(s2, ClaimWin(h, now, until));
    Extend(s, s2, ClaimWin(h, now, until), s3);
    assert s3.rows == s.rows[k := ClaimRow(s.rows[k], worker, until)];
  }

  ghost function FreshId(s: State): (h: nat)
    ensures h !in s.handlers
  {
    FreshIdExists(s.handlers.Keys);
    var h: nat :| h !in s.handlers;
    h
  }

  lemma {:induction false} FreshIdExists(ids: set<nat>)
    ensures exists h: nat :: h !in ids
  {
    var above := Above(ids);
    assert above !in ids;
  }

  ghost function Above(ids: set<nat>): (b: nat)
    ensures forall h | h in ids :: h < b
  {
    if ids == {} then 0
    else
      var x :| x in ids;
      var rest := ids - {x};
      var b := Above(rest);
      assert forall h | h in ids :: h == x || h in rest;
      if x < b then b else x + 1
  }

  // ----- enrichment handoff -----

  /** A core task that succeeded and asked for enrichment has a published enrichment message,
      or a core message whose redelivery takes the recovery path. */
  lemma HandoffIsAtLeastOnce(s: State, t: string)
    requires Reachable(s) && Key(t, Core) in s.rows && s.rows[Key(t, Core)].status.Succeeded?
    requires t in s.traces && s.traces[t].required
    ensures Published(s, t) || (NeedsRecovery(s, Key(t, Core)) && exists m :: Unacked(s, Key(t, Core), m))
  {
    ReachableInv(s);
    assert TraceOk(s, t);
    if !Published(s, t) {
      assert !Settled(s, Key(t, Core));
      var m :| Witness(s, Key(t, Core), m);
      assert Unacked(s, Key(t, Core), m);
    }
  }

  /** That redelivery does publish: one handler on any such message gets there, whatever the clock
      says when it tries to claim. */
  lemma RecoveryPublishes(s: State, t: string, m: nat, worker: string, now: int)
    requires Reachable(s) && Unacked(s, Key(t, Core), m)
    requires Key(t, Core) in s.rows && s.rows[Key(t, Core)].status.Succeeded?
    requires t in s.traces && NeedsRecovery(s, Key(t, Core))
    ensures exists s' :: Reaches(s, s') && Published(s', t) && s'.rows == s.rows && s.msgs <= s'.msgs
  {
    assert t != "" by {
      ReachableInv(s);
      assert LedgerRowOk(s, Key(t, Core));
    }
    var h := FreshId(s);
    FindsSucceeded(s, Key(t, Core), m, h, worker, now);
    var s3 := WithHandler(s, m, h, worker, SawSucceeded);
    var s' := ChecksAndPublishes(s3, t, h);
    ReachesTrans(s, s3, s');
  }

  lemma ChecksAndPublishes(s: State, t: string, h: nat) returns (s': State)
    requires AtRow(s, h) && KeyAt(s, h) == Key(t, Core) && s.handlers[h].phase.SawSucceeded?
    requires NeedsRecovery(s, Key(t, Core))
    ensures Reaches(s, s') && Published(s', t) && s'.rows == s.rows && s.msgs <= s'.msgs
  {
    var s1 := Apply(s, CheckRecovery(h));
    s' := Apply(s1, PublishEnrichment(h));
    ReachesStep(s, CheckRecovery(h));
    Extend(s, s1, PublishEnrichment(h), s');
    assert s'.msgs[|s.msgs|] == Msg(t, Enrichment, true, 1, false);
  }

  lemma FindsSucceeded(s: State, k: Key, m: nat, h: nat, worker: string, now: int)
    requires Unacked(s, k, m) && h !in s.handlers && k in s.rows && k.trace in s.traces && k.trace != ""
    requires s.rows[k].status.Succeeded?
    ensures Reaches(s, WithHandler(s, m, h, worker, SawSucceeded))
  {
    Arrives(s, k, m, h, worker);
    var s2 := WithHandler(s, m, h, worker, Inserted);
    var s3 := WithHandler(s, m, h, worker, Unclaimed);
    assert s2.handlers[h := Handler(worker, m, Unclaimed)] == s3.handlers;
    assert s3.handlers[h := Handler(worker, m, SawSucceeded)] == s.handlers[h := Handler(worker, m, SawSucceeded)];
    assert s.msgs + [] == s.msgs && s.dlq + [] == s.dlq && s.acked + {} == s.acked && s2.delivered + {} == s2.delivered;
    Extend(s, s2, ClaimMiss(h, now), s3);
    Extend(s, s3, LookupFinal(h), WithHandler(s, m, h, worker, SawSucceeded));
  }

  // ----- final states, results, dead letters -----

  /** In every run a final row never changes again and the retry limit never changes. */
  lemma FinalIsAbsorbing(run: seq<State>, i: nat, j: nat, k: Key)
    requires IsRun(run) && run[0] == INIT && i <= j < |run| && k in run[i].rows
    ensures k in run[j].rows && RowEvolves(run[i].rows[k], run[j].rows[k])
    ensures Final(run[i].rows[k].status) ==> run[j].rows[k] == run[i].rows[k]
  {
    InitInv();
    RunPreserves(run, i, j);
  }

  /** The results of a (trace, stage) are committed once if its task succeeded, else never. */
  lemma ResultsCommitOnce(s: State, k: Key)
    requires Reachable(s)
    ensures s.commits[k] == if k in s.rows && s.rows[k].status.Succeeded? then 1 else 0
  {
    ReachableInv(s);
  }

  /** A task fails for good only after its dead letter was written, and a dead letter is only
      ever written for a task that has used up all its attempts. */
  lemma DeadLettersComeFirst(s: State, k: Key)
    requires Reachable(s) && k in s.rows
    ensures s.rows[k].status.FailedTerminal? ==> DeadLetterFor(s, k)
    ensures DeadLetterFor(s, k) ==> s.rows[k].attempts == s.rows[k].maxAttempts
  {
    ReachableInv(s);
    assert LedgerRowOk(s, k);
  }

  /** The step that a run takes to its state `j`. */
  lemma StepTo(run: seq<State>, j: nat) returns (a: Step)
    requires IsRun(run) && 0 < j < |run|
    ensures Enabled(run[j - 1], a) && run[j] == Apply(run[j - 1], a)
  {
    assert StepAt(run, j);
    a :| Enabled(run[j - 1], a) && run[j] == Apply(run[j - 1], a);
  }

  // ----- bounded retries -----

  lemma {:induction false} RunRetryInv(run: seq<State>, i: nat)
    requires IsRun(run) && run[0] == INIT && i < |run|
    ensures RetryInv(run[i])
  {
    if i == 0 {
      InitInv();
    } else {
      RunRetryInv(run, i - 1);
      var a := StepTo(run, i);
      RetryStepPreserves(run[i - 1], a);
    }
  }

  /** A task makes at most `max_attempts` claims, and the messages its failures requeue are
      fewer than that and never more than its claims. */
  lemma RetriesAreBounded(s: State, k: Key)
    requires Reachable(s) && k in s.rows
    ensures s.rows[k].attempts <= s.rows[k].maxAttempts
    ensures |RequeuesOf(s, k)| <= s.rows[k].attempts && |RequeuesOf(s, k)| < s.rows[k].maxAttempts
  {
    var run :| IsRun(run) && run[0] == INIT && run[|run| - 1] == s;
    RunRetryInv(run, |run| - 1);
    assert LedgerRowOk(s, k);
    RequeuesBounded(s, k);
  }

  // ----- fencing and stranded tasks -----

  /** A run in which no worker id ever has two live claims on one task. */
  ghost predicate IsExclusiveRun(run: seq<State>) {
    IsRun(run) && run[0] == INIT && forall i | 0 <= i < |run| :: Exclusive(run[i])
  }

  lemma {:induction false} RunFencingInv(run: seq<State>, i: nat)
    requires IsExclusiveRun(run) && i < |run|
    ensures FencingInv(run[i])
  {
    if i == 0 {
      InitInv();
    } else {
      RunFencingInv(run, i - 1);
      var a := StepTo(run, i);
      FencingStepPreserves(run[i - 1], a);
    }
  }

  /** With exclusive worker ids, a handler whose task was claimed again since its own claim can
      take no step that ends the lease, changes the status or commits results. */
  lemma StaleClaimIsFenced(run: seq<State>, i: nat, h: nat, a: Step)
    requires IsExclusiveRun(run) && i < |run| && Enabled(run[i], a)
    requires a.CommitResults? || a.MarkTerminal? || a.MarkRetryable?
    requires a.h == h
    ensures HasClaim(run[i].handlers[h].phase)
    ensures run[i].handlers[h].phase.n == run[i].rows[KeyAt(run[i], h)].attempts
  {
    RunFencingInv(run, i);
    StepMarkOk(run[i], a);
    assert Claims(run[i], KeyAt(run[i], h), h);
  }

  /** No clock reading will ever let the task be claimed. */
  ghost predicate Stranded(r: Row) {
    !Final(r.status) && forall now :: !Claimable(r, now)
  }

  lemma StrandedExactly(r: Row)
    requires RowOk(r)
    ensures Stranded(r) <==> !Final(r.status) && r.attempts == r.maxAttempts
  {
    if !Final(r.status) && r.attempts < r.maxAttempts {
      assert Claimable(r, if r.expires.At? then r.expires.time + 1 else 0);
    }
  }

  /** With exclusive worker ids, a stranded task is leased on its last attempt; without a live
      lease, that lease has lapsed. */
  lemma OnlyLastLeaseStrands(run: seq<State>, i: nat, k: Key)
    requires IsExclusiveRun(run) && i < |run| && k in run[i].rows
    ensures Stranded(run[i].rows[k])
       <==> run[i].rows[k].status.Leased? && run[i].rows[k].attempts == run[i].rows[k].maxAttempts
  {
    RunFencingInv(run, i);
    assert LedgerRowOk(run[i], k);
    StrandedExactly(run[i].rows[k]);
  }

  /** Marking a task retryable strands it exactly when the marking handler's claim is stale and
      the task has since been claimed for the last time. */
  lemma RetryMarkStrandsExactly(s: State, h: nat, now: int)
    requires Reachable(s) && Enabled(s, MarkRetryable(h, now))
    ensures Stranded(Apply(s, MarkRetryable(h, now)).rows[KeyAt(s, h)])
       <==> && s.rows[KeyAt(s, h)].attempts == s.rows[KeyAt(s, h)].maxAttempts
            && s.handlers[h].phase.n < s.rows[KeyAt(s, h)].attempts
  {
    ReachableInv(s);
    assert HandlerOk(s, s.handlers[h]);
    assert LedgerRowOk(s, KeyAt(s, h));
    StrandedExactly(Apply(s, MarkRetryable(h, now)).rows[KeyAt(s, h)]);
  }

  /** A retryable row that has used up its attempts is final in all but name: no step of any
      handler changes it, so its task is never finished. */
  lemma {:induction false} StrandedRetryableStays(run: seq<State>, i: nat, j: nat, k: Key)
    requires IsRun(run) && run[0] == INIT && i <= j < |run| && k in run[i].rows
    requires run[i].rows[k].status.FailedRetryable? && run[i].rows[k].attempts == run[i].rows[k].maxAttempts
    ensures k in run[j].rows && run[j].rows[k] == run[i].rows[k]
  {
    if i < j {
      StrandedRetryableStays(run, i, j - 1, k);
      InitInv();
      RunInv(run, j - 1);
      var a := StepTo(run, j);
      StrandedStep(run[j - 1], a, k);
    }
  }

  lemma StrandedStep(s: State, a: Step, k: Key)
    requires Inv(s) && Enabled(s, a) && k in s.rows
    requires s.rows[k].status.FailedRetryable? && s.rows[k].attempts == s.rows[k].maxAttempts
    ensures k in Apply(s, a).rows && Apply(s, a).rows[k] == s.rows[k]
  {
    StepEffectOk(s, a);
    StepMarkOk(s, a);
    StepClaimOk(s, a);
    StrandedEffect(s, EffectOf(s, a), k);
  }

  lemma StrandedEffect(s: State, e: Effect, k: Key)
    requires EffectOk(s, e) && MarkEffectOk(s, e) && ClaimEffectOk(s, e) && k in s.rows
    requires s.rows[k].status.FailedRetryable? && s.rows[k].attempts == s.rows[k].maxAttempts
    ensures k in Perform(s, e).rows && Perform(s, e).rows[k] == s.rows[k]
  {
  }
}
