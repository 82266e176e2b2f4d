/** Bounded retries and fencing. A claim is identified by the attempt count it returned, so
    the requeued messages of a task carry pairwise distinct attempt numbers, and a lease
    that is held under exclusive worker ids belongs to the latest claim. */
module ProtocolRetries {
  import opened TaskStore
  import opened Protocol
  import opened ProtocolInvariant

  predicate IsRequeue(s: State, k: Key, m: nat) {
    m < |s.msgs| && s.msgs[m].requeue && KeyOf(s.msgs[m]) == k
  }

  predicate Claims(s: State, k: Key, h: nat) {
    InPhase(s, h) && HasClaim(s.handlers[h].phase) && KeyAt(s, h) == k
  }

  function ClaimNo(s: State, h: nat): nat
    requires h in s.handlers && HasClaim(s.handlers[h].phase)
  {
    s.handlers[h].phase.n
  }

  /** A requeued message announces an attempt that its task may still make. */
  ghost predicate RequeuesInRange(s: State) {
    forall m | 0 <= m < |s.msgs| && s.msgs[m].requeue ::
      var k := KeyOf(s.msgs[m]);
      k in s.rows && 2 <= s.msgs[m].attempt <= s.rows[k].attempts + 1 && s.msgs[m].attempt <= s.rows[k].maxAttempts
  }

  ghost predicate RequeuesDistinct(s: State) {
    forall m, m' | 0 <= m < m' < |s.msgs| && s.msgs[m].requeue && s.msgs[m'].requeue
                && KeyOf(s.msgs[m]) == KeyOf(s.msgs[m']) :: s.msgs[m].attempt != s.msgs[m'].attempt
  }

  ghost predicate ClaimsDistinct(s: State) {
    forall k, h, h' | h != h' && Claims(s, k, h) && Claims(s, k, h') :: ClaimNo(s, h) != ClaimNo(s, h')
  }

  /** A handler that still holds its claim has not requeued for it. */
  ghost predicate ClaimsUnused(s: State) {
    forall k, h, m: nat | Claims(s, k, h) && IsRequeue(s, k, m) :: s.msgs[m].attempt != ClaimNo(s, h) + 1
  }

  ghost predicate RetriesOk(s: State) {
    RequeuesInRange(s) && RequeuesDistinct(s) && ClaimsDistinct(s) && ClaimsUnused(s)
  }

  ghost predicate RetryInv(s: State) {
    Inv(s) && RetriesOk(s)
  }

  /** A handler that claims after the effect keeps its claim number, or leases the row under the
      next one. */
  ghost predicate ClaimIsKeptOrNext(s: State, e: Effect) {
    e.next.Moves? && HasClaim(e.next.to.phase) ==>
      && InPhase(s, e.h) && KeyAt(s, e.h) == e.key
      && e.next.to == s.handlers[e.h].(phase := e.next.to.phase)
      && (if HasClaim(s.handlers[e.h].phase) then
            e.next.to.phase.n == s.handlers[e.h].phase.n
          else
            && e.key in s.rows && e.next.to.phase.n == s.rows[e.key].attempts + 1
            && e.row.Some? && e.row.value.attempts == e.next.to.phase.n
            && e.row.value.status.Leased? && e.row.value.owner == e.next.to.worker)
  }

  /** Only a handler that makes a new claim leases a row. */
  ghost predicate LeaseIsNewClaim(s: State, e: Effect) {
    e.row.Some? && e.row.value.status.Leased? ==>
      e.next.Moves? && HasClaim(e.next.to.phase) && InPhase(s, e.h) && !HasClaim(s.handlers[e.h].phase)
  }

  /** A requeued message ends the claim it follows and carries its number plus one. */
  ghost predicate RequeueEndsClaim(s: State, e: Effect) {
    && |e.publish| <= 1
    && (e.publish != [] && e.publish[0].requeue ==>
          && Claims(s, e.key, e.h) && s.handlers[e.h].phase.RetryMarked?
          && KeyOf(e.publish[0]) == e.key && e.publish[0].attempt == s.handlers[e.h].phase.n + 1
          && e.next.Moves? && !HasClaim(e.next.to.phase))
  }

  /** How a step may touch a claim. */
  ghost predicate ClaimEffectOk(s: State, e: Effect) {
    ClaimIsKeptOrNext(s, e) && LeaseIsNewClaim(s, e) && RequeueEndsClaim(s, e)
  }

  ghost predicate FromClaim(a: Step) {
    || a.MarkProcessing? || a.CommitResults? || a.Raise? || a.PublishDeadLetter? || a.MarkTerminal?
    || a.MarkRetryable? || a.Requeue?
  }

  lemma StepFromClaimKeeps(s: State, a: Step)
    requires Enabled(s, a) && FromClaim(a)
    ensures ClaimIsKeptOrNext(s, EffectOf(s, a))
  {
  }

  lemma OtherStepKeeps(s: State, a: Step)
    requires Enabled(s, a) && !FromClaim(a)
    ensures ClaimIsKeptOrNext(s, EffectOf(s, a))
  {
  }

  lemma StepLeasesByClaim(s: State, a: Step)
    requires Enabled(s, a)
    ensures LeaseIsNewClaim(s, EffectOf(s, a))
  {
  }

  lemma StepRequeues(s: State, a: Step)
    requires Enabled(s, a)
    ensures RequeueEndsClaim(s, EffectOf(s, a))
  {
  }

  lemma StepClaimOk(s: State, a: Step)
    requires Enabled(s, a)
    ensures ClaimEffectOk(s, EffectOf(s, a))
  {
    if FromClaim(a) { StepFromClaimKeeps(s, a); } else { OtherStepKeeps(s, a); }
    StepLeasesByClaim(s, a);
    StepRequeues(s, a);
  }

  /** A handler that claims after the step either claimed before with the same number, or has
      just made the next claim of its task. */
  lemma ClaimOrigin(s: State, e: Effect, k: Key, h: nat)
    requires HandlersOk(s) && EffectOk(s, e) && ClaimEffectOk(s, e) && Claims(Perform(s, e), k, h)
    ensures || (Claims(s, k, h) && ClaimNo(Perform(s, e), h) == ClaimNo(s, h)
                && Perform(s, e).handlers[h].worker == s.handlers[h].worker)
            || (e.next.Moves? && h == e.h && k == e.key && k in s.rows && !HasClaim(s.handlers[h].phase)
                && ClaimNo(Perform(s, e), h) == s.rows[k].attempts + 1)
  {
    var s' := Perform(s, e);
    var m := s'.handlers[h].msg;
    if !(e.next.Moves? && h == e.h) { assert HandlerOk(s, s.handlers[h]); }
    assert s'.msgs[m] == s.msgs[m];
  }

  lemma ClaimBelow(s: State, k: Key, h: nat)
    requires HandlersOk(s) && Claims(s, k, h)
    ensures k in s.rows && 1 <= ClaimNo(s, h) <= s.rows[k].attempts
  {
    assert HandlerOk(s, s.handlers[h]);
  }

  lemma ClaimsDistinctPreserved(s: State, e: Effect)
    requires HandlersOk(s) && RetriesOk(s) && EffectOk(s, e) && ClaimEffectOk(s, e)
    ensures ClaimsDistinct(Perform(s, e))
  {
    var s' := Perform(s, e);
    forall k, h, h' | h != h' && Claims(s', k, h) && Claims(s', k, h')
      ensures ClaimNo(s', h) != ClaimNo(s', h')
    {
      ClaimOrigin(s, e, k, h);
      ClaimOrigin(s, e, k, h');
      if Claims(s, k, h) { ClaimBelow(s, k, h); }
      if Claims(s, k, h') { ClaimBelow(s, k, h'); }
    }
  }

  lemma RequeuesInRangePreserved(s: State, e: Effect)
    requires HandlersOk(s) && LedgerOk(s) && RetriesOk(s) && EffectOk(s, e) && ClaimEffectOk(s, e)
    ensures RequeuesInRange(Perform(s, e))
  {
    var s' := Perform(s, e);
    EffectEvolves(s, e);
    forall m | 0 <= m < |s'.msgs| && s'.msgs[m].requeue
      ensures var k := KeyOf(s'.msgs[m]);
              && k in s'.rows && 2 <= s'.msgs[m].attempt <= s'.rows[k].attempts + 1
              && s'.msgs[m].attempt <= s'.rows[k].maxAttempts
    {
      if m < |s.msgs| {
        assert s'.msgs[m] == s.msgs[m];
        assert RowEvolves(s.rows[KeyOf(s.msgs[m])], s'.rows[KeyOf(s.msgs[m])]);
      } else {
        assert s'.msgs[m] == e.publish[0];
        assert HandlerOk(s, s.handlers[e.h]);
      }
    }
  }

  lemma RequeuesDistinctPreserved(s: State, e: Effect)
    requires RetriesOk(s) && EffectOk(s, e) && ClaimEffectOk(s, e)
    ensures RequeuesDistinct(Perform(s, e))
  {
    var s' := Perform(s, e);
    forall m, m' | 0 <= m < m' < |s'.msgs| && s'.msgs[m].requeue && s'.msgs[m'].requeue
                && KeyOf(s'.msgs[m]) == KeyOf(s'.msgs[m'])
      ensures s'.msgs[m].attempt != s'.msgs[m'].attempt
    {
      assert s'.msgs[m] == s.msgs[m];
      if m' < |s.msgs| {
        assert s'.msgs[m'] == s.msgs[m'];
      } else {
        assert s'.msgs[m'] == e.publish[0];
        assert IsRequeue(s, e.key, m);
      }
    }
  }

  lemma ClaimsUnusedPreserved(s: State, e: Effect)
    requires HandlersOk(s) && RetriesOk(s) && EffectOk(s, e) && ClaimEffectOk(s, e)
    ensures ClaimsUnused(Perform(s, e))
  {
    var s' := Perform(s, e);
    forall k, h, m: nat | Claims(s', k, h) && IsRequeue(s', k, m)
      ensures s'.msgs[m].attempt != ClaimNo(s', h) + 1
    {
      ClaimOrigin(s, e, k, h);
      if m < |s.msgs| {
        assert s'.msgs[m] == s.msgs[m];
        assert IsRequeue(s, k, m);
      } else {
        assert s'.msgs[m] == e.publish[0];
      }
    }
  }

  lemma RetryStepPreserves(s: State, a: Step)
    requires RetryInv(s) && Enabled(s, a)
    ensures RetryInv(Apply(s, a))
  {
    var e := EffectOf(s, a);
    StepEffectOk(s, a);
    StepClaimOk(s, a);
    StepPreserves(s, a);
    ClaimsDistinctPreserved(s, e);
    RequeuesInRangePreserved(s, e);
    RequeuesDistinctPreserved(s, e);
    ClaimsUnusedPreserved(s, e);
  }

  // ----- how many messages a task can requeue -----

  /** A set of indices whose numbers are distinct and lie in 2..hi has at most hi - 1 elements. */
  lemma {:induction false} DistinctNumbersBound(s: State, ms: set<nat>, hi: nat)
    requires forall m | m in ms :: m < |s.msgs| && 2 <= s.msgs[m].attempt <= hi
    requires forall m, m' | m in ms && m' in ms && m != m' :: s.msgs[m].attempt != s.msgs[m'].attempt
    ensures |ms| <= if hi < 2 then 0 else hi - 1
    decreases hi
  {
    if hi < 2 {
      assert ms == {};
    } else if m :| m in ms && s.msgs[m].attempt == hi {
      DistinctNumbersBound(s, ms - {m}, hi - 1);
    } else {
      DistinctNumbersBound(s, ms, hi - 1);
    }
  }

  ghost function RequeuesOf(s: State, k: Key): set<nat> {
    set m: nat | m < |s.msgs| && IsRequeue(s, k, m)
  }

  lemma RequeuesBounded(s: State, k: Key)
    requires RetryInv(s) && k in s.rows
    ensures |RequeuesOf(s, k)| <= s.rows[k].attempts
    ensures |RequeuesOf(s, k)| < s.rows[k].maxAttempts
  {
    var ms := RequeuesOf(s, k);
    assert LedgerRowOk(s, k);
    forall m, m' | m in ms && m' in ms && m != m' ensures s.msgs[m].attempt != s.msgs[m'].attempt {
      assert m < m' || m' < m;
    }
    DistinctNumbersBound(s, ms, s.rows[k].attempts + 1);
    DistinctNumbersBound(s, ms, s.rows[k].maxAttempts);
  }

  // ----- fencing -----

  /** A row that leaves the leased state does so for a handler that claims it under the id that
      the lease names. */
  ghost predicate MarkEffectOk(s: State, e: Effect) {
    && (e.row.Some? && !e.row.value.status.Leased? && e.key in s.rows ==>
          && Claims(s, e.key, e.h)
          && s.rows[e.key].status.Leased? && s.rows[e.key].owner == s.handlers[e.h].worker
          && e.row.value.attempts == s.rows[e.key].attempts
          && (e.row.value.status.FailedRetryable? ==> s.handlers[e.h].phase.n < s.handlers[e.h].phase.max))
    && (e.row.Some? && e.row.value.status.FailedRetryable? ==> e.key in s.rows)
    && (e.commit ==> e.row.Some? && e.row.value.status.Succeeded? && e.key in s.rows)
  }

  lemma StepMarkOk(s: State, a: Step)
    requires Enabled(s, a)
    ensures MarkEffectOk(s, EffectOf(s, a))
  {
  }

  /** One live handler per worker id per task. */
  ghost predicate Exclusive(s: State) {
    forall k, h, h' | h != h' && Claims(s, k, h) && Claims(s, k, h') :: s.handlers[h].worker != s.handlers[h'].worker
  }

  /** A handler whose id the lease names made the latest claim of the task. */
  ghost predicate LeaseIsLatest(s: State) {
    forall k, h | k in s.rows && s.rows[k].status.Leased? && Claims(s, k, h)
        && s.handlers[h].worker == s.rows[k].owner ::
      ClaimNo(s, h) == s.rows[k].attempts
  }

  ghost predicate RetryableIsClaimable(s: State) {
    forall k | k in s.rows && s.rows[k].status.FailedRetryable? :: s.rows[k].attempts < s.rows[k].maxAttempts
  }

  ghost predicate FencingInv(s: State) {
    RetryInv(s) && LeaseIsLatest(s) && RetryableIsClaimable(s)
  }

  lemma LeaseIsLatestPreserved(s: State, e: Effect)
    requires RetryInv(s) && LeaseIsLatest(s) && Exclusive(Perform(s, e))
    requires EffectOk(s, e) && ClaimEffectOk(s, e)
    ensures LeaseIsLatest(Perform(s, e))
  {
    var s' := Perform(s, e);
    forall k, h | && k in s'.rows && s'.rows[k].status.Leased? && Claims(s', k, h)
                  && s'.handlers[h].worker == s'.rows[k].owner
      ensures ClaimNo(s', h) == s'.rows[k].attempts
    {
      if e.row.Some? && e.key == k {
        NewLeaseIsLatest(s, e, k, h);
      } else {
        ClaimOrigin(s, e, k, h);
      }
    }
  }

  /** A lease just taken belongs to the handler that took it, and to no other under that id. */
  lemma NewLeaseIsLatest(s: State, e: Effect, k: Key, h: nat)
    requires HandlersOk(s) && EffectOk(s, e) && ClaimEffectOk(s, e) && Exclusive(Perform(s, e))
    requires e.row.Some? && e.key == k && e.row.value.status.Leased? && Claims(Perform(s, e), k, h)
    requires Perform(s, e).handlers[h].worker == e.row.value.owner
    ensures ClaimNo(Perform(s, e), h) == e.row.value.attempts
  {
    var s' := Perform(s, e);
    assert s'.msgs[e.next.to.msg] == s.msgs[e.next.to.msg];
    assert Claims(s', k, e.h);
  }

  lemma FencingStepPreserves(s: State, a: Step)
    requires FencingInv(s) && Enabled(s, a) && Exclusive(Apply(s, a))
    ensures FencingInv(Apply(s, a))
  {
    var e := EffectOf(s, a);
    StepEffectOk(s, a);
    StepClaimOk(s, a);
    StepMarkOk(s, a);
    RetryStepPreserves(s, a);
    LeaseIsLatestPreserved(s, e);
    RetryablePreserved(s, e);
  }

  lemma RetryablePreserved(s: State, e: Effect)
    requires FencingInv(s) && EffectOk(s, e) && MarkEffectOk(s, e)
    ensures RetryableIsClaimable(Perform(s, e))
  {
    var s' := Perform(s, e);
    forall k | k in s'.rows && s'.rows[k].status.FailedRetryable?
      ensures s'.rows[k].attempts < s'.rows[k].maxAttempts
    {
      if e.row.Some? && e.key == k {
        assert HandlerOk(s, s.handlers[e.h]);
        assert ClaimNo(s, e.h) == s.rows[k].attempts;
      }
    }
  }
}
