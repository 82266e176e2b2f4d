/** The inductive invariant of the protocol, proved one part at a time. `Evolves` is the rely
    condition: whatever a step of one handler does, it keeps what every other handler knows. */
module ProtocolInvariant {
  import opened Common
  import opened TaskStore
  import opened Protocol

  /** An enrichment message for trace `t` has been written to its stream. */
  ghost predicate Published(s: State, t: string) {
    exists m :: 0 <= m < |s.msgs| && s.msgs[m].known && KeyOf(s.msgs[m]) == Key(t, Enrichment)
  }

  /** Nothing is left to do for `k`: its row is final, and a succeeded core row that asked for
      enrichment has handed over. */
  ghost predicate Settled(s: State, k: Key) {
    && k in s.rows
    && Final(s.rows[k].status)
    && (k.stage.Core? && s.rows[k].status.Succeeded? && k.trace in s.traces && s.traces[k.trace].required
        ==> Published(s, k.trace))
  }

  ghost predicate DeadLetterFor(s: State, k: Key) {
    exists i :: 0 <= i < |s.dlq| && s.dlq[i].key == k
  }

  ghost predicate Evolves(s: State, s': State) {
    && s.msgs <= s'.msgs
    && s.dlq <= s'.dlq
    && s.delivered <= s'.delivered
    && s.acked <= s'.acked
    && s.traces.Keys <= s'.traces.Keys
    && TableEvolves(s.rows, s'.rows)
    && (forall k | k in s.rows && Settled(s, k) :: Settled(s', k))
  }

  /** The claim that a handler still carries. */
  predicate HasClaim(p: Phase) {
    p.Claimed? || p.Working? || p.Committed? || p.Handed? || p.Failing? || p.DeadLettered? || p.RetryMarked?
  }

  ghost predicate PhaseOk(s: State, k: Key, p: Phase)
    requires k in s.rows
  {
    var r := s.rows[k];
    && (HasClaim(p) ==> 1 <= p.n <= r.attempts && p.max == r.maxAttempts)
    && (p.SawSucceeded? || p.Recovering? || p.Recovered? || p.Committed? || p.Handed? ==> r.status.Succeeded?)
    && (p.Recovering? ==> k.stage.Core?)
    && (p.Recovered? || p.Handed? ==> Published(s, k.trace))
    && (p.Committed? && !(p.required && k.stage.Core?) ==> Settled(s, k))
    && (p.DeadLettered? ==> DeadLetterFor(s, k) && p.max <= p.n)
    && (p.RetryMarked? ==> p.n < p.max)
    && (p.Done? ==> Settled(s, k))
  }

  ghost predicate HandlerOk(s: State, hd: Handler) {
    && hd.msg < |s.msgs| && s.msgs[hd.msg].known && hd.msg in s.delivered
    && (!hd.phase.Received? ==>
          var k := KeyOf(s.msgs[hd.msg]);
          k.trace != "" && k in s.rows && k.trace in s.traces && PhaseOk(s, k, hd.phase))
  }

  ghost predicate HandlersOk(s: State) {
    forall h | h in s.handlers :: HandlerOk(s, s.handlers[h])
  }

  ghost predicate TraceOk(s: State, t: string)
    requires t in s.traces
  {
    && (s.traces[t].queued ==> Published(s, t))
    && (Key(t, Core) in s.rows && s.rows[Key(t, Core)].status.Succeeded? && s.traces[t].required && !Published(s, t)
        ==> s.traces[t].enrich.Pending?)
  }

  ghost predicate TracesOk(s: State) {
    forall t | t in s.traces :: TraceOk(s, t)
  }

  ghost predicate LedgerRowOk(s: State, k: Key)
    requires k in s.rows
  {
    && RowOk(s.rows[k])
    && k.trace in s.traces && k.trace != ""
    && (s.rows[k].status.FailedTerminal? ==> DeadLetterFor(s, k))
  }

  ghost predicate LedgerOk(s: State) {
    && (forall k | k in s.rows :: LedgerRowOk(s, k))
    && (forall i | 0 <= i < |s.dlq| ::
          s.dlq[i].key in s.rows && s.dlq[i].attempt == s.rows[s.dlq[i].key].attempts
              == s.rows[s.dlq[i].key].maxAttempts)
    && (forall k :: s.commits[k] == if k in s.rows && s.rows[k].status.Succeeded? then 1 else 0)
    && (forall m | m in s.acked ::
          && m < |s.msgs| && m in s.delivered
          && (s.msgs[m].known && s.msgs[m].trace != "" ==> KeyOf(s.msgs[m]) in s.rows))
  }

  predicate AboutToAck(p: Phase) {
    p.Requeued? || p.Done?
  }

  /** Some handler is about to acknowledge message `m`. */
  ghost predicate Doomed(s: State, m: nat) {
    exists h :: h in s.handlers && s.handlers[h].msg == m && AboutToAck(s.handlers[h].phase)
  }

  /** `m` will be delivered again unless something is done about `k` first. */
  ghost predicate Witness(s: State, k: Key, m: nat) {
    m < |s.msgs| && m !in s.acked && s.msgs[m].known && KeyOf(s.msgs[m]) == k && !Doomed(s, m)
  }

  ghost predicate WitnessesOk(s: State) {
    forall k | k in s.rows && !Settled(s, k) :: exists m :: Witness(s, k, m)
  }

  ghost predicate Inv(s: State) {
    HandlersOk(s) && TracesOk(s) && LedgerOk(s) && WitnessesOk(s)
  }

  lemma InitInv()
    ensures Inv(INIT)
  {
  }

  lemma PublishedGrows(s: State, s': State, t: string)
    requires s.msgs <= s'.msgs && Published(s, t)
    ensures Published(s', t)
  {
    var m :| 0 <= m < |s.msgs| && s.msgs[m].known && KeyOf(s.msgs[m]) == Key(t, Enrichment);
    assert s'.msgs[m] == s.msgs[m];
  }

  lemma DeadLetterGrows(s: State, s': State, k: Key)
    requires s.dlq <= s'.dlq && DeadLetterFor(s, k)
    ensures DeadLetterFor(s', k)
  {
    var i :| 0 <= i < |s.dlq| && s.dlq[i].key == k;
    assert s'.dlq[i] == s.dlq[i];
  }

  /** A handler that works on an enrichment message is itself the proof of publication. */
  lemma EnrichmentHandlerPublished(s: State, h: nat)
    requires HandlersOk(s) && h in s.handlers && KeyAt(s, h).stage.Enrichment?
    ensures Published(s, KeyAt(s, h).trace)
  {
    assert s.msgs[s.handlers[h].msg].known;
  }

  // ----- what every step promises the other handlers -----

  ghost predicate RowEffectOk(s: State, e: Effect) {
    e.row.Some? ==>
      var r := e.row.value;
      && RowOk(r)
      && e.key.trace != "" && e.key.trace in s.traces
      && (e.commit <==> r.status.Succeeded?)
      && (r.status.FailedTerminal? ==> DeadLetterFor(s, e.key))
      && (if e.key in s.rows then RowEvolves(s.rows[e.key], r) && !Final(s.rows[e.key].status)
          else !Final(r.status) && r.attempts == 0 && InPhase(s, e.h) && s.handlers[e.h].phase.Received?
               && KeyAt(s, e.h) == e.key && e.next.Moves?
               && e.next.to == s.handlers[e.h].(phase := Inserted) && e.ack == {})
  }

  ghost predicate TraceEffectOk(s: State, e: Effect) {
    e.trace.Some? ==>
      var tr := e.trace.value;
      if e.key.trace in s.traces then
        var tr0 := s.traces[e.key.trace];
        || Published(s, e.key.trace)
        || tr == tr0.(core := tr.core)
        || (e.key.stage.Core? && e.commit && e.row.Some?)
      else tr == NEW_TRACE && e.row.None?
  }

  ghost predicate LogEffectOk(s: State, e: Effect) {
    && (e.commit ==> e.row.Some? && e.trace.Some?)
    && (e.commit && e.key.stage.Core? ==> var tr := e.trace.value; !tr.queued && (tr.required ==> tr.enrich.Pending?))
    && (forall i | 0 <= i < |e.dead| ::
          && e.dead[i].key == e.key && e.key in s.rows && e.row.None?
          && e.dead[i].attempt == s.rows[e.key].attempts == s.rows[e.key].maxAttempts)
    && (forall m | m in e.ack ::
          && m < |s.msgs| && m in s.delivered + e.deliver
          && (!s.msgs[m].known || s.msgs[m].trace == "" || (Doomed(s, m) && KeyOf(s.msgs[m]) in s.rows)))
  }

  ghost predicate NextEffectOk(s: State, e: Effect) {
    e.next.Moves? ==>
      var s' := Perform(s, e);
      var to := e.next.to;
      && to.msg < |s.msgs| && KeyOf(s.msgs[to.msg]) == e.key
      && HandlerOk(s', to)
      && (to.phase.Requeued? ==> e.publish != [] && e.publish[0].known && KeyOf(e.publish[0]) == e.key)
  }

  ghost predicate EffectOk(s: State, e: Effect) {
    RowEffectOk(s, e) && TraceEffectOk(s, e) && LogEffectOk(s, e) && NextEffectOk(s, e)
  }

  lemma EffectEvolves(s: State, e: Effect)
    requires LedgerOk(s) && RowEffectOk(s, e) && TraceEffectOk(s, e)
    ensures Evolves(s, Perform(s, e))
  {
    var s' := Perform(s, e);
    forall k | k in s.rows ensures k in s'.rows && RowEvolves(s.rows[k], s'.rows[k]) {
    }
    forall k | k in s.rows && Settled(s, k)
      ensures Settled(s', k)
    {
      assert LedgerRowOk(s, k);
      assert s'.rows[k] == s.rows[k];
      if Published(s, k.trace) { PublishedGrows(s, s', k.trace); }
    }
  }

  lemma EvolvesKeepsHandler(s: State, s': State, hd: Handler)
    requires Evolves(s, s') && HandlerOk(s, hd)
    ensures HandlerOk(s', hd)
  {
    assert s'.msgs[hd.msg] == s.msgs[hd.msg];
    if !hd.phase.Received? {
      var k := KeyOf(s.msgs[hd.msg]);
      assert RowEvolves(s.rows[k], s'.rows[k]);
      if Published(s, k.trace) { PublishedGrows(s, s', k.trace); }
      if DeadLetterFor(s, k) { DeadLetterGrows(s, s', k); }
    }
  }

  lemma HandlersPreserved(s: State, e: Effect)
    requires HandlersOk(s) && LedgerOk(s) && EffectOk(s, e)
    ensures HandlersOk(Perform(s, e))
  {
    var s' := Perform(s, e);
    EffectEvolves(s, e);
    forall h | h in s'.handlers ensures HandlerOk(s', s'.handlers[h]) {
      if !(e.next.Moves? && h == e.h) {
        EvolvesKeepsHandler(s, s', s.handlers[h]);
      }
    }
  }

  lemma TracesPreserved(s: State, e: Effect)
    requires TracesOk(s) && LedgerOk(s) && EffectOk(s, e)
    ensures TracesOk(Perform(s, e))
  {
    var s' := Perform(s, e);
    forall t | t in s'.traces ensures TraceOk(s', t) {
      var k := Key(t, Core);
      if t in s.traces {
        assert TraceOk(s, t);
        if Published(s, t) { PublishedGrows(s, s', t); }
      } else {
        assert k in s.rows ==> LedgerRowOk(s, k);
        assert k !in s'.rows;
      }
    }
  }

  lemma LedgerRowPreserved(s: State, e: Effect, k: Key)
    requires LedgerOk(s) && EffectOk(s, e) && k in Perform(s, e).rows
    ensures LedgerRowOk(Perform(s, e), k)
  {
    var s' := Perform(s, e);
    if k in s.rows { assert LedgerRowOk(s, k); }
    if DeadLetterFor(s, k) { DeadLetterGrows(s, s', k); }
  }

  lemma LedgerPreserved(s: State, e: Effect)
    requires LedgerOk(s) && EffectOk(s, e)
    ensures LedgerOk(Perform(s, e))
  {
    var s' := Perform(s, e);
    forall k | k in s'.rows ensures LedgerRowOk(s', k) {
      LedgerRowPreserved(s, e, k);
    }
    forall i | 0 <= i < |s'.dlq|
      ensures && s'.dlq[i].key in s'.rows
              && s'.dlq[i].attempt == s'.rows[s'.dlq[i].key].attempts == s'.rows[s'.dlq[i].key].maxAttempts
    {
      if i < |s.dlq| {
        assert s'.dlq[i] == s.dlq[i];
        var k := s.dlq[i].key;
        assert LedgerRowOk(s', k) by { LedgerRowPreserved(s, e, k); }
      } else {
        assert s'.dlq[i] == e.dead[i - |s.dlq|];
      }
    }
    forall m | m in s'.acked
      ensures && m < |s'.msgs| && m in s'.delivered
              && (s'.msgs[m].known && s'.msgs[m].trace != "" ==> KeyOf(s'.msgs[m]) in s'.rows)
    {
      assert m < |s.msgs|;
      assert s'.msgs[m] == s.msgs[m];
    }
  }

  /** The message whose handler inserts the row is the first witness of that row: nobody could
      have acknowledged it, or be about to, before the row existed. */
  lemma FreshRowWitness(s: State, e: Effect)
    requires HandlersOk(s) && LedgerOk(s) && EffectOk(s, e)
    requires e.row.Some? && e.key !in s.rows
    ensures Witness(Perform(s, e), e.key, s.handlers[e.h].msg)
  {
    var s' := Perform(s, e);
    var m := s.handlers[e.h].msg;
    assert HandlerOk(s, s.handlers[e.h]);
    assert s'.msgs[m] == s.msgs[m];
    forall h | h in s'.handlers && s'.handlers[h].msg == m ensures !AboutToAck(s'.handlers[h].phase) {
      if h != e.h { assert HandlerOk(s, s.handlers[h]); }
    }
  }

  /** A handler that requeues leaves the entry it wrote as the new witness. */
  lemma RequeueWitness(s: State, e: Effect)
    requires HandlersOk(s) && LedgerOk(s) && EffectOk(s, e)
    requires e.next.Moves? && e.next.to.phase.Requeued?
    ensures Witness(Perform(s, e), e.key, |s.msgs|)
  {
    var s' := Perform(s, e);
    var m := |s.msgs|;
    assert s'.msgs[m] == e.publish[0];
    assert m !in s'.acked;
    forall h | h in s'.handlers ensures s'.handlers[h].msg != m {
      if h != e.h { assert HandlerOk(s, s.handlers[h]); }
    }
  }

  /** A witness survives every step that neither dooms it nor settles its key. */
  lemma WitnessKept(s: State, e: Effect, k: Key, m: nat)
    requires HandlersOk(s) && LedgerOk(s) && EffectOk(s, e)
    requires k in s.rows && Witness(s, k, m)
    requires !(e.next.Moves? && e.key == k && AboutToAck(e.next.to.phase))
    ensures Witness(Perform(s, e), k, m)
  {
    var s' := Perform(s, e);
    assert LedgerRowOk(s, k);
    assert s'.msgs[m] == s.msgs[m];
    forall h | h in s'.handlers && s'.handlers[h].msg == m ensures !AboutToAck(s'.handlers[h].phase) {
      if h in s.handlers && s'.handlers[h] == s.handlers[h] {
        assert !Doomed(s, m);
      }
    }
  }

  lemma WitnessesPreserved(s: State, e: Effect)
    requires HandlersOk(s) && LedgerOk(s) && WitnessesOk(s) && EffectOk(s, e)
    ensures WitnessesOk(Perform(s, e))
  {
    var s' := Perform(s, e);
    EffectEvolves(s, e);
    forall k | k in s'.rows && !Settled(s', k) ensures exists m :: Witness(s', k, m) {
      if k !in s.rows {
        FreshRowWitness(s, e);
      } else if e.next.Moves? && e.key == k && e.next.to.phase.Requeued? {
        RequeueWitness(s, e);
      } else {
        assert !Settled(s, k);
        var m :| Witness(s, k, m);
        WitnessKept(s, e, k, m);
      }
    }
  }

  // ----- every step keeps that promise -----

  lemma EnvironmentStepOk(s: State, a: Step)
    requires Inv(s) && Enabled(s, a)
    requires a.CaptureTrace? || a.GatewayPublish? || a.Deliver? || a.DropUnknownStage?
    ensures EffectOk(s, EffectOf(s, a))
  {
  }

  lemma LeavingStepOk(s: State, a: Step)
    requires Inv(s) && Enabled(s, a)
    requires a.DropBlankTrace? || a.Ack? || a.Quit?
    ensures EffectOk(s, EffectOf(s, a))
  {
    assert HandlerOk(s, s.handlers[a.h]);
  }

  lemma InsertStepOk(s: State, a: Step)
    requires Inv(s) && Enabled(s, a) && a.Insert?
    ensures EffectOk(s, EffectOf(s, a))
  {
    assert HandlerOk(s, s.handlers[a.h]);
  }

  lemma ClaimStepOk(s: State, a: Step)
    requires Inv(s) && Enabled(s, a)
    requires a.ClaimWin? || a.ClaimMiss?
    ensures EffectOk(s, EffectOf(s, a))
  {
    assert HandlerOk(s, s.handlers[a.h]);
    assert LedgerRowOk(s, KeyAt(s, a.h));
  }

  /** A duplicate delivery: what the handler finds decides whether it may acknowledge. */
  lemma DuplicateStepOk(s: State, a: Step)
    requires Inv(s) && Enabled(s, a)
    requires a.LookupFinal? || a.CheckRecovery?
    ensures EffectOk(s, EffectOf(s, a))
  {
    var k := KeyAt(s, a.h);
    var s' := Apply(s, a);
    assert HandlerOk(s, s.handlers[a.h]);
    assert TraceOk(s, k.trace);
    assert Settled(s, k) ==> Settled(s', k) by {
      if Published(s, k.trace) { PublishedGrows(s, s', k.trace); }
    }
  }

  lemma PublishStepOk(s: State, a: Step)
    requires Inv(s) && Enabled(s, a) && a.PublishEnrichment?
    ensures EffectOk(s, EffectOf(s, a))
  {
    var k := KeyAt(s, a.h);
    var s' := Apply(s, a);
    assert HandlerOk(s, s.handlers[a.h]);
    assert s'.msgs[|s.msgs|] == Msg(k.trace, Enrichment, true, 1, false);
    assert Published(s', k.trace);
  }

  lemma EnqueuedStepOk(s: State, a: Step)
    requires Inv(s) && Enabled(s, a) && a.MarkEnqueued?
    ensures EffectOk(s, EffectOf(s, a))
  {
    assert HandlerOk(s, s.handlers[a.h]);
    PublishedGrows(s, Apply(s, a), KeyAt(s, a.h).trace);
  }

  lemma SkipStepOk(s: State, a: Step)
    requires Inv(s) && Enabled(s, a) && a.SkipHandoff?
    ensures EffectOk(s, EffectOf(s, a))
  {
    assert HandlerOk(s, s.handlers[a.h]);
    if Published(s, KeyAt(s, a.h).trace) { PublishedGrows(s, Apply(s, a), KeyAt(s, a.h).trace); }
  }

  lemma WorkStepOk(s: State, a: Step)
    requires Inv(s) && Enabled(s, a)
    requires a.MarkProcessing? || a.Raise?
    ensures EffectOk(s, EffectOf(s, a))
  {
    assert HandlerOk(s, s.handlers[a.h]);
    if KeyAt(s, a.h).stage.Enrichment? { EnrichmentHandlerPublished(s, a.h); }
  }

  lemma CommitStepOk(s: State, a: Step)
    requires Inv(s) && Enabled(s, a) && a.CommitResults?
    ensures EffectOk(s, EffectOf(s, a))
  {
    assert HandlerOk(s, s.handlers[a.h]);
    assert LedgerRowOk(s, KeyAt(s, a.h));
    if KeyAt(s, a.h).stage.Enrichment? { EnrichmentHandlerPublished(s, a.h); }
  }

  lemma DeadLetterStepOk(s: State, a: Step)
    requires Inv(s) && Enabled(s, a) && a.PublishDeadLetter?
    ensures EffectOk(s, EffectOf(s, a))
  {
    assert HandlerOk(s, s.handlers[a.h]);
    assert LedgerRowOk(s, KeyAt(s, a.h));
    assert Apply(s, a).dlq[|s.dlq|].key == KeyAt(s, a.h);
  }

  lemma TerminalStepOk(s: State, a: Step)
    requires Inv(s) && Enabled(s, a) && a.MarkTerminal?
    ensures EffectOk(s, EffectOf(s, a))
  {
    assert HandlerOk(s, s.handlers[a.h]);
    assert LedgerRowOk(s, KeyAt(s, a.h));
    if KeyAt(s, a.h).stage.Enrichment? { EnrichmentHandlerPublished(s, a.h); }
  }

  lemma RetryStepOk(s: State, a: Step)
    requires Inv(s) && Enabled(s, a) && a.MarkRetryable?
    ensures EffectOk(s, EffectOf(s, a))
  {
    assert HandlerOk(s, s.handlers[a.h]);
    assert LedgerRowOk(s, KeyAt(s, a.h));
    if KeyAt(s, a.h).stage.Enrichment? { EnrichmentHandlerPublished(s, a.h); }
  }

  lemma RequeueStepOk(s: State, a: Step)
    requires Inv(s) && Enabled(s, a) && a.Requeue?
    ensures EffectOk(s, EffectOf(s, a))
  {
    assert HandlerOk(s, s.handlers[a.h]);
  }

  lemma StepEffectOk(s: State, a: Step)
    requires Inv(s) && Enabled(s, a)
    ensures EffectOk(s, EffectOf(s, a))
  {
    if a.CaptureTrace? || a.GatewayPublish? || a.Deliver? || a.DropUnknownStage? { EnvironmentStepOk(s, a); }
    else if a.DropBlankTrace? || a.Ack? || a.Quit? { LeavingStepOk(s, a); }
    else if a.Insert? { InsertStepOk(s, a); }
    else if a.ClaimWin? || a.ClaimMiss? { ClaimStepOk(s, a); }
    else if a.LookupFinal? || a.CheckRecovery? { DuplicateStepOk(s, a); }
    else if a.PublishEnrichment? { PublishStepOk(s, a); }
    else if a.MarkEnqueued? { EnqueuedStepOk(s, a); }
    else if a.SkipHandoff? { SkipStepOk(s, a); }
    else if a.MarkProcessing? || a.Raise? { WorkStepOk(s, a); }
    else if a.CommitResults? { CommitStepOk(s, a); }
    else if a.PublishDeadLetter? { DeadLetterStepOk(s, a); }
    else if a.MarkTerminal? { TerminalStepOk(s, a); }
    else if a.MarkRetryable? { RetryStepOk(s, a); }
    else { RequeueStepOk(s, a); }
  }

  /** Every step keeps the invariant and evolves the state. */
  lemma StepPreserves(s: State, a: Step)
    requires Inv(s) && Enabled(s, a)
    ensures Inv(Apply(s, a)) && Evolves(s, Apply(s, a))
  {
    var e := EffectOf(s, a);
    StepEffectOk(s, a);
    EffectEvolves(s, e);
    HandlersPreserved(s, e);
    TracesPreserved(s, e);
    LedgerPreserved(s, e);
    WitnessesPreserved(s, e);
  }

  lemma EvolvesTransitive(a: State, b: State, c: State)
    requires Evolves(a, b) && Evolves(b, c)
    ensures Evolves(a, c)
  {
    TableEvolvesTransitive(a.rows, b.rows, c.rows);
  }

  lemma Step1Preserves(s: State, s': State)
    requires Inv(s) && Step1(s, s')
    ensures Inv(s') && Evolves(s, s')
  {
    var a :| Enabled(s, a) && s' == Apply(s, a);
    StepPreserves(s, a);
  }

  lemma EvolvesReflexive(s: State)
    ensures Evolves(s, s)
  {
  }

  lemma {:induction false} RunInv(run: seq<State>, j: nat)
    requires IsRun(run) && j < |run| && Inv(run[0])
    ensures Inv(run[j])
    decreases j
  {
    if 0 < j {
      RunInv(run, j - 1);
      assert StepAt(run, j);
      Step1Preserves(run[j - 1], run[j]);
    }
  }

  lemma {:induction false} RunEvolves(run: seq<State>, i: nat, j: nat)
    requires IsRun(run) && i <= j < |run| && Inv(run[0])
    ensures Evolves(run[i], run[j])
    decreases j
  {
    if i == j {
      EvolvesReflexive(run[j]);
    } else {
      RunEvolves(run, i, j - 1);
      RunInv(run, j - 1);
      assert StepAt(run, j);
      Step1Preserves(run[j - 1], run[j]);
      EvolvesTransitive(run[i], run[j - 1], run[j]);
    }
  }

  /** Along a run from a good state, every state is good and evolves every earlier one. */
  lemma RunPreserves(run: seq<State>, i: nat, j: nat)
    requires IsRun(run) && i <= j < |run| && Inv(run[0])
    ensures Inv(run[j]) && Evolves(run[i], run[j])
  {
    RunInv(run, j);
    RunEvolves(run, i, j);
  }

  lemma ReachesPreserves(s: State, s': State)
    requires Inv(s) && Reaches(s, s')
    ensures Inv(s') && Evolves(s, s')
  {
    var run :| IsRun(run) && run[0] == s && run[|run| - 1] == s';
    RunPreserves(run, 0, |run| - 1);
  }

  lemma ReachableInv(s: State)
    requires Reachable(s)
    ensures Inv(s)
  {
    InitInv();
    ReachesPreserves(INIT, s);
  }
}
