/** `_process_stream_message` as straight-line code over a shared deployment. Between any two
    of its own steps other handlers may run; every effect it has is a protocol step, so the
    deployment never leaves the states reachable from where the call began. */
module Handler {
  import opened Common
  import opened TaskStore
  import opened Protocol
  import opened ProtocolInvariant
  import opened ProtocolRetries

  /** How one call ends. `GaveUp` stands for every exit that does not acknowledge: a crash, a
      lost lease, an active lease elsewhere, a failed publish or database call. */
  datatype Outcome =
    | InvalidAcked
    | DuplicateAcked
    | RecoveredEnqueue
    | Processed
    | RetryRequeued
    | FailedForGood
    | GaveUp

  /** What survives the steps of others. */
  ghost predicate Later(s: State, s': State) {
    s.msgs <= s'.msgs && TableEvolves(s.rows, s'.rows)
  }

  /** The retry path has written the message for attempt `n` of `k`. */
  ghost predicate RequeuedAs(s: State, k: Key, n: nat) {
    exists m: nat :: IsRequeue(s, k, m) && s.msgs[m].attempt == n
  }

  /** What the steps of this handler alone have done. */
  datatype Tally = Tally(acks: nat, commits: nat, deadLetters: nat, requeues: nat)

  ghost function Count(t: Tally, a: Step): Tally {
    Tally(
      t.acks + One(a.Ack? || a.DropBlankTrace? || a.DropUnknownStage?),
      t.commits + One(a.CommitResults?),
      t.deadLetters + One(a.PublishDeadLetter?),
      t.requeues + One(a.Requeue?))
  }

  /** A call acknowledges its message once, unless it gives up; then it leaves the message alone. */
  ghost predicate AcksUnlessGivingUp(before: Tally, after: Tally, o: Outcome) {
    after.acks == before.acks + One(!o.GaveUp?)
  }

  /** A failed attempt `n` of `max`: the last one is dead-lettered and never requeued, any other is
      requeued and never dead-lettered, and each is done once if the call gets that far. */
  ghost predicate FailsOnce(before: Tally, after: Tally, n: nat, max: int, o: Outcome) {
    && (max <= n ==> !o.RetryRequeued? && after.requeues == before.requeues
                     && before.deadLetters <= after.deadLetters <= before.deadLetters + 1)
    && (n < max ==> !o.FailedForGood? && after.deadLetters == before.deadLetters
                    && before.requeues <= after.requeues <= before.requeues + 1)
    && (o.FailedForGood? ==> after.deadLetters == before.deadLetters + 1)
    && (o.RetryRequeued? ==> after.requeues == before.requeues + 1)
  }

  /** Results are committed at most once, and by every call that processes its message. */
  ghost predicate CommitsOnce(before: Tally, after: Tally, o: Outcome) {
    && before.commits <= after.commits <= before.commits + 1
    && (o.Processed? ==> after.commits == before.commits + 1)
  }

  // ----- what others may do -----

  /** Effect `e` is one of handler `h`. */
  predicate Touches(e: Effect, h: nat) {
    !e.next.Unmoved? && e.h == h
  }

  lemma Untouched(s: State, e: Effect, h: nat)
    requires h in s.handlers && !Touches(e, h)
    ensures h in Perform(s, e).handlers && Perform(s, e).handlers[h] == s.handlers[h]
  {
  }

  /** Step `a` is taken by handler `h`. */
  predicate ActsFor(s: State, a: Step, h: nat)
    requires Enabled(s, a)
  {
    Touches(EffectOf(s, a), h)
  }

  /** A step of another handler, of the gateway or of the stream reader leaves this handler where it
      is and only adds to what it may rely on. */
  lemma OthersKeep(s: State, a: Step, h: nat)
    requires Inv(s) && Enabled(s, a) && h in s.handlers && !ActsFor(s, a, h)
    ensures h in Apply(s, a).handlers && Apply(s, a).handlers[h] == s.handlers[h] && Later(s, Apply(s, a))
    ensures s.traces.Keys <= Apply(s, a).traces.Keys
  {
    Untouched(s, EffectOf(s, a), h);
    StepPreserves(s, a);
  }

  lemma LaterTransitive(a: State, b: State, c: State)
    requires Later(a, b) && Later(b, c)
    ensures Later(a, c)
  {
    TableEvolvesTransitive(a.rows, b.rows, c.rows);
  }

  /** How a handoff ends: done, the message not known to be published, or published and the mark not
      known to be made. */
  datatype HandOffResult = HandedOver | EnqueueFailed | MarkFailed

  class Deployment {
    var st: State
    ghost var own: Tally

    constructor ()
      ensures st == INIT && Since(INIT) && own == Tally(0, 0, 0, 0)
    {
      st := INIT;
      own := Tally(0, 0, 0, 0);
      new;
      ReachesRefl(INIT);
    }

    /** The deployment has come here from the reachable state `s0` by protocol steps. */
    ghost predicate Since(s0: State)
      reads this
    {
      Reachable(s0) && Reaches(s0, st)
    }

    /** Handler `h` works on message `m` of key `k` and has got to phase `p`. */
    ghost predicate At(h: nat, m: nat, k: Key, p: Phase)
      reads this
    {
      && h in st.handlers && st.handlers[h].msg == m && m < |st.msgs| && KeyOf(st.msgs[m]) == k
      && st.handlers[h].phase == p && (!p.Received? ==> k in st.rows && k.trace in st.traces)
    }

    lemma Good(s0: State)
      requires Since(s0)
      ensures Inv(st)
    {
      ReachesTrans(INIT, s0, st);
      ReachableInv(st);
    }

    // ----- single statements; others may run before each of them -----

    /** Any steps of others, in any number and order; what this handler knows of its own task still
        holds afterwards. */
    method Interfere(ghost s0: State, h: nat, ghost m: nat, ghost k: Key, ghost p: Phase)
      requires Since(s0) && At(h, m, k, p)
      modifies this
      ensures Since(s0) && At(h, m, k, p) && Later(old(st), st) && own == old(own)
      ensures !p.Received? ==> AtRow(st, h) && PhaseOk(st, k, p)
    {
      var others: seq<Step> := *;
      for i := 0 to |others|
        invariant Since(s0) && At(h, m, k, p) && Later(old(st), st) && own == old(own)
      {
        if Enabled(st, others[i]) && !ActsFor(st, others[i], h) { Other(s0, h, m, k, p, others[i]); }
      }
      Good(s0);
      assert HandlerOk(st, st.handlers[h]);
    }

    /** One step of someone else. */
    method Other(ghost s0: State, h: nat, ghost m: nat, ghost k: Key, ghost p: Phase, a: Step)
      requires Since(s0) && At(h, m, k, p) && Enabled(st, a) && !ActsFor(st, a, h)
      modifies this
      ensures Since(s0) && At(h, m, k, p) && Later(old(st), st) && own == old(own)
      ensures forall s | Later(s, old(st)) :: Later(s, st)
    {
      Good(s0);
      OthersKeep(st, a, h);
      ReachesThen(s0, st, a);
      ghost var before := st;
      st := Apply(st, a);
      forall s | Later(s, before) ensures Later(s, st) { LaterTransitive(s, before, st); }
    }

    /** One step of this handler. */
    method Act(ghost s0: State, a: Step)
      requires Since(s0) && Enabled(st, a)
      modifies this
      ensures Since(s0) && st == Apply(old(st), a) && own == Count(old(own), a)
    {
      ReachesThen(s0, st, a);
      own := Count(own, a);
      st := Apply(st, a);
    }

    /** The call ends without an acknowledgement. */
    method GiveUp(ghost s0: State, h: nat, ghost m: nat, ghost k: Key, ghost p: Phase) returns (o: Outcome)
      requires Since(s0) && At(h, m, k, p)
      modifies this
      ensures Since(s0) && h !in st.handlers && o == GaveUp && own == old(own)
      ensures !p.Received? ==> k in st.rows
    {
      Act(s0, Quit(h));
      o := GaveUp;
    }

    method Acknowledge(ghost s0: State, h: nat, ghost m: nat, ghost k: Key, ghost p: Phase)
      requires Since(s0) && At(h, m, k, p) && AboutToAck(p)
      modifies this
      ensures Since(s0) && h !in st.handlers && m in st.acked && Later(old(st), st)
      ensures k in st.rows && (p.Done? ==> Settled(st, k))
      ensures own == old(own).(acks := old(own).acks + 1)
    {
      Interfere(s0, h, m, k, p);
      ghost var before := st;
      Act(s0, Ack(h));
      assert Settled(before, k) ==> Settled(st, k) by {
        if Published(before, k.trace) { PublishedGrows(before, st, k.trace); }
      }
    }

    /** `insert_task`; without the trace the statement fails. */
    method InsertTask(ghost s0: State, h: nat, ghost m: nat, ghost k: Key, maxAttempts: int) returns (ok: bool)
      requires Since(s0) && At(h, m, k, Received) && k.trace != "" && 0 < maxAttempts
      modifies this
      ensures Since(s0) && At(h, m, k, if ok then Inserted else Received) && own == old(own)
    {
      Interfere(s0, h, m, k, Received);
      ok := KeyAt(st, h).trace in st.traces;
      if ok { Act(s0, Insert(h, maxAttempts)); }
    }

    /** `claim_task`: the attempt won and the limit, or nothing. */
    method ClaimTask(ghost s0: State, h: nat, ghost m: nat, ghost k: Key) returns (c: Claim)
      requires Since(s0) && At(h, m, k, Inserted)
      modifies this
      ensures Since(s0) && own == old(own)
      ensures At(h, m, k, if c.Won? then Claimed(c.attempt, c.maxAttempts) else Unclaimed)
    {
      Interfere(s0, h, m, k, Inserted);
      var now: int := *;
      var lease: int := *;
      if Claimable(st.rows[KeyAt(st, h)], now) {
        Act(s0, ClaimWin(h, now, now + lease));
        var p := st.handlers[h].phase;
        c := Won(p.n, p.max);
      } else {
        Act(s0, ClaimMiss(h, now));
        c := NoRow;
      }
    }

    /** `get_task`, and what it means for a message whose claim found no row. */
    method LookUp(ghost s0: State, h: nat, ghost m: nat, ghost k: Key) returns (p: Phase)
      requires Since(s0) && At(h, m, k, Unclaimed)
      modifies this
      ensures Since(s0) && At(h, m, k, p) && own == old(own)
      ensures p.Unclaimed? || p.SawSucceeded? || p.Done?
    {
      Interfere(s0, h, m, k, Unclaimed);
      if Final(st.rows[KeyAt(st, h)].status) { Act(s0, LookupFinal(h)); }
      p := st.handlers[h].phase;
    }

    /** `trace_needs_enrichment_enqueue_recovery`. */
    method NeedsHandOff(ghost s0: State, h: nat, ghost m: nat, ghost k: Key) returns (needed: bool)
      requires Since(s0) && At(h, m, k, SawSucceeded)
      modifies this
      ensures Since(s0) && At(h, m, k, if needed then Recovering else Done) && own == old(own)
      ensures needed ==> k.stage.Core?
    {
      Interfere(s0, h, m, k, SawSucceeded);
      Act(s0, CheckRecovery(h));
      needed := st.handlers[h].phase.Recovering?;
    }

    /** Where publishing the enrichment message takes a handler. */
    static function Handing(p: Phase): Phase {
      if p.Committed? then Handed(p.n, p.max) else Recovered
    }

    /** Publishes the enrichment message; it may be sent and still be reported as an error. */
    method PublishHandOff(ghost s0: State, h: nat, ghost m: nat, ghost k: Key, ghost p: Phase)
      returns (ok: bool, sent: bool)
      requires Since(s0) && At(h, m, k, p) && k.stage.Core?
      requires p.Recovering? || (p.Committed? && p.required)
      modifies this
      ensures Since(s0) && At(h, m, k, if sent then Handing(p) else p) && own == old(own)
      ensures ok ==> sent
    {
      Interfere(s0, h, m, k, p);
      sent := *;
      if sent { Act(s0, PublishEnrichment(h)); }
      var reported: bool := *;
      ok := sent && reported;
    }

    /** Where an attempt to mark the handoff takes a handler. */
    static function Marking(p: Phase, ok: bool, done: bool): Phase {
      if ok then Done else if done && p.Handed? then Failing(p.n, p.max) else p
    }

    /** `mark_trace_enrichment_enqueued` and its commit, which may take effect and still be reported as
        an error. */
    method MarkHandedOff(ghost s0: State, h: nat, ghost m: nat, ghost k: Key, ghost p: Phase)
      returns (ok: bool, done: bool)
      requires Since(s0) && At(h, m, k, p) && (p.Handed? || p.Recovered?)
      modifies this
      ensures Since(s0) && At(h, m, k, Marking(p, ok, done)) && own == old(own)
      ensures Published(st, k.trace) && st.rows[k].status.Succeeded?
      ensures (ok ==> done) && (done ==> st.traces[k.trace].queued)
    {
      Interfere(s0, h, m, k, p);
      done := *;
      var reported: bool := *;
      ok := done && reported;
      if done {
        ghost var before := st;
        Act(s0, MarkEnqueued(h, reported));
        PublishedGrows(before, st, k.trace);
      }
    }

    /** `mark_trace_stage_processing`. */
    method StartWork(ghost s0: State, h: nat, ghost m: nat, ghost k: Key, n: nat, max: int) returns (ok: bool)
      requires Since(s0) && At(h, m, k, Claimed(n, max))
      modifies this
      ensures Since(s0) && At(h, m, k, if ok then Working(n, max) else Failing(n, max)) && own == old(own)
    {
      Interfere(s0, h, m, k, Claimed(n, max));
      ok := *;
      if ok { Act(s0, MarkProcessing(h)); } else { Act(s0, Raise(h)); }
    }

    /** An exception that reaches the failure path. */
    method Fail(ghost s0: State, h: nat, ghost m: nat, ghost k: Key, p: Phase)
      requires Since(s0) && At(h, m, k, p) && (p.Working? || p.Handed?)
      modifies this
      ensures Since(s0) && At(h, m, k, Failing(p.n, p.max)) && own == old(own)
    {
      Interfere(s0, h, m, k, p);
      Act(s0, Raise(h));
    }

    /** `mark_succeeded` and the commit of the results: refused without the lease. A commit may take
        effect and still be reported as an error. */
    method CommitResults(ghost s0: State, h: nat, ghost m: nat, ghost k: Key, n: nat, max: int, required: bool)
      returns (held: bool, reported: bool)
      requires Since(s0) && At(h, m, k, Working(n, max))
      modifies this
      ensures Since(s0)
      ensures !held ==> At(h, m, k, Working(n, max)) && own == old(own)
      ensures held ==> At(h, m, k, if reported then Committed(n, max, required) else Failing(n, max))
      ensures held ==> st.rows[k].status.Succeeded? && own == old(own).(commits := old(own).commits + 1)
    {
      Interfere(s0, h, m, k, Working(n, max));
      var now: int := *;
      held := HoldsLease(st.rows[KeyAt(st, h)], st.handlers[h].worker, now);
      reported := *;
      if held { Act(s0, Step.CommitResults(h, now, required, reported)); }
    }

    method SkipHandOff(ghost s0: State, h: nat, ghost m: nat, ghost k: Key, n: nat, max: int, required: bool)
      requires Since(s0) && At(h, m, k, Committed(n, max, required)) && !(required && k.stage.Core?)
      modifies this
      ensures Since(s0) && At(h, m, k, Done) && own == old(own) && st.rows[k].status.Succeeded?
    {
      Interfere(s0, h, m, k, Committed(n, max, required));
      Act(s0, SkipHandoff(h));
    }

    /** Publishes the dead letter; it may be sent and still be reported as an error. */
    method WriteDeadLetter(ghost s0: State, h: nat, ghost m: nat, ghost k: Key, n: nat, max: int)
      returns (ok: bool, sent: bool)
      requires Since(s0) && At(h, m, k, Failing(n, max)) && max <= n
      modifies this
      ensures Since(s0) && At(h, m, k, if sent then DeadLettered(n, max) else Failing(n, max)) && (ok ==> sent)
      ensures own == old(own).(deadLetters := old(own).deadLetters + One(sent))
    {
      Interfere(s0, h, m, k, Failing(n, max));
      sent := *;
      if sent { Act(s0, PublishDeadLetter(h)); }
      var reported: bool := *;
      ok := sent && reported;
    }

    /** `mark_failed_terminal`, `mark_trace_stage_failed` and their commit. */
    method MarkTerminal(ghost s0: State, h: nat, ghost m: nat, ghost k: Key, n: nat, max: int) returns (held: bool)
      requires Since(s0) && At(h, m, k, DeadLettered(n, max))
      modifies this
      ensures Since(s0) && At(h, m, k, if held then Done else DeadLettered(n, max)) && own == old(own)
      ensures held ==> st.rows[k].status.FailedTerminal?
    {
      Interfere(s0, h, m, k, DeadLettered(n, max));
      var now: int := *;
      held := HoldsLease(st.rows[KeyAt(st, h)], st.handlers[h].worker, now);
      if held { Act(s0, Step.MarkTerminal(h, now)); }
    }

    /** `mark_failed_retryable`, `mark_trace_stage_failed` and their commit. */
    method MarkRetryable(ghost s0: State, h: nat, ghost m: nat, ghost k: Key, n: nat, max: int) returns (held: bool)
      requires Since(s0) && At(h, m, k, Failing(n, max)) && n < max
      modifies this
      ensures Since(s0) && At(h, m, k, if held then RetryMarked(n, max) else Failing(n, max)) && own == old(own)
    {
      Interfere(s0, h, m, k, Failing(n, max));
      var now: int := *;
      held := HoldsLease(st.rows[KeyAt(st, h)], st.handlers[h].worker, now);
      if held { Act(s0, Step.MarkRetryable(h, now)); }
    }

    /** `requeue_retryable_stage_message`; it may send and still report an error. */
    method RequeueNext(ghost s0: State, h: nat, ghost m: nat, ghost k: Key, n: nat, max: int)
      returns (ok: bool, sent: bool)
      requires Since(s0) && At(h, m, k, RetryMarked(n, max))
      modifies this
      ensures Since(s0) && At(h, m, k, if sent then Requeued else RetryMarked(n, max)) && (ok ==> sent)
      ensures own == old(own).(requeues := old(own).requeues + One(sent))
      ensures sent ==> RequeuedAs(st, k, n + 1)
    {
      Interfere(s0, h, m, k, RetryMarked(n, max));
      sent := *;
      var reported: bool := *;
      ok := sent && reported;
      if sent {
        ghost var last := |st.msgs|;
        Act(s0, Requeue(h));
        assert IsRequeue(st, k, last) && st.msgs[last].attempt == n + 1;
      }
    }

    // ----- the handler -----

    /** `maybe_enqueue_enrichment_after_core_commit`, entered with a handoff to make. */
    method HandOff(ghost s0: State, h: nat, ghost m: nat, ghost k: Key, p: Phase) returns (r: HandOffResult, q: Phase)
      requires Since(s0) && At(h, m, k, p) && k.stage.Core?
      requires p.Recovering? || (p.Committed? && p.required)
      modifies this
      ensures Since(s0) && At(h, m, k, q) && own == old(own)
      ensures r.HandedOver? ==>
        q.Done? && st.rows[k].status.Succeeded? && Published(st, k.trace) && st.traces[k.trace].queued
      ensures r.EnqueueFailed? ==> q == p || q == Handing(p)
      ensures r.MarkFailed? ==> Published(st, k.trace)
      ensures r.MarkFailed? ==> q == Handing(p) || (p.Committed? && q == Failing(p.n, p.max))
    {
      var ok, sent := PublishHandOff(s0, h, m, k, p);
      if !ok { return EnqueueFailed, if sent then Handing(p) else p; }
      var marked, done := MarkHandedOff(s0, h, m, k, Handing(p));
      q := Marking(Handing(p), marked, done);
      r := if marked then HandedOver else MarkFailed;
    }

    /** The claim returned no row: find out whether the message is a duplicate. */
    method HandleUnclaimed(ghost s0: State, h: nat, ghost m: nat, ghost k: Key) returns (o: Outcome)
      requires Since(s0) && At(h, m, k, Unclaimed)
      modifies this
      ensures Since(s0) && h !in st.handlers && k in st.rows
      ensures o.DuplicateAcked? || o.RecoveredEnqueue? || o.GaveUp?
      ensures !o.GaveUp? ==> m in st.acked && Settled(st, k)
      ensures own == old(own).(acks := own.acks) && AcksUnlessGivingUp(old(own), own, o)
    {
      var p := LookUp(s0, h, m, k);
      if p.Unclaimed? {
        o := GiveUp(s0, h, m, k, p);
        return;
      }
      if p.SawSucceeded? {
        var needed := NeedsHandOff(s0, h, m, k);
        if needed {
          var r, q := HandOff(s0, h, m, k, Recovering);
          if r.HandedOver? {
            Acknowledge(s0, h, m, k, Done);
            o := RecoveredEnqueue;
          } else {
            o := GiveUp(s0, h, m, k, q);
          }
          return;
        }
      }
      Acknowledge(s0, h, m, k, Done);
      o := DuplicateAcked;
    }

    /** The `except Exception` branch: dead-letter on the last attempt, else requeue. */
    method HandleFailure(ghost s0: State, h: nat, ghost m: nat, ghost k: Key, n: nat, max: int) returns (o: Outcome)
      requires Since(s0) && At(h, m, k, Failing(n, max))
      modifies this
      ensures Since(s0) && h !in st.handlers && k in st.rows
      ensures o.FailedForGood? || o.RetryRequeued? || o.GaveUp?
      ensures o.FailedForGood? ==> m in st.acked && st.rows[k].status.FailedTerminal?
      ensures o.RetryRequeued? ==> m in st.acked && RequeuedAs(st, k, n + 1)
      ensures own.commits == old(own).commits
      ensures AcksUnlessGivingUp(old(own), own, o) && FailsOnce(old(own), own, n, max, o)
    {
      if max <= n {
        o := DeadLetterAndMark(s0, h, m, k, n, max);
      } else {
        o := MarkAndRequeue(s0, h, m, k, n, max);
      }
    }

    method DeadLetterAndMark(ghost s0: State, h: nat, ghost m: nat, ghost k: Key, n: nat, max: int) returns (o: Outcome)
      requires Since(s0) && At(h, m, k, Failing(n, max)) && max <= n
      modifies this
      ensures Since(s0) && h !in st.handlers && k in st.rows
      ensures o.FailedForGood? || o.GaveUp?
      ensures o.FailedForGood? ==> m in st.acked && st.rows[k].status.FailedTerminal?
      ensures own.commits == old(own).commits
      ensures AcksUnlessGivingUp(old(own), own, o) && FailsOnce(old(own), own, n, max, o)
    {
      var ok, sent := WriteDeadLetter(s0, h, m, k, n, max);
      if !ok {
        o := GiveUp(s0, h, m, k, if sent then DeadLettered(n, max) else Failing(n, max));
        return;
      }
      var held := MarkTerminal(s0, h, m, k, n, max);
      if !held {
        o := GiveUp(s0, h, m, k, DeadLettered(n, max));
        return;
      }
      Acknowledge(s0, h, m, k, Done);
      o := FailedForGood;
    }

    method MarkAndRequeue(ghost s0: State, h: nat, ghost m: nat, ghost k: Key, n: nat, max: int) returns (o: Outcome)
      requires Since(s0) && At(h, m, k, Failing(n, max)) && n < max
      modifies this
      ensures Since(s0) && h !in st.handlers && k in st.rows
      ensures o.RetryRequeued? || o.GaveUp?
      ensures o.RetryRequeued? ==> m in st.acked && RequeuedAs(st, k, n + 1)
      ensures own.commits == old(own).commits
      ensures AcksUnlessGivingUp(old(own), own, o) && FailsOnce(old(own), own, n, max, o)
    {
      var held := MarkRetryable(s0, h, m, k, n, max);
      if !held {
        o := GiveUp(s0, h, m, k, Failing(n, max));
        return;
      }
      var ok, sent := RequeueNext(s0, h, m, k, n, max);
      if !ok {
        o := GiveUp(s0, h, m, k, if sent then Requeued else RetryMarked(n, max));
        return;
      }
      ghost var before := st;
      Acknowledge(s0, h, m, k, Requeued);
      RequeuedStays(before, st, k, n + 1);
      o := RetryRequeued;
    }

    lemma RequeuedStays(s: State, s': State, k: Key, n: nat)
      requires RequeuedAs(s, k, n) && s.msgs <= s'.msgs
      ensures RequeuedAs(s', k, n)
    {
      var m: nat :| IsRequeue(s, k, m) && s.msgs[m].attempt == n;
      assert IsRequeue(s', k, m);
    }

    /** The `try` block, entered with attempt `n` of `max` just claimed. */
    method Work(ghost s0: State, h: nat, ghost m: nat, ghost k: Key, n: nat, max: int) returns (o: Outcome)
      requires Since(s0) && At(h, m, k, Claimed(n, max))
      modifies this
      ensures Since(s0) && h !in st.handlers && k in st.rows
      ensures o.Processed? || o.FailedForGood? || o.RetryRequeued? || o.GaveUp?
      ensures o.Processed? ==> m in st.acked && Settled(st, k) && st.rows[k].status.Succeeded?
      ensures o.FailedForGood? ==> m in st.acked && st.rows[k].status.FailedTerminal?
      ensures o.RetryRequeued? ==> m in st.acked && RequeuedAs(st, k, n + 1)
      ensures AcksUnlessGivingUp(old(own), own, o) && CommitsOnce(old(own), own, o)
      ensures FailsOnce(old(own), own, n, max, o)
    {
      var ok := StartWork(s0, h, m, k, n, max);
      if ok {
        var processFails: bool := *;
        if !processFails {
          o := CommitAndHandOff(s0, h, m, k, n, max);
          return;
        }
        Fail(s0, h, m, k, Working(n, max));
      }
      o := HandleFailure(s0, h, m, k, n, max);
    }

    /** From the finished analysis on: without the lease nothing is committed and the call gives up. */
    method CommitAndHandOff(ghost s0: State, h: nat, ghost m: nat, ghost k: Key, n: nat, max: int) returns (o: Outcome)
      requires Since(s0) && At(h, m, k, Working(n, max))
      modifies this
      ensures Since(s0) && h !in st.handlers && k in st.rows
      ensures o.Processed? || o.FailedForGood? || o.RetryRequeued? || o.GaveUp?
      ensures o.Processed? ==> m in st.acked && Settled(st, k) && st.rows[k].status.Succeeded?
      ensures o.FailedForGood? ==> m in st.acked && st.rows[k].status.FailedTerminal?
      ensures o.RetryRequeued? ==> m in st.acked && RequeuedAs(st, k, n + 1)
      ensures AcksUnlessGivingUp(old(own), own, o) && CommitsOnce(old(own), own, o)
      ensures FailsOnce(old(own), own, n, max, o)
      ensures own.commits == old(own).commits ==> o.GaveUp? && own == old(own)
    {
      var required: bool := *;
      var held, reported := CommitResults(s0, h, m, k, n, max, required);
      if !held {
        o := GiveUp(s0, h, m, k, Working(n, max));
      } else if !reported {
        o := HandleFailure(s0, h, m, k, n, max);
      } else {
        o := AfterCommit(s0, h, m, k, n, max, required);
      }
    }

    method AfterCommit(ghost s0: State, h: nat, ghost m: nat, ghost k: Key, n: nat, max: int, required: bool)
      returns (o: Outcome)
      requires Since(s0) && At(h, m, k, Committed(n, max, required))
      modifies this
      ensures Since(s0) && h !in st.handlers && k in st.rows
      ensures o.Processed? || o.FailedForGood? || o.RetryRequeued? || o.GaveUp?
      ensures o.Processed? ==> m in st.acked && Settled(st, k) && st.rows[k].status.Succeeded?
      ensures o.FailedForGood? ==> m in st.acked && st.rows[k].status.FailedTerminal?
      ensures o.RetryRequeued? ==> m in st.acked && RequeuedAs(st, k, n + 1)
      ensures own.commits == old(own).commits
      ensures AcksUnlessGivingUp(old(own), own, o) && FailsOnce(old(own), own, n, max, o)
    {
      if !(required && KeyAt(st, h).stage.Core?) {
        SkipHandOff(s0, h, m, k, n, max, required);
        Acknowledge(s0, h, m, k, Done);
        o := Processed;
        return;
      }
      var r, q := HandOff(s0, h, m, k, Committed(n, max, required));
      match r
      case HandedOver =>
        Acknowledge(s0, h, m, k, Done);
        o := Processed;
      case EnqueueFailed =>
        o := GiveUp(s0, h, m, k, q);
      case MarkFailed =>
        if q.Handed? { Fail(s0, h, m, k, q); }
        o := HandleFailure(s0, h, m, k, n, max);
    }

    method DropBlank(ghost s0: State, h: nat, ghost m: nat, ghost k: Key) returns (o: Outcome)
      requires Since(s0) && At(h, m, k, Received) && k.trace == ""
      modifies this
      ensures Since(s0) && h !in st.handlers && m in st.acked && o == InvalidAcked
      ensures own == old(own).(acks := old(own).acks + 1)
    {
      Interfere(s0, h, m, k, Received);
      Act(s0, DropBlankTrace(h));
      o := InvalidAcked;
    }

    /** `_process_stream_message` for a message that handler `h` has just received. */
    method ProcessStreamMessage(h: nat, ghost m: nat, ghost k: Key, maxAttempts: int) returns (o: Outcome)
      requires Reachable(st) && At(h, m, k, Received) && 0 < maxAttempts
      modifies this
      ensures Reaches(old(st), st) && h !in st.handlers
      ensures o.InvalidAcked? ==> k.trace == "" && m in st.acked
      ensures !o.InvalidAcked? && !o.GaveUp? ==> m in st.acked && k in st.rows
      ensures o.DuplicateAcked? || o.RecoveredEnqueue? ==> Settled(st, k)
      ensures o.Processed? ==> Settled(st, k) && st.rows[k].status.Succeeded?
      ensures o.FailedForGood? ==> st.rows[k].status.FailedTerminal?
      ensures o.RetryRequeued? ==> exists n :: RequeuedAs(st, k, n)
      ensures AcksUnlessGivingUp(old(own), own, o) && CommitsOnce(old(own), own, o)
      ensures o.FailedForGood? ==> own.deadLetters == old(own).deadLetters + 1
      ensures o.RetryRequeued? ==> own.requeues == old(own).requeues + 1
    {
      ghost var s0 := st;
      ReachesRefl(s0);
      if KeyAt(st, h).trace == "" {
        o := DropBlank(s0, h, m, k);
        return;
      }
      var ok := InsertTask(s0, h, m, k, maxAttempts);
      if !ok {
        o := GiveUp(s0, h, m, k, Received);
        return;
      }
      var c := ClaimTask(s0, h, m, k);
      if c.Won? {
        o := Work(s0, h, m, k, c.attempt, c.maxAttempts);
      } else {
        o := HandleUnclaimed(s0, h, m, k);
      }
    }
  }
}
