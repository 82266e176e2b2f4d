/** Concrete runs: why one worker id must not hold two live claims on one task, and a dead letter
    for a task that succeeded. */
module ProtocolExamples {
  import opened TaskStore
  import opened Protocol
  import opened ProtocolInvariant
  import opened ProtocolResults
  import opened ProtocolClock
  import opened ProtocolEndings

  const K := Key("t", Core)

  /** One trace, one core message, handlers that all run under the worker id `w`. Two processes with
      the same configured worker id are enough for that; so is one process whose batch holds two
      entries of a task, the second held back by its backoff until the first lease has lapsed. */
  function Scene(rows: map<Key, Row>, handlers: map<nat, Handler>): State {
    State([Msg("t", Core, true, 1, false)], {0}, {}, rows, map["t" := NEW_TRACE], handlers, [], multiset{})
  }

  function Leased(attempts: nat, until: int): map<Key, Row> {
    map[K := Row(TaskStore.Leased, attempts, 2, "w", At(until))]
  }

  /** The message is published and delivered to the first handler. */
  lemma FirstDelivery()
    ensures Reachable(Scene(map[], map[1 := Handler("w", 0, Received)]))
  {
    var s1 := INIT.(traces := map["t" := NEW_TRACE]);
    var s2 := s1.(msgs := [Msg("t", Core, true, 1, false)]);
    ReachesRefl(INIT);
    assert Apply(INIT, CaptureTrace("t")) == s1;
    Extend(INIT, INIT, CaptureTrace("t"), s1);
    assert Apply(s1, GatewayPublish("t", true)) == s2;
    Extend(INIT, s1, GatewayPublish("t", true), s2);
    assert Apply(s2, Deliver(1, "w", 0)) == Scene(map[], map[1 := Handler("w", 0, Received)]);
    Extend(INIT, s2, Deliver(1, "w", 0), Scene(map[], map[1 := Handler("w", 0, Received)]));
  }

  lemma FirstInsert(limit: int)
    requires 0 < limit
    ensures Reachable(Scene(map[K := FreshRow(limit)], map[1 := Handler("w", 0, Inserted)]))
  {
    FirstDelivery();
    var s3 := Scene(map[], map[1 := Handler("w", 0, Received)]);
    var s4 := Scene(map[K := FreshRow(limit)], map[1 := Handler("w", 0, Inserted)]);
    assert Apply(s3, Insert(1, limit)) == s4;
    Extend(INIT, s3, Insert(1, limit), s4);
  }

  /** The first handler claims attempt 1 of 2 with a lease until 10, and then fails. */
  lemma FirstClaimFails()
    ensures Reachable(Scene(Leased(1, 10), map[1 := Handler("w", 0, Failing(1, 2))]))
  {
    FirstInsert(2);
    var s4 := Scene(map[K := FreshRow(2)], map[1 := Handler("w", 0, Inserted)]);
    var s5 := Scene(Leased(1, 10), map[1 := Handler("w", 0, Claimed(1, 2))]);
    var s6 := Scene(Leased(1, 10), map[1 := Handler("w", 0, Failing(1, 2))]);
    assert Apply(s4, ClaimWin(1, 0, 10)) == s5;
    Extend(INIT, s4, ClaimWin(1, 0, 10), s5);
    assert Apply(s5, Raise(1)) == s6;
    Extend(INIT, s5, Raise(1), s6);
  }

  lemma SecondDelivery()
    ensures Reachable(Scene(Leased(1, 10), map[1 := Handler("w", 0, Failing(1, 2)), 2 := Handler("w", 0, Inserted)]))
  {
    FirstClaimFails();
    var h1 := Handler("w", 0, Failing(1, 2));
    var s6 := Scene(Leased(1, 10), map[1 := h1]);
    var s7 := Scene(Leased(1, 10), map[1 := h1, 2 := Handler("w", 0, Received)]);
    var s8 := Scene(Leased(1, 10), map[1 := h1, 2 := Handler("w", 0, Inserted)]);
    assert Apply(s6, Deliver(2, "w", 0)) == s7;
    Extend(INIT, s6, Deliver(2, "w", 0), s7);
    assert Apply(s7, Insert(2, 2)) == s8;
    Extend(INIT, s7, Insert(2, 2), s8);
  }

  /** At time 11 that lease has lapsed: the message is delivered again and a second handler under
      the same worker id claims attempt 2 of 2. */
  lemma SecondClaim()
    ensures Reachable(Scene(Leased(2, 21),
                            map[1 := Handler("w", 0, Failing(1, 2)), 2 := Handler("w", 0, Claimed(2, 2))]))
  {
    SecondDelivery();
    var h1 := Handler("w", 0, Failing(1, 2));
    var s8 := Scene(Leased(1, 10), map[1 := h1, 2 := Handler("w", 0, Inserted)]);
    var s9 := Scene(Leased(2, 21), map[1 := h1, 2 := Handler("w", 0, Claimed(2, 2))]);
    assert Apply(s8, ClaimWin(2, 11, 21)) == s9;
    Extend(INIT, s8, ClaimWin(2, 11, 21), s9);
  }

  /** The first handler then marks its failure. The guard compares worker ids only, so the
      stale handler ends the live lease and leaves an unfinished task that can never be
      claimed again. */
  lemma SharedWorkerIdStrandsTask()
    ensures exists s :: Reachable(s) && K in s.rows && s.rows[K].status.FailedRetryable? && Stranded(s.rows[K])
  {
    SecondClaim();
    var s := Scene(Leased(2, 21), map[1 := Handler("w", 0, Failing(1, 2)), 2 := Handler("w", 0, Claimed(2, 2))]);
    var s' := Apply(s, MarkRetryable(1, 12));
    Extend(INIT, s, MarkRetryable(1, 12), s');
    assert s'.rows[K] == Row(FailedRetryable, 2, 2, "", NoExpiry);
  }

  /** A task with a single attempt can end with both: its commit takes effect but is reported as an
      error, so the handler writes a dead letter for a task that has succeeded. */
  lemma DeadLetterForSucceededTask()
    ensures exists s :: Reachable(s) && K in s.rows && s.rows[K].status.Succeeded? && DeadLetterFor(s, K)
  {
    FirstInsert(1);
    var s := Scene(map[K := FreshRow(1)], map[1 := Handler("w", 0, Inserted)]);
    var x := Moment(s, 0);
    var y := SucceedsWithDeadLetter(x, K, 0, "w", 10);
    ReachableLater(x, y);
  }
}
