/** Runs with a clock. The protocol itself lets every statement read any time, which is right for
    what can never happen. What can happen is shown on runs whose clock goes forward. */
module ProtocolClock {
  import opened TaskStore
  import opened Protocol
  import opened ProtocolInvariant

  /** The steps whose statements compare a lease with `now()`. */
  predicate Reads(a: Step) {
    a.ClaimWin? || a.ClaimMiss? || a.CommitResults? || a.MarkTerminal? || a.MarkRetryable?
  }

  // ----- every reading is at least `from` -----

  ghost predicate StepFrom(s: State, from: int, s': State) {
    exists a :: Enabled(s, a) && s' == Apply(s, a) && (Reads(a) ==> from <= a.now)
  }

  ghost predicate StepFromAt(run: seq<State>, from: int, i: nat)
    requires 0 < i < |run|
  {
    StepFrom(run[i - 1], from, run[i])
  }

  ghost predicate IsRunFrom(run: seq<State>, from: int) {
    run != [] && forall i | 0 < i < |run| :: StepFromAt(run, from, i)
  }

  /** Some run leads from `s` to `s'` with all readings at `from` or later, in any order. `now()` is
      the start of a transaction, so `from` bounds the transactions that are open as well. */
  ghost predicate ReachesFrom(s: State, from: int, s': State) {
    exists run :: IsRunFrom(run, from) && run[0] == s && run[|run| - 1] == s'
  }

  lemma FromReaches(s: State, from: int, s': State)
    requires ReachesFrom(s, from, s')
    ensures Reaches(s, s')
  {
    var run :| IsRunFrom(run, from) && run[0] == s && run[|run| - 1] == s';
    forall i | 0 < i < |run| ensures StepAt(run, i) {
      assert StepFromAt(run, from, i);
    }
    assert IsRun(run);
  }

  // ----- and the clock goes forward -----

  /** A state and the time of the last reading. */
  datatype Moment = Moment(s: State, t: int)

  /** Step `a` takes one moment to the next: what it reads is the time, and no lease ends before it
      begins. */
  ghost predicate Ticks(m: Moment, a: Step, m': Moment) {
    && Enabled(m.s, a) && m'.s == Apply(m.s, a) && m.t <= m'.t
    && (Reads(a) ==> a.now == m'.t) && (a.ClaimWin? ==> a.now <= a.until)
  }

  ghost predicate Tick(m: Moment, m': Moment) {
    exists a :: Ticks(m, a, m')
  }

  ghost predicate TickAt(run: seq<Moment>, i: nat)
    requires 0 < i < |run|
  {
    Tick(run[i - 1], run[i])
  }

  ghost predicate IsClocked(run: seq<Moment>) {
    run != [] && forall i | 0 < i < |run| :: TickAt(run, i)
  }

  /** Some run under a forward clock leads from `m` to `m'`. */
  ghost predicate Elapses(m: Moment, m': Moment) {
    exists run :: IsClocked(run) && run[0] == m && run[|run| - 1] == m'
  }

  lemma ElapsesRefl(m: Moment)
    ensures Elapses(m, m)
  {
    assert IsClocked([m]);
  }

  lemma ElapsesStep(m: Moment, a: Step, m': Moment)
    requires Ticks(m, a, m')
    ensures Elapses(m, m')
  {
    var run := [m, m'];
    assert Tick(m, m');
    assert TickAt(run, 1);
    assert IsClocked(run);
  }

  lemma ElapsesTrans(a: Moment, b: Moment, c: Moment)
    requires Elapses(a, b) && Elapses(b, c)
    ensures Elapses(a, c)
  {
    var xs :| IsClocked(xs) && xs[0] == a && xs[|xs| - 1] == b;
    var ys :| IsClocked(ys) && ys[0] == b && ys[|ys| - 1] == c;
    var zs := xs + ys[1..];
    forall i | 0 < i < |zs| ensures TickAt(zs, i) {
      if i < |xs| {
        assert zs[i - 1] == xs[i - 1] && zs[i] == xs[i] && TickAt(xs, i);
      } else {
        var j := i - |xs| + 1;
        assert zs[i - 1] == ys[j - 1] && zs[i] == ys[j] && TickAt(ys, j);
      }
    }
    assert IsClocked(zs);
  }

  lemma {:induction false} ClockGoesForward(run: seq<Moment>, i: nat)
    requires IsClocked(run) && i < |run|
    ensures run[0].t <= run[i].t
    decreases i
  {
    if i > 0 {
      ClockGoesForward(run, i - 1);
      assert TickAt(run, i);
    }
  }

  lemma TickIsStepFrom(m: Moment, m': Moment, from: int)
    requires Tick(m, m') && from <= m'.t
    ensures StepFrom(m.s, from, m'.s)
  {
    var a :| Ticks(m, a, m');
  }

  /** A forward clock reads no time before its start. */
  lemma ElapsesFrom(m: Moment, m': Moment)
    requires Elapses(m, m')
    ensures ReachesFrom(m.s, m.t, m'.s) && m.t <= m'.t
  {
    var run: seq<Moment> :| IsClocked(run) && run[0] == m && run[|run| - 1] == m';
    ClockGoesForward(run, |run| - 1);
    var states := seq<State>(|run|, i requires 0 <= i < |run| => run[i].s);
    forall i | 0 < i < |states| ensures StepFromAt(states, m.t, i) {
      ClockGoesForward(run, i);
      assert TickAt(run, i);
      TickIsStepFrom(run[i - 1], run[i], m.t);
    }
    assert IsRunFrom(states, m.t);
  }
}
