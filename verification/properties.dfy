/**
  What a run of the testbench promises, read off its log: the trace's
  timestamps, the port values at each evaluation, the teardown order, and
  when the loop ends for each way the DUT may request finish.
 */
module Properties {
  import opened Harness
  import opened Schedule

  /** The timestamps of the dumped trace records, in dump order. */
  function Timestamps(log: seq<Event>): seq<nat> {
    if log == [] then []
    else (if log[0].Dump? then [log[0].time] else []) + Timestamps(log[1..])
  }

  /** The port values at each evaluation, in evaluation order. */
  function Evaluations(log: seq<Event>): seq<Inputs> {
    if log == [] then []
    else (if log[0].Eval? then [log[0].inputs] else []) + Evaluations(log[1..])
  }

  /** The timestamps 0, 1, ..., n-1. */
  function Iota(n: nat): (r: seq<nat>)
    ensures |r| == n
    ensures forall i | 0 <= i < n :: r[i] == i
  {
    if n == 0 then [] else Iota(n - 1) + [n - 1]
  }

  /** The inputs of the evaluations of the first `n` iterations. */
  function InputsUpTo(cfg: Config, n: nat): (r: seq<Inputs>)
    ensures |r| == n
    ensures forall t | 0 <= t < n :: r[t] == InputsAt(cfg, t)
  {
    if n == 0 then [] else InputsUpTo(cfg, n - 1) + [InputsAt(cfg, n - 1)]
  }

  lemma {:induction false} TimestampsAppend(a: seq<Event>, b: seq<Event>)
    ensures Timestamps(a + b) == Timestamps(a) + Timestamps(b)
  {
    if a == [] {
      assert a + b == b;
    } else {
      assert (a + b)[0] == a[0];
      assert (a + b)[1..] == a[1..] + b;
      TimestampsAppend(a[1..], b);
    }
  }

  lemma {:induction false} EvaluationsAppend(a: seq<Event>, b: seq<Event>)
    ensures Evaluations(a + b) == Evaluations(a) + Evaluations(b)
  {
    if a == [] {
      assert a + b == b;
    } else {
      assert (a + b)[0] == a[0];
      assert (a + b)[1..] == a[1..] + b;
      EvaluationsAppend(a[1..], b);
    }
  }

  /** The two records of one iteration: one evaluation, then one dump. */
  lemma PairRecords(cfg: Config, t: nat)
    ensures Timestamps([Eval(InputsAt(cfg, t)), Dump(t)]) == [t]
    ensures Evaluations([Eval(InputsAt(cfg, t)), Dump(t)]) == [InputsAt(cfg, t)]
  {
    var pair := [Eval(InputsAt(cfg, t)), Dump(t)];
    var last := [Dump(t)];
    assert pair[0].Eval? && pair[1..] == last;
    assert last[0].Dump? && last[1..] == [];
    assert Timestamps(last) == [t];
    assert Timestamps(pair) == Timestamps(last);
    assert Evaluations(last) == [];
    assert Evaluations(pair) == [InputsAt(cfg, t)] + Evaluations(last);
  }

  /** Iteration by iteration, the dumps are stamped 0, 1, ..., n-1. */
  lemma {:induction false} TickTimestamps(cfg: Config, n: nat)
    ensures Timestamps(TickEvents(cfg, n)) == Iota(n)
  {
    if n > 0 {
      var pair := [Eval(InputsAt(cfg, n - 1)), Dump(n - 1)];
      assert TickEvents(cfg, n) == TickEvents(cfg, n - 1) + pair;
      TickTimestamps(cfg, n - 1);
      TimestampsAppend(TickEvents(cfg, n - 1), pair);
      PairRecords(cfg, n - 1);
    }
  }

  /** Iteration by iteration, the evaluations see the closed-form inputs. */
  lemma {:induction false} TickEvaluations(cfg: Config, n: nat)
    ensures Evaluations(TickEvents(cfg, n)) == InputsUpTo(cfg, n)
  {
    if n > 0 {
      var pair := [Eval(InputsAt(cfg, n - 1)), Dump(n - 1)];
      assert TickEvents(cfg, n) == TickEvents(cfg, n - 1) + pair;
      assert InputsUpTo(cfg, n) == InputsUpTo(cfg, n - 1) + [InputsAt(cfg, n - 1)];
      TickEvaluations(cfg, n - 1);
      EvaluationsAppend(TickEvents(cfg, n - 1), pair);
      PairRecords(cfg, n - 1);
    }
  }

  /** The trace and the evaluations of the closed-form log of `n` iterations. */
  lemma ExpectedRecords(cfg: Config, n: nat)
    ensures Timestamps(ExpectedLog(cfg, n)) == Iota(n)
    ensures Evaluations(ExpectedLog(cfg, n)) == [Inputs(false, false)] + InputsUpTo(cfg, n)
  {
    var first := [Eval(Inputs(false, false))];
    var teardown := [Final, Close];
    assert ExpectedLog(cfg, n) == first + TickEvents(cfg, n) + teardown;
    assert first[1..] == [] && teardown[1..] == [Close] && [Close][1..] == [];
    assert Timestamps(first) == [] && Timestamps(teardown) == [];
    assert Evaluations(first) == [Inputs(false, false)] && Evaluations(teardown) == [];
    TickTimestamps(cfg, n);
    TickEvaluations(cfg, n);
    TimestampsAppend(first, TickEvents(cfg, n));
    TimestampsAppend(first + TickEvents(cfg, n), teardown);
    EvaluationsAppend(first, TickEvents(cfg, n));
    EvaluationsAppend(first + TickEvents(cfg, n), teardown);
  }

  /**
    One trace record per iteration, stamped with the pre-increment time: the
    timestamps are exactly 0, 1, ..., main_time-1 — strictly increasing, no
    gaps — and there are as many as the final main_time.
   */
  lemma TraceTimestamps(cfg: Config, f: FinishOracle)
    ensures var r := Run(cfg, f); var ts := Timestamps(r.log);
      && |ts| == r.time
      && (forall i | 0 <= i < r.time :: ts[i] == i)
      && (forall i, j | 0 <= i < j < r.time :: ts[i] < ts[j])
  {
    RunMatchesSchedule(cfg, f);
    ExpectedRecords(cfg, Run(cfg, f).time);
  }

  /**
    The evaluations are the initial one with both ports low, then one per
    iteration: there is one more evaluation than the final main_time, and
    the evaluation of the iteration stamped `t` sees the clock high iff `t`
    is even and reset released iff `t` is past the hold.
   */
  lemma EvaluationInputs(cfg: Config, f: FinishOracle)
    ensures var r := Run(cfg, f); var evs := Evaluations(r.log);
      && |evs| == r.time + 1 == r.evals
      && evs[0] == Inputs(false, false)
      && forall t | 0 <= t < r.time ::
        && evs[t + 1] == InputsAt(cfg, t)
        && (evs[t + 1].clk <==> t % 2 == 0)
        && (evs[t + 1].rstN <==> t > cfg.resetHold)
  {
    var r := Run(cfg, f);
    RunMatchesSchedule(cfg, f);
    ExpectedRecords(cfg, r.time);
    var evs := Evaluations(r.log);
    forall t | 0 <= t < r.time
      ensures evs[t + 1] == InputsAt(cfg, t)
    {
      assert evs[t + 1] == InputsUpTo(cfg, r.time)[t];
    }
  }

  /**
    The clock is toggled exactly once between consecutive evaluations, so at
    evaluation index k (index 0 is the initial evaluation, evaluation number
    1) it is high iff k is odd.
   */
  lemma ClockToggles(cfg: Config, f: FinishOracle)
    ensures var evs := Evaluations(Run(cfg, f).log);
      && (forall k | 0 <= k < |evs| :: evs[k].clk <==> k % 2 == 1)
      && (forall k | 0 < k < |evs| :: evs[k].clk != evs[k - 1].clk)
  {
    EvaluationInputs(cfg, f);
    var evs := Evaluations(Run(cfg, f).log);
    forall k | 0 < k < |evs|
      ensures evs[k].clk <==> k % 2 == 1
    {
      var t := k - 1;
      assert evs[t + 1].clk <==> t % 2 == 0;
    }
  }

  /**
    Reset is held low through the evaluation of the iteration stamped with
    the hold, released from the next one on, and never re-asserted once
    released: at evaluation index k (index 0 is the initial evaluation) it
    is released iff k exceeds hold + 1.
   */
  lemma ResetReleasedOnce(cfg: Config, f: FinishOracle)
    ensures var evs := Evaluations(Run(cfg, f).log);
      && (forall k | 0 <= k < |evs| :: evs[k].rstN <==> k > cfg.resetHold + 1)
      && (forall j, k | 0 <= j <= k < |evs| :: evs[j].rstN ==> evs[k].rstN)
  {
    EvaluationInputs(cfg, f);
    var evs := Evaluations(Run(cfg, f).log);
    forall k | 0 < k < |evs|
      ensures evs[k].rstN <==> k > cfg.resetHold + 1
    {
      var t := k - 1;
      assert evs[t + 1] == InputsAt(cfg, t);
    }
  }

  /**
    Each dump directly follows the evaluation of its iteration, and the log
    is nothing but these pairs between the initial evaluation and teardown.
   */
  lemma DumpFollowsEvaluation(cfg: Config, f: FinishOracle)
    ensures var r := Run(cfg, f);
      && |r.log| == 2 * r.time + 3
      && forall t | 0 <= t < r.time ::
        r.log[2 * t + 1] == Eval(InputsAt(cfg, t)) && r.log[2 * t + 2] == Dump(t)
  {
    var r := Run(cfg, f);
    RunMatchesSchedule(cfg, f);
    var ticks := TickEvents(cfg, r.time);
    assert r.log == [Eval(Inputs(false, false))] + ticks + [Final, Close];
    forall t | 0 <= t < r.time
      ensures r.log[2 * t + 1] == Eval(InputsAt(cfg, t)) && r.log[2 * t + 2] == Dump(t)
    {
      assert r.log[2 * t + 1] == ticks[2 * t];
      assert r.log[2 * t + 2] == ticks[2 * t + 1];
    }
  }

  /**
    Teardown happens once, after everything else: final() is called exactly
    once and close() exactly once, final just before close, close last, and
    every earlier action is an evaluation or a dump.
   */
  lemma TeardownLast(cfg: Config, f: FinishOracle)
    ensures var log := Run(cfg, f).log;
      && (forall i | 0 <= i < |log| ::
        && (log[i] == Final <==> i == |log| - 2)
        && (log[i] == Close <==> i == |log| - 1))
      && (forall i | 0 <= i < |log| - 2 :: log[i].Eval? || log[i].Dump?)
  {
    var r := Run(cfg, f);
    RunMatchesSchedule(cfg, f);
    var n := r.time;
    var ticks := TickEvents(cfg, n);
    assert r.log == [Eval(Inputs(false, false))] + ticks + [Final, Close];
    forall i | 0 <= i < |r.log| - 2
      ensures r.log[i].Eval? || r.log[i].Dump?
    {
      if i > 0 {
        var t := (i - 1) / 2;
        assert r.log[i] == ticks[i - 1];
        if i - 1 == 2 * t {
          assert ticks[2 * t] == Eval(InputsAt(cfg, t));
        } else {
          assert i - 1 == 2 * t + 1;
          assert ticks[2 * t + 1] == Dump(t);
        }
      }
    }
  }

  /** If the DUT never requests finish, the loop runs to the tick bound. */
  lemma NeverFinishRunsToBound(cfg: Config, f: FinishOracle)
    requires forall e: nat :: !f(e)
    ensures var r := Run(cfg, f);
      && r.time == cfg.tickBound
      && |Timestamps(r.log)| == cfg.tickBound
      && r.evals == cfg.tickBound + 1
  {
    RunTime(cfg, f, cfg.tickBound);
    RunEnds(cfg, f);
    TraceTimestamps(cfg, f);
  }

  /**
    The finish flag is read only at the loop head: if the first evaluation
    to execute `$finish` is the one of the iteration stamped `t`, that
    iteration still dumps `t` and advances the time, so the run ends at
    t+1 with t+1 records.
   */
  lemma FinishInIteration(cfg: Config, f: FinishOracle, t: nat)
    requires t < cfg.tickBound
    requires forall e | 1 <= e <= t + 1 :: !f(e)
    requires f(t + 2)
    ensures var r := Run(cfg, f);
      && r.time == t + 1
      && |Timestamps(r.log)| == t + 1
      && Timestamps(r.log)[t] == t
  {
    RunTime(cfg, f, t + 1);
    TraceTimestamps(cfg, f);
  }

  /** If the initial evaluation executes `$finish`, no iteration runs and nothing is dumped. */
  lemma FinishAtInitialEvaluation(cfg: Config, f: FinishOracle)
    requires f(1)
    ensures var r := Run(cfg, f);
      && r.time == 0
      && Timestamps(r.log) == []
      && r.log == [Eval(Inputs(false, false)), Final, Close]
  {
    RunTime(cfg, f, 0);
    TraceTimestamps(cfg, f);
  }
}
