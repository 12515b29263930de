/**
  The testbench as configured in tb/tb_tl_top_verilator.cpp: reset held
  through the tick stamped 100 and a bound of 50000 ticks.
 */
module Scenarios {
  import opened Harness
  import opened Schedule
  import opened Properties

  /** 2^64, the number of values a vluint64_t `main_time` can hold. */
  const CounterModulus: nat := 0x1_0000_0000_0000_0000

  /** The 64-bit tick counter never wraps: every run ends at or below 50000. */
  lemma TimeFitsCounter(f: FinishOracle)
    ensures Run(Testbench, f).time <= 50000 < CounterModulus
  {
    RunEnds(Testbench, f);
  }

  /**
    A DUT that never finishes: 50000 iterations, 50000 trace records stamped
    0 to 49999, 50001 evaluations; reset is low at the initial evaluation
    and at those of the ticks stamped 0 to 100, and high at those of the
    ticks stamped 101 to 49999.
   */
  lemma NeverFinishes(f: FinishOracle)
    requires forall e: nat :: !f(e)
    ensures var r := Run(Testbench, f); var ts := Timestamps(r.log); var evs := Evaluations(r.log);
      && r.time == 50000
      && |ts| == 50000 && ts[0] == 0 && ts[49999] == 49999
      && |evs| == 50001
      && (forall k | 0 <= k <= 101 :: !evs[k].rstN)
      && (forall k | 102 <= k < 50001 :: evs[k].rstN)
  {
    NeverFinishRunsToBound(Testbench, f);
    TraceTimestamps(Testbench, f);
    EvaluationInputs(Testbench, f);
    ResetReleasedOnce(Testbench, f);
  }

  /**
    A DUT whose first `$finish` comes from the 501st evaluation, the one of
    the iteration stamped 499: that iteration is completed, so the run ends
    with main_time 500 and 500 trace records, the last stamped 499.
   */
  lemma FinishesAtEvaluation501(f: FinishOracle)
    requires forall e | 1 <= e <= 500 :: !f(e)
    requires f(501)
    ensures var r := Run(Testbench, f);
      && r.time == 500
      && |Timestamps(r.log)| == 500
      && Timestamps(r.log)[499] == 499
  {
    FinishInIteration(Testbench, f, 499);
  }

  /** A DUT that finishes during its initial evaluation: no tick, no trace record. */
  lemma FinishesImmediately(f: FinishOracle)
    requires f(1)
    ensures var r := Run(Testbench, f);
      && r.time == 0
      && r.log == [Eval(Inputs(false, false)), Final, Close]
  {
    FinishAtInitialEvaluation(Testbench, f);
  }
}
