/**
  main() of tb/tb_tl_top_verilator.cpp written as the loop it is, over the
  same variables: main_time, the two DUT ports, Verilator's finish flag, and
  the log of evaluations, dumps, final and close.
 */
module Simulation {
  import opened Harness
  import opened Schedule

  /**
    Drive one run. The result is the step-by-step `Run` and so has the
    closed-form schedule: it stops at the unique point where the loop guard
    first fails, never beyond the tick bound, having made one evaluation
    more than iterations, with the log of `ExpectedLog`.
   */
  method Simulate(cfg: Config, f: FinishOracle) returns (r: State)
    ensures r == Run(cfg, f)
    ensures StopsAt(cfg, f, r.time)
    ensures r.time <= cfg.tickBound
    ensures r.evals == r.time + 1
    ensures r.log == ExpectedLog(cfg, r.time)
  {
    var mainTime: nat := 0;
    var clk := false;
    var rstN := false;
    var gotFinish := false;
    var evals: nat := 0;
    var log: seq<Event> := [];

    // Initial evaluation with both ports low, nothing dumped.
    log := log + [Eval(Inputs(clk, rstN))];
    evals := evals + 1;
    gotFinish := gotFinish || f(evals);
    assert State(mainTime, clk, rstN, gotFinish, evals, log) == Start(f);
    StartAtLoopHead(cfg, f);

    while !gotFinish && mainTime < cfg.tickBound
      invariant AtLoopHead(cfg, f, State(mainTime, clk, rstN, gotFinish, evals, log))
      decreases cfg.tickBound - mainTime
    {
      ghost var before := State(mainTime, clk, rstN, gotFinish, evals, log);
      TickAtLoopHead(cfg, f, before);
      clk := !clk;
      if mainTime > cfg.resetHold {
        rstN := true;
      }
      log := log + [Eval(Inputs(clk, rstN))];
      evals := evals + 1;
      gotFinish := gotFinish || f(evals);
      log := log + [Dump(mainTime)];
      mainTime := mainTime + 1;
      assert State(mainTime, clk, rstN, gotFinish, evals, log) == Tick(cfg, f, before);
    }
    ghost var last := State(mainTime, clk, rstN, gotFinish, evals, log);
    LoopExitDetermined(cfg, f, last);

    log := log + [Final];
    log := log + [Close];
    assert log == last.log + [Final, Close];
    r := State(mainTime, clk, rstN, gotFinish, evals, log);
    RunMatchesSchedule(cfg, f);
  }
}
