# Verilator testbench driver, modelled in Dafny

`tb/tb_tl_top_verilator.cpp` is the C++ harness that runs a Verilator-compiled
hardware design (the DUT). Its `main` drives the DUT's `clk` and `rst_n`
inputs, evaluates it once per tick, dumps a VCD waveform record per tick, and
advances a global tick counter `main_time`. It stops when the DUT executes
`$finish` or when 50000 ticks have run, then calls `final()` on the DUT and
closes the trace.

This project models that driver. It has five modules:

- `Harness` (`harness.dfy`) is the step-by-step model. A `State` holds
  `main_time`, the two ports, Verilator's sticky finish flag, the number of
  evaluations, and a log of `Event`s. The events are `Eval(inputs)`,
  `Dump(time)`, `Final` and `Close`, so the log records, in order, every call
  the driver makes from the port initialisation (line 27) to the trace's
  close (line 55). `Start`, `Tick`, `Loop`,
  `Teardown` and `Run` follow the source line by line. The reset hold (100)
  and the tick bound (50000) are fields of a `Config`; `Testbench` is the
  source's own configuration. `Evaluate`, `Tick`, `Loop` and `Run` have no
  contracts of their own. The lemmas `TickEffect`, `LoopExits` and `RunEnds`
  state what they do.
- `Schedule` (`schedule.dfy`) is an independent closed-form description of a
  run. `InputsAt(cfg, t)` gives the port values at the evaluation of the
  iteration stamped `t`. `ExpectedLog(cfg, n)` is the log of an `n`-iteration
  run. `StopsAt(cfg, f, n)` says the loop guard held for `n` iterations and
  then failed. `RunMatchesSchedule` proves that `Run` produces exactly this.
- `Properties` (`properties.dfy`) reads the run's guarantees off the log. It
  covers the trace timestamps, the clock and reset values at each evaluation,
  the teardown order, and where the loop ends for each way the DUT can finish.
- `Simulation` (`simulation.dfy`) is `main` written as the imperative loop it
  is. `Simulate` is proved equal to `Run` and to the closed form.
- `Scenarios` (`scenarios.dfy`) instantiates the general results with the
  source's constants 100 and 50000.

The DUT is opaque. Of an evaluation that returns, all the driver observes is
`Verilated::gotFinish()`; evaluations that abort the process are not modelled
(see "Left out"). The model takes a `FinishOracle` `f` as a parameter: `f(e)` holds when the
e-th evaluation executes `$finish`. The initial evaluation is number 1. The
driver's inputs to the DUT depend only on the evaluation's index, so indexing
the oracle by that number loses nothing. Verilator's flag is sticky, so
`State.gotFinish` becomes `gotFinish || f(e)` and is never lowered. The oracle
itself need not be monotone.

A `$finish` raised by the evaluation of the iteration stamped `t` does not
stop that iteration. It still dumps `t` and increments `main_time`, so the run
ends at `t + 1` with `t + 1` records (`FinishInIteration`, and
`FinishesAtEvaluation501` for t = 499). The last tick of an unfinished run is
stamped 49999 (`NeverFinishes`). The code reports no termination reason, has
no error path for opening or closing the trace, and always returns 0.

## Model

| member | source | states |
|---|---|---|
| Harness.Start | tb/tb_tl_top_verilator.cpp:26-29 | before the loop, `main_time` is 0, both ports are low, and exactly one evaluation has run with nothing dumped; the finish flag is up iff that evaluation finished |
| Harness.TickEffect | tb/tb_tl_top_verilator.cpp:33-48 | one iteration advances time by exactly 1 and flips the clock; reset is released iff it already was or the pre-increment time is past the hold, and is never re-asserted; the finish flag only rises; the log gains exactly one evaluation with the new port values, then one dump stamped with the pre-increment time |
| Harness.LoopExits | tb/tb_tl_top_verilator.cpp:32-49 | the loop ends exactly when the guard fails; time never decreases and never passes the bound; evaluations grow with iterations one for one; the log is only appended to; a loop whose guard fails at entry does nothing |
| Harness.Teardown | tb/tb_tl_top_verilator.cpp:51-55 | teardown appends `final()` then `close()` to the log and changes nothing else |
| Harness.RunEnds | tb/tb_tl_top_verilator.cpp:26-55 | every run ends with `main_time` at most the bound, by a finish request or by reaching the bound, with one more evaluation than iterations; the initial evaluation has both ports low; the log ends with final then close |
| Schedule.Raised | tb/tb_tl_top_verilator.cpp:32 | the sticky finish flag after `e` evaluations is up iff some evaluation `1..e` executed `$finish` |
| Schedule.StopsAtUnique | tb/tb_tl_top_verilator.cpp:32 | at most one iteration count can satisfy the loop's stopping condition |
| Schedule.TickEvents | tb/tb_tl_top_verilator.cpp:33-48 | the records of `n` iterations are `2n` long; record `2t` is the evaluation with the closed-form inputs of tick `t`, and record `2t+1` is the dump stamped `t` |
| Schedule.StartAtLoopHead | tb/tb_tl_top_verilator.cpp:26-29 | the state after initialisation satisfies the loop-head invariant: zero ticks, clock low, reset held, one evaluation, the initial log |
| Schedule.TickAtLoopHead | tb/tb_tl_top_verilator.cpp:33-48 | from a loop head where the guard holds, one iteration reaches the next loop head: the clock is high iff the iteration count is odd, reset is released iff the count exceeds hold + 1, and the log gains tick `t`'s records |
| Schedule.LoopStopsAt | tb/tb_tl_top_verilator.cpp:32-49 | the loop started at a loop head ends at a loop head whose time satisfies the stopping condition |
| Schedule.LoopExitDetermined | tb/tb_tl_top_verilator.cpp:32-49 | a loop-head state whose guard fails is exactly the state the loop ends in, so the loop-head facts and the failed guard fix the whole final state |
| Schedule.RunMatchesSchedule | tb/tb_tl_top_verilator.cpp:26-55 | the step-by-step run stops where the closed form says, makes one evaluation more than iterations, and its log is exactly the closed-form log |
| Schedule.RunTime | tb/tb_tl_top_verilator.cpp:32 | any count that satisfies the stopping condition is the run's final `main_time`, and the run's log is the closed-form log for that count |
| Properties.TraceTimestamps | tb/tb_tl_top_verilator.cpp:44-48 | the trace timestamps are exactly 0, 1, ..., main_time-1: strictly increasing, with no gaps, and as many as the final `main_time` |
| Properties.EvaluationInputs | tb/tb_tl_top_verilator.cpp:26-42 | there are final `main_time` + 1 evaluations; the first has both ports low, and the evaluation of tick `t` has the clock high iff `t` is even and reset released iff `t` exceeds the hold |
| Properties.ClockToggles | tb/tb_tl_top_verilator.cpp:33-34 | at evaluation index k (index 0 is the initial evaluation, evaluation number 1) the clock is high iff k is odd, and consecutive evaluations always see opposite clock values |
| Properties.ResetReleasedOnce | tb/tb_tl_top_verilator.cpp:36-39 | at evaluation index k (index 0 is the initial evaluation, evaluation number 1) reset is released iff k exceeds hold + 1, and once released it stays released at every later evaluation |
| Properties.DumpFollowsEvaluation | tb/tb_tl_top_verilator.cpp:41-45 | the log has length 2·main_time + 3; each tick's dump comes directly after that tick's evaluation, in tick order |
| Properties.TeardownLast | tb/tb_tl_top_verilator.cpp:51-55 | `final()` occurs exactly once, just before the end; `close()` occurs exactly once, last; every earlier action is an evaluation or a dump, so nothing is dumped after close |
| Properties.NeverFinishRunsToBound | tb/tb_tl_top_verilator.cpp:32 | if the DUT never finishes, the run makes exactly `tickBound` iterations, writes that many records, and makes one more evaluation |
| Properties.FinishInIteration | tb/tb_tl_top_verilator.cpp:32-48 | if the first finish comes from the evaluation of tick `t`, the run still dumps `t` and ends with `main_time == t + 1` and `t + 1` records |
| Properties.FinishAtInitialEvaluation | tb/tb_tl_top_verilator.cpp:29-32 | if the initial evaluation finishes, no iteration runs; the log is that evaluation, then final and close, with no trace records |
| Simulation.Simulate | tb/tb_tl_top_verilator.cpp:26-55 | the imperative loop keeps the loop-head invariant (clock parity, reset release, finish flag, closed-form log) and computes the same final state as `Run`; it stops at the closed-form stopping point within the bound, with one more evaluation than ticks and the closed-form log |
| Scenarios.TimeFitsCounter | tb/tb_tl_top_verilator.cpp:6 | with the source's constants, `main_time` never exceeds 50000, so the 64-bit counter cannot wrap |
| Scenarios.NeverFinishes | tb/tb_tl_top_verilator.cpp:32-49 | with hold 100 and bound 50000, a DUT that never finishes gives 50000 ticks, records stamped 0 to 49999, and 50001 evaluations; reset is held through tick 100 and released from tick 101 on |
| Scenarios.FinishesAtEvaluation501 | tb/tb_tl_top_verilator.cpp:32-48 | with the source's constants, a first finish at evaluation 501 (tick 499) ends the run at `main_time` 500 with 500 records, the last stamped 499 |
| Scenarios.FinishesImmediately | tb/tb_tl_top_verilator.cpp:26-32 | with the source's constants, a finish during the initial evaluation ends the run at `main_time` 0 with no trace records |

## Left out

- `sc_time_stamp` (lines 9-11) returns `main_time` as a `double` for Verilator's use. It is a floating-point conversion hook, not driver logic.
- Verilator set-up calls are library calls whose behaviour is not visible here: `Verilated::commandArgs`, `traceEverOn`, `top->trace(tfp, 99)` with its trace depth, and `tfp->open` with the file name. The trace is modelled only as the sequence of `Dump(time)` events, not as a VCD file.
- The DUT's internal logic (`eval`, `final`) is not modelled. Only whether an evaluation executes `$finish` is modelled, as a parameter (`FinishOracle`).
- Failure to open or close the trace file is not modelled, because the source has no error handling for it.
- An evaluation at line 29 or 42 that aborts the process is not modelled. This covers `$stop`, `$fatal`, `$error` or a failed assertion under Verilator's default fatal-on-error setting, and any other fatal Verilator error. Each ends in `vl_fatal` and `abort()`, inside library code that is not part of this model. On that path lines 52-55 never run. The oracle only says whether an evaluation executed `$finish`, so every modelled evaluation returns.
- Properties.TeardownLast: `final()` and `close()` happen exactly once only in runs whose evaluations all return. A run aborted by an evaluation reaches neither.
- Harness.RunEnds: the run ends by a finish request or the bound, and its log ends with final then close, only for runs whose evaluations all return. An aborting evaluation ends the process with neither.
- The `new`/`delete` memory management (lines 18, 22, 58-59) and the exit code 0 (line 61) are plumbing.
- `main_time` is a 64-bit unsigned counter, but the model uses `nat`. No wrap-around is modelled; `Scenarios.TimeFitsCounter` shows that the source's configuration never gets close to one.
- `clk` and `rst_n` are 8-bit Verilator port values that the source only ever sets to 0 or 1. They are modelled as `bool`.
