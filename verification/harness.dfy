/**
  The testbench driver of tb/tb_tl_top_verilator.cpp, one step at a time.

  The simulation run is a small sequential state machine over a tick counter
  (`main_time`), the two DUT inputs `clk` and `rst_n`, Verilator's sticky
  finish flag, and an append-only log of what the driver did to the DUT and
  to the waveform trace. The DUT itself is opaque: all the driver can observe
  of it is whether an evaluation executed `$finish`, which is supplied as a
  `FinishOracle`.
 */
module Harness {

  /** Run parameters that the source fixes as literals. */
  datatype Config = Config(
    resetHold: nat,  // reset is released at the first tick stamped above this (100 in the source)
    tickBound: nat   // the loop runs only while main_time is below this (50000 in the source)
  )

  /** The testbench's own configuration. */
  const Testbench: Config := Config(100, 50000)

  /** The values on the DUT's `clk` and `rst_n` ports at one evaluation. */
  datatype Inputs = Inputs(clk: bool, rstN: bool)

  /** One observable action of the driver, in the order it happened. */
  datatype Event =
    | Eval(inputs: Inputs)  // top->eval() with these port values
    | Dump(time: nat)       // tfp->dump(time)
    | Final                 // top->final()
    | Close                 // tfp->close()

  /**
    `f(e)` holds when the e-th evaluation of the DUT (counting from 1, the
    initial evaluation included) executes `$finish`.
   */
  type FinishOracle = nat -> bool

  /** Everything the driver's loop reads or writes. */
  datatype State = State(
    time: nat,        // main_time
    clk: bool,        // top->clk
    rstN: bool,       // top->rst_n
    gotFinish: bool,  // Verilated::gotFinish(), sticky once raised
    evals: nat,       // number of top->eval() calls so far
    log: seq<Event>   // every eval, dump, final and close so far
  )

  /** Prefix order on logs: `b` extends `a` without rewriting it. */
  predicate Extends(a: seq<Event>, b: seq<Event>) {
    |a| <= |b| && b[..|a|] == a
  }

  /**
    One call of top->eval(): the current port values are consumed, and
    Verilator's finish flag is raised if this evaluation executes `$finish`;
    once raised it is never lowered. Every evaluation returns here: one that
    aborts the process (`$stop`, `$fatal`) is not modelled.
   */
  function Evaluate(f: FinishOracle, s: State): State
  {
    s.(evals := s.evals + 1,
       gotFinish := s.gotFinish || f(s.evals + 1),
       log := s.log + [Eval(Inputs(s.clk, s.rstN))])
  }

  /**
    The state just before the loop: both ports driven low and one
    evaluation with nothing dumped (main_time starts at 0).
   */
  function Start(f: FinishOracle): (r: State)
    ensures r.time == 0 && r.evals == 1
    ensures !r.clk && !r.rstN
    ensures r.log == [Eval(Inputs(false, false))]
    ensures r.gotFinish <==> f(1)
  {
    Evaluate(f, State(0, false, false, false, 0, []))
  }

  /** The loop guard: no finish requested and the tick bound not reached. */
  predicate Running(cfg: Config, s: State) {
    !s.gotFinish && s.time < cfg.tickBound
  }

  /**
    One loop iteration, in the source's order: toggle the clock, release
    reset if the pre-increment time is past the hold, evaluate, dump a trace
    record stamped with the pre-increment time, advance the time (what it
    does to the state is `TickEffect`).
   */
  function Tick(cfg: Config, f: FinishOracle, s: State): State
  {
    var toggled := s.(clk := !s.clk);
    var released := if toggled.time > cfg.resetHold then toggled.(rstN := true) else toggled;
    var evaluated := Evaluate(f, released);
    var dumped := evaluated.(log := evaluated.log + [Dump(evaluated.time)]);
    dumped.(time := dumped.time + 1)
  }

  /** The while loop: iterate while `Running` (what it guarantees is `LoopExits`). */
  function Loop(cfg: Config, f: FinishOracle, s: State): State
    decreases cfg.tickBound - s.time
  {
    if Running(cfg, s) then Loop(cfg, f, Tick(cfg, f, s)) else s
  }

  /** Teardown: top->final(), then tfp->close(); nothing else changes. */
  function Teardown(s: State): (r: State)
    ensures Extends(s.log, r.log)
    ensures |r.log| == |s.log| + 2
    ensures r.log[|r.log| - 2] == Final && r.log[|r.log| - 1] == Close
    ensures r.time == s.time && r.evals == s.evals && r.gotFinish == s.gotFinish
    ensures r.clk == s.clk && r.rstN == s.rstN
  {
    s.(log := s.log + [Final, Close])
  }

  /**
    The whole of main() from the inputs' initialisation to the trace's close
    (what it guarantees is `RunEnds`, and in closed form `RunMatchesSchedule`).
   */
  function Run(cfg: Config, f: FinishOracle): State
  {
    Teardown(Loop(cfg, f, Start(f)))
  }

  /**
    What one iteration does to the state: the time advances by one, the
    clock flips, reset is released (for good) once the pre-increment time
    is past the hold, the finish flag can only rise, and exactly one
    evaluation and then one dump stamped with the pre-increment time are
    appended to the log.
   */
  lemma TickEffect(cfg: Config, f: FinishOracle, s: State)
    ensures var r := Tick(cfg, f, s);
      && r.time == s.time + 1
      && r.clk == !s.clk
      && (s.rstN ==> r.rstN)
      && (r.rstN <==> s.rstN || s.time > cfg.resetHold)
      && (r.gotFinish <==> s.gotFinish || f(s.evals + 1))
      && r.evals == s.evals + 1
      && r.log == s.log + [Eval(Inputs(r.clk, r.rstN)), Dump(s.time)]
  {
  }

  /**
    The while loop stops exactly when its guard fails, never lowers the
    time, never passes the bound it started below, makes one evaluation per
    iteration, and only appends to the log.
   */
  lemma {:induction false} LoopExits(cfg: Config, f: FinishOracle, s: State)
    ensures var r := Loop(cfg, f, s);
      && !Running(cfg, r)
      && s.time <= r.time
      && (s.time <= cfg.tickBound ==> r.time <= cfg.tickBound)
      && r.time - s.time == r.evals - s.evals
      && Extends(s.log, r.log)
      && (!Running(cfg, s) ==> r == s)
    decreases cfg.tickBound - s.time
  {
    if Running(cfg, s) {
      TickEffect(cfg, f, s);
      LoopExits(cfg, f, Tick(cfg, f, s));
    }
  }

  /**
    Every run ends within the tick bound, by a finish request or by reaching
    the bound, after one evaluation more than iterations, with the initial
    evaluation first and final then close last.
   */
  lemma RunEnds(cfg: Config, f: FinishOracle)
    ensures var r := Run(cfg, f);
      && r.time <= cfg.tickBound
      && r.evals == r.time + 1
      && (r.gotFinish || r.time == cfg.tickBound)
      && |r.log| >= 3
      && r.log[0] == Eval(Inputs(false, false))
      && r.log[|r.log| - 2] == Final && r.log[|r.log| - 1] == Close
  {
    LoopExits(cfg, f, Start(f));
  }
}
