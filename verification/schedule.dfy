/**
  A closed-form description of a whole run, independent of the step-by-step
  driver in `Harness`, and the proof that the driver produces exactly it.

  The closed form says three things. The inputs at the evaluation of the
  iteration stamped `t` are a function of `t` alone (`InputsAt`). The log is
  the initial evaluation, then one evaluation and one dump per iteration,
  then final and close (`ExpectedLog`). The number of iterations is the one
  `n` at which the loop guard first fails (`StopsAt`).
 */
module Schedule {
  import opened Harness

  /**
    The port values at the evaluation of the iteration stamped `t`: the clock
    has been toggled t+1 times from 0, and reset has been released iff `t`
    is past the hold.
   */
  function InputsAt(cfg: Config, t: nat): Inputs {
    Inputs(t % 2 == 0, t > cfg.resetHold)
  }

  /** Verilator's finish flag after `e` evaluations. */
  function Raised(f: FinishOracle, e: nat): (r: bool)
    ensures r <==> exists i :: 1 <= i <= e && f(i)
  {
    if e == 0 then false else Raised(f, e - 1) || f(e)
  }

  /**
    `n` iterations is where the loop ends: within the bound; the guard held
    before the last of them (it is checked with n evaluations done, so no
    earlier evaluation finished); and it fails after them (the bound is
    reached or evaluation n+1 raised the flag).
   */
  predicate StopsAt(cfg: Config, f: FinishOracle, n: nat) {
    && n <= cfg.tickBound
    && (n > 0 ==> !Raised(f, n))
    && (n < cfg.tickBound ==> Raised(f, n + 1))
  }

  /** The loop's stopping point is unique. */
  lemma StopsAtUnique(cfg: Config, f: FinishOracle, n: nat, m: nat)
    requires StopsAt(cfg, f, n) && StopsAt(cfg, f, m)
    ensures n == m
  {
  }

  /** The eval and dump records of the first `n` iterations. */
  function TickEvents(cfg: Config, n: nat): (r: seq<Event>)
    ensures |r| == 2 * n
    ensures forall t | 0 <= t < n :: r[2 * t] == Eval(InputsAt(cfg, t)) && r[2 * t + 1] == Dump(t)
  {
    if n == 0 then [] else TickEvents(cfg, n - 1) + [Eval(InputsAt(cfg, n - 1)), Dump(n - 1)]
  }

  /** The log of the initial evaluation followed by `n` iterations. */
  function LoopLog(cfg: Config, n: nat): seq<Event> {
    [Eval(Inputs(false, false))] + TickEvents(cfg, n)
  }

  /** The full log of a run of `n` iterations. */
  function ExpectedLog(cfg: Config, n: nat): seq<Event> {
    LoopLog(cfg, n) + [Final, Close]
  }

  /**
    What holds of the driver's state at the loop head after `n` iterations:
    the clock has been toggled n times, reset has been released iff some
    iteration so far was stamped past the hold, the finish flag reflects
    the n+1 evaluations done, and the log is the closed-form one.
   */
  ghost predicate AtLoopHead(cfg: Config, f: FinishOracle, s: State) {
    && s.time <= cfg.tickBound
    && s.evals == s.time + 1
    && s.clk == (s.time % 2 == 1)
    && s.rstN == (s.time > cfg.resetHold + 1)
    && s.gotFinish == Raised(f, s.evals)
    && (s.time > 0 ==> !Raised(f, s.time))
    && s.log == LoopLog(cfg, s.time)
  }

  lemma StartAtLoopHead(cfg: Config, f: FinishOracle)
    ensures AtLoopHead(cfg, f, Start(f))
  {
    assert Raised(f, 1) == f(1) by { assert Raised(f, 0) == false; }
  }

  /** One iteration taken from the loop head lands at the next loop head. */
  lemma TickAtLoopHead(cfg: Config, f: FinishOracle, s: State)
    requires AtLoopHead(cfg, f, s) && Running(cfg, s)
    ensures AtLoopHead(cfg, f, Tick(cfg, f, s))
  {
    TickEffect(cfg, f, s);
    var r := Tick(cfg, f, s);
    var t := s.time;
    assert r.log == s.log + [Eval(InputsAt(cfg, t)), Dump(t)];
    assert TickEvents(cfg, t + 1) == TickEvents(cfg, t) + [Eval(InputsAt(cfg, t)), Dump(t)];
  }

  /** The loop, started at a loop head, ends at the closed-form stopping point. */
  lemma {:induction false} LoopStopsAt(cfg: Config, f: FinishOracle, s: State)
    requires AtLoopHead(cfg, f, s)
    ensures AtLoopHead(cfg, f, Loop(cfg, f, s))
    ensures StopsAt(cfg, f, Loop(cfg, f, s).time)
    decreases cfg.tickBound - s.time
  {
    if Running(cfg, s) {
      TickAtLoopHead(cfg, f, s);
      LoopStopsAt(cfg, f, Tick(cfg, f, s));
    }
  }

  /**
    A loop head where the guard fails is the state the loop ends in: the
    loop-head facts and the failed guard leave no other choice.
   */
  lemma LoopExitDetermined(cfg: Config, f: FinishOracle, s: State)
    requires AtLoopHead(cfg, f, s) && !Running(cfg, s)
    ensures s == Loop(cfg, f, Start(f))
  {
    StartAtLoopHead(cfg, f);
    LoopStopsAt(cfg, f, Start(f));
    var l := Loop(cfg, f, Start(f));
    assert StopsAt(cfg, f, s.time);
    StopsAtUnique(cfg, f, s.time, l.time);
  }

  /**
    The driver's run is the closed form: it stops at the unique `StopsAt`
    point, after one more evaluation than iterations, with the expected log.
   */
  lemma RunMatchesSchedule(cfg: Config, f: FinishOracle)
    ensures var r := Run(cfg, f);
      && StopsAt(cfg, f, r.time)
      && r.evals == r.time + 1
      && r.log == ExpectedLog(cfg, r.time)
  {
    StartAtLoopHead(cfg, f);
    LoopStopsAt(cfg, f, Start(f));
  }

  /** Any `n` satisfying `StopsAt` is the number of iterations the run makes. */
  lemma RunTime(cfg: Config, f: FinishOracle, n: nat)
    requires StopsAt(cfg, f, n)
    ensures var r := Run(cfg, f);
      && r.time == n
      && r.log == ExpectedLog(cfg, n)
  {
    RunMatchesSchedule(cfg, f);
    StopsAtUnique(cfg, f, n, Run(cfg, f).time);
  }
}
