/**
 * The instrumented run condition of src/lib.rs: a `Logger` owns a run
 * condition; acquiring it for one search (`into_run_condition` on
 * `&mut Logger`) zeroes its step and depth counters and hands out an
 * `InnerLogger`, which forwards every poll to the owned condition and records
 * how many steps were polled and the last depth asked for.
 *
 * The wall clock is not modelled: dropping the `InnerLogger` at the end of a
 * search stores the time elapsed since acquisition, and here that time is a
 * number the caller passes in (`Released`, `InnerLogger.Release`).
 */
module Logging {
  import opened RunCondition

  /** What a `Logger` holds, as a value. */
  datatype LogState = LogState(condition: State, steps: u32, depth: u32, duration: nat)

  /** The logger's state right after it is acquired for a new search. */
  function Acquired(l: LogState): LogState {
    l.(steps := 0, depth := 0)
  }

  /** The logger's state after the search's `InnerLogger` is dropped, `elapsed` after acquisition. */
  function Released(l: LogState, elapsed: nat): LogState {
    l.(duration := elapsed)
  }

  /**
   * One poll through the wrapper: a step poll bumps the step counter, a depth
   * poll records the depth, and either one is answered by the owned condition.
   */
  function LoggedRespond(l: LogState, p: Poll): (LogState, bool) {
    var (c, ok) := Respond(l.condition, p);
    match p
    case StepPoll => (l.(condition := c, steps := WrappingIncrement(l.steps)), ok)
    case DepthPoll(d) => (l.(condition := c, depth := d), ok)
  }

  /** The answers to a sequence of polls through the wrapper, and the final state. */
  function LoggedRun(l: LogState, polls: seq<Poll>): (r: (seq<bool>, LogState))
    ensures |r.0| == |polls|
    decreases |polls|
  {
    if polls == [] then ([], l)
    else
      var (l', ok) := LoggedRespond(l, polls[0]);
      var (rest, last) := LoggedRun(l', polls[1..]);
      ([ok] + rest, last)
  }

  /** `x + n` on a `u32`, wrapping modulo 2^32. */
  function WrappingAdd(x: u32, n: nat): u32 {
    ((x as int + n) % 0x1_0000_0000) as u32
  }

  /** The depth of the last depth poll in `polls`, or `initial` if there is none. */
  function FinalDepth(polls: seq<Poll>, initial: u32): u32
    decreases |polls|
  {
    if polls == [] then initial
    else FinalDepth(polls[1..], if polls[0].DepthPoll? then polls[0].depth else initial)
  }

  /**
   * The wrapper is transparent: it answers any sequence of polls exactly as
   * the bare condition would and leaves the condition in the same state; on
   * top of that it has counted the step polls (modulo 2^32) and remembers the
   * last depth polled, and it never touches the duration.
   */
  lemma {:induction false} LoggerIsTransparent(l: LogState, polls: seq<Poll>)
    decreases |polls|
    ensures LoggedRun(l, polls).0 == Run(l.condition, polls).0
    ensures LoggedRun(l, polls).1 == LogState(
      Run(l.condition, polls).1,
      WrappingAdd(l.steps, CountSteps(polls)),
      FinalDepth(polls, l.depth),
      l.duration)
  {
    if polls != [] {
      var (l', ok) := LoggedRespond(l, polls[0]);
      LoggerIsTransparent(l', polls[1..]);
    }
  }

  /**
   * Two searches through the same logger, each ending when its `InnerLogger`
   * is dropped: afterwards the logger reports only the second search's steps,
   * depth and duration, while the owned condition has gone on from where the
   * first search left it (a step counter keeps counting across searches).
   */
  lemma SearchesAreIndependent(l: LogState, first: seq<Poll>, elapsed1: nat, second: seq<Poll>, elapsed2: nat)
    ensures var mid := Released(LoggedRun(Acquired(l), first).1, elapsed1);
      var after := Released(LoggedRun(Acquired(mid), second).1, elapsed2);
      && after.steps == WrappingAdd(0, CountSteps(second))
      && after.depth == FinalDepth(second, 0)
      && after.condition == Run(Run(l.condition, first).1, second).1
      && after.duration == elapsed2
  {
    var mid := Released(LoggedRun(Acquired(l), first).1, elapsed1);
    LoggerIsTransparent(Acquired(l), first);
    LoggerIsTransparent(Acquired(mid), second);
  }

  /** `Logger`: a run condition together with what it observed during the last search. */
  class Logger {
    const condition: Condition
    var steps: u32
    var depth: u32
    var duration: nat

    ghost function Model(): LogState
      reads this, condition.Footprint()
    {
      LogState(condition.Snapshot(), steps, depth, duration)
    }

    /** `Logger::new`: wraps the converted `d` with every counter at zero. */
    constructor (d: Descriptor)
      ensures steps == 0 && depth == 0 && duration == 0
      ensures d.Ready? ==> condition == d.condition
      ensures d.StepsBudget? ==>
        condition.Counter? && fresh(condition.counter) && condition.Snapshot() == StepsState(0, d.steps.n)
    {
      var c := RunCondition.IntoRunCondition(d);
      condition := c;
      steps := 0;
      depth := 0;
      duration := 0;
    }

    /** The number of step polls of the last search. */
    function StepCount(): u32
      reads this
    {
      steps
    }

    /** The depth the last search polled last. */
    function LastDepth(): u32
      reads this
    {
      depth
    }

    /** The time recorded for the last search. */
    function Duration(): nat
      reads this
    {
      duration
    }

    /** The owned run condition. */
    function IntoInner(): Condition {
      condition
    }

    /**
     * `into_run_condition` on `&mut Logger`: acquires the logger for one search.
     * Only the two counters are reset; the owned condition and the duration stay.
     */
    method IntoRunCondition() returns (inner: InnerLogger)
      modifies this
      ensures fresh(inner) && inner.logger == this
      ensures Model() == Acquired(old(Model()))
    {
      steps := 0;
      depth := 0;
      inner := new InnerLogger(this);
    }
  }

  /** `InnerLogger`: the run condition an acquired `Logger` hands to the search. */
  class InnerLogger {
    const logger: Logger

    constructor (logger: Logger)
      ensures this.logger == logger
    {
      this.logger := logger;
    }

    /** Counts the step, then answers as the owned condition does. */
    method Step() returns (ok: bool)
      modifies logger, logger.condition.Footprint()
      ensures (logger.Model(), ok) == LoggedRespond(old(logger.Model()), StepPoll)
    {
      logger.steps := WrappingIncrement(logger.steps);
      ok := logger.condition.Step();
    }

    /** `drop`: stores the time `elapsed` since acquisition as the search's duration. */
    method Release(elapsed: nat)
      modifies logger
      ensures logger.Model() == Released(old(logger.Model()), elapsed)
    {
      logger.duration := elapsed;
    }

    /** Records the depth, then answers as the owned condition does. */
    method EnterDepth(depth: u32) returns (ok: bool)
      modifies logger, logger.condition.Footprint()
      ensures (logger.Model(), ok) == LoggedRespond(old(logger.Model()), DepthPoll(depth))
    {
      logger.depth := depth;
      ok := logger.condition.EnterDepth(depth);
    }
  }
}
