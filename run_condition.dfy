/**
 * The run conditions (budgets) that the search polls: before expanding a node
 * (`step`) and before starting a new depth tier (`depth`), after src/lib.rs.
 *
 * The built-in conditions are modelled in the form the source gives them:
 * `ToCompletion` and `Depth` never change and are values with pure polls,
 * `InnerSteps` bumps its counter in place and is a class. `Condition` is the
 * union of these three, standing for "some `T: RunCondition`".
 *
 * Each poll is also given as a transition on plain values (`State`, `Respond`,
 * `Run`): the methods are proved against that transition, and the properties
 * of whole sequences of polls are lemmas about `Run`.
 */
module RunCondition {

  /** Rust's `u32`. */
  newtype u32 = x: int | 0 <= x < 0x1_0000_0000

  const U32_MAX: u32 := 0xFFFF_FFFF

  /** `x += 1` on a `u32` as a release build runs it: past `U32_MAX` it wraps to 0. */
  function WrappingIncrement(x: u32): (r: u32)
    ensures r as int == (x as int + 1) % 0x1_0000_0000
  {
    if x == U32_MAX then 0 else x + 1
  }

  // ---------------------------------------------------------------------------
  // The conditions as the source declares them
  // ---------------------------------------------------------------------------

  /** `Steps(n)`: converts into a condition that counts `step` calls up to `n`. */
  datatype Steps = Steps(n: u32)

  /** `ToCompletion`: lets the search run until the game tree is solved. */
  datatype ToCompletion = ToCompletion {
    function Step(): (ok: bool)
      ensures ok
    {
      true
    }

    function EnterDepth(depth: u32): (ok: bool)
      ensures ok
    {
      true
    }
  }

  /** `Depth(limit)`: lets the search start a tier only below `limit`. */
  datatype Depth = Depth(limit: u32) {
    function Step(): (ok: bool)
      ensures ok
    {
      true
    }

    function EnterDepth(depth: u32): (ok: bool)
      ensures ok <==> depth < limit
    {
      limit > depth
    }
  }

  /** `InnerSteps(taken, limit)`: the condition `Steps(limit)` converts into. */
  class InnerSteps {
    var taken: u32
    const limit: u32

    constructor (taken: u32, limit: u32)
      ensures this.taken == taken && this.limit == limit
    {
      this.taken := taken;
      this.limit := limit;
    }

    /** Counts this call, then allows it only while the count is below the limit. */
    method Step() returns (ok: bool)
      modifies this
      ensures taken == WrappingIncrement(old(taken))
      ensures ok <==> taken < limit
    {
      taken := WrappingIncrement(taken);
      ok := taken < limit;
    }

    /** A step budget never refuses a depth tier, and the call changes nothing. */
    method EnterDepth(depth: u32) returns (ok: bool)
      ensures ok
    {
      ok := true;
    }
  }

  /** Some run condition: one of the three deterministic built-in ones. */
  datatype Condition =
    | Completion(completion: ToCompletion)
    | Counter(counter: InnerSteps)
    | Limit(depth: Depth)
  {
    /** The objects a poll of this condition may change. */
    function Footprint(): set<object> {
      if Counter? then {counter} else {}
    }

    /** The condition's current state as a value. */
    ghost function Snapshot(): State
      reads Footprint()
    {
      match this
      case Completion(t) => CompletionState(t)
      case Counter(c) => StepsState(c.taken, c.limit)
      case Limit(d) => DepthState(d)
    }

    /** `RunCondition::step`, dispatched to the condition at hand. */
    method Step() returns (ok: bool)
      modifies Footprint()
      ensures (Snapshot(), ok) == Respond(old(Snapshot()), StepPoll)
    {
      match this
      case Completion(t) => ok := t.Step();
      case Counter(c) => ok := c.Step();
      case Limit(d) => ok := d.Step();
    }

    /** `RunCondition::depth`, dispatched to the condition at hand. */
    method EnterDepth(depth: u32) returns (ok: bool)
      modifies Footprint()
      ensures (Snapshot(), ok) == Respond(old(Snapshot()), DepthPoll(depth))
    {
      match this
      case Completion(t) => ok := t.EnterDepth(depth);
      case Counter(c) => ok := c.EnterDepth(depth);
      case Limit(d) => ok := d.EnterDepth(depth);
    }
  }

  /** Anything `IntoRunCondition` is implemented for, among the modelled types. */
  datatype Descriptor =
    | StepsBudget(steps: Steps)
    | Ready(condition: Condition)

  /**
   * `into_run_condition`: `Steps(n)` becomes a fresh `InnerSteps(0, n)`; a value
   * that already is a run condition is returned as it is (the blanket impl).
   */
  method IntoRunCondition(d: Descriptor) returns (c: Condition)
    ensures d.Ready? ==> c == d.condition
    ensures d.StepsBudget? ==>
      c.Counter? && fresh(c.counter) && c.Snapshot() == StepsState(0, d.steps.n)
  {
    match d
    case StepsBudget(s) =>
      var counter := new InnerSteps(0, s.n);
      c := Counter(counter);
    case Ready(condition) =>
      c := condition;
  }

  // ---------------------------------------------------------------------------
  // The same conditions as a transition on values
  // ---------------------------------------------------------------------------

  /** The state of a run condition. */
  datatype State =
    | CompletionState(completion: ToCompletion)
    | StepsState(taken: u32, limit: u32)
    | DepthState(depth: Depth)

  /** One question the search asks: "may I expand a node?" or "may I start tier `depth`?". */
  datatype Poll = StepPoll | DepthPoll(depth: u32)

  /** The answer to one poll, and the state after it. */
  function Respond(s: State, p: Poll): (State, bool) {
    match s
    case CompletionState(t) =>
      (s, if p.StepPoll? then t.Step() else t.EnterDepth(p.depth))
    case DepthState(d) =>
      (s, if p.StepPoll? then d.Step() else d.EnterDepth(p.depth))
    case StepsState(taken, limit) =>
      if p.StepPoll? then
        var t := WrappingIncrement(taken);
        (StepsState(t, limit), t < limit)
      else
        (s, true)
  }

  /** The answers to a sequence of polls, one per poll, and the final state. */
  function Run(s: State, polls: seq<Poll>): (r: (seq<bool>, State))
    ensures |r.0| == |polls|
    decreases |polls|
  {
    if polls == [] then ([], s)
    else
      var (s', ok) := Respond(s, polls[0]);
      var (rest, last) := Run(s', polls[1..]);
      ([ok] + rest, last)
  }

  /** The number of step polls in `polls`. */
  function CountSteps(polls: seq<Poll>): nat
    decreases |polls|
  {
    if polls == [] then 0
    else (if polls[0].StepPoll? then 1 else 0) + CountSteps(polls[1..])
  }

  /** `k` step polls in a row. */
  function StepPolls(k: nat): (polls: seq<Poll>)
    ensures |polls| == k && forall i :: 0 <= i < k ==> polls[i] == StepPoll
  {
    seq(k, _ => StepPoll)
  }

  /** The number of `true` answers. */
  function CountTrue(answers: seq<bool>): nat
    decreases |answers|
  {
    if answers == [] then 0
    else CountTrue(answers[..|answers| - 1]) + (if answers[|answers| - 1] then 1 else 0)
  }

  // ---------------------------------------------------------------------------
  // Properties
  // ---------------------------------------------------------------------------

  lemma {:induction false} CountStepsCons(p: Poll, polls: seq<Poll>)
    ensures CountSteps([p] + polls) == (if p.StepPoll? then 1 else 0) + CountSteps(polls)
  {
    assert ([p] + polls)[1..] == polls;
  }

  lemma {:induction false} CountStepsAll(k: nat)
    ensures CountSteps(StepPolls(k)) == k
  {
    if k > 0 {
      assert StepPolls(k) == [StepPoll] + StepPolls(k - 1);
      CountStepsCons(StepPoll, StepPolls(k - 1));
      CountStepsAll(k - 1);
    }
  }

  /**
   * A step counter answers a step poll with "the number of steps taken so far,
   * this one included, is below the limit", and every depth poll with true;
   * its count goes up by one per step poll. Holds while the count cannot wrap.
   */
  lemma {:induction false} StepsRun(taken: u32, limit: u32, polls: seq<Poll>)
    requires taken as int + CountSteps(polls) <= U32_MAX as int
    decreases |polls|
    ensures Run(StepsState(taken, limit), polls).1
         == StepsState((taken as int + CountSteps(polls)) as u32, limit)
    ensures forall i :: 0 <= i < |polls| ==>
      Run(StepsState(taken, limit), polls).0[i]
        == (polls[i].DepthPoll? || taken as int + CountSteps(polls[..i + 1]) < limit as int)
  {
    if polls != [] {
      var p, rest := polls[0], polls[1..];
      assert polls == [p] + rest;
      CountStepsCons(p, rest);
      var (s', ok) := Respond(StepsState(taken, limit), p);
      var t: u32 := if p.StepPoll? then taken + 1 else taken;
      assert s' == StepsState(t, limit);
      StepsRun(t, limit, rest);
      forall i | 0 <= i < |polls|
        ensures Run(StepsState(taken, limit), polls).0[i]
             == (polls[i].DepthPoll? || taken as int + CountSteps(polls[..i + 1]) < limit as int)
      {
        if i == 0 {
          assert polls[..1] == [p] + [];
          CountStepsCons(p, []);
        } else {
          assert polls[..i + 1] == [p] + rest[..i];
          CountStepsCons(p, rest[..i]);
        }
      }
    }
  }

  /**
   * After `Steps(n)` is converted, the k-th call to `step` (counting from 1)
   * answers `k < n`, as long as the counter does not wrap.
   */
  lemma StepsKthCall(n: u32, k: nat)
    requires k <= U32_MAX as int
    ensures forall i :: 0 <= i < k ==> Run(StepsState(0, n), StepPolls(k)).0[i] == (i + 1 < n as int)
  {
    CountStepsAll(k);
    StepsRun(0, n, StepPolls(k));
    forall i | 0 <= i < k ensures Run(StepsState(0, n), StepPolls(k)).0[i] == (i + 1 < n as int) {
      assert StepPolls(k)[..i + 1] == StepPolls(i + 1);
      CountStepsAll(i + 1);
    }
  }

  /** A sequence that is true exactly on its first `m` positions has `min(m, length)` trues. */
  lemma {:induction false} CountTruePrefix(answers: seq<bool>, m: nat)
    requires forall i :: 0 <= i < |answers| ==> answers[i] == (i < m)
    ensures CountTrue(answers) == if m < |answers| then m else |answers|
  {
    if answers != [] {
      CountTruePrefix(answers[..|answers| - 1], m);
    }
  }

  /**
   * Of any number of step calls on `Steps(n)`, at most `n - 1` answer true:
   * `Steps(0)` and `Steps(1)` never allow a single step.
   */
  lemma StepsAllowsNMinusOne(n: u32, k: nat)
    requires k <= U32_MAX as int
    ensures var allowed := if n == 0 then 0 else n as int - 1;
      CountTrue(Run(StepsState(0, n), StepPolls(k)).0) == if k < allowed then k else allowed
  {
    StepsKthCall(n, k);
    var allowed := if n == 0 then 0 else n as int - 1;
    CountTruePrefix(Run(StepsState(0, n), StepPolls(k)).0, allowed);
  }

  /**
   * Once a step counter answers a step poll with false, every later step poll
   * is refused too (while the count cannot wrap); depth polls stay allowed.
   */
  lemma StepsStayExhausted(s: State, polls: seq<Poll>)
    requires s.StepsState? && !Respond(s, StepPoll).1
    requires s.taken as int + 1 + CountSteps(polls) <= U32_MAX as int
    ensures forall i :: 0 <= i < |polls| ==>
      Run(Respond(s, StepPoll).0, polls).0[i] == polls[i].DepthPoll?
  {
    StepsRun(s.taken + 1, s.limit, polls);
  }

  /** `ToCompletion` answers every poll with true and never changes. */
  lemma {:induction false} CompletionRun(t: ToCompletion, polls: seq<Poll>)
    ensures Run(CompletionState(t), polls).1 == CompletionState(t)
    ensures forall i :: 0 <= i < |polls| ==> Run(CompletionState(t), polls).0[i]
  {
    if polls != [] {
      CompletionRun(t, polls[1..]);
    }
  }

  /**
   * `Depth(limit)` allows every step and a tier `d` exactly when `d < limit`,
   * and never changes.
   */
  lemma {:induction false} DepthRun(d: Depth, polls: seq<Poll>)
    ensures Run(DepthState(d), polls).1 == DepthState(d)
    ensures forall i :: 0 <= i < |polls| ==>
      Run(DepthState(d), polls).0[i] == (polls[i].StepPoll? || polls[i].depth < d.limit)
  {
    if polls != [] {
      DepthRun(d, polls[1..]);
    }
  }

  /** `Depth(0)` refuses every tier, so the search never starts one. */
  lemma DepthZeroRefusesAllTiers(polls: seq<Poll>)
    ensures forall i :: 0 <= i < |polls| && polls[i].DepthPoll? ==>
      !Run(DepthState(Depth(0)), polls).0[i]
  {
    DepthRun(Depth(0), polls);
  }
}
