/** The saga execution engine (core/spakky-saga/src/spakky/saga/engine.py).

    The engine is a class whose methods update data, the list of compensable
    steps and the history.  Each method is specified by a function on `State`,
    and the properties of whole runs are proved about those functions in
    SagaProperties and SagaRecovery.  User callbacks are outcomes drawn from an
    `Environment`, indexed by a clock that ticks at every callback, so a
    statement for every environment is a statement for every run. */
module Saga {
  import opened Wrappers

  /** The business fields of saga data; the engine never looks inside. */
  type Business(!new, ==)

  datatype SagaData = SagaData(business: Business, snapshot: Option<string>)

  datatype Error = ActionError(code: int) | StepTimeout | AuthDenied

  // ----- Flow definitions -----

  datatype Strategy = Compensate | Skip | Retry(maxAttempts: int, base: real, thenSkip: bool)

  type Requirement(!new, ==)

  /** Effective auth metadata of a callback. */
  datatype Boundary = Boundary(guarded: bool, requirements: seq<Requirement>)

  /** A normalized step; `callback` is the identity of its action. */
  datatype Step = Step(
    name: string,
    callback: nat,
    compensable: bool,
    onError: Strategy,
    hasTimeout: bool,
    auth: Option<Boundary>,
    compensateAuth: Option<Boundary>)

  datatype Item = Single(step: Step) | Group(steps: seq<Step>)

  datatype SagaFlow = SagaFlow(items: seq<Item>, hasTimeout: bool, hasFailureHandler: bool)

  /** Normalization refuses a parallel child with a strategy of its own. */
  predicate WellDefined(items: seq<Item>) {
    forall i | 0 <= i < |items| && items[i].Group? :: PlainGroup(items[i].steps)
  }

  predicate PlainGroup(steps: seq<Step>) {
    forall k | 0 <= k < |steps| :: steps[k].onError.Compensate?
  }

  // ----- The environment -----

  /** How an awaited action ends.  `Interrupted` is a cancellation, by the saga
      timeout or from outside; `Expired` is the step's own timeout. */
  datatype Outcome =
    | Returned(value: Option<SagaData>)
    | Raised(error: Error)
    | Expired
    | Interrupted(byTimeout: bool)

  datatype UndoOutcome = UndoDone | UndoRaised | UndoInterrupted(byTimeout: bool)

  datatype Environment = Environment(
    action: nat -> Outcome,
    undo: nat -> UndoOutcome,
    sleep: nat -> Option<bool>,
    order: (nat, nat) -> seq<nat>,
    hasVerifier: bool,
    accepts: (nat, string) -> bool,
    allows: (nat, string, Requirement) -> bool)
  {
    /** Parallel actions complete in some order of their positions. */
    ghost predicate Valid() {
      forall t: nat, n: nat :: IsOrder(order(t, n), n)
    }
  }

  ghost predicate IsOrder(order: seq<nat>, n: nat) {
    && |order| == n
    && (forall i | 0 <= i < n :: order[i] < n)
    && (forall i, j | 0 <= i < j < n :: order[i] != order[j])
    && (forall x: nat | x < n :: x in order)
  }

  // ----- What the engine does, seen from outside -----

  datatype StepStatus = Committed | Failed | Compensated

  datatype StepRecord = StepRecord(name: string, status: StepStatus)

  /** A backoff: the arguments of `delay_for`. */
  datatype Nap = Nap(base: real, attempt: nat)

  /** `Checked` is an authorization of `boundary` against `data` at a tick of
      the clock, with its verdict. */
  datatype Event =
    | Checked(step: Step, boundary: Option<Boundary>, data: SagaData, tick: nat, allowed: bool)
    | Started(step: Step, data: SagaData)
    | Finished(step: Step, data: SagaData, outcome: Outcome)
    | Replaced(data: SagaData)
    | Noted(step: Step, status: StepStatus)
    | Slept(nap: Nap)
    | UndoStarted(step: Step, data: SagaData)
    | Undone(step: Step, data: SagaData)
    | UndoFailed(step: Step, data: SagaData)
    | HandlerCalled(data: SagaData)

  datatype State = State(
    data: SagaData,
    compensable: seq<Step>,
    history: seq<StepRecord>,
    trace: seq<Event>,
    clock: nat)

  function Initial(data: SagaData): State {
    State(data, [], [], [], 0)
  }

  function Emit(s: State, e: Event): State {
    s.(trace := s.trace + [e])
  }

  function Tick(s: State): State {
    s.(clock := s.clock + 1)
  }

  function Note(s: State, step: Step, status: StepStatus): State {
    Emit(s.(history := s.history + [StepRecord(step.name, status)]), Noted(step, status))
  }

  // ----- Authorization -----

  /** What `authorize_step` demands, as one condition. */
  ghost predicate Authorized(env: Environment, clock: nat, boundary: Option<Boundary>, data: SagaData) {
    boundary.Some? && boundary.value.guarded ==>
      && data.snapshot.Some? && data.snapshot.value != ""
      && env.hasVerifier && env.accepts(clock, data.snapshot.value)
      && forall r | r in boundary.value.requirements :: env.allows(clock, data.snapshot.value, r)
  }

  method AuthorizeStep(env: Environment, clock: nat, boundary: Option<Boundary>, data: SagaData)
    returns (allowed: bool)
    ensures allowed <==> Authorized(env, clock, boundary, data)
  {
    if boundary.None? {
      return true;
    }
    if !boundary.value.guarded {
      return true;
    }
    if data.snapshot.None? || data.snapshot.value == "" {
      return false;
    }
    if !env.hasVerifier {
      return false;
    }
    if !env.accepts(clock, data.snapshot.value) {
      return false;
    }
    var requirements := boundary.value.requirements;
    for i := 0 to |requirements|
      invariant forall k | 0 <= k < i :: env.allows(clock, data.snapshot.value, requirements[k])
    {
      if !env.allows(clock, data.snapshot.value, requirements[i]) {
        return false;
      }
    }
    return true;
  }

  /** An authorization takes one tick. */
  function Check(s: State, step: Step, boundary: Option<Boundary>, allowed: bool): State {
    Tick(Emit(s, Checked(step, boundary, s.data, s.clock, allowed)))
  }

  // ----- Steps -----

  function Preserve(current: SagaData, next: SagaData): SagaData {
    if next.snapshot.Some? then next
    else if current.snapshot.None? then next
    else next.(snapshot := current.snapshot)
  }

  function Settled(step: Step, raw: Outcome): Outcome {
    if raw.Expired? then (if step.hasTimeout then Raised(StepTimeout) else Raised(ActionError(0))) else raw
  }

  /** Authorize, then invoke. */
  ghost function Attempt(env: Environment, s: State, step: Step): (r: (State, Outcome))
    ensures !r.1.Expired?
  {
    if !Authorized(env, s.clock, step.auth, s.data) then
      (Check(s, step, step.auth, false), Raised(AuthDenied))
    else
      var outcome := Settled(step, env.action(s.clock));
      var s1 := Emit(Check(s, step, step.auth, true), Started(step, s.data));
      (Emit(s1, Finished(step, s.data, outcome)), outcome)
  }

  function Remember(s: State, step: Step): State {
    if step.compensable then s.(compensable := s.compensable + [step]) else s
  }

  function Replace(s: State, value: Option<SagaData>): State {
    if value.None? then s
    else Emit(s.(data := Preserve(s.data, value.value)), Replaced(Preserve(s.data, value.value)))
  }

  function Commit(s: State, step: Step, value: Option<SagaData>): State {
    Remember(Note(Replace(s, value), step, Committed), step)
  }

  /** How a step leaves the run. */
  datatype Flow = Continue | Stop(name: string, error: Error) | Abort(byTimeout: bool)

  function Doze(s: State, nap: Nap): State {
    Tick(Emit(s, Slept(nap)))
  }

  /** Back off, then attempt again; a cut sleep ends like a cut action. */
  ghost function AttemptAgain(env: Environment, s: State, step: Step, attempt: nat): (r: (State, Outcome))
    requires step.onError.Retry? && attempt >= 2
    ensures !r.1.Expired?
  {
    var s1 := Doze(s, Nap(step.onError.base, attempt - 1));
    if env.sleep(s.clock).Some? then (s1, Interrupted(env.sleep(s.clock).value))
    else Attempt(env, s1, step)
  }

  ghost function Retrying(env: Environment, s: State, step: Step, attempt: nat, last: Error): (State, Flow)
    requires step.onError.Retry? && attempt >= 2
    decreases step.onError.maxAttempts + 1 - attempt
  {
    if attempt > step.onError.maxAttempts then
      (s, if step.onError.thenSkip then Continue else Stop(step.name, last))
    else
      var (s1, outcome) := AttemptAgain(env, s, step, attempt);
      match outcome
      case Interrupted(byTimeout) => (s1, Abort(byTimeout))
      case Raised(error) => Retrying(env, Note(s1, step, Failed), step, attempt + 1, error)
      case Returned(value) => (Commit(s1, step, value), Continue)
  }

  /** Another attempt keeps `holds`, however it is settled. */
  ghost predicate AgainKeeps(env: Environment, s: State, step: Step, attempt: nat, holds: State -> bool)
    requires step.onError.Retry? && attempt >= 2
  {
    var (s1, outcome) := AttemptAgain(env, s, step, attempt);
    && (outcome.Interrupted? ==> holds(s1))
    && (outcome.Raised? ==> holds(Note(s1, step, Failed)))
    && (outcome.Returned? ==> holds(Commit(s1, step, outcome.value)))
  }

  /** What every further attempt keeps, retrying keeps. */
  lemma {:induction false} RetryingKeeps(
    env: Environment, s: State, step: Step, attempt: nat, last: Error, holds: State -> bool)
    requires step.onError.Retry? && attempt >= 2 && holds(s)
    requires forall x: State, a: nat :: a >= 2 && holds(x) ==> AgainKeeps(env, x, step, a, holds)
    ensures holds(Retrying(env, s, step, attempt, last).0)
    decreases step.onError.maxAttempts + 1 - attempt
  {
    if attempt <= step.onError.maxAttempts {
      assert AgainKeeps(env, s, step, attempt, holds);
      var (s1, outcome) := AttemptAgain(env, s, step, attempt);
      if outcome.Raised? {
        RetryingKeeps(env, Note(s1, step, Failed), step, attempt + 1, outcome.error, holds);
      }
    }
  }

  ghost function SerialStep(env: Environment, s: State, step: Step): (State, Flow) {
    var (s1, outcome) := Attempt(env, s, step);
    match outcome
    case Interrupted(byTimeout) => (s1, Abort(byTimeout))
    case Returned(value) => (Commit(s1, step, value), Continue)
    case Raised(error) =>
      var s2 := Note(s1, step, Failed);
      match step.onError
      case Skip => (s2, Continue)
      case Compensate => (s2, Stop(step.name, error))
      case Retry(_, _, _) => Retrying(env, s2, step, 2, error)
  }

  // ----- Parallel groups -----

  ghost function ChildOutcome(env: Environment, clock: nat, data: SagaData, step: Step): Outcome {
    if Authorized(env, clock, step.auth, data) then Settled(step, env.action(clock)) else Raised(AuthDenied)
  }

  ghost predicate AreOutcomes(env: Environment, clock: nat, data: SagaData, steps: seq<Step>, outcomes: seq<Outcome>) {
    && |outcomes| == |steps|
    && forall k | 0 <= k < |steps| :: outcomes[k] == ChildOutcome(env, clock + k, data, steps[k])
  }

  ghost function Outcomes(env: Environment, clock: nat, data: SagaData, steps: seq<Step>): (outcomes: seq<Outcome>)
    ensures AreOutcomes(env, clock, data, steps, outcomes)
  {
    seq(|steps|, k requires 0 <= k < |steps| => ChildOutcome(env, clock + k, data, steps[k]))
  }

  ghost function StartOne(env: Environment, s: State, step: Step): State {
    if Authorized(env, s.clock, step.auth, s.data)
    then Emit(Check(s, step, step.auth, true), Started(step, s.data))
    else Check(s, step, step.auth, false)
  }

  /** Children are authorized and started in declaration order. */
  ghost function StartAll(env: Environment, s: State, steps: seq<Step>): State
    decreases |steps|
  {
    if steps == [] then s else StartAll(env, StartOne(env, s, steps[0]), steps[1..])
  }

  /** A started child completes; `clock` is the tick at which it began. */
  ghost function FinishOne(env: Environment, s: State, clock: nat, step: Step): State {
    if Authorized(env, clock, step.auth, s.data)
    then Emit(s, Finished(step, s.data, Settled(step, env.action(clock))))
    else s
  }

  /** Started children complete in the order the environment picks; `clock` is
      the tick at which the group began. */
  ghost function FinishAll(env: Environment, s: State, clock: nat, steps: seq<Step>, order: seq<nat>): State
    requires forall i | 0 <= i < |order| :: order[i] < |steps|
    decreases |order|
  {
    if order == [] then s
    else FinishAll(env, FinishOne(env, s, clock + order[0], steps[order[0]]), clock, steps, order[1..])
  }

  function SettleOne(s: State, step: Step, outcome: Outcome): State {
    if outcome.Returned? then Remember(Note(s, step, Committed), step) else Note(s, step, Failed)
  }

  /** Results are settled in declaration order. */
  function SettleAll(s: State, steps: seq<Step>, outcomes: seq<Outcome>): State
    requires |steps| == |outcomes|
    decreases |steps|
  {
    if steps == [] then s else SettleAll(SettleOne(s, steps[0], outcomes[0]), steps[1..], outcomes[1..])
  }

  function FirstFailure(steps: seq<Step>, outcomes: seq<Outcome>): Option<Flow>
    requires |steps| == |outcomes|
    decreases |steps|
  {
    if steps == [] then None
    else if outcomes[0].Raised? then Some(Stop(steps[0].name, outcomes[0].error))
    else FirstFailure(steps[1..], outcomes[1..])
  }

  predicate AnyInterrupted(outcomes: seq<Outcome>) {
    exists k | 0 <= k < |outcomes| :: outcomes[k].Interrupted?
  }

  ghost function ParallelStep(env: Environment, s: State, steps: seq<Step>): (State, Flow)
    requires env.Valid()
  {
    var outcomes := Outcomes(env, s.clock, s.data, steps);
    var s1 := StartAll(env, s, steps);
    var s2 := FinishAll(env, s1, s.clock, steps, env.order(s.clock, |steps|));
    var s3 := SettleAll(s2, steps, outcomes);
    if AnyInterrupted(outcomes) then (s3, Abort(false))
    else
      var failure := FirstFailure(steps, outcomes);
      (s3, if failure.Some? then failure.value else Continue)
  }

  /** Starting a group advances only the trace and the clock. */
  lemma {:induction false} StartKeepsData(env: Environment, s: State, steps: seq<Step>)
    ensures var s1 := StartAll(env, s, steps);
            s1 == s.(trace := s1.trace, clock := s.clock + |steps|)
    decreases |steps|
  {
    if steps != [] {
      StartKeepsData(env, StartOne(env, s, steps[0]), steps[1..]);
    }
  }

  // ----- Runs -----

  ghost function ItemStep(env: Environment, s: State, item: Item): (State, Flow)
    requires env.Valid()
  {
    match item
    case Single(step) => SerialStep(env, s, step)
    case Group(steps) => ParallelStep(env, s, steps)
  }

  /** The forward phase: items in order until one ends the run. */
  ghost function Forward(env: Environment, s: State, items: seq<Item>): (State, Flow)
    requires env.Valid()
    decreases |items|
  {
    if items == [] then (s, Continue)
    else
      var (s1, flow) := ItemStep(env, s, items[0]);
      if flow.Continue? then Forward(env, s1, items[1..]) else (s1, flow)
  }

  datatype UndoResult = AllUndone | UndoBroken | UndoCut(byTimeout: bool)

  /** Authorize and run one compensation. */
  ghost function UndoOne(env: Environment, s: State, step: Step, handler: bool): (State, UndoResult) {
    if !Authorized(env, s.clock, step.compensateAuth, s.data) then
      (Escalate(Note(Check(s, step, step.compensateAuth, false), step, Failed), handler), UndoBroken)
    else
      var s1 := Emit(Check(s, step, step.compensateAuth, true), UndoStarted(step, s.data));
      match env.undo(s.clock)
      case UndoInterrupted(byTimeout) => (s1, UndoCut(byTimeout))
      case UndoRaised => (Escalate(Note(Emit(s1, UndoFailed(step, s.data)), step, Failed), handler), UndoBroken)
      case UndoDone => (Note(Emit(s1, Undone(step, s.data)), step, Compensated), AllUndone)
  }

  /** The compensation phase, for the first `k` compensable steps. */
  ghost function Undo(env: Environment, s: State, k: nat, handler: bool): (State, UndoResult)
    requires k <= |s.compensable|
    decreases k
  {
    if k == 0 then (s, AllUndone)
    else
      var (s1, result) := UndoOne(env, s, s.compensable[k - 1], handler);
      if result.AllUndone? then Undo(env, s1, k - 1, handler) else (s1, result)
  }

  function Escalate(s: State, handler: bool): State {
    if handler then Emit(s, HandlerCalled(s.data)) else s
  }

  datatype SagaResult =
    | Completed
    | FailedAt(name: string, error: Error)
    | TimedOut
    | CompensationFailed
    | Cancelled(byTimeout: bool)
    | FlowRejected

  ghost function RunItems(env: Environment, s: State, flow: SagaFlow): (State, SagaResult)
    requires env.Valid()
  {
    var (s1, end) := Forward(env, s, flow.items);
    match end
    case Continue => (s1, Completed)
    case Abort(byTimeout) => (s1, Cancelled(byTimeout))
    case Stop(name, error) =>
      var (s2, undone) := Undo(env, s1, |s1.compensable|, flow.hasFailureHandler);
      match undone
      case AllUndone => (s2, FailedAt(name, error))
      case UndoBroken => (s2, CompensationFailed)
      case UndoCut(byTimeout) => (s2, Cancelled(byTimeout))
  }

  ghost function Run(env: Environment, data: SagaData, flow: SagaFlow): (State, SagaResult)
    requires env.Valid()
  {
    var s := Initial(data);
    if !WellDefined(flow.items) then (s, FlowRejected)
    else
      var (s1, result) := RunItems(env, s, flow);
      if flow.hasTimeout && result == Cancelled(true) then
        var (s2, undone) := Undo(env, s1, |s1.compensable|, flow.hasFailureHandler);
        match undone
        case AllUndone => (s2, TimedOut)
        case UndoBroken => (s2, CompensationFailed)
        case UndoCut(byTimeout) => (s2, Cancelled(byTimeout))
      else (s1, result)
  }
}
