/** Advice chains (core/spakky/src/spakky/core/aop/advisor.py and
    core/spakky/src/spakky/core/aop/post_processor.py), together with the two
    aspects that manage transactions and publish domain events
    (core/spakky-data/src/spakky/data/aspects/transactional.py,
    core/spakky-event/src/spakky/event/aspects/transactional_event_publishing.py).

    A call leaves a trace of every hook it ran.  What hooks, transactions,
    publishers and target methods answer is drawn from an environment indexed
    by the position in the trace, so every pattern of raises is covered. */
module Advice {
  /** `fatal` failures are BaseExceptions that are not Exceptions. */
  datatype Failure = Failure(code: int, fatal: bool)

  datatype Result = Value(v: int) | Raised(failure: Failure)

  /** How a hook ends. */
  datatype Signal = Returns | Raises(failure: Failure)

  datatype Kind = Plain | Transactional(autocommit: bool) | Publishing

  datatype Aspect = Aspect(id: nat, order: int, kind: Kind)

  datatype Runnable = Method | Advisor(aspect: Aspect, next: Runnable)

  /** A plain aspect's `around` proceeds any number of times and makes any
      answer of what it got; the default proceeds once and passes it on. */
  datatype Plan = Plan(calls: nat, answer: seq<Result> -> Result)

  /** What the target method does: it collects aggregates, which raised events. */
  datatype Work = Work(raised: seq<(nat, int)>, collected: seq<nat>, result: Result)

  datatype Environment = Environment(
    hook: nat -> Signal,
    plan: nat -> Plan,
    target: nat -> Work)

  datatype Event =
    | Before(id: nat, signal: Signal)
    | AroundEnded(id: nat, result: Result)
    | AfterReturning(id: nat, signal: Signal)
    | AfterRaising(id: nat, failure: Failure, signal: Signal)
    | After(id: nat, signal: Signal)
    | Invoked(result: Result)
    | Initialized(signal: Signal)
    | Committed(signal: Signal)
    | RolledBack(signal: Signal)
    | Disposed(signal: Signal)
    | Published(event: int, signal: Signal)

  /** The trace, the collected aggregates and the events each one holds. */
  datatype State = State(trace: seq<Event>, collected: seq<nat>, pending: map<nat, seq<int>>)

  function Emit(s: State, e: Event): State {
    s.(trace := s.trace + [e])
  }

  function EventsOf(pending: map<nat, seq<int>>, aggregate: nat): seq<int> {
    if aggregate in pending then pending[aggregate] else []
  }

  // ----- The target method -----

  function AddEvents(pending: map<nat, seq<int>>, raised: seq<(nat, int)>): map<nat, seq<int>>
    decreases |raised|
  {
    if raised == [] then pending
    else AddEvents(pending[raised[0].0 := EventsOf(pending, raised[0].0) + [raised[0].1]], raised[1..])
  }

  function RunTarget(env: Environment, s: State): (State, Result) {
    var work := env.target(|s.trace|);
    var trace := s.trace + [Invoked(work.result)];
    (State(trace, s.collected + work.collected, AddEvents(s.pending, work.raised)), work.result)
  }

  // ----- Transactions -----

  /** `__exit__` after the body ended with `result`. */
  function ExitTransaction(env: Environment, s: State, autocommit: bool, result: Result): (State, Result) {
    if result.Raised? then Abandon(env, s, result)
    else if autocommit then Complete(env, s, result)
    else Dispose(env, s, result)
  }

  /** The body raised: roll back, then dispose.  A rollback that raises skips it. */
  function Abandon(env: Environment, s: State, result: Result): (State, Result) {
    var signal := env.hook(|s.trace|);
    var s1 := Emit(s, RolledBack(signal));
    if signal.Raises? then (s1, Raised(signal.failure)) else Dispose(env, s1, result)
  }

  /** The body returned: commit, roll back if that raises, dispose in any case. */
  function Complete(env: Environment, s: State, result: Result): (State, Result) {
    var signal := env.hook(|s.trace|);
    var s1 := Emit(s, Committed(signal));
    if signal.Returns? then Dispose(env, s1, result)
    else
      var undo := env.hook(|s1.trace|);
      Dispose(env, Emit(s1, RolledBack(undo)), Raised(if undo.Raises? then undo.failure else signal.failure))
  }

  function Dispose(env: Environment, s: State, result: Result): (State, Result) {
    var signal := env.hook(|s.trace|);
    (Emit(s, Disposed(signal)), if signal.Raises? then Raised(signal.failure) else result)
  }

  // ----- Event publishing -----

  /** Publish one aggregate's events until the publisher raises. */
  function PublishEvents(env: Environment, s: State, events: seq<int>): (State, Signal)
    decreases |events|
  {
    if events == [] then (s, Returns)
    else
      var signal := env.hook(|s.trace|);
      var s1 := Emit(s, Published(events[0], signal));
      if signal.Raises? then (s1, signal) else PublishEvents(env, s1, events[1..])
  }

  /** Publish and clear the events of every collected aggregate in turn. */
  function PublishAll(env: Environment, s: State, aggregates: seq<nat>): (State, Signal)
    decreases |aggregates|
  {
    if aggregates == [] then (s, Returns)
    else
      var (s1, signal) := PublishEvents(env, s, EventsOf(s.pending, aggregates[0]));
      if signal.Raises? then (s1, signal)
      else PublishAll(env, s1.(pending := s1.pending[aggregates[0] := []]), aggregates[1..])
  }

  // ----- Hooks by kind of aspect -----

  function HookSignal(env: Environment, s: State, kind: Kind): Signal {
    if kind.Plain? then env.hook(|s.trace|) else Returns
  }

  function RunAfterReturning(env: Environment, s: State, a: Aspect): (State, Signal) {
    var (s1, signal) := if a.kind.Publishing? then PublishAll(env, s, s.collected) else (s, HookSignal(env, s, a.kind));
    (Emit(s1, AfterReturning(a.id, signal)), signal)
  }

  function RunAfter(env: Environment, s: State, a: Aspect): (State, Signal) {
    var signal := HookSignal(env, s, a.kind);
    var s1 := Emit(s, After(a.id, signal));
    (if a.kind.Publishing? then s1.(collected := []) else s1, signal)
  }

  // ----- The advisor -----

  /** Everything after `around`: the try body's rest, except and finally. */
  function Conclude(env: Environment, s: State, a: Aspect, result: Result): (State, Result) {
    var s0 := Emit(s, AroundEnded(a.id, result));
    if result.Value? then
      var (s1, signal) := RunAfterReturning(env, s0, a);
      match signal
      case Returns => Finally(env, s1, a, result)
      case Raises(failure) => Except(env, s1, a, failure)
    else Except(env, s0, a, result.failure)
  }

  function Except(env: Environment, s: State, a: Aspect, failure: Failure): (State, Result) {
    if failure.fatal then Finally(env, s, a, Raised(failure))
    else
      var signal := HookSignal(env, s, a.kind);
      var s1 := Emit(s, AfterRaising(a.id, failure, signal));
      Finally(env, s1, a, Raised(if signal.Raises? then signal.failure else failure))
  }

  function Finally(env: Environment, s: State, a: Aspect, result: Result): (State, Result) {
    var (s1, signal) := RunAfter(env, s, a);
    (s1, if signal.Raises? then Raised(signal.failure) else result)
  }

  function Exec(env: Environment, s: State, r: Runnable): (State, Result)
    decreases r, 1, 0
  {
    match r
    case Method => RunTarget(env, s)
    case Advisor(a, next) =>
      var signal := HookSignal(env, s, a.kind);
      var s1 := Emit(s, Before(a.id, signal));
      if signal.Raises? then (s1, Raised(signal.failure))
      else
        var (s2, result) := RunAround(env, s1, a, next);
        Conclude(env, s2, a, result)
  }

  function RunAround(env: Environment, s: State, a: Aspect, next: Runnable): (State, Result)
    decreases next, 3, 0
  {
    match a.kind
    case Plain =>
      var plan := env.plan(|s.trace|);
      var (s1, results) := Proceed(env, s, next, plan.calls);
      (s1, plan.answer(results))
    case Publishing => Exec(env, s, next)
    case Transactional(autocommit) =>
      var signal := env.hook(|s.trace|);
      var s1 := Emit(s, Initialized(signal));
      if signal.Raises? then (s1, Raised(signal.failure))
      else
        var (s2, result) := Exec(env, s1, next);
        ExitTransaction(env, s2, autocommit, result)
  }

  function Proceed(env: Environment, s: State, next: Runnable, calls: nat): (State, seq<Result>)
    decreases next, 2, calls
  {
    if calls == 0 then (s, [])
    else
      var (s1, results) := Proceed(env, s, next, calls - 1);
      var (s2, result) := Exec(env, s1, next);
      (s2, results + [result])
  }
}
