/** What every advised call keeps: the hooks of a chain are properly nested, in
    the order of the chain, whatever raises where.

    `Seen` is a monitor that replays a trace with a stack of open advisors and
    rejects it at the first event out of order.  It knows nothing of `Exec`. */
module AdviceOrder {
  import opened Wrappers
  import opened Advice

  /** Where one advisor stands. */
  datatype Phase =
    | Running                    // inside around
    | Answered(v: int)           // around returned, after_returning is due
    | Failing(failure: Failure)  // an Exception is on its way, after_raising is due
    | Ready(outcome: Result)     // only after is due

  datatype Frame = Frame(id: nat, phase: Phase)

  /** The open advisors, outermost first, and how the last finished call ended. */
  datatype Monitor = Monitor(stack: seq<Frame>, last: Option<Result>)

  predicate Accepting(stack: seq<Frame>) {
    stack == [] || stack[|stack| - 1].phase.Running?
  }

  function Failed(f: Failure): Phase {
    if f.fatal then Ready(Raised(f)) else Failing(f)
  }

  function Turn(m: Monitor, phase: Phase): Monitor
    requires m.stack != []
  {
    m.(stack := m.stack[..|m.stack| - 1] + [m.stack[|m.stack| - 1].(phase := phase)])
  }

  /** One event of a run of the chain `ids`, outermost first. */
  function Step(ids: seq<nat>, m: Monitor, e: Event): Option<Monitor> {
    var n := |m.stack|;
    match e
    case Before(id, signal) =>
      if !(Accepting(m.stack) && n < |ids| && ids[n] == id) then None
      else if signal.Raises? then Some(m.(last := Some(Raised(signal.failure))))
      else Some(m.(stack := m.stack + [Frame(id, Running)]))
    case Invoked(result) =>
      if Accepting(m.stack) && n == |ids| then Some(m.(last := Some(result))) else None
    case AroundEnded(id, result) =>
      if n == 0 || m.stack[n - 1] != Frame(id, Running) then None
      else Some(Turn(m, if result.Value? then Answered(result.v) else Failed(result.failure)))
    case AfterReturning(id, signal) =>
      if n == 0 || m.stack[n - 1].id != id || !m.stack[n - 1].phase.Answered? then None
      else Some(Turn(m, if signal.Raises? then Failed(signal.failure) else Ready(Value(m.stack[n - 1].phase.v))))
    case AfterRaising(id, failure, signal) =>
      if n == 0 || m.stack[n - 1] != Frame(id, Failing(failure)) then None
      else Some(Turn(m, Ready(Raised(if signal.Raises? then signal.failure else failure))))
    case After(id, signal) =>
      if n == 0 || m.stack[n - 1].id != id || !m.stack[n - 1].phase.Ready? then None
      else Some(Monitor(m.stack[..n - 1],
                        Some(if signal.Raises? then Raised(signal.failure) else m.stack[n - 1].phase.outcome)))
    case Published(_, _) =>
      if n > 0 && m.stack[n - 1].phase.Answered? then Some(m) else None
    case _ =>
      if n > 0 && m.stack[n - 1].phase.Running? then Some(m) else None
  }

  function Seen(ids: seq<nat>, trace: seq<Event>): Option<Monitor>
    decreases |trace|
  {
    if trace == [] then Some(Monitor([], None))
    else
      var m := Seen(ids, trace[..|trace| - 1]);
      if m.None? then None else Step(ids, m.value, trace[|trace| - 1])
  }

  function Ids(r: Runnable): seq<nat> {
    match r
    case Method => []
    case Advisor(a, next) => [a.id] + Ids(next)
  }

  lemma {:induction false} SeenOne(ids: seq<nat>, s: State, e: Event, m: Monitor)
    requires Seen(ids, s.trace) == Some(m)
    ensures Seen(ids, Emit(s, e).trace) == Step(ids, m, e)
  {
    var t := Emit(s, e).trace;
    assert t[..|t| - 1] == s.trace;
  }

  /** `s` is seen with `a` in `phase` on top of `stack`. */
  predicate At(ids: seq<nat>, s: State, stack: seq<Frame>, a: Aspect, phase: Phase) {
    var m := Seen(ids, s.trace);
    m.Some? && m.value.stack == stack + [Frame(a.id, phase)]
  }

  /** `s` is seen with exactly `stack` open and `result` just delivered. */
  predicate Back(ids: seq<nat>, s: State, stack: seq<Frame>, result: Result) {
    Seen(ids, s.trace) == Some(Monitor(stack, Some(result)))
  }

  /** `s` is seen with exactly `stack` open. */
  predicate Under(ids: seq<nat>, s: State, stack: seq<Frame>) {
    var m := Seen(ids, s.trace);
    m.Some? && m.value.stack == stack
  }

  lemma {:induction false} FinallyObeys(
      ids: seq<nat>, env: Environment, s: State, stack: seq<Frame>, a: Aspect, result: Result)
    requires At(ids, s, stack, a, Ready(result))
    ensures var (s1, r) := Finally(env, s, a, result); Back(ids, s1, stack, r)
  {
    var m := Seen(ids, s.trace).value;
    assert m.stack[..|m.stack| - 1] == stack;
    SeenOne(ids, s, After(a.id, HookSignal(env, s, a.kind)), m);
  }

  lemma {:induction false} TurnAt(m: Monitor, stack: seq<Frame>, a: Aspect, from: Phase, to: Phase)
    requires m.stack == stack + [Frame(a.id, from)]
    ensures Turn(m, to).stack == stack + [Frame(a.id, to)]
  {
    assert m.stack[..|m.stack| - 1] == stack;
  }

  lemma {:induction false} ExceptObeys(
      ids: seq<nat>, env: Environment, s: State, stack: seq<Frame>, a: Aspect, failure: Failure)
    requires At(ids, s, stack, a, Failed(failure))
    ensures var (s1, r) := Except(env, s, a, failure); Back(ids, s1, stack, r)
  {
    if failure.fatal {
      FinallyObeys(ids, env, s, stack, a, Raised(failure));
    } else {
      var m := Seen(ids, s.trace).value;
      var signal := HookSignal(env, s, a.kind);
      var raised := Raised(if signal.Raises? then signal.failure else failure);
      var e := AfterRaising(a.id, failure, signal);
      SeenOne(ids, s, e, m);
      TurnAt(m, stack, a, Failing(failure), Ready(raised));
      FinallyObeys(ids, env, Emit(s, e), stack, a, raised);
    }
  }

  lemma {:induction false} PublishEventsObeys(
      ids: seq<nat>, env: Environment, s: State, events: seq<int>, stack: seq<Frame>, a: Aspect, v: int)
    requires At(ids, s, stack, a, Answered(v))
    ensures At(ids, PublishEvents(env, s, events).0, stack, a, Answered(v))
    decreases |events|
  {
    if events != [] {
      var signal := env.hook(|s.trace|);
      var e := Published(events[0], signal);
      SeenOne(ids, s, e, Seen(ids, s.trace).value);
      if signal.Returns? {
        PublishEventsObeys(ids, env, Emit(s, e), events[1..], stack, a, v);
      }
    }
  }

  lemma {:induction false} PublishAllObeys(
      ids: seq<nat>, env: Environment, s: State, aggregates: seq<nat>, stack: seq<Frame>, a: Aspect, v: int)
    requires At(ids, s, stack, a, Answered(v))
    ensures At(ids, PublishAll(env, s, aggregates).0, stack, a, Answered(v))
    decreases |aggregates|
  {
    if aggregates != [] {
      var events := EventsOf(s.pending, aggregates[0]);
      PublishEventsObeys(ids, env, s, events, stack, a, v);
      var (s1, signal) := PublishEvents(env, s, events);
      if signal.Returns? {
        PublishAllObeys(ids, env, s1.(pending := s1.pending[aggregates[0] := []]), aggregates[1..], stack, a, v);
      }
    }
  }

  lemma {:induction false} AfterReturningObeys(
      ids: seq<nat>, env: Environment, s: State, stack: seq<Frame>, a: Aspect, v: int)
    requires At(ids, s, stack, a, Answered(v))
    ensures var (s1, signal) := RunAfterReturning(env, s, a);
            At(ids, s1, stack, a, if signal.Raises? then Failed(signal.failure) else Ready(Value(v)))
  {
    PublishAllObeys(ids, env, s, s.collected, stack, a, v);
    var (s1, signal) := if a.kind.Publishing? then PublishAll(env, s, s.collected) else (s, HookSignal(env, s, a.kind));
    var m := Seen(ids, s1.trace).value;
    SeenOne(ids, s1, AfterReturning(a.id, signal), m);
    TurnAt(m, stack, a, Answered(v), if signal.Raises? then Failed(signal.failure) else Ready(Value(v)));
  }

  lemma {:induction false} ConcludeObeys(
      ids: seq<nat>, env: Environment, s: State, stack: seq<Frame>, a: Aspect, result: Result)
    requires At(ids, s, stack, a, Running)
    ensures var (s1, r) := Conclude(env, s, a, result); Back(ids, s1, stack, r)
  {
    var m := Seen(ids, s.trace).value;
    var e := AroundEnded(a.id, result);
    var s0 := Emit(s, e);
    SeenOne(ids, s, e, m);
    TurnAt(m, stack, a, Running, if result.Value? then Answered(result.v) else Failed(result.failure));
    if result.Value? {
      AfterReturningObeys(ids, env, s0, stack, a, result.v);
      var (s1, signal) := RunAfterReturning(env, s0, a);
      if signal.Returns? {
        FinallyObeys(ids, env, s1, stack, a, result);
      } else {
        ExceptObeys(ids, env, s1, stack, a, signal.failure);
      }
    } else {
      ExceptObeys(ids, env, s0, stack, a, result.failure);
    }
  }

  /** Transaction events pass while the transactional advisor is inside around. */
  lemma {:induction false} ResourceObeys(ids: seq<nat>, s: State, e: Event, stack: seq<Frame>)
    requires Under(ids, s, stack) && stack != [] && Accepting(stack)
    requires e.Initialized? || e.Committed? || e.RolledBack? || e.Disposed?
    ensures Under(ids, Emit(s, e), stack)
  {
    SeenOne(ids, s, e, Seen(ids, s.trace).value);
  }

  lemma {:induction false} ExitObeys(
      ids: seq<nat>, env: Environment, s: State, autocommit: bool, result: Result, stack: seq<Frame>)
    requires Under(ids, s, stack) && stack != [] && Accepting(stack)
    ensures Under(ids, ExitTransaction(env, s, autocommit, result).0, stack)
  {
    if result.Raised? {
      AbandonObeys(ids, env, s, result, stack);
    } else if autocommit {
      CompleteObeys(ids, env, s, result, stack);
    } else {
      DisposeObeys(ids, env, s, result, stack);
    }
  }

  lemma {:induction false} AbandonObeys(ids: seq<nat>, env: Environment, s: State, result: Result, stack: seq<Frame>)
    requires Under(ids, s, stack) && stack != [] && Accepting(stack)
    ensures Under(ids, Abandon(env, s, result).0, stack)
  {
    var e := RolledBack(env.hook(|s.trace|));
    ResourceObeys(ids, s, e, stack);
    DisposeObeys(ids, env, Emit(s, e), result, stack);
  }

  lemma {:induction false} CompleteObeys(ids: seq<nat>, env: Environment, s: State, result: Result, stack: seq<Frame>)
    requires Under(ids, s, stack) && stack != [] && Accepting(stack)
    ensures Under(ids, Complete(env, s, result).0, stack)
  {
    var e := Committed(env.hook(|s.trace|));
    var s1 := Emit(s, e);
    ResourceObeys(ids, s, e, stack);
    DisposeObeys(ids, env, s1, result, stack);
    if e.signal.Raises? {
      var undo := RolledBack(env.hook(|s1.trace|));
      ResourceObeys(ids, s1, undo, stack);
      DisposeObeys(ids, env, Emit(s1, undo),
          Raised(if undo.signal.Raises? then undo.signal.failure else e.signal.failure), stack);
    }
  }

  lemma {:induction false} DisposeObeys(ids: seq<nat>, env: Environment, s: State, result: Result, stack: seq<Frame>)
    requires Under(ids, s, stack) && stack != [] && Accepting(stack)
    ensures Under(ids, Dispose(env, s, result).0, stack)
  {
    ResourceObeys(ids, s, Disposed(env.hook(|s.trace|)), stack);
  }

  // ----- Whole runs -----

  lemma {:induction false} ExecObeys(ids: seq<nat>, env: Environment, s: State, r: Runnable, stack: seq<Frame>)
    requires Under(ids, s, stack) && Accepting(stack)
    requires |stack| <= |ids| && ids[|stack|..] == Ids(r)
    ensures var (s1, result) := Exec(env, s, r); Back(ids, s1, stack, result)
    decreases r, 1, 0
  {
    var m := Seen(ids, s.trace).value;
    match r
    case Method =>
      var result := env.target(|s.trace|).result;
      SeenOne(ids, s, Invoked(result), m);
    case Advisor(a, next) =>
      var signal := HookSignal(env, s, a.kind);
      var e := Before(a.id, signal);
      assert ids[|stack|] == ids[|stack|..][0];
      SeenOne(ids, s, e, m);
      if signal.Returns? {
        var inner := stack + [Frame(a.id, Running)];
        var s1 := Emit(s, e);
        assert ids[|inner|..] == ids[|stack|..][1..];
        AroundObeys(ids, env, s1, a, next, inner);
        var (s2, result) := RunAround(env, s1, a, next);
        ConcludeObeys(ids, env, s2, stack, a, result);
      }
  }

  lemma {:induction false} AroundObeys(
      ids: seq<nat>, env: Environment, s: State, a: Aspect, next: Runnable, stack: seq<Frame>)
    requires Under(ids, s, stack) && Accepting(stack) && stack != []
    requires |stack| <= |ids| && ids[|stack|..] == Ids(next)
    ensures Under(ids, RunAround(env, s, a, next).0, stack)
    decreases next, 3, 0
  {
    match a.kind
    case Plain => ProceedObeys(ids, env, s, next, env.plan(|s.trace|).calls, stack);
    case Publishing => ExecObeys(ids, env, s, next, stack);
    case Transactional(autocommit) =>
      var e := Initialized(env.hook(|s.trace|));
      var s1 := Emit(s, e);
      ResourceObeys(ids, s, e, stack);
      if e.signal.Returns? {
        ExecObeys(ids, env, s1, next, stack);
        var (s2, result) := Exec(env, s1, next);
        ExitObeys(ids, env, s2, autocommit, result, stack);
      }
  }

  lemma {:induction false} ProceedObeys(
      ids: seq<nat>, env: Environment, s: State, next: Runnable, calls: nat, stack: seq<Frame>)
    requires Under(ids, s, stack) && Accepting(stack)
    requires |stack| <= |ids| && ids[|stack|..] == Ids(next)
    ensures Under(ids, Proceed(env, s, next, calls).0, stack)
    decreases next, 2, calls
  {
    if calls > 0 {
      ProceedObeys(ids, env, s, next, calls - 1, stack);
      ExecObeys(ids, env, Proceed(env, s, next, calls - 1).0, next, stack);
    }
  }

  /** Every run of every chain, whatever each hook does, is accepted by the
      monitor, leaves no advisor open and delivers what the monitor predicts. */
  lemma {:induction false} AdviceIsNested(env: Environment, s: State, r: Runnable)
    requires s.trace == []
    ensures var (s1, result) := Exec(env, s, r);
            Seen(Ids(r), s1.trace) == Some(Monitor([], Some(result)))
  {
    ExecObeys(Ids(r), env, s, r, []);
  }

  // ----- What acceptance means for counting hooks -----

  function Entered(trace: seq<Event>, id: nat): nat
    decreases |trace|
  {
    if trace == [] then 0
    else Entered(trace[..|trace| - 1], id) + (if trace[|trace| - 1] == Before(id, Returns) then 1 else 0)
  }

  function Left(trace: seq<Event>, id: nat): nat
    decreases |trace|
  {
    if trace == [] then 0
    else
      var e := trace[|trace| - 1];
      Left(trace[..|trace| - 1], id) + (if e.After? && e.id == id then 1 else 0)
  }

  function OpenFor(stack: seq<Frame>, id: nat): nat
    decreases |stack|
  {
    if stack == [] then 0
    else OpenFor(stack[..|stack| - 1], id) + (if stack[|stack| - 1].id == id then 1 else 0)
  }

  lemma {:induction false} PushCounts(stack: seq<Frame>, f: Frame, id: nat)
    ensures OpenFor(stack + [f], id) == OpenFor(stack, id) + (if f.id == id then 1 else 0)
  {
    assert (stack + [f])[..|stack|] == stack;
  }

  lemma {:induction false} TurnCounts(m: Monitor, phase: Phase, id: nat)
    requires m.stack != []
    ensures OpenFor(Turn(m, phase).stack, id) == OpenFor(m.stack, id)
  {
    var n := |m.stack|;
    PushCounts(m.stack[..n - 1], m.stack[n - 1].(phase := phase), id);
  }

  lemma {:induction false} TurningCounts(ids: seq<nat>, m: Monitor, e: Event, id: nat)
    requires e.AroundEnded? || e.AfterReturning? || e.AfterRaising?
    requires Step(ids, m, e).Some?
    ensures OpenFor(Step(ids, m, e).value.stack, id) == OpenFor(m.stack, id)
  {
    var phase := Step(ids, m, e).value.stack[|m.stack| - 1].phase;
    assert Step(ids, m, e) == Some(Turn(m, phase));
    TurnCounts(m, phase, id);
  }

  lemma {:induction false} StepCounts(ids: seq<nat>, m: Monitor, e: Event, id: nat)
    requires Step(ids, m, e).Some?
    ensures OpenFor(Step(ids, m, e).value.stack, id) + (if e.After? && e.id == id then 1 else 0)
         == OpenFor(m.stack, id) + (if e == Before(id, Returns) then 1 else 0)
  {
    if e.AroundEnded? || e.AfterReturning? || e.AfterRaising? {
      TurningCounts(ids, m, e, id);
    } else if e.Before? {
      PushCounts(m.stack, Frame(e.id, Running), id);
    }
  }

  lemma {:induction false} SeenCounts(ids: seq<nat>, trace: seq<Event>, id: nat)
    requires Seen(ids, trace).Some?
    ensures Left(trace, id) + OpenFor(Seen(ids, trace).value.stack, id) == Entered(trace, id)
    decreases |trace|
  {
    if trace != [] {
      var before := trace[..|trace| - 1];
      SeenCounts(ids, before, id);
      StepCounts(ids, Seen(ids, before).value, trace[|trace| - 1], id);
    }
  }

  /** `after` runs exactly once for every `before` that returned. */
  lemma {:induction false} AfterRunsOncePerBefore(env: Environment, s: State, r: Runnable, id: nat)
    requires s.trace == []
    ensures var t := Exec(env, s, r).0.trace; Left(t, id) == Entered(t, id)
  {
    AdviceIsNested(env, s, r);
    SeenCounts(Ids(r), Exec(env, s, r).0.trace, id);
  }
}
