/** Every event of an advised call tells what the environment answered at its
    place in the run: no hook, publication, step of a transaction or target
    method is left out, invented or answered for by something else. */
module HookAnswers {
  import opened Advice

  /** The aspects of a chain that are the framework's own: their hooks do not
      raise, but for a publication. */
  function Managed(r: Runnable): set<nat> {
    match r
    case Method => {}
    case Advisor(a, next) => (if a.kind.Plain? then {} else {a.id}) + Managed(next)
  }

  predicate Told(env: Environment, managed: set<nat>, i: nat, id: nat, signal: Signal) {
    signal == env.hook(i) || (id in managed && signal.Returns?)
  }

  /** The event at place `i` of a run is true of the environment. */
  predicate True(env: Environment, managed: set<nat>, i: nat, e: Event) {
    match e
    case Before(id, signal) => Told(env, managed, i, id, signal)
    case AroundEnded(_, _) => true
    case AfterReturning(id, signal) => id in managed || signal == env.hook(i)
    case AfterRaising(id, _, signal) => Told(env, managed, i, id, signal)
    case After(id, signal) => Told(env, managed, i, id, signal)
    case Invoked(result) => result == env.target(i).result
    case Initialized(signal) => signal == env.hook(i)
    case Committed(signal) => signal == env.hook(i)
    case RolledBack(signal) => signal == env.hook(i)
    case Disposed(signal) => signal == env.hook(i)
    case Published(_, signal) => signal == env.hook(i)
  }

  predicate AllTrue(env: Environment, managed: set<nat>, trace: seq<Event>) {
    forall i | 0 <= i < |trace| :: True(env, managed, i, trace[i])
  }

  predicate Known(managed: set<nat>, a: Aspect) {
    a.kind.Plain? || a.id in managed
  }

  lemma {:induction false} EmitTrue(env: Environment, managed: set<nat>, s: State, e: Event)
    requires AllTrue(env, managed, s.trace) && True(env, managed, |s.trace|, e)
    ensures AllTrue(env, managed, Emit(s, e).trace)
  {
    var t := Emit(s, e).trace;
    forall i | 0 <= i < |t|
      ensures True(env, managed, i, t[i])
    {
      if i < |s.trace| {
        assert t[i] == s.trace[i];
      }
    }
  }

  lemma {:induction false} DisposeTrue(env: Environment, managed: set<nat>, s: State, result: Result)
    requires AllTrue(env, managed, s.trace)
    ensures AllTrue(env, managed, Dispose(env, s, result).0.trace)
  {
    EmitTrue(env, managed, s, Disposed(env.hook(|s.trace|)));
  }

  lemma {:induction false} CompleteTrue(env: Environment, managed: set<nat>, s: State, result: Result)
    requires AllTrue(env, managed, s.trace)
    ensures AllTrue(env, managed, Complete(env, s, result).0.trace)
  {
    var e := Committed(env.hook(|s.trace|));
    var s1 := Emit(s, e);
    EmitTrue(env, managed, s, e);
    if e.signal.Returns? {
      DisposeTrue(env, managed, s1, result);
    } else {
      var undo := RolledBack(env.hook(|s1.trace|));
      EmitTrue(env, managed, s1, undo);
      var failed := Raised(if undo.signal.Raises? then undo.signal.failure else e.signal.failure);
      DisposeTrue(env, managed, Emit(s1, undo), failed);
    }
  }

  lemma {:induction false} ExitTrue(env: Environment, managed: set<nat>, s: State, autocommit: bool, result: Result)
    requires AllTrue(env, managed, s.trace)
    ensures AllTrue(env, managed, ExitTransaction(env, s, autocommit, result).0.trace)
  {
    if result.Raised? {
      var e := RolledBack(env.hook(|s.trace|));
      EmitTrue(env, managed, s, e);
      DisposeTrue(env, managed, Emit(s, e), result);
    } else if autocommit {
      CompleteTrue(env, managed, s, result);
    } else {
      DisposeTrue(env, managed, s, result);
    }
  }

  lemma {:induction false} PublishEventsTrue(env: Environment, managed: set<nat>, s: State, events: seq<int>)
    requires AllTrue(env, managed, s.trace)
    ensures AllTrue(env, managed, PublishEvents(env, s, events).0.trace)
    decreases |events|
  {
    if events != [] {
      var e := Published(events[0], env.hook(|s.trace|));
      EmitTrue(env, managed, s, e);
      if e.signal.Returns? { PublishEventsTrue(env, managed, Emit(s, e), events[1..]); }
    }
  }

  lemma {:induction false} PublishAllTrue(env: Environment, managed: set<nat>, s: State, aggregates: seq<nat>)
    requires AllTrue(env, managed, s.trace)
    ensures AllTrue(env, managed, PublishAll(env, s, aggregates).0.trace)
    decreases |aggregates|
  {
    if aggregates != [] {
      PublishEventsTrue(env, managed, s, EventsOf(s.pending, aggregates[0]));
      var (s1, signal) := PublishEvents(env, s, EventsOf(s.pending, aggregates[0]));
      if signal.Returns? {
        PublishAllTrue(env, managed, s1.(pending := s1.pending[aggregates[0] := []]), aggregates[1..]);
      }
    }
  }

  lemma {:induction false} FinallyTrue(env: Environment, managed: set<nat>, s: State, a: Aspect, result: Result)
    requires AllTrue(env, managed, s.trace) && Known(managed, a)
    ensures AllTrue(env, managed, Finally(env, s, a, result).0.trace)
  {
    EmitTrue(env, managed, s, After(a.id, HookSignal(env, s, a.kind)));
  }

  lemma {:induction false} ExceptTrue(env: Environment, managed: set<nat>, s: State, a: Aspect, failure: Failure)
    requires AllTrue(env, managed, s.trace) && Known(managed, a)
    ensures AllTrue(env, managed, Except(env, s, a, failure).0.trace)
  {
    if failure.fatal {
      FinallyTrue(env, managed, s, a, Raised(failure));
    } else {
      var signal := HookSignal(env, s, a.kind);
      var e := AfterRaising(a.id, failure, signal);
      EmitTrue(env, managed, s, e);
      FinallyTrue(env, managed, Emit(s, e), a, Raised(if signal.Raises? then signal.failure else failure));
    }
  }

  lemma {:induction false} ConcludeTrue(env: Environment, managed: set<nat>, s: State, a: Aspect, result: Result)
    requires AllTrue(env, managed, s.trace) && Known(managed, a)
    ensures AllTrue(env, managed, Conclude(env, s, a, result).0.trace)
  {
    var s0 := Emit(s, AroundEnded(a.id, result));
    EmitTrue(env, managed, s, AroundEnded(a.id, result));
    if result.Value? {
      PublishAllTrue(env, managed, s0, s0.collected);
      var (s1, signal) :=
        if a.kind.Publishing? then PublishAll(env, s0, s0.collected) else (s0, HookSignal(env, s0, a.kind));
      var e := AfterReturning(a.id, signal);
      EmitTrue(env, managed, s1, e);
      if signal.Returns? {
        FinallyTrue(env, managed, Emit(s1, e), a, result);
      } else {
        ExceptTrue(env, managed, Emit(s1, e), a, signal.failure);
      }
    } else {
      ExceptTrue(env, managed, s0, a, result.failure);
    }
  }

  lemma {:induction false} ExecTrue(env: Environment, managed: set<nat>, s: State, r: Runnable)
    requires AllTrue(env, managed, s.trace) && Managed(r) <= managed
    ensures AllTrue(env, managed, Exec(env, s, r).0.trace)
    decreases r, 1, 0
  {
    match r
    case Method => EmitTrue(env, managed, s, Invoked(env.target(|s.trace|).result));
    case Advisor(a, next) =>
      assert Known(managed, a);
      var e := Before(a.id, HookSignal(env, s, a.kind));
      EmitTrue(env, managed, s, e);
      if e.signal.Returns? {
        var s1 := Emit(s, e);
        AroundTrue(env, managed, s1, a, next);
        var (s2, result) := RunAround(env, s1, a, next);
        ConcludeTrue(env, managed, s2, a, result);
      }
  }

  lemma {:induction false} AroundTrue(env: Environment, managed: set<nat>, s: State, a: Aspect, next: Runnable)
    requires AllTrue(env, managed, s.trace) && Managed(next) <= managed
    ensures AllTrue(env, managed, RunAround(env, s, a, next).0.trace)
    decreases next, 3, 0
  {
    match a.kind
    case Plain => ProceedTrue(env, managed, s, next, env.plan(|s.trace|).calls);
    case Publishing => ExecTrue(env, managed, s, next);
    case Transactional(autocommit) =>
      var e := Initialized(env.hook(|s.trace|));
      EmitTrue(env, managed, s, e);
      if e.signal.Returns? {
        ExecTrue(env, managed, Emit(s, e), next);
        var (s2, result) := Exec(env, Emit(s, e), next);
        ExitTrue(env, managed, s2, autocommit, result);
      }
  }

  lemma {:induction false} ProceedTrue(env: Environment, managed: set<nat>, s: State, next: Runnable, calls: nat)
    requires AllTrue(env, managed, s.trace) && Managed(next) <= managed
    ensures AllTrue(env, managed, Proceed(env, s, next, calls).0.trace)
    decreases next, 2, calls
  {
    if calls > 0 {
      ProceedTrue(env, managed, s, next, calls - 1);
      ExecTrue(env, managed, Proceed(env, s, next, calls - 1).0, next);
    }
  }

  /** In every run of every chain, each event holds what the environment answers at
      its place: the hooks of plain aspects, publications, the steps of the
      transaction and the target method; hooks that the framework's own aspects
      do not define return. */
  lemma {:induction false} EveryEventIsTrue(env: Environment, s: State, r: Runnable, i: nat)
    requires s.trace == [] && i < |Exec(env, s, r).0.trace|
    ensures True(env, Managed(r), i, Exec(env, s, r).0.trace[i])
  {
    ExecTrue(env, Managed(r), s, r);
  }
}
