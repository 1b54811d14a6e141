/** Transactions and event publishing inside an advice chain
    (core/spakky-data/src/spakky/data/persistency/transaction.py and
    core/spakky-event/src/spakky/event/aspects/transactional_event_publishing.py).

    `Audit` is a second monitor over the trace: it follows the life of the
    transaction and rejects a commit, rollback, dispose or publication that
    comes at the wrong time. */
module Transactions {
  import opened Wrappers
  import opened Advice
  import opened AdviceOrder

  datatype Stage =
    | Free      // no transaction
    | Open      // initialized, the body runs or has just ended
    | Aborting  // the commit raised, a rollback is due
    | Ending    // committed or rolled back, dispose is due

  /** `leaked` counts transactions that were abandoned without dispose. */
  datatype Ledger = Ledger(stage: Stage, begun: nat, disposed: nat, leaked: nat)

  function Close(l: Ledger): Ledger {
    l.(stage := Free, disposed := l.disposed + 1)
  }

  /** One event, with the outcome `last` of the call that finished before it. */
  function AuditStep(autocommit: bool, last: Option<Result>, l: Ledger, e: Event): Option<Ledger> {
    match e
    case Initialized(signal) =>
      if l.stage != Free then None
      else if signal.Raises? then Some(l) else Some(l.(stage := Open, begun := l.begun + 1))
    case Published(_, _) => if l.stage == Open then Some(l) else None
    case Committed(signal) =>
      if !(l.stage == Open && autocommit && last.Some? && last.value.Value?) then None
      else Some(l.(stage := if signal.Raises? then Aborting else Ending))
    case RolledBack(signal) =>
      if l.stage == Aborting then Some(l.(stage := Ending))
      else if !(l.stage == Open && last.Some? && last.value.Raised?) then None
      else if signal.Raises? then Some(l.(stage := Free, leaked := l.leaked + 1))
      else Some(l.(stage := Ending))
    case Disposed(_) =>
      if l.stage == Ending || (l.stage == Open && !autocommit && last.Some? && last.value.Value?) then Some(Close(l))
      else None
    case _ => Some(l)
  }

  function Last(ids: seq<nat>, trace: seq<Event>): Option<Result> {
    var m := Seen(ids, trace);
    if m.None? then None else m.value.last
  }

  function Audit(ids: seq<nat>, autocommit: bool, trace: seq<Event>): Option<Ledger>
    decreases |trace|
  {
    if trace == [] then Some(Ledger(Free, 0, 0, 0))
    else
      var before := trace[..|trace| - 1];
      var l := Audit(ids, autocommit, before);
      if l.None? then None else AuditStep(autocommit, Last(ids, before), l.value, trace[|trace| - 1])
  }

  /** At most one transactional advisor, and publishing only inside it. */
  predicate Managed(r: Runnable, autocommit: bool, open: bool) {
    match r
    case Method => true
    case Advisor(a, next) =>
      match a.kind
      case Plain => Managed(next, autocommit, open)
      case Publishing => open && Managed(next, autocommit, open)
      case Transactional(auto) => !open && auto == autocommit && Managed(next, autocommit, true)
  }

  predicate Stands(ids: seq<nat>, autocommit: bool, s: State, stage: Stage) {
    var l := Audit(ids, autocommit, s.trace);
    l.Some? && l.value.stage == stage
  }

  lemma {:induction false} AuditOne(ids: seq<nat>, autocommit: bool, s: State, e: Event)
    requires Audit(ids, autocommit, s.trace).Some?
    ensures Audit(ids, autocommit, Emit(s, e).trace)
         == AuditStep(autocommit, Last(ids, s.trace), Audit(ids, autocommit, s.trace).value, e)
  {
    var t := Emit(s, e).trace;
    assert t[..|t| - 1] == s.trace;
  }

  predicate Hook(e: Event) {
    e.Before? || e.AroundEnded? || e.AfterReturning? || e.AfterRaising? || e.After? || e.Invoked?
  }

  lemma {:induction false} HookIsNeutral(ids: seq<nat>, autocommit: bool, s: State, e: Event, stage: Stage)
    requires Stands(ids, autocommit, s, stage) && Hook(e)
    ensures Stands(ids, autocommit, Emit(s, e), stage)
  {
    AuditOne(ids, autocommit, s, e);
  }

  lemma {:induction false} PublishEventsAudited(
      ids: seq<nat>, autocommit: bool, env: Environment, s: State, events: seq<int>)
    requires Stands(ids, autocommit, s, Open)
    ensures Stands(ids, autocommit, PublishEvents(env, s, events).0, Open)
    decreases |events|
  {
    if events != [] {
      var e := Published(events[0], env.hook(|s.trace|));
      AuditOne(ids, autocommit, s, e);
      if e.signal.Returns? { PublishEventsAudited(ids, autocommit, env, Emit(s, e), events[1..]); }
    }
  }

  lemma {:induction false} PublishAllAudited(
      ids: seq<nat>, autocommit: bool, env: Environment, s: State, aggregates: seq<nat>)
    requires Stands(ids, autocommit, s, Open)
    ensures Stands(ids, autocommit, PublishAll(env, s, aggregates).0, Open)
    decreases |aggregates|
  {
    if aggregates != [] {
      var events := EventsOf(s.pending, aggregates[0]);
      PublishEventsAudited(ids, autocommit, env, s, events);
      var (s1, signal) := PublishEvents(env, s, events);
      if signal.Returns? {
        PublishAllAudited(ids, autocommit, env, s1.(pending := s1.pending[aggregates[0] := []]), aggregates[1..]);
      }
    }
  }

  lemma {:induction false} FinallyAudited(
      ids: seq<nat>, autocommit: bool, env: Environment, s: State, a: Aspect, result: Result, stage: Stage)
    requires Stands(ids, autocommit, s, stage)
    ensures Stands(ids, autocommit, Finally(env, s, a, result).0, stage)
  {
    HookIsNeutral(ids, autocommit, s, After(a.id, HookSignal(env, s, a.kind)), stage);
  }

  lemma {:induction false} ExceptAudited(
      ids: seq<nat>, autocommit: bool, env: Environment, s: State, a: Aspect, failure: Failure, stage: Stage)
    requires Stands(ids, autocommit, s, stage)
    ensures Stands(ids, autocommit, Except(env, s, a, failure).0, stage)
  {
    if failure.fatal {
      FinallyAudited(ids, autocommit, env, s, a, Raised(failure), stage);
    } else {
      var signal := HookSignal(env, s, a.kind);
      var e := AfterRaising(a.id, failure, signal);
      HookIsNeutral(ids, autocommit, s, e, stage);
      FinallyAudited(ids, autocommit, env, Emit(s, e), a, Raised(if signal.Raises? then signal.failure else failure),
          stage);
    }
  }

  lemma {:induction false} ConcludeAudited(
      ids: seq<nat>, autocommit: bool, env: Environment, s: State, a: Aspect, result: Result, stage: Stage)
    requires Stands(ids, autocommit, s, stage) && (a.kind.Publishing? ==> stage == Open)
    ensures Stands(ids, autocommit, Conclude(env, s, a, result).0, stage)
  {
    var e := AroundEnded(a.id, result);
    var s0 := Emit(s, e);
    HookIsNeutral(ids, autocommit, s, e, stage);
    if result.Raised? {
      ExceptAudited(ids, autocommit, env, s0, a, result.failure, stage);
    } else {
      if a.kind.Publishing? { PublishAllAudited(ids, autocommit, env, s0, s0.collected); }
      var (s1, signal) := if a.kind.Publishing? then PublishAll(env, s0, s0.collected)
          else (s0, HookSignal(env, s0, a.kind));
      var done := AfterReturning(a.id, signal);
      HookIsNeutral(ids, autocommit, s1, done, stage);
      if signal.Returns? {
        FinallyAudited(ids, autocommit, env, Emit(s1, done), a, result, stage);
      } else {
        ExceptAudited(ids, autocommit, env, Emit(s1, done), a, signal.failure, stage);
      }
    }
  }

  lemma {:induction false} DisposeAudited(ids: seq<nat>, autocommit: bool, env: Environment, s: State, result: Result)
    requires Stands(ids, autocommit, s, Ending)
          || (!autocommit && Stands(ids, autocommit, s, Open) && Last(ids, s.trace) == Some(result) && result.Value?)
    ensures Stands(ids, autocommit, Dispose(env, s, result).0, Free)
  {
    AuditOne(ids, autocommit, s, Disposed(env.hook(|s.trace|)));
  }

  lemma {:induction false} AbandonAudited(ids: seq<nat>, autocommit: bool, env: Environment, s: State, result: Result)
    requires Stands(ids, autocommit, s, Open) && Last(ids, s.trace) == Some(result) && result.Raised?
    ensures Stands(ids, autocommit, Abandon(env, s, result).0, Free)
  {
    var e := RolledBack(env.hook(|s.trace|));
    AuditOne(ids, autocommit, s, e);
    if e.signal.Returns? { DisposeAudited(ids, autocommit, env, Emit(s, e), result); }
  }

  lemma {:induction false} CompleteAudited(ids: seq<nat>, env: Environment, s: State, result: Result)
    requires Stands(ids, true, s, Open) && Last(ids, s.trace) == Some(result) && result.Value?
    ensures Stands(ids, true, Complete(env, s, result).0, Free)
  {
    var e := Committed(env.hook(|s.trace|));
    var s1 := Emit(s, e);
    AuditOne(ids, true, s, e);
    if e.signal.Returns? {
      DisposeAudited(ids, true, env, s1, result);
    } else {
      var undo := RolledBack(env.hook(|s1.trace|));
      AuditOne(ids, true, s1, undo);
      DisposeAudited(ids, true, env, Emit(s1, undo),
          Raised(if undo.signal.Raises? then undo.signal.failure else e.signal.failure));
    }
  }

  lemma {:induction false} ExitAudited(ids: seq<nat>, autocommit: bool, env: Environment, s: State, result: Result)
    requires Stands(ids, autocommit, s, Open) && Last(ids, s.trace) == Some(result)
    ensures Stands(ids, autocommit, ExitTransaction(env, s, autocommit, result).0, Free)
  {
    if result.Raised? {
      AbandonAudited(ids, autocommit, env, s, result);
    } else if autocommit {
      CompleteAudited(ids, env, s, result);
    } else {
      DisposeAudited(ids, autocommit, env, s, result);
    }
  }

  function Outside(open: bool): Stage {
    if open then Open else Free
  }

  lemma {:induction false} ExecAudited(
      ids: seq<nat>, autocommit: bool, env: Environment, s: State, r: Runnable, open: bool, stack: seq<Frame>)
    requires Managed(r, autocommit, open) && Stands(ids, autocommit, s, Outside(open))
    requires Under(ids, s, stack) && Accepting(stack)
    requires |stack| <= |ids| && ids[|stack|..] == Ids(r)
    ensures Stands(ids, autocommit, Exec(env, s, r).0, Outside(open))
    decreases r, 1, 0
  {
    match r
    case Method =>
      HookIsNeutral(ids, autocommit, s, Invoked(env.target(|s.trace|).result), Outside(open));
    case Advisor(a, next) =>
      var e := Before(a.id, HookSignal(env, s, a.kind));
      HookIsNeutral(ids, autocommit, s, e, Outside(open));
      if e.signal.Returns? {
        var s1 := Emit(s, e);
        var inner := stack + [Frame(a.id, Running)];
        assert ids[|stack|] == ids[|stack|..][0];
        SeenOne(ids, s, e, Seen(ids, s.trace).value);
        assert ids[|inner|..] == ids[|stack|..][1..];
        AroundAudited(ids, autocommit, env, s1, a, next, open, inner);
        var (s2, result) := RunAround(env, s1, a, next);
        ConcludeAudited(ids, autocommit, env, s2, a, result, Outside(open));
      }
  }

  lemma {:induction false} AroundAudited(
      ids: seq<nat>, autocommit: bool, env: Environment, s: State, a: Aspect, next: Runnable,
      open: bool, stack: seq<Frame>)
    requires Managed(Advisor(a, next), autocommit, open) && Stands(ids, autocommit, s, Outside(open))
    requires Under(ids, s, stack) && Accepting(stack) && stack != []
    requires |stack| <= |ids| && ids[|stack|..] == Ids(next)
    ensures Stands(ids, autocommit, RunAround(env, s, a, next).0, Outside(open))
    decreases next, 3, 0
  {
    match a.kind
    case Plain => ProceedAudited(ids, autocommit, env, s, next, env.plan(|s.trace|).calls, open, stack);
    case Publishing => ExecAudited(ids, autocommit, env, s, next, open, stack);
    case Transactional(_) =>
      var e := Initialized(env.hook(|s.trace|));
      var s1 := Emit(s, e);
      AuditOne(ids, autocommit, s, e);
      if e.signal.Returns? {
        ResourceObeys(ids, s, e, stack);
        ExecAudited(ids, autocommit, env, s1, next, true, stack);
        ExecObeys(ids, env, s1, next, stack);
        var (s2, result) := Exec(env, s1, next);
        ExitAudited(ids, autocommit, env, s2, result);
      }
  }

  lemma {:induction false} ProceedAudited(
      ids: seq<nat>, autocommit: bool, env: Environment, s: State, next: Runnable, calls: nat,
      open: bool, stack: seq<Frame>)
    requires Managed(next, autocommit, open) && Stands(ids, autocommit, s, Outside(open))
    requires Under(ids, s, stack) && Accepting(stack)
    requires |stack| <= |ids| && ids[|stack|..] == Ids(next)
    ensures Stands(ids, autocommit, Proceed(env, s, next, calls).0, Outside(open))
    decreases next, 2, calls
  {
    if calls > 0 {
      ProceedAudited(ids, autocommit, env, s, next, calls - 1, open, stack);
      ProceedObeys(ids, env, s, next, calls - 1, stack);
      ExecAudited(ids, autocommit, env, Proceed(env, s, next, calls - 1).0, next, open, stack);
    }
  }

  lemma {:induction false} AuditBalances(ids: seq<nat>, autocommit: bool, trace: seq<Event>)
    requires Audit(ids, autocommit, trace).Some?
    ensures var l := Audit(ids, autocommit, trace).value;
            l.begun == l.disposed + l.leaked + (if l.stage.Free? then 0 else 1)
    decreases |trace|
  {
    if trace != [] {
      AuditBalances(ids, autocommit, trace[..|trace| - 1]);
    }
  }

  /** In every run of every managed chain the transaction protocol is kept:
      events are published only between initialize and commit, commit follows
      only a body that returned, rollback only one that raised or a commit that
      did, and each opened transaction is disposed or leaked, exactly once. */
  lemma {:induction false} TransactionsAreKept(env: Environment, s: State, r: Runnable, autocommit: bool)
    requires s.trace == [] && Managed(r, autocommit, false)
    ensures var l := Audit(Ids(r), autocommit, Exec(env, s, r).0.trace);
            l.Some? && l.value.stage == Free && l.value.begun == l.value.disposed + l.value.leaked
  {
    ExecAudited(Ids(r), autocommit, env, s, r, false, []);
    AuditBalances(Ids(r), autocommit, Exec(env, s, r).0.trace);
  }

  // ----- One transaction: when is it disposed? -----

  function Disposals(trace: seq<Event>): nat
    decreases |trace|
  {
    if trace == [] then 0
    else Disposals(trace[..|trace| - 1]) + (if trace[|trace| - 1].Disposed? then 1 else 0)
  }

  lemma {:induction false} DisposalsOne(s: State, e: Event)
    ensures Disposals(Emit(s, e).trace) == Disposals(s.trace) + (if e.Disposed? then 1 else 0)
  {
    var t := Emit(s, e).trace;
    assert t[..|t| - 1] == s.trace;
  }

  lemma {:induction false} DisposeDisposes(env: Environment, s: State, result: Result)
    ensures Disposals(Dispose(env, s, result).0.trace) == Disposals(s.trace) + 1
  {
    DisposalsOne(s, Disposed(env.hook(|s.trace|)));
  }

  lemma {:induction false} CompleteDisposes(env: Environment, s: State, result: Result)
    ensures Disposals(Complete(env, s, result).0.trace) == Disposals(s.trace) + 1
  {
    var signal := env.hook(|s.trace|);
    var s1 := Emit(s, Committed(signal));
    DisposalsOne(s, Committed(signal));
    DisposeDisposes(env, s1, result);
    if signal.Raises? {
      var undo := env.hook(|s1.trace|);
      DisposalsOne(s1, RolledBack(undo));
      DisposeDisposes(env, Emit(s1, RolledBack(undo)), Raised(if undo.Raises? then undo.failure else signal.failure));
    }
  }

  /** Leaving the transaction disposes it exactly once, unless the body raised
      and the rollback raised too: then it is never disposed. */
  lemma {:induction false} DisposedUnlessRollbackRaised(env: Environment, s: State, autocommit: bool, result: Result)
    ensures Disposals(ExitTransaction(env, s, autocommit, result).0.trace)
         == Disposals(s.trace) + (if result.Raised? && env.hook(|s.trace|).Raises? then 0 else 1)
  {
    if result.Raised? {
      var e := RolledBack(env.hook(|s.trace|));
      DisposalsOne(s, e);
      DisposeDisposes(env, Emit(s, e), result);
    } else if autocommit {
      CompleteDisposes(env, s, result);
    } else {
      DisposeDisposes(env, s, result);
    }
  }

  // ----- What is published -----

  /** The events delivered so far, in order. */
  function Delivered(trace: seq<Event>): seq<int>
    decreases |trace|
  {
    if trace == [] then []
    else
      var e, before := trace[|trace| - 1], Delivered(trace[..|trace| - 1]);
      if e.Published? && e.signal.Returns? then before + [e.event] else before
  }

  predicate CommitTried(trace: seq<Event>)
    decreases |trace|
  {
    trace != [] && (trace[|trace| - 1].Committed? || CommitTried(trace[..|trace| - 1]))
  }

  predicate CommitSucceeded(trace: seq<Event>)
    decreases |trace|
  {
    trace != [] && (trace[|trace| - 1] == Committed(Returns) || CommitSucceeded(trace[..|trace| - 1]))
  }

  predicate RollbackTried(trace: seq<Event>)
    decreases |trace|
  {
    trace != [] && (trace[|trace| - 1].RolledBack? || RollbackTried(trace[..|trace| - 1]))
  }

  /** What the loop over the collected aggregates sends when nothing raises. */
  function Outgoing(aggregates: seq<nat>, pending: map<nat, seq<int>>): seq<int>
    decreases |aggregates|
  {
    if aggregates == [] then []
    else EventsOf(pending, aggregates[0]) + Outgoing(aggregates[1..], pending[aggregates[0] := []])
  }

  /** The events of each distinct aggregate once, in order of first collection. */
  function OnceEach(aggregates: seq<nat>, pending: map<nat, seq<int>>): seq<int>
    decreases |aggregates|
  {
    if aggregates == [] then []
    else
      var n := |aggregates| - 1;
      OnceEach(aggregates[..n], pending) + (if aggregates[n] in aggregates[..n] then []
          else EventsOf(pending, aggregates[n]))
  }

  lemma {:induction false} OutgoingLast(aggregates: seq<nat>, x: nat, pending: map<nat, seq<int>>)
    ensures Outgoing(aggregates + [x], pending)
         == Outgoing(aggregates, pending) + (if x in aggregates then [] else EventsOf(pending, x))
    decreases |aggregates|
  {
    var all := aggregates + [x];
    if aggregates == [] {
      assert all[1..] == [];
    } else {
      var y := aggregates[0];
      assert all[1..] == aggregates[1..] + [x];
      OutgoingLast(aggregates[1..], x, pending[y := []]);
      assert x in aggregates <==> x == y || x in aggregates[1..];
      var tail := if x in aggregates[1..] then [] else EventsOf(pending[y := []], x);
      assert tail == if x in aggregates then [] else EventsOf(pending, x);
      assert EventsOf(pending, y) + (Outgoing(aggregates[1..], pending[y := []]) + tail)
          == Outgoing(aggregates, pending) + tail;
    }
  }

  /** Collecting an aggregate twice does not publish its events twice. */
  lemma {:induction false} OutgoingIsOnceEach(aggregates: seq<nat>, pending: map<nat, seq<int>>)
    ensures Outgoing(aggregates, pending) == OnceEach(aggregates, pending)
    decreases |aggregates|
  {
    if aggregates != [] {
      var n := |aggregates| - 1;
      OutgoingIsOnceEach(aggregates[..n], pending);
      OutgoingLast(aggregates[..n], aggregates[n], pending);
      assert aggregates == aggregates[..n] + [aggregates[n]];
    }
  }

  lemma {:induction false} EmitObserved(s: State, e: Event)
    ensures Delivered(Emit(s, e).trace)
         == if e.Published? && e.signal.Returns? then Delivered(s.trace) + [e.event] else Delivered(s.trace)
    ensures CommitTried(Emit(s, e).trace) == (e.Committed? || CommitTried(s.trace))
    ensures CommitSucceeded(Emit(s, e).trace) == (e == Committed(Returns) || CommitSucceeded(s.trace))
    ensures RollbackTried(Emit(s, e).trace) == (e.RolledBack? || RollbackTried(s.trace))
  {
    var t := Emit(s, e).trace;
    assert t[..|t| - 1] == s.trace;
  }

  /** `s1` has delivered, after what `s` had, a prefix of `goal`: all of it
      exactly when `complete`. */
  predicate Delivers(s: State, s1: State, goal: seq<int>, complete: bool) {
    && Delivered(s.trace) <= Delivered(s1.trace) <= Delivered(s.trace) + goal
    && (complete <==> Delivered(s1.trace) == Delivered(s.trace) + goal)
    && Untouched(s, s1)
  }

  /** No commit and no rollback between `s` and `s1`. */
  predicate Untouched(s: State, s1: State) {
    && CommitTried(s1.trace) == CommitTried(s.trace)
    && CommitSucceeded(s1.trace) == CommitSucceeded(s.trace)
    && RollbackTried(s1.trace) == RollbackTried(s.trace)
  }

  lemma {:induction false} PublishEventsDelivers(env: Environment, s: State, events: seq<int>)
    ensures var (s1, signal) := PublishEvents(env, s, events);
            && Delivers(s, s1, events, signal.Returns?)
            && s1.pending == s.pending && s1.collected == s.collected
    decreases |events|
  {
    if events != [] {
      var e := Published(events[0], env.hook(|s.trace|));
      EmitObserved(s, e);
      if e.signal.Returns? {
        PublishEventsDelivers(env, Emit(s, e), events[1..]);
        assert Delivered(s.trace) + [events[0]] + events[1..] == Delivered(s.trace) + events;
      }
    }
  }

  lemma {:induction false} DeliversChain(
      s: State, s1: State, s2: State, first: seq<int>, rest: seq<int>, complete: bool)
    requires Delivers(s, s1, first, true) && Delivers(s1, s2, rest, complete)
    ensures Delivers(s, s2, first + rest, complete)
  {
    assert Delivered(s.trace) + first + rest == Delivered(s.trace) + (first + rest);
  }

  lemma {:induction false} DeliversPartly(s: State, s1: State, first: seq<int>, rest: seq<int>)
    requires Delivers(s, s1, first, false)
    ensures Delivers(s, s1, first + rest, false)
  {
    assert Delivered(s.trace) + first + rest == Delivered(s.trace) + (first + rest);
    assert |Delivered(s1.trace)| < |Delivered(s.trace) + first|;
  }

  lemma {:induction false} PublishAllDelivers(env: Environment, s: State, aggregates: seq<nat>)
    ensures var (s1, signal) := PublishAll(env, s, aggregates);
            && Delivers(s, s1, Outgoing(aggregates, s.pending), signal.Returns?)
            && s1.collected == s.collected
    decreases |aggregates|
  {
    if aggregates != [] {
      var events := EventsOf(s.pending, aggregates[0]);
      var cleared := s.pending[aggregates[0] := []];
      PublishEventsDelivers(env, s, events);
      var (s1, signal) := PublishEvents(env, s, events);
      if signal.Returns? {
        var s1' := s1.(pending := cleared);
        PublishAllDelivers(env, s1', aggregates[1..]);
        var (s2, complete) := PublishAll(env, s1', aggregates[1..]);
        DeliversChain(s, s1', s2, events, Outgoing(aggregates[1..], cleared), complete.Returns?);
      } else {
        DeliversPartly(s, s1, events, Outgoing(aggregates[1..], cleared));
      }
    }
  }

  // ----- How many publications return -----

  /** How many of the `n` answers from `at` on return before one raises. */
  function Answered(env: Environment, at: nat, n: nat): (k: nat)
    ensures k <= n
    decreases n
  {
    if n == 0 || env.hook(at).Raises? then 0 else 1 + Answered(env, at + 1, n - 1)
  }

  lemma {:induction false} AnsweredSplit(env: Environment, at: nat, m: nat, n: nat)
    ensures Answered(env, at, m + n)
         == if Answered(env, at, m) == m then m + Answered(env, at + m, n) else Answered(env, at, m)
    decreases m
  {
    if m > 0 && env.hook(at).Returns? {
      AnsweredSplit(env, at + 1, m - 1, n);
    }
  }

  /** Of `n` publications those up to the first that raises were delivered, and
      each took one place in the trace. */
  predicate Counts(env: Environment, s: State, s1: State, n: nat, complete: bool) {
    var k := Answered(env, |s.trace|, n);
    && |Delivered(s1.trace)| == |Delivered(s.trace)| + k
    && (complete <==> k == n) && (complete ==> |s1.trace| == |s.trace| + n)
  }

  lemma {:induction false} PublishEventsCounts(env: Environment, s: State, events: seq<int>)
    ensures var (s1, signal) := PublishEvents(env, s, events); Counts(env, s, s1, |events|, signal.Returns?)
    decreases |events|
  {
    if events != [] {
      var e := Published(events[0], env.hook(|s.trace|));
      EmitObserved(s, e);
      if e.signal.Returns? {
        PublishEventsCounts(env, Emit(s, e), events[1..]);
      }
    }
  }

  lemma {:induction false} PublishAllCounts(env: Environment, s: State, aggregates: seq<nat>)
    ensures var (s1, signal) := PublishAll(env, s, aggregates);
            Counts(env, s, s1, |Outgoing(aggregates, s.pending)|, signal.Returns?)
    decreases |aggregates|
  {
    if aggregates != [] {
      var events := EventsOf(s.pending, aggregates[0]);
      var cleared := s.pending[aggregates[0] := []];
      var (s1, signal) := PublishEvents(env, s, events);
      PublishEventsDelivers(env, s, events);
      PublishEventsCounts(env, s, events);
      AnsweredSplit(env, |s.trace|, |events|, |Outgoing(aggregates[1..], cleared)|);
      if signal.Returns? {
        PublishAllCounts(env, s1.(pending := cleared), aggregates[1..]);
      }
    }
  }

  /** Nothing delivered, committed or rolled back between `s` and `s1`. */
  predicate Quiet(s: State, s1: State) {
    Delivered(s1.trace) == Delivered(s.trace) && Untouched(s, s1)
  }

  lemma {:induction false} EmitQuiet(s: State, e: Event)
    requires Hook(e) || e.Initialized? || e.Disposed?
    ensures Quiet(s, Emit(s, e))
  {
    EmitObserved(s, e);
  }

  lemma {:induction false} FinallyQuiet(env: Environment, s: State, a: Aspect, result: Result)
    requires !a.kind.Plain?
    ensures var (s1, r) := Finally(env, s, a, result);
            Quiet(s, s1) && r == result && s1.collected == (if a.kind.Publishing? then [] else s.collected)
  {
    EmitObserved(s, After(a.id, Returns));
  }

  lemma {:induction false} ExceptQuiet(env: Environment, s: State, a: Aspect, failure: Failure)
    requires !a.kind.Plain?
    ensures var (s1, r) := Except(env, s, a, failure);
            Quiet(s, s1) && r == Raised(failure) && s1.collected == (if a.kind.Publishing? then [] else s.collected)
  {
    if failure.fatal {
      FinallyQuiet(env, s, a, Raised(failure));
    } else {
      var e := AfterRaising(a.id, failure, Returns);
      EmitObserved(s, e);
      FinallyQuiet(env, Emit(s, e), a, Raised(failure));
    }
  }

  /** `n` publications by an aspect whose target returned in `s`: the first
      happens after that return is noted, and two hooks follow the last. */
  predicate Numbered(env: Environment, s: State, s1: State, n: nat, complete: bool) {
    var k := Answered(env, |s.trace| + 1, n);
    && |Delivered(s1.trace)| == |Delivered(s.trace)| + k
    && (complete <==> k == n) && (complete ==> |s1.trace| == |s.trace| + n + 3)
  }

  /** After the target returned, the publishing aspect delivers a prefix of what
      is due, and the call returns exactly when it delivered all of it. */
  lemma {:induction false} PublishingConcludes(env: Environment, s: State, a: Aspect, result: Result)
    requires a.kind.Publishing?
    ensures var (s1, r) := Conclude(env, s, a, result);
            && s1.collected == []
            && (result.Raised? ==> r == result && Quiet(s, s1))
            && (result.Value? ==> Delivers(s, s1, Outgoing(s.collected, s.pending), r.Value?))
            && (result.Value? ==> Numbered(env, s, s1, |Outgoing(s.collected, s.pending)|, r.Value?))
  {
    var e := AroundEnded(a.id, result);
    var s0 := Emit(s, e);
    EmitObserved(s, e);
    if result.Raised? {
      ExceptQuiet(env, s0, a, result.failure);
    } else {
      PublishAllDelivers(env, s0, s0.collected);
      PublishAllCounts(env, s0, s0.collected);
      var (s1, signal) := PublishAll(env, s0, s0.collected);
      PublishedIsQuiet(env, s1, a, signal, result);
    }
  }

  /** What follows the publication itself delivers nothing more. */
  lemma {:induction false} PublishedIsQuiet(env: Environment, s: State, a: Aspect, signal: Signal, result: Result)
    requires a.kind.Publishing? && result.Value?
    ensures var done := Emit(s, AfterReturning(a.id, signal));
            var (s1, r) := if signal.Returns? then Finally(env, done, a, result)
                else Except(env, done, a, signal.failure);
            && Quiet(s, s1) && s1.collected == [] && (r.Value? <==> signal.Returns?)
            && (signal.Returns? ==> |s1.trace| == |s.trace| + 2)
  {
    var e := AfterReturning(a.id, signal);
    EmitObserved(s, e);
    if signal.Returns? {
      FinallyQuiet(env, Emit(s, e), a, result);
    } else {
      ExceptQuiet(env, Emit(s, e), a, signal.failure);
    }
  }

  lemma {:induction false} TransactionConcludes(env: Environment, s: State, a: Aspect, result: Result)
    requires a.kind.Transactional?
    ensures var (s1, r) := Conclude(env, s, a, result);
            Quiet(s, s1) && r == result && s1.collected == s.collected
  {
    var e := AroundEnded(a.id, result);
    var s0 := Emit(s, e);
    EmitObserved(s, e);
    if result.Raised? {
      ExceptQuiet(env, s0, a, result.failure);
    } else {
      EmitObserved(s0, AfterReturning(a.id, Returns));
      FinallyQuiet(env, Emit(s0, AfterReturning(a.id, Returns)), a, result);
    }
  }

  lemma {:induction false} DisposeQuiet(env: Environment, s: State, result: Result)
    ensures var s1 := Dispose(env, s, result).0; Quiet(s, s1) && s1.collected == s.collected
  {
    EmitObserved(s, Disposed(env.hook(|s.trace|)));
  }

  lemma {:induction false} CompleteObserved(env: Environment, s: State, result: Result)
    ensures var s1 := Complete(env, s, result).0; var signal := env.hook(|s.trace|);
            && Delivered(s1.trace) == Delivered(s.trace) && s1.collected == s.collected && CommitTried(s1.trace)
            && CommitSucceeded(s1.trace) == (CommitSucceeded(s.trace) || signal.Returns?)
            && RollbackTried(s1.trace) == (RollbackTried(s.trace) || signal.Raises?)
  {
    var e := Committed(env.hook(|s.trace|));
    var s1 := Emit(s, e);
    EmitObserved(s, e);
    if e.signal.Returns? {
      DisposeQuiet(env, s1, result);
    } else {
      var undo := RolledBack(env.hook(|s1.trace|));
      EmitObserved(s1, undo);
      DisposeQuiet(env, Emit(s1, undo), Raised(if undo.signal.Raises? then undo.signal.failure else e.signal.failure));
    }
  }

  /** What leaving the transaction after `result` adds to the trace. */
  predicate Left(s: State, s1: State, autocommit: bool, result: Result, commit: Signal) {
    var tried := autocommit && result.Value?;
    && Delivered(s1.trace) == Delivered(s.trace)
    && CommitTried(s1.trace) == (CommitTried(s.trace) || tried)
    && CommitSucceeded(s1.trace) == (CommitSucceeded(s.trace) || (tried && commit.Returns?))
    && RollbackTried(s1.trace) == (RollbackTried(s.trace) || result.Raised? || (tried && commit.Raises?))
  }

  lemma {:induction false} ExitObserved(env: Environment, s: State, autocommit: bool, result: Result)
    ensures var s1 := ExitTransaction(env, s, autocommit, result).0;
            Left(s, s1, autocommit, result, env.hook(|s.trace|)) && s1.collected == s.collected
  {
    if result.Raised? {
      var e := RolledBack(env.hook(|s.trace|));
      EmitObserved(s, e);
      DisposeQuiet(env, Emit(s, e), result);
    } else if autocommit {
      CompleteObserved(env, s, result);
    } else {
      DisposeQuiet(env, s, result);
    }
  }

  // ----- Plain aspects around the target -----

  predicate PlainChain(r: Runnable) {
    match r
    case Method => true
    case Advisor(a, next) => a.kind.Plain? && PlainChain(next)
  }

  lemma {:induction false} QuietTwice(s: State, s1: State, s2: State)
    requires Quiet(s, s1) && Quiet(s1, s2)
    ensures Quiet(s, s2)
  {
  }

  lemma {:induction false} PlainExceptQuiet(env: Environment, s: State, a: Aspect, failure: Failure)
    requires a.kind.Plain?
    ensures Quiet(s, Except(env, s, a, failure).0)
  {
    if failure.fatal {
      EmitQuiet(s, After(a.id, HookSignal(env, s, a.kind)));
    } else {
      var e := AfterRaising(a.id, failure, HookSignal(env, s, a.kind));
      var s1 := Emit(s, e);
      EmitQuiet(s, e);
      EmitQuiet(s1, After(a.id, HookSignal(env, s1, a.kind)));
    }
  }

  lemma {:induction false} PlainConcludes(env: Environment, s: State, a: Aspect, result: Result)
    requires a.kind.Plain?
    ensures Quiet(s, Conclude(env, s, a, result).0)
  {
    var s0 := Emit(s, AroundEnded(a.id, result));
    EmitQuiet(s, AroundEnded(a.id, result));
    if result.Raised? {
      PlainExceptQuiet(env, s0, a, result.failure);
    } else {
      var signal := HookSignal(env, s0, a.kind);
      var s1 := Emit(s0, AfterReturning(a.id, signal));
      EmitQuiet(s0, AfterReturning(a.id, signal));
      if signal.Raises? {
        PlainExceptQuiet(env, s1, a, signal.failure);
      } else {
        EmitQuiet(s1, After(a.id, HookSignal(env, s1, a.kind)));
      }
    }
  }

  lemma {:induction false} PlainRunQuiet(env: Environment, s: State, r: Runnable)
    requires PlainChain(r)
    ensures Quiet(s, Exec(env, s, r).0)
    decreases r, 1, 0
  {
    match r
    case Method =>
      var result := env.target(|s.trace|).result;
      EmitQuiet(s, Invoked(result));
      assert RunTarget(env, s).0.trace == Emit(s, Invoked(result)).trace;
    case Advisor(a, next) =>
      var e := Before(a.id, HookSignal(env, s, a.kind));
      EmitQuiet(s, e);
      if e.signal.Returns? {
        var s1 := Emit(s, e);
        PlainProceedQuiet(env, s1, next, env.plan(|s1.trace|).calls);
        var (s2, result) := RunAround(env, s1, a, next);
        PlainConcludes(env, s2, a, result);
      }
  }

  lemma {:induction false} PlainProceedQuiet(env: Environment, s: State, next: Runnable, calls: nat)
    requires PlainChain(next)
    ensures Quiet(s, Proceed(env, s, next, calls).0)
    decreases next, 2, calls
  {
    if calls > 0 {
      PlainProceedQuiet(env, s, next, calls - 1);
      PlainRunQuiet(env, Proceed(env, s, next, calls - 1).0, next);
    }
  }

  // ----- A transactional call -----

  /** The state in which the body of a transactional call starts. */
  function Opened(s: State, tx: Aspect): State {
    Emit(Emit(s, Before(tx.id, Returns)), Initialized(Returns))
  }

  /** What the body does: it ends in a state whose collector and aggregates
      determine which events are due. */
  function Body(env: Environment, s: State, publisher: Aspect, next: Runnable): (State, Result) {
    Exec(env, Emit(s, Before(publisher.id, Returns)), next)
  }

  function Due(s: State): seq<int> {
    OnceEach(s.collected, s.pending)
  }

  lemma {:induction false} BodyQuiet(env: Environment, s: State, publisher: Aspect, next: Runnable)
    requires PlainChain(next)
    ensures Quiet(s, Body(env, s, publisher, next).0)
  {
    var s0 := Emit(s, Before(publisher.id, Returns));
    EmitQuiet(s, Before(publisher.id, Returns));
    PlainRunQuiet(env, s0, next);
    QuietTwice(s, s0, Exec(env, s0, next).0);
  }

  lemma {:induction false} PublishingRun(env: Environment, s: State, a: Aspect, next: Runnable)
    requires a.kind.Publishing? && PlainChain(next)
    ensures var (s1, r) := Exec(env, s, Advisor(a, next));
            var (body, result) := Body(env, s, a, next);
            && s1.collected == []
            && (result.Raised? ==> r == result && Quiet(s, s1))
            && (result.Value? ==> Delivers(s, s1, Due(body), r.Value?))
            && (result.Value? ==> Numbered(env, body, s1, |Due(body)|, r.Value?))
  {
    BodyQuiet(env, s, a, next);
    var (body, result) := Body(env, s, a, next);
    assert Exec(env, s, Advisor(a, next)) == Conclude(env, body, a, result);
    PublishingConcludes(env, body, a, result);
    OutgoingIsOnceEach(body.collected, body.pending);
  }

  /** How many due events a call delivers, given what the publisher answers. */
  function Reached(env: Environment, body: State, result: Result): nat {
    if result.Value? then Answered(env, |body.trace| + 1, |Due(body)|) else 0
  }

  /** What the commit answers; it comes after all publications. */
  function CommitAnswer(env: Environment, body: State): Signal {
    env.hook(|body.trace| + |Due(body)| + 3)
  }

  /** How a call that opened its transaction ended. */
  predicate CallEnded(env: Environment, s1: State, body: State, result: Result, autocommit: bool) {
    var n := Reached(env, body, result);
    var all := result.Value? && n == |Due(body)|;
    && s1.collected == []
    && n <= |Due(body)| && Delivered(s1.trace) == Due(body)[..n]
    && (CommitTried(s1.trace) <==> all && autocommit)
    && (CommitSucceeded(s1.trace) <==> all && autocommit && CommitAnswer(env, body).Returns?)
    && (RollbackTried(s1.trace) <==> !all || (autocommit && CommitAnswer(env, body).Raises?))
  }

  lemma {:induction false} OpenedQuiet(s: State, tx: Aspect)
    ensures Quiet(s, Opened(s, tx))
  {
    var s0 := Emit(s, Before(tx.id, Returns));
    EmitQuiet(s, Before(tx.id, Returns));
    EmitQuiet(s0, Initialized(Returns));
  }

  /** A call whose initialize returned: body and publication end in `s2`, leaving
      the transaction in `s3`. */
  lemma {:induction false} OpenedRun(env: Environment, s: State, tx: Aspect, inner: Runnable)
    returns (s2: State, r: Result, s3: State)
    requires s.trace == [] && tx.kind.Transactional? && env.hook(1).Returns?
    ensures (s2, r) == Exec(env, Opened(s, tx), inner)
    ensures Left(s2, s3, tx.kind.autocommit, r, env.hook(|s2.trace|)) && s3.collected == s2.collected
    ensures var s1 := Exec(env, s, Advisor(tx, inner)).0; Quiet(s3, s1) && s1.collected == s3.collected
  {
    var s0 := Emit(s, Before(tx.id, Returns));
    var run := Exec(env, Opened(s, tx), inner);
    s2, r := run.0, run.1;
    ExitObserved(env, s2, tx.kind.autocommit, r);
    var left := ExitTransaction(env, s2, tx.kind.autocommit, r);
    s3 := left.0;
    assert RunAround(env, s0, tx, inner) == left;
    TransactionConcludes(env, s3, tx, left.1);
  }

  lemma {:induction false} DeliveredCount(s: State, body: State, s2: State, env: Environment, result: Result, r: Result)
    requires Delivered(s.trace) == [] && Delivered(body.trace) == []
    requires result.Raised? ==> r == result && Quiet(s, s2)
    requires result.Value? ==> Delivers(s, s2, Due(body), r.Value?)
    requires result.Value? ==> Numbered(env, body, s2, |Due(body)|, r.Value?)
    ensures var n := Reached(env, body, result);
            && n <= |Due(body)| && Delivered(s2.trace) == Due(body)[..n]
            && (r.Value? <==> result.Value? && n == |Due(body)|)
            && (r.Value? ==> env.hook(|s2.trace|) == CommitAnswer(env, body))
  {
    if result.Value? {
      assert Delivered(s.trace) + Due(body) == Due(body);
    }
  }

  /** A transactional call around any chain of plain aspects.  If initialize
      raises nothing happens at all.  Otherwise a body that raised delivers
      nothing; after one that returned the due events are delivered up to the
      first whose publication raises.  A commit is attempted exactly when none
      does and autocommit is on, and succeeds exactly when moreover it returns.
      Everything else that went wrong rolls back, and the collector always ends
      empty. */
  lemma {:induction false} CommitMeansPublished(
      env: Environment, s: State, tx: Aspect, publisher: Aspect, next: Runnable)
    returns (body: State, result: Result)
    requires s.trace == [] && tx.kind.Transactional? && publisher.kind.Publishing? && PlainChain(next)
    ensures (body, result) == Body(env, Opened(s, tx), publisher, next)
    ensures var s1 := Exec(env, s, Advisor(tx, Advisor(publisher, next))).0;
            && (env.hook(1).Raises? ==> Quiet(s, s1) && s1.collected == s.collected)
            && (env.hook(1).Returns? ==> CallEnded(env, s1, body, result, tx.kind.autocommit))
  {
    var inner := Advisor(publisher, next);
    var s0 := Emit(s, Before(tx.id, Returns));
    EmitQuiet(s, Before(tx.id, Returns));
    var run := Body(env, Opened(s, tx), publisher, next);
    body, result := run.0, run.1;
    if env.hook(1).Raises? {
      var s1 := Emit(s0, Initialized(env.hook(1)));
      EmitQuiet(s0, Initialized(env.hook(1)));
      TransactionConcludes(env, s1, tx, Raised(env.hook(1).failure));
    } else {
      CallEnds(env, s, tx, publisher, next, body, result);
    }
  }

  lemma {:induction false} CallEnds(
      env: Environment, s: State, tx: Aspect, publisher: Aspect, next: Runnable, body: State, result: Result)
    requires s.trace == [] && tx.kind.Transactional? && publisher.kind.Publishing? && PlainChain(next)
    requires env.hook(1).Returns? && (body, result) == Body(env, Opened(s, tx), publisher, next)
    ensures CallEnded(env, Exec(env, s, Advisor(tx, Advisor(publisher, next))).0, body, result, tx.kind.autocommit)
  {
    var start := Opened(s, tx);
    OpenedQuiet(s, tx);
    BodyQuiet(env, start, publisher, next);
    PublishingRun(env, start, publisher, next);
    var s2, r, s3 := OpenedRun(env, s, tx, Advisor(publisher, next));
    DeliveredCount(start, body, s2, env, result, r);
  }

  /** "Published only after a successful commit" is not what happens.  Events are
      delivered without one exactly when initialize and the body returned,
      something was due, its first publication returned, and a later one raised,
      autocommit was off, or the commit raised. */
  lemma {:induction false} DeliveredWithoutCommitIff(
      env: Environment, s: State, tx: Aspect, publisher: Aspect, next: Runnable)
    returns (body: State, result: Result)
    requires s.trace == [] && tx.kind.Transactional? && publisher.kind.Publishing? && PlainChain(next)
    ensures (body, result) == Body(env, Opened(s, tx), publisher, next)
    ensures var t := Exec(env, s, Advisor(tx, Advisor(publisher, next))).0.trace;
            (Delivered(t) != [] && !CommitSucceeded(t)) <==>
              && env.hook(1).Returns? && result.Value?
              && Due(body) != [] && env.hook(|body.trace| + 1).Returns?
              && (|| Answered(env, |body.trace| + 1, |Due(body)|) < |Due(body)|
                  || !tx.kind.autocommit || CommitAnswer(env, body).Raises?)
  {
    body, result := CommitMeansPublished(env, s, tx, publisher, next);
  }

  // ----- A commit that raises after the events went out -----

  /** One aggregate with one event; everything works but the commit. */
  function CommitRaises(): Environment {
    Environment(n => if n == 8 then Raises(Failure(1, false)) else Returns,
                n => Plan(1, (results: seq<Result>) => Value(0)),
                n => Work([(0, 7)], [0], Value(0)))
  }

  const TX := Aspect(0, 0, Transactional(true))
  const PUBLISHER := Aspect(1, 1, Publishing)

  lemma {:induction false} LoneEventDelivered(env: Environment, s: State)
    requires s.collected == [0] && s.pending == map[0 := [7]] && env.hook(|s.trace|).Returns?
    ensures var (s1, signal) := PublishAll(env, s, s.collected);
            signal.Returns? && s1.trace == s.trace + [Published(7, Returns)]
  {
    var s1 := Emit(s, Published(7, Returns));
    assert [7][1..] == [] && [0][1..] == [];
    assert PublishEvents(env, s, [7]) == (s1, Returns);
  }

  lemma {:induction false} LoneEventBody(s: State)
    requires s == State([], [], map[])
    ensures var (body, result) := Body(CommitRaises(), Opened(s, TX), PUBLISHER, Method);
            && result == Value(0) && |body.trace| == 4
            && body.collected == [0] && body.pending == map[0 := [7]]
  {
    var none: map<nat, seq<int>> := map[];
    var one: map<nat, seq<int>> := map[0 := [7]];
    var raised: seq<(nat, int)> := [(0, 7)];
    assert raised[1..] == [] && raised[0].0 == 0 && raised[0].1 == 7;
    assert EventsOf(none, 0) + [7] == [7] && none[0 := [7]] == one;
    assert AddEvents(none, raised) == AddEvents(one, []) == one;
  }

  /** The event is delivered, the transaction is rolled back. */
  lemma {:induction false} EventsOutliveFailedCommit()
    ensures var t := Exec(CommitRaises(), State([], [], map[]), Advisor(TX, Advisor(PUBLISHER, Method))).0.trace;
            Delivered(t) == [7] && CommitTried(t) && !CommitSucceeded(t) && RollbackTried(t)
  {
    var env, s := CommitRaises(), State([], [], map[]);
    LoneEventBody(s);
    var (body, result) := Body(env, Opened(s, TX), PUBLISHER, Method);
    var s0 := Emit(body, AroundEnded(1, result));
    LoneEventDelivered(env, s0);
    var (s1, r) := Exec(env, Opened(s, TX), Advisor(PUBLISHER, Method));
    assert (s1, r) == Conclude(env, body, PUBLISHER, result);
    assert |s1.trace| == 8 && r == Value(0);
    LoneCommit(env, s, s1, r, body, result);
  }

  lemma {:induction false} LoneCommit(env: Environment, s: State, s1: State, r: Result, body: State, result: Result)
    requires s.trace == [] && env.hook(1).Returns? && env.hook(8).Raises?
    requires (body, result) == Body(env, Opened(s, TX), PUBLISHER, Method) && result.Value?
    requires body.collected == [0] && body.pending == map[0 := [7]]
    requires (s1, r) == Exec(env, Opened(s, TX), Advisor(PUBLISHER, Method)) && |s1.trace| == 8 && r.Value?
    ensures var t := Exec(env, s, Advisor(TX, Advisor(PUBLISHER, Method))).0.trace;
            Delivered(t) == [7] && CommitTried(t) && !CommitSucceeded(t) && RollbackTried(t)
  {
    OpenedQuiet(s, TX);
    PublishingRun(env, Opened(s, TX), PUBLISHER, Method);
    assert OnceEach([0], map[0 := [7]]) == [7] by {
      assert [0][..0] == [];
    }
    ExitObserved(env, s1, true, r);
    var s0 := Emit(s, Before(TX.id, Returns));
    var (s3, end) := ExitTransaction(env, s1, true, r);
    assert RunAround(env, s0, TX, Advisor(PUBLISHER, Method)) == (s3, end);
    TransactionConcludes(env, s3, TX, end);
  }
}
