/** What every saga run keeps: authorization before every callback, the auth
    snapshot, the agreement of history, trace and compensable steps, the retry
    bound and the LIFO order of compensation. */
module SagaProperties {
  import opened Sequences
  import opened Wrappers
  import opened Saga

  // ----- Reading a trace -----

  /** What a trace amounts to: the data in force, the history, the steps
      authorized, the backoffs slept, and the steps committed, committed with a
      compensation and compensated, each in order. */
  datatype Ledger = Ledger(
    data: SagaData,
    history: seq<StepRecord>,
    checked: seq<Step>,
    naps: seq<Nap>,
    committed: seq<Step>,
    undoable: seq<Step>,
    undone: seq<Step>)

  function Enter(l: Ledger, e: Event): Ledger {
    match e
    case Checked(step, _, _, _, _) => l.(checked := l.checked + [step])
    case Replaced(data) => l.(data := data)
    case Noted(step, status) =>
      l.(history := l.history + [StepRecord(step.name, status)],
         committed := if status.Committed? then l.committed + [step] else l.committed,
         undoable := if status.Committed? && step.compensable then l.undoable + [step] else l.undoable)
    case Undone(step, _) => l.(undone := l.undone + [step])
    case Slept(nap) => l.(naps := l.naps + [nap])
    case _ => l
  }

  function Replay(trace: seq<Event>, initial: SagaData): Ledger {
    if trace == [] then Ledger(initial, [], [], [], [], [], [])
    else Enter(Replay(trace[..|trace| - 1], initial), trace[|trace| - 1])
  }

  /** Every authorization and every backoff takes one tick. */
  function Ticks(l: Ledger): nat {
    |l.checked| + |l.naps|
  }

  /** `before` ends with a positive authorization of `boundary` for `step`. */
  predicate JustAllowed(before: seq<Event>, step: Step, boundary: Option<Boundary>, data: SagaData) {
    && before != []
    && before[|before| - 1].Checked?
    && before[|before| - 1] == Checked(step, boundary, data, before[|before| - 1].tick, true)
  }

  /** The data after an action returned `value`: no data keeps what there is; new
      data is taken over, with the old snapshot if it brings none. */
  predicate Carries(before: SagaData, value: Option<SagaData>, after: SagaData) {
    if value.None? then after == before
    else
      && after.business == value.value.business
      && after.snapshot == if value.value.snapshot.Some? then value.value.snapshot else before.snapshot
  }

  /** An event that may follow `before`, which amounts to `l`: an authorization
      tells the truth about the data in force at that tick, a callback starts
      right after its own boundary was authorized, and data is only replaced by
      what the action just returned. */
  ghost predicate MayFollow(env: Environment, before: seq<Event>, e: Event, l: Ledger) {
    match e
    case Checked(step, boundary, d, tick, allowed) =>
      d == l.data && tick == Ticks(l) && (allowed <==> Authorized(env, tick, boundary, d))
    case Started(step, d) => d == l.data && JustAllowed(before, step, step.auth, d)
    case UndoStarted(step, d) => d == l.data && JustAllowed(before, step, step.compensateAuth, d)
    case Replaced(d) =>
      && before != [] && before[|before| - 1].Finished?
      && var outcome := before[|before| - 1].outcome;
      && outcome.Returned? && outcome.value.Some? && Carries(l.data, outcome.value, d)
    case _ => true
  }

  ghost predicate WellOrdered(env: Environment, trace: seq<Event>, initial: SagaData) {
    trace != [] ==>
      var before := trace[..|trace| - 1];
      WellOrdered(env, before, initial) && MayFollow(env, before, trace[|trace| - 1], Replay(before, initial))
  }

  /** The engine's fields are what its trace says they are. */
  ghost predicate Consistent(env: Environment, s: State, initial: SagaData) {
    && WellOrdered(env, s.trace, initial)
    && var l := Replay(s.trace, initial);
    && s.data == l.data && s.history == l.history && s.compensable == l.undoable && s.clock == Ticks(l)
  }

  /** Consistent, and nothing compensated yet. */
  ghost predicate Going(env: Environment, s: State, initial: SagaData) {
    Consistent(env, s, initial) && Replay(s.trace, initial).undone == []
  }

  lemma {:induction false} Entered(t: seq<Event>, e: Event, initial: SagaData)
    ensures Replay(t + [e], initial) == Enter(Replay(t, initial), e)
  {
    assert (t + [e])[..|t|] == t;
  }

  lemma {:induction false} Extend(env: Environment, t: seq<Event>, e: Event, initial: SagaData)
    ensures Replay(t + [e], initial) == Enter(Replay(t, initial), e)
    ensures WellOrdered(env, t, initial) && MayFollow(env, t, e, Replay(t, initial))
        ==> WellOrdered(env, t + [e], initial)
  {
    assert (t + [e])[..|t|] == t;
  }

  /** Emitting an event that records nothing. */
  lemma {:induction false} EmitKeeps(env: Environment, s: State, e: Event, initial: SagaData)
    requires Consistent(env, s, initial) && MayFollow(env, s.trace, e, Replay(s.trace, initial))
    requires !e.Replaced? && !e.Noted? && !e.Checked? && !e.Slept?
    ensures Consistent(env, Emit(s, e), initial)
    ensures Going(env, s, initial) && !e.Undone? ==> Going(env, Emit(s, e), initial)
  {
    Extend(env, s.trace, e, initial);
  }

  /** An authorization takes one tick and records nothing. */
  lemma {:induction false} CheckKeeps(
      env: Environment, s: State, step: Step, boundary: Option<Boundary>, initial: SagaData)
    requires Consistent(env, s, initial)
    ensures var allowed := Authorized(env, s.clock, boundary, s.data);
            var s1 := Check(s, step, boundary, allowed);
            var l := Replay(s.trace, initial);
            && Consistent(env, s1, initial)
            && (Going(env, s, initial) ==> Going(env, s1, initial))
            && Replay(s1.trace, initial) == l.(checked := l.checked + [step])
            && (allowed ==> JustAllowed(s1.trace, step, boundary, s1.data))
  {
    Extend(env, s.trace, Checked(step, boundary, s.data, s.clock, Authorized(env, s.clock, boundary, s.data)), initial);
  }

  lemma {:induction false} DozeKeeps(env: Environment, s: State, nap: Nap, initial: SagaData)
    requires Consistent(env, s, initial)
    ensures Consistent(env, Doze(s, nap), initial)
    ensures Going(env, s, initial) ==> Going(env, Doze(s, nap), initial)
  {
    Extend(env, s.trace, Slept(nap), initial);
  }

  lemma {:induction false} NoteKeeps(env: Environment, s: State, step: Step, status: StepStatus, initial: SagaData)
    requires Consistent(env, s, initial)
    ensures status.Committed? ==> Consistent(env, Remember(Note(s, step, status), step), initial)
    ensures !status.Committed? ==> Consistent(env, Note(s, step, status), initial)
    ensures Going(env, s, initial) ==> Replay(Note(s, step, status).trace, initial).undone == []
  {
    Extend(env, s.trace, Noted(step, status), initial);
  }

  lemma {:induction false} AttemptKeeps(env: Environment, s: State, step: Step, initial: SagaData)
    requires Going(env, s, initial)
    ensures var (s1, outcome) := Attempt(env, s, step);
            && Going(env, s1, initial)
            && (outcome.Returned? ==> s1.trace != [] && s1.trace[|s1.trace| - 1] == Finished(step, s1.data, outcome))
  {
    CheckKeeps(env, s, step, step.auth, initial);
    if Authorized(env, s.clock, step.auth, s.data) {
      var s1 := Check(s, step, step.auth, true);
      EmitKeeps(env, s1, Started(step, s.data), initial);
      var s2 := Emit(s1, Started(step, s.data));
      EmitKeeps(env, s2, Finished(step, s.data, Settled(step, env.action(s.clock))), initial);
    }
  }

  lemma {:induction false} CommitKeeps(
      env: Environment, s: State, step: Step, value: Option<SagaData>, initial: SagaData)
    requires Going(env, s, initial)
    requires s.trace != [] && s.trace[|s.trace| - 1] == Finished(step, s.data, Returned(value))
    ensures Going(env, Commit(s, step, value), initial)
  {
    if value.Some? {
      var e := Replaced(Preserve(s.data, value.value));
      Extend(env, s.trace, e, initial);
    }
    NoteKeeps(env, Replace(s, value), step, Committed, initial);
  }

  lemma {:induction false} AttemptAgainKeeps(env: Environment, s: State, step: Step, attempt: nat, initial: SagaData)
    requires Going(env, s, initial) && step.onError.Retry? && attempt >= 2
    ensures var (s1, outcome) := AttemptAgain(env, s, step, attempt);
            && Going(env, s1, initial)
            && (outcome.Returned? ==> s1.trace != [] && s1.trace[|s1.trace| - 1] == Finished(step, s1.data, outcome))
  {
    var nap := Nap(step.onError.base, attempt - 1);
    DozeKeeps(env, s, nap, initial);
    AttemptKeeps(env, Doze(s, nap), step, initial);
  }

  lemma {:induction false} AttemptAgainSettles(env: Environment, s: State, step: Step, attempt: nat, initial: SagaData)
    returns (s1: State, outcome: Outcome)
    requires Going(env, s, initial) && step.onError.Retry? && attempt >= 2
    ensures AttemptAgain(env, s, step, attempt) == (s1, outcome) && Going(env, s1, initial)
    ensures outcome.Raised? ==> Going(env, Note(s1, step, Failed), initial)
    ensures outcome.Returned? ==> Going(env, Commit(s1, step, outcome.value), initial)
  {
    AttemptAgainKeeps(env, s, step, attempt, initial);
    var next := AttemptAgain(env, s, step, attempt);
    s1, outcome := next.0, next.1;
    if outcome.Raised? {
      NoteKeeps(env, s1, step, Failed, initial);
    } else if outcome.Returned? {
      CommitKeeps(env, s1, step, outcome.value, initial);
    }
  }

  lemma {:induction false} RetryKeeps(
      env: Environment, s: State, step: Step, attempt: nat, last: Error, initial: SagaData)
    requires Going(env, s, initial) && step.onError.Retry? && attempt >= 2
    ensures Going(env, Retrying(env, s, step, attempt, last).0, initial)
    decreases step.onError.maxAttempts + 1 - attempt
  {
    if attempt <= step.onError.maxAttempts {
      var s1, outcome := AttemptAgainSettles(env, s, step, attempt, initial);
      if outcome.Raised? {
        RetryKeeps(env, Note(s1, step, Failed), step, attempt + 1, outcome.error, initial);
      }
    }
  }

  lemma {:induction false} SerialKeeps(env: Environment, s: State, step: Step, initial: SagaData)
    requires Going(env, s, initial)
    ensures Going(env, SerialStep(env, s, step).0, initial)
  {
    AttemptKeeps(env, s, step, initial);
    var (s1, outcome) := Attempt(env, s, step);
    if outcome.Returned? {
      CommitKeeps(env, s1, step, outcome.value, initial);
    } else if outcome.Raised? {
      NoteKeeps(env, s1, step, Failed, initial);
      if step.onError.Retry? {
        RetryKeeps(env, Note(s1, step, Failed), step, 2, outcome.error, initial);
      }
    }
  }

  lemma {:induction false} StartsKeep(env: Environment, s: State, steps: seq<Step>, initial: SagaData)
    requires Going(env, s, initial)
    ensures Going(env, StartAll(env, s, steps), initial)
    decreases |steps|
  {
    if steps != [] {
      var step := steps[0];
      CheckKeeps(env, s, step, step.auth, initial);
      if Authorized(env, s.clock, step.auth, s.data) {
        EmitKeeps(env, Check(s, step, step.auth, true), Started(step, s.data), initial);
      }
      StartsKeep(env, StartOne(env, s, step), steps[1..], initial);
    }
  }

  lemma {:induction false} FinishesKeep(
      env: Environment, s: State, clock: nat, steps: seq<Step>, order: seq<nat>, initial: SagaData)
    requires Going(env, s, initial) && forall i | 0 <= i < |order| :: order[i] < |steps|
    ensures Going(env, FinishAll(env, s, clock, steps, order), initial)
    decreases |order|
  {
    if order != [] {
      var k := order[0];
      EmitKeeps(env, s, Finished(steps[k], s.data, Settled(steps[k], env.action(clock + k))), initial);
      FinishesKeep(env, FinishOne(env, s, clock + k, steps[k]), clock, steps, order[1..], initial);
    }
  }

  lemma {:induction false} SettlesKeep(
      env: Environment, s: State, steps: seq<Step>, outcomes: seq<Outcome>, initial: SagaData)
    requires Going(env, s, initial) && |steps| == |outcomes|
    ensures Going(env, SettleAll(s, steps, outcomes), initial)
    decreases |steps|
  {
    if steps != [] {
      NoteKeeps(env, s, steps[0], if outcomes[0].Returned? then Committed else Failed, initial);
      SettlesKeep(env, SettleOne(s, steps[0], outcomes[0]), steps[1..], outcomes[1..], initial);
    }
  }

  lemma {:induction false} ParallelKeeps(env: Environment, s: State, steps: seq<Step>, initial: SagaData)
    requires env.Valid() && Going(env, s, initial)
    ensures Going(env, ParallelStep(env, s, steps).0, initial)
  {
    var order := env.order(s.clock, |steps|);
    assert IsOrder(order, |steps|);
    StartsKeep(env, s, steps, initial);
    var s1 := StartAll(env, s, steps);
    FinishesKeep(env, s1, s.clock, steps, order, initial);
    var s2 := FinishAll(env, s1, s.clock, steps, order);
    SettlesKeep(env, s2, steps, Outcomes(env, s.clock, s.data, steps), initial);
  }

  lemma {:induction false} ForwardKeeps(env: Environment, s: State, items: seq<Item>, initial: SagaData)
    requires env.Valid() && Going(env, s, initial)
    ensures Going(env, Forward(env, s, items).0, initial)
    decreases |items|
  {
    if items != [] {
      match items[0] {
        case Single(step) => SerialKeeps(env, s, step, initial);
        case Group(steps) => ParallelKeeps(env, s, steps, initial);
      }
      ForwardKeeps(env, ItemStep(env, s, items[0]).0, items[1..], initial);
    }
  }

  // ----- Compensation -----

  function CompensatedRecords(steps: seq<Step>): seq<StepRecord> {
    if steps == [] then [] else [StepRecord(steps[0].name, Compensated)] + CompensatedRecords(steps[1..])
  }

  /** One compensation, in the ledger. */
  function UndoEntry(l: Ledger, step: Step, result: UndoResult): Ledger {
    match result
    case AllUndone =>
      l.(checked := l.checked + [step],
         undone := l.undone + [step],
         history := l.history + [StepRecord(step.name, Compensated)])
    case UndoBroken => l.(checked := l.checked + [step], history := l.history + [StepRecord(step.name, Failed)])
    case UndoCut(_) => l.(checked := l.checked + [step])
  }

  lemma {:induction false} EscalationKeeps(env: Environment, s: State, step: Step, handler: bool, initial: SagaData)
    requires Consistent(env, s, initial)
    ensures var s1 := Escalate(Note(s, step, Failed), handler);
            var l := Replay(s.trace, initial);
            && Consistent(env, s1, initial)
            && Replay(s1.trace, initial) == l.(history := l.history + [StepRecord(step.name, Failed)])
  {
    NoteKeeps(env, s, step, Failed, initial);
    Extend(env, s.trace, Noted(step, Failed), initial);
    var s1 := Note(s, step, Failed);
    EmitKeeps(env, s1, HandlerCalled(s1.data), initial);
    Extend(env, s1.trace, HandlerCalled(s1.data), initial);
  }

  lemma {:induction false} DoneKeeps(env: Environment, s: State, step: Step, initial: SagaData)
    requires Consistent(env, s, initial)
    ensures var s1 := Note(Emit(s, Undone(step, s.data)), step, Compensated);
            var l := Replay(s.trace, initial);
            && Consistent(env, s1, initial)
            && Replay(s1.trace, initial)
               == l.(undone := l.undone + [step], history := l.history + [StepRecord(step.name, Compensated)])
  {
    EmitKeeps(env, s, Undone(step, s.data), initial);
    Extend(env, s.trace, Undone(step, s.data), initial);
    var s1 := Emit(s, Undone(step, s.data));
    NoteKeeps(env, s1, step, Compensated, initial);
    Extend(env, s1.trace, Noted(step, Compensated), initial);
  }

  lemma {:induction false} BrokenKeeps(env: Environment, s: State, step: Step, handler: bool, initial: SagaData)
    requires Consistent(env, s, initial)
    ensures var s1 := Escalate(Note(Emit(s, UndoFailed(step, s.data)), step, Failed), handler);
            var l := Replay(s.trace, initial);
            && Consistent(env, s1, initial)
            && Replay(s1.trace, initial) == l.(history := l.history + [StepRecord(step.name, Failed)])
  {
    EmitKeeps(env, s, UndoFailed(step, s.data), initial);
    Extend(env, s.trace, UndoFailed(step, s.data), initial);
    EscalationKeeps(env, Emit(s, UndoFailed(step, s.data)), step, handler, initial);
  }

  /** A step was just allowed to be compensated. */
  ghost function Begun(s: State, step: Step): State {
    Emit(Check(s, step, step.compensateAuth, true), UndoStarted(step, s.data))
  }

  lemma {:induction false} BegunKeeps(env: Environment, s: State, step: Step, initial: SagaData)
    requires Consistent(env, s, initial) && Authorized(env, s.clock, step.compensateAuth, s.data)
    ensures var s1 := Begun(s, step);
            var l := Replay(s.trace, initial);
            Consistent(env, s1, initial) && Replay(s1.trace, initial) == l.(checked := l.checked + [step])
  {
    CheckKeeps(env, s, step, step.compensateAuth, initial);
    var s1 := Check(s, step, step.compensateAuth, true);
    EmitKeeps(env, s1, UndoStarted(step, s.data), initial);
    Extend(env, s1.trace, UndoStarted(step, s.data), initial);
  }

  lemma {:induction false} UndoOneKeeps(env: Environment, s: State, step: Step, handler: bool, initial: SagaData)
    requires Consistent(env, s, initial)
    ensures var (s1, result) := UndoOne(env, s, step, handler);
            && Consistent(env, s1, initial)
            && Replay(s1.trace, initial) == UndoEntry(Replay(s.trace, initial), step, result)
            && s1.compensable == s.compensable && s1.data == s.data
  {
    if Authorized(env, s.clock, step.compensateAuth, s.data) {
      BegunKeeps(env, s, step, initial);
      match env.undo(s.clock) {
        case UndoDone => DoneKeeps(env, Begun(s, step), step, initial);
        case UndoRaised => BrokenKeeps(env, Begun(s, step), step, handler, initial);
        case UndoInterrupted(_) =>
      }
    } else {
      CheckKeeps(env, s, step, step.compensateAuth, initial);
      EscalationKeeps(env, Check(s, step, step.compensateAuth, false), step, handler, initial);
    }
  }

  /** `n` compensations done, `step` next. */
  function UndoEntries(l: Ledger, steps: seq<Step>): Ledger {
    l.(checked := l.checked + steps, undone := l.undone + steps, history := l.history + CompensatedRecords(steps))
  }

  /** The first compensation of a phase, with what is left to do. */
  lemma {:induction false} UndoStep(
      env: Environment, s: State, k: nat, handler: bool, initial: SagaData) returns (s1: State, result: UndoResult)
    requires Consistent(env, s, initial) && 0 < k <= |s.compensable|
    ensures Consistent(env, s1, initial) && s1.compensable == s.compensable && s1.data == s.data
    ensures Replay(s1.trace, initial) == UndoEntry(Replay(s.trace, initial), s.compensable[k - 1], result)
    ensures result.AllUndone? ==> Undo(env, s, k, handler) == Undo(env, s1, k - 1, handler)
    ensures !result.AllUndone? ==> Undo(env, s, k, handler).0 == s1 && Undo(env, s, k, handler).1 == result
  {
    UndoOneKeeps(env, s, s.compensable[k - 1], handler, initial);
    var next := UndoOne(env, s, s.compensable[k - 1], handler);
    s1, result := next.0, next.1;
  }

  /** How a compensation phase reads when `n` of `k` compensations completed. */
  ghost predicate UndidN(l: Ledger, l1: Ledger, steps: seq<Step>, k: nat, n: nat, result: UndoResult)
    requires n <= k <= |steps|
  {
    var done := UndoEntries(l, Reversed(steps[k - n..k]));
    && (result.AllUndone? <==> n == k)
    && l1 == if n == k then done else UndoEntry(done, steps[k - n - 1], result)
  }

  /** The same, one compensation at a time. */
  ghost predicate Unwinds(l: Ledger, l1: Ledger, steps: seq<Step>, k: nat, n: nat, result: UndoResult)
    requires n <= k <= |steps|
    decreases n
  {
    if n > 0 then Unwinds(UndoEntry(l, steps[k - 1], AllUndone), l1, steps, k - 1, n - 1, result)
    else if k == 0 then result.AllUndone? && l1 == l
    else !result.AllUndone? && l1 == UndoEntry(l, steps[k - 1], result)
  }

  lemma {:induction false} UndoUnwinds(env: Environment, s: State, k: nat, handler: bool, initial: SagaData)
    returns (n: nat, s1: State, result: UndoResult)
    requires Consistent(env, s, initial) && k <= |s.compensable|
    ensures Undo(env, s, k, handler).0 == s1 && Undo(env, s, k, handler).1 == result
    ensures Consistent(env, s1, initial) && s1.compensable == s.compensable && s1.data == s.data
    ensures n <= k && Unwinds(Replay(s.trace, initial), Replay(s1.trace, initial), s.compensable, k, n, result)
    decreases k
  {
    var l := Replay(s.trace, initial);
    if k == 0 {
      n, s1, result := 0, s, AllUndone;
      UnwindsNone(l, s.compensable);
    } else {
      s1, result := UndoStep(env, s, k, handler, initial);
      var l1 := Replay(s1.trace, initial);
      if result.AllUndone? {
        var m, s2, end := UndoUnwinds(env, s1, k - 1, handler, initial);
        UnwindsMore(l, l1, Replay(s2.trace, initial), s.compensable, k, m, end);
        n, s1, result := m + 1, s2, end;
      } else {
        n := 0;
        UnwindsStopped(l, l1, s.compensable, k, result);
      }
    }
  }

  lemma {:induction false} UnwindsNone(l: Ledger, steps: seq<Step>)
    ensures Unwinds(l, l, steps, 0, 0, AllUndone)
  {
  }

  lemma {:induction false} UnwindsStopped(l: Ledger, l1: Ledger, steps: seq<Step>, k: nat, result: UndoResult)
    requires 0 < k <= |steps| && !result.AllUndone? && l1 == UndoEntry(l, steps[k - 1], result)
    ensures Unwinds(l, l1, steps, k, 0, result)
  {
  }

  lemma {:induction false} UnwindsMore(
      l: Ledger, l1: Ledger, l2: Ledger, steps: seq<Step>, k: nat, m: nat, result: UndoResult)
    requires m < k <= |steps| && l1 == UndoEntry(l, steps[k - 1], AllUndone)
    requires Unwinds(l1, l2, steps, k - 1, m, result)
    ensures Unwinds(l, l2, steps, k, m + 1, result)
  {
  }

  lemma {:induction false} UnwindsInReverse(l: Ledger, l1: Ledger, steps: seq<Step>, k: nat, n: nat, result: UndoResult)
    requires n <= k <= |steps| && Unwinds(l, l1, steps, k, n, result)
    ensures UndidN(l, l1, steps, k, n, result)
    decreases n
  {
    if n > 0 {
      UnwindsInReverse(UndoEntry(l, steps[k - 1], AllUndone), l1, steps, k - 1, n - 1, result);
      MoreEntries(l, steps, k - n, k);
    } else {
      assert steps[k..k] == [];
      NoEntries(l);
    }
  }

  /** The whole compensation phase: `n` compensations complete in reverse
      order of commitment, and if that is not all of them then exactly one more
      was authorized, it left at most one FAILED record, and nothing after it
      was touched. */
  lemma {:induction false} UndoIsLifo(env: Environment, s: State, k: nat, handler: bool, initial: SagaData)
    returns (n: nat, s1: State, result: UndoResult)
    requires Consistent(env, s, initial) && k <= |s.compensable|
    ensures Undo(env, s, k, handler).0 == s1 && Undo(env, s, k, handler).1 == result
    ensures Consistent(env, s1, initial) && s1.compensable == s.compensable && s1.data == s.data
    ensures n <= k && UndidN(Replay(s.trace, initial), Replay(s1.trace, initial), s.compensable, k, n, result)
  {
    n, s1, result := UndoUnwinds(env, s, k, handler, initial);
    UnwindsInReverse(Replay(s.trace, initial), Replay(s1.trace, initial), s.compensable, k, n, result);
  }

  lemma {:induction false} NoEntries(l: Ledger)
    ensures UndoEntries(l, Reversed<Step>([])) == l
  {
  }

  lemma {:induction false} MoreEntries(l: Ledger, steps: seq<Step>, i: nat, k: nat)
    requires i < k <= |steps|
    ensures UndoEntries(l, Reversed(steps[i..k]))
         == UndoEntries(UndoEntry(l, steps[k - 1], AllUndone), Reversed(steps[i..k - 1]))
  {
    assert steps[i..k][..k - 1 - i] == steps[i..k - 1];
    EntriesAfter(l, steps[k - 1], Reversed(steps[i..k - 1]));
  }

  lemma {:induction false} EntriesAfter(l: Ledger, step: Step, rest: seq<Step>)
    ensures UndoEntries(l, [step] + rest) == UndoEntries(UndoEntry(l, step, AllUndone), rest)
  {
    assert ([step] + rest)[1..] == rest;
    Regroup(l.checked, [step], rest);
    Regroup(l.undone, [step], rest);
    Regroup(l.history, [StepRecord(step.name, Compensated)], CompensatedRecords(rest));
  }

  lemma {:induction false} Regroup<T>(a: seq<T>, b: seq<T>, c: seq<T>)
    ensures a + (b + c) == a + b + c
  {
  }

  // ----- Whole runs -----

  lemma {:induction false} FreshIsConsistent(env: Environment, data: SagaData)
    ensures Going(env, Initial(data), data)
  {
  }

  lemma {:induction false} RunItemsKeeps(env: Environment, data: SagaData, flow: SagaFlow)
    requires env.Valid()
    ensures Consistent(env, RunItems(env, Initial(data), flow).0, data)
  {
    FreshIsConsistent(env, data);
    ForwardKeeps(env, Initial(data), flow.items, data);
    var (s, end) := Forward(env, Initial(data), flow.items);
    var n, s1, result := UndoIsLifo(env, s, |s.compensable|, flow.hasFailureHandler, data);
  }

  /** Every run, however it ends, leaves fields that agree with its trace. */
  lemma {:induction false} RunIsConsistent(env: Environment, data: SagaData, flow: SagaFlow)
    requires env.Valid()
    ensures Consistent(env, Run(env, data, flow).0, data)
  {
    FreshIsConsistent(env, data);
    RunItemsKeeps(env, data, flow);
    var s := RunItems(env, Initial(data), flow).0;
    var n, s1, result := UndoIsLifo(env, s, |s.compensable|, flow.hasFailureHandler, data);
  }

  lemma {:induction false} OrderedAt(env: Environment, trace: seq<Event>, initial: SagaData, i: nat)
    requires WellOrdered(env, trace, initial) && i < |trace|
    ensures MayFollow(env, trace[..i], trace[i], Replay(trace[..i], initial))
    decreases |trace|
  {
    var n := |trace| - 1;
    if i < n {
      OrderedAt(env, trace[..n], initial, i);
      assert trace[..n][..i] == trace[..i];
    }
  }

  /** A callback of `step` starts at `i`: the event before it is an authorization
      of `boundary` that `Authorized` grants for the data in force, at the tick
      the run had reached. */
  ghost predicate StartsAuthorized(env: Environment, trace: seq<Event>, initial: SagaData, i: nat,
                                   step: Step, boundary: Option<Boundary>, data: SagaData)
    requires i < |trace|
  {
    && i > 0
    && var l := Replay(trace[..i - 1], initial);
    && data == l.data
    && trace[i - 1] == Checked(step, boundary, data, Ticks(l), true)
    && Authorized(env, Ticks(l), boundary, data)
  }

  lemma {:induction false} OrderedStart(env: Environment, trace: seq<Event>, initial: SagaData, i: nat,
                                        step: Step, boundary: Option<Boundary>)
    requires WellOrdered(env, trace, initial) && i < |trace|
    requires || (trace[i].Started? && trace[i].step == step && boundary == step.auth)
             || (trace[i].UndoStarted? && trace[i].step == step && boundary == step.compensateAuth)
    ensures StartsAuthorized(env, trace, initial, i, step, boundary, trace[i].data)
  {
    OrderedAt(env, trace, initial, i);
    OrderedAt(env, trace, initial, i - 1);
    assert trace[..i][..i - 1] == trace[..i - 1];
  }

  /** Every action attempt, retries and parallel children included, starts right
      after its own boundary was authorized, and every compensation right after
      its own was, against the data in force and at the tick of that moment. */
  lemma {:induction false} NothingStartsUnauthorized(env: Environment, data: SagaData, flow: SagaFlow, i: nat)
    requires env.Valid() && i < |Run(env, data, flow).0.trace|
    ensures var trace := Run(env, data, flow).0.trace; var e := trace[i];
            && (e.Started? ==> StartsAuthorized(env, trace, data, i, e.step, e.step.auth, e.data))
            && (e.UndoStarted? ==> StartsAuthorized(env, trace, data, i, e.step, e.step.compensateAuth, e.data))
  {
    RunIsConsistent(env, data, flow);
    var trace := Run(env, data, flow).0.trace;
    if trace[i].Started? {
      OrderedStart(env, trace, data, i, trace[i].step, trace[i].step.auth);
    } else if trace[i].UndoStarted? {
      OrderedStart(env, trace, data, i, trace[i].step, trace[i].step.compensateAuth);
    }
  }

  /** An action returned data carrying its own snapshot. */
  predicate Supplies(e: Event) {
    e.Finished? && e.outcome.Returned? && e.outcome.value.Some? && e.outcome.value.value.snapshot.Some?
  }

  lemma {:induction false} SnapshotStep(env: Environment, trace: seq<Event>, initial: SagaData, j: nat)
    requires WellOrdered(env, trace, initial) && j < |trace|
    requires Replay(trace[..j], initial).data.snapshot.Some?
    ensures Replay(trace[..j + 1], initial).data.snapshot.Some?
    ensures (j > 0 && Supplies(trace[j - 1]))
         || Replay(trace[..j + 1], initial).data.snapshot == Replay(trace[..j], initial).data.snapshot
  {
    OrderedAt(env, trace, initial, j);
    Entered(trace[..j], trace[j], initial);
    assert trace[..j] + [trace[j]] == trace[..j + 1];
  }

  /** Once the data holds a snapshot it holds one for the rest of the run, and
      the same one unless an action supplied its own in between. */
  lemma {:induction false} SnapshotPersists(env: Environment, trace: seq<Event>, initial: SagaData, i: nat, j: nat)
    requires WellOrdered(env, trace, initial) && i <= j <= |trace|
    requires Replay(trace[..i], initial).data.snapshot.Some?
    ensures var (a, b) := (Replay(trace[..i], initial).data.snapshot, Replay(trace[..j], initial).data.snapshot);
            && b.Some?
            && ((forall k | 0 <= k < j && i <= k + 1 :: !Supplies(trace[k])) ==> b == a)
    decreases j - i
  {
    if i < j {
      SnapshotPersists(env, trace, initial, i, j - 1);
      SnapshotStep(env, trace, initial, j - 1);
    }
  }

  lemma {:induction false} SnapshotIsCarried(env: Environment, data: SagaData, flow: SagaFlow, j: nat)
    requires env.Valid() && data.snapshot.Some?
    requires j <= |Run(env, data, flow).0.trace|
    ensures var trace := Run(env, data, flow).0.trace; var snapshot := Replay(trace[..j], data).data.snapshot;
            && snapshot.Some?
            && ((forall k | 0 <= k < j :: !Supplies(trace[k])) ==> snapshot == data.snapshot)
  {
    RunIsConsistent(env, data, flow);
    SnapshotPersists(env, Run(env, data, flow).0.trace, data, 0, j);
  }

  /** A run that reports FAILED undid exactly the committed compensable steps
      of its forward phase, each once, last first, and its history is the
      forward history followed by those compensations. */
  lemma {:induction false} FailedRunsUndoInReverse(env: Environment, data: SagaData, flow: SagaFlow)
    requires env.Valid()
    requires RunItems(env, Initial(data), flow).1.FailedAt?
    ensures var forth := Forward(env, Initial(data), flow.items).0;
            var s := RunItems(env, Initial(data), flow).0;
            var steps := Reversed(Replay(forth.trace, data).undoable);
            && Replay(s.trace, data).undone == steps
            && s.history == forth.history + CompensatedRecords(steps)
  {
    FreshIsConsistent(env, data);
    ForwardKeeps(env, Initial(data), flow.items, data);
    var forth := Forward(env, Initial(data), flow.items).0;
    var k := |forth.compensable|;
    var n, s1, result := UndoIsLifo(env, forth, k, flow.hasFailureHandler, data);
    assert forth.compensable[0..k] == forth.compensable;
  }
}
