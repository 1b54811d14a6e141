/** The saga executor as the object it is: fields updated in place, one method
    per step of the protocol, each proved to do what Saga's functions say. */
module SagaExecution {
  import opened Wrappers
  import opened Saga

  class SagaExecutor {
    const env: Environment
    const flow: SagaFlow
    var data: SagaData
    var compensable: seq<Step>
    var history: seq<StepRecord>
    var clock: nat
    ghost var trace: seq<Event>

    ghost function Now(): State
      reads this
    {
      State(data, compensable, history, trace, clock)
    }

    constructor (env: Environment, flow: SagaFlow, data: SagaData)
      ensures this.env == env && this.flow == flow && Now() == Initial(data)
    {
      this.env, this.flow, this.data := env, flow, data;
      compensable, history, clock, trace := [], [], 0, [];
    }

    method Record(step: Step, status: StepStatus)
      modifies this`history, this`trace
      ensures Now() == Note(old(Now()), step, status)
    {
      history := history + [StepRecord(step.name, status)];
      trace := trace + [Noted(step, status)];
    }

    method CommitStep(step: Step, value: Option<SagaData>)
      modifies this
      ensures Now() == Commit(old(Now()), step, value)
    {
      if value.Some? {
        data := Preserve(data, value.value);
        trace := trace + [Replaced(data)];
      }
      Record(step, Committed);
      if step.compensable {
        compensable := compensable + [step];
      }
    }

    method InvokeStepAction(step: Step) returns (outcome: Outcome)
      modifies this`clock, this`trace
      ensures (Now(), outcome) == Attempt(env, old(Now()), step)
    {
      var allowed := AuthorizeStep(env, clock, step.auth, data);
      trace := trace + [Checked(step, step.auth, data, clock, allowed)];
      var now := clock;
      clock := clock + 1;
      if !allowed {
        return Raised(AuthDenied);
      }
      trace := trace + [Started(step, data)];
      outcome := Settled(step, env.action(now));
      trace := trace + [Finished(step, data, outcome)];
    }

    method InvokeAfterBackoff(step: Step, attempt: nat) returns (outcome: Outcome)
      requires step.onError.Retry? && attempt >= 2
      modifies this`clock, this`trace
      ensures (Now(), outcome) == AttemptAgain(env, old(Now()), step, attempt)
    {
      var cut := env.sleep(clock);
      trace := trace + [Slept(Nap(step.onError.base, attempt - 1))];
      clock := clock + 1;
      if cut.Some? {
        return Interrupted(cut.value);
      }
      outcome := InvokeStepAction(step);
    }

    method ApplyRetry(step: Step, firstError: Error) returns (end: Flow)
      requires step.onError.Retry?
      modifies this
      ensures (Now(), end) == Retrying(env, old(Now()), step, 2, firstError)
    {
      var lastError := firstError;
      var attempt := 2;
      while attempt <= step.onError.maxAttempts
        invariant attempt >= 2
        invariant Retrying(env, Now(), step, attempt, lastError) == Retrying(env, old(Now()), step, 2, firstError)
        decreases step.onError.maxAttempts + 1 - attempt
      {
        var outcome := InvokeAfterBackoff(step, attempt);
        match outcome {
          case Interrupted(byTimeout) =>
            return Abort(byTimeout);
          case Raised(error) =>
            lastError := error;
            Record(step, Failed);
          case Returned(value) =>
            CommitStep(step, value);
            return Continue;
        }
        attempt := attempt + 1;
      }
      end := if step.onError.thenSkip then Continue else Stop(step.name, lastError);
    }

    method ExecuteSerialStep(step: Step) returns (end: Flow)
      modifies this
      ensures (Now(), end) == SerialStep(env, old(Now()), step)
    {
      var outcome := InvokeStepAction(step);
      match outcome {
        case Interrupted(byTimeout) =>
          end := Abort(byTimeout);
        case Returned(value) =>
          CommitStep(step, value);
          end := Continue;
        case Raised(error) =>
          Record(step, Failed);
          match step.onError {
            case Skip => end := Continue;
            case Compensate => end := Stop(step.name, error);
            case Retry(_, _, _) => end := ApplyRetry(step, error);
          }
      }
    }

    method StartChild(step: Step) returns (result: Outcome)
      modifies this`clock, this`trace
      ensures result == ChildOutcome(env, old(clock), data, step)
      ensures Now() == StartOne(env, old(Now()), step)
    {
      var allowed := AuthorizeStep(env, clock, step.auth, data);
      trace := trace + [Checked(step, step.auth, data, clock, allowed)];
      if allowed {
        trace := trace + [Started(step, data)];
      }
      result := if allowed then Settled(step, env.action(clock)) else Raised(AuthDenied);
      clock := clock + 1;
    }

    /** The gathered children run up to their first suspension in declaration
        order; each will deliver one result. */
    method StartChildren(steps: seq<Step>) returns (results: seq<Outcome>)
      modifies this`clock, this`trace
      ensures AreOutcomes(env, old(clock), data, steps, results)
      ensures Now() == StartAll(env, old(Now()), steps)
    {
      results := [];
      for i := 0 to |steps|
        invariant clock == old(clock) + i && |results| == i
        invariant forall k | 0 <= k < i :: results[k] == ChildOutcome(env, old(clock) + k, data, steps[k])
        invariant StartAll(env, Now(), steps[i..]) == StartAll(env, old(Now()), steps)
      {
        assert steps[i..][0] == steps[i] && steps[i..][1..] == steps[i + 1..];
        var result := StartChild(steps[i]);
        results := results + [result];
      }
    }

    method FinishChild(start: nat, step: Step)
      modifies this`trace
      ensures Now() == FinishOne(env, old(Now()), start, step)
    {
      var started := AuthorizeStep(env, start, step.auth, data);
      if started {
        trace := trace + [Finished(step, data, Settled(step, env.action(start)))];
      }
    }

    /** The children complete in the order the environment picks. */
    method FinishChildren(start: nat, steps: seq<Step>)
      requires env.Valid()
      modifies this`trace
      ensures IsOrder(env.order(start, |steps|), |steps|)
      ensures Now() == FinishAll(env, old(Now()), start, steps, env.order(start, |steps|))
    {
      var order := env.order(start, |steps|);
      assert IsOrder(order, |steps|);
      for i := 0 to |order|
        invariant FinishAll(env, Now(), start, steps, order[i..]) == FinishAll(env, old(Now()), start, steps, order)
      {
        assert order[i..][0] == order[i] && order[i..][1..] == order[i + 1..];
        FinishChild(start + order[i], steps[order[i]]);
      }
    }

    method SettleChild(step: Step, result: Outcome)
      modifies this
      ensures Now() == SettleOne(old(Now()), step, result)
    {
      if result.Returned? {
        Record(step, Committed);
        if step.compensable {
          compensable := compensable + [step];
        }
      } else {
        Record(step, Failed);
      }
    }

    method SettleChildren(steps: seq<Step>, results: seq<Outcome>) returns (end: Flow)
      requires |steps| == |results|
      modifies this
      ensures Now() == SettleAll(old(Now()), steps, results)
      ensures end == if AnyInterrupted(results) then Abort(false)
                     else if FirstFailure(steps, results).Some? then FirstFailure(steps, results).value
                     else Continue
    {
      var failure: Option<Flow> := None;
      var cancellation := false;
      for i := 0 to |steps|
        invariant SettleAll(Now(), steps[i..], results[i..]) == SettleAll(old(Now()), steps, results)
        invariant FirstFailure(steps, results) == if failure.Some? then failure
            else FirstFailure(steps[i..], results[i..])
        invariant cancellation <==> exists k | 0 <= k < i :: results[k].Interrupted?
      {
        assert steps[i..][0] == steps[i] && steps[i..][1..] == steps[i + 1..];
        assert results[i..][0] == results[i] && results[i..][1..] == results[i + 1..];
        SettleChild(steps[i], results[i]);
        if results[i].Interrupted? {
          cancellation := true;
        } else if results[i].Raised? && failure.None? {
          failure := Some(Stop(steps[i].name, results[i].error));
        }
      }
      if cancellation {
        return Abort(false);
      }
      end := if failure.Some? then failure.value else Continue;
    }

    method ExecuteParallel(steps: seq<Step>) returns (end: Flow)
      requires env.Valid()
      modifies this
      ensures (Now(), end) == ParallelStep(env, old(Now()), steps)
    {
      var start := clock;
      StartKeepsData(env, Now(), steps);
      var results := StartChildren(steps);
      assert results == Outcomes(env, start, data, steps);
      FinishChildren(start, steps);
      end := SettleChildren(steps, results);
    }

    method RunCompensation() returns (result: UndoResult)
      modifies this
      ensures (Now(), result) == Undo(env, old(Now()), |old(compensable)|, flow.hasFailureHandler)
      ensures compensable == old(compensable)
    {
      var k := |compensable|;
      while k > 0
        invariant 0 <= k <= |compensable| && compensable == old(compensable)
        invariant Undo(env, Now(), k, flow.hasFailureHandler)
               == Undo(env, old(Now()), |old(compensable)|, flow.hasFailureHandler)
      {
        result := CompensateStep(compensable[k - 1]);
        if !result.AllUndone? {
          return;
        }
        k := k - 1;
      }
      result := AllUndone;
    }

    method CompensateStep(step: Step) returns (result: UndoResult)
      modifies this`history, this`trace, this`clock
      ensures (Now(), result) == UndoOne(env, old(Now()), step, flow.hasFailureHandler)
    {
      var allowed := AuthorizeStep(env, clock, step.compensateAuth, data);
      trace := trace + [Checked(step, step.compensateAuth, data, clock, allowed)];
      var now := clock;
      clock := clock + 1;
      if !allowed {
        Escalated(step);
        return UndoBroken;
      }
      trace := trace + [UndoStarted(step, data)];
      var outcome := env.undo(now);
      match outcome {
        case UndoInterrupted(byTimeout) =>
          result := UndoCut(byTimeout);
        case UndoRaised =>
          trace := trace + [UndoFailed(step, data)];
          Escalated(step);
          result := UndoBroken;
        case UndoDone =>
          trace := trace + [Undone(step, data)];
          Record(step, Compensated);
          result := AllUndone;
      }
    }

    method Escalated(step: Step)
      modifies this`history, this`trace
      ensures Now() == Escalate(Note(old(Now()), step, Failed), flow.hasFailureHandler)
    {
      Record(step, Failed);
      if flow.hasFailureHandler {
        trace := trace + [HandlerCalled(data)];
      }
    }

    method ExecuteItems() returns (result: SagaResult)
      requires env.Valid()
      modifies this
      ensures (Now(), result) == RunItems(env, old(Now()), flow)
    {
      var items := flow.items;
      for i := 0 to |items|
        invariant Forward(env, Now(), items[i..]) == Forward(env, old(Now()), items)
      {
        assert items[i..][0] == items[i] && items[i..][1..] == items[i + 1..];
        var end: Flow;
        match items[i] {
          case Group(steps) => end := ExecuteParallel(steps);
          case Single(step) => end := ExecuteSerialStep(step);
        }
        if end.Abort? {
          return Cancelled(end.byTimeout);
        }
        if end.Stop? {
          var undone := RunCompensation();
          match undone {
            case AllUndone => return FailedAt(end.name, end.error);
            case UndoBroken => return CompensationFailed;
            case UndoCut(byTimeout) => return Cancelled(byTimeout);
          }
        }
      }
      result := Completed;
    }

    method Execute() returns (result: SagaResult)
      requires env.Valid() && Now() == Initial(data)
      modifies this
      ensures (Now(), result) == Run(env, old(data), flow)
    {
      var defined := Normalize();
      if !defined {
        return FlowRejected;
      }
      result := ExecuteItems();
      if flow.hasTimeout && result == Cancelled(true) {
        var undone := RunCompensation();
        match undone {
          case AllUndone => result := TimedOut;
          case UndoBroken => result := CompensationFailed;
          case UndoCut(byTimeout) => result := Cancelled(byTimeout);
        }
      }
    }

    method Normalize() returns (defined: bool)
      ensures defined <==> WellDefined(flow.items)
    {
      for i := 0 to |flow.items|
        invariant WellDefined(flow.items[..i])
      {
        if flow.items[i].Group? {
          var steps := flow.items[i].steps;
          for k := 0 to |steps|
            invariant PlainGroup(steps[..k])
          {
            if !steps[k].onError.Compensate? {
              assert !PlainGroup(steps);
              return false;
            }
          }
          assert steps[..|steps|] == steps;
        }
      }
      assert flow.items[..|flow.items|] == flow.items;
      return true;
    }
  }
}
