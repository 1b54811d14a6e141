/** The retry bound of serial steps and the settlement of parallel groups. */
module SagaRetry {
  import opened Wrappers
  import opened Saga
  import opened SagaProperties

  /** How often a serial step may be attempted. */
  function MaxAttempts(strategy: Strategy): nat {
    if strategy.Retry? && strategy.maxAttempts > 1 then strategy.maxAttempts else 1
  }

  /** Whether a step that never commits lets the run go on. */
  predicate FinallySkips(strategy: Strategy) {
    strategy.Skip? || (strategy.Retry? && strategy.thenSkip)
  }

  function Repeated(step: Step, n: nat): seq<Step> {
    seq(n, _ => step)
  }

  lemma {:induction false} AttemptEntry(env: Environment, s: State, step: Step, initial: SagaData)
    ensures var l := Replay(s.trace, initial);
            Replay(Attempt(env, s, step).0.trace, initial) == l.(checked := l.checked + [step])
  {
    var allowed := Authorized(env, s.clock, step.auth, s.data);
    var s1 := Check(s, step, step.auth, allowed);
    Entered(s.trace, Checked(step, step.auth, s.data, s.clock, allowed), initial);
    if allowed {
      var s2 := Emit(s1, Started(step, s.data));
      Entered(s1.trace, Started(step, s.data), initial);
      Entered(s2.trace, Finished(step, s.data, Settled(step, env.action(s.clock))), initial);
    }
  }

  // ----- Backoff -----

  function Pow2(n: nat): real {
    if n == 0 then 1.0 else 2.0 * Pow2(n - 1)
  }

  /** `x` doubled `n` times. */
  function Doubled(x: real, n: nat): real {
    if n == 0 then x else 2.0 * Doubled(x, n - 1)
  }

  /** `delay_for`. */
  function DelayFor(nap: Nap): real {
    if nap.attempt == 0 then nap.base / 2.0 else Doubled(nap.base, nap.attempt - 1)
  }

  /** The delay before a retry is base * 2^(attempt - 1). */
  lemma {:induction false} DelayIsExponential(base: real, n: nat)
    ensures DelayFor(Nap(base, n + 1)) == Doubled(base, n) == base * Pow2(n)
  {
    if n > 0 {
      DelayIsExponential(base, n - 1);
      var p := Pow2(n - 1);
      assert 2.0 * (base * p) == base * (2.0 * p);
    }
  }

  function TotalDelay(naps: seq<Nap>): real
    decreases |naps|
  {
    if naps == [] then 0.0 else TotalDelay(naps[..|naps| - 1]) + DelayFor(naps[|naps| - 1])
  }

  /** The backoffs before attempts `attempt` to `last`. */
  function Backoffs(base: real, attempt: nat, last: int): seq<Nap>
    requires attempt >= 2
    decreases last + 1 - attempt
  {
    if attempt > last then [] else [Nap(base, attempt - 1)] + Backoffs(base, attempt + 1, last)
  }

  lemma {:induction false} TotalDelayOneMore(naps: seq<Nap>, nap: Nap)
    ensures TotalDelay(naps + [nap]) == TotalDelay(naps) + DelayFor(nap)
  {
    assert (naps + [nap])[..|naps|] == naps;
  }

  /** Exponential delays telescope. */
  lemma {:induction false} TotalDelayClosed(naps: seq<Nap>, base: real, attempt: nat, last: nat)
    requires 2 <= attempt <= last + 1
    ensures TotalDelay(naps + Backoffs(base, attempt, last))
         == TotalDelay(naps) + Doubled(base, last - 1) - Doubled(base, attempt - 2)
    decreases last + 1 - attempt
  {
    if attempt > last {
      assert naps + [] == naps;
    } else {
      var nap := Nap(base, attempt - 1);
      TotalDelayOneMore(naps, nap);
      TotalDelayClosed(naps + [nap], base, attempt + 1, last);
      Regrouped(naps, nap, Backoffs(base, attempt + 1, last));
    }
  }

  lemma {:induction false} Regrouped(naps: seq<Nap>, nap: Nap, rest: seq<Nap>)
    ensures naps + [nap] + rest == naps + ([nap] + rest)
  {
  }

  // ----- Retries -----

  /** What `n` retries starting at `attempt` did to the ledger. */
  ghost predicate Retried(l: Ledger, l1: Ledger, step: Step, attempt: nat, n: nat, end: Flow)
    requires step.onError.Retry? && attempt >= 2
  {
    var last := step.onError.maxAttempts;
    && (attempt <= last + 1 ==> attempt + n <= last + 1)
    && (attempt > last + 1 ==> n == 0)
    && l1.checked == l.checked + Repeated(step, n)
    && (l1.committed == l.committed || l1.committed == l.committed + [step])
    && (!end.Abort? ==> (end.Continue? <==> l1.committed != l.committed || step.onError.thenSkip))
    && (!end.Abort? && l1.committed == l.committed ==>
          && (attempt <= last + 1 ==> attempt + n == last + 1)
          && l1.naps == l.naps + Backoffs(step.onError.base, attempt, last))
  }

  lemma {:induction false} RetryEntries(
      env: Environment, s: State, step: Step, attempt: nat, last: Error, initial: SagaData)
    returns (n: nat, s1: State, end: Flow)
    requires step.onError.Retry? && attempt >= 2
    ensures Retrying(env, s, step, attempt, last) == (s1, end)
    ensures Retried(Replay(s.trace, initial), Replay(s1.trace, initial), step, attempt, n, end)
    decreases step.onError.maxAttempts + 1 - attempt, 1
  {
    if attempt > step.onError.maxAttempts {
      n, s1, end := 0, s, if step.onError.thenSkip then Continue else Stop(step.name, last);
      NoRetry(Replay(s.trace, initial), step, attempt, end);
    } else if AttemptAgain(env, s, step, attempt).1.Raised? {
      n, s1, end := RetryAfterFailure(env, s, step, attempt, last, initial);
    } else {
      n, s1, end := RetryEnds(env, s, step, attempt, last, initial);
    }
  }

  lemma {:induction false} NoRetry(l: Ledger, step: Step, attempt: nat, end: Flow)
    requires step.onError.Retry? && attempt >= 2 && attempt > step.onError.maxAttempts
    requires !end.Abort? && (end.Continue? <==> step.onError.thenSkip)
    ensures Retried(l, l, step, attempt, 0, end)
  {
    assert l.checked + Repeated(step, 0) == l.checked;
    assert l.naps + [] == l.naps;
  }

  lemma {:induction false} RetryAfterFailure(
      env: Environment, s: State, step: Step, attempt: nat, last: Error, initial: SagaData)
    returns (n: nat, s1: State, end: Flow)
    requires step.onError.Retry? && 2 <= attempt <= step.onError.maxAttempts
    requires AttemptAgain(env, s, step, attempt).1.Raised?
    ensures Retrying(env, s, step, attempt, last) == (s1, end)
    ensures Retried(Replay(s.trace, initial), Replay(s1.trace, initial), step, attempt, n, end)
    decreases step.onError.maxAttempts + 1 - attempt, 0
  {
    var (a, outcome) := AttemptAgain(env, s, step, attempt);
    var s2 := Note(a, step, Failed);
    FailedAgainEntry(env, s, step, attempt, initial);
    var m;
    m, s1, end := RetryEntries(env, s2, step, attempt + 1, outcome.error, initial);
    n := m + 1;
    OneMoreRetry(Replay(s.trace, initial), Replay(s2.trace, initial), Replay(s1.trace, initial), step, attempt, m, end);
  }

  lemma {:induction false} FailedAgainEntry(env: Environment, s: State, step: Step, attempt: nat, initial: SagaData)
    requires step.onError.Retry? && attempt >= 2 && AttemptAgain(env, s, step, attempt).1.Raised?
    ensures var l := Replay(s.trace, initial);
            var l1 := Replay(Note(AttemptAgain(env, s, step, attempt).0, step, Failed).trace, initial);
            && l1.checked == l.checked + [step] && l1.committed == l.committed
            && l1.naps == l.naps + [Nap(step.onError.base, attempt - 1)]
  {
    AttemptAgainEntry(env, s, step, attempt, initial);
    var s1 := AttemptAgain(env, s, step, attempt).0;
    Entered(s1.trace, Noted(step, Failed), initial);
    assert Note(s1, step, Failed).trace == s1.trace + [Noted(step, Failed)];
  }

  lemma {:induction false} RetryEnds(
      env: Environment, s: State, step: Step, attempt: nat, last: Error, initial: SagaData)
    returns (n: nat, s1: State, end: Flow)
    requires step.onError.Retry? && 2 <= attempt <= step.onError.maxAttempts
    requires !AttemptAgain(env, s, step, attempt).1.Raised?
    ensures Retrying(env, s, step, attempt, last) == (s1, end)
    ensures Retried(Replay(s.trace, initial), Replay(s1.trace, initial), step, attempt, n, end)
  {
    var (a, outcome) := AttemptAgain(env, s, step, attempt);
    AttemptAgainEntry(env, s, step, attempt, initial);
    CommitEntry(a, step, if outcome.Returned? then outcome.value else None, initial);
    var next := Retrying(env, s, step, attempt, last);
    s1, end := next.0, next.1;
    n := LastRetry(Replay(s.trace, initial), Replay(s1.trace, initial), step, attempt, end);
  }

  lemma {:induction false} LastRetry(l: Ledger, l1: Ledger, step: Step, attempt: nat, end: Flow) returns (n: nat)
    requires step.onError.Retry? && 2 <= attempt <= step.onError.maxAttempts
    requires l1.checked == l.checked || l1.checked == l.checked + [step]
    requires (end.Abort? && l1.committed == l.committed) || (end.Continue? && l1.committed == l.committed + [step])
    ensures Retried(l, l1, step, attempt, n, end)
  {
    assert l.checked + Repeated(step, 0) == l.checked;
    assert Repeated(step, 1) == [step];
    n := if l1.checked == l.checked then 0 else 1;
  }

  lemma {:induction false} OneMoreRetry(l: Ledger, l1: Ledger, l2: Ledger, step: Step, attempt: nat, m: nat, end: Flow)
    requires step.onError.Retry? && 2 <= attempt <= step.onError.maxAttempts
    requires l1.checked == l.checked + [step] && l1.committed == l.committed
    requires l1.naps == l.naps + [Nap(step.onError.base, attempt - 1)]
    requires Retried(l1, l2, step, attempt + 1, m, end)
    ensures Retried(l, l2, step, attempt, m + 1, end)
  {
    assert l.checked + [step] + Repeated(step, m) == l.checked + Repeated(step, m + 1);
    var rest := Backoffs(step.onError.base, attempt + 1, step.onError.maxAttempts);
    assert l.naps + [Nap(step.onError.base, attempt - 1)] + rest
        == l.naps + ([Nap(step.onError.base, attempt - 1)] + rest);
  }

  lemma {:induction false} AttemptAgainEntry(env: Environment, s: State, step: Step, attempt: nat, initial: SagaData)
    requires step.onError.Retry? && attempt >= 2
    ensures var l := Replay(s.trace, initial);
            Replay(AttemptAgain(env, s, step, attempt).0.trace, initial)
            == l.(naps := l.naps + [Nap(step.onError.base, attempt - 1)],
                  checked := l.checked + if env.sleep(s.clock).Some? then [] else [step])
  {
    var nap := Nap(step.onError.base, attempt - 1);
    Entered(s.trace, Slept(nap), initial);
    AttemptEntry(env, Doze(s, nap), step, initial);
  }

  lemma {:induction false} ReplaceEntry(s: State, value: Option<SagaData>, initial: SagaData)
    ensures var l, l1 := Replay(s.trace, initial), Replay(Replace(s, value).trace, initial);
            l1.checked == l.checked && l1.naps == l.naps && l1.committed == l.committed
  {
    if value.Some? {
      Entered(s.trace, Replaced(Preserve(s.data, value.value)), initial);
    }
  }

  lemma {:induction false} CommitEntry(s: State, step: Step, value: Option<SagaData>, initial: SagaData)
    ensures var l, l1 := Replay(s.trace, initial), Replay(Commit(s, step, value).trace, initial);
            l1.checked == l.checked && l1.naps == l.naps && l1.committed == l.committed + [step]
  {
    ReplaceEntry(s, value, initial);
    var s1 := Replace(s, value);
    Entered(s1.trace, Noted(step, Committed), initial);
    assert Commit(s, step, value).trace == s1.trace + [Noted(step, Committed)];
  }

  /** The contract of one serial step after `n` attempts. */
  ghost predicate Bounded(l: Ledger, l1: Ledger, step: Step, n: nat, end: Flow) {
    && 1 <= n <= MaxAttempts(step.onError)
    && l1.checked == l.checked + Repeated(step, n)
    && (l1.committed == l.committed || l1.committed == l.committed + [step])
    && (!end.Abort? ==> (end.Continue? <==> l1.committed != l.committed || FinallySkips(step.onError)))
    && (!end.Abort? && l1.committed == l.committed ==>
          n == MaxAttempts(step.onError))
    && BackedOff(l, l1, step, end)
  }

  /** An exhausted retry slept before every attempt but the first. */
  ghost predicate BackedOff(l: Ledger, l1: Ledger, step: Step, end: Flow) {
    !end.Abort? && l1.committed == l.committed && step.onError.Retry? ==>
      l1.naps == l.naps + Backoffs(step.onError.base, 2, step.onError.maxAttempts)
  }

  /** An exhausted retry slept base * 2^(MaxAttempts - 1) - base in all. */
  ghost predicate SleptInAll(l: Ledger, l1: Ledger, step: Step, end: Flow) {
    !end.Abort? && l1.committed == l.committed && step.onError.Retry? ==>
      TotalDelay(l1.naps)
      == TotalDelay(l.naps) + Doubled(step.onError.base, MaxAttempts(step.onError) - 1) - step.onError.base
  }

  lemma {:induction false} RetriesAreBounded(l: Ledger, l1: Ledger, l2: Ledger, step: Step, m: nat, end: Flow)
    requires step.onError.Retry?
    requires l1.checked == l.checked + [step] && l1.committed == l.committed && l1.naps == l.naps
    requires Retried(l1, l2, step, 2, m, end)
    ensures Bounded(l, l2, step, m + 1, end)
  {
    assert l.checked + [step] + Repeated(step, m) == l.checked + Repeated(step, m + 1);
  }

  lemma {:induction false} BackoffsTotal(naps: seq<Nap>, base: real, last: int)
    ensures var top := if last > 1 then last else 1;
            TotalDelay(naps + Backoffs(base, 2, last)) == TotalDelay(naps) + Doubled(base, top - 1) - base
  {
    if last >= 1 {
      TotalDelayClosed(naps, base, 2, last);
    } else {
      assert naps + [] == naps;
    }
  }

  lemma {:induction false} BackedOffSleeps(l: Ledger, l1: Ledger, step: Step, end: Flow)
    requires BackedOff(l, l1, step, end)
    ensures SleptInAll(l, l1, step, end)
  {
    if step.onError.Retry? {
      BackoffsTotal(l.naps, step.onError.base, step.onError.maxAttempts);
    }
  }

  /** A serial step is attempted between once and `MaxAttempts` times and
      commits at most once.  Unless it was cut off, the run goes on exactly
      when the step committed or its final strategy is to skip, and a step
      that never committed used every attempt and slept
      base * 2^(MaxAttempts - 1) - base in all. */
  lemma {:induction false} RetryBound(env: Environment, s: State, step: Step, initial: SagaData)
    returns (n: nat, s1: State, end: Flow)
    ensures SerialStep(env, s, step) == (s1, end)
    ensures Bounded(Replay(s.trace, initial), Replay(s1.trace, initial), step, n, end)
    ensures SleptInAll(Replay(s.trace, initial), Replay(s1.trace, initial), step, end)
  {
    if Attempt(env, s, step).1.Raised? && step.onError.Retry? {
      n, s1, end := BoundWithRetries(env, s, step, initial);
    } else {
      n := 1;
      s1, end := BoundWithoutRetries(env, s, step, initial);
    }
    BackedOffSleeps(Replay(s.trace, initial), Replay(s1.trace, initial), step, end);
  }

  lemma {:induction false} BoundWithRetries(env: Environment, s: State, step: Step, initial: SagaData)
    returns (n: nat, s1: State, end: Flow)
    requires Attempt(env, s, step).1.Raised? && step.onError.Retry?
    ensures SerialStep(env, s, step) == (s1, end)
    ensures Bounded(Replay(s.trace, initial), Replay(s1.trace, initial), step, n, end)
  {
    var (a, outcome) := Attempt(env, s, step);
    var s2 := Note(a, step, Failed);
    FailedEntry(env, s, step, initial);
    var m;
    m, s1, end := RetryEntries(env, s2, step, 2, outcome.error, initial);
    n := m + 1;
    RetriesAreBounded(Replay(s.trace, initial), Replay(s2.trace, initial), Replay(s1.trace, initial), step, m, end);
  }

  lemma {:induction false} FailedEntry(env: Environment, s: State, step: Step, initial: SagaData)
    ensures var l := Replay(s.trace, initial);
            var l1 := Replay(Note(Attempt(env, s, step).0, step, Failed).trace, initial);
            l1.checked == l.checked + [step] && l1.committed == l.committed && l1.naps == l.naps
  {
    AttemptEntry(env, s, step, initial);
    Entered(Attempt(env, s, step).0.trace, Noted(step, Failed), initial);
  }

  lemma {:induction false} BoundWithoutRetries(env: Environment, s: State, step: Step, initial: SagaData)
    returns (s1: State, end: Flow)
    requires !(Attempt(env, s, step).1.Raised? && step.onError.Retry?)
    ensures SerialStep(env, s, step) == (s1, end)
    ensures Bounded(Replay(s.trace, initial), Replay(s1.trace, initial), step, 1, end)
  {
    var (a, outcome) := Attempt(env, s, step);
    AttemptEntry(env, s, step, initial);
    FailedEntry(env, s, step, initial);
    CommitEntry(a, step, if outcome.Returned? then outcome.value else None, initial);
    var next := SerialStep(env, s, step);
    s1, end := next.0, next.1;
    SingleAttempt(Replay(s.trace, initial), Replay(s1.trace, initial), step, end);
  }

  lemma {:induction false} SingleAttempt(l: Ledger, l1: Ledger, step: Step, end: Flow)
    requires l1.checked == l.checked + [step]
    requires || (end.Abort? && l1.committed == l.committed)
             || (end.Continue? && l1.committed == l.committed + [step])
             || (!step.onError.Retry? && l1.committed == l.committed && (end.Continue? <==> step.onError.Skip?))
    ensures Bounded(l, l1, step, 1, end)
  {
    assert Repeated(step, 1) == [step];
  }

  // ----- Parallel groups -----

  /** The children that returned, in declaration order. */
  function Succeeded(steps: seq<Step>, outcomes: seq<Outcome>): seq<Step>
    requires |steps| == |outcomes|
    decreases |steps|
  {
    if steps == [] then []
    else (if outcomes[0].Returned? then [steps[0]] else []) + Succeeded(steps[1..], outcomes[1..])
  }

  lemma {:induction false} StartsCommitNothing(env: Environment, s: State, steps: seq<Step>, initial: SagaData)
    ensures Replay(StartAll(env, s, steps).trace, initial).committed == Replay(s.trace, initial).committed
    decreases |steps|
  {
    if steps != [] {
      var allowed := Authorized(env, s.clock, steps[0].auth, s.data);
      Entered(s.trace, Checked(steps[0], steps[0].auth, s.data, s.clock, allowed), initial);
      Entered(Check(s, steps[0], steps[0].auth, allowed).trace, Started(steps[0], s.data), initial);
      StartsCommitNothing(env, StartOne(env, s, steps[0]), steps[1..], initial);
    }
  }

  lemma {:induction false} FinishesCommitNothing(
      env: Environment, s: State, clock: nat, steps: seq<Step>, order: seq<nat>, initial: SagaData)
    requires forall i | 0 <= i < |order| :: order[i] < |steps|
    ensures var s1 := FinishAll(env, s, clock, steps, order);
            Replay(s1.trace, initial).committed == Replay(s.trace, initial).committed && s1.data == s.data
    decreases |order|
  {
    if order != [] {
      var k := order[0];
      Entered(s.trace, Finished(steps[k], s.data, Settled(steps[k], env.action(clock + k))), initial);
      FinishesCommitNothing(env, FinishOne(env, s, clock + k, steps[k]), clock, steps, order[1..], initial);
    }
  }

  lemma {:induction false} Joined(a: seq<Step>, b: seq<Step>, c: seq<Step>)
    ensures a + b + c == a + (b + c)
  {
  }

  lemma {:induction false} SettleOneCommits(s: State, step: Step, outcome: Outcome, initial: SagaData)
    ensures var s1 := SettleOne(s, step, outcome);
            && Replay(s1.trace, initial).committed
                  == Replay(s.trace, initial).committed + (if outcome.Returned? then [step] else [])
            && s1.data == s.data
  {
    Entered(s.trace, Noted(step, if outcome.Returned? then Committed else Failed), initial);
  }

  lemma {:induction false} SettlesCommit(s: State, steps: seq<Step>, outcomes: seq<Outcome>, initial: SagaData)
    requires |steps| == |outcomes|
    ensures var s1 := SettleAll(s, steps, outcomes);
            && Replay(s1.trace, initial).committed == Replay(s.trace, initial).committed + Succeeded(steps, outcomes)
            && s1.data == s.data
    decreases |steps|
  {
    if steps != [] {
      SettleOneCommits(s, steps[0], outcomes[0], initial);
      SettlesCommit(SettleOne(s, steps[0], outcomes[0]), steps[1..], outcomes[1..], initial);
      var first := if outcomes[0].Returned? then [steps[0]] else [];
      Joined(Replay(s.trace, initial).committed, first, Succeeded(steps[1..], outcomes[1..]));
    }
  }

  /** The reported failure is the first in declaration order. */
  lemma {:induction false} FirstFailureIsFirst(steps: seq<Step>, outcomes: seq<Outcome>) returns (k: nat)
    requires |steps| == |outcomes|
    ensures k <= |steps| && forall i | 0 <= i < k :: !outcomes[i].Raised?
    ensures FirstFailure(steps, outcomes).None? <==> k == |steps|
    ensures k < |steps| ==> outcomes[k].Raised?
    ensures k < |steps| ==> FirstFailure(steps, outcomes) == Some(Stop(steps[k].name, outcomes[k].error))
    decreases |steps|
  {
    if steps == [] || outcomes[0].Raised? {
      k := 0;
    } else {
      var j := FirstFailureIsFirst(steps[1..], outcomes[1..]);
      k := j + 1;
    }
  }

  lemma {:induction false} ParallelEnd(env: Environment, s: State, steps: seq<Step>) returns (k: nat)
    requires env.Valid()
    ensures var end := ParallelStep(env, s, steps).1;
            var outcomes := Outcomes(env, s.clock, s.data, steps);
            && (end.Continue? <==> forall i | 0 <= i < |steps| :: outcomes[i].Returned?)
            && (end.Abort? <==> exists i | 0 <= i < |steps| :: outcomes[i].Interrupted?)
            && k <= |steps| && (forall i | 0 <= i < k :: !outcomes[i].Raised?)
            && (end.Stop? ==> k < |steps| && outcomes[k].Raised? && end == Stop(steps[k].name, outcomes[k].error))
  {
    var outcomes := Outcomes(env, s.clock, s.data, steps);
    k := FirstFailureIsFirst(steps, outcomes);
    assert forall i | 0 <= i < |steps| :: outcomes[i] == ChildOutcome(env, s.clock + i, s.data, steps[i]);
  }

  /** However the children interleave, a group leaves the data alone, commits
      the successful children in declaration order, goes on exactly when all
      returned, and otherwise reports the first failure in declaration order
      unless a child was cancelled. */
  lemma {:induction false} ParallelSettlesInOrder(
      env: Environment, s: State, steps: seq<Step>, initial: SagaData) returns (k: nat)
    requires env.Valid()
    ensures var (s1, end) := ParallelStep(env, s, steps);
            var outcomes := Outcomes(env, s.clock, s.data, steps);
            && s1.data == s.data
            && Replay(s1.trace, initial).committed == Replay(s.trace, initial).committed + Succeeded(steps, outcomes)
            && (end.Continue? <==> forall i | 0 <= i < |steps| :: outcomes[i].Returned?)
            && (end.Abort? <==> exists i | 0 <= i < |steps| :: outcomes[i].Interrupted?)
            && k <= |steps| && (forall i | 0 <= i < k :: !outcomes[i].Raised?)
            && (end.Stop? ==> k < |steps| && outcomes[k].Raised? && end == Stop(steps[k].name, outcomes[k].error))
  {
    var order := env.order(s.clock, |steps|);
    assert IsOrder(order, |steps|);
    StartKeepsData(env, s, steps);
    StartsCommitNothing(env, s, steps, initial);
    var s1 := StartAll(env, s, steps);
    FinishesCommitNothing(env, s1, s.clock, steps, order, initial);
    var s2 := FinishAll(env, s1, s.clock, steps, order);
    SettlesCommit(s2, steps, Outcomes(env, s.clock, s.data, steps), initial);
    k := ParallelEnd(env, s, steps);
  }
}
