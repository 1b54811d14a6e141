/** Each item of a flow, and with it each run, told from what actions, sleeps and
    authorizations answer: how often a step is attempted, what data, records and
    compensations it leaves, how it ends, and what a run reports. */
module SagaNarrative {
  import opened Wrappers
  import opened Saga
  import opened SagaProperties
  import opened SagaRetry

  // ----- One attempt -----

  /** The answer of an attempt made at `tick`: denied, or what the action does; an
      action that its own timeout cut off is a step timeout. */
  ghost function Tried(env: Environment, tick: nat, data: SagaData, step: Step): Outcome {
    if !Authorized(env, tick, step.auth, data) then Raised(AuthDenied)
    else
      match env.action(tick)
      case Returned(value) => Returned(value)
      case Raised(error) => Raised(error)
      case Expired => Raised(if step.hasTimeout then StepTimeout else ActionError(0))
      case Interrupted(byTimeout) => Interrupted(byTimeout)
  }

  lemma {:induction false} ReplaceCarries(s: State, value: Option<SagaData>)
    ensures Carries(s.data, value, Replace(s, value).data)
  {
  }

  /** A guarded step is denied if and only if the data holds no snapshot or an
      empty one, there is no verifier, the verifier does not accept the snapshot,
      or a requirement does not allow it; any other step never is. */
  lemma {:induction false} DeniedIff(env: Environment, tick: nat, boundary: Option<Boundary>, data: SagaData)
    ensures !Authorized(env, tick, boundary, data)
       <==> && boundary.Some? && boundary.value.guarded
            && (|| data.snapshot == None || data.snapshot == Some("") || !env.hasVerifier
                || !env.accepts(tick, data.snapshot.value)
                || exists r | r in boundary.value.requirements :: !env.allows(tick, data.snapshot.value, r))
  {
  }

  // ----- A serial step -----

  /** What attempt `k` of a step that begins in `s` answers: an authorization and
      a sleep lie between two attempts. */
  ghost function Nth(env: Environment, s: State, step: Step, k: nat): Outcome
    requires k >= 1
  {
    Tried(env, s.clock + 2 * (k - 1), s.data, step)
  }

  /** What the sleep after attempt `k` answers. */
  function NthSleep(env: Environment, s: State, k: nat): Option<bool>
    requires k >= 1
  {
    env.sleep(s.clock + 2 * k - 1)
  }

  /** The first `n` attempts failed, and no sleep after them was cut. */
  ghost predicate AllFailed(env: Environment, s: State, step: Step, n: nat) {
    forall k: nat | 1 <= k <= n :: Nth(env, s, step, k).Raised? && NthSleep(env, s, k).None?
  }

  function FailedRecords(step: Step, n: nat): seq<StepRecord> {
    seq(n, _ => StepRecord(step.name, Failed))
  }

  /** `s1` differs from `s` by `n` failed attempts in a row. */
  ghost predicate OnlyFailed(s: State, s1: State, step: Step, n: nat) {
    s1.data == s.data && s1.compensable == s.compensable && s1.history == s.history + FailedRecords(step, n)
  }

  /** How a step ends whose attempts before the `n`-th failed. */
  ghost predicate EndsWith(env: Environment, s: State, step: Step, n: nat, s1: State, end: Flow)
    requires n >= 1
  {
    match Nth(env, s, step, n)
    case Returned(value) =>
      && end == Continue && Carries(s.data, value, s1.data) && s1.clock == s.clock + 2 * n - 1
      && s1.compensable == (if step.compensable then s.compensable + [step] else s.compensable)
      && s1.history == s.history + FailedRecords(step, n - 1) + [StepRecord(step.name, Committed)]
    case Interrupted(byTimeout) =>
      end == Abort(byTimeout) && OnlyFailed(s, s1, step, n - 1) && s1.clock == s.clock + 2 * n - 1
    case Raised(error) =>
      && OnlyFailed(s, s1, step, n)
      && (n == MaxAttempts(step.onError) ==>
            && s1.clock == s.clock + 2 * n - 1
            && end == if FinallySkips(step.onError) then Continue else Stop(step.name, error))
      && (n < MaxAttempts(step.onError) ==>
            && s1.clock == s.clock + 2 * n
            && NthSleep(env, s, n).Some? && end == Abort(NthSleep(env, s, n).value))
    case Expired => false
  }

  lemma {:induction false} AttemptIsTried(env: Environment, s: State, step: Step)
    ensures var (s1, outcome) := Attempt(env, s, step);
            && outcome == Tried(env, s.clock, s.data, step)
            && s1.data == s.data && s1.compensable == s.compensable && s1.history == s.history
            && s1.clock == s.clock + 1
  {
  }

  lemma {:induction false} OneMoreFailed(step: Step, n: nat)
    ensures FailedRecords(step, n) + [StepRecord(step.name, Failed)] == FailedRecords(step, n + 1)
  {
  }

  /** `x` is the state after `n` failed attempts of a step that began in `s`. */
  ghost predicate Failing(s: State, x: State, step: Step, n: nat) {
    n >= 1 && OnlyFailed(s, x, step, n) && x.clock == s.clock + 2 * n - 1
  }

  lemma {:induction false} RetryingEnds(
      env: Environment, s: State, x: State, step: Step, m: nat, last: Error) returns (n: nat)
    requires step.onError.Retry? && Failing(s, x, step, m) && m <= MaxAttempts(step.onError)
    requires AllFailed(env, s, step, m - 1) && Nth(env, s, step, m) == Raised(last)
    ensures m <= n <= MaxAttempts(step.onError) && AllFailed(env, s, step, n - 1)
    ensures var (s1, end) := Retrying(env, x, step, m + 1, last); EndsWith(env, s, step, n, s1, end)
    decreases step.onError.maxAttempts + 1 - m
  {
    if m + 1 > step.onError.maxAttempts || NthSleep(env, s, m).Some? {
      n := m;
      RetryingStops(env, s, x, step, m, last);
    } else {
      RetryOnce(env, s, x, step, m);
      OneMoreFailedAttempt(env, s, step, m);
      var (y, outcome) := AttemptAgain(env, x, step, m + 1);
      if outcome.Raised? {
        n := RetryingEnds(env, s, Note(y, step, Failed), step, m + 1, outcome.error);
      } else {
        n := m + 1;
      }
    }
  }

  lemma {:induction false} OneMoreFailedAttempt(env: Environment, s: State, step: Step, m: nat)
    requires m >= 1 && AllFailed(env, s, step, m - 1)
    requires Nth(env, s, step, m).Raised? && NthSleep(env, s, m).None?
    ensures AllFailed(env, s, step, m)
  {
  }

  /** No further attempt: there is none left, or the sleep before it is cut. */
  lemma {:induction false} RetryingStops(env: Environment, s: State, x: State, step: Step, m: nat, last: Error)
    requires step.onError.Retry? && Failing(s, x, step, m) && m <= MaxAttempts(step.onError)
    requires Nth(env, s, step, m) == Raised(last)
    requires m + 1 > step.onError.maxAttempts || NthSleep(env, s, m).Some?
    ensures var (s1, end) := Retrying(env, x, step, m + 1, last); EndsWith(env, s, step, m, s1, end)
  {
  }

  /** One more attempt after `m` failed ones, with an undisturbed sleep. */
  lemma {:induction false} RetryOnce(env: Environment, s: State, x: State, step: Step, m: nat)
    requires step.onError.Retry? && Failing(s, x, step, m) && NthSleep(env, s, m).None?
    ensures var (y, outcome) := AttemptAgain(env, x, step, m + 1);
            && outcome == Nth(env, s, step, m + 1) && y.clock == s.clock + 2 * (m + 1) - 1
            && (outcome.Raised? ==> Failing(s, Note(y, step, Failed), step, m + 1))
            && (outcome.Interrupted? ==> OnlyFailed(s, y, step, m))
            && (outcome.Returned? ==> EndsWith(env, s, step, m + 1, Commit(y, step, outcome.value), Continue))
  {
    AttemptIsTried(env, Doze(x, Nap(step.onError.base, m)), step);
    var (y, outcome) := AttemptAgain(env, x, step, m + 1);
    FailedOnceMore(s, x, Note(y, step, Failed), step, m);
    if outcome.Returned? {
      CommittedAfter(s, x, y, step, m, outcome.value);
    }
  }

  lemma {:induction false} FailedOnceMore(s: State, x: State, y: State, step: Step, m: nat)
    requires Failing(s, x, step, m) && y.data == x.data && y.compensable == x.compensable
    requires y.history == x.history + [StepRecord(step.name, Failed)] && y.clock == x.clock + 2
    ensures Failing(s, y, step, m + 1)
  {
    OneMoreFailed(step, m);
    assert s.history + FailedRecords(step, m) + [StepRecord(step.name, Failed)]
        == s.history + (FailedRecords(step, m) + [StepRecord(step.name, Failed)]);
  }

  lemma {:induction false} CommittedAfter(
      s: State, x: State, y: State, step: Step, m: nat, value: Option<SagaData>)
    requires OnlyFailed(s, x, step, m) && y.data == x.data && y.compensable == x.compensable
    requires y.history == x.history
    ensures var s1 := Commit(y, step, value);
            && Carries(s.data, value, s1.data) && s1.clock == y.clock
            && s1.compensable == (if step.compensable then s.compensable + [step] else s.compensable)
            && s1.history == s.history + FailedRecords(step, m) + [StepRecord(step.name, Committed)]
  {
    ReplaceCarries(y, value);
  }

  /** A serial step, whatever its strategy: some attempts fail, with every sleep
      after them undisturbed, and the next one decides.  If it returns, the step
      commits and its data is taken over.  If it is cancelled, or the sleep after
      it is, the run is cut off.  If it fails and was the last allowed, the run
      goes on if the strategy ends in a skip and otherwise stops, reporting this
      step and the error of this attempt. */
  lemma {:induction false} SerialStepIs(env: Environment, s: State, step: Step) returns (n: nat)
    ensures 1 <= n <= MaxAttempts(step.onError) && AllFailed(env, s, step, n - 1)
    ensures var (s1, end) := SerialStep(env, s, step); EndsWith(env, s, step, n, s1, end)
  {
    AttemptIsTried(env, s, step);
    var (x, outcome) := Attempt(env, s, step);
    assert Nth(env, s, step, 1) == outcome;
    assert s.history + FailedRecords(step, 0) == s.history;
    assert FailedRecords(step, 1) == [StepRecord(step.name, Failed)];
    n := 1;
    if outcome.Returned? {
      CommittedAfter(s, s, x, step, 0, outcome.value);
    } else if outcome.Raised? && step.onError.Retry? {
      n := RetryingEnds(env, s, Note(x, step, Failed), step, 1, outcome.error);
    }
  }

  // ----- A parallel group -----

  /** What the children of a group that begins in `s` answer. */
  ghost function Children(env: Environment, s: State, steps: seq<Step>): seq<Outcome> {
    seq(|steps|, k requires 0 <= k < |steps| => Tried(env, s.clock + k, s.data, steps[k]))
  }

  function ChildRecords(steps: seq<Step>, outcomes: seq<Outcome>): seq<StepRecord>
    requires |steps| == |outcomes|
  {
    seq(|steps|, k requires 0 <= k < |steps| =>
        StepRecord(steps[k].name, if outcomes[k].Returned? then Committed else Failed))
  }

  /** The compensable children that returned, in declaration order. */
  function Survivors(steps: seq<Step>, outcomes: seq<Outcome>): seq<Step>
    requires |steps| == |outcomes|
  {
    if steps == [] then []
    else
      var rest := Survivors(steps[1..], outcomes[1..]);
      if outcomes[0].Returned? && steps[0].compensable then [steps[0]] + rest else rest
  }

  /** Child `k` is the first that failed. */
  predicate FirstToFail(outcomes: seq<Outcome>, k: nat) {
    k < |outcomes| && outcomes[k].Raised? && forall i | 0 <= i < k :: !outcomes[i].Raised?
  }

  /** How a group ends. */
  ghost predicate GroupEnds(env: Environment, s: State, steps: seq<Step>, s1: State, end: Flow) {
    var outcomes := Children(env, s, steps);
    && s1.data == s.data && s1.clock == s.clock + |steps|
    && s1.history == s.history + ChildRecords(steps, outcomes)
    && s1.compensable == s.compensable + Survivors(steps, outcomes)
    && (end.Abort? <==> exists k | 0 <= k < |steps| :: outcomes[k].Interrupted?)
    && (end.Abort? ==> end == Abort(false))
    && (end.Continue? <==> forall k | 0 <= k < |steps| :: outcomes[k].Returned?)
    && (end.Stop? ==> exists k: nat :: FirstToFail(outcomes, k) && end == Stop(steps[k].name, outcomes[k].error))
  }

  lemma {:induction false} ChildrenAreOutcomes(env: Environment, s: State, steps: seq<Step>)
    ensures Outcomes(env, s.clock, s.data, steps) == Children(env, s, steps)
  {
    var outcomes := Outcomes(env, s.clock, s.data, steps);
    forall k | 0 <= k < |steps|
      ensures outcomes[k] == Children(env, s, steps)[k]
    {
      assert outcomes[k] == ChildOutcome(env, s.clock + k, s.data, steps[k]);
    }
  }

  lemma {:induction false} FinishesOnlyTrace(
      env: Environment, s: State, clock: nat, steps: seq<Step>, order: seq<nat>)
    requires forall i | 0 <= i < |order| :: order[i] < |steps|
    ensures var s1 := FinishAll(env, s, clock, steps, order); s1 == s.(trace := s1.trace)
    decreases |order|
  {
    if order != [] {
      FinishesOnlyTrace(env, FinishOne(env, s, clock + order[0], steps[order[0]]), clock, steps, order[1..]);
    }
  }

  lemma {:induction false} SettlesAre(s: State, steps: seq<Step>, outcomes: seq<Outcome>)
    requires |steps| == |outcomes|
    ensures var s1 := SettleAll(s, steps, outcomes);
            && s1.data == s.data && s1.clock == s.clock
            && s1.history == s.history + ChildRecords(steps, outcomes)
            && s1.compensable == s.compensable + Survivors(steps, outcomes)
    decreases |steps|
  {
    if steps == [] {
      assert ChildRecords(steps, outcomes) == [];
    } else {
      var x := SettleOne(s, steps[0], outcomes[0]);
      SettlesAre(x, steps[1..], outcomes[1..]);
      var first := StepRecord(steps[0].name, if outcomes[0].Returned? then Committed else Failed);
      assert ChildRecords(steps, outcomes) == [first] + ChildRecords(steps[1..], outcomes[1..]);
      Regroup(s.history, [first], ChildRecords(steps[1..], outcomes[1..]));
      Regroup(s.compensable, [steps[0]], Survivors(steps[1..], outcomes[1..]));
    }
  }

  /** A group, however its children interleave: the data stays, every child is
      recorded in declaration order, those that returned are to be compensated,
      and the run goes on exactly if all did; otherwise it is cut off if a child
      was cancelled, and reports the first failed child if none was. */
  lemma {:induction false} GroupIs(env: Environment, s: State, steps: seq<Step>)
    requires env.Valid()
    ensures var (s1, end) := ParallelStep(env, s, steps); GroupEnds(env, s, steps, s1, end)
  {
    var order := env.order(s.clock, |steps|);
    assert IsOrder(order, |steps|);
    ChildrenAreOutcomes(env, s, steps);
    var outcomes := Children(env, s, steps);
    StartKeepsData(env, s, steps);
    var s1 := StartAll(env, s, steps);
    FinishesOnlyTrace(env, s1, s.clock, steps, order);
    var s2 := FinishAll(env, s1, s.clock, steps, order);
    SettlesAre(s2, steps, outcomes);
    var k := ParallelEnd(env, s, steps);
    if ParallelStep(env, s, steps).1.Stop? {
      assert FirstToFail(outcomes, k);
    }
  }

  // ----- The forward phase -----

  ghost predicate StepEnds(env: Environment, s: State, step: Step, n: nat, s1: State, end: Flow) {
    1 <= n <= MaxAttempts(step.onError) && AllFailed(env, s, step, n - 1) && EndsWith(env, s, step, n, s1, end)
  }

  ghost predicate ItemEnds(env: Environment, s: State, item: Item, s1: State, end: Flow) {
    match item
    case Single(step) => exists n: nat :: StepEnds(env, s, step, n, s1, end)
    case Group(steps) => GroupEnds(env, s, steps, s1, end)
  }

  /** The states before and after each item that the forward phase came to: all
      but the last of them let the run go on, the last ends it as it ends, and if
      it goes on after the last then that was the last of the flow. */
  ghost predicate Path(env: Environment, items: seq<Item>, path: seq<State>, end: Flow) {
    && 1 <= |path| <= |items| + 1
    && (forall i | 0 <= i < |path| - 2 :: ItemEnds(env, path[i], items[i], path[i + 1], Continue))
    && (|path| >= 2 ==> ItemEnds(env, path[|path| - 2], items[|path| - 2], path[|path| - 1], end))
    && (end.Continue? ==> |path| == |items| + 1)
    && (!end.Continue? ==> |path| >= 2)
  }

  lemma {:induction false} ItemIs(env: Environment, s: State, item: Item)
    requires env.Valid()
    ensures var (s1, end) := ItemStep(env, s, item); ItemEnds(env, s, item, s1, end)
  {
    match item
    case Single(step) =>
      var n := SerialStepIs(env, s, step);
      var (s1, end) := SerialStep(env, s, step);
      assert StepEnds(env, s, step, n, s1, end);
    case Group(steps) => GroupIs(env, s, steps);
  }

  lemma {:induction false} ForwardIs(env: Environment, s: State, items: seq<Item>) returns (path: seq<State>)
    requires env.Valid()
    ensures Path(env, items, path, Forward(env, s, items).1)
    ensures path[0] == s && path[|path| - 1] == Forward(env, s, items).0
    decreases |items|
  {
    if items == [] {
      path := [s];
    } else {
      ItemIs(env, s, items[0]);
      var (s1, flow) := ItemStep(env, s, items[0]);
      if flow.Continue? {
        var rest := ForwardIs(env, s1, items[1..]);
        path := [s] + rest;
        PathGrows(env, items, s, rest, Forward(env, s1, items[1..]).1);
      } else {
        path := [s, s1];
      }
    }
  }

  lemma {:induction false} PathGrows(env: Environment, items: seq<Item>, s: State, rest: seq<State>, end: Flow)
    requires items != [] && Path(env, items[1..], rest, end) && ItemEnds(env, s, items[0], rest[0], Continue)
    ensures Path(env, items, [s] + rest, end)
  {
    var path := [s] + rest;
    forall i | 0 <= i < |path| - 2
      ensures ItemEnds(env, path[i], items[i], path[i + 1], Continue)
    {
      if i > 0 {
        assert ItemEnds(env, rest[i - 1], items[1..][i - 1], rest[i - 1 + 1], Continue);
      }
    }
    if |rest| >= 2 {
      assert items[1..][|rest| - 2] == items[|path| - 2];
    }
  }

  // ----- The data of a run -----

  /** The item is a serial step that begins in `s` and ends by returning `v`. */
  ghost predicate HandsOver(env: Environment, s: State, item: Item, v: SagaData) {
    && item.Single?
    && exists n: nat | 1 <= n <= MaxAttempts(item.step.onError) ::
         AllFailed(env, s, item.step, n - 1) && Nth(env, s, item.step, n) == Returned(Some(v))
  }

  /** An item leaves the data as it is, or as the value it hands over says. */
  lemma {:induction false} ItemData(env: Environment, s: State, item: Item, s1: State, end: Flow)
    returns (value: Option<SagaData>)
    requires ItemEnds(env, s, item, s1, end)
    ensures Carries(s.data, value, s1.data)
    ensures forall v :: HandsOver(env, s, item, v) <==> value == Some(v)
  {
    value := None;
    if item.Single? {
      var n: nat :| StepEnds(env, s, item.step, n, s1, end);
      var outcome := Nth(env, s, item.step, n);
      value := if outcome.Returned? then outcome.value else None;
      if value.Some? {
        assert HandsOver(env, s, item, value.value);
      }
      forall v | HandsOver(env, s, item, v)
        ensures value == Some(v)
      {
        HandedIsDeciding(env, s, item.step, n, s1, end, v);
      }
    }
  }

  lemma {:induction false} HandedIsDeciding(
      env: Environment, s: State, step: Step, n: nat, s1: State, end: Flow, v: SagaData)
    requires StepEnds(env, s, step, n, s1, end) && HandsOver(env, s, Single(step), v)
    ensures Nth(env, s, step, n) == Returned(Some(v))
  {
    var m: nat :| 1 <= m <= MaxAttempts(step.onError)
                  && AllFailed(env, s, step, m - 1) && Nth(env, s, step, m) == Returned(Some(v));
    FailedBefore(env, s, step, m, n);
  }

  lemma {:induction false} FailedBefore(env: Environment, s: State, step: Step, m: nat, n: nat)
    requires 1 <= m && 1 <= n && AllFailed(env, s, step, m - 1)
    ensures n < m ==> Nth(env, s, step, n).Raised? && NthSleep(env, s, n).None?
  {
  }

  /** The values that the items of a path handed over. */
  ghost predicate AreHanded(env: Environment, items: seq<Item>, path: seq<State>, handed: seq<Option<SagaData>>) {
    && |path| == |handed| + 1 <= |items| + 1
    && forall i, v | 0 <= i < |handed| :: HandsOver(env, path[i], items[i], v) <==> handed[i] == Some(v)
  }

  /** The business fields of the value that was handed over last, if any was. */
  function LastBusiness(initial: SagaData, handed: seq<Option<SagaData>>): Business {
    if handed == [] then initial.business
    else
      var last := handed[|handed| - 1];
      if last.Some? then last.value.business else LastBusiness(initial, handed[..|handed| - 1])
  }

  /** The snapshot of the last value that brought one, if any did. */
  function LastSnapshot(initial: SagaData, handed: seq<Option<SagaData>>): Option<string> {
    if handed == [] then initial.snapshot
    else
      var last := handed[|handed| - 1];
      if last.Some? && last.value.snapshot.Some? then last.value.snapshot
      else LastSnapshot(initial, handed[..|handed| - 1])
  }

  lemma {:induction false} PathData(env: Environment, items: seq<Item>, path: seq<State>, end: Flow)
    returns (handed: seq<Option<SagaData>>)
    requires Path(env, items, path, end)
    ensures AreHanded(env, items, path, handed)
    ensures path[|path| - 1].data == SagaData(LastBusiness(path[0].data, handed), LastSnapshot(path[0].data, handed))
    decreases |path|
  {
    var n := |path| - 1;
    if n == 0 {
      handed := [];
    } else {
      ShorterPath(env, items, path, end);
      var before := PathData(env, items[..n - 1], path[..n], Continue);
      var value := ItemData(env, path[n - 1], items[n - 1], path[n], end);
      handed := before + [value];
      CarriesLast(path[0].data, before, value, path[n - 1].data, path[n].data);
      HandedOneMore(env, items, path, before, value);
    }
  }

  lemma {:induction false} CarriesLast(
      initial: SagaData, before: seq<Option<SagaData>>, value: Option<SagaData>, d: SagaData, d1: SagaData)
    requires d == SagaData(LastBusiness(initial, before), LastSnapshot(initial, before)) && Carries(d, value, d1)
    ensures var handed := before + [value]; d1 == SagaData(LastBusiness(initial, handed), LastSnapshot(initial, handed))
  {
    assert (before + [value])[..|before|] == before;
  }

  lemma {:induction false} HandedOneMore(
      env: Environment, items: seq<Item>, path: seq<State>, before: seq<Option<SagaData>>, value: Option<SagaData>)
    requires 2 <= |path| <= |items| + 1
    requires AreHanded(env, items[..|path| - 2], path[..|path| - 1], before)
    requires forall v :: HandsOver(env, path[|path| - 2], items[|path| - 2], v) <==> value == Some(v)
    ensures AreHanded(env, items, path, before + [value])
  {
    var handed := before + [value];
    forall i, v | 0 <= i < |handed|
      ensures HandsOver(env, path[i], items[i], v) <==> handed[i] == Some(v)
    {
      if i < |before| {
        assert items[..|path| - 2][i] == items[i] && path[..|path| - 1][i] == path[i];
      }
    }
  }

  lemma {:induction false} ShorterPath(env: Environment, items: seq<Item>, path: seq<State>, end: Flow)
    requires Path(env, items, path, end) && |path| >= 2
    ensures Path(env, items[..|path| - 2], path[..|path| - 1], Continue)
    ensures ItemEnds(env, path[|path| - 2], items[|path| - 2], path[|path| - 1], end)
  {
    var (n, m) := (|path| - 1, |path| - 2);
    var (some, shorter) := (items[..m], path[..n]);
    forall i | 0 <= i < n - 1
      ensures ItemEnds(env, shorter[i], some[i], shorter[i + 1], Continue)
    {
      assert ItemEnds(env, path[i], items[i], path[i + 1], Continue);
    }
  }

  // ----- The compensation phase -----

  /** Compensation `i` of a phase that begins in `s` with the first `k` steps to
      undo: which step it is, and what it answers. */
  function NthUndo(s: State, k: nat, i: nat): Step
    requires i < k <= |s.compensable|
  {
    s.compensable[k - 1 - i]
  }

  ghost function UndoTried(env: Environment, s: State, k: nat, i: nat): UndoOutcome
    requires i < k <= |s.compensable|
  {
    if Authorized(env, s.clock + i, NthUndo(s, k, i).compensateAuth, s.data) then env.undo(s.clock + i) else UndoRaised
  }

  function UndoRecords(s: State, k: nat, n: nat): seq<StepRecord>
    requires n <= k <= |s.compensable|
  {
    seq(n, i requires 0 <= i < n => StepRecord(NthUndo(s, k, i).name, Compensated))
  }

  /** How a compensation phase ends of which the first `n` were done. */
  ghost predicate UndoEnds(env: Environment, s: State, k: nat, handler: bool, n: nat, s1: State, result: UndoResult)
    requires n <= k <= |s.compensable|
  {
    && s1.data == s.data && s1.compensable == s.compensable
    && s1.clock == s.clock + (if n < k then n + 1 else n)
    && (n == k ==> result == AllUndone && s1.history == s.history + UndoRecords(s, k, n))
    && (n < k ==>
          match UndoTried(env, s, k, n)
          case UndoDone => false
          case UndoInterrupted(byTimeout) =>
            result == UndoCut(byTimeout) && s1.history == s.history + UndoRecords(s, k, n)
          case UndoRaised =>
            && result == UndoBroken
            && s1.history == s.history + UndoRecords(s, k, n) + [StepRecord(NthUndo(s, k, n).name, Failed)]
            && s1.trace != [] && (handler <==> s1.trace[|s1.trace| - 1] == HandlerCalled(s.data)))
  }

  /** A compensation phase: steps are undone last first, each at the next tick, up
      to the first that is denied, raises or is cancelled.  The failure handler is
      called, last of all, exactly if there is one and a compensation was denied
      or raised. */
  lemma {:induction false} UndoIs(env: Environment, s: State, k: nat, handler: bool) returns (n: nat)
    requires k <= |s.compensable|
    ensures n <= k && forall i | 0 <= i < n :: UndoTried(env, s, k, i) == UndoDone
    ensures var (s1, result) := Undo(env, s, k, handler); UndoEnds(env, s, k, handler, n, s1, result)
    decreases k
  {
    if k == 0 {
      n := 0;
      assert s.history + UndoRecords(s, 0, 0) == s.history;
    } else {
      UndoOneIs(env, s, k, handler);
      var (x, result) := UndoOne(env, s, s.compensable[k - 1], handler);
      if result.AllUndone? {
        var m := UndoIs(env, x, k - 1, handler);
        n := m + 1;
        LaterUndos(env, s, x, k, k - 1, m);
        var (s1, end) := Undo(env, x, k - 1, handler);
        UndoEndsLater(env, s, x, k, handler, m, s1, end);
      } else {
        n := 0;
      }
    }
  }

  /** The first compensation of a phase. */
  lemma {:induction false} UndoOneIs(env: Environment, s: State, k: nat, handler: bool)
    requires 0 < k <= |s.compensable|
    ensures var (x, result) := UndoOne(env, s, s.compensable[k - 1], handler);
            && (result.AllUndone? <==> UndoTried(env, s, k, 0) == UndoDone)
            && (!result.AllUndone? ==> UndoEnds(env, s, k, handler, 0, x, result))
            && (result.AllUndone? ==> Undid(s, x, k))
  {
    assert s.history + UndoRecords(s, k, 0) == s.history;
  }

  /** One compensation was done. */
  predicate Undid(s: State, x: State, k: nat)
    requires 0 < k <= |s.compensable|
  {
    && x.data == s.data && x.compensable == s.compensable && x.clock == s.clock + 1
    && x.history == s.history + [StepRecord(s.compensable[k - 1].name, Compensated)]
  }

  lemma {:induction false} LaterUndos(env: Environment, s: State, x: State, k: nat, j: nat, m: nat)
    requires m <= j && j + 1 == k <= |s.compensable| && Undid(s, x, k) && UndoTried(env, s, k, 0) == UndoDone
    requires forall i | 0 <= i < m :: UndoTried(env, x, j, i) == UndoDone
    ensures forall i | 0 <= i < m + 1 :: UndoTried(env, s, k, i) == UndoDone
  {
    forall i | 0 <= i < m + 1
      ensures UndoTried(env, s, k, i) == UndoDone
    {
      if i > 0 {
        assert UndoTried(env, x, j, i - 1) == UndoDone;
      }
    }
  }

  lemma {:induction false} UndoEndsLater(
      env: Environment, s: State, x: State, k: nat, handler: bool, m: nat, s1: State, result: UndoResult)
    requires m < k <= |s.compensable| && Undid(s, x, k) && UndoEnds(env, x, k - 1, handler, m, s1, result)
    ensures UndoEnds(env, s, k, handler, m + 1, s1, result)
  {
    UndoneOneMore(s, x, k, m);
    if m + 1 < k {
      assert NthUndo(s, k, m + 1) == NthUndo(x, k - 1, m);
    }
  }

  lemma {:induction false} UndoneOneMore(s: State, x: State, k: nat, m: nat)
    requires m < k <= |s.compensable| && x.compensable == s.compensable
    requires x.history == s.history + [StepRecord(s.compensable[k - 1].name, Compensated)]
    ensures x.history + UndoRecords(x, k - 1, m) == s.history + UndoRecords(s, k, m + 1)
  {
    var first := StepRecord(s.compensable[k - 1].name, Compensated);
    assert UndoRecords(s, k, m + 1) == [first] + UndoRecords(x, k - 1, m);
    Regroup(s.history, [first], UndoRecords(x, k - 1, m));
  }

  // ----- Whole runs -----

  lemma {:induction false} UndoKeepsData(env: Environment, s: State, k: nat, handler: bool)
    requires k <= |s.compensable|
    ensures Undo(env, s, k, handler).0.data == s.data
    ensures Undo(env, s, k, handler).0.compensable == s.compensable
    decreases k
  {
    if k > 0 {
      var (s1, result) := UndoOne(env, s, s.compensable[k - 1], handler);
      if result.AllUndone? {
        UndoKeepsData(env, s1, k - 1, handler);
      }
    }
  }

  /** Whatever a run does and however it ends, its data is what its serial steps
      handed over: the business fields of the last value and the snapshot of the
      last that brought one, or what the run began with.  Groups, failed attempts
      and compensations leave no trace in it. */
  lemma {:induction false} RunDataIsHandedOver(env: Environment, data: SagaData, flow: SagaFlow)
    returns (path: seq<State>, handed: seq<Option<SagaData>>)
    requires env.Valid() && WellDefined(flow.items)
    ensures path != [] && path[0] == Initial(data)
    ensures Path(env, flow.items, path, Forward(env, Initial(data), flow.items).1)
    ensures AreHanded(env, flow.items, path, handed)
    ensures Run(env, data, flow).0.data == SagaData(LastBusiness(data, handed), LastSnapshot(data, handed))
  {
    path := ForwardIs(env, Initial(data), flow.items);
    var (s, end) := Forward(env, Initial(data), flow.items);
    handed := PathData(env, flow.items, path, end);
    UndoKeepsData(env, s, |s.compensable|, flow.hasFailureHandler);
    var s1 := RunItems(env, Initial(data), flow).0;
    UndoKeepsData(env, s1, |s1.compensable|, flow.hasFailureHandler);
  }

  /** A run of a flow that normalization refuses does nothing.  A run completes if
      and only if every item let it go on, with nothing compensated; the path
      then has every item.  A run that reports a failed step stopped at an item
      that failed with that name and error. */
  lemma {:induction false} RunReports(env: Environment, data: SagaData, flow: SagaFlow) returns (path: seq<State>)
    requires env.Valid()
    ensures var (s, result) := Run(env, data, flow);
            && (result.FlowRejected? <==> !WellDefined(flow.items)) && (result.FlowRejected? ==> s == Initial(data))
            && (result.Completed? <==> WellDefined(flow.items) && Path(env, flow.items, path, Continue))
            && (result.Completed? ==> |path| == |flow.items| + 1 && s == path[|path| - 1])
            && (result.FailedAt? ==> Path(env, flow.items, path, Stop(result.name, result.error)))
    ensures path != [] && path[0] == Initial(data) && path[|path| - 1] == Forward(env, Initial(data), flow.items).0
  {
    path := ForwardIs(env, Initial(data), flow.items);
    var end := Forward(env, Initial(data), flow.items).1;
    if !end.Continue? && Path(env, flow.items, path, Continue) {
      EndIsOne(env, flow.items, path, end);
    }
  }

  lemma {:induction false} EndIsOne(env: Environment, items: seq<Item>, path: seq<State>, end: Flow)
    requires Path(env, items, path, end) && !end.Continue?
    ensures !Path(env, items, path, Continue)
  {
    var i := |path| - 2;
    if items[i].Single? {
      var (s, s1, step) := (path[i], path[i + 1], items[i].step);
      var m: nat :| StepEnds(env, s, step, m, s1, end);
      forall n: nat
        ensures !StepEnds(env, s, step, n, s1, Continue)
      {
        StepEndsOnce(env, s, step, m, n, s1, end);
      }
    }
  }

  lemma {:induction false} StepEndsOnce(
      env: Environment, s: State, step: Step, m: nat, n: nat, s1: State, end: Flow)
    requires StepEnds(env, s, step, m, s1, end) && !end.Continue?
    ensures !StepEnds(env, s, step, n, s1, Continue)
  {
    assert 1 <= n < m ==> Nth(env, s, step, n).Raised? && NthSleep(env, s, n).None?;
  }

  /** A flow is refused if and only if a step of a parallel group is to be skipped
      or retried on error. */
  lemma {:induction false} FlowIsRefusedIff(env: Environment, data: SagaData, flow: SagaFlow)
    requires env.Valid()
    ensures Run(env, data, flow) == (Initial(data), FlowRejected)
       <==> exists i | 0 <= i < |flow.items| :: flow.items[i].Group? && exists k | 0 <= k < |flow.items[i].steps| ::
              (flow.items[i].steps[k].onError.Skip? || flow.items[i].steps[k].onError.Retry?)
  {
    var path := RunReports(env, data, flow);
    forall i | 0 <= i < |flow.items| && flow.items[i].Group?
      ensures (exists k | 0 <= k < |flow.items[i].steps| ::
                 (flow.items[i].steps[k].onError.Skip? || flow.items[i].steps[k].onError.Retry?))
         <==> !PlainGroup(flow.items[i].steps)
    {
    }
    if !WellDefined(flow.items) {
      var i :| 0 <= i < |flow.items| && flow.items[i].Group? && !PlainGroup(flow.items[i].steps);
      var k :| 0 <= k < |flow.items[i].steps| && !flow.items[i].steps[k].onError.Compensate?;
      assert flow.items[i].steps[k].onError.Skip? || flow.items[i].steps[k].onError.Retry?;
    }
  }

  /** The compensation of a forward phase that stopped. */
  ghost function FirstPass(env: Environment, data: SagaData, flow: SagaFlow): (State, UndoResult)
    requires env.Valid()
  {
    var (s, end) := Forward(env, Initial(data), flow.items);
    if end.Stop? then Undo(env, s, |s.compensable|, flow.hasFailureHandler) else (s, AllUndone)
  }

  /** The saga timeout fired, in the forward phase or in its compensation. */
  ghost predicate TimeoutFired(env: Environment, data: SagaData, flow: SagaFlow)
    requires env.Valid()
  {
    var end := Forward(env, Initial(data), flow.items).1;
    flow.hasTimeout && (end == Abort(true) || (end.Stop? && FirstPass(env, data, flow).1 == UndoCut(true)))
  }

  ghost function SecondPass(env: Environment, data: SagaData, flow: SagaFlow): UndoResult
    requires env.Valid()
  {
    var s := FirstPass(env, data, flow).0;
    Undo(env, s, |s.compensable|, flow.hasFailureHandler).1
  }

  /** Exactly when a run reports what, from how its forward phase ended, whether
      the saga timeout fired, and how its one or two compensation phases ended. */
  lemma {:induction false} RunReportsIff(
      env: Environment, data: SagaData, flow: SagaFlow, name: string, error: Error, byTimeout: bool)
    requires env.Valid() && WellDefined(flow.items)
    ensures var result := Run(env, data, flow).1;
            var end := Forward(env, Initial(data), flow.items).1;
            var fired := TimeoutFired(env, data, flow);
            var (first, second) := (FirstPass(env, data, flow).1, SecondPass(env, data, flow));
            && (result == Completed <==> end == Continue)
            && (result == FailedAt(name, error) <==> !fired && end == Stop(name, error) && first == AllUndone)
            && (result == TimedOut <==> fired && second == AllUndone)
            && (result == CompensationFailed <==> (!fired && end.Stop? && first == UndoBroken)
                                                  || (fired && second == UndoBroken))
            && (result == Cancelled(byTimeout) <==> (!fired && end == Abort(byTimeout))
                                                    || (!fired && end.Stop? && first == UndoCut(byTimeout))
                                                    || (fired && second == UndoCut(byTimeout)))
  {
  }
}
