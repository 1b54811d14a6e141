/** Backward recovery: a saga run that fails and compensates leaves the
    external world as it found it. */
module SagaRecovery {
  import opened Sequences
  import opened Wrappers
  import opened Saga
  import opened SagaProperties

  // ----- The external world -----

  /** What actions and compensations do to a world `W` the engine never sees. */
  datatype Effects<!W> = Effects(
    act: (Step, SagaData, Outcome, W) -> W,
    undo: (Step, SagaData, W) -> W)

  /** The world after a trace: only completed callbacks touch it, in the order
      in which they complete. */
  ghost function World<W>(fx: Effects<W>, trace: seq<Event>, w: W): W {
    if trace == [] then w else Touch(fx, trace[|trace| - 1], World(fx, trace[..|trace| - 1], w))
  }

  ghost function Touch<W>(fx: Effects<W>, e: Event, w: W): W {
    match e
    case Finished(step, data, outcome) => fx.act(step, data, outcome, w)
    case Undone(step, data) => fx.undo(step, data, w)
    case _ => w
  }

  /** An attempt that finished: if it committed a compensable step, then the
      compensation, given the data the forward phase ended with, takes its
      effect back; otherwise it had no effect. */
  ghost predicate Faithful<W(!new)>(fx: Effects<W>, e: Event, later: SagaData) {
    e.Finished? ==>
      forall w: W ::
        (if e.outcome.Returned? && e.step.compensable then fx.undo(e.step, later, Touch(fx, e, w))
            else Touch(fx, e, w)) == w
  }

  /** Two attempts may finish in either order. */
  ghost predicate Commute<W(!new)>(fx: Effects<W>, a: Event, b: Event) {
    forall w: W :: Touch(fx, a, Touch(fx, b, w)) == Touch(fx, b, Touch(fx, a, w))
  }

  /** Attempts of steps of one parallel group. */
  ghost predicate Partners(items: seq<Item>, a: Event, b: Event) {
    && a.Finished? && b.Finished?
    && exists g :: g in items && g.Group? && a.step in g.steps && b.step in g.steps
  }

  /** What a saga author owes, about the attempts that happened in a run and no
      others: each is faithful, and those of one group commute. */
  ghost predicate Reversible<W(!new)>(fx: Effects<W>, items: seq<Item>, trace: seq<Event>, later: SagaData) {
    && (forall e :: e in trace ==> Faithful(fx, e, later))
    && (forall a, b :: a in trace && b in trace && Partners(items, a, b) ==> Commute(fx, a, b))
  }

  lemma {:induction false} ReversibleBefore<W(!new)>(
    fx: Effects<W>, items: seq<Item>, t: seq<Event>, t': seq<Event>, later: SagaData)
    requires t <= t' && Reversible(fx, items, t', later)
    ensures Reversible(fx, items, t, later)
  {
    assert forall e :: e in t ==> e in t';
  }

  // ----- Compensating back -----

  /** The world after compensating `steps`, last to first, with data `later`. */
  ghost function Rewound<W>(fx: Effects<W>, steps: seq<Step>, later: SagaData, w: W): W
    decreases |steps|
  {
    if steps == [] then w
    else
      var n := |steps| - 1;
      Rewound(fx, steps[..n], later, fx.undo(steps[n], later, w))
  }

  /** Compensating from here would lead home, if all attempts so far keep to
      what their author owes. */
  ghost predicate CanReturn<W(!new)>(fx: Effects<W>, items: seq<Item>, s: State, later: SagaData, home: W) {
    Reversible(fx, items, s.trace, later) ==> Rewound(fx, s.compensable, later, World(fx, s.trace, home)) == home
  }

  /** The steps to compensate once `step` ended with `outcome`. */
  function Owed(steps: seq<Step>, step: Step, outcome: Outcome): seq<Step> {
    if outcome.Returned? && step.compensable then steps + [step] else steps
  }

  lemma {:induction false} Touched<W(!new)>(fx: Effects<W>, t: seq<Event>, e: Event, w: W)
    ensures World(fx, t + [e], w) == Touch(fx, e, World(fx, t, w))
  {
    assert (t + [e])[..|t|] == t;
  }

  /** Owing the compensation of a faithful attempt cancels its effect. */
  lemma {:induction false} FaithfulRewinds<W(!new)>(fx: Effects<W>, steps: seq<Step>, e: Event, later: SagaData, w: W)
    requires e.Finished? && Faithful(fx, e, later)
    ensures Rewound(fx, Owed(steps, e.step, e.outcome), later, Touch(fx, e, w)) == Rewound(fx, steps, later, w)
  {
    if e.outcome.Returned? && e.step.compensable {
      assert (steps + [e.step])[..|steps|] == steps;
    }
  }

  predicate Quiet(e: Event) {
    !e.Finished? && !e.Undone?
  }

  lemma {:induction false} QuietReturns<W(!new)>(
    fx: Effects<W>, items: seq<Item>, s: State, s1: State, e: Event, later: SagaData, home: W)
    requires CanReturn(fx, items, s, later, home) && Quiet(e)
    requires s1.trace == s.trace + [e] && s1.compensable == s.compensable
    ensures CanReturn(fx, items, s1, later, home) && World(fx, s1.trace, home) == World(fx, s.trace, home)
  {
    Touched(fx, s.trace, e, home);
    if Reversible(fx, items, s1.trace, later) {
      ReversibleBefore(fx, items, s.trace, s1.trace, later);
    }
  }

  lemma {:induction false} FinishReturns<W(!new)>(
    fx: Effects<W>, items: seq<Item>, s: State, s1: State, e: Event, later: SagaData, home: W)
    requires CanReturn(fx, items, s, later, home) && e.Finished?
    requires s1.trace == s.trace + [e] && s1.compensable == Owed(s.compensable, e.step, e.outcome)
    ensures CanReturn(fx, items, s1, later, home)
  {
    Touched(fx, s.trace, e, home);
    if Reversible(fx, items, s1.trace, later) {
      ReversibleBefore(fx, items, s.trace, s1.trace, later);
      assert e in s1.trace;
      FaithfulRewinds(fx, s.compensable, e, later, World(fx, s.trace, home));
    }
  }

  // ----- Serial steps -----

  /** One attempt: with what is owed after it, the way home survives. */
  lemma {:induction false} AttemptReturns<W(!new)>(
    fx: Effects<W>, items: seq<Item>, env: Environment, s: State, step: Step, later: SagaData, home: W)
    requires CanReturn(fx, items, s, later, home)
    ensures var (s1, outcome) := Attempt(env, s, step);
            && s1.compensable == s.compensable
            && CanReturn(fx, items, s1.(compensable := Owed(s.compensable, step, outcome)), later, home)
  {
    var allowed := Authorized(env, s.clock, step.auth, s.data);
    var s1 := Check(s, step, step.auth, allowed);
    QuietReturns(fx, items, s, s1, Checked(step, step.auth, s.data, s.clock, allowed), later, home);
    if allowed {
      var s2 := Emit(s1, Started(step, s.data));
      QuietReturns(fx, items, s1, s2, Started(step, s.data), later, home);
      var e := Finished(step, s.data, Settled(step, env.action(s.clock)));
      FinishReturns(fx, items, s2, Emit(s2, e).(compensable := Owed(s.compensable, step, e.outcome)), e, later, home);
    }
  }

  lemma {:induction false} CommitReturns<W(!new)>(
    fx: Effects<W>, items: seq<Item>, s: State, step: Step, value: Option<SagaData>, later: SagaData, home: W)
    requires CanReturn(fx, items, s.(compensable := Owed(s.compensable, step, Returned(value))), later, home)
    ensures CanReturn(fx, items, Commit(s, step, value), later, home)
  {
    var owed := Owed(s.compensable, step, Returned(value));
    var s0 := s.(compensable := owed);
    var s1 := Replace(s, value).(compensable := owed);
    if value.Some? {
      QuietReturns(fx, items, s0, s1, Replaced(Preserve(s.data, value.value)), later, home);
    }
    QuietReturns(fx, items, s1, Commit(s, step, value), Noted(step, Committed), later, home);
  }

  /** An attempt settled by committing or by recording its failure. */
  lemma {:induction false} SettledReturns<W(!new)>(
    fx: Effects<W>, items: seq<Item>, s: State, step: Step, outcome: Outcome, later: SagaData, home: W)
    requires CanReturn(fx, items, s.(compensable := Owed(s.compensable, step, outcome)), later, home)
    ensures outcome.Returned? ==> CanReturn(fx, items, Commit(s, step, outcome.value), later, home)
    ensures !outcome.Returned? ==> CanReturn(fx, items, s, later, home)
    ensures !outcome.Returned? ==> CanReturn(fx, items, Note(s, step, Failed), later, home)
  {
    if outcome.Returned? {
      CommitReturns(fx, items, s, step, outcome.value, later, home);
    } else {
      QuietReturns(fx, items, s, Note(s, step, Failed), Noted(step, Failed), later, home);
    }
  }

  lemma {:induction false} AttemptAgainReturns<W(!new)>(
    fx: Effects<W>, items: seq<Item>, env: Environment, s: State, step: Step, attempt: nat, later: SagaData, home: W)
    returns (s1: State, outcome: Outcome)
    requires CanReturn(fx, items, s, later, home) && step.onError.Retry? && attempt >= 2
    ensures AttemptAgain(env, s, step, attempt) == (s1, outcome)
    ensures outcome.Returned? ==> CanReturn(fx, items, Commit(s1, step, outcome.value), later, home)
    ensures !outcome.Returned? ==> CanReturn(fx, items, s1, later, home)
    ensures !outcome.Returned? ==> CanReturn(fx, items, Note(s1, step, Failed), later, home)
  {
    var nap := Nap(step.onError.base, attempt - 1);
    QuietReturns(fx, items, s, Doze(s, nap), Slept(nap), later, home);
    if env.sleep(s.clock).None? {
      AttemptReturns(fx, items, env, Doze(s, nap), step, later, home);
    }
    var next := AttemptAgain(env, s, step, attempt);
    s1, outcome := next.0, next.1;
    SettledReturns(fx, items, s1, step, outcome, later, home);
  }

  lemma {:induction false} RetryReturns<W(!new)>(
    fx: Effects<W>, items: seq<Item>, env: Environment, s: State, step: Step, last: Error, later: SagaData, home: W)
    requires CanReturn(fx, items, s, later, home) && step.onError.Retry?
    ensures CanReturn(fx, items, Retrying(env, s, step, 2, last).0, later, home)
  {
    var holds := (x: State) => CanReturn(fx, items, x, later, home);
    forall x: State, a: nat | a >= 2 && holds(x)
      ensures AgainKeeps(env, x, step, a, holds)
    {
      var s1, outcome := AttemptAgainReturns(fx, items, env, x, step, a, later, home);
    }
    RetryingKeeps(env, s, step, 2, last, holds);
  }

  lemma {:induction false} SerialReturns<W(!new)>(
    fx: Effects<W>, items: seq<Item>, env: Environment, s: State, step: Step, later: SagaData, home: W)
    requires CanReturn(fx, items, s, later, home)
    ensures CanReturn(fx, items, SerialStep(env, s, step).0, later, home)
  {
    AttemptReturns(fx, items, env, s, step, later, home);
    var (s1, outcome) := Attempt(env, s, step);
    SettledReturns(fx, items, s1, step, outcome, later, home);
    if outcome.Raised? && step.onError.Retry? {
      RetryReturns(fx, items, env, Note(s1, step, Failed), step, outcome.error, later, home);
    }
  }

  // ----- Parallel groups: any completion order is as good as declaration order -----

  ghost predicate Below(order: seq<nat>, n: nat) {
    forall i | 0 <= i < |order| :: order[i] < n
  }

  /** Running `acts` in the given order. */
  ghost function Acts<W>(acts: seq<W -> W>, order: seq<nat>, w: W): W
    requires Below(order, |acts|)
    decreases |order|
  {
    if order == [] then w else Acts(acts, order[1..], acts[order[0]](w))
  }

  ghost predicate Commuting<W(!new)>(acts: seq<W -> W>) {
    forall i, j, w: W | 0 <= i < |acts| && 0 <= j < |acts| :: Swappable(acts[i], acts[j], w)
  }

  ghost predicate Swappable<W>(f: W -> W, g: W -> W, w: W) {
    f(g(w)) == g(f(w))
  }

  lemma {:induction false} ActsAppend<W(!new)>(acts: seq<W -> W>, a: seq<nat>, b: seq<nat>, w: W)
    requires Below(a, |acts|) && Below(b, |acts|)
    ensures Below(a + b, |acts|) && Acts(acts, a + b, w) == Acts(acts, b, Acts(acts, a, w))
    decreases |a|
  {
    if a == [] {
      assert a + b == b;
    } else {
      assert (a + b)[1..] == a[1..] + b;
      ActsAppend(acts, a[1..], b, acts[a[0]](w));
    }
  }

  /** An action may be moved in front of the ones that ran before it. */
  lemma {:induction false} MoveToFront<W(!new)>(acts: seq<W -> W>, before: seq<nat>, k: nat, w: W)
    requires Commuting(acts) && k < |acts| && Below(before, |acts|)
    ensures Acts(acts, before, acts[k](w)) == acts[k](Acts(acts, before, w))
    decreases |before|
  {
    if before != [] {
      assert Swappable(acts[before[0]], acts[k], w);
      MoveToFront(acts, before[1..], k, acts[before[0]](w));
    }
  }

  ghost predicate Distinct(a: seq<nat>) {
    forall i, j | 0 <= i < j < |a| :: a[i] != a[j]
  }

  /** Two orders of the same actions have the same effect. */
  lemma {:induction false} OrderIsIrrelevant<W(!new)>(acts: seq<W -> W>, a: seq<nat>, b: seq<nat>, w: W)
    requires Commuting(acts) && Below(a, |acts|) && Below(b, |acts|)
    requires Distinct(a) && Distinct(b) && (forall x :: x in a <==> x in b)
    ensures Acts(acts, a, w) == Acts(acts, b, w)
    decreases |a|
  {
    if a == [] {
      assert forall i | 0 <= i < |b| :: b[i] in a;
    } else {
      assert a[0] in b;
      var p :| 0 <= p < |b| && b[p] == a[0];
      RestIsSame(a, b, p);
      PullOut(acts, b, p, w);
      OrderIsIrrelevant(acts, a[1..], b[..p] + b[p + 1..], acts[a[0]](w));
    }
  }

  lemma {:induction false} PullOut<W(!new)>(acts: seq<W -> W>, b: seq<nat>, p: nat, w: W)
    requires Commuting(acts) && p < |b| && Below(b, |acts|)
    ensures Below(b[..p] + b[p + 1..], |acts|)
    ensures Acts(acts, b, w) == Acts(acts, b[..p] + b[p + 1..], acts[b[p]](w))
  {
    var before, after, k := b[..p], b[p + 1..], b[p];
    ActsAppend(acts, before, after, acts[k](w));
    MoveToFront(acts, before, k, w);
    assert b == before + ([k] + after);
    ActsAppend(acts, before, [k] + after, w);
    assert ([k] + after)[1..] == after;
  }

  lemma {:induction false} RestIsSame(a: seq<nat>, b: seq<nat>, p: nat)
    requires a != [] && p < |b| && b[p] == a[0]
    requires Distinct(a) && Distinct(b) && (forall x :: x in a <==> x in b)
    ensures Distinct(a[1..]) && Distinct(b[..p] + b[p + 1..])
    ensures forall x :: x in a[1..] <==> x in b[..p] + b[p + 1..]
  {
    var rest := b[..p] + b[p + 1..];
    forall x
      ensures x in a[1..] <==> x in rest
    {
      if x in a[1..] {
        assert x in b && x != a[0];
      }
      if x in rest {
        assert x in a && x != b[p];
      }
    }
  }

  function Range(i: nat, n: nat): (r: seq<nat>)
    requires i <= n
    ensures |r| == n - i && forall k | 0 <= k < |r| :: r[k] == i + k
  {
    seq(n - i, k requires 0 <= k => i + k)
  }

  lemma {:induction false} AnyOrderIsDeclarationOrder<W(!new)>(acts: seq<W -> W>, order: seq<nat>, w: W)
    requires Commuting(acts) && IsOrder(order, |acts|)
    ensures Acts(acts, order, w) == Acts(acts, Range(0, |acts|), w)
  {
    var r := Range(0, |acts|);
    forall x
      ensures x in order <==> x in r
    {
      if x in order {
        assert r[x] == x;
      }
    }
    OrderIsIrrelevant(acts, order, r, w);
  }

  /** The completion of a child that began at tick `clock`. */
  function Completion(env: Environment, clock: nat, data: SagaData, step: Step): Event {
    Finished(step, data, Settled(step, env.action(clock)))
  }

  /** A child that was denied has no effect. */
  ghost function ChildAct<W>(fx: Effects<W>, env: Environment, clock: nat, data: SagaData, step: Step, w: W): W {
    if Authorized(env, clock, step.auth, data) then Touch(fx, Completion(env, clock, data, step), w) else w
  }

  ghost function ChildActs<W>(
      fx: Effects<W>, env: Environment, clock: nat, data: SagaData, steps: seq<Step>): seq<W -> W>
  {
    seq(|steps|, k requires 0 <= k < |steps| => ((w: W) => ChildAct(fx, env, clock + k, data, steps[k], w)))
  }

  /** Starting a group touches nothing. */
  lemma {:induction false} StartsAreQuiet<W(!new)>(
      fx: Effects<W>, env: Environment, s: State, steps: seq<Step>, home: W)
    ensures var s1 := StartAll(env, s, steps);
            s.trace <= s1.trace && World(fx, s1.trace, home) == World(fx, s.trace, home)
    decreases |steps|
  {
    if steps != [] {
      var step := steps[0];
      var allowed := Authorized(env, s.clock, step.auth, s.data);
      Touched(fx, s.trace, Checked(step, step.auth, s.data, s.clock, allowed), home);
      Touched(fx, Check(s, step, step.auth, allowed).trace, Started(step, s.data), home);
      StartsAreQuiet(fx, env, StartOne(env, s, step), steps[1..], home);
    }
  }

  lemma {:induction false} FinishesTouch<W(!new)>(
    fx: Effects<W>, env: Environment, s: State, clock: nat, steps: seq<Step>, order: seq<nat>, home: W)
    requires Below(order, |steps|)
    ensures var s1 := FinishAll(env, s, clock, steps, order);
            && s.trace <= s1.trace && s1.compensable == s.compensable && s1.data == s.data
            && World(fx, s1.trace, home)
                  == Acts(ChildActs(fx, env, clock, s.data, steps), order, World(fx, s.trace, home))
    decreases |order|
  {
    if order != [] {
      var k := order[0];
      Touched(fx, s.trace, Completion(env, clock + k, s.data, steps[k]), home);
      FinishesTouch(fx, env, FinishOne(env, s, clock + k, steps[k]), clock, steps, order[1..], home);
    }
  }

  /** Every child that was allowed finishes. */
  lemma {:induction false} FinishesInclude(
    env: Environment, s: State, clock: nat, steps: seq<Step>, order: seq<nat>, k: nat)
    requires Below(order, |steps|) && k in order && Authorized(env, clock + k, steps[k].auth, s.data)
    ensures Completion(env, clock + k, s.data, steps[k]) in FinishAll(env, s, clock, steps, order).trace
    decreases |order|
  {
    var s1 := FinishOne(env, s, clock + order[0], steps[order[0]]);
    if order[0] == k {
      FinishesKeepTrace(env, s1, clock, steps, order[1..]);
      assert s1.trace[|s1.trace| - 1] == Completion(env, clock + k, s.data, steps[k]);
    } else {
      FinishesInclude(env, s1, clock, steps, order[1..], k);
    }
  }

  lemma {:induction false} FinishesKeepTrace(env: Environment, s: State, clock: nat, steps: seq<Step>, order: seq<nat>)
    requires Below(order, |steps|)
    ensures s.trace <= FinishAll(env, s, clock, steps, order).trace
    decreases |order|
  {
    if order != [] {
      FinishesKeepTrace(env, FinishOne(env, s, clock + order[0], steps[order[0]]), clock, steps, order[1..]);
    }
  }

  lemma {:induction false} SettlesAreQuiet<W(!new)>(
    fx: Effects<W>, s: State, steps: seq<Step>, outcomes: seq<Outcome>, home: W)
    requires |steps| == |outcomes|
    ensures var s1 := SettleAll(s, steps, outcomes);
            s.trace <= s1.trace && World(fx, s1.trace, home) == World(fx, s.trace, home)
    decreases |steps|
  {
    if steps != [] {
      var e := Noted(steps[0], if outcomes[0].Returned? then Committed else Failed);
      Touched(fx, s.trace, e, home);
      assert SettleOne(s, steps[0], outcomes[0]).trace == s.trace + [e];
      SettlesAreQuiet(fx, SettleOne(s, steps[0], outcomes[0]), steps[1..], outcomes[1..], home);
    }
  }

  /** The children whose attempts happened are faithful. */
  ghost predicate ChildrenFaithful<W(!new)>(
    fx: Effects<W>, env: Environment, clock: nat, data: SagaData, steps: seq<Step>, later: SagaData)
  {
    forall k | 0 <= k < |steps| && Authorized(env, clock + k, steps[k].auth, data) ::
      Faithful(fx, Completion(env, clock + k, data, steps[k]), later)
  }

  /** Settling in declaration order registers exactly the compensations that
      lead back from the group's effects. */
  lemma {:induction false} SettlesRewind<W(!new)>(
    fx: Effects<W>, env: Environment, s: State, clock: nat, data: SagaData, steps: seq<Step>, outcomes: seq<Outcome>,
    i: nat, later: SagaData, w: W)
    requires AreOutcomes(env, clock, data, steps, outcomes) && i <= |steps|
    requires ChildrenFaithful(fx, env, clock, data, steps, later)
    ensures Rewound(fx, SettleAll(s, steps[i..], outcomes[i..]).compensable, later,
                    Acts(ChildActs(fx, env, clock, data, steps), Range(i, |steps|), w))
         == Rewound(fx, s.compensable, later, w)
    decreases |steps| - i
  {
    if i < |steps| {
      var r := Range(i, |steps|);
      assert r[1..] == Range(i + 1, |steps|);
      assert steps[i..][1..] == steps[i + 1..] && outcomes[i..][1..] == outcomes[i + 1..];
      var e := Completion(env, clock + i, data, steps[i]);
      assert outcomes[i] == ChildOutcome(env, clock + i, data, steps[i]);
      if Authorized(env, clock + i, steps[i].auth, data) {
        assert Faithful(fx, e, later);
        FaithfulRewinds(fx, s.compensable, e, later, w);
      }
      SettlesRewind(fx, env, SettleOne(s, steps[i], outcomes[i]), clock, data, steps, outcomes, i + 1, later,
                    ChildAct(fx, env, clock + i, data, steps[i], w));
    }
  }

  /** Reversibility of the run covers the children of a group it contains. */
  lemma {:induction false} ChildrenBehave<W(!new)>(
    fx: Effects<W>, items: seq<Item>, env: Environment, s: State, clock: nat, steps: seq<Step>, order: seq<nat>,
    trace: seq<Event>, later: SagaData)
    requires IsOrder(order, |steps|) && Group(steps) in items && Reversible(fx, items, trace, later)
    requires FinishAll(env, s, clock, steps, order).trace <= trace
    ensures ChildrenFaithful(fx, env, clock, s.data, steps, later)
    ensures Commuting(ChildActs(fx, env, clock, s.data, steps))
  {
    forall k | 0 <= k < |steps| && Authorized(env, clock + k, steps[k].auth, s.data)
      ensures Completion(env, clock + k, s.data, steps[k]) in trace
    {
      FinishesInclude(env, s, clock, steps, order, k);
    }
    var acts := ChildActs(fx, env, clock, s.data, steps);
    forall i, j, w: W | 0 <= i < |acts| && 0 <= j < |acts|
      ensures Swappable(acts[i], acts[j], w)
    {
      var a, b := Completion(env, clock + i, s.data, steps[i]), Completion(env, clock + j, s.data, steps[j]);
      if Authorized(env, clock + i, steps[i].auth, s.data) && Authorized(env, clock + j, steps[j].auth, s.data) {
        assert a in trace && b in trace;
        assert Group(steps) in items && a.step in Group(steps).steps && b.step in Group(steps).steps;
        assert Commute(fx, a, b);
      }
    }
  }

  lemma {:induction false} ParallelReturns<W(!new)>(
    fx: Effects<W>, items: seq<Item>, env: Environment, s: State, steps: seq<Step>, later: SagaData, home: W)
    requires env.Valid() && Group(steps) in items && CanReturn(fx, items, s, later, home)
    ensures CanReturn(fx, items, ParallelStep(env, s, steps).0, later, home)
  {
    var outcomes := Outcomes(env, s.clock, s.data, steps);
    var order := env.order(s.clock, |steps|);
    assert IsOrder(order, |steps|);
    var w := World(fx, s.trace, home);
    StartKeepsData(env, s, steps);
    StartsAreQuiet(fx, env, s, steps, home);
    var s1 := StartAll(env, s, steps);
    FinishesTouch(fx, env, s1, s.clock, steps, order, home);
    var s2 := FinishAll(env, s1, s.clock, steps, order);
    SettlesAreQuiet(fx, s2, steps, outcomes, home);
    var s3 := SettleAll(s2, steps, outcomes);
    if Reversible(fx, items, s3.trace, later) {
      ReversibleBefore(fx, items, s.trace, s3.trace, later);
      ChildrenBehave(fx, items, env, s1, s.clock, steps, order, s3.trace, later);
      AnyOrderIsDeclarationOrder(ChildActs(fx, env, s.clock, s.data, steps), order, w);
      SettlesRewind(fx, env, s2, s.clock, s.data, steps, outcomes, 0, later, w);
      assert steps[0..] == steps && outcomes[0..] == outcomes;
    }
  }

  // ----- Runs -----

  lemma {:induction false} ForwardReturns<W(!new)>(
    fx: Effects<W>, all: seq<Item>, env: Environment, s: State, items: seq<Item>, later: SagaData, home: W)
    requires env.Valid() && CanReturn(fx, all, s, later, home) && forall item :: item in items ==> item in all
    ensures CanReturn(fx, all, Forward(env, s, items).0, later, home)
    decreases |items|
  {
    if items != [] {
      assert items[0] in all;
      match items[0] {
        case Single(step) => SerialReturns(fx, all, env, s, step, later, home);
        case Group(steps) => ParallelReturns(fx, all, env, s, steps, later, home);
      }
      ForwardReturns(fx, all, env, ItemStep(env, s, items[0]).0, items[1..], later, home);
    }
  }

  lemma {:induction false} EscalationIsQuiet<W(!new)>(fx: Effects<W>, s: State, step: Step, handler: bool, home: W)
    ensures var s1 := Escalate(Note(s, step, Failed), handler);
            World(fx, s1.trace, home) == World(fx, s.trace, home) && s.trace <= s1.trace
  {
    Touched(fx, s.trace, Noted(step, Failed), home);
    var s1 := Note(s, step, Failed);
    Touched(fx, s1.trace, HandlerCalled(s1.data), home);
  }

  lemma {:induction false} UndoOneTouches<W(!new)>(
      fx: Effects<W>, env: Environment, s: State, step: Step, handler: bool, home: W)
    ensures var (s1, result) := UndoOne(env, s, step, handler);
            && s1.compensable == s.compensable && s1.data == s.data && s.trace <= s1.trace
            && World(fx, s1.trace, home)
               == if result.AllUndone? then fx.undo(step, s.data, World(fx, s.trace, home))
                   else World(fx, s.trace, home)
  {
    if Authorized(env, s.clock, step.compensateAuth, s.data) {
      BegunIsQuiet(fx, s, step, home);
      match env.undo(s.clock) {
        case UndoDone => DoneTouches(fx, Begun(s, step), step, home);
        case UndoRaised => BrokenIsQuiet(fx, Begun(s, step), step, handler, home);
        case UndoInterrupted(_) =>
      }
    } else {
      Touched(fx, s.trace, Checked(step, step.compensateAuth, s.data, s.clock, false), home);
      EscalationIsQuiet(fx, Check(s, step, step.compensateAuth, false), step, handler, home);
    }
  }

  lemma {:induction false} BegunIsQuiet<W(!new)>(fx: Effects<W>, s: State, step: Step, home: W)
    ensures var s1 := Begun(s, step); World(fx, s1.trace, home) == World(fx, s.trace, home) && s.trace <= s1.trace
  {
    Touched(fx, s.trace, Checked(step, step.compensateAuth, s.data, s.clock, true), home);
    Touched(fx, Check(s, step, step.compensateAuth, true).trace, UndoStarted(step, s.data), home);
  }

  lemma {:induction false} DoneTouches<W(!new)>(fx: Effects<W>, s: State, step: Step, home: W)
    ensures var s1 := Note(Emit(s, Undone(step, s.data)), step, Compensated);
            World(fx, s1.trace, home) == fx.undo(step, s.data, World(fx, s.trace, home)) && s.trace <= s1.trace
  {
    Touched(fx, s.trace, Undone(step, s.data), home);
    Touched(fx, Emit(s, Undone(step, s.data)).trace, Noted(step, Compensated), home);
  }

  lemma {:induction false} BrokenIsQuiet<W(!new)>(fx: Effects<W>, s: State, step: Step, handler: bool, home: W)
    ensures var s1 := Escalate(Note(Emit(s, UndoFailed(step, s.data)), step, Failed), handler);
            World(fx, s1.trace, home) == World(fx, s.trace, home) && s.trace <= s1.trace
  {
    Touched(fx, s.trace, UndoFailed(step, s.data), home);
    EscalationIsQuiet(fx, Emit(s, UndoFailed(step, s.data)), step, handler, home);
  }

  /** A compensation phase keeps data and trace, and if it completes it rewinds. */
  lemma {:induction false} UndoReturns<W(!new)>(
      fx: Effects<W>, env: Environment, s: State, k: nat, handler: bool, home: W)
    requires k <= |s.compensable|
    ensures var (s1, result) := Undo(env, s, k, handler);
            && s1.data == s.data && s.trace <= s1.trace
            && (result.AllUndone? ==>
                  World(fx, s1.trace, home) == Rewound(fx, s.compensable[..k], s.data, World(fx, s.trace, home)))
    decreases k
  {
    if k > 0 {
      var step := s.compensable[k - 1];
      UndoOneTouches(fx, env, s, step, handler, home);
      var (s1, result) := UndoOne(env, s, step, handler);
      if result.AllUndone? {
        assert s.compensable[..k][..k - 1] == s.compensable[..k - 1];
        assert s.compensable[..k][k - 1] == step;
        UndoReturns(fx, env, s1, k - 1, handler, home);
      }
    }
  }

  /** The forward phase of a run leaves a way home. */
  lemma {:induction false} ForwardCanReturn<W(!new)>(
      fx: Effects<W>, env: Environment, data: SagaData, flow: SagaFlow, home: W)
    requires env.Valid()
    ensures var forth := Forward(env, Initial(data), flow.items).0; CanReturn(fx, flow.items, forth, forth.data, home)
  {
    var forth := Forward(env, Initial(data), flow.items).0;
    ForwardReturns(fx, flow.items, env, Initial(data), flow.items, forth.data, home);
  }

  /** A run that reports FAILED leaves the world it found, for every flow, every
      mix of strategies and groups, and every completion order, if the attempts
      that happened in it are reversible.  Compensations get the data the run
      ended with, so they may use whatever their actions stored there. */
  lemma {:induction false} FailedRunRestoresWorld<W(!new)>(
      fx: Effects<W>, env: Environment, data: SagaData, flow: SagaFlow, home: W)
    requires env.Valid() && Run(env, data, flow).1.FailedAt?
    requires var s := Run(env, data, flow).0; Reversible(fx, flow.items, s.trace, s.data)
    ensures World(fx, Run(env, data, flow).0.trace, home) == home
  {
    ForwardCanReturn(fx, env, data, flow, home);
    var forth := Forward(env, Initial(data), flow.items).0;
    var s := Run(env, data, flow).0;
    assert forth.compensable[..|forth.compensable|] == forth.compensable;
    UndoReturns(fx, env, forth, |forth.compensable|, flow.hasFailureHandler, home);
    ReversibleBefore(fx, flow.items, forth.trace, s.trace, s.data);
  }

  // ----- A compensation that reads what its action stored -----

  function Flip(booked: set<Business>, b: Business): set<Business> {
    if b in booked then booked - {b} else booked + {b}
  }

  /** An action books what it returns; its compensation cancels what the data
      it is given names. */
  function Bookings(): Effects<set<Business>> {
    Effects(
      (step: Step, data: SagaData, outcome: Outcome, w: set<Business>) =>
        if step.compensable && outcome.Returned? && outcome.value.Some? then Flip(w, outcome.value.value.business)
            else w,
      (step: Step, later: SagaData, w: set<Business>) => Flip(w, later.business))
  }

  /** Such a compensation is faithful exactly when the booking is still in the
      data that the forward phase ended with. */
  lemma {:induction false} FaithfulIffStillNamed(step: Step, data: SagaData, booked: SagaData, later: SagaData)
    requires step.compensable
    ensures Faithful(Bookings(), Finished(step, data, Returned(Some(booked))), later)
       <==> later.business == booked.business
  {
    var e := Finished(step, data, Returned(Some(booked)));
    var fx := Bookings();
    if later.business == booked.business {
      forall w: set<Business>
        ensures fx.undo(step, later, Touch(fx, e, w)) == w
      {
      }
    } else {
      assert booked.business in fx.undo(step, later, Touch(fx, e, {}));
    }
  }

  // ----- The saga timeout -----

  /** A run the saga timeout ended.  If `n` compensations had completed when it
      fired, those `n` are run a second time: compensation is exactly-once if
      and only if the timeout fired before the first compensation completed. */
  lemma {:induction false} TimeoutReplaysCompensation(env: Environment, data: SagaData, flow: SagaFlow)
    returns (n: nat, steps: seq<Step>, undone: seq<Step>)
    requires env.Valid() && Run(env, data, flow).1.TimedOut?
    ensures steps == Replay(Forward(env, Initial(data), flow.items).0.trace, data).undoable
    ensures undone == Replay(Run(env, data, flow).0.trace, data).undone
    ensures n <= |steps| && n == |Replay(RunItems(env, Initial(data), flow).0.trace, data).undone|
    ensures undone == Reversed(steps[|steps| - n..]) + Reversed(steps)
    ensures undone == Reversed(steps) <==> n == 0
    ensures Forward(env, Initial(data), flow.items).1.Abort? ==> n == 0
  {
    TimedOutRun(env, data, flow);
    var forth, end, s;
    n, forth, end, s := CutRun(env, data, flow);
    var s1 := FullUndo(env, s, flow.hasFailureHandler, data);
    steps, undone := s.compensable, Replay(s1.trace, data).undone;
    NoneTwice(steps, n);
  }

  /** The saga timeout compensates whatever the cut run remembered. */
  lemma {:induction false} TimedOutRun(env: Environment, data: SagaData, flow: SagaFlow)
    requires env.Valid() && Run(env, data, flow).1.TimedOut?
    ensures RunItems(env, Initial(data), flow).1.Cancelled?
    ensures var s := RunItems(env, Initial(data), flow).0;
            && Undo(env, s, |s.compensable|, flow.hasFailureHandler).1.AllUndone?
            && Run(env, data, flow).0 == Undo(env, s, |s.compensable|, flow.hasFailureHandler).0
  {
  }

  lemma {:induction false} NoneTwice(steps: seq<Step>, n: nat)
    requires n <= |steps|
    ensures Reversed(steps[|steps| - n..]) + Reversed(steps) == Reversed(steps) <==> n == 0
  {
    ReversedKeeps(steps[|steps| - n..]);
    var tail := Reversed(steps);
    assert [] + tail == tail;
  }

  /** The state in which the saga timeout leaves the engine. */
  lemma {:induction false} CutRun(env: Environment, data: SagaData, flow: SagaFlow)
    returns (n: nat, forth: State, end: Flow, s: State)
    requires env.Valid() && RunItems(env, Initial(data), flow).1.Cancelled?
    ensures Forward(env, Initial(data), flow.items) == (forth, end) && RunItems(env, Initial(data), flow).0 == s
    ensures Consistent(env, s, data) && s.compensable == Replay(forth.trace, data).undoable
    ensures n <= |s.compensable| && Replay(s.trace, data).undone == Reversed(s.compensable[|s.compensable| - n..])
    ensures n == |Replay(s.trace, data).undone| && (end.Abort? ==> n == 0)
  {
    forth, end, s := CutForward(env, data, flow);
    n := CutCount(env, data, flow.hasFailureHandler, forth, s, end.Stop?);
  }

  lemma {:induction false} CutCount(
      env: Environment, data: SagaData, handler: bool, forth: State, s: State, stopped: bool) returns (n: nat)
    requires Going(env, forth, data) && s == if stopped then Undo(env, forth, |forth.compensable|, handler).0 else forth
    ensures Consistent(env, s, data) && s.compensable == Replay(forth.trace, data).undoable
    ensures n <= |s.compensable| && Replay(s.trace, data).undone == Reversed(s.compensable[|s.compensable| - n..])
    ensures n == |Replay(s.trace, data).undone| && (!stopped ==> n == 0)
  {
    NothingUndone(env, forth, data);
    n := 0;
    if stopped {
      var s1;
      n, s1 := PartialUndo(env, forth, handler, data);
    }
  }

  lemma {:induction false} NothingUndone(env: Environment, s: State, initial: SagaData)
    requires Going(env, s, initial)
    ensures Consistent(env, s, initial) && s.compensable == Replay(s.trace, initial).undoable
    ensures Replay(s.trace, initial).undone == [] == Reversed(s.compensable[|s.compensable|..])
  {
    assert s.compensable[|s.compensable|..] == [];
  }

  /** Where a cut run stood after its forward phase. */
  lemma {:induction false} CutForward(
      env: Environment, data: SagaData, flow: SagaFlow) returns (forth: State, end: Flow, s: State)
    requires env.Valid() && RunItems(env, Initial(data), flow).1.Cancelled?
    ensures Forward(env, Initial(data), flow.items) == (forth, end)
    ensures Going(env, forth, data) && (end.Stop? || end.Abort?)
    ensures RunItems(env, Initial(data), flow).0 == s
    ensures s == if end.Stop? then Undo(env, forth, |forth.compensable|, flow.hasFailureHandler).0 else forth
  {
    FreshIsConsistent(env, data);
    ForwardKeeps(env, Initial(data), flow.items, data);
    var next := Forward(env, Initial(data), flow.items);
    forth, end, s := next.0, next.1, RunItems(env, Initial(data), flow).0;
  }

  lemma {:induction false} PartialUndo(
      env: Environment, s: State, handler: bool, initial: SagaData) returns (n: nat, s1: State)
    requires Going(env, s, initial)
    ensures s1 == Undo(env, s, |s.compensable|, handler).0
    ensures Consistent(env, s1, initial) && s1.compensable == s.compensable
    ensures n <= |s.compensable| && Replay(s1.trace, initial).undone == Reversed(s.compensable[|s.compensable| - n..])
    ensures n == |Replay(s1.trace, initial).undone|
  {
    var steps := s.compensable;
    var result;
    n, s1, result := UndoIsLifo(env, s, |steps|, handler, initial);
    UndidFromNothing(Replay(s.trace, initial), Replay(s1.trace, initial), steps, n, result);
  }

  lemma {:induction false} UndidFromNothing(l: Ledger, l1: Ledger, steps: seq<Step>, n: nat, result: UndoResult)
    requires n <= |steps| && UndidN(l, l1, steps, |steps|, n, result) && l.undone == []
    ensures l1.undone == Reversed(steps[|steps| - n..]) && |l1.undone| == n
  {
    assert steps[|steps| - n..|steps|] == steps[|steps| - n..];
    ReversedKeeps(steps[|steps| - n..]);
    var tail := Reversed(steps[|steps| - n..]);
    assert l.undone + tail == tail;
  }

  lemma {:induction false} FullUndo(env: Environment, s: State, handler: bool, initial: SagaData) returns (s1: State)
    requires Consistent(env, s, initial) && Undo(env, s, |s.compensable|, handler).1.AllUndone?
    ensures s1 == Undo(env, s, |s.compensable|, handler).0
    ensures Replay(s1.trace, initial).undone == Replay(s.trace, initial).undone + Reversed(s.compensable)
  {
    var n, result;
    n, s1, result := UndoIsLifo(env, s, |s.compensable|, handler, initial);
    assert s.compensable[0..|s.compensable|] == s.compensable;
  }

  /** The same world recovery for a timeout that fired before any compensation
      completed, in particular for one that fired in the forward phase. */
  lemma {:induction false} TimedOutRunRestoresWorld<W(!new)>(
      fx: Effects<W>, env: Environment, data: SagaData, flow: SagaFlow, home: W)
    requires env.Valid() && Run(env, data, flow).1.TimedOut?
    requires Replay(RunItems(env, Initial(data), flow).0.trace, data).undone == []
    requires var s := Run(env, data, flow).0; Reversible(fx, flow.items, s.trace, s.data)
    ensures World(fx, Run(env, data, flow).0.trace, home) == home
  {
    TimedOutRun(env, data, flow);
    ForwardCanReturn(fx, env, data, flow, home);
    var forth, end, s := CutForward(env, data, flow);
    CutIsQuiet(fx, env, data, flow.hasFailureHandler, forth, s, end.Stop?, home);
    assert s.compensable[..|s.compensable|] == s.compensable;
    UndoReturns(fx, env, s, |s.compensable|, flow.hasFailureHandler, home);
    var last := Run(env, data, flow).0;
    ReversibleBefore(fx, flow.items, forth.trace, last.trace, last.data);
  }

  lemma {:induction false} CutIsQuiet<W(!new)>(
    fx: Effects<W>, env: Environment, data: SagaData, handler: bool, forth: State, s: State, stopped: bool, home: W)
    requires Going(env, forth, data) && s == if stopped then Undo(env, forth, |forth.compensable|, handler).0 else forth
    requires Replay(s.trace, data).undone == []
    ensures World(fx, s.trace, home) == World(fx, forth.trace, home)
    ensures s.compensable == forth.compensable && s.data == forth.data && forth.trace <= s.trace
  {
    if stopped {
      UndoReturns(fx, env, forth, |forth.compensable|, handler, home);
      CutAtOnceIsQuiet(fx, env, forth, |forth.compensable|, handler, data, home);
    }
  }

  lemma {:induction false} CutAtOnceIsQuiet<W(!new)>(
    fx: Effects<W>, env: Environment, s: State, k: nat, handler: bool, initial: SagaData, home: W)
    requires Going(env, s, initial) && k <= |s.compensable|
    requires Replay(Undo(env, s, k, handler).0.trace, initial).undone == []
    ensures var s1 := Undo(env, s, k, handler).0;
            World(fx, s1.trace, home) == World(fx, s.trace, home) && s1.compensable == s.compensable
  {
    if k > 0 {
      var step := s.compensable[k - 1];
      UndoOneTouches(fx, env, s, step, handler, home);
      FirstUndoShows(env, s, k, handler, initial);
    }
  }

  lemma {:induction false} FirstUndoShows(env: Environment, s: State, k: nat, handler: bool, initial: SagaData)
    requires Going(env, s, initial) && 0 < k <= |s.compensable|
    requires Replay(Undo(env, s, k, handler).0.trace, initial).undone == []
    ensures !UndoOne(env, s, s.compensable[k - 1], handler).1.AllUndone?
  {
    UndoOneKeeps(env, s, s.compensable[k - 1], handler, initial);
    var (s1, result) := UndoOne(env, s, s.compensable[k - 1], handler);
    if result.AllUndone? {
      UndoneGrows(env, s1, k - 1, handler, initial);
    }
  }

  /** What was undone stays undone. */
  lemma {:induction false} UndoneGrows(env: Environment, s: State, k: nat, handler: bool, initial: SagaData)
    requires Consistent(env, s, initial) && k <= |s.compensable|
    ensures |Replay(s.trace, initial).undone| <= |Replay(Undo(env, s, k, handler).0.trace, initial).undone|
  {
    var n, s1, result := UndoIsLifo(env, s, k, handler, initial);
  }

  // ----- A run in which the timeout does replay a compensation -----

  function Transaction(name: string, callback: nat): Step {
    Step(name, callback, true, Compensate, false, None, None)
  }

  /** Actions 0 and 1 succeed, action 2 fails; the second compensation is cut
      by the saga timeout. */
  function SlowCompensation(): Environment {
    Environment(
      t => if t == 2 then Raised(ActionError(1)) else Returned(None),
      t => if t == 4 then UndoInterrupted(true) else UndoDone,
      t => None,
      (t, n) => Range(0, n),
      false, (t, s) => false, (t, s, r) => false)
  }

  function ThreeSteps(): SagaFlow {
    SagaFlow(
      [Single(Transaction("a", 0)), Single(Transaction("b", 1)), Single(Transaction("c", 2))], true, false)
  }

  lemma {:induction false} SlowForward(data: SagaData) returns (s: State)
    ensures SlowCompensation().Valid()
    ensures Forward(SlowCompensation(), Initial(data), ThreeSteps().items) == (s, Stop("c", ActionError(1)))
    ensures s.compensable == [Transaction("a", 0), Transaction("b", 1)] && s.clock == 3
  {
    var env, items := SlowCompensation(), ThreeSteps().items;
    forall t: nat, n: nat
      ensures IsOrder(env.order(t, n), n)
    {
      forall x: nat | x < n
        ensures x in env.order(t, n)
      {
        assert Range(0, n)[x] == x;
      }
    }
    assert env.Valid();
    var (s1, f1) := SerialStep(env, Initial(data), Transaction("a", 0));
    assert f1 == Continue && s1.compensable == [Transaction("a", 0)] && s1.clock == 1;
    var (s2, f2) := SerialStep(env, s1, Transaction("b", 1));
    assert f2 == Continue && s2.compensable == [Transaction("a", 0), Transaction("b", 1)] && s2.clock == 2;
    var (s3, f3) := SerialStep(env, s2, Transaction("c", 2));
    assert f3 == Stop("c", ActionError(1)) && s3.clock == 3;
    s := s3;
    assert items[1..] == [items[1], items[2]] && items[1..][1..] == [items[2]];
    assert Forward(env, s2, [items[2]]) == (s3, f3);
    assert Forward(env, s1, items[1..]) == Forward(env, s2, [items[2]]);
  }

  lemma {:induction false} SlowForwardKeeps(data: SagaData, s: State)
    requires SlowCompensation().Valid()
    requires s == Forward(SlowCompensation(), Initial(data), ThreeSteps().items).0
    ensures Going(SlowCompensation(), s, data)
  {
    FreshIsConsistent(SlowCompensation(), data);
    ForwardKeeps(SlowCompensation(), Initial(data), ThreeSteps().items, data);
  }

  /** The first pass compensates "b" and is cut at "a". */
  lemma {:induction false} SlowFirstPass(s: State, data: SagaData) returns (s2: State)
    requires Going(SlowCompensation(), s, data) && s.clock == 3
    requires s.compensable == [Transaction("a", 0), Transaction("b", 1)]
    ensures Undo(SlowCompensation(), s, 2, false) == (s2, UndoCut(true))
    ensures Consistent(SlowCompensation(), s2, data) && s2.compensable == s.compensable && s2.clock == 5
    ensures Replay(s2.trace, data).undone == [Transaction("b", 1)]
  {
    var env := SlowCompensation();
    var a, b := Transaction("a", 0), Transaction("b", 1);
    var (s1, r1) := UndoOne(env, s, b, false);
    UndoOneKeeps(env, s, b, false, data);
    var (s', r2) := UndoOne(env, s1, a, false);
    UndoOneKeeps(env, s1, a, false, data);
    s2 := s';
    assert Undo(env, s1, 1, false) == (s2, UndoCut(true));
  }

  /** The second pass starts over. */
  lemma {:induction false} SlowSecondPass(s: State, data: SagaData) returns (s2: State)
    requires Consistent(SlowCompensation(), s, data) && s.clock == 5
    requires s.compensable == [Transaction("a", 0), Transaction("b", 1)]
    requires Replay(s.trace, data).undone == [Transaction("b", 1)]
    ensures Undo(SlowCompensation(), s, 2, false) == (s2, AllUndone)
    ensures Replay(s2.trace, data).undone == [Transaction("b", 1), Transaction("b", 1), Transaction("a", 0)]
  {
    var env := SlowCompensation();
    var a, b := Transaction("a", 0), Transaction("b", 1);
    var (s1, r1) := UndoOne(env, s, b, false);
    UndoOneKeeps(env, s, b, false, data);
    var (s', r2) := UndoOne(env, s1, a, false);
    UndoOneKeeps(env, s1, a, false, data);
    s2 := s';
    assert Undo(env, s1, 1, false) == Undo(env, s2, 0, false);
  }

  /** The compensation of "b" runs twice: exactly-once is false of the code. */
  lemma {:induction false} CompensationCanRunTwice(data: SagaData)
    ensures SlowCompensation().Valid()
    ensures var (s, result) := Run(SlowCompensation(), data, ThreeSteps());
            && result.TimedOut?
            && Replay(s.trace, data).undone == [Transaction("b", 1), Transaction("b", 1), Transaction("a", 0)]
  {
    var s := SlowForward(data);
    SlowForwardKeeps(data, s);
    var s1 := SlowFirstPass(s, data);
    var s2 := SlowSecondPass(s1, data);
    CutThenCompensated(SlowCompensation(), data, ThreeSteps(), s, s1, s2);
  }

  lemma {:induction false} CutThenCompensated(
      env: Environment, data: SagaData, flow: SagaFlow, s: State, s1: State, s2: State)
    requires env.Valid() && WellDefined(flow.items) && flow.hasTimeout
    requires Forward(env, Initial(data), flow.items).0 == s && Forward(env, Initial(data), flow.items).1.Stop?
    requires Undo(env, s, |s.compensable|, flow.hasFailureHandler) == (s1, UndoCut(true))
    requires Undo(env, s1, |s1.compensable|, flow.hasFailureHandler) == (s2, AllUndone)
    ensures Run(env, data, flow) == (s2, TimedOut)
  {
    assert RunItems(env, Initial(data), flow) == (s1, Cancelled(true));
  }
}
