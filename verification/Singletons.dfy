/** The double-checked singleton cache under concurrent callers
    (core/spakky/src/spakky/core/application/application_context.py).

    Threads step through the unlocked check, the re-entrant lock, the second
    check, instantiation, publication and release.  Instantiating one pod asks
    for others in the same thread while the lock is held, so a thread carries a
    stack of requests.  An action sequence is one interleaving; the theorems
    hold after every enabled sequence. */
module Singletons {
  import opened Wrappers

  datatype Stage =
    | Checking
    | Waiting
    | Rechecking
    | Building
    | Publishing(instance: nat)
    | Releasing(instance: nat)
    | Returning(instance: nat)
  {
    /** Stages between acquiring and releasing the lock. */
    predicate Locked() {
      Rechecking? || Building? || Publishing? || Releasing?
    }

    predicate UnderWay() {
      Building? || Publishing?
    }
  }

  datatype Frame = Frame(pod: string, stage: Stage)

  datatype Delivery = Delivery(thread: nat, pod: string, instance: nat)

  datatype State = State(
    cache: map<string, nat>,
    owner: Option<nat>,
    stacks: map<nat, seq<Frame>>,
    supply: nat,
    published: seq<(string, nat)>,
    returned: seq<Delivery>)

  const START := State(map[], None, map[], 0, [], [])

  function Stack(s: State, t: nat): seq<Frame> {
    if t in s.stacks then s.stacks[t] else []
  }

  datatype Action =
    | Call(t: nat, pod: string)
    | Check(t: nat)
    | Acquire(t: nat)
    | Recheck(t: nat)
    | Construct(t: nat)
    | Publish(t: nat)
    | Release(t: nat)
    | Return(t: nat)
    | Unwind(t: nat)

  /** Cycle detection: the pod is not being built further down this stack. */
  predicate InProgress(stack: seq<Frame>, pod: string) {
    exists k | 0 <= k < |stack| :: stack[k].pod == pod && stack[k].stage.UnderWay()
  }

  predicate Enabled(s: State, a: Action) {
    var stack := Stack(s, a.t);
    var n := |stack| - 1;
    match a
    case Call(_, _) => stack == [] || stack[n].stage == Building
    case Check(_) => stack != [] && stack[n].stage == Checking
    case Acquire(t) => stack != [] && stack[n].stage == Waiting && (s.owner == None || s.owner == Some(t))
    case Recheck(_) =>
      && stack != [] && stack[n].stage == Rechecking
      && (stack[n].pod in s.cache || !InProgress(stack, stack[n].pod))
    case Construct(_) => stack != [] && stack[n].stage == Building
    case Publish(_) => stack != [] && stack[n].stage.Publishing?
    case Release(_) => stack != [] && stack[n].stage.Releasing?
    case Return(_) => stack != [] && stack[n].stage.Returning?
    case Unwind(_) => stack != []
  }

  function WithStack(s: State, t: nat, stack: seq<Frame>): State {
    s.(stacks := s.stacks[t := stack])
  }

  function AtStage(stack: seq<Frame>, stage: Stage): seq<Frame>
    requires stack != []
  {
    stack[..|stack| - 1] + [Frame(stack[|stack| - 1].pod, stage)]
  }

  predicate HoldsLock(stack: seq<Frame>) {
    exists k | 0 <= k < |stack| :: stack[k].stage.Locked()
  }

  function Next(s: State, a: Action): State
    requires Enabled(s, a)
  {
    var t := a.t;
    var stack := Stack(s, t);
    match a
    case Call(_, pod) => WithStack(s, t, stack + [Frame(pod, Checking)])
    case Check(_) =>
      var pod := stack[|stack| - 1].pod;
      WithStack(s, t, AtStage(stack, if pod in s.cache then Returning(s.cache[pod]) else Waiting))
    case Acquire(_) => WithStack(s, t, AtStage(stack, Rechecking)).(owner := Some(t))
    case Recheck(_) =>
      var pod := stack[|stack| - 1].pod;
      WithStack(s, t, AtStage(stack, if pod in s.cache then Releasing(s.cache[pod]) else Building))
    case Construct(_) => WithStack(s, t, AtStage(stack, Publishing(s.supply))).(supply := s.supply + 1)
    case Publish(_) =>
      var top := stack[|stack| - 1];
      WithStack(s, t, AtStage(stack, Releasing(top.stage.instance)))
        .(cache := s.cache[top.pod := top.stage.instance],
          published := s.published + [(top.pod, top.stage.instance)])
    case Release(_) =>
      var next := AtStage(stack, Returning(stack[|stack| - 1].stage.instance));
      WithStack(s, t, next).(owner := if HoldsLock(next) then s.owner else None)
    case Return(_) =>
      var top := stack[|stack| - 1];
      WithStack(s, t, stack[..|stack| - 1]).(returned := s.returned + [Delivery(t, top.pod, top.stage.instance)])
    case Unwind(_) => WithStack(s, t, []).(owner := if s.owner == Some(t) then None else s.owner)
  }

  // ----- The invariant -----

  /** One frame agrees with the lock and the cache. */
  ghost predicate FrameOk(s: State, t: nat, f: Frame) {
    && (f.stage.Locked() ==> s.owner == Some(t))
    && (f.stage.UnderWay() ==> f.pod !in s.cache)
    && (f.stage.Releasing? ==> f.pod in s.cache && s.cache[f.pod] == f.stage.instance)
    && (f.stage.Returning? ==> f.pod in s.cache && s.cache[f.pod] == f.stage.instance)
  }

  ghost predicate StackOk(s: State, t: nat, stack: seq<Frame>) {
    && (forall k | 0 <= k < |stack| :: FrameOk(s, t, stack[k]))
    && (forall j, k | 0 <= j < k < |stack| && stack[j].stage.UnderWay() && stack[k].stage.UnderWay() ::
          stack[j].pod != stack[k].pod)
  }

  /** Publications are the cache: one per pod, never replaced. */
  ghost predicate LogOk(s: State) {
    && (forall k | 0 <= k < |s.published| ::
          s.published[k].0 in s.cache && s.cache[s.published[k].0] == s.published[k].1)
    && (forall j, k | 0 <= j < k < |s.published| :: s.published[j].0 != s.published[k].0)
    && (forall k | 0 <= k < |s.returned| ::
          s.returned[k].pod in s.cache && s.cache[s.returned[k].pod] == s.returned[k].instance)
  }

  ghost predicate Safe(s: State) {
    LogOk(s) && forall t | t in s.stacks :: StackOk(s, t, s.stacks[t])
  }

  /** Stacks of other threads are untouched by a step that neither publishes
      nor takes the lock away from them. */
  lemma {:induction false} OthersKeep(s: State, s1: State, t: nat)
    requires Safe(s) && t in s1.stacks && s1.cache == s.cache
    requires s1.stacks == s.stacks[t := s1.stacks[t]]
    requires s1.owner == s.owner || s.owner == None || s.owner == Some(t)
    requires StackOk(s1, t, s1.stacks[t]) && LogOk(s1)
    ensures Safe(s1)
  {
    forall u | u in s1.stacks
      ensures StackOk(s1, u, s1.stacks[u])
    {
      if u != t {
        forall k | 0 <= k < |s.stacks[u]|
          ensures FrameOk(s1, u, s.stacks[u][k])
        {
          assert FrameOk(s, u, s.stacks[u][k]);
        }
      }
    }
  }

  /** Moving the top frame to another stage. */
  lemma {:induction false} RestageKeeps(s: State, s1: State, t: nat, stack: seq<Frame>, stage: Stage)
    requires stack != [] && StackOk(s, t, stack) && s1.cache == s.cache
    requires s1.owner == s.owner || s1.owner == Some(t)
    requires FrameOk(s1, t, Frame(stack[|stack| - 1].pod, stage))
    requires stage.UnderWay() ==> stack[|stack| - 1].stage.UnderWay() || !InProgress(stack, stack[|stack| - 1].pod)
    ensures StackOk(s1, t, AtStage(stack, stage))
  {
    var next := AtStage(stack, stage);
    forall k | 0 <= k < |next|
      ensures FrameOk(s1, t, next[k])
    {
      assert FrameOk(s, t, stack[k]);
    }
  }

  lemma {:induction false} StackIsOk(s: State, t: nat)
    requires Safe(s)
    ensures StackOk(s, t, Stack(s, t))
  {
  }

  lemma {:induction false} CallKeeps(s: State, t: nat, pod: string)
    requires Safe(s) && Enabled(s, Call(t, pod))
    ensures Safe(Next(s, Call(t, pod)))
  {
    StackIsOk(s, t);
    var s1 := Next(s, Call(t, pod));
    var stack := Stack(s, t);
    assert forall k | 0 <= k < |stack| :: FrameOk(s, t, stack[k]);
    OthersKeep(s, s1, t);
  }

  /** Every step that only moves the top frame along. */
  lemma {:induction false} MoveKeeps(s: State, a: Action)
    requires Safe(s) && Enabled(s, a) && (a.Check? || a.Acquire? || a.Recheck? || a.Construct?)
    ensures Safe(Next(s, a))
  {
    var t := a.t;
    var stack := Stack(s, t);
    StackIsOk(s, t);
    var s1 := Next(s, a);
    var n := |stack| - 1;
    assert FrameOk(s, t, stack[n]);
    RestageKeeps(s, s1, t, stack, s1.stacks[t][n].stage);
    OthersKeep(s, s1, t);
  }

  lemma {:induction false} ReleaseKeeps(s: State, t: nat)
    requires Safe(s) && Enabled(s, Release(t))
    ensures Safe(Next(s, Release(t)))
  {
    var stack := Stack(s, t);
    StackIsOk(s, t);
    var s1 := Next(s, Release(t));
    var next := s1.stacks[t];
    assert FrameOk(s, t, stack[|stack| - 1]);
    forall k | 0 <= k < |next|
      ensures FrameOk(s1, t, next[k])
    {
      assert FrameOk(s, t, stack[k]);
      if next[k].stage.Locked() {
        assert HoldsLock(next);
      }
    }
    OthersKeep(s, s1, t);
  }

  lemma {:induction false} ReturnKeeps(s: State, t: nat)
    requires Safe(s) && Enabled(s, Return(t))
    ensures Safe(Next(s, Return(t)))
  {
    var stack := Stack(s, t);
    StackIsOk(s, t);
    var s1 := Next(s, Return(t));
    assert FrameOk(s, t, stack[|stack| - 1]);
    assert forall k | 0 <= k < |stack| :: FrameOk(s, t, stack[k]) && FrameOk(s1, t, stack[k]);
    OthersKeep(s, s1, t);
  }

  lemma {:induction false} UnwindKeeps(s: State, t: nat)
    requires Safe(s) && Enabled(s, Unwind(t))
    ensures Safe(Next(s, Unwind(t)))
  {
    OthersKeep(s, Next(s, Unwind(t)), t);
  }

  /** The published pod is being built by nobody else: not by another thread,
      which does not hold the lock, and not further down this stack. */
  lemma {:induction false} PublishKeeps(s: State, t: nat)
    requires Safe(s) && Enabled(s, Publish(t))
    ensures Safe(Next(s, Publish(t)))
  {
    var stack := Stack(s, t);
    StackIsOk(s, t);
    var s1 := Next(s, Publish(t));
    var top := stack[|stack| - 1];
    assert FrameOk(s, t, top);
    forall u | u in s1.stacks
      ensures StackOk(s1, u, s1.stacks[u])
    {
      var others := s1.stacks[u];
      if u == t {
        forall k | 0 <= k < |others|
          ensures FrameOk(s1, t, others[k])
        {
          assert FrameOk(s, t, stack[k]);
        }
      } else {
        forall k | 0 <= k < |others|
          ensures FrameOk(s1, u, others[k])
        {
          assert FrameOk(s, u, s.stacks[u][k]);
        }
      }
    }
  }

  lemma {:induction false} StepKeepsSafe(s: State, a: Action)
    requires Safe(s) && Enabled(s, a)
    ensures Safe(Next(s, a))
  {
    match a {
      case Call(t, pod) => CallKeeps(s, t, pod);
      case Publish(t) => PublishKeeps(s, t);
      case Release(t) => ReleaseKeeps(s, t);
      case Return(t) => ReturnKeeps(s, t);
      case Unwind(t) => UnwindKeeps(s, t);
      case _ => MoveKeeps(s, a);
    }
  }

  // ----- Every interleaving -----

  /** `s` is reached from `from` by the actions `run`, each enabled in turn. */
  ghost predicate Reaches(from: State, run: seq<Action>, s: State)
    decreases |run|
  {
    if run == [] then s == from
    else Enabled(from, run[0]) && Reaches(Next(from, run[0]), run[1..], s)
  }

  lemma {:induction false} RunKeepsSafe(from: State, run: seq<Action>, s: State)
    requires Safe(from) && Reaches(from, run, s)
    ensures Safe(s)
    decreases |run|
  {
    if run != [] {
      StepKeepsSafe(from, run[0]);
      RunKeepsSafe(Next(from, run[0]), run[1..], s);
    }
  }

  /** After every interleaving, each pod was published at most once, and every
      caller that was answered for a pod got the one published instance. */
  lemma {:induction false} OneInstancePerSingleton(run: seq<Action>, s: State)
    requires Reaches(START, run, s)
    ensures forall j, k | 0 <= j < k < |s.published| :: s.published[j].0 != s.published[k].0
    ensures forall j, k | 0 <= j < |s.returned| && 0 <= k < |s.returned| && s.returned[j].pod == s.returned[k].pod ::
      s.returned[j].instance == s.returned[k].instance
    ensures forall k | 0 <= k < |s.published| ::
      s.published[k].0 in s.cache && s.cache[s.published[k].0] == s.published[k].1
    ensures forall k | 0 <= k < |s.returned| ::
      s.returned[k].pod in s.cache && s.cache[s.returned[k].pod] == s.returned[k].instance
  {
    RunKeepsSafe(START, run, s);
  }

  /** At most one thread is ever between acquiring and releasing the lock. */
  lemma {:induction false} MutualExclusion(run: seq<Action>, s: State, t: nat, u: nat, j: nat, k: nat)
    requires Reaches(START, run, s)
    requires j < |Stack(s, t)| && Stack(s, t)[j].stage.Locked()
    requires k < |Stack(s, u)| && Stack(s, u)[k].stage.Locked()
    ensures t == u
  {
    RunKeepsSafe(START, run, s);
    assert FrameOk(s, t, Stack(s, t)[j]) && FrameOk(s, u, Stack(s, u)[k]);
  }

  // ----- The lock is never leaked -----

  ghost predicate OwnerHolds(s: State) {
    s.owner.Some? ==> HoldsLock(Stack(s, s.owner.value))
  }

  lemma {:induction false} StillHeld(stack: seq<Frame>, next: seq<Frame>, k: nat)
    requires k < |stack| && k < |next| && stack[k].stage.Locked() && next[k].stage.Locked()
    ensures HoldsLock(next)
  {
  }

  lemma {:induction false} StepKeepsOwner(s: State, a: Action)
    requires Safe(s) && OwnerHolds(s) && Enabled(s, a)
    ensures OwnerHolds(Next(s, a))
  {
    var s1 := Next(s, a);
    if s1.owner.Some? {
      var t := s1.owner.value;
      var stack, next := Stack(s, t), Stack(s1, t);
      if a.Acquire? {
        assert next[|next| - 1].stage.Locked();
      } else if s.owner == Some(t) {
        var k :| 0 <= k < |stack| && stack[k].stage.Locked();
        if t == a.t && !a.Release? {
          StillHeld(stack, next, k);
        }
      }
    }
  }

  lemma {:induction false} RunKeepsOwner(from: State, run: seq<Action>, s: State)
    requires Safe(from) && OwnerHolds(from) && Reaches(from, run, s)
    ensures OwnerHolds(s)
    decreases |run|
  {
    if run != [] {
      StepKeepsSafe(from, run[0]);
      StepKeepsOwner(from, run[0]);
      RunKeepsOwner(Next(from, run[0]), run[1..], s);
    }
  }

  /** A thread with no request under way holds no lock, so a waiting thread is
      only ever blocked by one that still has work to do. */
  lemma {:induction false} LockIsNeverLeaked(run: seq<Action>, s: State, t: nat)
    requires Reaches(START, run, s) && s.owner == Some(t)
    ensures exists k | 0 <= k < |Stack(s, t)| :: Stack(s, t)[k].stage.Locked()
  {
    RunKeepsOwner(START, run, s);
  }

  // ----- Two pods never share an instance -----

  /** `i` is held by a frame that is about to publish it. */
  ghost predicate InHand(s: State, t: nat, k: nat, i: nat) {
    t in s.stacks && k < |s.stacks[t]| && s.stacks[t][k].stage == Publishing(i)
  }

  /** Instances are numbered below the supply, and no two pods, published or
      about to be, have the same. */
  ghost predicate Apart(s: State) {
    && (forall p | p in s.cache :: s.cache[p] < s.supply)
    && (forall p, q | p in s.cache && q in s.cache && p != q :: s.cache[p] != s.cache[q])
    && (forall t: nat, k: nat, i: nat | InHand(s, t, k, i) :: i < s.supply && i !in s.cache.Values)
    && (forall t: nat, k: nat, i: nat, u: nat, m: nat | InHand(s, t, k, i) && InHand(s, u, m, i) :: t == u && k == m)
  }

  /** A step that neither constructs nor publishes puts nothing into anyone's
      hand. */
  lemma {:induction false} QuietKeepsApart(s: State, s1: State)
    requires Apart(s) && s1.cache == s.cache && s1.supply == s.supply
    requires forall t: nat, k: nat, i: nat | InHand(s1, t, k, i) :: InHand(s, t, k, i)
    ensures Apart(s1)
  {
  }

  lemma {:induction false} StepKeepsApart(s: State, a: Action)
    requires Safe(s) && Apart(s) && Enabled(s, a)
    ensures Apart(Next(s, a))
  {
    var s1 := Next(s, a);
    if a.Construct? {
      ConstructKeepsApart(s, a.t);
    } else if a.Publish? {
      PublishKeepsApart(s, a.t);
    } else {
      QuietKeepsApart(s, s1);
    }
  }

  lemma {:induction false} ConstructKeepsApart(s: State, t: nat)
    requires Safe(s) && Apart(s) && Enabled(s, Construct(t))
    ensures Apart(Next(s, Construct(t)))
  {
    var s1 := Next(s, Construct(t));
    var top := |Stack(s, t)| - 1;
    forall u: nat, k: nat, i: nat | InHand(s1, u, k, i)
      ensures (u == t && k == top && i == s.supply) || InHand(s, u, k, i)
    {
    }
  }

  lemma {:induction false} PublishKeepsApart(s: State, t: nat)
    requires Safe(s) && Apart(s) && Enabled(s, Publish(t))
    ensures Apart(Next(s, Publish(t)))
  {
    var s1 := Next(s, Publish(t));
    var stack := Stack(s, t);
    var n := |stack| - 1;
    var i := stack[n].stage.instance;
    assert InHand(s, t, n, i);
    forall u: nat, k: nat, j: nat | InHand(s1, u, k, j)
      ensures InHand(s, u, k, j) && j != i && j !in s1.cache.Values
    {
      assert InHand(s, u, k, j);
      assert j == i ==> u == t && k == n;
    }
    assert forall p | p in s.cache :: s.cache[p] in s.cache.Values;
  }

  lemma {:induction false} RunKeepsApart(from: State, run: seq<Action>, s: State)
    requires Safe(from) && Apart(from) && Reaches(from, run, s)
    ensures Apart(s)
    decreases |run|
  {
    if run != [] {
      StepKeepsSafe(from, run[0]);
      StepKeepsApart(from, run[0]);
      RunKeepsApart(Next(from, run[0]), run[1..], s);
    }
  }

  /** After every interleaving, callers that were answered for different pods got
      different instances. */
  lemma {:induction false} DifferentPodsDifferentInstances(run: seq<Action>, s: State, j: nat, k: nat)
    requires Reaches(START, run, s) && j < |s.returned| && k < |s.returned|
    ensures s.returned[j].instance == s.returned[k].instance <==> s.returned[j].pod == s.returned[k].pod
  {
    RunKeepsSafe(START, run, s);
    RunKeepsApart(START, run, s);
  }

  // ----- Nobody is stuck -----

  /** What a thread does next if nothing stands in its way. */
  function OwnStep(t: nat, stage: Stage): Action {
    match stage
    case Checking => Check(t)
    case Waiting => Acquire(t)
    case Rechecking => Recheck(t)
    case Building => Construct(t)
    case Publishing(_) => Publish(t)
    case Releasing(_) => Release(t)
    case Returning(_) => Return(t)
  }

  /** The thread's own next step is enabled, or it is about to report that a pod
      depends on itself. */
  ghost predicate CanMove(s: State, t: nat) {
    var stack := Stack(s, t);
    && stack != []
    && var top := stack[|stack| - 1];
       || Enabled(s, OwnStep(t, top.stage))
       || (top.stage == Rechecking && top.pod !in s.cache && InProgress(stack, top.pod))
  }

  /** After every interleaving, a thread with a request can go on, unless it waits
      for the lock, and then the thread that holds it can. */
  lemma {:induction false} NobodyIsStuck(run: seq<Action>, s: State, t: nat)
    requires Reaches(START, run, s) && Stack(s, t) != []
    ensures || CanMove(s, t)
            || (&& Stack(s, t)[|Stack(s, t)| - 1].stage == Waiting
                && s.owner.Some? && s.owner.value != t && CanMove(s, s.owner.value))
  {
    RunKeepsSafe(START, run, s);
    RunKeepsOwner(START, run, s);
    if !CanMove(s, t) {
      MovesUnlessWaiting(s, t);
      OwnerCanMove(s, s.owner.value);
    }
  }

  /** Only the lock can stand in a thread's way. */
  lemma {:induction false} MovesUnlessWaiting(s: State, t: nat)
    requires Stack(s, t) != []
    ensures || CanMove(s, t)
            || (Stack(s, t)[|Stack(s, t)| - 1].stage == Waiting && s.owner.Some? && s.owner.value != t)
  {
    var stack := Stack(s, t);
    var top := stack[|stack| - 1];
    match top.stage
    case Waiting => assert OwnStep(t, top.stage) == Acquire(t);
    case Rechecking => assert OwnStep(t, top.stage) == Recheck(t);
    case _ => assert Enabled(s, OwnStep(t, top.stage));
  }

  lemma {:induction false} OwnerCanMove(s: State, t: nat)
    requires OwnerHolds(s) && s.owner == Some(t)
    ensures CanMove(s, t)
  {
    MovesUnlessWaiting(s, t);
  }

  // ----- What one request comes to -----

  /** `s1` is reached from `s` by actions of thread `t` alone. */
  ghost predicate Alone(s: State, t: nat, run: seq<Action>, s1: State) {
    Reaches(s, run, s1) && forall i | 0 <= i < |run| :: run[i].t == t
  }

  lemma {:induction false} OneStep(s: State, a: Action)
    requires Enabled(s, a)
    ensures Alone(s, a.t, [a], Next(s, a))
  {
    assert [a][1..] == [];
  }

  lemma {:induction false} AloneOn(s: State, t: nat, a: seq<Action>, mid: State, b: seq<Action>, s1: State)
    requires Alone(s, t, a, mid) && Alone(mid, t, b, s1)
    ensures Alone(s, t, a + b, s1)
    decreases |a|
  {
    if a == [] {
      assert a + b == b;
    } else {
      assert (a + b)[1..] == a[1..] + b;
      AloneOn(Next(s, a[0]), t, a[1..], mid, b, s1);
    }
  }

  /** The state in which thread `t` is at `stage` of its only request. */
  function At(s: State, t: nat, pod: string, stage: Stage): State {
    s.(stacks := s.stacks[t := [Frame(pod, stage)]])
  }

  /** The thread's request was answered. */
  function Done(s: State, t: nat, pod: string, i: nat): State {
    s.(stacks := s.stacks[t := []], returned := s.returned + [Delivery(t, pod, i)])
  }

  function Published(s: State, pod: string): State {
    s.(supply := s.supply + 1, cache := s.cache[pod := s.supply], published := s.published + [(pod, s.supply)])
  }

  lemma {:induction false} Restaged(s: State, t: nat, pod: string, from: Stage, to: Stage)
    ensures var s1 := At(s, t, pod, from);
            && Stack(s1, t) == [Frame(pod, from)] && AtStage(Stack(s1, t), to) == [Frame(pod, to)]
            && WithStack(s1, t, AtStage(Stack(s1, t), to)) == At(s, t, pod, to)
            && WithStack(s1, t, Stack(s1, t)[..0]) == s.(stacks := s.stacks[t := []])
  {
    TopOfOne(pod, from, to);
    UpdatedTwice(s.stacks, t, [Frame(pod, from)], [Frame(pod, to)]);
    UpdatedTwice(s.stacks, t, [Frame(pod, from)], []);
  }

  lemma {:induction false} TopOfOne(pod: string, from: Stage, to: Stage)
    ensures AtStage([Frame(pod, from)], to) == [Frame(pod, to)] && [Frame(pod, from)][..0] == []
  {
  }

  lemma {:induction false} UpdatedTwice(m: map<nat, seq<Frame>>, t: nat, a: seq<Frame>, b: seq<Frame>)
    ensures m[t := a][t := b] == m[t := b]
  {
  }

  lemma {:induction false} CallStep(s: State, t: nat, pod: string)
    requires Stack(s, t) == []
    ensures Alone(s, t, [Call(t, pod)], At(s, t, pod, Checking))
  {
    assert [] + [Frame(pod, Checking)] == [Frame(pod, Checking)];
    OneStep(s, Call(t, pod));
  }

  lemma {:induction false} CheckStep(s: State, t: nat, pod: string)
    ensures Alone(At(s, t, pod, Checking), t, [Check(t)],
        At(s, t, pod, if pod in s.cache then Returning(s.cache[pod]) else Waiting))
  {
    Restaged(s, t, pod, Checking, if pod in s.cache then Returning(s.cache[pod]) else Waiting);
    OneStep(At(s, t, pod, Checking), Check(t));
  }

  lemma {:induction false} AcquireStep(s: State, t: nat, pod: string)
    requires s.owner == None
    ensures Alone(At(s, t, pod, Waiting), t, [Acquire(t)], At(s.(owner := Some(t)), t, pod, Rechecking))
  {
    Restaged(s, t, pod, Waiting, Rechecking);
    OneStep(At(s, t, pod, Waiting), Acquire(t));
  }

  lemma {:induction false} RecheckStep(s: State, t: nat, pod: string)
    requires pod !in s.cache
    ensures Alone(At(s, t, pod, Rechecking), t, [Recheck(t)], At(s, t, pod, Building))
  {
    Restaged(s, t, pod, Rechecking, Building);
    OneStep(At(s, t, pod, Rechecking), Recheck(t));
  }

  lemma {:induction false} ConstructStep(s: State, t: nat, pod: string)
    ensures Alone(At(s, t, pod, Building), t, [Construct(t)],
        At(s.(supply := s.supply + 1), t, pod, Publishing(s.supply)))
  {
    Restaged(s, t, pod, Building, Publishing(s.supply));
    OneStep(At(s, t, pod, Building), Construct(t));
  }

  lemma {:induction false} PublishStep(s: State, t: nat, pod: string, i: nat)
    ensures Alone(At(s, t, pod, Publishing(i)), t, [Publish(t)],
        At(s.(cache := s.cache[pod := i], published := s.published + [(pod, i)]), t, pod, Releasing(i)))
  {
    Restaged(s, t, pod, Publishing(i), Releasing(i));
    OneStep(At(s, t, pod, Publishing(i)), Publish(t));
  }

  lemma {:induction false} ReleaseStep(s: State, t: nat, pod: string, i: nat)
    ensures Alone(At(s, t, pod, Releasing(i)), t, [Release(t)], At(s.(owner := None), t, pod, Returning(i)))
  {
    Restaged(s, t, pod, Releasing(i), Returning(i));
    assert !HoldsLock([Frame(pod, Returning(i))]);
    OneStep(At(s, t, pod, Releasing(i)), Release(t));
  }

  lemma {:induction false} ReturnStep(s: State, t: nat, pod: string, i: nat)
    ensures Alone(At(s, t, pod, Returning(i)), t, [Return(t)], Done(s, t, pod, i))
  {
    Restaged(s, t, pod, Returning(i), Checking);
    OneStep(At(s, t, pod, Returning(i)), Return(t));
  }

  /** A request for a pod that is cached is answered from the cache, whoever holds
      the lock: nothing but the thread's own stack and the answer changes. */
  lemma {:induction false} CachedPodNeedsNoLock(s: State, t: nat, pod: string) returns (run: seq<Action>)
    requires Stack(s, t) == [] && pod in s.cache
    ensures Alone(s, t, run, Done(s, t, pod, s.cache[pod])) && |run| == 3
  {
    var i := s.cache[pod];
    CallStep(s, t, pod);
    CheckStep(s, t, pod);
    ReturnStep(s, t, pod, i);
    AloneOn(s, t, [Call(t, pod)], At(s, t, pod, Checking), [Check(t)], At(s, t, pod, Returning(i)));
    run := [Call(t, pod)] + [Check(t)];
    AloneOn(s, t, run, At(s, t, pod, Returning(i)), [Return(t)], Done(s, t, pod, i));
    run := run + [Return(t)];
  }

  /** With the lock free, a request for a pod that is not cached begins to build. */
  lemma {:induction false} UncachedPodTakesLock(s: State, t: nat, pod: string) returns (run: seq<Action>)
    requires Stack(s, t) == [] && pod !in s.cache && s.owner == None
    ensures Alone(s, t, run, At(s.(owner := Some(t)), t, pod, Building))
  {
    var held := s.(owner := Some(t));
    CallStep(s, t, pod);
    CheckStep(s, t, pod);
    AcquireStep(s, t, pod);
    RecheckStep(held, t, pod);
    AloneOn(s, t, [Call(t, pod)], At(s, t, pod, Checking), [Check(t)], At(s, t, pod, Waiting));
    run := [Call(t, pod)] + [Check(t)];
    AloneOn(s, t, run, At(s, t, pod, Waiting), [Acquire(t)], At(held, t, pod, Rechecking));
    run := run + [Acquire(t)];
    AloneOn(s, t, run, At(held, t, pod, Rechecking), [Recheck(t)], At(held, t, pod, Building));
    run := run + [Recheck(t)];
  }

  /** A pod that is being built is made once and published. */
  lemma {:induction false} BuiltPodIsPublished(s: State, t: nat, pod: string) returns (run: seq<Action>)
    ensures Alone(At(s, t, pod, Building), t, run, At(Published(s, pod), t, pod, Releasing(s.supply)))
  {
    var made := s.(supply := s.supply + 1);
    ConstructStep(s, t, pod);
    PublishStep(made, t, pod, s.supply);
    var known := made.(cache := made.cache[pod := s.supply], published := made.published + [(pod, s.supply)]);
    assert known == Published(s, pod);
    AloneOn(At(s, t, pod, Building), t, [Construct(t)], At(made, t, pod, Publishing(s.supply)),
            [Publish(t)], At(known, t, pod, Releasing(s.supply)));
    run := [Construct(t)] + [Publish(t)];
  }

  /** A request that is done with the lock gives it back and is answered. */
  lemma {:induction false} PublishedPodIsAnswered(s: State, t: nat, pod: string, i: nat) returns (run: seq<Action>)
    ensures Alone(At(s, t, pod, Releasing(i)), t, run, Done(s.(owner := None), t, pod, i))
  {
    var free := s.(owner := None);
    ReleaseStep(s, t, pod, i);
    ReturnStep(free, t, pod, i);
    AloneOn(At(s, t, pod, Releasing(i)), t, [Release(t)], At(free, t, pod, Returning(i)),
            [Return(t)], Done(free, t, pod, i));
    run := [Release(t)] + [Return(t)];
  }

  /** With the lock free, a request for a pod that is not cached builds one new
      instance, publishes it, gives the lock back and answers with it, and
      changes nothing else. */
  lemma {:induction false} UncachedPodIsBuilt(s: State, t: nat, pod: string) returns (run: seq<Action>)
    requires Stack(s, t) == [] && pod !in s.cache && s.owner == None
    ensures Alone(s, t, run, Done(Published(s, pod), t, pod, s.supply))
  {
    var held := s.(owner := Some(t));
    var a := UncachedPodTakesLock(s, t, pod);
    var b := BuiltPodIsPublished(held, t, pod);
    var c := PublishedPodIsAnswered(Published(held, pod), t, pod, s.supply);
    assert Published(held, pod).(owner := None) == Published(s, pod);
    AloneOn(s, t, a, At(held, t, pod, Building), b, At(Published(held, pod), t, pod, Releasing(s.supply)));
    AloneOn(s, t, a + b, At(Published(held, pod), t, pod, Releasing(s.supply)), c,
            Done(Published(s, pod), t, pod, s.supply));
    run := a + b + c;
  }
}
