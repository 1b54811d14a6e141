/** Starting the application context, and undoing a start that failed
    (core/spakky/src/spakky/core/application/application_context.py). */
module Lifecycle {
  import opened Sequences

  /** Registered pods, type index, bindings and tags; start never edits them. */
  type Registrations(!new, ==)

  type Service(!new, ==)

  /** What one start-up phase does before it ends or raises: post-processors
      are appended, instantiated pods fill the caches and may add services. */
  datatype Phase = Phase(
    ok: bool,
    processors: seq<nat>,
    singletons: set<string>,
    context: set<string>,
    services: seq<Service>,
    asyncServices: seq<Service>)

  /** The k-th service start and the k-th service stop of a start attempt. */
  datatype Environment = Environment(
    registration: Phase,
    initialization: Phase,
    starts: nat -> bool,
    stops: nat -> bool)

  datatype Context = Context(
    registrations: Registrations,
    processors: seq<nat>,
    singletons: set<string>,
    context: set<string>,
    services: seq<Service>,
    asyncServices: seq<Service>,
    eventLoop: bool,
    started: bool)

  datatype Event = Started(s: Service) | StartedAsync(s: Service) | Stopped(s: Service) | StoppedAsync(s: Service)

  datatype Outcome = Running | AlreadyStarted | RolledBack | RollbackRaised

  function AfterPhase(c: Context, p: Phase): Context {
    c.(processors := c.processors + p.processors,
       singletons := c.singletons + p.singletons,
       context := c.context + p.context,
       services := c.services + p.services,
       asyncServices := c.asyncServices + p.asyncServices)
  }

  /** The services of a list that are reached and succeed, in order. */
  function Succeeding(list: seq<Service>, works: nat -> bool, base: nat): seq<Service>
    decreases |list|
  {
    if list == [] || !works(base) then [] else [list[0]] + Succeeding(list[1..], works, base + 1)
  }

  function Mapped(list: seq<Service>, event: Service -> Event): seq<Event> {
    if list == [] then [] else [event(list[0])] + Mapped(list[1..], event)
  }

  // ----- The specification -----

  datatype Attempt = Attempt(context: Context, trace: seq<Event>, outcome: Outcome)

  /** What a completed rollback leaves: everything the attempt added is gone. */
  function Cleared(before: Context, c: Context): Context
    requires |before.services| <= |c.services| && |before.asyncServices| <= |c.asyncServices|
  {
    Context(
      c.registrations, [], {}, {},
      c.services[..|before.services|], c.asyncServices[..|before.asyncServices|],
      false, false)
  }

  /** Undo after the services `a` and the async services `b` were started. */
  function Rollback(before: Context, c: Context, a: seq<Service>, b: seq<Service>, env: Environment): Attempt
    requires |before.services| <= |c.services| && |before.asyncServices| <= |c.asyncServices|
  {
    var stopped := Succeeding(Reversed(a), env.stops, 0);
    if stopped != Reversed(a) then Attempt(c, Mapped(stopped, s => Stopped(s)), RollbackRaised)
    else
      var stoppedAsync := Succeeding(Reversed(b), env.stops, |a|);
      var trace := Mapped(stopped, s => Stopped(s)) + Mapped(stoppedAsync, s => StoppedAsync(s));
      if stoppedAsync != Reversed(b) then Attempt(c, trace, RollbackRaised)
      else Attempt(Cleared(before, c), trace, RolledBack)
  }

  /** With the event loop running and the services `a` started. */
  function StartAsyncServices(before: Context, c: Context, a: seq<Service>, env: Environment): Attempt
    requires |before.services| <= |c.services| && |before.asyncServices| <= |c.asyncServices|
  {
    var b := Succeeding(c.asyncServices, env.starts, |a|);
    var trace := Mapped(b, s => StartedAsync(s));
    if b != c.asyncServices then
      var undo := Rollback(before, c, a, b, env);
      undo.(trace := trace + undo.trace)
    else Attempt(c, trace, Running)
  }

  function StartServices(before: Context, c: Context, env: Environment): Attempt
    requires |before.services| <= |c.services| && |before.asyncServices| <= |c.asyncServices|
  {
    if c.eventLoop then Rollback(before, c, [], [], env)
    else
      var c1 := c.(eventLoop := true);
      var a := Succeeding(c.services, env.starts, 0);
      var next := if a != c.services then Rollback(before, c1, a, [], env) else StartAsyncServices(before, c1, a, env);
      next.(trace := Mapped(a, s => Started(s)) + next.trace)
  }

  function Start(c: Context, env: Environment): Attempt {
    if c.started then Attempt(c, [], AlreadyStarted)
    else
      var c1 := AfterPhase(c.(started := true), env.registration);
      if !env.registration.ok then Rollback(c, c1, [], [], env)
      else
        var c2 := AfterPhase(c1, env.initialization);
        if !env.initialization.ok then Rollback(c, c2, [], [], env)
        else StartServices(c, c2, env)
  }

  // ----- What a failed start leaves behind -----

  /** A context that is not running: it has no event loop. */
  predicate Idle(c: Context) {
    !c.started && !c.eventLoop
  }

  /** The context a failed start must return to. */
  function Emptied(c: Context): Context {
    c.(processors := [], singletons := {}, context := {})
  }

  /** The event trace of a rolled-back start: the services of `a`, then those
      of `b`, were started, and exactly those were stopped, each group in
      reverse start order, sync before async. */
  ghost predicate Mirrored(trace: seq<Event>, a: seq<Service>, b: seq<Service>) {
    trace == Mapped(a, s => Started(s)) + Mapped(b, s => StartedAsync(s))
           + (Mapped(Reversed(a), s => Stopped(s)) + Mapped(Reversed(b), s => StoppedAsync(s)))
  }

  /** Services that start, as far as the attempt got. */
  ghost function ReachedSync(c: Context, env: Environment): seq<Service> {
    if !env.registration.ok || !env.initialization.ok then []
    else Succeeding(c.services + env.registration.services + env.initialization.services, env.starts, 0)
  }

  ghost function ReachedAsync(c: Context, env: Environment): seq<Service> {
    var all := c.services + env.registration.services + env.initialization.services;
    if !env.registration.ok || !env.initialization.ok || ReachedSync(c, env) != all then []
    else
      var allAsync := c.asyncServices + env.registration.asyncServices + env.initialization.asyncServices;
      Succeeding(allAsync, env.starts, |all|)
  }

  lemma {:induction false} RollbackRestores(
      before: Context, c: Context, a: seq<Service>, b: seq<Service>, env: Environment)
    requires before.services <= c.services && before.asyncServices <= c.asyncServices
    requires c.registrations == before.registrations && Idle(before)
    ensures var undo := Rollback(before, c, a, b, env);
            undo.outcome.RolledBack? ==>
              && undo.context == Emptied(before)
              && undo.trace == Mapped(Reversed(a), s => Stopped(s)) + Mapped(Reversed(b), s => StoppedAsync(s))
  {
    assert c.services[..|before.services|] == before.services;
    assert c.asyncServices[..|before.asyncServices|] == before.asyncServices;
  }

  lemma {:induction false} FailedServicesRollBack(before: Context, c: Context, env: Environment)
    requires before.services <= c.services && before.asyncServices <= c.asyncServices
    requires c.registrations == before.registrations && Idle(before) && !c.eventLoop
    ensures var attempt := StartServices(before, c, env);
            var a := Succeeding(c.services, env.starts, 0);
            var b := if a == c.services then Succeeding(c.asyncServices, env.starts, |a|) else [];
            attempt.outcome.RolledBack? ==> attempt.context == Emptied(before) && Mirrored(attempt.trace, a, b)
  {
    var c1 := c.(eventLoop := true);
    var a := Succeeding(c.services, env.starts, 0);
    if a != c.services {
      RollbackRestores(before, c1, a, [], env);
    } else {
      var b := Succeeding(c.asyncServices, env.starts, |a|);
      RollbackRestores(before, c1, a, b, env);
      Regrouped(Mapped(a, s => Started(s)), Mapped(b, s => StartedAsync(s)), Rollback(before, c1, a, b, env).trace);
    }
  }

  /** Whichever phase or service fails: a start that was rolled back stopped
      exactly the services it had started, in reverse order, and left the
      context as it found it but for emptied caches and post-processors. */
  lemma {:induction false} FailedStartRollsBack(c: Context, env: Environment)
    requires Idle(c)
    ensures var attempt := Start(c, env);
            attempt.outcome.RolledBack? ==>
              && attempt.context == Emptied(c)
              && Mirrored(attempt.trace, ReachedSync(c, env), ReachedAsync(c, env))
  {
    var c1 := AfterPhase(c.(started := true), env.registration);
    var c2 := AfterPhase(c1, env.initialization);
    RollbackRestores(c, c1, [], [], env);
    RollbackRestores(c, c2, [], [], env);
    FailedServicesRollBack(c, c2, env);
  }

  ghost predicate AllWork(works: nat -> bool, first: nat, last: nat) {
    forall k: nat | first <= k < last :: works(k)
  }

  lemma {:induction false} AllSucceedIff(list: seq<Service>, works: nat -> bool, base: nat)
    ensures Succeeding(list, works, base) == list <==> AllWork(works, base, base + |list|)
    decreases |list|
  {
    if list != [] {
      AllSucceedIff(list[1..], works, base + 1);
      var rest := Succeeding(list[1..], works, base + 1);
      if works(base) {
        assert list == [list[0]] + list[1..];
        assert ([list[0]] + rest)[1..] == rest;
      }
    }
  }

  lemma {:induction false} RollbackOutcome(
      before: Context, c: Context, a: seq<Service>, b: seq<Service>, env: Environment)
    requires |before.services| <= |c.services| && |before.asyncServices| <= |c.asyncServices|
    ensures var outcome := Rollback(before, c, a, b, env).outcome;
            && (outcome.RolledBack? || outcome.RollbackRaised?)
            && (outcome.RolledBack? <==> AllWork(env.stops, 0, |a| + |b|))
  {
    ReversedKeeps(a);
    ReversedKeeps(b);
    AllSucceedIff(Reversed(a), env.stops, 0);
    AllSucceedIff(Reversed(b), env.stops, |a|);
    assert AllWork(env.stops, 0, |a| + |b|) <==> AllWork(env.stops, 0, |a|) && AllWork(env.stops, |a|, |a| + |b|);
  }

  /** A start that did not succeed rolls back completely if and only if none of
      the stops it has to make raises. */
  lemma {:induction false} RollbackCompletesIff(c: Context, env: Environment)
    requires Idle(c) && !Start(c, env).outcome.Running?
    ensures Start(c, env).outcome.RolledBack?
       <==> AllWork(env.stops, 0, |ReachedSync(c, env)| + |ReachedAsync(c, env)|)
  {
    var c1 := AfterPhase(c.(started := true), env.registration);
    var c2 := AfterPhase(c1, env.initialization);
    RollbackOutcome(c, c1, [], [], env);
    RollbackOutcome(c, c2, [], [], env);
    var c3 := c2.(eventLoop := true);
    var a := Succeeding(c2.services, env.starts, 0);
    RollbackOutcome(c, c3, a, [], env);
    RollbackOutcome(c, c3, a, Succeeding(c2.asyncServices, env.starts, |a|), env);
  }

  // ----- Exactly when a start succeeds, and with what -----

  /** Every service, in start order: those the context had, then those the
      registration phase added, then those the initialization phase added. */
  function AllSync(c: Context, env: Environment): seq<Service> {
    c.services + env.registration.services + env.initialization.services
  }

  function AllAsync(c: Context, env: Environment): seq<Service> {
    c.asyncServices + env.registration.asyncServices + env.initialization.asyncServices
  }

  /** The trace of starting `all` and then `allAsync`, event by event. */
  ghost predicate StartsAll(trace: seq<Event>, all: seq<Service>, allAsync: seq<Service>) {
    && |trace| == |all| + |allAsync|
    && (forall i | 0 <= i < |all| :: trace[i] == Started(all[i]))
    && (forall j | 0 <= j < |allAsync| :: trace[|all| + j] == StartedAsync(allAsync[j]))
  }

  /** The running context: nothing is lost that it had or that a phase added. */
  ghost predicate Extended(c: Context, env: Environment, c1: Context) {
    var (p, q) := (env.registration, env.initialization);
    && c1.started && c1.eventLoop && c1.registrations == c.registrations
    && c1.services == AllSync(c, env) && c1.asyncServices == AllAsync(c, env)
    && c1.processors == c.processors + p.processors + q.processors
    && c1.singletons == c.singletons + p.singletons + q.singletons
    && c1.context == c.context + p.context + q.context
  }

  /** Element by element, what `Mapped` is. */
  lemma {:induction false} MappedEach(list: seq<Service>, event: Service -> Event)
    ensures |Mapped(list, event)| == |list|
    ensures forall i | 0 <= i < |list| :: Mapped(list, event)[i] == event(list[i])
    decreases |list|
  {
    if list != [] {
      MappedEach(list[1..], event);
      forall i | 0 <= i < |list|
        ensures Mapped(list, event)[i] == event(list[i])
      {
        if i > 0 {
          assert Mapped(list, event)[i] == Mapped(list[1..], event)[i - 1];
        }
      }
    }
  }

  /** The services reached are those up to the first whose start raises. */
  lemma {:induction false} SucceedingStopsAtFirstRaise(list: seq<Service>, works: nat -> bool, base: nat)
    returns (k: nat)
    ensures k <= |list| && Succeeding(list, works, base) == list[..k]
    ensures AllWork(works, base, base + k) && (k < |list| ==> !works(base + k))
    decreases |list|
  {
    if list == [] || !works(base) {
      k := 0;
    } else {
      var j := SucceedingStopsAtFirstRaise(list[1..], works, base + 1);
      k := j + 1;
      assert [list[0]] + list[1..][..j] == list[..k];
    }
  }

  lemma {:induction false} ServicesRunIff(before: Context, c: Context, env: Environment)
    requires |before.services| <= |c.services| && |before.asyncServices| <= |c.asyncServices|
    ensures var attempt := StartServices(before, c, env);
            && (attempt.outcome.Running?
                <==> !c.eventLoop && AllWork(env.starts, 0, |c.services| + |c.asyncServices|))
            && (attempt.outcome.Running? ==>
                  attempt.context == c.(eventLoop := true) && StartsAll(attempt.trace, c.services, c.asyncServices))
            && !attempt.outcome.AlreadyStarted?
  {
    AllSucceedIff(c.services, env.starts, 0);
    AllSucceedIff(c.asyncServices, env.starts, |c.services|);
    AllWorkSplit(env.starts, |c.services|, |c.asyncServices|);
    StartedInOrder(c.services, c.asyncServices);
  }

  lemma {:induction false} AllWorkSplit(works: nat -> bool, n: nat, m: nat)
    ensures AllWork(works, 0, n + m) <==> AllWork(works, 0, n) && AllWork(works, n, n + m)
  {
  }

  lemma {:induction false} StartedInOrder(all: seq<Service>, allAsync: seq<Service>)
    ensures StartsAll(Mapped(all, s => Started(s)) + Mapped(allAsync, s => StartedAsync(s)), all, allAsync)
    ensures Mapped(all, s => Started(s)) + (Mapped(allAsync, s => StartedAsync(s)))
         == Mapped(all, s => Started(s)) + Mapped(allAsync, s => StartedAsync(s))
  {
    MappedEach(all, s => Started(s));
    MappedEach(allAsync, s => StartedAsync(s));
  }

  /** A start succeeds if and only if the context was idle, both phases were ok
      and the start of every service, sync then async, returns.  It then started
      exactly those, in that order, and the context holds all it had and all
      that both phases added. */
  lemma {:induction false} StartRunsIff(c: Context, env: Environment)
    ensures var attempt := Start(c, env);
            && (attempt.outcome.Running?
                <==> && Idle(c) && env.registration.ok && env.initialization.ok
                     && AllWork(env.starts, 0, |AllSync(c, env)| + |AllAsync(c, env)|))
            && (attempt.outcome.Running? ==>
                  StartsAll(attempt.trace, AllSync(c, env), AllAsync(c, env)) && Extended(c, env, attempt.context))
  {
    var c2 := AfterPhase(AfterPhase(c.(started := true), env.registration), env.initialization);
    ServicesRunIff(c, c2, env);
  }

  /** A second start is refused, exactly when the context is marked as started,
      and does nothing. */
  lemma {:induction false} SecondStartIsRefused(c: Context, env: Environment)
    ensures Start(c, env).outcome.AlreadyStarted? <==> c.started
    ensures c.started ==> Start(c, env).context == c && Start(c, env).trace == []
  {
    var c2 := AfterPhase(AfterPhase(c.(started := true), env.registration), env.initialization);
    ServicesRunIff(c, c2, env);
  }

  ghost predicate Flawless(env: Environment) {
    env.registration.ok && env.initialization.ok && forall k :: env.starts(k)
  }

  /** After a rolled-back start the context can be started again, and then
      every service runs. */
  lemma {:induction false} CanStartAgain(c: Context, failing: Environment, env: Environment)
    requires Idle(c) && Start(c, failing).outcome.RolledBack? && Flawless(env)
    ensures var again := Start(Start(c, failing).context, env);
            && again.outcome.Running? && Extended(Emptied(c), env, again.context)
            && StartsAll(again.trace, AllSync(c, env), AllAsync(c, env))
  {
    FailedStartRollsBack(c, failing);
    StartRunsIff(Emptied(c), env);
  }

  /** A stop that raises during rollback leaves the context marked as started:
      starting again is refused. */
  lemma {:induction false} RaisingRollbackBlocksRestart(c: Context, env: Environment, again: Environment)
    requires Idle(c) && Start(c, env).outcome.RollbackRaised?
    ensures Start(Start(c, env).context, again).outcome.AlreadyStarted?
  {
    var c1 := AfterPhase(c.(started := true), env.registration);
    var c2 := AfterPhase(c1, env.initialization);
    RaisedRollbackKeeps(c, c1, [], [], env);
    RaisedRollbackKeeps(c, c2, [], [], env);
    var c3 := c2.(eventLoop := true);
    var a := Succeeding(c2.services, env.starts, 0);
    RaisedRollbackKeeps(c, c3, a, [], env);
    RaisedRollbackKeeps(c, c3, a, Succeeding(c2.asyncServices, env.starts, |a|), env);
  }

  lemma {:induction false} RaisedRollbackKeeps(
      before: Context, c: Context, a: seq<Service>, b: seq<Service>, env: Environment)
    requires |before.services| <= |c.services| && |before.asyncServices| <= |c.asyncServices|
    ensures Rollback(before, c, a, b, env).outcome.RollbackRaised? ==> Rollback(before, c, a, b, env).context == c
  {
  }

  /** The stops that a rollback makes, all going well. */
  function Stops(a: seq<Service>, b: seq<Service>): seq<Event> {
    Mapped(Reversed(a), s => Stopped(s)) + Mapped(Reversed(b), s => StoppedAsync(s))
  }

  lemma {:induction false} MappedPrefix(list: seq<Service>, k: nat, event: Service -> Event)
    requires k <= |list|
    ensures |Mapped(list, event)| == |list| && Mapped(list[..k], event) == Mapped(list, event)[..k]
  {
    MappedEach(list, event);
    MappedEach(list[..k], event);
  }

  lemma {:induction false} DrivenUpTo(
      list: seq<Service>, works: nat -> bool, base: nat, event: Service -> Event) returns (k: nat)
    ensures k <= |list| == |Mapped(list, event)|
    ensures Mapped(Succeeding(list, works, base), event) == Mapped(list, event)[..k]
    ensures Succeeding(list, works, base) == list <==> k == |list|
    ensures AllWork(works, base, base + k) && (k < |list| ==> !works(base + k))
  {
    k := SucceedingStopsAtFirstRaise(list, works, base);
    MappedPrefix(list, k, event);
    assert list[..|list|] == list;
  }

  /** A rollback that raises made the stops up to the one that raised. */
  lemma {:induction false} RaisedRollbackStops(
      before: Context, c: Context, a: seq<Service>, b: seq<Service>, env: Environment) returns (k: nat)
    requires |before.services| <= |c.services| && |before.asyncServices| <= |c.asyncServices|
    requires Rollback(before, c, a, b, env).outcome.RollbackRaised?
    ensures k < |Stops(a, b)| && Rollback(before, c, a, b, env).trace == Stops(a, b)[..k]
    ensures AllWork(env.stops, 0, k) && !env.stops(k)
  {
    ReversedKeeps(a);
    ReversedKeeps(b);
    var i := DrivenUpTo(Reversed(a), env.stops, 0, s => Stopped(s));
    var j := DrivenUpTo(Reversed(b), env.stops, |a|, s => StoppedAsync(s));
    var (x, y) := (Mapped(Reversed(a), s => Stopped(s)), Mapped(Reversed(b), s => StoppedAsync(s)));
    if i < |a| {
      k := i;
      PrefixOfFirst(x, y, i);
    } else {
      k := i + j;
      PrefixOfBoth(x, y, j);
      AllWorkSplit(env.stops, i, j);
    }
  }

  lemma {:induction false} PrefixOfFirst(x: seq<Event>, y: seq<Event>, i: nat)
    requires i <= |x|
    ensures (x + y)[..i] == x[..i]
  {
  }

  lemma {:induction false} PrefixOfBoth(x: seq<Event>, y: seq<Event>, j: nat)
    requires j <= |y|
    ensures (x + y)[..|x| + j] == x + y[..j]
  {
  }

  /** A context that a failed start left as far as it had come: everything it
      had and everything the phases that ran had added. */
  ghost predicate LeftAsReached(c: Context, env: Environment, c1: Context) {
    var (p, q) := (env.registration, env.initialization);
    && c1.started && c1.registrations == c.registrations && c1.eventLoop == (p.ok && q.ok)
    && c1.services == c.services + p.services + (if p.ok then q.services else [])
    && c1.asyncServices == c.asyncServices + p.asyncServices + (if p.ok then q.asyncServices else [])
    && c1.processors == c.processors + p.processors + (if p.ok then q.processors else [])
    && c1.singletons == c.singletons + p.singletons + (if p.ok then q.singletons else {})
    && c1.context == c.context + p.context + (if p.ok then q.context else {})
  }

  lemma {:induction false} RaisedServices(before: Context, c: Context, env: Environment) returns (k: nat)
    requires |before.services| <= |c.services| && |before.asyncServices| <= |c.asyncServices| && !c.eventLoop
    requires StartServices(before, c, env).outcome.RollbackRaised?
    ensures var a := Succeeding(c.services, env.starts, 0);
            var b := if a == c.services then Succeeding(c.asyncServices, env.starts, |a|) else [];
            && k < |Stops(a, b)| && AllWork(env.stops, 0, k) && !env.stops(k)
            && StartServices(before, c, env).context == c.(eventLoop := true)
            && StartServices(before, c, env).trace
               == Mapped(a, s => Started(s)) + Mapped(b, s => StartedAsync(s)) + Stops(a, b)[..k]
  {
    var c1 := c.(eventLoop := true);
    var a := Succeeding(c.services, env.starts, 0);
    var b := if a == c.services then Succeeding(c.asyncServices, env.starts, |a|) else [];
    k := RaisedRollbackStops(before, c1, a, b, env);
    RaisedRollbackKeeps(before, c1, a, b, env);
    Regrouped(Mapped(a, s => Started(s)), Mapped(b, s => StartedAsync(s)), Stops(a, b)[..k]);
  }

  /** A rollback in which a stop raises leaves the context as far as the start
      had come, with the started services stopped, in the usual order, up to
      the one that raised. */
  lemma {:induction false} RaisedRollbackLeaves(c: Context, env: Environment) returns (k: nat)
    requires Idle(c) && Start(c, env).outcome.RollbackRaised?
    ensures var (a, b) := (ReachedSync(c, env), ReachedAsync(c, env));
            && k < |Stops(a, b)| && AllWork(env.stops, 0, k) && !env.stops(k)
            && Start(c, env).trace == Mapped(a, s => Started(s)) + Mapped(b, s => StartedAsync(s)) + Stops(a, b)[..k]
    ensures LeftAsReached(c, env, Start(c, env).context)
  {
    var c1 := AfterPhase(c.(started := true), env.registration);
    var c2 := AfterPhase(c1, env.initialization);
    RollbackOutcome(c, c1, [], [], env);
    RollbackOutcome(c, c2, [], [], env);
    k := RaisedServices(c, c2, env);
  }

  // ----- The context object -----

  class ApplicationContext {
    const registrations: Registrations
    var processors: seq<nat>
    var singletons: set<string>
    var context: set<string>
    var services: seq<Service>
    var asyncServices: seq<Service>
    var eventLoop: bool
    var isStarted: bool
    ghost var trace: seq<Event>

    ghost function Now(): Context
      reads this
    {
      Context(registrations, processors, singletons, context, services, asyncServices, eventLoop, isStarted)
    }

    constructor (registrations: Registrations)
      ensures Now() == Context(registrations, [], {}, {}, [], [], false, false) && trace == []
    {
      this.registrations := registrations;
      processors, singletons, context, services, asyncServices := [], {}, {}, [], [];
      eventLoop, isStarted, trace := false, false, [];
    }

    method RunPhase(p: Phase)
      modifies this`processors, this`singletons, this`context, this`services, this`asyncServices
      ensures Now() == AfterPhase(old(Now()), p)
    {
      processors := processors + p.processors;
      singletons := singletons + p.singletons;
      context := context + p.context;
      services := services + p.services;
      asyncServices := asyncServices + p.asyncServices;
    }

    /** Start or stop the services of a list until one raises. */
    method Drive(
        list: seq<Service>, works: nat -> bool, base: nat, event: Service -> Event) returns (done: seq<Service>)
      modifies this`trace
      ensures done == Succeeding(list, works, base)
      ensures trace == old(trace) + Mapped(done, event)
    {
      done := [];
      var i := 0;
      while i < |list| && works(base + i)
        invariant 0 <= i <= |list|
        invariant done == list[..i]
        invariant done + Succeeding(list[i..], works, base + i) == Succeeding(list, works, base)
        invariant trace == old(trace) + Mapped(done, event)
      {
        MappedAppends(done, list[i], event);
        SucceedingNext(done, list, works, base, i);
        done := done + [list[i]];
        trace := trace + [event(list[i])];
        i := i + 1;
      }
    }

    method RollbackFailedStart(
      serviceCount: nat, asyncServiceCount: nat, a: seq<Service>, b: seq<Service>,
      env: Environment, ghost before: Context)
      returns (outcome: Outcome)
      requires serviceCount == |before.services| <= |services|
      requires asyncServiceCount == |before.asyncServices| <= |asyncServices|
      requires b != [] ==> eventLoop
      modifies this
      ensures var undo := Rollback(before, old(Now()), a, b, env);
              Now() == undo.context && outcome == undo.outcome && trace == old(trace) + undo.trace
    {
      var stopped := Drive(Reversed(a), env.stops, 0, s => Stopped(s));
      if stopped != Reversed(a) {
        return RollbackRaised;
      }
      ghost var mid := trace;
      if eventLoop && b != [] {
        var stoppedAsync := Drive(Reversed(b), env.stops, |a|, s => StoppedAsync(s));
        Regrouped(old(trace), Mapped(stopped, s => Stopped(s)), Mapped(stoppedAsync, s => StoppedAsync(s)));
        if stoppedAsync != Reversed(b) {
          return RollbackRaised;
        }
      }
      eventLoop := false;
      singletons, context, processors := {}, {}, [];
      services := services[..serviceCount];
      asyncServices := asyncServices[..asyncServiceCount];
      isStarted := false;
      outcome := RolledBack;
    }

    method RunServices(serviceCount: nat, asyncServiceCount: nat, env: Environment, ghost before: Context)
      returns (outcome: Outcome)
      requires serviceCount == |before.services| <= |services|
      requires asyncServiceCount == |before.asyncServices| <= |asyncServices|
      modifies this
      ensures var attempt := StartServices(before, old(Now()), env);
              Now() == attempt.context && outcome == attempt.outcome && trace == old(trace) + attempt.trace
    {
      if eventLoop {
        outcome := RollbackFailedStart(serviceCount, asyncServiceCount, [], [], env, before);
        return;
      }
      eventLoop := true;
      var a := Drive(services, env.starts, 0, s => Started(s));
      ghost var begun := Mapped(a, s => Started(s));
      if a != services {
        ghost var undo := Rollback(before, Now(), a, [], env);
        outcome := RollbackFailedStart(serviceCount, asyncServiceCount, a, [], env, before);
        Regrouped(old(trace), begun, undo.trace);
        return;
      }
      ghost var attempt := StartAsyncServices(before, Now(), a, env);
      outcome := RunAsyncServices(serviceCount, asyncServiceCount, a, env, before);
      Regrouped(old(trace), begun, attempt.trace);
    }

    method RunAsyncServices(
      serviceCount: nat, asyncServiceCount: nat, a: seq<Service>, env: Environment, ghost before: Context)
      returns (outcome: Outcome)
      requires serviceCount == |before.services| <= |services|
      requires asyncServiceCount == |before.asyncServices| <= |asyncServices|
      requires eventLoop
      modifies this
      ensures var attempt := StartAsyncServices(before, old(Now()), a, env);
              Now() == attempt.context && outcome == attempt.outcome && trace == old(trace) + attempt.trace
    {
      var b := Drive(asyncServices, env.starts, |a|, s => StartedAsync(s));
      if b != asyncServices {
        ghost var undo := Rollback(before, Now(), a, b, env);
        outcome := RollbackFailedStart(serviceCount, asyncServiceCount, a, b, env, before);
        Regrouped(old(trace), Mapped(b, s => StartedAsync(s)), undo.trace);
        return;
      }
      outcome := Running;
    }

    method StartContext(env: Environment) returns (outcome: Outcome)
      modifies this
      ensures var attempt := Start(old(Now()), env);
              Now() == attempt.context && outcome == attempt.outcome && trace == old(trace) + attempt.trace
    {
      if isStarted {
        return AlreadyStarted;
      }
      ghost var before := Now();
      var serviceCount, asyncServiceCount := |services|, |asyncServices|;
      isStarted := true;
      RunPhase(env.registration);
      if !env.registration.ok {
        outcome := RollbackFailedStart(serviceCount, asyncServiceCount, [], [], env, before);
        return;
      }
      RunPhase(env.initialization);
      if !env.initialization.ok {
        outcome := RollbackFailedStart(serviceCount, asyncServiceCount, [], [], env, before);
        return;
      }
      outcome := RunServices(serviceCount, asyncServiceCount, env, before);
    }
  }

  lemma {:induction false} Regrouped(a: seq<Event>, b: seq<Event>, c: seq<Event>)
    ensures a + b + c == a + (b + c)
  {
  }

  lemma {:induction false} SucceedingNext(done: seq<Service>, list: seq<Service>, works: nat -> bool, base: nat, i: nat)
    requires i < |list| && works(base + i)
    ensures done + Succeeding(list[i..], works, base + i)
        == done + [list[i]] + Succeeding(list[i + 1..], works, base + (i + 1))
  {
    assert list[i..][0] == list[i] && list[i..][1..] == list[i + 1..];
    var rest := Succeeding(list[i + 1..], works, base + (i + 1));
    assert done + ([list[i]] + rest) == done + [list[i]] + rest;
  }

  lemma {:induction false} MappedAppends(list: seq<Service>, s: Service, event: Service -> Event)
    ensures Mapped(list + [s], event) == Mapped(list, event) + [event(s)]
    decreases |list|
  {
    if list == [] {
      assert list + [s] == [s] && [s][1..] == [];
    } else {
      assert (list + [s])[1..] == list[1..] + [s];
      MappedAppends(list[1..], s, event);
    }
  }
}
