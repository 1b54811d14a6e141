/** What the caller of a transactional method gets, from the answers of the
    body, the publisher and the transaction. */
module CallResults {
  import opened Wrappers
  import opened Advice
  import opened Transactions

  // ----- The last failure wins -----

  /** The failure of a publication or of a step of the transaction. */
  function FailureOf(e: Event): Option<Failure> {
    if (e.Initialized? || e.Published? || e.Committed? || e.RolledBack? || e.Disposed?) && e.signal.Raises?
    then Some(e.signal.failure)
    else None
  }

  function LastFailure(trace: seq<Event>): Option<Failure> {
    if trace == [] then None
    else
      var last := FailureOf(trace[|trace| - 1]);
      if last.Some? then last else LastFailure(trace[..|trace| - 1])
  }

  lemma {:induction false} EmitFails(s: State, e: Event)
    ensures LastFailure(Emit(s, e).trace) == if FailureOf(e).Some? then FailureOf(e) else LastFailure(s.trace)
  {
    assert Emit(s, e).trace[..|s.trace|] == s.trace;
  }

  /** `r` is the outcome of a part of a run that began in `s` and ended in `s1`
      and that was given `result` to pass on. */
  predicate Passes(s: State, s1: State, result: Result, r: Result) {
    || (r == result && LastFailure(s1.trace) == LastFailure(s.trace))
    || (r.Raised? && LastFailure(s1.trace) == Some(r.failure))
  }

  lemma {:induction false} PassesOn(s: State, s1: State, s2: State, result: Result, r: Result, r2: Result)
    requires Passes(s, s1, result, r) && Passes(s1, s2, r, r2)
    ensures Passes(s, s2, result, r2)
  {
  }

  lemma {:induction false} DisposePasses(env: Environment, s: State, result: Result)
    ensures var (s1, r) := Dispose(env, s, result); Passes(s, s1, result, r)
  {
    EmitFails(s, Disposed(env.hook(|s.trace|)));
  }

  /** Leaving a transaction passes the body's result on unless a step of it
      fails, and then raises the failure of the last step that did. */
  lemma {:induction false} LeavingPasses(env: Environment, s: State, autocommit: bool, result: Result)
    ensures var (s1, r) := ExitTransaction(env, s, autocommit, result); Passes(s, s1, result, r)
  {
    if result.Raised? {
      var e := RolledBack(env.hook(|s.trace|));
      EmitFails(s, e);
      DisposePasses(env, Emit(s, e), result);
    } else if autocommit {
      CompletePasses(env, s, result);
    } else {
      DisposePasses(env, s, result);
    }
  }

  lemma {:induction false} CompletePasses(env: Environment, s: State, result: Result)
    ensures var (s1, r) := Complete(env, s, result); Passes(s, s1, result, r)
  {
    var e := Committed(env.hook(|s.trace|));
    var s1 := Emit(s, e);
    EmitFails(s, e);
    if e.signal.Returns? {
      DisposePasses(env, s1, result);
    } else {
      var undo := RolledBack(env.hook(|s1.trace|));
      var failed := Raised(if undo.signal.Raises? then undo.signal.failure else e.signal.failure);
      EmitFails(s1, undo);
      DisposePasses(env, Emit(s1, undo), failed);
    }
  }

  // ----- Where publication ends -----

  /** The `n` publications from `at` on end with the answer of the first that
      raises, which is the last event. */
  predicate EndsAt(env: Environment, s: State, s1: State, n: nat, signal: Signal) {
    var k := Answered(env, |s.trace|, n);
    if k == n then signal.Returns? && |s1.trace| == |s.trace| + n
    else signal.Raises? && signal == env.hook(|s.trace| + k) && |s1.trace| == |s.trace| + k + 1
  }

  lemma {:induction false} EventsEndAt(env: Environment, s: State, events: seq<int>)
    ensures var (s1, signal) := PublishEvents(env, s, events); EndsAt(env, s, s1, |events|, signal)
    decreases |events|
  {
    if events != [] && env.hook(|s.trace|).Returns? {
      EventsEndAt(env, Emit(s, Published(events[0], env.hook(|s.trace|))), events[1..]);
    }
  }

  lemma {:induction false} AllEndAt(env: Environment, s: State, aggregates: seq<nat>)
    ensures var (s1, signal) := PublishAll(env, s, aggregates);
            EndsAt(env, s, s1, |Outgoing(aggregates, s.pending)|, signal)
    decreases |aggregates|
  {
    if aggregates != [] {
      var events := EventsOf(s.pending, aggregates[0]);
      var cleared := s.pending[aggregates[0] := []];
      var (s1, signal) := PublishEvents(env, s, events);
      PublishEventsDelivers(env, s, events);
      EventsEndAt(env, s, events);
      AnsweredSplit(env, |s.trace|, |events|, |Outgoing(aggregates[1..], cleared)|);
      if signal.Returns? {
        AllEndAt(env, s1.(pending := cleared), aggregates[1..]);
      }
    }
  }

  // ----- A transactional call -----

  /** What the body and the publication of its events come to. */
  function Inner(env: Environment, body: State, result: Result): Result {
    var n := Reached(env, body, result);
    if result.Value? && n < |Due(body)| && env.hook(|body.trace| + 1 + n).Raises?
    then Raised(env.hook(|body.trace| + 1 + n).failure)
    else result
  }

  /** Where the transaction is left: after the note that the body ended, the
      publications, and the hooks of the publishing aspect, one more of them for
      an Exception. */
  function LeftAt(env: Environment, body: State, result: Result): nat {
    var n, inner := Reached(env, body, result), Inner(env, body, result);
    var noted := if inner.Value? then |body.trace| + n + 2
                 else if result.Value? then |body.trace| + n + 3
                 else |body.trace| + 1;
    noted + (if inner.Raised? && !inner.failure.fatal then 1 else 0) + 1
  }

  lemma {:induction false} AnsweredStops(env: Environment, at: nat, n: nat)
    ensures var k := Answered(env, at, n); k < n ==> env.hook(at + k).Raises?
    decreases n
  {
    if n > 0 && env.hook(at).Returns? {
      AnsweredStops(env, at + 1, n - 1);
    }
  }

  /** Concluding the publishing aspect after a body that ended with `result`. */
  lemma {:induction false} PublishingEnds(env: Environment, body: State, a: Aspect, result: Result)
    requires a.kind.Publishing?
    ensures var (s1, r) := Conclude(env, body, a, result);
            r == Inner(env, body, result) && |s1.trace| == LeftAt(env, body, result)
  {
    OutgoingIsOnceEach(body.collected, body.pending);
    if result.Value? {
      var s0 := Emit(body, AroundEnded(a.id, result));
      AllEndAt(env, s0, s0.collected);
      AnsweredStops(env, |s0.trace|, |Due(body)|);
    }
  }

  /** The answer to the caller, from the answers at and after the place where the
      transaction is left. */
  function CallAnswer(env: Environment, at: nat, autocommit: bool, inner: Result): Result {
    if inner.Raised? then
      var (rollback, dispose) := (env.hook(at), env.hook(at + 1));
      if rollback.Raises? then Raised(rollback.failure)
      else if dispose.Raises? then Raised(dispose.failure)
      else inner
    else if autocommit && env.hook(at).Raises? then
      var (commit, rollback, dispose) := (env.hook(at), env.hook(at + 1), env.hook(at + 2));
      if dispose.Raises? then Raised(dispose.failure)
      else if rollback.Raises? then Raised(rollback.failure)
      else Raised(commit.failure)
    else
      var dispose := env.hook(if autocommit then at + 1 else at);
      if dispose.Raises? then Raised(dispose.failure) else inner
  }

  lemma {:induction false} LeavingAnswers(env: Environment, s: State, autocommit: bool, result: Result)
    ensures ExitTransaction(env, s, autocommit, result).1 == CallAnswer(env, |s.trace|, autocommit, result)
  {
  }

  /** What a caller gets from a transactional call around any chain of plain
      aspects.  If initialize raises, that.  Otherwise a value if and only if the
      body returned, every due publication did, the commit if there is one, and
      dispose; it is then the body's value.  In all other cases the call raises
      the failure of dispose if that failed, else of the rollback, else of the
      commit, the publication or the body, whichever came about. */
  lemma {:induction false} CallerGets(env: Environment, s: State, tx: Aspect, publisher: Aspect, next: Runnable)
    returns (body: State, result: Result)
    requires s.trace == [] && tx.kind.Transactional? && publisher.kind.Publishing? && PlainChain(next)
    ensures (body, result) == Body(env, Opened(s, tx), publisher, next)
    ensures var r := Exec(env, s, Advisor(tx, Advisor(publisher, next))).1;
            var at := LeftAt(env, body, result);
            && (env.hook(1).Raises? ==> r == Raised(env.hook(1).failure))
            && (env.hook(1).Returns? ==> r == CallAnswer(env, at, tx.kind.autocommit, Inner(env, body, result)))
            && (r.Value? <==>
                  && env.hook(1).Returns? && result.Value?
                  && Answered(env, |body.trace| + 1, |Due(body)|) == |Due(body)|
                  && (tx.kind.autocommit ==> CommitAnswer(env, body).Returns?)
                  && env.hook(if tx.kind.autocommit then at + 1 else at).Returns?)
            && (r.Value? ==> r == result)
  {
    var run := Body(env, Opened(s, tx), publisher, next);
    body, result := run.0, run.1;
    if env.hook(1).Raises? {
      RefusedGets(env, s, tx, Advisor(publisher, next));
    } else {
      PublishingEnds(env, body, publisher, result);
      assert Exec(env, Opened(s, tx), Advisor(publisher, next)) == Conclude(env, body, publisher, result);
      OpenedGets(env, s, tx, Advisor(publisher, next));
      AnswerIsValueIff(env, body, result, tx.kind.autocommit);
    }
  }

  lemma {:induction false} AnswerIsValueIff(env: Environment, body: State, result: Result, autocommit: bool)
    ensures var at := LeftAt(env, body, result);
            var r := CallAnswer(env, at, autocommit, Inner(env, body, result));
            && (r.Value? <==>
                  && result.Value? && Answered(env, |body.trace| + 1, |Due(body)|) == |Due(body)|
                  && (autocommit ==> CommitAnswer(env, body).Returns?)
                  && env.hook(if autocommit then at + 1 else at).Returns?)
            && (r.Value? ==> r == result)
  {
    AnsweredStops(env, |body.trace| + 1, |Due(body)|);
  }

  lemma {:induction false} RefusedGets(env: Environment, s: State, tx: Aspect, inner: Runnable)
    requires s.trace == [] && tx.kind.Transactional? && env.hook(1).Raises?
    ensures Exec(env, s, Advisor(tx, inner)).1 == Raised(env.hook(1).failure)
  {
    var s0 := Emit(s, Before(tx.id, Returns));
    TransactionConcludes(env, Emit(s0, Initialized(env.hook(1))), tx, Raised(env.hook(1).failure));
  }

  lemma {:induction false} OpenedGets(env: Environment, s: State, tx: Aspect, inner: Runnable)
    requires s.trace == [] && tx.kind.Transactional? && env.hook(1).Returns?
    ensures var (s2, r) := Exec(env, Opened(s, tx), inner);
            Exec(env, s, Advisor(tx, inner)).1 == CallAnswer(env, |s2.trace|, tx.kind.autocommit, r)
  {
    var s0 := Emit(s, Before(tx.id, Returns));
    var (s2, r) := Exec(env, Opened(s, tx), inner);
    LeavingAnswers(env, s2, tx.kind.autocommit, r);
    var left := ExitTransaction(env, s2, tx.kind.autocommit, r);
    assert RunAround(env, s0, tx, inner) == left;
    TransactionConcludes(env, left.0, tx, left.1);
  }

  // ----- The same, read off the trace -----

  lemma {:induction false} EventsPass(env: Environment, s: State, events: seq<int>)
    ensures var (s1, signal) := PublishEvents(env, s, events);
            LastFailure(s1.trace) == if signal.Raises? then Some(signal.failure) else LastFailure(s.trace)
    decreases |events|
  {
    if events != [] {
      var e := Published(events[0], env.hook(|s.trace|));
      EmitFails(s, e);
      if e.signal.Returns? { EventsPass(env, Emit(s, e), events[1..]); }
    }
  }

  lemma {:induction false} AllPass(env: Environment, s: State, aggregates: seq<nat>)
    ensures var (s1, signal) := PublishAll(env, s, aggregates);
            LastFailure(s1.trace) == if signal.Raises? then Some(signal.failure) else LastFailure(s.trace)
    decreases |aggregates|
  {
    if aggregates != [] {
      EventsPass(env, s, EventsOf(s.pending, aggregates[0]));
      var (s1, signal) := PublishEvents(env, s, EventsOf(s.pending, aggregates[0]));
      if signal.Returns? {
        AllPass(env, s1.(pending := s1.pending[aggregates[0] := []]), aggregates[1..]);
      }
    }
  }

  /** The hooks of an aspect that is not plain pass on what they are given. */
  lemma {:induction false} EndPasses(env: Environment, s: State, a: Aspect, failure: Option<Failure>, result: Result)
    requires !a.kind.Plain? && (failure.None? ==> result.Value?)
    ensures var (s1, r) := if failure.Some? then Except(env, s, a, failure.value) else Finally(env, s, a, result);
            && LastFailure(s1.trace) == LastFailure(s.trace)
            && r == if failure.Some? then Raised(failure.value) else result
  {
    EmitFails(s, After(a.id, Returns));
    if failure.Some? {
      var e := AfterRaising(a.id, failure.value, Returns);
      EmitFails(s, e);
      EmitFails(Emit(s, e), After(a.id, Returns));
    }
  }

  lemma {:induction false} PublishingPasses(env: Environment, s: State, a: Aspect, result: Result)
    requires a.kind.Publishing?
    ensures var (s1, r) := Conclude(env, s, a, result); Passes(s, s1, result, r)
  {
    var s0 := Emit(s, AroundEnded(a.id, result));
    EmitFails(s, AroundEnded(a.id, result));
    if result.Value? {
      AllPass(env, s0, s0.collected);
      var (s1, signal) := PublishAll(env, s0, s0.collected);
      var e := AfterReturning(a.id, signal);
      EmitFails(s1, e);
      EndPasses(env, Emit(s1, e), a, if signal.Raises? then Some(signal.failure) else None, result);
    } else {
      EndPasses(env, s0, a, Some(result.failure), result);
    }
  }

  lemma {:induction false} TransactionPasses(env: Environment, s: State, a: Aspect, result: Result)
    requires a.kind.Transactional?
    ensures var (s1, r) := Conclude(env, s, a, result); Passes(s, s1, result, r)
  {
    var s0 := Emit(s, AroundEnded(a.id, result));
    EmitFails(s, AroundEnded(a.id, result));
    if result.Value? {
      EmitFails(s0, AfterReturning(a.id, Returns));
      EndPasses(env, Emit(s0, AfterReturning(a.id, Returns)), a, None, result);
    } else {
      EndPasses(env, s0, a, Some(result.failure), result);
    }
  }

  /** The caller gets the body's result if no publication and no step of the
      transaction failed after the body, and otherwise the failure of the last
      that did, whatever the body is. */
  lemma {:induction false} LastFailureWins(env: Environment, s: State, tx: Aspect, publisher: Aspect, next: Runnable)
    returns (body: State, result: Result)
    requires s.trace == [] && tx.kind.Transactional? && publisher.kind.Publishing? && env.hook(1).Returns?
    ensures (body, result) == Body(env, Opened(s, tx), publisher, next)
    ensures var (s1, r) := Exec(env, s, Advisor(tx, Advisor(publisher, next))); Passes(body, s1, result, r)
  {
    var s0 := Emit(s, Before(tx.id, Returns));
    var run := Body(env, Opened(s, tx), publisher, next);
    body, result := run.0, run.1;
    assert Exec(env, Opened(s, tx), Advisor(publisher, next)) == Conclude(env, body, publisher, result);
    var (s2, inner) := Exec(env, Opened(s, tx), Advisor(publisher, next));
    PublishingPasses(env, body, publisher, result);
    LeavingPasses(env, s2, tx.kind.autocommit, inner);
    var (s3, left) := ExitTransaction(env, s2, tx.kind.autocommit, inner);
    PassesOn(body, s2, s3, result, inner, left);
    assert RunAround(env, s0, tx, Advisor(publisher, next)) == (s3, left);
    TransactionPasses(env, s3, tx, left);
    var (s1, r) := Conclude(env, s3, tx, left);
    PassesOn(body, s3, s1, result, left, r);
  }

  // ----- What around makes of the calls it makes -----

  /** The states before and after each of the calls that a plain `around` makes,
      one starting where the one before it ended, and what each answered. */
  ghost predicate Calls(env: Environment, next: Runnable, states: seq<State>, results: seq<Result>) {
    && |states| == |results| + 1
    && forall k | 0 <= k < |results| :: Exec(env, states[k], next) == (states[k + 1], results[k])
  }

  lemma {:induction false} ProceedCalls(env: Environment, s: State, next: Runnable, calls: nat)
    returns (states: seq<State>)
    ensures var (s1, results) := Proceed(env, s, next, calls);
            |results| == calls && Calls(env, next, states, results) && states[0] == s && states[calls] == s1
    decreases calls
  {
    if calls == 0 {
      states := [s];
    } else {
      var before := ProceedCalls(env, s, next, calls - 1);
      var (s1, results) := Proceed(env, s, next, calls - 1);
      var last := Exec(env, s1, next);
      states := before + [last.0];
      forall k | 0 <= k < calls
        ensures Exec(env, states[k], next) == (states[k + 1], (results + [last.1])[k])
      {
        if k < calls - 1 {
          assert Exec(env, before[k], next) == (before[k + 1], results[k]);
        }
      }
    }
  }

  /** A plain `around` calls on as often as it plans to, one call after the other,
      and answers what it makes of their answers, in order. */
  lemma {:induction false} AroundAnswers(env: Environment, s: State, a: Aspect, next: Runnable)
    returns (states: seq<State>, results: seq<Result>)
    requires a.kind.Plain?
    ensures |results| == env.plan(|s.trace|).calls && Calls(env, next, states, results)
    ensures states[0] == s
    ensures RunAround(env, s, a, next) == (states[|results|], env.plan(|s.trace|).answer(results))
  {
    states := ProceedCalls(env, s, next, env.plan(|s.trace|).calls);
    results := Proceed(env, s, next, env.plan(|s.trace|).calls).1;
  }

  // ----- Which events are due, and which remain -----

  /** The events that were raised on one aggregate, in order. */
  function RaisedOn(raised: seq<(nat, int)>, aggregate: nat): seq<int> {
    if raised == [] then []
    else
      var rest := RaisedOn(raised[1..], aggregate);
      if raised[0].0 == aggregate then [raised[0].1] + rest else rest
  }

  lemma {:induction false} RaisedEventsAppend(pending: map<nat, seq<int>>, raised: seq<(nat, int)>, aggregate: nat)
    ensures EventsOf(AddEvents(pending, raised), aggregate)
         == EventsOf(pending, aggregate) + RaisedOn(raised, aggregate)
    decreases |raised|
  {
    if raised != [] {
      var first := raised[0];
      var more := pending[first.0 := EventsOf(pending, first.0) + [first.1]];
      RaisedEventsAppend(more, raised[1..], aggregate);
      if first.0 == aggregate {
        var rest := RaisedOn(raised[1..], aggregate);
        assert EventsOf(pending, aggregate) + [first.1] + rest == EventsOf(pending, aggregate) + ([first.1] + rest);
      }
    }
  }

  /** The body of a call without further aspects: every aggregate holds what it
      held and then what the method raised on it, and what the method collected
      is collected after what was. */
  lemma {:induction false} BodyRaises(env: Environment, s: State, publisher: Aspect, aggregate: nat)
    ensures var (body, result) := Body(env, s, publisher, Method);
            var work := env.target(|s.trace| + 1);
            && result == work.result && body.collected == s.collected + work.collected
            && EventsOf(body.pending, aggregate) == EventsOf(s.pending, aggregate) + RaisedOn(work.raised, aggregate)
  {
    RaisedEventsAppend(s.pending, env.target(|s.trace| + 1).raised, aggregate);
  }

  /** What publication leaves of the events of one aggregate: all or nothing. */
  predicate AllOrNothing(s: State, s1: State, aggregate: nat) {
    var (before, after) := (EventsOf(s.pending, aggregate), EventsOf(s1.pending, aggregate));
    after == before || (after == [] && forall e | e in before :: e in Delivered(s1.trace))
  }

  lemma {:induction false} AllLeaves(env: Environment, s: State, aggregates: seq<nat>, aggregate: nat)
    ensures var (s1, signal) := PublishAll(env, s, aggregates);
            && AllOrNothing(s, s1, aggregate)
            && (aggregate !in aggregates ==> EventsOf(s1.pending, aggregate) == EventsOf(s.pending, aggregate))
            && (signal.Returns? && aggregate in aggregates ==> EventsOf(s1.pending, aggregate) == [])
            && Delivered(s.trace) <= Delivered(s1.trace)
    decreases |aggregates|
  {
    if aggregates != [] {
      var events := EventsOf(s.pending, aggregates[0]);
      PublishEventsDelivers(env, s, events);
      var (x, signal) := PublishEvents(env, s, events);
      if signal.Returns? {
        var y := x.(pending := x.pending[aggregates[0] := []]);
        AllLeaves(env, y, aggregates[1..], aggregate);
        var s1 := PublishAll(env, y, aggregates[1..]).0;
        if aggregate == aggregates[0] {
          assert forall e | e in events :: e in Delivered(s.trace) + events;
          assert forall e | e in Delivered(y.trace) :: e in Delivered(s1.trace);
        }
      }
    }
  }

  /** What is left pending of one aggregate after a body that ended with `result`:
      everything if the body raised or did not collect it, nothing if it was
      collected and every publication returned, and in any case all or nothing. */
  predicate LeftPending(env: Environment, body: State, result: Result, s1: State, aggregate: nat) {
    var after := EventsOf(s1.pending, aggregate);
    var all := result.Value? && Answered(env, |body.trace| + 1, |Due(body)|) == |Due(body)|;
    && AllOrNothing(body, s1, aggregate)
    && (result.Raised? || aggregate !in body.collected ==> after == EventsOf(body.pending, aggregate))
    && (all && aggregate in body.collected ==> after == [])
  }

  lemma {:induction false} StillLeft(
      env: Environment, body: State, result: Result, s1: State, s2: State, aggregate: nat)
    requires LeftPending(env, body, result, s1, aggregate)
    requires s2.pending == s1.pending && Delivered(s2.trace) == Delivered(s1.trace)
    ensures LeftPending(env, body, result, s2, aggregate)
  {
  }

  lemma {:induction false} LeavingKeepsPending(env: Environment, s: State, autocommit: bool, result: Result)
    ensures ExitTransaction(env, s, autocommit, result).0.pending == s.pending
  {
  }

  /** Everything but the publication itself leaves what is pending alone. */
  lemma {:induction false} EndKeepsPending(
      env: Environment, s: State, a: Aspect, failure: Option<Failure>, result: Result)
    ensures var (s1, r) := if failure.Some? then Except(env, s, a, failure.value) else Finally(env, s, a, result);
            s1.pending == s.pending
  {
  }

  lemma {:induction false} PublisherLeaves(
      env: Environment, body: State, a: Aspect, result: Result, aggregate: nat)
    requires a.kind.Publishing?
    ensures LeftPending(env, body, result, Conclude(env, body, a, result).0, aggregate)
  {
    var s0 := Emit(body, AroundEnded(a.id, result));
    EmitObserved(body, AroundEnded(a.id, result));
    if result.Value? {
      PublicationLeaves(env, body, s0, result, aggregate);
      var (s1, signal) := PublishAll(env, s0, s0.collected);
      var s2 := Emit(s1, AfterReturning(a.id, signal));
      PublishedIsQuiet(env, s1, a, signal, result);
      EndKeepsPending(env, s2, a, if signal.Raises? then Some(signal.failure) else None, result);
      StillLeft(env, body, result, s1, Conclude(env, body, a, result).0, aggregate);
    } else {
      EndKeepsPending(env, s0, a, Some(result.failure), result);
    }
  }

  lemma {:induction false} PublicationLeaves(
      env: Environment, body: State, s0: State, result: Result, aggregate: nat)
    requires result.Value? && s0.pending == body.pending && s0.collected == body.collected
    requires |s0.trace| == |body.trace| + 1
    ensures LeftPending(env, body, result, PublishAll(env, s0, s0.collected).0, aggregate)
  {
    AllLeaves(env, s0, s0.collected, aggregate);
    AllEndAt(env, s0, s0.collected);
    OutgoingIsOnceEach(body.collected, body.pending);
  }

  /** What a transactional call, whatever its body, leaves pending: nothing of
      what it collected if every publication returned, everything if the body
      raised; and otherwise an aggregate keeps all its events or, once all of
      them went out, none. */
  lemma {:induction false} CallLeavesPending(
      env: Environment, s: State, tx: Aspect, publisher: Aspect, next: Runnable, aggregate: nat)
    returns (body: State, result: Result)
    requires s.trace == [] && tx.kind.Transactional? && publisher.kind.Publishing? && env.hook(1).Returns?
    ensures (body, result) == Body(env, Opened(s, tx), publisher, next)
    ensures var s1 := Exec(env, s, Advisor(tx, Advisor(publisher, next))).0;
            LeftPending(env, body, result, s1, aggregate)
  {
    var run := Body(env, Opened(s, tx), publisher, next);
    body, result := run.0, run.1;
    assert Exec(env, Opened(s, tx), Advisor(publisher, next)) == Conclude(env, body, publisher, result);
    PublisherLeaves(env, body, publisher, result, aggregate);
    TransactionKeepsPending(env, s, tx, Advisor(publisher, next));
    var s2 := Exec(env, Opened(s, tx), Advisor(publisher, next)).0;
    StillLeft(env, body, result, s2, Exec(env, s, Advisor(tx, Advisor(publisher, next))).0, aggregate);
  }

  lemma {:induction false} TransactionKeepsPending(env: Environment, s: State, tx: Aspect, inner: Runnable)
    requires s.trace == [] && tx.kind.Transactional? && env.hook(1).Returns?
    ensures var s1, s2 := Exec(env, s, Advisor(tx, inner)).0, Exec(env, Opened(s, tx), inner).0;
            s1.pending == s2.pending && Delivered(s1.trace) == Delivered(s2.trace)
  {
    var (s2, r) := Exec(env, Opened(s, tx), inner);
    LeavingKeepsPending(env, s2, tx.kind.autocommit, r);
    ExitObserved(env, s2, tx.kind.autocommit, r);
    var left := ExitTransaction(env, s2, tx.kind.autocommit, r);
    assert RunAround(env, Emit(s, Before(tx.id, Returns)), tx, inner) == left;
    TransactionConcludes(env, left.0, tx, left.1);
    TransactionEndKeepsPending(env, left.0, tx, left.1);
  }

  lemma {:induction false} TransactionEndKeepsPending(env: Environment, s: State, tx: Aspect, result: Result)
    requires tx.kind.Transactional?
    ensures Conclude(env, s, tx, result).0.pending == s.pending
  {
    var s0 := Emit(s, AroundEnded(tx.id, result));
    if result.Value? {
      EndKeepsPending(env, Emit(s0, AfterReturning(tx.id, Returns)), tx, None, result);
    } else {
      EndKeepsPending(env, s0, tx, Some(result.failure), result);
    }
  }
}
