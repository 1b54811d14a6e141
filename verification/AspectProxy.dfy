/** How an advice chain is built, cached and run
    (core/spakky/src/spakky/core/aop/post_processor.py and
    core/spakky/src/spakky/core/aop/advisor.py). */
module AspectProxy {
  import opened Sequences
  import opened Wrappers
  import opened Advice
  import opened AdviceOrder
  import opened Transactions

  type MethodKey = nat

  // ----- Sorting the aspects -----

  function InsertDescending(a: Aspect, sorted: seq<Aspect>): seq<Aspect>
    decreases |sorted|
  {
    if sorted == [] || a.order >= sorted[0].order then [a] + sorted
    else [sorted[0]] + InsertDescending(a, sorted[1..])
  }

  /** `list.sort(key=order, reverse=True)`: descending and stable. */
  function SortDescending(aspects: seq<Aspect>): seq<Aspect>
    decreases |aspects|
  {
    if aspects == [] then [] else InsertDescending(aspects[0], SortDescending(aspects[1..]))
  }

  predicate Descending(aspects: seq<Aspect>) {
    forall i, j :: 0 <= i < j < |aspects| ==> aspects[i].order >= aspects[j].order
  }

  predicate Ascending(aspects: seq<Aspect>) {
    forall i, j :: 0 <= i < j < |aspects| ==> aspects[i].order <= aspects[j].order
  }

  function WithOrder(aspects: seq<Aspect>, order: int): seq<Aspect>
    decreases |aspects|
  {
    if aspects == [] then []
    else (if aspects[0].order == order then [aspects[0]] else []) + WithOrder(aspects[1..], order)
  }

  lemma {:induction false} InsertKeepsMembers(a: Aspect, sorted: seq<Aspect>)
    ensures multiset(InsertDescending(a, sorted)) == multiset(sorted) + multiset{a}
    decreases |sorted|
  {
    if sorted != [] && a.order < sorted[0].order {
      InsertKeepsMembers(a, sorted[1..]);
      assert sorted == [sorted[0]] + sorted[1..];
    }
  }

  lemma {:induction false} InsertSorts(a: Aspect, sorted: seq<Aspect>)
    requires Descending(sorted)
    ensures Descending(InsertDescending(a, sorted))
    decreases |sorted|
  {
    if sorted != [] && a.order < sorted[0].order {
      InsertSorts(a, sorted[1..]);
      InsertKeepsMembers(a, sorted[1..]);
      var rest := InsertDescending(a, sorted[1..]);
      forall j | 0 <= j < |rest|
        ensures rest[j].order <= sorted[0].order
      {
        assert rest[j] in multiset(rest);
      }
    }
  }

  lemma {:induction false} InsertIsStable(a: Aspect, sorted: seq<Aspect>, order: int)
    requires Descending(sorted)
    ensures WithOrder(InsertDescending(a, sorted), order) == WithOrder([a] + sorted, order)
    decreases |sorted|
  {
    if sorted != [] && a.order < sorted[0].order {
      InsertIsStable(a, sorted[1..], order);
      var rest := InsertDescending(a, sorted[1..]);
      assert ([sorted[0]] + rest)[1..] == rest;
      assert ([a] + sorted)[1..] == sorted;
      assert ([a] + sorted[1..])[1..] == sorted[1..];
    }
  }

  /** Sorting permutes, descends, and keeps the order of equals. */
  lemma {:induction false} SortIsStable(aspects: seq<Aspect>, order: int)
    ensures multiset(SortDescending(aspects)) == multiset(aspects)
    ensures Descending(SortDescending(aspects))
    ensures WithOrder(SortDescending(aspects), order) == WithOrder(aspects, order)
    decreases |aspects|
  {
    if aspects != [] {
      var sorted := SortDescending(aspects[1..]);
      SortIsStable(aspects[1..], order);
      InsertKeepsMembers(aspects[0], sorted);
      InsertSorts(aspects[0], sorted);
      InsertIsStable(aspects[0], sorted, order);
      assert aspects == [aspects[0]] + aspects[1..];
      assert ([aspects[0]] + sorted)[1..] == sorted;
    }
  }

  // ----- Building the chain -----

  function Candidates(aspects: seq<Aspect>, matches: (Aspect, MethodKey) -> bool, key: MethodKey): seq<Aspect>
    decreases |aspects|
  {
    if aspects == [] then []
    else (if matches(aspects[0], key) then [aspects[0]] else []) + Candidates(aspects[1..], matches, key)
  }

  function Wrap(r: Runnable, candidates: seq<Aspect>): Runnable
    decreases |candidates|
  {
    if candidates == [] then r else Wrap(Advisor(candidates[0], r), candidates[1..])
  }

  /** The chain for a method of a pod whose matching aspects are `aspects`. */
  function ChainFor(aspects: seq<Aspect>, matches: (Aspect, MethodKey) -> bool, key: MethodKey): Runnable {
    Wrap(Method, Candidates(SortDescending(aspects), matches, key))
  }

  /** The aspects of a chain, outermost first. */
  function Aspects(r: Runnable): seq<Aspect> {
    match r
    case Method => []
    case Advisor(a, next) => [a] + Aspects(next)
  }

  lemma {:induction false} CandidatesDescend(aspects: seq<Aspect>, matches: (Aspect, MethodKey) -> bool, key: MethodKey)
    requires Descending(aspects)
    ensures Descending(Candidates(aspects, matches, key))
    ensures forall a :: a in Candidates(aspects, matches, key) <==> a in aspects && matches(a, key)
    decreases |aspects|
  {
    if aspects != [] {
      CandidatesDescend(aspects[1..], matches, key);
      var rest := Candidates(aspects[1..], matches, key);
      forall j | 0 <= j < |rest|
        ensures rest[j].order <= aspects[0].order
      {
        assert rest[j] in aspects[1..];
      }
    }
  }

  lemma {:induction false} WrapAscends(r: Runnable, candidates: seq<Aspect>)
    requires Descending(candidates) && Ascending(Aspects(r))
    requires forall a, b :: a in candidates && b in Aspects(r) ==> a.order <= b.order
    ensures Ascending(Aspects(Wrap(r, candidates)))
    ensures forall a :: a in Aspects(Wrap(r, candidates)) <==> a in candidates || a in Aspects(r)
    decreases |candidates|
  {
    if candidates != [] {
      WrapAscends(Advisor(candidates[0], r), candidates[1..]);
    }
  }

  /** A chain holds exactly the aspects that match the method, the smallest
      order outermost. */
  lemma {:induction false} SmallestOrderIsOutermost(
      aspects: seq<Aspect>, matches: (Aspect, MethodKey) -> bool, key: MethodKey)
    ensures var chain := Aspects(ChainFor(aspects, matches, key));
            && Ascending(chain)
            && forall a :: a in chain <==> a in aspects && matches(a, key)
  {
    var sorted := SortDescending(aspects);
    SortIsStable(aspects, 0);
    CandidatesDescend(sorted, matches, key);
    WrapAscends(Method, Candidates(sorted, matches, key));
    forall a: Aspect
      ensures a in sorted <==> a in aspects
    {
      assert a in multiset(sorted) <==> a in multiset(aspects);
    }
  }

  /** The aspects of one order that match the method, as registered. */
  function Matching(
      aspects: seq<Aspect>, matches: (Aspect, MethodKey) -> bool, key: MethodKey, order: int): seq<Aspect>
    decreases |aspects|
  {
    if aspects == [] then []
    else
      var rest := Matching(aspects[1..], matches, key, order);
      if aspects[0].order == order && matches(aspects[0], key) then [aspects[0]] + rest else rest
  }

  lemma {:induction false} CandidatesOfOrder(
      aspects: seq<Aspect>, matches: (Aspect, MethodKey) -> bool, key: MethodKey, order: int)
    ensures WithOrder(Candidates(aspects, matches, key), order) == Matching(aspects, matches, key, order)
    decreases |aspects|
  {
    if aspects != [] {
      CandidatesOfOrder(aspects[1..], matches, key, order);
      var rest := Candidates(aspects[1..], matches, key);
      if matches(aspects[0], key) {
        assert ([aspects[0]] + rest)[1..] == rest;
      } else {
        assert Candidates(aspects, matches, key) == rest;
      }
    }
  }

  /** Only the aspects of that order count. */
  lemma {:induction false} MatchingOfOrder(
      aspects: seq<Aspect>, matches: (Aspect, MethodKey) -> bool, key: MethodKey, order: int)
    ensures Matching(WithOrder(aspects, order), matches, key, order) == Matching(aspects, matches, key, order)
    decreases |aspects|
  {
    if aspects != [] {
      MatchingOfOrder(aspects[1..], matches, key, order);
      var rest := WithOrder(aspects[1..], order);
      if aspects[0].order == order {
        assert ([aspects[0]] + rest)[1..] == rest;
      } else {
        assert WithOrder(aspects, order) == rest;
      }
    }
  }

  lemma {:induction false} WithOrderJoins(a: seq<Aspect>, b: seq<Aspect>, order: int)
    ensures WithOrder(a + b, order) == WithOrder(a, order) + WithOrder(b, order)
    decreases |a|
  {
    if a == [] {
      assert a + b == b;
    } else {
      assert (a + b)[1..] == a[1..] + b;
      WithOrderJoins(a[1..], b, order);
    }
  }

  lemma {:induction false} ReversedSplit<T>(s: seq<T>)
    requires s != []
    ensures Reversed(s) == Reversed(s[1..]) + [s[0]]
  {
    ReversedKeeps(s);
    ReversedKeeps(s[1..]);
    var back := Reversed(s[1..]) + [s[0]];
    forall i | 0 <= i < |s|
      ensures Reversed(s)[i] == back[i]
    {
    }
  }

  lemma {:induction false} WithOrderReverses(aspects: seq<Aspect>, order: int)
    ensures WithOrder(Reversed(aspects), order) == Reversed(WithOrder(aspects, order))
    decreases |aspects|
  {
    if aspects != [] {
      WithOrderReverses(aspects[1..], order);
      ReversedSplit(aspects);
      WithOrderJoins(Reversed(aspects[1..]), [aspects[0]], order);
      assert [aspects[0]][1..] == [];
      var rest := WithOrder(aspects[1..], order);
      if aspects[0].order == order {
        ReversedSplit([aspects[0]] + rest);
        assert ([aspects[0]] + rest)[1..] == rest;
      } else {
        assert WithOrder(aspects, order) == rest;
      }
    }
  }

  lemma {:induction false} WrapReverses(r: Runnable, candidates: seq<Aspect>)
    ensures Aspects(Wrap(r, candidates)) == Reversed(candidates) + Aspects(r)
    decreases |candidates|
  {
    if candidates != [] {
      WrapReverses(Advisor(candidates[0], r), candidates[1..]);
      ReversedSplit(candidates);
    }
  }

  /** The chain in full: orders ascend from the outside in, and of the aspects of
      one order that match, each is there once, the last registered outermost. */
  lemma {:induction false} ChainIsDetermined(
      aspects: seq<Aspect>, matches: (Aspect, MethodKey) -> bool, key: MethodKey, order: int)
    ensures var chain := Aspects(ChainFor(aspects, matches, key));
            Ascending(chain) && WithOrder(chain, order) == Reversed(Matching(aspects, matches, key, order))
  {
    var sorted := SortDescending(aspects);
    var candidates := Candidates(sorted, matches, key);
    SmallestOrderIsOutermost(aspects, matches, key);
    WrapReverses(Method, candidates);
    assert Reversed(candidates) + [] == Reversed(candidates);
    WithOrderReverses(candidates, order);
    CandidatesOfOrder(sorted, matches, key, order);
    MatchingOfOrder(sorted, matches, key, order);
    SortIsStable(aspects, order);
    MatchingOfOrder(aspects, matches, key, order);
  }

  // ----- Order 0 for transactions and 1 for publishing is enough -----

  function TransactionCount(aspects: seq<Aspect>): nat
    decreases |aspects|
  {
    if aspects == [] then 0
    else (if aspects[0].kind.Transactional? then 1 else 0) + TransactionCount(aspects[1..])
  }

  /** The orders the two aspects are declared with. */
  predicate Declared(a: Aspect, autocommit: bool) {
    match a.kind
    case Plain => true
    case Transactional(auto) => a.order == 0 && auto == autocommit
    case Publishing => a.order == 1
  }

  lemma {:induction false} InsertCounts(a: Aspect, sorted: seq<Aspect>)
    ensures TransactionCount(InsertDescending(a, sorted)) == TransactionCount([a] + sorted)
    decreases |sorted|
  {
    if sorted != [] && a.order < sorted[0].order {
      InsertCounts(a, sorted[1..]);
      assert ([a] + sorted)[1..] == sorted;
      assert ([a] + sorted[1..])[1..] == sorted[1..];
      assert ([sorted[0]] + InsertDescending(a, sorted[1..]))[1..] == InsertDescending(a, sorted[1..]);
    }
  }

  lemma {:induction false} SortCounts(aspects: seq<Aspect>)
    ensures TransactionCount(SortDescending(aspects)) == TransactionCount(aspects)
    decreases |aspects|
  {
    if aspects != [] {
      SortCounts(aspects[1..]);
      InsertCounts(aspects[0], SortDescending(aspects[1..]));
      assert ([aspects[0]] + SortDescending(aspects[1..]))[1..] == SortDescending(aspects[1..]);
    }
  }

  lemma {:induction false} CandidatesCount(aspects: seq<Aspect>, matches: (Aspect, MethodKey) -> bool, key: MethodKey)
    requires forall a :: a in aspects && a.kind.Transactional? ==> matches(a, key)
    ensures TransactionCount(Candidates(aspects, matches, key)) == TransactionCount(aspects)
    decreases |aspects|
  {
    if aspects != [] {
      CandidatesCount(aspects[1..], matches, key);
      var rest := Candidates(aspects[1..], matches, key);
      assert aspects[0] in aspects;
      if matches(aspects[0], key) {
        assert ([aspects[0]] + rest)[1..] == rest;
      } else {
        assert Candidates(aspects, matches, key) == [] + rest == rest;
      }
    }
  }

  lemma {:induction false} WrapCounts(r: Runnable, candidates: seq<Aspect>)
    ensures TransactionCount(Aspects(Wrap(r, candidates)))
        == TransactionCount(candidates) + TransactionCount(Aspects(r))
    decreases |candidates|
  {
    if candidates != [] {
      var r1 := Advisor(candidates[0], r);
      WrapCounts(r1, candidates[1..]);
      assert Aspects(r1)[1..] == Aspects(r);
    }
  }

  lemma {:induction false} NoneCounted(aspects: seq<Aspect>)
    requires forall a :: a in aspects ==> !a.kind.Transactional?
    ensures TransactionCount(aspects) == 0
    decreases |aspects|
  {
    if aspects != [] {
      assert aspects[0] in aspects;
      NoneCounted(aspects[1..]);
    }
  }

  /** No transactional aspect can come further in than a publishing one. */
  lemma {:induction false} PublishingIsInside(a: Aspect, rest: seq<Aspect>, autocommit: bool)
    requires Ascending([a] + rest) && a.kind.Publishing? && Declared(a, autocommit)
    requires forall b :: b in rest ==> Declared(b, autocommit)
    ensures TransactionCount(rest) == 0
  {
    forall b | b in rest
      ensures !b.kind.Transactional?
    {
      var i :| 0 <= i < |rest| && rest[i] == b;
      assert ([a] + rest)[0].order <= ([a] + rest)[i + 1].order;
    }
    NoneCounted(rest);
  }

  lemma {:induction false} AscendingIsManaged(r: Runnable, autocommit: bool, open: bool)
    requires Ascending(Aspects(r)) && forall a :: a in Aspects(r) ==> Declared(a, autocommit)
    requires TransactionCount(Aspects(r)) == if open then 0 else 1
    ensures Managed(r, autocommit, open)
  {
    if r.Advisor? {
      var a, all, rest := r.aspect, Aspects(r), Aspects(r.next);
      assert all[1..] == rest && all[0] == a;
      if a.kind.Publishing? {
        PublishingIsInside(a, rest, autocommit);
      }
      AscendingIsManaged(r.next, autocommit, open || a.kind.Transactional?);
    }
  }

  /** With one transactional aspect of order 0 and publishing of order 1, every
      chain that is built keeps the transaction protocol in every run. */
  lemma {:induction false} BuiltChainsKeepTransactions(
      aspects: seq<Aspect>, matches: (Aspect, MethodKey) -> bool, key: MethodKey, autocommit: bool,
      env: Environment, s: State)
    requires s.trace == [] && TransactionCount(aspects) == 1
    requires forall a :: a in aspects ==> Declared(a, autocommit)
    requires forall a :: a in aspects && a.kind.Transactional? ==> matches(a, key)
    ensures var chain := ChainFor(aspects, matches, key);
            var l := Audit(Ids(chain), autocommit, Exec(env, s, chain).0.trace);
            l.Some? && l.value.stage == Free && l.value.begun == l.value.disposed + l.value.leaked
  {
    var sorted := SortDescending(aspects);
    var chain := ChainFor(aspects, matches, key);
    SmallestOrderIsOutermost(aspects, matches, key);
    SortIsStable(aspects, 0);
    forall a | a in sorted
      ensures a in aspects
    {
      assert a in multiset(sorted);
    }
    SortCounts(aspects);
    CandidatesCount(sorted, matches, key);
    WrapCounts(Method, Candidates(sorted, matches, key));
    AscendingIsManaged(chain, autocommit, false);
    TransactionsAreKept(env, s, chain, autocommit);
  }

  // ----- The proxy handler -----

  class AspectProxyHandler {
    const aspects: seq<Aspect>
    const matches: (Aspect, MethodKey) -> bool
    var cache: map<MethodKey, Runnable>
    var trace: seq<Event>
    var collected: seq<nat>
    var pending: map<nat, seq<int>>

    /** Every cached chain is the one that would be built afresh. */
    ghost predicate Valid()
      reads this
    {
      forall key :: key in cache ==> cache[key] == ChainFor(aspects, matches, key)
    }

    function Now(): State
      reads this
    {
      State(trace, collected, pending)
    }

    constructor (aspects: seq<Aspect>, matches: (Aspect, MethodKey) -> bool)
      ensures Valid() && this.aspects == aspects && this.matches == matches
      ensures Now() == State([], [], map[]) && cache == map[]
    {
      this.aspects := aspects;
      this.matches := matches;
      cache, trace, collected, pending := map[], [], [], map[];
    }

    method Log(e: Event)
      modifies this`trace
      ensures Now() == Emit(old(Now()), e)
    {
      trace := trace + [e];
    }

    method PublishAggregate(env: Environment, events: seq<int>) returns (signal: Signal)
      modifies this`trace
      ensures (Now(), signal) == PublishEvents(env, old(Now()), events)
    {
      var i := 0;
      signal := Returns;
      while i < |events|
        invariant 0 <= i <= |events| && signal == Returns
        invariant PublishEvents(env, Now(), events[i..]) == PublishEvents(env, old(Now()), events)
      {
        signal := env.hook(|trace|);
        Log(Published(events[i], signal));
        if signal.Raises? { return; }
        i := i + 1;
      }
    }

    /** The body of `after_returning` of the publishing aspect. */
    method PublishCollected(env: Environment) returns (signal: Signal)
      modifies this`trace, this`pending
      ensures (Now(), signal) == PublishAll(env, old(Now()), old(collected))
    {
      var i := 0;
      signal := Returns;
      while i < |collected|
        invariant 0 <= i <= |collected| && signal == Returns
        invariant PublishAll(env, Now(), collected[i..]) == PublishAll(env, old(Now()), collected)
      {
        signal := PublishAggregate(env, EventsOf(pending, collected[i]));
        if signal.Raises? { return; }
        pending := pending[collected[i] := []];
        i := i + 1;
      }
    }

    method DisposeTransaction(env: Environment, result: Result) returns (r: Result)
      modifies this`trace
      ensures (Now(), r) == Dispose(env, old(Now()), result)
    {
      var signal := env.hook(|trace|);
      Log(Disposed(signal));
      r := if signal.Raises? then Raised(signal.failure) else result;
    }

    method LeaveTransaction(env: Environment, autocommit: bool, result: Result) returns (r: Result)
      modifies this`trace
      ensures (Now(), r) == ExitTransaction(env, old(Now()), autocommit, result)
    {
      r := result;
      if result.Raised? {
        var signal := env.hook(|trace|);
        Log(RolledBack(signal));
        if signal.Raises? { return Raised(signal.failure); }
      } else if autocommit {
        var signal := env.hook(|trace|);
        Log(Committed(signal));
        if signal.Raises? {
          var undo := env.hook(|trace|);
          Log(RolledBack(undo));
          r := Raised(if undo.Raises? then undo.failure else signal.failure);
        }
      }
      r := DisposeTransaction(env, r);
    }

    /** The try, except and finally of an advisor once around has ended. */
    method Settle(env: Environment, a: Aspect, result: Result) returns (r: Result)
      modifies this`trace, this`collected, this`pending
      ensures (Now(), r) == Conclude(env, old(Now()), a, result)
    {
      r := result;
      Log(AroundEnded(a.id, result));
      if result.Value? {
        var signal;
        if a.kind.Publishing? { signal := PublishCollected(env); } else { signal := HookSignal(env, Now(), a.kind); }
        Log(AfterReturning(a.id, signal));
        if signal.Raises? { r := Raised(signal.failure); }
      }
      if r.Raised? && !r.failure.fatal {
        var signal := HookSignal(env, Now(), a.kind);
        Log(AfterRaising(a.id, r.failure, signal));
        if signal.Raises? { r := Raised(signal.failure); }
      }
      var signal := HookSignal(env, Now(), a.kind);
      Log(After(a.id, signal));
      if a.kind.Publishing? { collected := []; }
      if signal.Raises? { r := Raised(signal.failure); }
    }

    method Invoke(env: Environment, r: Runnable) returns (result: Result)
      modifies this`trace, this`collected, this`pending
      ensures (Now(), result) == Exec(env, old(Now()), r)
      decreases r, 1
    {
      match r
      case Method =>
        var work := env.target(|trace|);
        Log(Invoked(work.result));
        collected := collected + work.collected;
        pending := AddEvents(pending, work.raised);
        result := work.result;
      case Advisor(a, next) =>
        var signal := HookSignal(env, Now(), a.kind);
        Log(Before(a.id, signal));
        if signal.Raises? { return Raised(signal.failure); }
        result := InvokeAround(env, a, next);
        result := Settle(env, a, result);
    }

    method InvokeAround(env: Environment, a: Aspect, next: Runnable) returns (result: Result)
      modifies this`trace, this`collected, this`pending
      ensures (Now(), result) == RunAround(env, old(Now()), a, next)
      decreases next, 2
    {
      match a.kind
      case Plain =>
        var plan := env.plan(|trace|);
        var results: seq<Result> := [];
        var i := 0;
        while i < plan.calls
          invariant 0 <= i <= plan.calls
          invariant (Now(), results) == Proceed(env, old(Now()), next, i)
        {
          result := Invoke(env, next);
          results := results + [result];
          i := i + 1;
        }
        result := plan.answer(results);
      case Publishing => result := Invoke(env, next);
      case Transactional(autocommit) =>
        var signal := env.hook(|trace|);
        Log(Initialized(signal));
        if signal.Raises? { return Raised(signal.failure); }
        result := Invoke(env, next);
        result := LeaveTransaction(env, autocommit, result);
    }

    method BuildRunnable(key: MethodKey) returns (r: Runnable)
      ensures r == ChainFor(aspects, matches, key)
    {
      var candidates := Candidates(SortDescending(aspects), matches, key);
      r := Method;
      var i := 0;
      while i < |candidates|
        invariant 0 <= i <= |candidates|
        invariant Wrap(r, candidates[i..]) == Wrap(Method, candidates)
      {
        r := Advisor(candidates[i], r);
        i := i + 1;
      }
    }

    /** A call through the proxy behaves as the chain built afresh, cached or not. */
    method Call(env: Environment, key: MethodKey) returns (result: Result)
      requires Valid()
      modifies this
      ensures Valid() && cache.Keys == old(cache.Keys) + {key}
      ensures (Now(), result) == Exec(env, old(Now()), ChainFor(aspects, matches, key))
    {
      if key !in cache {
        var r := BuildRunnable(key);
        cache := cache[key := r];
      }
      result := Invoke(env, cache[key]);
    }
  }
}
