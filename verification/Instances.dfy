/** Which instances the container hands out and injects: one for each singleton
    and context pod, a new one for each use of a prototype, and every factory is
    given instances of exactly the pods that its dependencies resolved to. */
module Instances {
  import opened Wrappers
  import opened Registry
  import opened Instantiation

  const FRESH := State(map[], map[], [])

  /** Call `x` made an instance of the pod. */
  ghost predicate Made(works: nat -> bool, calls: seq<Call>, name: string, x: nat) {
    x < |calls| && calls[x].pod == name && works(x)
  }

  /** The instance that a cache holds for a pod. */
  ghost predicate Cached(g: Graph, s: State, name: string, x: nat) {
    && name in g
    && match g[name].scope
       case Singleton => name in s.singletons && s.singletons[name] == x
       case Context => name in s.context && s.context[name] == x
       case Prototype => false
  }

  ghost predicate Shareable(g: Graph, name: string) {
    name in g && !g[name].scope.Prototype?
  }

  // ----- What every request keeps -----

  /** The arguments `instances` are instances of `targets`. */
  ghost predicate Fill(works: nat -> bool, calls: seq<Call>, targets: seq<string>, instances: seq<nat>) {
    |instances| == |targets| && forall j | 0 <= j < |targets| :: Made(works, calls, targets[j], instances[j])
  }

  ghost predicate FillsWire(works: nat -> bool, calls: seq<Call>, wire: Wire, instances: seq<nat>) {
    && wire.Wire? && (wire.mandatory ==> wire.targets != [])
    && Fill(works, calls, wire.targets, instances)
  }

  ghost predicate FillAll(works: nat -> bool, calls: seq<Call>, wires: seq<Wire>, arguments: seq<seq<nat>>) {
    |arguments| == |wires| && forall i | 0 <= i < |wires| :: FillsWire(works, calls, wires[i], arguments[i])
  }

  /** Call `x` was given, for every dependency of its pod, instances of what the
      dependency resolved to, all made before. */
  ghost predicate WellCalled(g: Graph, works: nat -> bool, calls: seq<Call>, x: nat)
    requires x < |calls|
  {
    calls[x].pod in g && FillAll(works, calls[..x], g[calls[x].pod].wires, calls[x].arguments)
  }

  /** Only instances of singletons and context pods are cached, each in its own
      cache; each such pod has at most the one that is cached; and every call
      was given what it should. */
  ghost predicate Sound(g: Graph, works: nat -> bool, s: State) {
    && (forall n | n in s.singletons :: Cached(g, s, n, s.singletons[n]) && Made(works, s.calls, n, s.singletons[n]))
    && (forall n | n in s.context :: Cached(g, s, n, s.context[n]) && Made(works, s.calls, n, s.context[n]))
    && (forall x | 0 <= x < |s.calls| :: WellCalled(g, works, s.calls, x))
    && (forall x | 0 <= x < |s.calls| && works(x) && Shareable(g, s.calls[x].pod) :: Cached(g, s, s.calls[x].pod, x))
  }

  ghost predicate Keeps(m: map<string, nat>, m1: map<string, nat>) {
    forall n | n in m :: n in m1 && m1[n] == m[n]
  }

  /** Nothing cached is rebound and no call forgotten, and while pods of some
      types are under construction none of those is cached. */
  ghost predicate Grows(g: Graph, s: State, s1: State, hierarchy: seq<Type>) {
    && s.calls <= s1.calls && Keeps(s.singletons, s1.singletons) && Keeps(s.context, s1.context)
    && (forall n | n in s1.singletons && n in g && g[n].type_ in hierarchy :: n in s.singletons)
    && (forall n | n in s1.context && n in g && g[n].type_ in hierarchy :: n in s.context)
  }

  lemma {:induction false} GrowsOn(
      g: Graph, s: State, s1: State, s2: State, hierarchy: seq<Type>, longer: seq<Type>)
    requires Grows(g, s, s1, hierarchy) && Grows(g, s1, s2, longer) && forall t :: t in hierarchy ==> t in longer
    ensures Grows(g, s, s2, hierarchy)
  {
  }

  lemma {:induction false} MadeStays(works: nat -> bool, calls: seq<Call>, later: seq<Call>, name: string, x: nat)
    requires Made(works, calls, name, x) && calls <= later
    ensures Made(works, later, name, x)
  {
  }

  lemma {:induction false} FillStays(
      works: nat -> bool, calls: seq<Call>, later: seq<Call>, targets: seq<string>, instances: seq<nat>)
    requires Fill(works, calls, targets, instances) && calls <= later
    ensures Fill(works, later, targets, instances)
  {
  }

  /** A pod that was built with sound arguments is cached as its scope says. */
  lemma {:induction false} BuildKeeps(g: Graph, works: nat -> bool, s: State, call: Call)
    requires Sound(g, works, s) && call.pod in g && FillAll(works, s.calls, g[call.pod].wires, call.arguments)
    requires call.pod !in s.singletons && call.pod !in s.context
    ensures var (s1, result) := Build(works, s, call);
            var s2 := if result.Ok? then Store(s1, g[call.pod].scope, call.pod, result.instance) else s1;
            && Sound(g, works, s2) && s.calls <= s2.calls
            && Keeps(s.singletons, s2.singletons) && Keeps(s.context, s2.context)
            && (result.Ok? ==> Made(works, s2.calls, call.pod, result.instance) && result.instance == |s.calls|)
            && (result.Ok? && Shareable(g, call.pod) ==> Cached(g, s2, call.pod, result.instance))
  {
    var (s1, result) := Build(works, s, call);
    CallsStayGood(g, works, s, call);
    var s2 := if result.Ok? then Store(s1, g[call.pod].scope, call.pod, result.instance) else s1;
    StoreKeeps(g, works, s, call, s2);
  }

  lemma {:induction false} CallsStayGood(g: Graph, works: nat -> bool, s: State, call: Call)
    requires Sound(g, works, s) && call.pod in g && FillAll(works, s.calls, g[call.pod].wires, call.arguments)
    ensures var calls := s.calls + [call]; forall x | 0 <= x < |calls| :: WellCalled(g, works, calls, x)
  {
    var calls := s.calls + [call];
    forall x | 0 <= x < |calls|
      ensures WellCalled(g, works, calls, x)
    {
      if x < |s.calls| {
        assert WellCalled(g, works, s.calls, x) && calls[..x] == s.calls[..x];
      } else {
        assert calls[..x] == s.calls;
      }
    }
  }

  lemma {:induction false} StoreKeeps(g: Graph, works: nat -> bool, s: State, call: Call, s2: State)
    requires Sound(g, works, s) && call.pod in g && call.pod !in s.singletons && call.pod !in s.context
    requires var s1 := s.(calls := s.calls + [call]);
             s2 == if works(|s.calls|) then Store(s1, g[call.pod].scope, call.pod, |s.calls|) else s1
    requires forall x | 0 <= x < |s2.calls| :: WellCalled(g, works, s2.calls, x)
    ensures Sound(g, works, s2)
  {
    forall x | 0 <= x < |s2.calls| && works(x) && Shareable(g, s2.calls[x].pod)
      ensures Cached(g, s2, s2.calls[x].pod, x)
    {
      if x < |s.calls| {
        assert s2.calls[x] == s.calls[x];
        assert Cached(g, s, s.calls[x].pod, x);
      }
    }
  }

  /** What a request for a pod does: nothing but grow, and answer with an
      instance of that pod; the cached one if there is one, a new one if not. */
  ghost predicate Answers(g: Graph, works: nat -> bool, s: State, s1: State, name: string, result: Result) {
    result.Ok? ==>
      && Made(works, s1.calls, name, result.instance)
      && (Shareable(g, name) ==> Cached(g, s1, name, result.instance))
      && (Cached(g, s, name, result.instance) ==> s1 == s)
      && (!Cached(g, s, name, result.instance) ==>
            result.instance >= |s.calls| && result.instance == |s1.calls| - 1)
  }

  lemma {:induction false} GetAnswers(g: Graph, works: nat -> bool, s: State, name: string, hierarchy: seq<Type>)
    requires Closed(g) && name in g && Sound(g, works, s)
    ensures var (s1, result) := Get(g, works, s, name, hierarchy);
            && Sound(g, works, s1) && Grows(g, s, s1, hierarchy) && Answers(g, works, s, s1, name, result)
    decreases Unvisited(g, hierarchy), 1, 0
  {
    var scope := g[name].scope;
    if scope.Singleton? && name in s.singletons {
      assert Cached(g, s, name, s.singletons[name]);
    } else if scope.Context? && name in s.context {
      assert Cached(g, s, name, s.context[name]);
    } else {
      InstantiateAnswers(g, works, s, name, hierarchy);
    }
  }

  lemma {:induction false} InstantiateAnswers(
      g: Graph, works: nat -> bool, s: State, name: string, hierarchy: seq<Type>)
    requires Closed(g) && name in g && Sound(g, works, s) && name !in s.singletons && name !in s.context
    ensures var (s0, result) := Instantiate(g, works, s, name, hierarchy);
            var s1 := if result.Ok? then Store(s0, g[name].scope, name, result.instance) else s0;
            && Sound(g, works, s1) && Grows(g, s, s1, hierarchy) && Answers(g, works, s, s1, name, result)
    decreases Unvisited(g, hierarchy), 0, 0
  {
    var t := g[name].type_;
    if t !in hierarchy {
      VisitShrinks(g, hierarchy, t);
      var longer := hierarchy + [t];
      InjectAnswers(g, works, s, g[name].wires, longer);
      var (s1, failure, arguments) := Inject(g, works, s, g[name].wires, longer);
      if failure.None? {
        BuildKeeps(g, works, s1, Call(name, arguments));
      }
    }
  }

  lemma {:induction false} InjectAnswers(
      g: Graph, works: nat -> bool, s: State, wires: seq<Wire>, hierarchy: seq<Type>)
    requires Closed(g) && WiresClosed(g, wires) && Sound(g, works, s)
    ensures var (s1, failure, arguments) := Inject(g, works, s, wires, hierarchy);
            && Sound(g, works, s1) && Grows(g, s, s1, hierarchy)
            && (failure.None? ==> FillAll(works, s1.calls, wires, arguments))
    decreases Unvisited(g, hierarchy), 3, |wires|
  {
    if wires != [] && wires[0].Wire? && (wires[0].targets != [] || !wires[0].mandatory) {
      GetAllAnswers(g, works, s, wires[0].targets, hierarchy);
      var (s1, failure, instances) := GetAll(g, works, s, wires[0].targets, hierarchy);
      if failure.None? {
        InjectAnswers(g, works, s1, wires[1..], hierarchy);
        var (s2, end, rest) := Inject(g, works, s1, wires[1..], hierarchy);
        GrowsOn(g, s, s1, s2, hierarchy, hierarchy);
        FillStays(works, s1.calls, s2.calls, wires[0].targets, instances);
        if end.None? {
          FilledOneMore(works, s2.calls, wires, [instances] + rest);
        }
      }
    }
  }

  lemma {:induction false} FilledOneMore(
      works: nat -> bool, calls: seq<Call>, wires: seq<Wire>, arguments: seq<seq<nat>>)
    requires wires != [] && |arguments| == |wires| && FillsWire(works, calls, wires[0], arguments[0])
    requires FillAll(works, calls, wires[1..], arguments[1..])
    ensures FillAll(works, calls, wires, arguments)
  {
    forall i | 0 <= i < |wires|
      ensures FillsWire(works, calls, wires[i], arguments[i])
    {
      if i > 0 {
        assert FillsWire(works, calls, wires[1..][i - 1], arguments[1..][i - 1]);
      }
    }
  }

  lemma {:induction false} GetAllAnswers(
      g: Graph, works: nat -> bool, s: State, targets: seq<string>, hierarchy: seq<Type>)
    requires Closed(g) && TargetsKnown(g, targets) && Sound(g, works, s)
    ensures var (s1, failure, instances) := GetAll(g, works, s, targets, hierarchy);
            && Sound(g, works, s1) && Grows(g, s, s1, hierarchy)
            && (failure.None? ==> Fill(works, s1.calls, targets, instances))
    decreases Unvisited(g, hierarchy), 2, |targets|
  {
    if targets != [] {
      GetAnswers(g, works, s, targets[0], hierarchy);
      var (s1, result) := Get(g, works, s, targets[0], hierarchy);
      if result.Ok? {
        GetAllAnswers(g, works, s1, targets[1..], hierarchy);
        var (s2, end, rest) := GetAll(g, works, s1, targets[1..], hierarchy);
        GrowsOn(g, s, s1, s2, hierarchy, hierarchy);
        MadeStays(works, s1.calls, s2.calls, targets[0], result.instance);
      }
    }
  }

  // ----- Prototype instances are never shared -----

  /** How often an instance is among the arguments of a call. */
  function Occurs(arguments: seq<seq<nat>>, y: nat): nat {
    if arguments == [] then 0 else multiset(arguments[0])[y] + Occurs(arguments[1..], y)
  }

  /** How often it was injected anywhere. */
  function Uses(calls: seq<Call>, y: nat): nat {
    if calls == [] then 0
    else Uses(calls[..|calls| - 1], y) + Occurs(calls[|calls| - 1].arguments, y)
  }

  ghost predicate OfPrototype(g: Graph, calls: seq<Call>, y: nat) {
    y < |calls| && calls[y].pod in g && g[calls[y].pod].scope.Prototype?
  }

  /** Every prototype instance was injected or handed out at most once, counting
      those held to be handed out. */
  ghost predicate Unshared(g: Graph, calls: seq<Call>, held: multiset<nat>) {
    && (forall y | y in held :: y < |calls|)
    && (forall y: nat | OfPrototype(g, calls, y) :: Uses(calls, y) + held[y] <= 1)
  }

  lemma {:induction false} OccursOnlyFilled(
      works: nat -> bool, calls: seq<Call>, wires: seq<Wire>, arguments: seq<seq<nat>>, y: nat)
    requires FillAll(works, calls, wires, arguments) && y >= |calls|
    ensures Occurs(arguments, y) == 0
    decreases |arguments|
  {
    if arguments != [] {
      assert FillsWire(works, calls, wires[0], arguments[0]);
      assert forall j | 0 <= j < |arguments[0]| :: Made(works, calls, wires[0].targets[j], arguments[0][j]);
      forall i | 0 <= i < |wires[1..]|
        ensures FillsWire(works, calls, wires[1..][i], arguments[1..][i])
      {
        assert FillsWire(works, calls, wires[i + 1], arguments[i + 1]);
      }
      OccursOnlyFilled(works, calls, wires[1..], arguments[1..], y);
    }
  }

  /** What is not made yet is not injected anywhere. */
  lemma {:induction false} UsedOnlyAfterwards(g: Graph, works: nat -> bool, calls: seq<Call>, y: nat)
    requires forall x | 0 <= x < |calls| :: WellCalled(g, works, calls, x)
    requires y >= |calls|
    ensures Uses(calls, y) == 0
    decreases |calls|
  {
    if calls != [] {
      var n := |calls| - 1;
      assert WellCalled(g, works, calls, n);
      OccursOnlyFilled(works, calls[..n], g[calls[n].pod].wires, calls[n].arguments, y);
      forall x | 0 <= x < n
        ensures WellCalled(g, works, calls[..n], x)
      {
        assert WellCalled(g, works, calls, x) && calls[..n][..x] == calls[..x];
      }
      UsedOnlyAfterwards(g, works, calls[..n], y);
    }
  }

  function Sum(arguments: seq<seq<nat>>): multiset<nat> {
    if arguments == [] then multiset{} else multiset(arguments[0]) + Sum(arguments[1..])
  }

  lemma {:induction false} SumCounts(arguments: seq<seq<nat>>, y: nat)
    ensures Sum(arguments)[y] == Occurs(arguments, y)
    decreases |arguments|
  {
    if arguments != [] {
      SumCounts(arguments[1..], y);
    }
  }

  /** Building moves the arguments from what is held to what is injected, and
      the new instance may be held. */
  lemma {:induction false} BuildUnshared(
      g: Graph, works: nat -> bool, calls: seq<Call>, call: Call, held: multiset<nat>, wires: seq<Wire>)
    requires forall x | 0 <= x < |calls| :: WellCalled(g, works, calls, x)
    requires FillAll(works, calls, wires, call.arguments)
    requires Unshared(g, calls, held + Sum(call.arguments))
    ensures Unshared(g, calls + [call], held) && Unshared(g, calls + [call], held + multiset{|calls|})
  {
    var later := calls + [call];
    assert later[..|calls|] == calls;
    forall y: nat | OfPrototype(g, later, y)
      ensures Uses(later, y) + held[y] + multiset{|calls|}[y] <= 1
    {
      SumCounts(call.arguments, y);
      if y == |calls| {
        UsedOnlyAfterwards(g, works, calls, y);
        OccursOnlyFilled(works, calls, wires, call.arguments, y);
        assert y !in held + Sum(call.arguments) ==> y !in held;
      } else {
        assert OfPrototype(g, calls, y);
      }
    }
    forall y | y in held
      ensures y < |later|
    {
      assert y in held + Sum(call.arguments);
    }
  }

  lemma {:induction false} HoldOneMore(g: Graph, calls: seq<Call>, held: multiset<nat>, x: nat)
    requires Unshared(g, calls, held) && x < |calls| && !OfPrototype(g, calls, x)
    ensures Unshared(g, calls, held + multiset{x})
  {
  }

  lemma {:induction false} GetUnshared(
      g: Graph, works: nat -> bool, s: State, name: string, hierarchy: seq<Type>, held: multiset<nat>)
    requires Closed(g) && name in g && Sound(g, works, s) && Unshared(g, s.calls, held)
    ensures var (s1, result) := Get(g, works, s, name, hierarchy);
            Unshared(g, s1.calls, if result.Ok? then held + multiset{result.instance} else held)
    decreases Unvisited(g, hierarchy), 1, 0
  {
    var scope := g[name].scope;
    if scope.Singleton? && name in s.singletons {
      HoldOneMore(g, s.calls, held, s.singletons[name]);
    } else if scope.Context? && name in s.context {
      HoldOneMore(g, s.calls, held, s.context[name]);
    } else {
      InstantiateUnshared(g, works, s, name, hierarchy, held);
    }
  }

  lemma {:induction false} InstantiateUnshared(
      g: Graph, works: nat -> bool, s: State, name: string, hierarchy: seq<Type>, held: multiset<nat>)
    requires Closed(g) && name in g && Sound(g, works, s) && Unshared(g, s.calls, held)
    ensures var (s1, result) := Instantiate(g, works, s, name, hierarchy);
            Unshared(g, s1.calls, if result.Ok? then held + multiset{result.instance} else held)
    decreases Unvisited(g, hierarchy), 0, 0
  {
    var t := g[name].type_;
    if t !in hierarchy {
      VisitShrinks(g, hierarchy, t);
      var wires, longer := g[name].wires, hierarchy + [t];
      InjectAnswers(g, works, s, wires, longer);
      InjectUnshared(g, works, s, wires, longer, held);
      var (s1, failure, arguments) := Inject(g, works, s, wires, longer);
      if failure.None? {
        BuildUnshared(g, works, s1.calls, Call(name, arguments), held, wires);
      }
    }
  }

  lemma {:induction false} InjectUnshared(
      g: Graph, works: nat -> bool, s: State, wires: seq<Wire>, hierarchy: seq<Type>, held: multiset<nat>)
    requires Closed(g) && WiresClosed(g, wires) && Sound(g, works, s) && Unshared(g, s.calls, held)
    ensures var (s1, failure, arguments) := Inject(g, works, s, wires, hierarchy);
            Unshared(g, s1.calls, if failure.None? then held + Sum(arguments) else held)
    decreases Unvisited(g, hierarchy), 3, |wires|
  {
    if wires == [] {
      assert held + Sum([]) == held;
    } else if wires[0].Wire? && (wires[0].targets != [] || !wires[0].mandatory) {
      GetAllAnswers(g, works, s, wires[0].targets, hierarchy);
      GetAllUnshared(g, works, s, wires[0].targets, hierarchy, held);
      var (s1, failure, instances) := GetAll(g, works, s, wires[0].targets, hierarchy);
      if failure.None? {
        InjectUnshared(g, works, s1, wires[1..], hierarchy, held + multiset(instances));
        var (s2, end, rest) := Inject(g, works, s1, wires[1..], hierarchy);
        if end.None? {
          SumMore(held, instances, rest);
        } else {
          HoldLess(g, s2.calls, held, multiset(instances));
        }
      }
    }
  }

  lemma {:induction false} SumMore(held: multiset<nat>, instances: seq<nat>, rest: seq<seq<nat>>)
    ensures held + multiset(instances) + Sum(rest) == held + Sum([instances] + rest)
  {
    assert ([instances] + rest)[1..] == rest;
  }

  lemma {:induction false} HoldLess(g: Graph, calls: seq<Call>, held: multiset<nat>, dropped: multiset<nat>)
    requires Unshared(g, calls, held + dropped)
    ensures Unshared(g, calls, held)
  {
    forall y | y in held
      ensures y < |calls|
    {
      assert y in held + dropped;
    }
  }

  lemma {:induction false} GetAllUnshared(
      g: Graph, works: nat -> bool, s: State, targets: seq<string>, hierarchy: seq<Type>, held: multiset<nat>)
    requires Closed(g) && TargetsKnown(g, targets) && Sound(g, works, s) && Unshared(g, s.calls, held)
    ensures var (s1, failure, instances) := GetAll(g, works, s, targets, hierarchy);
            Unshared(g, s1.calls, if failure.None? then held + multiset(instances) else held)
    decreases Unvisited(g, hierarchy), 2, |targets|
  {
    if targets == [] {
      assert held + multiset([]) == held;
    } else {
      GetAnswers(g, works, s, targets[0], hierarchy);
      GetUnshared(g, works, s, targets[0], hierarchy, held);
      var (s1, result) := Get(g, works, s, targets[0], hierarchy);
      if result.Ok? {
        var more := held + multiset{result.instance};
        GetAllUnshared(g, works, s1, targets[1..], hierarchy, more);
        var (s2, end, rest) := GetAll(g, works, s1, targets[1..], hierarchy);
        if end.None? {
          assert multiset([result.instance] + rest) == multiset{result.instance} + multiset(rest);
          assert more + multiset(rest) == held + multiset([result.instance] + rest);
        } else {
          HoldLess(g, s2.calls, held, multiset{result.instance});
        }
      }
    }
  }

  // ----- Any sequence of requests -----

  /** The state after the first `n` of some requests. */
  ghost function After(g: Graph, works: nat -> bool, names: seq<string>, n: nat): State
    requires Closed(g) && TargetsKnown(g, names) && n <= |names|
  {
    if n == 0 then FRESH else Get(g, works, After(g, works, names, n - 1), names[n - 1], []).0
  }

  /** What request `i` answers. */
  ghost function Answer(g: Graph, works: nat -> bool, names: seq<string>, i: nat): Result
    requires Closed(g) && TargetsKnown(g, names) && i < |names|
  {
    Get(g, works, After(g, works, names, i), names[i], []).1
  }

  /** The instances handed out by the first `n` requests. */
  ghost function HandedOut(g: Graph, works: nat -> bool, names: seq<string>, n: nat): multiset<nat>
    requires Closed(g) && TargetsKnown(g, names) && n <= |names|
  {
    if n == 0 then multiset{}
    else
      var out, answer := HandedOut(g, works, names, n - 1), Answer(g, works, names, n - 1);
      if answer.Ok? then out + multiset{answer.instance} else out
  }

  lemma {:induction false} FreshIsSound(g: Graph, works: nat -> bool)
    ensures Sound(g, works, FRESH) && Unshared(g, FRESH.calls, multiset{})
  {
  }

  lemma {:induction false} RequestsKeep(g: Graph, works: nat -> bool, names: seq<string>, n: nat)
    requires Closed(g) && TargetsKnown(g, names) && n <= |names|
    ensures var s := After(g, works, names, n);
            Sound(g, works, s) && Unshared(g, s.calls, HandedOut(g, works, names, n))
    decreases n
  {
    if n == 0 {
      FreshIsSound(g, works);
    } else {
      RequestsKeep(g, works, names, n - 1);
      var s := After(g, works, names, n - 1);
      GetAnswers(g, works, s, names[n - 1], []);
      GetUnshared(g, works, s, names[n - 1], [], HandedOut(g, works, names, n - 1));
    }
  }

  lemma {:induction false} RequestsGrow(g: Graph, works: nat -> bool, names: seq<string>, m: nat, n: nat)
    requires Closed(g) && TargetsKnown(g, names) && m <= n <= |names|
    ensures Grows(g, After(g, works, names, m), After(g, works, names, n), [])
    decreases n
  {
    if m < n {
      RequestsGrow(g, works, names, m, n - 1);
      RequestsKeep(g, works, names, n - 1);
      var s := After(g, works, names, n - 1);
      GetAnswers(g, works, s, names[n - 1], []);
      GrowsOn(g, After(g, works, names, m), s, After(g, works, names, n), [], []);
    }
  }

  /** What one request answers is, as long as the container lives, made by one
      call for that pod. */
  lemma {:induction false} AnswerIsMade(g: Graph, works: nat -> bool, names: seq<string>, i: nat, n: nat)
    requires Closed(g) && TargetsKnown(g, names) && i < n <= |names| && Answer(g, works, names, i).Ok?
    ensures var (s, x) := (After(g, works, names, n), Answer(g, works, names, i).instance);
            Made(works, s.calls, names[i], x) && (Shareable(g, names[i]) ==> Cached(g, s, names[i], x))
  {
    RequestsKeep(g, works, names, i);
    GetAnswers(g, works, After(g, works, names, i), names[i], []);
    RequestsGrow(g, works, names, i + 1, n);
    var x := Answer(g, works, names, i).instance;
    AnswerStays(g, works, After(g, works, names, i + 1), After(g, works, names, n), names[i], x);
  }

  lemma {:induction false} AnswerStays(g: Graph, works: nat -> bool, s: State, s1: State, name: string, x: nat)
    requires Grows(g, s, s1, []) && Made(works, s.calls, name, x)
    ensures Made(works, s1.calls, name, x) && (Cached(g, s, name, x) ==> Cached(g, s1, name, x))
  {
  }

  /** Whatever is requested in between: once a singleton or context pod was
      obtained, every later request for it answers the same instance and calls
      no factory.  Any other two answers are different instances. */
  lemma {:induction false} SameInstanceIffSamePod(
      g: Graph, works: nat -> bool, names: seq<string>, i: nat, j: nat)
    requires Closed(g) && TargetsKnown(g, names) && i < j < |names| && Answer(g, works, names, i).Ok?
    ensures var (a, b) := (Answer(g, works, names, i), Answer(g, works, names, j));
            && (names[i] == names[j] && Shareable(g, names[i]) ==>
                  b == a && After(g, works, names, j + 1) == After(g, works, names, j))
            && (b.Ok? && b.instance == a.instance ==> names[i] == names[j] && Shareable(g, names[i]))
  {
    AnswerIsMade(g, works, names, i, j);
    RequestsKeep(g, works, names, j);
    var s := After(g, works, names, j);
    GetAnswers(g, works, s, names[j], []);
    RequestsGrow(g, works, names, j, j + 1);
  }

  /** After any requests, every factory call, successful or not, was given for
      each dependency instances of exactly the pods it resolved to, in order: of
      a singleton or context pod the one instance that is cached, of a prototype
      one that nobody else was given, neither a factory nor a caller. */
  lemma {:induction false} EveryCallIsWired(
      g: Graph, works: nat -> bool, names: seq<string>, n: nat, x: nat, i: nat, j: nat)
    requires Closed(g) && TargetsKnown(g, names) && n <= |names| && x < |After(g, works, names, n).calls|
    ensures var s := After(g, works, names, n);
            var call := s.calls[x];
            && call.pod in g && |call.arguments| == |g[call.pod].wires|
            && (i < |call.arguments| ==>
                  var wire := g[call.pod].wires[i];
                  && wire.Wire? && |call.arguments[i]| == |wire.targets| && (wire.mandatory ==> wire.targets != [])
                  && (j < |wire.targets| ==>
                        var y := call.arguments[i][j];
                        && y < x && s.calls[y].pod == wire.targets[j] && works(y)
                        && (Shareable(g, wire.targets[j]) ==> Cached(g, s, wire.targets[j], y))
                        && (!Shareable(g, wire.targets[j]) ==>
                              Uses(s.calls, y) == 1 && y !in HandedOut(g, works, names, n))))
  {
    RequestsKeep(g, works, names, n);
    var s := After(g, works, names, n);
    var call := s.calls[x];
    assert WellCalled(g, works, s.calls, x);
    if i < |call.arguments| {
      var wire := g[call.pod].wires[i];
      assert FillsWire(works, s.calls[..x], wire, call.arguments[i]);
      if j < |wire.targets| {
        var y := call.arguments[i][j];
        assert Made(works, s.calls[..x], wire.targets[j], y);
        UsedWhereInjected(s.calls, x, i, j);
      }
    }
  }

  lemma {:induction false} OccursWhereGiven(arguments: seq<seq<nat>>, i: nat, j: nat)
    requires i < |arguments| && j < |arguments[i]|
    ensures Occurs(arguments, arguments[i][j]) >= 1
    decreases i
  {
    if i == 0 {
      assert arguments[0][j] in multiset(arguments[0]);
    } else {
      OccursWhereGiven(arguments[1..], i - 1, j);
    }
  }

  lemma {:induction false} UsedWhereInjected(calls: seq<Call>, x: nat, i: nat, j: nat)
    requires x < |calls| && i < |calls[x].arguments| && j < |calls[x].arguments[i]|
    ensures Uses(calls, calls[x].arguments[i][j]) >= 1
    decreases |calls|
  {
    var n := |calls| - 1;
    if x == n {
      OccursWhereGiven(calls[n].arguments, i, j);
    } else {
      UsedWhereInjected(calls[..n], x, i, j);
    }
  }
}
