/** Recursive instantiation of pods with cycle detection
    (core/spakky/src/spakky/core/application/application_context.py).

    Candidate resolution depends only on the registry, so a pod's dependencies
    are given as wires to registered pods; `BuildGraph` derives them from a
    registry.  Factories and post-processors succeed or fail as the environment
    says. */
module Instantiation {
  import opened Wrappers
  import opened Registry

  /** One dependency after candidate resolution: the pods to inject (at most
      one unless it is a collection), or a resolution error. */
  datatype Wire = Wire(targets: seq<string>, mandatory: bool) | Unresolvable

  datatype Node = Node(type_: Type, scope: Scope, wires: seq<Wire>)

  type Graph = map<string, Node>

  /** Resolution only ever picks registered pods. */
  ghost predicate Closed(g: Graph) {
    forall name | name in g :: WiresClosed(g, g[name].wires)
  }

  ghost predicate WiresClosed(g: Graph, wires: seq<Wire>) {
    forall i | 0 <= i < |wires| && wires[i].Wire? :: TargetsKnown(g, wires[i].targets)
  }

  ghost predicate TargetsKnown(g: Graph, targets: seq<string>) {
    forall j | 0 <= j < |targets| :: targets[j] in g
  }

  datatype Error = Circular(path: seq<Type>) | ResolutionFailed | DependencyMissing | FactoryFailed

  datatype Result = Ok(instance: nat) | Err(error: Error)

  /** A factory call: for which pod, and for each dependency in order the
      instances it was given. */
  datatype Call = Call(pod: string, arguments: seq<seq<nat>>)

  /** Caches and the factory calls so far; an instance is the number of the call
      that made it. */
  datatype State = State(singletons: map<string, nat>, context: map<string, nat>, calls: seq<Call>)

  // ----- Termination measure -----

  ghost function TypesOf(g: Graph): set<Type> {
    set name | name in g :: g[name].type_
  }

  ghost function Unvisited(g: Graph, hierarchy: seq<Type>): set<Type> {
    TypesOf(g) - set t | t in hierarchy
  }

  lemma {:induction false} VisitShrinks(g: Graph, hierarchy: seq<Type>, t: Type)
    requires t in TypesOf(g) && t !in hierarchy
    ensures Unvisited(g, hierarchy + [t]) < Unvisited(g, hierarchy)
  {
    assert t in Unvisited(g, hierarchy);
  }

  // ----- The specification -----

  ghost function Get(g: Graph, works: nat -> bool, s: State, name: string, hierarchy: seq<Type>): (State, Result)
    requires Closed(g) && name in g
    decreases Unvisited(g, hierarchy), 1, 0
  {
    var scope := g[name].scope;
    if scope.Singleton? && name in s.singletons then (s, Ok(s.singletons[name]))
    else if scope.Context? && name in s.context then (s, Ok(s.context[name]))
    else
      var (s1, result) := Instantiate(g, works, s, name, hierarchy);
      (if result.Ok? then Store(s1, scope, name, result.instance) else s1, result)
  }

  function Store(s: State, scope: Scope, name: string, instance: nat): State {
    match scope
    case Singleton => s.(singletons := s.singletons[name := instance])
    case Context => s.(context := s.context[name := instance])
    case Prototype => s
  }

  ghost function Instantiate(
      g: Graph, works: nat -> bool, s: State, name: string, hierarchy: seq<Type>): (State, Result)
    requires Closed(g) && name in g
    decreases Unvisited(g, hierarchy), 0, 0
  {
    var t := g[name].type_;
    if t in hierarchy then (s, Err(Circular(hierarchy + [t])))
    else
      VisitShrinks(g, hierarchy, t);
      var (s1, failure, arguments) := Inject(g, works, s, g[name].wires, hierarchy + [t]);
      if failure.Some? then (s1, Err(failure.value)) else Build(works, s1, Call(name, arguments))
  }

  /** Call the factory and post-process what it made. */
  function Build(works: nat -> bool, s: State, call: Call): (State, Result) {
    (s.(calls := s.calls + [call]), if works(|s.calls|) then Ok(|s.calls|) else Err(FactoryFailed))
  }

  /** Resolve the dependencies in order, up to the first failure. */
  ghost function Inject(
      g: Graph, works: nat -> bool, s: State, wires: seq<Wire>, hierarchy: seq<Type>)
      : (r: (State, Option<Error>, seq<seq<nat>>))
    requires Closed(g) && WiresClosed(g, wires)
    ensures |r.2| == if r.1.Some? then 0 else |wires|
    decreases Unvisited(g, hierarchy), 3, |wires|
  {
    if wires == [] then (s, None, [])
    else if wires[0].Unresolvable? then (s, Some(ResolutionFailed), [])
    else if wires[0].targets == [] && wires[0].mandatory then (s, Some(DependencyMissing), [])
    else
      var (s1, failure, instances) := GetAll(g, works, s, wires[0].targets, hierarchy);
      if failure.Some? then (s1, failure, [])
      else
        var (s2, end, rest) := Inject(g, works, s1, wires[1..], hierarchy);
        (s2, end, if end.Some? then [] else [instances] + rest)
  }

  ghost function GetAll(
      g: Graph, works: nat -> bool, s: State, targets: seq<string>, hierarchy: seq<Type>)
      : (r: (State, Option<Error>, seq<nat>))
    requires Closed(g) && TargetsKnown(g, targets)
    ensures |r.2| == if r.1.Some? then 0 else |targets|
    decreases Unvisited(g, hierarchy), 2, |targets|
  {
    if targets == [] then (s, None, [])
    else
      var (s1, result) := Get(g, works, s, targets[0], hierarchy);
      if result.Err? then (s1, Some(result.error), [])
      else
        var (s2, end, rest) := GetAll(g, works, s1, targets[1..], hierarchy);
        (s2, end, if end.Some? then [] else [result.instance] + rest)
  }

  // ----- Dependency paths -----

  ghost predicate DependsOn(g: Graph, a: string, b: string) {
    a in g && exists i | 0 <= i < |g[a].wires| :: g[a].wires[i].Wire? && b in g[a].wires[i].targets
  }

  ghost predicate IsPath(g: Graph, path: seq<string>) {
    && (forall i | 0 <= i < |path| :: path[i] in g)
    && (forall i | 0 <= i < |path| - 1 :: DependsOn(g, path[i], path[i + 1]))
  }

  /** A pod from which some dependency path comes back to where it was. */
  ghost predicate ReachesCycle(g: Graph, name: string) {
    exists path: seq<string>, i, j ::
      IsPath(g, path) && 0 <= i < j < |path| && path[0] == name && path[i] == path[j]
  }

  /** Every dependency path from a pod has fewer than `n` pods after it. */
  ghost predicate GroundedIn(g: Graph, name: string, n: nat)
    decreases n
  {
    n > 0 && forall b | DependsOn(g, name, b) :: GroundedIn(g, b, n - 1)
  }

  /** A pod all of whose dependency paths end. */
  ghost predicate Grounded(g: Graph, name: string) {
    exists n: nat :: GroundedIn(g, name, n)
  }

  lemma {:induction false} GroundedLater(g: Graph, name: string, n: nat, m: nat)
    requires GroundedIn(g, name, n) && n <= m
    ensures GroundedIn(g, name, m)
    decreases n
  {
    forall b | DependsOn(g, name, b)
      ensures GroundedIn(g, b, m - 1)
    {
      GroundedLater(g, b, n - 1, m - 1);
    }
  }

  lemma {:induction false} CommonBound(g: Graph, pods: set<string>) returns (n: nat)
    requires forall b | b in pods :: Grounded(g, b)
    ensures forall b | b in pods :: GroundedIn(g, b, n)
    decreases |pods|
  {
    if pods == {} {
      n := 0;
    } else {
      var a :| a in pods;
      var k: nat :| GroundedIn(g, a, k);
      var m := CommonBound(g, pods - {a});
      n := if k <= m then m else k;
      forall b | b in pods
        ensures GroundedIn(g, b, n)
      {
        if b == a {
          GroundedLater(g, a, k, n);
        } else {
          GroundedLater(g, b, m, n);
        }
      }
    }
  }

  /** A pod whose dependencies are grounded is grounded. */
  lemma {:induction false} GroundedFromBelow(g: Graph, name: string)
    requires Closed(g) && name in g && forall b | DependsOn(g, name, b) :: Grounded(g, b)
    ensures Grounded(g, name)
  {
    var below := set b | b in g && DependsOn(g, name, b);
    var n := CommonBound(g, below);
    forall b | DependsOn(g, name, b)
      ensures GroundedIn(g, b, n)
    {
      assert b in below;
    }
    assert GroundedIn(g, name, n + 1);
  }

  /** A cycle reached from a pod is reached from one of its dependencies. */
  lemma {:induction false} CycleMovesOn(g: Graph, name: string) returns (next: string)
    requires ReachesCycle(g, name)
    ensures DependsOn(g, name, next) && ReachesCycle(g, next)
  {
    var path: seq<string>, i, j :|
      IsPath(g, path) && 0 <= i < j < |path| && path[0] == name && path[i] == path[j];
    next := path[1];
    assert DependsOn(g, path[0], path[0 + 1]);
    if i > 0 {
      var rest := path[1..];
      forall k | 0 <= k < |rest| - 1
        ensures DependsOn(g, rest[k], rest[k + 1])
      {
        assert rest[k] == path[k + 1] && rest[k + 1] == path[k + 1 + 1];
      }
      assert IsPath(g, rest) && rest[i - 1] == rest[j - 1] && rest[0] == next;
    } else {
      var loop := path[1..j + 1] + [next];
      forall k | 0 <= k < |loop| - 1
        ensures DependsOn(g, loop[k], loop[k + 1])
      {
        if k < j - 1 {
          assert loop[k] == path[k + 1] && loop[k + 1] == path[k + 1 + 1];
        } else {
          assert loop[k] == path[j] == name && loop[k + 1] == next;
        }
      }
      assert IsPath(g, loop) && loop[0] == loop[j] == next;
    }
  }

  lemma {:induction false} GroundedAvoidsCycles(g: Graph, name: string, n: nat)
    requires GroundedIn(g, name, n)
    ensures !ReachesCycle(g, name)
    decreases n
  {
    if ReachesCycle(g, name) {
      var next := CycleMovesOn(g, name);
      GroundedAvoidsCycles(g, next, n - 1);
    }
  }

  // ----- Only grounded pods are ever built or cached -----

  /** Every cached pod is grounded. */
  ghost predicate CachesGrounded(g: Graph, s: State) {
    && (forall n | n in s.singletons :: Grounded(g, n))
    && (forall n | n in s.context :: Grounded(g, n))
  }

  ghost predicate AllGrounded(g: Graph, targets: seq<string>) {
    forall j | 0 <= j < |targets| :: Grounded(g, targets[j])
  }

  ghost predicate WiresGrounded(g: Graph, wires: seq<Wire>) {
    forall i | 0 <= i < |wires| && wires[i].Wire? :: AllGrounded(g, wires[i].targets)
  }

  lemma {:induction false} GetGrounds(g: Graph, works: nat -> bool, s: State, name: string, hierarchy: seq<Type>)
    requires Closed(g) && name in g && CachesGrounded(g, s)
    ensures var (s1, result) := Get(g, works, s, name, hierarchy);
            CachesGrounded(g, s1) && (result.Ok? ==> Grounded(g, name))
    decreases Unvisited(g, hierarchy), 1, 0
  {
    InstantiateGrounds(g, works, s, name, hierarchy);
  }

  lemma {:induction false} InstantiateGrounds(
      g: Graph, works: nat -> bool, s: State, name: string, hierarchy: seq<Type>)
    requires Closed(g) && name in g && CachesGrounded(g, s)
    ensures var (s1, result) := Instantiate(g, works, s, name, hierarchy);
            CachesGrounded(g, s1) && (result.Ok? ==> Grounded(g, name))
    decreases Unvisited(g, hierarchy), 0, 0
  {
    var t := g[name].type_;
    if t !in hierarchy {
      VisitShrinks(g, hierarchy, t);
      InjectGrounds(g, works, s, g[name].wires, hierarchy + [t]);
      var (s1, failure, _) := Inject(g, works, s, g[name].wires, hierarchy + [t]);
      if failure.None? {
        WiredPodIsGrounded(g, name);
      }
    }
  }

  lemma {:induction false} WiredPodIsGrounded(g: Graph, name: string)
    requires Closed(g) && name in g && WiresGrounded(g, g[name].wires)
    ensures Grounded(g, name)
  {
    forall b | DependsOn(g, name, b)
      ensures Grounded(g, b)
    {
      var wires := g[name].wires;
      var i :| 0 <= i < |wires| && wires[i].Wire? && b in wires[i].targets;
      assert AllGrounded(g, wires[i].targets);
    }
    GroundedFromBelow(g, name);
  }

  lemma {:induction false} InjectGrounds(g: Graph, works: nat -> bool, s: State, wires: seq<Wire>, hierarchy: seq<Type>)
    requires Closed(g) && WiresClosed(g, wires) && CachesGrounded(g, s)
    ensures var (s1, failure, _) := Inject(g, works, s, wires, hierarchy);
            CachesGrounded(g, s1) && (failure.None? ==> WiresGrounded(g, wires))
    decreases Unvisited(g, hierarchy), 3, |wires|
  {
    if wires != [] && wires[0].Wire? {
      GetAllGrounds(g, works, s, wires[0].targets, hierarchy);
      var (s1, failure, _) := GetAll(g, works, s, wires[0].targets, hierarchy);
      InjectGrounds(g, works, s1, wires[1..], hierarchy);
      assert forall i | 0 < i < |wires| :: wires[i] == wires[1..][i - 1];
    }
  }

  lemma {:induction false} GetAllGrounds(
      g: Graph, works: nat -> bool, s: State, targets: seq<string>, hierarchy: seq<Type>)
    requires Closed(g) && TargetsKnown(g, targets) && CachesGrounded(g, s)
    ensures var (s1, failure, _) := GetAll(g, works, s, targets, hierarchy);
            CachesGrounded(g, s1) && (failure.None? ==> AllGrounded(g, targets))
    decreases Unvisited(g, hierarchy), 2, |targets|
  {
    if targets != [] {
      GetGrounds(g, works, s, targets[0], hierarchy);
      var s1 := Get(g, works, s, targets[0], hierarchy).0;
      GetAllGrounds(g, works, s1, targets[1..], hierarchy);
      assert forall j | 0 < j < |targets| :: targets[j] == targets[1..][j - 1];
    }
  }

  /** A pod from which a cycle can be reached never yields an instance and is
      never cached, whatever else is wired, cached or fails. */
  lemma {:induction false} CyclicPodsAreNeverBuilt(
    g: Graph, works: nat -> bool, s: State, name: string, hierarchy: seq<Type>, cyclic: string)
    requires Closed(g) && name in g && CachesGrounded(g, s) && ReachesCycle(g, cyclic)
    ensures var (s1, result) := Get(g, works, s, name, hierarchy);
            && (name == cyclic ==> result.Err?)
            && cyclic !in s1.singletons && cyclic !in s1.context
  {
    GetGrounds(g, works, s, name, hierarchy);
    if Grounded(g, cyclic) {
      var n: nat :| GroundedIn(g, cyclic, n);
      GroundedAvoidsCycles(g, cyclic, n);
    }
  }

  // ----- Every error names a real cause -----

  /** A dependency path and the types along it. */
  ghost predicate Traces(g: Graph, path: seq<string>, types: seq<Type>) {
    IsPath(g, path) && |path| == |types| && forall i | 0 <= i < |path| :: g[path[i]].type_ == types[i]
  }

  /** An error is explained by a dependency path that goes on from `above`: for a
      circular one its last type occurred on it before, for the others its last
      pod has a dependency that could not be resolved, or a mandatory one for
      which there is nothing.  A factory's failure needs no explanation here. */
  ghost predicate Explains(g: Graph, above: seq<string>, error: Error) {
    match error
    case Circular(types) => exists path: seq<string> :: above <= path && Repeats(g, path, types)
    case ResolutionFailed => exists path: seq<string> :: above <= path && LeadsToUnresolvable(g, path)
    case DependencyMissing => exists path: seq<string> :: above <= path && LeadsToUnfilled(g, path)
    case FactoryFailed => true
  }

  predicate Unfilled(w: Wire) {
    w.Wire? && w.mandatory && w.targets == []
  }

  ghost predicate LeadsToUnresolvable(g: Graph, path: seq<string>) {
    IsPath(g, path) && path != [] && Unresolvable in g[path[|path| - 1]].wires
  }

  ghost predicate LeadsToUnfilled(g: Graph, path: seq<string>) {
    IsPath(g, path) && path != [] && exists w | w in g[path[|path| - 1]].wires :: Unfilled(w)
  }

  ghost predicate Repeats(g: Graph, path: seq<string>, types: seq<Type>) {
    Traces(g, path, types) && path != [] && types[|path| - 1] in types[..|path| - 1]
  }

  lemma {:induction false} Shallower(g: Graph, above: seq<string>, name: string, error: Error)
    requires Explains(g, above + [name], error)
    ensures Explains(g, above, error)
  {
    var longer := above + [name];
    match error
    case Circular(types) =>
      var path: seq<string> :| longer <= path && Repeats(g, path, types);
      assert above <= path;
    case ResolutionFailed =>
      var path: seq<string> :| longer <= path && LeadsToUnresolvable(g, path);
      assert above <= path;
    case DependencyMissing =>
      var path: seq<string> :| longer <= path && LeadsToUnfilled(g, path);
      assert above <= path;
    case FactoryFailed =>
  }

  /** The next pod may be asked for by the last one on the path. */
  ghost predicate Follows(g: Graph, above: seq<string>, name: string) {
    name in g && (above == [] || DependsOn(g, above[|above| - 1], name))
  }

  lemma {:induction false} PathGrows(g: Graph, above: seq<string>, types: seq<Type>, name: string)
    requires Traces(g, above, types) && Follows(g, above, name)
    ensures Traces(g, above + [name], types + [g[name].type_])
  {
    var path := above + [name];
    forall i | 0 <= i < |path| - 1
      ensures DependsOn(g, path[i], path[i + 1])
    {
      if i < |above| - 1 {
        assert path[i] == above[i] && path[i + 1] == above[i + 1];
      }
    }
  }

  lemma {:induction false} GetExplains(
    g: Graph, works: nat -> bool, s: State, name: string, hierarchy: seq<Type>, above: seq<string>)
    requires Closed(g) && Traces(g, above, hierarchy) && Follows(g, above, name)
    ensures var result := Get(g, works, s, name, hierarchy).1;
            result.Err? ==> Explains(g, above + [name], result.error)
    decreases Unvisited(g, hierarchy), 1, 0
  {
    InstantiateExplains(g, works, s, name, hierarchy, above);
  }

  lemma {:induction false} InstantiateExplains(
    g: Graph, works: nat -> bool, s: State, name: string, hierarchy: seq<Type>, above: seq<string>)
    requires Closed(g) && Traces(g, above, hierarchy) && Follows(g, above, name)
    ensures var result := Instantiate(g, works, s, name, hierarchy).1;
            result.Err? ==> Explains(g, above + [name], result.error)
    decreases Unvisited(g, hierarchy), 0, 0
  {
    var t := g[name].type_;
    PathGrows(g, above, hierarchy, name);
    if t in hierarchy {
      var types := hierarchy + [t];
      assert types[..|types| - 1] == hierarchy;
      assert Repeats(g, above + [name], types);
    } else {
      VisitShrinks(g, hierarchy, t);
      WiresFollow(g, above, name);
      InjectExplains(g, works, s, g[name].wires, hierarchy + [t], above + [name]);
    }
  }

  /** The wires of the last pod on the path. */
  ghost predicate WiresBelow(g: Graph, above: seq<string>, wires: seq<Wire>) {
    && (forall i | 0 <= i < |wires| && wires[i].Wire? :: TargetsBelow(g, above, wires[i].targets))
    && (above != [] && above[|above| - 1] in g ==>
          forall i | 0 <= i < |wires| :: wires[i] in g[above[|above| - 1]].wires)
  }

  lemma {:induction false} WiresFollow(g: Graph, above: seq<string>, name: string)
    requires Closed(g) && name in g
    ensures WiresBelow(g, above + [name], g[name].wires)
  {
    var wires := g[name].wires;
    forall i, j | 0 <= i < |wires| && wires[i].Wire? && 0 <= j < |wires[i].targets|
      ensures Follows(g, above + [name], wires[i].targets[j])
    {
      assert TargetsKnown(g, wires[i].targets);
      assert DependsOn(g, name, wires[i].targets[j]);
    }
  }

  ghost predicate TargetsBelow(g: Graph, above: seq<string>, targets: seq<string>) {
    forall j | 0 <= j < |targets| :: Follows(g, above, targets[j])
  }

  lemma {:induction false} InjectExplains(
    g: Graph, works: nat -> bool, s: State, wires: seq<Wire>, hierarchy: seq<Type>, above: seq<string>)
    requires Closed(g) && WiresClosed(g, wires) && Traces(g, above, hierarchy) && WiresBelow(g, above, wires)
    requires above != []
    ensures var failure := Inject(g, works, s, wires, hierarchy).1;
            failure.Some? ==> Explains(g, above, failure.value)
    decreases Unvisited(g, hierarchy), 3, |wires|
  {
    if wires != [] && wires[0].Unresolvable? {
      assert wires[0] in wires && LeadsToUnresolvable(g, above);
    } else if wires != [] && Unfilled(wires[0]) {
      assert wires[0] in wires && LeadsToUnfilled(g, above);
    } else if wires != [] {
      GetAllExplains(g, works, s, wires[0].targets, hierarchy, above);
      var s1 := GetAll(g, works, s, wires[0].targets, hierarchy).0;
      InjectExplains(g, works, s1, wires[1..], hierarchy, above);
    }
  }

  lemma {:induction false} GetAllExplains(
    g: Graph, works: nat -> bool, s: State, targets: seq<string>, hierarchy: seq<Type>, above: seq<string>)
    requires Closed(g) && TargetsKnown(g, targets) && Traces(g, above, hierarchy) && TargetsBelow(g, above, targets)
    ensures var failure := GetAll(g, works, s, targets, hierarchy).1;
            failure.Some? ==> Explains(g, above, failure.value)
    decreases Unvisited(g, hierarchy), 2, |targets|
  {
    if targets != [] {
      GetExplains(g, works, s, targets[0], hierarchy, above);
      var (s1, result) := Get(g, works, s, targets[0], hierarchy);
      if result.Err? {
        Shallower(g, above, targets[0], result.error);
      }
      GetAllExplains(g, works, s1, targets[1..], hierarchy, above);
    }
  }

  /** Every error of a request has a real cause: a circular one a dependency path
      from the requested pod whose last type occurred on it before, the others a
      path to a pod with a dependency that cannot be resolved or filled. */
  lemma {:induction false} ErrorsAreReal(g: Graph, works: nat -> bool, s: State, name: string)
    requires Closed(g) && name in g && Get(g, works, s, name, []).1.Err?
    ensures Explains(g, [name], Get(g, works, s, name, []).1.error)
  {
    GetExplains(g, works, s, name, [], []);
    assert [] + [name] == [name];
  }

  lemma {:induction false} CircularErrorIsReal(
      g: Graph, works: nat -> bool, s: State, name: string) returns (path: seq<string>)
    requires Closed(g) && name in g
    requires Get(g, works, s, name, []).1.Err? && Get(g, works, s, name, []).1.error.Circular?
    ensures path != [] && path[0] == name
    ensures Repeats(g, path, Get(g, works, s, name, []).1.error.path)
  {
    ErrorsAreReal(g, works, s, name);
    var error := Get(g, works, s, name, []).1.error;
    path :| [name] <= path && Repeats(g, path, error.path);
    assert [name][0] == name;
  }

  // ----- Factories that fail -----

  /** Of the calls since `n`, none failed, or the last one did and that is the
      error. */
  ghost predicate FailsWith(works: nat -> bool, n: nat, s1: State, error: Option<Error>) {
    && n <= |s1.calls|
    && (forall x | n <= x < |s1.calls| - 1 :: works(x))
    && (error == Some(FactoryFailed) <==> n < |s1.calls| && !works(|s1.calls| - 1))
  }

  function ErrorOf(result: Result): Option<Error> {
    if result.Err? then Some(result.error) else None
  }

  lemma {:induction false} FailsLater(works: nat -> bool, n: nat, s1: State, s2: State, error: Option<Error>)
    requires FailsWith(works, n, s1, None) && FailsWith(works, |s1.calls|, s2, error)
    ensures FailsWith(works, n, s2, error)
  {
    forall x | n <= x < |s2.calls| - 1
      ensures works(x)
    {
      if x == |s1.calls| - 1 {
        assert n < |s1.calls|;
      }
    }
  }

  lemma {:induction false} GetFails(g: Graph, works: nat -> bool, s: State, name: string, hierarchy: seq<Type>)
    requires Closed(g) && name in g
    ensures var (s1, result) := Get(g, works, s, name, hierarchy); FailsWith(works, |s.calls|, s1, ErrorOf(result))
    decreases Unvisited(g, hierarchy), 1, 0
  {
    InstantiateFails(g, works, s, name, hierarchy);
  }

  lemma {:induction false} InstantiateFails(
      g: Graph, works: nat -> bool, s: State, name: string, hierarchy: seq<Type>)
    requires Closed(g) && name in g
    ensures var (s1, result) := Instantiate(g, works, s, name, hierarchy);
            FailsWith(works, |s.calls|, s1, ErrorOf(result))
    decreases Unvisited(g, hierarchy), 0, 0
  {
    var t := g[name].type_;
    if t !in hierarchy {
      VisitShrinks(g, hierarchy, t);
      InjectFails(g, works, s, g[name].wires, hierarchy + [t]);
      var (s1, failure, arguments) := Inject(g, works, s, g[name].wires, hierarchy + [t]);
      if failure.None? {
        var (s2, result) := Build(works, s1, Call(name, arguments));
        FailsLater(works, |s.calls|, s1, s2, ErrorOf(result));
      }
    }
  }

  lemma {:induction false} InjectFails(g: Graph, works: nat -> bool, s: State, wires: seq<Wire>, hierarchy: seq<Type>)
    requires Closed(g) && WiresClosed(g, wires)
    ensures var (s1, failure, _) := Inject(g, works, s, wires, hierarchy); FailsWith(works, |s.calls|, s1, failure)
    decreases Unvisited(g, hierarchy), 3, |wires|
  {
    if wires != [] && wires[0].Wire? && !Unfilled(wires[0]) {
      GetAllFails(g, works, s, wires[0].targets, hierarchy);
      var (s1, failure, _) := GetAll(g, works, s, wires[0].targets, hierarchy);
      if failure.None? {
        InjectFails(g, works, s1, wires[1..], hierarchy);
        var (s2, end, _) := Inject(g, works, s1, wires[1..], hierarchy);
        FailsLater(works, |s.calls|, s1, s2, end);
      }
    }
  }

  lemma {:induction false} GetAllFails(
      g: Graph, works: nat -> bool, s: State, targets: seq<string>, hierarchy: seq<Type>)
    requires Closed(g) && TargetsKnown(g, targets)
    ensures var (s1, failure, _) := GetAll(g, works, s, targets, hierarchy); FailsWith(works, |s.calls|, s1, failure)
    decreases Unvisited(g, hierarchy), 2, |targets|
  {
    if targets != [] {
      GetFails(g, works, s, targets[0], hierarchy);
      var (s1, result) := Get(g, works, s, targets[0], hierarchy);
      if result.Ok? {
        GetAllFails(g, works, s1, targets[1..], hierarchy);
        var (s2, end, _) := GetAll(g, works, s1, targets[1..], hierarchy);
        FailsLater(works, |s.calls|, s1, s2, end);
      }
    }
  }

  /** A request fails with a factory's failure if and only if a factory that it
      called failed, and that was then its last call. */
  lemma {:induction false} FactoryFailureIffCallFailed(g: Graph, works: nat -> bool, s: State, name: string)
    requires Closed(g) && name in g
    ensures var (s1, result) := Get(g, works, s, name, []);
            && (result == Err(FactoryFailed) <==> exists x | |s.calls| <= x < |s1.calls| :: !works(x))
            && (forall x | |s.calls| <= x < |s1.calls| - 1 :: works(x))
  {
    GetFails(g, works, s, name, []);
  }

  // ----- When every pod can be built -----

  ghost predicate Clean(g: Graph) {
    forall name | name in g :: WiresClean(g[name].wires)
  }

  /** Every dependency resolves, and is found if it must be. */
  ghost predicate WiresClean(wires: seq<Wire>) {
    forall i | 0 <= i < |wires| :: wires[i].Wire? && (wires[i].mandatory ==> wires[i].targets != [])
  }

  ghost predicate NothingFails(works: nat -> bool) {
    forall k :: works(k)
  }

  // ----- Wires from a registry -----

  function WireOf(v: Verdict, mandatory: bool): Wire {
    match v
    case Chosen(pod) => Wire([pod.name], mandatory)
    case Missing => Wire([], mandatory)
    case _ => Unresolvable
  }

  /** What resolving a single dependency may answer. */
  ghost predicate Answers(
    v: Verdict, pods: map<string, Pod>, bindings: map<Type, Binding>, selects: (Qualifier, Pod) -> bool, d: Dependency)
  {
    Allowed(v, Scan(pods, d.type_), if d.type_ in bindings then Some(bindings[d.type_]) else None,
            Request(d.type_, Some(d.name), true, d.qualifiers), selects)
  }

  /** What resolving a collection dependency may answer. */
  ghost predicate Gathers(found: seq<Pod>, pods: map<string, Pod>, selects: (Qualifier, Pod) -> bool, d: Dependency) {
    SortedByName(found) && forall p :: p in found <==> p in QualifiedOf(selects, d.qualifiers, Scan(pods, d.type_))
  }

  /** The wire that candidate resolution makes of a dependency. */
  ghost predicate IsWireFor(
    w: Wire, pods: map<string, Pod>, bindings: map<Type, Binding>, selects: (Qualifier, Pod) -> bool, d: Dependency)
  {
    var mandatory := !d.hasDefault && !d.isOptional;
    if d.isCollection then exists found :: Gathers(found, pods, selects, d) && w == Wire(NamesOf(found), mandatory)
    else exists v :: Answers(v, pods, bindings, selects, d) && w == WireOf(v, mandatory)
  }

  function NamesOf(pods: seq<Pod>): (names: seq<string>)
    ensures |names| == |pods| && forall i | 0 <= i < |pods| :: names[i] == pods[i].name
  {
    seq(|pods|, i requires 0 <= i < |pods| => pods[i].name)
  }

  /** `g` is the dependency graph of a registry. */
  ghost predicate Wired(
      g: Graph, pods: map<string, Pod>, bindings: map<Type, Binding>, selects: (Qualifier, Pod) -> bool)
  {
    && g.Keys == pods.Keys
    && (forall n | n in pods :: pods[n].name == n)
    && (forall n | n in g :: NodeWired(g[n], pods[n], pods, bindings, selects))
  }

  ghost predicate NodeWired(
    node: Node, pod: Pod, pods: map<string, Pod>, bindings: map<Type, Binding>, selects: (Qualifier, Pod) -> bool)
  {
    && node.type_ == pod.type_ && node.scope == pod.scope
    && |node.wires| == |pod.dependencies|
    && forall i | 0 <= i < |node.wires| :: IsWireFor(node.wires[i], pods, bindings, selects, pod.dependencies[i])
  }

  lemma {:induction false} WiredTargetsAreRegistered(
    w: Wire, pods: map<string, Pod>, bindings: map<Type, Binding>, selects: (Qualifier, Pod) -> bool,
    d: Dependency, k: nat)
    requires forall n | n in pods :: pods[n].name == n
    requires IsWireFor(w, pods, bindings, selects, d) && w.Wire? && k < |w.targets|
    ensures w.targets[k] in pods
  {
    var mandatory := !d.hasDefault && !d.isOptional;
    if d.isCollection {
      var found :| Gathers(found, pods, selects, d) && w == Wire(NamesOf(found), mandatory);
      assert found[k] in found;
      assert found[k] in Scan(pods, d.type_);
    } else {
      var v :| Answers(v, pods, bindings, selects, d) && w == WireOf(v, mandatory);
      ChoiceHonoursSelectors(v, Scan(pods, d.type_), if d.type_ in bindings then Some(bindings[d.type_]) else None,
                             Request(d.type_, Some(d.name), true, d.qualifiers), selects);
      assert v.pod in Scan(pods, d.type_);
    }
  }

  /** Every registered graph is closed: resolution terminates on all of them. */
  lemma {:induction false} WiredGraphIsClosed(
    g: Graph, pods: map<string, Pod>, bindings: map<Type, Binding>, selects: (Qualifier, Pod) -> bool)
    requires Wired(g, pods, bindings, selects)
    ensures Closed(g)
  {
    forall n, i, k | n in g && 0 <= i < |g[n].wires| && g[n].wires[i].Wire? && 0 <= k < |g[n].wires[i].targets|
      ensures g[n].wires[i].targets[k] in g
    {
      assert NodeWired(g[n], pods[n], pods, bindings, selects);
      WiredTargetsAreRegistered(g[n].wires[i], pods, bindings, selects, pods[n].dependencies[i], k);
    }
  }

  /** Resolve every dependency of every registered pod. */
  method BuildGraph(registry: ApplicationRegistry) returns (g: Graph)
    requires registry.Valid()
    ensures Wired(g, registry.pods, registry.bindings, registry.selects) && Closed(g)
  {
    g := map[];
    var left := registry.pods.Keys;
    while left != {}
      invariant left <= registry.pods.Keys && g.Keys == registry.pods.Keys - left
      invariant forall n | n in g ::
        NodeWired(g[n], registry.pods[n], registry.pods, registry.bindings, registry.selects)
      decreases |left|
    {
      var name :| name in left;
      var pod := registry.pods[name];
      var wires := WirePod(registry, pod);
      g := g[name := Node(pod.type_, pod.scope, wires)];
      left := left - {name};
    }
    WiredGraphIsClosed(g, registry.pods, registry.bindings, registry.selects);
  }

  method WirePod(registry: ApplicationRegistry, pod: Pod) returns (wires: seq<Wire>)
    requires registry.Valid()
    ensures NodeWired(Node(pod.type_, pod.scope, wires), pod, registry.pods, registry.bindings, registry.selects)
  {
    wires := [];
    for i := 0 to |pod.dependencies|
      invariant |wires| == i
      invariant forall k | 0 <= k < i ::
        IsWireFor(wires[k], registry.pods, registry.bindings, registry.selects, pod.dependencies[k])
    {
      var wire := WireDependency(registry, pod.dependencies[i]);
      wires := wires + [wire];
    }
  }

  method WireDependency(registry: ApplicationRegistry, d: Dependency) returns (wire: Wire)
    requires registry.Valid()
    ensures IsWireFor(wire, registry.pods, registry.bindings, registry.selects, d)
  {
    var mandatory := !d.hasDefault && !d.isOptional;
    if d.isCollection {
      var found := registry.ResolveCollection(d.type_, d.qualifiers);
      assert forall p :: p in found <==> p in (set q | q in found);
      assert Gathers(found, registry.pods, registry.selects, d);
      wire := Wire(NamesOf(found), mandatory);
    } else {
      var v := registry.Resolve(Request(d.type_, Some(d.name), true, d.qualifiers));
      assert Answers(v, registry.pods, registry.bindings, registry.selects, d);
      wire := WireOf(v, mandatory);
    }
  }

  // ----- The container object -----

  class PodContainer {
    const graph: Graph
    const works: nat -> bool
    var singletons: map<string, nat>
    var context: map<string, nat>
    var calls: seq<Call>

    ghost function Now(): State
      reads this
    {
      State(singletons, context, calls)
    }

    constructor (graph: Graph, works: nat -> bool)
      ensures this.graph == graph && this.works == works && Now() == State(map[], map[], [])
    {
      this.graph, this.works := graph, works;
      singletons, context, calls := map[], map[], [];
    }

    method GetPodInstance(name: string, hierarchy: seq<Type>) returns (result: Result)
      requires Closed(graph) && name in graph
      modifies this
      ensures (Now(), result) == Get(graph, works, old(Now()), name, hierarchy)
      decreases Unvisited(graph, hierarchy), 1, 0
    {
      var scope := graph[name].scope;
      if scope.Singleton? && name in singletons {
        return Ok(singletons[name]);
      }
      if scope.Context? && name in context {
        return Ok(context[name]);
      }
      result := InstantiatePod(name, hierarchy);
      if result.Ok? {
        match scope {
          case Singleton => singletons := singletons[name := result.instance];
          case Context => context := context[name := result.instance];
          case Prototype =>
        }
      }
    }

    method InstantiatePod(name: string, hierarchy: seq<Type>) returns (result: Result)
      requires Closed(graph) && name in graph
      modifies this
      ensures (Now(), result) == Instantiate(graph, works, old(Now()), name, hierarchy)
      decreases Unvisited(graph, hierarchy), 0, 0
    {
      var t := graph[name].type_;
      if t in hierarchy {
        return Err(Circular(hierarchy + [t]));
      }
      VisitShrinks(graph, hierarchy, t);
      var failure, arguments := InjectDependencies(graph[name].wires, hierarchy + [t]);
      if failure.Some? {
        return Err(failure.value);
      }
      result := if works(|calls|) then Ok(|calls|) else Err(FactoryFailed);
      calls := calls + [Call(name, arguments)];
    }

    method InjectDependencies(wires: seq<Wire>, hierarchy: seq<Type>)
      returns (failure: Option<Error>, arguments: seq<seq<nat>>)
      requires Closed(graph) && WiresClosed(graph, wires)
      modifies this
      ensures (Now(), failure, arguments) == Inject(graph, works, old(Now()), wires, hierarchy)
      decreases Unvisited(graph, hierarchy), 3, |wires|
    {
      arguments := [];
      assert wires[0..] == wires;
      ghost var all := Inject(graph, works, Now(), wires, hierarchy).2;
      assert [] + all == all;
      for i := 0 to |wires|
        invariant var (s, end, rest) := Inject(graph, works, Now(), wires[i..], hierarchy);
                  Inject(graph, works, old(Now()), wires, hierarchy)
                  == (s, end, if end.Some? then [] else arguments + rest)
      {
        assert wires[i..][0] == wires[i] && wires[i..][1..] == wires[i + 1..];
        if wires[i].Unresolvable? {
          return Some(ResolutionFailed), [];
        }
        if wires[i].targets == [] && wires[i].mandatory {
          return Some(DependencyMissing), [];
        }
        var instances;
        failure, instances := CollectInstances(wires[i].targets, hierarchy);
        if failure.Some? {
          return failure, [];
        }
        Appended(arguments, instances, Inject(graph, works, Now(), wires[i + 1..], hierarchy).2);
        arguments := arguments + [instances];
      }
      assert arguments + [] == arguments;
      failure := None;
    }

    method CollectInstances(targets: seq<string>, hierarchy: seq<Type>)
      returns (failure: Option<Error>, instances: seq<nat>)
      requires Closed(graph) && TargetsKnown(graph, targets)
      modifies this
      ensures (Now(), failure, instances) == GetAll(graph, works, old(Now()), targets, hierarchy)
      decreases Unvisited(graph, hierarchy), 2, |targets|
    {
      instances := [];
      assert targets[0..] == targets;
      ghost var all := GetAll(graph, works, Now(), targets, hierarchy).2;
      assert [] + all == all;
      for j := 0 to |targets|
        invariant var (s, end, rest) := GetAll(graph, works, Now(), targets[j..], hierarchy);
                  GetAll(graph, works, old(Now()), targets, hierarchy)
                  == (s, end, if end.Some? then [] else instances + rest)
      {
        assert targets[j..][0] == targets[j] && targets[j..][1..] == targets[j + 1..];
        var result := GetPodInstance(targets[j], hierarchy);
        if result.Err? {
          return Some(result.error), [];
        }
        Appended(instances, result.instance, GetAll(graph, works, Now(), targets[j + 1..], hierarchy).2);
        instances := instances + [result.instance];
      }
      assert instances + [] == instances;
      failure := None;
    }
  }

  lemma {:induction false} Appended<T>(a: seq<T>, x: T, b: seq<T>)
    ensures a + [x] + b == a + ([x] + b)
  {
  }
}
