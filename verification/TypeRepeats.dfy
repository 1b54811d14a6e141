/** When instantiation succeeds.  Cycle detection compares types, not pods, and
    a cached pod is never looked into, so what decides is whether a dependency
    path through uncached pods meets a type twice. */
module TypeRepeats {
  import opened Wrappers
  import opened Registry
  import opened Instantiation

  const EMPTY := State(map[], map[], [])

  ghost predicate Uncached(g: Graph, s: State, name: string)
    requires name in g
  {
    !(g[name].scope.Singleton? && name in s.singletons) && !(g[name].scope.Context? && name in s.context)
  }

  /** A dependency path through uncached pods. */
  ghost predicate OpenPath(g: Graph, s: State, path: seq<string>) {
    IsPath(g, path) && forall k | 0 <= k < |path| :: Uncached(g, s, path[k])
  }

  /** Two pods on the path have one type. */
  ghost predicate Repeating(g: Graph, path: seq<string>) {
    IsPath(g, path) && exists i, j | 0 <= i < j < |path| :: g[path[i]].type_ == g[path[j]].type_
  }

  /** No open path that goes on from `above` repeats a type. */
  ghost predicate Clear(g: Graph, s: State, above: seq<string>) {
    forall path: seq<string> :: above <= path && OpenPath(g, s, path) ==> !Repeating(g, path)
  }

  /** Some dependency path from the pod repeats a type. */
  ghost predicate RepeatsFrom(g: Graph, name: string) {
    exists path: seq<string> :: Repeating(g, path) && path != [] && path[0] == name
  }

  ghost predicate Grown(s: State, s1: State) {
    s.singletons.Keys <= s1.singletons.Keys && s.context.Keys <= s1.context.Keys
  }

  // ----- Without an open repeat every request succeeds -----

  lemma {:induction false} NextTypeIsNew(g: Graph, s: State, above: seq<string>, types: seq<Type>, name: string)
    requires Traces(g, above, types) && OpenPath(g, s, above) && Follows(g, above, name) && Uncached(g, s, name)
    requires Clear(g, s, above)
    ensures g[name].type_ !in types
    ensures OpenPath(g, s, above + [name]) && Clear(g, s, above + [name])
  {
    var path := above + [name];
    PathGrows(g, above, types, name);
    assert OpenPath(g, s, path);
    forall longer: seq<string> | path <= longer && OpenPath(g, s, longer)
      ensures !Repeating(g, longer)
    {
      assert above <= longer;
    }
    assert !Repeating(g, path);
    forall i | 0 <= i < |types|
      ensures types[i] != g[name].type_
    {
      assert path[i] == above[i] && path[|above|] == name;
    }
  }

  lemma {:induction false} GetWorks(
    g: Graph, works: nat -> bool, s0: State, s: State, name: string, hierarchy: seq<Type>, above: seq<string>)
    requires Closed(g) && Clean(g) && NothingFails(works) && Grown(s0, s)
    requires Traces(g, above, hierarchy) && OpenPath(g, s0, above) && Follows(g, above, name) && Clear(g, s0, above)
    ensures var (s1, result) := Get(g, works, s, name, hierarchy); result.Ok? && Grown(s0, s1)
    decreases Unvisited(g, hierarchy), 1, 0
  {
    if Uncached(g, s, name) {
      InstantiateWorks(g, works, s0, s, name, hierarchy, above);
    }
  }

  lemma {:induction false} InstantiateWorks(
    g: Graph, works: nat -> bool, s0: State, s: State, name: string, hierarchy: seq<Type>, above: seq<string>)
    requires Closed(g) && Clean(g) && NothingFails(works) && Grown(s0, s)
    requires Traces(g, above, hierarchy) && OpenPath(g, s0, above) && Follows(g, above, name) && Clear(g, s0, above)
    requires Uncached(g, s, name)
    ensures var (s1, result) := Instantiate(g, works, s, name, hierarchy); result.Ok? && Grown(s0, s1)
    decreases Unvisited(g, hierarchy), 0, 0
  {
    var t := g[name].type_;
    NextTypeIsNew(g, s0, above, hierarchy, name);
    VisitShrinks(g, hierarchy, t);
    PathGrows(g, above, hierarchy, name);
    WiresFollow(g, above, name);
    InjectWorks(g, works, s0, s, g[name].wires, hierarchy + [t], above + [name]);
    assert works(|Inject(g, works, s, g[name].wires, hierarchy + [t]).0.calls|);
  }

  lemma {:induction false} InjectWorks(
    g: Graph, works: nat -> bool, s0: State, s: State, wires: seq<Wire>, hierarchy: seq<Type>, above: seq<string>)
    requires Closed(g) && Clean(g) && NothingFails(works) && Grown(s0, s)
    requires WiresClosed(g, wires) && WiresClean(wires) && WiresBelow(g, above, wires)
    requires Traces(g, above, hierarchy) && OpenPath(g, s0, above) && Clear(g, s0, above)
    ensures var (s1, failure, _) := Inject(g, works, s, wires, hierarchy); failure.None? && Grown(s0, s1)
    decreases Unvisited(g, hierarchy), 3, |wires|
  {
    if wires != [] {
      GetAllWorks(g, works, s0, s, wires[0].targets, hierarchy, above);
      var s1 := GetAll(g, works, s, wires[0].targets, hierarchy).0;
      InjectWorks(g, works, s0, s1, wires[1..], hierarchy, above);
    }
  }

  lemma {:induction false} GetAllWorks(
    g: Graph, works: nat -> bool, s0: State, s: State, targets: seq<string>, hierarchy: seq<Type>, above: seq<string>)
    requires Closed(g) && Clean(g) && NothingFails(works) && Grown(s0, s)
    requires TargetsKnown(g, targets) && TargetsBelow(g, above, targets)
    requires Traces(g, above, hierarchy) && OpenPath(g, s0, above) && Clear(g, s0, above)
    ensures var (s1, failure, _) := GetAll(g, works, s, targets, hierarchy); failure.None? && Grown(s0, s1)
    decreases Unvisited(g, hierarchy), 2, |targets|
  {
    if targets != [] {
      GetWorks(g, works, s0, s, targets[0], hierarchy, above);
      var s1 := Get(g, works, s, targets[0], hierarchy).0;
      GetAllWorks(g, works, s0, s1, targets[1..], hierarchy, above);
    }
  }

  /** In every cache state: if no dependency path from a pod through uncached
      pods repeats a type, the request succeeds. */
  lemma {:induction false} WithoutOpenRepeatSucceeds(g: Graph, works: nat -> bool, s: State, name: string)
    requires Closed(g) && Clean(g) && NothingFails(works) && name in g
    requires forall path: seq<string> :: path != [] && path[0] == name && OpenPath(g, s, path) ==> !Repeating(g, path)
    ensures Get(g, works, s, name, []).1.Ok?
  {
    if Uncached(g, s, name) {
      assert [] + [name] == [name];
      assert Traces(g, [], []) && OpenPath(g, s, []);
      forall path: seq<string> | [name] <= path && OpenPath(g, s, path)
        ensures !Repeating(g, path)
      {
        assert path[0] == [name][0];
      }
      RootWorks(g, works, s, name);
    }
  }

  lemma {:induction false} RootWorks(g: Graph, works: nat -> bool, s: State, name: string)
    requires Closed(g) && Clean(g) && NothingFails(works) && name in g && Uncached(g, s, name)
    requires Clear(g, s, [name])
    ensures Get(g, works, s, name, []).1.Ok?
  {
    var t := g[name].type_;
    assert [] + [t] == [t] && [] + [name] == [name];
    VisitShrinks(g, [], t);
    PathGrows(g, [], [], name);
    WiresFollow(g, [], name);
    InjectWorks(g, works, s, s, g[name].wires, [t], [name]);
    assert works(|Inject(g, works, s, g[name].wires, [t]).0.calls|);
  }

  // ----- A pod that reaches its own type -----

  /** Some dependency path from the pod, which may be the pod alone, ends at a
      pod of type `t`. */
  ghost predicate ReachesType(g: Graph, name: string, t: Type) {
    exists path: seq<string> :: PathTo(g, path, name, t)
  }

  ghost predicate PathTo(g: Graph, path: seq<string>, name: string, t: Type) {
    IsPath(g, path) && path != [] && path[0] == name && g[path[|path| - 1]].type_ == t
  }

  /** No cached pod reaches `t`. */
  ghost predicate CachesAvoid(g: Graph, s: State, t: Type) {
    && (forall n | n in s.singletons :: !ReachesType(g, n, t))
    && (forall n | n in s.context :: !ReachesType(g, n, t))
  }

  ghost predicate AllAvoid(g: Graph, targets: seq<string>, t: Type) {
    forall j | 0 <= j < |targets| :: !ReachesType(g, targets[j], t)
  }

  ghost predicate WiresAvoid(g: Graph, wires: seq<Wire>, t: Type) {
    forall i | 0 <= i < |wires| && wires[i].Wire? :: AllAvoid(g, wires[i].targets, t)
  }

  lemma {:induction false} PodAvoids(g: Graph, name: string, t: Type)
    requires name in g && g[name].type_ != t && WiresAvoid(g, g[name].wires, t)
    ensures !ReachesType(g, name, t)
  {
    forall path: seq<string>
      ensures !PathTo(g, path, name, t)
    {
      if PathTo(g, path, name, t) {
        DependencyReaches(g, path, name, t);
        DependencyAvoids(g, name, path[1], t);
      }
    }
  }

  lemma {:induction false} DependencyAvoids(g: Graph, name: string, b: string, t: Type)
    requires name in g && WiresAvoid(g, g[name].wires, t) && DependsOn(g, name, b)
    ensures !ReachesType(g, b, t)
  {
    var wires := g[name].wires;
    var i :| 0 <= i < |wires| && wires[i].Wire? && b in wires[i].targets;
    assert AllAvoid(g, wires[i].targets, t);
  }

  lemma {:induction false} DependencyReaches(g: Graph, path: seq<string>, name: string, t: Type)
    requires PathTo(g, path, name, t) && |path| > 1
    ensures DependsOn(g, name, path[1]) && ReachesType(g, path[1], t)
  {
    assert DependsOn(g, path[0], path[0 + 1]);
    TailIsPath(g, path, 1);
    assert PathTo(g, path[1..], path[1], t);
  }

  lemma {:induction false} TailIsPath(g: Graph, path: seq<string>, i: nat)
    requires IsPath(g, path) && i <= |path|
    ensures IsPath(g, path[i..])
  {
    var rest := path[i..];
    forall k | 0 <= k < |rest| - 1
      ensures DependsOn(g, rest[k], rest[k + 1])
    {
      assert rest[k] == path[i + k] && rest[k + 1] == path[i + k + 1];
    }
  }

  /** With `t` already on the hierarchy, only pods that avoid `t` are built. */
  lemma {:induction false} GetAvoids(
      g: Graph, works: nat -> bool, s: State, name: string, hierarchy: seq<Type>, t: Type)
    requires Closed(g) && name in g && CachesAvoid(g, s, t) && t in hierarchy
    ensures var (s1, result) := Get(g, works, s, name, hierarchy);
            CachesAvoid(g, s1, t) && (result.Ok? ==> !ReachesType(g, name, t))
    decreases Unvisited(g, hierarchy), 1, 0
  {
    InstantiateAvoids(g, works, s, name, hierarchy, t);
  }

  lemma {:induction false} InstantiateAvoids(
    g: Graph, works: nat -> bool, s: State, name: string, hierarchy: seq<Type>, t: Type)
    requires Closed(g) && name in g && CachesAvoid(g, s, t) && t in hierarchy
    ensures var (s1, result) := Instantiate(g, works, s, name, hierarchy);
            CachesAvoid(g, s1, t) && (result.Ok? ==> !ReachesType(g, name, t))
    decreases Unvisited(g, hierarchy), 0, 0
  {
    var u := g[name].type_;
    if u !in hierarchy {
      VisitShrinks(g, hierarchy, u);
      InjectAvoids(g, works, s, g[name].wires, hierarchy + [u], t);
      if Inject(g, works, s, g[name].wires, hierarchy + [u]).1.None? {
        PodAvoids(g, name, t);
      }
    }
  }

  lemma {:induction false} InjectAvoids(
    g: Graph, works: nat -> bool, s: State, wires: seq<Wire>, hierarchy: seq<Type>, t: Type)
    requires Closed(g) && WiresClosed(g, wires) && CachesAvoid(g, s, t) && t in hierarchy
    ensures var (s1, failure, _) := Inject(g, works, s, wires, hierarchy);
            CachesAvoid(g, s1, t) && (failure.None? ==> WiresAvoid(g, wires, t))
    decreases Unvisited(g, hierarchy), 3, |wires|
  {
    if wires != [] && wires[0].Wire? {
      GetAllAvoid(g, works, s, wires[0].targets, hierarchy, t);
      var s1 := GetAll(g, works, s, wires[0].targets, hierarchy).0;
      InjectAvoids(g, works, s1, wires[1..], hierarchy, t);
      assert forall i | 0 < i < |wires| :: wires[i] == wires[1..][i - 1];
    }
  }

  lemma {:induction false} GetAllAvoid(
    g: Graph, works: nat -> bool, s: State, targets: seq<string>, hierarchy: seq<Type>, t: Type)
    requires Closed(g) && TargetsKnown(g, targets) && CachesAvoid(g, s, t) && t in hierarchy
    ensures var (s1, failure, _) := GetAll(g, works, s, targets, hierarchy);
            CachesAvoid(g, s1, t) && (failure.None? ==> AllAvoid(g, targets, t))
    decreases Unvisited(g, hierarchy), 2, |targets|
  {
    if targets != [] {
      GetAvoids(g, works, s, targets[0], hierarchy, t);
      var s1 := Get(g, works, s, targets[0], hierarchy).0;
      GetAllAvoid(g, works, s1, targets[1..], hierarchy, t);
      assert forall j | 0 < j < |targets| :: targets[j] == targets[1..][j - 1];
    }
  }

  /** A pod that depends, however indirectly, on a pod of its own type cannot be
      obtained as long as no pod that reaches the type is cached. */
  lemma {:induction false} OwnTypeFails(g: Graph, works: nat -> bool, s: State, name: string, b: string)
    requires Closed(g) && name in g && Uncached(g, s, name) && CachesAvoid(g, s, g[name].type_)
    requires DependsOn(g, name, b) && ReachesType(g, b, g[name].type_)
    ensures Get(g, works, s, name, []).1.Err?
  {
    var t := g[name].type_;
    assert [] + [t] == [t];
    VisitShrinks(g, [], t);
    InjectAvoids(g, works, s, g[name].wires, [t], t);
    if Inject(g, works, s, g[name].wires, [t]).1.None? {
      DependencyAvoids(g, name, b, t);
    }
  }

  // ----- The exact condition -----

  /** `b` lies on some dependency path from `name`. */
  ghost predicate Reaches(g: Graph, name: string, b: string) {
    exists path: seq<string> :: PathBetween(g, path, name, b)
  }

  ghost predicate PathBetween(g: Graph, path: seq<string>, name: string, b: string) {
    IsPath(g, path) && path != [] && path[0] == name && path[|path| - 1] == b
  }

  lemma {:induction false} PathsJoin(g: Graph, first: seq<string>, rest: seq<string>)
    requires IsPath(g, first) && IsPath(g, rest) && first != [] && rest != [] && first[|first| - 1] == rest[0]
    ensures IsPath(g, first + rest[1..])
  {
    var path := first + rest[1..];
    forall k | 0 <= k < |path| - 1
      ensures DependsOn(g, path[k], path[k + 1])
    {
      if k < |first| - 1 {
        assert path[k] == first[k] && path[k + 1] == first[k + 1];
      } else {
        var m := k - (|first| - 1);
        assert path[k] == rest[m] && path[k + 1] == rest[m + 1];
      }
    }
  }

  /** A repeat further down is a repeat from here. */
  lemma {:induction false} RepeatFromAbove(g: Graph, name: string, b: string, path: seq<string>)
    requires Reaches(g, name, b) && Repeating(g, path) && path != [] && path[0] == b
    ensures RepeatsFrom(g, name)
  {
    var first: seq<string> :| PathBetween(g, first, name, b);
    PathsJoin(g, first, path);
    var whole := first + path[1..];
    var i, j :| 0 <= i < j < |path| && g[path[i]].type_ == g[path[j]].type_;
    var n := |first| - 1;
    assert whole[n + i] == path[i] && whole[n + j] == path[j];
    assert Repeating(g, whole) && whole[0] == name;
  }

  /** The two pods of a repeat: the first is reached, and reaches its own type. */
  lemma {:induction false} RepeatIsOwnType(g: Graph, name: string) returns (a: string, b: string)
    requires RepeatsFrom(g, name)
    ensures Reaches(g, name, a) && a in g && DependsOn(g, a, b) && ReachesType(g, b, g[a].type_)
  {
    var path: seq<string> :| Repeating(g, path) && path != [] && path[0] == name;
    var i, j :| 0 <= i < j < |path| && g[path[i]].type_ == g[path[j]].type_;
    a, b := path[i], path[i + 1];
    HeadIsPath(g, path, i + 1);
    assert PathBetween(g, path[..i + 1], name, a);
    HeadIsPath(g, path, j + 1);
    TailIsPath(g, path[..j + 1], i + 1);
    assert PathTo(g, path[..j + 1][i + 1..], b, g[a].type_);
  }

  lemma {:induction false} HeadIsPath(g: Graph, path: seq<string>, n: nat)
    requires IsPath(g, path) && n <= |path|
    ensures IsPath(g, path[..n])
  {
    var head := path[..n];
    forall k | 0 <= k < |head| - 1
      ensures DependsOn(g, head[k], head[k + 1])
    {
      assert head[k] == path[k] && head[k + 1] == path[k + 1];
    }
  }

  /** Every pod that a pod reaches can be obtained from fresh caches if and only
      if no dependency path from it repeats a type.  Scopes do not matter, and
      neither do real cycles: each of them is such a repeat. */
  lemma {:induction false} EveryRequestWorksIff(g: Graph, works: nat -> bool, name: string)
    requires Closed(g) && Clean(g) && NothingFails(works) && name in g
    ensures (forall b | b in g && Reaches(g, name, b) :: Get(g, works, EMPTY, b, []).1.Ok?) <==> !RepeatsFrom(g, name)
  {
    if RepeatsFrom(g, name) {
      var a, b := RepeatIsOwnType(g, name);
      OwnTypeFails(g, works, EMPTY, a, b);
    } else {
      forall b | b in g && Reaches(g, name, b)
        ensures Get(g, works, EMPTY, b, []).1.Ok?
      {
        forall path: seq<string> | path != [] && path[0] == b && OpenPath(g, EMPTY, path)
          ensures !Repeating(g, path)
        {
          if Repeating(g, path) {
            RepeatFromAbove(g, name, b, path);
          }
        }
        WithoutOpenRepeatSucceeds(g, works, EMPTY, b);
      }
    }
  }

  // ----- Paths that are never cached -----

  ghost predicate AllPrototypes(g: Graph, path: seq<string>) {
    IsPath(g, path) && forall k | 0 <= k < |path| :: g[path[k]].scope.Prototype?
  }

  /** A type on the path is on the hierarchy already, or comes twice. */
  ghost predicate Doomed(g: Graph, path: seq<string>, hierarchy: seq<Type>) {
    IsPath(g, path) && ((exists k | 0 <= k < |path| :: g[path[k]].type_ in hierarchy) || Repeating(g, path))
  }

  lemma {:induction false} GetAllFails(
    g: Graph, works: nat -> bool, s: State, targets: seq<string>, hierarchy: seq<Type>, b: string)
    requires Closed(g) && TargetsKnown(g, targets) && b in targets
    requires forall s': State :: Get(g, works, s', b, hierarchy).1.Err?
    ensures GetAll(g, works, s, targets, hierarchy).1.Some?
    decreases |targets|
  {
    if targets[0] != b {
      var s1 := Get(g, works, s, targets[0], hierarchy).0;
      GetAllFails(g, works, s1, targets[1..], hierarchy, b);
    }
  }

  lemma {:induction false} InjectFails(
    g: Graph, works: nat -> bool, s: State, wires: seq<Wire>, hierarchy: seq<Type>, i: nat, b: string)
    requires Closed(g) && WiresClosed(g, wires) && i < |wires| && wires[i].Wire? && b in wires[i].targets && b in g
    requires forall s': State :: Get(g, works, s', b, hierarchy).1.Err?
    ensures Inject(g, works, s, wires, hierarchy).1.Some?
    decreases |wires|
  {
    if i == 0 {
      GetAllFails(g, works, s, wires[0].targets, hierarchy, b);
    } else if wires[0].Wire? {
      var s1 := GetAll(g, works, s, wires[0].targets, hierarchy).0;
      assert wires[1..][i - 1] == wires[i];
      InjectFails(g, works, s1, wires[1..], hierarchy, i - 1, b);
    }
  }

  lemma {:induction false} StillDoomed(g: Graph, path: seq<string>, hierarchy: seq<Type>)
    requires Doomed(g, path, hierarchy) && path != [] && g[path[0]].type_ !in hierarchy
    ensures |path| > 1 && DependsOn(g, path[0], path[1]) && Doomed(g, path[1..], hierarchy + [g[path[0]].type_])
  {
    var t := g[path[0]].type_;
    TailIsPath(g, path, 1);
    var rest, more := path[1..], hierarchy + [t];
    if k :| 0 <= k < |path| && g[path[k]].type_ in hierarchy {
      assert rest[k - 1] == path[k] && g[rest[k - 1]].type_ in more;
    } else {
      var i, j :| 0 <= i < j < |path| && g[path[i]].type_ == g[path[j]].type_;
      assert rest[j - 1] == path[j];
      if i == 0 {
        assert g[rest[j - 1]].type_ in more;
      } else {
        assert rest[i - 1] == path[i];
        assert Repeating(g, rest);
      }
    }
    assert DependsOn(g, path[0], path[0 + 1]);
  }

  lemma {:induction false} DoomedFails(g: Graph, works: nat -> bool, s: State, path: seq<string>, hierarchy: seq<Type>)
    requires Closed(g) && path != [] && AllPrototypes(g, path) && Doomed(g, path, hierarchy)
    ensures Get(g, works, s, path[0], hierarchy).1.Err?
    decreases |path|
  {
    var name := path[0];
    var t := g[name].type_;
    if t !in hierarchy {
      StillDoomed(g, path, hierarchy);
      VisitShrinks(g, hierarchy, t);
      var rest, b := path[1..], path[1];
      assert AllPrototypes(g, rest);
      forall s': State
        ensures Get(g, works, s', b, hierarchy + [t]).1.Err?
      {
        DoomedFails(g, works, s', rest, hierarchy + [t]);
      }
      var wires := g[name].wires;
      var i :| 0 <= i < |wires| && wires[i].Wire? && b in wires[i].targets;
      InjectFails(g, works, s, wires, hierarchy + [t], i, b);
    }
  }

  /** A dependency path of prototypes that repeats a type makes every request
      for its first pod fail, whatever is cached. */
  lemma {:induction false} PrototypeRepeatFails(g: Graph, works: nat -> bool, s: State, path: seq<string>)
    requires Closed(g) && path != [] && AllPrototypes(g, path) && Repeating(g, path)
    ensures Get(g, works, s, path[0], []).1.Err?
  {
    DoomedFails(g, works, s, path, []);
  }

  /** Where the repeating paths of a pod are prototypes, its requests succeed if
      and only if there is none, whatever is cached. */
  lemma {:induction false} PrototypesWorkIff(g: Graph, works: nat -> bool, s: State, name: string)
    requires Closed(g) && Clean(g) && NothingFails(works) && name in g
    requires forall path: seq<string> :: Repeating(g, path) && path != [] && path[0] == name ==> AllPrototypes(g, path)
    ensures Get(g, works, s, name, []).1.Ok? <==> !RepeatsFrom(g, name)
  {
    if RepeatsFrom(g, name) {
      var path: seq<string> :| Repeating(g, path) && path != [] && path[0] == name;
      PrototypeRepeatFails(g, works, s, path);
    } else {
      WithoutOpenRepeatSucceeds(g, works, s, name);
    }
  }

  // ----- One pod per type -----

  ghost predicate DistinctTypes(g: Graph) {
    forall a, b | a in g && b in g && g[a].type_ == g[b].type_ :: a == b
  }

  /** With one pod per type a repeat is a cycle, so a request succeeds exactly
      when the pod reaches no cycle, whatever is cached. */
  lemma {:induction false} BuildsExactlyTheAcyclic(g: Graph, works: nat -> bool, s: State, name: string)
    requires Closed(g) && Clean(g) && DistinctTypes(g) && NothingFails(works)
    requires name in g && CachesGrounded(g, s)
    ensures Get(g, works, s, name, []).1.Ok? <==> !ReachesCycle(g, name)
  {
    if ReachesCycle(g, name) {
      CyclicPodsAreNeverBuilt(g, works, s, name, [], name);
    } else {
      forall path: seq<string> | path != [] && path[0] == name && OpenPath(g, s, path)
        ensures !Repeating(g, path)
      {
        if Repeating(g, path) {
          RepeatIsCycle(g, path);
        }
      }
      WithoutOpenRepeatSucceeds(g, works, s, name);
    }
  }

  lemma {:induction false} RepeatIsCycle(g: Graph, path: seq<string>)
    requires DistinctTypes(g) && Repeating(g, path) && path != []
    ensures ReachesCycle(g, path[0])
  {
    var i, j :| 0 <= i < j < |path| && g[path[i]].type_ == g[path[j]].type_;
    assert path[i] == path[j];
  }

  // ----- Two pods of one type -----

  /** Two factories producing the same type, one needing the other. */
  function Twins(t: Type, scope: Scope): Graph {
    map["a" := Node(t, scope, [Wire(["b"], true)]), "b" := Node(t, scope, [])]
  }

  /** The pods they are: the parameter of the first names the second. */
  function TwinPods(t: Type, scope: Scope): map<string, Pod> {
    map["a" := Pod(0, "a", t, {}, false, scope, [Dependency("b", t, false, false, [], false)]),
        "b" := Pod(1, "b", t, {}, false, scope, [])]
  }

  /** Every registry of these two pods has that graph. */
  lemma {:induction false} TwinsAreWired(t: Type, scope: Scope, selects: (Qualifier, Pod) -> bool)
    ensures Wired(Twins(t, scope), TwinPods(t, scope), map[], selects)
  {
    var pods, d := TwinPods(t, scope), Dependency("b", t, false, false, [], false);
    var a, b := pods["a"], pods["b"];
    TwinScan(t, scope);
    assert a != b && Many({a, b}) && PrimaryOf({a, b}) == {} && NamedOf("b", {a, b}) == {b};
    assert Answers(Chosen(b), pods, map[], selects, d);
    assert IsWireFor(Wire(["b"], true), pods, map[], selects, d);
  }

  lemma {:induction false} TwinScan(t: Type, scope: Scope)
    ensures Scan(TwinPods(t, scope), t) == {TwinPods(t, scope)["a"], TwinPods(t, scope)["b"]}
  {
    var pods := TwinPods(t, scope);
    assert pods["a"] in pods.Values && pods["b"] in pods.Values;
  }

  lemma {:induction false} TwinsAreAcyclic(t: Type, scope: Scope)
    ensures Closed(Twins(t, scope)) && Clean(Twins(t, scope)) && !ReachesCycle(Twins(t, scope), "a")
  {
    var g := Twins(t, scope);
    assert GroundedIn(g, "b", 1);
    assert GroundedIn(g, "a", 2);
    GroundedAvoidsCycles(g, "a", 2);
  }

  lemma {:induction false} TwinFails(t: Type, scope: Scope, works: nat -> bool)
    ensures Closed(Twins(t, scope)) && Get(Twins(t, scope), works, EMPTY, "a", []).1 == Err(Circular([t, t]))
  {
    var g := Twins(t, scope);
    TwinsAreAcyclic(t, scope);
    assert [] + [t] == [t] && [t] + [t] == [t, t];
    assert Get(g, works, EMPTY, "b", [t]).1 == Err(Circular([t, t]));
    assert GetAll(g, works, EMPTY, ["b"], [t]).1 == Some(Circular([t, t]));
    assert Inject(g, works, EMPTY, g["a"].wires, [t]).1 == Some(Circular([t, t]));
  }

  /** Detection compares types: a registered pod that depends on another pod of
      its own type is rejected although there is no cycle. */
  lemma {:induction false} SameTypeIsMistakenForCycle(
    t: Type, scope: Scope, works: nat -> bool, selects: (Qualifier, Pod) -> bool)
    ensures var g := Twins(t, scope);
            && Wired(g, TwinPods(t, scope), map[], selects) && Closed(g) && Clean(g) && !ReachesCycle(g, "a")
            && Get(g, works, EMPTY, "a", []).1 == Err(Circular([t, t]))
  {
    TwinsAreWired(t, scope, selects);
    TwinsAreAcyclic(t, scope);
    TwinFails(t, scope, works);
  }

  lemma {:induction false} SecondTwin(t: Type, scope: Scope, path: seq<string>)
    requires IsPath(Twins(t, scope), path)
    ensures |path| > 1 && path[0] == "a" ==> path[1] == "b"
  {
    if |path| > 1 {
      assert DependsOn(Twins(t, scope), path[0], path[0 + 1]);
    }
  }

  /** The outcome depends on the order of requests: asking for the other
      singleton first makes the same request succeed. */
  lemma {:induction false} RequestOrderMatters(t: Type, works: nat -> bool)
    requires NothingFails(works)
    ensures var g := Twins(t, Singleton);
            && Closed(g)
            && Get(g, works, EMPTY, "a", []).1.Err?
            && var (s, first) := Get(g, works, EMPTY, "b", []);
               first.Ok? && Get(g, works, s, "a", []).1.Ok?
  {
    var g := Twins(t, Singleton);
    TwinsAreAcyclic(t, Singleton);
    TwinFails(t, Singleton, works);
    assert works(0) && g["b"].wires == [];
    assert Inject(g, works, EMPTY, [], [] + [t]) == (EMPTY, None, []);
    assert [] + [Call("b", [])] == [Call("b", [])];
    assert Instantiate(g, works, EMPTY, "b", []) == (State(map[], map[], [Call("b", [])]), Ok(0));
    var (s, first) := Get(g, works, EMPTY, "b", []);
    forall path: seq<string> | path != [] && path[0] == "a" && OpenPath(g, s, path)
      ensures !Repeating(g, path)
    {
      SecondTwin(t, Singleton, path);
    }
    WithoutOpenRepeatSucceeds(g, works, s, "a");
  }
}
