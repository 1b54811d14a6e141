/** Which workspace packages a change affects
    (scripts/lib/workspace.py and scripts/lib/git.py). */
module Workspace {

  /** `dependencies` holds the workspace packages among the declared ones. */
  datatype Package = Package(name: string, path: string, dependencies: set<string>)

  type Graph = map<string, set<string>>

  // ----- What "affected" means -----

  /** `y` depends directly on the workspace package `x`. */
  predicate DependsOn(packages: seq<Package>, y: string, x: string) {
    && (exists i :: 0 <= i < |packages| && packages[i].name == x)
    && (exists i :: 0 <= i < |packages| && packages[i].name == y && x in packages[i].dependencies)
  }

  /** `y` is changed, or reaches a changed package along at most `n` dependencies. */
  ghost predicate AffectedIn(packages: seq<Package>, changed: set<string>, y: string, n: nat)
    decreases n
  {
    y in changed || (n > 0 && exists x :: AffectedIn(packages, changed, x, n - 1) && DependsOn(packages, y, x))
  }

  ghost predicate Affected(packages: seq<Package>, changed: set<string>, y: string) {
    exists n: nat :: AffectedIn(packages, changed, y, n)
  }

  // ----- The reverse graph -----

  ghost predicate Reverses(packages: seq<Package>, graph: Graph) {
    && (forall x :: x in graph <==> exists i :: 0 <= i < |packages| && packages[i].name == x)
    && (forall x, y :: x in graph ==> (y in graph[x] <==> DependsOn(packages, y, x)))
  }

  /** The graph after the first `k` packages and, of the next one, all
      dependencies but those in `left`. */
  ghost predicate Partly(packages: seq<Package>, graph: Graph, k: nat, left: set<string>) {
    && k <= |packages|
    && (forall x :: x in graph <==> exists i :: 0 <= i < |packages| && packages[i].name == x)
    && (forall x, y :: x in graph ==> (y in graph[x] <==> Entered(packages, k, left, x, y)))
  }

  predicate Entered(packages: seq<Package>, k: nat, left: set<string>, x: string, y: string)
    requires k <= |packages|
  {
    || (exists i :: 0 <= i < k && packages[i].name == y && x in packages[i].dependencies)
    || (k < |packages| && packages[k].name == y && x in packages[k].dependencies && x !in left)
  }

  /** `build_reverse_dependency_graph`. */
  method BuildReverseGraph(packages: seq<Package>) returns (graph: Graph)
    ensures Reverses(packages, graph)
  {
    graph := map i | 0 <= i < |packages| :: packages[i].name := {};
    var k := 0;
    while k < |packages|
      invariant Partly(packages, graph, k, if k < |packages| then packages[k].dependencies else {})
    {
      var left := packages[k].dependencies;
      while left != {}
        invariant left <= packages[k].dependencies && Partly(packages, graph, k, left)
        decreases |left|
      {
        var x :| x in left;
        EnterOne(packages, graph, k, left, x);
        if x in graph { graph := graph[x := graph[x] + {packages[k].name}]; }
        left := left - {x};
      }
      FinishPackage(packages, graph, k);
      k := k + 1;
    }
    FinishGraph(packages, graph);
  }

  lemma {:induction false} EnterOne(packages: seq<Package>, graph: Graph, k: nat, left: set<string>, x: string)
    requires k < |packages| && left <= packages[k].dependencies && x in left && Partly(packages, graph, k, left)
    ensures Partly(packages, if x in graph then graph[x := graph[x] + {packages[k].name}] else graph, k, left - {x})
  {
  }

  lemma {:induction false} FinishPackage(packages: seq<Package>, graph: Graph, k: nat)
    requires k < |packages| && Partly(packages, graph, k, {})
    ensures Partly(packages, graph, k + 1, if k + 1 < |packages| then packages[k + 1].dependencies else {})
  {
    var left := if k + 1 < |packages| then packages[k + 1].dependencies else {};
    forall x, y
      ensures Entered(packages, k, {}, x, y) <==> Entered(packages, k + 1, left, x, y)
    {
    }
  }

  lemma {:induction false} FinishGraph(packages: seq<Package>, graph: Graph)
    requires Partly(packages, graph, |packages|, {})
    ensures Reverses(packages, graph)
  {
  }

  // ----- The closure -----

  ghost predicate ReachedIn(graph: Graph, names: set<string>, y: string, n: nat)
    decreases n
  {
    y in names || (n > 0 && exists x :: ReachedIn(graph, names, x, n - 1) && x in graph && y in graph[x])
  }

  ghost predicate Reached(graph: Graph, names: set<string>, y: string) {
    exists n: nat :: ReachedIn(graph, names, y, n)
  }

  lemma {:induction false} ReachedNext(graph: Graph, names: set<string>, x: string, y: string)
    requires Reached(graph, names, x) && x in graph && y in graph[x]
    ensures Reached(graph, names, y)
  {
    var n: nat :| ReachedIn(graph, names, x, n);
    assert ReachedIn(graph, names, y, n + 1);
  }

  predicate Closed(graph: Graph, result: set<string>, open: set<string>) {
    forall x, y :: x in result && x !in open && x in graph && y in graph[x] ==> y in result
  }

  lemma {:induction false} ClosedHoldsAll(graph: Graph, names: set<string>, result: set<string>, y: string, n: nat)
    requires names <= result && Closed(graph, result, {}) && ReachedIn(graph, names, y, n)
    ensures y in result
    decreases n
  {
    if y !in names {
      var x :| ReachedIn(graph, names, x, n - 1) && x in graph && y in graph[x];
      ClosedHoldsAll(graph, names, result, x, n - 1);
    }
  }

  /** Everything the worklist could ever add. */
  ghost function Universe(graph: Graph, names: set<string>): set<string> {
    names + set x, y | x in graph && y in graph[x] :: y
  }

  ghost function Elements(work: seq<string>): set<string> {
    set i | 0 <= i < |work| :: work[i]
  }

  /** What holds between two steps of the worklist. */
  ghost predicate Underway(graph: Graph, names: set<string>, result: set<string>, open: set<string>) {
    && names <= result <= Universe(graph, names)
    && open <= result
    && (forall y :: y in result ==> Reached(graph, names, y))
    && Closed(graph, result, open)
  }

  lemma {:induction false} LessIsLeft(universe: set<string>, known: set<string>, more: set<string>)
    requires known <= more <= universe
    ensures more == known || |universe - more| < |universe - known|
  {
    if more != known {
      var x :| x in more && x !in known;
      Fewer(universe - more, universe - known, x);
    }
  }

  lemma {:induction false} Fewer(a: set<string>, b: set<string>, x: string)
    requires a <= b && x in b && x !in a
    ensures |a| < |b|
  {
    var rest := b - a - {x};
    assert b == a + {x} + rest;
    assert |b| == |a| + 1 + |rest|;
  }

  /** `get_dependent_packages`: exactly what is reachable, also along cycles.
      The work list starts as any listing of `names`. */
  method GetDependentPackages(names: set<string>, listing: seq<string>, graph: Graph) returns (result: set<string>)
    requires Elements(listing) == names
    ensures forall y :: y in result <==> Reached(graph, names, y)
  {
    result := names;
    var work := listing;
    assert forall y :: y in names ==> ReachedIn(graph, names, y, 0);
    while work != []
      invariant Underway(graph, names, result, Elements(work))
      decreases |Universe(graph, names) - result|, |work|
    {
      var current := work[|work| - 1];
      ghost var before := work;
      work := work[..|work| - 1];
      PopKeeps(before);
      if current in graph {
        ghost var known := result;
        result, work := AddDependents(names, graph, result, work, current);
        LessIsLeft(Universe(graph, names), known, result);
      }
    }
    forall y | Reached(graph, names, y)
      ensures y in result
    {
      var n: nat :| ReachedIn(graph, names, y, n);
      ClosedHoldsAll(graph, names, result, y, n);
    }
  }

  lemma {:induction false} PopKeeps(work: seq<string>)
    requires work != []
    ensures Elements(work) == Elements(work[..|work| - 1]) + {work[|work| - 1]}
  {
    var n := |work| - 1;
    forall x | x in Elements(work)
      ensures x in Elements(work[..n]) + {work[n]}
    {
      var i :| 0 <= i <= n && work[i] == x;
      if i < n { assert work[..n][i] == x; }
    }
    forall x | x in Elements(work[..n])
      ensures x in Elements(work)
    {
      var i :| 0 <= i < n && work[..n][i] == x;
      assert work[i] == x;
    }
    assert work[n] in Elements(work);
  }

  lemma {:induction false} PushElements(work: seq<string>, x: string)
    ensures Elements(work + [x]) == Elements(work) + {x}
  {
    PopKeeps(work + [x]);
    assert (work + [x])[..|work|] == work;
  }

  /** The inner loop: the dependents of `current` join the result and the work. */
  method AddDependents(ghost names: set<string>, graph: Graph, result: set<string>, work: seq<string>, current: string)
    returns (result': set<string>, work': seq<string>)
    requires current in graph && current in result && Underway(graph, names, result, Elements(work) + {current})
    ensures Underway(graph, names, result', Elements(work'))
    ensures result <= result' && (result' == result ==> work' == work)
  {
    result', work' := result, work;
    var left := graph[current];
    while left != {}
      invariant left <= graph[current] && graph[current] - left <= result'
      invariant result <= result' && (result' == result ==> work' == work)
      invariant Underway(graph, names, result', Elements(work') + {current})
      decreases |left|
    {
      var y :| y in left;
      left := left - {y};
      if y !in result' {
        ReachedNext(graph, names, current, y);
        PushElements(work', y);
        AddKeeps(graph, names, result', Elements(work') + {current}, current, y);
        assert Elements(work') + {current} + {y} == Elements(work') + {y} + {current};
        result', work' := result' + {y}, work' + [y];
      }
    }
    CloseKeeps(graph, names, result', Elements(work'), current);
  }

  lemma {:induction false} AddKeeps(
      graph: Graph, names: set<string>, result: set<string>, open: set<string>, x: string, y: string)
    requires Underway(graph, names, result, open) && Reached(graph, names, y) && x in graph && y in graph[x]
    ensures Underway(graph, names, result + {y}, open + {y})
  {
    assert y in Universe(graph, names);
  }

  lemma {:induction false} CloseKeeps(
      graph: Graph, names: set<string>, result: set<string>, open: set<string>, x: string)
    requires Underway(graph, names, result, open + {x}) && x in graph && graph[x] <= result
    ensures Underway(graph, names, result, open)
  {
  }

  // ----- Affected packages -----

  /** Reachable in the reverse graph is affected along dependencies. */
  lemma {:induction false} ReachedIsAffected(
      packages: seq<Package>, graph: Graph, changed: set<string>, y: string, n: nat)
    requires Reverses(packages, graph)
    ensures ReachedIn(graph, changed, y, n) <==> AffectedIn(packages, changed, y, n)
    decreases n
  {
    if y !in changed && n > 0 {
      var m: nat := n - 1;
      forall x
        ensures ReachedIn(graph, changed, x, m) <==> AffectedIn(packages, changed, x, m)
      {
        ReachedIsAffected(packages, graph, changed, x, m);
      }
      if AffectedIn(packages, changed, y, n) {
        var x :| AffectedIn(packages, changed, x, n - 1) && DependsOn(packages, y, x);
        assert x in graph && y in graph[x] && ReachedIn(graph, changed, x, n - 1);
      }
      if ReachedIn(graph, changed, y, n) {
        var x :| ReachedIn(graph, changed, x, n - 1) && x in graph && y in graph[x];
        assert DependsOn(packages, y, x) && AffectedIn(packages, changed, x, n - 1);
      }
    }
  }

  lemma {:induction false} ReachedIffAffected(packages: seq<Package>, graph: Graph, changed: set<string>, y: string)
    requires Reverses(packages, graph)
    ensures Reached(graph, changed, y) <==> Affected(packages, changed, y)
  {
    if n: nat :| ReachedIn(graph, changed, y, n) {
      ReachedIsAffected(packages, graph, changed, y, n);
    }
    if n: nat :| AffectedIn(packages, changed, y, n) {
      ReachedIsAffected(packages, graph, changed, y, n);
    }
  }

  predicate Touched(p: Package, files: set<string>) {
    exists f :: f in files && p.path + "/" <= f
  }

  function DirectlyChanged(packages: seq<Package>, files: set<string>): set<string> {
    set i | 0 <= i < |packages| && Touched(packages[i], files) :: packages[i].name
  }

  /** The affected packages, in workspace order. */
  ghost function AffectedOnly(packages: seq<Package>, changed: set<string>, n: nat): seq<Package>
    requires n <= |packages|
    decreases n
  {
    if n == 0 then []
    else
      AffectedOnly(packages, changed, n - 1)
      + (if Affected(packages, changed, packages[n - 1].name) then [packages[n - 1]] else [])
  }

  const CORE := "spakky"

  /** `get_changed_packages`. */
  method GetChangedPackages(
      packages: seq<Package>, files: set<string>, listing: seq<string>) returns (result: seq<Package>)
    requires Elements(listing) == DirectlyChanged(packages, files)
    ensures CORE in DirectlyChanged(packages, files) ==> result == packages
    ensures CORE !in DirectlyChanged(packages, files) ==>
              result == AffectedOnly(packages, DirectlyChanged(packages, files), |packages|)
    ensures (forall i :: 0 <= i < |packages| ==> NeedsCore(packages, packages[i])) ==>
              result == AffectedOnly(packages, DirectlyChanged(packages, files), |packages|)
  {
    var changed: set<string> := {};
    var i := 0;
    while i < |packages|
      invariant 0 <= i <= |packages|
      invariant changed == DirectlyChanged(packages[..i], files)
    {
      ChangedNext(packages, files, i);
      if Touched(packages[i], files) { changed := changed + {packages[i].name}; }
      i := i + 1;
    }
    assert packages[..i] == packages;
    if CORE in changed {
      if forall i :: 0 <= i < |packages| ==> NeedsCore(packages, packages[i]) {
        CoreAffectsAll(packages, changed);
      }
      return packages;
    }
    var graph := BuildReverseGraph(packages);
    var affected := GetDependentPackages(changed, listing, graph);
    result := [];
    i := 0;
    while i < |packages|
      invariant 0 <= i <= |packages|
      invariant result == AffectedOnly(packages, changed, i)
    {
      ReachedIffAffected(packages, graph, changed, packages[i].name);
      if packages[i].name in affected { result := result + [packages[i]]; }
      i := i + 1;
    }
  }

  lemma {:induction false} ChangedNext(packages: seq<Package>, files: set<string>, i: nat)
    requires i < |packages|
    ensures DirectlyChanged(packages[..i + 1], files)
         == DirectlyChanged(packages[..i], files) + (if Touched(packages[i], files) then {packages[i].name} else {})
  {
    var some, more := packages[..i], packages[..i + 1];
    assert more == some + [packages[i]];
    forall name | name in DirectlyChanged(some, files)
      ensures name in DirectlyChanged(more, files)
    {
      var k :| 0 <= k < i && Touched(some[k], files) && some[k].name == name;
      assert more[k] == some[k];
    }
    forall name | name in DirectlyChanged(more, files)
      ensures name in DirectlyChanged(some, files) || (Touched(packages[i], files) && name == packages[i].name)
    {
      var k :| 0 <= k <= i && Touched(more[k], files) && more[k].name == name;
      if k < i { assert some[k] == more[k]; }
    }
    if Touched(packages[i], files) { assert more[i] == packages[i]; }
  }

  lemma {:induction false} AllAffected(packages: seq<Package>, changed: set<string>, n: nat)
    requires n <= |packages|
    ensures |AffectedOnly(packages, changed, n)| <= n
    ensures AffectedOnly(packages, changed, n) == packages[..n]
       <==> forall i :: 0 <= i < n ==> Affected(packages, changed, packages[i].name)
    decreases n
  {
    if n > 0 {
      AllAffected(packages, changed, n - 1);
      var before := AffectedOnly(packages, changed, n - 1);
      assert packages[..n] == packages[..n - 1] + [packages[n - 1]];
      if AffectedOnly(packages, changed, n) == packages[..n] {
        assert |AffectedOnly(packages, changed, n)| == n;
        assert AffectedOnly(packages, changed, n)[..n - 1] == before;
      }
    }
  }

  /** The more changed, the more affected. */
  lemma {:induction false} AffectedGrows(
      packages: seq<Package>, changed: set<string>, more: set<string>, y: string, n: nat)
    requires changed <= more && AffectedIn(packages, changed, y, n)
    ensures AffectedIn(packages, more, y, n)
    decreases n
  {
    if y !in changed {
      var x :| AffectedIn(packages, changed, x, n - 1) && DependsOn(packages, y, x);
      AffectedGrows(packages, changed, more, x, n - 1);
    }
  }

  /** The package is the core, or depends on it, however indirectly. */
  ghost predicate NeedsCore(packages: seq<Package>, p: Package) {
    Affected(packages, {CORE}, p.name)
  }

  ghost predicate ShortcutExact(packages: seq<Package>, changed: set<string>) {
    CORE in changed ==> AffectedOnly(packages, changed, |packages|) == packages
  }

  /** A change of the core affects every package that needs it. */
  lemma {:induction false} CoreAffectsAll(packages: seq<Package>, changed: set<string>)
    requires CORE in changed && forall i :: 0 <= i < |packages| ==> NeedsCore(packages, packages[i])
    ensures AffectedOnly(packages, changed, |packages|) == packages
  {
    forall i | 0 <= i < |packages|
      ensures Affected(packages, changed, packages[i].name)
    {
      assert NeedsCore(packages, packages[i]);
      var n: nat :| AffectedIn(packages, {CORE}, packages[i].name, n);
      AffectedGrows(packages, {CORE}, changed, packages[i].name, n);
    }
    AllAffected(packages, changed, |packages|);
    assert packages[..|packages|] == packages;
  }

  /** The shortcut returns exactly the affected packages, for every change of
      the core, if and only if every package needs the core. */
  lemma {:induction false} ShortcutIsExactIff(packages: seq<Package>)
    ensures (forall changed :: ShortcutExact(packages, changed))
       <==> (forall i :: 0 <= i < |packages| ==> NeedsCore(packages, packages[i]))
  {
    if forall i :: 0 <= i < |packages| ==> NeedsCore(packages, packages[i]) {
      forall changed
        ensures ShortcutExact(packages, changed)
      {
        if CORE in changed {
          CoreAffectsAll(packages, changed);
        }
      }
    }
    if forall changed :: ShortcutExact(packages, changed) {
      assert ShortcutExact(packages, {CORE});
      AllAffected(packages, {CORE}, |packages|);
      assert packages[..|packages|] == packages;
    }
  }

  /** A workspace with a package that does not need the core. */
  function Separate(): seq<Package> {
    [Package(CORE, "core/spakky", {}), Package("tool", "tools/tool", {})]
  }

  lemma {:induction false} NoDependencyNoEffect(packages: seq<Package>, changed: set<string>, y: string, n: nat)
    requires y !in changed && forall x :: !DependsOn(packages, y, x)
    ensures !AffectedIn(packages, changed, y, n)
  {
  }

  /** There the shortcut returns a package that the change does not affect. */
  lemma {:induction false} UnaffectedPackageIsReturned()
    ensures var packages, files := Separate(), {"core/spakky/x"};
            var changed := DirectlyChanged(packages, files);
            CORE in changed && !Affected(packages, changed, "tool") && !ShortcutExact(packages, changed)
  {
    var packages, files := Separate(), {"core/spakky/x"};
    assert packages[0].path + "/" == "core/spakky/x"[..12];
    assert Touched(packages[0], files);
    assert "tools/tool/"[0] != "core/spakky/x"[0];
    assert !Touched(packages[1], files);
    var changed := DirectlyChanged(packages, files);
    assert changed == {CORE};
    assert |CORE| != |"tool"|;
    forall n: nat
      ensures !AffectedIn(packages, changed, "tool", n)
    {
      NoDependencyNoEffect(packages, changed, "tool", n);
    }
    assert packages[1].name == "tool";
    AllAffected(packages, changed, 2);
    assert packages[..2] == packages;
  }
}
