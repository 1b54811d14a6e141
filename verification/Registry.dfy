/** The pod registry of the application context
    (core/spakky/src/spakky/core/application/application_context.py): the
    type index and the choice of one candidate for a requested type. */
module Registry {
  import opened Wrappers

  type Type(!new, ==)

  type Qualifier(!new, ==)

  datatype Scope = Singleton | Prototype | Context

  datatype Dependency = Dependency(
    name: string,
    type_: Type,
    hasDefault: bool,
    isOptional: bool,
    qualifiers: seq<Qualifier>,
    isCollection: bool)

  datatype Pod = Pod(
    id: nat,
    name: string,
    type_: Type,
    baseTypes: set<Type>,
    isPrimary: bool,
    scope: Scope,
    dependencies: seq<Dependency>)

  datatype Binding = Binding(interface: Type, implementationType: Option<Type>, implementationName: Option<string>)

  // ----- The registry, by scanning -----

  predicate Provides(pod: Pod, t: Type) {
    pod.type_ == t || t in pod.baseTypes
  }

  /** The candidates for a type, found the slow way. */
  function Scan(pods: map<string, Pod>, t: Type): set<Pod> {
    set pod | pod in pods.Values && Provides(pod, t)
  }

  /** The candidates for a type, by the index. */
  function Lookup(typeCache: map<Type, set<Pod>>, t: Type): set<Pod> {
    if t in typeCache then typeCache[t] else {}
  }

  // ----- The declarative rule -----

  datatype Verdict = Chosen(pod: Pod) | Missing | Ambiguous(pods: set<Pod>) | BadBinding

  datatype Request = Request(type_: Type, name: Option<string>, nameIsParameter: bool, qualifiers: seq<Qualifier>)
  {
    /** A name the caller asked for, as opposed to a parameter name. */
    predicate ByName() {
      name.Some? && !nameIsParameter
    }
  }

  predicate Qualified(selects: (Qualifier, Pod) -> bool, qualifiers: seq<Qualifier>, pod: Pod) {
    forall q | q in qualifiers :: selects(q, pod)
  }

  predicate Bound(binding: Binding, pod: Pod) {
    if binding.implementationName.Some? then pod.name == binding.implementationName.value
    else Some(pod.type_) == binding.implementationType
  }

  function QualifiedOf(selects: (Qualifier, Pod) -> bool, qualifiers: seq<Qualifier>, pods: set<Pod>): set<Pod> {
    set p | p in pods && Qualified(selects, qualifiers, p)
  }

  function NamedOf(name: string, pods: set<Pod>): set<Pod> {
    set p | p in pods && p.name == name
  }

  function BoundOf(binding: Binding, pods: set<Pod>): set<Pod> {
    set p | p in pods && Bound(binding, p)
  }

  function PrimaryOf(pods: set<Pod>): set<Pod> {
    set p | p in pods && p.isPrimary
  }

  ghost predicate Many(pods: set<Pod>) {
    exists p, q :: p in pods && q in pods && p != q
  }

  /** Which verdicts a request over the candidates `pods` allows.  Explicit
      qualifiers decide alone; otherwise an explicit name decides alone;
      otherwise a binding decides alone; otherwise a sole candidate, a sole
      primary and finally the parameter name are tried in that order. */
  ghost predicate Allowed(
    v: Verdict, pods: set<Pod>, binding: Option<Binding>, r: Request, selects: (Qualifier, Pod) -> bool)
  {
    var qualified := QualifiedOf(selects, r.qualifiers, pods);
    var primary := PrimaryOf(pods);
    var open := r.qualifiers == [] && !r.ByName();
    match v
    case Chosen(pod) =>
      || (r.qualifiers != [] && qualified == {pod})
      || (r.qualifiers == [] && r.ByName() && NamedOf(r.name.value, pods) == {pod})
      || (open && binding.Some? && BoundOf(binding.value, pods) == {pod})
      || (open && binding.None? && pods == {pod})
      || (open && binding.None? && Many(pods) && primary == {pod})
      || (open && binding.None? && Many(pods) && primary == {} && r.name.Some? && NamedOf(r.name.value, pods) == {pod})
    case Missing =>
      || pods == {}
      || (r.qualifiers != [] && qualified == {})
      || (r.qualifiers == [] && r.ByName() && NamedOf(r.name.value, pods) == {})
    case BadBinding =>
      && pods != {} && open && binding.Some?
      && (BoundOf(binding.value, pods) == {} || Many(BoundOf(binding.value, pods)))
    case Ambiguous(several) =>
      && Many(several)
      && (|| (r.qualifiers != [] && several == qualified)
          || (open && binding.None? && several == primary)
          || (open && binding.None? && several == pods && primary == {}
              && (r.name.None? || NamedOf(r.name.value, pods) == {})))
  }

  /** The rule admits at most one verdict, so resolution cannot depend on the
      order in which a set is iterated. */
  lemma {:induction false} VerdictIsUnique(
    v: Verdict, w: Verdict, pods: set<Pod>, binding: Option<Binding>, r: Request, selects: (Qualifier, Pod) -> bool)
    requires Allowed(v, pods, binding, r, selects) && Allowed(w, pods, binding, r, selects)
    ensures v == w
  {
    if v.Chosen? && w.Chosen? {
      assert v.pod in {v.pod} && w.pod in {w.pod};
    }
    if v.Chosen? {
      assert v.pod in {v.pod};
      assert !Many({v.pod});
    }
    if w.Chosen? {
      assert w.pod in {w.pod};
      assert !Many({w.pod});
    }
    assert !Many({});
  }

  /** A chosen pod is a candidate and honours every explicit selector. */
  lemma {:induction false} ChoiceHonoursSelectors(
    v: Verdict, pods: set<Pod>, binding: Option<Binding>, r: Request, selects: (Qualifier, Pod) -> bool)
    requires v.Chosen? && Allowed(v, pods, binding, r, selects)
    ensures v.pod in pods
    ensures Qualified(selects, r.qualifiers, v.pod)
    ensures r.qualifiers == [] && r.ByName() ==> v.pod.name == r.name.value
    ensures r.qualifiers == [] && !r.ByName() && binding.Some? ==> Bound(binding.value, v.pod)
  {
    assert v.pod in {v.pod};
  }

  // ----- The registry object -----

  datatype AddResult = Added | AlreadyAdded | NameTaken

  class ApplicationRegistry {
    const selects: (Qualifier, Pod) -> bool
    var pods: map<string, Pod>
    var typeCache: map<Type, set<Pod>>
    var bindings: map<Type, Binding>

    /** The index answers every type lookup as a scan of all pods would. */
    ghost predicate Valid()
      reads this
    {
      && (forall n | n in pods :: pods[n].name == n)
      && (forall t: Type :: Lookup(typeCache, t) == Scan(pods, t))
      && (forall t | t in bindings :: bindings[t].implementationName.Some? != bindings[t].implementationType.Some?)
    }

    function BindingFor(t: Type): Option<Binding>
      reads this
    {
      if t in bindings then Some(bindings[t]) else None
    }

    constructor (selects: (Qualifier, Pod) -> bool)
      ensures Valid() && this.selects == selects
      ensures pods == map[] && bindings == map[]
    {
      this.selects := selects;
      pods, typeCache, bindings := map[], map[], map[];
    }

    method IndexUnder(t: Type, pod: Pod)
      modifies this`typeCache
      ensures forall u: Type ::
        Lookup(typeCache, u) == if u == t then Lookup(old(typeCache), u) + {pod} else Lookup(old(typeCache), u)
    {
      if t !in typeCache {
        typeCache := typeCache[t := {}];
      }
      typeCache := typeCache[t := typeCache[t] + {pod}];
    }

    method IndexPod(pod: Pod)
      modifies this`typeCache
      ensures forall u: Type ::
        Lookup(typeCache, u)
        == if Provides(pod, u) then Lookup(old(typeCache), u) + {pod} else Lookup(old(typeCache), u)
    {
      IndexUnder(pod.type_, pod);
      var rest := pod.baseTypes;
      while rest != {}
        invariant rest <= pod.baseTypes
        invariant forall u: Type ::
          Lookup(typeCache, u) == if u == pod.type_ || u in pod.baseTypes - rest then Lookup(old(typeCache), u) + {pod}
                                  else Lookup(old(typeCache), u)
        decreases |rest|
      {
        var t :| t in rest;
        IndexUnder(t, pod);
        rest := rest - {t};
      }
    }

    method Add(pod: Pod) returns (result: AddResult)
      requires Valid()
      modifies this`pods, this`typeCache
      ensures Valid()
      ensures result == if pod.name !in old(pods) then Added
                        else if old(pods)[pod.name].id == pod.id then AlreadyAdded else NameTaken
      ensures pods == if result.Added? then old(pods)[pod.name := pod] else old(pods)
    {
      if pod.name in pods {
        return if pods[pod.name].id == pod.id then AlreadyAdded else NameTaken;
      }
      ScanAfterAdd(pods, pod);
      pods := pods[pod.name := pod];
      IndexPod(pod);
      result := Added;
    }

    method Bind(binding: Binding) returns (ok: bool)
      requires Valid()
      modifies this`bindings
      ensures Valid()
      ensures ok <==> binding.implementationName.Some? != binding.implementationType.Some?
      ensures bindings == if ok then old(bindings)[binding.interface := binding] else old(bindings)
    {
      var byType := if binding.implementationType.Some? then 1 else 0;
      var count := byType + (if binding.implementationName.Some? then 1 else 0);
      if count != 1 {
        return false;
      }
      bindings := bindings[binding.interface := binding];
      ok := true;
    }

    /** What `stop` leaves of the registry. */
    method ClearAll()
      modifies this`pods, this`typeCache, this`bindings
      ensures Valid() && pods == map[] && bindings == map[]
    {
      pods, typeCache, bindings := map[], map[], map[];
    }

    method ResolveBinding(candidates: set<Pod>, binding: Binding) returns (v: Verdict)
      requires candidates != {}
      ensures v.Chosen? ==> BoundOf(binding, candidates) == {v.pod}
      ensures !v.Chosen? ==> v == BadBinding
      ensures !v.Chosen? ==> BoundOf(binding, candidates) == {} || Many(BoundOf(binding, candidates))
    {
      var bound := set p | p in candidates && Bound(binding, p);
      assert bound == BoundOf(binding, candidates);
      v := Unique(bound, BadBinding);
    }

    /** The only element of a set, or `otherwise`. */
    method Unique(pods: set<Pod>, otherwise: Verdict) returns (v: Verdict)
      ensures v == otherwise || v.Chosen?
      ensures v.Chosen? && v != otherwise ==> pods == {v.pod}
      ensures (exists p :: pods == {p}) ==> v.Chosen? && pods == {v.pod}
      ensures (forall p :: pods != {p}) ==> v == otherwise && (pods == {} || Many(pods))
    {
      if |pods| == 1 {
        var p :| p in pods;
        OnlyElement(pods, p);
        return Chosen(p);
      }
      NotOne(pods);
      v := otherwise;
    }

    method Resolve(r: Request) returns (v: Verdict)
      requires Valid()
      ensures Allowed(v, Scan(pods, r.type_), BindingFor(r.type_), r, selects)
    {
      var candidates := Lookup(typeCache, r.type_);
      if candidates == {} {
        return Missing;
      }
      if r.qualifiers != [] {
        var qualified := set p | p in candidates && Qualified(selects, r.qualifiers, p);
        assert qualified == QualifiedOf(selects, r.qualifiers, candidates);
        if qualified == {} {
          return Missing;
        }
        v := Unique(qualified, Ambiguous(qualified));
        return;
      }
      if r.name.Some? && !r.nameIsParameter {
        var named := set p | p in candidates && p.name == r.name.value;
        assert named == NamedOf(r.name.value, candidates);
        NamedIsAtMostOne(pods, r.type_, r.name.value);
        v := Unique(named, Missing);
        return;
      }
      if r.type_ in bindings {
        v := ResolveBinding(candidates, bindings[r.type_]);
        return;
      }
      v := ResolveOpen(candidates, r);
    }

    /** All candidates of a collection dependency, in name order. */
    method ResolveCollection(t: Type, qualifiers: seq<Qualifier>) returns (result: seq<Pod>)
      requires Valid()
      ensures SortedByName(result)
      ensures (set p | p in result) == QualifiedOf(selects, qualifiers, Scan(pods, t))
    {
      var rest := set p | p in Lookup(typeCache, t) && Qualified(selects, qualifiers, p);
      ghost var all := rest;
      assert all == QualifiedOf(selects, qualifiers, Scan(pods, t));
      result := [];
      while rest != {}
        invariant rest <= all
        invariant SortedByName(result) && (set p | p in result) == all - rest
        decreases |rest|
      {
        var p :| p in rest;
        assert forall q | q in result :: q in (set p | p in result) && q in all - rest;
        NamesDiffer(pods, t, p, result);
        InsertSorts(p, result);
        result := Insert(p, result);
        rest := rest - {p};
      }
    }

    method ResolveOpen(candidates: set<Pod>, r: Request) returns (v: Verdict)
      requires Valid() && candidates != {} && candidates == Scan(pods, r.type_)
      requires r.qualifiers == [] && !r.ByName()
      ensures Allowed(v, candidates, None, r, selects)
    {
      if |candidates| == 1 {
        var p :| p in candidates;
        OnlyElement(candidates, p);
        return Chosen(p);
      }
      NotOne(candidates);
      var primary := set p | p in candidates && p.isPrimary;
      assert primary == PrimaryOf(candidates);
      if primary != {} {
        v := Unique(primary, Ambiguous(primary));
        return;
      }
      if r.name.Some? && r.nameIsParameter {
        var named := set p | p in candidates && p.name == r.name.value;
        assert named == NamedOf(r.name.value, candidates);
        NamedIsAtMostOne(pods, r.type_, r.name.value);
        v := Unique(named, Ambiguous(candidates));
        return;
      }
      v := Ambiguous(candidates);
    }
  }

  lemma {:induction false} OnlyElement(pods: set<Pod>, p: Pod)
    requires |pods| == 1 && p in pods
    ensures pods == {p}
  {
    assert |pods - {p}| == 0;
  }

  lemma {:induction false} NotOne(pods: set<Pod>)
    requires |pods| != 1
    ensures pods == {} || Many(pods)
    ensures forall p :: pods != {p}
  {
    if pods != {} {
      var p :| p in pods;
      assert pods - {p} != {} by {
        assert |pods - {p}| == |pods| - 1;
      }
      var q :| q in pods - {p};
    }
  }

  /** Names key the registry, so an explicit name matches at most one pod. */
  lemma {:induction false} NamedIsAtMostOne(pods: map<string, Pod>, t: Type, name: string)
    requires forall n | n in pods :: pods[n].name == n
    ensures !Many(NamedOf(name, Scan(pods, t)))
  {
    forall p, q | p in NamedOf(name, Scan(pods, t)) && q in NamedOf(name, Scan(pods, t))
      ensures p == q
    {
      var m :| m in pods && pods[m] == p;
      var n :| n in pods && pods[n] == q;
    }
  }

  lemma {:induction false} ScanAfterAdd(pods: map<string, Pod>, pod: Pod)
    requires pod.name !in pods
    ensures forall t: Type ::
      Scan(pods[pod.name := pod], t) == if Provides(pod, t) then Scan(pods, t) + {pod} else Scan(pods, t)
  {
    var more := pods[pod.name := pod];
    forall t: Type
      ensures Scan(more, t) == if Provides(pod, t) then Scan(pods, t) + {pod} else Scan(pods, t)
    {
      forall p
        ensures p in more.Values <==> p in pods.Values || p == pod
      {
        if p in pods.Values {
          var n :| n in pods && pods[n] == p;
          assert more[n] == p;
        }
        assert more[pod.name] == pod;
      }
    }
  }

  // ----- Name order -----

  /** Strict lexicographic order on names. */
  predicate Precedes(a: string, b: string) {
    if b == "" then false
    else if a == "" then true
    else if a[0] != b[0] then a[0] < b[0]
    else Precedes(a[1..], b[1..])
  }

  lemma {:induction false} PrecedesIsTotal(a: string, b: string)
    ensures a == b || Precedes(a, b) || Precedes(b, a)
    ensures !(Precedes(a, b) && Precedes(b, a)) && !Precedes(a, a)
    decreases |a| + |b|
  {
    if a != "" {
      PrecedesIsIrreflexive(a);
    }
    if a != "" && b != "" && a[0] == b[0] {
      PrecedesIsTotal(a[1..], b[1..]);
      assert a == [a[0]] + a[1..] && b == [b[0]] + b[1..];
    }
  }

  lemma {:induction false} PrecedesIsIrreflexive(a: string)
    ensures !Precedes(a, a)
    decreases |a|
  {
    if a != "" {
      PrecedesIsIrreflexive(a[1..]);
    }
  }

  lemma {:induction false} PrecedesIsTransitive(a: string, b: string, c: string)
    requires Precedes(a, b) && Precedes(b, c)
    ensures Precedes(a, c)
    decreases |a|
  {
    if a != "" && a[0] == b[0] == c[0] {
      PrecedesIsTransitive(a[1..], b[1..], c[1..]);
    }
  }

  /** The names first differ at `k`, where `a` ends or has the smaller character. */
  predicate DifferAt(a: string, b: string, k: nat) {
    k <= |a| && k < |b| && a[..k] == b[..k] && (k == |a| || a[k] < b[k])
  }

  /** The order of names is that of strings: by the first character that differs,
      and a prefix comes first. */
  lemma {:induction false} PrecedesIsLexicographic(a: string, b: string)
    ensures Precedes(a, b) <==> exists k: nat :: DifferAt(a, b, k)
    decreases |a|
  {
    if b != "" && a != "" && a[0] == b[0] {
      PrecedesIsLexicographic(a[1..], b[1..]);
      forall k: nat
        ensures DifferAt(a[1..], b[1..], k) <==> DifferAt(a, b, k + 1)
      {
        if k + 1 <= |a| && k + 1 < |b| {
          assert a[..k + 1] == [a[0]] + a[1..][..k] && b[..k + 1] == [b[0]] + b[1..][..k];
          assert a[1..][..k] == a[..k + 1][1..] && b[1..][..k] == b[..k + 1][1..];
        }
      }
      forall k: nat | DifferAt(a, b, k)
        ensures k > 0
      {
      }
      if k: nat :| DifferAt(a, b, k) {
        assert DifferAt(a[1..], b[1..], k - 1);
      }
      if k: nat :| DifferAt(a[1..], b[1..], k) {
        assert DifferAt(a, b, k + 1);
      }
    } else if b != "" {
      assert a[..0] == b[..0];
      if Precedes(a, b) {
        assert DifferAt(a, b, 0);
      }
      if k: nat :| DifferAt(a, b, k) {
        assert k > 0 ==> a[..k][0] == b[..k][0];
      }
    }
  }

  ghost predicate SortedByName(pods: seq<Pod>) {
    forall i, j | 0 <= i < j < |pods| :: Precedes(pods[i].name, pods[j].name)
  }

  function Insert(p: Pod, pods: seq<Pod>): seq<Pod> {
    if pods == [] then [p]
    else if Precedes(p.name, pods[0].name) then [p] + pods
    else [pods[0]] + Insert(p, pods[1..])
  }

  lemma {:induction false} InsertSorts(p: Pod, pods: seq<Pod>)
    requires SortedByName(pods) && forall q | q in pods :: q.name != p.name
    ensures SortedByName(Insert(p, pods))
    ensures (set q | q in Insert(p, pods)) == (set q | q in pods) + {p}
    ensures forall q | q in Insert(p, pods) :: q in pods || q == p
    decreases |pods|
  {
    if pods != [] {
      PrecedesIsTotal(p.name, pods[0].name);
      if Precedes(p.name, pods[0].name) {
        forall j | 0 <= j < |pods|
          ensures Precedes(p.name, pods[j].name)
        {
          if j > 0 {
            PrecedesIsTransitive(p.name, pods[0].name, pods[j].name);
          }
        }
      } else {
        InsertSorts(p, pods[1..]);
        var rest := Insert(p, pods[1..]);
        forall j | 0 <= j < |rest|
          ensures Precedes(pods[0].name, rest[j].name)
        {
          assert rest[j] in rest;
        }
        assert pods == [pods[0]] + pods[1..];
      }
    }
  }

  /** Sorted sequences of the same pods are equal: collection injection does
      not depend on set iteration order. */
  lemma {:induction false} SortedIsUnique(a: seq<Pod>, b: seq<Pod>)
    requires SortedByName(a) && SortedByName(b) && (forall p :: p in a <==> p in b)
    ensures a == b
    decreases |a|
  {
    if a == [] {
      NoMembers(b);
    } else {
      assert a[0] in b;
      assert |b| > 0;
      FirstIsSame(a, b);
      forall p
        ensures p in a[1..] <==> p in b[1..]
      {
        TailOf(a, p);
        TailOf(b, p);
      }
      SortedIsUnique(a[1..], b[1..]);
    }
  }

  lemma {:induction false} NoMembers(a: seq<Pod>)
    ensures a == [] || a[0] in a
  {
  }

  lemma {:induction false} TailOf(a: seq<Pod>, p: Pod)
    requires SortedByName(a) && |a| > 0
    ensures p in a[1..] <==> p in a && p != a[0]
  {
    PrecedesIsIrreflexive(a[0].name);
  }

  lemma {:induction false} FirstIsSame(a: seq<Pod>, b: seq<Pod>)
    requires SortedByName(a) && SortedByName(b) && |a| > 0 && |b| > 0 && (forall p :: p in a <==> p in b)
    ensures a[0] == b[0]
  {
    PrecedesIsTotal(a[0].name, b[0].name);
    assert a[0] in b && b[0] in a;
    var i :| 0 <= i < |b| && b[i] == a[0];
    var j :| 0 <= j < |a| && a[j] == b[0];
  }

  lemma {:induction false} NamesDiffer(pods: map<string, Pod>, t: Type, p: Pod, others: seq<Pod>)
    requires forall n | n in pods :: pods[n].name == n
    requires p in Scan(pods, t) && p !in others && forall q | q in others :: q in Scan(pods, t)
    ensures forall q | q in others :: q.name != p.name
  {
    forall q | q in others
      ensures q.name != p.name
    {
      var m :| m in pods && pods[m] == p;
      var n :| n in pods && pods[n] == q;
    }
  }
}
