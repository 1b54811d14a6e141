/** Caching and eviction around method calls
    (core/spakky-cache/src/spakky/cache/aspects/cache_aspect.py).

    The data a method works on is an abstract value.  A cacheable method reads
    it, an evicting method may change it.  The question is when calls made
    through the aspect answer exactly as calls made without it. */
module Cache {
  import opened Wrappers

  type Call(!new, ==)
  type Data(!new, ==)
  type Value(!new, ==)

  datatype Answer =
    | Returned(value: Value)
    | Raised(error: nat)
    | KeyGenerationError
    | BackendCapabilityError

  /** What the annotation on a call's method says. */
  datatype Annotation =
    | Cacheable(ttl: Option<nat>, tags: set<string>)
    | Evict(hasKey: bool, tags: set<string>)

  datatype Backend = Backend(tagged: bool, stampedeProtected: bool)

  /** `key` formats the configured key, or builds the default one; None is a
      format that fails.  Methods return or raise, and nothing else. */
  datatype Setup = Setup(
    backend: Backend,
    annotation: Call -> Annotation,
    key: Call -> Option<string>,
    read: (Call, Data) -> Answer,
    change: (Call, Data) -> (Data, Answer))

  predicate Ordinary(a: Answer) {
    a.Returned? || a.Raised?
  }

  ghost predicate Proper(u: Setup) {
    && (forall c, d :: Ordinary(u.read(c, d)))
    && (forall c, d :: Ordinary(u.change(c, d).1))
  }

  // ----- The store -----

  datatype Item = Item(value: Value, tags: set<string>, expires: Option<nat>)

  datatype State = State(store: map<string, Item>, now: nat, data: Data)

  predicate Live(i: Item, now: nat) {
    i.expires.None? || now < i.expires.value
  }

  function Lookup(s: State, key: string): Option<Value> {
    if key in s.store && Live(s.store[key], s.now) then Some(s.store[key].value) else None
  }

  function Put(s: State, key: string, value: Value, ttl: Option<nat>, tags: set<string>): State {
    var expires := if ttl.None? then None else Some(s.now + ttl.value);
    s.(store := s.store[key := Item(value, tags, expires)])
  }

  function Delete(s: State, key: string): State {
    s.(store := s.store - {key})
  }

  function EvictTags(s: State, tags: set<string>): State {
    s.(store := map k | k in s.store && s.store[k].tags * tags == {} :: s.store[k])
  }

  // ----- The aspect -----

  function AroundCacheable(u: Setup, s: State, c: Call): (State, Answer)
    requires u.annotation(c).Cacheable?
  {
    var a := u.annotation(c);
    if u.key(c).None? then (s, KeyGenerationError)
    else if !u.backend.stampedeProtected && a.tags != {} && !u.backend.tagged then (s, BackendCapabilityError)
    else
      var cached := Lookup(s, u.key(c).value);
      if cached.Some? then (s, Returned(cached.value))
      else
        var answer := u.read(c, s.data);
        if answer.Returned? then (Put(s, u.key(c).value, answer.value, a.ttl, a.tags), answer) else (s, answer)
  }

  function AroundEvict(u: Setup, s: State, c: Call): (State, Answer)
    requires u.annotation(c).Evict?
  {
    var a := u.annotation(c);
    var (data, answer) := u.change(c, s.data);
    var s1 := s.(data := data);
    if !answer.Returned? then (s1, answer)
    else if a.hasKey && u.key(c).None? then (s1, KeyGenerationError)
    else
      var s2 := if a.hasKey then Delete(s1, u.key(c).value) else s1;
      if a.tags == {} then (s2, answer)
      else if !u.backend.tagged then (s2, BackendCapabilityError)
      else (EvictTags(s2, a.tags), answer)
  }

  function Around(u: Setup, s: State, c: Call): (State, Answer) {
    if u.annotation(c).Evict? then AroundEvict(u, s, c) else AroundCacheable(u, s, c)
  }

  /** The aspect as the source runs it, step by step on one store. */
  class CacheAspect {
    const setup: Setup
    var store: map<string, Item>
    var now: nat
    var data: Data

    constructor (setup: Setup, data: Data)
      ensures this.setup == setup && Now() == State(map[], 0, data)
    {
      this.setup := setup;
      store, now, this.data := map[], 0, data;
    }

    function Now(): State
      reads this
    {
      State(store, now, data)
    }

    method Invoke(c: Call) returns (answer: Answer)
      modifies this
      ensures (Now(), answer) == Around(setup, old(Now()), c)
    {
      match setup.annotation(c)
      case Evict(hasKey, tags) =>
        var (changed, result) := setup.change(c, data);
        data := changed;
        if !result.Returned? { return result; }
        if hasKey {
          var key := setup.key(c);
          if key.None? { return KeyGenerationError; }
          store := store - {key.value};
        }
        if tags != {} {
          if !setup.backend.tagged { return BackendCapabilityError; }
          store := map k | k in store && store[k].tags * tags == {} :: store[k];
        }
        answer := result;
      case Cacheable(ttl, tags) =>
        var key := setup.key(c);
        if key.None? { return KeyGenerationError; }
        if !setup.backend.stampedeProtected && tags != {} && !setup.backend.tagged { return BackendCapabilityError; }
        var cached := Lookup(Now(), key.value);
        if cached.Some? { return Returned(cached.value); }
        answer := setup.read(c, data);
        if answer.Returned? {
          store := store[key.value := Item(answer.value, tags, if ttl.None? then None else Some(now + ttl.value))];
        }
    }
  }

  // ----- Histories with and without the aspect -----

  datatype Event = Ask(c: Call) | Tick(n: nat)

  function Step(u: Setup, s: State, e: Event): (State, seq<Answer>) {
    match e
    case Ask(c) => var (s1, a) := Around(u, s, c); (s1, [a])
    case Tick(n) => (s.(now := s.now + n), [])
  }

  function Answers(u: Setup, s: State, events: seq<Event>): seq<Answer>
    decreases |events|
  {
    if events == [] then []
    else
      var (s1, a) := Step(u, s, events[0]);
      a + Answers(u, s1, events[1..])
  }

  function DirectStep(u: Setup, d: Data, e: Event): (Data, seq<Answer>) {
    match e
    case Tick(_) => (d, [])
    case Ask(c) =>
      if u.annotation(c).Cacheable? then (d, [u.read(c, d)])
      else
        var (d1, a) := u.change(c, d);
        (d1, [a])
  }

  function DirectAnswers(u: Setup, d: Data, events: seq<Event>): seq<Answer>
    decreases |events|
  {
    if events == [] then []
    else
      var (d1, a) := DirectStep(u, d, events[0]);
      a + DirectAnswers(u, d1, events[1..])
  }

  ghost predicate Same(u: Setup, d: Data, events: seq<Event>) {
    Answers(u, State(map[], 0, d), events) == DirectAnswers(u, d, events)
  }

  /** No history, on any data, can tell that there is a cache. */
  ghost predicate Transparent(u: Setup) {
    forall d, events :: Same(u, d, events)
  }

  // ----- When caching is transparent -----

  /** Calls whose result is stored: annotated, and not expired at once. */
  predicate Kept(u: Setup, c: Call) {
    u.annotation(c).Cacheable? && u.annotation(c).ttl != Some(0)
  }

  /** A cacheable call always gets as far as its result. */
  predicate ReadWorks(u: Setup, c: Call) {
    && u.key(c).Some?
    && (u.backend.stampedeProtected || u.annotation(c).tags == {} || u.backend.tagged)
  }

  /** An evicting call that changed the data always gets to evict. */
  predicate EvictWorks(u: Setup, c: Call)
    requires u.annotation(c).Evict?
  {
    && (u.annotation(c).hasKey ==> u.key(c).Some?)
    && (u.annotation(c).tags != {} ==> u.backend.tagged)
  }

  /** The eviction of `e` removes what the cacheable call `c` stored. */
  predicate Covers(u: Setup, e: Call, c: Call)
    requires u.annotation(e).Evict?
  {
    || (u.annotation(e).hasKey && u.key(e) == u.key(c))
    || u.annotation(e).tags * u.annotation(c).tags != {}
  }

  predicate SeparatesAt(u: Setup, c1: Call, c2: Call, d: Data) {
    (Kept(u, c1) && u.annotation(c2).Cacheable? && u.key(c1) == u.key(c2) && u.read(c1, d).Returned?)
    ==> u.read(c2, d) == u.read(c1, d)
  }

  predicate CoversAt(u: Setup, e: Call, c: Call, d: Data) {
    (u.annotation(e).Evict? && Kept(u, c) && u.read(c, d).Returned? && u.read(c, u.change(e, d).0) != u.read(c, d))
    ==> (u.change(e, d).1.Returned? && Covers(u, e, c))
  }

  predicate WorksAt(u: Setup, c: Call, d: Data) {
    if u.annotation(c).Cacheable? then ReadWorks(u, c) else u.change(c, d).1.Returned? ==> EvictWorks(u, c)
  }

  /** Keys and capabilities work, equal keys mean equal results, and each change
      evicts every result it makes stale. */
  ghost predicate Sound(u: Setup) {
    && (forall c, d :: WorksAt(u, c, d))
    && (forall c1, c2, d :: SeparatesAt(u, c1, c2, d))
    && (forall e, c, d :: CoversAt(u, e, c, d))
  }

  // ----- Sound setups are transparent -----

  /** A live item belongs to a kept call that would read the same value now. */
  predicate Owns(u: Setup, s: State, c: Call, key: string) {
    && key in s.store && Kept(u, c) && u.key(c) == Some(key)
    && s.store[key].tags == u.annotation(c).tags
    && u.read(c, s.data) == Returned(s.store[key].value)
  }

  ghost predicate Owned(u: Setup, s: State, key: string) {
    exists c :: Owns(u, s, c, key)
  }

  ghost predicate Coherent(u: Setup, s: State) {
    forall key :: key in s.store && Live(s.store[key], s.now) ==> Owned(u, s, key)
  }

  lemma {:induction false} ReadIsCoherent(u: Setup, s: State, c: Call)
    requires Sound(u) && Coherent(u, s) && u.annotation(c).Cacheable?
    ensures var (s1, a) := AroundCacheable(u, s, c); Coherent(u, s1) && s1.data == s.data && a == u.read(c, s.data)
  {
    assert WorksAt(u, c, s.data);
    var key := u.key(c).value;
    if Lookup(s, key).Some? {
      assert Owned(u, s, key);
      var owner :| Owns(u, s, owner, key);
      assert SeparatesAt(u, owner, c, s.data);
    } else if u.read(c, s.data).Returned? {
      var s1 := AroundCacheable(u, s, c).0;
      forall k | k in s1.store && Live(s1.store[k], s1.now)
        ensures Owned(u, s1, k)
      {
        if k == key {
          assert Owns(u, s1, c, k);
        } else {
          assert Owned(u, s, k);
          var owner :| Owns(u, s, owner, k);
          assert Owns(u, s1, owner, k);
        }
      }
    }
  }

  /** An item that survives the eviction is one the change left valid. */
  lemma {:induction false} SurvivorIsOwned(u: Setup, s: State, e: Call, key: string)
    requires Sound(u) && Coherent(u, s) && u.annotation(e).Evict?
    requires var s1 := AroundEvict(u, s, e).0; key in s1.store && Live(s1.store[key], s1.now)
    ensures Owned(u, AroundEvict(u, s, e).0, key)
  {
    var (s1, a) := AroundEvict(u, s, e);
    assert WorksAt(u, e, s.data);
    assert key in s.store && s1.store[key] == s.store[key];
    assert Owned(u, s, key);
    var owner :| Owns(u, s, owner, key);
    assert CoversAt(u, e, owner, s.data);
    if u.change(e, s.data).1.Returned? { SurvivorIsNotCovered(u, s, e, owner, key); }
    assert Owns(u, s1, owner, key);
  }

  lemma {:induction false} SurvivorIsNotCovered(u: Setup, s: State, e: Call, owner: Call, key: string)
    requires u.annotation(e).Evict? && WorksAt(u, e, s.data) && Owns(u, s, owner, key)
    requires key in AroundEvict(u, s, e).0.store && u.change(e, s.data).1.Returned?
    ensures !Covers(u, e, owner)
  {
  }

  lemma {:induction false} EvictIsCoherent(u: Setup, s: State, e: Call)
    requires Sound(u) && Coherent(u, s) && u.annotation(e).Evict?
    ensures var (s1, a) := AroundEvict(u, s, e); Coherent(u, s1) && (s1.data, a) == u.change(e, s.data)
  {
    var s1 := AroundEvict(u, s, e).0;
    assert WorksAt(u, e, s.data);
    forall key | key in s1.store && Live(s1.store[key], s1.now)
      ensures Owned(u, s1, key)
    {
      SurvivorIsOwned(u, s, e, key);
    }
  }

  lemma {:induction false} TickIsCoherent(u: Setup, s: State, n: nat)
    requires Coherent(u, s)
    ensures Coherent(u, s.(now := s.now + n))
  {
    var s1 := s.(now := s.now + n);
    forall key | key in s1.store && Live(s1.store[key], s1.now)
      ensures Owned(u, s1, key)
    {
      assert Live(s.store[key], s.now) && Owned(u, s, key);
      var owner :| Owns(u, s, owner, key);
      assert Owns(u, s1, owner, key);
    }
  }

  lemma {:induction false} SoundAnswers(u: Setup, s: State, events: seq<Event>)
    requires Sound(u) && Coherent(u, s)
    ensures Answers(u, s, events) == DirectAnswers(u, s.data, events)
    decreases |events|
  {
    if events != [] {
      match events[0]
      case Tick(n) =>
        TickIsCoherent(u, s, n);
        SoundAnswers(u, s.(now := s.now + n), events[1..]);
      case Ask(c) =>
        if u.annotation(c).Evict? { EvictIsCoherent(u, s, c); } else { ReadIsCoherent(u, s, c); }
        SoundAnswers(u, Around(u, s, c).0, events[1..]);
    }
  }

  // ----- Transparent setups are sound -----

  /** The first two answers of a history of two calls. */
  lemma {:induction false} TwoAnswers(u: Setup, s: State, x: Call, y: Call)
    ensures var (s1, a) := Around(u, s, x); Answers(u, s, [Ask(x), Ask(y)]) == [a, Around(u, s1, y).1]
    ensures var (d1, a) := DirectStep(u, s.data, Ask(x));
            DirectAnswers(u, s.data, [Ask(x), Ask(y)]) == a + DirectStep(u, d1, Ask(y)).1
  {
    assert [Ask(x), Ask(y)][1..] == [Ask(y)];
    OneAnswer(u, Around(u, s, x).0, y);
    OneDirectAnswer(u, DirectStep(u, s.data, Ask(x)).0, y);
  }

  lemma {:induction false} OneAnswer(u: Setup, s: State, x: Call)
    ensures Answers(u, s, [Ask(x)]) == [Around(u, s, x).1]
  {
    assert [Ask(x)][1..] == [];
  }

  lemma {:induction false} OneDirectAnswer(u: Setup, d: Data, x: Call)
    ensures DirectAnswers(u, d, [Ask(x)]) == DirectStep(u, d, Ask(x)).1
  {
    assert [Ask(x)][1..] == [];
    var a := DirectStep(u, d, Ask(x)).1;
    assert a + [] == a;
  }

  lemma {:induction false} ThreeAnswers(u: Setup, s: State, x: Call, y: Call, z: Call)
    ensures var (s1, a) := Around(u, s, x); var (s2, b) := Around(u, s1, y);
            Answers(u, s, [Ask(x), Ask(y), Ask(z)]) == [a] + [b, Around(u, s2, z).1]
    ensures var (d1, a) := DirectStep(u, s.data, Ask(x)); var (d2, b) := DirectStep(u, d1, Ask(y));
            DirectAnswers(u, s.data, [Ask(x), Ask(y), Ask(z)]) == a + (b + DirectStep(u, d2, Ask(z)).1)
  {
    var events := [Ask(x), Ask(y), Ask(z)];
    assert events[1..] == [Ask(y), Ask(z)];
    TwoAnswers(u, Around(u, s, x).0, y, z);
    DirectAnswersTwo(u, DirectStep(u, s.data, Ask(x)).0, y, z);
  }

  lemma {:induction false} DirectAnswersTwo(u: Setup, d: Data, y: Call, z: Call)
    ensures var (d1, b) := DirectStep(u, d, Ask(y));
            DirectAnswers(u, d, [Ask(y), Ask(z)]) == b + DirectStep(u, d1, Ask(z)).1
  {
    TwoAnswers(u, State(map[], 0, d), y, z);
  }

  lemma {:induction false} TransparentWorks(u: Setup, c: Call, d: Data)
    requires Transparent(u) && Proper(u)
    ensures WorksAt(u, c, d)
  {
    var s := State(map[], 0, d);
    assert Same(u, d, [Ask(c)]);
    OneAnswer(u, s, c);
    OneDirectAnswer(u, d, c);
    assert Ordinary(u.read(c, d)) && Ordinary(u.change(c, d).1);
  }

  /** After a first read that returned, the result is stored and live. */
  lemma {:induction false} StoredAfterRead(u: Setup, d: Data, c: Call)
    requires Kept(u, c) && ReadWorks(u, c) && u.read(c, d).Returned?
    ensures var (s1, a) := Around(u, State(map[], 0, d), c);
            && a == u.read(c, d) && s1.data == d && s1.now == 0
            && Lookup(s1, u.key(c).value) == Some(u.read(c, d).value)
            && s1.store[u.key(c).value].tags == u.annotation(c).tags
  {
  }

  lemma {:induction false} TransparentSeparates(u: Setup, c1: Call, c2: Call, d: Data)
    requires Transparent(u) && Proper(u)
    ensures SeparatesAt(u, c1, c2, d)
  {
    if Kept(u, c1) && u.annotation(c2).Cacheable? && u.key(c1) == u.key(c2) && u.read(c1, d).Returned? {
      var s := State(map[], 0, d);
      TransparentWorks(u, c1, d);
      TransparentWorks(u, c2, d);
      StoredAfterRead(u, d, c1);
      TwoAnswers(u, s, c1, c2);
      assert Same(u, d, [Ask(c1), Ask(c2)]);
      var hit := Around(u, Around(u, s, c1).0, c2).1;
      assert [u.read(c1, d), hit] == [u.read(c1, d)] + [u.read(c2, d)];
      assert hit == [u.read(c1, d), hit][1] == u.read(c2, d);
    }
  }

  /** An uncovered item stays where it is. */
  lemma {:induction false} UncoveredSurvives(u: Setup, s: State, e: Call, c: Call)
    requires u.annotation(e).Evict? && u.key(c).Some?
    requires Lookup(s, u.key(c).value).Some? && s.store[u.key(c).value].tags == u.annotation(c).tags
    requires !u.change(e, s.data).1.Returned? || !Covers(u, e, c)
    ensures var s1 := Around(u, s, e).0;
            Lookup(s1, u.key(c).value) == Lookup(s, u.key(c).value) && s1.data == u.change(e, s.data).0
  {
  }

  lemma {:induction false} TransparentCovers(u: Setup, e: Call, c: Call, d: Data)
    requires Transparent(u) && Proper(u)
    ensures CoversAt(u, e, c, d)
  {
    if u.annotation(e).Evict? && Kept(u, c) && u.read(c, d).Returned?
        && !(u.change(e, d).1.Returned? && Covers(u, e, c)) {
      var s := State(map[], 0, d);
      TransparentWorks(u, c, d);
      StoredAfterRead(u, d, c);
      var s1 := Around(u, s, c).0;
      UncoveredSurvives(u, s1, e, c);
      ThreeAnswers(u, s, c, e, c);
      assert Same(u, d, [Ask(c), Ask(e), Ask(c)]);
      var b, hit := Around(u, s1, e).1, Around(u, Around(u, s1, e).0, c).1;
      var b', now := u.change(e, d).1, u.read(c, u.change(e, d).0);
      assert [u.read(c, d)] + [b, hit] == [u.read(c, d)] + ([b'] + [now]);
      assert hit == ([u.read(c, d)] + [b, hit])[2] == now;
    }
  }

  /** Calls through the aspect are indistinguishable from direct calls, in every
      history on every data, if and only if the setup is sound. */
  lemma {:induction false} TransparentIffSound(u: Setup)
    requires Proper(u)
    ensures Transparent(u) <==> Sound(u)
  {
    if Sound(u) {
      forall d, events
        ensures Same(u, d, events)
      {
        SoundAnswers(u, State(map[], 0, d), events);
      }
    }
    if Transparent(u) {
      forall c, d ensures WorksAt(u, c, d) { TransparentWorks(u, c, d); }
      forall c1, c2, d ensures SeparatesAt(u, c1, c2, d) { TransparentSeparates(u, c1, c2, d); }
      forall e, c, d ensures CoversAt(u, e, c, d) { TransparentCovers(u, e, c, d); }
    }
  }

  // ----- Calls that are refused -----

  /** Which error a call ends with, if the aspect refuses it: a cacheable call is
      refused before anything happens, for its key first; an evicting one after
      the method returned, with the data as the method left it. */
  lemma {:induction false} RefusalsAreExact(u: Setup, s: State, c: Call)
    requires Proper(u)
    ensures var (s1, answer) := Around(u, s, c);
            var a := u.annotation(c);
            && (a.Cacheable? ==>
                  && (answer == KeyGenerationError <==> u.key(c).None?)
                  && (answer == BackendCapabilityError <==>
                        u.key(c).Some? && !u.backend.stampedeProtected && a.tags != {} && !u.backend.tagged)
                  && (!Ordinary(answer) ==> s1 == s) && s1.data == s.data)
            && (a.Evict? ==>
                  var (changed, result) := u.change(c, s.data);
                  && (answer == KeyGenerationError <==> result.Returned? && a.hasKey && u.key(c).None?)
                  && (answer == BackendCapabilityError <==>
                        result.Returned? && (a.hasKey ==> u.key(c).Some?) && a.tags != {} && !u.backend.tagged)
                  && (Ordinary(answer) ==> answer == result) && s1.data == changed)
  {
    assert Ordinary(u.read(c, s.data)) && Ordinary(u.change(c, s.data).1);
  }

  // ----- How long a result is answered from the cache -----

  function AfterAll(u: Setup, s: State, events: seq<Event>): State
    decreases |events|
  {
    if events == [] then s else AfterAll(u, Step(u, s, events[0]).0, events[1..])
  }

  function Elapsed(events: seq<Event>): nat {
    if events == [] then 0
    else (if events[0].Tick? then events[0].n else 0) + Elapsed(events[1..])
  }

  /** The call neither stores nor evicts under the key of `c`. */
  predicate Spares(u: Setup, other: Call, c: Call) {
    match u.annotation(other)
    case Cacheable(_, _) => u.key(other) != u.key(c)
    case Evict(hasKey, tags) => !(hasKey && u.key(other) == u.key(c)) && tags * u.annotation(c).tags == {}
  }

  predicate SparesAll(u: Setup, events: seq<Event>, c: Call) {
    forall i | 0 <= i < |events| && events[i].Ask? :: Spares(u, events[i].c, c)
  }

  /** `value` is stored for `c` and expires `left` ticks from now, if ever. */
  predicate Holds(u: Setup, s: State, c: Call, value: Value, left: Option<int>) {
    && u.annotation(c).Cacheable? && u.key(c).Some? && u.key(c).value in s.store
    && var item := s.store[u.key(c).value];
    && item.value == value && item.tags == u.annotation(c).tags
    && (item.expires.None? <==> left.None?)
    && (left.Some? ==> item.expires.value == s.now + left.value)
  }

  function Later(left: Option<int>, n: nat): Option<int> {
    if left.None? then None else Some(left.value - n)
  }

  lemma {:induction false} SparedStays(
      u: Setup, s: State, c: Call, value: Value, left: Option<int>, events: seq<Event>)
    requires Holds(u, s, c, value, left) && SparesAll(u, events, c)
    ensures Holds(u, AfterAll(u, s, events), c, value, Later(left, Elapsed(events)))
    decreases |events|
  {
    if events != [] {
      var s1 := Step(u, s, events[0]).0;
      match events[0]
      case Tick(n) => SparedStays(u, s1, c, value, Later(left, n), events[1..]);
      case Ask(other) =>
        SparedByOne(u, s, c, value, left, other);
        SparedStays(u, s1, c, value, left, events[1..]);
    }
  }

  lemma {:induction false} SparedByOne(
      u: Setup, s: State, c: Call, value: Value, left: Option<int>, other: Call)
    requires Holds(u, s, c, value, left) && Spares(u, other, c)
    ensures Holds(u, Around(u, s, other).0, c, value, left)
  {
  }

  /** A result is answered from the cache, without a look at the data, exactly as
      long as fewer ticks than its time to live have passed since it was stored,
      and for ever if it has none, whatever calls under other keys and tags come
      in between.  From then on the method is called again. */
  lemma {:induction false} CachedUntilExpiry(u: Setup, s: State, c: Call, events: seq<Event>, again: Call)
    requires u.annotation(c).Cacheable? && ReadWorks(u, c) && u.read(c, s.data).Returned?
    requires Lookup(s, u.key(c).value).None? && SparesAll(u, events, c)
    requires u.annotation(again).Cacheable? && ReadWorks(u, again) && u.key(again) == u.key(c)
    ensures var s1 := AfterAll(u, Around(u, s, c).0, events);
            var ttl := u.annotation(c).ttl;
            && Around(u, s, c).1 == u.read(c, s.data)
            && (ttl.None? || Elapsed(events) < ttl.value ==> Around(u, s1, again) == (s1, u.read(c, s.data)))
            && (ttl.Some? && Elapsed(events) >= ttl.value ==> Around(u, s1, again).1 == u.read(again, s1.data))
  {
    var left := if u.annotation(c).ttl.None? then None else Some(u.annotation(c).ttl.value as int);
    SparedStays(u, Around(u, s, c).0, c, u.read(c, s.data).value, left, events);
  }
}
