/** Consuming durable agent signals
    (core/spakky-agent/src/spakky/agent/signal_consumption.py and the queue
    port in core/spakky-agent/src/spakky/agent/interfaces/repository.py). */
module Signals {
  import opened Validation
  import opened Wrappers

  datatype Signal = Signal(id: string, stateId: string, kind: nat)

  datatype Entry = Entry(signal: Signal, consumed: bool)

  // ----- Views of the queue -----

  function All(q: seq<Entry>, stateId: string): seq<Signal>
    decreases |q|
  {
    if q == [] then []
    else (if q[0].signal.stateId == stateId then [q[0].signal] else []) + All(q[1..], stateId)
  }

  function Pending(q: seq<Entry>, stateId: string): seq<Signal>
    decreases |q|
  {
    if q == [] then []
    else (if q[0].signal.stateId == stateId && !q[0].consumed then [q[0].signal] else []) + Pending(q[1..], stateId)
  }

  function Taken(q: seq<Entry>, stateId: string): seq<Signal>
    decreases |q|
  {
    if q == [] then []
    else (if q[0].signal.stateId == stateId && q[0].consumed then [q[0].signal] else []) + Taken(q[1..], stateId)
  }

  predicate Unique(q: seq<Entry>) {
    forall i, j :: 0 <= i < j < |q| ==> q[i].signal.id != q[j].signal.id
  }

  /** No signal of a state was taken past an earlier one of the same state. */
  predicate InTurn(q: seq<Entry>) {
    forall i, j :: 0 <= i < j < |q| && q[i].signal.stateId == q[j].signal.stateId && q[j].consumed ==> q[i].consumed
  }

  function Mark(q: seq<Entry>, id: string): seq<Entry>
    decreases |q|
  {
    if q == [] then []
    else [if q[0].signal.id == id then q[0].(consumed := true) else q[0]] + Mark(q[1..], id)
  }

  function MarkAll(q: seq<Entry>, signals: seq<Signal>): seq<Entry>
    decreases |signals|
  {
    if signals == [] then q else MarkAll(Mark(q, signals[0].id), signals[1..])
  }

  // ----- Selecting -----

  predicate Accepts(accepted: Option<set<nat>>, s: Signal) {
    accepted.None? || s.kind in accepted.value
  }

  predicate Room(max: Option<int>, n: nat) {
    max.None? || n < max.value
  }

  /** `n` is the length of the longest prefix that is accepted and fits. */
  predicate LongestPrefix(pending: seq<Signal>, accepted: Option<set<nat>>, max: Option<int>, n: nat) {
    && n <= |pending|
    && (forall i :: 0 <= i < n ==> Accepts(accepted, pending[i]) && Room(max, i))
    && (n < |pending| ==> !Accepts(accepted, pending[n]) || !Room(max, n))
  }

  function PrefixLength(pending: seq<Signal>, accepted: Option<set<nat>>, max: Option<int>, n: nat): nat
    requires n <= |pending|
    decreases |pending| - n
  {
    if n == |pending| || !Room(max, n) || !Accepts(accepted, pending[n]) then n
    else PrefixLength(pending, accepted, max, n + 1)
  }

  lemma {:induction false} PrefixIsLongest(pending: seq<Signal>, accepted: Option<set<nat>>, max: Option<int>, n: nat)
    requires n <= |pending| && forall i :: 0 <= i < n ==> Accepts(accepted, pending[i]) && Room(max, i)
    ensures LongestPrefix(pending, accepted, max, PrefixLength(pending, accepted, max, n))
    decreases |pending| - n
  {
    if n < |pending| && Room(max, n) && Accepts(accepted, pending[n]) {
      PrefixIsLongest(pending, accepted, max, n + 1);
    }
  }

  function Selected(pending: seq<Signal>, accepted: Option<set<nat>>, max: Option<int>): (r: seq<Signal>)
    ensures r <= pending && LongestPrefix(pending, accepted, max, |r|)
  {
    PrefixIsLongest(pending, accepted, max, 0);
    pending[..PrefixLength(pending, accepted, max, 0)]
  }

  /** `_select_consumable_prefix`. */
  method SelectConsumablePrefix(
      pending: seq<Signal>, accepted: Option<set<nat>>, max: Option<int>) returns (selected: seq<Signal>)
    ensures selected == Selected(pending, accepted, max)
    ensures LongestPrefix(pending, accepted, max, |selected|) && selected <= pending
  {
    selected := [];
    var i := 0;
    while i < |pending|
      invariant 0 <= i <= |pending| && selected == pending[..i]
      invariant PrefixLength(pending, accepted, max, i) == PrefixLength(pending, accepted, max, 0)
    {
      if !Room(max, |selected|) { break; }
      if !Accepts(accepted, pending[i]) { break; }
      selected := selected + [pending[i]];
      i := i + 1;
    }
    PrefixIsLongest(pending, accepted, max, 0);
  }

  // ----- Marking the first pending signal -----

  lemma {:induction false} SplitsInTurn(q: seq<Entry>, stateId: string)
    requires InTurn(q)
    ensures Taken(q, stateId) + Pending(q, stateId) == All(q, stateId)
    decreases |q|
  {
    if q != [] {
      SplitsInTurn(q[1..], stateId);
      if q[0].signal.stateId == stateId && !q[0].consumed {
        NoneTakenAfter(q[1..], stateId);
      }
      SplitsAtHead(q, stateId);
    }
  }

  lemma {:induction false} SplitsAtHead(q: seq<Entry>, stateId: string)
    requires q != [] && Taken(q[1..], stateId) + Pending(q[1..], stateId) == All(q[1..], stateId)
    requires q[0].signal.stateId == stateId && !q[0].consumed ==> Taken(q[1..], stateId) == []
    ensures Taken(q, stateId) + Pending(q, stateId) == All(q, stateId)
  {
    HeadViews(q, stateId);
    Prepended(q[0].signal, Taken(q[1..], stateId), Pending(q[1..], stateId));
  }

  lemma {:induction false} HeadViews(q: seq<Entry>, stateId: string)
    requires q != []
    ensures var e, rest := q[0], q[1..]; var mine := e.signal.stateId == stateId;
            && All(q, stateId) == (if mine then [e.signal] + All(rest, stateId) else All(rest, stateId))
            && Taken(q, stateId)
               == (if mine && e.consumed then [e.signal] + Taken(rest, stateId) else Taken(rest, stateId))
            && Pending(q, stateId)
               == (if mine && !e.consumed then [e.signal] + Pending(rest, stateId) else Pending(rest, stateId))
  {
  }

  lemma {:induction false} Prepended(x: Signal, a: seq<Signal>, b: seq<Signal>)
    ensures [x] + a + b == [x] + (a + b)
    ensures a == [] ==> a + ([x] + b) == [x] + (a + b)
  {
  }

  lemma {:induction false} NoneTakenAfter(q: seq<Entry>, stateId: string)
    requires forall i :: 0 <= i < |q| && q[i].signal.stateId == stateId ==> !q[i].consumed
    ensures Taken(q, stateId) == []
    decreases |q|
  {
    if q != [] {
      NoneTakenAfter(q[1..], stateId);
    }
  }

  lemma {:induction false} MarkAt(q: seq<Entry>, id: string)
    ensures |Mark(q, id)| == |q|
    ensures forall i :: 0 <= i < |q| ==>
      Mark(q, id)[i] == if q[i].signal.id == id then q[i].(consumed := true) else q[i]
    decreases |q|
  {
    if q != [] {
      MarkAt(q[1..], id);
    }
  }

  lemma {:induction false} MarkNothing(q: seq<Entry>, id: string)
    requires forall i :: 0 <= i < |q| ==> q[i].signal.id != id
    ensures Mark(q, id) == q
  {
    MarkAt(q, id);
  }

  lemma {:induction false} PendingIsThere(q: seq<Entry>, stateId: string) returns (k: nat)
    requires Pending(q, stateId) != []
    ensures k < |q| && q[k].signal == Pending(q, stateId)[0] && q[k].signal.stateId == stateId && !q[k].consumed
    ensures forall i :: 0 <= i < k && q[i].signal.stateId == stateId ==> q[i].consumed
    decreases |q|
  {
    if q[0].signal.stateId == stateId && !q[0].consumed {
      k := 0;
    } else {
      k := PendingIsThere(q[1..], stateId);
      k := k + 1;
    }
  }

  /** Marking the first pending signal of a state moves it, and only it, from
      the head of what is pending to the end of what was taken. */
  lemma {:induction false} MarkTakesFirst(q: seq<Entry>, stateId: string)
    requires Unique(q) && InTurn(q) && Pending(q, stateId) != []
    ensures var first := Pending(q, stateId)[0]; var q1 := Mark(q, first.id);
            && Pending(q1, stateId) == Pending(q, stateId)[1..]
            && Taken(q1, stateId) == Taken(q, stateId) + [first]
    decreases |q|
  {
    var first := Pending(q, stateId)[0];
    var rest := q[1..];
    var k := PendingIsThere(q, stateId);
    if k == 0 {
      MarkTakesHead(q, stateId);
    } else {
      assert q[0].signal.id != first.id;
      assert Mark(q, first.id)[1..] == Mark(rest, first.id);
      SkipFirst(q, stateId);
      MarkTakesFirst(rest, stateId);
    }
  }

  lemma {:induction false} MarkTakesHead(q: seq<Entry>, stateId: string)
    requires Unique(q) && InTurn(q) && q != [] && q[0].signal.stateId == stateId && !q[0].consumed
    ensures var first := q[0].signal; var q1 := Mark(q, first.id);
            && Pending(q, stateId) == [first] + Pending(q1, stateId)
            && Taken(q, stateId) == [] && Taken(q1, stateId) == [first]
  {
    var rest := q[1..];
    MarkNothing(rest, q[0].signal.id);
    NoneTakenAfter(rest, stateId);
    assert Mark(q, q[0].signal.id)[1..] == rest;
  }

  lemma {:induction false} SkipFirst(q: seq<Entry>, stateId: string)
    requires q != [] && !(q[0].signal.stateId == stateId && !q[0].consumed)
    ensures Pending(q, stateId) == Pending(q[1..], stateId)
  {
  }

  lemma {:induction false} MarkKeepsOthers(q: seq<Entry>, id: string, stateId: string)
    requires forall i :: 0 <= i < |q| && q[i].signal.id == id ==> q[i].signal.stateId != stateId
    ensures Pending(Mark(q, id), stateId) == Pending(q, stateId) && Taken(Mark(q, id), stateId) == Taken(q, stateId)
    decreases |q|
  {
    if q != [] {
      MarkKeepsOthers(q[1..], id, stateId);
      assert Mark(q, id)[1..] == Mark(q[1..], id);
    }
  }

  lemma {:induction false} MarkKeepsAll(q: seq<Entry>, id: string, stateId: string)
    ensures All(Mark(q, id), stateId) == All(q, stateId)
    decreases |q|
  {
    if q != [] {
      MarkKeepsAll(q[1..], id, stateId);
      assert Mark(q, id)[1..] == Mark(q[1..], id);
    }
  }

  lemma {:induction false} MarkKeepsTurn(q: seq<Entry>, stateId: string)
    requires Unique(q) && InTurn(q) && Pending(q, stateId) != []
    ensures Unique(Mark(q, Pending(q, stateId)[0].id)) && InTurn(Mark(q, Pending(q, stateId)[0].id))
  {
    var id := Pending(q, stateId)[0].id;
    var k := PendingIsThere(q, stateId);
    MarkAt(q, id);
    forall i | 0 <= i < |q|
      ensures q[i].signal.id == id <==> i == k
    {
    }
  }

  lemma {:induction false} BatchSplits(pending: seq<Signal>, n: nat)
    requires 0 < n <= |pending|
    ensures pending[..n][1..] == pending[1..][..n - 1] && pending[1..][n - 1..] == pending[n..]
    ensures [pending[0]] + pending[..n][1..] == pending[..n]
  {
  }

  /** Taking the first signals of one state, one by one. */
  lemma {:induction false} MarkAllTakes(q: seq<Entry>, stateId: string, n: nat)
    requires Unique(q) && InTurn(q) && n <= |Pending(q, stateId)|
    ensures var batch := Pending(q, stateId)[..n]; var q1 := MarkAll(q, batch);
            && Unique(q1) && InTurn(q1)
            && Pending(q1, stateId) == Pending(q, stateId)[n..]
            && Taken(q1, stateId) == Taken(q, stateId) + batch
    decreases n
  {
    var pending := Pending(q, stateId);
    var batch := pending[..n];
    if n > 0 {
      var q1 := Mark(q, pending[0].id);
      MarkTakesFirst(q, stateId);
      MarkKeepsTurn(q, stateId);
      MarkAllTakes(q1, stateId, n - 1);
      BatchSplits(pending, n);
      Regrouped(Taken(q, stateId), [pending[0]], batch[1..]);
    }
  }

  lemma {:induction false} MarkAllKeeps(q: seq<Entry>, stateId: string, n: nat, other: string)
    requires Unique(q) && InTurn(q) && n <= |Pending(q, stateId)|
    ensures var q1 := MarkAll(q, Pending(q, stateId)[..n]);
            && All(q1, other) == All(q, other)
            && (other != stateId ==> Pending(q1, other) == Pending(q, other) && Taken(q1, other) == Taken(q, other))
    decreases n
  {
    if n > 0 {
      var pending := Pending(q, stateId);
      var id := pending[0].id;
      MarkTakesFirst(q, stateId);
      MarkKeepsTurn(q, stateId);
      MarkAllKeeps(Mark(q, id), stateId, n - 1, other);
      assert pending[..n][1..] == pending[1..][..n - 1];
      MarkKeepsAll(q, id, other);
      if other != stateId {
        FirstBelongs(q, stateId);
        MarkKeepsOthers(q, id, other);
      }
    }
  }

  lemma {:induction false} FirstBelongs(q: seq<Entry>, stateId: string)
    requires Unique(q) && Pending(q, stateId) != []
    ensures forall i :: 0 <= i < |q| && q[i].signal.id == Pending(q, stateId)[0].id ==> q[i].signal.stateId == stateId
  {
    var k := PendingIsThere(q, stateId);
    forall i | 0 <= i < |q| && q[i].signal.id == Pending(q, stateId)[0].id
      ensures i == k
    {
    }
  }

  // ----- Whole histories -----

  datatype Event = Append(signal: Signal) | Poll(stateId: string, accepted: Option<set<nat>>, max: Option<int>)

  /** The queue and everything ever delivered, in order of delivery. */
  datatype History = History(queue: seq<Entry>, delivered: seq<Signal>)

  predicate Refused(stateId: string, max: Option<int>) {
    Blank(stateId) || (max.Some? && max.value <= 0)
  }

  function Next(h: History, e: Event): History {
    match e
    case Append(signal) =>
      if Known(h.queue, signal.id) then h else h.(queue := h.queue + [Entry(signal, false)])
    case Poll(stateId, accepted, max) =>
      if Refused(stateId, max) then h
      else
        var batch := Selected(Pending(h.queue, stateId), accepted, max);
        History(MarkAll(h.queue, batch), h.delivered + batch)
  }

  predicate Known(q: seq<Entry>, id: string) {
    exists i :: 0 <= i < |q| && q[i].signal.id == id
  }

  function Play(h: History, events: seq<Event>): History
    decreases |events|
  {
    if events == [] then h else Play(Next(h, events[0]), events[1..])
  }

  function OfState(signals: seq<Signal>, stateId: string): seq<Signal>
    decreases |signals|
  {
    if signals == [] then []
    else (if signals[0].stateId == stateId then [signals[0]] else []) + OfState(signals[1..], stateId)
  }

  ghost predicate Fair(h: History) {
    && Unique(h.queue) && InTurn(h.queue)
    && forall stateId :: Taken(h.queue, stateId) == OfState(h.delivered, stateId)
  }

  lemma {:induction false} AppendViews(q: seq<Entry>, s: Signal, stateId: string)
    ensures var q1 := q + [Entry(s, false)]; var more := if s.stateId == stateId then [s] else [];
            && All(q1, stateId) == All(q, stateId) + more
            && Pending(q1, stateId) == Pending(q, stateId) + more
            && Taken(q1, stateId) == Taken(q, stateId)
    decreases |q|
  {
    var q1 := q + [Entry(s, false)];
    if q == [] {
      assert q1[1..] == [];
    } else {
      assert q1[1..] == q[1..] + [Entry(s, false)] && q1[0] == q[0];
      AppendViews(q[1..], s, stateId);
      HeadViews(q, stateId);
      HeadViews(q1, stateId);
      var more := if s.stateId == stateId then [s] else [];
      Regrouped([q[0].signal], All(q[1..], stateId), more);
      Regrouped([q[0].signal], Pending(q[1..], stateId), more);
    }
  }

  lemma {:induction false} Regrouped(a: seq<Signal>, b: seq<Signal>, c: seq<Signal>)
    ensures a + (b + c) == a + b + c
  {
  }

  lemma {:induction false} OfStateJoins(a: seq<Signal>, b: seq<Signal>, stateId: string)
    ensures OfState(a + b, stateId) == OfState(a, stateId) + OfState(b, stateId)
    decreases |a|
  {
    if a == [] {
      assert a + b == b;
    } else {
      assert (a + b)[1..] == a[1..] + b && (a + b)[0] == a[0];
      OfStateJoins(a[1..], b, stateId);
      var head := if a[0].stateId == stateId then [a[0]] else [];
      Regrouped(head, OfState(a[1..], stateId), OfState(b, stateId));
    }
  }

  lemma {:induction false} OfStateUniform(a: seq<Signal>, owner: string, stateId: string)
    requires forall i :: 0 <= i < |a| ==> a[i].stateId == owner
    ensures OfState(a, stateId) == if owner == stateId then a else []
    decreases |a|
  {
    if a != [] {
      OfStateUniform(a[1..], owner, stateId);
    }
  }

  lemma {:induction false} PendingOwned(q: seq<Entry>, stateId: string)
    ensures forall i :: 0 <= i < |Pending(q, stateId)| ==> Pending(q, stateId)[i].stateId == stateId
    decreases |q|
  {
    if q != [] {
      PendingOwned(q[1..], stateId);
    }
  }

  lemma {:induction false} PollKeeps(h: History, stateId: string, accepted: Option<set<nat>>, max: Option<int>)
    requires Fair(h) && !Refused(stateId, max)
    ensures Fair(Next(h, Poll(stateId, accepted, max)))
    ensures forall other :: All(Next(h, Poll(stateId, accepted, max)).queue, other) == All(h.queue, other)
  {
    var batch := Selected(Pending(h.queue, stateId), accepted, max);
    var q1 := MarkAll(h.queue, batch);
    assert batch == Pending(h.queue, stateId)[..|batch|];
    MarkAllTakes(h.queue, stateId, |batch|);
    PendingOwned(h.queue, stateId);
    forall other
      ensures All(q1, other) == All(h.queue, other)
      ensures Taken(q1, other) == OfState(h.delivered + batch, other)
    {
      MarkAllKeeps(h.queue, stateId, |batch|, other);
      OfStateJoins(h.delivered, batch, other);
      OfStateUniform(batch, stateId, other);
    }
  }

  lemma {:induction false} AppendKeeps(h: History, s: Signal)
    requires Fair(h)
    ensures Fair(Next(h, Append(s)))
  {
    if !Known(h.queue, s.id) {
      var q1 := h.queue + [Entry(s, false)];
      forall stateId
        ensures Taken(q1, stateId) == OfState(h.delivered, stateId)
      {
        AppendViews(h.queue, s, stateId);
      }
    }
  }

  /** The signals of a state that a history appends, in order. */
  function Sent(h: History, events: seq<Event>, stateId: string): seq<Signal>
    decreases |events|
  {
    if events == [] then []
    else
      var e := events[0];
      (if e.Append? && !Known(h.queue, e.signal.id) && e.signal.stateId == stateId then [e.signal] else [])
      + Sent(Next(h, e), events[1..], stateId)
  }

  lemma {:induction false} StepConserves(h: History, e: Event, stateId: string)
    requires Fair(h)
    ensures Fair(Next(h, e))
    ensures All(Next(h, e).queue, stateId)
         == All(h.queue, stateId)
            + (if e.Append? && !Known(h.queue, e.signal.id) && e.signal.stateId == stateId then [e.signal] else [])
  {
    match e
    case Append(s) =>
      AppendKeeps(h, s);
      AppendViews(h.queue, s, stateId);
    case Poll(owner, accepted, max) =>
      if !Refused(owner, max) { PollKeeps(h, owner, accepted, max); }
  }

  lemma {:induction false} PlayConserves(h: History, events: seq<Event>, stateId: string)
    requires Fair(h)
    ensures Fair(Play(h, events))
    ensures All(Play(h, events).queue, stateId) == All(h.queue, stateId) + Sent(h, events, stateId)
    decreases |events|
  {
    if events != [] {
      StepConserves(h, events[0], stateId);
      PlayConserves(Next(h, events[0]), events[1..], stateId);
    }
  }

  /** Over every history of appends and polls, what was delivered to a state
      followed by what is pending for it is exactly what was sent to it: no
      signal is lost, delivered twice, or overtaken. */
  lemma {:induction false} DeliveryIsFifoAndExact(events: seq<Event>, stateId: string)
    ensures var h := Play(History([], []), events);
            OfState(h.delivered, stateId) + Pending(h.queue, stateId) == Sent(History([], []), events, stateId)
  {
    var h := Play(History([], []), events);
    PlayConserves(History([], []), events, stateId);
    SplitsInTurn(h.queue, stateId);
    assert Taken(h.queue, stateId) == OfState(h.delivered, stateId);
  }

  // ----- The repository and the poll -----

  lemma {:induction false} PendingNext(q: seq<Entry>, i: nat, stateId: string)
    requires i < |q|
    ensures var rest := Pending(q[i + 1..], stateId);
            Pending(q[i..], stateId)
            == if q[i].signal.stateId == stateId && !q[i].consumed then [q[i].signal] + rest else rest
  {
    assert q[i..][1..] == q[i + 1..];
  }

  class SignalRepository {
    var queue: seq<Entry>

    constructor ()
      ensures queue == []
    {
      queue := [];
    }

    method ListPending(stateId: string) returns (pending: seq<Signal>)
      ensures pending == Pending(queue, stateId)
    {
      pending := [];
      var i := 0;
      while i < |queue|
        invariant 0 <= i <= |queue|
        invariant pending + Pending(queue[i..], stateId) == Pending(queue, stateId)
      {
        PendingNext(queue, i, stateId);
        Regrouped(pending, [queue[i].signal], Pending(queue[i + 1..], stateId));
        if queue[i].signal.stateId == stateId && !queue[i].consumed { pending := pending + [queue[i].signal]; }
        i := i + 1;
      }
    }

    method MarkConsumed(signal: Signal) returns (r: Signal)
      modifies this
      ensures queue == Mark(old(queue), signal.id) && r == signal
    {
      var marked: seq<Entry> := [];
      var i := 0;
      while i < |queue|
        invariant 0 <= i <= |queue| && queue == old(queue)
        invariant marked + Mark(queue[i..], signal.id) == Mark(queue, signal.id)
      {
        var e := queue[i];
        marked := marked + [if e.signal.id == signal.id then e.(consumed := true) else e];
        i := i + 1;
      }
      queue := marked;
      r := signal;
    }

    /** `consume_pending_agent_signals`. */
    method ConsumePending(
        stateId: string, accepted: Option<set<nat>>, max: Option<int>) returns (batch: Result<seq<Signal>>)
      modifies this
      ensures batch.Err? <==> Refused(stateId, max)
      ensures batch.Err? ==> queue == old(queue)
      ensures batch.Ok? ==>
                && History(queue, batch.value) == Next(History(old(queue), []), Poll(stateId, accepted, max))
                && LongestPrefix(Pending(old(queue), stateId), accepted, max, |batch.value|)
    {
      if Blank(stateId) { return Err; }
      if max.Some? && max.value <= 0 { return Err; }
      var pending := ListPending(stateId);
      var selected := SelectConsumablePrefix(pending, accepted, max);
      var consumed: seq<Signal> := [];
      var i := 0;
      while i < |selected|
        invariant 0 <= i <= |selected| && consumed == selected[..i]
        invariant MarkAll(queue, selected[i..]) == MarkAll(old(queue), selected)
      {
        var signal := MarkConsumed(selected[i]);
        consumed := consumed + [signal];
        i := i + 1;
      }
      batch := Ok(consumed);
    }
  }
}
