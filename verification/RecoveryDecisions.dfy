/** What a restart plan decides, for every state and every log, and what the
    decisions are good for: a driver that follows them can always finish. */
module RecoveryDecisions {
  import opened Validation
  import opened Wrappers
  import opened Recovery

  // ----- What a record means -----

  /** The payload of `e` spells out the boundary `b`. */
  predicate Spells(e: Evidence, b: Boundary) {
    && e.id == b.evidenceId && !Blank(b.actionId)
    && "action_id" in e.payload && e.payload["action_id"] == Text(b.actionId)
    && "action_kind" in e.payload && e.payload["action_kind"] == Text(KindCode(b.kind))
    && "stage" in e.payload && e.payload["stage"] == Text(StageCode(b.stage))
    && "idempotency" in e.payload && e.payload["idempotency"] == Text(IdempotencyCode(b.idempotency))
  }

  lemma {:induction false} KindIsCode(s: string)
    ensures KindOf(s).Some? ==> s == KindCode(KindOf(s).value)
  {
  }

  lemma {:induction false} StageIsCode(s: string)
    ensures StageOf(s).Some? ==> s == StageCode(StageOf(s).value)
  {
  }

  lemma {:induction false} IdempotencyIsCode(s: string)
    ensures IdempotencyOf(s).Some? ==> s == IdempotencyCode(IdempotencyOf(s).value)
  {
  }

  /** A record reads as a boundary if and only if its payload spells it out. */
  lemma {:induction false} ReadsIffSpelled(e: Evidence, b: Boundary)
    ensures ToBoundary(e) == Ok(b) <==> Spells(e, b)
  {
    if Spells(e, b) {
      KindReadsBack(b.kind);
      StageReadsBack(b.stage);
      IdempotencyReadsBack(b.idempotency);
    }
    if ToBoundary(e) == Ok(b) {
      KindIsCode(e.payload["action_kind"].s);
      StageIsCode(e.payload["stage"].s);
      IdempotencyIsCode(e.payload["idempotency"].s);
    }
  }

  // ----- The decision -----

  /** The agent has not finished. */
  predicate Live(s: AgentState) {
    s.status in {Created, Active, Interrupted, Cancelling}
  }

  /** Nothing in the log is a boundary record. */
  predicate NoRecord(evidence: seq<Evidence>) {
    forall i | 0 <= i < |evidence| :: evidence[i].kind != ActionBoundary
  }

  /** Position `i` holds the last boundary record. */
  predicate LastAt(evidence: seq<Evidence>, i: nat) {
    && i < |evidence| && evidence[i].kind == ActionBoundary
    && forall j | i < j < |evidence| :: evidence[j].kind != ActionBoundary
  }

  /** The last boundary record spells out `b`. */
  ghost predicate LastSpells(evidence: seq<Evidence>, b: Boundary) {
    exists i: nat :: LastAt(evidence, i) && Spells(evidence[i], b)
  }

  ghost predicate LastIsCorrupt(evidence: seq<Evidence>) {
    exists i: nat :: LastAt(evidence, i) && ToBoundary(evidence[i]).Err?
  }

  /** Where the search for the last boundary record ends. */
  lemma {:induction false} LastBoundaryAt(evidence: seq<Evidence>) returns (i: nat)
    ensures i <= |evidence|
    ensures i == |evidence| ==> NoRecord(evidence) && LastBoundary(evidence) == Ok(None)
    ensures i < |evidence| ==> LastAt(evidence, i) && LastBoundary(evidence) == Found(ToBoundary(evidence[i]))
    decreases |evidence|
  {
    if evidence == [] {
      i := 0;
    } else {
      var n := |evidence| - 1;
      if evidence[n].kind == ActionBoundary {
        i := n;
      } else {
        i := LastBoundaryAt(evidence[..n]);
        if i == n { i := |evidence|; }
      }
    }
  }

  function Found(b: Result<Boundary>): Result<Option<Boundary>> {
    if b.Err? then Err else Ok(Some(b.value))
  }

  lemma {:induction false} LastBoundaryReads(evidence: seq<Evidence>, b: Boundary)
    ensures LastBoundary(evidence) == Ok(None) <==> NoRecord(evidence)
    ensures LastBoundary(evidence) == Ok(Some(b)) <==> LastSpells(evidence, b)
    ensures LastBoundary(evidence).Err? <==> LastIsCorrupt(evidence)
  {
    var i := LastBoundaryAt(evidence);
    if i < |evidence| {
      ReadsIffSpelled(evidence[i], b);
      ReadingIs(evidence, i, b, LastBoundary(evidence), ToBoundary(evidence[i]));
    }
  }

  lemma {:induction false} ReadingIs(
      evidence: seq<Evidence>, i: nat, b: Boundary, last: Result<Option<Boundary>>, read: Result<Boundary>)
    requires LastAt(evidence, i) && last == Found(read)
    requires read == ToBoundary(evidence[i]) && (read == Ok(b) <==> Spells(evidence[i], b))
    ensures !NoRecord(evidence) && last != Ok(None)
    ensures last == Ok(Some(b)) <==> LastSpells(evidence, b)
    ensures last.Err? <==> LastIsCorrupt(evidence)
  {
    assert forall j: nat :: LastAt(evidence, j) ==> j == i;
  }

  /** The boundary is an action that may be run again. */
  predicate MayRepeat(b: Boundary) {
    b.kind in {ModelCall, ToolCall} && b.idempotency in {Idempotent, ConditionallyIdempotent}
  }

  predicate NeedsHuman(b: Boundary) {
    b.kind == ApprovalWait || b.idempotency in {NonIdempotent, Unknown}
  }

  /** The state of the agent with the recovery marker set. */
  predicate OnlyMarked(s: AgentState, s1: AgentState, b: Boundary) {
    s1.status == s.status && s1.transition == s.transition && s1.reason == s.reason && s1.marker == Some(b.actionId)
  }

  predicate HandedOver(s1: AgentState, b: Boundary) {
    && s1.status == Interrupted && s1.transition == Some(ToInterrupted)
    && s1.reason == Some(RecoveryRequiresHitl) && s1.marker == Some(b.actionId)
  }

  /** `plan` is what `action` about `b` amounts to. */
  predicate About(plan: Result<Plan>, action: ResumeAction, b: Boundary) {
    plan.Ok? && plan.value.action == action && plan.value.boundary == Some(b)
  }

  /** The decision, from the status of the agent and the last boundary record
      alone: a finished agent is not resumable, a corrupt record is an error, an
      agent without records starts, a completed action is skipped, an unfinished
      one is retried if it may run again and handed to a human otherwise.  Only
      the last changes more of the state than the recovery marker. */
  lemma {:induction false} PlanDecides(s: AgentState, evidence: seq<Evidence>, b: Boundary)
    ensures var plan := PlanResume(s, evidence);
            && (!Live(s) <==> plan == Ok(Plan(s, NotResumable, None)))
            && (Live(s) && NoRecord(evidence) <==> plan == Ok(Plan(s, Start, None)))
            && (Live(s) && LastIsCorrupt(evidence) <==> plan.Err?)
            && (Live(s) && LastSpells(evidence, b) && b.stage == After
                <==> About(plan, SkipCompleted, b) && OnlyMarked(s, plan.value.state, b))
            && (Live(s) && LastSpells(evidence, b) && b.stage == Before && MayRepeat(b)
                <==> About(plan, Retry, b) && OnlyMarked(s, plan.value.state, b))
            && (Live(s) && LastSpells(evidence, b) && b.stage == Before && NeedsHuman(b)
                <==> About(plan, RequireHitl, b) && HandedOver(plan.value.state, b))
  {
    LastBoundaryReads(evidence, b);
    Decided(s, LastBoundary(evidence), b);
  }

  lemma {:induction false} Decided(s: AgentState, last: Result<Option<Boundary>>, b: Boundary)
    ensures var plan := Decide(s, last);
            && (!Live(s) <==> plan == Ok(Plan(s, NotResumable, None)))
            && (Live(s) && last == Ok(None) <==> plan == Ok(Plan(s, Start, None)))
            && (Live(s) && last.Err? <==> plan.Err?)
            && (Live(s) && last == Ok(Some(b)) && b.stage == After
                <==> About(plan, SkipCompleted, b) && OnlyMarked(s, plan.value.state, b))
            && (Live(s) && last == Ok(Some(b)) && b.stage == Before && MayRepeat(b)
                <==> About(plan, Retry, b) && OnlyMarked(s, plan.value.state, b))
            && (Live(s) && last == Ok(Some(b)) && b.stage == Before && NeedsHuman(b)
                <==> About(plan, RequireHitl, b) && HandedOver(plan.value.state, b))
  {
  }

  // ----- What a driver can do with it -----

  /** An action that was cut between its two records and may run again is back
      where it was to begin, without a human; any other waits for one; one whose
      end is recorded is left behind. */
  lemma {:induction false} RecoverReturnsTo(script: seq<Action>, w: World, p: Progress)
    requires WellFormed(script) && Safe(script, w, p) && w.position == Down && Live(w.state)
    ensures var w1 := Next(script, w, Recover);
            && w1.evidence == w.evidence && w1.runs == w.runs && w1.approvals == w.approvals
            && (p == Nothing ==> w1.position == At(0) && w1.state == w.state)
            && (p.Ended? ==> w1.position == At(p.i + 1))
            && (p.Begun? && !Guarded(script[p.i]) ==> w1.position == At(p.i) && w1.state.status == w.state.status)
            && (p.Begun? && Guarded(script[p.i]) ==> w1.position == Waiting(p.i) && w1.state.status == Interrupted)
  {
    if !p.Nothing? {
      IndexFound(script, p.i);
    }
  }

  lemma {:induction false} PlayMore(script: seq<Action>, w: World, a: seq<Move>, b: seq<Move>)
    ensures Play(script, w, a + b) == Play(script, Play(script, w, a), b)
    decreases |a|
  {
    if a == [] {
      assert a + b == b;
    } else {
      assert (a + b)[1..] == a[1..] + b;
      PlayMore(script, Next(script, w, a[0]), a[1..], b);
    }
  }

  lemma {:induction false} PlayTwo(script: seq<Action>, w: World, m: Move, n: Move)
    ensures Play(script, w, [m, n]) == Next(script, Next(script, w, m), n)
  {
    var rest := [m, n][1..];
    assert rest == [n] && rest[1..] == [];
    assert Play(script, Next(script, w, m), rest) == Next(script, Next(script, w, m), n);
  }

  /** In every run: an action cut off by a crash while it was under way is about
      to begin again after recovery if it may run again, with no approval. */
  lemma {:induction false} CutActionIsRetried(
      script: seq<Action>, s: AgentState, moves: seq<Move>, i: nat)
    requires WellFormed(script) && i < |script| && !Guarded(script[i])
    requires var w := Play(script, Fresh(script, s), moves); w.position in {Recorded(i), Ran(i)} && Live(w.state)
    ensures var w := Play(script, Fresh(script, s), moves);
            var w1 := Play(script, Fresh(script, s), moves + [Crash, Recover]);
            && w1.position == At(i) && w1.state.status == w.state.status
            && w1.runs == w.runs && w1.approvals == w.approvals && w1.evidence == w.evidence
  {
    var w := Play(script, Fresh(script, s), moves);
    var p := PlayKeeps(script, Fresh(script, s), Nothing, moves);
    PlayMore(script, Fresh(script, s), moves, [Crash, Recover]);
    PlayTwo(script, w, Crash, Recover);
    RecoverReturnsTo(script, Next(script, w, Crash), p);
  }

  // ----- Every run can be finished -----

  predicate NoApproval(moves: seq<Move>) {
    forall k | 0 <= k < |moves| :: !moves[k].Approve?
  }

  /** The moves that carry out the actions from `i` on. */
  function CarryOut(n: nat): seq<Move> {
    if n == 0 then [] else [Begin("b"), Run, End("e")] + CarryOut(n - 1)
  }

  lemma {:induction false} OneAction(script: seq<Action>, w: World, p: Progress) returns (q: Progress)
    requires WellFormed(script) && Safe(script, w, p) && w.position.At? && w.position.i < |script|
    ensures var w1 := Play(script, w, [Begin("b"), Run, End("e")]);
            Safe(script, w1, q) && w1.position == At(w.position.i + 1)
  {
    q := PlayKeeps(script, w, p, [Begin("b"), Run, End("e")]);
    PlayThree(script, w, Begin("b"), Run, End("e"));
    ActionMoves(script, w);
  }

  lemma {:induction false} PlayThree(script: seq<Action>, w: World, l: Move, m: Move, n: Move)
    ensures Play(script, w, [l, m, n]) == Next(script, Next(script, Next(script, w, l), m), n)
  {
    assert [l, m, n][1..] == [m, n];
    PlayTwo(script, Next(script, w, l), m, n);
  }

  lemma {:induction false} ActionMoves(script: seq<Action>, w: World)
    requires w.position.At? && w.position.i < |script| == |w.runs|
    ensures Next(script, Next(script, Next(script, w, Begin("b")), Run), End("e")).position == At(w.position.i + 1)
  {
  }

  lemma {:induction false} CarryOutFinishes(script: seq<Action>, w: World, p: Progress, n: nat) returns (q: Progress)
    requires WellFormed(script) && Safe(script, w, p) && w.position.At? && w.position.i + n == |script|
    ensures var w1 := Play(script, w, CarryOut(n)); Safe(script, w1, q) && w1.position == At(|script|)
    ensures NoApproval(CarryOut(n))
    decreases n
  {
    q := p;
    if n > 0 {
      var q1 := OneAction(script, w, p);
      q := CarryOutFinishes(script, Play(script, w, [Begin("b"), Run, End("e")]), q1, n - 1);
      PlayMore(script, w, [Begin("b"), Run, End("e")], CarryOut(n - 1));
    }
  }

  /** From every point of every run of a live agent the script can be carried to
      its end, so that every action ran; and without any approval unless the
      action under way is one that must not be repeated on its own. */
  lemma {:induction false} EveryRunCanFinish(script: seq<Action>, s: AgentState, moves: seq<Move>)
    returns (more: seq<Move>)
    requires WellFormed(script) && Live(Play(script, Fresh(script, s), moves).state)
    ensures var w := Play(script, Fresh(script, s), moves + more);
            w.position == At(|script|) && |w.runs| == |script| && forall i | 0 <= i < |script| :: w.runs[i] >= 1
    ensures (forall i | 0 <= i < |script| :: !Guarded(script[i])) ==> NoApproval(more)
  {
    var first := Fresh(script, s);
    var w := Play(script, first, moves);
    var p := PlayKeeps(script, first, Nothing, moves);
    more := FinishFrom(script, w, p);
    PlayMore(script, first, moves, more);
  }

  lemma {:induction false} FinishFrom(script: seq<Action>, w: World, p: Progress) returns (more: seq<Move>)
    requires WellFormed(script) && Safe(script, w, p) && Live(w.state)
    ensures var w1 := Play(script, w, more);
            w1.position == At(|script|) && |w1.runs| == |script| && forall i | 0 <= i < |script| :: w1.runs[i] >= 1
    ensures (forall i | 0 <= i < |script| :: !Guarded(script[i])) ==> NoApproval(more)
  {
    var start := BackOnTrack(script, w, p);
    var w1 := Play(script, w, start);
    var p1 := PlayKeeps(script, w, p, start);
    var n := |script| - w1.position.i;
    var q := CarryOutFinishes(script, w1, p1, n);
    more := start + CarryOut(n);
    PlayMore(script, w, start, CarryOut(n));
    EveryActionRan(script, Play(script, w, more), q);
  }

  lemma {:induction false} EveryActionRan(script: seq<Action>, w: World, p: Progress)
    requires Safe(script, w, p) && w.position == At(|script|)
    ensures |w.runs| == |script| && forall i | 0 <= i < |script| :: w.runs[i] >= 1
  {
  }

  /** A crash and a recovery, and an approval if one is waited for, bring the
      driver to the frontier. */
  lemma {:induction false} BackOnTrack(script: seq<Action>, w: World, p: Progress) returns (moves: seq<Move>)
    requires WellFormed(script) && Safe(script, w, p) && Live(w.state)
    ensures Play(script, w, moves).position == At(Frontier(p)) && Frontier(p) <= |script|
    ensures (forall i | 0 <= i < |script| :: !Guarded(script[i])) ==> NoApproval(moves)
  {
    moves := [Crash, Recover];
    PlayTwo(script, w, Crash, Recover);
    var down := Next(script, w, Crash);
    RecoverReturnsTo(script, down, p);
    var w1 := Next(script, down, Recover);
    if w1.position.Waiting? {
      PlayMore(script, w, moves, [Approve]);
      assert [Approve][1..] == [];
      assert Play(script, w1, [Approve]) == Next(script, w1, Approve);
      moves := moves + [Approve];
    }
  }
}
