/** Restart planning for durable agents
    (core/spakky-agent/src/spakky/agent/recovery.py): checkpoints recorded
    around external actions, and the plan a restart derives from them. */
module Recovery {
  import opened Validation
  import opened Wrappers

  datatype ActionKind = ModelCall | ToolCall | ApprovalWait
  datatype Stage = Before | After
  datatype Idempotency = Idempotent | ConditionallyIdempotent | NonIdempotent | Unknown

  datatype Status = Created | Active | Interrupted | Cancelling | Completed | Failed | Cancelled
  datatype Transition =
    | Pending | Running | WaitingApproval | ToCancelling | ToCancelled | ToCompleted | ToFailed
    | TimedOut | ToInterrupted

  datatype Reason = RecoveryRequiresHitl | OtherReason(code: nat)

  datatype AgentState = AgentState(
    status: Status, transition: Option<Transition>, reason: Option<Reason>, marker: Option<string>)

  /** A payload value: only strings matter to the reader. */
  datatype Value = Text(s: string) | NotText

  datatype EvidenceKind = ActionBoundary | OtherKind(code: nat)

  datatype Evidence = Evidence(id: string, kind: EvidenceKind, payload: map<string, Value>)

  datatype Checkpoint = Checkpoint(actionId: string, kind: ActionKind, stage: Stage, idempotency: Idempotency)

  datatype Boundary = Boundary(
    actionId: string, kind: ActionKind, stage: Stage, idempotency: Idempotency, evidenceId: string)

  datatype ResumeAction = Start | SkipCompleted | Retry | RequireHitl | NotResumable

  datatype Plan = Plan(state: AgentState, action: ResumeAction, boundary: Option<Boundary>)

  // ----- Codes -----

  function KindCode(k: ActionKind): string {
    match k
    case ModelCall => "model_call"
    case ToolCall => "tool_call"
    case ApprovalWait => "approval_wait"
  }

  function KindOf(s: string): Option<ActionKind> {
    match s
    case "model_call" => Some(ModelCall)
    case "tool_call" => Some(ToolCall)
    case "approval_wait" => Some(ApprovalWait)
    case _ => None
  }

  function StageCode(s: Stage): string {
    if s.Before? then "before" else "after"
  }

  function StageOf(s: string): Option<Stage> {
    match s
    case "before" => Some(Before)
    case "after" => Some(After)
    case _ => None
  }

  function IdempotencyCode(i: Idempotency): string {
    match i
    case Idempotent => "idempotent"
    case ConditionallyIdempotent => "conditionally_idempotent"
    case NonIdempotent => "non_idempotent"
    case Unknown => "unknown"
  }

  function IdempotencyOf(s: string): Option<Idempotency> {
    match s
    case "idempotent" => Some(Idempotent)
    case "conditionally_idempotent" => Some(ConditionallyIdempotent)
    case "non_idempotent" => Some(NonIdempotent)
    case "unknown" => Some(Unknown)
    case _ => None
  }

  // ----- Writing and reading checkpoints -----

  function MakeCheckpoint(
      actionId: string, kind: ActionKind, stage: Stage, idempotency: Idempotency): Result<Checkpoint>
  {
    if Blank(actionId) then Err else Ok(Checkpoint(actionId, kind, stage, idempotency))
  }

  /** `to_evidence_candidate`, stored under the id `id`. */
  function ToEvidence(c: Checkpoint, id: string): Evidence {
    Evidence(id, ActionBoundary,
             map["action_id" := Text(c.actionId), "action_kind" := Text(KindCode(c.kind)),
                 "stage" := Text(StageCode(c.stage)), "idempotency" := Text(IdempotencyCode(c.idempotency)),
                 "metadata" := NotText])
  }

  function StringPayload(payload: map<string, Value>, key: string): Result<string> {
    if key !in payload || payload[key].NotText? || Blank(payload[key].s) then Err else Ok(payload[key].s)
  }

  function ToBoundary(e: Evidence): Result<Boundary> {
    var actionId := StringPayload(e.payload, "action_id");
    var kind := StringPayload(e.payload, "action_kind");
    var stage := StringPayload(e.payload, "stage");
    var idempotency := StringPayload(e.payload, "idempotency");
    if actionId.Err? || kind.Err? || KindOf(kind.value).None? || stage.Err? || StageOf(stage.value).None?
       || idempotency.Err? || IdempotencyOf(idempotency.value).None?
    then Err
    else Ok(Boundary(actionId.value, KindOf(kind.value).value, StageOf(stage.value).value,
        IdempotencyOf(idempotency.value).value, e.id))
  }

  lemma {:induction false} KindReadsBack(k: ActionKind)
    ensures KindOf(KindCode(k)) == Some(k) && !Blank(KindCode(k))
  {
    assert !Whitespace(KindCode(k)[0]);
  }

  lemma {:induction false} StageReadsBack(s: Stage)
    ensures StageOf(StageCode(s)) == Some(s) && !Blank(StageCode(s))
  {
    assert !Whitespace(StageCode(s)[0]);
  }

  lemma {:induction false} IdempotencyReadsBack(i: Idempotency)
    ensures IdempotencyOf(IdempotencyCode(i)) == Some(i) && !Blank(IdempotencyCode(i))
  {
    assert !Whitespace(IdempotencyCode(i)[0]);
  }

  lemma {:induction false} PayloadHolds(c: Checkpoint, id: string)
    ensures var payload := ToEvidence(c, id).payload;
            && "action_id" in payload && payload["action_id"] == Text(c.actionId)
            && "action_kind" in payload && payload["action_kind"] == Text(KindCode(c.kind))
            && "stage" in payload && payload["stage"] == Text(StageCode(c.stage))
            && "idempotency" in payload && payload["idempotency"] == Text(IdempotencyCode(c.idempotency))
  {
    assert "action_kind"[0] != "idempotency"[0];
    assert |"action_id"| == 9 && |"action_kind"| == 11 && |"stage"| == 5 && |"idempotency"| == 11 && |"metadata"| == 8;
  }

  /** A checkpoint that could be made reads back as it was written. */
  lemma {:induction false} CheckpointRoundTrip(
      actionId: string, kind: ActionKind, stage: Stage, idempotency: Idempotency, id: string)
    requires MakeCheckpoint(actionId, kind, stage, idempotency).Ok?
    ensures ToBoundary(ToEvidence(MakeCheckpoint(actionId, kind, stage, idempotency).value, id))
         == Ok(Boundary(actionId, kind, stage, idempotency, id))
  {
    PayloadHolds(Checkpoint(actionId, kind, stage, idempotency), id);
    KindReadsBack(kind);
    StageReadsBack(stage);
    IdempotencyReadsBack(idempotency);
  }

  // ----- The plan -----

  function LastBoundary(evidence: seq<Evidence>): Result<Option<Boundary>>
    decreases |evidence|
  {
    if evidence == [] then Ok(None)
    else
      var e := evidence[|evidence| - 1];
      if e.kind != ActionBoundary then LastBoundary(evidence[..|evidence| - 1])
      else
        var b := ToBoundary(e);
        if b.Err? then Err else Ok(Some(b.value))
  }

  /** `_last_action_boundary`. */
  method FindLastBoundary(evidence: seq<Evidence>) returns (b: Result<Option<Boundary>>)
    ensures b == LastBoundary(evidence)
  {
    var i := |evidence|;
    assert evidence[..i] == evidence;
    while i > 0
      invariant 0 <= i <= |evidence|
      invariant LastBoundary(evidence[..i]) == LastBoundary(evidence)
    {
      i := i - 1;
      assert evidence[..i + 1][..i] == evidence[..i];
      if evidence[i].kind == ActionBoundary {
        var r := ToBoundary(evidence[i]);
        return if r.Err? then Err else Ok(Some(r.value));
      }
    }
    b := Ok(None);
  }

  predicate Retryable(i: Idempotency) {
    i.Idempotent? || i.ConditionallyIdempotent?
  }

  predicate Terminal(s: Status) {
    s.Completed? || s.Failed? || s.Cancelled?
  }

  function Interrupt(s: AgentState, b: Boundary): AgentState {
    AgentState(Interrupted, Some(ToInterrupted), Some(RecoveryRequiresHitl), Some(b.actionId))
  }

  /** `plan_agent_resume`. */
  function PlanResume(s: AgentState, evidence: seq<Evidence>): Result<Plan> {
    Decide(s, LastBoundary(evidence))
  }

  function Decide(s: AgentState, last: Result<Option<Boundary>>): Result<Plan> {
    if Terminal(s.status) then Ok(Plan(s, NotResumable, None))
    else if last.Err? then Err
    else if last.value.None? then Ok(Plan(s, Start, None))
    else
      var b := last.value.value;
      if b.stage.After? then Ok(Plan(s.(marker := Some(b.actionId)), SkipCompleted, last.value))
      else if b.kind.ApprovalWait? then Ok(Plan(Interrupt(s, b), RequireHitl, last.value))
      else if Retryable(b.idempotency) then Ok(Plan(s.(marker := Some(b.actionId)), Retry, last.value))
      else Ok(Plan(Interrupt(s, b), RequireHitl, last.value))
  }

  lemma {:induction false} NotesDoNotMatter(evidence: seq<Evidence>, notes: seq<Evidence>)
    requires forall e :: e in notes ==> e.kind != ActionBoundary
    ensures LastBoundary(evidence + notes) == LastBoundary(evidence)
    decreases |notes|
  {
    if notes == [] {
      assert evidence + notes == evidence;
    } else {
      var n := |notes| - 1;
      assert notes[n] in notes;
      assert (evidence + notes)[..|evidence + notes| - 1] == evidence + notes[..n];
      NotesDoNotMatter(evidence, notes[..n]);
    }
  }

  /** The plan is a function of the last boundary alone: what came before it,
      valid or corrupt, and any other evidence after it do not matter. */
  lemma {:induction false} OnlyLastBoundaryMatters(
      s: AgentState, before: seq<Evidence>, other: seq<Evidence>, last: Evidence, notes: seq<Evidence>)
    requires last.kind == ActionBoundary && forall e :: e in notes ==> e.kind != ActionBoundary
    ensures PlanResume(s, before + [last] + notes) == PlanResume(s, other + [last])
  {
    NotesDoNotMatter(before + [last], notes);
    assert (before + [last])[|before + [last]| - 1] == last && (other + [last])[|other + [last]| - 1] == last;
  }

  // ----- Which unfinished actions a plan brings up -----

  /** Every boundary record reads back. */
  ghost predicate Readable(evidence: seq<Evidence>) {
    forall i :: 0 <= i < |evidence| && evidence[i].kind == ActionBoundary ==> ToBoundary(evidence[i]).Ok?
  }

  predicate Records(e: Evidence, id: string) {
    e.kind == ActionBoundary && ToBoundary(e).Ok? && ToBoundary(e).value.actionId == id
  }

  /** The stage that the log last records for an action. */
  function LastStage(evidence: seq<Evidence>, id: string): Option<Stage>
    decreases |evidence|
  {
    if evidence == [] then None
    else
      var n := |evidence| - 1;
      if Records(evidence[n], id) then Some(ToBoundary(evidence[n]).value.stage) else LastStage(evidence[..n], id)
  }

  /** The action began, and did not end since. */
  predicate Unfinished(evidence: seq<Evidence>, id: string) {
    LastStage(evidence, id) == Some(Before)
  }

  /** The plan asks for the action to be retried or decided upon. */
  predicate Surfaces(plan: Plan, id: string) {
    && (plan.action.Retry? || plan.action.RequireHitl?)
    && plan.boundary.Some? && plan.boundary.value.actionId == id
  }

  predicate LastRecorded(evidence: seq<Evidence>, id: string) {
    var last := LastBoundary(evidence);
    last.Ok? && last.value.Some? && last.value.value.actionId == id
  }

  /** The last boundary is the last record of its own action. */
  lemma {:induction false} LastBoundaryIsLatest(evidence: seq<Evidence>)
    requires Readable(evidence)
    ensures LastBoundary(evidence).Ok?
    ensures var last := LastBoundary(evidence).value;
            last.Some? ==> LastStage(evidence, last.value.actionId) == Some(last.value.stage)
    decreases |evidence|
  {
    if evidence != [] {
      var n := |evidence| - 1;
      assert evidence[n].kind == ActionBoundary ==> ToBoundary(evidence[n]).Ok?;
      if evidence[n].kind != ActionBoundary {
        assert forall i :: 0 <= i < n ==> evidence[..n][i] == evidence[i];
        LastBoundaryIsLatest(evidence[..n]);
      }
    }
  }

  lemma {:induction false} UnfinishedIsRecorded(evidence: seq<Evidence>, id: string)
    requires Readable(evidence) && LastStage(evidence, id).Some?
    ensures LastBoundary(evidence).Ok? && LastBoundary(evidence).value.Some?
    decreases |evidence|
  {
    var n := |evidence| - 1;
    assert evidence[n].kind == ActionBoundary ==> ToBoundary(evidence[n]).Ok?;
    if evidence[n].kind != ActionBoundary {
      assert forall i :: 0 <= i < n ==> evidence[..n][i] == evidence[i];
      UnfinishedIsRecorded(evidence[..n], id);
    }
  }

  /** Of the unfinished actions, the plan brings up the last recorded one. */
  lemma {:induction false} SurfacedIffLast(s: AgentState, evidence: seq<Evidence>, id: string)
    requires !Terminal(s.status) && Readable(evidence) && Unfinished(evidence, id)
    ensures PlanResume(s, evidence).Ok?
    ensures Surfaces(PlanResume(s, evidence).value, id) <==> LastRecorded(evidence, id)
  {
    LastBoundaryIsLatest(evidence);
    UnfinishedIsRecorded(evidence, id);
  }

  ghost predicate SurfacesAll(plan: Result<Plan>, evidence: seq<Evidence>) {
    plan.Ok? && forall id :: Unfinished(evidence, id) ==> Surfaces(plan.value, id)
  }

  /** A plan brings up every unfinished action if and only if the only one there
      is, if any, is the action of the last boundary. */
  lemma {:induction false} PlanSurfacesAllIff(s: AgentState, evidence: seq<Evidence>)
    requires !Terminal(s.status) && Readable(evidence)
    ensures SurfacesAll(PlanResume(s, evidence), evidence)
       <==> forall id :: Unfinished(evidence, id) ==> LastRecorded(evidence, id)
  {
    LastBoundaryIsLatest(evidence);
    forall id | Unfinished(evidence, id)
      ensures PlanResume(s, evidence).Ok?
      ensures Surfaces(PlanResume(s, evidence).value, id) <==> LastRecorded(evidence, id)
    {
      SurfacedIffLast(s, evidence, id);
    }
  }

  lemma {:induction false} CheckpointRecords(before: seq<Evidence>, c: Checkpoint, id: string, other: string)
    requires !Blank(c.actionId)
    ensures var log := before + [ToEvidence(c, id)];
            && (Readable(before) ==> Readable(log))
            && LastStage(log, other) == (if other == c.actionId then Some(c.stage) else LastStage(before, other))
            && LastRecorded(log, c.actionId)
  {
    CheckpointRoundTrip(c.actionId, c.kind, c.stage, c.idempotency, id);
    var log := before + [ToEvidence(c, id)];
    assert log[..|before|] == before;
    assert forall i :: 0 <= i < |before| ==> log[i] == before[i];
  }

  /** So a plan needs actions that do not overlap: when one begins before
      another ends, the end of the other hides that it never ended, and no plan
      brings it up, however unsafe it is to lose. */
  lemma {:induction false} OverlappingActionIsForgotten(
      s: AgentState, before: seq<Evidence>, begun: Checkpoint, ended: Checkpoint, id1: string, id2: string)
    requires !Terminal(s.status) && Readable(before)
    requires !Blank(begun.actionId) && !Blank(ended.actionId) && begun.actionId != ended.actionId
    requires begun.stage.Before? && ended.stage.After?
    ensures var log := before + [ToEvidence(begun, id1)] + [ToEvidence(ended, id2)];
            var plan := PlanResume(s, log);
            && Unfinished(log, begun.actionId)
            && plan.Ok? && plan.value.action == SkipCompleted && !Surfaces(plan.value, begun.actionId)
            && !SurfacesAll(plan, log)
  {
    var log1 := before + [ToEvidence(begun, id1)];
    CheckpointRecords(before, begun, id1, begun.actionId);
    CheckpointRecords(log1, ended, id2, begun.actionId);
    CheckpointRecords(log1, ended, id2, ended.actionId);
    var log := log1 + [ToEvidence(ended, id2)];
    LastBoundaryIsLatest(log);
    SurfacedIffLast(s, log, begun.actionId);
  }

  // ----- A crashing driver -----

  datatype Action = Action(id: string, kind: ActionKind, idempotency: Idempotency)

  /** An action the plan must not run again on its own. */
  predicate Guarded(a: Action) {
    a.kind.ApprovalWait? || !Retryable(a.idempotency)
  }

  ghost predicate WellFormed(script: seq<Action>) {
    && (forall i :: 0 <= i < |script| ==> !Blank(script[i].id))
    && (forall i, j :: 0 <= i < j < |script| ==> script[i].id != script[j].id)
  }

  /** Where the driver of a run stands. */
  datatype Position =
    | Down               // crashed, or stopped by its plan
    | At(i: nat)         // about to record that action i begins
    | Recorded(i: nat)   // about to run action i
    | Ran(i: nat)        // about to record that action i ended
    | Waiting(i: nat)    // a human must decide about action i

  /** Everything durable, plus counts of what happened outside. */
  datatype World = World(
    state: AgentState, evidence: seq<Evidence>, position: Position, runs: seq<nat>, approvals: seq<nat>)

  datatype Move =
    | Begin(id: string) | Run | End(id: string) // the action protocol
    | Crash | Recover | Approve
    | Note(e: Evidence)                         // any other evidence
    | Save(state: AgentState)                   // any change of the stored state

  function CheckpointOf(a: Action, stage: Stage): Checkpoint {
    Checkpoint(a.id, a.kind, stage, a.idempotency)
  }

  function IndexOf(script: seq<Action>, id: string): nat
    decreases |script|
  {
    if script == [] || script[0].id == id then 0 else 1 + IndexOf(script[1..], id)
  }

  function Resumed(script: seq<Action>, plan: Plan): Position {
    if plan.action.Start? then At(0)
    else if plan.boundary.None? then Down
    else
      var i := IndexOf(script, plan.boundary.value.actionId);
      match plan.action
      case SkipCompleted => At(i + 1)
      case Retry => At(i)
      case RequireHitl => Waiting(i)
      case _ => Down
  }

  /** One move; a move that is not possible changes nothing. */
  function Next(script: seq<Action>, w: World, move: Move): World {
    match move
    case Begin(id) =>
      if w.position.At? && w.position.i < |script| then
        w.(evidence := w.evidence + [ToEvidence(CheckpointOf(script[w.position.i], Before), id)],
            position := Recorded(w.position.i))
      else w
    case Run =>
      if w.position.Recorded? && w.position.i < |w.runs| then
        w.(runs := w.runs[w.position.i := w.runs[w.position.i] + 1], position := Ran(w.position.i))
      else w
    case End(id) =>
      if w.position.Ran? && w.position.i < |script| then
        w.(evidence := w.evidence + [ToEvidence(CheckpointOf(script[w.position.i], After), id)],
            position := At(w.position.i + 1))
      else w
    case Crash => w.(position := Down)
    case Recover =>
      if w.position != Down then w
      else
        var plan := PlanResume(w.state, w.evidence);
        if plan.Err? then w else w.(state := plan.value.state, position := Resumed(script, plan.value))
    case Approve =>
      if w.position.Waiting? && w.position.i < |w.approvals| then
        w.(approvals := w.approvals[w.position.i := w.approvals[w.position.i] + 1], position := At(w.position.i))
      else w
    case Note(e) => if e.kind != ActionBoundary then w.(evidence := w.evidence + [e]) else w
    case Save(state) => w.(state := state)
  }

  function Play(script: seq<Action>, w: World, moves: seq<Move>): World
    decreases |moves|
  {
    if moves == [] then w else Play(script, Next(script, w, moves[0]), moves[1..])
  }

  function Zeros(n: nat): seq<nat> {
    seq(n, i => 0)
  }

  function Fresh(script: seq<Action>, s: AgentState): World {
    World(s, [], At(0), Zeros(|script|), Zeros(|script|))
  }

  // ----- What every run keeps -----

  /** How far the evidence says the run has come. */
  datatype Progress = Nothing | Begun(i: nat) | Ended(i: nat)

  predicate Reads(script: seq<Action>, evidence: seq<Evidence>, p: Progress) {
    var last := LastBoundary(evidence);
    last.Ok? &&
    match p
    case Nothing => last.value.None?
    case Begun(i) => i < |script| && last.value.Some? && Matches(last.value.value, script[i], Before)
    case Ended(i) => i < |script| && last.value.Some? && Matches(last.value.value, script[i], After)
  }

  predicate Matches(b: Boundary, a: Action, stage: Stage) {
    b.actionId == a.id && b.kind == a.kind && b.stage == stage && b.idempotency == a.idempotency
  }

  /** The first action that is not known to have ended. */
  function Frontier(p: Progress): nat {
    match p
    case Nothing => 0
    case Begun(i) => i
    case Ended(i) => i + 1
  }

  /** Positions that fit what is recorded. */
  predicate Fits(p: Progress, position: Position) {
    match position
    case Down => true
    case At(i) => i == Frontier(p)
    case Recorded(i) => p == Begun(i)
    case Ran(i) => p == Begun(i)
    case Waiting(i) => p == Begun(i)
  }

  /** Everything before the frontier ran, nothing beyond it did. */
  predicate InOrder(w: World, p: Progress) {
    && (forall j :: 0 <= j < |w.runs| && j < Frontier(p) ==> w.runs[j] >= 1)
    && (forall j :: Frontier(p) < j < |w.runs| ==> w.runs[j] == 0)
    && (!p.Begun? && Frontier(p) < |w.runs| ==> w.runs[Frontier(p)] == 0)
    && (w.position.Ran? && w.position.i < |w.runs| ==> w.runs[w.position.i] >= 1)
  }

  /** A guarded action ran at most once more than it was approved, and not even
      that often while it is about to run. */
  predicate Budgeted(script: seq<Action>, w: World) {
    forall i :: 0 <= i < |script| && i < |w.runs| && i < |w.approvals| && Guarded(script[i]) ==>
      w.runs[i] <= (if w.position == At(i) || w.position == Recorded(i) then 0 else 1) + w.approvals[i]
  }

  predicate Safe(script: seq<Action>, w: World, p: Progress) {
    && |w.runs| == |script| == |w.approvals|
    && Reads(script, w.evidence, p) && Fits(p, w.position)
    && InOrder(w, p) && Budgeted(script, w)
  }

  lemma {:induction false} IndexFound(script: seq<Action>, i: nat)
    requires WellFormed(script) && i < |script|
    ensures IndexOf(script, script[i].id) == i
    decreases |script|
  {
    if i > 0 {
      assert script[0].id != script[i].id;
      IndexFound(script[1..], i - 1);
    }
  }

  lemma {:induction false} CheckpointReads(
      script: seq<Action>, evidence: seq<Evidence>, i: nat, stage: Stage, id: string)
    requires WellFormed(script) && i < |script|
    ensures Reads(script, evidence + [ToEvidence(CheckpointOf(script[i], stage), id)],
        if stage.Before? then Begun(i) else Ended(i))
  {
    CheckpointRoundTrip(script[i].id, script[i].kind, stage, script[i].idempotency, id);
  }

  lemma {:induction false} BeginKeeps(script: seq<Action>, w: World, p: Progress, id: string) returns (q: Progress)
    requires WellFormed(script) && Safe(script, w, p) && w.position.At? && w.position.i < |script|
    ensures Safe(script, Next(script, w, Begin(id)), q) && Frontier(q) >= Frontier(p)
  {
    CheckpointReads(script, w.evidence, w.position.i, Before, id);
    q := Begun(w.position.i);
  }

  lemma {:induction false} EndKeeps(script: seq<Action>, w: World, p: Progress, id: string) returns (q: Progress)
    requires WellFormed(script) && Safe(script, w, p) && w.position.Ran? && w.position.i < |script|
    ensures Safe(script, Next(script, w, End(id)), q) && Frontier(q) >= Frontier(p)
  {
    var i := w.position.i;
    CheckpointReads(script, w.evidence, i, After, id);
    q := Ended(i);
    EndInOrder(script, w, Next(script, w, End(id)), i);
  }

  lemma {:induction false} EndInOrder(script: seq<Action>, w: World, w1: World, i: nat)
    requires |w.runs| == |script| == |w.approvals| && i < |script| && w.position == Ran(i)
    requires InOrder(w, Begun(i)) && Budgeted(script, w)
    requires w1.runs == w.runs && w1.approvals == w.approvals && w1.position == At(i + 1)
    ensures InOrder(w1, Ended(i)) && Budgeted(script, w1)
  {
  }

  lemma {:induction false} RecoverKeeps(script: seq<Action>, w: World, p: Progress)
    requires WellFormed(script) && Safe(script, w, p) && w.position == Down
    ensures Safe(script, Next(script, w, Recover), p)
  {
    var plan := PlanResume(w.state, w.evidence);
    if plan.Ok? && !plan.value.action.NotResumable? && !p.Nothing? {
      IndexFound(script, p.i);
    }
  }

  lemma {:induction false} NoteKeeps(script: seq<Action>, w: World, p: Progress, e: Evidence)
    requires Safe(script, w, p) && e.kind != ActionBoundary
    ensures Safe(script, Next(script, w, Note(e)), p)
  {
    NotesDoNotMatter(w.evidence, [e]);
  }

  /** Every move keeps safety, and the frontier never moves back. */
  lemma {:induction false} MoveKeeps(script: seq<Action>, w: World, p: Progress, move: Move) returns (q: Progress)
    requires WellFormed(script) && Safe(script, w, p)
    ensures Safe(script, Next(script, w, move), q) && Frontier(q) >= Frontier(p)
  {
    q := p;
    match move
    case Begin(id) => if w.position.At? && w.position.i < |script| { q := BeginKeeps(script, w, p, id); }
    case End(id) => if w.position.Ran? && w.position.i < |script| { q := EndKeeps(script, w, p, id); }
    case Recover => if w.position == Down { RecoverKeeps(script, w, p); }
    case Note(e) => if e.kind != ActionBoundary { NoteKeeps(script, w, p, e); }
    case _ =>
  }

  /** Once the evidence says that an action ended, it never runs again. */
  lemma {:induction false} MoveLeavesEnded(script: seq<Action>, w: World, p: Progress, move: Move, j: nat)
    requires Safe(script, w, p) && j < Frontier(p) && j < |w.runs|
    ensures |Next(script, w, move).runs| == |w.runs| && Next(script, w, move).runs[j] == w.runs[j]
  {
  }

  lemma {:induction false} PlayKeeps(script: seq<Action>, w: World, p: Progress, moves: seq<Move>) returns (q: Progress)
    requires WellFormed(script) && Safe(script, w, p)
    ensures Safe(script, Play(script, w, moves), q) && Frontier(q) >= Frontier(p)
    ensures forall j :: 0 <= j < |script| && j < Frontier(p) ==> Play(script, w, moves).runs[j] == w.runs[j]
    decreases |moves|
  {
    q := p;
    if moves != [] {
      var w1 := Next(script, w, moves[0]);
      var p1 := MoveKeeps(script, w, p, moves[0]);
      q := PlayKeeps(script, w1, p1, moves[1..]);
      forall j | 0 <= j < |script| && j < Frontier(p)
        ensures Play(script, w, moves).runs[j] == w.runs[j]
      {
        MoveLeavesEnded(script, w, p, moves[0], j);
      }
    }
  }

  /** Whatever crashes, restarts, notes and state changes happen in between, an
      action that must not be replayed on its own runs at most once plus once
      for each human approval, and no action runs before all earlier ones ran. */
  lemma {:induction false} GuardedActionsRunOncePerApproval(script: seq<Action>, s: AgentState, moves: seq<Move>)
    requires WellFormed(script)
    ensures var w := Play(script, Fresh(script, s), moves);
            && |w.runs| == |script| == |w.approvals|
            && (forall i :: 0 <= i < |script| && Guarded(script[i]) ==> w.runs[i] <= 1 + w.approvals[i])
            && (forall i, j :: 0 <= j < i < |script| && w.runs[i] > 0 ==> w.runs[j] > 0)
  {
    var q := PlayKeeps(script, Fresh(script, s), Nothing, moves);
  }

  // ----- A sequential driver loses no action -----

  /** At most one action is unfinished, and it is the last recorded. */
  ghost predicate OneOpen(evidence: seq<Evidence>) {
    Readable(evidence) && forall id :: Unfinished(evidence, id) ==> LastRecorded(evidence, id)
  }

  lemma {:induction false} OpenAfterCheckpoint(before: seq<Evidence>, c: Checkpoint, id: string, x: string)
    requires !Blank(c.actionId) && (Unfinished(before, x) ==> x == c.actionId)
    ensures var log := before + [ToEvidence(c, id)]; Unfinished(log, x) ==> LastRecorded(log, x)
  {
    CheckpointRecords(before, c, id, x);
  }

  lemma {:induction false} CheckpointKeepsOneOpen(before: seq<Evidence>, c: Checkpoint, id: string)
    requires Readable(before) && !Blank(c.actionId) && forall x :: Unfinished(before, x) ==> x == c.actionId
    ensures OneOpen(before + [ToEvidence(c, id)])
  {
    var log := before + [ToEvidence(c, id)];
    CheckpointRecords(before, c, id, c.actionId);
    forall x
      ensures Unfinished(log, x) ==> LastRecorded(log, x)
    {
      OpenAfterCheckpoint(before, c, id, x);
    }
  }

  /** In a safe world only the action under way can be unfinished. */
  lemma {:induction false} OpenIsUnderWay(script: seq<Action>, w: World, p: Progress, x: string)
    requires Safe(script, w, p) && OneOpen(w.evidence) && Unfinished(w.evidence, x)
    ensures p.Begun? && p.i < |script| && x == script[p.i].id
  {
    LastBoundaryIsLatest(w.evidence);
  }

  lemma {:induction false} NoteRecordsNothing(evidence: seq<Evidence>, e: Evidence, x: string)
    requires e.kind != ActionBoundary
    ensures var log := evidence + [e];
            LastStage(log, x) == LastStage(evidence, x) && (LastRecorded(log, x) <==> LastRecorded(evidence, x))
  {
    NotesDoNotMatter(evidence, [e]);
    assert (evidence + [e])[..|evidence|] == evidence;
  }

  lemma {:induction false} NoteKeepsOneOpen(evidence: seq<Evidence>, e: Evidence)
    requires OneOpen(evidence) && e.kind != ActionBoundary
    ensures OneOpen(evidence + [e])
  {
    var log := evidence + [e];
    assert forall i :: 0 <= i < |evidence| ==> log[i] == evidence[i];
    forall x
      ensures Unfinished(log, x) ==> LastRecorded(log, x)
    {
      NoteRecordsNothing(evidence, e, x);
    }
  }

  lemma {:induction false} MoveKeepsOneOpen(script: seq<Action>, w: World, p: Progress, move: Move)
    requires WellFormed(script) && Safe(script, w, p) && OneOpen(w.evidence)
    ensures OneOpen(Next(script, w, move).evidence)
  {
    forall x | Unfinished(w.evidence, x)
      ensures p.Begun? && p.i < |script| && x == script[p.i].id
    {
      OpenIsUnderWay(script, w, p, x);
    }
    match move
    case Begin(id) =>
      if w.position.At? && w.position.i < |script| {
        CheckpointKeepsOneOpen(w.evidence, CheckpointOf(script[w.position.i], Before), id);
      }
    case End(id) =>
      if w.position.Ran? && w.position.i < |script| {
        CheckpointKeepsOneOpen(w.evidence, CheckpointOf(script[w.position.i], After), id);
      }
    case Note(e) => if e.kind != ActionBoundary { NoteKeepsOneOpen(w.evidence, e); }
    case _ =>
  }

  lemma {:induction false} PlayKeepsOneOpen(script: seq<Action>, w: World, p: Progress, moves: seq<Move>)
    requires WellFormed(script) && Safe(script, w, p) && OneOpen(w.evidence)
    ensures OneOpen(Play(script, w, moves).evidence)
    decreases |moves|
  {
    if moves != [] {
      MoveKeepsOneOpen(script, w, p, moves[0]);
      var q := MoveKeeps(script, w, p, moves[0]);
      PlayKeepsOneOpen(script, Next(script, w, moves[0]), q, moves[1..]);
    }
  }

  /** At every point of every run of a sequential driver, a plan made from the
      log brings up every unfinished action. */
  lemma {:induction false} SequentialPlansSurfaceAll(
      script: seq<Action>, s: AgentState, moves: seq<Move>, now: AgentState)
    requires WellFormed(script) && !Terminal(now.status)
    ensures var log := Play(script, Fresh(script, s), moves).evidence; SurfacesAll(PlanResume(now, log), log)
  {
    PlayKeepsOneOpen(script, Fresh(script, s), Nothing, moves);
    PlanSurfacesAllIff(now, Play(script, Fresh(script, s), moves).evidence);
  }
}
