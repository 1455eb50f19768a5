/**
 The reducer that rebuilds a session from its journal: lifecycle, runs, compaction checkpoint and plan.
*/
module SessionReducer {
  import opened Wrappers
  import opened SessionPlan
  import opened PlanDependencies
  import opened Graphs

  datatype Lifecycle = Open | Closed | Deleted

  datatype RunState = Running | Completed | Failed | Aborted | Interrupted

  type RunOutcome = s: RunState | !s.Running? witness Completed

  /** The kinds of identifier that may be used only once in a session. */
  datatype Kind =
    | MessageId | RunId | ClientRequestId | CommandId | SkillInvocationId | PermissionRequestId
    | CheckpointId | PlanId | StepId | AttemptId | ChildRunId | VerificationId | ArtifactId

  datatype Compaction = Compaction(
    checkpointId: Id,
    previousCheckpointId: Option<Id>,
    coveredStart: int,
    coveredEnd: int,
    retainedStart: int,
    summary: string,
    summaryDigest: string)

  datatype NewStep = NewStep(title: string, order: nat, state: StepState, dependencies: seq<Id>, maxAttempts: nat)

  datatype AttemptEvent =
    | AttemptCreated(ordinal: int, state: AttemptState, childRunId: Option<Id>)
    | AttemptStateChanged(state: AttemptState, errorCode: Option<string>)
    | ExecutionCompleted(status: Status)
    | ExecutionBound(child: Id, execution: Execution)
    | ResultRecorded(child: Id, result: ExecutionResult)
    | VerificationRecorded(verification: Verification)

  datatype StepEvent =
    | StepCreated(step: NewStep)
    | StepStateChanged(state: StepState, reason: Option<RetryReason>, newAttemptId: Option<Id>, errorCode: Option<string>)
    | OfAttempt(attemptId: Id, change: AttemptEvent)

  datatype PlanEvent =
    | PlanCreated(objective: string, state: PlanState)
    | PlanStateChanged(state: PlanState)
    | PlanDecisionRecorded(decidedStep: Option<Id>, decidedAttempt: Option<Id>)
    | PlanRevised(toRevision: int, objective: string, proofs: seq<ReuseProof>)
    | OfStep(stepId: Id, change: StepEvent)

  datatype EntryData =
    | SessionCreated
    | MetadataUpdated(activeLeafId: Option<Id>)
    | CompactPlanUpdated
    | SessionClosed
    | SessionReopened
    | SessionForked(childSessionId: Id, sourceEntryId: Id)
    | SessionDeleted
    | MessageCommitted(messageId: Id)
    | RunStarted(clientRequestId: Id)
    | RunTerminal(status: RunOutcome)
    | Noted(kind: Kind, noted: Id)  // commands, skills, permission decisions and artifacts
    | CompactionCreated(compaction: Compaction)
    | OfPlan(planId: Id, planRevision: int, event: PlanEvent)

  datatype Entry = Entry(
    entryId: Id,
    sessionId: Id,
    sequence: int,
    revision: int,
    timestamp: int,
    runId: Option<Id>,
    parentRunId: Option<Id>,
    data: EntryData)

  datatype Checkpoint = Checkpoint(
    checkpointId: Id,
    entryId: Id,
    coveredStart: int,
    coveredEnd: int,
    retainedStart: int,
    previousCheckpointId: Option<Id>,
    summary: string)

  datatype Session = Session(
    sessionId: Id,
    sequence: int,
    revision: int,
    timestamp: int,
    lifecycle: Lifecycle,
    activeLeafId: Id,
    activeRun: Option<Id>,
    runs: map<Id, RunState>,
    entryIds: set<Id>,
    stableIds: set<(Kind, Id)>,
    forked: set<Id>,
    checkpoint: Option<Checkpoint>,
    plan: Option<Plan>)
  {
    /** How many entries a reader may skip because the checkpoint covers them. */
    function OmittedEntries(): int {
      if checkpoint.Some? then checkpoint.value.coveredEnd else 0
    }

    function RecentStart(): int {
      if checkpoint.Some? then checkpoint.value.retainedStart else 1
    }
  }

  /** Stands for the digest of a summary: equal exactly for equal summaries. */
  function SummaryDigest(summary: string): string {
    summary
  }

  function Claim(s: Session, kind: Kind, id: Id): Checked<Session> {
    if (kind, id) in s.stableIds then Err(IdReused) else Ok(s.(stableIds := s.stableIds + {(kind, id)}))
  }

  function ClaimOptional(s: Session, kind: Kind, id: Option<Id>): Checked<Session> {
    if id.Some? then Claim(s, kind, id.value) else Ok(s)
  }

  predicate AllowedWhenClosed(data: EntryData) {
    data.MetadataUpdated? || data.SessionReopened? || data.SessionForked? || data.SessionDeleted?
  }

  /** The checks on an entry's envelope, against the entry before it. */
  function Envelope(s: Session, e: Entry): Checked<Session> {
    if e.sessionId != s.sessionId then Err(SessionMismatch)
    else if e.sequence != s.sequence + 1 then Err(SequenceInvalid)
    else if e.revision < s.revision || e.revision > s.revision + 1 then Err(RevisionInvalid)
    else if e.timestamp < s.timestamp then Err(TimestampInvalid)
    else if s.lifecycle.Deleted? || (s.lifecycle.Closed? && !AllowedWhenClosed(e.data)) then Err(TransitionInvalid)
    else if e.entryId in s.entryIds then Err(IdReused)
    else Ok(s.(sequence := e.sequence, revision := e.revision, timestamp := e.timestamp,
               entryIds := s.entryIds + {e.entryId}))
  }

  /** The session after its first entry. */
  function Begin(e: Entry): Checked<Session> {
    if !e.data.SessionCreated? || e.sequence != 1 || e.revision != 1 then Err(FirstEntryInvalid)
    else Ok(Session(e.sessionId, 1, 1, e.timestamp, Open, e.sessionId, None, map[], {e.entryId}, {}, {}, None, None))
  }

  function Apply(before: Session, e: Entry): Checked<Session> {
    var s :- Envelope(before, e);
    match e.data
    case SessionCreated => Err(IdReused)
    case MetadataUpdated(leaf) => Ok(s.(activeLeafId := leaf.GetOr(s.activeLeafId)))
    case CompactPlanUpdated => Ok(s)
    case SessionClosed =>
      if !s.lifecycle.Open? || s.activeRun.Some? then Err(TransitionInvalid) else Ok(s.(lifecycle := Closed))
    case SessionReopened =>
      if !s.lifecycle.Closed? then Err(TransitionInvalid) else Ok(s.(lifecycle := Open))
    case SessionForked(child, source) =>
      if child == s.sessionId || source == e.entryId || source !in s.entryIds then Err(TransitionInvalid)
      else if child in s.forked then Err(IdReused)
      else Ok(s.(forked := s.forked + {child}, activeLeafId := child))
    case SessionDeleted =>
      if s.activeRun.Some? then Err(TransitionInvalid) else Ok(s.(lifecycle := Deleted))
    case MessageCommitted(id) => Claim(s, MessageId, id)
    case RunStarted(request) => StartRun(s, e.runId, request)
    case RunTerminal(status) => EndRun(s, e.runId, status)
    case Noted(kind, id) => Claim(s, kind, id)
    case CompactionCreated(c) => Compact(s, e, c)
    case OfPlan(id, revision, event) => ApplyPlanEvent(s, e, id, revision, event)
  }

  function StartRun(s: Session, runId: Option<Id>, request: Id): Checked<Session> {
    if !s.lifecycle.Open? || s.activeRun.Some? || runId.None? then Err(TransitionInvalid)
    else
      var s1 :- Claim(s, RunId, runId.value);
      var s2 :- Claim(s1, ClientRequestId, request);
      Ok(s2.(activeRun := runId, runs := s2.runs[runId.value := RunState.Running]))
  }

  function EndRun(s: Session, runId: Option<Id>, status: RunOutcome): Checked<Session> {
    if runId.None? || s.activeRun != runId then Err(TransitionInvalid)
    else if runId.value !in s.runs || !s.runs[runId.value].Running? then Err(TransitionInvalid)
    else Ok(s.(activeRun := None, runs := s.runs[runId.value := status]))
  }

  /** A checkpoint starts at the first entry, ends before its own, and extends the one before it. */
  predicate CompactionFits(previous: Option<Checkpoint>, sequence: int, c: Compaction) {
    && c.coveredEnd < sequence
    && c.retainedStart == c.coveredEnd + 1
    && c.summaryDigest == SummaryDigest(c.summary)
    && (match previous
        case None => c.previousCheckpointId == None && c.coveredStart == 1
        case Some(p) =>
          && c.previousCheckpointId == Some(p.checkpointId)
          && c.coveredStart == p.coveredStart
          && c.coveredEnd > p.coveredEnd)
  }

  function Compact(s: Session, e: Entry, c: Compaction): Checked<Session> {
    if c.coveredStart < 1 || c.coveredEnd < c.coveredStart then Err(EntryInvalid)
    else if !CompactionFits(s.checkpoint, e.sequence, c) then Err(TransitionInvalid)
    else
      var s1 :- Claim(s, CheckpointId, c.checkpointId);
      Ok(s1.(checkpoint := Some(Checkpoint(c.checkpointId, e.entryId, c.coveredStart, c.coveredEnd, c.retainedStart,
                                           c.previousCheckpointId, c.summary))))
  }

  function WithPlan(s: Session, plan: Plan): Session {
    s.(plan := Some(plan))
  }

  function WithPlanStep(s: Session, stepId: Id, step: Step): Session
    requires s.plan.Some?
  {
    WithPlan(s, WithStep(s.plan.value, stepId, step))
  }

  /** A verification claims its id before anything else is looked at. */
  function ClaimVerification(s: Session, event: PlanEvent): Checked<Session> {
    if event.OfStep? && event.change.OfAttempt? && event.change.change.VerificationRecorded? then
      Claim(s, VerificationId, event.change.change.verification.verificationId)
    else Ok(s)
  }

  function ApplyPlanEvent(before: Session, e: Entry, planId: Id, revision: int, event: PlanEvent): Checked<Session> {
    var s :- ClaimVerification(before, event);
    if event.PlanCreated? then
      if s.plan.Some? && !PlanFinished(s.plan.value.state) then Err(TransitionInvalid)
      else
        var s1 :- Claim(s, PlanId, planId);
        Ok(WithPlan(s1, Plan(planId, revision, event.objective, event.state, map[])))
    else if !Current(s.plan, planId, revision) then Err(TransitionInvalid)
    else
      match event
      case PlanStateChanged(state) =>
        var plan :- ChangePlanState(s.plan.value, state);
        Ok(WithPlan(s, plan))
      case PlanDecisionRecorded(stepId, attemptId) =>
        if stepId.Some? && !IsInPlan(s.plan.value, stepId.value, attemptId) then Err(TransitionInvalid)
        else Ok(s)
      case PlanRevised(toRevision, objective, proofs) =>
        var plan :- RevisePlan(s.plan.value, toRevision, objective, proofs);
        Ok(WithPlan(s, plan))
      case OfStep(stepId, change) => ApplyStepEvent(s, e, stepId, change)
  }

  function ApplyStepEvent(s: Session, e: Entry, stepId: Id, change: StepEvent): Checked<Session>
    requires s.plan.Some?
  {
    var plan := s.plan.value;
    if change.StepCreated? then
      var s1 :- Claim(s, StepId, stepId);
      var n := change.step;
      var added :- AddStep(plan, stepId, Step(n.title, n.order, n.state, n.dependencies, n.maxAttempts, [], None));
      Ok(WithPlan(s1, added))
    else if stepId !in plan.steps then Err(TransitionInvalid)
    else
      match change
      case StepStateChanged(state, reason, newAttemptId, errorCode) =>
        var step :- ChangeStepState(plan.steps[stepId], state, reason, newAttemptId, errorCode);
        Ok(WithPlanStep(s, stepId, step))
      case OfAttempt(attemptId, event) => ApplyAttemptEvent(s, e, stepId, attemptId, event)
  }

  function ApplyAttemptEvent(s: Session, e: Entry, stepId: Id, attemptId: Id, event: AttemptEvent): Checked<Session>
    requires s.plan.Some? && stepId in s.plan.value.steps
  {
    var step := s.plan.value.steps[stepId];
    if event.AttemptCreated? then
      var added :- AddAttempt(step, attemptId, event.ordinal, event.state, event.childRunId);
      var s1 :- Claim(s, AttemptId, attemptId);
      var s2 :- ClaimOptional(s1, ChildRunId, event.childRunId);
      Ok(WithPlanStep(s2, stepId, added))
    else if !HasAttempt(step, attemptId) then Err(TransitionInvalid)
    else
      var attempt := AttemptOf(step, attemptId);
      var changed :- ChangedAttempt(e.parentRunId, event, step, attempt);
      var s1 :- if event.ResultRecorded? && attempt.childRunId.None? then Claim(s, ChildRunId, event.child) else Ok(s);
      Ok(WithPlanStep(s1, stepId, WithAttempt(step, changed)))
  }

  /** What an event makes of an existing attempt. */
  function ChangedAttempt(parentRunId: Option<Id>, event: AttemptEvent, step: Step, attempt: Attempt): (r: Checked<Attempt>)
    requires !event.AttemptCreated?
    ensures r.Ok? ==> r.value.attemptId == attempt.attemptId
  {
    match event
    case AttemptStateChanged(state, errorCode) => ChangeAttemptState(attempt, state, errorCode)
    case ExecutionCompleted(status) => CompleteExecution(attempt, status)
    case ExecutionBound(child, execution) => BindExecution(attempt, child, execution, parentRunId)
    case ResultRecorded(child, result) => RecordResult(attempt, child, result)
    case VerificationRecorded(verification) => RecordVerification(step, attempt, verification)
  }

  // ---------- Whole journals ----------

  /** Applies the entries from position `i` up to position `j`. */
  function Replay(s: Session, entries: seq<Entry>, i: nat, j: nat): Checked<Session>
    requires i <= j <= |entries|
  {
    if i == j then Ok(s)
    else
      var before :- Replay(s, entries, i, j - 1);
      Apply(before, entries[j - 1])
  }

  /** The session after the first `n` entries, before the finished plan is checked. */
  function After(entries: seq<Entry>, n: nat): Checked<Session>
    requires n <= |entries|
  {
    if n == 0 then Err(FirstEntryInvalid)
    else
      var first :- Begin(entries[0]);
      Replay(first, entries, 1, n)
  }

  predicate OrdersDiffer(steps: map<Id, Step>) {
    forall s, t :: s in steps && t in steps && s != t ==> steps[s].order != steps[t].order
  }

  /** No two attempts of the plan share an id or a child run. */
  predicate AttemptsDiffer(steps: map<Id, Step>) {
    forall s, t, i, j :: s in steps && t in steps && (s != t || i != j)
      && 0 <= i < |steps[s].attempts| && 0 <= j < |steps[t].attempts|
      ==> Differ(steps[s].attempts[i], steps[t].attempts[j])
  }

  predicate Differ(a: Attempt, b: Attempt) {
    a.attemptId != b.attemptId && (a.childRunId.Some? ==> a.childRunId != b.childRunId)
  }

  predicate AllConsistent(steps: map<Id, Step>) {
    forall s, k :: s in steps && 0 <= k < |steps[s].attempts| ==> ResultConsistent(steps[s].attempts[k])
  }

  /**
   What the reduced plan has to be: not empty, with existing and acyclic dependencies, consistent
   results, and distinct orders, attempts and child runs.
  */
  ghost predicate Presentable(plan: Plan) {
    && Sound(Dependencies(plan.steps))
    && AllConsistent(plan.steps)
    && plan.steps != map[]
    && OrdersDiffer(plan.steps)
    && AttemptsDiffer(plan.steps)
  }

  ghost function Reduce(entries: seq<Entry>): Checked<Session> {
    var s :- After(entries, |entries|);
    if s.plan.Some? && !Presentable(s.plan.value) then Err(TransitionInvalid) else Ok(s)
  }

  method SomeOrder(ids: set<Id>) returns (ordered: seq<Id>)
    ensures Elements(ordered) == ids
  {
    ordered := [];
    var rest := ids;
    while rest != {}
      invariant rest <= ids && Elements(ordered) == ids - rest
      decreases rest
    {
      var id :| id in rest;
      ghost var was := ordered;
      ordered := ordered + [id];
      rest := rest - {id};
      assert Elements(ordered) == Elements(was) + {id};
    }
  }

  method ProjectPlan(plan: Plan) returns (ok: bool)
    ensures ok <==> Presentable(plan)
  {
    var ordered := SomeOrder(plan.steps.Keys);
    ok := AssertPlanDependencies(Dependencies(plan.steps), ordered);
    if ok {
      ok := AllConsistent(plan.steps) && plan.steps != map[] && OrdersDiffer(plan.steps)
        && AttemptsDiffer(plan.steps);
    }
  }

  /** Rebuilds the session from its entries, in one pass. */
  method ReduceSessionEntries(entries: seq<Entry>) returns (r: Checked<Session>)
    ensures r == Reduce(entries)
  {
    if entries == [] {
      return Err(FirstEntryInvalid);
    }
    var first := Begin(entries[0]);
    if first.Err? {
      return first;
    }
    var session := first.value;
    for n := 1 to |entries|
      invariant Replay(first.value, entries, 1, n) == Ok(session)
    {
      var next := Apply(session, entries[n]);
      if next.Err? {
        FailureStays(first.value, entries, 1, n + 1, |entries|);
        return next;
      }
      session := next.value;
    }
    if session.plan.Some? {
      var ok := ProjectPlan(session.plan.value);
      if !ok {
        return Err(TransitionInvalid);
      }
    }
    r := Ok(session);
  }

  /** Once an entry is refused, so is every longer journal, for the same reason. */
  lemma {:induction false} FailureStays(s: Session, entries: seq<Entry>, i: nat, j: nat, k: nat)
    requires i <= j <= k <= |entries| && Replay(s, entries, i, j).Err?
    ensures Replay(s, entries, i, k) == Replay(s, entries, i, j)
    decreases k
  {
    if k > j {
      FailureStays(s, entries, i, j, k - 1);
    }
  }

  /** A longer accepted journal continues the session of each of its prefixes. */
  lemma {:induction false} ReplaySplits(s: Session, entries: seq<Entry>, i: nat, j: nat, k: nat)
    requires i <= j <= k <= |entries| && Replay(s, entries, i, k).Ok?
    ensures Replay(s, entries, i, j).Ok?
    ensures Replay(s, entries, i, k) == Replay(Replay(s, entries, i, j).value, entries, j, k)
    decreases k
  {
    if k > j {
      ReplaySplits(s, entries, i, j, k - 1);
    }
  }

  /** A plan of one step without dependencies and attempts passes the final check. */
  lemma OneBareStep(plan: Plan, stepId: Id)
    requires plan.steps.Keys == {stepId} && plan.steps[stepId].dependencies == [] && plan.steps[stepId].attempts == []
    ensures Presentable(plan)
  {
    assert DependencyArcs(Dependencies(plan.steps)) == {};
    RankedIsAcyclic(DependencyArcs(Dependencies(plan.steps)), map[]);
    assert stepId in plan.steps;
  }
  // ---------- A plan with one step, entry by entry ----------

  lemma PlanIsCreated(s: Session, e: Entry, planId: Id, objective: string, state: PlanState)
    requires Envelope(s, e).Ok? && e.data == OfPlan(planId, 1, PlanCreated(objective, state))
    requires s.plan.None? && s.stableIds == {}
    ensures Apply(s, e) == Ok(Envelope(s, e).value.(
      plan := Some(Plan(planId, 1, objective, state, map[])), stableIds := {(PlanId, planId)}))
  {
    assert s.stableIds + {(PlanId, planId)} == {(PlanId, planId)};
  }

  lemma FirstStepIsCreated(s: Session, e: Entry, stepId: Id, step: NewStep)
    requires Envelope(s, e).Ok? && s.plan.Some? && s.plan.value.steps == map[]
    requires e.data == OfPlan(s.plan.value.planId, s.plan.value.revision, OfStep(stepId, StepCreated(step)))
    requires (StepId, stepId) !in s.stableIds && step.dependencies == []
    ensures Apply(s, e).Ok? && Apply(s, e).value.plan.Some?
    ensures Apply(s, e).value.plan.value.steps
         == map[stepId := Step(step.title, step.order, step.state, [], step.maxAttempts, [], None)]
  {
  }

  lemma ReplayOfThree(e1: Entry, e2: Entry, e3: Entry, s1: Session, s2: Session, s3: Session)
    requires Begin(e1) == Ok(s1) && Apply(s1, e2) == Ok(s2) && Apply(s2, e3) == Ok(s3)
    ensures After([e1, e2], 2) == Ok(s2) && After([e1, e2, e3], 3) == Ok(s3)
  {
    assert Replay(s1, [e1, e2], 1, 2) == Ok(s2);
    assert Replay(s1, [e1, e2, e3], 1, 2) == Ok(s2);
    assert Replay(s1, [e1, e2, e3], 1, 3) == Ok(s3);
  }

  /** The envelopes of three entries that follow one another in one session. */
  predicate InSuccession(e1: Entry, e2: Entry, e3: Entry) {
    && e1.sequence == 1 && e2.sequence == 2 && e3.sequence == 3
    && e1.revision == 1 && e2.revision == 2 && e3.revision == 3
    && e1.timestamp <= e2.timestamp <= e3.timestamp && e1.sessionId == e2.sessionId == e3.sessionId
    && e1.entryId != e2.entryId && e1.entryId != e3.entryId && e2.entryId != e3.entryId
  }

  /** A session, a plan and its first step: accepted in the end, but not while the plan has no step. */
  lemma SmallestPlan(e1: Entry, e2: Entry, e3: Entry, step: NewStep)
    requires InSuccession(e1, e2, e3) && e1.data == SessionCreated && step.dependencies == []
    requires e2.data == OfPlan("p", 1, PlanCreated("o", PlanState.Draft))
    requires e3.data == OfPlan("p", 1, OfStep("t", StepCreated(step)))
    ensures Reduce([e1, e2]).Err? && Reduce([e1, e2, e3]).Ok?
    ensures var plan := Reduce([e1, e2, e3]).value.plan;
      plan.Some? && plan.value.steps == map["t" := Step(step.title, step.order, step.state, [], step.maxAttempts, [], None)]
  {
    var s1 := Begin(e1).value;
    PlanIsCreated(s1, e2, "p", "o", PlanState.Draft);
    var s2 := Apply(s1, e2).value;
    FirstStepIsCreated(s2, e3, "t", step);
    var s3 := Apply(s2, e3).value;
    ReplayOfThree(e1, e2, e3, s1, s2, s3);
    OneBareStep(s3.plan.value, "t");
  }
}
