/**
 The plan inside a session: steps, their attempts, and what each plan event may do to them.
*/
module SessionPlan {
  import opened Wrappers

  type Id = string

  datatype PlanState = Draft | Running | Blocked | Succeeded | Failed | Cancelled | Interrupted

  datatype StepState = Pending | Running | Verifying | Succeeded | Failed | Blocked | Cancelled | Interrupted

  datatype AttemptState =
    | Reserved | Running | ExecutionSucceeded | ExecutionFailed | Verifying
    | Verified | Rejected | Cancelled | Interrupted

  datatype Status = Success | Failure | Cancellation

  datatype CheckStatus = Passed | NotPassed | Hindered

  datatype Verification = Verification(verificationId: Id, status: CheckStatus, evidenceRefs: seq<string>)

  datatype ExecutionResult = ExecutionResult(ref: string, digest: string, status: Status)

  datatype Execution = Execution(parentRunId: Id, childRunId: Id, inputDigest: string)

  datatype Attempt = Attempt(
    attemptId: Id,
    ordinal: int,
    state: AttemptState,
    childRunId: Option<Id>,
    execution: Option<Execution>,
    result: Option<ExecutionResult>,
    verifications: seq<Verification>,
    errorCode: Option<string>)

  datatype Step = Step(
    title: string,
    order: nat,
    state: StepState,
    dependencies: seq<Id>,
    maxAttempts: nat,
    attempts: seq<Attempt>,
    errorCode: Option<string>)

  datatype Plan = Plan(planId: Id, revision: int, objective: string, state: PlanState, steps: map<Id, Step>)

  datatype ReuseProof = ReuseProof(stepId: Id, previousInputDigest: string, nextInputDigest: string)

  datatype RetryReason = RetryApproved | RecoveryRetryApproved | ExternalConditionChanged

  /** The error codes of the journal, its store and its transfer. */
  datatype JournalError =
    | EntryInvalid | FirstEntryInvalid | SessionMismatch | SequenceInvalid | RevisionInvalid | TimestampInvalid
    | IdReused | TransitionInvalid | CompactionRangeInvalid
    | CommitInvalid | RevisionConflict | SequenceConflict | IdempotencyConflict
    | NotFound | ReadInvalid | ContractInvalid
    | ExportInvalid | TargetDiverged | VerificationFailed

  type Checked<T> = Result<T, JournalError>

  // ---------- Transition tables ----------

  predicate PlanFinished(state: PlanState) {
    state in {PlanState.Succeeded, PlanState.Failed, PlanState.Cancelled, PlanState.Interrupted}
  }

  predicate PlanMayBecome(from: PlanState, to: PlanState) {
    match from
    case Draft => to in {PlanState.Running, PlanState.Cancelled}
    case Running =>
      to in {PlanState.Blocked, PlanState.Succeeded, PlanState.Failed, PlanState.Cancelled, PlanState.Interrupted}
    case Blocked => to in {PlanState.Running, PlanState.Failed, PlanState.Cancelled, PlanState.Interrupted}
    case Interrupted => to in {PlanState.Running, PlanState.Failed, PlanState.Cancelled}
    case _ => false
  }

  /** A step that failed, was blocked or was interrupted goes back to pending only with its own approval. */
  predicate StepMayBecome(from: StepState, to: StepState, reason: Option<RetryReason>, createsNewAttempt: bool) {
    if to.Pending? then
      && createsNewAttempt
      && match from
         case Failed => reason == Some(RetryApproved)
         case Blocked => reason == Some(ExternalConditionChanged)
         case Interrupted => reason == Some(RecoveryRetryApproved)
         case _ => false
    else
      match from
      case Pending => to in {StepState.Running, StepState.Cancelled, StepState.Interrupted}
      case Running => to in {StepState.Verifying, StepState.Failed, StepState.Cancelled, StepState.Interrupted}
      case Verifying =>
        to in {StepState.Succeeded, StepState.Failed, StepState.Blocked, StepState.Cancelled, StepState.Interrupted}
      case Interrupted => to == StepState.Blocked
      case _ => false
  }

  predicate AttemptMayBecome(from: AttemptState, to: AttemptState) {
    match from
    case Reserved => to in {AttemptState.Running, AttemptState.Cancelled, AttemptState.Interrupted}
    case Running =>
      to in {ExecutionSucceeded, ExecutionFailed, AttemptState.Cancelled, AttemptState.Interrupted}
    case ExecutionSucceeded => to in {AttemptState.Verifying, AttemptState.Interrupted}
    case Verifying => to in {Verified, Rejected, AttemptState.Cancelled, AttemptState.Interrupted}
    case _ => false
  }

  // ---------- Lookups ----------

  /** The position of the attempt with this id, or the number of attempts if there is none. */
  function Position(attempts: seq<Attempt>, attemptId: Id): (k: nat)
    ensures k <= |attempts|
    ensures k < |attempts| ==> attempts[k].attemptId == attemptId
  {
    if attempts == [] then 0
    else if attempts[0].attemptId == attemptId then 0
    else 1 + Position(attempts[1..], attemptId)
  }

  predicate HasAttempt(step: Step, attemptId: Id) {
    Position(step.attempts, attemptId) < |step.attempts|
  }

  /** The attempt with the greatest ordinal; of equals, the one created first. */
  function Latest(attempts: seq<Attempt>): Option<Attempt> {
    if attempts == [] then None
    else
      var last := attempts[|attempts| - 1];
      match Latest(attempts[..|attempts| - 1])
      case None => Some(last)
      case Some(best) => if best.ordinal < last.ordinal then Some(last) else Some(best)
  }

  predicate LatestIs(step: Step, state: AttemptState) {
    Latest(step.attempts).Some? && Latest(step.attempts).value.state == state
  }

  predicate Current(plan: Option<Plan>, planId: Id, revision: int) {
    plan.Some? && plan.value.planId == planId && plan.value.revision == revision
  }

  /** The step exists, and so does its attempt if one is named. */
  predicate IsInPlan(plan: Plan, stepId: Id, attemptId: Option<Id>) {
    stepId in plan.steps && (attemptId.Some? ==> HasAttempt(plan.steps[stepId], attemptId.value))
  }

  function WithStep(plan: Plan, stepId: Id, step: Step): Plan {
    plan.(steps := plan.steps[stepId := step])
  }

  function WithAttempt(step: Step, attempt: Attempt): Step
    requires HasAttempt(step, attempt.attemptId)
  {
    step.(attempts := step.attempts[Position(step.attempts, attempt.attemptId) := attempt])
  }

  function AttemptOf(step: Step, attemptId: Id): (a: Attempt)
    requires HasAttempt(step, attemptId)
    ensures a in step.attempts && a.attemptId == attemptId
  {
    step.attempts[Position(step.attempts, attemptId)]
  }

  // ---------- Plan events ----------

  function ChangePlanState(plan: Plan, state: PlanState): Checked<Plan> {
    if !PlanMayBecome(plan.state, state) then Err(TransitionInvalid)
    else if state.Succeeded? && exists s :: s in plan.steps && !plan.steps[s].state.Succeeded? then
      Err(TransitionInvalid)
    else Ok(plan.(state := state))
  }

  predicate Unsettled(step: Step) {
    || step.state.Running? || step.state.Verifying?
    || (exists k :: 0 <= k < |step.attempts|
          && step.attempts[k].state in {Reserved, AttemptState.Running, ExecutionSucceeded, AttemptState.Verifying})
  }

  /** A step may be carried into a revision if its input is unchanged and all it depends on is carried too. */
  predicate Reusable(plan: Plan, proofs: seq<ReuseProof>, proof: ReuseProof) {
    && proof.stepId in plan.steps
    && var step := plan.steps[proof.stepId];
    && step.state.Succeeded?
    && LatestIs(step, Verified)
    && Latest(step.attempts).value.execution.Some?
    && Latest(step.attempts).value.execution.value.inputDigest == proof.previousInputDigest
    && proof.previousInputDigest == proof.nextInputDigest
    && forall k :: 0 <= k < |step.dependencies| ==> Proven(proofs, step.dependencies[k])
  }

  predicate Proven(proofs: seq<ReuseProof>, stepId: Id) {
    exists k :: 0 <= k < |proofs| && proofs[k].stepId == stepId
  }

  function Carried(plan: Plan, proofs: seq<ReuseProof>): map<Id, Step> {
    map s | s in plan.steps && Proven(proofs, s) :: plan.steps[s]
  }

  function RevisePlan(plan: Plan, toRevision: int, objective: string, proofs: seq<ReuseProof>): Checked<Plan> {
    if plan.state !in {PlanState.Running, PlanState.Blocked, PlanState.Failed} then Err(TransitionInvalid)
    else if toRevision != plan.revision + 1 then Err(TransitionInvalid)
    else if exists s :: s in plan.steps && Unsettled(plan.steps[s]) then Err(TransitionInvalid)
    else if exists k :: 0 <= k < |proofs| && !Reusable(plan, proofs, proofs[k]) then Err(TransitionInvalid)
    else Ok(plan.(revision := toRevision, objective := objective, state := PlanState.Running,
                  steps := Carried(plan, proofs)))
  }

  function AddStep(plan: Plan, stepId: Id, step: Step): Checked<Plan> {
    if stepId in plan.steps then Err(TransitionInvalid) else Ok(WithStep(plan, stepId, step))
  }

  function ChangeStepState(step: Step, state: StepState, reason: Option<RetryReason>, newAttemptId: Option<Id>,
                           errorCode: Option<string>): Checked<Step>
  {
    var createsNewAttempt := newAttemptId.Some? && HasAttempt(step, newAttemptId.value)
      && AttemptOf(step, newAttemptId.value).ordinal == |step.attempts|
      && AttemptOf(step, newAttemptId.value).state.Reserved?;
    if !StepMayBecome(step.state, state, reason, createsNewAttempt) then Err(TransitionInvalid)
    else if state.Running? && !LatestIs(step, Reserved) then Err(TransitionInvalid)
    else if state.Verifying? && !LatestIs(step, AttemptState.Verifying) then Err(TransitionInvalid)
    else if state.Succeeded? && !LatestIs(step, Verified) then Err(TransitionInvalid)
    else Ok(step.(state := state, errorCode := errorCode))
  }

  function AddAttempt(step: Step, attemptId: Id, ordinal: int, state: AttemptState, childRunId: Option<Id>): Checked<Step> {
    if exists k :: 0 <= k < |step.attempts| && step.attempts[k].ordinal == ordinal then Err(TransitionInvalid)
    else if ordinal != |step.attempts| + 1 || ordinal > step.maxAttempts then Err(TransitionInvalid)
    else Ok(step.(attempts := step.attempts + [Attempt(attemptId, ordinal, state, childRunId, None, None, [], None)]))
  }

  predicate AllPassed(verifications: seq<Verification>) {
    forall k :: 0 <= k < |verifications| ==> verifications[k].status.Passed?
  }

  function ChangeAttemptState(attempt: Attempt, state: AttemptState, errorCode: Option<string>): Checked<Attempt> {
    if !AttemptMayBecome(attempt.state, state) then Err(TransitionInvalid)
    else if state.ExecutionSucceeded? || state.ExecutionFailed? then Err(TransitionInvalid)
    else if state.Verified? && (attempt.verifications == [] || !AllPassed(attempt.verifications)) then
      Err(TransitionInvalid)
    else if state.Rejected? && AllPassed(attempt.verifications) then Err(TransitionInvalid)
    else Ok(attempt.(state := state, errorCode := errorCode))
  }

  function AfterExecution(status: Status): AttemptState {
    match status
    case Success => ExecutionSucceeded
    case Failure => ExecutionFailed
    case Cancellation => AttemptState.Cancelled
  }

  function CompleteExecution(attempt: Attempt, status: Status): Checked<Attempt> {
    if !AttemptMayBecome(attempt.state, AfterExecution(status)) then Err(TransitionInvalid)
    else if attempt.result.None? || attempt.result.value.status != status then Err(TransitionInvalid)
    else Ok(attempt.(state := AfterExecution(status)))
  }

  function BindExecution(attempt: Attempt, childRunId: Id, execution: Execution, parentRunId: Option<Id>): Checked<Attempt> {
    if !attempt.state.Running? || attempt.execution.Some? || attempt.childRunId != Some(childRunId)
       || Some(execution.parentRunId) != parentRunId || execution.childRunId != childRunId
    then Err(TransitionInvalid)
    else Ok(attempt.(execution := Some(execution)))
  }

  function RecordResult(attempt: Attempt, childRunId: Id, result: ExecutionResult): Checked<Attempt> {
    if !attempt.state.Running? || attempt.result.Some?
       || (attempt.childRunId.Some? && attempt.childRunId.value != childRunId)
    then Err(TransitionInvalid)
    else Ok(attempt.(childRunId := Some(childRunId), result := Some(result)))
  }

  function RecordVerification(step: Step, attempt: Attempt, verification: Verification): Checked<Attempt> {
    if !attempt.state.Verifying? || !step.state.Verifying? then Err(TransitionInvalid)
    else Ok(attempt.(verifications := attempt.verifications + [verification]))
  }

  // ---------- The check of the finished plan ----------

  predicate ResultConsistent(attempt: Attempt) {
    attempt.result.None? ||
    match attempt.result.value.status
    case Success =>
      attempt.state in {AttemptState.Verifying, Verified, Rejected, AttemptState.Cancelled, AttemptState.Interrupted}
    case Failure => attempt.state in {ExecutionFailed, AttemptState.Interrupted}
    case Cancellation => attempt.state in {AttemptState.Cancelled, AttemptState.Interrupted}
  }

  function Dependencies(steps: map<Id, Step>): map<Id, seq<Id>> {
    map s | s in steps :: steps[s].dependencies
  }
}
