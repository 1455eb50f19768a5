/**
 Which changes of a plan are accepted, target state by target state, for the plans that accepted journals build.
*/
module PlanRules {
  import opened Wrappers
  import opened SessionPlan
  import opened SessionReducer
  import opened PlanDependencies
  import opened Graphs
  import opened PlanEvidence
  import opened SessionHistory
  import opened PlanHistory

  // ---------- Steps ----------

  ghost predicate NewestIs(step: Step, state: AttemptState) {
    step.attempts != [] && step.attempts[|step.attempts| - 1].state == state
  }

  /** The step as accepted journals build it. */
  ghost predicate Regular(step: Step) {
    Numbered(step) && DistinctAttempts(step.attempts)
  }

  lemma {:induction false} FirstPosition(attempts: seq<Attempt>, k: nat)
    requires k < |attempts| && forall j :: 0 <= j < k ==> attempts[j].attemptId != attempts[k].attemptId
    ensures Position(attempts, attempts[k].attemptId) == k
  {
    if k > 0 {
      FirstPosition(attempts[1..], k - 1);
    }
  }

  lemma NewestByState(step: Step, state: AttemptState)
    requires Regular(step)
    ensures LatestIs(step, state) <==> NewestIs(step, state)
  {
    LatestIsLast(step.attempts);
    if step.attempts == [] {
      assert Latest(step.attempts).None?;
    }
  }

  /** The given attempt is the newest one and has not been started. */
  ghost predicate IsFreshAttempt(step: Step, attemptId: Option<Id>) {
    NewestIs(step, Reserved) && attemptId == Some(step.attempts[|step.attempts| - 1].attemptId)
  }

  lemma FreshExactly(step: Step, attemptId: Id)
    requires Regular(step)
    ensures IsFreshAttempt(step, Some(attemptId)) <==>
      && HasAttempt(step, attemptId) && AttemptOf(step, attemptId).ordinal == |step.attempts|
      && AttemptOf(step, attemptId).state.Reserved?
  {
    var n := |step.attempts|;
    if n > 0 && step.attempts[n - 1].attemptId == attemptId {
      FirstPosition(step.attempts, n - 1);
    }
  }

  /** A step changes its state exactly as follows. */
  ghost predicate StepMayTurn(step: Step, state: StepState, reason: Option<RetryReason>, newAttemptId: Option<Id>) {
    match state
    case Pending =>
      && IsFreshAttempt(step, newAttemptId)
      && ((step.state.Failed? && reason == Some(RetryApproved))
          || (step.state.Blocked? && reason == Some(ExternalConditionChanged))
          || (step.state.Interrupted? && reason == Some(RecoveryRetryApproved)))
    case Running => step.state.Pending? && NewestIs(step, Reserved)
    case Verifying => step.state.Running? && NewestIs(step, AttemptState.Verifying)
    case Succeeded => step.state.Verifying? && NewestIs(step, Verified)
    case Failed => step.state.Running? || step.state.Verifying?
    case Blocked => step.state.Verifying? || step.state.Interrupted?
    case _ => step.state.Pending? || step.state.Running? || step.state.Verifying?
  }

  lemma StepTurnsExactly(step: Step, state: StepState, reason: Option<RetryReason>, newAttemptId: Option<Id>,
                         errorCode: Option<string>)
    requires Regular(step)
    ensures ChangeStepState(step, state, reason, newAttemptId, errorCode).Ok? <==> StepMayTurn(step, state, reason, newAttemptId)
  {
    NewestByState(step, Reserved);
    NewestByState(step, AttemptState.Verifying);
    NewestByState(step, Verified);
    if newAttemptId.Some? {
      FreshExactly(step, newAttemptId.value);
    }
  }

  // ---------- Attempts ----------

  ghost predicate SomeNotPassed(a: Attempt) {
    exists v :: v in a.verifications && v.status != Passed
  }

  /** An attempt is changed exactly as follows. */
  ghost predicate AttemptMayTurn(step: Step, a: Attempt, event: AttemptEvent, parentRunId: Option<Id>) {
    match event
    case AttemptCreated(_, _, _) => false
    case AttemptStateChanged(Running, _) => a.state.Reserved?
    case AttemptStateChanged(Verifying, _) => a.state.ExecutionSucceeded?
    case AttemptStateChanged(Verified, _) => a.state.Verifying? && a.verifications != [] && !SomeNotPassed(a)
    case AttemptStateChanged(Rejected, _) => a.state.Verifying? && SomeNotPassed(a)
    case AttemptStateChanged(Cancelled, _) => a.state.Reserved? || a.state.Running? || a.state.Verifying?
    case AttemptStateChanged(Interrupted, _) =>
      a.state.Reserved? || a.state.Running? || a.state.ExecutionSucceeded? || a.state.Verifying?
    case AttemptStateChanged(_, _) => false
    case ExecutionCompleted(status) =>
      a.result.Some? && a.result.value.status == status
      && (a.state.Running? || (status == Cancellation && (a.state.Reserved? || a.state.Verifying?)))
    case ExecutionBound(child, execution) =>
      a.state.Running? && a.execution.None? && a.childRunId == Some(child)
      && parentRunId == Some(execution.parentRunId) && execution.childRunId == child
    case ResultRecorded(child, _) => a.state.Running? && a.result.None? && (a.childRunId.None? || a.childRunId == Some(child))
    case VerificationRecorded(_) => a.state.Verifying? && step.state.Verifying?
  }

  lemma PassedExactly(a: Attempt)
    ensures AllPassed(a.verifications) <==> !SomeNotPassed(a)
  {
    if !AllPassed(a.verifications) {
      var k :| 0 <= k < |a.verifications| && !a.verifications[k].status.Passed?;
      assert a.verifications[k] in a.verifications;
    }
  }

  lemma AttemptTurnsExactly(step: Step, a: Attempt, event: AttemptEvent, parentRunId: Option<Id>)
    requires !event.AttemptCreated?
    ensures ChangedAttempt(parentRunId, event, step, a).Ok? <==> AttemptMayTurn(step, a, event, parentRunId)
  {
    PassedExactly(a);
  }

  // ---------- Plans ----------

  ghost predicate PlanMayTurn(plan: Plan, state: PlanState) {
    match state
    case Draft => false
    case Running => plan.state.Draft? || plan.state.Blocked? || plan.state.Interrupted?
    case Blocked => plan.state.Running?
    case Succeeded => plan.state.Running? && forall id :: id in plan.steps ==> plan.steps[id].state.Succeeded?
    case Failed => plan.state.Running? || plan.state.Blocked? || plan.state.Interrupted?
    case Cancelled => plan.state.Draft? || plan.state.Running? || plan.state.Blocked? || plan.state.Interrupted?
    case Interrupted => plan.state.Running? || plan.state.Blocked?
  }

  lemma PlanTurnsExactly(plan: Plan, state: PlanState)
    ensures ChangePlanState(plan, state).Ok? <==> PlanMayTurn(plan, state)
  {
  }

  ghost predicate InFlight(a: Attempt) {
    a.state.Reserved? || a.state.Running? || a.state.ExecutionSucceeded? || a.state.Verifying?
  }

  /** Nothing of the step is being worked on. */
  ghost predicate AtRest(step: Step) {
    !step.state.Running? && !step.state.Verifying? && forall a :: a in step.attempts ==> !InFlight(a)
  }

  ghost predicate HasProof(proofs: seq<ReuseProof>, stepId: Id) {
    exists proof :: proof in proofs && proof.stepId == stepId
  }

  /** The step may be carried over: verified on the input it would have again, like all it depends on. */
  ghost predicate MayBeCarried(plan: Plan, proofs: seq<ReuseProof>, proof: ReuseProof) {
    && proof.stepId in plan.steps
    && var step := plan.steps[proof.stepId];
    && step.state.Succeeded? && NewestIs(step, Verified)
    && step.attempts[|step.attempts| - 1].execution.Some?
    && step.attempts[|step.attempts| - 1].execution.value.inputDigest == proof.previousInputDigest == proof.nextInputDigest
    && forall d :: d in step.dependencies ==> HasProof(proofs, d)
  }

  ghost predicate PlanMayBeRevised(plan: Plan, toRevision: int, proofs: seq<ReuseProof>) {
    && (plan.state.Running? || plan.state.Blocked? || plan.state.Failed?)
    && toRevision == plan.revision + 1
    && (forall id :: id in plan.steps ==> AtRest(plan.steps[id]))
    && forall proof :: proof in proofs ==> MayBeCarried(plan, proofs, proof)
  }

  ghost predicate AllRegular(plan: Plan) {
    forall id :: id in plan.steps ==> Regular(plan.steps[id])
  }

  lemma RestExactly(step: Step)
    ensures Unsettled(step) <==> !AtRest(step)
  {
    if a :| a in step.attempts && InFlight(a) {
      var k :| 0 <= k < |step.attempts| && step.attempts[k] == a;
    }
    if k :| 0 <= k < |step.attempts| && InFlight(step.attempts[k]) {
      assert step.attempts[k] in step.attempts;
    }
  }

  lemma ProofExactly(proofs: seq<ReuseProof>, stepId: Id)
    ensures Proven(proofs, stepId) <==> HasProof(proofs, stepId)
  {
    if k :| 0 <= k < |proofs| && proofs[k].stepId == stepId {
      assert proofs[k] in proofs;
    }
  }

  lemma CarriedExactly(plan: Plan, proofs: seq<ReuseProof>, proof: ReuseProof)
    requires AllRegular(plan)
    ensures Reusable(plan, proofs, proof) <==> MayBeCarried(plan, proofs, proof)
  {
    if proof.stepId in plan.steps {
      var step := plan.steps[proof.stepId];
      NewestByState(step, Verified);
      LatestIsLast(step.attempts);
      forall d ensures Proven(proofs, d) <==> HasProof(proofs, d) {
        ProofExactly(proofs, d);
      }
      assert (forall d :: d in step.dependencies ==> Proven(proofs, d))
        <==> (forall k :: 0 <= k < |step.dependencies| ==> Proven(proofs, step.dependencies[k]));
    }
  }

  lemma RevisedExactly(plan: Plan, toRevision: int, objective: string, proofs: seq<ReuseProof>)
    requires AllRegular(plan)
    ensures RevisePlan(plan, toRevision, objective, proofs).Ok? <==> PlanMayBeRevised(plan, toRevision, proofs)
  {
    forall id | id in plan.steps ensures Unsettled(plan.steps[id]) <==> !AtRest(plan.steps[id]) {
      RestExactly(plan.steps[id]);
    }
    forall proof ensures Reusable(plan, proofs, proof) <==> MayBeCarried(plan, proofs, proof) {
      CarriedExactly(plan, proofs, proof);
    }
    assert (forall proof :: proof in proofs ==> Reusable(plan, proofs, proof))
      <==> (forall k :: 0 <= k < |proofs| ==> Reusable(plan, proofs, proofs[k]));
  }

  // ---------- The finished plan ----------

  /** A recorded result agrees with the state of its attempt, unless that was interrupted. */
  ghost predicate AgreesWithResult(a: Attempt) {
    a.result.Some? ==>
      match a.state
      case Interrupted => true
      case ExecutionFailed => a.result.value.status == Failure
      case Cancelled => a.result.value.status != Failure
      case Verifying => a.result.value.status == Success
      case Verified => a.result.value.status == Success
      case Rejected => a.result.value.status == Success
      case _ => false
  }

  ghost predicate IsAttempt(plan: Plan, stepId: Id, k: int, a: Attempt) {
    stepId in plan.steps && 0 <= k < |plan.steps[stepId].attempts| && plan.steps[stepId].attempts[k] == a
  }

  /**
   A reduced plan is presented exactly if it has steps, in distinct places, whose dependencies exist without a cycle;
   attempts that agree with their results; and no attempt id or child run twice.
  */
  lemma PresentableExactly(plan: Plan)
    ensures Presentable(plan) <==>
      && (exists id :: id in plan.steps)
      && (forall s, t :: s in plan.steps && t in plan.steps && plan.steps[s].order == plan.steps[t].order ==> s == t)
      && (forall s, d :: s in plan.steps && d in plan.steps[s].dependencies ==> d in plan.steps)
      && Acyclic(set s, d | s in plan.steps && d in plan.steps[s].dependencies :: (s, d))
      && (forall s, k, a :: IsAttempt(plan, s, k, a) ==> AgreesWithResult(a))
      && (forall s, j, a, t, k, b :: IsAttempt(plan, s, j, a) && IsAttempt(plan, t, k, b) && Clash(a, b) ==> s == t && j == k)
  {
    ArcsAreDependencies(plan);
    ConsistentExactly(plan);
    DifferExactly(plan);
  }

  ghost predicate Clash(a: Attempt, b: Attempt) {
    a.attemptId == b.attemptId || (a.childRunId.Some? && a.childRunId == b.childRunId)
  }

  lemma ArcsAreDependencies(plan: Plan)
    ensures DependencyArcs(Dependencies(plan.steps)) == set s, d | s in plan.steps && d in plan.steps[s].dependencies :: (s, d)
    ensures DependenciesExist(Dependencies(plan.steps))
       <==> forall s, d :: s in plan.steps && d in plan.steps[s].dependencies ==> d in plan.steps
  {
    var dependencies := Dependencies(plan.steps);
    if DependenciesExist(dependencies) {
      forall s, d | s in plan.steps && d in plan.steps[s].dependencies ensures d in plan.steps {
        assert s in dependencies && d in dependencies[s];
        assert d in dependencies;
      }
    }
  }

  lemma ConsistentExactly(plan: Plan)
    ensures AllConsistent(plan.steps) <==> forall s, k, a :: IsAttempt(plan, s, k, a) ==> AgreesWithResult(a)
  {
    if forall s, k, a :: IsAttempt(plan, s, k, a) ==> AgreesWithResult(a) {
      forall s, k | s in plan.steps && 0 <= k < |plan.steps[s].attempts| ensures ResultConsistent(plan.steps[s].attempts[k]) {
        assert IsAttempt(plan, s, k, plan.steps[s].attempts[k]);
      }
    }
  }

  lemma DifferExactly(plan: Plan)
    ensures AttemptsDiffer(plan.steps) <==>
      forall s, j, a, t, k, b :: IsAttempt(plan, s, j, a) && IsAttempt(plan, t, k, b) && Clash(a, b) ==> s == t && j == k
  {
    if AttemptsDiffer(plan.steps) {
      forall s, j, a, t, k, b | IsAttempt(plan, s, j, a) && IsAttempt(plan, t, k, b) && Clash(a, b) ensures s == t && j == k {
        assert s != t || j != k ==> Differ(plan.steps[s].attempts[j], plan.steps[t].attempts[k]);
      }
    }
    if forall s, j, a, t, k, b :: IsAttempt(plan, s, j, a) && IsAttempt(plan, t, k, b) && Clash(a, b) ==> s == t && j == k {
      forall s, t, i, j | s in plan.steps && t in plan.steps && (s != t || i != j)
        && 0 <= i < |plan.steps[s].attempts| && 0 <= j < |plan.steps[t].attempts|
        ensures Differ(plan.steps[s].attempts[i], plan.steps[t].attempts[j])
      {
        assert IsAttempt(plan, s, i, plan.steps[s].attempts[i]) && IsAttempt(plan, t, j, plan.steps[t].attempts[j]);
      }
    }
  }

  // ---------- Every plan event ----------

  ghost predicate Unused(s: Session, kind: Kind, id: Id) {
    (kind, id) !in s.stableIds
  }

  ghost predicate AttemptEventFits(s: Session, step: Step, attemptId: Id, event: AttemptEvent, parentRunId: Option<Id>) {
    if event.AttemptCreated? then
      && event.ordinal == |step.attempts| + 1 && event.ordinal <= step.maxAttempts
      && Unused(s, AttemptId, attemptId) && (event.childRunId.Some? ==> Unused(s, ChildRunId, event.childRunId.value))
    else
      exists a :: a in step.attempts && a.attemptId == attemptId
        && AttemptMayTurn(step, a, event, parentRunId)
        && (event.ResultRecorded? && a.childRunId.None? ==> Unused(s, ChildRunId, event.child))
        && (event.VerificationRecorded? ==> Unused(s, VerificationId, event.verification.verificationId))
  }

  ghost predicate StepEventFits(s: Session, plan: Plan, stepId: Id, change: StepEvent, parentRunId: Option<Id>) {
    match change
    case StepCreated(_) => Unused(s, StepId, stepId)
    case StepStateChanged(state, reason, newAttemptId, _) =>
      stepId in plan.steps && StepMayTurn(plan.steps[stepId], state, reason, newAttemptId)
    case OfAttempt(attemptId, event) =>
      stepId in plan.steps && AttemptEventFits(s, plan.steps[stepId], attemptId, event, parentRunId)
  }

  /** What has to hold of the session for a plan event to be accepted. */
  ghost predicate PlanEventFits(s: Session, planId: Id, revision: int, event: PlanEvent, parentRunId: Option<Id>) {
    if event.PlanCreated? then
      && (s.plan.Some? ==>
            s.plan.value.state in {PlanState.Succeeded, PlanState.Failed, PlanState.Cancelled, PlanState.Interrupted})
      && Unused(s, PlanId, planId)
    else
      && s.plan.Some? && s.plan.value.planId == planId && s.plan.value.revision == revision
      && var plan := s.plan.value;
      match event
      case PlanStateChanged(state) => PlanMayTurn(plan, state)
      case PlanDecisionRecorded(stepId, attemptId) =>
        stepId.Some? ==>
          stepId.value in plan.steps
          && (attemptId.Some? ==> exists a :: a in plan.steps[stepId.value].attempts && a.attemptId == attemptId.value)
      case PlanRevised(toRevision, _, proofs) => PlanMayBeRevised(plan, toRevision, proofs)
      case OfStep(stepId, change) => StepEventFits(s, plan, stepId, change, parentRunId)
  }

  lemma PositionExactly(attempts: seq<Attempt>, a: Attempt)
    requires DistinctAttempts(attempts) && a in attempts
    ensures var k := Position(attempts, a.attemptId); k < |attempts| && attempts[k] == a
  {
    var k :| 0 <= k < |attempts| && attempts[k] == a;
    FirstPosition(attempts, k);
  }

  lemma AttemptEventExactly(s: Session, e: Entry, stepId: Id, attemptId: Id, event: AttemptEvent)
    requires s.plan.Some? && stepId in s.plan.value.steps && Regular(s.plan.value.steps[stepId])
    requires event.VerificationRecorded? ==> Unused(s, VerificationId, event.verification.verificationId)
    ensures ApplyAttemptEvent(s, e, stepId, attemptId, event).Ok?
       <==> AttemptEventFits(s, s.plan.value.steps[stepId], attemptId, event, e.parentRunId)
  {
    var step := s.plan.value.steps[stepId];
    if !event.AttemptCreated? {
      if a :| a in step.attempts && a.attemptId == attemptId {
        PositionExactly(step.attempts, a);
        AttemptTurnsExactly(step, a, event, e.parentRunId);
        assert forall b :: b in step.attempts && b.attemptId == attemptId ==> b == a by {
          forall b | b in step.attempts && b.attemptId == attemptId ensures b == a {
            PositionExactly(step.attempts, b);
          }
        }
      }
    }
  }

  lemma StepEventExactly(s: Session, e: Entry, stepId: Id, change: StepEvent)
    requires s.plan.Some? && AllRegular(s.plan.value) && (stepId in s.plan.value.steps ==> !Unused(s, StepId, stepId))
    requires change.OfAttempt? && change.change.VerificationRecorded? ==>
      Unused(s, VerificationId, change.change.verification.verificationId)
    ensures ApplyStepEvent(s, e, stepId, change).Ok? <==> StepEventFits(s, s.plan.value, stepId, change, e.parentRunId)
  {
    if stepId in s.plan.value.steps {
      match change
      case StepCreated(_) =>
      case StepStateChanged(state, reason, newAttemptId, errorCode) =>
        StepTurnsExactly(s.plan.value.steps[stepId], state, reason, newAttemptId, errorCode);
      case OfAttempt(attemptId, event) => AttemptEventExactly(s, e, stepId, attemptId, event);
    }
  }

  /** A verification is judged in the same way before and after it has claimed its id. */
  lemma ClaimedVerification(s: Session, t: Session, e: Entry, stepId: Id, change: StepEvent)
    requires change.OfAttempt? && change.change.VerificationRecorded? && s.plan.Some? && t.plan == s.plan
    ensures ApplyStepEvent(t, e, stepId, change).Ok? <==> ApplyStepEvent(s, e, stepId, change).Ok?
  {
  }

  lemma OfStepExactly(s: Session, e: Entry, planId: Id, revision: int, stepId: Id, change: StepEvent)
    requires s.plan.Some? ==> AllRegular(s.plan.value) && (stepId in s.plan.value.steps ==> !Unused(s, StepId, stepId))
    ensures ApplyPlanEvent(s, e, planId, revision, OfStep(stepId, change)).Ok?
       <==> PlanEventFits(s, planId, revision, OfStep(stepId, change), e.parentRunId)
  {
    if Current(s.plan, planId, revision) {
      if change.OfAttempt? && change.change.VerificationRecorded? {
        var id := change.change.verification.verificationId;
        if Unused(s, VerificationId, id) {
          ClaimedVerification(s, Claim(s, VerificationId, id).value, e, stepId, change);
          StepEventExactly(s, e, stepId, change);
        }
      } else {
        StepEventExactly(s, e, stepId, change);
      }
    }
  }

  lemma DecisionExactly(plan: Plan, stepId: Id, attemptId: Option<Id>)
    requires AllRegular(plan)
    ensures IsInPlan(plan, stepId, attemptId) <==>
      stepId in plan.steps
      && (attemptId.Some? ==> exists a :: a in plan.steps[stepId].attempts && a.attemptId == attemptId.value)
  {
    if stepId in plan.steps && attemptId.Some? {
      var attempts := plan.steps[stepId].attempts;
      if a :| a in attempts && a.attemptId == attemptId.value {
        PositionExactly(attempts, a);
      }
    }
  }

  lemma PlanEventExactly(s: Session, e: Entry, planId: Id, revision: int, event: PlanEvent)
    requires s.plan.Some? ==> AllRegular(s.plan.value)
    requires forall id :: s.plan.Some? && id in s.plan.value.steps ==> !Unused(s, StepId, id)
    ensures ApplyPlanEvent(s, e, planId, revision, event).Ok? <==> PlanEventFits(s, planId, revision, event, e.parentRunId)
  {
    match event
    case OfStep(stepId, change) => OfStepExactly(s, e, planId, revision, stepId, change);
    case PlanRevised(toRevision, objective, proofs) =>
      if s.plan.Some? {
        RevisedExactly(s.plan.value, toRevision, objective, proofs);
      }
    case PlanDecisionRecorded(stepId, attemptId) =>
      if s.plan.Some? && stepId.Some? {
        DecisionExactly(s.plan.value, stepId.value, attemptId);
      }
    case PlanStateChanged(state) =>
      if s.plan.Some? {
        PlanTurnsExactly(s.plan.value, state);
      }
    case _ =>
  }

  lemma JournalIsRegular(entries: seq<Entry>, n: nat)
    requires n <= |entries| && After(entries, n).Ok?
    ensures var s := After(entries, n).value;
      && (s.plan.Some? ==> AllRegular(s.plan.value))
      && forall id :: s.plan.Some? && id in s.plan.value.steps ==> !Unused(s, StepId, id)
  {
    var s := After(entries, n).value;
    PlanIsRead(entries, n);
    ReplayClaimed(Begin(entries[0]).value, entries, 1, n);
    ReplayNumbered(Begin(entries[0]).value, entries, 1, n);
    if s.plan.Some? {
      forall id | id in s.plan.value.steps ensures Regular(s.plan.value.steps[id]) {
        assert StepAsWritten(s.plan.value.steps[id], entries[..n], id);
      }
    }
  }

  /**
   After an accepted journal an entry about the plan is accepted exactly if nothing is held against its envelope and
   its event fits: the current plan and revision, unused ids, attempts numbered in turn, and only the listed changes of
   state, each with what has to have been recorded for it.
  */
  lemma NextPlanEntryExactly(entries: seq<Entry>, e: Entry)
    requires After(entries, |entries|).Ok? && e.data.OfPlan?
    ensures Apply(After(entries, |entries|).value, e).Ok? <==>
      && EnvelopeObjection(entries, e).None?
      && PlanEventFits(After(entries, |entries|).value, e.data.planId, e.data.planRevision, e.data.event, e.parentRunId)
  {
    var s := After(entries, |entries|).value;
    JournalIsRead(entries, |entries|);
    assert entries[..|entries|] == entries;
    EnvelopeExactly(s, entries, e);
    JournalIsRegular(entries, |entries|);
    if Envelope(s, e).Ok? {
      FitsAfterEnvelope(s, e);
      PlanEventExactly(Envelope(s, e).value, e, e.data.planId, e.data.planRevision, e.data.event);
    }
  }

  lemma FitsAfterEnvelope(s: Session, e: Entry)
    requires e.data.OfPlan? && Envelope(s, e).Ok?
    ensures var t := Envelope(s, e).value;
      && t.plan == s.plan && t.stableIds == s.stableIds
      && Apply(s, e) == ApplyPlanEvent(t, e, e.data.planId, e.data.planRevision, e.data.event)
      && (PlanEventFits(t, e.data.planId, e.data.planRevision, e.data.event, e.parentRunId)
          <==> PlanEventFits(s, e.data.planId, e.data.planRevision, e.data.event, e.parentRunId))
  {
  }
}
