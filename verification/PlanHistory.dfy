/**
 The plan of a session read off its journal: which steps it holds, what state its entries gave each step and
 each attempt, and what was recorded of them.
*/
module PlanHistory {
  import opened Wrappers
  import opened SessionPlan
  import opened SessionReducer
  import opened PlanEvidence
  import opened SessionHistory

  // ---------- What the entries say ----------

  predicate CreatesPlan(e: Entry) {
    e.data.OfPlan? && e.data.event.PlanCreated?
  }

  predicate Revises(e: Entry) {
    e.data.OfPlan? && e.data.event.PlanRevised?
  }

  predicate SetsRevision(e: Entry) {
    CreatesPlan(e) || Revises(e)
  }

  predicate SetsState(e: Entry) {
    SetsRevision(e) || (e.data.OfPlan? && e.data.event.PlanStateChanged?)
  }

  ghost predicate OutlineAsWritten(plan: Option<Plan>, written: seq<Entry>) {
    && (plan.None? <==> NoneOf(CreatesPlan, written))
    && (plan.None? ==> NoneOf(SetsState, written))
    && (forall k: nat :: LastOf(CreatesPlan, written, k) && plan.Some? ==> plan.value.planId == written[k].data.planId)
    && (forall k: nat :: LastOf(SetsRevision, written, k) && plan.Some? ==>
          match written[k].data.event
          case PlanCreated(objective, _) =>
            plan.value.revision == written[k].data.planRevision && plan.value.objective == objective
          case PlanRevised(toRevision, objective, _) =>
            plan.value.revision == toRevision && plan.value.objective == objective
          case _ => false)
    && (forall k: nat :: LastOf(SetsState, written, k) && plan.Some? ==>
          match written[k].data.event
          case PlanCreated(_, state) => plan.value.state == state
          case PlanStateChanged(state) => plan.value.state == state
          case PlanRevised(_, _, _) => plan.value.state == PlanState.Running
          case _ => false)
  }

  ghost predicate OnStep(e: Entry, stepId: Id) {
    e.data.OfPlan? && e.data.event.OfStep? && e.data.event.stepId == stepId
  }

  ghost predicate CreatesStep(e: Entry, stepId: Id) {
    OnStep(e, stepId) && e.data.event.change.StepCreated?
  }

  /** A new plan has no steps, and a revision keeps those it has a proof for. */
  ghost predicate Drops(e: Entry, stepId: Id) {
    CreatesPlan(e) || (Revises(e) && forall k :: 0 <= k < |e.data.event.proofs| ==> e.data.event.proofs[k].stepId != stepId)
  }

  ghost predicate StepStands(written: seq<Entry>, stepId: Id) {
    exists k :: 0 <= k < |written| && CreatesStep(written[k], stepId)
             && forall j :: k < j < |written| ==> !Drops(written[j], stepId)
  }

  ghost function SetsStepState(stepId: Id): Entry -> bool {
    e => OnStep(e, stepId) && !e.data.event.change.OfAttempt?
  }

  /** What a step was created as, and the state it was last given. */
  ghost predicate StepOutline(step: Step, written: seq<Entry>, stepId: Id) {
    && (forall e :: e in written && CreatesStep(e, stepId) ==>
          var n := e.data.event.change.step;
          step.title == n.title && step.order == n.order && step.dependencies == n.dependencies && step.maxAttempts == n.maxAttempts)
    && (forall k: nat :: LastOf(SetsStepState(stepId), written, k) ==>
          match written[k].data.event.change
          case StepCreated(n) => step.state == n.state && step.errorCode.None?
          case StepStateChanged(state, _, _, errorCode) => step.state == state && step.errorCode == errorCode
          case _ => false)
  }

  ghost predicate OnAttempt(e: Entry, stepId: Id, attemptId: Id) {
    OnStep(e, stepId) && e.data.event.change.OfAttempt? && e.data.event.change.attemptId == attemptId
  }

  /** What an entry says of an attempt. */
  ghost function Said(e: Entry): AttemptEvent
    requires e.data.OfPlan? && e.data.event.OfStep? && e.data.event.change.OfAttempt?
  {
    e.data.event.change.change
  }

  ghost predicate CreatesAttempt(e: Entry, stepId: Id) {
    OnStep(e, stepId) && e.data.event.change.OfAttempt? && Said(e).AttemptCreated?
  }

  /** The attempts created for a step, in order. */
  ghost function AttemptsOf(written: seq<Entry>, stepId: Id): seq<Id> {
    if written == [] then []
    else
      var n := |written| - 1;
      AttemptsOf(written[..n], stepId)
      + if CreatesAttempt(written[n], stepId) then [written[n].data.event.change.attemptId] else []
  }

  ghost function VerificationsOf(written: seq<Entry>, stepId: Id, attemptId: Id): seq<Verification> {
    if written == [] then []
    else
      var n := |written| - 1;
      VerificationsOf(written[..n], stepId, attemptId)
      + if OnAttempt(written[n], stepId, attemptId) && Said(written[n]).VerificationRecorded?
        then [Said(written[n]).verification] else []
  }

  ghost function SetsAttemptState(stepId: Id, attemptId: Id): Entry -> bool {
    e => OnAttempt(e, stepId, attemptId)
         && (Said(e).AttemptCreated? || Said(e).AttemptStateChanged? || Said(e).ExecutionCompleted?)
  }

  ghost predicate StateSaid(a: Attempt, event: AttemptEvent) {
    match event
    case AttemptCreated(_, state, _) => a.state == state && a.errorCode.None?
    case AttemptStateChanged(state, errorCode) => a.state == state && a.errorCode == errorCode
    case ExecutionCompleted(Success) => a.state == ExecutionSucceeded
    case ExecutionCompleted(Failure) => a.state == ExecutionFailed
    case ExecutionCompleted(Cancellation) => a.state == AttemptState.Cancelled
    case _ => false
  }

  ghost predicate SaysChild(event: AttemptEvent) {
    (event.AttemptCreated? && event.childRunId.Some?) || event.ResultRecorded?
  }

  /** What has been recorded of an attempt. */
  ghost predicate RecordsOf(a: Attempt, written: seq<Entry>, stepId: Id) {
    && a.verifications == VerificationsOf(written, stepId, a.attemptId)
    && (forall e :: e in written && OnAttempt(e, stepId, a.attemptId) ==>
          match Said(e)
          case AttemptCreated(ordinal, _, child) => a.ordinal == ordinal && (child.Some? ==> a.childRunId == child)
          case ExecutionBound(child, execution) => a.execution == Some(execution) && a.childRunId == Some(child)
          case ResultRecorded(child, result) => a.result == Some(result) && a.childRunId == Some(child)
          case _ => true)
    && (a.execution.Some? ==> exists e :: e in written && OnAttempt(e, stepId, a.attemptId) && Said(e).ExecutionBound?)
    && (a.result.Some? ==> exists e :: e in written && OnAttempt(e, stepId, a.attemptId) && Said(e).ResultRecorded?)
    && (a.childRunId.Some? ==> exists e :: e in written && OnAttempt(e, stepId, a.attemptId) && SaysChild(Said(e)))
  }

  ghost predicate AttemptAsWritten(a: Attempt, written: seq<Entry>, stepId: Id) {
    && (forall k: nat :: LastOf(SetsAttemptState(stepId, a.attemptId), written, k) ==> StateSaid(a, Said(written[k])))
    && RecordsOf(a, written, stepId)
  }

  ghost predicate Listed(attempts: seq<Attempt>, ids: seq<Id>) {
    |attempts| == |ids| && forall k :: 0 <= k < |ids| ==> attempts[k].attemptId == ids[k]
  }

  ghost predicate DistinctAttempts(attempts: seq<Attempt>) {
    forall j, k :: 0 <= j < k < |attempts| ==> attempts[j].attemptId != attempts[k].attemptId
  }

  ghost predicate StepAsWritten(step: Step, written: seq<Entry>, stepId: Id) {
    && StepOutline(step, written, stepId)
    && Listed(step.attempts, AttemptsOf(written, stepId)) && DistinctAttempts(step.attempts)
    && forall k :: 0 <= k < |step.attempts| ==> AttemptAsWritten(step.attempts[k], written, stepId)
  }

  /** Steps and attempts are spoken of only once they have been created. */
  ghost predicate OnlyCreated(ids: set<(Kind, Id)>, written: seq<Entry>) {
    && (forall e, stepId :: e in written && OnStep(e, stepId) ==> (StepId, stepId) in ids)
    && (forall e, stepId, attemptId :: e in written && OnAttempt(e, stepId, attemptId) ==> (AttemptId, attemptId) in ids)
  }

  ghost predicate PlanAsWritten(s: Session, written: seq<Entry>) {
    && OutlineAsWritten(s.plan, written)
    && OnlyCreated(s.stableIds, written)
    && (forall stepId :: s.plan.Some? && stepId in s.plan.value.steps <==> StepStands(written, stepId))
    && (s.plan.Some? ==>
          forall stepId :: stepId in s.plan.value.steps ==> StepAsWritten(s.plan.value.steps[stepId], written, stepId))
  }

  // ---------- What one entry does ----------

  ghost predicate AttemptChanges(a: Attempt, event: AttemptEvent, b: Attempt) {
    match event
    case AttemptCreated(_, _, _) => false
    case AttemptStateChanged(state, errorCode) => b == a.(state := state, errorCode := errorCode)
    case ExecutionCompleted(Success) => b == a.(state := ExecutionSucceeded)
    case ExecutionCompleted(Failure) => b == a.(state := ExecutionFailed)
    case ExecutionCompleted(Cancellation) => b == a.(state := AttemptState.Cancelled)
    case ExecutionBound(child, execution) =>
      b == a.(execution := Some(execution)) && a.execution.None? && a.childRunId == Some(child)
    case ResultRecorded(child, result) =>
      b == a.(childRunId := Some(child), result := Some(result)) && a.result.None?
      && (a.childRunId.Some? ==> a.childRunId == Some(child))
    case VerificationRecorded(v) => b == a.(verifications := a.verifications + [v])
  }

  ghost predicate StepChanges(step: Step, change: StepEvent, after: Step) {
    match change
    case StepCreated(_) => false
    case StepStateChanged(state, _, _, errorCode) => after == step.(state := state, errorCode := errorCode)
    case OfAttempt(attemptId, AttemptCreated(ordinal, state, child)) =>
      after == step.(attempts := step.attempts + [Attempt(attemptId, ordinal, state, child, None, None, [], None)])
    case OfAttempt(attemptId, event) =>
      exists k :: 0 <= k < |step.attempts| && Replaces(step, k, attemptId, event, after)
  }

  ghost predicate Replaces(step: Step, k: nat, attemptId: Id, event: AttemptEvent, after: Step)
    requires k < |step.attempts|
  {
    && step.attempts[k].attemptId == attemptId && |after.attempts| == |step.attempts|
    && after == step.(attempts := step.attempts[k := after.attempts[k]])
    && AttemptChanges(step.attempts[k], event, after.attempts[k])
  }

  ghost predicate PlanChanges(p: Plan, event: PlanEvent, q: Plan) {
    match event
    case PlanCreated(_, _) => false
    case PlanStateChanged(state) => q == p.(state := state)
    case PlanDecisionRecorded(_, _) => q == p
    case PlanRevised(toRevision, objective, proofs) =>
      && q == p.(revision := toRevision, objective := objective, state := PlanState.Running, steps := q.steps)
      && (forall id :: id in q.steps ==> id in p.steps && q.steps[id] == p.steps[id])
      && (forall id :: id in p.steps ==> (id in q.steps <==> exists k :: 0 <= k < |proofs| && proofs[k].stepId == id))
    case OfStep(id, StepCreated(n)) =>
      id !in p.steps
      && q == p.(steps := p.steps[id := Step(n.title, n.order, n.state, n.dependencies, n.maxAttempts, [], None)])
    case OfStep(id, change) =>
      && id in p.steps && id in q.steps && q == p.(steps := p.steps[id := q.steps[id]])
      && StepChanges(p.steps[id], change, q.steps[id])
  }

  lemma AttemptEffect(s: Session, e: Entry, stepId: Id, attemptId: Id, event: AttemptEvent)
    requires s.plan.Some? && stepId in s.plan.value.steps && ApplyAttemptEvent(s, e, stepId, attemptId, event).Ok?
    ensures var t := ApplyAttemptEvent(s, e, stepId, attemptId, event).value;
      && t.plan.Some? && stepId in t.plan.value.steps
      && t.plan.value == s.plan.value.(steps := s.plan.value.steps[stepId := t.plan.value.steps[stepId]])
      && StepChanges(s.plan.value.steps[stepId], OfAttempt(attemptId, event), t.plan.value.steps[stepId])
      && (event.AttemptCreated? ==> (AttemptId, attemptId) !in s.stableIds)
  {
    var step := s.plan.value.steps[stepId];
    if !event.AttemptCreated? {
      var k := Position(step.attempts, attemptId);
      var changed := ChangedAttempt(e.parentRunId, event, step, step.attempts[k]).value;
      assert AttemptChanges(step.attempts[k], event, changed);
      assert WithAttempt(step, changed).attempts[k] == changed;
      assert Replaces(step, k, attemptId, event, WithAttempt(step, changed));
    }
  }

  lemma StepEffect(s: Session, e: Entry, stepId: Id, change: StepEvent)
    requires s.plan.Some? && ApplyStepEvent(s, e, stepId, change).Ok?
    ensures var t := ApplyStepEvent(s, e, stepId, change).value;
      && t.plan.Some? && PlanChanges(s.plan.value, OfStep(stepId, change), t.plan.value)
      && (change.StepCreated? ==> (StepId, stepId) !in s.stableIds)
      && (change.OfAttempt? && change.change.AttemptCreated? ==> (AttemptId, change.attemptId) !in s.stableIds)
  {
    if change.OfAttempt? {
      AttemptEffect(s, e, stepId, change.attemptId, change.change);
    }
  }

  lemma RevisionEffect(p: Plan, toRevision: int, objective: string, proofs: seq<ReuseProof>)
    requires RevisePlan(p, toRevision, objective, proofs).Ok?
    ensures PlanChanges(p, PlanRevised(toRevision, objective, proofs), RevisePlan(p, toRevision, objective, proofs).value)
  {
  }

  lemma PlanEffect(s: Session, e: Entry, planId: Id, revision: int, event: PlanEvent)
    requires ApplyPlanEvent(s, e, planId, revision, event).Ok?
    ensures var t := ApplyPlanEvent(s, e, planId, revision, event).value;
      && t.plan.Some?
      && (event.PlanCreated? ==> t.plan.value == Plan(planId, revision, event.objective, event.state, map[]))
      && (!event.PlanCreated? ==> s.plan.Some? && PlanChanges(s.plan.value, event, t.plan.value))
      && (event.OfStep? && event.change.StepCreated? ==> (StepId, event.stepId) !in s.stableIds)
      && (event.OfStep? && event.change.OfAttempt? && event.change.change.AttemptCreated? ==>
            (AttemptId, event.change.attemptId) !in s.stableIds)
  {
    var claimed := ClaimVerification(s, event).value;
    if event.OfStep? {
      StepEffect(claimed, e, event.stepId, event.change);
    } else if event.PlanRevised? {
      RevisionEffect(s.plan.value, event.toRevision, event.objective, event.proofs);
    }
  }

  // ---------- Outline ----------

  lemma OutlineStaysAsWritten(p: Option<Plan>, q: Option<Plan>, written: seq<Entry>, e: Entry)
    requires OutlineAsWritten(p, written) && (!e.data.OfPlan? ==> q == p)
    requires e.data.OfPlan? ==> q.Some?
    requires CreatesPlan(e) ==>
      q.value == Plan(e.data.planId, e.data.planRevision, e.data.event.objective, e.data.event.state, map[])
    requires e.data.OfPlan? && !CreatesPlan(e) ==> p.Some? && PlanChanges(p.value, e.data.event, q.value)
    ensures OutlineAsWritten(q, written + [e])
  {
    LastSnoc(CreatesPlan, written, e);
    LastSnoc(SetsRevision, written, e);
    LastSnoc(SetsState, written, e);
  }

  // ---------- Attempts ----------

  lemma VerificationsSnoc(written: seq<Entry>, e: Entry, stepId: Id, attemptId: Id)
    ensures VerificationsOf(written + [e], stepId, attemptId)
         == VerificationsOf(written, stepId, attemptId)
            + if OnAttempt(e, stepId, attemptId) && Said(e).VerificationRecorded? then [Said(e).verification] else []
  {
    assert (written + [e])[..|written + [e]| - 1] == written;
  }

  lemma AttemptsSnoc(written: seq<Entry>, e: Entry, stepId: Id)
    ensures AttemptsOf(written + [e], stepId)
         == AttemptsOf(written, stepId) + if CreatesAttempt(e, stepId) then [e.data.event.change.attemptId] else []
  {
    assert (written + [e])[..|written + [e]| - 1] == written;
  }

  lemma RecordsUnaffected(a: Attempt, written: seq<Entry>, e: Entry, stepId: Id)
    requires RecordsOf(a, written, stepId) && !OnAttempt(e, stepId, a.attemptId)
    ensures RecordsOf(a, written + [e], stepId)
  {
    VerificationsSnoc(written, e, stepId, a.attemptId);
    Last(written, e);
  }

  lemma AttemptUnaffected(a: Attempt, written: seq<Entry>, e: Entry, stepId: Id)
    requires AttemptAsWritten(a, written, stepId) && !OnAttempt(e, stepId, a.attemptId)
    ensures AttemptAsWritten(a, written + [e], stepId)
  {
    RecordsUnaffected(a, written, e, stepId);
    LastSnoc(SetsAttemptState(stepId, a.attemptId), written, e);
  }

  lemma RecordsUpdated(a: Attempt, b: Attempt, written: seq<Entry>, e: Entry, stepId: Id)
    requires RecordsOf(a, written, stepId) && OnAttempt(e, stepId, a.attemptId) && AttemptChanges(a, Said(e), b)
    ensures RecordsOf(b, written + [e], stepId)
  {
    VerificationsSnoc(written, e, stepId, a.attemptId);
    Last(written, e);
  }

  lemma StateUpdated(a: Attempt, b: Attempt, written: seq<Entry>, e: Entry, stepId: Id)
    requires OnAttempt(e, stepId, a.attemptId) && AttemptChanges(a, Said(e), b)
    requires forall k: nat :: LastOf(SetsAttemptState(stepId, a.attemptId), written, k) ==> StateSaid(a, Said(written[k]))
    ensures forall k: nat :: LastOf(SetsAttemptState(stepId, b.attemptId), written + [e], k) ==> StateSaid(b, Said((written + [e])[k]))
  {
    LastSnoc(SetsAttemptState(stepId, a.attemptId), written, e);
  }

  lemma AttemptUpdated(a: Attempt, b: Attempt, written: seq<Entry>, e: Entry, stepId: Id)
    requires AttemptAsWritten(a, written, stepId) && OnAttempt(e, stepId, a.attemptId) && AttemptChanges(a, Said(e), b)
    ensures AttemptAsWritten(b, written + [e], stepId)
  {
    RecordsUpdated(a, b, written, e, stepId);
    StateUpdated(a, b, written, e, stepId);
  }

  lemma {:induction false} NothingVerified(written: seq<Entry>, stepId: Id, attemptId: Id)
    requires forall e :: e in written ==> !OnAttempt(e, stepId, attemptId)
    ensures VerificationsOf(written, stepId, attemptId) == []
  {
    if written != [] {
      assert written[|written| - 1] in written;
      NothingVerified(written[..|written| - 1], stepId, attemptId);
    }
  }

  lemma AttemptStarts(written: seq<Entry>, e: Entry, stepId: Id)
    requires CreatesAttempt(e, stepId)
    requires forall x :: x in written ==> !OnAttempt(x, stepId, e.data.event.change.attemptId)
    ensures var n := Said(e);
      AttemptAsWritten(Attempt(e.data.event.change.attemptId, n.ordinal, n.state, n.childRunId, None, None, [], None),
                       written + [e], stepId)
  {
    var attemptId := e.data.event.change.attemptId;
    NothingVerified(written, stepId, attemptId);
    VerificationsSnoc(written, e, stepId, attemptId);
    LastSnoc(SetsAttemptState(stepId, attemptId), written, e);
    Last(written, e);
    if Said(e).childRunId.Some? {
      assert e in written + [e] && SaysChild(Said(e));
    }
  }

  lemma {:induction false} ListedWereCreated(written: seq<Entry>, stepId: Id, attemptId: Id)
    requires attemptId in AttemptsOf(written, stepId)
    ensures exists e :: e in written && OnAttempt(e, stepId, attemptId)
  {
    var n := |written| - 1;
    if attemptId in AttemptsOf(written[..n], stepId) {
      ListedWereCreated(written[..n], stepId, attemptId);
    } else {
      assert written[n] in written;
    }
  }

  lemma {:induction false} NoAttempts(written: seq<Entry>, stepId: Id)
    requires forall e :: e in written ==> !OnStep(e, stepId)
    ensures AttemptsOf(written, stepId) == []
  {
    if written != [] {
      assert written[|written| - 1] in written;
      NoAttempts(written[..|written| - 1], stepId);
    }
  }

  // ---------- Steps ----------

  lemma OutlineUnaffected(step: Step, written: seq<Entry>, e: Entry, stepId: Id)
    requires StepOutline(step, written, stepId) && (OnStep(e, stepId) ==> e.data.event.change.OfAttempt?)
    ensures StepOutline(step, written + [e], stepId)
  {
    Last(written, e);
    LastSnoc(SetsStepState(stepId), written, e);
  }

  lemma StepUnaffected(step: Step, written: seq<Entry>, e: Entry, stepId: Id)
    requires StepAsWritten(step, written, stepId) && !OnStep(e, stepId)
    ensures StepAsWritten(step, written + [e], stepId)
  {
    OutlineUnaffected(step, written, e, stepId);
    AttemptsSnoc(written, e, stepId);
    forall k | 0 <= k < |step.attempts| ensures AttemptAsWritten(step.attempts[k], written + [e], stepId) {
      AttemptUnaffected(step.attempts[k], written, e, stepId);
    }
  }

  lemma StepStarts(written: seq<Entry>, e: Entry, stepId: Id)
    requires CreatesStep(e, stepId) && forall x :: x in written ==> !OnStep(x, stepId)
    ensures var n := e.data.event.change.step;
      StepAsWritten(Step(n.title, n.order, n.state, n.dependencies, n.maxAttempts, [], None), written + [e], stepId)
  {
    Last(written, e);
    LastSnoc(SetsStepState(stepId), written, e);
    NoAttempts(written, stepId);
    AttemptsSnoc(written, e, stepId);
  }

  lemma StepStateSet(step: Step, after: Step, written: seq<Entry>, e: Entry, stepId: Id)
    requires StepAsWritten(step, written, stepId) && OnStep(e, stepId) && e.data.event.change.StepStateChanged?
    requires StepChanges(step, e.data.event.change, after)
    ensures StepAsWritten(after, written + [e], stepId)
  {
    Last(written, e);
    LastSnoc(SetsStepState(stepId), written, e);
    AttemptsSnoc(written, e, stepId);
    forall k | 0 <= k < |step.attempts| ensures AttemptAsWritten(after.attempts[k], written + [e], stepId) {
      AttemptUnaffected(step.attempts[k], written, e, stepId);
    }
  }

  lemma AttemptAdded(step: Step, after: Step, written: seq<Entry>, e: Entry, stepId: Id)
    requires StepAsWritten(step, written, stepId) && CreatesAttempt(e, stepId)
    requires StepChanges(step, e.data.event.change, after)
    requires forall x :: x in written ==> !OnAttempt(x, stepId, e.data.event.change.attemptId)
    ensures StepAsWritten(after, written + [e], stepId)
  {
    var attemptId := e.data.event.change.attemptId;
    OutlineUnaffected(step, written, e, stepId);
    AttemptsSnoc(written, e, stepId);
    AttemptStarts(written, e, stepId);
    forall k | 0 <= k < |step.attempts|
      ensures step.attempts[k].attemptId != attemptId && AttemptAsWritten(after.attempts[k], written + [e], stepId)
    {
      assert step.attempts[k].attemptId == AttemptsOf(written, stepId)[k];
      ListedWereCreated(written, stepId, step.attempts[k].attemptId);
      AttemptUnaffected(step.attempts[k], written, e, stepId);
    }
  }

  lemma AttemptReplaced(step: Step, k: nat, after: Step, written: seq<Entry>, e: Entry, stepId: Id)
    requires StepAsWritten(step, written, stepId) && OnStep(e, stepId) && e.data.event.change.OfAttempt?
    requires k < |step.attempts| && Replaces(step, k, e.data.event.change.attemptId, Said(e), after)
    ensures StepAsWritten(after, written + [e], stepId)
  {
    OutlineUnaffected(step, written, e, stepId);
    AttemptsSnoc(written, e, stepId);
    AttemptUpdated(step.attempts[k], after.attempts[k], written, e, stepId);
    forall j | 0 <= j < |after.attempts| ensures AttemptAsWritten(after.attempts[j], written + [e], stepId) {
      if j != k {
        assert step.attempts[j].attemptId != step.attempts[k].attemptId;
        AttemptUnaffected(step.attempts[j], written, e, stepId);
      }
    }
    assert StepOutline(after, written + [e], stepId);
    assert Listed(after.attempts, AttemptsOf(written + [e], stepId));
  }

  /** An entry on a step that is in the plan. */
  lemma StepChanged(step: Step, after: Step, written: seq<Entry>, e: Entry, stepId: Id)
    requires StepAsWritten(step, written, stepId) && OnStep(e, stepId) && StepChanges(step, e.data.event.change, after)
    requires CreatesAttempt(e, stepId) ==> forall x :: x in written ==> !OnAttempt(x, stepId, e.data.event.change.attemptId)
    ensures StepAsWritten(after, written + [e], stepId)
  {
    if e.data.event.change.StepStateChanged? {
      StepStateSet(step, after, written, e, stepId);
    } else if CreatesAttempt(e, stepId) {
      AttemptAdded(step, after, written, e, stepId);
    } else {
      var k :| 0 <= k < |step.attempts| && Replaces(step, k, e.data.event.change.attemptId, Said(e), after);
      AttemptReplaced(step, k, after, written, e, stepId);
    }
  }

  lemma StandsSnoc(written: seq<Entry>, e: Entry, stepId: Id)
    ensures StepStands(written + [e], stepId) <==> CreatesStep(e, stepId) || (StepStands(written, stepId) && !Drops(e, stepId))
  {
    var more := written + [e];
    if CreatesStep(e, stepId) {
      assert CreatesStep(more[|written|], stepId);
    }
    if StepStands(written, stepId) && !Drops(e, stepId) {
      var k :| 0 <= k < |written| && CreatesStep(written[k], stepId) && forall j :: k < j < |written| ==> !Drops(written[j], stepId);
      assert CreatesStep(more[k], stepId) && forall j :: k < j < |more| ==> !Drops(more[j], stepId);
    }
    if StepStands(more, stepId) && !CreatesStep(e, stepId) {
      var k :| 0 <= k < |more| && CreatesStep(more[k], stepId) && forall j :: k < j < |more| ==> !Drops(more[j], stepId);
      assert !Drops(more[|written|], stepId);
      assert CreatesStep(written[k], stepId);
      forall j | k < j < |written| ensures !Drops(written[j], stepId) {
        assert more[j] == written[j];
      }
    }
  }

  // ---------- Whole journals ----------

  /** What is known of the plan before and after an accepted entry. */
  ghost predicate PlanMoves(s: Session, e: Entry, t: Session) {
    && (!e.data.OfPlan? ==> t.plan == s.plan)
    && (e.data.OfPlan? ==> t.plan.Some?)
    && (CreatesPlan(e) ==>
          t.plan.value == Plan(e.data.planId, e.data.planRevision, e.data.event.objective, e.data.event.state, map[]))
    && (e.data.OfPlan? && !CreatesPlan(e) ==> s.plan.Some? && PlanChanges(s.plan.value, e.data.event, t.plan.value))
  }

  lemma EntryMovesPlan(s: Session, e: Entry)
    requires Apply(s, e).Ok?
    ensures PlanMoves(s, e, Apply(s, e).value)
    ensures forall id :: CreatesStep(e, id) ==> (StepId, id) !in s.stableIds
    ensures forall id :: CreatesAttempt(e, id) ==> (AttemptId, e.data.event.change.attemptId) !in s.stableIds
  {
    if e.data.OfPlan? {
      PlanTouched(s, e);
      PlanEffect(Envelope(s, e).value, e, e.data.planId, e.data.planRevision, e.data.event);
    } else {
      PlanUntouched(s, e);
    }
  }

  lemma StepsStayAsWritten(s: Session, written: seq<Entry>, e: Entry, t: Session, stepId: Id)
    requires PlanAsWritten(s, written) && PlanMoves(s, e, t)
    requires CreatesStep(e, stepId) ==> (StepId, stepId) !in s.stableIds
    requires CreatesAttempt(e, stepId) ==> (AttemptId, e.data.event.change.attemptId) !in s.stableIds
    requires t.plan.Some? && stepId in t.plan.value.steps
    ensures StepAsWritten(t.plan.value.steps[stepId], written + [e], stepId)
  {
    if CreatesStep(e, stepId) {
      StepStarts(written, e, stepId);
    } else if OnStep(e, stepId) {
      StepChanged(s.plan.value.steps[stepId], t.plan.value.steps[stepId], written, e, stepId);
    } else {
      OtherStepsStay(s, e, t, stepId);
      StepUnaffected(s.plan.value.steps[stepId], written, e, stepId);
    }
  }

  lemma OtherStepsStay(s: Session, e: Entry, t: Session, stepId: Id)
    requires PlanMoves(s, e, t) && !OnStep(e, stepId) && t.plan.Some? && stepId in t.plan.value.steps
    ensures s.plan.Some? && stepId in s.plan.value.steps && t.plan.value.steps[stepId] == s.plan.value.steps[stepId]
  {
  }

  lemma StandingStays(s: Session, written: seq<Entry>, e: Entry, t: Session, stepId: Id)
    requires PlanAsWritten(s, written) && PlanMoves(s, e, t)
    ensures t.plan.Some? && stepId in t.plan.value.steps <==> StepStands(written + [e], stepId)
  {
    StandsSnoc(written, e, stepId);
    assert s.plan.Some? && stepId in s.plan.value.steps <==> StepStands(written, stepId);
  }

  lemma StepIsCreated(s: Session, written: seq<Entry>, e: Entry, stepId: Id)
    requires PlanAsWritten(s, written) && ChildrenClaimed(s) && Apply(s, e).Ok? && OnStep(e, stepId)
    ensures (StepId, stepId) in Apply(s, e).value.stableIds
  {
    EntryMovesPlan(s, e);
    EntryNames(s, e, StepId, stepId);
    if !CreatesStep(e, stepId) {
      assert StepStands(written, stepId);
      StandingWasCreated(written, stepId);
    }
  }

  lemma StandingWasCreated(written: seq<Entry>, stepId: Id)
    requires StepStands(written, stepId)
    ensures exists e :: e in written && OnStep(e, stepId)
  {
    var k :| 0 <= k < |written| && CreatesStep(written[k], stepId) && forall j :: k < j < |written| ==> !Drops(written[j], stepId);
    assert written[k] in written && OnStep(written[k], stepId);
  }

  /** An attempt that is changed has been spoken of before. */
  lemma ChangedWasCreated(step: Step, after: Step, written: seq<Entry>, stepId: Id, attemptId: Id, event: AttemptEvent)
    requires StepAsWritten(step, written, stepId) && !event.AttemptCreated?
    requires StepChanges(step, OfAttempt(attemptId, event), after)
    ensures exists x :: x in written && OnAttempt(x, stepId, attemptId)
  {
    var k :| 0 <= k < |step.attempts| && Replaces(step, k, attemptId, event, after);
    assert AttemptsOf(written, stepId)[k] == attemptId;
    ListedWereCreated(written, stepId, attemptId);
  }

  lemma AttemptIsCreated(s: Session, written: seq<Entry>, e: Entry, stepId: Id, attemptId: Id)
    requires PlanAsWritten(s, written) && ChildrenClaimed(s) && Apply(s, e).Ok? && OnAttempt(e, stepId, attemptId)
    ensures (AttemptId, attemptId) in Apply(s, e).value.stableIds
  {
    EntryNames(s, e, AttemptId, attemptId);
    if !CreatesAttempt(e, stepId) {
      EntryMovesPlan(s, e);
      OldAttemptIsCreated(s, written, e, Apply(s, e).value, stepId, attemptId);
    }
  }

  lemma OldAttemptIsCreated(s: Session, written: seq<Entry>, e: Entry, t: Session, stepId: Id, attemptId: Id)
    requires PlanAsWritten(s, written) && PlanMoves(s, e, t) && OnAttempt(e, stepId, attemptId) && !CreatesAttempt(e, stepId)
    ensures (AttemptId, attemptId) in s.stableIds
  {
    ChangedWasCreated(s.plan.value.steps[stepId], t.plan.value.steps[stepId], written, stepId, attemptId, Said(e));
  }

  lemma OnlyCreatedStays(s: Session, written: seq<Entry>, e: Entry)
    requires PlanAsWritten(s, written) && ChildrenClaimed(s) && Apply(s, e).Ok?
    ensures OnlyCreated(Apply(s, e).value.stableIds, written + [e])
  {
    EntryKeepsClaims(s, e);
    Last(written, e);
    if e.data.OfPlan? && e.data.event.OfStep? {
      StepIsCreated(s, written, e, e.data.event.stepId);
      if e.data.event.change.OfAttempt? {
        AttemptIsCreated(s, written, e, e.data.event.stepId, e.data.event.change.attemptId);
      }
    }
  }

  lemma PlanStaysAsWritten(s: Session, written: seq<Entry>, e: Entry)
    requires PlanAsWritten(s, written) && ChildrenClaimed(s) && Apply(s, e).Ok?
    ensures PlanAsWritten(Apply(s, e).value, written + [e])
  {
    var t := Apply(s, e).value;
    EntryMovesPlan(s, e);
    OutlineStaysAsWritten(s.plan, t.plan, written, e);
    OnlyCreatedStays(s, written, e);
    forall id ensures t.plan.Some? && id in t.plan.value.steps <==> StepStands(written + [e], id) {
      StandingStays(s, written, e, t, id);
    }
    forall id | t.plan.Some? && id in t.plan.value.steps ensures StepAsWritten(t.plan.value.steps[id], written + [e], id) {
      StepsStayAsWritten(s, written, e, t, id);
    }
  }

  lemma FirstHasNoPlan(e: Entry)
    requires Begin(e).Ok?
    ensures PlanAsWritten(Begin(e).value, [e])
  {
    forall id ensures !StepStands([e], id) {
    }
  }

  lemma {:induction false} ReplayPlan(first: Session, entries: seq<Entry>, n: nat)
    requires 1 <= n <= |entries| && Replay(first, entries, 1, n).Ok?
    requires AsWritten(first, entries[..1]) && PlanAsWritten(first, entries[..1])
    ensures PlanAsWritten(Replay(first, entries, 1, n).value, entries[..n])
  {
    if n > 1 {
      ReplayPlan(first, entries, n - 1);
      ReplayAsWritten(first, entries, n - 1);
      PlanStaysAsWritten(Replay(first, entries, 1, n - 1).value, entries[..n - 1], entries[n - 1]);
      assert entries[..n] == entries[..n - 1] + [entries[n - 1]];
    }
  }

  /**
   The plan rebuilt from an accepted journal is as its entries say: it holds the steps created since the plan was and
   carried by every revision since; each step and each attempt is in the state last given to it; and an attempt's
   number, child run, execution, result and verifications are those recorded for it.
  */
  lemma PlanIsRead(entries: seq<Entry>, n: nat)
    requires n <= |entries| && After(entries, n).Ok?
    ensures PlanAsWritten(After(entries, n).value, entries[..n])
  {
    assert entries[..1] == [entries[0]];
    FirstAsWritten(entries[0]);
    FirstHasNoPlan(entries[0]);
    ReplayPlan(Begin(entries[0]).value, entries, n);
  }
}
