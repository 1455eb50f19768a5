/**
 Success in a plan is earned: which journals guarantee that every succeeded step holds a verified
 attempt, and why later entries cannot touch that attempt.
*/
module PlanEvidence {
  import opened Wrappers
  import opened SessionPlan
  import opened SessionReducer
  import opened PlanDependencies
  import opened Graphs

  /** States that an attempt reaches only after its execution was recorded as a success. */
  predicate AfterSuccess(state: AttemptState) {
    state in {ExecutionSucceeded, AttemptState.Verifying, Verified, Rejected}
  }

  ghost predicate AttemptEarned(a: Attempt) {
    && (AfterSuccess(a.state) ==> a.result.Some? && a.result.value.status.Success?)
    && (a.state.Verified? ==> a.verifications != [] && AllPassed(a.verifications))
  }

  /** An attempt that proves its step: verified, recorded as a success, and passed by every check made. */
  ghost predicate Proves(a: Attempt) {
    && a.state.Verified?
    && a.result.Some? && a.result.value.status.Success?
    && a.verifications != [] && AllPassed(a.verifications)
  }

  ghost predicate Proved(step: Step) {
    exists k :: 0 <= k < |step.attempts| && Proves(step.attempts[k])
  }

  ghost predicate StepEarned(step: Step) {
    && (forall k :: 0 <= k < |step.attempts| ==> AttemptEarned(step.attempts[k]))
    && (step.state.Succeeded? ==> Proved(step))
  }

  ghost predicate StepsEarned(steps: map<Id, Step>) {
    forall id :: id in steps ==> StepEarned(steps[id])
  }

  ghost predicate Earned(s: Session) {
    s.plan.Some? ==> StepsEarned(s.plan.value.steps)
  }

  /** Entries that claim an outcome at creation: a succeeded step, or an attempt past its execution. */
  predicate Unearned(data: EntryData) {
    data.OfPlan? && data.event.OfStep? && UnearnedStep(data.event.change)
  }

  predicate UnearnedStep(change: StepEvent) {
    || (change.StepCreated? && change.step.state.Succeeded?)
    || (change.OfAttempt? && change.change.AttemptCreated? && AfterSuccess(change.change.state))
  }

  // ---------- One event ----------

  lemma {:induction false} LatestIsMember(attempts: seq<Attempt>)
    ensures Latest(attempts).Some? ==> exists k :: 0 <= k < |attempts| && attempts[k] == Latest(attempts).value
  {
    if attempts != [] {
      LatestIsMember(attempts[..|attempts| - 1]);
    }
  }

  lemma StepChangeKeepsEarned(step: Step, state: StepState, reason: Option<RetryReason>, newAttemptId: Option<Id>,
                              errorCode: Option<string>)
    requires StepEarned(step) && ChangeStepState(step, state, reason, newAttemptId, errorCode).Ok?
    ensures StepEarned(ChangeStepState(step, state, reason, newAttemptId, errorCode).value)
  {
    var after := ChangeStepState(step, state, reason, newAttemptId, errorCode).value;
    if state.Succeeded? {
      LatestIsMember(step.attempts);
      var k :| 0 <= k < |step.attempts| && step.attempts[k] == Latest(step.attempts).value;
      assert Proves(after.attempts[k]);
    }
  }

  /** Adding an attempt keeps a step earned exactly if the new attempt claims nothing. */
  lemma NewAttemptKeepsEarned(step: Step, attemptId: Id, ordinal: int, state: AttemptState, childRunId: Option<Id>)
    requires StepEarned(step) && AddAttempt(step, attemptId, ordinal, state, childRunId).Ok?
    ensures StepEarned(AddAttempt(step, attemptId, ordinal, state, childRunId).value) <==> !AfterSuccess(state)
  {
    var after := AddAttempt(step, attemptId, ordinal, state, childRunId).value;
    assert !AttemptEarned(after.attempts[|step.attempts|]) <==> AfterSuccess(state);
    if step.state.Succeeded? {
      var k :| 0 <= k < |step.attempts| && Proves(step.attempts[k]);
      assert Proves(after.attempts[k]);
    }
  }

  /** Nothing changes a verified attempt, and every other change keeps what attempts have earned. */
  lemma ChangedAttemptEarned(parent: Option<Id>, event: AttemptEvent, step: Step, attempt: Attempt)
    requires !event.AttemptCreated? && AttemptEarned(attempt) && ChangedAttempt(parent, event, step, attempt).Ok?
    ensures AttemptEarned(ChangedAttempt(parent, event, step, attempt).value) && !attempt.state.Verified?
  {
  }

  lemma AttemptChangeKeepsEarned(parent: Option<Id>, event: AttemptEvent, step: Step, attemptId: Id)
    requires StepEarned(step) && !event.AttemptCreated? && HasAttempt(step, attemptId)
    requires ChangedAttempt(parent, event, step, AttemptOf(step, attemptId)).Ok?
    ensures StepEarned(WithAttempt(step, ChangedAttempt(parent, event, step, AttemptOf(step, attemptId)).value))
  {
    var at := Position(step.attempts, attemptId);
    var changed := ChangedAttempt(parent, event, step, step.attempts[at]).value;
    var after := WithAttempt(step, changed);
    assert AttemptEarned(step.attempts[at]);
    ChangedAttemptEarned(parent, event, step, step.attempts[at]);
    forall k | 0 <= k < |after.attempts| ensures AttemptEarned(after.attempts[k]) {
      assert AttemptEarned(step.attempts[k]);
    }
    if step.state.Succeeded? {
      var k :| 0 <= k < |step.attempts| && Proves(step.attempts[k]);
      assert Proves(after.attempts[k]);
    }
  }

  lemma OneStepEarned(plan: Plan, stepId: Id, step: Step)
    requires StepsEarned(plan.steps)
    ensures StepsEarned(WithStep(plan, stepId, step).steps) <==> StepEarned(step)
  {
    var steps := WithStep(plan, stepId, step).steps;
    assert steps[stepId] == step;
    forall id | id in steps && id != stepId ensures StepEarned(steps[id]) {
      assert StepEarned(plan.steps[id]);
    }
  }

  lemma PlanUntouched(before: Session, e: Entry)
    requires Apply(before, e).Ok? && !e.data.OfPlan?
    ensures Apply(before, e).value.plan == before.plan
  {
  }

  /** An entry about the plan is its event, applied after the envelope's checks. */
  lemma PlanTouched(before: Session, e: Entry)
    requires Apply(before, e).Ok? && e.data.OfPlan?
    ensures Envelope(before, e).Ok? && Envelope(before, e).value.plan == before.plan
    ensures Envelope(before, e).value.stableIds == before.stableIds
    ensures Apply(before, e) == ApplyPlanEvent(Envelope(before, e).value, e, e.data.planId, e.data.planRevision, e.data.event)
  {
  }

  lemma AttemptEventEarned(s: Session, e: Entry, stepId: Id, attemptId: Id, event: AttemptEvent)
    requires s.plan.Some? && stepId in s.plan.value.steps && Earned(s)
    requires ApplyAttemptEvent(s, e, stepId, attemptId, event).Ok?
    ensures Earned(ApplyAttemptEvent(s, e, stepId, attemptId, event).value)
       <==> !(event.AttemptCreated? && AfterSuccess(event.state))
  {
    var step := s.plan.value.steps[stepId];
    assert StepEarned(step);
    if event.AttemptCreated? {
      NewAttemptKeepsEarned(step, attemptId, event.ordinal, event.state, event.childRunId);
      OneStepEarned(s.plan.value, stepId, AddAttempt(step, attemptId, event.ordinal, event.state, event.childRunId).value);
    } else {
      AttemptChangeKeepsEarned(e.parentRunId, event, step, attemptId);
      var changed := ChangedAttempt(e.parentRunId, event, step, AttemptOf(step, attemptId)).value;
      OneStepEarned(s.plan.value, stepId, WithAttempt(step, changed));
    }
  }

  lemma StepEventEarned(s: Session, e: Entry, stepId: Id, change: StepEvent)
    requires s.plan.Some? && Earned(s) && ApplyStepEvent(s, e, stepId, change).Ok?
    ensures Earned(ApplyStepEvent(s, e, stepId, change).value) <==> !UnearnedStep(change)
  {
    match change
    case StepCreated(n) =>
      OneStepEarned(s.plan.value, stepId, Step(n.title, n.order, n.state, n.dependencies, n.maxAttempts, [], None));
    case StepStateChanged(state, reason, newAttemptId, errorCode) =>
      var step := s.plan.value.steps[stepId];
      assert StepEarned(step);
      StepChangeKeepsEarned(step, state, reason, newAttemptId, errorCode);
      OneStepEarned(s.plan.value, stepId, ChangeStepState(step, state, reason, newAttemptId, errorCode).value);
    case OfAttempt(attemptId, event) => AttemptEventEarned(s, e, stepId, attemptId, event);
  }

  lemma PlanEventEarned(before: Session, e: Entry, planId: Id, revision: int, event: PlanEvent)
    requires Earned(before) && ApplyPlanEvent(before, e, planId, revision, event).Ok?
    ensures Earned(ApplyPlanEvent(before, e, planId, revision, event).value)
       <==> !(event.OfStep? && UnearnedStep(event.change))
  {
    var s := ClaimVerification(before, event).value;
    match event
    case PlanRevised(_, _, proofs) =>
      forall id | id in Carried(s.plan.value, proofs) ensures StepEarned(Carried(s.plan.value, proofs)[id]) {
        assert StepEarned(s.plan.value.steps[id]);
      }
    case OfStep(stepId, change) => StepEventEarned(s, e, stepId, change);
    case _ =>
  }

  /** An accepted entry keeps all success earned exactly if it does not claim an outcome at creation. */
  lemma EntryKeepsEarned(before: Session, e: Entry)
    requires Earned(before) && Apply(before, e).Ok?
    ensures Earned(Apply(before, e).value) <==> !Unearned(e.data)
  {
    if e.data.OfPlan? {
      PlanTouched(before, e);
      PlanEventEarned(Envelope(before, e).value, e, e.data.planId, e.data.planRevision, e.data.event);
    } else {
      PlanUntouched(before, e);
    }
  }

  // ---------- Whole journals ----------

  /**
   In every prefix of every journal whose steps and attempts claim no outcome at creation, each
   succeeded step holds a verified attempt with a recorded success and only passed verifications.
  */
  lemma SuccessIsEarned(entries: seq<Entry>, n: nat)
    requires n <= |entries| && After(entries, n).Ok?
    requires forall i :: 0 <= i < n ==> !Unearned(entries[i].data)
    ensures Earned(After(entries, n).value)
  {
    ReplayEarned(Begin(entries[0]).value, entries, 1, n);
  }

  lemma {:induction false} ReplayEarned(s: Session, entries: seq<Entry>, i: nat, j: nat)
    requires i <= j <= |entries| && Replay(s, entries, i, j).Ok? && Earned(s)
    requires forall k :: i <= k < j ==> !Unearned(entries[k].data)
    ensures Earned(Replay(s, entries, i, j).value)
    decreases j
  {
    if i < j {
      ReplayEarned(s, entries, i, j - 1);
      EntryKeepsEarned(Replay(s, entries, i, j - 1).value, entries[j - 1]);
    }
  }

  function Bare(entryId: Id, sequence: int, data: EntryData): Entry {
    Entry(entryId, "s", sequence, sequence, sequence, None, None, data)
  }

  /** The reducer itself accepts a step that is created as succeeded: earning it is up to the writer. */
  lemma ClaimedSuccessIsAccepted() returns (entries: seq<Entry>)
    ensures Reduce(entries).Ok? && !Earned(Reduce(entries).value)
  {
    var e1 := Bare("a", 1, SessionCreated);
    var e2 := Bare("bb", 2, OfPlan("p", 1, PlanCreated("o", PlanState.Draft)));
    var step := NewStep("t", 0, StepState.Succeeded, [], 1);
    var e3 := Bare("ccc", 3, OfPlan("p", 1, OfStep("t", StepCreated(step))));
    entries := [e1, e2, e3];
    assert |e1.entryId| != |e2.entryId| && |e1.entryId| != |e3.entryId| && |e2.entryId| != |e3.entryId|;
    SmallestPlan(e1, e2, e3, step);
    assert !StepEarned(Reduce(entries).value.plan.value.steps["t"]);
  }

  // ---------- Verified attempts are final ----------

  /** Every step of the plan has claimed its id, so no other step can ever take it. */
  ghost predicate StepsClaimed(s: Session) {
    s.plan.Some? ==> forall id :: id in s.plan.value.steps ==> (StepId, id) in s.stableIds
  }

  lemma EntryKeepsClaims(before: Session, e: Entry)
    requires Apply(before, e).Ok?
    ensures before.stableIds <= Apply(before, e).value.stableIds
  {
    if e.data.OfPlan? {
      PlanTouched(before, e);
      PlanEventKeepsClaims(Envelope(before, e).value, e, e.data.planId, e.data.planRevision, e.data.event);
    }
  }

  lemma PlanEventKeepsClaims(s: Session, e: Entry, planId: Id, revision: int, event: PlanEvent)
    requires ApplyPlanEvent(s, e, planId, revision, event).Ok?
    ensures s.stableIds <= ApplyPlanEvent(s, e, planId, revision, event).value.stableIds
  {
  }

  lemma EntryKeepsStepsClaimed(before: Session, e: Entry)
    requires Apply(before, e).Ok? && StepsClaimed(before)
    ensures StepsClaimed(Apply(before, e).value)
  {
    EntryKeepsClaims(before, e);
    if e.data.OfPlan? {
      PlanTouched(before, e);
      PlanEventKeepsStepsClaimed(Envelope(before, e).value, e, e.data.planId, e.data.planRevision, e.data.event);
    } else {
      PlanUntouched(before, e);
    }
  }

  lemma PlanEventKeepsStepsClaimed(s: Session, e: Entry, planId: Id, revision: int, event: PlanEvent)
    requires ApplyPlanEvent(s, e, planId, revision, event).Ok? && StepsClaimed(s)
    ensures StepsClaimed(ApplyPlanEvent(s, e, planId, revision, event).value)
  {
  }

  lemma {:induction false} ReplayClaimed(s: Session, entries: seq<Entry>, i: nat, j: nat)
    requires i <= j <= |entries| && Replay(s, entries, i, j).Ok? && StepsClaimed(s)
    ensures StepsClaimed(Replay(s, entries, i, j).value)
    decreases j
  {
    if i < j {
      ReplayClaimed(s, entries, i, j - 1);
      EntryKeepsStepsClaimed(Replay(s, entries, i, j - 1).value, entries[j - 1]);
    }
  }

  /** As long as the step is in the plan, its attempt at this position is the given one. */
  ghost predicate Holds(s: Session, stepId: Id, k: nat, a: Attempt) {
    && (StepId, stepId) in s.stableIds
    && (s.plan.Some? && stepId in s.plan.value.steps ==>
        k < |s.plan.value.steps[stepId].attempts| && s.plan.value.steps[stepId].attempts[k] == a)
  }

  lemma AttemptEventKeepsVerified(s: Session, e: Entry, stepId: Id, attemptId: Id, event: AttemptEvent, k: nat, a: Attempt)
    requires s.plan.Some? && stepId in s.plan.value.steps && ApplyAttemptEvent(s, e, stepId, attemptId, event).Ok?
    requires k < |s.plan.value.steps[stepId].attempts| && s.plan.value.steps[stepId].attempts[k] == a && a.state.Verified?
    ensures var after := ApplyAttemptEvent(s, e, stepId, attemptId, event).value.plan.value;
      stepId in after.steps && k < |after.steps[stepId].attempts| && after.steps[stepId].attempts[k] == a
  {
    var step := s.plan.value.steps[stepId];
    if !event.AttemptCreated? {
      var at := Position(step.attempts, attemptId);
      assert ChangedAttempt(e.parentRunId, event, step, step.attempts[at]).Ok?;
      assert at != k;
    }
  }

  lemma PlanEventKeepsVerified(before: Session, e: Entry, planId: Id, revision: int, event: PlanEvent,
                               stepId: Id, k: nat, a: Attempt)
    requires ApplyPlanEvent(before, e, planId, revision, event).Ok? && Holds(before, stepId, k, a) && a.state.Verified?
    requires before.stableIds <= ApplyPlanEvent(before, e, planId, revision, event).value.stableIds
    ensures Holds(ApplyPlanEvent(before, e, planId, revision, event).value, stepId, k, a)
  {
    if event.OfStep? && event.stepId == stepId && event.change.OfAttempt? {
      var s := ClaimVerification(before, event).value;
      AttemptEventKeepsVerified(s, e, stepId, event.change.attemptId, event.change.change, k, a);
    }
  }

  lemma EntryKeepsVerified(before: Session, e: Entry, stepId: Id, k: nat, a: Attempt)
    requires Apply(before, e).Ok? && Holds(before, stepId, k, a) && a.state.Verified?
    ensures Holds(Apply(before, e).value, stepId, k, a)
  {
    EntryKeepsClaims(before, e);
    if e.data.OfPlan? {
      PlanTouched(before, e);
      PlanEventKeepsVerified(Envelope(before, e).value, e, e.data.planId, e.data.planRevision, e.data.event, stepId, k, a);
    } else {
      PlanUntouched(before, e);
    }
  }

  lemma {:induction false} ReplayKeepsVerified(s: Session, entries: seq<Entry>, i: nat, j: nat,
                                               stepId: Id, k: nat, a: Attempt)
    requires i <= j <= |entries| && Replay(s, entries, i, j).Ok?
    requires Holds(s, stepId, k, a) && a.state.Verified?
    ensures Holds(Replay(s, entries, i, j).value, stepId, k, a)
    decreases j
  {
    if i < j {
      ReplayKeepsVerified(s, entries, i, j - 1, stepId, k, a);
      EntryKeepsVerified(Replay(s, entries, i, j - 1).value, entries[j - 1], stepId, k, a);
    }
  }

  ghost predicate HasVerified(s: Session, stepId: Id, k: nat, a: Attempt) {
    && s.plan.Some? && stepId in s.plan.value.steps && k < |s.plan.value.steps[stepId].attempts|
    && s.plan.value.steps[stepId].attempts[k] == a && a.state.Verified?
  }

  /**
   A verified attempt is never altered: whatever is appended, revisions of the plan included, the step
   still holds the very same attempt, or is gone from the plan for good.
  */
  lemma VerifiedIsFinal(entries: seq<Entry>, n: nat, m: nat, stepId: Id, k: nat, a: Attempt)
    requires 1 <= n <= m <= |entries| && After(entries, m).Ok?
    requires After(entries, n).Ok? && HasVerified(After(entries, n).value, stepId, k, a)
    ensures Holds(After(entries, m).value, stepId, k, a)
  {
    var first := Begin(entries[0]).value;
    ReplayClaimed(first, entries, 1, n);
    ReplaySplits(first, entries, 1, n, m);
    ReplayKeepsVerified(After(entries, n).value, entries, n, m, stepId, k, a);
  }

  /** Over two moments of one journal: a step that had succeeded keeps its proof while it is in the plan. */
  lemma ProofIsKept(entries: seq<Entry>, n: nat, m: nat, stepId: Id)
    requires 1 <= n <= m <= |entries| && After(entries, n).Ok? && After(entries, m).Ok?
    requires forall i :: 0 <= i < n ==> !Unearned(entries[i].data)
    requires var s, t := After(entries, n).value, After(entries, m).value;
      s.plan.Some? && stepId in s.plan.value.steps && s.plan.value.steps[stepId].state.Succeeded?
      && t.plan.Some? && stepId in t.plan.value.steps
    ensures Proved(After(entries, m).value.plan.value.steps[stepId])
  {
    SuccessIsEarned(entries, n);
    var s, t := After(entries, n).value, After(entries, m).value;
    assert StepEarned(s.plan.value.steps[stepId]);
    var k :| 0 <= k < |s.plan.value.steps[stepId].attempts| && Proves(s.plan.value.steps[stepId].attempts[k]);
    VerifiedIsFinal(entries, n, m, stepId, k, s.plan.value.steps[stepId].attempts[k]);
    assert Proves(t.plan.value.steps[stepId].attempts[k]);
  }

  // ---------- Attempts are numbered ----------

  /** The attempts of a step are numbered from one in order of creation, and no more than it allows. */
  ghost predicate Numbered(step: Step) {
    && |step.attempts| <= step.maxAttempts
    && forall k :: 0 <= k < |step.attempts| ==> step.attempts[k].ordinal == k + 1
  }

  ghost predicate AllNumbered(s: Session) {
    s.plan.Some? ==> forall id :: id in s.plan.value.steps ==> Numbered(s.plan.value.steps[id])
  }

  lemma ChangedAttemptKeepsOrdinal(parent: Option<Id>, event: AttemptEvent, step: Step, attempt: Attempt)
    requires !event.AttemptCreated? && ChangedAttempt(parent, event, step, attempt).Ok?
    ensures ChangedAttempt(parent, event, step, attempt).value.ordinal == attempt.ordinal
  {
  }

  lemma AttemptEventKeepsNumbered(s: Session, e: Entry, stepId: Id, attemptId: Id, event: AttemptEvent)
    requires s.plan.Some? && stepId in s.plan.value.steps && AllNumbered(s)
    requires ApplyAttemptEvent(s, e, stepId, attemptId, event).Ok?
    ensures AllNumbered(ApplyAttemptEvent(s, e, stepId, attemptId, event).value)
  {
    var step := s.plan.value.steps[stepId];
    assert Numbered(step);
    if !event.AttemptCreated? {
      ChangedAttemptKeepsOrdinal(e.parentRunId, event, step, AttemptOf(step, attemptId));
    }
  }

  lemma PlanEventKeepsNumbered(before: Session, e: Entry, planId: Id, revision: int, event: PlanEvent)
    requires AllNumbered(before) && ApplyPlanEvent(before, e, planId, revision, event).Ok?
    ensures AllNumbered(ApplyPlanEvent(before, e, planId, revision, event).value)
  {
    var s := ClaimVerification(before, event).value;
    if event.OfStep? && event.change.OfAttempt? {
      AttemptEventKeepsNumbered(s, e, event.stepId, event.change.attemptId, event.change.change);
    } else if event.OfStep? && event.change.StepStateChanged? {
      assert Numbered(s.plan.value.steps[event.stepId]);
    }
  }

  lemma {:induction false} ReplayNumbered(s: Session, entries: seq<Entry>, i: nat, j: nat)
    requires i <= j <= |entries| && Replay(s, entries, i, j).Ok? && AllNumbered(s)
    ensures AllNumbered(Replay(s, entries, i, j).value)
    decreases j
  {
    if i < j {
      ReplayNumbered(s, entries, i, j - 1);
      var before, e := Replay(s, entries, i, j - 1).value, entries[j - 1];
      if e.data.OfPlan? {
        PlanTouched(before, e);
        PlanEventKeepsNumbered(Envelope(before, e).value, e, e.data.planId, e.data.planRevision, e.data.event);
      } else {
        PlanUntouched(before, e);
      }
    }
  }

  lemma {:induction false} LatestIsLast(attempts: seq<Attempt>)
    requires forall k :: 0 <= k < |attempts| ==> attempts[k].ordinal == k + 1
    ensures Latest(attempts) == if attempts == [] then None else Some(attempts[|attempts| - 1])
  {
    if attempts != [] {
      LatestIsLast(attempts[..|attempts| - 1]);
    }
  }

  /** In every journal, attempts are numbered from one and bounded, and the latest is the one created last. */
  lemma AttemptsAreNumbered(entries: seq<Entry>, n: nat, stepId: Id)
    requires n <= |entries| && After(entries, n).Ok?
    requires var s := After(entries, n).value; s.plan.Some? && stepId in s.plan.value.steps
    ensures var step := After(entries, n).value.plan.value.steps[stepId];
      Numbered(step) && (step.attempts != [] ==> Latest(step.attempts) == Some(step.attempts[|step.attempts| - 1]))
  {
    ReplayNumbered(Begin(entries[0]).value, entries, 1, n);
    var step := After(entries, n).value.plan.value.steps[stepId];
    assert Numbered(step);
    LatestIsLast(step.attempts);
  }

  // ---------- Revisions ----------

  /**
   A revision keeps exactly the steps it proves reusable, unchanged: each succeeded with a verified
   latest attempt on an unchanged input, and everything a kept step depends on is kept as well, so a
   sound dependency graph stays sound.
  */
  lemma RevisionKeepsProvenWork(plan: Plan, toRevision: int, objective: string, proofs: seq<ReuseProof>)
    requires RevisePlan(plan, toRevision, objective, proofs).Ok?
    ensures var steps := RevisePlan(plan, toRevision, objective, proofs).value.steps;
      && (forall id :: id in steps <==> Proven(proofs, id))
      && (forall id :: id in steps ==> Kept(plan, proofs, id) && steps[id] == plan.steps[id])
      && DependenciesExist(Dependencies(steps))
      && (Acyclic(DependencyArcs(Dependencies(plan.steps))) ==> Sound(Dependencies(steps)))
  {
    var steps := RevisePlan(plan, toRevision, objective, proofs).value.steps;
    forall id ensures Proven(proofs, id) ==> id in plan.steps && Kept(plan, proofs, id) {
      if Proven(proofs, id) {
        var k :| 0 <= k < |proofs| && proofs[k].stepId == id;
        assert Reusable(plan, proofs, proofs[k]);
      }
    }
    forall id, d | id in steps && d in Dependencies(steps)[id] ensures d in steps {
      assert Kept(plan, proofs, id);
      var j :| 0 <= j < |plan.steps[id].dependencies| && plan.steps[id].dependencies[j] == d;
    }
    if Acyclic(DependencyArcs(Dependencies(plan.steps))) {
      FewerArcs(DependencyArcs(Dependencies(plan.steps)), DependencyArcs(Dependencies(steps)));
    }
  }

  ghost predicate Kept(plan: Plan, proofs: seq<ReuseProof>, id: Id) {
    && id in plan.steps && plan.steps[id].state.Succeeded? && LatestIs(plan.steps[id], Verified)
    && forall j :: 0 <= j < |plan.steps[id].dependencies| ==> Proven(proofs, plan.steps[id].dependencies[j])
  }
}
