/**
 A session read off its journal entry by entry: what its entries say of lifecycle, runs, leaf, forks,
 checkpoint and identifiers is what the reducer's projection holds, and which entries may follow.
*/
module SessionHistory {
  import opened Wrappers
  import opened SessionPlan
  import opened SessionReducer
  import opened PlanEvidence

  // ---------- What the entries say ----------

  ghost predicate Starts(e: Entry, run: Id) {
    e.data.RunStarted? && e.runId == Some(run)
  }

  ghost predicate Ends(e: Entry, run: Id) {
    e.data.RunTerminal? && e.runId == Some(run)
  }

  ghost predicate Started(written: seq<Entry>, run: Id) {
    exists e :: e in written && Starts(e, run)
  }

  ghost predicate Ended(written: seq<Entry>, run: Id) {
    exists e :: e in written && Ends(e, run)
  }

  /** A run is known exactly if it was started; it has the status it was ended with, and runs until then. */
  ghost predicate RunAsWritten(s: Session, written: seq<Entry>, run: Id) {
    && (run in s.runs <==> Started(written, run))
    && (forall e :: e in written && Ends(e, run) ==> run in s.runs && s.runs[run] == e.data.status)
    && (run in s.runs && !Ended(written, run) ==> s.runs[run] == RunState.Running)
    && (s.activeRun == Some(run) <==> Started(written, run) && !Ended(written, run))
  }

  predicate Turns(e: Entry) {
    e.data.SessionClosed? || e.data.SessionReopened? || e.data.SessionDeleted?
  }

  predicate MovesLeaf(e: Entry) {
    (e.data.MetadataUpdated? && e.data.activeLeafId.Some?) || e.data.SessionForked?
  }

  predicate Checkpoints(e: Entry) {
    e.data.CompactionCreated?
  }

  /** The entry at `k` is the last of its kind. */
  ghost predicate LastOf(kind: Entry -> bool, written: seq<Entry>, k: nat) {
    k < |written| && kind(written[k]) && forall j :: k < j < |written| ==> !kind(written[j])
  }

  ghost predicate NoneOf(kind: Entry -> bool, written: seq<Entry>) {
    forall e :: e in written ==> !kind(e)
  }

  ghost predicate LifecycleAsWritten(s: Session, written: seq<Entry>) {
    && (NoneOf(Turns, written) ==> s.lifecycle == Open)
    && forall k: nat :: LastOf(Turns, written, k) ==>
         match written[k].data
         case SessionClosed => s.lifecycle == Closed
         case SessionReopened => s.lifecycle == Open
         case _ => s.lifecycle == Deleted
  }

  ghost predicate LeafAsWritten(s: Session, written: seq<Entry>) {
    && (NoneOf(MovesLeaf, written) ==> s.activeLeafId == s.sessionId)
    && forall k: nat :: LastOf(MovesLeaf, written, k) ==>
         match written[k].data
         case MetadataUpdated(leaf) => leaf == Some(s.activeLeafId)
         case SessionForked(child, _) => s.activeLeafId == child
         case _ => false
  }

  ghost predicate CheckpointAsWritten(s: Session, written: seq<Entry>) {
    && (NoneOf(Checkpoints, written) ==> s.checkpoint.None?)
    && forall k: nat :: LastOf(Checkpoints, written, k) ==>
         var c := written[k].data.compaction;
         s.checkpoint == Some(Checkpoint(c.checkpointId, written[k].entryId, c.coveredStart, c.coveredEnd, c.retainedStart,
                                         c.previousCheckpointId, c.summary))
  }

  ghost predicate ForkedTo(written: seq<Entry>, child: Id) {
    exists e :: e in written && e.data.SessionForked? && e.data.childSessionId == child
  }

  ghost predicate Written(written: seq<Entry>, id: Id) {
    exists e :: e in written && e.entryId == id
  }

  /** The identifiers that an entry brings into use; only a child run may be named twice, by its attempt and its result. */
  ghost predicate Names(e: Entry, kind: Kind, id: Id) {
    match e.data
    case MessageCommitted(message) => kind == MessageId && id == message
    case RunStarted(request) => (kind == RunId && e.runId == Some(id)) || (kind == ClientRequestId && id == request)
    case Noted(k, noted) => kind == k && id == noted
    case CompactionCreated(c) => kind == CheckpointId && id == c.checkpointId
    case OfPlan(plan, _, PlanCreated(_, _)) => kind == PlanId && id == plan
    case OfPlan(_, _, OfStep(step, StepCreated(_))) => kind == StepId && id == step
    case OfPlan(_, _, OfStep(_, OfAttempt(attempt, AttemptCreated(_, _, child)))) =>
      (kind == AttemptId && id == attempt) || (kind == ChildRunId && child == Some(id))
    case OfPlan(_, _, OfStep(_, OfAttempt(_, ResultRecorded(child, _)))) => kind == ChildRunId && id == child
    case OfPlan(_, _, OfStep(_, OfAttempt(_, VerificationRecorded(v)))) => kind == VerificationId && id == v.verificationId
    case _ => false
  }

  ghost predicate Named(written: seq<Entry>, kind: Kind, id: Id) {
    exists e :: e in written && Names(e, kind, id)
  }

  ghost predicate IdAsWritten(s: Session, written: seq<Entry>, kind: Kind, id: Id) {
    (kind, id) in s.stableIds <==> Named(written, kind, id)
  }

  /** The child runs of a step's attempts have claimed their ids. */
  ghost predicate ChildrenIn(step: Step, ids: set<(Kind, Id)>) {
    forall k :: 0 <= k < |step.attempts| && step.attempts[k].childRunId.Some? ==>
      (ChildRunId, step.attempts[k].childRunId.value) in ids
  }

  ghost predicate ChildrenClaimed(s: Session) {
    s.plan.Some? ==> forall id :: id in s.plan.value.steps ==> ChildrenIn(s.plan.value.steps[id], s.stableIds)
  }

  ghost predicate EnvelopeAsWritten(s: Session, written: seq<Entry>) {
    && written != []
    && s.sequence == |written|
    && s.sessionId == written[0].sessionId
    && s.revision == written[|written| - 1].revision
    && s.timestamp == written[|written| - 1].timestamp
    && (forall id :: id in s.entryIds <==> Written(written, id))
    && (forall child :: child in s.forked <==> ForkedTo(written, child))
  }

  ghost predicate AsWritten(s: Session, written: seq<Entry>) {
    && EnvelopeAsWritten(s, written)
    && (forall run :: RunAsWritten(s, written, run))
    && LifecycleAsWritten(s, written)
    && LeafAsWritten(s, written)
    && CheckpointAsWritten(s, written)
    && (forall kind, id :: IdAsWritten(s, written, kind, id))
    && ChildrenClaimed(s)
  }

  // ---------- One more entry ----------

  lemma Last(written: seq<Entry>, e: Entry)
    ensures forall x :: x in written + [e] <==> x in written || x == e
  {
  }

  lemma LastSnoc(kind: Entry -> bool, written: seq<Entry>, e: Entry)
    ensures kind(e) ==> forall k: nat :: LastOf(kind, written + [e], k) <==> k == |written|
    ensures !kind(e) ==> forall k: nat :: LastOf(kind, written + [e], k) <==> LastOf(kind, written, k)
    ensures NoneOf(kind, written + [e]) <==> NoneOf(kind, written) && !kind(e)
  {
    Last(written, e);
    var more := written + [e];
    forall k: nat | !kind(e) ensures LastOf(kind, more, k) <==> LastOf(kind, written, k) {
      if LastOf(kind, written, k) {
        assert forall j :: k < j < |more| ==> !kind(more[j]);
      }
      if LastOf(kind, more, k) {
        assert forall j :: k < j < |written| ==> !kind(written[j]) by {
          forall j | k < j < |written| ensures !kind(written[j]) {
            assert more[j] == written[j];
          }
        }
      }
    }
    if kind(e) {
      assert more[|written|] == e;
    }
  }

  /** A plan event changes nothing but the plan and the identifiers in use. */
  lemma PlanEventOnly(s: Session, e: Entry, planId: Id, revision: int, event: PlanEvent)
    requires ApplyPlanEvent(s, e, planId, revision, event).Ok?
    ensures var t := ApplyPlanEvent(s, e, planId, revision, event).value;
      t == s.(plan := t.plan, stableIds := t.stableIds)
  {
  }

  lemma EntryEnvelope(s: Session, e: Entry)
    requires Apply(s, e).Ok?
    ensures var t := Apply(s, e).value;
      && t.sessionId == s.sessionId == e.sessionId && t.sequence == e.sequence == s.sequence + 1
      && t.revision == e.revision && t.timestamp == e.timestamp
      && t.entryIds == s.entryIds + {e.entryId}
      && t.forked == (if e.data.SessionForked? then s.forked + {e.data.childSessionId} else s.forked)
  {
    if e.data.OfPlan? {
      PlanEventOnly(Envelope(s, e).value, e, e.data.planId, e.data.planRevision, e.data.event);
    }
  }

  lemma EntryLifecycle(s: Session, e: Entry)
    requires Apply(s, e).Ok?
    ensures var t := Apply(s, e).value;
      && (!Turns(e) ==> t.lifecycle == s.lifecycle)
      && (!MovesLeaf(e) ==> t.activeLeafId == s.activeLeafId)
      && (!Checkpoints(e) ==> t.checkpoint == s.checkpoint)
      && (!e.data.RunStarted? && !e.data.RunTerminal? ==> t.runs == s.runs && t.activeRun == s.activeRun)
  {
    if e.data.OfPlan? {
      PlanEventOnly(Envelope(s, e).value, e, e.data.planId, e.data.planRevision, e.data.event);
    }
  }

  // ---------- Each entry ----------

  lemma RunSnoc(written: seq<Entry>, e: Entry, run: Id)
    ensures Started(written + [e], run) <==> Started(written, run) || Starts(e, run)
    ensures Ended(written + [e], run) <==> Ended(written, run) || Ends(e, run)
    ensures forall x :: x in written + [e] && Ends(x, run) <==> (x in written && Ends(x, run)) || (x == e && Ends(e, run))
  {
    Last(written, e);
  }

  /** Starting claims an unused run id, and ending leaves no run active. */
  lemma EntryRuns(s: Session, e: Entry)
    requires Apply(s, e).Ok?
    ensures var t := Apply(s, e).value;
      && (e.data.RunStarted? ==>
            && s.activeRun.None? && e.runId.Some? && (RunId, e.runId.value) !in s.stableIds
            && t.activeRun == e.runId && t.runs == s.runs[e.runId.value := RunState.Running])
      && (e.data.RunTerminal? ==>
            && e.runId.Some? && s.activeRun == e.runId && e.runId.value in s.runs
            && t.activeRun.None? && t.runs == s.runs[e.runId.value := e.data.status])
  {
  }

  lemma RunStaysAsWritten(s: Session, written: seq<Entry>, e: Entry, run: Id)
    requires AsWritten(s, written) && Apply(s, e).Ok?
    ensures RunAsWritten(Apply(s, e).value, written + [e], run)
  {
    assert RunAsWritten(s, written, run);
    RunSnoc(written, e, run);
    if e.data.RunStarted? || e.data.RunTerminal? {
      EntryRuns(s, e);
      assert RunAsWritten(s, written, e.runId.value);
      assert IdAsWritten(s, written, RunId, e.runId.value);
      StartedIsNamed(written, e.runId.value);
    } else {
      EntryLifecycle(s, e);
    }
  }

  lemma StartedIsNamed(written: seq<Entry>, run: Id)
    ensures Started(written, run) ==> Named(written, RunId, run)
  {
    if e :| e in written && Starts(e, run) {
      assert Names(e, RunId, run);
    }
  }

  lemma LifecycleStaysAsWritten(s: Session, written: seq<Entry>, e: Entry)
    requires LifecycleAsWritten(s, written) && Apply(s, e).Ok?
    ensures LifecycleAsWritten(Apply(s, e).value, written + [e])
  {
    LastSnoc(Turns, written, e);
    EntryLifecycle(s, e);
  }

  lemma LeafStaysAsWritten(s: Session, written: seq<Entry>, e: Entry)
    requires LeafAsWritten(s, written) && Apply(s, e).Ok?
    ensures LeafAsWritten(Apply(s, e).value, written + [e])
  {
    LastSnoc(MovesLeaf, written, e);
    EntryLifecycle(s, e);
    EntryEnvelope(s, e);
  }

  lemma CheckpointStaysAsWritten(s: Session, written: seq<Entry>, e: Entry)
    requires CheckpointAsWritten(s, written) && Apply(s, e).Ok?
    ensures CheckpointAsWritten(Apply(s, e).value, written + [e])
  {
    LastSnoc(Checkpoints, written, e);
    EntryLifecycle(s, e);
  }

  lemma EnvelopeStaysAsWritten(s: Session, written: seq<Entry>, e: Entry)
    requires EnvelopeAsWritten(s, written) && Apply(s, e).Ok?
    ensures EnvelopeAsWritten(Apply(s, e).value, written + [e])
  {
    EntryEnvelope(s, e);
    Last(written, e);
    forall id ensures Written(written + [e], id) <==> Written(written, id) || e.entryId == id {
    }
    forall child ensures ForkedTo(written + [e], child)
                    <==> ForkedTo(written, child) || (e.data.SessionForked? && e.data.childSessionId == child) {
    }
  }

  // ---------- Identifiers ----------

  /** The new identifiers are those that the entry names, and only the child run of a result may have been in use. */
  ghost predicate NamesAdded(before: set<(Kind, Id)>, after: set<(Kind, Id)>, e: Entry, kind: Kind, id: Id) {
    && ((kind, id) in after <==> (kind, id) in before || Names(e, kind, id))
    && (Names(e, kind, id) && kind != ChildRunId ==> (kind, id) !in before)
  }

  lemma AttemptEventNames(s: Session, e: Entry, stepId: Id, attemptId: Id, event: AttemptEvent, kind: Kind, id: Id)
    requires e.data.OfPlan? && e.data.event == OfStep(stepId, OfAttempt(attemptId, event))
    requires s.plan.Some? && stepId in s.plan.value.steps && ChildrenIn(s.plan.value.steps[stepId], s.stableIds)
    requires ApplyAttemptEvent(s, e, stepId, attemptId, event).Ok? && !event.VerificationRecorded?
    ensures NamesAdded(s.stableIds, ApplyAttemptEvent(s, e, stepId, attemptId, event).value.stableIds, e, kind, id)
  {
  }

  lemma StepEventNames(s: Session, e: Entry, stepId: Id, change: StepEvent, kind: Kind, id: Id)
    requires e.data.OfPlan? && e.data.event == OfStep(stepId, change) && s.plan.Some? && ChildrenClaimed(s)
    requires ApplyStepEvent(s, e, stepId, change).Ok? && !(change.OfAttempt? && change.change.VerificationRecorded?)
    ensures NamesAdded(s.stableIds, ApplyStepEvent(s, e, stepId, change).value.stableIds, e, kind, id)
  {
    if change.OfAttempt? {
      AttemptEventNames(s, e, stepId, change.attemptId, change.change, kind, id);
    }
  }

  predicate IsVerification(event: PlanEvent) {
    event.OfStep? && event.change.OfAttempt? && event.change.change.VerificationRecorded?
  }

  lemma VerificationNames(s: Session, e: Entry, kind: Kind, id: Id)
    requires e.data.OfPlan? && ApplyPlanEvent(s, e, e.data.planId, e.data.planRevision, e.data.event).Ok?
    requires IsVerification(e.data.event)
    ensures var t := ApplyPlanEvent(s, e, e.data.planId, e.data.planRevision, e.data.event).value;
      NamesAdded(s.stableIds, t.stableIds, e, kind, id)
  {
  }

  lemma PlanEventNames(s: Session, e: Entry, kind: Kind, id: Id)
    requires e.data.OfPlan? && ApplyPlanEvent(s, e, e.data.planId, e.data.planRevision, e.data.event).Ok? && ChildrenClaimed(s)
    ensures var t := ApplyPlanEvent(s, e, e.data.planId, e.data.planRevision, e.data.event).value;
      NamesAdded(s.stableIds, t.stableIds, e, kind, id)
  {
    if IsVerification(e.data.event) {
      VerificationNames(s, e, kind, id);
    } else if e.data.event.OfStep? {
      StepEventNames(s, e, e.data.event.stepId, e.data.event.change, kind, id);
    }
  }

  lemma EntryNames(s: Session, e: Entry, kind: Kind, id: Id)
    requires Apply(s, e).Ok? && ChildrenClaimed(s)
    ensures NamesAdded(s.stableIds, Apply(s, e).value.stableIds, e, kind, id)
  {
    if e.data.OfPlan? {
      PlanTouched(s, e);
      PlanEventNames(Envelope(s, e).value, e, kind, id);
    } else {
      OtherEntryNames(s, e, kind, id);
    }
  }

  lemma OtherEntryNames(s: Session, e: Entry, kind: Kind, id: Id)
    requires Apply(s, e).Ok? && !e.data.OfPlan?
    ensures NamesAdded(s.stableIds, Apply(s, e).value.stableIds, e, kind, id)
  {
  }

  lemma AttemptEventKeepsChildren(s: Session, e: Entry, stepId: Id, attemptId: Id, event: AttemptEvent)
    requires s.plan.Some? && stepId in s.plan.value.steps && ChildrenIn(s.plan.value.steps[stepId], s.stableIds)
    requires ApplyAttemptEvent(s, e, stepId, attemptId, event).Ok?
    ensures var t := ApplyAttemptEvent(s, e, stepId, attemptId, event).value;
      && t.plan.Some? && s.stableIds <= t.stableIds
      && t.plan.value.steps.Keys == s.plan.value.steps.Keys
      && ChildrenIn(t.plan.value.steps[stepId], t.stableIds)
      && forall other :: other in s.plan.value.steps && other != stepId ==>
           t.plan.value.steps[other] == s.plan.value.steps[other]
  {
  }

  lemma PlanEventKeepsChildren(s: Session, e: Entry)
    requires e.data.OfPlan? && ApplyPlanEvent(s, e, e.data.planId, e.data.planRevision, e.data.event).Ok? && ChildrenClaimed(s)
    ensures ChildrenClaimed(ApplyPlanEvent(s, e, e.data.planId, e.data.planRevision, e.data.event).value)
  {
    var event := e.data.event;
    if event.OfStep? && event.change.OfAttempt? {
      var claimed := ClaimVerification(s, event).value;
      AttemptEventKeepsChildren(claimed, e, event.stepId, event.change.attemptId, event.change.change);
    }
  }

  lemma EntryKeepsChildren(s: Session, e: Entry)
    requires Apply(s, e).Ok? && ChildrenClaimed(s)
    ensures ChildrenClaimed(Apply(s, e).value)
  {
    if e.data.OfPlan? {
      PlanTouched(s, e);
      PlanEventKeepsChildren(Envelope(s, e).value, e);
    } else {
      PlanUntouched(s, e);
      EntryKeepsClaims(s, e);
    }
  }

  lemma IdStaysAsWritten(s: Session, written: seq<Entry>, e: Entry, kind: Kind, id: Id)
    requires AsWritten(s, written) && Apply(s, e).Ok?
    ensures IdAsWritten(Apply(s, e).value, written + [e], kind, id)
  {
    assert IdAsWritten(s, written, kind, id);
    EntryNames(s, e, kind, id);
    Last(written, e);
    assert Named(written + [e], kind, id) <==> Named(written, kind, id) || Names(e, kind, id);
  }

  // ---------- Whole journals ----------

  lemma StaysAsWritten(s: Session, written: seq<Entry>, e: Entry)
    requires AsWritten(s, written) && Apply(s, e).Ok?
    ensures AsWritten(Apply(s, e).value, written + [e])
  {
    var t := Apply(s, e).value;
    EnvelopeStaysAsWritten(s, written, e);
    LifecycleStaysAsWritten(s, written, e);
    LeafStaysAsWritten(s, written, e);
    CheckpointStaysAsWritten(s, written, e);
    EntryKeepsChildren(s, e);
    forall run ensures RunAsWritten(t, written + [e], run) {
      RunStaysAsWritten(s, written, e, run);
    }
    forall kind, id ensures IdAsWritten(t, written + [e], kind, id) {
      IdStaysAsWritten(s, written, e, kind, id);
    }
  }

  lemma FirstAsWritten(e: Entry)
    requires Begin(e).Ok?
    ensures AsWritten(Begin(e).value, [e])
  {
    var s, written := Begin(e).value, [e];
    assert e in written && written[0] == e;
    forall kind, id ensures IdAsWritten(s, written, kind, id) {
      assert !Names(e, kind, id);
    }
    forall run ensures RunAsWritten(s, written, run) {
      assert !Starts(e, run) && !Ends(e, run);
    }
  }

  lemma {:induction false} ReplayAsWritten(first: Session, entries: seq<Entry>, n: nat)
    requires 1 <= n <= |entries| && AsWritten(first, entries[..1]) && Replay(first, entries, 1, n).Ok?
    ensures AsWritten(Replay(first, entries, 1, n).value, entries[..n])
  {
    if n > 1 {
      ReplayAsWritten(first, entries, n - 1);
      StaysAsWritten(Replay(first, entries, 1, n - 1).value, entries[..n - 1], entries[n - 1]);
      assert entries[..n] == entries[..n - 1] + [entries[n - 1]];
    }
  }

  /**
   The session rebuilt from an accepted journal is as its entries say: a run is known exactly if an entry started it,
   has the status of the entry that ended it, and is the active one until then; lifecycle, leaf and checkpoint are
   as the last entry about them left them.
  */
  lemma JournalIsRead(entries: seq<Entry>, n: nat)
    requires n <= |entries| && After(entries, n).Ok?
    ensures AsWritten(After(entries, n).value, entries[..n])
  {
    assert entries[..1] == [entries[0]];
    FirstAsWritten(entries[0]);
    ReplayAsWritten(Begin(entries[0]).value, entries, n);
  }

  // ---------- Which entries may follow ----------

  ghost predicate LastTurnIs(written: seq<Entry>, data: EntryData) {
    exists k: nat :: LastOf(Turns, written, k) && written[k].data == data
  }

  ghost predicate IsOpen(written: seq<Entry>) {
    NoneOf(Turns, written) || LastTurnIs(written, SessionReopened)
  }

  ghost predicate SomeRunGoesOn(written: seq<Entry>) {
    exists run :: Started(written, run) && !Ended(written, run)
  }

  /** What the entries before an entry hold against its envelope. */
  ghost function EnvelopeObjection(written: seq<Entry>, e: Entry): Option<JournalError>
    requires written != []
  {
    var last := written[|written| - 1];
    if e.sessionId != written[0].sessionId then Some(SessionMismatch)
    else if e.sequence != |written| + 1 then Some(SequenceInvalid)
    else if e.revision != last.revision && e.revision != last.revision + 1 then Some(RevisionInvalid)
    else if e.timestamp < last.timestamp then Some(TimestampInvalid)
    else if LastTurnIs(written, SessionDeleted) then Some(TransitionInvalid)
    else if LastTurnIs(written, SessionClosed)
         && !(e.data.MetadataUpdated? || e.data.SessionReopened? || e.data.SessionForked? || e.data.SessionDeleted?)
    then Some(TransitionInvalid)
    else if Written(written, e.entryId) then Some(IdReused)
    else None
  }

  ghost function Unless(ok: bool, error: JournalError): Option<JournalError> {
    if ok then None else Some(error)
  }

  /** A compaction continues the last one, or starts at the first entry. */
  ghost predicate Continues(written: seq<Entry>, c: Compaction) {
    && (NoneOf(Checkpoints, written) ==> c.previousCheckpointId.None? && c.coveredStart == 1)
    && forall k: nat :: LastOf(Checkpoints, written, k) ==>
         var last := written[k].data.compaction;
         c.previousCheckpointId == Some(last.checkpointId) && c.coveredStart == last.coveredStart && c.coveredEnd > last.coveredEnd
  }

  /** What the entries before an entry hold against what it says; plan events are judged by their plan. */
  ghost function Objection(written: seq<Entry>, e: Entry): Option<JournalError>
    requires written != [] && !e.data.OfPlan?
  {
    match e.data
    case SessionCreated => Some(IdReused)
    case MetadataUpdated(_) => None
    case CompactPlanUpdated => None
    case SessionClosed => Unless(IsOpen(written) && !SomeRunGoesOn(written), TransitionInvalid)
    case SessionReopened => Unless(LastTurnIs(written, SessionClosed), TransitionInvalid)
    case SessionForked(child, source) =>
      if child == e.sessionId || source == e.entryId || !Written(written, source) then Some(TransitionInvalid)
      else Unless(!ForkedTo(written, child), IdReused)
    case SessionDeleted => Unless(!SomeRunGoesOn(written), TransitionInvalid)
    case MessageCommitted(id) => Unless(!Named(written, MessageId, id), IdReused)
    case Noted(kind, id) => Unless(!Named(written, kind, id), IdReused)
    case RunStarted(request) =>
      if !IsOpen(written) || SomeRunGoesOn(written) || e.runId.None? then Some(TransitionInvalid)
      else Unless(!Named(written, RunId, e.runId.value) && !Named(written, ClientRequestId, request), IdReused)
    case CompactionCreated(c) =>
      if c.coveredStart < 1 || c.coveredEnd < c.coveredStart then Some(EntryInvalid)
      else if c.coveredEnd > |written| || c.retainedStart != c.coveredEnd + 1 || c.summaryDigest != SummaryDigest(c.summary)
           || !Continues(written, c)
      then Some(TransitionInvalid)
      else Unless(!Named(written, CheckpointId, c.checkpointId), IdReused)
    case RunTerminal(_) =>
      Unless(e.runId.Some? && Started(written, e.runId.value) && !Ended(written, e.runId.value), TransitionInvalid)
  }

  lemma {:induction false} SomeLast(kind: Entry -> bool, written: seq<Entry>)
    ensures NoneOf(kind, written) || exists k: nat :: LastOf(kind, written, k)
  {
    if written != [] {
      var n := |written| - 1;
      SomeLast(kind, written[..n]);
      LastSnoc(kind, written[..n], written[n]);
      assert written == written[..n] + [written[n]];
      if kind(written[n]) {
        assert LastOf(kind, written, n);
      } else if k: nat :| LastOf(kind, written[..n], k) {
        assert LastOf(kind, written, k);
      }
    }
  }

  /** There is one last entry, so the lifecycle is what it left. */
  lemma LifecycleExactly(s: Session, written: seq<Entry>)
    requires LifecycleAsWritten(s, written)
    ensures s.lifecycle.Open? <==> IsOpen(written)
    ensures s.lifecycle.Closed? <==> LastTurnIs(written, SessionClosed)
    ensures s.lifecycle.Deleted? <==> LastTurnIs(written, SessionDeleted)
  {
    SomeLast(Turns, written);
    if !NoneOf(Turns, written) {
      var k: nat :| LastOf(Turns, written, k);
      assert written[k].data == SessionReopened || written[k].data == SessionClosed || written[k].data == SessionDeleted;
    } else {
      forall k: nat ensures !LastOf(Turns, written, k) {
      }
    }
  }

  lemma ActiveExactly(s: Session, written: seq<Entry>)
    requires forall run :: RunAsWritten(s, written, run)
    ensures s.activeRun.Some? <==> SomeRunGoesOn(written)
    ensures forall run :: s.activeRun == Some(run) ==> run in s.runs && s.runs[run] == RunState.Running
  {
    if s.activeRun.Some? {
      assert RunAsWritten(s, written, s.activeRun.value);
    }
    if run :| Started(written, run) && !Ended(written, run) {
      assert RunAsWritten(s, written, run);
    }
  }

  /** The objection is what the reducer answers. */
  ghost predicate Answers(objection: Option<JournalError>, r: Checked<Session>) {
    match objection
    case Some(error) => r == Err(error)
    case None => r.Ok?
  }

  lemma EnvelopeExactly(s: Session, written: seq<Entry>, e: Entry)
    requires AsWritten(s, written)
    ensures Answers(EnvelopeObjection(written, e), Envelope(s, e))
  {
    LifecycleExactly(s, written);
    assert e.entryId in s.entryIds <==> Written(written, e.entryId);
  }

  lemma ContinuesExactly(s: Session, written: seq<Entry>, c: Compaction)
    requires CheckpointAsWritten(s, written)
    ensures Continues(written, c) <==>
      match s.checkpoint
      case None => c.previousCheckpointId.None? && c.coveredStart == 1
      case Some(p) =>
        c.previousCheckpointId == Some(p.checkpointId) && c.coveredStart == p.coveredStart && c.coveredEnd > p.coveredEnd
  {
    SomeLast(Checkpoints, written);
    if NoneOf(Checkpoints, written) {
      forall k: nat ensures !LastOf(Checkpoints, written, k) {
      }
    } else {
      var k: nat :| LastOf(Checkpoints, written, k);
      assert !NoneOf(Checkpoints, written);
      assert forall j: nat :: LastOf(Checkpoints, written, j) ==> j == k;
    }
  }

  lemma CompactionExactly(s: Session, written: seq<Entry>, e: Entry, c: Compaction)
    requires e.data == CompactionCreated(c) && e.sequence == |written| + 1 && written != []
    requires CheckpointAsWritten(s, written) && IdAsWritten(s, written, CheckpointId, c.checkpointId)
    ensures Answers(Objection(written, e), Compact(s, e, c))
  {
    ContinuesExactly(s, written, c);
  }

  lemma CompactAfterEnvelope(s: Session, e: Entry)
    requires e.data.CompactionCreated? && Envelope(s, e).Ok?
    ensures var t := Envelope(s, e).value;
      && t.checkpoint == s.checkpoint && t.stableIds == s.stableIds && Apply(s, e) == Compact(t, e, e.data.compaction)
  {
  }

  lemma StartExactly(s: Session, written: seq<Entry>, e: Entry)
    requires e.data.RunStarted? && written != [] && LifecycleAsWritten(s, written)
    requires s.activeRun.Some? <==> SomeRunGoesOn(written)
    requires IdAsWritten(s, written, ClientRequestId, e.data.clientRequestId)
    requires e.runId.Some? ==> IdAsWritten(s, written, RunId, e.runId.value)
    ensures Answers(Objection(written, e), StartRun(s, e.runId, e.data.clientRequestId))
  {
    LifecycleExactly(s, written);
  }

  lemma EndExactly(s: Session, written: seq<Entry>, e: Entry)
    requires e.data.RunTerminal? && written != [] && (e.runId.Some? ==> RunAsWritten(s, written, e.runId.value))
    ensures Answers(Objection(written, e), EndRun(s, e.runId, e.data.status))
  {
  }

  lemma RunAfterEnvelope(s: Session, e: Entry)
    requires (e.data.RunStarted? || e.data.RunTerminal?) && Envelope(s, e).Ok?
    ensures var t := Envelope(s, e).value;
      && t.lifecycle == s.lifecycle && t.activeRun == s.activeRun && t.runs == s.runs && t.stableIds == s.stableIds
      && (e.data.RunStarted? ==> Apply(s, e) == StartRun(t, e.runId, e.data.clientRequestId))
      && (e.data.RunTerminal? ==> Apply(s, e) == EndRun(t, e.runId, e.data.status))
  {
  }

  lemma RunEntryExactly(s: Session, written: seq<Entry>, e: Entry)
    requires AsWritten(s, written) && Envelope(s, e).Ok? && (e.data.RunStarted? || e.data.RunTerminal?)
    ensures Answers(Objection(written, e), Apply(s, e))
  {
    RunAfterEnvelope(s, e);
    ActiveExactly(s, written);
    if e.runId.Some? {
      assert RunAsWritten(s, written, e.runId.value) && IdAsWritten(s, written, RunId, e.runId.value);
    }
    if e.data.RunStarted? {
      assert IdAsWritten(s, written, ClientRequestId, e.data.clientRequestId);
      StartExactly(Envelope(s, e).value, written, e);
    } else {
      EndExactly(Envelope(s, e).value, written, e);
    }
  }

  lemma LifecycleEntryExactly(s: Session, written: seq<Entry>, e: Entry)
    requires AsWritten(s, written) && Envelope(s, e).Ok? && Turns(e)
    ensures Answers(Objection(written, e), Apply(s, e))
  {
    LifecycleExactly(s, written);
    ActiveExactly(s, written);
  }

  lemma DataExactly(s: Session, written: seq<Entry>, e: Entry)
    requires AsWritten(s, written) && Envelope(s, e).Ok? && !e.data.OfPlan?
    ensures Answers(Objection(written, e), Apply(s, e))
  {
    if Turns(e) {
      LifecycleEntryExactly(s, written, e);
    } else if e.data.RunStarted? || e.data.RunTerminal? {
      RunEntryExactly(s, written, e);
    } else if e.data.CompactionCreated? {
      assert IdAsWritten(s, written, CheckpointId, e.data.compaction.checkpointId);
      CompactAfterEnvelope(s, e);
      CompactionExactly(Envelope(s, e).value, written, e, e.data.compaction);
    } else {
      OtherEntryExactly(s, written, e);
    }
  }

  lemma OtherEntryExactly(s: Session, written: seq<Entry>, e: Entry)
    requires AsWritten(s, written) && Envelope(s, e).Ok?
    requires !Turns(e) && !e.data.RunStarted? && !e.data.RunTerminal? && !e.data.CompactionCreated? && !e.data.OfPlan?
    ensures Answers(Objection(written, e), Apply(s, e))
  {
    match e.data
    case SessionForked(child, source) =>
      assert child in s.forked <==> ForkedTo(written, child);
      assert source in s.entryIds <==> Written(written, source);
    case MessageCommitted(id) => assert IdAsWritten(s, written, MessageId, id);
    case Noted(kind, id) => assert IdAsWritten(s, written, kind, id);
    case _ =>
  }

  /**
   After an accepted journal an entry is accepted exactly if the entries before it hold nothing against it, and is
   refused with the error they call for; of plan events this says what their envelope has to be.
  */
  lemma NextEntryExactly(entries: seq<Entry>, e: Entry)
    requires After(entries, |entries|).Ok?
    ensures var s := After(entries, |entries|).value;
      match EnvelopeObjection(entries, e)
      case Some(error) => Apply(s, e) == Err(error)
      case None => !e.data.OfPlan? ==> Answers(Objection(entries, e), Apply(s, e))
  {
    var s := After(entries, |entries|).value;
    JournalIsRead(entries, |entries|);
    assert entries[..|entries|] == entries;
    EnvelopeExactly(s, entries, e);
    if Envelope(s, e).Ok? && !e.data.OfPlan? {
      DataExactly(s, entries, e);
    }
  }
}
