/**
 Compaction checkpoints: what the latest checkpoint of a journal covers, and that a prepared
 compaction is refused by the reducer only for reasons its caller can see.
*/
module SessionCompaction {
  import opened Wrappers
  import opened SessionPlan
  import opened SessionReducer
  import opened SessionJournal

  datatype Input = Input(
    entryId: Id,
    checkpointId: Id,
    timestamp: int,
    coveredStart: int,
    coveredEnd: int,
    summary: string)

  /** The entry that a compaction of this projection would append. */
  function CompactionEntry(projection: Session, input: Input): Entry {
    var previous := if projection.checkpoint.Some? then Some(projection.checkpoint.value.checkpointId) else None;
    Entry(input.entryId, projection.sessionId, projection.sequence + 1, projection.revision + 1, input.timestamp,
          None, None,
          CompactionCreated(Compaction(input.checkpointId, previous, input.coveredStart, input.coveredEnd,
                                       input.coveredEnd + 1, input.summary, SummaryDigest(input.summary))))
  }

  predicate RangeValid(projection: Session, input: Input) {
    && input.coveredEnd < projection.sequence + 1
    && match projection.checkpoint
       case None => input.coveredStart == 1
       case Some(p) => input.coveredStart == p.coveredStart && input.coveredEnd > p.coveredEnd
  }

  function PrepareCompaction(projection: Session, input: Input): Checked<Entry> {
    if input.coveredStart < 1 || input.coveredEnd < input.coveredStart then Err(EntryInvalid)
    else if !RangeValid(projection, input) then Err(CompactionRangeInvalid)
    else Ok(CompactionEntry(projection, input))
  }

  /**
   Preparing refuses exactly the ranges that the reducer would refuse; what is prepared is accepted
   exactly if the session is open, both ids are fresh and the time has not gone back, and then covers
   the range asked for.
  */
  lemma PreparedIsAccepted(projection: Session, input: Input)
    ensures Apply(projection, CompactionEntry(projection, input)).Ok? <==>
      && PrepareCompaction(projection, input).Ok?
      && projection.lifecycle.Open?
      && input.entryId !in projection.entryIds
      && (CheckpointId, input.checkpointId) !in projection.stableIds
      && input.timestamp >= projection.timestamp
    ensures PrepareCompaction(projection, input) == Err(EntryInvalid) <==>
      input.coveredStart < 1 || input.coveredEnd < input.coveredStart
    ensures PrepareCompaction(projection, input).Err? ==>
      PrepareCompaction(projection, input).error in {EntryInvalid, CompactionRangeInvalid}
    ensures Apply(projection, CompactionEntry(projection, input)).Ok? ==>
      var after := Apply(projection, CompactionEntry(projection, input)).value;
      && after.OmittedEntries() == input.coveredEnd && after.RecentStart() == input.coveredEnd + 1
      && after.checkpoint == Some(Checkpoint(
           input.checkpointId, input.entryId, input.coveredStart, input.coveredEnd, input.coveredEnd + 1,
           if projection.checkpoint.Some? then Some(projection.checkpoint.value.checkpointId) else None, input.summary))
      && after.plan == projection.plan && after.runs == projection.runs
  {
  }

  // ---------- What checkpoints cover ----------

  /** The latest checkpoint covers the journal from its first entry up to some entry before the head. */
  predicate CheckpointOk(s: Session) {
    s.checkpoint.Some? ==>
      var c := s.checkpoint.value;
      && c.coveredStart == 1 && 1 <= c.coveredEnd < s.sequence
      && c.retainedStart == c.coveredEnd + 1
      && (CheckpointId, c.checkpointId) in s.stableIds
  }

  /** `later` is the same checkpoint or covers strictly more. */
  predicate Extends(earlier: Option<Checkpoint>, later: Option<Checkpoint>) {
    earlier.Some? ==>
      && later.Some?
      && (later == earlier || later.value.coveredEnd > earlier.value.coveredEnd)
  }

  lemma PlanEventKeepsCheckpoint(s: Session, e: Entry, planId: Id, revision: int, event: PlanEvent)
    requires ApplyPlanEvent(s, e, planId, revision, event).Ok?
    ensures var after := ApplyPlanEvent(s, e, planId, revision, event).value;
      after.checkpoint == s.checkpoint && after.sequence == s.sequence && s.stableIds <= after.stableIds
  {
  }

  lemma EntryKeepsSequence(before: Session, e: Entry)
    requires Apply(before, e).Ok?
    ensures Apply(before, e).value.sequence == before.sequence + 1
  {
  }

  lemma EntryExtends(before: Session, e: Entry)
    requires Apply(before, e).Ok?
    ensures Extends(before.checkpoint, Apply(before, e).value.checkpoint)
  {
  }

  lemma EntryKeepsCheckpoint(before: Session, e: Entry)
    requires CheckpointOk(before) && Apply(before, e).Ok?
    ensures CheckpointOk(Apply(before, e).value)
  {
    if e.data.OfPlan? {
      PlanEventKeepsCheckpoint(Envelope(before, e).value, e, e.data.planId, e.data.planRevision, e.data.event);
    }
  }

  lemma {:induction false} ReplayKeepsCheckpoint(s: Session, entries: seq<Entry>, i: nat, j: nat)
    requires i <= j <= |entries| && Replay(s, entries, i, j).Ok? && CheckpointOk(s)
    ensures CheckpointOk(Replay(s, entries, i, j).value)
    ensures Replay(s, entries, i, j).value.sequence == s.sequence + j - i
    ensures Extends(s.checkpoint, Replay(s, entries, i, j).value.checkpoint)
    decreases j
  {
    if i < j {
      ReplayKeepsCheckpoint(s, entries, i, j - 1);
      var before := Replay(s, entries, i, j - 1).value;
      EntryKeepsCheckpoint(before, entries[j - 1]);
      EntryKeepsSequence(before, entries[j - 1]);
      EntryExtends(before, entries[j - 1]);
    }
  }

  /** In every journal the entries that may be omitted and those to be read make up the whole journal. */
  lemma OmittedAndRetainedAreAll(entries: seq<Entry>, n: nat)
    requires n <= |entries| && After(entries, n).Ok?
    ensures var s := After(entries, n).value;
      && CheckpointOk(s) && s.sequence == n
      && 0 <= s.OmittedEntries() < n
      && s.OmittedEntries() + (s.sequence - s.RecentStart() + 1) == n
  {
    ReplayKeepsCheckpoint(Begin(entries[0]).value, entries, 1, n);
  }

  /** As a journal grows its checkpoint is kept or replaced by one that covers strictly more. */
  lemma CoverageGrows(entries: seq<Entry>, n: nat, m: nat)
    requires 1 <= n <= m <= |entries| && After(entries, m).Ok?
    ensures After(entries, n).Ok? && Extends(After(entries, n).value.checkpoint, After(entries, m).value.checkpoint)
  {
    var first := Begin(entries[0]).value;
    ReplaySplits(first, entries, 1, n, m);
    ReplayKeepsCheckpoint(first, entries, 1, n);
    ReplayKeepsCheckpoint(After(entries, n).value, entries, n, m);
  }

  // ---------- Committing a prepared compaction ----------

  /** The commit that carries a prepared compaction of the log it was prepared from. */
  function CompactionCommit(projection: Session, input: Input, commitId: Id, key: Id): Commit
    requires projection.revision >= 0
  {
    Commit(projection.sessionId, commitId, projection.revision, key, [CompactionEntry(projection, input)])
  }

  /** The projection of a log stands at its head. */
  lemma ProjectionAtHead(id: Id, log: Log)
    requires LogOk(id, log) && log != []
    ensures Reduce(AllEntries(log)).Ok?
    ensures var s := Reduce(AllEntries(log)).value;
      && After(AllEntries(log), |AllEntries(log)|) == Ok(s)
      && s.sessionId == id && s.revision == |log| && s.sequence == |AllEntries(log)| > 0
  {
    assert ReducesAt(log, |log| - 1);
    var entries := AllEntries(log);
    ReducedIsNumbered(entries);
    HeadRevision(id, log);
    EntriesBelong(id, log, |log|);
    HeadOfReplay(entries, |entries|);
  }

  lemma {:induction false} HeadOfReplay(entries: seq<Entry>, n: nat)
    requires 0 < n <= |entries| && After(entries, n).Ok?
    ensures var s := After(entries, n).value;
      s.sessionId == entries[0].sessionId && s.revision == entries[n - 1].revision && s.sequence == entries[n - 1].sequence
  {
    if n > 1 {
      HeadOfReplay(entries, n - 1);
      EntryIsHead(After(entries, n - 1).value, entries[n - 1]);
    }
  }

  lemma EntryIsHead(s: Session, e: Entry)
    requires Apply(s, e).Ok?
    ensures var t := Apply(s, e).value; t.sessionId == s.sessionId && t.revision == e.revision && t.sequence == e.sequence
  {
    if e.data.OfPlan? {
      PlanEventKeepsHead(Envelope(s, e).value, e, e.data.planId, e.data.planRevision, e.data.event);
    }
  }

  lemma PlanEventKeepsHead(s: Session, e: Entry, planId: Id, revision: int, event: PlanEvent)
    requires ApplyPlanEvent(s, e, planId, revision, event).Ok?
    ensures var t := ApplyPlanEvent(s, e, planId, revision, event).value;
      t.sessionId == s.sessionId && t.revision == s.revision && t.sequence == s.sequence
  {
  }

  lemma {:induction false} ReplayIgnoresTail(s: Session, entries: seq<Entry>, more: seq<Entry>, i: nat, j: nat)
    requires i <= j <= |entries| && entries <= more
    ensures Replay(s, more, i, j) == Replay(s, entries, i, j)
    decreases j
  {
    if i < j {
      ReplayIgnoresTail(s, entries, more, i, j - 1);
      var before, e := Replay(s, entries, i, j - 1), entries[j - 1];
      assert more[j - 1] == e;
      if before.Ok? {
        var after := Apply(before.value, e);
        assert Replay(s, entries, i, j) == after;
        assert Replay(s, more, i, j) == after;
      }
    }
  }

  /** One more entry is accepted by a reduced journal exactly if it applies and leaves a presentable plan. */
  lemma ReduceSnoc(entries: seq<Entry>, e: Entry)
    requires Reduce(entries).Ok? && Apply(Reduce(entries).value, e).Ok?
    requires Apply(Reduce(entries).value, e).value.plan == Reduce(entries).value.plan
    ensures Reduce(entries + [e]).Ok?
  {
    var more := entries + [e];
    ReplayIgnoresTail(Begin(entries[0]).value, entries, more, 1, |entries|);
    assert more[0] == entries[0] && more[|entries|] == e;
    assert Replay(Begin(entries[0]).value, more, 1, |more|) == Apply(Reduce(entries).value, e);
  }

  /**
   A prepared compaction is appended as a new commit if no other writer came in between and its caller
   supplied an open session, fresh ids and keys, and a time that has not gone back.
  */
  lemma PreparedCommitIsAppended(id: Id, log: Log, input: Input, commitId: Id, key: Id)
    requires LogOk(id, log) && log != [] && Reduce(AllEntries(log)).Ok?
    requires var s := Reduce(AllEntries(log)).value;
      && PrepareCompaction(s, input).Ok? && s.lifecycle.Open?
      && input.entryId !in s.entryIds && (CheckpointId, input.checkpointId) !in s.stableIds
      && input.timestamp >= s.timestamp
    requires forall k :: 0 <= k < |log| ==> log[k].commitId != commitId && log[k].idempotencyKey != key
    ensures var s := Reduce(AllEntries(log)).value;
      && s.revision >= 0
      && Append(log, CompactionCommit(s, input, commitId, key)).Ok?
      && Append(log, CompactionCommit(s, input, commitId, key)).value.0 == log + [CompactionCommit(s, input, commitId, key)]
  {
    ProjectionAtHead(id, log);
    var s := Reduce(AllEntries(log)).value;
    var c := CompactionCommit(s, input, commitId, key);
    PreparedIsAccepted(s, input);
    ReduceSnoc(AllEntries(log), CompactionEntry(s, input));
    HeadRevision(id, log);
    LogIsNumbered(id, log);
    assert EntryFits(c, 0);
    assert AllEntries(log) + c.entries == AllEntries(log) + [CompactionEntry(s, input)];
  }

  /** If another writer did come in between, the same commit is refused and can be prepared anew. */
  lemma OvertakenCommitIsRefused(id: Id, log: Log, later: Log, input: Input, commitId: Id, key: Id)
    requires LogOk(id, log) && log != [] && LogOk(id, later) && log < later && Reduce(AllEntries(log)).Ok?
    requires forall k :: 0 <= k < |later| ==> later[k].commitId != commitId && later[k].idempotencyKey != key
    ensures Reduce(AllEntries(log)).value.revision >= 0
    ensures Append(later, CompactionCommit(Reduce(AllEntries(log)).value, input, commitId, key)) == Err(RevisionConflict)
  {
    ProjectionAtHead(id, log);
    HeadRevision(id, later);
    var c := CompactionCommit(Reduce(AllEntries(log)).value, input, commitId, key);
    assert EntryFits(c, 0);
  }
}
