/**
 Moving whole journals between stores: export, and an import that can be stopped after any append and
 run again.
*/
module SessionTransfer {
  import opened Wrappers
  import opened SessionPlan
  import opened SessionReducer
  import opened SessionJournal
  import opened CommitStore

  /** A portable journal: the commits of each of its sessions. */
  type Archive = map<Id, seq<Commit>>

  datatype Report = Report(commitCount: nat, accepted: nat, duplicates: nat)

  /** An import is completed, refused, or interrupted before it could go on. */
  datatype Outcome = Imported(report: Report) | Refused(error: JournalError) | Interrupted

  // ---------- Valid archives ----------

  /** Commit `k` continues the stream: one more revision, and the sequence after the last one. */
  predicate Continues(id: Id, commits: seq<Commit>, k: nat)
    requires k < |commits|
  {
    && CommitValid(commits[k])
    && commits[k].sessionId == id && commits[k].expectedRevision == k
    && commits[k].entries[0].sequence == LastSequence(commits, k) + 1
  }

  function LastSequence(commits: seq<Commit>, k: nat): int
    requires k <= |commits|
  {
    if k == 0 || commits[k - 1].entries == [] then 0
    else commits[k - 1].entries[|commits[k - 1].entries| - 1].sequence
  }

  predicate Follows(id: Id, commits: seq<Commit>) {
    commits != [] && forall k :: 0 <= k < |commits| ==> Continues(id, commits, k)
  }

  ghost predicate StreamValid(id: Id, commits: seq<Commit>) {
    Follows(id, commits) && Reduce(AllEntries(commits)).Ok?
  }

  lemma {:induction false} SequencesContinue(commits: seq<Commit>, k: nat)
    requires k <= |commits| && SessionJournal.Numbered(AllEntries(commits))
    requires forall j :: 0 <= j < k ==> commits[j].entries != []
    ensures LastSequence(commits, k) == |Entries(commits, k)|
  {
    if k > 0 {
      EntriesStay(commits, k, |commits|);
      var n := |Entries(commits, k)| - 1;
      assert AllEntries(commits)[n] == Entries(commits, k)[n] == commits[k - 1].entries[|commits[k - 1].entries| - 1];
    }
  }

  /** Commit `k` is the next revision of this session, and its entries are numbered on from those before it. */
  ghost predicate FollowsOn(id: Id, commits: seq<Commit>, k: nat)
    requires k < |commits|
  {
    && WellFormed(commits[k]) && commits[k].sessionId == id && commits[k].expectedRevision == k
    && commits[k].entries[0].sequence == |Entries(commits, k)| + 1
  }

  lemma NextFollowsOn(id: Id, commits: seq<Commit>, k: nat)
    requires k < |commits| && SessionJournal.Numbered(AllEntries(commits))
    requires forall j :: 0 <= j < k ==> commits[j].entries != []
    ensures Continues(id, commits, k) <==> FollowsOn(id, commits, k)
  {
    WellFormedExactly(commits[k]);
    SequencesContinue(commits, k);
  }

  lemma {:induction false} FirstFollowOn(id: Id, commits: seq<Commit>, n: nat)
    requires n <= |commits| && SessionJournal.Numbered(AllEntries(commits))
    ensures (forall k :: 0 <= k < n ==> Continues(id, commits, k)) <==> forall k :: 0 <= k < n ==> FollowsOn(id, commits, k)
  {
    if n > 0 {
      FirstFollowOn(id, commits, n - 1);
      if forall k :: 0 <= k < n - 1 ==> Continues(id, commits, k) {
        forall j | 0 <= j < n - 1 ensures commits[j].entries != [] {
          assert Continues(id, commits, j);
        }
        NextFollowsOn(id, commits, n - 1);
      }
    }
  }

  /** A stream is valid exactly if its commits are sound, hold one revision each, follow one another and reduce together. */
  lemma StreamIsValidExactly(id: Id, commits: seq<Commit>)
    ensures StreamValid(id, commits) <==>
      && commits != [] && Reduce(AllEntries(commits)).Ok?
      && forall k :: 0 <= k < |commits| ==> FollowsOn(id, commits, k)
  {
    if commits != [] && Reduce(AllEntries(commits)).Ok? {
      ReducedIsNumbered(AllEntries(commits));
      FirstFollowOn(id, commits, |commits|);
    }
  }

  method ValidateCommitStream(id: Id, commits: seq<Commit>) returns (ok: bool)
    ensures ok <==> StreamValid(id, commits)
  {
    if commits == [] {
      return false;
    }
    var revision, sequence, entries := 0, 0, [];
    for k := 0 to |commits|
      invariant revision == k && sequence == LastSequence(commits, k) && entries == Entries(commits, k)
      invariant forall j :: 0 <= j < k ==> Continues(id, commits, j)
    {
      var c := commits[k];
      if !CommitValid(c) || c.sessionId != id || c.expectedRevision != revision || c.entries[0].sequence != sequence + 1 {
        assert !Continues(id, commits, k);
        return false;
      }
      revision := revision + 1;
      sequence := c.entries[|c.entries| - 1].sequence;
      entries := entries + c.entries;
    }
    var reduced := ReduceSessionEntries(entries);
    ok := reduced.Ok?;
  }

  ghost predicate ArchiveValid(archive: Archive) {
    forall id :: id in archive ==> StreamValid(id, archive[id])
  }

  method ValidatePortable(archive: Archive) returns (ok: bool)
    ensures ok <==> ArchiveValid(archive)
  {
    var rest := archive.Keys;
    while rest != {}
      invariant rest <= archive.Keys
      invariant forall id :: id in archive.Keys - rest ==> StreamValid(id, archive[id])
      decreases rest
    {
      var id :| id in rest;
      var valid := ValidateCommitStream(id, archive[id]);
      if !valid {
        return false;
      }
      rest := rest - {id};
    }
    ok := true;
  }

  // ---------- Targets ----------

  /** Every session of the target is the beginning of its counterpart in the archive. */
  predicate PrefixTarget(sessions: map<Id, Log>, archive: Archive) {
    forall id :: id in sessions ==> id in archive && sessions[id] <= archive[id]
  }

  /** The archive could have been written commit by commit: no key is used twice, and every prefix reduces. */
  ghost predicate Importable(archive: Archive) {
    forall id :: id in archive ==> LogOk(id, archive[id])
  }

  function Stored(sessions: map<Id, Log>, id: Id): Log {
    if id in sessions then sessions[id] else []
  }

  /** The number of commits in all sessions together. */
  ghost function CommitCount(sessions: map<Id, Log>): nat
    decreases sessions.Keys
  {
    if sessions.Keys == {} then 0
    else
      var id :| id in sessions.Keys;
      |sessions[id]| + CommitCount(sessions - {id})
  }

  /** Counting does not depend on the order in which sessions are taken. */
  lemma {:induction false} CountWithout(sessions: map<Id, Log>, id: Id)
    requires id in sessions
    ensures CommitCount(sessions) == |sessions[id]| + CommitCount(sessions - {id})
    decreases sessions.Keys
  {
    var first :| first in sessions.Keys && CommitCount(sessions) == |sessions[first]| + CommitCount(sessions - {first});
    if first != id {
      CountWithout(sessions - {first}, id);
      CountWithout(sessions - {id}, first);
      assert sessions - {first} - {id} == sessions - {id} - {first};
    }
  }

  // ---------- Importing one session ----------

  /** The next commit of a valid stream is either accepted and appended or refused; it is never a duplicate. */
  lemma NextCommit(id: Id, commits: seq<Commit>, j: nat)
    requires Follows(id, commits) && j < |commits| && LogOk(id, commits[..j])
    ensures var r := Append(commits[..j], commits[j]);
      && (r.Ok? ==> r.value.0 == commits[..j + 1] && !r.value.1.duplicate)
      && (LogOk(id, commits) ==> r.Ok?)
  {
    CommitsDiffer(id, commits, j);
    assert commits[j] !in commits[..j];
    assert commits[..j] + [commits[j]] == commits[..j + 1];
    if LogOk(id, commits) {
      NextFits(id, commits, j);
    }
  }

  lemma CommitsDiffer(id: Id, commits: seq<Commit>, j: nat)
    requires Follows(id, commits) && j < |commits|
    ensures forall k :: 0 <= k < j ==> commits[k] != commits[j]
  {
    forall k | 0 <= k < j ensures commits[k].expectedRevision < commits[j].expectedRevision {
      assert Continues(id, commits, k) && Continues(id, commits, j);
    }
  }

  lemma NextIsNew(id: Id, commits: seq<Commit>, j: nat)
    requires j < |commits| && LogOk(id, commits)
    ensures FindDuplicate(commits[..j], commits[j]) == Ok(None)
  {
    var log, c := commits[..j], commits[j];
    assert forall k :: 0 <= k < j ==> log[k] == commits[k] && !SharesKey(commits[k], c);
  }

  /** The entries of the next commit follow the head of what is there. */
  lemma NextMeetsHead(id: Id, commits: seq<Commit>, j: nat)
    requires Follows(id, commits) && j < |commits| && LogOk(id, commits[..j])
    ensures CommitValid(commits[j]) && AgainstHead(commits[..j], commits[j]).Ok?
    ensures AllEntries(commits[..j]) + commits[j].entries == Entries(commits, j + 1)
  {
    var log := commits[..j];
    assert Continues(id, commits, j);
    EntriesOfPrefix(log, commits, j);
    if j > 0 {
      HeadRevision(id, log);
      assert Continues(id, commits, j - 1);
      assert Entries(commits, j) == Entries(commits, j - 1) + commits[j - 1].entries;
    }
  }

  lemma NextFits(id: Id, commits: seq<Commit>, j: nat)
    requires Follows(id, commits) && j < |commits| && LogOk(id, commits) && LogOk(id, commits[..j])
    ensures CommitValid(commits[j]) && Append(commits[..j], commits[j]).Ok?
  {
    NextIsNew(id, commits, j);
    NextMeetsHead(id, commits, j);
    assert ReducesAt(commits, j);
  }

  lemma RepeatedCommit(id: Id, log: Log, c: Commit, j: nat)
    requires LogOk(id, log) && j < |log| && log[j] == c
    ensures Append(log, c).Ok? && Append(log, c).value.1.duplicate
  {
    RetryIsDuplicate(id, log, j);
  }

  /** What importing one session up to its first `j` commits leaves of a target that held `held` of them. */
  function Reached(commits: seq<Commit>, held: nat, j: nat): seq<Commit>
    requires held <= |commits| && j <= |commits|
  {
    if j <= held then commits[..held] else commits[..j]
  }

  lemma ReachedGrows(commits: seq<Commit>, held: nat, j: nat)
    requires held <= |commits| && j <= |commits|
    ensures commits[..held] <= Reached(commits, held, j) <= commits
  {
  }

  lemma OnlyChangedAgain(before: map<Id, Log>, now: map<Id, Log>, after: map<Id, Log>, id: Id)
    requires OnlyChanged(before, now, id) && OnlyChanged(now, after, id)
    ensures OnlyChanged(before, after, id)
  {
  }

  ghost predicate OnlyChanged(before: map<Id, Log>, after: map<Id, Log>, id: Id) {
    && before.Keys <= after.Keys <= before.Keys + {id}
    && forall other :: other in before && other != id ==> after[other] == before[other]
  }

  /** What becomes of commit `j`: a duplicate if the target holds it, else appended, or refused if the archive is at fault. */
  lemma CommitImports(id: Id, commits: seq<Commit>, held: nat, j: nat)
    requires Follows(id, commits) && j < |commits| && held <= |commits| && LogOk(id, Reached(commits, held, j))
    ensures var log := Reached(commits, held, j);
      var r := Append(log, commits[j]);
      && (r.Ok? ==> (r.value.1.duplicate <==> j < held))
      && (r.Ok? ==> Reached(commits, held, j + 1) == if r.value.1.duplicate then log else log + [commits[j]])
      && (r.Err? ==> !LogOk(id, commits))
  {
    if j < held {
      RepeatedCommit(id, commits[..held], commits[j], j);
    } else {
      NextCommit(id, commits, j);
    }
  }

  /** Imports commit `j`: a duplicate if the target holds it, else accepted or refused. */
  method ImportCommit(store: SessionCommitStore, id: Id, commits: seq<Commit>, ghost held: nat, j: nat)
    returns (r: Result<Receipt, JournalError>)
    requires store.Valid() && Follows(id, commits) && j < |commits| && held <= |commits|
    requires store.LogOf(id) == Reached(commits, held, j)
    modifies store
    ensures store.Valid() && OnlyChanged(old(store.sessions), store.sessions, id)
    ensures r.Ok? ==> store.LogOf(id) == Reached(commits, held, j + 1) && (r.value.duplicate <==> j < held)
    ensures r.Err? ==> store.sessions == old(store.sessions) && !LogOk(id, commits)
  {
    assert Continues(id, commits, j);
    CommitImports(id, commits, held, j);
    r := store.AppendCommit(commits[j]);
  }

  /** Appends the commits of one session, those the target holds included, unless stopped or refused. */
  method ImportSession(store: SessionCommitStore, id: Id, commits: seq<Commit>, budget: nat)
    returns (stopped: Option<Outcome>, accepted: nat, duplicates: nat)
    requires store.Valid() && Follows(id, commits) && store.LogOf(id) <= commits
    modifies store
    ensures store.Valid() && OnlyChanged(old(store.sessions), store.sessions, id)
    ensures old(store.LogOf(id)) <= store.LogOf(id) <= commits
    ensures stopped.None? ==> store.LogOf(id) == commits
    ensures stopped.None? ==> duplicates == |old(store.LogOf(id))| && accepted + duplicates == |commits| <= budget
    ensures stopped.Some? ==> !stopped.value.Imported?
    ensures LogOk(id, commits) ==> stopped.None? || stopped.value.Interrupted?
    ensures budget >= |commits| ==> stopped.None? || stopped.value.Refused?
  {
    ghost var before := store.sessions;
    ghost var held := |store.LogOf(id)|;
    assert store.LogOf(id) == commits[..held];
    accepted, duplicates := 0, 0;
    for j := 0 to |commits|
      invariant store.Valid() && OnlyChanged(before, store.sessions, id)
      invariant store.LogOf(id) == Reached(commits, held, j) && j <= budget
      invariant accepted + duplicates == j && duplicates == if j <= held then j else held
    {
      ReachedGrows(commits, held, j);
      if j == budget {
        return Some(Outcome.Interrupted), accepted, duplicates;
      }
      ghost var now := store.sessions;
      var receipt := ImportCommit(store, id, commits, held, j);
      OnlyChangedAgain(before, now, store.sessions, id);
      if receipt.Err? {
        return Some(Refused(receipt.error)), accepted, duplicates;
      }
      if receipt.value.duplicate {
        duplicates := duplicates + 1;
      } else {
        accepted := accepted + 1;
      }
    }
    ReachedGrows(commits, held, |commits|);
    stopped := None;
  }

  // ---------- Export ----------

  lemma LogIsStream(id: Id, log: Log)
    requires LogOk(id, log) && log != []
    ensures StreamValid(id, log)
  {
    LogFollows(id, log);
    assert ReducesAt(log, |log| - 1);
  }

  lemma LogFollows(id: Id, log: Log)
    requires LogOk(id, log) && log != []
    ensures Follows(id, log)
  {
    forall k | 0 <= k < |log| ensures Continues(id, log, k) {
      LogContinues(id, log, k);
    }
  }

  lemma LogContinues(id: Id, log: Log, k: nat)
    requires LogOk(id, log) && k < |log|
    ensures Continues(id, log, k)
  {
    assert CommitAt(id, log, k);
    if k > 0 {
      assert CommitAt(id, log, k - 1);
      LogIsNumbered(id, log);
      EntriesStay(log, k + 1, |log|);
      JoinsAt(log, k);
    }
  }

  /** Where commit `k` begins, the commit before it ends. */
  lemma JoinsAt(log: Log, k: nat)
    requires 0 < k < |log| && log[k].entries != [] && log[k - 1].entries != []
    requires Entries(log, k + 1) <= AllEntries(log)
    ensures var n := |Entries(log, k)|;
      0 < n < |AllEntries(log)| && AllEntries(log)[n] == log[k].entries[0]
      && AllEntries(log)[n - 1] == log[k - 1].entries[|log[k - 1].entries| - 1]
  {
    var before := Entries(log, k);
    assert before == Entries(log, k - 1) + log[k - 1].entries;
    assert Entries(log, k + 1) == before + log[k].entries;
    assert AllEntries(log)[|before|] == Entries(log, k + 1)[|before|];
    assert AllEntries(log)[|before| - 1] == Entries(log, k + 1)[|before| - 1];
  }

  /** Everything a store in a valid state holds can be exported, and imported elsewhere. */
  lemma HeldIsValid(store: SessionCommitStore)
    requires store.Valid()
    ensures ArchiveValid(store.sessions) && Importable(store.sessions)
  {
    forall id | id in store.sessions ensures StreamValid(id, store.sessions[id]) {
      LogIsStream(id, store.sessions[id]);
    }
  }

  method ExportSession(store: SessionCommitStore, id: Id) returns (ok: bool)
    requires store.Valid() && id in store.sessions
    ensures ok
  {
    LogIsStream(id, store.sessions[id]);
    ok := ValidateCommitStream(id, store.sessions[id]);
  }

  /** Exports every session; a store in a valid state is always exported completely. */
  method ExportSessionJournal(store: SessionCommitStore) returns (r: Result<Archive, JournalError>)
    requires store.Valid()
    ensures r == Ok(store.sessions)
  {
    var archive: Archive := map[];
    var rest := store.sessions.Keys;
    while rest != {}
      invariant rest <= store.sessions.Keys && archive.Keys == store.sessions.Keys - rest
      invariant forall id :: id in archive ==> archive[id] == store.sessions[id]
      decreases rest
    {
      var id :| id in rest;
      var valid := ExportSession(store, id);
      if !valid {
        return Err(ExportInvalid);
      }
      archive := archive[id := store.sessions[id]];
      rest := rest - {id};
    }
    assert archive == store.sessions;
    r := Ok(archive);
  }

  // ---------- Import ----------

  predicate Extended(before: map<Id, Log>, now: map<Id, Log>) {
    forall id :: id in before ==> id in now && before[id] <= now[id]
  }

  /** Sessions that are not in `rest` are complete, those in `rest` are as they were. */
  predicate Progress(before: map<Id, Log>, now: map<Id, Log>, archive: Archive, rest: set<Id>) {
    && PrefixTarget(now, archive) && Extended(before, now)
    && (forall id :: id in archive && id !in rest ==> id in now && now[id] == archive[id])
    && (forall id :: id in rest ==> Stored(now, id) == Stored(before, id))
  }

  /** Whatever part of a session was imported, the target is still a beginning; all of it is progress. */
  lemma SessionImported(before: map<Id, Log>, now: map<Id, Log>, after: map<Id, Log>, archive: Archive, rest: set<Id>, id: Id)
    requires Progress(before, now, archive, rest) && id in rest && id in archive && archive[id] != []
    requires OnlyChanged(now, after, id) && Stored(now, id) <= Stored(after, id) <= archive[id]
    ensures PrefixTarget(after, archive) && Extended(before, after)
    ensures Stored(after, id) == archive[id] ==> Progress(before, after, archive, rest - {id})
  {
  }

  /** The report counts the commits of all sessions but `rest`, and which of them the target already held. */
  ghost predicate Counted(before: map<Id, Log>, archive: Archive, rest: set<Id>, report: Report) {
    && report.commitCount + CommitCount(Only(archive, rest)) == CommitCount(archive)
    && report.duplicates + CommitCount(Only(before, rest)) == CommitCount(before)
    && report.accepted + report.duplicates == report.commitCount
  }

  function Only(sessions: map<Id, Log>, rest: set<Id>): map<Id, Log> {
    map id | id in sessions && id in rest :: sessions[id]
  }

  lemma CountOnly(sessions: map<Id, Log>, rest: set<Id>, id: Id)
    requires id in rest
    ensures CommitCount(Only(sessions, rest)) == |Stored(sessions, id)| + CommitCount(Only(sessions, rest - {id}))
  {
    if id in sessions {
      CountWithout(Only(sessions, rest), id);
      assert Only(sessions, rest) - {id} == Only(sessions, rest - {id});
    } else {
      assert Only(sessions, rest) == Only(sessions, rest - {id});
    }
  }

  lemma NextFitsIn(archive: Archive, rest: set<Id>, id: Id)
    requires id in rest && id in archive
    ensures |archive[id]| <= CommitCount(Only(archive, rest))
  {
    CountOnly(archive, rest, id);
  }

  lemma CountNext(before: map<Id, Log>, archive: Archive, rest: set<Id>, id: Id, report: Report, next: Report)
    requires Counted(before, archive, rest, report) && id in rest && id in archive
    requires next.commitCount == report.commitCount + |archive[id]|
    requires next.duplicates == report.duplicates + |Stored(before, id)|
    requires next.accepted + next.duplicates == next.commitCount
    ensures Counted(before, archive, rest - {id}, next) && next.commitCount <= CommitCount(archive)
  {
    CountOnly(archive, rest, id);
    CountOnly(before, rest, id);
  }

  lemma NothingImported(sessions: map<Id, Log>, archive: Archive)
    requires PrefixTarget(sessions, archive)
    ensures Progress(sessions, sessions, archive, archive.Keys)
    ensures Counted(sessions, archive, archive.Keys, Report(0, 0, 0))
  {
    assert Only(archive, archive.Keys) == archive;
    assert Only(sessions, archive.Keys) == sessions;
  }

  /** When no session is left, the target holds exactly the archive and every commit has been counted. */
  lemma AllImported(before: map<Id, Log>, now: map<Id, Log>, archive: Archive, report: Report)
    requires Progress(before, now, archive, {}) && Counted(before, archive, {}, report)
    ensures now == archive && report.commitCount == CommitCount(archive) && report.duplicates == CommitCount(before)
  {
    assert Only(archive, {}) == map[] && Only(before, {}) == map[];
  }

  /** Imports one of the remaining sessions and counts what became of its commits. */
  method ImportNext(store: SessionCommitStore, archive: Archive, ghost before: map<Id, Log>, ghost rest: set<Id>,
                    id: Id, report: Report, budget: nat)
    returns (stopped: Option<Outcome>, next: Report)
    requires store.Valid() && rest <= archive.Keys && id in rest && Follows(id, archive[id]) && report.commitCount <= budget
    requires Progress(before, store.sessions, archive, rest) && Counted(before, archive, rest, report)
    modifies store
    ensures store.Valid() && PrefixTarget(store.sessions, archive) && Extended(before, store.sessions)
    ensures stopped.None? ==> Progress(before, store.sessions, archive, rest - {id})
    ensures stopped.None? ==> Counted(before, archive, rest - {id}, next) && next.commitCount <= budget
    ensures stopped.Some? ==> !stopped.value.Imported?
    ensures LogOk(id, archive[id]) ==> stopped.None? || stopped.value.Interrupted?
    ensures budget >= CommitCount(archive) ==> stopped.None? || stopped.value.Refused?
  {
    ghost var now := store.sessions;
    NextFitsIn(archive, rest, id);
    var accepted, duplicates;
    stopped, accepted, duplicates := ImportSession(store, id, archive[id], budget - report.commitCount);
    SessionImported(before, now, store.sessions, archive, rest, id);
    next := Report(report.commitCount + |archive[id]|, report.accepted + accepted, report.duplicates + duplicates);
    if stopped.None? {
      CountNext(before, archive, rest, id, report, next);
    }
  }

  /** Imports every session in turn. */
  method ImportAll(store: SessionCommitStore, archive: Archive, budget: nat) returns (stopped: Option<Outcome>, report: Report)
    requires store.Valid() && PrefixTarget(store.sessions, archive)
    requires forall id :: id in archive ==> Follows(id, archive[id])
    modifies store
    ensures store.Valid() && PrefixTarget(store.sessions, archive) && Extended(old(store.sessions), store.sessions)
    ensures stopped.None? ==>
      && store.sessions == archive && report.commitCount == CommitCount(archive)
      && report.accepted + report.duplicates == report.commitCount
      && report.duplicates == CommitCount(old(store.sessions))
    ensures stopped.Some? ==> !stopped.value.Imported?
    ensures Importable(archive) ==> stopped.None? || stopped.value.Interrupted?
    ensures budget >= CommitCount(archive) ==> stopped.None? || stopped.value.Refused?
  {
    ghost var before := store.sessions;
    report := Report(0, 0, 0);
    var rest := archive.Keys;
    NothingImported(before, archive);
    while rest != {}
      invariant rest <= archive.Keys && report.commitCount <= budget && store.Valid()
      invariant Progress(before, store.sessions, archive, rest) && Counted(before, archive, rest, report)
      decreases rest
    {
      var id :| id in rest;
      var next;
      stopped, next := ImportNext(store, archive, before, rest, id, report, budget);
      if stopped.Some? {
        return;
      }
      report := next;
      rest := rest - {id};
    }
    AllImported(before, store.sessions, archive, report);
    stopped := None;
  }

  /**
   Imports an archive, possibly stopped after `budget` appends.  A target that is not a beginning of the
   archive is refused and left alone.  Otherwise, wherever the import stops, the target only grows and
   stays a beginning of the archive; it completes exactly if the archive is importable and it is not
   stopped, and then holds the archive and nothing else.
  */
  method ImportSessionJournal(store: SessionCommitStore, archive: Archive, budget: nat) returns (r: Outcome)
    requires store.Valid()
    modifies store
    ensures store.Valid()
    ensures !(ArchiveValid(archive) && PrefixTarget(old(store.sessions), archive)) ==>
      r.Refused? && store.sessions == old(store.sessions)
    ensures ArchiveValid(archive) && PrefixTarget(old(store.sessions), archive) ==>
      && PrefixTarget(store.sessions, archive) && Extended(old(store.sessions), store.sessions)
      && (Importable(archive) ==> !r.Refused?)
      && (budget >= CommitCount(archive) ==> !r.Interrupted?)
    ensures r.Imported? ==>
      && Importable(archive) && store.sessions == archive
      && r.report.commitCount == CommitCount(archive)
      && r.report.accepted + r.report.duplicates == r.report.commitCount
      && r.report.duplicates == CommitCount(old(store.sessions))
  {
    var valid := ValidatePortable(archive);
    if !valid {
      return Refused(ExportInvalid);
    }
    if !PrefixTarget(store.sessions, archive) {
      return Refused(TargetDiverged);
    }
    forall id | id in archive ensures Follows(id, archive[id]) {
      assert StreamValid(id, archive[id]);
    }
    var stopped, report := ImportAll(store, archive, budget);
    if stopped.Some? {
      return stopped.value;
    }
    HeldIsValid(store);
    var verified := ExportSessionJournal(store);
    if verified != Ok(archive) {
      return Refused(VerificationFailed);
    }
    r := Imported(report);
  }

  // ---------- A valid archive that no store accepts ----------

  function Single(entryId: Id, sequence: nat, data: EntryData): Commit
    requires sequence > 0
  {
    Commit("s", entryId, sequence - 1, entryId,
           [Entry(entryId, "s", sequence, sequence, sequence, None, None, data)])
  }

  lemma SinglesFollow(first: EntryData, second: EntryData, third: EntryData)
    requires first.SessionCreated? && !second.SessionCreated? && !third.SessionCreated?
    ensures Follows("s", [Single("a", 1, first), Single("bb", 2, second), Single("ccc", 3, third)])
  {
    var commits := [Single("a", 1, first), Single("bb", 2, second), Single("ccc", 3, third)];
    forall k | 0 <= k < 3 ensures Continues("s", commits, k) {
      assert |commits[k].entries| == 1 && EntryFits(commits[k], 0);
      assert LastSequence(commits, k) == k;
    }
  }

  /**
   Archives are validated as whole streams, stores accept commit by commit: a plan created in one commit
   and given its first step in the next is a valid stream, but its first two commits alone are refused.
  */
  lemma ValidArchiveMayNotImport() returns (archive: Archive)
    ensures ArchiveValid(archive) && !Importable(archive)
  {
    var step := NewStep("t", 0, StepState.Pending, [], 1);
    var created, stepped := OfPlan("p", 1, PlanCreated("o", PlanState.Draft)), OfPlan("p", 1, OfStep("t", StepCreated(step)));
    var c1, c2, c3 := Single("a", 1, SessionCreated), Single("bb", 2, created), Single("ccc", 3, stepped);
    SinglesFollow(SessionCreated, created, stepped);
    assert |"a"| != |"bb"| && |"a"| != |"ccc"| && |"bb"| != |"ccc"|;
    SmallestPlan(c1.entries[0], c2.entries[0], c3.entries[0], step);
    ReducesOnlyWhole("s", [c1, c2, c3]);
    archive := map["s" := [c1, c2, c3]];
    assert "s" in archive;
  }

  /** A stream of three commits that reduces as a whole, but not after the second. */
  lemma ReducesOnlyWhole(id: Id, commits: seq<Commit>)
    requires |commits| == 3 && Follows(id, commits)
    requires |commits[0].entries| == 1 && |commits[1].entries| == 1 && |commits[2].entries| == 1
    requires Reduce([commits[0].entries[0], commits[1].entries[0]]).Err?
    requires Reduce([commits[0].entries[0], commits[1].entries[0], commits[2].entries[0]]).Ok?
    ensures StreamValid(id, commits) && !LogOk(id, commits)
  {
    assert Entries(commits, 1) == [commits[0].entries[0]];
    assert Entries(commits, 2) == [commits[0].entries[0], commits[1].entries[0]];
    assert Entries(commits, 3) == [commits[0].entries[0], commits[1].entries[0], commits[2].entries[0]];
    assert !ReducesAt(commits, 1);
  }

  // ---------- Imports that are run again ----------

  /**
   An import stopped after any number of appends is finished by running it again; from then on a further
   import accepts nothing.
  */
  method ImportAgain(store: SessionCommitStore, archive: Archive, crash: nat) returns (resumed: Outcome, third: Outcome)
    requires store.Valid() && ArchiveValid(archive) && Importable(archive) && PrefixTarget(store.sessions, archive)
    modifies store
    ensures store.Valid() && store.sessions == archive
    ensures resumed.Imported? && third.Imported? && third.report.accepted == 0
  {
    var _ := ImportSessionJournal(store, archive, crash);
    var total := CountCommits(archive);
    resumed := ImportSessionJournal(store, archive, total);
    third := ImportSessionJournal(store, archive, total);
  }

  /** Exporting one store and importing into an empty one copies every session. */
  method CopyJournal(source: SessionCommitStore, target: SessionCommitStore) returns (r: Outcome)
    requires source.Valid() && target.Valid() && source != target && target.sessions == map[]
    modifies target
    ensures target.Valid() && r.Imported? && target.sessions == source.sessions
  {
    HeldIsValid(source);
    var archive := ExportSessionJournal(source);
    var total := CountCommits(archive.value);
    r := ImportSessionJournal(target, archive.value, total);
  }

  method CountCommits(archive: Archive) returns (n: nat)
    ensures n == CommitCount(archive)
  {
    n := 0;
    var rest := archive.Keys;
    assert Only(archive, rest) == archive;
    while rest != {}
      invariant rest <= archive.Keys && n + CommitCount(Only(archive, rest)) == CommitCount(archive)
      decreases rest
    {
      var id :| id in rest;
      CountOnly(archive, rest, id);
      n := n + |archive[id]|;
      rest := rest - {id};
    }
    assert Only(archive, {}) == map[];
  }
}
