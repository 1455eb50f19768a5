/**
 The commit log of each session: compare-and-swap appends with idempotent retries, and reads in pages
 that stay pinned to the head of the first page while other writers go on appending.
*/
module SessionJournal {
  import opened Wrappers
  import opened SessionPlan
  import opened SessionReducer

  const MAX_COMMIT_ENTRIES := 1024
  const MAX_PAGE_ENTRIES := 512

  /** A commit; its checksum is determined by the other fields and identifies them. */
  datatype Commit = Commit(
    sessionId: Id,
    commitId: Id,
    expectedRevision: nat,
    idempotencyKey: Id,
    entries: seq<Entry>)

  datatype Receipt = Receipt(commit: Commit, revision: int, firstSequence: int, lastSequence: int, duplicate: bool)

  type Log = seq<Commit>

  // ---------- Commits ----------

  predicate EntryFits(c: Commit, i: nat)
    requires i < |c.entries|
  {
    && c.entries[i].sessionId == c.sessionId
    && c.entries[i].revision == c.expectedRevision + 1
    && (i > 0 ==> c.entries[i].sequence == c.entries[i - 1].sequence + 1)
  }

  predicate CommitValid(c: Commit) {
    && 0 < |c.entries| <= MAX_COMMIT_ENTRIES
    && (forall i :: 0 <= i < |c.entries| ==> EntryFits(c, i))
    && (c.expectedRevision == 0 ==> c.entries[0].sequence == 1 && c.entries[0].data.SessionCreated?)
    && (c.expectedRevision > 0 ==> forall i :: 0 <= i < |c.entries| ==> !c.entries[i].data.SessionCreated?)
  }

  function ReceiptFor(c: Commit, duplicate: bool): Receipt
    requires CommitValid(c)
  {
    Receipt(c, c.expectedRevision + 1, c.entries[0].sequence, c.entries[|c.entries| - 1].sequence, duplicate)
  }

  // ---------- Logs ----------

  /** The entries of the first `n` commits. */
  function Entries(log: Log, n: nat): seq<Entry>
    requires n <= |log|
  {
    if n == 0 then [] else Entries(log, n - 1) + log[n - 1].entries
  }

  function AllEntries(log: Log): seq<Entry> {
    Entries(log, |log|)
  }

  predicate SharesKey(a: Commit, b: Commit) {
    a.commitId == b.commitId || a.idempotencyKey == b.idempotencyKey
  }

  /** The first commit that shares a key with the candidate, if any; it has to be the same commit. */
  function FindDuplicate(log: Log, candidate: Commit): (r: Result<Option<Commit>, JournalError>)
    ensures r == Ok(None) <==> forall k :: 0 <= k < |log| ==> !SharesKey(log[k], candidate)
    ensures r.Ok? && r.value.Some? ==> r.value.value == candidate && candidate in log
  {
    if log == [] then Ok(None)
    else
      var earlier :- FindDuplicate(log[..|log| - 1], candidate);
      var last := log[|log| - 1];
      if earlier.Some? then Ok(earlier)
      else if !SharesKey(last, candidate) then Ok(None)
      else if last == candidate then Ok(Some(last))
      else Err(IdempotencyConflict)
  }

  /** The commit must follow the head it was prepared against. */
  function AgainstHead(log: Log, c: Commit): Result<(), JournalError>
    requires CommitValid(c)
  {
    var entries := AllEntries(log);
    var revision := if entries == [] then 0 else entries[|entries| - 1].revision;
    var sequence := if entries == [] then 0 else entries[|entries| - 1].sequence;
    if c.expectedRevision != revision then Err(RevisionConflict)
    else if c.entries[0].sequence != sequence + 1 then Err(SequenceConflict)
    else Ok(())
  }

  /** An append: a retry of a stored commit changes nothing; a new one must fit and reduce. */
  ghost function Append(log: Log, c: Commit): Result<(Log, Receipt), JournalError> {
    if !CommitValid(c) then Err(CommitInvalid)
    else
      var duplicate :- FindDuplicate(log, c);
      if duplicate.Some? then Ok((log, ReceiptFor(duplicate.value, true)))
      else
        var _ :- AgainstHead(log, c);
        var _ :- Reduce(AllEntries(log) + c.entries);
        Ok((log + [c], ReceiptFor(c, false)))
  }

  ghost function LogAfter(log: Log, c: Commit): Log {
    if Append(log, c).Ok? then Append(log, c).value.0 else log
  }

  // ---------- What holds of every log ----------

  predicate CommitAt(id: Id, log: Log, k: nat)
    requires k < |log|
  {
    CommitValid(log[k]) && log[k].sessionId == id && log[k].expectedRevision == k
  }

  /** The entries up to and including commit `k` reduce. */
  ghost predicate ReducesAt(log: Log, k: nat)
    requires k < |log|
  {
    Reduce(Entries(log, k + 1)).Ok?
  }

  ghost predicate KeysDiffer(log: Log) {
    forall j, k :: 0 <= j < k < |log| ==> !SharesKey(log[j], log[k])
  }

  /** One commit per revision, each reducible with those before it, and no key used twice. */
  ghost predicate LogOk(id: Id, log: Log) {
    && (forall k :: 0 <= k < |log| ==> CommitAt(id, log, k))
    && (forall k :: 0 <= k < |log| ==> ReducesAt(log, k))
    && KeysDiffer(log)
  }

  lemma {:induction false} EntriesOfPrefix(log: Log, more: Log, n: nat)
    requires n <= |log| && log <= more
    ensures Entries(more, n) == Entries(log, n)
  {
    if n > 0 {
      EntriesOfPrefix(log, more, n - 1);
      assert more[n - 1] == log[n - 1];
    }
  }

  /** A longer log begins with the entries of a shorter one. */
  lemma {:induction false} EntriesStay(log: Log, n: nat, m: nat)
    requires n <= m <= |log|
    ensures Entries(log, n) <= Entries(log, m)
  {
    if n < m {
      EntriesStay(log, n, m - 1);
    }
  }

  lemma PinnedIsStart(pinned: Log, log: Log)
    requires pinned <= log
    ensures AllEntries(pinned) <= AllEntries(log)
  {
    EntriesOfPrefix(pinned, log, |pinned|);
    EntriesStay(log, |pinned|, |log|);
  }

  lemma SnocEntries(log: Log, c: Commit)
    ensures AllEntries(log + [c]) == AllEntries(log) + c.entries
  {
    EntriesOfPrefix(log, log + [c], |log|);
  }

  /** The last entry of a log carries the revision of its last commit. */
  lemma HeadRevision(id: Id, log: Log)
    requires LogOk(id, log) && log != []
    ensures AllEntries(log) != [] && AllEntries(log)[|AllEntries(log)| - 1].revision == |log|
  {
    var last := log[|log| - 1];
    assert CommitAt(id, log, |log| - 1);
    assert EntryFits(last, |last.entries| - 1);
  }

  /** What an append that changes the log has checked. */
  lemma AppendChecks(id: Id, log: Log, c: Commit)
    requires LogOk(id, log) && Append(log, c).Ok? && !Append(log, c).value.1.duplicate
    ensures CommitValid(c) && c.expectedRevision == |log| && Append(log, c).value.0 == log + [c]
    ensures forall k :: 0 <= k < |log| ==> !SharesKey(log[k], c)
    ensures Reduce(AllEntries(log) + c.entries).Ok?
  {
    if log != [] {
      HeadRevision(id, log);
    }
  }

  lemma GrownLogReduces(log: Log, c: Commit)
    requires (forall k :: 0 <= k < |log| ==> ReducesAt(log, k)) && Reduce(AllEntries(log) + c.entries).Ok?
    ensures forall k :: 0 <= k < |log| + 1 ==> ReducesAt(log + [c], k)
  {
    forall k | 0 <= k < |log| + 1 ensures ReducesAt(log + [c], k) {
      if k < |log| {
        assert ReducesAt(log, k);
        EntriesOfPrefix(log, log + [c], k + 1);
      } else {
        SnocEntries(log, c);
      }
    }
  }

  lemma GrownLogIsOk(id: Id, log: Log, c: Commit)
    requires LogOk(id, log) && CommitAt(id, log + [c], |log|) && Reduce(AllEntries(log) + c.entries).Ok?
    requires forall k :: 0 <= k < |log| ==> !SharesKey(log[k], c)
    ensures LogOk(id, log + [c])
  {
    GrownLogReduces(log, c);
    forall k | 0 <= k < |log| + 1 ensures CommitAt(id, log + [c], k) {
      assert k < |log| ==> CommitAt(id, log, k);
    }
  }

  lemma AppendKeepsLog(id: Id, log: Log, c: Commit)
    requires LogOk(id, log) && c.sessionId == id
    ensures LogOk(id, LogAfter(log, c)) && log <= LogAfter(log, c)
  {
    if Append(log, c).Ok? && !Append(log, c).value.1.duplicate {
      AppendChecks(id, log, c);
      GrownLogIsOk(id, log, c);
    }
  }

  /** An accepted new commit was prepared against the current head: no writer overwrites another. */
  lemma AcceptedSawHead(id: Id, log: Log, c: Commit)
    requires LogOk(id, log) && Append(log, c).Ok?
    ensures Append(log, c).value.1.duplicate <==> c in log
    ensures c !in log ==> c.expectedRevision == |log| && forall k :: 0 <= k < |log| ==> !SharesKey(log[k], c)
  {
    if !Append(log, c).value.1.duplicate {
      AppendChecks(id, log, c);
    }
  }

  /** Retrying an accepted commit, at any later time, is answered by its own receipt and changes nothing. */
  lemma RetryIsDuplicate(id: Id, log: Log, k: nat)
    requires LogOk(id, log) && k < |log|
    ensures CommitValid(log[k]) && Append(log, log[k]) == Ok((log, ReceiptFor(log[k], true)))
  {
    assert CommitAt(id, log, k);
    FindsItself(log, k);
  }

  lemma {:induction false} FindsItself(log: Log, k: nat)
    requires KeysDiffer(log) && k < |log|
    ensures FindDuplicate(log, log[k]) == Ok(Some(log[k]))
  {
    var n := |log| - 1;
    if k < n {
      assert log[..n][k] == log[k];
      FindsItself(log[..n], k);
    } else {
      assert forall j :: 0 <= j < n ==> !SharesKey(log[..n][j], log[n]);
    }
  }

  /** Any number of writers, in any order: what they leave is a log. */
  ghost function Appends(log: Log, commits: seq<Commit>): Log
    decreases |commits|
  {
    if commits == [] then log else LogAfter(Appends(log, commits[..|commits| - 1]), commits[|commits| - 1])
  }

  lemma {:induction false} AppendsKeepLog(id: Id, log: Log, commits: seq<Commit>)
    requires LogOk(id, log) && forall i :: 0 <= i < |commits| ==> commits[i].sessionId == id
    ensures LogOk(id, Appends(log, commits)) && log <= Appends(log, commits)
    decreases |commits|
  {
    if commits != [] {
      var n := |commits| - 1;
      AppendsKeepLog(id, log, commits[..n]);
      AppendKeepsLog(id, Appends(log, commits[..n]), commits[n]);
    }
  }

  /** Entry `i` of an accepted journal has sequence `i + 1`, and only the first creates the session. */
  ghost predicate Numbered(entries: seq<Entry>) {
    forall i :: 0 <= i < |entries| ==>
      entries[i].sequence == i + 1 && (entries[i].data.SessionCreated? <==> i == 0)
  }

  lemma EntryAdvances(s: Session, e: Entry)
    requires Apply(s, e).Ok?
    ensures e.sequence == s.sequence + 1 && Apply(s, e).value.sequence == e.sequence && !e.data.SessionCreated?
  {
  }

  lemma {:induction false} ReplayAdvances(s: Session, entries: seq<Entry>, i: nat, j: nat)
    requires i < j <= |entries| && Replay(s, entries, i, j).Ok?
    ensures Replay(s, entries, i, j - 1).Ok?
    ensures Replay(s, entries, i, j).value.sequence == entries[j - 1].sequence == s.sequence + j - i
    ensures !entries[j - 1].data.SessionCreated?
    decreases j
  {
    EntryAdvances(Replay(s, entries, i, j - 1).value, entries[j - 1]);
    if i + 1 < j {
      ReplayAdvances(s, entries, i, j - 1);
    }
  }

  lemma ReplayNumbers(s: Session, entries: seq<Entry>, i: nat, k: nat, j: nat)
    requires i <= k < j <= |entries| && Replay(s, entries, i, j).Ok?
    ensures entries[k].sequence == s.sequence + k - i + 1 && !entries[k].data.SessionCreated?
  {
    ReplaySplits(s, entries, i, k + 1, j);
    ReplayAdvances(s, entries, i, k + 1);
  }

  lemma ReducedIsNumbered(entries: seq<Entry>)
    requires Reduce(entries).Ok?
    ensures entries != [] && Numbered(entries)
  {
    forall k | 1 <= k < |entries| ensures entries[k].sequence == k + 1 && !entries[k].data.SessionCreated? {
      ReplayNumbers(Begin(entries[0]).value, entries, 1, k, |entries|);
    }
  }

  lemma LogIsNumbered(id: Id, log: Log)
    requires LogOk(id, log)
    ensures Numbered(AllEntries(log))
  {
    if log != [] {
      assert ReducesAt(log, |log| - 1);
      ReducedIsNumbered(AllEntries(log));
    }
  }

  /**
   After any interleaving of append attempts there is one commit per revision, the sequences run from
   one without a gap, and exactly the first entry creates the session.
  */
  lemma WritersLeaveALog(id: Id, commits: seq<Commit>)
    requires forall i :: 0 <= i < |commits| ==> commits[i].sessionId == id
    ensures LogOk(id, Appends([], commits)) && Numbered(AllEntries(Appends([], commits)))
  {
    AppendsKeepLog(id, [], commits);
    LogIsNumbered(id, Appends([], commits));
  }

  // ---------- What an append answers ----------

  /** One revision of one session, numbered without a gap, creating the session exactly at its start. */
  ghost predicate WellFormed(c: Commit) {
    && 1 <= |c.entries| <= 1024
    && (forall e :: e in c.entries ==> e.sessionId == c.sessionId && e.revision == c.expectedRevision + 1)
    && (forall i :: 0 <= i < |c.entries| ==> c.entries[i].sequence == c.entries[0].sequence + i)
    && if c.expectedRevision == 0 then c.entries[0].sequence == 1 && c.entries[0].data == SessionCreated
       else SessionCreated !in DataOf(c.entries)
  }

  ghost function DataOf(entries: seq<Entry>): set<EntryData> {
    set e | e in entries :: e.data
  }

  lemma {:induction false} ConsecutiveFromFirst(c: Commit, i: nat)
    requires i < |c.entries| && forall j :: 0 <= j < |c.entries| ==> EntryFits(c, j)
    ensures c.entries[i].sequence == c.entries[0].sequence + i
  {
    if i > 0 {
      assert EntryFits(c, i);
      ConsecutiveFromFirst(c, i - 1);
    }
  }

  lemma WellFormedExactly(c: Commit)
    ensures CommitValid(c) <==> WellFormed(c)
  {
    if CommitValid(c) {
      forall i | 0 <= i < |c.entries| ensures c.entries[i].sequence == c.entries[0].sequence + i {
        ConsecutiveFromFirst(c, i);
      }
      forall e | e in c.entries ensures e.sessionId == c.sessionId && e.revision == c.expectedRevision + 1 {
        var i :| 0 <= i < |c.entries| && c.entries[i] == e;
        assert EntryFits(c, i);
      }
    }
    if WellFormed(c) {
      forall i | 0 <= i < |c.entries| ensures EntryFits(c, i) {
        assert c.entries[i] in c.entries;
      }
      forall i | 0 <= i < |c.entries| && c.expectedRevision > 0 ensures !c.entries[i].data.SessionCreated? {
        assert c.entries[i].data in DataOf(c.entries);
      }
    }
  }

  /** Of the commits stored, the one at `k` holds the revision `k + 1` and the sequences that follow those before it. */
  ghost function StoredReceipt(log: Log, k: nat, duplicate: bool): Receipt
    requires k < |log|
  {
    Receipt(log[k], k + 1, |Entries(log, k)| + 1, |Entries(log, k + 1)|, duplicate)
  }

  lemma ReceiptIsStored(id: Id, log: Log, k: nat, duplicate: bool)
    requires LogOk(id, log) && k < |log|
    ensures CommitValid(log[k]) && ReceiptFor(log[k], duplicate) == StoredReceipt(log, k, duplicate)
  {
    assert CommitAt(id, log, k);
    LogIsNumbered(id, log);
    EntriesStay(log, k + 1, |log|);
    var c, all, first := log[k], AllEntries(log), |Entries(log, k)|;
    assert Entries(log, k + 1) == Entries(log, k) + c.entries;
    assert all[first] == Entries(log, k + 1)[first] == c.entries[0];
    assert all[first + |c.entries| - 1] == Entries(log, k + 1)[first + |c.entries| - 1] == c.entries[|c.entries| - 1];
  }

  /** The answer to an append, from the log before and after it. */
  ghost predicate AnsweredAs(log: Log, c: Commit, r: Result<(Log, Receipt), JournalError>) {
    if !WellFormed(c) then r == Err(CommitInvalid)
    else if c in log then exists k :: 0 <= k < |log| && log[k] == c && r == Ok((log, StoredReceipt(log, k, true)))
    else if exists other :: other in log && (other.commitId == c.commitId || other.idempotencyKey == c.idempotencyKey) then
      r == Err(IdempotencyConflict)
    else if c.expectedRevision != |log| then r == Err(RevisionConflict)
    else if c.entries[0].sequence != |AllEntries(log)| + 1 then r == Err(SequenceConflict)
    else
      match Reduce(AllEntries(log) + c.entries)
      case Err(error) => r == Err(error)
      case Ok(_) => r == Ok((log + [c], StoredReceipt(log + [c], |log|, false)))
  }

  lemma HeadIsCounted(id: Id, log: Log, c: Commit)
    requires LogOk(id, log) && CommitValid(c)
    ensures AgainstHead(log, c) ==
      if c.expectedRevision != |log| then Err(RevisionConflict)
      else if c.entries[0].sequence != |AllEntries(log)| + 1 then Err(SequenceConflict)
      else Ok(())
  {
    if log != [] {
      HeadRevision(id, log);
      LogIsNumbered(id, log);
    }
  }

  lemma {:induction false} StrangerConflicts(log: Log, c: Commit)
    requires c !in log
    ensures FindDuplicate(log, c) ==
      if exists other :: other in log && SharesKey(other, c) then Err(IdempotencyConflict) else Ok(None)
  {
    if log != [] {
      var n := |log| - 1;
      StrangerConflicts(log[..n], c);
      assert log == log[..n] + [log[n]];
      assert log[n] in log;
    }
  }

  /**
   An append is answered exactly so: a stored commit by the receipt it was stored with, any other that takes a used key
   or does not follow the head by its conflict, and a new one that follows and reduces by its place in the log after it.
  */
  lemma AppendExactly(id: Id, log: Log, c: Commit)
    requires LogOk(id, log) && c.sessionId == id
    ensures AnsweredAs(log, c, Append(log, c))
  {
    WellFormedExactly(c);
    if CommitValid(c) {
      if c in log {
        var k :| 0 <= k < |log| && log[k] == c;
        RetryIsDuplicate(id, log, k);
        ReceiptIsStored(id, log, k, true);
      } else {
        StrangerConflicts(log, c);
        HeadIsCounted(id, log, c);
        if Append(log, c).Ok? {
          AppendKeepsLog(id, log, c);
          ReceiptIsStored(id, log + [c], |log|, false);
        }
      }
    }
  }

  // ---------- Pages ----------

  datatype Head = Head(revision: int, sequence: int)

  datatype Page = Page(entries: seq<Entry>, nextAfter: int, hasMore: bool, head: Head)

  /** Of the first `n` entries, those after `after` and up to `through`. */
  function Between(entries: seq<Entry>, n: nat, after: int, through: int): seq<Entry>
    requires n <= |entries|
  {
    if n == 0 then []
    else
      var last := entries[n - 1];
      Between(entries, n - 1, after, through) + (if after < last.sequence <= through then [last] else [])
  }

  function Stretch(entries: seq<Entry>, from: nat, to: nat): seq<Entry>
    requires to <= |entries|
  {
    if from < to then entries[from..to] else []
  }

  function Take(entries: seq<Entry>, limit: nat): seq<Entry> {
    if |entries| <= limit then entries else entries[..limit]
  }

  function PageOf(log: Log, after: nat, limit: nat, through: Option<int>): Result<Page, JournalError> {
    PageFrom(AllEntries(log), after, limit, through)
  }

  function PageFrom(entries: seq<Entry>, after: nat, limit: nat, through: Option<int>): Result<Page, JournalError> {
    if entries == [] then Err(NotFound)
    else
      var last := entries[|entries| - 1];
      var upTo := through.GetOr(last.sequence);
      if upTo > last.sequence then Err(ReadInvalid)
      else
        var selected := Take(Between(entries, |entries|, after, upTo), limit);
        var next := if selected == [] then after else selected[|selected| - 1].sequence;
        Ok(Page(selected, next, next < upTo, Head(last.revision, last.sequence)))
  }

  /** What a reader checks of every page it is given. */
  predicate PageValid(page: Page, id: Id, after: nat, limit: nat, through: Option<int>) {
    var upTo := through.GetOr(page.head.sequence);
    && page.nextAfter >= 0 && page.head.revision >= 0 && page.head.sequence >= 0
    && page.head.sequence >= upTo
    && |page.entries| <= limit
    && (forall i :: 0 <= i < |page.entries| ==>
          page.entries[i].sessionId == id && after < page.entries[i].sequence <= upTo)
    && (forall i :: 0 < i < |page.entries| ==> page.entries[i].sequence == page.entries[i - 1].sequence + 1)
    && page.nextAfter == (if page.entries == [] then after else page.entries[|page.entries| - 1].sequence)
    && page.hasMore == (page.nextAfter < upTo)
  }

  lemma StretchGrows(entries: seq<Entry>, from: nat, to: nat)
    requires from <= to < |entries|
    ensures Stretch(entries, from, to + 1) == Stretch(entries, from, to) + [entries[to]]
  {
  }

  /** Whether the entry at position `n` is selected depends on its position alone. */
  lemma BetweenNext(entries: seq<Entry>, n: nat, after: nat, through: nat)
    requires n < |entries| && entries[n].sequence == n + 1
    ensures Between(entries, n + 1, after, through)
         == Between(entries, n, after, through) + (if after <= n < through then [entries[n]] else [])
  {
  }

  lemma {:induction false} BetweenIsStretch(entries: seq<Entry>, n: nat, after: nat, through: nat)
    requires (forall i :: 0 <= i < |entries| ==> entries[i].sequence == i + 1) && n <= |entries| && through <= |entries|
    ensures Between(entries, n, after, through) == Stretch(entries, after, if n < through then n else through)
  {
    if n > 0 {
      var m := n - 1;
      BetweenIsStretch(entries, m, after, through);
      BetweenNext(entries, m, after, through);
      if after <= m < through {
        StretchGrows(entries, after, m);
      } else if m < through {
        assert Stretch(entries, after, n) == [] == Stretch(entries, after, m);
      }
    }
  }

  lemma TakeOfStretch(entries: seq<Entry>, from: nat, to: nat, limit: nat)
    requires from <= to <= |entries|
    ensures Take(Stretch(entries, from, to), limit) == entries[from..if to - from <= limit then to else from + limit]
  {
  }

  /** Where the page that starts after `after` ends. */
  function PageEnd(after: nat, limit: nat, upTo: nat): nat {
    if upTo - after <= limit then upTo else after + limit
  }

  lemma PageOfNumbered(entries: seq<Entry>, after: nat, limit: nat, through: Option<int>)
    requires Numbered(entries) && entries != [] && 0 < limit
    requires after <= through.GetOr(|entries|) <= |entries|
    ensures var upTo := through.GetOr(|entries|);
      PageFrom(entries, after, limit, through)
      == Ok(Page(entries[after..PageEnd(after, limit, upTo)], PageEnd(after, limit, upTo),
                 PageEnd(after, limit, upTo) < upTo, Head(entries[|entries| - 1].revision, |entries|)))
  {
    var upTo: nat := through.GetOr(|entries|);
    BetweenIsStretch(entries, |entries|, after, upTo);
    TakeOfStretch(entries, after, upTo, limit);
    LastOfStretch(entries, after, PageEnd(after, limit, upTo));
  }

  lemma LastOfStretch(entries: seq<Entry>, from: nat, to: nat)
    requires Numbered(entries) && from <= to <= |entries|
    ensures to == if entries[from..to] == [] then from else entries[from..to][to - from - 1].sequence
  {
  }

  /** From a log, a page is the next stretch of entries, up to the limit or to the pinned head. */
  lemma PageIsStretch(id: Id, log: Log, after: nat, limit: nat, through: Option<int>)
    requires LogOk(id, log) && log != [] && 0 < limit
    requires after <= through.GetOr(|AllEntries(log)|) <= |AllEntries(log)|
    ensures var entries := AllEntries(log);
      var upTo := through.GetOr(|entries|);
      PageOf(log, after, limit, through)
      == Ok(Page(entries[after..PageEnd(after, limit, upTo)], PageEnd(after, limit, upTo),
                 PageEnd(after, limit, upTo) < upTo, Head(|log|, |entries|)))
  {
    HeadRevision(id, log);
    LogIsNumbered(id, log);
    PageOfNumbered(AllEntries(log), after, limit, through);
  }

  /**
   Any request for a page of a log: a session without entries is not found, a bound past the head is refused, and a
   reader that is past the bound gets nothing and is told that there is no more.
  */
  lemma PageAnswersExactly(id: Id, log: Log, after: nat, limit: nat, through: Option<int>)
    requires LogOk(id, log) && 0 < limit
    ensures var entries, page := AllEntries(log), PageOf(log, after, limit, through);
      && (log == [] ==> page == Err(NotFound))
      && (log != [] && through.GetOr(|entries|) > |entries| ==> page == Err(ReadInvalid))
      && (log != [] && through.GetOr(|entries|) <= |entries| && after > through.GetOr(|entries|) ==>
            page == Ok(Page([], after, false, Head(|log|, |entries|))))
      && (log != [] && after <= through.GetOr(|entries|) <= |entries| ==>
            page.Ok? && page.value.head == Head(|log|, |entries|))
  {
    if log != [] {
      HeadRevision(id, log);
      LogIsNumbered(id, log);
      var entries := AllEntries(log);
      var upTo := through.GetOr(|entries|);
      if upTo <= |entries| {
        if after <= upTo {
          PageIsStretch(id, log, after, limit, through);
        } else {
          NothingBetween(entries, |entries|, after, upTo);
        }
      }
    }
  }

  lemma {:induction false} NothingBetween(entries: seq<Entry>, n: nat, after: nat, through: int)
    requires n <= |entries| && through <= after
    ensures Between(entries, n, after, through) == []
  {
    if n > 0 {
      NothingBetween(entries, n - 1, after, through);
    }
  }

  /** A reader's check accepts every page of a log. */
  lemma PageIsValid(id: Id, log: Log, after: nat, limit: nat, through: Option<int>)
    requires LogOk(id, log) && log != [] && 0 < limit
    requires after <= through.GetOr(|AllEntries(log)|) <= |AllEntries(log)|
    ensures PageOf(log, after, limit, through).Ok?
    ensures PageValid(PageOf(log, after, limit, through).value, id, after, limit, through)
  {
    PageIsStretch(id, log, after, limit, through);
    LogIsNumbered(id, log);
    EntriesBelong(id, log, |log|);
    var entries := AllEntries(log);
    var page := PageOf(log, after, limit, through).value;
    forall i | 0 <= i < |page.entries|
      ensures page.entries[i].sequence == after + i + 1 && page.entries[i].sessionId == id
    {
      assert page.entries[i] == entries[after + i];
    }
  }

  lemma {:induction false} EntriesBelong(id: Id, log: Log, n: nat)
    requires LogOk(id, log) && n <= |log|
    ensures forall i :: 0 <= i < |Entries(log, n)| ==> Entries(log, n)[i].sessionId == id
  {
    if n > 0 {
      EntriesBelong(id, log, n - 1);
      var c := log[n - 1];
      assert CommitAt(id, log, n - 1);
      forall i | 0 <= i < |c.entries| ensures c.entries[i].sessionId == id {
        assert EntryFits(c, i);
      }
    }
  }

  /** The reader asks for pages of 512 entries, and is given that many if there are. */
  lemma PagesHold512(id: Id, log: Log, after: nat)
    requires LogOk(id, log) && log != [] && after + 512 <= |AllEntries(log)|
    ensures var page := PageOf(log, after, MAX_PAGE_ENTRIES, None);
      page.Ok? && page.value.entries == AllEntries(log)[after..after + 512]
  {
    PageIsStretch(id, log, after, MAX_PAGE_ENTRIES, None);
  }

  // ---------- Readers of backends that are not trusted ----------

  /** The first `n` pages form one reading: each valid, asked for where the one before ended, all pinned to the first head. */
  ghost predicate Chained(pages: seq<Page>, id: Id, n: nat)
    requires n <= |pages|
  {
    if n == 0 then true
    else if n == 1 then PageValid(pages[0], id, 0, MAX_PAGE_ENTRIES, None)
    else
      && Chained(pages, id, n - 1)
      && pages[n - 2].hasMore && pages[n - 2].nextAfter >= 0
      && PageValid(pages[n - 1], id, pages[n - 2].nextAfter, MAX_PAGE_ENTRIES, Some(pages[0].head.sequence))
  }

  function Collected(pages: seq<Page>, n: nat): seq<Entry>
    requires n <= |pages|
  {
    if n == 0 then [] else Collected(pages, n - 1) + pages[n - 1].entries
  }

  /** A valid page moves the cursor to its last entry, and not past the pinned head. */
  lemma CursorMoves(page: Page, id: Id, after: nat, through: Option<int>)
    requires PageValid(page, id, after, MAX_PAGE_ENTRIES, through)
    ensures page.nextAfter == if page.entries == [] then after else page.entries[|page.entries| - 1].sequence
    ensures !page.hasMore ==> page.nextAfter >= through.GetOr(page.head.sequence)
    ensures page.entries != [] ==> page.nextAfter <= through.GetOr(page.head.sequence)
  {
  }

  ghost function Cursor(read: seq<Entry>): int {
    if read == [] then 0 else read[|read| - 1].sequence
  }

  lemma CursorAfter(read: seq<Entry>, more: seq<Entry>)
    ensures Cursor(read + more) == if more == [] then Cursor(read) else more[|more| - 1].sequence
  {
    if more == [] {
      assert read + more == read;
    }
  }

  /** Where the reading stood before page `n`. */
  function CursorBefore(pages: seq<Page>, n: nat): int
    requires 0 < n <= |pages|
  {
    if n == 1 then 0 else pages[n - 2].nextAfter
  }

  lemma LastPage(pages: seq<Page>, id: Id, n: nat)
    requires 0 < n <= |pages| && Chained(pages, id, n)
    ensures n > 1 ==> Chained(pages, id, n - 1)
    ensures var page := pages[n - 1];
      && page.nextAfter == (if page.entries == [] then CursorBefore(pages, n) else page.entries[|page.entries| - 1].sequence)
      && (!page.hasMore ==> page.nextAfter >= pages[0].head.sequence)
      && (page.entries != [] ==> page.nextAfter <= pages[0].head.sequence)
  {
    if n == 1 {
      CursorMoves(pages[0], id, 0, None);
    } else {
      CursorMoves(pages[n - 1], id, pages[n - 2].nextAfter, Some(pages[0].head.sequence));
    }
  }

  lemma {:induction false} CursorIsLastSequence(pages: seq<Page>, id: Id, n: nat)
    requires 0 < n <= |pages| && Chained(pages, id, n)
    ensures pages[n - 1].nextAfter == Cursor(Collected(pages, n))
  {
    LastPage(pages, id, n);
    CursorAfter(Collected(pages, n - 1), pages[n - 1].entries);
    if n > 1 {
      CursorIsLastSequence(pages, id, n - 1);
    }
  }

  lemma {:induction false} CursorIsBounded(pages: seq<Page>, id: Id, n: nat)
    requires 0 < n <= |pages| && Chained(pages, id, n) && Collected(pages, n) != []
    ensures pages[n - 1].nextAfter <= pages[0].head.sequence
  {
    LastPage(pages, id, n);
    if pages[n - 1].entries == [] {
      assert Collected(pages, n) == Collected(pages, n - 1);
      CursorIsBounded(pages, id, n - 1);
    }
  }

  /**
   Whatever backend answered: if every page passes the reader's check, the reading ends, and the
   entries reduce, then they are exactly the entries numbered from one up to the first page's head.
  */
  lemma CheckedReadingIsComplete(pages: seq<Page>, id: Id)
    requires pages != [] && Chained(pages, id, |pages|) && !pages[|pages| - 1].hasMore
    requires Reduce(Collected(pages, |pages|)).Ok?
    ensures Numbered(Collected(pages, |pages|)) && |Collected(pages, |pages|)| == pages[0].head.sequence
  {
    CursorIsLastSequence(pages, id, |pages|);
    LastPage(pages, id, |pages|);
    ReducedIsNumbered(Collected(pages, |pages|));
    CursorIsBounded(pages, id, |pages|);
  }

  // ---------- When a checked reading makes progress and ends ----------

  /** A valid page brings the reader further exactly if it holds an entry. */
  lemma ProgressMeansEntries(page: Page, id: Id, after: nat, limit: nat, through: Option<int>)
    requires PageValid(page, id, after, limit, through)
    ensures page.nextAfter > after <==> page.entries != []
  {
  }

  /** No page of the reading says that there is more without giving some of it. */
  predicate NeverStuck(pages: seq<Page>) {
    forall i :: 0 <= i < |pages| && pages[i].hasMore ==> pages[i].entries != []
  }

  lemma {:induction false} CursorKeepsPace(pages: seq<Page>, id: Id, n: nat)
    requires 0 < n <= |pages| && Chained(pages, id, n) && NeverStuck(pages) && pages[n - 1].hasMore
    ensures n <= pages[n - 1].nextAfter < pages[0].head.sequence
  {
    LastPage(pages, id, n);
    if n > 1 {
      CursorKeepsPace(pages, id, n - 1);
    }
  }

  /** Whatever backend answers: without stuck pages, a checked reading asks at most once per entry of the pinned head. */
  lemma CheckedReadingEnds(pages: seq<Page>, id: Id)
    requires pages != [] && Chained(pages, id, |pages|) && NeverStuck(pages)
    ensures |pages| == 1 || |pages| <= pages[0].head.sequence
    ensures pages[|pages| - 1].hasMore ==> |pages| < pages[0].head.sequence
  {
    if |pages| > 1 {
      CursorKeepsPace(pages, id, |pages| - 1);
    }
    if pages[|pages| - 1].hasMore {
      CursorKeepsPace(pages, id, |pages|);
    }
  }

  function Again(page: Page, n: nat): (r: seq<Page>)
    ensures |r| == n && forall i :: 0 <= i < n ==> r[i] == page
  {
    seq(n, _ => page)
  }

  lemma {:induction false} ChainedPrefix(pages: seq<Page>, more: seq<Page>, id: Id, n: nat)
    requires n <= |pages|
    ensures Chained(pages + more, id, n) == Chained(pages, id, n)
  {
    if n > 1 {
      ChainedPrefix(pages, more, id, n - 1);
    }
  }

  lemma ChainedNext(pages: seq<Page>, page: Page, id: Id)
    requires pages != [] && Chained(pages, id, |pages|)
    requires pages[|pages| - 1].hasMore && pages[|pages| - 1].nextAfter >= 0
    requires PageValid(page, id, pages[|pages| - 1].nextAfter, MAX_PAGE_ENTRIES, Some(pages[0].head.sequence))
    ensures Chained(pages + [page], id, |pages| + 1)
  {
    ChainedPrefix(pages, [page], id, |pages|);
  }

  /** The last answer comes `n` more times. */
  ghost predicate Repeats(pages: seq<Page>, id: Id, n: nat) {
    pages != [] && Chained(pages + Again(pages[|pages| - 1], n), id, |pages| + n)
  }

  lemma AgainOnce(pages: seq<Page>, page: Page, n: nat)
    requires n > 0 && pages != [] && pages[|pages| - 1] == page
    ensures var before := pages + Again(page, n - 1);
      && before + [page] == pages + Again(page, n)
      && |before| == |pages| + n - 1 && before[|before| - 1] == page && before[0] == pages[0]
  {
  }

  /** After a stuck page the same answer passes the check any number of times. */
  lemma {:induction false} StuckPageRepeats(pages: seq<Page>, id: Id, n: nat)
    requires pages != [] && Chained(pages, id, |pages|)
    requires pages[|pages| - 1].hasMore && pages[|pages| - 1].entries == []
    requires pages[|pages| - 1].head.sequence >= pages[0].head.sequence
    ensures Repeats(pages, id, n)
  {
    var page := pages[|pages| - 1];
    if n == 0 {
      assert pages + Again(page, 0) == pages;
    } else {
      StuckPageRepeats(pages, id, n - 1);
      LastPage(pages, id, |pages|);
      StuckPageIsValid(page, id, pages[0].head.sequence);
      OnceMore(pages, id, n);
    }
  }

  lemma OnceMore(pages: seq<Page>, id: Id, n: nat)
    requires n > 0 && pages != [] && Repeats(pages, id, n - 1)
    requires var page := pages[|pages| - 1];
      page.hasMore && page.nextAfter >= 0
      && PageValid(page, id, page.nextAfter, MAX_PAGE_ENTRIES, Some(pages[0].head.sequence))
    ensures Repeats(pages, id, n)
  {
    var page := pages[|pages| - 1];
    AgainOnce(pages, page, n);
    ChainedNext(pages + Again(page, n - 1), page, id);
  }

  /** A stuck page is a valid answer to the request that follows it. */
  lemma StuckPageIsValid(page: Page, id: Id, upTo: int)
    requires page.entries == [] && page.hasMore && page.nextAfter >= 0 && page.nextAfter < upTo <= page.head.sequence
    requires page.head.revision >= 0
    ensures PageValid(page, id, page.nextAfter, MAX_PAGE_ENTRIES, Some(upTo))
  {
  }

  /** The entries of a page lie before its end, so the next request does not take them again. */
  lemma EntriesComeOnce(page: Page, id: Id, through: Option<int>)
    requires page.entries != [] && page.nextAfter == page.entries[|page.entries| - 1].sequence
    ensures page.nextAfter >= 0 ==> !PageValid(page, id, page.nextAfter, MAX_PAGE_ENTRIES, through)
  {
  }

  /** The last answer can be repeated without end, and pass the check every time, exactly if it is stuck. */
  lemma EndlessExactlyIfStuck(pages: seq<Page>, id: Id)
    requires pages != [] && Chained(pages, id, |pages|) && pages[|pages| - 1].hasMore
    ensures (forall n: nat :: Repeats(pages, id, n)) <==> pages[|pages| - 1].entries == []
  {
    var page := pages[|pages| - 1];
    if page.entries == [] {
      forall n: nat ensures Repeats(pages, id, n) {
        StuckPageRepeats(pages, id, n);
      }
    } else {
      LastPage(pages, id, |pages|);
      EntriesComeOnce(page, id, Some(pages[0].head.sequence));
      assert !Repeats(pages, id, 1);
    }
  }

  /** A page can be valid and yet bring a reader no further: progress is the backend's part. */
  lemma ValidPageWithoutProgress(id: Id, after: nat, limit: nat)
    ensures exists page: Page ::
      PageValid(page, id, after, limit, None) && page.hasMore && page.entries == [] && page.nextAfter == after
  {
    var page := Page([], after, true, Head(1, after + 1));
    assert PageValid(page, id, after, limit, None);
  }
}
