/**
 A store of session logs, and the reader that collects a whole session page by page while other
 writers append in between.
*/
module CommitStore {
  import opened Wrappers
  import opened SessionPlan
  import opened SessionReducer
  import opened SessionJournal

  /** The first page of a log starts at its beginning and carries its head. */
  lemma FirstPage(id: Id, log: Log)
    requires LogOk(id, log) && log != []
    ensures PageOf(log, 0, MAX_PAGE_ENTRIES, None).Ok?
    ensures var page := PageOf(log, 0, MAX_PAGE_ENTRIES, None).value;
      && PageValid(page, id, 0, MAX_PAGE_ENTRIES, None)
      && page.head.sequence == |AllEntries(log)| && 0 <= page.nextAfter <= |AllEntries(log)|
      && page.entries == AllEntries(log)[..page.nextAfter]
      && page.hasMore == (page.nextAfter < |AllEntries(log)|)
  {
    PageIsStretch(id, log, 0, MAX_PAGE_ENTRIES, None);
    PageIsValid(id, log, 0, MAX_PAGE_ENTRIES, None);
  }

  /** However the log has grown since, the next page continues the log as it was pinned. */
  lemma NextPage(id: Id, pinned: Log, log: Log, after: nat)
    requires LogOk(id, log) && pinned <= log && pinned != [] && after < |AllEntries(pinned)|
    ensures var through := |AllEntries(pinned)|;
      PageOf(log, after, MAX_PAGE_ENTRIES, Some(through)).Ok?
      && var page := PageOf(log, after, MAX_PAGE_ENTRIES, Some(through)).value;
      && PageValid(page, id, after, MAX_PAGE_ENTRIES, Some(through))
      && after < page.nextAfter <= through
      && page.entries == AllEntries(pinned)[after..page.nextAfter]
      && page.hasMore == (page.nextAfter < through)
  {
    PinnedIsStart(pinned, log);
    PageIsStretch(id, log, after, MAX_PAGE_ENTRIES, Some(|AllEntries(pinned)|));
    PageIsValid(id, log, after, MAX_PAGE_ENTRIES, Some(|AllEntries(pinned)|));
  }

  lemma Glue(entries: seq<Entry>, i: nat, j: nat)
    requires i <= j <= |entries|
    ensures entries[..i] + entries[i..j] == entries[..j]
  {
  }

  class SessionCommitStore {
    var sessions: map<Id, Log>

    constructor ()
      ensures Valid() && sessions == map[]
    {
      sessions := map[];
    }

    ghost predicate Valid()
      reads this
    {
      forall id :: id in sessions ==> sessions[id] != [] && LogOk(id, sessions[id])
    }

    function LogOf(id: Id): Log
      reads this
    {
      if id in sessions then sessions[id] else []
    }

    /** Appends a commit to the log of its session; a refused or repeated commit changes nothing. */
    method AppendCommit(c: Commit) returns (r: Result<Receipt, JournalError>)
      requires Valid()
      modifies this
      ensures Valid()
      ensures r.Ok? <==> Append(old(LogOf(c.sessionId)), c).Ok?
      ensures r.Ok? ==> r.value == Append(old(LogOf(c.sessionId)), c).value.1
      ensures r.Err? ==> r.error == Append(old(LogOf(c.sessionId)), c).error
      ensures sessions == if r.Ok? && !r.value.duplicate then old(sessions)[c.sessionId := old(LogOf(c.sessionId)) + [c]]
                          else old(sessions)
    {
      if !CommitValid(c) {
        return Err(CommitInvalid);
      }
      var log := LogOf(c.sessionId);
      var duplicate := FindDuplicate(log, c);
      if duplicate.Err? {
        return Err(duplicate.error);
      }
      if duplicate.value.Some? {
        return Ok(ReceiptFor(duplicate.value.value, true));
      }
      var fits := AgainstHead(log, c);
      if fits.Err? {
        return Err(fits.error);
      }
      var reduced := ReduceSessionEntries(AllEntries(log) + c.entries);
      if reduced.Err? {
        return Err(reduced.error);
      }
      AppendKeepsLog(c.sessionId, log, c);
      sessions := sessions[c.sessionId := log + [c]];
      r := Ok(ReceiptFor(c, false));
    }

    method ReadEntries(id: Id, after: nat, limit: nat, through: Option<int>) returns (r: Result<Page, JournalError>)
      ensures r == PageOf(LogOf(id), after, limit, through)
    {
      r := PageOf(LogOf(id), after, limit, through);
    }

    /** A page as a reader accepts it. */
    method ReadValidPage(id: Id, after: nat, through: Option<int>) returns (r: Result<Page, JournalError>)
      ensures var page := PageOf(LogOf(id), after, MAX_PAGE_ENTRIES, through);
        r == if page.Err? || PageValid(page.value, id, after, MAX_PAGE_ENTRIES, through) then page else Err(ContractInvalid)
    {
      r := ReadEntries(id, after, MAX_PAGE_ENTRIES, through);
      if r.Ok? && !PageValid(r.value, id, after, MAX_PAGE_ENTRIES, through) {
        r := Err(ContractInvalid);
      }
    }

    /** What writers leave behind only extends what was there. */
    twostate predicate Grown()
      reads this
    {
      forall id :: id in old(sessions) ==> id in sessions && old(sessions)[id] <= sessions[id]
    }

    /** Other writers: each of their commits is appended or refused. */
    method OthersAppend(commits: seq<Commit>)
      requires Valid()
      modifies this
      ensures Valid() && Grown()
    {
      for k := 0 to |commits|
        invariant Valid() && Grown()
      {
        var _ := AppendCommit(commits[k]);
      }
    }

    /** Other writers append, then the page after `after` of the pinned log is read. */
    method ReadNextPage(id: Id, ghost pinned: Log, after: nat, through: int, commits: seq<Commit>)
      returns (page: Result<Page, JournalError>)
      requires Valid() && pinned != [] && pinned <= LogOf(id)
      requires after < |AllEntries(pinned)| == through
      modifies this
      ensures Valid() && Grown() && pinned <= LogOf(id)
      ensures page.Ok? && after < page.value.nextAfter <= through
      ensures page.value.entries == AllEntries(pinned)[after..page.value.nextAfter]
      ensures page.value.hasMore == (page.value.nextAfter < through)
    {
      OthersAppend(commits);
      NextPage(id, pinned, sessions[id], after);
      page := ReadValidPage(id, after, Some(through));
    }

    /** Other writers append, then the first page of the log is read, which pins it. */
    method ReadFirstPage(id: Id, commits: seq<Commit>) returns (page: Result<Page, JournalError>, ghost pinned: Log)
      requires Valid()
      modifies this
      ensures Valid() && Grown() && LogOk(id, pinned) && old(LogOf(id)) <= pinned == LogOf(id)
      ensures page == if pinned == [] then Err(NotFound) else PageOf(pinned, 0, MAX_PAGE_ENTRIES, None)
      ensures page.Err? ==> pinned == []
    {
      OthersAppend(commits);
      pinned := LogOf(id);
      if pinned != [] {
        FirstPage(id, pinned);
      }
      page := ReadValidPage(id, 0, None);
    }

    /**
     Collects a session page by page.  Before page `k` the commits `others(k)` are appended by other
     writers.  The result is exactly the log as it was when the first page was read.
    */
    method ReadAllEntries(id: Id, others: nat -> seq<Commit>) returns (r: Result<seq<Entry>, JournalError>, ghost pinned: Log)
      requires Valid()
      modifies this
      ensures Valid() && Grown()
      ensures LogOk(id, pinned) && old(LogOf(id)) <= pinned <= LogOf(id)
      ensures r == if pinned == [] then Err(NotFound) else Ok(AllEntries(pinned))
    {
      var page;
      page, pinned := ReadFirstPage(id, others(0));
      if page.Err? {
        return page.Map((p: Page) => p.entries), pinned;
      }
      FirstPage(id, pinned);
      ghost var all := AllEntries(pinned);
      var through := page.value.head.sequence;
      var entries, after, hasMore := page.value.entries, page.value.nextAfter, page.value.hasMore;
      var k := 1;
      while hasMore
        invariant Valid() && Grown() && id in sessions && pinned <= sessions[id]
        invariant through == |all| && 0 <= after <= through
        invariant entries == all[..after] && hasMore == (after < through)
        decreases through - after
      {
        page := ReadNextPage(id, pinned, after, through, others(k));
        if page.Err? {
          return page.Map((p: Page) => p.entries), pinned;
        }
        Glue(all, after, page.value.nextAfter);
        entries := entries + page.value.entries;
        after := page.value.nextAfter;
        hasMore := page.value.hasMore;
        k := k + 1;
      }
      assert all[..through] == all;
      r := Ok(entries);
    }

    /** The session as the reader's entries rebuild it; every session that exists can be loaded. */
    method LoadProjection(id: Id, others: nat -> seq<Commit>) returns (r: Result<Session, JournalError>, ghost pinned: Log)
      requires Valid()
      modifies this
      ensures Valid() && Grown()
      ensures LogOk(id, pinned) && old(LogOf(id)) <= pinned <= LogOf(id)
      ensures r == if pinned == [] then Err(NotFound) else Reduce(AllEntries(pinned))
      ensures r.Ok? <==> pinned != []
    {
      var entries;
      entries, pinned := ReadAllEntries(id, others);
      if entries.Err? {
        return Err(entries.error), pinned;
      }
      assert ReducesAt(pinned, |pinned| - 1);
      r := ReduceSessionEntries(entries.value);
    }
  }
}
