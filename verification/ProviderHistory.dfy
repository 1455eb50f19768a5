/**
 A provider stream judged by its chunks alone: which chunk may follow which others, when the turn can be
 finished, and what it then holds.
*/
module ProviderHistory {
  import opened Wrappers
  import opened ProviderStream

  // ---------- What has been said so far ----------

  ghost predicate HasCompleted(chunks: seq<Chunk>) {
    exists c :: c in chunks && c.Completed?
  }

  ghost predicate HasLegacyCalls(chunks: seq<Chunk>) {
    exists c :: c in chunks && c.LegacyCalls?
  }

  ghost predicate BlockStarted(chunks: seq<Chunk>, index: int) {
    exists c :: c in chunks && c.BlockStart? && c.contentIndex == index
  }

  ghost predicate BlockEnded(chunks: seq<Chunk>, index: int) {
    exists c :: c in chunks && c.BlockEnd? && c.contentIndex == index
  }

  ghost predicate CallStarted(chunks: seq<Chunk>, index: int) {
    exists c :: c in chunks && c.ToolStart? && c.index == index
  }

  ghost predicate CallEnded(chunks: seq<Chunk>, index: int) {
    exists c :: c in chunks && c.ToolEnd? && c.index == index
  }

  ghost predicate UsesId(chunk: Chunk, id: string) {
    || (chunk.ToolStart? && chunk.id == id)
    || (chunk.LegacyCalls? && exists call :: call in chunk.calls && call.id == id)
  }

  ghost predicate IdUsed(chunks: seq<Chunk>, id: string) {
    exists c :: c in chunks && UsesId(c, id)
  }

  /** The pieces of a block, one after the other. */
  ghost function TextOf(chunks: seq<Chunk>, index: int): string {
    if chunks == [] then ""
    else
      var n := |chunks| - 1;
      TextOf(chunks[..n], index)
      + if chunks[n].BlockDelta? && chunks[n].contentIndex == index then chunks[n].text else ""
  }

  /** The pieces of a call's arguments, one after the other. */
  ghost function ArgumentsOf(chunks: seq<Chunk>, index: int): string {
    if chunks == [] then ""
    else
      var n := |chunks| - 1;
      ArgumentsOf(chunks[..n], index)
      + if chunks[n].ToolDelta? && chunks[n].index == index then chunks[n].argumentsDelta else ""
  }

  ghost function PlainText(chunks: seq<Chunk>): string {
    if chunks == [] then ""
    else
      var n := |chunks| - 1;
      PlainText(chunks[..n]) + if chunks[n].LegacyText? then chunks[n].legacy else ""
  }

  // ---------- What may come next ----------

  ghost predicate BadAmount(value: Option<real>) {
    exists x: real :: value == Some(x) && x < 0.0
  }

  ghost function CallObjection(before: seq<Chunk>, calls: seq<ToolCall>, k: nat): Option<StreamError>
    requires k < |calls|
  {
    if IdUsed(before, calls[k].id) || (exists j :: 0 <= j < k && calls[j].id == calls[k].id) then Some(ReusedToolCallId)
    else if calls[k].id == "" || calls[k].name == "" then Some(EmptyIdOrName)
    else None
  }

  /** The listed calls are objected to for the first bad one. */
  ghost predicate ObjectsToCalls(before: seq<Chunk>, calls: seq<ToolCall>, error: StreamError) {
    exists k :: 0 <= k < |calls| && CallObjection(before, calls, k) == Some(error)
             && forall j :: 0 <= j < k ==> CallObjection(before, calls, j).None?
  }

  ghost predicate IsIndex(index: int) {
    0 <= index < 0x20_0000_0000_0000
  }

  ghost predicate OpenBlock(before: seq<Chunk>, index: int) {
    BlockStarted(before, index) && !BlockEnded(before, index)
  }

  ghost predicate OpenCall(before: seq<Chunk>, index: int) {
    CallStarted(before, index) && !CallEnded(before, index)
  }

  /** Nothing speaks against this chunk after those before it. */
  ghost predicate Allowed(parse: Parser, before: seq<Chunk>, chunk: Chunk) {
    && !HasCompleted(before)
    && match chunk
       case MessageStart => MessageStart !in before
       case BlockStart(index, _) => IsIndex(index) && !BlockStarted(before, index)
       case BlockDelta(index, kind, _) => BlockStart(index, kind) in before && !BlockEnded(before, index)
       case BlockEnd(index, kind) => BlockStart(index, kind) in before && !BlockEnded(before, index)
       case LegacyText(_) => true
       case ToolStart(index, id, name) =>
         IsIndex(index) && !CallStarted(before, index) && !IdUsed(before, id) && id != "" && name != ""
       case ToolDelta(index, _) => OpenCall(before, index)
       case ToolEnd(index, input) =>
         OpenCall(before, index)
         && (input.Some? || ArgumentsOf(before, index) == "" || parse(ArgumentsOf(before, index)).Some?)
       case LegacyCalls(calls) => forall k :: 0 <= k < |calls| ==> CallObjection(before, calls, k).None?
       case Completed(_, usage) =>
         usage.Some? ==>
           !BadAmount(usage.value.inputTokens) && !BadAmount(usage.value.outputTokens)
           && !BadAmount(usage.value.cacheReadTokens) && !BadAmount(usage.value.cacheWriteTokens)
           && !BadAmount(usage.value.cost)
  }

  /** What is told of a chunk that is not allowed. */
  ghost predicate Reason(before: seq<Chunk>, chunk: Chunk, error: StreamError) {
    if HasCompleted(before) then error == AfterTerminal
    else
      match chunk
      case MessageStart => error == RepeatedStart
      case BlockStart(index, _) => error == if !IsIndex(index) then InvalidIndex else ReusedIndex
      case BlockDelta(index, _, _) => error == if OpenBlock(before, index) then WrongKind else NotActive
      case BlockEnd(index, _) => error == if OpenBlock(before, index) then WrongKind else NotActive
      case LegacyText(_) => false
      case ToolStart(index, id, _) =>
        error == if !IsIndex(index) then InvalidIndex
                 else if CallStarted(before, index) then ReusedIndex
                 else if IdUsed(before, id) then ReusedToolCallId
                 else EmptyIdOrName
      case ToolDelta(_, _) => error == NotActive
      case ToolEnd(index, _) => error == if OpenCall(before, index) then ArgumentsInvalid else NotActive
      case LegacyCalls(calls) => ObjectsToCalls(before, calls, error)
      case Completed(_, _) => error == UsageInvalid
  }

  // ---------- The state remembers what it needs ----------

  ghost predicate BlockAsSaid(s: State, chunks: seq<Chunk>, index: int) {
    && (index in s.blocks <==> BlockStarted(chunks, index))
    && (BlockEnded(chunks, index) ==> index in s.blocks)
    && (index in s.blocks ==>
          && (forall kind :: BlockStart(index, kind) in chunks <==> kind == s.blocks[index].kind)
          && (s.blocks[index].active <==> !BlockEnded(chunks, index))
          && s.blocks[index].text == TextOf(chunks, index))
    && (index !in s.blocks ==> TextOf(chunks, index) == "")
  }

  ghost predicate CallAsSaid(s: State, chunks: seq<Chunk>, index: int) {
    && (index in s.calls <==> CallStarted(chunks, index))
    && (CallEnded(chunks, index) ==> index in s.calls)
    && (index in s.calls ==>
          && (forall id, name :: ToolStart(index, id, name) in chunks <==> id == s.calls[index].id && name == s.calls[index].name)
          && s.calls[index].id != "" && s.calls[index].name != ""
          && (s.calls[index].active <==> !CallEnded(chunks, index))
          && s.calls[index].argumentsText == ArgumentsOf(chunks, index))
    && (index !in s.calls ==> ArgumentsOf(chunks, index) == "")
  }

  ghost predicate RestAsSaid(s: State, chunks: seq<Chunk>) {
    && (s.messageStarted <==> MessageStart in chunks)
    && (s.legacyToolCalls <==> HasLegacyCalls(chunks))
    && s.legacyText == PlainText(chunks)
    && (s.terminal.Some? <==> HasCompleted(chunks))
    && (forall reason, usage :: Completed(reason, usage) in chunks ==> s.terminal == Some(Terminal(reason, usage)))
  }

  ghost predicate AsSaid(s: State, chunks: seq<Chunk>) {
    && RestAsSaid(s, chunks)
    && (forall i :: BlockAsSaid(s, chunks, i))
    && (forall i :: CallAsSaid(s, chunks, i))
    && (forall id :: id in s.toolCallIds <==> IdUsed(chunks, id))
  }

  // ---------- One more chunk ----------

  lemma Last(before: seq<Chunk>, chunk: Chunk)
    ensures forall c :: c in before + [chunk] <==> c in before || c == chunk
    ensures (before + [chunk])[..|before + [chunk]| - 1] == before
  {
  }

  lemma RestSnoc(before: seq<Chunk>, chunk: Chunk)
    ensures HasCompleted(before + [chunk]) <==> HasCompleted(before) || chunk.Completed?
    ensures HasLegacyCalls(before + [chunk]) <==> HasLegacyCalls(before) || chunk.LegacyCalls?
    ensures PlainText(before + [chunk]) == PlainText(before) + if chunk.LegacyText? then chunk.legacy else ""
  {
    Last(before, chunk);
  }

  lemma BlockSnoc(before: seq<Chunk>, chunk: Chunk, index: int)
    ensures BlockStarted(before + [chunk], index)
       <==> BlockStarted(before, index) || (chunk.BlockStart? && chunk.contentIndex == index)
    ensures BlockEnded(before + [chunk], index) <==> BlockEnded(before, index) || (chunk.BlockEnd? && chunk.contentIndex == index)
    ensures TextOf(before + [chunk], index)
         == TextOf(before, index) + if chunk.BlockDelta? && chunk.contentIndex == index then chunk.text else ""
  {
    Last(before, chunk);
  }

  lemma CallSnoc(before: seq<Chunk>, chunk: Chunk, index: int)
    ensures CallStarted(before + [chunk], index) <==> CallStarted(before, index) || (chunk.ToolStart? && chunk.index == index)
    ensures CallEnded(before + [chunk], index) <==> CallEnded(before, index) || (chunk.ToolEnd? && chunk.index == index)
    ensures ArgumentsOf(before + [chunk], index)
         == ArgumentsOf(before, index) + if chunk.ToolDelta? && chunk.index == index then chunk.argumentsDelta else ""
  {
    Last(before, chunk);
  }

  lemma IdSnoc(before: seq<Chunk>, chunk: Chunk, id: string)
    ensures IdUsed(before + [chunk], id) <==> IdUsed(before, id) || UsesId(chunk, id)
  {
    Last(before, chunk);
  }

  // ---------- Listed calls ----------

  lemma {:induction false} CallsAccepted(s: State, before: seq<Chunk>, calls: seq<ToolCall>, n: nat)
    requires n <= |calls| && forall id :: id in s.toolCallIds <==> IdUsed(before, id)
    ensures AddToolCalls(s, calls, n).Ok? <==> forall k :: 0 <= k < n ==> CallObjection(before, calls, k).None?
    ensures AddToolCalls(s, calls, n).Ok? ==>
      && AddToolCalls(s, calls, n).value == s.(toolCalls := s.toolCalls + calls[..n],
                                              toolCallIds := AddToolCalls(s, calls, n).value.toolCallIds)
      && forall id :: id in AddToolCalls(s, calls, n).value.toolCallIds
                 <==> IdUsed(before, id) || exists j :: 0 <= j < n && calls[j].id == id
    ensures AddToolCalls(s, calls, n).Err? ==> ObjectsToCalls(before, calls, AddToolCalls(s, calls, n).error)
  {
    if n > 0 {
      CallsAccepted(s, before, calls, n - 1);
      assert calls[..n] == calls[..n - 1] + [calls[n - 1]];
      if AddToolCalls(s, calls, n - 1).Ok? && AddToolCalls(s, calls, n).Err? {
        assert CallObjection(before, calls, n - 1) == Some(AddToolCalls(s, calls, n).error);
      }
    }
  }

  // ---------- Each chunk ----------

  lemma AcceptsCall(parse: Parser, s: State, before: seq<Chunk>, chunk: Chunk)
    requires AsSaid(s, before) && (chunk.ToolStart? || chunk.ToolDelta? || chunk.ToolEnd?)
    ensures Accept(parse, s, chunk).Ok? <==> Allowed(parse, before, chunk)
    ensures Accept(parse, s, chunk).Err? ==> Reason(before, chunk, Accept(parse, s, chunk).error)
  {
    assert CallAsSaid(s, before, chunk.index);
    if chunk.ToolStart? {
      assert chunk.id in s.toolCallIds <==> IdUsed(before, chunk.id);
    }
  }

  lemma AcceptsBlock(parse: Parser, s: State, before: seq<Chunk>, chunk: Chunk)
    requires AsSaid(s, before) && (chunk.BlockStart? || chunk.BlockDelta? || chunk.BlockEnd?)
    ensures Accept(parse, s, chunk).Ok? <==> Allowed(parse, before, chunk)
    ensures Accept(parse, s, chunk).Err? ==> Reason(before, chunk, Accept(parse, s, chunk).error)
  {
    assert BlockAsSaid(s, before, chunk.contentIndex);
  }

  lemma AmountExactly(value: Option<real>)
    ensures Amount(value) <==> !BadAmount(value)
  {
    if !Amount(value) {
      assert value == Some(value.value) && value.value < 0.0;
    }
  }

  lemma AcceptsRest(parse: Parser, s: State, before: seq<Chunk>, chunk: Chunk)
    requires AsSaid(s, before)
    requires chunk.MessageStart? || chunk.LegacyText? || chunk.LegacyCalls? || chunk.Completed?
    ensures Accept(parse, s, chunk).Ok? <==> Allowed(parse, before, chunk)
    ensures Accept(parse, s, chunk).Err? ==> Reason(before, chunk, Accept(parse, s, chunk).error)
  {
    match chunk
    case LegacyCalls(calls) => CallsAccepted(s.(legacyToolCalls := true), before, calls, |calls|);
    case Completed(_, Some(usage)) =>
      AmountExactly(usage.inputTokens);
      AmountExactly(usage.outputTokens);
      AmountExactly(usage.cacheReadTokens);
      AmountExactly(usage.cacheWriteTokens);
      AmountExactly(usage.cost);
    case _ =>
  }

  lemma AcceptsAllowed(parse: Parser, s: State, before: seq<Chunk>, chunk: Chunk)
    requires AsSaid(s, before)
    ensures Accept(parse, s, chunk).Ok? <==> Allowed(parse, before, chunk)
    ensures Accept(parse, s, chunk).Err? ==> Reason(before, chunk, Accept(parse, s, chunk).error)
  {
    if chunk.BlockStart? || chunk.BlockDelta? || chunk.BlockEnd? {
      AcceptsBlock(parse, s, before, chunk);
    } else if chunk.ToolStart? || chunk.ToolDelta? || chunk.ToolEnd? {
      AcceptsCall(parse, s, before, chunk);
    } else {
      AcceptsRest(parse, s, before, chunk);
    }
  }

  lemma BlockStaysAsSaid(parse: Parser, s: State, before: seq<Chunk>, chunk: Chunk, i: int)
    requires AsSaid(s, before) && Accept(parse, s, chunk).Ok?
    ensures BlockAsSaid(Accept(parse, s, chunk).value, before + [chunk], i)
  {
    assert BlockAsSaid(s, before, i);
    BlockSnoc(before, chunk, i);
    if chunk.BlockStart? && chunk.contentIndex == i {
      StartedBlockAsSaid(before, chunk, i);
    } else {
      SameBlockStarts(before, chunk, i);
      if chunk.LegacyCalls? {
        CallsAccepted(s.(legacyToolCalls := true), before, chunk.calls, |chunk.calls|);
      }
    }
  }

  lemma SameBlockStarts(before: seq<Chunk>, chunk: Chunk, i: int)
    requires !(chunk.BlockStart? && chunk.contentIndex == i)
    ensures forall kind :: BlockStart(i, kind) in before + [chunk] <==> BlockStart(i, kind) in before
  {
  }

  /** A block just started has no other start. */
  lemma StartedBlockAsSaid(before: seq<Chunk>, chunk: Chunk, i: int)
    requires !BlockStarted(before, i) && chunk.BlockStart? && chunk.contentIndex == i
    ensures forall kind :: BlockStart(i, kind) in before + [chunk] <==> kind == chunk.kind
  {
    forall kind ensures BlockStart(i, kind) in before + [chunk] <==> kind == chunk.kind {
      Last(before, chunk);
      assert BlockStart(i, kind) !in before;
    }
  }

  lemma CallStaysAsSaid(parse: Parser, s: State, before: seq<Chunk>, chunk: Chunk, i: int)
    requires AsSaid(s, before) && Accept(parse, s, chunk).Ok?
    ensures CallAsSaid(Accept(parse, s, chunk).value, before + [chunk], i)
  {
    assert CallAsSaid(s, before, i);
    CallSnoc(before, chunk, i);
    if chunk.ToolStart? && chunk.index == i {
      StartedAsSaid(before, chunk, i);
    } else {
      SameStarts(before, chunk, i);
      if chunk.LegacyCalls? {
        CallsAccepted(s.(legacyToolCalls := true), before, chunk.calls, |chunk.calls|);
      }
    }
  }

  lemma SameStarts(before: seq<Chunk>, chunk: Chunk, i: int)
    requires !(chunk.ToolStart? && chunk.index == i)
    ensures forall id, name :: ToolStart(i, id, name) in before + [chunk] <==> ToolStart(i, id, name) in before
  {
  }

  /** A call just started has no other start. */
  lemma StartedAsSaid(before: seq<Chunk>, chunk: Chunk, i: int)
    requires !CallStarted(before, i) && chunk.ToolStart? && chunk.index == i
    ensures forall id, name :: ToolStart(i, id, name) in before + [chunk] <==> id == chunk.id && name == chunk.name
  {
    forall id, name ensures ToolStart(i, id, name) in before + [chunk] <==> id == chunk.id && name == chunk.name {
      Last(before, chunk);
      assert ToolStart(i, id, name) !in before;
    }
  }

  lemma RestStaysAsSaid(parse: Parser, s: State, before: seq<Chunk>, chunk: Chunk)
    requires AsSaid(s, before) && Accept(parse, s, chunk).Ok?
    ensures RestAsSaid(Accept(parse, s, chunk).value, before + [chunk])
  {
    Last(before, chunk);
    RestSnoc(before, chunk);
    if chunk.LegacyCalls? {
      CallsAccepted(s.(legacyToolCalls := true), before, chunk.calls, |chunk.calls|);
    }
  }

  lemma IdStaysAsSaid(parse: Parser, s: State, before: seq<Chunk>, chunk: Chunk, id: string)
    requires AsSaid(s, before) && Accept(parse, s, chunk).Ok?
    ensures id in Accept(parse, s, chunk).value.toolCallIds <==> IdUsed(before + [chunk], id)
  {
    IdSnoc(before, chunk, id);
    assert id in s.toolCallIds <==> IdUsed(before, id);
    if chunk.LegacyCalls? {
      CallsAccepted(s.(legacyToolCalls := true), before, chunk.calls, |chunk.calls|);
      ListedId(chunk.calls, id);
    } else if chunk.ToolEnd? {
      EndedIdIsUsed(s, before, chunk.index);
    }
  }

  lemma ListedId(calls: seq<ToolCall>, id: string)
    ensures UsesId(LegacyCalls(calls), id) <==> exists j :: 0 <= j < |calls| && calls[j].id == id
  {
    if call :| call in calls && call.id == id {
      var j :| 0 <= j < |calls| && calls[j] == call;
      assert calls[j].id == id;
    }
  }

  lemma EndedIdIsUsed(s: State, before: seq<Chunk>, index: int)
    requires AsSaid(s, before) && index in s.calls
    ensures s.calls[index].id in s.toolCallIds
  {
    var call := s.calls[index];
    assert CallAsSaid(s, before, index);
    assert ToolStart(index, call.id, call.name) in before;
    assert UsesId(ToolStart(index, call.id, call.name), call.id);
    assert IdUsed(before, call.id);
  }

  lemma StaysAsSaid(parse: Parser, s: State, before: seq<Chunk>, chunk: Chunk)
    requires AsSaid(s, before) && Accept(parse, s, chunk).Ok?
    ensures AsSaid(Accept(parse, s, chunk).value, before + [chunk])
  {
    var t := Accept(parse, s, chunk).value;
    RestStaysAsSaid(parse, s, before, chunk);
    forall i ensures BlockAsSaid(t, before + [chunk], i) {
      BlockStaysAsSaid(parse, s, before, chunk, i);
    }
    forall i ensures CallAsSaid(t, before + [chunk], i) {
      CallStaysAsSaid(parse, s, before, chunk, i);
    }
    forall id ensures id in t.toolCallIds <==> IdUsed(before + [chunk], id) {
      IdStaysAsSaid(parse, s, before, chunk, id);
    }
  }

  // ---------- Whole streams ----------

  ghost predicate AllAllowed(parse: Parser, chunks: seq<Chunk>, n: nat)
    requires n <= |chunks|
  {
    forall k :: 0 <= k < n ==> Allowed(parse, chunks[..k], chunks[k])
  }

  /** The first chunk that is not allowed is refused, and the reason told. */
  ghost predicate RefusedAt(parse: Parser, chunks: seq<Chunk>, k: nat, error: StreamError) {
    k < |chunks| && AllAllowed(parse, chunks, k) && !Allowed(parse, chunks[..k], chunks[k]) && Reason(chunks[..k], chunks[k], error)
  }

  lemma NextAllowed(parse: Parser, chunks: seq<Chunk>, n: nat)
    requires n < |chunks|
    ensures AllAllowed(parse, chunks, n + 1) <==> AllAllowed(parse, chunks, n) && Allowed(parse, chunks[..n], chunks[n])
  {
  }

  lemma NextAccepted(parse: Parser, chunks: seq<Chunk>, n: nat)
    requires n < |chunks| && After(parse, chunks, n).Ok? && AsSaid(After(parse, chunks, n).value, chunks[..n])
    ensures After(parse, chunks, n + 1).Ok? <==> Allowed(parse, chunks[..n], chunks[n])
    ensures After(parse, chunks, n + 1).Err? ==> Reason(chunks[..n], chunks[n], After(parse, chunks, n + 1).error)
  {
    AcceptsAllowed(parse, After(parse, chunks, n).value, chunks[..n], chunks[n]);
  }

  lemma NextAsSaid(parse: Parser, chunks: seq<Chunk>, n: nat)
    requires n < |chunks| && After(parse, chunks, n + 1).Ok? && AsSaid(After(parse, chunks, n).value, chunks[..n])
    ensures AsSaid(After(parse, chunks, n + 1).value, chunks[..n + 1])
  {
    StaysAsSaid(parse, After(parse, chunks, n).value, chunks[..n], chunks[n]);
    assert chunks[..n + 1] == chunks[..n] + [chunks[n]];
  }

  /**
   A stream is accepted exactly if every chunk is allowed after those before it; otherwise the first that is
   not is refused for its reason.  The state after an accepted stream is as its chunks said.
  */
  lemma {:induction false} AcceptedExactly(parse: Parser, chunks: seq<Chunk>, n: nat)
    requires n <= |chunks|
    ensures After(parse, chunks, n).Ok? <==> AllAllowed(parse, chunks, n)
    ensures After(parse, chunks, n).Ok? ==> AsSaid(After(parse, chunks, n).value, chunks[..n])
    ensures After(parse, chunks, n).Err? ==> exists k :: 0 <= k < n && RefusedAt(parse, chunks, k, After(parse, chunks, n).error)
  {
    if n > 0 {
      AcceptedExactly(parse, chunks, n - 1);
      NextAllowed(parse, chunks, n - 1);
      if After(parse, chunks, n - 1).Ok? {
        NextAccepted(parse, chunks, n - 1);
        if After(parse, chunks, n).Ok? {
          NextAsSaid(parse, chunks, n - 1);
        }
        assert After(parse, chunks, n).Err? ==> RefusedAt(parse, chunks, n - 1, After(parse, chunks, n).error);
      }
    }
  }

  // ---------- The finished turn ----------

  /** Everything that was started was ended. */
  ghost predicate AllClosed(chunks: seq<Chunk>) {
    && (forall i :: BlockStarted(chunks, i) ==> BlockEnded(chunks, i))
    && (forall i :: CallStarted(chunks, i) ==> CallEnded(chunks, i))
  }

  lemma ClosedExactly(s: State, chunks: seq<Chunk>)
    requires AsSaid(s, chunks)
    ensures AllClosed(chunks)
       <==> !(exists i :: i in s.blocks && s.blocks[i].active) && !(exists i :: i in s.calls && s.calls[i].active)
  {
    forall i ensures (BlockStarted(chunks, i) ==> BlockEnded(chunks, i)) <==> !(i in s.blocks && s.blocks[i].active) {
      assert BlockAsSaid(s, chunks, i);
    }
    forall i ensures (CallStarted(chunks, i) ==> CallEnded(chunks, i)) <==> !(i in s.calls && s.calls[i].active) {
      assert CallAsSaid(s, chunks, i);
    }
  }

  /**
   An accepted stream can be finished exactly if it has a last chunk or listed calls without an index, and
   every block and call that it started was ended.  The turn then ends as the last chunk says, or else for its
   tool calls and without usage.
  */
  lemma FinishedExactly(parse: Parser, chunks: seq<Chunk>)
    requires After(parse, chunks, |chunks|).Ok?
    ensures var r := Finish(After(parse, chunks, |chunks|).value);
      && (r.Ok? <==> (HasCompleted(chunks) || HasLegacyCalls(chunks)) && AllClosed(chunks))
      && (r.Err? && r.error == NoTerminal <==> !HasCompleted(chunks) && !HasLegacyCalls(chunks))
      && (r.Ok? ==>
            && (forall reason, usage :: Completed(reason, usage) in chunks ==> r.value.terminal == Terminal(reason, usage))
            && (!HasCompleted(chunks) ==> r.value.terminal == Terminal(ToolCalls, None)))
  {
    AcceptedExactly(parse, chunks, |chunks|);
    assert chunks[..|chunks|] == chunks;
    ClosedExactly(After(parse, chunks, |chunks|).value, chunks);
  }

  ghost function StartedBelow(chunks: seq<Chunk>, index: int): set<int> {
    set c | c in chunks && c.BlockStart? && c.contentIndex < index :: c.contentIndex
  }

  /** The turn holds, for each started block, the text of its pieces, at the place given by the smaller indexes. */
  lemma BlocksAsSaid(parse: Parser, chunks: seq<Chunk>, index: int, kind: BlockKind)
    requires After(parse, chunks, |chunks|).Ok? && Finish(After(parse, chunks, |chunks|).value).Ok?
    requires BlockStart(index, kind) in chunks
    ensures var content := Finish(After(parse, chunks, |chunks|).value).value.content;
      var place := |StartedBelow(chunks, index)|;
      place < |content| && content[place] == TextContent(kind, TextOf(chunks, index))
  {
    AcceptedExactly(parse, chunks, |chunks|);
    assert chunks[..|chunks|] == chunks;
    var s := After(parse, chunks, |chunks|).value;
    assert BlockAsSaid(s, chunks, index);
    FinishedInOrder(s);
    forall i ensures i in StartedBelow(chunks, index) <==> i in Below(s.blocks.Keys, index) {
      assert BlockAsSaid(s, chunks, i);
    }
    assert StartedBelow(chunks, index) == Below(s.blocks.Keys, index);
    assert Finish(s).value.content[..|s.blocks|][Place(s.blocks, index)] == TextContent(kind, TextOf(chunks, index));
  }

  // ---------- The listed calls ----------

  /** The input of a call: given at its end, or else its arguments read, or an empty object without any. */
  ghost predicate InputIs(parse: Parser, given: Option<Input>, arguments: string, input: Input) {
    match given
    case Some(value) => input == value
    case None => if arguments == "" then input == "{}" else parse(arguments) == Some(input)
  }

  /** The calls that a chunk adds to the list, read off the chunks before it. */
  ghost predicate Lists(parse: Parser, before: seq<Chunk>, chunk: Chunk, added: seq<ToolCall>) {
    match chunk
    case ToolEnd(index, given) =>
      && |added| == 1
      && ToolStart(index, added[0].id, added[0].name) in before
      && InputIs(parse, given, ArgumentsOf(before, index), added[0].input)
    case LegacyCalls(calls) => added == calls
    case _ => added == []
  }

  lemma ChunkLists(parse: Parser, s: State, before: seq<Chunk>, chunk: Chunk)
    requires AsSaid(s, before) && Accept(parse, s, chunk).Ok?
    ensures var t := Accept(parse, s, chunk).value;
      s.toolCalls <= t.toolCalls && Lists(parse, before, chunk, t.toolCalls[|s.toolCalls|..])
  {
    if chunk.LegacyCalls? {
      CallsAccepted(s.(legacyToolCalls := true), before, chunk.calls, |chunk.calls|);
    } else if chunk.ToolEnd? {
      var call := s.calls[chunk.index];
      assert CallAsSaid(s, before, chunk.index);
      assert ToolStart(chunk.index, call.id, call.name) in before;
    }
  }

  /** The list grows with each chunk by the calls it ends or lists, as the chunks before it said. */
  lemma CallsAreListed(parse: Parser, chunks: seq<Chunk>, n: nat)
    requires n < |chunks| && After(parse, chunks, n + 1).Ok?
    ensures var was, now := After(parse, chunks, n).value.toolCalls, After(parse, chunks, n + 1).value.toolCalls;
      was <= now && Lists(parse, chunks[..n], chunks[n], now[|was|..])
  {
    AcceptedExactly(parse, chunks, n);
    ChunkLists(parse, After(parse, chunks, n).value, chunks[..n], chunks[n]);
  }

  // ---------- What a refusal leaves ----------

  /** The calls before the first one that is refused are kept. */
  ghost predicate KeepsUpTo(s: State, before: seq<Chunk>, calls: seq<ToolCall>, k: nat, after: State) {
    && k < |calls| && CallObjection(before, calls, k).Some?
    && (forall j :: 0 <= j < k ==> CallObjection(before, calls, j).None?)
    && after == s.(legacyToolCalls := true, toolCalls := s.toolCalls + calls[..k], toolCallIds := after.toolCallIds)
    && forall id :: id in after.toolCallIds <==> IdUsed(before, id) || exists j :: 0 <= j < k && calls[j].id == id
  }

  lemma {:induction false} FirstRefused(before: seq<Chunk>, calls: seq<ToolCall>, n: nat) returns (k: nat)
    requires n <= |calls| && exists j :: 0 <= j < n && CallObjection(before, calls, j).Some?
    ensures k < n && CallObjection(before, calls, k).Some?
    ensures forall j :: 0 <= j < k ==> CallObjection(before, calls, j).None?
  {
    if exists j :: 0 <= j < n - 1 && CallObjection(before, calls, j).Some? {
      k := FirstRefused(before, calls, n - 1);
    } else {
      k := n - 1;
    }
  }

  lemma RefusedListLeaves(parse: Parser, s: State, before: seq<Chunk>, calls: seq<ToolCall>)
    requires AsSaid(s, before) && s.terminal.None? && Accept(parse, s, LegacyCalls(calls)).Err?
    ensures exists k :: KeepsUpTo(s, before, calls, k, LeftBy(parse, s, LegacyCalls(calls)))
  {
    var listing := s.(legacyToolCalls := true);
    CallsAccepted(listing, before, calls, |calls|);
    var k := FirstRefused(before, calls, |calls|);
    CallsAccepted(listing, before, calls, k);
    CallsAccepted(listing, before, calls, k + 1);
    RefusalStays(listing, calls, k + 1, |calls|);
    assert KeepsUpTo(s, before, calls, k, LeftBy(parse, s, LegacyCalls(calls)));
  }

  /**
   After an accepted stream a refused chunk leaves everything as it was, except that of calls listed without an index
   those before the first refused one are kept.
  */
  lemma RefusalLeavesExactly(parse: Parser, chunks: seq<Chunk>, chunk: Chunk)
    requires After(parse, chunks, |chunks|).Ok? && Accept(parse, After(parse, chunks, |chunks|).value, chunk).Err?
    ensures var s := After(parse, chunks, |chunks|).value;
      var left := LeftBy(parse, s, chunk);
      if chunk.LegacyCalls? && !HasCompleted(chunks) then exists k :: KeepsUpTo(s, chunks, chunk.calls, k, left) else left == s
  {
    AcceptedExactly(parse, chunks, |chunks|);
    assert chunks[..|chunks|] == chunks;
    var s := After(parse, chunks, |chunks|).value;
    if !chunk.LegacyCalls? {
      RefusalChangesNothing(parse, chunks, chunk);
    } else if s.terminal.None? {
      RefusedListLeaves(parse, s, chunks, chunk.calls);
    }
  }
}
