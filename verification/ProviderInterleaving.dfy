/**
 How a provider interleaves its chunks does not matter: the result of a turn depends on what each block
 and each call received, on the order in which calls were completed, and on the end of the stream.
*/
module ProviderInterleaving {
  import opened Wrappers
  import opened ProviderStream

  // ---------- Substreams ----------

  predicate OnBlock(chunk: Chunk, index: int) {
    (chunk.BlockStart? || chunk.BlockDelta? || chunk.BlockEnd?) && chunk.contentIndex == index
  }

  predicate OnCall(chunk: Chunk, index: int) {
    (chunk.ToolStart? || chunk.ToolDelta? || chunk.ToolEnd?) && chunk.index == index
  }

  /** Of the first `n` chunks, those about one text block. */
  function BlockStream(chunks: seq<Chunk>, n: nat, index: int): seq<Chunk>
    requires n <= |chunks|
  {
    if n == 0 then []
    else if OnBlock(chunks[n - 1], index) then BlockStream(chunks, n - 1, index) + [chunks[n - 1]]
    else BlockStream(chunks, n - 1, index)
  }

  /** Of the first `n` chunks, those about one tool call. */
  function CallStream(chunks: seq<Chunk>, n: nat, index: int): seq<Chunk>
    requires n <= |chunks|
  {
    if n == 0 then []
    else if OnCall(chunks[n - 1], index) then CallStream(chunks, n - 1, index) + [chunks[n - 1]]
    else CallStream(chunks, n - 1, index)
  }

  function LegacyTexts(chunks: seq<Chunk>, n: nat): string
    requires n <= |chunks|
  {
    if n == 0 then ""
    else if chunks[n - 1].LegacyText? then LegacyTexts(chunks, n - 1) + chunks[n - 1].legacy
    else LegacyTexts(chunks, n - 1)
  }

  predicate Completes(chunk: Chunk) {
    chunk.ToolEnd? || chunk.LegacyCalls?
  }

  /** The chunks that complete tool calls, in order. */
  function Completions(chunks: seq<Chunk>, n: nat): seq<Chunk>
    requires n <= |chunks|
  {
    if n == 0 then []
    else if Completes(chunks[n - 1]) then Completions(chunks, n - 1) + [chunks[n - 1]]
    else Completions(chunks, n - 1)
  }

  function Terminals(chunks: seq<Chunk>, n: nat): seq<Chunk>
    requires n <= |chunks|
  {
    if n == 0 then []
    else if chunks[n - 1].Completed? then Terminals(chunks, n - 1) + [chunks[n - 1]]
    else Terminals(chunks, n - 1)
  }

  // ---------- What each substream determines ----------

  function BlockFrom(stream: seq<Chunk>): Option<Block> {
    if stream == [] then None
    else NextBlock(BlockFrom(stream[..|stream| - 1]), stream[|stream| - 1])
  }

  function NextBlock(block: Option<Block>, chunk: Chunk): Option<Block> {
    match chunk
    case BlockStart(_, kind) => Some(Block(kind, "", true))
    case BlockDelta(_, _, text) => if block.Some? then Some(block.value.(text := block.value.text + text)) else None
    case BlockEnd(_, _) => if block.Some? then Some(block.value.(active := false)) else None
    case _ => block
  }

  function CallFrom(stream: seq<Chunk>): Option<Call> {
    if stream == [] then None
    else NextCall(CallFrom(stream[..|stream| - 1]), stream[|stream| - 1])
  }

  function NextCall(call: Option<Call>, chunk: Chunk): Option<Call> {
    match chunk
    case ToolStart(_, id, name) => Some(Call(id, name, "", true))
    case ToolDelta(_, delta) =>
      if call.Some? then Some(call.value.(argumentsText := call.value.argumentsText + delta)) else None
    case ToolEnd(_, _) => if call.Some? then Some(call.value.(active := false)) else None
    case _ => call
  }

  /** The calls that one completing chunk adds. */
  function Added(parse: Parser, calls: map<int, Call>, chunk: Chunk): seq<ToolCall> {
    match chunk
    case ToolEnd(index, input) =>
      if index in calls && InputOf(parse, calls[index], input).Some? then
        [ToolCall(calls[index].id, calls[index].name, InputOf(parse, calls[index], input).value)]
      else []
    case LegacyCalls(more) => more
    case _ => []
  }

  function AllAdded(parse: Parser, calls: map<int, Call>, completions: seq<Chunk>): seq<ToolCall> {
    if completions == [] then []
    else
      var n := |completions| - 1;
      AllAdded(parse, calls, completions[..n]) + Added(parse, calls, completions[n])
  }

  function TerminalFrom(terminals: seq<Chunk>): Option<Terminal> {
    if terminals == [] || !terminals[0].Completed? then None
    else Some(Terminal(terminals[0].stopReason, terminals[0].usage))
  }

  predicate AnyLegacy(completions: seq<Chunk>) {
    exists k :: 0 <= k < |completions| && completions[k].LegacyCalls?
  }

  // ---------- The state follows from the substreams ----------

  function Lookup<T>(m: map<int, T>, index: int): Option<T> {
    if index in m then Some(m[index]) else None
  }

  /** Completed calls are started and no longer active, so nothing about them changes any more. */
  predicate Ended(calls: map<int, Call>, chunk: Chunk) {
    chunk.ToolEnd? ==> chunk.index in calls && !calls[chunk.index].active
  }

  predicate AllEnded(calls: map<int, Call>, completions: seq<Chunk>) {
    forall k :: 0 <= k < |completions| ==> Ended(calls, completions[k])
  }

  lemma BlockSnoc(stream: seq<Chunk>, chunk: Chunk)
    ensures BlockFrom(stream + [chunk]) == NextBlock(BlockFrom(stream), chunk)
  {
    assert (stream + [chunk])[..|stream + [chunk]| - 1] == stream;
  }

  lemma CallSnoc(stream: seq<Chunk>, chunk: Chunk)
    ensures CallFrom(stream + [chunk]) == NextCall(CallFrom(stream), chunk)
  {
    assert (stream + [chunk])[..|stream + [chunk]| - 1] == stream;
  }

  lemma {:induction false} LegacyCallsAdded(s: State, calls: seq<ToolCall>, n: nat)
    requires n <= |calls| && AddToolCalls(s, calls, n).Ok?
    ensures AddToolCalls(s, calls, n).value == s.(toolCalls := s.toolCalls + calls[..n],
                                                  toolCallIds := AddToolCalls(s, calls, n).value.toolCallIds)
  {
    if n > 0 {
      LegacyCallsAdded(s, calls, n - 1);
      assert calls[..n] == calls[..n - 1] + [calls[n - 1]];
    }
  }

  lemma BlockStep(parse: Parser, s: State, chunk: Chunk, i: int)
    requires Accept(parse, s, chunk).Ok?
    ensures Lookup(Accept(parse, s, chunk).value.blocks, i)
         == if OnBlock(chunk, i) then NextBlock(Lookup(s.blocks, i), chunk) else Lookup(s.blocks, i)
  {
    if chunk.LegacyCalls? {
      LegacyCallsAdded(s.(legacyToolCalls := true), chunk.calls, |chunk.calls|);
    }
  }

  lemma CallStep(parse: Parser, s: State, chunk: Chunk, i: int)
    requires Accept(parse, s, chunk).Ok?
    ensures Lookup(Accept(parse, s, chunk).value.calls, i)
         == if OnCall(chunk, i) then NextCall(Lookup(s.calls, i), chunk) else Lookup(s.calls, i)
  {
    if chunk.LegacyCalls? {
      LegacyCallsAdded(s.(legacyToolCalls := true), chunk.calls, |chunk.calls|);
    }
  }

  lemma {:induction false} BlocksFollow(parse: Parser, chunks: seq<Chunk>, n: nat, i: int)
    requires n <= |chunks| && After(parse, chunks, n).Ok?
    ensures Lookup(After(parse, chunks, n).value.blocks, i) == BlockFrom(BlockStream(chunks, n, i))
  {
    if n > 0 {
      BlocksFollow(parse, chunks, n - 1, i);
      BlockStep(parse, After(parse, chunks, n - 1).value, chunks[n - 1], i);
      BlockSnoc(BlockStream(chunks, n - 1, i), chunks[n - 1]);
    }
  }

  lemma {:induction false} CallsFollow(parse: Parser, chunks: seq<Chunk>, n: nat, i: int)
    requires n <= |chunks| && After(parse, chunks, n).Ok?
    ensures Lookup(After(parse, chunks, n).value.calls, i) == CallFrom(CallStream(chunks, n, i))
  {
    if n > 0 {
      CallsFollow(parse, chunks, n - 1, i);
      CallStep(parse, After(parse, chunks, n - 1).value, chunks[n - 1], i);
      CallSnoc(CallStream(chunks, n - 1, i), chunks[n - 1]);
    }
  }

  /** What a chunk does to the rest of the state. */
  lemma RestStep(parse: Parser, s: State, chunk: Chunk)
    requires Accept(parse, s, chunk).Ok?
    ensures var t := Accept(parse, s, chunk).value;
      && t.legacyText == (if chunk.LegacyText? then s.legacyText + chunk.legacy else s.legacyText)
      && t.legacyToolCalls == (s.legacyToolCalls || chunk.LegacyCalls?)
      && s.terminal.None?
      && t.terminal == (if chunk.Completed? then Some(Terminal(chunk.stopReason, chunk.usage)) else None)
  {
    if chunk.LegacyCalls? {
      LegacyCallsAdded(s.(legacyToolCalls := true), chunk.calls, |chunk.calls|);
    }
  }

  lemma {:induction false} RestFollows(parse: Parser, chunks: seq<Chunk>, n: nat)
    requires n <= |chunks| && After(parse, chunks, n).Ok?
    ensures var s := After(parse, chunks, n).value;
      && s.legacyText == LegacyTexts(chunks, n)
      && s.legacyToolCalls == AnyLegacy(Completions(chunks, n))
      && s.terminal == TerminalFrom(Terminals(chunks, n))
      && (s.terminal.None? ==> Terminals(chunks, n) == [])
  {
    if n > 0 {
      RestFollows(parse, chunks, n - 1);
      RestStep(parse, After(parse, chunks, n - 1).value, chunks[n - 1]);
      LegacySnoc(Completions(chunks, n - 1), chunks[n - 1]);
    }
  }

  lemma LegacySnoc(completions: seq<Chunk>, chunk: Chunk)
    ensures AnyLegacy(completions + [chunk]) == (AnyLegacy(completions) || chunk.LegacyCalls?)
  {
    var more := completions + [chunk];
    if AnyLegacy(completions) {
      var k :| 0 <= k < |completions| && completions[k].LegacyCalls?;
      assert more[k].LegacyCalls?;
    }
    if chunk.LegacyCalls? {
      assert more[|completions|].LegacyCalls?;
    }
  }

  // ---------- The completed calls ----------

  /** A chunk leaves ended calls as they are. */
  lemma EndedStays(parse: Parser, s: State, chunk: Chunk, completed: Chunk)
    requires Accept(parse, s, chunk).Ok? && Ended(s.calls, completed)
    ensures var t := Accept(parse, s, chunk).value;
      Ended(t.calls, completed) && Added(parse, t.calls, completed) == Added(parse, s.calls, completed)
  {
    if completed.ToolEnd? {
      CallStep(parse, s, chunk, completed.index);
    }
  }

  lemma {:induction false} AddedStays(parse: Parser, s: State, chunk: Chunk, completions: seq<Chunk>)
    requires Accept(parse, s, chunk).Ok? && AllEnded(s.calls, completions)
    ensures var t := Accept(parse, s, chunk).value;
      AllEnded(t.calls, completions) && AllAdded(parse, t.calls, completions) == AllAdded(parse, s.calls, completions)
  {
    if completions != [] {
      var n := |completions| - 1;
      AddedStays(parse, s, chunk, completions[..n]);
      EndedStays(parse, s, chunk, completions[n]);
      assert completions == completions[..n] + [completions[n]];
    }
  }

  /** A completing chunk adds exactly its calls; no other chunk adds any. */
  lemma CompletionStep(parse: Parser, s: State, chunk: Chunk)
    requires Accept(parse, s, chunk).Ok?
    ensures var t := Accept(parse, s, chunk).value;
      && t.toolCalls == (if Completes(chunk) then s.toolCalls + Added(parse, t.calls, chunk) else s.toolCalls)
      && (Completes(chunk) ==> Ended(t.calls, chunk))
  {
    if chunk.LegacyCalls? {
      LegacyCallsAdded(s.(legacyToolCalls := true), chunk.calls, |chunk.calls|);
      assert chunk.calls[..|chunk.calls|] == chunk.calls;
    }
  }

  lemma AllAddedSnoc(parse: Parser, calls: map<int, Call>, completions: seq<Chunk>, chunk: Chunk)
    ensures AllAdded(parse, calls, completions + [chunk]) == AllAdded(parse, calls, completions) + Added(parse, calls, chunk)
  {
    assert (completions + [chunk])[..|completions + [chunk]| - 1] == completions;
  }

  lemma {:induction false} ToolCallsFollow(parse: Parser, chunks: seq<Chunk>, n: nat)
    requires n <= |chunks| && After(parse, chunks, n).Ok?
    ensures var s := After(parse, chunks, n).value;
      && AllEnded(s.calls, Completions(chunks, n))
      && s.toolCalls == AllAdded(parse, s.calls, Completions(chunks, n))
  {
    if n > 0 {
      ToolCallsFollow(parse, chunks, n - 1);
      var s, chunk := After(parse, chunks, n - 1).value, chunks[n - 1];
      AddedStays(parse, s, chunk, Completions(chunks, n - 1));
      CompletionStep(parse, s, chunk);
      AllAddedSnoc(parse, Accept(parse, s, chunk).value.calls, Completions(chunks, n - 1), chunk);
    }
  }

  // ---------- Interleaving does not matter ----------

  /** Two streams that differ only in how their substreams are interleaved. */
  ghost predicate SameSubstreams(a: seq<Chunk>, b: seq<Chunk>) {
    && (forall i :: BlockStream(a, |a|, i) == BlockStream(b, |b|, i))
    && (forall i :: CallStream(a, |a|, i) == CallStream(b, |b|, i))
    && LegacyTexts(a, |a|) == LegacyTexts(b, |b|)
    && Completions(a, |a|) == Completions(b, |b|)
    && Terminals(a, |a|) == Terminals(b, |b|)
  }

  lemma SameMap<T>(a: map<int, T>, b: map<int, T>)
    requires forall i :: Lookup(a, i) == Lookup(b, i)
    ensures a == b
  {
    forall i ensures i in a <==> i in b {
      assert Lookup(a, i) == Lookup(b, i);
    }
    forall i | i in a ensures a[i] == b[i] {
      assert Lookup(a, i) == Lookup(b, i);
    }
  }

  lemma SameBlocks(parse: Parser, a: seq<Chunk>, b: seq<Chunk>)
    requires After(parse, a, |a|).Ok? && After(parse, b, |b|).Ok? && SameSubstreams(a, b)
    ensures After(parse, a, |a|).value.blocks == After(parse, b, |b|).value.blocks
  {
    var s, t := After(parse, a, |a|).value, After(parse, b, |b|).value;
    forall i ensures Lookup(s.blocks, i) == Lookup(t.blocks, i) {
      BlocksFollow(parse, a, |a|, i);
      BlocksFollow(parse, b, |b|, i);
    }
    SameMap(s.blocks, t.blocks);
  }

  lemma SameCalls(parse: Parser, a: seq<Chunk>, b: seq<Chunk>)
    requires After(parse, a, |a|).Ok? && After(parse, b, |b|).Ok? && SameSubstreams(a, b)
    ensures After(parse, a, |a|).value.calls == After(parse, b, |b|).value.calls
  {
    var s, t := After(parse, a, |a|).value, After(parse, b, |b|).value;
    forall i ensures Lookup(s.calls, i) == Lookup(t.calls, i) {
      CallsFollow(parse, a, |a|, i);
      CallsFollow(parse, b, |b|, i);
    }
    SameMap(s.calls, t.calls);
  }

  /** Accepted streams with the same substreams finish in the same way, with equal results. */
  lemma InterleavingDoesNotMatter(parse: Parser, a: seq<Chunk>, b: seq<Chunk>)
    requires After(parse, a, |a|).Ok? && After(parse, b, |b|).Ok? && SameSubstreams(a, b)
    ensures Finish(After(parse, a, |a|).value) == Finish(After(parse, b, |b|).value)
  {
    SameBlocks(parse, a, b);
    SameCalls(parse, a, b);
    ToolCallsFollow(parse, a, |a|);
    ToolCallsFollow(parse, b, |b|);
    RestFollows(parse, a, |a|);
    RestFollows(parse, b, |b|);
  }

  // ---------- Ids ----------

  predicate DistinctIds(toolCalls: seq<ToolCall>) {
    forall j, k :: 0 <= j < k < |toolCalls| ==> toolCalls[j].id != toolCalls[k].id
  }

  /** Every id in use is reserved, each for one index; a call that is still active is not listed. */
  ghost predicate IdsOk(s: State) {
    && (forall k :: 0 <= k < |s.toolCalls| ==> s.toolCalls[k].id in s.toolCallIds)
    && (forall i :: i in s.calls ==> s.calls[i].id in s.toolCallIds)
    && (forall i, j :: i in s.calls && j in s.calls && i != j ==> s.calls[i].id != s.calls[j].id)
    && DistinctIds(s.toolCalls)
    && (forall i, k :: i in s.calls && s.calls[i].active && 0 <= k < |s.toolCalls| ==> s.toolCalls[k].id != s.calls[i].id)
  }

  lemma {:induction false} LegacyCallsKeepIds(s: State, calls: seq<ToolCall>, n: nat)
    requires n <= |calls| && IdsOk(s) && AddToolCalls(s, calls, n).Ok?
    ensures IdsOk(AddToolCalls(s, calls, n).value)
  {
    if n > 0 {
      LegacyCallsKeepIds(s, calls, n - 1);
    }
  }

  lemma EndKeepsIds(parse: Parser, s: State, index: int, input: Option<Input>)
    requires IdsOk(s) && EndToolCall(parse, s, index, input).Ok?
    ensures IdsOk(EndToolCall(parse, s, index, input).value)
  {
  }

  lemma StartKeepsIds(s: State, index: int, id: string, name: string)
    requires IdsOk(s) && StartToolCall(s, index, id, name).Ok?
    ensures IdsOk(StartToolCall(s, index, id, name).value)
  {
  }

  lemma ChunkKeepsIds(parse: Parser, s: State, chunk: Chunk)
    requires IdsOk(s) && Accept(parse, s, chunk).Ok?
    ensures IdsOk(Accept(parse, s, chunk).value)
  {
    match chunk
    case ToolStart(index, id, name) => StartKeepsIds(s, index, id, name);
    case ToolEnd(index, input) => EndKeepsIds(parse, s, index, input);
    case LegacyCalls(calls) => LegacyCallsKeepIds(s.(legacyToolCalls := true), calls, |calls|);
    case _ =>
  }

  lemma {:induction false} IdsAreKept(parse: Parser, chunks: seq<Chunk>, n: nat)
    requires n <= |chunks| && After(parse, chunks, n).Ok?
    ensures IdsOk(After(parse, chunks, n).value)
  {
    if n > 0 {
      IdsAreKept(parse, chunks, n - 1);
      ChunkKeepsIds(parse, After(parse, chunks, n - 1).value, chunks[n - 1]);
    }
  }

  /** The listed call is the one with this index, its input read at the chunk that ended it. */
  predicate EndsCall(parse: Parser, chunk: Chunk, index: int, call: Call, listed: ToolCall) {
    && chunk.ToolEnd? && chunk.index == index
    && listed.id == call.id && listed.name == call.name
    && InputOf(parse, call, chunk.input) == Some(listed.input)
  }

  lemma EndedIsLeftAlone(parse: Parser, s: State, chunk: Chunk, i: int)
    requires Accept(parse, s, chunk).Ok? && i in s.calls && !s.calls[i].active
    ensures var t := Accept(parse, s, chunk).value; i in t.calls && t.calls[i] == s.calls[i] && s.toolCalls <= t.toolCalls
  {
    CallStep(parse, s, chunk, i);
    CompletionStep(parse, s, chunk);
  }

  /** A chunk after which a call has ended, and had not before, is its last one. */
  lemma EndingLists(parse: Parser, s: State, chunk: Chunk, i: int)
    requires Accept(parse, s, chunk).Ok? && !(i in s.calls && !s.calls[i].active)
    requires var t := Accept(parse, s, chunk).value; i in t.calls && !t.calls[i].active
    ensures var t := Accept(parse, s, chunk).value;
      |t.toolCalls| > |s.toolCalls| && EndsCall(parse, chunk, i, t.calls[i], t.toolCalls[|s.toolCalls|])
  {
    CallStep(parse, s, chunk, i);
  }

  /** A call that has ended was ended by one of the chunks, and is listed as it then was. */
  lemma {:induction false} EndedCallIsListed(parse: Parser, chunks: seq<Chunk>, n: nat, i: int) returns (m: nat, k: nat)
    requires n <= |chunks| && After(parse, chunks, n).Ok?
    requires var s := After(parse, chunks, n).value; i in s.calls && !s.calls[i].active
    ensures var s := After(parse, chunks, n).value;
      m < n && k < |s.toolCalls| && EndsCall(parse, chunks[m], i, s.calls[i], s.toolCalls[k])
  {
    var s, chunk := After(parse, chunks, n - 1).value, chunks[n - 1];
    if i in s.calls && !s.calls[i].active {
      EndedIsLeftAlone(parse, s, chunk, i);
      m, k := EndedCallIsListed(parse, chunks, n - 1, i);
    } else {
      EndingLists(parse, s, chunk, i);
      m, k := n - 1, |s.toolCalls|;
    }
  }

  /** Some chunk ended the call, and it is listed. */
  ghost predicate ListedOnce(parse: Parser, chunks: seq<Chunk>, i: int, call: Call, toolCalls: seq<ToolCall>) {
    exists m, k :: 0 <= m < |chunks| && 0 <= k < |toolCalls| && EndsCall(parse, chunks[m], i, call, toolCalls[k])
  }

  /**
   A finished turn lists distinct call ids.  Every index that was started has an id of its own, and the call
   listed under it has the name of that index and the input that its last chunk gave or left to be read.
  */
  lemma OneCallPerIndex(parse: Parser, chunks: seq<Chunk>)
    requires After(parse, chunks, |chunks|).Ok? && Finish(After(parse, chunks, |chunks|).value).Ok?
    ensures var s := After(parse, chunks, |chunks|).value;
      var r := Finish(s).value;
      && DistinctIds(r.toolCalls)
      && (forall i, j :: i in s.calls && j in s.calls && i != j ==> s.calls[i].id != s.calls[j].id)
      && (forall i :: i in s.calls ==> ListedOnce(parse, chunks, i, s.calls[i], r.toolCalls))
  {
    IdsAreKept(parse, chunks, |chunks|);
    var s := After(parse, chunks, |chunks|).value;
    forall i | i in s.calls ensures ListedOnce(parse, chunks, i, s.calls[i], s.toolCalls) {
      var m, k := EndedCallIsListed(parse, chunks, |chunks|, i);
    }
  }
}
