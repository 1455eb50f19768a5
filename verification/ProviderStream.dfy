/**
 One provider turn assembled from a stream of chunks: text blocks and tool calls grow by index, and the
 result is read off when the stream has ended.
*/
module ProviderStream {
  import opened Wrappers
  import opened Graphs

  datatype BlockKind = Text | Reasoning

  /** The input of a tool call, given by its text. */
  type Input = string

  /** Reads tool arguments; None if they are not valid JSON. */
  type Parser = string -> Option<Input>

  const EMPTY_OBJECT: Input := "{}"

  /** The largest integer that is exact in a double. */
  const MAX_SAFE_INTEGER := 9007199254740991

  datatype ToolCall = ToolCall(id: string, name: string, input: Input)

  datatype Usage = Usage(
    inputTokens: Option<real>,
    outputTokens: Option<real>,
    cacheReadTokens: Option<real>,
    cacheWriteTokens: Option<real>,
    cost: Option<real>)

  datatype StopReason = EndTurn | ToolCalls | MaxOutputTokens | ContentFilter | Cancelled | Error | Unknown

  datatype Chunk =
    | MessageStart
    | BlockStart(contentIndex: int, kind: BlockKind)
    | BlockDelta(contentIndex: int, kind: BlockKind, text: string)
    | BlockEnd(contentIndex: int, kind: BlockKind)
    | LegacyText(legacy: string)
    | ToolStart(index: int, id: string, name: string)
    | ToolDelta(index: int, argumentsDelta: string)
    | ToolEnd(index: int, input: Option<Input>)
    | LegacyCalls(calls: seq<ToolCall>)
    | Completed(stopReason: StopReason, usage: Option<Usage>)

  datatype Block = Block(kind: BlockKind, text: string, active: bool)

  datatype Call = Call(id: string, name: string, argumentsText: string, active: bool)

  datatype Terminal = Terminal(stopReason: StopReason, usage: Option<Usage>)

  datatype State = State(
    blocks: map<int, Block>,
    calls: map<int, Call>,
    toolCalls: seq<ToolCall>,
    toolCallIds: set<string>,
    legacyText: string,
    legacyToolCalls: bool,
    messageStarted: bool,
    terminal: Option<Terminal>)

  datatype Content = TextContent(kind: BlockKind, text: string) | CallContent(call: ToolCall)

  datatype TurnResult = TurnResult(content: seq<Content>, toolCalls: seq<ToolCall>, terminal: Terminal)

  datatype StreamError =
    | AfterTerminal | RepeatedStart | InvalidIndex | ReusedIndex | NotActive | WrongKind
    | ReusedToolCallId | EmptyIdOrName | ArgumentsInvalid | UsageInvalid
    | NoTerminal | BlockStillActive | CallStillActive

  type Checked<T> = Result<T, StreamError>

  const INITIAL := State(map[], map[], [], {}, "", false, false, None)

  // ---------- Accepting chunks ----------

  function StartBlock(s: State, index: int, kind: BlockKind): Checked<State> {
    if !(0 <= index <= MAX_SAFE_INTEGER) then Err(InvalidIndex)
    else if index in s.blocks then Err(ReusedIndex)
    else Ok(s.(blocks := s.blocks[index := Block(kind, "", true)]))
  }

  function ActiveBlock(s: State, index: int, kind: BlockKind): Checked<Block> {
    if index !in s.blocks || !s.blocks[index].active then Err(NotActive)
    else if s.blocks[index].kind != kind then Err(WrongKind)
    else Ok(s.blocks[index])
  }

  function AppendBlock(s: State, index: int, kind: BlockKind, text: string): Checked<State> {
    var block :- ActiveBlock(s, index, kind);
    Ok(s.(blocks := s.blocks[index := block.(text := block.text + text)]))
  }

  function EndBlock(s: State, index: int, kind: BlockKind): Checked<State> {
    var block :- ActiveBlock(s, index, kind);
    Ok(s.(blocks := s.blocks[index := block.(active := false)]))
  }

  function StartToolCall(s: State, index: int, id: string, name: string): Checked<State> {
    if !(0 <= index <= MAX_SAFE_INTEGER) then Err(InvalidIndex)
    else if index in s.calls then Err(ReusedIndex)
    else if id in s.toolCallIds then Err(ReusedToolCallId)
    else if id == "" || name == "" then Err(EmptyIdOrName)
    else Ok(s.(toolCallIds := s.toolCallIds + {id}, calls := s.calls[index := Call(id, name, "", true)]))
  }

  function AppendToolCall(s: State, index: int, delta: string): Checked<State> {
    if index !in s.calls || !s.calls[index].active then Err(NotActive)
    else
      var call := s.calls[index];
      Ok(s.(calls := s.calls[index := call.(argumentsText := call.argumentsText + delta)]))
  }

  /** The input of a call: the one given at its end, or else its arguments read as JSON. */
  function InputOf(parse: Parser, call: Call, input: Option<Input>): Option<Input> {
    if input.Some? then input
    else if call.argumentsText == "" then Some(EMPTY_OBJECT)
    else parse(call.argumentsText)
  }

  function EndToolCall(parse: Parser, s: State, index: int, input: Option<Input>): Checked<State> {
    if index !in s.calls || !s.calls[index].active then Err(NotActive)
    else
      var call := s.calls[index];
      var value := InputOf(parse, call, input);
      if value.None? then Err(ArgumentsInvalid)
      else
        var ended := s.(calls := s.calls[index := call.(active := false)]);
        AddToolCall(ended, ToolCall(call.id, call.name, value.value), true)
  }

  function AddToolCall(s: State, call: ToolCall, reserved: bool): Checked<State> {
    if !reserved && call.id in s.toolCallIds then Err(ReusedToolCallId)
    else if call.id == "" || call.name == "" then Err(EmptyIdOrName)
    else Ok(s.(toolCallIds := s.toolCallIds + {call.id}, toolCalls := s.toolCalls + [call]))
  }

  /** Adds the first `n` of some calls. */
  function AddToolCalls(s: State, calls: seq<ToolCall>, n: nat): Checked<State>
    requires n <= |calls|
  {
    if n == 0 then Ok(s)
    else
      var before :- AddToolCalls(s, calls, n - 1);
      AddToolCall(before, calls[n - 1], false)
  }

  predicate Amount(value: Option<real>) {
    value.Some? ==> value.value >= 0.0
  }

  predicate UsageValid(usage: Option<Usage>) {
    usage.Some? ==>
      Amount(usage.value.inputTokens) && Amount(usage.value.outputTokens) && Amount(usage.value.cacheReadTokens)
      && Amount(usage.value.cacheWriteTokens) && Amount(usage.value.cost)
  }

  function Accept(parse: Parser, s: State, chunk: Chunk): Checked<State> {
    if s.terminal.Some? then Err(AfterTerminal)
    else
      match chunk
      case MessageStart => if s.messageStarted then Err(RepeatedStart) else Ok(s.(messageStarted := true))
      case BlockStart(index, kind) => StartBlock(s, index, kind)
      case BlockDelta(index, kind, text) => AppendBlock(s, index, kind, text)
      case BlockEnd(index, kind) => EndBlock(s, index, kind)
      case LegacyText(text) => Ok(s.(legacyText := s.legacyText + text))
      case ToolStart(index, id, name) => StartToolCall(s, index, id, name)
      case ToolDelta(index, delta) => AppendToolCall(s, index, delta)
      case ToolEnd(index, input) => EndToolCall(parse, s, index, input)
      case LegacyCalls(calls) => AddToolCalls(s.(legacyToolCalls := true), calls, |calls|)
      case Completed(reason, usage) =>
        if UsageValid(usage) then Ok(s.(terminal := Some(Terminal(reason, usage)))) else Err(UsageInvalid)
  }

  /** The calls before the first one that is refused have been added. */
  function AddedBefore(s: State, calls: seq<ToolCall>, n: nat): State
    requires n <= |calls|
  {
    if n == 0 then s
    else if AddToolCalls(s, calls, n).Ok? then AddToolCalls(s, calls, n).value
    else AddedBefore(s, calls, n - 1)
  }

  /** What a refused chunk leaves behind. */
  function LeftBy(parse: Parser, s: State, chunk: Chunk): State {
    if s.terminal.Some? then s
    else
      match chunk
      case LegacyCalls(calls) => AddedBefore(s.(legacyToolCalls := true), calls, |calls|)
      case ToolEnd(index, input) =>
        if index !in s.calls || !s.calls[index].active || InputOf(parse, s.calls[index], input).None? then s
        else s.(calls := s.calls[index := s.calls[index].(active := false)])
      case _ => s
  }

  ghost predicate CallsAreNamed(s: State) {
    forall i :: i in s.calls ==> s.calls[i].id != "" && s.calls[i].name != ""
  }

  lemma {:induction false} AddingKeepsCalls(s: State, calls: seq<ToolCall>, n: nat)
    requires n <= |calls| && AddToolCalls(s, calls, n).Ok?
    ensures AddToolCalls(s, calls, n).value.calls == s.calls
  {
    if n > 0 {
      AddingKeepsCalls(s, calls, n - 1);
    }
  }

  lemma ChunkKeepsNames(parse: Parser, s: State, chunk: Chunk)
    requires CallsAreNamed(s) && Accept(parse, s, chunk).Ok?
    ensures CallsAreNamed(Accept(parse, s, chunk).value)
  {
    if chunk.LegacyCalls? {
      AddingKeepsCalls(s.(legacyToolCalls := true), chunk.calls, |chunk.calls|);
    }
  }

  lemma {:induction false} StartedCallsAreNamed(parse: Parser, chunks: seq<Chunk>, n: nat)
    requires n <= |chunks| && After(parse, chunks, n).Ok?
    ensures CallsAreNamed(After(parse, chunks, n).value)
  {
    if n > 0 {
      StartedCallsAreNamed(parse, chunks, n - 1);
      var s, chunk := After(parse, chunks, n - 1).value, chunks[n - 1];
      ChunkKeepsNames(parse, s, chunk);
    }
  }

  /** On every accepted stream a refused chunk changes nothing, unless it lists calls without an index. */
  lemma RefusalChangesNothing(parse: Parser, chunks: seq<Chunk>, chunk: Chunk)
    requires After(parse, chunks, |chunks|).Ok? && Accept(parse, After(parse, chunks, |chunks|).value, chunk).Err?
    requires !chunk.LegacyCalls?
    ensures LeftBy(parse, After(parse, chunks, |chunks|).value, chunk) == After(parse, chunks, |chunks|).value
  {
    StartedCallsAreNamed(parse, chunks, |chunks|);
  }

  /** The state after the first `n` chunks. */
  function After(parse: Parser, chunks: seq<Chunk>, n: nat): Checked<State>
    requires n <= |chunks|
  {
    if n == 0 then Ok(INITIAL)
    else
      var before :- After(parse, chunks, n - 1);
      Accept(parse, before, chunks[n - 1])
  }

  // ---------- Finishing ----------

  predicate IsLeast(s: set<int>, least: int) {
    least in s && forall x :: x in s ==> least <= x
  }

  lemma HasMember(s: set<int>)
    ensures s == {} || exists x :: x in s
  {
    if forall x :: x !in s {
      assert s == {};
    }
  }

  lemma {:induction false} HasLeast(s: set<int>)
    requires s != {}
    ensures exists least :: IsLeast(s, least)
  {
    HasMember(s);
    var x :| x in s;
    if s != {x} {
      var rest := s - {x};
      assert s == rest + {x};
      HasLeast(rest);
      var y :| IsLeast(rest, y);
      assert IsLeast(s, if x < y then x else y);
    } else {
      assert IsLeast(s, x);
    }
  }

  /** The members of a set of indexes, in ascending order. */
  function Ascending(s: set<int>): (r: seq<int>)
    ensures forall x :: x in r <==> x in s
    ensures forall i, j :: 0 <= i < j < |r| ==> r[i] < r[j]
  {
    if s == {} then []
    else
      HasLeast(s);
      var least :| IsLeast(s, least);
      [least] + Ascending(s - {least})
  }

  function BlockContents(blocks: map<int, Block>, order: seq<int>): (r: seq<Content>)
    requires forall i :: 0 <= i < |order| ==> order[i] in blocks
    ensures |r| == |order|
    ensures forall i :: 0 <= i < |r| ==> r[i] == TextContent(blocks[order[i]].kind, blocks[order[i]].text)
  {
    seq(|order|, i requires 0 <= i < |order| => TextContent(blocks[order[i]].kind, blocks[order[i]].text))
  }

  function CallContents(calls: seq<ToolCall>): (r: seq<Content>)
    ensures |r| == |calls| && forall i :: 0 <= i < |r| ==> r[i] == CallContent(calls[i])
  {
    seq(|calls|, i requires 0 <= i < |calls| => CallContent(calls[i]))
  }

  function LegacyContents(s: State): seq<Content> {
    if s.legacyText == "" then [] else [TextContent(Text, s.legacyText)]
  }

  function Finish(s: State): Checked<TurnResult> {
    if s.terminal.None? && !s.legacyToolCalls then Err(NoTerminal)
    else if exists i :: i in s.blocks && s.blocks[i].active then Err(BlockStillActive)
    else if exists i :: i in s.calls && s.calls[i].active then Err(CallStillActive)
    else
      Ok(TurnResult(BlockContents(s.blocks, Ascending(s.blocks.Keys)) + LegacyContents(s) + CallContents(s.toolCalls),
                    s.toolCalls, s.terminal.GetOr(Terminal(StopReason.ToolCalls, None))))
  }

  function Below(s: set<int>, i: int): set<int> {
    set j | j in s && j < i
  }

  lemma RankAt(listed: seq<int>, s: set<int>, k: nat)
    requires k < |listed| && Elements(listed) == s
    requires forall i, j :: 0 <= i < j < |listed| ==> listed[i] < listed[j]
    ensures |Below(s, listed[k])| == k
  {
    var first := listed[..k];
    forall j ensures j in Below(s, listed[k]) <==> j in first {
      if j in Below(s, listed[k]) {
        var m :| 0 <= m < |listed| && listed[m] == j;
        assert first[m] == j;
      }
    }
    assert Below(s, listed[k]) == Elements(first);
    DistinctSize(first);
  }

  /** An index is listed at the place given by how many indexes are smaller. */
  lemma AscendingByRank(s: set<int>, i: int)
    requires i in s
    ensures |Below(s, i)| < |Ascending(s)| && Ascending(s)[|Below(s, i)|] == i
  {
    var listed := Ascending(s);
    assert i in listed;
    var k :| 0 <= k < |listed| && listed[k] == i;
    assert Elements(listed) == s;
    RankAt(listed, s, k);
  }

  lemma AscendingLength(s: set<int>)
    ensures |Ascending(s)| == |s|
  {
    DistinctSize(Ascending(s));
    assert Elements(Ascending(s)) == s;
  }

  lemma BlocksByRank(blocks: map<int, Block>, i: int)
    requires i in blocks
    ensures var contents := BlockContents(blocks, Ascending(blocks.Keys));
      && |contents| == |blocks|
      && |Below(blocks.Keys, i)| < |contents|
      && contents[|Below(blocks.Keys, i)|] == TextContent(blocks[i].kind, blocks[i].text)
  {
    AscendingLength(blocks.Keys);
    AscendingByRank(blocks.Keys, i);
  }

  /** The place of a block in a finished turn: before it come the blocks with smaller indexes. */
  function Place(blocks: map<int, Block>, i: int): nat {
    |Below(blocks.Keys, i)|
  }

  /** Every block has its place. */
  ghost predicate InPlace(content: seq<Content>, blocks: map<int, Block>) {
    && |content| == |blocks|
    && forall i :: i in blocks ==>
         Place(blocks, i) < |content| && content[Place(blocks, i)] == TextContent(blocks[i].kind, blocks[i].text)
  }

  lemma BlocksInPlace(blocks: map<int, Block>)
    ensures InPlace(BlockContents(blocks, Ascending(blocks.Keys)), blocks)
  {
    AscendingLength(blocks.Keys);
    forall i | i in blocks
      ensures Place(blocks, i) < |blocks|
      ensures BlockContents(blocks, Ascending(blocks.Keys))[Place(blocks, i)] == TextContent(blocks[i].kind, blocks[i].text)
    {
      BlocksByRank(blocks, i);
    }
  }

  lemma ThreeParts(a: seq<Content>, b: seq<Content>, c: seq<Content>)
    ensures (a + b + c)[..|a|] == a && (a + b + c)[|a|..|a| + |b|] == b && (a + b + c)[|a| + |b|..] == c
  {
  }

  /**
   A finished turn holds each block at the place given by how many blocks have smaller indexes, then the
   text that came without an index, if there is any, then the calls in the order of their completion.
  */
  lemma FinishedInOrder(s: State)
    requires Finish(s).Ok?
    ensures var r, b := Finish(s).value, |s.blocks|;
      var n := b + |LegacyContents(s)|;
      && r.toolCalls == s.toolCalls
      && |r.content| >= n
      && InPlace(r.content[..b], s.blocks)
      && r.content[b..n] == LegacyContents(s)
      && r.content[n..] == CallContents(s.toolCalls)
  {
    var blocks := BlockContents(s.blocks, Ascending(s.blocks.Keys));
    BlocksInPlace(s.blocks);
    ThreeParts(blocks, LegacyContents(s), CallContents(s.toolCalls));
  }

  // ---------- The accumulator ----------

  class ProviderStreamAccumulator {
    const parse: Parser
    var blocks: map<int, Block>
    var calls: map<int, Call>
    var toolCalls: seq<ToolCall>
    var toolCallIds: set<string>
    var legacyText: string
    var legacyToolCalls: bool
    var messageStarted: bool
    var terminal: Option<Terminal>

    constructor (parse: Parser)
      ensures this.parse == parse && Current() == INITIAL
    {
      this.parse := parse;
      blocks, calls, toolCalls, toolCallIds := map[], map[], [], {};
      legacyText, legacyToolCalls, messageStarted, terminal := "", false, false, None;
    }

    function Current(): State
      reads this
    {
      State(blocks, calls, toolCalls, toolCallIds, legacyText, legacyToolCalls, messageStarted, terminal)
    }

    /** Takes one chunk, or fails on it. */
    method AcceptChunk(chunk: Chunk) returns (r: Result<(), StreamError>)
      modifies this
      ensures r.Ok? ==> Accept(parse, old(Current()), chunk) == Ok(Current())
      ensures r.Err? ==> Accept(parse, old(Current()), chunk) == Err(r.error)
      ensures r.Err? ==> Current() == LeftBy(parse, old(Current()), chunk)
    {
      if terminal.Some? {
        return Err(AfterTerminal);
      }
      match chunk {
        case MessageStart =>
          if messageStarted {
            return Err(RepeatedStart);
          }
          messageStarted := true;
          r := Ok(());
        case BlockStart(index, kind) =>
          if index < 0 || index > MAX_SAFE_INTEGER {
            return Err(InvalidIndex);
          }
          if index in blocks {
            return Err(ReusedIndex);
          }
          blocks := blocks[index := Block(kind, "", true)];
          r := Ok(());
        case BlockDelta(index, kind, text) =>
          var block :- FindActiveBlock(index, kind);
          blocks := blocks[index := block.(text := block.text + text)];
          r := Ok(());
        case BlockEnd(index, kind) =>
          var block :- FindActiveBlock(index, kind);
          blocks := blocks[index := block.(active := false)];
          r := Ok(());
        case LegacyText(text) =>
          legacyText := legacyText + text;
          r := Ok(());
        case ToolStart(index, id, name) => r := StartCall(index, id, name);
        case ToolDelta(index, delta) =>
          if index !in calls || !calls[index].active {
            return Err(NotActive);
          }
          calls := calls[index := calls[index].(argumentsText := calls[index].argumentsText + delta)];
          r := Ok(());
        case ToolEnd(index, input) => r := EndCall(index, input);
        case LegacyCalls(more) =>
          legacyToolCalls := true;
          r := AddCalls(more);
        case Completed(reason, usage) =>
          if !UsageValid(usage) {
            return Err(UsageInvalid);
          }
          terminal := Some(Terminal(reason, usage));
          r := Ok(());
      }
    }

    method FindActiveBlock(index: int, kind: BlockKind) returns (r: Checked<Block>)
      ensures r == ActiveBlock(Current(), index, kind)
    {
      if index !in blocks || !blocks[index].active {
        return Err(NotActive);
      }
      if blocks[index].kind != kind {
        return Err(WrongKind);
      }
      r := Ok(blocks[index]);
    }

    method StartCall(index: int, id: string, name: string) returns (r: Result<(), StreamError>)
      modifies this
      ensures r.Ok? ==> StartToolCall(old(Current()), index, id, name) == Ok(Current())
      ensures r.Err? ==> StartToolCall(old(Current()), index, id, name) == Err(r.error) && Current() == old(Current())
    {
      if index < 0 || index > MAX_SAFE_INTEGER {
        return Err(InvalidIndex);
      }
      if index in calls {
        return Err(ReusedIndex);
      }
      if id in toolCallIds {
        return Err(ReusedToolCallId);
      }
      if id == "" || name == "" {
        return Err(EmptyIdOrName);
      }
      toolCallIds := toolCallIds + {id};
      calls := calls[index := Call(id, name, "", true)];
      r := Ok(());
    }

    method EndCall(index: int, input: Option<Input>) returns (r: Result<(), StreamError>)
      modifies this
      ensures r.Ok? ==> EndToolCall(parse, old(Current()), index, input) == Ok(Current())
      ensures r.Err? ==> EndToolCall(parse, old(Current()), index, input) == Err(r.error)
      ensures r.Err? && old(terminal).None? ==> Current() == LeftBy(parse, old(Current()), ToolEnd(index, input))
    {
      if index !in calls || !calls[index].active {
        return Err(NotActive);
      }
      var call := calls[index];
      var value := input;
      if value.None? {
        value := if call.argumentsText == "" then Some(EMPTY_OBJECT) else parse(call.argumentsText);
        if value.None? {
          return Err(ArgumentsInvalid);
        }
      }
      calls := calls[index := call.(active := false)];
      r := AddCall(ToolCall(call.id, call.name, value.value), true);
    }

    method AddCall(call: ToolCall, reserved: bool) returns (r: Result<(), StreamError>)
      modifies this`toolCallIds, this`toolCalls
      ensures r.Ok? ==> AddToolCall(old(Current()), call, reserved) == Ok(Current())
      ensures r.Err? ==> AddToolCall(old(Current()), call, reserved) == Err(r.error) && Current() == old(Current())
    {
      if !reserved && call.id in toolCallIds {
        return Err(ReusedToolCallId);
      }
      if call.id == "" || call.name == "" {
        return Err(EmptyIdOrName);
      }
      toolCallIds := toolCallIds + {call.id};
      toolCalls := toolCalls + [call];
      r := Ok(());
    }

    method AddCalls(more: seq<ToolCall>) returns (r: Result<(), StreamError>)
      modifies this`toolCallIds, this`toolCalls
      ensures r.Ok? ==> AddToolCalls(old(Current()), more, |more|) == Ok(Current())
      ensures r.Err? ==> AddToolCalls(old(Current()), more, |more|) == Err(r.error)
      ensures r.Err? ==> Current() == AddedBefore(old(Current()), more, |more|)
    {
      ghost var before := Current();
      for n := 0 to |more|
        invariant AddToolCalls(before, more, n) == Ok(Current())
      {
        r := AddCall(more[n], false);
        if r.Err? {
          RefusalStays(before, more, n + 1, |more|);
          return;
        }
      }
      r := Ok(());
    }

    method FinishTurn() returns (r: Checked<TurnResult>)
      ensures r == Finish(Current())
    {
      if terminal.None? && !legacyToolCalls {
        return Err(NoTerminal);
      }
      if exists i :: i in blocks && blocks[i].active {
        return Err(BlockStillActive);
      }
      if exists i :: i in calls && calls[i].active {
        return Err(CallStillActive);
      }
      var content := BlockContents(blocks, Ascending(blocks.Keys));
      var text := [];
      if legacyText != "" {
        text := [TextContent(Text, legacyText)];
      }
      content := content + text + CallContents(toolCalls);
      r := Ok(TurnResult(content, toolCalls, terminal.GetOr(Terminal(StopReason.ToolCalls, None))));
    }
  }

  lemma {:induction false} RefusalStays(s: State, calls: seq<ToolCall>, n: nat, m: nat)
    requires n <= m <= |calls| && AddToolCalls(s, calls, n).Err?
    ensures AddToolCalls(s, calls, m) == AddToolCalls(s, calls, n)
    ensures AddedBefore(s, calls, m) == AddedBefore(s, calls, n)
  {
    if n < m {
      RefusalStays(s, calls, n, m - 1);
    }
  }
}
