/**
 The differential renderer: it remembers the last frame, the logical row of the cursor and the
 logical row at the top of the screen, and turns each new frame into a minimal list of line updates.
 The theorem is that these updates refine a full repaint.
*/
module TerminalOutput {
  import opened Terminal

  /** What the renderer remembers between frames. */
  datatype Tracker = Tracker(lines: seq<Line>, cursorRow: int, viewportTop: int, columns: nat, rows: nat)

  const UNUSED := Tracker([], 0, 0, 0, 0)

  function LineAt(lines: seq<Line>, i: int): Line {
    if 0 <= i < |lines| then lines[i] else []
  }

  // ---------- The update as a function ----------

  function FirstChanged(next: seq<Line>, prev: seq<Line>, n: nat): (r: int)
    ensures r == -1 ==> forall i :: 0 <= i < n ==> LineAt(next, i) == LineAt(prev, i)
    ensures r != -1 ==> 0 <= r < n && LineAt(next, r) != LineAt(prev, r)
    ensures r != -1 ==> forall i :: 0 <= i < r ==> LineAt(next, i) == LineAt(prev, i)
  {
    if n == 0 then -1
    else
      var before := FirstChanged(next, prev, n - 1);
      if before != -1 then before else if LineAt(next, n - 1) != LineAt(prev, n - 1) then n - 1 else -1
  }

  function LastChanged(next: seq<Line>, prev: seq<Line>, n: nat): (r: int)
    ensures r == -1 ==> forall i :: 0 <= i < n ==> LineAt(next, i) == LineAt(prev, i)
    ensures r != -1 ==> 0 <= r < n && LineAt(next, r) != LineAt(prev, r)
    ensures forall i :: r < i < n ==> LineAt(next, i) == LineAt(prev, i)
  {
    if n == 0 then -1
    else if LineAt(next, n - 1) != LineAt(prev, n - 1) then n - 1
    else LastChanged(next, prev, n - 1)
  }

  function MoveRows(delta: int): seq<Op> {
    if delta > 0 then [MoveDown(delta)] else if delta < 0 then [MoveUp(-delta)] else []
  }

  function NewLines(n: nat): seq<Op> {
    if n == 0 then [] else NewLines(n - 1) + [NewLine]
  }

  /** The lines of a frame joined by line ends. */
  function Joined(lines: seq<Line>, k: nat): seq<Op>
    requires k < |lines|
  {
    if k == 0 then [Text(lines[0])] else Joined(lines, k - 1) + [NewLine, Text(lines[k])]
  }

  /** Rows `first` to `k`, each erased and written again. */
  function Rewrites(next: seq<Line>, first: int, k: int): seq<Op>
    decreases k - first
  {
    if k < first then []
    else Rewrites(next, first, k - 1) + (if k > first then [NewLine] else []) + [EraseLine, Text(LineAt(next, k))]
  }

  function Removals(n: nat): seq<Op> {
    if n == 0 then [] else Removals(n - 1) + [NewLine, EraseLine]
  }

  function FullRender(lines: seq<Line>, clear: bool, columns: nat, rows: nat): (seq<Op>, Tracker)
    requires lines != []
  {
    ([BeginSync, HideCursor] + (if clear then [ClearHome] else []) + Joined(lines, |lines| - 1) + [EndSync],
     Tracker(lines, |lines| - 1, Max(0, |lines| - rows), columns, rows))
  }

  /** Cursor travel to `target`: within the screen, or past its bottom by scrolling. */
  function Travel(t: Tracker, target: int, rows: nat): (seq<Op>, int)
  {
    var bottom := t.viewportTop + rows - 1;
    if target > bottom then
      var screenRow := Min(rows - 1, Max(0, t.cursorRow - t.viewportTop));
      (MoveRows(rows - 1 - screenRow) + NewLines(target - bottom), t.viewportTop + (target - bottom))
    else
      (MoveRows((target - t.viewportTop) - (t.cursorRow - t.viewportTop)), t.viewportTop)
  }

  datatype Plan = Plan(first: int, last: int, appended: bool)

  function RowsToWrite(t: Tracker, next: seq<Line>, firstChanged: int, lastChanged: int): Plan {
    var shrinking := |next| < |t.lines|;
    Plan(
      Max(t.viewportTop, if shrinking then Min(firstChanged, |next| - 1) else firstChanged),
      if shrinking then |next| - 1 else Min(lastChanged, |next| - 1),
      |next| > |t.lines| && firstChanged == |t.lines| && firstChanged > 0)
  }

  function Update(t: Tracker, next: seq<Line>, columns: nat, rows: nat): (seq<Op>, Tracker)
    requires next != []
  {
    if t.lines == [] then FullRender(next, false, columns, rows)
    else if t.columns != 0 && (t.columns != columns || t.rows != rows) then FullRender(next, true, columns, rows)
    else
      var n := Max(|next|, |t.lines|);
      var firstChanged, lastChanged := FirstChanged(next, t.lines, n), LastChanged(next, t.lines, n);
      if firstChanged == -1 then ([], t)
      else if |next| < |t.lines| && |next| - 1 < t.viewportTop then FullRender(next, true, columns, rows)
      else
        var plan := RowsToWrite(t, next, firstChanged, lastChanged);
        if plan.first > plan.last then ([], Tracker(next, t.cursorRow, t.viewportTop, columns, rows))
        else Differential(t, next, plan, columns, rows)
  }

  /** Travel to the first planned row, start it, and write the planned rows. */
  function WriteOps(t: Tracker, next: seq<Line>, plan: Plan, rows: nat): seq<Op> {
    [BeginSync] + Travel(t, TravelTarget(plan), rows).0 + [Turn(plan)] + Rewrites(next, plan.first, plan.last)
  }

  function TravelTarget(plan: Plan): int {
    if plan.appended then plan.first - 1 else plan.first
  }

  function Turn(plan: Plan): Op {
    if plan.appended then NewLine else CarriageReturn
  }

  /** Erase the rows of a longer previous frame and move back up. */
  function RemoveOps(removed: nat): seq<Op> {
    Removals(removed) + MoveRows(-(removed as int)) + [EndSync]
  }

  function TopWhenWriting(t: Tracker, plan: Plan, rows: nat): int {
    var top := Travel(t, TravelTarget(plan), rows).1;
    if plan.appended then Max(top, plan.first - rows + 1) else top
  }

  function TopAfterWriting(t: Tracker, plan: Plan, rows: nat): int {
    var top := TopWhenWriting(t, plan, rows);
    if plan.last > plan.first then Max(top, plan.last - rows + 1) else top
  }

  function Differential(t: Tracker, next: seq<Line>, plan: Plan, columns: nat, rows: nat): (seq<Op>, Tracker) {
    (WriteOps(t, next, plan, rows) + RemoveOps(Max(0, |t.lines| - |next|)),
     Tracker(next, plan.last, TopAfterWriting(t, plan, rows), columns, rows))
  }

  // ---------- The renderer ----------

  class NativeTerminalOutput {
    var previousLines: seq<Line>
    var hardwareCursorRow: int
    var previousViewportTop: int
    var previousColumns: nat
    var previousRows: nat
    var finished: bool

    constructor ()
      ensures State() == UNUSED && !finished
    {
      previousLines := [];
      hardwareCursorRow := 0;
      previousViewportTop := 0;
      previousColumns := 0;
      previousRows := 0;
      finished := false;
    }

    function State(): Tracker
      reads this
    {
      Tracker(previousLines, hardwareCursorRow, previousViewportTop, previousColumns, previousRows)
    }

    method Remember(lines: seq<Line>, cursorRow: int, viewportTop: int, columns: nat, rows: nat)
      modifies this
      ensures State() == Tracker(lines, cursorRow, viewportTop, columns, rows) && finished == old(finished)
    {
      previousLines := lines;
      hardwareCursorRow := cursorRow;
      previousViewportTop := viewportTop;
      previousColumns := columns;
      previousRows := rows;
    }

    method RenderFully(lines: seq<Line>, clear: bool, columns: nat, rows: nat) returns (output: seq<Op>)
      requires lines != []
      modifies this
      ensures (output, State()) == FullRender(lines, clear, columns, rows) && finished == old(finished)
    {
      output := [BeginSync, HideCursor] + (if clear then [ClearHome] else []);
      var text := [Text(lines[0])];
      for k := 1 to |lines|
        invariant text == Joined(lines, k - 1)
      {
        text := text + [NewLine, Text(lines[k])];
      }
      output := output + text + [EndSync];
      Remember(lines, Max(0, |lines| - 1), Max(0, |lines| - rows), columns, rows);
    }

    method UpdateFrame(next: seq<Line>, columns: nat, rows: nat) returns (output: seq<Op>)
      requires next != []
      modifies this
      ensures (output, State()) == Update(old(State()), next, columns, rows) && finished == old(finished)
    {
      if |previousLines| == 0 {
        output := RenderFully(next, false, columns, rows);
        return;
      }
      if previousColumns != 0 && (previousColumns != columns || previousRows != rows) {
        output := RenderFully(next, true, columns, rows);
        return;
      }
      var firstChanged, lastChanged := -1, -1;
      var maximumLines := Max(|next|, |previousLines|);
      for index := 0 to maximumLines
        invariant firstChanged == FirstChanged(next, previousLines, index)
        invariant lastChanged == LastChanged(next, previousLines, index)
      {
        if LineAt(next, index) != LineAt(previousLines, index) {
          if firstChanged == -1 {
            firstChanged := index;
          }
          lastChanged := index;
        }
      }
      if firstChanged == -1 {
        return [];
      }
      var shrinking := |next| < |previousLines|;
      if shrinking && |next| - 1 < previousViewportTop {
        output := RenderFully(next, true, columns, rows);
        return;
      }
      var plan := RowsToWrite(State(), next, firstChanged, lastChanged);
      if plan.first > plan.last {
        Remember(next, hardwareCursorRow, previousViewportTop, columns, rows);
        return [];
      }
      output := RewriteRows(next, plan, columns, rows);
    }

    method RewriteRows(next: seq<Line>, plan: Plan, columns: nat, rows: nat) returns (output: seq<Op>)
      requires plan.first <= plan.last
      modifies this
      ensures (output, State()) == Differential(old(State()), next, plan, columns, rows) && finished == old(finished)
    {
      var moveTarget := if plan.appended then plan.first - 1 else plan.first;
      var travel := Travel(State(), moveTarget, rows);
      var viewportTop, cursorRow := travel.1, moveTarget;
      output := [BeginSync] + travel.0 + [if plan.appended then NewLine else CarriageReturn];
      if plan.appended {
        cursorRow := plan.first;
        viewportTop := Max(viewportTop, cursorRow - rows + 1);
      }
      ghost var top, head := viewportTop, output;
      var written := [];
      for index := plan.first to plan.last + 1
        invariant written == Rewrites(next, plan.first, index - 1)
        invariant cursorRow == if index == plan.first then plan.first else index - 1
        invariant viewportTop == if index - 1 > plan.first then Max(top, index - 1 - rows + 1) else top
      {
        var lineBreak := [];
        if index > plan.first {
          lineBreak := [NewLine];
          cursorRow := index;
          viewportTop := Max(viewportTop, cursorRow - rows + 1);
        }
        written := written + lineBreak + [EraseLine, Text(LineAt(next, index))];
      }
      var removedRows := Max(0, |previousLines| - |next|);
      var removals := [];
      for index := 0 to removedRows
        invariant removals == Removals(index)
      {
        removals := removals + [NewLine, EraseLine];
      }
      output := (output + written) + (removals + MoveRows(-removedRows) + [EndSync]);
      Remember(next, cursorRow, viewportTop, columns, rows);
    }

    /** Leaves the cursor below the frame and ignores every later call. */
    method Finish() returns (output: seq<Op>)
      modifies this
      ensures finished
      ensures old(finished) ==> output == [] && State() == old(State())
      ensures !old(finished) ==> output == FinishOps(old(State()))
      ensures !old(finished) ==>
        State() == if old(previousLines) == [] then old(State())
                   else old(State()).(cursorRow := |old(previousLines)| - 1)
    {
      if finished {
        return [];
      }
      finished := true;
      output := [BeginSync];
      if |previousLines| > 0 {
        var finalRow := |previousLines| - 1;
        output := output
          + MoveRows((finalRow - previousViewportTop) - (hardwareCursorRow - previousViewportTop)) + [NewLine];
        hardwareCursorRow := finalRow;
      }
      output := output + [ShowCursor, EndSync];
    }

    method Write(next: seq<Line>, columns: nat, rows: nat) returns (output: seq<Op>)
      requires next != []
      modifies this
      ensures old(finished) ==> output == [] && State() == old(State())
      ensures !old(finished) ==> (output, State()) == Update(old(State()), next, columns, rows)
      ensures finished == old(finished)
    {
      if finished {
        return [];
      }
      output := UpdateFrame(next, columns, rows);
    }
  }

  function FinishOps(t: Tracker): seq<Op> {
    [BeginSync]
    + (if t.lines == [] then []
       else MoveRows((|t.lines| - 1 - t.viewportTop) - (t.cursorRow - t.viewportTop)) + [NewLine])
    + [ShowCursor, EndSync]
  }
}
