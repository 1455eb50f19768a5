/**
 What the renderer does to the terminal besides its rows: every frame appears at once, the cursor is hidden while
 frames are drawn and visible again in the end, and no more rows are written than have changed.
*/
module TerminalModes {
  import opened Terminal
  import opened TerminalOutput
  import opened TerminalRefinement
  import opened TerminalSession

  predicate OfMode(op: Op) {
    op.BeginSync? || op.EndSync? || op.HideCursor? || op.ShowCursor?
  }

  predicate Plain(ops: seq<Op>) {
    forall i :: 0 <= i < |ops| ==> !OfMode(ops[i])
  }

  /** Output that the terminal shows at once: held back from its first operation to its last. */
  predicate AtOnce(ops: seq<Op>) {
    && |ops| >= 2 && ops[0] == BeginSync && ops[|ops| - 1] == EndSync
    && forall i :: 0 < i < |ops| - 1 ==> !ops[i].BeginSync? && !ops[i].EndSync?
  }

  // ---------- Modes ----------

  lemma {:induction false} PlainRun(s: Screen, ops: seq<Op>)
    requires s.Valid() && Plain(ops)
    ensures Run(s, ops).hidden == s.hidden && Run(s, ops).held == s.held
    decreases |ops|
  {
    if ops != [] {
      PlainRun(Apply(s, ops[0]), ops[1..]);
    }
  }

  lemma {:induction false} HeldWithin(s: Screen, ops: seq<Op>)
    requires s.Valid() && forall i :: 0 <= i < |ops| ==> !ops[i].BeginSync? && !ops[i].EndSync?
    ensures Run(s, ops).held == s.held
    decreases |ops|
  {
    if ops != [] {
      HeldWithin(Apply(s, ops[0]), ops[1..]);
    }
  }

  /** Nothing of such output is visible before all of it is. */
  lemma ShownAtOnce(s: Screen, ops: seq<Op>, k: nat)
    requires s.Valid() && AtOnce(ops) && 0 < k <= |ops|
    ensures Run(s, ops[..k]).held <==> k < |ops|
  {
    if k < |ops| {
      assert ops[..k] == [BeginSync] + ops[1..k];
      RunAppend(s, [BeginSync], ops[1..k]);
      RunOne(s, BeginSync);
      HeldWithin(s.(held := true), ops[1..k]);
    } else {
      assert ops[..k] == ops[..k - 1] + [EndSync];
      RunAppend(s, ops[..k - 1], [EndSync]);
      RunOne(Run(s, ops[..k - 1]), EndSync);
    }
  }

  // ---------- What the renderer emits ----------

  lemma {:induction false} JoinedIsPlain(lines: seq<Line>, k: nat)
    requires k < |lines|
    ensures Plain(Joined(lines, k))
  {
    if k > 0 {
      JoinedIsPlain(lines, k - 1);
    }
  }

  lemma {:induction false} NewLinesArePlain(n: nat)
    ensures Plain(NewLines(n))
  {
    if n > 0 {
      NewLinesArePlain(n - 1);
    }
  }

  lemma {:induction false} RewritesArePlain(next: seq<Line>, first: int, k: int)
    ensures Plain(Rewrites(next, first, k))
    decreases k - first
  {
    if k >= first {
      RewritesArePlain(next, first, k - 1);
    }
  }

  lemma {:induction false} RemovalsArePlain(n: nat)
    ensures Plain(Removals(n))
  {
    if n > 0 {
      RemovalsArePlain(n - 1);
    }
  }

  lemma TravelIsPlain(t: Tracker, target: int, rows: nat)
    ensures Plain(Travel(t, target, rows).0)
  {
    var bottom := t.viewportTop + rows - 1;
    if target > bottom {
      NewLinesArePlain(target - bottom);
    }
  }

  /** Between its brackets a differential update does nothing to the modes. */
  lemma DifferentialIsPlain(t: Tracker, next: seq<Line>, plan: Plan, columns: nat, rows: nat)
    ensures var ops := Differential(t, next, plan, columns, rows).0;
      AtOnce(ops) && Plain(ops[1..|ops| - 1])
  {
    var travel, body := Travel(t, TravelTarget(plan), rows).0, Rewrites(next, plan.first, plan.last);
    var removed: nat := Max(0, |t.lines| - |next|);
    TravelIsPlain(t, TravelTarget(plan), rows);
    RewritesArePlain(next, plan.first, plan.last);
    RemovalsArePlain(removed);
    var first, second := travel + [Turn(plan)] + body, Removals(removed) + MoveRows(-(removed as int));
    PlainJoin(travel, [Turn(plan)]);
    PlainJoin(travel + [Turn(plan)], body);
    PlainJoin(Removals(removed), MoveRows(-(removed as int)));
    PlainJoin(first, second);
    assert WriteOps(t, next, plan, rows) == [BeginSync] + first;
    assert RemoveOps(removed) == second + [EndSync];
    Bracketing(first, second);
    BracketedPlain(Differential(t, next, plan, columns, rows).0, first + second);
  }

  lemma PlainJoin(a: seq<Op>, b: seq<Op>)
    requires Plain(a) && Plain(b)
    ensures Plain(a + b)
  {
  }

  lemma Bracketing(first: seq<Op>, second: seq<Op>)
    ensures ([BeginSync] + first) + (second + [EndSync]) == [BeginSync] + (first + second) + [EndSync]
  {
  }

  lemma BracketedPlain(ops: seq<Op>, inner: seq<Op>)
    requires ops == [BeginSync] + inner + [EndSync] && Plain(inner)
    ensures AtOnce(ops) && ops[1..|ops| - 1] == inner
  {
    forall i | 0 < i < |ops| - 1 ensures ops[i] == inner[i - 1] {
    }
  }

  lemma FullRenderAtOnce(lines: seq<Line>, clear: bool, columns: nat, rows: nat)
    requires lines != []
    ensures AtOnce(FullRender(lines, clear, columns, rows).0)
  {
    JoinedIsPlain(lines, |lines| - 1);
  }

  /** Whatever a frame makes the renderer write, the terminal shows it at once. */
  lemma UpdatesAppearAtOnce(t: Tracker, next: seq<Line>, columns: nat, rows: nat)
    requires next != []
    ensures var ops := Update(t, next, columns, rows).0; ops == [] || AtOnce(ops)
    ensures AtOnce(FinishOps(t))
  {
    FullRenderAtOnce(next, false, columns, rows);
    FullRenderAtOnce(next, true, columns, rows);
    var n := Max(|next|, |t.lines|);
    DifferentialIsPlain(t, next, RowsToWrite(t, next, FirstChanged(next, t.lines, n), LastChanged(next, t.lines, n)), columns, rows);
  }

  // ---------- The cursor ----------

  lemma FullRenderHides(s: Screen, lines: seq<Line>, clear: bool, columns: nat, rows: nat)
    requires s.Valid() && lines != []
    ensures var t := Run(s, FullRender(lines, clear, columns, rows).0); t.hidden && !t.held
  {
    var head, body := [BeginSync, HideCursor], (if clear then [ClearHome] else []) + Joined(lines, |lines| - 1);
    JoinedIsPlain(lines, |lines| - 1);
    assert FullRender(lines, clear, columns, rows).0 == head + body + [EndSync];
    RunThree(s, head, body, EndSync);
    RunTwo(s, BeginSync, HideCursor);
    PlainRun(Run(s, head), body);
  }

  lemma DifferentialKeepsCursor(s: Screen, t: Tracker, next: seq<Line>, plan: Plan, columns: nat, rows: nat)
    requires s.Valid()
    ensures var u := Run(s, Differential(t, next, plan, columns, rows).0); u.hidden == s.hidden && !u.held
  {
    var ops := Differential(t, next, plan, columns, rows).0;
    DifferentialIsPlain(t, next, plan, columns, rows);
    var inner := ops[1..|ops| - 1];
    assert ops == [BeginSync] + inner + [EndSync];
    RunThree(s, [BeginSync], inner, EndSync);
    RunOne(s, BeginSync);
    PlainRun(s.(held := true), inner);
  }

  lemma DrawHides(session: Session, frame: Frame)
    requires frame.Valid() && Ready(session)
    requires session.tracker.lines != [] ==> session.screen.hidden && !session.screen.held
    ensures Draw(session, frame).screen.hidden && !Draw(session, frame).screen.held
    ensures Draw(session, frame).tracker.lines != []
  {
    var t, next, s := session.tracker, frame.lines, ScreenMet(session, frame);
    FullRenderHides(s, next, false, frame.columns, frame.rows);
    FullRenderHides(s, next, true, frame.columns, frame.rows);
    var n := Max(|next|, |t.lines|);
    DifferentialKeepsCursor(s, t, next, RowsToWrite(t, next, FirstChanged(next, t.lines, n), LastChanged(next, t.lines, n)),
                            frame.columns, frame.rows);
  }

  /** From the first frame on the cursor stays hidden, and no frame leaves anything held back. */
  lemma {:induction false} CursorIsHidden(frames: seq<Frame>)
    requires frames != [] && forall i :: 0 <= i < |frames| ==> frames[i].Valid()
    ensures var after := DrawAll(START, frames);
      after.screen.hidden && !after.screen.held && after.tracker.lines != []
  {
    var n := |frames| - 1;
    if n > 0 {
      CursorIsHidden(frames[..n]);
    }
    DrawHides(DrawAll(START, frames[..n]), frames[n]);
  }

  /** However many frames were drawn, finishing makes the cursor visible, and everything that was written. */
  lemma CursorIsShownAgain(s: Screen, t: Tracker)
    requires s.Valid()
    ensures !Run(s, FinishOps(t)).hidden && !Run(s, FinishOps(t)).held
  {
    if t.lines == [] {
      assert FinishOps(t) == [BeginSync] + [ShowCursor, EndSync];
      RunAppend(s, [BeginSync], [ShowCursor, EndSync]);
      RunTwo(Run(s, [BeginSync]), ShowCursor, EndSync);
    } else {
      FinishRun(s, t);
    }
  }

  // ---------- Rows written ----------

  /** How many rows the operations write. */
  function Written(ops: seq<Op>): nat {
    if ops == [] then 0 else Written(ops[..|ops| - 1]) + (if ops[|ops| - 1].Text? then 1 else 0)
  }

  lemma {:induction false} WrittenJoin(a: seq<Op>, b: seq<Op>)
    ensures Written(a + b) == Written(a) + Written(b)
  {
    if b == [] {
      assert a + b == a;
    } else {
      assert (a + b)[..|a + b| - 1] == a + b[..|b| - 1];
      WrittenJoin(a, b[..|b| - 1]);
    }
  }

  lemma {:induction false} NothingWritten(ops: seq<Op>)
    requires forall i :: 0 <= i < |ops| ==> !ops[i].Text?
    ensures Written(ops) == 0
  {
    if ops != [] {
      NothingWritten(ops[..|ops| - 1]);
    }
  }

  lemma {:induction false} NewLinesWriteNothing(n: nat)
    ensures forall i :: 0 <= i < |NewLines(n)| ==> !NewLines(n)[i].Text?
  {
    if n > 0 {
      NewLinesWriteNothing(n - 1);
    }
  }

  lemma {:induction false} RemovalsWriteNothing(n: nat)
    ensures forall i :: 0 <= i < |Removals(n)| ==> !Removals(n)[i].Text?
  {
    if n > 0 {
      RemovalsWriteNothing(n - 1);
    }
  }

  lemma {:induction false} RewritesWrite(next: seq<Line>, first: int, k: int)
    requires first <= k + 1
    ensures Written(Rewrites(next, first, k)) == k - first + 1
    decreases k - first
  {
    if k >= first {
      RewritesWrite(next, first, k - 1);
      var before, lineBreak := Rewrites(next, first, k - 1), if k > first then [NewLine] else [];
      var row := [EraseLine, Text(LineAt(next, k))];
      assert row == [EraseLine] + [Text(LineAt(next, k))];
      WrittenJoin(before + lineBreak, row);
      WrittenJoin(before, lineBreak);
      NothingWritten(lineBreak);
      assert row[..1] == [EraseLine] && row[|row| - 1].Text?;
      NothingWritten(row[..1]);
    }
  }

  lemma DifferentialWrites(t: Tracker, next: seq<Line>, plan: Plan, columns: nat, rows: nat)
    requires plan.first <= plan.last
    ensures Written(Differential(t, next, plan, columns, rows).0) == plan.last - plan.first + 1
  {
    var travel, target := Travel(t, TravelTarget(plan), rows).0, TravelTarget(plan);
    var head, body, tail := [BeginSync] + travel + [Turn(plan)], Rewrites(next, plan.first, plan.last), RemoveOps(Max(0, |t.lines| - |next|));
    if target > t.viewportTop + rows - 1 {
      NewLinesWriteNothing(target - (t.viewportTop + rows - 1));
    }
    RemovalsWriteNothing(Max(0, |t.lines| - |next|));
    NothingWritten(head);
    NothingWritten(tail);
    RewritesWrite(next, plan.first, plan.last);
    WrittenJoin(head, body);
    WrittenJoin(head + body, tail);
  }

  /** Outside the rows from `a` to `b` the frames agree. */
  ghost predicate DifferOnlyWithin(next: seq<Line>, prev: seq<Line>, a: int, b: int) {
    forall i {:trigger LineAt(next, i)} :: i < a || i > b ==> LineAt(next, i) == LineAt(prev, i)
  }

  /**
   Unless it renders fully, an update of a frame that did not shrink writes no row outside those that changed; one that
   shrank is written from the first change to its end.
  */
  lemma OnlyChangedRowsAreWritten(t: Tracker, frame: Frame, a: nat, b: nat)
    requires frame.Valid() && !RendersFully(t, frame) && a <= b && DifferOnlyWithin(frame.lines, t.lines, a, b)
    ensures var written := Written(Update(t, frame.lines, frame.columns, frame.rows).0);
      && (|frame.lines| >= |t.lines| ==> written <= b - a + 1)
      && (|frame.lines| < |t.lines| ==> written <= Max(1, |frame.lines| - a))
  {
    var next := frame.lines;
    var n := Max(|next|, |t.lines|);
    var first, last := FirstChanged(next, t.lines, n), LastChanged(next, t.lines, n);
    if first != -1 {
      var plan := RowsToWrite(t, next, first, last);
      if plan.first <= plan.last {
        DifferentialWrites(t, next, plan, frame.columns, frame.rows);
      }
    }
  }

  /** A frame that is drawn again unchanged writes nothing. */
  lemma UnchangedWritesNothing(t: Tracker, frame: Frame)
    requires frame.Valid() && t.lines == frame.lines && t.columns == frame.columns && t.rows == frame.rows
    ensures Update(t, frame.lines, frame.columns, frame.rows) == ([], t)
  {
  }
}
