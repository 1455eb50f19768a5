/**
 Why the differential renderer may be trusted: on the emulated terminal every update leaves the
 screen showing the new frame from the tracked viewport top, with blanks below and the real cursor
 on the tracked row, exactly as a full repaint would.
*/
module TerminalRefinement {
  import opened Terminal
  import opened TerminalOutput

  /** The `n` rows of `lines` from row `top` on, with blanks where there are no lines. */
  ghost function Window(lines: seq<Line>, top: int, n: nat): (r: seq<Line>)
    ensures |r| == n
  {
    seq(n, j => LineAt(lines, top + j))
  }

  /** One more than the index of the last line that is not blank. */
  ghost function ContentEnd(lines: seq<Line>): (n: nat)
    ensures n <= |lines|
  {
    if lines == [] then 0
    else if lines[|lines| - 1] != [] then |lines|
    else ContentEnd(lines[..|lines| - 1])
  }

  lemma {:induction false} BlankAfterContent(lines: seq<Line>, i: int)
    requires i >= ContentEnd(lines)
    ensures LineAt(lines, i) == []
  {
    if lines != [] && lines[|lines| - 1] == [] {
      BlankAfterContent(lines[..|lines| - 1], i);
    }
  }

  lemma {:induction false} ContentEndsBy(lines: seq<Line>, n: int)
    requires n >= 0 && forall i {:trigger LineAt(lines, i)} :: i >= n ==> LineAt(lines, i) == []
    ensures ContentEnd(lines) <= n
  {
    if lines != [] {
      var fewer := lines[..|lines| - 1];
      assert LineAt(lines, |lines| - 1) == lines[|lines| - 1];
      if lines[|lines| - 1] == [] {
        forall i {:trigger LineAt(fewer, i)} | i >= n ensures LineAt(fewer, i) == [] {
          assert LineAt(lines, i) == [];
        }
        ContentEndsBy(fewer, n);
      }
    }
  }

  /** The screen shows `lines` from the first row that has not scrolled off, and nothing lies below it. */
  ghost predicate Displays(s: Screen, lines: seq<Line>) {
    s.rows == Window(lines, s.scrolled, |s.rows|) && ContentEnd(lines) <= s.scrolled + |s.rows|
  }

  /** The tracker agrees with the terminal: contents, cursor row and viewport top. */
  ghost predicate Synchronized(s: Screen, t: Tracker, rows: nat) {
    && s.Valid() && |s.rows| == rows
    && s.scrolled == t.viewportTop < |t.lines|
    && s.cursor == t.cursorRow - t.viewportTop
    && Displays(s, t.lines)
  }

  ghost predicate SameLines(a: seq<Line>, b: seq<Line>, from: int) {
    forall i {:trigger LineAt(b, i)} :: i >= from ==> LineAt(a, i) == LineAt(b, i)
  }

  lemma DisplaysSame(s: Screen, a: seq<Line>, b: seq<Line>)
    requires Displays(s, a) && SameLines(a, b, s.scrolled)
    ensures Displays(s, b)
  {
    forall j | 0 <= j < |s.rows| ensures Window(b, s.scrolled, |s.rows|)[j] == s.rows[j] {
      assert LineAt(a, s.scrolled + j) == LineAt(b, s.scrolled + j);
    }
    forall i {:trigger LineAt(b, i)} | i >= s.scrolled + |s.rows| ensures LineAt(b, i) == [] {
      BlankAfterContent(a, i);
    }
    ContentEndsBy(b, s.scrolled + |s.rows|);
  }

  /** The first rows up to `k` of `next`, the later rows of `prev`. */
  ghost function Mix(next: seq<Line>, prev: seq<Line>, k: int): seq<Line> {
    seq(Max(|next|, |prev|), i => if i <= k then LineAt(next, i) else LineAt(prev, i))
  }

  lemma MixLines(next: seq<Line>, prev: seq<Line>, k: int)
    ensures forall i {:trigger LineAt(Mix(next, prev, k), i)} ::
      LineAt(Mix(next, prev, k), i) == if i <= k then LineAt(next, i) else LineAt(prev, i)
  {
  }

  // ---------- Single operations ----------

  lemma NewLineStep(s: Screen, lines: seq<Line>)
    requires s.Valid() && Displays(s, lines)
    ensures Displays(Apply(s, NewLine), lines)
    ensures Apply(s, NewLine).column == 0
    ensures var t := Apply(s, NewLine);
      && t.scrolled == Max(s.scrolled, s.scrolled + s.cursor + 1 - |s.rows| + 1)
      && t.scrolled + t.cursor == s.scrolled + s.cursor + 1
  {
    var t := Apply(s, NewLine);
    if s.cursor + 1 == |s.rows| {
      BlankAfterContent(lines, s.scrolled + |s.rows|);
      forall j | 0 <= j < |t.rows| ensures t.rows[j] == Window(lines, t.scrolled, |t.rows|)[j] {
        if j + 1 < |s.rows| {
          assert t.rows[j] == s.rows[j + 1] == Window(lines, s.scrolled, |s.rows|)[j + 1];
        }
      }
    }
  }

  lemma RewriteStep(s: Screen, a: seq<Line>, b: seq<Line>, text: Line)
    requires s.Valid() && s.column == 0 && Displays(s, a)
    requires LineAt(b, s.scrolled + s.cursor) == text
    requires forall i {:trigger LineAt(b, i)} :: i >= s.scrolled && i != s.scrolled + s.cursor ==> LineAt(a, i) == LineAt(b, i)
    ensures var t := Apply(Apply(s, EraseLine), Text(text));
      Displays(t, b) && t.cursor == s.cursor && t.scrolled == s.scrolled
  {
    assert Overlay([], 0, text) == text;
    WriteCell(s, a, b, text);
  }

  /** Replacing the cursor row by what `b` has there turns a display of `a` into one of `b`. */
  lemma WriteCell(s: Screen, a: seq<Line>, b: seq<Line>, text: Line)
    requires s.Valid() && Displays(s, a) && LineAt(b, s.scrolled + s.cursor) == text
    requires forall i {:trigger LineAt(b, i)} :: i >= s.scrolled && i != s.scrolled + s.cursor ==> LineAt(a, i) == LineAt(b, i)
    ensures Displays(s.(rows := s.rows[s.cursor := text]), b)
  {
    var rows := s.rows[s.cursor := text];
    forall j | 0 <= j < |rows| ensures rows[j] == Window(b, s.scrolled, |rows|)[j] {
      assert j != s.cursor ==> LineAt(a, s.scrolled + j) == LineAt(b, s.scrolled + j);
    }
    forall i {:trigger LineAt(b, i)} | i >= s.scrolled + |s.rows| ensures LineAt(b, i) == [] {
      BlankAfterContent(a, i);
    }
    ContentEndsBy(b, s.scrolled + |s.rows|);
  }

  lemma EraseStep(s: Screen, a: seq<Line>, b: seq<Line>)
    requires s.Valid() && Displays(s, a) && LineAt(b, s.scrolled + s.cursor) == []
    requires forall i {:trigger LineAt(b, i)} :: i >= s.scrolled && i != s.scrolled + s.cursor ==> LineAt(a, i) == LineAt(b, i)
    ensures Displays(Apply(s, EraseLine), b)
  {
    WriteCell(s, a, b, []);
  }

  lemma RunTwo(s: Screen, x: Op, y: Op)
    requires s.Valid()
    ensures Run(s, [x, y]) == Apply(Apply(s, x), y)
  {
    assert [x, y][1..] == [y];
    RunOne(Apply(s, x), y);
  }

  lemma RunThenTwo(s: Screen, ops: seq<Op>, x: Op, y: Op)
    requires s.Valid()
    ensures Run(s, ops + [x, y]) == Apply(Apply(Run(s, ops), x), y)
  {
    RunAppend(s, ops, [x, y]);
    RunTwo(Run(s, ops), x, y);
  }

  lemma RunThree(s: Screen, a: seq<Op>, b: seq<Op>, x: Op)
    requires s.Valid()
    ensures Run(s, a + b + [x]) == Apply(Run(Run(s, a), b), x)
  {
    RunAppend(s, a + b, [x]);
    RunAppend(s, a, b);
    RunOne(Run(Run(s, a), b), x);
  }

  lemma MoveRun(s: Screen, delta: int)
    requires s.Valid()
    ensures Run(s, MoveRows(delta)) == s.(cursor := Min(Max(s.cursor + delta, 0), |s.rows| - 1))
  {
    if delta > 0 {
      RunOne(s, MoveDown(delta));
    } else if delta < 0 {
      RunOne(s, MoveUp(-delta));
    }
  }

  // ---------- Runs of operations ----------

  lemma {:induction false} NewLinesRun(s: Screen, n: nat, lines: seq<Line>)
    requires s.Valid() && s.cursor == |s.rows| - 1 && Displays(s, lines)
    ensures var t := Run(s, NewLines(n));
      Displays(t, lines) && t.cursor == s.cursor && t.scrolled == s.scrolled + n
  {
    if n > 0 {
      NewLinesRun(s, n - 1, lines);
      RunAppend(s, NewLines(n - 1), [NewLine]);
      RunOne(Run(s, NewLines(n - 1)), NewLine);
      NewLineStep(Run(s, NewLines(n - 1)), lines);
    }
  }

  lemma RewriteRow(s: Screen, next: seq<Line>, prev: seq<Line>, k: int)
    requires s.Valid() && s.column == 0 && s.scrolled + s.cursor == k && Displays(s, Mix(next, prev, k - 1))
    ensures var t := Apply(Apply(s, EraseLine), Text(LineAt(next, k)));
      Displays(t, Mix(next, prev, k)) && t.scrolled == s.scrolled && t.cursor == s.cursor
  {
    MixLines(next, prev, k - 1);
    MixLines(next, prev, k);
    RewriteStep(s, Mix(next, prev, k - 1), Mix(next, prev, k), LineAt(next, k));
  }

  lemma {:induction false} RewritesRun(s: Screen, next: seq<Line>, prev: seq<Line>, first: int, k: int)
    requires s.Valid() && s.column == 0 && first <= k
    requires s.scrolled + s.cursor == first && Displays(s, Mix(next, prev, first - 1))
    ensures var t := Run(s, Rewrites(next, first, k));
      && Displays(t, Mix(next, prev, k))
      && t.scrolled + t.cursor == k
      && t.scrolled == if k > first then Max(s.scrolled, k - |s.rows| + 1) else s.scrolled
    decreases k - first
  {
    var text := Text(LineAt(next, k));
    if k == first {
      assert Rewrites(next, first, k) == [EraseLine, text];
      RunTwo(s, EraseLine, text);
      RewriteRow(s, next, prev, k);
    } else {
      RewritesRun(s, next, prev, first, k - 1);
      var before := Run(s, Rewrites(next, first, k - 1));
      NewLineStep(before, Mix(next, prev, k - 1));
      RewriteRow(Apply(before, NewLine), next, prev, k);
      RewritesSnoc(s, next, first, k);
    }
  }

  lemma RewritesSnoc(s: Screen, next: seq<Line>, first: int, k: int)
    requires s.Valid() && first < k
    ensures Run(s, Rewrites(next, first, k))
         == Apply(Apply(Apply(Run(s, Rewrites(next, first, k - 1)), NewLine), EraseLine), Text(LineAt(next, k)))
  {
    var ops := Rewrites(next, first, k - 1);
    RunThenTwo(s, ops + [NewLine], EraseLine, Text(LineAt(next, k)));
    RunAppend(s, ops, [NewLine]);
    RunOne(Run(s, ops), NewLine);
    assert Rewrites(next, first, k) == ops + [NewLine] + [EraseLine, Text(LineAt(next, k))];
  }

  lemma RemoveRow(s: Screen, next: seq<Line>, prev: seq<Line>, k: int)
    requires s.Valid() && s.scrolled + s.cursor == k && k >= |next| && Displays(s, Mix(next, prev, k - 1))
    ensures Displays(Apply(s, EraseLine), Mix(next, prev, k))
  {
    MixLines(next, prev, k - 1);
    MixLines(next, prev, k);
    EraseStep(s, Mix(next, prev, k - 1), Mix(next, prev, k));
  }

  /** Erasing the rows of a longer previous frame, as long as they are all on the screen. */
  lemma {:induction false} RemovalsRun(s: Screen, next: seq<Line>, prev: seq<Line>, n: nat)
    requires s.Valid() && s.scrolled + s.cursor == |next| - 1 && s.cursor + n < |s.rows|
    requires Displays(s, Mix(next, prev, |next| - 1))
    ensures var t := Run(s, Removals(n));
      Displays(t, Mix(next, prev, |next| - 1 + n)) && t.cursor == s.cursor + n && t.scrolled == s.scrolled
  {
    if n > 0 {
      RemovalsRun(s, next, prev, n - 1);
      var before := Run(s, Removals(n - 1));
      RunThenTwo(s, Removals(n - 1), NewLine, EraseLine);
      NewLineStep(before, Mix(next, prev, |next| - 2 + n));
      RemoveRow(Apply(before, NewLine), next, prev, |next| - 1 + n);
    }
  }

  /** Erasing past the bottom scrolls the terminal once for every row that is not on the screen. */
  lemma {:induction false} RemovalsScroll(s: Screen, n: nat)
    requires s.Valid()
    ensures Run(s, Removals(n)).scrolled == s.scrolled + Max(0, s.cursor + n - (|s.rows| - 1))
    ensures Run(s, Removals(n)).cursor == Min(s.cursor + n, |s.rows| - 1)
  {
    if n > 0 {
      RemovalsScroll(s, n - 1);
      RunThenTwo(s, Removals(n - 1), NewLine, EraseLine);
    }
  }

  lemma ScrollRun(s: Screen, lines: seq<Line>, n: nat)
    requires s.Valid() && Displays(s, lines)
    ensures var u := Run(s, MoveRows(|s.rows| - 1 - s.cursor) + NewLines(n));
      Displays(u, lines) && u.cursor == |s.rows| - 1 && u.scrolled == s.scrolled + n
  {
    var down := MoveRows(|s.rows| - 1 - s.cursor);
    RunAppend(s, down, NewLines(n));
    MoveRun(s, |s.rows| - 1 - s.cursor);
    NewLinesRun(Run(s, down), n, lines);
  }

  lemma TravelRun(s: Screen, t: Tracker, target: int, rows: nat)
    requires Synchronized(s, t, rows) && target >= t.viewportTop
    ensures var u := Run(s, Travel(t, target, rows).0);
      && Displays(u, t.lines) && u.scrolled + u.cursor == target && u.scrolled == Travel(t, target, rows).1
  {
    var bottom := t.viewportTop + rows - 1;
    if target > bottom {
      ScrollRun(s, t.lines, target - bottom);
    } else {
      MoveRun(s, (target - t.viewportTop) - (t.cursorRow - t.viewportTop));
    }
  }

  /** Writing one more line on the blank row below what is displayed. */
  lemma AppendLine(s: Screen, lines: seq<Line>, k: nat)
    requires s.Valid() && k < |lines| && s.column == 0 && s.scrolled + s.cursor == k && Displays(s, lines[..k])
    ensures var t := Apply(s, Text(lines[k]));
      Displays(t, lines[..k + 1]) && t.scrolled == s.scrolled && t.cursor == s.cursor
  {
    assert s.rows[s.cursor] == LineAt(lines[..k], k) == [];
    assert Apply(s, EraseLine) == s;
    RewriteStep(s, lines[..k], lines[..k + 1], lines[k]);
  }

  lemma {:induction false} JoinedRun(s: Screen, lines: seq<Line>, k: nat)
    requires s.Valid() && k < |lines| && s.IsBlank()
    ensures var t := Run(s, Joined(lines, k));
      && Displays(t, lines[..k + 1]) && t.scrolled + t.cursor == k && t.scrolled == Max(0, k - |s.rows| + 1)
  {
    if k == 0 {
      RunOne(s, Text(lines[0]));
      assert s.rows == Window([], 0, |s.rows|);
      assert lines[..0] == [];
      AppendLine(s, lines, 0);
    } else {
      JoinedRun(s, lines, k - 1);
      var before := Run(s, Joined(lines, k - 1));
      RunThenTwo(s, Joined(lines, k - 1), NewLine, Text(lines[k]));
      NewLineStep(before, lines[..k]);
      AppendLine(Apply(before, NewLine), lines, k);
    }
  }

  // ---------- One update ----------

  lemma FullRenderRun(s: Screen, lines: seq<Line>, clear: bool, columns: nat, rows: nat)
    requires s.Valid() && |s.rows| == rows && lines != []
    requires !clear ==> s.IsBlank()
    ensures var r := FullRender(lines, clear, columns, rows);
      Synchronized(Run(s, r.0), r.1, rows)
  {
    var head := Run(s, HeadOps(clear));
    HeadRun(s, clear);
    RunThree(s, HeadOps(clear), Joined(lines, |lines| - 1), EndSync);
    JoinedRun(head, lines, |lines| - 1);
    assert lines[..|lines| - 1 + 1] == lines;
    ShownWhenComplete(Run(head, Joined(lines, |lines| - 1)), lines, columns, rows);
  }

  function HeadOps(clear: bool): seq<Op> {
    [BeginSync, HideCursor] + (if clear then [ClearHome] else [])
  }

  /** What has been written is shown once it is no longer held back. */
  lemma ShownWhenComplete(u: Screen, lines: seq<Line>, columns: nat, rows: nat)
    requires u.Valid() && |u.rows| == rows && lines != [] && Displays(u, lines)
    requires u.scrolled + u.cursor == |lines| - 1 && u.scrolled == Max(0, |lines| - 1 - |u.rows| + 1)
    ensures Synchronized(Apply(u, EndSync), Tracker(lines, |lines| - 1, Max(0, |lines| - rows), columns, rows), rows)
  {
  }

  lemma HeadRun(s: Screen, clear: bool)
    requires s.Valid() && (!clear ==> s.IsBlank())
    ensures Run(s, HeadOps(clear)).IsBlank() && |Run(s, HeadOps(clear)).rows| == |s.rows|
  {
    RunAppend(s, [BeginSync, HideCursor], if clear then [ClearHome] else []);
    RunTwo(s, BeginSync, HideCursor);
    if clear {
      RunOne(Run(s, [BeginSync, HideCursor]), ClearHome);
    }
  }

  lemma WriteOpsRun(s: Screen, t: Tracker, next: seq<Line>, plan: Plan, rows: nat)
    requires s.Valid()
    ensures Run(s, WriteOps(t, next, plan, rows))
         == Run(Apply(Run(s.(held := true), Travel(t, TravelTarget(plan), rows).0), Turn(plan)),
                Rewrites(next, plan.first, plan.last))
  {
    var travel, turn, body := Travel(t, TravelTarget(plan), rows).0, Turn(plan), Rewrites(next, plan.first, plan.last);
    RunAppend(s, [BeginSync] + travel + [turn], body);
    RunAppend(s, [BeginSync] + travel, [turn]);
    RunAppend(s, [BeginSync], travel);
    RunOne(s, BeginSync);
    RunOne(Run(s.(held := true), travel), turn);
  }

  /** After travelling and turning, the cursor starts the first planned row. */
  lemma ReadyToWrite(s: Screen, t: Tracker, next: seq<Line>, plan: Plan, rows: nat)
    requires Synchronized(s, t, rows) && t.viewportTop <= plan.first
    requires plan.appended ==> plan.first > t.viewportTop
    requires SameLines(t.lines, Mix(next, t.lines, plan.first - 1), t.viewportTop)
    ensures var u := Apply(Run(s, Travel(t, TravelTarget(plan), rows).0), Turn(plan));
      && Displays(u, Mix(next, t.lines, plan.first - 1))
      && u.scrolled + u.cursor == plan.first && u.column == 0
      && u.scrolled == TopWhenWriting(t, plan, rows)
  {
    TravelRun(s, t, TravelTarget(plan), rows);
    var there := Run(s, Travel(t, TravelTarget(plan), rows).0);
    if plan.appended {
      NewLineStep(there, t.lines);
    }
    DisplaysSame(Apply(there, Turn(plan)), t.lines, Mix(next, t.lines, plan.first - 1));
  }

  /** The write phase of an update: travel, then rewrite the planned rows. */
  lemma WriteRun(s: Screen, t: Tracker, next: seq<Line>, plan: Plan, rows: nat)
    requires Synchronized(s, t, rows) && t.viewportTop <= plan.first <= plan.last
    requires plan.appended ==> plan.first > t.viewportTop
    requires SameLines(t.lines, Mix(next, t.lines, plan.first - 1), t.viewportTop)
    ensures var u := Run(s, WriteOps(t, next, plan, rows));
      && Displays(u, Mix(next, t.lines, plan.last))
      && u.scrolled + u.cursor == plan.last
      && u.scrolled == TopAfterWriting(t, plan, rows)
  {
    var begun := s.(held := true);
    ReadyToWrite(begun, t, next, plan, rows);
    var ready := Apply(Run(begun, Travel(t, TravelTarget(plan), rows).0), Turn(plan));
    WriteOpsRun(s, t, next, plan, rows);
    assert Run(s, WriteOps(t, next, plan, rows)) == Run(ready, Rewrites(next, plan.first, plan.last));
    RewritesRun(ready, next, t.lines, plan.first, plan.last);
  }

  /** Some row of a shrinking update lies below the screen and will be erased there. */
  predicate Overruns(t: Tracker, next: seq<Line>, rows: nat) {
    && |next| < |t.lines| && t.viewportTop <= |next| - 1
    && FirstChanged(next, t.lines, |t.lines|) != -1
    && |t.lines| > t.viewportTop + rows
  }

  lemma PlanIsSound(t: Tracker, next: seq<Line>, n: nat, plan: Plan)
    requires next != [] && t.lines != [] && n == Max(|next|, |t.lines|) && 0 <= t.viewportTop
    requires FirstChanged(next, t.lines, n) != -1
    requires |next| < |t.lines| ==> |next| - 1 >= t.viewportTop
    requires plan == RowsToWrite(t, next, FirstChanged(next, t.lines, n), LastChanged(next, t.lines, n))
    ensures t.viewportTop <= plan.first
    ensures SameLines(t.lines, Mix(next, t.lines, plan.first - 1), t.viewportTop)
    ensures |next| >= |t.lines| ==> SameLines(Mix(next, t.lines, plan.last), next, t.viewportTop)
    ensures plan.last <= |next| - 1
    ensures |next| < |t.lines| ==> plan.first <= plan.last == |next| - 1 && !plan.appended
    ensures plan.first > plan.last ==> SameLines(t.lines, next, t.viewportTop)
  {
    var firstChanged, lastChanged := FirstChanged(next, t.lines, n), LastChanged(next, t.lines, n);
    assert forall i :: 0 <= i < firstChanged ==> LineAt(next, i) == LineAt(t.lines, i);
    assert forall i :: i > lastChanged ==> LineAt(next, i) == LineAt(t.lines, i);
    MixLines(next, t.lines, plan.first - 1);
    MixLines(next, t.lines, plan.last);
  }

  lemma RemoveOpsSplit(u: Screen, removed: nat)
    requires u.Valid()
    ensures Run(u, RemoveOps(removed)) == Apply(Run(Run(u, Removals(removed)), MoveRows(-(removed as int))), EndSync)
  {
    RunThree(u, Removals(removed), MoveRows(-(removed as int)), EndSync);
  }

  /** Back on the row above the erased ones, nothing is held back any more. */
  ghost function MovedUp(w: Screen, removed: nat): Screen
    requires w.Valid()
  {
    w.(cursor := Min(Max(w.cursor - removed, 0), |w.rows| - 1), held := false)
  }

  lemma RemoveOpsRun(u: Screen, removed: nat)
    requires u.Valid()
    ensures Run(u, RemoveOps(removed)) == MovedUp(Run(u, Removals(removed)), removed)
  {
    RemoveOpsSplit(u, removed);
    MovesUp(Run(u, Removals(removed)), removed);
  }

  lemma MovesUp(w: Screen, removed: nat)
    requires w.Valid()
    ensures Apply(Run(w, MoveRows(-(removed as int))), EndSync) == MovedUp(w, removed)
  {
    MoveRun(w, -(removed as int));
  }

  /** With every removed row on the screen, erasing them completes the new frame. */
  lemma FinishFits(u: Screen, prev: seq<Line>, next: seq<Line>, last: int)
    requires u.Valid() && u.scrolled + u.cursor == last
    requires Displays(u, Mix(next, prev, last))
    requires |next| >= |prev| ==> SameLines(Mix(next, prev, last), next, u.scrolled)
    requires |next| < |prev| ==> last == |next| - 1 && |prev| <= u.scrolled + |u.rows|
    ensures var v := Run(u, RemoveOps(Max(0, |prev| - |next|)));
      Displays(v, next) && v.scrolled == u.scrolled && v.cursor == u.cursor
  {
    var removed := Max(0, |prev| - |next|);
    RemoveOpsRun(u, removed);
    if removed > 0 {
      RemovalsRun(u, next, prev, removed);
      MixLines(next, prev, |next| - 1 + removed);
      DisplaysSame(Run(u, Removals(removed)), Mix(next, prev, |next| - 1 + removed), next);
    } else {
      DisplaysSame(u, Mix(next, prev, last), next);
    }
  }

  /** With a removed row below the screen, erasing it scrolls behind the tracker's back. */
  lemma FinishOverruns(u: Screen, prev: seq<Line>, next: seq<Line>)
    requires u.Valid() && u.scrolled + u.cursor == |next| - 1
    requires |next| < |prev| && |prev| > u.scrolled + |u.rows|
    ensures Run(u, RemoveOps(|prev| - |next|)).scrolled > u.scrolled
  {
    RemoveOpsRun(u, |prev| - |next|);
    RemovalsScroll(u, |prev| - |next|);
  }

  /** Writing never moves the viewport top so far that an overrunning frame would fit. */
  lemma TopStaysBehind(t: Tracker, plan: Plan, rows: nat)
    requires t.viewportTop <= plan.first <= plan.last && rows > 0
    ensures TopAfterWriting(t, plan, rows) == Max(t.viewportTop, plan.last - rows + 1)
  {
  }

  lemma DifferentialStep(s: Screen, t: Tracker, next: seq<Line>, plan: Plan, columns: nat, rows: nat)
    requires Synchronized(s, t, rows)
    requires t.viewportTop <= plan.first <= plan.last <= |next| - 1
    requires plan.appended ==> plan.first > t.viewportTop
    requires SameLines(t.lines, Mix(next, t.lines, plan.first - 1), t.viewportTop)
    requires |next| >= |t.lines| ==> SameLines(Mix(next, t.lines, plan.last), next, t.viewportTop)
    requires |next| < |t.lines| ==> plan.last == |next| - 1
    ensures var r := Differential(t, next, plan, columns, rows);
      Synchronized(Run(s, r.0), r.1, rows) <==> !(|next| < |t.lines| && |t.lines| > t.viewportTop + rows)
  {
    WriteRun(s, t, next, plan, rows);
    TopStaysBehind(t, plan, rows);
    var u := Run(s, WriteOps(t, next, plan, rows));
    RunAppend(s, WriteOps(t, next, plan, rows), RemoveOps(Max(0, |t.lines| - |next|)));
    if |next| < |t.lines| && |t.lines| > t.viewportTop + rows {
      FinishOverruns(u, t.lines, next);
    } else {
      FinishFits(u, t.lines, next, plan.last);
    }
  }

  /**
   At an unchanged terminal size, one update keeps terminal and tracker synchronized on the new
   frame if and only if no row it has to erase lies below the screen.
  */
  lemma UpdateExact(s: Screen, t: Tracker, next: seq<Line>, columns: nat, rows: nat)
    requires Synchronized(s, t, rows) && next != [] && t.columns == columns && t.rows == rows
    ensures var r := Update(t, next, columns, rows);
      (Synchronized(Run(s, r.0), r.1, rows) && SameLines(r.1.lines, next, 0)) <==> !Overruns(t, next, rows)
  {
    var n := Max(|next|, |t.lines|);
    var firstChanged, lastChanged := FirstChanged(next, t.lines, n), LastChanged(next, t.lines, n);
    if firstChanged == -1 {
      assert forall i {:trigger LineAt(next, i)} :: LineAt(t.lines, i) == LineAt(next, i);
    } else if |next| < |t.lines| && |next| - 1 < t.viewportTop {
      FullRenderRun(s, next, true, columns, rows);
    } else {
      var plan := RowsToWrite(t, next, firstChanged, lastChanged);
      PlanIsSound(t, next, n, plan);
      if plan.first > plan.last {
        DisplaysSame(s, t.lines, next);
      } else {
        DifferentialStep(s, t, next, plan, columns, rows);
      }
    }
  }
}
