/**
 Whole sessions of the renderer: any sequence of frames, with the terminal free to change its size
 (and to reflow its contents arbitrarily) between any two of them.
*/
module TerminalSession {
  import opened Terminal
  import opened TerminalOutput
  import opened TerminalRefinement

  /** A frame, the terminal size it meets, and what the screen shows if the size has just changed. */
  datatype Frame = Frame(lines: seq<Line>, columns: nat, rows: nat, reflowed: Screen) {
    predicate Valid() {
      && lines != [] && columns > 0 && rows > 0
      && reflowed.Valid() && |reflowed.rows| == rows
    }

    predicate EndsInText() {
      lines != [] && lines[|lines| - 1] != []
    }
  }

  datatype Session = Session(tracker: Tracker, screen: Screen)

  function ScreenMet(session: Session, frame: Frame): Screen {
    if session.tracker.lines == [] then BlankScreen(frame.rows)
    else if session.tracker.columns == frame.columns && session.tracker.rows == frame.rows then session.screen
    else frame.reflowed.(hidden := session.screen.hidden, held := session.screen.held)
  }

  predicate Ready(session: Session) {
    session.tracker.lines != [] ==>
      session.tracker.columns > 0 && session.screen.Valid() && |session.screen.rows| == session.tracker.rows
  }

  function Draw(session: Session, frame: Frame): Session
    requires frame.Valid() && Ready(session)
  {
    var r := Update(session.tracker, frame.lines, frame.columns, frame.rows);
    Session(r.1, Run(ScreenMet(session, frame), r.0))
  }

  lemma DrawReady(session: Session, frame: Frame)
    requires frame.Valid() && Ready(session)
    ensures Ready(Draw(session, frame))
  {
  }

  function DrawAll(session: Session, frames: seq<Frame>): (r: Session)
    requires Ready(session) && forall i :: 0 <= i < |frames| ==> frames[i].Valid()
    ensures Ready(r)
  {
    if frames == [] then session
    else
      var before := DrawAll(session, frames[..|frames| - 1]);
      DrawReady(before, frames[|frames| - 1]);
      Draw(before, frames[|frames| - 1])
  }

  const START := Session(UNUSED, BlankScreen(0))

  ghost predicate InStep(session: Session) {
    && Synchronized(session.screen, session.tracker, session.tracker.rows)
    && session.tracker.columns > 0
    && session.tracker.lines[|session.tracker.lines| - 1] != []
  }

  lemma TextFits(s: Screen, t: Tracker, rows: nat)
    requires Synchronized(s, t, rows) && t.lines[|t.lines| - 1] != []
    ensures |t.lines| <= t.viewportTop + rows
  {
    assert ContentEnd(t.lines) == |t.lines|;
  }

  /** Terminal and tracker agree on a frame at its own size. */
  ghost predicate Shown(s: Screen, t: Tracker, frame: Frame) {
    && Synchronized(s, t, frame.rows)
    && t.lines == frame.lines && t.columns == frame.columns && t.rows == frame.rows
  }

  lemma RepaintShows(s: Screen, frame: Frame, clear: bool)
    requires frame.Valid() && s.Valid() && |s.rows| == frame.rows && (!clear ==> s.IsBlank())
    ensures var r := FullRender(frame.lines, clear, frame.columns, frame.rows);
      Shown(Run(s, r.0), r.1, frame)
  {
    FullRenderRun(s, frame.lines, clear, frame.columns, frame.rows);
  }

  lemma UpdateShows(session: Session, frame: Frame)
    requires frame.Valid() && frame.EndsInText() && (session.tracker == UNUSED || InStep(session))
    ensures var r := Update(session.tracker, frame.lines, frame.columns, frame.rows);
      Shown(Run(ScreenMet(session, frame), r.0), r.1, frame)
  {
    var t := session.tracker;
    if t == UNUSED {
      RepaintShows(BlankScreen(frame.rows), frame, false);
    } else if t.columns != frame.columns || t.rows != frame.rows {
      RepaintShows(ScreenMet(session, frame), frame, true);
    } else {
      SameSizeInStep(session.screen, t, frame.lines);
    }
  }

  lemma DrawInStep(session: Session, frame: Frame)
    requires frame.Valid() && frame.EndsInText() && (session.tracker == UNUSED || InStep(session))
    ensures var after := Draw(session, frame);
      && InStep(after) && after.tracker.rows == frame.rows
      && after.tracker.lines == frame.lines
  {
    UpdateShows(session, frame);
  }

  lemma SameSizeInStep(s: Screen, t: Tracker, next: seq<Line>)
    requires Synchronized(s, t, t.rows) && t.lines[|t.lines| - 1] != []
    requires next != [] && next[|next| - 1] != []
    ensures var r := Update(t, next, t.columns, t.rows);
      Synchronized(Run(s, r.0), r.1, t.rows) && r.1.lines == next
      && r.1.columns == t.columns && r.1.rows == t.rows
  {
    UpdateExact(s, t, next, t.columns, t.rows);
    TextFits(s, t, t.rows);
    if FirstChanged(next, t.lines, Max(|next|, |t.lines|)) == -1 {
      UnchangedIsEqual(t.lines, next);
    }
  }

  /** Two frames that end in text and agree line by line, blanks included, are equal. */
  lemma UnchangedIsEqual(a: seq<Line>, b: seq<Line>)
    requires a != [] && b != [] && a[|a| - 1] != [] && b[|b| - 1] != []
    requires FirstChanged(b, a, Max(|b|, |a|)) == -1
    ensures a == b
  {
    assert LineAt(a, |a| - 1) == LineAt(b, |a| - 1);
    assert LineAt(a, |b| - 1) == LineAt(b, |b| - 1);
    forall i | 0 <= i < |a| ensures a[i] == b[i] {
      assert LineAt(a, i) == LineAt(b, i);
    }
  }

  /**
   After every frame of every session the screen shows the frame's rows from the tracked viewport
   top, blank below, and the terminal's cursor is on the tracked row.
  */
  lemma {:induction false} EveryFrameIsShown(frames: seq<Frame>)
    requires frames != []
    requires forall i :: 0 <= i < |frames| ==> frames[i].Valid() && frames[i].EndsInText()
    ensures var last, after := frames[|frames| - 1], DrawAll(START, frames);
      && Synchronized(after.screen, after.tracker, last.rows)
      && after.tracker.lines == last.lines
      && after.screen.rows == Window(last.lines, after.tracker.viewportTop, last.rows)
      && after.screen.cursor == after.tracker.cursorRow - after.tracker.viewportTop
  {
    EverySessionInStep(frames);
  }

  lemma {:induction false} EverySessionInStep(frames: seq<Frame>)
    requires frames != []
    requires forall i :: 0 <= i < |frames| ==> frames[i].Valid() && frames[i].EndsInText()
    ensures InStep(DrawAll(START, frames))
    ensures DrawAll(START, frames).tracker.rows == frames[|frames| - 1].rows
    ensures DrawAll(START, frames).tracker.lines == frames[|frames| - 1].lines
  {
    var earlier := frames[..|frames| - 1];
    if earlier != [] {
      EverySessionInStep(earlier);
    }
    DrawInStep(DrawAll(START, earlier), frames[|frames| - 1]);
  }

  // ---------- The tracked viewport top, and a repaint ----------

  /** The frame is drawn from the beginning, which moves the viewport top to where a repaint puts it. */
  predicate RendersFully(t: Tracker, frame: Frame) {
    || t.lines == []
    || (t.columns != 0 && (t.columns != frame.columns || t.rows != frame.rows))
    || (FirstChanged(frame.lines, t.lines, Max(|frame.lines|, |t.lines|)) != -1
        && |frame.lines| < |t.lines| && |frame.lines| - 1 < t.viewportTop)
  }

  function RepaintTop(frame: Frame): nat {
    Max(0, |frame.lines| - frame.rows)
  }

  lemma PlannedRows(t: Tracker, next: seq<Line>, rows: nat)
    requires next != [] && rows > 0
    requires FirstChanged(next, t.lines, Max(|next|, |t.lines|)) != -1
    ensures var n := Max(|next|, |t.lines|);
      var plan := RowsToWrite(t, next, FirstChanged(next, t.lines, n), LastChanged(next, t.lines, n));
      plan.first <= plan.last ==>
        TopAfterWriting(t, plan, rows) <= Max(t.viewportTop, |next| - rows)
        && TopAfterWriting(t, plan, rows) >= t.viewportTop
  {
  }

  /** Without a full render the top never moves back, and no further than the last line needs. */
  lemma TopMoves(t: Tracker, frame: Frame)
    requires frame.Valid() && !RendersFully(t, frame)
    ensures t.viewportTop <= Update(t, frame.lines, frame.columns, frame.rows).1.viewportTop
         <= Max(t.viewportTop, |frame.lines| - frame.rows)
  {
    if FirstChanged(frame.lines, t.lines, Max(|frame.lines|, |t.lines|)) != -1 {
      PlannedRows(t, frame.lines, frame.rows);
    }
  }

  lemma InStepFits(session: Session)
    requires InStep(session)
    ensures |session.tracker.lines| <= session.tracker.viewportTop + session.tracker.rows
  {
    TextFits(session.screen, session.tracker, session.tracker.rows);
  }

  lemma TopAfter(t: Tracker, frame: Frame, after: Session)
    requires frame.Valid() && after.tracker == Update(t, frame.lines, frame.columns, frame.rows).1
    requires InStep(after) && after.tracker.lines == frame.lines && after.tracker.rows == frame.rows
    ensures after.tracker.viewportTop
         == if RendersFully(t, frame) then RepaintTop(frame) else Max(t.viewportTop, |frame.lines| - frame.rows)
  {
    if !RendersFully(t, frame) {
      TopMoves(t, frame);
      InStepFits(after);
    }
  }

  /** A full render starts the top anew; any other update moves it just as far as the last line needs. */
  lemma TopOfUpdate(session: Session, frame: Frame)
    requires frame.Valid() && frame.EndsInText() && (session.tracker == UNUSED || InStep(session))
    ensures Draw(session, frame).tracker.viewportTop
         == if RendersFully(session.tracker, frame) then RepaintTop(frame)
            else Max(session.tracker.viewportTop, |frame.lines| - frame.rows)
  {
    DrawInStep(session, frame);
    TopAfter(session.tracker, frame, Draw(session, frame));
  }

  /** The frame since which nothing has been drawn from the beginning. */
  function LastRender(frames: seq<Frame>): (k: nat)
    requires frames != [] && forall i :: 0 <= i < |frames| ==> frames[i].Valid()
    ensures k < |frames|
  {
    var n := |frames| - 1;
    if n == 0 || RendersFully(DrawAll(START, frames[..n]).tracker, frames[n]) then n else LastRender(frames[..n])
  }

  /** The furthest top that any of the frames asks for. */
  function FurthestTop(frames: seq<Frame>): nat {
    if frames == [] then 0
    else Max(FurthestTop(frames[..|frames| - 1]), RepaintTop(frames[|frames| - 1]))
  }

  lemma FurthestOfMore(frames: seq<Frame>, k: nat)
    requires k < |frames|
    ensures var n := |frames| - 1;
      FurthestTop(frames[k..])
      == if k == n then RepaintTop(frames[n]) else Max(FurthestTop(frames[..n][k..]), RepaintTop(frames[n]))
  {
    var since := frames[k..];
    if k < |frames| - 1 {
      assert since[..|since| - 1] == frames[..|frames| - 1][k..];
    } else {
      assert since[..|since| - 1] == [];
    }
  }

  /** The tracked top is the furthest top that any frame since the last full render has asked for. */
  lemma {:induction false} TopSinceRender(frames: seq<Frame>)
    requires frames != []
    requires forall i :: 0 <= i < |frames| ==> frames[i].Valid() && frames[i].EndsInText()
    ensures DrawAll(START, frames).tracker.viewportTop == FurthestTop(frames[LastRender(frames)..])
  {
    var n := |frames| - 1;
    var earlier, frame := frames[..n], frames[n];
    if n > 0 {
      EverySessionInStep(earlier);
      TopSinceRender(earlier);
    }
    TopOfUpdate(DrawAll(START, earlier), frame);
    FurthestOfMore(frames, LastRender(frames));
  }

  /** Row by row, one screen shows what the other shows `ahead` rows further down, and then blanks. */
  ghost predicate Ahead(s: Screen, r: Screen, ahead: nat) {
    && |s.rows| == |r.rows|
    && forall j {:trigger s.rows[j]} :: 0 <= j < |s.rows| ==>
         s.rows[j] == if j + ahead < |r.rows| then r.rows[j + ahead] else []
  }

  /** Two screens that show the same lines differ only in how far they have scrolled. */
  lemma SameWindows(s: Screen, r: Screen, lines: seq<Line>)
    requires |s.rows| == |r.rows| && s.scrolled >= r.scrolled && Displays(s, lines) && Displays(r, lines)
    ensures Ahead(s, r, s.scrolled - r.scrolled)
  {
    var ahead := s.scrolled - r.scrolled;
    forall j {:trigger s.rows[j]} | 0 <= j < |s.rows|
      ensures s.rows[j] == if j + ahead < |r.rows| then r.rows[j + ahead] else []
    {
      assert s.rows[j] == LineAt(lines, s.scrolled + j);
      if j + ahead >= |r.rows| {
        BlankAfterContent(lines, s.scrolled + j);
      }
    }
  }

  /**
   The session's top is not before that of a repaint of the frame, and its rows are those of the repaint
   from there on; from the same top the screens are equal.
  */
  ghost predicate Refines(session: Session, frame: Frame)
    requires frame.Valid()
  {
    var repaint := FullRender(frame.lines, true, frame.columns, frame.rows);
    var screen := Run(frame.reflowed, repaint.0);
    && session.tracker.viewportTop >= repaint.1.viewportTop
    && Ahead(session.screen, screen, session.tracker.viewportTop - repaint.1.viewportTop)
    && (session.tracker.viewportTop == repaint.1.viewportTop ==> session.screen.rows == screen.rows)
  }

  lemma StepRefinesRepaint(session: Session, frame: Frame)
    requires frame.Valid() && InStep(session) && session.tracker.lines == frame.lines && session.tracker.rows == frame.rows
    ensures Refines(session, frame)
  {
    InStepFits(session);
    RepaintShows(frame.reflowed, frame, true);
    SameWindows(session.screen, Run(frame.reflowed, FullRender(frame.lines, true, frame.columns, frame.rows).0), frame.lines);
  }

  /** After every frame of every session the updates refine a repaint of that frame. */
  lemma RefinesRepaint(frames: seq<Frame>)
    requires frames != []
    requires forall i :: 0 <= i < |frames| ==> frames[i].Valid() && frames[i].EndsInText()
    ensures Refines(DrawAll(START, frames), frames[|frames| - 1])
  {
    EverySessionInStep(frames);
    StepRefinesRepaint(DrawAll(START, frames), frames[|frames| - 1]);
  }

  /** Finishing leaves the cursor on a blank row below the last line, scrolling if there is none. */
  lemma FinishBelow(session: Session)
    requires InStep(session)
    ensures var t, s := session.tracker, Run(session.screen, FinishOps(session.tracker));
      && s.cursor == Min(|t.lines| - t.viewportTop, t.rows - 1)
      && s.scrolled + s.cursor == |t.lines|
      && s.rows[s.cursor] == []
      && Displays(s, t.lines)
      && !s.hidden && !s.held
  {
    var t := session.tracker;
    TextFits(session.screen, t, t.rows);
    FinishRun(session.screen, t);
    var there := Run(session.screen.(held := true), MoveRows(FinishMove(t)));
    MoveRun(session.screen.(held := true), FinishMove(t));
    NewLineStep(there, t.lines);
    BlankAfterContent(t.lines, |t.lines|);
  }

  function FinishMove(t: Tracker): int {
    (|t.lines| - 1 - t.viewportTop) - (t.cursorRow - t.viewportTop)
  }

  lemma FinishRun(s: Screen, t: Tracker)
    requires s.Valid() && t.lines != []
    ensures Run(s, FinishOps(t))
         == Apply(Run(s.(held := true), MoveRows(FinishMove(t))), NewLine).(hidden := false, held := false)
  {
    var ops, begun := MoveRows(FinishMove(t)), s.(held := true);
    RunAppend(s, [BeginSync] + (ops + [NewLine]), [ShowCursor, EndSync]);
    RunAppend(s, [BeginSync], ops + [NewLine]);
    RunOne(s, BeginSync);
    RunAppend(begun, ops, [NewLine]);
    RunOne(Run(begun, ops), NewLine);
    RunTwo(Apply(Run(begun, ops), NewLine), ShowCursor, EndSync);
  }

  // ---------- Frames that end in blank lines ----------

  /** Two rows showing `a` and `b`: drawing `c` and a blank line below them scrolls once, not twice. */
  lemma BlankEndingNotDrawn(s: Screen, a: Line, b: Line, c: Line)
    requires c != [] && Synchronized(s, Tracker([a, b], 1, 0, 80, 2), 2)
    ensures var r := Update(Tracker([a, b], 1, 0, 80, 2), [a, b, c, []], 80, 2);
      Synchronized(Run(s, r.0), r.1, 2) && r.1 == Tracker([a, b, c, []], 2, 1, 80, 2)
  {
    var prev, next := [a, b], [a, b, c, []];
    UpdateExact(s, Tracker(prev, 1, 0, 80, 2), next, 80, 2);
    FirstIs(next, prev, 4, 2);
    LastIs(next, prev, 4, 2);
  }

  lemma ShrinkOverruns(s: Screen, a: Line, b: Line, c: Line, x: Line)
    requires c != x && Synchronized(s, Tracker([a, b, c, []], 2, 1, 80, 2), 2)
    ensures var r := Update(Tracker([a, b, c, []], 2, 1, 80, 2), [a, b, x], 80, 2);
      !Synchronized(Run(s, r.0), r.1, 2)
  {
    var prev, next := [a, b, c, []], [a, b, x];
    UpdateExact(s, Tracker(prev, 2, 1, 80, 2), next, 80, 2);
    FirstIs(next, prev, 4, 2);
    LastIs(next, prev, 4, 2);
    assert SameLines(next, next, 0);
  }

  /**
   A frame may end in blank lines: on two rows the third of these frames erases a row that was never
   drawn, the terminal scrolls, and tracker and terminal part ways.
  */
  lemma BlankEndingsLoseTrack(a: Line, b: Line, c: Line, x: Line)
    requires c != [] && c != x
    ensures var first := Update(UNUSED, [a, b], 80, 2);
      var second := Update(first.1, [a, b, c, []], 80, 2);
      var third := Update(second.1, [a, b, x], 80, 2);
      var s := Run(Run(BlankScreen(2), first.0), second.0);
      Synchronized(s, second.1, 2) && !Synchronized(Run(s, third.0), third.1, 2)
  {
    FullRenderRun(BlankScreen(2), [a, b], false, 80, 2);
    var first := Update(UNUSED, [a, b], 80, 2);
    assert first.1 == Tracker([a, b], 1, 0, 80, 2);
    var s1 := Run(BlankScreen(2), first.0);
    BlankEndingNotDrawn(s1, a, b, c);
    ShrinkOverruns(Run(s1, Update(first.1, [a, b, c, []], 80, 2).0), a, b, c, x);
  }

  lemma {:induction false} FirstIs(next: seq<Line>, prev: seq<Line>, n: nat, k: nat)
    requires k < n && LineAt(next, k) != LineAt(prev, k)
    requires forall i :: 0 <= i < k ==> LineAt(next, i) == LineAt(prev, i)
    ensures FirstChanged(next, prev, n) == k
  {
  }

  lemma {:induction false} LastIs(next: seq<Line>, prev: seq<Line>, n: nat, k: nat)
    requires k < n && LineAt(next, k) != LineAt(prev, k)
    requires forall i :: k < i < n ==> LineAt(next, i) == LineAt(prev, i)
    ensures LastChanged(next, prev, n) == k
  {
  }
}
