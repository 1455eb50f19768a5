/**
 A terminal screen as the differential renderer sees it: visible rows, a cursor, and the number of
 rows that have scrolled off the top since the screen was last cleared.  The cursor may be hidden, and what is
 written may be held back until it is complete.
*/
module Terminal {

  type Line = seq<char>

  datatype Op =
    | BeginSync | EndSync | HideCursor | ShowCursor
    | ClearHome
    | CarriageReturn
    | NewLine  // carriage return and line feed
    | EraseLine
    | Text(line: Line)
    | MoveUp(rows: nat)
    | MoveDown(rows: nat)

  datatype Screen = Screen(rows: seq<Line>, cursor: nat, column: nat, scrolled: nat, hidden: bool, held: bool) {
    predicate Valid() {
      cursor < |rows|
    }

    /** Nothing has been written since the screen was cleared. */
    predicate IsBlank() {
      rows == BlankRows(|rows|) && cursor == 0 && column == 0 && scrolled == 0
    }
  }

  function Max(a: int, b: int): int {
    if a < b then b else a
  }

  function Min(a: int, b: int): int {
    if a < b then a else b
  }

  function BlankRows(n: nat): (r: seq<Line>)
    ensures |r| == n && forall i :: 0 <= i < n ==> r[i] == []
  {
    seq(n, _ => [])
  }

  function BlankScreen(n: nat): Screen {
    Screen(BlankRows(n), 0, 0, 0, false, false)
  }

  function Spaces(n: nat): (r: Line)
    ensures |r| == n
  {
    seq(n, _ => ' ')
  }

  /** Writing `text` at `column` covers what was there and keeps the rest of the row. */
  function Overlay(row: Line, column: nat, text: Line): Line {
    (if column <= |row| then row[..column] else row + Spaces(column - |row|))
    + text
    + (if column + |text| <= |row| then row[column + |text|..] else [])
  }

  function Apply(s: Screen, op: Op): (t: Screen)
    requires s.Valid()
    ensures t.Valid() && |t.rows| == |s.rows|
  {
    match op
    case BeginSync => s.(held := true)
    case EndSync => s.(held := false)
    case HideCursor => s.(hidden := true)
    case ShowCursor => s.(hidden := false)
    case ClearHome => s.(rows := BlankRows(|s.rows|), cursor := 0, column := 0, scrolled := 0)
    case CarriageReturn => s.(column := 0)
    case NewLine =>
      if s.cursor + 1 < |s.rows| then s.(cursor := s.cursor + 1, column := 0)
      else s.(rows := s.rows[1..] + [[]], column := 0, scrolled := s.scrolled + 1)
    case EraseLine => s.(rows := s.rows[s.cursor := []])
    case Text(line) =>
      s.(rows := s.rows[s.cursor := Overlay(s.rows[s.cursor], s.column, line)], column := s.column + |line|)
    case MoveUp(n) => s.(cursor := if n <= s.cursor then s.cursor - n else 0)
    case MoveDown(n) => s.(cursor := Min(s.cursor + n, |s.rows| - 1))
  }

  function Run(s: Screen, ops: seq<Op>): (t: Screen)
    requires s.Valid()
    ensures t.Valid() && |t.rows| == |s.rows|
    decreases |ops|
  {
    if ops == [] then s else Run(Apply(s, ops[0]), ops[1..])
  }

  lemma {:induction false} RunAppend(s: Screen, a: seq<Op>, b: seq<Op>)
    requires s.Valid()
    ensures Run(s, a + b) == Run(Run(s, a), b)
    decreases |a|
  {
    if a == [] {
      assert a + b == b;
    } else {
      assert (a + b)[1..] == a[1..] + b;
      RunAppend(Apply(s, a[0]), a[1..], b);
    }
  }

  lemma RunOne(s: Screen, op: Op)
    requires s.Valid()
    ensures Run(s, [op]) == Apply(s, op)
  {
    assert Run(Apply(s, op), []) == Apply(s, op);
  }
}
