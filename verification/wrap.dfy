/** Input-box geometry: four loops over the same text that have to agree about visual rows. Positions count
    characters; widths are a function of the character. */
module Wrap {

  const NEWLINE: char := '\n'
  const U16: nat := 0x1_0000

  // ---------- one scan ----------

  /** After some characters: the visual row, where it starts, and the columns used on it. */
  datatype Place = Place(row: nat, start: nat, col: nat)

  function Advance(p: Place, c: char, i: nat, w: char -> nat, width: nat): Place {
    if c == NEWLINE then Place(p.row + 1, i + 1, 0)
    else if p.col + w(c) > width then Place(p.row + 1, i, w(c))
    else p.(col := p.col + w(c))
  }

  /** Where the first `n` characters of the text leave the cursor. */
  function Scan(text: string, n: nat, w: char -> nat, width: nat): (p: Place)
    requires n <= |text|
    ensures p.start <= n
  {
    if n == 0 then Place(0, 0, 0) else Advance(Scan(text, n - 1, w, width), text[n - 1], n - 1, w, width)
  }

  function WidthOf(s: string, w: char -> nat): nat {
    if s == [] then 0 else WidthOf(s[..|s| - 1], w) + w(s[|s| - 1])
  }

  /** The scan at the cursor, which may stand behind the text. */
  function At(text: string, cursor: nat, w: char -> nat, width: nat): Place {
    Scan(text, if cursor < |text| then cursor else |text|, w, width)
  }

  function CursorRow(text: string, cursor: nat, w: char -> nat, width: nat): nat {
    if width == 0 then 0 else At(text, cursor, w, width).row % U16
  }

  function CursorCol(text: string, cursor: nat, w: char -> nat, width: nat): nat {
    if width == 0 then 0 else At(text, cursor, w, width).col % U16
  }

  function Home(text: string, cursor: nat, w: char -> nat, width: nat): nat {
    if width == 0 then 0 else At(text, cursor, w, width).start
  }

  function End(text: string, cursor: nat, w: char -> nat, width: nat): nat {
    if width == 0 then |text| else RowEnd(text, At(text, cursor, w, width).start, 0, w, width)
  }

  function BoxRows(text: string, w: char -> nat, width: nat): seq<string> {
    if width == 0 then [text] else Rows(text, w, width)
  }

  /** Row and column of the cursor; both counters are 16 bits wide. */
  method CursorVisualPos(text: string, cursor: nat, w: char -> nat, width: nat) returns (row: nat, col: nat)
    ensures row == CursorRow(text, cursor, w, width) && col == CursorCol(text, cursor, w, width)
  {
    row, col := 0, 0;
    if width == 0 {
      return;
    }
    var i := 0;
    while i < |text| && i < cursor
      invariant i <= |text| && (cursor < |text| ==> i <= cursor)
      invariant row == Scan(text, i, w, width).row % U16 && col == Scan(text, i, w, width).col
    {
      var c := text[i];
      if c == NEWLINE {
        row, col := (row + 1) % U16, 0;
      } else {
        if col + w(c) > width {
          row, col := (row + 1) % U16, 0;
        }
        col := col + w(c);
      }
      i := i + 1;
    }
    col := col % U16;
  }

  /** Start of the visual row the cursor is on. */
  method VisualRowStart(text: string, cursor: nat, w: char -> nat, width: nat) returns (start: nat)
    ensures start == Home(text, cursor, w, width)
  {
    start := 0;
    if width == 0 {
      return;
    }
    var i, col := 0, 0;
    while i < |text| && i < cursor
      invariant i <= |text| && (cursor < |text| ==> i <= cursor)
      invariant start == Scan(text, i, w, width).start && col == Scan(text, i, w, width).col
    {
      var c := text[i];
      if c == NEWLINE {
        start, col := i + 1, 0;
      } else {
        if col + w(c) > width {
          start, col := i, 0;
        }
        col := col + w(c);
      }
      i := i + 1;
    }
  }

  /** First position at or behind `i`, with `col` columns used, where the row has to end. */
  function RowEnd(text: string, i: nat, col: nat, w: char -> nat, width: nat): (e: nat)
    requires i <= |text|
    ensures i <= e <= |text|
    decreases |text| - i
  {
    if i == |text| || text[i] == NEWLINE || col + w(text[i]) > width then i
    else RowEnd(text, i + 1, col + w(text[i]), w, width)
  }

  /** End of the visual row the cursor is on. */
  method VisualRowEnd(text: string, cursor: nat, w: char -> nat, width: nat) returns (end: nat)
    ensures end == End(text, cursor, w, width)
  {
    if width == 0 {
      return |text|;
    }
    var start := VisualRowStart(text, cursor, w, width);
    var i: nat, col: nat := start, 0;
    while i < |text|
      invariant start <= i <= |text|
      invariant RowEnd(text, start, 0, w, width) == RowEnd(text, i, col, w, width)
    {
      var c := text[i];
      if c == NEWLINE {
        return i;
      }
      if col + w(c) > width {
        return i;
      }
      i, col := i + 1, col + w(c);
    }
    return |text|;
  }

  // ---------- the rows ----------

  /** The rows finished by the first `n` characters. */
  function DoneRows(text: string, n: nat, w: char -> nat, width: nat): (rows: seq<string>)
    requires n <= |text|
    ensures |rows| == Scan(text, n, w, width).row
  {
    if n == 0 then []
    else
      var before, p := DoneRows(text, n - 1, w, width), Scan(text, n - 1, w, width);
      if text[n - 1] == NEWLINE || p.col + w(text[n - 1]) > width then before + [text[p.start..n - 1]] else before
  }

  /** All rows of the box: the finished ones and the one in progress. */
  function Rows(text: string, w: char -> nat, width: nat): (rows: seq<string>)
  {
    DoneRows(text, |text|, w, width) + [text[Scan(text, |text|, w, width).start..]]
  }

  /** The row in progress after `n` characters. */
  function Current(text: string, n: nat, w: char -> nat, width: nat): string
    requires n <= |text|
  {
    text[Scan(text, n, w, width).start..n]
  }

  /** One character more: a newline or a full row finishes the row in progress. */
  lemma OneMore(text: string, n: nat, w: char -> nat, width: nat)
    requires n < |text|
    ensures var p, q, c := Scan(text, n, w, width), Scan(text, n + 1, w, width), text[n];
      var cur := Current(text, n, w, width);
      if c == NEWLINE then
        && DoneRows(text, n + 1, w, width) == DoneRows(text, n, w, width) + [cur]
        && Current(text, n + 1, w, width) == "" && q.col == 0
      else if p.col + w(c) > width then
        && DoneRows(text, n + 1, w, width) == DoneRows(text, n, w, width) + [cur]
        && Current(text, n + 1, w, width) == [c] && q.col == w(c)
      else
        && DoneRows(text, n + 1, w, width) == DoneRows(text, n, w, width)
        && Current(text, n + 1, w, width) == cur + [c] && q.col == p.col + w(c)
  {
  }

  /** Wrap the text paragraph by paragraph. */
  method InputVisualRows(text: string, w: char -> nat, width: nat) returns (rows: seq<string>)
    ensures rows == BoxRows(text, w, width)
  {
    hide Scan, DoneRows, Current;
    if width == 0 {
      return [text];
    }
    rows := [];
    var from := 0;
    NothingYet(text, w, width);
    while true
      invariant from <= |text| && rows == DoneRows(text, from, w, width)
      invariant Current(text, from, w, width) == "" && Scan(text, from, w, width).col == 0
      decreases |text| - from
    {
      // One paragraph: up to the next newline or the end.
      var cur, col: nat, i := "", 0, from;
      while i < |text| && text[i] != NEWLINE
        invariant from <= i <= |text| && rows == DoneRows(text, i, w, width)
        invariant cur == Current(text, i, w, width) && col == Scan(text, i, w, width).col
      {
        OneMore(text, i, w, width);
        var c := text[i];
        if col + w(c) > width {
          rows, cur, col := rows + [cur], "", 0;
        }
        cur, col := cur + [c], col + w(c);
        i := i + 1;
      }
      rows := rows + [cur];
      if i == |text| {
        LastCurrent(text, w, width);
        return;
      }
      OneMore(text, i, w, width);
      from := i + 1;
    }
  }

  lemma NothingYet(text: string, w: char -> nat, width: nat)
    ensures DoneRows(text, 0, w, width) == [] && Current(text, 0, w, width) == "" && Scan(text, 0, w, width).col == 0
  {
  }

  lemma LastCurrent(text: string, w: char -> nat, width: nat)
    ensures Rows(text, w, width) == DoneRows(text, |text|, w, width) + [Current(text, |text|, w, width)]
  {
    var start := Scan(text, |text|, w, width).start;
    assert text[start..] == text[start..|text|];
  }

  // ---------- they agree ----------

  /** No character is wider than the box. */
  predicate NarrowText(text: string, w: char -> nat, width: nat) {
    forall i | 0 <= i < |text| && text[i] != NEWLINE :: w(text[i]) <= width
  }

  predicate OneLine(s: string) {
    forall i | 0 <= i < |s| :: s[i] != NEWLINE
  }

  lemma GrowRow(s: string, c: char, w: char -> nat)
    ensures WidthOf(s + [c], w) == WidthOf(s, w) + w(c) && WidthOf("", w) == 0 && WidthOf([c], w) == w(c)
  {
    assert (s + [c])[..|s|] == s;
    assert [c][..0] == [];
    assert WidthOf([c], w) == WidthOf([], w) + w(c);
  }

  /** The row in progress fits, holds no newline, and its columns are its width. */
  lemma {:induction false} RowSoFar(text: string, n: nat, w: char -> nat, width: nat)
    requires n <= |text| && NarrowText(text, w, width)
    ensures var p, cur := Scan(text, n, w, width), Current(text, n, w, width);
            p.col == WidthOf(cur, w) && p.col <= width && OneLine(cur)
  {
    hide Scan, Current, WidthOf;
    if n == 0 {
      NothingYet(text, w, width);
      GrowRow("", ' ', w);
    } else {
      RowSoFar(text, n - 1, w, width);
      OneMore(text, n - 1, w, width);
      GrowRow(Current(text, n - 1, w, width), text[n - 1], w);
    }
  }

  /** A row that starts at `start` and is not the last: it ends at a newline, which is skipped, or before a
      character that does not fit behind it. It holds more columns than the box only as a single character. */
  predicate RowBreaks(text: string, row: string, start: nat, next: nat, w: char -> nat, width: nat) {
    var e := start + |row|;
    && e < |text| && row == text[start..e] && OneLine(row) && (WidthOf(row, w) <= width || |row| == 1)
    && if text[e] == NEWLINE then next == e + 1 else next == e && WidthOf(row, w) + w(text[e]) > width
  }

  ghost predicate AllBreak(text: string, rows: seq<string>, starts: seq<nat>, w: char -> nat, width: nat)
    requires |starts| > |rows|
  {
    forall r | 0 <= r < |rows| :: RowBreaks(text, rows[r], starts[r], starts[r + 1], w, width)
  }

  lemma OneMoreBreak(text: string, rows: seq<string>, starts: seq<nat>, row: string, next: nat, w: char -> nat, width: nat)
    requires |starts| == |rows| + 1 && AllBreak(text, rows, starts, w, width)
    requires RowBreaks(text, row, starts[|rows|], next, w, width)
    ensures AllBreak(text, rows + [row], starts + [next], w, width)
  {
    hide RowBreaks;
  }

  /** The row in progress after `n` characters, which starts at `start` and takes `col` columns. */
  ghost predicate Progress(text: string, cur: string, start: nat, col: nat, n: nat, w: char -> nat, width: nat) {
    && start + |cur| == n <= |text| && cur == text[start..n]
    && col == WidthOf(cur, w) && OneLine(cur) && (WidthOf(cur, w) <= width || |cur| == 1)
  }

  lemma BreaksHere(text: string, cur: string, start: nat, col: nat, n: nat, w: char -> nat, width: nat)
    requires n < |text| && Progress(text, cur, start, col, n, w, width)
    ensures text[n] == NEWLINE ==> RowBreaks(text, cur, start, n + 1, w, width)
    ensures text[n] != NEWLINE && col + w(text[n]) > width ==> RowBreaks(text, cur, start, n, w, width)
  {
    hide WidthOf;
  }

  lemma Progresses(text: string, cur: string, start: nat, col: nat, n: nat, w: char -> nat, width: nat)
    requires n < |text| && Progress(text, cur, start, col, n, w, width)
    ensures text[n] == NEWLINE ==> Progress(text, "", n + 1, 0, n + 1, w, width)
    ensures text[n] != NEWLINE && col + w(text[n]) > width ==>
      Progress(text, [text[n]], n, w(text[n]), n + 1, w, width)
    ensures text[n] != NEWLINE && col + w(text[n]) <= width ==>
      Progress(text, cur + [text[n]], start, col + w(text[n]), n + 1, w, width)
  {
    hide WidthOf;
    GrowRow(cur, text[n], w);
  }

  /** The finished rows and the one in progress, from the first character on. */
  lemma {:induction false} DoneBreaks(text: string, n: nat, w: char -> nat, width: nat) returns (starts: seq<nat>)
    requires n <= |text|
    ensures |starts| == |DoneRows(text, n, w, width)| + 1 && starts[0] == 0
    ensures AllBreak(text, DoneRows(text, n, w, width), starts, w, width)
    ensures var p := Scan(text, n, w, width);
            && p.start == starts[|starts| - 1]
            && Progress(text, Current(text, n, w, width), p.start, p.col, n, w, width)
  {
    hide WidthOf, DoneRows, Current, AllBreak, RowBreaks, Progress, OneLine;
    if n == 0 {
      StartsBroken(text, w, width);
      return [0];
    }
    starts := DoneBreaks(text, n - 1, w, width);
    var rows, p, cur, c := DoneRows(text, n - 1, w, width), Scan(text, n - 1, w, width), Current(text, n - 1, w, width), text[n - 1];
    OneMore(text, n - 1, w, width);
    BreaksHere(text, cur, p.start, p.col, n - 1, w, width);
    Progresses(text, cur, p.start, p.col, n - 1, w, width);
    if c == NEWLINE {
      OneMoreBreak(text, rows, starts, cur, n, w, width);
      starts := starts + [n];
    } else if p.col + w(c) > width {
      OneMoreBreak(text, rows, starts, cur, n - 1, w, width);
      starts := starts + [n - 1];
    }
  }

  lemma StartsBroken(text: string, w: char -> nat, width: nat)
    ensures DoneRows(text, 0, w, width) == [] && AllBreak(text, [], [0], w, width)
    ensures Scan(text, 0, w, width).start == 0
    ensures Progress(text, Current(text, 0, w, width), 0, Scan(text, 0, w, width).col, 0, w, width)
  {
    NothingYet(text, w, width);
    GrowRow("", ' ', w);
  }

  /** The rows of the box, one by one: each starts where the one before it broke, and the last goes to the end of
      the text. */
  lemma BoxRowsAre(text: string, w: char -> nat, width: nat) returns (starts: seq<nat>)
    requires width > 0
    ensures var rows := BoxRows(text, w, width);
            var last := |rows| - 1;
            && |starts| == |rows| > 0 && starts[0] == 0 && AllBreak(text, rows[..last], starts, w, width)
            && starts[last] <= |text| && rows[last] == text[starts[last]..]
            && OneLine(rows[last]) && (WidthOf(rows[last], w) <= width || |rows[last]| == 1)
  {
    hide WidthOf, DoneRows, Current;
    starts := DoneBreaks(text, |text|, w, width);
    LastCurrent(text, w, width);
    var done := DoneRows(text, |text|, w, width);
    assert BoxRows(text, w, width)[..|done|] == done;
  }

  lemma EndStep(text: string, n: nat, col: nat, w: char -> nat, width: nat)
    requires n <= |text|
    ensures RowEnd(text, n, col, w, width) ==
            if n == |text| || text[n] == NEWLINE || col + w(text[n]) > width then n
            else RowEnd(text, n + 1, col + w(text[n]), w, width)
  {
  }

  lemma ScanStep(text: string, n: nat, w: char -> nat, width: nat)
    requires 0 < n <= |text|
    ensures Scan(text, n, w, width) == Advance(Scan(text, n - 1, w, width), text[n - 1], n - 1, w, width)
  {
  }

  /** Scanning from a row's start runs through every position on it. */
  lemma {:induction false} EndBehind(text: string, n: nat, w: char -> nat, width: nat)
    requires n <= |text| && NarrowText(text, w, width)
    ensures var p := Scan(text, n, w, width);
      RowEnd(text, p.start, 0, w, width) == RowEnd(text, n, p.col, w, width)
  {
    hide RowEnd;
    if n > 0 {
      EndBehind(text, n - 1, w, width);
      ScanStep(text, n, w, width);
      EndStep(text, n - 1, Scan(text, n - 1, w, width).col, w, width);
      EndStep(text, n - 1, 0, w, width);
    }
  }

  /** The row list has this row where the cursor is. */
  lemma {:induction false} RowAt(text: string, n: nat, m: nat, w: char -> nat, width: nat)
    requires n <= m <= |text| && NarrowText(text, w, width)
    ensures var p, q := Scan(text, n, w, width), Scan(text, m, w, width);
      && p.row <= q.row
      && (p.row == q.row ==> p.start == q.start && RowEnd(text, n, p.col, w, width) == RowEnd(text, m, q.col, w, width))
      && (p.row < q.row ==> DoneRows(text, m, w, width)[p.row] == text[p.start..RowEnd(text, n, p.col, w, width)])
    decreases m
  {
    hide RowEnd, Scan;
    if n < m {
      RowAt(text, n, m - 1, w, width);
      ScanStep(text, m, w, width);
      EndStep(text, m - 1, Scan(text, m - 1, w, width).col, w, width);
    }
  }

  /** Where row `r` of a row list starts in the text: a row is followed by a newline, which is skipped, or goes
      on in the next row. */
  function StartIn(rows: seq<string>, text: string, r: nat): nat
    requires r <= |rows|
  {
    if r == 0 then 0
    else
      var e := StartIn(rows, text, r - 1) + |rows[r - 1]|;
      if e < |text| && text[e] == NEWLINE then e + 1 else e
  }

  /** The four loops agree about one cursor position: the row that the cursor is said to be on is the one that
      starts at Home and ends at End, the cursor is on it, and its column is the width of what is before it. */
  ghost predicate Agree(text: string, cursor: nat, w: char -> nat, width: nat)
    requires cursor <= |text|
  {
    var row, col := CursorRow(text, cursor, w, width), CursorCol(text, cursor, w, width);
    var start, end, rows := Home(text, cursor, w, width), End(text, cursor, w, width), BoxRows(text, w, width);
    && start <= cursor <= end <= |text|
    && row < |rows| && StartIn(rows, text, row) == start && rows[row] == text[start..end]
    && col == WidthOf(text[start..cursor], w) <= width
  }

  /** The scan reaches a row where the row list has it start. */
  lemma {:induction false} ScanStarts(text: string, n: nat, w: char -> nat, width: nat)
    requires n <= |text| && NarrowText(text, w, width)
    ensures var p := Scan(text, n, w, width);
      p.row < |Rows(text, w, width)| && StartIn(Rows(text, w, width), text, p.row) == p.start
  {
    hide Scan, DoneRows, RowEnd, NarrowText;
    RowOfScan(text, n, w, width);
    if n == 0 {
      NothingYet(text, w, width);
      ScanNothing(text, w, width);
    } else {
      ScanStarts(text, n - 1, w, width);
      ScanStep(text, n, w, width);
      RowOfScan(text, n - 1, w, width);
      EndStep(text, n - 1, Scan(text, n - 1, w, width).col, w, width);
    }
  }

  lemma ScanNothing(text: string, w: char -> nat, width: nat)
    ensures Scan(text, 0, w, width) == Place(0, 0, 0)
  {
  }

  /** The row list holds the scan's row, from its start to its end. */
  lemma RowOfScan(text: string, n: nat, w: char -> nat, width: nat)
    requires n <= |text| && NarrowText(text, w, width)
    ensures var p, rows := Scan(text, n, w, width), Rows(text, w, width);
      && p.start <= n <= RowEnd(text, n, p.col, w, width)
      && p.row < |rows| && rows[p.row] == text[p.start..RowEnd(text, n, p.col, w, width)]
  {
    var p, last := Scan(text, n, w, width), Scan(text, |text|, w, width);
    RowAt(text, n, |text|, w, width);
    if p.row == last.row {
      assert RowEnd(text, |text|, last.col, w, width) == |text|;
    }
  }

  /** No counter of the cursor loop wraps. */
  ghost predicate NoWrap(text: string, w: char -> nat, width: nat) {
    && Scan(text, |text|, w, width).row < U16
    && forall n | 0 <= n <= |text| :: Scan(text, n, w, width).col < U16
  }

  lemma NarrowAgrees(text: string, cursor: nat, w: char -> nat, width: nat)
    requires width > 0 && cursor <= |text| && NarrowText(text, w, width) && NoWrap(text, w, width)
    ensures Agree(text, cursor, w, width)
  {
    hide Scan, RowEnd, StartIn, Rows, DoneRows;
    RowSoFar(text, cursor, w, width);
    EndBehind(text, cursor, w, width);
    RowOfScan(text, cursor, w, width);
    ScanStarts(text, cursor, w, width);
    RowAt(text, cursor, |text|, w, width);
  }

  /** A character wider than the box leaves the cursor behind it past the end of its own row. */
  lemma WideDisagrees(text: string, i: nat, w: char -> nat, width: nat)
    requires width > 0 && i < |text| && text[i] != NEWLINE && w(text[i]) > width
    ensures !Agree(text, i + 1, w, width)
  {
    hide Rows, StartIn, DoneRows;
    assert Scan(text, i + 1, w, width).start == i;
  }

  /** A column that does not fit its counter is shown wrong. */
  lemma FarDisagrees(text: string, n: nat, w: char -> nat, width: nat)
    requires width > 0 && n <= |text| && NarrowText(text, w, width) && Scan(text, n, w, width).col >= U16
    ensures !Agree(text, n, w, width)
  {
    hide Rows, StartIn, DoneRows, Scan, RowEnd;
    RowSoFar(text, n, w, width);
  }

  /** Rows behind one that is not empty, or that a newline follows, start further on. */
  lemma RowsApart(text: string, n: nat, m: nat, w: char -> nat, width: nat)
    requires n <= m <= |text| && NarrowText(text, w, width)
    ensures var p, q := Scan(text, n, w, width), Scan(text, m, w, width);
            p.row <= q.row && (p.row < q.row ==> p.start < q.start)
    decreases m
  {
    hide Scan;
    if n < m {
      RowsApart(text, n, m - 1, w, width);
      ScanStep(text, m, w, width);
      RowSoFar(text, m - 1, w, width);
      StartBound(text, m - 1, w, width);
    }
  }

  /** A row in progress that has used columns has characters. */
  lemma StartBound(text: string, n: nat, w: char -> nat, width: nat)
    requires n <= |text| && NarrowText(text, w, width)
    ensures var p := Scan(text, n, w, width); p.start <= n && (p.col > 0 ==> p.start < n)
  {
    hide Scan;
    RowSoFar(text, n, w, width);
    if Scan(text, n, w, width).start == n {
      assert Current(text, n, w, width) == "";
    }
  }

  /** The position at which the scan enters row `r`. */
  lemma {:induction false} Enters(text: string, m: nat, r: nat, w: char -> nat, width: nat) returns (n: nat)
    requires m <= |text| && r <= Scan(text, m, w, width).row
    ensures n <= m && Scan(text, n, w, width).row == r
  {
    if Scan(text, m, w, width).row == r {
      n := m;
    } else {
      ScanStep(text, m, w, width);
      n := Enters(text, m - 1, r, w, width);
    }
  }

  /** A row that does not fit its counter is shown as an earlier one. */
  lemma DeepDisagrees(text: string, w: char -> nat, width: nat)
    requires width > 0 && NarrowText(text, w, width) && Scan(text, |text|, w, width).row >= U16
    ensures !Agree(text, |text|, w, width)
  {
    hide Scan, Rows, StartIn, DoneRows, RowEnd;
    var last := Scan(text, |text|, w, width);
    var n := Enters(text, |text|, last.row % U16, w, width);
    ScanStarts(text, n, w, width);
    RowsApart(text, n, |text|, w, width);
  }

  /** No character has any width. */
  predicate Flat(text: string, w: char -> nat) {
    forall i | 0 <= i < |text| :: w(text[i]) == 0
  }

  lemma {:induction false} FlatWidth(s: string, w: char -> nat)
    ensures WidthOf(s, w) == 0 <==> Flat(s, w)
  {
    if s != [] {
      FlatWidth(s[..|s| - 1], w);
    }
  }

  /** In a box without columns everything is one row, and the column is right only where nothing has width. */
  lemma NoBoxAgrees(text: string, w: char -> nat)
    ensures (forall cursor | 0 <= cursor <= |text| :: Agree(text, cursor, w, 0)) <==> Flat(text, w)
  {
    hide WidthOf, Rows, Scan, RowEnd;
    assert text[0..|text|] == text;
    FlatWidth(text, w);
    if Flat(text, w) {
      forall cursor | 0 <= cursor <= |text|
        ensures Agree(text, cursor, w, 0)
      {
        FlatWidth(text[0..cursor], w);
      }
    } else {
      assert !Agree(text, |text|, w, 0);
    }
  }

  /** Row, column, row list, Home and End agree at every cursor position exactly when no character is wider
      than the box, there are fewer than 65536 wraps and newlines and no column reaches 65536; in a box of no
      columns exactly when nothing has any width. */
  lemma AgreeIff(text: string, w: char -> nat, width: nat)
    ensures (forall cursor | 0 <= cursor <= |text| :: Agree(text, cursor, w, width))
            <==> if width == 0 then Flat(text, w) else NarrowText(text, w, width) && NoWrap(text, w, width)
  {
    hide Agree, Flat, Scan;
    if width == 0 {
      NoBoxAgrees(text, w);
    } else if !NarrowText(text, w, width) {
      var i :| 0 <= i < |text| && text[i] != NEWLINE && w(text[i]) > width;
      WideDisagrees(text, i, w, width);
    } else if NoWrap(text, w, width) {
      forall cursor | 0 <= cursor <= |text|
        ensures Agree(text, cursor, w, width)
      {
        NarrowAgrees(text, cursor, w, width);
      }
    } else if Scan(text, |text|, w, width).row >= U16 {
      DeepDisagrees(text, w, width);
    } else {
      var n :| 0 <= n <= |text| && Scan(text, n, w, width).col >= U16;
      FarDisagrees(text, n, w, width);
    }
  }

  /** A letter and `n` newlines. */
  function Lines(n: nat): (s: string)
    ensures |s| == n + 1
  {
    if n == 0 then "a" else Lines(n - 1) + [NEWLINE]
  }

  lemma {:induction false} ScanPrefix(text: string, more: string, n: nat, w: char -> nat, width: nat)
    requires n <= |text|
    ensures Scan(text + more, n, w, width) == Scan(text, n, w, width)
  {
    if n > 0 {
      ScanPrefix(text, more, n - 1, w, width);
    }
  }

  lemma LinesAre(n: nat, w: char -> nat, width: nat)
    requires n > 0
    ensures Lines(n) == Lines(n - 1) + [NEWLINE]
    ensures NarrowText(Lines(n - 1), w, width) ==> NarrowText(Lines(n), w, width)
  {
  }

  lemma OneLetter(w: char -> nat, width: nat)
    requires w('a') <= width
    ensures NarrowText(Lines(0), w, width) && Scan(Lines(0), 1, w, width) == Place(0, 0, w('a'))
  {
    ScanStep("a", 1, w, width);
    assert Scan("a", 0, w, width) == Place(0, 0, 0);
  }

  lemma {:induction false} ScanLines(n: nat, w: char -> nat, width: nat)
    requires w('a') <= width
    ensures NarrowText(Lines(n), w, width)
    ensures Scan(Lines(n), n + 1, w, width) == Place(n, if n == 0 then 0 else n + 1, if n == 0 then w('a') else 0)
  {
    hide Scan, Lines, NarrowText;
    if n == 0 {
      OneLetter(w, width);
    } else {
      ScanLines(n - 1, w, width);
      LinesAre(n, w, width);
      ScanPrefix(Lines(n - 1), [NEWLINE], n, w, width);
      ScanStep(Lines(n), n + 1, w, width);
    }
  }

  /** A letter and 65536 newlines: at the end of the text the cursor is shown on the first row, which is not
      where Home and End are. */
  lemma ManyLinesDisagree(w: char -> nat)
    requires w('a') == 1
    ensures var text := Lines(U16);
      && CursorRow(text, |text|, w, 80) == 0 && Home(text, |text|, w, 80) == U16 + 1
      && NarrowText(text, w, 80) && !Agree(text, |text|, w, 80)
  {
    hide Scan, Agree, NarrowText, Lines;
    ScanLines(U16, w, 80);
    DeepDisagrees(Lines(U16), w, 80);
  }
}
