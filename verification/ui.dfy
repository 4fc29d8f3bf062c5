/**
  The arithmetic of the display: the countdown shown while writing, where the
  cursor lands in the writing area and how far that area scrolls, and where
  the cursor sits in the custom-length prompt. Only the numbers are modelled;
  the widgets they feed are not.
 */
module Ui {
  import opened Chars
  import opened Persistence
  import opened AppLogic

  // ---------------------------------------------------------------------------
  // Countdown
  // ---------------------------------------------------------------------------

  /** Seconds left: the session length minus the elapsed seconds, saturating at zero. */
  function TimeLeft(app: App, now: nat): (left: nat)
    ensures left <= app.sessionDuration
    ensures left == 0 <==> Expired(app, now)
    ensures !Expired(app, now) ==> left + Elapsed(app, now) == app.sessionDuration
  {
    var elapsed := Elapsed(app, now);
    if app.sessionDuration >= elapsed then app.sessionDuration - elapsed else 0
  }

  datatype Countdown = Countdown(minutes: nat, seconds: nat)

  /** The `MM:SS` split of the seconds left. */
  function SplitMinutes(left: nat): (c: Countdown)
    ensures c.minutes * 60 + c.seconds == left
    ensures c.seconds < 60
  {
    Countdown(left / 60, left % 60)
  }

  /** The countdown reads zero exactly when the next tick ends the writing session. */
  lemma CountdownZeroIffTickEnds(app: App, fs: Store, clock: Clock)
    requires app.state.Freewrite?
    ensures TimeLeft(app, clock.now) == 0 <==> Update(app, fs, clock).app.state.SessionEnd?
    ensures SplitMinutes(TimeLeft(app, clock.now)) == Countdown(0, 0) <==> TimeLeft(app, clock.now) == 0
  {
  }

  // ---------------------------------------------------------------------------
  // Writing-area cursor
  // ---------------------------------------------------------------------------

  /** `cursor_x`, `cursor_y` and `total_virtual_lines` while the text is scanned. */
  datatype Cursor = Cursor(x: nat, y: nat, lines: nat)

  /** One iteration of the scan: a newline, or a character that reaches the
      width, moves to the start of the next row; any other character moves right. */
  function Advance(cur: Cursor, c: char, maxWidth: nat): (r: Cursor)
    ensures cur.y <= r.y <= cur.y + 1 && r.lines + cur.y == cur.lines + r.y
    ensures r.y == cur.y + 1 <==> r.x == 0
    ensures r.y == cur.y + 1 <==> c == '\n' || cur.x + 1 >= maxWidth
    ensures maxWidth > 0 ==> r.x < maxWidth
  {
    if c == '\n' then Cursor(0, cur.y + 1, cur.lines + 1)
    else if cur.x + 1 >= maxWidth then Cursor(0, cur.y + 1, cur.lines + 1)
    else Cursor(cur.x + 1, cur.y, cur.lines)
  }

  /** The scan of `t` from `cur`. */
  function ScanFrom(cur: Cursor, t: string, maxWidth: nat): (r: Cursor)
    ensures cur.y <= r.y <= cur.y + |t| && r.lines + cur.y == cur.lines + r.y
    ensures maxWidth > 0 && |t| > 0 ==> r.x < maxWidth
    decreases |t|
  {
    if |t| == 0 then cur else ScanFrom(Advance(cur, t[0], maxWidth), t[1..], maxWidth)
  }

  lemma {:induction false} ScanFromConcat(cur: Cursor, a: string, b: string, maxWidth: nat)
    ensures ScanFrom(cur, a + b, maxWidth) == ScanFrom(ScanFrom(cur, a, maxWidth), b, maxWidth)
    decreases |a|
  {
    if |a| > 0 {
      assert (a + b)[0] == a[0] && (a + b)[1..] == a[1..] + b;
      ScanFromConcat(Advance(cur, a[0], maxWidth), a[1..], b, maxWidth);
    } else {
      assert a + b == b;
    }
  }

  // Reference description of where the scan ends, line by line: a line of `n`
  // characters fills `n / w` whole rows of width `w` and leaves the cursor at
  // column `n % w`; a zero width makes every character fill a row of its own.

  function FullRows(n: nat, maxWidth: nat): nat {
    if maxWidth == 0 then n else n / maxWidth
  }

  function ColumnAfter(n: nat, maxWidth: nat): nat {
    if maxWidth == 0 then 0 else n % maxWidth
  }

  /** Number of characters before the first newline of `t`. */
  function LineLength(t: string): (n: nat)
    ensures n <= |t|
    ensures forall i :: 0 <= i < n ==> t[i] != '\n'
    ensures n == |t| || t[n] == '\n'
    decreases |t|
  {
    if |t| == 0 || t[0] == '\n' then 0 else 1 + LineLength(t[1..])
  }

  /** Row the cursor ends on: the rows each line fills, plus one per newline. */
  function Rows(t: string, maxWidth: nat): nat
    decreases |t|
  {
    var n := LineLength(t);
    if n == |t| then FullRows(n, maxWidth) else FullRows(n, maxWidth) + 1 + Rows(t[n + 1..], maxWidth)
  }

  /** Column the cursor ends on: what the last line leaves over. */
  function Column(t: string, maxWidth: nat): nat
    decreases |t|
  {
    var n := LineLength(t);
    if n == |t| then ColumnAfter(n, maxWidth) else Column(t[n + 1..], maxWidth)
  }

  lemma MulMono(w: nat, x: nat, y: nat)
    requires x <= y
    ensures w * x <= w * y
  {
  }

  lemma DivModUnique(a: nat, w: nat, q: nat, r: nat)
    requires w > 0 && a == w * q + r && r < w
    ensures a / w == q && a % w == r
  {
    var q', r' := a / w, a % w;
    if q' > q {
      MulMono(w, q + 1, q');
      assert false;
    } else if q' < q {
      MulMono(w, q' + 1, q);
      assert false;
    }
  }

  /** One more character on a line either moves the column on or completes a row. */
  lemma ColumnStep(k: nat, maxWidth: nat)
    ensures ColumnAfter(k, maxWidth) + 1 < maxWidth ==>
              ColumnAfter(k + 1, maxWidth) == ColumnAfter(k, maxWidth) + 1
              && FullRows(k + 1, maxWidth) == FullRows(k, maxWidth)
    ensures ColumnAfter(k, maxWidth) + 1 >= maxWidth ==>
              ColumnAfter(k + 1, maxWidth) == 0 && FullRows(k + 1, maxWidth) == FullRows(k, maxWidth) + 1
  {
    if maxWidth > 0 {
      var q, r := k / maxWidth, k % maxWidth;
      assert k == maxWidth * q + r;
      if r + 1 < maxWidth {
        DivModUnique(k + 1, maxWidth, q, r + 1);
      } else {
        DivModUnique(k + 1, maxWidth, q + 1, 0);
      }
    }
  }

  /** Scanning a run of `m` characters without a newline, begun `k` characters into its line. */
  lemma {:induction false} ScanWithinLine(k: nat, y: nat, lines: nat, t: string, maxWidth: nat)
    requires forall i :: 0 <= i < |t| ==> t[i] != '\n'
    ensures var r := ScanFrom(Cursor(ColumnAfter(k, maxWidth), y, lines), t, maxWidth);
            && r.x == ColumnAfter(k + |t|, maxWidth)
            && r.y + FullRows(k, maxWidth) == y + FullRows(k + |t|, maxWidth)
            && r.lines + FullRows(k, maxWidth) == lines + FullRows(k + |t|, maxWidth)
    decreases |t|
  {
    if |t| > 0 {
      ColumnStep(k, maxWidth);
      var next := Advance(Cursor(ColumnAfter(k, maxWidth), y, lines), t[0], maxWidth);
      var grew := FullRows(k + 1, maxWidth) - FullRows(k, maxWidth);
      assert next == Cursor(ColumnAfter(k + 1, maxWidth), y + grew, lines + grew);
      ScanWithinLine(k + 1, y + grew, lines + grew, t[1..], maxWidth);
    }
  }

  /** The scan ends where the line-by-line description says: on row `Rows` and
      column `Column`, having counted one virtual line per row it moved down. */
  lemma {:induction false} ScanMatchesLines(t: string, y: nat, lines: nat, maxWidth: nat)
    ensures ScanFrom(Cursor(0, y, lines), t, maxWidth)
              == Cursor(Column(t, maxWidth), y + Rows(t, maxWidth), lines + Rows(t, maxWidth))
    decreases |t|
  {
    var n := LineLength(t);
    ScanWithinLine(0, y, lines, t[..n], maxWidth);
    assert ColumnAfter(0, maxWidth) == 0 && FullRows(0, maxWidth) == 0;
    var afterLine := ScanFrom(Cursor(0, y, lines), t[..n], maxWidth);
    if n == |t| {
      assert t[..n] == t;
    } else {
      assert t == t[..n] + t[n..];
      ScanFromConcat(Cursor(0, y, lines), t[..n], t[n..], maxWidth);
      assert t[n..][0] == '\n' && t[n..][1..] == t[n + 1..];
      var next := Cursor(0, afterLine.y + 1, afterLine.lines + 1);
      assert ScanFrom(afterLine, t[n..], maxWidth) == ScanFrom(next, t[n + 1..], maxWidth);
      ScanMatchesLines(t[n + 1..], next.y, next.lines, maxWidth);
      assert Rows(t, maxWidth) == FullRows(n, maxWidth) + 1 + Rows(t[n + 1..], maxWidth);
      assert Column(t, maxWidth) == Column(t[n + 1..], maxWidth);
    }
  }

  /** `total_virtual_lines` after the adjustment that follows the scan. */
  function TotalVirtualLines(text: string, maxWidth: nat): (total: nat)
    ensures total >= 1
    ensures Rows(text, maxWidth) <= total <= Rows(text, maxWidth) + 1
  {
    if |text| == 0 then 1
    else if Column(text, maxWidth) > 0 then Rows(text, maxWidth) + 1
    else Rows(text, maxWidth)
  }

  /** `scroll_offset_y`: how many rows are scrolled off the top. */
  function ScrollOffset(totalLines: nat, height: nat): (offset: nat)
    ensures offset <= totalLines
    ensures totalLines - offset <= height
    ensures offset > 0 ==> totalLines - offset == height
  {
    if totalLines > height then totalLines - height else 0
  }

  /** `cursor_y.saturating_sub(scroll_offset_y)`. */
  function CursorRow(y: nat, offset: nat): (row: nat)
    ensures y >= offset ==> row + offset == y
    ensures y <= offset ==> row == 0
  {
    if y >= offset then y - offset else 0
  }

  /** The scan of the writing area: where the cursor goes and how far the area scrolls. */
  method WritingAreaCursor(text: string, maxWidth: nat, height: nat)
    returns (cursorX: nat, cursorRow: nat, scrollOffset: nat, totalLines: nat)
    ensures cursorX == Column(text, maxWidth)
    ensures maxWidth > 0 ==> cursorX < maxWidth
    ensures maxWidth == 0 ==> cursorX == 0
    ensures totalLines == TotalVirtualLines(text, maxWidth) && totalLines >= 1
    ensures scrollOffset == ScrollOffset(totalLines, height)
    ensures cursorRow == CursorRow(Rows(text, maxWidth), scrollOffset)
    ensures cursorRow <= height
  {
    var x, y, lines := 0, 0, 0;
    var i := 0;
    while i < |text|
      invariant 0 <= i <= |text|
      invariant Cursor(x, y, lines) == ScanFrom(Cursor(0, 0, 0), text[..i], maxWidth)
      invariant maxWidth > 0 ==> x < maxWidth
      invariant maxWidth == 0 ==> x == 0
    {
      assert text[..i + 1] == text[..i] + [text[i]];
      ScanFromConcat(Cursor(0, 0, 0), text[..i], [text[i]], maxWidth);
      if text[i] == '\n' {
        lines, y, x := lines + 1, y + 1, 0;
      } else {
        x := x + 1;
        if x >= maxWidth {
          lines, y, x := lines + 1, y + 1, 0;
        }
      }
      i := i + 1;
    }
    assert text[..i] == text;
    ScanMatchesLines(text, 0, 0, maxWidth);
    if |text| == 0 {
      lines := 1;
    } else if x > 0 {
      lines := lines + 1;
    }
    totalLines := lines;
    scrollOffset := if totalLines > height then totalLines - height else 0;
    cursorRow := if y >= scrollOffset then y - scrollOffset else 0;
    cursorX := x;
  }

  /** Text ending in a newline leaves the cursor at the start of a row the line
      count leaves out: with one visible row, `"\n"` puts the cursor on row 1,
      which is outside the writing area. */
  lemma CursorRowCanLeaveArea()
    ensures var total := TotalVirtualLines("\n", 10);
            CursorRow(Rows("\n", 10), ScrollOffset(total, 1)) == 1
  {
    assert LineLength("\n") == 0;
    assert "\n"[1..] == [];
    assert Rows("\n", 10) == 1 && Column("\n", 10) == 0;
  }

  /** The line count with the cursor's own row always included. */
  function CorrectedTotalVirtualLines(text: string, maxWidth: nat): (total: nat)
    ensures total == TotalVirtualLines(text, maxWidth) || Column(text, maxWidth) == 0
  {
    Rows(text, maxWidth) + 1
  }

  /** Counting the cursor's row keeps the cursor inside any area of at least one row,
      and changes nothing when the text does not end at the start of a row. */
  lemma CorrectedCursorRowIsVisible(text: string, maxWidth: nat, height: nat)
    requires height > 0
    ensures var offset := ScrollOffset(CorrectedTotalVirtualLines(text, maxWidth), height);
            CursorRow(Rows(text, maxWidth), offset) < height
    ensures |text| == 0 || Column(text, maxWidth) > 0 ==>
              CorrectedTotalVirtualLines(text, maxWidth) == TotalVirtualLines(text, maxWidth)
  {
    if |text| == 0 {
      assert LineLength(text) == 0;
    }
  }

  // ---------------------------------------------------------------------------
  // Custom-length prompt cursor
  // ---------------------------------------------------------------------------

  /** Number of bytes in the UTF-8 encoding of `s` (`String::len`). */
  function Utf8Length(s: string): (n: nat)
    ensures |s| <= n <= 4 * |s|
    ensures (forall i :: 0 <= i < |s| ==> s[i] < '\U{80}') ==> n == |s|
    decreases |s|
  {
    if |s| == 0 then 0
    else
      var c := s[|s| - 1];
      var width := if c < '\U{80}' then 1 else if c < '\U{800}' then 2 else if c < '\U{10000}' then 3 else 4;
      Utf8Length(s[..|s| - 1]) + width
  }

  /** `input_layout[1].x + 1 + custom_duration_input_text.len()`: the column just past the typed digits. */
  function PopupCursorColumn(fieldX: nat, buffer: string): (column: nat)
    ensures column >= fieldX + 1 + |buffer|
    ensures AllAsciiDigits(buffer) ==> column == fieldX + 1 + |buffer|
  {
    fieldX + 1 + Utf8Length(buffer)
  }
}
