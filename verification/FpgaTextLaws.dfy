/** What text mode's operations do to the picture, cell by cell, one after another. */
module TextLaws {
  import opened Words
  import opened Grids
  import opened FpgaText

  const SPACE := Cell(0x20, false)

  /** One cell is changed, and no other. */
  ghost predicate OnlyCell(t: Text, u: Text, row: nat, col: nat, cell: Cell)
    requires ValidText(t) && ValidText(u)
  {
    forall r, c :: 0 <= r < ROWS && 0 <= c < COLS ==> u.cells[r][c] == if r == row && c == col then cell else t.cells[r][c]
  }

  /** A character shows at a cell of the grid, and the other cells are as they were; none does past the end of a row. */
  ghost predicate Lands(t: Text, u: Text, row: nat, col: nat, code: byte, reverse: bool)
    requires ValidText(t) && ValidText(u)
  {
    if col < COLS then OnlyCell(t, u, row, col, Cell(code, reverse)) else u.cells == t.cells
  }

  /** What does not change as characters are put. */
  predicate SamePlan(t: Text, u: Text) {
    u.top == t.top && u.bottom == t.bottom && u.offset == t.offset && u.cursor == t.cursor && u.used == t.used
  }

  ghost function At(t: Text, a: byte, b: byte): (u: Text)
    requires ValidText(t)
    ensures ValidText(u)
  {
    Op(t, GOTO, a, b)
  }

  ghost function Then(t: Text, code: byte): (u: Text)
    requires ValidText(t)
    ensures ValidText(u)
  {
    Op(t, PUT, code, 0)
  }

  predicate Shows(code: byte) {
    code >= 0x20
  }

  // ---- Where characters land ----

  /** GOTO a, b and a character: it shows at row a, or the last, and column b; nowhere past the last column. */
  lemma GotoThenPut(t: Text, a: byte, b: byte, code: byte)
    requires ValidText(t) && Shows(code)
    ensures var u := Then(At(t, a, b), code);
      Lands(t, u, Min(a, ROWS - 1), b, code, t.reverse) && SamePlan(t, u) && u.reverse == t.reverse
  {
  }

  /** The next character shows in the next column, or the next row's first; after the last cell, nowhere. */
  lemma PutGoesOn(t: Text, a: byte, b: byte, code: byte, next: byte)
    requires ValidText(t) && Shows(code) && Shows(next) && b < COLS
    ensures var row, u := Min(a, ROWS - 1), Then(At(t, a, b), code);
      var v := Then(u, next);
      if b + 1 < COLS then Lands(u, v, row, b + 1, next, t.reverse)
      else if row + 1 < ROWS then Lands(u, v, row + 1, 0, next, t.reverse)
      else v.cells == u.cells
  {
  }

  /** BS goes a column back, LF to the next row's first column, CR to this row's. */
  lemma ControlsThenPut(t: Text, a: byte, b: byte, code: byte)
    requires ValidText(t) && Shows(code)
    ensures var row := Min(a, ROWS - 1);
      && Lands(t, Then(Then(At(t, a, b), 0x08), code), row, Max(0, Min(b, COLS) - 1), code, t.reverse)
      && Lands(t, Then(Then(At(t, a, b), 0x0A), code), Min(row + 1, ROWS - 1), 0, code, t.reverse)
      && Lands(t, Then(Then(At(t, a, b), 0x0D), code), row, 0, code, t.reverse)
  {
  }

  /** No other control code does anything. */
  lemma OtherControls(t: Text, code: byte)
    requires ValidText(t) && !Shows(code) && code != 0x08 && code != 0x0A && code != 0x0D
    ensures Then(t, code) == t
  {
  }

  /** VIDEO says whether the characters put after it are reversed. */
  lemma VideoThenPut(t: Text, v: byte, a: byte, b: byte, code: byte)
    requires ValidText(t) && Shows(code)
    ensures var u := Then(At(Op(t, VIDEO, v, v), a, b), code);
      Lands(t, u, Min(a, ROWS - 1), b, code, v != 0) && SamePlan(t, u)
  {
  }

  // ---- Blanks ----

  /** CLEAR blanks every cell, and the next character shows at the top left. */
  lemma ClearThenPut(t: Text, code: byte)
    requires ValidText(t) && Shows(code)
    ensures var u := Op(t, CLEAR, 0, 0);
      && (forall r, c :: 0 <= r < ROWS && 0 <= c < COLS ==> u.cells[r][c] == SPACE)
      && Lands(u, Then(u, code), 0, 0, code, t.reverse) && SamePlan(t, u)
  {
  }

  /** TEXT_ON starts anew: blank, the top left next, normal video, no cursor, all the rows the region. */
  lemma TextOnThenPut(t: Text, code: byte)
    requires ValidText(t) && Shows(code)
    ensures var u := Op(t, TEXT_ON, 0, 0);
      && (forall r, c :: 0 <= r < ROWS && 0 <= c < COLS ==> u.cells[r][c] == SPACE)
      && Lands(u, Then(u, code), 0, 0, code, false)
      && !u.cursor && u.top == 0 && u.bottom == ROWS - 1 && u.offset == 0 && u.used
  {
  }

  /** CLEAR_EOL blanks the row from the cursor on. */
  lemma ClearsToEnd(t: Text, a: byte, b: byte, r: nat, c: nat)
    requires ValidText(t) && r < ROWS && c < COLS
    ensures Op(At(t, a, b), CLEAR_EOL, 0, 0).cells[r][c] ==
      if r == Min(a, ROWS - 1) && c >= b then SPACE else t.cells[r][c]
  {
    if b < COLS {
      ShiftedCell(At(t, a, b), COLS, false, r, c);
    }
  }

  /** INSERT lets n blanks in at the cursor, and the rest of the row goes right; DELETE takes n cells away. */
  lemma ShiftsAt(t: Text, a: byte, b: byte, n: byte, r: nat, c: nat)
    requires ValidText(t) && r < ROWS && c < COLS
    ensures Op(At(t, a, b), INSERT, n, n).cells[r][c] ==
      if r != Min(a, ROWS - 1) || c < b then t.cells[r][c] else if c < b + n then SPACE else t.cells[r][c - n]
    ensures Op(At(t, a, b), DELETE, n, n).cells[r][c] ==
      if r != Min(a, ROWS - 1) || c < b then t.cells[r][c] else if c + n < COLS then t.cells[r][c + n] else SPACE
  {
    if b < COLS && n > 0 {
      ShiftedCell(At(t, a, b), n, true, r, c);
      ShiftedCell(At(t, a, b), n, false, r, c);
    }
  }

  // ---- Rows ----

  /** Row r once the rows from top to bottom have moved n up, or down: blank rows come in. */
  ghost function RowAfter(t: Text, top: nat, bottom: nat, n: nat, up: bool, r: nat): seq<Cell>
    requires ValidText(t) && r < ROWS && bottom < ROWS
  {
    if r < top || r > bottom then t.cells[r]
    else if up then if r + n <= bottom then t.cells[r + n] else seq(COLS, _ => SPACE)
    else if r >= top + n then t.cells[r - n] else seq(COLS, _ => SPACE)
  }

  lemma ScrolledRow(t: Text, top: nat, n: nat, up: bool, r: nat)
    requires ValidText(t) && t.top <= top <= t.bottom && r < ROWS
    ensures Scroll(t, top, n, up).cells[r] == RowAfter(t, top, t.bottom, n, up, r)
    ensures var u := Scroll(t, top, n, up); u == t.(cells := u.cells, offset := u.offset)
  {
    hide Moved, ScrolledOffset;
    MovedRow(t.cells, top, t.bottom, Min(n, t.bottom - top + 1), up, r);
  }

  /** The scrolls move the region's rows, and no others. */
  lemma ScrollMoves(t: Text, n: byte, r: nat)
    requires ValidText(t) && r < ROWS
    ensures Op(t, SCROLL_UP, n, n).cells[r] == RowAfter(t, t.top, t.bottom, n, true, r)
    ensures Op(t, SCROLL_DOWN, n, n).cells[r] == RowAfter(t, t.top, t.bottom, n, false, r)
  {
    ScrolledRow(t, t.top, n, true, r);
    ScrolledRow(t, t.top, n, false, r);
  }

  /** REGION of two rows or more says which rows scroll, and the next character shows at the top left; of fewer, it
      changes nothing. A new region starts unscrolled. REGION_RESET lets all rows scroll. */
  lemma RegionThenScroll(t: Text, top: byte, bottom: byte, n: byte, code: byte, r: nat)
    requires ValidText(t) && Shows(code) && r < ROWS
    ensures var u, b := Op(t, REGION, top, bottom), Min(bottom, ROWS - 1);
      if top < b then
        && Op(u, SCROLL_UP, n, n).cells[r] == RowAfter(t, top, b, n, true, r)
        && Op(u, SCROLL_DOWN, n, n).cells[r] == RowAfter(t, top, b, n, false, r)
        && Lands(t, Then(u, code), 0, 0, code, t.reverse)
        && u.offset == (if top == t.top && b == t.bottom then t.offset else 0)
      else u == t
    ensures var u := Op(t, REGION_RESET, 0, 0);
      && Op(u, SCROLL_UP, n, n).cells[r] == RowAfter(t, 0, ROWS - 1, n, true, r)
      && Op(u, SCROLL_DOWN, n, n).cells[r] == RowAfter(t, 0, ROWS - 1, n, false, r)
      && Lands(t, Then(u, code), 0, 0, code, t.reverse)
  {
    hide Scroll, Moved;
    ScrollMoves(Op(t, REGION, top, bottom), n, r);
    ScrollMoves(Op(t, REGION_RESET, 0, 0), n, r);
  }

  /** INSERT_LINES and DELETE_LINES move the rows from the cursor's to the region's end, if it is in the region, and the
      next character shows in the row's first column. */
  lemma LinesAt(t: Text, a: byte, b: byte, n: byte, code: byte, r: nat)
    requires ValidText(t) && Shows(code) && r < ROWS
    ensures var row, u := Min(a, ROWS - 1), At(t, a, b);
      var v, w := Op(u, INSERT_LINES, n, n), Op(u, DELETE_LINES, n, n);
      if t.top <= row <= t.bottom then
        && v.cells[r] == RowAfter(t, row, t.bottom, n, false, r) && Lands(v, Then(v, code), row, 0, code, t.reverse)
        && w.cells[r] == RowAfter(t, row, t.bottom, n, true, r) && Lands(w, Then(w, code), row, 0, code, t.reverse)
      else v == u && w == u
  {
    hide Scroll;
    var row, u := Min(a, ROWS - 1), At(t, a, b).(col := 0);
    if t.top <= row <= t.bottom {
      ScrolledRow(u, row, n, false, r);
      ScrolledRow(u, row, n, true, r);
    }
  }

  /** CURSOR and TEXT_OFF leave the cells alone, and so does a code that is no operation. */
  lemma NoCellsChange(t: Text, code: byte, a: byte, b: byte)
    requires ValidText(t) && (code == CURSOR || code == TEXT_OFF || code >= 0x10)
    ensures Op(t, code, a, b) == t.(cursor := if code == CURSOR then a != 0 else t.cursor)
  {
  }
}
