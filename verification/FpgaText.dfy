/** Text mode's character grid: the operations $00-$0F, their cursor, scroll region and hardware-scroll offset. */
module FpgaText {
  import opened Words
  import opened Grids

  const ROWS := 20
  const COLS := 20

  const TEXT_ON: byte := 0x00
  const TEXT_OFF: byte := 0x01
  const GOTO: byte := 0x02
  const PUT: byte := 0x03
  const CLEAR: byte := 0x04
  const CLEAR_EOL: byte := 0x05
  const INSERT: byte := 0x06
  const DELETE: byte := 0x07
  const REGION: byte := 0x08
  const REGION_RESET: byte := 0x09
  const SCROLL_UP: byte := 0x0A
  const SCROLL_DOWN: byte := 0x0B
  const INSERT_LINES: byte := 0x0C
  const DELETE_LINES: byte := 0x0D
  const CURSOR: byte := 0x0E
  const VIDEO: byte := 0x0F

  /** A character and whether it shows in reverse video. */
  datatype Cell = Cell(code: byte, reverse: bool)

  const BLANK := Cell(0x20, false)

  /** The grid. Column COLS is past the end of the row; offset is the rows the region's picture has moved by the
      display's hardware scroll. */
  datatype Text = Text(cells: seq<seq<Cell>>, row: nat, col: nat, top: nat, bottom: nat, offset: nat,
                       cursor: bool, reverse: bool, used: bool)

  ghost predicate ValidText(t: Text) {
    && Shaped(t.cells, ROWS, COLS)
    && t.row < ROWS && t.col <= COLS
    && t.top < t.bottom < ROWS
    && t.offset <= t.bottom - t.top
  }

  ghost function Blanks(n: nat): seq<Cell> {
    seq(n, _ => BLANK)
  }

  ghost function BlankRows(n: nat): seq<seq<Cell>> {
    seq(n, _ => Blanks(COLS))
  }

  ghost function GotoCell(t: Text, row: nat, col: nat): (r: Text)
    ensures ValidText(t) ==> ValidText(r)
  {
    t.(row := Min(row, ROWS - 1), col := Min(col, COLS))
  }

  ghost function Cleared(t: Text): (r: Text)
    ensures ValidText(t) ==> ValidText(r)
  {
    GotoCell(t.(cells := BlankRows(ROWS)), 0, 0)
  }

  ghost function Init(): Text {
    Text(BlankRows(ROWS), 0, 0, 0, ROWS - 1, 0, false, false, false)
  }

  /** A new region, of two rows or more, homes the cursor; with the picture scrolled, back to no scroll. */
  ghost function Region(t: Text, top: nat, bottom: nat): (r: Text)
    ensures ValidText(t) ==> ValidText(r)
  {
    var b := Min(bottom, ROWS - 1);
    if top < b then
      GotoCell(t.(top := top, bottom := b, offset := if top != t.top || b != t.bottom then 0 else t.offset), 0, 0)
    else t
  }

  /** The cursor's row from its column on: n blanks inserted, the end lost, or n cells deleted, blanks at the end. */
  ghost function ShiftRow(t: Text, n: nat, insert: bool): (r: Text)
    requires ValidText(t)
    ensures ValidText(r)
  {
    if t.col >= COLS || n == 0 then t
    else
      var k, line := Min(n, COLS - t.col), t.cells[t.row];
      var rest := line[t.col..];
      var shifted := if insert then Blanks(k) + rest[..|rest| - k] else rest[k..] + Blanks(k);
      t.(cells := t.cells[t.row := line[..t.col] + shifted])
  }

  lemma ShiftedCell(t: Text, n: nat, insert: bool, r: nat, c: nat)
    requires ValidText(t) && t.col < COLS && n > 0 && r < ROWS && c < COLS
    ensures var s, k, line := ShiftRow(t, n, insert), Min(n, COLS - t.col), t.cells[r];
      s == t.(cells := s.cells) && s.cells[r][c] ==
      if r != t.row || c < t.col then line[c]
      else if insert then if c < t.col + k then BLANK else line[c - k]
      else if c < COLS - k then line[c + k] else BLANK
  {
  }

  /** Rows top to the region's bottom, k of them lost at one end and k blank ones come in at the other. */
  ghost function Moved(cells: seq<seq<Cell>>, top: nat, bottom: nat, k: nat, up: bool): seq<seq<Cell>>
    requires top <= bottom < |cells| && k <= bottom - top + 1
  {
    var rows := cells[top..bottom + 1];
    var moved := if up then rows[k..] + BlankRows(k) else BlankRows(k) + rows[..|rows| - k];
    cells[..top] + moved + cells[bottom + 1..]
  }

  /** Moving the whole region by fewer rows than it has is the display's hardware scroll: the picture moves. */
  ghost function ScrolledOffset(t: Text, top: nat, n: nat, up: bool): nat
    requires ValidText(t)
  {
    var height := t.bottom - t.top + 1;
    if top == t.top && 0 < n < height then Rotate(t.offset, if up then height - n else n, height) else t.offset
  }

  ghost function Scroll(t: Text, top: nat, n: nat, up: bool): (r: Text)
    requires ValidText(t) && t.top <= top <= t.bottom
    ensures ValidText(r)
  {
    MovedShaped(t.cells, top, t.bottom, Min(n, t.bottom - top + 1), up);
    if n == 0 then t
    else
      t.(cells := Moved(t.cells, top, t.bottom, Min(n, t.bottom - top + 1), up),
         offset := ScrolledOffset(t, top, n, up))
  }

  /** Lines inserted or deleted at the cursor, which goes to the row's first column. */
  ghost function Lines(t: Text, n: nat, up: bool): (r: Text)
    requires ValidText(t)
    ensures ValidText(r)
  {
    if t.top <= t.row <= t.bottom then Scroll(t.(col := 0), t.row, n, up) else t
  }

  ghost function PutCode(t: Text, code: byte): (r: Text)
    requires ValidText(t)
    ensures ValidText(r)
  {
    if code >= 0x20 then
      if t.col < COLS then
        var u := t.(cells := Put(t.cells, t.row, t.col, Cell(code, t.reverse)));
        if t.col + 1 == COLS && t.row < ROWS - 1 then u.(row := t.row + 1, col := 0) else u.(col := t.col + 1)
      else t
    else if code == 0x08 then t.(col := if t.col > 0 then t.col - 1 else 0)
    else if code == 0x0A then t.(row := Min(t.row + 1, ROWS - 1), col := 0)
    else if code == 0x0D then t.(col := 0)
    else t
  }

  ghost function TextOn(t: Text): Text {
    Init().(used := true)
  }

  /** An operation. None, whatever its arguments, takes the grid out of shape, the cursor off the screen or the
      offset past the region's height. */
  ghost function Op(t: Text, code: byte, a: byte, b: byte): (r: Text)
    requires ValidText(t)
    ensures ValidText(r)
  {
    if code == TEXT_ON then TextOn(t)
    else if code == GOTO then GotoCell(t, a, b)
    else if code == PUT then PutCode(t, a)
    else if code == CLEAR then Cleared(t)
    else if code == CLEAR_EOL then ShiftRow(t, COLS, false)
    else if code == INSERT then ShiftRow(t, a, true)
    else if code == DELETE then ShiftRow(t, a, false)
    else if code == REGION then Region(t, a, b)
    else if code == REGION_RESET then Region(t, 0, ROWS - 1)
    else if code == SCROLL_UP then Scroll(t, t.top, a, true)
    else if code == SCROLL_DOWN then Scroll(t, t.top, a, false)
    else if code == INSERT_LINES then Lines(t, a, false)
    else if code == DELETE_LINES then Lines(t, a, true)
    else if code == CURSOR then t.(cursor := a != 0)
    else if code == VIDEO then t.(reverse := a != 0)
    else t
  }

  /** Every row after a move: kept rows come from n rows away, the others are blank or untouched. */
  lemma MovedRow(cells: seq<seq<Cell>>, top: nat, bottom: nat, k: nat, up: bool, r: nat)
    requires Shaped(cells, ROWS, COLS) && top <= bottom < ROWS && k <= bottom - top + 1 && r < ROWS
    ensures |Moved(cells, top, bottom, k, up)| == ROWS
    ensures Moved(cells, top, bottom, k, up)[r] ==
      if r < top || r > bottom then cells[r]
      else if up then if r + k <= bottom then cells[r + k] else Blanks(COLS)
      else if r >= top + k then cells[r - k] else Blanks(COLS)
  {
    var rows := cells[top..bottom + 1];
    var moved := if up then rows[k..] + BlankRows(k) else BlankRows(k) + rows[..|rows| - k];
    assert |moved| == bottom - top + 1;
    if top <= r <= bottom {
      assert Moved(cells, top, bottom, k, up)[r] == moved[r - top];
      if up {
        assert moved[r - top] == if r + k <= bottom then rows[r - top + k] else Blanks(COLS);
      } else {
        assert moved[r - top] == if r >= top + k then rows[r - top - k] else Blanks(COLS);
      }
    }
  }

  lemma MovedShaped(cells: seq<seq<Cell>>, top: nat, bottom: nat, k: nat, up: bool)
    requires Shaped(cells, ROWS, COLS) && top <= bottom < ROWS && k <= bottom - top + 1
    ensures Shaped(Moved(cells, top, bottom, k, up), ROWS, COLS)
  {
    MovedRow(cells, top, bottom, k, up, 0);
    forall r | 0 <= r < ROWS ensures |Moved(cells, top, bottom, k, up)[r]| == COLS {
      MovedRow(cells, top, bottom, k, up, r);
    }
  }

  ghost function Puts(t: Text, codes: seq<byte>): (r: Text)
    requires ValidText(t)
    ensures ValidText(r)
  {
    if codes == [] then t else PutCode(Puts(t, codes[..|codes| - 1]), codes[|codes| - 1])
  }

  predicate Printable(codes: seq<byte>) {
    forall i :: 0 <= i < |codes| ==> codes[i] >= 0x20
  }

  /** The k-th cell in reading order. */
  function Nth(cells: seq<seq<Cell>>, k: nat): Cell
    requires |cells| == ROWS && k < ROWS * COLS && |cells[k / COLS]| == COLS
  {
    cells[k / COLS][k % COLS]
  }

  /** The first n cells are the codes, the others as they were, and the cursor is after them. */
  ghost predicate Filled(t: Text, u: Text, codes: seq<byte>)
    requires ValidText(t) && ValidText(u)
  {
    && u == t.(cells := u.cells, row := u.row, col := u.col)
    && u.row * COLS + u.col == |codes| && (u.col == COLS ==> u.row == ROWS - 1)
    && forall k: nat :: k < ROWS * COLS ==> Nth(u.cells, k) == if k < |codes| then Cell(codes[k], t.reverse) else Nth(t.cells, k)
  }

  lemma FillsNext(t: Text, u: Text, codes: seq<byte>, code: byte)
    requires ValidText(t) && ValidText(u) && Filled(t, u, codes) && |codes| < ROWS * COLS && code >= 0x20
    ensures Filled(t, PutCode(u, code), codes + [code])
  {
    var r := PutCode(u, code);
    forall k: nat | k < ROWS * COLS
      ensures Nth(r.cells, k) == if k < |codes| + 1 then Cell((codes + [code])[k], t.reverse) else Nth(t.cells, k)
    {
      assert Nth(u.cells, k) == if k < |codes| then Cell(codes[k], t.reverse) else Nth(t.cells, k);
    }
  }

  /** Text put from the first cell on fills the grid in reading order, to its last cell. */
  lemma {:induction false} TextFills(t: Text, codes: seq<byte>)
    requires ValidText(t) && t.row == 0 && t.col == 0 && Printable(codes) && |codes| <= ROWS * COLS
    ensures Filled(t, Puts(t, codes), codes)
  {
    if codes != [] {
      var n := |codes| - 1;
      TextFills(t, codes[..n]);
      FillsNext(t, Puts(t, codes[..n]), codes[..n], codes[n]);
      assert codes == codes[..n] + [codes[n]];
    }
  }

  /** Inserting n cells and deleting them again gives the row back, but for the n cells pushed off its end. */
  lemma InsertThenDelete(t: Text, n: byte)
    requires ValidText(t) && t.col < COLS && n > 0
    ensures var k := Min(n, COLS - t.col);
      Op(Op(t, INSERT, n, n), DELETE, n, n).cells ==
      t.cells[t.row := t.cells[t.row][..COLS - k] + Blanks(k)]
  {
    var k, line := Min(n, COLS - t.col), t.cells[t.row];
    var u := ShiftRow(t, n, true);
    assert u.cells[t.row] == line[..t.col] + (Blanks(k) + line[t.col..][..COLS - t.col - k]);
    var v := ShiftRow(u, n, false);
    assert u.cells[t.row][t.col..][k..] == line[t.col..COLS - k];
    assert v.cells[t.row] == line[..COLS - k] + Blanks(k);
  }

  lemma MovedUpThenDown(cells: seq<seq<Cell>>, top: nat, bottom: nat, n: nat, r: nat)
    requires Shaped(cells, ROWS, COLS) && top <= bottom < ROWS && n <= bottom - top + 1 && r < ROWS
    ensures |Moved(cells, top, bottom, n, true)| == ROWS
    ensures |Moved(Moved(cells, top, bottom, n, true), top, bottom, n, false)| == ROWS
    ensures Moved(Moved(cells, top, bottom, n, true), top, bottom, n, false)[r] ==
      if top <= r < top + n then Blanks(COLS) else cells[r]
  {
    MovedShaped(cells, top, bottom, n, true);
    MovedRow(Moved(cells, top, bottom, n, true), top, bottom, n, false, r);
    MovedRow(cells, top, bottom, n, true, if top + n <= r <= bottom then r - n else r);
  }

  /** Scrolling the region up and down again by fewer rows than it has moves its picture back, the rows that were
      scrolled off come back blank, and no other row changes. */
  lemma ScrollUpThenDown(t: Text, n: byte, r: nat)
    requires ValidText(t) && 0 < n <= t.bottom - t.top && r < ROWS
    ensures var u := Op(Op(t, SCROLL_UP, n, n), SCROLL_DOWN, n, n);
      u.offset == t.offset && u.cells[r] == if t.top <= r < t.top + n then Blanks(COLS) else t.cells[r]
  {
    var u := Op(t, SCROLL_UP, n, n);
    assert u == Scroll(t, t.top, n, true);
    assert Op(u, SCROLL_DOWN, n, n) == Scroll(u, t.top, n, false);
    MovedUpThenDown(t.cells, t.top, t.bottom, n, r);
  }

  /** The grid, its rows moved and shifted in place. */
  class Screen {
    const cells: array2<Cell>
    ghost var contents: seq<seq<Cell>>   // the cells
    var row: nat
    var col: nat
    var top: nat
    var bottom: nat
    var offset: nat
    var cursor: bool
    var reverse: bool
    var used: bool

    ghost predicate Valid()
      reads this, cells
    {
      && cells.Length0 == ROWS && cells.Length1 == COLS && Holds(cells, contents)
      && ValidText(State())
    }

    ghost function State(): Text
      reads this
    {
      Text(contents, row, col, top, bottom, offset, cursor, reverse, used)
    }

    constructor ()
      ensures Valid() && fresh(cells)
      ensures State() == Init()
    {
      cells := new Cell[ROWS, COLS]((_, _) => BLANK);
      contents := BlankRows(ROWS);
      row, col, top, bottom, offset := 0, 0, 0, ROWS - 1, 0;
      cursor, reverse, used := false, false, false;
    }

    method DoGoto(r: nat, c: nat)
      modifies this`row, this`col
      ensures State() == GotoCell(old(State()), r, c)
    {
      row := if r > ROWS - 1 then ROWS - 1 else r;
      col := if c > COLS then COLS else c;
    }

    method DoClear()
      requires cells.Length0 == ROWS && cells.Length1 == COLS
      modifies this`contents, this`row, this`col, cells
      ensures Holds(cells, contents) && State() == Cleared(old(State()))
    {
      for r := 0 to ROWS
        invariant forall i, j :: 0 <= i < r && 0 <= j < COLS ==> cells[i, j] == BLANK
      {
        for c := 0 to COLS
          invariant forall i, j :: 0 <= i < r && 0 <= j < COLS ==> cells[i, j] == BLANK
          invariant forall j :: 0 <= j < c ==> cells[r, j] == BLANK
        {
          cells[r, c] := BLANK;
        }
      }
      contents := BlankRows(ROWS);
      DoGoto(0, 0);
    }

    method DoRegion(t: nat, last: nat)
      requires Valid()
      modifies this`top, this`bottom, this`offset, this`row, this`col
      ensures Valid() && State() == Region(old(State()), t, last)
    {
      var b := last;
      if b > ROWS - 1 {
        b := ROWS - 1;
      }
      if t < b {
        if t != top || b != bottom {
          offset := 0;
        }
        top, bottom := t, b;
        DoGoto(0, 0);
      }
    }

    method BlankSpan(r: nat, from: nat, to: nat)
      requires cells.Length0 == ROWS && cells.Length1 == COLS && r < ROWS && from <= to <= COLS
      modifies cells
      ensures forall i, j :: 0 <= i < ROWS && 0 <= j < COLS ==>
        cells[i, j] == if i == r && from <= j < to then BLANK else old(cells[i, j])
    {
      for c := from to to
        invariant forall i, j :: 0 <= i < ROWS && 0 <= j < COLS ==>
          cells[i, j] == if i == r && from <= j < c then BLANK else old(cells[i, j])
      {
        cells[r, c] := BLANK;
      }
    }

    method DoShiftRow(count: nat, insert: bool)
      requires Valid()
      modifies this`contents, cells
      ensures Valid() && State() == ShiftRow(old(State()), count, insert)
    {
      if col >= COLS || count == 0 {
        return;
      }
      hide ShiftRow;
      var n, span := count, COLS - col;
      if n > span {
        n := span;
      }
      ghost var goal := ShiftRow(State(), count, insert).cells;
      if insert {
        forall c | col + n <= c < COLS {
          cells[row, c] := cells[row, c - n];
        }
        BlankSpan(row, col, col + n);
      } else {
        forall c | col <= c < COLS - n {
          cells[row, c] := cells[row, c + n];
        }
        BlankSpan(row, COLS - n, COLS);
      }
      forall r, c | 0 <= r < ROWS && 0 <= c < COLS ensures goal[r][c] == cells[r, c] {
        ShiftedCell(old(State()), count, insert, r, c);
      }
      contents := goal;
    }

    method CopyRow(dst: nat, src: nat)
      requires cells.Length0 == ROWS && cells.Length1 == COLS && dst < ROWS && src < ROWS
      modifies cells
      ensures forall i, j :: 0 <= i < ROWS && 0 <= j < COLS ==>
        cells[i, j] == old(cells[if i == dst then src else i, j])
    {
      forall c | 0 <= c < COLS {
        cells[dst, c] := cells[src, c];
      }
    }

    method MoveRows(first: nat, n: nat, up: bool)
      requires Valid() && first <= bottom && 0 < n <= bottom - first + 1
      modifies this`contents, cells
      ensures Holds(cells, contents)
      ensures contents == Moved(old(contents), first, bottom, n, up)
    {
      ghost var was, goal := contents, Moved(contents, first, bottom, n, up);
      MovedShaped(was, first, bottom, n, up);
      for i := 0 to bottom - first + 1
        invariant forall r, c :: 0 <= r < ROWS && 0 <= c < COLS ==>
          cells[r, c] == if first <= r <= bottom && (if up then r < first + i else r > bottom - i)
                         then goal[r][c] else was[r][c]
      {
        var dst := if up then first + i else bottom - i;
        var src := if up then dst + n else dst - n;
        MovedRow(was, first, bottom, n, up, dst);
        if if up then src <= bottom else src >= first {
          CopyRow(dst, src);
        } else {
          BlankSpan(dst, 0, COLS);
        }
      }
      forall r | 0 <= r < ROWS ensures r < first || r > bottom ==> goal[r] == was[r] {
        MovedRow(was, first, bottom, n, up, r);
      }
      contents := goal;
    }

    method DoScroll(first: nat, count: nat, up: bool)
      requires Valid() && top <= first <= bottom
      modifies this`contents, this`offset, cells
      ensures Valid() && State() == Scroll(old(State()), first, count, up)
    {
      var n, height := count, bottom - first + 1;
      if n == 0 {
        return;
      }
      ghost var goal := Scroll(State(), first, count, up);
      if n < height && first == top {
        offset := Rotate(offset, if up then height - n else n, height);
      }
      if n > height {
        n := height;
      }
      MoveRows(first, n, up);
      assert State() == goal;
    }

    method DoLines(n: nat, up: bool)
      requires Valid()
      modifies this`contents, this`offset, this`col, cells
      ensures Valid() && State() == Lines(old(State()), n, up)
    {
      if top <= row <= bottom {
        col := 0;
        DoScroll(row, n, up);
      }
    }

    method DoPut(code: byte)
      requires Valid()
      modifies this`contents, this`row, this`col, cells
      ensures Valid() && State() == PutCode(old(State()), code)
    {
      if code >= 0x20 {
        if col < COLS {
          cells[row, col] := Cell(code, reverse);
          contents := Put(contents, row, col, Cell(code, reverse));
          col := col + 1;
          if col == COLS && row < ROWS - 1 {
            row, col := row + 1, 0;
          }
        }
      } else if code == 0x08 {
        if col > 0 {
          col := col - 1;
        }
      } else if code == 0x0A {
        if row < ROWS - 1 {
          row := row + 1;
        }
        col := 0;
      } else if code == 0x0D {
        col := 0;
      }
    }

    method DoOp(code: byte, a: byte, b: byte)
      requires Valid()
      modifies this, cells
      ensures Valid() && State() == Op(old(State()), code, a, b)
    {
      if code == TEXT_ON {
        cursor, reverse, offset, top, bottom := false, false, 0, 0, ROWS - 1;
        DoClear();
        used := true;
      } else if code == GOTO {
        DoGoto(a, b);
      } else if code == PUT {
        DoPut(a);
      } else if code == CLEAR {
        DoClear();
      } else if code == CLEAR_EOL {
        DoShiftRow(COLS, false);
      } else if code == INSERT {
        DoShiftRow(a, true);
      } else if code == DELETE {
        DoShiftRow(a, false);
      } else if code == REGION {
        DoRegion(a, b);
      } else if code == REGION_RESET {
        DoRegion(0, ROWS - 1);
      } else if code == SCROLL_UP {
        DoScroll(top, a, true);
      } else if code == SCROLL_DOWN {
        DoScroll(top, a, false);
      } else if code == INSERT_LINES {
        DoLines(a, false);
      } else if code == DELETE_LINES {
        DoLines(a, true);
      } else if code == CURSOR {
        cursor := a != 0;
      } else if code == VIDEO {
        reverse := a != 0;
      }
    }
  }
}
