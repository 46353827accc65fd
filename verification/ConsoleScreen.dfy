/** The terminal's screen in place: an array of cells erased, moved and written as bytes come. */
module ConsoleScreen {
  import opened Words
  import opened Grids
  import opened Console

  class Emulation {
    const cells: array2<Cell>
    ghost var contents: seq<seq<Cell>>   // the cells
    var cursorRow: int
    var cursorCol: int
    var scrollTop: nat
    var scrollBot: nat
    var currentAttr: byte
    var parserState: nat
    var csiParams: seq<arg>
    var csiValue: i32
    var csiPrivate: bool

    /** The cells and the parser as they should be, wherever the cursor is. */
    ghost predicate Whole()
      reads this, cells
    {
      Holds(cells, contents) && parserState <= 2 && (csiPrivate ==> parserState == 2)
    }

    ghost predicate Valid()
      reads this, cells
    {
      Whole() && ValidScreen(State())
    }

    ghost function State(): Screen
      reads this, cells
    {
      Screen(cells.Length0, cells.Length1, contents, cursorRow, cursorCol, scrollTop, scrollBot, currentAttr)
    }

    ghost function ParserState(): Parser
      reads this
    {
      if parserState == 0 then Ground
      else if parserState == 1 then Escape
      else Csi(csiParams, if csiValue < 0 then None else Some(csiValue), csiPrivate)
    }

    constructor (rows: nat, cols: nat)
      requires 0 < rows <= SIDE && 0 < cols <= SIDE
      ensures Valid() && fresh(cells) && ParserState() == Ground
      ensures State() == Screen(rows, cols, Build(rows, cols, (r: nat, c: nat) => BLANK), 0, 0, 0, rows - 1, 0)
    {
      cells := new Cell[rows, cols]((_, _) => BLANK);
      contents := Build(rows, cols, (r: nat, c: nat) => BLANK);
      cursorRow, cursorCol, scrollTop, scrollBot, currentAttr := 0, 0, 0, rows - 1, 0;
      parserState, csiParams, csiValue, csiPrivate := 0, [], -1, false;
    }

    // ---- Rows ----

    /** Part of a row set to blanks. */
    method BlankSpan(r: nat, from: nat, to: nat)
      requires r < cells.Length0 && from <= to <= cells.Length1
      modifies cells
      ensures forall i, j :: 0 <= i < cells.Length0 && 0 <= j < cells.Length1 ==>
        cells[i, j] == if i == r && from <= j < to then BLANK else old(cells[i, j])
    {
      for c := from to to
        invariant forall i, j :: 0 <= i < cells.Length0 && 0 <= j < cells.Length1 ==>
          cells[i, j] == if i == r && from <= j < c then BLANK else old(cells[i, j])
      {
        cells[r, c] := BLANK;
      }
    }

    method BlankRows(from: nat, to: nat)
      requires from <= to <= cells.Length0
      modifies cells
      ensures forall i, j :: 0 <= i < cells.Length0 && 0 <= j < cells.Length1 ==>
        cells[i, j] == if from <= i < to then BLANK else old(cells[i, j])
    {
      for r := from to to
        invariant forall i, j :: 0 <= i < cells.Length0 && 0 <= j < cells.Length1 ==>
          cells[i, j] == if from <= i < r then BLANK else old(cells[i, j])
      {
        BlankSpan(r, 0, cells.Length1);
      }
    }

    method CopyRow(dst: nat, src: nat)
      requires dst < cells.Length0 && src < cells.Length0
      modifies cells
      ensures forall i, j :: 0 <= i < cells.Length0 && 0 <= j < cells.Length1 ==>
        cells[i, j] == old(cells[if i == dst then src else i, j])
    {
      forall c | 0 <= c < cells.Length1 {
        cells[dst, c] := cells[src, c];
      }
    }

    /** The cells are what an operation makes of them. */
    ghost method Settle(goal: Screen)
      requires Shaped(goal.cells, cells.Length0, cells.Length1)
      requires forall i, j :: 0 <= i < cells.Length0 && 0 <= j < cells.Length1 ==> cells[i, j] == goal.cells[i][j]
      modifies this`contents
      ensures contents == goal.cells && Holds(cells, contents)
    {
      contents := goal.cells;
    }

    // ---- Operations ----

    method ClearLine(mode: nat)
      requires Valid()
      modifies this`contents, cells
      ensures Valid() && State() == ClearedLine(old(State()), mode) && ParserState() == old(ParserState())
    {
      ghost var goal := ClearedLine(State(), mode);
      if mode == 1 {
        BlankSpan(cursorRow, 0, cursorCol + 1);
      } else if mode == 2 {
        BlankSpan(cursorRow, 0, cells.Length1);
      } else {
        BlankSpan(cursorRow, cursorCol, cells.Length1);
      }
      Settle(goal);
    }

    method ClearScreen(mode: nat)
      requires Valid()
      modifies this`contents, cells
      ensures Valid() && State() == ClearedScreen(old(State()), mode) && ParserState() == old(ParserState())
    {
      ghost var goal := ClearedScreen(State(), mode);
      if mode == 1 {
        BlankRows(0, cursorRow);
        BlankSpan(cursorRow, 0, cursorCol + 1);
      } else if mode == 2 || mode == 3 {
        BlankRows(0, cells.Length0);
      } else {
        BlankSpan(cursorRow, cursorCol, cells.Length1);
        BlankRows(cursorRow + 1, cells.Length0);
      }
      Settle(goal);
    }

    /** Rows from top to the bottom margin moved by lines, one row after another from the end they move to. */
    method MoveRows(top: nat, lines: nat, up: bool)
      requires Valid() && top <= scrollBot && 0 < lines <= scrollBot - top
      modifies cells
      ensures forall i: nat, j: nat :: i < cells.Length0 && j < cells.Length1 ==>
        cells[i, j] == MovedCell(contents, top, scrollBot, lines, up, i, j)
    {
      var kept := scrollBot - top + 1 - lines;
      for i := 0 to kept
        invariant forall r: nat, c: nat :: r < cells.Length0 && c < cells.Length1 ==>
          cells[r, c] ==
          if top <= r <= scrollBot && (if up then r < top + i else r > scrollBot - i)
          then MovedCell(contents, top, scrollBot, lines, up, r, c) else contents[r][c]
      {
        if up {
          CopyRow(top + i, top + i + lines);
        } else {
          CopyRow(scrollBot - i, scrollBot - i - lines);
        }
      }
      if up {
        BlankRows(top + kept, scrollBot + 1);
      } else {
        BlankRows(top, top + lines);
      }
    }

    method ScrollRegion(top: nat, lines: nat, up: bool)
      requires Valid() && top <= scrollBot && 0 < lines
      modifies this`contents, cells
      ensures Valid() && State() == Scrolled(old(State()), top, lines, up) && ParserState() == old(ParserState())
    {
      ghost var goal := Scrolled(State(), top, lines, up);
      if lines >= scrollBot - top + 1 {
        BlankRows(top, scrollBot + 1);
      } else {
        MoveRows(top, lines, up);
      }
      Settle(goal);
    }

    /** The cells of the cursor's row from its column on moved right by n, which the row has room for. */
    method InsertCells(n: nat)
      requires Valid() && n <= cells.Length1 - cursorCol
      modifies cells
      ensures forall i: nat, j: nat :: i < cells.Length0 && j < cells.Length1 ==>
        cells[i, j] == ShiftedCell(old(State()), n, true, i, j)
    {
      forall c | cursorCol + n <= c < cells.Length1 {
        cells[cursorRow, c] := cells[cursorRow, c - n];
      }
      BlankSpan(cursorRow, cursorCol, cursorCol + n);
    }

    /** And left by n. */
    method DeleteCells(n: nat)
      requires Valid() && n <= cells.Length1 - cursorCol
      modifies cells
      ensures forall i: nat, j: nat :: i < cells.Length0 && j < cells.Length1 ==>
        cells[i, j] == ShiftedCell(old(State()), n, false, i, j)
    {
      forall c | cursorCol <= c < cells.Length1 - n {
        cells[cursorRow, c] := cells[cursorRow, c + n];
      }
      BlankSpan(cursorRow, cells.Length1 - n, cells.Length1);
    }

    method ShiftChars(count: nat, insert: bool)
      requires Valid() && 0 < count
      modifies this`contents, cells
      ensures Valid() && State() == Shifted(old(State()), count, insert) && ParserState() == old(ParserState())
    {
      ghost var goal := Shifted(State(), count, insert);
      var n := if count > cells.Length1 - cursorCol then cells.Length1 - cursorCol else count;
      if insert {
        InsertCells(n);
      } else {
        DeleteCells(n);
      }
      Settle(goal);
    }

    method LineFeed()
      requires Valid()
      modifies this`contents, this`cursorRow, cells
      ensures Valid() && State() == LineFed(old(State())) && ParserState() == old(ParserState())
    {
      hide Scrolled;
      if cursorRow + 1 > scrollBot {
        ScrollRegion(scrollTop, 1, true);
        cursorRow := scrollBot;
      } else {
        cursorRow := cursorRow + 1;
      }
    }

    method WriteCell(ch: byte)
      requires Valid()
      modifies this`contents, cells
      ensures Valid() && State() == Written(old(State()), ch) && ParserState() == old(ParserState())
    {
      ghost var goal := Written(State(), ch);
      cells[cursorRow, cursorCol] := Cell(ch, currentAttr);
      Settle(goal);
    }

    method PutChar(ch: byte)
      requires Valid()
      modifies this`contents, this`cursorRow, this`cursorCol, cells
      ensures Valid() && State() == CharPut(old(State()), ch) && ParserState() == old(ParserState())
    {
      hide LineFed, Written, Holds;
      WriteCell(ch);
      cursorCol := cursorCol + 1;
      if cursorCol >= cells.Length1 {
        cursorCol := 0;
        LineFeed();
      }
    }

    // ---- Control sequences ----

    method MoveUp(n: arg)
      requires Valid()
      modifies this`cursorRow
      ensures Valid() && State() == old(State()).(row := Back(old(cursorRow), n)) && ParserState() == old(ParserState())
    {
      cursorRow := Wrapped(cursorRow - n);
      if cursorRow < 0 {
        cursorRow := 0;
      }
    }

    method MoveDown(n: arg)
      requires Valid()
      modifies this`cursorRow
      ensures Whole() && ParserState() == old(ParserState())
      ensures State() == old(State()).(row := Onward(old(cursorRow), n, cells.Length0))
    {
      cursorRow := Wrapped(cursorRow + n);
      if cursorRow >= cells.Length0 {
        cursorRow := cells.Length0 - 1;
      }
    }

    method MoveLeft(n: arg)
      requires Valid()
      modifies this`cursorCol
      ensures Valid() && State() == old(State()).(col := Back(old(cursorCol), n)) && ParserState() == old(ParserState())
    {
      cursorCol := Wrapped(cursorCol - n);
      if cursorCol < 0 {
        cursorCol := 0;
      }
    }

    method MoveRight(n: arg)
      requires Valid()
      modifies this`cursorCol
      ensures Whole() && ParserState() == old(ParserState())
      ensures State() == old(State()).(col := Onward(old(cursorCol), n, cells.Length1))
    {
      cursorCol := Wrapped(cursorCol + n);
      if cursorCol >= cells.Length1 {
        cursorCol := cells.Length1 - 1;
      }
    }

    method MoveToColumn(n: arg)
      requires Valid()
      modifies this`cursorCol
      ensures Valid() && State() == old(State()).(col := Place(n, cells.Length1)) && ParserState() == old(ParserState())
    {
      cursorCol := n - 1;
      if cursorCol < 0 {
        cursorCol := 0;
      }
      if cursorCol >= cells.Length1 {
        cursorCol := cells.Length1 - 1;
      }
    }

    method PlaceAt(row: nat, col: nat)
      requires Valid()
      modifies this`cursorRow, this`cursorCol
      ensures Valid() && ParserState() == old(ParserState())
      ensures State() == old(State()).(row := Place(row, cells.Length0), col := Place(col, cells.Length1))
    {
      var r, c := row - 1, col - 1;
      r := if r < 0 then 0 else r;
      c := if c < 0 then 0 else c;
      r := if r >= cells.Length0 then cells.Length0 - 1 else r;
      c := if c >= cells.Length1 then cells.Length1 - 1 else c;
      cursorRow, cursorCol := r, c;
    }

    method SetMargins(top: nat, bottom: nat)
      requires Valid()
      modifies this`scrollTop, this`scrollBot, this`cursorRow, this`cursorCol
      ensures Valid() && State() == MarginsSet(old(State()), top, bottom) && ParserState() == old(ParserState())
    {
      var bot := if bottom >= cells.Length0 then cells.Length0 - 1 else bottom;
      if top < bot {
        scrollTop, scrollBot := top, bot;
        cursorRow, cursorCol := 0, 0;
      }
    }

    method MoveLines(lines: nat, up: bool)
      requires Valid() && 0 < lines
      modifies this`contents, this`cursorCol, cells
      ensures Valid() && State() == LinesMoved(old(State()), lines, up) && ParserState() == old(ParserState())
    {
      hide Scrolled;
      if cursorRow < scrollTop || cursorRow > scrollBot {
        return;
      }
      ScrollRegion(cursorRow, lines, up);
      cursorCol := 0;
    }

    method SetAttributes(params: seq<arg>)
      requires Valid()
      modifies this`currentAttr
      ensures Valid() && State() == old(State()).(attr := Attribute(old(currentAttr), params)) && ParserState() == old(ParserState())
    {
      assert params[0..] == params;
      for i := 0 to |params|
        invariant Valid() && State() == old(State()).(attr := currentAttr) && ParserState() == old(ParserState())
        invariant Attribute(currentAttr, params[i..]) == Attribute(old(currentAttr), params)
      {
        assert params[i..][0] == params[i] && params[i..][1..] == params[i + 1..];
        if params[i] == 7 {
          currentAttr := 1;
        } else if params[i] == 0 || params[i] == 27 {
          currentAttr := 0;
        }
      }
    }

    method HandleCsi(params: seq<arg>, final: byte)
      requires Valid() && params != []
      modifies this`contents, this`cursorRow, this`cursorCol, this`scrollTop, this`scrollBot, this`currentAttr, cells
      ensures Whole() && State() == Handled(old(State()), params, final) && ParserState() == old(ParserState())
    {
      hide Back, Onward, Place, ClearedScreen, ClearedLine, MarginsSet, Scrolled, LinesMoved, Shifted, Attribute, Fits;
      var n := OneIfZero(params[0]);
      match final as char {
        case 'A' => MoveUp(n);
        case 'B' => MoveDown(n);
        case 'C' => MoveRight(n);
        case 'D' => MoveLeft(n);
        case 'E' =>
          MoveDown(n);
          cursorCol := 0;
        case 'F' =>
          MoveUp(n);
          cursorCol := 0;
        case 'G' => MoveToColumn(n);
        case 'H' => PlaceAt(n, Second(params, 1));
        case 'f' => PlaceAt(n, Second(params, 1));
        case 'J' => ClearScreen(params[0]);
        case 'K' => ClearLine(params[0]);
        case 'r' => SetMargins(n - 1, Second(params, cells.Length0) - 1);
        case 'S' => ScrollRegion(scrollTop, n, true);
        case 'T' => ScrollRegion(scrollTop, n, false);
        case 'L' => MoveLines(n, false);
        case 'M' => MoveLines(n, true);
        case '@' => ShiftChars(n, true);
        case 'P' => ShiftChars(n, false);
        case 'm' => SetAttributes(params);
        case _ =>
      }
    }

    // ---- Bytes ----

    method HandleGround(ch: byte)
      requires Valid() && parserState == 0 && ch != ESC
      modifies this`contents, this`cursorRow, this`cursorCol, cells
      ensures Valid() && State() == GroundByte(old(State()), ch) && ParserState() == Ground
    {
      hide LineFed, CharPut;
      if ch == 0x0D {
        cursorCol := 0;
      } else if ch == 0x0A {
        LineFeed();
      } else if ch == 0x08 {
        cursorCol := if cursorCol > 0 then cursorCol - 1 else 0;
      } else if ch == 0x09 {
        var nextTab := (cursorCol + 8) / 8 * 8;
        cursorCol := if nextTab >= cells.Length1 then cells.Length1 - 1 else nextTab;
      } else if ch >= 0x20 {
        PutChar(ch);
      }
    }

    method PushParam()
      requires Valid() && parserState == 2
      modifies this`csiParams
      ensures Valid() && State() == old(State())
      ensures csiParams == WithValue(old(csiParams), if csiValue < 0 then None else Some(csiValue))
    {
      if |csiParams| < PARAMS {
        csiParams := csiParams + [if csiValue < 0 then 0 else csiValue];
      }
    }

    method FinishCsi(ch: byte)
      requires Valid() && parserState == 2
      modifies this, cells
      ensures Whole() && ParserState() == Ground
      ensures State() == if old(csiPrivate) then old(State())
        else Handled(old(State()), WithValue(old(csiParams), if old(csiValue) < 0 then None else Some(old(csiValue))), ch)
    {
      hide Handled;
      PushParam();
      if csiPrivate {
        csiPrivate := false;
      } else {
        HandleCsi(csiParams, ch);
      }
      parserState := 0;
    }

    method HandleCsiByte(ch: byte)
      requires Valid() && parserState == 2
      modifies this, cells
      ensures Whole() && Terminal(State(), ParserState()) == CsiByte(old(Terminal(State(), ParserState())), ch)
    {
      hide Handled;
      if ch == '?' as int && csiParams == [] && csiValue < 0 {
        csiPrivate := true;
      } else if Digit(ch) {
        if csiValue < 0 {
          csiValue := 0;
        }
        csiValue := Wrapped(csiValue * 10 + (ch - '0' as int));
      } else if ch == ';' as int {
        PushParam();
        csiValue := -1;
      } else {
        FinishCsi(ch);
      }
    }

    method HandleByte(ch: byte)
      requires Valid()
      modifies this, cells
      ensures Whole() && (Valid() <==> ByteFits(old(Terminal(State(), ParserState())), ch))
      ensures Terminal(State(), ParserState()) == Byte(old(Terminal(State(), ParserState())), ch)
    {
      hide GroundByte, CsiByte, ByteFits;
      ByteKeepsValid(Terminal(State(), ParserState()), ch);
      if parserState == 0 {
        if ch == ESC {
          parserState := 1;
        } else {
          HandleGround(ch);
        }
      } else if parserState == 1 {
        if ch == '[' as int {
          parserState, csiParams, csiValue := 2, [], -1;
        } else {
          parserState := 0;
        }
      } else {
        HandleCsiByte(ch);
      }
    }
  }
}
