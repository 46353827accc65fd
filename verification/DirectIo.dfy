/** Screen calls as ANSI sequences, and what the terminal's screen makes of those. */
module DirectIo {
  import opened Words
  import opened Console

  datatype Call =
    | Goto | Clear | ClearEol | CursorOn | CursorOff | Reverse | Normal | Region | RegionReset
    | Insert | Delete | ScrollUp | ScrollDown | InsertLines | DeleteLines

  const LONGEST := 16

  // ---- The sequences ----

  /** A parameter, left out if it is 1. */
  function Param(n: byte): seq<byte> {
    if n == 1 then [] else Decimal(n)
  }

  function Counted(n: byte, final: char): seq<byte>
    requires final < 128 as char
  {
    START + Param(n) + [final as int]
  }

  function Printed(call: Call, a: byte, y: byte): seq<byte> {
    match call
    case Goto => START + Param(a) + (if y == 1 then [] else [';' as int] + Decimal(y)) + ['H' as int]
    case Clear => START + ['2' as int, 'J' as int] + START + ['H' as int]
    case ClearEol => START + ['K' as int]
    case CursorOn => START + ['?' as int, '2' as int, '5' as int, 'h' as int]
    case CursorOff => START + ['?' as int, '2' as int, '5' as int, 'l' as int]
    case Reverse => START + ['7' as int, 'm' as int]
    case Normal => START + ['m' as int]
    case Region => START + Decimal(a) + [';' as int] + Decimal(y) + ['r' as int]
    case RegionReset => START + ['r' as int]
    case Insert => Counted(a, '@')
    case Delete => Counted(a, 'P')
    case ScrollUp => Counted(a, 'S')
    case ScrollDown => Counted(a, 'T')
    case InsertLines => Counted(a, 'L')
    case DeleteLines => Counted(a, 'M')
  }

  // ---- What the calls are for ----

  /** The screen after the call: a count of 0 is 1, a place off the screen the nearest on it, and a region with no
      bottom row goes to the last. */
  ghost function Done(s: Screen, call: Call, a: byte, y: byte): Screen
    requires ValidScreen(s)
  {
    match call
    case Goto => s.(row := Place(Max(a, 1), s.rows), col := Place(Max(y, 1), s.cols))
    case Clear => Home(ClearedScreen(s, 2))
    case ClearEol => ClearedLine(s, 0)
    case CursorOn => s
    case CursorOff => s
    case Reverse => s.(attr := 1)
    case Normal => s.(attr := 0)
    case Region => MarginsSet(s, Max(a, 1) - 1, if y == 0 then s.rows - 1 else y - 1)
    case RegionReset => MarginsSet(s, 0, s.rows - 1)
    case Insert => Shifted(s, Max(a, 1), true)
    case Delete => Shifted(s, Max(a, 1), false)
    case ScrollUp => Scrolled(s, s.top, Max(a, 1), true)
    case ScrollDown => Scrolled(s, s.top, Max(a, 1), false)
    case InsertLines => LinesMoved(s, Max(a, 1), false)
    case DeleteLines => LinesMoved(s, Max(a, 1), true)
  }

  // ---- The terminal reads what was printed ----

  /** The value a parameter reads as: 0 if it is left out. */
  function Left(n: byte): Option<arg> {
    if n == 1 then None else Some(n)
  }

  lemma ParamRead(s: Screen, n: byte)
    requires ValidScreen(s)
    ensures Fed(Terminal(s, Csi([], None, false)), Param(n)) == Terminal(s, Csi([], Left(n), false))
  {
    DecimalRead(s, [], false, n);
  }

  lemma CountedRead(s: Screen, n: byte, final: char)
    requires ValidScreen(s) && '?' < final < 128 as char
    ensures Fed(Terminal(s, Ground), Counted(n, final)) ==
      Terminal(Handled(s, WithValue([], Left(n)), final as int), Ground)
  {
    hide Handled;
    Started(s);
    FedJoined(Terminal(s, Ground), START, Param(n));
    ParamRead(s, n);
    FedJoined(Terminal(s, Ground), START + Param(n), [final as int]);
    OneByte(Terminal(s, Csi([], Left(n), false)), final as int);
  }

  /** Two parameters, the first perhaps left out. */
  lemma PairRead(s: Screen, first: seq<byte>, a: Option<arg>, y: byte, final: char)
    requires ValidScreen(s) && '?' < final < 128 as char
    requires Fed(Terminal(s, Csi([], None, false)), first) == Terminal(s, Csi([], a, false))
    ensures Fed(Terminal(s, Ground), START + first + [';' as int] + Decimal(y) + [final as int]) ==
      Terminal(Handled(s, [if a.None? then 0 else a.value, y], final as int), Ground)
  {
    hide Handled;
    var t, params := Terminal(s, Ground), [if a.None? then 0 else a.value];
    Started(s);
    FedJoined(t, START, first);
    FedJoined(t, START + first, [';' as int]);
    OneByte(Terminal(s, Csi([], a, false)), ';' as int);
    assert WithValue([], a) == params;
    FedJoined(t, START + first + [';' as int], Decimal(y));
    DecimalRead(s, params, false, y);
    FedJoined(t, START + first + [';' as int] + Decimal(y), [final as int]);
    OneByte(Terminal(s, Csi(params, Some(y), false)), final as int);
    assert WithValue(params, Some(y)) == [if a.None? then 0 else a.value, y];
  }

  lemma ModeRead(s: Screen, n: byte, digit: char, final: char)
    requires ValidScreen(s) && 1 < n < 10 && digit as int == '0' as int + n && '?' < final < 128 as char
    ensures Fed(Terminal(s, Ground), START + [digit as int, final as int]) == Terminal(Handled(s, [n], final as int), Ground)
  {
    hide Handled;
    CountedRead(s, n, final);
    assert WithValue([], Left(n)) == [n];
    assert START + [digit as int, final as int] == Counted(n, final);
  }

  lemma PlainRead(s: Screen, final: char)
    requires ValidScreen(s) && '?' < final < 128 as char
    ensures Fed(Terminal(s, Ground), START + [final as int]) == Terminal(Handled(s, [0], final as int), Ground)
  {
    hide Handled;
    CountedRead(s, 1, final);
    assert WithValue([], Left(1)) == [0];
    assert START + [final as int] == Counted(1, final);
  }

  lemma PrivateRead(s: Screen, final: char)
    requires ValidScreen(s) && '?' < final < 128 as char
    ensures Fed(Terminal(s, Ground), START + ['?' as int, '2' as int, '5' as int, final as int]) == Terminal(s, Ground)
  {
    hide Handled;
    var t := Terminal(s, Ground);
    Started(s);
    FedJoined(t, START, ['?' as int]);
    OneByte(Terminal(s, Csi([], None, false)), '?' as int);
    FedJoined(t, START + ['?' as int], Decimal(25));
    DecimalRead(s, [], true, 25);
    FedJoined(t, START + ['?' as int] + Decimal(25), [final as int]);
    OneByte(Terminal(s, Csi([], Some(25), true)), final as int);
    assert START + ['?' as int] + Decimal(25) + [final as int] == START + ['?' as int, '2' as int, '5' as int, final as int];
  }

  lemma ClearHandled(s: Screen)
    requires ValidScreen(s)
    ensures Handled(s, [2], 'J' as int) == ClearedScreen(s, 2)
    ensures Handled(ClearedScreen(s, 2), [0], 'H' as int) == Home(ClearedScreen(s, 2))
  {
  }

  lemma ClearRead(s: Screen)
    requires ValidScreen(s)
    ensures Fed(Terminal(s, Ground), Printed(Clear, 0, 0)) == Terminal(Done(s, Clear, 0, 0), Ground)
  {
    hide Handled, ClearedScreen, Fed, GroundByte;
    var first := START + ['2' as int, 'J' as int];
    ClearHandled(s);
    ModeRead(s, 2, '2', 'J');
    FedJoined(Terminal(s, Ground), first, START + ['H' as int]);
    PlainRead(ClearedScreen(s, 2), 'H');
    assert first + START + ['H' as int] == first + (START + ['H' as int]);
  }

  lemma GotoRead(s: Screen, a: byte, y: byte)
    requires ValidScreen(s)
    ensures Fed(Terminal(s, Ground), Printed(Goto, a, y)) == Terminal(Done(s, Goto, a, y), Ground)
  {
    ParamRead(s, a);
    if y == 1 {
      CountedRead(s, a, 'H');
      assert Printed(Goto, a, y) == Counted(a, 'H');
    } else {
      PairRead(s, Param(a), Left(a), y, 'H');
      assert START + Param(a) + ([';' as int] + Decimal(y)) == START + Param(a) + [';' as int] + Decimal(y);
    }
  }

  /** The sequence printed for a screen call, read from between sequences, does the call and leaves the parser between
      sequences again: for any arguments, on a screen of any size. */
  lemma CallsRead(s: Screen, call: Call, a: byte, y: byte)
    requires ValidScreen(s)
    ensures Fed(Terminal(s, Ground), Printed(call, a, y)) == Terminal(Done(s, call, a, y), Ground)
  {
    hide ClearedScreen, ClearedLine, Scrolled, Shifted, MarginsSet, LinesMoved, Byte, Fed, GroundByte, Decimal, Fits;
    match call {
      case Goto => GotoRead(s, a, y);
      case Clear => ClearRead(s);
      case ClearEol => PlainRead(s, 'K');
      case CursorOn => PrivateRead(s, 'h');
      case CursorOff => PrivateRead(s, 'l');
      case Reverse =>
        ModeRead(s, 7, '7', 'm');
        assert [7][1..] == [];
      case Normal => PlainRead(s, 'm');
      case Region =>
        DecimalRead(s, [], false, a);
        PairRead(s, Decimal(a), Some(a), y, 'r');
      case RegionReset => PlainRead(s, 'r');
      case Insert => CountedRead(s, a, '@');
      case Delete => CountedRead(s, a, 'P');
      case ScrollUp => CountedRead(s, a, 'S');
      case ScrollDown => CountedRead(s, a, 'T');
      case InsertLines => CountedRead(s, a, 'L');
      case DeleteLines => CountedRead(s, a, 'M');
    }
  }

  // ---- What that is, cell by cell ----

  const SPACE := Cell(0x20, 0)

  /** How many cells or lines a count stands for. */
  function Many(a: byte): nat {
    if a == 0 then 1 else a
  }

  /** Row r once the rows from top to bottom have moved n up, or down. */
  function RowsMoved(s: Screen, top: nat, bottom: nat, n: nat, up: bool, r: nat, c: nat): Cell {
    if r < top || r > bottom then At(s.cells, r, c)
    else if up then if r + n <= bottom then At(s.cells, r + n, c) else SPACE
    else if r >= top + n then At(s.cells, r - n, c) else SPACE
  }

  predicate Between(s: Screen) {
    s.top <= s.row <= s.bottom
  }

  /** The cell at r, c after a call. */
  function CellAfter(s: Screen, call: Call, a: byte, r: nat, c: nat): Cell {
    var n, was := Many(a), At(s.cells, r, c);
    match call
    case Clear => SPACE
    case ClearEol => if r == s.row && c >= s.col then SPACE else was
    case Insert =>
      if r != s.row || c < s.col then was else if c < s.col + n then SPACE else At(s.cells, r, c - n)
    case Delete =>
      if r != s.row || c < s.col then was else if c + n < s.cols then At(s.cells, r, c + n) else SPACE
    case ScrollUp => RowsMoved(s, s.top, s.bottom, n, true, r, c)
    case ScrollDown => RowsMoved(s, s.top, s.bottom, n, false, r, c)
    case InsertLines => if Between(s) then RowsMoved(s, s.row, s.bottom, n, false, r, c) else was
    case DeleteLines => if Between(s) then RowsMoved(s, s.row, s.bottom, n, true, r, c) else was
    case _ => was
  }

  /** The margins that REGION a, y asks for: rows counted from 1, to the last row if the bottom is 0 or past it. */
  function Asked(s: Screen, a: byte, y: byte): (int, int) {
    (Many(a) - 1, if y == 0 || y > s.rows then s.rows - 1 else y - 1)
  }

  function MarginsAfter(s: Screen, call: Call, a: byte, y: byte): (int, int) {
    if call == Region && Asked(s, a, y).0 < Asked(s, a, y).1 then Asked(s, a, y)
    else if call == RegionReset && s.rows > 1 then (0, s.rows - 1)
    else (s.top, s.bottom)
  }

  /** A count from 1 to the size. */
  function Nearest(a: byte, size: nat): int {
    if a > size then size - 1 else Many(a) - 1
  }

  function CursorAfter(s: Screen, call: Call, a: byte, y: byte): (int, int) {
    if call == Goto then (Nearest(a, s.rows), Nearest(y, s.cols))
    else if call == Clear then (0, 0)
    else if call == Region && Asked(s, a, y).0 < Asked(s, a, y).1 then (0, 0)
    else if call == RegionReset && s.rows > 1 then (0, 0)
    else if (call == InsertLines || call == DeleteLines) && Between(s) then (s.row, 0)
    else (s.row, s.col)
  }

  /** t is the screen after a call on s. */
  ghost predicate Does(s: Screen, t: Screen, call: Call, a: byte, y: byte)
    requires ValidScreen(s) && ValidScreen(t)
  {
    && t.rows == s.rows && t.cols == s.cols
    && (forall r, c :: 0 <= r < s.rows && 0 <= c < s.cols ==> t.cells[r][c] == CellAfter(s, call, a, r, c))
    && (t.row, t.col) == CursorAfter(s, call, a, y) && (t.top, t.bottom) == MarginsAfter(s, call, a, y)
    && t.attr == (if call == Reverse then 1 else if call == Normal then 0 else s.attr)
  }

  lemma ShiftedCellAfter(s: Screen, a: byte, r: nat, c: nat)
    requires ValidScreen(s) && r < s.rows && c < s.cols
    ensures Shifted(s, Many(a), true).cells[r][c] == CellAfter(s, Insert, a, r, c)
    ensures Shifted(s, Many(a), false).cells[r][c] == CellAfter(s, Delete, a, r, c)
  {
  }

  lemma ScrolledCellAfter(s: Screen, top: nat, n: nat, up: bool, r: nat, c: nat)
    requires ValidScreen(s) && r < s.rows && c < s.cols
    ensures Scrolled(s, top, n, up).cells[r][c] == RowsMoved(s, top, s.bottom, n, up, r, c)
  {
  }

  lemma ClearedCellAfter(s: Screen, a: byte, r: nat, c: nat)
    requires ValidScreen(s) && r < s.rows && c < s.cols
    ensures ClearedScreen(s, 2).cells[r][c] == CellAfter(s, Clear, a, r, c)
    ensures ClearedLine(s, 0).cells[r][c] == CellAfter(s, ClearEol, a, r, c)
  {
  }

  lemma DoneCell(s: Screen, call: Call, a: byte, y: byte, r: nat, c: nat)
    requires ValidScreen(s) && ValidScreen(Done(s, call, a, y)) && r < s.rows && c < s.cols
    ensures Done(s, call, a, y).rows == s.rows && Done(s, call, a, y).cols == s.cols
    ensures Done(s, call, a, y).cells[r][c] == CellAfter(s, call, a, r, c)
  {
    hide Scrolled, Shifted, ClearedScreen, ClearedLine, RowsMoved, Build;
    DoneRest(s, call, a, y);
    ShiftedCellAfter(s, a, r, c);
    ClearedCellAfter(s, a, r, c);
    var top, up := if call == InsertLines || call == DeleteLines then s.row else s.top, call == ScrollUp || call == DeleteLines;
    if top >= 0 {
      ScrolledCellAfter(s, top, Many(a), up, r, c);
    }
  }

  lemma DoneValid(s: Screen, call: Call, a: byte, y: byte)
    requires ValidScreen(s)
    ensures ValidScreen(Done(s, call, a, y))
  {
    hide At, MovedCell, ShiftedCell, Erases, ErasesColumn;
  }

  lemma DoneRest(s: Screen, call: Call, a: byte, y: byte)
    requires ValidScreen(s)
    ensures var t := Done(s, call, a, y);
      && ValidScreen(t) && t.rows == s.rows && t.cols == s.cols
      && (t.row, t.col) == CursorAfter(s, call, a, y) && (t.top, t.bottom) == MarginsAfter(s, call, a, y)
      && t.attr == (if call == Reverse then 1 else if call == Normal then 0 else s.attr)
  {
    hide At, MovedCell, ShiftedCell, Erases, ErasesColumn, CellAfter, Build, ValidScreen;
    DoneValid(s, call, a, y);
    OnScreen(s);
  }

  lemma OnScreen(s: Screen)
    requires ValidScreen(s)
    ensures s.rows > 0 && s.cols > 0 && 0 <= s.row < s.rows && 0 <= s.col < s.cols && s.top <= s.bottom < s.rows
  {
  }

  lemma DoneDoes(s: Screen, call: Call, a: byte, y: byte)
    requires ValidScreen(s)
    ensures ValidScreen(Done(s, call, a, y)) && Does(s, Done(s, call, a, y), call, a, y)
  {
    hide Done, CellAfter, CursorAfter, MarginsAfter;
    DoneRest(s, call, a, y);
    forall r, c | 0 <= r < s.rows && 0 <= c < s.cols
      ensures Done(s, call, a, y).cells[r][c] == CellAfter(s, call, a, r, c)
    {
      DoneCell(s, call, a, y, r, c);
    }
  }

  /** The sequence printed for a call, read between sequences, does it on the terminal's screen, and the parser is between
      sequences again. */
  lemma CallsDo(s: Screen, call: Call, a: byte, y: byte)
    requires ValidScreen(s)
    ensures var t := Fed(Terminal(s, Ground), Printed(call, a, y));
      t.parser == Ground && ValidScreen(t.screen) && Does(s, t.screen, call, a, y)
  {
    hide Done, Does, Fed, Printed;
    CallsRead(s, call, a, y);
    DoneDoes(s, call, a, y);
  }

  lemma DecimalFits(n: byte)
    ensures |Decimal(n)| <= 3
  {
    assert |Decimal(n / 100)| == 1;
  }

  /** A sequence fits the buffer it is printed into. */
  lemma PrintedFits(call: Call, a: byte, y: byte)
    ensures 0 < |Printed(call, a, y)| < 16 == LONGEST
  {
    DecimalFits(a);
    DecimalFits(y);
  }

  // ---- As it is printed ----

  method Print(n: byte) returns (out: seq<byte>)
    ensures out == Decimal(n)
  {
    out := ['0' as int + n % 10];
    var rest := n / 10;
    while rest > 0
      invariant Decimal(n) == (if rest > 0 then Decimal(rest) else []) + out
    {
      out := ['0' as int + rest % 10] + out;
      rest := rest / 10;
    }
  }

  method PrintParam(n: byte) returns (out: seq<byte>)
    ensures out == Param(n)
  {
    out := [];
    if n != 1 {
      out := Print(n);
    }
  }

  method CountSequence(n: byte, final: char) returns (out: seq<byte>)
    requires final < 128 as char
    ensures out == Counted(n, final)
  {
    var param := PrintParam(n);
    out := START + param;
    out := out + [final as int];
  }

  method ScreenCall(call: Call, a: byte, y: byte) returns (out: seq<byte>)
    ensures out == Printed(call, a, y)
  {
    match call {
      case Goto =>
        var row := PrintParam(a);
        out := START + row;
        if y != 1 {
          var col := Print(y);
          out := out + ([';' as int] + col);
        }
        out := out + ['H' as int];
      case Clear => out := START + ['2' as int, 'J' as int] + START + ['H' as int];
      case ClearEol => out := START + ['K' as int];
      case CursorOn => out := START + ['?' as int, '2' as int, '5' as int, 'h' as int];
      case CursorOff => out := START + ['?' as int, '2' as int, '5' as int, 'l' as int];
      case Reverse => out := START + ['7' as int, 'm' as int];
      case Normal => out := START + ['m' as int];
      case Region =>
        var top := Print(a);
        var bottom := Print(y);
        out := START + top + [';' as int] + bottom + ['r' as int];
      case RegionReset => out := START + ['r' as int];
      case Insert => out := CountSequence(a, '@');
      case Delete => out := CountSequence(a, 'P');
      case ScrollUp => out := CountSequence(a, 'S');
      case ScrollDown => out := CountSequence(a, 'T');
      case InsertLines => out := CountSequence(a, 'L');
      case DeleteLines => out := CountSequence(a, 'M');
    }
  }
}
