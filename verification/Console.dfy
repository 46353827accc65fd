/** The screen of the terminal emulation: a grid of any size, a cursor, scroll margins, and a parser of ANSI output. */
module Console {
  import opened Words
  import opened Grids

  datatype Cell = Cell(ch: byte, attr: byte)

  const BLANK := Cell(0x20, 0)
  const ESC: byte := 0x1B

  const INT_MAX := 0x7FFF_FFFF

  /** A parameter as it is read. */
  type arg = x: int | 0 <= x <= INT_MAX

  type i32 = x: int | -INT_MAX - 1 <= x <= INT_MAX

  /** What an int of 32 bits holds of a number. */
  function Wrapped(x: int): (w: i32)
    ensures -INT_MAX - 1 <= x <= INT_MAX ==> w == x
    ensures INT_MAX < x <= 2 * INT_MAX + 1 ==> w == x - 2 * INT_MAX - 2
  {
    (x + INT_MAX + 1) % (2 * INT_MAX + 2) - INT_MAX - 1
  }

  /** The grid, the cursor, the first and last rows between the margins, and the attribute of what is written. */
  datatype Screen = Screen(rows: nat, cols: nat, cells: seq<seq<Cell>>, row: int, col: int, top: nat, bottom: nat, attr: byte)

  /** The most rows or columns a terminal's window size tells of. */
  const SIDE := 0xFFFF

  /** A screen with its cursor and margins on it. */
  ghost predicate ValidScreen(s: Screen) {
    && 0 < s.rows <= SIDE && 0 < s.cols <= SIDE && Shaped(s.cells, s.rows, s.cols)
    && 0 <= s.row < s.rows && 0 <= s.col < s.cols && s.top <= s.bottom < s.rows
  }

  /** The cell at a place; blank off the grid. */
  function At(g: seq<seq<Cell>>, r: int, c: int): Cell {
    if 0 <= r < |g| && 0 <= c < |g[r]| then g[r][c] else BLANK
  }

  ghost function Build(rows: nat, cols: nat, f: (nat, nat) -> Cell): (g: seq<seq<Cell>>)
    ensures Shaped(g, rows, cols) && forall r, c :: 0 <= r < rows && 0 <= c < cols ==> g[r][c] == f(r, c)
  {
    seq(rows, r requires 0 <= r < rows => seq(cols, c requires 0 <= c < cols => f(r, c)))
  }

  // ---- What the operations do to the grid ----

  /** Whether erasing part of the cursor's row takes a column: up to the cursor, all, or from the cursor. */
  predicate ErasesColumn(s: Screen, mode: nat, c: nat) {
    if mode == 1 then c <= s.col else if mode == 2 then true else c >= s.col
  }

  ghost function ClearedLine(s: Screen, mode: nat): Screen {
    s.(cells := Build(s.rows, s.cols, (r: nat, c: nat) => if r == s.row && ErasesColumn(s, mode, c) then BLANK else At(s.cells, r, c)))
  }

  /** Whether erasing part of the screen takes a cell: up to the cursor, all, or from the cursor. */
  predicate Erases(s: Screen, mode: nat, r: nat, c: nat) {
    if mode == 1 then r < s.row || (r == s.row && c <= s.col)
    else if mode == 2 || mode == 3 then true
    else r > s.row || (r == s.row && c >= s.col)
  }

  ghost function ClearedScreen(s: Screen, mode: nat): Screen {
    s.(cells := Build(s.rows, s.cols, (r: nat, c: nat) => if Erases(s, mode, r, c) then BLANK else At(s.cells, r, c)))
  }

  /** Rows top to bottom moved by n, blank ones coming in. */
  function MovedCell(g: seq<seq<Cell>>, top: nat, bottom: nat, n: nat, up: bool, r: nat, c: nat): Cell {
    if r < top || r > bottom then At(g, r, c)
    else if up then if r + n <= bottom then At(g, r + n, c) else BLANK
    else if r >= top + n then At(g, r - n, c) else BLANK
  }

  ghost function Scrolled(s: Screen, top: nat, n: nat, up: bool): Screen {
    s.(cells := Build(s.rows, s.cols, (r: nat, c: nat) => MovedCell(s.cells, top, s.bottom, n, up, r, c)))
  }

  /** The cursor's row from its column on, moved by n. */
  function ShiftedCell(s: Screen, n: nat, insert: bool, r: nat, c: nat): Cell {
    var k := Min(n, s.cols - s.col);
    if r != s.row || c < s.col then At(s.cells, r, c)
    else if insert then if c < s.col + k then BLANK else At(s.cells, r, c - k)
    else if c < s.cols - k then At(s.cells, r, c + k) else BLANK
  }

  ghost function Shifted(s: Screen, n: nat, insert: bool): Screen {
    s.(cells := Build(s.rows, s.cols, (r: nat, c: nat) => ShiftedCell(s, n, insert, r, c)))
  }

  ghost function Home(s: Screen): Screen {
    s.(row := 0, col := 0)
  }

  /** A row down, scrolling at the bottom margin, and up to it from below. */
  ghost function LineFed(s: Screen): Screen {
    if s.row + 1 > s.bottom then Scrolled(s, s.top, 1, true).(row := s.bottom) else s.(row := s.row + 1)
  }

  ghost function Written(s: Screen, ch: byte): Screen {
    s.(cells := Build(s.rows, s.cols, (r: nat, c: nat) => if r == s.row && c == s.col then Cell(ch, s.attr) else At(s.cells, r, c)))
  }

  /** A character, and the cursor on to the next place, the next row after the last column. */
  ghost function CharPut(s: Screen, ch: byte): Screen {
    var t := Written(s, ch);
    if s.col + 1 >= s.cols then LineFed(t.(col := 0)) else t.(col := s.col + 1)
  }

  // ---- Control sequences ----

  function OneIfZero(n: arg): arg {
    if n == 0 then 1 else n
  }

  /** The second parameter, or a default for none or 0. */
  function Second(params: seq<arg>, default: nat): nat {
    if |params| > 1 && params[1] != 0 then params[1] else default
  }

  /** Attributes in order: 7 reverses, 0 and 27 reset. */
  function Attribute(attr: byte, params: seq<arg>): byte
    decreases |params|
  {
    if params == [] then attr
    else Attribute(if params[0] == 7 then 1 else if params[0] == 0 || params[0] == 27 then 0 else attr, params[1..])
  }

  ghost function MarginsSet(s: Screen, top: nat, bottom: nat): Screen {
    var last := Min(bottom, s.rows - 1);
    if top < last then Home(s.(top := top, bottom := last)) else s
  }

  /** Lines inserted or deleted at the cursor's row, if that is between the margins. */
  ghost function LinesMoved(s: Screen, n: nat, up: bool): Screen {
    if s.row < s.top || s.row > s.bottom then s else Scrolled(s, s.row, n, up).(col := 0)
  }

  /** A row or column moved up or left, at most to the first. */
  function Back(at: int, n: arg): int {
    Max(0, Wrapped(at - n))
  }

  /** A row or column moved down or right, at most to the last of size: unless the sum is past what an int holds. */
  function Onward(at: int, n: arg, size: nat): int {
    Min(Wrapped(at + n), size - 1)
  }

  /** A row or column counted from 1, or the nearest. */
  function Place(n: nat, size: nat): int {
    Min(Max(0, n - 1), size - 1)
  }

  /** The cursor's move is within what an int holds. */
  predicate Fits(s: Screen, params: seq<arg>, final: byte)
    requires params != []
  {
    var n := OneIfZero(params[0]);
    && (final == 'B' as int || final == 'E' as int ==> s.row + n <= INT_MAX)
    && (final == 'C' as int ==> s.col + n <= INT_MAX)
  }

  ghost function Handled(s: Screen, params: seq<arg>, final: byte): (r: Screen)
    requires ValidScreen(s) && params != []
    ensures r.rows == s.rows && r.cols == s.cols && (ValidScreen(r) <==> Fits(s, params, final))
  {
    var n := OneIfZero(params[0]);
    if final == 'A' as int then s.(row := Back(s.row, n))
    else if final == 'B' as int then s.(row := Onward(s.row, n, s.rows))
    else if final == 'C' as int then s.(col := Onward(s.col, n, s.cols))
    else if final == 'D' as int then s.(col := Back(s.col, n))
    else if final == 'E' as int then s.(row := Onward(s.row, n, s.rows), col := 0)
    else if final == 'F' as int then s.(row := Back(s.row, n), col := 0)
    else if final == 'G' as int then s.(col := Place(n, s.cols))
    else if final == 'H' as int || final == 'f' as int then s.(row := Place(n, s.rows), col := Place(Second(params, 1), s.cols))
    else if final == 'J' as int then ClearedScreen(s, params[0])
    else if final == 'K' as int then ClearedLine(s, params[0])
    else if final == 'r' as int then MarginsSet(s, n - 1, Second(params, s.rows) - 1)
    else if final == 'S' as int then Scrolled(s, s.top, n, true)
    else if final == 'T' as int then Scrolled(s, s.top, n, false)
    else if final == 'L' as int then LinesMoved(s, n, false)
    else if final == 'M' as int then LinesMoved(s, n, true)
    else if final == '@' as int then Shifted(s, n, true)
    else if final == 'P' as int then Shifted(s, n, false)
    else if final == 'm' as int then s.(attr := Attribute(s.attr, params))
    else s
  }

  // ---- Bytes ----

  const PARAMS := 8

  /** Between sequences, after ESC, or in a sequence: its parameters, the digits of the next one, and a leading '?'. */
  datatype Parser = Ground | Escape | Csi(params: seq<arg>, value: Option<arg>, private: bool)

  datatype Terminal = Terminal(screen: Screen, parser: Parser)

  function WithValue(params: seq<arg>, value: Option<arg>): (r: seq<arg>)
    ensures r != []
  {
    if |params| >= PARAMS then params else params + [if value.None? then 0 else value.value]
  }

  /** A parameter with one more digit, as an int holds it; a negative number is none. */
  function WithDigit(value: Option<arg>, d: nat): Option<arg> {
    var x := Wrapped((if value.None? then 0 else value.value) * 10 + d);
    if x < 0 then None else Some(x)
  }

  ghost function GroundByte(s: Screen, ch: byte): Screen
    requires ValidScreen(s)
  {
    if ch == 0x0D then s.(col := 0)
    else if ch == 0x0A then LineFed(s)
    else if ch == 0x08 then s.(col := Max(0, s.col - 1))
    else if ch == 0x09 then s.(col := Min((s.col + 8) / 8 * 8, s.cols - 1))
    else if ch >= 0x20 then CharPut(s, ch)
    else s
  }

  function Digit(ch: byte): bool {
    '0' as int <= ch <= '9' as int
  }

  ghost function CsiByte(t: Terminal, ch: byte): Terminal
    requires ValidScreen(t.screen) && t.parser.Csi?
  {
    var p := t.parser;
    if ch == '?' as int && p.params == [] && p.value.None? then t.(parser := p.(private := true))
    else if Digit(ch) then t.(parser := p.(value := WithDigit(p.value, ch - '0' as int)))
    else if ch == ';' as int then t.(parser := p.(params := WithValue(p.params, p.value), value := None))
    else Terminal(if p.private then t.screen else Handled(t.screen, WithValue(p.params, p.value), ch), Ground)
  }

  ghost function Byte(t: Terminal, ch: byte): Terminal
    requires ValidScreen(t.screen)
  {
    match t.parser
    case Ground => if ch == ESC then t.(parser := Escape) else t.(screen := GroundByte(t.screen, ch))
    case Escape => t.(parser := if ch == '[' as int then Csi([], None, false) else Ground)
    case Csi(_, _, _) => CsiByte(t, ch)
  }

  // ---- Whether the cursor stays on the screen ----

  /** The move, if any, that a byte ends the sequence of is within what an int holds. */
  predicate ByteFits(t: Terminal, ch: byte) {
    match t.parser
    case Csi(params, value, private) =>
      private || Digit(ch) || ch == ';' as int || (ch == '?' as int && params == [] && value.None?)
      || Fits(t.screen, WithValue(params, value), ch)
    case _ => true
  }

  lemma ByteKeepsValid(t: Terminal, ch: byte)
    requires ValidScreen(t.screen)
    ensures var r := Byte(t, ch).screen;
      r.rows == t.screen.rows && r.cols == t.screen.cols && (ValidScreen(r) <==> ByteFits(t, ch))
  {
    hide Handled, Fits;
  }

  /** Bytes, as long as the cursor is on the screen: after that the code works outside its cells. */
  ghost function Fed(t: Terminal, bytes: seq<byte>): (r: Terminal)
    decreases |bytes|
  {
    if bytes == [] || !ValidScreen(t.screen) then t else Fed(Byte(t, bytes[0]), bytes[1..])
  }

  /** Every move among the bytes is within what an int holds. */
  ghost predicate AllFit(t: Terminal, bytes: seq<byte>)
    requires ValidScreen(t.screen)
    decreases |bytes|
  {
    bytes == [] || (
      ByteKeepsValid(t, bytes[0]);
      ByteFits(t, bytes[0]) && AllFit(Byte(t, bytes[0]), bytes[1..]))
  }

  /** Whatever bytes come, the cursor and the margins stay on the screen, and the screen its size, exactly if no move down
      or right gets past what an int holds. */
  lemma {:induction false} StaysOnScreen(t: Terminal, bytes: seq<byte>)
    requires ValidScreen(t.screen)
    ensures var r := Fed(t, bytes).screen;
      r.rows == t.screen.rows && r.cols == t.screen.cols && (ValidScreen(r) <==> AllFit(t, bytes))
    decreases |bytes|
  {
    hide Byte, ByteFits;
    if bytes != [] {
      ByteKeepsValid(t, bytes[0]);
      if ByteFits(t, bytes[0]) {
        StaysOnScreen(Byte(t, bytes[0]), bytes[1..]);
      }
    }
  }

  function Ten(k: nat): (p: nat)
    ensures p > 0
  {
    if k == 0 then 1 else 10 * Ten(k - 1)
  }

  /** After k digits, there are never ten digits in a row. */
  predicate ShortNumbers(bytes: seq<byte>, k: nat)
    decreases |bytes|
  {
    bytes == [] || if Digit(bytes[0]) then k < 9 && ShortNumbers(bytes[1..], k + 1) else ShortNumbers(bytes[1..], 0)
  }

  /** The parser's numbers are of nine digits at most, the next one of k so far. */
  ghost predicate Small(p: Parser, k: nat) {
    p.Csi? ==> (forall i :: 0 <= i < |p.params| ==> p.params[i] < Ten(9)) && (p.value.Some? ==> p.value.value < Ten(k))
  }

  lemma Billion()
    ensures Ten(9) == 1000000000
  {
    assert Ten(4) == 10000;
  }

  lemma {:induction false} TenGrows(k: nat, n: nat)
    requires k <= n
    ensures Ten(k) <= Ten(n)
    decreases n
  {
    if k < n {
      TenGrows(k, n - 1);
    }
  }

  lemma ByteSmall(t: Terminal, ch: byte, k: nat)
    requires ValidScreen(t.screen) && Small(t.parser, k) && k <= 9 && (Digit(ch) ==> k < 9)
    ensures ByteFits(t, ch) && Small(Byte(t, ch).parser, if Digit(ch) then k + 1 else 0)
  {
    hide Handled, GroundByte, Wrapped;
    Billion();
    TenGrows(k, 9);
    TenGrows(k + 1, 10);
    if Digit(ch) {
      TenGrows(k + 1, 9);
    }
  }

  /** No stream without ten digits in a row takes the cursor off the screen. */
  lemma {:induction false} ShortNumbersFit(t: Terminal, bytes: seq<byte>, k: nat)
    requires ValidScreen(t.screen) && Small(t.parser, k) && k <= 9 && ShortNumbers(bytes, k)
    ensures ValidScreen(Fed(t, bytes).screen)
    decreases |bytes|
  {
    hide Byte, ByteFits, Small;
    if bytes != [] {
      ByteSmall(t, bytes[0], k);
      ByteKeepsValid(t, bytes[0]);
      ShortNumbersFit(Byte(t, bytes[0]), bytes[1..], if Digit(bytes[0]) then k + 1 else 0);
    }
  }

  lemma {:induction false} FedJoined(t: Terminal, a: seq<byte>, b: seq<byte>)
    ensures Fed(t, a + b) == Fed(Fed(t, a), b)
    decreases |a|
  {
    if a == [] {
      assert a + b == b;
    } else if ValidScreen(t.screen) {
      FedJoined(Byte(t, a[0]), a[1..], b);
      assert (a + b)[1..] == a[1..] + b;
    }
  }

  lemma OneByte(t: Terminal, ch: byte)
    requires ValidScreen(t.screen)
    ensures Fed(t, [ch]) == Byte(t, ch)
  {
    assert [ch][1..] == [];
  }

  // ---- Numbers and the start of a sequence ----

  const START := [ESC, '[' as int]

  lemma Started(s: Screen)
    requires ValidScreen(s)
    ensures Fed(Terminal(s, Ground), START) == Terminal(s, Csi([], None, false))
  {
    FedJoined(Terminal(s, Ground), [ESC], ['[' as int]);
    OneByte(Terminal(s, Ground), ESC);
    OneByte(Terminal(s, Escape), '[' as int);
  }

  function Decimal(n: nat): (b: seq<byte>)
    ensures b != []
  {
    if n < 10 then ['0' as int + n] else Decimal(n / 10) + ['0' as int + n % 10]
  }

  /** A number in decimal is read as itself, if an int holds it. */
  lemma {:induction false} DecimalRead(s: Screen, params: seq<arg>, private: bool, n: arg)
    requires ValidScreen(s)
    ensures Fed(Terminal(s, Csi(params, None, private)), Decimal(n)) == Terminal(s, Csi(params, Some(n), private))
    decreases n
  {
    hide Handled, Wrapped;
    var t := Terminal(s, Csi(params, None, private));
    if n >= 10 {
      DecimalRead(s, params, private, n / 10);
      FedJoined(t, Decimal(n / 10), ['0' as int + n % 10]);
      OneByte(Fed(t, Decimal(n / 10)), '0' as int + n % 10);
    } else {
      OneByte(t, '0' as int + n);
    }
  }

  /** The longest move down an int holds takes the cursor off the screen from any row but the first. */
  lemma LongMoveLeaves(s: Screen)
    requires ValidScreen(s) && s.row > 0
    ensures var r := Fed(Terminal(s, Ground), [0x1B, '[' as int] + Decimal(0x7FFF_FFFF) + ['B' as int]);
      r == Terminal(s.(row := s.row - INT_MAX - 2), Ground) && r.screen.row < 0
  {
    hide Decimal;
    var t := Terminal(s, Ground);
    Started(s);
    FedJoined(t, START, Decimal(INT_MAX));
    DecimalRead(s, [], false, INT_MAX);
    FedJoined(t, START + Decimal(INT_MAX), ['B' as int]);
    OneByte(Terminal(s, Csi([], Some(INT_MAX), false)), 'B' as int);
    assert WithValue([], Some(INT_MAX)) == [INT_MAX];
  }

  // ---- What the sequences and characters mean ----

  /** A character prints as itself, in the attribute, and the cursor moves on. */
  ghost predicate WrittenOn(s: Screen, t: Screen, chars: seq<byte>)
    requires ValidScreen(s)
  {
    && t == s.(cells := t.cells, col := s.col + |chars|) && Shaped(t.cells, s.rows, s.cols)
    && forall r, c :: 0 <= r < s.rows && 0 <= c < s.cols ==>
         t.cells[r][c] == if r == s.row && s.col <= c < s.col + |chars| then Cell(chars[c - s.col], s.attr) else s.cells[r][c]
  }

  /** Characters that the row has room for appear in it one after another; nothing else changes. */
  lemma {:induction false} LineWritten(s: Screen, chars: seq<byte>)
    requires ValidScreen(s) && s.col + |chars| < s.cols && forall i :: 0 <= i < |chars| ==> chars[i] >= 0x20
    ensures var t := Fed(Terminal(s, Ground), chars); t.parser == Ground && WrittenOn(s, t.screen, chars)
    decreases |chars|
  {
    hide Handled, CharPut, WrittenOn, CsiByte;
    if chars != [] {
      var n := |chars| - 1;
      LineWritten(s, chars[..n]);
      var t := Fed(Terminal(s, Ground), chars[..n]);
      StillOnScreen(s, t.screen, chars[..n]);
      OneByte(t, chars[n]);
      FedJoined(Terminal(s, Ground), chars[..n], [chars[n]]);
      assert chars == chars[..n] + [chars[n]];
      NextWritten(s, t.screen, chars[..n], chars[n]);
    } else {
      NoneWritten(s);
    }
  }

  lemma StillOnScreen(s: Screen, t: Screen, chars: seq<byte>)
    requires ValidScreen(s) && WrittenOn(s, t, chars) && s.col + |chars| < s.cols
    ensures ValidScreen(t) && t.rows == s.rows && t.cols == s.cols && t.col == s.col + |chars|
  {
  }

  lemma NoneWritten(s: Screen)
    requires ValidScreen(s)
    ensures WrittenOn(s, s, [])
  {
  }

  lemma NextWritten(s: Screen, t: Screen, chars: seq<byte>, ch: byte)
    requires ValidScreen(s) && ValidScreen(t) && WrittenOn(s, t, chars) && s.col + |chars| + 1 < s.cols
    ensures WrittenOn(s, CharPut(t, ch), chars + [ch])
  {
  }

  /** A relative move and its opposite, where neither meets an edge, bring the cursor back. */
  lemma RowMovesUndone(s: Screen, n: arg)
    requires ValidScreen(s) && n > 0
    ensures n <= s.row ==> Handled(Handled(s, [n], 'A' as int), [n], 'B' as int) == s
    ensures s.row + n < s.rows ==> Handled(Handled(s, [n], 'B' as int), [n], 'A' as int) == s
    ensures n <= s.row ==> Handled(Handled(s, [n], 'F' as int), [n], 'E' as int) == s.(col := 0)
  {
  }

  lemma ColumnMovesUndone(s: Screen, n: arg)
    requires ValidScreen(s) && n > 0
    ensures n <= s.col ==> Handled(Handled(s, [n], 'D' as int), [n], 'C' as int) == s
    ensures s.col + n < s.cols ==> Handled(Handled(s, [n], 'C' as int), [n], 'D' as int) == s
    ensures Handled(s, [s.col + 1], 'G' as int) == s
  {
  }
}
