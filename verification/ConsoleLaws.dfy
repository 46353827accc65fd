/** What the terminal's control characters and sequences do, in rows, columns and cells. */
module ConsoleLaws {
  import opened Words
  import opened Console
  import opened DirectIo

  // ---- Erasing ----

  /** The cell is the cursor's or after it, in reading order; or the cursor's or before it. */
  predicate From(s: Screen, r: nat, c: nat) {
    r > s.row || (r == s.row && c >= s.col)
  }

  predicate To(s: Screen, r: nat, c: nat) {
    r < s.row || (r == s.row && c <= s.col)
  }

  function Erased(s: Screen, gone: bool, r: nat, c: nat): Cell {
    if gone then SPACE else At(s.cells, r, c)
  }

  /** J erases from the cursor on, up to it, or all; K the same of the cursor's row. */
  lemma Erases(s: Screen, r: nat, c: nat)
    requires ValidScreen(s) && r < s.rows && c < s.cols
    ensures Handled(s, [0], 'J' as int).cells[r][c] == Erased(s, From(s, r, c), r, c)
    ensures Handled(s, [1], 'J' as int).cells[r][c] == Erased(s, To(s, r, c), r, c)
    ensures Handled(s, [2], 'J' as int).cells[r][c] == Handled(s, [3], 'J' as int).cells[r][c] == SPACE
    ensures Handled(s, [0], 'K' as int).cells[r][c] == Erased(s, r == s.row && c >= s.col, r, c)
    ensures Handled(s, [1], 'K' as int).cells[r][c] == Erased(s, r == s.row && c <= s.col, r, c)
    ensures Handled(s, [2], 'K' as int).cells[r][c] == Erased(s, r == s.row, r, c)
  {
    hide Handled, ClearedScreen, ClearedLine;
    HandledErases(s, 0);
    HandledErases(s, 1);
    HandledErases(s, 2);
    HandledErases(s, 3);
    ClearedCell(s, 0, r, c);
    ClearedCell(s, 1, r, c);
    ClearedCell(s, 2, r, c);
    ClearedCell(s, 3, r, c);
  }

  lemma ClearedCell(s: Screen, mode: nat, r: nat, c: nat)
    requires ValidScreen(s) && r < s.rows && c < s.cols && mode < 4
    ensures ClearedScreen(s, mode).cells[r][c] ==
      Erased(s, if mode == 0 then From(s, r, c) else if mode == 1 then To(s, r, c) else true, r, c)
    ensures ClearedLine(s, mode).cells[r][c] ==
      Erased(s, r == s.row && if mode == 1 then c <= s.col else if mode == 2 then true else c >= s.col, r, c)
  {
  }

  lemma HandledErases(s: Screen, mode: arg)
    requires ValidScreen(s)
    ensures Handled(s, [mode], 'J' as int) == ClearedScreen(s, mode) && Handled(s, [mode], 'K' as int) == ClearedLine(s, mode)
  {
    hide ClearedScreen, ClearedLine;
  }

  // ---- Moves ----

  /** A and B move up and down, D and C left and right, E and F down and up to the first column, at most to the edge; G goes
      to a column and H to a row and column, counted from 1, or the nearest. A move down or right is taken here to be
      within what an int holds. */
  lemma Moves(s: Screen, n: arg, k: arg)
    requires ValidScreen(s) && n > 0 && k > 0 && s.row + n <= INT_MAX && s.col + n <= INT_MAX
    ensures var up, down := (if n <= s.row then s.row - n else 0), if s.row + n < s.rows then s.row + n else s.rows - 1;
      && Handled(s, [n], 'A' as int) == s.(row := up) && Handled(s, [n], 'F' as int) == s.(row := up, col := 0)
      && Handled(s, [n], 'B' as int) == s.(row := down) && Handled(s, [n], 'E' as int) == s.(row := down, col := 0)
    ensures Handled(s, [n], 'D' as int) == s.(col := if n <= s.col then s.col - n else 0)
    ensures Handled(s, [n], 'C' as int) == s.(col := if s.col + n < s.cols then s.col + n else s.cols - 1)
    ensures var row, col, across := (if n <= s.rows then n - 1 else s.rows - 1), (if k <= s.cols then k - 1 else s.cols - 1),
                                    if n <= s.cols then n - 1 else s.cols - 1;
      && Handled(s, [n], 'G' as int) == s.(col := across)
      && Handled(s, [n, k], 'H' as int) == Handled(s, [n, k], 'f' as int) == s.(row := row, col := col)
      && Handled(s, [n], 'H' as int) == s.(row := row, col := 0)
  {
  }

  /** A parameter of 0 is 1 in all of these. */
  lemma ZeroIsOne(s: Screen, final: byte)
    requires ValidScreen(s) && 'A' as int <= final <= 'H' as int
    ensures Handled(s, [0], final) == Handled(s, [1], final) && Handled(s, [0, 0], final) == Handled(s, [1, 1], final)
  {
  }

  // ---- Characters ----

  /** Only the cursor's cell changes. */
  ghost predicate OnlyHere(s: Screen, t: Screen, cell: Cell)
    requires ValidScreen(s) && ValidScreen(t) && t.rows == s.rows && t.cols == s.cols
  {
    forall r, c :: 0 <= r < s.rows && 0 <= c < s.cols ==>
      t.cells[r][c] == if r == s.row && c == s.col then cell else s.cells[r][c]
  }

  /** CR goes to the first column, BS a column left, and a tab to the next column that is a multiple of 8, or the last. */
  lemma Controls(s: Screen)
    requires ValidScreen(s)
    ensures GroundByte(s, 0x0D) == s.(col := 0)
    ensures GroundByte(s, 0x08) == s.(col := if s.col > 0 then s.col - 1 else 0)
    ensures var t := GroundByte(s, 0x09);
      && t == s.(col := t.col)
      && ((t.col % 8 == 0 && s.col < t.col <= s.col + 8) || (t.col == s.cols - 1 && s.col / 8 == (s.cols - 1) / 8))
  {
  }

  /** LF goes a row down; from the bottom margin, or below, the rows between the margins go up instead. */
  lemma LineFeeds(s: Screen, r: nat, c: nat)
    requires ValidScreen(s) && r < s.rows && c < s.cols
    ensures var t := GroundByte(s, 0x0A);
      && ValidScreen(t) && t == s.(cells := t.cells, row := t.row) && t.rows == s.rows && t.cols == s.cols
      && if s.row < s.bottom then t == s.(row := s.row + 1)
         else t.row == s.bottom && t.cells[r][c] == RowsMoved(s, s.top, s.bottom, 1, true, r, c)
  {
  }

  /** A character goes into the cursor's cell, in the video, and the cursor a column right; from the last column to the
      first of the next row, as by LF. Other bytes below a space do nothing. */
  lemma Characters(s: Screen, ch: byte)
    requires ValidScreen(s)
    ensures ch >= 0x20 ==> exists u: Screen ::
      && ValidScreen(u) && u == s.(cells := u.cells) && OnlyHere(s, u, Cell(ch, s.attr))
      && GroundByte(s, ch) == if s.col + 1 < s.cols then u.(col := s.col + 1) else GroundByte(u.(col := 0), 0x0A)
    ensures ch < 0x20 && ch != 0x0D && ch != 0x0A && ch != 0x08 && ch != 0x09 ==> GroundByte(s, ch) == s
  {
    hide LineFed;
    var u := Written(s, ch);
    assert ValidScreen(u) && OnlyHere(s, u, Cell(ch, s.attr));
  }

  // ---- Video ----

  /** The video is what the last of 7 (reverse), 0 or 27 (normal) says. */
  lemma {:induction false} Video(s: Screen, params: seq<arg>, p: arg)
    requires ValidScreen(s)
    ensures var before := if params == [] then s else Handled(s, params, 'm' as int);
      Handled(s, params + [p], 'm' as int) ==
      before.(attr := if p == 7 then 1 else if p == 0 || p == 27 then 0 else before.attr)
  {
    AttributeOfMore(s.attr, params, p);
  }

  lemma {:induction false} AttributeOfMore(attr: byte, params: seq<arg>, p: arg)
    ensures Attribute(attr, params + [p]) ==
      if p == 7 then 1 else if p == 0 || p == 27 then 0 else Attribute(attr, params)
    decreases |params|
  {
    if params == [] {
      assert [p][1..] == [];
    } else {
      assert (params + [p])[1..] == params[1..] + [p];
      var next: byte := if params[0] == 7 then 1 else if params[0] == 0 || params[0] == 27 then 0 else attr;
      AttributeOfMore(next, params[1..], p);
      assert Attribute(attr, params) == Attribute(next, params[1..]);
    }
  }

  // ---- Sequences ----

  /** A sequence that starts with '?' does nothing, and neither does one with another last letter. */
  lemma OthersIgnored(s: Screen, params: seq<arg>, value: Option<arg>, ch: byte)
    requires ValidScreen(s) && !Digit(ch) && ch != ';' as int && ch != '?' as int
    ensures Byte(Terminal(s, Csi(params, value, true)), ch) == Terminal(s, Ground)
  {
    hide Handled;
  }

  // ---- Parameters ----

  function Digits(p: Option<arg>): seq<byte> {
    if p.None? then [] else Decimal(p.value)
  }

  /** Parameters in decimal, some left out, with semicolons between. */
  function ParamText(ps: seq<Option<arg>>): seq<byte> {
    if ps == [] then []
    else if |ps| == 1 then Digits(ps[0])
    else ParamText(ps[..|ps| - 1]) + [';' as int] + Digits(ps[|ps| - 1])
  }

  /** The first eight, one left out as 0. */
  function FirstEight(ps: seq<Option<arg>>): (r: seq<arg>)
    ensures |r| == Min(|ps|, 8)
  {
    seq(Min(|ps|, 8), i requires 0 <= i < Min(|ps|, 8) => if ps[i].None? then 0 else ps[i].value)
  }

  lemma OneMore(ps: seq<Option<arg>>)
    requires ps != []
    ensures WithValue(FirstEight(ps[..|ps| - 1]), ps[|ps| - 1]) == FirstEight(ps)
  {
  }

  lemma DigitsRead(s: Screen, params: seq<arg>, p: Option<arg>)
    requires ValidScreen(s)
    ensures Fed(Terminal(s, Csi(params, None, false)), Digits(p)) == Terminal(s, Csi(params, p, false))
  {
    hide Decimal, Handled;
    if p.Some? {
      DecimalRead(s, params, false, p.value);
    }
  }

  lemma {:induction false} ParamsRead(s: Screen, ps: seq<Option<arg>>)
    requires ValidScreen(s) && ps != []
    ensures Fed(Terminal(s, Csi([], None, false)), ParamText(ps)) ==
      Terminal(s, Csi(FirstEight(ps[..|ps| - 1]), ps[|ps| - 1], false))
    decreases |ps|
  {
    hide Handled, Fed, Digits, FirstEight, WithValue;
    var t, n := Terminal(s, Csi([], None, false)), |ps| - 1;
    if n == 0 {
      assert FirstEight(ps[..n]) == [];
      DigitsRead(s, [], ps[0]);
    } else {
      ParamsRead(s, ps[..n]);
      OneMore(ps[..n]);
      var u := Terminal(s, Csi(FirstEight(ps[..n][..n - 1]), ps[..n][n - 1], false));
      FedJoined(t, ParamText(ps[..n]) + [';' as int], Digits(ps[n]));
      FedJoined(t, ParamText(ps[..n]), [';' as int]);
      OneByte(u, ';' as int);
      DigitsRead(s, FirstEight(ps[..n]), ps[n]);
    }
  }

  /** A sequence is ESC, [, its parameters and its last letter: it is handled with the first eight of them, and the parser is
      between sequences again. */
  lemma SequenceRead(s: Screen, ps: seq<Option<arg>>, final: byte)
    requires ValidScreen(s) && ps != [] && !Digit(final) && final != ';' as int && final != '?' as int
    ensures Fed(Terminal(s, Ground), [0x1B, '[' as int] + ParamText(ps) + [final]) ==
      Terminal(Handled(s, FirstEight(ps), final), Ground)
  {
    hide Handled, Fed, FirstEight, WithValue, ParamText;
    Started(s);
    ParamsRead(s, ps);
    OneMore(ps);
    var t := Terminal(s, Ground);
    FedJoined(t, [0x1B, '[' as int], ParamText(ps));
    FedJoined(t, [0x1B, '[' as int] + ParamText(ps), [final]);
    OneByte(Terminal(s, Csi(FirstEight(ps[..|ps| - 1]), ps[|ps| - 1], false)), final);
  }

  /** ESC and anything but [ is nothing. */
  lemma LoneEscape(s: Screen, ch: byte)
    requires ValidScreen(s) && ch != '[' as int
    ensures Fed(Terminal(s, Ground), [0x1B, ch]) == Terminal(s, Ground)
  {
    assert [0x1B, ch][1..] == [ch];
    OneByte(Terminal(s, Escape), ch);
  }
}
