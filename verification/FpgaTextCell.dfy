/** A text cell on the display: its pixels, and the display's state as they are drawn. */
module TextCells {
  import opened Words
  import opened Grids
  import P = Ili9341
  import T = FpgaText

  const ROWS := T.ROWS
  const COLS := T.COLS
  const MADCTL_TEXT: byte := 0xA8
  const CELL_W := 12
  const CELL_H := 16
  const CURSOR_ROWS := 2
  const REVERSE := 0x100
  const CURSOR := 0x200

  /** The pixels of a code's column, the top one the lowest bit. */
  type Font = (byte, nat) -> bv16

  // ---- A cell's pixels ----

  function Code(cell: nat): byte { cell % 0x100 }
  predicate Reversed(cell: nat) { cell / REVERSE % 2 == 1 }
  predicate UnderCursor(cell: nat) { cell / CURSOR % 2 == 1 }

  function Inversion(reversed: bool, underCursor: bool): bv16 {
    (if reversed then 0xFFFF else 0) ^ (if underCursor then 0xFFFF << (CELL_H - CURSOR_ROWS) else 0)
  }

  predicate Bit(column: bv16, y: nat)
    requires y < CELL_H
  {
    (column >> y) & 1 == 1
  }

  function Colour(lit: bool): word {
    if lit then 0xFFFF else 0x0000
  }

  /** The pixel a cell has at x, y of it. */
  function CellPixel(font: Font, cell: nat, x: nat, y: nat): word
    requires x < CELL_W && y < CELL_H
  {
    Colour(Bit(font(Code(cell), x) ^ Inversion(Reversed(cell), UnderCursor(cell)), y))
  }

  /** A cell shows its glyph, inverted in reverse video, the bottom rows inverted again under the cursor. */
  lemma CellPixelMeaning(font: Font, cell: nat, x: nat, y: nat)
    requires x < CELL_W && y < CELL_H
    ensures CellPixel(font, cell, x, y) ==
      if (Bit(font(Code(cell), x), y) != Reversed(cell)) != (UnderCursor(cell) && y >= CELL_H - CURSOR_ROWS) then 0xFFFF else 0
  {
    BitInverted(font(Code(cell), x), Reversed(cell), UnderCursor(cell), y);
  }

  lemma BitInverted(glyph: bv16, reversed: bool, underCursor: bool, y: nat)
    requires y < CELL_H
    ensures Bit(glyph ^ Inversion(reversed, underCursor), y) ==
      ((Bit(glyph, y) != reversed) != (underCursor && y >= CELL_H - CURSOR_ROWS))
  {
    BitOfXor(glyph, Inversion(reversed, underCursor), y);
    InversionBit(reversed, underCursor, y);
  }

  lemma BitOfXor(a: bv16, b: bv16, y: nat)
    requires y < CELL_H
    ensures Bit(a ^ b, y) == (Bit(a, y) != Bit(b, y))
  {
    assert ((a ^ b) >> y) == (a >> y) ^ (b >> y);
    var s, u := a >> y, b >> y;
    assert (s ^ u) & 1 == (s & 1) ^ (u & 1);
  }

  lemma InversionBit(reversed: bool, underCursor: bool, y: nat)
    requires y < CELL_H
    ensures Bit(Inversion(reversed, underCursor), y) == (reversed != (underCursor && y >= CELL_H - CURSOR_ROWS))
  {
    assert forall k: nat :: k < 16 ==> Bit(0xFFFF, k) && !Bit(0, k);
    assert forall k: nat :: k < 16 ==> (Bit(0xC000, k) <==> k >= 14);
    assert forall k: nat :: k < 16 ==> (Bit(0x3FFF, k) <==> k < 14);
  }

  // ---- Painting a cell ----

  /** The display's memory has, at memory row m and column c, pixel x, y of a cell. */
  ghost function At(memory: seq<seq<word>>, m: nat, c: nat, x: nat, y: nat): word
    requires Shaped(memory, P.LINES, P.WIDTH) && m < ROWS && c < COLS && x < CELL_W && y < CELL_H
  {
    memory[P.LINES - 1 - (m * CELL_H + y)][c * CELL_W + x]
  }

  /** The memory once a cell's first n pixels, column by column, are written. */
  ghost function PaintedMemory(font: Font, memory: seq<seq<word>>, m: nat, c: nat, cell: nat, n: nat): (r: seq<seq<word>>)
    requires Shaped(memory, P.LINES, P.WIDTH) && m < ROWS && c < COLS && n <= CELL_W * CELL_H
    ensures Shaped(r, P.LINES, P.WIDTH)
  {
    seq(P.LINES, l requires 0 <= l < P.LINES => seq(P.WIDTH, i requires 0 <= i < P.WIDTH =>
      PaintedPixel(font, m, c, cell, n, l, i, memory[l][i])))
  }

  /** The pixel at i of line l, v before, once a cell's first n pixels are written. */
  function PaintedPixel(font: Font, m: nat, c: nat, cell: nat, n: nat, l: nat, i: nat, v: word): word {
    var x, y := i - c * CELL_W, P.LINES - 1 - l - m * CELL_H;
    if 0 <= x < CELL_W && 0 <= y < CELL_H && x * CELL_H + y < n then CellPixel(font, cell, x, y) else v
  }

  /** The window of the cell at memory row m, column c, n pixels written: its columns are the memory row's lines. */
  function CellWindow(m: nat, c: nat, n: nat): P.Window
    requires m < ROWS && c < COLS && n <= CELL_W * CELL_H
  {
    P.Window(m * CELL_H, m * CELL_H + CELL_H - 1, c * CELL_W, c * CELL_W + CELL_W - 1,
             m * CELL_H + n % CELL_H, if n == CELL_W * CELL_H then c * CELL_W else c * CELL_W + n / CELL_H)
  }

  /** The display with a cell's first n pixels drawn. A display in reset ignores what it receives. */
  ghost function Painted(font: Font, p: P.Panel, m: nat, c: nat, cell: nat, n: nat): (r: P.Panel)
    requires P.ValidPanel(p) && m < ROWS && c < COLS && n <= CELL_W * CELL_H
    ensures P.ValidPanel(r)
  {
    if p.inReset then p
    else p.(command := P.RAMWR, params := [], pending := None, window := CellWindow(m, c, n),
            memory := PaintedMemory(font, p.memory, m, c, cell, n))
  }

  /** The display takes its pixels as text mode has them: through the orientation Michael's driver uses, or not at
      all. */
  predicate Ready(p: P.Panel) {
    p.inReset || p.madctl == MADCTL_TEXT
  }

  /** A pixel sent as its two bytes. */
  ghost function SendWord(p: P.Panel, w: int): (r: P.Panel)
    requires P.ValidPanel(p)
    ensures P.ValidPanel(r)
  {
    P.KeepsValid(p, High(w), true);
    P.KeepsValid(P.Data(p, High(w)), Low(w), true);
    P.Data(P.Data(p, High(w)), Low(w))
  }

  lemma JoinParts(w: word)
    ensures Join(High(w), Low(w)) == w
  {
  }

  lemma SendPixel(p: P.Panel, v: word)
    requires P.ValidPanel(p) && !p.inReset && p.command == P.RAMWR && p.pending == None
    ensures SendWord(p, v) == P.WritePixel(p, v).(pending := None)
  {
    JoinParts(v);
  }

  lemma WriteThroughTextMode(p: P.Panel, v: word)
    requires P.ValidPanel(p) && p.madctl == MADCTL_TEXT
    requires 0 <= P.TargetLine(p.window, MADCTL_TEXT) < P.LINES && 0 <= P.TargetX(p.window, MADCTL_TEXT) < P.WIDTH
    ensures P.WritePixel(p, v) ==
      p.(memory := Put(p.memory, P.TargetLine(p.window, MADCTL_TEXT), P.TargetX(p.window, MADCTL_TEXT), v),
         window := P.Advance(p.window))
  {
  }

  lemma CellWindowAdvances(m: nat, c: nat, x: nat, y: nat)
    requires m < ROWS && c < COLS && x < CELL_W && y < CELL_H
    ensures P.Advance(CellWindow(m, c, x * CELL_H + y)) == CellWindow(m, c, x * CELL_H + y + 1)
    ensures P.TargetLine(CellWindow(m, c, x * CELL_H + y), MADCTL_TEXT) == P.LINES - 1 - (m * CELL_H + y)
    ensures P.TargetX(CellWindow(m, c, x * CELL_H + y), MADCTL_TEXT) == c * CELL_W + x
  {
  }

  lemma PaintedMemoryStep(font: Font, memory: seq<seq<word>>, m: nat, c: nat, cell: nat, x: nat, y: nat)
    requires Shaped(memory, P.LINES, P.WIDTH) && m < ROWS && c < COLS && x < CELL_W && y < CELL_H
    ensures Put(PaintedMemory(font, memory, m, c, cell, x * CELL_H + y),
                P.LINES - 1 - (m * CELL_H + y), c * CELL_W + x, CellPixel(font, cell, x, y)) ==
      PaintedMemory(font, memory, m, c, cell, x * CELL_H + y + 1)
  {
    var n, v := x * CELL_H + y, CellPixel(font, cell, x, y);
    var a := Put(PaintedMemory(font, memory, m, c, cell, n), P.LINES - 1 - (m * CELL_H + y), c * CELL_W + x, v);
    SameGrid(a, PaintedMemory(font, memory, m, c, cell, n + 1), P.LINES, P.WIDTH);
  }

  lemma PixelIgnored(p: P.Panel, v: word)
    requires P.ValidPanel(p) && p.inReset
    ensures SendWord(p, v) == p
  {
  }

  /** A pixel sent to the cell's window lands where the next pixel of the cell belongs. */
  lemma PaintStep(font: Font, p: P.Panel, m: nat, c: nat, cell: nat, x: nat, y: nat)
    requires P.ValidPanel(p) && Ready(p) && m < ROWS && c < COLS && x < CELL_W && y < CELL_H
    ensures SendWord(Painted(font, p, m, c, cell, x * CELL_H + y), CellPixel(font, cell, x, y)) ==
      Painted(font, p, m, c, cell, x * CELL_H + y + 1)
  {
    hide PaintedMemory, SendWord, P.WritePixel, P.Advance, P.TargetLine, P.TargetX, CellPixel, CellWindow;
    if !p.inReset {
      var n, v := x * CELL_H + y, CellPixel(font, cell, x, y);
      var q := Painted(font, p, m, c, cell, n);
      SendPixel(q, v);
      CellWindowAdvances(m, c, x, y);
      WriteThroughTextMode(q, v);
      PaintedMemoryStep(font, p.memory, m, c, cell, x, y);
      var next := Painted(font, p, m, c, cell, n + 1);
      assert next == q.(memory := next.memory, window := next.window);
    } else {
      PixelIgnored(p, CellPixel(font, cell, x, y));
    }
  }

  /** A drawn cell holds its pixels, and drawing it touches no other cell. */
  lemma PaintedAt(font: Font, memory: seq<seq<word>>, m: nat, c: nat, cell: nat, m': nat, c': nat, x: nat, y: nat)
    requires Shaped(memory, P.LINES, P.WIDTH) && m < ROWS && c < COLS
    requires m' < ROWS && c' < COLS && x < CELL_W && y < CELL_H
    ensures At(PaintedMemory(font, memory, m, c, cell, CELL_W * CELL_H), m', c', x, y) ==
      if m' == m && c' == c then CellPixel(font, cell, x, y) else At(memory, m', c', x, y)
  {
  }

  // ---- The display's commands with their words ----

  ghost function WordsSent(p: P.Panel, w: seq<int>): (r: P.Panel)
    requires P.ValidPanel(p)
    ensures P.ValidPanel(r)
  {
    if w == [] then p else SendWord(WordsSent(p, w[..|w| - 1]), w[|w| - 1])
  }

  ghost function CommandSent(p: P.Panel, command: byte, w: seq<int>): (r: P.Panel)
    requires P.ValidPanel(p)
    ensures P.ValidPanel(r)
  {
    P.KeepsValid(p, command, true);
    WordsSent(P.Command(p, command), w)
  }

  lemma {:induction false} IgnoredInReset(p: P.Panel, command: byte, w: seq<int>)
    requires P.ValidPanel(p) && p.inReset
    ensures CommandSent(p, command, w) == p && WordsSent(p, w) == p
  {
    if w != [] {
      IgnoredInReset(p, command, w[..|w| - 1]);
    }
  }

  lemma TwoWords(p: P.Panel, a: word, b: word)
    requires P.ValidPanel(p) && !p.inReset && p.params == [] && (p.command == P.CASET || p.command == P.PASET)
    ensures WordsSent(p, [a, b]) ==
      p.(params := [High(a), Low(a), High(b), Low(b)],
         window := if p.command == P.CASET then p.window.(sc := a, ec := b) else p.window.(sp := a, ep := b))
  {
    JoinParts(a);
    JoinParts(b);
    assert [a, b][..1] == [a] && [a][..0] == [];
    assert WordsSent(p, []) == p;
    assert WordsSent(p, [a]) == p.(params := [High(a), Low(a)]);
  }

  /** CASET and PASET set the cell's window, and RAMWR starts in its corner. */
  lemma WindowOpened(font: Font, p: P.Panel, m: nat, c: nat, cell: nat)
    requires P.ValidPanel(p) && m < ROWS && c < COLS
    ensures var q := CommandSent(p, P.CASET, [m * CELL_H, m * CELL_H + CELL_H - 1]);
      var r := CommandSent(q, P.PASET, [c * CELL_W, c * CELL_W + CELL_W - 1]);
      P.Command(r, P.RAMWR) == Painted(font, p, m, c, cell, 0)
  {
    var columns, pages := [m * CELL_H, m * CELL_H + CELL_H - 1], [c * CELL_W, c * CELL_W + CELL_W - 1];
    if p.inReset {
      IgnoredInReset(p, P.CASET, columns);
      IgnoredInReset(p, P.PASET, pages);
    } else {
      TwoWords(P.Command(p, P.CASET), columns[0], columns[1]);
      var q := CommandSent(p, P.CASET, columns);
      TwoWords(P.Command(q, P.PASET), pages[0], pages[1]);
      SameGrid(p.memory, PaintedMemory(font, p.memory, m, c, cell, 0), P.LINES, P.WIDTH);
    }
  }

  /** The display with the orientation text mode draws in. */
  ghost function Oriented(p: P.Panel): (r: P.Panel)
    requires P.ValidPanel(p)
    ensures P.ValidPanel(r) && Ready(r)
  {
    if p.inReset then p
    else p.(command := P.MADCTL, params := [MADCTL_TEXT], pending := None, madctl := MADCTL_TEXT)
  }

  lemma OrientationSent(p: P.Panel)
    requires P.ValidPanel(p)
    ensures P.ValidPanel(P.Command(p, P.MADCTL))
    ensures P.Data(P.Command(p, P.MADCTL), MADCTL_TEXT) == Oriented(p)
  {
  }

  /** The hardware scroll of a region: its rows the scroll area, the rows below it the top fixed area, as the
      memory runs from the bottom row. */
  function ScrollFor(top: nat, bottom: nat, offset: nat): P.Scroll
    requires top <= bottom < ROWS && offset < ROWS
  {
    var tfa := (ROWS - 1 - bottom) * CELL_H;
    P.Scroll(tfa, (bottom - top + 1) * CELL_H, top * CELL_H, tfa + offset * CELL_H)
  }

  ghost function Scrolled(p: P.Panel, top: nat, bottom: nat, offset: nat): (r: P.Panel)
    requires P.ValidPanel(p) && top <= bottom < ROWS && offset < ROWS
    ensures P.ValidPanel(r)
  {
    var s := ScrollFor(top, bottom, offset);
    if p.inReset then p
    else p.(command := P.VSCRSADD, params := [High(s.ssa), Low(s.ssa)], pending := None, scroll := s)
  }

  lemma AreaSent(p: P.Panel, w: word)
    requires P.ValidPanel(p) && !p.inReset && p.command == P.VSCRDEF && |p.params| <= 2
    ensures SendWord(p, w) == p.(params := p.params + [High(w), Low(w)])
  {
    assert p.params + [High(w)] + [Low(w)] == p.params + [High(w), Low(w)];
  }

  lemma LastAreaSent(p: P.Panel, s: P.Scroll)
    requires P.ValidPanel(p) && !p.inReset && p.command == P.VSCRDEF && P.Areas(s)
    requires p.params == [High(s.tfa), Low(s.tfa), High(s.vsa), Low(s.vsa)]
    ensures SendWord(p, s.bfa) ==
      p.(params := p.params + [High(s.bfa), Low(s.bfa)], scroll := s.(ssa := p.scroll.ssa))
  {
    JoinParts(s.tfa);
    JoinParts(s.vsa);
    JoinParts(s.bfa);
    assert p.params + [High(s.bfa)] + [Low(s.bfa)] == p.params + [High(s.bfa), Low(s.bfa)];
  }

  lemma AreasSent(p: P.Panel, s: P.Scroll)
    requires P.ValidPanel(p) && !p.inReset && p.params == [] && p.command == P.VSCRDEF && P.Areas(s)
    ensures WordsSent(p, [s.tfa, s.vsa, s.bfa]) ==
      p.(params := [High(s.tfa), Low(s.tfa), High(s.vsa), Low(s.vsa), High(s.bfa), Low(s.bfa)],
         scroll := s.(ssa := p.scroll.ssa))
  {
    var w := [s.tfa, s.vsa, s.bfa];
    assert w[..2] == [s.tfa, s.vsa] && w[..2][..1] == [s.tfa] && w[..2][..1][..0] == [];
    assert WordsSent(p, []) == p;
    AreaSent(p, s.tfa);
    var q := WordsSent(p, [s.tfa]);
    AreaSent(q, s.vsa);
    LastAreaSent(WordsSent(p, [s.tfa, s.vsa]), s);
  }

  lemma StartSent(p: P.Panel, ssa: word)
    requires P.ValidPanel(p) && !p.inReset && p.params == [] && p.command == P.VSCRSADD
    ensures WordsSent(p, [ssa]) == p.(params := [High(ssa), Low(ssa)], scroll := p.scroll.(ssa := ssa))
  {
    JoinParts(ssa);
    assert [ssa][..0] == [];
    assert WordsSent(p, []) == p;
  }

  /** VSCRDEF and VSCRSADD set the region's scroll: its areas always make up the panel. */
  lemma ScrollSent(p: P.Panel, top: nat, bottom: nat, offset: nat)
    requires P.ValidPanel(p) && top <= bottom < ROWS && offset < ROWS
    ensures var s := ScrollFor(top, bottom, offset);
      CommandSent(CommandSent(p, P.VSCRDEF, [s.tfa, s.vsa, s.bfa]), P.VSCRSADD, [s.ssa]) ==
      Scrolled(p, top, bottom, offset)
  {
    var s := ScrollFor(top, bottom, offset);
    if p.inReset {
      IgnoredInReset(p, P.VSCRDEF, [s.tfa, s.vsa, s.bfa]);
      IgnoredInReset(p, P.VSCRSADD, [s.ssa]);
    } else {
      AreasSent(P.Command(p, P.VSCRDEF), s);
      StartSent(P.Command(CommandSent(p, P.VSCRDEF, [s.tfa, s.vsa, s.bfa]), P.VSCRSADD), s.ssa);
    }
  }
}
