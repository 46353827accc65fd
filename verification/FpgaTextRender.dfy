/** Text mode's renderer: it draws the grid on the display through the display's commands, only the cells whose
    memory row does not hold them yet, and moves whole regions by the display's hardware scroll. */
module FpgaTextRender {
  import opened Words
  import opened Grids
  import opened TextCells
  import P = Ili9341
  import T = FpgaText

  const CELLS := ROWS * COLS
  const UNKNOWN := -1
  const BLINK_US := 250000

  /** What a cell of the display's memory holds: {cursor, reverse, code}, or UNKNOWN. */
  type Cached = x: int | UNKNOWN <= x

  /** What each cell of the display's memory holds, as far as the renderer knows; the orientation and the hardware
      scroll sent; the cursor's blink. */
  datatype Render = Render(drawn: seq<seq<Cached>>, setUp: bool,
                           scrollOk: bool, top: nat, bottom: nat, offset: nat,
                           row: nat, col: nat, cursor: bool, blinkOn: bool, blinkUs: nat)

  /** The renderer and the display it draws on. */
  datatype Picture = Picture(r: Render, p: P.Panel)

  ghost predicate ValidRender(r: Render) {
    && Shaped(r.drawn, ROWS, COLS)
    && (r.scrollOk ==> r.top < r.bottom < ROWS && r.offset <= r.bottom - r.top)
  }

  ghost function Init(): Render {
    Render(seq(ROWS, _ => seq(COLS, _ => UNKNOWN)), false, false, 0, 0, 0, 0, 0, false, false, 0)
  }

  /** The memory row where a row shows, through the hardware scroll. */
  function MemoryRow(top: nat, bottom: nat, offset: nat, row: nat): (m: nat)
    requires top < bottom < ROWS && offset <= bottom - top && row < ROWS
    ensures m < ROWS && (top <= row <= bottom <==> top <= m <= bottom)
    ensures m == if top <= row <= bottom
                 then if row - offset >= top then row - offset else row - offset + (bottom - top + 1)
                 else row
  {
    if row < top || row > bottom then row
    else bottom - Rotate(offset, bottom - row, bottom - top + 1)
  }

  // ---- The cursor's blink ----

  ghost function Blink(r: Render, t: T.Text, now: nat): Render {
    if t.row != r.row || t.col != r.col || t.cursor != r.cursor || now < r.blinkUs then
      r.(row := t.row, col := t.col, cursor := t.cursor, blinkOn := true, blinkUs := now)
    else
      var periods := (now - r.blinkUs) / BLINK_US;
      r.(blinkOn := r.blinkOn != (periods % 2 == 1), blinkUs := r.blinkUs + periods * BLINK_US)
  }

  ghost function BlinkAll(r: Render, t: T.Text, times: seq<nat>): Render {
    if times == [] then r else Blink(BlinkAll(r, t, times[..|times| - 1]), t, times[|times| - 1])
  }

  predicate Ascending(start: nat, times: seq<nat>) {
    forall i :: 0 <= i < |times| ==> start <= times[i] && (i > 0 ==> times[i - 1] <= times[i])
  }

  /** However often the picture is drawn, and whenever, a cursor that stays where it is has blinked in the same
      steady half-periods since it came there. */
  lemma {:induction false} BlinkIsSteady(r: Render, t: T.Text, times: seq<nat>)
    requires r.row == t.row && r.col == t.col && r.cursor == t.cursor && r.blinkOn
    requires Ascending(r.blinkUs, times)
    ensures var now := if times == [] then r.blinkUs else times[|times| - 1];
      var periods := (now - r.blinkUs) / BLINK_US;
      BlinkAll(r, t, times) == r.(blinkOn := periods % 2 == 0, blinkUs := r.blinkUs + periods * BLINK_US)
  {
    hide Blink;
    if times != [] {
      var before, now := times[..|times| - 1], times[|times| - 1];
      BlinkIsSteady(r, t, before);
      var last := if before == [] then r.blinkUs else before[|before| - 1];
      assert last <= now by {
        assert before != [] ==> last == times[|times| - 2];
      }
      BlinkSteady(r, t, last, now);
    }
  }

  /** A cursor that moves, shows or goes is lit at once, and blinks from then on in half-periods of a quarter of a second. */
  lemma BlinksFromMove(r: Render, t: T.Text, moved: nat, times: seq<nat>)
    requires t.row != r.row || t.col != r.col || t.cursor != r.cursor
    requires Ascending(moved, times)
    ensures var now := if times == [] then moved else times[|times| - 1];
      BlinkAll(Blink(r, t, moved), t, times).blinkOn <==> (now - moved) / 250000 % 2 == 0
  {
    BlinkIsSteady(Blink(r, t, moved), t, times);
  }

  lemma BlinkSteady(r: Render, t: T.Text, last: nat, now: nat)
    requires r.row == t.row && r.col == t.col && r.cursor == t.cursor && r.blinkOn && r.blinkUs <= last <= now
    ensures var q, periods := (last - r.blinkUs) / BLINK_US, (now - r.blinkUs) / BLINK_US;
      Blink(r.(blinkOn := q % 2 == 0, blinkUs := r.blinkUs + q * BLINK_US), t, now) ==
      r.(blinkOn := periods % 2 == 0, blinkUs := r.blinkUs + periods * BLINK_US)
  {
    HalfPeriods(r.blinkUs, last, now);
  }

  lemma HalfPeriods(start: nat, last: nat, now: nat)
    requires start <= last <= now
    ensures var q := (last - start) / BLINK_US;
      start + q * BLINK_US <= last && (now - start) / BLINK_US == q + (now - (start + q * BLINK_US)) / BLINK_US
  {
  }

  // ---- Drawing the grid ----

  /** What the memory should hold for the grid's cell at row, c. */
  function Wanted(t: T.Text, shown: bool, row: nat, c: nat): (cell: nat)
    requires T.ValidText(t) && row < ROWS && c < COLS
    ensures Code(cell) == t.cells[row][c].code && Reversed(cell) == t.cells[row][c].reverse
    ensures UnderCursor(cell) == (shown && row == t.row && c == t.col)
  {
    t.cells[row][c].code + (if t.cells[row][c].reverse then REVERSE else 0) +
      if shown && row == t.row && c == t.col then CURSOR else 0
  }

  predicate CursorShown(r: Render, t: T.Text) {
    t.cursor && t.col < COLS && r.blinkOn
  }

  /** The scroll last sent is the grid's. */
  predicate Scrolls(r: Render, t: T.Text) {
    r.scrollOk && r.top == t.top && r.bottom == t.bottom && r.offset == t.offset
  }

  /** The picture ready to draw cells: the orientation and the hardware scroll sent, the blink brought up to now. */
  ghost function Prepared(r: Render, t: T.Text, p: P.Panel, now: nat): (v: Picture)
    requires ValidRender(r) && T.ValidText(t) && P.ValidPanel(p)
    ensures ValidRender(v.r) && P.ValidPanel(v.p) && Scrolls(v.r, t) && v.r.drawn == r.drawn
  {
    var p1 := if r.setUp then p else Oriented(p);
    var p2 := if Scrolls(r, t) then p1 else Scrolled(p1, t.top, t.bottom, t.offset);
    Picture(Blink(r.(setUp := true, scrollOk := true, top := t.top, bottom := t.bottom, offset := t.offset), t, now), p2)
  }

  /** Cell k of the grid, counted along the rows, is not in the memory. */
  ghost predicate Stale(r: Render, t: T.Text, shown: bool, k: nat)
    requires ValidRender(r) && T.ValidText(t) && Scrolls(r, t) && k < CELLS
  {
    r.drawn[MemoryRow(r.top, r.bottom, r.offset, k / COLS)][k % COLS] != Wanted(t, shown, k / COLS, k % COLS)
  }

  /** What drawing leaves as it was: the display's power, scan, orientation and scroll. */
  predicate OnlyDrawn(p: P.Panel, q: P.Panel) {
    && q.inReset == p.inReset && q.sleeping == p.sleeping && q.on == p.on && q.backlight == p.backlight
    && q.scan == p.scan && q.madctl == p.madctl && q.scroll == p.scroll
  }

  ghost function DrawCell(font: Font, v: Picture, t: T.Text, shown: bool, k: nat): (w: Picture)
    requires ValidRender(v.r) && T.ValidText(t) && P.ValidPanel(v.p) && Scrolls(v.r, t) && k < CELLS
    ensures ValidRender(w.r) && P.ValidPanel(w.p) && w.r == v.r.(drawn := w.r.drawn) && OnlyDrawn(v.p, w.p)
  {
    var m, c := MemoryRow(v.r.top, v.r.bottom, v.r.offset, k / COLS), k % COLS;
    var cell := Wanted(t, shown, k / COLS, c);
    if Stale(v.r, t, shown, k) then
      Picture(v.r.(drawn := Put(v.r.drawn, m, c, cell)), Painted(font, v.p, m, c, cell, CELL_W * CELL_H))
    else v
  }

  /** The grid's first k cells drawn. */
  ghost function DrawCells(font: Font, v: Picture, t: T.Text, shown: bool, k: nat): (w: Picture)
    requires ValidRender(v.r) && T.ValidText(t) && P.ValidPanel(v.p) && Scrolls(v.r, t) && k <= CELLS
    ensures ValidRender(w.r) && P.ValidPanel(w.p) && w.r == v.r.(drawn := w.r.drawn) && OnlyDrawn(v.p, w.p)
  {
    if k == 0 then v else DrawCell(font, DrawCells(font, v, t, shown, k - 1), t, shown, k - 1)
  }

  /** How many of the grid's first k cells are sent to the display. */
  ghost function CellsSent(font: Font, v: Picture, t: T.Text, shown: bool, k: nat): nat
    requires ValidRender(v.r) && T.ValidText(t) && P.ValidPanel(v.p) && Scrolls(v.r, t) && k <= CELLS
  {
    if k == 0 then 0
    else
      var sent := if Stale(DrawCells(font, v, t, shown, k - 1).r, t, shown, k - 1) then 1 else 0;
      CellsSent(font, v, t, shown, k - 1) + sent
  }

  ghost function Draw(font: Font, r: Render, t: T.Text, p: P.Panel, now: nat): (w: Picture)
    requires ValidRender(r) && T.ValidText(t) && P.ValidPanel(p)
    ensures ValidRender(w.r) && P.ValidPanel(w.p)
  {
    var v := Prepared(r, t, p, now);
    DrawCells(font, v, t, CursorShown(v.r, t), CELLS)
  }

  // ---- The cache and the memory agree ----

  /** The memory has every pixel of a cell. */
  ghost predicate CellHeld(font: Font, memory: seq<seq<word>>, m: nat, c: nat, cell: nat)
    requires Shaped(memory, P.LINES, P.WIDTH) && m < ROWS && c < COLS
  {
    forall x, y :: 0 <= x < CELL_W && 0 <= y < CELL_H ==> At(memory, m, c, x, y) == CellPixel(font, cell, x, y)
  }

  /** Each cell the renderer remembers is in the memory. */
  ghost predicate CacheHolds(font: Font, drawn: seq<seq<Cached>>, memory: seq<seq<word>>)
    requires Shaped(drawn, ROWS, COLS) && Shaped(memory, P.LINES, P.WIDTH)
  {
    forall m, c :: 0 <= m < ROWS && 0 <= c < COLS && drawn[m][c] >= 0 ==> CellHeld(font, memory, m, c, drawn[m][c])
  }

  /** The renderer's record of the display is right, if the display is out of reset to receive what it sent. */
  ghost predicate Synced(font: Font, r: Render, p: P.Panel) {
    && ValidRender(r) && P.ValidPanel(p)
    && (!p.inReset ==>
      && (r.setUp ==> p.madctl == MADCTL_TEXT)
      && (r.scrollOk ==> p.scroll == ScrollFor(r.top, r.bottom, r.offset))
      && CacheHolds(font, r.drawn, p.memory))
  }

  lemma PaintedHolds(font: Font, drawn: seq<seq<Cached>>, memory: seq<seq<word>>, m: nat, c: nat, cell: nat)
    requires Shaped(drawn, ROWS, COLS) && Shaped(memory, P.LINES, P.WIDTH) && m < ROWS && c < COLS
    requires CacheHolds(font, drawn, memory)
    ensures CacheHolds(font, Put(drawn, m, c, cell), PaintedMemory(font, memory, m, c, cell, CELL_W * CELL_H))
  {
    var drawn', memory' := Put(drawn, m, c, cell), PaintedMemory(font, memory, m, c, cell, CELL_W * CELL_H);
    forall m', c' | 0 <= m' < ROWS && 0 <= c' < COLS && drawn'[m'][c'] >= 0
      ensures CellHeld(font, memory', m', c', drawn'[m'][c'])
    {
      forall x, y | 0 <= x < CELL_W && 0 <= y < CELL_H
        ensures At(memory', m', c', x, y) == CellPixel(font, drawn'[m'][c'], x, y)
      {
        PaintedAt(font, memory, m, c, cell, m', c', x, y);
        assert m' != m || c' != c ==> CellHeld(font, memory, m', c', drawn[m'][c']);
      }
    }
  }

  lemma PreparedSynced(font: Font, r: Render, t: T.Text, p: P.Panel, now: nat)
    requires Synced(font, r, p) && T.ValidText(t)
    ensures var v := Prepared(r, t, p, now);
      Synced(font, v.r, v.p) && v.p == p.(command := v.p.command, params := v.p.params, pending := v.p.pending,
                                         madctl := v.p.madctl, scroll := v.p.scroll)
  {
  }

  /** Two rows never share a memory row, so drawing a cell changes no other cell's place. */
  lemma DrawCellDrawn(font: Font, v: Picture, t: T.Text, shown: bool, k: nat, j: nat)
    requires ValidRender(v.r) && P.ValidPanel(v.p) && T.ValidText(t) && Scrolls(v.r, t) && k < CELLS && j < CELLS
    ensures var m := MemoryRow(t.top, t.bottom, t.offset, j / COLS);
      DrawCell(font, v, t, shown, k).r.drawn[m][j % COLS] ==
      if j == k then Wanted(t, shown, j / COLS, j % COLS) else v.r.drawn[m][j % COLS]
  {
    var m, n := MemoryRow(t.top, t.bottom, t.offset, j / COLS), MemoryRow(t.top, t.bottom, t.offset, k / COLS);
    assert m == n && j % COLS == k % COLS ==> j == k;
  }

  /** So each cell is as it was until it is drawn, and then as the grid wants it. */
  lemma {:induction false} DrawnBefore(font: Font, v: Picture, t: T.Text, shown: bool, k: nat, j: nat)
    requires ValidRender(v.r) && P.ValidPanel(v.p) && T.ValidText(t) && Scrolls(v.r, t) && k <= CELLS && j < CELLS
    ensures var m := MemoryRow(t.top, t.bottom, t.offset, j / COLS);
      DrawCells(font, v, t, shown, k).r.drawn[m][j % COLS] ==
      if j < k then Wanted(t, shown, j / COLS, j % COLS) else v.r.drawn[m][j % COLS]
  {
    hide Wanted, MemoryRow, DrawCell, P.ValidPanel;
    if k > 0 {
      DrawnBefore(font, v, t, shown, k - 1, j);
      DrawCellDrawn(font, DrawCells(font, v, t, shown, k - 1), t, shown, k - 1, j);
    }
  }

  lemma {:induction false} DrawCellsSynced(font: Font, v: Picture, t: T.Text, shown: bool, k: nat)
    requires Synced(font, v.r, v.p) && v.r.setUp && T.ValidText(t) && Scrolls(v.r, t) && k <= CELLS
    ensures var w := DrawCells(font, v, t, shown, k); Synced(font, w.r, w.p)
  {
    hide Stale;
    if k > 0 {
      DrawCellsSynced(font, v, t, shown, k - 1);
      var u := DrawCells(font, v, t, shown, k - 1);
      var m, c := MemoryRow(t.top, t.bottom, t.offset, (k - 1) / COLS), (k - 1) % COLS;
      if !u.p.inReset && Stale(u.r, t, shown, k - 1) {
        PaintedHolds(font, u.r.drawn, u.p.memory, m, c, Wanted(t, shown, (k - 1) / COLS, c));
      }
    }
  }

  // ---- The glass shows the grid ----

  /** The pixel the glass should have at x, y: the glyph of the character there, inverted in reverse video, and its
      bottom two rows inverted under the cursor while it shows. */
  function GridPixel(font: Font, t: T.Text, shown: bool, x: nat, y: nat): word
    requires T.ValidText(t) && x < P.WIDTH && y < P.LINES
  {
    var cell := t.cells[y / CELL_H][x / CELL_W];
    var lit := Bit(font(cell.code, x % CELL_W), y % CELL_H) != cell.reverse;
    var cursor := shown && y / CELL_H == t.row && x / CELL_W == t.col && y % CELL_H >= CELL_H - CURSOR_ROWS;
    Colour(lit != cursor)
  }

  /** Mounted as on Michael: out of reset and sleep and on, both scans reversed. */
  predicate ShowsUpright(p: P.Panel) {
    P.Showing(p) && P.GS(p.scan) && P.SS(p.scan)
  }

  /** The display's scroll puts on the glass, at a row, the memory row the renderer drew it in. */
  lemma GlassRow(p: P.Panel, top: nat, bottom: nat, offset: nat, y: nat)
    requires P.ValidPanel(p) && P.GS(p.scan) && top < bottom < ROWS && offset <= bottom - top && y < P.LINES
    requires p.scroll == ScrollFor(top, bottom, offset)
    ensures P.GlassLine(p, y) == P.LINES - 1 - (MemoryRow(top, bottom, offset, y / CELL_H) * CELL_H + y % CELL_H)
  {
    var row, j, s := y / CELL_H, y % CELL_H, p.scroll;
    P.GlassLineCycles(p, y);
    var k := P.ScanLine(p, y);
    if top <= row <= bottom {
      ModWraps(s.ssa - s.tfa + k - s.tfa, s.vsa);
    }
  }

  /** After a draw, every pixel of the glass is the grid's. */
  lemma GlassShowsGrid(font: Font, r: Render, t: T.Text, p: P.Panel, now: nat, x: nat, y: nat)
    requires Synced(font, r, p) && T.ValidText(t) && ShowsUpright(p) && x < P.WIDTH && y < P.LINES
    ensures var w := Draw(font, r, t, p, now);
      P.GlassPixel(w.p, x, y) == GridPixel(font, t, CursorShown(w.r, t), x, y)
  {
    hide MemoryRow, CellPixel, P.GlassLine, Wanted, DrawCells;
    var v, w := Prepared(r, t, p, now), Draw(font, r, t, p, now);
    var shown := CursorShown(v.r, t);
    PreparedSynced(font, r, t, p, now);
    DrawCellsSynced(font, v, t, shown, CELLS);
    var row, c := y / CELL_H, x / CELL_W;
    var m, cell := MemoryRow(t.top, t.bottom, t.offset, row), Wanted(t, shown, row, c);
    var j := row * COLS + c;
    assert j / COLS == row && j % COLS == c;
    DrawnBefore(font, v, t, shown, CELLS, j);
    assert CellHeld(font, w.p.memory, m, c, cell);
    GlassRow(w.p, t.top, t.bottom, t.offset, y);
    assert P.GlassPixel(w.p, x, y) == At(w.p.memory, m, c, x % CELL_W, y % CELL_H);
    CellPixelMeaning(font, cell, x % CELL_W, y % CELL_H);
  }

  /** A draw keeps the renderer's record right, and changes nothing of the display but what it draws with. */
  lemma DrawKeepsSynced(font: Font, r: Render, t: T.Text, p: P.Panel, now: nat)
    requires Synced(font, r, p) && T.ValidText(t)
    ensures var w := Draw(font, r, t, p, now);
      && Synced(font, w.r, w.p)
      && w.p.inReset == p.inReset && w.p.sleeping == p.sleeping && w.p.on == p.on && w.p.scan == p.scan
      && w.p.backlight == p.backlight
  {
    var v := Prepared(r, t, p, now);
    PreparedSynced(font, r, t, p, now);
    DrawCellsSynced(font, v, t, CursorShown(v.r, t), CELLS);
  }

  // ---- A scroll is a few cells ----

  /** The cells to send, as positions along the rows. */
  ghost function StaleCells(r: Render, t: T.Text, shown: bool, k: nat): set<int>
    requires ValidRender(r) && T.ValidText(t) && Scrolls(r, t) && k <= CELLS
  {
    set i | 0 <= i < k && Stale(r, t, shown, i)
  }

  lemma StaleCellsStep(r: Render, t: T.Text, shown: bool, k: nat)
    requires ValidRender(r) && T.ValidText(t) && Scrolls(r, t) && k < CELLS
    ensures StaleCells(r, t, shown, 0) == {}
    ensures |StaleCells(r, t, shown, k + 1)| ==
      |StaleCells(r, t, shown, k)| + if Stale(r, t, shown, k) then 1 else 0
  {
    var before, after := StaleCells(r, t, shown, k), StaleCells(r, t, shown, k + 1);
    assert k !in before;
    assert after == if Stale(r, t, shown, k) then before + {k} else before;
  }

  lemma CellsSentStep(font: Font, v: Picture, t: T.Text, shown: bool, k: nat)
    requires ValidRender(v.r) && P.ValidPanel(v.p) && T.ValidText(t) && Scrolls(v.r, t) && k < CELLS
    ensures CellsSent(font, v, t, shown, k + 1) ==
      CellsSent(font, v, t, shown, k) + if Stale(v.r, t, shown, k) then 1 else 0
  {
    DrawnBefore(font, v, t, shown, k, k);
  }

  /** A draw sends each stale cell once, and nothing else. */
  lemma {:induction false} SendsStaleCells(font: Font, v: Picture, t: T.Text, shown: bool, k: nat)
    requires ValidRender(v.r) && P.ValidPanel(v.p) && T.ValidText(t) && Scrolls(v.r, t) && k <= CELLS
    ensures CellsSent(font, v, t, shown, k) == |StaleCells(v.r, t, shown, k)|
  {
    hide Stale, StaleCells, DrawCells;
    if k == 0 {
      StaleCellsStep(v.r, t, shown, k);
    } else {
      var i: nat := k - 1;
      SendsStaleCells(font, v, t, shown, i);
      CellsSentStep(font, v, t, shown, i);
      StaleCellsStep(v.r, t, shown, i);
    }
  }

  /** The display's memory holds the whole grid, with the cursor shown or not. */
  ghost predicate Settled(r: Render, t: T.Text, shown: bool) {
    ValidRender(r) && T.ValidText(t) && Scrolls(r, t) && forall k: nat :: k < CELLS ==> !Stale(r, t, shown, k)
  }

  lemma DrawSettles(font: Font, r: Render, t: T.Text, p: P.Panel, now: nat)
    requires ValidRender(r) && P.ValidPanel(p) && T.ValidText(t)
    ensures var w := Draw(font, r, t, p, now); Settled(w.r, t, CursorShown(w.r, t))
  {
    var v := Prepared(r, t, p, now);
    var shown := CursorShown(v.r, t);
    forall k: nat | k < CELLS ensures !Stale(Draw(font, r, t, p, now).r, t, shown, k) {
      DrawnBefore(font, v, t, shown, CELLS, k);
    }
  }

  ghost function Range(a: int, b: int): (s: set<int>)
    requires a <= b
    ensures forall i :: i in s <==> a <= i < b
    ensures |s| == b - a
    decreases b - a
  {
    if a == b then {} else Range(a, b - 1) + {b - 1}
  }

  lemma CoveredSize(s: set<int>, t: set<int>, a: int, b: int)
    requires forall k :: k in s && k !in t ==> k == a || k == b
    ensures |s| <= |t| + 2
  {
    var u := t + {a, b};
    forall k | k in s ensures k in u {
    }
    assert u == s + (u - s);
  }

  /** t' is t with its whole region scrolled by n rows, wherever its cursor is. */
  ghost predicate WholeRegionScrolled(t: T.Text, t': T.Text, n: nat, up: bool) {
    && T.ValidText(t) && T.ValidText(t') && 0 < n <= t.bottom - t.top
    && t'.top == t.top && t'.bottom == t.bottom
    && t'.offset == T.Scroll(t, t.top, n, up).offset && t'.cells == T.Scroll(t, t.top, n, up).cells
  }

  /** Scrolling the region, or inserting or deleting lines at its top, scrolls it whole. */
  lemma OpsScrollWholeRegion(t: T.Text, code: byte, n: byte)
    requires T.ValidText(t) && 0 < n <= t.bottom - t.top
    requires code == T.SCROLL_UP || code == T.SCROLL_DOWN ||
             ((code == T.INSERT_LINES || code == T.DELETE_LINES) && t.row == t.top)
    ensures WholeRegionScrolled(t, T.Op(t, code, n, n), n, code == T.SCROLL_UP || code == T.DELETE_LINES)
  {
  }

  /** The row's cells are where the scrolled picture already has them. */
  lemma KeptRow(t: T.Text, t': T.Text, n: nat, up: bool, row: nat)
    requires WholeRegionScrolled(t, t', n, up) && row < ROWS
    requires t.top <= row <= t.bottom ==> if up then row + n <= t.bottom else row >= t.top + n
    ensures var src := if row < t.top || row > t.bottom then row else if up then row + n else row - n;
      && src < ROWS && t'.cells[row] == t.cells[src]
      && MemoryRow(t'.top, t'.bottom, t'.offset, row) == MemoryRow(t.top, t.bottom, t.offset, src)
  {
    T.MovedRow(t.cells, t.top, t.bottom, n, up, row);
  }

  /** The rows a scroll brings in, as cells. */
  ghost function RowsIn(t: T.Text, n: nat, up: bool): (s: set<int>)
    requires T.ValidText(t) && n <= t.bottom - t.top
    ensures |s| == COLS * n
    ensures forall k :: 0 <= k < CELLS ==>
      (k in s <==> if up then t.bottom - n < k / COLS <= t.bottom else t.top <= k / COLS < t.top + n)
  {
    var first := if up then t.bottom - n + 1 else t.top;
    Range(COLS * first, COLS * (first + n))
  }

  /** Where the cursor's row went with the picture. */
  function RowWent(t: T.Text, n: nat, up: bool): int {
    if t.row < t.top || t.row > t.bottom then t.row else if up then t.row - n else t.row + n
  }

  lemma ScrolledCell(r: Render, t: T.Text, shown: bool, r': Render, t': T.Text, shown': bool, n: nat, up: bool, k: nat)
    requires Settled(r, t, shown) && WholeRegionScrolled(t, t', n, up) && k < CELLS
    requires ValidRender(r') && Scrolls(r', t') && r'.drawn == r.drawn && Stale(r', t', shown', k)
    requires k !in RowsIn(t, n, up)
    ensures k == COLS * RowWent(t, n, up) + t.col || k == COLS * t'.row + t'.col
  {
    hide MemoryRow, RowsIn;
    var row, c := k / COLS, k % COLS;
    KeptRow(t, t', n, up, row);
    var src := if row < t.top || row > t.bottom then row else if up then row + n else row - n;
    var j := COLS * src + c;
    assert j / COLS == src && j % COLS == c;
    assert !Stale(r, t, shown, j);
    assert Wanted(t, shown, src, c) != Wanted(t', shown', row, c);
    assert (row == t'.row && c == t'.col) || (src == t.row && c == t.col);
  }

  /** Once the memory holds the grid, scrolling its region by n rows leaves at most n rows, and the cursor's old
      and new places, to send: the display moves the rest. */
  lemma ScrollSendsFewCells(font: Font, r: Render, t: T.Text, shown: bool, t': T.Text, n: nat, up: bool,
                            p: P.Panel, now: nat)
    requires Settled(r, t, shown) && WholeRegionScrolled(t, t', n, up) && P.ValidPanel(p)
    ensures var v := Prepared(r, t', p, now);
      CellsSent(font, v, t', CursorShown(v.r, t'), CELLS) <= COLS * n + 2
  {
    var v := Prepared(r, t', p, now);
    var shown' := CursorShown(v.r, t');
    var stale, rows := StaleCells(v.r, t', shown', CELLS), RowsIn(t, n, up);
    SendsStaleCells(font, v, t', shown', CELLS);
    var a, b := COLS * RowWent(t, n, up) + t.col, COLS * t'.row + t'.col;
    forall k | k in stale && k !in rows ensures k == a || k == b {
      ScrolledCell(r, t, shown, v.r, t', shown', n, up, k);
    }
    CoveredSize(stale, rows, a, b);
  }

  lemma InitSynced(font: Font, p: P.Panel)
    requires P.ValidPanel(p)
    ensures Synced(font, Init(), p)
  {
  }

  /** The pictures a draw goes through, cell by cell. */
  ghost predicate Step(font: Font, t: T.Text, shown: bool, pictures: seq<Picture>, k: nat)
    requires T.ValidText(t) && k + 1 < |pictures| && k < CELLS
  {
    var v := pictures[k];
    && ValidRender(v.r) && P.ValidPanel(v.p) && Scrolls(v.r, t) && Ready(v.p)
    && pictures[k + 1] == DrawCell(font, v, t, shown, k)
  }

  lemma Steps(font: Font, v: Picture, t: T.Text, shown: bool) returns (pictures: seq<Picture>)
    requires ValidRender(v.r) && T.ValidText(t) && P.ValidPanel(v.p) && Scrolls(v.r, t) && Ready(v.p)
    ensures |pictures| == CELLS + 1
    ensures pictures[0] == v && pictures[CELLS] == DrawCells(font, v, t, shown, CELLS)
    ensures forall k :: 0 <= k < CELLS ==> Step(font, t, shown, pictures, k)
  {
    hide DrawCell, Wanted, MemoryRow;
    pictures := seq(CELLS + 1, k requires 0 <= k < CELLS + 1 => DrawCells(font, v, t, shown, k));
    forall k | 0 <= k < CELLS ensures Step(font, t, shown, pictures, k) {
      assert pictures[k + 1] == DrawCells(font, v, t, shown, k + 1);
    }
  }

  /** The renderer, its cache changed in place as it draws on the display. */
  class Renderer {
    const font: Font
    const drawn: array2<Cached>
    ghost var contents: seq<seq<Cached>>   // the cache's
    var setUp: bool
    var scrollOk: bool
    var top: nat
    var bottom: nat
    var offset: nat
    var row: nat
    var col: nat
    var cursor: bool
    var blinkOn: bool
    var blinkUs: nat

    ghost predicate Valid()
      reads this, drawn
    {
      && drawn.Length0 == ROWS && drawn.Length1 == COLS && Holds(drawn, contents)
      && ValidRender(State())
    }

    ghost function State(): Render
      reads this
    {
      Render(contents, setUp, scrollOk, top, bottom, offset, row, col, cursor, blinkOn, blinkUs)
    }

    constructor (font: Font)
      ensures Valid() && fresh(drawn) && this.font == font
      ensures State() == Init()
    {
      this.font := font;
      drawn := new Cached[ROWS, COLS]((_, _) => UNKNOWN);
      contents := seq(ROWS, _ => seq(COLS, _ => UNKNOWN));
      setUp, scrollOk, top, bottom, offset := false, false, 0, 0, 0;
      row, col, cursor, blinkOn, blinkUs := 0, 0, false, false, 0;
    }

    /** Text mode coming on: the display's memory and scroll are unknown. */
    method Restart()
      requires Valid()
      modifies this, drawn
      ensures Valid() && State() == Init()
    {
      setUp, scrollOk, top, bottom, offset := false, false, 0, 0, 0;
      row, col, cursor, blinkOn, blinkUs := 0, 0, false, false, 0;
      forall m, c | 0 <= m < ROWS && 0 <= c < COLS {
        drawn[m, c] := UNKNOWN;
      }
      contents := seq(ROWS, _ => seq(COLS, _ => UNKNOWN));
    }

    static method DoWord(p: P.Chip, w: int)
      requires p.Valid()
      modifies p, p.memory, p.params
      ensures p.Valid() && p.State() == SendWord(old(p.State()), w)
    {
      p.SendData(High(w));
      p.SendData(Low(w));
    }

    static method DoWords(p: P.Chip, command: byte, w: seq<int>)
      requires p.Valid()
      modifies p, p.memory, p.params
      ensures p.Valid() && p.State() == CommandSent(old(p.State()), command, w)
    {
      p.SendCommand(command);
      ghost var start := p.State();
      for i := 0 to |w|
        invariant p.Valid() && p.State() == WordsSent(start, w[..i])
      {
        assert w[..i + 1][..i] == w[..i];
        DoWord(p, w[i]);
      }
      assert w[..|w|] == w;
    }

    method DoSendScroll(p: P.Chip)
      requires Valid() && p.Valid() && scrollOk
      modifies p, p.memory, p.params
      ensures p.Valid() && p.State() == Scrolled(old(p.State()), top, bottom, offset)
    {
      var tfa := (ROWS - 1 - bottom) * CELL_H;
      ghost var was, s := p.State(), ScrollFor(top, bottom, offset);
      DoWords(p, P.VSCRDEF, [tfa, (bottom - top + 1) * CELL_H, top * CELL_H]);
      assert p.State() == CommandSent(was, P.VSCRDEF, [s.tfa, s.vsa, s.bfa]);
      DoWords(p, P.VSCRSADD, [tfa + offset * CELL_H]);
      ScrollSent(was, top, bottom, offset);
    }

    method DoOpenWindow(p: P.Chip, m: nat, c: nat, ghost cell: nat)
      requires p.Valid() && m < ROWS && c < COLS
      modifies p, p.memory, p.params
      ensures p.Valid() && p.State() == Painted(font, old(p.State()), m, c, cell, 0)
    {
      WindowOpened(font, p.State(), m, c, cell);
      DoWords(p, P.CASET, [m * CELL_H, m * CELL_H + CELL_H - 1]);
      DoWords(p, P.PASET, [c * CELL_W, c * CELL_W + CELL_W - 1]);
      p.SendCommand(P.RAMWR);
    }

    method DoDrawColumn(p: P.Chip, ghost was: P.Panel, m: nat, c: nat, ghost cell: nat, x: nat, column: bv16)
      requires p.Valid() && P.ValidPanel(was) && Ready(was) && m < ROWS && c < COLS && x < CELL_W
      requires p.State() == Painted(font, was, m, c, cell, x * CELL_H)
      requires forall y: nat :: y < CELL_H ==> Colour(Bit(column, y)) == CellPixel(font, cell, x, y)
      modifies p, p.memory, p.params
      ensures p.Valid() && p.State() == Painted(font, was, m, c, cell, x * CELL_H + CELL_H)
    {
      hide Painted, CellPixel;
      for y := 0 to CELL_H
        invariant p.Valid() && p.State() == Painted(font, was, m, c, cell, x * CELL_H + y)
      {
        PaintStep(font, was, m, c, cell, x, y);
        assert CellPixel(font, cell, x, y) == Colour(Bit(column, y));
        DoWord(p, if (column >> y) & 1 == 1 then 0xFFFF else 0x0000);
      }
    }

    method DoDrawCell(p: P.Chip, m: nat, c: nat, cell: nat)
      requires p.Valid() && Ready(p.State()) && m < ROWS && c < COLS
      modifies p, p.memory, p.params
      ensures p.Valid() && p.State() == Painted(font, old(p.State()), m, c, cell, CELL_W * CELL_H)
    {
      ghost var was := p.State();
      var code := Code(cell);
      var invert := Inversion(Reversed(cell), UnderCursor(cell));
      DoOpenWindow(p, m, c, cell);
      for x := 0 to CELL_W
        invariant p.Valid() && p.State() == Painted(font, was, m, c, cell, x * CELL_H)
      {
        DoDrawColumn(p, was, m, c, cell, x, font(code, x) ^ invert);
      }
    }

    method DoBlink(t: T.Screen, now: nat)
      modifies this`row, this`col, this`cursor, this`blinkOn, this`blinkUs
      ensures State() == Blink(old(State()), t.State(), now)
    {
      if t.row != row || t.col != col || t.cursor != cursor || now < blinkUs {
        row, col, cursor, blinkOn, blinkUs := t.row, t.col, t.cursor, true, now;
        return;
      }
      var periods := (now - blinkUs) / BLINK_US;
      blinkOn := blinkOn != (periods % 2 == 1);
      blinkUs := blinkUs + periods * BLINK_US;
    }

    method DoOrient(p: P.Chip)
      requires Valid() && p.Valid()
      modifies this`setUp, p, p.memory, p.params
      ensures Valid() && p.Valid() && State() == old(State()).(setUp := true)
      ensures p.State() == if old(setUp) then old(p.State()) else Oriented(old(p.State()))
    {
      if !setUp {
        OrientationSent(p.State());
        p.SendCommand(P.MADCTL);
        p.SendData(MADCTL_TEXT);
        setUp := true;
      }
    }

    method DoSetScroll(t: T.Screen)
      requires Valid() && t.Valid()
      modifies this`scrollOk, this`top, this`bottom, this`offset
      ensures Valid()
      ensures State() == old(State()).(scrollOk := true, top := t.top, bottom := t.bottom, offset := t.offset)
    {
      top, bottom, offset, scrollOk := t.top, t.bottom, t.offset, true;
    }

    method DoScrollTo(t: T.Screen, p: P.Chip)
      requires Valid() && t.Valid() && p.Valid()
      modifies this`scrollOk, this`top, this`bottom, this`offset, p, p.memory, p.params
      ensures Valid() && p.Valid()
      ensures State() == old(State()).(scrollOk := true, top := t.top, bottom := t.bottom, offset := t.offset)
      ensures p.State() == if Scrolls(old(State()), t.State()) then old(p.State())
                           else Scrolled(old(p.State()), t.top, t.bottom, t.offset)
    {
      if !scrollOk || t.top != top || t.bottom != bottom || t.offset != offset {
        DoSetScroll(t);
        DoSendScroll(p);
      }
    }

    method DoPrepare(t: T.Screen, p: P.Chip, now: nat)
      requires Valid() && t.Valid() && p.Valid()
      modifies this, p, p.memory, p.params
      ensures Valid() && p.Valid() && Picture(State(), p.State()) == Prepared(old(State()), t.State(), old(p.State()), now)
    {
      DoOrient(p);
      DoScrollTo(t, p);
      DoBlink(t, now);
    }

    method Remember(m: nat, c: nat, cell: nat)
      requires Valid() && m < ROWS && c < COLS
      modifies this`contents, drawn
      ensures Valid() && State() == old(State()).(drawn := Put(old(contents), m, c, cell))
    {
      drawn[m, c] := cell;
      contents := Put(contents, m, c, cell);
    }

    /** The cell at r, c, in memory row m, drawn if the memory does not hold it. */
    method DoCell(t: T.Screen, p: P.Chip, shown: bool, m: nat, r: nat, c: nat, ghost k: nat)
      requires Valid() && t.Valid() && p.Valid() && Ready(p.State()) && Scrolls(State(), t.State())
      requires r < ROWS && c < COLS && k == r * COLS + c && m == MemoryRow(top, bottom, offset, r)
      modifies this`contents, drawn, p, p.memory, p.params
      ensures Valid() && p.Valid() && t.Valid() && t.State() == old(t.State())
      ensures Picture(State(), p.State()) ==
        DrawCell(font, old(Picture(State(), p.State())), t.State(), shown, k)
    {
      hide Painted, MemoryRow, Scrolls, Ready;
      var cell := t.cells[r, c].code + (if t.cells[r, c].reverse then REVERSE else 0) +
                  (if shown && r == t.row && c == t.col then CURSOR else 0);
      assert k / COLS == r && k % COLS == c;
      ghost var goal := DrawCell(font, Picture(State(), p.State()), t.State(), shown, k);
      if drawn[m, c] != cell {
        DoDrawCell(p, m, c, cell);
        assert p.State() == goal.p;
        Remember(m, c, cell);
      }
    }

    method DoRow(t: T.Screen, p: P.Chip, shown: bool, r: nat, ghost pictures: seq<Picture>, ghost k: nat)
      requires Valid() && t.Valid() && p.Valid() && r < ROWS && k == r * COLS
      requires |pictures| == CELLS + 1
      requires forall i :: 0 <= i < CELLS ==> Step(font, t.State(), shown, pictures, i)
      requires Picture(State(), p.State()) == pictures[k]
      modifies this`contents, drawn, p, p.memory, p.params
      ensures Valid() && p.Valid() && t.Valid() && t.State() == old(t.State())
      ensures Picture(State(), p.State()) == pictures[k + COLS]
    {
      ghost var grid, j := t.State(), k;
      assert Step(font, grid, shown, pictures, k);
      var m := MemoryRow(top, bottom, offset, r);
      for c := 0 to COLS
        invariant j == k + c && Valid() && p.Valid() && t.Valid() && t.State() == grid
        invariant Picture(State(), p.State()) == pictures[j]
      {
        assert Step(font, grid, shown, pictures, j);
        DoCell(t, p, shown, m, r, c, j);
        j := j + 1;
      }
    }

    method DoRows(t: T.Screen, p: P.Chip, shown: bool, ghost pictures: seq<Picture>)
      requires Valid() && t.Valid() && p.Valid()
      requires |pictures| == CELLS + 1
      requires forall i :: 0 <= i < CELLS ==> Step(font, t.State(), shown, pictures, i)
      requires Picture(State(), p.State()) == pictures[0]
      modifies this`contents, drawn, p, p.memory, p.params
      ensures Valid() && p.Valid() && t.Valid() && t.State() == old(t.State())
      ensures Picture(State(), p.State()) == pictures[CELLS]
    {
      ghost var grid, k := t.State(), 0;
      for r := 0 to ROWS
        invariant k == r * COLS && Valid() && p.Valid() && t.Valid() && t.State() == grid
        invariant Picture(State(), p.State()) == pictures[k]
      {
        DoRow(t, p, shown, r, pictures, k);
        k := k + COLS;
      }
    }

    /** Draws what changed in the grid since the last draw. */
    method DoDraw(t: T.Screen, p: P.Chip, now: nat)
      requires Valid() && t.Valid() && p.Valid() && Synced(font, State(), p.State())
      modifies this, drawn, p, p.memory, p.params
      ensures Valid() && p.Valid() && t.Valid() && t.State() == old(t.State())
      ensures Picture(State(), p.State()) == Draw(font, old(State()), t.State(), old(p.State()), now)
    {
      DoPrepare(t, p, now);
      var shown := t.cursor && t.col < COLS && blinkOn;
      ghost var pictures := Steps(font, Picture(State(), p.State()), t.State(), shown);
      DoRows(t, p, shown, pictures);
    }
  }
}
