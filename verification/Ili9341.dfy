/** The ILI9341 display controller: commands and data become registers and frame memory, which the glass shows
    through the hardware scroll. */
module Ili9341 {
  import opened Words
  import opened Grids

  const LINES := 320
  const WIDTH := 240

  const SWRESET: byte := 0x01
  const SLPIN: byte := 0x10
  const SLPOUT: byte := 0x11
  const DISPOFF: byte := 0x28
  const DISPON: byte := 0x29
  const CASET: byte := 0x2A
  const PASET: byte := 0x2B
  const RAMWR: byte := 0x2C
  const VSCRDEF: byte := 0x33
  const MADCTL: byte := 0x36
  const VSCRSADD: byte := 0x37
  const RAMWRC: byte := 0x3C
  const DFUNCTR: byte := 0xB6

  /** The window's start and end columns and pages, and its counters: where the next pixel goes. */
  datatype Window = Window(sc: word, ec: word, sp: word, ep: word, col: word, page: word)

  /** The hardware scroll: the top fixed area, the scroll area and the bottom fixed area, and the line the scroll
      area starts with. */
  datatype Scroll = Scroll(tfa: word, vsa: word, bfa: word, ssa: word)

  const WHOLE_WINDOW := Window(0, WIDTH - 1, 0, LINES - 1, 0, 0)
  const NO_SCROLL := Scroll(0, LINES, 0, 0)

  /** The controller's state. params holds the parameters received since the command; pending is the first byte
      of a pixel whose second is to come. */
  datatype Panel = Panel(
    memory: seq<seq<word>>,
    command: byte, params: seq<byte>, pending: Option<byte>,
    window: Window, madctl: byte, scan: byte, scroll: Scroll,
    inReset: bool, sleeping: bool, on: bool, backlight: byte)

  // MADCTL's and the scan register's bits
  predicate MY(m: byte) { m / 0x80 % 2 == 1 }
  predicate MX(m: byte) { m / 0x40 % 2 == 1 }
  predicate MV(m: byte) { m / 0x20 % 2 == 1 }
  predicate BGR(m: byte) { m / 0x08 % 2 == 1 }
  predicate GS(scan: byte) { scan / 0x40 % 2 == 1 }
  predicate SS(scan: byte) { scan / 0x20 % 2 == 1 }

  ghost predicate ValidPanel(p: Panel) {
    && Shaped(p.memory, LINES, WIDTH)
    && |p.params| <= 6
    && Areas(p.scroll)
  }

  /** The scroll's areas make up the panel. */
  predicate Areas(s: Scroll) {
    s.tfa + s.vsa + s.bfa == LINES
  }

  ghost function Reset(p: Panel): Panel {
    p.(command := 0, params := [], pending := None, window := WHOLE_WINDOW, madctl := 0, scan := 0x82,
       scroll := NO_SCROLL, sleeping := true, on := false)
  }

  ghost function Init(): Panel {
    Panel(seq(LINES, _ => seq(WIDTH, _ => 0)), 0, [], None, WHOLE_WINDOW, 0, 0x82, NO_SCROLL,
          false, true, false, 255)
  }

  ghost function ResetLine(p: Panel, level: bool): Panel {
    if level then p.(inReset := false) else Reset(p.(inReset := true))
  }

  ghost function Command(p: Panel, c: byte): Panel {
    if p.inReset then p
    else
      var q := p.(command := c, params := [], pending := None);
      if c == SWRESET then Reset(q)
      else if c == SLPIN then q.(sleeping := true)
      else if c == SLPOUT then q.(sleeping := false)
      else if c == DISPOFF then q.(on := false)
      else if c == DISPON then q.(on := true)
      else if c == RAMWR then q.(window := Start(p.window))
      else q
  }

  /** The counters at the window's start. */
  function Start(w: Window): Window {
    w.(col := w.sc, page := w.sp)
  }

  /** Red and blue exchanged in an RGB565 pixel. */
  function SwapRedBlue(v: word): (w: word) {
    v / 0x20 % 0x40 * 0x20 + v / 0x800 + v % 0x20 * 0x800
  }

  // Where the window's counters point in the memory, through MADCTL
  function TargetLine(w: Window, madctl: byte): int {
    var line := if MV(madctl) then w.col else w.page;
    if MY(madctl) then LINES - 1 - line else line
  }

  function TargetX(w: Window, madctl: byte): int {
    var x := if MV(madctl) then w.page else w.col;
    if MX(madctl) then WIDTH - 1 - x else x
  }

  /** The window's counters after a pixel: along the columns, then the pages, wrapping to the start. */
  function Advance(w: Window): Window {
    if w.col < w.ec then w.(col := w.col + 1)
    else if w.page < w.ep then w.(col := w.sc, page := w.page + 1)
    else Start(w)
  }

  ghost function WritePixel(p: Panel, v: word): Panel
    requires ValidPanel(p)
  {
    var w := if BGR(p.madctl) then v else SwapRedBlue(v);
    var line, x := TargetLine(p.window, p.madctl), TargetX(p.window, p.madctl);
    p.(memory := if 0 <= line < LINES && 0 <= x < WIDTH then Put(p.memory, line, x, w) else p.memory,
       window := Advance(p.window))
  }

  /** A command's parameters take effect once they have all come. */
  ghost function Parameters(p: Panel): Panel {
    var b := p.params;
    if p.command == CASET && |b| == 4 then p.(window := p.window.(sc := Join(b[0], b[1]), ec := Join(b[2], b[3])))
    else if p.command == PASET && |b| == 4 then p.(window := p.window.(sp := Join(b[0], b[1]), ep := Join(b[2], b[3])))
    else if p.command == MADCTL && |b| == 1 then p.(madctl := b[0])
    else if p.command == DFUNCTR && |b| == 2 then p.(scan := b[1])
    else if p.command == VSCRSADD && |b| == 2 then p.(scroll := p.scroll.(ssa := Join(b[0], b[1])))
    else if p.command == VSCRDEF && |b| == 6 then
      var s := Scroll(Join(b[0], b[1]), Join(b[2], b[3]), Join(b[4], b[5]), p.scroll.ssa);
      if Areas(s) then p.(scroll := s) else p
    else p
  }

  ghost function Data(p: Panel, d: byte): Panel
    requires ValidPanel(p)
  {
    if p.inReset then p
    else if p.command == RAMWR || p.command == RAMWRC then
      match p.pending
      case Some(high) => WritePixel(p, Join(high, d)).(pending := None)
      case None => p.(pending := Some(d))
    else if |p.params| < 6 then Parameters(p.(params := p.params + [d]))
    else p
  }

  lemma KeepsValid(p: Panel, b: byte, level: bool)
    requires ValidPanel(p)
    ensures ValidPanel(Command(p, b)) && ValidPanel(Data(p, b)) && ValidPanel(ResetLine(p, level))
  {
  }

  predicate Showing(p: Panel) {
    !p.inReset && !p.sleeping && p.on
  }

  /** The remainder that truncates toward zero, as the controller's arithmetic takes it. */
  function TruncatedMod(a: int, n: int): int
    requires n > 0
  {
    if a >= 0 then a % n else -((-a) % n)
  }

  /** The scan line at row y of the glass, through the scan direction. */
  function ScanLine(p: Panel, y: int): int {
    if GS(p.scan) then LINES - 1 - y else y
  }

  /** The memory line shown at row y of the glass, through the scan direction and the scroll. */
  function GlassLine(p: Panel, y: int): int {
    var k, s := ScanLine(p, y), p.scroll;
    if k < s.tfa || k >= s.tfa + s.vsa then k
    else
      var at := TruncatedMod(s.ssa - s.tfa + k - s.tfa, s.vsa);
      s.tfa + if at < 0 then at + s.vsa else at
  }

  lemma TruncatedModWraps(a: int, n: int)
    requires n > 0
    ensures var at := TruncatedMod(a, n); (if at < 0 then at + n else at) == a % n
  {
    if a < 0 {
      ModNegated(-a, n);
    }
  }

  lemma ModNegated(a: int, n: int)
    requires a >= 0 && n > 0
    ensures (-a) % n == if a % n == 0 then 0 else n - a % n
  {
    var q, r := a / n, a % n;
    assert -a == if r == 0 then n * (-q) else n * (-q - 1) + (n - r);
    if r == 0 {
      ModUnique(-a, n, -q, 0);
    } else {
      ModUnique(-a, n, -q - 1, n - r);
    }
  }

  /** In the scroll area, the glass shows the area's lines in a cycle that starts with the line VSCRSADD names. */
  lemma GlassLineCycles(p: Panel, y: int)
    requires ValidPanel(p) && 0 <= y < LINES
    ensures 0 <= GlassLine(p, y) < LINES
    ensures var k, s := ScanLine(p, y), p.scroll;
      if s.tfa <= k < s.tfa + s.vsa then GlassLine(p, y) == s.tfa + (s.ssa - s.tfa + k - s.tfa) % s.vsa
      else GlassLine(p, y) == k
  {
    var k, s := ScanLine(p, y), p.scroll;
    if s.tfa <= k < s.tfa + s.vsa {
      TruncatedModWraps(s.ssa - s.tfa + k - s.tfa, s.vsa);
    }
  }

  /** The scroll loses nothing: whatever the scroll registers hold, no memory line shows twice (so every line of
      the memory shows exactly once, there being as many rows as lines). */
  lemma GlassShowsEachLineOnce(p: Panel, y: int, z: int)
    requires ValidPanel(p) && 0 <= y < z < LINES
    ensures GlassLine(p, y) != GlassLine(p, z)
  {
    GlassLineCycles(p, y);
    GlassLineCycles(p, z);
    var k, l, s := ScanLine(p, y), ScanLine(p, z), p.scroll;
    if s.tfa <= k < s.tfa + s.vsa && s.tfa <= l < s.tfa + s.vsa {
      ModApart(s.ssa - s.tfa + Min(k, l) - s.tfa, Max(k, l) - Min(k, l), s.vsa);
    }
  }

  lemma ModApart(a: int, d: int, n: int)
    requires 0 < d < n
    ensures a % n != (a + d) % n
  {
    if a % n == (a + d) % n {
      var q := (a + d) / n - a / n;
      assert n * q == d;
      MulBounds(n, q);
    }
  }

  /** The pixel at x, y on the glass: white while the glass is blank. */
  ghost function GlassPixel(p: Panel, x: int, y: int): word
    requires ValidPanel(p) && 0 <= x < WIDTH && 0 <= y < LINES
  {
    GlassLineCycles(p, y);
    if !Showing(p) then 0xFFFF
    else p.memory[GlassLine(p, y)][if SS(p.scan) then x else WIDTH - 1 - x]
  }

  /** The controller, its registers and memory changed in place by what it receives. */
  class Chip {
    const memory: array2<word>
    ghost var contents: seq<seq<word>>   // the memory's
    const params: array<byte>
    var nParams: nat
    var command: byte
    var haveHigh: bool
    var high: byte
    var window: Window
    var madctl: byte
    var scan: byte
    var scroll: Scroll
    var inReset: bool
    var sleeping: bool
    var on: bool
    var backlight: byte

    ghost predicate Valid()
      reads this, memory, params
    {
      && memory.Length0 == LINES && memory.Length1 == WIDTH && Holds(memory, contents)
      && params.Length == 6 && nParams <= 6
      && Areas(scroll)
    }

    ghost function State(): (p: Panel)
      requires Valid()
      reads this, memory, params
    {
      Panel(contents, command, params[..nParams], if haveHigh then Some(high) else None,
            window, madctl, scan, scroll, inReset, sleeping, on, backlight)
    }

    constructor ()
      ensures Valid() && fresh(memory) && fresh(params)
      ensures State() == Init()
    {
      memory := new word[LINES, WIDTH]((_, _) => 0);
      params := new byte[6](_ => 0);
      nParams, command, haveHigh, high := 0, 0, false, 0;
      window, madctl, scan, scroll := WHOLE_WINDOW, 0, 0x82, NO_SCROLL;
      inReset, sleeping, on, backlight := false, true, false, 255;
      contents := seq(LINES, _ => seq(WIDTH, _ => 0));
      new;
      assert params[..0] == [];
    }

    method BeginCommand(c: byte)
      requires Valid()
      modifies this`command, this`nParams, this`haveHigh
      ensures Valid() && State() == old(State()).(command := c, params := [], pending := None)
    {
      command, nParams, haveHigh := c, 0, false;
      assert params[..nParams] == [];
    }

    method DoReset()
      requires Valid()
      modifies this`command, this`nParams, this`haveHigh, this`window, this`madctl, this`scan, this`scroll,
        this`sleeping, this`on
      ensures Valid() && State() == Reset(old(State()))
    {
      BeginCommand(0);
      window, madctl, scan, scroll := WHOLE_WINDOW, 0, 0x82, NO_SCROLL;
      sleeping, on := true, false;
    }

    method SetResetLine(level: bool)
      requires Valid()
      modifies this
      ensures Valid() && State() == ResetLine(old(State()), level)
    {
      inReset := !level;
      if inReset {
        DoReset();
      }
    }

    method SendCommand(c: byte)
      requires Valid()
      modifies this
      ensures Valid() && State() == Command(old(State()), c)
    {
      if inReset {
        return;
      }
      BeginCommand(c);
      if c == SWRESET {
        DoReset();
      } else if c == SLPIN {
        sleeping := true;
      } else if c == SLPOUT {
        sleeping := false;
      } else if c == DISPOFF {
        on := false;
      } else if c == DISPON {
        on := true;
      } else if c == RAMWR {
        window := window.(col := window.sc, page := window.sp);
      }
    }

    method Store(line: nat, x: nat, w: word)
      requires Valid() && line < LINES && x < WIDTH
      modifies this`contents, memory
      ensures Valid() && contents == Put(old(contents), line, x, w)
    {
      memory[line, x] := w;
      contents := Put(contents, line, x, w);
    }

    method MoveOn()
      requires Valid()
      modifies this`window
      ensures Valid() && window == Advance(old(window))
    {
      if window.col >= window.ec {
        window := window.(col := window.sc, page := if window.page >= window.ep then window.sp else window.page + 1);
      } else {
        window := window.(col := window.col + 1);
      }
    }

    method DoWritePixel(v: word)
      requires Valid()
      modifies this`window, this`contents, memory
      ensures Valid() && State() == WritePixel(old(State()), v)
    {
      var mv := MV(madctl);
      var line: int, x: int := if mv then window.col else window.page, if mv then window.page else window.col;
      if MY(madctl) {
        line := LINES - 1 - line;
      }
      if MX(madctl) {
        x := WIDTH - 1 - x;
      }
      if 0 <= line < LINES && 0 <= x < WIDTH {
        Store(line, x, if BGR(madctl) then v else SwapRedBlue(v));
      }
      MoveOn();
    }

    method DoParameters()
      requires Valid()
      modifies this
      ensures Valid() && State() == Parameters(old(State()))
    {
      if command == CASET {
        if nParams == 4 {
          window := window.(sc := Join(params[0], params[1]), ec := Join(params[2], params[3]));
        }
      } else if command == PASET {
        if nParams == 4 {
          window := window.(sp := Join(params[0], params[1]), ep := Join(params[2], params[3]));
        }
      } else if command == MADCTL {
        if nParams == 1 {
          madctl := params[0];
        }
      } else if command == DFUNCTR {
        if nParams == 2 {
          scan := params[1];
        }
      } else if command == VSCRSADD {
        if nParams == 2 {
          scroll := scroll.(ssa := Join(params[0], params[1]));
        }
      } else if command == VSCRDEF {
        if nParams == 6 && Join(params[0], params[1]) + Join(params[2], params[3]) + Join(params[4], params[5]) == LINES {
          scroll := scroll.(tfa := Join(params[0], params[1]), vsa := Join(params[2], params[3]),
                            bfa := Join(params[4], params[5]));
        }
      }
    }

    method SendData(d: byte)
      requires Valid()
      modifies this, memory, params
      ensures Valid() && State() == Data(old(State()), d)
    {
      if inReset {
        return;
      }
      if command == RAMWR || command == RAMWRC {
        if haveHigh {
          DoWritePixel(Join(high, d));
        } else {
          high := d;
        }
        haveHigh := !haveHigh;
      } else if nParams < 6 {
        params[nParams] := d;
        nParams := nParams + 1;
        assert params[..nParams] == old(params[..nParams]) + [d];
        DoParameters();
      }
    }
  }
}
