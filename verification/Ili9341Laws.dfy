/** What a program's bytes do to the display: its switches, its registers, and the pixels of a window in order. */
module PanelLaws {
  import opened Words
  import opened Grids
  import opened Ili9341

  ghost function Given(p: Panel, data: seq<byte>): (r: Panel)
    requires ValidPanel(p)
    ensures ValidPanel(r)
  {
    if data == [] then p else Data(Given(p, data[..|data| - 1]), data[|data| - 1])
  }

  lemma {:induction false} GivenJoined(p: Panel, a: seq<byte>, b: seq<byte>)
    requires ValidPanel(p)
    ensures Given(p, a + b) == Given(Given(p, a), b)
    decreases |b|
  {
    hide Data;
    if b == [] {
      assert a + b == a;
    } else {
      GivenJoined(p, a, b[..|b| - 1]);
      assert (a + b)[..|a + b| - 1] == a + b[..|b| - 1];
    }
  }

  // ---- Switches and registers ----

  /** The display shows once it is awake and on: $11 wakes it and $10 puts it to sleep, $29 turns it on and $28 off, and
      $01, a reset, does both. No command changes its memory. */
  lemma Switches(p: Panel, c: byte)
    ensures var r := Command(p, c);
      && r.memory == p.memory
      && (Showing(r) <==>
          && !p.inReset
          && (c == 0x11 || (!p.sleeping && c != 0x10 && c != 0x01)) && (c == 0x29 || (p.on && c != 0x28 && c != 0x01)))
  {
  }

  /** The registers as a reset leaves them: the whole panel the window, no mirroring, no scroll, asleep and off. */
  predicate AfterReset(p: Panel) {
    && p.window == Window(0, 239, 0, 319, 0, 0) && p.madctl == 0 && p.scan == 0x82 && p.scroll == Scroll(0, 320, 0, 0)
    && p.sleeping && !p.on && p.command == 0 && p.params == [] && p.pending == None
  }

  /** While the reset line is low the display takes nothing and shows nothing; either reset leaves the memory as it is. */
  lemma Resets(p: Panel, b: byte)
    requires ValidPanel(p)
    ensures var low := ResetLine(p, false);
      && Command(low, b) == low && Data(low, b) == low && !Showing(low)
      && var r := ResetLine(low, true); AfterReset(r) && !r.inReset && r.memory == p.memory && r.backlight == p.backlight
    ensures var r := Command(p, 0x01); !p.inReset ==> AfterReset(r) && r == p.(
      window := r.window, madctl := 0, scan := 0x82, scroll := r.scroll, sleeping := true, on := false,
      command := 0, params := [], pending := None)
    ensures !p.inReset ==> ResetLine(p, true) == p
  {
  }

  /** A new display is as after a reset, its memory clear and its backlight full. */
  lemma StartsReset()
    ensures var p := Init(); AfterReset(p) && !p.inReset && p.backlight == 255
    ensures Shaped(Init().memory, 320, 240) && forall l, x :: 0 <= l < 320 && 0 <= x < 240 ==> Init().memory[l][x] == 0
  {
  }

  /** After a command and its parameters. */
  ghost function Set(p: Panel, c: byte, data: seq<byte>): Panel
    requires ValidPanel(p)
  {
    Given(Command(p, c), data)
  }

  /** The panel but for the command under way. */
  function But(p: Panel): Panel {
    p.(command := 0, params := [], pending := None)
  }

  function ParametersOf(c: byte): nat {
    if c == 0x2A || c == 0x2B then 4 else if c == 0x33 then 6 else if c == 0x36 then 1 else if c == 0x37 || c == 0xB6 then 2
    else 0
  }

  /** Parameters gather one by one; while there are too few they do nothing. */
  lemma {:induction false} Gathered(p: Panel, c: byte, data: seq<byte>)
    requires ValidPanel(p) && !p.inReset && |data| < ParametersOf(c)
    ensures Set(p, c, data) == p.(command := c, params := data, pending := None)
    decreases |data|
  {
    if data != [] {
      Gathered(p, c, data[..|data| - 1]);
      assert data[..|data| - 1] + [data[|data| - 1]] == data;
    }
  }

  /** The window's bounds, the mirroring, the scan and the scroll's start are as the parameters say, high bytes first, and
      nothing else changes. */
  lemma Registers(p: Panel, a: byte, b: byte, c: byte, d: byte)
    requires ValidPanel(p) && !p.inReset
    ensures But(Set(p, 0x2A, [a, b, c, d])) == But(p.(window := p.window.(sc := Join(a, b), ec := Join(c, d))))
    ensures But(Set(p, 0x2B, [a, b, c, d])) == But(p.(window := p.window.(sp := Join(a, b), ep := Join(c, d))))
    ensures But(Set(p, 0x36, [a])) == But(p.(madctl := a)) && But(Set(p, 0xB6, [a, b])) == But(p.(scan := b))
    ensures But(Set(p, 0x37, [a, b])) == But(p.(scroll := p.scroll.(ssa := Join(a, b))))
  {
    hide Set, Given;
    LastSets(p, 0x2A, [a, b, c, d]);
    LastSets(p, 0x2B, [a, b, c, d]);
    LastSets(p, 0x36, [a]);
    LastSets(p, 0xB6, [a, b]);
    LastSets(p, 0x37, [a, b]);
  }

  lemma LastSets(p: Panel, c: byte, data: seq<byte>)
    requires ValidPanel(p) && !p.inReset && |data| == ParametersOf(c) > 0
    ensures Set(p, c, data) == Parameters(p.(command := c, params := data, pending := None))
  {
    hide Parameters;
    var before := data[..|data| - 1];
    Gathered(p, c, before);
    assert before + [data[|data| - 1]] == data;
  }

  /** A scroll area is taken if it fills the panel, and refused if not. */
  lemma ScrollSet(p: Panel, a: byte, b: byte, c: byte, d: byte, e: byte, f: byte)
    requires ValidPanel(p) && !p.inReset
    ensures var top, area, bottom := Join(a, b), Join(c, d), Join(e, f);
      But(Set(p, 0x33, [a, b, c, d, e, f])) ==
      But(p.(scroll := if top + area + bottom == 320 then p.scroll.(tfa := top, vsa := area, bfa := bottom) else p.scroll))
  {
    hide Set, Given;
    LastSets(p, 0x33, [a, b, c, d, e, f]);
  }

  /** Parameters past a command's own, or of another command, do nothing. */
  lemma ExtraIgnored(p: Panel, d: byte)
    requires ValidPanel(p) && p.command != 0x2C && p.command != 0x3C
    requires |p.params| >= ParametersOf(p.command)
    ensures But(Data(p, d)) == But(p)
  {
  }

  // ---- Pixels ----

  /** The byte has the bit. */
  predicate Has(m: byte, bit: nat)
    requires bit > 0
  {
    m % (2 * bit) >= bit
  }

  lemma HasBits(m: byte)
    ensures MY(m) == Has(m, 0x80) && MX(m) == Has(m, 0x40) && MV(m) == Has(m, 0x20) && BGR(m) == Has(m, 0x08)
    ensures GS(m) == Has(m, 0x40) && SS(m) == Has(m, 0x20)
  {
  }

  /** Red, green and blue in an RGB565 pixel; red and blue exchanged are blue and red. */
  lemma ColoursSwap(r: nat, g: nat, b: nat)
    requires r < 32 && g < 64 && b < 32
    ensures SwapRedBlue(0x800 * r + 0x20 * g + b) == 0x800 * b + 0x20 * g + r
  {
    var v := 0x800 * r + 0x20 * g + b;
    assert v / 0x20 == 0x40 * r + g && v % 0x20 == b && v / 0x800 == r;
  }

  predicate Proper(w: Window) {
    w.sc <= w.ec && w.sp <= w.ep
  }

  /** The column and the page of the window's pixel numbered i: along its columns, then its pages, and round again. */
  function PlaceOf(w: Window, i: nat): (nat, nat)
    requires Proper(w)
  {
    var width, height := w.ec - w.sc + 1, w.ep - w.sp + 1;
    (w.sc + i % width, w.sp + i / width % height)
  }

  /** Where in the memory that is: exchanged, and then mirrored, as MADCTL says. */
  function SpotOf(w: Window, madctl: byte, i: nat): (int, int)
    requires Proper(w)
  {
    var (col, page) := PlaceOf(w, i);
    var (line: int, x: int) := if Has(madctl, 0x20) then (col, page) else (page, col);
    (if Has(madctl, 0x80) then 319 - line else line, if Has(madctl, 0x40) then 239 - x else x)
  }

  /** What the memory holds at l, x after n of the pixels: the last of them put there, or what it held. */
  ghost function LastAt(p: Panel, v: seq<word>, n: nat, l: nat, x: nat): word
    requires ValidPanel(p) && Proper(p.window) && n <= |v| && l < LINES && x < WIDTH
  {
    if n == 0 then p.memory[l][x]
    else if SpotOf(p.window, p.madctl, n - 1) == (l, x) then
      if Has(p.madctl, 0x08) then v[n - 1] else SwapRedBlue(v[n - 1])
    else LastAt(p, v, n - 1, l, x)
  }

  /** Pixels as bytes, the high one first. */
  function PixelBytes(v: seq<word>): seq<byte> {
    if v == [] then [] else PixelBytes(v[..|v| - 1]) + [v[|v| - 1] / 0x100, v[|v| - 1] % 0x100]
  }

  /** r has the first n of the pixels, and waits for the next. */
  ghost predicate Holding(p: Panel, v: seq<word>, n: nat, r: Panel)
    requires ValidPanel(p) && Proper(p.window) && n <= |v| && ValidPanel(r)
  {
    && (r.command == 0x2C || r.command == 0x3C) && !r.inReset && r.pending == None
    && (r.window.col, r.window.page) == PlaceOf(p.window, n)
    && r == p.(command := r.command, params := r.params, pending := None, memory := r.memory,
               window := p.window.(col := r.window.col, page := r.window.page))
    && forall l, x :: 0 <= l < LINES && 0 <= x < WIDTH ==> r.memory[l][x] == LastAt(p, v, n, l, x)
  }

  lemma NextPlace(w: Window, i: nat)
    requires Proper(w)
    ensures var (col, page) := PlaceOf(w, i);
      var next := Advance(w.(col := col, page := page)); (next.col, next.page) == PlaceOf(w, i + 1)
  {
    var width, height := w.ec - w.sc + 1, w.ep - w.sp + 1;
    var q, r := i / width, i % width;
    Carried(i, width);
    Carried(q, height);
  }

  lemma Carried(i: nat, n: nat)
    requires n > 0
    ensures if i % n == n - 1 then (i + 1) % n == 0 && (i + 1) / n == i / n + 1
            else (i + 1) % n == i % n + 1 && (i + 1) / n == i / n
  {
    var q, r := i / n, i % n;
    if r == n - 1 {
      assert i + 1 == n * (q + 1);
      ModUnique(i + 1, n, q + 1, 0);
      QuotientIs(i + 1, n, q + 1, 0);
    } else {
      ModUnique(i + 1, n, q, r + 1);
      QuotientIs(i + 1, n, q, r + 1);
    }
  }

  lemma QuotientIs(a: nat, n: nat, q: nat, r: nat)
    requires n > 0 && r < n && a == n * q + r
    ensures a / n == q
  {
    var d := q - a / n;
    assert n * d == a % n - r;
    MulBounds(n, d);
  }

  lemma OnePixel(r: Panel, v: word)
    requires ValidPanel(r) && !r.inReset && r.pending == None && (r.command == 0x2C || r.command == 0x3C)
    ensures Given(r, [v / 0x100, v % 0x100]) == WritePixel(r, v).(pending := None)
  {
    hide WritePixel;
    var high, low := v / 0x100, v % 0x100;
    assert [high, low][..1] == [high] && [high][..0] == [] && Given(r, []) == r;
    var d := r.(pending := Some(high));
    assert Given(r, [high]) == d;
    assert Data(d, low) == WritePixel(d, v).(pending := None);
    PendingApart(r, Some(high), v);
  }

  lemma PendingApart(r: Panel, pending: Option<byte>, v: word)
    requires ValidPanel(r)
    ensures WritePixel(r.(pending := pending), v).(pending := None) == WritePixel(r, v).(pending := None)
  {
  }

  lemma PixelAdded(p: Panel, v: seq<word>, n: nat, r: Panel)
    requires ValidPanel(p) && Proper(p.window) && n < |v| && ValidPanel(r) && Holding(p, v, n, r)
    ensures Holding(p, v, n + 1, Given(r, [v[n] / 0x100, v[n] % 0x100]))
  {
    hide SwapRedBlue, PlaceOf, Advance, Data, Given, MV, MX, MY, BGR, GS, SS, Has;
    OnePixel(r, v[n]);
    NextPlace(p.window, n);
    AdvanceIn(p.window, r.window);
    HasBits(p.madctl);
    var s := Given(r, [v[n] / 0x100, v[n] % 0x100]);
    assert (TargetLine(r.window, r.madctl), TargetX(r.window, r.madctl)) == SpotOf(p.window, p.madctl, n);
    forall l, x | 0 <= l < LINES && 0 <= x < WIDTH ensures s.memory[l][x] == LastAt(p, v, n + 1, l, x) {
    }
  }

  lemma AdvanceIn(w: Window, u: Window)
    requires u == w.(col := u.col, page := u.page)
    ensures var r := Advance(u); r == w.(col := r.col, page := r.page)
  {
  }

  lemma NoneGiven(r: Panel)
    requires ValidPanel(r)
    ensures Given(r, []) == r
  {
  }

  /** $2C and pixels fill the window in order from its start, each where MADCTL puts it, in red and blue as it says; what is
      off the panel is lost, and what comes after the window's last goes to its first again. $3C goes on. */
  lemma FillsWindow(p: Panel, v: seq<word>, n: nat)
    requires ValidPanel(p) && Proper(p.window) && !p.inReset && n <= |v|
    ensures var r := Set(p, 0x2C, PixelBytes(v[..n]));
      var s := Set(r, 0x3C, PixelBytes(v[n..]));
      Holding(p, v, n, r) && Holding(p, v, |v|, s)
  {
    hide Holding, Data, Given;
    var started := Command(p, 0x2C);
    Started(p, v);
    PixelsFrom(p, v, started, 0, n);
    assert v[0..n] == v[..n];
    var r := Given(started, PixelBytes(v[..n]));
    Continued(p, v, n, r);
    PixelsFrom(p, v, Command(r, 0x3C), n, |v|);
    assert v[n..|v|] == v[n..];
  }

  lemma Started(p: Panel, v: seq<word>)
    requires ValidPanel(p) && Proper(p.window) && !p.inReset
    ensures Holding(p, v, 0, Command(p, 0x2C))
  {
    hide PlaceOf;
    FirstPlace(p.window);
  }

  lemma FirstPlace(w: Window)
    requires Proper(w)
    ensures PlaceOf(w, 0) == (w.sc, w.sp)
  {
  }

  lemma Continued(p: Panel, v: seq<word>, n: nat, r: Panel)
    requires ValidPanel(p) && Proper(p.window) && n <= |v| && ValidPanel(r) && Holding(p, v, n, r)
    ensures Holding(p, v, n, Command(r, 0x3C))
  {
    hide LastAt, PlaceOf;
  }

  lemma {:induction false} PixelsFrom(p: Panel, v: seq<word>, r: Panel, n: nat, m: nat)
    requires ValidPanel(p) && Proper(p.window) && ValidPanel(r) && n <= m <= |v| && Holding(p, v, n, r)
    ensures Holding(p, v, m, Given(r, PixelBytes(v[n..m])))
    decreases m
  {
    hide Holding, Data, Given;
    if n == m {
      assert v[n..m] == [];
      NoneGiven(r);
    } else {
      PixelsFrom(p, v, r, n, m - 1);
      assert v[n..m][..m - n - 1] == v[n..m - 1] && v[n..m][m - n - 1] == v[m - 1];
      GivenJoined(r, PixelBytes(v[n..m - 1]), [v[m - 1] / 0x100, v[m - 1] % 0x100]);
      PixelAdded(p, v, m - 1, Given(r, PixelBytes(v[n..m - 1])));
    }
  }

  // ---- The glass ----

  /** A row of the glass and a pixel of it are those of the scan, mirrored as $B6 says; the row's line is then its own in the
      fixed areas, and in the scroll area in a cycle from the scroll's start. Blank, it is white. */
  lemma GlassIsMemory(p: Panel, x: nat, y: nat)
    requires ValidPanel(p) && x < WIDTH && y < LINES
    ensures !Showing(p) ==> GlassPixel(p, x, y) == 0xFFFF
    ensures Showing(p) ==>
      var k, across, s := (if Has(p.scan, 0x40) then 319 - y else y), (if Has(p.scan, 0x20) then x else 239 - x), p.scroll;
      if s.tfa <= k < s.tfa + s.vsa then
        var line := s.tfa + (s.ssa - s.tfa + k - s.tfa) % s.vsa;
        0 <= line < LINES && GlassPixel(p, x, y) == p.memory[line][across]
      else
        GlassPixel(p, x, y) == p.memory[k][across]
  {
    hide GlassLine, GS, SS, Has;
    HasBits(p.scan);
    GlassLineCycles(p, y);
  }
}
