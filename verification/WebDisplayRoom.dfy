/** The room the encoder takes for a message, and whether the room it is said to need is enough. */
module WebDisplayRoom {
  import opened Words
  import opened Grids
  import opened PixelCode
  import opened WebDisplay
  import opened WebDisplaySync

  // ---- How long a rectangle is ----

  /** The length of a rectangle of the pixels, the first of a message. */
  function RectLength(px: seq<word>): nat
    requires |px| < LIMIT
  {
    5 + |Bytes(Coded(START, px))|
  }

  /** The most a rectangle is said to take is two bytes a pixel. Every rectangle of n pixels keeps to it exactly when
      n is small enough for three: three colours in turn take three bytes each. */
  lemma RectMaxHolds(n: nat)
    requires n < LIMIT
    ensures (forall px: seq<word> :: |px| == n ==> RectLength(px) <= RECT_MAX) <==> 5 + 3 * n <= RECT_MAX
    ensures RECT_MAX == 8 + 2 * 16 * 240
  {
    forall px: seq<word> | |px| == n ensures RectLength(px) <= 5 + 3 * n {
      CodeFits(START, px);
    }
    var px := Cycle(START, 1, n);
    CycleTakesThree(START, 1, n);
    assert RectLength(px) == 5 + 3 * n;
  }

  // ---- How much room the encoder takes ----

  /** The most a rectangle takes: its header, and three bytes a pixel. */
  const RECT := 5 + 3 * BAND * WIDTH

  lemma PatchFits(c: Memory, p: Patch)
    ensures 0 < |PatchBytes(c, p)| <= RECT
  {
    AreaFits(p.rect.height, p.rect.width);
    CodeFits(c, p.px);
  }

  lemma {:induction false} NextFits(c: Memory, patches: seq<Patch>, k: nat)
    requires k < |patches|
    ensures |PatchesBytes(c, patches[..k])| < |PatchesBytes(c, patches[..k + 1])| <= |PatchesBytes(c, patches[..k])| + RECT
    decreases k
  {
    hide PatchBytes;
    PatchFits(c, patches[0]);
    if k == 0 {
      assert patches[..1][1..] == [];
    } else {
      assert patches[..k][1..] == patches[1..][..k - 1] && patches[..k + 1][1..] == patches[1..][..k];
      NextFits(After(c, Coded(c, patches[0].px)), patches[1..], k - 1);
    }
  }

  /** The bytes in the buffer once j rectangles are written, the last of them one that does not go, perhaps. */
  ghost function Filled(s: Shadow, m: Picture, j: nat): nat
    requires ValidShadow(s) && ValidPicture(m) && j <= |Bands(s, m, 0)|
  {
    |Message(Patches(m, Bands(s, m, 0)[..j]))|
  }

  /** How many rectangles the encoder writes: those that go, and the one that shows that no more do. */
  ghost function WrittenCount(s: Shadow, m: Picture, budget: int): (j: nat)
    requires ValidShadow(s) && ValidPicture(m)
    ensures j <= |Bands(s, m, 0)|
  {
    Min(SentCount(s, m, budget) + 1, |Bands(s, m, 0)|)
  }

  lemma FilledMore(s: Shadow, m: Picture, j: nat)
    requires ValidShadow(s) && ValidPicture(m) && j < |Bands(s, m, 0)|
    ensures Filled(s, m, j) < Filled(s, m, j + 1) <= Filled(s, m, j) + RECT
  {
    hide Bands;
    var bands := Bands(s, m, 0);
    NextFits(START, Patches(m, bands), j);
    PatchesCut(m, bands, j);
    PatchesCut(m, bands, j + 1);
  }

  lemma {:induction false} FilledGrows(s: Shadow, m: Picture, i: nat, j: nat)
    requires ValidShadow(s) && ValidPicture(m) && i <= j <= |Bands(s, m, 0)|
    ensures Filled(s, m, i) <= Filled(s, m, j)
    decreases j
  {
    hide Filled;
    if i < j {
      FilledGrows(s, m, i, j - 1);
      FilledMore(s, m, j - 1);
    }
  }

  lemma FilledNone(s: Shadow, m: Picture)
    requires ValidShadow(s) && ValidPicture(m)
    ensures Filled(s, m, 0) == 1
  {
    assert Patches(m, Bands(s, m, 0)[..0]) == [];
  }

  lemma FilledSends(s: Shadow, m: Picture, budget: int)
    requires ValidShadow(s) && ValidPicture(m)
    ensures var k := SentCount(s, m, budget);
      && (k > 1 ==> Filled(s, m, k) <= budget)
      && (k < |Bands(s, m, 0)| ==> k > 0 && Filled(s, m, k + 1) > budget)
  {
    hide Bands;
    MessageFitsBudget(s, m, budget);
    var k := SentCount(s, m, budget);
    if k > 1 {
      assert Filled(s, m, k) == |Encode(s, m, budget).message|;
    }
  }

  /** While it encodes, the buffer never has more than one rectangle past the budget, or past the first rectangle if that
      is more. */
  lemma RoomTaken(s: Shadow, m: Picture, budget: int, j: nat)
    requires ValidShadow(s) && ValidPicture(m) && j <= WrittenCount(s, m, budget)
    ensures Filled(s, m, j) <= Max(budget, 1 + RECT) + RECT
    ensures |Bands(s, m, 0)| > 0 && Filled(s, m, 1) <= budget ==> Filled(s, m, j) <= budget + RECT
  {
    hide Bands, Filled, SentCount;
    var n := WrittenCount(s, m, budget);
    FilledGrows(s, m, j, n);
    FilledSends(s, m, budget);
    FilledNone(s, m);
    if n > 0 {
      FilledMore(s, m, 0);
      FilledMore(s, m, n - 1);
    }
  }

  // ---- Bands of three colours in turn ----

  const BANDS := LINES / BAND

  /** Three colours in turn on every line. */
  ghost function Cycling(): (m: Picture)
    ensures ValidPicture(m)
  {
    seq(LINES, _ => Cycle(START, 1, WIDTH))
  }

  /** The width of each band that a page lacks. */
  ghost predicate ValidWidths(ws: seq<nat>) {
    |ws| == BANDS && forall i :: 0 <= i < BANDS ==> 0 < ws[i] <= WIDTH && ws[i] % 3 == 0
  }

  /** A colour that is none of the three. */
  const OTHER: word := 2

  function LackingPixel(width: nat, x: nat): word
    requires x < WIDTH
  {
    if x < width then OTHER else Cycle(START, 1, WIDTH)[x]
  }

  function LackingRow(width: nat): (r: seq<word>)
    ensures |r| == WIDTH
  {
    seq(WIDTH, x requires 0 <= x < WIDTH => LackingPixel(width, x))
  }

  /** A page that lacks some of the start of every line, as much for all the lines of a band. */
  ghost function Lacking(ws: seq<nat>): (s: Shadow)
    requires ValidWidths(ws)
    ensures ValidShadow(s)
  {
    Shadow(seq(LINES, l requires 0 <= l < LINES => LackingRow(ws[l / BAND])), seq(LINES, _ => true), 0)
  }

  lemma LackingLine(ws: seq<nat>, l: nat)
    requires ValidWidths(ws) && l < LINES
    ensures var s, m := Lacking(ws), Cycling();
      Stale(s, m, l) && X0(s, m, l) == 0 && X1(s, m, l) == ws[l / BAND]
  {
    var s, m, width := Lacking(ws), Cycling(), ws[l / BAND];
    assert m[l][0] != s.pixels[l][0] && m[l][width - 1] != s.pixels[l][width - 1];
  }

  ghost function LackingBox(ws: seq<nat>, i: nat): Rect
    requires ValidWidths(ws) && i < BANDS
  {
    Box(i * BAND, 0, ws[i], BAND)
  }

  lemma LackingBand(ws: seq<nat>, i: nat)
    requires ValidWidths(ws) && i < BANDS
    ensures LineAt(Lacking(ws).nextLine, i * BAND) == i * BAND && Stale(Lacking(ws), Cycling(), i * BAND)
    ensures BandAt(Lacking(ws), Cycling(), i * BAND).rect == LackingBox(ws, i)
  {
    hide X0, X1, Stale, Lacking, Cycling;
    var s, m, l := Lacking(ws), Cycling(), i * BAND;
    assert s.nextLine == 0 by {
      NextLineZero(ws);
    }
    LackingLine(ws, l);
    var b := BandAt(s, m, l);
    forall k | l <= k < l + BAND ensures Stale(s, m, k) && X0(s, m, k) == 0 && X1(s, m, k) == ws[i] {
      LackingLine(ws, k);
      assert k / BAND == i;
    }
  }

  lemma NextLineZero(ws: seq<nat>)
    requires ValidWidths(ws)
    ensures Lacking(ws).nextLine == 0
  {
  }

  lemma {:induction false} LackingBands(ws: seq<nat>, i: nat)
    requires ValidWidths(ws) && i <= BANDS
    ensures var bands := Bands(Lacking(ws), Cycling(), i * BAND);
      |bands| == BANDS - i && forall j :: 0 <= j < |bands| ==> bands[j].rect == LackingBox(ws, i + j)
    decreases BANDS - i
  {
    hide Stale, Lacking, Cycling, IsBand;
    if i < BANDS {
      LackingBand(ws, i);
      LackingBands(ws, i + 1);
    }
  }

  lemma CyclingRow(l: nat, width: nat)
    requires l < LINES && width <= WIDTH
    ensures Cycling()[l][0..0 + width] == Cycle(START, 1, width)
  {
  }

  lemma NoCycle()
    ensures Cycle(START, 1, 0) == []
  {
  }

  lemma {:induction false} CyclingRows(l: nat, h: nat, width: nat)
    requires l + h <= LINES && width <= WIDTH && width % 3 == 0
    ensures RowsOf(Cycling(), l, h, 0, width) == Cycle(START, 1, Area(h, width)) && Area(h, width) % 3 == 0
    decreases h
  {
    hide Cycle, Cycling;
    if h > 0 {
      CyclingRows(l + 1, h - 1, width);
      CyclingRow(l, width);
      CycleJoined(width, Area(h - 1, width));
    } else {
      NoCycle();
    }
  }

  lemma CycleJoined(k: nat, n: nat)
    requires k % 3 == 0
    ensures Cycle(START, 1, k) + Cycle(START, 1, n) == Cycle(START, 1, k + n)
  {
  }

  lemma {:induction false} AreaIs(h: nat, width: nat)
    ensures Area(h, width) == h * width
  {
    if h > 0 {
      AreaIs(h - 1, width);
    }
  }

  /** Rectangles of whole turns of the three colours. */
  ghost predicate Turning(p: Patch) {
    p.rect.x == 0 && p.rect.width % 3 == 0 && p == Carried(Cycling(), p.rect)
  }

  lemma TurningPatch(p: Patch)
    requires Turning(p)
    ensures |PatchBytes(START, p)| == 5 + 3 * (p.rect.height * p.rect.width) && After(START, Coded(START, p.px)) == START
  {
    hide Cycling, Coded;
    var r := p.rect;
    CyclingRows(r.line, r.height, r.width);
    AreaIs(r.height, r.width);
    CycleTakesThree(START, 1, |p.px|);
    CycleComesRound(START, 1, |p.px|);
  }

  lemma {:induction false} NextTurning(patches: seq<Patch>, k: nat)
    requires k < |patches| && forall j :: 0 <= j <= k ==> Turning(patches[j])
    ensures |PatchesBytes(START, patches[..k + 1])| ==
      |PatchesBytes(START, patches[..k])| + 5 + 3 * (patches[k].rect.height * patches[k].rect.width)
    decreases k
  {
    hide PatchBytes, Turning, Coded, After;
    TurningPatch(patches[0]);
    if k == 0 {
      assert patches[..1][1..] == [] && patches[..0] == [];
      assert PatchesBytes(START, patches[..1]) == PatchBytes(START, patches[0]) + [];
    } else {
      assert patches[..k][1..] == patches[1..][..k - 1] && patches[..k + 1][1..] == patches[1..][..k];
      NextTurning(patches[1..], k - 1);
    }
  }

  /** What the next band adds, if all so far are from the first column on and of whole turns. */
  lemma FilledTurning(s: Shadow, k: nat)
    requires ValidShadow(s) && k < |Bands(s, Cycling(), 0)|
    requires forall j :: 0 <= j <= k ==>
      Bands(s, Cycling(), 0)[j].rect.x == 0 && Bands(s, Cycling(), 0)[j].rect.width % 3 == 0
    ensures var r := Bands(s, Cycling(), 0)[k].rect;
      Filled(s, Cycling(), k + 1) == Filled(s, Cycling(), k) + 5 + 3 * (r.height * r.width)
  {
    hide Bands, Cycling;
    var bands := Bands(s, Cycling(), 0);
    NextTurning(Patches(Cycling(), bands), k);
    PatchesCut(Cycling(), bands, k);
    PatchesCut(Cycling(), bands, k + 1);
  }

  /** The length of the first k bands' rectangles. */
  function Lengths(ws: seq<nat>, k: nat): nat
    requires k <= |ws|
  {
    if k == 0 then 0 else Lengths(ws, k - 1) + 5 + 3 * BAND * ws[k - 1]
  }

  lemma {:induction false} LackingFilled(ws: seq<nat>, k: nat)
    requires ValidWidths(ws) && k <= BANDS
    ensures |Bands(Lacking(ws), Cycling(), 0)| == BANDS
    ensures Filled(Lacking(ws), Cycling(), k) == 1 + Lengths(ws, k)
    decreases k
  {
    hide Bands, Lacking, Cycling, Filled;
    LackingBands(ws, 0);
    assert 0 * BAND == 0;
    if k == 0 {
      FilledNone(Lacking(ws), Cycling());
    } else {
      LackingFilled(ws, k - 1);
      forall j | 0 <= j < BANDS ensures Bands(Lacking(ws), Cycling(), 0)[j].rect == LackingBox(ws, j) {
        assert 0 + j == j;
      }
      FilledTurning(Lacking(ws), k - 1);
    }
  }

  // ---- Starting at line 15 ----

  /** A new page, the next message starting at line 15: its bands are nineteen whole ones, the last line, and fifteen. */
  ghost function Turned(): (s: Shadow)
    ensures ValidShadow(s)
  {
    Forgotten().(nextLine := BAND - 1)
  }

  ghost function TurnedBox(k: nat): Rect
    requires k <= BANDS
  {
    if k < BANDS - 1 then Box(BAND - 1 + k * BAND, 0, WIDTH, BAND)
    else if k == BANDS - 1 then Box(LINES - 1, 0, WIDTH, 1)
    else Box(0, 0, WIDTH, BAND - 1)
  }

  function TurnedAt(k: nat): nat
    requires k <= BANDS + 1
  {
    if k < BANDS then k * BAND else if k == BANDS then LINES - BAND + 1 else LINES
  }

  lemma TurnedBand(k: nat)
    requires k <= BANDS
    ensures Stale(Turned(), Cycling(), LineAt(BAND - 1, TurnedAt(k)))
    ensures BandAt(Turned(), Cycling(), TurnedAt(k)).rect == TurnedBox(k)
    ensures TurnedAt(k) + TurnedBox(k).height == TurnedAt(k + 1)
  {
    hide Cycling;
    var b := BandAt(Turned(), Cycling(), TurnedAt(k));
    assert Stale(Turned(), Cycling(), b.rect.line);
  }

  lemma {:induction false} TurnedBands(k: nat)
    requires k <= BANDS + 1
    ensures var bands := Bands(Turned(), Cycling(), TurnedAt(k));
      |bands| == BANDS + 1 - k && forall j :: 0 <= j < |bands| ==> bands[j].rect == TurnedBox(k + j)
    decreases BANDS + 1 - k
  {
    hide Stale, Cycling, IsBand, TurnedBox;
    if k <= BANDS {
      TurnedBand(k);
      TurnedBands(k + 1);
    }
  }

  lemma TurnedBoxes()
    ensures forall j :: 0 <= j <= BANDS ==> (
      && TurnedBox(j).x == 0 && TurnedBox(j).width == WIDTH
      && TurnedBox(j).height == if j < BANDS - 1 then BAND else if j == BANDS - 1 then 1 else BAND - 1)
  {
  }

  lemma {:induction false} TurnedFilled(k: nat)
    requires k <= BANDS + 1
    ensures |Bands(Turned(), Cycling(), 0)| == BANDS + 1
    ensures Filled(Turned(), Cycling(), k) == 1 + 5 * k + 3 * WIDTH *
      if k < BANDS then k * BAND else if k == BANDS then LINES - BAND + 1 else LINES
    decreases k
  {
    hide Bands, Turned, Cycling, Filled, TurnedBox;
    TurnedBands(0);
    TurnedBoxes();
    if k == 0 {
      FilledNone(Turned(), Cycling());
    } else {
      TurnedFilled(k - 1);
      forall j | 0 <= j <= BANDS ensures Bands(Turned(), Cycling(), 0)[j].rect == TurnedBox(j) {
        assert 0 + j == j;
      }
      FilledTurning(Turned(), k - 1);
    }
  }

  // ---- Whether the room is enough ----

  /** A band is written if all those before it are within the budget. */
  lemma FittingWritten(s: Shadow, m: Picture, budget: int, k: nat)
    requires ValidShadow(s) && ValidPicture(m) && k < |Bands(s, m, 0)| && (k == 0 || Filled(s, m, k) <= budget)
    ensures k + 1 <= WrittenCount(s, m, budget)
  {
    hide Bands, Filled, SentCount;
    FilledSends(s, m, budget);
    var n := SentCount(s, m, budget);
    if n < k {
      FilledGrows(s, m, n + 1, k);
    }
  }

  /** Whole bands, then one of some width, then whole ones again. */
  ghost function Widths(whole: nat, width: nat): seq<nat> {
    seq(BANDS, i => if i == whole then width else WIDTH)
  }

  lemma {:induction false} WidthsLength(whole: nat, width: nat, k: nat)
    requires k <= BANDS
    ensures Lengths(Widths(whole, width), k) == if k <= whole then k * RECT else (k - 1) * RECT + 5 + 3 * BAND * width
  {
    if k > 0 {
      WidthsLength(whole, width, k - 1);
    }
  }

  /** As many whole bands as the budget has, and a third of the width for what is left of it, if that is much. */
  lemma Chosen(budget: int) returns (whole: nat, third: nat, j: nat)
    requires budget + RECT_MAX < 1 + BANDS * RECT
    ensures 0 < 3 * third <= WIDTH && whole < j <= BANDS
    ensures j == whole + 1 ==> 3 * third == WIDTH && (whole == 0 || 1 + whole * RECT <= budget)
    ensures j == whole + 1 ==> 1 + (whole + 1) * RECT > budget + RECT_MAX
    ensures j > whole + 1 ==> j == whole + 2 && 1 + whole * RECT + 5 + 9 * BAND * third <= budget
    ensures j > whole + 1 ==> 1 + (whole + 1) * RECT + 5 + 9 * BAND * third > budget + RECT_MAX
  {
    whole := if budget < 1 then 0 else (budget - 1) / RECT;
    var rest := budget - 1 - whole * RECT;
    if rest < RECT - RECT_MAX {
      third, j := WIDTH / 3, whole + 1;
    } else {
      third, j := (rest - 5) / (9 * BAND), whole + 2;
    }
  }

  lemma LackingExceeds(ws: seq<nat>, budget: int, j: nat)
    requires ValidWidths(ws) && 0 < j <= BANDS
    requires (j == 1 || 1 + Lengths(ws, j - 1) <= budget) && 1 + Lengths(ws, j) > budget + RECT_MAX
    ensures j <= WrittenCount(Lacking(ws), Cycling(), budget) && Filled(Lacking(ws), Cycling(), j) > budget + RECT_MAX
  {
    hide Lacking, Cycling, Filled, WrittenCount, Lengths;
    LackingFilled(ws, j - 1);
    LackingFilled(ws, j);
    FittingWritten(Lacking(ws), Cycling(), budget, j - 1);
  }

  /** The bands that take the encoder past the room: whole ones, one of a width, and a whole one. */
  lemma RoomExceeded(budget: int) returns (ws: seq<nat>, j: nat)
    requires budget + RECT_MAX < 1 + BANDS * RECT
    ensures ValidWidths(ws)
    ensures j <= WrittenCount(Lacking(ws), Cycling(), budget) && Filled(Lacking(ws), Cycling(), j) > budget + RECT_MAX
  {
    hide Lacking, Cycling, Filled, WrittenCount, Lengths, Widths, ValidWidths;
    var whole, third;
    whole, third, j := Chosen(budget);
    ws := Widths(whole, 3 * third);
    WidthsValid(whole, third);
    WidthsLength(whole, 3 * third, j - 1);
    WidthsLength(whole, 3 * third, j);
    LackingExceeds(ws, budget, j);
  }

  lemma WidthsValid(whole: nat, third: nat)
    requires 0 < 3 * third <= WIDTH
    ensures ValidWidths(Widths(whole, 3 * third))
  {
  }

  /** The most that everything takes: 21 rectangles, as the display's end cuts one in two, and three bytes a pixel. */
  const ALL := 1 + 5 * (BANDS + 1) + 3 * LINES * WIDTH

  /** The most bands from i lines on: those to the display's end, and those after it. */
  function MostBands(next: nat, i: nat): nat
    requires next < LINES && i <= LINES
  {
    if i < LINES - next then (LINES - next - i + BAND - 1) / BAND + (next + BAND - 1) / BAND
    else (LINES - i + BAND - 1) / BAND
  }

  function Most(next: nat, i: nat): nat
    requires next < LINES && i <= LINES
  {
    5 * MostBands(next, i) + 3 * WIDTH * (LINES - i)
  }

  lemma MostAfter(next: nat, i: nat, h: nat)
    requires next < LINES && i < LINES && 0 < h <= BAND && i + h <= LINES && LineAt(next, i) + h <= LINES
    ensures h == BAND || i + h == LINES || LineAt(next, i) + h == LINES ==> 5 + 3 * WIDTH * h + Most(next, i + h) <= Most(next, i)
    ensures i + h < LINES ==> 5 + 3 * WIDTH * h + Most(next, i + h + 1) <= Most(next, i)
  {
  }

  lemma MostSkips(next: nat, i: nat)
    requires next < LINES && i < LINES
    ensures Most(next, i + 1) <= Most(next, i)
  {
  }

  lemma BandFits(c: Memory, m: Picture, r: Rect)
    requires ValidPicture(m)
    ensures |PatchBytes(c, Carried(m, r))| <= 5 + 3 * WIDTH * r.height
  {
    AreaFits(r.height, r.width);
    CodeFits(c, Carried(m, r).px);
  }

  lemma BandShape(s: Shadow, m: Picture, b: Band)
    requires ValidShadow(s) && ValidPicture(m) && IsBand(s, m, b)
    ensures var i, l, h := b.i, b.rect.line, b.rect.height;
      && i + h <= LINES && l == LineAt(s.nextLine, i)
      && (h == BAND || i + h == LINES || l + h == LINES || !Stale(s, m, LineAt(s.nextLine, i + h)))
  {
    hide X0, X1, Stale;
  }

  /** The band at a stale line, and the bands after it. */
  lemma BandThenMore(c: Memory, s: Shadow, m: Picture, i: nat)
    requires ValidShadow(s) && ValidPicture(m) && i < LINES && Stale(s, m, LineAt(s.nextLine, i))
    ensures var b := BandAt(s, m, i);
      var p, l, h := Carried(m, b.rect), b.rect.line, b.rect.height;
      && i + h <= LINES && l == LineAt(s.nextLine, i)
      && (h == BAND || i + h == LINES || l + h == LINES || !Stale(s, m, LineAt(s.nextLine, i + h)))
      && PatchesBytes(c, Patches(m, Bands(s, m, i))) ==
         PatchBytes(c, p) + PatchesBytes(After(c, Coded(c, p.px)), Patches(m, Bands(s, m, i + h)))
  {
    hide PatchBytes, Coded, After, X0, X1, Stale, IsBand, LineAt, Carried, BandAt;
    var b := BandAt(s, m, i);
    BandShape(s, m, b);
    var more := Bands(s, m, i + b.rect.height);
    assert Patches(m, [b] + more) == [Carried(m, b.rect)] + Patches(m, more);
    assert ([Carried(m, b.rect)] + Patches(m, more))[1..] == Patches(m, more);
  }

  lemma NoBandYet(s: Shadow, m: Picture, i: nat)
    requires ValidShadow(s) && ValidPicture(m) && i <= LINES
    ensures i == LINES ==> Bands(s, m, i) == []
    ensures i < LINES && !Stale(s, m, LineAt(s.nextLine, i)) ==> Bands(s, m, i) == Bands(s, m, i + 1)
  {
  }

  lemma {:induction false} BandsFit(c: Memory, s: Shadow, m: Picture, i: nat)
    requires ValidShadow(s) && ValidPicture(m) && i <= LINES
    ensures |PatchesBytes(c, Patches(m, Bands(s, m, i)))| <=
      if i < LINES && !Stale(s, m, LineAt(s.nextLine, i)) then Most(s.nextLine, i + 1) else Most(s.nextLine, i)
    decreases LINES - i
  {
    hide PatchBytes, Bands, BandAt, IsBand, Coded, After, Most, Stale, LineAt, Carried;
    NoBandYet(s, m, i);
    if i < LINES {
      if Stale(s, m, LineAt(s.nextLine, i)) {
        var r := BandAt(s, m, i).rect;
        BandFits(c, m, r);
        BandThenMore(c, s, m, i);
        BandsFit(After(c, Coded(c, Carried(m, r).px)), s, m, i + r.height);
        MostAfter(s.nextLine, i, r.height);
      } else {
        BandsFit(c, s, m, i + 1);
        if i + 1 < LINES {
          MostSkips(s.nextLine, i + 1);
        }
      }
    }
  }

  lemma FilledFits(s: Shadow, m: Picture, j: nat)
    requires ValidShadow(s) && ValidPicture(m) && j <= |Bands(s, m, 0)|
    ensures Filled(s, m, j) <= ALL
  {
    hide Bands, PatchesBytes;
    var bands := Bands(s, m, 0);
    FilledGrows(s, m, j, |bands|);
    assert bands[..|bands|] == bands;
    BandsFit(START, s, m, 0);
  }

  /** The room the encoder takes is within a size, whatever the page has and whatever there is to send. */
  ghost predicate RoomIs(budget: int, size: int) {
    forall s: Shadow, m: Picture, j: nat ::
      ValidShadow(s) && ValidPicture(m) && j <= WrittenCount(s, m, budget) ==> Filled(s, m, j) <= size
  }

  lemma TurnedExceeds(budget: int)
    requires 1 + BANDS * RECT <= budget + RECT_MAX < ALL
    ensures BANDS + 1 <= WrittenCount(Turned(), Cycling(), budget)
    ensures Filled(Turned(), Cycling(), BANDS + 1) > budget + RECT_MAX
  {
    hide Bands, Filled, Turned, Cycling, WrittenCount;
    TurnedFilled(BANDS);
    TurnedFilled(BANDS + 1);
    FittingWritten(Turned(), Cycling(), budget, BANDS);
  }

  /** The encoder is said to need room for its budget and RECT_MAX. That is enough for every page and memory exactly if it
      is room for everything there could be to send. */
  lemma StatedRoomIsEnough(budget: int)
    ensures RoomIs(budget, budget + RECT_MAX) <==> budget + RECT_MAX >= ALL
  {
    hide Bands, Filled, Turned, Cycling, Lacking, WrittenCount;
    if budget + RECT_MAX >= ALL {
      forall s: Shadow, m: Picture, j: nat | ValidShadow(s) && ValidPicture(m) && j <= WrittenCount(s, m, budget)
        ensures Filled(s, m, j) <= budget + RECT_MAX
      {
        FilledFits(s, m, j);
      }
    } else if budget + RECT_MAX >= 1 + BANDS * RECT {
      TurnedExceeds(budget);
    } else {
      var ws, j := RoomExceeded(budget);
    }
  }
}
