/** The graphic display's memory on its way to a page: messages of the rectangles the page lacks, up to a budget. */
module WebDisplay {
  import opened Words
  import opened Grids
  import opened PixelCode

  const LINES := 320
  const WIDTH := 240
  const BAND := 16
  const TAG: byte := 0x02
  const RECT_MAX := 5 + 3 + 2 * BAND * WIDTH

  type Picture = seq<seq<word>>

  ghost predicate ValidPicture(m: Picture) {
    Shaped(m, LINES, WIDTH)
  }

  // ---- Messages ----

  datatype Box = Box(line: nat, x: nat, width: nat, height: nat)

  predicate OnDisplay(r: Box) {
    0 < r.height <= BAND && r.line + r.height <= LINES && 0 < r.width && r.x + r.width <= WIDTH
  }

  /** A rectangle a message can carry. */
  type Rect = r: Box | OnDisplay(r) witness Box(0, 0, 1, 1)

  /** The pixels in rows of a width. */
  function Area(height: nat, width: nat): nat {
    if height == 0 then 0 else width + Area(height - 1, width)
  }

  lemma {:induction false} AreaFits(h: nat, width: nat)
    requires h <= BAND && width <= WIDTH
    ensures Area(h, width) <= h * WIDTH
  {
    if h > 0 {
      AreaFits(h - 1, width);
    }
  }

  datatype Piece = Piece(rect: Rect, px: seq<word>)

  /** A rectangle and its pixels, row by row. */
  type Patch = p: Piece | |p.px| == Area(p.rect.height, p.rect.width) < LIMIT witness Piece(Box(0, 0, 1, 1), [0])

  function RectHeader(r: Rect): (b: seq<byte>)
    ensures |b| == 5
  {
    Bytes16(r.line) + [r.x, r.width - 1, r.height - 1]
  }

  function PatchBytes(c: Memory, p: Patch): (b: seq<byte>)
    ensures |b| >= 5
  {
    RectHeader(p.rect) + Bytes(Coded(c, p.px))
  }

  function PatchesBytes(c: Memory, patches: seq<Patch>): seq<byte>
    decreases patches
  {
    if patches == [] then []
    else PatchBytes(c, patches[0]) + PatchesBytes(After(c, Coded(c, patches[0].px)), patches[1..])
  }

  function Message(patches: seq<Patch>): seq<byte> {
    [TAG] + PatchesBytes(START, patches)
  }

  /** A rectangle read by the documented format, and the colours remembered after it. */
  function ReadPatch(c: Memory, b: seq<byte>): (r: Option<Read<(Patch, Memory)>>)
    ensures r.Some? ==> |r.value.rest| < |b|
  {
    if |b| < 5 then None
    else
      var box := Box(Word16(b), b[2], b[3] as int + 1, b[4] as int + 1);
      if !OnDisplay(box) then None
      else
        AreaFits(box.height, box.width);
        match Decode(c, b[5..], Area(box.height, box.width))
        case None => None
        case Some(d) => if |d.px| == Area(box.height, box.width) then Some(Read((Piece(box, d.px), d.c), d.rest)) else None
  }

  function ReadPatches(c: Memory, b: seq<byte>): Option<seq<Patch>>
    decreases |b|
  {
    if b == [] then Some([])
    else
      match ReadPatch(c, b)
      case None => None
      case Some(first) =>
        match ReadPatches(first.value.1, first.rest)
        case None => None
        case Some(more) => Some([first.value.0] + more)
  }

  function ReadMessage(b: seq<byte>): Option<seq<Patch>> {
    if b == [] || b[0] != 0x02 then None else ReadPatches(Memory(0x0000, 0xFFFF), b[1..])
  }

  lemma RectReads(r: Rect, rest: seq<byte>)
    ensures var b := RectHeader(r) + rest;
      && b[5..] == rest && Box(Word16(b), b[2], b[3] as int + 1, b[4] as int + 1) == r
  {
    var b := RectHeader(r) + rest;
    assert b[0] == r.line % 0x100 && b[1] == r.line / 0x100;
    assert b[2] == r.x && b[3] == r.width - 1 && b[4] == r.height - 1;
  }

  lemma PatchReads(c: Memory, p: Patch, rest: seq<byte>)
    ensures ReadPatch(c, PatchBytes(c, p) + rest) == Some(Read((p, After(c, Coded(c, p.px))), rest))
  {
    hide Coded, Bytes, After, Word16, Bytes16, RectHeader, OnDisplay;
    var body := Bytes(Coded(c, p.px)) + rest;
    assert PatchBytes(c, p) + rest == RectHeader(p.rect) + body;
    RectReads(p.rect, body);
    CodeDecodes(c, p.px, rest);
  }

  lemma {:induction false} PatchesRead(c: Memory, patches: seq<Patch>)
    ensures ReadPatches(c, PatchesBytes(c, patches)) == Some(patches)
    decreases patches
  {
    if patches != [] {
      var c' := After(c, Coded(c, patches[0].px));
      PatchReads(c, patches[0], PatchesBytes(c', patches[1..]));
      PatchesRead(c', patches[1..]);
      assert patches == [patches[0]] + patches[1..];
    }
  }

  /** A message reads back as the rectangles it was made of, colours carried from one to the next. */
  lemma MessageReads(patches: seq<Patch>)
    ensures ReadMessage(Message(patches)) == Some(patches)
  {
    PatchesRead(START, patches);
    assert Message(patches)[1..] == PatchesBytes(START, patches);
  }

  // ---- A picture with rectangles put into it ----

  ghost function PutRow(m: Picture, l: nat, x: nat, row: seq<word>): (r: Picture)
    requires ValidPicture(m) && l < LINES && x + |row| <= WIDTH
    ensures ValidPicture(r)
  {
    m[l := m[l][..x] + row + m[l][x + |row|..]]
  }

  ghost function PutRows(m: Picture, l: nat, h: nat, x: nat, width: nat, px: seq<word>): (r: Picture)
    requires ValidPicture(m) && l + h <= LINES && x + width <= WIDTH && |px| == Area(h, width)
    ensures ValidPicture(r)
    decreases h
  {
    if h == 0 then m else PutRows(PutRow(m, l, x, px[..width]), l + 1, h - 1, x, width, px[width..])
  }

  ghost function PutPatch(m: Picture, p: Patch): (r: Picture)
    requires ValidPicture(m)
    ensures ValidPicture(r)
  {
    PutRows(m, p.rect.line, p.rect.height, p.rect.x, p.rect.width, p.px)
  }

  ghost function PutPatches(m: Picture, patches: seq<Patch>): (r: Picture)
    requires ValidPicture(m)
    ensures ValidPicture(r)
  {
    if patches == [] then m else PutPatch(PutPatches(m, patches[..|patches| - 1]), patches[|patches| - 1])
  }

  /** A rectangle of the memory. */
  ghost function RowsOf(m: Picture, l: nat, h: nat, x: nat, width: nat): (px: seq<word>)
    requires ValidPicture(m) && l + h <= LINES && x + width <= WIDTH
    ensures |px| == Area(h, width)
    decreases h
  {
    if h == 0 then [] else m[l][x..x + width] + RowsOf(m, l + 1, h - 1, x, width)
  }

  ghost function Carried(m: Picture, r: Rect): (p: Patch)
    requires ValidPicture(m)
  {
    AreaFits(r.height, r.width);
    Piece(r, RowsOf(m, r.line, r.height, r.x, r.width))
  }

  /** A rectangle of the memory put into a picture gives its lines that part of the memory's, and no others. */
  lemma {:induction false} PutRowsAt(m: Picture, from: Picture, l: nat, h: nat, x: nat, width: nat, k: nat)
    requires ValidPicture(m) && ValidPicture(from) && l + h <= LINES && x + width <= WIDTH && k < LINES
    ensures PutRows(m, l, h, x, width, RowsOf(from, l, h, x, width))[k] ==
      if l <= k < l + h then m[k][..x] + from[k][x..x + width] + m[k][x + width..] else m[k]
    decreases h
  {
    if h > 0 {
      var px := RowsOf(from, l, h, x, width);
      assert px[..width] == from[l][x..x + width] && px[width..] == RowsOf(from, l + 1, h - 1, x, width);
      PutRowsAt(PutRow(m, l, x, px[..width]), from, l + 1, h - 1, x, width, k);
    }
  }

  // ---- The server's shadow of a page ----

  /** What a page has: its pixels, the lines it has at all, and where the next message starts. */
  datatype Shadow = Shadow(pixels: Picture, known: seq<bool>, nextLine: nat)

  ghost predicate ValidShadow(s: Shadow) {
    ValidPicture(s.pixels) && |s.known| == LINES && s.nextLine < LINES
  }

  ghost function Forgotten(): Shadow {
    Shadow(seq(LINES, _ => seq(WIDTH, _ => 0)), seq(LINES, _ => false), 0)
  }

  /** The page lacks the line, or has it otherwise. */
  ghost predicate Stale(s: Shadow, m: Picture, l: nat)
    requires ValidShadow(s) && ValidPicture(m) && l < LINES
  {
    !s.known[l] || s.pixels[l] != m[l]
  }

  /** Where two rows first differ, from x on. */
  ghost function FirstDiff(a: seq<word>, b: seq<word>, x: nat): (d: nat)
    requires |a| == |b| && x <= |a|
    ensures x <= d <= |a| && a[x..d] == b[x..d] && (d < |a| ==> a[d] != b[d])
    decreases |a| - x
  {
    if x < |a| && a[x] == b[x] then
      var d := FirstDiff(a, b, x + 1);
      assert a[x..d] == [a[x]] + a[x + 1..d] && b[x..d] == [b[x]] + b[x + 1..d];
      d
    else x
  }

  /** Where they last differ, before x: one past it. */
  ghost function LastDiff(a: seq<word>, b: seq<word>, x: nat): (d: nat)
    requires |a| == |b| && x <= |a|
    ensures d <= x && a[d..x] == b[d..x] && (d > 0 ==> a[d - 1] != b[d - 1])
  {
    if x > 0 && a[x - 1] == b[x - 1] then
      var d := LastDiff(a, b, x - 1);
      assert a[d..x] == a[d..x - 1] + [a[x - 1]] && b[d..x] == b[d..x - 1] + [b[x - 1]];
      d
    else x
  }

  /** Where a stale line differs from what the page has: pixels x0 to x1 - 1. */
  ghost function X0(s: Shadow, m: Picture, l: nat): (x: nat)
    requires ValidShadow(s) && ValidPicture(m) && l < LINES && Stale(s, m, l)
    ensures x < WIDTH
  {
    if s.known[l] then FirstDiff(m[l], s.pixels[l], 0) else 0
  }

  ghost function X1(s: Shadow, m: Picture, l: nat): (x: nat)
    requires ValidShadow(s) && ValidPicture(m) && l < LINES && Stale(s, m, l)
    ensures X0(s, m, l) < x <= WIDTH
  {
    if s.known[l] then LastDiff(m[l], s.pixels[l], WIDTH) else WIDTH
  }

  /** Lines l to l + h - 1, all stale. */
  ghost predicate StaleLines(s: Shadow, m: Picture, l: nat, h: nat)
    requires ValidShadow(s) && ValidPicture(m) && l + h <= LINES
  {
    forall k :: l <= k < l + h ==> Stale(s, m, k)
  }

  /** The line i lines on from the next, round the display. */
  function LineAt(next: nat, i: nat): (l: nat)
    requires next < LINES && i < LINES
    ensures l < LINES && l == if next + i < LINES then next + i else next + i - LINES
  {
    (next + i) % LINES
  }

  /** A band of changed lines, found i lines on from where the message starts. */
  datatype Band = Band(i: nat, rect: Rect)

  /** A band's lines follow on from where it was found, all stale, to a line that is not, or starts the display again,
      or the last of BAND. Its rectangle is as wide as all its lines' changes, and no wider. */
  ghost predicate IsBand(s: Shadow, m: Picture, b: Band)
    requires ValidShadow(s) && ValidPicture(m)
  {
    var l, h, x, x1 := b.rect.line, b.rect.height, b.rect.x, b.rect.x + b.rect.width;
    && b.i + h <= LINES && l == LineAt(s.nextLine, b.i)
    && StaleLines(s, m, l, h)
    && (h == BAND || b.i + h == LINES || l + h == LINES || !Stale(s, m, l + h))
    && (forall k :: l <= k < l + h ==> x <= X0(s, m, k) && X1(s, m, k) <= x1)
    && (exists k :: l <= k < l + h && X0(s, m, k) == x)
    && (exists k :: l <= k < l + h && X1(s, m, k) == x1)
  }

  lemma OneBand(s: Shadow, m: Picture, a: Band, b: Band)
    requires ValidShadow(s) && ValidPicture(m) && IsBand(s, m, a) && IsBand(s, m, b) && a.i == b.i
    ensures a == b
  {
    assert a.rect.height == b.rect.height;
    assert a.rect.x == b.rect.x;
  }

  lemma {:induction false} BandGrows(s: Shadow, m: Picture, i: nat, h: nat) returns (r: nat)
    requires ValidShadow(s) && ValidPicture(m) && i < LINES && 0 < h <= BAND && i + h <= LINES
    requires LineAt(s.nextLine, i) + h <= LINES && StaleLines(s, m, LineAt(s.nextLine, i), h)
    ensures var l := LineAt(s.nextLine, i);
      && 0 < r <= BAND && i + r <= LINES && l + r <= LINES && StaleLines(s, m, l, r)
      && (r == BAND || i + r == LINES || l + r == LINES || !Stale(s, m, l + r))
    decreases BAND - h
  {
    var l := LineAt(s.nextLine, i);
    if h < BAND && i + h < LINES && l + h < LINES && Stale(s, m, l + h) {
      r := BandGrows(s, m, i, h + 1);
    } else {
      r := h;
    }
  }

  lemma {:induction false} Sides(s: Shadow, m: Picture, l: nat, h: nat) returns (x: nat, x1: nat)
    requires ValidShadow(s) && ValidPicture(m) && 0 < h && l + h <= LINES && StaleLines(s, m, l, h)
    ensures x < x1 <= WIDTH && (forall k :: l <= k < l + h ==> x <= X0(s, m, k) && X1(s, m, k) <= x1)
    ensures (exists k :: l <= k < l + h && X0(s, m, k) == x) && (exists k :: l <= k < l + h && X1(s, m, k) == x1)
  {
    var k := l + h - 1;
    assert Stale(s, m, k);
    x, x1 := X0(s, m, k), X1(s, m, k);
    if h > 1 {
      var y, y1 := Sides(s, m, l, h - 1);
      var j :| l <= j < k && X0(s, m, j) == y;
      var j1 :| l <= j1 < k && X1(s, m, j1) == y1;
      if y < x {
        assert X0(s, m, j) == y;
        x := y;
      }
      if x1 < y1 {
        assert X1(s, m, j1) == y1;
        x1 := y1;
      }
    }
  }

  /** The band at the stale line i lines on. */
  ghost function BandAt(s: Shadow, m: Picture, i: nat): (b: Band)
    requires ValidShadow(s) && ValidPicture(m) && i < LINES && Stale(s, m, LineAt(s.nextLine, i))
    ensures IsBand(s, m, b) && b.i == i
  {
    BandExists(s, m, i);
    var b: Band :| IsBand(s, m, b) && b.i == i;
    b
  }

  lemma BandExists(s: Shadow, m: Picture, i: nat)
    requires ValidShadow(s) && ValidPicture(m) && i < LINES && Stale(s, m, LineAt(s.nextLine, i))
    ensures exists b: Band :: IsBand(s, m, b) && b.i == i
  {
    var l := LineAt(s.nextLine, i);
    var h := BandGrows(s, m, i, 1);
    var x, x1 := Sides(s, m, l, h);
    assert IsBand(s, m, Band(i, Box(l, x, x1 - x, h)));
  }

  /** The bands of stale lines, from i lines on, in the order they are met. */
  ghost function Bands(s: Shadow, m: Picture, i: nat): seq<Band>
    requires ValidShadow(s) && ValidPicture(m) && i <= LINES
    decreases |s.known| - i
  {
    if i == LINES then []
    else if Stale(s, m, LineAt(s.nextLine, i)) then
      var b := BandAt(s, m, i);
      [b] + Bands(s, m, i + b.rect.height)
    else Bands(s, m, i + 1)
  }

  ghost function Patches(m: Picture, bands: seq<Band>): (patches: seq<Patch>)
    requires ValidPicture(m)
    ensures |patches| == |bands| && forall j :: 0 <= j < |bands| ==> patches[j] == Carried(m, bands[j].rect)
  {
    seq(|bands|, j requires 0 <= j < |bands| => Carried(m, bands[j].rect))
  }

  /** How many rectangles go: all that fit the budget one after another, and the first anyway. */
  ghost function Fitting(patches: seq<Patch>, budget: int, k: nat): (r: nat)
    requires k <= |patches|
    ensures k <= r <= |patches|
    decreases |patches| - k
  {
    if k == |patches| || (k > 0 && |Message(patches[..k + 1])| > budget) then k else Fitting(patches, budget, k + 1)
  }

  /** A message, empty if there is nothing to send, and the shadow of the page that has it. */
  datatype Sent = Sent(message: seq<byte>, shadow: Shadow)

  ghost function KnownAfter(known: seq<bool>, bands: seq<Band>): (r: seq<bool>)
    requires |known| == LINES
    ensures |r| == LINES
  {
    seq(LINES, l requires 0 <= l < LINES => known[l] || exists j :: 0 <= j < |bands| && Within(bands[j].rect, l))
  }

  predicate Within(r: Rect, l: nat) {
    r.line <= l < r.line + r.height
  }

  ghost function ShadowAfter(s: Shadow, m: Picture, bands: seq<Band>): (r: Shadow)
    requires ValidShadow(s) && ValidPicture(m)
    ensures ValidShadow(r) && r.nextLine == s.nextLine
  {
    Shadow(PutPatches(s.pixels, Patches(m, bands)), KnownAfter(s.known, bands), s.nextLine)
  }

  ghost function SentCount(s: Shadow, m: Picture, budget: int): (k: nat)
    requires ValidShadow(s) && ValidPicture(m)
    ensures k <= |Bands(s, m, 0)|
  {
    Fitting(Patches(m, Bands(s, m, 0)), budget, 0)
  }

  ghost function Encode(s: Shadow, m: Picture, budget: int): (r: Sent)
    requires ValidShadow(s) && ValidPicture(m)
    ensures ValidShadow(r.shadow)
  {
    var bands := Bands(s, m, 0);
    var k := SentCount(s, m, budget);
    var after := ShadowAfter(s, m, bands[..k]);
    Sent(if k == 0 then [] else Message(Patches(m, bands[..k])),
         if k < |bands| then after.(nextLine := bands[k].rect.line) else after)
  }
}
