/** The graphic display from the bus to a browser: what a page draws is what the glass shows, and in text mode the grid. */
module WebGlass {
  import opened Words
  import opened Grids
  import opened WebDisplay
  import opened WebDisplaySync
  import B = FpgaBus
  import P = Ili9341
  import R = FpgaTextRender

  // ---- How a page draws its picture ----

  /** What a page is told of how the glass shows the memory. */
  datatype Shown = Shown(on: bool, gs: bool, ss: bool, scroll: P.Scroll)

  function Told(p: P.Panel): Shown {
    Shown(P.Showing(p), P.GS(p.scan), P.SS(p.scan), p.scroll)
  }

  /** The line a page draws at row y. */
  function PageLine(d: Shown, y: int): int {
    var k, s := if d.gs then LINES - 1 - y else y, d.scroll;
    if k < s.tfa || k >= s.tfa + s.vsa then k
    else
      var at := P.TruncatedMod(s.ssa - s.tfa + k - s.tfa, s.vsa);
      s.tfa + if at < 0 then at + s.vsa else at
  }

  lemma PageLineIsGlassLine(p: P.Panel, y: int)
    requires P.ValidPanel(p) && 0 <= y < LINES
    ensures 0 <= PageLine(Told(p), y) < LINES && PageLine(Told(p), y) == P.GlassLine(p, y)
  {
    P.GlassLineCycles(p, y);
  }

  ghost function PagePixel(d: Shown, picture: Picture, x: nat, y: nat): word
    requires ValidPicture(picture) && x < WIDTH && 0 <= PageLine(d, y) < LINES
  {
    if !d.on then 0xFFFF else picture[PageLine(d, y)][if d.ss then x else WIDTH - 1 - x]
  }

  // ---- A page that has caught up ----

  lemma {:induction false} RunJoined(page: Picture, before: seq<Snapshot>, after: seq<Snapshot>)
    requires ValidPicture(page) && ValidSnapshots(before) && ValidSnapshots(after)
    ensures ValidSnapshots(before + after)
    ensures Run(page, before + after).shadow == ServerAfter(Run(page, before).shadow, after)
    decreases |after|
  {
    if after == [] {
      assert before + after == before;
    } else {
      var b := before + [after[0]];
      assert b[..|b| - 1] == before && before + after == b + after[1..];
      RunJoined(page, b, after[1..]);
    }
  }

  /** Once the memory keeps still, as many messages as the page lacks lines make its picture the memory, whatever came
      before and however small the budgets. */
  lemma PageHasMemory(page: Picture, before: seq<Snapshot>, after: seq<Snapshot>, m: Picture)
    requires ValidPicture(page) && ValidSnapshots(before) && ValidSnapshots(after) && ValidPicture(m)
    requires forall i :: 0 <= i < |after| ==> after[i].m == m
    requires |after| >= |StaleSet(Run(page, before).shadow, m)|
    ensures ValidSnapshots(before + after) && Run(page, before + after).page == m
  {
    hide Run, ServerAfter;
    RunJoined(page, before, after);
    PageHasShadow(page, before + after);
    var e := Run(page, before + after);
    StillMemoryConverges(Run(page, before).shadow, m, after);
    forall l | 0 <= l < LINES ensures e.page[l] == m[l] {
      assert l !in StaleSet(e.shadow, m);
    }
  }

  /** In text mode, whatever has happened on the bus and however the page was served till then: after a look at the
      glass, and with the memory still for as many messages as the page lacks lines, every pixel the page draws is the
      grid's. */
  lemma PageShowsGrid(w: B.World, absent: bool, events: seq<B.Event>, now: nat, page: Picture,
                      before: seq<Snapshot>, after: seq<Snapshot>, x: nat, y: nat)
    requires var s := B.Reached(w, absent, events); s.textMode && R.ShowsUpright(s.panel)
    requires ValidPicture(page) && ValidSnapshots(before) && x < WIDTH && y < LINES
    requires var m := B.Step(w, B.Reached(w, absent, events), B.Look(now)).panel.memory;
      && ValidPicture(m) && (forall i :: 0 <= i < |after| ==> after[i].m == m)
      && |after| >= |StaleSet(Run(page, before).shadow, m)|
    ensures var s := B.Reached(w, absent, events);
      var r := B.Step(w, s, B.Look(now));
      && 0 <= PageLine(Told(r.panel), y) < LINES && ValidSnapshots(before + after)
      && PagePixel(Told(r.panel), Run(page, before + after).page, x, y) ==
         R.GridPixel(w.font, s.text, R.CursorShown(r.render, s.text), x, y)
  {
    hide Run, ServerAfter, B.Reached, B.Step, StaleSet, R.GridPixel, R.CursorShown;
    var s := B.Reached(w, absent, events);
    B.StepKeepsInv(w, s, B.Look(now));
    var r := B.Step(w, s, B.Look(now));
    PageHasMemory(page, before, after, r.panel.memory);
    B.RunShowsGrid(w, absent, events, now, x, y);
    PageLineIsGlassLine(r.panel, y);
  }
}
