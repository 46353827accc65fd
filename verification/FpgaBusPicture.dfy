/** From what a program writes on the bus to pixels of the glass: a character at a place, and the cursor. */
module BusPicture {
  import opened Words
  import opened TextLaws
  import B = FpgaBus
  import C = TextCells
  import P = Ili9341
  import R = FpgaTextRender
  import T = FpgaText

  // ---- Characters ----

  const TEXT: byte := 0x80

  /** A command written, and data for it. */
  function Commanded(command: byte, data: seq<byte>): seq<B.Write> {
    if data == [] then [B.Write(false, command)]
    else Commanded(command, data[..|data| - 1]) + [B.Write(true, data[|data| - 1])]
  }

  /** The bytes of GOTO a, b and of PUT of a code, each after the text command. */
  function Typed(a: byte, b: byte, code: byte): seq<B.Write> {
    Commanded(TEXT, [0x02, a, b]) + Commanded(TEXT, [0x03, code])
  }

  lemma WriteAdded(writes: seq<B.Write>, x: B.Write)
    ensures B.Segments(writes + [x]) == B.AddWrite(B.Segments(writes), x)
  {
    assert (writes + [x])[..|writes|] == writes;
  }

  lemma {:induction false} SegmentAdded(writes: seq<B.Write>, command: byte, data: seq<byte>)
    ensures B.Segments(writes + Commanded(command, data)) == B.Segments(writes) + [B.Segment(command, data)]
    decreases |data|
  {
    if data == [] {
      WriteAdded(writes, B.Write(false, command));
    } else {
      var before, d := data[..|data| - 1], data[|data| - 1];
      SegmentAdded(writes, command, before);
      WriteAdded(writes + Commanded(command, before), B.Write(true, d));
      assert writes + Commanded(command, data) == writes + Commanded(command, before) + [B.Write(true, d)];
      assert data == before + [d];
    }
  }

  lemma TypedSegments(writes: seq<B.Write>, a: byte, b: byte, code: byte)
    ensures B.Segments(writes + Typed(a, b, code)) ==
      B.Segments(writes) + [B.Segment(TEXT, [0x02, a, b])] + [B.Segment(TEXT, [0x03, code])]
  {
    hide B.Segments, Commanded;
    var goto, put := Commanded(TEXT, [0x02, a, b]), Commanded(TEXT, [0x03, code]);
    SegmentAdded(writes, TEXT, [0x02, a, b]);
    SegmentAdded(writes + goto, TEXT, [0x03, code]);
    assert writes + (goto + put) == writes + goto + put;
  }

  lemma OpsAdded(segs: seq<B.Segment>, a: byte, b: byte, code: byte)
    ensures B.Ops(segs + [B.Segment(TEXT, [0x02, a, b])] + [B.Segment(TEXT, [0x03, code])]) ==
      B.Ops(segs) + [B.TextOperation(T.GOTO, a, b)] + [B.TextOperation(T.PUT, code, 0)]
  {
    var one, two := B.Segment(TEXT, [0x02, a, b]), B.Segment(TEXT, [0x03, code]);
    assert (segs + [one])[..|segs|] == segs && (segs + [one] + [two])[..|segs| + 1] == segs + [one];
    assert one.data[1..] == [a, b] && two.data[1..] == [code];
    assert B.SegmentOps(one) == [B.TextOperation(T.GOTO, a, b)];
    assert B.SegmentOps(two) == [B.TextOperation(T.PUT, code, 0)];
  }

  /** Written on the bus after any events, whatever command those left unfinished, GOTO a, b and a character put the
      character at row a and column b of the grid. */
  lemma TypedText(w: B.World, events: seq<B.Event>, more: seq<B.Event>, a: byte, b: byte, code: byte)
    requires B.Writes(events + more) == B.Writes(events) + Typed(a, b, code)
    ensures B.Reached(w, false, events + more).text == Then(At(B.Reached(w, false, events).text, a, b), code)
  {
    hide B.Reached, T.Op;
    var segs := B.Segments(B.Writes(events));
    B.GridIsCompletedOps(w, events);
    B.GridIsCompletedOps(w, events + more);
    TypedSegments(B.Writes(events), a, b, code);
    OpsAdded(segs, a, b, code);
    B.ApplyJoined(T.Init(), B.Ops(segs), [B.TextOperation(T.GOTO, a, b)]);
    B.ApplyJoined(T.Init(), B.Ops(segs) + [B.TextOperation(T.GOTO, a, b)], [B.TextOperation(T.PUT, code, 0)]);
    var goto, put := B.TextOperation(T.GOTO, a, b), B.TextOperation(T.PUT, code, 0);
    assert [goto][..0] == [] && [put][..0] == [];
  }

  /** A pixel of a cell's glyph, in its video. */
  function GlyphPixel(font: C.Font, cell: T.Cell, x: nat, y: nat): word
    requires x < C.CELL_W && y < C.CELL_H
  {
    C.Colour(C.Bit(font(cell.code, x), y) != cell.reverse)
  }

  /** And then a look at the glass shows its glyph there, in the video it was put in, and every other cell as before. */
  lemma TypedOnGlass(w: B.World, events: seq<B.Event>, more: seq<B.Event>, a: byte, b: byte, code: byte, now: nat, x: nat, y: nat)
    requires B.Writes(events + more) == B.Writes(events) + Typed(a, b, code) && Shows(code)
    requires x < P.WIDTH && y < P.LINES
    requires var s := B.Reached(w, false, events + more); s.textMode && R.ShowsUpright(s.panel)
    requires !B.Reached(w, false, events).text.cursor
    ensures var before, s := B.Reached(w, false, events).text, B.Reached(w, false, events + more);
      var r, row, col := B.Step(w, s, B.Look(now)), y / C.CELL_H, x / C.CELL_W;
      var cell := if row == Min(a, C.ROWS - 1) && col == b then T.Cell(code, before.reverse) else before.cells[row][col];
      P.GlassPixel(r.panel, x, y) == GlyphPixel(w.font, cell, x % C.CELL_W, y % C.CELL_H)
  {
    hide B.Reached, B.Step, B.Writes, T.Op, P.GlassPixel;
    var before := B.Reached(w, false, events).text;
    TypedText(w, events, more, a, b, code);
    GotoThenPut(before, a, b, code);
    B.RunShowsGrid(w, false, events + more, now, x, y);
  }

  // ---- The cursor ----

  /** CURSOR shows the cursor, or hides it: at the cell GOTO names, while it is lit, the bottom two rows of its glyph are
      inverted, and no other pixel; past the end of a row it does not show. */
  lemma CursorShows(font: C.Font, r: R.Render, t: T.Text, v: byte, a: byte, b: byte, x: nat, y: nat)
    requires T.ValidText(t) && x < P.WIDTH && y < P.LINES
    ensures var u, row, col := At(T.Op(t, T.CURSOR, v, v), a, b), y / C.CELL_H, x / C.CELL_W;
      var glyph := GlyphPixel(font, t.cells[row][col], x % C.CELL_W, y % C.CELL_H);
      var lit := v != 0 && r.blinkOn && row == Min(a, C.ROWS - 1) && col == b && y % C.CELL_H >= 14;
      R.GridPixel(font, u, R.CursorShown(r, u), x, y) == if lit then 0xFFFF - glyph else glyph
  {
    hide C.Bit;
  }

  // ---- Text mode ----

  /** Text mode is on after TEXT_ON, and off after TEXT_OFF or the raw display's reset command, and at the start. */
  function ModeOf(segs: seq<B.Segment>): bool {
    if segs == [] then false
    else
      var last := segs[|segs| - 1];
      if last.command == 0x10 then false
      else if last.command == 0x80 && last.data != [] && last.data[0] == 0x00 then true
      else if last.command == 0x80 && last.data != [] && last.data[0] == 0x01 then false
      else ModeOf(segs[..|segs| - 1])
  }

  lemma StartMode(w: B.World, s: B.Bus, c: nat)
    requires B.Inv(w, s)
    ensures B.Start(w, s, c).textMode == if c == 0x100 then true else if c == 0x101 || c == 0x10 then false else s.textMode
  {
    hide T.Op, B.Inv;
  }

  lemma CommandMode(w: B.World, s: B.Bus, b: byte)
    requires B.Inv(w, s)
    ensures B.WriteCommand(w, s, b).textMode == (b != 0x10 && s.textMode)
  {
    hide T.Op, R.Synced, P.ValidPanel, B.Start;
    var sticky := if s.control.argsLeft > 0 then s.sticky.(abandoned := true) else s.sticky;
    StartMode(w, s.(sticky := sticky, net := s.net.(open := false)), b);
  }

  lemma DataMode(w: B.World, s: B.Bus, d: byte)
    requires B.Inv(w, s)
    ensures B.WriteData(w, s, d).textMode ==
      if s.control.cmd == 0x80 && s.control.argsLeft > 0 && d < 2 then d == 0 else s.textMode
  {
    hide T.Op, R.Synced, P.ValidPanel, B.Start, B.NetData;
    B.NetDataApart(w, s, d);
    StartMode(w, s, 0x200 + d);
    StartMode(w, s, 0x100 + d);
  }

  lemma WrittenMode(w: B.World, s: B.Bus, segs: seq<B.Segment>, x: B.Write)
    requires B.Inv(w, s) && B.Current(s.control, segs) && s.textMode == ModeOf(segs)
    ensures B.Written(w, s, x).textMode == ModeOf(B.AddWrite(segs, x))
  {
    hide B.WriteData, B.WriteCommand, B.Inv;
    var n := |segs| - 1;
    if !x.rs {
      CommandMode(w, s, x.b);
      assert (segs + [B.Segment(x.b, [])])[..|segs|] == segs;
    } else {
      DataMode(w, s, x.b);
      if segs != [] {
        assert B.AddWrite(segs, x)[..n] == segs[..n];
      }
    }
  }

  lemma StepMode(w: B.World, s: B.Bus, e: B.Event)
    requires B.Inv(w, s) && !s.absent
    ensures B.Step(w, s, e).textMode == if B.IsWrite(s.strobe.eWas, e)
      then B.Written(w, B.Counted(s), B.Write(B.RS(e.portA), e.portB)).textMode else s.textMode
  {
    hide B.WriteData, B.WriteCommand, B.Strobed, B.RS, B.RW;
  }

  /** Whatever has happened on the bus, the text mode is as the commands written say. */
  lemma {:induction false} TextModeIs(w: B.World, events: seq<B.Event>)
    ensures B.Reached(w, false, events).textMode == ModeOf(B.Segments(B.Writes(events)))
  {
    hide B.Step, B.Written, ModeOf, B.Strobed, B.RS, B.RW, B.Current;
    if events == [] {
      NoMode(w);
    } else {
      var before, e := events[..|events| - 1], events[|events| - 1];
      TextModeIs(w, before);
      B.RunParsed(w, before);
      var s, segs := B.Reached(w, false, before), B.Segments(B.Writes(before));
      StepMode(w, s, e);
      if B.IsWrite(s.strobe.eWas, e) {
        var x := B.Write(B.RS(e.portA), e.portB);
        WriteAdded(B.Writes(before), x);
        WrittenMode(w, B.Counted(s), segs, x);
        assert B.Writes(events) == B.Writes(before) + [x];
      } else {
        assert B.Writes(events) == B.Writes(before);
      }
    }
  }

  lemma NoMode(w: B.World)
    ensures !B.Reached(w, false, []).textMode && !ModeOf(B.Segments(B.Writes([])))
  {
  }
}
