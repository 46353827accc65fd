/** The encoder as it runs: a writer that appends runs to a message, and a page's shadow scanned for changed lines and
    brought up to date in place. */
module WebDisplayServer {
  import opened Words
  import opened Grids
  import opened PixelCode
  import opened WebDisplay
  import opened WebDisplaySync
  import opened WebDisplayRoom

  // ---- What is left to write ----

  /** What is out since start is the runs. */
  ghost predicate Wrote(start: seq<byte>, out: seq<byte>, runs: seq<Run>) {
    Sendable(runs) && out == start + Bytes(runs)
  }

  lemma WroteMore(start: seq<byte>, out: seq<byte>, runs: seq<Run>, more: seq<Run>)
    requires Wrote(start, out, runs) && Sendable(more)
    ensures Wrote(start, out + Bytes(more), runs + more)
  {
    JoinedBytes(runs, more);
    ThenMore(start, Bytes(runs), Bytes(more));
  }

  lemma ThenMore(a: seq<byte>, b: seq<byte>, c: seq<byte>)
    ensures a + b + c == a + (b + c)
  {
  }

  /** A run is out, so what is left is the code from its end. */
  lemma RestAfterRun(c: Memory, px: seq<word>, i: nat, literal: nat, end: nat, runs: seq<Run>, whole: seq<Run>)
    requires literal <= i < |px| && !JoinsLiteral(c, px, i, literal) && end == RunEnd(px, i, i + 1)
    requires runs + Code(c, px, i, literal) == whole
    ensures var run := RunOf(c, px[i], end - i);
      (runs + LiteralRuns(px[i - literal..i]) + [run]) + Code(RunMemory(c, run), px, end, 0) == whole
  {
    var run := RunOf(c, px[i], end - i);
    Regroup(runs, LiteralRuns(px[i - literal..i]), [run], Code(RunMemory(c, run), px, end, 0));
  }

  lemma Regroup(a: seq<Run>, b: seq<Run>, c: seq<Run>, d: seq<Run>)
    ensures a + (b + c + d) == (a + b + c) + d
  {
  }

  lemma MemoryAfterRun(c: Memory, runs: seq<Run>, lit: seq<word>, run: Run)
    ensures After(c, runs + LiteralRuns(lit) + [run]) == RunMemory(After(c, runs), run)
  {
    JoinedRuns(c, runs, LiteralRuns(lit));
    LiteralRunsPixels(After(c, runs), lit);
    JoinedRuns(c, runs + LiteralRuns(lit), [run]);
    OneRun(After(c, runs), run);
  }

  lemma NextWord(px: seq<word>, v: word)
    ensures Words16(px + [v]) == Words16(px) + Bytes16(v)
  {
  }

  lemma NoWords(out: seq<byte>)
    ensures out == out + Words16([])
  {
  }

  lemma OneRunBytes(run: Run)
    requires 0 < Count(run) < LIMIT
    ensures Sendable([run]) && Bytes([run]) == RunBytes(run)
  {
    assert Bytes([run]) == RunBytes(run) + Bytes([run][1..]);
  }

  class Writer {
    var out: seq<byte>
    var colours: Memory

    constructor ()
      ensures out == [TAG] && colours == START
    {
      out, colours := [TAG], START;
    }

    method Put16(v: word)
      modifies this`out
      ensures out == old(out) + Bytes16(v)
    {
      out := out + [v % 0x100];
      out := out + [v / 0x100];
    }

    method PutRun(kind: nat, n: nat)
      requires kind < 4 && 0 < n < LIMIT
      modifies this`out
      ensures out == old(out) + Header(kind, n)
    {
      if n < 64 {
        out := out + [kind * 64 + n];
      } else {
        out := out + [kind * 64];
        Put16(n);
      }
    }

    method PutWords(px: seq<word>, from: nat, to: nat)
      requires from <= to <= |px|
      modifies this`out
      ensures out == old(out) + Words16(px[from..to])
    {
      hide Words16, Bytes16;
      ghost var head := out;
      NoWords(head);
      for p := from to to
        invariant out == head + Words16(px[from..p])
      {
        NextWord(px[from..p], px[p]);
        assert px[from..p + 1] == px[from..p] + [px[p]];
        ThenMore(head, Words16(px[from..p]), Bytes16(px[p]));
        Put16(px[p]);
      }
    }

    /** The n pixels before end, as themselves. */
    method PutLiteral(px: seq<word>, end: nat, n: nat)
      requires |px| < LIMIT && n <= end <= |px|
      modifies this`out
      ensures out == old(out) + Bytes(LiteralRuns(px[end - n..end]))
    {
      hide Words16, Header;
      if n == 0 {
        return;
      }
      ghost var lit, head := px[end - n..end], out;
      PutRun(LITERAL, n);
      PutWords(px, end - n, end);
      ThenMore(head, Header(LITERAL, n), Words16(lit));
      OneRunBytes(Literal(lit));
    }

    /** n pixels of colour v: a run of a remembered colour, or of a new one. */
    method PutColour(v: word, n: nat)
      requires 0 < n < LIMIT
      modifies this
      ensures out == old(out) + RunBytes(RunOf(old(colours), v, n))
      ensures colours == RunMemory(old(colours), RunOf(old(colours), v, n))
    {
      if v == colours.first {
        PutRun(FIRST, n);
      } else if v == colours.second {
        PutRun(SECOND, n);
        colours := Memory(v, colours.first);
      } else {
        PutRun(COLOUR, n);
        Put16(v);
        colours := Memory(v, colours.first);
      }
    }

    /** How many pixels repeat pixel i, itself among them. */
    static method RunLength(px: seq<word>, i: nat) returns (run: nat)
      requires i < |px|
      ensures i + run == RunEnd(px, i, i + 1)
    {
      run := 1;
      while i + run < |px| && px[i + run] == px[i]
        invariant i + run <= |px| && RunEnd(px, i, i + run) == RunEnd(px, i, i + 1)
      {
        run := run + 1;
      }
    }

    /** The literal pixels before i, and n pixels of the colour there. */
    method PutLiteralAndRun(px: seq<word>, i: nat, literal: nat, n: nat, ghost start: seq<byte>, ghost runs: seq<Run>)
      requires |px| < LIMIT && literal <= i < |px| && 0 < n < LIMIT && Wrote(start, out, runs)
      modifies this
      ensures Wrote(start, out, runs + LiteralRuns(px[i - literal..i]) + [RunOf(old(colours), px[i], n)])
      ensures colours == RunMemory(old(colours), RunOf(old(colours), px[i], n))
    {
      ghost var lit, run := LiteralRuns(px[i - literal..i]), RunOf(colours, px[i], n);
      WroteMore(start, out, runs, lit);
      PutLiteral(px, i, literal);
      OneRunBytes(run);
      WroteMore(start, out, runs + lit, [run]);
      PutColour(px[i], n);
    }

    /** The literal pixels before i, and the run there: the code goes on from its end. */
    method PutRunAt(px: seq<word>, i: nat, literal: nat, ghost start: seq<byte>, ghost c: Memory, ghost runs: seq<Run>)
      returns (end: nat, ghost more: seq<Run>)
      requires |px| < LIMIT && literal <= i < |px| && !JoinsLiteral(colours, px, i, literal)
      requires Wrote(start, out, runs) && colours == After(c, runs)
      modifies this
      ensures i < end <= |px| && Wrote(start, out, more) && colours == After(c, more)
      ensures more + Code(colours, px, end, 0) == runs + Code(old(colours), px, i, literal)
    {
      hide Wrote, Code, After, RunMemory, RunOf, LiteralRuns;
      var run := RunLength(px, i);
      ghost var lit, r := px[i - literal..i], RunOf(colours, px[i], run);
      RestAfterRun(colours, px, i, literal, i + run, runs, runs + Code(colours, px, i, literal));
      MemoryAfterRun(c, runs, lit, r);
      PutLiteralAndRun(px, i, literal, run, start, runs);
      end, more := i + run, runs + LiteralRuns(lit) + [r];
    }

    /** Runs of a remembered colour, of a new one, or, for pixels in a row that neither repeat nor are remembered, the
        pixels themselves. */
    method PutPixels(px: seq<word>)
      requires |px| < LIMIT
      modifies this
      ensures out == old(out) + Bytes(Coded(old(colours), px))
      ensures colours == After(old(colours), Coded(old(colours), px))
    {
      ghost var start, c, whole := out, colours, Coded(colours, px);
      ghost var runs: seq<Run> := [];
      var literal, i := 0, 0;
      while i < |px|
        invariant literal <= i <= |px| && Wrote(start, out, runs)
        invariant runs + Code(colours, px, i, literal) == whole && colours == After(c, runs)
      {
        hide Wrote, Bytes, After, RunMemory, RunOf, LiteralRuns;
        if Lone(colours, px, i) && (literal > 0 || (i + 1 < |px| && Lone(colours, px, i + 1))) {
          literal := literal + 1;
          i := i + 1;
        } else {
          i, runs := PutRunAt(px, i, literal, start, c, runs);
          literal := 0;
        }
      }
      ghost var lit := px[i - literal..i];
      assert lit == px[i - literal..];
      JoinedRuns(c, runs, LiteralRuns(lit));
      LiteralRunsPixels(colours, lit);
      WroteMore(start, out, runs, LiteralRuns(lit));
      PutLiteral(px, i, literal);
    }

    static method CopiedRow(memory: array2<word>, ghost m: Picture, l: nat, x: nat, width: nat) returns (row: seq<word>)
      requires ValidPicture(m) && Holds(memory, m) && memory.Length0 == LINES && memory.Length1 == WIDTH
      requires l < LINES && x + width <= WIDTH
      ensures row == m[l][x..x + width]
    {
      row := seq(width, k requires 0 <= k < width reads memory => memory[l, x + k]);
    }

    /** A rectangle of memory, row by row. */
    static method Copied(memory: array2<word>, ghost m: Picture, r: Rect) returns (px: seq<word>)
      requires ValidPicture(m) && Holds(memory, m) && memory.Length0 == LINES && memory.Length1 == WIDTH
      ensures px == Carried(m, r).px
    {
      px := [];
      for i := 0 to r.height
        invariant px == RowsOf(m, r.line, i, r.x, r.width)
      {
        var row := CopiedRow(memory, m, r.line + i, r.x, r.width);
        NextRow(m, r.line, i, r.x, r.width);
        px := px + row;
      }
    }

    /** A rectangle of memory into the message. */
    method PutRect(memory: array2<word>, ghost m: Picture, r: Rect)
      requires ValidPicture(m) && Holds(memory, m) && memory.Length0 == LINES && memory.Length1 == WIDTH
      modifies this
      ensures out == old(out) + PatchBytes(old(colours), Carried(m, r))
      ensures colours == After(old(colours), Coded(old(colours), Carried(m, r).px))
    {
      var px := Copied(memory, m, r);
      ghost var start, code := out, Bytes(Coded(colours, px));
      Put16(r.line);
      out := out + [r.x];
      out := out + [r.width - 1];
      out := out + [r.height - 1];
      assert out == start + RectHeader(r);
      PutPixels(px);
      ThenMore(start, RectHeader(r), code);
    }
  }

  lemma {:induction false} NextRow(m: Picture, l: nat, h: nat, x: nat, width: nat)
    requires ValidPicture(m) && l + h < LINES && x + width <= WIDTH
    ensures RowsOf(m, l, h + 1, x, width) == RowsOf(m, l, h, x, width) + m[l + h][x..x + width]
    decreases h
  {
    if h > 0 {
      NextRow(m, l + 1, h - 1, x, width);
    }
  }

  // ---- A message as its rectangles go into it ----

  function ColoursAfter(c: Memory, patches: seq<Patch>): Memory
    decreases patches
  {
    if patches == [] then c else ColoursAfter(After(c, Coded(c, patches[0].px)), patches[1..])
  }

  lemma {:induction false} NextPatchBytes(c: Memory, patches: seq<Patch>, p: Patch)
    ensures PatchesBytes(c, patches + [p]) == PatchesBytes(c, patches) + PatchBytes(ColoursAfter(c, patches), p)
    ensures var c' := ColoursAfter(c, patches); ColoursAfter(c, patches + [p]) == After(c', Coded(c', p.px))
    decreases patches
  {
    if patches == [] {
      assert (patches + [p])[1..] == [];
    } else {
      var c' := After(c, Coded(c, patches[0].px));
      assert (patches + [p])[1..] == patches[1..] + [p];
      NextPatchBytes(c', patches[1..], p);
      ThenMore(PatchBytes(c, patches[0]), PatchesBytes(c', patches[1..]), PatchBytes(ColoursAfter(c, patches), p));
    }
  }

  /** The message and its colours are those of the first bands. */
  ghost predicate Holding(out: seq<byte>, c: Memory, m: Picture, bands: seq<Band>)
    requires ValidPicture(m)
  {
    out == Message(Patches(m, bands)) && c == ColoursAfter(START, Patches(m, bands))
  }

  lemma HoldsNext(out: seq<byte>, c: Memory, m: Picture, bands: seq<Band>, done: nat)
    requires ValidPicture(m) && done < |bands| && Holding(out, c, m, bands[..done])
    ensures var p := Carried(m, bands[done].rect);
      Holding(out + PatchBytes(c, p), After(c, Coded(c, p.px)), m, bands[..done + 1])
  {
    var before, p := Patches(m, bands[..done]), Carried(m, bands[done].rect);
    assert Patches(m, bands[..done + 1]) == before + [p];
    NextPatchBytes(START, before, p);
    ThenMore([TAG], PatchesBytes(START, before), PatchBytes(c, p));
  }

  lemma FirstRect(m: Picture, bands: seq<Band>, done: nat)
    requires ValidPicture(m) && done <= |bands|
    ensures |Message(Patches(m, bands[..done]))| > 1 <==> done > 0
  {
    var patches := Patches(m, bands[..done]);
    if done > 0 {
      assert |PatchBytes(START, patches[0])| >= 5;
    }
  }

  /** The first done bands are those met before line j, and the budget has let them go. */
  ghost predicate Progress(s: Shadow, m: Picture, budget: int, bands: seq<Band>, count: nat, done: nat, j: nat)
    requires ValidShadow(s) && ValidPicture(m)
  {
    && done <= |bands| && j <= LINES && bands[done..] == Bands(s, m, j)
    && (done > 0 ==> bands[done - 1].i + bands[done - 1].rect.height <= j)
    && count == Fitting(Patches(m, bands), budget, done)
  }

  lemma ProgressSkips(s: Shadow, m: Picture, budget: int, bands: seq<Band>, count: nat, done: nat, j: nat)
    requires ValidShadow(s) && ValidPicture(m) && Progress(s, m, budget, bands, count, done, j)
    requires j < LINES && !Stale(s, m, LineAt(s.nextLine, j))
    ensures Progress(s, m, budget, bands, count, done, j + 1)
  {
  }

  lemma ProgressBounds(s: Shadow, m: Picture, budget: int, bands: seq<Band>, count: nat, done: nat, j: nat)
    requires ValidShadow(s) && ValidPicture(m) && Progress(s, m, budget, bands, count, done, j)
    ensures done <= |bands| && count == Fitting(Patches(m, bands), budget, done)
  {
  }

  /** The band met at line j is the next of them all. */
  lemma NextBand(s: Shadow, m: Picture, bands: seq<Band>, done: nat, b: Band)
    requires ValidShadow(s) && ValidPicture(m) && IsBand(s, m, b) && b.i < LINES
    requires done <= |bands| && bands[done..] == Bands(s, m, b.i)
    ensures done < |bands| && bands[done] == b && bands[done + 1..] == Bands(s, m, b.i + b.rect.height)
  {
    hide X0, X1, Stale;
    assert Stale(s, m, b.rect.line);
    OneBand(s, m, b, BandAt(s, m, b.i));
    assert bands[done..][0] == bands[done] && bands[done..][1..] == bands[done + 1..];
  }

  lemma ProgressTakes(s: Shadow, m: Picture, budget: int, bands: seq<Band>, count: nat, done: nat, j: nat, r: Rect)
    requires ValidShadow(s) && ValidPicture(m) && IsBand(s, m, Band(j, r)) && j < LINES
    requires Progress(s, m, budget, bands, count, done, j) && done < |bands| && bands[done] == Band(j, r)
    requires done == 0 || |Message(Patches(m, bands[..done + 1]))| <= budget
    ensures Progress(s, m, budget, bands, count, done + 1, j + r.height)
  {
    hide Stale, Message, Bands, Patches;
    NextBand(s, m, bands, done, Band(j, r));
    PatchesCut(m, bands, done + 1);
  }

  lemma ProgressStops(m: Picture, budget: int, bands: seq<Band>, done: nat)
    requires ValidPicture(m) && 0 < done < |bands| && |Message(Patches(m, bands[..done + 1]))| > budget
    ensures Fitting(Patches(m, bands), budget, done) == done
  {
    PatchesCut(m, bands, done + 1);
  }

  lemma MetBefore(s: Shadow, m: Picture, done: nat, j: nat, b: nat)
    requires ValidShadow(s) && ValidPicture(m) && b < done <= |Bands(s, m, 0)|
    requires var last := Bands(s, m, 0)[done - 1]; last.i + last.rect.height <= j
    ensures var x := Bands(s, m, 0)[b]; IsBand(s, m, x) && x.i + x.rect.height <= j
  {
    BandsGood(s, m, 0, b);
    if b < done - 1 {
      BandsOrdered(s, m, 0, b, done - 1);
    }
  }

  /** A line not met yet is as it was. */
  lemma NotMetYet(s: Shadow, m: Picture, done: nat, j: nat, i: nat)
    requires ValidShadow(s) && ValidPicture(m) && done <= |Bands(s, m, 0)| && j <= i < LINES
    requires done > 0 ==> var last := Bands(s, m, 0)[done - 1]; last.i + last.rect.height <= j
    ensures var r, l := ShadowAfter(s, m, Bands(s, m, 0)[..done]), LineAt(s.nextLine, i);
      r.known[l] == s.known[l] && r.pixels[l] == s.pixels[l]
  {
    var bands, l := Bands(s, m, 0), LineAt(s.nextLine, i);
    forall b | 0 <= b < done ensures !Within(bands[b].rect, l) {
      MetBefore(s, m, done, j, b);
    }
    PatchedLine(s, m, s.pixels, done, l);
    KnownLine(s, m, done, l);
  }

  lemma KnownNext(known: seq<bool>, bands: seq<Band>, done: nat, l: nat)
    requires |known| == LINES && done < |bands| && l < LINES
    ensures KnownAfter(known, bands[..done + 1])[l] == (KnownAfter(known, bands[..done])[l] || Within(bands[done].rect, l))
  {
    var before, after := bands[..done], bands[..done + 1];
    assert after[done] == bands[done];
    assert forall j :: 0 <= j < done ==> after[j] == before[j];
  }

  lemma NextShadow(s: Shadow, m: Picture, bands: seq<Band>, done: nat)
    requires ValidShadow(s) && ValidPicture(m) && done < |bands|
    ensures var before, after := ShadowAfter(s, m, bands[..done]), ShadowAfter(s, m, bands[..done + 1]);
      && after.pixels == PutPatch(before.pixels, Carried(m, bands[done].rect))
      && forall l :: 0 <= l < LINES ==> after.known[l] == (before.known[l] || Within(bands[done].rect, l))
  {
    PutLast(m, s.pixels, bands, done + 1);
    forall l | 0 <= l < LINES
      ensures KnownAfter(s.known, bands[..done + 1])[l] ==
        (KnownAfter(s.known, bands[..done])[l] || Within(bands[done].rect, l))
    {
      KnownNext(s.known, bands, done, l);
    }
  }

  /** Every line scanned: the message is whole. */
  lemma EncodedAll(s: Shadow, m: Picture, budget: int, out: seq<byte>, c: Memory, bands: seq<Band>, done: nat)
    requires ValidShadow(s) && ValidPicture(m) && bands == Bands(s, m, 0)
    requires Progress(s, m, budget, bands, SentCount(s, m, budget), done, LINES)
    requires Holding(out, c, m, bands[..done])
    ensures var r := Encode(s, m, budget);
      r.message == (if |out| > 1 then out else []) && r.shadow == ShadowAfter(s, m, bands[..done])
    ensures |out| == Filled(s, m, WrittenCount(s, m, budget))
  {
    assert done == |bands|;
    FirstRect(m, bands, done);
  }

  /** A band is left for the next message. */
  lemma EncodedOver(s: Shadow, m: Picture, budget: int, out: seq<byte>, c: Memory, after: seq<byte>, d: Memory,
                    bands: seq<Band>, done: nat)
    requires ValidShadow(s) && ValidPicture(m) && bands == Bands(s, m, 0)
    requires 0 < done < |bands| && SentCount(s, m, budget) == done
    requires Holding(out, c, m, bands[..done]) && Holding(after, d, m, bands[..done + 1])
    ensures |after| == Filled(s, m, WrittenCount(s, m, budget))
    ensures var r := Encode(s, m, budget);
      r.message == out && r.shadow == ShadowAfter(s, m, bands[..done]).(nextLine := bands[done].rect.line)
  {
  }

  /** A band as it is gathered: h stale lines from line l, met j lines on, and as wide as their changes so far. */
  ghost predicate Growing(s: Shadow, m: Picture, j: nat, l: nat, h: nat, x: nat, x1: nat)
    requires ValidShadow(s) && ValidPicture(m)
  {
    && 0 < h <= BAND && j + h <= LINES && l + h <= LINES && l == LineAt(s.nextLine, j)
    && StaleLines(s, m, l, h) && x < x1 <= WIDTH
    && (forall k :: l <= k < l + h ==> x <= X0(s, m, k) && X1(s, m, k) <= x1)
    && (exists k :: l <= k < l + h && X0(s, m, k) == x)
    && (exists k :: l <= k < l + h && X1(s, m, k) == x1)
  }

  lemma GrowsFrom(s: Shadow, m: Picture, j: nat)
    requires ValidShadow(s) && ValidPicture(m) && j < LINES && Stale(s, m, LineAt(s.nextLine, j))
    ensures var l := LineAt(s.nextLine, j); Growing(s, m, j, l, 1, X0(s, m, l), X1(s, m, l))
  {
  }

  lemma GrowsOn(s: Shadow, m: Picture, j: nat, l: nat, h: nat, x: nat, x1: nat)
    requires ValidShadow(s) && ValidPicture(m) && Growing(s, m, j, l, h, x, x1)
    requires h < BAND && j + h < LINES && l + h < LINES && Stale(s, m, l + h)
    ensures Growing(s, m, j, l, h + 1, Min(X0(s, m, l + h), x), Max(X1(s, m, l + h), x1))
  {
    hide Stale, X0, X1, LineAt;
    var k0 :| l <= k0 < l + h && X0(s, m, k0) == x;
    var k1 :| l <= k1 < l + h && X1(s, m, k1) == x1;
    assert X0(s, m, if X0(s, m, l + h) < x then l + h else k0) == Min(X0(s, m, l + h), x);
    assert X1(s, m, if X1(s, m, l + h) > x1 then l + h else k1) == Max(X1(s, m, l + h), x1);
  }

  lemma GrownBand(s: Shadow, m: Picture, j: nat, l: nat, h: nat, x: nat, x1: nat)
    requires ValidShadow(s) && ValidPicture(m) && Growing(s, m, j, l, h, x, x1)
    requires h == BAND || j + h == LINES || l + h == LINES || !Stale(s, m, l + h)
    ensures IsBand(s, m, Band(j, Box(l, x, x1 - x, h)))
  {
  }

  /** The line after a band's last ends the band unless it lengthens it. */
  lemma BandEnds(s: Shadow, m: Picture, j: nat, band: nat, h: nat, x: nat, x1: nat, l: nat, more: bool)
    requires ValidShadow(s) && ValidPicture(m) && Growing(s, m, j, band, h, x, x1)
    requires j + h < LINES ==> l == LineAt(s.nextLine, j + h) && more == Stale(s, m, l)
    requires j + h < LINES ==> !(more && l == band + h && h < BAND)
    ensures h == BAND || j + h == LINES || band + h == LINES || !Stale(s, m, band + h)
  {
  }

  /** The shadow of a page, its lines scanned and brought up to date in place. */
  class PageShadow {
    const pixels: array2<word>
    const known: array<bool>
    var nextLine: nat
    ghost var contents: Picture   // the pixels

    ghost predicate Valid()
      reads this, pixels, known
    {
      && pixels.Length0 == LINES && pixels.Length1 == WIDTH && Holds(pixels, contents)
      && known.Length == LINES && nextLine < LINES
    }

    ghost function State(): (s: Shadow)
      reads this, pixels, known
      ensures Valid() ==> ValidShadow(s)
    {
      Shadow(contents, known[..], nextLine)
    }

    constructor ()
      ensures Valid() && fresh(pixels) && fresh(known) && State() == Forgotten()
    {
      pixels := new word[LINES, WIDTH]((_, _) => 0);
      known := new bool[LINES](_ => false);
      nextLine := 0;
      contents := seq(LINES, _ => seq(WIDTH, _ => 0));
    }

    /** Where the line differs from what the page has, if it does. */
    method Changed(memory: array2<word>, ghost m: Picture, l: nat) returns (more: bool, x0: nat, x1: nat)
      requires Valid() && ValidPicture(m) && Holds(memory, m) && memory.Length0 == LINES && memory.Length1 == WIDTH
      requires l < LINES
      ensures more == Stale(State(), m, l)
      ensures more ==> x0 == X0(State(), m, l) && x1 == X1(State(), m, l)
    {
      more, x0, x1 := true, 0, WIDTH;
      if !known[l] {
        return;
      }
      while x0 < WIDTH && memory[l, x0] == pixels[l, x0]
        invariant x0 <= WIDTH && FirstDiff(m[l], contents[l], x0) == FirstDiff(m[l], contents[l], 0)
      {
        x0 := x0 + 1;
      }
      if x0 == WIDTH {
        assert m[l] == m[l][0..WIDTH] && contents[l] == contents[l][0..WIDTH];
        more := false;
        return;
      }
      assert m[l][x0] != contents[l][x0];
      while memory[l, x1 - 1] == pixels[l, x1 - 1]
        invariant x0 < x1 <= WIDTH && LastDiff(m[l], contents[l], x1) == LastDiff(m[l], contents[l], WIDTH)
        decreases x1
      {
        x1 := x1 - 1;
      }
    }

    method CopyRow(memory: array2<word>, ghost m: Picture, l: nat, from: nat, to: nat)
      requires pixels.Length0 == LINES && pixels.Length1 == WIDTH && memory != pixels
      requires ValidPicture(m) && Holds(memory, m) && memory.Length0 == LINES && memory.Length1 == WIDTH
      requires l < LINES && from <= to <= WIDTH
      modifies pixels
      ensures forall i, x :: 0 <= i < LINES && 0 <= x < WIDTH ==>
        pixels[i, x] == if i == l && from <= x < to then m[l][x] else old(pixels[i, x])
    {
      forall k | from <= k < to {
        pixels[l, k] := memory[l, k];
      }
    }

    /** The page has the rectangle. */
    method ShadowRect(memory: array2<word>, ghost m: Picture, r: Rect)
      requires Valid() && ValidPicture(m) && Holds(memory, m) && memory.Length0 == LINES && memory.Length1 == WIDTH
      requires memory != pixels
      modifies this`contents, pixels, known
      ensures Valid() && contents == PutPatch(old(contents), Carried(m, r))
      ensures forall l :: 0 <= l < LINES ==> known[l] == (old(known[l]) || Within(r, l))
    {
      ghost var was, goal := contents, PutPatch(contents, Carried(m, r));
      for i := r.line to r.line + r.height
        invariant Holds(memory, m)
        invariant forall l, x :: 0 <= l < LINES && 0 <= x < WIDTH ==>
          pixels[l, x] == if r.line <= l < i && r.x <= x < r.x + r.width then m[l][x] else was[l][x]
        invariant forall l :: 0 <= l < LINES ==> known[l] == (old(known[l]) || r.line <= l < i)
      {
        CopyRow(memory, m, i, r.x, r.x + r.width);
        known[i] := true;
      }
      forall l, x | 0 <= l < LINES && 0 <= x < WIDTH ensures goal[l][x] == pixels[l, x] {
        PatchAt(was, m, r, l, x);
      }
      contents := goal;
    }

    /** Where the encoder is: the first done bands in the message and the shadow, the lines from j on still to scan. */
    ghost predicate Encoding(w: Writer, s: Shadow, m: Picture, budget: int, bands: seq<Band>, count: nat, done: nat, j: nat)
      requires ValidShadow(s) && ValidPicture(m)
      reads this, pixels, known, w
    {
      && Progress(s, m, budget, bands, count, done, j)
      && Holding(w.out, w.colours, m, bands[..done])
      && State() == ShadowAfter(s, m, bands[..done])
    }

    /** A rectangle put into the message, and whether that takes it over the budget: not if it is the first. */
    method TryBand(w: Writer, memory: array2<word>, ghost m: Picture, r: Rect, budget: int,
                   ghost bands: seq<Band>, ghost done: nat)
      returns (over: bool)
      requires ValidPicture(m) && Holds(memory, m) && memory.Length0 == LINES && memory.Length1 == WIDTH
      requires done < |bands| && bands[done].rect == r && Holding(w.out, w.colours, m, bands[..done])
      modifies w
      ensures Holding(w.out, w.colours, m, bands[..done + 1]) && old(w.out) <= w.out
      ensures over <==> done > 0 && |w.out| > budget
    {
      var before := |w.out|;
      HoldsNext(w.out, w.colours, m, bands, done);
      FirstRect(m, bands, done);
      w.PutRect(memory, m, r);
      over := |w.out| > budget && before > 1;
    }

    /** The page has the band. */
    method ShadowBand(memory: array2<word>, ghost m: Picture, r: Rect, ghost s: Shadow, ghost bands: seq<Band>, ghost done: nat)
      requires Valid() && ValidPicture(m) && Holds(memory, m) && memory.Length0 == LINES && memory.Length1 == WIDTH
      requires memory != pixels && ValidShadow(s) && done < |bands| && bands[done].rect == r
      requires State() == ShadowAfter(s, m, bands[..done])
      modifies this`contents, pixels, known
      ensures Valid() && State() == ShadowAfter(s, m, bands[..done + 1])
    {
      NextShadow(s, m, bands, done);
      ShadowRect(memory, m, r);
      assert known[..] == ShadowAfter(s, m, bands[..done + 1]).known;
    }

    /** A band goes, unless it takes the message over the budget: then the next message starts with it. */
    method SendBand(w: Writer, memory: array2<word>, ghost m: Picture, r: Rect, budget: int,
                    ghost s: Shadow, ghost bands: seq<Band>, ghost count: nat, ghost done: nat, ghost j: nat)
      returns (over: bool)
      requires Valid() && ValidPicture(m) && Holds(memory, m) && memory.Length0 == LINES && memory.Length1 == WIDTH
      requires memory != pixels && ValidShadow(s) && j < LINES
      requires Encoding(w, s, m, budget, bands, count, done, j)
      requires IsBand(s, m, Band(j, r)) && done < |bands| && bands[done] == Band(j, r)
      modifies w, this`contents, this`nextLine, pixels, known
      ensures Valid()
      ensures over ==>
        && count == done > 0 && old(w.out) <= w.out && Holding(w.out, w.colours, m, bands[..done + 1])
        && State() == ShadowAfter(s, m, bands[..done]).(nextLine := r.line)
      ensures !over ==> Encoding(w, s, m, budget, bands, count, done + 1, j + r.height)
    {
      hide Progress, Holding, ShadowAfter, Bands, IsBand, Stale, Fitting, Patches, Holds, Shaped;
      ProgressBounds(s, m, budget, bands, count, done, j);
      over := TryBand(w, memory, m, r, budget, bands, done);
      if over {
        nextLine := r.line;
        ProgressStops(m, budget, bands, done);
      } else {
        ProgressTakes(s, m, budget, bands, count, done, j, r);
        ShadowBand(memory, m, r, s, bands, done);
      }
    }

    /** Where the line differs from what the page had before any of this message. */
    method ScanLine(memory: array2<word>, ghost m: Picture, l: nat, w: Writer, ghost s: Shadow, ghost budget: int,
                    ghost bands: seq<Band>, ghost count: nat, ghost done: nat, ghost j: nat, ghost i: nat)
      returns (more: bool, x0: nat, x1: nat)
      requires Valid() && ValidPicture(m) && Holds(memory, m) && memory.Length0 == LINES && memory.Length1 == WIDTH
      requires ValidShadow(s) && bands == Bands(s, m, 0) && Encoding(w, s, m, budget, bands, count, done, j)
      requires j <= i < LINES && l == LineAt(s.nextLine, i)
      ensures more == Stale(s, m, l)
      ensures more ==> x0 == X0(s, m, l) && x1 == X1(s, m, l)
    {
      NotMetYet(s, m, done, j, i);
      more, x0, x1 := Changed(memory, m, l);
    }

    /** The gathered band goes, if it can. */
    method Flush(w: Writer, memory: array2<word>, ghost m: Picture, band: nat, h: nat, x0: nat, x1: nat, budget: int,
                 ghost s: Shadow, ghost bands: seq<Band>, ghost count: nat, ghost done: nat, ghost j: nat)
      returns (over: bool)
      requires Valid() && ValidPicture(m) && Holds(memory, m) && memory.Length0 == LINES && memory.Length1 == WIDTH
      requires memory != pixels && ValidShadow(s) && Encoding(w, s, m, budget, bands, count, done, j)
      requires Growing(s, m, j, band, h, x0, x1)
      requires h == BAND || j + h == LINES || band + h == LINES || !Stale(s, m, band + h)
      modifies w, this`contents, this`nextLine, pixels, known
      ensures Valid()
      ensures over ==>
        && 0 < done == count < |bands| && old(w.out) <= w.out && bands[done].rect.line == band
        && Holding(w.out, w.colours, m, bands[..done + 1])
        && State() == ShadowAfter(s, m, bands[..done]).(nextLine := band)
      ensures !over ==> Encoding(w, s, m, budget, bands, count, done + 1, j + h)
    {
      hide Holding, ShadowAfter, IsBand, Fitting, Patches, Stale, StaleLines, X0, X1, Bands, LineAt, Holds, Shaped;
      var r: Rect := Box(band, x0, x1 - x0, h);
      GrownBand(s, m, j, band, h, x0, x1);
      NextBand(s, m, bands, done, Band(j, r));
      over := SendBand(w, memory, m, r, budget, s, bands, count, done, j);
    }

    /** A message of what memory has that the page does not, and the shadow of the page that has it; and the bytes the
        buffer had on the way. */
    method SendMessage(memory: array2<word>, ghost m: Picture, budget: int)
      returns (message: seq<byte>, ghost filled: nat)
      requires Valid() && ValidPicture(m) && Holds(memory, m) && memory.Length0 == LINES && memory.Length1 == WIDTH
      requires memory != pixels
      modifies this`contents, this`nextLine, pixels, known
      ensures Valid()
      ensures message == Encode(old(State()), m, budget).message
      ensures State() == Encode(old(State()), m, budget).shadow
      ensures filled == Filled(old(State()), m, WrittenCount(old(State()), m, budget))
    {
      hide Progress, Growing, Holding, Encode, ShadowAfter, Stale, X0, X1, Bands, SentCount, LineAt, Holds, Shaped, Filled, WrittenCount;
      var w := new Writer();
      ghost var s, bands, count, done, j := State(), Bands(State(), m, 0), SentCount(State(), m, budget), 0, 0;
      StartsEmpty(s, m, budget);
      var gathering := false;
      var i: nat, band: nat, h: nat, x0: nat, x1: nat := 0, 0, 0, 0, 0;
      while i <= LINES
        invariant i <= LINES + 1 && j <= LINES && Valid() && Holds(memory, m)
        invariant Encoding(w, s, m, budget, bands, count, done, j)
        invariant gathering ==> i == j + h && i <= LINES && Growing(s, m, j, band, h, x0, x1)
        invariant !gathering ==> j == if i <= LINES then i else LINES
      {
        var l, more, a, b := (nextLine + i) % LINES, false, 0, 0;
        if i < LINES {
          more, a, b := ScanLine(memory, m, l, w, s, budget, bands, count, done, j, i);
        }
        if more && gathering && l == band + h && h < BAND {
          GrowsOn(s, m, j, band, h, x0, x1);
          h := h + 1;
          x0 := if a < x0 then a else x0;
          x1 := if b > x1 then b else x1;
        } else {
          if gathering {
            var before := w.out;
            ghost var colours := w.colours;
            BandEnds(s, m, j, band, h, x0, x1, l, more);
            var over := Flush(w, memory, m, band, h, x0, x1, budget, s, bands, count, done, j);
            if over {
              EncodedOver(s, m, budget, before, colours, w.out, w.colours, bands, done);
              return w.out[..|before|], |w.out|;
            }
            done, j := done + 1, j + h;
          }
          if more {
            GrowsFrom(s, m, i);
          } else if i < LINES {
            ProgressSkips(s, m, budget, bands, count, done, i);
            j := i + 1;
          }
          gathering, band, h, x0, x1 := more, l, 1, a, b;
        }
        i := i + 1;
      }
      EncodedAll(s, m, budget, w.out, w.colours, bands, done);
      return if |w.out| > 1 then w.out else [], |w.out|;
    }
  }

  /** Before the first line the message is only its tag. */
  lemma StartsEmpty(s: Shadow, m: Picture, budget: int)
    requires ValidShadow(s) && ValidPicture(m)
    ensures Progress(s, m, budget, Bands(s, m, 0), SentCount(s, m, budget), 0, 0)
    ensures Holding([TAG], START, m, Bands(s, m, 0)[..0]) && ShadowAfter(s, m, Bands(s, m, 0)[..0]) == s
  {
    assert KnownAfter(s.known, []) == s.known;
  }

  lemma PatchAt(was: Picture, m: Picture, r: Rect, l: nat, x: nat)
    requires ValidPicture(was) && ValidPicture(m) && l < LINES && x < WIDTH
    ensures PutPatch(was, Carried(m, r))[l][x] == if Within(r, l) && r.x <= x < r.x + r.width then m[l][x] else was[l][x]
  {
    PutRowsAt(was, m, r.line, r.height, r.x, r.width, l);
  }
}
