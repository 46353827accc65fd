/** What the pixel code promises of size, and what its remembered colours are. */
module PixelCodeLaws {
  import opened Words
  import opened PixelCode

  // ---- The remembered colours ----

  lemma OneRun(c: Memory, run: Run)
    ensures Pixels(c, [run]) == RunPixels(c, run)
  {
    assert [run][1..] == [];
  }

  lemma ThreeRuns(c: Memory, a: Run, b: Run, d: Run)
    ensures var ca := RunMemory(c, a);
      Pixels(c, [a, b, d]) == RunPixels(c, a) + RunPixels(ca, b) + RunPixels(RunMemory(ca, b), d)
  {
    hide RunPixels, RunMemory;
    var ca := RunMemory(c, a);
    OneRun(RunMemory(ca, b), d);
    assert [a, b, d][1..] == [b, d] && [b, d][1..] == [d];
    assert Pixels(ca, [b, d]) == RunPixels(ca, b) + RunPixels(RunMemory(ca, b), d);
  }

  /** A new colour becomes the first of the two and the one that was first the second; the second becomes the first when it
      is used, and the first the second; literal pixels and the first colour leave them as they are. */
  lemma Remembered(c: Memory, v: word, px: seq<word>, n: nat, m: nat, k: nat)
    ensures Pixels(c, [Colour(v, n), First(m), Second(k)]) == Repeated(v, n) + Repeated(v, m) + Repeated(c.first, k)
    ensures Pixels(c, [Second(n), First(m), Second(k)]) == Repeated(c.second, n) + Repeated(c.second, m) + Repeated(c.first, k)
    ensures Pixels(c, [First(n), First(m), Second(k)]) == Repeated(c.first, n) + Repeated(c.first, m) + Repeated(c.second, k)
    ensures Pixels(c, [Literal(px), First(m), Second(k)]) == px + Repeated(c.first, m) + Repeated(c.second, k)
  {
    hide Pixels, Repeated;
    ThreeRuns(c, Colour(v, n), First(m), Second(k));
    ThreeRuns(c, Second(n), First(m), Second(k));
    ThreeRuns(c, First(n), First(m), Second(k));
    ThreeRuns(c, Literal(px), First(m), Second(k));
  }

  // ---- What is short ----

  /** A fill is one run. */
  lemma FillIsOneRun(c: Memory, v: word, n: nat)
    requires n > 0
    ensures Coded(c, Repeated(v, n)) == [if v == c.first then First(n) else if v == c.second then Second(n) else Colour(v, n)]
  {
    var px := Repeated(v, n);
    var end := RunEnd(px, 0, 1);
    assert px[0] == v && end == n;
    assert Code(RunMemory(c, RunOf(c, v, n)), px, n, 0) == [];
  }

  /** The stretches of one colour from i on. */
  function Stretches(px: seq<word>, i: nat): nat
    requires i <= |px|
    decreases |px| - i
  {
    if i == |px| then 0 else (if i + 1 == |px| || px[i + 1] != px[i] then 1 else 0) + Stretches(px, i + 1)
  }

  lemma {:induction false} OneStretch(px: seq<word>, i: nat, end: nat)
    requires i < end <= |px| && (forall k :: i <= k < end ==> px[k] == px[i]) && (end < |px| ==> px[end] != px[i])
    ensures Stretches(px, i) == 1 + Stretches(px, end)
    decreases |px| - i
  {
    if i + 1 < end {
      OneStretch(px, i + 1, end);
    }
  }

  /** Only the remembered colours are in it. */
  predicate OfTwo(c: Memory, px: seq<word>) {
    forall i :: 0 <= i < |px| ==> px[i] == c.first || px[i] == c.second
  }

  lemma {:induction false} TwoColoursFrom(c: Memory, px: seq<word>, i: nat)
    requires i <= |px| && OfTwo(c, px)
    ensures var runs := Code(c, px, i, 0);
      |runs| == Stretches(px, i) && forall k :: 0 <= k < |runs| ==> runs[k].First? || runs[k].Second?
    decreases |px| - i
  {
    if i < |px| {
      var end := RunEnd(px, i, i + 1);
      var run := RunOf(c, px[i], end - i);
      OneStretch(px, i, end);
      TwoColoursFrom(RunMemory(c, run), px, end);
      assert Code(c, px, i, 0) == [run] + Code(RunMemory(c, run), px, end, 0);
    }
  }

  /** Pixels of the two remembered colours are a run a stretch, none with a colour in it. */
  lemma TwoColoursAreStretches(c: Memory, px: seq<word>)
    requires OfTwo(c, px)
    ensures var runs := Coded(c, px);
      |runs| == Stretches(px, 0) && forall k :: 0 <= k < |runs| ==> runs[k].First? || runs[k].Second?
  {
    TwoColoursFrom(c, px, 0);
  }

  /** Each pixel differs from the next, and none is remembered. */
  predicate AllNew(c: Memory, px: seq<word>) {
    forall i :: 0 <= i < |px| ==> px[i] != c.first && px[i] != c.second && (i + 1 < |px| ==> px[i + 1] != px[i])
  }

  lemma {:induction false} NewFrom(c: Memory, px: seq<word>, i: nat)
    requires 0 < i <= |px| && AllNew(c, px)
    ensures Code(c, px, i, i) == [Literal(px)]
    decreases |px| - i
  {
    if i < |px| {
      NewFrom(c, px, i + 1);
    } else {
      assert px[i - i..] == px;
    }
  }

  /** Two or more pixels like none before them are one run of themselves. */
  lemma NewAreLiteral(c: Memory, px: seq<word>)
    requires |px| >= 2 && AllNew(c, px)
    ensures Coded(c, px) == [Literal(px)]
  {
    NewFrom(c, px, 1);
  }
}
