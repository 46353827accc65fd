/** The pixel runs of a web message: a coder that remembers two colours, and a decoder by the documented format. */
module PixelCode {
  import opened Words

  const LITERAL := 0
  const COLOUR := 1
  const FIRST := 2
  const SECOND := 3

  /** More pixels than a run's count can say. */
  const LIMIT := 0x1_0000

  /** The two remembered colours. */
  datatype Memory = Memory(first: word, second: word)

  /** As they start each message: black, then white. */
  const START := Memory(0x0000, 0xFFFF)

  /** A run: pixels as themselves, n of a new colour, or n of the first or second remembered one. */
  datatype Run = Literal(px: seq<word>) | Colour(v: word, n: nat) | First(n: nat) | Second(n: nat)

  function Count(run: Run): nat {
    if run.Literal? then |run.px| else run.n
  }

  function Repeated(v: word, n: nat): seq<word> {
    seq(n, _ => v)
  }

  /** The pixels of a run, with the colours remembered before it. */
  function RunPixels(c: Memory, run: Run): (px: seq<word>)
    ensures |px| == Count(run)
  {
    match run
    case Literal(px) => px
    case Colour(v, n) => Repeated(v, n)
    case First(n) => Repeated(c.first, n)
    case Second(n) => Repeated(c.second, n)
  }

  /** The colours remembered after it: a new colour becomes the first, and the second and the first swap. */
  function RunMemory(c: Memory, run: Run): Memory {
    match run
    case Literal(_) => c
    case Colour(v, _) => Memory(v, c.first)
    case First(_) => c
    case Second(_) => Memory(c.second, c.first)
  }

  function Pixels(c: Memory, runs: seq<Run>): seq<word>
    decreases runs
  {
    if runs == [] then [] else RunPixels(c, runs[0]) + Pixels(RunMemory(c, runs[0]), runs[1..])
  }

  function After(c: Memory, runs: seq<Run>): Memory
    decreases runs
  {
    if runs == [] then c else After(RunMemory(c, runs[0]), runs[1..])
  }

  function Total(runs: seq<Run>): nat {
    if runs == [] then 0 else Count(runs[0]) + Total(runs[1..])
  }

  /** Runs a message can carry: each of some pixels, and no more than its count can say. */
  predicate Sendable(runs: seq<Run>) {
    forall i :: 0 <= i < |runs| ==> 0 < Count(runs[i]) < LIMIT
  }

  // ---- The coder ----

  /** Whether pixel i is alone (its neighbour differs) and not remembered. */
  predicate Lone(c: Memory, px: seq<word>, i: nat)
    requires i < |px|
  {
    (i + 1 == |px| || px[i + 1] != px[i]) && px[i] != c.first && px[i] != c.second
  }

  /** A pixel that joins the literal ones before it, or starts some with the next. */
  predicate JoinsLiteral(c: Memory, px: seq<word>, i: nat, literal: nat)
    requires i < |px|
  {
    Lone(c, px, i) && (literal > 0 || (i + 1 < |px| && Lone(c, px, i + 1)))
  }

  /** Where the pixels that repeat pixel i end. */
  function RunEnd(px: seq<word>, i: nat, j: nat): (end: nat)
    requires i < j <= |px|
    ensures j <= end <= |px|
    ensures forall k :: j <= k < end ==> px[k] == px[i]
    ensures end < |px| ==> px[end] != px[i]
    decreases |px| - j
  {
    if j < |px| && px[j] == px[i] then RunEnd(px, i, j + 1) else j
  }

  function LiteralRuns(px: seq<word>): seq<Run> {
    if px == [] then [] else [Literal(px)]
  }

  /** n pixels of colour v: of a remembered colour, or of a new one. */
  function RunOf(c: Memory, v: word, n: nat): Run {
    if v == c.first then First(n) else if v == c.second then Second(n) else Colour(v, n)
  }

  /** The runs of the pixels from i on, with the literal ones before i still to go. */
  function Code(c: Memory, px: seq<word>, i: nat, literal: nat): (runs: seq<Run>)
    requires literal <= i <= |px|
    ensures |px| < LIMIT ==> Sendable(runs)
    decreases |px| - i
  {
    if i == |px| then LiteralRuns(px[i - literal..])
    else if JoinsLiteral(c, px, i, literal) then Code(c, px, i + 1, literal + 1)
    else
      var end := RunEnd(px, i, i + 1);
      var run := RunOf(c, px[i], end - i);
      LiteralRuns(px[i - literal..i]) + [run] + Code(RunMemory(c, run), px, end, 0)
  }

  // ---- Runs as bytes ----

  function Bytes16(v: word): (b: seq<byte>)
    ensures |b| == 2
  {
    [v % 0x100, v / 0x100]
  }

  function Word16(b: seq<byte>): word
    requires |b| >= 2
  {
    Join(b[1], b[0])
  }

  function Words16(px: seq<word>): (b: seq<byte>)
    ensures |b| == 2 * |px|
  {
    seq(2 * |px|, j requires 0 <= j < 2 * |px| => if j % 2 == 0 then px[j / 2] % 0x100 else px[j / 2] / 0x100)
  }

  function Header(kind: nat, n: nat): seq<byte>
    requires kind < 4 && 0 < n < LIMIT
  {
    if n < 64 then [kind * 64 + n] else [kind * 64] + Bytes16(n)
  }

  function RunBytes(run: Run): seq<byte>
    requires 0 < Count(run) < LIMIT
  {
    match run
    case Literal(px) => Header(LITERAL, |px|) + Words16(px)
    case Colour(v, n) => Header(COLOUR, n) + Bytes16(v)
    case First(n) => Header(FIRST, n)
    case Second(n) => Header(SECOND, n)
  }

  function Bytes(runs: seq<Run>): seq<byte>
    requires Sendable(runs)
  {
    if runs == [] then [] else RunBytes(runs[0]) + Bytes(runs[1..])
  }

  // ---- The documented format, read ----

  function ReadWords(b: seq<byte>, n: nat): (px: seq<word>)
    requires |b| >= 2 * n
    ensures |px| == n
  {
    seq(n, i requires 0 <= i < n => Join(b[2 * i + 1], b[2 * i]))
  }

  /** What a reader takes from the bytes, and the bytes left. */
  datatype Read<T> = Read(value: T, rest: seq<byte>)

  /** A run's kind and count. */
  function ReadHeader(b: seq<byte>): (r: Option<Read<(nat, nat)>>)
    ensures r.Some? ==> |r.value.rest| < |b|
  {
    if b == [] then None
    else if b[0] % 64 > 0 then Some(Read((b[0] / 64, b[0] % 64), b[1..]))
    else if |b| < 3 then None
    else Some(Read((b[0] / 64, Word16(b[1..])), b[3..]))
  }

  function ReadBody(kind: nat, n: nat, b: seq<byte>): (r: Option<Read<Run>>)
    ensures r.Some? ==> |r.value.rest| <= |b|
  {
    if kind == LITERAL then if |b| < 2 * n then None else Some(Read(Literal(ReadWords(b, n)), b[2 * n..]))
    else if kind == COLOUR then if |b| < 2 then None else Some(Read(Colour(Word16(b), n), b[2..]))
    else Some(Read(if kind == FIRST then First(n) else Second(n), b))
  }

  /** A run of at most n pixels. */
  function ReadRun(b: seq<byte>, n: nat): (r: Option<Read<Run>>)
    ensures r.Some? ==> 0 < Count(r.value.value) <= n && |r.value.rest| < |b|
  {
    match ReadHeader(b)
    case None => None
    case Some(header) =>
      if header.value.1 == 0 || header.value.1 > n then None
      else ReadBody(header.value.0, header.value.1, header.rest)
  }

  /** Runs covering n pixels. */
  function ReadRuns(b: seq<byte>, n: nat): (r: Option<Read<seq<Run>>>)
    ensures r.Some? ==> |r.value.rest| <= |b|
    decreases n
  {
    if n == 0 then Some(Read([], b))
    else
      match ReadRun(b, n)
      case None => None
      case Some(first) =>
        match ReadRuns(first.rest, n - Count(first.value))
        case None => None
        case Some(more) => Some(Read([first.value] + more.value, more.rest))
  }

  /** n pixels decoded, the colours remembered after them, and the bytes left. */
  datatype Decoded = Decoded(px: seq<word>, c: Memory, rest: seq<byte>)

  function Decode(c: Memory, b: seq<byte>, n: nat): (r: Option<Decoded>)
    ensures r.Some? ==> |r.value.rest| <= |b|
  {
    match ReadRuns(b, n)
    case None => None
    case Some(read) => Some(Decoded(Pixels(c, read.value), After(c, read.value), read.rest))
  }

  // ---- Decoding gives the pixels back ----

  lemma HeaderReads(kind: nat, n: nat, rest: seq<byte>)
    requires kind < 4 && 0 < n < LIMIT
    ensures ReadHeader(Header(kind, n) + rest) == Some(Read((kind, n), rest))
  {
    var b := Header(kind, n) + rest;
    if n >= 64 {
      assert b[0] == kind * 64 && b[1] == n % 0x100 && b[2] == n / 0x100;
      assert b[3..] == rest;
    } else {
      assert b[0] == kind * 64 + n;
      assert b[1..] == rest;
    }
  }

  lemma WordsRead(px: seq<word>, rest: seq<byte>)
    ensures ReadWords(Words16(px) + rest, |px|) == px
  {
    var b := Words16(px) + rest;
    forall i | 0 <= i < |px| ensures ReadWords(b, |px|)[i] == px[i] {
      assert b[2 * i] == px[i] % 0x100 && b[2 * i + 1] == px[i] / 0x100;
    }
  }

  lemma LiteralReads(px: seq<word>, rest: seq<byte>, n: nat)
    requires 0 < |px| < LIMIT && |px| <= n
    ensures ReadRun(RunBytes(Literal(px)) + rest, n) == Some(Read(Literal(px), rest))
  {
    var body := Words16(px) + rest;
    assert RunBytes(Literal(px)) + rest == Header(LITERAL, |px|) + body;
    HeaderReads(LITERAL, |px|, body);
    WordsRead(px, rest);
    assert body[2 * |px|..] == rest;
  }

  lemma RunReads(run: Run, rest: seq<byte>, n: nat)
    requires 0 < Count(run) < LIMIT && Count(run) <= n
    ensures ReadRun(RunBytes(run) + rest, n) == Some(Read(run, rest))
  {
    match run
    case Literal(px) =>
      LiteralReads(px, rest, n);
    case Colour(v, k) =>
      assert RunBytes(run) + rest == Header(COLOUR, k) + (Bytes16(v) + rest);
      HeaderReads(COLOUR, k, Bytes16(v) + rest);
      assert (Bytes16(v) + rest)[2..] == rest;
    case First(k) =>
      HeaderReads(FIRST, k, rest);
    case Second(k) =>
      HeaderReads(SECOND, k, rest);
  }

  /** Runs are read back as they were sent, whatever comes after them. */
  lemma {:induction false} RunsRead(runs: seq<Run>, rest: seq<byte>)
    requires Sendable(runs)
    ensures ReadRuns(Bytes(runs) + rest, Total(runs)) == Some(Read(runs, rest))
  {
    if runs == [] {
      assert Bytes(runs) + rest == rest;
    } else {
      var tail := Bytes(runs[1..]) + rest;
      assert Bytes(runs) + rest == RunBytes(runs[0]) + tail;
      RunReads(runs[0], tail, Total(runs));
      RunsRead(runs[1..], rest);
      assert runs == [runs[0]] + runs[1..];
    }
  }

  lemma {:induction false} JoinedRuns(c: Memory, a: seq<Run>, b: seq<Run>)
    ensures Pixels(c, a + b) == Pixels(c, a) + Pixels(After(c, a), b)
    ensures After(c, a + b) == After(After(c, a), b)
    ensures Total(a + b) == Total(a) + Total(b)
    decreases a
  {
    if a == [] {
      assert a + b == b;
    } else {
      assert (a + b)[1..] == a[1..] + b;
      JoinedRuns(RunMemory(c, a[0]), a[1..], b);
    }
  }

  lemma {:induction false} TotalPixels(c: Memory, runs: seq<Run>)
    ensures Total(runs) == |Pixels(c, runs)|
    decreases runs
  {
    if runs != [] {
      TotalPixels(RunMemory(c, runs[0]), runs[1..]);
    }
  }

  lemma LiteralRunsPixels(c: Memory, px: seq<word>)
    ensures Pixels(c, LiteralRuns(px)) == px && After(c, LiteralRuns(px)) == c
  {
    if px != [] {
      assert LiteralRuns(px)[1..] == [];
    }
  }

  lemma OneRun(c: Memory, run: Run)
    ensures Pixels(c, [run]) == RunPixels(c, run) && After(c, [run]) == RunMemory(c, run)
  {
    assert [run][1..] == [];
  }

  /** Some literal pixels, a run, and more runs. */
  lemma RunsInARow(c: Memory, lit: seq<word>, run: Run, more: seq<Run>)
    ensures var runs := LiteralRuns(lit) + [run] + more;
      && Pixels(c, runs) == lit + RunPixels(c, run) + Pixels(RunMemory(c, run), more)
      && After(c, runs) == After(RunMemory(c, run), more)
  {
    LiteralRunsPixels(c, lit);
    OneRun(c, run);
    JoinedRuns(c, LiteralRuns(lit), [run]);
    JoinedRuns(c, LiteralRuns(lit) + [run], more);
  }

  lemma RunJoins(px: seq<word>, i: nat, literal: nat, end: nat)
    requires literal <= i < end <= |px| && forall k :: i <= k < end ==> px[k] == px[i]
    ensures px[i - literal..] == px[i - literal..i] + Repeated(px[i], end - i) + px[end..]
  {
  }

  /** The coder's runs are the pixels. */
  lemma {:induction false} CodePixels(c: Memory, px: seq<word>, i: nat, literal: nat)
    requires literal <= i <= |px|
    ensures Pixels(c, Code(c, px, i, literal)) == px[i - literal..]
    decreases |px| - i
  {
    if i == |px| {
      LiteralRunsPixels(c, px[i - literal..]);
    } else if JoinsLiteral(c, px, i, literal) {
      CodePixels(c, px, i + 1, literal + 1);
    } else {
      var end := RunEnd(px, i, i + 1);
      CodePixels(RunMemory(c, RunOf(c, px[i], end - i)), px, end, 0);
      CodeRunPixels(c, px, i, literal, end);
    }
  }

  lemma CodeRunPixels(c: Memory, px: seq<word>, i: nat, literal: nat, end: nat)
    requires literal <= i < |px| && !JoinsLiteral(c, px, i, literal) && end == RunEnd(px, i, i + 1)
    requires var c' := RunMemory(c, RunOf(c, px[i], end - i)); Pixels(c', Code(c', px, end, 0)) == px[end - 0..]
    ensures Pixels(c, Code(c, px, i, literal)) == px[i - literal..]
  {
    var run := RunOf(c, px[i], end - i);
    var more := Code(RunMemory(c, run), px, end, 0);
    var runs := LiteralRuns(px[i - literal..i]) + [run] + more;
    assert Code(c, px, i, literal) == runs;
    assert Pixels(c, runs) == px[i - literal..] by {
      RunPixelsJoin(c, px, i, literal, end, more);
    }
  }

  lemma RunPixelsJoin(c: Memory, px: seq<word>, i: nat, literal: nat, end: nat, more: seq<Run>)
    requires literal <= i < end <= |px| && forall k :: i <= k < end ==> px[k] == px[i]
    requires var run := RunOf(c, px[i], end - i); Pixels(RunMemory(c, run), more) == px[end..]
    ensures var run := RunOf(c, px[i], end - i);
      Pixels(c, LiteralRuns(px[i - literal..i]) + [run] + more) == px[i - literal..]
  {
    RunsInARow(c, px[i - literal..i], RunOf(c, px[i], end - i), more);
    RunJoins(px, i, literal, end);
  }

  /** The runs of a picture. */
  function Coded(c: Memory, px: seq<word>): (runs: seq<Run>)
    ensures |px| < LIMIT ==> Sendable(runs)
  {
    Code(c, px, 0, 0)
  }

  /** The coder is undone by the decoder, whatever comes after: the pixels come back, and both ends remember the same
      colours. */
  lemma CodeDecodes(c: Memory, px: seq<word>, rest: seq<byte>)
    requires |px| < LIMIT
    ensures Decode(c, Bytes(Coded(c, px)) + rest, |px|) == Some(Decoded(px, After(c, Coded(c, px)), rest))
  {
    CodePixels(c, px, 0, 0);
    TotalPixels(c, Coded(c, px));
    RunsRead(Coded(c, px), rest);
  }

  // ---- How much the runs take ----

  lemma {:induction false} JoinedBytes(a: seq<Run>, b: seq<Run>)
    requires Sendable(a) && Sendable(b)
    ensures Sendable(a + b) && Bytes(a + b) == Bytes(a) + Bytes(b)
  {
    if a == [] {
      assert a + b == b;
    } else {
      assert (a + b)[1..] == a[1..] + b;
      JoinedBytes(a[1..], b);
    }
  }

  /** A pixel takes at most three bytes. */
  lemma {:induction false} RunsFit(runs: seq<Run>)
    requires Sendable(runs)
    ensures |Bytes(runs)| <= 3 * Total(runs)
  {
    if runs != [] {
      RunsFit(runs[1..]);
    }
  }

  lemma CodeFits(c: Memory, px: seq<word>)
    requires |px| < LIMIT
    ensures |Bytes(Coded(c, px))| <= 3 * |px|
  {
    CodePixels(c, px, 0, 0);
    TotalPixels(c, Coded(c, px));
    RunsFit(Coded(c, px));
  }

  /** The two remembered colours never become one. */
  lemma {:induction false} ColoursStayDistinct(c: Memory, px: seq<word>, i: nat, literal: nat)
    requires literal <= i <= |px| && c.first != c.second
    ensures var after := After(c, Code(c, px, i, literal)); after.first != after.second
    decreases |px| - i
  {
    if i == |px| {
      LiteralRunsPixels(c, px[i - literal..]);
    } else if JoinsLiteral(c, px, i, literal) {
      ColoursStayDistinct(c, px, i + 1, literal + 1);
    } else {
      var end := RunEnd(px, i, i + 1);
      var lit, run := px[i - literal..i], RunOf(c, px[i], end - i);
      ColoursStayDistinct(RunMemory(c, run), px, end, 0);
      RunsInARow(c, lit, run, Code(RunMemory(c, run), px, end, 0));
    }
  }

  /** n pixels of three colours in turn: v, then the second remembered colour, then the first. */
  function Cycle(c: Memory, v: word, n: nat): (px: seq<word>)
    ensures |px| == n
  {
    seq(n, i => if i % 3 == 0 then v else if i % 3 == 1 then c.second else c.first)
  }

  /** They take three bytes each: coding one as a new colour forgets the very colour the next one has. */
  lemma {:induction false} CycleTakesThree(c: Memory, v: word, n: nat)
    requires c.first != c.second && v != c.first && v != c.second && n < LIMIT
    ensures |Bytes(Coded(c, Cycle(c, v, n)))| == 3 * n
  {
    CycleFrom(c, Cycle(c, v, n), v, c, 0);
  }

  /** The colours remembered at pixel i of a cycle: the two before it. */
  function CycleMemory(c: Memory, v: word, i: nat): Memory {
    if i % 3 == 0 then c else if i % 3 == 1 then Memory(v, c.first) else Memory(c.second, v)
  }

  lemma CycleAt(c0: Memory, v: word, n: nat, i: nat)
    requires c0.first != c0.second && v != c0.first && v != c0.second && i < n
    ensures var px, c := Cycle(c0, v, n), CycleMemory(c0, v, i);
      && px[i] != c.first && px[i] != c.second
      && (i + 1 < n ==> px[i + 1] == c.second)
      && CycleMemory(c0, v, i + 1) == Memory(px[i], c.first)
  {
  }

  lemma {:induction false} CycleFrom(c0: Memory, px: seq<word>, v: word, c: Memory, i: nat)
    requires c0.first != c0.second && v != c0.first && v != c0.second && i <= |px| < LIMIT
    requires px == Cycle(c0, v, |px|) && c == CycleMemory(c0, v, i)
    ensures |Bytes(Code(c, px, i, 0))| == 3 * (|px| - i)
    decreases |px| - i
  {
    if i < |px| {
      CycleAt(c0, v, |px|, i);
      var run := Colour(px[i], 1);
      assert LiteralRuns(px[i - 0..i]) == [];
      assert Code(c, px, i, 0) == [run] + Code(RunMemory(c, run), px, i + 1, 0);
      CycleFrom(c0, px, v, RunMemory(c, run), i + 1);
    }
  }

  /** After whole turns of the three colours the remembered ones are as they were. */
  lemma CycleComesRound(c: Memory, v: word, n: nat)
    requires c.first != c.second && v != c.first && v != c.second && n % 3 == 0
    ensures After(c, Coded(c, Cycle(c, v, n))) == c
  {
    CycleRemembers(c, Cycle(c, v, n), v, c, 0);
  }

  lemma {:induction false} CycleRemembers(c0: Memory, px: seq<word>, v: word, c: Memory, i: nat)
    requires c0.first != c0.second && v != c0.first && v != c0.second && i <= |px|
    requires px == Cycle(c0, v, |px|) && c == CycleMemory(c0, v, i)
    ensures After(c, Code(c, px, i, 0)) == CycleMemory(c0, v, |px|)
    decreases |px| - i
  {
    if i < |px| {
      CycleAt(c0, v, |px|, i);
      var run := Colour(px[i], 1);
      assert LiteralRuns(px[i - 0..i]) == [];
      assert Code(c, px, i, 0) == [run] + Code(RunMemory(c, run), px, i + 1, 0);
      CycleRemembers(c0, px, v, RunMemory(c, run), i + 1);
    }
  }
}
