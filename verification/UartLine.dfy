/** Bytes as levels on the serial line, in any framing, and as a receiver that samples the middle of each bit finds
    them. */
module UartLine {
  import opened Words
  import opened Reals
  import opened SerialLink

  // ---- Frames ----

  datatype Framing = Framing(startBits: nat, dataBits: nat, stopBits: nat, lsbFirst: bool)

  predicate ValidFraming(f: Framing) {
    f.startBits > 0 && 5 <= f.dataBits <= 8 && f.stopBits > 0
  }

  /** A level held for some bits. */
  datatype Segment = Segment(level: bool, bits: nat)

  /** The low n bits of a byte, the lowest first. */
  function LowBits(b: nat, n: nat): (s: seq<bool>)
    ensures |s| == n
    decreases n
  {
    if n == 0 then [] else [b % 2 == 1] + LowBits(b / 2, n - 1)
  }

  function Reversed<T>(s: seq<T>): (r: seq<T>)
    ensures |r| == |s| && forall i :: 0 <= i < |s| ==> r[i] == s[|s| - 1 - i]
  {
    seq(|s|, i requires 0 <= i < |s| => s[|s| - 1 - i])
  }

  function DataBits(f: Framing, b: byte): (s: seq<bool>)
    ensures |s| == f.dataBits
  {
    if f.lsbFirst then LowBits(b, f.dataBits) else Reversed(LowBits(b, f.dataBits))
  }

  function Singles(levels: seq<bool>): (s: seq<Segment>)
    ensures |s| == |levels|
  {
    seq(|levels|, i requires 0 <= i < |levels| => Segment(levels[i], 1))
  }

  /** Low start bits, a high bit for each 1, and high stop bits. */
  function Frame(f: Framing, b: byte): seq<Segment> {
    [Segment(false, f.startBits)] + Singles(DataBits(f, b)) + [Segment(true, f.stopBits)]
  }

  function Frames(f: Framing, bytes: seq<byte>): seq<Segment> {
    if bytes == [] then [] else Frame(f, bytes[0]) + Frames(f, bytes[1..])
  }

  // ---- The line, a bit at a time ----

  function Held(s: Segment): (l: seq<bool>)
    ensures |l| == s.bits
  {
    seq(s.bits, _ => s.level)
  }

  function Line(segments: seq<Segment>): seq<bool> {
    if segments == [] then [] else Line(segments[..|segments| - 1]) + Held(segments[|segments| - 1])
  }

  lemma {:induction false} LineJoined(a: seq<Segment>, b: seq<Segment>)
    ensures Line(a + b) == Line(a) + Line(b)
  {
    if b == [] {
      assert a + b == a;
    } else {
      var k := |b| - 1;
      assert (a + b)[..|a + b| - 1] == a + b[..k];
      LineJoined(a, b[..k]);
    }
  }

  lemma {:induction false} SinglesLine(levels: seq<bool>)
    ensures Line(Singles(levels)) == levels
  {
    if levels != [] {
      var k := |levels| - 1;
      assert Singles(levels)[..k] == Singles(levels[..k]);
      SinglesLine(levels[..k]);
      assert levels == levels[..k] + [levels[k]];
    }
  }

  lemma OneLine(s: Segment)
    ensures Line([s]) == Held(s)
  {
    assert [s][..0] == [];
  }

  lemma FrameLine(f: Framing, b: byte)
    ensures Line(Frame(f, b)) == Held(Segment(false, f.startBits)) + DataBits(f, b) + Held(Segment(true, f.stopBits))
  {
    var start, data, stop := [Segment(false, f.startBits)], Singles(DataBits(f, b)), [Segment(true, f.stopBits)];
    LineJoined(start + data, stop);
    LineJoined(start, data);
    SinglesLine(DataBits(f, b));
    OneLine(start[0]);
    OneLine(stop[0]);
  }

  // ---- A receiver of the bits ----

  function Assembled(s: seq<bool>): nat
    decreases |s|
  {
    if s == [] then 0 else (if s[0] then 1 else 0) + 2 * Assembled(s[1..])
  }

  /** Frame by frame, the data bits as a number. */
  function Received(f: Framing, line: seq<bool>): seq<nat>
    requires ValidFraming(f)
    decreases |line|
  {
    var n := f.startBits + f.dataBits + f.stopBits;
    if |line| < n then []
    else
      var data := line[f.startBits..f.startBits + f.dataBits];
      [Assembled(if f.lsbFirst then data else Reversed(data))] + Received(f, line[n..])
  }

  lemma {:induction false} BitsAssembled(b: nat, n: nat)
    ensures b == Assembled(LowBits(b, n)) + RightBy(b, n) * Power2(n) && Assembled(LowBits(b, n)) < Power2(n)
    decreases n
  {
    if n > 0 {
      BitsAssembled(b / 2, n - 1);
      assert LowBits(b, n)[1..] == LowBits(b / 2, n - 1);
      assert 2 * (RightBy(b / 2, n - 1) * Power2(n - 1)) == RightBy(b, n) * Power2(n);
    }
  }

  lemma BitsAreByte(b: nat, n: nat)
    ensures Assembled(LowBits(b, n)) == b % Power2(n)
  {
    BitsAssembled(b, n);
    ModUnique(b, Power2(n), RightBy(b, n), Assembled(LowBits(b, n)));
  }

  lemma FrameParts(f: Framing, b: byte, rest: seq<bool>)
    requires ValidFraming(f)
    ensures var line, n := Line(Frame(f, b)) + rest, f.startBits + f.dataBits + f.stopBits;
      |line| == n + |rest| && line[n..] == rest && line[f.startBits..f.startBits + f.dataBits] == DataBits(f, b)
  {
    hide Line, DataBits;
    FrameLine(f, b);
  }

  lemma DataIsByte(f: Framing, b: byte)
    ensures var data := DataBits(f, b);
      Assembled(if f.lsbFirst then data else Reversed(data)) == b % Power2(f.dataBits)
  {
    hide Assembled, LowBits;
    BitsAreByte(b, f.dataBits);
    assert Reversed(Reversed(LowBits(b, f.dataBits))) == LowBits(b, f.dataBits);
  }

  /** A byte as far as a framing carries it: its low data bits. */
  function LowPart(f: Framing, b: byte): nat {
    b % Power2(f.dataBits)
  }

  function Carried(f: Framing, bytes: seq<byte>): (r: seq<nat>)
    ensures |r| == |bytes| && forall i :: 0 <= i < |bytes| ==> r[i] == LowPart(f, bytes[i])
  {
    seq(|bytes|, i requires 0 <= i < |bytes| => LowPart(f, bytes[i]))
  }

  lemma FrameReceived(f: Framing, b: byte, rest: seq<bool>)
    requires ValidFraming(f)
    ensures Received(f, Line(Frame(f, b)) + rest) == [LowPart(f, b)] + Received(f, rest)
  {
    hide Line, Frame, Assembled, DataBits;
    FrameParts(f, b, rest);
    DataIsByte(f, b);
  }

  /** What is framed is received, in any framing. */
  lemma {:induction false} FramesReceived(f: Framing, bytes: seq<byte>)
    requires ValidFraming(f)
    ensures Received(f, Line(Frames(f, bytes))) == Carried(f, bytes)
    decreases |bytes|
  {
    hide Line, Frame, Power2;
    if bytes != [] {
      LineJoined(Frame(f, bytes[0]), Frames(f, bytes[1..]));
      FrameReceived(f, bytes[0], Line(Frames(f, bytes[1..])));
      FramesReceived(f, bytes[1..]);
      assert Carried(f, bytes) == [LowPart(f, bytes[0])] + Carried(f, bytes[1..]);
    } else {
      NoLine();
    }
  }

  lemma NoLine()
    ensures Line([]) == []
  {
  }

  // ---- Segments as commands ----

  predicate FitsWire(segments: seq<Segment>, bitNs: nat) {
    forall i :: 0 <= i < |segments| ==> segments[i].bits * bitNs < WIDTH64
  }

  function CommandFor(s: Segment, bitNs: nat): Command
    requires s.bits * bitNs < WIDTH64
  {
    var ns: u64 := s.bits * bitNs;
    if s.level then High(ns) else Low(ns)
  }

  function CommandsFor(segments: seq<Segment>, bitNs: nat): (cs: seq<Command>)
    requires FitsWire(segments, bitNs)
    ensures |cs| == |segments|
  {
    seq(|segments|, i requires 0 <= i < |segments| => CommandFor(segments[i], bitNs))
  }

  lemma {:induction false} TimeOfBits(segments: seq<Segment>, bitNs: nat)
    requires FitsWire(segments, bitNs)
    ensures TotalNs(CommandsFor(segments, bitNs)) == |Line(segments)| * bitNs
  {
    if segments != [] {
      var k := |segments| - 1;
      TimeOfBits(segments[..k], bitNs);
      assert CommandsFor(segments, bitNs)[..k] == CommandsFor(segments[..k], bitNs);
      assert (|Line(segments[..k])| + segments[k].bits) * bitNs == |Line(segments[..k])| * bitNs + segments[k].bits * bitNs;
    }
  }

  // ---- Sampling ----

  /** The level the line has for the whole of a tick of the run: that of the last world before the oscillator moves on
      from it. */
  function LineAt(w: World, rate: real, actions: seq<Action>, t: int): Option<bool> {
    if actions == [] || Run(w, rate, actions).now <= t then Run(w, rate, actions).v.link.level
    else LineAt(w, rate, actions[..|actions| - 1], t)
  }

  /** The middle of bit m. */
  function Centre(start: nat, rate: real, bitNs: nat, m: nat): int {
    start + ((m as real + 0.5) * (bitNs as real * rate)).Floor
  }

  lemma Product(n: nat, bitNs: nat, rate: real)
    ensures (n * bitNs) as real * rate == n as real * (bitNs as real * rate)
  {
    assert (n * bitNs) as real == n as real * bitNs as real;
    Associated(n as real, bitNs as real, rate);
  }

  lemma Associated(a: real, b: real, c: real)
    ensures a * b * c == a * (b * c)
  {
  }

  /** With at least two ticks to a bit, the middle of bit m is not before the end of any n bits up to it, and before the
      end of any n past it. */
  lemma CentreBetween(b: Bracket, bitNs: nat, m: nat, n: nat)
    requires ValidBracket(b) && bitNs as real * b.rate >= 2.0
    ensures var edge := b.start + ((n * bitNs) as real * b.rate + b.residue).Floor;
      edge <= Centre(b.start, b.rate, bitNs, m) <==> n <= m
  {
    var r, mid := bitNs as real * b.rate, m as real + 0.5;
    Product(n, bitNs, b.rate);
    Distributed(mid, -(n as real), r);
    if n <= m {
      NonNegative(mid - n as real - 0.5, r);
      assert (mid - n as real) * r == (mid - n as real - 0.5) * r + 0.5 * r;
      assert mid * r >= n as real * r + 1.0;
    } else {
      NonNegative(n as real - mid - 0.5, r);
      assert (n as real - mid) * r == (n as real - mid - 0.5) * r + 0.5 * r;
      assert n as real * r >= mid * r + 1.0;
    }
  }

  /** The client's commands begin with the segments'. */
  ghost predicate Sends(b: Bracket, segments: seq<Segment>, bitNs: nat)
    requires FitsWire(segments, bitNs)
  {
    CommandsFor(segments, bitNs) <= b.cs
  }

  lemma LastDue(b: Bracket, bitNs: nat, before: seq<Segment>, m: nat)
    requires ValidBracket(b) && bitNs as real * b.rate >= 2.0 && FitsWire(before, bitNs) && Sends(b, before, bitNs)
    ensures Due(b, |before|) <= Centre(b.start, b.rate, bitNs, m) <==> |Line(before)| <= m
  {
    hide Line, Centre, CommandsFor;
    TimeOfBits(before, bitNs);
    assert b.cs[..|before|] == CommandsFor(before, bitNs);
    CentreBetween(b, bitNs, m, |Line(before)|);
  }

  lemma {:induction false} SegmentOfBit(segments: seq<Segment>, k: nat, m: nat)
    requires 0 < k <= |segments| && |Line(segments[..k - 1])| <= m < |Line(segments[..k])|
    ensures m < |Line(segments)| && Line(segments)[m] == segments[k - 1].level
    decreases |segments|
  {
    var n := |segments|;
    if k == n {
      assert segments[..n] == segments;
    } else {
      assert segments[..n - 1][..k] == segments[..k] && segments[..n - 1][..k - 1] == segments[..k - 1];
      SegmentOfBit(segments[..n - 1], k, m);
    }
  }

  lemma {:induction false} FirstLevel(before: Option<bool>, log: seq<Entry>)
    requires log != [] && (log[|log| - 1].command.Low? || log[|log| - 1].command.High?)
    ensures LevelOf(before, log) == Some(log[|log| - 1].command.High?)
  {
  }

  /** The commands that took effect by the middle of bit m are those of the segments up to the bit's own. */
  lemma CommandsByCentre(b: Bracket, bitNs: nat, segments: seq<Segment>, m: nat, k: nat)
    requires ValidBracket(b) && bitNs as real * b.rate >= 2.0 && FitsWire(segments, bitNs) && Sends(b, segments, bitNs)
    requires m < |Line(segments)| && k <= |b.cs|
    requires Due(b, k) > Centre(b.start, b.rate, bitNs, m) && (k == 0 || Due(b, k - 1) <= Centre(b.start, b.rate, bitNs, m))
    ensures 0 < k <= |segments| && |Line(segments[..k - 1])| <= m < |Line(segments[..k])|
  {
    hide Line, Centre, Due, CommandsFor, FitsWire;
    BeforeSegments(b, segments, bitNs, 0);
    LastDue(b, bitNs, segments[..0], m);
    NoLine();
    assert segments[..0] == [];
    if k > |segments| {
      BeforeSegments(b, segments, bitNs, |segments|);
      LastDue(b, bitNs, segments[..|segments|], m);
      assert segments[..|segments|] == segments;
      DueGrows(b, |segments|, k - 1);
    } else if k > 0 {
      BeforeSegments(b, segments, bitNs, k);
      BeforeSegments(b, segments, bitNs, k - 1);
      LastDue(b, bitNs, segments[..k], m);
      LastDue(b, bitNs, segments[..k - 1], m);
    }
  }

  lemma BeforeSegments(b: Bracket, segments: seq<Segment>, bitNs: nat, k: nat)
    requires FitsWire(segments, bitNs) && Sends(b, segments, bitNs) && k <= |segments|
    ensures FitsWire(segments[..k], bitNs) && Sends(b, segments[..k], bitNs)
  {
    assert CommandsFor(segments[..k], bitNs) == CommandsFor(segments, bitNs)[..k];
  }

  lemma SegmentCommand(b: Bracket, segments: seq<Segment>, bitNs: nat, k: nat)
    requires FitsWire(segments, bitNs) && Sends(b, segments, bitNs) && k < |segments|
    ensures k < |b.cs| && (if segments[k].level then b.cs[k].High? else b.cs[k].Low?)
  {
    assert b.cs[k] == CommandsFor(segments, bitNs)[k];
  }

  /** As the oscillator moves on from the middle of a bit, the line is at the bit's level. */
  lemma LevelAtCentre(b: Bracket, w: World, actions: seq<Action>, bytes: seq<byte>, bitNs: nat, segments: seq<Segment>, m: nat)
    requires Begun(b, w) && NeverTorn(b, w, actions + [Advance(bytes)])
    requires bitNs as real * b.rate >= 2.0 && FitsWire(segments, bitNs) && Sends(b, segments, bitNs) && m < |Line(segments)|
    requires var r := Run(w, b.rate, actions);
      && r.arrived <= EncodedAll(b.cs) && (|r.v.log| <= |b.cs| ==> Open(b, |r.v.log|))
      && r.now == Centre(b.start, b.rate, bitNs, m) && Stepped(r, b.rate, Advance(bytes)).now > r.now
    ensures Run(w, b.rate, actions).v.link.level == Some(Line(segments)[m])
  {
    hide Line, Centre, Run, Due, NeverTorn, EncodedAll, Frames, FitsWire, Stepped, Torn, Open, LevelOf, CommandsFor;
    var r := Run(w, b.rate, actions);
    FewerNeverTorn(b, w, actions, Advance(bytes));
    TickPassesDue(b, w, actions, bytes);
    TickMoves(r, b.rate, bytes);
    NothingDrifts(b, w, actions);
    LogIsPast(w, b.rate, actions);
    var k := |r.v.log|;
    if k > 0 {
      assert r.v.log[k - 1].at == Due(b, k - 1);
    }
    CommandsByCentre(b, bitNs, segments, m, k);
    SegmentCommand(b, segments, bitNs, k - 1);
    RunDrives(w, b.rate, actions);
    FirstLevel(w.v.link.level, r.v.log);
    SegmentOfBit(segments, k, m);
  }

  lemma TickMoves(r: World, rate: real, bytes: seq<byte>)
    ensures Stepped(r, rate, Advance(bytes)).now <= r.now + 1
  {
  }

  lemma FewerNeverTorn(b: Bracket, w: World, actions: seq<Action>, a: Action)
    requires NeverTorn(b, w, actions + [a])
    ensures NeverTorn(b, w, actions) && (a.Advance? ==> !Torn(b, Run(w, b.rate, actions)))
  {
    hide Torn, Run;
    var more := actions + [a];
    assert more[..|actions|] == actions && more[|actions|] == a;
    forall i | 0 <= i < |actions| && actions[i].Advance? ensures !Torn(b, Run(w, b.rate, actions[..i])) {
      assert more[..i] == actions[..i] && more[i] == actions[i];
    }
  }

  /** Sampled in the middle of its bit, once the run is past it, the line is what the segments say. */
  lemma {:induction false} Sampled(b: Bracket, w: World, actions: seq<Action>, bitNs: nat, segments: seq<Segment>, m: nat)
    requires Begun(b, w) && NeverTorn(b, w, actions)
    requires bitNs as real * b.rate >= 2.0 && FitsWire(segments, bitNs) && Sends(b, segments, bitNs) && m < |Line(segments)|
    requires var r := Run(w, b.rate, actions);
      && r.arrived <= EncodedAll(b.cs) && |r.v.log| <= |b.cs| && Open(b, |r.v.log|)
      && Centre(b.start, b.rate, bitNs, m) < r.now
    ensures LineAt(w, b.rate, actions, Centre(b.start, b.rate, bitNs, m)) == Some(Line(segments)[m])
    decreases |actions|
  {
    hide Line, Centre, NeverTorn, EncodedAll, Frames, FitsWire, Stepped, Torn, LevelOf, Polled, Taken;
    var t, n := Centre(b.start, b.rate, bitNs, m), |actions| - 1;
    CentreAfterStart(b, bitNs, m);
    if n >= 0 {
      var a, before := actions[n], Run(w, b.rate, actions[..n]);
      assert actions == actions[..n] + [a];
      FewerNeverTorn(b, w, actions[..n], a);
      MoreArrives(w, b.rate, actions);
      LogGrows(w, b.rate, actions);
      StepMoves(before, b.rate, a);
      if before.now <= t {
        LevelAtCentre(b, w, actions[..n], a.bytes, bitNs, segments, m);
      } else {
        Sampled(b, w, actions[..n], bitNs, segments, m);
      }
    }
  }

  lemma StepMoves(w: World, rate: real, a: Action)
    ensures w.now <= Stepped(w, rate, a).now <= w.now + 1 && (Stepped(w, rate, a).now > w.now ==> a.Advance?)
  {
  }

  lemma CentreAfterStart(b: Bracket, bitNs: nat, m: nat)
    requires ValidBracket(b)
    ensures b.start <= Centre(b.start, b.rate, bitNs, m)
  {
    NonNegative(bitNs as real, b.rate);
    NonNegative(m as real + 0.5, bitNs as real * b.rate);
  }

  /** The levels a receiver finds in the middle of n bits. */
  function Samples(w: World, actions: seq<Action>, b: Bracket, bitNs: nat, n: nat): (s: seq<Option<bool>>)
    ensures |s| == n
  {
    seq(n, m requires 0 <= m < n => LineAt(w, b.rate, actions, Centre(b.start, b.rate, bitNs, m)))
  }

  function Known(line: seq<bool>): seq<Option<bool>> {
    seq(|line|, i requires 0 <= i < |line| => Some(line[i]))
  }

  /** Bytes sent over the link in a bracket, in any framing and however the queue cuts them up, are the ones a receiver
      finds, if no part of a command ever lets the oscillator pass its due tick: in the middle of every bit the line is at
      the bit's level, and the frames of those bits are the bytes. */
  lemma BytesRecovered(b: Bracket, w: World, actions: seq<Action>, f: Framing, bytes: seq<byte>, bitNs: nat)
    requires Begun(b, w) && NeverTorn(b, w, actions) && ValidFraming(f)
    requires bitNs as real * b.rate >= 2.0 && FitsWire(Frames(f, bytes), bitNs) && Sends(b, Frames(f, bytes), bitNs)
    requires var r, n := Run(w, b.rate, actions), |Line(Frames(f, bytes))|;
      && r.arrived <= EncodedAll(b.cs) && |r.v.log| <= |b.cs| && Open(b, |r.v.log|)
      && forall m :: 0 <= m < n ==> Centre(b.start, b.rate, bitNs, m) < r.now
    ensures var line := Line(Frames(f, bytes));
      && Samples(w, actions, b, bitNs, |line|) == Known(line)
      && Received(f, line) == Carried(f, bytes)
  {
    hide Line, Centre, Run, LineAt, Received, Begun, NeverTorn, EncodedAll, Frames, FitsWire, Open;
    var line := Line(Frames(f, bytes));
    FramesReceived(f, bytes);
    forall m | 0 <= m < |line|
      ensures LineAt(w, b.rate, actions, Centre(b.start, b.rate, bitNs, m)) == Some(line[m])
    {
      Sampled(b, w, actions, bitNs, Frames(f, bytes), m);
    }
  }

  // ---- The sender as it runs ----

  lemma {:induction false} BitAt(b: nat, n: nat, i: nat)
    requires i < n
    ensures LowBits(b, n)[i] == (RightBy(b, i) % 2 == 1)
    decreases n
  {
    if i > 0 {
      BitAt(b / 2, n - 1, i - 1);
    }
  }

  class Sender {
    var tx: seq<byte>
    var sent: seq<byte>   // what the socket has taken

    constructor ()
      ensures tx == [] && sent == []
    {
      tx, sent := [], [];
    }

    method Flush()
      modifies this
      ensures sent == old(sent + tx) && tx == []
    {
      sent := sent + tx;
      tx := [];
    }

    method Queue(c: Command)
      modifies this
      ensures sent + tx == old(sent + tx) + Encoded(c) && |tx| < 16384
    {
      ghost var was := sent + tx;
      tx := tx + Encoded(c);
      assert sent + tx == was + Encoded(c);
      if |tx| >= 16384 {
        Flush();
      }
    }

    method Cb2(level: bool, bits: nat, bitNs: nat)
      requires bits * bitNs < WIDTH64
      modifies this
      ensures sent + tx == old(sent + tx) + Encoded(CommandFor(Segment(level, bits), bitNs))
    {
      if level {
        Queue(High(bits * bitNs));
      } else {
        Queue(Low(bits * bitNs));
      }
    }

    method SendSegment(level: bool, bits: nat, bitNs: nat, ghost was: seq<byte>, ghost segments: seq<Segment>, ghost k: nat)
      requires FitsWire(segments, bitNs) && k < |segments| && segments[k] == Segment(level, bits)
      requires sent + tx == was + EncodedAll(CommandsFor(segments, bitNs)[..k])
      modifies this
      ensures sent + tx == was + EncodedAll(CommandsFor(segments, bitNs)[..k + 1])
    {
      hide EncodedAll, Encoded, CommandFor;
      Wire(segments, bitNs, k);
      Cb2(level, bits, bitNs);
      ThenMore(was, EncodedAll(CommandsFor(segments, bitNs)[..k]), Encoded(CommandFor(segments[k], bitNs)));
    }

    /** A byte's frame on the wire. */
    method SendUartByte(b: byte, f: Framing, bitNs: nat)
      requires ValidFraming(f) && FitsWire(Frame(f, b), bitNs)
      modifies this
      ensures sent + tx == old(sent + tx) + EncodedAll(CommandsFor(Frame(f, b), bitNs))
    {
      hide EncodedAll, LowBits, FitsWire, Frame;
      ghost var was, frame := sent + tx, Frame(f, b);
      FrameEnds(f, b);
      NothingSent(was);
      SendSegment(false, f.startBits, bitNs, was, frame, 0);
      for i := 0 to f.dataBits
        invariant sent + tx == was + EncodedAll(CommandsFor(frame, bitNs)[..i + 1])
      {
        var n := if f.lsbFirst then i else f.dataBits - 1 - i;
        BitAt(b, f.dataBits, n);
        FrameData(f, b, i);
        SendSegment(RightBy(b, n) % 2 == 1, 1, bitNs, was, frame, i + 1);
      }
      SendSegment(true, f.stopBits, bitNs, was, frame, |frame| - 1);
      assert CommandsFor(frame, bitNs)[..|frame|] == CommandsFor(frame, bitNs);
    }
  }

  lemma FrameEnds(f: Framing, b: byte)
    requires ValidFraming(f)
    ensures var frame := Frame(f, b);
      && |frame| == f.dataBits + 2
      && frame[0] == Segment(false, f.startBits) && frame[f.dataBits + 1] == Segment(true, f.stopBits)
  {
  }

  lemma FrameData(f: Framing, b: byte, i: nat)
    requires ValidFraming(f) && i < f.dataBits
    ensures |Frame(f, b)| == f.dataBits + 2
    ensures Frame(f, b)[i + 1] == Segment(LowBits(b, f.dataBits)[if f.lsbFirst then i else f.dataBits - 1 - i], 1)
  {
    hide LowBits;
  }

  lemma ThenMore(a: seq<byte>, b: seq<byte>, c: seq<byte>)
    ensures a + b + c == a + (b + c)
  {
  }

  lemma NothingSent(was: seq<byte>)
    ensures was + EncodedAll([]) == was
  {
  }

  lemma Wire(segments: seq<Segment>, bitNs: nat, k: nat)
    requires FitsWire(segments, bitNs) && k < |segments|
    ensures var cs := CommandsFor(segments, bitNs);
      EncodedAll(cs[..k + 1]) == EncodedAll(cs[..k]) + Encoded(CommandFor(segments[k], bitNs))
  {
    var cs := CommandsFor(segments, bitNs);
    assert cs[..k + 1] == cs[..k] + [cs[k]];
    EncodedJoined(cs[..k], [cs[k]]);
    assert EncodedAll([cs[k]]) == Encoded(cs[k]) + EncodedAll([cs[k]][1..]);
  }
}
