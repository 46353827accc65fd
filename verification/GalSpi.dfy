/** The SPI interface: a burst of eight clock pulses for each strobe, sending a byte and taking one in. */
module GalSpi {
  import opened Words

  type bit = x: int | 0 <= x <= 1

  /** The registers, the shift register, and the number of bursts started. */
  datatype Spi = Spi(burst: bool, output: bool, count: nat, miso: bit, shift: byte, bytes: nat)

  /** A cycle's inputs: the strobe, the byte on the port, and the device's answer should there be a pulse. */
  datatype Cycle = Cycle(strobe: bool, port: byte, answer: bit)

  const CLEAR := Spi(false, false, 0, 0, 0, 0)

  predicate ValidSpi(s: Spi) {
    s.count < 8 && (!s.burst ==> s.count == 0) && !(s.burst && s.output)
  }

  function Ticked(s: Spi, c: Cycle): Spi {
    var burst := (c.strobe && !s.output && s.count == 0) || (s.burst && s.count != 7);
    Spi(burst, c.strobe && (s.output || (s.burst && s.count == 7)),
        if s.burst then (s.count + 1) % 8 else 0,
        if burst then c.answer else s.miso,
        if s.output then s.shift else if s.burst then (2 * s.shift + s.miso) % 0x100 else c.port,
        if burst && !s.burst then s.bytes + 1 else s.bytes)
  }

  /** What it drives onto the port. */
  function Driven(s: Spi): Option<byte> {
    if s.output then Some(s.shift) else None
  }

  // ---- What went out and came in ----

  /** The low n bits of a number, the most significant first. */
  function LowBits(v: nat, n: nat): (b: seq<bit>)
    ensures |b| == n
  {
    if n == 0 then [] else LowBits(v / 2, n - 1) + [v % 2]
  }

  /** The bits of a byte. */
  function Bits(v: byte): (b: seq<bit>)
    ensures |b| == 8
  {
    LowBits(v, 8)
  }

  /** A burst's byte as it was loaded, and the bits sent and answered at its pulses so far. */
  datatype Burst = Burst(loaded: byte, sent: seq<bit>, got: seq<bit>)

  datatype Log = Log(spi: Spi, bursts: seq<Burst>, pulses: nat)

  /** A pulse sends the shift register's top bit: a new burst's first, or the next of the one under way. */
  function Logged(l: Log, c: Cycle): Log {
    var s := Ticked(l.spi, c);
    var mosi := s.shift / 128;
    if !s.burst then l.(spi := s)
    else if !l.spi.burst || l.bursts == [] then Log(s, l.bursts + [Burst(c.port, [mosi], [c.answer])], l.pulses + 1)
    else
      var last := l.bursts[|l.bursts| - 1];
      Log(s, l.bursts[..|l.bursts| - 1] + [last.(sent := last.sent + [mosi], got := last.got + [c.answer])], l.pulses + 1)
  }

  function Run(cycles: seq<Cycle>): Log {
    if cycles == [] then Log(CLEAR, [], 0) else Logged(Run(cycles[..|cycles| - 1]), cycles[|cycles| - 1])
  }

  predicate Finished(b: Burst) {
    b.sent == Bits(b.loaded) && |b.got| == 8
  }

  /** The burst under way has sent the byte's bits so far; the shift register holds the rest, and the answers but the
      last, which waits. */
  predicate UnderWay(s: Spi, b: Burst) {
    && s.count < 8 && |b.got| == s.count + 1 && b.sent == Bits(b.loaded)[..s.count + 1]
    && Bits(s.shift) == Bits(b.loaded)[s.count..] + b.got[..s.count] && s.miso == b.got[s.count]
  }

  predicate AllFinished(bursts: seq<Burst>) {
    forall i :: 0 <= i < |bursts| ==> Finished(bursts[i])
  }

  /** All bursts are finished but the one under way, and there have been eight pulses for each and those of that one. */
  predicate Right(l: Log) {
    var s, n := l.spi, |l.bursts|;
    && ValidSpi(s) && s.bytes == n
    && (if s.burst then n > 0 && AllFinished(l.bursts[..n - 1]) && UnderWay(s, l.bursts[n - 1]) else AllFinished(l.bursts))
    && l.pulses == (if s.burst then 8 * (n - 1) + s.count + 1 else 8 * n)
    && (s.output ==> n > 0 && Bits(s.shift) == l.bursts[n - 1].got)
  }

  lemma {:induction false} HighBitsOut(v: nat, k: nat, n: nat)
    ensures LowBits(v + k * Power2(n), n) == LowBits(v, n)
  {
    if n > 0 {
      var p := k * Power2(n - 1);
      assert k * Power2(n) == 2 * p;
      assert (v + 2 * p) / 2 == v / 2 + p && (v + 2 * p) % 2 == v % 2;
      HighBitsOut(v / 2, k, n - 1);
    }
  }

  lemma {:induction false} FewerBits(v: nat, n: nat)
    ensures LowBits(v, n + 1)[1..] == LowBits(v, n)
  {
    if n > 0 {
      FewerBits(v / 2, n - 1);
    }
  }

  lemma {:induction false} TopBit(v: nat, n: nat)
    requires v < 2 * Power2(n)
    ensures LowBits(v, n + 1)[0] == if v >= Power2(n) then 1 else 0
  {
    if n > 0 {
      TopBit(v / 2, n - 1);
    }
  }

  lemma Powers()
    ensures Power2(7) == 128 && Power2(8) == 256
  {
  }

  lemma ShiftedBits(v: byte, b: bit)
    ensures Bits((2 * v + b) % 0x100) == Bits(v)[1..] + [b]
  {
    var w: nat := 2 * v + b;
    Powers();
    HighBitsOut(w % 0x100, w / 0x100, 8);
    assert LowBits(w, 8) == LowBits(v, 7) + [b];
    FewerBits(v, 7);
  }

  /** What goes to MOSI is the first of the bits. */
  lemma TopIsFirst(v: byte)
    ensures v / 128 == Bits(v)[0]
  {
    Powers();
    TopBit(v, 7);
  }

  lemma Starts(l: Log, c: Cycle)
    requires Right(l) && !l.spi.burst && Ticked(l.spi, c).burst
    ensures Right(Logged(l, c))
  {
    hide Bits;
    var r, n := Logged(l, c), |l.bursts|;
    TopIsFirst(c.port);
    assert r.bursts[..n] == l.bursts;
    assert Bits(c.port)[..1] == [Bits(c.port)[0]] && Bits(c.port)[0..] + [] == Bits(c.port);
  }

  lemma GoesOn(l: Log, c: Cycle)
    requires Right(l) && l.spi.burst && l.spi.count < 7
    ensures Right(Logged(l, c))
  {
    hide Bits;
    var s, r, n := l.spi, Logged(l, c), |l.bursts|;
    TopIsFirst(r.spi.shift);
    var b, v := l.bursts[n - 1], l.bursts[n - 1].loaded;
    ShiftedBits(s.shift, s.miso);
    var k := s.count + 1;
    assert r.bursts[..n - 1] == l.bursts[..n - 1];
    assert Bits(v)[s.count..][1..] == Bits(v)[k..] && b.got[..s.count] + [b.got[s.count]] == b.got[..k];
    assert (Bits(v)[s.count..] + b.got[..s.count])[1..] == Bits(v)[k..] + b.got[..s.count];
    assert Bits(r.spi.shift) == Bits(v)[k..] + (b.got[..s.count] + [b.got[s.count]]);
    assert Bits(r.spi.shift)[0] == Bits(v)[k];
    assert Bits(v)[..k + 1] == Bits(v)[..k] + [Bits(v)[k]];
    assert (b.got + [c.answer])[..k] == b.got;
  }

  lemma Ends(l: Log, c: Cycle)
    requires Right(l) && l.spi.burst && l.spi.count == 7
    ensures Right(Logged(l, c)) && Bits(Logged(l, c).spi.shift) == l.bursts[|l.bursts| - 1].got
  {
    hide Bits;
    var s, n := l.spi, |l.bursts|;
    var b := l.bursts[n - 1];
    ShiftedBits(s.shift, s.miso);
    assert Bits(b.loaded)[7..][1..] == [] && b.got[..7] + [b.got[7]] == b.got;
    assert (Bits(b.loaded)[7..] + b.got[..7])[1..] == b.got[..7];
    assert Bits(b.loaded)[..8] == Bits(b.loaded);
    assert l.bursts == l.bursts[..n - 1] + [b];
  }

  /** A burst ends between two cycles, and its answers are in the shift register. */
  predicate EndsRight(l: Log, r: Log) {
    l.spi.burst && !r.spi.burst ==>
      r.bursts != [] && Finished(r.bursts[|r.bursts| - 1]) && Bits(r.spi.shift) == r.bursts[|r.bursts| - 1].got
  }

  lemma LoggedKeepsRight(l: Log, c: Cycle)
    requires Right(l)
    ensures Right(Logged(l, c)) && EndsRight(l, Logged(l, c))
  {
    hide Bits;
    if l.spi.burst {
      if l.spi.count < 7 {
        GoesOn(l, c);
      } else {
        Ends(l, c);
      }
    } else if Ticked(l.spi, c).burst {
      Starts(l, c);
    }
  }

  /** In any run, every burst but one under way has sent its byte, the most significant bit first, in eight pulses, and
      there are no other pulses; in the cycle a burst ends its eight answers are in the shift register, in order. */
  lemma {:induction false} RunIsRight(cycles: seq<Cycle>)
    ensures Right(Run(cycles))
    ensures cycles != [] ==> EndsRight(Run(cycles[..|cycles| - 1]), Run(cycles))
  {
    hide Bits;
    if cycles != [] {
      RunIsRight(cycles[..|cycles| - 1]);
      LoggedKeepsRight(Run(cycles[..|cycles| - 1]), cycles[|cycles| - 1]);
    }
  }

  /** What it drives onto the port, whenever it does, is the eight answers of the last burst, the first one on top. */
  lemma DrivesAnswers(cycles: seq<Cycle>)
    ensures var r := Run(cycles);
      Driven(r.spi).Some? ==>
        r.bursts != [] && Finished(r.bursts[|r.bursts| - 1]) && Bits(Driven(r.spi).value) == r.bursts[|r.bursts| - 1].got
  {
    hide Bits, Run;
    RunIsRight(cycles);
  }

  predicate Held(cycles: seq<Cycle>) {
    forall i :: 0 <= i < |cycles| ==> cycles[i].strobe
  }

  function Answers(cycles: seq<Cycle>, n: nat): (a: seq<bit>)
    requires n <= |cycles|
    ensures |a| == n
  {
    seq(n, i requires 0 <= i < n => cycles[i].answer)
  }

  /** After k cycles of a strobe that came when it was idle: a burst under way, or ended and its answers out. */
  predicate Exchanging(l: Log, held: seq<Cycle>, r: Log) {
    var k, n := |held|, |l.bursts|;
    && k > 0 && |r.bursts| == n + 1 && r.bursts[..n] == l.bursts
    && r.bursts[n].loaded == held[0].port && r.bursts[n].got == Answers(held, if k < 8 then k else 8)
    && if k <= 8 then r.spi.burst && !r.spi.output && r.spi.count == k - 1 else !r.spi.burst && r.spi.output
  }

  lemma ExchangeGoesOn(l: Log, held: seq<Cycle>, r: Log, c: Cycle)
    requires Exchanging(l, held, r) && ValidSpi(r.spi) && c.strobe
    ensures Exchanging(l, held + [c], Logged(r, c))
  {
    var n, more, s := |l.bursts|, held + [c], Logged(r, c);
    if |held| < 8 {
      assert Answers(more, |held| + 1) == Answers(held, |held|) + [c.answer];
      assert s.bursts[..n] == r.bursts[..n];
    } else {
      assert Answers(more, 8) == Answers(held, 8);
    }
  }

  lemma ExchangeBegins(l: Log, c: Cycle)
    requires ValidSpi(l.spi) && !l.spi.burst && !l.spi.output && c.strobe
    ensures Exchanging(l, [c], Logged(l, c))
  {
    assert Answers([c], 1) == [c.answer];
  }

  lemma {:induction false} ExchangeRuns(cycles: seq<Cycle>, held: seq<Cycle>)
    requires var s := Run(cycles).spi; !s.burst && !s.output
    requires Held(held) && held != []
    ensures Exchanging(Run(cycles), held, Run(cycles + held))
    decreases |held|
  {
    hide Exchanging, Logged;
    var n, all := |held| - 1, cycles + held;
    RunIsRight(cycles);
    assert all[..|all| - 1] == cycles + held[..n] && held == held[..n] + [held[n]];
    if n == 0 {
      assert cycles + held[..0] == cycles && [] + [held[0]] == held;
      ExchangeBegins(Run(cycles), held[0]);
    } else {
      ExchangeRuns(cycles, held[..n]);
      RunIsRight(cycles + held[..n]);
      ExchangeGoesOn(Run(cycles), held[..n], Run(cycles + held[..n]), held[n]);
    }
  }

  /** A strobe that comes when it is idle and is held sends the byte on the port, and from the ninth cycle on what it drives
      is the device's eight answers, for as long as the strobe is held. */
  lemma StrobeExchanges(cycles: seq<Cycle>, held: seq<Cycle>)
    requires var s := Run(cycles).spi; !s.burst && !s.output
    requires Held(held) && |held| >= 9
    ensures var before, r := Run(cycles).bursts, Run(cycles + held);
      && r.bursts == before + [Burst(held[0].port, Bits(held[0].port), Answers(held, 8))]
      && Driven(r.spi).Some? && Bits(Driven(r.spi).value) == Answers(held, 8)
  {
    hide Bits, Run;
    ExchangeRuns(cycles, held);
    RunIsRight(cycles + held);
    DrivesAnswers(cycles + held);
  }

  /** Without the strobe it is idle, once no burst is under way. */
  lemma ReleasesPort(s: Spi, c: Cycle)
    requires ValidSpi(s) && !s.burst && !c.strobe
    ensures var r := Ticked(s, c); !r.burst && !r.output && Driven(r) == None
  {
  }

  /** A strobe during a burst starts nothing: the burst goes on as without it. */
  lemma StrobeInBurst(s: Spi, c: Cycle, d: Cycle)
    requires ValidSpi(s) && s.burst && s.count < 7 && c.answer == d.answer
    ensures Ticked(s, c) == Ticked(s, d) && Ticked(s, c).burst && Ticked(s, c).bytes == s.bytes
  {
  }

  /** A burst's pulses come one a cycle. */
  lemma BurstRuns(s: Spi, c: Cycle)
    requires ValidSpi(s) && s.burst
    ensures Ticked(s, c).burst <==> s.count < 7
    ensures Ticked(s, c).burst ==> Ticked(s, c).count == s.count + 1
  {
  }

  // ---- As it runs ----

  class Interface {
    var brst: bool
    var output: bool
    var count: nat
    var misor: bit
    var sr: byte
    var bytes: nat

    ghost function State(): Spi
      reads this
    {
      Spi(brst, output, count, misor, sr, bytes)
    }

    constructor ()
      ensures State() == CLEAR
    {
      brst, output, count, misor, sr, bytes := false, false, 0, 0, 0, 0;
    }

    /** A cycle; its pulse, if there is one, sends mosi. */
    method Tick(e: bool, port: byte, answer: bit) returns (pulse: bool, mosi: bit)
      modifies this
      ensures State() == Ticked(old(State()), Cycle(e, port, answer))
      ensures pulse == brst && (pulse ==> mosi == sr / 128)
    {
      var s0, s1 := !output, !output && !brst;
      var burst := (e && !output && count == 0) || (brst && count != 7);
      var out := e && (output || (brst && count == 7));
      if s0 && s1 {
        sr := port;
      } else if s0 {
        sr := (2 * sr + misor) % 0x100;
      }
      if burst && !brst {
        bytes := bytes + 1;
      }
      count := if brst then (count + 1) % 8 else 0;
      brst, output := burst, out;
      pulse, mosi := brst, 0;
      if brst {
        mosi := sr / 128;
        misor := answer;
      }
    }

    method Output() returns (driven: Option<byte>)
      ensures driven == Driven(State())
    {
      driven := if output then Some(sr) else None;
    }
  }
}
