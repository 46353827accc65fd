/** PB7's level over time as samples: the mean over each sample's period, through a high-pass filter. */
module AudioResampler {
  import opened AudioRing
  import opened Reals
  import Words

  const TICKS := 0x1_0000_0000_0000_0000

  datatype Setting = Setting(period: real, alpha: real)

  /** The oscillator's ticks in a sample, and the filter's coefficient rc / (rc + dt). */
  type Filter = f: Setting | f.period > 0.0 && 0.0 < f.alpha < 1.0 witness Setting(1.0, 0.5)

  /** The time and the high time not yet in a sample, and the filter's last input and output. */
  datatype Audio = Audio(last: nat, time: real, level: real, x: real, y: real)

  datatype Heard = Heard(a: Audio, averages: seq<real>, samples: seq<sample>)

  const SILENT := Heard(Audio(0, 0.0, 0.0, 0.0, 0.0), [], [])

  function Truncated(v: real): int {
    if v >= 0.0 then v.Floor else -(-v).Floor
  }

  function Saturated(v: real): sample {
    if v > 32767.0 then 32767 else if v < -32768.0 then -32768 else Truncated(v)
  }

  function Average(a: Audio): real {
    if a.time > 0.0 then a.level / a.time else 0.0
  }

  function HighPassed(f: Filter, a: Audio): real {
    f.alpha * (a.y + Average(a) - a.x)
  }

  /** A sample goes out; what is over of the time keeps the mean it went with. */
  function Emitted(f: Filter, h: Heard): Heard {
    var a := h.a;
    var left := a.time - f.period;
    Heard(Audio(a.last, left, Average(a) * left, Average(a), HighPassed(f, a)),
          h.averages + [Average(a)], h.samples + [Saturated(HighPassed(f, a) * 16384.0)])
  }

  lemma PeriodsLeft(time: real, period: real)
    requires period > 0.0
    ensures ((time - period) / period).Floor == (time / period).Floor - 1
  {
    var q := time / period;
    Divided(time, period);
    Distributed(q, -1.0, period);
    QuotientUnique(time - period, period, q - 1.0);
  }

  function Drained(f: Filter, h: Heard): Heard
    decreases if h.a.time < f.period then 0 else 1 + (h.a.time / f.period).Floor
  {
    if h.a.time < f.period then h
    else
      PeriodsLeft(h.a.time, f.period);
      assert h.a.time / f.period >= 1.0;
      Drained(f, Emitted(f, h))
  }

  /** The ticks since the last step, on a counter of 64 bits. */
  function Passed(a: Audio, ticks: nat): nat {
    (ticks - a.last) % TICKS
  }

  function Stepped(f: Filter, h: Heard, ticks: nat, high: bool): Heard {
    var dt := Passed(h.a, ticks);
    if dt == 0 then h
    else
      var more := dt as real;
      Drained(f, h.(a := h.a.(last := ticks, time := h.a.time + more, level := h.a.level + if high then more else 0.0)))
  }

  // ---- Over any steps ----

  function Sum(s: seq<real>): real {
    if s == [] then 0.0 else Sum(s[..|s| - 1]) + s[|s| - 1]
  }

  datatype Reading = Reading(ticks: nat, high: bool)

  /** What has been heard, and the time and the high time that have passed. */
  datatype Past = Past(h: Heard, total: real, high: real)

  function Run(f: Filter, readings: seq<Reading>): Past {
    if readings == [] then Past(SILENT, 0.0, 0.0)
    else
      var p, r := Run(f, readings[..|readings| - 1]), readings[|readings| - 1];
      var dt := Passed(p.h.a, r.ticks) as real;
      Past(Stepped(f, p.h, r.ticks, r.high), p.total + dt, p.high + if r.high then dt else 0.0)
  }

  /** The filter's output is below its input by at most 1. */
  predicate Steady(a: Audio) {
    0.0 <= a.level <= a.time && 0.0 <= a.x <= 1.0 && -1.0 <= a.y - a.x <= 0.0
  }

  predicate Small(s: seq<sample>) {
    forall i :: 0 <= i < |s| ==> -16384 <= s[i] <= 16384
  }

  /** Nothing is lost: the samples have taken their periods of the time, and their means of the high time. */
  predicate Accounted(f: Filter, p: Past) {
    && |p.h.samples| == |p.h.averages| && Small(p.h.samples)
    && p.h.a.time == p.total - |p.h.averages| as real * f.period
    && p.h.a.level == p.high - Sum(p.h.averages) * f.period
  }

  lemma AverageIsMean(a: Audio)
    requires Steady(a)
    ensures 0.0 <= Average(a) <= 1.0 && Average(a) * a.time == a.level
  {
    if a.time > 0.0 {
      Ratio(a.level, a.time);
    }
  }

  /** The high-pass output lies in [-1, 1], and no further above its input than it was. */
  lemma HighPassBounds(f: Filter, a: Audio)
    requires Steady(a)
    ensures -1.0 <= HighPassed(f, a) <= 1.0 && -1.0 <= HighPassed(f, a) - Average(a) <= 0.0
  {
    AverageIsMean(a);
    Filtered(f.alpha, a.y - a.x, Average(a));
    assert a.y + Average(a) - a.x == (a.y - a.x) + Average(a);
  }

  lemma Filtered(alpha: real, d: real, v: real)
    requires 0.0 < alpha < 1.0 && -1.0 <= d <= 0.0 && 0.0 <= v <= 1.0
    ensures -1.0 <= alpha * (d + v) <= 1.0 && -1.0 <= alpha * (d + v) - v <= 0.0
  {
    NonNegative(d + 1.0, alpha);
    NonNegative(-d, alpha);
    NonNegative(v, alpha);
    NonNegative(1.0 - v, alpha);
    NonNegative(v, 1.0 - alpha);
    NonNegative(1.0 - v, 1.0 - alpha);
  }

  lemma Loud(y: real)
    requires -1.0 <= y <= 1.0
    ensures -16384 <= Saturated(y * 16384.0) <= 16384 && Saturated(y * 16384.0) == Truncated(y * 16384.0)
  {
  }

  lemma SumMore(s: seq<real>, v: real)
    ensures Sum(s + [v]) == Sum(s) + v
  {
    assert (s + [v])[..|s|] == s;
  }

  lemma SmallMore(s: seq<sample>, v: sample)
    requires Small(s) && -16384 <= v <= 16384
    ensures Small(s + [v])
  {
  }

  lemma LeftIn(v: real, time: real, period: real)
    requires 0.0 <= v <= 1.0 && time >= period
    ensures 0.0 <= v * (time - period) <= time - period && v * (time - period) == v * time - v * period
  {
    NonNegative(v, time - period);
    NonNegative(1.0 - v, time - period);
  }

  lemma EmittedAccounted(f: Filter, p: Past)
    requires Steady(p.h.a) && Accounted(f, p) && p.h.a.time >= f.period
    ensures var q := p.(h := Emitted(f, p.h)); Steady(q.h.a) && Accounted(f, q)
  {
    hide HighPassed, Average, Sum, Small, Saturated;
    var v, q := Average(p.h.a), p.(h := Emitted(f, p.h));
    AverageIsMean(p.h.a);
    HighPassBounds(f, p.h.a);
    Loud(HighPassed(f, p.h.a));
    SmallMore(p.h.samples, Saturated(HighPassed(f, p.h.a) * 16384.0));
    SumMore(p.h.averages, v);
    LeftIn(v, p.h.a.time, f.period);
    Distributed(Sum(p.h.averages), v, f.period);
    Distributed(|p.h.averages| as real, 1.0, f.period);
    assert q.h.a.time == q.total - |q.h.averages| as real * f.period;
    assert q.h.a.level == p.h.a.level - v * f.period;
  }

  lemma {:induction false} DrainedAccounted(f: Filter, p: Past)
    requires Steady(p.h.a) && Accounted(f, p)
    ensures var q := p.(h := Drained(f, p.h)); Steady(q.h.a) && Accounted(f, q) && q.h.a.time < f.period
    decreases if p.h.a.time < f.period then 0 else 1 + (p.h.a.time / f.period).Floor
  {
    if p.h.a.time >= f.period {
      EmittedAccounted(f, p);
      PeriodsLeft(p.h.a.time, f.period);
      Ratio(f.period, p.h.a.time);
      assert p.h.a.time / f.period >= 1.0;
      DrainedAccounted(f, p.(h := Emitted(f, p.h)));
    }
  }

  lemma SteppedAccounted(f: Filter, p: Past, ticks: nat, high: bool)
    requires Steady(p.h.a) && Accounted(f, p) && p.h.a.time < f.period
    ensures var dt := Passed(p.h.a, ticks) as real;
      var q := Past(Stepped(f, p.h, ticks, high), p.total + dt, p.high + if high then dt else 0.0);
      Steady(q.h.a) && Accounted(f, q) && q.h.a.time < f.period
  {
    hide Drained, Small, Sum;
    var dt := Passed(p.h.a, ticks);
    if dt != 0 {
      var more := dt as real;
      var a := p.h.a.(last := ticks, time := p.h.a.time + more, level := p.h.a.level + if high then more else 0.0);
      DrainedAccounted(f, Past(p.h.(a := a), p.total + more, p.high + if high then more else 0.0));
    }
  }

  lemma {:induction false} RunAccounted(f: Filter, readings: seq<Reading>)
    ensures var p := Run(f, readings); Steady(p.h.a) && Accounted(f, p) && p.h.a.time < f.period
  {
    hide Stepped;
    if readings != [] {
      var p, r := Run(f, readings[..|readings| - 1]), readings[|readings| - 1];
      RunAccounted(f, readings[..|readings| - 1]);
      SteppedAccounted(f, p, r.ticks, r.high);
    }
  }

  lemma WholePeriods(n: nat, total: real, time: real, period: real)
    requires period > 0.0 && 0.0 <= time < period && total == n as real * period + time
    ensures (total / period).Floor == n
  {
    Ratio(time, period);
    Divided(time, period);
    Distributed(n as real, time / period, period);
    QuotientUnique(total, period, n as real + time / period);
  }

  /** However the steps fall, there is a sample for every whole period of the time; the samples' means times the period,
      and what is over, are the time PB7 was high; and the filtered samples never reach the ends of their range. */
  lemma NothingLost(f: Filter, readings: seq<Reading>)
    ensures var p := Run(f, readings);
      && |p.h.samples| == |p.h.averages| == (p.total / f.period).Floor
      && Sum(p.h.averages) * f.period + p.h.a.level == p.high
      && 0.0 <= p.h.a.level <= p.h.a.time < f.period && Small(p.h.samples)
  {
    hide Run, Sum, Small;
    RunAccounted(f, readings);
    var p := Run(f, readings);
    WholePeriods(|p.h.averages|, p.total, p.h.a.time, f.period);
  }

  /** Readings at times that only grow, by less than the counter's range, whatever number of times it has wrapped. */
  predicate Timed(times: seq<nat>) {
    forall i :: 0 <= i < |times| ==> Before(times, i) <= times[i] < Before(times, i) + TICKS
  }

  function Before(times: seq<nat>, i: nat): nat
    requires i <= |times|
  {
    if i == 0 then 0 else times[i - 1]
  }

  function ReadingsAt(times: seq<nat>, levels: seq<bool>): (r: seq<Reading>)
    requires |levels| == |times|
    ensures |r| == |times|
  {
    seq(|times|, i requires 0 <= i < |times| => Reading(times[i] % TICKS, levels[i]))
  }

  /** The time up to the last of them that was before a reading of high. */
  function HighTime(times: seq<nat>, levels: seq<bool>): int
    requires |levels| == |times|
  {
    if times == [] then 0
    else
      var n := |times| - 1;
      HighTime(times[..n], levels[..n]) + if levels[n] then times[n] as int - Before(times, n) else 0
  }

  lemma EarlierTimed(times: seq<nat>, n: nat)
    requires n <= |times| && Timed(times)
    ensures Timed(times[..n]) && Before(times[..n], n) == Before(times, n)
  {
    forall i | 0 <= i < n ensures Before(times[..n], i) <= times[..n][i] < Before(times[..n], i) + TICKS {
      assert Before(times[..n], i) == Before(times, i);
    }
  }

  lemma TicksPassed(before: nat, now: nat)
    requires before <= now < before + TICKS
    ensures (now % TICKS - before % TICKS) % TICKS == now - before
  {
    Words.ModUnique(now % TICKS - before % TICKS, TICKS, before / TICKS - now / TICKS, now - before);
  }

  lemma DrainedLast(f: Filter, h: Heard)
    ensures Drained(f, h).a.last == h.a.last
    decreases if h.a.time < f.period then 0 else 1 + (h.a.time / f.period).Floor
  {
    if h.a.time >= f.period {
      PeriodsLeft(h.a.time, f.period);
      assert h.a.time / f.period >= 1.0;
      DrainedLast(f, Emitted(f, h));
    }
  }

  lemma SteppedLast(f: Filter, h: Heard, ticks: nat, high: bool)
    requires ticks < TICKS && h.a.last < TICKS
    ensures Stepped(f, h, ticks, high).a.last == ticks
  {
    hide Drained;
    var more := Passed(h.a, ticks) as real;
    if Passed(h.a, ticks) == 0 {
      assert ticks == h.a.last;
    } else {
      DrainedLast(f, h.(a := h.a.(last := ticks, time := h.a.time + more, level := h.a.level + if high then more else 0.0)));
    }
  }

  /** The time is that of the last reading, and the high time what went by before readings of high. */
  lemma {:induction false} TimeElapses(f: Filter, times: seq<nat>, levels: seq<bool>)
    requires |levels| == |times| && Timed(times)
    ensures var p := Run(f, ReadingsAt(times, levels));
      var last := Before(times, |times|);
      p.total == last as real && p.high == HighTime(times, levels) as real && p.h.a.last == last % TICKS
    decreases |times|
  {
    hide Stepped;
    if times != [] {
      var n := |times| - 1;
      EarlierTimed(times, n);
      TimeElapses(f, times[..n], levels[..n]);
      assert ReadingsAt(times, levels)[..n] == ReadingsAt(times[..n], levels[..n]);
      TicksPassed(Before(times, n), times[n]);
      SteppedLast(f, Run(f, ReadingsAt(times[..n], levels[..n])).h, times[n] % TICKS, levels[n]);
    }
  }

  // ---- What the samples are ----

  function Power(alpha: real, k: nat): real {
    if k == 0 then 1.0 else alpha * Power(alpha, k - 1)
  }

  /** How much mean j differs from the one before it; before the first there is silence. */
  function Jump(means: seq<real>, j: nat): real
    requires j < |means|
  {
    means[j] - if j == 0 then 0.0 else means[j - 1]
  }

  /** The first k jumps as sample n has them: each fainter by alpha for its own sample and every one since. */
  function Echoes(alpha: real, means: seq<real>, n: nat, k: nat): real
    requires k <= n + 1 && k <= |means|
  {
    if k == 0 then 0.0 else Echoes(alpha, means, n, k - 1) + Power(alpha, n + 2 - k) * Jump(means, k - 1)
  }

  /** The wave at sample n: the sum of alpha^(n - j + 1) times jump j, over all j up to n. */
  function Wave(alpha: real, means: seq<real>, n: nat): real
    requires n < |means|
  {
    Echoes(alpha, means, n, n + 1)
  }

  lemma {:induction false} EchoesFade(alpha: real, means: seq<real>, n: nat, k: nat)
    requires 0 < n && k <= n && k <= |means|
    ensures Echoes(alpha, means, n, k) == alpha * Echoes(alpha, means, n - 1, k)
    decreases k
  {
    if k > 0 {
      EchoesFade(alpha, means, n, k - 1);
      var p, d := Power(alpha, n + 1 - k), Jump(means, k - 1);
      assert Power(alpha, n + 2 - k) == alpha * p;
      Times(alpha, p, d);
      Distributed(Echoes(alpha, means, n - 1, k - 1), p * d, alpha);
    }
  }

  lemma Times(a: real, b: real, c: real)
    ensures a * b * c == a * (b * c)
  {
  }

  /** The wave follows its input, and fades. */
  lemma WaveFollows(alpha: real, means: seq<real>, n: nat)
    requires n < |means|
    ensures Wave(alpha, means, n) == alpha * ((if n == 0 then 0.0 else Wave(alpha, means, n - 1)) + Jump(means, n))
  {
    hide Jump;
    assert Power(alpha, 1) == alpha * Power(alpha, 0) == alpha;
    assert Echoes(alpha, means, n, n + 1) == Echoes(alpha, means, n, n) + Power(alpha, 1) * Jump(means, n);
    if n > 0 {
      EchoesFade(alpha, means, n, n);
      Distributed(Wave(alpha, means, n - 1), Jump(means, n), alpha);
    }
  }

  lemma {:induction false} EchoesOfMore(alpha: real, means: seq<real>, v: real, n: nat, k: nat)
    requires k <= n + 1 && k <= |means|
    ensures Echoes(alpha, means + [v], n, k) == Echoes(alpha, means, n, k)
    decreases k
  {
    if k > 0 {
      EchoesOfMore(alpha, means, v, n, k - 1);
      assert Jump(means + [v], k - 1) == Jump(means, k - 1);
    }
  }

  /** An integer is a number without its fraction. */
  predicate WholePart(i: int, v: real) {
    if v >= 0.0 then i as real <= v < i as real + 1.0 else i as real - 1.0 < v <= i as real
  }

  /** The samples so far are the wave's, and the filter has what the next one needs. */
  predicate Sounds(f: Filter, h: Heard) {
    var n := |h.averages|;
    && |h.samples| == n
    && (forall i :: 0 <= i < n ==> WholePart(h.samples[i] as int, 16384.0 * Wave(f.alpha, h.averages, i)))
    && h.a.x == (if n == 0 then 0.0 else h.averages[n - 1])
    && h.a.y == (if n == 0 then 0.0 else Wave(f.alpha, h.averages, n - 1))
  }

  lemma EmittedSounds(f: Filter, h: Heard)
    requires Steady(h.a) && Sounds(f, h)
    ensures Sounds(f, Emitted(f, h))
  {
    hide Wave, WholePart, Average, HighPassed, Saturated;
    var n, v, r := |h.averages|, Average(h.a), Emitted(f, h);
    NextWave(f, h);
    WaveOfMore(f.alpha, h.averages, v);
    assert r.averages == h.averages + [v];
    forall i | 0 <= i < n + 1 ensures WholePart(r.samples[i] as int, 16384.0 * Wave(f.alpha, r.averages, i)) {
      if i < n {
        assert WholePart(h.samples[i] as int, 16384.0 * Wave(f.alpha, h.averages, i));
      }
    }
  }

  lemma NextWave(f: Filter, h: Heard)
    requires Steady(h.a) && Sounds(f, h)
    ensures var n, y := |h.averages|, HighPassed(f, h.a);
      y == Wave(f.alpha, h.averages + [Average(h.a)], n) && WholePart(Saturated(y * 16384.0), 16384.0 * y)
  {
    hide Wave, Truncated, WholePart, Average;
    var n, means := |h.averages|, h.averages + [Average(h.a)];
    WaveFollows(f.alpha, means, n);
    WaveOfMore(f.alpha, h.averages, Average(h.a));
    HighPassBounds(f, h.a);
    Loud(HighPassed(f, h.a));
    TruncatedWhole(HighPassed(f, h.a) * 16384.0);
  }

  lemma TruncatedWhole(v: real)
    ensures WholePart(Truncated(v), v)
  {
  }

  lemma WaveOfMore(alpha: real, means: seq<real>, v: real)
    ensures forall i :: 0 <= i < |means| ==> Wave(alpha, means + [v], i) == Wave(alpha, means, i)
  {
    forall i | 0 <= i < |means| ensures Wave(alpha, means + [v], i) == Wave(alpha, means, i) {
      EchoesOfMore(alpha, means, v, i, i + 1);
    }
  }

  lemma {:induction false} DrainedSounds(f: Filter, p: Past)
    requires Steady(p.h.a) && Accounted(f, p) && Sounds(f, p.h)
    ensures Sounds(f, Drained(f, p.h))
    decreases if p.h.a.time < f.period then 0 else 1 + (p.h.a.time / f.period).Floor
  {
    hide Emitted, Sounds, Accounted;
    if p.h.a.time >= f.period {
      EmittedAccounted(f, p);
      EmittedSounds(f, p.h);
      EmittedTime(f, p.h);
      PeriodsLeft(p.h.a.time, f.period);
      Ratio(f.period, p.h.a.time);
      assert p.h.a.time / f.period >= 1.0;
      DrainedSounds(f, p.(h := Emitted(f, p.h)));
    }
  }

  lemma SteppedSounds(f: Filter, p: Past, ticks: nat, high: bool)
    requires Steady(p.h.a) && Accounted(f, p) && Sounds(f, p.h)
    ensures Sounds(f, Stepped(f, p.h, ticks, high))
  {
    hide Drained, Wave;
    var dt := Passed(p.h.a, ticks);
    if dt != 0 {
      var more := dt as real;
      var a := p.h.a.(last := ticks, time := p.h.a.time + more, level := p.h.a.level + if high then more else 0.0);
      DrainedSounds(f, Past(p.h.(a := a), p.total + more, p.high + if high then more else 0.0));
    }
  }

  /** Every sample is what the means up to it make: the jumps between them, each fading by alpha a sample, at 16384 to
      one and without the fraction. */
  lemma {:induction false} SamplesAreWave(f: Filter, readings: seq<Reading>)
    ensures Sounds(f, Run(f, readings).h)
  {
    hide Stepped;
    if readings != [] {
      var p, r := Run(f, readings[..|readings| - 1]), readings[|readings| - 1];
      SamplesAreWave(f, readings[..|readings| - 1]);
      RunAccounted(f, readings[..|readings| - 1]);
      SteppedSounds(f, p, r.ticks, r.high);
    }
  }

  /** Where the means keep level after sample n, the wave dies away by alpha a sample. */
  lemma {:induction false} HeldDecays(alpha: real, means: seq<real>, n: nat, k: nat)
    requires n + k < |means| && forall j :: n <= j <= n + k ==> means[j] == means[n]
    ensures Wave(alpha, means, n + k) == Power(alpha, k) * Wave(alpha, means, n)
    decreases k
  {
    if k > 0 {
      HeldDecays(alpha, means, n, k - 1);
      WaveFollows(alpha, means, n + k);
      assert means[n + k] == means[n] == means[n + k - 1];
      Times(alpha, Power(alpha, k - 1), Wave(alpha, means, n));
    }
  }

  /** Silence from the start is silence. */
  lemma {:induction false} SilenceIsSilent(alpha: real, means: seq<real>, n: nat)
    requires n < |means| && forall j :: 0 <= j <= n ==> means[j] == 0.0
    ensures Wave(alpha, means, n) == 0.0
  {
    WaveFollows(alpha, means, 0);
    HeldDecays(alpha, means, 0, n);
  }

  /** A level c from the start begins at alpha * c. */
  lemma StepResponse(alpha: real, means: seq<real>, n: nat, c: real)
    requires n < |means| && forall j :: 0 <= j <= n ==> means[j] == c
    ensures Wave(alpha, means, n) == Power(alpha, n + 1) * c
  {
    WaveFollows(alpha, means, 0);
    HeldDecays(alpha, means, 0, n);
    assert Power(alpha, n + 1) == alpha * Power(alpha, n);
    Times(Power(alpha, n), alpha, c);
  }

  // ---- As it runs ----

  class Resampler {
    const f: Filter
    var lastOsc: nat
    var timeAccum: real
    var levelAccum: real
    var hpXPrev: real
    var hpYPrev: real
    var samples: seq<sample>
    ghost var averages: seq<real>

    ghost function State(): Heard
      reads this
    {
      Heard(Audio(lastOsc, timeAccum, levelAccum, hpXPrev, hpYPrev), averages, samples)
    }

    constructor (filter: Filter)
      ensures f == filter && State() == SILENT
    {
      f, lastOsc, timeAccum, levelAccum, hpXPrev, hpYPrev := filter, 0, 0.0, 0.0, 0.0, 0.0;
      samples, averages := [], [];
    }

    method EmitSample()
      modifies this
      ensures State() == Emitted(f, old(State()))
    {
      var avg := if timeAccum > 0.0 then levelAccum / timeAccum else 0.0;
      var y := f.alpha * (hpYPrev + avg - hpXPrev);
      hpXPrev := avg;
      hpYPrev := y;
      samples := samples + [Saturated(y * 16384.0)];
      averages := averages + [avg];
      timeAccum := timeAccum - f.period;
      levelAccum := avg * timeAccum;
    }

    method AudioStep(ticks: nat, high: bool)
      modifies this
      ensures State() == Stepped(f, old(State()), ticks, high)
    {
      hide Emitted;
      var dt := (ticks - lastOsc) % TICKS;
      if dt == 0 {
        return;
      }
      lastOsc := ticks;
      levelAccum := levelAccum + (if high then 1.0 else 0.0) * dt as real;
      timeAccum := timeAccum + dt as real;
      ghost var whole := Drained(f, State());
      while timeAccum >= f.period
        invariant Drained(f, State()) == whole
        decreases if timeAccum < f.period then 0 else 1 + (timeAccum / f.period).Floor
      {
        PeriodsLeft(timeAccum, f.period);
        ghost var before := State();
        EmitSample();
        EmittedTime(f, before);
      }
    }
  }

  lemma EmittedTime(f: Filter, h: Heard)
    ensures Emitted(f, h).a.time == h.a.time - f.period
  {
  }
}
