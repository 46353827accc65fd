/** Commands for the serial line, on the wire and timed by the oscillator. */
module SerialLink {
  import opened Words
  import opened Reals

  const WIDTH64 := 0x1_0000_0000_0000_0000

  type u64 = x: int | 0 <= x < WIDTH64

  datatype Command =
    | Low(ns: u64) | High(ns: u64) | Delay(ns: u64)
    | ResetOn | ResetOff | Ping | TxStart | TxEnd

  // ---- On the wire ----

  /** n bytes of a number, the low one first. */
  function LowBytes(v: nat, n: nat): (b: seq<byte>)
    ensures |b| == n
    decreases n
  {
    if n == 0 then [] else [v % 0x100] + LowBytes(v / 0x100, n - 1)
  }

  function Number(b: seq<byte>): nat
    decreases |b|
  {
    if b == [] then 0 else b[0] as int + 0x100 * Number(b[1..])
  }

  function Limit(n: nat): nat {
    if n == 0 then 1 else 0x100 * Limit(n - 1)
  }

  lemma {:induction false} NumberRead(v: nat, n: nat)
    requires v < Limit(n)
    ensures Number(LowBytes(v, n)) == v
    decreases n
  {
    if n > 0 {
      NumberRead(v / 0x100, n - 1);
      assert LowBytes(v, n)[1..] == LowBytes(v / 0x100, n - 1);
    }
  }

  lemma {:induction false} NumberFits(b: seq<byte>)
    ensures Number(b) < Limit(|b|)
    decreases |b|
  {
    if b != [] {
      NumberFits(b[1..]);
    }
  }

  lemma Limit8()
    ensures Limit(8) == WIDTH64
  {
    assert Limit(4) == 0x1_0000_0000;
    assert Limit(6) == 0x1_0000_0000_0000;
  }

  function Timed(c: Command): bool {
    c.Low? || c.High? || c.Delay?
  }

  function Opcode(c: Command): byte {
    match c
    case Low(_) => 0x01
    case High(_) => 0x02
    case Delay(_) => 0x03
    case ResetOn => 0x10
    case ResetOff => 0x11
    case Ping => 0x20
    case TxStart => 0x30
    case TxEnd => 0x31
  }

  function Encoded(c: Command): (b: seq<byte>)
    ensures |b| == if Timed(c) then 9 else 1
  {
    [Opcode(c)] + if Timed(c) then LowBytes(c.ns, 8) else []
  }

  function EncodedAll(cs: seq<Command>): seq<byte> {
    if cs == [] then [] else Encoded(cs[0]) + EncodedAll(cs[1..])
  }

  /** What is first in the buffer: a command and its length, not all of one, or none. */
  datatype Parsed = Got(command: Command, length: nat) | Partial | Unknown

  function First(rx: seq<byte>): (p: Parsed)
    requires rx != []
    ensures p.Got? ==> 0 < p.length <= |rx|
  {
    var op := rx[0];
    if op == 0x01 || op == 0x02 || op == 0x03 then
      if |rx| < 9 then Partial
      else
        NumberFits(rx[1..9]);
        Limit8();
        var ns: u64 := Number(rx[1..9]);
        Got(if op == 0x01 then Low(ns) else if op == 0x02 then High(ns) else Delay(ns), 9)
    else if op == 0x10 then Got(ResetOn, 1)
    else if op == 0x11 then Got(ResetOff, 1)
    else if op == 0x20 then Got(Ping, 1)
    else if op == 0x30 then Got(TxStart, 1)
    else if op == 0x31 then Got(TxEnd, 1)
    else Unknown
  }

  /** A command is parsed as it was packed, whatever comes after it. */
  lemma CommandParsed(c: Command, rest: seq<byte>)
    ensures First(Encoded(c) + rest) == Got(c, |Encoded(c)|)
  {
    if Timed(c) {
      Limit8();
      NumberRead(c.ns, 8);
      assert (Encoded(c) + rest)[1..9] == LowBytes(c.ns, 8);
    }
  }

  // ---- The link ----

  /** The received bytes, when the command under way is over, what is left over of a tick, the bracket, and the line's
      and the reset's levels. */
  datatype Link = Link(client: bool, rx: seq<byte>, unblock: Option<nat>, residue: real, inTx: bool,
                       level: Option<bool>, reset: bool)

  predicate Blocked(l: Link, now: nat) {
    l.unblock.Some? && now < l.unblock.value
  }

  /** Whole ticks of a time, the rest kept for the next. */
  function Ticks(rate: real, residue: real, ns: nat): (real, int) {
    var exact := ns as real * rate + residue;
    (exact - exact.Floor as real, exact.Floor)
  }

  function Waited(l: Link, rate: real, ns: nat, now: nat): Link {
    var t := Ticks(rate, l.residue, ns);
    l.(unblock := Some(Max(0, now + t.1)), residue := t.0)
  }

  function Applied(l: Link, rate: real, c: Command, now: nat): (r: Link)
    ensures r.rx == l.rx && r.client == l.client
  {
    match c
    case Low(ns) => Waited(l.(level := Some(false)), rate, ns, now)
    case High(ns) => Waited(l.(level := Some(true)), rate, ns, now)
    case Delay(ns) => Waited(l, rate, ns, now)
    case ResetOn => l.(reset := true)
    case ResetOff => l.(reset := false)
    case Ping => l
    case TxStart => l.(inTx := true)
    case TxEnd => l.(inTx := false)
  }

  function Dropped(l: Link): Link {
    l.(client := false, rx := [], inTx := false, unblock := None)
  }

  /** A command and the tick it took effect at. */
  datatype Entry = Entry(command: Command, at: nat)

  datatype Live = Live(link: Link, log: seq<Entry>)

  /** As many commands as are due. */
  function Polled(v: Live, rate: real, now: nat): Live
    decreases |v.link.rx|
  {
    var l := v.link;
    if l.rx == [] || Blocked(l, now) then v
    else
      match First(l.rx)
      case Partial => v
      case Unknown => v.(link := Dropped(l))
      case Got(c, length) =>
        Polled(Live(Applied(l.(rx := l.rx[length..]), rate, c, now), v.log + [Entry(c, now)]), rate, now)
  }

  const RX_SIZE := 4096

  /** What comes in of the bytes the socket has: as many as the buffer has room for. */
  function Taken(l: Link, bytes: seq<byte>): (t: seq<byte>)
    ensures t <= bytes
  {
    bytes[..Min(|bytes|, Max(0, RX_SIZE - |l.rx|))]
  }

  function PolledWith(v: Live, rate: real, bytes: seq<byte>, now: nat): Live {
    if !v.link.client then v else Polled(v.(link := v.link.(rx := v.link.rx + Taken(v.link, bytes))), rate, now)
  }

  predicate Stalls(l: Link, now: nat) {
    l.client && l.inTx && !Blocked(l, now) && l.rx == []
  }

  predicate NeedsRepoll(l: Link, now: nat) {
    l.client && l.inTx && l.unblock.Some? && now >= l.unblock.value
  }

  // ---- Time ----

  /** The emulator's steps: it services the link, or, unless that stalls, moves the oscillator on by a tick and services
      the link if a command is due. The socket has some bytes meanwhile: any number, a part of a command or more. */
  datatype Action = Service(bytes: seq<byte>) | Advance(bytes: seq<byte>)

  /** The link, the oscillator, and all the bytes that came in. */
  datatype World = World(v: Live, now: nat, arrived: seq<byte>)

  function Serviced(w: World, rate: real, bytes: seq<byte>): World {
    World(PolledWith(w.v, rate, bytes, w.now), w.now,
          if w.v.link.client then w.arrived + Taken(w.v.link, bytes) else w.arrived)
  }

  function Stepped(w: World, rate: real, a: Action): World {
    match a
    case Service(bytes) => Serviced(w, rate, bytes)
    case Advance(bytes) =>
      if Stalls(w.v.link, w.now) then w
      else if NeedsRepoll(w.v.link, w.now + 1) then Serviced(w.(now := w.now + 1), rate, bytes)
      else w.(now := w.now + 1)
  }

  /** From within the poll that began the bracket: the rest of that poll, and the steps. */
  function Run(w: World, rate: real, actions: seq<Action>): World {
    if actions == [] then w.(v := Polled(w.v, rate, w.now))
    else Stepped(Run(w, rate, actions[..|actions| - 1]), rate, actions[|actions| - 1])
  }

  function Ns(c: Command): nat {
    if Timed(c) then c.ns else 0
  }

  function TotalNs(cs: seq<Command>): nat {
    if cs == [] then 0 else TotalNs(cs[..|cs| - 1]) + Ns(cs[|cs| - 1])
  }

  /** A bracket: the tick it began at, the oscillator's rate, what was left over of a tick, and the commands the client
      sends in it and after. */
  datatype Bracket = Bracket(start: nat, rate: real, residue: real, cs: seq<Command>)

  predicate ValidBracket(b: Bracket) {
    b.rate > 0.0 && 0.0 <= b.residue < 1.0
  }

  /** The time of the first k commands, in ticks. */
  function Elapsed(b: Bracket, k: nat): real
    requires k <= |b.cs|
  {
    TotalNs(b.cs[..k]) as real * b.rate + b.residue
  }

  /** When command k is due: after the whole ticks of the time before it. */
  function Due(b: Bracket, k: nat): int
    requires k <= |b.cs|
  {
    b.start + Elapsed(b, k).Floor
  }

  function Left(b: Bracket, k: nat): real
    requires k <= |b.cs|
  {
    Elapsed(b, k) - Elapsed(b, k).Floor as real
  }

  /** The first k commands do not end the bracket. */
  predicate Open(b: Bracket, k: nat)
    requires k <= |b.cs|
  {
    TxEnd !in b.cs[..k]
  }

  /** The bytes that came in are the client's: those of the commands that took effect, in order, and then the buffer. */
  ghost predicate Fed(b: Bracket, w: World) {
    var k := |w.v.log|;
    && k <= |b.cs| && w.v.link.client
    && (forall i :: 0 <= i < k ==> w.v.log[i].command == b.cs[i])
    && w.arrived == EncodedAll(b.cs[..k]) + w.v.link.rx && w.arrived <= EncodedAll(b.cs)
  }

  /** Every command so far took effect when it was due, and the next is not due before now. */
  ghost predicate Timely(b: Bracket, w: World)
    requires |w.v.log| <= |b.cs|
  {
    var l, k := w.v.link, |w.v.log|;
    && l.inTx && l.residue == Left(b, k)
    && (forall i :: 0 <= i < k ==> w.v.log[i].at == Due(b, i))
    && var due := Due(b, k);
    && w.now <= due && (l.unblock.Some? ==> l.unblock.value <= due)
    && (w.now < due ==> l.unblock == Some(due))
  }

  ghost predicate OnTime(b: Bracket, w: World) {
    Fed(b, w) && (Open(b, |w.v.log|) ==> Timely(b, w))
  }

  /** If the next command is due now, it has not all come. */
  ghost predicate Caught(b: Bracket, w: World)
    requires |w.v.log| <= |b.cs|
  {
    var k := |w.v.log|;
    Open(b, k) && k < |b.cs| && w.now == Due(b, k) ==> |w.v.link.rx| < |Encoded(b.cs[k])|
  }

  /** The next command is due, and the buffer has part of it. */
  ghost predicate Torn(b: Bracket, w: World) {
    var k, rx := |w.v.log|, w.v.link.rx;
    k < |b.cs| && rx != [] && rx < Encoded(b.cs[k]) && w.now >= Due(b, k)
  }

  lemma FloorMoves(x: real, d: real)
    ensures (x + d).Floor == x.Floor + (d + (x - x.Floor as real)).Floor
  {
    var y := d + (x - x.Floor as real);
    assert x + d == y + x.Floor as real;
  }

  lemma ElapsedMore(b: Bracket, k: nat)
    requires k < |b.cs|
    ensures Elapsed(b, k + 1) == Elapsed(b, k) + Ns(b.cs[k]) as real * b.rate
  {
    assert b.cs[..k + 1][..k] == b.cs[..k];
    Distributed(TotalNs(b.cs[..k]) as real, Ns(b.cs[k]) as real, b.rate);
  }

  /** The ticks of a command's time and what was left over are those to the next one's. */
  lemma TicksToNext(b: Bracket, k: nat)
    requires ValidBracket(b) && k < |b.cs|
    ensures var t, ns := Ticks(b.rate, Left(b, k), Ns(b.cs[k])), Ns(b.cs[k]);
      && Due(b, k + 1) == Due(b, k) + t.1 && t.0 == Left(b, k + 1)
      && t.1 >= 0 && (ns == 0 ==> t.1 == 0 && t.0 == Left(b, k))
  {
    hide Elapsed;
    ElapsedMore(b, k);
    FloorMoves(Elapsed(b, k), Ns(b.cs[k]) as real * b.rate);
    NonNegative(Ns(b.cs[k]) as real, b.rate);
  }

  lemma {:induction false} EncodedJoined(a: seq<Command>, b: seq<Command>)
    ensures EncodedAll(a + b) == EncodedAll(a) + EncodedAll(b)
  {
    if a == [] {
      assert a + b == b;
    } else {
      assert (a + b)[1..] == a[1..] + b;
      EncodedJoined(a[1..], b);
    }
  }

  lemma EncodedNext(b: Bracket, k: nat)
    requires k < |b.cs|
    ensures EncodedAll(b.cs[..k + 1]) == EncodedAll(b.cs[..k]) + Encoded(b.cs[k])
  {
    assert b.cs[..k + 1] == b.cs[..k] + [b.cs[k]];
    EncodedJoined(b.cs[..k], [b.cs[k]]);
    assert [b.cs[k]][1..] == [];
  }

  /** A buffer that is not empty begins with the next command, or has part of it. */
  lemma NextParsed(b: Bracket, w: World)
    requires Fed(b, w) && w.v.link.rx != []
    ensures var k, rx := |w.v.log|, w.v.link.rx;
      && k < |b.cs|
      && var next := Encoded(b.cs[k]);
      if |rx| < |next| then rx < next && First(rx) == Partial
      else rx == next + rx[|next|..] && First(rx) == Got(b.cs[k], |next|)
  {
    hide Encoded, First;
    var k, rx, all := |w.v.log|, w.v.link.rx, b.cs;
    assert all == all[..k] + all[k..];
    EncodedJoined(all[..k], all[k..]);
    RestStarts(EncodedAll(all[..k]), rx, EncodedAll(all[k..]));
    NextStarts(all[k..], rx);
  }

  lemma RestStarts(done: seq<byte>, rx: seq<byte>, rest: seq<byte>)
    requires done + rx <= done + rest
    ensures rx <= rest
  {
    assert (done + rx)[|done|..] == rx && (done + rest)[|done|..] == rest;
    assert (done + rest)[..|done + rx|][|done|..] == rest[..|rx|];
  }

  lemma NextStarts(cs: seq<Command>, rx: seq<byte>)
    requires rx != [] && rx <= EncodedAll(cs)
    ensures cs != []
    ensures var next := Encoded(cs[0]);
      if |rx| < |next| then rx < next && First(rx) == Partial
      else rx == next + rx[|next|..] && First(rx) == Got(cs[0], |next|)
  {
    var next := Encoded(cs[0]);
    if |rx| < |next| {
      assert rx == next[..|rx|];
    } else {
      assert rx[..|next|] == next;
      CommandParsed(cs[0], rx[|next|..]);
    }
  }

  /** A poll keeps what was there, and finds the next command unless it has not all come. */
  lemma {:induction false} PollCatches(b: Bracket, w: World)
    requires ValidBracket(b) && OnTime(b, w)
    ensures var r := w.(v := Polled(w.v, b.rate, w.now)); OnTime(b, r) && Caught(b, r)
    decreases |w.v.link.rx|
  {
    hide First, Encoded, EncodedAll, Due, Left, Open, Applied;
    var l, k := w.v.link, |w.v.log|;
    if l.rx != [] && !Blocked(l, w.now) {
      NextParsed(b, w);
      if First(l.rx).Got? {
        NextOnTime(b, w);
        EncodedSome(b.cs[k]);
        PollCatches(b, w.(v := Next(w.v, b.rate, b.cs[k], w.now)));
      }
    } else if l.rx == [] && k < |b.cs| {
      EncodedSome(b.cs[k]);
    }
  }

  lemma EncodedSome(c: Command)
    ensures Encoded(c) != []
  {
  }

  /** The next command, all of it come and due, takes effect. */
  function Next(v: Live, rate: real, c: Command, now: nat): Live
    requires |Encoded(c)| <= |v.link.rx|
  {
    var l := v.link;
    Live(Applied(l.(rx := l.rx[|Encoded(c)|..]), rate, c, now), v.log + [Entry(c, now)])
  }

  lemma NextFed(b: Bracket, w: World)
    requires Fed(b, w) && |w.v.log| < |b.cs| && Encoded(b.cs[|w.v.log|]) <= w.v.link.rx
    ensures Fed(b, w.(v := Next(w.v, b.rate, b.cs[|w.v.log|], w.now)))
  {
    hide EncodedAll, Encoded, Applied;
    var k := |w.v.log|;
    EncodedNext(b, k);
    var next, rx := Encoded(b.cs[k]), w.v.link.rx;
    assert rx == next + rx[|next|..];
    assert EncodedAll(b.cs[..k]) + rx == EncodedAll(b.cs[..k + 1]) + rx[|next|..];
  }

  lemma NextTimely(b: Bracket, w: World)
    requires ValidBracket(b) && |w.v.log| < |b.cs| && !Blocked(w.v.link, w.now) && Timely(b, w)
    requires Encoded(b.cs[|w.v.log|]) <= w.v.link.rx && b.cs[|w.v.log|] != TxEnd
    ensures Timely(b, w.(v := Next(w.v, b.rate, b.cs[|w.v.log|], w.now)))
  {
    hide Due, Left, Ticks, Encoded;
    TicksToNext(b, |w.v.log|);
  }

  lemma NextOnTime(b: Bracket, w: World)
    requires ValidBracket(b) && OnTime(b, w) && |w.v.log| < |b.cs| && !Blocked(w.v.link, w.now)
    requires Encoded(b.cs[|w.v.log|]) <= w.v.link.rx
    ensures OnTime(b, w.(v := Next(w.v, b.rate, b.cs[|w.v.log|], w.now)))
  {
    hide Fed, Timely, Encoded, Applied;
    var k := |w.v.log|;
    NextFed(b, w);
    if Open(b, k + 1) {
      assert b.cs[k] == b.cs[..k + 1][k] && b.cs[..k] <= b.cs[..k + 1];
      NextTimely(b, w);
    }
  }

  lemma ServicedOnTime(b: Bracket, w: World, bytes: seq<byte>)
    requires ValidBracket(b) && OnTime(b, w) && Serviced(w, b.rate, bytes).arrived <= EncodedAll(b.cs)
    ensures var r := Serviced(w, b.rate, bytes); OnTime(b, r) && Caught(b, r)
  {
    hide Due, Left, EncodedAll, Polled, Open, Taken;
    var l := w.v.link;
    var rx := l.rx + Taken(l, bytes);
    assert EncodedAll(b.cs[..|w.v.log|]) + rx == w.arrived + Taken(l, bytes);
    PollCatches(b, World(w.v.(link := l.(rx := rx)), w.now, w.arrived + Taken(l, bytes)));
  }

  /** While all is on time, a tick takes the oscillator past the next command's due tick exactly when that is now and the
      buffer, polled, has part of the command and not all. */
  lemma PassesDueWhenTorn(b: Bracket, w: World, bytes: seq<byte>)
    requires OnTime(b, w) && Caught(b, w) && Open(b, |w.v.log|)
    ensures Stepped(w, b.rate, Advance(bytes)).now > Due(b, |w.v.log|) <==> Torn(b, w)
  {
    hide Due, Left, EncodedAll, Encoded, Open, PolledWith;
    if w.v.link.rx != [] {
      NextParsed(b, w);
    } else if |w.v.log| < |b.cs| {
      EncodedSome(b.cs[|w.v.log|]);
    }
  }

  lemma StepKeepsOnTime(b: Bracket, w: World, a: Action)
    requires ValidBracket(b) && OnTime(b, w) && Caught(b, w) && !(a.Advance? && Torn(b, w))
    requires Stepped(w, b.rate, a).arrived <= EncodedAll(b.cs)
    ensures var r := Stepped(w, b.rate, a); OnTime(b, r) && Caught(b, r)
  {
    hide Due, Left, EncodedAll, Encoded, Open, Serviced, Torn;
    var k := |w.v.log|;
    if a.Service? {
      ServicedOnTime(b, w, a.bytes);
    } else {
      if Open(b, k) {
        PassesDueWhenTorn(b, w, a.bytes);
        NowServiced(w.(now := w.now + 1), b.rate, a.bytes);
      }
      if !Stalls(w.v.link, w.now) && NeedsRepoll(w.v.link, w.now + 1) {
        ServicedOnTime(b, w.(now := w.now + 1), a.bytes);
      }
    }
  }

  lemma NowServiced(w: World, rate: real, bytes: seq<byte>)
    ensures Serviced(w, rate, bytes).now == w.now
  {
  }

  /** Just after the command that begins the bracket took effect, with the rest of the buffer still to poll. */
  ghost predicate Begun(b: Bracket, w: World) {
    var l := w.v.link;
    && ValidBracket(b) && w.now == b.start && l.residue == b.residue
    && l.client && l.inTx && !Blocked(l, w.now) && w.v.log == [] && w.arrived == l.rx
  }

  /** The oscillator never moved on with part of a command that was due. */
  ghost predicate NeverTorn(b: Bracket, w: World, actions: seq<Action>) {
    forall i :: 0 <= i < |actions| && actions[i].Advance? ==> !Torn(b, Run(w, b.rate, actions[..i]))
  }

  lemma MoreArrives(w: World, rate: real, actions: seq<Action>)
    requires actions != []
    ensures Run(w, rate, actions[..|actions| - 1]).arrived <= Run(w, rate, actions).arrived
  {
    hide PolledWith, Taken;
  }

  lemma BegunOnTime(b: Bracket, w: World)
    requires Begun(b, w) && w.arrived <= EncodedAll(b.cs)
    ensures OnTime(b, w)
  {
    assert b.cs[..0] == [] && EncodedAll([]) == [] && Elapsed(b, 0) == b.residue;
  }

  lemma {:induction false} RunKeepsOnTime(b: Bracket, w: World, actions: seq<Action>)
    requires Begun(b, w) && NeverTorn(b, w, actions) && Run(w, b.rate, actions).arrived <= EncodedAll(b.cs)
    ensures var r := Run(w, b.rate, actions); OnTime(b, r) && Caught(b, r)
  {
    hide OnTime, Caught, EncodedAll, Torn, Stepped;
    if actions == [] {
      BegunOnTime(b, w);
      PollCatches(b, w);
    } else {
      var n := |actions| - 1;
      MoreArrives(w, b.rate, actions);
      forall i | 0 <= i < n && actions[..n][i].Advance? ensures !Torn(b, Run(w, b.rate, actions[..n][..i])) {
        assert actions[..n][..i] == actions[..i] && actions[..n][i] == actions[i];
      }
      RunKeepsOnTime(b, w, actions[..n]);
      StepKeepsOnTime(b, Run(w, b.rate, actions[..n]), actions[n]);
    }
  }

  // ---- Late for ever ----

  /** Every command so far took effect when it was due, and the oscillator has not passed the next one's tick. */
  ghost predicate OnSchedule(b: Bracket, w: World) {
    var log := w.v.log;
    && |log| <= |b.cs| && (forall i :: 0 <= i < |log| ==> log[i].command == b.cs[i] && log[i].at == Due(b, i))
    && w.now <= Due(b, |log|)
  }

  /** Command k took effect after its due tick, or did not by then. */
  ghost predicate Late(b: Bracket, w: World, k: nat)
    requires k < |b.cs|
  {
    if k < |w.v.log| then w.v.log[k].at > Due(b, k) else w.now > Due(b, k)
  }

  lemma {:induction false} PollLogs(v: Live, rate: real, now: nat)
    ensures var r := Polled(v, rate, now);
      v.log <= r.log && forall i :: |v.log| <= i < |r.log| ==> r.log[i].at == now
    decreases |v.link.rx|
  {
    hide Applied, First;
    var l := v.link;
    if l.rx != [] && !Blocked(l, now) && First(l.rx).Got? {
      var c, length := First(l.rx).command, First(l.rx).length;
      PollLogs(Live(Applied(l.(rx := l.rx[length..]), rate, c, now), v.log + [Entry(c, now)]), rate, now);
    }
  }

  lemma StepKeepsLate(b: Bracket, w: World, a: Action, k: nat)
    requires k < |b.cs| && Late(b, w, k)
    ensures Late(b, Stepped(w, b.rate, a), k)
  {
    hide Polled, Due;
    var l := w.v.link;
    var v := w.v.(link := l.(rx := l.rx + Taken(l, a.bytes)));
    PollLogs(v, b.rate, w.now);
    PollLogs(v, b.rate, w.now + 1);
  }

  lemma {:induction false} StaysLate(b: Bracket, w: World, actions: seq<Action>, i: nat, k: nat)
    requires k < |b.cs| && i <= |actions| && Late(b, Run(w, b.rate, actions[..i]), k)
    ensures Late(b, Run(w, b.rate, actions), k)
    decreases |actions|
  {
    hide Late, Stepped;
    var n := |actions| - 1;
    if i <= n {
      assert actions[..n][..i] == actions[..i];
      StaysLate(b, w, actions[..n], i, k);
      StepKeepsLate(b, Run(w, b.rate, actions[..n]), actions[n], k);
    } else {
      assert actions[..i] == actions;
    }
  }

  /** One tick with part of a command that is due makes that command late, whenever the rest of it comes. */
  lemma TornIsLate(b: Bracket, w: World, actions: seq<Action>, i: nat)
    requires ValidBracket(b) && i < |actions| && actions[i].Advance? && Torn(b, Run(w, b.rate, actions[..i]))
    ensures var k := |Run(w, b.rate, actions[..i]).v.log|;
      k < |b.cs| && Late(b, Run(w, b.rate, actions), k) && !OnSchedule(b, Run(w, b.rate, actions))
  {
    hide PolledWith, Due, Encoded;
    var t := Run(w, b.rate, actions[..i]);
    assert actions[..i + 1][..i] == actions[..i];
    var u := Run(w, b.rate, actions[..i + 1]);
    assert u == Stepped(t, b.rate, actions[i]);
    var k := |t.v.log|;
    TickIsLate(b, t, actions[i].bytes);
    StaysLate(b, w, actions, i + 1, k);
    LateIsOff(b, Run(w, b.rate, actions), k);
  }

  lemma TickIsLate(b: Bracket, t: World, bytes: seq<byte>)
    requires Torn(b, t)
    ensures Late(b, Stepped(t, b.rate, Advance(bytes)), |t.v.log|)
  {
    hide Polled, Due, First, Taken, NeedsRepoll, Encoded, Blocked;
    var l := t.v.link;
    PollLogs(t.v.(link := l.(rx := l.rx + Taken(l, bytes))), b.rate, t.now + 1);
    assert !Stalls(l, t.now);
  }

  lemma {:induction false} DueGrows(b: Bracket, j: nat, k: nat)
    requires ValidBracket(b) && j <= k <= |b.cs|
    ensures Due(b, j) <= Due(b, k)
    decreases k
  {
    hide Due, Left, Ticks;
    if j < k {
      DueGrows(b, j, k - 1);
      TicksToNext(b, k - 1);
    }
  }

  lemma LateIsOff(b: Bracket, r: World, k: nat)
    requires ValidBracket(b) && k < |b.cs| && Late(b, r, k)
    ensures !OnSchedule(b, r)
  {
    hide Due;
    if k >= |r.v.log| && |r.v.log| <= |b.cs| {
      DueGrows(b, |r.v.log|, k);
    }
  }

  lemma OnTimeIsOnSchedule(b: Bracket, w: World)
    requires OnTime(b, w) && Open(b, |w.v.log|)
    ensures OnSchedule(b, w)
  {
    hide Due;
  }

  /** In whatever pieces the bytes of a bracket come, and whenever: each command takes effect at the tick that all the time
      before it makes, rounded down once, so that nothing drifts over any length, exactly if the oscillator never moves on
      with only part of a command that is due. For one of which nothing has come it stops. */
  lemma NothingDrifts(b: Bracket, w: World, actions: seq<Action>)
    requires var r := Run(w, b.rate, actions);
      Begun(b, w) && r.arrived <= EncodedAll(b.cs) && (|r.v.log| <= |b.cs| ==> Open(b, |r.v.log|))
    ensures OnSchedule(b, Run(w, b.rate, actions)) <==> NeverTorn(b, w, actions)
  {
    hide OnSchedule, Run, Due, EncodedAll, Torn, Open;
    if NeverTorn(b, w, actions) {
      RunKeepsOnTime(b, w, actions);
      OnTimeIsOnSchedule(b, Run(w, b.rate, actions));
    } else {
      var i :| 0 <= i < |actions| && actions[i].Advance? && Torn(b, Run(w, b.rate, actions[..i]));
      TornIsLate(b, w, actions, i);
    }
  }

  /** In a bracket on time so far, the next tick passes the due tick of the next command exactly when part of it is there,
      and not all, at that tick. */
  lemma TickPassesDue(b: Bracket, w: World, actions: seq<Action>, bytes: seq<byte>)
    requires Begun(b, w) && NeverTorn(b, w, actions)
    requires var r := Run(w, b.rate, actions);
      r.arrived <= EncodedAll(b.cs) && (|r.v.log| <= |b.cs| ==> Open(b, |r.v.log|))
    ensures var r := Run(w, b.rate, actions);
      && |r.v.log| <= |b.cs| && r.now <= Due(b, |r.v.log|)
      && (Stepped(r, b.rate, Advance(bytes)).now > Due(b, |r.v.log|) <==> Torn(b, r))
  {
    hide Due, Torn, Run, Open, EncodedAll, Stepped, Caught;
    RunKeepsOnTime(b, w, actions);
    PassesDueWhenTorn(b, Run(w, b.rate, actions), bytes);
  }

  // ---- The line and the reset ----

  /** The line's level after some commands: the last LOW's or HIGH's, or what it was before them all. */
  function LevelOf(before: Option<bool>, log: seq<Entry>): Option<bool> {
    if log == [] then before
    else
      var c := log[|log| - 1].command;
      if c.Low? then Some(false) else if c.High? then Some(true) else LevelOf(before, log[..|log| - 1])
  }

  /** Whether the reset is on after some commands. */
  function ResetOf(before: bool, log: seq<Entry>): bool {
    if log == [] then before
    else
      var c := log[|log| - 1].command;
      if c == ResetOn then true else if c == ResetOff then false else ResetOf(before, log[..|log| - 1])
  }

  /** In a bracket after the last TX_START, out of it after the last TX_END. */
  function BracketOf(before: bool, log: seq<Entry>): bool {
    if log == [] then before
    else
      var c := log[|log| - 1].command;
      if c.TxStart? then true else if c.TxEnd? then false else BracketOf(before, log[..|log| - 1])
  }

  /** The line, the reset and, while the client is there, the bracket are as the commands so far leave them. */
  ghost predicate Driven(before: Link, v: Live) {
    && v.link.level == LevelOf(before.level, v.log) && v.link.reset == ResetOf(before.reset, v.log)
    && (v.link.client ==> v.link.inTx == BracketOf(before.inTx, v.log))
  }

  lemma NextDriven(before: Link, v: Live, rate: real, c: Command, now: nat, rx: seq<byte>)
    requires Driven(before, v)
    ensures Driven(before, Live(Applied(v.link.(rx := rx), rate, c, now), v.log + [Entry(c, now)]))
  {
    hide Ticks;
    assert (v.log + [Entry(c, now)])[..|v.log|] == v.log;
  }

  lemma {:induction false} PollDriven(before: Link, v: Live, rate: real, now: nat)
    requires Driven(before, v)
    ensures Driven(before, Polled(v, rate, now))
    decreases |v.link.rx|
  {
    hide Applied, First, Driven;
    var l := v.link;
    if l.rx != [] && !Blocked(l, now) {
      match First(l.rx) {
        case Got(c, length) =>
          NextDriven(before, v, rate, c, now, l.rx[length..]);
          PollDriven(before, Live(Applied(l.(rx := l.rx[length..]), rate, c, now), v.log + [Entry(c, now)]), rate, now);
        case Unknown => DropDriven(before, v);
        case Partial =>
      }
    }
  }

  lemma DropDriven(before: Link, v: Live)
    requires Driven(before, v)
    ensures Driven(before, v.(link := Dropped(v.link)))
  {
  }

  lemma ServicedDriven(before: Link, w: World, rate: real, bytes: seq<byte>)
    requires Driven(before, w.v)
    ensures Driven(before, Serviced(w, rate, bytes).v)
  {
    hide Polled;
    var l := w.v.link;
    PollDriven(before, w.v.(link := l.(rx := l.rx + Taken(l, bytes))), rate, w.now);
  }

  /** Whatever bytes come and whenever, the line is at the level of the last LOW or HIGH that took effect, and the reset
      as the last command for it says. */
  lemma {:induction false} RunDrives(w: World, rate: real, actions: seq<Action>)
    requires w.v.log == []
    ensures Driven(w.v.link, Run(w, rate, actions).v)
  {
    hide Serviced, Driven, Polled;
    if actions == [] {
      NothingDriven(w.v);
      PollDriven(w.v.link, w.v, rate, w.now);
    } else {
      var n := |actions| - 1;
      var t := Run(w, rate, actions[..n]);
      RunDrives(w, rate, actions[..n]);
      ServicedDriven(w.v.link, t, rate, actions[n].bytes);
      ServicedDriven(w.v.link, t.(now := t.now + 1), rate, actions[n].bytes);
    }
  }

  /** What comes in is all the bytes if they fit the buffer's 4096, or else as many as fill it. */
  lemma BufferTakes(l: Link, bytes: seq<byte>)
    requires |l.rx| <= 4096
    ensures var t := Taken(l, bytes); t == bytes[..|t|]
    ensures if |l.rx| + |bytes| <= 4096 then Taken(l, bytes) == bytes else |l.rx + Taken(l, bytes)| == 4096
  {
  }

  /** A byte that is no opcode drops the client: whatever it sends after has no effect, and the oscillator never waits for it
      again. */
  lemma {:induction false} UnknownDrops(w: World, rate: real, actions: seq<Action>)
    requires var l := w.v.link; l.client && l.rx != [] && !Blocked(l, w.now)
    requires w.v.link.rx[0] !in {0x01, 0x02, 0x03, 0x10, 0x11, 0x20, 0x30, 0x31}
    ensures var r := Run(w, rate, actions);
      && r.v == w.v.(link := w.v.link.(client := false, rx := [], inTx := false, unblock := None))
      && r.now == w.now + Advances(actions) && r.arrived == w.arrived
  {
    if actions != [] {
      UnknownDrops(w, rate, actions[..|actions| - 1]);
    }
  }

  function Advances(actions: seq<Action>): nat {
    if actions == [] then 0 else Advances(actions[..|actions| - 1]) + if actions[|actions| - 1].Advance? then 1 else 0
  }

  lemma NothingDriven(v: Live)
    requires v.log == []
    ensures Driven(v.link, v)
  {
  }

  /** No command is recorded later than now. */
  predicate AllPast(w: World) {
    forall i :: 0 <= i < |w.v.log| ==> w.v.log[i].at <= w.now
  }

  lemma {:induction false} LogIsPast(w: World, rate: real, actions: seq<Action>)
    requires w.v.log == []
    ensures AllPast(Run(w, rate, actions))
  {
    hide Polled;
    if actions == [] {
      PollLogs(w.v, rate, w.now);
    } else {
      LogIsPast(w, rate, actions[..|actions| - 1]);
      StepIsPast(Run(w, rate, actions[..|actions| - 1]), rate, actions[|actions| - 1]);
    }
  }

  lemma StepIsPast(t: World, rate: real, a: Action)
    requires AllPast(t)
    ensures AllPast(Stepped(t, rate, a))
  {
    hide Polled;
    var v, r := t.v.(link := t.v.link.(rx := t.v.link.rx + Taken(t.v.link, a.bytes))), Stepped(t, rate, a);
    PollLogs(v, rate, t.now);
    PollLogs(v, rate, t.now + 1);
    forall i | 0 <= i < |r.v.log| ensures r.v.log[i].at <= r.now {
      if i < |t.v.log| {
        assert r.v.log[i] == t.v.log[i];
      }
    }
  }

  lemma LogGrows(w: World, rate: real, actions: seq<Action>)
    requires actions != []
    ensures Run(w, rate, actions[..|actions| - 1]).v.log <= Run(w, rate, actions).v.log
  {
    hide Polled;
    var n := |actions| - 1;
    var t := Run(w, rate, actions[..n]);
    var v := t.v.(link := t.v.link.(rx := t.v.link.rx + Taken(t.v.link, actions[n].bytes)));
    PollLogs(v, rate, t.now);
    PollLogs(v, rate, t.now + 1);
  }

  // ---- A command in two pieces ----

  const EXAMPLE := Bracket(0, 1.0, 0.0, [High(1), Low(1)])

  /** All of the first command and n bytes of the second; two ticks, unless they stall; then the second one's rest. */
  function Pieces(n: nat): seq<Action>
    requires n < 9
  {
    [Service(Encoded(High(1)) + Encoded(Low(1))[..n]), Advance([]), Advance([]), Service(Encoded(Low(1))[n..])]
  }

  const NEW := World(Live(Link(true, [], None, 0.0, true, None, false), []), 0, [])

  /** The first command under way, rx received after it. */
  function FirstRuns(rx: seq<byte>): Live {
    Live(Link(true, rx, Some(1), 0.0, true, Some(true), false), [Entry(High(1), 0)])
  }

  lemma FirstTaken(rx: seq<byte>)
    ensures Polled(NEW.v.(link := NEW.v.link.(rx := Encoded(High(1)) + rx)), 1.0, 0) == FirstRuns(rx)
  {
    CommandParsed(High(1), rx);
    assert (Encoded(High(1)) + rx)[9..] == rx;
  }

  lemma SecondTaken(at: nat)
    requires at >= 1
    ensures Polled(FirstRuns(Encoded(Low(1))), 1.0, at).log == [Entry(High(1), 0), Entry(Low(1), at)]
  {
    CommandParsed(Low(1), []);
    assert Encoded(Low(1)) + [] == Encoded(Low(1)) && Encoded(Low(1))[9..] == [];
  }

  lemma RunMore(w: World, rate: real, actions: seq<Action>, a: Action)
    ensures Run(w, rate, actions + [a]) == Stepped(Run(w, rate, actions), rate, a)
  {
    assert (actions + [a])[..|actions|] == actions;
  }

  lemma RunFour(p: seq<Action>)
    requires |p| == 4
    ensures Run(NEW, 1.0, p) == Stepped(Stepped(Stepped(Stepped(NEW, 1.0, p[0]), 1.0, p[1]), 1.0, p[2]), 1.0, p[3])
  {
    hide Stepped;
    assert Run(NEW, 1.0, []) == NEW;
    RunMore(NEW, 1.0, [], p[0]);
    RunMore(NEW, 1.0, [p[0]], p[1]);
    RunMore(NEW, 1.0, [p[0], p[1]], p[2]);
    RunMore(NEW, 1.0, [p[0], p[1], p[2]], p[3]);
    assert [] + [p[0]] == [p[0]] && [p[0]] + [p[1]] == [p[0], p[1]] && [p[0], p[1]] + [p[2]] == [p[0], p[1], p[2]];
    assert [p[0], p[1], p[2]] + [p[3]] == p;
  }

  lemma PartWaits(rx: seq<byte>, at: nat)
    requires rx < Encoded(Low(1)) && at >= 1
    ensures Polled(FirstRuns(rx), 1.0, at) == FirstRuns(rx)
  {
  }

  lemma FirstStep(n: nat)
    requires n < 9
    ensures var rx := Encoded(Low(1))[..n];
      Stepped(NEW, 1.0, Pieces(n)[0]) == World(FirstRuns(rx), 0, Encoded(High(1)) + rx)
  {
    hide Encoded, Polled;
    var rx := Encoded(Low(1))[..n];
    FirstTaken(rx);
    assert Taken(NEW.v.link, Encoded(High(1)) + rx) == Encoded(High(1)) + rx;
    assert [] + (Encoded(High(1)) + rx) == Encoded(High(1)) + rx;
  }

  lemma LastStep(n: nat, now: nat)
    requires n < 9 && now >= 1
    ensures var l := Encoded(Low(1));
      var r := Stepped(World(FirstRuns(l[..n]), now, Encoded(High(1)) + l[..n]), 1.0, Service(l[n..]));
      r.v.log == [Entry(High(1), 0), Entry(Low(1), now)] && r.arrived == Encoded(High(1)) + l
  {
    hide Encoded, Polled;
    var l := Encoded(Low(1));
    assert Taken(FirstRuns(l[..n]).link, l[n..]) == l[n..] && l[..n] + l[n..] == l;
    assert Encoded(High(1)) + l[..n] + l[n..] == Encoded(High(1)) + l;
    SecondTaken(now);
  }

  lemma Idle(w: World, a: Action)
    requires a.bytes == [] && w.v.link.client
    ensures Stepped(w, 1.0, a) ==
      if a.Service? then w.(v := Polled(w.v, 1.0, w.now))
      else if Stalls(w.v.link, w.now) then w
      else if NeedsRepoll(w.v.link, w.now + 1) then World(Polled(w.v, 1.0, w.now + 1), w.now + 1, w.arrived)
      else w.(now := w.now + 1)
  {
    assert w.v.link.rx + [] == w.v.link.rx;
  }

  lemma BothEncoded()
    ensures EncodedAll(EXAMPLE.cs) == Encoded(High(1)) + Encoded(Low(1))
  {
    assert EXAMPLE.cs[1..] == [Low(1)] && [Low(1)][1..] == [];
    assert EncodedAll([Low(1)]) == Encoded(Low(1)) + [];
  }

  /** Due at tick 1, the second command takes effect then though nothing of it has come before: the oscillator waits. With
      part of it there, the oscillator moves on and the command is late. */
  lemma SplitIsLate(n: nat)
    requires n < 9
    ensures Begun(EXAMPLE, NEW) && Run(NEW, 1.0, Pieces(n)).arrived == EncodedAll(EXAMPLE.cs)
    ensures Run(NEW, 1.0, Pieces(n)).v.log == [Entry(High(1), 0), Entry(Low(1), if n == 0 then 1 else 2)]
    ensures Due(EXAMPLE, 1) == 1
  {
    hide Encoded, Polled, Stepped;
    var l, p := Encoded(Low(1)), Pieces(n);
    RunFour(p);
    FirstStep(n);
    BothEncoded();
    var w := World(FirstRuns(l[..n]), 0, Encoded(High(1)) + l[..n]);
    Idle(w, p[1]);
    PartWaits(l[..n], 1);
    PartWaits(l[..n], 2);
    Idle(w.(now := 1), p[2]);
    LastStep(n, if n == 0 then 1 else 2);
  }

  // ---- The link as it runs ----

  class Device {
    const oscPerNs: real
    const rx: array<byte>
    var rxLen: nat
    var client: bool
    var unblockAt: nat
    var hasUnblock: bool
    var tickResidue: real
    var inTx: bool
    var cb2: Option<bool>
    var reset: bool
    ghost var log: seq<Entry>

    ghost predicate Valid()
      reads this
    {
      rx.Length == RX_SIZE && rxLen <= RX_SIZE
    }

    ghost function State(): Live
      requires Valid()
      reads this, rx
    {
      Live(Link(client, rx[..rxLen], if hasUnblock then Some(unblockAt) else None, tickResidue, inTx, cb2, reset), log)
    }

    constructor (rate: real)
      requires rate > 0.0
      ensures Valid() && fresh(rx) && oscPerNs == rate
      ensures State() == Live(Link(false, [], None, 0.0, false, None, false), [])
    {
      oscPerNs := rate;
      rx := new byte[RX_SIZE](_ => 0);
      rxLen, client, unblockAt, hasUnblock, tickResidue, inTx, cb2, reset := 0, false, 0, false, 0.0, false, None, false;
      log := [];
    }

    method NsToOsc(ns: nat) returns (whole: int)
      modifies this`tickResidue
      ensures (tickResidue, whole) == Ticks(oscPerNs, old(tickResidue), ns)
    {
      var exact := ns as real * oscPerNs + tickResidue;
      whole := exact.Floor;
      tickResidue := exact - whole as real;
    }

    method Wait(ns: nat, now: nat)
      requires Valid()
      modifies this`tickResidue, this`unblockAt, this`hasUnblock
      ensures Valid() && State() == old(State()).(link := Waited(old(State()).link, oscPerNs, ns, now))
    {
      var whole := NsToOsc(ns);
      unblockAt := Max(0, now + whole);
      hasUnblock := true;
    }

    /** Bytes received after those there are, as many as there is room for. */
    method Receive(bytes: seq<byte>)
      requires Valid()
      modifies this`rxLen, rx
      ensures Valid() && var l := old(State()).link; State() == old(State()).(link := l.(rx := l.rx + Taken(l, bytes)))
    {
      var n := Min(|bytes|, RX_SIZE - rxLen);
      forall i | 0 <= i < n {
        rx[rxLen + i] := bytes[i];
      }
      rxLen := rxLen + n;
      assert rx[..rxLen] == old(rx[..rxLen]) + bytes[..n];
    }

    /** The first bytes of the buffer gone, and the others moved to its start. */
    method Consume(length: nat)
      requires Valid() && length <= rxLen
      modifies this`rxLen, rx
      ensures Valid() && var l := old(State()).link; State() == old(State()).(link := l.(rx := l.rx[length..]))
    {
      forall i | 0 <= i < rxLen - length {
        rx[i] := rx[i + length];
      }
      rxLen := rxLen - length;
    }

    method ApplyOne(c: Command, length: nat, now: nat)
      requires Valid() && length <= rxLen
      modifies this, rx
      ensures Valid() && var l := old(State()).link;
        State() == Live(Applied(l.(rx := l.rx[length..]), oscPerNs, c, now), old(log) + [Entry(c, now)])
    {
      hide Ticks;
      Consume(length);
      log := log + [Entry(c, now)];
      match c {
        case Low(ns) =>
          cb2 := Some(false);
          Wait(ns, now);
        case High(ns) =>
          cb2 := Some(true);
          Wait(ns, now);
        case Delay(ns) => Wait(ns, now);
        case ResetOn => reset := true;
        case ResetOff => reset := false;
        case Ping =>
        case TxStart => inTx := true;
        case TxEnd => inTx := false;
      }
    }

    /** What has come in, and then as many commands as are due. */
    method Poll(bytes: seq<byte>, now: nat)
      requires Valid()
      modifies this, rx
      ensures Valid() && State() == PolledWith(old(State()), oscPerNs, bytes, now)
    {
      hide First, Applied, Taken;
      if !client {
        return;
      }
      Receive(bytes);
      ghost var whole := Polled(State(), oscPerNs, now);
      while rxLen > 0 && !(hasUnblock && now < unblockAt)
        invariant Valid() && Polled(State(), oscPerNs, now) == whole
        decreases rxLen
      {
        match First(rx[..rxLen]) {
          case Partial => return;
          case Unknown =>
            client, rxLen, inTx, hasUnblock := false, 0, false, false;
            return;
          case Got(c, length) => ApplyOne(c, length, now);
        }
      }
    }

    method ShouldStall(now: nat) returns (stall: bool)
      requires Valid()
      ensures stall == Stalls(State().link, now)
    {
      stall := client && inTx && !(hasUnblock && now < unblockAt) && rxLen == 0;
    }

    method RepollNeeded(now: nat) returns (needed: bool)
      requires Valid()
      ensures needed == NeedsRepoll(State().link, now)
    {
      needed := client && inTx && hasUnblock && now >= unblockAt;
    }
  }
}
