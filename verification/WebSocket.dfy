/** Frames from a WebSocket client, as section 5.2 of RFC 6455 has them: parsed once they are whole, and unmasked in place. */
module WebSocket {
  import opened Words

  const LONGEST := 8192
  const TEXT := 1
  const CLOSE := 8
  const PING := 9
  const PONG := 10

  /** The exclusive or of the low n bits. */
  function XorBits(a: nat, b: nat, n: nat): (r: nat)
    ensures r < Power2(n)
    decreases n
  {
    if n == 0 then 0 else (a % 2 + b % 2) % 2 + 2 * XorBits(a / 2, b / 2, n - 1)
  }

  function Xor(a: byte, b: byte): byte {
    Power8();
    XorBits(a, b, 8)
  }

  lemma Power8()
    ensures Power2(8) == 0x100
  {
    assert Power2(4) == 16;
  }

  lemma Halves(bit: nat, x: nat)
    requires bit < 2
    ensures (bit + 2 * x) / 2 == x && (bit + 2 * x) % 2 == bit
  {
  }

  lemma Parity(p: nat, q: nat)
    ensures ((p % 2 + q % 2) % 2 + q % 2) % 2 == p % 2
  {
  }

  /** The lowest bit, and the rest. */
  lemma XorStep(a: nat, b: nat, n: nat)
    requires n > 0
    ensures var x := XorBits(a / 2, b / 2, n - 1);
      XorBits(XorBits(a, b, n), b, n) == a % 2 + 2 * XorBits(x, b / 2, n - 1)
  {
    Halves((a % 2 + b % 2) % 2, XorBits(a / 2, b / 2, n - 1));
    Parity(a, b);
  }

  lemma {:induction false} XorBitsUndone(a: nat, b: nat, n: nat)
    requires a < Power2(n)
    ensures XorBits(XorBits(a, b, n), b, n) == a
    decreases n
  {
    if n > 0 {
      hide XorBits;
      XorStep(a, b, n);
      XorBitsUndone(a / 2, b / 2, n - 1);
    }
  }

  lemma XorUndone(a: byte, b: byte)
    ensures Xor(Xor(a, b), b) == a
  {
    Power8();
    XorBitsUndone(a, b, 8);
  }

  type Mask = m: seq<byte> | |m| == 4 witness [0, 0, 0, 0]

  function Masked(p: seq<byte>, mask: Mask): (r: seq<byte>)
    ensures |r| == |p|
  {
    seq(|p|, i requires 0 <= i < |p| => Xor(p[i], mask[i % 4]))
  }

  lemma MaskedTwice(p: seq<byte>, mask: Mask)
    ensures Masked(Masked(p, mask), mask) == p
  {
    forall i | 0 <= i < |p| ensures Masked(Masked(p, mask), mask)[i] == p[i] {
      XorUndone(p[i], mask[i % 4]);
    }
  }

  // ---- Parsing ----

  /** More bytes are needed; a frame with its length, and its text if it has any; or the client is to go. */
  datatype Frame = More | Text(payload: seq<byte>, length: nat) | Ping(length: nat) | Ignored(length: nat) | Refused

  /** A length of 126 is in the two bytes after. */
  function HeaderLength(b: seq<byte>): nat
    requires |b| >= 2
  {
    if b[1] % 0x80 == 126 then 4 else 2
  }

  function PayloadLength(b: seq<byte>): nat
    requires |b| >= 2 && |b| >= HeaderLength(b)
  {
    if b[1] % 0x80 == 126 then b[2] as int * 0x100 + b[3] as int else b[1] % 0x80
  }

  function Opened(opcode: nat, payload: seq<byte>, length: nat): Frame {
    if opcode == CLOSE then Refused
    else if opcode == PING then Ping(length)
    else if opcode == PONG then Ignored(length)
    else if opcode != TEXT then Refused
    else Text(payload, length)
  }

  function Parsed(b: seq<byte>): (f: Frame)
    ensures f.Text? || f.Ping? || f.Ignored? ==> 0 < f.length <= |b|
  {
    if |b| < 2 then More
    else if b[1] % 0x80 == 126 && |b| < 4 then More
    else if b[1] % 0x80 == 127 || b[1] < 0x80 then Refused
    else
      var at, n := HeaderLength(b) + 4, PayloadLength(b);
      if |b| < at + n then More
      else if n > LONGEST then Refused
      else Opened(b[0] % 16, Masked(b[at..at + n], b[at - 4..at]), at + n)
  }

  // ---- A client ----

  /** What a client sends: the first byte, with the opcode, and a payload. */
  datatype Message = Message(head: byte, payload: seq<byte>, mask: Mask)

  type Sent = m: Message | |m.payload| < 0x1_0000 witness Message(0x81, [], [0, 0, 0, 0])

  /** A message as a client frames it. */
  function FrameOf(m: Sent): (f: seq<byte>) {
    var n := |m.payload|;
    [m.head] + (if n < 126 then [0x80 + n] else [0x80 + 126, n / 0x100, n % 0x100]) + m.mask + Masked(m.payload, m.mask)
  }

  lemma FrameParts(m: Sent, rest: seq<byte>)
    ensures var b, at := FrameOf(m) + rest, if |m.payload| < 126 then 6 else 8;
      && |FrameOf(m)| == at + |m.payload| && b[0] == m.head && b[1] >= 0x80 && b[1] % 0x80 != 127
      && HeaderLength(b) == at - 4 && PayloadLength(b) == |m.payload|
      && b[at - 4..at] == m.mask && b[at..at + |m.payload|] == Masked(m.payload, m.mask)
  {
  }

  /** A client's text comes through, whatever its mask and whatever follows it; its pings and pongs are passed over; and
      what else it sends is refused. */
  lemma MessageComesThrough(m: Sent, rest: seq<byte>)
    requires |m.payload| <= LONGEST
    ensures var r, n := Parsed(FrameOf(m) + rest), |FrameOf(m)|;
      && (m.head % 16 == 1 ==> r == Text(m.payload, n))
      && (m.head % 16 == 9 ==> r == Ping(n))
      && (m.head % 16 == 10 ==> r == Ignored(n))
      && (m.head % 16 !in {1, 9, 10} ==> r == Refused)
  {
    hide FrameOf, HeaderLength, PayloadLength, Masked;
    FrameParts(m, rest);
    MaskedTwice(m.payload, m.mask);
  }

  /** Until the last of its bytes has come, there is more to wait for, and nothing is unmasked. */
  lemma PartIsMore(m: Sent, n: nat)
    requires n < |FrameOf(m)|
    ensures Parsed(FrameOf(m)[..n]) == More
  {
    hide Masked;
    FrameParts(m, []);
    var f := FrameOf(m);
    assert f + [] == f;
    if n >= 4 {
      assert f[..n][0] == f[0] && f[..n][1] == f[1] && f[..n][2] == f[2] && f[..n][3] == f[3];
    } else if n >= 2 {
      assert f[..n][1] == f[1];
    }
  }

  /** A frame that is not masked is refused, and so is one with a length of eight bytes. */
  lemma UnmaskedRefused(b: seq<byte>)
    requires |b| >= 2 && (b[1] < 0x80 || b[1] == 0xFF) && (b[1] == 126 ==> |b| >= 4)
    ensures Parsed(b) == Refused
  {
  }

  // ---- A connection ----

  /** What has come and is not parsed yet, whether the client is there, and the texts it sent. */
  datatype Session = Session(inbuf: seq<byte>, open: bool, texts: seq<seq<byte>>)

  function Closed(s: Session): Session {
    s.(inbuf := [], open := false)
  }

  /** The frames in the buffer, one after another. */
  function Emptied(s: Session): (r: Session)
    decreases |s.inbuf|
  {
    if !s.open || s.inbuf == [] then s
    else
      match Parsed(s.inbuf)
      case More => s
      case Refused => Closed(s)
      case Text(payload, n) => Emptied(Session(s.inbuf[n..], true, s.texts + [payload]))
      case Ping(n) => Emptied(s.(inbuf := s.inbuf[n..]))
      case Ignored(n) => Emptied(s.(inbuf := s.inbuf[n..]))
  }

  /** Bytes received, no more than the buffer has room for; a client that fills it is closed. */
  function WithBytes(s: Session, bytes: seq<byte>): Session {
    if !s.open then s
    else if |s.inbuf| >= LONGEST then Closed(s)
    else Emptied(s.(inbuf := s.inbuf + bytes[..Min(|bytes|, LONGEST - |s.inbuf|)]))
  }

  /** A client's connection, and the bytes it sent that have not been received. */
  datatype Wire = Wire(session: Session, left: seq<byte>)

  /** Some of the bytes received: at most n. */
  function Received(w: Wire, n: nat): Wire {
    var s := w.session;
    var got := if !s.open || |s.inbuf| >= LONGEST then 0 else Min(Min(n, |w.left|), LONGEST - |s.inbuf|);
    Wire(WithBytes(s, w.left[..got]), w.left[got..])
  }

  function Run(w: Wire, counts: seq<nat>): Wire {
    if counts == [] then w else Received(Run(w, counts[..|counts| - 1]), counts[|counts| - 1])
  }

  /** A message whose frame the buffer holds. */
  predicate Fits(m: Sent) {
    |m.payload| <= LONGEST - 8
  }

  function Frames(ms: seq<Sent>): seq<byte> {
    if ms == [] then [] else FrameOf(ms[0]) + Frames(ms[1..])
  }

  /** The texts among the messages. */
  function Texts(ms: seq<Sent>): seq<seq<byte>> {
    if ms == [] then [] else (if ms[0].head % 16 == 1 then [ms[0].payload] else []) + Texts(ms[1..])
  }

  /** Texts, pings and pongs whose frames the buffer holds. */
  ghost predicate AllFit(ms: seq<Sent>) {
    forall i :: 0 <= i < |ms| ==> Fits(ms[i]) && ms[i].head % 16 in {1, 9, 10}
  }

  /** The first k messages have come through, their texts as they were sent; what is received and what is not are the
      frames of the others, the next not all there. */
  ghost predicate Through(ms: seq<Sent>, w: Wire, k: nat) {
    && w.session.open && k <= |ms| && w.session.texts == Texts(ms[..k])
    && w.session.inbuf + w.left == Frames(ms[k..])
  }

  ghost predicate Partial(ms: seq<Sent>, s: Session, k: nat) {
    s.inbuf != [] ==> k < |ms| && |s.inbuf| < |FrameOf(ms[k])|
  }

  lemma {:induction false} TextsJoined(a: seq<Sent>, b: seq<Sent>)
    ensures Texts(a + b) == Texts(a) + Texts(b)
    decreases |a|
  {
    if a == [] {
      assert a + b == b;
    } else {
      TextsJoined(a[1..], b);
      assert (a + b)[1..] == a[1..] + b;
    }
  }

  lemma OneMore(ms: seq<Sent>, k: nat)
    requires k < |ms|
    ensures Texts(ms[..k + 1]) == Texts(ms[..k]) + if ms[k].head % 16 == 1 then [ms[k].payload] else []
  {
    TextsJoined(ms[..k], [ms[k]]);
    assert ms[..k + 1] == ms[..k] + [ms[k]];
  }

  /** The next frame is all there, or part of it is. */
  lemma NextFrame(ms: seq<Sent>, w: Wire, k: nat)
    requires AllFit(ms) && Through(ms, w, k) && w.session.inbuf != []
    ensures k < |ms|
    ensures var f, inbuf := FrameOf(ms[k]), w.session.inbuf;
      && 0 < |f| <= LONGEST
      && if |inbuf| < |f| then inbuf == f[..|inbuf|]
         else inbuf == f + inbuf[|f|..] && inbuf[|f|..] + w.left == Frames(ms[k + 1..])
  {
    hide FrameOf, Masked, Texts;
    FrameParts(ms[k], []);
    assert ms[k..][1..] == ms[k + 1..];
    Split(w.session.inbuf, w.left, FrameOf(ms[k]), Frames(ms[k + 1..]));
  }

  lemma Split(a: seq<byte>, b: seq<byte>, c: seq<byte>, d: seq<byte>)
    requires a + b == c + d
    ensures if |a| < |c| then a == c[..|a|] else a == c + a[|c|..] && a[|c|..] + b == d
  {
    var all := a + b;
    assert a == all[..|a|] && c == all[..|c|] && d == all[|c|..];
    if |a| >= |c| {
      assert a[..|c|] == c;
    }
  }

  lemma {:induction false} EmptiedThrough(ms: seq<Sent>, w: Wire, k: nat) returns (n: nat)
    requires AllFit(ms) && Through(ms, w, k)
    ensures var r := w.(session := Emptied(w.session)); Through(ms, r, n) && Partial(ms, r.session, n)
    decreases |w.session.inbuf|
  {
    hide FrameOf, Parsed, Frames, Texts;
    var s := w.session;
    n := k;
    if s.inbuf != [] {
      NextFrame(ms, w, k);
      var m, f := ms[k], FrameOf(ms[k]);
      if |s.inbuf| < |f| {
        PartIsMore(m, |s.inbuf|);
      } else {
        MessageComesThrough(m, s.inbuf[|f|..]);
        OneMore(ms, k);
        var texts := if m.head % 16 == 1 then s.texts + [m.payload] else s.texts;
        assert texts == Texts(ms[..k + 1]);
        n := EmptiedThrough(ms, w.(session := Session(s.inbuf[|f|..], true, texts)), k + 1);
      }
    }
  }

  lemma Reads(w: Wire, n: nat)
    requires w.session.open && |w.session.inbuf| < LONGEST
    ensures var s := w.session;
      var got := Min(Min(n, |w.left|), LONGEST - |s.inbuf|);
      && Received(w, n) == Wire(Emptied(s.(inbuf := s.inbuf + w.left[..got])), w.left[got..])
      && s.inbuf + w.left[..got] + w.left[got..] == s.inbuf + w.left
  {
    hide Emptied;
    var got := Min(Min(n, |w.left|), LONGEST - |w.session.inbuf|);
    assert w.left[..got][..got] == w.left[..got];
  }

  lemma ReceivedThrough(ms: seq<Sent>, w: Wire, k: nat, n: nat) returns (j: nat)
    requires AllFit(ms) && Through(ms, w, k) && Partial(ms, w.session, k)
    ensures Through(ms, Received(w, n), j) && Partial(ms, Received(w, n).session, j)
  {
    hide FrameOf, Frames, Emptied, Texts;
    var s := w.session;
    if s.inbuf != [] {
      NextFrame(ms, w, k);
    }
    var got := Min(Min(n, |w.left|), LONGEST - |s.inbuf|);
    Reads(w, n);
    j := EmptiedThrough(ms, Wire(s.(inbuf := s.inbuf + w.left[..got]), w.left[got..]), k);
  }

  const NEW := Session([], true, [])

  lemma {:induction false} RunThrough(ms: seq<Sent>, counts: seq<nat>) returns (k: nat)
    requires AllFit(ms)
    ensures var w := Run(Wire(NEW, Frames(ms)), counts); Through(ms, w, k) && Partial(ms, w.session, k)
  {
    hide FrameOf, Received, Texts;
    if counts == [] {
      k := 0;
      assert ms[0..] == ms && [] + Frames(ms) == Frames(ms);
      NoTexts(ms);
    } else {
      var j := RunThrough(ms, counts[..|counts| - 1]);
      k := ReceivedThrough(ms, Run(Wire(NEW, Frames(ms)), counts[..|counts| - 1]), j, counts[|counts| - 1]);
    }
  }

  /** However a client's bytes are cut up as they are received, its texts come through one after another, whatever pings
      and pongs are between, and all of them once all its bytes have, if the frames are within the buffer. */
  lemma TextsComeThrough(ms: seq<Sent>, counts: seq<nat>)
    requires AllFit(ms)
    ensures var w := Run(Wire(NEW, Frames(ms)), counts);
      && (exists k: nat :: Through(ms, w, k) && Partial(ms, w.session, k))
      && (w.left == [] ==> w.session.texts == Texts(ms) && w.session.inbuf == [])
  {
    hide Through, Partial;
    var w := Run(Wire(NEW, Frames(ms)), counts);
    var k := RunThrough(ms, counts);
    if w.left == [] {
      SomeLeft(ms, w, k);
    }
  }

  lemma NoTexts(ms: seq<Sent>)
    ensures Texts(ms[..0]) == []
  {
  }

  lemma SomeLeft(ms: seq<Sent>, w: Wire, k: nat)
    requires AllFit(ms) && Through(ms, w, k) && Partial(ms, w.session, k) && w.left == []
    ensures w.session.texts == Texts(ms) && w.session.inbuf == []
  {
    hide FrameOf, Texts;
    assert w.session.inbuf + [] == w.session.inbuf;
    if k < |ms| {
      FrameParts(ms[k], []);
    }
    assert ms[..|ms|] == ms;
  }

  /** A frame the client is refused for closes it, once the texts before it have come through. */
  lemma RefusedCloses(s: Session, m: Sent, rest: seq<byte>)
    requires s.open && s.inbuf == FrameOf(m) + rest && |m.payload| <= LONGEST && m.head % 16 !in {1, 9, 10}
    ensures Emptied(s) == Session([], false, s.texts)
  {
    hide FrameOf, Parsed;
    FrameParts(m, rest);
    MessageComesThrough(m, rest);
  }

  /** A message's frame is within the buffer exactly if its payload is no longer than this. */
  lemma FrameFits(m: Sent)
    ensures |FrameOf(m)| <= 8192 <==> |m.payload| <= 8184
    ensures |FrameOf(m)| <= LONGEST <==> Fits(m)
    ensures Fits(m) <==> |m.payload| <= 8184
  {
  }

  /** Of a longer one nothing comes through: the buffer fills with part of it, and then the client is closed. */
  lemma {:induction false} LongTextCloses(m: Sent, rest: seq<byte>, counts: seq<nat>)
    requires !Fits(m)
    ensures var f := FrameOf(m);
      var w := Run(Wire(NEW, f + rest), counts);
      && w.session.texts == [] && w.session.inbuf <= f && |w.session.inbuf| <= LONGEST
      && (if w.session.open then w.session.inbuf + w.left == f + rest else w.session.inbuf == [])
      && (|w.session.inbuf| == LONGEST ==> Received(w, 0).session == Session([], false, []))
  {
    hide FrameOf, Masked, Emptied;
    var f := FrameOf(m);
    FrameParts(m, []);
    if counts == [] {
      assert [] + (f + rest) == f + rest;
    } else {
      var before, n := counts[..|counts| - 1], counts[|counts| - 1];
      LongTextCloses(m, rest, before);
      LongTextWaits(m, rest, Run(Wire(NEW, f + rest), before), n);
    }
  }

  lemma LongTextWaits(m: Sent, rest: seq<byte>, w: Wire, n: nat)
    requires !Fits(m)
    requires var f := FrameOf(m);
      && w.session.texts == [] && w.session.inbuf <= f && |w.session.inbuf| <= LONGEST
      && (if w.session.open then w.session.inbuf + w.left == f + rest else w.session.inbuf == [])
    ensures var f, r := FrameOf(m), Received(w, n);
      && r.session.texts == [] && r.session.inbuf <= f && |r.session.inbuf| <= LONGEST
      && (if r.session.open then r.session.inbuf + r.left == f + rest else r.session.inbuf == [])
  {
    hide FrameOf, Masked, Parsed;
    var f, s := FrameOf(m), w.session;
    FrameParts(m, []);
    if s.open && |s.inbuf| < LONGEST {
      var got := Min(Min(n, |w.left|), LONGEST - |s.inbuf|);
      var inbuf := s.inbuf + w.left[..got];
      Reads(w, n);
      Split(inbuf, w.left[got..], f, rest);
      PartIsMore(m, |inbuf|);
    }
  }

  lemma PrefixPart(s: seq<byte>, n: nat, i: nat, j: nat)
    requires i <= j <= n <= |s|
    ensures s[..n][i..j] == s[i..j]
  {
  }

  lemma SuffixPart(s: seq<byte>, t: seq<byte>, i: nat, j: nat)
    requires i <= j <= |s| == |t| && s[i..] == t[i..]
    ensures s[i..j] == t[i..j]
  {
    assert s[i..j] == s[i..][..j - i] && t[i..j] == t[i..][..j - i];
  }

  // ---- As it runs ----

  class Client {
    const inbuf: array<byte>
    var inlen: nat
    var open: bool
    ghost var texts: seq<seq<byte>>   // what it sent

    ghost predicate Valid()
      reads this
    {
      inbuf.Length == LONGEST && inlen <= LONGEST
    }

    ghost function State(): Session
      requires Valid()
      reads this, inbuf
    {
      Session(inbuf[..inlen], open, texts)
    }

    constructor ()
      ensures Valid() && fresh(inbuf) && State() == NEW
    {
      inbuf := new byte[LONGEST](_ => 0);
      inlen, open, texts := 0, true, [];
    }

    method Unmask(at: nat, n: nat)
      requires 4 <= at && at + n <= inbuf.Length
      modifies inbuf
      ensures inbuf[at..at + n] == Masked(old(inbuf[at..at + n]), old(inbuf[at - 4..at]))
      ensures inbuf[..at] == old(inbuf[..at]) && inbuf[at + n..] == old(inbuf[at + n..])
    {
      hide Xor, XorBits;
      ghost var mask, goal := inbuf[at - 4..at], Masked(inbuf[at..at + n], inbuf[at - 4..at]);
      for i := 0 to n
        invariant inbuf[..at] == old(inbuf[..at]) && inbuf[at + n..] == old(inbuf[at + n..])
        invariant forall k :: at <= k < at + n ==>
          inbuf[k] == if k < at + i then Xor(old(inbuf[k]), mask[(k - at) % 4]) else old(inbuf[k])
      {
        assert inbuf[..at][at - 4 + i % 4] == inbuf[at - 4 + i % 4];
        inbuf[at + i] := Xor(inbuf[at + i], inbuf[at - 4 + i % 4]);
      }
      forall k | 0 <= k < n ensures inbuf[at..at + n][k] == goal[k] {
        assert inbuf[at + k] == Xor(old(inbuf[at + k]), mask[(at + k - at) % 4]);
      }
    }

    /** A frame, its text unmasked where it lies; with more to come the buffer stays as it is. */
    method ParseFrame() returns (frame: Frame)
      requires Valid()
      modifies inbuf
      ensures frame == Parsed(old(inbuf[..inlen]))
      ensures frame == More ==> inbuf[..] == old(inbuf[..])
      ensures frame.Text? ==>
        frame.length <= inlen && inbuf[frame.length - |frame.payload|..frame.length] == frame.payload
      ensures frame.Text? || frame.Ping? || frame.Ignored? ==>
        0 < frame.length <= inlen && inbuf[frame.length..inlen] == old(inbuf[frame.length..inlen])
    {
      hide Masked, Xor;
      ghost var b := inbuf[..inlen];
      if inlen < 2 {
        return More;
      }
      var n, header := inbuf[1] % 0x80, 2;
      if n == 126 {
        if inlen < 4 {
          return More;
        }
        n := inbuf[2] as int * 0x100 + inbuf[3] as int;
        header := 4;
      } else if n == 127 {
        return Refused;
      }
      if inbuf[1] < 0x80 {
        return Refused;
      }
      if inlen < header + 4 + n {
        return More;
      }
      var at, opcode := header + 4, inbuf[0] % 16;
      PrefixPart(inbuf[..], inlen, at, at + n);
      PrefixPart(inbuf[..], inlen, at - 4, at);
      ghost var whole := inbuf[..];
      Unmask(at, n);
      PrefixPart(whole, inlen, at + n, inlen);
      SuffixPart(inbuf[..], whole, at + n, inlen);
      frame := if opcode == CLOSE then Refused
        else if opcode == PING then Ping(at + n)
        else if opcode == PONG then Ignored(at + n)
        else if opcode != TEXT then Refused
        else Text(inbuf[at..at + n], at + n);
    }

    /** What follows a frame moved to the start of the buffer. */
    method Consume(length: nat)
      requires Valid() && length <= inlen
      modifies this`inlen, inbuf
      ensures Valid() && inbuf[..inlen] == old(inbuf[length..inlen])
    {
      forall i | 0 <= i < inlen - length {
        inbuf[i] := inbuf[i + length];
      }
      inlen := inlen - length;
    }

    /** Bytes received after those there are. */
    method Append(bytes: seq<byte>)
      requires Valid() && |bytes| <= LONGEST - inlen
      modifies this`inlen, inbuf
      ensures Valid() && inbuf[..inlen] == old(inbuf[..inlen]) + bytes
    {
      forall i | 0 <= i < |bytes| {
        inbuf[inlen + i] := bytes[i];
      }
      inlen := inlen + |bytes|;
    }

    /** Bytes received, and every frame that is then whole. */
    method ReadFrom(bytes: seq<byte>)
      requires Valid()
      modifies this, inbuf
      ensures Valid() && State() == WithBytes(old(State()), bytes)
    {
      hide Parsed, Masked, Xor;
      if !open {
        return;
      }
      if inlen >= LONGEST {
        open, inlen := false, 0;
        return;
      }
      Append(bytes[..Min(|bytes|, LONGEST - inlen)]);
      ghost var whole := Emptied(State());
      while open && inlen > 0
        invariant Valid() && Emptied(State()) == whole
        decreases open, inlen
      {
        var frame := ParseFrame();
        match frame {
          case More =>
            assert inbuf[..inlen] == inbuf[..][..inlen];
            return;
          case Refused => open, inlen := false, 0;
          case Text(payload, n) =>
            texts := texts + [payload];
            Consume(n);
          case Ping(n) => Consume(n);
          case Ignored(n) => Consume(n);
        }
      }
    }
  }
}
