/** SHA-1 a piece at a time, against the padded message of sections 4 and 6.1 of RFC 3174. */
module Sha1 {
  import opened Words

  const BLOCK := 64
  const LENGTHS := 0x1_0000_0000_0000_0000

  datatype Hash = Hash(a: bv32, b: bv32, c: bv32, d: bv32, e: bv32)

  type Block = s: seq<byte> | |s| == BLOCK witness seq(BLOCK, _ => 0)

  const INITIAL := Hash(0x67452301, 0xEFCDAB89, 0x98BADCFE, 0x10325476, 0xC3D2E1F0)

  // ---- One block ----

  function Rol(v: bv32, n: nat): bv32
    requires 0 < n < 32
  {
    (v << n) | (v >> (32 - n))
  }

  function Word32(a: byte, b: byte, c: byte, d: byte): bv32 {
    (a as bv32 << 24) | (b as bv32 << 16) | (c as bv32 << 8) | d as bv32
  }

  function Spread(a: bv32, b: bv32, c: bv32, d: bv32): bv32 {
    Rol(a ^ b ^ c ^ d, 1)
  }

  /** Word i of the eighty: the block's own sixteen, and the rest each from four before it. */
  function W(p: Block, i: nat): bv32
    requires i < 80
  {
    if i < 16 then Word32(p[4 * i], p[4 * i + 1], p[4 * i + 2], p[4 * i + 3])
    else Spread(W(p, i - 3), W(p, i - 8), W(p, i - 14), W(p, i - 16))
  }

  function F(i: nat, b: bv32, c: bv32, d: bv32): bv32 {
    if i < 20 then (b & c) | (!b & d)
    else if 40 <= i < 60 then (b & c) | (b & d) | (c & d)
    else b ^ c ^ d
  }

  function K(i: nat): bv32 {
    if i < 20 then 0x5A827999 else if i < 40 then 0x6ED9EBA1 else if i < 60 then 0x8F1BBCDC else 0xCA62C1D6
  }

  function Round(h: Hash, i: nat, w: bv32): Hash {
    Hash(Rol(h.a, 5) + F(i, h.b, h.c, h.d) + h.e + K(i) + w, h.a, Rol(h.b, 30), h.c, h.d)
  }

  function Rounds(h: Hash, p: Block, n: nat): Hash
    requires n <= 80
  {
    if n == 0 then h else Round(Rounds(h, p, n - 1), n - 1, W(p, n - 1))
  }

  function Sum(v: bv32, w: bv32): bv32 {
    v + w
  }

  function Plus(h: Hash, r: Hash): Hash {
    Hash(Sum(h.a, r.a), Sum(h.b, r.b), Sum(h.c, r.c), Sum(h.d, r.d), Sum(h.e, r.e))
  }

  function Compressed(h: Hash, p: Block): Hash {
    Plus(h, Rounds(h, p, 80))
  }

  // ---- A whole message ----

  /** The blocks of a message from the first, whatever is left over left out. */
  function Folded(h: Hash, m: seq<byte>): Hash
    decreases |m|
  {
    if |m| < BLOCK then h else Folded(Compressed(h, m[..BLOCK]), m[BLOCK..])
  }

  function Zeros(n: nat): seq<byte> {
    seq(n, _ => 0)
  }

  /** A length in bits as eight bytes, the high one first. */
  function LengthBytes(bits: nat): (b: seq<byte>)
    ensures |b| == 8
  {
    [bits / 0x100_0000_0000_0000 % 0x100, bits / 0x1_0000_0000_0000 % 0x100, bits / 0x100_0000_0000 % 0x100,
     bits / 0x1_0000_0000 % 0x100, bits / 0x100_0000 % 0x100, bits / 0x1_0000 % 0x100, bits / 0x100 % 0x100, bits % 0x100]
  }

  /** A one bit, zeros up to 8 bytes before the end of a block, and the length. */
  function Padded(m: seq<byte>): seq<byte> {
    m + [0x80] + Zeros((55 - |m|) % BLOCK) + LengthBytes(8 * |m| % LENGTHS)
  }

  lemma PaddedIsWhole(m: seq<byte>)
    ensures |Padded(m)| % BLOCK == 0
  {
  }

  function Digest(m: seq<byte>): Hash {
    Folded(INITIAL, Padded(m))
  }

  lemma {:induction false} FoldedJoined(h: Hash, a: seq<byte>, b: seq<byte>)
    requires |a| % BLOCK == 0
    ensures Folded(h, a + b) == Folded(Folded(h, a), b)
    decreases |a|
  {
    if a == [] {
      assert a + b == b;
    } else {
      assert (a + b)[..BLOCK] == a[..BLOCK] && (a + b)[BLOCK..] == a[BLOCK..] + b;
      FoldedJoined(Compressed(h, a[..BLOCK]), a[BLOCK..], b);
    }
  }

  // ---- A piece at a time ----

  /** The hash of the whole blocks so far, the length, and the bytes of the block under way. */
  datatype Context = Context(hash: Hash, len: nat, buf: seq<byte>)

  const FRESH := Context(INITIAL, 0, [])

  /** Bytes into the block, which is hashed when it is full. */
  function Fed(c: Context, data: seq<byte>): (r: Context)
    requires |c.buf| < BLOCK
    ensures |r.buf| < BLOCK
    decreases |data|
  {
    if data == [] then c
    else
      var take := Min(BLOCK - |c.buf|, |data|);
      var buf := c.buf + data[..take];
      Fed(if |buf| == BLOCK then c.(hash := Compressed(c.hash, buf), buf := []) else c.(buf := buf), data[take..])
  }

  function Updated(c: Context, data: seq<byte>): (r: Context)
    requires |c.buf| < BLOCK
    ensures |r.buf| < BLOCK
  {
    Fed(c.(len := (c.len + |data|) % LENGTHS), data)
  }

  /** The context has taken the message, and nothing else. */
  ghost predicate Absorbed(c: Context, m: seq<byte>) {
    var whole := |m| - |m| % BLOCK;
    c.hash == Folded(INITIAL, m[..whole]) && c.buf == m[whole..]
  }

  lemma {:induction false} FedAbsorbs(c: Context, m: seq<byte>, data: seq<byte>)
    requires Absorbed(c, m)
    ensures Absorbed(Fed(c, data), m + data) && Fed(c, data).len == c.len
    decreases |data|
  {
    hide Folded, Compressed;
    if data == [] {
      assert m + data == m;
    } else {
      var take := Min(BLOCK - |c.buf|, |data|);
      var buf := c.buf + data[..take];
      var next := if |buf| == BLOCK then c.(hash := Compressed(c.hash, buf), buf := []) else c.(buf := buf);
      PieceAbsorbed(c, m, data[..take]);
      FedAbsorbs(next, m + data[..take], data[take..]);
      assert m + data[..take] + data[take..] == m + data;
    }
  }

  /** A piece that goes no further than the end of the block. */
  lemma PieceAbsorbed(c: Context, m: seq<byte>, piece: seq<byte>)
    requires Absorbed(c, m) && |c.buf| + |piece| <= BLOCK
    ensures var buf := c.buf + piece;
      Absorbed(if |buf| == BLOCK then c.(hash := Compressed(c.hash, buf), buf := []) else c.(buf := buf), m + piece)
  {
    hide Folded, Compressed;
    var whole, buf, n := |m| - |m| % BLOCK, c.buf + piece, m + piece;
    assert n[..whole] == m[..whole] && n[whole..] == buf;
    if |buf| == BLOCK {
      BlockAbsorbed(m[..whole], buf);
      assert n == m[..whole] + buf && n[..|n|] == n && |n| % BLOCK == 0;
    } else {
      assert |n| - |n| % BLOCK == whole;
    }
  }

  lemma BlockAbsorbed(m: seq<byte>, b: Block)
    requires |m| % BLOCK == 0
    ensures Folded(INITIAL, m + b) == Compressed(Folded(INITIAL, m), b)
  {
    hide Compressed;
    FoldedJoined(INITIAL, m, b);
    assert b[..BLOCK] == b && b[BLOCK..] == [];
  }

  /** What a context has taken decides it. */
  lemma OneContext(c: Context, d: Context, m: seq<byte>)
    requires Absorbed(c, m) && Absorbed(d, m) && c.len == d.len
    ensures c == d
  {
  }

  lemma LengthsAdd(a: nat, b: nat, c: nat)
    ensures ((a + b) % LENGTHS + c) % LENGTHS == (a + (b + c)) % LENGTHS
  {
    var s := (a + b) % LENGTHS + c;
    ModUnique(a + (b + c), LENGTHS, (a + b) / LENGTHS + s / LENGTHS, s % LENGTHS);
  }

  /** Two updates are one with both pieces. */
  lemma UpdatesJoin(c: Context, m: seq<byte>, a: seq<byte>, b: seq<byte>)
    requires Absorbed(c, m)
    ensures Updated(Updated(c, a), b) == Updated(c, a + b)
  {
    hide Fed, Folded;
    FedAbsorbs(c.(len := (c.len + |a|) % LENGTHS), m, a);
    var d := Updated(c, a);
    FedAbsorbs(d.(len := (d.len + |b|) % LENGTHS), m + a, b);
    FedAbsorbs(c.(len := (c.len + |a + b|) % LENGTHS), m, a + b);
    assert m + a + b == m + (a + b);
    LengthsAdd(c.len, |a|, |b|);
    OneContext(Updated(d, b), Updated(c, a + b), m + (a + b));
  }

  function UpdatedAll(c: Context, pieces: seq<seq<byte>>): (r: Context)
    requires |c.buf| < BLOCK
    ensures |r.buf| < BLOCK
    decreases |pieces|
  {
    if pieces == [] then c else UpdatedAll(Updated(c, pieces[0]), pieces[1..])
  }

  function Joined(pieces: seq<seq<byte>>): seq<byte> {
    if pieces == [] then [] else pieces[0] + Joined(pieces[1..])
  }

  // ---- The end ----

  /** Zeros one at a time until the length fits the block. */
  function ZerosFed(c: Context): (r: Context)
    requires |c.buf| < BLOCK
    ensures |r.buf| == 56
    decreases (56 - |c.buf|) % BLOCK
  {
    if |c.buf| == 56 then c
    else
      OneFed(c, 0);
      ZerosFed(Updated(c, [0]))
  }

  lemma OneFed(c: Context, b: byte)
    requires |c.buf| < BLOCK
    ensures |Updated(c, [b]).buf| == (|c.buf| + 1) % BLOCK
  {
    hide Compressed;
    var d, buf := c.(len := (c.len + 1) % LENGTHS), c.buf + [b];
    var next := if |buf| == BLOCK then d.(hash := Compressed(d.hash, buf), buf := []) else d.(buf := buf);
    assert [b][..1] == [b] && [b][1..] == [];
    assert Fed(d, [b]) == Fed(next, []);
  }

  function Finished(c: Context): Hash
    requires |c.buf| < BLOCK
  {
    var bits := c.len * 8 % LENGTHS;
    Updated(ZerosFed(Updated(c, [0x80])), LengthBytes(bits)).hash
  }

  lemma UnderWay(c: Context, m: seq<byte>)
    requires Absorbed(c, m)
    ensures |c.buf| == |m| % BLOCK
  {
  }

  lemma ByteAbsorbed(c: Context, m: seq<byte>, b: byte)
    requires Absorbed(c, m)
    ensures |c.buf| < BLOCK && Absorbed(Updated(c, [b]), m + [b])
  {
    hide Fed, Folded;
    FedAbsorbs(c.(len := (c.len + 1) % LENGTHS), m, [b]);
  }

  /** The zeros to come after a message, and after one byte more. */
  function Gap(n: nat): nat {
    (56 - n) % BLOCK
  }

  lemma GapCloses(n: nat)
    ensures n % BLOCK == 56 <==> Gap(n) == 0
    ensures Gap(n) == Gap(n % BLOCK) && (Gap(n) > 0 ==> Gap(n + 1) == Gap(n) - 1)
  {
  }

  lemma OneZeroMore(m: seq<byte>, n: nat)
    requires n > 0
    ensures m + Zeros(n) == m + [0] + Zeros(n - 1)
  {
  }

  lemma {:induction false} ZerosAbsorbed(c: Context, m: seq<byte>)
    requires Absorbed(c, m) && |c.buf| < BLOCK
    ensures Absorbed(ZerosFed(c), m + Zeros(Gap(|m|)))
    decreases Gap(|m|)
  {
    hide Absorbed, Updated, Zeros, Gap;
    UnderWay(c, m);
    GapCloses(|m|);
    if |c.buf| == 56 {
      NoZeros(m);
    } else {
      ByteAbsorbed(c, m, 0);
      ZerosAbsorbed(Updated(c, [0]), m + [0]);
      OneZeroMore(m, Gap(|m|));
    }
  }

  lemma NoZeros(m: seq<byte>)
    ensures m + Zeros(0) == m
  {
  }

  /** However a message is split into updates, the digest is that of the padded message. */
  lemma FinishedIsDigest(c: Context, m: seq<byte>)
    requires Absorbed(c, m) && c.len == |m| % LENGTHS
    ensures Finished(c) == Digest(m)
  {
    hide Fed, Folded;
    var bits := c.len * 8 % LENGTHS;
    FedAbsorbs(c.(len := (c.len + 1) % LENGTHS), m, [0x80]);
    OneFed(c, 0x80);
    var d := Updated(c, [0x80]);
    ZerosAbsorbed(d, m + [0x80]);
    var ended := ZerosFed(d);
    var padded := m + [0x80] + Zeros((55 - |m|) % BLOCK);
    FedAbsorbs(ended.(len := (ended.len + 8) % LENGTHS), padded, LengthBytes(bits));
    BitsWrap(|m|);
    PaddedIsWhole(m);
    assert Padded(m)[..|Padded(m)|] == Padded(m);
  }

  lemma BitsWrap(n: nat)
    ensures n % LENGTHS * 8 % LENGTHS == 8 * n % LENGTHS
  {
    var r := n % LENGTHS * 8;
    ModUnique(8 * n, LENGTHS, 8 * (n / LENGTHS) + r / LENGTHS, r % LENGTHS);
  }

  lemma {:induction false} UpdatesAbsorb(c: Context, m: seq<byte>, pieces: seq<seq<byte>>)
    requires Absorbed(c, m) && c.len == |m| % LENGTHS
    ensures var r, n := UpdatedAll(c, pieces), m + Joined(pieces); Absorbed(r, n) && r.len == |n| % LENGTHS
    decreases |pieces|
  {
    hide Fed, Folded;
    if pieces == [] {
      assert m + Joined(pieces) == m;
    } else {
      var a := pieces[0];
      FedAbsorbs(c.(len := (c.len + |a|) % LENGTHS), m, a);
      LengthsAdd(0, |m|, |a|);
      UpdatesAbsorb(Updated(c, a), m + a, pieces[1..]);
      assert m + a + Joined(pieces[1..]) == m + Joined(pieces);
    }
  }

  lemma FreshAbsorbed()
    ensures Absorbed(FRESH, [])
  {
  }

  /** So hashing pieces is hashing the message they make. */
  lemma PiecesHashAsOne(pieces: seq<seq<byte>>)
    ensures Finished(UpdatedAll(FRESH, pieces)) == Digest(Joined(pieces))
  {
    hide Digest, Finished, UpdatedAll, Folded;
    FreshAbsorbed();
    UpdatesAbsorb(FRESH, [], pieces);
    assert [] + Joined(pieces) == Joined(pieces);
    FinishedIsDigest(UpdatedAll(FRESH, pieces), Joined(pieces));
  }

  // ---- As it runs ----

  class Hasher {
    var h: Hash
    var len: nat
    const buf: array<byte>
    var nbuf: nat

    ghost predicate Valid()
      reads this
    {
      buf.Length == BLOCK && nbuf < BLOCK && len < LENGTHS
    }

    ghost function State(): Context
      requires Valid()
      reads this, buf
    {
      Context(h, len, buf[..nbuf])
    }

    constructor ()
      ensures Valid() && fresh(buf) && State() == FRESH
    {
      h, len, nbuf := INITIAL, 0, 0;
      buf := new byte[BLOCK](_ => 0);
    }

    /** The block's eighty words. */
    method Schedule(p: array<byte>) returns (w: array<bv32>)
      requires p.Length == BLOCK
      ensures w.Length == 80 && fresh(w) && forall i :: 0 <= i < 80 ==> w[i] == W(p[..], i)
    {
      hide Word32, Spread;
      w := new bv32[80];
      for i := 0 to 16
        invariant forall k :: 0 <= k < i ==> w[k] == W(p[..], k)
      {
        w[i] := Word32(p[4 * i], p[4 * i + 1], p[4 * i + 2], p[4 * i + 3]);
      }
      for i := 16 to 80
        invariant forall k :: 0 <= k < i ==> w[k] == W(p[..], k)
      {
        w[i] := Spread(w[i - 3], w[i - 8], w[i - 14], w[i - 16]);
      }
    }

    static method Mix(from: Hash, w: array<bv32>, ghost p: Block) returns (r: Hash)
      requires w.Length == 80 && forall i :: 0 <= i < 80 ==> w[i] == W(p, i)
      ensures r == Rounds(from, p, 80)
    {
      hide W, Round;
      r := from;
      for i := 0 to 80
        invariant r == Rounds(from, p, i)
      {
        NextRound(from, p, i);
        r := Round(r, i, w[i]);
      }
    }

    method HashBlock()
      requires Valid()
      modifies this`h
      ensures h == Compressed(old(h), buf[..])
    {
      hide W, Rounds, Plus;
      var w := Schedule(buf);
      var r := Mix(h, w, buf[..]);
      h := Plus(h, r);
    }

    method CopyIn(data: seq<byte>, from: nat, take: nat)
      requires Valid() && from + take <= |data| && nbuf + take <= BLOCK
      modifies buf
      ensures buf[..nbuf + take] == old(buf[..nbuf]) + data[from..from + take]
    {
      for i := 0 to take
        invariant buf[..nbuf + i] == old(buf[..nbuf]) + data[from..from + i]
      {
        buf[nbuf + i] := data[from + i];
      }
    }

    /** As much as the block has room for; a full block is hashed. */
    method Take(data: seq<byte>, from: nat) returns (take: nat)
      requires Valid() && from < |data|
      modifies this`h, this`nbuf, buf
      ensures Valid() && 0 < take <= |data| - from && Fed(State(), data[from + take..]) == Fed(old(State()), data[from..])
    {
      hide Compressed;
      take := BLOCK - nbuf;
      if take > |data| - from {
        take := |data| - from;
      }
      assert data[from..][..take] == data[from..from + take] && data[from..][take..] == data[from + take..];
      CopyIn(data, from, take);
      if nbuf + take == BLOCK {
        assert buf[..] == buf[..BLOCK];
        HashBlock();
        nbuf := 0;
      } else {
        nbuf := nbuf + take;
      }
    }

    method Update(data: seq<byte>)
      requires Valid()
      modifies this`h, this`len, this`nbuf, buf
      ensures Valid() && State() == Updated(old(State()), data)
    {
      hide Compressed;
      len := (len + |data|) % LENGTHS;
      var i := 0;
      ghost var whole := Fed(State(), data);
      assert data[0..] == data;
      while i < |data|
        invariant i <= |data| && Valid() && Fed(State(), data[i..]) == whole
      {
        var take := Take(data, i);
        i := i + take;
      }
    }

    /** Zeros one at a time until the length fits the block. */
    method PadZeros()
      requires Valid()
      modifies this`h, this`len, this`nbuf, buf
      ensures Valid() && State() == ZerosFed(old(State()))
    {
      hide Updated, Compressed;
      ghost var ended := ZerosFed(State());
      while nbuf != 56
        invariant Valid() && ZerosFed(State()) == ended
        decreases (56 - nbuf) % BLOCK
      {
        OneFed(State(), 0);
        Update([0]);
      }
    }

    /** The padding, the length, and the hash. */
    method Final() returns (r: Hash)
      requires Valid()
      modifies this`h, this`len, this`nbuf, buf
      ensures r == Finished(old(State()))
    {
      hide Updated, ZerosFed, LengthBytes;
      var bits := len * 8 % LENGTHS;
      Update([0x80]);
      PadZeros();
      Update(LengthBytes(bits));
      r := h;
    }
  }

  lemma NextRound(h: Hash, p: Block, i: nat)
    requires i < 80
    ensures Rounds(h, p, i + 1) == Round(Rounds(h, p, i), i, W(p, i))
  {
  }
}
