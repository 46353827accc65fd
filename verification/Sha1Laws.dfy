/** The block function against RFC 3174: its rotations, functions and constants by what they are, and its second method,
    in section 6.2, which keeps sixteen words in a ring. */
module Sha1Laws {
  import opened Words
  import opened Sha1

  // ---- Rotations and functions, bit by bit ----

  function BitOf(v: bv32, j: bv32): bv32
    requires j < 32
  {
    (v >> j) & 1
  }

  /** A circular shift by n moves bit j to bit j + n, round the word. */
  lemma ShiftsRound(v: bv32, j: bv32)
    requires j < 32
    ensures BitOf(Rol(v, 1), (j + 1) & 31) == BitOf(v, j)
    ensures BitOf(Rol(v, 5), (j + 5) & 31) == BitOf(v, j)
    ensures BitOf(Rol(v, 30), (j + 30) & 31) == BitOf(v, j)
  {
  }

  function Choice(b: bv32, c: bv32, d: bv32): bv32 {
    (b & c) | (!b & d)
  }

  function Most(b: bv32, c: bv32, d: bv32): bv32 {
    (b & c) | (b & d) | (c & d)
  }

  /** Where b has a bit it is c's, where not, d's. */
  lemma ChoiceChooses(b: bv32, c: bv32, d: bv32)
    ensures Choice(b, c, d) & b == c & b && Choice(b, c, d) & !b == d & !b
  {
  }

  /** Where b and c are alike it is theirs, where not, d's. */
  lemma MostIsMajority(b: bv32, c: bv32, d: bv32)
    ensures Most(b, c, d) & !(b ^ c) == b & !(b ^ c) && Most(b, c, d) & (b ^ c) == d & (b ^ c)
  {
  }

  /** In the first twenty rounds b chooses c or d; in the third twenty it is what the most of them have; in the others they
      are added without carry. */
  lemma FunctionsOf(i: nat, b: bv32, c: bv32, d: bv32)
    requires i < 80
    ensures F(i, b, c, d) == if i < 20 then Choice(b, c, d) else if 40 <= i < 60 then Most(b, c, d) else b ^ c ^ d
  {
  }

  /** The root of n times 2^60, without its fraction. */
  predicate RootOf(k: nat, n: nat) {
    k * k <= n * 0x1000_0000_0000_0000 < (k + 1) * (k + 1)
  }

  /** The constants are 2^30 times the square roots of 2, 3, 5 and 10. */
  lemma ConstantsAreRoots(i: nat)
    requires i < 80
    ensures RootOf(K(i) as nat, if i < 20 then 2 else if i < 40 then 3 else if i < 60 then 5 else 10)
  {
  }

  /** The hash starts from the digits up and down again. */
  lemma StartsFromDigits()
    ensures INITIAL.a == Word32(0x67, 0x45, 0x23, 0x01) && INITIAL.b == Word32(0xEF, 0xCD, 0xAB, 0x89)
    ensures INITIAL.c == !INITIAL.a && INITIAL.d == !INITIAL.b
    ensures INITIAL.e == Word32(0xC3, 0xD2, 0xE1, 0xF0)
  {
  }

  // ---- The second method ----

  function Mixed(a: bv32, b: bv32, c: bv32, d: bv32): bv32 {
    Rol(a ^ b ^ c ^ d, 1)
  }

  /** The sixteen words after word t - 1 is used: from the sixteenth on, each makes way for a mix of four. */
  function Ring(p: Block, t: nat): (r: seq<bv32>)
    ensures |r| == 16
  {
    if t <= 16 then seq(16, i requires 0 <= i < 16 => Word32(p[4 * i], p[4 * i + 1], p[4 * i + 2], p[4 * i + 3]))
    else
      var w, s := Ring(p, t - 1), (t - 1) % 16;
      w[s := Mixed(w[(s + 13) % 16], w[(s + 8) % 16], w[(s + 2) % 16], w[s])]
  }

  function Temp(o: Hash, t: nat, w: bv32): bv32 {
    Rol(o.a, 5) + F(t, o.b, o.c, o.d) + o.e + w + K(t)
  }

  /** The words a to e after t rounds. */
  function Turned(h: Hash, p: Block, t: nat): Hash
    requires t <= 80
  {
    if t == 0 then h
    else
      var o := Turned(h, p, t - 1);
      Hash(Temp(o, t - 1, Ring(p, t)[(t - 1) % 16]), o.a, Rol(o.b, 30), o.c, o.d)
  }

  /** Where the words of a round are in the ring. */
  lemma Places(t: nat)
    requires t > 16
    ensures var s := (t - 1) % 16;
      (s + 13) % 16 == (t - 4) % 16 && (s + 8) % 16 == (t - 9) % 16 && (s + 2) % 16 == (t - 15) % 16 && s == (t - 17) % 16
  {
    var q, s := (t - 1) / 16, (t - 1) % 16;
    ModUnique(t - 17, 16, q - 1, s);
    Place(t - 4, s + 13, q - 1);
    Place(t - 9, s + 8, q - 1);
    Place(t - 15, s + 2, q - 1);
  }

  lemma Place(k: int, j: nat, q: int)
    requires k == 16 * q + j
    ensures k % 16 == j % 16
  {
    ModUnique(k, 16, q + j / 16, j % 16);
  }

  lemma Apart(t: nat, k: nat)
    requires t - 16 <= k < t - 1
    ensures k % 16 != (t - 1) % 16
  {
  }

  lemma NextWord(p: Block, t: nat)
    requires 16 <= t < 80
    ensures W(p, t) == Mixed(W(p, t - 3), W(p, t - 8), W(p, t - 14), W(p, t - 16))
  {
    hide Rol;
  }

  /** The ring has the last sixteen words. */
  ghost predicate Holds(p: Block, w: seq<bv32>, t: nat)
    requires |w| == 16 && 16 <= t <= 80
  {
    forall k :: t - 16 <= k < t ==> w[k % 16] == W(p, k)
  }

  lemma {:induction false} RingHolds(p: Block, t: nat)
    requires 16 <= t <= 80
    ensures Holds(p, Ring(p, t), t)
    decreases t
  {
    hide Holds, Mixed;
    if t == 16 {
      FirstWords(p);
    } else {
      RingHolds(p, t - 1);
      WordAdded(p, Ring(p, t - 1), t);
    }
  }

  lemma WordAdded(p: Block, w: seq<bv32>, t: nat)
    requires |w| == 16 && 16 < t <= 80 && Holds(p, w, t - 1)
    ensures var s := (t - 1) % 16; Holds(p, w[s := Mixed(w[(s + 13) % 16], w[(s + 8) % 16], w[(s + 2) % 16], w[s])], t)
  {
    hide Mixed, W;
    Places(t);
    NextWord(p, t - 1);
    forall k | t - 16 <= k < t - 1 ensures k % 16 != (t - 1) % 16 {
      Apart(t, k);
    }
  }

  lemma FirstWords(p: Block)
    ensures Holds(p, Ring(p, 16), 16)
  {
  }

  lemma Reordered(a: bv32, b: bv32, c: bv32, d: bv32, e: bv32)
    ensures a + b + c + d + e == a + b + c + e + d
  {
  }

  lemma NextRound(o: Hash, t: nat, w: bv32)
    ensures Round(o, t, w) == Hash(Temp(o, t, w), o.a, Rol(o.b, 30), o.c, o.d)
  {
    hide Rol, F, K;
    Reordered(Rol(o.a, 5), F(t, o.b, o.c, o.d), o.e, K(t), w);
  }

  lemma RingStarts(p: Block, t: nat)
    ensures Ring(p, t) == Ring(p, Max(t, 16))
  {
    hide Word32;
  }

  lemma {:induction false} TurnedIsRounds(h: Hash, p: Block, t: nat)
    requires t <= 80
    ensures Turned(h, p, t) == Rounds(h, p, t)
    decreases t
  {
    hide Rol, Ring, W, Temp, Round;
    if t > 0 {
      TurnedIsRounds(h, p, t - 1);
      RingHolds(p, Max(t, 16));
      RingStarts(p, t);
      NextRound(Rounds(h, p, t - 1), t - 1, W(p, t - 1));
    }
  }

  /** Both methods of the standard hash a block alike: the words after eighty rounds are added to those before. */
  lemma MethodsAgree(h: Hash, p: Block, n: nat)
    requires n == 80
    ensures var t := Turned(h, p, n);
      Compressed(h, p) == Hash(Sum(h.a, t.a), Sum(h.b, t.b), Sum(h.c, t.c), Sum(h.d, t.d), Sum(h.e, t.e))
  {
    hide Turned, Rounds, Sum;
    TurnedIsRounds(h, p, n);
  }

  lemma SumAdds(v: bv32, w: bv32)
    ensures Sum(v, w) == v + w
  {
  }

  /** The number the first n bytes are, the highest first. */
  function ReadsAs(b: seq<byte>, n: nat): nat
    requires n <= |b|
  {
    if n == 0 then 0 else ReadsAs(b, n - 1) * 0x100 + b[n - 1] as nat
  }

  function Above(bits: nat, n: nat): nat {
    if n == 0 then bits else Above(bits, n - 1) / 0x100
  }

  lemma AboveIs(bits: nat)
    ensures Above(bits, 1) == bits / 0x100 && Above(bits, 2) == bits / 0x1_0000 && Above(bits, 3) == bits / 0x100_0000
    ensures Above(bits, 4) == bits / 0x1_0000_0000 && Above(bits, 5) == bits / 0x100_0000_0000
    ensures Above(bits, 6) == bits / 0x1_0000_0000_0000 && Above(bits, 7) == bits / 0x100_0000_0000_0000
    ensures Above(bits, 8) == bits / LENGTHS
  {
    hide Above;
    AboveNext(bits, 0);
    AboveNext(bits, 1);
    AboveNext(bits, 2);
    AboveNext(bits, 3);
    AboveNext(bits, 4);
    AboveNext(bits, 5);
    AboveNext(bits, 6);
    AboveNext(bits, 7);
  }

  lemma AboveNext(bits: nat, n: nat)
    ensures Above(bits, n + 1) == Above(bits, n) / 0x100 && Above(bits, 0) == bits
  {
  }

  lemma ByteAbove(bits: nat, n: nat)
    requires n < 8
    ensures LengthBytes(bits)[7 - n] as nat == Above(bits, n) % 0x100
  {
    AboveIs(bits);
  }

  lemma {:induction false} ReadsAbove(bits: nat, n: nat)
    requires n <= 8 && bits < LENGTHS
    ensures ReadsAs(LengthBytes(bits), 8 - n) == Above(bits, n)
    decreases 8 - n
  {
    hide LengthBytes;
    if n == 8 {
      AboveIs(bits);
    } else {
      ReadsAbove(bits, n + 1);
      ByteAbove(bits, n);
    }
  }

  /** The length's bytes are its digits in base 256, the highest first. */
  lemma LengthReads(bits: nat)
    requires bits < LENGTHS
    ensures ReadsAs(LengthBytes(bits), 8) == bits
  {
    hide LengthBytes;
    ReadsAbove(bits, 0);
  }
}
