/** ADC and SBC, binary and decimal, on both CPUs; and chains of them, low byte to high, as arithmetic on numbers of any
    width. */
module CpuArithmetic {
  import opened Words

  datatype Variant = Nmos | Cmos

  datatype Status = Status(n: bool, v: bool, constant: bool, b: bool, d: bool, i: bool, z: bool, c: bool)

  datatype Sum = Sum(a: byte, status: Status)

  function Bit(on: bool): int {
    if on then 1 else 0
  }

  predicate Sign(v: int) {
    v / 0x80 % 2 == 1
  }

  /** Signed overflow as the CPU finds it: two of one sign that make the other. */
  predicate Overflows(a: byte, m: byte, bin: int) {
    Sign(a) == Sign(m) && Sign(a) != Sign(bin)
  }

  function WithResult(p: Status, r: int): Status {
    p.(z := r % 0x100 == 0, n := Sign(r))
  }

  /** A decimal digit and whether it carries, or borrows. */
  datatype Digit = Digit(value: int, over: bool)

  function Carried(v: int): Digit {
    if v > 9 then Digit(v - 10, true) else Digit(v, false)
  }

  function Borrowed(v: int): Digit {
    if v < 0 then Digit(v + 10, true) else Digit(v, false)
  }

  function Packed(hi: int, lo: int): byte {
    hi % 16 * 16 + lo % 16
  }

  /** The flags come from the binary sum on an NMOS CPU, but for the carry; on a 65C02 zero and sign are the result's. */
  function DecimalStatus(variant: Variant, p: Status, a: byte, m: byte, bin: int, r: byte, carry: bool): Status {
    WithResult(p.(v := Overflows(a, m, bin), c := carry), if variant == Nmos then bin else r)
  }

  function BinarySum(p: Status, a: byte, m: byte): Sum {
    var bin := a + m + Bit(p.c);
    Sum(bin % 0x100, WithResult(p.(v := Overflows(a, m, bin), c := bin >= 0x100), bin))
  }

  function DecimalSum(variant: Variant, p: Status, a: byte, m: byte): Sum {
    var lo := Carried(a % 16 + m % 16 + Bit(p.c));
    var hi := Carried(a / 16 + m / 16 + Bit(lo.over));
    var r := Packed(hi.value, lo.value);
    Sum(r, DecimalStatus(variant, p, a, m, a + m + Bit(p.c), r, hi.over))
  }

  function Adc(variant: Variant, p: Status, a: byte, m: byte): Sum {
    if p.d then DecimalSum(variant, p, a, m) else BinarySum(p, a, m)
  }

  function DecimalDifference(variant: Variant, p: Status, a: byte, m: byte): Sum {
    var lo := Borrowed(a % 16 - m % 16 - (1 - Bit(p.c)));
    var hi := Borrowed(a / 16 - m / 16 - Bit(lo.over));
    var r := Packed(hi.value, lo.value);
    Sum(r, DecimalStatus(variant, p, a, 0xFF - m, a + (0xFF - m) + Bit(p.c), r, !hi.over))
  }

  /** In binary, the sum with the other byte's complement. */
  function Sbc(variant: Variant, p: Status, a: byte, m: byte): Sum {
    if p.d then DecimalDifference(variant, p, a, m) else BinarySum(p, a, 0xFF - m)
  }

  // ---- Numbers of any width, low byte first ----

  predicate Bcd(b: byte) {
    b % 16 <= 9 && b / 16 <= 9
  }

  /** The bytes the mode counts in: all of them, or two decimal digits. */
  predicate Proper(d: bool, s: seq<byte>) {
    d ==> forall i :: 0 <= i < |s| ==> Bcd(s[i])
  }

  function Base(d: bool): int {
    if d then 100 else 0x100
  }

  function Place(d: bool, b: byte): int {
    if d then b / 16 * 10 + b % 16 else b as int
  }

  function Number(d: bool, s: seq<byte>): int
    decreases |s|
  {
    if s == [] then 0 else Place(d, s[0]) + Base(d) * Number(d, s[1..])
  }

  function Range(d: bool, n: nat): int {
    if n == 0 then 1 else Base(d) * Range(d, n - 1)
  }

  datatype Chain = Chain(bytes: seq<byte>, status: Status)

  function Added(variant: Variant, p: Status, a: seq<byte>, m: seq<byte>): (r: Chain)
    requires |a| == |m|
    ensures |r.bytes| == |a|
    decreases |a|
  {
    if a == [] then Chain([], p)
    else
      var s := Adc(variant, p, a[0], m[0]);
      var rest := Added(variant, s.status, a[1..], m[1..]);
      Chain([s.a] + rest.bytes, rest.status)
  }

  function Subtracted(variant: Variant, p: Status, a: seq<byte>, m: seq<byte>): (r: Chain)
    requires |a| == |m|
    ensures |r.bytes| == |a|
    decreases |a|
  {
    if a == [] then Chain([], p)
    else
      var s := Sbc(variant, p, a[0], m[0]);
      var rest := Subtracted(variant, s.status, a[1..], m[1..]);
      Chain([s.a] + rest.bytes, rest.status)
  }

  lemma Nibbles(v: byte)
    ensures 0 <= v / 16 < 16 && v == v / 16 * 16 + v % 16
  {
  }

  lemma PackedDigits(hi: int, lo: int)
    requires 0 <= hi <= 9 && 0 <= lo <= 9
    ensures var r := Packed(hi, lo); r / 16 == hi && r % 16 == lo && Bcd(r)
  {
  }

  lemma DigitsOf(b: byte)
    requires Bcd(b)
    ensures 0 <= b / 16 <= 9 && 0 <= b % 16 <= 9
  {
    Nibbles(b);
  }

  /** Two digits and two digits, with the carry in. */
  lemma DigitsAdd(ah: int, al: int, mh: int, ml: int, c: int)
    requires 0 <= ah <= 9 && 0 <= al <= 9 && 0 <= mh <= 9 && 0 <= ml <= 9 && 0 <= c <= 1
    ensures var lo := Carried(al + ml + c); var hi := Carried(ah + mh + Bit(lo.over));
      && 0 <= lo.value <= 9 && 0 <= hi.value <= 9
      && hi.value * 10 + lo.value + 100 * Bit(hi.over) == (ah * 10 + al) + (mh * 10 + ml) + c
  {
  }

  lemma DigitsSubtract(ah: int, al: int, mh: int, ml: int, c: int)
    requires 0 <= ah <= 9 && 0 <= al <= 9 && 0 <= mh <= 9 && 0 <= ml <= 9 && 0 <= c <= 1
    ensures var lo := Borrowed(al - ml - c); var hi := Borrowed(ah - mh - Bit(lo.over));
      && 0 <= lo.value <= 9 && 0 <= hi.value <= 9
      && hi.value * 10 + lo.value - 100 * Bit(hi.over) == (ah * 10 + al) - (mh * 10 + ml) - c
  {
  }

  lemma DecimalAdds(variant: Variant, p: Status, a: byte, m: byte)
    requires Bcd(a) && Bcd(m)
    ensures var r := DecimalSum(variant, p, a, m);
      && r.status.d == p.d && Bcd(r.a) && Place(true, r.a) + 100 * Bit(r.status.c) == Place(true, a) + Place(true, m) + Bit(p.c)
  {
    hide Carried, Packed, Bcd, Overflows, Sign;
    DigitsOf(a);
    DigitsOf(m);
    DigitsAdd(a / 16, a % 16, m / 16, m % 16, Bit(p.c));
    var lo := Carried(a % 16 + m % 16 + Bit(p.c));
    PackedDigits(Carried(a / 16 + m / 16 + Bit(lo.over)).value, lo.value);
  }

  lemma DecimalSubtracts(variant: Variant, p: Status, a: byte, m: byte)
    requires Bcd(a) && Bcd(m)
    ensures var r := DecimalDifference(variant, p, a, m);
      && r.status.d == p.d && Bcd(r.a)
      && Place(true, r.a) - 100 * (1 - Bit(r.status.c)) == Place(true, a) - Place(true, m) - (1 - Bit(p.c))
  {
    hide Borrowed, Packed, Bcd, Overflows, Sign;
    DigitsOf(a);
    DigitsOf(m);
    DigitsSubtract(a / 16, a % 16, m / 16, m % 16, 1 - Bit(p.c));
    var lo := Borrowed(a % 16 - m % 16 - (1 - Bit(p.c)));
    PackedDigits(Borrowed(a / 16 - m / 16 - Bit(lo.over)).value, lo.value);
  }

  lemma AdcAdds(variant: Variant, p: Status, a: byte, m: byte)
    requires p.d ==> Bcd(a) && Bcd(m)
    ensures var r := Adc(variant, p, a, m);
      && r.status.d == p.d && (p.d ==> Bcd(r.a))
      && Place(p.d, r.a) + Base(p.d) * Bit(r.status.c) == Place(p.d, a) + Place(p.d, m) + Bit(p.c)
  {
    hide DecimalSum, Bcd, Overflows, Sign;
    if p.d {
      DecimalAdds(variant, p, a, m);
    }
  }

  lemma SbcSubtracts(variant: Variant, p: Status, a: byte, m: byte)
    requires p.d ==> Bcd(a) && Bcd(m)
    ensures var r := Sbc(variant, p, a, m);
      && r.status.d == p.d && (p.d ==> Bcd(r.a))
      && Place(p.d, r.a) - Base(p.d) * (1 - Bit(r.status.c)) == Place(p.d, a) - Place(p.d, m) - (1 - Bit(p.c))
  {
    hide DecimalDifference, Bcd, Overflows, Sign;
    if p.d {
      DecimalSubtracts(variant, p, a, m);
    }
  }

  lemma PlaceInBase(d: bool, b: byte)
    requires d ==> Bcd(b)
    ensures 0 <= Place(d, b) < Base(d)
  {
    Nibbles(b);
  }

  lemma OnePlace(d: bool, a: byte, b: byte)
    requires (d ==> Bcd(a) && Bcd(b)) && Place(d, a) == Place(d, b)
    ensures a == b
  {
    if d {
      DigitsOf(a);
      DigitsOf(b);
      Nibbles(a);
      Nibbles(b);
    }
  }

  lemma Scaled(b: int, x: int, y: int, r: int, c: int)
    requires x + r * c == y
    ensures b * x + b * r * c == b * y
  {
    assert b * (x + r * c) == b * x + b * (r * c);
    assert b * (r * c) == b * r * c;
  }

  /** A chain of ADCs is one addition: the bytes and the carry out make the sum, in binary or decimal, on either CPU. */
  lemma {:induction false} ChainAdds(variant: Variant, p: Status, a: seq<byte>, m: seq<byte>)
    requires |a| == |m| && Proper(p.d, a) && Proper(p.d, m)
    ensures var r := Added(variant, p, a, m);
      && r.status.d == p.d && Proper(p.d, r.bytes)
      && Number(p.d, r.bytes) + Range(p.d, |a|) * Bit(r.status.c) == Number(p.d, a) + Number(p.d, m) + Bit(p.c)
    decreases |a|
  {
    hide Adc;
    if a != [] {
      var d, s := p.d, Adc(variant, p, a[0], m[0]);
      AdcAdds(variant, p, a[0], m[0]);
      ChainAdds(variant, s.status, a[1..], m[1..]);
      var rest := Added(variant, s.status, a[1..], m[1..]);
      var r := Added(variant, p, a, m);
      assert r.bytes[1..] == rest.bytes;
      Scaled(Base(d), Number(d, rest.bytes), Number(d, a[1..]) + Number(d, m[1..]) + Bit(s.status.c), Range(d, |a| - 1), Bit(rest.status.c));
      assert |a[1..]| == |a| - 1;
      assert Base(d) * (Number(d, a[1..]) + Number(d, m[1..]) + Bit(s.status.c)) ==
        Base(d) * Number(d, a[1..]) + Base(d) * Number(d, m[1..]) + Base(d) * Bit(s.status.c);
    }
  }

  /** A chain of SBCs is one subtraction: where it borrows, the carry is clear. */
  lemma {:induction false} ChainSubtracts(variant: Variant, p: Status, a: seq<byte>, m: seq<byte>)
    requires |a| == |m| && Proper(p.d, a) && Proper(p.d, m)
    ensures var r := Subtracted(variant, p, a, m);
      && r.status.d == p.d && Proper(p.d, r.bytes)
      && Number(p.d, r.bytes) + Range(p.d, |a|) * -(1 - Bit(r.status.c)) ==
         Number(p.d, a) - Number(p.d, m) - (1 - Bit(p.c))
    decreases |a|
  {
    hide Sbc;
    if a != [] {
      var d, s := p.d, Sbc(variant, p, a[0], m[0]);
      SbcSubtracts(variant, p, a[0], m[0]);
      ChainSubtracts(variant, s.status, a[1..], m[1..]);
      var rest := Subtracted(variant, s.status, a[1..], m[1..]);
      var r := Subtracted(variant, p, a, m);
      assert r.bytes[1..] == rest.bytes;
      Scaled(Base(d), Number(d, rest.bytes), Number(d, a[1..]) - Number(d, m[1..]) - (1 - Bit(s.status.c)), Range(d, |a| - 1),
             -(1 - Bit(rest.status.c)));
      assert |a[1..]| == |a| - 1;
      assert Base(d) * (Number(d, a[1..]) - Number(d, m[1..]) - (1 - Bit(s.status.c))) ==
        Base(d) * Number(d, a[1..]) - Base(d) * Number(d, m[1..]) - Base(d) * (1 - Bit(s.status.c));
    }
  }

  lemma AdcUndone(variant: Variant, p: Status, q: Status, a: byte, m: byte)
    requires p.d == q.d && (p.d ==> Bcd(a) && Bcd(m)) && Bit(q.c) == 1 - Bit(p.c)
    ensures var r := Adc(variant, p, a, m); var u := Sbc(variant, q, r.a, m);
      u.a == a && Bit(u.status.c) == 1 - Bit(r.status.c) && u.status.d == p.d && r.status.d == p.d
  {
    hide Adc, Sbc, Bcd, Place;
    AdcAdds(variant, p, a, m);
    var r := Adc(variant, p, a, m);
    SbcSubtracts(variant, q, r.a, m);
    var u := Sbc(variant, q, r.a, m);
    PlaceInBase(p.d, a);
    PlaceInBase(p.d, u.a);
    OnePlace(p.d, a, u.a);
  }

  /** A chain of SBCs undoes one of ADCs, byte for byte: from the carry clear to add and set to subtract. */
  lemma {:induction false} ChainUndone(variant: Variant, p: Status, q: Status, a: seq<byte>, m: seq<byte>)
    requires |a| == |m| && p.d == q.d && Proper(p.d, a) && Proper(p.d, m) && Bit(q.c) == 1 - Bit(p.c)
    ensures Subtracted(variant, q, Added(variant, p, a, m).bytes, m).bytes == a
    decreases |a|
  {
    hide Adc, Sbc;
    if a != [] {
      var s := Adc(variant, p, a[0], m[0]);
      AdcUndone(variant, p, q, a[0], m[0]);
      var t := Sbc(variant, q, s.a, m[0]);
      ChainUndone(variant, s.status, t.status, a[1..], m[1..]);
      assert Added(variant, p, a, m).bytes[1..] == Added(variant, s.status, a[1..], m[1..]).bytes;
      assert a == [a[0]] + a[1..];
    }
  }

  // ---- The flags ----

  /** The byte whose zero and sign the flags tell: the result, but in decimal on an NMOS CPU the binary sum, in which a
      subtraction adds the complement. */
  function Told(variant: Variant, p: Status, a: byte, m: byte, r: byte): byte {
    if p.d && variant == Nmos then (a + m + Bit(p.c)) % 0x100 else r
  }

  /** What an addition of m, or a subtraction as one of its complement, leaves in the flags: Z and N of that byte, V
      whether the signed binary sum is past a byte in either mode, and B, D, I and the constant bit as they were. */
  predicate FlagsTell(variant: Variant, p: Status, a: byte, m: byte, r: Sum) {
    var told, sum := Told(variant, p, a, m, r.a), Signed(a) + Signed(m) + Bit(p.c);
    && (r.status.z <==> told == 0) && (r.status.n <==> told >= 0x80) && (r.status.v <==> sum < -0x80 || sum >= 0x80)
    && r.status == p.(z := r.status.z, n := r.status.n, v := r.status.v, c := r.status.c)
  }

  lemma SignIsHigh(v: nat)
    requires v < 0x200
    ensures Sign(v) <==> v % 0x100 >= 0x80
  {
  }

  lemma OverflowIsSigned(a: byte, m: byte, c: int)
    requires 0 <= c <= 1
    ensures Overflows(a, m, a + m + c) <==> var sum := Signed(a) + Signed(m) + c; sum < -0x80 || sum >= 0x80
  {
    SignIsHigh(a);
    SignIsHigh(m);
    SignIsHigh(a + m + c);
  }

  lemma BinaryFlags(variant: Variant, p: Status, a: byte, m: byte)
    requires !p.d
    ensures FlagsTell(variant, p, a, m, BinarySum(p, a, m))
  {
    hide Overflows, Sign;
    var bin := a + m + Bit(p.c);
    SignIsHigh(bin);
    OverflowIsSigned(a, m, Bit(p.c));
  }

  lemma DecimalFlags(variant: Variant, p: Status, a: byte, m: byte, r: byte, carry: bool)
    requires p.d
    ensures FlagsTell(variant, p, a, m, Sum(r, DecimalStatus(variant, p, a, m, a + m + Bit(p.c), r, carry)))
  {
    hide Overflows, Sign;
    SignIsHigh(a + m + Bit(p.c));
    SignIsHigh(r);
    OverflowIsSigned(a, m, Bit(p.c));
  }

  lemma AdcFlags(variant: Variant, p: Status, a: byte, m: byte)
    ensures FlagsTell(variant, p, a, m, Adc(variant, p, a, m))
  {
    hide BinarySum, DecimalStatus, FlagsTell, Packed;
    if p.d {
      var r := Adc(variant, p, a, m);
      var lo := Carried(a % 16 + m % 16 + Bit(p.c));
      DecimalFlags(variant, p, a, m, r.a, Carried(a / 16 + m / 16 + Bit(lo.over)).over);
    } else {
      BinaryFlags(variant, p, a, m);
    }
  }

  lemma SbcFlags(variant: Variant, p: Status, a: byte, m: byte)
    ensures FlagsTell(variant, p, a, 0xFF - m, Sbc(variant, p, a, m))
  {
    hide BinarySum, DecimalStatus, FlagsTell, Packed;
    if p.d {
      var r := Sbc(variant, p, a, m);
      var lo := Borrowed(a % 16 - m % 16 - (1 - Bit(p.c)));
      DecimalFlags(variant, p, a, 0xFF - m, r.a, !Borrowed(a / 16 - m / 16 - Bit(lo.over)).over);
    } else {
      BinaryFlags(variant, p, a, 0xFF - m);
    }
  }

  // ---- Signed numbers ----

  function Signed(b: byte): int {
    if b >= 0x80 then b - 0x100 else b as int
  }

  /** The bytes as a two's complement number: the last byte carries the sign. */
  function SignedNumber(s: seq<byte>): int
    requires s != []
    decreases |s|
  {
    if |s| == 1 then Signed(s[0]) else s[0] as int + 0x100 * SignedNumber(s[1..])
  }

  lemma AdcOverflows(variant: Variant, p: Status, a: byte, m: byte)
    requires !p.d
    ensures var r := Adc(variant, p, a, m);
      var sum := Signed(a) + Signed(m) + Bit(p.c);
      && r.status.v == (sum < -0x80 || sum >= 0x80) && Sign(r.a) == r.status.n
      && (!r.status.v ==> Signed(r.a) == sum)
  {
  }

  /** After a binary chain V tells whether the signed sum is past its width; if it is not, the bytes are the sum. */
  lemma {:induction false} ChainOverflows(variant: Variant, p: Status, a: seq<byte>, m: seq<byte>)
    requires |a| == |m| > 0 && !p.d
    ensures var r, half := Added(variant, p, a, m), 0x80 * Range(false, |a| - 1);
      var sum := SignedNumber(a) + SignedNumber(m) + Bit(p.c);
      && r.status.v == (sum < -half || sum >= half)
      && (!r.status.v ==> SignedNumber(r.bytes) == sum)
    decreases |a|
  {
    hide Adc, Overflows;
    var s := Adc(variant, p, a[0], m[0]);
    AdcAdds(variant, p, a[0], m[0]);
    var r, rest := Added(variant, p, a, m), Added(variant, s.status, a[1..], m[1..]);
    assert r.bytes[1..] == rest.bytes;
    if |a| == 1 {
      AdcOverflows(variant, p, a[0], m[0]);
      assert rest == Chain([], s.status);
    } else {
      ChainOverflows(variant, s.status, a[1..], m[1..]);
    }
  }
}
