/** Base 64 as section 4 of RFC 4648 has it: three bytes as four characters, the end padded with '='. */
module Base64 {
  import opened Words

  type sextet = x: int | 0 <= x < 64

  const PAD := '='

  function Letter(v: sextet): char {
    if v < 26 then 'A' + v as char
    else if v < 52 then 'a' + (v - 26) as char
    else if v < 62 then '0' + (v - 52) as char
    else if v == 62 then '+' else '/'
  }

  function Value(c: char): Option<sextet> {
    if 'A' <= c <= 'Z' then Some((c - 'A') as int)
    else if 'a' <= c <= 'z' then Some((c - 'a') as int + 26)
    else if '0' <= c <= '9' then Some((c - '0') as int + 52)
    else if c == '+' then Some(62)
    else if c == '/' then Some(63)
    else None
  }

  // ---- The encoder ----

  /** The four sextets of 24 bits. */
  function Quad(v: nat): (s: seq<sextet>)
    requires v < 0x100_0000
    ensures |s| == 4
  {
    [v / 0x4_0000 % 64, v / 0x1000 % 64, v / 64 % 64, v % 64]
  }

  function Letters(s: seq<sextet>): (c: string)
    ensures |c| == |s|
  {
    seq(|s|, i requires 0 <= i < |s| => Letter(s[i]))
  }

  function Three(a: byte, b: byte, c: byte): (v: nat)
    ensures v < 0x100_0000
  {
    a as int * 0x1_0000 + b as int * 0x100 + c as int
  }

  /** The last one or two bytes, padded. */
  function Tail(s: seq<byte>): (c: string)
    requires |s| < 3
    ensures |c| == if s == [] then 0 else 4
  {
    if s == [] then []
    else if |s| == 1 then Letters(Quad(Three(s[0], 0, 0)))[..2] + [PAD, PAD]
    else Letters(Quad(Three(s[0], s[1], 0)))[..3] + [PAD]
  }

  function Encoded(s: seq<byte>): string
    decreases |s|
  {
    if |s| < 3 then Tail(s) else Letters(Quad(Three(s[0], s[1], s[2]))) + Encoded(s[3..])
  }

  // ---- A decoder, by the standard ----

  /** Two, three or four letters as one, two or three bytes; the bits the padding leaves over are zero. */
  function DecodedLetters(c: string): Option<seq<byte>>
    requires 2 <= |c| <= 4
  {
    var x, y := Value(c[0]), Value(c[1]);
    if x.None? || y.None? then None
    else if |c| == 2 then
      if y.value % 16 != 0 then None else Some([x.value as int * 4 + y.value / 16])
    else
      var z := Value(c[2]);
      if z.None? then None
      else if |c| == 3 then
        if z.value % 4 != 0 then None
        else Some([x.value as int * 4 + y.value / 16, y.value % 16 * 16 + z.value / 4])
      else
        var w := Value(c[3]);
        if w.None? then None
        else Some([x.value as int * 4 + y.value / 16, y.value % 16 * 16 + z.value / 4, z.value % 4 * 64 + w.value as int])
  }

  /** Four characters; with padding, the last. */
  function DecodedQuad(c: string): Option<seq<byte>>
    requires |c| == 4
  {
    if c[3] != PAD then DecodedLetters(c)
    else if c[2] != PAD then DecodedLetters(c[..3])
    else DecodedLetters(c[..2])
  }

  function Decoded(c: string): Option<seq<byte>>
    decreases |c|
  {
    if c == [] then Some([])
    else if |c| < 4 then None
    else
      match DecodedQuad(c[..4])
      case None => None
      case Some(s) =>
        if |s| < 3 then if |c| == 4 then Some(s) else None
        else
          match Decoded(c[4..])
          case None => None
          case Some(rest) => Some(s + rest)
  }

  // ---- Undone ----

  lemma LetterRead(v: sextet)
    ensures Value(Letter(v)) == Some(v) && Letter(v) != PAD
  {
  }

  lemma Divided(v: int, n: int, q: int, r: int)
    requires n > 0 && 0 <= r < n && v == n * q + r
    ensures v / n == q && v % n == r
  {
    ModUnique(v, n, q, r);
    var d := v / n - q;
    assert n * d == 0;
    MulBounds(n, d);
  }

  lemma SextetBits(a: byte, b: byte, c: byte)
    ensures Quad(Three(a, b, c)) == [a / 4, a % 4 * 16 + b / 16, b % 16 * 4 + c / 64, c % 64]
  {
    var v := Three(a, b, c);
    var w, x, y, z: int := a / 4, a % 4 * 16 + b / 16, b % 16 * 4 + c / 64, c % 64;
    assert v == 0x4_0000 * w + 0x1000 * x + 64 * y + z;
    Divided(v, 0x4_0000, w, 0x1000 * x + 64 * y + z);
    Divided(v, 0x1000, 64 * w + x, 64 * y + z);
    Divided(v, 64, 0x1000 * w + 64 * x + y, z);
    Divided(64 * w + x, 64, w, x);
    Divided(0x1000 * w + 64 * x + y, 64, 64 * w + x, y);
  }

  lemma QuadBytes(a: byte, b: byte, c: byte)
    ensures var q: seq<int> := Quad(Three(a, b, c));
      && q[0] * 4 + q[1] / 16 == a && q[1] % 16 * 16 + q[2] / 4 == b && q[2] % 4 * 64 + q[3] == c
      && (c == 0 ==> q[2] % 4 == 0) && (b == 0 ==> q[1] % 16 == 0)
  {
    SextetBits(a, b, c);
    var x, y: int := a % 4 * 16 + b / 16, b % 16 * 4 + c / 64;
    Divided(x, 16, a % 4, b / 16);
    Divided(y, 4, b % 16, c / 64);
  }

  lemma ThreeRead(a: byte, b: byte, c: byte)
    ensures DecodedQuad(Letters(Quad(Three(a, b, c)))) == Some([a, b, c])
  {
    var q := Quad(Three(a, b, c));
    QuadBytes(a, b, c);
    LetterRead(q[0]);
    LetterRead(q[1]);
    LetterRead(q[2]);
    LetterRead(q[3]);
  }

  lemma TailRead(s: seq<byte>)
    requires 0 < |s| < 3
    ensures DecodedQuad(Tail(s)) == Some(s)
  {
    var b := if |s| == 1 then 0 else s[1];
    var q := Quad(Three(s[0], b, 0));
    QuadBytes(s[0], b, 0);
    LetterRead(q[0]);
    LetterRead(q[1]);
    LetterRead(q[2]);
    var t := Tail(s);
    if |s| == 1 {
      assert t[..2] == Letters(q)[..2] && s == [s[0]];
    } else {
      assert t[..3] == Letters(q)[..3] && s == [s[0], s[1]];
    }
  }

  /** What is encoded is decoded, for bytes of any number. */
  lemma {:induction false} EncodedIsDecoded(s: seq<byte>)
    ensures Decoded(Encoded(s)) == Some(s)
    decreases |s|
  {
    if |s| >= 3 {
      var c := Letters(Quad(Three(s[0], s[1], s[2])));
      ThreeRead(s[0], s[1], s[2]);
      EncodedIsDecoded(s[3..]);
      assert Encoded(s)[..4] == c && Encoded(s)[4..] == Encoded(s[3..]);
      assert s == [s[0], s[1], s[2]] + s[3..];
    } else if s != [] {
      TailRead(s);
      assert Encoded(s)[..4] == Encoded(s);
    }
  }

  lemma {:induction false} EncodedLength(s: seq<byte>)
    ensures |Encoded(s)| == (|s| + 2) / 3 * 4
    decreases |s|
  {
    hide Tail, Quad, Letters, Three;
    if |s| >= 3 {
      EncodedLength(s[3..]);
    }
  }

  // ---- As it runs ----

  lemma NextThree(s: seq<byte>, i: nat)
    requires i + 3 <= |s|
    ensures Encoded(s[i..]) == Letters(Quad(Three(s[i], s[i + 1], s[i + 2]))) + Encoded(s[i + 3..])
  {
    assert s[i..][0] == s[i] && s[i..][1] == s[i + 1] && s[i..][2] == s[i + 2] && s[i..][3..] == s[i + 3..];
  }

  method Encode(s: seq<byte>) returns (out: string)
    ensures out == Encoded(s)
  {
    out := "";
    var i := 0;
    assert s[0..] == s;
    while i + 3 <= |s|
      invariant i <= |s| && out + Encoded(s[i..]) == Encoded(s)
    {
      NextThree(s, i);
      var v := Three(s[i], s[i + 1], s[i + 2]);
      var four := Letters(Quad(v));
      assert out + (four + Encoded(s[i + 3..])) == (out + four) + Encoded(s[i + 3..]);
      out := out + four;
      i := i + 3;
    }
    if i < |s| {
      var v := Three(s[i], if i + 1 < |s| then s[i + 1] else 0, 0);
      var q := Letters(Quad(v));
      out := out + q[..2] + [if i + 1 < |s| then q[2] else PAD, PAD];
    }
  }
}
