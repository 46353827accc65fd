/** Key codes from ANSI input, with bytes read too far kept for the next key. */
module KeyReader {
  import opened Words

  const ESC: byte := 0x1B
  const UP: byte := 0x80
  const DOWN: byte := 0x81
  const LEFT: byte := 0x82
  const RIGHT: byte := 0x83
  const HOME: byte := 0x84
  const END: byte := 0x85
  const PGUP: byte := 0x86
  const PGDN: byte := 0x87
  const DEL: byte := 0x88
  const WORD_FWD: byte := 0x89
  const WORD_BACK: byte := 0x8A
  const BS: byte := 0x08

  /** A byte of input, and whether it comes soon after the one before. */
  datatype Arrival = Arrival(value: byte, soon: bool)

  /** The bytes kept, the next last, and the input. */
  datatype Reader = Reader(back: seq<byte>, input: seq<Arrival>)

  datatype Read = Read(value: byte, reader: Reader)

  function Left(r: Reader): nat {
    |r.back| + |r.input|
  }

  /** The next byte; 0 at the end of input. */
  function NextByte(r: Reader): (n: Read)
    ensures Left(n.reader) <= Left(r) && (n.value != 0 ==> Left(n.reader) < Left(r))
  {
    if r.back != [] then Read(r.back[|r.back| - 1], r.(back := r.back[..|r.back| - 1]))
    else if r.input == [] then Read(0, r)
    else Read(r.input[0].value, r.(input := r.input[1..]))
  }

  function Unread(r: Reader, b: byte): Reader {
    r.(back := r.back + [b])
  }

  /** More input within the time an escape sequence takes. */
  predicate Waits(r: Reader) {
    r.input != [] && r.input[0].soon
  }

  /** An unknown sequence is drained through its final byte, or the end of input. */
  function Eaten(r: Reader, b: byte): Read
    decreases Left(r), b
  {
    if b == 0 || b >= 0x40 then Read(0, r)
    else
      var n := NextByte(r);
      if n.value == 0 then Read(0, n.reader) else Eaten(n.reader, n.value)
  }

  function FinalKey(b: byte): byte {
    if b == 'A' as int then UP else if b == 'B' as int then DOWN else if b == 'C' as int then RIGHT
    else if b == 'D' as int then LEFT else if b == 'F' as int then END else if b == 'H' as int then HOME
    else 0
  }

  function TildeKey(digit: byte): byte {
    if digit == '1' as int || digit == '7' as int then HOME
    else if digit == '4' as int || digit == '8' as int then END
    else if digit == '3' as int then DEL
    else if digit == '5' as int then PGUP
    else if digit == '6' as int then PGDN
    else 0
  }

  function CtrlKey(r: Reader): Read {
    var n := NextByte(r);
    if n.value != '5' as int then Eaten(n.reader, n.value)
    else
      var m := NextByte(n.reader);
      if m.value == 'C' as int then Read(WORD_FWD, m.reader)
      else if m.value == 'D' as int then Read(WORD_BACK, m.reader)
      else Eaten(m.reader, m.value)
  }

  function CsiKey(r: Reader): Read {
    var n := NextByte(r);
    var b := n.value;
    if b >= 'A' as int then
      if b <= 'H' as int then Read(FinalKey(b), n.reader) else Eaten(n.reader, b)
    else if b < '1' as int || b >= '9' as int then Eaten(n.reader, b)
    else
      var m := NextByte(n.reader);
      if m.value == '~' as int then Read(TildeKey(b), m.reader)
      else if m.value == ';' as int then CtrlKey(m.reader)
      else Eaten(m.reader, m.value)
  }

  /** ESC O and P to S is no key; anything else is Escape, then O typed quickly. */
  function EscapeO(r: Reader): Read {
    if Waits(r) then
      var n := NextByte(r);
      if 'P' as int <= n.value <= 'S' as int then Read(0, n.reader)
      else Read(ESC, Unread(Unread(n.reader, n.value), 'O' as int))
    else Read(ESC, Unread(r, 'O' as int))
  }

  function EscapeKey(r: Reader): Read {
    if !Waits(r) then Read(ESC, r)
    else
      var n := NextByte(r);
      if n.value == '[' as int then CsiKey(n.reader)
      else if n.value == 'O' as int then EscapeO(n.reader)
      else Read(ESC, Unread(n.reader, n.value))
  }

  function Key(r: Reader): Read {
    var n := NextByte(r);
    if n.value == ESC then EscapeKey(n.reader)
    else if n.value < 0x7F then n
    else Read(if n.value == 0x7F then BS else 0, n.reader)
  }

  // ---- The bytes kept are never more than two ----

  /** Two are kept only after Escape and O, and the O comes first. */
  predicate Shallow(r: Reader) {
    |r.back| <= 2 && (|r.back| == 2 ==> r.back[1] == 'O' as int)
  }

  lemma {:induction false} EatenKeeps(r: Reader, b: byte)
    requires r.back == []
    ensures Eaten(r, b).reader.back == []
    decreases Left(r), b
  {
    if !(b == 0 || b >= 0x40) {
      var n := NextByte(r);
      if n.value != 0 {
        EatenKeeps(n.reader, n.value);
      }
    }
  }

  lemma CsiKeeps(r: Reader)
    requires r.back == []
    ensures CsiKey(r).reader.back == []
  {
    var n := NextByte(r);
    EatenKeeps(n.reader, n.value);
    var m := NextByte(n.reader);
    EatenKeeps(m.reader, m.value);
    var k := NextByte(m.reader);
    EatenKeeps(k.reader, k.value);
    var j := NextByte(k.reader);
    EatenKeeps(j.reader, j.value);
  }

  /** However the input comes, the two-deep store of bytes is enough. */
  lemma KeyStaysShallow(r: Reader)
    requires Shallow(r)
    ensures Shallow(Key(r).reader)
  {
    hide CsiKey;
    var n := NextByte(r);
    if n.value == ESC {
      assert n.reader.back == [];
      CsiKeeps(NextByte(n.reader).reader);
    }
  }

  // ---- What is typed is read ----

  datatype Typed =
    | Plain(b: byte)
    | Backspace
    | Escape
    | Named(final: byte)
    | Tilde(digit: byte)
    | Ctrl(digit: byte, forward: bool)
    | Function(letter: byte)
    | Other(params: seq<byte>, final: byte)

  predicate ValidTyped(k: Typed) {
    match k
    case Plain(b) => 0 < b && b != 0x7F && b != ESC
    case Named(final) => 'A' as int <= final <= 'H' as int
    case Tilde(digit) => '1' as int <= digit <= '8' as int
    case Ctrl(digit, _) => '1' as int <= digit <= '8' as int
    case Function(letter) => 'P' as int <= letter <= 'S' as int
    case Other(params, final) =>
      final >= 0x40 && (forall i :: 0 <= i < |params| ==> 0 < params[i] < 0x40) && !Listed(params, final)
    case _ => true
  }

  /** The sequence is that of a key above. */
  predicate Listed(params: seq<byte>, final: byte) {
    || (|params| == 0 && 'A' as int <= final <= 'H' as int)
    || (|params| == 1 && '1' as int <= params[0] <= '8' as int && final == '~' as int)
    || (|params| == 3 && '1' as int <= params[0] <= '8' as int && params[1..] == [';' as int, '5' as int]
        && (final == 'C' as int || final == 'D' as int))
  }

  /** The bytes a terminal sends for a key. */
  function Sequence(k: Typed): (s: seq<byte>)
    ensures s != []
  {
    match k
    case Plain(b) => [b]
    case Backspace => [0x7F]
    case Escape => [ESC]
    case Named(final) => [ESC, '[' as int, final]
    case Tilde(digit) => [ESC, '[' as int, digit, '~' as int]
    case Ctrl(digit, forward) => [ESC, '[' as int, digit, ';' as int, '5' as int, if forward then 'C' as int else 'D' as int]
    case Function(letter) => [ESC, 'O' as int, letter]
    case Other(params, final) => [ESC, '[' as int] + params + [final]
  }

  /** The keys that have no character. */
  datatype Stroke = ArrowUp | ArrowDown | ArrowLeft | ArrowRight | HomeKey | EndKey | PageUp | PageDown | DeleteKey
    | WordForward | WordBack | NoKey

  /** The key of a sequence: its last letter, or its number before a tilde. */
  function KeyOf(k: Typed): Stroke
    requires k.Named? || k.Tilde? || k.Ctrl? || k.Function? || k.Other?
  {
    match k
    case Named(final) =>
      (match final as char
       case 'A' => ArrowUp
       case 'B' => ArrowDown
       case 'C' => ArrowRight
       case 'D' => ArrowLeft
       case 'F' => EndKey
       case 'H' => HomeKey
       case _ => NoKey)
    case Tilde(digit) =>
      (match digit as char
       case '1' => HomeKey
       case '3' => DeleteKey
       case '4' => EndKey
       case '5' => PageUp
       case '6' => PageDown
       case '7' => HomeKey
       case '8' => EndKey
       case _ => NoKey)
    case Ctrl(_, forward) => if forward then WordForward else WordBack
    case Function(_) => NoKey
    case Other(_, _) => NoKey
  }

  function KeyCode(key: Stroke): byte {
    match key
    case ArrowUp => 0x80
    case ArrowDown => 0x81
    case ArrowLeft => 0x82
    case ArrowRight => 0x83
    case HomeKey => 0x84
    case EndKey => 0x85
    case PageUp => 0x86
    case PageDown => 0x87
    case DeleteKey => 0x88
    case WordForward => 0x89
    case WordBack => 0x8A
    case NoKey => 0x00
  }

  /** What is read for a key: its character, backspace, escape, or its code. */
  function Code(k: Typed): byte {
    match k
    case Plain(b) => if b < 0x80 then b else 0
    case Backspace => 0x08
    case Escape => 0x1B
    case _ => KeyCode(KeyOf(k))
  }

  /** A key's bytes together, after a pause. */
  function Arrivals(k: Typed): (s: seq<Arrival>)
    ensures |s| == |Sequence(k)|
  {
    var b := Sequence(k);
    seq(|b|, i requires 0 <= i < |b| => Arrival(b[i], i > 0))
  }

  function AllArrivals(ks: seq<Typed>): seq<Arrival> {
    if ks == [] then [] else Arrivals(ks[0]) + AllArrivals(ks[1..])
  }

  function Keys(r: Reader, n: nat): seq<byte>
    decreases n
  {
    if n == 0 then [] else [Key(r).value] + Keys(Key(r).reader, n - 1)
  }

  function Codes(ks: seq<Typed>): seq<byte> {
    if ks == [] then [] else [Code(ks[0])] + Codes(ks[1..])
  }

  lemma Byte0(a: Arrival, rest: seq<Arrival>)
    ensures NextByte(Reader([], [a] + rest)) == Read(a.value, Reader([], rest)) && Waits(Reader([], [a] + rest)) == a.soon
  {
    assert ([a] + rest)[1..] == rest;
  }

  /** A key's arrivals from its byte i on, and then the rest. */
  function From(k: Typed, i: nat, rest: seq<Arrival>): seq<Arrival>
    requires i <= |Sequence(k)|
  {
    Arrivals(k)[i..] + rest
  }

  lemma NextFrom(k: Typed, i: nat, rest: seq<Arrival>)
    requires i < |Sequence(k)|
    ensures NextByte(Reader([], From(k, i, rest))) == Read(Sequence(k)[i], Reader([], From(k, i + 1, rest)))
    ensures Waits(Reader([], From(k, i, rest))) == (i > 0)
  {
    assert From(k, i, rest) == [Arrivals(k)[i]] + From(k, i + 1, rest);
    Byte0(Arrivals(k)[i], From(k, i + 1, rest));
  }

  /** The rest of a sequence is drained through its final byte. */
  lemma {:induction false} Drained(k: Typed, i: nat, rest: seq<Arrival>)
    requires k.Other? && ValidTyped(k) && 3 <= i <= |Sequence(k)|
    ensures Eaten(Reader([], From(k, i, rest)), Sequence(k)[i - 1]) == Read(0, Reader([], rest))
    decreases |Sequence(k)| - i
  {
    hide NextByte, From, Arrivals, Listed;
    Whole(k, rest);
    if i < |Sequence(k)| {
      NextFrom(k, i, rest);
      Drained(k, i + 1, rest);
    }
  }

  lemma OtherRead(k: Typed, rest: seq<Arrival>)
    requires k.Other? && ValidTyped(k)
    ensures CsiKey(Reader([], From(k, 2, rest))) == Read(0, Reader([], rest))
  {
    hide NextByte, From, Arrivals, Eaten;
    var n, s := |k.params| + 3, Sequence(k);
    forall i | 3 <= i <= n ensures Eaten(Reader([], From(k, i, rest)), s[i - 1]) == Read(0, Reader([], rest)) {
      Drained(k, i, rest);
    }
    NextFrom(k, 2, rest);
    if n > 3 {
      NextFrom(k, 3, rest);
    }
    if n > 4 {
      NextFrom(k, 4, rest);
    }
    if n > 5 {
      NextFrom(k, 5, rest);
    }
    if n == 6 && s[3] == ';' as int && s[4] == '5' as int {
      assert k.params[1..] == [';' as int, '5' as int];
    }
  }

  lemma CsiRead(k: Typed, rest: seq<Arrival>)
    requires ValidTyped(k) && (k.Named? || k.Tilde? || k.Ctrl?)
    ensures CsiKey(Reader([], From(k, 2, rest))) == Read(Code(k), Reader([], rest))
  {
    hide NextByte, From, Arrivals, Eaten;
    var n := |Sequence(k)|;
    Whole(k, rest);
    NextFrom(k, 2, rest);
    if n > 3 {
      NextFrom(k, 3, rest);
    }
    if n > 4 {
      NextFrom(k, 4, rest);
      NextFrom(k, 5, rest);
    }
  }

  lemma TypedRead(k: Typed, rest: seq<Arrival>)
    requires ValidTyped(k) && (rest != [] ==> !rest[0].soon)
    ensures Key(Reader([], Arrivals(k) + rest)) == Read(Code(k), Reader([], rest))
  {
    hide NextByte, Waits, From, Arrivals, CsiKey, Listed;
    var n := |Sequence(k)|;
    Whole(k, rest);
    NextFrom(k, 0, rest);
    if n == 1 {
      Paused(rest);
    } else {
      NextFrom(k, 1, rest);
      if k.Function? {
        NextFrom(k, 2, rest);
      } else if k.Other? {
        OtherRead(k, rest);
      } else {
        CsiRead(k, rest);
      }
    }
  }

  lemma Whole(k: Typed, rest: seq<Arrival>)
    ensures From(k, 0, rest) == Arrivals(k) + rest && From(k, |Sequence(k)|, rest) == rest
  {
  }

  lemma Paused(rest: seq<Arrival>)
    requires rest != [] ==> !rest[0].soon
    ensures !Waits(Reader([], rest))
  {
  }

  lemma FirstPauses(ks: seq<Typed>)
    ensures AllArrivals(ks) != [] ==> !AllArrivals(ks)[0].soon
  {
  }

  /** Keys typed with a pause before each are read as those keys, whatever sequences they send. */
  lemma {:induction false} KeysAreTyped(ks: seq<Typed>)
    requires forall i :: 0 <= i < |ks| ==> ValidTyped(ks[i])
    ensures Keys(Reader([], AllArrivals(ks)), |ks|) == Codes(ks)
    decreases |ks|
  {
    if ks != [] {
      FirstPauses(ks[1..]);
      TypedRead(ks[0], AllArrivals(ks[1..]));
      KeysAreTyped(ks[1..]);
    }
  }

  /** Escape, O and another character typed with no pause are those three keys, but for O and P to S. */
  lemma EscapeOTyped(b: byte, rest: seq<Arrival>)
    requires 0 < b < 0x7F && b != ESC && !('P' as int <= b <= 'S' as int)
    ensures Keys(Reader([], [Arrival(ESC, false), Arrival('O' as int, true), Arrival(b, true)] + rest), 3) == [ESC, 'O' as int, b]
  {
    var o, x := [Arrival('O' as int, true)], [Arrival(b, true)];
    assert [Arrival(ESC, false), Arrival('O' as int, true), Arrival(b, true)] + rest == [Arrival(ESC, false)] + (o + (x + rest));
    Byte0(Arrival(ESC, false), o + (x + rest));
    Byte0(Arrival('O' as int, true), x + rest);
    Byte0(Arrival(b, true), rest);
    var r1 := Key(Reader([], [Arrival(ESC, false)] + (o + (x + rest)))).reader;
    assert r1 == Reader([b, 'O' as int], rest);
    var r2 := Key(r1).reader;
    assert Key(r1).value == 'O' as int && r2 == Reader([b], rest);
    assert Key(r2).value == b;
    assert Keys(r2, 1) == [b] + Keys(Key(r2).reader, 0);
  }

  /** Escape and any other character but [ and O, with no pause, are those two keys. */
  lemma EscapeTyped(b: byte, rest: seq<Arrival>)
    requires 0 < b < 0x7F && b != ESC && b != '[' as int && b != 'O' as int
    ensures Keys(Reader([], [Arrival(ESC, false), Arrival(b, true)] + rest), 2) == [ESC, b]
  {
    var x := [Arrival(b, true)];
    assert [Arrival(ESC, false), Arrival(b, true)] + rest == [Arrival(ESC, false)] + (x + rest);
    Byte0(Arrival(ESC, false), x + rest);
    Byte0(Arrival(b, true), rest);
    var r := Key(Reader([], [Arrival(ESC, false)] + (x + rest))).reader;
    assert r == Reader([b], rest) && Key(r).value == b;
    assert Keys(r, 1) == [b] + Keys(Key(r).reader, 0);
  }

  // ---- As it runs ----

  class Decoder {
    const pushback: array<byte>
    var count: nat
    var input: seq<Arrival>

    ghost predicate Valid()
      reads this, pushback
    {
      pushback.Length == 2 && count <= 2 && Shallow(State())
    }

    ghost function State(): Reader
      requires pushback.Length == 2 && count <= 2
      reads this, pushback
    {
      Reader(pushback[..count], input)
    }

    constructor (arrivals: seq<Arrival>)
      ensures Valid() && fresh(pushback) && State() == Reader([], arrivals)
    {
      pushback := new byte[2](_ => 0);
      count, input := 0, arrivals;
    }

    method ReadByte() returns (b: byte)
      requires pushback.Length == 2 && count <= 2
      modifies this
      ensures count <= old(count) && Read(b, State()) == NextByte(old(State()))
    {
      if count > 0 {
        count := count - 1;
        return pushback[count];
      }
      if input == [] {
        return 0;
      }
      b := input[0].value;
      input := input[1..];
    }

    method PutBack(b: byte)
      requires pushback.Length == 2 && count < 2
      modifies this`count, pushback
      ensures count == old(count) + 1 && State() == Unread(old(State()), b)
    {
      pushback[count] := b;
      count := count + 1;
    }

    method Eat(first: byte) returns (key: byte)
      requires pushback.Length == 2 && count <= 2
      modifies this
      ensures count <= 2 && Read(key, State()) == Eaten(old(State()), first)
    {
      var b := first;
      ghost var whole := Eaten(State(), b);
      while b != 0 && b < 0x40
        invariant count <= 2 && Eaten(State(), b) == whole
        decreases if b == 0 then 0 else 1, Left(State())
      {
        b := ReadByte();
      }
      key := 0;
    }

    method ReadCtrl() returns (key: byte)
      requires pushback.Length == 2 && count <= 2
      modifies this
      ensures count <= 2 && Read(key, State()) == CtrlKey(old(State()))
    {
      hide Eaten, NextByte;
      var b := ReadByte();
      if b != '5' as int {
        key := Eat(b);
        return;
      }
      b := ReadByte();
      if b == 'C' as int {
        return WORD_FWD;
      }
      if b == 'D' as int {
        return WORD_BACK;
      }
      key := Eat(b);
    }

    method ReadCsi() returns (key: byte)
      requires pushback.Length == 2 && count <= 2
      modifies this
      ensures count <= 2 && Read(key, State()) == CsiKey(old(State()))
    {
      hide Eaten, NextByte, CtrlKey;
      var b := ReadByte();
      if b >= 'A' as int {
        if b <= 'H' as int {
          return FinalKey(b);
        }
        key := Eat(b);
        return;
      }
      if b < '1' as int || b >= '9' as int {
        key := Eat(b);
        return;
      }
      var digit := b;
      b := ReadByte();
      if b == '~' as int {
        return TildeKey(digit);
      }
      if b != ';' as int {
        key := Eat(b);
        return;
      }
      key := ReadCtrl();
    }

    /** Whether a byte comes within the time an escape sequence takes. */
    method Wait() returns (more: bool)
      requires pushback.Length == 2 && count <= 2
      ensures more == Waits(State())
    {
      more := input != [] && input[0].soon;
    }

    method ReadEscape() returns (key: byte)
      requires pushback.Length == 2 && count == 0
      modifies this, pushback
      ensures count <= 2 && Read(key, State()) == EscapeKey(old(State()))
    {
      hide CsiKey;
      var more := Wait();
      if !more {
        return ESC;
      }
      var b := ReadByte();
      if b == '[' as int {
        key := ReadCsi();
        return;
      }
      if b == 'O' as int {
        more := Wait();
        if more {
          b := ReadByte();
          if 'P' as int <= b <= 'S' as int {
            return 0;
          }
          PutBack(b);
        }
        b := 'O' as int;
      }
      PutBack(b);
      key := ESC;
    }

    method ReadKey() returns (key: byte)
      requires Valid()
      modifies this, pushback
      ensures Valid() && Read(key, State()) == Key(old(State()))
    {
      hide EscapeKey;
      KeyStaysShallow(State());
      var b := ReadByte();
      if b < 0x7F && b != ESC {
        return b;
      }
      if b == 0x7F {
        return BS;
      }
      if b > 0x7F {
        return 0;
      }
      key := ReadEscape();
    }
  }
}
