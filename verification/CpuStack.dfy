/** Calls and interrupts on the 256-byte stack, nested in any way: each returns to where it left. */
module CpuStack {
  import opened Words
  import opened CpuArithmetic

  const SIZE := 0x100

  /** The stack pointer moved down or up, round the page. */
  function Down(sp: byte, n: nat): (r: byte)
    requires n < SIZE
  {
    if sp >= n then sp - n else sp - n + SIZE
  }

  function Up(sp: byte, n: nat): (r: byte)
    requires n < SIZE
  {
    if sp + n < SIZE then sp + n else sp + n - SIZE
  }

  /** The stack's page, the pointer to its next free byte, and what calls and interrupts save. */
  datatype Cpu = Cpu(pc: word, sp: byte, status: Status, stack: seq<byte>)

  ghost predicate ValidCpu(c: Cpu) {
    |c.stack| == SIZE
  }

  // ---- The status as a byte ----

  function Nibble(a: bool, b: bool, c: bool, d: bool): (r: int)
    ensures 0 <= r < 16
  {
    8 * Bit(a) + 4 * Bit(b) + 2 * Bit(c) + Bit(d)
  }

  function StatusByte(p: Status): byte {
    0x10 * Nibble(p.n, p.v, p.constant, p.b) + Nibble(p.d, p.i, p.z, p.c)
  }

  function StatusOf(v: byte): Status {
    var hi, lo := v / 0x10, v % 0x10;
    Status(hi / 8 % 2 == 1, hi / 4 % 2 == 1, hi / 2 % 2 == 1, hi % 2 == 1,
           lo / 8 % 2 == 1, lo / 4 % 2 == 1, lo / 2 % 2 == 1, lo % 2 == 1)
  }

  lemma NibbleRead(a: bool, b: bool, c: bool, d: bool)
    ensures var v := Nibble(a, b, c, d);
      a == (v / 8 % 2 == 1) && b == (v / 4 % 2 == 1) && c == (v / 2 % 2 == 1) && d == (v % 2 == 1)
  {
  }

  lemma StatusRead(p: Status)
    ensures StatusOf(StatusByte(p)) == p
  {
    hide Nibble;
    NibbleRead(p.n, p.v, p.constant, p.b);
    NibbleRead(p.d, p.i, p.z, p.c);
    assert StatusByte(p) / 0x10 == Nibble(p.n, p.v, p.constant, p.b) && StatusByte(p) % 0x10 == Nibble(p.d, p.i, p.z, p.c);
  }

  /** Flags from the highest bit: N, V, a constant, B, D, I, Z and C. */
  lemma StatusBits(p: Status)
    ensures StatusByte(p) == 0x80 * Bit(p.n) + 0x40 * Bit(p.v) + 0x20 * Bit(p.constant) + 0x10 * Bit(p.b)
      + 8 * Bit(p.d) + 4 * Bit(p.i) + 2 * Bit(p.z) + Bit(p.c)
  {
  }

  /** A status pulled: B is no flag of the CPU's, and the constant bit is 1. */
  function Pulled(p: Status): Status {
    p.(b := false, constant := true)
  }

  // ---- Pushes and pulls ----

  ghost function Push8(c: Cpu, v: byte): (r: Cpu)
    requires ValidCpu(c)
    ensures ValidCpu(r)
  {
    c.(stack := c.stack[c.sp := v], sp := Down(c.sp, 1))
  }

  ghost function Push16(c: Cpu, v: word): (r: Cpu)
    requires ValidCpu(c)
    ensures ValidCpu(r)
  {
    c.(stack := c.stack[c.sp := v / 0x100][Down(c.sp, 1) := v % 0x100], sp := Down(c.sp, 2))
  }

  function Top(c: Cpu, n: nat): byte
    requires |c.stack| == SIZE && n < SIZE
  {
    c.stack[Up(c.sp, n)]
  }

  function Top16(c: Cpu, n: nat): word
    requires |c.stack| == SIZE && n + 1 < SIZE
  {
    Top(c, n) as int + 0x100 * Top(c, n + 1) as int
  }

  // ---- Instructions ----

  /** A jump to a subroutine, pc at its opcode: the address of its last byte is saved. */
  ghost function Jsr(c: Cpu, target: word): (r: Cpu)
    requires ValidCpu(c)
    ensures ValidCpu(r)
  {
    Push16(c, (c.pc + 2) % 0x1_0000).(pc := target)
  }

  ghost function Rts(c: Cpu): Cpu
    requires ValidCpu(c)
  {
    c.(pc := (Top16(c, 1) + 1) % 0x1_0000, sp := Up(c.sp, 2))
  }

  lemma SavedFromAnywhere(c: Cpu, at: word, v: word, p: byte)
    requires ValidCpu(c)
    ensures Push8(Push16(c.(pc := at), v), p) == Push8(Push16(c, v), p).(pc := at)
  {
  }

  datatype Interrupt = Irq | Nmi | Brk

  /** An interrupt, or BRK with pc at its opcode, which saves the address two on, and B set; a 65C02 then leaves
      decimal mode. */
  ghost function Interrupted(c: Cpu, variant: Variant, how: Interrupt, vector: word): (r: Cpu)
    requires ValidCpu(c)
    ensures ValidCpu(r)
  {
    var p := if how == Brk then c.status.(constant := true) else c.status;
    var saved := Push16(c, if how == Brk then (c.pc + 2) % 0x1_0000 else c.pc);
    Push8(saved, StatusByte(if how == Brk then p.(b := true) else p)).(
      pc := vector, status := p.(i := true, d := if how == Brk && variant == Cmos then false else p.d))
  }

  /** BRK seen from past its opcode: the address after is saved. */
  lemma BrkFromPast(c: Cpu, variant: Variant, vector: word)
    requires ValidCpu(c) && c.status.constant
    ensures var p, back := c.status, (c.pc + 1) % 0x1_0000;
      Interrupted(c.(pc := (c.pc - 1) % 0x1_0000), variant, Brk, vector) ==
      Push8(Push16(c.(pc := back), back), StatusByte(p.(b := true))).(
        pc := vector, status := p.(i := true, d := if variant == Cmos then false else p.d))
  {
    hide StatusByte, Push8, Push16;
    var at, back := (c.pc - 1) % 0x1_0000, (c.pc + 1) % 0x1_0000;
    assert (at + 2) % 0x1_0000 == back;
    SavedFromAnywhere(c, at, back, StatusByte(c.status.(b := true)));
    SavedFromAnywhere(c, back, back, StatusByte(c.status.(b := true)));
  }

  ghost function Rti(c: Cpu): Cpu
    requires ValidCpu(c)
  {
    c.(status := Pulled(StatusOf(Top(c, 1))), pc := Top16(c, 2), sp := Up(c.sp, 3))
  }

  /** A subroutine or handler starts at its address. A handler runs with interrupts off, and on a 65C02 one for BRK in
      binary; no other flag changes but the constant, which BRK sets. */
  lemma Entered(c: Cpu, variant: Variant, how: Interrupt, at: word)
    requires ValidCpu(c)
    ensures Jsr(c, at).pc == at && Jsr(c, at).status == c.status && Interrupted(c, variant, how, at).pc == at
    ensures var p, q := c.status, Interrupted(c, variant, how, at).status;
      && q.i && q.d == (p.d && !(how == Brk && variant == Cmos)) && q.constant == (p.constant || how == Brk)
      && q.n == p.n && q.v == p.v && q.b == p.b && q.z == p.z && q.c == p.c
  {
    hide StatusByte;
  }

  // ---- Nesting ----

  /** Work of any kind that leaves the stack pointer and the live bytes alone; subroutines; interrupts; and a byte pushed
      and pulled around more. */
  datatype Node =
    | Work(pc: word, status: Status, scribble: byte -> byte)
    | Call(target: word, body: seq<Node>)
    | Handler(how: Interrupt, vector: word, body: seq<Node>)
    | Kept(value: byte, body: seq<Node>)

  /** The bytes a node has on the stack at once. */
  function Depth(n: Node): nat {
    match n
    case Work(_, _, _) => 0
    case Call(_, body) => 2 + DepthAll(body)
    case Handler(_, _, body) => 3 + DepthAll(body)
    case Kept(_, body) => 1 + DepthAll(body)
  }

  function DepthAll(nodes: seq<Node>): nat {
    if nodes == [] then 0 else Max(Depth(nodes[0]), DepthAll(nodes[1..]))
  }

  /** One of the live bytes last pushed, sp before the first of them. */
  predicate Live(sp: byte, live: nat, i: int) {
    (if i > sp then i - sp - 1 else i - sp - 1 + SIZE) < live
  }

  ghost function Scribbled(c: Cpu, live: nat, n: Node): (r: Cpu)
    requires ValidCpu(c) && n.Work?
    ensures ValidCpu(r)
  {
    Cpu(n.pc, c.sp, n.status, seq(SIZE, i requires 0 <= i < SIZE => if Live(c.sp, live, i) then c.stack[i] else n.scribble(i)))
  }

  ghost function Exec(c: Cpu, variant: Variant, live: nat, n: Node): (r: Cpu)
    requires ValidCpu(c)
    ensures ValidCpu(r)
    decreases n
  {
    match n
    case Work(_, _, _) => Scribbled(c, live, n)
    case Call(target, body) => Rts(ExecAll(Jsr(c, target), variant, live + 2, body))
    case Handler(how, vector, body) => Rti(ExecAll(Interrupted(c, variant, how, vector), variant, live + 3, body))
    case Kept(value, body) =>
      var r := ExecAll(Push8(c, value), variant, live + 1, body);
      r.(sp := Up(r.sp, 1))
  }

  ghost function ExecAll(c: Cpu, variant: Variant, live: nat, nodes: seq<Node>): (r: Cpu)
    requires ValidCpu(c)
    ensures ValidCpu(r)
    decreases nodes
  {
    if nodes == [] then c else ExecAll(Exec(c, variant, live, nodes[0]), variant, live, nodes[1..])
  }

  /** The stack pointer is where it was, and the live bytes what they were. */
  ghost predicate Unwound(c: Cpu, r: Cpu, live: nat)
    requires ValidCpu(c) && ValidCpu(r)
  {
    r.sp == c.sp && forall i :: 0 <= i < SIZE && Live(c.sp, live, i) ==> r.stack[i] == c.stack[i]
  }

  /** The slot of one of k bytes pushed with the stack pointer at sp. */
  predicate Pushed(sp: byte, k: nat, i: int) {
    exists j: nat :: j < k && j < SIZE && i == Down(sp, j)
  }

  /** With k bytes more pushed the live bytes are the old ones and those, and none is both. */
  lemma MoreLive(sp: byte, live: nat, k: nat, i: int)
    requires live + k <= SIZE && 0 <= i < SIZE && k <= 3
    ensures Live(sp, live, i) ==> Live(Down(sp, k), live + k, i) && !Pushed(sp, k, i)
    ensures Pushed(sp, k, i) ==> Live(Down(sp, k), live + k, i)
  {
  }

  /** A push of k bytes, and a body that unwinds them. */
  ghost predicate Around(c: Cpu, d: Cpu, e: Cpu, live: nat, k: nat)
    requires ValidCpu(c) && ValidCpu(d) && ValidCpu(e) && k <= 3
  {
    && live + k <= SIZE && d.sp == Down(c.sp, k) && Unwound(d, e, live + k)
    && forall i :: 0 <= i < SIZE && !Pushed(c.sp, k, i) ==> d.stack[i] == c.stack[i]
  }

  /** The bytes under the pushed ones are what they were before the push, and the pushed ones what was pushed. */
  lemma UnwoundAround(c: Cpu, d: Cpu, e: Cpu, live: nat, k: nat)
    requires ValidCpu(c) && ValidCpu(d) && ValidCpu(e) && k <= 3 && Around(c, d, e, live, k)
    ensures Up(e.sp, k) == c.sp && Unwound(c, e.(sp := Up(e.sp, k)), live)
    ensures forall j: nat :: j < k ==> e.stack[Down(c.sp, j)] == d.stack[Down(c.sp, j)]
  {
    forall i | 0 <= i < SIZE && Live(c.sp, live, i) ensures e.stack[i] == c.stack[i] {
      MoreLive(c.sp, live, k, i);
    }
    forall j: nat | j < k ensures e.stack[Down(c.sp, j)] == d.stack[Down(c.sp, j)] {
      assert Pushed(c.sp, k, Down(c.sp, j));
      MoreLive(c.sp, live, k, Down(c.sp, j));
    }
  }

  /** What a node promises: a subroutine comes back after its call, an interrupt to where it struck, with the status it
      struck; and the stack as it was under them. */
  ghost predicate Returns(c: Cpu, n: Node, r: Cpu) {
    match n
    case Call(_, _) => r.pc == (c.pc + 3) % 0x1_0000
    case Handler(how, _, _) => r.pc == (if how == Brk then (c.pc + 2) % 0x1_0000 else c.pc) && r.status == c.status.(b := false, constant := true)
    case _ => true
  }

  lemma Pushes(c: Cpu, v: word)
    requires ValidCpu(c)
    ensures var d := Push16(c, v);
      && d.stack[Down(c.sp, 0)] == v / 0x100 && d.stack[Down(c.sp, 1)] == v % 0x100
      && forall i :: 0 <= i < SIZE && !Pushed(c.sp, 2, i) ==> d.stack[i] == c.stack[i]
  {
    assert Pushed(c.sp, 2, Down(c.sp, 0)) && Pushed(c.sp, 2, Down(c.sp, 1));
  }

  lemma PushesByte(c: Cpu, v: byte)
    requires ValidCpu(c)
    ensures var d := Push8(c, v);
      d.stack[Down(c.sp, 0)] == v && forall i :: 0 <= i < SIZE && !Pushed(c.sp, 1, i) ==> d.stack[i] == c.stack[i]
  {
    assert Pushed(c.sp, 1, Down(c.sp, 0));
  }

  /** What an interrupt saves: the address, and the status under it. */
  lemma Interrupts(c: Cpu, variant: Variant, how: Interrupt, vector: word)
    requires ValidCpu(c)
    ensures var d := Interrupted(c, variant, how, vector);
      && var back := if how == Brk then (c.pc + 2) % 0x1_0000 else c.pc;
      && d.sp == Down(c.sp, 3) && d.stack[Down(c.sp, 0)] == back / 0x100 && d.stack[Down(c.sp, 1)] == back % 0x100
      && d.stack[Down(c.sp, 2)] == StatusByte(if how == Brk then c.status.(constant := true, b := true) else c.status)
      && forall i :: 0 <= i < SIZE && !Pushed(c.sp, 3, i) ==> d.stack[i] == c.stack[i]
  {
    hide StatusByte, Pushed;
    var back := if how == Brk then (c.pc + 2) % 0x1_0000 else c.pc;
    Pushes(c, back);
    forall i | 0 <= i < SIZE && !Pushed(c.sp, 3, i)
      ensures Interrupted(c, variant, how, vector).stack[i] == c.stack[i]
    {
      PushedMore(c.sp, i);
    }
  }

  lemma PushedMore(sp: byte, i: int)
    ensures Pushed(sp, 2, i) || i == Down(sp, 2) ==> Pushed(sp, 3, i)
  {
    if i == Down(sp, 2) {
      assert Pushed(sp, 3, i);
    }
  }

  lemma {:induction false} NodeReturns(c: Cpu, variant: Variant, live: nat, n: Node)
    requires ValidCpu(c) && live + Depth(n) <= SIZE
    ensures var r := Exec(c, variant, live, n); Unwound(c, r, live) && Returns(c, n, r)
    decreases n
  {
    hide StatusByte, StatusOf, Pushed, Live;
    match n {
      case Work(_, _, _) =>
      case Call(target, body) =>
        var d := Jsr(c, target);
        AllReturn(d, variant, live + 2, body);
        var e := ExecAll(d, variant, live + 2, body);
        Pushes(c, (c.pc + 2) % 0x1_0000);
        UnwoundAround(c, d, e, live, 2);
        CallReturns(c, target, e);
      case Handler(how, vector, body) =>
        var d := Interrupted(c, variant, how, vector);
        AllReturn(d, variant, live + 3, body);
        var e := ExecAll(d, variant, live + 3, body);
        Interrupts(c, variant, how, vector);
        UnwoundAround(c, d, e, live, 3);
        HandlerReturns(c, variant, how, vector, e);
      case Kept(value, body) =>
        var d := Push8(c, value);
        AllReturn(d, variant, live + 1, body);
        PushesByte(c, value);
        UnwoundAround(c, d, ExecAll(d, variant, live + 1, body), live, 1);
    }
  }

  /** Any nodes one after another, that fit the stack, leave it as it was. */
  lemma {:induction false} AllReturn(c: Cpu, variant: Variant, live: nat, nodes: seq<Node>)
    requires ValidCpu(c) && live + DepthAll(nodes) <= SIZE
    ensures Unwound(c, ExecAll(c, variant, live, nodes), live)
    decreases nodes
  {
    if nodes != [] {
      NodeReturns(c, variant, live, nodes[0]);
      AllReturn(Exec(c, variant, live, nodes[0]), variant, live, nodes[1..]);
    }
  }

  lemma CallReturns(c: Cpu, target: word, e: Cpu)
    requires ValidCpu(c) && ValidCpu(e) && Up(e.sp, 2) == c.sp
    requires var v := (c.pc + 2) % 0x1_0000; e.stack[Down(c.sp, 0)] == v / 0x100 && e.stack[Down(c.sp, 1)] == v % 0x100
    ensures Rts(e).pc == (c.pc + 3) % 0x1_0000
  {
    assert Up(e.sp, 1) == Down(c.sp, 1) && Up(e.sp, 2) == Down(c.sp, 0);
    assert Top16(e, 1) == (c.pc + 2) % 0x1_0000;
  }

  lemma HandlerReturns(c: Cpu, variant: Variant, how: Interrupt, vector: word, e: Cpu)
    requires ValidCpu(c) && ValidCpu(e) && Up(e.sp, 3) == c.sp
    requires var back := if how == Brk then (c.pc + 2) % 0x1_0000 else c.pc;
      && e.stack[Down(c.sp, 0)] == back / 0x100 && e.stack[Down(c.sp, 1)] == back % 0x100
      && e.stack[Down(c.sp, 2)] == StatusByte(if how == Brk then c.status.(constant := true, b := true) else c.status)
    ensures Returns(c, Handler(how, vector, []), Rti(e))
  {
    hide StatusByte, StatusOf;
    StatusRead(if how == Brk then c.status.(constant := true, b := true) else c.status);
    assert Up(e.sp, 1) == Down(c.sp, 2) && Up(e.sp, 2) == Down(c.sp, 1) && Up(e.sp, 3) == Down(c.sp, 0);
    assert Top16(e, 2) == if how == Brk then (c.pc + 2) % 0x1_0000 else c.pc;
  }

  /** A byte pushed is pulled again, whatever was nested between. */
  lemma KeptByte(c: Cpu, variant: Variant, live: nat, value: byte, body: seq<Node>)
    requires ValidCpu(c) && live + 1 + DepthAll(body) <= SIZE
    ensures Top(ExecAll(Push8(c, value), variant, live + 1, body), 1) == value
  {
    var d := Push8(c, value);
    AllReturn(d, variant, live + 1, body);
    PushesByte(c, value);
    UnwoundAround(c, d, ExecAll(d, variant, live + 1, body), live, 1);
  }
}
