/** What an operand as written stands for, and what the CPU makes of the bytes assembled for it. */
module PyasmOperand {
  import opened Words
  import opened PyasmExpression
  import opened PyasmPass
  import opened PyasmImage
  import CpuArithmetic

  /** The CPU, its index registers and what it reads at each address. */
  datatype Machine = Machine(variant: CpuArithmetic.Variant, x: byte, y: byte, memory: word -> byte)

  /** What an instruction works on: nothing, a number, an address to go to, or the cell at an address. */
  datatype Effect = NoEffect | Number(v: nat) | Target(pc: word) | At(address: word)

  function Pointer(m: Machine, low: word, high: word): word {
    m.memory(low) as int + 0x100 * m.memory(high) as int
  }

  // ---- As written ----

  function IndexValue(m: Machine, i: Index): nat {
    match i
    case Unindexed => 0
    case X => m.x
    case Y => m.y
  }

  /** An operand of value v, to a branch or not: a number, the address to go to, or a cell. Pointers in the zero page keep
      within it. */
  function Denoted(m: Machine, branch: bool, operand: Operand, v: word): Effect {
    match operand
    case NoOperand => NoEffect
    case Hash(_) => Number(v)
    case ParenX(_) => At(Pointer(m, (v + m.x) % 0x100, (v + m.x + 1) % 0x100))
    case ParenY(_) => At((Pointer(m, v, (v + 1) % 0x100) + m.y) % 0x1_0000)
    case Paren(_) => At(Pointer(m, v, (v + 1) % 0x1_0000))
    case Direct(_, index) => if branch then Target(v) else At((v + IndexValue(m, index)) % 0x1_0000)
  }

  /** Indexing an address in the zero page stays in it; an NMOS CPU takes the high byte of a pointer at the end of a page
      from the page's start. Otherwise, what is written. */
  function Expected(m: Machine, branch: bool, operand: Operand, v: word, size: nat): Effect {
    if operand.Direct? && !branch && size == 2 then At((v + IndexValue(m, operand.index)) % 0x100)
    else if operand.Paren? && m.variant == CpuArithmetic.Nmos && v % 0x100 == 0xFF then At(Pointer(m, v, v - 0xFF))
    else Denoted(m, branch, operand, v)
  }

  /** Indexing in the zero page is as written exactly where it does not pass its end. */
  lemma ZeroPageIndexWraps(m: Machine, operand: Operand, v: byte)
    requires operand.Direct?
    ensures Expected(m, false, operand, v, 2) == Denoted(m, false, operand, v) <==> v + IndexValue(m, operand.index) <= 0xFF
  {
  }

  // ---- As the CPU forms it ----

  function OperandSize(mode: Mode): nat {
    match mode
    case Implied => 0
    case Absolute => 2
    case AbsoluteX => 2
    case AbsoluteY => 2
    case Indirect => 2
    case _ => 1
  }

  /** The address a page's last byte is followed by when only the low byte counts on. */
  function InPage(at: word): word {
    at / 0x100 * 0x100 + (at + 1) % 0x100
  }

  /** The operand of an instruction at pc, from the bytes after its opcode. */
  function Formed(m: Machine, pc: word, mode: Mode, bytes: seq<byte>): Effect
    requires |bytes| == OperandSize(mode)
  {
    match mode
    case Implied => NoEffect
    case Immediate => Number(bytes[0])
    case Relative => Target(Landing(pc, bytes[0]))
    case ZeroPage => At(bytes[0])
    case ZeroPageX => At((bytes[0] + m.x) % 0x100)
    case ZeroPageY => At((bytes[0] + m.y) % 0x100)
    case Absolute => At(Join(bytes[1], bytes[0]))
    case AbsoluteX => At((Join(bytes[1], bytes[0]) as int + m.x) % 0x1_0000)
    case AbsoluteY => At((Join(bytes[1], bytes[0]) as int + m.y) % 0x1_0000)
    case IndirectX =>
      var p := (bytes[0] + m.x) % 0x100;
      At(Pointer(m, p, (p + 1) % 0x100))
    case IndirectY => At((Pointer(m, bytes[0], InPage(bytes[0])) + m.y) % 0x1_0000)
    case Indirect =>
      var p: word := Join(bytes[1], bytes[0]);
      At(Pointer(m, p, if m.variant == CpuArithmetic.Nmos then InPage(p) else (p + 1) % 0x1_0000))
  }

  // ---- They are the same ----

  /** The CPU's table of opcodes has the instruction's as the assembler's does. */
  ghost predicate Tabled(decode: byte -> Mode, modes: Modes) {
    forall mode :: mode in modes ==> decode(modes[mode]) == mode
  }

  /** The value of an operand where it is read. */
  function ValueIn(s: State, operand: Operand): Outcome<nat> {
    if operand.NoOperand? then Ok(0)
    else
      match ReadIn(s, operand.value)
      case Err(code) => Err(code)
      case Ok(r) => Ok(r.value)
  }

  /** The bytes are an instruction that does with the CPU what its operand says. */
  ghost predicate Means(m: Machine, decode: byte -> Mode, pc: word, branch: bool, operand: Operand, v: nat, bytes: seq<byte>) {
    && bytes != [] && |bytes| == 1 + OperandSize(decode(bytes[0]))
    && (|bytes| == 2 && decode(bytes[0]) != Relative ==> v <= 0xFF)
    && Formed(m, pc, decode(bytes[0]), bytes[1..]) == Expected(m, branch, operand, v % 0x1_0000, |bytes|)
  }

  lemma ByteFits(s: State, modes: Modes, mode: Mode, value: nat)
    requires s.pass2 && PutInstruction(s, modes, mode, value).Ok? && OperandSize(mode) == 1 && mode != Relative
    ensures value <= 0xFF
  {
  }

  /** The operand the CPU forms in a mode from a value's bytes. */
  function FormedOf(m: Machine, mode: Mode, v: word): Effect {
    match mode
    case Implied => NoEffect
    case Immediate => Number(v)
    case Relative => Target(v)
    case ZeroPage => At(v)
    case ZeroPageX => At((v + m.x) % 0x100)
    case ZeroPageY => At((v + m.y) % 0x100)
    case Absolute => At(v)
    case AbsoluteX => At((v + m.x) % 0x1_0000)
    case AbsoluteY => At((v + m.y) % 0x1_0000)
    case IndirectX => At(Pointer(m, (v + m.x) % 0x100, ((v + m.x) % 0x100 + 1) % 0x100))
    case IndirectY => At((Pointer(m, v, InPage(v)) + m.y) % 0x1_0000)
    case Indirect => At(Pointer(m, v, if m.variant == CpuArithmetic.Nmos then InPage(v) else (v + 1) % 0x1_0000))
  }

  lemma EncodedForms(m: Machine, pc: word, modes: Modes, mode: Mode, value: nat, bytes: seq<byte>)
    requires Encodes(pc, modes, mode, value, bytes) && (OperandSize(mode) == 1 && mode != Relative ==> value <= 0xFF)
    ensures |bytes| == 1 + OperandSize(mode)
    ensures mode != Implied ==> Formed(m, pc, mode, bytes[1..]) == FormedOf(m, mode, value % 0x1_0000)
  {
    hide Landing, Pointer, InPage;
  }

  /** The modes for an operand's shape. */
  predicate Suits(mode: Mode, branch: bool, operand: Operand) {
    match operand
    case NoOperand => mode == Implied
    case Hash(_) => mode == Immediate
    case ParenX(_) => mode == IndirectX
    case ParenY(_) => mode == IndirectY
    case Paren(_) => mode == Indirect
    case Direct(_, Unindexed) => if branch then mode == Relative else mode == ZeroPage || mode == Absolute
    case Direct(_, X) => if branch then mode == Relative else mode == ZeroPageX || mode == AbsoluteX
    case Direct(_, Y) => if branch then mode == Relative else mode == ZeroPageY || mode == AbsoluteY
  }

  lemma ModeSuits(s: State, modes: Modes, operand: Operand)
    requires ParsedOperand(s, modes, operand).Ok?
    ensures ValueIn(s, operand).Ok? && ParsedOperand(s, modes, operand).value.value == ValueIn(s, operand).value
    ensures Suits(ParsedOperand(s, modes, operand).value.mode, Relative in modes, operand)
  {
    hide ReadIn, Chosen;
  }

  lemma PointersMeet(v: word, x: byte)
    ensures ((v + x) % 0x100 + 1) % 0x100 == (v + x + 1) % 0x100
    ensures InPage(v) == if v % 0x100 == 0xFF then v - 0xFF else (v + 1) % 0x1_0000
    ensures v <= 0xFF ==> InPage(v) == (v + 1) % 0x100
  {
    NextInPage(v + x);
    NextInPage(v);
  }

  lemma NextInPage(n: nat)
    ensures (n + 1) % 0x100 == (if n % 0x100 == 0xFF then 0 else n % 0x100 + 1) == (n % 0x100 + 1) % 0x100
  {
    var q := n / 0x100;
    if n % 0x100 == 0xFF {
      ModUnique(n + 1, 0x100, q + 1, 0);
    } else {
      ModUnique(n + 1, 0x100, q, n % 0x100 + 1);
    }
  }

  lemma SuitingMeans(m: Machine, mode: Mode, branch: bool, operand: Operand, v: word)
    requires Suits(mode, branch, operand) && (OperandSize(mode) == 1 && mode != Relative ==> v <= 0xFF)
    ensures FormedOf(m, mode, v) == Expected(m, branch, operand, v, 1 + OperandSize(mode))
  {
    hide Pointer, InPage;
    PointersMeet(v, m.x);
    if operand.Direct? {
      hide FormedOf, Expected;
      DirectMeans(m, mode, branch, operand, v);
    }
  }

  lemma DirectMeans(m: Machine, mode: Mode, branch: bool, operand: Operand, v: word)
    requires operand.Direct?
    requires Suits(mode, branch, operand) && (OperandSize(mode) == 1 && mode != Relative ==> v <= 0xFF)
    ensures FormedOf(m, mode, v) == Expected(m, branch, operand, v, 1 + OperandSize(mode))
  {
    hide Pointer, InPage;
  }

  /** The mode an operand's shape and value make is one in which the CPU forms what is written. */
  lemma ModeMeans(m: Machine, s: State, modes: Modes, operand: Operand)
    requires ParsedOperand(s, modes, operand).Ok?
    requires var a := ParsedOperand(s, modes, operand).value;
      OperandSize(a.mode) == 1 && a.mode != Relative ==> a.value <= 0xFF
    ensures ValueIn(s, operand).Ok? && ParsedOperand(s, modes, operand).value.value == ValueIn(s, operand).value
    ensures var a := ParsedOperand(s, modes, operand).value;
      FormedOf(m, a.mode, a.value % 0x1_0000) ==
      Expected(m, Relative in modes, operand, a.value % 0x1_0000, 1 + OperandSize(a.mode))
  {
    hide Pointer, Suits, FormedOf, Expected, ParsedOperand, ValueIn;
    ModeSuits(s, modes, operand);
    var a := ParsedOperand(s, modes, operand).value;
    SuitingMeans(m, a.mode, Relative in modes, operand, a.value % 0x1_0000);
  }

  lemma ModeForms(m: Machine, s: State, modes: Modes, operand: Operand, pc: word, bytes: seq<byte>)
    requires s.pass2 && Instructed(s, modes, operand).Ok? && ParsedOperand(s, modes, operand).Ok?
    requires var a := ParsedOperand(s, modes, operand).value; Encodes(pc, modes, a.mode, a.value, bytes)
    ensures var a := ParsedOperand(s, modes, operand).value;
      && ValueIn(s, operand).Ok? && |bytes| == 1 + OperandSize(a.mode)
      && var v := ValueIn(s, operand).value;
      && (OperandSize(a.mode) == 1 && a.mode != Relative ==> v <= 0xFF)
      && Formed(m, pc, a.mode, bytes[1..]) == Expected(m, Relative in modes, operand, v % 0x1_0000, |bytes|)
  {
    hide Expected, FormedOf, ParsedOperand, Encodes, PutInstruction, ValueIn;
    var a := ParsedOperand(s, modes, operand).value;
    ParsedKeepsPlace(s, modes, operand);
    if OperandSize(a.mode) == 1 && a.mode != Relative {
      ByteFits(a.s, modes, a.mode, a.value);
    }
    EncodedForms(m, pc, modes, a.mode, a.value, bytes);
    ModeMeans(m, s, modes, operand);
    if a.mode == Implied {
      NothingFormed(m, a.value % 0x1_0000);
    }
  }

  lemma NothingFormed(m: Machine, v: word)
    ensures FormedOf(m, Implied, v) == NoEffect
  {
  }

  /** At every instruction of the image, the CPU forms the operand that is written, by its shape, its index and its
      value. */
  lemma OperandMeans(m: Machine, decode: byte -> Mode, u: seq<State>, lines: seq<Line>, origin: nat, k: nat)
    requires Image(u, lines, origin) && 0 < k < |lines| && u[k].skip == 0 && !u[k].place.inZeropage
    requires lines[k].Statement? && lines[k].body.Instruction? && Tabled(decode, lines[k].body.modes)
    ensures Labelled(u[k], lines[k].tag).Ok?
    ensures var s, body, image := Labelled(u[k], lines[k].tag).value, lines[k].body, u[|lines|].place.output;
      && ValueIn(s, body.operand).Ok? && u[k].place.pc <= END
      && var at := u[k].place.pc - origin;
      && 0 <= at <= |u[k + 1].place.output| <= |image|
      && Means(m, decode, u[k].place.pc, Relative in body.modes, body.operand, ValueIn(s, body.operand).value,
               image[at..|u[k + 1].place.output|])
  {
    hide Encodes, ParsedOperand, Formed, Expected, Labelled, Instructed;
    InstructionInImage(u, lines, origin, k);
    ImageLaidOut(u, lines, origin, k);
    assert Step(u[k], lines[k]) == Ok(u[k + 1]);
    var s, body, image := Labelled(u[k], lines[k].tag).value, lines[k].body, u[|lines|].place.output;
    var a, at := ParsedOperand(s, body.modes, body.operand).value, u[k].place.pc - origin;
    var bytes := image[at..|u[k + 1].place.output|];
    LabelledKeepsPass(u[k], lines[k].tag);
    ModeForms(m, s, body.modes, body.operand, u[k].place.pc, bytes);
    FirstIsOpcode(u[k].place.pc, body.modes, a.mode, a.value, bytes);
  }

  lemma LabelledKeepsPass(s: State, tag: Option<Label>)
    requires s.pass2 && Labelled(s, tag).Ok?
    ensures Labelled(s, tag).value.pass2
  {
  }

  lemma FirstIsOpcode(pc: word, modes: Modes, mode: Mode, value: nat, bytes: seq<byte>)
    requires Encodes(pc, modes, mode, value, bytes)
    ensures bytes != [] && mode in modes && bytes[0] == modes[mode]
  {
  }
}
