/** A pass of the assembler over its lines: what each one does to the addresses, the labels, the list of forward
    references, the conditions and the output. */
module PyasmPass {
  import opened Words
  import opened PyasmExpression

  const DUPLICATE_LABEL := 2
  const VALUE_RANGE := 6
  const BRANCH_RANGE := 8
  const TEXT_AFTER_OPERAND := 10
  const BAD_MODE := 13
  const PC_BACKWARDS := 16
  const ENDIF_ALONE := 19
  const IFDEF_OPEN := 20
  const TOO_MANY_IFDEFS := 21
  const ZEROPAGE_FULL := 35
  const ASCIIZ_IN_ZEROPAGE := 38
  const DATA_IN_ZEROPAGE := 39
  const NO_DECISION := 256   // an index past the decisions of the first pass, which Python raises

  /** The end of the list of forward references. */
  const END: nat := 0xFFFF

  // ---- Source ----

  datatype Mode = Implied | Immediate | ZeroPage | ZeroPageX | ZeroPageY | Absolute | AbsoluteX | AbsoluteY |
    IndirectX | IndirectY | Relative | Indirect

  /** The modes an instruction has, with their opcodes. */
  type Modes = map<Mode, byte>

  datatype Index = Unindexed | X | Y

  datatype Operand =
    | NoOperand
    | Hash(value: Value)
    | ParenX(value: Value)
    | ParenY(value: Value)
    | Paren(value: Value)
    | Direct(value: Value, index: Index)

  datatype Item = Text(chars: seq<byte>) | Datum(value: Value)
  datatype Kind = ByteData | WordData | AsciizData

  datatype Body =
    | Nothing
    | Instruction(modes: Modes, operand: Operand)
    | Data(kind: Kind, items: seq<Item>)
    | Reserve(value: Value)
    | Zeropage
    | Code
    | Ifdef(name: string)
    | Endif

  datatype Label = Global(name: string, colon: bool) | Local(name: string, colon: bool)

  datatype Line =
    | SetPc(value: Value)
    | Assign(named: Label, value: Value)
    | Statement(tag: Option<Label>, body: Body)

  // ---- State ----

  /** Where code goes: the address, the one of the other segment, and what is out. */
  datatype Place = Place(pc: nat, saved: nat, inZeropage: bool, started: bool, output: seq<byte>)

  /** What passes from the first pass to the second. */
  datatype Tables = Tables(symbols: map<Key, nat>, refs: seq<nat>, decisions: seq<bool>)

  /** Where the second pass is in the list of forward references, and either in the conditions. */
  datatype Position = Position(ref: nat, ifdef: nat)

  datatype State = State(pass2: bool, place: Place, tables: Tables, position: Position, fwdref: bool,
                         scope: Option<string>, cond: nat, skip: nat)

  function ContextOf(s: State): Context {
    Context(s.pass2, s.tables.symbols, s.scope)
  }

  function ReadIn(s: State, v: Value): Outcome<Reading> {
    ReadValue(ContextOf(s), v, s.fwdref)
  }

  // ---- Addresses and output ----

  function Emitted(p: Place, pass2: bool, b: byte): Outcome<Place> {
    if p.inZeropage then if p.pc > 0xFF then Err(ZEROPAGE_FULL) else Ok(p.(pc := p.pc + 1))
    else Ok(p.(pc := (p.pc + 1) % 0x1_0000, output := if pass2 then p.output + [b] else p.output))
  }

  function EmittedAll(p: Place, pass2: bool, bytes: seq<byte>): Outcome<Place>
    decreases |bytes|
  {
    if bytes == [] then Ok(p)
    else
      match Emitted(p, pass2, bytes[0])
      case Err(code) => Err(code)
      case Ok(next) => EmittedAll(next, pass2, bytes[1..])
  }

  function Zeros(n: nat): seq<byte> {
    seq(n, _ => 0)
  }

  /** The address moved on, with zeros between in the second pass. */
  function Advanced(p: Place, pass2: bool, target: nat): Outcome<Place> {
    if p.inZeropage then if target > 0xFF then Err(ZEROPAGE_FULL) else Ok(p.(pc := target))
    else if !pass2 then Ok(p.(pc := target))
    else if p.pc < target then Ok(p.(pc := target, output := p.output + Zeros(target - p.pc)))
    else Ok(p)
  }

  function PcSet(p: Place, pass2: bool, target: nat): Outcome<Place> {
    if p.inZeropage then Ok(p.(pc := target))
    else if !p.started then Ok(p.(pc := target, started := true))
    else if target < p.pc then Err(PC_BACKWARDS)
    else Advanced(p, pass2, target)
  }

  function Swapped(p: Place, zeropage: bool): Place {
    if p.inZeropage == zeropage then p else p.(pc := p.saved, saved := p.pc, inZeropage := zeropage)
  }

  function WithPlace(s: State, p: Outcome<Place>): Outcome<State> {
    match p
    case Err(code) => Err(code)
    case Ok(place) => Ok(s.(place := place))
  }

  function Put(s: State, b: int): Outcome<State> {
    WithPlace(s, Emitted(s.place, s.pass2, b % 0x100))
  }

  function PutAll(s: State, bytes: seq<byte>): Outcome<State> {
    WithPlace(s, EmittedAll(s.place, s.pass2, bytes))
  }

  /** A value's byte, or its two, low byte first. */
  function PutValue(s: State, v: nat, wide: bool): Outcome<State> {
    match Put(s, v)
    case Err(code) => Err(code)
    case Ok(t) => if wide then Put(t, v / 0x100) else Ok(t)
  }

  // ---- Instructions ----

  function ZeroPageMode(i: Index): Mode {
    match i
    case Unindexed => ZeroPage
    case X => ZeroPageX
    case Y => ZeroPageY
  }

  function AbsoluteMode(i: Index): Mode {
    match i
    case Unindexed => Absolute
    case X => AbsoluteX
    case Y => AbsoluteY
  }

  datatype Choice = Choice(s: State, absolute: bool)

  /** A forward reference is absolute: the first pass lists where it is, and the second goes by the list. Otherwise the
      value decides, where the instruction has the zero-page mode. */
  function Chosen(s: State, modes: Modes, zeroPage: Mode, value: nat): Choice {
    var t := s.tables;
    if zeroPage !in modes then Choice(s, true)
    else if !s.pass2 && s.fwdref then Choice(s.(tables := t.(refs := t.refs + [s.place.pc])), true)
    else if s.pass2 && s.position.ref < |t.refs| && t.refs[s.position.ref] == s.place.pc then
      Choice(s.(position := s.position.(ref := s.position.ref + 1)), true)
    else Choice(s, value > 0xFF)
  }

  datatype Parsed = Parsed(s: State, mode: Mode, value: nat)

  function ParsedDirect(s: State, modes: Modes, index: Index, value: nat): Parsed {
    if Relative in modes then Parsed(s, Relative, value)
    else
      var c := Chosen(s, modes, ZeroPageMode(index), value);
      Parsed(c.s, if c.absolute then AbsoluteMode(index) else ZeroPageMode(index), value)
  }

  function ParsedOperand(s: State, modes: Modes, operand: Operand): Outcome<Parsed> {
    if operand.NoOperand? then Ok(Parsed(s, Implied, 0))
    else
      match ReadIn(s, operand.value)
      case Err(code) => Err(code)
      case Ok(r) =>
        var t := s.(fwdref := r.fwdref);
        match operand
        case Hash(_) => Ok(Parsed(t, Immediate, r.value))
        case ParenX(_) => Ok(Parsed(t, IndirectX, r.value))
        case ParenY(_) => Ok(Parsed(t, IndirectY, r.value))
        case Paren(_) => Ok(Parsed(t, Indirect, r.value))
        case Direct(_, index) => Ok(ParsedDirect(t, modes, index, r.value))
  }

  predicate WideMode(m: Mode) {
    m.Absolute? || m.AbsoluteX? || m.AbsoluteY? || m.Indirect?
  }

  /** A branch goes by the distance from the byte after it; the first pass has only its size. */
  function PutBranch(s: State, target: nat): Outcome<State> {
    var offset := target - s.place.pc - 1;
    if !s.pass2 then Put(s, target)
    else if offset < -128 || offset > 127 then Err(BRANCH_RANGE)
    else Put(s, offset)
  }

  function PutOperand(s: State, mode: Mode, value: nat): Outcome<State> {
    if mode == Implied then Ok(s)
    else if mode == Relative then PutBranch(s, value)
    else if WideMode(mode) then PutValue(s, value, true)
    else if s.pass2 && value > 0xFF then Err(VALUE_RANGE)
    else PutValue(s, value, false)
  }

  function PutInstruction(s: State, modes: Modes, mode: Mode, value: nat): Outcome<State> {
    if mode !in modes then Err(BAD_MODE)
    else
      match Put(s, modes[mode])
      case Err(code) => Err(code)
      case Ok(t) => PutOperand(t, mode, value)
  }

  function Instructed(s: State, modes: Modes, operand: Operand): Outcome<State> {
    match ParsedOperand(s, modes, operand)
    case Err(code) => Err(code)
    case Ok(p) =>
      match PutInstruction(p.s, modes, p.mode, p.value)
      case Err(code) => Err(code)
      case Ok(t) =>
        if p.mode == Relative && operand.Direct? && operand.index != Unindexed then Err(TEXT_AFTER_OPERAND) else Ok(t)
  }

  // ---- Data ----

  /** A byte is one from -256 to 255; the range shows once the value is final. */
  function PutDatum(s: State, kind: Kind, v: Value): Outcome<State> {
    match ReadIn(s, v)
    case Err(code) => Err(code)
    case Ok(r) =>
      if kind != WordData && s.pass2 && 0xFF < r.value < 0xFF00 then Err(VALUE_RANGE)
      else PutValue(s.(fwdref := r.fwdref), r.value, kind == WordData)
  }

  function PutItem(s: State, kind: Kind, item: Item): Outcome<State> {
    match item
    case Text(chars) => PutAll(s, chars)
    case Datum(v) => PutDatum(s, kind, v)
  }

  function PutItems(s: State, kind: Kind, items: seq<Item>): Outcome<State>
    decreases |items|
  {
    if items == [] then if kind == AsciizData then Put(s, 0) else Ok(s)
    else
      match PutItem(s, kind, items[0])
      case Err(code) => Err(code)
      case Ok(t) => PutItems(t, kind, items[1..])
  }

  function PutData(s: State, kind: Kind, items: seq<Item>): Outcome<State> {
    if !s.place.inZeropage then PutItems(s, kind, items)
    else if kind == AsciizData then Err(ASCIIZ_IN_ZEROPAGE)
    else if items != [] then Err(DATA_IN_ZEROPAGE)
    else PutValue(s, 0, kind == WordData)
  }

  function Reserved(s: State, v: Value): Outcome<State> {
    match ReadIn(s, v)
    case Err(code) => Err(code)
    case Ok(r) => WithPlace(s.(fwdref := r.fwdref), Advanced(s.place, s.pass2, s.place.pc + r.value))
  }

  // ---- Labels and conditions ----

  /** The first pass defines a label once. */
  function Define(s: State, key: Key, value: nat): Outcome<State> {
    if s.pass2 then Ok(s)
    else if key in s.tables.symbols then Err(DUPLICATE_LABEL)
    else Ok(s.(tables := s.tables.(symbols := s.tables.symbols[key := value])))
  }

  function KeyOf(s: State, tag: Label): Outcome<Key> {
    match tag
    case Global(name, _) => Ok(GlobalKey(name))
    case Local(name, _) => if s.scope.None? then Err(NO_GLOBAL_LABEL) else Ok(LocalKey(s.scope.value, name))
  }

  /** A label is the address; a global one is the scope of the local ones after it. */
  function Labelled(s: State, tag: Option<Label>): Outcome<State> {
    match tag
    case None => Ok(s)
    case Some(l) =>
      match KeyOf(s, l)
      case Err(code) => Err(code)
      case Ok(key) =>
        match Define(s, key, s.place.pc)
        case Err(code) => Err(code)
        case Ok(t) => Ok(if l.Global? then t.(scope := Some(l.name)) else t)
  }

  function Assigned(s: State, tag: Label, v: Value): Outcome<State> {
    match KeyOf(s, tag)
    case Err(code) => Err(code)
    case Ok(key) =>
      match ReadIn(s, v)
      case Err(code) => Err(code)
      case Ok(r) => Define(s.(fwdref := r.fwdref), key, r.value)
  }

  /** The first pass looks the label up and keeps what it finds; the second goes by that. */
  function Decided(s: State, name: string): Outcome<(State, bool)> {
    var t, i := s.tables, s.position.ifdef;
    var next := s.(position := s.position.(ifdef := i + 1));
    if s.pass2 then if i < |t.decisions| then Ok((next, t.decisions[i])) else Err(NO_DECISION)
    else if i >= 255 then Err(TOO_MANY_IFDEFS)
    else
      var defined := GlobalKey(name) in t.symbols;
      Ok((next.(tables := t.(decisions := t.decisions + [defined])), defined))
  }

  function IfdefOpened(s: State, name: string): Outcome<State> {
    var t := s.(cond := s.cond + 1);
    if s.skip > 0 then Ok(t)
    else
      match Decided(t, name)
      case Err(code) => Err(code)
      case Ok(d) => Ok(if d.1 then d.0 else d.0.(skip := t.cond))
  }

  function IfdefClosed(s: State): Outcome<State> {
    if s.cond == 0 then Err(ENDIF_ALONE)
    else Ok(s.(cond := s.cond - 1, skip := if s.cond - 1 < s.skip then 0 else s.skip))
  }

  // ---- Lines ----

  function Done(s: State, body: Body): Outcome<State> {
    match body
    case Nothing => Ok(s)
    case Instruction(modes, operand) => Instructed(s, modes, operand)
    case Data(kind, items) => PutData(s, kind, items)
    case Reserve(v) => Reserved(s, v)
    case Zeropage => Ok(s.(place := Swapped(s.place, true)))
    case Code => Ok(s.(place := Swapped(s.place, false)))
    case Ifdef(name) => IfdefOpened(s, name)
    case Endif => IfdefClosed(s)
  }

  function PcLine(s: State, v: Value): Outcome<State> {
    match ReadIn(s, v)
    case Err(code) => Err(code)
    case Ok(r) => WithPlace(s.(fwdref := r.fwdref), PcSet(s.place, s.pass2, r.value))
  }

  /** A skipped line only counts conditions, and not those after a label with a colon. */
  function Skipped(s: State, line: Line): Outcome<State> {
    if !line.Statement? || (line.tag.Some? && line.tag.value.colon) then Ok(s)
    else if line.body.Ifdef? then IfdefOpened(s, line.body.name)
    else if line.body.Endif? then IfdefClosed(s)
    else Ok(s)
  }

  function Step(s: State, line: Line): Outcome<State> {
    if s.skip > 0 then Skipped(s, line)
    else
      match line
      case SetPc(v) => PcLine(s, v)
      case Assign(named, v) => Assigned(s, named, v)
      case Statement(tag, body) =>
        match Labelled(s, tag)
        case Err(code) => Err(code)
        case Ok(t) => Done(t, body)
  }

  function RunLines(s: State, lines: seq<Line>): Outcome<State>
    decreases |lines|
  {
    if lines == [] then Ok(s)
    else
      match Step(s, lines[0])
      case Err(code) => Err(code)
      case Ok(t) => RunLines(t, lines[1..])
  }

  // ---- Both passes ----

  const NOWHERE := Place(0, 0, false, false, [])

  function Defined(names: seq<string>): map<Key, nat> {
    if names == [] then map[] else Defined(names[..|names| - 1])[GlobalKey(names[|names| - 1]) := 1]
  }

  function First(names: seq<string>): State {
    State(false, NOWHERE, Tables(Defined(names), [], []), Position(0, 0), false, None, 0, 0)
  }

  /** The second pass starts again, with what the first has found. */
  function Second(s: State): State {
    State(true, NOWHERE, s.tables.(refs := s.tables.refs + [END]), Position(0, 0), s.fwdref, None, 0, 0)
  }

  function RunPass(s: State, lines: seq<Line>): Outcome<State> {
    match RunLines(s, lines)
    case Err(code) => Err(code)
    case Ok(t) => if t.cond > 0 then Err(IFDEF_OPEN) else Ok(t)
  }

  function Assemble(names: seq<string>, lines: seq<Line>): Outcome<seq<byte>> {
    match RunPass(First(names), lines)
    case Err(code) => Err(code)
    case Ok(first) =>
      match RunPass(Second(first), lines)
      case Err(code) => Err(code)
      case Ok(second) => Ok(second.place.output)
  }
}
