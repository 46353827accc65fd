/** The assembled image: as long as the code address has moved, with every label's bytes where its value says, and every
    operand such that the CPU decodes it. */
module PyasmImage {
  import opened Words
  import opened PyasmExpression
  import opened PyasmPass
  import opened PyasmPhases

  // ---- Output and address move together ----

  /** What goes out is as much as the code address moves, as long as that stays at or below $FFFF. */
  ghost predicate Lays(p: Place, r: Place) {
    && p.output <= r.output && (p.started ==> r.started)
    && var n := |r.output| - |p.output|; CodePc(p) + n <= END ==> CodePc(r) == CodePc(p) + n
  }

  lemma {:induction false} EmittedAllLays(p: Place, bytes: seq<byte>)
    requires EmittedAll(p, true, bytes).Ok?
    ensures Lays(p, EmittedAll(p, true, bytes).value)
    decreases |bytes|
  {
    if bytes != [] {
      EmittedAllLays(Emitted(p, true, bytes[0]).value, bytes[1..]);
    }
  }

  lemma PutLays(s: State, b: int)
    requires s.pass2 && Put(s, b).Ok?
    ensures var r := Put(s, b).value; Lays(s.place, r.place) && r == s.(place := r.place)
  {
  }

  lemma PutValueLays(s: State, v: nat, wide: bool)
    requires s.pass2 && PutValue(s, v, wide).Ok?
    ensures var r := PutValue(s, v, wide).value; Lays(s.place, r.place) && r == s.(place := r.place)
  {
    PutLays(s, v);
    if wide {
      PutLays(Put(s, v).value, v / 0x100);
    }
  }

  lemma PutItemLays(s: State, kind: Kind, item: Item)
    requires s.pass2 && PutItem(s, kind, item).Ok?
    ensures var r := PutItem(s, kind, item).value; Lays(s.place, r.place) && r.pass2
  {
    match item {
      case Text(chars) => EmittedAllLays(s.place, chars);
      case Datum(v) =>
        var r := ReadIn(s, v).value;
        PutValueLays(s.(fwdref := r.fwdref), r.value, kind == WordData);
    }
  }

  lemma {:induction false} PutItemsLays(s: State, kind: Kind, items: seq<Item>)
    requires s.pass2 && PutItems(s, kind, items).Ok?
    ensures var r := PutItems(s, kind, items).value; Lays(s.place, r.place) && r.pass2
    decreases |items|
  {
    if items != [] {
      PutItemLays(s, kind, items[0]);
      PutItemsLays(PutItem(s, kind, items[0]).value, kind, items[1..]);
    }
  }

  lemma ParsedKeepsPlace(s: State, modes: Modes, operand: Operand)
    requires ParsedOperand(s, modes, operand).Ok?
    ensures var a := ParsedOperand(s, modes, operand).value; a.s.place == s.place && a.s.pass2 == s.pass2
  {
  }

  lemma PutInstructionLays(s: State, modes: Modes, mode: Mode, value: nat)
    requires s.pass2 && PutInstruction(s, modes, mode, value).Ok?
    ensures var r := PutInstruction(s, modes, mode, value).value; Lays(s.place, r.place) && r.pass2
  {
    PutLays(s, modes[mode]);
    var t := Put(s, modes[mode]).value;
    if mode == Relative {
      PutLays(t, value - t.place.pc - 1);
    } else if mode != Implied {
      PutValueLays(t, value, WideMode(mode));
    }
  }

  lemma InstructedLays(s: State, modes: Modes, operand: Operand)
    requires s.pass2 && Instructed(s, modes, operand).Ok?
    ensures var r := Instructed(s, modes, operand).value; Lays(s.place, r.place) && r.pass2
  {
    hide ParsedOperand, PutInstruction;
    var a := ParsedOperand(s, modes, operand).value;
    ParsedKeepsPlace(s, modes, operand);
    PutInstructionLays(a.s, modes, a.mode, a.value);
  }

  lemma AdvancedLays(p: Place, target: nat)
    requires Advanced(p, true, target).Ok?
    ensures Lays(p, Advanced(p, true, target).value)
  {
  }

  lemma DoneLays(s: State, body: Body)
    requires s.pass2 && Done(s, body).Ok?
    ensures var r := Done(s, body).value; Lays(s.place, r.place) && r.pass2
  {
    match body {
      case Instruction(modes, operand) => InstructedLays(s, modes, operand);
      case Data(kind, items) =>
        if s.place.inZeropage {
          PutValueLays(s, 0, kind == WordData);
        } else {
          PutItemsLays(s, kind, items);
        }
      case Reserve(v) => AdvancedLays(s.place, s.place.pc + ReadIn(s, v).value.value);
      case _ =>
    }
  }

  lemma StepLays(s: State, line: Line)
    requires s.pass2 && s.place.started && Step(s, line).Ok?
    ensures var r := Step(s, line).value; Lays(s.place, r.place) && r.pass2
  {
    if s.skip == 0 {
      match line {
        case SetPc(v) =>
        case Assign(_, _) =>
        case Statement(tag, body) => DoneLays(Labelled(s, tag).value, body);
      }
    }
  }

  // ---- The image ----

  /** The second pass of a program, as far as it gets, with its origin: it opens by setting the address, and what it puts
      out stays at or below $FFFF. */
  ghost predicate Image(u: seq<State>, lines: seq<Line>, origin: nat) {
    && 0 < |lines| && |u| == |lines| + 1 && u[0].pass2 && u[0].place == NOWHERE && u[0].skip == 0
    && lines[0].SetPc? && ReadIn(u[0], lines[0].value).Ok? && origin == ReadIn(u[0], lines[0].value).value.value
    && (forall k :: 0 <= k < |lines| ==> Step(u[k], lines[k]) == Ok(u[k + 1]))
    && origin + |u[|lines|].place.output| <= END
  }

  /** The image so far is what lies between its origin and the code address, and all of it stays in the image. */
  ghost predicate LaidOut(s: State, origin: nat, image: seq<byte>) {
    && s.pass2 && s.place.started && s.place.output <= image && CodePc(s.place) == origin + |s.place.output|
  }

  lemma {:induction false} OutputsGrow(u: seq<State>, lines: seq<Line>, k: nat, n: nat)
    requires 0 < k <= n <= |lines| && |u| == |lines| + 1 && u[k].pass2 && u[k].place.started
    requires forall i :: 0 <= i < |lines| ==> Step(u[i], lines[i]) == Ok(u[i + 1])
    ensures u[n].pass2 && u[n].place.started && u[k].place.output <= u[n].place.output
    decreases n - k
  {
    if k < n {
      assert Step(u[k], lines[k]) == Ok(u[k + 1]);
      StepLays(u[k], lines[k]);
      OutputsGrow(u, lines, k + 1, n);
    }
  }

  lemma {:induction false} ImageLaidOut(u: seq<State>, lines: seq<Line>, origin: nat, k: nat)
    requires Image(u, lines, origin) && 0 < k <= |lines|
    ensures LaidOut(u[k], origin, u[|lines|].place.output)
  {
    assert Step(u[0], lines[0]) == Ok(u[1]);
    OutputsGrow(u, lines, 1, k);
    OutputsGrow(u, lines, k, |lines|);
    if k > 1 {
      ImageLaidOut(u, lines, origin, k - 1);
      assert Step(u[k - 1], lines[k - 1]) == Ok(u[k - 1 + 1]);
      StepLays(u[k - 1], lines[k - 1]);
    }
  }

  /** The image is as long as from its origin to the last code address. */
  lemma ImageLength(u: seq<State>, lines: seq<Line>, origin: nat)
    requires Image(u, lines, origin)
    ensures |u[|lines|].place.output| == CodePc(u[|lines|].place) - origin
  {
    ImageLaidOut(u, lines, origin, |lines|);
  }

  /** The line defines the label where the first pass meets it. */
  lemma LabelDefined(p: State, line: Line, f: Tables)
    requires !p.pass2 && p.skip == 0 && line.Statement? && line.tag.Some? && Step(p, line).Ok? && Stands(p, line)
    requires Extends(Step(p, line).value, f)
    ensures KeyOf(p, line.tag.value).Ok?
    ensures var key := KeyOf(p, line.tag.value).value; key in f.symbols && f.symbols[key] == p.place.pc
  {
    LabelledGrows(p, line.tag);
    DoneGrows(Labelled(p, line.tag).value, line.body);
  }

  /** A code label's bytes start in the image at the label less the origin: they are what its line puts out. */
  lemma LabelInImage(names: seq<string>, lines: seq<Line>, origin: nat, k: nat)
    requires TwoPasses(names, lines, |lines|) && 0 < k < |lines|
    requires RunLines(Second(RunLines(First(names), lines).value), lines).Ok?
    requires var f := RunLines(First(names), lines).value; Image(Trace(Second(f), lines), lines, origin)
    requires forall i :: 0 <= i < |lines| ==> Plain(Trace(First(names), lines)[i], lines[i])
    requires var p := Trace(First(names), lines)[k];
      p.skip == 0 && !p.place.inZeropage && lines[k].Statement? && lines[k].tag.Some?
    ensures var f := RunLines(First(names), lines).value;
      var p, u, key := Trace(First(names), lines)[k], Trace(Second(f), lines), KeyOf(Trace(First(names), lines)[k], lines[k].tag.value);
      && key.Ok? && key.value in f.tables.symbols
      && var image, at := u[|lines|].place.output, f.tables.symbols[key.value] - origin;
      && 0 <= at <= |image| && image[..at] == u[k].place.output && u[k].place.output <= u[k + 1].place.output <= image
  {
    assert lines[..|lines|] == lines;
    var f, t, u := BothTraces(names, lines, |lines|);
    PlainPassesAgree(names, lines, |lines|);
    assert Agree(t[k], u[k], f.tables);
    assert Step(t[k], lines[k]) == Ok(t[k + 1]);
    PassGrows(t, lines, k);
    LabelDefined(t[k], lines[k], f.tables);
    ImageLaidOut(u, lines, origin, k);
    ImageLaidOut(u, lines, origin, k + 1);
    assert Step(u[k], lines[k]) == Ok(u[k + 1]);
    StepLays(u[k], lines[k]);
  }

  // ---- What the CPU makes of an instruction's bytes ----

  /** Where a branch at pc goes: its offset is extended with its sign and added to the address after it. */
  function Landing(pc: word, offset: byte): word {
    var extended := if offset >= 0x80 then 0xFF00 + offset as int else offset as int;
    (pc + 2 + extended) % 0x1_0000
  }

  /** The operand the CPU reads after the opcode at pc. */
  function Decoded(pc: word, mode: Mode, operand: seq<byte>): word
    requires |operand| == if WideMode(mode) then 2 else 1
  {
    if mode == Relative then Landing(pc, operand[0])
    else if WideMode(mode) then operand[0] as int + 0x100 * operand[1] as int
    else operand[0] as int
  }

  /** The bytes are a mode's opcode and an operand that the CPU, at the address, decodes to the value. */
  predicate Encodes(pc: word, modes: Modes, mode: Mode, value: nat, bytes: seq<byte>) {
    && mode in modes && |bytes| == (if mode == Implied then 1 else if WideMode(mode) then 3 else 2)
    && bytes[0] == modes[mode]
    && (mode != Implied ==> Decoded(pc, mode, bytes[1..]) == value % 0x1_0000)
  }

  lemma PutInstructionEncodes(s: State, modes: Modes, mode: Mode, value: nat)
    requires s.pass2 && !s.place.inZeropage && s.place.pc <= END && PutInstruction(s, modes, mode, value).Ok?
    ensures var r := PutInstruction(s, modes, mode, value).value.place.output;
      s.place.output <= r && Encodes(s.place.pc, modes, mode, value, r[|s.place.output|..])
  {
    if mode == Relative {
      BranchLands(s.place.pc, value);
    }
    var out, r := s.place.output, PutInstruction(s, modes, mode, value).value.place.output;
    assert |r| > |out| && r[|out|..][0] == r[|out|] && r[|out|..][1..] == r[|out| + 1..];
  }

  /** What the second pass puts out for an instruction encodes it, in the mode and with the value read for it. */
  lemma InstructionEncodes(s: State, modes: Modes, operand: Operand)
    requires s.pass2 && !s.place.inZeropage && s.place.pc <= END && Instructed(s, modes, operand).Ok?
    ensures var a, r := ParsedOperand(s, modes, operand).value, Instructed(s, modes, operand).value.place.output;
      s.place.output <= r && Encodes(s.place.pc, modes, a.mode, a.value, r[|s.place.output|..])
  {
    hide ParsedOperand, PutInstruction, Encodes;
    var a := ParsedOperand(s, modes, operand).value;
    ParsedKeepsPlace(s, modes, operand);
    PutInstructionEncodes(a.s, modes, a.mode, a.value);
  }

  /** A branch in range, going by the address after its opcode as the assembler counts it, lands on its target. */
  lemma BranchLands(pc: word, target: nat)
    requires -128 <= target - (pc + 1) % 0x1_0000 - 1 <= 127
    ensures Landing(pc, (target - (pc + 1) % 0x1_0000 - 1) % 0x100) == target % 0x1_0000
  {
    var offset := target - (pc + 1) % 0x1_0000 - 1;
    assert offset % 0x100 == if offset < 0 then offset + 0x100 else offset;
  }

  /** So in the image the CPU finds, at every instruction's address, its opcode and an operand it decodes as written. */
  lemma InstructionInImage(u: seq<State>, lines: seq<Line>, origin: nat, k: nat)
    requires Image(u, lines, origin) && 0 < k < |lines| && u[k].skip == 0 && !u[k].place.inZeropage
    requires lines[k].Statement? && lines[k].body.Instruction?
    ensures Labelled(u[k], lines[k].tag).Ok?
    ensures var s, body, image := Labelled(u[k], lines[k].tag).value, lines[k].body, u[|lines|].place.output;
      && ParsedOperand(s, body.modes, body.operand).Ok?
      && var a, at := ParsedOperand(s, body.modes, body.operand).value, u[k].place.pc - origin;
      && 0 <= at <= |u[k + 1].place.output| <= |image|
      && Encodes(u[k].place.pc, body.modes, a.mode, a.value, image[at..|u[k + 1].place.output|])
  {
    ImageLaidOut(u, lines, origin, k);
    ImageLaidOut(u, lines, origin, k + 1);
    assert Step(u[k], lines[k]) == Ok(u[k + 1]);
    var s, body := Labelled(u[k], lines[k].tag).value, lines[k].body;
    InstructionEncodes(s, body.modes, body.operand);
    var image, next := u[|lines|].place.output, u[k + 1].place.output;
    assert image[..|next|] == next;
  }
}
