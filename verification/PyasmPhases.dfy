/** The two passes agree: the second reaches every line where the first did, and picks the same modes. */
module PyasmPhases {
  import opened Words
  import opened PyasmExpression
  import opened PyasmPass

  // ---- What the first pass leaves behind ----

  /** The address in the code segment. */
  function CodePc(p: Place): nat {
    if p.inZeropage then p.saved else p.pc
  }

  /** A step of the first pass adds to its tables: a label, a decision, a forward reference where code goes. */
  ghost predicate Grows(p: State, r: State) {
    && !p.pass2 && !r.pass2 && (p.place.started ==> r.place.started)
    && (forall key :: key in p.tables.symbols ==>
         key in r.tables.symbols && r.tables.symbols[key] == p.tables.symbols[key])
    && (r.tables.refs == p.tables.refs || (r.tables.refs == p.tables.refs + [CodePc(p.place)] && p.place.started))
    && p.tables.decisions <= r.tables.decisions
    && r.position.ifdef - |r.tables.decisions| == p.position.ifdef - |p.tables.decisions|
  }

  /** The tables of the whole first pass go on from these: the forward references still to come are at or past the
      address in the code segment. */
  ghost predicate Extends(p: State, f: Tables) {
    && (forall key :: key in p.tables.symbols ==> key in f.symbols && f.symbols[key] == p.tables.symbols[key])
    && p.tables.refs <= f.refs && p.tables.decisions <= f.decisions
    && (p.place.started ==> forall i :: |p.tables.refs| <= i < |f.refs| ==> CodePc(p.place) <= f.refs[i])
  }

  /** An instruction whose mode depends on its operand's value: it has the zero-page mode. */
  predicate Capable(modes: Modes, operand: Operand) {
    operand.Direct? && Relative !in modes && ZeroPageMode(operand.index) in modes
  }

  /** Such instructions are code, and after the first address is set. */
  predicate Stands(p: State, line: Line) {
    p.skip == 0 && line.Statement? && line.body.Instruction? && Capable(line.body.modes, line.body.operand) ==>
      p.place.started && !p.place.inZeropage
  }

  /** The code address never falls, nor passes $FFFF. */
  predicate Climbs(p: State, r: State) {
    p.place.started ==> CodePc(p.place) <= CodePc(r.place) <= END
  }

  predicate Fits(p: State, line: Line) {
    Stands(p, line) && (Step(p, line).Ok? ==> Climbs(p, Step(p, line).value))
  }

  lemma {:induction false} EmittedAllKeeps(p: Place, pass2: bool, bytes: seq<byte>)
    requires EmittedAll(p, pass2, bytes).Ok?
    ensures EmittedAll(p, pass2, bytes).value.started == p.started
    decreases |bytes|
  {
    if bytes != [] {
      EmittedAllKeeps(Emitted(p, pass2, bytes[0]).value, pass2, bytes[1..]);
    }
  }

  /** Bytes go out, and nothing else changes but the forward flag. */
  ghost predicate OnlyEmits(s: State, r: State) {
    r == s.(place := r.place, fwdref := r.fwdref) && r.place.started == s.place.started
  }

  lemma PutItemEmits(s: State, kind: Kind, item: Item)
    requires PutItem(s, kind, item).Ok?
    ensures OnlyEmits(s, PutItem(s, kind, item).value)
  {
    if item.Text? {
      EmittedAllKeeps(s.place, s.pass2, item.chars);
    }
  }

  lemma {:induction false} PutItemsEmits(s: State, kind: Kind, items: seq<Item>)
    requires PutItems(s, kind, items).Ok?
    ensures OnlyEmits(s, PutItems(s, kind, items).value)
    decreases |items|
  {
    if items != [] {
      PutItemEmits(s, kind, items[0]);
      PutItemsEmits(PutItem(s, kind, items[0]).value, kind, items[1..]);
    }
  }

  lemma PutInstructionEmits(s: State, modes: Modes, mode: Mode, value: nat)
    requires PutInstruction(s, modes, mode, value).Ok?
    ensures OnlyEmits(s, PutInstruction(s, modes, mode, value).value)
  {
  }

  lemma InstructedGrows(p: State, modes: Modes, operand: Operand)
    requires !p.pass2 && Instructed(p, modes, operand).Ok?
    requires Capable(modes, operand) ==> p.place.started && !p.place.inZeropage
    ensures Grows(p, Instructed(p, modes, operand).value)
  {
    var parsed := ParsedOperand(p, modes, operand).value;
    PutInstructionEmits(parsed.s, modes, parsed.mode, parsed.value);
  }

  lemma DoneGrows(p: State, body: Body)
    requires !p.pass2 && Done(p, body).Ok?
    requires body.Instruction? && Capable(body.modes, body.operand) ==> p.place.started && !p.place.inZeropage
    ensures Grows(p, Done(p, body).value)
  {
    match body {
      case Instruction(modes, operand) => InstructedGrows(p, modes, operand);
      case Data(kind, items) => if !p.place.inZeropage { PutItemsEmits(p, kind, items); }
      case _ =>
    }
  }

  lemma LabelledGrows(p: State, tag: Option<Label>)
    requires !p.pass2 && Labelled(p, tag).Ok?
    ensures var r := Labelled(p, tag).value; Grows(p, r) && r == p.(tables := r.tables, scope := r.scope) && r.tables.refs == p.tables.refs
  {
  }

  lemma StepGrows(p: State, line: Line)
    requires !p.pass2 && Stands(p, line) && Step(p, line).Ok?
    ensures Grows(p, Step(p, line).value)
  {
    if p.skip == 0 && line.Statement? {
      LabelledGrows(p, line.tag);
      DoneGrows(Labelled(p, line.tag).value, line.body);
    }
  }

  lemma ExtendsBack(p: State, r: State, f: Tables)
    requires Grows(p, r) && Climbs(p, r) && Extends(r, f)
    ensures Extends(p, f)
  {
    assert p.tables.refs <= r.tables.refs;
    if p.place.started {
      forall i | |p.tables.refs| <= i < |f.refs| ensures CodePc(p.place) <= f.refs[i] {
        if i < |r.tables.refs| {
          assert f.refs[i] == r.tables.refs[i];
        }
      }
    }
  }

  // ---- Agreement ----

  /** The second pass is where the first was, past as many forward references as that had listed, with what the whole
      first pass has found. */
  ghost predicate Agree(p: State, q: State, f: Tables) {
    && !p.pass2 && p.position.ifdef == |p.tables.decisions|
    && q == State(true, p.place.(output := q.place.output), f.(refs := f.refs + [END]),
                  Position(|p.tables.refs|, p.position.ifdef), q.fwdref, p.scope, p.cond, p.skip)
  }

  /** The value reads the same in the second pass, if that reads it at all. */
  predicate SameValue(p: State, f: Tables, v: Value) {
    var r, s := ReadIn(p, v), ReadValue(Context(true, f.symbols, p.scope), v, false);
    r.Ok? && s.Ok? ==> r.value.value == s.value.value
  }

  /** The value is a forward reference, or takes the same mode in both passes. */
  predicate SameMode(p: State, f: Tables, v: Value) {
    var r, s := ReadIn(p, v), ReadValue(Context(true, f.symbols, p.scope), v, false);
    r.Ok? && s.Ok? ==> r.value.fwdref || (r.value.value > 0xFF <==> s.value.value > 0xFF)
  }

  predicate SettledBody(p: State, f: Tables, body: Body) {
    match body
    case Reserve(v) => SameValue(p, f, v)
    case Instruction(modes, operand) => Capable(modes, operand) ==> SameMode(p, f, operand.value)
    case _ => true
  }

  /** What decides a line's size in the first pass decides it in the second. */
  predicate Settled(p: State, f: Tables, line: Line) {
    if p.skip > 0 then true
    else
      match line
      case SetPc(v) => SameValue(p, f, v)
      case Assign(_, _) => true
      case Statement(tag, body) => Labelled(p, tag).Ok? ==> SettledBody(Labelled(p, tag).value, f, body)
  }

  lemma PutAgree(p: State, q: State, f: Tables, a: int, b: int)
    requires Agree(p, q, f) && Put(p, a).Ok? && Put(q, b).Ok?
    ensures Agree(Put(p, a).value, Put(q, b).value, f)
  {
  }

  lemma {:induction false} EmittedAllAgree(p: Place, o: seq<byte>, bytes: seq<byte>)
    requires EmittedAll(p, false, bytes).Ok? && EmittedAll(p.(output := o), true, bytes).Ok?
    ensures var r, s := EmittedAll(p, false, bytes).value, EmittedAll(p.(output := o), true, bytes).value;
      s == r.(output := s.output)
    decreases |bytes|
  {
    if bytes != [] {
      var r, s := Emitted(p, false, bytes[0]).value, Emitted(p.(output := o), true, bytes[0]).value;
      EmittedAllAgree(r, s.output, bytes[1..]);
    }
  }

  lemma PutValueAgree(p: State, q: State, f: Tables, a: nat, b: nat, wide: bool)
    requires Agree(p, q, f) && PutValue(p, a, wide).Ok? && PutValue(q, b, wide).Ok?
    ensures Agree(PutValue(p, a, wide).value, PutValue(q, b, wide).value, f)
  {
    PutAgree(p, q, f, a, b);
  }

  lemma PutItemAgree(p: State, q: State, f: Tables, kind: Kind, item: Item)
    requires Agree(p, q, f) && PutItem(p, kind, item).Ok? && PutItem(q, kind, item).Ok?
    ensures Agree(PutItem(p, kind, item).value, PutItem(q, kind, item).value, f)
  {
    match item {
      case Text(chars) => EmittedAllAgree(p.place, q.place.output, chars);
      case Datum(v) =>
        var a, b := ReadIn(p, v).value, ReadIn(q, v).value;
        PutValueAgree(p.(fwdref := a.fwdref), q.(fwdref := b.fwdref), f, a.value, b.value, kind == WordData);
    }
  }

  lemma {:induction false} PutItemsAgree(p: State, q: State, f: Tables, kind: Kind, items: seq<Item>)
    requires Agree(p, q, f) && PutItems(p, kind, items).Ok? && PutItems(q, kind, items).Ok?
    ensures Agree(PutItems(p, kind, items).value, PutItems(q, kind, items).value, f)
    decreases |items|
  {
    if items != [] {
      PutItemAgree(p, q, f, kind, items[0]);
      PutItemsAgree(PutItem(p, kind, items[0]).value, PutItem(q, kind, items[0]).value, f, kind, items[1..]);
    }
  }

  lemma PutDataAgree(p: State, q: State, f: Tables, kind: Kind, items: seq<Item>)
    requires Agree(p, q, f) && PutData(p, kind, items).Ok? && PutData(q, kind, items).Ok?
    ensures Agree(PutData(p, kind, items).value, PutData(q, kind, items).value, f)
  {
    if p.place.inZeropage {
      PutValueAgree(p, q, f, 0, 0, kind == WordData);
    } else {
      PutItemsAgree(p, q, f, kind, items);
    }
  }

  lemma LabelledAgree(p: State, q: State, f: Tables, tag: Option<Label>)
    requires Agree(p, q, f) && Labelled(p, tag).Ok?
    ensures Labelled(q, tag).Ok? && Agree(Labelled(p, tag).value, Labelled(q, tag).value, f)
  {
  }

  lemma AssignedAgree(p: State, q: State, f: Tables, named: Label, v: Value)
    requires Agree(p, q, f) && Assigned(p, named, v).Ok? && Assigned(q, named, v).Ok?
    ensures Agree(Assigned(p, named, v).value, Assigned(q, named, v).value, f)
  {
  }

  lemma IfdefAgree(p: State, q: State, f: Tables, name: string)
    requires Agree(p, q, f) && IfdefOpened(p, name).Ok? && Extends(IfdefOpened(p, name).value, f)
    ensures IfdefOpened(q, name).Ok? && Agree(IfdefOpened(p, name).value, IfdefOpened(q, name).value, f)
  {
    if p.skip == 0 {
      var d := Decided(p.(cond := p.cond + 1), name).value;
      assert d.0.tables.decisions[p.position.ifdef] == d.1;
    }
  }

  /** What the second pass reads is what it would with no forward flag to start with. */
  lemma SecondReads(p: State, q: State, f: Tables, v: Value)
    requires Agree(p, q, f)
    ensures var s, r := ReadIn(q, v), ReadValue(Context(true, f.symbols, p.scope), v, false);
      if s.Ok? then r.Ok? && r.value.value == s.value.value else r == s
  {
    ValueIgnoresFlag(ContextOf(q), v, q.fwdref, false);
  }

  lemma ReservedAgree(p: State, q: State, f: Tables, v: Value)
    requires Agree(p, q, f) && Reserved(p, v).Ok? && Reserved(q, v).Ok?
    ensures Agree(Reserved(p, v).value, Reserved(q, v).value, f) <==> SameValue(p, f, v)
  {
    SecondReads(p, q, f, v);
  }

  lemma PcLineAgree(p: State, q: State, f: Tables, v: Value)
    requires Agree(p, q, f) && PcLine(p, v).Ok? && PcLine(q, v).Ok?
    ensures Agree(PcLine(p, v).value, PcLine(q, v).value, f) <==> SameValue(p, f, v)
  {
    SecondReads(p, q, f, v);
  }

  // ---- Modes ----

  /** Here an instruction is listed in the first pass exactly when the second finds it at the head of the list. */
  ghost predicate ListedHere(p: State, f: Tables) {
    && p.place.pc < END && !p.place.inZeropage && p.tables.refs <= f.refs
    && (p.fwdref ==> p.tables.refs + [p.place.pc] <= f.refs)
    && (!p.fwdref ==> forall i :: |p.tables.refs| <= i < |f.refs| ==> p.place.pc < f.refs[i])
  }

  lemma ChosenAgree(p: State, q: State, f: Tables, modes: Modes, zeroPage: Mode, a: nat, b: nat)
    requires Agree(p, q, f) && (zeroPage in modes ==> ListedHere(p, f))
    ensures var c, d := Chosen(p, modes, zeroPage, a), Chosen(q, modes, zeroPage, b);
      && Agree(c.s, d.s, f)
      && (c.absolute == d.absolute <==> (zeroPage in modes ==> p.fwdref || (a > 0xFF <==> b > 0xFF)))
  {
    if zeroPage in modes {
      var list, i := f.refs + [END], |p.tables.refs|;
      if p.fwdref {
        assert list[i] == (p.tables.refs + [p.place.pc])[i];
      }
    }
  }

  lemma PutInstructionAgree(p: State, q: State, f: Tables, modes: Modes, m: Mode, n: Mode, a: nat, b: nat)
    requires Agree(p, q, f) && PutInstruction(p, modes, m, a).Ok? && PutInstruction(q, modes, n, b).Ok?
    requires m == n || (!p.place.inZeropage && WideMode(m) != WideMode(n) && m != Implied && m != Relative && n != Implied && n != Relative)
    ensures Agree(PutInstruction(p, modes, m, a).value, PutInstruction(q, modes, n, b).value, f) <==> m == n
  {
    PutAgree(p, q, f, modes[m], modes[n]);
    var r, s := Put(p, modes[m]).value, Put(q, modes[n]).value;
    if m == n && m != Implied && m != Relative {
      PutValueAgree(r, s, f, a, b, WideMode(m));
    }
  }

  /** The forward references still to come are past an instruction that is not one. */
  lemma CapableListed(p: State, f: Tables, modes: Modes, operand: Operand)
    requires !p.pass2 && Instructed(p, modes, operand).Ok? && Capable(modes, operand)
    requires p.place.started && !p.place.inZeropage
    requires Climbs(p, Instructed(p, modes, operand).value) && Extends(Instructed(p, modes, operand).value, f)
    ensures ListedHere(p.(fwdref := ReadIn(p, operand.value).value.fwdref), f)
  {
    var parsed, r := ParsedOperand(p, modes, operand).value, Instructed(p, modes, operand).value;
    PutInstructionEmits(parsed.s, modes, parsed.mode, parsed.value);
    assert CodePc(r.place) > p.place.pc;
  }

  /** Both passes are at the same place once the operand is read; the modes are the same unless its value decides. */
  lemma ParsedAgree(p: State, q: State, f: Tables, modes: Modes, operand: Operand)
    requires Agree(p, q, f) && Instructed(p, modes, operand).Ok? && ParsedOperand(q, modes, operand).Ok?
    requires Capable(modes, operand) ==> p.place.started && !p.place.inZeropage
    requires Climbs(p, Instructed(p, modes, operand).value) && Extends(Instructed(p, modes, operand).value, f)
    ensures var a, b := ParsedOperand(p, modes, operand).value, ParsedOperand(q, modes, operand).value;
      Agree(a.s, b.s, f) && (a.mode == b.mode <==> (Capable(modes, operand) ==> SameMode(p, f, operand.value)))
  {
    if operand.Direct? && Relative !in modes {
      var r, s := ReadIn(p, operand.value).value, ReadIn(q, operand.value).value;
      SecondReads(p, q, f, operand.value);
      if Capable(modes, operand) {
        CapableListed(p, f, modes, operand);
      }
      ChosenAgree(p.(fwdref := r.fwdref), q.(fwdref := s.fwdref), f, modes, ZeroPageMode(operand.index), r.value, s.value);
    }
  }

  lemma InstructedAgree(p: State, q: State, f: Tables, modes: Modes, operand: Operand)
    requires Agree(p, q, f) && Instructed(p, modes, operand).Ok? && Instructed(q, modes, operand).Ok?
    requires Capable(modes, operand) ==> p.place.started && !p.place.inZeropage
    requires Climbs(p, Instructed(p, modes, operand).value) && Extends(Instructed(p, modes, operand).value, f)
    ensures var c, d := ParsedOperand(p, modes, operand).value.mode, ParsedOperand(q, modes, operand).value.mode;
      var same := Agree(Instructed(p, modes, operand).value, Instructed(q, modes, operand).value, f);
      (same <==> c == d) && (same <==> (Capable(modes, operand) ==> SameMode(p, f, operand.value)))
  {
    ParsedAgree(p, q, f, modes, operand);
    var a, b := ParsedOperand(p, modes, operand).value, ParsedOperand(q, modes, operand).value;
    PutInstructionAgree(a.s, b.s, f, modes, a.mode, b.mode, a.value, b.value);
  }

  lemma DoneAgree(p: State, q: State, f: Tables, body: Body)
    requires Agree(p, q, f) && Done(p, body).Ok? && Done(q, body).Ok?
    requires body.Instruction? && Capable(body.modes, body.operand) ==> p.place.started && !p.place.inZeropage
    requires Climbs(p, Done(p, body).value) && Extends(Done(p, body).value, f)
    ensures Agree(Done(p, body).value, Done(q, body).value, f) <==> SettledBody(p, f, body)
  {
    match body {
      case Instruction(modes, operand) => InstructedAgree(p, q, f, modes, operand);
      case Data(kind, items) => PutDataAgree(p, q, f, kind, items);
      case Reserve(v) => ReservedAgree(p, q, f, v);
      case Ifdef(name) => IfdefAgree(p, q, f, name);
      case _ =>
    }
  }

  /** The mode a line's instruction takes, if it has one and is not skipped. */
  function ModeAt(s: State, line: Line): Option<Mode> {
    if s.skip > 0 || !line.Statement? || !line.body.Instruction? then None
    else
      match Labelled(s, line.tag)
      case Err(_) => None
      case Ok(t) =>
        match ParsedOperand(t, line.body.modes, line.body.operand)
        case Err(_) => None
        case Ok(r) => Some(r.mode)
  }

  lemma SkippedAgree(p: State, q: State, f: Tables, line: Line)
    requires Agree(p, q, f) && p.skip > 0 && Skipped(p, line).Ok? && Skipped(q, line).Ok?
    ensures Agree(Skipped(p, line).value, Skipped(q, line).value, f)
  {
  }

  /** A line both passes get over leaves them agreeing exactly when it is settled. */
  lemma StepAgree(p: State, q: State, f: Tables, line: Line)
    requires Agree(p, q, f) && Fits(p, line) && Step(p, line).Ok? && Step(q, line).Ok?
    requires Extends(Step(p, line).value, f)
    ensures Agree(Step(p, line).value, Step(q, line).value, f) <==> Settled(p, f, line)
    ensures Settled(p, f, line) ==> ModeAt(p, line) == ModeAt(q, line)
  {
    if p.skip > 0 {
      SkippedAgree(p, q, f, line);
    } else {
      match line {
        case SetPc(v) => PcLineAgree(p, q, f, v);
        case Assign(named, v) => AssignedAgree(p, q, f, named, v);
        case Statement(tag, body) =>
          LabelledGrows(p, tag);
          LabelledAgree(p, q, f, tag);
          var r, s := Labelled(p, tag).value, Labelled(q, tag).value;
          DoneAgree(r, s, f, body);
          if body.Instruction? {
            InstructedAgree(r, s, f, body.modes, body.operand);
          }
      }
    }
  }

  // ---- Over a whole program ----

  /** The states before each line, and after the last. */
  ghost function Trace(s: State, lines: seq<Line>): (t: seq<State>)
    requires RunLines(s, lines).Ok?
    ensures |t| == |lines| + 1 && t[0] == s && t[|lines|] == RunLines(s, lines).value
    ensures forall i :: 0 <= i < |lines| ==> Step(t[i], lines[i]) == Ok(t[i + 1])
    decreases |lines|
  {
    if lines == [] then [s] else [s] + Trace(Step(s, lines[0]).value, lines[1..])
  }

  ghost predicate AllFit(s: State, lines: seq<Line>)
    requires RunLines(s, lines).Ok?
  {
    forall i :: 0 <= i < |lines| ==> Fits(Trace(s, lines)[i], lines[i])
  }

  /** The tables of the whole pass extend those at every line. */
  lemma {:induction false} PassExtends(t: seq<State>, lines: seq<Line>, i: nat)
    requires |t| == |lines| + 1 && i <= |lines| && !t[0].pass2 && t[0].position.ifdef == |t[0].tables.decisions|
    requires forall k :: 0 <= k < |lines| ==> Fits(t[k], lines[k]) && Step(t[k], lines[k]) == Ok(t[k + 1])
    ensures !t[i].pass2 && Extends(t[i], t[|lines|].tables)
    decreases |lines| - i
  {
    PassGrows(t, lines, i);
    if i < |lines| {
      PassExtends(t, lines, i + 1);
      StepGrows(t[i], lines[i]);
      ExtendsBack(t[i], t[i + 1], t[|lines|].tables);
    }
  }

  lemma {:induction false} PassGrows(t: seq<State>, lines: seq<Line>, i: nat)
    requires |t| == |lines| + 1 && i <= |lines| && !t[0].pass2 && t[0].position.ifdef == |t[0].tables.decisions|
    requires forall k :: 0 <= k < |lines| ==> Fits(t[k], lines[k]) && Step(t[k], lines[k]) == Ok(t[k + 1])
    ensures !t[i].pass2 && t[i].position.ifdef == |t[i].tables.decisions|
  {
    if i > 0 {
      PassGrows(t, lines, i - 1);
      assert Step(t[i - 1], lines[i - 1]) == Ok(t[i - 1 + 1]);
      StepGrows(t[i - 1], lines[i - 1]);
    }
  }

  /** Up to a line the passes have agreed all along exactly when every line before it is settled. */
  lemma {:induction false} AgreeUpTo(t: seq<State>, u: seq<State>, lines: seq<Line>, f: Tables, n: nat)
    requires |t| == |lines| + 1 && n < |u| <= |t| && Agree(t[0], u[0], f)
    requires forall k :: 0 <= k < |lines| ==> Fits(t[k], lines[k]) && Step(t[k], lines[k]) == Ok(t[k + 1])
    requires forall k :: 0 <= k < |u| - 1 ==> Step(u[k], lines[k]) == Ok(u[k + 1])
    requires forall k :: 0 <= k <= |lines| ==> Extends(t[k], f)
    ensures (forall k :: 0 <= k <= n ==> Agree(t[k], u[k], f)) <==> (forall k :: 0 <= k < n ==> Settled(t[k], f, lines[k]))
  {
    hide Step, Agree, Settled, Fits, Extends;
    if n > 0 {
      AgreeUpTo(t, u, lines, f, n - 1);
      assert Step(t[n - 1], lines[n - 1]) == Ok(t[n - 1 + 1]) && Step(u[n - 1], lines[n - 1]) == Ok(u[n - 1 + 1]);
      if Agree(t[n - 1], u[n - 1], f) {
        StepAgree(t[n - 1], u[n - 1], f, lines[n - 1]);
      }
    }
  }

  /** As far as the second pass gets with a program whose code addresses climb. */
  ghost predicate TwoPasses(names: seq<string>, lines: seq<Line>, n: nat) {
    && n <= |lines| && RunLines(First(names), lines).Ok? && AllFit(First(names), lines)
    && RunLines(Second(RunLines(First(names), lines).value), lines[..n]).Ok?
  }

  lemma BothTraces(names: seq<string>, lines: seq<Line>, n: nat) returns (f: State, t: seq<State>, u: seq<State>)
    requires TwoPasses(names, lines, n)
    ensures f == RunLines(First(names), lines).value
    ensures t == Trace(First(names), lines) && u == Trace(Second(f), lines[..n])
    ensures forall k :: 0 <= k <= |lines| ==> Extends(t[k], f.tables)
    ensures forall k :: 0 <= k < n ==> Step(u[k], lines[k]) == Ok(u[k + 1])
  {
    f := RunLines(First(names), lines).value;
    t, u := Trace(First(names), lines), Trace(Second(f), lines[..n]);
    forall k | 0 <= k <= |lines| ensures Extends(t[k], f.tables) {
      PassExtends(t, lines, k);
    }
    forall k | 0 <= k < n ensures Step(u[k], lines[k]) == Ok(u[k + 1]) {
      assert lines[k] == lines[..n][k];
    }
  }

  /** The second pass agrees with the first before every line exactly when every line before is settled. */
  lemma PassesAgree(names: seq<string>, lines: seq<Line>, n: nat)
    requires TwoPasses(names, lines, n)
    ensures var f := RunLines(First(names), lines).value;
      var t, u := Trace(First(names), lines), Trace(Second(f), lines[..n]);
      (forall k :: 0 <= k <= n ==> Agree(t[k], u[k], f.tables)) <==>
      (forall k :: 0 <= k < n ==> Settled(t[k], f.tables, lines[k]))
  {
    var f, t, u := BothTraces(names, lines, n);
    AgreeUpTo(t, u, lines, f.tables, n);
  }

  /** No label unknown in the first pass is in a value that sets or moves the address, nor under a selector after an
      operator in an operand that decides its instruction's mode. */
  predicate Plain(p: State, line: Line) {
    if p.skip > 0 then true
    else
      match line
      case SetPc(v) => AllKnown(ContextOf(p), v.expr)
      case Assign(_, _) => true
      case Statement(tag, body) =>
        match Labelled(p, tag)
        case Err(_) => true
        case Ok(s) =>
          match body
          case Reserve(v) => AllKnown(ContextOf(s), v.expr)
          case Instruction(modes, operand) =>
            Capable(modes, operand) ==> KnownUnderSelectors(ContextOf(s), operand.value.expr.rest)
          case _ => true
  }

  lemma PlainBody(p: State, f: Tables, body: Body)
    requires !p.pass2 && Later(ContextOf(p), Context(true, f.symbols, p.scope))
    requires body.Reserve? ==> AllKnown(ContextOf(p), body.value.expr)
    requires body.Instruction? && Capable(body.modes, body.operand) ==>
      KnownUnderSelectors(ContextOf(p), body.operand.value.expr.rest)
    ensures SettledBody(p, f, body)
  {
    var c, d := ContextOf(p), Context(true, f.symbols, p.scope);
    match body {
      case Reserve(v) => KnownValue(c, d, v, p.fwdref, false);
      case Instruction(modes, operand) =>
        if Capable(modes, operand) && ReadIn(p, operand.value).Ok? && ReadValue(d, operand.value, false).Ok? {
          PlainValue(c, d, operand.value, p.fwdref, false);
        }
      case _ =>
    }
  }

  lemma PlainSettled(p: State, f: Tables, line: Line)
    requires !p.pass2 && Plain(p, line) && Stands(p, line) && Step(p, line).Ok? && Extends(Step(p, line).value, f)
    ensures Settled(p, f, line)
  {
    StepGrows(p, line);
    if p.skip == 0 {
      match line {
        case SetPc(v) => KnownValue(ContextOf(p), Context(true, f.symbols, p.scope), v, p.fwdref, false);
        case Assign(_, _) =>
        case Statement(tag, body) =>
          LabelledGrows(p, tag);
          DoneGrows(Labelled(p, tag).value, body);
          PlainBody(Labelled(p, tag).value, f, body);
      }
    }
  }

  /** So for a plain program the second pass comes to every line at the first pass's address, takes the same lines and
      picks the same modes. */
  lemma PlainPassesAgree(names: seq<string>, lines: seq<Line>, n: nat)
    requires TwoPasses(names, lines, n)
    requires forall k :: 0 <= k < |lines| ==> Plain(Trace(First(names), lines)[k], lines[k])
    ensures var f := RunLines(First(names), lines).value;
      var t, u := Trace(First(names), lines), Trace(Second(f), lines[..n]);
      && (forall k :: 0 <= k <= n ==> Agree(t[k], u[k], f.tables))
      && (forall k :: 0 <= k < n ==> ModeAt(t[k], lines[k]) == ModeAt(u[k], lines[k]))
  {
    var f, t, u := BothTraces(names, lines, n);
    forall k | 0 <= k < n ensures Settled(t[k], f.tables, lines[k]) {
      assert Step(t[k], lines[k]) == Ok(t[k + 1]);
      PassGrows(t, lines, k);
      PlainSettled(t[k], f.tables, lines[k]);
    }
    AgreeUpTo(t, u, lines, f.tables, n);
    forall k | 0 <= k < n ensures ModeAt(t[k], lines[k]) == ModeAt(u[k], lines[k]) {
      assert Step(t[k], lines[k]) == Ok(t[k + 1]);
      StepAgree(t[k], u[k], f.tables, lines[k]);
    }
  }

  // ---- Where the second pass can fail ----

  /** All that shows only once every label is known: one that never comes, or a value or a branch out of range. */
  predicate Late(r: Outcome<State>) {
    r.Ok? || r.code == LABEL_NOT_FOUND || r.code == VALUE_RANGE || r.code == BRANCH_RANGE
  }

  lemma ReadsFail(p: State, q: State, f: Tables, v: Value)
    requires Agree(p, q, f) && ReadIn(p, v).Ok?
    ensures var s := ReadIn(q, v); s.Ok? || s.code == LABEL_NOT_FOUND
  {
    ValueFails(ContextOf(p), ContextOf(q), v, p.fwdref, q.fwdref);
  }

  lemma {:induction false} EmittedAllSame(p: Place, o: seq<byte>, bytes: seq<byte>)
    ensures EmittedAll(p, false, bytes).Ok? ==> EmittedAll(p.(output := o), true, bytes).Ok?
    decreases |bytes|
  {
    if bytes != [] {
      var r, s := Emitted(p, false, bytes[0]), Emitted(p.(output := o), true, bytes[0]);
      if r.Ok? {
        EmittedAllSame(r.value, s.value.output, bytes[1..]);
      }
    }
  }

  lemma PutItemFails(p: State, q: State, f: Tables, kind: Kind, item: Item)
    requires Agree(p, q, f) && PutItem(p, kind, item).Ok?
    ensures Late(PutItem(q, kind, item))
  {
    match item {
      case Text(chars) => EmittedAllSame(p.place, q.place.output, chars);
      case Datum(v) => ReadsFail(p, q, f, v);
    }
  }

  lemma {:induction false} PutItemsFail(p: State, q: State, f: Tables, kind: Kind, items: seq<Item>)
    requires Agree(p, q, f) && PutItems(p, kind, items).Ok?
    ensures Late(PutItems(q, kind, items))
    decreases |items|
  {
    if items != [] {
      PutItemFails(p, q, f, kind, items[0]);
      if PutItem(q, kind, items[0]).Ok? {
        PutItemAgree(p, q, f, kind, items[0]);
        PutItemsFail(PutItem(p, kind, items[0]).value, PutItem(q, kind, items[0]).value, f, kind, items[1..]);
      }
    }
  }

  lemma PutInstructionFails(p: State, q: State, f: Tables, modes: Modes, m: Mode, a: nat, b: nat)
    requires Agree(p, q, f) && PutInstruction(p, modes, m, a).Ok?
    ensures Late(PutInstruction(q, modes, m, b))
  {
    PutAgree(p, q, f, modes[m], modes[m]);
  }

  lemma InstructedFails(p: State, q: State, f: Tables, modes: Modes, operand: Operand)
    requires Agree(p, q, f) && Instructed(p, modes, operand).Ok?
    requires Capable(modes, operand) ==> p.place.started && !p.place.inZeropage && SameMode(p, f, operand.value)
    requires Climbs(p, Instructed(p, modes, operand).value) && Extends(Instructed(p, modes, operand).value, f)
    ensures Late(Instructed(q, modes, operand))
  {
    if !operand.NoOperand? {
      ReadsFail(p, q, f, operand.value);
    }
    if ParsedOperand(q, modes, operand).Ok? {
      ParsedAgree(p, q, f, modes, operand);
      var a, b := ParsedOperand(p, modes, operand).value, ParsedOperand(q, modes, operand).value;
      PutInstructionFails(a.s, b.s, f, modes, a.mode, a.value, b.value);
    }
  }

  lemma DoneFails(p: State, q: State, f: Tables, body: Body)
    requires Agree(p, q, f) && Done(p, body).Ok? && SettledBody(p, f, body)
    requires body.Instruction? && Capable(body.modes, body.operand) ==> p.place.started && !p.place.inZeropage
    requires Climbs(p, Done(p, body).value) && Extends(Done(p, body).value, f)
    ensures Late(Done(q, body))
  {
    match body {
      case Instruction(modes, operand) => InstructedFails(p, q, f, modes, operand);
      case Data(kind, items) =>
        if p.place.inZeropage {
          PutAgree(p, q, f, 0, 0);
        } else {
          PutItemsFail(p, q, f, kind, items);
        }
      case Reserve(v) =>
        ReadsFail(p, q, f, v);
        SecondReads(p, q, f, v);
      case Ifdef(name) => IfdefAgree(p, q, f, name);
      case _ =>
    }
  }

  lemma StepFails(p: State, q: State, f: Tables, line: Line)
    requires Agree(p, q, f) && Fits(p, line) && Step(p, line).Ok? && Settled(p, f, line)
    requires Extends(Step(p, line).value, f)
    ensures Late(Step(q, line))
  {
    if p.skip == 0 {
      match line {
        case SetPc(v) =>
          ReadsFail(p, q, f, v);
          SecondReads(p, q, f, v);
        case Assign(named, v) => ReadsFail(p, q, f, v);
        case Statement(tag, body) =>
          LabelledGrows(p, tag);
          LabelledAgree(p, q, f, tag);
          DoneFails(Labelled(p, tag).value, Labelled(q, tag).value, f, body);
      }
    }
  }

  /** What the first pass accepts of a plain program the second rejects only for a label that never came or a value or
      branch out of range. */
  lemma PlainPassFailsLate(names: seq<string>, lines: seq<Line>, n: nat)
    requires TwoPasses(names, lines, n) && n < |lines|
    requires forall k :: 0 <= k < |lines| ==> Plain(Trace(First(names), lines)[k], lines[k])
    ensures Late(RunLines(Second(RunLines(First(names), lines).value), lines[..n + 1]))
  {
    var f, t, u := BothTraces(names, lines, n);
    PlainPassesAgree(names, lines, n);
    assert Step(t[n], lines[n]) == Ok(t[n + 1]);
    PassGrows(t, lines, n);
    PlainSettled(t[n], f.tables, lines[n]);
    StepFails(t[n], u[n], f.tables, lines[n]);
    RunsOn(Second(f), lines, n);
  }

  function Then(r: Outcome<State>, line: Line): Outcome<State> {
    match r
    case Err(code) => Err(code)
    case Ok(s) => Step(s, line)
  }

  lemma {:induction false} RunsOn(s: State, lines: seq<Line>, n: nat)
    requires n < |lines|
    ensures RunLines(s, lines[..n + 1]) == Then(RunLines(s, lines[..n]), lines[n])
    decreases n
  {
    if n > 0 {
      assert lines[..n][1..] == lines[1..][..n - 1] && lines[..n + 1][1..] == lines[1..][..n];
      var r := Step(s, lines[0]);
      if r.Ok? {
        RunsOn(r.value, lines[1..], n - 1);
      }
    } else {
      assert lines[..1][1..] == [];
    }
  }
}
