/** The assembler as it runs: a value read a term at a time, a line after another, twice. */
module PyasmAssembler {
  import opened Words
  import opened PyasmExpression
  import opened PyasmPass

  /** How a reading ends: with an error's code, or with its value and the forward flag. */
  ghost predicate Reads(r: Outcome<Reading>, failed: Option<nat>, v: nat, fwdref: bool) {
    match r
    case Err(code) => failed == Some(code)
    case Ok(x) => failed == None && v == x.value && fwdref == x.fwdref
  }

  /** How a step ends: with an error's code, or in its state. */
  ghost predicate Ends(r: Outcome<State>, failed: Option<nat>, s: State) {
    match r
    case Err(code) => failed == Some(code)
    case Ok(t) => failed == None && s == t
  }

  lemma NextOperation(c: Context, value: nat, any: bool, fwdref: bool, rest: seq<Operation>, i: nat)
    requires i < |rest|
    ensures ReadRest(c, value, any, fwdref, rest[i..]) ==
      match ReadSelected(c, rest[i].selector, rest[i].term, fwdref)
      case Err(code) => Err(code)
      case Ok(r) => ReadRest(c, Applied(rest[i].op, value, r.value), any || r.fwdref, r.fwdref, rest[i + 1..])
  {
    assert rest[i..][0] == rest[i] && rest[i..][1..] == rest[i + 1..];
  }

  lemma NextByte(p: Place, pass2: bool, bytes: seq<byte>, i: nat)
    requires i < |bytes|
    ensures EmittedAll(p, pass2, bytes[i..]) ==
      match Emitted(p, pass2, bytes[i])
      case Err(code) => Err(code)
      case Ok(next) => EmittedAll(next, pass2, bytes[i + 1..])
  {
    assert bytes[i..][0] == bytes[i] && bytes[i..][1..] == bytes[i + 1..];
  }

  lemma NextItem(s: State, kind: Kind, items: seq<Item>, i: nat)
    requires i < |items|
    ensures PutItems(s, kind, items[i..]) ==
      match PutItem(s, kind, items[i])
      case Err(code) => Err(code)
      case Ok(t) => PutItems(t, kind, items[i + 1..])
  {
    assert items[i..][0] == items[i] && items[i..][1..] == items[i + 1..];
  }

  lemma NextLine(s: State, lines: seq<Line>, i: nat)
    requires i < |lines|
    ensures RunLines(s, lines[i..]) ==
      match Step(s, lines[i])
      case Err(code) => Err(code)
      case Ok(t) => RunLines(t, lines[i + 1..])
  {
    assert lines[i..][0] == lines[i] && lines[i..][1..] == lines[i + 1..];
  }

  class Assembler {
    var pass2: bool
    var pc: nat
    var pcSave: nat
    var inZeropage: bool
    var started: bool
    var output: seq<byte>
    var symbols: map<Key, nat>
    var fwdrefList: seq<nat>
    var fwdrefPtr: nat
    var isFwdref: bool
    var labelScope: Option<string>
    var condDepth: nat
    var skipDepth: nat
    var ifdefDecisions: seq<bool>
    var ifdefIndex: nat

    ghost function State(): State
      reads this
    {
      PyasmPass.State(pass2, Place(pc, pcSave, inZeropage, started, output), Tables(symbols, fwdrefList, ifdefDecisions),
                      Position(fwdrefPtr, ifdefIndex), isFwdref, labelScope, condDepth, skipDepth)
    }

    /** An assembler with the labels defined for it. */
    constructor (names: seq<string>)
      ensures State() == First(names)
    {
      pass2, pc, pcSave, inZeropage, started, output := false, 0, 0, false, false, [];
      fwdrefList, fwdrefPtr, isFwdref, ifdefDecisions, ifdefIndex := [], 0, false, [], 0;
      labelScope, condDepth, skipDepth := None, 0, 0;
      var defined: map<Key, nat> := map[];
      for i := 0 to |names|
        invariant defined == Defined(names[..i])
      {
        assert names[..i + 1][..i] == names[..i];
        defined := defined[GlobalKey(names[i]) := 1];
      }
      assert names[..|names|] == names;
      symbols := defined;
    }

    // ---- Values ----

    method LookUp(key: Key) returns (failed: Option<nat>, v: nat)
      modifies this`isFwdref
      ensures Reads(Lookup(ContextOf(old(State())), key), failed, v, isFwdref)
    {
      failed, v := None, 0;
      if key in symbols {
        isFwdref := false;
        v := symbols[key];
      } else if pass2 {
        failed := Some(LABEL_NOT_FOUND);
      } else {
        isFwdref := true;
      }
    }

    method ParseTerm(t: Term) returns (failed: Option<nat>, v: nat)
      modifies this`isFwdref
      ensures Reads(ReadTerm(ContextOf(old(State())), t, old(isFwdref)), failed, v, isFwdref)
    {
      match t {
        case Const(n) => failed, v := None, n;
        case GlobalRef(name) => failed, v := LookUp(GlobalKey(name));
        case LocalRef(name) =>
          if labelScope == None {
            return Some(NO_GLOBAL_LABEL), 0;
          }
          failed, v := LookUp(LocalKey(labelScope.value, name));
      }
    }

    method ParseTermWithSelector(selector: Selector, t: Term) returns (failed: Option<nat>, v: nat)
      modifies this`isFwdref
      ensures Reads(ReadSelected(ContextOf(old(State())), selector, t, old(isFwdref)), failed, v, isFwdref)
    {
      failed, v := ParseTerm(t);
      if failed == None && selector != Whole {
        isFwdref := false;
        v := Selected(selector, v);
      }
    }

    /** Terms and operators from left to right; one forward term makes the whole forward. */
    method ParseExpression(e: Expr) returns (failed: Option<nat>, result: nat)
      modifies this`isFwdref
      ensures Reads(ReadExpr(ContextOf(old(State())), e, old(isFwdref)), failed, result, isFwdref)
    {
      ghost var c, whole := ContextOf(State()), ReadExpr(ContextOf(State()), e, isFwdref);
      failed, result := ParseTerm(e.first);
      if failed.Some? {
        return;
      }
      var fwdref, i := isFwdref, 0;
      assert e.rest[0..] == e.rest;
      while i < |e.rest|
        invariant i <= |e.rest| && failed == None
        invariant ReadRest(c, result, fwdref, isFwdref, e.rest[i..]) == whole
      {
        NextOperation(c, result, fwdref, isFwdref, e.rest, i);
        var rhs;
        failed, rhs := ParseTermWithSelector(e.rest[i].selector, e.rest[i].term);
        if failed.Some? {
          return;
        }
        fwdref := fwdref || isFwdref;
        result := Applied(e.rest[i].op, result, rhs);
        i := i + 1;
      }
      isFwdref := fwdref;
    }

    method ParseValue(v: Value) returns (failed: Option<nat>, result: nat)
      modifies this`isFwdref
      ensures Reads(ReadIn(old(State()), v), failed, result, isFwdref)
    {
      failed, result := ParseExpression(v.expr);
      if failed == None && v.selector != Whole {
        isFwdref := false;
        result := Selected(v.selector, result);
      }
    }

    // ---- Output and address ----

    method Emit(b: int) returns (failed: Option<nat>)
      modifies this`pc, this`output
      ensures Ends(Put(old(State()), b), failed, State())
    {
      if inZeropage {
        if pc > 0xFF {
          return Some(ZEROPAGE_FULL);
        }
        pc := pc + 1;
        return None;
      }
      pc := (pc + 1) % 0x1_0000;
      if pass2 {
        output := output + [b % 0x100];
      }
      failed := None;
    }

    method EmitValue(v: nat, wide: bool) returns (failed: Option<nat>)
      modifies this`pc, this`output
      ensures Ends(PutValue(old(State()), v, wide), failed, State())
    {
      failed := Emit(v);
      if failed == None && wide {
        failed := Emit(v / 0x100);
      }
    }

    method EmitQuoted(chars: seq<byte>) returns (failed: Option<nat>)
      modifies this`pc, this`output
      ensures Ends(PutAll(old(State()), chars), failed, State())
    {
      failed := None;
      ghost var whole := EmittedAll(State().place, pass2, chars);
      assert chars[0..] == chars;
      for i := 0 to |chars|
        invariant failed == None && EmittedAll(State().place, pass2, chars[i..]) == whole
      {
        NextByte(State().place, pass2, chars, i);
        failed := Emit(chars[i]);
        if failed.Some? {
          return;
        }
      }
    }

    /** The address moves on, the second pass filling with zeros. */
    method AdvancePcTo(target: nat) returns (failed: Option<nat>)
      modifies this`pc, this`output
      ensures Ends(WithPlace(old(State()), Advanced(old(State()).place, pass2, target)), failed, State())
    {
      failed := None;
      if inZeropage {
        if target > 0xFF {
          return Some(ZEROPAGE_FULL);
        }
        pc := target;
      } else if pass2 {
        while pc < target
          invariant pc == old(pc) || old(pc) < pc <= target
          invariant output == old(output) + Zeros(pc - old(pc))
        {
          output := output + [0];
          pc := pc + 1;
        }
      } else {
        pc := target;
      }
    }

    method UpdatePc(target: nat) returns (failed: Option<nat>)
      modifies this`pc, this`output, this`started
      ensures Ends(WithPlace(old(State()), PcSet(old(State()).place, pass2, target)), failed, State())
    {
      if inZeropage {
        pc := target;
        return None;
      }
      if !started {
        started, pc := true, target;
        return None;
      }
      if target < pc {
        return Some(PC_BACKWARDS);
      }
      failed := AdvancePcTo(target);
    }

    // ---- Instructions ----

    method CheckForwardRef() returns (found: bool)
      modifies this`fwdrefPtr
      ensures found == (old(fwdrefPtr) < |fwdrefList| && fwdrefList[old(fwdrefPtr)] == pc)
      ensures fwdrefPtr == old(fwdrefPtr) + if found then 1 else 0
    {
      found := false;
      if fwdrefPtr < |fwdrefList| {
        if fwdrefList[fwdrefPtr] == pc {
          fwdrefPtr := fwdrefPtr + 1;
          found := true;
        }
      }
    }

    /** Whether the operand must be absolute. */
    method HandleFwdrefMode(modes: Modes, zeroPage: Mode, operand: nat) returns (absolute: bool)
      modifies this`fwdrefList, this`fwdrefPtr
      ensures Choice(State(), absolute) == Chosen(old(State()), modes, zeroPage, operand)
    {
      if zeroPage !in modes {
        return true;
      }
      if !pass2 {
        if isFwdref {
          fwdrefList := fwdrefList + [pc];
          return true;
        }
      } else {
        var found := CheckForwardRef();
        if found {
          return true;
        }
      }
      absolute := operand > 0xFF;
    }

    method ParseOperand(modes: Modes, operand: Operand) returns (failed: Option<nat>, mode: Mode, v: nat)
      modifies this`isFwdref, this`fwdrefList, this`fwdrefPtr
      ensures match ParsedOperand(old(State()), modes, operand)
        case Err(code) => failed == Some(code)
        case Ok(p) => failed == None && Parsed(State(), mode, v) == p
    {
      mode, v := Implied, 0;
      if operand.NoOperand? {
        return None, mode, v;
      }
      failed, v := ParseValue(operand.value);
      if failed.Some? {
        return;
      }
      match operand {
        case Hash(_) => mode := Immediate;
        case ParenX(_) => mode := IndirectX;
        case ParenY(_) => mode := IndirectY;
        case Paren(_) => mode := Indirect;
        case Direct(_, index) =>
          if Relative in modes {
            mode := Relative;
          } else {
            var absolute := HandleFwdrefMode(modes, ZeroPageMode(index), v);
            mode := if absolute then AbsoluteMode(index) else ZeroPageMode(index);
          }
      }
    }

    method EmitBranch(target: nat) returns (failed: Option<nat>)
      modifies this`pc, this`output
      ensures Ends(PutBranch(old(State()), target), failed, State())
    {
      if pass2 {
        var offset := target - pc - 1;
        if offset < -128 || offset > 127 {
          return Some(BRANCH_RANGE);
        }
        failed := Emit(offset);
      } else {
        failed := Emit(target);
      }
    }

    method EmitInstruction(modes: Modes, mode: Mode, operand: nat) returns (failed: Option<nat>)
      modifies this`pc, this`output
      ensures Ends(PutInstruction(old(State()), modes, mode, operand), failed, State())
    {
      if mode !in modes {
        return Some(BAD_MODE);
      }
      failed := Emit(modes[mode]);
      if failed.Some? || mode == Implied {
        return;
      }
      if mode == Relative {
        failed := EmitBranch(operand);
      } else if WideMode(mode) {
        failed := EmitValue(operand, true);
      } else {
        if pass2 && operand > 0xFF {
          return Some(VALUE_RANGE);
        }
        failed := EmitValue(operand, false);
      }
    }

    method ProcessOpcode(modes: Modes, operand: Operand) returns (failed: Option<nat>)
      modifies this
      ensures Ends(Instructed(old(State()), modes, operand), failed, State())
    {
      hide ParsedOperand, PutInstruction;
      var mode, v;
      failed, mode, v := ParseOperand(modes, operand);
      if failed.Some? {
        return;
      }
      failed := EmitInstruction(modes, mode, v);
      if failed == None && mode == Relative && operand.Direct? && operand.index != Unindexed {
        failed := Some(TEXT_AFTER_OPERAND);
      }
    }

    // ---- Data ----

    method EmitDatum(kind: Kind, value: Value) returns (failed: Option<nat>)
      modifies this
      ensures Ends(PutDatum(old(State()), kind, value), failed, State())
    {
      var v;
      failed, v := ParseValue(value);
      if failed.Some? {
        return;
      }
      if kind != WordData && pass2 && 0xFF < v < 0xFF00 {
        return Some(VALUE_RANGE);
      }
      failed := EmitValue(v, kind == WordData);
    }

    method DataParameters(kind: Kind, items: seq<Item>) returns (failed: Option<nat>)
      modifies this
      ensures Ends(PutItems(old(State()), kind, items), failed, State())
    {
      failed := None;
      ghost var whole := PutItems(State(), kind, items);
      assert items[0..] == items;
      for i := 0 to |items|
        invariant failed == None && PutItems(State(), kind, items[i..]) == whole
      {
        NextItem(State(), kind, items, i);
        match items[i] {
          case Text(chars) => failed := EmitQuoted(chars);
          case Datum(v) => failed := EmitDatum(kind, v);
        }
        if failed.Some? {
          return;
        }
      }
      if kind == AsciizData {
        failed := Emit(0);
      }
    }

    method DirectiveData(kind: Kind, items: seq<Item>) returns (failed: Option<nat>)
      modifies this
      ensures Ends(PutData(old(State()), kind, items), failed, State())
    {
      if !inZeropage {
        failed := DataParameters(kind, items);
      } else if kind == AsciizData {
        failed := Some(ASCIIZ_IN_ZEROPAGE);
      } else if items != [] {
        failed := Some(DATA_IN_ZEROPAGE);
      } else {
        failed := EmitValue(0, kind == WordData);
      }
    }

    method DirectiveReserve(value: Value) returns (failed: Option<nat>)
      modifies this
      ensures Ends(Reserved(old(State()), value), failed, State())
    {
      var v;
      failed, v := ParseValue(value);
      if failed.Some? {
        return;
      }
      failed := AdvancePcTo(pc + v);
    }

    method SwitchSegment(zeropage: bool)
      modifies this`pc, this`pcSave, this`inZeropage
      ensures State() == old(State()).(place := Swapped(old(State()).place, zeropage))
    {
      if inZeropage != zeropage {
        inZeropage := zeropage;
        pc, pcSave := pcSave, pc;
      }
    }

    // ---- Labels and conditions ----

    method DefineLabel(key: Key, v: nat) returns (failed: Option<nat>)
      modifies this`symbols
      ensures Ends(Define(old(State()), key, v), failed, State())
    {
      if !pass2 {
        if key in symbols {
          return Some(DUPLICATE_LABEL);
        }
        symbols := symbols[key := v];
      }
      failed := None;
    }

    method CaptureLabel(tag: Label) returns (failed: Option<nat>)
      modifies this`symbols, this`labelScope
      ensures Ends(Labelled(old(State()), Some(tag)), failed, State())
    {
      match tag {
        case Global(name, _) =>
          failed := DefineLabel(GlobalKey(name), pc);
          if failed == None {
            labelScope := Some(name);
          }
        case Local(name, _) =>
          if labelScope == None {
            return Some(NO_GLOBAL_LABEL);
          }
          failed := DefineLabel(LocalKey(labelScope.value, name), pc);
      }
    }

    method AssignValue(named: Label, value: Value) returns (failed: Option<nat>)
      modifies this
      ensures Ends(Assigned(old(State()), named, value), failed, State())
    {
      if named.Local? && labelScope == None {
        return Some(NO_GLOBAL_LABEL);
      }
      var v;
      failed, v := ParseValue(value);
      if failed.Some? {
        return;
      }
      failed := DefineLabel(if named.Global? then GlobalKey(named.name) else LocalKey(labelScope.value, named.name), v);
    }

    method Decide(name: string) returns (failed: Option<nat>, defined: bool)
      modifies this`ifdefDecisions, this`ifdefIndex
      ensures match Decided(old(State()), name)
        case Err(code) => failed == Some(code)
        case Ok(d) => failed == None && d == (State(), defined)
    {
      failed, defined := None, false;
      if !pass2 {
        if ifdefIndex >= 255 {
          return Some(TOO_MANY_IFDEFS), false;
        }
        defined := GlobalKey(name) in symbols;
        ifdefDecisions := ifdefDecisions + [defined];
      } else {
        if ifdefIndex >= |ifdefDecisions| {
          return Some(NO_DECISION), false;
        }
        defined := ifdefDecisions[ifdefIndex];
      }
      ifdefIndex := ifdefIndex + 1;
    }

    method ProcessIfdef(name: string) returns (failed: Option<nat>)
      modifies this
      ensures Ends(IfdefOpened(old(State()), name), failed, State())
    {
      condDepth := condDepth + 1;
      if skipDepth > 0 {
        return None;
      }
      var defined;
      failed, defined := Decide(name);
      if failed == None && !defined {
        skipDepth := condDepth;
      }
    }

    method ProcessEndif() returns (failed: Option<nat>)
      modifies this`condDepth, this`skipDepth
      ensures Ends(IfdefClosed(old(State())), failed, State())
    {
      if condDepth == 0 {
        return Some(ENDIF_ALONE);
      }
      condDepth := condDepth - 1;
      if skipDepth > 0 && condDepth < skipDepth {
        skipDepth := 0;
      }
      failed := None;
    }

    // ---- Lines ----

    method ProcessSkippedLine(line: Line) returns (failed: Option<nat>)
      requires skipDepth > 0
      modifies this
      ensures Ends(Skipped(old(State()), line), failed, State())
    {
      failed := None;
      if line.Statement? && (line.tag == None || !line.tag.value.colon) {
        match line.body {
          case Ifdef(name) => failed := ProcessIfdef(name);
          case Endif => failed := ProcessEndif();
          case _ =>
        }
      }
    }

    method ProcessBody(body: Body) returns (failed: Option<nat>)
      modifies this
      ensures Ends(Done(old(State()), body), failed, State())
    {
      hide Instructed, PutData, Reserved, IfdefOpened;
      failed := None;
      match body {
        case Nothing =>
        case Instruction(modes, operand) => failed := ProcessOpcode(modes, operand);
        case Data(kind, items) => failed := DirectiveData(kind, items);
        case Reserve(v) => failed := DirectiveReserve(v);
        case Zeropage => SwitchSegment(true);
        case Code => SwitchSegment(false);
        case Ifdef(name) => failed := ProcessIfdef(name);
        case Endif => failed := ProcessEndif();
      }
    }

    method SetPcLine(value: Value) returns (failed: Option<nat>)
      modifies this
      ensures Ends(PcLine(old(State()), value), failed, State())
    {
      var v;
      failed, v := ParseValue(value);
      if failed == None {
        failed := UpdatePc(v);
      }
    }

    method AssembleLine(line: Line) returns (failed: Option<nat>)
      modifies this
      ensures Ends(Step(old(State()), line), failed, State())
    {
      hide Done, PcLine, Assigned, Labelled, Skipped;
      if skipDepth > 0 {
        failed := ProcessSkippedLine(line);
        return;
      }
      match line {
        case SetPc(v) => failed := SetPcLine(v);
        case Assign(named, v) => failed := AssignValue(named, v);
        case Statement(tag, body) =>
          LabelledNone(State());
          if tag.Some? {
            failed := CaptureLabel(tag.value);
            if failed.Some? {
              return;
            }
          }
          failed := ProcessBody(body);
      }
    }

    method AssemblePass(lines: seq<Line>) returns (failed: Option<nat>)
      modifies this
      ensures Ends(RunPass(old(State()), lines), failed, State())
    {
      hide Step;
      failed := None;
      ghost var whole := RunLines(State(), lines);
      assert lines[0..] == lines;
      for i := 0 to |lines|
        invariant failed == None && RunLines(State(), lines[i..]) == whole
      {
        NextLine(State(), lines, i);
        failed := AssembleLine(lines[i]);
        if failed.Some? {
          return;
        }
      }
      if condDepth > 0 {
        failed := Some(IFDEF_OPEN);
      }
    }

    method BeginPlace()
      modifies this`pc, this`pcSave, this`inZeropage, this`started, this`output
      ensures State() == old(State()).(place := NOWHERE)
    {
      started, inZeropage, pc, pcSave, output := false, false, 0, 0, [];
    }

    /** The list of forward references ends, and the second pass starts with it. */
    method BeginSecondPass()
      modifies this
      ensures State() == Second(old(State()))
    {
      fwdrefList := fwdrefList + [END];
      fwdrefPtr, ifdefIndex := 0, 0;
      BeginPlace();
      pass2, labelScope, condDepth, skipDepth := true, None, 0, 0;
    }

    method Run(names: seq<string>, lines: seq<Line>) returns (failed: Option<nat>)
      requires State() == First(names)
      modifies this
      ensures match Assemble(names, lines)
        case Err(code) => failed == Some(code)
        case Ok(image) => failed == None && output == image
    {
      hide RunPass;
      failed := AssemblePass(lines);
      if failed == None {
        BeginSecondPass();
        failed := AssemblePass(lines);
      }
    }
  }

  lemma LabelledNone(s: State)
    ensures Labelled(s, None) == Ok(s)
  {
  }
}
