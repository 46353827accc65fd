/** What values, data, labels and conditions mean, line by line. */
module PyasmStatements {
  import opened Words
  import opened PyasmExpression
  import opened PyasmPass
  import opened PyasmPhases
  import opened PyasmImage

  // ---- Values ----

  function TermValue(c: Context, t: Term): nat {
    match t
    case Const(v) => v
    case GlobalRef(name) => if GlobalKey(name) in c.symbols then c.symbols[GlobalKey(name)] else 0
    case LocalRef(name) =>
      if c.scope.Some? && LocalKey(c.scope.value, name) in c.symbols then c.symbols[LocalKey(c.scope.value, name)] else 0
  }

  /** The first term and n operators after it, from the left. */
  function UpTo(c: Context, e: Expr, n: nat): nat
    requires n <= |e.rest|
  {
    if n == 0 then TermValue(c, e.first)
    else
      var o := e.rest[n - 1];
      Applied(o.op, UpTo(c, e, n - 1), Selected(o.selector, TermValue(c, o.term)))
  }

  function ValueOf(c: Context, v: Value): nat {
    Selected(v.selector, UpTo(c, v.expr, |v.expr.rest|))
  }

  lemma TermReads(c: Context, t: Term, fwdref: bool)
    ensures var r := ReadTerm(c, t, fwdref);
      && (r.Ok? ==> r.value.value == TermValue(c, t))
      && (c.pass2 ==> (r.Ok? <==> Known(c, t)))
      && (r.Err? ==> r == Err(if t.LocalRef? && c.scope.None? then 3 else 1))
      && (!c.pass2 && !(t.LocalRef? && c.scope.None?) ==> r.Ok?)
  {
  }

  lemma {:induction false} RestReads(c: Context, e: Expr, n: nat, any: bool, fwdref: bool)
    requires n <= |e.rest|
    ensures var r := ReadRest(c, UpTo(c, e, n), any, fwdref, e.rest[n..]);
      && (r.Ok? ==> r.value.value == UpTo(c, e, |e.rest|))
      && (c.pass2 ==> (r.Ok? <==> forall i :: n <= i < |e.rest| ==> Known(c, e.rest[i].term)))
    decreases |e.rest| - n
  {
    if n < |e.rest| {
      var o := e.rest[n];
      assert e.rest[n..][0] == o && e.rest[n..][1..] == e.rest[n + 1..];
      TermReads(c, o.term, fwdref);
      var r := ReadSelected(c, o.selector, o.term, fwdref);
      if r.Ok? {
        RestReads(c, e, n + 1, any || r.value.fwdref, r.value.fwdref);
      }
    }
  }

  /** A value is its terms under its operators from the left, each term its constant or its label, a label not known yet 0.
      The second pass reads it exactly if it knows every label in it. */
  lemma ValueReads(c: Context, v: Value, fwdref: bool)
    ensures var r := ReadValue(c, v, fwdref);
      (r.Ok? ==> r.value.value == ValueOf(c, v)) && (c.pass2 ==> (r.Ok? <==> AllKnown(c, v.expr)))
  {
    TermReads(c, v.expr.first, fwdref);
    assert v.expr.rest[0..] == v.expr.rest;
    var r := ReadTerm(c, v.expr.first, fwdref);
    if r.Ok? {
      RestReads(c, v.expr, 0, r.value.fwdref, r.value.fwdref);
    }
  }

  // ---- What is taken to refer forward ----

  function TermFlag(c: Context, t: Term, before: bool): bool {
    if t.Const? then before else !Known(c, t)
  }

  /** The flag after the first term and n operators: a label not known sets it, a known one or a selector clears it, and a
      constant leaves it. */
  function FlagAt(c: Context, e: Expr, n: nat, before: bool): bool
    requires n <= |e.rest|
  {
    if n == 0 then TermFlag(c, e.first, before)
    else if e.rest[n - 1].selector != Whole then false
    else TermFlag(c, e.rest[n - 1].term, FlagAt(c, e, n - 1, before))
  }

  predicate FlaggedFrom(c: Context, e: Expr, n: nat, before: bool) {
    exists i: nat :: n <= i <= |e.rest| && FlagAt(c, e, i, before)
  }

  predicate ValueFlag(c: Context, v: Value, before: bool) {
    v.selector == Whole && FlaggedFrom(c, v.expr, 0, before)
  }

  lemma {:induction false} RestFlags(c: Context, e: Expr, n: nat, value: nat, any: bool, before: bool)
    requires n <= |e.rest|
    ensures var r := ReadRest(c, value, any, FlagAt(c, e, n, before), e.rest[n..]);
      r.Ok? ==> r.value.fwdref == (any || FlaggedFrom(c, e, n + 1, before))
    decreases |e.rest| - n
  {
    if n < |e.rest| {
      var o, flag := e.rest[n], FlagAt(c, e, n, before);
      assert e.rest[n..][0] == o && e.rest[n..][1..] == e.rest[n + 1..];
      var r := ReadSelected(c, o.selector, o.term, flag);
      if r.Ok? {
        assert r.value.fwdref == FlagAt(c, e, n + 1, before);
        RestFlags(c, e, n + 1, Applied(o.op, value, r.value.value), any || r.value.fwdref, before);
      }
    }
  }

  /** A value is taken to refer forward if the flag was set at any of its terms, and it has no selector. */
  lemma FlagReads(c: Context, v: Value, before: bool)
    ensures var r := ReadValue(c, v, before); r.Ok? ==> r.value.fwdref == ValueFlag(c, v, before)
  {
    hide ReadRest;
    assert v.expr.rest[0..] == v.expr.rest;
    var r := ReadTerm(c, v.expr.first, before);
    if r.Ok? {
      RestFlags(c, v.expr, 0, r.value.value, r.value.fwdref, before);
    }
  }

  function ItemsFlag(c: Context, items: seq<Item>, before: bool): bool {
    if items == [] then before
    else
      ItemsFlag(c, items[1..], if items[0].Text? then before else ValueFlag(c, items[0].value, before))
  }

  lemma {:induction false} PutItemsFlag(s: State, kind: Kind, items: seq<Item>)
    requires PutItems(s, kind, items).Ok?
    ensures PutItems(s, kind, items).value.fwdref == ItemsFlag(ContextOf(s), items, s.fwdref)
    decreases |items|
  {
    hide ReadIn, ValueFlag;
    if items != [] {
      match items[0] {
        case Text(_) =>
        case Datum(v) => InFlag(s, v);
      }
      PutItemsFlag(PutItem(s, kind, items[0]).value, kind, items[1..]);
    }
  }

  lemma InFlag(s: State, v: Value)
    ensures ReadIn(s, v).Ok? ==> ReadIn(s, v).value.fwdref == ValueFlag(ContextOf(s), v, s.fwdref)
  {
    FlagReads(ContextOf(s), v, s.fwdref);
  }

  /** The flag goes on from each value to the next, whatever line has them. */
  lemma FlagGoesOn(s: State, kind: Kind, items: seq<Item>, v: Value, tag: Label)
    requires s.skip == 0
    ensures !s.place.inZeropage && Done(s, Data(kind, items)).Ok? ==>
      Done(s, Data(kind, items)).value.fwdref == ItemsFlag(ContextOf(s), items, s.fwdref)
    ensures Done(s, Reserve(v)).Ok? ==> Done(s, Reserve(v)).value.fwdref == ValueFlag(ContextOf(s), v, s.fwdref)
    ensures Step(s, SetPc(v)).Ok? ==> Step(s, SetPc(v)).value.fwdref == ValueFlag(ContextOf(s), v, s.fwdref)
    ensures Step(s, Assign(tag, v)).Ok? ==> Step(s, Assign(tag, v)).value.fwdref == ValueFlag(ContextOf(s), v, s.fwdref)
  {
    hide ReadIn, ValueFlag;
    if !s.place.inZeropage && Done(s, Data(kind, items)).Ok? {
      PutItemsFlag(s, kind, items);
    }
    InFlag(s, v);
  }

  lemma InstructionFlag(s: State, modes: Modes, operand: Operand)
    requires !operand.NoOperand? && Done(s, Instruction(modes, operand)).Ok?
    ensures Done(s, Instruction(modes, operand)).value.fwdref == ValueFlag(ContextOf(s), operand.value, s.fwdref)
  {
    hide ReadIn, ValueFlag;
    InFlag(s, operand.value);
  }

  // ---- How long an operand is ----

  /** The instruction has a form with an address of one byte. */
  predicate HasShort(modes: Modes, index: Index) {
    match index
    case Unindexed => ZeroPage in modes
    case X => ZeroPageX in modes
    case Y => ZeroPageY in modes
  }

  /** The first pass takes the short form exactly where there is one, the value fits it, and no label in it is taken to be
      still to come. */
  lemma ShortIfItFits(s: State, modes: Modes, operand: Operand)
    requires !s.pass2 && !s.place.inZeropage && operand.Direct? && Relative !in modes && Instructed(s, modes, operand).Ok?
    ensures ReadIn(s, operand.value).Ok?
    ensures var r := ReadIn(s, operand.value).value;
      Instructed(s, modes, operand).value.place.pc ==
      (s.place.pc + if HasShort(modes, operand.index) && !r.fwdref && r.value <= 0xFF then 2 else 3) % 0x1_0000
  {
    hide ReadIn;
  }

  // ---- Data ----

  function DatumBytes(kind: Kind, v: nat): seq<byte> {
    if kind == WordData then [v % 0x100, v / 0x100 % 0x100] else [v % 0x100]
  }

  function ItemBytes(c: Context, kind: Kind, item: Item): seq<byte> {
    match item
    case Text(chars) => chars
    case Datum(v) => DatumBytes(kind, ValueOf(c, v))
  }

  function ItemsBytes(c: Context, kind: Kind, items: seq<Item>): seq<byte> {
    if items == [] then [] else ItemsBytes(c, kind, items[..|items| - 1]) + ItemBytes(c, kind, items[|items| - 1])
  }

  lemma {:induction false} EmittedAllOut(p: Place, bytes: seq<byte>)
    requires !p.inZeropage
    ensures EmittedAll(p, true, bytes).Ok?
    ensures var r := EmittedAll(p, true, bytes).value; r.output == p.output + bytes && !r.inZeropage
    decreases |bytes|
  {
    if bytes != [] {
      EmittedAllOut(Emitted(p, true, bytes[0]).value, bytes[1..]);
      assert bytes == [bytes[0]] + bytes[1..];
    }
  }

  lemma PutItemOut(s: State, kind: Kind, item: Item)
    requires s.pass2 && !s.place.inZeropage && PutItem(s, kind, item).Ok?
    ensures var r := PutItem(s, kind, item).value;
      && r.place.output == s.place.output + ItemBytes(ContextOf(s), kind, item)
      && r.pass2 && !r.place.inZeropage && ContextOf(r) == ContextOf(s)
  {
    match item {
      case Text(chars) => EmittedAllOut(s.place, chars);
      case Datum(v) => ValueReads(ContextOf(s), v, s.fwdref);
    }
  }

  lemma {:induction false} PutItemsOut(s: State, kind: Kind, items: seq<Item>)
    requires s.pass2 && !s.place.inZeropage && PutItems(s, kind, items).Ok?
    ensures PutItems(s, kind, items).value.place.output ==
      s.place.output + ItemsBytes(ContextOf(s), kind, items) + if kind == AsciizData then [0] else []
    decreases |items|
  {
    hide PutItem, ItemBytes;
    if items != [] {
      PutItemOut(s, kind, items[0]);
      PutItemsOut(PutItem(s, kind, items[0]).value, kind, items[1..]);
      ItemsFromFront(ContextOf(s), kind, items);
    }
  }

  lemma {:induction false} ItemsFromFront(c: Context, kind: Kind, items: seq<Item>)
    requires items != []
    ensures ItemsBytes(c, kind, items) == ItemBytes(c, kind, items[0]) + ItemsBytes(c, kind, items[1..])
    decreases |items|
  {
    if |items| > 1 {
      var n := |items| - 1;
      ItemsFromFront(c, kind, items[..n]);
      assert items[..n][1..] == items[1..][..n - 1];
    }
  }

  /** The second pass lays a data line's items one after another: characters as they are, a byte of a value or its two, low
      byte first, and a zero after .asciiz. */
  lemma DataLaid(s: State, kind: Kind, items: seq<Item>)
    requires s.pass2 && !s.place.inZeropage && Done(s, Data(kind, items)).Ok?
    ensures Done(s, Data(kind, items)).value.place.output ==
      s.place.output + ItemsBytes(ContextOf(s), kind, items) + if kind == AsciizData then [0] else []
  {
    PutItemsOut(s, kind, items);
  }

  /** .reserve lays as many zeros as its value, and so does setting the address forwards, up to it. */
  lemma ZerosLaid(s: State, v: Value)
    requires s.pass2 && !s.place.inZeropage && s.place.started
    ensures var n, r := ValueOf(ContextOf(s), v), Done(s, Reserve(v));
      r.Ok? ==> r.value.place.output == s.place.output + Zeros(n) && r.value.place.pc == s.place.pc + n
    ensures var n, r := ValueOf(ContextOf(s), v), Step(s.(skip := 0), SetPc(v));
      r.Ok? ==> n >= s.place.pc && r.value.place.output == s.place.output + Zeros(n - s.place.pc) && r.value.place.pc == n
  {
    ValueReads(ContextOf(s), v, s.fwdref);
    assert Zeros(0) == [];
  }

  lemma ZerosAreZero(n: nat)
    ensures |Zeros(n)| == n && forall i :: 0 <= i < n ==> Zeros(n)[i] == 0
  {
  }

  // ---- Labels ----

  /** A name given a value is that value. */
  lemma AssignedIs(s: State, name: string, colon: bool, v: Value)
    requires !s.pass2 && s.skip == 0 && Step(s, Assign(Global(name, colon), v)).Ok?
    ensures var r := Step(s, Assign(Global(name, colon), v)).value;
      && GlobalKey(name) !in s.tables.symbols
      && r.tables.symbols == s.tables.symbols[GlobalKey(name) := ValueOf(ContextOf(s), v)]
      && r.scope == s.scope && r.place == s.place
  {
    ValueReads(ContextOf(s), v, s.fwdref);
  }

  /** A local label belongs to the global one before it: both are the address, and each can be defined once. */
  lemma LocalBelongs(s: State, global: string, local: string, a: bool, b: bool)
    requires !s.pass2 && s.skip == 0
    ensures var lines := [Statement(Some(Global(global, a)), Nothing), Statement(Some(Local(local, b)), Nothing)];
      var r, known := RunLines(s, lines), s.tables.symbols;
      var after := known[GlobalKey(global) := s.place.pc][LocalKey(global, local) := s.place.pc];
      && (r.Ok? <==> GlobalKey(global) !in known && LocalKey(global, local) !in known)
      && (r.Ok? ==> r.value.tables.symbols == after)
  {
    var lines := [Statement(Some(Global(global, a)), Nothing), Statement(Some(Local(local, b)), Nothing)];
    assert lines[1..] == [lines[1]] && [lines[1]][1..] == [];
    var first := Step(s, lines[0]);
    if first.Ok? {
      assert RunLines(s, lines) == RunLines(first.value, [lines[1]]);
      var second := Step(first.value, lines[1]);
      assert second.Ok? ==> RunLines(first.value, [lines[1]]) == RunLines(second.value, []);
    }
  }

  // ---- Conditions ----

  /** How a line that is skipped changes the depth: not one after a label with a colon. */
  function Deeper(line: Line): int {
    if !line.Statement? || (line.tag.Some? && line.tag.value.colon) then 0
    else if line.body.Ifdef? then 1
    else if line.body.Endif? then -1
    else 0
  }

  /** Lines that, from a depth, come back to it and never go above it. */
  predicate Balanced(lines: seq<Line>, depth: nat)
    decreases |lines|
  {
    if lines == [] then depth == 0
    else depth + Deeper(lines[0]) >= 0 && Balanced(lines[1..], depth + Deeper(lines[0]))
  }

  lemma {:induction false} SkipsOver(s: State, lines: seq<Line>, depth: nat)
    requires s.skip > 0 && s.cond == s.skip + depth && Balanced(lines, depth)
    ensures RunLines(s, lines) == Ok(s.(cond := s.skip))
    decreases |lines|
  {
    if lines != [] {
      var d := depth + Deeper(lines[0]);
      assert Step(s, lines[0]) == Ok(s.(cond := s.skip + d));
      SkipsOver(s.(cond := s.skip + d), lines[1..], d);
    }
  }

  lemma {:induction false} RunsJoined(s: State, a: seq<Line>, b: seq<Line>)
    ensures RunLines(s, a + b) == match RunLines(s, a) case Err(code) => Err(code) case Ok(t) => RunLines(t, b)
    decreases |a|
  {
    if a == [] {
      assert a + b == b;
    } else {
      assert (a + b)[1..] == a[1..] + b;
      var t := Step(s, a[0]);
      if t.Ok? {
        RunsJoined(t.value, a[1..], b);
      }
    }
  }

  /** The first pass keeps a decision, that the name is known or not. */
  function Deciding(s: State, known: bool): State {
    var t := s.tables;
    s.(tables := t.(decisions := t.decisions + [known]), position := s.position.(ifdef := s.position.ifdef + 1))
  }

  lemma OneLine(s: State, line: Line)
    ensures RunLines(s, [line]) == Step(s, line)
  {
    assert [line][1..] == [];
  }

  /** A block under .ifdef of a name that is not known yet leaves nothing but that decision, whatever lines it has. */
  lemma UnknownSkips(s: State, name: string, body: seq<Line>)
    requires !s.pass2 && s.skip == 0 && s.position.ifdef < 255 && GlobalKey(name) !in s.tables.symbols && Balanced(body, 0)
    ensures RunLines(s, [Statement(None, Ifdef(name))] + body + [Statement(None, Endif)]) == Ok(Deciding(s, false))
  {
    var open, close := Statement(None, Ifdef(name)), Statement(None, Endif);
    var t := Deciding(s, false).(cond := s.cond + 1, skip := s.cond + 1);
    OneLine(s, open);
    assert Step(s, open) == Ok(t);
    RunsJoined(s, [open], body);
    SkipsOver(t, body, 0);
    RunsJoined(s, [open] + body, [close]);
    OneLine(t, close);
  }

  /** A block under .ifdef of a known name is as its lines, a level down; .endif comes back up. */
  lemma KnownTakes(s: State, name: string, body: seq<Line>)
    requires !s.pass2 && s.skip == 0 && s.position.ifdef < 255 && GlobalKey(name) in s.tables.symbols
    ensures RunLines(s, [Statement(None, Ifdef(name))] + body) == RunLines(Deciding(s, true).(cond := s.cond + 1), body)
  {
    var open := Statement(None, Ifdef(name));
    var t := Deciding(s, true).(cond := s.cond + 1);
    OneLine(s, open);
    assert Step(s, open) == Ok(t);
    RunsJoined(s, [open], body);
  }

  lemma EndifComesUp(s: State)
    requires s.skip == 0 && s.cond > 0
    ensures Step(s, Statement(None, Endif)) == Ok(s.(cond := s.cond - 1))
  {
  }

  // ---- Errors ----

  /** A branch at pc reaches the target: its distance from the byte after the branch is a signed byte. */
  predicate Reaches(pc: nat, target: nat) {
    var after := (pc + 1) % 0x1_0000 + 1;
    after <= target + 128 && target <= after + 127
  }

  predicate ByteMode(mode: Mode) {
    mode !in {Implied, Relative, Absolute, AbsoluteX, AbsoluteY, Indirect}
  }

  /** An instruction with a value that can be read is rejected exactly for a mode it does not have, for a branch or a byte out
      of range, which the second pass sees, and for an index after a branch's target. */
  lemma InstructionFails(s: State, modes: Modes, operand: Operand)
    requires !s.place.inZeropage && ParsedOperand(s, modes, operand).Ok?
    ensures var a, r := ParsedOperand(s, modes, operand).value, Done(s, Instruction(modes, operand));
      if a.mode !in modes then r == Err(13)
      else if s.pass2 && a.mode == Relative && !Reaches(s.place.pc, a.value) then r == Err(8)
      else if s.pass2 && ByteMode(a.mode) && a.value > 0xFF then r == Err(6)
      else if a.mode == Relative && operand.index != Unindexed then r == Err(10)
      else r.Ok?
  {
    hide ReadIn;
  }

  /** The second pass rejects a data line exactly for a label it does not know, or a byte past the range from -256 to 255. */
  lemma {:induction false} DataFails(s: State, kind: Kind, items: seq<Item>)
    requires s.pass2 && !s.place.inZeropage
    ensures Done(s, Data(kind, items)).Ok? <==>
      forall i :: 0 <= i < |items| && items[i].Datum? ==> DatumTaken(ContextOf(s), kind, items[i].value)
    decreases |items|
  {
    hide PutItem, DatumTaken;
    if items != [] {
      ItemTaken(s, kind, items[0]);
      var r := PutItem(s, kind, items[0]);
      if r.Ok? {
        PutItemOut(s, kind, items[0]);
        DataFails(r.value, kind, items[1..]);
        assert Done(s, Data(kind, items)).Ok? <==> PutItems(r.value, kind, items[1..]).Ok?;
        assert forall i :: 0 < i < |items| ==> items[i] == items[1..][i - 1];
      }
    }
  }

  predicate DatumTaken(c: Context, kind: Kind, v: Value) {
    AllKnown(c, v.expr) && (kind == WordData || ValueOf(c, v) <= 0xFF || ValueOf(c, v) >= 0xFF00)
  }

  lemma ItemTaken(s: State, kind: Kind, item: Item)
    requires s.pass2 && !s.place.inZeropage
    ensures PutItem(s, kind, item).Ok? <==> (item.Datum? ==> DatumTaken(ContextOf(s), kind, item.value))
    ensures item.Datum? && AllKnown(ContextOf(s), item.value.expr) && !PutItem(s, kind, item).Ok? ==>
      PutItem(s, kind, item) == Err(6)
  {
    match item {
      case Text(chars) => EmittedAllOut(s.place, chars);
      case Datum(v) => ValueReads(ContextOf(s), v, s.fwdref);
    }
  }

  /** The first pass defines a label once, and a local one only after a global one. */
  lemma LabelFails(s: State, tag: Label)
    requires s.skip == 0
    ensures var r := Step(s, Statement(Some(tag), Nothing));
      if tag.Local? && s.scope.None? then r == Err(3)
      else
        var key := if tag.Local? then LocalKey(s.scope.value, tag.name) else GlobalKey(tag.name);
        if !s.pass2 && key in s.tables.symbols then r == Err(2) else r.Ok?
  {
  }

  /** In the code, once it is set, the address is never set backwards. */
  lemma SetPcFails(s: State, v: Value)
    requires s.skip == 0 && !s.place.inZeropage && ReadIn(s, v).Ok?
    ensures var r, n := Step(s, SetPc(v)), ReadIn(s, v).value.value;
      if s.place.started && n < s.place.pc then r == Err(16)
      else r.Ok? && r.value.place.started && r.value.place.pc == n
  {
    hide ReadIn;
  }

  /** An .endif without an .ifdef is rejected, and so is an .ifdef without an .endif at the end of a pass, and the first pass's
      256th decision. */
  lemma ConditionFails(s: State, name: string, lines: seq<Line>)
    ensures s.cond == 0 ==> Done(s, Endif) == Err(19)
    ensures RunLines(s, lines).Ok? ==>
      (RunPass(s, lines) == Err(20) <==> RunLines(s, lines).value.cond > 0)
    ensures !s.pass2 && s.skip == 0 ==> (Done(s, Ifdef(name)) == Err(21) <==> s.position.ifdef >= 255)
  {
  }

  /** In the zero page .byte and .word take no data, and make room for a byte and for two; .asciiz is rejected, and so is what
      does not fit the page. */
  lemma ZeropageRoom(s: State, kind: Kind, items: seq<Item>, v: Value)
    requires s.place.inZeropage
    ensures var r, size := Done(s, Data(kind, items)), if kind == WordData then 2 else 1;
      if kind == AsciizData then r == Err(38)
      else if items != [] then r == Err(39)
      else if s.place.pc + size > 0x100 then r == Err(35)
      else r == Ok(s.(place := s.place.(pc := s.place.pc + size)))
    ensures ReadIn(s, v).Ok? ==>
      var r, n := Done(s, Reserve(v)), ReadIn(s, v).value.value;
      if s.place.pc + n > 0xFF then r == Err(35)
      else r.Ok? && r.value.place == s.place.(pc := s.place.pc + n)
  {
    hide ReadIn;
  }

  /** Each segment has its own address. */
  lemma SegmentsApart(s: State)
    ensures var zeropage, code := Done(s, Zeropage).value.place, Done(s, Code).value.place;
      && zeropage.inZeropage && !code.inZeropage && zeropage.output == code.output == s.place.output
      && (if s.place.inZeropage then zeropage == s.place && code.pc == s.place.saved && code.saved == s.place.pc
          else code == s.place && zeropage.pc == s.place.saved && zeropage.saved == s.place.pc)
  {
  }
}
