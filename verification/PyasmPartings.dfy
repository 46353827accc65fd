/** What the agreement of the passes rests on: small programs, each without one of its conditions, that both passes take
    and that end at different addresses. */
module PyasmPartings {
  import opened Words
  import opened PyasmExpression
  import opened PyasmPass
  import opened PyasmPhases

  function Number(n: nat): Value {
    Value(Whole, Expr(Const(n), []))
  }

  const LATER := GlobalRef("later")
  const LATER_HERE := Statement(Some(Global("later", false)), Nothing)
  const LDA: Modes := map[ZeroPage := 0xA5, Absolute := 0xAD]

  function Lda(v: Value): Line {
    Statement(None, Instruction(LDA, Direct(v, Unindexed)))
  }

  predicate Parted(lines: seq<Line>) {
    var first := RunLines(First([]), lines);
    first.Ok? && var second := RunLines(Second(first.value), lines);
      second.Ok? && second.value.place.pc != first.value.place.pc
  }

  lemma RunTwo(s: State, a: Line, b: Line)
    ensures RunLines(s, [a, b]) == Then(Step(s, a), b)
  {
    RunsOn(s, [a, b], 0);
    RunsOn(s, [a, b], 1);
    assert [a, b][..1] == [a] && [a, b][..2] == [a, b];
  }

  lemma RunFour(s: State, a: Line, b: Line, c: Line, d: Line)
    ensures RunLines(s, [a, b, c]) == Then(Then(Step(s, a), b), c)
    ensures RunLines(s, [a, b, c, d]) == Then(Then(Then(Step(s, a), b), c), d)
  {
    RunTwo(s, a, b);
    RunsOn(s, [a, b, c], 2);
    RunsOn(s, [a, b, c, d], 3);
    assert [a, b, c][..2] == [a, b] && [a, b, c][..3] == [a, b, c];
    assert [a, b, c, d][..3] == [a, b, c] && [a, b, c, d][..4] == [a, b, c, d];
  }

  // ---- The few lines the programs are made of ----

  /** The label, or a byte of it, added to a number. */
  function PlusLater(n: nat, selector: Selector): Value {
    Value(Whole, Expr(Const(n), [Operation(Add, selector, LATER)]))
  }

  lemma AddsLater(s: State, n: nat, selector: Selector)
    ensures ReadIn(s, PlusLater(n, selector)) ==
      if GlobalKey("later") in s.tables.symbols then
        Ok(Reading((n + Selected(selector, s.tables.symbols[GlobalKey("later")])) % 0x1_0000, s.fwdref))
      else if s.pass2 then Err(LABEL_NOT_FOUND)
      else Ok(Reading(n % 0x1_0000, s.fwdref || selector == Whole))
  {
    var c, o := ContextOf(s), Operation(Add, selector, LATER);
    var r := ReadSelected(c, selector, LATER, s.fwdref);
    assert [o][1..] == [];
    if r.Ok? {
      assert ReadRest(c, n, s.fwdref, s.fwdref, [o]) == Ok(Reading(Applied(Add, n, r.value.value), s.fwdref || r.value.fwdref));
    }
  }

  lemma ReadsNumber(s: State, n: nat)
    ensures ReadIn(s, Number(n)) == Ok(Reading(n, s.fwdref))
  {
  }

  /** The address, where it is still to start. */
  lemma Sets(s: State, n: nat)
    requires s.skip == 0 && !s.place.started && !s.place.inZeropage
    ensures Step(s, SetPc(Number(n))) == Ok(s.(place := s.place.(pc := n, started := true)))
  {
    ReadsNumber(s, n);
  }

  lemma Moves(s: State, absolute: bool, v: nat)
    requires s.place.pc < 0xF0 && (absolute || v <= 0xFF)
    ensures var r := PutInstruction(s, LDA, if absolute then Absolute else ZeroPage, v);
      r.Ok? && r.value == s.(place := s.place.(pc := s.place.pc + (if absolute then 3 else 2), output := r.value.place.output))
  {
  }

  lemma Loads(s: State, v: Value, r: Reading)
    requires s.skip == 0 && ReadIn(s, v) == Ok(r) && s.place.pc < 0xF0
    ensures var c := Chosen(s.(fwdref := r.fwdref), LDA, ZeroPage, r.value);
      var next := Step(s, Lda(v));
      c.absolute || r.value <= 0xFF ==>
        next.Ok? && next.value == c.s.(place := s.place.(pc := s.place.pc + (if c.absolute then 3 else 2), output := next.value.place.output))
  {
    var c := Chosen(s.(fwdref := r.fwdref), LDA, ZeroPage, r.value);
    assert Relative !in LDA && ParsedOperand(s, LDA, Direct(v, Unindexed)) == Ok(Parsed(c.s, if c.absolute then Absolute else ZeroPage, r.value));
    if c.absolute || r.value <= 0xFF {
      hide PutInstruction;
      Moves(c.s, c.absolute, r.value);
    }
  }

  lemma Here(s: State)
    requires s.skip == 0 && (s.pass2 || GlobalKey("later") !in s.tables.symbols)
    ensures var t := s.tables; Step(s, LATER_HERE) == Ok(s.(scope := Some("later"),
      tables := if s.pass2 then t else t.(symbols := t.symbols[GlobalKey("later") := s.place.pc])))
  {
  }

  // ---- The programs ----

  /** The operand $F0+<later: no forward reference in the first pass, and past the zero page in the second. */
  lemma SelectorParts()
    ensures Parted([SetPc(Number(0x20)), Lda(PlusLater(0xF0, Low)), LATER_HERE])
  {
    hide RunLines, PutInstruction, ParsedOperand, ReadIn;
    var a, b, s := SetPc(Number(0x20)), Lda(PlusLater(0xF0, Low)), First([]);
    RunFour(s, a, b, LATER_HERE, LATER_HERE);
    Sets(s, 0x20);
    var s1 := Step(s, a).value;
    AddsLater(s1, 0xF0, Low);
    Loads(s1, PlusLater(0xF0, Low), Reading(0xF0, false));
    Here(Step(s1, b).value);
    var u := Second(RunLines(s, [a, b, LATER_HERE]).value);
    RunFour(u, a, b, LATER_HERE, LATER_HERE);
    Sets(u, 0x20);
    var u1 := Step(u, a).value;
    AddsLater(u1, 0xF0, Low);
    Loads(u1, PlusLater(0xF0, Low), Reading(0x112, false));
    Here(Step(u1, b).value);
  }

  /** Space reserved up to a label still to come: none in the first pass. */
  lemma ReserveParts()
    ensures Parted([SetPc(Number(0x20)), Statement(None, Reserve(PlusLater(0, Whole))), LATER_HERE])
  {
    var a, b, s := SetPc(Number(0x20)), Statement(None, Reserve(PlusLater(0, Whole))), First([]);
    RunFour(s, a, b, LATER_HERE, LATER_HERE);
    Sets(s, 0x20);
    var s1 := Step(s, a).value;
    AddsLater(s1, 0, Whole);
    Here(Step(s1, b).value);
    var u := Second(RunLines(s, [a, b, LATER_HERE]).value);
    RunFour(u, a, b, LATER_HERE, LATER_HERE);
    Sets(u, 0x20);
    var u1 := Step(u, a).value;
    AddsLater(u1, 0, Whole);
    Here(Step(u1, b).value);
  }

  /** The address set from a label still to come. */
  lemma SetPcParts()
    ensures Parted([SetPc(PlusLater(0x20, Whole)), LATER_HERE])
  {
    var a, s := SetPc(PlusLater(0x20, Whole)), First([]);
    RunTwo(s, a, LATER_HERE);
    AddsLater(s, 0x20, Whole);
    Here(Step(s, a).value);
    var u := Second(RunLines(s, [a, LATER_HERE]).value);
    RunTwo(u, a, LATER_HERE);
    AddsLater(u, 0x20, Whole);
    Here(Step(u, a).value);
  }

  /** An instruction before the address is set, at the place of a forward reference after: the second pass takes it for
      that one. */
  lemma BeforeStartParts()
    ensures Parted([Lda(Number(5)), SetPc(Number(0)), Lda(PlusLater(0, Whole)), LATER_HERE])
  {
    var a, b, c, s := Lda(Number(5)), SetPc(Number(0)), Lda(PlusLater(0, Whole)), First([]);
    RunFour(s, a, b, c, LATER_HERE);
    ReadsNumber(s, 5);
    Loads(s, Number(5), Reading(5, false));
    var s1 := Step(s, a).value;
    Sets(s1, 0);
    var s2 := Step(s1, b).value;
    AddsLater(s2, 0, Whole);
    Loads(s2, PlusLater(0, Whole), Reading(0, true));
    Here(Step(s2, c).value);
    var u := Second(RunLines(s, [a, b, c, LATER_HERE]).value);
    RunFour(u, a, b, c, LATER_HERE);
    ReadsNumber(u, 5);
    Loads(u, Number(5), Reading(5, true));
    var u1 := Step(u, a).value;
    Sets(u1, 0);
    var u2 := Step(u1, b).value;
    AddsLater(u2, 0, Whole);
    Loads(u2, PlusLater(0, Whole), Reading(3, true));
    Here(Step(u2, c).value);
  }

  /** At $FFFF an instruction is where the list of forward references ends, so the second pass takes it for one. */
  lemma EndParts()
    ensures Parted([SetPc(Number(END)), Lda(Number(5))])
  {
    var a, b, s := SetPc(Number(END)), Lda(Number(5)), First([]);
    RunTwo(s, a, b);
    Sets(s, END);
    ReadsNumber(Step(s, a).value, 5);
    var u := Second(RunLines(s, [a, b]).value);
    RunTwo(u, a, b);
    Sets(u, END);
    ReadsNumber(Step(u, a).value, 5);
  }

  lemma RunSix(s: State, a: Line, b: Line, c: Line, d: Line, e: Line, f: Line)
    ensures RunLines(s, [a, b, c, d, e, f]) == Then(Then(Then(Then(Then(Step(s, a), b), c), d), e), f)
  {
    var lines := [a, b, c, d, e, f];
    RunFour(s, a, b, c, d);
    RunsOn(s, lines, 4);
    RunsOn(s, lines, 5);
    assert lines[..4] == [a, b, c, d] && lines[..6] == lines;
  }

  /** An instruction in the zero page at an address that a forward reference in the code has. */
  lemma ZeropageParts()
    ensures Parted([Statement(None, Zeropage), Lda(Number(5)), Statement(None, Code), SetPc(Number(0)),
                    Lda(PlusLater(0, Whole)), LATER_HERE])
  {
    hide RunLines, PutInstruction, ParsedOperand, ReadIn;
    var a, b, c, s := Statement(None, Zeropage), Lda(Number(5)), Statement(None, Code), First([]);
    var d, e := SetPc(Number(0)), Lda(PlusLater(0, Whole));
    RunSix(s, a, b, c, d, e, LATER_HERE);
    var s1 := Step(s, a).value;
    ReadsNumber(s1, 5);
    Loads(s1, Number(5), Reading(5, false));
    var s3 := Then(Step(s1, b), c).value;
    Sets(s3, 0);
    var s4 := Step(s3, d).value;
    AddsLater(s4, 0, Whole);
    Loads(s4, PlusLater(0, Whole), Reading(0, true));
    Here(Step(s4, e).value);
    var u := Second(RunLines(s, [a, b, c, d, e, LATER_HERE]).value);
    RunSix(u, a, b, c, d, e, LATER_HERE);
    var u1 := Step(u, a).value;
    ReadsNumber(u1, 5);
    Loads(u1, Number(5), Reading(5, true));
    var u3 := Then(Step(u1, b), c).value;
    Sets(u3, 0);
    var u4 := Step(u3, d).value;
    AddsLater(u4, 0, Whole);
    Loads(u4, PlusLater(0, Whole), Reading(3, true));
    Here(Step(u4, e).value);
  }
}
