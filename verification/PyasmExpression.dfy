/** Values in assembler source: terms, byte selectors and operators, read left to right with no precedence. */
module PyasmExpression {
  import opened Words

  datatype Outcome<+T> = Ok(value: T) | Err(code: nat)

  const LABEL_NOT_FOUND := 1
  const NO_GLOBAL_LABEL := 3

  // ---- Source ----

  datatype Term = Const(v: nat) | GlobalRef(name: string) | LocalRef(name: string)
  datatype Selector = Whole | Low | High
  datatype Operator = Add | Sub | ShiftLeft | ShiftRight

  /** An operator and the term after it, with its selector. */
  datatype Operation = Operation(op: Operator, selector: Selector, term: Term)

  datatype Expr = Expr(first: Term, rest: seq<Operation>)
  datatype Value = Value(selector: Selector, expr: Expr)

  // ---- Labels ----

  datatype Key = GlobalKey(name: string) | LocalKey(scope: string, name: string)

  /** What a value is read with: the pass, the labels it knows, and the global label local ones belong to. */
  datatype Context = Context(pass2: bool, symbols: map<Key, nat>, scope: Option<string>)

  /** A value, and whether it is taken to refer forward. */
  datatype Reading = Reading(value: nat, fwdref: bool)

  /** A label not known yet is 0 in the first pass. */
  function Lookup(c: Context, key: Key): Outcome<Reading> {
    if key in c.symbols then Ok(Reading(c.symbols[key], false))
    else if c.pass2 then Err(LABEL_NOT_FOUND)
    else Ok(Reading(0, true))
  }

  /** A constant leaves the forward flag as it was. */
  function ReadTerm(c: Context, t: Term, fwdref: bool): Outcome<Reading> {
    match t
    case Const(v) => Ok(Reading(v, fwdref))
    case GlobalRef(name) => Lookup(c, GlobalKey(name))
    case LocalRef(name) => if c.scope.None? then Err(NO_GLOBAL_LABEL) else Lookup(c, LocalKey(c.scope.value, name))
  }

  function Selected(selector: Selector, v: nat): nat {
    match selector
    case Whole => v
    case Low => v % 0x100
    case High => v / 0x100 % 0x100
  }

  /** A selector takes a byte, and clears the forward flag. */
  function ReadSelected(c: Context, selector: Selector, t: Term, fwdref: bool): Outcome<Reading> {
    match ReadTerm(c, t, fwdref)
    case Err(code) => Err(code)
    case Ok(r) => Ok(if selector == Whole then r else Reading(Selected(selector, r.value), false))
  }

  /** Sixteen bits, but for a shift right. */
  function Applied(op: Operator, a: nat, b: nat): nat {
    match op
    case Add => (a + b) % 0x1_0000
    case Sub => (a - b) % 0x1_0000
    case ShiftLeft => if b >= 16 then 0 else LeftBy(a, b) % 0x1_0000
    case ShiftRight => if b >= 16 then 0 else RightBy(a, b)
  }

  /** The operations from the front, on a value so far: any, if a whole term before referred forward. */
  function ReadRest(c: Context, value: nat, any: bool, fwdref: bool, rest: seq<Operation>): Outcome<Reading>
    decreases |rest|
  {
    if rest == [] then Ok(Reading(value, any))
    else
      match ReadSelected(c, rest[0].selector, rest[0].term, fwdref)
      case Err(code) => Err(code)
      case Ok(r) => ReadRest(c, Applied(rest[0].op, value, r.value), any || r.fwdref, r.fwdref, rest[1..])
  }

  function ReadExpr(c: Context, e: Expr, fwdref: bool): Outcome<Reading> {
    match ReadTerm(c, e.first, fwdref)
    case Err(code) => Err(code)
    case Ok(r) => ReadRest(c, r.value, r.fwdref, r.fwdref, e.rest)
  }

  function ReadValue(c: Context, v: Value, fwdref: bool): Outcome<Reading> {
    match ReadExpr(c, v.expr, fwdref)
    case Err(code) => Err(code)
    case Ok(r) => Ok(if v.selector == Whole then r else Reading(Selected(v.selector, r.value), false))
  }

  // ---- The same value in both passes ----

  predicate Known(c: Context, t: Term) {
    match t
    case Const(_) => true
    case GlobalRef(name) => GlobalKey(name) in c.symbols
    case LocalRef(name) => c.scope.Some? && LocalKey(c.scope.value, name) in c.symbols
  }

  predicate AllKnown(c: Context, e: Expr) {
    Known(c, e.first) && forall i :: 0 <= i < |e.rest| ==> Known(c, e.rest[i].term)
  }

  predicate KnownUnderSelectors(c: Context, rest: seq<Operation>) {
    forall i :: 0 <= i < |rest| && rest[i].selector != Whole ==> Known(c, rest[i].term)
  }

  /** Where the second pass reads what the first one read: it knows what the first knew, and more. */
  predicate Later(c: Context, d: Context) {
    c.scope == d.scope && forall key :: key in c.symbols ==> key in d.symbols && d.symbols[key] == c.symbols[key]
  }

  /** The forward flag a value starts with changes no value. */
  lemma {:induction false} RestIgnoresFlag(c: Context, value: nat, rest: seq<Operation>, any: bool, a: bool, any': bool, b: bool)
    ensures var r, s := ReadRest(c, value, any, a, rest), ReadRest(c, value, any', b, rest);
      if r.Ok? then s.Ok? && s.value.value == r.value.value else s == r
    decreases |rest|
  {
    if rest != [] {
      var r, s := ReadSelected(c, rest[0].selector, rest[0].term, a), ReadSelected(c, rest[0].selector, rest[0].term, b);
      if r.Ok? {
        RestIgnoresFlag(c, Applied(rest[0].op, value, r.value.value), rest[1..], any || r.value.fwdref, r.value.fwdref,
                        any' || s.value.fwdref, s.value.fwdref);
      }
    }
  }

  lemma ValueIgnoresFlag(c: Context, v: Value, a: bool, b: bool)
    ensures var r, s := ReadValue(c, v, a), ReadValue(c, v, b);
      if r.Ok? then s.Ok? && s.value.value == r.value.value else s == r
  {
    var r, s := ReadTerm(c, v.expr.first, a), ReadTerm(c, v.expr.first, b);
    if r.Ok? {
      RestIgnoresFlag(c, r.value.value, v.expr.rest, r.value.fwdref, r.value.fwdref, s.value.fwdref, s.value.fwdref);
    }
  }

  /** Operations on known labels read the same whatever else is known. */
  lemma {:induction false} KnownRest(c: Context, d: Context, value: nat, any: bool, fwdref: bool, rest: seq<Operation>)
    requires Later(c, d) && forall i :: 0 <= i < |rest| ==> Known(c, rest[i].term)
    ensures ReadRest(c, value, any, fwdref, rest).Ok? && ReadRest(d, value, any, fwdref, rest) == ReadRest(c, value, any, fwdref, rest)
    decreases |rest|
  {
    if rest != [] {
      assert Known(c, rest[0].term);
      var r := ReadSelected(c, rest[0].selector, rest[0].term, fwdref).value;
      KnownRest(c, d, Applied(rest[0].op, value, r.value), any || r.fwdref, r.fwdref, rest[1..]);
    }
  }

  /** Operations that read as not referring forward have no unknown label but under a selector. */
  lemma {:induction false} UnflaggedRest(c: Context, value: nat, any: bool, fwdref: bool, rest: seq<Operation>)
    requires KnownUnderSelectors(c, rest)
    requires ReadRest(c, value, any, fwdref, rest).Ok? && !ReadRest(c, value, any, fwdref, rest).value.fwdref
    ensures !any && forall i :: 0 <= i < |rest| ==> Known(c, rest[i].term)
    decreases |rest|
  {
    if rest != [] {
      var r := ReadSelected(c, rest[0].selector, rest[0].term, fwdref).value;
      assert KnownUnderSelectors(c, rest[1..]);
      UnflaggedRest(c, Applied(rest[0].op, value, r.value), any || r.fwdref, r.fwdref, rest[1..]);
      assert Known(c, rest[0].term);
      forall i | 0 <= i < |rest| ensures Known(c, rest[i].term) {
        if i > 0 {
          assert rest[i] == rest[1..][i - 1];
        }
      }
    }
  }

  /** A value of known labels is the same in both passes. */
  lemma KnownValue(c: Context, d: Context, v: Value, a: bool, b: bool)
    requires Later(c, d) && AllKnown(c, v.expr)
    ensures var r, s := ReadValue(c, v, a), ReadValue(d, v, b); r.Ok? && s.Ok? && r.value.value == s.value.value
  {
    var r := ReadTerm(c, v.expr.first, a).value;
    KnownRest(c, d, r.value, r.fwdref, r.fwdref, v.expr.rest);
    ValueIgnoresFlag(d, v, a, b);
  }

  /** An operand with no unknown label under a selector after an operator either is flagged as referring forward or has
      the same value in both passes, or is a byte in both. */
  lemma PlainValue(c: Context, d: Context, v: Value, a: bool, b: bool)
    requires Later(c, d) && KnownUnderSelectors(c, v.expr.rest) && ReadValue(c, v, a).Ok? && ReadValue(d, v, b).Ok?
    ensures var r, s := ReadValue(c, v, a).value, ReadValue(d, v, b).value;
      r.fwdref || r.value == s.value || (r.value <= 0xFF && s.value <= 0xFF)
  {
    if v.selector == Whole && !ReadValue(c, v, a).value.fwdref {
      var r := ReadTerm(c, v.expr.first, a).value;
      UnflaggedRest(c, r.value, r.fwdref, r.fwdref, v.expr.rest);
      assert Known(c, v.expr.first);
      KnownValue(c, d, v, a, b);
    }
  }

  /** Where the first pass reads a value, the second can fail only for want of a label. */
  lemma {:induction false} RestFails(c: Context, d: Context, value: nat, value': nat, any: bool, any': bool, a: bool, b: bool,
                                     rest: seq<Operation>)
    requires c.scope == d.scope && ReadRest(c, value, any, a, rest).Ok?
    ensures var r := ReadRest(d, value', any', b, rest); r.Ok? || r.code == LABEL_NOT_FOUND
    decreases |rest|
  {
    if rest != [] {
      var r, s := ReadSelected(c, rest[0].selector, rest[0].term, a), ReadSelected(d, rest[0].selector, rest[0].term, b);
      if s.Ok? {
        RestFails(c, d, Applied(rest[0].op, value, r.value.value), Applied(rest[0].op, value', s.value.value),
                  any || r.value.fwdref, any' || s.value.fwdref, r.value.fwdref, s.value.fwdref, rest[1..]);
      }
    }
  }

  lemma ValueFails(c: Context, d: Context, v: Value, a: bool, b: bool)
    requires c.scope == d.scope && ReadValue(c, v, a).Ok?
    ensures var r := ReadValue(d, v, b); r.Ok? || r.code == LABEL_NOT_FOUND
  {
    var r, s := ReadTerm(c, v.expr.first, a), ReadTerm(d, v.expr.first, b);
    if s.Ok? {
      RestFails(c, d, r.value.value, s.value.value, r.value.fwdref, s.value.fwdref, r.value.fwdref, s.value.fwdref, v.expr.rest);
    }
  }

  // ---- What the operators mean ----

  /** A word's bytes, by the two selectors, make the word. */
  lemma SelectorsSplit(v: word)
    ensures Selected(Low, v) + 0x100 * Selected(High, v) == v && Selected(Low, v) < 0x100 && Selected(High, v) < 0x100
  {
  }

  /** Subtraction undoes addition in sixteen bits, and addition subtraction. */
  lemma SumsUndone(a: word, b: word)
    ensures Applied(Sub, Applied(Add, a, b), b) == a && Applied(Add, Applied(Sub, a, b), b) == a
  {
    var s, d := a + b, a - b;
    assert s % 0x1_0000 == if s < 0x1_0000 then s else s - 0x1_0000;
    assert d % 0x1_0000 == if d < 0 then d + 0x1_0000 else d;
  }

  lemma {:induction false} ShiftedUp(a: nat, n: nat)
    ensures LeftBy(a, n) == a * Power2(n)
    decreases n
  {
    if n > 0 {
      ShiftedUp(2 * a, n - 1);
      assert 2 * a * Power2(n - 1) == a * (2 * Power2(n - 1));
    }
  }

  lemma {:induction false} ShiftedBack(a: nat, n: nat)
    ensures RightBy(LeftBy(a, n), n) == a
    decreases n
  {
    if n > 0 {
      LeftOnce(a, n - 1);
      assert LeftBy(a, n) / 2 == LeftBy(a, n - 1);
      ShiftedBack(a, n - 1);
    }
  }

  lemma {:induction false} LeftOnce(a: nat, n: nat)
    ensures LeftBy(2 * a, n) == 2 * LeftBy(a, n)
    decreases n
  {
    if n > 0 {
      LeftOnce(2 * a, n - 1);
    }
  }

  lemma {:induction false} ShiftedDown(a: nat, n: nat)
    ensures RightBy(a, n) == a / Power2(n)
    decreases n
  {
    if n > 0 {
      ShiftedDown(a / 2, n - 1);
      Halved(a, Power2(n - 1));
    }
  }

  lemma Halved(a: nat, p: nat)
    requires p > 0
    ensures a / 2 / p == a / (2 * p)
  {
    var q, r := a / 2 / p, a / 2 % p;
    assert a == (2 * p) * q + (2 * r + a % 2);
    ModUnique(a, 2 * p, q, 2 * r + a % 2);
    assert (2 * p) * (a / (2 * p) - q) == 0;
  }

  /** A shift of sixteen or more leaves nothing; of fewer, to the left multiplies by the power of two in sixteen
      bits, and to the right divides by it. */
  lemma ShiftsOut(a: nat, n: nat)
    ensures n >= 16 ==> Applied(ShiftLeft, a, n) == 0 && Applied(ShiftRight, a, n) == 0
    ensures n < 16 ==> Applied(ShiftLeft, a, n) == a * Power2(n) % 0x1_0000 && Applied(ShiftRight, a, n) == a / Power2(n)
  {
    ShiftedUp(a, n);
    ShiftedDown(a, n);
  }

  /** A shift right undoes a shift left that keeps within sixteen bits, which multiplies by the power of two. */
  lemma ShiftsUndone(a: word, n: nat)
    requires n < 16 && a * Power2(n) < 0x1_0000
    ensures Applied(ShiftLeft, a, n) == a * Power2(n) && Applied(ShiftRight, Applied(ShiftLeft, a, n), n) == a
  {
    ShiftedUp(a, n);
    ShiftedBack(a, n);
  }
}
