/** The ring of samples between the emulator, which pushes, and the audio thread, which pops: each a few atomic steps, in
    any order between the two. */
module AudioRing {
  import opened Words

  const CAPACITY := 16384
  const WRAP := 0x1_0000_0000

  type sample = x: int | -32768 <= x < 32768
  type counter = x: int | 0 <= x < WRAP

  /** Counters and their differences are 32 bits. */
  function Minus(a: counter, b: counter): counter {
    (a - b) % WRAP
  }

  function Plus(a: counter, n: nat): counter {
    (a + n) % WRAP
  }

  function Slot(c: counter): (i: nat)
    ensures i < CAPACITY
  {
    c % CAPACITY
  }

  /** Where a push is: not begun, the counters read, or its sample in its slot. */
  datatype Push = Idle | Loaded(value: sample, head: counter, tail: counter) | Stored(value: sample, head: counter)

  /** Where a pop is: not begun, or some of its samples copied. */
  datatype Pop = Resting | Copying(tail: counter, take: nat, got: seq<sample>)

  datatype Ring = Ring(buf: seq<sample>, head: counter, tail: counter, push: Push, pop: Pop, drops: nat)

  predicate ValidRing(r: Ring) {
    |r.buf| == CAPACITY && (r.pop.Copying? ==> |r.pop.got| <= r.pop.take)
  }

  /** The atomic steps. A side's own counter is written by that side alone, so reading both counters is one step. */
  datatype Action = PushLoads(value: sample) | PushStores | PushEnds | PopLoads(n: nat) | PopCopies | PopEnds

  predicate Full(p: Push)
    requires p.Loaded?
  {
    Minus(p.head, p.tail) >= CAPACITY
  }

  predicate Enabled(r: Ring, a: Action) {
    match a
    case PushLoads(_) => r.push.Idle?
    case PushStores => r.push.Loaded?
    case PushEnds => r.push.Stored?
    case PopLoads(_) => r.pop.Resting?
    case PopCopies => r.pop.Copying? && |r.pop.got| < r.pop.take
    case PopEnds => r.pop.Copying? && |r.pop.got| == r.pop.take
  }

  function Step(r: Ring, a: Action): (s: Ring)
    requires ValidRing(r)
    ensures ValidRing(s)
  {
    if !Enabled(r, a) then r
    else
      match a
      case PushLoads(v) => r.(push := Loaded(v, r.head, r.tail))
      case PushStores =>
        if Full(r.push) then r.(drops := r.drops + 1, push := Idle)
        else r.(buf := r.buf[Slot(r.push.head) := r.push.value], push := Stored(r.push.value, r.push.head))
      case PushEnds => r.(head := Plus(r.push.head, 1), push := Idle)
      case PopLoads(n) => r.(pop := Copying(r.tail, Min(Minus(r.head, r.tail), n), []))
      case PopCopies => r.(pop := r.pop.(got := r.pop.got + [r.buf[Slot(Plus(r.pop.tail, |r.pop.got|))]]))
      case PopEnds => r.(tail := Plus(r.pop.tail, r.pop.take), pop := Resting)
  }

  function Silence(n: nat): (s: seq<sample>)
    ensures |s| == n && forall i :: 0 <= i < n ==> s[i] == 0
  {
    seq(n, _ => 0)
  }

  const EMPTY := Ring(Silence(CAPACITY), 0, 0, Idle, Resting, 0)

  // ---- What has gone in and out ----

  datatype Live = Live(ring: Ring, accepted: seq<sample>, popped: seq<sample>)

  function Next(l: Live, a: Action): (r: Live)
    requires ValidRing(l.ring)
    ensures ValidRing(r.ring)
  {
    Live(Step(l.ring, a),
         if a.PushEnds? && l.ring.push.Stored? then l.accepted + [l.ring.push.value] else l.accepted,
         if a.PopEnds? && Enabled(l.ring, a) then l.popped + l.ring.pop.got else l.popped)
  }

  function Run(actions: seq<Action>): (l: Live)
    ensures ValidRing(l.ring)
  {
    if actions == [] then Live(EMPTY, [], []) else Next(Run(actions[..|actions| - 1]), actions[|actions| - 1])
  }

  // ---- Counters as counts ----

  function Wrapped(n: nat): counter {
    n % WRAP
  }

  /** The capacity divides the counters' range, so a count and its counter have the same slot. */
  lemma SlotOfCount(n: nat)
    ensures Slot(Wrapped(n)) == n % CAPACITY
  {
    var q, r := n / WRAP, n % WRAP;
    ModUnique(n, CAPACITY, q * (WRAP / CAPACITY) + r / CAPACITY, r % CAPACITY);
  }

  lemma PlusCount(n: nat, d: nat)
    ensures Plus(Wrapped(n), d) == Wrapped(n + d)
  {
    var s := Wrapped(n) + d;
    ModUnique(n + d, WRAP, n / WRAP + s / WRAP, s % WRAP);
  }

  /** Counters of counts less than their range apart differ by as much as the counts. */
  lemma MinusCount(a: nat, b: nat)
    requires b <= a < b + WRAP
    ensures Minus(Wrapped(a), Wrapped(b)) == a - b
  {
    ModUnique(Wrapped(a) - Wrapped(b), WRAP, b / WRAP - a / WRAP, a - b);
  }

  lemma SlotsApart(a: nat, b: nat)
    requires a < b < a + CAPACITY
    ensures a % CAPACITY != b % CAPACITY
  {
  }

  // ---- What every step keeps ----

  /** The samples accepted and not yet popped are in their slots. */
  ghost predicate Holding(buf: seq<sample>, accepted: seq<sample>, from: nat)
    requires |buf| == CAPACITY
  {
    forall k :: from <= k < |accepted| ==> buf[k % CAPACITY] == accepted[k]
  }

  /** A push under way has read a count of pops from now or before, with which the ring was no more than full. */
  ghost predicate Pushing(p: Push, buf: seq<sample>, ins: nat, outs: nat)
    requires |buf| == CAPACITY
  {
    match p
    case Idle => true
    case Loaded(_, head, tail) => head == Wrapped(ins) && exists seen: nat :: Seen(seen, tail, ins, outs)
    case Stored(v, head) => head == Wrapped(ins) && ins < outs + CAPACITY && buf[ins % CAPACITY] == v
  }

  predicate Seen(seen: nat, tail: counter, ins: nat, outs: nat) {
    seen <= outs && ins <= seen + CAPACITY && tail == Wrapped(seen)
  }

  /** A pop under way has copied the samples next to go, out of those accepted. */
  predicate Popping(p: Pop, accepted: seq<sample>, outs: nat) {
    p.Copying? ==>
      && p.tail == Wrapped(outs) && outs + p.take <= |accepted|
      && |p.got| <= p.take && p.got == accepted[outs..outs + |p.got|]
  }

  ghost predicate Inv(l: Live) {
    var r, ins, outs := l.ring, |l.accepted|, |l.popped|;
    && ValidRing(r) && r.head == Wrapped(ins) && r.tail == Wrapped(outs)
    && l.popped <= l.accepted && ins <= outs + CAPACITY
    && Holding(r.buf, l.accepted, outs) && Pushing(r.push, r.buf, ins, outs) && Popping(r.pop, l.accepted, outs)
  }

  lemma StoreKeepsInv(l: Live)
    requires Inv(l) && l.ring.push.Loaded?
    ensures Inv(Next(l, PushStores))
  {
    var r, ins, outs := l.ring, |l.accepted|, |l.popped|;
    var seen: nat :| Seen(seen, r.push.tail, ins, outs);
    MinusCount(ins, seen);
    SlotOfCount(ins);
    if !Full(r.push) {
      forall k | outs <= k < ins ensures k % CAPACITY != ins % CAPACITY {
        SlotsApart(k, ins);
      }
    }
  }

  lemma EndKeepsInv(l: Live)
    requires Inv(l) && l.ring.push.Stored?
    ensures Inv(Next(l, PushEnds))
  {
    PlusCount(|l.accepted|, 1);
  }

  lemma CopyKeepsInv(l: Live)
    requires Inv(l) && Enabled(l.ring, PopCopies)
    ensures Inv(Next(l, PopCopies))
  {
    hide Wrapped, Slot, Plus, Minus, Pushing;
    var p, outs := l.ring.pop, |l.popped|;
    var k := outs + |p.got|;
    PlusCount(outs, |p.got|);
    SlotOfCount(k);
    assert l.accepted[outs..k + 1] == l.accepted[outs..k] + [l.accepted[k]];
  }

  lemma PopEndKeepsInv(l: Live)
    requires Inv(l) && Enabled(l.ring, PopEnds)
    ensures Inv(Next(l, PopEnds))
  {
    var p, outs := l.ring.pop, |l.popped|;
    PlusCount(outs, p.take);
    assert l.accepted[..outs] + l.accepted[outs..outs + p.take] == l.accepted[..outs + p.take];
    if l.ring.push.Loaded? {
      var seen: nat :| Seen(seen, l.ring.push.tail, |l.accepted|, outs);
      assert Seen(seen, l.ring.push.tail, |l.accepted|, outs + p.take);
    }
  }

  lemma LoadKeepsInv(l: Live, a: Action)
    requires Inv(l) && (a.PushLoads? || a.PopLoads?)
    ensures Inv(Next(l, a))
  {
    MinusCount(|l.accepted|, |l.popped|);
    if a.PushLoads? {
      assert Seen(|l.popped|, l.ring.tail, |l.accepted|, |l.popped|);
    }
  }

  lemma StepKeepsInv(l: Live, a: Action)
    requires Inv(l)
    ensures Inv(Next(l, a))
  {
    if Enabled(l.ring, a) {
      match a {
        case PushLoads(_) => LoadKeepsInv(l, a);
        case PopLoads(_) => LoadKeepsInv(l, a);
        case PushStores => StoreKeepsInv(l);
        case PushEnds => EndKeepsInv(l);
        case PopCopies => CopyKeepsInv(l);
        case PopEnds => PopEndKeepsInv(l);
      }
    }
  }

  lemma {:induction false} RunKeepsInv(actions: seq<Action>)
    ensures Inv(Run(actions))
  {
    if actions != [] {
      RunKeepsInv(actions[..|actions| - 1]);
      StepKeepsInv(Run(actions[..|actions| - 1]), actions[|actions| - 1]);
    }
  }

  // ---- Over every run ----

  /** However the steps of the two sides fall between each other, what is popped is what was accepted, in order and
      nothing missed; the counters are that far apart, wrapped or not, and never more than the ring holds. */
  lemma PopsWhatWasAccepted(actions: seq<Action>)
    ensures var l := Run(actions);
      && l.popped <= l.accepted
      && Minus(l.ring.head, l.ring.tail) == |l.accepted| - |l.popped| <= CAPACITY
  {
    RunKeepsInv(actions);
    MinusCount(|Run(actions).accepted|, |Run(actions).popped|);
  }

  /** No slot is written while a pop has it still to copy. */
  lemma NoSlotWrittenWhileCopied(actions: seq<Action>, i: nat)
    requires var r := Run(actions).ring;
      r.push.Loaded? && !Full(r.push) && r.pop.Copying? && |r.pop.got| <= i < r.pop.take
    ensures var r := Run(actions).ring; Slot(r.push.head) != Slot(Plus(r.pop.tail, i))
  {
    RunKeepsInv(actions);
    var l := Run(actions);
    var r, ins, outs := l.ring, |l.accepted|, |l.popped|;
    var seen: nat :| Seen(seen, r.push.tail, ins, outs);
    MinusCount(ins, seen);
    PlusCount(outs, i);
    SlotOfCount(ins);
    SlotOfCount(outs + i);
    SlotsApart(outs + i, ins);
  }

  /** A push is dropped exactly when the ring was full as it began, and a pop takes what there was as it began. */
  lemma FullAndEmpty(actions: seq<Action>, v: sample, n: nat)
    ensures var l := Run(actions);
      var waiting := |l.accepted| - |l.popped|;
      && (l.ring.push.Idle? ==> (Full(Next(l, PushLoads(v)).ring.push) <==> waiting == CAPACITY))
      && (l.ring.pop.Resting? ==> Next(l, PopLoads(n)).ring.pop.take == Min(waiting, n))
  {
    PopsWhatWasAccepted(actions);
  }

  /** How many pushes have begun. */
  function Begun(actions: seq<Action>): nat {
    if actions == [] then 0
    else
      var before, a := actions[..|actions| - 1], actions[|actions| - 1];
      Begun(before) + if a.PushLoads? && Run(before).ring.push.Idle? then 1 else 0
  }

  /** Every push that began was accepted, or dropped and counted, or is under way. */
  lemma {:induction false} PushesAccounted(actions: seq<Action>)
    ensures var l := Run(actions);
      Begun(actions) == |l.accepted| + l.ring.drops + if l.ring.push.Idle? then 0 else 1
  {
    if actions != [] {
      PushesAccounted(actions[..|actions| - 1]);
    }
  }

  /** Its steps finish a push: accepted, or dropped if the ring was full. */
  lemma PushFinishes(actions: seq<Action>, v: sample)
    requires Run(actions).ring.push.Idle?
    ensures var l := Run(actions);
      var r := Next(Next(Next(l, PushLoads(v)), PushStores), PushEnds);
      && r.ring.push.Idle?
      && if |l.accepted| - |l.popped| == CAPACITY then r.accepted == l.accepted && r.ring.drops == l.ring.drops + 1
         else r.accepted == l.accepted + [v] && r.ring.drops == l.ring.drops
  {
    FullAndEmpty(actions, v, 0);
  }

  // ---- The ring in place ----

  class LiveRing {
    const buf: array<sample>
    var head: counter
    var tail: counter
    var drops: nat
    ghost var push: Push
    ghost var pop: Pop

    ghost predicate Valid()
      reads this, buf
    {
      buf.Length == CAPACITY && ValidRing(State())
    }

    ghost function State(): Ring
      reads this, buf
    {
      Ring(buf[..], head, tail, push, pop, drops)
    }

    constructor ()
      ensures Valid() && fresh(buf) && State() == EMPTY
    {
      buf := new sample[CAPACITY](_ => 0);
      head, tail, drops, push, pop := 0, 0, 0, Idle, Resting;
      new;
      assert buf[..] == EMPTY.buf;
    }

    method LoadForPush(v: sample) returns (h: counter, t: counter)
      requires Valid() && push == Idle
      modifies this`push
      ensures Valid() && State() == Step(old(State()), PushLoads(v)) && push == Loaded(v, h, t)
    {
      h, t := head, tail;
      push := Loaded(v, h, t);
    }

    method StoreSample(v: sample, h: counter, t: counter) returns (stored: bool)
      requires Valid() && push == Loaded(v, h, t)
      modifies this`push, this`drops, buf
      ensures Valid() && State() == Step(old(State()), PushStores)
      ensures stored <==> push == Stored(v, h)
      ensures !stored ==> push == Idle
    {
      if (h - t) % WRAP >= CAPACITY {
        drops := drops + 1;
        push := Idle;
        return false;
      }
      buf[h % CAPACITY] := v;
      push := Stored(v, h);
      stored := true;
    }

    method EndPush(h: counter)
      requires Valid() && push.Stored? && push.head == h
      modifies this`push, this`head
      ensures Valid() && State() == Step(old(State()), PushEnds)
    {
      head := (h + 1) % WRAP;
      push := Idle;
    }

    /** A whole push. */
    method RbPush(v: sample)
      requires Valid() && push == Idle
      modifies this`push, this`drops, this`head, buf
      ensures Valid() && State() == Step(Step(Step(old(State()), PushLoads(v)), PushStores), PushEnds)
    {
      var h, t := LoadForPush(v);
      var stored := StoreSample(v, h, t);
      if stored {
        EndPush(h);
      }
    }

    method LoadForPop(n: nat) returns (t: counter, take: nat)
      requires Valid() && pop == Resting
      modifies this`pop
      ensures Valid() && State() == Step(old(State()), PopLoads(n)) && pop == Copying(t, take, [])
    {
      var h := head;
      t := tail;
      var have := (h - t) % WRAP;
      take := if have < n then have else n;
      pop := Copying(t, take, []);
    }

    method CopySample(t: counter, i: nat) returns (v: sample)
      requires Valid() && pop.Copying? && pop.tail == t && |pop.got| == i < pop.take
      modifies this`pop
      ensures Valid() && State() == Step(old(State()), PopCopies)
      ensures pop == old(pop).(got := old(pop).got + [v])
    {
      v := buf[(t + i) % WRAP % CAPACITY];
      pop := pop.(got := pop.got + [v]);
    }

    method EndPop(t: counter, take: nat)
      requires Valid() && pop.Copying? && pop.tail == t && |pop.got| == pop.take == take
      modifies this`pop, this`tail
      ensures Valid() && State() == Step(old(State()), PopEnds)
    {
      tail := (t + take) % WRAP;
      pop := Resting;
    }

    /** A whole pop: up to n samples, the oldest first. */
    method RbPopInto(n: nat) returns (got: seq<sample>)
      requires Valid() && pop == Resting
      modifies this`pop, this`tail
      ensures Valid() && State() == old(State()).(tail := Plus(old(tail), |got|))
      ensures |got| == Min(Minus(old(head), old(tail)), n)
      ensures forall i :: 0 <= i < |got| ==> got[i] == old(buf[Slot(Plus(tail, i))])
    {
      var t, take := LoadForPop(n);
      got := [];
      while |got| < take
        invariant Valid() && |got| <= take && pop == Copying(t, take, got)
        invariant State() == old(State()).(pop := pop)
        invariant forall i :: 0 <= i < |got| ==> got[i] == old(buf[Slot(Plus(tail, i))])
      {
        var v := CopySample(t, |got|);
        got := got + [v];
      }
      EndPop(t, take);
    }

    /** What the audio device plays: the samples, then silence. */
    method Callback(frames: nat) returns (out: seq<sample>)
      requires Valid() && pop == Resting
      modifies this`pop, this`tail
      ensures Valid() && |out| == frames
      ensures var got := Min(Minus(old(head), old(tail)), frames);
        && State() == old(State()).(tail := Plus(old(tail), got))
        && (forall i :: 0 <= i < got ==> out[i] == old(buf[Slot(Plus(tail, i))]))
        && (forall i :: got <= i < frames ==> out[i] == 0)
    {
      out := RbPopInto(frames);
      out := out + Silence(frames - |out|);
    }
  }
}
