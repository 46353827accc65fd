/** What a program finds on the bus: its strobes as transfers, the replies in order, the status, the raw display, and the
    network's bytes. */
module BusReplies {
  import opened Words
  import opened FpgaBus

  // ---- Strobes ----

  const E_PIN := 0x04
  const RS_PIN := 0x20
  const RW_PIN := 0x40

  /** A tick with E high for a transfer, and one with it low again. */
  function High(read: bool, rs: bool, b: byte): Event {
    Tick(E_PIN + (if rs then RS_PIN else 0) + (if read then RW_PIN else 0), E_PIN, b)
  }

  function Idle(b: byte): Event {
    Tick(0, E_PIN, b)
  }

  lemma PinsOf(read: bool, rs: bool, b: byte)
    ensures var e := High(read, rs, b); e.Tick? && Strobed(e) && RS(e.portA) == rs && RW(e.portA) == read && e.portB == b
    ensures Idle(b).Tick? && !Strobed(Idle(b))
  {
  }

  /** A strobe with RW low writes the byte, as data if RS is high; one with RW high writes nothing. */
  lemma StrobesWrite(events: seq<Event>, read: bool, rs: bool, b: byte)
    requires !LastStrobe(events)
    ensures var after := events + [High(read, rs, b)] + [Idle(b)];
      !LastStrobe(after) && Writes(after) == if read then Writes(events) else Writes(events) + [Write(rs, b)]
  {
    hide E, RS, RW, Strobed, High, Idle;
    PinsOf(read, rs, b);
    var one := events + [High(read, rs, b)];
    assert one[..|events|] == events && (one + [Idle(b)])[..|one|] == one;
  }

  /** The strobes, each when E rises. */
  function Strobes(events: seq<Event>): nat {
    if events == [] then 0
    else
      var before, e := events[..|events| - 1], events[|events| - 1];
      Strobes(before) + if e.Tick? && Strobed(e) && !LastStrobe(before) then 1 else 0
  }

  lemma StepCounts(w: World, s: Bus, e: Event)
    requires Inv(w, s)
    ensures var r, edge := Step(w, s, e).strobe, e.Tick? && Strobed(e) && !s.strobe.eWas;
      && r.transfers == (if edge then (s.strobe.transfers + 1) % 0x1_0000_0000 else s.strobe.transfers)
      && r.eWas == if e.Tick? then Strobed(e) else s.strobe.eWas
  {
    hide WriteData, WriteCommand, Strobed;
    if e.Tick? && !s.absent {
      WritesKeepStrobe(w, Counted(s), e.portB);
    }
  }

  lemma WritesKeepStrobe(w: World, s: Bus, b: byte)
    requires Inv(w, s)
    ensures WriteData(w, s, b).strobe == s.strobe && WriteCommand(w, s, b).strobe == s.strobe
  {
    hide T.Op, R.Synced, P.ValidPanel, NetData;
    NetDataApart(w, s, b);
  }

  /** The transfers are counted, in 32 bits. */
  lemma {:induction false} TransfersCounted(w: World, absent: bool, events: seq<Event>)
    ensures var s := Reached(w, absent, events).strobe;
      s.transfers == Strobes(events) % 0x1_0000_0000 && s.eWas == LastStrobe(events)
  {
    hide Step, Inv;
    if events == [] {
      assert Reached(w, absent, events) == Init(absent);
    } else {
      var n := |events| - 1;
      TransfersCounted(w, absent, events[..n]);
      StepCounts(w, Reached(w, absent, events[..n]), events[n]);
    }
  }

  /** E is low with the pin an input, whatever its level. */
  lemma InputIsLow(port: byte, b: byte)
    ensures !Strobed(Tick(port, 0, b))
  {
  }

  // ---- Reads ----

  /** A read, E high and low again: the byte read, and the bus after. */
  ghost function ReadOf(w: World, s: Bus, rs: bool, b: byte): (r: (byte, Bus))
    requires Inv(w, s)
    ensures Inv(w, r.1)
  {
    StepKeepsInv(w, s, High(true, rs, b));
    var t := Step(w, s, High(true, rs, b));
    StepKeepsInv(w, t, Idle(b));
    (t.strobe.readValue, Step(w, t, Idle(b)))
  }

  /** The bus is there, E is low, and no read is under way. */
  predicate Ready(s: Bus) {
    !s.absent && !s.strobe.eWas && !s.strobe.reading
  }

  /** A write, E high and low again: the byte is taken, and no reply leaves the queue for it. */
  lemma WriteTaken(w: World, s: Bus, rs: bool, b: byte)
    requires Inv(w, s) && Ready(s)
    ensures var high := Step(w, s, High(false, rs, b));
      && Inv(w, high)
      && var r := Step(w, high, Idle(b));
      var taken := if rs then WriteData(w, Counted(s), b) else WriteCommand(w, Counted(s), b);
      Ready(r) && r == taken.(strobe := s.strobe.(transfers := r.strobe.transfers))
  {
    hide WriteData, WriteCommand, High, Idle, Strobed, E, RS, RW, Inv;
    PinsOf(false, rs, b);
    StepKeepsInv(w, s, High(false, rs, b));
    CountedKeepsInv(w, s);
    WritesKeepStrobe(w, Counted(s), b);
    WritesKeepAbsent(w, Counted(s), b);
  }

  lemma CountedKeepsInv(w: World, s: Bus)
    requires Inv(w, s)
    ensures Inv(w, Counted(s))
  {
  }

  lemma WritesKeepAbsent(w: World, s: Bus, b: byte)
    requires Inv(w, s)
    ensures WriteData(w, s, b).absent == s.absent && WriteCommand(w, s, b).absent == s.absent
  {
    hide T.Op, R.Synced, P.ValidPanel, NetData;
    NetDataApart(w, s, b);
  }

  /** A reply read is the first in the queue, which it leaves; with none it is 0, and the status has underflow. */
  lemma ReadsReply(w: World, s: Bus, b: byte)
    requires Inv(w, s) && Ready(s)
    ensures var r := ReadOf(w, s, true, b);
      && Ready(r.1) && r.1.text == s.text && r.1.panel == s.panel && r.1.control == s.control
      && if s.reply == [] then r.0 == 0 && r.1.reply == [] && r.1.sticky == s.sticky.(underflow := true)
         else r.0 == s.reply[0] && r.1.reply == s.reply[1..] && r.1.sticky == s.sticky
  {
  }

  ghost function ReadMany(w: World, s: Bus, n: nat, b: byte): (r: (seq<byte>, Bus))
    requires Inv(w, s)
    ensures Inv(w, r.1)
    decreases n
  {
    if n == 0 then ([], s)
    else
      var first := ReadOf(w, s, true, b);
      var more := ReadMany(w, first.1, n - 1, b);
      ([first.0] + more.0, more.1)
  }

  /** Replies are read in the order they were queued. */
  lemma {:induction false} RepliesInOrder(w: World, s: Bus, n: nat, b: byte)
    requires Inv(w, s) && Ready(s) && n <= |s.reply|
    ensures var r := ReadMany(w, s, n, b); r.0 == s.reply[..n] && r.1.reply == s.reply[n..] && r.1.sticky == s.sticky
    decreases n
  {
    hide ReadOf, Inv;
    if n > 0 {
      ReadsReply(w, s, b);
      RepliesInOrder(w, ReadOf(w, s, true, b).1, n - 1, b);
    }
  }

  predicate HasBit(v: byte, bit: nat)
    requires bit > 0
  {
    v / bit % 2 == 1
  }

  /** The status read has a bit for everything that happened since the last one, which it clears. */
  lemma ReadsStatus(w: World, s: Bus, b: byte)
    requires Inv(w, s) && Ready(s)
    ensures var r := ReadOf(w, s, false, b);
      && Ready(r.1) && r.1.reply == s.reply && r.1.text == s.text && r.1.panel == s.panel && r.1.control == s.control
      && BitsTell(s.sticky, r.0) && ReadOf(w, r.1, false, b).0 == 0
  {
    hide BitsTell, Sticky.Byte, R.Synced, P.ValidPanel;
    StatusBits(s.sticky);
    CleanStatus();
  }

  lemma CleanStatus()
    ensures CLEAN.Byte() == 0
  {
  }

  predicate BitsTell(k: Sticky, v: byte) {
    && (HasBit(v, 0x01) <==> k.abandoned) && (HasBit(v, 0x02) <==> k.unknown) && (HasBit(v, 0x04) <==> k.extra)
    && (HasBit(v, 0x08) <==> k.underflow) && (HasBit(v, 0x10) <==> k.overflow) && (HasBit(v, 0x20) <==> k.netError)
    && v < 0x40
  }

  lemma StatusBits(k: Sticky)
    ensures BitsTell(k, k.Byte())
  {
  }

  // ---- What replies there are ----

  /** The queue takes what it has room for, and what it drops shows in the status. */
  lemma {:induction false} Queued(s: Bus, bytes: seq<byte>)
    requires |s.reply| <= DEPTH
    ensures var r := PushAll(s, bytes);
      && r == s.(reply := r.reply, sticky := r.sticky)
      && r.reply == s.reply + bytes[..Min(|bytes|, DEPTH - |s.reply|)]
      && r.sticky == s.sticky.(overflow := s.sticky.overflow || |s.reply| + |bytes| > DEPTH)
  {
    if bytes != [] {
      var n := |bytes| - 1;
      Queued(s, bytes[..n]);
    }
  }

  ghost function PushAll(s: Bus, bytes: seq<byte>): Bus {
    if bytes == [] then s else PushReply(PushAll(s, bytes[..|bytes| - 1]), bytes[|bytes| - 1])
  }

  /** ID replies M, B, the version and the capabilities. */
  lemma Identifies(w: World, s: Bus)
    requires Inv(w, s)
    ensures WriteCommand(w, s, 0x01).reply == PushAll(s, ['M' as int, 'B' as int, 2, 0x0B]).reply
  {
    hide T.Op, Inv, PushAll;
    var t := s.(sticky := if s.control.argsLeft > 0 then s.sticky.(abandoned := true) else s.sticky, net := s.net.(open := false));
    PushedFour(t, 'M' as int, 'B' as int, 2, 0x0B);
    SameReplies(s, t, ['M' as int, 'B' as int, 2, 0x0B]);
  }

  lemma CommandTaken(w: World, s: Bus, c: byte)
    requires Inv(w, s) && (c == 0x80 || c == 0x81 || c == 0x04)
    ensures var r := WriteCommand(w, s, c);
      && r.control.cmd == c && r.control.argsLeft == (if c == 0x04 then 0 else 1)
      && r.reply == s.reply && r.textMode == s.textMode
  {
    hide T.Op, R.Synced, P.ValidPanel;
  }

  /** GEOMETRY, the long form $80 $10, replies the rows and the columns. */
  lemma Measures(w: World, s: Bus)
    requires Inv(w, s)
    ensures WriteData(w, WriteCommand(w, s, 0x80), 0x10).reply == PushAll(s, [20, 20]).reply
  {
    hide T.Op, Inv, PushAll, WriteCommand;
    CommandTaken(w, s, 0x80);
    var t := WriteCommand(w, s, 0x80);
    PushedTwo(t, 20, 20);
    SameReplies(s, t, [20, 20]);
  }

  /** ECHO replies its data. */
  lemma Echoes(w: World, s: Bus, d: byte)
    requires Inv(w, s)
    ensures WriteData(w, WriteCommand(w, s, 0x04), d).reply == PushAll(s, [d]).reply
  {
    hide T.Op, Inv, PushAll, WriteCommand;
    CommandTaken(w, s, 0x04);
    PushedOne(WriteCommand(w, s, 0x04), d);
    SameReplies(s, WriteCommand(w, s, 0x04), [d]);
  }

  /** NET_STATUS, the long form $81 $03, replies a 0. */
  lemma NetStatusReplies(w: World, s: Bus)
    requires Inv(w, s)
    ensures WriteData(w, WriteCommand(w, s, 0x81), 0x03).reply == PushAll(s, [0]).reply
  {
    hide T.Op, Inv, PushAll, WriteCommand;
    CommandTaken(w, s, 0x81);
    var t := WriteCommand(w, s, 0x81);
    PushedOne(t, 0);
    SameReplies(s, t, [0]);
  }

  /** RESET empties the queue and clears the status. */
  lemma Resets(w: World, s: Bus)
    requires Inv(w, s)
    ensures var r := WriteCommand(w, s, 0x03); r.reply == [] && r.sticky == CLEAN
  {
    hide T.Op, R.Synced, P.ValidPanel;
  }

  lemma {:induction false} SameReplies(s: Bus, t: Bus, bytes: seq<byte>)
    requires t.reply == s.reply
    ensures PushAll(t, bytes).reply == PushAll(s, bytes).reply
  {
    if bytes != [] {
      SameReplies(s, t, bytes[..|bytes| - 1]);
    }
  }

  lemma PushedOne(s: Bus, a: byte)
    ensures PushAll(s, [a]) == PushReply(s, a)
  {
    assert [a][..0] == [];
  }

  lemma PushedTwo(s: Bus, a: byte, b: byte)
    ensures PushAll(s, [a, b]) == PushReply(PushReply(s, a), b)
  {
    assert [a, b][..1] == [a];
    PushedOne(s, a);
  }

  lemma PushedFour(s: Bus, a: byte, b: byte, c: byte, d: byte)
    ensures PushAll(s, [a, b, c, d]) == PushReply(PushReply(PushReply(PushReply(s, a), b), c), d)
  {
    assert [a, b, c, d][..3] == [a, b, c] && [a, b, c][..2] == [a, b];
    PushedTwo(s, a, b);
  }

  // ---- The status ----

  /** The one-byte commands there are. */
  predicate IsCommand(textMode: bool, c: byte) {
    || c == 0x00 || c == 0x01 || c == 0x03 || c == 0x04 || c == 0x10 || c == 0x13 || c == 0x50 || c == 0x80 || c == 0x81
    || (!textMode && (c == 0x11 || c == 0x12))
  }

  /** A command before the last one's arguments have all come abandons it, and an unknown one shows as such. */
  lemma CommandStatus(w: World, s: Bus, c: byte)
    requires Inv(w, s) && c != 0x01 && c != 0x03
    ensures WriteCommand(w, s, c).sticky == s.sticky.(
      abandoned := s.sticky.abandoned || s.control.argsLeft > 0, unknown := s.sticky.unknown || !IsCommand(s.textMode, c))
  {
    hide T.Op, R.Synced, P.ValidPanel;
  }

  // ---- The raw display ----

  /** The operations of text mode, GEOMETRY, and those of the network there are, after $80 and $81. */
  predicate IsOperation(c: byte, d: byte) {
    if c == 0x80 then d <= 0x10 else d <= 0x03
  }

  /** An operation there is not shows in the status too. */
  lemma OperationStatus(w: World, s: Bus, c: byte, d: byte)
    requires Inv(w, s) && (c == 0x80 || c == 0x81)
    requires |s.reply| + 2 <= DEPTH
    ensures var before := WriteCommand(w, s, c);
      WriteData(w, before, d).sticky == before.sticky.(unknown := before.sticky.unknown || !IsOperation(c, d))
  {
    hide T.Op, Inv, Start;
    CommandTaken(w, s, c);
    var before := WriteCommand(w, s, c);
    OperationStarts(w, before, if c == 0x80 then 0x100 + d else 0x200 + d);
  }

  lemma OperationStarts(w: World, s: Bus, c: nat)
    requires Inv(w, s) && |s.reply| + 2 <= DEPTH && 0x100 <= c < 0x300
    ensures Start(w, s, c).sticky == s.sticky.(
      unknown := s.sticky.unknown || !(0x100 <= c <= 0x110 || 0x200 <= c <= 0x203))
  {
    hide T.Op, R.Synced, P.ValidPanel;
  }

  /** Data for a command that has all its arguments, and no more to take, shows as extra; a stream's does not, and neither
      does an unknown command's. */
  lemma DataStatus(w: World, s: Bus, d: byte)
    requires Inv(w, s) && s.control.argsLeft == 0 && s.control.cmd < 0x100 && |s.reply| < DEPTH
    ensures var c := s.control.cmd; WriteData(w, s, d).sticky == s.sticky.(
      extra := s.sticky.extra || (IsCommand(s.textMode, c) && c != 0x04 && c != 0x50 && c != 0x11 && c != 0x12))
  {
    hide T.Op, R.Synced, P.ValidPanel;
  }

  /** So it is after an operation of text mode but PUT, and after one of the network but NET_WRITE. */
  lemma OperationDataStatus(w: World, s: Bus, d: byte)
    requires Inv(w, s) && s.control.argsLeft == 0 && (0x100 <= s.control.cmd <= 0x110 || 0x200 <= s.control.cmd <= 0x203)
    ensures var c := s.control.cmd;
      WriteData(w, s, d).sticky == s.sticky.(extra := s.sticky.extra || (c != 0x103 && c != 0x202))
  {
    hide T.Op, R.Synced, P.ValidPanel;
  }

  /** Out of text mode $11 gives the display a command, $12 data, $13 the backlight and $10 its reset line; in text mode $11
      and $12 do nothing. */
  lemma RawDisplay(w: World, s: Bus, a: byte)
    requires Inv(w, s)
    ensures !s.textMode ==> WriteData(w, WriteCommand(w, s, 0x11), a).panel == P.Command(s.panel, a)
    ensures !s.textMode ==> WriteData(w, WriteCommand(w, s, 0x12), a).panel == P.Data(s.panel, a)
    ensures !s.textMode ==> WriteData(w, WriteCommand(w, s, 0x10), a).panel == P.ResetLine(s.panel, a % 2 == 1)
    ensures WriteData(w, WriteCommand(w, s, 0x13), a).panel == s.panel.(backlight := a)
    ensures s.textMode ==> WriteData(w, WriteCommand(w, s, 0x11), a).panel == s.panel
    ensures s.textMode ==> WriteData(w, WriteCommand(w, s, 0x12), a).panel == s.panel
  {
    hide T.Op, R.Synced, P.ValidPanel, P.Command, P.Data, P.ResetLine;
  }

  // ---- The network ----

  /** A frame's first three answers are 1, 2 and 3, or the status has a network error. */
  ghost predicate HeaderRight(w: World, k: nat) {
    w.answers(k) == 1 && w.answers(k + 1) == 2 && w.answers(k + 2) == 3
  }

  /** n bytes the device answers, from the one numbered k. */
  ghost function AnswersFrom(w: World, k: nat, n: nat): (a: seq<byte>)
    ensures |a| == n && forall i :: 0 <= i < n ==> a[i] == w.answers(k + i)
  {
    if n == 0 then [] else AnswersFrom(w, k, n - 1) + [w.answers(k + n - 1)]
  }

  lemma {:induction false} NetReadPushes(w: World, s: Bus, n: nat)
    ensures NetRead(w, s, n) == PushAll(s.(net := s.net.(answered := s.net.answered + n)), AnswersFrom(w, s.net.answered, n))
    decreases n
  {
    hide PushAll, PushReply;
    if n == 0 {
      PushedNone(s);
    } else {
      NetReadPushes(w, s, n - 1);
      var t, u := s.(net := s.net.(answered := s.net.answered + n - 1)), s.(net := s.net.(answered := s.net.answered + n));
      var before := AnswersFrom(w, s.net.answered, n - 1);
      assert AnswersFrom(w, s.net.answered, n)[..n - 1] == before;
      PushMore(u, before, w.answers(s.net.answered + n - 1));
      PushedApart(t, u, before);
      PushedApart(t, t, before);
    }
  }

  lemma {:induction false} PushedApart(t: Bus, u: Bus, bytes: seq<byte>)
    requires u == t.(net := u.net)
    ensures PushAll(u, bytes) == PushAll(t, bytes).(net := u.net)
  {
    if bytes != [] {
      PushedApart(t, u, bytes[..|bytes| - 1]);
    }
  }

  lemma PushedNone(s: Bus)
    ensures PushAll(s, []) == s
  {
  }

  lemma PushMore(s: Bus, bytes: seq<byte>, b: byte)
    ensures PushAll(s, bytes + [b]) == PushReply(PushAll(s, bytes), b)
  {
    assert (bytes + [b])[..|bytes|] == bytes;
  }

  /** NET_READ under way: header bytes to come, and then the count. */
  ghost predicate Reading(s: Bus, left: nat) {
    s.control.cmd == 0x201 && s.control.argsLeft == left
  }

  lemma NetOpens(w: World, s: Bus)
    requires Inv(w, s)
    ensures var t := WriteData(w, WriteCommand(w, s, 0x81), 0x01);
      && Inv(w, t) && Reading(t, 4) && t.reply == s.reply && t.sticky.netError == s.sticky.netError
      && t.sticky.overflow == s.sticky.overflow && !t.net.open && t.net.answered == s.net.answered
  {
    hide T.Op, R.Synced, P.ValidPanel;
  }

  /** How many header bytes the frame has had, if it is open. */
  function HeaderCount(s: Bus): byte {
    if s.net.open then s.net.header else 0
  }

  lemma HeaderSent(w: World, s: Bus, left: nat, d: byte)
    requires Inv(w, s) && Reading(s, left) && 2 <= left <= 4 && HeaderCount(s) < 0xFF
    ensures var t := WriteData(w, s, d);
      && Inv(w, t) && Reading(t, left - 1) && t.reply == s.reply && t.sticky.overflow == s.sticky.overflow
      && HeaderCount(t) == HeaderCount(s) + 1 && t.net.open && t.net.answered == s.net.answered + 1
      && t.sticky.netError == (s.sticky.netError || w.answers(s.net.answered) != HeaderCount(s) + 1)
  {
    hide T.Op, R.Synced, P.ValidPanel;
    WriteDataKeepsInv(w, s, d);
  }

  lemma CountSent(w: World, s: Bus, count: byte)
    requires Inv(w, s) && Reading(s, 1)
    ensures var r, n := WriteData(w, s, count), if count == 0 then 256 else count as int;
      && r.reply == PushAll(s, AnswersFrom(w, s.net.answered, n)).reply && r.sticky.netError == s.sticky.netError
      && !r.net.open && r.net.answered == s.net.answered + n
  {
    hide T.Op, Inv, PushAll, NetRead;
    var n, u := if count == 0 then 256 else count as int, s.(control := s.control.(argsLeft := 0));
    var v, a := u.(net := u.net.(answered := u.net.answered + n)), AnswersFrom(w, s.net.answered, n);
    NetReadPushes(w, u, n);
    assert |s.reply| <= DEPTH by {
      ShortQueue(w, s);
    }
    Queued(v, a);
    SameReplies(s, v, a);
  }

  /** The queue holds 512 replies. */
  lemma ShortQueue(w: World, s: Bus)
    requires Inv(w, s)
    ensures |s.reply| <= DEPTH == 512
  {
  }

  /** NET_READ: the address and control bytes open a frame, whose answers are checked, and the count's bytes that the device
      answers next are replies; 0 stands for 256. Then the frame ends. */
  lemma NetReads(w: World, s: Bus, high: byte, low: byte, control: byte, count: byte)
    requires Inv(w, s)
    ensures var t0 := WriteData(w, WriteCommand(w, s, 0x81), 0x01);
      && Inv(w, t0) && var t1 := WriteData(w, t0, high);
      && Inv(w, t1) && var t2 := WriteData(w, t1, low);
      && Inv(w, t2) && var t3 := WriteData(w, t2, control);
      && Inv(w, t3) && var r := WriteData(w, t3, count);
      var n, k := if count == 0 then 256 else count as int, s.net.answered;
      && r.reply == PushAll(s, AnswersFrom(w, k + 3, n)).reply
      && r.sticky.netError == (s.sticky.netError || !HeaderRight(w, k))
      && !r.net.open && r.net.answered == k + 3 + n
  {
    hide WriteData, WriteCommand, Inv, PushAll;
    var t0 := WriteData(w, WriteCommand(w, s, 0x81), 0x01);
    NetOpens(w, s);
    var t1 := WriteData(w, t0, high);
    HeaderSent(w, t0, 4, high);
    var t2 := WriteData(w, t1, low);
    HeaderSent(w, t1, 3, low);
    var t3 := WriteData(w, t2, control);
    HeaderSent(w, t2, 2, control);
    CountSent(w, t3, count);
    SameReplies(s, t3, AnswersFrom(w, s.net.answered + 3, if count == 0 then 256 else count as int));
  }

  /** NET_WRITE under way: header bytes to come, and then data. */
  ghost predicate Writing(s: Bus, left: nat) {
    s.control.cmd == 0x202 && s.control.argsLeft == left
  }

  lemma WriteOpens(w: World, s: Bus)
    requires Inv(w, s)
    ensures var t := WriteData(w, WriteCommand(w, s, 0x81), 0x02);
      && Inv(w, t) && Writing(t, 3) && t.reply == s.reply && t.sticky.netError == s.sticky.netError
      && !t.net.open && t.net.answered == s.net.answered
  {
    hide T.Op, R.Synced, P.ValidPanel;
  }

  lemma WriteHeaderSent(w: World, s: Bus, left: nat, d: byte)
    requires Inv(w, s) && Writing(s, left) && 1 <= left <= 3 && HeaderCount(s) < 0xFF
    ensures var t := WriteData(w, s, d);
      && Inv(w, t) && Writing(t, left - 1) && t.reply == s.reply
      && HeaderCount(t) == HeaderCount(s) + 1 && t.net.open && t.net.answered == s.net.answered + 1
      && t.sticky.netError == (s.sticky.netError || w.answers(s.net.answered) != HeaderCount(s) + 1)
  {
    hide T.Op, R.Synced, P.ValidPanel;
    WriteDataKeepsInv(w, s, d);
  }

  /** Data of a frame goes to the device, whose answers are passed over, until a command ends it. */
  lemma WriteSent(w: World, s: Bus, d: byte, c: byte)
    requires Inv(w, s) && Writing(s, 0)
    ensures WriteData(w, s, d) == s.(net := s.net.(answered := s.net.answered + 1))
    ensures !WriteCommand(w, s, c).net.open && WriteCommand(w, s, c).net.answered == s.net.answered
  {
    hide T.Op, R.Synced, P.ValidPanel;
  }

  /** NET_WRITE: the address and control bytes open a frame, whose answers are checked, which stays open for data. */
  lemma NetWrites(w: World, s: Bus, high: byte, low: byte, control: byte)
    requires Inv(w, s)
    ensures var t0 := WriteData(w, WriteCommand(w, s, 0x81), 0x02);
      && Inv(w, t0) && var t1 := WriteData(w, t0, high);
      && Inv(w, t1) && var t2 := WriteData(w, t1, low);
      && Inv(w, t2) && var r := WriteData(w, t2, control);
      && Inv(w, r) && Writing(r, 0) && r.net.open && r.net.answered == s.net.answered + 3 && r.reply == s.reply
      && r.sticky.netError == (s.sticky.netError || !HeaderRight(w, s.net.answered))
  {
    hide WriteData, WriteCommand, Inv;
    var t0 := WriteData(w, WriteCommand(w, s, 0x81), 0x02);
    WriteOpens(w, s);
    var t1 := WriteData(w, t0, high);
    WriteHeaderSent(w, t0, 3, high);
    var t2 := WriteData(w, t1, low);
    WriteHeaderSent(w, t1, 2, low);
    WriteHeaderSent(w, t2, 1, control);
  }

  /** The bus starts with no reply, a clear status, no command's arguments to come, no frame and no transfer. */
  lemma StartsIdle(absent: bool)
    ensures var s := Init(absent);
      && Ready(s) == !absent && s.reply == [] && s.sticky.Byte() == 0 && s.control.argsLeft == 0 && s.control.cmd == 0x00
      && !s.net.open && !s.textMode && !s.strobe.reading && s.strobe.transfers == 0
  {
  }
}
