/** The Michael FPGA bus: strobed transfers become commands, which drive the reply queue, the raw display, text
    mode's grid and its renderer. */
module FpgaBus {
  import opened Words
  import T = FpgaText
  import P = Ili9341
  import R = FpgaTextRender
  import C = TextCells

  const DEPTH := 512

  // Port A's lines
  predicate E(port: byte) { port / 0x04 % 2 == 1 }
  predicate RS(port: byte) { port / 0x20 % 2 == 1 }
  predicate RW(port: byte) { port / 0x40 % 2 == 1 }

  // Commands are 9 bits and more: a long form's operation is the device's base and the operation
  const NOP := 0x00
  const ID := 0x01
  const RESET := 0x03
  const ECHO := 0x04
  const DISP_RESET := 0x10
  const DISP_COMMAND := 0x11
  const DISP_DATA := 0x12
  const BACKLIGHT := 0x13
  const SERIAL_SEND := 0x50
  const TEXT := 0x80
  const NET := 0x81
  const LONG := 0x100
  const TEXT_ON := 0x100
  const TEXT_OFF := 0x101
  const GOTO := 0x102
  const PUT := 0x103
  const CLEAR := 0x104
  const CLEAR_EOL := 0x105
  const REGION := 0x108
  const REGION_RESET := 0x109
  const GEOMETRY := 0x110
  const NET_OP := 0x200
  const NET_RESET := 0x200
  const NET_READ := 0x201
  const NET_WRITE := 0x202
  const NET_STATUS := 0x203
  const VERSION := 2
  const CAPABILITIES := 0x0B

  /** The status byte's bits, which stay until read. */
  datatype Sticky = Sticky(abandoned: bool, unknown: bool, extra: bool, underflow: bool, overflow: bool, netError: bool)
  {
    function Byte(): byte {
      (if abandoned then 0x01 else 0) + (if unknown then 0x02 else 0) + (if extra then 0x04 else 0) +
      (if underflow then 0x08 else 0) + (if overflow then 0x10 else 0) + (if netError then 0x20 else 0)
    }
  }

  const CLEAN := Sticky(false, false, false, false, false, false)

  /** What is around the bus: the FPGA's font, and the bytes the network device answers, one after another. */
  datatype World = World(font: C.Font, answers: nat -> byte)

  /** A network frame: open or not, the header bytes sent in it, and the bytes the device has answered so far. */
  datatype Net = Net(open: bool, header: byte, answered: nat)

  /** The command under way: its operation, the arguments it still waits for, and the first of two. */
  datatype Control = Control(cmd: nat, argsLeft: nat, firstArg: byte)

  /** A transfer's strobe and the read under way while E is high. */
  datatype Strobe = Strobe(eWas: bool, transfers: nat, reading: bool, readRs: bool, readValue: byte)

  datatype Bus = Bus(strobe: Strobe, control: Control, sticky: Sticky, reply: seq<byte>, net: Net, absent: bool,
                     textMode: bool, text: T.Text, panel: P.Panel, render: R.Render, renderUs: nat)

  ghost function Init(absent: bool): Bus {
    Bus(Strobe(false, 0, false, false, 0), Control(NOP, 0, 0), CLEAN, [], Net(false, 0, 0), absent,
        false, T.Init(), P.Init(), R.Init(), 0)
  }

  /** In text mode, the renderer's record of the display is right, and no display reset is under way. */
  ghost predicate Inv(w: World, s: Bus) {
    && T.ValidText(s.text) && P.ValidPanel(s.panel) && R.ValidRender(s.render) && |s.reply| <= DEPTH
    && (s.textMode ==> s.control.cmd != DISP_RESET && R.Synced(w.font, s.render, s.panel))
  }

  // ---- The commands ----

  predicate Display(textMode: bool, c: nat) {
    c == BACKLIGHT || c == DISP_RESET || (!textMode && (c == DISP_COMMAND || c == DISP_DATA))
  }

  predicate IsText(c: nat) {
    TEXT_ON <= c < GEOMETRY
  }

  predicate IsNet(c: nat) {
    NET_RESET <= c <= NET_STATUS
  }

  predicate Known(textMode: bool, c: nat) {
    || c == NOP || c == ID || c == RESET || c == ECHO || c == SERIAL_SEND || c == TEXT || c == GEOMETRY
    || Display(textMode, c) || IsText(c) || c == NET || IsNet(c)
  }

  predicate Streams(c: nat) {
    c == ECHO || c == SERIAL_SEND || c == DISP_COMMAND || c == DISP_DATA || c == PUT || c == NET_WRITE
  }

  function Arguments(textMode: bool, c: nat): nat {
    if Display(textMode, c) then if c != DISP_DATA then 1 else 0
    else if c == TEXT || c == NET then 1
    else if c == NET_READ then 4
    else if c == NET_WRITE then 3
    else if IsNet(c) then 0
    else if !IsText(c) || c == PUT then 0
    else if c == GOTO || c == REGION then 2
    else if c == TEXT_ON || c == TEXT_OFF || c == CLEAR || c == CLEAR_EOL || c == REGION_RESET then 0
    else 1
  }

  ghost function PushReply(s: Bus, b: byte): Bus {
    if |s.reply| == DEPTH then s.(sticky := s.sticky.(overflow := true)) else s.(reply := s.reply + [b])
  }

  ghost function Rendered(w: World, s: Bus, now: nat): (r: Bus)
    requires Inv(w, s)
    ensures Inv(w, r)
  {
    if !s.textMode then s
    else
      R.DrawKeepsSynced(w.font, s.render, s.text, s.panel, now);
      var v := R.Draw(w.font, s.render, s.text, s.panel, now);
      s.(render := v.r, panel := v.p, renderUs := now)
  }

  ghost function TextOp(s: Bus, code: byte, a: byte, b: byte): Bus
    requires T.ValidText(s.text)
  {
    s.(text := T.Op(s.text, code, a, b))
  }

  /** The replies a command makes at once, and RESET's forgetting them. */
  ghost function Answered(s: Bus, c: nat): (r: Bus)
    requires |s.reply| <= DEPTH
    ensures |r.reply| <= DEPTH && r == s.(reply := r.reply, sticky := r.sticky)
  {
    if c == ID then
      PushReply(PushReply(PushReply(PushReply(s, 'M' as int), 'B' as int), VERSION), CAPABILITIES)
    else if c == NET_STATUS then PushReply(s, 0)
    else if c == GEOMETRY then PushReply(PushReply(s, T.ROWS), T.COLS)
    else if c == RESET then s.(reply := [], sticky := CLEAN)
    else s
  }

  lemma InvKept(w: World, s: Bus, r: Bus)
    requires Inv(w, s) && r.text == s.text && r.panel == s.panel && r.render == s.render && r.textMode == s.textMode
    requires r.control.cmd == s.control.cmd && |r.reply| <= DEPTH
    ensures Inv(w, r)
  {
  }

  /** Text mode coming on, with nothing known of the display, or ending, the picture finished first. */
  ghost function Switched(w: World, s: Bus, c: nat): (r: Bus)
    requires Inv(w, s)
    ensures Inv(w, r) && r.text == s.text && (c == DISP_RESET ==> !r.textMode)
  {
    if c == TEXT_ON then
      R.InitSynced(w.font, s.panel);
      s.(textMode := true, render := R.Init(), control := s.control.(cmd := c))
    else if s.textMode && (c == TEXT_OFF || c == DISP_RESET) then Rendered(w, s, s.renderUs).(textMode := false)
    else s
  }

  /** The status and replies of a command, and text mode coming on or ending. */
  ghost function Accepted(w: World, s: Bus, c: nat): (r: Bus)
    requires Inv(w, s)
    ensures Inv(w, r) && r.text == s.text && (c == DISP_RESET ==> !r.textMode)
  {
    var sticky := if Known(s.textMode, c) then s.sticky else s.sticky.(unknown := true);
    Switched(w, Answered(s.(sticky := sticky), c), c)
  }

  /** A command, or a long form's operation. */
  ghost function Start(w: World, s: Bus, c: nat): (r: Bus)
    requires Inv(w, s)
    ensures Inv(w, r)
  {
    var args := Arguments(s.textMode, c);
    var s1 := Accepted(w, s, c);
    var text := if IsText(c) && args == 0 && c != PUT then T.Op(s1.text, c - LONG, 0, 0) else s1.text;
    s1.(control := s.control.(cmd := c, argsLeft := args), text := text)
  }

  // ---- The network's frames ----

  ghost function NetHeader(w: World, s: Bus): Bus {
    var net := if s.net.open then s.net else s.net.(open := true, header := 0);
    var header := (net.header + 1) % 0x100;
    s.(net := Net(true, header, net.answered + 1),
       sticky := if w.answers(net.answered) != header then s.sticky.(netError := true) else s.sticky)
  }

  /** n bytes the device answers, into the reply queue. */
  ghost function NetRead(w: World, s: Bus, n: nat): Bus {
    if n == 0 then s else NetByte(w, NetRead(w, s, n - 1))
  }

  ghost function NetByte(w: World, s: Bus): Bus {
    PushReply(s.(net := s.net.(answered := s.net.answered + 1)), w.answers(s.net.answered))
  }

  /** A header byte of a frame, or at the end of NET_READ's, the count: the bytes come, and the frame ends. */
  ghost function NetArgument(w: World, s: Bus, d: byte): Bus {
    if s.control.cmd == NET_READ && s.control.argsLeft == 0 then
      var r := NetRead(w, s, if d > 0 then d else 0x100);
      r.(net := r.net.(open := false))
    else NetHeader(w, s)
  }

  ghost function NetData(w: World, s: Bus, d: byte): Bus {
    if s.control.argsLeft > 0 then NetArgument(w, s.(control := s.control.(argsLeft := s.control.argsLeft - 1)), d)
    else if s.control.cmd == NET_WRITE then s.(net := s.net.(answered := s.net.answered + 1))
    else s.(sticky := s.sticky.(extra := true))
  }

  lemma {:induction false} NetReadReplies(w: World, s: Bus, n: nat)
    requires |s.reply| <= DEPTH
    ensures var r := NetRead(w, s, n);
      |r.reply| <= DEPTH && r == s.(reply := r.reply, sticky := r.sticky, net := r.net)
  {
    if n > 0 {
      NetReadReplies(w, s, n - 1);
    }
  }

  /** The network touches the reply queue, the status and its own frames, and nothing of the display. */
  lemma NetDataApart(w: World, s: Bus, d: byte)
    requires |s.reply| <= DEPTH
    ensures var r := NetData(w, s, d);
      && |r.reply| <= DEPTH && r.control == s.control.(argsLeft := r.control.argsLeft)
      && r == s.(reply := r.reply, sticky := r.sticky, net := r.net, control := r.control)
  {
    if s.control.argsLeft > 0 {
      NetReadReplies(w, s.(control := s.control.(argsLeft := s.control.argsLeft - 1)), if d > 0 then d else 0x100);
    }
  }

  // ---- Transfers ----

  ghost function WriteCommand(w: World, s: Bus, c: byte): (r: Bus)
    requires Inv(w, s)
    ensures Inv(w, r)
  {
    var sticky := if s.control.argsLeft > 0 then s.sticky.(abandoned := true) else s.sticky;
    Start(w, s.(sticky := sticky, net := s.net.(open := false)), c)
  }

  /** A raw display command's argument, to the display. */
  ghost function DisplayArgument(s: Bus, a: byte): Bus {
    var c := s.control.cmd;
    if c == DISP_RESET then s.(panel := P.ResetLine(s.panel, a % 2 == 1))
    else if c == DISP_COMMAND then s.(panel := P.Command(s.panel, a))
    else if c == BACKLIGHT then s.(panel := s.panel.(backlight := a))
    else s
  }

  /** The last argument of a command, d: it takes effect. */
  ghost function Complete(s: Bus, d: byte): Bus
    requires T.ValidText(s.text)
  {
    var c := s.control.cmd;
    if IsText(c) then TextOp(s, c % 0x100, if Arguments(s.textMode, c) == 2 then s.control.firstArg else d, d)
    else if Display(s.textMode, c) then DisplayArgument(s, d)
    else s
  }

  ghost function Argument(s: Bus, d: byte): Bus
    requires T.ValidText(s.text) && s.control.argsLeft > 0
  {
    var left := s.control.argsLeft;
    var r := s.(control := s.control.(argsLeft := left - 1, firstArg := if left == 2 then d else s.control.firstArg));
    if left == 1 then Complete(r, d) else r
  }

  /** Data after a command has its arguments: more of a stream, or too much. */
  ghost function Stream(s: Bus, d: byte): Bus
    requires T.ValidText(s.text) && P.ValidPanel(s.panel)
  {
    var c := s.control.cmd;
    if c == ECHO then PushReply(s, d)
    else if c == PUT then TextOp(s, T.PUT, d, 0)
    else if Display(s.textMode, c) && Streams(c) then s.(panel := P.Data(s.panel, d))
    else if Known(s.textMode, c) && !Streams(c) then s.(sticky := s.sticky.(extra := true))
    else s
  }

  ghost function WriteData(w: World, s: Bus, d: byte): Bus
    requires Inv(w, s)
  {
    var c := s.control.cmd;
    if c == NET && s.control.argsLeft > 0 then Start(w, s, NET_OP + d)
    else if IsNet(c) then NetData(w, s, d)
    else if c == TEXT && s.control.argsLeft > 0 then Start(w, s, LONG + d)
    else if s.control.argsLeft > 0 then Argument(s, d)
    else Stream(s, d)
  }

  /** A read begins: the reply queue's next byte, or the status, which it clears. */
  ghost function BeginRead(s: Bus, rs: bool): Bus {
    var strobe := s.strobe.(reading := true, readRs := rs);
    if !rs then s.(strobe := strobe.(readValue := s.sticky.Byte()), sticky := CLEAN)
    else if |s.reply| > 0 then s.(strobe := strobe.(readValue := s.reply[0]))
    else s.(strobe := strobe.(readValue := 0), sticky := s.sticky.(underflow := true))
  }

  /** As E falls, a reply that was read leaves the queue. */
  ghost function EndRead(s: Bus): Bus {
    var r := s.(strobe := s.strobe.(reading := false));
    if s.strobe.readRs && |s.reply| > 0 then r.(reply := s.reply[1..]) else r
  }

  /** What happens on the bus: a tick with the VIA's pins (port A, its directions, port B), or a look at the glass,
      for which the renderer draws. */
  datatype Event = Tick(portA: byte, ddrA: byte, portB: byte) | Look(now: nat)

  predicate Strobed(e: Event)
    requires e.Tick?
  {
    E(e.ddrA) && E(e.portA)
  }

  ghost function Counted(s: Bus): Bus {
    s.(strobe := s.strobe.(transfers := (s.strobe.transfers + 1) % 0x1_0000_0000))
  }

  ghost function Transfer(w: World, s: Bus, e: Event): Bus
    requires Inv(w, s) && e.Tick?
  {
    var r := Counted(s);
    if r.absent then r
    else if RW(e.portA) then BeginRead(r, RS(e.portA))
    else if RS(e.portA) then WriteData(w, r, e.portB)
    else WriteCommand(w, r, e.portB)
  }

  ghost function Step(w: World, s: Bus, e: Event): Bus
    requires Inv(w, s)
  {
    match e
    case Look(now) => Rendered(w, s, now)
    case Tick(_, _, _) =>
      var r := if Strobed(e) && !s.strobe.eWas then Transfer(w, s, e)
               else if !Strobed(e) && s.strobe.eWas && s.strobe.reading then EndRead(s)
               else s;
      r.(strobe := r.strobe.(eWas := Strobed(e)))
  }

  // ---- Every run keeps the renderer's record right ----

  lemma ArgumentKeepsInv(w: World, s: Bus, d: byte)
    requires Inv(w, s) && s.control.argsLeft > 0
    ensures Inv(w, Argument(s, d))
  {
    P.KeepsValid(s.panel, d, d % 2 == 1);
  }

  lemma StreamKeepsInv(w: World, s: Bus, d: byte)
    requires Inv(w, s)
    ensures Inv(w, Stream(s, d))
  {
    hide R.Synced, T.Op;
    P.KeepsValid(s.panel, d, true);
  }

  /** In text mode the raw display commands are refused, and a reset of the display ends text mode, so no data
      byte reaches the display behind the renderer's back. */
  lemma WriteDataKeepsInv(w: World, s: Bus, d: byte)
    requires Inv(w, s)
    ensures Inv(w, WriteData(w, s, d))
  {
    if IsNet(s.control.cmd) {
      NetDataApart(w, s, d);
    } else if s.control.argsLeft > 0 {
      ArgumentKeepsInv(w, s, d);
    } else {
      StreamKeepsInv(w, s, d);
    }
  }

  lemma StepKeepsInv(w: World, s: Bus, e: Event)
    requires Inv(w, s)
    ensures Inv(w, Step(w, s, e))
  {
    if e.Tick? && Strobed(e) && !s.strobe.eWas && !s.absent && !RW(e.portA) && RS(e.portA) {
      WriteDataKeepsInv(w, Counted(s), e.portB);
    }
  }

  ghost function Run(w: World, s: Bus, events: seq<Event>): (r: Bus)
    requires Inv(w, s)
    ensures Inv(w, r)
  {
    if events == [] then s
    else
      var before := Run(w, s, events[..|events| - 1]);
      StepKeepsInv(w, before, events[|events| - 1]);
      Step(w, before, events[|events| - 1])
  }

  lemma InitInv(w: World, absent: bool)
    ensures Inv(w, Init(absent))
  {
  }

  /** The bus after any events since power on. */
  ghost function Reached(w: World, absent: bool, events: seq<Event>): (r: Bus)
    ensures Inv(w, r)
  {
    InitInv(w, absent);
    Run(w, Init(absent), events)
  }

  /** Whatever has happened on the bus since power on, a look at the glass in text mode shows exactly the grid. */
  lemma RunShowsGrid(w: World, absent: bool, events: seq<Event>, now: nat, x: nat, y: nat)
    requires x < P.WIDTH && y < P.LINES
    requires var s := Reached(w, absent, events); s.textMode && R.ShowsUpright(s.panel)
    ensures var s := Reached(w, absent, events);
      var r := Step(w, s, Look(now));
      && r.text == s.text
      && P.GlassPixel(r.panel, x, y) == R.GridPixel(w.font, s.text, R.CursorShown(r.render, s.text), x, y)
  {
    var s := Reached(w, absent, events);
    R.GlassShowsGrid(w.font, s.render, s.text, s.panel, now, x, y);
  }

  /** The picture left behind when text mode ends, by TEXT_OFF or by resetting the display, is finished first: the
      glass shows the grid as it was. */
  lemma EndingTextModeFinishesPicture(w: World, s: Bus, c: nat, x: nat, y: nat)
    requires Inv(w, s) && s.textMode && R.ShowsUpright(s.panel) && x < P.WIDTH && y < P.LINES
    requires c == TEXT_OFF || c == DISP_RESET
    ensures var r := Start(w, s, c);
      && !r.textMode && R.ShowsUpright(r.panel)
      && P.GlassPixel(r.panel, x, y) == R.GridPixel(w.font, s.text, R.CursorShown(r.render, s.text), x, y)
  {
    R.GlassShowsGrid(w.font, s.render, s.text, s.panel, s.renderUs, x, y);
    R.DrawKeepsSynced(w.font, s.render, s.text, s.panel, s.renderUs);
  }

  // ---- The grid is what the completed operations made it ----

  /** A byte written: a command, or data for it. */
  datatype Write = Write(rs: bool, b: byte)

  /** Whether E was high at the last tick. */
  function LastStrobe(events: seq<Event>): bool {
    if events == [] then false
    else
      var e := events[|events| - 1];
      if e.Tick? then Strobed(e) else LastStrobe(events[..|events| - 1])
  }

  /** The bytes written: one at each rising edge of E with RW low. */
  function Writes(events: seq<Event>): seq<Write> {
    if events == [] then []
    else
      var before, e := events[..|events| - 1], events[|events| - 1];
      if IsWrite(LastStrobe(before), e) then Writes(before) + [Write(RS(e.portA), e.portB)] else Writes(before)
  }

  predicate IsWrite(eWas: bool, e: Event) {
    e.Tick? && Strobed(e) && !eWas && !RW(e.portA)
  }

  /** A command and the data written after it. */
  datatype Segment = Segment(command: byte, data: seq<byte>)

  /** The writes as commands, each with its data; data before any command is dropped. */
  function Segments(writes: seq<Write>): seq<Segment> {
    if writes == [] then []
    else
      AddWrite(Segments(writes[..|writes| - 1]), writes[|writes| - 1])
  }

  function AddWrite(segs: seq<Segment>, x: Write): seq<Segment> {
    if !x.rs then segs + [Segment(x.b, [])]
    else if segs == [] then []
    else
      var last := segs[|segs| - 1];
      segs[..|segs| - 1] + [last.(data := last.data + [x.b])]
  }

  datatype TextOperation = TextOperation(code: byte, a: byte, b: byte)

  /** The arguments a text operation takes; PUT takes any number, an operation each. */
  function TextArity(code: byte): nat {
    if code == T.GOTO || code == T.REGION then 2
    else if code == T.TEXT_ON || code == T.TEXT_OFF || code == T.CLEAR || code == T.CLEAR_EOL ||
            code == T.REGION_RESET || code == T.PUT then 0
    else 1
  }

  /** The text operations a command and its data make: one, once its arguments have all come, or for PUT, one a
      character. */
  function SegmentOps(seg: Segment): seq<TextOperation> {
    if seg.command != TEXT || seg.data == [] || seg.data[0] >= 0x10 then []
    else
      var code, args := seg.data[0], seg.data[1..];
      if code == T.PUT then seq(|args|, i requires 0 <= i < |args| => TextOperation(code, args[i], 0))
      else if |args| < TextArity(code) then []
      else if TextArity(code) == 0 then [TextOperation(code, 0, 0)]
      else [TextOperation(code, args[0], args[TextArity(code) - 1])]
  }

  function Ops(segs: seq<Segment>): seq<TextOperation> {
    if segs == [] then [] else Ops(segs[..|segs| - 1]) + SegmentOps(segs[|segs| - 1])
  }

  ghost function Apply(t: T.Text, ops: seq<TextOperation>): (r: T.Text)
    requires T.ValidText(t)
    ensures T.ValidText(r)
  {
    if ops == [] then t
    else
      var op := ops[|ops| - 1];
      T.Op(Apply(t, ops[..|ops| - 1]), op.code, op.a, op.b)
  }

  /** The command under way is the last one written, waiting for what its data leaves to come. */
  predicate Follows(k: Control, seg: Segment) {
    if seg.command == TEXT then
      if seg.data == [] then k.cmd == TEXT && k.argsLeft == 1
      else
        var code, n := seg.data[0], |seg.data| - 1;
        && k.cmd == LONG + code
        && (code < 0x10 ==> k.argsLeft == Max(0, TextArity(code) - n))
        && (code < 0x10 && n == 1 && TextArity(code) == 2 ==> k.firstArg == seg.data[1])
    else if seg.command == NET then
      if seg.data == [] then k.cmd == NET && k.argsLeft == 1 else k.cmd == NET_OP + seg.data[0]
    else k.cmd == seg.command
  }

  /** The operation, if any, that a byte of data completes. */
  function Completed(seg: Segment, d: byte): seq<TextOperation> {
    if seg.command != TEXT then []
    else if seg.data == [] then
      if d < 0x10 && d != T.PUT && TextArity(d) == 0 then [TextOperation(d, 0, 0)] else []
    else
      var code, n := seg.data[0], |seg.data|;
      if code >= 0x10 then []
      else if code == T.PUT then [TextOperation(code, d, 0)]
      else if TextArity(code) == n && n > 0 then [TextOperation(code, if n == 2 then seg.data[1] else d, d)]
      else []
  }

  lemma CompletedExtends(seg: Segment, d: byte)
    ensures SegmentOps(seg.(data := seg.data + [d])) == SegmentOps(seg) + Completed(seg, d)
  {
    if seg.data != [] {
      assert (seg.data + [d])[1..] == seg.data[1..] + [d];
    }
  }

  lemma LongFormFollows(w: World, s: Bus, d: byte)
    requires Inv(w, s)
    ensures var r := Start(w, s, LONG + d);
      Follows(r.control, Segment(TEXT, [d])) && r.text == Apply(s.text, Completed(Segment(TEXT, []), d))
    ensures var r := Start(w, s, NET_OP + d); Follows(r.control, Segment(NET, [d])) && r.text == s.text
  {
  }

  lemma TextArguments(textMode: bool, code: byte)
    requires code < 0x10
    ensures Arguments(textMode, LONG + code) == TextArity(code)
  {
  }

  lemma ArgumentFollows(w: World, s: Bus, seg: Segment, d: byte)
    requires Inv(w, s) && Follows(s.control, seg) && seg.command == TEXT && seg.data != [] && s.control.argsLeft > 0
    ensures var r := Argument(s, d);
      Follows(r.control, seg.(data := seg.data + [d])) && r.text == Apply(s.text, Completed(seg, d))
  {
    hide T.Op, Inv;
    if seg.data[0] < 0x10 {
      TextArguments(s.textMode, seg.data[0]);
    }
  }

  lemma StreamFollows(w: World, s: Bus, seg: Segment, d: byte)
    requires Inv(w, s) && Follows(s.control, seg) && seg.command == TEXT && seg.data != []
    requires s.control.argsLeft == 0
    ensures var r := Stream(s, d);
      Follows(r.control, seg.(data := seg.data + [d])) && r.text == Apply(s.text, Completed(seg, d))
  {
  }

  lemma WriteDataFollows(w: World, s: Bus, seg: Segment, d: byte)
    requires Inv(w, s) && Follows(s.control, seg)
    ensures var r := WriteData(w, s, d);
      Follows(r.control, seg.(data := seg.data + [d])) && r.text == Apply(s.text, Completed(seg, d))
  {
    if IsNet(s.control.cmd) {
      NetDataApart(w, s, d);
    } else if seg.data == [] && (seg.command == TEXT || seg.command == NET) {
      LongFormFollows(w, s, d);
      assert seg.(data := seg.data + [d]) == Segment(seg.command, [d]);
    } else if seg.command == TEXT {
      if s.control.argsLeft > 0 {
        ArgumentFollows(w, s, seg, d);
      } else {
        StreamFollows(w, s, seg, d);
      }
    }
  }

  lemma {:induction false} ApplyJoined(t: T.Text, ops: seq<TextOperation>, more: seq<TextOperation>)
    requires T.ValidText(t)
    ensures Apply(t, ops + more) == Apply(Apply(t, ops), more)
  {
    if more == [] {
      assert ops + more == ops;
    } else {
      var k := |more| - 1;
      assert (ops + more)[..|ops + more| - 1] == ops + more[..k];
      ApplyJoined(t, ops, more[..k]);
    }
  }

  /** The control is where the commands written leave it. */
  predicate Current(k: Control, segs: seq<Segment>) {
    if segs == [] then k.cmd == NOP else Follows(k, segs[|segs| - 1])
  }

  /** The operation, if any, that a write completes. */
  function NewOps(segs: seq<Segment>, x: Write): seq<TextOperation> {
    if x.rs && segs != [] then Completed(segs[|segs| - 1], x.b) else []
  }

  lemma AddWriteOps(segs: seq<Segment>, x: Write)
    ensures Ops(AddWrite(segs, x)) == Ops(segs) + NewOps(segs, x)
  {
    if !x.rs {
      assert (segs + [Segment(x.b, [])])[..|segs|] == segs;
    } else if segs != [] {
      var k := |segs| - 1;
      CompletedExtends(segs[k], x.b);
      assert AddWrite(segs, x)[..k] == segs[..k];
    }
  }

  ghost function Written(w: World, s: Bus, x: Write): Bus
    requires Inv(w, s)
  {
    if x.rs then WriteData(w, s, x.b) else WriteCommand(w, s, x.b)
  }

  lemma WrittenFollows(w: World, s: Bus, segs: seq<Segment>, x: Write)
    requires Inv(w, s) && Current(s.control, segs)
    ensures var r := Written(w, s, x);
      Current(r.control, AddWrite(segs, x)) && r.text == Apply(s.text, NewOps(segs, x))
  {
    if x.rs && segs != [] {
      WriteDataFollows(w, s, segs[|segs| - 1], x.b);
    }
  }

  lemma StepWrites(w: World, s: Bus, e: Event)
    requires Inv(w, s) && !s.absent && IsWrite(s.strobe.eWas, e)
    ensures var r, v := Step(w, s, e), Written(w, Counted(s), Write(RS(e.portA), e.portB));
      r.text == v.text && r.control == v.control
  {
  }

  lemma StepReads(w: World, s: Bus, e: Event)
    requires Inv(w, s) && !IsWrite(s.strobe.eWas, e)
    ensures var r := Step(w, s, e); r.text == s.text && r.control == s.control
  {
  }

  lemma StepStrobe(w: World, s: Bus, e: Event)
    requires Inv(w, s)
    ensures var r := Step(w, s, e); r.strobe.eWas == (if e.Tick? then Strobed(e) else s.strobe.eWas)
  {
  }

  lemma StepKeepsAbsent(w: World, s: Bus, e: Event)
    requires Inv(w, s)
    ensures Step(w, s, e).absent == s.absent
  {
    if IsWrite(s.strobe.eWas, e) && RS(e.portA) {
      if IsNet(s.control.cmd) {
        NetDataApart(w, Counted(s), e.portB);
      }
    }
  }

  /** The strobe, the control and the grid after events, as the commands written say. */
  ghost predicate Parsed(s: Bus, events: seq<Event>) {
    var segs := Segments(Writes(events));
    && !s.absent && s.strobe.eWas == LastStrobe(events)
    && Current(s.control, segs)
    && s.text == Apply(T.Init(), Ops(segs))
  }

  lemma StepParsed(w: World, s: Bus, events: seq<Event>, e: Event)
    requires Inv(w, s) && Parsed(s, events)
    ensures Parsed(Step(w, s, e), events + [e])
  {
    var after, writes := events + [e], Writes(events);
    assert after[..|after| - 1] == events;
    StepStrobe(w, s, e);
    StepKeepsAbsent(w, s, e);
    if IsWrite(s.strobe.eWas, e) {
      var segs, x := Segments(writes), Write(RS(e.portA), e.portB);
      assert Writes(after) == writes + [x];
      assert (writes + [x])[..|writes|] == writes;
      StepWrites(w, s, e);
      WrittenFollows(w, Counted(s), segs, x);
      AddWriteOps(segs, x);
      ApplyJoined(T.Init(), Ops(segs), NewOps(segs, x));
    } else {
      StepReads(w, s, e);
    }
  }

  lemma {:induction false} RunParsed(w: World, events: seq<Event>)
    ensures Parsed(Reached(w, false, events), events)
  {
    if events != [] {
      var before, e := events[..|events| - 1], events[|events| - 1];
      RunParsed(w, before);
      StepParsed(w, Reached(w, false, before), before, e);
      assert events == before + [e];
    }
  }

  /** The grid is what the operations whose arguments arrived in full made it, in order, from a blank one; a command
      abandoned before its arguments came, and every other transfer, leaves it alone. */
  lemma GridIsCompletedOps(w: World, events: seq<Event>)
    ensures Reached(w, false, events).text == Apply(T.Init(), Ops(Segments(Writes(events))))
  {
    RunParsed(w, events);
  }
}
