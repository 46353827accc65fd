/** The FPGA's side of the bus as an object: its reply ring, its grid, its renderer and its display, changed in place
    by each tick. */
module FpgaBusDevice {
  import opened Words
  import opened FpgaBus
  import T = FpgaText
  import P = Ili9341
  import R = FpgaTextRender

  class Device {
    ghost const w: World
    const answers: nat -> byte   // the network device's
    const text: T.Screen
    const panel: P.Chip
    const render: R.Renderer
    const reply: array<byte>
    ghost var queue: seq<byte>   // the reply ring's contents
    var replyHead: nat
    var replyCount: nat
    var strobe: Strobe
    var control: Control
    var sticky: Sticky
    var net: Net
    var absent: bool
    var textMode: bool
    var renderUs: nat

    /** The ring's slots hold the queue, from the head on. */
    ghost predicate RingHolds()
      reads this, reply
    {
      && reply.Length == DEPTH && replyHead < DEPTH && replyCount == |queue| <= DEPTH
      && forall i :: 0 <= i < replyCount ==> reply[(replyHead + i) % DEPTH] == queue[i]
    }

    ghost predicate Valid()
      reads this, reply, text, text.cells, panel, panel.memory, panel.params, render, render.drawn
    {
      && reply != panel.params && panel.memory as object != render.drawn
      && text.Valid() && panel.Valid() && render.Valid() && render.font == w.font && answers == w.answers
      && RingHolds()
    }

    ghost function State(): Bus
      requires panel.Valid()
      reads this, text, panel, panel.memory, panel.params, render
    {
      Bus(strobe, control, sticky, queue, net, absent, textMode, text.State(), panel.State(), render.State(), renderUs)
    }

    constructor (w: World, absent: bool)
      ensures Valid() && this.w == w
      ensures State() == Init(absent) && Inv(w, State())
    {
      this.w := w;
      answers := w.answers;
      text := new T.Screen();
      panel := new P.Chip();
      render := new R.Renderer(w.font);
      reply := new byte[DEPTH](_ => 0);
      queue, replyHead, replyCount := [], 0, 0;
      strobe, control, sticky, net := Strobe(false, 0, false, false, 0), Control(NOP, 0, 0), CLEAN, Net(false, 0, 0);
      this.absent, textMode, renderUs := absent, false, 0;
      new;
      InitInv(w, absent);
    }

    method DoPushReply(b: byte)
      requires Valid()
      modifies this`queue, this`replyCount, this`sticky, reply
      ensures Valid() && State() == PushReply(old(State()), b)
    {
      if replyCount == DEPTH {
        sticky := sticky.(overflow := true);
        return;
      }
      reply[(replyHead + replyCount) % DEPTH] := b;
      replyCount := replyCount + 1;
      queue := queue + [b];
    }

    /** In text mode, the grid drawn on the display. */
    method DoRender(now: nat)
      requires Valid() && Inv(w, State())
      modifies this`renderUs, render, render.drawn, panel, panel.memory, panel.params
      ensures Valid() && State() == Rendered(w, old(State()), now)
    {
      hide R.Draw, R.Synced;
      if !textMode {
        return;
      }
      render.DoDraw(text, panel, now);
      renderUs := now;
    }

    method DoTextOp(code: byte, a: byte, b: byte)
      requires Valid()
      modifies text, text.cells
      ensures Valid() && State() == TextOp(old(State()), code, a, b)
    {
      text.DoOp(code, a, b);
    }

    method DoAnswer(c: nat)
      requires Valid()
      modifies this`queue, this`replyCount, this`sticky, reply
      ensures Valid() && State() == Answered(old(State()), c)
    {
      if c == ID {
        DoPushReply('M' as int);
        DoPushReply('B' as int);
        DoPushReply(VERSION);
        DoPushReply(CAPABILITIES);
      } else if c == NET_STATUS {
        DoPushReply(0);
      } else if c == GEOMETRY {
        DoPushReply(T.ROWS);
        DoPushReply(T.COLS);
      } else if c == RESET {
        queue, replyCount, sticky := [], 0, CLEAN;
      }
    }

    method DoBeginTextMode(c: nat)
      requires Valid()
      modifies this`textMode, this`control, render, render.drawn
      ensures Valid()
      ensures State() == old(State()).(textMode := true, render := R.Init(), control := old(control).(cmd := c))
    {
      render.Restart();
      textMode, control := true, control.(cmd := c);
    }

    method DoEndTextMode()
      requires Valid() && Inv(w, State())
      modifies this`textMode, this`renderUs, render, render.drawn, panel, panel.memory, panel.params
      ensures Valid() && State() == Rendered(w, old(State()), old(renderUs)).(textMode := false)
    {
      hide Rendered, Inv;
      DoRender(renderUs);
      textMode := false;
    }

    method DoSwitch(c: nat)
      requires Valid() && Inv(w, State())
      modifies this`textMode, this`control, this`renderUs, render, render.drawn, panel, panel.memory, panel.params
      ensures Valid() && State() == Switched(w, old(State()), c)
    {
      if c == TEXT_ON {
        DoBeginTextMode(c);
      } else if textMode && (c == TEXT_OFF || c == DISP_RESET) {
        DoEndTextMode();
      }
    }

    /** The status and replies of a command, and text mode coming on or ending. */
    method DoAccept(c: nat)
      requires Valid() && Inv(w, State())
      modifies this, reply, render, render.drawn, panel, panel.memory, panel.params
      ensures Valid() && State() == Accepted(w, old(State()), c)
    {
      ghost var was := State();
      if !Known(textMode, c) {
        sticky := sticky.(unknown := true);
      }
      DoAnswer(c);
      InvKept(w, was, State());
      DoSwitch(c);
    }

    /** A command, or a long form's operation. */
    method DoStart(c: nat)
      requires Valid() && Inv(w, State())
      modifies this, reply, text, text.cells, render, render.drawn, panel, panel.memory, panel.params
      ensures Valid() && State() == Start(w, old(State()), c)
    {
      hide Accepted, T.Op, Arguments;
      var args, was := Arguments(textMode, c), control;
      DoAccept(c);
      control := was.(cmd := c, argsLeft := args);
      if IsText(c) && args == 0 && c != PUT {
        DoTextOp(c - LONG, 0, 0);
      }
    }

    method DoNetHeader()
      requires Valid()
      modifies this`net, this`sticky
      ensures Valid() && State() == NetHeader(w, old(State()))
    {
      if !net.open {
        net := net.(open := true, header := 0);
      }
      var answer := answers(net.answered);
      net := net.(header := (net.header + 1) % 0x100, answered := net.answered + 1);
      if answer != net.header {
        sticky := sticky.(netError := true);
      }
    }

    method DoNetByte()
      requires Valid()
      modifies this`queue, this`replyCount, this`sticky, this`net, reply
      ensures Valid() && State() == NetByte(w, old(State()))
    {
      var b := answers(net.answered);
      net := net.(answered := net.answered + 1);
      DoPushReply(b);
    }

    method DoNetRead(n: nat)
      requires Valid()
      modifies this`queue, this`replyCount, this`sticky, this`net, reply
      ensures Valid() && State() == NetRead(w, old(State()), n)
    {
      ghost var was := State();
      for i := 0 to n
        invariant Valid() && State() == NetRead(w, was, i)
      {
        DoNetByte();
      }
    }

    method DoNetArgument(d: byte)
      requires Valid()
      modifies this`queue, this`replyCount, this`sticky, this`net, reply
      ensures Valid() && State() == NetArgument(w, old(State()), d)
    {
      hide NetRead, NetHeader, PushReply;
      if control.cmd == NET_READ && control.argsLeft == 0 {
        DoNetRead(if d > 0 then d else 0x100);
        net := net.(open := false);
      } else {
        DoNetHeader();
      }
    }

    method DoNetData(d: byte)
      requires Valid()
      modifies this`queue, this`replyCount, this`sticky, this`net, this`control, reply
      ensures Valid() && State() == NetData(w, old(State()), d)
    {
      if control.argsLeft > 0 {
        control := control.(argsLeft := control.argsLeft - 1);
        DoNetArgument(d);
      } else if control.cmd == NET_WRITE {
        net := net.(answered := net.answered + 1);
      } else {
        sticky := sticky.(extra := true);
      }
    }

    method DoWriteCommand(c: byte)
      requires Valid() && Inv(w, State())
      modifies this, reply, text, text.cells, render, render.drawn, panel, panel.memory, panel.params
      ensures Valid() && State() == WriteCommand(w, old(State()), c)
    {
      if control.argsLeft > 0 {
        sticky := sticky.(abandoned := true);
      }
      net := net.(open := false);
      DoStart(c);
    }

    method DoDisplayArgument(a: byte)
      requires Valid() && Display(textMode, control.cmd)
      modifies panel
      ensures Valid() && State() == DisplayArgument(old(State()), a)
    {
      if control.cmd == DISP_RESET {
        panel.SetResetLine(a % 2 == 1);
      } else if control.cmd == DISP_COMMAND {
        panel.SendCommand(a);
      } else if control.cmd == BACKLIGHT {
        panel.backlight := a;
      }
    }

    method DoArgument(d: byte)
      requires Valid() && control.argsLeft > 0
      modifies this`control, text, text.cells, panel
      ensures Valid() && State() == Argument(old(State()), d)
    {
      var left := control.argsLeft;
      control := control.(argsLeft := left - 1, firstArg := if left == 2 then d else control.firstArg);
      if left == 1 {
        if IsText(control.cmd) {
          DoTextOp(control.cmd % 0x100, if Arguments(textMode, control.cmd) == 2 then control.firstArg else d, d);
        } else if Display(textMode, control.cmd) {
          DoDisplayArgument(d);
        }
      }
    }

    method DoStream(d: byte)
      requires Valid()
      modifies this`queue, this`replyCount, this`sticky, reply, text, text.cells, panel, panel.memory, panel.params
      ensures Valid() && State() == Stream(old(State()), d)
    {
      if control.cmd == ECHO {
        DoPushReply(d);
      } else if control.cmd == PUT {
        DoTextOp(T.PUT, d, 0);
      } else if Display(textMode, control.cmd) && Streams(control.cmd) {
        panel.SendData(d);
      } else if Known(textMode, control.cmd) && !Streams(control.cmd) {
        sticky := sticky.(extra := true);
      }
    }

    method DoWriteData(d: byte)
      requires Valid() && Inv(w, State())
      modifies this, reply, text, text.cells, render, render.drawn, panel, panel.memory, panel.params
      ensures Valid() && State() == WriteData(w, old(State()), d)
    {
      if control.cmd == NET && control.argsLeft > 0 {
        DoStart(NET_OP + d);
      } else if IsNet(control.cmd) {
        DoNetData(d);
      } else if control.cmd == TEXT && control.argsLeft > 0 {
        DoStart(LONG + d);
      } else if control.argsLeft > 0 {
        DoArgument(d);
      } else {
        DoStream(d);
      }
    }

    method DoBeginRead(rs: bool)
      requires Valid()
      modifies this`strobe, this`sticky
      ensures Valid() && State() == BeginRead(old(State()), rs)
    {
      strobe := strobe.(reading := true, readRs := rs);
      if !rs {
        strobe := strobe.(readValue := sticky.Byte());
        sticky := CLEAN;
      } else if replyCount > 0 {
        strobe := strobe.(readValue := reply[replyHead]);
      } else {
        strobe := strobe.(readValue := 0);
        sticky := sticky.(underflow := true);
      }
    }

    method DropReply()
      requires Valid() && replyCount > 0
      modifies this`queue, this`replyHead, this`replyCount
      ensures Valid() && queue == old(queue)[1..]
    {
      ghost var head, was := replyHead, queue;
      replyHead := (replyHead + 1) % DEPTH;
      replyCount := replyCount - 1;
      queue := queue[1..];
      forall i | 0 <= i < replyCount ensures reply[(replyHead + i) % DEPTH] == queue[i] {
        assert (replyHead + i) % DEPTH == (head + (i + 1)) % DEPTH;
        assert queue[i] == was[i + 1];
      }
    }

    method DoEndRead()
      requires Valid()
      modifies this`strobe, this`queue, this`replyHead, this`replyCount
      ensures Valid() && State() == EndRead(old(State()))
    {
      if strobe.readRs && replyCount > 0 {
        DropReply();
      }
      strobe := strobe.(reading := false);
    }

    method DoTransfer(portA: byte, ghost ddrA: byte, portB: byte)
      requires Valid() && Inv(w, State())
      modifies this, reply, text, text.cells, render, render.drawn, panel, panel.memory, panel.params
      ensures Valid() && State() == Transfer(w, old(State()), Tick(portA, ddrA, portB))
    {
      hide WriteData, WriteCommand, BeginRead, R.Synced;
      strobe := strobe.(transfers := (strobe.transfers + 1) % 0x1_0000_0000);
      if !absent {
        if RW(portA) {
          DoBeginRead(RS(portA));
        } else if RS(portA) {
          DoWriteData(portB);
        } else {
          DoWriteCommand(portB);
        }
      }
    }

    method DoEdges(portA: byte, ddrA: byte, portB: byte)
      requires Valid() && Inv(w, State())
      modifies this, reply, text, text.cells, render, render.drawn, panel, panel.memory, panel.params
      ensures Valid() && State() == Step(w, old(State()), Tick(portA, ddrA, portB))
    {
      hide WriteData, Inv;
      var e := E(ddrA) && E(portA);
      if e && !strobe.eWas {
        DoTransfer(portA, ddrA, portB);
      } else if !e && strobe.eWas && strobe.reading {
        DoEndRead();
      }
      strobe := strobe.(eWas := e);
    }

    /** A transfer at each rising edge of E; a read ends as E falls. */
    method DoTick(portA: byte, ddrA: byte, portB: byte)
      requires Valid() && Inv(w, State())
      modifies this, reply, text, text.cells, render, render.drawn, panel, panel.memory, panel.params
      ensures Valid() && State() == Step(w, old(State()), Tick(portA, ddrA, portB)) && Inv(w, State())
    {
      StepKeepsInv(w, State(), Tick(portA, ddrA, portB));
      DoEdges(portA, ddrA, portB);
    }
  }
}
