/** The CPU in place: registers, flags and memory changed by the stack's instructions, interrupts, ADC and SBC. */
module CpuCore {
  import opened Words
  import opened CpuArithmetic
  import opened CpuStack

  const STACK := 0x100

  class Core {
    const variant: Variant
    const memory: array<byte>
    var a: byte
    var pc: word
    var sp: byte
    var status: Status

    ghost predicate Valid()
      reads this
    {
      memory.Length == 0x1_0000
    }

    ghost function State(): (c: Cpu)
      requires Valid()
      reads this, memory
      ensures ValidCpu(c)
    {
      Cpu(pc, sp, status, memory[STACK..STACK + SIZE])
    }

    /** Memory but for the stack's page. */
    twostate predicate OnlyStackWritten()
      requires old(Valid()) && Valid()
      reads this, memory
    {
      forall i :: 0 <= i < 0x1_0000 && !(STACK <= i < STACK + SIZE) ==> memory[i] == old(memory[i])
    }

    method Write(i: byte, v: byte)
      requires Valid()
      modifies memory
      ensures memory[STACK..STACK + SIZE] == old(memory[STACK..STACK + SIZE])[i := v] && OnlyStackWritten()
    {
      memory[STACK + i] := v;
    }

    // ---- Pushes and pulls ----

    method DoPush8(v: byte)
      requires Valid()
      modifies memory, this`sp
      ensures State() == Push8(old(State()), v) && OnlyStackWritten()
    {
      Write(sp, v);
      sp := (sp - 1) % 0x100;
    }

    method DoPush16(v: word)
      requires Valid()
      modifies memory, this`sp
      ensures State() == Push16(old(State()), v) && OnlyStackWritten()
    {
      Write(sp, v / 0x100);
      Write((sp - 1) % 0x100, v % 0x100);
      sp := (sp - 2) % 0x100;
    }

    method DoPull8() returns (v: byte)
      requires Valid()
      modifies this`sp
      ensures v == Top(old(State()), 1) && State() == old(State()).(sp := Up(old(sp), 1))
    {
      sp := (sp + 1) % 0x100;
      v := memory[STACK + sp];
    }

    method DoPull16() returns (v: word)
      requires Valid()
      modifies this`sp
      ensures v == Top16(old(State()), 1) && State() == old(State()).(sp := Up(old(sp), 2))
    {
      var lo, hi := memory[STACK + (sp + 1) % 0x100], memory[STACK + (sp + 2) % 0x100];
      v := lo as int + 0x100 * hi as int;
      sp := (sp + 2) % 0x100;
    }

    // ---- Subroutines and interrupts ----

    /** Pc is past the instruction. */
    method DoJsr(target: word)
      requires Valid()
      modifies memory, this`sp, this`pc
      ensures State() == Jsr(old(State()).(pc := (old(pc) - 3) % 0x1_0000), target) && OnlyStackWritten()
    {
      assert ((pc - 3) % 0x1_0000 + 2) % 0x1_0000 == (pc - 1) % 0x1_0000;
      DoPush16((pc - 1) % 0x1_0000);
      pc := target;
    }

    method DoRts()
      requires Valid()
      modifies this`sp, this`pc
      ensures State() == Rts(old(State()))
    {
      var v: int := DoPull16();
      pc := (v + 1) % 0x1_0000;
    }

    /** The address saved, and the status under it. */
    method Save(p: Status)
      requires Valid()
      modifies memory, this`sp
      ensures State() == Push8(Push16(old(State()), pc), StatusByte(p)) && OnlyStackWritten()
    {
      hide StatusByte;
      DoPush16(pc);
      DoPush8(StatusByte(p));
    }

    method Strike(how: Interrupt, at: word)
      requires Valid() && how != Brk && STACK + SIZE <= at < 0xFFFF
      modifies memory, this`sp, this`pc, this`status
      ensures State() == Interrupted(old(State()), variant, how, old(memory[at] as int + 0x100 * memory[at + 1] as int))
      ensures OnlyStackWritten()
    {
      Save(status);
      status := status.(i := true);
      pc := memory[at] as int + 0x100 * memory[at + 1] as int;
    }

    method DoNmi()
      requires Valid()
      modifies memory, this`sp, this`pc, this`status
      ensures State() == Interrupted(old(State()), variant, Nmi, old(memory[0xFFFA] as int + 0x100 * memory[0xFFFB] as int))
      ensures OnlyStackWritten()
    {
      Strike(Nmi, 0xFFFA);
    }

    method DoIrq()
      requires Valid()
      modifies memory, this`sp, this`pc, this`status
      ensures State() == Interrupted(old(State()), variant, Irq, old(memory[0xFFFE] as int + 0x100 * memory[0xFFFF] as int))
      ensures OnlyStackWritten()
    {
      Strike(Irq, 0xFFFE);
    }

    /** Pc is past the opcode, whose fetch has set the constant bit. */
    method DoBrk()
      requires Valid() && status.constant
      modifies memory, this`sp, this`pc, this`status
      ensures State() == Interrupted(old(State()).(pc := (old(pc) - 1) % 0x1_0000), variant, Brk,
                                     old(memory[0xFFFE] as int + 0x100 * memory[0xFFFF] as int))
      ensures OnlyStackWritten()
    {
      hide StatusByte, Push8, Push16, Interrupted;
      var back: word := (pc as int + 1) % 0x1_0000;
      BrkFromPast(State(), variant, memory[0xFFFE] as int + 0x100 * memory[0xFFFF] as int);
      pc := back;
      Save(status.(b := true));
      status := status.(i := true);
      if variant == Cmos {
        status := status.(d := false);
      }
      pc := memory[0xFFFE] as int + 0x100 * memory[0xFFFF] as int;
    }

    method DoRti()
      requires Valid()
      modifies this`sp, this`pc, this`status
      ensures State() == Rti(old(State()))
    {
      var v := DoPull8();
      status := Pulled(StatusOf(v));
      pc := DoPull16();
    }

    method DoPha()
      requires Valid()
      modifies memory, this`sp
      ensures State() == Push8(old(State()), a) && OnlyStackWritten()
    {
      DoPush8(a);
    }

    method DoPla()
      requires Valid()
      modifies this`sp, this`a, this`status
      ensures a == Top(old(State()), 1)
      ensures State() == old(State()).(sp := Up(old(sp), 1), status := WithResult(old(status), a))
    {
      a := DoPull8();
      status := WithResult(status, a);
    }

    // ---- Arithmetic ----

    method DoAdc(value: byte)
      modifies this`a, this`status
      ensures Sum(a, status) == Adc(variant, old(status), old(a), value)
    {
      hide Overflows, Sign, WithResult;
      var p, carry := status, Bit(status.c);
      if p.d {
        var bin := a + value + carry;
        var lo, hi := a % 16 + value % 16 + carry, a / 16 + value / 16;
        if lo > 9 {
          lo := lo - 10;
          hi := hi + 1;
        }
        var over := hi > 9;
        if over {
          hi := hi - 10;
        }
        var r := Packed(hi, lo);
        status := WithResult(p.(v := Overflows(a, value, bin), c := over), if variant == Nmos then bin else r);
        a := r;
      } else {
        var result := a + value + carry;
        status := WithResult(p.(v := Overflows(a, value, result), c := result >= 0x100), result);
        a := result % 0x100;
      }
    }

    method DoSbc(value: byte)
      modifies this`a, this`status
      ensures Sum(a, status) == Sbc(variant, old(status), old(a), value)
    {
      hide Overflows, Sign, WithResult;
      var p, carry, m := status, Bit(status.c), 0xFF - value;
      var result := a + m + carry;
      if p.d {
        var lo, hi := a % 16 - value % 16 - (1 - carry), a / 16 - value / 16;
        if lo < 0 {
          lo := lo + 10;
          hi := hi - 1;
        }
        var borrow := hi < 0;
        if borrow {
          hi := hi + 10;
        }
        var r := Packed(hi, lo);
        status := WithResult(p.(v := Overflows(a, m, result), c := !borrow), if variant == Nmos then result else r);
        a := r;
      } else {
        status := WithResult(p.(v := Overflows(a, m, result), c := result >= 0x100), result);
        a := result % 0x100;
      }
    }
  }
}
