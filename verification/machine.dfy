/** The execution engine as the original runs it: a machine whose handlers
    update memory, registers, the index register, the program counter and the
    stack in place. Each method is proved to have exactly the effect that the
    function of the same name in module Semantics describes, so the lemmas of
    module Properties apply to it. */
module Engine {
  import opened Words
  import opened Instructions
  import opened Semantics

  class Machine {
    const mem: array<bv8>
    const regs: array<bv8>
    const stack: array<U16>
    var i: U16
    var pc: U16
    var sp: nat
    /** The bytes the print instructions have sent to standard output. */
    var output: seq<bv8>

    ghost predicate Valid()
      reads this
    {
      mem.Length == MemSize && regs.Length == RegCount && stack.Length == StackSize &&
      sp < StackSize && mem != regs && stack as object != mem && stack as object != regs
    }

    /** The machine as a value. */
    ghost function Snapshot(): (s: State)
      reads this, mem, regs, stack
      ensures Valid() ==> Semantics.Valid(s)
    {
      State(mem[..], regs[..], i, pc, sp, stack[..], output)
    }

    /** `new`: all memory, registers and stack slots zero, `pc` at the program start. */
    constructor ()
      ensures Valid() && fresh(mem) && fresh(regs) && fresh(stack)
      ensures Snapshot() == Initial()
      ensures pc == ProgramStart && i == 0 && sp == 0 && output == []
      ensures forall a :: 0 <= a < MemSize ==> mem[a] == 0
      ensures forall r :: 0 <= r < RegCount ==> regs[r] == 0
      ensures forall k :: 0 <= k < StackSize ==> stack[k] == 0
    {
      mem := new bv8[MemSize](_ => 0);
      regs := new bv8[RegCount](_ => 0);
      stack := new U16[StackSize](_ => 0);
      i, pc, sp := 0, ProgramStart, 0;
      output := [];
      new;
      assert mem[..] == seq(MemSize, _ => 0);
      assert regs[..] == seq(RegCount, _ => 0);
      assert stack[..] == seq(StackSize, _ => 0);
    }

    /** `load`: copy the program into memory from the program start on.
        A program that does not fit is refused and nothing is written. */
    method Load(program: seq<bv8>) returns (ok: bool)
      requires Valid()
      modifies mem
      ensures Valid()
      ensures ok == Fits(program)
      ensures Snapshot() == if ok then Loaded(old(Snapshot()), program) else old(Snapshot())
    {
      if !Fits(program) {
        return false;
      }
      var k := 0;
      while k < |program|
        invariant 0 <= k <= |program|
        invariant mem[..] == Overwrite(old(mem[..]), ProgramStart, program[..k])
      {
        mem[ProgramStart + k] := program[k];
        k := k + 1;
      }
      assert program[..k] == program;
      ok := true;
    }

    /** 0x0: return from a subroutine. */
    method Ret() returns (outcome: Outcome)
      requires Valid()
      modifies this`pc, this`sp
      ensures Valid()
      ensures Transition(outcome, Snapshot()) == Semantics.Ret(old(Snapshot()))
    {
      if sp == 0 {
        return Fault(StackUnderflow);
      }
      pc := stack[sp];
      sp := sp - 1;
      outcome := Continue;
    }

    /** 0x1nnn: jump. */
    method Jmp(addr: U16)
      requires Valid()
      modifies this`pc
      ensures Valid()
      ensures Snapshot() == Semantics.Jmp(old(Snapshot()), addr)
    {
      pc := addr;
    }

    /** 0x2nnn: call. */
    method Call(addr: U16) returns (outcome: Outcome)
      requires Valid()
      modifies this`pc, this`sp, stack
      ensures Valid()
      ensures Transition(outcome, Snapshot()) == Semantics.Call(old(Snapshot()), addr)
    {
      if sp + 1 == StackSize {
        return Fault(StackOverflow);
      }
      sp := sp + 1;
      stack[sp] := pc;
      pc := addr;
      outcome := Continue;
    }

    /** 0x3xkk: skip if register x equals kk. */
    method Eq(x: nat, kk: bv8)
      requires Valid() && x < RegCount && pc + 2 < 0x1_0000
      modifies this`pc
      ensures Valid()
      ensures Snapshot() == Semantics.Eq(old(Snapshot()), x, kk)
    {
      if regs[x] == kk {
        pc := pc + 2;
      }
    }

    /** 0x4xkk: skip if register x differs from kk. */
    method Neq(x: nat, kk: bv8)
      requires Valid() && x < RegCount && pc + 2 < 0x1_0000
      modifies this`pc
      ensures Valid()
      ensures Snapshot() == Semantics.Neq(old(Snapshot()), x, kk)
    {
      if regs[x] != kk {
        pc := pc + 2;
      }
    }

    /** 0x5xy_: skip if registers x and y are equal. */
    method EqXY(x: nat, y: nat)
      requires Valid() && x < RegCount && y < RegCount && pc + 2 < 0x1_0000
      modifies this`pc
      ensures Valid()
      ensures Snapshot() == Semantics.EqXY(old(Snapshot()), x, y)
    {
      if regs[x] == regs[y] {
        pc := pc + 2;
      }
    }

    /** 0x6xkk: load kk into register x. */
    method Ld(x: nat, kk: bv8)
      requires Valid() && x < RegCount
      modifies regs
      ensures Valid()
      ensures Snapshot() == Semantics.Ld(old(Snapshot()), x, kk)
    {
      regs[x] := kk;
    }

    /** 0x7xkk: add kk to register x, wrapping. */
    method Add(x: nat, kk: bv8)
      requires Valid() && x < RegCount
      modifies regs
      ensures Valid()
      ensures Snapshot() == Semantics.Add(old(Snapshot()), x, kk)
    {
      regs[x] := WrappingAdd(regs[x], kk);
    }

    /** 0x8xy0: copy register y into register x. */
    method LdXY(x: nat, y: nat)
      requires Valid() && x < RegCount && y < RegCount
      modifies regs
      ensures Valid()
      ensures Snapshot() == Semantics.LdXY(old(Snapshot()), x, y)
    {
      regs[x] := regs[y];
    }

    /** 0x8xy1: register x |= register y. */
    method Or(x: nat, y: nat)
      requires Valid() && x < RegCount && y < RegCount
      modifies regs
      ensures Valid()
      ensures Snapshot() == Semantics.Or(old(Snapshot()), x, y)
    {
      regs[x] := regs[x] | regs[y];
    }

    /** 0x8xy2: register x &= register y. */
    method And(x: nat, y: nat)
      requires Valid() && x < RegCount && y < RegCount
      modifies regs
      ensures Valid()
      ensures Snapshot() == Semantics.And(old(Snapshot()), x, y)
    {
      regs[x] := regs[x] & regs[y];
    }

    /** 0x8xy3: register x ^= register y. */
    method Xor(x: nat, y: nat)
      requires Valid() && x < RegCount && y < RegCount
      modifies regs
      ensures Valid()
      ensures Snapshot() == Semantics.Xor(old(Snapshot()), x, y)
    {
      regs[x] := regs[x] ^ regs[y];
    }

    /** 0x8xy4: add register y to register x, then set the flag to the carry. */
    method AddXY(x: nat, y: nat)
      requires Valid() && x < RegCount && y < RegCount
      modifies regs
      ensures Valid()
      ensures Snapshot() == Semantics.AddXY(old(Snapshot()), x, y)
    {
      var (sum, overflow) := OverflowingAdd(regs[x], regs[y]);
      regs[x] := sum;
      regs[Flag] := if overflow then 1 else 0;
    }

    /** 0x8xy5: subtract register y from register x, then set the flag to "no borrow". */
    method SubXY(x: nat, y: nat)
      requires Valid() && x < RegCount && y < RegCount
      modifies regs
      ensures Valid()
      ensures Snapshot() == Semantics.SubXY(old(Snapshot()), x, y)
    {
      var (diff, overflow) := OverflowingSub(regs[x], regs[y]);
      regs[x] := diff;
      regs[Flag] := if overflow then 0 else 1;
    }

    /** 0x8xy6: set the flag to the low bit of register x, then shift it right. */
    method Shr(x: nat)
      requires Valid() && x < RegCount
      modifies regs
      ensures Valid()
      ensures Snapshot() == Semantics.Shr(old(Snapshot()), x)
    {
      regs[Flag] := regs[x] & 1;
      regs[x] := regs[x] >> 1;
    }

    /** 0x8xy7: register x := register y - register x, then set the flag to "no borrow". */
    method SubnXY(x: nat, y: nat)
      requires Valid() && x < RegCount && y < RegCount
      modifies regs
      ensures Valid()
      ensures Snapshot() == Semantics.SubnXY(old(Snapshot()), x, y)
    {
      var (diff, overflow) := OverflowingSub(regs[y], regs[x]);
      regs[x] := diff;
      regs[Flag] := if overflow then 0 else 1;
    }

    /** 0x8xyE: set the flag to the high bit of register x, then shift it left. */
    method Shl(x: nat)
      requires Valid() && x < RegCount
      modifies regs
      ensures Valid()
      ensures Snapshot() == Semantics.Shl(old(Snapshot()), x)
    {
      regs[Flag] := regs[x] >> 7;
      regs[x] := regs[x] << 1;
    }

    /** 0x9xy_: skip if registers x and y differ. */
    method NeqXY(x: nat, y: nat)
      requires Valid() && x < RegCount && y < RegCount && pc + 2 < 0x1_0000
      modifies this`pc
      ensures Valid()
      ensures Snapshot() == Semantics.NeqXY(old(Snapshot()), x, y)
    {
      if regs[x] != regs[y] {
        pc := pc + 2;
      }
    }

    /** 0xAnnn: load the index register. */
    method LdI(addr: U16)
      requires Valid()
      modifies this`i
      ensures Valid()
      ensures Snapshot() == Semantics.LdI(old(Snapshot()), addr)
    {
      i := addr;
    }

    /** 0xBnnn: jump to nnn plus register 0. */
    method JmpV0(addr: U16)
      requires Valid() && addr + regs[0] as int < 0x1_0000
      modifies this`pc
      ensures Valid()
      ensures Snapshot() == Semantics.JmpV0(old(Snapshot()), addr)
    {
      pc := addr + regs[0] as int;
    }

    /** 0xCx__: add register x to the index register. */
    method AddI(x: nat) returns (outcome: Outcome)
      requires Valid() && x < RegCount
      modifies this`i
      ensures Valid()
      ensures Transition(outcome, Snapshot()) == Semantics.AddI(old(Snapshot()), x)
    {
      if i + regs[x] as int >= 0x1_0000 {
        return Fault(IndexOverflow);
      }
      i := i + regs[x] as int;
      outcome := Continue;
    }

    /** 0xDx__: store the decimal digits of register x at the index register,
        last digit first: each round stores the value modulo 10 and divides by 10. */
    method Bcd(x: nat) returns (outcome: Outcome)
      requires Valid() && x < RegCount
      modifies mem
      ensures Valid()
      ensures Transition(outcome, Snapshot()) == Semantics.Bcd(old(Snapshot()), x)
    {
      if i + 2 >= MemSize {
        return Fault(MemoryOutOfBounds);
      }
      var val := regs[x];
      ghost var d := BcdDigits(val);
      var k := 3;
      while k > 0
        invariant 0 <= k <= 3
        invariant k > 0 ==> val == if k == 3 then regs[x] else if k == 2 then regs[x] / 10 else regs[x] / 10 / 10
        invariant forall a :: 0 <= a < MemSize ==> mem[a] == if i + k <= a < i + 3 then d[a - i] else old(mem[a])
      {
        var digit := val % 10;
        assert digit == d[k - 1];
        k := k - 1;
        mem[i + k] := digit;
        val := val / 10;
      }
      assert mem[..] == Overwrite(old(mem[..]), i, d);
      outcome := Continue;
    }

    /** 0xEx__: store registers 0 to x in memory from the index register on. */
    method Ld0X(x: nat) returns (outcome: Outcome)
      requires Valid() && x < RegCount
      modifies mem
      ensures Valid()
      ensures Transition(outcome, Snapshot()) == Semantics.Ld0X(old(Snapshot()), x)
    {
      if i + x >= MemSize {
        return Fault(MemoryOutOfBounds);
      }
      var k := 0;
      while k < x + 1
        invariant 0 <= k <= x + 1
        invariant mem[..] == Overwrite(old(mem[..]), i, regs[..k])
      {
        mem[i + k] := regs[k];
        k := k + 1;
      }
      outcome := Continue;
    }

    /** 0xFx_0: load registers 0 to x from memory from the index register on. */
    method LdX0(x: nat) returns (outcome: Outcome)
      requires Valid() && x < RegCount
      modifies regs
      ensures Valid()
      ensures Transition(outcome, Snapshot()) == Semantics.LdX0(old(Snapshot()), x)
    {
      if i + x >= MemSize {
        return Fault(MemoryOutOfBounds);
      }
      var k := 0;
      while k < x + 1
        invariant 0 <= k <= x + 1
        invariant regs[..] == Overwrite(old(regs[..]), 0, mem[i..i + k])
      {
        regs[k] := mem[i + k];
        k := k + 1;
      }
      outcome := Continue;
    }

    /** 0xFx_1: print registers 0 to x. */
    method Out(x: nat)
      requires Valid() && x < RegCount
      modifies this`output
      ensures Valid()
      ensures Snapshot() == Semantics.Out(old(Snapshot()), x)
    {
      var k := 0;
      while k < x + 1
        invariant 0 <= k <= x + 1
        invariant output == old(output) + regs[..k]
      {
        output := output + [regs[k]];
        k := k + 1;
      }
    }

    /** 0xFx_2: print the x + 1 bytes of memory at the index register, one
        at a time, faulting at the first address past the end of memory. */
    method OutI(x: nat) returns (outcome: Outcome)
      requires Valid() && x < RegCount
      modifies this`output
      ensures Valid()
      ensures Transition(outcome, Snapshot()) == Semantics.OutI(old(Snapshot()), x)
    {
      if i >= MemSize {
        return Fault(MemoryOutOfBounds);
      }
      var k := 0;
      while k < x + 1 && i + k < MemSize
        invariant 0 <= k <= x + 1 && i + k <= MemSize
        invariant output == old(output) + mem[i..i + k]
      {
        output := output + [mem[i + k]];
        k := k + 1;
      }
      if k < x + 1 {
        assert mem[i..i + k] == mem[..][i..];
        outcome := Fault(MemoryOutOfBounds);
      } else {
        outcome := Continue;
      }
    }

    /** 0xF__F: halt. The run ends; the machine is left as it is. */
    method Exit() returns (outcome: Outcome)
      ensures outcome == Halted
    {
      outcome := Halted;
    }

    /** An unrecognised instruction: reported, nothing else happens. */
    method Err(ins: Instruction) returns (outcome: Outcome)
      ensures outcome == Unknown(ins.word) && !Stops(outcome)
    {
      outcome := Unknown(ins.word);
    }

    /** `fetch`: read the big-endian word at `pc` and move `pc` past it. */
    method Fetch() returns (outcome: Outcome, ins: Instruction)
      requires Valid()
      modifies this`pc
      ensures Valid()
      ensures outcome == if CanFetch(old(Snapshot())) then Continue else Fault(PcOutOfBounds)
      ensures outcome == Continue ==>
        ins.word as int == old(mem[pc]) as int * 0x100 + old(mem[pc + 1]) as int &&
        pc == old(pc) + 2 &&
        (ins, Snapshot()) == Semantics.Fetch(old(Snapshot()))
      ensures outcome != Continue ==> Snapshot() == old(Snapshot())
    {
      ins := Instruction(0);
      if pc >= MemSize {
        return Fault(PcOutOfBounds), ins;
      }
      if pc + 1 >= MemSize {
        // the Rust `fetch` guard (`pc >= 4096`) lets pc = 4095 through; reading mem[4096] then fails
        return Fault(PcOutOfBounds), ins;
      }
      ins := FromBytes([mem[pc], mem[pc + 1]]);
      pc := pc + 2;
      outcome := Continue;
    }

    /** `dispatch`: one fetch-decode-execute cycle. */
    method Dispatch() returns (outcome: Outcome)
      requires Valid()
      modifies this, mem, regs, stack
      ensures Valid()
      ensures Transition(outcome, Snapshot()) == Step(old(Snapshot()))
    {
      var ins;
      outcome, ins := Fetch();
      if outcome != Continue {
        return;
      }
      var op, x, y, kk, nnn := ins.Opcode(), ins.X(), ins.Y(), ins.Kk(), ins.Nnn();
      assert x < RegCount && y < RegCount && nnn < 0x1000;
      match op
      case 0x0 => outcome := Ret();
      case 0x1 => Jmp(nnn);
      case 0x2 => outcome := Call(nnn);
      case 0x3 => Eq(x, kk);
      case 0x4 => Neq(x, kk);
      case 0x5 => EqXY(x, y);
      case 0x6 => Ld(x, kk);
      case 0x7 => Add(x, kk);
      case 0x8 => {
        match ins.N()
        case 0x0 => LdXY(x, y);
        case 0x1 => Or(x, y);
        case 0x2 => And(x, y);
        case 0x3 => Xor(x, y);
        case 0x4 => AddXY(x, y);
        case 0x5 => SubXY(x, y);
        case 0x6 => Shr(x);
        case 0x7 => SubnXY(x, y);
        case 0xE => Shl(x);
        case _ => outcome := Err(ins);
      }
      case 0x9 => NeqXY(x, y);
      case 0xA => LdI(nnn);
      case 0xB => JmpV0(nnn);
      case 0xC => outcome := AddI(x);
      case 0xD => outcome := Bcd(x);
      case 0xE => outcome := Ld0X(x);
      case 0xF => {
        match ins.N()
        case 0x0 => outcome := LdX0(x);
        case 0x1 => Out(x);
        case 0x2 => outcome := OutI(x);
        case 0xF => outcome := Exit();
        case _ => outcome := Err(ins);
      }
      case _ => outcome := Err(ins);
    }

    /** One cycle of `run` with `left` cycles of fuel before it. */
    method Cycle(ghost left: nat) returns (outcome: Outcome)
      requires Valid() && left > 0
      modifies this, mem, regs, stack
      ensures Valid()
      ensures Semantics.Run(old(Snapshot()), left) ==
        if Stops(outcome) then Transition(outcome, Snapshot()) else Semantics.Run(Snapshot(), left - 1)
    {
      ghost var before := Snapshot();
      outcome := Dispatch();
      RunUnfold(before, left, Transition(outcome, Snapshot()));
    }

    /** `run`: dispatch until the program halts or faults, for at most `fuel`
        cycles; `Continue` means the fuel ran out first. */
    method Run(fuel: nat) returns (outcome: Outcome)
      requires Valid()
      modifies this, mem, regs, stack
      ensures Valid()
      ensures Transition(outcome, Snapshot()) == Semantics.Run(old(Snapshot()), fuel)
    {
      var left: nat := fuel;
      ghost var goal := Semantics.Run(Snapshot(), fuel);
      while left > 0
        invariant Valid() && left <= fuel
        invariant Semantics.Run(Snapshot(), left) == goal
      {
        outcome := Cycle(left);
        if Stops(outcome) {
          return;
        }
        left := left - 1;
      }
      outcome := Continue;
    }
  }
}
