/** What each operation of the execution engine does to the machine state,
    as pure functions. The `Machine` class in module Engine performs these
    operations in place and is proved to agree with them; the lemmas in module
    Properties state what they guarantee.

    Where the original engine would panic (an out-of-range fetch, a stack
    overflow or underflow, an index register that overflows 16 bits, an
    indexed access past the end of memory) the operation here reports a
    `Fault` and leaves the state as it was, except that printing from memory
    keeps the bytes it printed before reaching the end. The halt instruction reports
    `Halted` instead of ending the process, and an unrecognised instruction
    reports `Unknown` and, as in the original, execution may go on. */
module Semantics {
  import opened Words
  import opened Instructions

  const MemSize := 0x1000
  const ProgramStart := 0x200
  const RegCount := 16
  const StackSize := 16
  /** Register 15 receives carry, borrow and shifted-out bits. */
  const Flag := 0xF

  datatype FaultKind =
    | PcOutOfBounds      // fetch would read past the last byte of memory
    | StackOverflow      // call with every usable stack slot taken
    | StackUnderflow     // return with an empty stack
    | IndexOverflow      // the index register would exceed 16 bits
    | MemoryOutOfBounds  // an indexed access would reach past the last byte

  datatype Outcome = Continue | Unknown(word: bv16) | Halted | Fault(kind: FaultKind)

  /** The outcomes that end a run. */
  predicate Stops(o: Outcome) {
    o.Halted? || o.Fault?
  }

  /** The whole machine. `output` stands for the bytes the print
      instructions send to standard output. */
  datatype State = State(
    mem: seq<bv8>,
    regs: seq<bv8>,
    i: U16,
    pc: U16,
    sp: nat,
    stack: seq<U16>,
    output: seq<bv8>)

  predicate Valid(s: State) {
    |s.mem| == MemSize && |s.regs| == RegCount && |s.stack| == StackSize && s.sp < StackSize
  }

  datatype Transition = Transition(outcome: Outcome, state: State)

  function Continued(s: State): Transition {
    Transition(Continue, s)
  }

  /** The state of a new machine: everything zero except `pc`. */
  function Initial(): (s: State)
    ensures Valid(s)
  {
    State(seq(MemSize, _ => 0), seq(RegCount, _ => 0), 0, ProgramStart, 0, seq(StackSize, _ => 0), [])
  }

  /** `m` with `data` written over it starting at position `at`. */
  function Overwrite(m: seq<bv8>, at: nat, data: seq<bv8>): (r: seq<bv8>)
    requires at + |data| <= |m|
    ensures |r| == |m|
    ensures forall a :: 0 <= a < |m| ==> r[a] == if at <= a < at + |data| then data[a - at] else m[a]
  {
    m[..at] + data + m[at + |data|..]
  }

  /** Whether a program fits between the program start and the end of memory. */
  predicate Fits(program: seq<bv8>) {
    |program| <= MemSize - ProgramStart
  }

  /** `load`: the program copied into memory from the program start on. */
  function Loaded(s: State, program: seq<bv8>): State
    requires Valid(s) && Fits(program)
  {
    s.(mem := Overwrite(s.mem, ProgramStart, program))
  }

  // ---------------------------------------------------------------------
  // The handlers, one per instruction, in the order of the opcode map.
  // Register indices are below 16 because the decoder extracts nibbles.

  /** 0x0: return from a subroutine. */
  function Ret(s: State): (t: Transition)
    requires Valid(s)
    ensures Valid(t.state)
  {
    if s.sp == 0 then Transition(Fault(StackUnderflow), s)
    else Continued(s.(pc := s.stack[s.sp], sp := s.sp - 1))
  }

  /** 0x1nnn: jump. */
  function Jmp(s: State, addr: U16): (r: State)
    requires Valid(s)
    ensures Valid(r)
  {
    s.(pc := addr)
  }

  /** 0x2nnn: call. The stack pointer moves before the push, so slot 0 is
      never written and at most 15 calls can be nested. */
  function Call(s: State, addr: U16): (t: Transition)
    requires Valid(s)
    ensures Valid(t.state)
  {
    if s.sp + 1 == StackSize then Transition(Fault(StackOverflow), s)
    else Continued(s.(sp := s.sp + 1, stack := s.stack[s.sp + 1 := s.pc], pc := addr))
  }

  /** Skip the next instruction when `cond` holds. */
  function SkipIf(s: State, cond: bool): State
    requires s.pc + 2 < 0x1_0000
  {
    if cond then s.(pc := s.pc + 2) else s
  }

  /** 0x3xkk: skip if register x equals kk. */
  function Eq(s: State, x: nat, kk: bv8): (r: State)
    requires Valid(s) && x < RegCount && s.pc + 2 < 0x1_0000
    ensures Valid(r)
  {
    SkipIf(s, s.regs[x] == kk)
  }

  /** 0x4xkk: skip if register x differs from kk. */
  function Neq(s: State, x: nat, kk: bv8): (r: State)
    requires Valid(s) && x < RegCount && s.pc + 2 < 0x1_0000
    ensures Valid(r)
  {
    SkipIf(s, s.regs[x] != kk)
  }

  /** 0x5xy_: skip if registers x and y are equal. */
  function EqXY(s: State, x: nat, y: nat): (r: State)
    requires Valid(s) && x < RegCount && y < RegCount && s.pc + 2 < 0x1_0000
    ensures Valid(r)
  {
    SkipIf(s, s.regs[x] == s.regs[y])
  }

  /** 0x6xkk: load kk into register x. */
  function Ld(s: State, x: nat, kk: bv8): (r: State)
    requires Valid(s) && x < RegCount
    ensures Valid(r)
  {
    s.(regs := s.regs[x := kk])
  }

  /** 0x7xkk: add kk to register x, wrapping, without touching the flag. */
  function Add(s: State, x: nat, kk: bv8): (r: State)
    requires Valid(s) && x < RegCount
    ensures Valid(r)
  {
    s.(regs := s.regs[x := WrappingAdd(s.regs[x], kk)])
  }

  /** 0x8xy0: copy register y into register x. */
  function LdXY(s: State, x: nat, y: nat): (r: State)
    requires Valid(s) && x < RegCount && y < RegCount
    ensures Valid(r)
  {
    s.(regs := s.regs[x := s.regs[y]])
  }

  /** 0x8xy1: register x |= register y. */
  function Or(s: State, x: nat, y: nat): (r: State)
    requires Valid(s) && x < RegCount && y < RegCount
    ensures Valid(r)
  {
    s.(regs := s.regs[x := s.regs[x] | s.regs[y]])
  }

  /** 0x8xy2: register x &= register y. */
  function And(s: State, x: nat, y: nat): (r: State)
    requires Valid(s) && x < RegCount && y < RegCount
    ensures Valid(r)
  {
    s.(regs := s.regs[x := s.regs[x] & s.regs[y]])
  }

  /** 0x8xy3: register x ^= register y. */
  function Xor(s: State, x: nat, y: nat): (r: State)
    requires Valid(s) && x < RegCount && y < RegCount
    ensures Valid(r)
  {
    s.(regs := s.regs[x := s.regs[x] ^ s.regs[y]])
  }

  /** 0x8xy4: add register y to register x; the flag, written last, is the carry. */
  function AddXY(s: State, x: nat, y: nat): (r: State)
    requires Valid(s) && x < RegCount && y < RegCount
    ensures Valid(r)
  {
    var (sum, carry) := OverflowingAdd(s.regs[x], s.regs[y]);
    s.(regs := s.regs[x := sum][Flag := if carry then 1 else 0])
  }

  /** 0x8xy5: subtract register y from register x; the flag, written last,
      is 1 when there was no borrow. */
  function SubXY(s: State, x: nat, y: nat): (r: State)
    requires Valid(s) && x < RegCount && y < RegCount
    ensures Valid(r)
  {
    var (diff, borrow) := OverflowingSub(s.regs[x], s.regs[y]);
    s.(regs := s.regs[x := diff][Flag := if borrow then 0 else 1])
  }

  /** 0x8xy6: the flag, written first, is the low bit of register x; then
      register x is shifted right in place. For x = 15 the shift therefore
      applies to the flag just written. */
  function Shr(s: State, x: nat): (r: State)
    requires Valid(s) && x < RegCount
    ensures Valid(r)
  {
    var flagged := s.regs[Flag := ShiftRight(s.regs[x]).1];
    s.(regs := flagged[x := ShiftRight(flagged[x]).0])
  }

  /** 0x8xy7: register x := register y - register x; the flag, written last,
      is 1 when there was no borrow. */
  function SubnXY(s: State, x: nat, y: nat): (r: State)
    requires Valid(s) && x < RegCount && y < RegCount
    ensures Valid(r)
  {
    var (diff, borrow) := OverflowingSub(s.regs[y], s.regs[x]);
    s.(regs := s.regs[x := diff][Flag := if borrow then 0 else 1])
  }

  /** 0x8xyE: the flag, written first, is the high bit of register x; then
      register x is shifted left in place. For x = 15 the shift therefore
      applies to the flag just written. */
  function Shl(s: State, x: nat): (r: State)
    requires Valid(s) && x < RegCount
    ensures Valid(r)
  {
    var flagged := s.regs[Flag := ShiftLeft(s.regs[x]).1];
    s.(regs := flagged[x := ShiftLeft(flagged[x]).0])
  }

  /** 0x9xy_: skip if registers x and y differ. */
  function NeqXY(s: State, x: nat, y: nat): (r: State)
    requires Valid(s) && x < RegCount && y < RegCount && s.pc + 2 < 0x1_0000
    ensures Valid(r)
  {
    SkipIf(s, s.regs[x] != s.regs[y])
  }

  /** 0xAnnn: load the index register. */
  function LdI(s: State, addr: U16): (r: State)
    requires Valid(s)
    ensures Valid(r)
  {
    s.(i := addr)
  }

  /** 0xBnnn: jump to nnn plus register 0. */
  function JmpV0(s: State, addr: U16): (r: State)
    requires Valid(s) && addr + s.regs[0] as int < 0x1_0000
    ensures Valid(r)
  {
    s.(pc := addr + s.regs[0] as int)
  }

  /** 0xCx__: add register x to the index register. */
  function AddI(s: State, x: nat): (t: Transition)
    requires Valid(s) && x < RegCount
    ensures Valid(t.state)
  {
    if s.i + s.regs[x] as int >= 0x1_0000 then Transition(Fault(IndexOverflow), s)
    else Continued(s.(i := s.i + s.regs[x] as int))
  }

  /** The decimal digits of a byte as the BCD loop produces them: it stores
      the value modulo 10 and divides by 10, from the last digit to the first. */
  function BcdDigits(v: bv8): (d: seq<bv8>)
    ensures |d| == 3
    ensures d[0] < 10 && d[1] < 10 && d[2] < 10
    ensures 100 * d[0] as int + 10 * d[1] as int + d[2] as int == v as int
  {
    BcdArithmetic(v);
    [v / 10 / 10 % 10, v / 10 % 10, v % 10]
  }

  /** 0xDx__: store the decimal digits of register x at the index register. */
  function Bcd(s: State, x: nat): (t: Transition)
    requires Valid(s) && x < RegCount
    ensures Valid(t.state)
  {
    if s.i + 2 >= MemSize then Transition(Fault(MemoryOutOfBounds), s)
    else Continued(s.(mem := Overwrite(s.mem, s.i, BcdDigits(s.regs[x]))))
  }

  /** 0xEx__: store registers 0 to x in memory from the index register on. */
  function Ld0X(s: State, x: nat): (t: Transition)
    requires Valid(s) && x < RegCount
    ensures Valid(t.state)
  {
    if s.i + x >= MemSize then Transition(Fault(MemoryOutOfBounds), s)
    else Continued(s.(mem := Overwrite(s.mem, s.i, s.regs[..x + 1])))
  }

  /** 0xFx_0: load registers 0 to x from memory from the index register on. */
  function LdX0(s: State, x: nat): (t: Transition)
    requires Valid(s) && x < RegCount
    ensures Valid(t.state)
  {
    if s.i + x >= MemSize then Transition(Fault(MemoryOutOfBounds), s)
    else Continued(s.(regs := Overwrite(s.regs, 0, s.mem[s.i..s.i + x + 1])))
  }

  /** 0xFx_1: print registers 0 to x. */
  function Out(s: State, x: nat): (r: State)
    requires Valid(s) && x < RegCount
    ensures Valid(r)
  {
    s.(output := s.output + s.regs[..x + 1])
  }

  /** 0xFx_2: print the x + 1 bytes of memory at the index register. The
      bytes are printed one at a time, so when the block runs past the end of
      memory the cells up to the last one are printed before the fault. */
  function OutI(s: State, x: nat): (t: Transition)
    requires Valid(s) && x < RegCount
    ensures Valid(t.state)
  {
    if s.i + x >= MemSize then
      var printed := if s.i < MemSize then s.mem[s.i..] else [];
      Transition(Fault(MemoryOutOfBounds), s.(output := s.output + printed))
    else Continued(s.(output := s.output + s.mem[s.i..s.i + x + 1]))
  }

  // ---------------------------------------------------------------------
  // The fetch-decode-execute cycle.

  /** Whether both bytes at `pc` lie inside memory. */
  predicate CanFetch(s: State) {
    s.pc + 1 < MemSize
  }

  /** `fetch`: the big-endian word at `pc`, and the state with `pc` moved past it. */
  function Fetch(s: State): (r: (Instruction, State))
    requires Valid(s) && CanFetch(s)
    ensures r.0.word as int == s.mem[s.pc] as int * 0x100 + s.mem[s.pc + 1] as int
    ensures Valid(r.1) && r.1.pc == s.pc + 2
  {
    (FromBytes([s.mem[s.pc], s.mem[s.pc + 1]]), s.(pc := s.pc + 2))
  }

  /** Family 0x8: register-to-register operations, selected by n. */
  function ExecuteAlu(s: State, ins: Instruction): (t: Transition)
    requires Valid(s)
    ensures Valid(t.state)
  {
    var x, y := ins.X(), ins.Y();
    match ins.N()
    case 0x0 => Continued(LdXY(s, x, y))
    case 0x1 => Continued(Or(s, x, y))
    case 0x2 => Continued(And(s, x, y))
    case 0x3 => Continued(Xor(s, x, y))
    case 0x4 => Continued(AddXY(s, x, y))
    case 0x5 => Continued(SubXY(s, x, y))
    case 0x6 => Continued(Shr(s, x))
    case 0x7 => Continued(SubnXY(s, x, y))
    case 0xE => Continued(Shl(s, x))
    case _ => Transition(Unknown(ins.word), s)
  }

  /** Family 0xF: block load, printing and halt, selected by n. */
  function ExecuteBlock(s: State, ins: Instruction): (t: Transition)
    requires Valid(s)
    ensures Valid(t.state)
  {
    var x := ins.X();
    match ins.N()
    case 0x0 => LdX0(s, x)
    case 0x1 => Continued(Out(s, x))
    case 0x2 => OutI(s, x)
    case 0xF => Transition(Halted, s)
    case _ => Transition(Unknown(ins.word), s)
  }

  /** The second half of `dispatch`: run the handler that `ins` selects on a
      state whose `pc` has already moved past `ins`. */
  function Execute(s: State, ins: Instruction): (t: Transition)
    requires Valid(s) && s.pc + 2 < 0x1_0000
    ensures Valid(t.state)
  {
    var op, x, y, kk, nnn := ins.Opcode(), ins.X(), ins.Y(), ins.Kk(), ins.Nnn();
    assert x < RegCount && y < RegCount && nnn < 0x1000;
    match op
    case 0x0 => Ret(s)
    case 0x1 => Continued(Jmp(s, nnn))
    case 0x2 => Call(s, nnn)
    case 0x3 => Continued(Eq(s, x, kk))
    case 0x4 => Continued(Neq(s, x, kk))
    case 0x5 => Continued(EqXY(s, x, y))
    case 0x6 => Continued(Ld(s, x, kk))
    case 0x7 => Continued(Add(s, x, kk))
    case 0x8 => ExecuteAlu(s, ins)
    case 0x9 => Continued(NeqXY(s, x, y))
    case 0xA => Continued(LdI(s, nnn))
    case 0xB => Continued(JmpV0(s, nnn))
    case 0xC => AddI(s, x)
    case 0xD => Bcd(s, x)
    case 0xE => Ld0X(s, x)
    case 0xF => ExecuteBlock(s, ins)
    case _ => Transition(Unknown(ins.word), s)
  }

  /** `dispatch`: one fetch-decode-execute cycle. */
  function Step(s: State): (t: Transition)
    requires Valid(s)
    ensures Valid(t.state)
  {
    if !CanFetch(s) then Transition(Fault(PcOutOfBounds), s)
    else
      var (ins, fetched) := Fetch(s);
      Execute(fetched, ins)
  }

  /** `run`, bounded by `fuel` cycles: it stops at the first halt or fault,
      and otherwise ends with `Continue` when the fuel is spent. */
  function Run(s: State, fuel: nat): (t: Transition)
    requires Valid(s)
    ensures Valid(t.state)
    decreases fuel, 0
  {
    if fuel == 0 then Continued(s) else Then(Step(s), fuel - 1)
  }

  /** What a run makes of transition `t` with `fuel` cycles left: `t` itself
      if it stopped, otherwise the run from the state it reached. */
  function Then(t: Transition, fuel: nat): (r: Transition)
    requires Valid(t.state)
    ensures Valid(r.state)
    decreases fuel, 1
  {
    if Stops(t.outcome) then t else Run(t.state, fuel)
  }

  /** One round of `Run`: the step `t` that `s` takes, then the rest of the fuel. */
  lemma RunUnfold(s: State, fuel: nat, t: Transition)
    requires Valid(s) && fuel > 0 && t == Step(s)
    ensures Run(s, fuel) == if Stops(t.outcome) then t else Run(t.state, fuel - 1)
  {
    assert Run(s, fuel) == Then(t, fuel - 1);
  }

  lemma BcdArithmetic(v: bv8)
    ensures v / 10 / 10 % 10 < 10 && v / 10 % 10 < 10 && v % 10 < 10
    ensures 100 * (v / 10 / 10 % 10) as int + 10 * (v / 10 % 10) as int + (v % 10) as int == v as int
  {
  }
}
