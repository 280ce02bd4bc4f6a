/** What the execution engine guarantees, stated over the operations of
    module Semantics. The `Machine` methods of module Engine are proved equal
    to those operations, so every fact here holds of the machine as well. */
module Properties {
  import opened Words
  import opened Instructions
  import opened Semantics

  // ---------------------------------------------------------------------
  // Loading

  /** `load` puts byte k of the program at address 512 + k and changes
      nothing else. */
  lemma LoadPlacesProgram(s: State, program: seq<bv8>)
    requires Valid(s) && Fits(program)
    ensures forall k :: 0 <= k < |program| ==> Loaded(s, program).mem[ProgramStart + k] == program[k]
    ensures forall a :: 0 <= a < MemSize && !(ProgramStart <= a < ProgramStart + |program|) ==>
      Loaded(s, program).mem[a] == s.mem[a]
    ensures Loaded(s, program) == s.(mem := Loaded(s, program).mem)
  {
  }

  // ---------------------------------------------------------------------
  // Register arithmetic

  /** 0x7xkk adds modulo 256 and touches no other register, not even the flag. */
  lemma AddEffect(s: State, x: nat, kk: bv8)
    requires Valid(s) && x < RegCount
    ensures Add(s, x, kk).regs[x] as int == (s.regs[x] as int + kk as int) % 0x100
    ensures forall j :: 0 <= j < RegCount && j != x ==> Add(s, x, kk).regs[j] == s.regs[j]
    ensures Add(s, x, kk) == s.(regs := Add(s, x, kk).regs)
  {
  }

  /** 0x8xy4: the flag is the carry and, together with register x, holds the
      exact sum. The flag is written last, so for x = 15 only the carry remains. */
  lemma AddXYEffect(s: State, x: nat, y: nat)
    requires Valid(s) && x < RegCount && y < RegCount
    ensures var r, a, b := AddXY(s, x, y), s.regs[x] as int, s.regs[y] as int;
      r.regs[Flag] == (if a + b >= 0x100 then 1 else 0) &&
      (x != Flag ==> r.regs[x] as int + 0x100 * r.regs[Flag] as int == a + b) &&
      (forall j :: 0 <= j < RegCount && j != x && j != Flag ==> r.regs[j] == s.regs[j]) &&
      r == s.(regs := r.regs)
  {
    OverflowingAddExact(s.regs[x], s.regs[y]);
  }

  /** 0x8xy5: the flag is 1 exactly when nothing was borrowed, and register x
      minus 256 per borrow is the exact difference. */
  lemma SubXYEffect(s: State, x: nat, y: nat)
    requires Valid(s) && x < RegCount && y < RegCount
    ensures var r, a, b := SubXY(s, x, y), s.regs[x] as int, s.regs[y] as int;
      r.regs[Flag] == (if a >= b then 1 else 0) &&
      (x != Flag ==> r.regs[x] as int - 0x100 * (1 - r.regs[Flag] as int) == a - b) &&
      (forall j :: 0 <= j < RegCount && j != x && j != Flag ==> r.regs[j] == s.regs[j]) &&
      r == s.(regs := r.regs)
  {
    OverflowingSubExact(s.regs[x], s.regs[y]);
  }

  /** 0x8xy7: as 0x8xy5 with the operands swapped, register y minus register x. */
  lemma SubnXYEffect(s: State, x: nat, y: nat)
    requires Valid(s) && x < RegCount && y < RegCount
    ensures var r, a, b := SubnXY(s, x, y), s.regs[x] as int, s.regs[y] as int;
      r.regs[Flag] == (if b >= a then 1 else 0) &&
      (x != Flag ==> r.regs[x] as int - 0x100 * (1 - r.regs[Flag] as int) == b - a) &&
      (forall j :: 0 <= j < RegCount && j != x && j != Flag ==> r.regs[j] == s.regs[j]) &&
      r == s.(regs := r.regs)
  {
    OverflowingSubExact(s.regs[y], s.regs[x]);
  }

  /** 0x8xy6: for x other than 15 the flag is the bit shifted out and nothing
      is lost; for x = 15 the shift applies to that bit, which leaves 0. */
  lemma ShrEffect(s: State, x: nat)
    requires Valid(s) && x < RegCount
    ensures var r, a := Shr(s, x), s.regs[x] as int;
      (x != Flag ==> r.regs[Flag] as int == a % 2 && 2 * r.regs[x] as int + r.regs[Flag] as int == a) &&
      (x == Flag ==> r.regs[Flag] == 0) &&
      (forall j :: 0 <= j < RegCount && j != x && j != Flag ==> r.regs[j] == s.regs[j]) &&
      r == s.(regs := r.regs)
  {
    ShiftRightExact(s.regs[x]);
  }

  /** 0x8xyE: for x other than 15 the flag is the bit shifted out and nothing
      is lost; for x = 15 the shift applies to that bit, which leaves 0 or 2. */
  lemma ShlEffect(s: State, x: nat)
    requires Valid(s) && x < RegCount
    ensures var r, a := Shl(s, x), s.regs[x] as int;
      (x != Flag ==> r.regs[Flag] as int == a / 0x80 && 0x100 * r.regs[Flag] as int + r.regs[x] as int == 2 * a) &&
      (x == Flag ==> r.regs[Flag] as int == 2 * (a / 0x80)) &&
      (forall j :: 0 <= j < RegCount && j != x && j != Flag ==> r.regs[j] == s.regs[j]) &&
      r == s.(regs := r.regs)
  {
    ShiftLeftExact(s.regs[x]);
  }

  /** 0x8xy3 applied twice with two different registers restores the machine. */
  lemma XorTwice(s: State, x: nat, y: nat)
    requires Valid(s) && x < RegCount && y < RegCount && x != y
    ensures Xor(Xor(s, x, y), x, y) == s
  {
    XorInvolution(s.regs[x], s.regs[y]);
    assert Xor(Xor(s, x, y), x, y).regs == s.regs;
  }

  /** 0x8xy0 makes register x equal to register y and changes nothing else. */
  lemma LdXYEffect(s: State, x: nat, y: nat)
    requires Valid(s) && x < RegCount && y < RegCount
    ensures LdXY(s, x, y).regs[x] == s.regs[y]
    ensures forall j :: 0 <= j < RegCount && j != x ==> LdXY(s, x, y).regs[j] == s.regs[j]
    ensures LdXY(s, x, y) == s.(regs := LdXY(s, x, y).regs)
  {
  }

  // ---------------------------------------------------------------------
  // Memory blocks

  /** The BCD digits are the hundreds, tens and ones of the value. */
  lemma BcdDigitsDecimal(v: bv8)
    ensures BcdDigits(v)[0] as int == v as int / 100
    ensures BcdDigits(v)[1] as int == v as int / 10 % 10
    ensures BcdDigits(v)[2] as int == v as int % 10
  {
    var d := BcdDigits(v);
    var h, t, o := d[0] as int, d[1] as int, d[2] as int;
    DecimalQuotRem(v as int, h * 10 + t, o);
    DecimalQuotRem(h * 10 + t, h, t);
    DivideTwice(v as int);
  }

  /** 0xDx__: three digits below 10 at i, i + 1, i + 2 whose decimal value is
      register x; every other cell and all other state unchanged. Faults
      exactly when i + 2 is outside memory. */
  lemma BcdEffect(s: State, x: nat)
    requires Valid(s) && x < RegCount
    ensures Bcd(s, x).outcome == (if s.i + 2 >= MemSize then Fault(MemoryOutOfBounds) else Continue)
    ensures Bcd(s, x).outcome.Fault? ==> Bcd(s, x).state == s
    ensures Bcd(s, x).outcome == Continue ==>
      var m := Bcd(s, x).state.mem;
      m[s.i] < 10 && m[s.i + 1] < 10 && m[s.i + 2] < 10 &&
      100 * m[s.i] as int + 10 * m[s.i + 1] as int + m[s.i + 2] as int == s.regs[x] as int &&
      (forall a :: 0 <= a < MemSize && !(s.i <= a < s.i + 3) ==> m[a] == s.mem[a]) &&
      Bcd(s, x).state == s.(mem := m)
  {
  }

  /** The digits of 205 are 2, 0, 5. */
  lemma BcdOf205()
    ensures BcdDigits(205) == [2, 0, 5]
  {
  }

  /** 0xEx__: registers 0 to x land at i to i + x; every other cell and all
      other state unchanged. Faults exactly when i + x is outside memory. */
  lemma Ld0XEffect(s: State, x: nat)
    requires Valid(s) && x < RegCount
    ensures Ld0X(s, x).outcome == (if s.i + x >= MemSize then Fault(MemoryOutOfBounds) else Continue)
    ensures Ld0X(s, x).outcome.Fault? ==> Ld0X(s, x).state == s
    ensures Ld0X(s, x).outcome == Continue ==>
      (forall k :: 0 <= k <= x ==> Ld0X(s, x).state.mem[s.i + k] == s.regs[k]) &&
      (forall a :: 0 <= a < MemSize && !(s.i <= a <= s.i + x) ==> Ld0X(s, x).state.mem[a] == s.mem[a]) &&
      Ld0X(s, x).state == s.(mem := Ld0X(s, x).state.mem)
  {
  }

  /** 0xFx_0: cells i to i + x land in registers 0 to x; the other registers
      and all other state unchanged. Faults exactly when i + x is outside memory. */
  lemma LdX0Effect(s: State, x: nat)
    requires Valid(s) && x < RegCount
    ensures LdX0(s, x).outcome == (if s.i + x >= MemSize then Fault(MemoryOutOfBounds) else Continue)
    ensures LdX0(s, x).outcome.Fault? ==> LdX0(s, x).state == s
    ensures LdX0(s, x).outcome == Continue ==>
      (forall k :: 0 <= k <= x ==> LdX0(s, x).state.regs[k] == s.mem[s.i + k]) &&
      (forall j :: x < j < RegCount ==> LdX0(s, x).state.regs[j] == s.regs[j]) &&
      LdX0(s, x).state == s.(regs := LdX0(s, x).state.regs)
  {
  }

  /** Loading back the registers just stored changes nothing. */
  lemma StoreThenLoad(s: State, x: nat)
    requires Valid(s) && x < RegCount && s.i + x < MemSize
    ensures LdX0(Ld0X(s, x).state, x) == Ld0X(s, x)
  {
    var t := Ld0X(s, x).state;
    assert LdX0(t, x).state.regs == t.regs;
  }

  /** Storing the registers just loaded changes nothing. */
  lemma LoadThenStore(s: State, x: nat)
    requires Valid(s) && x < RegCount && s.i + x < MemSize
    ensures Ld0X(LdX0(s, x).state, x) == LdX0(s, x)
  {
    var t := LdX0(s, x).state;
    assert Ld0X(t, x).state.mem == t.mem;
  }

  /** 0xFx_1 appends registers 0 to x to the output and changes nothing else. */
  lemma OutEffect(s: State, x: nat)
    requires Valid(s) && x < RegCount
    ensures |Out(s, x).output| == |s.output| + x + 1
    ensures forall k :: 0 <= k <= x ==> Out(s, x).output[|s.output| + k] == s.regs[k]
    ensures Out(s, x) == s.(output := Out(s, x).output) && s.output <= Out(s, x).output
  {
  }

  /** 0xFx_2 faults exactly when i + x is outside memory. Either way it only
      appends to the output: the x + 1 cells at i when they all lie in memory,
      and otherwise the cells from i to the end of memory (none when i itself
      is outside). */
  lemma OutIEffect(s: State, x: nat)
    requires Valid(s) && x < RegCount
    ensures OutI(s, x).outcome == (if s.i + x >= MemSize then Fault(MemoryOutOfBounds) else Continue)
    ensures var out := OutI(s, x).state.output;
      OutI(s, x).state == s.(output := out) && s.output <= out &&
      |out| == |s.output| + (if s.i + x < MemSize then x + 1 else if s.i < MemSize then MemSize - s.i else 0) &&
      forall j :: |s.output| <= j < |out| ==> out[j] == s.mem[s.i + (j - |s.output|)]
  {
  }

  // ---------------------------------------------------------------------
  // Subroutines

  /** A call faults exactly when 15 calls are already nested, a return exactly
      when none is. A call never writes stack slot 0. */
  lemma CallRetFaults(s: State, addr: U16)
    requires Valid(s)
    ensures Call(s, addr).outcome == (if s.sp == StackSize - 1 then Fault(StackOverflow) else Continue)
    ensures Ret(s).outcome == (if s.sp == 0 then Fault(StackUnderflow) else Continue)
    ensures Call(s, addr).state.stack[0] == s.stack[0]
  {
  }

  /** A call followed by a return restores `pc` and `sp`; only the stack slot
      the call pushed differs. */
  lemma CallThenRet(s: State, addr: U16)
    requires Valid(s) && s.sp < StackSize - 1
    ensures var c := Call(s, addr).state;
      c.pc == addr && c.sp == s.sp + 1 && c.stack[c.sp] == s.pc &&
      Ret(c) == Continued(s.(stack := c.stack))
    ensures forall k :: 0 <= k < StackSize && k != s.sp + 1 ==> Call(s, addr).state.stack[k] == s.stack[k]
  {
  }

  // ---------------------------------------------------------------------
  // One dispatch cycle

  /** The instruction that a cycle from `s` executes. */
  function Current(s: State): Instruction
    requires Valid(s) && CanFetch(s)
  {
    Fetch(s).0
  }

  /** The skip families: 0x3, 0x4, 0x5 and 0x9. */
  predicate IsSkip(ins: Instruction) {
    ins.Opcode() == 0x3 || ins.Opcode() == 0x4 || ins.Opcode() == 0x5 || ins.Opcode() == 0x9
  }

  /** Whether the skip instruction `ins` skips in state `s`. */
  predicate SkipTaken(s: State, ins: Instruction)
    requires Valid(s) && IsSkip(ins)
  {
    var x, y := ins.X(), ins.Y();
    if ins.Opcode() == 0x3 then s.regs[x] == ins.Kk()
    else if ins.Opcode() == 0x4 then s.regs[x] != ins.Kk()
    else if ins.Opcode() == 0x5 then s.regs[x] == s.regs[y]
    else s.regs[x] != s.regs[y]
  }

  /** A cycle that executes a skip moves `pc` on by 4 when the comparison
      holds and by 2 otherwise, and changes nothing else. */
  lemma SkipStep(s: State)
    requires Valid(s) && CanFetch(s) && IsSkip(Current(s))
    ensures Step(s) == Continued(s.(pc := if SkipTaken(s, Current(s)) then s.pc + 4 else s.pc + 2))
  {
  }

  /** The sub-opcodes that families 0x8 and 0xF do not recognise. */
  predicate Unrecognised(ins: Instruction) {
    (ins.Opcode() == 0x8 && !(ins.N() <= 0x7 || ins.N() == 0xE)) ||
    (ins.Opcode() == 0xF && !(ins.N() <= 0x2 || ins.N() == 0xF))
  }

  /** A cycle reports an unknown instruction exactly for the unrecognised
      sub-opcodes, and then it only moves `pc` past the instruction. */
  lemma UnknownStep(s: State)
    requires Valid(s) && CanFetch(s)
    ensures Step(s).outcome.Unknown? <==> Unrecognised(Current(s))
    ensures Step(s).outcome.Unknown? ==> Step(s) == Transition(Unknown(Current(s).word), s.(pc := s.pc + 2))
  {
    var ins := Current(s);
    var f := Fetch(s).1;
    if ins.Opcode() == 0x8 {
      assert Step(s) == ExecuteAlu(f, ins);
    } else if ins.Opcode() == 0xF {
      assert Step(s) == ExecuteBlock(f, ins);
    } else {
      NotUnknownOutsideFamilies(f, ins);
    }
  }

  /** A cycle halts exactly on 0xF__F, whatever x and y are, and then it only
      moves `pc` past the instruction. */
  lemma HaltStep(s: State)
    requires Valid(s) && CanFetch(s)
    ensures Step(s).outcome == Halted <==> Current(s).Opcode() == 0xF && Current(s).N() == 0xF
    ensures Step(s).outcome == Halted ==> Step(s).state == s.(pc := s.pc + 2)
  {
    var ins := Current(s);
    var f := Fetch(s).1;
    if ins.Opcode() != 0xF {
      NotHaltedOutsideBlock(f, ins);
    }
  }

  /** 0xBnnn jumps to nnn + register 0, which is at most 4095 + 255 = 4350. */
  lemma JmpV0Step(s: State)
    requires Valid(s) && CanFetch(s) && Current(s).Opcode() == 0xB
    ensures Step(s) == Continued(s.(pc := Current(s).Nnn() + s.regs[0] as int))
    ensures Step(s).state.pc <= 4350
  {
    var ins, f := Current(s), Fetch(s).1;
    assert Step(s) == Execute(f, ins);
    assert Execute(f, ins) == Continued(JmpV0(f, ins.Nnn()));
  }

  /** A cycle faults on the fetch exactly when `pc + 1` is outside memory;
      the handlers' own faults are of other kinds. */
  lemma FetchFaultStep(s: State)
    requires Valid(s)
    ensures Step(s).outcome == Fault(PcOutOfBounds) <==> !CanFetch(s)
    ensures !CanFetch(s) ==> Step(s).state == s
  {
    if CanFetch(s) {
      NoFetchFaultInExecute(Fetch(s).1, Current(s));
    }
  }

  /** The fetch reads the big-endian word at `pc`: encoding it again gives the
      two bytes in memory. */
  lemma FetchReadsWord(s: State)
    requires Valid(s) && CanFetch(s)
    ensures Current(s).AsBytes() == [s.mem[s.pc], s.mem[s.pc + 1]]
    ensures Fetch(s).1 == s.(pc := s.pc + 2)
  {
    AsBytesFromBytes(s.mem[s.pc], s.mem[s.pc + 1]);
  }

  /** A cycle only ever appends to the output. */
  lemma StepExtendsOutput(s: State)
    requires Valid(s)
    ensures s.output <= Step(s).state.output
  {
    if CanFetch(s) {
      var ins, f := Current(s), Fetch(s).1;
      if ins.Opcode() == 0xF {
        assert Step(s) == ExecuteBlock(f, ins);
      } else {
        OutputOnlyInBlock(f, ins);
      }
    }
  }

  // ---------------------------------------------------------------------
  // Runs

  /** Running a + b cycles is running a cycles and then, unless that
      stopped, b more. */
  lemma {:induction false} RunAdditive(s: State, a: nat, b: nat)
    requires Valid(s)
    ensures Run(s, a + b) == Then(Run(s, a), b)
    decreases a, 1
  {
    if a == 0 {
      assert Then(Continued(s), b) == Run(s, b);
    } else if Stops(Step(s).outcome) {
      RunAdditiveStopped(s, a, b);
    } else {
      RunAdditiveContinued(s, a, b);
    }
  }

  /** Once a run has stopped, more fuel does not change its result. */
  lemma RunStopsForGood(s: State, a: nat, b: nat)
    requires Valid(s) && Stops(Run(s, a).outcome)
    ensures Run(s, a + b) == Run(s, a)
  {
    RunAdditive(s, a, b);
  }

  /** A run only ever appends to the output. */
  lemma {:induction false} RunExtendsOutput(s: State, fuel: nat)
    requires Valid(s)
    ensures s.output <= Run(s, fuel).state.output
    decreases fuel, 1
  {
    if fuel > 0 {
      RunExtendsOutputStep(s, fuel);
    }
  }

  /** A program that loads 0x11 and 0x22, adds them, prints register 0 and halts. */
  const Demo: seq<bv8> := [0x60, 0x11, 0x61, 0x22, 0x80, 0x14, 0xF0, 0x01, 0xFF, 0xFF]

  /** The demo halts after five cycles having printed 0x33, with no carry. */
  lemma DemoRun()
    ensures Fits(Demo)
    ensures var t := Run(Loaded(Initial(), Demo), 5);
      t.outcome == Halted && t.state.pc == ProgramStart + 10 &&
      t.state.regs[0] == 0x33 && t.state.regs[1] == 0x22 && t.state.regs[Flag] == 0 &&
      t.state.output == [0x33]
  {
    var s0 := Loaded(Initial(), Demo);
    LoadPlacesProgram(Initial(), Demo);
    var s1 := DemoCycle(s0, 0x60, 0x11);
    var s2 := DemoCycle(s1, 0x61, 0x22);
    var s3 := DemoCycle(s2, 0x80, 0x14);
    var s4 := DemoCycle(s3, 0xF0, 0x01);
    assert s4.output == [0x33];
    assert s4.mem[s4.pc] == 0xFF && s4.mem[s4.pc + 1] == 0xFF;
    HaltStep(s4);
    assert Run(s3, 2) == Run(s4, 1);
  }

  // ---------------------------------------------------------------------
  // The fetch guard

  /** The guard the original fetch applies before reading: `pc` inside memory. */
  predicate FetchGuardAsWritten(s: State) {
    s.pc < MemSize
  }

  /** The guard as written lets `pc = 4095` through, and that fetch reads the
      byte at 4096, past the end of memory. */
  lemma FetchGuardMissesLastByte()
    ensures var s := Initial().(pc := MemSize - 1);
      Valid(s) && FetchGuardAsWritten(s) && !(s.pc + 1 < MemSize)
  {
  }

  /** The corrected guard admits exactly the states whose two instruction
      bytes both lie in memory; it differs from the written one only at 4095. */
  lemma FetchGuardCorrected(s: State)
    requires Valid(s)
    ensures CanFetch(s) <==> s.pc < MemSize && s.pc + 1 < MemSize
    ensures FetchGuardAsWritten(s) && !CanFetch(s) <==> s.pc == MemSize - 1
  {
  }

  // ---------------------------------------------------------------------
  // Case analysis over the opcode map, one family at a time.

  lemma NotUnknownOutsideFamilies(s: State, ins: Instruction)
    requires Valid(s) && s.pc + 2 < 0x1_0000 && ins.Opcode() != 0x8 && ins.Opcode() != 0xF
    ensures !Execute(s, ins).outcome.Unknown?
  {
  }

  lemma NotHaltedOutsideBlock(s: State, ins: Instruction)
    requires Valid(s) && s.pc + 2 < 0x1_0000 && ins.Opcode() != 0xF
    ensures Execute(s, ins).outcome != Halted
  {
  }

  lemma NoFetchFaultInExecute(s: State, ins: Instruction)
    requires Valid(s) && s.pc + 2 < 0x1_0000
    ensures Execute(s, ins).outcome != Fault(PcOutOfBounds)
  {
  }

  lemma OutputOnlyInBlock(s: State, ins: Instruction)
    requires Valid(s) && s.pc + 2 < 0x1_0000 && ins.Opcode() != 0xF
    ensures Execute(s, ins).state.output == s.output
  {
  }

  /** One demo cycle: the instruction `b0 b1` at `pc` executes and does not stop. */
  lemma DemoCycle(s: State, b0: bv8, b1: bv8) returns (r: State)
    requires Valid(s) && CanFetch(s) && s.mem[s.pc] == b0 && s.mem[s.pc + 1] == b1
    requires !Stops(Step(s).outcome)
    ensures r == Step(s).state && Valid(r)
    ensures forall fuel: nat :: Run(s, fuel + 1) == Run(r, fuel)
  {
    r := Step(s).state;
    forall fuel: nat
      ensures Run(s, fuel + 1) == Run(r, fuel)
    {
      RunUnfold(s, fuel + 1, Step(s));
    }
  }

  lemma RunAdditiveStopped(s: State, a: nat, b: nat)
    requires Valid(s) && a > 0 && Stops(Step(s).outcome)
    ensures Run(s, a + b) == Then(Run(s, a), b)
  {
    var t := Step(s);
    RunUnfold(s, a + b, t);
    RunUnfold(s, a, t);
  }

  lemma {:induction false} RunAdditiveContinued(s: State, a: nat, b: nat)
    requires Valid(s) && a > 0 && !Stops(Step(s).outcome)
    ensures Run(s, a + b) == Then(Run(s, a), b)
    decreases a, 0
  {
    var t := Step(s);
    RunAdditive(t.state, a - 1, b);
    RunUnfold(s, a + b, t);
    RunUnfold(s, a, t);
  }

  lemma {:induction false} RunExtendsOutputStep(s: State, fuel: nat)
    requires Valid(s) && fuel > 0
    ensures s.output <= Run(s, fuel).state.output
    decreases fuel, 0
  {
    var t := Step(s);
    StepExtendsOutput(s);
    RunUnfold(s, fuel, t);
    if !Stops(t.outcome) {
      RunExtendsOutput(t.state, fuel - 1);
      PrefixTransitive(s.output, t.state.output, Run(t.state, fuel - 1).state.output);
    }
  }

  lemma PrefixTransitive(a: seq<bv8>, b: seq<bv8>, c: seq<bv8>)
    requires a <= b && b <= c
    ensures a <= c
  {
  }

  lemma DecimalQuotRem(t: int, q: int, r: int)
    requires 0 <= r < 10 && t == q * 10 + r
    ensures t / 10 == q && t % 10 == r
  {
  }

  lemma DivideTwice(v: int)
    requires 0 <= v
    ensures v / 10 / 10 == v / 100
  {
  }
}
