# cure-8 in Dafny

cure-8 is a small 16-bit virtual CPU in the style of CHIP-8. It has its own
opcode map. For example, 0xC adds to the index register and 0xD stores BCD
digits. It has two parts:

- The **instruction decoder** (`src/instruction.rs`). A 16-bit word, read as
  the fields `opcode`, `nnn`, `x`, `y`, `kk` and `n` by fixed masks and
  shifts, and encoded as two bytes, most significant first.
- The **execution engine** (`src/machine.rs`). A machine with 4096 bytes of
  memory, sixteen 8-bit registers (register 15 is the carry/borrow flag), an
  index register `i`, a program counter `pc`, a stack pointer `sp` and a
  16-slot return stack. `load` copies a program to address 512. `fetch`
  reads the big-endian word at `pc` and moves `pc` on by two. `dispatch`
  selects one of about thirty handlers from the opcode, and from the low
  nibble `n` in families 0x8 and 0xF. `run` repeats `dispatch` until the
  program halts.

The project has five modules:

- `Words` (`words.dfy`): the Rust `u8` primitives the handlers use:
  `overflowing_add`, `wrapping_add`, `overflowing_sub` and the two shifts.
  Each is stated in integer arithmetic.
- `Instructions` (`instruction.dfy`): the decoder over `bv16`, its field
  ranges, the byte round trips, and how the fields reassemble the word.
- `Semantics` (`semantics.dfy`): the machine as a value (`State`), with one
  function per handler giving the post-state, plus `Fetch`, `Step` (one
  `dispatch`) and `Run` (a run bounded by `fuel` cycles).
  - A handler that can fail returns a `Transition`, an outcome together
    with a state.
  - A handler that would panic in the original reports `Fault` instead and
    leaves the state unchanged. The one exception is `out_i`: it keeps the
    bytes it printed before it reached the end of memory.
  - `exit` reports `Halted`.
  - An unrecognised instruction reports `Unknown`, and the run goes on, as
    it does in the original.
- `Engine` (`machine.dfy`): the `Machine` class.
  - Memory, registers and stack are arrays, updated in place by one method
    per handler. The loops of `load`, `bcd`, `ld_0x`, `ld_x0`, `out` and
    `out_i` are kept as loops.
  - Each handler method's postcondition says that the new state
    (`Snapshot()`) is what the `Semantics` function of the same name makes
    of the old one.
  - The other methods are tied to other functions. `Load` is tied to
    `Loaded`, `Dispatch` to `Step`, `Run` to `Run`, and the constructor to
    `Initial`. `Cycle` states one unfolding of `Run`. `Exit` and `Err` only
    name their outcome, `Halted` or `Unknown`, because they change nothing.
  - So every lemma in `Properties` holds of the machine too.
- `Properties` (`properties.dfy`): what the handlers, one cycle and whole
  runs guarantee, stated over `Semantics`. It ends with the demo program of
  `src/main.rs` run to its halt.

The functions in `Semantics` are the definitions the engine is proved
against. What they mean is stated by the `Properties` lemmas and the
`Engine` methods listed below.

## Model

| member | source | states |
|---|---|---|
| Words.OverflowingAdd | src/machine.rs:135 | the wrapped sum is (a + b) mod 256, and the overflow flag holds exactly when a + b ≥ 256 |
| Words.WrappingAdd | src/machine.rs:103 | the sum modulo 256 |
| Words.OverflowingSub | src/machine.rs:145 | the wrapped difference is (a − b) mod 256, and the overflow flag holds exactly when a < b |
| Words.ShiftRight | src/machine.rs:155-156 | `a >> 1` is a / 2, and the bit shifted out, `a & 1`, is a mod 2 |
| Words.ShiftLeft | src/machine.rs:174-175 | `a << 1` is 2a mod 256, and the bit shifted out, `a >> 7`, is a / 128 |
| Words.OverflowingAddExact | src/machine.rs:135 | result + 256·carry is exactly a + b |
| Words.OverflowingSubExact | src/machine.rs:145 | result − 256·borrow is exactly a − b |
| Words.ShiftRightExact | src/machine.rs:155-156 | 2·shifted + bit out is exactly a |
| Words.ShiftLeftExact | src/machine.rs:174-175 | 256·bit out + shifted is exactly 2a |
| Words.XorInvolution | src/machine.rs:126-128 | xor with the same byte twice gives the byte back, and a ^ a is 0 |
| Instructions.Instruction.Opcode | src/instruction.rs:18-20 | the opcode is below 16 |
| Instructions.Instruction.Nnn | src/instruction.rs:22-24 | nnn is below 4096 |
| Instructions.Instruction.X | src/instruction.rs:26-28 | x is below 16 |
| Instructions.Instruction.Y | src/instruction.rs:30-32 | y is below 16 |
| Instructions.Instruction.Kk | src/instruction.rs:34-36 | the low byte: with the high byte it makes up the word, 256·(w >> 8) + kk = w; its value is w mod 256 and y·16 + n (FieldsAsQuotients, FieldsNest) |
| Instructions.Instruction.N | src/instruction.rs:38-40 | n is below 16 |
| Instructions.Instruction.AsBytes | src/instruction.rs:46-48 | two bytes, high byte first, whose value 256·b0 + b1 is the word |
| Instructions.FromBytes | src/instruction.rs:50-52 | the word's value is 256·b0 + b1 |
| Instructions.FromBytesAsBytes | src/instruction.rs:46-52 | decoding the encoding of any word gives the word back |
| Instructions.AsBytesFromBytes | src/instruction.rs:46-52 | encoding the word decoded from any two bytes gives the bytes back |
| Instructions.Reassemble | src/instruction.rs:18-40 | opcode·4096 + x·256 + y·16 + n is the word, and so is opcode·4096 + nnn |
| Instructions.FieldsNest | src/instruction.rs:22-40 | kk = y·16 + n and nnn = x·256 + kk |
| Instructions.FieldsAsQuotients | src/instruction.rs:18-40 | each field is a quotient and remainder of the word: opcode = w / 4096, nnn = w mod 4096, x = w / 256 mod 16, y = w / 16 mod 16, kk = w mod 256, n = w mod 16 |
| Instructions.FieldsDetermineWord | src/instruction.rs:14-41 | two instructions are equal exactly when their opcode, x, y and n agree |
| Semantics.BcdDigits | src/machine.rs:211-217 | three digits, each below 10, whose decimal value 100·d0 + 10·d1 + d2 is the byte |
| Semantics.Fetch | src/machine.rs:264-272 | the instruction is the word 256·mem[pc] + mem[pc + 1], and pc moves on by 2 |
| Engine.Machine.constructor | src/machine.rs:20-29 | pc = 512; i, sp, memory, registers and stack all zero; the state equals `Initial()` |
| Engine.Machine.Load | src/machine.rs:33-37 | a program that fits is copied to memory from 512 on (`Loaded`); one that does not is refused with nothing written |
| Engine.Machine.Ret | src/machine.rs:47-50 | the new state is `Semantics.Ret` of the old: pc from stack[sp], sp − 1, and a fault when sp = 0 |
| Engine.Machine.Jmp | src/machine.rs:54-56 | the new state is `Semantics.Jmp`: pc = addr |
| Engine.Machine.Call | src/machine.rs:60-64 | the new state is `Semantics.Call`: sp + 1, old pc pushed in that slot, pc = addr, and a fault when sp = 15 |
| Engine.Machine.Eq | src/machine.rs:69-73 | the new state is `Semantics.Eq`: pc + 2 exactly when regs[x] = kk |
| Engine.Machine.Neq | src/machine.rs:78-82 | the new state is `Semantics.Neq`: pc + 2 exactly when regs[x] ≠ kk |
| Engine.Machine.EqXY | src/machine.rs:87-91 | the new state is `Semantics.EqXY`: pc + 2 exactly when regs[x] = regs[y] |
| Engine.Machine.Ld | src/machine.rs:95-97 | the new state is `Semantics.Ld`: regs[x] = kk |
| Engine.Machine.Add | src/machine.rs:102-104 | the new state is `Semantics.Add`: regs[x] gets the wrapping sum with kk |
| Engine.Machine.LdXY | src/machine.rs:108-110 | the new state is `Semantics.LdXY`: regs[x] = regs[y] |
| Engine.Machine.Or | src/machine.rs:114-116 | the new state is `Semantics.Or`: regs[x] becomes regs[x] OR regs[y] |
| Engine.Machine.And | src/machine.rs:120-122 | the new state is `Semantics.And`: regs[x] becomes regs[x] AND regs[y] |
| Engine.Machine.Xor | src/machine.rs:126-128 | the new state is `Semantics.Xor`: regs[x] becomes regs[x] XOR regs[y] |
| Engine.Machine.AddXY | src/machine.rs:134-138 | the new state is `Semantics.AddXY`: wrapped sum in regs[x], then the carry in register 15 |
| Engine.Machine.SubXY | src/machine.rs:144-148 | the new state is `Semantics.SubXY`: wrapped difference in regs[x], then "no borrow" in register 15 |
| Engine.Machine.Shr | src/machine.rs:154-157 | the new state is `Semantics.Shr`: the low bit to register 15 first, then regs[x] shifted right in place |
| Engine.Machine.SubnXY | src/machine.rs:163-167 | the new state is `Semantics.SubnXY`: regs[y] − regs[x] wrapped in regs[x], then "no borrow" in register 15 |
| Engine.Machine.Shl | src/machine.rs:173-176 | the new state is `Semantics.Shl`: the high bit to register 15 first, then regs[x] shifted left in place |
| Engine.Machine.NeqXY | src/machine.rs:181-185 | the new state is `Semantics.NeqXY`: pc + 2 exactly when regs[x] ≠ regs[y] |
| Engine.Machine.LdI | src/machine.rs:189-191 | the new state is `Semantics.LdI`: i = addr |
| Engine.Machine.JmpV0 | src/machine.rs:195-197 | the new state is `Semantics.JmpV0`: pc = addr + regs[0] |
| Engine.Machine.AddI | src/machine.rs:201-203 | the new state is `Semantics.AddI`: i + regs[x], and a fault when that exceeds 16 bits |
| Engine.Machine.Bcd | src/machine.rs:211-217 | the loop leaves memory as `Semantics.Bcd` says: the digits of regs[x] at i..i+2, and a fault when i + 2 is past memory |
| Engine.Machine.Ld0X | src/machine.rs:221-225 | the loop leaves memory as `Semantics.Ld0X` says: regs[0..=x] at i..=i+x, and a fault when i + x is past memory |
| Engine.Machine.LdX0 | src/machine.rs:229-233 | the loop leaves the registers as `Semantics.LdX0` says: mem[i..=i+x] in regs[0..=x], and a fault when i + x is past memory |
| Engine.Machine.Out | src/machine.rs:237-241 | the loop appends regs[0..=x] to the output (`Semantics.Out`) |
| Engine.Machine.OutI | src/machine.rs:246-250 | the loop appends mem[i..=i+x] to the output (`Semantics.OutI`); when i + x is past memory it faults after appending the cells from i to the end of memory |
| Engine.Machine.Exit | src/machine.rs:254-257 | the outcome is `Halted` |
| Engine.Machine.Err | src/machine.rs:259-261 | the outcome is `Unknown` with the word, which does not stop a run |
| Engine.Machine.Fetch | src/machine.rs:264-272 | faults exactly when pc + 1 is outside memory and then changes nothing; otherwise the word is 256·mem[pc] + mem[pc + 1], pc + 2, and the result is `Semantics.Fetch` |
| Engine.Machine.Dispatch | src/machine.rs:274-312 | the outcome and new state are `Semantics.Step` of the old state |
| Engine.Machine.Cycle | src/machine.rs:39-43 | one cycle of a run: a fuel-bounded run from the old state is the run from the new state with one cycle less, unless this cycle stopped |
| Engine.Machine.Run | src/machine.rs:39-43 | the outcome and final state are `Semantics.Run` of the initial state with the same fuel |
| Properties.LoadPlacesProgram | src/machine.rs:33-37 | byte k of the program lands at 512 + k; every other cell and all other state are unchanged |
| Properties.AddEffect | src/machine.rs:102-104 | regs[x] = (regs[x] + kk) mod 256; every other register, the flag included, and all other state unchanged |
| Properties.AddXYEffect | src/machine.rs:134-138 | flag = 1 exactly when a + b ≥ 256; for x ≠ 15, regs[x] + 256·flag = a + b; no other register changes |
| Properties.SubXYEffect | src/machine.rs:144-148 | flag = 1 exactly when a ≥ b; for x ≠ 15, regs[x] − 256·(1 − flag) = a − b; no other register changes |
| Properties.SubnXYEffect | src/machine.rs:163-167 | flag = 1 exactly when b ≥ a; for x ≠ 15, regs[x] − 256·(1 − flag) = b − a; no other register changes |
| Properties.ShrEffect | src/machine.rs:154-157 | for x ≠ 15 the flag is a mod 2 and 2·regs[x] + flag = a; for x = 15 the shift hits the flag, leaving 0; no other register changes |
| Properties.ShlEffect | src/machine.rs:173-176 | for x ≠ 15 the flag is a / 128 and 256·flag + regs[x] = 2a; for x = 15 the flag ends as 2·(a / 128); no other register changes |
| Properties.XorTwice | src/machine.rs:126-128 | applying 0x8xy3 twice with x ≠ y restores the whole machine |
| Properties.LdXYEffect | src/machine.rs:108-110 | regs[x] = regs[y]; nothing else changes |
| Properties.BcdDigitsDecimal | src/machine.rs:211-217 | the digits are v / 100, v / 10 mod 10 and v mod 10 |
| Properties.BcdEffect | src/machine.rs:211-217 | faults exactly when i + 2 ≥ 4096, changing nothing; otherwise three digits below 10 at i, i + 1, i + 2 whose decimal value is regs[x], and nothing else changes |
| Properties.BcdOf205 | src/machine.rs:211-217 | the digits of 205 are 2, 0, 5 |
| Properties.Ld0XEffect | src/machine.rs:221-225 | faults exactly when i + x ≥ 4096, changing nothing; otherwise mem[i + k] = regs[k] for k ≤ x, and every other cell and all other state unchanged |
| Properties.LdX0Effect | src/machine.rs:229-233 | faults exactly when i + x ≥ 4096, changing nothing; otherwise regs[k] = mem[i + k] for k ≤ x, and registers above x and all other state unchanged |
| Properties.StoreThenLoad | src/machine.rs:221-233 | 0xEx__ followed by 0xFx_0 with the same x is the store alone |
| Properties.LoadThenStore | src/machine.rs:221-233 | 0xFx_0 followed by 0xEx__ with the same x is the load alone |
| Properties.OutEffect | src/machine.rs:237-241 | the output grows by exactly regs[0..=x], and nothing else changes |
| Properties.OutIEffect | src/machine.rs:246-250 | faults exactly when i + x ≥ 4096; only the output changes; it grows by mem[i..=i+x], or, on the fault, by mem[i..4096] when i < 4096 and by nothing otherwise |
| Properties.CallRetFaults | src/machine.rs:47-64 | a call faults exactly when sp = 15, a return exactly when sp = 0, and a call never writes stack slot 0 |
| Properties.CallThenRet | src/machine.rs:47-64 | after a call with sp < 15, pc = addr, sp + 1 and the old pc on top; the return then restores pc and sp; only the pushed slot differs |
| Properties.SkipStep | src/machine.rs:69-91 | a cycle running 0x3, 0x4, 0x5 or 0x9 moves pc by 4 when its comparison holds and by 2 otherwise, and changes nothing else |
| Properties.UnknownStep | src/machine.rs:285-310 | a cycle reports an unknown instruction exactly for the unrecognised sub-opcodes of families 0x8 and 0xF, so the outer fall-through arm never fires; then only pc moves on by 2 |
| Properties.HaltStep | src/machine.rs:303-309 | a cycle halts exactly on opcode 0xF with n = 0xF, whatever x and y; then only pc moves on by 2 |
| Properties.JmpV0Step | src/machine.rs:195-197 | a 0xBnnn cycle sets pc = nnn + regs[0], which is at most 4350, and changes nothing else |
| Properties.FetchFaultStep | src/machine.rs:264-268 | a cycle faults on the fetch exactly when pc + 1 ≥ 4096, and then changes nothing |
| Properties.FetchReadsWord | src/machine.rs:264-272 | encoding the fetched instruction gives back the two bytes at pc; the fetch only moves pc by 2 |
| Properties.StepExtendsOutput | src/machine.rs:274-312 | a cycle only appends to the output |
| Properties.RunAdditive | src/machine.rs:39-43 | a run of a + b cycles is a run of a cycles followed, unless it stopped, by b more |
| Properties.RunStopsForGood | src/machine.rs:39-43 | once a run has halted or faulted, more fuel does not change its result |
| Properties.RunExtendsOutput | src/machine.rs:39-43 | a run only appends to the output |
| Properties.DemoRun | src/main.rs:5-11 | the demo program halts in its fifth cycle with regs[0] = 0x33, regs[1] = 0x22, flag 0, pc = 522 and output [0x33] |
| Properties.FetchGuardMissesLastByte | src/machine.rs:265-268 | the guard as written admits pc = 4095, although that fetch reads past the end of memory |
| Properties.FetchGuardCorrected | src/machine.rs:265-268 | the corrected guard admits exactly the states with both instruction bytes in memory, and differs from the written one only at pc = 4095 |

## Left out

- Text formatting is not modelled. This covers the `print!` of `out` and
  `out_i`, the trace `println!` in `fetch`, the messages of `exit` and
  `err`, and `Instruction::to_string`. The print instructions append the
  bytes they print to `output`; the hex text is not modelled.
- Process termination is not modelled. `exit` reports `Halted`, and every
  panic reports a `Fault`.
- Engine.Machine.Load: when a program is longer than 3584 bytes, the
  original writes the bytes that fit and then panics. The model refuses such
  a program and writes nothing.
- Partial writes to memory and registers before a fault are not modelled.
  `ld_0x` and `ld_x0` stop at the first address past memory, and the
  model's faulting step changes nothing. A panic ends the process, so the
  machine state they leave cannot be observed. The bytes `out_i` prints
  before its panic do reach standard output, and the model keeps them.
- Rust's debug and release builds differ on unchecked arithmetic: `sp -= 1`
  in `ret` when `sp` is 0, and `i += …` in `add_i`. The model does not pick
  either; both are faults.
- A call with `sp` = 15 raises `sp` to 16 and then indexes `stack[16]`.
  That panics in both builds. The model reports it as a stack-overflow
  fault. Accesses past memory are faults too.
- The unbounded loop of `run` is modelled as a run of at most `fuel`
  cycles. A run that neither halts nor faults within its fuel ends with
  `Continue`.
- `src/main.rs` is not part of this model, except that its program is the
  `Properties.Demo` test vector.
- Halting follows the code, not the opcode table. Every `0xF__F` word
  halts, whatever x and y are, not only `0xFFFF`.

## Findings

| source | as written | input that shows it | evidently intended | confidence | as-written member | corrected member |
|---|---|---|---|---|---|---|
| src/machine.rs:265-268 | `fetch` refuses only `pc >= 4096`, then reads `mem[pc]` and `mem[pc + 1]` | pc = 4095: the guard passes, and reading `mem[4096]` fails with an index panic rather than the intended "PC out of bounds" | refuse unless both bytes are in memory, `pc + 1 < 4096` | not executed | Properties.FetchGuardMissesLastByte | Properties.FetchGuardCorrected |
