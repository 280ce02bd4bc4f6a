/** Machine words of the emulator and the Rust `u8` primitives its handlers use.
    Bytes are `bv8`, so `+`, `-`, `|`, `&`, `^` and the shifts wrap exactly as
    Rust's `u8` operators do; each primitive's contract says what it computes
    in ordinary integer arithmetic. */
module Words {

  /** An unsigned 16-bit value (Rust `u16`) used as an address or counter. */
  type U16 = w: int | 0 <= w < 0x1_0000

  /** `u8::overflowing_add`: the wrapped sum and whether the true sum exceeded 255. */
  function OverflowingAdd(a: bv8, b: bv8): (r: (bv8, bool))
    ensures r.0 as int == (a as int + b as int) % 0x100
    ensures r.1 <==> a as int + b as int >= 0x100
  {
    AddModulo(a, b);
    (a + b, a + b < a)
  }

  /** `u8::wrapping_add`: the sum modulo 256. */
  function WrappingAdd(a: bv8, b: bv8): (r: bv8)
    ensures r as int == (a as int + b as int) % 0x100
  {
    OverflowingAdd(a, b).0
  }

  /** `u8::overflowing_sub`: the wrapped difference and whether it borrowed. */
  function OverflowingSub(a: bv8, b: bv8): (r: (bv8, bool))
    ensures r.0 as int == (a as int - b as int) % 0x100
    ensures r.1 <==> a as int < b as int
  {
    SubModulo(a, b);
    (a - b, a < b)
  }

  /** `a >> 1` and the bit it shifts out, `a & 0x1`. */
  function ShiftRight(a: bv8): (r: (bv8, bv8))
    ensures r.0 as int == a as int / 2
    ensures r.1 as int == a as int % 2
  {
    Halve(a);
    LowBit(a);
    (a >> 1, a & 1)
  }

  /** `a << 1` and the bit it shifts out, `a >> 7`. */
  function ShiftLeft(a: bv8): (r: (bv8, bv8))
    ensures r.0 as int == (2 * a as int) % 0x100
    ensures r.1 as int == a as int / 0x80
  {
    ShlIsDouble(a);
    AddModulo(a, a);
    HighBit(a);
    (a << 1, a >> 7)
  }

  /** Addition and its carry together lose nothing: sum = result + 256 * carry. */
  lemma OverflowingAddExact(a: bv8, b: bv8)
    ensures OverflowingAdd(a, b).0 as int + (if OverflowingAdd(a, b).1 then 0x100 else 0) == a as int + b as int
  {
    var r := OverflowingAdd(a, b);
    ModuloExact(a as int + b as int, r.0 as int, r.1);
  }

  /** Subtraction and its borrow together lose nothing: difference = result - 256 * borrow. */
  lemma OverflowingSubExact(a: bv8, b: bv8)
    ensures OverflowingSub(a, b).0 as int - (if OverflowingSub(a, b).1 then 0x100 else 0) == a as int - b as int
  {
    var r := OverflowingSub(a, b);
    BorrowExact(a as int, b as int, r.0 as int, r.1);
  }

  /** Shifting right by one loses exactly the bit it reports. */
  lemma ShiftRightExact(a: bv8)
    ensures 2 * ShiftRight(a).0 as int + ShiftRight(a).1 as int == a as int
  {
  }

  /** Shifting left by one loses exactly the bit it reports. */
  lemma ShiftLeftExact(a: bv8)
    ensures ShiftLeft(a).1 as int * 0x100 + ShiftLeft(a).0 as int == 2 * a as int
  {
  }

  /** `^` with the same operand twice gives back the original byte. */
  lemma XorInvolution(a: bv8, b: bv8)
    ensures (a ^ b) ^ b == a
    ensures a ^ a == 0
  {
  }

  // The facts below connect 8-bit wrapping arithmetic with integer arithmetic
  // by way of a 16-bit sum, which cannot overflow.

  lemma AddModulo(a: bv8, b: bv8)
    ensures (a + b) as int == (a as int + b as int) % 0x100
    ensures a + b < a <==> a as int + b as int >= 0x100
  {
    var s := (a as bv16) + (b as bv16);
    WideAdd(a, b);
    WideSplit(s);
    LowByte(s & 0xff);
    ModuloOfSplit(a as int + b as int, (s >> 8) as int, (s & 0xff) as int);
  }

  lemma SubModulo(a: bv8, b: bv8)
    ensures (a - b) as int == (a as int - b as int) % 0x100
    ensures a < b <==> a as int < b as int
  {
    var d := a - b;
    SubThenAdd(a, b);
    AddModulo(d, b);
    ModuloOfSum(a as int, b as int, d as int);
  }

  lemma Halve(a: bv8)
    ensures (a >> 1) as int == a as int / 2
  {
  }

  lemma LowBit(a: bv8)
    ensures (a & 1) as int == a as int % 2
  {
  }

  lemma ShlIsDouble(a: bv8)
    ensures a << 1 == a + a
  {
  }

  lemma HighBit(a: bv8)
    ensures (a >> 7) as int == a as int / 0x80
  {
  }

  lemma WideAdd(a: bv8, b: bv8)
    ensures ((a as bv16) + (b as bv16)) as int == a as int + b as int
    ensures (((a as bv16) + (b as bv16)) & 0xff) as bv8 == a + b
  {
  }

  lemma SubThenAdd(a: bv8, b: bv8)
    ensures (a - b) + b == a
    ensures a < b <==> a as int < b as int
  {
  }

  lemma ModuloOfSum(a: int, b: int, d: int)
    requires 0 <= a < 0x100 && 0 <= b < 0x100 && 0 <= d < 0x100
    requires a == (d + b) % 0x100
    ensures d == (a - b) % 0x100
  {
  }

  lemma WideSplit(s: bv16)
    ensures s as int == (s >> 8) as int * 0x100 + (s & 0xff) as int
    ensures (s & 0xff) as int < 0x100
  {
  }

  lemma LowByte(s: bv16)
    requires s < 0x100
    ensures (s as bv8) as int == s as int
  {
  }

  lemma ModuloOfSplit(t: int, hi: int, lo: int)
    requires 0 <= lo < 0x100 && t == hi * 0x100 + lo
    ensures lo == t % 0x100
  {
  }

  lemma BorrowExact(a: int, b: int, lo: int, borrowed: bool)
    requires 0 <= a < 0x100 && 0 <= b < 0x100
    requires lo == (a - b) % 0x100 && (borrowed <==> a < b)
    ensures lo - (if borrowed then 0x100 else 0) == a - b
  {
  }

  lemma ModuloExact(t: int, lo: int, wrapped: bool)
    requires 0 <= t < 0x200 && lo == t % 0x100 && (wrapped <==> t >= 0x100)
    ensures lo + (if wrapped then 0x100 else 0) == t
  {
  }
}
