/** The instruction decoder: a 16-bit word and the fixed bit-fields the
    execution engine reads from it.

      bits  15..12  11..8  7..4  3..0
            opcode    x     y     n
                    |----- nnn -----|
                          |-- kk ---|

    Every accessor is one mask and one shift over the word, so each is a total
    function of the word alone: decoding the same word twice yields the same
    fields. Register indices (x, y) and the selectors (opcode, n) are returned
    as integers because the engine uses them to index and to branch; kk is a
    byte because the engine compares it with, and stores it into, registers. */
module Instructions {

  datatype Instruction = Instruction(word: bv16) {

    /** The top nibble: the primary operation selector. */
    function Opcode(): (r: nat)
      ensures r < 16
    {
      (word >> 12) as int
    }

    /** The low 12 bits: an address or 12-bit immediate. */
    function Nnn(): (r: nat)
      ensures r < 0x1000
    {
      (word & 0x0fff) as int
    }

    /** Bits 8 to 11: the first register index. */
    function X(): (r: nat)
      ensures r < 16
    {
      ((word & 0x0f00) >> 8) as int
    }

    /** Bits 4 to 7: the second register index. */
    function Y(): (r: nat)
      ensures r < 16
    {
      ((word & 0x00f0) >> 4) as int
    }

    /** The low byte: an 8-bit immediate. Together with the high byte it
        makes up the word. */
    function Kk(): (r: bv8)
      ensures (word >> 8) as int * 0x100 + r as int == word as int
    {
      SplitWord(word);
      LowByteOfWord(word);
      (word & 0x00ff) as bv8
    }

    /** The low nibble: the sub-opcode of families 0x8 and 0xF. */
    function N(): (r: nat)
      ensures r < 16
    {
      (word & 0x000f) as int
    }

    /** The word as two bytes, most significant first. */
    function AsBytes(): (r: seq<bv8>)
      ensures |r| == 2
      ensures r[0] as int * 0x100 + r[1] as int == word as int
    {
      SplitBytes(word);
      [(word >> 8) as bv8, (word & 0xff) as bv8]
    }
  }

  /** The instruction whose big-endian encoding is `bytes`. */
  function FromBytes(bytes: seq<bv8>): (r: Instruction)
    requires |bytes| == 2
    ensures r.word as int == bytes[0] as int * 0x100 + bytes[1] as int
  {
    JoinBytes(bytes[0], bytes[1]);
    Instruction(((bytes[0] as bv16) << 8) | bytes[1] as bv16)
  }

  /** Encoding a word and decoding the two bytes gives the word back. */
  lemma FromBytesAsBytes(ins: Instruction)
    ensures FromBytes(ins.AsBytes()) == ins
  {
    BytesRoundTrip(ins.word);
  }

  /** Decoding two bytes and encoding the word gives the bytes back. */
  lemma AsBytesFromBytes(b0: bv8, b1: bv8)
    ensures FromBytes([b0, b1]).AsBytes() == [b0, b1]
  {
    WordRoundTrip(b0, b1);
  }

  /** The four nibbles reassemble the word, and so do the opcode and the
      12-bit operand. The fields do not overlap, so these sums are the bit
      patterns `opcode << 12 | x << 8 | y << 4 | n` and `opcode << 12 | nnn`. */
  lemma Reassemble(ins: Instruction)
    ensures ins.Opcode() * 0x1000 + ins.X() * 0x100 + ins.Y() * 0x10 + ins.N() == ins.word as int
    ensures ins.Opcode() * 0x1000 + ins.Nnn() == ins.word as int
  {
    SplitOpcode(ins.word);
    FieldsNest(ins);
  }

  /** The overlapping fields agree: kk is y then n, nnn is x then kk. */
  lemma FieldsNest(ins: Instruction)
    ensures ins.Kk() as int == ins.Y() * 0x10 + ins.N()
    ensures ins.Nnn() == ins.X() * 0x100 + ins.Kk() as int
  {
    KkSplit(ins);
    NnnSplit(ins);
  }

  /** Each field read as a number: the shifts divide, the masks take remainders. */
  lemma FieldsAsQuotients(ins: Instruction)
    ensures ins.Opcode() == ins.word as int / 0x1000
    ensures ins.Nnn() == ins.word as int % 0x1000
    ensures ins.X() == ins.word as int / 0x100 % 0x10
    ensures ins.Y() == ins.word as int / 0x10 % 0x10
    ensures ins.Kk() as int == ins.word as int % 0x100
    ensures ins.N() == ins.word as int % 0x10
  {
    Reassemble(ins);
    FieldsNest(ins);
    Digits(ins.word as int, ins.Opcode(), ins.X(), ins.Y(), ins.N());
  }

  /** Two words decode to the same fields exactly when they are the same word. */
  lemma FieldsDetermineWord(a: Instruction, b: Instruction)
    ensures a == b <==> (a.Opcode() == b.Opcode() && a.X() == b.X() && a.Y() == b.Y() && a.N() == b.N())
  {
    if a.Opcode() == b.Opcode() && a.X() == b.X() && a.Y() == b.Y() && a.N() == b.N() {
      Reassemble(a);
      Reassemble(b);
      SameValue(a.word, b.word);
    }
  }

  // Bit-level facts, each small enough for the solver on its own.

  lemma SplitOpcode(w: bv16)
    ensures w as int == (w >> 12) as int * 0x1000 + (w & 0x0fff) as int
  {
  }

  lemma KkSplit(ins: Instruction)
    ensures ins.Kk() as int == ins.Y() * 0x10 + ins.N()
  {
    SplitByte(ins.Kk());
    MaskKk(ins.word);
  }

  lemma NnnSplit(ins: Instruction)
    ensures ins.Nnn() == ins.X() * 0x100 + ins.Kk() as int
  {
    var v := ins.word & 0x0fff;
    SplitWord(v);
    MaskNnn(ins);
    Combine(ins.Nnn(), ins.X(), ins.Kk() as int, v as int, (v >> 8) as int, (v & 0xff) as int);
  }

  lemma SplitWord(v: bv16)
    ensures v as int == (v >> 8) as int * 0x100 + (v & 0xff) as int
  {
  }

  lemma LowByteOfWord(w: bv16)
    ensures ((w & 0x00ff) as bv8) as int == (w & 0xff) as int
  {
  }

  lemma SplitByte(k: bv8)
    ensures k as int == (k >> 4) as int * 0x10 + (k & 0xf) as int
  {
  }

  lemma MaskNnn(ins: Instruction)
    ensures ins.Nnn() == (ins.word & 0x0fff) as int
    ensures ins.X() == ((ins.word & 0x0fff) >> 8) as int
    ensures ins.Kk() as int == ((ins.word & 0x0fff) & 0xff) as int
  {
    MaskNnnBits(ins.word);
  }

  lemma MaskNnnBits(w: bv16)
    ensures ((w & 0x0fff) >> 8) as int == ((w & 0x0f00) >> 8) as int
    ensures ((w & 0x0fff) & 0xff) as int == ((w & 0x00ff) as bv8) as int
  {
  }

  lemma MaskKk(w: bv16)
    ensures (((w & 0x00ff) as bv8) >> 4) as int == ((w & 0x00f0) >> 4) as int
    ensures (((w & 0x00ff) as bv8) & 0xf) as int == (w & 0x000f) as int
  {
  }

  lemma Combine(nnn: int, x: int, kk: int, v: int, hi: int, lo: int)
    requires nnn == v && x == hi && kk == lo && v == hi * 0x100 + lo
    ensures nnn == x * 0x100 + kk
  {
  }

  lemma SplitBytes(w: bv16)
    ensures ((w >> 8) as bv8) as int * 0x100 + ((w & 0xff) as bv8) as int == w as int
  {
  }

  lemma JoinBytes(b0: bv8, b1: bv8)
    ensures (((b0 as bv16) << 8) | b1 as bv16) as int == b0 as int * 0x100 + b1 as int
  {
  }

  lemma BytesRoundTrip(w: bv16)
    ensures ((((w >> 8) as bv8) as bv16) << 8) | (((w & 0xff) as bv8) as bv16) == w
  {
  }

  lemma WordRoundTrip(b0: bv8, b1: bv8)
    ensures ((((b0 as bv16) << 8) | b1 as bv16) >> 8) as bv8 == b0
    ensures ((((b0 as bv16) << 8) | b1 as bv16) & 0xff) as bv8 == b1
  {
  }

  lemma SameValue(v: bv16, w: bv16)
    requires v as int == w as int
    ensures v == w
  {
    FromValue(v);
    FromValue(w);
  }

  lemma FromValue(v: bv16)
    ensures (v as int) as bv16 == v
  {
  }

  lemma Digits(w: int, op: int, x: int, y: int, n: int)
    requires 0 <= op < 0x10 && 0 <= x < 0x10 && 0 <= y < 0x10 && 0 <= n < 0x10
    requires w == op * 0x1000 + x * 0x100 + y * 0x10 + n
    ensures op == w / 0x1000 && x * 0x100 + y * 0x10 + n == w % 0x1000
    ensures x == w / 0x100 % 0x10 && y == w / 0x10 % 0x10
    ensures y * 0x10 + n == w % 0x100 && n == w % 0x10
  {
    QuotRem(w, op, x * 0x100 + y * 0x10 + n, 0x1000);
    QuotRem(w, op * 0x10 + x, y * 0x10 + n, 0x100);
    QuotRem(op * 0x10 + x, op, x, 0x10);
    QuotRem(w, op * 0x100 + x * 0x10 + y, n, 0x10);
    QuotRem(op * 0x100 + x * 0x10 + y, op * 0x10 + x, y, 0x10);
  }

  lemma QuotRem(t: int, q: int, r: int, m: int)
    requires m == 0x10 || m == 0x100 || m == 0x1000
    requires 0 <= r < m && t == q * m + r
    ensures t / m == q && t % m == r
  {
    if m == 0x10 {
      assert t == q * 0x10 + r;
    } else if m == 0x100 {
      assert t == q * 0x100 + r;
    } else {
      assert t == q * 0x1000 + r;
    }
  }
}
