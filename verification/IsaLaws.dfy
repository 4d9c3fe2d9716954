/** Checks of the instruction semantics against what the RISC-V Unprivileged ISA
    manual (version 20191213) promises: immediate encodings are inverted by the
    decoder, products split into halves, division satisfies its identity, and
    memory returns what was stored. */
module IsaLaws {
  import opened Words
  import opened Isa

  // -------------------------------------------- immediates (section 2.3)

  lemma SignWidths()
    ensures Pow2(11) == 0x800 && Pow2(12) == 0x1000 && Pow2(13) == 0x2000
    ensures Pow2(20) == 0x10_0000 && Pow2(21) == 0x20_0000
  {
    assert Pow2(6) == 64;
    assert Pow2(16) == 0x1_0000;
  }

  /** An I-type word: sign bit `s`, eleven further immediate bits, and the rest
      of the word below them. */
  lemma ImmediateI(s: nat, v: nat, rest: nat)
    requires s < 2 && v < 0x800 && rest < 0x10_0000
    ensures ImmI(s * 0x8000_0000 + v * 0x10_0000 + rest) == v - 0x800 * s
  {
    SignWidths();
    var insn := s * 0x8000_0000 + v * 0x10_0000 + rest;
    assert insn / 0x10_0000 == s * 0x800 + v;
  }

  /** An S-type word: the immediate is split around rs2, rs1 and funct3. */
  lemma ImmediateS(s: nat, hi: nat, lo: nat, mid: nat, opcode: nat)
    requires s < 2 && hi < 64 && lo < 32 && mid < 0x2000 && opcode < 0x80
    ensures ImmS(s * 0x8000_0000 + hi * 0x200_0000 + mid * 0x1000 + lo * 0x80 + opcode) == hi * 32 + lo - 0x800 * s
  {
    hide SignExtend, Pow2;
    var insn := s * 0x8000_0000 + hi * 0x200_0000 + mid * 0x1000 + lo * 0x80 + opcode;
    Field(insn, s, 64, hi, 0x200_0000, mid * 0x1000 + lo * 0x80 + opcode);
    Field(insn, (s * 64 + hi) * 0x2000 + mid, 32, lo, 0x80, opcode);
    SignWidths();
    SignedField(s, hi * 32 + lo, 11);
  }

  /** A field of `width` values at weight `unit`. */
  lemma Field(x: nat, upper: nat, width: nat, value: nat, unit: nat, lower: nat)
    requires x == unit * (width * upper + value) + lower && lower < unit && value < width
    ensures x / unit == width * upper + value && x / unit % width == value
  {
    QuotientIsUnique(x, unit, width * upper + value, lower);
    QuotientIsUnique(width * upper + value, width, upper, value);
  }

  /** A B-type word: bit 11 of the offset sits in bit 7, bits 10-5 and 4-1 where
      an S-type word has its halves. */
  lemma ImmediateB(s: nat, b11: nat, hi: nat, lo: nat, mid: nat, opcode: nat)
    requires s < 2 && b11 < 2 && hi < 64 && lo < 16 && mid < 0x2000 && opcode < 0x80
    ensures ImmB(s * 0x8000_0000 + hi * 0x200_0000 + mid * 0x1000 + lo * 0x100 + b11 * 0x80 + opcode) ==
            b11 * 0x800 + hi * 32 + lo * 2 - 0x1000 * s
  {
    hide SignExtend, Pow2;
    var insn := s * 0x8000_0000 + hi * 0x200_0000 + mid * 0x1000 + lo * 0x100 + b11 * 0x80 + opcode;
    Field(insn, 0, 2, s, 0x8000_0000, insn - s * 0x8000_0000);
    Field(insn, s, 64, hi, 0x200_0000, mid * 0x1000 + lo * 0x100 + b11 * 0x80 + opcode);
    Field(insn, s * 0x8_0000 + hi * 0x2000 + mid, 16, lo, 0x100, b11 * 0x80 + opcode);
    Field(insn, insn / 0x100, 2, b11, 0x80, opcode);
    SignWidths();
    SignedField(s, b11 * 0x800 + hi * 32 + lo * 2, 12);
  }

  /** A sign bit above `width` bits of value. */
  lemma SignedField(s: nat, v: nat, width: nat)
    requires s < 2 && v < Pow2(width)
    ensures SignExtend(s * Pow2(width) + v, width + 1) == v - s * Pow2(width)
  {
    var x := s * Pow2(width) + v;
    assert Pow2(width + 1) == 2 * Pow2(width);
    assert x < 2 * Pow2(width) by {
      assert s * Pow2(width) <= Pow2(width);
    }
    QuotientIsUnique(x, Pow2(width + 1), 0, x);
  }

  /** A J-type word: from the top, the sign, bits 10-1, bit 11, bits 19-12. */
  lemma ImmediateJ(s: nat, low: nat, b11: nat, high: nat, rest: nat)
    requires s < 2 && low < 0x400 && b11 < 2 && high < 0x100 && rest < 0x1000
    ensures ImmJ(s * 0x8000_0000 + low * 0x20_0000 + b11 * 0x10_0000 + high * 0x1000 + rest) ==
            high * 0x1000 + b11 * 0x800 + low * 2 - 0x10_0000 * s
  {
    hide SignExtend, Pow2;
    var insn := s * 0x8000_0000 + low * 0x20_0000 + b11 * 0x10_0000 + high * 0x1000 + rest;
    Field(insn, 0, 2, s, 0x8000_0000, insn - s * 0x8000_0000);
    Field(insn, s, 0x400, low, 0x20_0000, b11 * 0x10_0000 + high * 0x1000 + rest);
    Field(insn, insn / 0x20_0000, 2, b11, 0x10_0000, high * 0x1000 + rest);
    Field(insn, insn / 0x10_0000, 0x100, high, 0x1000, rest);
    SignWidths();
    SignedField(s, high * 0x1000 + b11 * 0x800 + low * 2, 20);
  }

  // ------------------------------- multiplication and division (section 7)

  /** The upper and lower halves of a 64-bit product. */
  lemma Halves(product: int)
    ensures Wrap(product) + 0x1_0000_0000 * (product / 0x1_0000_0000) == product
    ensures -0x8000_0000_0000_0000 <= product < 0x8000_0000_0000_0000 ==>
              AsI32(Wrap(product / 0x1_0000_0000)) == product / 0x1_0000_0000
    ensures 0 <= product < 0x1_0000_0000_0000_0000 ==> Wrap(product / 0x1_0000_0000) == product / 0x1_0000_0000
  {
  }

  lemma ProductSign(x: int, y: int)
    ensures Abs(x * y) == Abs(x) * Abs(y)
    ensures x * y == if (x < 0) == (y < 0) then Abs(x) * Abs(y) else -(Abs(x) * Abs(y))
  {
    if x < 0 {
      assert x * y == -(Abs(x) * y);
    }
    if y < 0 {
      assert x * y == -(x * Abs(y)) && Abs(x) * y == -(Abs(x) * Abs(y));
    }
    assert Abs(x) * Abs(y) >= 0;
  }

  lemma ProductBound(x: int, y: int, m: nat, n: nat)
    requires Abs(x) <= m && Abs(y) <= n
    ensures Abs(x * y) <= m * n
  {
    var u, v := Abs(x), Abs(y);
    assert m * n - u * v == (m - u) * n + u * (n - v);
    assert (m - u) * n >= 0 && u * (n - v) >= 0;
    ProductSign(x, y);
  }

  lemma SignedHalves(a: word, b: word)
    ensures MulDiv(0, a, b) == Wrap(AsI32(a) * AsI32(b)) && MulDiv(1, a, b) == Wrap(AsI32(a) * AsI32(b) / 0x1_0000_0000)
    ensures MulDiv(2, a, b) == Wrap(AsI32(a) * b / 0x1_0000_0000) && MulDiv(3, a, b) == Wrap(a * b / 0x1_0000_0000)
  {
    hide Wrap, AsI32, TruncDiv, TruncRem;
  }

  /** MULH, MULHSU and MULHU give the upper halves of their exact products, and
      MUL the lower half of the signed one. */
  lemma ProductHalves(a: word, b: word)
    ensures MulDiv(0, a, b) + 0x1_0000_0000 * AsI32(MulDiv(1, a, b)) == AsI32(a) * AsI32(b)
    ensures Wrap(AsI32(a) * b) + 0x1_0000_0000 * AsI32(MulDiv(2, a, b)) == AsI32(a) * b
    ensures Wrap(a * b) + 0x1_0000_0000 * MulDiv(3, a, b) == a * b
  {
    hide Wrap, AsI32, MulDiv, Abs;
    SignedHalves(a, b);
    AsI32Bound(a);
    AsI32Bound(b);
    ProductBound(AsI32(a), AsI32(b), 0x8000_0000, 0x8000_0000);
    ProductBound(AsI32(a), b, 0x8000_0000, 0xffff_ffff);
    ProductBound(a, b, 0xffff_ffff, 0xffff_ffff);
    WithinAbs(AsI32(a) * AsI32(b), 0x4000_0000_0000_0000);
    WithinAbs(AsI32(a) * b, 0x8000_0000 * 0xffff_ffff);
    WithinAbs(a * b, 0xffff_ffff * 0xffff_ffff);
    assert a * b >= 0;
    Halves(AsI32(a) * AsI32(b));
    Halves(AsI32(a) * b);
    Halves(a * b);
  }

  lemma WithinAbs(x: int, bound: int)
    ensures Abs(x) <= bound <==> -bound <= x <= bound
  {
  }

  lemma AsI32Bound(a: word)
    ensures Abs(AsI32(a)) <= 0x8000_0000 && Abs(a) == a
  {
  }

  /** Signed division truncates toward zero, and the remainder takes the sign of
      the dividend. */
  lemma TruncatedDivision(x: int, y: int)
    requires y != 0
    ensures y * TruncDiv(x, y) + TruncRem(x, y) == x
    ensures if x >= 0 then 0 <= TruncRem(x, y) else TruncRem(x, y) <= 0
    ensures Abs(TruncRem(x, y)) < Abs(y)
  {
    DivisionEquation(Abs(x), Abs(y));
    TruncatesTowardZero(x, y);
  }

  lemma DivisionEquation(u: nat, v: nat)
    requires v > 0
    ensures u == v * (u / v) + u % v && 0 <= u / v && 0 <= u % v < v
  {
  }

  lemma TruncatesTowardZero(x: int, y: int)
    requires y != 0
    ensures Abs(TruncDiv(x, y)) == Abs(x) / Abs(y)
    ensures x >= 0 ==> y * TruncDiv(x, y) == Abs(y) * (Abs(x) / Abs(y))
    ensures x < 0 ==> y * TruncDiv(x, y) == -(Abs(y) * (Abs(x) / Abs(y)))
    ensures Abs(x) == (if x < 0 then -x else x) && Abs(y) == (if y < 0 then -y else y)
    ensures Abs(x - y * TruncDiv(x, y)) == Abs(x) - Abs(y) * (Abs(x) / Abs(y))
  {
    DivisionEquation(Abs(x), Abs(y));
    ProductSign(y, TruncDiv(x, y));
    assert Abs(y) * 0 == 0;
  }

  lemma QuotientFits(x: int, y: int)
    requires y != 0 && Abs(x) <= 0x8000_0000 && x != 0x8000_0000 && (x == -0x8000_0000 ==> y != -1)
    ensures -0x8000_0000 <= TruncDiv(x, y) < 0x8000_0000
  {
    if Abs(y) == 1 {
      assert TruncDiv(x, y) == if y == 1 then x else -x;
    } else {
      HalfAtMost(Abs(x), Abs(y));
    }
  }

  lemma HalfAtMost(u: nat, v: nat)
    requires v >= 2
    ensures 0 <= 2 * (u / v) <= u
  {
    DivisionEquation(u, v);
    var q := u / v;
    assert v * q == 2 * q + (v - 2) * q;
    assert (v - 2) * q >= 0;
  }

  lemma SignedRoundTrip(x: int)
    requires -0x8000_0000 <= x < 0x8000_0000
    ensures AsI32(Wrap(x)) == x
  {
  }

  /** DIV and REM are truncated division and its remainder on every pair of
      operands but the two special cases, which give the manual's fixed results. */
  lemma DivisionResults(a: word, b: word)
    ensures b == 0 ==> MulDiv(4, a, b) == 0xffff_ffff == MulDiv(5, a, b) && MulDiv(6, a, b) == a == MulDiv(7, a, b)
    ensures a == 0x8000_0000 && b == 0xffff_ffff ==> MulDiv(4, a, b) == a && MulDiv(6, a, b) == 0
    ensures b != 0 && !(a == 0x8000_0000 && b == 0xffff_ffff) ==>
              && AsI32(MulDiv(4, a, b)) == TruncDiv(AsI32(a), AsI32(b))
              && AsI32(MulDiv(6, a, b)) == TruncRem(AsI32(a), AsI32(b))
  {
    if b != 0 && !(a == 0x8000_0000 && b == 0xffff_ffff) {
      var x, y := AsI32(a), AsI32(b);
      QuotientFits(x, y);
      TruncatedDivision(x, y);
      hide TruncDiv, TruncRem;
      SignedRoundTrip(TruncDiv(x, y));
      SignedRoundTrip(TruncRem(x, y));
    }
  }

  /** AND, OR and XOR of two words are tied together as bit counts are. */
  lemma {:induction false} BitwiseLaws(a: nat, b: nat, width: nat)
    requires a < Pow2(width) && b < Pow2(width)
    ensures Bitwise(And, a, b, width) + Bitwise(Or, a, b, width) == a + b
    ensures Bitwise(Or, a, b, width) - Bitwise(And, a, b, width) == Bitwise(Xor, a, b, width)
  {
    if width > 0 {
      BitwiseLaws(a / 2, b / 2, width - 1);
    }
  }

  /** Bit `k` of a number, in two's complement if it is negative. */
  function Bit(x: int, k: nat): (b: nat)
    ensures b < 2
  {
    x / Pow2(k) % 2
  }

  lemma LowestBit(x: int)
    ensures Bit(x, 0) == x % 2
  {
  }

  /** Halving an even power of two halves the quotient's place. */
  lemma HalvedQuotient(x: int, k: nat)
    requires k > 0
    ensures x / Pow2(k) == x / 2 / Pow2(k - 1)
  {
    var p, q := Pow2(k - 1), x / 2 / Pow2(k - 1);
    var r := x / 2 - p * q;
    assert 0 <= r < p && x == 2 * (p * q + r) + x % 2;
    assert 2 * (p * q) == (2 * p) * q;
    QuotientIsUnique(x, 2 * p, q, 2 * r + x % 2);
  }

  lemma HigherBit(x: int, k: nat)
    requires k > 0
    ensures Bit(x, k) == Bit(x / 2, k - 1)
  {
    HalvedQuotient(x, k);
  }

  /** Each bit of AND, OR and XOR is that operation on the operands' bits. */
  lemma {:induction false} BitOfBitwise(op: BitOp, a: nat, b: nat, width: nat, k: nat)
    requires a < Pow2(width) && b < Pow2(width) && k < width
    ensures Bit(Bitwise(op, a, b, width), k) == BitAt(op, Bit(a, k), Bit(b, k))
  {
    hide Bit;
    var whole := Bitwise(op, a, b, width);
    assert whole == 2 * Bitwise(op, a / 2, b / 2, width - 1) + BitAt(op, a % 2, b % 2);
    hide Bitwise, BitAt;
    assert whole / 2 == Bitwise(op, a / 2, b / 2, width - 1) && whole % 2 == BitAt(op, a % 2, b % 2);
    if k == 0 {
      LowestBit(a);
      LowestBit(b);
      LowestBit(whole);
    } else {
      BitOfBitwise(op, a / 2, b / 2, width - 1, k - 1);
      HigherBit(a, k);
      HigherBit(b, k);
      HigherBit(whole, k);
    }
  }

  /** And so the word operations are the bitwise operations, on all 32 bits. */
  lemma BitOfWordOp(op: BitOp, a: word, b: word, k: nat)
    requires k < 32
    ensures Bit(WordOp(op, a, b), k) == BitAt(op, Bit(a, k), Bit(b, k))
  {
    Pow2Of32();
    BitOfBitwise(op, a, b, 32, k);
  }

  // ----------------------------------------------------- bits and shifts

  lemma HalvedRemainder(x: int, width: nat)
    requires width > 0
    ensures x % Pow2(width) == 2 * (x / 2 % Pow2(width - 1)) + x % 2
  {
    var p, q := Pow2(width - 1), x / 2 / Pow2(width - 1);
    var half, low := x / 2 % p, x % 2;
    assert x / 2 == p * q + half && x == 2 * (x / 2) + low;
    assert 2 * (p * q) == (2 * p) * q;
    QuotientIsUnique(x, 2 * p, q, 2 * half + low);
  }

  /** Reducing to `width` bits keeps them. */
  lemma {:induction false} BitOfRemainder(x: int, width: nat, k: nat)
    requires k < width
    ensures Bit(x % Pow2(width), k) == Bit(x, k)
    decreases width
  {
    hide Bit, Pow2;
    HalvedRemainder(x, width);
    var rest := x % Pow2(width);
    assert rest / 2 == x / 2 % Pow2(width - 1) && rest % 2 == x % 2;
    if k == 0 {
      LowestBit(x);
      LowestBit(rest);
    } else {
      HigherBit(x, k);
      HigherBit(rest, k);
      BitOfRemainder(x / 2, width - 1, k - 1);
    }
  }

  lemma BitOfWrap(x: int, k: nat)
    requires k < 32
    ensures Bit(Wrap(x), k) == Bit(x, k)
  {
    hide Bit;
    Pow2Of32();
    BitOfRemainder(x, 32, k);
  }

  /** Bits move up by `n` under multiplication by 2^n, zeros follow. */
  lemma {:induction false} BitOfProduct(x: int, n: nat, k: nat)
    ensures Bit(x * Pow2(n), k) == if k < n then 0 else Bit(x, k - n)
  {
    hide Bit;
    if n > 0 {
      var y := x * Pow2(n - 1);
      assert x * Pow2(n) == 2 * y;
      if k == 0 {
        LowestBit(2 * y);
      } else {
        HigherBit(2 * y, k);
        BitOfProduct(x, n - 1, k - 1);
      }
    } else {
      assert x * Pow2(0) == x;
    }
  }

  /** Bits move down by `n` under division by 2^n. */
  lemma {:induction false} BitOfQuotient(x: int, n: nat, k: nat)
    ensures Bit(x / Pow2(n), k) == Bit(x, k + n)
    decreases n
  {
    hide Bit;
    if n > 0 {
      HalvedQuotient(x, n);
      BitOfQuotient(x / 2, n - 1, k);
      HigherBit(x, k + n);
    } else {
      assert x / Pow2(0) == x;
    }
  }

  /** Above its range a number repeats its sign. */
  lemma {:induction false} BitAboveRange(x: int, width: nat, k: nat)
    requires -(Pow2(width) as int) <= x < Pow2(width) && width <= k
    ensures Bit(x, k) == if x < 0 then 1 else 0
    decreases k
  {
    hide Bit;
    if k == 0 {
      LowestBit(x);
    } else {
      HigherBit(x, k);
      BitAboveRange(x / 2, if width == 0 then 0 else width - 1, k - 1);
    }
  }

  /** A word's signed reading has its 32 bits, and its sign above them. */
  lemma BitOfSigned(a: word, k: nat)
    ensures Bit(AsI32(a), k) == Bit(a, if k < 32 then k else 31)
  {
    hide Bit;
    assert Wrap(AsI32(a)) == a;
    Pow2Of32();
    if k < 32 {
      BitOfWrap(AsI32(a), k);
    } else {
      assert Pow2(32) == 2 * Pow2(31);
      BitAboveRange(AsI32(a), 31, k);
      BitAboveRange(AsI32(a), 31, 31);
      BitOfWrap(AsI32(a), 31);
    }
  }

  lemma BitOfUnsigned(a: word, k: nat)
    requires k >= 32
    ensures Bit(a, k) == 0
  {
    hide Bit;
    Pow2Of32();
    BitAboveRange(a, 32, k);
  }

  /** The bits determine the number. */
  lemma {:induction false} BitsDetermine(x: nat, y: nat, width: nat)
    requires x < Pow2(width) && y < Pow2(width)
    requires forall k: nat :: k < width ==> Bit(x, k) == Bit(y, k)
    ensures x == y
  {
    if width > 0 {
      hide Bit;
      forall k: nat | k < width - 1 ensures Bit(x / 2, k) == Bit(y / 2, k) {
        HigherBit(x, k + 1);
        HigherBit(y, k + 1);
        assert Bit(x, k + 1) == Bit(y, k + 1);
      }
      BitsDetermine(x / 2, y / 2, width - 1);
      LowestBit(x);
      LowestBit(y);
      assert Bit(x, 0) == Bit(y, 0);
    }
  }

  // ---------------------------------------------------------------- memory

  lemma {:induction false} WordBytes(v: word)
    ensures LittleEndian(v, 4) == [v % 256, v / 0x100 % 256, v / 0x1_0000 % 256, v / 0x100_0000 % 256]
    ensures LittleEndian(v, 2) == [v % 256, v / 0x100 % 256] && LittleEndian(v, 1) == [v % 256]
  {
    assert LittleEndian(v / 0x100 / 0x100 / 0x100, 1) == [v / 0x100 / 0x100 / 0x100 % 256];
    assert LittleEndian(v / 0x100 / 0x100, 2) == [v / 0x100 / 0x100 % 256] + LittleEndian(v / 0x100 / 0x100 / 0x100, 1);
    assert LittleEndian(v / 0x100, 3) == [v / 0x100 % 256] + LittleEndian(v / 0x100 / 0x100, 2);
  }

  lemma ReadBack(m: image, addr: word, bytes: seq<byte>)
    requires addr + |bytes| <= |m|
    ensures ReadBytes(WriteBytes(m, addr, bytes), addr, |bytes|) == Some(bytes)
  {
    assert WriteBytes(m, addr, bytes)[addr..addr + |bytes|] == bytes;
  }

  lemma BytesMakeWord(v: word)
    ensures v % 256 + 0x100 * (v / 0x100 % 256) == v % 0x1_0000
    ensures v % 0x1_0000 + 0x1_0000 * (v / 0x1_0000 % 256) + 0x100_0000 * (v / 0x100_0000 % 256) == v
  {
  }

  /** A load of any width gives back what a store of that width put there. */
  lemma LoadAfterStore(m: image, addr: word, v: word)
    ensures addr + 4 <= |m| ==> Read32(WriteBytes(m, addr, LittleEndian(v, 4)), addr) == Some(v)
    ensures addr + 2 <= |m| ==> Read16(WriteBytes(m, addr, LittleEndian(v, 2)), addr) == Some(v % 0x1_0000)
    ensures addr + 1 <= |m| ==> Read8(WriteBytes(m, addr, LittleEndian(v, 1)), addr) == Some(v % 0x100)
  {
    hide LittleEndian, WriteBytes, ReadBytes;
    WordBytes(v);
    BytesMakeWord(v);
    if addr + 4 <= |m| {
      ReadBack(m, addr, LittleEndian(v, 4));
    }
    if addr + 2 <= |m| {
      ReadBack(m, addr, LittleEndian(v, 2));
    }
    if addr + 1 <= |m| {
      ReadBack(m, addr, LittleEndian(v, 1));
    }
  }

  /** A store leaves every byte outside its range alone. */
  lemma StoreIsLocal(m: image, addr: word, bytes: seq<byte>, other: word, width: nat)
    requires addr + |bytes| <= |m| && other + width <= |m|
    requires other + width <= addr || addr + |bytes| <= other
    ensures ReadBytes(WriteBytes(m, addr, bytes), other, width) == ReadBytes(m, other, width)
  {
    var m' := WriteBytes(m, addr, bytes);
    assert forall i :: other <= i < other + width ==> m'[i] == m[i];
    assert m'[other..other + width] == m[other..other + width];
  }
}
