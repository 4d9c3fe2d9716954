/** What each instruction does, in terms that do not mention how the interpreter
    computes it: sums and differences by congruence, comparisons by the existence of
    a difference, shifts and bitwise operations bit by bit, division by its equation,
    loads and stores by the bytes of memory.  Together with the immediate encodings
    these fix the interpreter on every instruction word
    (RISC-V Unprivileged ISA manual, version 20191213, sections 2.3 to 2.6 and 7). */
module InstructionSet {
  import opened Words
  import opened Isa
  import opened IsaLaws

  // ---------------------------------------------------------------- fields

  /** The instruction word with these fields. */
  function InstructionWord(funct7: nat, rs2: reg, rs1: reg, funct3: nat, rd: reg, opcode: nat): word
    requires funct7 < 128 && funct3 < 8 && opcode < 128
  {
    funct7 * 0x200_0000 + rs2 * 0x10_0000 + rs1 * 0x8000 + funct3 * 0x1000 + rd * 0x80 + opcode
  }

  /** The decoder finds the fields that were put into a word. */
  lemma FieldsAreFound(funct7: nat, rs2: reg, rs1: reg, funct3: nat, rd: reg, opcode: nat)
    requires funct7 < 128 && funct3 < 8 && opcode < 128
    ensures var insn := InstructionWord(funct7, rs2, rs1, funct3, rd, opcode);
            && Funct7(insn) == funct7 && Rs2(insn) == rs2 && Rs1(insn) == rs1
            && Funct3(insn) == funct3 && Rd(insn) == rd && Opcode(insn) == opcode
  {
    var insn := InstructionWord(funct7, rs2, rs1, funct3, rd, opcode);
    var above3 := funct7 * 0x400 + rs2 * 0x20 + rs1;
    Field(insn, 0, 128, funct7, 0x200_0000, insn - funct7 * 0x200_0000);
    Field(insn, funct7, 32, rs2, 0x10_0000, rs1 * 0x8000 + funct3 * 0x1000 + rd * 0x80 + opcode);
    Field(insn, funct7 * 0x20 + rs2, 32, rs1, 0x8000, funct3 * 0x1000 + rd * 0x80 + opcode);
    Field(insn, above3, 8, funct3, 0x1000, rd * 0x80 + opcode);
    Field(insn, above3 * 8 + funct3, 32, rd, 0x80, opcode);
    QuotientIsUnique(insn, 0x80, (above3 * 8 + funct3) * 32 + rd, opcode);
  }

  /** And a word is made of the fields that the decoder finds in it. */
  lemma FieldsAreAll(insn: word)
    ensures Funct7(insn) < 128 && Opcode(insn) < 128
    ensures InstructionWord(Funct7(insn), Rs2(insn), Rs1(insn), Funct3(insn), Rd(insn), Opcode(insn)) == insn
  {
    AboveRd(insn);
    AboveFunct3(insn);
    AboveRs1(insn);
    AboveRs2(insn);
  }

  lemma AboveRd(x: nat)
    ensures x / 0x80 == 32 * (x / 0x1000) + x / 0x80 % 32
  {
  }

  lemma AboveFunct3(x: nat)
    ensures x / 0x1000 == 8 * (x / 0x8000) + x / 0x1000 % 8
  {
  }

  lemma AboveRs1(x: nat)
    ensures x / 0x8000 == 32 * (x / 0x10_0000) + x / 0x8000 % 32
  {
  }

  lemma AboveRs2(x: nat)
    ensures x / 0x10_0000 == 32 * (x / 0x200_0000) + x / 0x10_0000 % 32
  {
  }

  // ------------------------------------------------- arithmetic and logic

  datatype AluOp = ADD | SUB | SLL | SLT | SLTU | XOR | SRL | SRA | OR | AND

  /** The function codes of the register forms. */
  function Code(op: AluOp): (int, int) {
    match op
    case ADD => (0, 0)
    case SUB => (0, 0x20)
    case SLL => (1, 0)
    case SLT => (2, 0)
    case SLTU => (3, 0)
    case XOR => (4, 0)
    case SRL => (5, 0)
    case SRA => (5, 0x20)
    case OR => (6, 0)
    case AND => (7, 0)
  }

  function Plus(x: int, d: nat): int {
    x + d
  }

  /** `y` is `x` and something more. */
  ghost predicate Exceeds(y: int, x: int) {
    exists d: nat :: d > 0 && Plus(x, d) == y
  }

  /** The numbers agree in their lower 32 bits. */
  ghost predicate Congruent(x: int, y: int) {
    exists k :: x == y + k * 0x1_0000_0000
  }

  /** `r` is what the operation makes of `a` and `b`. */
  ghost predicate Means(op: AluOp, a: word, b: word, r: word) {
    match op
    case ADD => Congruent(a + b, r)
    case SUB => Congruent(r + b, a)
    case SLT => r == if Exceeds(AsI32(b), AsI32(a)) then 1 else 0
    case SLTU => r == if Exceeds(b, a) then 1 else 0
    case SLL => forall k: nat :: k < 32 ==> Bit(r, k) == if k < b % 32 then 0 else Bit(a, k - b % 32)
    case SRL => forall k: nat :: k < 32 ==> Bit(r, k) == if k + b % 32 < 32 then Bit(a, k + b % 32) else 0
    case SRA => forall k: nat :: k < 32 ==> Bit(r, k) == Bit(a, if k + b % 32 < 32 then k + b % 32 else 31)
    case XOR => forall k: nat :: k < 32 ==> (Bit(r, k) == 1 <==> Bit(a, k) != Bit(b, k))
    case OR => forall k: nat :: k < 32 ==> (Bit(r, k) == 1 <==> Bit(a, k) == 1 || Bit(b, k) == 1)
    case AND => forall k: nat :: k < 32 ==> (Bit(r, k) == 1 <==> Bit(a, k) == 1 && Bit(b, k) == 1)
  }

  /** The meaning leaves one result. */
  lemma MeaningIsUnique(op: AluOp, a: word, b: word, r: word, r': word)
    requires Means(op, a, b, r) && Means(op, a, b, r')
    ensures r == r'
  {
    hide Bit;
    match op {
      case ADD =>
      case SUB =>
      case SLT =>
      case SLTU =>
      case _ =>
        assert forall k: nat :: k < 32 ==> Bit(r, k) == Bit(r', k);
        Pow2Of32();
        BitsDetermine(r, r', 32);
    }
  }

  lemma SumMeans(a: word, b: word)
    ensures Means(ADD, a, b, Wrap(a + b)) && Means(SUB, a, b, Wrap(a - b))
  {
    assert a + b == Wrap(a + b) + (a + b) / 0x1_0000_0000 * 0x1_0000_0000;
    assert Wrap(a - b) + b == a + (-((a - b) / 0x1_0000_0000)) * 0x1_0000_0000;
  }

  lemma LessMeansExceeds(x: int, y: int)
    ensures x < y <==> Exceeds(y, x)
  {
    if x < y {
      assert Plus(x, y - x) == y;
    }
  }

  lemma ShiftsMean(a: word, b: word)
    ensures var n := b % 32;
            && Means(SLL, a, b, Wrap(a * Pow2(n))) && Means(SRL, a, b, Wrap(a / Pow2(n)))
            && Means(SRA, a, b, Wrap(AsI32(a) / Pow2(n)))
  {
    hide Bit, Pow2, Wrap, AsI32;
    var n := b % 32;
    forall k: nat | k < 32
      ensures Bit(Wrap(a * Pow2(n)), k) == if k < n then 0 else Bit(a, k - n)
      ensures Bit(Wrap(a / Pow2(n)), k) == if k + n < 32 then Bit(a, k + n) else 0
      ensures Bit(Wrap(AsI32(a) / Pow2(n)), k) == Bit(a, if k + n < 32 then k + n else 31)
    {
      BitOfWrap(a * Pow2(n), k);
      BitOfProduct(a, n, k);
      BitOfWrap(a / Pow2(n), k);
      BitOfQuotient(a, n, k);
      if k + n >= 32 {
        BitOfUnsigned(a, k + n);
      }
      BitOfWrap(AsI32(a) / Pow2(n), k);
      BitOfQuotient(AsI32(a), n, k);
      BitOfSigned(a, k + n);
    }
  }

  lemma BitwiseMeans(a: word, b: word)
    ensures Means(XOR, a, b, WordOp(Xor, a, b))
    ensures Means(OR, a, b, WordOp(Or, a, b))
    ensures Means(AND, a, b, WordOp(And, a, b))
  {
    hide Bit, WordOp;
    forall k: nat, op: BitOp | k < 32 ensures Bit(WordOp(op, a, b), k) == BitAt(op, Bit(a, k), Bit(b, k)) {
      BitOfWordOp(op, a, b, k);
    }
  }

  lemma OpRegMeans(op: AluOp, a: word, b: word)
    ensures var r := OpReg(Code(op).0, Code(op).1, a, b);
            r.Some? && Means(op, a, b, r.value)
  {
    SumMeans(a, b);
    LessMeansExceeds(AsI32(a), AsI32(b));
    LessMeansExceeds(a, b);
    ShiftsMean(a, b);
    BitwiseMeans(a, b);
    hide Bit, WordOp, Pow2, AsI32, Wrap;
  }

  /** The register forms do what their operation means to the two source registers. */
  lemma RegisterForm(regs: regfile, data: image, pc: word, insn: word, op: AluOp)
    requires Opcode(insn) == 0x33 && Funct3(insn) == Code(op).0 && Funct7(insn) == Code(op).1
    ensures var e := Evaluate(regs, data, pc, insn);
            && e.Some? && e.value.Write? && e.value.rd == Rd(insn) && e.value.exec == AluUnit
            && Means(op, regs[Rs1(insn)], regs[Rs2(insn)], e.value.value)
  {
    hide OpImm, OpReg, MulDiv, BranchTaken, LoadValue, StoreWidth, ImmI, ImmS, ImmB, ImmJ, ImmU, Means, Rd, Rs1, Rs2;
    OpRegMeans(op, regs[Rs1(insn)], regs[Rs2(insn)]);
  }

  predicate IsShift(op: AluOp) {
    op == SLL || op == SRL || op == SRA
  }

  lemma WrapIsWord(a: word, imm: int)
    ensures Wrap(a + imm) == Wrap(a + Wrap(imm))
  {
    WrapAdd(imm, a);
  }

  lemma SignedWrap(imm: int)
    requires -0x8000_0000 <= imm < 0x8000_0000
    ensures AsI32(Wrap(imm)) == imm
  {
  }

  lemma ImmIFits(insn: word)
    ensures -0x800 <= ImmI(insn) < 0x800
  {
    SignWidths();
  }

  lemma OpImmMeans(op: AluOp, a: word, imm: int, funct7: nat, shamt: nat)
    requires op != SUB && -0x800 <= imm < 0x800 && shamt < 32
    requires IsShift(op) ==> funct7 == Code(op).1
    ensures var r := OpImm(Code(op).0, funct7, a, imm, shamt);
            r.Some? && Means(op, a, if IsShift(op) then shamt else Wrap(imm), r.value)
  {
    hide Bit, WordOp, Pow2, AsI32, Wrap, Congruent, Exceeds;
    var b := Wrap(imm);
    if IsShift(op) {
      ShiftsMean(a, shamt);
    } else if op == ADD {
      SumMeans(a, b);
      WrapIsWord(a, imm);
    } else if op == SLT {
      SignedWrap(imm);
      LessMeansExceeds(AsI32(a), AsI32(b));
    } else if op == SLTU {
      LessMeansExceeds(a, b);
    } else {
      BitwiseMeans(a, b);
    }
  }

  /** The immediate forms do what their operation means to the source register and
      the sign-extended immediate; the shifts take their amount from the rs2 field. */
  lemma ImmediateForm(regs: regfile, data: image, pc: word, insn: word, op: AluOp)
    requires Opcode(insn) == 0x13 && Funct3(insn) == Code(op).0 && op != SUB
    requires IsShift(op) ==> Funct7(insn) == Code(op).1
    ensures var e := Evaluate(regs, data, pc, insn);
            && e.Some? && e.value.Write? && e.value.rd == Rd(insn) && e.value.exec == AluUnit
            && Means(op, regs[Rs1(insn)], if IsShift(op) then Rs2(insn) else Wrap(ImmI(insn)), e.value.value)
  {
    hide OpImm, OpReg, MulDiv, BranchTaken, LoadValue, StoreWidth, ImmI, ImmS, ImmB, ImmJ, ImmU, Means, Rd, Rs1, Rs2;
    hide Wrap;
    ImmIFits(insn);
    OpImmMeans(op, regs[Rs1(insn)], ImmI(insn), Funct7(insn), Rs2(insn));
  }

  /** LUI and AUIPC: the upper twenty bits of the word, on their own or added to the
      pc. */
  lemma UpperForms(regs: regfile, data: image, pc: word, insn: word)
    requires Opcode(insn) == 0x37 || Opcode(insn) == 0x17
    ensures var e, upper := Evaluate(regs, data, pc, insn), insn / 0x1000 * 0x1000;
            && e.Some? && e.value.Write? && e.value.rd == Rd(insn) && e.value.exec == AluUnit
            && (Opcode(insn) == 0x37 ==> e.value.value % 0x1000 == 0 && e.value.value / 0x1000 == insn / 0x1000)
            && (Opcode(insn) == 0x17 ==> Means(ADD, pc, upper, e.value.value))
  {
    hide OpImm, OpReg, MulDiv, BranchTaken, LoadValue, StoreWidth, ImmI, ImmS, ImmB, ImmJ, Means, Rd, Rs1, Rs2;
    SumMeans(pc, insn / 0x1000 * 0x1000);
  }

  // --------------------------------------- multiplication and division

  datatype MulOp = MUL | MULH | MULHSU | MULHU | DIV | DIVU | REM | REMU

  function MulCode(op: MulOp): nat {
    match op
    case MUL => 0
    case MULH => 1
    case MULHSU => 2
    case MULHU => 3
    case DIV => 4
    case DIVU => 5
    case REM => 6
    case REMU => 7
  }

  /** `high` is what the product has above its lower 32 bits. */
  predicate IsUpperHalf(high: int, product: int) {
    0 <= product - high * 0x1_0000_0000 < 0x1_0000_0000
  }

  /** Dividing `x` by `y` gives `q` and leaves `m`, truncating toward zero. */
  predicate Divides(x: int, y: int, q: int, m: int) {
    x == y * q + m && Abs(m) < Abs(y) && (x >= 0 ==> m >= 0) && (x <= 0 ==> m <= 0)
  }

  ghost predicate IsQuotient(x: int, y: int, q: int) {
    exists m :: Divides(x, y, q, m)
  }

  ghost predicate IsRemainder(x: int, y: int, m: int) {
    exists q :: Divides(x, y, q, m)
  }

  ghost predicate MulMeans(op: MulOp, a: word, b: word, r: word) {
    var x, y := AsI32(a), AsI32(b);
    var overflow := x == -0x8000_0000 && y == -1;
    match op
    case MUL => Congruent(x * y, r)
    case MULH => IsUpperHalf(AsI32(r), x * y)
    case MULHSU => IsUpperHalf(AsI32(r), x * b)
    case MULHU => IsUpperHalf(r, a * b)
    case DIV => if y == 0 then AsI32(r) == -1 else if overflow then AsI32(r) == x else IsQuotient(x, y, AsI32(r))
    case REM => if y == 0 then r == a else if overflow then r == 0 else IsRemainder(x, y, AsI32(r))
    case DIVU => if b == 0 then AsI32(r) == -1 else IsQuotient(a, b, r)
    case REMU => if b == 0 then r == a else IsRemainder(a, b, r)
  }

  lemma ProductsMean(op: MulOp, a: word, b: word)
    requires MulCode(op) < 4
    ensures MulMeans(op, a, b, MulDiv(MulCode(op), a, b))
  {
    ProductHalves(a, b);
    hide MulDiv, AsI32, Wrap;
    assert AsI32(a) * AsI32(b) == MulDiv(0, a, b) + AsI32(MulDiv(1, a, b)) * 0x1_0000_0000;
  }

  lemma SignedDivisionDivides(x: int, y: int)
    requires y != 0
    ensures Divides(x, y, TruncDiv(x, y), TruncRem(x, y))
  {
    TruncatedDivision(x, y);
    hide TruncDiv, TruncRem;
    if x == 0 {
      ZeroRemainder(y);
    }
  }

  lemma ZeroRemainder(y: int)
    requires y != 0
    ensures TruncRem(0, y) == 0
  {
    assert TruncDiv(0, y) == 0;
  }

  lemma UnsignedDivisionDivides(a: word, b: word)
    requires b != 0
    ensures Divides(a, b, a / b, a % b) && Wrap(a / b) == a / b && Wrap(a % b) == a % b
  {
    DivisionEquation(a, b);
    var q := a / b;
    assert b * q == q + (b - 1) * q;
    assert (b - 1) * q >= 0;
  }

  lemma DivisionsMean(op: MulOp, a: word, b: word)
    requires MulCode(op) >= 4
    ensures MulMeans(op, a, b, MulDiv(MulCode(op), a, b))
  {
    DivisionResults(a, b);
    if op == DIV || op == REM {
      if b != 0 && !(a == 0x8000_0000 && b == 0xffff_ffff) {
        SignedDivisionDivides(AsI32(a), AsI32(b));
      }
      hide MulDiv, TruncDiv, TruncRem, Divides;
    } else if b != 0 {
      UnsignedDivisionDivides(a, b);
      hide Divides;
    }
  }

  /** Two truncated divisions agree, so the meanings leave one quotient and one
      remainder. */
  lemma DivisionIsUnique(x: int, y: int, q: int, m: int, q': int, m': int)
    requires Divides(x, y, q, m) && Divides(x, y, q', m')
    ensures q == q' && m == m'
  {
    assert y * (q - q') == y * q - y * q';
    SmallMultiple(y, q - q');
  }

  lemma SmallMultiple(y: int, d: int)
    requires Abs(y * d) < Abs(y)
    ensures d == 0
  {
    assert (Abs(y) as int) * d == if y < 0 then -(y * d) else y * d;
    MultipleLeavesRange(Abs(y), d);
  }

  /** Multiplications and divisions. */
  lemma MultiplyForm(regs: regfile, data: image, pc: word, insn: word, op: MulOp)
    requires Opcode(insn) == 0x33 && Funct7(insn) == 1 && Funct3(insn) == MulCode(op)
    ensures var e := Evaluate(regs, data, pc, insn);
            && e.Some? && e.value.Write? && e.value.rd == Rd(insn)
            && e.value.exec == (if op.MUL? || op.MULH? || op.MULHSU? || op.MULHU? then MulUnit else DivUnit)
            && MulMeans(op, regs[Rs1(insn)], regs[Rs2(insn)], e.value.value)
  {
    hide OpImm, OpReg, MulDiv, BranchTaken, LoadValue, StoreWidth, ImmI, ImmS, ImmB, ImmJ, ImmU, MulMeans, Rd, Rs1, Rs2;
    if MulCode(op) < 4 {
      ProductsMean(op, regs[Rs1(insn)], regs[Rs2(insn)]);
    } else {
      DivisionsMean(op, regs[Rs1(insn)], regs[Rs2(insn)]);
    }
  }

  // --------------------------------------------------- branches and jumps

  datatype Condition = BEQ | BNE | BLT | BGE | BLTU | BGEU

  function ConditionCode(c: Condition): nat {
    match c
    case BEQ => 0
    case BNE => 1
    case BLT => 4
    case BGE => 5
    case BLTU => 6
    case BGEU => 7
  }

  ghost predicate Holds(c: Condition, a: word, b: word) {
    match c
    case BEQ => a == b
    case BNE => a != b
    case BLT => Exceeds(AsI32(b), AsI32(a))
    case BGE => !Exceeds(AsI32(b), AsI32(a))
    case BLTU => Exceeds(b, a)
    case BGEU => !Exceeds(b, a)
  }

  lemma ConditionMeans(c: Condition, a: word, b: word)
    ensures BranchTaken(ConditionCode(c), a, b) == Some(Holds(c, a, b))
  {
    LessMeansExceeds(AsI32(a), AsI32(b));
    LessMeansExceeds(a, b);
  }

  /** A branch compares its two source registers, and where it goes from there. */
  lemma BranchForm(regs: regfile, data: image, pc: word, insn: word, c: Condition)
    requires Opcode(insn) == 0x63 && Funct3(insn) == ConditionCode(c)
    ensures var e := Evaluate(regs, data, pc, insn);
            && e.Some? && e.value.Branch?
            && (e.value.taken <==> Holds(c, regs[Rs1(insn)], regs[Rs2(insn)]))
            && Congruent(pc + ImmB(insn), e.value.target)
            && Congruent(pc + (if Holds(c, regs[Rs1(insn)], regs[Rs2(insn)]) then ImmB(insn) else 4),
                         NextPc(pc, e.value))
  {
    hide OpImm, OpReg, MulDiv, BranchTaken, LoadValue, StoreWidth, ImmI, ImmS, ImmB, ImmJ, ImmU, Holds, Rd, Rs1, Rs2;
    ConditionMeans(c, regs[Rs1(insn)], regs[Rs2(insn)]);
    WrapIsCongruent(pc + ImmB(insn));
    WrapIsCongruent(pc + 4);
  }

  lemma WrapIsCongruent(x: int)
    ensures Congruent(x, Wrap(x))
  {
    assert x == Wrap(x) + x / 0x1_0000_0000 * 0x1_0000_0000;
  }

  /** The comparing operations and the branches agree. */
  lemma ComparisonsAgree(a: word, b: word)
    ensures Means(SLT, a, b, 1) <==> Holds(BLT, a, b)
    ensures Means(SLTU, a, b, 1) <==> Holds(BLTU, a, b)
    ensures Holds(BEQ, a, b) <==> !Exceeds(a, b) && !Exceeds(b, a)
  {
    LessMeansExceeds(a, b);
    LessMeansExceeds(b, a);
  }

  /** JAL and JALR leave the address of the word behind them and go to pc plus the
      offset, or to the even address at or below register plus immediate. */
  lemma JumpForms(regs: regfile, data: image, pc: word, insn: word)
    requires Opcode(insn) == 0x6f || (Opcode(insn) == 0x67 && Funct3(insn) == 0)
    ensures var e := Evaluate(regs, data, pc, insn);
            && e.Some? && e.value.Jump? && e.value.rd == Rd(insn) && Congruent(pc + 4, e.value.value)
            && NextPc(pc, e.value) == e.value.target
            && (Opcode(insn) == 0x6f ==> Congruent(pc + ImmJ(insn), e.value.target))
            && (Opcode(insn) == 0x67 ==>
                && e.value.target % 2 == 0
                && (Congruent(regs[Rs1(insn)] + ImmI(insn), e.value.target)
                    || Congruent(regs[Rs1(insn)] + ImmI(insn), e.value.target + 1)))
  {
    hide OpImm, OpReg, MulDiv, BranchTaken, LoadValue, StoreWidth, ImmI, ImmS, ImmB, ImmJ, ImmU, Rd, Rs1, Rs2, Wrap;
    hide Congruent;
    WrapIsCongruent(pc + 4);
    WrapIsCongruent(pc + ImmJ(insn));
    WrapIsCongruent(regs[Rs1(insn)] + ImmI(insn));
  }

  // ------------------------------------------------------ loads and stores

  /** The number in `width` bytes of memory, the lowest byte first. */
  function NumberAt(m: seq<byte>, addr: nat, width: nat): nat
    requires addr + width <= |m|
    decreases width
  {
    if width == 0 then 0 else m[addr] + 256 * NumberAt(m, addr + 1, width - 1)
  }

  datatype LoadOp = LB | LH | LW | LBU | LHU
  datatype StoreOp = SB | SH | SW

  function LoadCode(op: LoadOp): nat {
    match op
    case LB => 0
    case LH => 1
    case LW => 2
    case LBU => 4
    case LHU => 5
  }

  function LoadSize(op: LoadOp): nat {
    match op
    case LB => 1
    case LH => 2
    case LW => 4
    case LBU => 1
    case LHU => 2
  }

  function StoreCode(op: StoreOp): nat {
    match op
    case SB => 0
    case SH => 1
    case SW => 2
  }

  function StoreSize(op: StoreOp): nat {
    match op
    case SB => 1
    case SH => 2
    case SW => 4
  }

  /** How many numbers fit into `width` bytes. */
  function Span(width: nat): (n: nat)
    ensures n > 0
  {
    if width == 0 then 1 else 256 * Span(width - 1)
  }

  /** `r` is what the load makes of the number `n` it finds: the signed loads give
      the word whose signed reading is in the signed range and ends in `n`. */
  predicate LoadMeans(op: LoadOp, n: nat, r: word) {
    match op
    case LB => -0x80 <= AsI32(r) < 0x80 && AsI32(r) % 0x100 == n
    case LH => -0x8000 <= AsI32(r) < 0x8000 && AsI32(r) % 0x1_0000 == n
    case _ => r == n
  }

  /** Sign extension of a number that fits its width. */
  lemma SignExtendFitting(v: nat, width: nat, span: nat)
    requires width >= 1 && Pow2(width - 1) == span && v < 2 * span
    ensures SignExtend(v, width) == if v < span then v else v - 2 * span
  {
    assert Pow2(width) == 2 * span;
    QuotientIsUnique(v, 2 * span, 0, v);
  }

  lemma ShortPowers()
    ensures Pow2(7) == 0x80 && Pow2(15) == 0x8000
  {
  }

  lemma Extends(v: word)
    ensures v < 0x100 ==> LoadMeans(LB, v, Wrap(SignExtend(v, 8)))
    ensures v < 0x1_0000 ==> LoadMeans(LH, v, Wrap(SignExtend(v, 16)))
  {
    hide Pow2, SignExtend;
    ShortPowers();
    if v < 0x100 {
      SignExtendFitting(v, 8, 0x80);
    }
    if v < 0x1_0000 {
      SignExtendFitting(v, 16, 0x8000);
    }
  }

  lemma NumbersAreRead(m: image, addr: word)
    ensures addr + 1 <= |m| ==> Read8(m, addr) == Some(NumberAt(m, addr, 1)) && NumberAt(m, addr, 1) < 0x100
    ensures addr + 2 <= |m| ==> Read16(m, addr) == Some(NumberAt(m, addr, 2)) && NumberAt(m, addr, 2) < 0x1_0000
    ensures addr + 4 <= |m| ==> Read32(m, addr) == Some(NumberAt(m, addr, 4))
  {
    if addr + 1 <= |m| {
      assert NumberAt(m, addr, 1) == m[addr];
    }
    if addr + 2 <= |m| {
      assert NumberAt(m, addr + 1, 1) == m[addr + 1];
    }
    if addr + 4 <= |m| {
      assert NumberAt(m, addr + 3, 1) == m[addr + 3];
      assert NumberAt(m, addr + 2, 2) == m[addr + 2] + 256 * NumberAt(m, addr + 3, 1);
      assert NumberAt(m, addr + 1, 3) == m[addr + 1] + 256 * NumberAt(m, addr + 2, 2);
    }
  }

  lemma LoadValueMeans(data: image, op: LoadOp, addr: word)
    ensures var r := LoadValue(data, LoadCode(op), addr);
            && (r.Some? <==> addr + LoadSize(op) <= |data|)
            && (r.Some? ==> LoadMeans(op, NumberAt(data, addr, LoadSize(op)), r.value))
  {
    hide NumberAt, SignExtend, Wrap;
    NumbersAreRead(data, addr);
    if addr + LoadSize(op) <= |data| && LoadSize(op) < 4 {
      Extends(NumberAt(data, addr, LoadSize(op)));
    }
    hide AsI32;
  }

  /** A load takes the number at register plus immediate, or fails if memory does not
      reach that far. */
  lemma LoadForm(regs: regfile, data: image, pc: word, insn: word, op: LoadOp)
    requires Opcode(insn) == 3 && Funct3(insn) == LoadCode(op)
    ensures var e, addr := Evaluate(regs, data, pc, insn), Wrap(regs[Rs1(insn)] + ImmI(insn));
            && (e.Some? <==> addr + LoadSize(op) <= |data|)
            && (e.Some? ==> e.value.Load? && e.value.rd == Rd(insn) && e.value.addr == addr
                            && LoadMeans(op, NumberAt(data, addr, LoadSize(op)), e.value.value))
  {
    hide OpImm, OpReg, MulDiv, BranchTaken, LoadValue, StoreWidth, ImmI, ImmS, ImmB, ImmJ, ImmU, Rd, Rs1, Rs2, Wrap;
    hide NumberAt, LoadMeans;
    LoadValueMeans(data, op, Wrap(regs[Rs1(insn)] + ImmI(insn)));
  }

  lemma BytesOfNumber(v: word, op: StoreOp)
    ensures var bytes := LittleEndian(v, StoreSize(op));
            NumberAt(bytes, 0, StoreSize(op)) == v % Span(StoreSize(op))
  {
    WordBytes(v);
    BytesMakeWord(v);
    assert Span(1) == 0x100 && Span(2) == 0x1_0000 && Span(3) == 0x100_0000 && Span(4) == 0x1_0000_0000;
    var bytes := LittleEndian(v, StoreSize(op));
    hide LittleEndian, Span;
    if op != SB {
      assert NumberAt(bytes, 1, 1) == bytes[1];
    }
    if op == SW {
      assert NumberAt(bytes, 3, 1) == bytes[3];
      assert NumberAt(bytes, 2, 2) == bytes[2] + 256 * NumberAt(bytes, 3, 1);
      assert NumberAt(bytes, 1, 3) == bytes[1] + 256 * NumberAt(bytes, 2, 2);
    }
  }

  /** A store puts the low bytes of its second register at first register plus
      immediate, or fails if memory does not reach that far. */
  lemma StoreForm(regs: regfile, data: image, pc: word, insn: word, op: StoreOp)
    requires Opcode(insn) == 0x23 && Funct3(insn) == StoreCode(op)
    ensures var e, addr := Evaluate(regs, data, pc, insn), Wrap(regs[Rs1(insn)] + ImmS(insn));
            && (e.Some? <==> addr + StoreSize(op) <= |data|)
            && (e.Some? ==> e.value.Store? && e.value.addr == addr && |e.value.bytes| == StoreSize(op)
                            && NumberAt(e.value.bytes, 0, StoreSize(op)) == regs[Rs2(insn)] % Span(StoreSize(op)))
  {
    hide OpImm, OpReg, MulDiv, BranchTaken, LoadValue, ImmI, ImmS, ImmB, ImmJ, ImmU, Rd, Rs1, Rs2, Wrap;
    hide NumberAt, LittleEndian, Span;
    BytesOfNumber(regs[Rs2(insn)], op);
  }

  lemma {:induction false} NumberInSlice(m: seq<byte>, addr: nat, bytes: seq<byte>, from: nat, width: nat)
    requires addr + |bytes| <= |m| && m[addr..addr + |bytes|] == bytes && from + width <= |bytes|
    ensures NumberAt(m, addr + from, width) == NumberAt(bytes, from, width)
    decreases width
  {
    if width > 0 {
      NumberInSlice(m, addr, bytes, from + 1, width - 1);
      assert m[addr + from] == m[addr..addr + |bytes|][from];
    }
  }

  /** What a store put into memory, a load of that size at that address makes its
      own of, whatever the registers and the pc have become. */
  lemma LoadTakesWhatStorePut(regs: regfile, data: image, pc: word, st: word, s: StoreOp,
                              regs': regfile, pc': word, ld: word, l: LoadOp)
    requires Opcode(st) == 0x23 && Funct3(st) == StoreCode(s) && Evaluate(regs, data, pc, st).Some?
    requires Opcode(ld) == 3 && Funct3(ld) == LoadCode(l) && LoadSize(l) == StoreSize(s)
    requires Evaluate(regs, data, pc, st).value.Store?
    requires Evaluate(regs, data, pc, st).value.addr == Wrap(regs'[Rs1(ld)] + ImmI(ld))
    ensures var e := Evaluate(regs, data, pc, st).value;
            var loaded := Evaluate(regs', WriteBytes(data, e.addr, e.bytes), pc', ld);
            && loaded.Some? && loaded.value.Load? && loaded.value.rd == Rd(ld)
            && LoadMeans(l, regs[Rs2(st)] % Span(LoadSize(l)), loaded.value.value)
  {
    hide Evaluate, NumberAt, LoadMeans, Span, Wrap, ImmI, ImmS, Rd, Rs1, Rs2;
    StoreForm(regs, data, pc, st, s);
    var e := Evaluate(regs, data, pc, st).value;
    var after := WriteBytes(data, e.addr, e.bytes);
    assert after[e.addr..e.addr + |e.bytes|] == e.bytes;
    NumberInSlice(after, e.addr, e.bytes, 0, |e.bytes|);
    LoadForm(regs', after, pc', ld, l);
  }

  // ------------------------------------------------ which words execute

  /** The remaining instructions. */
  lemma SystemForms(regs: regfile, data: image, pc: word, insn: word)
    ensures Opcode(insn) == 0x0f ==> Evaluate(regs, data, pc, insn) == Some(Fence)
    ensures insn == 0x73 || insn == 0x10_0073 ==> Evaluate(regs, data, pc, insn) == Some(Halt)
  {
    hide OpImm, OpReg, MulDiv, BranchTaken, LoadValue, StoreWidth, ImmI, ImmS, ImmB, ImmJ, ImmU, Rd, Rs1, Rs2, Wrap;
  }

  /** The instructions of RV32IM, as the opcode and function fields tell them. */
  predicate Legal(insn: word) {
    var funct3, funct7 := Funct3(insn), Funct7(insn);
    match Opcode(insn)
    case 0x37 => true
    case 0x17 => true
    case 0x6f => true
    case 0x0f => true
    case 0x67 => funct3 == 0
    case 0x63 => funct3 != 2 && funct3 != 3
    case 0x03 => funct3 < 3 || funct3 == 4 || funct3 == 5
    case 0x23 => funct3 < 3
    case 0x13 => (funct3 == 1 ==> funct7 == 0) && (funct3 == 5 ==> funct7 == 0 || funct7 == 0x20)
    case 0x33 => funct7 == 0 || funct7 == 1 || (funct7 == 0x20 && (funct3 == 0 || funct3 == 5))
    case 0x73 => insn == 0x73 || insn == 0x10_0073
    case _ => false
  }

  /** The data memory reaches as far as a load or store does. */
  predicate Reaches(regs: regfile, data: image, insn: word) {
    var a, size := regs[Rs1(insn)], match Funct3(insn) % 4 case 0 => 1 case 1 => 2 case _ => 4;
    && (Opcode(insn) == 0x03 ==> Wrap(a + ImmI(insn)) + size <= |data|)
    && (Opcode(insn) == 0x23 ==> Wrap(a + ImmS(insn)) + size <= |data|)
  }

  /** Exactly these execute, wherever their data is in range. */
  lemma LegalExecutes(regs: regfile, data: image, pc: word, insn: word)
    ensures Evaluate(regs, data, pc, insn).Some? <==> Legal(insn) && Reaches(regs, data, insn)
  {
    hide ImmI, ImmS, ImmB, ImmJ, ImmU, Rd, Rs1, Rs2, Wrap, MulDiv, SignExtend, LittleEndian, WordOp, Pow2;
    hide AsI32, Opcode, Funct7;
  }

  datatype Kind = AluKind | MulDivKind | JumpKind | BranchKind | LoadKind | StoreKind | HaltKind

  /** The class an instruction is counted in. */
  function KindOf(insn: word): Kind {
    match Opcode(insn)
    case 0x6f => JumpKind
    case 0x67 => JumpKind
    case 0x63 => BranchKind
    case 0x03 => LoadKind
    case 0x23 => StoreKind
    case 0x73 => HaltKind
    case 0x33 => if Funct7(insn) == 1 then MulDivKind else AluKind
    case _ => AluKind
  }

  /** Every instruction that executes has the effect of its class. */
  lemma KindOfEffect(regs: regfile, data: image, pc: word, insn: word)
    requires Evaluate(regs, data, pc, insn).Some?
    ensures var e := Evaluate(regs, data, pc, insn).value;
            match KindOf(insn)
            case AluKind => e.Fence? || (e.Write? && e.exec == AluUnit)
            case MulDivKind => e.Write? && e.exec != AluUnit
            case JumpKind => e.Jump?
            case BranchKind => e.Branch?
            case LoadKind => e.Load?
            case StoreKind => e.Store?
            case HaltKind => e.Halt?
  {
    hide OpImm, OpReg, MulDiv, BranchTaken, LoadValue, StoreWidth, ImmI, ImmS, ImmB, ImmJ, ImmU, Rd, Rs1, Rs2, Wrap;
    hide Opcode, Funct3, Funct7, LittleEndian;
  }

  /** The effect's destination is the rd field. */
  lemma DestinationIsRd(regs: regfile, data: image, pc: word, insn: word)
    requires Evaluate(regs, data, pc, insn).Some?
    ensures var e := Evaluate(regs, data, pc, insn).value;
            e.Write? || e.Jump? || e.Load? ==> e.rd == Rd(insn)
  {
    hide OpImm, OpReg, MulDiv, BranchTaken, LoadValue, StoreWidth, ImmI, ImmS, ImmB, ImmJ, ImmU, Rd, Rs1, Rs2, Wrap;
    hide Opcode, Funct3, Funct7, LittleEndian;
  }

  /** An instruction executes where it is aligned, inside instruction memory, legal
      and within reach of its data. */
  lemma ExecutesExactly(imem: image, a: ArchState)
    ensures Execute(imem, a).Some? <==>
            && a.pc % 4 == 0 && a.pc + 4 <= |imem|
            && var insn := Read32(imem, a.pc).value; Legal(insn) && Reaches(a.regs, a.data, insn)
  {
    hide Evaluate, Legal, Reaches, PredictRedirect, WriteReg, WriteBytes, NextPc;
    if a.pc + 4 <= |imem| {
      LegalExecutes(a.regs, a.data, a.pc, Read32(imem, a.pc).value);
    }
  }

  /** The lookahead foresees redirects of legal jumps and branches only, whatever it
      finds. */
  lemma ForeseenIsLegal(regs: regfile, pc: word, insn: word)
    ensures PredictRedirect(regs, pc, insn).Target? ==>
              Legal(insn) && (KindOf(insn) == JumpKind || KindOf(insn) == BranchKind)
    ensures !PredictRedirect(regs, pc, insn).Unavailable?
  {
    hide ImmI, ImmJ, ImmB, Rs1, Rs2, Rd, Wrap, AsI32;
  }

  /** It throws exactly at an aligned address past the end of instruction memory, and
      foresees nothing at a misaligned one. */
  lemma LookAheadReads(imem: image, regs: regfile, nextPc: word)
    ensures var look := LookAhead(imem, regs, nextPc);
            && (look.Unavailable? <==> nextPc % 4 == 0 && nextPc + 4 > |imem|)
            && (look.Target? ==> nextPc % 4 == 0 && nextPc + 4 <= |imem| && Legal(Read32(imem, nextPc).value))
  {
    hide PredictRedirect, Legal;
    if nextPc + 4 <= |imem| {
      ForeseenIsLegal(regs, nextPc, Read32(imem, nextPc).value);
    }
  }

  /** What executing one instruction changes: at most the destination register,
      never x0; the bytes a store covers; the pc; and halting. */
  lemma ExecuteChanges(imem: image, a: ArchState, x: Executed)
    requires Execute(imem, a) == Some(x)
    ensures var e := x.retired.effect;
            && x.retired.pc == a.pc && Read32(imem, a.pc) == Some(x.retired.insn)
            && Evaluate(a.regs, a.data, a.pc, x.retired.insn) == Some(e)
            && x.next.halted == e.Halt?
            && x.next.pc == (if e.Jump? || (e.Branch? && e.taken) then e.target else Wrap(a.pc + 4))
    ensures var e := x.retired.effect;
            forall r: reg :: x.next.regs[r] ==
              if r == 0 then 0
              else if (e.Write? || e.Jump? || e.Load?) && e.rd == r then e.value
              else a.regs[r]
    ensures var e := x.retired.effect;
            && |x.next.data| == |a.data|
            && forall i: nat :: i < |a.data| ==>
                 x.next.data[i] ==
                   if e.Store? && e.addr <= i < e.addr + |e.bytes| then e.bytes[i - e.addr] else a.data[i]
  {
    hide Evaluate, Read32, LookAhead;
  }
}
