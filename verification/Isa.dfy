/** The architectural half of one step: decoding and executing an RV32IM
    instruction, and the look at the next instruction that the cache-overlap
    rule takes.  Nothing here knows about caches or cycles. */
module Isa {
  import opened Words

  type reg = r: nat | r < 32

  type regfile = r: seq<word> | |r| == 32 witness seq(32, _ => 0)

  /** A byte memory.  The bound keeps every fetch address of the front end,
      which runs up to 16 bytes past a fetched word, below 2^32. */
  type image = m: seq<byte> | |m| <= 0xffff_fff0

  /** The address of an instruction word that lies inside an image. */
  type codeAddr = p: word | p <= 0xffff_ffec

  // ---------------------------------------------------------------- memory

  function ReadBytes(m: image, addr: word, width: nat): (r: Option<seq<byte>>)
    ensures r.Some? <==> addr + width <= |m|
    ensures r.Some? ==> |r.value| == width
  {
    if addr + width > |m| then None else Some(m[addr..addr + width])
  }

  function Read8(m: image, addr: word): (r: Option<word>)
    ensures r.Some? <==> addr + 1 <= |m|
  {
    var b :- ReadBytes(m, addr, 1);
    Some(b[0])
  }

  function Read16(m: image, addr: word): (r: Option<word>)
    ensures r.Some? <==> addr + 2 <= |m|
  {
    var b :- ReadBytes(m, addr, 2);
    Some((b[0] as int) + 0x100 * (b[1] as int))
  }

  function Read32(m: image, addr: word): (r: Option<word>)
    ensures r.Some? <==> addr + 4 <= |m|
  {
    var b :- ReadBytes(m, addr, 4);
    Some((b[0] as int) + 0x100 * (b[1] as int) + 0x1_0000 * (b[2] as int) + 0x100_0000 * (b[3] as int))
  }

  function LittleEndian(value: word, width: nat): (r: seq<byte>)
    ensures |r| == width
  {
    if width == 0 then [] else [value % 256] + LittleEndian(value / 256, width - 1)
  }

  function WriteBytes(m: image, addr: word, bytes: seq<byte>): (r: image)
    requires addr + |bytes| <= |m|
    ensures |r| == |m|
  {
    m[..addr] + bytes + m[addr + |bytes|..]
  }

  // ---------------------------------------------------------------- fields

  function Opcode(insn: word): nat { insn % 0x80 }

  function Rd(insn: word): reg { insn / 0x80 % 32 }

  function Funct3(insn: word): (r: nat)
    ensures r < 8
  {
    insn / 0x1000 % 8
  }

  function Rs1(insn: word): reg { insn / 0x8000 % 32 }

  function Rs2(insn: word): reg { insn / 0x10_0000 % 32 }

  function Funct7(insn: word): nat { insn / 0x200_0000 }

  function ImmI(insn: word): int { SignExtend(insn / 0x10_0000, 12) }

  function ImmS(insn: word): int { SignExtend(Funct7(insn) * 32 + Rd(insn), 12) }

  function ImmB(insn: word): int {
    SignExtend(insn / 0x8000_0000 * 0x1000 + insn / 0x80 % 2 * 0x800
               + insn / 0x200_0000 % 64 * 32 + insn / 0x100 % 16 * 2, 13)
  }

  function ImmJ(insn: word): int {
    SignExtend(insn / 0x8000_0000 * 0x10_0000 + insn / 0x1000 % 0x100 * 0x1000
               + insn / 0x10_0000 % 2 * 0x800 + insn / 0x20_0000 % 0x400 * 2, 21)
  }

  function ImmU(insn: word): word { insn - insn % 0x1000 }

  // ------------------------------------------------------------- operations

  datatype Unit = AluUnit | MulUnit | DivUnit

  /** What one instruction does, apart from moving the program counter on. */
  datatype Effect =
    | Write(rd: reg, value: word, exec: Unit)
    | Fence
    | Jump(rd: reg, value: word, target: word)
    | Branch(taken: bool, target: word)
    | Load(rd: reg, value: word, addr: word)
    | Store(addr: word, bytes: seq<byte>)
    | Halt

  function OpImm(funct3: nat, funct7: nat, a: word, imm: int, shamt: nat): Option<word> {
    match funct3
    case 0 => Some(Wrap(a + imm))
    case 1 => if funct7 != 0 then None else Some(Wrap(a * Pow2(shamt)))
    case 2 => Some(if AsI32(a) < imm then 1 else 0)
    case 3 => Some(if a < Wrap(imm) then 1 else 0)
    case 4 => Some(WordOp(Xor, a, Wrap(imm)))
    case 5 =>
      if funct7 == 0 then Some(Wrap(a / Pow2(shamt)))
      else if funct7 == 0x20 then Some(Wrap(AsI32(a) / Pow2(shamt)))
      else None
    case 6 => Some(WordOp(Or, a, Wrap(imm)))
    case 7 => Some(WordOp(And, a, Wrap(imm)))
    case _ => None
  }

  function OpReg(funct3: nat, funct7: nat, a: word, b: word): Option<word> {
    if funct7 == 0x20 then
      match funct3
      case 0 => Some(Wrap(a - b))
      case 5 => Some(Wrap(AsI32(a) / Pow2(b % 32)))
      case _ => None
    else if funct7 != 0 then None
    else
      match funct3
      case 0 => Some(Wrap(a + b))
      case 1 => Some(Wrap(a * Pow2(b % 32)))
      case 2 => Some(if AsI32(a) < AsI32(b) then 1 else 0)
      case 3 => Some(if a < b then 1 else 0)
      case 4 => Some(WordOp(Xor, a, b))
      case 5 => Some(Wrap(a / Pow2(b % 32)))
      case 6 => Some(WordOp(Or, a, b))
      case 7 => Some(WordOp(And, a, b))
      case _ => None
  }

  function MulDiv(funct3: nat, a: word, b: word): word {
    match funct3
    case 0 => Wrap(AsI32(a) * AsI32(b))
    case 1 => Wrap(AsI32(a) * AsI32(b) / 0x1_0000_0000)
    case 2 => Wrap(AsI32(a) * b / 0x1_0000_0000)
    case 3 => Wrap(a * b / 0x1_0000_0000)
    case 4 =>
      if b == 0 then 0xffff_ffff
      else if a == 0x8000_0000 && b == 0xffff_ffff then 0x8000_0000
      else Wrap(TruncDiv(AsI32(a), AsI32(b)))
    case 5 => if b == 0 then 0xffff_ffff else Wrap(a / b)
    case 6 =>
      if b == 0 then a
      else if a == 0x8000_0000 && b == 0xffff_ffff then 0
      else Wrap(TruncRem(AsI32(a), AsI32(b)))
    case _ => if b == 0 then a else Wrap(a % b)
  }

  function BranchTaken(funct3: nat, a: word, b: word): Option<bool> {
    match funct3
    case 0 => Some(a == b)
    case 1 => Some(a != b)
    case 4 => Some(AsI32(a) < AsI32(b))
    case 5 => Some(AsI32(a) >= AsI32(b))
    case 6 => Some(a < b)
    case 7 => Some(a >= b)
    case _ => None
  }

  function LoadValue(data: image, funct3: nat, addr: word): Option<word> {
    match funct3
    case 0 => (var v :- Read8(data, addr); Some(Wrap(SignExtend(v, 8))))
    case 1 => (var v :- Read16(data, addr); Some(Wrap(SignExtend(v, 16))))
    case 2 => Read32(data, addr)
    case 4 => Read8(data, addr)
    case 5 => Read16(data, addr)
    case _ => None
  }

  function StoreWidth(funct3: nat): Option<nat> {
    match funct3
    case 0 => Some(1)
    case 1 => Some(2)
    case 2 => Some(4)
    case _ => None
  }

  /** The effect of `insn` at `pc`; None where the interpreter throws. */
  function Evaluate(regs: regfile, data: image, pc: word, insn: word): (r: Option<Effect>)
    ensures r.Some? && r.value.Store? ==> r.value.addr + |r.value.bytes| <= |data|
  {
    var a, b, funct3, funct7 := regs[Rs1(insn)], regs[Rs2(insn)], Funct3(insn), Funct7(insn);
    match Opcode(insn)
    case 0x37 => Some(Write(Rd(insn), ImmU(insn), AluUnit))
    case 0x17 => Some(Write(Rd(insn), Wrap(pc + ImmU(insn)), AluUnit))
    case 0x6f => Some(Jump(Rd(insn), Wrap(pc + 4), Wrap(pc + ImmJ(insn))))
    case 0x67 =>
      if funct3 != 0 then None
      else
        var sum := Wrap(a + ImmI(insn));
        Some(Jump(Rd(insn), Wrap(pc + 4), sum - sum % 2))
    case 0x63 =>
      var taken :- BranchTaken(funct3, a, b);
      Some(Branch(taken, Wrap(pc + ImmB(insn))))
    case 0x03 =>
      var addr := Wrap(a + ImmI(insn));
      var v :- LoadValue(data, funct3, addr);
      Some(Load(Rd(insn), v, addr))
    case 0x23 =>
      var addr := Wrap(a + ImmS(insn));
      var width :- StoreWidth(funct3);
      if addr + width > |data| then None else Some(Store(addr, LittleEndian(b, width)))
    case 0x13 =>
      var v :- OpImm(funct3, funct7, a, ImmI(insn), Rs2(insn));
      Some(Write(Rd(insn), v, AluUnit))
    case 0x33 =>
      if funct7 == 1 then
        Some(Write(Rd(insn), MulDiv(funct3, a, b), if funct3 < 4 then MulUnit else DivUnit))
      else
        var v :- OpReg(funct3, funct7, a, b);
        Some(Write(Rd(insn), v, AluUnit))
    case 0x0f => Some(Fence)
    case 0x73 => if insn == 0x73 || insn == 0x10_0073 then Some(Halt) else None
    case _ => None
  }

  predicate Redirects(e: Effect) {
    e.Jump? || (e.Branch? && e.taken)
  }

  function NextPc(pc: word, e: Effect): word {
    if Redirects(e) then e.target else Wrap(pc + 4)
  }

  predicate WritesReg(e: Effect) {
    (e.Write? || e.Jump? || e.Load?) && e.rd != 0
  }

  // -------------------------------------------------------------- lookahead

  /** What a store learns about the instruction after it: nothing, because the
      read of instruction memory threw; that it does not redirect; or where it
      redirects to. */
  datatype Lookahead = Unavailable | NoRedirect | Target(pc: word)

  /** The redirect that `insn` at `pc` would take with these registers. */
  function PredictRedirect(regs: regfile, pc: word, insn: word): Lookahead {
    var a, b := regs[Rs1(insn)], regs[Rs2(insn)];
    if Opcode(insn) == 0x6f then Target(Wrap(pc + ImmJ(insn)))
    else if Opcode(insn) == 0x67 && Funct3(insn) == 0 then
      var sum := Wrap(a + ImmI(insn));
      Target(sum - sum % 2)
    else if Opcode(insn) != 0x63 then NoRedirect
    else if BranchTaken(Funct3(insn), a, b) == Some(true) then Target(Wrap(pc + ImmB(insn)))
    else NoRedirect
  }

  function LookAhead(imem: image, regs: regfile, nextPc: word): Lookahead {
    if nextPc % 4 != 0 then NoRedirect
    else
      match Read32(imem, nextPc)
      case None => Unavailable
      case Some(insn) => PredictRedirect(regs, nextPc, insn)
  }

  // -------------------------------------------------------------- execution

  datatype ArchState = ArchState(regs: regfile, pc: word, data: image, halted: bool)

  /** One retired instruction, as the timing models see it. */
  datatype Retired = Retired(pc: codeAddr, insn: word, effect: Effect, look: Lookahead)

  datatype Executed = Executed(next: ArchState, retired: Retired)

  function WriteReg(regs: regfile, e: Effect): regfile {
    if WritesReg(e) then regs[e.rd := e.value] else regs
  }

  function Execute(imem: image, a: ArchState): Option<Executed> {
    if a.pc % 4 != 0 then None
    else
      var insn :- Read32(imem, a.pc);
      var e :- Evaluate(a.regs, a.data, a.pc, insn);
      var next := ArchState(WriteReg(a.regs, e)[0 := 0], NextPc(a.pc, e),
                            if e.Store? then WriteBytes(a.data, e.addr, e.bytes) else a.data, e.Halt?);
      var look := if e.Store? then LookAhead(imem, a.regs, Wrap(a.pc + 4)) else NoRedirect;
      Some(Executed(next, Retired(a.pc, insn, e, look)))
  }

  /** The lookahead a store's successor justifies. */
  function Redirection(e: Effect): Lookahead {
    if Redirects(e) then Target(e.target) else NoRedirect
  }

  lemma PredictionIsEvaluation(regs: regfile, data: image, pc: word, insn: word)
    requires Evaluate(regs, data, pc, insn).Some?
    ensures PredictRedirect(regs, pc, insn) == Redirection(Evaluate(regs, data, pc, insn).value)
  {
    hide OpImm, OpReg, MulDiv, LoadValue, StoreWidth, BranchTaken, SignExtend, ImmI, ImmS, ImmB, ImmJ, ImmU;
  }

  /** A store's lookahead, taken before the store has retired, is exactly the
      redirect that the next instruction takes once it executes. */
  lemma {:induction false} LookaheadIsExact(imem: image, a: ArchState, first: Executed, second: Executed)
    requires a.regs[0] == 0
    requires Execute(imem, a) == Some(first) && first.retired.effect.Store?
    requires Execute(imem, first.next) == Some(second)
    ensures first.retired.look == Redirection(second.retired.effect)
  {
    assert a.regs[0 := 0] == a.regs;
    PredictionIsEvaluation(first.next.regs, first.next.data, first.next.pc, second.retired.insn);
  }
}
