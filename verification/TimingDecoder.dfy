/** Which registers the timing decoder says an instruction reads in the execute
    stage, fixed by what the instruction does, and what that means for the bubble
    behind a load. */
module TimingDecoder {
  import opened Words
  import opened Isa
  import opened InstructionSet
  import opened PipelineTiming

  /** The registers of the execute stage, by the class of the instruction. */
  function Sources(insn: word): set<reg> {
    match KindOf(insn)
    case JumpKind => if Opcode(insn) == 0x67 then {Rs1(insn)} else {}
    case BranchKind => {Rs1(insn), Rs2(insn)}
    case LoadKind => {Rs1(insn)}
    case StoreKind => {Rs1(insn)}
    case MulDivKind => {Rs1(insn), Rs2(insn)}
    case HaltKind => {}
    case AluKind =>
      if Opcode(insn) == 0x33 then {Rs1(insn), Rs2(insn)} else if Opcode(insn) == 0x13 then {Rs1(insn)} else {}
  }

  lemma ReadsSources(insn: word, x: reg)
    ensures Reads(insn, x) <==> x in Sources(insn)
  {
    hide Opcode, Funct3, Funct7, Rs1, Rs2, Rd;
  }

  /** The address of a load or store, or the target of a jump, as the effect shows
      it. */
  function Place(e: Effect): Option<word> {
    match e
    case Load(_, _, addr) => Some(addr)
    case Store(addr, _) => Some(addr)
    case Jump(_, _, target) => Some(target)
    case _ => None
  }

  function TwoMore(w: word): word {
    Wrap(2 + (w as int))
  }

  lemma TwoMoreMoves(w: word, imm: int)
    ensures Wrap(TwoMore(w) + imm) == TwoMore(Wrap(w + imm))
    ensures TwoMore(w) != w && TwoMore(w) - TwoMore(w) % 2 != w - w % 2
  {
    WrapAdd(2 + (w as int), imm);
    WrapAdd(w + imm, 2);
    assert TwoMore(w) == if w < 0xffff_fffe then w - (-2) else w - 0xffff_fffe;
  }

  /** For a load, a store or a jump the decoder is exact: adding two to a register
      moves the address or the target exactly if the register is read.  A store's
      data register is not. */
  lemma ReadsMovePlace(regs: regfile, data: image, pc: word, insn: word, x: reg)
    requires Evaluate(regs, data, pc, insn).Some? && Place(Evaluate(regs, data, pc, insn).value).Some?
    ensures var e := Evaluate(regs, data, pc, insn).value;
            var e' := Evaluate(regs[x := TwoMore(regs[x])], data, pc, insn);
            Reads(insn, x) <==> !(e'.Some? && Place(e'.value) == Place(e))
  {
    hide OpImm, OpReg, MulDiv, BranchTaken, LoadValue, StoreWidth, ImmI, ImmS, ImmB, ImmJ, ImmU, Wrap, LittleEndian;
    hide Funct3, Funct7, Rs1, Rs2, Rd, Opcode;
    hide TwoMore;
    TwoMoreMoves(regs[x], ImmI(insn));
    TwoMoreMoves(regs[x], ImmS(insn));
    TwoMoreMoves(Wrap(regs[x] + ImmI(insn)), 0);
    TwoMoreMoves(Wrap(regs[x] + ImmS(insn)), 0);
  }

  // ------------------------------------------------------ behind a load

  /** The state behind a load that retired. */
  predicate BehindLoad(p: PipelineState, ld: word) {
    KindOf(ld) == LoadKind && p.previousWasLoad && p.previousLoadRd == Rd(ld)
  }

  lemma RetiredLoadIsBehind(p: PipelineState, ld: word, taken: bool)
    requires KindOf(ld) == LoadKind
    ensures BehindLoad(Retire(p, ld, taken).state, ld)
    ensures p.config == Retire(p, ld, taken).state.config
  {
    hide LoadUseHazard, DividerPenalty, FillDrain, Funct3, Funct7, Rs1, Rs2, Rd;
  }

  /** An instruction right behind a load pays the bubble exactly if the load's
      destination is a real register among its sources. */
  lemma BubbleBehindLoad(p: PipelineState, ld: word, insn: word, taken: bool)
    requires BehindLoad(p, ld)
    ensures var after := Retire(p, insn, taken).state.stats;
            after.loadUseStalls ==
            p.stats.loadUseStalls + if Rd(ld) != 0 && Rd(ld) in Sources(insn) then p.config.loadUsePenalty else 0
  {
    hide Decode, DividerPenalty, FillDrain, Sources, Reads;
    ReadsSources(insn, Rd(ld));
  }

  /** So a store of the word just loaded does not wait for it, unless its address
      needs it too. */
  lemma LoadedStoreDataIsFree(p: PipelineState, ld: word, st: word, taken: bool)
    requires BehindLoad(p, ld) && KindOf(st) == StoreKind && Rs2(st) == Rd(ld) && Rs1(st) != Rd(ld)
    ensures Retire(p, st, taken).state.stats.loadUseStalls == p.stats.loadUseStalls
  {
    hide Retire, Funct3, Funct7, Rs1, Rs2, Rd;
    BubbleBehindLoad(p, ld, st, taken);
  }
}
