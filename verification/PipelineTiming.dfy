/** The analytical five-stage pipeline timing model: an independent decoder and
    the stalls it charges.  The counters are refined by declarative counts over
    the retired instructions. */
module PipelineTiming {
  import opened Words
  import opened Isa

  datatype PipelineConfig = PipelineConfig(depth: word, loadUsePenalty: word, takenBranchPenalty: word,
                                           jumpPenalty: word, dividerLatency: word, dividerInterval: word)

  const CALIBRATED := PipelineConfig(5, 1, 2, 2, 8, 1)

  datatype PipelineStats = PipelineStats(retired: nat, baseCycles: nat, fillDrain: nat, loadUseStalls: nat,
                                         branchStalls: nat, jumpStalls: nat, dividerStalls: nat, totalCycles: nat)

  datatype PipelineState = PipelineState(config: PipelineConfig, stats: PipelineStats, previousWasLoad: bool,
                                         previousLoadRd: reg, previousWasDivRem: bool, accumulated: nat)

  const NO_TIMING := PipelineStats(0, 0, 0, 0, 0, 0, 0, 0)

  function EmptyPipeline(config: PipelineConfig): PipelineState {
    PipelineState(config, NO_TIMING, false, 0, false, 0)
  }

  // -------------------------------------------------------------- decoder

  datatype Decoded = Decoded(usesRs1: bool, usesRs2: bool, isLoad: bool, isBranch: bool, isJump: bool,
                             isDivRem: bool, rs1: reg, rs2: reg, rd: reg)

  function Decode(insn: word): Decoded {
    var none := Decoded(false, false, false, false, false, false, Rs1(insn), Rs2(insn), Rd(insn));
    match Opcode(insn)
    case 0x67 => none.(usesRs1 := true, isJump := true)
    case 0x6f => none.(isJump := true)
    case 0x63 => none.(usesRs1 := true, usesRs2 := true, isBranch := true)
    case 0x03 => none.(usesRs1 := true, isLoad := true)
    case 0x23 => none.(usesRs1 := true)
    case 0x13 => none.(usesRs1 := true)
    case 0x33 => none.(usesRs1 := true, usesRs2 := true, isDivRem := Funct7(insn) == 1 && Funct3(insn) >= 4)
    case _ => none
  }

  /** The timing decoder classifies every instruction that executes as the
      executing decoder does. */
  lemma DecodersAgree(regs: regfile, data: image, pc: word, insn: word)
    requires Evaluate(regs, data, pc, insn).Some?
    ensures var e, d := Evaluate(regs, data, pc, insn).value, Decode(insn);
            && d.isLoad == e.Load? && d.isBranch == e.Branch? && d.isJump == e.Jump?
            && d.isDivRem == (e.Write? && e.exec == DivUnit)
            && (d.isLoad ==> d.rd == e.rd)
  {
    hide OpImm, OpReg, MulDiv, BranchTaken, LoadValue, StoreWidth, SignExtend, Opcode, Funct3, Funct7, Rs1, Rs2, Rd;
    hide ImmU;
  }

  /** The instruction reads `x` in the execute stage, by the timing decoder. */
  predicate Reads(insn: word, x: reg) {
    var d := Decode(insn);
    (d.usesRs1 && d.rs1 == x) || (d.usesRs2 && d.rs2 == x)
  }

  /** The value of a register the timing decoder says is not read cannot matter
      to what the instruction does, except as the data of a store: the missing
      bubble after a load is never a missed dependence. */
  lemma UnreadRegisterIsIrrelevant(regs: regfile, data: image, pc: word, insn: word, x: reg, v: word)
    requires !Reads(insn, x)
    ensures var e, e' := Evaluate(regs, data, pc, insn), Evaluate(regs[x := v], data, pc, insn);
            if e.Some? && e.value.Store? then
              e'.Some? && e'.value.Store? && e'.value.addr == e.value.addr && |e'.value.bytes| == |e.value.bytes|
            else e' == e
  {
    hide OpImm, OpReg, MulDiv, BranchTaken, LoadValue, StoreWidth, SignExtend, Opcode, Funct3, Funct7, Rs1, Rs2, Rd;
    hide ImmU;
  }

  // ------------------------------------------------------------ retirement

  function AddStalls(p: PipelineState, cycles: nat): PipelineState {
    p.(accumulated := p.accumulated + cycles)
  }

  predicate LoadUseHazard(p: PipelineState, insn: word) {
    p.previousWasLoad && p.previousLoadRd != 0 && Reads(insn, p.previousLoadRd)
  }

  function DividerPenalty(config: PipelineConfig, starts: bool): nat {
    if starts then if config.dividerLatency > 0 then config.dividerLatency - 1 else 0
    else if config.dividerInterval > 1 then config.dividerInterval - 1 else 0
  }

  function FillDrain(config: PipelineConfig): nat {
    if config.depth > 0 then config.depth - 1 else 0
  }

  datatype RetireResult = RetireResult(retireCycle: nat, loadUseHazard: bool, takenBranchRedirect: bool,
                                       jumpRedirect: bool, dividerStartupStall: bool)

  datatype RetireOutcome = RetireOutcome(state: PipelineState, result: RetireResult)

  /** The charges in front of an instruction's own retirement. */
  function Interlock(p: PipelineState, insn: word): (q: PipelineState)
    ensures q.config == p.config && q.stats.retired == p.stats.retired
  {
    var loadUse := if LoadUseHazard(p, insn) then p.config.loadUsePenalty else 0;
    var divider := if Decode(insn).isDivRem then DividerPenalty(p.config, !p.previousWasDivRem) else 0;
    p.(stats := p.stats.(loadUseStalls := p.stats.loadUseStalls + loadUse,
                         dividerStalls := p.stats.dividerStalls + divider),
       accumulated := p.accumulated + loadUse + divider)
  }

  /** The charges a redirect leaves for the instructions behind it. */
  function Redirect(p: PipelineState, insn: word, taken: bool): (q: PipelineState)
    ensures q.config == p.config && q.stats.retired == p.stats.retired && q.stats.fillDrain == p.stats.fillDrain
  {
    var branch := if Decode(insn).isBranch && taken then p.config.takenBranchPenalty else 0;
    var jump := if Decode(insn).isJump then p.config.jumpPenalty else 0;
    p.(stats := p.stats.(branchStalls := p.stats.branchStalls + branch, jumpStalls := p.stats.jumpStalls + jump),
       accumulated := p.accumulated + branch + jump)
  }

  function Retire(p: PipelineState, insn: word, taken: bool): RetireOutcome {
    var d, fill, retired := Decode(insn), FillDrain(p.config), p.stats.retired + 1;
    var q := Interlock(p, insn);
    var counted := q.(stats := q.stats.(retired := retired, baseCycles := retired, fillDrain := fill));
    var r := Redirect(counted, insn, taken);
    RetireOutcome(r.(stats := r.stats.(totalCycles := retired + fill + r.accumulated), previousWasLoad := d.isLoad,
                     previousLoadRd := if d.isLoad then d.rd else 0, previousWasDivRem := d.isDivRem),
                  RetireResult(retired + fill + q.accumulated, LoadUseHazard(p, insn), d.isBranch && taken, d.isJump,
                               d.isDivRem && !p.previousWasDivRem && DividerPenalty(p.config, true) != 0))
  }

  // ---------------------------------------------- counts over the history

  /** A retired instruction, and whether it was a taken branch. */
  datatype Issue = Issue(insn: word, taken: bool)

  /** A consumer right behind the load into the real register it reads. */
  predicate LoadUseAt(h: seq<Issue>, i: nat) {
    1 <= i < |h| && Decode(h[i - 1].insn).isLoad && Decode(h[i - 1].insn).rd != 0
    && Reads(h[i].insn, Decode(h[i - 1].insn).rd)
  }

  predicate TakenAt(h: seq<Issue>, i: nat) {
    i < |h| && Decode(h[i].insn).isBranch && h[i].taken
  }

  predicate JumpAt(h: seq<Issue>, i: nat) {
    i < |h| && Decode(h[i].insn).isJump
  }

  predicate DivRemAt(h: seq<Issue>, i: nat) {
    i < |h| && Decode(h[i].insn).isDivRem
  }

  /** The first operation of a maximal run of consecutive divider operations. */
  predicate BurstAt(h: seq<Issue>, i: nat) {
    DivRemAt(h, i) && (i == 0 || !DivRemAt(h, i - 1))
  }

  function Marked(h: seq<Issue>, at: (seq<Issue>, nat) -> bool): set<nat> {
    set i: nat | i < |h| && at(h, i)
  }

  function Count(h: seq<Issue>, at: (seq<Issue>, nat) -> bool): nat {
    |Marked(h, at)|
  }

  lemma CountAfter(h: seq<Issue>, r: Issue, at: (seq<Issue>, nat) -> bool)
    requires forall i: nat :: i < |h| ==> at(h + [r], i) == at(h, i)
    ensures Count(h + [r], at) == Count(h, at) + (if at(h + [r], |h|) then 1 else 0)
  {
    assert Marked(h + [r], at) == Marked(h, at) + (if at(h + [r], |h|) then {|h|} else {});
  }

  function LessOne(n: nat): nat {
    if n == 0 then 0 else n - 1
  }

  /** The declarative divider charge: for a burst one cycle less than the latency, for
      every operation after its first one less than the initiation interval. */
  function DividerCharge(config: PipelineConfig, h: seq<Issue>): int {
    Count(h, BurstAt) * LessOne(config.dividerLatency)
    + (Count(h, DivRemAt) - Count(h, BurstAt)) * LessOne(config.dividerInterval)
  }

  /** The state's counters are the counts of its history, of which `held`
      cycles were charged from outside. */
  ghost predicate Refines(p: PipelineState, h: seq<Issue>, held: nat) {
    && p.stats.retired == p.stats.baseCycles == |h|
    && p.stats.fillDrain == (if h == [] then 0 else LessOne(p.config.depth))
    && p.stats.loadUseStalls == Count(h, LoadUseAt) * p.config.loadUsePenalty
    && p.stats.branchStalls == Count(h, TakenAt) * p.config.takenBranchPenalty
    && p.stats.jumpStalls == Count(h, JumpAt) * p.config.jumpPenalty
    && p.stats.dividerStalls == DividerCharge(p.config, h)
    && p.accumulated == held + p.stats.loadUseStalls + p.stats.branchStalls + p.stats.jumpStalls + p.stats.dividerStalls
    && p.stats.totalCycles == (if h == [] then 0 else p.stats.retired + p.stats.fillDrain + p.accumulated)
    && p.previousWasLoad == (h != [] && Decode(h[|h| - 1].insn).isLoad)
    && p.previousLoadRd == (if p.previousWasLoad then Decode(h[|h| - 1].insn).rd else 0)
    && p.previousWasDivRem == (h != [] && Decode(h[|h| - 1].insn).isDivRem)
  }

  lemma ScaledSum(count: int, more: int, penalty: nat)
    ensures (count + more) * penalty == count * penalty + more * penalty
  {
  }

  function One(b: bool): nat {
    if b then 1 else 0
  }

  /** What the retiring instruction adds to each count, from the state alone. */
  lemma CountsAfter(p: PipelineState, h: seq<Issue>, held: nat, r: Issue)
    requires Refines(p, h, held)
    ensures var h', d := h + [r], Decode(r.insn);
            && Count(h', LoadUseAt) == Count(h, LoadUseAt) + One(LoadUseHazard(p, r.insn))
            && Count(h', TakenAt) == Count(h, TakenAt) + One(d.isBranch && r.taken)
            && Count(h', JumpAt) == Count(h, JumpAt) + One(d.isJump)
            && Count(h', DivRemAt) == Count(h, DivRemAt) + One(d.isDivRem)
            && Count(h', BurstAt) == Count(h, BurstAt) + One(d.isDivRem && !p.previousWasDivRem)
  {
    hide Decode, Reads, Count, DividerCharge;
    assert forall i :: 0 <= i < |h| ==> (h + [r])[i] == h[i];
    CountAfter(h, r, LoadUseAt);
    CountAfter(h, r, TakenAt);
    CountAfter(h, r, JumpAt);
    CountAfter(h, r, DivRemAt);
    CountAfter(h, r, BurstAt);
  }

  /** Retiring one instruction after an external hold keeps the counters equal
      to the counts of the longer history. */
  lemma RetireRefines(p: PipelineState, h: seq<Issue>, held: nat, cycles: nat, r: Issue)
    requires Refines(p, h, held)
    ensures Refines(Retire(AddStalls(p, cycles), r.insn, r.taken).state, h + [r], held + cycles)
  {
    hide Decode, Reads, Count, DividerPenalty, LoadUseAt, TakenAt, JumpAt, DivRemAt, BurstAt, DividerCharge;
    var c, d := p.config, Decode(r.insn);
    CountsAfter(p, h, held, r);
    ScaledSum(Count(h, LoadUseAt), One(LoadUseHazard(p, r.insn)), c.loadUsePenalty);
    ScaledSum(Count(h, TakenAt), One(d.isBranch && r.taken), c.takenBranchPenalty);
    ScaledSum(Count(h, JumpAt), One(d.isJump), c.jumpPenalty);
    ChargeGrows(c, h, r, d.isDivRem, !p.previousWasDivRem);
  }

  /** What a retirement reports is what it charged: the hazard, the redirects and the
      start of a divider burst are the marks of the longer history, and the cycle is
      the total so far without the redirect that this instruction leaves behind. */
  lemma RetireReports(p: PipelineState, h: seq<Issue>, held: nat, r: Issue)
    requires Refines(p, h, held)
    ensures var o, h', n := Retire(p, r.insn, r.taken), h + [r], |h|;
            && o.result.loadUseHazard == LoadUseAt(h', n) && o.result.takenBranchRedirect == TakenAt(h', n)
            && o.result.jumpRedirect == JumpAt(h', n)
            && o.result.dividerStartupStall == (BurstAt(h', n) && p.config.dividerLatency > 1)
            && o.result.retireCycle + (if TakenAt(h', n) then p.config.takenBranchPenalty else 0)
               + (if JumpAt(h', n) then p.config.jumpPenalty else 0) == o.state.stats.totalCycles
  {
    hide Decode, Reads, Count, DividerCharge;
    assert forall i :: 0 <= i < |h| ==> (h + [r])[i] == h[i];
  }

  lemma ChargeGrows(c: PipelineConfig, h: seq<Issue>, r: Issue, divides: bool, first: bool)
    requires Count(h + [r], DivRemAt) == Count(h, DivRemAt) + One(divides)
    requires Count(h + [r], BurstAt) == Count(h, BurstAt) + One(divides && first)
    ensures DividerCharge(c, h + [r]) == DividerCharge(c, h) + if divides then DividerPenalty(c, first) else 0
  {
    hide Count, DivRemAt, BurstAt;
    ScaledSum(Count(h, BurstAt), One(divides && first), LessOne(c.dividerLatency));
    ScaledSum(Count(h, DivRemAt) - Count(h, BurstAt), One(divides) - One(divides && first), LessOne(c.dividerInterval));
  }

  // ------------------------------------------------------------ the class

  class PipelineTimingModel {
    const config: PipelineConfig
    var stats: PipelineStats
    var previousWasLoad: bool
    var previousLoadRd: reg
    var previousWasDivRem: bool
    var accumulatedStalls: nat

    ghost function State(): PipelineState
      reads this
    {
      PipelineState(config, stats, previousWasLoad, previousLoadRd, previousWasDivRem, accumulatedStalls)
    }

    constructor (config: PipelineConfig)
      ensures this.config == config && State() == EmptyPipeline(config)
    {
      this.config := config;
      stats := NO_TIMING;
      previousWasLoad, previousLoadRd, previousWasDivRem, accumulatedStalls := false, 0, false, 0;
    }

    method Reset()
      modifies this
      ensures State() == EmptyPipeline(config)
    {
      stats := NO_TIMING;
      previousWasLoad, previousLoadRd, previousWasDivRem, accumulatedStalls := false, 0, false, 0;
    }

    method AddExternalStalls(cycles: word)
      modifies this
      ensures State() == AddStalls(old(State()), cycles)
    {
      accumulatedStalls := accumulatedStalls + cycles;
    }

    /** The bubbles and divider holds in front of this retirement. */
    method ChargeInterlocks(insn: word) returns (hazard: bool, startup: bool)
      modifies this
      ensures State() == Interlock(old(State()), insn)
      ensures hazard == LoadUseHazard(old(State()), insn)
      ensures startup == (Decode(insn).isDivRem && !old(previousWasDivRem) && DividerPenalty(config, true) != 0)
    {
      hide Decode, Reads;
      hazard, startup := false, false;
      if previousWasLoad && previousLoadRd != 0 && Reads(insn, previousLoadRd) {
        hazard := true;
        stats := stats.(loadUseStalls := stats.loadUseStalls + config.loadUsePenalty);
        accumulatedStalls := accumulatedStalls + config.loadUsePenalty;
      }
      if Decode(insn).isDivRem {
        var penalty := 0;
        if !previousWasDivRem {
          penalty := if config.dividerLatency > 0 then config.dividerLatency - 1 else 0;
          startup := penalty != 0;
        } else if config.dividerInterval > 1 {
          penalty := config.dividerInterval - 1;
        }
        stats := stats.(dividerStalls := stats.dividerStalls + penalty);
        accumulatedStalls := accumulatedStalls + penalty;
      }
    }

    /** The redirect penalties this retirement leaves for younger ones. */
    method ChargeRedirects(insn: word, branchTaken: bool)
      modifies this
      ensures State() == Redirect(old(State()), insn, branchTaken)
    {
      hide Decode;
      if Decode(insn).isBranch && branchTaken {
        stats := stats.(branchStalls := stats.branchStalls + config.takenBranchPenalty);
        accumulatedStalls := accumulatedStalls + config.takenBranchPenalty;
      }
      if Decode(insn).isJump {
        stats := stats.(jumpStalls := stats.jumpStalls + config.jumpPenalty);
        accumulatedStalls := accumulatedStalls + config.jumpPenalty;
      }
    }

    method RetireInstruction(insn: word, branchTaken: bool) returns (result: RetireResult)
      modifies this
      ensures RetireOutcome(State(), result) == Retire(old(State()), insn, branchTaken)
    {
      hide Decode, Interlock, Redirect, FillDrain, DividerPenalty, LoadUseHazard;
      var current := Decode(insn);
      var hazard, startup := ChargeInterlocks(insn);
      stats := stats.(retired := stats.retired + 1, baseCycles := stats.retired + 1, fillDrain := FillDrain(config));
      var cycle := stats.retired + stats.fillDrain + accumulatedStalls;
      result := RetireResult(cycle, hazard, current.isBranch && branchTaken, current.isJump, startup);
      ChargeRedirects(insn, branchTaken);
      stats := stats.(totalCycles := stats.retired + stats.fillDrain + accumulatedStalls);
      previousWasLoad := current.isLoad;
      previousLoadRd := if current.isLoad then current.rd else 0;
      previousWasDivRem := current.isDivRem;
    }
  }
}
