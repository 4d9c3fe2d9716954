/** The CPU model: one step executes an instruction and drives the timing
    models with it, publishes the merged counters and appends a trace row. */
module CpuModel {
  import opened Words
  import opened Isa
  import opened CacheModel
  import opened FetchStream
  import opened FrontEnd
  import opened PipelineTiming
  import opened Coupling

  datatype CpuConfig = CpuConfig(maxInstructions: nat, icache: CacheConfig, dcache: CacheConfig)

  type Machine = c: CpuConfig | c.icache.Indexable() && c.dcache.Indexable()
    witness CpuConfig(0, CacheConfig(false, 1, 4, 0, false), CacheConfig(false, 1, 4, 0, false))

  // -------------------------------------------------------------- counters

  datatype InstructionMix = InstructionMix(alu: nat, branches: nat, branchesTaken: nat, loads: nat, stores: nat,
                                           mulDiv: nat, jumps: nat)

  datatype PerformanceStats = PerformanceStats(
    mix: InstructionMix, retired: nat, cycles: nat, baseCycles: nat, fillDrain: nat, stallLoadUse: nat,
    stallBranch: nat, stallJump: nat, stallDivider: nat, stallIcache: nat, stallDcache: nat, stallOverlap: nat,
    holdReplays: nat, ifstallReplays: nat, icacheAccesses: nat, icacheHits: nat, icacheMisses: nat,
    dcacheAccesses: nat, dcacheHits: nat, dcacheMisses: nat, dcacheWritebacks: nat, axiReads: nat, axiWrites: nat)

  const NO_MIX := InstructionMix(0, 0, 0, 0, 0, 0, 0)
  const NO_PERFORMANCE :=
    PerformanceStats(NO_MIX, 0, 0, 0, 0, 0, 0, 0, 0, 0, 0, 0, 0, 0, 0, 0, 0, 0, 0, 0, 0, 0, 0)

  function Tally(m: InstructionMix, e: Effect): InstructionMix {
    match e
    case Write(_, _, exec) =>
      if exec == AluUnit then m.(alu := m.alu + 1) else m.(mulDiv := m.mulDiv + 1)
    case Fence => m.(alu := m.alu + 1)
    case Jump(_, _, _) => m.(jumps := m.jumps + 1)
    case Branch(taken, _) =>
      m.(branches := m.branches + 1, branchesTaken := m.branchesTaken + if taken then 1 else 0)
    case Load(_, _, _) => m.(loads := m.loads + 1)
    case Store(_, _) => m.(stores := m.stores + 1)
    case Halt => m
  }

  /** The holds that repeat a fetch without being in the fetch stream yet. */
  function HoldReplayCount(t: Timing): nat {
    var holds := t.pipe.stats.loadUseStalls + t.pipe.stats.dividerStalls;
    if !t.icache.config.enabled then 0
    else if t.overlap < holds then holds - t.overlap
    else 0
  }

  function Publish(mix: InstructionMix, t: Timing): PerformanceStats {
    var p, i, d, holds := t.pipe.stats, t.icache.stats, t.dcache.stats, HoldReplayCount(t);
    PerformanceStats(mix, p.retired, p.totalCycles, p.baseCycles, p.fillDrain, p.loadUseStalls,
                     p.branchStalls, p.jumpStalls, p.dividerStalls, i.stallCycles, d.stallCycles, t.overlap,
                     holds, t.replays, i.accesses + holds, i.hits + holds, i.misses,
                     d.accesses, d.hits, d.misses, d.writebacks,
                     i.readTransactions + d.readTransactions, d.writeTransactions)
  }

  // ----------------------------------------------------------------- trace

  datatype RetireEvent = RetireEvent(cycle: nat, retired: nat, pc: word, insn: word, rd: reg, wdata: word,
                                     regWrite: bool, memAddr: word, memRead: bool, memWrite: bool)

  /** The row of an instruction before it has done anything. */
  function BlankEvent(pc: word, insn: word): RetireEvent {
    RetireEvent(0, 0, pc, insn, 0, 0, false, 0, false, false)
  }

  function EventOf(pc: word, insn: word, e: Effect, cycle: nat, retired: nat): RetireEvent {
    var writes, accesses := e.Write? || e.Jump? || e.Load?, e.Load? || e.Store?;
    RetireEvent(cycle, retired, pc, insn, if writes then e.rd else 0, if writes then e.value else 0,
                WritesReg(e), if accesses then e.addr else 0, e.Load?, e.Store?)
  }

  // ----------------------------------------------------------------- steps

  datatype CpuState = CpuState(arch: ArchState, timing: Timing, stats: PerformanceStats, trace: seq<RetireEvent>)

  function ResetState(config: Machine, data: image, pc: word): CpuState {
    CpuState(ArchState(seq(32, _ => 0), pc, data, false), ColdTiming(config.icache, config.dcache, pc),
             NO_PERFORMANCE, [])
  }

  /** A constructed CPU that has not been reset: its pc is the start address, but
      its front end is still at address 0. */
  function ConstructedState(config: Machine, data: image, pc: word): CpuState {
    var s := ResetState(config, data, pc);
    s.(timing := s.timing.(fetch := Restarted(0)))
  }

  /** Construction takes the place of a reset exactly when the start address is
      0. */
  lemma ConstructedIsReset(config: Machine, data: image, pc: word)
    ensures ConstructedState(config, data, pc) == ResetState(config, data, pc) <==> pc == 0
  {
    assert ConstructedState(config, data, pc).timing.fetch.front == 0;
  }

  /** Otherwise the first step fetches its way up from address 0. */
  lemma UnresetFetchesFromZero(config: Machine, data: image, pc: codeAddr)
    requires config.icache.enabled && pc % 4 == 0
    ensures var t := ConstructedState(config, data, pc).timing;
            var e := Ensured(t.fetch, t.icache, pc);
            && e.Some? && e.value.icache == Feed(Cold(config.icache), Sequential(0, pc + 4))
            && e.value.fetch.stats.issued == pc / 4 + 1
  {
    hide Feed;
    var t := ConstructedState(config, data, pc).timing;
    EnsuredAligned(t.fetch, t.icache, pc);
  }

  function Advance(s: CpuState, x: Executed, step: TimedStep): CpuState {
    var r := x.retired;
    var stats := Publish(Tally(s.stats.mix, r.effect), step.next);
    CpuState(x.next, step.next, stats,
             s.trace + [EventOf(r.pc, r.insn, r.effect, step.retired.retireCycle, stats.retired)])
  }

  /** One step; None where the model throws. */
  function Stepped(config: CpuConfig, imem: image, s: CpuState): Option<CpuState> {
    if s.arch.halted then Some(s)
    else if s.stats.retired >= config.maxInstructions then None
    else
      var x :- Execute(imem, s.arch);
      var step :- TimeStep(s.timing, x.retired);
      Some(Advance(s, x, step))
  }

  /** The state after `n` calls of step; None if one of them threw. */
  function After(config: CpuConfig, imem: image, s: CpuState, n: nat): Option<CpuState> {
    if n == 0 then Some(s)
    else
      var before :- After(config, imem, s, n - 1);
      Stepped(config, imem, before)
  }

  /** The published retirement count follows the pipeline model's. */
  predicate CountsAgree(s: CpuState) {
    s.stats.retired == s.timing.pipe.stats.retired
  }

  lemma StepRetires(config: CpuConfig, imem: image, s: CpuState)
    requires Stepped(config, imem, s).Some? && !s.arch.halted
    ensures var s' := Stepped(config, imem, s).value;
            && s'.timing.pipe.stats.retired == s.timing.pipe.stats.retired + 1
            && CountsAgree(s') && s.stats.retired < config.maxInstructions
            && |s'.trace| == |s.trace| + 1
  {
    hide Execute, Ensured, MemoryPhase, RedirectPhase, Tally, EventOf, HoldReplayCount, Decode;
  }

  // ------------------------------------------------------------ the class

  datatype StepStatus = Running | Stopped | Threw

  class Cpu {
    const config: Machine
    const instructionMemory: image
    const regs: array<word>
    const data: array<byte>
    const timing: PipelineTimingModel
    const icache: DirectMappedCacheModel
    const dcache: DirectMappedCacheModel
    const ifetch: IFetchStreamModel
    var pc: word
    var halted: bool
    var overlapCycles: nat
    var replays: nat
    var stats: PerformanceStats
    var trace: seq<RetireEvent>

    ghost predicate Valid()
      reads this, icache, dcache
    {
      && icache.Valid() && dcache.Valid() && icache != dcache && icache.lines != dcache.lines
      && icache.config == config.icache && dcache.config == config.dcache && timing.config == CALIBRATED
      && regs.Length == 32 && data.Length <= 0xffff_fff0 && regs as object != data as object
    }

    ghost function Footprint(): set<object>
      reads this
    {
      {this, regs, data, timing, icache, icache.lines, dcache, dcache.lines, ifetch}
    }

    ghost function Arch(): ArchState
      reads this, icache, dcache, regs, data
      requires Valid()
    {
      ArchState(regs[..], pc, data[..], halted)
    }

    ghost function Times(): Timing
      reads this, timing, icache, icache.lines, dcache, dcache.lines, ifetch
      requires Valid()
    {
      Timing(ifetch.State(), icache.State(), dcache.State(), timing.State(), overlapCycles, replays)
    }

    ghost function State(): CpuState
      reads this, regs, data, timing, icache, icache.lines, dcache, dcache.lines, ifetch
      requires Valid()
    {
      CpuState(Arch(), Times(), stats, trace)
    }

    constructor (config: Machine, program: image, contents: image, pc: word)
      ensures Valid() && fresh(Footprint())
      ensures this.config == config && instructionMemory == program
      ensures State() == ConstructedState(config, contents, pc)
    {
      this.config := config;
      instructionMemory := program;
      regs := new word[32](_ => 0);
      data := new byte[|contents|](i requires 0 <= i < |contents| => contents[i]);
      timing := new PipelineTimingModel(CALIBRATED);
      icache := new DirectMappedCacheModel(config.icache);
      dcache := new DirectMappedCacheModel(config.dcache);
      ifetch := new IFetchStreamModel();
      this.pc := pc;
      halted, overlapCycles, replays := false, 0, 0;
      stats, trace := NO_PERFORMANCE, [];
      new;
      assert regs[..] == seq(32, _ => 0);
      assert data[..] == contents;
    }

    /** Back to the start, but for memory, which keeps its contents, and the trace,
        which keeps its rows. */
    method Reset(newPc: word)
      requires Valid()
      modifies Footprint()
      ensures Valid() && State() == ResetState(config, old(data[..]), newPc).(trace := old(trace))
    {
      for i := 0 to 32
        invariant Valid() && unchanged(this, data, timing, icache, dcache, ifetch)
        invariant forall j :: 0 <= j < i ==> regs[j] == 0
      {
        regs[i] := 0;
      }
      assert regs[..] == seq(32, _ => 0);
      pc, halted, overlapCycles, replays := newPc, false, 0, 0;
      stats := NO_PERFORMANCE;
      timing.Reset();
      icache.Reset();
      dcache.Reset();
      ifetch.Reset(newPc);
    }

    /** The data access of a load or store, the front end's reaction to its
        stall, and the overlap credit.  None is a throw. */
    method AccessData(oldPc: codeAddr, q: Request, ghost r: Retired) returns (stalls: Option<word>)
      requires Valid() && DataRequest(r.effect) == Some(q) && r.pc == oldPc
      requires r.effect.Store? ==> r.look == LookAhead(instructionMemory, regs[..], oldPc + 4)
      modifies this`overlapCycles, this`replays, ifetch, icache, icache.lines, dcache, dcache.lines
      ensures Valid()
      ensures var m := MemoryPhase(old(ifetch.State()), old(icache.State()), old(dcache.State()), r);
              if stalls.None? then m.None?
              else m.Some? && ifetch.State() == m.value.fetch && icache.State() == m.value.icache
                   && dcache.State() == m.value.dcache
                   && overlapCycles == old(overlapCycles) + m.value.credit
                   && replays == old(replays) + (if m.value.credit > 0 then 1 else 0)
                   && stalls.value == Wrap(m.value.stalls - m.value.credit)
    {
      hide Accessed, Stalled, Hits, LookAhead;
      var access := dcache.Access(q.addr, q.isWrite);
      ghost var a := AccessOutcome(dcache.State(), access);
      assert a == Accessed(old(dcache.State()), q);
      var held :- ifetch.OnDcacheStall(oldPc, access.stallCycles, icache);
      ghost var h := Stalled(old(ifetch.State()), old(icache.State()), oldPc, access.stallCycles).value;
      var credit: word := 0;
      if q.isWrite && access.stallCycles != 0 && held != 0 {
        var look := LookAhead(instructionMemory, regs[..], oldPc + 4);
        if look.Unavailable? {
          return None;
        }
        if look.Target? {
          var resident := icache.WouldHit(look.pc);
          if !resident {
            credit := OverlapCredit(icache.config, dcache.config, access.stallCycles);
            overlapCycles := overlapCycles + credit;
            if credit != 0 {
              var replay := dcache.Access(q.addr, true);
              if !replay.hit || replay.stallCycles != 0 {
                return None;
              }
              replays := replays + 1;
            }
          }
        }
      }
      WrapAdd(h.stalls, access.stallCycles - credit);
      return Some(Wrap(held + access.stallCycles - credit));
    }

    /** The front end's reaction to a taken branch, a jump or the halt. */
    method RedirectFetch(oldPc: codeAddr, e: Effect, ghost r: Retired) returns (stalls: Option<word>)
      requires icache.Valid() && r.pc == oldPc && r.effect == e
      modifies ifetch, icache, icache.lines
      ensures icache.Valid()
      ensures var d := RedirectPhase(old(ifetch.State()), old(icache.State()), r);
              if stalls.None? then d.None? else d.Some? && ifetch.Reached(d.value, stalls.value, icache)
    {
      match e {
        case Branch(true, target) => stalls := ifetch.OnTakenBranch(oldPc, target, icache);
        case Jump(_, _, target) => stalls := ifetch.OnJumpRedirect(oldPc, target, icache);
        case Halt => stalls := ifetch.OnSystemDrain(oldPc, icache);
        case _ => stalls := Some(0);
      }
    }

    /** Writes a register and notes the write in the trace row. */
    method WriteRegister(rd: reg, value: word, event: RetireEvent) returns (noted: RetireEvent)
      requires regs.Length == 32
      modifies regs
      ensures regs[..] == if rd != 0 then old(regs[..])[rd := value] else old(regs[..])
      ensures noted == event.(rd := rd, wdata := value, regWrite := rd != 0)
    {
      noted := event.(rd := rd, wdata := value, regWrite := rd != 0);
      if rd != 0 {
        regs[rd] := value;
      }
    }

    method StoreData(addr: word, bytes: seq<byte>)
      requires data.Length <= 0xffff_fff0 && addr + |bytes| <= data.Length
      modifies data
      ensures data[..] == WriteBytes(old(data[..]), addr, bytes)
    {
      for i := 0 to |bytes|
        invariant forall j :: 0 <= j < data.Length ==>
                    data[j] == if addr <= j < addr + i then bytes[j - addr] else old(data[j])
      {
        data[addr + i] := bytes[i];
      }
    }

    /** The architectural effect of an instruction, and its trace row but for the
        two counts. */
    method Commit(e: Effect, insn: word) returns (event: RetireEvent)
      requires Valid() && (e.Store? ==> e.addr + |e.bytes| <= data.Length)
      modifies this`pc, this`halted, regs, data
      ensures Valid()
      ensures regs[..] == WriteReg(old(regs[..]), e)[0 := 0]
      ensures data[..] == if e.Store? then WriteBytes(old(data[..]), e.addr, e.bytes) else old(data[..])
      ensures pc == NextPc(old(pc), e) && halted == (old(halted) || e.Halt?)
      ensures event == EventOf(old(pc), insn, e, 0, 0)
    {
      event := BlankEvent(pc, insn);
      match e {
        case Write(rd, value, _) => event := WriteRegister(rd, value, event);
        case Jump(rd, value, _) => event := WriteRegister(rd, value, event);
        case Load(rd, value, addr) =>
          event := event.(memAddr := addr, memRead := true);
          event := WriteRegister(rd, value, event);
        case Store(addr, bytes) =>
          StoreData(addr, bytes);
          event := event.(memAddr := addr, memWrite := true);
        case Halt => halted := true;
        case _ =>
      }
      regs[0] := 0;
      pc := NextPc(pc, e);
    }

    /** The timing half of a step.  None is a throw. */
    method Drive(oldPc: codeAddr, insn: word, e: Effect, ghost r: Retired) returns (result: Option<RetireResult>)
      requires Valid() && r.pc == oldPc && r.insn == insn && r.effect == e
      requires e.Store? ==> r.look == LookAhead(instructionMemory, regs[..], oldPc + 4)
      modifies this`overlapCycles, this`replays, timing, ifetch, icache, icache.lines, dcache, dcache.lines
      ensures Valid()
      ensures var step := TimeStep(old(Times()), r);
              if result.None? then step.None?
              else step.Some? && Times() == step.value.next && result.value == step.value.retired
    {
      hide Ensured, MemoryPhase, RedirectPhase, Retire, Accessed, LookAhead, Wrap;
      var own :- ifetch.EnsureThrough(oldPc, icache);
      var held: word := Wrap(0);
      var request := DataRequest(e);
      ghost var f, i, d := ifetch.State(), icache.State(), dcache.State();
      ghost var phase := MemoryPhase(f, i, d, r);
      if request.Some? {
        held :- AccessData(oldPc, request.value, r);
      } else {
        NoDataAccess(f, i, d, r);
      }
      ghost var m := phase.value;
      ghost var d' := RedirectPhase(m.fetch, m.icache, r);
      var redirected :- RedirectFetch(oldPc, e, r);
      WrapSums(Ensured(old(ifetch.State()), old(icache.State()), oldPc).value.stalls, m.stalls - m.credit,
               d'.value.stalls);
      timing.AddExternalStalls(Wrap(Wrap(own + held) + redirected));
      var retired := timing.RetireInstruction(insn, e.Branch? && e.taken);
      result := Some(retired);
    }

    lemma {:induction false} NoDataAccess(f: FetchState, i: Cache, d: Cache, r: Retired)
      requires DataRequest(r.effect).None?
      ensures MemoryPhase(f, i, d, r) == Some(MemoryOutcome(f, i, d, 0, 0))
    {
    }

    /** Fetches, decodes and evaluates the instruction at pc.  None is a throw:
        a misaligned or out-of-range fetch, an out-of-range data access or an
        illegal instruction. */
    method NextInstruction() returns (r: Option<(word, Effect)>)
      requires Valid()
      ensures var x := Execute(instructionMemory, Arch());
              if r.None? then x.None?
              else
                var (insn, e) := r.value;
                && x.Some? && pc <= 0xffff_ffec && (e.Store? ==> e.addr + |e.bytes| <= data.Length)
                && x.value.retired.pc == pc && x.value.retired.insn == insn && x.value.retired.effect == e
                && (e.Store? ==> x.value.retired.look == LookAhead(instructionMemory, regs[..], pc + 4))
                && x.value.next == ArchState(WriteReg(regs[..], e)[0 := 0], NextPc(pc, e),
                     if e.Store? then WriteBytes(data[..], e.addr, e.bytes) else data[..], e.Halt?)
    {
      hide Evaluate, LookAhead;
      if pc % 4 != 0 {
        return None;
      }
      var insn :- Read32(instructionMemory, pc);
      var e :- Evaluate(regs[..], data[..], pc, insn);
      return Some((insn, e));
    }

    lemma RowComplete(pc: word, insn: word, e: Effect, cycle: nat, n: nat)
      ensures EventOf(pc, insn, e, 0, 0).(cycle := cycle, retired := n) == EventOf(pc, insn, e, cycle, n)
    {
    }

    /** Executes one instruction, or reports that the CPU has halted or that the
        model throws. */
    method Step() returns (status: StepStatus)
      requires Valid()
      modifies Footprint()
      ensures Valid()
      ensures var s := Stepped(config, instructionMemory, old(State()));
              if status == Threw then s.None?
              else s == Some(State()) && status == (if halted then Stopped else Running)
      ensures status == Threw ==>
                pc == old(pc) && halted == old(halted) && regs[..] == old(regs[..]) && trace == old(trace)
    {
      hide Execute, TimeStep, Publish, EventOf, Tally, LookAhead, WriteReg, WriteBytes, NextPc;
      if halted {
        return Stopped;
      }
      if stats.retired >= config.maxInstructions {
        return Threw;
      }
      ghost var x := Execute(instructionMemory, Arch());
      var next := NextInstruction();
      if next.None? {
        return Threw;
      }
      var (insn, e) := next.value;
      var oldPc: codeAddr := pc;
      var result := Drive(oldPc, insn, e, x.value.retired);
      if result.None? {
        return Threw;
      }
      var event := Commit(e, insn);
      PublishStats(e);
      event := event.(cycle := result.value.retireCycle, retired := stats.retired);
      RowComplete(oldPc, insn, e, result.value.retireCycle, stats.retired);
      trace := trace + [event];
      status := if halted then Stopped else Running;
    }

    /** Steps until the CPU halts or the model throws; the instruction limit
        makes sure that one of them happens. */
    method Run() returns (threw: bool)
      requires Valid() && CountsAgree(State())
      modifies Footprint()
      ensures Valid()
      ensures exists n: nat ::
                var s := After(config, instructionMemory, old(State()), n);
                if threw then s.None? else s == Some(State()) && State().arch.halted
    {
      hide Stepped;
      ghost var start, n := State(), 0;
      assert After(config, instructionMemory, start, 0) == Some(State());
      while !halted
        invariant Valid() && CountsAgree(State())
        invariant After(config, instructionMemory, start, n) == Some(State())
        decreases !halted, config.maxInstructions - stats.retired
      {
        ghost var before := State();
        var status := Step();
        assert After(config, instructionMemory, start, n + 1) == Stepped(config, instructionMemory, before);
        if status == Threw {
          return true;
        }
        StepRetires(config, instructionMemory, before);
        n := n + 1;
      }
      return false;
    }

    method PublishStats(e: Effect)
      requires Valid()
      modifies this`stats
      ensures stats == Publish(Tally(old(stats).mix, e), Times())
    {
      var p, i, d := timing.stats, icache.stats, dcache.stats;
      var holds := 0;
      if icache.config.enabled {
        holds := p.loadUseStalls + p.dividerStalls;
        var duplicate := if overlapCycles < holds then overlapCycles else holds;
        holds := holds - duplicate;
      }
      stats := PerformanceStats(Tally(stats.mix, e), p.retired, p.totalCycles, p.baseCycles, p.fillDrain,
                                p.loadUseStalls, p.branchStalls, p.jumpStalls, p.dividerStalls,
                                i.stallCycles, d.stallCycles, overlapCycles, holds, replays,
                                i.accesses + holds, i.hits + holds, i.misses,
                                d.accesses, d.hits, d.misses, d.writebacks,
                                i.readTransactions + d.readTransactions, d.writeTransactions);
    }
  }
}
