/** Runs of a program on the CPU model.  A run factors into the functional run
    of the program, which knows no caches, and the timing of the stream that it
    retires; the laws of streams become laws of the published counters. */
module ProgramRuns {
  import opened Words
  import opened Isa
  import opened FetchStream
  import opened PipelineTiming
  import opened Coupling
  import opened Streams
  import opened StreamLaws
  import opened CycleLaws
  import opened CpuModel

  datatype Program = Program(imem: image, data: image, pc: word)

  // -------------------------------------------------- the functional machine

  datatype FunctionalRun = FunctionalRun(arch: ArchState, retired: seq<Retired>)

  function Boot(p: Program): ArchState {
    ArchState(seq(32, _ => 0), p.pc, p.data, false)
  }

  /** `n` steps of the program without any timing model; None where execution
      itself fails. */
  function Functional(p: Program, n: nat): Option<FunctionalRun> {
    if n == 0 then Some(FunctionalRun(Boot(p), []))
    else
      var run :- Functional(p, n - 1);
      if run.arch.halted then Some(run)
      else
        var x :- Execute(p.imem, run.arch);
        Some(FunctionalRun(x.next, run.retired + [x.retired]))
  }

  /** What a functional run knows about its last instruction. */
  ghost predicate Consistent(p: Program, run: FunctionalRun) {
    var a, rs := run.arch, run.retired;
    && a.regs[0] == 0
    && ValidStream(p.pc, rs)
    && a.pc == (if rs == [] then p.pc else NextPc(Last(rs).pc, Last(rs).effect))
    && a.halted == Halted(rs)
    && (rs != [] && Last(rs).effect.Store? ==> Last(rs).look == LookAhead(p.imem, a.regs, a.pc))
  }

  lemma {:induction false} ExecutedRetires(imem: image, a: ArchState, x: Executed)
    requires Execute(imem, a) == Some(x) && a.regs[0] == 0
    ensures var r := x.retired;
            && r.pc == a.pc && r.pc % 4 == 0 && DecodedAlike(r)
            && x.next.regs[0] == 0 && x.next.pc == NextPc(r.pc, r.effect) && x.next.halted == r.effect.Halt?
            && (r.effect.Store? ==> r.look == LookAhead(imem, x.next.regs, x.next.pc))
            && LookAhead(imem, a.regs, a.pc) == Redirection(r.effect)
  {
    hide Evaluate, Decode, PredictRedirect;
    DecodersAgree(a.regs, a.data, a.pc, x.retired.insn);
    PredictionIsEvaluation(a.regs, a.data, a.pc, x.retired.insn);
    assert a.regs[0 := 0] == a.regs;
  }

  lemma {:induction false} StreamGrows(pc: word, rs: seq<Retired>, r: Retired)
    requires ValidStream(pc, rs) && r.pc % 4 == 0 && DecodedAlike(r)
    requires if rs == [] then r.pc == pc else Follows(Last(rs), r)
    ensures ValidStream(pc, rs + [r])
  {
    hide DecodedAlike, Follows;
  }

  lemma {:induction false} ConsistentStep(p: Program, run: FunctionalRun, x: Executed)
    requires Consistent(p, run) && !run.arch.halted && Execute(p.imem, run.arch) == Some(x)
    ensures Consistent(p, FunctionalRun(x.next, run.retired + [x.retired]))
  {
    hide Execute, DecodedAlike, ValidStream, LookAhead, Redirection;
    ExecutedRetires(p.imem, run.arch, x);
    StreamGrows(p.pc, run.retired, x.retired);
  }

  /** Every program retires a valid stream: in particular each store's lookahead
      is the redirect its successor takes. */
  lemma {:induction false} FunctionalIsConsistent(p: Program, n: nat)
    requires Functional(p, n).Some?
    ensures Consistent(p, Functional(p, n).value)
  {
    hide Execute;
    if n > 0 {
      hide Consistent;
      FunctionalIsConsistent(p, n - 1);
      var run := Functional(p, n - 1).value;
      if !run.arch.halted {
        ConsistentStep(p, run, Execute(p.imem, run.arch).value);
      }
    }
  }

  // ----------------------------------------------------------- factorization

  function SetupOf(config: Machine, p: Program): Setup
  {
    SetupData(config.icache, config.dcache, p.pc)
  }

  function MixOf(rs: seq<Retired>): InstructionMix {
    if rs == [] then NO_MIX else Tally(MixOf(Init(rs)), Last(rs).effect)
  }

  /** The state after `n` steps of a reset CPU. */
  function Run(config: Machine, p: Program, n: nat): Option<CpuState>
  {
    After(config, p.imem, ResetState(config, p.data, p.pc), n)
  }

  lemma {:induction false} TimedGrows(s: Setup, rs: seq<Retired>, r: Retired)
    requires Timed(s, rs).Some?
    ensures Timed(s, rs + [r]) == (var step := TimeStep(Timed(s, rs).value, r);
                                   if step.None? then None else Some(step.value.next))
    ensures MixOf(rs + [r]) == Tally(MixOf(rs), r.effect)
  {
    assert Init(rs + [r]) == rs;
  }

  /** A timing state's retirement count is the length of its stream. */
  lemma {:induction false} TimedCounts(s: Setup, rs: seq<Retired>)
    requires Timed(s, rs).Some?
    ensures Timed(s, rs).value.pipe.stats.retired == |rs|
  {
    if rs != [] {
      hide Ensured, MemoryPhase, RedirectPhase, Decode;
      TimedCounts(s, Init(rs));
    }
  }

  /** The trace rows of a stream. */
  function Rows(s: Setup, rs: seq<Retired>): seq<RetireEvent>
    requires Timed(s, rs).Some?
  {
    if rs == [] then []
    else
      var r := Last(rs);
      Rows(s, Init(rs)) + [EventOf(r.pc, r.insn, r.effect, RetireCycle(s, rs), |rs|)]
  }

  lemma {:induction false} RowsGrow(s: Setup, rs: seq<Retired>, r: Retired)
    requires Timed(s, rs).Some? && TimeStep(Timed(s, rs).value, r).Some? && Timed(s, rs + [r]).Some?
    ensures var step := TimeStep(Timed(s, rs).value, r).value;
            Rows(s, rs + [r]) ==
            Rows(s, rs) + [EventOf(r.pc, r.insn, r.effect, step.retired.retireCycle, |rs| + 1)]
  {
    hide TimeStep, EventOf;
    assert Init(rs + [r]) == rs;
  }

  /** The state is the functional state, the timing of the retired stream, and
      the counters and trace rows published from it. */
  ghost predicate Factored(config: Machine, p: Program, f: FunctionalRun, s: CpuState)
  {
    && s.arch == f.arch
    && Timed(SetupOf(config, p), f.retired) == Some(s.timing)
    && s.stats == (if f.retired == [] then NO_PERFORMANCE else Publish(MixOf(f.retired), s.timing))
    && |f.retired| <= config.maxInstructions
    && s.trace == Rows(SetupOf(config, p), f.retired)
  }

  lemma {:induction false} FactoredStep(config: Machine, p: Program, f: FunctionalRun, s: CpuState)
    requires Factored(config, p, f, s) && !f.arch.halted
    ensures var s', x := Stepped(config, p.imem, s), Execute(p.imem, f.arch);
            && (s'.Some? <==> x.Some? && |f.retired| < config.maxInstructions
                              && Timed(SetupOf(config, p), f.retired + [x.value.retired]).Some?)
            && (s'.Some? ==>
                Factored(config, p, FunctionalRun(x.value.next, f.retired + [x.value.retired]), s'.value))
  {
    hide Execute, TimeStep, Publish, Tally, EventOf, Timed, MixOf, Rows;
    TimedCounts(SetupOf(config, p), f.retired);
    PublishedCount(MixOf(f.retired), s.timing);
    var x := Execute(p.imem, f.arch);
    if x.Some? {
      var rs, r := f.retired, x.value.retired;
      TimedGrows(SetupOf(config, p), rs, r);
      var step := TimeStep(s.timing, r);
      if step.Some? {
        TimedCounts(SetupOf(config, p), rs + [r]);
        PublishedCount(MixOf(rs + [r]), step.value.next);
        RowsGrow(SetupOf(config, p), rs, r);
      }
    }
  }

  /** A run exists exactly when the program executes, the instruction limit is
      not reached and no lookahead throws; its architectural half is the
      functional run, and its timing half is the timing of the retired stream. */
  lemma {:induction false} RunFactors(config: Machine, p: Program, n: nat)
    ensures var f, run := Functional(p, n), Run(config, p, n);
            && (run.Some? <==> f.Some? && |f.value.retired| <= config.maxInstructions
                               && Timed(SetupOf(config, p), f.value.retired).Some?)
            && (run.Some? ==> Factored(config, p, f.value, run.value))
  {
    hide Execute, Stepped, Factored, Timed;
    if n == 0 {
      RunStarts(config, p);
    } else {
      RunFactors(config, p, n - 1);
      var f, s := Functional(p, n - 1), Run(config, p, n - 1);
      if s.Some? {
        FactoredHalts(config, p, f.value, s.value);
        if !f.value.arch.halted {
          FactoredStep(config, p, f.value, s.value);
        }
      } else if f.Some? && !f.value.arch.halted && Execute(p.imem, f.value.arch).Some? {
        TimedNeedsPrefix(SetupOf(config, p), f.value.retired, Execute(p.imem, f.value.arch).value.retired);
      }
    }
  }

  lemma RunStarts(config: Machine, p: Program)
    ensures Timed(SetupOf(config, p), []).Some?
    ensures Functional(p, 0).Some? && Functional(p, 0).value.retired == []
    ensures Run(config, p, 0).Some? && Factored(config, p, Functional(p, 0).value, Run(config, p, 0).value)
  {
  }

  lemma {:induction false} FactoredHalts(config: Machine, p: Program, f: FunctionalRun, s: CpuState)
    requires Factored(config, p, f, s)
    ensures s.arch.halted == f.arch.halted
    ensures s.arch.halted ==> Stepped(config, p.imem, s) == Some(s)
  {
  }

  lemma {:induction false} TimedNeedsPrefix(s: Setup, rs: seq<Retired>, r: Retired)
    ensures Timed(s, rs + [r]).Some? ==> Timed(s, rs).Some?
  {
    assert Init(rs + [r]) == rs;
  }

  lemma PublishedCount(mix: InstructionMix, t: Timing)
    ensures MixOf([]) == NO_MIX
    ensures Publish(mix, t).retired == t.pipe.stats.retired && Publish(mix, t).mix == mix
    ensures NO_PERFORMANCE.retired == 0 && NO_PERFORMANCE.mix == NO_MIX
  {
  }

  // ------------------------------------------------------------- the trace

  /** The same state, with a trace that already had rows. */
  function Behind(rows: seq<RetireEvent>, s: CpuState): CpuState {
    s.(trace := rows + s.trace)
  }

  lemma StepIgnoresTrace(config: Machine, imem: image, s: CpuState, rows: seq<RetireEvent>)
    ensures var s' := Stepped(config, imem, s);
            Stepped(config, imem, Behind(rows, s)) == if s'.None? then None else Some(Behind(rows, s'.value))
  {
    hide Execute, TimeStep, Publish, Tally, EventOf;
    if Stepped(config, imem, s).Some? && !s.arch.halted {
      var x := Execute(imem, s.arch).value;
      var s' := Advance(s, x, TimeStep(s.timing, x.retired).value);
      assert rows + s'.trace == (rows + s.trace) + [Last(s'.trace)];
    }
  }

  lemma {:induction false} AfterIgnoresTrace(config: Machine, imem: image, s: CpuState, rows: seq<RetireEvent>, n: nat)
    ensures var s' := After(config, imem, s, n);
            After(config, imem, Behind(rows, s), n) == if s'.None? then None else Some(Behind(rows, s'.value))
  {
    hide Stepped, Behind;
    if n > 0 {
      AfterIgnoresTrace(config, imem, s, rows, n - 1);
      if After(config, imem, s, n - 1).Some? {
        StepIgnoresTrace(config, imem, After(config, imem, s, n - 1).value, rows);
      }
    }
  }

  /** A reset keeps the trace file, and nothing but the trace remembers: a run
      after a reset is the same run with its rows added behind the older ones. */
  lemma RerunAppendsRows(config: Machine, p: Program, n: nat, rows: seq<RetireEvent>)
    ensures var start, run := ResetState(config, p.data, p.pc), Run(config, p, n);
            After(config, p.imem, start.(trace := rows), n) ==
            if run.None? then None else Some(Behind(rows, run.value))
  {
    hide After;
    var start := ResetState(config, p.data, p.pc);
    assert rows + [] == rows;
    AfterIgnoresTrace(config, p.imem, start, rows, n);
  }

  /** The register file that a trace alone describes. */
  function RegistersOf(rows: seq<RetireEvent>): regfile {
    if rows == [] then seq(32, _ => 0)
    else
      var before, row := RegistersOf(Init(rows)), Last(rows);
      if row.regWrite then before[row.rd := row.wdata] else before
  }

  lemma RowWrites(regs: regfile, e: Effect, pc: word, insn: word, cycle: nat, n: nat)
    requires regs[0] == 0
    ensures var row := EventOf(pc, insn, e, cycle, n);
            WriteReg(regs, e)[0 := 0] == if row.regWrite then regs[row.rd := row.wdata] else regs
  {
  }

  lemma {:induction false} ExecutedRegisters(imem: image, a: ArchState, x: Executed)
    requires Execute(imem, a) == Some(x)
    ensures x.next.regs == WriteReg(a.regs, x.retired.effect)[0 := 0]
  {
    hide Evaluate, LookAhead;
  }

  /** Folding the register writes of the trace over zeroed registers gives the
      register file, after every step. */
  lemma {:induction false} TraceGivesRegisters(config: Machine, p: Program, n: nat)
    requires Run(config, p, n).Some?
    ensures var s := Run(config, p, n).value;
            s.arch.regs == RegistersOf(s.trace)
  {
    hide Stepped, Factored, Timed, EventOf, Execute, Publish, Tally, TimeStep;
    if n > 0 {
      TraceGivesRegisters(config, p, n - 1);
      RunFactors(config, p, n - 1);
      FunctionalIsConsistent(p, n - 1);
      var f, s := Functional(p, n - 1).value, Run(config, p, n - 1).value;
      StepWritesRow(config, p, f, s);
    }
  }

  lemma {:induction false} StepWritesRow(config: Machine, p: Program, f: FunctionalRun, s: CpuState)
    requires Factored(config, p, f, s) && Consistent(p, f) && Stepped(config, p.imem, s).Some?
    requires s.arch.regs == RegistersOf(s.trace)
    ensures var s' := Stepped(config, p.imem, s).value;
            s'.arch.regs == RegistersOf(s'.trace)
  {
    hide Execute, TimeStep, Publish, Tally, EventOf, Timed, Rows, ValidStream, LookAhead;
    var s' := Stepped(config, p.imem, s).value;
    if !s.arch.halted {
      var x := Execute(p.imem, s.arch).value;
      var r, step := x.retired, TimeStep(s.timing, x.retired).value;
      ExecutedRegisters(p.imem, s.arch, x);
      var row := EventOf(r.pc, r.insn, r.effect, step.retired.retireCycle, s'.stats.retired);
      assert s'.trace == s.trace + [row] && s'.arch == x.next;
      assert Init(s.trace + [row]) == s.trace && Last(s.trace + [row]) == row;
      RowWrites(s.arch.regs, r.effect, r.pc, r.insn, step.retired.retireCycle, s'.stats.retired);
    }
  }
}
