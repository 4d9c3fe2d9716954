/** What the trace of a run says, and the published counters as counts over the
    trace: which instructions it shows, what they accessed, how they divide into
    classes and which of them waited. */
module TraceLaws {
  import opened Words
  import opened Isa
  import opened InstructionSet
  import opened CacheModel
  import opened PipelineTiming
  import opened TimingDecoder
  import opened Coupling
  import opened Streams
  import opened StreamLaws
  import opened CycleLaws
  import opened CpuModel
  import opened ProgramRuns
  import opened PublishedLaws

  // ------------------------------------------------- instructions retired

  /** The record is of an instruction of the program that executed. */
  ghost predicate OfProgram(p: Program, r: Retired) {
    && Read32(p.imem, r.pc) == Some(r.insn)
    && exists regs, data :: Evaluate(regs, data, r.pc, r.insn) == Some(r.effect)
  }

  lemma {:induction false} RetiredAreOfProgram(p: Program, n: nat)
    requires Functional(p, n).Some?
    ensures forall r <- Functional(p, n).value.retired :: OfProgram(p, r)
  {
    if n > 0 {
      hide Execute, Evaluate, Read32, OfProgram;
      RetiredAreOfProgram(p, n - 1);
      var run := Functional(p, n - 1).value;
      if !run.arch.halted {
        ExecutedIsOfProgram(p, run.arch, Execute(p.imem, run.arch).value);
      }
    }
  }

  lemma {:induction false} ExecutedIsOfProgram(p: Program, a: ArchState, x: Executed)
    requires Execute(p.imem, a) == Some(x)
    ensures OfProgram(p, x.retired)
  {
    hide Execute, Evaluate, Read32;
    ExecuteChanges(p.imem, a, x);
  }

  /** The effect is one of the instruction's class, into its destination. */
  predicate Classed(r: Retired) {
    && Legal(r.insn)
    && (match KindOf(r.insn)
        case AluKind => r.effect.Fence? || (r.effect.Write? && r.effect.exec == AluUnit)
        case MulDivKind => r.effect.Write? && r.effect.exec != AluUnit
        case JumpKind => r.effect.Jump?
        case BranchKind => r.effect.Branch?
        case LoadKind => r.effect.Load?
        case StoreKind => r.effect.Store?
        case HaltKind => r.effect.Halt?)
    && (r.effect.Write? || r.effect.Jump? || r.effect.Load? ==> r.effect.rd == Rd(r.insn))
  }

  lemma {:induction false} ProgramIsClassed(p: Program, r: Retired)
    requires OfProgram(p, r)
    ensures Classed(r)
  {
    hide Evaluate, Legal, Rd, KindOf, Reaches;
    var regs, data :| Evaluate(regs, data, r.pc, r.insn) == Some(r.effect);
    KindOfEffect(regs, data, r.pc, r.insn);
    DestinationIsRd(regs, data, r.pc, r.insn);
    LegalExecutes(regs, data, r.pc, r.insn);
  }

  /** The stream behind a run, with what its instructions are. */
  lemma {:induction false} ClassedStream(config: Machine, p: Program, n: nat) returns (rs: seq<Retired>)
    requires Run(config, p, n).Some?
    ensures var s, setup := Run(config, p, n).value, SetupOf(config, p);
            && Functional(p, n).Some? && rs == Functional(p, n).value.retired
            && ValidStream(p.pc, rs) && Timed(setup, rs) == Some(s.timing)
            && s.arch == Functional(p, n).value.arch
            && s.arch.pc == PcAfter(setup.pc, rs) && s.arch.halted == Halted(rs)
            && s.trace == Rows(setup, rs)
            && s.stats == (if rs == [] then NO_PERFORMANCE else Publish(MixOf(rs), s.timing))
    ensures forall i :: 0 <= i < |rs| ==> Classed(rs[i]) && Read32(p.imem, rs[i].pc) == Some(rs[i].insn)
  {
    hide Run, Timed, ValidStream, Functional, Rows, Publish, MixOf, OfProgram, Classed, Read32;
    rs := RunStream(config, p, n);
    RetiredAreOfProgram(p, n);
    forall i | 0 <= i < |rs| ensures Classed(rs[i]) && Read32(p.imem, rs[i].pc) == Some(rs[i].insn) {
      ProgramIsClassed(p, rs[i]);
      OfProgramIsRead(p, rs[i]);
    }
  }

  lemma {:induction false} OfProgramIsRead(p: Program, r: Retired)
    requires OfProgram(p, r)
    ensures Read32(p.imem, r.pc) == Some(r.insn)
  {
  }

  // ------------------------------------------------------------- the rows

  /** A row, but for its cycle. */
  lemma {:induction false} RowAt(s: Setup, rs: seq<Retired>, i: nat)
    requires Timed(s, rs).Some? && i < |rs|
    ensures |Rows(s, rs)| == |rs|
    ensures var row := Rows(s, rs)[i];
            row == EventOf(rs[i].pc, rs[i].insn, rs[i].effect, row.cycle, i + 1)
  {
    hide TimeStep, RetireCycle;
    RowsCount(s, rs);
    if i < |rs| - 1 {
      RowAt(s, Init(rs), i);
    }
  }

  /** The instruction writes a register if that register is not x0. */
  predicate HasDestination(insn: word) {
    var kind := KindOf(insn);
    kind == MulDivKind || kind == JumpKind || kind == LoadKind || (kind == AluKind && Opcode(insn) != 0x0f)
  }

  /** The trace shows the program: each row an instruction of it, numbered in order,
      the first at the start address and each straight-line successor at the next
      word; with the columns that belong to its class. */
  ghost predicate ShowsProgram(p: Program, trace: seq<RetireEvent>) {
    && (trace != [] ==> trace[0].pc == p.pc)
    && (forall i :: 0 <= i < |trace| ==> RowShows(p, trace[i], i + 1))
    && (forall i {:trigger trace[i]} :: 0 < i < |trace| ==>
          KindOf(trace[i - 1].insn) != JumpKind && KindOf(trace[i - 1].insn) != BranchKind ==>
            trace[i].pc == trace[i - 1].pc + 4)
  }

  ghost predicate RowShows(p: Program, row: RetireEvent, number: nat) {
    && row.retired == number && row.pc % 4 == 0
    && Read32(p.imem, row.pc) == Some(row.insn) && Legal(row.insn)
    && (row.memRead <==> KindOf(row.insn) == LoadKind)
    && (row.memWrite <==> KindOf(row.insn) == StoreKind)
    && (!row.memRead && !row.memWrite ==> row.memAddr == 0)
    && row.rd == (if HasDestination(row.insn) then Rd(row.insn) else 0)
    && (row.regWrite <==> row.rd != 0)
    && (!HasDestination(row.insn) ==> row.wdata == 0)
  }

  lemma {:induction false} EventShows(p: Program, r: Retired, cycle: nat, number: nat)
    requires OfProgram(p, r) && r.pc % 4 == 0
    ensures RowShows(p, EventOf(r.pc, r.insn, r.effect, cycle, number), number)
  {
    hide Evaluate, Legal, Rd, Read32, Opcode;
    ProgramIsClassed(p, r);
    FenceIsFence(p, r);
  }

  lemma {:induction false} FenceIsFence(p: Program, r: Retired)
    requires OfProgram(p, r)
    ensures r.effect.Fence? <==> Opcode(r.insn) == 0x0f
  {
    hide OpImm, OpReg, MulDiv, BranchTaken, LoadValue, StoreWidth, ImmI, ImmS, ImmB, ImmJ, ImmU, Rd, Rs1, Rs2, Wrap;
    hide Opcode, Funct3, Funct7, LittleEndian, Read32;
  }

  lemma {:induction false} TraceIsTheProgram(config: Machine, p: Program, n: nat)
    requires Run(config, p, n).Some?
    ensures ShowsProgram(p, Run(config, p, n).value.trace)
  {
    hide Run, Timed, Functional, Rows, Publish, MixOf, Classed, Read32, Legal, OfProgram, KindOf;
    hide RowShows, EventOf, ValidStream;
    var rs := RunStream(config, p, n);
    var trace := Run(config, p, n).value.trace;
    RetiredAreOfProgram(p, n);
    RowsCount(SetupOf(config, p), rs);
    forall i | 0 <= i < |rs|
      ensures RowShows(p, trace[i], i + 1) && trace[i].pc == rs[i].pc && trace[i].insn == rs[i].insn
    {
      RowAt(SetupOf(config, p), rs, i);
      AlignedAt(p.pc, rs, i);
      EventShows(p, rs[i], trace[i].cycle, i + 1);
      EventIsFor(rs[i], trace[i].cycle, i + 1);
    }
    forall i {:trigger trace[i]} | 0 < i < |rs|
      ensures KindOf(rs[i - 1].insn) != JumpKind && KindOf(rs[i - 1].insn) != BranchKind ==>
                rs[i].pc == rs[i - 1].pc + 4
    {
      StreamFollows(p.pc, rs, i);
      ProgramIsClassed(p, rs[i - 1]);
      StraightOn(rs[i - 1], rs[i]);
    }
    if rs != [] {
      AlignedAt(p.pc, rs, 0);
    }
  }

  lemma {:induction false} AlignedAt(pc: word, rs: seq<Retired>, i: nat)
    requires ValidStream(pc, rs) && i < |rs|
    ensures rs[i].pc % 4 == 0 && rs[0].pc == pc
  {
  }

  lemma {:induction false} EventIsFor(r: Retired, cycle: nat, number: nat)
    ensures var row := EventOf(r.pc, r.insn, r.effect, cycle, number);
            row.pc == r.pc && row.insn == r.insn
  {
  }

  lemma {:induction false} StraightOn(r: Retired, next: Retired)
    requires Classed(r) && Follows(r, next)
    ensures KindOf(r.insn) != JumpKind && KindOf(r.insn) != BranchKind ==> next.pc == r.pc + 4
  {
    hide KindOf, Legal, Rd;
  }

  // ------------------------------------------------------- memory accesses

  /** The data requests that a trace shows. */
  function Accesses(trace: seq<RetireEvent>): seq<Request> {
    if trace == [] then []
    else
      var row := Last(trace);
      Accesses(Init(trace)) + if row.memRead || row.memWrite then [Request(row.memAddr, row.memWrite)] else []
  }

  lemma {:induction false} AccessesOfRows(s: Setup, rs: seq<Retired>)
    requires Timed(s, rs).Some?
    ensures Accesses(Rows(s, rs)) == DataStream(rs)
  {
    if rs != [] {
      hide TimeStep, RetireCycle;
      AccessesOfRows(s, Init(rs));
      var r := Last(rs);
      var row := EventOf(r.pc, r.insn, r.effect, RetireCycle(s, rs), |rs|);
      assert Init(Rows(s, Init(rs)) + [row]) == Rows(s, Init(rs)) && Last(Rows(s, Init(rs)) + [row]) == row;
    }
  }

  /** The data cache saw exactly the accesses that the trace shows: the published
      misses and writebacks are those of a cold cache given them in order. */
  lemma {:induction false} TraceDrivesDcache(config: Machine, p: Program, n: nat)
    requires Run(config, p, n).Some?
    ensures var s := Run(config, p, n).value;
            var d := Feed(Cold(config.dcache), Accesses(s.trace)).stats;
            && s.stats.dcacheMisses == d.misses && s.stats.dcacheWritebacks == d.writebacks
            && s.stats.dcacheHits == d.hits + s.stats.ifstallReplays
            && s.stats.mix.loads + s.stats.mix.stores == |Accesses(s.trace)|
  {
    hide Run, Timed, ValidStream, Functional, Rows, MixOf, Feed, HoldReplayCount, DataStream, Accesses;
    var rs := RunStream(config, p, n);
    AccessesOfRows(SetupOf(config, p), rs);
    MixCountsData(rs);
    if rs == [] {
      NothingYet(config, p);
    } else {
      DataSide(SetupOf(config, p), rs);
    }
  }

  lemma NothingYet(config: Machine, p: Program)
    ensures Accesses([]) == [] == DataStream([]) && MixOf([]) == NO_MIX
    ensures Feed(Cold(config.dcache), []) == Cold(config.dcache)
  {
  }

  // ---------------------------------------------------------- the classes

  /** How many rows are of a class. */
  function HowMany(trace: seq<RetireEvent>, kind: Kind): nat {
    if trace == [] then 0
    else HowMany(Init(trace), kind) + if KindOf(Last(trace).insn) == kind then 1 else 0
  }

  /** The mix has as many instructions of each class as the trace has rows of it. */
  predicate Mixed(m: InstructionMix, t: seq<RetireEvent>) {
    && m.alu == HowMany(t, AluKind) && m.mulDiv == HowMany(t, MulDivKind)
    && m.jumps == HowMany(t, JumpKind) && m.branches == HowMany(t, BranchKind)
    && m.loads == HowMany(t, LoadKind) && m.stores == HowMany(t, StoreKind)
  }

  lemma HowManyGrows(t: seq<RetireEvent>, row: RetireEvent, kind: Kind)
    ensures HowMany(t + [row], kind) == HowMany(t, kind) + if KindOf(row.insn) == kind then 1 else 0
  {
    hide KindOf;
    assert Init(t + [row]) == t && Last(t + [row]) == row;
  }

  lemma {:induction false} MixGrows(m: InstructionMix, t: seq<RetireEvent>, r: Retired, row: RetireEvent)
    requires Mixed(m, t) && Classed(r) && row.insn == r.insn
    ensures Mixed(Tally(m, r.effect), t + [row])
  {
    hide KindOf, HowMany, Legal, Rd;
    HowManyGrows(t, row, AluKind);
    HowManyGrows(t, row, MulDivKind);
    HowManyGrows(t, row, JumpKind);
    HowManyGrows(t, row, BranchKind);
    HowManyGrows(t, row, LoadKind);
    HowManyGrows(t, row, StoreKind);
  }

  lemma {:induction false} KindsOfRows(s: Setup, rs: seq<Retired>)
    requires Timed(s, rs).Some? && forall i :: 0 <= i < |rs| ==> Classed(rs[i])
    ensures Mixed(MixOf(rs), Rows(s, rs))
  {
    if rs != [] {
      hide TimeStep, RetireCycle, Classed, Mixed, Tally;
      var r := Last(rs);
      KindsOfRows(s, Init(rs));
      MixGrows(MixOf(Init(rs)), Rows(s, Init(rs)), r, EventOf(r.pc, r.insn, r.effect, RetireCycle(s, rs), |rs|));
    }
  }

  /** The published instruction mix counts the trace rows by the class that opcode and
      function fields give them. */
  lemma {:induction false} MixCountsTheTrace(config: Machine, p: Program, n: nat)
    requires Run(config, p, n).Some?
    ensures var s := Run(config, p, n).value;
            Mixed(s.stats.mix, s.trace)
  {
    hide Run, Timed, ValidStream, Functional, Rows, MixOf, Classed, HowMany, HoldReplayCount, Read32;
    var rs := ClassedStream(config, p, n);
    KindsOfRows(SetupOf(config, p), rs);
    NothingYet(config, p);
  }

  // ------------------------------------------------------------- the waits

  /** A row right behind a load into a real register that it reads. */
  predicate BubbleAt(trace: seq<RetireEvent>, i: nat) {
    && 1 <= i < |trace| && KindOf(trace[i - 1].insn) == LoadKind
    && trace[i - 1].rd != 0 && trace[i - 1].rd in Sources(trace[i].insn)
  }

  predicate DivisionAt(trace: seq<RetireEvent>, i: nat) {
    i < |trace| && KindOf(trace[i].insn) == MulDivKind && Funct3(trace[i].insn) >= 4
  }

  /** The first row of a run of consecutive divisions. */
  predicate BurstStartsAt(trace: seq<RetireEvent>, i: nat) {
    DivisionAt(trace, i) && (i == 0 || !DivisionAt(trace, i - 1))
  }

  function Bubbles(trace: seq<RetireEvent>): nat {
    |set i: nat | i < |trace| && BubbleAt(trace, i)|
  }

  function Bursts(trace: seq<RetireEvent>): nat {
    |set i: nat | i < |trace| && BurstStartsAt(trace, i)|
  }

  lemma TimingClasses(insn: word)
    ensures Decode(insn).isLoad == (KindOf(insn) == LoadKind)
    ensures Decode(insn).isDivRem == (KindOf(insn) == MulDivKind && Funct3(insn) >= 4)
    ensures Decode(insn).rd == Rd(insn)
  {
    hide Opcode, Funct3, Funct7, Rs1, Rs2, Rd;
  }

  /** Row `i` shows record `i`. */
  ghost predicate RowsFor(trace: seq<RetireEvent>, rs: seq<Retired>) {
    |trace| == |rs| && forall i :: 0 <= i < |rs| ==>
      && Classed(rs[i]) && trace[i].insn == rs[i].insn
      && (KindOf(rs[i].insn) == LoadKind ==> trace[i].rd == Rd(rs[i].insn))
  }

  lemma {:induction false} MarksAgree(trace: seq<RetireEvent>, rs: seq<Retired>, i: nat)
    requires RowsFor(trace, rs) && i < |rs|
    ensures LoadUseAt(Issues(rs), i) == BubbleAt(trace, i) && DivRemAt(Issues(rs), i) == DivisionAt(trace, i)
  {
    hide Decode, KindOf, Sources, Funct3, Rd, Reads, Classed;
    IssuesAt(rs, i);
    TimingClasses(rs[i].insn);
    if i > 0 {
      IssuesAt(rs, i - 1);
      TimingClasses(rs[i - 1].insn);
      ReadsSources(rs[i].insn, Rd(rs[i - 1].insn));
    }
  }

  lemma {:induction false} WaitsCounted(trace: seq<RetireEvent>, rs: seq<Retired>)
    requires RowsFor(trace, rs)
    ensures Count(Issues(rs), LoadUseAt) == Bubbles(trace) && Count(Issues(rs), BurstAt) == Bursts(trace)
  {
    hide RowsFor, LoadUseAt, DivRemAt, BubbleAt, DivisionAt, Issues;
    var h, n := Issues(rs), |rs|;
    assert |h| == n == |trace| by {
      SameLength(trace, rs);
    }
    forall i: nat | i < n ensures LoadUseAt(h, i) == BubbleAt(trace, i) && BurstAt(h, i) == BurstStartsAt(trace, i) {
      MarksAgree(trace, rs, i);
      if i > 0 {
        MarksAgree(trace, rs, i - 1);
      }
    }
    assert Marked(h, LoadUseAt) == set i: nat | i < |trace| && BubbleAt(trace, i);
    assert Marked(h, BurstAt) == set i: nat | i < |trace| && BurstStartsAt(trace, i);
  }

  lemma {:induction false} SameLength(trace: seq<RetireEvent>, rs: seq<Retired>)
    requires RowsFor(trace, rs)
    ensures |Issues(rs)| == |rs| == |trace|
  {
  }

  lemma {:induction false} RowIsFor(s: Setup, rs: seq<Retired>)
    requires Timed(s, rs).Some? && forall i :: 0 <= i < |rs| ==> Classed(rs[i])
    ensures RowsFor(Rows(s, rs), rs)
  {
    hide Timed, Rows, Rd, KindOf, Legal;
    RowsCount(s, rs);
    forall i | 0 <= i < |rs|
      ensures Rows(s, rs)[i].insn == rs[i].insn
      ensures KindOf(rs[i].insn) == LoadKind ==> Rows(s, rs)[i].rd == Rd(rs[i].insn)
    {
      RowAt(s, rs, i);
      assert Classed(rs[i]);
    }
  }

  /** The taken branches and the jumps of the two decoders. */
  lemma {:induction false} RedirectsMatchMix(rs: seq<Retired>)
    requires forall i :: 0 <= i < |rs| ==> DecodedAlike(rs[i])
    ensures Count(Issues(rs), TakenAt) == MixOf(rs).branchesTaken && Count(Issues(rs), JumpAt) == MixOf(rs).jumps
  {
    if rs == [] {
      assert Marked(Issues(rs), TakenAt) == {} && Marked(Issues(rs), JumpAt) == {};
    } else {
      hide Decode, Count;
      var h, r := Issues(Init(rs)), Issue(Last(rs).insn, Taken(Last(rs)));
      RedirectsMatchMix(Init(rs));
      assert forall i :: 0 <= i < |h| ==> (h + [r])[i] == h[i];
      CountAfter(h, r, TakenAt);
      CountAfter(h, r, JumpAt);
      assert DecodedAlike(Last(rs));
    }
  }

  lemma {:induction false} StreamDecodedAlike(pc: word, rs: seq<Retired>)
    requires ValidStream(pc, rs)
    ensures forall i :: 0 <= i < |rs| ==> DecodedAlike(rs[i])
  {
  }

  /** Each published stall counter is a count over the trace or the mix: one cycle a
      bubble, seven a burst of divisions, two a taken branch and two a jump; with one
      base cycle an instruction and four for filling and draining the pipeline. */
  lemma {:induction false} StallsCountTheTrace(config: Machine, p: Program, n: nat)
    requires Run(config, p, n).Some? && Fits(SetupOf(config, p)) && Run(config, p, n).value.trace != []
    ensures var s := Run(config, p, n).value;
            var st := s.stats;
            && st.stallLoadUse == Bubbles(s.trace) && st.stallDivider == 7 * Bursts(s.trace)
            && st.stallBranch == 2 * st.mix.branchesTaken && st.stallJump == 2 * st.mix.jumps
            && st.baseCycles == st.retired == |s.trace| && st.fillDrain == 4
  {
    hide Run, Timed, ValidStream, Functional, Rows, MixOf, Classed, HoldReplayCount, Read32, Count, Bubbles, Bursts;
    hide Issues, Fits, DecodedAlike, RowsFor, Held;
    var s := SetupOf(config, p);
    var rs := ClassedStream(config, p, n);
    RowsCount(s, rs);
    RowIsFor(s, rs);
    WaitsCounted(Rows(s, rs), rs);
    StreamDecodedAlike(p.pc, rs);
    RedirectsMatchMix(rs);
    PipeSide(s, rs);
    RunsAreOrderly(s, rs);
  }

  /** With a cache off, its counters stay at zero. */
  lemma {:induction false} UncachedPublishNothing(config: Machine, p: Program, n: nat)
    requires Run(config, p, n).Some?
    ensures var st := Run(config, p, n).value.stats;
            && (!config.icache.enabled ==>
                  && st.icacheAccesses == 0 && st.icacheHits == 0 && st.icacheMisses == 0 && st.stallIcache == 0
                  && st.holdReplays == 0 && st.stallOverlap == 0)
            && (!config.dcache.enabled ==>
                  && st.dcacheAccesses == 0 && st.dcacheHits == 0 && st.dcacheMisses == 0 && st.dcacheWritebacks == 0
                  && st.stallDcache == 0 && st.ifstallReplays == 0 && st.axiWrites == 0 && st.stallOverlap == 0)
  {
    hide Run, Timed, ValidStream, Functional, Rows, MixOf, Feed;
    var s := SetupOf(config, p);
    var rs := RunStream(config, p, n);
    RunsAreOrderly(s, rs);
    OverlapIsAUnion(s, rs);
    if !config.icache.enabled {
      UncachedStaysCold(s, rs);
    }
    if !config.dcache.enabled {
      DataSide(s, rs);
      FeedUncached(s.dcache, DataStream(rs));
    }
  }
}
