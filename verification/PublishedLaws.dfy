/** The laws of a program run in the terms the CPU model publishes: its
    performance counters, its trace rows and its architectural state. */
module PublishedLaws {
  import opened Words
  import opened Isa
  import opened CacheModel
  import opened CacheHistory
  import opened PipelineTiming
  import opened Coupling
  import opened StepShape
  import opened Streams
  import opened StreamLaws
  import opened CycleLaws
  import opened CpuModel
  import opened ProgramRuns

  /** The stream behind a run. */
  lemma {:induction false} RunStream(config: Machine, p: Program, n: nat) returns (rs: seq<Retired>)
    requires Run(config, p, n).Some?
    ensures var s, setup := Run(config, p, n).value, SetupOf(config, p);
            && Functional(p, n).Some? && rs == Functional(p, n).value.retired
            && ValidStream(p.pc, rs) && Timed(setup, rs) == Some(s.timing)
            && s.arch == Functional(p, n).value.arch
            && s.arch.pc == PcAfter(setup.pc, rs) && s.arch.halted == Halted(rs)
            && s.trace == Rows(setup, rs)
            && s.stats == (if rs == [] then NO_PERFORMANCE else Publish(MixOf(rs), s.timing))
  {
    hide Functional, Run, Timed, Rows, Publish, MixOf, ValidStream, LookAhead;
    RunFactors(config, p, n);
    FunctionalIsConsistent(p, n);
    rs := Functional(p, n).value.retired;
  }

  lemma {:induction false} RowsCount(s: Setup, rs: seq<Retired>)
    requires Timed(s, rs).Some?
    ensures |Rows(s, rs)| == |rs|
  {
    if rs != [] {
      hide TimeStep, EventOf, RetireCycle;
      RowsCount(s, Init(rs));
    }
  }

  // ---------------------------------------------------- the instruction mix

  lemma {:induction false} MixSums(rs: seq<Retired>)
    ensures var m := MixOf(rs);
            && m.branchesTaken + m.jumps == RedirectCount(rs)
            && m.branchesTaken <= m.branches
  {
    if rs != [] {
      MixSums(Init(rs));
    }
  }

  /** How many requests of a stream are writes. */
  function Writes(qs: seq<Request>): nat {
    if qs == [] then 0 else Writes(Init(qs)) + if Last(qs).isWrite then 1 else 0
  }

  lemma WritesGrow(qs: seq<Request>, q: Request)
    ensures Writes(qs + [q]) == Writes(qs) + if q.isWrite then 1 else 0
  {
    assert Init(qs + [q]) == qs;
  }

  lemma TallyData(m: InstructionMix, e: Effect)
    ensures Tally(m, e).loads + Tally(m, e).stores == m.loads + m.stores + if DataRequest(e).Some? then 1 else 0
    ensures Tally(m, e).stores == m.stores + if DataRequest(e).Some? && DataRequest(e).value.isWrite then 1 else 0
  {
  }

  /** The loads and stores of the mix are the reads and writes of the data
      stream. */
  lemma {:induction false} MixCountsData(rs: seq<Retired>)
    ensures var m, qs := MixOf(rs), DataStream(rs);
            m.loads + m.stores == |qs| && m.stores == Writes(qs)
  {
    if rs != [] {
      hide Tally, DataRequest, Writes;
      MixCountsData(Init(rs));
      TallyData(MixOf(Init(rs)), Last(rs).effect);
      if DataRequest(Last(rs).effect).Some? {
        WritesGrow(DataStream(Init(rs)), DataRequest(Last(rs).effect).value);
      } else {
        assert DataStream(rs) == DataStream(Init(rs));
      }
    }
  }

  lemma {:induction false} MixCountsAll(pc: word, rs: seq<Retired>)
    requires ValidStream(pc, rs)
    ensures var m := MixOf(rs);
            |rs| == m.alu + m.branches + m.jumps + m.loads + m.stores + m.mulDiv + (if Halted(rs) then 1 else 0)
  {
    if rs != [] {
      hide DecodedAlike, Follows;
      MixCountsAll(pc, Init(rs));
      NotHaltedBefore(pc, rs);
    }
  }

  /** Every retired instruction is in exactly one class of the published mix,
      except the one that halts. */
  lemma MixIsComplete(config: Machine, p: Program, n: nat)
    requires Run(config, p, n).Some?
    ensures var s := Run(config, p, n).value;
            var m := s.stats.mix;
            s.stats.retired == |s.trace| ==
              m.alu + m.branches + m.jumps + m.loads + m.stores + m.mulDiv + (if s.arch.halted then 1 else 0)
  {
    hide Run, Timed, Rows, ValidStream, Functional;
    var rs := RunStream(config, p, n);
    MixCountsAll(p.pc, rs);
    RowsCount(SetupOf(config, p), rs);
    TimedCounts(SetupOf(config, p), rs);
  }

  // ---------------------------------------------------------------- cycles

  lemma {:induction false} PipelineStalls(s: Setup, rs: seq<Retired>)
    requires ValidStream(s.pc, rs) && Timed(s, rs).Some? && Fits(s)
    ensures var p := Timed(s, rs).value.pipe.stats;
            && p.retired == |rs| && p.loadUseStalls == Count(Issues(rs), LoadUseAt)
            && p.dividerStalls == 7 * Count(Issues(rs), BurstAt)
  {
    hide Timed, Count, ValidStream;
    PipeSide(s, rs);
    RunsAreOrderly(s, rs);
  }

  /** The published cycle count is the sum of the published parts, and the cache
      parts are the published events priced by the latencies. */
  lemma CyclesAreConserved(config: Machine, p: Program, n: nat)
    requires Run(config, p, n).Some? && Fits(SetupOf(config, p)) && Run(config, p, n).value.trace != []
    ensures var st := Run(config, p, n).value.stats;
            && st.cycles == st.retired + 4 + st.stallLoadUse + 2 * st.mix.branchesTaken + 2 * st.mix.jumps
                            + st.stallDivider + st.stallIcache + st.stallDcache - st.stallOverlap
            && st.stallIcache == st.icacheMisses * (config.icache.memoryLatency + 4)
            && st.stallDcache == st.dcacheMisses * (config.dcache.memoryLatency + 4)
                                 + st.dcacheWritebacks * (config.dcache.memoryLatency + 3)
  {
    hide Run, Timed, ValidStream, Functional, Count;
    var rs := RunStream(config, p, n);
    var s := SetupOf(config, p);
    CyclesAreHeld(s, rs);
    CacheCosts(s, rs);
    PipelineStalls(s, rs);
    MixSums(rs);
  }

  /** The overlap the model subtracts never exceeds either cache's stalls, so the
      net stall it prints lies between the larger of the two and their sum. */
  lemma OverlapIsBounded(config: Machine, p: Program, n: nat)
    requires Run(config, p, n).Some?
    ensures var st := Run(config, p, n).value.stats;
            && st.stallOverlap <= st.stallIcache && st.stallOverlap + st.ifstallReplays <= st.stallDcache
            && Max(st.stallIcache, st.stallDcache) <= st.stallIcache + st.stallDcache - st.stallOverlap
  {
    hide Run, Timed, ValidStream, Functional, MixOf;
    var rs := RunStream(config, p, n);
    OverlapIsAUnion(SetupOf(config, p), rs);
  }

  // --------------------------------------------------------------- requests

  /** The published instruction-cache accesses, in published terms. */
  lemma RequestsAreCounted(config: Machine, p: Program, n: nat)
    requires Run(config, p, n).Some? && config.icache.enabled && Run(config, p, n).value.trace != []
    ensures var s := Run(config, p, n).value;
            var st := s.stats;
            && st.icacheAccesses ==
                 st.retired + 2 * (st.mix.branchesTaken + st.mix.jumps) + st.stallDcache
                 + (if s.arch.halted then 4 else (s.timing.fetch.front - s.arch.pc) / 4) + st.holdReplays
            && st.holdReplays == Max(st.stallOverlap, st.stallLoadUse + st.stallDivider) - st.stallOverlap
  {
    hide Run, Timed, ValidStream, Functional, RedirectCount, MixOf;
    var rs := RunStream(config, p, n);
    var s := SetupOf(config, p);
    RunsAreOrderly(s, rs);
    RequestCount(s, rs);
    MixSums(rs);
    TimedCounts(s, rs);
  }

  lemma {:induction false} CacheBalances(s: Setup, rs: seq<Retired>)
    requires ValidStream(s.pc, rs) && Timed(s, rs).Some?
    ensures var i, d := Timed(s, rs).value.icache.stats, Timed(s, rs).value.dcache.stats;
            && i.hits + i.misses == i.accesses && i.readTransactions == i.misses
            && d.hits + d.misses == d.accesses && d.readTransactions == d.misses
            && d.writeTransactions == d.writebacks <= d.misses
            && (s.dcache.enabled ==> d.accesses == |DataStream(rs)| + Timed(s, rs).value.replays)
  {
    hide Timed, ValidStream, Feed;
    DataSide(s, rs);
    DirtyConservation(s.dcache, DataStream(rs));
    if s.icache.enabled {
      FetchSide(s, rs);
      DirtyConservation(s.icache, Fetches(s.pc, rs, Timed(s, rs).value.fetch.front));
    } else {
      UncachedStaysCold(s, rs);
    }
  }

  /** Hits and misses add up to accesses on both sides, hold replays included;
      every miss is a bus read, every writeback a bus write and part of a miss;
      the data cache is asked once a load or store and once a replay. */
  lemma TransactionsBalance(config: Machine, p: Program, n: nat)
    requires Run(config, p, n).Some?
    ensures var st := Run(config, p, n).value.stats;
            && st.icacheHits + st.icacheMisses == st.icacheAccesses
            && st.dcacheHits + st.dcacheMisses == st.dcacheAccesses
            && st.axiReads == st.icacheMisses + st.dcacheMisses
            && st.axiWrites == st.dcacheWritebacks <= st.dcacheMisses
            && (config.dcache.enabled ==> st.dcacheAccesses == st.mix.loads + st.mix.stores + st.ifstallReplays)
  {
    hide Run, Timed, ValidStream, Functional, HoldReplayCount, MixOf, DataStream;
    var rs := RunStream(config, p, n);
    CacheBalances(SetupOf(config, p), rs);
    MixCountsData(rs);
  }

  // -------------------------------------------------------------- the trace

  lemma {:induction false} RowCycle(s: Setup, rs: seq<Retired>, i: nat)
    requires Timed(s, rs).Some? && i < |rs|
    ensures |Rows(s, rs)| == |rs|
    ensures Timed(s, rs[..i + 1]).Some? && Rows(s, rs)[i].cycle == RetireCycle(s, rs[..i + 1])
  {
    hide TimeStep, RetireCycle;
    RowsCount(s, rs);
    if i == |rs| - 1 {
      assert rs[..i + 1] == rs;
    } else {
      RowCycle(s, Init(rs), i);
      assert Init(rs)[..i + 1] == rs[..i + 1];
    }
  }

  lemma {:induction false} PrefixIsValid(pc: word, rs: seq<Retired>, i: nat)
    requires ValidStream(pc, rs) && i <= |rs|
    ensures ValidStream(pc, rs[..i])
  {
    hide DecodedAlike, Follows;
  }

  lemma {:induction false} RowsAdvance(s: Setup, rs: seq<Retired>, i: nat)
    requires ValidStream(s.pc, rs) && Timed(s, rs).Some? && Fits(s) && 1 <= i < |rs|
    ensures |Rows(s, rs)| == |rs| && Rows(s, rs)[i - 1].cycle < Rows(s, rs)[i].cycle
  {
    hide Timed, ValidStream, Rows, RetireCycle, Fits, Held;
    var upTo := rs[..i + 1];
    RowCycle(s, rs, i);
    RowCycle(s, rs, i - 1);
    PrefixIsValid(s.pc, rs, i + 1);
    assert Init(upTo) == rs[..i];
    RetirementSpacing(s, upTo);
  }

  lemma {:induction false} LastRowIsTotal(s: Setup, rs: seq<Retired>)
    requires ValidStream(s.pc, rs) && Timed(s, rs).Some? && Fits(s) && Halted(rs)
    ensures |Rows(s, rs)| == |rs| && Last(Rows(s, rs)).cycle == Timed(s, rs).value.pipe.stats.totalCycles
  {
    hide Timed, ValidStream, Rows, RetireCycle, Fits;
    RowCycle(s, rs, |rs| - 1);
    assert rs[..|rs|] == rs;
    TotalIsLastRetirement(s, rs);
  }

  /** The rows of a trace carry strictly increasing cycles, and when the program
      has halted the last of them is the published total. */
  lemma TraceCyclesIncrease(config: Machine, p: Program, n: nat)
    requires Run(config, p, n).Some? && Fits(SetupOf(config, p))
    ensures var s := Run(config, p, n).value;
            && (forall i {:trigger s.trace[i]} :: 1 <= i < |s.trace| ==> s.trace[i - 1].cycle < s.trace[i].cycle)
            && (s.arch.halted ==> s.trace != [] && Last(s.trace).cycle == s.stats.cycles)
  {
    hide Run, ValidStream, Functional, MixOf, Timed, RetireCycle, Rows;
    var rs := RunStream(config, p, n);
    var s := SetupOf(config, p);
    RowsCount(s, rs);
    forall i | 1 <= i < |rs| ensures Rows(s, rs)[i - 1].cycle < Rows(s, rs)[i].cycle {
      RowsAdvance(s, rs, i);
    }
    if Halted(rs) {
      LastRowIsTotal(s, rs);
    }
  }
}
