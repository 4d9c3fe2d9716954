/** One program on two machines: what the cache settings can and cannot change. */
module ProgramComparisons {
  import opened Words
  import opened Isa
  import opened CacheModel
  import opened CacheHistory
  import opened Coupling
  import opened StepShape
  import opened Streams
  import opened StreamLaws
  import opened CycleLaws
  import opened LargerCache
  import opened CreditSizes
  import opened LatencySweep
  import opened LargerDataCache
  import opened FetchAddresses
  import opened CpuModel
  import opened ProgramRuns
  import opened PublishedLaws

  // ----------------------------------------------------------- transparency

  /** The same row, but for the cycle. */
  predicate SameRow(a: RetireEvent, b: RetireEvent) {
    a.(cycle := b.cycle) == b
  }

  ghost predicate SameRows(a: seq<RetireEvent>, b: seq<RetireEvent>) {
    |a| == |b| && forall i :: 0 <= i < |a| ==> SameRow(a[i], b[i])
  }

  lemma {:induction false} RowsAreSame(s: Setup, s': Setup, rs: seq<Retired>)
    requires Timed(s, rs).Some? && Timed(s', rs).Some?
    ensures SameRows(Rows(s, rs), Rows(s', rs))
  {
    if rs != [] {
      hide TimeStep, RetireCycle;
      RowsAreSame(s, s', Init(rs));
    }
  }

  /** Wherever two runs of one program exist, they agree on registers, memory,
      program counter, halt and instruction mix, and on every trace row but for
      its cycle. */
  lemma RunsAgree(c: Machine, c': Machine, p: Program, n: nat)
    requires Run(c, p, n).Some? && Run(c', p, n).Some?
    ensures var s, s' := Run(c, p, n).value, Run(c', p, n).value;
            s.arch == s'.arch && s.stats.mix == s'.stats.mix && SameRows(s.trace, s'.trace)
  {
    hide Run, Timed, ValidStream, Functional, Rows, MixOf, SameRows;
    var rs := RunStream(c, p, n);
    var rs' := RunStream(c', p, n);
    RowsAreSame(SetupOf(c, p), SetupOf(c', p), rs);
  }

  /** The lookahead of the run's last instruction throws on this machine: it is a
      store at the very end of instruction memory, it missed in the data cache,
      and the fetches under that miss stalled too. */
  ghost predicate LookaheadFaults(c: Machine, p: Program, rs: seq<Retired>)
    requires rs != [] && Timed(SetupOf(c, p), Init(rs)).Some?
  {
    var t, r := Timed(SetupOf(c, p), Init(rs)).value, Last(rs);
    && c.icache.enabled && r.effect.Store? && r.pc + 8 > |p.imem|
    && DataStall(t.dcache, r.effect) != 0 && Wrap(LateStalls(t, r)) != 0
  }

  lemma {:induction false} UnavailableMeansAtEnd(imem: image, a: ArchState, x: Executed)
    requires Execute(imem, a) == Some(x) && x.retired.effect.Store?
    ensures x.retired.look.Unavailable? <==> x.retired.pc + 8 > |imem|
  {
    hide Evaluate, ImmI, ImmJ, ImmB, BranchTaken;
  }

  lemma {:induction false} StoresKnowTheEnd(p: Program, n: nat)
    requires Functional(p, n).Some?
    ensures forall r <- Functional(p, n).value.retired ::
              r.effect.Store? ==> (r.look.Unavailable? <==> r.pc + 8 > |p.imem|)
  {
    if n > 0 {
      hide Execute;
      StoresKnowTheEnd(p, n - 1);
      var run := Functional(p, n - 1).value;
      if !run.arch.halted {
        var x := Execute(p.imem, run.arch).value;
        if x.retired.effect.Store? {
          UnavailableMeansAtEnd(p.imem, run.arch, x);
        }
      }
    }
  }

  /** Caches are not perfectly transparent, and this is exactly how: a program
      that runs `n` steps on one machine runs `n` steps on another unless the last
      of them is a store whose lookahead faults there. */
  lemma TransparencyIsExact(c: Machine, c': Machine, p: Program, n: nat)
    requires c.maxInstructions == c'.maxInstructions && Run(c, p, n).Some?
    ensures Functional(p, n).Some?
    ensures var rs := Functional(p, n).value.retired;
            && (rs != [] ==> Timed(SetupOf(c', p), Init(rs)).Some?)
            && (Run(c', p, n).Some? <==> !(rs != [] && LookaheadFaults(c', p, rs)))
  {
    hide Run, Timed, ValidStream, Functional, Rows, MixOf, Publish, LateStalls, DataStall, Window, DecodedAlike;
    var rs := RunStream(c, p, n);
    RunFactors(c, p, n);
    RunFactors(c', p, n);
    OnlyTheLastStepThrows(SetupOf(c', p), rs);
    if rs == [] {
      TimedNothing(SetupOf(c', p));
    } else {
      StoresKnowTheEnd(p, n);
      LastStepFaults(SetupOf(c', p), rs);
    }
  }

  lemma TimedNothing(s: Setup)
    ensures Timed(s, []).Some?
  {
  }

  lemma {:induction false} LastStepFaults(s: Setup, rs: seq<Retired>)
    requires rs != [] && ValidStream(s.pc, rs) && Timed(s, Init(rs)).Some?
    ensures var t := Timed(s, Init(rs)).value;
            Timed(s, rs).None? <==> s.icache.enabled && LookaheadThrows(LateStalls(t, Last(rs)), t.dcache, Last(rs))
  {
    hide TimeStep, DecodedAlike, LookaheadThrows;
    PrefixIsValid(s.pc, rs, |rs| - 1);
    RunsAreOrderly(s, Init(rs));
    var t := Timed(s, Init(rs)).value;
    assert Last(rs).pc == PcAfter(s.pc, Init(rs));
    WindowOfOrderly(s, t, Last(rs).pc);
    StepIsLawful(t, Last(rs));
  }

  /** A program that halts on one machine halts on every other, after the same
      steps, in the same architectural state and with the same trace but for the
      cycles. */
  lemma HaltingIsTransparent(c: Machine, c': Machine, p: Program, n: nat)
    requires c.maxInstructions == c'.maxInstructions && Run(c, p, n).Some? && Run(c, p, n).value.arch.halted
    ensures Run(c', p, n).Some?
    ensures var s, s' := Run(c, p, n).value, Run(c', p, n).value;
            s.arch == s'.arch && s.stats.mix == s'.stats.mix && SameRows(s.trace, s'.trace)
  {
    hide Run, Timed, ValidStream, Functional, Rows, MixOf, Publish, LateStalls, DataStall, SameRows;
    var rs := RunStream(c, p, n);
    TransparencyIsExact(c, c', p, n);
    RunsAgree(c, c', p, n);
  }

  // ------------------------------------------------------------ comparisons

  /** The misses of a halted program on either side are those of one cache fed
      one stream that the program alone determines, so neither side's misses
      depend on the other cache or on the latencies. */
  lemma MissesAreDecoupled(c: Machine, p: Program, n: nat)
    requires Run(c, p, n).Some? && Run(c, p, n).value.arch.halted && c.icache.enabled
    ensures Functional(p, n).Some?
    ensures var st, rs := Run(c, p, n).value.stats, Functional(p, n).value.retired;
            && st.icacheMisses == Feed(Cold(c.icache), SegmentFetches(p.pc, rs)).stats.misses
            && st.dcacheMisses == Feed(Cold(c.dcache), DataStream(rs)).stats.misses
            && st.dcacheWritebacks == Feed(Cold(c.dcache), DataStream(rs)).stats.writebacks
  {
    hide Run, Timed, ValidStream, Functional, Rows, MixOf, Feed, HoldReplayCount;
    var rs := RunStream(c, p, n);
    FetchSide(SetupOf(c, p), rs);
    DataSide(SetupOf(c, p), rs);
  }

  /** Growing the instruction cache by any factor never makes a halting program
      take more cycles or miss more often. */
  lemma LargerIcacheNeverHurts(c: Machine, c': Machine, k: nat, p: Program, n: nat)
    requires c.icache.enabled && Multiplied(c.icache, c'.icache, k) && c' == c.(icache := c'.icache)
    requires Run(c, p, n).Some? && Run(c, p, n).value.arch.halted && Fits(SetupOf(c, p))
    ensures Run(c', p, n).Some? && Run(c', p, n).value.arch == Run(c, p, n).value.arch
    ensures Run(c', p, n).value.stats.cycles <= Run(c, p, n).value.stats.cycles
    ensures Run(c', p, n).value.stats.icacheMisses <= Run(c, p, n).value.stats.icacheMisses
  {
    hide Run, Timed, ValidStream, Functional, Rows, MixOf, Fits, Multiplied, HoldReplayCount, SameRows;
    HaltingIsTransparent(c, c', p, n);
    var rs := RunStream(c, p, n);
    var rs' := RunStream(c', p, n);
    LargerIcacheIsNeverSlower(SetupOf(c, p), SetupOf(c', p), k, rs);
  }

  /** In a user's terms: of two instruction-cache sizes that the model accepts,
      the larger never makes a halting program slower. */
  lemma MoreIcacheLinesNeverHurt(c: Machine, c': Machine, p: Program, n: nat)
    requires c.icache.enabled && c.icache.Accepted() && c'.icache.Accepted() && c.icache.lines <= c'.icache.lines
    requires c' == c.(icache := c.icache.(lines := c'.icache.lines))
    requires Run(c, p, n).Some? && Run(c, p, n).value.arch.halted && Fits(SetupOf(c, p))
    ensures Run(c', p, n).Some? && Run(c', p, n).value.arch == Run(c, p, n).value.arch
    ensures Run(c', p, n).value.stats.cycles <= Run(c, p, n).value.stats.cycles
  {
    hide Run, Fits, IsPowerOfTwo;
    var k := AcceptedCountsDivide(c.icache.lines, c'.icache.lines);
    LargerIcacheNeverHurts(c, c', k, p, n);
  }

  /** How the counters of one run on machine `c` compare with those of a run with
      more data-cache lines.  The larger cache misses and writes back no more.  It is
      no slower exactly when the overlap it loses is not more than what the misses
      and writebacks it saves are worth.  It is slower by no more than what the
      smaller cache's overlaps hid beyond clean misses, which is nothing if the data
      memory is the slower one and at most a cycle an overlap if the two are equal. */
  predicate HurtsLittle(c: Machine, a: PerformanceStats, b: PerformanceStats) {
    var li, ld := c.icache.memoryLatency, c.dcache.memoryLatency;
    var misses, writebacks := a.dcacheMisses - b.dcacheMisses, a.dcacheWritebacks - b.dcacheWritebacks;
    var excess := a.stallOverlap - a.ifstallReplays * CreditFor(false, Latencies(li, ld));
    && misses >= 0 && writebacks >= 0
    && (b.cycles <= a.cycles <==>
        a.stallOverlap - b.stallOverlap <= misses * (ld + 4) + writebacks * (ld + 3))
    && b.cycles + writebacks * (ld + 3) <= a.cycles + excess
    && (li < ld ==> b.cycles <= a.cycles)
    && (li == ld ==> b.cycles <= a.cycles + a.ifstallReplays)
  }

  /** Growing the data cache by any factor never makes a halting program miss more or
      write back more, and can cost it cycles only as far as overlaps of dirty
      misses go. */
  lemma {:induction false} LargerDcacheHurtsLittle(c: Machine, c': Machine, k: nat, p: Program, n: nat)
    requires c.dcache.enabled && Multiplied(c.dcache, c'.dcache, k) && c' == c.(dcache := c'.dcache)
    requires Fits(SetupOf(c, p))
    requires Run(c, p, n).Some? && Run(c, p, n).value.arch.halted
    ensures Run(c', p, n).Some? && Run(c', p, n).value.arch == Run(c, p, n).value.arch
    ensures HurtsLittle(c, Run(c, p, n).value.stats, Run(c', p, n).value.stats)
  {
    hide Run, Timed, ValidStream, Functional, Rows, MixOf, Fits, Multiplied, HoldReplayCount, SameRows, CreditFor;
    hide DirtyOverlaps;
    HaltingIsTransparent(c, c', p, n);
    var rs := RunStream(c, p, n);
    var rs' := RunStream(c', p, n);
    var s, s' := SetupOf(c, p), SetupOf(c', p);
    LargerDcacheCostsAtMostTheExcess(s, s', k, rs);
    ExcessIsDirty(s, rs);
    ExcessIsSmall(Timed(s, rs).value, DirtyOverlaps(s, rs), LatenciesOf(s));
    SavedWritebacks(Timed(s, rs).value.dcache.stats.writebacks, Timed(s', rs).value.dcache.stats.writebacks,
                    c.dcache.memoryLatency);
  }

  /** In a user's terms: the same of any two data-cache sizes that the model
      accepts. */
  lemma MoreDcacheLinesHurtLittle(c: Machine, c': Machine, p: Program, n: nat)
    requires c.dcache.enabled && c.dcache.Accepted() && c'.dcache.Accepted() && c.dcache.lines <= c'.dcache.lines
    requires c' == c.(dcache := c.dcache.(lines := c'.dcache.lines))
    requires Fits(SetupOf(c, p))
    requires Run(c, p, n).Some? && Run(c, p, n).value.arch.halted
    ensures Run(c', p, n).Some? && Run(c', p, n).value.arch == Run(c, p, n).value.arch
    ensures HurtsLittle(c, Run(c, p, n).value.stats, Run(c', p, n).value.stats)
  {
    hide Run, Fits, IsPowerOfTwo, HurtsLittle;
    var k := AcceptedCountsDivide(c.dcache.lines, c'.dcache.lines);
    LargerDcacheHurtsLittle(c, c', k, p, n);
  }

  /** Two programs that halt after retiring the same addresses, neither of them
      ever redirecting to the word it would have come to anyway, miss equally often
      in the instruction cache: the misses are a function of the addresses, whatever
      the data cache and the latencies are. */
  lemma AddressesDecideMisses(c: Machine, c': Machine, p: Program, p': Program, n: nat, n': nat)
    requires c.icache.enabled && SameButLatency(c.icache, c'.icache)
    requires Run(c, p, n).Some? && Run(c, p, n).value.arch.halted
    requires Run(c', p', n').Some? && Run(c', p', n').value.arch.halted
    requires Functional(p, n).Some? && Functional(p', n').Some?
    requires var rs, rs' := Functional(p, n).value.retired, Functional(p', n').value.retired;
             SameAddresses(rs, rs') && NoRedirectToNext(rs) && NoRedirectToNext(rs')
    ensures Run(c, p, n).value.stats.icacheMisses == Run(c', p', n').value.stats.icacheMisses
  {
    hide Run, Timed, ValidStream, Functional, Rows, MixOf, Feed, HoldReplayCount, NoRedirectToNext, SegmentFetches;
    var rs := RunStream(c, p, n);
    var rs' := RunStream(c', p', n');
    StreamStart(p.pc, rs);
    StreamStart(p'.pc, rs');
    AddressesDecideFetches(p.pc, rs, rs');
    MissesAreDecoupled(c, p, n);
    MissesAreDecoupled(c', p', n');
    AlikeFeed(Cold(c.icache), Cold(c'.icache), SegmentFetches(p.pc, rs));
  }

  lemma {:induction false} StreamStart(pc: word, rs: seq<Retired>)
    requires ValidStream(pc, rs) && rs != []
    ensures rs[0].pc == pc
  {
  }

  /** The machine with other memory latencies. */
  function WithLatencies(c: Machine, icache: word, dcache: word): Machine {
    c.(icache := c.icache.(memoryLatency := icache), dcache := c.dcache.(memoryLatency := dcache))
  }

  /** The machine with another memory latency for both caches. */
  function WithLatency(c: Machine, latency: word): Machine {
    WithLatencies(c, latency, latency)
  }

  /** A slower memory behind either cache, or behind both, never makes a program take
      fewer cycles, and changes no miss, writeback or overlap. */
  lemma {:induction false} SlowerMemoryNeverHelps(c: Machine, li: word, ld: word, li': word, ld': word, p: Program,
                                                  n: nat)
    requires li <= li' && ld <= ld'
    requires Fits(SetupOf(WithLatencies(c, li, ld), p)) && Fits(SetupOf(WithLatencies(c, li', ld'), p))
    requires Run(WithLatencies(c, li, ld), p, n).Some? && Run(WithLatencies(c, li', ld'), p, n).Some?
    ensures var a := Run(WithLatencies(c, li, ld), p, n).value.stats;
            var b := Run(WithLatencies(c, li', ld'), p, n).value.stats;
            && a.cycles <= b.cycles
            && b.icacheMisses == a.icacheMisses && b.dcacheMisses == a.dcacheMisses
            && b.dcacheWritebacks == a.dcacheWritebacks && b.ifstallReplays == a.ifstallReplays
  {
    hide Run, Timed, ValidStream, Functional, MixOf, Fits, HoldReplayCount;
    var rs := RunStream(WithLatencies(c, li, ld), p, n);
    var rs' := RunStream(WithLatencies(c, li', ld'), p, n);
    var s, s' := SetupOf(WithLatencies(c, li, ld), p), SetupOf(WithLatencies(c, li', ld'), p);
    if rs != [] {
      RunsAreSwept(s, s', rs);
      DataSideIsDecoupled(s, s', rs);
      SlowerMemoryIsNeverFaster(s, s', rs);
    }
  }

  /** The published cycle count is affine in the memory latency: between two
      latencies it changes by their difference for every instruction-cache miss,
      data-cache miss and writeback, less every overlap, and none of those counts
      changes. */
  lemma CyclesAreAffine(c: Machine, l: word, l': word, p: Program, n: nat)
    requires Fits(SetupOf(WithLatency(c, l), p)) && Fits(SetupOf(WithLatency(c, l'), p))
    requires Run(WithLatency(c, l), p, n).Some? && Run(WithLatency(c, l'), p, n).Some?
    requires Run(WithLatency(c, l), p, n).value.trace != []
    ensures var a, b := Run(WithLatency(c, l), p, n).value.stats, Run(WithLatency(c, l'), p, n).value.stats;
            && b.icacheMisses == a.icacheMisses && b.dcacheMisses == a.dcacheMisses
            && b.dcacheWritebacks == a.dcacheWritebacks && b.ifstallReplays == a.ifstallReplays
            && a.ifstallReplays <= a.dcacheMisses
            && a.ifstallReplays * (l + 3) <= a.stallOverlap <= a.ifstallReplays * (l + 4)
            && b.cycles - a.cycles ==
                 (l' - l) * (a.icacheMisses + a.dcacheMisses + a.dcacheWritebacks - a.ifstallReplays)
  {
    hide Run, Timed, ValidStream, Functional, MixOf, Fits, HoldReplayCount, OverlapsSized, DirtyOverlaps;
    var rs := RunStream(WithLatency(c, l), p, n);
    var rs' := RunStream(WithLatency(c, l'), p, n);
    RowsCount(SetupOf(WithLatency(c, l), p), rs);
    CyclesAreAffineInLatency(SetupOf(WithLatency(c, l), p), SetupOf(WithLatency(c, l'), p), rs);
    OverlapsAreMisses(SetupOf(WithLatency(c, l), p), rs);
    OverlapPerEpisode(SetupOf(WithLatency(c, l), p), rs);
    OverlapAtOneLatency(Timed(SetupOf(WithLatency(c, l), p), rs).value,
                        DirtyOverlaps(SetupOf(WithLatency(c, l), p), rs), l);
  }
}
