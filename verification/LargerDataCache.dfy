/** Two runs of one program, the second with a multiple of the data-cache lines.
    The larger cache misses less and writes back less, but it is not always
    faster: an overlap can hide more of a dirty miss than of a clean one.  What it
    can lose is what the smaller cache's overlaps hid beyond that of clean misses. */
module LargerDataCache {
  import opened Words
  import opened Isa
  import opened CacheModel
  import opened CacheHistory
  import opened FetchStream
  import opened FrontEnd
  import opened Coupling
  import opened StepShape
  import opened Streams
  import opened StreamLaws
  import opened CycleLaws
  import opened CreditSizes
  import opened LatencySweep

  /** All else equal. */
  predicate LargerDcache(s: Setup, s': Setup, k: nat) {
    && Multiplied(s.dcache, s'.dcache, k) && s.dcache.enabled && s' == s.(dcache := s'.dcache)
  }

  // ---------------------------------------------------------- the data side

  /** After the same stream, what misses in the larger cache misses in the
      smaller. */
  lemma {:induction false} DataPair(s: Setup, s': Setup, k: nat, rs: seq<Retired>, e: Effect)
    requires LargerDcache(s, s', k) && ValidStream(s.pc, rs) && Timed(s, rs).Some? && Timed(s', rs).Some?
    ensures var a, b := Timed(s, rs).value.dcache, Timed(s', rs).value.dcache;
            DataOutcome(b, e).result.miss ==> DataOutcome(a, e).result.miss
  {
    hide Timed, Accessed, Feed, ValidStream, Included;
    DataSide(s, rs);
    DataSide(s', rs);
    if DataRequest(e).Some? {
      var small, large := Feed(Cold(s.dcache), DataStream(rs)), Feed(Cold(s'.dcache), DataStream(rs));
      var q := DataRequest(e).value;
      ColdIsIncluded(s.dcache, Cold(s'.dcache));
      InclusionOverStream(Cold(s.dcache), Cold(s'.dcache), k, DataStream(rs));
      InclusionStep(small, large, k, q);
      AccessedWithHits(small, Timed(s, rs).value.replays, q);
      AccessedWithHits(large, Timed(s', rs).value.replays, q);
      MissesExactly(small, q);
      MissesExactly(large, q);
    }
  }

  lemma {:induction false} LargerDcacheMovesLess(s: Setup, s': Setup, k: nat, rs: seq<Retired>)
    requires LargerDcache(s, s', k) && ValidStream(s.pc, rs) && Timed(s, rs).Some? && Timed(s', rs).Some?
    ensures var a, b := Timed(s, rs).value.dcache.stats, Timed(s', rs).value.dcache.stats;
            b.misses <= a.misses && b.writebacks <= a.writebacks
  {
    hide Timed, Feed, ValidStream;
    DataSide(s, rs);
    DataSide(s', rs);
    LargerCacheMovesLess(s.dcache, s'.dcache, k, DataStream(rs));
  }

  // --------------------------------------------------------- the fetch side

  /** How far a run has fetched: the finished segments, filled into `base`, and
      the open one from `start` to the front. */
  ghost predicate FetchedTo(t: Timing, base: Cache, start: nat) {
    && start % 4 == 0 && start <= t.fetch.front && t.fetch.front % 4 == 0
    && base.config.enabled && t.icache.config == base.config
    && UpToHits(t.icache, Feed(base, Sequential(start, t.fetch.front)))
  }

  /** The stall cycles of fetching the open segment from one point to another. */
  lemma {:induction false} LateStallsOfSegment(t: Timing, r: Retired, base: Cache, start: nat)
    requires FetchedTo(t, base, start) && Window(t, r.pc)
    ensures var mid := Max(t.fetch.front, r.pc + 4);
            LateStalls(t, r) == Stalls(base, Sequential(start, r.pc + 16)) - Stalls(base, Sequential(start, mid))
  {
    hide Feed, Sequential, Hits;
    var front, mid := t.fetch.front, Max(t.fetch.front, r.pc + 4);
    var own, late := Sequential(front, r.pc + 4), Sequential(mid, r.pc + 16);
    assert own == Sequential(front, mid);
    var fed := Feed(base, Sequential(start, front));
    UpToHitsFeed(t.icache, fed, own, 0);
    UpToHitsFeed(Feed(t.icache, own), Feed(fed, own), late, 0);
    FeedSequential(base, start, front, mid);
    FeedSequential(base, start, mid, r.pc + 16);
  }

  lemma SegmentStallsGrow(base: Cache, start: nat, less: nat, more: nat)
    requires start <= less <= more <= 0x1_0000_0000 && start % 4 == 0 && less % 4 == 0
    ensures Stalls(base, Sequential(start, less)) <= Stalls(base, Sequential(start, more))
  {
    hide Feed, Sequential;
    FeedSequential(base, start, less, more);
  }

  /** A run that has fetched less of the same segment has at least as many late
      stalls still to come. */
  lemma {:induction false} LateStallsShrink(a: Timing, b: Timing, r: Retired, base: Cache, start: nat)
    requires FetchedTo(a, base, start) && FetchedTo(b, base, start) && Window(a, r.pc) && Window(b, r.pc)
    requires b.fetch.front <= a.fetch.front
    ensures LateStalls(a, r) <= LateStalls(b, r)
  {
    hide Feed, Sequential, Hits, UpToHits, Stalls, LateStalls;
    LateStallsOfSegment(a, r, base, start);
    LateStallsOfSegment(b, r, base, start);
    var less, more := Max(b.fetch.front, r.pc + 4), Max(a.fetch.front, r.pc + 4);
    assert start <= less <= more <= r.pc + 12 && less % 4 == 0;
    SegmentStallsGrow(base, start, less, more);
  }

  // --------------------------------------------------------------- one step

  /** What one step does to both runs. */
  ghost predicate LargerDcacheStep(a: Timing, b: Timing, m: Latencies, r: Retired, a': Timing, b': Timing) {
    && Window(a, r.pc) && Window(b, r.pc) && FetchLaw(a, r, a') && FetchLaw(b, r, b')
    && b.fetch.front <= a.fetch.front && LateStalls(a, r) <= LateStalls(b, r)
    && a.icache.config == b.icache.config && NoDirtyLine(b.icache)
    && BothPriced(a, m) && BothPriced(b, m)
    && (DataOutcome(b.dcache, r.effect).result.miss ==> DataOutcome(a.dcache, r.effect).result.miss)
  }

  lemma {:induction false} FrontStaysBehind(a: Timing, b: Timing, m: Latencies, r: Retired, a': Timing, b': Timing)
    requires LargerDcacheStep(a, b, m, r, a', b')
    ensures b'.fetch.front <= a'.fetch.front
  {
    hide Feed, Hits, CreditDue, LateStalls, Sequential, DataOutcome, CleanMissPenalty, DirtyMissPenalty, Demand;
    DataStallKind(a.dcache, r.effect);
    DataStallKind(b.dcache, r.effect);
    OnlyMissesWriteBack(b.dcache, r.effect);
  }

  /** Where the larger cache misses too it is credited at least as for a clean
      miss. */
  lemma {:induction false} CreditKept(a: Timing, b: Timing, m: Latencies, r: Retired, a': Timing, b': Timing)
    requires LargerDcacheStep(a, b, m, r, a', b')
    requires DataOutcome(b.dcache, r.effect).result.miss && Credited(a, r, a') ==>
               (Hits(a'.icache, r.look.pc) <==> Hits(b'.icache, r.look.pc))
    requires a'.icache.config == a.icache.config && b'.icache.config == b.icache.config
    ensures var ca, cb := a'.overlap - a.overlap, b'.overlap - b.overlap;
            && ca >= 0 && cb >= 0 && (ca > 0 <==> Credited(a, r, a'))
            && (Credited(a, r, a') && DataOutcome(b.dcache, r.effect).result.miss ==> cb >= CreditFor(false, m))
  {
    hide FetchLaw, DataOutcome, LateStalls, Hits, Window, NoDirtyLine, Wrap, BothPriced;
    CreditSize(a, r, a', m);
    CreditSize(b, r, b', m);
    if Credited(a, r, a') && DataOutcome(b.dcache, r.effect).result.miss {
      LateStallsStay(b, r, m, LateStalls(a, r));
    }
  }

  lemma {:induction false} LateStallsStay(b: Timing, r: Retired, m: Latencies, least: nat)
    requires Window(b, r.pc) && NoDirtyLine(b.icache) && BothPriced(b, m)
    requires DataOutcome(b.dcache, r.effect).result.miss
    requires r.effect.Store?
    requires Wrap(least) != 0 && least <= LateStalls(b, r)
    ensures Wrap(LateStalls(b, r)) != 0
  {
    hide LateStalls, Window, NoDirtyLine, CleanMissPenalty, DirtyMissPenalty, DataOutcome;
    DataStallKind(b.dcache, r.effect);
    LateStallsFit(b, r);
  }

  // ------------------------------------------------------------ whole runs

  /** The run with the larger data cache has fetched no further; and the credits it
      lacks, where it lacks any, are paid for by the misses it saved.  A credit of
      the other run is counted as one for a clean miss. */
  ghost predicate Covered(a: Timing, b: Timing, m: Latencies) {
    && b.fetch.front <= a.fetch.front
    && a.replays * CreditFor(false, m) - b.overlap <=
         (a.dcache.stats.misses - b.dcache.stats.misses) * (m.dcache + 4)
  }

  lemma CoveredStep(a: Timing, b: Timing, m: Latencies, a': Timing, b': Timing)
    requires Covered(a, b, m) && b'.fetch.front <= a'.fetch.front
    requires a'.replays == a.replays + if a'.overlap > a.overlap then 1 else 0
    requires var saved := (a'.dcache.stats.misses - a.dcache.stats.misses)
                          - (b'.dcache.stats.misses - b.dcache.stats.misses);
             var ca, cb := a'.overlap - a.overlap, b'.overlap - b.overlap;
             0 <= saved <= 1 && cb >= 0 && (ca > 0 && saved == 0 ==> cb >= CreditFor(false, m))
    ensures Covered(a', b', m)
  {
    var before, after := a.dcache.stats.misses - b.dcache.stats.misses, a'.dcache.stats.misses - b'.dcache.stats.misses;
    assert CreditFor(false, m) <= m.dcache + 4;
    assert (a.replays + 1) * CreditFor(false, m) == a.replays * CreditFor(false, m) + CreditFor(false, m);
    if after == before + 1 {
      assert after * (m.dcache + 4) == before * (m.dcache + 4) + (m.dcache + 4);
    } else {
      assert after == before;
    }
  }

  lemma {:induction false} RunFetchedTo(s: Setup, rs: seq<Retired>)
    requires ValidStream(s.pc, rs) && Timed(s, rs).Some? && s.icache.enabled && !Halted(rs)
    requires PcAfter(s.pc, rs) % 4 == 0
    ensures FetchedTo(Timed(s, rs).value, Feed(Cold(s.icache), SegmentFetches(s.pc, rs)), SegmentStart(s.pc, rs))
  {
    hide Timed, ValidStream, Feed, SegmentFetches, SegmentStart, Sequential;
    var t := Timed(s, rs).value;
    FetchSide(s, rs);
    SegmentIsBehind(s.pc, rs);
    RunsAreOrderly(s, rs);
    FeedConcat(Cold(s.icache), SegmentFetches(s.pc, rs), Sequential(SegmentStart(s.pc, rs), t.fetch.front));
  }

  /** At equal fronts the two instruction caches hold the same words. */
  lemma {:induction false} SameFrontSameHits(s: Setup, s': Setup, rs: seq<Retired>, addr: word)
    requires s.pc == s'.pc && s.icache == s'.icache && s.icache.enabled && ValidStream(s.pc, rs)
    requires Timed(s, rs).Some? && Timed(s', rs).Some?
    requires Timed(s, rs).value.fetch.front == Timed(s', rs).value.fetch.front
    ensures Hits(Timed(s, rs).value.icache, addr) <==> Hits(Timed(s', rs).value.icache, addr)
  {
    hide Timed, ValidStream, Feed, Fetches;
    FetchSide(s, rs);
    FetchSide(s', rs);
  }

  /** The late fetches of the next instruction, in both runs. */
  lemma {:induction false} LateStallsOfRuns(s: Setup, s': Setup, rs: seq<Retired>)
    requires rs != [] && s.pc == s'.pc && s.icache == s'.icache && s.icache.enabled && ValidStream(s.pc, rs)
    requires Timed(s, rs).Some? && Timed(s', rs).Some? && Timed(s, Init(rs)).Some? && Timed(s', Init(rs)).Some?
    requires var a, b := Timed(s, Init(rs)).value, Timed(s', Init(rs)).value;
             b.fetch.front <= a.fetch.front && Window(a, Last(rs).pc) && Window(b, Last(rs).pc)
    ensures LateStalls(Timed(s, Init(rs)).value, Last(rs)) <= LateStalls(Timed(s', Init(rs)).value, Last(rs))
  {
    hide Timed, Feed, SegmentFetches, SegmentStart, FetchedTo, DecodedAlike, Window, LateStalls;
    NotHaltedBefore(s.pc, rs);
    assert ValidStream(s.pc, Init(rs)) && PcAfter(s.pc, Init(rs)) == Last(rs).pc && Last(rs).pc % 4 == 0;
    RunFetchedTo(s, Init(rs));
    RunFetchedTo(s', Init(rs));
    LateStallsShrink(Timed(s, Init(rs)).value, Timed(s', Init(rs)).value, Last(rs),
                     Feed(Cold(s.icache), SegmentFetches(s.pc, Init(rs))), SegmentStart(s.pc, Init(rs)));
  }

  lemma {:induction false} RunsAreCovered(s: Setup, s': Setup, k: nat, rs: seq<Retired>)
    requires LargerDcache(s, s', k) && Fits(s) && s.icache.enabled && ValidStream(s.pc, rs)
    requires Timed(s, rs).Some? && Timed(s', rs).Some?
    ensures Covered(Timed(s, rs).value, Timed(s', rs).value, LatenciesOf(s))
  {
    if rs == [] {
      CoveredStart(s, s', k);
    } else {
      hide Timed, StepLaw, FetchLaw, Window, ValidStream, Covered, Fits, Priced, LateStalls, DataOutcome, Credited;
      hide NoDirtyLine, Multiplied, CreditFor, BothPriced;
      var a, stepA := LastStep(s, rs);
      var b, stepB := LastStep(s', rs);
      var m, r := LatenciesOf(s), Last(rs);
      RunsAreCovered(s, s', k, Init(rs));
      CoveredFronts(a, b, m);
      LargerFits(s, s', k);
      FittingPrices(s, a);
      FittingPrices(s', b);
      DataPair(s, s', k, Init(rs), r.effect);
      LateStallsOfRuns(s, s', rs);
      assert LargerDcacheStep(a, b, m, r, stepA.next, stepB.next);
      FrontStaysBehind(a, b, m, r, stepA.next, stepB.next);
      CreditedFronts(a, b, m, r, stepA.next, stepB.next);
      if stepA.next.fetch.front == stepB.next.fetch.front && r.look.Target? {
        SameFrontSameHits(s, s', rs, r.look.pc);
      }
      CreditKept(a, b, m, r, stepA.next, stepB.next);
      CreditedMisses(a, r, stepA.next);
      StepMisses(a, r, stepA);
      StepMisses(b, r, stepB);
      OneEpisode(a, r, stepA);
      CoveredStep(a, b, m, stepA.next, stepB.next);
    }
  }

  lemma CoveredStart(s: Setup, s': Setup, k: nat)
    requires LargerDcache(s, s', k)
    ensures Covered(ColdTiming(s.icache, s.dcache, s.pc), ColdTiming(s'.icache, s'.dcache, s'.pc), LatenciesOf(s))
  {
  }

  lemma CoveredFronts(a: Timing, b: Timing, m: Latencies)
    requires Covered(a, b, m)
    ensures b.fetch.front <= a.fetch.front
  {
  }

  lemma LargerFits(s: Setup, s': Setup, k: nat)
    requires LargerDcache(s, s', k) && Fits(s)
    ensures Fits(s') && s'.dcache.enabled && LatenciesOf(s') == LatenciesOf(s)
  {
  }

  /** A store that misses in both runs has fetched equally far in both. */
  lemma {:induction false} CreditedFronts(a: Timing, b: Timing, m: Latencies, r: Retired, a': Timing, b': Timing)
    requires LargerDcacheStep(a, b, m, r, a', b')
    ensures DataOutcome(b.dcache, r.effect).result.miss && Credited(a, r, a') ==>
              a'.fetch.front == b'.fetch.front && r.look.Target?
  {
    hide Feed, Hits, CreditDue, LateStalls, Sequential, DataOutcome, CleanMissPenalty, DirtyMissPenalty, Demand;
    DataStallKind(a.dcache, r.effect);
    DataStallKind(b.dcache, r.effect);
  }

  /** What a run's overlaps hid beyond what they would have hidden of clean
      misses. */
  function DirtyExcess(t: Timing, m: Latencies): int {
    t.overlap - t.replays * CreditFor(false, m)
  }

  /** It is what a dirty credit exceeds a clean one by, for each overlapped store that
      evicted a dirty line. */
  lemma {:induction false} ExcessIsDirty(s: Setup, rs: seq<Retired>)
    requires ValidStream(s.pc, rs) && Timed(s, rs).Some? && Fits(s)
    ensures var m := LatenciesOf(s);
            DirtyExcess(Timed(s, rs).value, m) == DirtyOverlaps(s, rs) * (CreditFor(true, m) - CreditFor(false, m))
    ensures DirtyOverlaps(s, rs) <= Timed(s, rs).value.replays
  {
    hide Timed, ValidStream, CreditFor, DirtyOverlaps;
    OverlapPerEpisode(s, rs);
  }

  lemma ExcessIsSmall(t: Timing, dirty: nat, m: Latencies)
    requires DirtyExcess(t, m) == dirty * (CreditFor(true, m) - CreditFor(false, m)) && dirty <= t.replays
    ensures m.icache < m.dcache ==> DirtyExcess(t, m) == 0
    ensures m.icache == m.dcache ==> 0 <= DirtyExcess(t, m) <= t.replays
  {
    if m.icache == m.dcache {
      assert CreditFor(true, m) - CreditFor(false, m) == 1;
    } else if m.icache < m.dcache {
      assert CreditFor(true, m) - CreditFor(false, m) == 0;
    }
  }

  /** The data-cache cycles one run saves on another, by its events. */
  function Saved(a: Timing, b: Timing, m: Latencies): int {
    (a.dcache.stats.misses - b.dcache.stats.misses) * (m.dcache + 4)
    + (a.dcache.stats.writebacks - b.dcache.stats.writebacks) * (m.dcache + 3)
  }

  lemma SavedSum(da: nat, db: nat, wa: nat, wb: nat, m: nat)
    ensures da * (m + 4) + wa * (m + 3) - (db * (m + 4) + wb * (m + 3)) == (da - db) * (m + 4) + (wa - wb) * (m + 3)
  {
  }

  /** The two cycle counts differ by the cycles saved, less the credits lost. */
  lemma {:induction false} CyclesDiffer(s: Setup, s': Setup, k: nat, rs: seq<Retired>)
    requires LargerDcache(s, s', k) && Fits(s) && ValidStream(s.pc, rs) && Halted(rs)
    requires Timed(s, rs).Some? && Timed(s', rs).Some?
    ensures var a, b := Timed(s, rs).value, Timed(s', rs).value;
            a.pipe.stats.totalCycles - b.pipe.stats.totalCycles ==
            Saved(a, b, LatenciesOf(s)) - (a.overlap - b.overlap)
  {
    hide Timed, ValidStream, PipelineCycles, Fits, Feed;
    var a, b := Timed(s, rs).value, Timed(s', rs).value;
    LargerFits(s, s', k);
    CycleConservation(s, rs);
    CycleConservation(s', rs);
    if s.icache.enabled {
      FetchSideIsDecoupled(s, s', rs);
    } else {
      UncachedStaysCold(s, rs);
      UncachedStaysCold(s', rs);
    }
    SavedSum(a.dcache.stats.misses, b.dcache.stats.misses, a.dcache.stats.writebacks, b.dcache.stats.writebacks,
             s.dcache.memoryLatency);
  }

  /** With a multiple of the data-cache lines a halting program misses no more and
      writes back no more.  It is no slower exactly when the credits it loses are
      not more than the events it saves are worth; and it is slower by at most the
      excess of the smaller cache's overlaps, less the writebacks it saves. */
  lemma {:induction false} LargerDcacheCostsAtMostTheExcess(s: Setup, s': Setup, k: nat, rs: seq<Retired>)
    requires LargerDcache(s, s', k) && Fits(s) && ValidStream(s.pc, rs) && Halted(rs)
    ensures Timed(s, rs).Some? && Timed(s', rs).Some?
    ensures var a, b, m := Timed(s, rs).value, Timed(s', rs).value, LatenciesOf(s);
            && b.dcache.stats.misses <= a.dcache.stats.misses
            && b.dcache.stats.writebacks <= a.dcache.stats.writebacks
            && (b.pipe.stats.totalCycles <= a.pipe.stats.totalCycles <==> a.overlap - b.overlap <= Saved(a, b, m))
            && b.pipe.stats.totalCycles + (a.dcache.stats.writebacks - b.dcache.stats.writebacks) * (m.dcache + 3) <=
                 a.pipe.stats.totalCycles + DirtyExcess(a, m)
  {
    hide Timed, ValidStream, PipelineCycles, Fits, Feed, CreditFor;
    OnlyTheLastStepThrows(s, rs);
    OnlyTheLastStepThrows(s', rs);
    LargerDcacheMovesLess(s, s', k, rs);
    CyclesDiffer(s, s', k, rs);
    if s.icache.enabled {
      RunsAreCovered(s, s', k, rs);
    } else {
      NothingOverlaps(s, rs);
      SavedMisses(Timed(s, rs).value.dcache.stats.misses, Timed(s', rs).value.dcache.stats.misses,
                  s.dcache.memoryLatency);
    }
  }

  lemma SavedMisses(da: nat, db: nat, m: nat)
    requires db <= da
    ensures (da - db) * (m + 4) >= 0
  {
  }

  /** If no overlapped store of the smaller cache's run evicted a dirty line, the
      larger cache is not slower. */
  lemma {:induction false} NoDirtyOverlapNoLoss(s: Setup, s': Setup, k: nat, rs: seq<Retired>)
    requires LargerDcache(s, s', k) && Fits(s) && ValidStream(s.pc, rs) && Halted(rs)
    requires Timed(s, rs).Some? && DirtyOverlaps(s, rs) == 0
    ensures Timed(s', rs).Some?
    ensures Timed(s', rs).value.pipe.stats.totalCycles <= Timed(s, rs).value.pipe.stats.totalCycles
  {
    hide Timed, ValidStream, Fits, DirtyOverlaps, CreditFor, DirtyExcess;
    LargerDcacheCostsAtMostTheExcess(s, s', k, rs);
    ExcessIsDirty(s, rs);
    SavedWritebacks(Timed(s, rs).value.dcache.stats.writebacks, Timed(s', rs).value.dcache.stats.writebacks,
                    s.dcache.memoryLatency);
  }

  lemma SavedWritebacks(wa: nat, wb: nat, m: nat)
    requires wb <= wa
    ensures (wa - wb) * (m + 3) >= 0
  {
  }
}
