/** Runs of one program at two memory latencies, and with unrelated cache
    settings: which events do not depend on what, and how exactly the cycle
    count depends on the latency. */
module LatencySweep {
  import opened Words
  import opened Isa
  import opened CacheModel
  import opened FetchStream
  import opened Coupling
  import opened StepShape
  import opened Streams
  import opened StreamLaws
  import opened CycleLaws
  import opened CreditSizes

  predicate SameButLatency(c: CacheConfig, c': CacheConfig) {
    c' == c.(memoryLatency := c'.memoryLatency)
  }

  /** The same lines after the same misses and writebacks, at two latencies. */
  ghost predicate Alike(a: Cache, b: Cache) {
    && SameButLatency(a.config, b.config) && a.lines == b.lines
    && a.stats.misses == b.stats.misses && a.stats.writebacks == b.stats.writebacks
  }

  lemma AlikeAccess(a: Cache, b: Cache, q: Request)
    requires Alike(a, b)
    ensures Alike(Accessed(a, q).cache, Accessed(b, q).cache)
    ensures var x, y := Accessed(a, q).result, Accessed(b, q).result;
            x.hit == y.hit && x.miss == y.miss && x.writeback == y.writeback
  {
  }

  lemma {:induction false} AlikeFeed(a: Cache, b: Cache, qs: seq<Request>)
    requires Alike(a, b)
    ensures Alike(Feed(a, qs), Feed(b, qs))
  {
    hide Accessed, Alike;
    if qs != [] {
      AlikeFeed(a, b, Init(qs));
      AlikeAccess(Feed(a, Init(qs)), Feed(b, Init(qs)), Last(qs));
    }
  }

  // ------------------------------------------------------------ decoupling

  /** The instruction side of a halted run is a function of the program alone:
      neither the data cache nor any latency changes a line, a miss or, less the
      replays, a request. */
  lemma {:induction false} FetchSideIsDecoupled(s: Setup, s': Setup, rs: seq<Retired>)
    requires s.pc == s'.pc && SameButLatency(s.icache, s'.icache) && s.icache.enabled
    requires ValidStream(s.pc, rs) && Halted(rs)
    ensures Timed(s, rs).Some? && Timed(s', rs).Some?
    ensures Alike(Timed(s, rs).value.icache, Timed(s', rs).value.icache)
    ensures Timed(s, rs).value.icache.stats.misses == Feed(Cold(s.icache), SegmentFetches(s.pc, rs)).stats.misses
  {
    hide Timed, DecodedAlike, Feed;
    OnlyTheLastStepThrows(s, rs);
    OnlyTheLastStepThrows(s', rs);
    FetchSide(s, rs);
    FetchSide(s', rs);
    AlikeFeed(Cold(s.icache), Cold(s'.icache), SegmentFetches(s.pc, rs));
  }

  /** The data side is a function of the program's loads and stores: neither the
      instruction cache nor any latency changes a line, a miss or a writeback. */
  lemma {:induction false} DataSideIsDecoupled(s: Setup, s': Setup, rs: seq<Retired>)
    requires s.pc == s'.pc && SameButLatency(s.dcache, s'.dcache)
    requires ValidStream(s.pc, rs) && Timed(s, rs).Some? && Timed(s', rs).Some?
    ensures Alike(Timed(s, rs).value.dcache, Timed(s', rs).value.dcache)
    ensures Timed(s, rs).value.dcache.stats.misses == Feed(Cold(s.dcache), DataStream(rs)).stats.misses
  {
    hide Timed, DecodedAlike, Feed;
    DataSide(s, rs);
    DataSide(s', rs);
    AlikeFeed(Cold(s.dcache), Cold(s'.dcache), DataStream(rs));
  }

  // ----------------------------------------------------------- the latency

  /** One program, one machine, two pairs of memory latencies. */
  predicate Retimed(s: Setup, s': Setup) {
    && s.pc == s'.pc && SameButLatency(s.icache, s'.icache) && SameButLatency(s.dcache, s'.dcache)
    && Fits(s) && Fits(s')
  }

  /** Both caches in front of one memory. */
  predicate OneMemory(s: Setup) {
    s.icache.memoryLatency == s.dcache.memoryLatency
  }

  lemma AlikeStalls(a: Cache, b: Cache, qs: seq<Request>)
    requires Alike(a, b) && NoDirtyLine(a) && NoDirtyLine(b) && forall i :: 0 <= i < |qs| ==> !qs[i].isWrite
    requires CleanMissPenalty(a.config) > 0 && CleanMissPenalty(b.config) > 0
    ensures Stalls(a, qs) == 0 <==> Stalls(b, qs) == 0
  {
    hide Feed, CleanMissPenalty;
    AlikeFeed(a, b, qs);
    ReadsStayClean(a, qs);
    ReadsStayClean(b, qs);
    var n := Feed(a, qs).stats.misses - a.stats.misses;
    AtLeastOne(n, CleanMissPenalty(a.config));
    AtLeastOne(n, CleanMissPenalty(b.config));
    if n > 0 {
      ScaleBound(1, n, CleanMissPenalty(a.config));
      ScaleBound(1, n, CleanMissPenalty(b.config));
    }
  }

  /** The late fetches of a step stall at both latencies or at neither, and the
      32-bit sums do not hide it. */
  lemma {:induction false} LateAlike(a: Timing, b: Timing, r: Retired)
    requires Window(a, r.pc) && Window(b, r.pc) && a.fetch.front == b.fetch.front
    requires Alike(a.icache, b.icache) && NoDirtyLine(a.icache) && NoDirtyLine(b.icache)
    requires 0 < 4 * CleanMissPenalty(a.icache.config) < 0x1_0000_0000
    requires 0 < 4 * CleanMissPenalty(b.icache.config) < 0x1_0000_0000
    requires Reach(r, DataStall(a.dcache, r.effect)) == r.pc + 16 == Reach(r, DataStall(b.dcache, r.effect))
    ensures Wrap(LateStalls(a, r)) == 0 <==> Wrap(LateStalls(b, r)) == 0
  {
    hide Feed, CleanMissPenalty, DataStall, Hits, Alike, Window, Sequential, Reach, NoDirtyLine;
    var front := a.fetch.front;
    var own, late := Sequential(front, r.pc + 4), Sequential(Max(front, r.pc + 4), r.pc + 16);
    SequentialReads(front, r.pc + 4);
    SequentialReads(Max(front, r.pc + 4), r.pc + 16);
    AlikeFeed(a.icache, b.icache, own);
    ReadsStayClean(a.icache, own);
    ReadsStayClean(b.icache, own);
    AlikeStalls(Feed(a.icache, own), Feed(b.icache, own), late);
    LateStallsFit(a, r);
    LateStallsFit(b, r);
  }

  lemma {:induction false} LateStallsFit(t: Timing, r: Retired)
    requires Window(t, r.pc) && NoDirtyLine(t.icache)
    requires Reach(r, DataStall(t.dcache, r.effect)) == r.pc + 16
    ensures LateStalls(t, r) <= 4 * CleanMissPenalty(t.icache.config)
  {
    hide Feed, CleanMissPenalty, DataStall, Hits, Reach;
    DemandStallBound(t, r);
    SequentialFrom(t, r, r.pc + 16);
  }

  lemma DataKindAlike(a: Cache, b: Cache, e: Effect)
    requires Alike(a, b)
    ensures var x, y := DataOutcome(a, e).result, DataOutcome(b, e).result;
            x.hit == y.hit && x.miss == y.miss && x.writeback == y.writeback
    ensures DataOutcome(a, e).result.writeback ==> DataOutcome(a, e).result.miss
  {
    if DataRequest(e).Some? {
      AlikeAccess(a, b, DataRequest(e).value);
    }
  }

  /** What one step does to both runs. */
  ghost predicate RetimedStep(a: Timing, b: Timing, m: Latencies, n: Latencies, r: Retired, a': Timing, b': Timing) {
    && Window(a, r.pc) && Window(b, r.pc) && a.fetch.front == b.fetch.front
    && FetchLaw(a, r, a') && FetchLaw(b, r, b')
    && Alike(a.icache, b.icache) && Alike(a.dcache, b.dcache)
    && NoDirtyLine(a.icache) && NoDirtyLine(b.icache)
    && BothPriced(a, m) && BothPriced(b, n)
  }

  lemma {:induction false} PairFetchesAlike(a: Timing, b: Timing, m: Latencies, n: Latencies, r: Retired, a': Timing,
                                            b': Timing)
    requires RetimedStep(a, b, m, n, r, a', b')
    ensures (DataStall(a.dcache, r.effect) == 0) == (DataStall(b.dcache, r.effect) == 0)
    ensures a'.fetch.front == b'.fetch.front && Alike(a'.icache, b'.icache)
  {
    hide Feed, Hits, CreditDue, LateStalls, Sequential, DataOutcome;
    DataStallKind(a.dcache, r.effect);
    DataStallKind(b.dcache, r.effect);
    DataKindAlike(a.dcache, b.dcache, r.effect);
    AlikeFeed(a.icache, b.icache, Demand(a, r));
  }

  /** A credit is granted at both pairs of latencies or at neither, for the same
      kind of miss. */
  lemma {:induction false} CreditsAreAlike(a: Timing, b: Timing, m: Latencies, n: Latencies, r: Retired, a': Timing,
                                           b': Timing)
    requires RetimedStep(a, b, m, n, r, a', b')
    ensures Credited(a, r, a') <==> Credited(b, r, b')
    ensures var dirty := DataOutcome(a.dcache, r.effect).result.writeback;
            && a'.overlap - a.overlap == (if Credited(a, r, a') then CreditFor(dirty, m) else 0)
            && b'.overlap - b.overlap == (if Credited(a, r, a') then CreditFor(dirty, n) else 0)
  {
    hide Feed, Hits, LateStalls, Sequential, CleanMissPenalty, DirtyMissPenalty, Accessed, Demand, HoldReplays;
    hide CreditFor, CreditDue, DataOutcome, Wrap;
    PairFetchesAlike(a, b, m, n, r, a', b');
    CreditSize(a, r, a', m);
    CreditSize(b, r, b', n);
    DataStallKind(a.dcache, r.effect);
    DataStallKind(b.dcache, r.effect);
    DataKindAlike(a.dcache, b.dcache, r.effect);
    if r.effect.Store? && DataOutcome(a.dcache, r.effect).result.miss {
      LateAlike(a, b, r);
      if r.look.Target? {
        HitsAlike(a'.icache, b'.icache, r.look.pc);
      }
    }
  }

  /** At one latency for both caches, a credit hides three cycles and the latency
      of a clean miss, or four and the latency of a dirty one. */
  lemma {:induction false} CreditIsAffine(a: Timing, b: Timing, m: Latencies, n: Latencies, r: Retired, a': Timing,
                                          b': Timing)
    requires RetimedStep(a, b, m, n, r, a', b') && m.icache == m.dcache && n.icache == n.dcache
    ensures var x, y := a'.overlap - a.overlap, b'.overlap - b.overlap;
            && (x > 0 <==> y > 0)
            && y - x == if x > 0 then n.icache - m.icache else 0
  {
    hide RetimedStep, Credited;
    CreditsAreAlike(a, b, m, n, r, a', b');
  }

  lemma HitsAlike(a: Cache, b: Cache, addr: word)
    requires Alike(a, b)
    ensures Hits(a, addr) == Hits(b, addr)
  {
  }

  // ------------------------------------------------------------ whole runs

  /** Where two retimed runs stand: the same fetches and the same overlaps. */
  ghost predicate Swept(s: Setup, a: Timing, b: Timing) {
    && (s.icache.enabled ==> a.fetch.front == b.fetch.front)
    && Alike(a.icache, b.icache) && a.replays == b.replays
  }

  lemma SweptStart(s: Setup, s': Setup)
    requires Retimed(s, s')
    ensures Swept(s, ColdTiming(s.icache, s.dcache, s.pc), ColdTiming(s'.icache, s'.dcache, s'.pc))
  {
  }

  /** The last step of two retimed runs. */
  lemma {:induction false} RetimedLastStep(s: Setup, s': Setup, rs: seq<Retired>)
    returns (a: Timing, stepA: TimedStep, b: Timing, stepB: TimedStep)
    requires rs != [] && Retimed(s, s') && s.icache.enabled && s.dcache.enabled
    requires ValidStream(s.pc, rs) && Timed(s, rs).Some? && Timed(s', rs).Some?
    requires Timed(s, Init(rs)).Some? && Timed(s', Init(rs)).Some?
    requires Swept(s, Timed(s, Init(rs)).value, Timed(s', Init(rs)).value)
    ensures ValidStream(s.pc, Init(rs))
    ensures Timed(s, Init(rs)) == Some(a) && Timed(s, rs) == Some(stepA.next) && StepLaw(a, Last(rs), stepA)
    ensures Timed(s', Init(rs)) == Some(b) && Timed(s', rs) == Some(stepB.next) && StepLaw(b, Last(rs), stepB)
    ensures RetimedStep(a, b, LatenciesOf(s), LatenciesOf(s'), Last(rs), stepA.next, stepB.next)
  {
    hide TimeStep, Timed, ValidStream, FetchLaw, StepLaw, Window, BothPriced, Alike, Fits, NoDirtyLine;
    a, stepA := LastStep(s, rs);
    b, stepB := LastStep(s', rs);
    DataSideIsDecoupled(s, s', Init(rs));
    FittingPrices(s, a);
    FittingPrices(s', b);
  }

  /** Two retimed runs fetch the same words and overlap the same stores, whatever
      the latencies are. */
  lemma {:induction false} RunsAreSwept(s: Setup, s': Setup, rs: seq<Retired>)
    requires Retimed(s, s') && ValidStream(s.pc, rs) && Timed(s, rs).Some? && Timed(s', rs).Some?
    ensures Swept(s, Timed(s, rs).value, Timed(s', rs).value)
  {
    hide TimeStep, DecodedAlike, FetchLaw, StepLaw, Window, Priced, Alike, Fits, RetimedStep, CreditFor, Credited;
    if rs == [] {
      SweptStart(s, s');
    } else {
      RunsAreSwept(s, s', Init(rs));
      if s.icache.enabled && s.dcache.enabled {
        var a, stepA, b, stepB := RetimedLastStep(s, s', rs);
        PairFetchesAlike(a, b, LatenciesOf(s), LatenciesOf(s'), Last(rs), stepA.next, stepB.next);
        CreditsAreAlike(a, b, LatenciesOf(s), LatenciesOf(s'), Last(rs), stepA.next, stepB.next);
        OneEpisode(a, Last(rs), stepA);
        OneEpisode(b, Last(rs), stepB);
      } else {
        var a, stepA := LastStep(s, rs);
        var b, stepB := LastStep(s', rs);
        NothingOverlaps(s, rs);
        NothingOverlaps(s', rs);
        if s.icache.enabled {
          UncachedDataPair(a, b, Last(rs), stepA, stepB);
        }
      }
    }
  }

  /** And so the last step of any two retimed runs is such a step. */
  lemma {:induction false} SweptLastStep(s: Setup, s': Setup, rs: seq<Retired>)
    returns (a: Timing, stepA: TimedStep, b: Timing, stepB: TimedStep)
    requires rs != [] && Retimed(s, s') && s.icache.enabled && s.dcache.enabled
    requires ValidStream(s.pc, rs) && Timed(s, rs).Some? && Timed(s', rs).Some?
    ensures ValidStream(s.pc, Init(rs)) && a.replays == b.replays
    ensures Timed(s, Init(rs)) == Some(a) && Timed(s, rs) == Some(stepA.next) && StepLaw(a, Last(rs), stepA)
    ensures Timed(s', Init(rs)) == Some(b) && Timed(s', rs) == Some(stepB.next) && StepLaw(b, Last(rs), stepB)
    ensures RetimedStep(a, b, LatenciesOf(s), LatenciesOf(s'), Last(rs), stepA.next, stepB.next)
  {
    hide TimeStep, Timed, ValidStream, FetchLaw, StepLaw, Window, Alike, Retimed, RetimedStep;
    NotRetimed(s, s');
    a, stepA := LastStep(s, rs);
    b, stepB := LastStep(s', rs);
    RunsAreSwept(s, s', Init(rs));
    a, stepA, b, stepB := RetimedLastStep(s, s', rs);
  }

  /** What the latencies leave alone. */
  lemma NotRetimed(s: Setup, s': Setup)
    requires Retimed(s, s')
    ensures s.pc == s'.pc && s.icache.enabled == s'.icache.enabled && s.dcache.enabled == s'.dcache.enabled
  {
  }

  /** With the data cache off nothing stalls on data and nothing overlaps. */
  lemma {:induction false} UncachedDataPair(a: Timing, b: Timing, r: Retired, stepA: TimedStep, stepB: TimedStep)
    requires StepLaw(a, r, stepA) && StepLaw(b, r, stepB) && FetchLaw(a, r, stepA.next) && FetchLaw(b, r, stepB.next)
    requires !a.dcache.config.enabled && !b.dcache.config.enabled
    requires a.fetch.front == b.fetch.front && Alike(a.icache, b.icache)
    ensures stepA.next.fetch.front == stepB.next.fetch.front && Alike(stepA.next.icache, stepB.next.icache)
    ensures stepA.next.overlap == a.overlap && stepB.next.overlap == b.overlap
    ensures stepA.next.replays == a.replays && stepB.next.replays == b.replays
  {
    hide Feed, Hits, LateStalls, Sequential, CleanMissPenalty, DirtyMissPenalty;
    NoCreditWithoutDcache(a, r, stepA);
    NoCreditWithoutDcache(b, r, stepB);
    AlikeFeed(a.icache, b.icache, Demand(a, r));
  }

  lemma OneMoreEpisode(m: int, n: int, k: nat)
    ensures (n - m) * (k + 1) == (n - m) * k + (n - m)
  {
  }

  /** At one latency for both caches the overlapped cycles of the two runs differ by
      the latencies' difference for each overlap. */
  lemma {:induction false} OverlapIsAffine(s: Setup, s': Setup, rs: seq<Retired>)
    requires Retimed(s, s') && OneMemory(s) && OneMemory(s')
    requires ValidStream(s.pc, rs) && Timed(s, rs).Some? && Timed(s', rs).Some?
    ensures var a, b := Timed(s, rs).value, Timed(s', rs).value;
            b.overlap - a.overlap == (s'.icache.memoryLatency - s.icache.memoryLatency) * a.replays
  {
    hide Timed, ValidStream, StepLaw, RetimedStep, Retimed;
    NotRetimed(s, s');
    if rs == [] || !(s.icache.enabled && s.dcache.enabled) {
      NothingOverlaps(s, rs);
      NothingOverlaps(s', rs);
    } else {
      var a, stepA, b, stepB := SweptLastStep(s, s', rs);
      OverlapIsAffine(s, s', Init(rs));
      OneEpisode(a, Last(rs), stepA);
      CreditIsAffine(a, b, LatenciesOf(s), LatenciesOf(s'), Last(rs), stepA.next, stepB.next);
      OneMoreEpisode(s.icache.memoryLatency, s'.icache.memoryLatency, a.replays);
    }
  }

  /** The number of memory round trips a run waits for in full: every miss and
      every writeback, less the overlapped refills. */
  function RoundTrips(t: Timing): int {
    t.icache.stats.misses + t.dcache.stats.misses + t.dcache.stats.writebacks - t.replays
  }

  lemma AffineSum(i: nat, d: nat, w: nat, r: nat, m: int, n: int)
    ensures (i * (n + 4) + d * (n + 4) + w * (n + 3)) - (i * (m + 4) + d * (m + 4) + w * (m + 3)) - (n - m) * r ==
            (n - m) * (i + d + w - r)
  {
  }

  /** Two runs that differ only in the memory latency, one for both caches, make
      the same misses, writebacks and overlaps, and their cycle counts differ by the
      latency difference for each round trip: the count is affine in the latency. */
  lemma {:induction false} CyclesAreAffineInLatency(s: Setup, s': Setup, rs: seq<Retired>)
    requires Retimed(s, s') && OneMemory(s) && OneMemory(s') && ValidStream(s.pc, rs) && rs != []
    requires Timed(s, rs).Some? && Timed(s', rs).Some?
    ensures var a, b := Timed(s, rs).value, Timed(s', rs).value;
            && b.icache.stats.misses == a.icache.stats.misses && b.dcache.stats.misses == a.dcache.stats.misses
            && b.dcache.stats.writebacks == a.dcache.stats.writebacks && b.replays == a.replays
            && b.pipe.stats.totalCycles - a.pipe.stats.totalCycles ==
                 (s'.icache.memoryLatency - s.icache.memoryLatency) * RoundTrips(a)
  {
    hide Timed, ValidStream, Fits, PipelineCycles, Feed, DataStream;
    RunsAreSwept(s, s', rs);
    OverlapIsAffine(s, s', rs);
    DataSideIsDecoupled(s, s', rs);
    CycleConservation(s, rs);
    CycleConservation(s', rs);
    var a := Timed(s, rs).value;
    AffineSum(a.icache.stats.misses, a.dcache.stats.misses, a.dcache.stats.writebacks, a.replays,
              s.icache.memoryLatency, s'.icache.memoryLatency);
  }

  // ------------------------------------------------------- slower memories

  /** Neither latency is smaller. */
  predicate NoFaster(m: Latencies, n: Latencies) {
    m.icache <= n.icache && m.dcache <= n.dcache
  }

  /** What the overlaps hide more at the longer latencies, the misses and writebacks
      have already cost more. */
  ghost predicate Repaid(a: Timing, b: Timing, m: Latencies, n: Latencies) {
    b.overlap - a.overlap <= a.icache.stats.misses * (n.icache - m.icache)
                             + (a.dcache.stats.misses + a.dcache.stats.writebacks) * (n.dcache - m.dcache)
  }

  /** A step's fetches only add misses, and a credited step's late fetches add one. */
  lemma {:induction false} CreditNeedsFetchMiss(t: Timing, r: Retired, t': Timing, m: Latencies)
    requires Window(t, r.pc) && NoDirtyLine(t.icache) && FetchLaw(t, r, t') && BothPriced(t, m)
    ensures t'.icache.stats.misses >= t.icache.stats.misses
    ensures Credited(t, r, t') ==> t'.icache.stats.misses >= t.icache.stats.misses + 1
  {
    hide Feed, Hits, CreditDue, DataOutcome, CleanMissPenalty, DirtyMissPenalty, NoDirtyLine, Sequential, LateStalls;
    SequentialReads(t.fetch.front, Reach(r, DataStall(t.dcache, r.effect)));
    ReadsStayClean(t.icache, Demand(t, r));
    if Credited(t, r, t') {
      CreditedReach(t, r, t', m);
      LateStallsAreDemanded(t, r);
    }
  }

  lemma {:induction false} FirstNeedsFetchMiss(a: Timing, b: Timing, m: Latencies, n: Latencies, r: Retired, a': Timing,
                                               b': Timing)
    requires RetimedStep(a, b, m, n, r, a', b')
    ensures a'.icache.stats.misses >= a.icache.stats.misses + if Credited(a, r, a') then 1 else 0
  {
    hide Window, FetchLaw, BothPriced, Credited, NoDirtyLine;
    CreditNeedsFetchMiss(a, r, a', m);
  }

  lemma {:induction false} CreditedReach(t: Timing, r: Retired, t': Timing, m: Latencies)
    requires Credited(t, r, t') && BothPriced(t, m)
    ensures Reach(r, DataStall(t.dcache, r.effect)) == r.pc + 16 && LateStalls(t, r) != 0
  {
    hide DataOutcome, CleanMissPenalty, DirtyMissPenalty, LateStalls, Hits;
    DataStallKind(t.dcache, r.effect);
  }

  lemma {:induction false} LateStallsAreDemanded(t: Timing, r: Retired)
    requires Window(t, r.pc) && Reach(r, DataStall(t.dcache, r.effect)) == r.pc + 16
    ensures LateStalls(t, r) <= Stalls(t.icache, Demand(t, r))
  {
    hide Feed, Hits, DataStall, Sequential, Reach;
    SequentialFrom(t, r, r.pc + 16);
  }

  lemma RepaidStep(a: Timing, b: Timing, m: Latencies, n: Latencies, a': Timing, b': Timing, credited: bool,
                   dirty: bool)
    requires Repaid(a, b, m, n) && NoFaster(m, n)
    requires a'.overlap - a.overlap == (if credited then CreditFor(dirty, m) else 0)
    requires b'.overlap - b.overlap == (if credited then CreditFor(dirty, n) else 0)
    requires a'.icache.stats.misses >= a.icache.stats.misses + if credited then 1 else 0
    requires a'.dcache.stats.misses >= a.dcache.stats.misses + if credited then 1 else 0
    requires a'.dcache.stats.writebacks >= a.dcache.stats.writebacks + if credited && dirty then 1 else 0
    ensures Repaid(a', b', m, n)
  {
    var p, q, one := n.icache - m.icache, n.dcache - m.dcache, if credited then 1 else 0;
    var more := one + if credited && dirty then 1 else 0;
    CreditGrowth(dirty, m, n);
    hide CreditFor;
    GrowsBy(a.icache.stats.misses, a'.icache.stats.misses, one, p);
    GrowsBy(a.dcache.stats.misses + a.dcache.stats.writebacks, a'.dcache.stats.misses + a'.dcache.stats.writebacks,
            more, q);
  }

  lemma CreditGrowth(dirty: bool, m: Latencies, n: Latencies)
    requires NoFaster(m, n)
    ensures CreditFor(dirty, n) - CreditFor(dirty, m) <=
            (n.icache - m.icache) + (if dirty then 2 else 1) * (n.dcache - m.dcache)
  {
  }

  lemma GrowsBy(x: nat, x': nat, more: nat, price: int)
    requires x' >= x + more && price >= 0
    ensures x' * price >= x * price + more * price
  {
    assert x' * price == x * price + more * price + (x' - x - more) * price;
    assert (x' - x - more) * price >= 0;
  }

  lemma {:induction false} OverlapIsRepaid(s: Setup, s': Setup, rs: seq<Retired>)
    requires Retimed(s, s') && NoFaster(LatenciesOf(s), LatenciesOf(s'))
    requires ValidStream(s.pc, rs) && Timed(s, rs).Some? && Timed(s', rs).Some?
    ensures Repaid(Timed(s, rs).value, Timed(s', rs).value, LatenciesOf(s), LatenciesOf(s'))
  {
    hide Timed, StepLaw, RetimedStep, Retimed, CreditFor, Credited, Repaid, DataOutcome, ValidStream;
    var m, n := LatenciesOf(s), LatenciesOf(s');
    NotRetimed(s, s');
    if rs == [] || !(s.icache.enabled && s.dcache.enabled) {
      NothingOverlaps(s, rs);
      NothingOverlaps(s', rs);
      NothingToRepay(Timed(s, rs).value, Timed(s', rs).value, m, n);
    } else {
      var a, stepA, b, stepB := SweptLastStep(s, s', rs);
      var r := Last(rs);
      OverlapIsRepaid(s, s', Init(rs));
      CreditsAreAlike(a, b, m, n, r, stepA.next, stepB.next);
      FirstNeedsFetchMiss(a, b, m, n, r, stepA.next, stepB.next);
      StepMisses(a, r, stepA);
      CreditedMisses(a, r, stepA.next);
      RepaidStep(a, b, m, n, stepA.next, stepB.next, Credited(a, r, stepA.next),
                 DataOutcome(a.dcache, r.effect).result.writeback);
    }
  }

  lemma NothingToRepay(a: Timing, b: Timing, m: Latencies, n: Latencies)
    requires a.overlap == 0 == b.overlap && NoFaster(m, n)
    ensures Repaid(a, b, m, n)
  {
    ScaleBound(0, a.icache.stats.misses, n.icache - m.icache);
    ScaleBound(0, a.dcache.stats.misses + a.dcache.stats.writebacks, n.dcache - m.dcache);
  }

  lemma SlowerSum(i: nat, d: nat, w: nat, m: Latencies, n: Latencies)
    ensures i * (n.icache + 4) + d * (n.dcache + 4) + w * (n.dcache + 3) ==
            i * (m.icache + 4) + d * (m.dcache + 4) + w * (m.dcache + 3)
            + i * (n.icache - m.icache) + (d + w) * (n.dcache - m.dcache)
  {
  }

  /** A slower memory behind either cache, or behind both, never makes a program
      finish earlier. */
  lemma {:induction false} SlowerMemoryIsNeverFaster(s: Setup, s': Setup, rs: seq<Retired>)
    requires Retimed(s, s') && NoFaster(LatenciesOf(s), LatenciesOf(s'))
    requires ValidStream(s.pc, rs) && rs != [] && Timed(s, rs).Some? && Timed(s', rs).Some?
    ensures Timed(s, rs).value.pipe.stats.totalCycles <= Timed(s', rs).value.pipe.stats.totalCycles
  {
    hide Timed, ValidStream, Fits, PipelineCycles, Feed, DataStream;
    RunsAreSwept(s, s', rs);
    DataSideIsDecoupled(s, s', rs);
    OverlapIsRepaid(s, s', rs);
    CycleConservation(s, rs);
    CycleConservation(s', rs);
    var a := Timed(s, rs).value;
    SlowerSum(a.icache.stats.misses, a.dcache.stats.misses, a.dcache.stats.writebacks, LatenciesOf(s), LatenciesOf(s'));
  }
}
