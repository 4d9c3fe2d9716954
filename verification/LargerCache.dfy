/** Two runs of one program, the second with a multiple of the instruction-cache
    lines: the larger cache is never slower at the end, although it may be
    behind for a while when it loses an overlap credit before it wins the miss
    that pays for it. */
module LargerCache {
  import opened Words
  import opened Isa
  import opened CacheModel
  import opened CacheHistory
  import opened FetchStream
  import opened FrontEnd
  import opened Coupling
  import opened StepShape
  import opened Streams
  import opened StreamLaws
  import opened CycleLaws

  /** The two instruction caches: one a multiple of the other and, at the
      moment, holding everything the other holds. */
  ghost predicate Dominates(large: Cache, small: Cache, k: nat) {
    Multiplied(small.config, large.config, k) && small.config.enabled
    && Included(small, large) && NoDirtyLine(small) && NoDirtyLine(large)
  }

  ghost predicate AllReads(qs: seq<Request>) {
    forall i :: 0 <= i < |qs| ==> !qs[i].isWrite
  }

  /** On one stream of fetches the larger cache stalls no longer, still dominates
      afterwards, and if only the smaller one stalls then it does so for at
      least a whole refill. */
  lemma LargerStallsLess(small: Cache, large: Cache, k: nat, qs: seq<Request>)
    requires Dominates(large, small, k) && AllReads(qs)
    ensures Dominates(Feed(large, qs), Feed(small, qs), k)
    ensures Stalls(large, qs) <= Stalls(small, qs)
    ensures Stalls(small, qs) != 0 ==> Stalls(small, qs) >= CleanMissPenalty(small.config)
  {
    hide Feed, Included, CleanMissPenalty;
    InclusionOverStream(small, large, k, qs);
    ReadsStayClean(small, qs);
    ReadsStayClean(large, qs);
    assert CleanMissPenalty(small.config) == CleanMissPenalty(large.config) by {
      SamePenalty(small.config, large.config, k);
    }
    ScaleBound(Feed(large, qs).stats.misses - large.stats.misses, Feed(small, qs).stats.misses - small.stats.misses,
               CleanMissPenalty(small.config));
    AtLeastOne(Feed(small, qs).stats.misses - small.stats.misses, CleanMissPenalty(small.config));
  }

  lemma SamePenalty(small: CacheConfig, large: CacheConfig, k: nat)
    requires Multiplied(small, large, k)
    ensures CleanMissPenalty(small) == CleanMissPenalty(large)
  {
  }

  lemma StallsConcat(c: Cache, a: seq<Request>, b: seq<Request>)
    ensures Feed(c, a + b) == Feed(Feed(c, a), b)
    ensures Stalls(c, a + b) == Stalls(c, a) + Stalls(Feed(c, a), b)
  {
    FeedConcat(c, a, b);
  }

  /** A first fetch that only the larger cache holds wins it a whole refill. */
  lemma FirstMissIsPaid(small: Cache, large: Cache, k: nat, q: Request, rest: seq<Request>)
    requires Dominates(large, small, k) && !q.isWrite && AllReads(rest)
    requires !Hits(small, q.addr) && Hits(large, q.addr)
    ensures Stalls(small, [q] + rest) >= Stalls(large, [q] + rest) + CleanMissPenalty(small.config)
  {
    hide Included;
    StallsConcat(small, [q], rest);
    StallsConcat(large, [q], rest);
    FeedOne(small, [], q);
    FeedOne(large, [], q);
    assert [] + [q] == [q];
    assert Stalls(small, [q]) == CleanMissPenalty(small.config) && Stalls(large, [q]) == 0;
    LargerStallsLess(small, large, k, [q]);
    LargerStallsLess(Feed(small, [q]), Feed(large, [q]), k, rest);
  }

  lemma ResidentInLarger(small: Cache, large: Cache, k: nat, addr: word)
    requires Dominates(large, small, k)
    ensures Hits(small, addr) ==> Hits(large, addr)
  {
    assert Hits(small, addr) == Resident(small, WordOf(small.config, addr));
    assert Hits(large, addr) == Resident(large, WordOf(large.config, addr));
  }

  // ------------------------------------------------------------- the runs

  predicate LargerIcache(s: Setup, s': Setup, k: nat) {
    Multiplied(s.icache, s'.icache, k) && s.icache.enabled && s' == s.(icache := s'.icache)
  }

  /** The two runs, side by side. */
  ghost predicate Paired(a: Timing, b: Timing, k: nat) {
    Dominates(b.icache, a.icache, k) && a.fetch.front == b.fetch.front && a.dcache.config == b.dcache.config
  }

  /** How many cycles of waiting the larger cache is ahead by. */
  function Lead(a: Timing, b: Timing): int {
    (a.icache.stats.stallCycles - a.overlap) - (b.icache.stats.stallCycles - b.overlap)
  }

  /** The larger cache has just lost a credit for a redirect target that it
      holds and the smaller cache does not; the fetch of that target is due, with
      nothing to be fetched before it. */
  ghost predicate PaymentDue(r: Retired, a: Timing, b: Timing) {
    || (r.effect.Store? && r.look.Target? && a.fetch.front == r.pc + 16
        && !Hits(a.icache, r.look.pc) && Hits(b.icache, r.look.pc))
    || (Redirects(r.effect) && a.fetch.front == r.effect.target
        && !Hits(a.icache, r.effect.target) && Hits(b.icache, r.effect.target))
  }

  /** The lead is never negative but for one refill, and then a payment is due. */
  ghost predicate Solvent(rs: seq<Retired>, a: Timing, b: Timing) {
    || Lead(a, b) >= 0
    || (rs != [] && PaymentDue(Last(rs), a, b) && Lead(a, b) + CleanMissPenalty(a.icache.config) >= 0)
  }

  /** What one step does to both runs. */
  ghost predicate LargerIcacheStep(a: Timing, b: Timing, k: nat, r: Retired, a': Timing, b': Timing) {
    && Paired(a, b, k) && Window(a, r.pc) && Window(b, r.pc)
    && FetchLaw(a, r, a') && FetchLaw(b, r, b')
    && DataStall(a.dcache, r.effect) == DataStall(b.dcache, r.effect)
    && 4 * CleanMissPenalty(a.icache.config) < 0x1_0000_0000
  }

  lemma {:induction false} PairStays(a: Timing, b: Timing, k: nat, r: Retired, a': Timing, b': Timing)
    requires LargerIcacheStep(a, b, k, r, a', b') && a'.dcache.config == b'.dcache.config
    ensures Paired(a', b', k) && a'.icache.config == a.icache.config
    ensures Stalls(b.icache, Demand(b, r)) <= Stalls(a.icache, Demand(a, r))
    ensures a'.icache.stats.stallCycles == a.icache.stats.stallCycles + Stalls(a.icache, Demand(a, r))
    ensures b'.icache.stats.stallCycles == b.icache.stats.stallCycles + Stalls(b.icache, Demand(b, r))
  {
    hide Feed, CreditDue, Accessed, Hits, Window, Sequential, DataStall, Included, LateStalls;
    SequentialReads(a.fetch.front, Reach(r, DataStall(a.dcache, r.effect)));
    LargerStallsLess(a.icache, b.icache, k, Demand(a, r));
    DominatesWithHits(Feed(a.icache, Demand(a, r)), Feed(b.icache, Demand(b, r)), k, HoldReplays(a, r),
                      HoldReplays(b, r));
  }

  lemma DominatesWithHits(small: Cache, large: Cache, k: nat, m: nat, n: nat)
    requires Dominates(large, small, k)
    ensures Dominates(WithHits(large, n), WithHits(small, m), k)
  {
    assert forall w: nat :: Resident(WithHits(small, m), w) == Resident(small, w);
    assert forall w: nat :: Resident(WithHits(large, n), w) == Resident(large, w);
  }

  /** The instruction's own word, if it is still to be fetched. */
  function Own(t: Timing, r: Retired): seq<Request> {
    Sequential(t.fetch.front, r.pc + 4)
  }

  /** The stall cycles the larger cache wins on a stream. */
  function Won(a: Cache, b: Cache, qs: seq<Request>): int {
    Stalls(a, qs) - Stalls(b, qs)
  }

  /** The win on a step's demand is the win on its own word and the win on the
      words after that. */
  lemma {:induction false} WinsAdd(a: Timing, b: Timing, k: nat, r: Retired, a': Timing, b': Timing)
    requires LargerIcacheStep(a, b, k, r, a', b')
    ensures Demand(a, r) == Demand(b, r)
    ensures var won, own := Won(a.icache, b.icache, Demand(a, r)), Won(a.icache, b.icache, Own(a, r));
            && 0 <= own <= won
            && (Reach(r, DataStall(a.dcache, r.effect)) == r.pc + 16 ==>
                && won == own + (LateStalls(a, r) - LateStalls(b, r))
                && LateStalls(b, r) <= LateStalls(a, r) < 0x1_0000_0000
                && (LateStalls(a, r) != 0 ==> LateStalls(a, r) >= CleanMissPenalty(a.icache.config)))
  {
    hide Feed, CreditDue, Accessed, Hits, Included, CleanMissPenalty, DataStall, FetchLaw;
    var front, end := a.fetch.front, Reach(r, DataStall(a.dcache, r.effect));
    var own, late := Own(a, r), Sequential(Max(front, r.pc + 4), end);
    SequentialReads(front, r.pc + 4);
    SequentialReads(Max(front, r.pc + 4), end);
    LargerStallsLess(a.icache, b.icache, k, own);
    LargerStallsLess(Feed(a.icache, own), Feed(b.icache, own), k, late);
    if end > r.pc + 4 {
      SequentialFrom(a, r, end);
      SequentialFrom(b, r, end);
    }
    DemandStallBound(a, r);
  }

  /** A lost credit is either made up by the late fetches of the same step or
      leaves a payment due; the larger cache never gains a credit the smaller one
      lacks. */
  lemma {:induction false} CreditPair(a: Timing, b: Timing, k: nat, r: Retired, a': Timing, b': Timing)
    requires LargerIcacheStep(a, b, k, r, a', b') && Paired(a', b', k)
    ensures var ca, cb := a'.overlap - a.overlap, b'.overlap - b.overlap;
            var won, own := Won(a.icache, b.icache, Demand(a, r)), Won(a.icache, b.icache, Own(a, r));
            || ca + own <= won + cb
            || (PaymentDue(r, a', b') && ca <= CleanMissPenalty(a.icache.config) + cb)
  {
    hide Feed, Accessed, Hits, Included, DataStall, CleanMissPenalty, LateStalls;
    WinsAdd(a, b, k, r, a', b');
    if a'.overlap > a.overlap {
      ResidentInLarger(a'.icache, b'.icache, k, r.look.pc);
      SamePenalty(a.icache.config, b.icache.config, k);
    }
  }

  /** Between the store that lost a credit and the fetch that pays for it there
      is only the redirect itself, which fetches nothing. */
  lemma {:induction false} PaymentStaysDue(last: Retired, a: Timing, b: Timing, k: nat, r: Retired, a': Timing,
                                           b': Timing)
    requires LargerIcacheStep(a, b, k, r, a', b') && Follows(last, r)
    requires PaymentDue(last, a, b) && last.effect.Store?
    ensures PaymentDue(r, a', b')
    ensures Stalls(a.icache, Demand(a, r)) == 0 == Stalls(b.icache, Demand(b, r))
    ensures a'.overlap == a.overlap && b'.overlap == b.overlap
  {
  }

  /** The first fetch at the redirect target pays a whole refill. */
  lemma {:induction false} PaymentArrives(last: Retired, a: Timing, b: Timing, k: nat, r: Retired, a': Timing,
                                          b': Timing)
    requires LargerIcacheStep(a, b, k, r, a', b') && Follows(last, r)
    requires PaymentDue(last, a, b) && Redirects(last.effect)
    ensures Won(a.icache, b.icache, Own(a, r)) >= CleanMissPenalty(a.icache.config)
  {
    hide Feed, Accessed, Hits, Included, DataStall, CleanMissPenalty, FetchLaw, CreditDue;
    var q := Request(r.pc, false);
    assert Own(a, r) == [q] + [];
    FirstMissIsPaid(a.icache, b.icache, k, q, []);
  }

  lemma {:induction false} SolventStep(rs: seq<Retired>, a: Timing, b: Timing, k: nat, a': Timing, b': Timing)
    requires rs != [] && LargerIcacheStep(a, b, k, Last(rs), a', b') && a'.dcache.config == b'.dcache.config
    requires Init(rs) != [] ==> Follows(Last(Init(rs)), Last(rs))
    requires Solvent(Init(rs), a, b)
    ensures Paired(a', b', k) && Solvent(rs, a', b')
  {
    hide LargerIcacheStep, Demand, Stalls, Follows, Hits, CleanMissPenalty, Dominates, Own, Redirects;
    var r := Last(rs);
    PairStays(a, b, k, r, a', b');
    WinsAdd(a, b, k, r, a', b');
    CreditPair(a, b, k, r, a', b');
    if Lead(a, b) < 0 {
      var last := Last(Init(rs));
      if last.effect.Store? {
        PaymentStaysDue(last, a, b, k, r, a', b');
      } else {
        PaymentArrives(last, a, b, k, r, a', b');
      }
    }
  }

  // ------------------------------------------------------------ whole runs

  /** The two runs see the same data stalls, whatever their fetches did. */
  lemma {:induction false} SameDataStalls(s: Setup, s': Setup, rs: seq<Retired>, e: Effect)
    requires s.pc == s'.pc && s.dcache == s'.dcache && ValidStream(s.pc, rs)
    requires Timed(s, rs).Some? && Timed(s', rs).Some?
    ensures DataStall(Timed(s, rs).value.dcache, e) == DataStall(Timed(s', rs).value.dcache, e)
    ensures Timed(s, rs).value.dcache.stats.stallCycles == Timed(s', rs).value.dcache.stats.stallCycles
    ensures Timed(s, rs).value.dcache.config == Timed(s', rs).value.dcache.config
  {
    hide Timed, Accessed, Feed, DecodedAlike;
    DataSide(s, rs);
    DataSide(s', rs);
    if DataRequest(e).Some? {
      var fed, q := Feed(Cold(s.dcache), DataStream(rs)), DataRequest(e).value;
      AccessedWithHits(fed, Timed(s, rs).value.replays, q);
      AccessedWithHits(fed, Timed(s', rs).value.replays, q);
    }
  }

  lemma PairedStart(s: Setup, s': Setup, k: nat)
    requires LargerIcache(s, s', k)
    ensures var a, b := ColdTiming(s.icache, s.dcache, s.pc), ColdTiming(s'.icache, s'.dcache, s'.pc);
            Paired(a, b, k) && Solvent([], a, b)
  {
    ColdIsIncluded(s.icache, Cold(s'.icache));
  }

  /** All along the two runs the larger cache is ahead, or behind by less than
      the refill that is about to pay for it. */
  lemma {:induction false} RunsAreSolvent(s: Setup, s': Setup, k: nat, rs: seq<Retired>)
    requires LargerIcache(s, s', k) && Fits(s) && ValidStream(s.pc, rs)
    requires Timed(s, rs).Some? && Timed(s', rs).Some?
    ensures Paired(Timed(s, rs).value, Timed(s', rs).value, k)
    ensures Solvent(rs, Timed(s, rs).value, Timed(s', rs).value)
  {
    hide TimeStep, DecodedAlike, Paired, Solvent, FetchLaw, StepLaw, Window, Follows, DataStall, CleanMissPenalty;
    if rs == [] {
      PairedStart(s, s', k);
    } else {
      var a, stepA := LastStep(s, rs);
      var b, stepB := LastStep(s', rs);
      RunsAreSolvent(s, s', k, Init(rs));
      SameDataStalls(s, s', Init(rs), Last(rs).effect);
      SameDataStalls(s, s', rs, Last(rs).effect);
      PenaltiesFit(s);
      SolventStep(rs, a, b, k, stepA.next, stepB.next);
    }
  }

  lemma {:induction false} LargerIcacheMissesLess(s: Setup, s': Setup, k: nat, rs: seq<Retired>)
    requires LargerIcache(s, s', k) && ValidStream(s.pc, rs) && Halted(rs)
    requires Timed(s, rs).Some? && Timed(s', rs).Some?
    ensures Timed(s', rs).value.icache.stats.misses <= Timed(s, rs).value.icache.stats.misses
  {
    hide Timed, DecodedAlike, Feed, Included;
    FetchSide(s, rs);
    FetchSide(s', rs);
    ColdIsIncluded(s.icache, Cold(s'.icache));
    InclusionOverStream(Cold(s.icache), Cold(s'.icache), k, SegmentFetches(s.pc, rs));
  }

  /** Growing the instruction cache by any factor, all else equal, never makes a
      program that halts take more cycles, nor miss more often. */
  lemma {:induction false} LargerIcacheIsNeverSlower(s: Setup, s': Setup, k: nat, rs: seq<Retired>)
    requires LargerIcache(s, s', k) && Fits(s) && ValidStream(s.pc, rs) && Halted(rs)
    ensures Timed(s, rs).Some? && Timed(s', rs).Some?
    ensures var a, b := Timed(s, rs).value, Timed(s', rs).value;
            && b.pipe.stats.totalCycles <= a.pipe.stats.totalCycles
            && b.icache.stats.misses <= a.icache.stats.misses
  {
    hide Timed, DecodedAlike, Paired, PipelineCycles, Hits, Accessed;
    OnlyTheLastStepThrows(s, rs);
    OnlyTheLastStepThrows(s', rs);
    LargerIcacheMissesLess(s, s', k, rs);
    RunsAreSolvent(s, s', k, rs);
    SameDataStalls(s, s', rs, Last(rs).effect);
    CyclesAreHeld(s, rs);
    CyclesAreHeld(s', rs);
  }
}
