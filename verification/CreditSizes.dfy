/** How large an overlap credit is, when it is granted, and what that makes of the
    overlapped cycles of a run. */
module CreditSizes {
  import opened Words
  import opened Isa
  import opened CacheModel
  import opened FetchStream
  import opened FrontEnd
  import opened PipelineTiming
  import opened Coupling
  import opened StepShape
  import opened Streams
  import opened StreamLaws

  /** The memory latencies behind the two caches. */
  datatype Latencies = Latencies(icache: nat, dcache: nat)

  function LatenciesOf(s: Setup): Latencies {
    Latencies(s.icache.memoryLatency, s.dcache.memoryLatency)
  }

  /** The penalties of a cache are those of latency `n`, without wrapping. */
  predicate Priced(c: CacheConfig, n: nat) {
    CleanMissPenalty(c) == n + 4 && DirtyMissPenalty(c) == 2 * n + 7
  }

  /** Both caches are on and priced, and no step's fetch stalls wrap. */
  predicate BothPriced(t: Timing, m: Latencies) {
    && t.icache.config.enabled && t.dcache.config.enabled
    && Priced(t.icache.config, m.icache) && Priced(t.dcache.config, m.dcache)
    && 4 * (m.icache + 4) < 0x1_0000_0000
  }

  lemma FittingPrices(s: Setup, t: Timing)
    requires Fits(s) && s.icache.enabled && s.dcache.enabled
    requires t.icache.config == s.icache && t.dcache.config == s.dcache
    ensures BothPriced(t, LatenciesOf(s))
  {
  }

  // ---------------------------------------------------------- data accesses

  /** A data access is the same kind of access at both latencies. */
  lemma DataStallKind(d: Cache, e: Effect)
    ensures var x := DataOutcome(d, e).result;
            x.stallCycles == if x.writeback then DirtyMissPenalty(d.config)
                             else if x.miss then CleanMissPenalty(d.config) else 0
  {
  }

  lemma OnlyMissesWriteBack(d: Cache, e: Effect)
    ensures DataOutcome(d, e).result.writeback ==> DataOutcome(d, e).result.miss
  {
  }

  lemma {:induction false} StepMisses(t: Timing, r: Retired, step: TimedStep)
    requires StepLaw(t, r, step)
    ensures step.next.dcache.stats.misses ==
            t.dcache.stats.misses + if DataOutcome(t.dcache, r.effect).result.miss then 1 else 0
    ensures step.next.dcache.stats.writebacks ==
            t.dcache.stats.writebacks + if DataOutcome(t.dcache, r.effect).result.writeback then 1 else 0
  {
    hide Accessed;
    if DataRequest(r.effect).Some? {
      MissCounts(t.dcache, DataRequest(r.effect).value);
    }
  }

  // ------------------------------------------------------------ one credit

  /** A credit hides the tail of the data miss behind the instruction refill: all
      of the shorter of the two. */
  function CreditFor(dirty: bool, m: Latencies): (credit: nat)
    ensures credit > 0
  {
    var tail := if dirty then 2 * m.dcache + 6 else m.dcache + 3;
    if tail < m.icache + 4 then tail else m.icache + 4
  }

  /** Whatever the latencies are, wrapping penalties included, the credit is the most
      that leaves a cycle of the data wait and does not exceed the refill. */
  lemma CreditIsTheMost(icache: CacheConfig, dcache: CacheConfig, stall: word, n: nat)
    ensures n <= OverlapCredit(icache, dcache, stall) <==>
            n == 0 || (icache.enabled && dcache.enabled && n < stall && n <= CleanMissPenalty(icache))
  {
  }

  /** When a credit was granted. */
  predicate Credited(t: Timing, r: Retired, t': Timing) {
    && r.effect.Store? && DataOutcome(t.dcache, r.effect).result.miss
    && Wrap(LateStalls(t, r)) != 0 && r.look.Target? && !Hits(t'.icache, r.look.pc)
  }

  lemma {:induction false} CreditedMisses(t: Timing, r: Retired, t': Timing)
    ensures Credited(t, r, t') ==> DataOutcome(t.dcache, r.effect).result.miss
  {
  }

  /** It is granted exactly then, and for the kind of miss that it was. */
  lemma {:induction false} CreditSize(t: Timing, r: Retired, t': Timing, m: Latencies)
    requires FetchLaw(t, r, t') && BothPriced(t, m) && t'.icache.config == t.icache.config
    ensures t'.overlap - t.overlap ==
            if Credited(t, r, t') then CreditFor(DataOutcome(t.dcache, r.effect).result.writeback, m) else 0
  {
    hide Feed, Sequential, DataOutcome, CleanMissPenalty, DirtyMissPenalty, Demand, LateStalls, Hits, HoldReplays, Wrap;
    DataStallKind(t.dcache, r.effect);
    OnlyMissesWriteBack(t.dcache, r.effect);
  }

  lemma {:induction false} OneEpisode(t: Timing, r: Retired, step: TimedStep)
    requires StepLaw(t, r, step)
    ensures step.next.overlap >= t.overlap
    ensures step.next.replays == t.replays + if step.next.overlap > t.overlap then 1 else 0
  {
    hide DataStall, DataOutcome, WithHits, Retire, AddStalls, Taken, Wrap;
  }

  // ------------------------------------------------------------ whole runs

  /** How many of a run's overlaps were of dirty misses: the steps in which both the
      overlap and the writebacks grew. */
  function DirtyOverlaps(s: Setup, rs: seq<Retired>): nat
    requires Timed(s, rs).Some?
  {
    if rs == [] then 0
    else
      var t, t' := Timed(s, Init(rs)).value, Timed(s, rs).value;
      DirtyOverlaps(s, Init(rs)) +
      if t'.overlap > t.overlap && t'.dcache.stats.writebacks > t.dcache.stats.writebacks then 1 else 0
  }

  /** The overlapped cycles are a clean credit for every overlap and the difference
      to a dirty one for each of `dirty` of them. */
  predicate OverlapsSized(t: Timing, dirty: nat, m: Latencies) {
    dirty <= t.replays
    && t.overlap == t.replays * CreditFor(false, m) + dirty * (CreditFor(true, m) - CreditFor(false, m))
  }

  lemma OneMoreCredit(t: Timing, t': Timing, dirty: nat, m: Latencies, credited: bool, wroteBack: bool)
    requires OverlapsSized(t, dirty, m)
    requires t'.replays == t.replays + if t'.overlap > t.overlap then 1 else 0
    requires t'.overlap - t.overlap == if credited then CreditFor(wroteBack, m) else 0
    ensures OverlapsSized(t', dirty + if credited && wroteBack then 1 else 0, m)
  {
    var clean, more := CreditFor(false, m), CreditFor(true, m) - CreditFor(false, m);
    assert (t.replays + 1) * clean == t.replays * clean + clean;
    assert (dirty + 1) * more == dirty * more + more;
  }

  lemma OverlapAtOneLatency(t: Timing, dirty: nat, l: nat)
    requires OverlapsSized(t, dirty, Latencies(l, l))
    ensures t.replays * (l + 3) <= t.overlap <= t.replays * (l + 4)
  {
    assert CreditFor(false, Latencies(l, l)) == l + 3 && CreditFor(true, Latencies(l, l)) == l + 4;
    assert t.replays * (l + 4) == t.replays * (l + 3) + t.replays;
  }

  lemma OverlapsNothing(t: Timing, m: Latencies)
    requires t.overlap == 0 == t.replays
    ensures OverlapsSized(t, 0, m)
  {
  }

  /** At the start, and with one of the caches off, nothing overlaps. */
  lemma {:induction false} NothingOverlaps(s: Setup, rs: seq<Retired>)
    requires ValidStream(s.pc, rs) && Timed(s, rs).Some? && (rs == [] || !(s.icache.enabled && s.dcache.enabled))
    ensures Timed(s, rs).value.overlap == 0 == Timed(s, rs).value.replays && DirtyOverlaps(s, rs) == 0
  {
    if rs != [] {
      hide TimeStep, StepLaw, FetchLaw, ValidStream, Window;
      var t, step := LastStep(s, rs);
      NothingOverlaps(s, Init(rs));
      OneEpisode(t, Last(rs), step);
      if !s.dcache.enabled {
        NoCreditWithoutDcache(t, Last(rs), step);
      }
    }
  }

  /** The last step of a run with both caches on: the credit it granted, and what it
      added to the counters of the data side. */
  lemma {:induction false} CreditedLastStep(s: Setup, rs: seq<Retired>) returns (t: Timing, step: TimedStep)
    requires rs != [] && ValidStream(s.pc, rs) && Timed(s, rs).Some? && Fits(s) && s.icache.enabled && s.dcache.enabled
    ensures ValidStream(s.pc, Init(rs)) && Timed(s, Init(rs)) == Some(t) && Timed(s, rs) == Some(step.next)
    ensures StepLaw(t, Last(rs), step)
    ensures var dirty := DataOutcome(t.dcache, Last(rs).effect).result.writeback;
            && step.next.overlap - t.overlap ==
                 (if Credited(t, Last(rs), step.next) then CreditFor(dirty, LatenciesOf(s)) else 0)
            && step.next.replays == t.replays + (if step.next.overlap > t.overlap then 1 else 0)
            && step.next.dcache.stats.writebacks == t.dcache.stats.writebacks + (if dirty then 1 else 0)
  {
    hide Timed, ValidStream, Window, StepLaw, FetchLaw, Fits, Priced, DataOutcome, NoDirtyLine, CreditFor, Credited;
    hide BothPriced;
    t, step := LastStep(s, rs);
    RunsAreOrderly(s, rs);
    OneEpisode(t, Last(rs), step);
    FittingPrices(s, t);
    CreditSize(t, Last(rs), step.next, LatenciesOf(s));
    StepMisses(t, Last(rs), step);
  }

  /** What a run's overlaps hid is exactly so many clean and so many dirty credits.
      At one latency L for both caches these are L + 3 and L + 4 cycles. */
  lemma {:induction false} OverlapPerEpisode(s: Setup, rs: seq<Retired>)
    requires ValidStream(s.pc, rs) && Timed(s, rs).Some? && Fits(s)
    ensures OverlapsSized(Timed(s, rs).value, DirtyOverlaps(s, rs), LatenciesOf(s))
  {
    hide Timed, ValidStream, Fits, OverlapsSized, DataOutcome, CreditFor, Credited, StepLaw;
    if rs == [] || !(s.icache.enabled && s.dcache.enabled) {
      NothingOverlaps(s, rs);
      OverlapsNothing(Timed(s, rs).value, LatenciesOf(s));
    } else {
      var t, step := CreditedLastStep(s, rs);
      OverlapPerEpisode(s, Init(rs));
      OneMoreCredit(t, step.next, DirtyOverlaps(s, Init(rs)), LatenciesOf(s), Credited(t, Last(rs), step.next),
                    DataOutcome(t.dcache, Last(rs).effect).result.writeback);
    }
  }

  lemma {:induction false} CreditNeedsMiss(t: Timing, r: Retired, step: TimedStep)
    requires StepLaw(t, r, step) && (t.icache.config.enabled ==> FetchLaw(t, r, step.next))
    requires !t.icache.config.enabled ==> step.next.overlap == t.overlap
    ensures step.next.replays - t.replays <= step.next.dcache.stats.misses - t.dcache.stats.misses
  {
    hide Feed, Hits, LateStalls, Sequential, Retire, Accessed, Demand;
    if DataRequest(r.effect).Some? {
      MissCounts(t.dcache, DataRequest(r.effect).value);
    }
  }

  /** Every overlap belongs to a data-cache miss of its own. */
  lemma {:induction false} OverlapsAreMisses(s: Setup, rs: seq<Retired>)
    requires ValidStream(s.pc, rs) && Timed(s, rs).Some?
    ensures Timed(s, rs).value.replays <= Timed(s, rs).value.dcache.stats.misses
  {
    if rs != [] {
      hide TimeStep, Window, DecodedAlike, StepLaw, FetchLaw;
      var t, step := LastStep(s, rs);
      OverlapsAreMisses(s, Init(rs));
      CreditNeedsMiss(t, Last(rs), step);
    }
  }
}
