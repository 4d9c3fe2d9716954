/** Whole-run laws of the counters: conservation of cycles, the number of fetch
    requests, the overlap of cache waits and the spacing of retirements. */
module CycleLaws {
  import opened Words
  import opened Isa
  import opened CacheModel
  import opened FetchStream
  import opened FrontEnd
  import opened PipelineTiming
  import opened Coupling
  import opened StepShape
  import opened Streams
  import opened StreamLaws

  /** The instructions of a stream, as the pipeline model is shown them. */
  function Issues(rs: seq<Retired>): (h: seq<Issue>)
    ensures |h| == |rs|
  {
    if rs == [] then [] else Issues(Init(rs)) + [Issue(Last(rs).insn, Taken(Last(rs)))]
  }

  // -------------------------------------------------------- sizes of a step

  lemma PenaltiesFit(s: Setup)
    requires Fits(s)
    ensures s.icache.enabled ==> CleanMissPenalty(s.icache) == s.icache.memoryLatency + 4
    ensures s.dcache.enabled ==> CleanMissPenalty(s.dcache) == s.dcache.memoryLatency + 4
                                 && DirtyMissPenalty(s.dcache) == 2 * s.dcache.memoryLatency + 7
  {
  }

  lemma ScaleBound(n: nat, bound: nat, x: nat)
    requires n <= bound
    ensures n * x <= bound * x
  {
  }

  /** The new fetches of a step stall at most four clean misses' worth. */
  lemma {:induction false} DemandStallBound(t: Timing, r: Retired)
    requires Window(t, r.pc) && NoDirtyLine(t.icache)
    ensures Stalls(t.icache, Demand(t, r)) <= 4 * CleanMissPenalty(t.icache.config)
    ensures NoDirtyLine(Feed(t.icache, Demand(t, r)))
  {
    hide Feed, Accessed;
    var front, end := t.fetch.front, Reach(r, DataStall(t.dcache, r.effect));
    SequentialReads(front, end);
    ReadsStayClean(t.icache, Demand(t, r));
    assert |Demand(t, r)| <= 4;
    ScaleBound(Feed(t.icache, Demand(t, r)).stats.misses - t.icache.stats.misses, 4, CleanMissPenalty(t.icache.config));
  }

  lemma DataStallBound(d: Cache, e: Effect)
    ensures DataStall(d, e) <= if d.config.enabled then
                                 Max(CleanMissPenalty(d.config), DirtyMissPenalty(d.config)) else 0
  {
  }

  /** Under small latencies the pipeline is held for exactly the cycles of a
      step: nothing wraps. */
  lemma {:induction false} HeldDoesNotWrap(s: Setup, t: Timing, r: Retired, step: TimedStep)
    requires Fits(s) && Orderly(s, t, r.pc) && StepLaw(t, r, step)
    requires s.icache.enabled ==> Window(t, r.pc) && FetchLaw(t, r, step.next)
    requires !s.icache.enabled ==> step.next.icache == t.icache && step.next.overlap == t.overlap
    ensures Wrap(step.held) == step.held
  {
    hide Feed, Retire, Accessed, Window, CleanMissPenalty, DirtyMissPenalty, DataStall, Hits, Demand, LateStalls;
    PenaltiesFit(s);
    DataStallBound(t.dcache, r.effect);
    if s.icache.enabled {
      DemandStallBound(t, r);
    }
  }

  /** The cycles external holds contribute: both caches' waits less what
      overlapped. */
  function Held(t: Timing): int {
    t.icache.stats.stallCycles + t.dcache.stats.stallCycles - t.overlap
  }

  lemma {:induction false} StepHeld(t: Timing, r: Retired, step: TimedStep)
    requires StepLaw(t, r, step)
    ensures step.held == Held(step.next) - Held(t)
  {
    DataStallAdds(t, r, step);
  }

  lemma {:induction false} PipeStep(s: Setup, t: Timing, r: Retired, step: TimedStep, h: seq<Issue>)
    requires Fits(s) && Orderly(s, t, r.pc) && StepLaw(t, r, step)
    requires s.icache.enabled ==> Window(t, r.pc) && FetchLaw(t, r, step.next)
    requires !s.icache.enabled ==> step.next.icache == t.icache && step.next.overlap == t.overlap
    requires Held(t) >= 0 && Refines(t.pipe, h, Held(t))
    ensures Held(step.next) >= 0
    ensures Refines(step.next.pipe, h + [Issue(r.insn, Taken(r))], Held(step.next))
  {
    hide FetchLaw, Window, Orderly, Refines, Retire, Held, Taken, DataStall, DataOutcome;
    HeldDoesNotWrap(s, t, r, step);
    StepHeld(t, r, step);
    RetireRefines(t.pipe, h, Held(t), step.held, Issue(r.insn, Taken(r)));
  }

  /** The pipeline's counters are the declarative counts of the program, and
      everything else it waited for is cache waiting. */
  lemma {:induction false} PipeSide(s: Setup, rs: seq<Retired>)
    requires ValidStream(s.pc, rs) && Timed(s, rs).Some? && Fits(s)
    ensures var t := Timed(s, rs).value;
            Held(t) >= 0 && Refines(t.pipe, Issues(rs), Held(t))
  {
    hide TimeStep, FetchLaw, StepLaw, Window, Orderly, ValidStream, Refines, Held, Taken, Fits;
    if rs == [] {
      ColdPipe(s);
    } else {
      var t, step := LastStep(s, rs);
      PipeSide(s, Init(rs));
      PipeStep(s, t, Last(rs), step, Issues(Init(rs)));
    }
  }

  lemma ColdPipe(s: Setup)
    ensures var t := ColdTiming(s.icache, s.dcache, s.pc);
            Held(t) == 0 && Refines(t.pipe, Issues([]), 0)
  {
  }

  // ------------------------------------------------------- overlap is a union

  /** A granted credit is paid out of waits on both sides of the same step: it
      leaves at least one cycle of the data wait, and the late fetches stalled
      at least as long. */
  lemma {:induction false} CreditIsPaid(t: Timing, r: Retired, t': Timing)
    requires Window(t, r.pc) && NoDirtyLine(t.icache) && FetchLaw(t, r, t')
    ensures var credit := t'.overlap - t.overlap;
            && credit <= t'.icache.stats.stallCycles - t.icache.stats.stallCycles
            && (credit > 0 ==> credit + 1 <= DataStall(t.dcache, r.effect))
  {
    hide Feed, FetchLaw, CleanMissPenalty, DataStall, NoDirtyLine;
    FetchesGain(t, r, t');
    if t'.overlap > t.overlap {
      CreditTerms(t, r, t');
      var front := t.fetch.front;
      var own, late := Sequential(front, r.pc + 4), Sequential(Max(front, r.pc + 4), r.pc + 16);
      SequentialFrom(t, r, r.pc + 16);
      hide Sequential, Window;
      SequentialReads(front, r.pc + 4);
      SequentialReads(Max(front, r.pc + 4), r.pc + 16);
      ReadsStayClean(t.icache, own);
      ReadsStallWholeRefills(Feed(t.icache, own), late);
    }
  }

  lemma {:induction false} FetchesGain(t: Timing, r: Retired, t': Timing)
    requires FetchLaw(t, r, t')
    ensures Gained(t.icache, t'.icache) == Stalls(t.icache, Demand(t, r))
    ensures t'.overlap >= t.overlap
  {
    hide Feed, Hits, Demand, LateStalls, DataStall;
  }

  /** The terms on which a credit is granted. */
  lemma {:induction false} CreditTerms(t: Timing, r: Retired, t': Timing)
    requires FetchLaw(t, r, t') && t'.overlap > t.overlap
    ensures var credit := t'.overlap - t.overlap;
            credit <= CleanMissPenalty(t.icache.config) && credit + 1 <= DataStall(t.dcache, r.effect)
    ensures r.effect.Store? && LateStalls(t, r) != 0
    ensures Demand(t, r) == Sequential(t.fetch.front, r.pc + 16)
  {
    hide Feed, Hits, LateStalls, DataStall, CleanMissPenalty, Sequential;
  }

  lemma ReadsStallWholeRefills(c: Cache, qs: seq<Request>)
    requires NoDirtyLine(c) && forall i :: 0 <= i < |qs| ==> !qs[i].isWrite
    ensures Stalls(c, qs) != 0 ==> Stalls(c, qs) >= CleanMissPenalty(c.config)
  {
    hide Feed, CleanMissPenalty, NoDirtyLine;
    ReadsStayClean(c, qs);
    AtLeastOne(Feed(c, qs).stats.misses - c.stats.misses, CleanMissPenalty(c.config));
  }

  lemma AtLeastOne(n: nat, x: nat)
    ensures n * x != 0 ==> n * x >= x
  {
    if n >= 1 {
      assert n * x == x + (n - 1) * x;
    }
  }

  /** Overlap is a union of waits, however long the latencies: it never exceeds
      either cache's stall total, each replayed store keeps a cycle of its own,
      and the published net stall lies between the larger total and the sum. */
  lemma {:induction false} OverlapIsAUnion(s: Setup, rs: seq<Retired>)
    requires ValidStream(s.pc, rs) && Timed(s, rs).Some?
    ensures var t := Timed(s, rs).value;
            && t.overlap <= t.icache.stats.stallCycles
            && t.overlap + t.replays <= t.dcache.stats.stallCycles
            && Max(t.icache.stats.stallCycles, t.dcache.stats.stallCycles) <= Held(t)
  {
    if rs != [] {
      hide TimeStep, Window, DecodedAlike, Retire, Accessed, Feed, FetchLaw;
      var t, step := LastStep(s, rs);
      OverlapIsAUnion(s, Init(rs));
      StepHeld(t, Last(rs), step);
      if s.icache.enabled {
        CreditIsPaid(t, Last(rs), step.next);
      }
    }
  }

  /** What an overlap credit anticipates does happen.  The store's successor
      redirects to the foreseen target and fetches nothing; the target is the next
      word fetched, it misses, and the miss costs at least the credit. */
  lemma {:induction false} CreditIsRealized(t0: Timing, store: Retired, t1: Timing, jump: Retired, t2: Timing,
                                            next: Retired)
    requires Window(t0, store.pc) && NoDirtyLine(t0.icache) && FetchLaw(t0, store, t1) && t1.overlap > t0.overlap
    requires Window(t1, jump.pc) && FetchLaw(t1, jump, t2) && Follows(store, jump)
    requires Window(t2, next.pc) && NoDirtyLine(t2.icache) && Follows(jump, next) && t2.icache.config.enabled
    ensures Redirects(jump.effect) && store.look == Target(next.pc) && Demand(t1, jump) == []
    ensures Sequential(t2.fetch.front, next.pc + 4) == [Request(next.pc, false)] && !Hits(t2.icache, next.pc)
    ensures Stalls(t2.icache, [Request(next.pc, false)]) == CleanMissPenalty(t2.icache.config)
    ensures CleanMissPenalty(t2.icache.config) >= t1.overlap - t0.overlap
  {
    hide Accessed, CleanMissPenalty, DataStall, LateStalls;
    assert store.effect.Store? && store.look == Redirection(jump.effect);
    assert Demand(t1, jump) == [] && Feed(t1.icache, []) == t1.icache;
    HitsWithHits(t1.icache, HoldReplays(t1, jump), next.pc);
    var q := Request(next.pc, false);
    ReadStep(t2.icache, q);
    MissesExactly(t2.icache, q);
    assert [q][..0] == [] && Feed(t2.icache, []) == t2.icache;
    StallsAccumulate(t2.icache, q);
  }

  /** The fetches of an instruction whose own word has not been fetched begin with
      that word. */
  lemma {:induction false} OwnWordFirst(t: Timing, r: Retired, t': Timing)
    requires FetchLaw(t, r, t') && t.fetch.front == r.pc && r.pc % 4 == 0
    ensures Gained(t.icache, t'.icache) >= Stalls(t.icache, [Request(r.pc, false)])
  {
    hide Feed, CreditDue, Hits, LateStalls, DataStall;
    var own, end := Sequential(r.pc, r.pc + 4), Reach(r, DataStall(t.dcache, r.effect));
    assert own == [Request(r.pc, false)];
    hide Sequential;
    FeedSequential(t.icache, r.pc, r.pc + 4, end);
  }

  lemma {:induction false} CreditThenFetch(t0: Timing, store: Retired, t1: Timing, jump: Retired, t2: Timing,
                                           next: Retired, t3: Timing)
    requires Window(t0, store.pc) && NoDirtyLine(t0.icache) && FetchLaw(t0, store, t1) && t1.overlap > t0.overlap
    requires Window(t1, jump.pc) && FetchLaw(t1, jump, t2) && Follows(store, jump)
    requires Window(t2, next.pc) && NoDirtyLine(t2.icache) && Follows(jump, next) && t2.icache.config.enabled
    requires FetchLaw(t2, next, t3)
    ensures store.effect.Store? && store.look == Target(next.pc) && Redirects(jump.effect)
    ensures t2.icache == t1.icache && t2.fetch.stats.issued == t1.fetch.stats.issued
    ensures !Hits(t2.icache, next.pc)
    ensures t1.overlap - t0.overlap <= CleanMissPenalty(t2.icache.config) <= Gained(t2.icache, t3.icache)
  {
    CreditIsRealized(t0, store, t1, jump, t2, next);
    CreditTerms(t0, store, t1);
    NothingFetched(t1, jump, t2);
    assert t2.fetch.front == next.pc;
    hide FetchLaw, Window, Follows, Hits, CleanMissPenalty, NoDirtyLine, Stalls;
    OwnWordFirst(t2, next, t3);
  }

  /** Every credit of a run is realized: if the last instruction but two was
      granted one, the last but one redirects without a single request, the last is
      at the foreseen target, and its fetch misses and stalls for at least the
      credit. */
  lemma {:induction false} CreditIsRealizedInRun(s: Setup, rs: seq<Retired>)
    requires |rs| >= 3 && ValidStream(s.pc, rs) && Timed(s, rs).Some? && s.icache.enabled
    ensures forall n :: 0 <= n <= |rs| ==> Timed(s, rs[..n]).Some?
    ensures var n := |rs|;
            var t0, t1 := Timed(s, rs[..n - 3]).value, Timed(s, rs[..n - 2]).value;
            var t2, t3, credit := Timed(s, rs[..n - 1]).value, Timed(s, rs).value, t1.overlap - t0.overlap;
            credit > 0 ==>
              && rs[n - 3].effect.Store? && rs[n - 3].look == Target(rs[n - 1].pc) && Redirects(rs[n - 2].effect)
              && t2.icache == t1.icache && t2.fetch.stats.issued == t1.fetch.stats.issued
              && !Hits(t2.icache, rs[n - 1].pc)
              && credit <= CleanMissPenalty(s.icache) <= Gained(t2.icache, t3.icache)
  {
    hide Timed, ValidStream, StepLaw, FetchLaw, Window, Follows, Hits, CleanMissPenalty, NoDirtyLine, Redirects;
    hide TimeStep, PcAfter, Gained;
    forall n | 0 <= n <= |rs| ensures Timed(s, rs[..n]).Some? {
      PrefixIsTimed(s, rs, n);
    }
    var n := |rs|;
    var a, b := rs[..n - 1], rs[..n - 2];
    assert a == Init(rs) && b == Init(a) && rs[..n - 3] == Init(b);
    assert Follows(rs[n - 3], rs[n - 2]) && Follows(rs[n - 2], rs[n - 1]) by {
      StreamFollows(s.pc, rs, n - 2);
      StreamFollows(s.pc, rs, n - 1);
    }
    var t2, step3 := LastStep(s, rs);
    var t1, step2 := LastStep(s, a);
    var t0, step1 := LastStep(s, b);
    if t1.overlap > t0.overlap {
      CreditThenFetch(t0, rs[n - 3], t1, rs[n - 2], t2, rs[n - 1], step3.next);
    }
  }

  /** A redirect that has nothing to fetch makes no request at all. */
  lemma {:induction false} NothingFetched(t: Timing, r: Retired, t': Timing)
    requires FetchLaw(t, r, t') && Demand(t, r) == [] && Redirects(r.effect)
    ensures t'.icache == t.icache && t'.fetch.stats.issued == t.fetch.stats.issued
  {
    hide CreditDue, Hits, LateStalls, Demand;
    FeedNothing(t.icache);
  }

  lemma MissesExactly(c: Cache, q: Request)
    ensures Accessed(c, q).result.miss == !Hits(c, q.addr) && Accessed(c, q).result.hit == Hits(c, q.addr)
  {
  }

  // ------------------------------------------------------------ conservation

  /** How many instructions of a stream redirected the front end. */
  function RedirectCount(rs: seq<Retired>): nat {
    if rs == [] then 0 else RedirectCount(Init(rs)) + if Redirects(Last(rs).effect) then 1 else 0
  }

  lemma {:induction false} IssuesAt(rs: seq<Retired>, i: nat)
    requires i < |rs|
    ensures Issues(rs)[i] == Issue(rs[i].insn, Taken(rs[i]))
  {
    if i < |rs| - 1 {
      IssuesAt(Init(rs), i);
    }
  }

  /** Both decoders count the same redirects. */
  lemma {:induction false} RedirectsCounted(rs: seq<Retired>)
    requires forall i :: 0 <= i < |rs| ==> DecodedAlike(rs[i])
    ensures Count(Issues(rs), TakenAt) + Count(Issues(rs), JumpAt) == RedirectCount(rs)
  {
    if rs == [] {
      assert Marked(Issues(rs), TakenAt) == {} && Marked(Issues(rs), JumpAt) == {};
    } else {
      hide Decode, Count;
      var h, r := Issues(Init(rs)), Issue(Last(rs).insn, Taken(Last(rs)));
      RedirectsCounted(Init(rs));
      assert forall i :: 0 <= i < |h| ==> (h + [r])[i] == h[i];
      CountAfter(h, r, TakenAt);
      CountAfter(h, r, JumpAt);
      assert DecodedAlike(Last(rs));
    }
  }

  lemma {:induction false} UncachedStaysCold(s: Setup, rs: seq<Retired>)
    requires ValidStream(s.pc, rs) && Timed(s, rs).Some? && !s.icache.enabled
    ensures Timed(s, rs).value.icache == Cold(s.icache)
  {
    if rs != [] {
      hide TimeStep, StepLaw, DecodedAlike;
      var t, step := LastStep(s, rs);
      UncachedStaysCold(s, Init(rs));
    }
  }

  lemma {:induction false} FeedUncached(config: CacheConfig, qs: seq<Request>)
    requires config.Indexable() && !config.enabled
    ensures Feed(Cold(config), qs) == Cold(config)
  {
    if qs != [] {
      FeedUncached(config, Init(qs));
    }
  }

  /** What each cache's stall total is made of. */
  lemma {:induction false} CacheCosts(s: Setup, rs: seq<Retired>)
    requires ValidStream(s.pc, rs) && Timed(s, rs).Some? && Fits(s)
    ensures var i, d := Timed(s, rs).value.icache.stats, Timed(s, rs).value.dcache.stats;
            && i.stallCycles == i.misses * (s.icache.memoryLatency + 4) && i.writebacks == 0
            && d.stallCycles == d.misses * (s.dcache.memoryLatency + 4) + d.writebacks * (s.dcache.memoryLatency + 3)
  {
    hide TimeStep, DecodedAlike, Feed;
    var t := Timed(s, rs).value;
    PenaltiesFit(s);
    DataSide(s, rs);
    FeedCost(s.dcache, DataStream(rs));
    if !s.dcache.enabled {
      FeedUncached(s.dcache, DataStream(rs));
    }
    if s.icache.enabled {
      FetchSide(s, rs);
      var qs := Fetches(s.pc, rs, t.fetch.front);
      FetchesAreReads(s.pc, rs, t.fetch.front);
      ReadsStayClean(Cold(s.icache), qs);
    } else {
      UncachedStaysCold(s, rs);
    }
  }

  lemma {:induction false} FetchesAreReads(pc: word, rs: seq<Retired>, front: word)
    ensures forall i :: 0 <= i < |SegmentFetches(pc, rs)| ==> !SegmentFetches(pc, rs)[i].isWrite
    ensures forall i :: 0 <= i < |Fetches(pc, rs, front)| ==> !Fetches(pc, rs, front)[i].isWrite
  {
    SequentialReads(SegmentStart(pc, rs), front);
    if rs != [] {
      FetchesAreReads(pc, Init(rs), front);
      SequentialReads(SegmentStart(pc, Init(rs)), Last(rs).pc + 12);
    }
  }

  /** The cycles a program takes when nothing ever waits for a cache, by counts
      over its instructions alone. */
  function PipelineCycles(rs: seq<Retired>): nat {
    |rs| + 4 + Count(Issues(rs), LoadUseAt) + 2 * RedirectCount(rs) + 7 * Count(Issues(rs), BurstAt)
  }

  lemma {:induction false} CyclesAreHeld(s: Setup, rs: seq<Retired>)
    requires ValidStream(s.pc, rs) && Timed(s, rs).Some? && Fits(s) && rs != []
    ensures var t := Timed(s, rs).value;
            t.pipe.stats.totalCycles == PipelineCycles(rs) + Held(t)
  {
    hide TimeStep, DecodedAlike, Feed, Count, Timed;
    PipeSide(s, rs);
    RunsAreOrderly(s, rs);
    RedirectsCounted(rs);
  }

  /** Every cycle of a run is accounted for, from counts of the program, counts
      of cache events and the overlap. */
  lemma {:induction false} CycleConservation(s: Setup, rs: seq<Retired>)
    requires ValidStream(s.pc, rs) && Timed(s, rs).Some? && Fits(s) && rs != []
    ensures var t := Timed(s, rs).value;
            var i, d := t.icache.stats, t.dcache.stats;
            && t.pipe.stats.totalCycles ==
                 PipelineCycles(rs)
                 + i.misses * (s.icache.memoryLatency + 4)
                 + d.misses * (s.dcache.memoryLatency + 4) + d.writebacks * (s.dcache.memoryLatency + 3)
                 - t.overlap
  {
    hide TimeStep, DecodedAlike, Timed, PipelineCycles;
    CyclesAreHeld(s, rs);
    CacheCosts(s, rs);
  }

  // ----------------------------------------------------------- request count

  lemma {:induction false} FeedAccesses(c: Cache, qs: seq<Request>)
    requires c.config.enabled
    ensures Feed(c, qs).stats.accesses == c.stats.accesses + |qs|
  {
    if qs != [] {
      FeedAccesses(c, Init(qs));
    }
  }

  /** The requests of one step, by how far ahead the front was and is. */
  lemma {:induction false} RequestStep(t: Timing, r: Retired, t': Timing)
    requires t.icache.config.enabled && Window(t, r.pc) && FetchLaw(t, r, t')
    ensures var ahead := if r.effect.Halt? then 4 else (t'.fetch.front - NextPc(r.pc, r.effect)) / 4;
            && t'.icache.stats.accesses - t.icache.stats.accesses ==
                 1 + (if Redirects(r.effect) then 2 else 0) + DataStall(t.dcache, r.effect)
                 + ahead - (t.fetch.front - r.pc) / 4
            && t'.icache.stats.accesses - t.icache.stats.accesses == t'.fetch.stats.issued - t.fetch.stats.issued
  {
    hide Feed, Hits, CreditDue, Accessed;
    FeedAccesses(t.icache, Demand(t, r));
  }

  lemma {:induction false} DataStallAdds(t: Timing, r: Retired, step: TimedStep)
    requires StepLaw(t, r, step)
    ensures step.next.dcache.stats.stallCycles == t.dcache.stats.stallCycles + DataStall(t.dcache, r.effect)
  {
    if DataRequest(r.effect).Some? {
      StallsAccumulate(t.dcache, DataRequest(r.effect).value);
    }
  }

  /** The number of instruction-cache requests: one for each retirement, two for
      each redirect, one for each cycle the data cache stalled, and what the
      front end is ahead by; at the end, four for the drain instead. */
  lemma {:induction false} RequestCount(s: Setup, rs: seq<Retired>)
    requires ValidStream(s.pc, rs) && Timed(s, rs).Some? && s.icache.enabled
    ensures var t := Timed(s, rs).value;
            && t.icache.stats.accesses == t.fetch.stats.issued
            && t.icache.stats.accesses ==
                 |rs| + 2 * RedirectCount(rs) + t.dcache.stats.stallCycles
                 + (if Halted(rs) then 4 else (t.fetch.front - PcAfter(s.pc, rs)) / 4)
  {
    if rs != [] {
      hide TimeStep, DecodedAlike, FetchLaw, StepLaw, Follows, Orderly, Window, DataStall;
      var t, step := LastStep(s, rs);
      RequestCount(s, Init(rs));
      NotHaltedBefore(s.pc, rs);
      RequestStep(t, Last(rs), step.next);
      DataStallAdds(t, Last(rs), step);
    }
  }

  // ------------------------------------------------------- retirement cycles

  /** The cycle the last instruction of a stream retires in. */
  function RetireCycle(s: Setup, rs: seq<Retired>): nat
    requires rs != [] && Timed(s, rs).Some?
  {
    TimeStep(Timed(s, Init(rs)).value, Last(rs)).value.retired.retireCycle
  }

  /** A retirement comes one cycle, its bubbles and its holds after the cycles
      already counted, and leaves its redirect penalty to be counted. */
  lemma RetireAdds(p: PipelineState, h: seq<Issue>, before: nat, held: nat, r: Issue)
    requires Refines(p, h, before) && p.config == CALIBRATED
    ensures var o, h' := Retire(AddStalls(p, held), r.insn, r.taken), h + [r];
            && o.result.retireCycle == |h| + 4 + p.accumulated + 1 + held
                 + (if LoadUseAt(h', |h|) then 1 else 0) + (if BurstAt(h', |h|) then 7 else 0)
            && o.state.stats.totalCycles - o.result.retireCycle ==
                 (if TakenAt(h', |h|) then 2 else 0) + (if JumpAt(h', |h|) then 2 else 0)
  {
    hide Count, Reads, Decode, DividerCharge;
  }

  lemma NothingAccumulated(p: PipelineState)
    requires Refines(p, [], 0)
    ensures p.accumulated == 0
  {
    assert Marked([], LoadUseAt) == {} && Marked([], TakenAt) == {} && Marked([], JumpAt) == {};
    assert Marked([], BurstAt) == {} && Marked([], DivRemAt) == {};
  }

  lemma {:induction false} HeldGrows(s: Setup, t: Timing, r: Retired, step: TimedStep)
    requires Orderly(s, t, r.pc) && StepLaw(t, r, step)
    requires s.icache.enabled ==> Window(t, r.pc) && FetchLaw(t, r, step.next)
    requires !s.icache.enabled ==> step.next.icache == t.icache && step.next.overlap == t.overlap
    ensures step.held >= 0
  {
    hide Feed, Retire, Accessed, Window, DataStall, Hits, Demand, LateStalls, CreditDue;
    if s.icache.enabled {
      CreditIsPaid(t, r, step.next);
    }
  }

  /** The redirect penalty an instruction leaves to the next one. */
  function RedirectPenalty(r: Retired): nat {
    if Redirects(r.effect) then 2 else 0
  }

  /** The cycles counted after a stream, less the last redirect's penalty, are
      the cycle of its last retirement; so at a halt the reported total is the
      cycle of the last trace row. */
  lemma {:induction false} TotalIsLastRetirement(s: Setup, rs: seq<Retired>)
    requires ValidStream(s.pc, rs) && Timed(s, rs).Some? && Fits(s) && rs != []
    ensures Timed(s, rs).value.pipe.stats.totalCycles == RetireCycle(s, rs) + RedirectPenalty(Last(rs))
  {
    hide TimeStep, FetchLaw, Window, Refines, Retire, Held, Orderly;
    var t, step := LastStep(s, rs);
    PipeSide(s, Init(rs));
    HeldDoesNotWrap(s, t, Last(rs), step);
    CalibratedPipe(s, t, Last(rs).pc);
    HeldGrows(s, t, Last(rs), step);
    RetireAdds(t.pipe, Issues(Init(rs)), Held(t), step.held, Issue(Last(rs).insn, Taken(Last(rs))));
    assert DecodedAlike(Last(rs));
  }

  lemma CalibratedPipe(s: Setup, t: Timing, pc: word)
    requires Orderly(s, t, pc)
    ensures t.pipe.config == CALIBRATED
  {
  }

  lemma TotalIsElapsed(p: PipelineState, h: seq<Issue>, held: nat)
    requires Refines(p, h, held) && p.config == CALIBRATED && h != []
    ensures p.stats.totalCycles == |h| + 4 + p.accumulated
  {
    hide Count, DividerCharge, Decode;
  }

  /** The cycles already counted when the next instruction comes up. */
  lemma {:induction false} ElapsedBefore(s: Setup, rs: seq<Retired>)
    requires ValidStream(s.pc, rs) && Timed(s, rs).Some? && Fits(s)
    ensures |rs| + 4 + Timed(s, rs).value.pipe.accumulated ==
            if rs == [] then 4 else RetireCycle(s, rs) + RedirectPenalty(Last(rs))
  {
    hide TimeStep, RetireCycle, DecodedAlike, Refines, Orderly;
    if rs == [] {
      ColdPipe(s);
      NothingAccumulated(Timed(s, rs).value.pipe);
    } else {
      hide Timed;
      PipeSide(s, rs);
      RunsAreOrderly(s, rs);
      CalibratedPipe(s, Timed(s, rs).value, PcAfter(s.pc, rs));
      TotalIsElapsed(Timed(s, rs).value.pipe, Issues(rs), Held(Timed(s, rs).value));
      TotalIsLastRetirement(s, rs);
    }
  }

  /** Retirements are spaced by exactly one cycle, the older instruction's
      redirect penalty, and the younger one's cache holds, load-use bubble and
      divider start-up; in particular their cycles strictly increase. */
  lemma {:induction false} RetirementSpacing(s: Setup, rs: seq<Retired>)
    requires ValidStream(s.pc, rs) && Timed(s, rs).Some? && Fits(s) && rs != []
    ensures var n, h, before := |rs| - 1, Issues(rs), Timed(s, Init(rs)).value;
            var holds := Held(Timed(s, rs).value) - Held(before);
            && holds >= 0
            && RetireCycle(s, rs) ==
                 (if n == 0 then 4 else RetireCycle(s, Init(rs)) + RedirectPenalty(Last(Init(rs))))
                 + 1 + holds + (if LoadUseAt(h, n) then 1 else 0) + (if BurstAt(h, n) then 7 else 0)
  {
    hide TimeStep, FetchLaw, Window, Retire, Held, Orderly, DecodedAlike, Refines, LoadUseAt, BurstAt;
    var t, step := LastStep(s, rs);
    PipeSide(s, Init(rs));
    HeldDoesNotWrap(s, t, Last(rs), step);
    HeldGrows(s, t, Last(rs), step);
    StepHeld(t, Last(rs), step);
    CalibratedPipe(s, t, Last(rs).pc);
    RetireAdds(t.pipe, Issues(Init(rs)), Held(t), step.held, Issue(Last(rs).insn, Taken(Last(rs))));
    ElapsedBefore(s, Init(rs));
  }
}
