/** Exact laws of a run over a stream of retired instructions: what each cache
    was asked, what the cycle count is made of, how many fetches were issued and
    how much waiting overlapped. */
module StreamLaws {
  import opened Words
  import opened Isa
  import opened CacheModel
  import opened FetchStream
  import opened FrontEnd
  import opened PipelineTiming
  import opened Coupling
  import opened StepShape
  import opened Streams

  // ------------------------------------------------------- cost of a cache

  /** A cache's stall cycles are its misses and writebacks, priced. */
  ghost predicate Costed(c: Cache) {
    c.stats.stallCycles == c.stats.misses * CleanMissPenalty(c.config)
                           + c.stats.writebacks * (DirtyMissPenalty(c.config) - CleanMissPenalty(c.config))
  }

  lemma MissCounts(c: Cache, q: Request)
    ensures var a, wb := Accessed(c, q), if Accessed(c, q).result.writeback then 1 else 0;
            && a.cache.stats.misses == c.stats.misses + (if a.result.miss then 1 else 0)
            && a.cache.stats.writebacks == c.stats.writebacks + wb
            && (a.result.writeback ==> a.result.miss)
            && a.result.stallCycles == (if a.result.writeback then DirtyMissPenalty(c.config)
                                        else if a.result.miss then CleanMissPenalty(c.config) else 0)
  {
  }

  lemma CostStep(c: Cache, q: Request)
    requires Costed(c)
    ensures Costed(Accessed(c, q).cache)
  {
    hide Accessed, CleanMissPenalty, DirtyMissPenalty;
    MissCounts(c, q);
    StallsAccumulate(c, q);
    var c', clean: int, dirty: int := Accessed(c, q).cache, CleanMissPenalty(c.config), DirtyMissPenalty(c.config);
    assert (c.stats.misses + 1) * clean == c.stats.misses * clean + clean;
    assert (c.stats.writebacks + 1) * (dirty - clean) == c.stats.writebacks * (dirty - clean) + (dirty - clean);
  }

  lemma {:induction false} FeedCost(config: CacheConfig, qs: seq<Request>)
    requires config.Indexable()
    ensures Costed(Feed(Cold(config), qs))
  {
    hide Accessed;
    if qs != [] {
      FeedCost(config, Init(qs));
      CostStep(Feed(Cold(config), Init(qs)), Last(qs));
    }
  }

  // --------------------------------------------------------- the data side

  /** The data requests of a stream, one for each load or store. */
  function DataStream(rs: seq<Retired>): seq<Request> {
    if rs == [] then []
    else
      DataStream(Init(rs)) +
      match DataRequest(Last(rs).effect)
      case None => []
      case Some(q) => [q]
  }

  lemma AccessedWithHits(c: Cache, n: nat, q: Request)
    requires c.config.enabled || n == 0
    ensures Accessed(WithHits(c, n), q).cache == WithHits(Accessed(c, q).cache, n)
    ensures Accessed(WithHits(c, n), q).result == Accessed(c, q).result
  {
  }

  lemma {:induction false} FeedWithHits(c: Cache, n: nat, qs: seq<Request>)
    requires c.config.enabled || n == 0
    ensures Feed(WithHits(c, n), qs) == WithHits(Feed(c, qs), n)
  {
    hide Accessed, WithHits;
    if qs != [] {
      FeedWithHits(c, n, Init(qs));
      AccessedWithHits(Feed(c, Init(qs)), n, Last(qs));
    }
  }

  lemma {:induction false} NoCreditWithoutDcache(t: Timing, r: Retired, step: TimedStep)
    requires StepLaw(t, r, step) && !t.dcache.config.enabled
    requires t.icache.config.enabled ==> FetchLaw(t, r, step.next)
    requires !t.icache.config.enabled ==> step.next.overlap == t.overlap
    ensures step.next.overlap == t.overlap
  {
  }

  /** One step adds its own data request to the stream, and a hit if it
      replays. */
  lemma {:induction false} DataStep(t: Timing, r: Retired, step: TimedStep, cold: Cache, qs: seq<Request>)
    requires StepLaw(t, r, step) && t.dcache == WithHits(Feed(cold, qs), t.replays)
    requires cold.config.enabled || (t.replays == 0 && step.next.overlap == t.overlap)
    ensures var more := match DataRequest(r.effect) case None => [] case Some(q) => [q];
            step.next.dcache == WithHits(Feed(cold, qs + more), step.next.replays)
  {
    hide Accessed, Retire;
    match DataRequest(r.effect) {
      case None => assert qs + [] == qs;
      case Some(q) =>
        AccessedWithHits(Feed(cold, qs), t.replays, q);
        FeedOne(cold, qs, q);
    }
  }

  /** The data cache has seen exactly the loads and stores of the program: the
      replays of overlapped stores are hits that leave no other trace. */
  lemma {:induction false} DataSide(s: Setup, rs: seq<Retired>)
    requires ValidStream(s.pc, rs) && Timed(s, rs).Some?
    ensures Timed(s, rs).value.dcache == WithHits(Feed(Cold(s.dcache), DataStream(rs)), Timed(s, rs).value.replays)
    ensures !s.dcache.enabled ==> Timed(s, rs).value.replays == 0
  {
    if rs != [] {
      hide TimeStep, FetchLaw, Feed, Window, ValidStream, DataOutcome, WithHits;
      var t, step := LastStep(s, rs);
      DataSide(s, Init(rs));
      if !s.dcache.enabled {
        NoCreditWithoutDcache(t, Last(rs), step);
      }
      DataStep(t, Last(rs), step, Cold(s.dcache), DataStream(Init(rs)));
    }
  }

  // -------------------------------------------------------- the fetch side

  /** Where the straight-line segment that the next instruction belongs to
      starts. */
  function SegmentStart(pc: word, rs: seq<Retired>): word {
    if rs == [] then pc
    else if Redirects(Last(rs).effect) then Last(rs).effect.target
    else SegmentStart(pc, Init(rs))
  }

  /** The fetches of the finished segments: each runs in order from its first
      instruction to two words past its last. */
  function SegmentFetches(pc: word, rs: seq<Retired>): seq<Request> {
    if rs == [] then []
    else if Redirects(Last(rs).effect) || Last(rs).effect.Halt? then
      SegmentFetches(pc, Init(rs)) + Sequential(SegmentStart(pc, Init(rs)), Last(rs).pc + 12)
    else SegmentFetches(pc, Init(rs))
  }

  predicate Halted(rs: seq<Retired>) {
    rs != [] && Last(rs).effect.Halt?
  }

  /** All fetches of a run, but for replays of a word already fetched. */
  function Fetches(pc: word, rs: seq<Retired>, front: word): seq<Request> {
    if Halted(rs) then SegmentFetches(pc, rs)
    else SegmentFetches(pc, rs) + Sequential(SegmentStart(pc, rs), front)
  }

  /** The same lines and misses, but for hits on resident words. */
  ghost predicate UpToHits(a: Cache, b: Cache) {
    a.stats.accesses >= b.stats.accesses && a == WithHits(b, a.stats.accesses - b.stats.accesses)
  }

  lemma UpToHitsFeed(a: Cache, b: Cache, qs: seq<Request>, n: nat)
    requires UpToHits(a, b) && a.config.enabled
    ensures UpToHits(WithHits(Feed(a, qs), n), Feed(b, qs))
  {
    FeedWithHits(b, a.stats.accesses - b.stats.accesses, qs);
  }

  /** One step extends the fetch stream by exactly its demand. */
  lemma {:induction false} FetchesStep(s: Setup, t: Timing, rs: seq<Retired>, t': Timing)
    requires rs != [] && Window(t, Last(rs).pc) && FetchLaw(t, Last(rs), t')
    requires !Halted(Init(rs)) && SegmentStart(s.pc, Init(rs)) % 4 == 0
    requires SegmentStart(s.pc, Init(rs)) <= Last(rs).pc
    ensures Fetches(s.pc, rs, t'.fetch.front) == Fetches(s.pc, Init(rs), t.fetch.front) + Demand(t, Last(rs))
  {
    hide Feed, CreditDue;
    var r, start, front := Last(rs), SegmentStart(s.pc, Init(rs)), t.fetch.front;
    var end := Max(front, Reach(r, DataStall(t.dcache, r.effect)));
    assert Demand(t, r) == Sequential(front, end);
    SequentialSplit(start, front, end);
    var done := SegmentFetches(s.pc, Init(rs));
    assert done + Sequential(start, end) == done + Sequential(start, front) + Demand(t, r);
  }

  /** Execution stays inside the segment it started. */
  lemma {:induction false} SegmentIsBehind(pc: word, rs: seq<Retired>)
    requires ValidStream(pc, rs) && PcAfter(pc, rs) % 4 == 0
    ensures SegmentStart(pc, rs) % 4 == 0
    ensures SegmentStart(pc, rs) <= PcAfter(pc, rs)
  {
    hide DecodedAlike;
    if rs != [] && !Redirects(Last(rs).effect) {
      assert Last(rs).pc == PcAfter(pc, Init(rs));
      SegmentIsBehind(pc, Init(rs));
    }
  }

  /** The instruction cache has seen exactly the fetches of the program's
      straight-line segments: the stream, and with it every hit and miss, does
      not depend on the data cache or on any latency. */
  lemma {:induction false} FetchSide(s: Setup, rs: seq<Retired>)
    requires ValidStream(s.pc, rs) && Timed(s, rs).Some? && s.icache.enabled
    ensures var t := Timed(s, rs).value;
            UpToHits(t.icache, Feed(Cold(s.icache), Fetches(s.pc, rs, t.fetch.front)))
  {
    hide TimeStep, StepLaw, Window, DecodedAlike, Feed, CreditDue, Fetches, Follows;
    if rs == [] {
      EmptyFetches(s);
    } else {
      var t, step := LastStep(s, rs);
      FetchSide(s, Init(rs));
      SegmentIsBehind(s.pc, Init(rs));
      NotHaltedBefore(s.pc, rs);
      FetchesStep(s, t, rs, step.next);
      var done := Fetches(s.pc, Init(rs), t.fetch.front);
      FeedConcat(Cold(s.icache), done, Demand(t, Last(rs)));
      UpToHitsFeed(t.icache, Feed(Cold(s.icache), done), Demand(t, Last(rs)), HoldReplays(t, Last(rs)));
    }
  }

  lemma EmptyFetches(s: Setup)
    ensures Fetches(s.pc, [], s.pc) == []
    ensures Feed(Cold(s.icache), []) == Cold(s.icache)
  {
  }

  lemma {:induction false} NotHaltedBefore(pc: word, rs: seq<Retired>)
    requires rs != [] && ValidStream(pc, rs)
    ensures !Halted(Init(rs))
  {
    if |rs| > 1 {
      assert Follows(rs[|rs| - 2], rs[|rs| - 1]);
    }
  }
}
