/** The requests that a run makes of the instruction cache, in order, and what
    they are: the fetches of the program's segments, with the replays of held
    words in between. */
module RequestLog {
  import opened Words
  import opened Isa
  import opened CacheModel
  import opened FetchStream
  import opened FrontEnd
  import opened Coupling
  import opened StepShape
  import opened Streams
  import opened StreamLaws
  import opened CycleLaws

  /** The requests a step repeats: the newest fetched word, while the data cache
      stalls or the program drains. */
  function Repeats(t: Timing, r: Retired): seq<Request> {
    Repeated(r.pc + if r.effect.Halt? then SYSTEM_LOOKAHEAD else DCACHE_HOLD_AHEAD, HoldReplays(t, r))
  }

  /** The new words that the steps of a run fetch. */
  function Demanded(s: Setup, rs: seq<Retired>): seq<Request>
    requires Timed(s, rs).Some?
  {
    if rs == [] then [] else Demanded(s, Init(rs)) + Demand(Timed(s, Init(rs)).value, Last(rs))
  }

  /** All requests of a run. */
  function Requested(s: Setup, rs: seq<Retired>): seq<Request>
    requires Timed(s, rs).Some?
  {
    if rs == [] then []
    else
      var t := Timed(s, Init(rs)).value;
      Requested(s, Init(rs)) + (Demand(t, Last(rs)) + Repeats(t, Last(rs)))
  }

  /** The words a run fetches are, in order, those of its straight-line segments:
      whatever the data cache and the latencies do, only the replays differ. */
  lemma {:induction false} DemandsAreFetches(s: Setup, rs: seq<Retired>)
    requires ValidStream(s.pc, rs) && Timed(s, rs).Some? && s.icache.enabled
    ensures Demanded(s, rs) == Fetches(s.pc, rs, Timed(s, rs).value.fetch.front)
  {
    hide TimeStep, StepLaw, Window, DecodedAlike, Feed, CreditDue, Fetches, Follows, Demand;
    if rs == [] {
      EmptyFetches(s);
    } else {
      var t, step := LastStep(s, rs);
      DemandsAreFetches(s, Init(rs));
      SegmentIsBehind(s.pc, Init(rs));
      NotHaltedBefore(s.pc, rs);
      FetchesStep(s, t, rs, step.next);
    }
  }

  /** The cache that makes a step's requests one by one ends as the step says. */
  lemma {:induction false} RequestsMakeStep(t: Timing, r: Retired, t': Timing)
    requires t.icache.config.enabled && Window(t, r.pc) && FetchLaw(t, r, t')
    ensures t'.icache == Feed(t.icache, Demand(t, r) + Repeats(t, r))
    ensures t'.fetch.stats.issued == t.fetch.stats.issued + |Demand(t, r) + Repeats(t, r)|
  {
    hide Feed, CreditDue, Hits, LateStalls, Demand, Accessed;
    var fed, again := Feed(t.icache, Demand(t, r)), Repeats(t, r);
    FeedConcat(t.icache, Demand(t, r), again);
    if HoldReplays(t, r) == 0 {
      assert again == [];
      assert Feed(fed, []) == fed by {
        FeedNothing(fed);
      }
    } else {
      var newest := t'.fetch.front - 4;
      HitsWithHits(fed, HoldReplays(t, r), newest);
      ReplaysHit(fed, newest, HoldReplays(t, r));
    }
  }

  /** The instruction cache is exactly a cold cache that was made these requests,
      one after the other, and the fetch stream counted each of them. */
  lemma {:induction false} CacheSawRequests(s: Setup, rs: seq<Retired>)
    requires ValidStream(s.pc, rs) && Timed(s, rs).Some? && s.icache.enabled
    ensures var t := Timed(s, rs).value;
            t.icache == Feed(Cold(s.icache), Requested(s, rs)) && t.fetch.stats.issued == |Requested(s, rs)|
  {
    hide TimeStep, StepLaw, FetchLaw, Window, DecodedAlike, Feed, Demand, Repeats;
    if rs == [] {
      FeedNothing(Cold(s.icache));
    } else {
      var t, step := LastStep(s, rs);
      CacheSawRequests(s, Init(rs));
      RequestsMakeStep(t, Last(rs), step.next);
      FeedConcat(Cold(s.icache), Requested(s, Init(rs)), Demand(t, Last(rs)) + Repeats(t, Last(rs)));
    }
  }

  /** The words a step fetches behind the instruction's own. */
  function Beyond(t: Timing, r: Retired): int {
    |Demand(t, r)| - |Sequential(t.fetch.front, r.pc + 4)|
  }

  /** The words that redirects fetched in vain. */
  function InVain(s: Setup, rs: seq<Retired>): int
    requires Timed(s, rs).Some?
  {
    if rs == [] then 0
    else InVain(s, Init(rs)) + if Redirects(Last(rs).effect) then Beyond(Timed(s, Init(rs)).value, Last(rs)) else 0
  }

  /** The words that the steps fetched behind their own and on the way to the last one
      they asked for. */
  function OnTheWay(s: Setup, rs: seq<Retired>): int
    requires Timed(s, rs).Some?
  {
    if rs == [] then 0
    else
      var beyond := Beyond(Timed(s, Init(rs)).value, Last(rs));
      OnTheWay(s, Init(rs)) + if beyond > 0 then beyond - 1 else 0
  }

  lemma {:induction false} BeyondIsAhead(t: Timing, r: Retired)
    requires Window(t, r.pc)
    ensures 0 <= Beyond(t, r) && (Redirects(r.effect) ==> Beyond(t, r) <= 2)
    ensures r.effect.Halt? || Redirects(r.effect) ==> DataStall(t.dcache, r.effect) == 0
  {
    hide Feed, Hits, Sequential, Accessed;
    var end := Reach(r, DataStall(t.dcache, r.effect));
    if end >= r.pc + 12 {
      SequentialFrom(t, r, end);
      BehindOwn(t, r);
    }
  }

  lemma {:induction false} BehindOwn(t: Timing, r: Retired)
    requires Window(t, r.pc)
    ensures |Sequential(Max(t.fetch.front, r.pc + 4), r.pc + 12)| <= 2
  {
    hide Hits;
    SequentialThrough(Max(t.fetch.front, r.pc + 4), r.pc + 8);
  }

  lemma {:induction false} CountersStep(t: Timing, r: Retired, step: TimedStep)
    requires StepLaw(t, r, step) && Window(t, r.pc) && FetchLaw(t, r, step.next)
    ensures var f, f' := t.fetch.stats, step.next.fetch.stats;
            var holds := f'.replays - f.replays;
            && f'.redirects == f.redirects + (if Redirects(r.effect) then 1 else 0)
            && f'.wrongPath == f.wrongPath + (if Redirects(r.effect) then Beyond(t, r) else 0)
            && f'.lookaheads == f.lookaheads + (if Beyond(t, r) > 0 then Beyond(t, r) - 1 else 0)
                                + (if r.effect.Halt? then 2 else 0)
            && f'.issued - f.issued == |Demand(t, r)| + holds
            && holds == step.next.dcache.stats.stallCycles - t.dcache.stats.stallCycles
                        + (if r.effect.Halt? then 2 else 0)
    ensures Redirects(r.effect) ==> 0 <= Beyond(t, r) <= 2
  {
    hide Feed, Hits, Sequential, CreditDue, LateStalls, Demand, StepLaw, Window, DataStall;
    BeyondIsAhead(t, r);
    DataStallAdds(t, r, step);
  }

  /** What the fetch stream counts over a run: its redirects are the program's; its
      replays are the data cache's stall cycles and the two of the drain; its requests
      are the words demanded and the replays; its wrong path is what the redirects
      fetched in vain, at most two words each; and its lookaheads are the words on the
      way to the last one that a step asked for, and the replays of the drain. */
  lemma {:induction false} FetchCounters(s: Setup, rs: seq<Retired>)
    requires ValidStream(s.pc, rs) && Timed(s, rs).Some? && s.icache.enabled
    ensures var t := Timed(s, rs).value;
            var f := t.fetch.stats;
            && f.redirects == RedirectCount(rs)
            && f.replays == t.dcache.stats.stallCycles + (if Halted(rs) then 2 else 0)
            && f.issued == |Demanded(s, rs)| + f.replays
            && f.wrongPath == InVain(s, rs) <= 2 * f.redirects
            && f.lookaheads == OnTheWay(s, rs) + (if Halted(rs) then 2 else 0)
  {
    if rs != [] {
      hide TimeStep, StepLaw, FetchLaw, Window, DecodedAlike, Demand, Beyond, Follows;
      var t, step := LastStep(s, rs);
      FetchCounters(s, Init(rs));
      NotHaltedBefore(s.pc, rs);
      CountersStep(t, Last(rs), step);
    }
  }

  lemma {:induction false} UncachedFetchStep(t: Timing, r: Retired)
    requires !t.icache.config.enabled && TimeStep(t, r).Some?
    ensures var f, f' := t.fetch, TimeStep(t, r).value.next.fetch;
            f' == if Redirects(r.effect) then FetchState(r.effect.target, f.stats.(redirects := f.stats.redirects + 1))
                  else f
  {
    hide Accessed;
  }

  /** With the instruction cache off it counts the redirects and nothing else, and the
      front only follows them. */
  lemma {:induction false} UncachedFetchCounters(s: Setup, rs: seq<Retired>)
    requires ValidStream(s.pc, rs) && Timed(s, rs).Some? && !s.icache.enabled
    ensures Timed(s, rs).value.fetch ==
            FetchState(SegmentStart(s.pc, rs), NO_FETCHES.(redirects := RedirectCount(rs)))
  {
    if rs != [] {
      hide TimeStep, StepLaw, DecodedAlike;
      var t, step := LastStep(s, rs);
      UncachedFetchCounters(s, Init(rs));
      UncachedFetchStep(t, Last(rs));
    }
  }
}
