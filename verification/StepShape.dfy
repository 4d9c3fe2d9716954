/** The shape of one timing step while the fetch window is in order: which
    words it fetches, what it adds to each cache, and which credit it grants. */
module StepShape {
  import opened Words
  import opened Isa
  import opened CacheModel
  import opened FetchStream
  import opened FrontEnd
  import opened PipelineTiming
  import opened Coupling

  function Max(a: nat, b: nat): nat {
    if a >= b then a else b
  }

  /** The instruction's own data access, without any replay. */
  function DataOutcome(d: Cache, e: Effect): AccessOutcome {
    match DataRequest(e)
    case None => AccessOutcome(d, AccessResult(true, false, false, 0))
    case Some(q) => Accessed(d, q)
  }

  function DataStall(d: Cache, e: Effect): word {
    DataOutcome(d, e).result.stallCycles
  }

  /** How far an instruction makes the front end fetch. */
  function Reach(r: Retired, stall: word): (n: nat)
    ensures r.pc + 4 <= n <= r.pc + 16
  {
    if Redirects(r.effect) || r.effect.Halt? then r.pc + 12
    else if stall != 0 then r.pc + 16
    else r.pc + 4
  }

  lemma {:induction false} ReachIsAhead(r: Retired, stall: word)
    requires r.pc % 4 == 0
    ensures Reach(r, stall) % 4 == 0
    ensures !Redirects(r.effect) ==> r.pc + 4 <= Reach(r, stall) <= r.pc + 16
  {
  }

  /** The new words an instruction fetches. */
  function Demand(t: Timing, r: Retired): seq<Request> {
    Sequential(t.fetch.front, Reach(r, DataStall(t.dcache, r.effect)))
  }

  /** How often it re-requests a word it already has. */
  function HoldReplays(t: Timing, r: Retired): nat {
    if r.effect.Halt? then SYSTEM_HOLD_HITS else DataStall(t.dcache, r.effect)
  }

  /** The fetch window at the start of a step: word aligned, at most three words
      ahead, and the newest fetched word, if there is one, resident. */
  ghost predicate Window(t: Timing, pc: word) {
    && pc % 4 == 0 && t.fetch.front % 4 == 0
    && pc <= t.fetch.front <= pc + 12
    && (t.fetch.front == pc || Hits(t.icache, t.fetch.front - 4))
  }

  // ------------------------------------------------------------ data phase

  /** A store that missed finds its line filled: replaying it hits, stalls
      nothing and changes nothing but two counters. */
  lemma ReplayAfterMiss(d: Cache, q: Request)
    requires Accessed(d, q).result.stallCycles != 0
    ensures var a := Accessed(d, q).cache;
            && Accessed(a, q).result.hit && Accessed(a, q).result.stallCycles == 0
            && Accessed(a, q).cache == WithHits(a, 1)
  {
    var a, i := Accessed(d, q).cache, IndexOf(d.config, q.addr);
    assert a.lines[i := a.lines[i]] == a.lines;
  }

  /** The overlap rule in closed form. */
  function CreditDue(icache: Cache, ifetchStalls: nat, d: Cache, r: Retired): word {
    if r.effect.Store? && Wrap(ifetchStalls) != 0 && r.look.Target? && !Hits(icache, r.look.pc) then
      OverlapCredit(icache.config, d.config, DataStall(d, r.effect))
    else 0
  }

  /** The lookahead at the next instruction leaves instruction memory. */
  predicate LookaheadThrows(ifetchStalls: nat, d: Cache, r: Retired) {
    r.effect.Store? && DataStall(d, r.effect) != 0 && Wrap(ifetchStalls) != 0 && r.look.Unavailable?
  }

  lemma {:induction false} GrantShape(h: FetchOutcome, d: Cache, r: Retired)
    requires DataRequest(r.effect).Some?
    ensures var q := DataRequest(r.effect).value;
            var g := GrantOverlap(h, Accessed(d, q), q, r.look);
            var credit := CreditDue(h.icache, h.stalls, d, r);
            && (g.None? <==> LookaheadThrows(h.stalls, d, r))
            && (g.Some? ==> g.value == MemoryOutcome(h.fetch, h.icache,
                  WithHits(Accessed(d, q).cache, if credit > 0 then 1 else 0),
                  h.stalls + DataStall(d, r.effect), credit))
  {
    hide Accessed, Hits;
    var q := DataRequest(r.effect).value;
    if Accessed(d, q).result.stallCycles != 0 {
      ReplayAfterMiss(d, q);
    }
  }

  /** The data phase of an instruction whose own access does not stall. */
  lemma {:induction false} QuietMemoryShape(f: FetchState, i: Cache, d: Cache, r: Retired)
    requires DataStall(d, r.effect) == 0
    ensures MemoryPhase(f, i, d, r) == Some(MemoryOutcome(f, i, DataOutcome(d, r.effect).cache, 0, 0))
  {
    hide Accessed, Hits;
  }

  lemma {:induction false} StallingMemoryShape(f: FetchState, i: Cache, d: Cache, r: Retired)
    requires i.config.enabled && r.pc % 4 == 0
    requires f.front % 4 == 0 && f.front <= r.pc + 12
    requires DataStall(d, r.effect) != 0
    ensures var stall, qs, m := DataStall(d, r.effect), Sequential(f.front, r.pc + 16), MemoryPhase(f, i, d, r);
            var icache := WithHits(Feed(i, qs), stall);
            var credit := CreditDue(icache, Stalls(i, qs), d, r);
            && (m.None? <==> LookaheadThrows(Stalls(i, qs), d, r))
            && (m.Some? ==>
                 && m.value.fetch.front == r.pc + 16
                 && m.value.fetch.stats ==
                      f.stats.(issued := f.stats.issued + |qs| + stall, lookaheads := f.stats.lookaheads + Ahead(|qs|),
                               replays := f.stats.replays + stall)
                 && m.value.icache == icache
                 && m.value.dcache == WithHits(DataOutcome(d, r.effect).cache, if credit > 0 then 1 else 0)
                 && m.value.stalls == Stalls(i, qs) + stall && m.value.credit == credit)
            && |qs| == (r.pc + 16 - f.front) / 4 && Hits(Feed(i, qs), r.pc + 12)
  {
    hide Accessed, Hits, GrantOverlap, Stalled, CreditDue, LookaheadThrows, Feed, Sequential;
    var stall := DataStall(d, r.effect);
    StalledShape(f, i, r.pc, stall);
    GrantShape(Stalled(f, i, r.pc, stall).value, d, r);
  }

  // ----------------------------------------------------------- whole steps

  /** Fetching the instruction itself: at most one new word. */
  lemma {:induction false} FirstFetch(t: Timing, r: Retired)
    requires t.icache.config.enabled && Window(t, r.pc)
    ensures var qs, e := Sequential(t.fetch.front, r.pc + 4), Ensured(t.fetch, t.icache, r.pc);
            && e.Some?
            && e.value.fetch.front == Max(t.fetch.front, r.pc + 4)
            && e.value.fetch.stats == t.fetch.stats.(issued := t.fetch.stats.issued + |qs|)
            && e.value.icache == Feed(t.icache, qs) && e.value.stalls == Stalls(t.icache, qs)
            && Hits(e.value.icache, e.value.fetch.front - 4)
  {
    if t.fetch.front <= r.pc + 4 {
      hide Accessed, Hits;
      EnsuredAligned(t.fetch, t.icache, r.pc);
    } else {
      hide Accessed, Hits;
      assert Sequential(t.fetch.front, r.pc + 1) == [];
    }
  }

  /** The stalls of the words fetched while the data access waits. */
  function LateStalls(t: Timing, r: Retired): nat {
    Stalls(Feed(t.icache, Sequential(t.fetch.front, r.pc + 4)), Sequential(Max(t.fetch.front, r.pc + 4), r.pc + 16))
  }

  /** What a step adds to each part of the timing state. */
  ghost predicate StepLaw(t: Timing, r: Retired, s: TimedStep) {
    var stall, credit := DataStall(t.dcache, r.effect), s.next.overlap - t.overlap;
    && s.held == s.next.icache.stats.stallCycles - t.icache.stats.stallCycles + stall - credit
    && s.next.icache.config == t.icache.config && credit >= 0
    && s.next.replays == t.replays + (if credit > 0 then 1 else 0)
    && s.next.dcache == WithHits(DataOutcome(t.dcache, r.effect).cache, if credit > 0 then 1 else 0)
    && RetireOutcome(s.next.pipe, s.retired) == Retire(AddStalls(t.pipe, Wrap(s.held)), r.insn, Taken(r))
  }

  /** How the front end counts the requests of a step: its new words and its replays;
      as lookaheads the words that are not yet the last of a run-ahead, and the
      drain's replays; as wrong path what a redirect fetched behind its own word. */
  function CountedFetches(t: Timing, r: Retired): FetchStats {
    var s, own := t.fetch.stats, |Sequential(t.fetch.front, r.pc + 4)|;
    var rest: int, holds := |Demand(t, r)| - own, HoldReplays(t, r);
    FetchStats(s.issued + |Demand(t, r)| + holds,
               s.replays + holds,
               s.lookaheads + (if rest > 0 then rest - 1 else 0) + (if r.effect.Halt? then 2 else 0),
               s.redirects + (if Redirects(r.effect) then 1 else 0),
               s.wrongPath + (if Redirects(r.effect) && rest > 0 then rest else 0))
  }

  /** With the instruction cache on, which words a step fetches. */
  ghost predicate FetchLaw(t: Timing, r: Retired, t': Timing) {
    var demand, end := Demand(t, r), Max(t.fetch.front, Reach(r, DataStall(t.dcache, r.effect)));
    && t'.icache == WithHits(Feed(t.icache, demand), HoldReplays(t, r))
    && t'.fetch.front == (if Redirects(r.effect) then r.effect.target else end)
    && t'.fetch.stats == CountedFetches(t, r)
    && |demand| == (end - t.fetch.front) / 4
    && (!Redirects(r.effect) ==> Hits(t'.icache, t'.fetch.front - 4))
    && t'.overlap - t.overlap == CreditDue(t'.icache, LateStalls(t, r), t.dcache, r)
  }

  /** The stall cycles a cache took on between two states. */
  function Gained(before: Cache, after: Cache): int {
    after.stats.stallCycles - before.stats.stallCycles
  }

  /** The three phases make up the step, and if each accounts for the stalls it
      returns, so does the step. */
  lemma {:induction false} PhasesMakeStep(t: Timing, r: Retired, e: FetchOutcome, m: MemoryOutcome, d: FetchOutcome)
    requires Ensured(t.fetch, t.icache, r.pc) == Some(e)
    requires MemoryPhase(e.fetch, e.icache, t.dcache, r) == Some(m)
    requires RedirectPhase(m.fetch, m.icache, r) == Some(d)
    requires d.icache.config == t.icache.config
    requires e.stalls == Gained(t.icache, e.icache) && d.stalls == Gained(m.icache, d.icache)
    requires m.stalls == Gained(e.icache, m.icache) + DataStall(t.dcache, r.effect)
    requires m.dcache == WithHits(DataOutcome(t.dcache, r.effect).cache, if m.credit > 0 then 1 else 0)
    ensures var s := TimeStep(t, r);
            && s.Some? && StepLaw(t, r, s.value)
            && s.value.next.fetch == d.fetch && s.value.next.icache == d.icache
            && s.value.next.overlap - t.overlap == m.credit
  {
    hide Accessed, Ensured, MemoryPhase, RedirectPhase, Retire, DataStall, DataOutcome, WithHits;
  }

  lemma {:induction false} StallingStep(t: Timing, r: Retired)
    requires t.icache.config.enabled && Window(t, r.pc)
    requires DataStall(t.dcache, r.effect) != 0
    ensures TimeStep(t, r).None? <==> LookaheadThrows(LateStalls(t, r), t.dcache, r)
    ensures TimeStep(t, r).Some? ==> StepLaw(t, r, TimeStep(t, r).value) && FetchLaw(t, r, TimeStep(t, r).value.next)
  {
    hide Accessed, Ensured, MemoryPhase, CreditDue, LookaheadThrows, Retire, Feed, StepLaw, FetchLaw, Hits;
    FirstFetch(t, r);
    var e := Ensured(t.fetch, t.icache, r.pc).value;
    StallingMemoryShape(e.fetch, e.icache, t.dcache, r);
    var m := MemoryPhase(e.fetch, e.icache, t.dcache, r);
    if m.Some? {
      var d := FetchOutcome(m.value.fetch, m.value.icache, 0);
      PhasesMakeStep(t, r, e, m.value, d);
      StallingFetch(t, r, e, m.value, TimeStep(t, r).value.next);
    }
  }

  lemma {:induction false} StallingFetch(t: Timing, r: Retired, e: FetchOutcome, m: MemoryOutcome, t': Timing)
    requires t.icache.config.enabled && Window(t, r.pc) && DataRequest(r.effect).Some?
    requires DataStall(t.dcache, r.effect) != 0
    requires Ensured(t.fetch, t.icache, r.pc) == Some(e) && MemoryPhase(e.fetch, e.icache, t.dcache, r) == Some(m)
    requires t'.fetch == m.fetch && t'.icache == m.icache && t'.overlap - t.overlap == m.credit
    ensures FetchLaw(t, r, t')
  {
    hide Accessed, Ensured, MemoryPhase, CreditDue, LookaheadThrows, Feed, Sequential, Hits, DataStall;
    FirstFetch(t, r);
    StallingMemoryShape(e.fetch, e.icache, t.dcache, r);
    SequentialFrom(t, r, r.pc + 16);
    HitsWithHits(Feed(t.icache, Demand(t, r)), HoldReplays(t, r), r.pc + 12);
  }

  lemma HitsWithHits(c: Cache, n: nat, addr: word)
    ensures Hits(WithHits(c, n), addr) == Hits(c, addr)
  {
  }

  /** The run of words a step fetches, as its two parts. */
  lemma {:induction false} SequentialFrom(t: Timing, r: Retired, end: nat)
    requires Window(t, r.pc) && r.pc + 12 <= end <= r.pc + 16 && end % 4 == 0
    ensures var front := t.fetch.front;
            var own, late := Sequential(front, r.pc + 4), Sequential(Max(front, r.pc + 4), end);
            && Feed(Feed(t.icache, own), late) == Feed(t.icache, Sequential(front, end))
            && |own| + |late| == |Sequential(front, end)| == (end - front) / 4
  {
    hide Feed, Hits;
    var front, mid := t.fetch.front, Max(t.fetch.front, r.pc + 4);
    assert Sequential(front, r.pc + 4) == Sequential(front, mid);
    hide Sequential;
    assert mid % 4 == 0;
    FeedSequential(t.icache, front, mid, end);
    SequentialThrough(front, end - 4);
  }

  /** A step without a data stall runs its memory phase without effect. */
  lemma {:induction false} QuietStep(t: Timing, r: Retired)
    requires DataStall(t.dcache, r.effect) == 0
    ensures var e := Ensured(t.fetch, t.icache, r.pc);
            e.Some? ==> (MemoryPhase(e.value.fetch, e.value.icache, t.dcache, r) ==
                         Some(MemoryOutcome(e.value.fetch, e.value.icache, DataOutcome(t.dcache, r.effect).cache,
                                            0, 0)))
    ensures forall icache, n :: CreditDue(icache, n, t.dcache, r) == 0
    ensures !LookaheadThrows(LateStalls(t, r), t.dcache, r)
  {
    hide Accessed, Hits, Ensured, MemoryPhase;
    var e := Ensured(t.fetch, t.icache, r.pc);
    if e.Some? {
      QuietMemoryShape(e.value.fetch, e.value.icache, t.dcache, r);
    }
  }

  lemma {:induction false} RedirectingStep(t: Timing, r: Retired)
    requires t.icache.config.enabled && Window(t, r.pc) && Redirects(r.effect)
    ensures TimeStep(t, r).Some? && StepLaw(t, r, TimeStep(t, r).value) && FetchLaw(t, r, TimeStep(t, r).value.next)
  {
    hide Accessed, Ensured, MemoryPhase, CreditDue, LookaheadThrows, Retire, Feed, Redirected, TimeStep, StepLaw;
    hide Sequential, Hits, FetchLaw;
    QuietStep(t, r);
    FirstFetch(t, r);
    var e := Ensured(t.fetch, t.icache, r.pc).value;
    RedirectedShape(e.fetch, e.icache, r.pc, r.effect.target);
    var m := MemoryPhase(e.fetch, e.icache, t.dcache, r).value;
    var d := Redirected(e.fetch, e.icache, r.pc, 8, r.effect.target).value;
    PhasesMakeStep(t, r, e, m, d);
    RedirectingFetch(t, r, e, d, TimeStep(t, r).value.next);
  }

  lemma {:induction false} RedirectingFetch(t: Timing, r: Retired, e: FetchOutcome, d: FetchOutcome, t': Timing)
    requires t.icache.config.enabled && Window(t, r.pc) && Redirects(r.effect)
    requires Ensured(t.fetch, t.icache, r.pc) == Some(e)
    requires Redirected(e.fetch, e.icache, r.pc, 8, r.effect.target) == Some(d)
    requires t'.fetch == d.fetch && t'.icache == d.icache && t'.overlap == t.overlap
    ensures FetchLaw(t, r, t')
  {
    hide Accessed, Ensured, Feed, Redirected, Sequential, Hits, LateStalls;
    FirstFetch(t, r);
    RedirectedShape(e.fetch, e.icache, r.pc, r.effect.target);
    SequentialFrom(t, r, r.pc + 12);
  }

  lemma {:induction false} HaltingStep(t: Timing, r: Retired)
    requires t.icache.config.enabled && Window(t, r.pc) && r.effect.Halt?
    ensures TimeStep(t, r).Some? && StepLaw(t, r, TimeStep(t, r).value) && FetchLaw(t, r, TimeStep(t, r).value.next)
  {
    hide Accessed, Ensured, MemoryPhase, CreditDue, LookaheadThrows, Retire, Feed, Drained, TimeStep, StepLaw;
    hide Sequential, Hits, FetchLaw;
    QuietStep(t, r);
    FirstFetch(t, r);
    var e := Ensured(t.fetch, t.icache, r.pc).value;
    DrainedShape(e.fetch, e.icache, r.pc);
    var m := MemoryPhase(e.fetch, e.icache, t.dcache, r).value;
    var d := Drained(e.fetch, e.icache, r.pc).value;
    PhasesMakeStep(t, r, e, m, d);
    HaltingFetch(t, r, e, d, TimeStep(t, r).value.next);
  }

  lemma {:induction false} HaltingFetch(t: Timing, r: Retired, e: FetchOutcome, d: FetchOutcome, t': Timing)
    requires t.icache.config.enabled && Window(t, r.pc) && r.effect.Halt?
    requires Ensured(t.fetch, t.icache, r.pc) == Some(e) && Drained(e.fetch, e.icache, r.pc) == Some(d)
    requires t'.fetch == d.fetch && t'.icache == d.icache && t'.overlap == t.overlap
    ensures FetchLaw(t, r, t')
  {
    hide Accessed, Ensured, Feed, Drained, Sequential, Hits, LateStalls;
    FirstFetch(t, r);
    DrainedShape(e.fetch, e.icache, r.pc);
    SequentialFrom(t, r, r.pc + 12);
    HitsWithHits(Feed(t.icache, Demand(t, r)), SYSTEM_HOLD_HITS, r.pc + 8);
  }

  lemma {:induction false} PlainStep(t: Timing, r: Retired)
    requires t.icache.config.enabled && Window(t, r.pc)
    requires DataStall(t.dcache, r.effect) == 0 && !Redirects(r.effect) && !r.effect.Halt?
    ensures TimeStep(t, r).Some? && StepLaw(t, r, TimeStep(t, r).value) && FetchLaw(t, r, TimeStep(t, r).value.next)
  {
    hide Accessed, Ensured, MemoryPhase, CreditDue, LookaheadThrows, Retire, Feed, TimeStep, StepLaw, Hits;
    QuietStep(t, r);
    FirstFetch(t, r);
    var e := Ensured(t.fetch, t.icache, r.pc).value;
    var m := MemoryPhase(e.fetch, e.icache, t.dcache, r).value;
    PhasesMakeStep(t, r, e, m, FetchOutcome(e.fetch, e.icache, 0));
    HitsWithHits(e.icache, 0, e.fetch.front - 4);
  }

  /** With the instruction cache off no fetch is requested, nothing overlaps and
      nothing throws. */
  lemma {:induction false} UncachedStep(t: Timing, r: Retired)
    requires !t.icache.config.enabled
    ensures TimeStep(t, r).Some? && StepLaw(t, r, TimeStep(t, r).value)
    ensures TimeStep(t, r).value.next.icache == t.icache && TimeStep(t, r).value.next.overlap == t.overlap
  {
    hide Accessed, Retire;
  }

  /** Every step in an orderly window is lawful, and throws only when a store's
      lookahead leaves instruction memory. */
  lemma {:induction false} StepIsLawful(t: Timing, r: Retired)
    requires t.icache.config.enabled ==> Window(t, r.pc)
    ensures TimeStep(t, r).None? <==> t.icache.config.enabled && LookaheadThrows(LateStalls(t, r), t.dcache, r)
    ensures TimeStep(t, r).Some? ==> StepLaw(t, r, TimeStep(t, r).value)
    ensures TimeStep(t, r).Some? && t.icache.config.enabled ==> FetchLaw(t, r, TimeStep(t, r).value.next)
    ensures TimeStep(t, r).Some? && !t.icache.config.enabled ==>
              TimeStep(t, r).value.next.icache == t.icache && TimeStep(t, r).value.next.overlap == t.overlap
  {
    hide TimeStep, StepLaw, FetchLaw, Window;
    if !t.icache.config.enabled {
      UncachedStep(t, r);
    } else if DataStall(t.dcache, r.effect) != 0 {
      StallingStep(t, r);
    } else {
      QuietStep(t, r);
      if Redirects(r.effect) {
        RedirectingStep(t, r);
      } else if r.effect.Halt? {
        HaltingStep(t, r);
      } else {
        PlainStep(t, r);
      }
    }
  }

  lemma {:induction false} NextWindow(t: Timing, r: Retired, t': Timing)
    requires Window(t, r.pc) && FetchLaw(t, r, t') && NextPc(r.pc, r.effect) % 4 == 0
    ensures Window(t', NextPc(r.pc, r.effect))
  {
    hide Feed, CreditDue, Hits, Sequential, LateStalls, DataStall, Demand, HoldReplays, WithHits, CountedFetches;
    ReachIsAhead(r, DataStall(t.dcache, r.effect));
    hide Reach;
  }
}
