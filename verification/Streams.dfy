/** Runs of the timing models over a stream of retired instructions, and the
    invariants that make every step of such a run lawful. */
module Streams {
  import opened Words
  import opened Isa
  import opened CacheModel
  import opened FetchStream
  import opened PipelineTiming
  import opened Coupling
  import opened StepShape

  /** The cache configurations and the reset address of a run. */
  datatype SetupData = SetupData(icache: CacheConfig, dcache: CacheConfig, pc: word)

  type Setup = s: SetupData | s.icache.Indexable() && s.dcache.Indexable()
    witness SetupData(CacheConfig(false, 1, 4, 0, false), CacheConfig(false, 1, 4, 0, false), 0)

  /** The latencies are small enough that no 32-bit stall sum of a step wraps:
      four instruction fetches and one dirty data miss fit together. */
  predicate Fits(s: Setup) {
    (if s.icache.enabled then 4 * (s.icache.memoryLatency + 4) else 0)
    + (if s.dcache.enabled then 2 * s.dcache.memoryLatency + 7 else 0) < 0x1_0000_0000
  }

  predicate DecodedAlike(r: Retired) {
    var d, e := Decode(r.insn), r.effect;
    d.isBranch == e.Branch? && d.isJump == e.Jump?
  }

  /** `next` can retire right after `r`. */
  predicate Follows(r: Retired, next: Retired) {
    && next.pc == NextPc(r.pc, r.effect)
    && !r.effect.Halt?
    && (r.effect.Store? ==> r.look == Redirection(next.effect))
  }

  /** What every stream of retired instructions of a program satisfies. */
  ghost predicate ValidStream(pc: word, rs: seq<Retired>) {
    && (rs != [] ==> rs[0].pc == pc)
    && (forall i :: 0 <= i < |rs| ==> rs[i].pc % 4 == 0 && DecodedAlike(rs[i]))
    && (forall i :: 1 <= i < |rs| ==> Follows(rs[i - 1], rs[i]))
  }

  lemma {:induction false} StreamFollows(pc: word, rs: seq<Retired>, i: nat)
    requires ValidStream(pc, rs) && 1 <= i < |rs|
    ensures Follows(rs[i - 1], rs[i])
  {
  }

  function Init<T>(s: seq<T>): seq<T>
    requires s != []
  {
    s[..|s| - 1]
  }

  function Last<T>(s: seq<T>): T
    requires s != []
  {
    s[|s| - 1]
  }

  /** The timing state after a stream; None if some step threw. */
  function Timed(s: Setup, rs: seq<Retired>): Option<Timing> {
    if rs == [] then Some(ColdTiming(s.icache, s.dcache, s.pc))
    else
      var t :- Timed(s, Init(rs));
      var step :- TimeStep(t, Last(rs));
      Some(step.next)
  }

  lemma {:induction false} PrefixIsTimed(s: Setup, rs: seq<Retired>, n: nat)
    requires Timed(s, rs).Some? && n <= |rs|
    ensures Timed(s, rs[..n]).Some?
  {
    if n == |rs| {
      assert rs[..n] == rs;
    } else {
      hide TimeStep;
      PrefixIsTimed(s, Init(rs), n);
      assert Init(rs)[..n] == rs[..n];
    }
  }

  function PcAfter(pc: word, rs: seq<Retired>): word {
    if rs == [] then pc else NextPc(Last(rs).pc, Last(rs).effect)
  }

  // ---------------------------------------------------- read-only caches

  ghost predicate NoDirtyLine(c: Cache) {
    forall i :: 0 <= i < |c.lines| ==> !c.lines[i].dirty
  }

  lemma ReadStep(c: Cache, q: Request)
    requires NoDirtyLine(c) && !q.isWrite
    ensures var a := Accessed(c, q);
            && NoDirtyLine(a.cache) && a.cache.stats.writebacks == c.stats.writebacks
            && a.result.stallCycles == (if a.result.miss then CleanMissPenalty(c.config) else 0)
            && a.cache.stats.misses == c.stats.misses + (if a.result.miss then 1 else 0)
  {
  }

  /** A cache that is only read never gets a dirty line, never writes back, and
      stalls one clean penalty a miss. */
  lemma {:induction false} ReadsStayClean(c: Cache, qs: seq<Request>)
    requires NoDirtyLine(c) && forall i :: 0 <= i < |qs| ==> !qs[i].isWrite
    ensures var c', misses := Feed(c, qs), Feed(c, qs).stats.misses - c.stats.misses;
            && NoDirtyLine(c') && c'.stats.writebacks == c.stats.writebacks
            && 0 <= misses <= |qs| && Stalls(c, qs) == misses * CleanMissPenalty(c.config)
  {
    hide Accessed;
    if qs != [] {
      var n := |qs| - 1;
      var before := Feed(c, qs[..n]);
      ReadsStayClean(c, qs[..n]);
      ReadStep(before, qs[n]);
      StallsAccumulate(before, qs[n]);
      ScaledSum(before.stats.misses - c.stats.misses, Feed(c, qs).stats.misses - before.stats.misses,
              CleanMissPenalty(c.config));
    }
  }

  lemma {:induction false} SequentialReads(from: nat, end: nat)
    requires end <= 0x1_0000_0000
    ensures forall i :: 0 <= i < |Sequential(from, end)| ==> !Sequential(from, end)[i].isWrite
    decreases end - from
  {
    if from < end {
      SequentialReads(from + 4, end);
    }
  }

  // ------------------------------------------------------ the invariant

  /** The configurations never change, the instruction cache stays clean, and
      the fetch window is in order wherever execution can continue. */
  ghost predicate Orderly(s: Setup, t: Timing, pc: word) {
    && t.icache.config == s.icache && t.dcache.config == s.dcache && t.pipe.config == CALIBRATED
    && NoDirtyLine(t.icache)
    && (t.icache.config.enabled && pc % 4 == 0 ==> Window(t, pc))
  }

  lemma OrderlyStart(s: Setup)
    ensures Orderly(s, ColdTiming(s.icache, s.dcache, s.pc), s.pc)
  {
  }

  lemma {:induction false} OrderlyStep(s: Setup, t: Timing, r: Retired, step: TimedStep)
    requires Orderly(s, t, r.pc) && r.pc % 4 == 0 && TimeStep(t, r) == Some(step)
    ensures Orderly(s, step.next, NextPc(r.pc, r.effect))
  {
    hide Feed, TimeStep, Accessed, Window, Retire;
    StepIsLawful(t, r);
    PipeConfigKept(t.pipe, Wrap(step.held), r);
    if t.icache.config.enabled {
      SequentialReads(t.fetch.front, Reach(r, DataStall(t.dcache, r.effect)));
      ReadsStayClean(t.icache, Demand(t, r));
      if NextPc(r.pc, r.effect) % 4 == 0 {
        NextWindow(t, r, step.next);
      }
    }
  }

  lemma {:induction false} PipeConfigKept(p: PipelineState, held: nat, r: Retired)
    ensures Retire(AddStalls(p, held), r.insn, Taken(r)).state.config == p.config
  {
  }

  lemma {:induction false} RunsAreOrderly(s: Setup, rs: seq<Retired>)
    requires ValidStream(s.pc, rs) && Timed(s, rs).Some?
    ensures Orderly(s, Timed(s, rs).value, PcAfter(s.pc, rs))
  {
    hide Orderly, TimeStep, DecodedAlike;
    if rs == [] {
      OrderlyStart(s);
    } else {
      RunsAreOrderly(s, Init(rs));
      assert Last(rs).pc == PcAfter(s.pc, Init(rs));
      var t := Timed(s, Init(rs)).value;
      OrderlyStep(s, t, Last(rs), TimeStep(t, Last(rs)).value);
    }
  }

  /** The last step of a run: it is lawful, and so was the run before it. */
  lemma {:induction false} LastStep(s: Setup, rs: seq<Retired>) returns (t: Timing, step: TimedStep)
    requires rs != [] && ValidStream(s.pc, rs) && Timed(s, rs).Some?
    ensures ValidStream(s.pc, Init(rs)) && Timed(s, Init(rs)) == Some(t)
    ensures TimeStep(t, Last(rs)) == Some(step) && step.next == Timed(s, rs).value
    ensures Orderly(s, t, Last(rs).pc) && PcAfter(s.pc, Init(rs)) == Last(rs).pc
    ensures StepLaw(t, Last(rs), step)
    ensures s.icache.enabled ==> Window(t, Last(rs).pc) && FetchLaw(t, Last(rs), step.next)
    ensures !s.icache.enabled ==> step.next.icache == t.icache && step.next.overlap == t.overlap
  {
    hide TimeStep, DecodedAlike, StepLaw, FetchLaw, Window;
    t := Timed(s, Init(rs)).value;
    step := TimeStep(t, Last(rs)).value;
    RunsAreOrderly(s, Init(rs));
    assert Last(rs).pc == PcAfter(s.pc, Init(rs));
    StepIsLawful(t, Last(rs));
  }

  /** A run over a valid stream throws at its last step or not at all, and only
      there because a store's lookahead left instruction memory: every earlier
      store is followed by an instruction that was fetched. */
  lemma {:induction false} OnlyTheLastStepThrows(s: Setup, rs: seq<Retired>)
    requires ValidStream(s.pc, rs)
    ensures rs != [] ==> Timed(s, Init(rs)).Some?
    ensures Timed(s, rs).None? ==> Last(rs).effect.Store? && Last(rs).look.Unavailable?
  {
    hide TimeStep, Orderly, DecodedAlike;
    if rs != [] {
      OnlyTheLastStepThrows(s, Init(rs));
      if |rs| > 1 {
        assert Follows(Last(Init(rs)), Last(rs));
      }
      var t := Timed(s, Init(rs)).value;
      RunsAreOrderly(s, Init(rs));
      assert Last(rs).pc == PcAfter(s.pc, Init(rs));
      assert t.icache.config.enabled ==> Window(t, Last(rs).pc) by {
        WindowOfOrderly(s, t, Last(rs).pc);
      }
      StepIsLawful(t, Last(rs));
    }
  }

  lemma WindowOfOrderly(s: Setup, t: Timing, pc: word)
    requires Orderly(s, t, pc) && pc % 4 == 0
    ensures t.icache.config.enabled ==> Window(t, pc)
  {
  }
}
