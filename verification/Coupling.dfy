/** The timing half of one step: how the front end, the two caches and the
    pipeline model are driven by one retired instruction, including the credit
    for overlapping cache waits. */
module Coupling {
  import opened Words
  import opened Isa
  import opened CacheModel
  import opened FetchStream
  import opened PipelineTiming

  datatype Timing = Timing(fetch: FetchState, icache: Cache, dcache: Cache, pipe: PipelineState,
                           overlap: nat, replays: nat)

  function ColdTiming(icache: CacheConfig, dcache: CacheConfig, pc: word): Timing
    requires icache.Indexable() && dcache.Indexable()
  {
    Timing(Restarted(pc), Cold(icache), Cold(dcache), EmptyPipeline(CALIBRATED), 0, 0)
  }

  function DataRequest(e: Effect): Option<Request> {
    match e
    case Load(_, _, addr) => Some(Request(addr, false))
    case Store(addr, _) => Some(Request(addr, true))
    case _ => None
  }

  /** The cycles of an instruction-cache wait that the rest of a store's
      data-cache wait hides. */
  function OverlapCredit(icache: CacheConfig, dcache: CacheConfig, stall: word): word {
    if !icache.enabled || !dcache.enabled || stall <= 1 then 0
    else if stall - 1 < CleanMissPenalty(icache) then stall - 1
    else CleanMissPenalty(icache)
  }

  datatype MemoryOutcome = MemoryOutcome(fetch: FetchState, icache: Cache, dcache: Cache, stalls: nat, credit: word)

  /** Grants the overlap credit of a store and replays the store, once its own
      access `a` and the front end's reaction `h` are known.  None is a throw:
      the lookahead left the image, or the replay did not hit. */
  function GrantOverlap(h: FetchOutcome, a: AccessOutcome, q: Request, look: Lookahead): Option<MemoryOutcome> {
    var plain := MemoryOutcome(h.fetch, h.icache, a.cache, h.stalls + a.result.stallCycles, 0);
    if !q.isWrite || a.result.stallCycles == 0 || Wrap(h.stalls) == 0 then Some(plain)
    else
      match look
      case Unavailable => None
      case NoRedirect => Some(plain)
      case Target(pc) =>
        var credit := OverlapCredit(h.icache.config, a.cache.config, a.result.stallCycles);
        var replay := Accessed(a.cache, q);
        if Hits(h.icache, pc) || credit == 0 then Some(plain)
        else if !replay.result.hit || replay.result.stallCycles != 0 then None
        else Some(plain.(dcache := replay.cache, credit := credit))
  }

  function MemoryPhase(f: FetchState, i: Cache, d: Cache, r: Retired): Option<MemoryOutcome> {
    match DataRequest(r.effect)
    case None => Some(MemoryOutcome(f, i, d, 0, 0))
    case Some(q) =>
      var a := Accessed(d, q);
      var h :- Stalled(f, i, r.pc, a.result.stallCycles);
      GrantOverlap(h, a, q, r.look)
  }

  function RedirectPhase(f: FetchState, i: Cache, r: Retired): Option<FetchOutcome> {
    match r.effect
    case Branch(true, target) => Redirected(f, i, r.pc, BRANCH_WRONG_PATH, target)
    case Jump(_, _, target) => Redirected(f, i, r.pc, JUMP_WRONG_PATH, target)
    case Halt => Drained(f, i, r.pc)
    case _ => Some(FetchOutcome(f, i, 0))
  }

  predicate Taken(r: Retired) {
    r.effect.Branch? && r.effect.taken
  }

  /** The cycles a step holds the pipeline for, before 32-bit reduction. */
  function HeldCycles(e: FetchOutcome, m: MemoryOutcome, d: FetchOutcome): int {
    e.stalls + m.stalls - m.credit + d.stalls
  }

  datatype TimedStep = TimedStep(next: Timing, held: int, retired: RetireResult)

  function TimeStep(t: Timing, r: Retired): Option<TimedStep> {
    var e :- Ensured(t.fetch, t.icache, r.pc);
    var m :- MemoryPhase(e.fetch, e.icache, t.dcache, r);
    var d :- RedirectPhase(m.fetch, m.icache, r);
    var held := HeldCycles(e, m, d);
    var p := Retire(AddStalls(t.pipe, Wrap(held)), r.insn, Taken(r));
    Some(TimedStep(Timing(d.fetch, d.icache, m.dcache, p.state, t.overlap + m.credit,
                          t.replays + if m.credit > 0 then 1 else 0), held, p.result))
  }
}
