/** The instruction-fetch stream: a fetch pointer that runs ahead of
    retirement, the requests it issues to the instruction cache, and the class
    that owns it. */
module FetchStream {
  import opened Words
  import opened Isa
  import opened CacheModel

  const DCACHE_HOLD_AHEAD: nat := 12
  const SYSTEM_LOOKAHEAD: nat := 8
  const SYSTEM_HOLD_HITS: nat := 2
  const BRANCH_WRONG_PATH: nat := 8
  const JUMP_WRONG_PATH: nat := 8

  datatype FetchStats = FetchStats(issued: nat, replays: nat, lookaheads: nat, redirects: nat, wrongPath: nat)

  const NO_FETCHES := FetchStats(0, 0, 0, 0, 0)

  /** `front` is the next sequential address to request. */
  datatype FetchState = FetchState(front: word, stats: FetchStats)

  function Restarted(pc: word): FetchState {
    FetchState(pc, NO_FETCHES)
  }

  datatype FetchOutcome = FetchOutcome(fetch: FetchState, icache: Cache, stalls: nat)

  /** Word requests from `from` up to but excluding `end`. */
  function Sequential(from: nat, end: nat): (r: seq<Request>)
    requires end <= 0x1_0000_0000
    ensures from >= end ==> r == []
    ensures from < end ==> end <= from + 4 * |r| < end + 4
    decreases end - from
  {
    if from >= end then [] else [Request(from, false)] + Sequential(from + 4, end)
  }

  lemma {:induction false} SequentialAt(from: nat, end: nat, k: nat)
    requires end <= 0x1_0000_0000 && k < |Sequential(from, end)|
    ensures from + 4 * k < end && Sequential(from, end)[k] == Request(from + 4 * k, false)
    decreases k
  {
    if k > 0 {
      SequentialAt(from + 4, end, k - 1);
    }
  }

  /** The stall cycles a stream of requests costs.  The sums of this module's
      functions are exact; the methods keep theirs in 32 bits. */
  function Stalls(c: Cache, qs: seq<Request>): nat {
    Feed(c, qs).stats.stallCycles - c.stats.stallCycles
  }

  lemma StallsOne(c: Cache, qs: seq<Request>, k: nat)
    requires k < |qs|
    ensures Feed(c, qs[..k + 1]) == Accessed(Feed(c, qs[..k]), qs[k]).cache
    ensures Stalls(c, qs[..k + 1]) == Stalls(c, qs[..k]) + Accessed(Feed(c, qs[..k]), qs[k]).result.stallCycles
  {
    assert qs[..k + 1] == qs[..k] + [qs[k]];
    FeedOne(c, qs[..k], qs[k]);
    StallsAccumulate(Feed(c, qs[..k]), qs[k]);
  }

  /** How many requests of a run-ahead stream are not for its final target. */
  function Lookaheads(qs: seq<Request>, target: word): nat {
    if qs != [] && qs[|qs| - 1].addr == target then |qs| - 1 else |qs|
  }

  function Ensured(f: FetchState, c: Cache, target: word): Option<FetchOutcome>
    requires c.config.enabled ==> target != 0xffff_fffc
  {
    if !c.config.enabled then Some(FetchOutcome(f, c, 0))
    else if target % 4 != 0 then None
    else
      var qs := Sequential(f.front, target + 1);
      var stats := f.stats.(issued := f.stats.issued + |qs|,
                            lookaheads := f.stats.lookaheads + Lookaheads(qs, target));
      Some(FetchOutcome(FetchState(f.front + 4 * |qs|, stats), Feed(c, qs), Stalls(c, qs)))
  }

  function Repeated(addr: word, n: nat): (r: seq<Request>)
    ensures |r| == n && forall k :: 0 <= k < n ==> r[k] == Request(addr, false)
  {
    seq(n, _ => Request(addr, false))
  }

  function Replayed(f: FetchState, c: Cache, addr: word, n: nat, lookahead: bool): FetchOutcome {
    var qs := Repeated(addr, n);
    var stats := f.stats.(issued := f.stats.issued + n, replays := f.stats.replays + n,
                          lookaheads := f.stats.lookaheads + if lookahead then n else 0);
    FetchOutcome(f.(stats := stats), Feed(c, qs), Stalls(c, qs))
  }

  function Stalled(f: FetchState, c: Cache, pc: codeAddr, stall: word): Option<FetchOutcome> {
    if !c.config.enabled || stall == 0 then Some(FetchOutcome(f, c, 0))
    else
      var held := pc + DCACHE_HOLD_AHEAD;
      var e :- Ensured(f, c, held);
      var p := Replayed(e.fetch, e.icache, held, stall, false);
      Some(p.(stalls := e.stalls + p.stalls))
  }

  /** A taken branch or a jump: `ahead` bytes of wrong path, then a restart. */
  function Redirected(f: FetchState, c: Cache, pc: codeAddr, ahead: nat, target: word): Option<FetchOutcome>
    requires ahead <= 8
  {
    if !c.config.enabled then
      Some(FetchOutcome(FetchState(target, f.stats.(redirects := f.stats.redirects + 1)), c, 0))
    else
      var e :- Ensured(f, c, pc + ahead);
      var s := e.fetch.stats;
      var stats := s.(wrongPath := s.wrongPath + s.issued - f.stats.issued, redirects := s.redirects + 1);
      Some(e.(fetch := FetchState(target, stats)))
  }

  function Drained(f: FetchState, c: Cache, pc: codeAddr): Option<FetchOutcome> {
    if !c.config.enabled then Some(FetchOutcome(f, c, 0))
    else
      var last := pc + SYSTEM_LOOKAHEAD;
      var e :- Ensured(f, c, last);
      var p := Replayed(e.fetch, e.icache, last, SYSTEM_HOLD_HITS, true);
      Some(p.(stalls := e.stalls + p.stalls))
  }

  // ------------------------------------------------------------ the class

  class IFetchStreamModel {
    var stats: FetchStats
    var nextSequentialPc: word

    ghost function State(): FetchState
      reads this
    {
      FetchState(nextSequentialPc, stats)
    }

    /** The objects are in the specified states, and `stalls` is the specified
        sum in 32 bits. */
    ghost predicate Reached(spec: FetchOutcome, stalls: word, icache: DirectMappedCacheModel)
      requires icache.Valid()
      reads this, icache, icache.lines
    {
      State() == spec.fetch && icache.State() == spec.icache && stalls == Wrap(spec.stalls)
    }

    constructor ()
      ensures State() == Restarted(0)
    {
      stats := NO_FETCHES;
      nextSequentialPc := 0;
    }

    method Reset(pc: word)
      modifies this
      ensures State() == Restarted(pc)
    {
      stats := NO_FETCHES;
      nextSequentialPc := pc;
    }

    method Issue(pc: word, icache: DirectMappedCacheModel, replay: bool, lookahead: bool) returns (stall: word)
      requires icache.Valid()
      modifies this`stats, icache, icache.lines
      ensures icache.Valid()
      ensures var a := Accessed(old(icache.State()), Request(pc, false));
              icache.State() == a.cache && stall == a.result.stallCycles
      ensures stats == if !icache.config.enabled then old(stats)
                       else old(stats).(issued := old(stats).issued + 1,
                                        replays := old(stats).replays + (if replay then 1 else 0),
                                        lookaheads := old(stats).lookaheads + (if lookahead then 1 else 0))
    {
      var result := icache.Access(pc, false);
      stall := result.stallCycles;
      if icache.config.enabled {
        stats := stats.(issued := stats.issued + 1);
        if replay {
          stats := stats.(replays := stats.replays + 1);
        }
        if lookahead {
          stats := stats.(lookaheads := stats.lookaheads + 1);
        }
      }
    }

    /** The catch-up loop: requests every word from the front to the target. */
    method CatchUp(target: word, icache: DirectMappedCacheModel) returns (stalls: word)
      requires icache.Valid() && target < 0xffff_fffc
      requires icache.config.enabled && target % 4 == 0
      modifies this, icache, icache.lines
      ensures icache.Valid()
      ensures var spec := Ensured(old(State()), old(icache.State()), target);
              spec.Some? && Reached(spec.value, stalls, icache)
    {
      stalls := Wrap(0);
      hide Accessed, Wrap;
      ghost var c0, qs, k := icache.State(), Sequential(nextSequentialPc, target + 1), 0;
      while nextSequentialPc <= target
        invariant icache.Valid()
        invariant k <= |qs| && nextSequentialPc == old(nextSequentialPc) + 4 * k
        invariant stats == old(stats).(issued := old(stats).issued + k,
                                       lookaheads := old(stats).lookaheads + if k < |qs| then k else
                                         Lookaheads(qs, target))
        invariant icache.State() == Feed(c0, qs[..k])
        invariant stalls == Wrap(Stalls(c0, qs[..k]))
      {
        var lookahead := nextSequentialPc != target;
        SequentialAt(old(nextSequentialPc), target + 1, k);
        StallsOne(c0, qs, k);
        var stall := Issue(nextSequentialPc, icache, false, lookahead);
        WrapAdd(Stalls(c0, qs[..k]), stall);
        stalls := Wrap(stalls + stall);
        nextSequentialPc := nextSequentialPc + 4;
        k := k + 1;
      }
      assert qs[..k] == qs;
    }

    /** Requests every word up to the target that has not been requested yet.
        None is the throw on a misaligned target. */
    method EnsureThrough(target: word, icache: DirectMappedCacheModel) returns (r: Option<word>)
      requires icache.Valid() && (icache.config.enabled ==> target != 0xffff_fffc)
      modifies this, icache, icache.lines
      ensures icache.Valid()
      ensures var spec := Ensured(old(State()), old(icache.State()), target);
              if r.None? then spec.None? else spec.Some? && Reached(spec.value, r.value, icache)
    {
      if !icache.config.enabled {
        return Some(0);
      }
      if target % 4 != 0 {
        return None;
      }
      var stalls := CatchUp(target, icache);
      return Some(stalls);
    }

    /** Requests a held address `n` times over, adding to a running stall sum. */
    method Hold(addr: word, n: nat, icache: DirectMappedCacheModel, lookahead: bool, start: word)
      returns (stalls: word)
      requires icache.Valid() && icache.config.enabled
      modifies this`stats, icache, icache.lines
      ensures icache.Valid()
      ensures var spec := Replayed(old(State()), old(icache.State()), addr, n, lookahead);
              Reached(spec.(stalls := start + spec.stalls), stalls, icache)
    {
      stalls := start;
      hide Accessed;
      ghost var c0, qs := icache.State(), Repeated(addr, n);
      for i := 0 to n
        invariant icache.Valid()
        invariant stats == old(stats).(issued := old(stats).issued + i, replays := old(stats).replays + i,
                                       lookaheads := old(stats).lookaheads + if lookahead then i else 0)
        invariant icache.State() == Feed(c0, qs[..i]) && stalls == Wrap(start + Stalls(c0, qs[..i]))
      {
        StallsOne(c0, qs, i);
        var stall := Issue(addr, icache, true, lookahead);
        WrapAdd(start + Stalls(c0, qs[..i]), stall);
        stalls := Wrap(stalls + stall);
      }
      assert qs[..n] == qs;
    }

    method OnDcacheStall(pc: codeAddr, stall: word, icache: DirectMappedCacheModel) returns (r: Option<word>)
      requires icache.Valid()
      modifies this, icache, icache.lines
      ensures icache.Valid()
      ensures var spec := Stalled(old(State()), old(icache.State()), pc, stall);
              if r.None? then spec.None? else spec.Some? && Reached(spec.value, r.value, icache)
    {
      if !icache.config.enabled || stall == 0 {
        return Some(0);
      }
      var held := pc + DCACHE_HOLD_AHEAD;
      var reach :- EnsureThrough(held, icache);
      WrapAdd(Ensured(old(State()), old(icache.State()), held).value.stalls,
              Stalls(icache.State(), Repeated(held, stall)));
      var stalls := Hold(held, stall, icache, false, reach);
      return Some(stalls);
    }

    method OnTakenBranch(pc: codeAddr, target: word, icache: DirectMappedCacheModel) returns (r: Option<word>)
      requires icache.Valid()
      modifies this, icache, icache.lines
      ensures icache.Valid()
      ensures var spec := Redirected(old(State()), old(icache.State()), pc, BRANCH_WRONG_PATH, target);
              if r.None? then spec.None? else spec.Some? && Reached(spec.value, r.value, icache)
    {
      if !icache.config.enabled {
        nextSequentialPc := target;
        stats := stats.(redirects := stats.redirects + 1);
        return Some(0);
      }
      var before := stats.issued;
      var stalls :- EnsureThrough(pc + BRANCH_WRONG_PATH, icache);
      stats := stats.(wrongPath := stats.wrongPath + stats.issued - before, redirects := stats.redirects + 1);
      nextSequentialPc := target;
      return Some(stalls);
    }

    method OnJumpRedirect(pc: codeAddr, target: word, icache: DirectMappedCacheModel) returns (r: Option<word>)
      requires icache.Valid()
      modifies this, icache, icache.lines
      ensures icache.Valid()
      ensures var spec := Redirected(old(State()), old(icache.State()), pc, JUMP_WRONG_PATH, target);
              if r.None? then spec.None? else spec.Some? && Reached(spec.value, r.value, icache)
    {
      if !icache.config.enabled {
        nextSequentialPc := target;
        stats := stats.(redirects := stats.redirects + 1);
        return Some(0);
      }
      var before := stats.issued;
      var stalls :- EnsureThrough(pc + JUMP_WRONG_PATH, icache);
      stats := stats.(wrongPath := stats.wrongPath + stats.issued - before, redirects := stats.redirects + 1);
      nextSequentialPc := target;
      return Some(stalls);
    }

    method OnSystemDrain(pc: codeAddr, icache: DirectMappedCacheModel) returns (r: Option<word>)
      requires icache.Valid()
      modifies this, icache, icache.lines
      ensures icache.Valid()
      ensures var spec := Drained(old(State()), old(icache.State()), pc);
              if r.None? then spec.None? else spec.Some? && Reached(spec.value, r.value, icache)
    {
      if !icache.config.enabled {
        return Some(0);
      }
      var last := pc + SYSTEM_LOOKAHEAD;
      var reach :- EnsureThrough(last, icache);
      WrapAdd(Ensured(old(State()), old(icache.State()), last).value.stalls,
              Stalls(icache.State(), Repeated(last, SYSTEM_HOLD_HITS)));
      var stalls := Hold(last, SYSTEM_HOLD_HITS, icache, true, reach);
      return Some(stalls);
    }
  }
}
