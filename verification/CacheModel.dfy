/** The direct-mapped cache timing model: its pure transition function, the
    class that updates the lines in place, and the acceptance test for its
    configuration. */
module CacheModel {
  import opened Words

  // ------------------------------------------------------- configuration

  /** The bits two numbers share. */
  function CommonBits(a: nat, b: nat): (r: nat) {
    if a == 0 || b == 0 then 0 else 2 * CommonBits(a / 2, b / 2) + (a % 2) * (b % 2)
  }

  /** The bit trick of the constructor's line-count check. */
  predicate IsPowerOfTwo(value: nat) {
    value != 0 && CommonBits(value, value - 1) == 0
  }

  lemma {:induction false} CommonBitsWithSelf(n: nat)
    ensures CommonBits(n, n) == n
  {
    if n > 0 {
      var half, bit := n / 2, n % 2;
      assert n == 2 * half + bit && bit * bit == bit;
      CommonBitsWithSelf(half);
    }
  }

  lemma HalvingPowerOfTwo(n: nat)
    requires n > 1
    ensures IsPowerOfTwo(n) <==> n % 2 == 0 && IsPowerOfTwo(n / 2)
  {
    if n % 2 == 1 {
      CommonBitsWithSelf(n / 2);
      assert (n - 1) / 2 == n / 2;
    } else {
      assert (n - 1) / 2 == n / 2 - 1 && (n - 1) % 2 == 1;
    }
  }

  lemma {:induction false} Pow2IsAccepted(k: nat)
    ensures IsPowerOfTwo(Pow2(k))
  {
    if k > 0 {
      Pow2IsAccepted(k - 1);
      HalvingPowerOfTwo(Pow2(k));
    }
  }

  lemma {:induction false} AcceptedIsPow2(n: nat) returns (k: nat)
    requires IsPowerOfTwo(n)
    ensures n == Pow2(k)
  {
    if n == 1 {
      k := 0;
    } else {
      HalvingPowerOfTwo(n);
      k := AcceptedIsPow2(n / 2);
      k := k + 1;
    }
  }

  /** The trick accepts exactly the powers of two. */
  lemma PowersOfTwoAreAccepted(n: nat)
    ensures IsPowerOfTwo(n) <==> exists k: nat :: n == Pow2(k)
  {
    if IsPowerOfTwo(n) {
      var k := AcceptedIsPow2(n);
    }
    forall k: nat | n == Pow2(k) ensures IsPowerOfTwo(n) {
      Pow2IsAccepted(k);
    }
  }

  lemma {:induction false} Pow2Adds(i: nat, j: nat)
    ensures Pow2(i + j) == Pow2(i) * Pow2(j)
  {
    if i > 0 {
      Pow2Adds(i - 1, j);
    }
  }

  lemma {:induction false} Pow2Grows(i: nat, j: nat)
    ensures i < j ==> Pow2(i) < Pow2(j)
  {
    if i + 1 < j {
      Pow2Grows(i, j - 1);
    }
  }

  /** Of two accepted line counts the larger is a multiple of the smaller. */
  lemma AcceptedCountsDivide(n: nat, m: nat) returns (k: nat)
    requires IsPowerOfTwo(n) && IsPowerOfTwo(m) && n <= m
    ensures k > 0 && m == n * k
  {
    var i := AcceptedIsPow2(n);
    var j := AcceptedIsPow2(m);
    Pow2Grows(j, i);
    Pow2Adds(i, j - i);
    k := Pow2(j - i);
  }

  datatype CacheConfig = CacheConfig(enabled: bool, lines: nat, lineBytes: nat, memoryLatency: word, writeBack: bool)
  {
    /** What the constructor checks, throwing otherwise. */
    predicate Accepted() {
      IsPowerOfTwo(lines) && lineBytes == 4
    }

    /** What the indexing relies on.  Every accepted configuration has it. */
    predicate Indexable() {
      lines > 0 && lineBytes == 4
    }
  }

  // --------------------------------------------------------------- state

  datatype Line = Line(valid: bool, dirty: bool, tag: nat)

  datatype CacheStats = CacheStats(accesses: nat, hits: nat, misses: nat, writebacks: nat,
                                   readTransactions: nat, writeTransactions: nat, stallCycles: nat)

  datatype CacheState = CacheState(config: CacheConfig, lines: seq<Line>, stats: CacheStats)

  type Cache = c: CacheState | |c.lines| == c.config.lines && c.config.Indexable()
    witness CacheState(CacheConfig(false, 1, 4, 0, false), [Line(false, false, 0)], NO_STATS)

  const NO_STATS := CacheStats(0, 0, 0, 0, 0, 0, 0)
  const EMPTY_LINE := Line(false, false, 0)

  function Cold(config: CacheConfig): Cache
    requires config.Indexable()
  {
    CacheState(config, seq(config.lines, _ => EMPTY_LINE), NO_STATS)
  }

  // -------------------------------------------------------------- access

  datatype Request = Request(addr: word, isWrite: bool)

  datatype AccessResult = AccessResult(hit: bool, miss: bool, writeback: bool, stallCycles: word)

  datatype AccessOutcome = AccessOutcome(cache: Cache, result: AccessResult)

  function WordOf(config: CacheConfig, addr: word): nat
    requires config.Indexable()
  {
    addr / config.lineBytes
  }

  function IndexOf(config: CacheConfig, addr: word): (i: nat)
    requires config.Indexable()
    ensures i < config.lines
  {
    WordOf(config, addr) % config.lines
  }

  function TagOf(config: CacheConfig, addr: word): nat
    requires config.Indexable()
  {
    WordOf(config, addr) / config.lines
  }

  function CleanMissPenalty(config: CacheConfig): word {
    Wrap(config.memoryLatency + 4)
  }

  function DirtyMissPenalty(config: CacheConfig): word {
    Wrap(2 * config.memoryLatency + 7)
  }

  predicate Hits(c: Cache, addr: word) {
    !c.config.enabled ||
    var line := c.lines[IndexOf(c.config, addr)];
    line.valid && line.tag == TagOf(c.config, addr)
  }

  function Accessed(c: Cache, q: Request): (r: AccessOutcome)
    ensures r.cache.config == c.config
  {
    if !c.config.enabled then AccessOutcome(c, AccessResult(true, false, false, 0))
    else
      var i := IndexOf(c.config, q.addr);
      var line := c.lines[i];
      var s := c.stats.(accesses := c.stats.accesses + 1);
      if line.valid && line.tag == TagOf(c.config, q.addr) then
        var line' := if q.isWrite && c.config.writeBack then line.(dirty := true) else line;
        AccessOutcome(c.(lines := c.lines[i := line'], stats := s.(hits := s.hits + 1)),
                      AccessResult(true, false, false, 0))
      else
        var writeback := line.valid && line.dirty && c.config.writeBack;
        var stall := if writeback then DirtyMissPenalty(c.config) else CleanMissPenalty(c.config);
        var wb := if writeback then 1 else 0;
        var s' := s.(misses := s.misses + 1, writebacks := s.writebacks + wb,
                     writeTransactions := s.writeTransactions + wb,
                     readTransactions := s.readTransactions + 1, stallCycles := s.stallCycles + stall);
        var line' := Line(true, q.isWrite && c.config.writeBack, TagOf(c.config, q.addr));
        AccessOutcome(c.(lines := c.lines[i := line'], stats := s'), AccessResult(false, true, writeback, stall))
  }

  lemma StallsAccumulate(c: Cache, q: Request)
    ensures Accessed(c, q).cache.stats.stallCycles == c.stats.stallCycles + Accessed(c, q).result.stallCycles
  {
  }

  /** The cache after a whole stream of requests, oldest first. */
  function Feed(c: Cache, qs: seq<Request>): (r: Cache)
    ensures r.config == c.config
    ensures r.stats.stallCycles >= c.stats.stallCycles
  {
    if qs == [] then c else Accessed(Feed(c, qs[..|qs| - 1]), qs[|qs| - 1]).cache
  }

  lemma FeedNothing(c: Cache)
    ensures Feed(c, []) == c
  {
  }

  lemma FeedOne(c: Cache, qs: seq<Request>, q: Request)
    ensures Feed(c, qs + [q]) == Accessed(Feed(c, qs), q).cache
  {
    assert (qs + [q])[..|qs|] == qs;
  }

  lemma {:induction false} FeedConcat(c: Cache, a: seq<Request>, b: seq<Request>)
    ensures Feed(c, a + b) == Feed(Feed(c, a), b)
    decreases |b|
  {
    if b == [] {
      assert a + b == a;
    } else {
      var n := |b| - 1;
      FeedConcat(c, a, b[..n]);
      assert a + b == (a + b[..n]) + [b[n]];
      FeedOne(c, a + b[..n], b[n]);
    }
  }

  // ------------------------------------------------------------ the class

  class DirectMappedCacheModel {
    const config: CacheConfig
    const lines: array<Line>
    var stats: CacheStats

    ghost predicate Valid()
      reads this
    {
      lines.Length == config.lines && config.Indexable()
    }

    ghost function State(): Cache
      reads this, lines
      requires Valid()
    {
      CacheState(config, lines[..], stats)
    }

    constructor (config: CacheConfig)
      requires config.Indexable()
      ensures Valid() && fresh(lines)
      ensures this.config == config && State() == Cold(config)
    {
      this.config := config;
      lines := new Line[config.lines](_ => EMPTY_LINE);
      stats := NO_STATS;
    }

    /** The constructor with its two argument checks, which throw. */
    static method Create(config: CacheConfig) returns (r: Option<DirectMappedCacheModel>)
      ensures r.Some? <==> config.Accepted()
      ensures r.Some? ==> fresh(r.value) && fresh(r.value.lines) && r.value.Valid() && r.value.State() == Cold(config)
    {
      if !IsPowerOfTwo(config.lines) || config.lineBytes != 4 {
        return None;
      }
      var c := new DirectMappedCacheModel(config);
      return Some(c);
    }

    method Reset()
      requires Valid()
      modifies this, lines
      ensures Valid() && State() == Cold(config)
    {
      stats := NO_STATS;
      for i := 0 to lines.Length
        invariant Valid() && stats == NO_STATS
        invariant forall j :: 0 <= j < i ==> lines[j] == EMPTY_LINE
      {
        lines[i] := EMPTY_LINE;
      }
      assert lines[..] == Cold(config).lines;
    }

    method WouldHit(addr: word) returns (hit: bool)
      requires Valid()
      ensures hit == Hits(State(), addr)
    {
      if !config.enabled {
        return true;
      }
      var line := lines[IndexOf(config, addr)];
      hit := line.valid && line.tag == TagOf(config, addr);
    }

    method Access(addr: word, isWrite: bool) returns (result: AccessResult)
      requires Valid()
      modifies this, lines
      ensures Valid()
      ensures AccessOutcome(State(), result) == Accessed(old(State()), Request(addr, isWrite))
    {
      if !config.enabled {
        return AccessResult(true, false, false, 0);
      }
      stats := stats.(accesses := stats.accesses + 1);
      var index, tag := IndexOf(config, addr), TagOf(config, addr);
      var line := lines[index];
      if line.valid && line.tag == tag {
        stats := stats.(hits := stats.hits + 1);
        if isWrite && config.writeBack {
          lines[index] := line.(dirty := true);
        }
        assert lines[..] == old(lines[..])[index := lines[index]];
        return AccessResult(true, false, false, 0);
      }
      stats := stats.(misses := stats.misses + 1);
      var writeback, stall := false, CleanMissPenalty(config);
      if line.valid && line.dirty && config.writeBack {
        writeback := true;
        stats := stats.(writebacks := stats.writebacks + 1, writeTransactions := stats.writeTransactions + 1);
        stall := DirtyMissPenalty(config);
      }
      stats := stats.(readTransactions := stats.readTransactions + 1, stallCycles := stats.stallCycles + stall);
      lines[index] := Line(true, isWrite && config.writeBack, tag);
      assert lines[..] == old(lines[..])[index := lines[index]];
      result := AccessResult(false, true, writeback, stall);
    }
  }
}
