/** What the fetch stream does while its window is in order: each operation is
    one straight run of new requests followed by replays of a resident word. */
module FrontEnd {
  import opened Words
  import opened Isa
  import opened CacheModel
  import opened FetchStream

  /** The cache after `n` more hits that change nothing but the counters. */
  function WithHits(c: Cache, n: nat): Cache {
    c.(stats := c.stats.(accesses := c.stats.accesses + n, hits := c.stats.hits + n))
  }

  lemma HitsAfterAccess(c: Cache, q: Request)
    ensures Hits(Accessed(c, q).cache, q.addr)
  {
  }

  /** Repeating a resident read hits every time and moves no line. */
  lemma {:induction false} ReplaysHit(c: Cache, addr: word, n: nat)
    requires c.config.enabled && Hits(c, addr)
    ensures Feed(c, Repeated(addr, n)) == WithHits(c, n)
  {
    if n > 0 {
      ReplaysHit(c, addr, n - 1);
      assert Repeated(addr, n)[..n - 1] == Repeated(addr, n - 1);
      var c' := WithHits(c, n - 1);
      var i := IndexOf(c.config, addr);
      assert c'.lines[i := c'.lines[i]] == c'.lines;
    }
  }

  lemma ReplaysCostNothing(c: Cache, addr: word, n: nat)
    requires c.config.enabled && Hits(c, addr)
    ensures Feed(c, Repeated(addr, n)) == WithHits(c, n) && Stalls(c, Repeated(addr, n)) == 0
  {
    ReplaysHit(c, addr, n);
  }

  lemma {:induction false} SequentialSplit(from: nat, mid: nat, end: nat)
    requires from <= mid <= end <= 0x1_0000_0000
    requires from % 4 == 0 && mid % 4 == 0
    ensures Sequential(from, end) == Sequential(from, mid) + Sequential(mid, end)
    decreases mid - from
  {
    if from < mid {
      SequentialSplit(from + 4, mid, end);
    }
  }

  /** For an aligned front, stopping after the target word and stopping before
      the next one is the same. */
  lemma {:induction false} SequentialThrough(from: nat, target: nat)
    requires from <= target + 4 <= 0x1_0000_0000
    requires from % 4 == 0 && target % 4 == 0
    ensures Sequential(from, target + 1) == Sequential(from, target + 4)
    ensures |Sequential(from, target + 4)| == (target + 4 - from) / 4
    decreases target + 4 - from
  {
    if from <= target {
      SequentialThrough(from + 4, target);
    }
  }

  /** How many of `n` words fetched in one go are not yet the one asked for. */
  function Ahead(n: nat): nat {
    if n == 0 then 0 else n - 1
  }

  lemma {:induction false} LastIsTarget(from: nat, target: nat)
    requires from <= target + 4 <= 0x1_0000_0000
    requires from % 4 == 0 && target % 4 == 0
    ensures Lookaheads(Sequential(from, target + 4), target) == Ahead(|Sequential(from, target + 4)|)
  {
    var qs := Sequential(from, target + 4);
    SequentialThrough(from, target);
    if qs != [] {
      SequentialAt(from, target + 4, |qs| - 1);
    }
  }

  lemma EnsuredAligned(f: FetchState, c: Cache, target: word)
    requires c.config.enabled && target < 0xffff_fffc
    requires f.front % 4 == 0 && target % 4 == 0 && f.front <= target + 4
    ensures var qs, r := Sequential(f.front, target + 4), Ensured(f, c, target);
            && r.Some?
            && r.value.fetch.front == target + 4
            && r.value.fetch.stats ==
                 f.stats.(issued := f.stats.issued + |qs|, lookaheads := f.stats.lookaheads + Ahead(|qs|))
            && r.value.icache == Feed(c, qs) && r.value.stalls == Stalls(c, qs)
            && |qs| == (target + 4 - f.front) / 4
            && (f.front <= target ==> Hits(Feed(c, qs), target))
  {
    SequentialThrough(f.front, target);
    LastIsTarget(f.front, target);
    if f.front <= target {
      var qs := Sequential(f.front, target + 4);
      SequentialAt(f.front, target + 4, |qs| - 1);
      HitsAfterAccess(Feed(c, qs[..|qs| - 1]), qs[|qs| - 1]);
    }
  }

  /** A data-cache stall runs the front to pc+16 and then replays the word at
      pc+12 once per stall cycle, always hitting. */
  lemma StalledShape(f: FetchState, c: Cache, pc: codeAddr, stall: word)
    requires c.config.enabled && stall > 0 && pc % 4 == 0
    requires f.front % 4 == 0 && f.front <= pc + 12
    ensures var qs, r := Sequential(f.front, pc + 16), Stalled(f, c, pc, stall);
            && r.Some?
            && r.value.fetch.front == pc + 16
            && r.value.fetch.stats ==
                 f.stats.(issued := f.stats.issued + |qs| + stall, lookaheads := f.stats.lookaheads + Ahead(|qs|),
                          replays := f.stats.replays + stall)
            && r.value.icache == WithHits(Feed(c, qs), stall) && r.value.stalls == Stalls(c, qs)
            && |qs| == (pc + 16 - f.front) / 4 && Hits(Feed(c, qs), pc + 12)
  {
    hide Accessed, Hits;
    EnsuredAligned(f, c, pc + 12);
    ReplaysCostNothing(Feed(c, Sequential(f.front, pc + 16)), pc + 12, stall);
  }

  /** Draining after a system instruction runs the front to pc+12 and replays
      the word at pc+8 twice, hitting because it is the newest word fetched. */
  lemma DrainedShape(f: FetchState, c: Cache, pc: codeAddr)
    requires c.config.enabled && pc % 4 == 0
    requires f.front % 4 == 0 && 4 <= f.front <= pc + 12 && Hits(c, f.front - 4)
    ensures var qs, r := Sequential(f.front, pc + 12), Drained(f, c, pc);
            && r.Some?
            && r.value.fetch.front == pc + 12
            && r.value.fetch.stats ==
                 f.stats.(issued := f.stats.issued + |qs| + 2, lookaheads := f.stats.lookaheads + Ahead(|qs|) + 2,
                          replays := f.stats.replays + 2)
            && r.value.icache == WithHits(Feed(c, qs), SYSTEM_HOLD_HITS) && r.value.stalls == Stalls(c, qs)
            && |qs| == (pc + 12 - f.front) / 4 && Hits(Feed(c, qs), pc + 8)
  {
    hide Accessed, Hits;
    EnsuredAligned(f, c, pc + 8);
    ReplaysCostNothing(Feed(c, Sequential(f.front, pc + 12)), pc + 8, SYSTEM_HOLD_HITS);
  }

  /** A redirect runs the wrong path through pc+8 and restarts at the target. */
  lemma RedirectedShape(f: FetchState, c: Cache, pc: codeAddr, target: word)
    requires c.config.enabled && pc % 4 == 0
    requires f.front % 4 == 0 && f.front <= pc + 12
    ensures var qs, r := Sequential(f.front, pc + 12), Redirected(f, c, pc, 8, target);
            && r.Some?
            && r.value.fetch.front == target
            && r.value.fetch.stats ==
                 f.stats.(issued := f.stats.issued + |qs|, lookaheads := f.stats.lookaheads + Ahead(|qs|),
                          wrongPath := f.stats.wrongPath + |qs|, redirects := f.stats.redirects + 1)
            && r.value.icache == Feed(c, qs) && r.value.stalls == Stalls(c, qs)
            && |qs| == (pc + 12 - f.front) / 4
  {
    hide Accessed, Hits;
    EnsuredAligned(f, c, pc + 8);
  }

  lemma FeedSequential(c: Cache, from: nat, mid: nat, end: nat)
    requires from <= mid <= end <= 0x1_0000_0000
    requires from % 4 == 0 && mid % 4 == 0
    ensures Feed(Feed(c, Sequential(from, mid)), Sequential(mid, end)) == Feed(c, Sequential(from, end))
    ensures |Sequential(from, mid)| + |Sequential(mid, end)| == |Sequential(from, end)|
  {
    SequentialSplit(from, mid, end);
    FeedConcat(c, Sequential(from, mid), Sequential(mid, end));
  }
}
