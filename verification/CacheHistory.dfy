/** What a direct-mapped cache says about the stream of requests it was fed:
    residency and dirtiness as properties of the stream, inclusion of a cache
    in every multiple of it, and conservation of dirty lines. */
module CacheHistory {
  import opened Words
  import opened CacheModel

  /** The line that would hold word `w` does hold it. */
  predicate Resident(c: Cache, w: nat) {
    var line := c.lines[w % c.config.lines];
    line.valid && line.tag == w / c.config.lines
  }

  predicate Dirty(c: Cache, w: nat) {
    Resident(c, w) && c.lines[w % c.config.lines].dirty
  }

  /** The word a request touches. */
  function Touched(c: Cache, q: Request): nat {
    WordOf(c.config, q.addr)
  }

  lemma WordIsIndexAndTag(v: nat, w: nat, n: nat)
    requires n > 0 && v / n == w / n && v % n == w % n
    ensures v == w
  {
    assert v == n * (v / n) + v % n;
    assert w == n * (w / n) + w % n;
  }

  /** One access makes its own word resident and evicts at most the word that
      shared the line. */
  lemma ResidentAfter(c: Cache, q: Request, w: nat)
    requires c.config.enabled
    ensures Resident(Accessed(c, q).cache, w) <==>
            w == Touched(c, q) || (Resident(c, w) && w % c.config.lines != Touched(c, q) % c.config.lines)
  {
    var n, v := c.config.lines, Touched(c, q);
    if w % n == v % n && w / n == v / n {
      WordIsIndexAndTag(v, w, n);
    }
  }

  lemma DirtyAfter(c: Cache, q: Request, w: nat)
    requires c.config.enabled
    ensures Dirty(Accessed(c, q).cache, w) <==>
            if w == Touched(c, q) then (q.isWrite && c.config.writeBack) || Dirty(c, w)
            else Dirty(c, w) && w % c.config.lines != Touched(c, q) % c.config.lines
  {
    var n, v := c.config.lines, Touched(c, q);
    if w % n == v % n && w / n == v / n {
      WordIsIndexAndTag(v, w, n);
    }
  }

  // ------------------------------------------------- residency as history

  /** Request `i` touched `w`, and nothing later used its line for another
      word. */
  ghost predicate LastIn(config: CacheConfig, qs: seq<Request>, w: nat, i: nat)
    requires config.Indexable()
  {
    i < |qs| && WordOf(config, qs[i].addr) == w &&
    forall j :: i < j < |qs| ==> WordOf(config, qs[j].addr) % config.lines != w % config.lines
  }

  /** Some write to `w` is followed by no request for another word on its
      line: the word has been written since it was last filled. */
  ghost predicate WrittenSinceFill(config: CacheConfig, qs: seq<Request>, w: nat, i: nat)
    requires config.Indexable()
  {
    i < |qs| && qs[i].isWrite && WordOf(config, qs[i].addr) == w &&
    forall j :: i < j < |qs| ==>
      WordOf(config, qs[j].addr) % config.lines == w % config.lines ==> WordOf(config, qs[j].addr) == w
  }

  /** A cache fed from cold holds a word exactly when the most recent request
      on that word's line was for that very word. */
  lemma {:induction false} ResidentIffLastOnLine(config: CacheConfig, qs: seq<Request>, w: nat)
    requires config.Indexable() && config.enabled
    ensures Resident(Feed(Cold(config), qs), w) <==> exists i: nat :: LastIn(config, qs, w, i)
  {
    if qs != [] {
      var n := |qs| - 1;
      var before, q := qs[..n], qs[n];
      ResidentIffLastOnLine(config, before, w);
      ResidentAfter(Feed(Cold(config), before), q, w);
      var v := WordOf(config, q.addr);
      if v == w {
        assert LastIn(config, qs, w, n);
      } else if v % config.lines == w % config.lines {
        forall i: nat ensures !LastIn(config, qs, w, i) {
          if i < n {
            assert qs[n] == q;
          }
        }
      } else {
        forall i: nat ensures LastIn(config, qs, w, i) <==> LastIn(config, before, w, i) {
          assert forall j :: 0 <= j < n ==> before[j] == qs[j];
        }
      }
    }
  }

  /** With write-back on, a line is dirty exactly when its word has been
      written since its last fill; with write-back off nothing is dirty. */
  lemma {:induction false} DirtyIffWrittenSinceFill(config: CacheConfig, qs: seq<Request>, w: nat)
    requires config.Indexable() && config.enabled
    ensures Dirty(Feed(Cold(config), qs), w) <==>
            config.writeBack && exists i: nat :: WrittenSinceFill(config, qs, w, i)
  {
    if qs != [] {
      var n := |qs| - 1;
      var before, q := qs[..n], qs[n];
      DirtyIffWrittenSinceFill(config, before, w);
      DirtyAfter(Feed(Cold(config), before), q, w);
      var v := WordOf(config, q.addr);
      if v == w && q.isWrite {
        assert WrittenSinceFill(config, qs, w, n);
      } else if v != w && v % config.lines == w % config.lines {
        forall i: nat ensures !WrittenSinceFill(config, qs, w, i) {
          if i < n {
            assert qs[n] == q;
          }
        }
      } else {
        forall i: nat ensures WrittenSinceFill(config, qs, w, i) <==> WrittenSinceFill(config, before, w, i) {
          assert forall j :: 0 <= j < n ==> before[j] == qs[j];
        }
      }
    }
  }

  /** The history form of the access rule: the next request hits exactly when
      the most recent request on its line was for the same word, and the
      side-effect-free probe answers the same question. */
  lemma HitIffLastOnLine(config: CacheConfig, qs: seq<Request>, q: Request)
    requires config.Indexable() && config.enabled
    ensures var c := Feed(Cold(config), qs);
            && Accessed(c, q).result.hit == Hits(c, q.addr)
            && Accessed(c, q).result.miss == !Hits(c, q.addr)
            && (Hits(c, q.addr) <==> exists i: nat :: LastIn(config, qs, WordOf(config, q.addr), i))
  {
    ResidentIffLastOnLine(config, qs, WordOf(config, q.addr));
  }

  // -------------------------------------------------------------- inclusion

  /** Everything the first cache holds, the second holds too. */
  ghost predicate Included(small: Cache, large: Cache) {
    forall w: nat :: Resident(small, w) ==> Resident(large, w)
  }

  lemma IndexOfMultiple(w: nat, n: nat, k: nat)
    requires n > 0 && k > 0 && n * k > 0
    ensures w % (n * k) % n == w % n
  {
    var q, r := w / (n * k), w % (n * k);
    assert w == (n * k) * q + r;
    assert (n * k) * q == n * (k * q);
    assert w == n * (k * q + r / n) + r % n by {
      assert r == n * (r / n) + r % n;
      assert n * (k * q + r / n) == n * (k * q) + n * (r / n);
    }
    QuotientIsUnique(w, n, k * q + r / n, r % n);
  }

  /** `large` is `small` with its line count multiplied, all else equal. */
  predicate Multiplied(small: CacheConfig, large: CacheConfig, k: nat) {
    small.lines > 0 && k > 0 && large == small.(lines := small.lines * k)
  }

  lemma InclusionStep(small: Cache, large: Cache, k: nat, q: Request)
    requires Multiplied(small.config, large.config, k) && small.config.enabled
    requires Included(small, large)
    ensures Included(Accessed(small, q).cache, Accessed(large, q).cache)
    ensures Accessed(small, q).result.hit ==> Accessed(large, q).result.hit
  {
    var n, v := small.config.lines, Touched(small, q);
    assert Accessed(small, q).result.hit == Resident(small, v);
    assert Accessed(large, q).result.hit == Resident(large, v);
    forall w: nat | Resident(Accessed(small, q).cache, w) ensures Resident(Accessed(large, q).cache, w) {
      ResidentAfter(small, q, w);
      ResidentAfter(large, q, w);
      IndexOfMultiple(w, n, k);
      IndexOfMultiple(v, n, k);
    }
  }

  /** On one request stream the larger cache, started including the smaller,
      still includes it at the end and has missed no more often. */
  lemma {:induction false} InclusionOverStream(small: Cache, large: Cache, k: nat, qs: seq<Request>)
    requires Multiplied(small.config, large.config, k) && small.config.enabled
    requires Included(small, large)
    ensures Included(Feed(small, qs), Feed(large, qs))
    ensures Feed(large, qs).stats.misses - large.stats.misses <= Feed(small, qs).stats.misses - small.stats.misses
  {
    if qs != [] {
      var n := |qs| - 1;
      InclusionOverStream(small, large, k, qs[..n]);
      InclusionStep(Feed(small, qs[..n]), Feed(large, qs[..n]), k, qs[n]);
    }
  }

  lemma ColdIsIncluded(config: CacheConfig, large: Cache)
    requires config.Indexable()
    ensures Included(Cold(config), large)
  {
  }

  // ----------------------------------------------------- dirty conservation

  function DirtyLines(lines: seq<Line>): set<nat> {
    set i: nat | i < |lines| && lines[i].dirty
  }

  /** Without write-back nothing is ever written back or made dirty. */
  lemma WriteThroughStaysClean(c: Cache, q: Request)
    requires !c.config.writeBack
    ensures var a := Accessed(c, q);
            && !a.result.writeback && a.cache.stats.writebacks == c.stats.writebacks
            && DirtyLines(a.cache.lines) <= DirtyLines(c.lines)
  {
  }

  lemma DirtyLinesAfterUpdate(lines: seq<Line>, i: nat, line: Line)
    requires i < |lines|
    ensures |DirtyLines(lines[i := line])| ==
            |DirtyLines(lines)| - (if lines[i].dirty then 1 else 0) + (if line.dirty then 1 else 0)
  {
    var rest := DirtyLines(lines) - {i};
    assert DirtyLines(lines) == rest + (if lines[i].dirty then {i} else {});
    assert DirtyLines(lines[i := line]) == rest + (if line.dirty then {i} else {});
  }

  /** The request turns a clean line dirty or fills a line dirty. */
  predicate Dirties(c: Cache, q: Request) {
    c.config.enabled && q.isWrite && c.config.writeBack && !Dirty(c, Touched(c, q))
  }

  function DirtyingRequests(c: Cache, qs: seq<Request>): nat {
    if qs == [] then 0
    else DirtyingRequests(c, qs[..|qs| - 1]) +
         (if Dirties(Feed(c, qs[..|qs| - 1]), qs[|qs| - 1]) then 1 else 0)
  }

  /** Only filled lines are dirty, and only under write-back. */
  ghost predicate DirtyLinesAreFilled(c: Cache) {
    forall i: nat :: i < |c.lines| && c.lines[i].dirty ==> c.lines[i].valid && c.config.writeBack
  }

  lemma DirtyStep(c: Cache, q: Request)
    requires DirtyLinesAreFilled(c)
    ensures var after := Accessed(c, q).cache;
            && DirtyLinesAreFilled(after)
            && (if Dirties(c, q) then 1 else 0) ==
                 (after.stats.writebacks - c.stats.writebacks) + (|DirtyLines(after.lines)| - |DirtyLines(c.lines)|)
  {
    var after := Accessed(c, q).cache;
    if c.config.enabled {
      var i := IndexOf(c.config, q.addr);
      DirtyLinesAfterUpdate(c.lines, i, after.lines[i]);
      assert after.lines == c.lines[i := after.lines[i]];
    }
  }

  /** Every dirtying is accounted for: from a cold start, the requests that
      dirtied a line are exactly the writebacks done plus the lines still
      dirty.  Write transactions are writebacks, read transactions are misses,
      and each writeback belongs to a miss. */
  lemma {:induction false} DirtyConservation(config: CacheConfig, qs: seq<Request>)
    requires config.Indexable()
    ensures var c := Feed(Cold(config), qs);
            && DirtyLinesAreFilled(c)
            && DirtyingRequests(Cold(config), qs) == c.stats.writebacks + |DirtyLines(c.lines)|
            && c.stats.writeTransactions == c.stats.writebacks <= c.stats.misses == c.stats.readTransactions
            && c.stats.hits + c.stats.misses == c.stats.accesses
            && c.stats.accesses == (if config.enabled then |qs| else 0)
  {
    if qs == [] {
      assert DirtyLines(Cold(config).lines) == {};
    } else {
      var n := |qs| - 1;
      DirtyConservation(config, qs[..n]);
      DirtyStep(Feed(Cold(config), qs[..n]), qs[n]);
    }
  }

  // ------------------------------------------------- inclusion of dirtiness

  /** Every word that is dirty in the first cache is dirty in the second. */
  ghost predicate DirtyIncluded(small: Cache, large: Cache) {
    forall w: nat :: Dirty(small, w) ==> Dirty(large, w)
  }

  lemma DirtyInclusionStep(small: Cache, large: Cache, k: nat, q: Request)
    requires Multiplied(small.config, large.config, k) && small.config.enabled
    requires DirtyIncluded(small, large)
    ensures DirtyIncluded(Accessed(small, q).cache, Accessed(large, q).cache)
    ensures Dirties(large, q) ==> Dirties(small, q)
  {
    hide Accessed, Dirty;
    var n, v := small.config.lines, Touched(small, q);
    forall w: nat | Dirty(Accessed(small, q).cache, w) ensures Dirty(Accessed(large, q).cache, w) {
      DirtyAfter(small, q, w);
      DirtyAfter(large, q, w);
      IndexOfMultiple(w, n, k);
      IndexOfMultiple(v, n, k);
    }
  }

  /** On one request stream the larger cache dirties a line no more often. */
  lemma {:induction false} DirtyInclusionOverStream(small: Cache, large: Cache, k: nat, qs: seq<Request>)
    requires Multiplied(small.config, large.config, k) && small.config.enabled
    requires DirtyIncluded(small, large)
    ensures DirtyIncluded(Feed(small, qs), Feed(large, qs))
    ensures DirtyingRequests(large, qs) <= DirtyingRequests(small, qs)
  {
    if qs != [] {
      hide Accessed, DirtyIncluded, Dirties;
      var n := |qs| - 1;
      DirtyInclusionOverStream(small, large, k, qs[..n]);
      DirtyInclusionStep(Feed(small, qs[..n]), Feed(large, qs[..n]), k, qs[n]);
    }
  }

  lemma {:induction false} ResiduesAreFewer(s: set<nat>, residues: set<nat>, n: nat)
    requires n > 0 && forall i :: i in residues ==> exists j :: j in s && j % n == i
    ensures |residues| <= |s|
  {
    if s == {} {
      assert residues == {};
    } else {
      var j :| j in s;
      forall i | i in residues - {j % n} ensures exists m :: m in s - {j} && m % n == i {
        var m :| m in s && m % n == i;
        assert m in s - {j};
      }
      ResiduesAreFewer(s - {j}, residues - {j % n}, n);
    }
  }

  lemma WordOfLine(n: nat, tag: nat, i: nat)
    requires i < n
    ensures (tag * n + i) % n == i && (tag * n + i) / n == tag
  {
    QuotientIsUnique(tag * n + i, n, tag, i);
  }

  /** So it has at least as many dirty lines: each dirty word of the smaller one
      has a line there whose index lies over its own. */
  lemma DirtyLinesAreMore(small: Cache, large: Cache, k: nat)
    requires Multiplied(small.config, large.config, k)
    requires DirtyIncluded(small, large) && DirtyLinesAreFilled(small)
    ensures |DirtyLines(small.lines)| <= |DirtyLines(large.lines)|
  {
    var n := small.config.lines;
    forall i | i in DirtyLines(small.lines) ensures exists j :: j in DirtyLines(large.lines) && j % n == i {
      var w := small.lines[i].tag * n + i;
      WordOfLine(n, small.lines[i].tag, i);
      assert Dirty(small, w);
      IndexOfMultiple(w, n, k);
      assert w % (n * k) in DirtyLines(large.lines);
    }
    ResiduesAreFewer(DirtyLines(large.lines), DirtyLines(small.lines), n);
  }

  /** From cold, on one request stream, the cache with a multiple of the lines
      misses no more often and writes back no more often. */
  lemma LargerCacheMovesLess(config: CacheConfig, large: CacheConfig, k: nat, qs: seq<Request>)
    requires Multiplied(config, large, k) && config.Indexable() && config.enabled
    ensures Feed(Cold(large), qs).stats.misses <= Feed(Cold(config), qs).stats.misses
    ensures Feed(Cold(large), qs).stats.writebacks <= Feed(Cold(config), qs).stats.writebacks
  {
    hide Feed, Included, DirtyLines;
    ColdIsIncluded(config, Cold(large));
    InclusionOverStream(Cold(config), Cold(large), k, qs);
    DirtyInclusionOverStream(Cold(config), Cold(large), k, qs);
    DirtyConservation(config, qs);
    DirtyConservation(large, qs);
    DirtyLinesAreMore(Feed(Cold(config), qs), Feed(Cold(large), qs), k);
  }
}
