/** How far the addresses of a run determine its fetches.  They nearly do: the
    one thing they leave open is whether a step to the next word was a redirect,
    which fetches that word anew. */
module FetchAddresses {
  import opened Words
  import opened Isa
  import opened CacheModel
  import opened FetchStream
  import opened FrontEnd
  import opened Streams
  import opened StreamLaws
  import opened RequestLog

  predicate SameAddresses(rs: seq<Retired>, rs': seq<Retired>) {
    |rs| == |rs'| && forall i :: 0 <= i < |rs| ==> rs[i].pc == rs'[i].pc
  }

  /** The two streams redirect at the same places, among their first `n`. */
  predicate SameRedirects(rs: seq<Retired>, rs': seq<Retired>, n: nat)
    requires n <= |rs| && n <= |rs'|
  {
    forall i :: 0 <= i < n ==> (Redirects(rs[i].effect) <==> Redirects(rs'[i].effect))
  }

  /** No instruction of the stream redirects to the word after it. */
  predicate NoRedirectToNext(rs: seq<Retired>) {
    forall i :: 0 <= i < |rs| && Redirects(rs[i].effect) ==> rs[i].effect.target != rs[i].pc + 4
  }

  lemma {:induction false} PrefixSnoc(rs: seq<Retired>, n: nat)
    requires n < |rs|
    ensures rs[..n + 1] != [] && Init(rs[..n + 1]) == rs[..n] && Last(rs[..n + 1]) == rs[n]
  {
  }

  /** What one instruction, not the last, does to the segments. */
  lemma {:induction false} SegmentStep(pc: word, rs: seq<Retired>, n: nat)
    requires ValidStream(pc, rs) && n + 1 < |rs|
    ensures var start, done := SegmentStart(pc, rs[..n]), SegmentFetches(pc, rs[..n]);
            if Redirects(rs[n].effect) then
              && SegmentStart(pc, rs[..n + 1]) == rs[n + 1].pc
              && SegmentFetches(pc, rs[..n + 1]) == done + Sequential(start, rs[n].pc + 12)
            else
              && SegmentStart(pc, rs[..n + 1]) == start && SegmentFetches(pc, rs[..n + 1]) == done
              && rs[n + 1].pc == rs[n].pc + 4
  {
    hide ValidStream, Sequential;
    PrefixSnoc(rs, n);
    StreamFollows(pc, rs, n + 1);
  }

  lemma {:induction false} SameBefore(rs: seq<Retired>, rs': seq<Retired>, n: nat)
    requires 0 < n <= |rs| == |rs'| && SameRedirects(rs, rs', n)
    ensures SameRedirects(rs, rs', n - 1)
    ensures Redirects(rs[n - 1].effect) <==> Redirects(rs'[n - 1].effect)
  {
  }

  lemma {:induction false} SameSegmentStep(pc: word, rs: seq<Retired>, rs': seq<Retired>, n: nat)
    requires ValidStream(pc, rs) && ValidStream(pc, rs') && SameAddresses(rs, rs') && n + 1 < |rs|
    requires Redirects(rs[n].effect) <==> Redirects(rs'[n].effect)
    requires SegmentStart(pc, rs[..n]) == SegmentStart(pc, rs'[..n])
    requires SegmentFetches(pc, rs[..n]) == SegmentFetches(pc, rs'[..n])
    ensures SegmentStart(pc, rs[..n + 1]) == SegmentStart(pc, rs'[..n + 1])
    ensures SegmentFetches(pc, rs[..n + 1]) == SegmentFetches(pc, rs'[..n + 1])
  {
    hide ValidStream, SegmentStart, SegmentFetches, Sequential, Redirects;
    assert rs[n].pc == rs'[n].pc && rs[n + 1].pc == rs'[n + 1].pc;
    SegmentStep(pc, rs, n);
    SegmentStep(pc, rs', n);
  }

  /** Streams that visit the same addresses and redirect at the same places have
      the same segments. */
  lemma {:induction false} SameSegments(pc: word, rs: seq<Retired>, rs': seq<Retired>, n: nat)
    requires ValidStream(pc, rs) && ValidStream(pc, rs') && SameAddresses(rs, rs')
    requires n < |rs| && SameRedirects(rs, rs', n)
    ensures SegmentStart(pc, rs[..n]) == SegmentStart(pc, rs'[..n])
    ensures SegmentFetches(pc, rs[..n]) == SegmentFetches(pc, rs'[..n])
  {
    if n > 0 {
      hide ValidStream, SegmentStart, SegmentFetches, SameRedirects;
      SameBefore(rs, rs', n);
      SameSegments(pc, rs, rs', n - 1);
      SameSegmentStep(pc, rs, rs', n - 1);
    }
  }

  lemma {:induction false} Aligned(pc: word, rs: seq<Retired>, n: nat)
    requires ValidStream(pc, rs) && n < |rs|
    ensures rs[n].pc % 4 == 0
  {
  }

  lemma {:induction false} SegmentBehind(pc: word, rs: seq<Retired>, n: nat)
    requires ValidStream(pc, rs) && n < |rs|
    ensures SegmentStart(pc, rs[..n]) % 4 == 0 && SegmentStart(pc, rs[..n]) <= rs[n].pc
  {
    hide DecodedAlike, SegmentStart;
    if n > 0 {
      assert Follows(rs[n - 1], rs[n]);
    }
    SegmentIsBehind(pc, rs[..n]);
  }

  lemma SequentialExtends(start: nat, mid: nat, end: nat)
    requires start <= mid <= end <= 0x1_0000_0000 && start % 4 == 0 && mid % 4 == 0
    ensures Sequential(start, mid) <= Sequential(start, end)
  {
    SequentialSplit(start, mid, end);
  }

  /** A halted run starts with the segments before any of its instructions and
      the open segment up to two words past that instruction. */
  lemma {:induction false} FetchesStartWith(pc: word, rs: seq<Retired>, n: nat)
    requires ValidStream(pc, rs) && Halted(rs) && n < |rs|
    ensures SegmentFetches(pc, rs[..n]) + Sequential(SegmentStart(pc, rs[..n]), rs[n].pc + 12) <=
            SegmentFetches(pc, rs)
    decreases |rs| - n
  {
    hide ValidStream, Sequential, SegmentStart;
    if n == |rs| - 1 {
      PrefixSnoc(rs, n);
      assert rs[..n + 1] == rs;
    } else {
      hide SegmentFetches;
      FetchesStartWith(pc, rs, n + 1);
      SegmentStep(pc, rs, n);
      SegmentBehind(pc, rs, n);
      if !Redirects(rs[n].effect) {
        Aligned(pc, rs, n);
        SequentialExtends(SegmentStart(pc, rs[..n]), rs[n].pc + 12, rs[n].pc + 16);
      }
    }
  }

  lemma SequentialNext(start: nat, end: nat)
    requires start <= end && end + 4 <= 0x1_0000_0000 && start % 4 == 0 && end % 4 == 0
    ensures Sequential(start, end + 4) == Sequential(start, end) + [Request(end, false)]
  {
    SequentialSplit(start, end, end + 4);
    assert Sequential(end, end + 4) == [Request(end, false)];
  }

  /** After the common part, a redirect to the next word fetches that word again
      where straight-line execution fetches the one two further on. */
  lemma {:induction false} RedirectShows(pc: word, rs: seq<Retired>, rs': seq<Retired>, k: nat)
    requires ValidStream(pc, rs) && ValidStream(pc, rs') && SameAddresses(rs, rs') && Halted(rs) && Halted(rs')
    requires k < |rs| && SameRedirects(rs, rs', k)
    requires Redirects(rs[k].effect) && !Redirects(rs'[k].effect)
    ensures SegmentFetches(pc, rs) != SegmentFetches(pc, rs')
  {
    hide ValidStream, SegmentStart, SegmentFetches, Sequential;
    assert k + 1 < |rs|;
    SameSegments(pc, rs, rs', k);
    SegmentBehind(pc, rs, k);
    Aligned(pc, rs, k);
    SegmentStep(pc, rs, k);
    SegmentStep(pc, rs', k);
    FetchesStartWith(pc, rs, k + 1);
    FetchesStartWith(pc, rs', k + 1);
    var start, done, next := SegmentStart(pc, rs[..k]), SegmentFetches(pc, rs[..k]), rs[k].pc + 4;
    var common := done + Sequential(start, next + 8);
    SequentialNext(start, next + 8);
    assert Sequential(next, next + 12)[0] == Request(next, false) by {
      SequentialAt(next, next + 12, 0);
    }
    assert (common + Sequential(next, next + 12))[|common|] == Request(next, false);
    assert done + Sequential(start, next + 12) == common + [Request(next + 8, false)];
    assert SegmentFetches(pc, rs)[|common|] == Request(next, false);
    assert SegmentFetches(pc, rs')[|common|] == Request(next + 8, false);
  }

  lemma {:induction false} FirstDifference(rs: seq<Retired>, rs': seq<Retired>, n: nat) returns (k: nat)
    requires n <= |rs| == |rs'| && !SameRedirects(rs, rs', n)
    ensures k < n && SameRedirects(rs, rs', k) && (Redirects(rs[k].effect) <==> !Redirects(rs'[k].effect))
  {
    if SameRedirects(rs, rs', n - 1) {
      k := n - 1;
    } else {
      k := FirstDifference(rs, rs', n - 1);
    }
  }

  lemma {:induction false} SameRedirectsSameFetches(pc: word, rs: seq<Retired>, rs': seq<Retired>)
    requires ValidStream(pc, rs) && ValidStream(pc, rs') && SameAddresses(rs, rs') && Halted(rs) && Halted(rs')
    requires SameRedirects(rs, rs', |rs|)
    ensures SegmentFetches(pc, rs) == SegmentFetches(pc, rs')
  {
    hide ValidStream, SegmentStart, Sequential;
    assert SameRedirects(rs, rs', |rs| - 1);
    SameSegments(pc, rs, rs', |rs| - 1);
  }

  lemma {:induction false} OtherRedirectsOtherFetches(pc: word, rs: seq<Retired>, rs': seq<Retired>)
    requires ValidStream(pc, rs) && ValidStream(pc, rs') && SameAddresses(rs, rs') && Halted(rs) && Halted(rs')
    requires !SameRedirects(rs, rs', |rs|)
    ensures SegmentFetches(pc, rs) != SegmentFetches(pc, rs')
  {
    hide ValidStream, SegmentFetches, SameRedirects;
    var k := FirstDifference(rs, rs', |rs|);
    if Redirects(rs[k].effect) {
      RedirectShows(pc, rs, rs', k);
    } else {
      SameBackwards(rs, rs', k);
      RedirectShows(pc, rs', rs, k);
    }
  }

  /** Two halted runs over the same addresses fetch the same words exactly when
      they redirect at the same places. */
  lemma {:induction false} AddressesAndRedirectsDecide(pc: word, rs: seq<Retired>, rs': seq<Retired>)
    requires ValidStream(pc, rs) && ValidStream(pc, rs') && SameAddresses(rs, rs') && Halted(rs) && Halted(rs')
    ensures SegmentFetches(pc, rs) == SegmentFetches(pc, rs') <==> SameRedirects(rs, rs', |rs|)
  {
    hide ValidStream, SegmentStart, SegmentFetches, SameRedirects;
    if SameRedirects(rs, rs', |rs|) {
      SameRedirectsSameFetches(pc, rs, rs');
    } else {
      OtherRedirectsOtherFetches(pc, rs, rs');
    }
  }

  lemma {:induction false} SameBackwards(rs: seq<Retired>, rs': seq<Retired>, n: nat)
    requires SameAddresses(rs, rs') && n <= |rs| && SameRedirects(rs, rs', n)
    ensures SameAddresses(rs', rs) && SameRedirects(rs', rs, n)
  {
  }

  /** Where nothing redirects to the next word, the addresses show the redirects:
      they are the places where the address does not move on by four. */
  lemma {:induction false} AddressesShowRedirects(pc: word, rs: seq<Retired>, rs': seq<Retired>)
    requires ValidStream(pc, rs) && ValidStream(pc, rs') && SameAddresses(rs, rs') && Halted(rs) && Halted(rs')
    requires NoRedirectToNext(rs) && NoRedirectToNext(rs')
    ensures SameRedirects(rs, rs', |rs|)
  {
    hide DecodedAlike;
    forall i | 0 <= i < |rs| ensures Redirects(rs[i].effect) <==> Redirects(rs'[i].effect) {
      if i + 1 < |rs| {
        assert Follows(rs[i], rs[i + 1]) && Follows(rs'[i], rs'[i + 1]);
      }
    }
  }

  /** There the fetches of a halted run are a function of its addresses. */
  lemma {:induction false} AddressesDecideFetches(pc: word, rs: seq<Retired>, rs': seq<Retired>)
    requires ValidStream(pc, rs) && ValidStream(pc, rs') && SameAddresses(rs, rs') && Halted(rs) && Halted(rs')
    requires NoRedirectToNext(rs) && NoRedirectToNext(rs')
    ensures SegmentFetches(pc, rs) == SegmentFetches(pc, rs')
  {
    hide ValidStream, SegmentFetches, NoRedirectToNext;
    AddressesShowRedirects(pc, rs, rs');
    AddressesAndRedirectsDecide(pc, rs, rs');
  }

  /** In the requests themselves: two halted runs over the same addresses, on
      machines with any data caches, any latencies and any instruction caches, make
      the same requests, replays aside, exactly when they redirect at the same
      places. */
  lemma {:induction false} RequestsAgreeIffRedirectsDo(s: Setup, s': Setup, rs: seq<Retired>, rs': seq<Retired>)
    requires s.pc == s'.pc && s.icache.enabled && s'.icache.enabled
    requires ValidStream(s.pc, rs) && ValidStream(s.pc, rs') && Halted(rs) && Halted(rs') && SameAddresses(rs, rs')
    ensures Timed(s, rs).Some? && Timed(s', rs').Some?
    ensures Demanded(s, rs) == Demanded(s', rs') <==> SameRedirects(rs, rs', |rs|)
  {
    hide Timed, ValidStream, Demanded, SegmentFetches, SameRedirects;
    OnlyTheLastStepThrows(s, rs);
    OnlyTheLastStepThrows(s', rs');
    DemandsAreFetches(s, rs);
    DemandsAreFetches(s', rs');
    AddressesAndRedirectsDecide(s.pc, rs, rs');
  }
}
