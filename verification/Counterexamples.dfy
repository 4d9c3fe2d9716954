/** Concrete programs for what is not true in general: caches that make a program
    throw, runs over the same addresses that fetch differently, and a larger data
    cache that is slower. */
module Counterexamples {
  import opened Words
  import opened Isa
  import opened IsaLaws
  import opened CacheModel
  import opened CacheHistory
  import opened FetchStream
  import opened FrontEnd
  import opened Coupling
  import opened StepShape
  import opened Streams
  import opened StreamLaws
  import opened CycleLaws
  import opened LargerCache
  import opened CreditSizes
  import opened LatencySweep
  import opened LargerDataCache
  import opened FetchAddresses
  import opened CpuModel
  import opened ProgramRuns
  import opened PublishedLaws
  import opened ProgramComparisons

  // ------------------------------------------- instructions of the programs

  function Zeros(): regfile {
    seq(32, _ => 0)
  }

  /** A data memory of `n` zeros. */
  function Zeroed(n: nat): (data: seq<byte>)
    ensures |data| == n && forall i :: 0 <= i < n ==> data[i] == 0
  {
    seq(n, _ => 0)
  }

  /** It holds nothing but zeros. */
  predicate Blank(data: image) {
    forall i :: 0 <= i < |data| ==> data[i] == 0
  }

  /** `sw x0, offset(x0)` */
  function StoreWord(offset: nat): word
    requires offset < 32
  {
    0x2023 + offset * 0x80
  }

  /** `lw x0, offset(x0)` */
  function LoadWord(offset: nat): word
    requires offset < 32
  {
    0x2003 + offset * 0x10_0000
  }

  /** `jal x0, offset` */
  function JumpAhead(offset: nat): word
    requires offset < 32 && offset % 2 == 0
  {
    0x6f + offset / 2 * 0x20_0000
  }

  const ECALL: word := 0x73
  const NOP: word := 0x13

  /** The memory image of a program. */
  function Assembled(insns: seq<word>): (m: seq<byte>)
    ensures |m| == 4 * |insns|
  {
    if insns == [] then [] else Assembled(Init(insns)) + LittleEndian(Last(insns), 4)
  }

  lemma {:induction false} ReadAssembled(insns: seq<word>, i: nat)
    requires i < |insns| && 4 * |insns| <= 0xffff_fff0
    ensures Read32(Assembled(insns), 4 * i) == Some(insns[i])
  {
    hide LittleEndian;
    var m, before, v := Assembled(insns), Assembled(Init(insns)), Last(insns);
    if i < |insns| - 1 {
      ReadAssembled(Init(insns), i);
      assert m[4 * i..4 * i + 4] == before[4 * i..4 * i + 4];
    } else {
      WordBytes(v);
      BytesMakeWord(v);
      assert m[4 * i..4 * i + 4] == LittleEndian(v, 4);
    }
  }

  lemma StoreWordIsStore(data: image, pc: word, offset: nat)
    requires offset < 32 && offset + 4 <= |data|
    ensures Evaluate(Zeros(), data, pc, StoreWord(offset)) == Some(Store(offset, [0, 0, 0, 0]))
  {
    hide OpImm, OpReg, MulDiv, BranchTaken, LoadValue, ImmI, ImmS, ImmB, ImmJ, ImmU, LittleEndian;
    var insn := StoreWord(offset);
    ImmediateS(0, 0, offset, 2, 0x23);
    WordBytes(0);
    assert Opcode(insn) == 0x23 && Funct3(insn) == 2 by {
      QuotientIsUnique(insn, 0x80, offset + 0x40, 0x23);
      QuotientIsUnique(insn, 0x1000, 2, offset * 0x80 + 0x23);
    }
  }

  lemma LoadWordIsLoad(data: image, pc: word, offset: nat)
    requires offset < 32 && offset + 4 <= |data| && Blank(data)
    ensures Evaluate(Zeros(), data, pc, LoadWord(offset)) == Some(Load(0, 0, offset))
  {
    hide OpImm, OpReg, MulDiv, BranchTaken, StoreWidth, ImmI, ImmS, ImmB, ImmJ, ImmU, LittleEndian, SignExtend;
    var insn := LoadWord(offset);
    ImmediateI(0, offset, 0x2003);
    assert Opcode(insn) == 3 && Funct3(insn) == 2 && Rd(insn) == 0 by {
      QuotientIsUnique(insn, 0x80, offset * 0x2000 + 0x40, 3);
      QuotientIsUnique(insn, 0x1000, offset * 0x100 + 2, 3);
      QuotientIsUnique(insn / 0x80, 32, offset * 0x100 + 2, 0);
      QuotientIsUnique(insn / 0x1000, 8, offset * 0x20, 2);
    }
    assert Read32(data, offset) == Some(0);
  }

  lemma JumpAheadIsJump(data: image, pc: codeAddr, offset: nat)
    requires offset < 32 && offset % 2 == 0 && pc + offset < 0x1_0000_0000
    ensures Evaluate(Zeros(), data, pc, JumpAhead(offset)) == Some(Jump(0, pc + 4, pc + offset))
  {
    hide OpImm, OpReg, MulDiv, BranchTaken, LoadValue, StoreWidth, ImmI, ImmS, ImmB, ImmJ, ImmU, LittleEndian;
    hide SignExtend;
    var insn := JumpAhead(offset);
    ImmediateJ(0, offset / 2, 0, 0, 0x6f);
    assert Opcode(insn) == 0x6f && Rd(insn) == 0 by {
      QuotientIsUnique(insn, 0x80, offset / 2 * 0x4000, 0x6f);
      QuotientIsUnique(insn / 0x80, 32, offset / 2 * 0x200, 0);
    }
  }

  lemma EcallHalts(data: image, pc: word)
    ensures Evaluate(Zeros(), data, pc, ECALL) == Some(Halt)
  {
    hide OpImm, OpReg, MulDiv, BranchTaken, LoadValue, StoreWidth, ImmI, ImmS, ImmB, ImmJ, ImmU, LittleEndian;
    assert Opcode(ECALL) == 0x73;
  }

  lemma NopWritesNothing(data: image, pc: word)
    ensures Evaluate(Zeros(), data, pc, NOP) == Some(Write(0, 0, AluUnit))
  {
    hide OpReg, MulDiv, BranchTaken, LoadValue, StoreWidth, ImmI, ImmS, ImmB, ImmJ, ImmU, LittleEndian;
    ImmediateI(0, 0, 0x13);
    assert Opcode(NOP) == 0x13 && Funct3(NOP) == 0 && Rd(NOP) == 0;
  }

  /** The instruction changes neither a register nor the memory. */
  ghost predicate Inert(data: image, e: Effect) {
    match e
    case Write(rd, _, _) => rd == 0
    case Jump(rd, _, _) => rd == 0
    case Load(rd, _, _) => rd == 0
    case Store(addr, bytes) => addr + |bytes| <= |data| && bytes == data[addr..addr + |bytes|]
    case _ => true
  }

  /** After `n` steps the program is at `pc`, in its initial state otherwise. */
  ghost predicate Reached(p: Program, n: nat, pc: word, halted: bool) {
    Functional(p, n).Some? && Functional(p, n).value.arch == ArchState(Zeros(), pc, p.data, halted)
  }

  lemma Started(p: Program)
    ensures Reached(p, 0, p.pc, false) && Functional(p, 0).value.retired == []
  {
  }

  lemma InertStep(p: Program, n: nat, pc: codeAddr, insn: word, e: Effect)
    requires Reached(p, n, pc, false) && pc % 4 == 0 && Read32(p.imem, pc) == Some(insn)
    requires Evaluate(Zeros(), p.data, pc, insn) == Some(e) && Inert(p.data, e)
    ensures Reached(p, n + 1, NextPc(pc, e), e.Halt?)
    ensures var before, after := Functional(p, n).value.retired, Functional(p, n + 1).value.retired;
            && |after| == |before| + 1 && after[..|before|] == before
            && Last(after).pc == pc && Last(after).insn == insn && Last(after).effect == e
  {
    hide Evaluate, LookAhead, Read32;
    assert Zeros()[0 := 0] == Zeros();
    if e.Store? {
      assert WriteBytes(p.data, e.addr, e.bytes) == p.data;
    }
  }

  // ------------------------------------------------ caches that make it throw

  // One store in the last word of instruction memory, on a machine without
  // caches and on one with single-line caches.
  const STORE_AT_END := Program(Assembled([StoreWord(0)]), Zeroed(4), 0)
  const PLAIN: Machine := CpuConfig(10, CacheConfig(false, 1, 4, 3, false), CacheConfig(false, 1, 4, 3, true))
  const CACHED: Machine := CpuConfig(10, CacheConfig(true, 1, 4, 3, false), CacheConfig(true, 1, 4, 3, true))
  const END_STORE := Retired(0, 0x2023, Store(0, [0, 0, 0, 0]), Unavailable)

  lemma EndStoreExecutes()
    ensures Execute(STORE_AT_END.imem, Boot(STORE_AT_END)).Some?
    ensures Execute(STORE_AT_END.imem, Boot(STORE_AT_END)).value.retired == END_STORE
  {
    hide Evaluate, PredictRedirect;
    var p := STORE_AT_END;
    StoreWordIsStore(p.data, 0, 0);
    ReadAssembled([StoreWord(0)], 0);
    assert Boot(p).regs == Zeros();
  }

  lemma FeedSingle(c: Cache, q: Request)
    ensures Feed(c, [q]) == Accessed(c, q).cache
  {
    assert [q][..0] == [] && Feed(c, []) == c;
  }

  lemma SecondWordMisses()
    ensures var own := Feed(Cold(CACHED.icache), Sequential(0, 4));
            Stalls(own, Sequential(4, 16)) >= 7
  {
    var c, own, first := Cold(CACHED.icache), Feed(Cold(CACHED.icache), Sequential(0, 4)), Request(4, false);
    assert Sequential(0, 4) == [Request(0, false)];
    FeedSingle(c, Request(0, false));
    assert !Hits(own, 4);
    assert Stalls(own, [first]) == 7 by {
      FeedSingle(own, first);
    }
    assert Sequential(4, 16) == [first] + Sequential(8, 16);
    hide Accessed, Hits;
    StallsConcat(own, [first], Sequential(8, 16));
  }

  lemma EndStoreMisses()
    ensures DataStall(Cold(CACHED.dcache), END_STORE.effect) == 7
    ensures CleanMissPenalty(CACHED.icache) == 7
  {
  }

  lemma EndStoreFaults()
    ensures Timed(SetupOf(CACHED, STORE_AT_END), []).Some?
    ensures LookaheadFaults(CACHED, STORE_AT_END, [END_STORE])
  {
    hide Accessed, DataStall, Sequential, Feed, TimeStep, Hits, CleanMissPenalty, Assembled, StoreWord;
    var s := SetupOf(CACHED, STORE_AT_END);
    var t := ColdTiming(s.icache, s.dcache, 0);
    assert Init([END_STORE]) == [];
    EndStoreMisses();
    SecondWordMisses();
    LateStallsFit(t, END_STORE);
  }

  /** The exception is real: this program takes its one step without caches and
      throws with them. */
  lemma CachesCanThrow()
    ensures Run(PLAIN, STORE_AT_END, 1).Some? && Run(CACHED, STORE_AT_END, 1).None?
  {
    hide Execute, LookaheadFaults, TimeStep;
    var p := STORE_AT_END;
    EndStoreExecutes();
    assert Functional(p, 0) == Some(FunctionalRun(Boot(p), []));
    assert Functional(p, 1).Some? && Functional(p, 1).value.retired == [END_STORE];
    assert Init([END_STORE]) == [];
    StepIsLawful(ColdTiming(PLAIN.icache, PLAIN.dcache, 0), END_STORE);
    RunFactors(PLAIN, p, 1);
    TransparencyIsExact(PLAIN, CACHED, p, 1);
    EndStoreFaults();
  }

  // ---------------------------------------- same addresses, other fetches

  // Two programs that differ in one instruction, which one of them steps over
  // and the other jumps over, to the same next word.
  const STEP_ON := Program(Assembled([NOP, ECALL]), Zeroed(8), 0)
  const JUMP_ON := Program(Assembled([JumpAhead(4), ECALL]), Zeroed(8), 0)
  const ONE_LINE: Machine := CpuConfig(10, CacheConfig(true, 1, 4, 3, false), CacheConfig(false, 1, 4, 3, true))

  lemma {:induction false} TwoSteps(p: Program, insn: word, e: Effect) returns (rs: seq<Retired>)
    requires p.pc == 0 && Read32(p.imem, 0) == Some(insn) && Read32(p.imem, 4) == Some(ECALL)
    requires Evaluate(Zeros(), p.data, 0, insn) == Some(e) && Inert(p.data, e) && NextPc(0, e) == 4
    requires !e.Halt? && !e.Store?
    ensures Functional(p, 2).Some? && rs == Functional(p, 2).value.retired
    ensures |rs| == 2 && rs[0].pc == 0 && rs[0].effect == e && rs[1].pc == 4 && rs[1].effect == Halt
    ensures ValidStream(0, rs) && Halted(rs)
  {
    hide Evaluate, Execute, Inert, Read32, Functional, DecodedAlike, Follows;
    Started(p);
    EcallHalts(p.data, 4);
    InertStep(p, 0, 0, insn, e);
    InertStep(p, 1, 4, ECALL, Halt) by {
      assert Inert(p.data, Halt) by {
        HaltIsInert(p.data);
      }
    }
    rs := Functional(p, 2).value.retired;
    FunctionalIsConsistent(p, 2);
  }

  lemma HaltIsInert(data: image)
    ensures Inert(data, Halt)
  {
  }

  /** In a cache of one line a stream that never repeats a word back to back
      misses every time. */
  lemma {:induction false} OneLineAlwaysMisses(config: CacheConfig, qs: seq<Request>)
    requires config.Indexable() && config.enabled && config.lines == 1
    requires forall i :: 1 <= i < |qs| ==> WordOf(config, qs[i].addr) != WordOf(config, qs[i - 1].addr)
    ensures Feed(Cold(config), qs).stats.misses == |qs|
  {
    if qs != [] {
      var before, q := Init(qs), Last(qs);
      OneLineAlwaysMisses(config, before);
      HitIffLastOnLine(config, before, q);
      forall i: nat ensures !LastIn(config, before, WordOf(config, q.addr), i) {
        if i < |before| - 1 {
          assert WordOf(config, before[i + 1].addr) % 1 == 0;
        }
      }
      MissCounts(Feed(Cold(config), before), q);
    }
  }

  lemma SixRequests()
    ensures Sequential(0, 16) ==
              [Request(0, false), Request(4, false), Request(8, false), Request(12, false)]
    ensures Sequential(0, 12) + Sequential(4, 16) ==
              [Request(0, false), Request(4, false), Request(8, false),
               Request(4, false), Request(8, false), Request(12, false)]
  {
    assert Sequential(12, 12) == [] && Sequential(16, 16) == [];
    assert Sequential(12, 16) == [Request(12, false)];
    assert Sequential(8, 16) == [Request(8, false)] + Sequential(12, 16);
    assert Sequential(8, 12) == [Request(8, false)];
    assert Sequential(4, 12) == [Request(4, false)] + Sequential(8, 12);
  }

  lemma {:induction false} SegmentsOfTwo(rs: seq<Retired>)
    requires |rs| == 2 && rs[0].pc == 0 && rs[1].pc == 4 && rs[1].effect.Halt? && !rs[0].effect.Halt?
    requires Redirects(rs[0].effect) ==> rs[0].effect.target == 4
    ensures SegmentFetches(0, rs) ==
            if Redirects(rs[0].effect) then Sequential(0, 12) + Sequential(4, 16) else Sequential(0, 16)
  {
    hide Sequential;
    var first := [rs[0]];
    assert Init(rs) == first && Init(first) == [];
    assert SegmentFetches(0, []) == [] && SegmentStart(0, []) == 0;
    assert SegmentFetches(0, first) == if Redirects(rs[0].effect) then Sequential(0, 12) else [];
    assert SegmentStart(0, first) == if Redirects(rs[0].effect) then 4 else 0;
  }

  /** The addresses of a run do not determine its fetches: these two programs
      retire the same addresses and halt, but one fetches four words and the other
      six, and in a cache of one line each of them is a miss. */
  lemma JumpToNextFetchesAgain()
    ensures Functional(STEP_ON, 2).Some? && Functional(JUMP_ON, 2).Some?
    ensures var rs, rs' := Functional(STEP_ON, 2).value.retired, Functional(JUMP_ON, 2).value.retired;
            && SameAddresses(rs, rs') && Halted(rs) && Halted(rs')
            && SegmentFetches(0, rs) == Sequential(0, 16)
            && SegmentFetches(0, rs') == Sequential(0, 12) + Sequential(4, 16)
            && SegmentFetches(0, rs) != SegmentFetches(0, rs')
    ensures Run(ONE_LINE, STEP_ON, 2).Some? && Run(ONE_LINE, STEP_ON, 2).value.stats.icacheMisses == 4
    ensures Run(ONE_LINE, JUMP_ON, 2).Some? && Run(ONE_LINE, JUMP_ON, 2).value.stats.icacheMisses == 6
  {
    hide Evaluate, Functional, Run, Sequential, SegmentFetches, Feed, ValidStream, Read32, Assembled, JumpAhead;
    NopWritesNothing(STEP_ON.data, 0);
    JumpAheadIsJump(JUMP_ON.data, 0, 4);
    OneInstructionApart();
    var rs := TwoSteps(STEP_ON, NOP, Write(0, 0, AluUnit));
    var rs' := TwoSteps(JUMP_ON, JumpAhead(4), Jump(0, 4, 4));
    SegmentsOfTwo(rs);
    SegmentsOfTwo(rs');
    SixRequests();
    OneLineMisses(STEP_ON, rs);
    OneLineMisses(JUMP_ON, rs');
  }

  lemma OneInstructionApart()
    ensures Read32(STEP_ON.imem, 0) == Some(NOP) && Read32(STEP_ON.imem, 4) == Some(ECALL)
    ensures Read32(JUMP_ON.imem, 0) == Some(JumpAhead(4)) && Read32(JUMP_ON.imem, 4) == Some(ECALL)
  {
    hide Read32, Assembled, JumpAhead;
    ReadAssembled([NOP, ECALL], 0);
    ReadAssembled([NOP, ECALL], 1);
    ReadAssembled([JumpAhead(4), ECALL], 0);
    ReadAssembled([JumpAhead(4), ECALL], 1);
  }

  lemma {:induction false} OneLineMisses(p: Program, rs: seq<Retired>)
    requires p.pc == 0 && Functional(p, 2).Some? && Functional(p, 2).value.retired == rs && |rs| == 2
    requires ValidStream(0, rs) && Halted(rs)
    requires var qs := SegmentFetches(0, rs); forall i :: 1 <= i < |qs| ==> qs[i].addr / 4 != qs[i - 1].addr / 4
    ensures Run(ONE_LINE, p, 2).Some?
    ensures Run(ONE_LINE, p, 2).value.stats.icacheMisses == |SegmentFetches(0, rs)|
  {
    hide Functional, Run, Timed, SegmentFetches, Feed, ValidStream, Publish, Rows, MixOf;
    OnlyTheLastStepThrows(SetupOf(ONE_LINE, p), rs);
    RunFactors(ONE_LINE, p, 2);
    FunctionalIsConsistent(p, 2);
    MissesAreDecoupled(ONE_LINE, p, 2);
    OneLineAlwaysMisses(ONE_LINE.icache, SegmentFetches(0, rs));
  }

  // -------------------------------------- a larger data cache that is slower

  // Two stores, a jump over two words, two loads and the halt.  The second store
  // is granted an overlap credit, for a dirty miss with one data-cache line and
  // for a clean one with two; the writeback it is then spared comes back at a load.
  const EVICTION_CODE: seq<word> :=
    [StoreWord(0), StoreWord(4), JumpAhead(12), 0, 0, LoadWord(8), LoadWord(12), ECALL]
  const EVICTIONS := Program(Assembled(EVICTION_CODE), Zeroed(32), 0)

  /** A machine with `n` data-cache lines and an instruction cache in which the
      program evicts nothing. */
  function DataLines(n: nat): Machine
    requires n > 0
  {
    CpuConfig(10, CacheConfig(true, 8, 4, 3, false), CacheConfig(true, n, 4, 3, true))
  }

  predicate IsEvictions(rs: seq<Retired>) {
    && |rs| == 6 && IsEvictionsHead(rs)
    && rs[3].pc == 20 && rs[3].effect == Load(0, 0, 8)
    && rs[4].pc == 24 && rs[4].effect == Load(0, 0, 12)
    && rs[5].pc == 28 && rs[5].effect == Halt
  }

  /** The first three instructions. */
  predicate IsEvictionsHead(rs: seq<Retired>) {
    && |rs| >= 3
    && rs[0].pc == 0 && rs[0].effect == Store(0, [0, 0, 0, 0])
    && rs[1].pc == 4 && rs[1].effect == Store(4, [0, 0, 0, 0])
    && rs[2].pc == 8 && rs[2].effect == Jump(0, 12, 20)
  }

  lemma EvictionsHead()
    ensures Reached(EVICTIONS, 3, 20, false)
    ensures |Functional(EVICTIONS, 3).value.retired| == 3 && IsEvictionsHead(Functional(EVICTIONS, 3).value.retired)
  {
    hide Evaluate, Execute, Read32, Functional, Assembled, StoreWord, LoadWord, JumpAhead, Reached;
    var p, d := EVICTIONS, EVICTIONS.data;
    assert d[0..4] == [0, 0, 0, 0] && d[4..8] == [0, 0, 0, 0];
    StoreWordIsStore(d, 0, 0);
    StoreWordIsStore(d, 4, 4);
    JumpAheadIsJump(d, 8, 12);
    ReadAssembled(EVICTION_CODE, 0);
    ReadAssembled(EVICTION_CODE, 1);
    ReadAssembled(EVICTION_CODE, 2);
    Started(p);
    InertStep(p, 0, 0, StoreWord(0), Store(0, [0, 0, 0, 0]));
    InertStep(p, 1, 4, StoreWord(4), Store(4, [0, 0, 0, 0]));
    InertStep(p, 2, 8, JumpAhead(12), Jump(0, 12, 20));
  }

  lemma {:induction false} EvictionsRun() returns (rs: seq<Retired>)
    ensures Functional(EVICTIONS, 6).Some? && rs == Functional(EVICTIONS, 6).value.retired
    ensures IsEvictions(rs) && ValidStream(0, rs)
  {
    hide Evaluate, Execute, Read32, Functional, ValidStream, Assembled, StoreWord, LoadWord, JumpAhead;
    var p, d := EVICTIONS, EVICTIONS.data;
    LoadWordIsLoad(d, 20, 8);
    LoadWordIsLoad(d, 24, 12);
    EcallHalts(d, 28);
    ReadAssembled(EVICTION_CODE, 5);
    ReadAssembled(EVICTION_CODE, 6);
    ReadAssembled(EVICTION_CODE, 7);
    EvictionsHead();
    InertStep(p, 3, 20, LoadWord(8), Load(0, 0, 8));
    InertStep(p, 4, 24, LoadWord(12), Load(0, 0, 12));
    InertStep(p, 5, 28, ECALL, Halt);
    rs := Functional(p, 6).value.retired;
    FunctionalIsConsistent(p, 6);
  }

  lemma {:induction false} EvictionsData(rs: seq<Retired>)
    requires IsEvictions(rs)
    ensures DataStream(rs[..1]) == [Request(0, true)]
    ensures DataStream(rs) == [Request(0, true), Request(4, true), Request(8, false), Request(12, false)]
  {
    var r1, r2, r3, r4, r5 := rs[..1], rs[..2], rs[..3], rs[..4], rs[..5];
    assert Init(r1) == [] && Init(r2) == r1 && Init(r3) == r2 && Init(r4) == r3 && Init(r5) == r4 && Init(rs) == r5;
    assert DataStream([]) == [] && DataStream(r1) == [Request(0, true)];
    assert DataStream(r2) == [Request(0, true), Request(4, true)];
    assert DataStream(r3) == DataStream(r2);
    assert DataStream(r4) == DataStream(r3) + [Request(8, false)];
    assert DataStream(r5) == DataStream(r4) + [Request(12, false)];
    assert DataStream(rs) == DataStream(r5);
  }

  lemma FeedFour(c: Cache, q: Request, r: Request, s: Request, t: Request)
    ensures Feed(c, [q, r, s, t]) ==
            Accessed(Accessed(Accessed(Accessed(c, q).cache, r).cache, s).cache, t).cache
  {
    hide Accessed;
    FeedSingle(c, q);
    FeedOne(c, [q], r);
    FeedOne(c, [q, r], s);
    FeedOne(c, [q, r, s], t);
    assert [q] + [r] == [q, r] && [q, r] + [s] == [q, r, s] && [q, r, s] + [t] == [q, r, s, t];
  }

  /** The data cache of either size at the end of the run. */
  lemma EvictionsCosts(n: nat)
    requires n == 1 || n == 2
    ensures var qs := [Request(0, true), Request(4, true), Request(8, false), Request(12, false)];
            var d := Feed(Cold(DataLines(n).dcache), qs).stats;
            d.misses == 4 && d.writebacks == 2
  {
    hide Feed, DirtyMissPenalty, CleanMissPenalty;
    var c := Cold(DataLines(n).dcache);
    FeedFour(c, Request(0, true), Request(4, true), Request(8, false), Request(12, false));
    if n == 1 {
      assert Accessed(c, Request(0, true)).cache.lines == [Line(true, true, 0)];
    } else {
      assert Accessed(c, Request(0, true)).cache.lines == [Line(true, true, 0), EMPTY_LINE];
    }
  }

  /** Nothing but a store with a redirect behind it changes the overlap. */
  lemma {:induction false} OverlapStays(s: Setup, rs: seq<Retired>)
    requires rs != [] && ValidStream(s.pc, rs) && Timed(s, rs).Some? && Timed(s, Init(rs)).Some?
    requires Fits(s) && s.icache.enabled && s.dcache.enabled
    requires !(Last(rs).effect.Store? && Last(rs).look.Target?)
    ensures Timed(s, rs).value.overlap == Timed(s, Init(rs)).value.overlap
  {
    hide Timed, ValidStream, StepLaw, Fits, DataOutcome, LateStalls, CreditFor;
    var t, step := CreditedLastStep(s, rs);
  }

  /** A straight run of fetches from address 0 leaves everything from its end on
      out of the cache. */
  lemma NotYetFetched(config: CacheConfig, end: nat, addr: word)
    requires config.Indexable() && config.enabled && end <= addr && addr % 4 == 0
    ensures !Hits(Feed(Cold(config), Sequential(0, end)), addr)
  {
    hide Feed, Sequential;
    var qs, w := Sequential(0, end), WordOf(config, addr);
    ResidentIffLastOnLine(config, qs, w);
    forall i: nat ensures !LastIn(config, qs, w, i) {
      if i < |qs| {
        SequentialAt(0, end, i);
      }
    }
  }

  /** The machine with `n` data-cache lines, about to run the program. */
  function EvictionsSetup(n: nat): (s: Setup)
    requires n > 0
    ensures s == SetupOf(DataLines(n), EVICTIONS)
    ensures s.pc == 0 && s.icache.enabled && s.dcache.enabled && s.icache.memoryLatency == 3
    ensures Fits(s) && LatenciesOf(s) == Latencies(3, 3)
  {
    SetupOf(DataLines(n), EVICTIONS)
  }

  lemma SecondStoreOutcome(n: nat, replays: nat)
    requires n == 1 || n == 2
    ensures var first := WithHits(Feed(Cold(DataLines(n).dcache), [Request(0, true)]), replays);
            var x := DataOutcome(first, Store(4, [0, 0, 0, 0])).result;
            x.miss && x.writeback == (n == 1)
  {
    FeedSingle(Cold(DataLines(n).dcache), Request(0, true));
    hide Feed;
  }

  lemma {:induction false} AfterFirstStore(n: nat, rs: seq<Retired>)
    requires n == 1 || n == 2
    requires IsEvictions(rs) && ValidStream(0, rs) && Timed(EvictionsSetup(n), rs[..1]).Some?
    ensures var t := Timed(EvictionsSetup(n), rs[..1]).value;
            && t.fetch.front == 16 && t.overlap == 0 == t.replays
            && FetchedTo(t, Cold(DataLines(n).icache), 0)
            && t.dcache == WithHits(Feed(Cold(DataLines(n).dcache), [Request(0, true)]), t.replays)
  {
    hide TimeStep, StepLaw, Window, ValidStream, Sequential, Feed, CreditDue, EvictionsSetup, LateStalls, FetchedTo;
    hide Hits;
    var s, r1 := EvictionsSetup(n), rs[..1];
    assert Init(r1) == [] && Last(r1) == rs[0];
    StreamFollows(0, rs, 1);
    PrefixIsValid(0, rs, 1);
    var t0, step := LastStep(s, r1);
    FirstStoreStalls(n);
    OneEpisode(t0, rs[0], step);
    OverlapStays(s, r1);
    DataSide(s, r1);
    EvictionsData(rs);
    RunFetchedTo(s, r1);
    FeedNothing(Cold(s.icache));
  }

  lemma FirstStoreStalls(n: nat)
    requires n > 0
    ensures DataStall(Cold(DataLines(n).dcache), Store(0, [0, 0, 0, 0])) != 0
  {
  }

  /** The word fetched last under the second store's miss stalls. */
  lemma LastWordStalls(config: CacheConfig)
    requires config.Indexable() && config.enabled && CleanMissPenalty(config) == 7
    ensures Stalls(Cold(config), Sequential(0, 20)) - Stalls(Cold(config), Sequential(0, 16)) >= 7
  {
    hide Feed, Sequential, Accessed, Hits, CleanMissPenalty;
    var before, q := Feed(Cold(config), Sequential(0, 16)), Request(16, false);
    NotYetFetched(config, 16, 16);
    MissCounts(before, q);
    MissesExactly(before, q);
    StallsAccumulate(before, q);
    SequentialNext(0, 16);
    FeedOne(Cold(config), Sequential(0, 16), q);
    assert Accessed(before, q).result.stallCycles >= 7 by {
      ReadsAreClean(config, 16);
      ReadStep(before, q);
    }
  }

  lemma ReadsAreClean(config: CacheConfig, end: nat)
    requires config.Indexable() && end <= 0x1_0000_0000
    ensures NoDirtyLine(Feed(Cold(config), Sequential(0, end)))
  {
    hide Feed, Sequential;
    SequentialReads(0, end);
    ReadsStayClean(Cold(config), Sequential(0, end));
  }

  lemma {:induction false} NoSegmentsYet(rs: seq<Retired>)
    requires IsEvictions(rs)
    ensures Fetches(0, rs[..2], 20) == Sequential(0, 20)
  {
    hide Sequential;
    var r1, r2 := rs[..1], rs[..2];
    assert Init(r1) == [] && Init(r2) == r1;
    assert SegmentFetches(0, []) == [] && SegmentFetches(0, r1) == [] && SegmentFetches(0, r2) == [];
    assert SegmentStart(0, []) == 0 && SegmentStart(0, r1) == 0 && SegmentStart(0, r2) == 0;
    assert [] + Sequential(0, 20) == Sequential(0, 20);
  }

  lemma {:induction false} SecondStoreIsDue(n: nat, rs: seq<Retired>, t: Timing, t': Timing)
    requires n == 1 || n == 2
    requires IsEvictions(rs) && ValidStream(0, rs)
    requires Timed(EvictionsSetup(n), rs[..1]) == Some(t) && Timed(EvictionsSetup(n), rs[..2]) == Some(t')
    requires Window(t, 4) && FetchLaw(t, rs[1], t') && DataOutcome(t.dcache, rs[1].effect).result.miss
    ensures Credited(t, rs[1], t')
  {
    hide TimeStep, ValidStream, Sequential, Feed, CreditDue, EvictionsSetup, LateStalls, FetchedTo;
    hide Hits, Window, Timed, DataOutcome, WithHits, CleanMissPenalty, DirtyMissPenalty, Fetches, NoDirtyLine;
    var s, config, r := EvictionsSetup(n), DataLines(n).icache, rs[1];
    AfterFirstStore(n, rs);
    StreamFollows(0, rs, 2);
    PrefixIsValid(0, rs, 1);
    RunsAreOrderly(s, rs[..1]);
    FittingPrices(s, t);
    assert CleanMissPenalty(config) == 7;
    DataStallKind(t.dcache, r.effect);
    assert t'.fetch.front == 20;
    NoSegmentsYet(rs);
    PrefixIsValid(0, rs, 2);
    FetchSide(s, rs[..2]);
    NotYetFetched(config, 20, 20);
    assert !Hits(t'.icache, 20) by {
      SameHitsUpToHits(t'.icache, Feed(Cold(config), Sequential(0, 20)), 20);
    }
    LateStallsOfSegment(t, r, Cold(config), 0);
    LastWordStalls(config);
    LateStallsStay(t, r, Latencies(3, 3), 7);
  }

  lemma SameHitsUpToHits(a: Cache, b: Cache, addr: word)
    requires UpToHits(a, b)
    ensures Hits(a, addr) == Hits(b, addr)
  {
  }

  /** The second store is granted a credit: seven cycles of a dirty miss with one
      data-cache line, six of a clean one with two. */
  lemma {:induction false} SecondStoreIsCredited(n: nat, rs: seq<Retired>)
    requires n == 1 || n == 2
    requires IsEvictions(rs) && ValidStream(0, rs)
    requires Timed(EvictionsSetup(n), rs[..1]).Some? && Timed(EvictionsSetup(n), rs[..2]).Some?
    ensures var t := Timed(EvictionsSetup(n), rs[..2]).value;
            t.overlap == (if n == 1 then 7 else 6) && t.replays == 1
  {
    hide TimeStep, StepLaw, ValidStream, Sequential, Feed, CreditDue, EvictionsSetup, LateStalls, FetchedTo;
    hide Hits, Window, Timed, DataOutcome, WithHits, FetchLaw, Credited, Fits;
    var s, r2 := EvictionsSetup(n), rs[..2];
    assert Init(r2) == rs[..1] && Last(r2) == rs[1];
    PrefixIsValid(0, rs, 2);
    AfterFirstStore(n, rs);
    var t, step := LastStep(s, r2);
    SecondStoreOutcome(n, t.replays);
    SecondStoreIsDue(n, rs, t, step.next);
    var t', step' := CreditedLastStep(s, r2);
    assert CreditFor(true, LatenciesOf(s)) == 7 && CreditFor(false, LatenciesOf(s)) == 6;
  }

  /** No other instruction changes the overlap. */
  lemma {:induction false} EvictionsOverlap(n: nat, rs: seq<Retired>)
    requires n == 1 || n == 2
    requires IsEvictions(rs) && ValidStream(0, rs) && Timed(EvictionsSetup(n), rs).Some?
    ensures Timed(EvictionsSetup(n), rs).value.overlap == if n == 1 then 7 else 6
  {
    hide Timed, ValidStream, Fits, EvictionsSetup;
    var s := EvictionsSetup(n);
    PrefixIsTimed(s, rs, 1);
    PrefixIsTimed(s, rs, 2);
    SecondStoreIsCredited(n, rs);
    for i := 2 to 6
      invariant Timed(s, rs[..i]).Some? && Timed(s, rs[..i]).value.overlap == if n == 1 then 7 else 6
    {
      PrefixIsTimed(s, rs, i + 1);
      PrefixIsValid(0, rs, i + 1);
      assert Init(rs[..i + 1]) == rs[..i] && Last(rs[..i + 1]) == rs[i];
      OverlapStays(s, rs[..i + 1]);
    }
    assert rs[..6] == rs;
  }

  lemma {:induction false} EvictionsTotals(n: nat, rs: seq<Retired>)
    requires n == 1 || n == 2
    requires Functional(EVICTIONS, 6).Some? && Functional(EVICTIONS, 6).value.retired == rs
    requires IsEvictions(rs) && ValidStream(0, rs)
    ensures Timed(EvictionsSetup(n), rs).Some? && Run(DataLines(n), EVICTIONS, 6).Some?
    ensures var t, run := Timed(EvictionsSetup(n), rs).value, Run(DataLines(n), EVICTIONS, 6).value;
            && run.arch.halted && run.stats.dcacheMisses == 4 && run.stats.dcacheWritebacks == 2
            && run.stats.ifstallReplays == 1
            && run.stats.cycles ==
                 PipelineCycles(rs) + t.icache.stats.misses * 7 + 4 * 7 + 2 * 6 - (if n == 1 then 7 else 6)
  {
    hide Functional, Run, Timed, ValidStream, Rows, Fits, Feed, PipelineCycles, MixOf, HoldReplayCount;
    var s := EvictionsSetup(n);
    OnlyTheLastStepThrows(s, rs);
    RunFactors(DataLines(n), EVICTIONS, 6);
    var _ := RunStream(DataLines(n), EVICTIONS, 6);
    EvictionsOverlap(n, rs);
    OverlapPerEpisode(s, rs);
    EvictionsData(rs);
    EvictionsCosts(n);
    DataSide(s, rs);
    CycleConservation(s, rs);
  }

  /** Two data-cache lines can be slower than one: on this program both take four
      misses and two writebacks, but the smaller cache's dirty miss is overlapped
      for one cycle more.  The one replay shows that the general bound is
      attained. */
  lemma MoreDcacheLinesCanHurt()
    ensures var small, large := Run(DataLines(1), EVICTIONS, 6), Run(DataLines(2), EVICTIONS, 6);
            && small.Some? && large.Some? && small.value.arch.halted && large.value.arch.halted
            && small.value.stats.dcacheMisses == 4 == large.value.stats.dcacheMisses
            && small.value.stats.dcacheWritebacks == 2 == large.value.stats.dcacheWritebacks
            && large.value.stats.cycles == small.value.stats.cycles + small.value.stats.ifstallReplays
            && small.value.stats.ifstallReplays == 1
  {
    hide Functional, Run, Timed, ValidStream, Rows, Fits, Feed;
    var rs := EvictionsRun();
    EvictionsTotals(1, rs);
    EvictionsTotals(2, rs);
    FetchSideIsDecoupled(EvictionsSetup(1), EvictionsSetup(2), rs);
  }
}
