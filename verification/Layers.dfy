/** How the layers fit together: the page heap serves the caches, the table of size classes
    serves both, and the counters of all layers add up. */
module Layers {
  import opened Arithmetic
  import opened Spans
  import opened Cells
  import opened Central
  import opened Allocator
  import opened AllocatorProof
  import opened PageHeaps
  import opened Stats
  import opened SizeClassCache
  import opened PackedCaches
  import SizeMaps

  // ---------------------------------------------------------------- page heap and caches

  lemma HeapTiled(t: Table)
    requires Tiled(t)
    ensures Tiled(Live(t))
  {
  }

  /** What the page heap returns is a span the caches can be given: new, and apart from all others. */
  lemma HeapServes(heap: PageHeap, cfg: Config, s: State, cl: int, n: int, id: SpanId, first: Option<int>, second: Option<int>)
    requires heap.Valid() && ConfigOk(cfg) && IsClass(cfg, cl) && id in heap.spans && id !in s.live
    requires Live(heap.spans) == s.live[id := heap.spans[id]]
    requires heap.spans[id].location == InUse && heap.spans[id].sizeclass == cl && heap.spans[id].length == cfg[cl].pages
    ensures ChoiceOk(cfg, s, Ask(cl, n), Choice(Some((id, heap.spans[id].start)), first, second))
  {
    hide heap.Listed, heap.Merged, heap.Ledger, Tagged, Tiled, Live;
    HeapTiled(heap.spans);
    var sp := heap.spans[id];
    assert sp == Span(sp.start, cfg[cl].pages, InUse, cl);
  }

  /** A span of a size class needs no rounding up to the smallest span. */
  lemma ClassSpansWhole(size: int, pages: int, least: int, transfer: int)
    requires least >= 1 && SizeMaps.ClassOk(size, pages, least * PageSize, transfer)
    ensures pages % least == 0
    ensures least <= PageLimit && WordLimit % least == 0 && pages <= WordLimit - least ==> RoundUpSize(pages, least) == pages
  {
    hide RoundUpSize, SizeMaps.GoodSpan;
    var k :| k >= 1 && pages * PageSize == SizeMaps.Times(k, least * PageSize);
    assert pages * PageSize == (k * least) * PageSize;
    assert pages == k * least;
    Multiple(k, least);
    if least <= PageLimit && WordLimit % least == 0 && pages <= WordLimit - least {
      var r := RoundUpSize(pages, least);
      QuotientOf(r, least);
      SameMultiple(r / least, k, least);
    }
  }

  lemma QuotientOf(r: int, unit: int)
    requires unit >= 1 && r % unit == 0
    ensures r == (r / unit) * unit
  {
  }

  // ---------------------------------------------------------------- reported bytes

  lemma {:induction false} LiveInUse(t: Table)
    ensures Pages(Live(t), InUse) == Pages(t, InUse)
    decreases |t|
  {
    if t != map[] {
      var i := Pick(t);
      LiveInUse(t - {i});
      assert Live(t - {i}) == Live(t) - {i};
      if t[i].location == InUse {
        PagesSplit(Live(t), InUse, i);
      } else {
        assert Live(t) - {i} == Live(t);
      }
    } else {
      assert Live(t) == t;
    }
  }

  /** The property generic.current_allocated_bytes. */
  ghost function CurrentAllocatedBytes(heap: PageHeap, cfg: Config, s: State): int
    requires Sized(cfg, s)
    reads heap
  {
    heap.systemPages * PageSize - ThreadBytes(cfg, s.threads) - CentralBytes(cfg, s) - TransferBytes(cfg, s)
    - heap.freePages * PageSize - heap.unmappedPages * PageSize
  }

  // ---------------------------------------------------------------- the whole allocator

  /** The page heap asks for no more than the class needs: its spans are whole. */
  ghost predicate WholeSpans(cfg: Config, unit: int)
    requires 1 <= unit <= PageLimit && WordLimit % unit == 0
  {
    forall k :: IsClass(cfg, k) ==> 1 <= cfg[k].pages < WordLimit && RoundUpSize(cfg[k].pages, unit) == cfg[k].pages
  }

  /** `cfg` holds the classes of table `m`, built for smallest spans of `unit` bytes.  Class 0, which serves
      no requests, has any entry. */
  ghost predicate BuiltFrom(m: SizeMaps.SizeMap, cfg: Config, unit: int, transfer: int)
    reads m, m.classArray, m.toSize, m.toPages
  {
    && m.TableOk(unit, transfer) && m.IndexOk() && |cfg| == m.numClasses && cfg[0].Ok()
    && forall c :: 1 <= c < |cfg| ==>
         cfg[c] == Class(m.toSize[c], m.toPages[c], SizeMaps.NumMoveSize(m.toSize[c], transfer))
  }

  /** What the table of size classes promises is what page heap and caches need. */
  lemma TableServes(m: SizeMaps.SizeMap, cfg: Config, least: int, transfer: int)
    requires BuiltFrom(m, cfg, least * PageSize, transfer) && transfer >= 1
    requires 1 <= least <= PageLimit && WordLimit % least == 0
    ensures ConfigOk(cfg) && FewClasses(cfg) && WholeSpans(cfg, least)
  {
    hide SizeMaps.ClassOk, SizeMaps.NumMoveSize, SizeMaps.ClassIndex, SizeMaps.Smallest, RoundUpSize;
    forall c | 1 <= c < |cfg|
      ensures cfg[c].Ok() && 1 <= cfg[c].pages < WordLimit && RoundUpSize(cfg[c].pages, least) == cfg[c].pages
    {
      assert SizeMaps.ClassOk(m.toSize[..][c], m.toPages[..][c], least * PageSize, transfer);
      ClassServes(m.toSize[c], m.toPages[c], least, transfer);
    }
  }

  lemma ClassServes(size: int, pages: int, least: int, transfer: int)
    requires SizeMaps.ClassOk(size, pages, least * PageSize, transfer) && transfer >= 1
    requires 1 <= least <= PageLimit && WordLimit % least == 0
    ensures Class(size, pages, SizeMaps.NumMoveSize(size, transfer)).Ok()
    ensures 1 <= pages < WordLimit && RoundUpSize(pages, least) == pages
  {
    hide SizeMaps.NumMoveSize, SizeMaps.LeastSpan, RoundUpSize;
    var blocks := SizeMaps.NumMoveSize(size, transfer) / 4;
    SizeMaps.ClassUsable(size, pages, least * PageSize, transfer);
    SizeMaps.SpanShort(size, least * PageSize, blocks, pages * PageSize);
    SizeMaps.Scale(size, blocks, 2048);
    ClassSpansWhole(size, pages, least, transfer);
  }

  /** Steps in which the page heap takes no part. */
  ghost predicate Inside(x: Cached, st: CacheStep) {
    match st
    case Heap(step) =>
      && !step.NewLarge? && !step.FreeLarge?
      && (step.RunLocked? ==> 0 <= step.t < |x.s.threads| && !x.s.threads[step.t].pc.Ask? && !x.s.threads[step.t].pc.Drain?)
    case _ => true
  }

  ghost predicate CacheStepTo(cfg: Config, x: Cached, st: CacheStep, y: Cached) {
    CacheInv(cfg, x) && StepEnabled(cfg, x, st) && y == StepApply(cfg, x, st)
  }

  lemma {:induction false} Grows(cfg: Config, run: seq<Cached>, st: CacheStep)
    requires CacheRun(cfg, run) && CacheInv(cfg, run[|run| - 1]) && StepEnabled(cfg, run[|run| - 1], st)
    ensures CacheRun(cfg, run + [StepApply(cfg, run[|run| - 1], st)])
  {
    hide CacheInit, CacheInv, StepEnabled, StepApply;
    var longer := run + [StepApply(cfg, run[|run| - 1], st)];
    forall j | 0 <= j < |longer| - 1 ensures CacheNext(cfg, longer[j], longer[j + 1]) {
      if j < |run| - 1 { assert CacheNext(cfg, run[j], run[j + 1]); }
    }
  }

  /** The spans in use after a step. */
  lemma LiveOf(cfg: Config, x: Cached, st: CacheStep)
    requires CacheInv(cfg, x) && StepEnabled(cfg, x, st)
    ensures st.Heap? ==> StepApply(cfg, x, st).s.live == LiveAfter(cfg, x.s, st.step)
    ensures Inside(x, st) ==> StepApply(cfg, x, st).s.live == x.s.live
  {
    hide SpansOk, Balanced, CentralsOk, PcsOk, Homed, Mutex, Progress, PagesSafe, DropPage, CacheClass, Apply;
    if st.Heap? { StepFrame(cfg, x.s, st.step); }
  }

  /** Page heap and caches running together.  The ghost run is the history of the caches; every
      span in it came from, and went back to, the page heap through the methods below, and
      each of them may be called whenever its step is enabled. */
  class System {
    const cfg: Config
    const heap: PageHeap
    ghost var run: seq<Cached>

    ghost function Now(): Cached
      requires run != []
      reads this
    {
      run[|run| - 1]
    }

    ghost predicate Valid()
      reads this, heap
    {
      && heap.Valid() && WholeSpans(cfg, heap.smallestSpan)
      && run != [] && CacheRun(cfg, run) && CacheInv(cfg, Now()) && Live(heap.spans) == Now().s.live
    }

    constructor (cfg: Config, heap: PageHeap, ghost start: Cached)
      requires heap.Valid() && heap.spans == map[] && WholeSpans(cfg, heap.smallestSpan) && CacheInit(cfg, start)
      ensures Valid() && this.cfg == cfg && this.heap == heap && run == [start]
    {
      hide heap.Shaped, heap.Listed, heap.Merged, heap.Ledger, WholeSpans, CacheInv;
      this.cfg, this.heap, run := cfg, heap, [start];
      CacheStarts(cfg, start);
      assert Live(map[]) == map[];
    }

    /** Thread `t` has the lock it waited for. */
    ghost predicate Locked(t: int)
      reads this
    {
      run != [] && 0 <= t < |Now().s.threads| && Now().s.threads[t].has
    }

    ghost predicate Asks(t: int, cl: int)
      reads this
    {
      Locked(t) && Now().s.threads[t].pc.Ask? && Now().s.threads[t].pc.cl == cl
    }

    ghost predicate Drains(t: int, id: SpanId)
      reads this
    {
      Locked(t) && Now().s.threads[t].pc.Drain? && Now().s.threads[t].pc.id == id
    }

    /** The history is extended by step `st`, and by nothing else. */
    twostate predicate Took(st: CacheStep)
      reads this
    {
      && |run| == |old(run)| + 1 >= 2 && run[..|old(run)|] == old(run)
      && CacheStepTo(cfg, run[|run| - 2], st, run[|run| - 1])
    }

    /** A step of the caches alone. */
    ghost method Other(st: CacheStep)
      requires Valid() && StepEnabled(cfg, Now(), st) && Inside(Now(), st)
      modifies this
      ensures Valid() && Took(st)
    {
      hide StepEnabled, StepApply, CacheInv, CacheRun, heap.Shaped, heap.Listed, heap.Merged, heap.Ledger, WholeSpans, Inside, Live;
      Grows(cfg, run, st);
      LiveOf(cfg, Now(), st);
      CacheStepKeeps(cfg, Now(), st);
      run := run + [StepApply(cfg, Now(), st)];
    }

    /** Writes step `st` of the caches into the history once the page heap has done its part. */
    ghost method Record(st: CacheStep)
      requires run != [] && CacheRun(cfg, run) && CacheInv(cfg, Now()) && StepEnabled(cfg, Now(), st)
      requires heap.Valid() && WholeSpans(cfg, heap.smallestSpan)
      requires st.Heap? && Live(heap.spans) == LiveAfter(cfg, Now().s, st.step)
      modifies this
      ensures Valid() && Took(st)
    {
      hide StepEnabled, StepApply, CacheInv, CacheRun, heap.Shaped, heap.Listed, heap.Merged, heap.Ledger, WholeSpans, Live, LiveAfter;
      Grows(cfg, run, st);
      LiveOf(cfg, Now(), st);
      CacheStepKeeps(cfg, Now(), st);
      run := run + [StepApply(cfg, Now(), st)];
    }

    /** Thread `t`, in Populate, asks the page heap for a span of class `cl`. */
    method Ask(t: int, cl: int) returns (r: Option<SpanId>)
      requires Asks(t, cl) && Valid()
      modifies this, heap
      ensures r.Some? ==> r.value in heap.spans
      ensures Took(Heap(RunLocked(t, Choice(Given(r), None, None))))
      ensures Valid()
    {
      hide StepEnabled, CacheInv, CacheRun, heap.Shaped, heap.Listed, heap.Merged, heap.Ledger, WholeSpans, Live;
      AskIsWhole(t, cl);
      ghost var x := Now();
      r := heap.NewWithSizeClass(cfg[cl].pages, cl);
      if r.Some? {
        HeapServes(heap, cfg, x.s, cl, x.s.threads[t].pc.n, r.value, None, None);
      }
      AskEnabled(t, Choice(Given(r), None, None));
      Record(Heap(RunLocked(t, Choice(Given(r), None, None))));
    }

    /** A span the page heap has returned, as a thread is given it. */
    ghost function Given(r: Option<SpanId>): Option<(SpanId, PageId)>
      requires r.Some? ==> r.value in heap.spans
      reads this, heap
    {
      if r.Some? then Some((r.value, heap.spans[r.value].start)) else None
    }

    lemma AskIsWhole(t: int, cl: int)
      requires Asks(t, cl) && Valid()
      ensures IsClass(cfg, cl) && ConfigOk(cfg) && 1 <= cfg[cl].pages < WordLimit
      ensures RoundUpSize(cfg[cl].pages, heap.smallestSpan) == cfg[cl].pages
    {
      hide CacheRun, heap.Shaped, heap.Listed, heap.Merged, heap.Ledger, Live, SpansOk, Balanced, CentralsOk, PcsOk, Homed, Mutex;
      hide Progress, PagesSafe, RoundUpSize;
      assert PcTyped(cfg, Now().s.threads[t].pc);
    }

    lemma AskEnabled(t: int, ch: Choice)
      requires run != [] && CacheInv(cfg, Now()) && 0 <= t < |Now().s.threads| && Now().s.threads[t].has
      requires ConfigOk(cfg) && ChoiceOk(cfg, Now().s, Now().s.threads[t].pc, ch)
      ensures StepEnabled(cfg, Now(), Heap(RunLocked(t, ch)))
    {
      hide ChoiceOk, SpansOk, Balanced, CentralsOk, PcsOk, Homed, Mutex, PagesSafe;
    }

    /** Thread `t`, in ReleaseToSpans, gives the empty span `id` back. */
    method Drain(t: int, id: SpanId)
      requires Drains(t, id) && Valid()
      modifies this, heap
      ensures Valid() && Took(Heap(RunLocked(t, Choice(None, None, None))))
    {
      hide StepEnabled, CacheInv, CacheRun, heap.Shaped, heap.Listed, heap.Merged, heap.Ledger, WholeSpans, Live;
      DrainedIsLive(t, id);
      LiveKeys(heap.spans, id);
      heap.DeleteLocked(id);
      AskEnabled(t, Choice(None, None, None));
      Record(Heap(RunLocked(t, Choice(None, None, None))));
    }

    lemma DrainedIsLive(t: int, id: SpanId)
      requires Drains(t, id) && Valid()
      ensures ConfigOk(cfg) && id in Now().s.live
    {
      hide CacheRun, heap.Shaped, heap.Listed, heap.Merged, heap.Ledger, Live, WholeSpans, Progress, PagesSafe;
      CarriedHeld(cfg, Now().s, t, id);
    }

    /** A span for a large block. */
    method NewLarge(n: int) returns (r: Option<SpanId>)
      requires Valid() && 1 <= n < WordLimit && LockFree(Now().s, PageHeapLock)
      modifies this, heap
      ensures Valid() && (r.Some? ==> r.value in heap.spans)
      ensures if r.Some? then var s := heap.spans[r.value]; Took(Heap(Step.NewLarge(r.value, s.start, s.length)))
              else run == old(run)
    {
      hide StepEnabled, CacheInv, CacheRun, heap.Shaped, heap.Listed, heap.Merged, heap.Ledger, WholeSpans, Live;
      r := heap.NewWithSizeClass(n, 0);
      if r.Some? { LargeGiven(r.value); }
    }

    /** An aligned span for a large block. */
    method NewLargeAligned(n: int, align: int) returns (r: Option<SpanId>)
      requires Valid() && 1 <= n < WordLimit && 1 <= align < WordLimit && LockFree(Now().s, PageHeapLock)
      modifies this, heap
      ensures Valid() && (r.Some? ==> r.value in heap.spans)
      ensures if r.Some? then var s := heap.spans[r.value];
                s.start % align == 0 && Took(Heap(Step.NewLarge(r.value, s.start, s.length)))
              else run == old(run)
    {
      hide StepEnabled, CacheInv, CacheRun, heap.Shaped, heap.Listed, heap.Merged, heap.Ledger, WholeSpans, Live;
      r := heap.NewAligned(n, align);
      if r.Some? { LargeGiven(r.value); }
    }

    ghost method LargeGiven(id: SpanId)
      requires run != [] && CacheRun(cfg, run) && CacheInv(cfg, Now()) && LockFree(Now().s, PageHeapLock)
      requires heap.Valid() && WholeSpans(cfg, heap.smallestSpan) && id in heap.spans && id !in Now().s.live
      requires Live(heap.spans) == Now().s.live[id := heap.spans[id]]
      requires heap.spans[id].location == InUse && heap.spans[id].sizeclass == 0
      modifies this
      ensures Valid() && var s := heap.spans[id]; Took(Heap(Step.NewLarge(id, s.start, s.length)))
    {
      hide CacheRun, heap.Listed, heap.Merged, heap.Ledger, WholeSpans, Live, Tiled, Tagged;
      hide SpansOk, Balanced, CentralsOk, PcsOk, Homed, Mutex, Progress, PagesSafe, LockFree;
      var s := heap.spans[id];
      HeapTiled(heap.spans);
      assert s == Span(s.start, s.length, InUse, 0);
      Record(Heap(Step.NewLarge(id, s.start, s.length)));
    }

    /** A large block is freed. */
    method FreeLarge(id: SpanId)
      requires Valid() && LockFree(Now().s, PageHeapLock) && id in Now().s.live && Now().s.live[id].sizeclass == 0
      modifies this, heap
      ensures Valid() && Took(Heap(Step.FreeLarge(id)))
    {
      hide CacheRun, heap.Shaped, heap.Listed, heap.Merged, heap.Ledger, WholeSpans, Live, LockFree;
      hide SpansOk, Balanced, CentralsOk, PcsOk, Homed, Mutex, Progress, PagesSafe;
      LiveKeys(heap.spans, id);
      heap.DeleteLocked(id);
      Record(Heap(Step.FreeLarge(id)));
    }

    /** Memory goes back to the system. */
    method ReleaseMemory(pages: int)
      requires Valid()
      modifies heap
      ensures Valid()
    {
      hide CacheInv, CacheRun, heap.Shaped, heap.Listed, heap.Merged, heap.Ledger, WholeSpans, Live;
      var released := heap.ReleaseAtLeastNPages(pages);
    }

    /** Whatever the system has been through, when no operation is under way the reported value is
        what clients hold plus the pages the page map refused. */
    lemma CurrentAllocated()
      requires Valid() && Quiescent(Now().s)
      ensures Sized(cfg, Now().s)
      ensures CurrentAllocatedBytes(heap, cfg, Now().s) ==
              SmallBytes(cfg, Now().s) + PagesWith(Now().s.live, 0) * PageSize + heap.lost * PageSize
    {
      hide CacheRun, Pages, PagesWith, ThreadBytes, CentralBytes, TransferBytes, SmallBytes, Live, WholeSpans;
      hide heap.Shaped, heap.Listed, heap.Merged, SpansOk, Balanced, CentralsOk, PcsOk, Homed, Mutex, Progress, PagesSafe;
      QuietBytes(cfg, Now().s);
      LiveInUse(heap.spans);
    }

    /** Whatever the system has been through, a small block is freed to its own class by this page map,
        this cache and its own table of sizes, from any size served from that class. */
    lemma FreesRight(m: SizeMaps.SizeMap, unit: int, transfer: int, k: int, o: Addr, size: Option<int>)
      requires Valid() && IsClass(cfg, k) && o in Now().s.client[k] && BuiltFrom(m, cfg, unit, transfer)
      requires ServedFrom(cfg, k, size) || o % PageSize == 0
      ensures ServedFrom(cfg, k, size) ==> Decide(m, Now().words, heap.spans, heap.pagemap, o, size) == ToClass(k)
      ensures DecideSized(m, Now().words, heap.spans, heap.pagemap, o, size) == ToClass(k)
    {
      hide CacheRun, heap.Listed, heap.Merged, heap.Ledger, WholeSpans, Live, Tiled, Tagged;
      hide SpansOk, Balanced, CentralsOk, PcsOk, Homed, Mutex, Progress, PagesSafe, Decide, DecideSized, SizeMaps.ClassesOk, SizeMaps.ClassIndex;
      ServedIs(m, cfg, unit, transfer, k, size);
      SmallFree(cfg, run, |run| - 1, heap.spans, heap.pagemap, m, unit, transfer, k, o, size);
    }

    /** And a large one is freed to its span, whatever size the caller passes. */
    lemma FreesLarge(m: SizeMaps.SizeMap, unit: int, transfer: int, i: SpanId, size: Option<int>)
      requires Valid() && i in Now().s.live && Now().s.live[i].sizeclass == 0 && BuiltFrom(m, cfg, unit, transfer)
      ensures var o := Now().s.live[i].start * PageSize;
        && (size.None? || size.value > SizeMaps.MaxSize ==>
              Decide(m, Now().words, heap.spans, heap.pagemap, o, size) == ToPageHeap(i))
        && DecideSized(m, Now().words, heap.spans, heap.pagemap, o, size) == ToPageHeap(i)
    {
      hide CacheRun, heap.Listed, heap.Merged, heap.Ledger, WholeSpans, Live, Tiled, Tagged;
      hide SpansOk, Balanced, CentralsOk, PcsOk, Homed, Mutex, Progress, PagesSafe, Decide, DecideSized, SizeMaps.ClassesOk, SizeMaps.ClassIndex;
      LargeFree(cfg, run, |run| - 1, heap.spans, heap.pagemap, m, i, size);
    }
  }

  /** A request of `size` bytes is served from class `k`. */
  ghost predicate ServedFrom(cfg: Config, k: int, size: Option<int>)
    requires IsClass(cfg, k)
  {
    size.Some? ==> 0 <= size.value <= cfg[k].size && (k > 1 ==> cfg[k - 1].size < size.value)
  }

  lemma ServedIs(m: SizeMaps.SizeMap, cfg: Config, unit: int, transfer: int, k: int, size: Option<int>)
    requires BuiltFrom(m, cfg, unit, transfer) && IsClass(cfg, k)
    ensures m.Arrays() && (ServedFrom(cfg, k, size) <==> SizeOf(m, k, size))
  {
    hide SizeMaps.ClassesOk, SizeMaps.ClassIndex, SizeMaps.NumMoveSize;
  }

  // ---------------------------------------------------------------- start-up

  /** CentralFreeList::Init: slots a transfer cache may have, at most a megabyte of objects or one. */
  function MaxSlots(cfg: Config, k: int): (n: int)
    requires 0 <= k < |cfg| && (k > 0 ==> cfg[k].Ok())
    ensures 1 <= n <= 64
  {
    if k == 0 then 64 else
      var n := 0x10_0000 / Bytes(cfg[k].size, cfg[k].batch);
      if n < 1 then 1 else if n < 64 then n else 64
  }

  /** The slots of a class other than 0 hold as many batches as fit in one megabyte, but at least one and at most 64. */
  lemma MaxSlotsExact(cfg: Config, k: int)
    requires 0 < k < |cfg| && cfg[k].Ok()
    ensures var n := MaxSlots(cfg, k); var bytes := Bytes(cfg[k].size, cfg[k].batch);
      (n > 1 ==> Bytes(n, bytes) <= 0x10_0000) && (n < 64 ==> Bytes(n + 1, bytes) > 0x10_0000)
  {
    var n, bytes := MaxSlots(cfg, k), Bytes(cfg[k].size, cfg[k].batch);
    var q := 0x10_0000 / bytes;
    assert q * bytes <= 0x10_0000 < (q + 1) * bytes;
    if n > 1 { assert n <= q; MoreBytes(n, q, bytes); }
    if n < 64 { assert q + 1 <= n + 1; MoreBytes(q + 1, n + 1, bytes); }
  }

  lemma MoreBytes(a: int, b: int, c: int)
    requires 0 <= a <= b && c >= 0
    ensures a * c <= b * c
  {
  }

  function Bytes(size: int, batch: int): (b: int)
    requires size >= 1 && batch >= 1
    ensures b >= 1
  {
    size * batch
  }

  ghost function EmptyList(cfg: Config, k: int): CentralList
    requires ConfigOk(cfg) && 0 <= k < |cfg|
  {
    CentralList(map[], [], [], 0, 0, [], if MaxSlots(cfg, k) < 16 then MaxSlots(cfg, k) else 16, MaxSlots(cfg, k))
  }

  /** The caches at start-up, for any number of threads. */
  ghost function Start(cfg: Config, threads: nat): Cached
    requires ConfigOk(cfg)
  {
    Cached(State(map[], seq(|cfg|, k requires 0 <= k < |cfg| => EmptyList(cfg, k)),
                 seq(threads, _ => Thread(seq(|cfg|, _ => []), Idle, false)), seq(|cfg|, _ => multiset{})),
           _ => ClearedWord, seq(threads, _ => 0))
  }

  lemma Starts(cfg: Config, threads: nat)
    requires ConfigOk(cfg) && FewClasses(cfg)
    ensures CacheInit(cfg, Start(cfg, threads))
  {
    hide Decode, MaxSlots;
    var x := Start(cfg, threads);
    forall k: Word ensures Get(x.words, k) == None { DecodeInvalid(k, k); }
  }

  /** The smallest span, in pages, is one the page heap accepts: a power of two. */
  predicate UnitOk(least: int) { 1 <= least <= PageLimit && WordLimit % least == 0 }

  lemma UnitIs(least: int)
    requires UnitOk(least)
    ensures 1 <= least <= PageLimit && WordLimit % least == 0
  {
  }

  lemma WholeUnit(least: int, span: int)
    requires least * PageSize == span
    ensures span / PageSize == least && (span == 5 * PageSize ==> !UnitOk(least))
  {
  }

  /** Static::InitStaticVars: size table, central lists and page heap.  Null stands for a failed
      check, which only the smallest span decides. */
  method Boot(native: int, transfer: int, heapLimit: int, metadata: int, ghost threads: nat)
    returns (m: SizeMaps.SizeMap, sys: System?)
    requires native >= 0 && transfer >= 1 && heapLimit >= 0 && metadata >= 0
    ensures sys != null <==> UnitOk(SizeMaps.SmallestSpan(native) / PageSize)
    ensures sys != null ==> sys.Valid() && BuiltFrom(m, sys.cfg, SizeMaps.SmallestSpan(native), transfer)
    ensures sys != null ==> ConfigOk(sys.cfg) && sys.run == [Start(sys.cfg, threads)]
    ensures sys != null ==> sys.heap.smallestSpan * PageSize == SizeMaps.SmallestSpan(native) && sys.heap.limit == heapLimit
  {
    hide SizeMaps.SmallestSpan, SizeMaps.ClassesOk, SizeMaps.ExactTo, SizeMaps.AllOk, SizeMaps.AllGrid, SizeMaps.Smallest,
      SizeMaps.ClassIndex, SizeMaps.NumMoveSize, SizeMaps.IsPower, WholeSpans, CacheInit, CacheRun, CacheInv, BuiltFrom, Start,
      UnitOk, ConfigOk, Live;
    m := new SizeMaps.SizeMap();
    var ok := m.Init(native, transfer);
    var least := m.minSpanPages;
    WholeUnit(least, SizeMaps.SmallestSpan(native));
    if !ok || !UnitOk(least) {
      return m, null;
    }
    UnitIs(least);
    var cfg := Classes(m, transfer, least);
    var heap := new PageHeap(least, heapLimit, metadata);
    TableServes(m, cfg, least, transfer);
    Starts(cfg, threads);
    sys := new System(cfg, heap, Start(cfg, threads));
  }

  /** The classes of an initialised table. */
  method Classes(m: SizeMaps.SizeMap, transfer: int, ghost least: int) returns (cfg: Config)
    requires m.TableOk(least * PageSize, transfer) && m.IndexOk()
    requires forall c :: 1 <= c < m.numClasses ==> m.toMove[c] == SizeMaps.NumMoveSize(m.toSize[c], transfer)
    ensures BuiltFrom(m, cfg, least * PageSize, transfer)
  {
    hide SizeMaps.ClassesOk, SizeMaps.NumMoveSize, SizeMaps.ClassIndex, SizeMaps.Smallest;
    cfg := [Class(8, 1, 1)];
    while |cfg| < m.numClasses
      invariant 1 <= |cfg| <= m.numClasses && cfg[0] == Class(8, 1, 1)
      invariant forall c :: 1 <= c < |cfg| ==> cfg[c] == Class(m.toSize[c], m.toPages[c], m.toMove[c])
    {
      cfg := cfg + [Class(m.toSize[|cfg|], m.toPages[|cfg|], m.toMove[|cfg|])];
    }
  }
}
