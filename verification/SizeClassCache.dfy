/** The cache of size classes beside the running allocator: threads read and write it
    without a lock, entries of dead spans stay behind in it, and still a block is never
    freed to the wrong class. */
module SizeClassCache {
  import opened Spans
  import opened Cells
  import opened Central
  import opened Allocator
  import opened AllocatorProof
  import opened PackedCaches
  import SizeMaps

  /** The allocator, the words of the cache, and for each thread how many pages of the
      span it has just been given are in the cache. */
  datatype Cached = Cached(s: State, words: Words, done: seq<int>)

  /** Class numbers fit the value bits of the cache. */
  ghost predicate FewClasses(cfg: Config) { |cfg| <= 128 }

  ghost predicate IsPage(p: PageId) { 0 <= p < PageLimit }

  /** TryGetSizeClass. */
  ghost function ClassHit(words: Words, p: PageId): Option<int> {
    if !IsPage(p) then None else
      match Get(words, Key(p))
      case None => None
      case Some(v) => Some(Number(v))
  }

  ghost function ClassValue(cl: int): (v: Value)
    requires 0 <= cl < 128
    ensures Number(v) == cl
  {
    SmallKey(Key(cl));
    Key(cl)
  }

  /** SetCachedSizeClass. */
  ghost function CacheClass(words: Words, p: PageId, cl: int): Words
    requires IsPage(p) && 0 <= cl < 128
  {
    PutIn(words, Key(p), ClassValue(cl))
  }

  /** InvalidateCachedSizeClass. */
  ghost function DropPage(words: Words, p: PageId): Words {
    if IsPage(p) then InvalidateIn(words, Key(p)) else words
  }

  lemma CacheClassHits(words: Words, p: PageId, cl: int, q: PageId)
    requires IsPage(p) && 0 <= cl < 128
    ensures q == p ==> ClassHit(CacheClass(words, p, cl), q) == Some(cl)
    ensures q != p ==> ClassHit(CacheClass(words, p, cl), q) in {None, ClassHit(words, q)}
  {
    hide Get, PutIn;
    if IsPage(q) {
      GetPut(words, Key(p), ClassValue(cl), Key(q));
    }
  }

  lemma DropPageHits(words: Words, p: PageId, q: PageId)
    ensures ClassHit(DropPage(words, p), q) in {None, ClassHit(words, q)}
    ensures q == p ==> ClassHit(DropPage(words, p), q) == None
  {
    hide Get, InvalidateIn;
    if IsPage(q) && IsPage(p) {
      GetInvalidate(words, Key(p), Key(q));
    }
  }

  // ---------------------------------------------------------------- steps

  datatype CacheStep =
    | Heap(step: Step)          // a step of the allocator
    | CachePage(t: int)         // Populate caches the next page of its new span
    | CacheOnFree(o: Addr)      // free missed the cache and found the class in the descriptor

  /** The new span a thread has in hand, before it is on a list. */
  function NewSpan(pc: Pc): Option<SpanId> {
    match pc
    case Carry(_, _, Some((id, _))) => Some(id)
    case _ => None
  }

  ghost predicate AllCached(cfg: Config, x: Cached, t: int)
    requires 0 <= t < |x.s.threads| && |x.done| == |x.s.threads|
  {
    var i := NewSpan(x.s.threads[t].pc);
    i.Some? && i.value in x.s.live ==> x.done[t] >= x.s.live[i.value].length
  }

  ghost predicate StepEnabled(cfg: Config, x: Cached, st: CacheStep)
    requires Typed(cfg, x.s) && |x.done| == |x.s.threads|
  {
    match st
    case Heap(step) => Enabled(cfg, x.s, step) && (step.Acquire? ==> AllCached(cfg, x, step.t))
    case CachePage(t) => 0 <= t < |x.s.threads| && !x.s.threads[t].has && !AllCached(cfg, x, t)
    case CacheOnFree(o) => ClientHas(cfg, x.s, o)
  }

  // ---------------------------------------------------------------- invariant

  /** The thread that cut page `p` out of the page heap has yet to cache it. */
  ghost predicate Pending(x: Cached, i: SpanId, p: PageId)
    requires |x.done| == |x.s.threads| && i in x.s.live
  {
    exists u :: 0 <= u < |x.s.threads| && NewSpan(x.s.threads[u].pc) == Some(i) && x.done[u] <= p - x.s.live[i].start
  }

  ghost predicate PageSafe(x: Cached, i: SpanId, p: PageId)
    requires |x.done| == |x.s.threads| && i in x.s.live
  {
    var sp := x.s.live[i];
    if sp.sizeclass == 0 then p == sp.start ==> ClassHit(x.words, p) == None
    else ClassHit(x.words, p) in {None, Some(sp.sizeclass)} || Pending(x, i, p)
  }

  ghost predicate PagesSafe(x: Cached)
    requires |x.done| == |x.s.threads|
  {
    forall i, p :: i in x.s.live && x.s.live[i].Covers(p) ==> PageSafe(x, i, p)
  }

  ghost predicate Progress(cfg: Config, x: Cached)
    requires |x.done| == |x.s.threads|
  {
    forall u :: 0 <= u < |x.s.threads| ==> x.done[u] >= 0 && (x.s.threads[u].has ==> AllCached(cfg, x, u))
  }

  ghost predicate CacheInv(cfg: Config, x: Cached) {
    Inv(cfg, x.s) && FewClasses(cfg) && |x.done| == |x.s.threads| && Progress(cfg, x) && PagesSafe(x)
  }

  lemma LivePage(cfg: Config, s: State, i: SpanId, p: PageId)
    requires Inv(cfg, s) && FewClasses(cfg) && i in s.live && s.live[i].Covers(p)
    ensures IsPage(p) && 0 <= s.live[i].sizeclass < 128
  {
    hide Balanced, CentralsOk, PcsOk, Homed, Mutex, Typed;
  }

  lemma ClientPage(cfg: Config, s: State, o: Addr)
    requires Inv(cfg, s) && FewClasses(cfg) && ClientHas(cfg, s, o)
    ensures IsPage(PageOf(o)) && 1 <= ClassAt(s.live, o) < 128
    ensures Owner(s.live, PageOf(o)).Some?
    ensures var i := Owner(s.live, PageOf(o)).value;
      i in s.live && s.live[i].Covers(PageOf(o)) && s.live[i].sizeclass == ClassAt(s.live, o)
  {
    hide Balanced, CentralsOk, PcsOk, Homed, Mutex, SpansOk;
    var k :| IsClass(cfg, k) && o in s.client[k];
    FreeFindsClass(cfg, s, k, o);
    LivePage(cfg, s, Owner(s.live, PageOf(o)).value, PageOf(o));
  }

  lemma NextPage(cfg: Config, x: Cached, t: int)
    requires CacheInv(cfg, x) && StepEnabled(cfg, x, CachePage(t))
    ensures var i := NewSpan(x.s.threads[t].pc).value;
      var p := x.s.live[i].start + x.done[t];
      x.s.live[i].Covers(p) && x.s.live[i].sizeclass != 0 && IsPage(p) && 0 <= x.s.live[i].sizeclass < 128
  {
    hide Inv, PagesSafe;
    var i := NewSpan(x.s.threads[t].pc).value;
    LivePage(cfg, x.s, i, x.s.live[i].start + x.done[t]);
    CarriedHeld(cfg, x.s, t, i);
  }

  ghost function StepApply(cfg: Config, x: Cached, st: CacheStep): Cached
    requires CacheInv(cfg, x) && StepEnabled(cfg, x, st)
  {
    match st
    case Heap(step) =>
      var s' := Apply(cfg, x.s, step);
      if step.RunLocked? && x.s.threads[step.t].pc.Ask? && step.ch.span.Some? then
        Cached(s', DropPage(x.words, step.ch.span.value.1), x.done[step.t := 0])
      else if step.NewLarge? then Cached(s', DropPage(x.words, step.start), x.done)
      else Cached(s', x.words, x.done)
    case CachePage(t) =>
      NextPage(cfg, x, t);
      var sp := x.s.live[NewSpan(x.s.threads[t].pc).value];
      x.(words := CacheClass(x.words, sp.start + x.done[t], sp.sizeclass), done := x.done[t := x.done[t] + 1])
    case CacheOnFree(o) =>
      ClientPage(cfg, x.s, o);
      x.(words := CacheClass(x.words, PageOf(o), ClassAt(x.s.live, o)))
  }

  /** The cache after a write for page `p`: that page gives `cl`, other pages with its low bits miss, the rest is as before. */
  ghost predicate HitsAfter(words: Words, words': Words, p: PageId, cl: Option<int>, q: PageId) {
    && IsPage(p) && IsPage(q)
    && ClassHit(words', q) == if q == p then cl else if Hash(Key(q)) == Hash(Key(p)) then None else ClassHit(words, q)
  }

  /** The first page of a span that a step takes from the page heap. */
  function TakenAt(s: State, step: Step): Option<PageId> {
    if step.NewLarge? then Some(step.start)
    else if step.RunLocked? && 0 <= step.t < |s.threads| && s.threads[step.t].pc.Ask? && step.ch.span.Some? then
      Some(step.ch.span.value.1)
    else None
  }

  /** Populate's writes and the one after a miss make their page hit with its class; only the first page of a span newly
      taken from the page heap is dropped. */
  lemma StepHits(cfg: Config, x: Cached, st: CacheStep, q: PageId)
    requires CacheInv(cfg, x) && StepEnabled(cfg, x, st) && IsPage(q)
    ensures var x' := StepApply(cfg, x, st); match st
      case CachePage(t) =>
        var sp := x.s.live[NewSpan(x.s.threads[t].pc).value];
        x'.s == x.s && HitsAfter(x.words, x'.words, sp.start + x.done[t], Some(sp.sizeclass), q)
      case CacheOnFree(o) => x'.s == x.s && HitsAfter(x.words, x'.words, PageOf(o), Some(ClassAt(x.s.live, o)), q)
      case Heap(step) =>
        var p := TakenAt(x.s, step);
        x'.s == Apply(cfg, x.s, step) &&
        if p.Some? && IsPage(p.value) then HitsAfter(x.words, x'.words, p.value, None, q) else x'.words == x.words
  {
    hide Inv, PagesSafe, Progress, Apply, Get, PutIn, InvalidateIn, Key, Hash, ClassAt, ChoiceOk;
    match st
    case CachePage(t) =>
      NextPage(cfg, x, t);
      var sp := x.s.live[NewSpan(x.s.threads[t].pc).value];
      GetPut(x.words, Key(sp.start + x.done[t]), ClassValue(sp.sizeclass), Key(q));
    case CacheOnFree(o) =>
      ClientPage(cfg, x.s, o);
      GetPut(x.words, Key(PageOf(o)), ClassValue(ClassAt(x.s.live, o)), Key(q));
    case Heap(step) =>
      var p := TakenAt(x.s, step);
      if p.Some? && IsPage(p.value) { GetInvalidate(x.words, Key(p.value), Key(q)); }
  }

  // ---------------------------------------------------------------- what a step moves

  /** The thread that moves in a step, if any. */
  function Mover(step: Step): int {
    match step
    case Malloc(t, _) => t
    case Refill(t, _, _) => t
    case Free(t, _) => t
    case FreeDirect(t, _) => t
    case Flush(t, _, _) => t
    case Acquire(t) => t
    case RunLocked(t, _) => t
    case _ => -1
  }

  /** The spans after a step. */
  ghost function LiveAfter(cfg: Config, s: State, step: Step): Table
    requires Typed(cfg, s) && Enabled(cfg, s, step)
  {
    match step
    case RunLocked(t, ch) =>
      assert PcTyped(cfg, s.threads[t].pc);
      (match s.threads[t].pc
       case Ask(cl, _) =>
         if ch.span.Some? then s.live[ch.span.value.0 := Span(ch.span.value.1, cfg[cl].pages, InUse, cl)] else s.live
       case Drain(_, id, _, _, _) => s.live - {id}
       case _ => s.live)
    case NewLarge(id, start, length) => s.live[id := Span(start, length, InUse, 0)]
    case FreeLarge(id) => s.live - {id}
    case _ => s.live
  }

  /** Only thread `t` has moved, and holds no lock unless it kept its place; the live spans are `live`. */
  ghost predicate OnlyMoves(s: State, s': State, t: int, live: Table) {
    && s'.live == live && |s'.threads| == |s.threads|
    && (forall u :: 0 <= u < |s.threads| && u != t ==> s'.threads[u] == s.threads[u])
    && (0 <= t < |s.threads| && s'.threads[t].has ==> s'.threads[t].pc == s.threads[t].pc)
  }

  lemma DropFrame(cfg: Config, s: State, t: int, cl: int, chain: seq<Addr>, after: After)
    requires ConfigOk(cfg) && 0 <= t < |s.threads| && 0 <= cl < |cfg| == |s.central|
    ensures OnlyMoves(s, DropRun(cfg, s, t, cl, chain, after), t, s.live)
  {
    hide ConfigOk, ReleaseListToSpans;
  }

  lemma InsertFrame(cfg: Config, s: State, t: int, cl: int, chain: seq<Addr>, ch: Choice)
    requires ConfigOk(cfg) && 0 <= t < |s.threads| && 0 <= cl < |cfg| == |s.central|
    ensures OnlyMoves(s, RunInsert(cfg, s, t, cl, chain, ch), t, s.live)
    ensures OnlyMoves(s, SecondTry(cfg, s, t, cl, chain, ch), t, s.live)
  {
    hide ConfigOk, DropRun, PushSlot;
    DropFrame(cfg, s, t, cl, chain, Done);
  }

  lemma EvictFrame(cfg: Config, s: State, t: int, cl: int, chain: seq<Addr>, victim: int, force: bool)
    requires ConfigOk(cfg) && 0 <= t < |s.threads| && 0 <= victim < |cfg| == |s.central|
    ensures OnlyMoves(s, RunEvict(cfg, s, t, cl, chain, victim, force), t, s.live)
  {
    hide ConfigOk, DropRun;
    var c := s.central[victim];
    if c.slots != [] {
      var (slot, c') := PopSlot(c);
      DropFrame(cfg, WithCentral(s, victim, c'.(cacheSize := c.cacheSize - 1)), t, victim, slot, Resume(cl, chain, force));
    }
  }

  lemma BackFrame(cfg: Config, s: State, t: int, cl: int, chain: seq<Addr>, force: bool, ok: bool, ch: Choice)
    requires ConfigOk(cfg) && 0 <= t < |s.threads| && 0 <= cl < |cfg| == |s.central|
    ensures OnlyMoves(s, RunBack(cfg, s, t, cl, chain, force, ok, ch), t, s.live)
  {
    hide ConfigOk, DropRun, PushSlot, SecondTry;
    InsertFrame(cfg, s, t, cl, chain, ch);
    DropFrame(cfg, s, t, cl, chain, Done);
  }

  lemma FetchFrame(cfg: Config, s: State, t: int, cl: int, n: int, got: Option<(SpanId, seq<Addr>)>)
    requires Typed(cfg, s) && 0 <= t < |s.threads| && IsClass(cfg, cl) && n >= 1
    ensures OnlyMoves(s, RunRemove(cfg, s, t, cl, n), t, s.live)
    ensures OnlyMoves(s, RunCarry(cfg, s, t, cl, n, got), t, s.live)
  {
    hide PcTyped, FetchMany, AddSpan, PopSlot;
  }

  lemma RunFrame(cfg: Config, s: State, t: int, ch: Choice)
    requires Typed(cfg, s) && Enabled(cfg, s, RunLocked(t, ch))
    ensures OnlyMoves(s, Run(cfg, s, t, ch), t, LiveAfter(cfg, s, RunLocked(t, ch)))
  {
    hide RunInsert, RunEvict, RunBack, RunRemove, RunCarry, DropRun, ConfigOk, Linked, CellsOf;
    assert PcTyped(cfg, s.threads[t].pc);
    match s.threads[t].pc
    case Idle =>
    case Remove(cl, n) => FetchFrame(cfg, s, t, cl, n, None);
    case Ask(cl, n) =>
    case Carry(cl, n, got) => FetchFrame(cfg, s, t, cl, n, got);
    case Insert(cl, chain) => InsertFrame(cfg, s, t, cl, chain, ch);
    case Evict(cl, chain, victim, force) => EvictFrame(cfg, s, t, cl, chain, victim, force);
    case Back(cl, chain, force, ok) => BackFrame(cfg, s, t, cl, chain, force, ok, ch);
    case Drop(cl, rest, after) => DropFrame(cfg, s, t, cl, rest, after);
    case Drain(cl, id, _, rest, after) =>
  }

  lemma StepFrame(cfg: Config, s: State, step: Step)
    requires Inv(cfg, s) && Enabled(cfg, s, step)
    ensures OnlyMoves(s, Apply(cfg, s, step), Mover(step), LiveAfter(cfg, s, step))
  {
    hide Run, ConfigOk, Linked, PcTyped, ClassAt, SpansOk, Balanced, CentralsOk, PcsOk, Homed, Mutex;
    if step.RunLocked? { RunFrame(cfg, s, step.t, step.ch); }
  }

  // ---------------------------------------------------------------- every step keeps it

  /** A page put into the cache by the thread or block of its own span is safe, and no other page is worse off. */
  lemma PutSafe(cfg: Config, x: Cached, x': Cached, i: SpanId, p: PageId)
    requires CacheInv(cfg, x) && x'.s == x.s && |x'.done| == |x.done|
    requires i in x.s.live && x.s.live[i].Covers(p) && IsPage(p) && 1 <= x.s.live[i].sizeclass < 128
    requires x'.words == CacheClass(x.words, p, x.s.live[i].sizeclass)
    requires forall u :: 0 <= u < |x.done| && x'.done[u] != x.done[u] ==>
               NewSpan(x.s.threads[u].pc) == Some(i) && x.done[u] == p - x.s.live[i].start && x'.done[u] == x.done[u] + 1
    ensures PagesSafe(x')
  {
    hide Inv, Progress, ClassHit, CacheClass;
    var t := x.s.live;
    forall j, q | j in t && t[j].Covers(q) ensures PageSafe(x', j, q) {
      CacheClassHits(x.words, p, t[i].sizeclass, q);
      if q == p { OneSpan(cfg, x.s, i, j, p); }
      assert PageSafe(x, j, q);
      if q != p && t[j].sizeclass != 0 && Pending(x, j, q) {
        var u :| 0 <= u < |x.s.threads| && NewSpan(x.s.threads[u].pc) == Some(j) && x.done[u] <= q - t[j].start;
        assert x'.done[u] <= q - t[j].start;
      }
    }
  }

  lemma OneSpan(cfg: Config, s: State, i: SpanId, j: SpanId, p: PageId)
    requires Inv(cfg, s) && i in s.live && j in s.live && s.live[i].Covers(p) && s.live[j].Covers(p)
    ensures i == j
  {
    hide Balanced, CentralsOk, PcsOk, Homed, Mutex, Typed;
    assert i != j ==> Apart(s.live[i], s.live[j]);
  }

  lemma NewIsLive(cfg: Config, s: State, u: int)
    requires Inv(cfg, s) && 0 <= u < |s.threads| && NewSpan(s.threads[u].pc).Some?
    ensures NewSpan(s.threads[u].pc).value in s.live
  {
    hide Inv;
    CarriedHeld(cfg, s, u, NewSpan(s.threads[u].pc).value);
  }

  /** A thread with a page still to cache is not the one that moves. */
  lemma PendingStays(cfg: Config, x: Cached, step: Step, u: int, i: SpanId, p: PageId)
    requires CacheInv(cfg, x) && StepEnabled(cfg, x, Heap(step)) && 0 <= u < |x.s.threads|
    requires i in x.s.live && x.s.live[i].Covers(p)
    requires NewSpan(x.s.threads[u].pc) == Some(i) && x.done[u] <= p - x.s.live[i].start
    ensures u != Mover(step)
  {
    hide Inv, PagesSafe, LockFree, ClientHas;
  }

  lemma HeapProgress(cfg: Config, x: Cached, step: Step)
    requires CacheInv(cfg, x) && StepEnabled(cfg, x, Heap(step))
    ensures var x' := StepApply(cfg, x, Heap(step));
      |x'.done| == |x'.s.threads| && Progress(cfg, x')
  {
    hide Inv, PagesSafe, LockFree, ClientHas, DropPage, Apply, LiveAfter;
    var x' := StepApply(cfg, x, Heap(step));
    StepFrame(cfg, x.s, step);
    forall u | 0 <= u < |x.s.threads|
      ensures x'.done[u] >= 0 && (x'.s.threads[u].has ==> AllCached(cfg, x', u))
    {
      if x'.s.threads[u].has && NewSpan(x'.s.threads[u].pc).Some? {
        NewIsLive(cfg, x.s, u);
        var i := NewSpan(x.s.threads[u].pc).value;
        if i in x'.s.live { SameSpan(cfg, x.s, step, i); }
      }
    }
  }

  /** A step changes no live span that it leaves live. */
  lemma SameSpan(cfg: Config, s: State, step: Step, i: SpanId)
    requires Inv(cfg, s) && Enabled(cfg, s, step) && i in s.live && i in LiveAfter(cfg, s, step)
    ensures LiveAfter(cfg, s, step)[i] == s.live[i]
  {
    hide SpansOk, Balanced, CentralsOk, PcsOk, Homed, Mutex, LockFree, ClientHas, Tiled, Linked;
    if step.RunLocked? { assert ChoiceOk(cfg, s, s.threads[step.t].pc, step.ch); }
  }

  lemma OldSpanSafe(cfg: Config, x: Cached, step: Step, i: SpanId, p: PageId)
    requires CacheInv(cfg, x) && StepEnabled(cfg, x, Heap(step)) && i in x.s.live && x.s.live[i].Covers(p)
    requires i in StepApply(cfg, x, Heap(step)).s.live
    ensures |StepApply(cfg, x, Heap(step)).done| == |StepApply(cfg, x, Heap(step)).s.threads|
    ensures PageSafe(StepApply(cfg, x, Heap(step)), i, p)
  {
    hide Inv, Progress, LockFree, ClientHas, DropPage, ClassHit, Apply, LiveAfter;
    var x' := StepApply(cfg, x, Heap(step));
    StepFrame(cfg, x.s, step);
    SameSpan(cfg, x.s, step, i);
    if step.NewLarge? { DropPageHits(x.words, step.start, p); }
    if step.RunLocked? && step.ch.span.Some? { DropPageHits(x.words, step.ch.span.value.1, p); }
    assert PageSafe(x, i, p);
    if x.s.live[i].sizeclass != 0 && Pending(x, i, p) {
      var u :| 0 <= u < |x.s.threads| && NewSpan(x.s.threads[u].pc) == Some(i) && x.done[u] <= p - x.s.live[i].start;
      PendingStays(cfg, x, step, u, i, p);
      assert NewSpan(x'.s.threads[u].pc) == Some(i) && x'.done[u] <= p - x'.s.live[i].start;
    }
  }

  lemma NewSpanSafe(cfg: Config, x: Cached, step: Step, i: SpanId, p: PageId)
    requires CacheInv(cfg, x) && StepEnabled(cfg, x, Heap(step)) && i !in x.s.live
    requires i in StepApply(cfg, x, Heap(step)).s.live && StepApply(cfg, x, Heap(step)).s.live[i].Covers(p)
    ensures |StepApply(cfg, x, Heap(step)).done| == |StepApply(cfg, x, Heap(step)).s.threads|
    ensures PageSafe(StepApply(cfg, x, Heap(step)), i, p)
  {
    hide SpansOk, Balanced, CentralsOk, PcsOk, Homed, Mutex, Progress, LockFree, ClientHas, DropPage, ClassHit;
    var x' := StepApply(cfg, x, Heap(step));
    StepFrame(cfg, x.s, step);
    if step.NewLarge? {
      DropPageHits(x.words, step.start, p);
    } else {
      assert step.RunLocked?;
      assert NewSpan(x'.s.threads[step.t].pc) == Some(i) && x'.done[step.t] <= p - x'.s.live[i].start;
    }
  }

  lemma CacheStepKeeps(cfg: Config, x: Cached, st: CacheStep)
    requires CacheInv(cfg, x) && StepEnabled(cfg, x, st)
    ensures CacheInv(cfg, StepApply(cfg, x, st))
  {
    hide Inv, Progress, CacheClass, Apply, DropPage, PageSafe;
    var x' := StepApply(cfg, x, st);
    match st
    case Heap(step) =>
      StepKeeps(cfg, x.s, step);
      HeapProgress(cfg, x, step);
      forall i, p | i in x'.s.live && x'.s.live[i].Covers(p) ensures PageSafe(x', i, p) {
        if i in x.s.live {
          StepFrame(cfg, x.s, step);
          SameSpan(cfg, x.s, step, i);
          OldSpanSafe(cfg, x, step, i, p);
        } else {
          NewSpanSafe(cfg, x, step, i, p);
        }
      }
    case CachePage(t) =>
      NextPage(cfg, x, t);
      var i := NewSpan(x.s.threads[t].pc).value;
      PutSafe(cfg, x, x', i, x.s.live[i].start + x.done[t]);
      PutProgress(cfg, x, t);
    case CacheOnFree(o) =>
      ClientPage(cfg, x.s, o);
      PutSafe(cfg, x, x', Owner(x.s.live, PageOf(o)).value, PageOf(o));
      SameProgress(cfg, x, x');
  }

  lemma PutProgress(cfg: Config, x: Cached, t: int)
    requires CacheInv(cfg, x) && StepEnabled(cfg, x, CachePage(t))
    ensures Progress(cfg, StepApply(cfg, x, CachePage(t)))
  {
    hide Inv, PagesSafe, CacheClass;
  }

  lemma SameProgress(cfg: Config, x: Cached, x': Cached)
    requires |x.done| == |x.s.threads| && Progress(cfg, x) && x'.s == x.s && x'.done == x.done
    ensures Progress(cfg, x')
  {
  }

  // ---------------------------------------------------------------- runs

  ghost predicate CacheInit(cfg: Config, x: Cached) {
    && Init(cfg, x.s) && FewClasses(cfg) && |x.done| == |x.s.threads|
    && (forall u :: 0 <= u < |x.done| ==> x.done[u] == 0)
    && (forall k: Word :: Get(x.words, k) == None)
  }

  /** One step.  Steps are defined in states of the invariant; others, which no run reaches, may go anywhere. */
  ghost predicate CacheNext(cfg: Config, x: Cached, x': Cached) {
    CacheInv(cfg, x) ==> exists st :: StepEnabled(cfg, x, st) && x' == StepApply(cfg, x, st)
  }

  ghost predicate CacheRun(cfg: Config, run: seq<Cached>) {
    && |run| >= 1 && CacheInit(cfg, run[0])
    && (forall j :: 0 <= j < |run| - 1 ==> CacheNext(cfg, run[j], run[j + 1]))
  }

  lemma {:induction false} CacheInvAlways(cfg: Config, run: seq<Cached>, j: int)
    requires CacheRun(cfg, run) && 0 <= j < |run|
    ensures CacheInv(cfg, run[j])
  {
    hide StepEnabled, StepApply, Init, Progress, PagesSafe, Typed, SpansOk, Balanced, CentralsOk, PcsOk, Homed, Mutex;
    if j == 0 {
      CacheStarts(cfg, run[0]);
    } else {
      CacheInvAlways(cfg, run, j - 1);
      assert CacheNext(cfg, run[j - 1], run[j]);
      var st :| StepEnabled(cfg, run[j - 1], st) && run[j] == StepApply(cfg, run[j - 1], st);
      CacheStepKeeps(cfg, run[j - 1], st);
    }
  }

  lemma CacheStarts(cfg: Config, x: Cached)
    requires CacheInit(cfg, x)
    ensures CacheInv(cfg, x)
  {
    hide Inv, Get;
    InitHolds(cfg, x.s);
  }

  // ---------------------------------------------------------------- what it means for free

  /** A hit on the page of a block a client holds gives the class of the block. */
  lemma HitIsRight(cfg: Config, x: Cached, k: int, o: Addr)
    requires CacheInv(cfg, x) && IsClass(cfg, k) && o in x.s.client[k]
    ensures ClassHit(x.words, PageOf(o)) in {None, Some(k)}
    ensures ClassAt(x.s.live, o) == k
  {
    hide SpansOk, Balanced, CentralsOk, PcsOk, Homed, Mutex, Progress, ClassHit;
    FreeFindsClass(cfg, x.s, k, o);
    assert ClientHas(cfg, x.s, o);
    ClientPage(cfg, x.s, o);
    var i := Owner(x.s.live, PageOf(o)).value;
    assert PageSafe(x, i, PageOf(o));
    if Pending(x, i, PageOf(o)) {
      var u :| 0 <= u < |x.s.threads| && NewSpan(x.s.threads[u].pc) == Some(i);
      ClientNotCarried(cfg, x.s, k, o, u, i);
    }
  }

  /** The page heap span of a block a client holds is in no thread's hand. */
  lemma ClientNotCarried(cfg: Config, s: State, k: int, o: Addr, u: int, i: SpanId)
    requires Inv(cfg, s) && IsClass(cfg, k) && o in s.client[k] && 0 <= u < |s.threads|
    requires Owner(s.live, PageOf(o)) == Some(i)
    ensures NewSpan(s.threads[u].pc) != Some(i)
  {
    hide SpansOk, Balanced, CentralsOk, PcsOk, Homed, Mutex, CellsOf, Kept, Held, Full, Owner, ThreadHeld;
    ClientInHeld(s, k, o);
    InvBalance(cfg, s, k);
    InvOnce(cfg, s, k, o);
    HeldHas(s, u, k, o);
    LiveTiled(cfg, s);
    FullHome(cfg, s.live, k, o);
    var j :| SpanOk(cfg[k], s.live, k, j) && o in CellsOf(cfg[k], s.live[j].start);
    OwnerOfCell(cfg[k], s.live, k, j, o);
    if NewSpan(s.threads[u].pc) == Some(i) {
      CarriedHeld(cfg, s, u, i);
    }
  }

  lemma LiveTiled(cfg: Config, s: State)
    requires Inv(cfg, s)
    ensures Tiled(s.live)
  {
    hide Balanced, CentralsOk, PcsOk, Homed, Mutex, Typed;
  }

  datatype Decision = ToClass(cl: int) | ToPageHeap(i: SpanId) | NotOurs

  /** GetSizeClass, as a value: the class for a request, or none if it is too large for one. */
  ghost function SizeClassOf(m: SizeMaps.SizeMap, bytes: int): Option<int>
    requires m.Arrays()
    reads m, m.classArray
  {
    if 0 <= bytes <= SizeMaps.MaxSize then Some(m.classArray[SizeMaps.ClassIndex(bytes)]) else None
  }

  /** do_free_with_callback: where a block goes; `size` is what the caller says about it, if anything. */
  ghost function Decide(m: SizeMaps.SizeMap, words: Words, spans: Table, pm: map<PageId, SpanId>, o: Addr, size: Option<int>): Decision
    requires m.Arrays()
    reads m, m.classArray
  {
    var p := PageOf(o);
    if size.Some? && SizeClassOf(m, size.value).Some? then ToClass(SizeClassOf(m, size.value).value)
    else if size.None? && ClassHit(words, p).Some? then ToClass(ClassHit(words, p).value)
    else if p !in pm || pm[p] !in spans then NotOurs
    else if spans[pm[p]].sizeclass == 0 then ToPageHeap(pm[p])
    else ToClass(spans[pm[p]].sizeclass)
  }

  /** tc_free_sized: the size is not trusted for a block at the start of a page. */
  ghost function DecideSized(m: SizeMaps.SizeMap, words: Words, spans: Table, pm: map<PageId, SpanId>, o: Addr, size: Option<int>): Decision
    requires m.Arrays()
    reads m, m.classArray
  {
    Decide(m, words, spans, pm, o, if o % PageSize == 0 then None else size)
  }

  /** The size a caller passes for a block of class `k`: any that is served from that class. */
  ghost predicate SizeOf(m: SizeMaps.SizeMap, k: int, size: Option<int>)
    requires m.Arrays() && m.numClasses <= SizeMaps.ClassLimit
    reads m, m.toSize
  {
    size.Some? ==> 0 <= size.value && SizeMaps.Smallest(m.toSize[..], m.numClasses, k, size.value)
  }

  /** The flattened index gives the class a size is served from. */
  lemma IndexGives(m: SizeMaps.SizeMap, unit: int, transfer: int, k: int, size: int)
    requires m.TableOk(unit, transfer) && m.IndexOk() && SizeOf(m, k, Some(size)) && size <= SizeMaps.MaxSize
    ensures SizeClassOf(m, size) == Some(k)
  {
    hide SizeMaps.ClassIndex, SizeMaps.ClassesOk;
    var sizes, pages, n, c := m.toSize[..], m.toPages[..], m.numClasses, m.classArray[SizeMaps.ClassIndex(size)];
    assert SizeMaps.Smallest(sizes, n, c, size);
    SizeMaps.SmallestIsLeast(sizes, pages, n, unit, transfer, size, c, k);
    SizeMaps.SmallestIsLeast(sizes, pages, n, unit, transfer, size, k, c);
  }

  /** The page map names the live spans. */
  ghost predicate Describes(spans: Table, pm: map<PageId, SpanId>, live: Table) {
    Tagged(spans, pm) && live == Live(spans)
  }

  lemma DescriptorOf(spans: Table, pm: map<PageId, SpanId>, live: Table, i: SpanId, p: PageId)
    requires Describes(spans, pm, live) && i in live
    requires p == live[i].start || (live[i].Covers(p) && live[i].sizeclass != 0)
    ensures MapsTo(pm, p, i) && i in spans && spans[i] == live[i]
  {
    hide NoStray;
    assert TagsOf(spans[i], i, pm);
  }

  /** In every run, a small block goes to its own class whether the class comes from the
      cache, the descriptor or the size the caller passes (at a page start, any size). */
  lemma SmallFree(cfg: Config, run: seq<Cached>, j: int, spans: Table, pm: map<PageId, SpanId>, m: SizeMaps.SizeMap,
          unit: int, transfer: int, k: int, o: Addr, size: Option<int>)
    requires CacheRun(cfg, run) && 0 <= j < |run| && IsClass(cfg, k) && k < |run[j].s.client| && o in run[j].s.client[k]
    requires Describes(spans, pm, run[j].s.live)
    requires m.TableOk(unit, transfer) && m.IndexOk() && (SizeOf(m, k, size) || o % PageSize == 0)
    ensures SizeOf(m, k, size) ==> Decide(m, run[j].words, spans, pm, o, size) == ToClass(k)
    ensures DecideSized(m, run[j].words, spans, pm, o, size) == ToClass(k)
  {
    hide CacheRun, Describes, ClassHit, SpansOk, Balanced, CentralsOk, PcsOk, Homed, Mutex, Progress, PagesSafe, SizeClassOf;
    hide SizeMaps.ClassesOk, SizeMaps.ClassIndex;
    CacheInvAlways(cfg, run, j);
    var x := run[j];
    HitIsRight(cfg, x, k, o);
    assert ClientHas(cfg, x.s, o);
    ClientPage(cfg, x.s, o);
    DescriptorOf(spans, pm, x.s.live, Owner(x.s.live, PageOf(o)).value, PageOf(o));
    if size.Some? && SizeOf(m, k, size) {
      SmallSize(m, unit, transfer, k, size.value);
      IndexGives(m, unit, transfer, k, size.value);
    }
  }

  lemma SmallSize(m: SizeMaps.SizeMap, unit: int, transfer: int, k: int, size: int)
    requires m.TableOk(unit, transfer) && SizeOf(m, k, Some(size))
    ensures size <= SizeMaps.MaxSize
  {
    hide SizeMaps.LeastSpan;
    assert SizeMaps.ClassOk(m.toSize[..][k], m.toPages[..][k], unit, transfer);
  }

  /** In every run, a large block goes to the page heap, whatever size the caller passes. */
  lemma LargeFree(cfg: Config, run: seq<Cached>, j: int, spans: Table, pm: map<PageId, SpanId>, m: SizeMaps.SizeMap,
          i: SpanId, size: Option<int>)
    requires CacheRun(cfg, run) && 0 <= j < |run| && i in run[j].s.live && run[j].s.live[i].sizeclass == 0
    requires Describes(spans, pm, run[j].s.live) && m.Arrays()
    ensures ClassHit(run[j].words, run[j].s.live[i].start) == None
    ensures size.None? || size.value > SizeMaps.MaxSize ==>
              Decide(m, run[j].words, spans, pm, run[j].s.live[i].start * PageSize, size) == ToPageHeap(i)
    ensures DecideSized(m, run[j].words, spans, pm, run[j].s.live[i].start * PageSize, size) == ToPageHeap(i)
  {
    hide CacheRun, Describes, ClassHit, Typed, Balanced, CentralsOk, PcsOk, Homed, Mutex, Progress;
    CacheInvAlways(cfg, run, j);
    var x := run[j];
    var p := x.s.live[i].start;
    assert x.s.live[i].Covers(p) && PageSafe(x, i, p);
    DescriptorOf(spans, pm, x.s.live, i, p);
    assert PageOf(p * PageSize) == p;
  }
}
