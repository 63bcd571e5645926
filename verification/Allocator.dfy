/** The caches of small objects as a system of concurrent threads.

    A step of a thread is what its code does between taking a lock and the next
    release; between two such steps the thread keeps what it has in hand in its
    program counter.  Unlocked reads and the choice of a victim class are left open. */
module Allocator {
  import opened Spans
  import opened Cells
  import opened Central

  /** What to go on with when a chain has been released to its spans. */
  datatype After = Done | Resume(cl: int, chain: seq<Addr>, force: bool)

  /** Where a thread stands; every point but `Idle` waits for, or holds, one lock. */
  datatype Pc =
    | Idle
    | Remove(cl: int, n: int)                                           // RemoveRange, to lock the class
    | Ask(cl: int, n: int)                                              // Populate, to lock the page heap
    | Carry(cl: int, n: int, got: Option<(SpanId, seq<Addr>)>)        // Populate, to lock the class again
    | Insert(cl: int, chain: seq<Addr>)                                 // InsertRange, to lock the class
    | Evict(cl: int, chain: seq<Addr>, victim: int, force: bool)        // ShrinkCache, to lock the victim
    | Back(cl: int, chain: seq<Addr>, force: bool, ok: bool)            // LockInverter, to lock the class again
    | Drop(cl: int, rest: seq<Addr>, after: After)                      // ReleaseListToSpans, to lock the class again
    | Drain(cl: int, id: SpanId, gone: seq<Addr>, rest: seq<Addr>, after: After) // ReleaseToSpans, to lock the page heap

  datatype Thread = Thread(lists: seq<seq<Addr>>, pc: Pc, has: bool)

  datatype State = State(
    live: Table,                        // spans handed out by the page heap
    central: seq<CentralList>,          // by size class; no object has class 0
    threads: seq<Thread>,
    client: seq<multiset<Addr>>)        // small blocks clients hold, by size class

  type Config = seq<Class>

  ghost predicate ConfigOk(cfg: Config) {
    forall k :: 0 <= k < |cfg| ==> cfg[k].Ok()
  }

  predicate IsClass(cfg: Config, cl: int) { 1 <= cl < |cfg| }

  // ---------------------------------------------------------------- what is where

  ghost function AfterHand(after: After, k: int): multiset<Addr> {
    if after.Resume? && after.cl == k then multiset(after.chain) else multiset{}
  }

  /** Objects of class `k` a thread holds in hand. */
  ghost function Hand(pc: Pc, k: int): multiset<Addr> {
    match pc
    case Carry(cl, _, got) => if cl == k && got.Some? then multiset(got.value.1) else multiset{}
    case Insert(cl, chain) => if cl == k then multiset(chain) else multiset{}
    case Evict(cl, chain, _, _) => if cl == k then multiset(chain) else multiset{}
    case Back(cl, chain, _, _) => if cl == k then multiset(chain) else multiset{}
    case Drop(cl, rest, after) => (if cl == k then multiset(rest) else multiset{}) + AfterHand(after, k)
    case Drain(cl, _, gone, rest, after) =>
      (if cl == k then multiset(gone) + multiset(rest) else multiset{}) + AfterHand(after, k)
    case _ => multiset{}
  }

  ghost function ThreadHeld(th: Thread, k: int): multiset<Addr> {
    (if 0 <= k < |th.lists| then multiset(th.lists[k]) else multiset{}) + Hand(th.pc, k)
  }

  ghost function ThreadSum(threads: seq<Thread>, k: int): multiset<Addr> {
    if threads == [] then multiset{} else ThreadHeld(threads[0], k) + ThreadSum(threads[1..], k)
  }

  /** All objects of class `k`, wherever they are. */
  ghost function Held(s: State, k: int): multiset<Addr>
    requires 0 <= k < |s.client| && 0 <= k < |s.central|
  {
    s.client[k] + ThreadSum(s.threads, k) + Kept(s.central[k])
  }

  ghost function CellsIn(cfg: Config, k: int): Span -> multiset<Addr>
    requires ConfigOk(cfg) && 0 <= k < |cfg|
  {
    (s: Span) => if s.sizeclass == k then multiset(CellsOf(cfg[k], s.start)) else multiset{}
  }

  /** The cells of all live spans of class `k`. */
  ghost function Full(cfg: Config, live: Table, k: int): multiset<Addr>
    requires ConfigOk(cfg) && 0 <= k < |cfg|
  {
    Sum(live, CellsIn(cfg, k))
  }

  /** The span a thread has taken out of the lists, or not yet put in. */
  function Carried(pc: Pc): Option<SpanId> {
    match pc
    case Carry(_, _, got) => if got.Some? then Some(got.value.0) else None
    case Drain(_, id, _, _, _) => Some(id)
    case _ => None
  }

  // ---------------------------------------------------------------- locks

  datatype Lock = PageHeapLock | ClassLock(cl: int) | SlowTlsLock | MetadataLock | SystemLock

  function Wants(pc: Pc): Option<Lock> {
    match pc
    case Idle => None
    case Remove(cl, _) => Some(ClassLock(cl))
    case Ask(_, _) => Some(PageHeapLock)
    case Carry(cl, _, _) => Some(ClassLock(cl))
    case Insert(cl, _) => Some(ClassLock(cl))
    case Evict(_, _, victim, _) => Some(ClassLock(victim))
    case Back(cl, _, _, _) => Some(ClassLock(cl))
    case Drop(cl, _, _) => Some(ClassLock(cl))
    case Drain(_, _, _, _, _) => Some(PageHeapLock)
  }

  predicate Holds(th: Thread, l: Lock) { th.has && Wants(th.pc) == Some(l) }

  ghost predicate LockFree(s: State, l: Lock) {
    forall u :: 0 <= u < |s.threads| ==> !Holds(s.threads[u], l)
  }

  // ---------------------------------------------------------------- invariant

  ghost predicate SpansOk(cfg: Config, live: Table) {
    && Tiled(live)
    && (forall i :: i in live ==> live[i].location == InUse)
    && (forall i :: i in live && live[i].sizeclass != 0 ==>
          IsClass(cfg, live[i].sizeclass) && live[i].length == cfg[live[i].sizeclass].pages)
  }

  ghost predicate Sized(cfg: Config, s: State) {
    && ConfigOk(cfg) && |s.central| == |cfg| && |s.client| == |cfg|
    && (forall u :: 0 <= u < |s.threads| ==> |s.threads[u].lists| == |cfg|)
  }

  ghost predicate PcTyped(cfg: Config, pc: Pc) {
    match pc
    case Idle => true
    case Remove(cl, n) => IsClass(cfg, cl) && n >= 1
    case Ask(cl, n) => IsClass(cfg, cl) && n >= 1
    case Carry(cl, n, _) => IsClass(cfg, cl) && n >= 1
    case Insert(cl, _) => IsClass(cfg, cl)
    case Evict(cl, _, victim, _) => IsClass(cfg, cl) && 0 <= victim < |cfg|
    case Back(cl, _, _, _) => IsClass(cfg, cl)
    case Drop(cl, _, _) => IsClass(cfg, cl)
    case Drain(cl, _, _, _, _) => IsClass(cfg, cl)
  }

  /** What the steps need to be defined at all: class numbers in range, lists that name known spans. */
  ghost predicate Typed(cfg: Config, s: State) {
    && Sized(cfg, s)
    && (forall u :: 0 <= u < |s.threads| ==> PcTyped(cfg, s.threads[u].pc))
    && (forall k :: IsClass(cfg, k) ==> Linked(s.central[k]))
  }

  ghost predicate AfterOk(cfg: Config, after: After) {
    after.Resume? ==> IsClass(cfg, after.cl) && |after.chain| == cfg[after.cl].batch
  }

  ghost predicate PcOk(cfg: Config, s: State, pc: Pc)
    requires ConfigOk(cfg) && |s.central| == |cfg|
  {
    match pc
    case Idle => true
    case Remove(cl, n) => IsClass(cfg, cl) && n >= 1
    case Ask(cl, n) => IsClass(cfg, cl) && n >= 1
    case Carry(cl, n, got) =>
      && IsClass(cfg, cl) && n >= 1
      && (got.Some? ==>
            var (id, cells) := got.value;
            SpanOk(cfg[cl], s.live, cl, id) && id !in s.central[cl].cuts && cells == CellsOf(cfg[cl], s.live[id].start))
    case Insert(cl, chain) => IsClass(cfg, cl)
    case Evict(cl, chain, victim, _) =>
      IsClass(cfg, cl) && 0 <= victim < |cfg| && victim != cl && |chain| == cfg[cl].batch
    case Back(cl, chain, _, _) => IsClass(cfg, cl) && |chain| == cfg[cl].batch
    case Drop(cl, _, after) => IsClass(cfg, cl) && AfterOk(cfg, after)
    case Drain(cl, id, gone, _, after) =>
      && IsClass(cfg, cl) && AfterOk(cfg, after)
      && SpanOk(cfg[cl], s.live, cl, id) && id !in s.central[cl].cuts
      && multiset(gone) == multiset(CellsOf(cfg[cl], s.live[id].start))
  }

  ghost predicate PcsOk(cfg: Config, s: State)
    requires ConfigOk(cfg) && |s.central| == |cfg|
  {
    forall u :: 0 <= u < |s.threads| ==> PcOk(cfg, s, s.threads[u].pc)
  }

  ghost predicate Balanced(cfg: Config, s: State)
    requires Sized(cfg, s)
  {
    forall k :: IsClass(cfg, k) ==> Held(s, k) == Full(cfg, s.live, k)
  }

  ghost predicate CentralsOk(cfg: Config, s: State)
    requires Sized(cfg, s)
  {
    forall k :: IsClass(cfg, k) ==> CentralOk(cfg[k], s.live, k, s.central[k])
  }

  ghost predicate SomeoneCarries(s: State, i: SpanId) {
    exists u :: 0 <= u < |s.threads| && Carried(s.threads[u].pc) == Some(i)
  }

  /** A sized span is on the lists of its class or in some thread's hand. */
  ghost predicate Homed(cfg: Config, s: State)
    requires Sized(cfg, s)
  {
    forall i :: i in s.live && IsClass(cfg, s.live[i].sizeclass) ==>
      i in s.central[s.live[i].sizeclass].cuts || SomeoneCarries(s, i)
  }

  ghost predicate Mutex(s: State) {
    && (forall u, v :: 0 <= u < v < |s.threads| && s.threads[u].has && s.threads[v].has ==>
          Wants(s.threads[u].pc) != Wants(s.threads[v].pc))
    && (forall u :: 0 <= u < |s.threads| && s.threads[u].has ==> Wants(s.threads[u].pc).Some?)
  }

  /** Class 0 serves no requests: no spans, no batches, only the size of its transfer cache. */
  ghost predicate ZeroOk(s: State) {
    |s.central| > 0 ==> EmptyCentral(s.central[0])
  }

  ghost predicate EmptyCentral(c: CentralList) {
    && c.cuts == map[] && c.nonempty == [] && c.empty == [] && c.numSpans == 0 && c.counter == 0 && c.slots == []
    && 0 <= c.cacheSize <= c.maxCache
  }

  ghost predicate Inv(cfg: Config, s: State) {
    && Typed(cfg, s) && SpansOk(cfg, s.live) && Balanced(cfg, s) && CentralsOk(cfg, s)
    && PcsOk(cfg, s) && Homed(cfg, s) && Mutex(s) && ZeroOk(s)
  }

  // ---------------------------------------------------------------- sums over threads

  lemma {:induction false} ThreadSumUpdate(threads: seq<Thread>, t: int, th: Thread, k: int)
    requires 0 <= t < |threads|
    ensures ThreadSum(threads[t := th], k) + ThreadHeld(threads[t], k) == ThreadSum(threads, k) + ThreadHeld(th, k)
    decreases |threads|
  {
    hide ThreadHeld;
    if t == 0 {
      assert threads[t := th][1..] == threads[1..];
    } else {
      ThreadSumUpdate(threads[1..], t - 1, th, k);
      assert threads[t := th][1..] == threads[1..][t - 1 := th];
      var h, a, b := ThreadHeld(threads[0], k), ThreadSum(threads[t := th][1..], k), ThreadSum(threads[1..], k);
      assert (h + a) + ThreadHeld(threads[t], k) == h + (a + ThreadHeld(threads[t], k));
      assert (h + b) + ThreadHeld(th, k) == h + (b + ThreadHeld(th, k));
    }
  }

  lemma {:induction false} ThreadSumHas(threads: seq<Thread>, t: int, k: int)
    requires 0 <= t < |threads|
    ensures ThreadHeld(threads[t], k) <= ThreadSum(threads, k)
    decreases |threads|
  {
    hide ThreadHeld;
    if t > 0 {
      ThreadSumHas(threads[1..], t - 1, k);
    }
  }

  lemma {:induction false} ThreadSumTwo(threads: seq<Thread>, t: int, u: int, k: int)
    requires 0 <= t < u < |threads|
    ensures ThreadHeld(threads[t], k) + ThreadHeld(threads[u], k) <= ThreadSum(threads, k)
    decreases |threads|
  {
    hide ThreadHeld;
    if t == 0 {
      ThreadSumHas(threads[1..], u - 1, k);
    } else {
      ThreadSumTwo(threads[1..], t - 1, u - 1, k);
    }
  }

  // ---------------------------------------------------------------- cells of live spans

  lemma FullHome(cfg: Config, live: Table, k: int, o: Addr)
    requires ConfigOk(cfg) && IsClass(cfg, k) && SpansOk(cfg, live) && o in Full(cfg, live, k)
    ensures exists i :: SpanOk(cfg[k], live, k, i) && o in CellsOf(cfg[k], live[i].start)
  {
    hide CellsOf, Tiled;
    var f := CellsIn(cfg, k);
    if forall i :: i in live ==> o !in f(live[i]) {
      SumNone(live, f, o);
    } else {
      var i :| i in live && o in f(live[i]);
      assert SpanOk(cfg[k], live, k, i);
    }
  }

  /** Cells of different spans are different addresses, so each is counted once. */
  lemma FullOnce(cfg: Config, live: Table, k: int, o: Addr)
    requires ConfigOk(cfg) && IsClass(cfg, k) && SpansOk(cfg, live)
    ensures Full(cfg, live, k)[o] <= 1
  {
    hide CellsOf, Tiled;
    if o in Full(cfg, live, k) {
      FullHome(cfg, live, k, o);
      var i :| SpanOk(cfg[k], live, k, i) && o in CellsOf(cfg[k], live[i].start);
      var f := CellsIn(cfg, k);
      SumSplit(live, f, i);
      CellOnce(cfg[k], live[i].start, o);
      OwnerOfCell(cfg[k], live, k, i, o);
      forall j | j in live - {i} ensures o !in f((live - {i})[j]) {
        if o in f(live[j]) {
          assert SpanOk(cfg[k], live, k, j);
          OwnerOfCell(cfg[k], live, k, j, o);
        }
      }
      SumNone(live - {i}, f, o);
    }
  }

  // ---------------------------------------------------------------- the steps of a thread

  ghost function WithPc(s: State, t: int, pc: Pc): State
    requires 0 <= t < |s.threads|
  {
    s.(threads := s.threads[t := s.threads[t].(pc := pc, has := false)])
  }

  ghost function WithCentral(s: State, cl: int, c: CentralList): State
    requires 0 <= cl < |s.central|
  {
    s.(central := s.central[cl := c])
  }

  /** End of FetchFromCentralCache: the first object goes to the caller, the others on the thread's list. */
  ghost function Deliver(s: State, t: int, cl: int, chain: seq<Addr>): State
    requires 0 <= t < |s.threads| && 0 <= cl < |s.threads[t].lists| && 0 <= cl < |s.client|
  {
    if chain == [] then WithPc(s, t, Idle) else
      var th := s.threads[t];
      s.(client := s.client[cl := s.client[cl] + multiset{chain[0]}],
         threads := s.threads[t := Thread(th.lists[cl := chain[1..] + th.lists[cl]], Idle, false)])
  }

  ghost function Finish(after: After): Pc {
    match after
    case Done => Idle
    case Resume(cl, chain, force) => Back(cl, chain, force, true)
  }

  /** Under the lock of `cl`: releases `chain` to spans until done or until a span must go. */
  ghost function DropRun(cfg: Config, s: State, t: int, cl: int, chain: seq<Addr>, after: After): State
    requires ConfigOk(cfg) && 0 <= t < |s.threads| && 0 <= cl < |cfg| == |s.central|
  {
    var r := ReleaseListToSpans(cfg[cl], s.live, s.central[cl], chain);
    WithPc(WithCentral(s, cl, r.list), t,
           if r.freed.Some? then Drain(cl, r.freed.value.0, r.freed.value.1, r.rest, after) else Finish(after))
  }

  /** What the outside world decides during a step: the span the page heap returns, and the
      victims of the two tries to shrink another class (none: the try failed without locking). */
  datatype Choice = Choice(span: Option<(SpanId, PageId)>, first: Option<int>, second: Option<int>)

  /** Any other class can be the victim, class 0 too: it has slots, though never a batch in one. */
  ghost predicate Eligible(cfg: Config, cl: int, victim: Option<int>) {
    victim.Some? ==> 0 <= victim.value < |cfg| && victim.value != cl
  }

  ghost predicate ChoiceOk(cfg: Config, s: State, pc: Pc, ch: Choice)
    requires ConfigOk(cfg)
  {
    match pc
    case Ask(cl, _) => ch.span.Some? ==>
      var (id, start) := ch.span.value;
      IsClass(cfg, cl) && id !in s.live && Tiled(s.live[id := Span(start, cfg[cl].pages, InUse, cl)])
    case Insert(cl, _) => Eligible(cfg, cl, ch.first) && Eligible(cfg, cl, ch.second)
    case Back(cl, _, _, _) => Eligible(cfg, cl, ch.second)
    case _ => true
  }

  ghost function RunRemove(cfg: Config, s: State, t: int, cl: int, n: int): State
    requires Typed(cfg, s) && 0 <= t < |s.threads| && IsClass(cfg, cl) && n >= 1
  {
    var (chain, c') := RemoveLocked(cfg[cl], s.central[cl], n);
    if chain == [] then WithPc(s, t, Ask(cl, n)) else Deliver(WithCentral(s, cl, c'), t, cl, chain)
  }

  ghost function RunAsk(cfg: Config, s: State, t: int, cl: int, n: int, ch: Choice): State
    requires ConfigOk(cfg) && 0 <= t < |s.threads| && IsClass(cfg, cl)
  {
    if ch.span.None? then WithPc(s, t, Carry(cl, n, None)) else
      var (id, start) := ch.span.value;
      WithPc(s.(live := s.live[id := Span(start, cfg[cl].pages, InUse, cl)]), t,
             Carry(cl, n, Some((id, CellsOf(cfg[cl], start)))))
  }

  ghost function RunCarry(cfg: Config, s: State, t: int, cl: int, n: int, got: Option<(SpanId, seq<Addr>)>): State
    requires Typed(cfg, s) && 0 <= t < |s.threads| && IsClass(cfg, cl) && n >= 1
  {
    var c := if got.Some? then AddSpan(s.central[cl], got.value.0, got.value.1) else s.central[cl];
    assert Linked(c);
    var (chain, c') := FetchMany(c, n);
    Deliver(WithCentral(s, cl, c'), t, cl, chain)
  }

  /** Second try of MakeCacheSpace, and the release that follows if there is no space. */
  ghost function SecondTry(cfg: Config, s: State, t: int, cl: int, chain: seq<Addr>, ch: Choice): State
    requires ConfigOk(cfg) && 0 <= t < |s.threads| && 0 <= cl < |cfg| == |s.central|
  {
    if ch.second.Some? then WithPc(s, t, Evict(cl, chain, ch.second.value, true))
    else DropRun(cfg, s, t, cl, chain, Done)
  }

  ghost function RunInsert(cfg: Config, s: State, t: int, cl: int, chain: seq<Addr>, ch: Choice): State
    requires ConfigOk(cfg) && 0 <= t < |s.threads| && 0 <= cl < |cfg| == |s.central|
  {
    match InsertLocked(cfg[cl], s.central[cl], chain)
    case Slotted(c) => WithPc(WithCentral(s, cl, c), t, Idle)
    case ToSpans => DropRun(cfg, s, t, cl, chain, Done)
    case NoRoom =>
      if ch.first.Some? then WithPc(s, t, Evict(cl, chain, ch.first.value, false))
      else SecondTry(cfg, s, t, cl, chain, ch)
  }

  ghost function RunEvict(cfg: Config, s: State, t: int, cl: int, chain: seq<Addr>, victim: int, force: bool): State
    requires ConfigOk(cfg) && 0 <= t < |s.threads| && 0 <= victim < |cfg| == |s.central|
  {
    match ShrinkLocked(s.central[victim], force)
    case Refused => WithPc(s, t, Back(cl, chain, force, false))
    case Shrunk(c, evicted) =>
      if evicted.None? then WithPc(WithCentral(s, victim, c), t, Back(cl, chain, force, true))
      else DropRun(cfg, WithCentral(s, victim, c), t, victim, evicted.value, Resume(cl, chain, force))
  }

  ghost function RunBack(cfg: Config, s: State, t: int, cl: int, chain: seq<Addr>, force: bool, ok: bool, ch: Choice): State
    requires ConfigOk(cfg) && 0 <= t < |s.threads| && 0 <= cl < |cfg| == |s.central|
  {
    var grown := GrowLocked(s.central[cl], chain);
    if ok && grown.Some? then WithPc(WithCentral(s, cl, grown.value), t, Idle)
    else if !ok && !force then SecondTry(cfg, s, t, cl, chain, ch)
    else DropRun(cfg, s, t, cl, chain, Done)
  }

  /** What thread `t` does with the lock it waited for. */
  ghost function Run(cfg: Config, s: State, t: int, ch: Choice): State
    requires Typed(cfg, s) && 0 <= t < |s.threads|
  {
    assert PcTyped(cfg, s.threads[t].pc);
    match s.threads[t].pc
    case Idle => s
    case Remove(cl, n) => RunRemove(cfg, s, t, cl, n)
    case Ask(cl, n) => RunAsk(cfg, s, t, cl, n, ch)
    case Carry(cl, n, got) => RunCarry(cfg, s, t, cl, n, got)
    case Insert(cl, chain) => RunInsert(cfg, s, t, cl, chain, ch)
    case Evict(cl, chain, victim, force) => RunEvict(cfg, s, t, cl, chain, victim, force)
    case Back(cl, chain, force, ok) => RunBack(cfg, s, t, cl, chain, force, ok, ch)
    case Drop(cl, rest, after) => DropRun(cfg, s, t, cl, rest, after)
    case Drain(cl, id, _, rest, after) => WithPc(s.(live := s.live - {id}), t, Drop(cl, rest, after))
  }

  // ---------------------------------------------------------------- all steps

  datatype Step =
    | Malloc(t: int, cl: int)                          // the thread list has an object
    | Refill(t: int, cl: int, n: int)                  // it has none: start RemoveRange
    | Free(t: int, o: Addr)                            // onto the thread list
    | FreeDirect(t: int, o: Addr)                      // no thread cache: start InsertRange
    | Flush(t: int, cl: int, n: int)                   // PopRange, and start InsertRange
    | Acquire(t: int)
    | RunLocked(t: int, ch: Choice)
    | NewLarge(id: SpanId, start: PageId, length: int)
    | FreeLarge(id: SpanId)

  /** The size class of the span an address lies in; 0 if there is none. */
  ghost function ClassAt(live: Table, o: Addr): int {
    var i := Owner(live, PageOf(o));
    if i.Some? && i.value in live then live[i.value].sizeclass else 0
  }

  ghost predicate ClientHas(cfg: Config, s: State, o: Addr)
    requires |s.client| == |cfg|
  {
    exists k :: IsClass(cfg, k) && o in s.client[k]
  }

  ghost predicate IdleThread(s: State, t: int) {
    0 <= t < |s.threads| && s.threads[t].pc.Idle?
  }

  /** Clients free only blocks they hold. */
  ghost predicate Enabled(cfg: Config, s: State, step: Step)
    requires Typed(cfg, s)
  {
    match step
    case Malloc(t, cl) => IdleThread(s, t) && IsClass(cfg, cl) && s.threads[t].lists[cl] != []
    case Refill(t, cl, n) => IdleThread(s, t) && IsClass(cfg, cl) && s.threads[t].lists[cl] == [] && n >= 1
    case Free(t, o) => IdleThread(s, t) && ClientHas(cfg, s, o)
    case FreeDirect(t, o) => IdleThread(s, t) && ClientHas(cfg, s, o)
    case Flush(t, cl, n) => IdleThread(s, t) && IsClass(cfg, cl) && 0 <= n <= |s.threads[t].lists[cl]|
    case Acquire(t) =>
      && 0 <= t < |s.threads| && !s.threads[t].has
      && Wants(s.threads[t].pc).Some? && LockFree(s, Wants(s.threads[t].pc).value)
    case RunLocked(t, ch) => 0 <= t < |s.threads| && s.threads[t].has && ChoiceOk(cfg, s, s.threads[t].pc, ch)
    case NewLarge(id, start, length) => LockFree(s, PageHeapLock) && id !in s.live && Tiled(s.live[id := Span(start, length, InUse, 0)])
    case FreeLarge(id) => LockFree(s, PageHeapLock) && id in s.live && s.live[id].sizeclass == 0
  }

  ghost function Apply(cfg: Config, s: State, step: Step): State
    requires Typed(cfg, s) && Enabled(cfg, s, step)
  {
    match step
    case Malloc(t, cl) =>
      var th := s.threads[t];
      s.(client := s.client[cl := s.client[cl] + multiset{th.lists[cl][0]}],
         threads := s.threads[t := th.(lists := th.lists[cl := th.lists[cl][1..]])])
    case Refill(t, cl, n) => WithPc(s, t, Remove(cl, n))
    case Free(t, o) =>
      var cl, th := ClassAt(s.live, o), s.threads[t];
      if !IsClass(cfg, cl) then s else
        s.(client := s.client[cl := s.client[cl] - multiset{o}],
           threads := s.threads[t := th.(lists := th.lists[cl := [o] + th.lists[cl]])])
    case FreeDirect(t, o) =>
      var cl := ClassAt(s.live, o);
      if !IsClass(cfg, cl) then s else
        WithPc(s.(client := s.client[cl := s.client[cl] - multiset{o}]), t, Insert(cl, [o]))
    case Flush(t, cl, n) =>
      var th := s.threads[t];
      s.(threads := s.threads[t := Thread(th.lists[cl := th.lists[cl][n..]], Insert(cl, th.lists[cl][..n]), false)])
    case Acquire(t) => s.(threads := s.threads[t := s.threads[t].(has := true)])
    case RunLocked(t, ch) => Run(cfg, s, t, ch)
    case NewLarge(id, start, length) => s.(live := s.live[id := Span(start, length, InUse, 0)])
    case FreeLarge(id) => s.(live := s.live - {id})
  }

  /** Nothing allocated; transfer caches within their bounds. */
  ghost predicate Init(cfg: Config, s: State) {
    && ConfigOk(cfg) && |s.central| == |cfg| && |s.client| == |cfg| && s.live == map[]
    && (forall k :: 0 <= k < |cfg| ==> s.client[k] == multiset{} && EmptyCentral(s.central[k]))
    && (forall u :: 0 <= u < |s.threads| ==>
          s.threads[u].pc == Idle && !s.threads[u].has && |s.threads[u].lists| == |cfg|
          && forall k :: 0 <= k < |cfg| ==> s.threads[u].lists[k] == [])
  }

  ghost predicate Next(cfg: Config, s: State, s': State) {
    Typed(cfg, s) && exists step :: Enabled(cfg, s, step) && s' == Apply(cfg, s, step)
  }

  /** A run: any interleaving of steps from an initial state. */
  ghost predicate IsRun(cfg: Config, run: seq<State>) {
    && |run| >= 1 && Init(cfg, run[0])
    && (forall j :: 0 <= j < |run| - 1 ==> Next(cfg, run[j], run[j + 1]))
  }
}
