/** The slots of the transfer caches: they migrate between size classes under all
    interleavings, but never multiply. */
module TransferBudget {
  import opened Spans
  import opened Cells
  import opened Central
  import opened Allocator
  import opened AllocatorProof

  ghost function CacheTotal(central: seq<CentralList>): int {
    if central == [] then 0 else central[0].cacheSize + CacheTotal(central[1..])
  }

  /** One slot has been taken from a victim and not yet given to the thread's own class. */
  function Credit(pc: Pc): int {
    match pc
    case Back(_, _, _, ok) => if ok then 1 else 0
    case Drop(_, _, after) => if after.Resume? then 1 else 0
    case Drain(_, _, _, _, after) => if after.Resume? then 1 else 0
    case _ => 0
  }

  ghost function Credits(threads: seq<Thread>): int {
    if threads == [] then 0 else Credit(threads[0].pc) + Credits(threads[1..])
  }

  /** Slots of all classes, with those in transit. */
  ghost function Budget(s: State): int { CacheTotal(s.central) + Credits(s.threads) }

  lemma {:induction false} CacheTotalUpdate(central: seq<CentralList>, k: int, c: CentralList)
    requires 0 <= k < |central|
    ensures CacheTotal(central[k := c]) == CacheTotal(central) - central[k].cacheSize + c.cacheSize
    decreases |central|
  {
    if k == 0 {
      assert central[k := c][1..] == central[1..];
    } else {
      CacheTotalUpdate(central[1..], k - 1, c);
      assert central[k := c][1..] == central[1..][k - 1 := c];
    }
  }

  lemma {:induction false} CreditsUpdate(threads: seq<Thread>, t: int, th: Thread)
    requires 0 <= t < |threads|
    ensures Credits(threads[t := th]) == Credits(threads) - Credit(threads[t].pc) + Credit(th.pc)
    decreases |threads|
  {
    hide Credit;
    if t == 0 {
      assert threads[t := th][1..] == threads[1..];
    } else {
      CreditsUpdate(threads[1..], t - 1, th);
      assert threads[t := th][1..] == threads[1..][t - 1 := th];
    }
  }

  lemma {:induction false} CreditsPositive(threads: seq<Thread>)
    ensures Credits(threads) >= 0
  {
    if threads != [] { CreditsPositive(threads[1..]); }
  }

  lemma LocalBudget(s: State, t: int, cl: int, c: CentralList, th: Thread)
    requires 0 <= t < |s.threads| && 0 <= cl < |s.central|
    ensures Budget(s.(central := s.central[cl := c], threads := s.threads[t := th]))
         == Budget(s) - s.central[cl].cacheSize + c.cacheSize - Credit(s.threads[t].pc) + Credit(th.pc)
  {
    hide Credit;
    CacheTotalUpdate(s.central, cl, c);
    CreditsUpdate(s.threads, t, th);
  }

  lemma {:induction false} ReleaseSameCache(k: Class, t: Table, c: CentralList, chain: seq<Addr>)
    requires k.Ok()
    ensures ReleaseListToSpans(k, t, c, chain).list.cacheSize == c.cacheSize
    decreases |chain|
  {
    hide Owner;
    if chain != [] {
      var i := Owner(t, PageOf(chain[0]));
      if i.Some? && i.value in c.cuts {
        var (c', gone) := ReleaseToSpans(k, c, chain[0], i.value);
        if gone.None? { ReleaseSameCache(k, t, c', chain[1..]); }
      }
    }
  }

  lemma {:induction false} FetchSameCache(c: CentralList, n: int)
    requires n >= 0 && Linked(c)
    ensures FetchMany(c, n).1.cacheSize == c.cacheSize
    decreases n
  {
    hide Linked;
    if n > 0 {
      var (first, c1) := FetchFromOneSpans(c, n);
      if first != [] { FetchSameCache(c1, n - |first|); }
    }
  }

  lemma DropBudget(cfg: Config, s: State, t: int, cl: int, c: CentralList, chain: seq<Addr>, after: After)
    requires ConfigOk(cfg) && 0 <= t < |s.threads| && 0 <= cl < |cfg| == |s.central|
    ensures Budget(DropRun(cfg, WithCentral(s, cl, c), t, cl, chain, after))
         == Budget(s) - s.central[cl].cacheSize + c.cacheSize - Credit(s.threads[t].pc) + (if after.Resume? then 1 else 0)
  {
    hide ReleaseListToSpans, Budget;
    DropRunIs(cfg, s, t, cl, c, chain, after);
    ReleaseSameCache(cfg[cl], s.live, c, chain);
    var r := ReleaseListToSpans(cfg[cl], s.live, c, chain);
    var th := s.threads[t].(pc := DropPc(cl, r, after), has := false);
    LocalBudget(s, t, cl, r.list, th);
    assert DropRun(cfg, WithCentral(s, cl, c), t, cl, chain, after)
        == s.(central := s.central[cl := r.list], threads := s.threads[t := th]);
  }

  lemma PcBudget(s: State, t: int, cl: int, c: CentralList, pc: Pc)
    requires 0 <= t < |s.threads| && 0 <= cl < |s.central|
    ensures Budget(WithPc(WithCentral(s, cl, c), t, pc))
         == Budget(s) - s.central[cl].cacheSize + c.cacheSize - Credit(s.threads[t].pc) + Credit(pc)
  {
    hide Budget, Credit;
    LocalBudget(s, t, cl, c, s.threads[t].(pc := pc, has := false));
    assert WithPc(WithCentral(s, cl, c), t, pc)
        == s.(central := s.central[cl := c], threads := s.threads[t := s.threads[t].(pc := pc, has := false)]);
  }

  lemma PcOnlyBudget(s: State, t: int, pc: Pc)
    requires 0 <= t < |s.threads|
    ensures Budget(WithPc(s, t, pc)) == Budget(s) - Credit(s.threads[t].pc) + Credit(pc)
  {
    hide Credit;
    CreditsUpdate(s.threads, t, s.threads[t].(pc := pc, has := false));
  }

  lemma DeliverBudget(s: State, t: int, cl: int, c: CentralList, chain: seq<Addr>)
    requires 0 <= t < |s.threads| && 0 <= cl < |s.threads[t].lists| && 0 <= cl < |s.client| && 0 <= cl < |s.central|
    requires c.cacheSize == s.central[cl].cacheSize
    ensures Budget(Deliver(WithCentral(s, cl, c), t, cl, chain)) == Budget(s) - Credit(s.threads[t].pc)
  {
    hide Budget;
    if chain == [] {
      PcBudget(s, t, cl, c, Idle);
    } else {
      var s' := Deliver(WithCentral(s, cl, c), t, cl, chain);
      LocalBudget(s, t, cl, c, s'.threads[t]);
      BudgetIgnoresClient(s.(central := s.central[cl := c], threads := s'.threads), s');
    }
  }

  lemma BudgetIgnoresClient(s: State, s': State)
    requires s'.central == s.central && s'.threads == s.threads
    ensures Budget(s') == Budget(s)
  {
  }

  /** With its lock, a thread never adds slots to the caches as a whole. */
  lemma RunBudget(cfg: Config, s: State, t: int, ch: Choice)
    requires Inv(cfg, s) && 0 <= t < |s.threads|
    ensures Budget(Run(cfg, s, t, ch)) <= Budget(s)
  {
    hide SpansOk, Balanced, CentralsOk, PcsOk, Homed, Mutex, CellsOf, Budget, DropRun, FetchMany, ReleaseListToSpans, Linked, Deliver;
    InvPc(cfg, s, t);
    match s.threads[t].pc
    case Idle =>
    case Remove(cl, n) =>
      var c := s.central[cl];
      FetchSameCache(c, n);
      DeliverBudget(s, t, cl, FetchMany(c, n).1, FetchMany(c, n).0);
      if c.slots != [] { DeliverBudget(s, t, cl, PopSlot(c).1, PopSlot(c).0); }
      PcOnlyBudget(s, t, Ask(cl, n));
    case Ask(cl, n) => AskBudget(cfg, s, t, cl, n, ch);
    case Carry(cl, n, got) => CarryBudget(cfg, s, t, cl, n, got);
    case Insert(cl, chain) => InsertBudget(cfg, s, t, cl, chain, ch);
    case Evict(cl, chain, victim, force) => EvictBudget(cfg, s, t, cl, chain, victim, force);
    case Back(cl, chain, force, ok) => BackBudget(cfg, s, t, cl, chain, force, ok, ch);
    case Drop(cl, rest, after) =>
      assert WithCentral(s, cl, s.central[cl]) == s;
      DropBudget(cfg, s, t, cl, s.central[cl], rest, after);
    case Drain(cl, id, gone, rest, after) =>
      PcOnlyBudget(s.(live := s.live - {id}), t, Drop(cl, rest, after));
      BudgetIgnoresClient(s, s.(live := s.live - {id}));
  }

  lemma AskBudget(cfg: Config, s: State, t: int, cl: int, n: int, ch: Choice)
    requires ConfigOk(cfg) && 0 <= t < |s.threads| && s.threads[t].pc == Ask(cl, n) && IsClass(cfg, cl)
    ensures Budget(RunAsk(cfg, s, t, cl, n, ch)) == Budget(s)
  {
    hide Budget, CellsOf;
    if ch.span.None? {
      PcOnlyBudget(s, t, Carry(cl, n, None));
    } else {
      var s1 := s.(live := s.live[ch.span.value.0 := Span(ch.span.value.1, cfg[cl].pages, InUse, cl)]);
      BudgetIgnoresClient(s, s1);
      PcOnlyBudget(s1, t, Carry(cl, n, Some((ch.span.value.0, CellsOf(cfg[cl], ch.span.value.1)))));
    }
  }

  lemma CarryBudget(cfg: Config, s: State, t: int, cl: int, n: int, got: Option<(SpanId, seq<Addr>)>)
    requires Typed(cfg, s) && 0 <= t < |s.threads| && s.threads[t].pc == Carry(cl, n, got) && IsClass(cfg, cl) && n >= 1
    ensures Budget(RunCarry(cfg, s, t, cl, n, got)) == Budget(s)
  {
    hide Budget, FetchMany, Deliver;
    var c := if got.Some? then AddSpan(s.central[cl], got.value.0, got.value.1) else s.central[cl];
    FetchSameCache(c, n);
    DeliverBudget(s, t, cl, FetchMany(c, n).1, FetchMany(c, n).0);
  }

  lemma SecondBudget(cfg: Config, s: State, t: int, cl: int, chain: seq<Addr>, ch: Choice)
    requires ConfigOk(cfg) && 0 <= t < |s.threads| && 0 <= cl < |cfg| == |s.central|
    ensures Budget(SecondTry(cfg, s, t, cl, chain, ch)) == Budget(s) - Credit(s.threads[t].pc)
  {
    hide Budget, DropRun;
    assert WithCentral(s, cl, s.central[cl]) == s;
    if ch.second.Some? {
      PcOnlyBudget(s, t, Evict(cl, chain, ch.second.value, true));
    } else {
      DropBudget(cfg, s, t, cl, s.central[cl], chain, Done);
    }
  }

  lemma InsertBudget(cfg: Config, s: State, t: int, cl: int, chain: seq<Addr>, ch: Choice)
    requires ConfigOk(cfg) && 0 <= t < |s.threads| && s.threads[t].pc == Insert(cl, chain) && 0 <= cl < |cfg| == |s.central|
    ensures Budget(RunInsert(cfg, s, t, cl, chain, ch)) == Budget(s)
  {
    hide Budget, DropRun, SecondTry;
    assert WithCentral(s, cl, s.central[cl]) == s;
    DropBudget(cfg, s, t, cl, s.central[cl], chain, Done);
    PcBudget(s, t, cl, PushSlot(s.central[cl], chain), Idle);
    if ch.first.Some? { PcOnlyBudget(s, t, Evict(cl, chain, ch.first.value, false)); }
    SecondBudget(cfg, s, t, cl, chain, ch);
  }

  lemma EvictBudget(cfg: Config, s: State, t: int, cl: int, chain: seq<Addr>, victim: int, force: bool)
    requires ConfigOk(cfg) && 0 <= t < |s.threads| && s.threads[t].pc == Evict(cl, chain, victim, force)
    requires 0 <= victim < |cfg| == |s.central|
    ensures Budget(RunEvict(cfg, s, t, cl, chain, victim, force)) == Budget(s)
  {
    hide Budget, DropRun;
    var c := s.central[victim];
    PcOnlyBudget(s, t, Back(cl, chain, force, false));
    PcBudget(s, t, victim, c.(cacheSize := c.cacheSize - 1), Back(cl, chain, force, true));
    if c.slots != [] {
      DropBudget(cfg, s, t, victim, PopSlot(c).1.(cacheSize := c.cacheSize - 1), PopSlot(c).0, Resume(cl, chain, force));
    }
  }

  lemma BackBudget(cfg: Config, s: State, t: int, cl: int, chain: seq<Addr>, force: bool, ok: bool, ch: Choice)
    requires ConfigOk(cfg) && 0 <= t < |s.threads| && s.threads[t].pc == Back(cl, chain, force, ok) && 0 <= cl < |cfg| == |s.central|
    ensures Budget(RunBack(cfg, s, t, cl, chain, force, ok, ch)) <= Budget(s)
  {
    hide Budget, DropRun, SecondTry;
    var c := s.central[cl];
    assert WithCentral(s, cl, s.central[cl]) == s;
    PcBudget(s, t, cl, PushSlot(c.(cacheSize := c.cacheSize + 1), chain), Idle);
    SecondBudget(cfg, s, t, cl, chain, ch);
    DropBudget(cfg, s, t, cl, c, chain, Done);
  }

  lemma StepBudget(cfg: Config, s: State, step: Step)
    requires Inv(cfg, s) && Enabled(cfg, s, step)
    ensures Budget(Apply(cfg, s, step)) <= Budget(s)
  {
    hide SpansOk, Balanced, CentralsOk, PcsOk, Homed, Mutex, Budget, Run, Tiled;
    var s' := Apply(cfg, s, step);
    match step
    case RunLocked(t, ch) => RunBudget(cfg, s, t, ch);
    case NewLarge(_, _, _) => BudgetIgnoresClient(s, s');
    case FreeLarge(_) => BudgetIgnoresClient(s, s');
    case Malloc(t, _) => ThreadOnlyBudget(s, s', t);
    case Refill(t, _, _) => ThreadOnlyBudget(s, s', t);
    case Free(t, _) => ThreadOnlyBudget(s, s', t);
    case FreeDirect(t, _) => ThreadOnlyBudget(s, s', t);
    case Flush(t, _, _) => ThreadOnlyBudget(s, s', t);
    case Acquire(t) => ThreadOnlyBudget(s, s', t);
  }

  lemma ThreadOnlyBudget(s: State, s': State, t: int)
    requires 0 <= t < |s.threads| == |s'.threads| && s'.central == s.central && s'.threads == s.threads[t := s'.threads[t]]
    requires Credit(s'.threads[t].pc) == Credit(s.threads[t].pc)
    ensures Budget(s') == Budget(s)
  {
    hide Credit;
    CreditsUpdate(s.threads, t, s'.threads[t]);
  }

  /** Slots migrate between classes, but over a whole run their total never exceeds the
      initial one, and in every state each class, class 0 included, keeps to its own bounds
      with full batches. */
  lemma {:induction false} CacheBounded(cfg: Config, run: seq<State>, j: int)
    requires IsRun(cfg, run) && 0 <= j < |run|
    ensures Budget(run[j]) <= CacheTotal(run[0].central) && CacheTotal(run[j].central) <= CacheTotal(run[0].central)
    ensures |run[j].central| == |cfg|
    ensures forall k :: 0 <= k < |cfg| ==> CacheRangeOk(cfg, run[j], k)
    decreases j
  {
    hide SpansOk, Balanced, CentralsOk, PcsOk, Homed, Mutex, Enabled, Apply, Credit;
    InvAlways(cfg, run, j);
    forall k | 0 <= k < |cfg| ensures CacheRangeOk(cfg, run[j], k) {
      if k > 0 { CacheRange(cfg, run[j], k); }
    }
    CreditsPositive(run[j].threads);
    if j == 0 {
      NoCredits(cfg, run[0]);
    } else {
      CacheBounded(cfg, run, j - 1);
      InvAlways(cfg, run, j - 1);
      assert Next(cfg, run[j - 1], run[j - 1 + 1]);
      var step :| Enabled(cfg, run[j - 1], step) && run[j] == Apply(cfg, run[j - 1], step);
      StepBudget(cfg, run[j - 1], step);
    }
  }

  ghost predicate CacheRangeOk(cfg: Config, s: State, k: int)
    requires 0 <= k < |cfg| == |s.central|
  {
    && |s.central[k].slots| <= s.central[k].cacheSize <= s.central[k].maxCache
    && forall i :: 0 <= i < |s.central[k].slots| ==> |s.central[k].slots[i]| == cfg[k].batch
  }

  lemma NoCredits(cfg: Config, s: State)
    requires Init(cfg, s)
    ensures Credits(s.threads) == 0
  {
    IdleCredits(s.threads);
  }

  lemma {:induction false} IdleCredits(threads: seq<Thread>)
    requires forall u :: 0 <= u < |threads| ==> threads[u].pc == Idle
    ensures Credits(threads) == 0
  {
    if threads != [] { IdleCredits(threads[1..]); }
  }

  // ---------------------------------------------------------------- when the total rises

  /** A thread comes back with a slot taken from another class, and its own class has room for it. */
  ghost predicate TakesSlot(cfg: Config, s: State, step: Step)
    requires Typed(cfg, s) && Enabled(cfg, s, step)
  {
    step.RunLocked? &&
      match s.threads[step.t].pc
      case Back(cl, _, _, ok) => ok && 0 <= cl < |s.central| && s.central[cl].cacheSize < s.central[cl].maxCache
      case _ => false
  }

  ghost predicate NoBigger(a: seq<CentralList>, b: seq<CentralList>) {
    |a| == |b| && forall k :: 0 <= k < |a| ==> b[k].cacheSize <= a[k].cacheSize
  }

  lemma {:induction false} NoBiggerTotal(a: seq<CentralList>, b: seq<CentralList>)
    requires NoBigger(a, b)
    ensures CacheTotal(b) <= CacheTotal(a)
  {
    if a != [] { NoBiggerTotal(a[1..], b[1..]); }
  }

  lemma DropNoBigger(cfg: Config, s: State, t: int, cl: int, chain: seq<Addr>, after: After)
    requires ConfigOk(cfg) && 0 <= t < |s.threads| && 0 <= cl < |cfg| == |s.central|
    ensures NoBigger(s.central, DropRun(cfg, s, t, cl, chain, after).central)
  {
    hide ReleaseListToSpans;
    ReleaseSameCache(cfg[cl], s.live, s.central[cl], chain);
  }

  lemma EvictNoBigger(cfg: Config, s: State, t: int, cl: int, chain: seq<Addr>, victim: int, force: bool)
    requires ConfigOk(cfg) && 0 <= t < |s.threads| && 0 <= victim < |cfg| == |s.central|
    ensures NoBigger(s.central, RunEvict(cfg, s, t, cl, chain, victim, force).central)
  {
    hide DropRun, ConfigOk;
    var c := s.central[victim];
    if c.slots != [] {
      DropNoBigger(cfg, WithCentral(s, victim, PopSlot(c).1.(cacheSize := c.cacheSize - 1)), t, victim, PopSlot(c).0, Resume(cl, chain, force));
    }
  }

  lemma CarryNoBigger(cfg: Config, s: State, t: int, cl: int, n: int, got: Option<(SpanId, seq<Addr>)>)
    requires Typed(cfg, s) && 0 <= t < |s.threads| && IsClass(cfg, cl) && n >= 1
    ensures NoBigger(s.central, RunCarry(cfg, s, t, cl, n, got).central)
  {
    hide FetchMany;
    FetchSameCache(if got.Some? then AddSpan(s.central[cl], got.value.0, got.value.1) else s.central[cl], n);
  }

  lemma RunNoBigger(cfg: Config, s: State, t: int, ch: Choice)
    requires Typed(cfg, s) && Enabled(cfg, s, RunLocked(t, ch)) && !TakesSlot(cfg, s, RunLocked(t, ch))
    ensures NoBigger(s.central, Run(cfg, s, t, ch).central)
  {
    hide DropRun, FetchMany, ConfigOk, Linked, CellsOf, RunEvict, RunCarry;
    assert PcTyped(cfg, s.threads[t].pc);
    match s.threads[t].pc
    case Idle =>
    case Remove(cl, n) => FetchSameCache(s.central[cl], n);
    case Ask(cl, n) =>
    case Carry(cl, n, got) => CarryNoBigger(cfg, s, t, cl, n, got);
    case Insert(cl, chain) => DropNoBigger(cfg, s, t, cl, chain, Done);
    case Evict(cl, chain, victim, force) => EvictNoBigger(cfg, s, t, cl, chain, victim, force);
    case Back(cl, chain, force, ok) => DropNoBigger(cfg, s, t, cl, chain, Done);
    case Drop(cl, rest, after) => DropNoBigger(cfg, s, t, cl, rest, after);
    case Drain(cl, id, _, rest, after) =>
  }

  /** From one step to the next the total can rise: exactly when a slot in transit arrives. */
  lemma TotalRises(cfg: Config, s: State, step: Step)
    requires Inv(cfg, s) && Enabled(cfg, s, step)
    ensures CacheTotal(Apply(cfg, s, step).central) > CacheTotal(s.central) <==> TakesSlot(cfg, s, step)
  {
    hide SpansOk, Balanced, CentralsOk, PcsOk, Homed, Mutex, Run, Linked, ConfigOk, ClassAt;
    if step.RunLocked? {
      if TakesSlot(cfg, s, step) {
        SlotArrives(cfg, s, step.t, step.ch);
      } else {
        RunNoBigger(cfg, s, step.t, step.ch);
        NoBiggerTotal(s.central, Run(cfg, s, step.t, step.ch).central);
      }
    }
  }

  lemma SlotArrives(cfg: Config, s: State, t: int, ch: Choice)
    requires Typed(cfg, s) && Enabled(cfg, s, RunLocked(t, ch)) && TakesSlot(cfg, s, RunLocked(t, ch))
    ensures CacheTotal(Run(cfg, s, t, ch).central) == CacheTotal(s.central) + 1
  {
    hide DropRun, ConfigOk, Linked, CacheTotal;
    var pc := s.threads[t].pc;
    var c := s.central[pc.cl];
    CacheTotalUpdate(s.central, pc.cl, PushSlot(c.(cacheSize := c.cacheSize + 1), pc.chain));
  }

  // ---------------------------------------------------------------- a run in which it rises

  const Small: Class := Class(8192, 1, 1)

  /** Class 0 and two classes of one-page objects moved one at a time. */
  const TwoClasses: Config := [Small, Small, Small]

  function Fresh(cacheSize: int): CentralList { CentralList(map[], [], [], 0, 0, [], cacheSize, 1) }

  /** Class 1 when the one object of its one span is out. */
  function OneOut(): CentralList { CentralList(map[SpanAt(1) := Cut([], 1)], [], [SpanAt(1)], 1, 0, [], 0, 1) }

  /** One thread at `pc`; class 1 is `c`, with or without its span; class 2 has room for `n` batches. */
  ghost function One(pc: Pc, has: bool, spans: bool, c: CentralList, n: int, client: multiset<Addr>): State {
    State(if spans then map[SpanAt(1) := Span(1, 1, InUse, 1)] else map[],
          [Fresh(0), c, Fresh(n)], [Thread([[], [], []], pc, has)], [multiset{}, client, multiset{}])
  }

  /** `b` is `a` after taking the lock it waits for and one step with it. */
  ghost predicate Turn(a: State, b: State, ch: Choice) {
    && Typed(TwoClasses, a) && Enabled(TwoClasses, a, Acquire(0))
    && var a' := Apply(TwoClasses, a, Acquire(0));
       Typed(TwoClasses, a') && Enabled(TwoClasses, a', RunLocked(0, ch)) && Apply(TwoClasses, a', RunLocked(0, ch)) == b
  }

  const Nothing: Choice := Choice(None, None, None)

  lemma CellsOfSmall()
    ensures CellsOf(Small, 1) == [8192]
  {
    assert CellsFrom(16384, 16384, 8192) == [];
  }

  lemma AskTurn()
    ensures Turn(One(Remove(1, 1), false, false, Fresh(0), 1, multiset{}),
                 One(Ask(1, 1), false, false, Fresh(0), 1, multiset{}), Nothing)
  {
  }

  lemma SpanTurn()
    ensures Turn(One(Ask(1, 1), false, false, Fresh(0), 1, multiset{}),
                 One(Carry(1, 1, Some((SpanAt(1), [8192]))), false, true, Fresh(0), 1, multiset{}),
                 Choice(Some((SpanAt(1), 1)), None, None))
  {
    CellsOfSmall();
  }

  lemma FetchesOne()
    ensures var c := AddSpan(Fresh(0), SpanAt(1), [8192]); Linked(c) && FetchMany(c, 1) == ([8192], OneOut())
  {
    var c := AddSpan(Fresh(0), SpanAt(1), [8192]);
    assert c.nonempty[1..] == [] && [SpanAt(1)] + c.empty == [SpanAt(1)] && c.cuts[SpanAt(1)].objects[1..] == [];
    assert c.cuts[SpanAt(1) := Cut([], 1)] == OneOut().cuts && [8192][..1] == [8192];
    assert FetchFromOneSpans(c, 1) == ([8192], OneOut());
    assert FetchMany(OneOut(), 0) == ([], OneOut());
    assert [] + [8192] == [8192];
  }

  lemma CarryTurn()
    ensures Turn(One(Carry(1, 1, Some((SpanAt(1), [8192]))), false, true, Fresh(0), 1, multiset{}),
                 One(Idle, false, true, OneOut(), 1, multiset{8192}), Nothing)
  {
    hide FetchMany, AddSpan, OneOut;
    FetchesOne();
    var a := One(Carry(1, 1, Some((SpanAt(1), [8192]))), true, true, Fresh(0), 1, multiset{});
    var b := One(Idle, false, true, OneOut(), 1, multiset{8192});
    assert WithCentral(a, 1, OneOut()).central == b.central;
    assert [8192][1..] + [] == [] && a.threads[0].lists[1 := []] == a.threads[0].lists;
    var d := Deliver(WithCentral(a, 1, OneOut()), 0, 1, [8192]);
    assert a.client[1] + multiset{8192} == multiset{8192};
    assert d.threads == b.threads && d.client == b.client;
  }

  lemma InsertTurn()
    ensures Turn(One(Insert(1, [8192]), false, true, OneOut(), 1, multiset{}),
                 One(Evict(1, [8192], 2, false), false, true, OneOut(), 1, multiset{}), Choice(None, Some(2), None))
  {
  }

  lemma EvictTurn()
    ensures Turn(One(Evict(1, [8192], 2, false), false, true, OneOut(), 1, multiset{}),
                 One(Back(1, [8192], false, true), false, true, OneOut(), 0, multiset{}), Nothing)
  {
  }

  lemma FreeTurn()
    ensures var s := One(Idle, false, true, OneOut(), 1, multiset{8192});
      && Typed(TwoClasses, s) && Enabled(TwoClasses, s, FreeDirect(0, 8192))
      && Apply(TwoClasses, s, FreeDirect(0, 8192)) == One(Insert(1, [8192]), false, true, OneOut(), 1, multiset{})
  {
    var s := One(Idle, false, true, OneOut(), 1, multiset{8192});
    assert 8192 in s.client[1];
    assert ClientHas(TwoClasses, s, 8192);
    OwnerIs(s.live, SpanAt(1), PageOf(8192));
  }

  lemma Extend(run: seq<State>, step: Step) returns (longer: seq<State>)
    requires IsRun(TwoClasses, run) && Typed(TwoClasses, run[|run| - 1]) && Enabled(TwoClasses, run[|run| - 1], step)
    ensures IsRun(TwoClasses, longer) && longer[|longer| - 1] == Apply(TwoClasses, run[|run| - 1], step) && longer[0] == run[0]
  {
    hide Init, Typed, Enabled, Apply;
    longer := run + [Apply(TwoClasses, run[|run| - 1], step)];
    forall j | 0 <= j < |longer| - 1 ensures Next(TwoClasses, longer[j], longer[j + 1]) {
      if j < |run| - 1 { assert Next(TwoClasses, run[j], run[j + 1]); }
    }
  }

  lemma ExtendTurn(run: seq<State>, b: State, ch: Choice) returns (longer: seq<State>)
    requires IsRun(TwoClasses, run) && Turn(run[|run| - 1], b, ch)
    ensures IsRun(TwoClasses, longer) && longer[|longer| - 1] == b && longer[0] == run[0]
  {
    hide Init, Next, Typed, Enabled, Apply;
    longer := Extend(run, Acquire(0));
    longer := Extend(longer, RunLocked(0, ch));
  }

  lemma StartTurn()
    ensures var s := One(Idle, false, false, Fresh(0), 1, multiset{});
      && Init(TwoClasses, s) && Typed(TwoClasses, s) && Enabled(TwoClasses, s, Refill(0, 1, 1))
      && Apply(TwoClasses, s, Refill(0, 1, 1)) == One(Remove(1, 1), false, false, Fresh(0), 1, multiset{})
  {
  }

  lemma LastTurn()
    ensures var s := One(Back(1, [8192], false, true), false, true, OneOut(), 0, multiset{});
      && Typed(TwoClasses, s) && Enabled(TwoClasses, s, Acquire(0))
      && Apply(TwoClasses, s, Acquire(0)) == One(Back(1, [8192], false, true), true, true, OneOut(), 0, multiset{})
  {
  }

  lemma LastRises()
    ensures var s, step := One(Back(1, [8192], false, true), true, true, OneOut(), 0, multiset{}), RunLocked(0, Nothing);
      && Typed(TwoClasses, s) && Enabled(TwoClasses, s, step) && TakesSlot(TwoClasses, s, step)
  {
  }

  /** Runs reach the step at which the total rises: a thread that frees into a full class takes
      a slot from another one, the total falls, and rises again when the slot arrives. */
  lemma RiseReached() returns (run: seq<State>)
    ensures IsRun(TwoClasses, run)
    ensures var s, step := run[|run| - 1], RunLocked(0, Nothing);
      && Typed(TwoClasses, s) && Enabled(TwoClasses, s, step) && TakesSlot(TwoClasses, s, step)
      && CacheTotal(run[0].central) == 1 && CacheTotal(s.central) == 0
      && CacheTotal(Apply(TwoClasses, s, step).central) == 1
  {
    hide Init, Next, Typed, Enabled, Apply, Turn, Fresh, OneOut, CacheTotal, TakesSlot;
    StartTurn();
    run := Extend([One(Idle, false, false, Fresh(0), 1, multiset{})], Refill(0, 1, 1));
    AskTurn();
    run := ExtendTurn(run, One(Ask(1, 1), false, false, Fresh(0), 1, multiset{}), Nothing);
    SpanTurn();
    run := ExtendTurn(run, One(Carry(1, 1, Some((SpanAt(1), [8192]))), false, true, Fresh(0), 1, multiset{}), Choice(Some((SpanAt(1), 1)), None, None));
    CarryTurn();
    run := ExtendTurn(run, One(Idle, false, true, OneOut(), 1, multiset{8192}), Nothing);
    FreeTurn();
    run := Extend(run, FreeDirect(0, 8192));
    InsertTurn();
    run := ExtendTurn(run, One(Evict(1, [8192], 2, false), false, true, OneOut(), 1, multiset{}), Choice(None, Some(2), None));
    EvictTurn();
    run := ExtendTurn(run, One(Back(1, [8192], false, true), false, true, OneOut(), 0, multiset{}), Nothing);
    LastTurn();
    run := Extend(run, Acquire(0));
    LastRises();
    Totals();
  }

  lemma Totals()
    ensures CacheTotal([Fresh(0), Fresh(0), Fresh(1)]) == 1 && CacheTotal([Fresh(0), OneOut(), Fresh(0)]) == 0
    ensures var s, step := One(Back(1, [8192], false, true), true, true, OneOut(), 0, multiset{}), RunLocked(0, Nothing);
      Typed(TwoClasses, s) && Enabled(TwoClasses, s, step) && CacheTotal(Apply(TwoClasses, s, step).central) == 1
  {
    LastRises();
    CacheTotalUpdate([Fresh(0), OneOut(), Fresh(0)], 2, Fresh(1));
    var a, b := [Fresh(0), OneOut(), Fresh(0)], [Fresh(0), Fresh(0), Fresh(1)];
    assert a[1..] == [OneOut(), Fresh(0)] && a[1..][1..] == [Fresh(0)] && a[1..][1..][1..] == [];
    assert b[1..] == [Fresh(0), Fresh(1)] && b[1..][1..] == [Fresh(1)] && b[1..][1..][1..] == [];
    SlotArrives(TwoClasses, One(Back(1, [8192], false, true), true, true, OneOut(), 0, multiset{}), 0, Nothing);
  }
}
