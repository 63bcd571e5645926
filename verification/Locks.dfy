/** Locking, one lock operation at a time.

    A thread holds a set of locks and has a list of lock operations still to do before its
    code goes on; the lists are those of the source, call by call.  Beside the size-class
    and page-heap locks there are the locks taken below them, and the fork handler that
    takes nearly all of them.  What the thread computes between the operations is the
    system of `Allocator`, which every run here projects to. */
module Locks {
  import opened Spans
  import opened Cells
  import opened Central
  import opened Allocator
  import opened AllocatorProof

  datatype LockOp = Take(l: Lock) | Give(l: Lock)

  // ---------------------------------------------------------------- what the source locks

  /** End of RemoveRange or InsertRange. */
  function Leave(cl: int): seq<LockOp> { [Give(ClassLock(cl))] }

  /** LockInverter: constructor and destructor. */
  function Invert(held: int, temp: int): seq<LockOp> { [Give(ClassLock(held)), Take(ClassLock(temp))] }

  function Revert(held: int, temp: int): seq<LockOp> { [Give(ClassLock(temp)), Take(ClassLock(held))] }

  /** Populate and ReleaseToSpans around their calls into the page heap. */
  function ToPageHeap(cl: int): seq<LockOp> { [Give(ClassLock(cl)), Take(PageHeapLock)] }

  function FromPageHeap(cl: int): seq<LockOp> { [Give(PageHeapLock), Take(ClassLock(cl))] }

  /** InsertRange under the lock of `cl`, on its way to `next`. */
  function Onward(cl: int, next: Pc): seq<LockOp> {
    match next
    case Evict(_, _, victim, _) => Invert(cl, victim)
    case Drain(_, _, _, _, _) => ToPageHeap(cl)
    case _ => Leave(cl)
  }

  /** The lock operations between what a thread did at `pc` and what it does at `next`. */
  function Ops(pc: Pc, next: Pc): seq<LockOp> {
    match pc
    case Idle => []
    case Remove(cl, _) => if next.Ask? then ToPageHeap(cl) else Leave(cl)
    case Ask(cl, _) => FromPageHeap(cl)
    case Carry(cl, _, _) => Leave(cl)
    case Insert(cl, _) => Onward(cl, next)
    case Evict(cl, _, victim, _) => if next.Drain? then ToPageHeap(victim) else Revert(cl, victim)
    case Back(cl, _, _, _) => Onward(cl, next)
    case Drop(cl, _, after) =>
      if next.Drain? then ToPageHeap(cl) else if after.Resume? then Revert(after.cl, cl) else Leave(cl)
    case Drain(cl, _, _, _, _) => FromPageHeap(cl)
  }

  /** Code that only passes through locks: a scoped holder, metadata allocation with or
      without a new chunk from the system, a system allocation, the fork handler. */
  datatype Errand = Peek(l: Lock) | Metadata(grow: bool) | System | Fork

  function TakeClasses(n: nat): seq<LockOp> { seq(n, k => Take(ClassLock(k))) }

  function GiveClasses(n: nat): seq<LockOp> { seq(n, k => Give(ClassLock(k))) }

  function LockAll(n: nat): seq<LockOp> {
    [Take(PageHeapLock)] + TakeClasses(n) + [Take(SlowTlsLock), Take(SystemLock)]
  }

  function UnlockAll(n: nat): seq<LockOp> {
    [Give(SystemLock), Give(SlowTlsLock)] + GiveClasses(n) + [Give(PageHeapLock)]
  }

  function ErrandOps(n: nat, e: Errand): seq<LockOp> {
    match e
    case Peek(l) => [Take(l), Give(l)]
    case Metadata(grow) =>
      if grow then [Take(MetadataLock), Take(SystemLock), Give(SystemLock), Give(MetadataLock)]
      else [Take(MetadataLock), Give(MetadataLock)]
    case System => [Take(SystemLock), Give(SystemLock)]
    case Fork => LockAll(n) + UnlockAll(n)
  }

  // ---------------------------------------------------------------- the fine system

  datatype Fine = Fine(
    s: State,
    todo: seq<seq<LockOp>>,             // by thread: lock operations before it goes on
    held: seq<set<Lock>>,               // by thread: the locks it holds
    forks: set<int>)                    // threads inside the fork handler

  datatype FineStep =
    | Local(t: int, step: Step)         // between lock operations, no lock needed
    | Start(t: int, e: Errand)          // an errand of a thread at rest
    | Nested(t: int, e: Errand)         // an errand of a thread inside the page heap
    | TakeNext(t: int)
    | GiveNext(t: int)
    | Body(t: int, ch: Choice)          // with the lock waited for
    | Large(t: int, step: Step)         // spans without a size class, under the page-heap lock

  ghost predicate Shaped(f: Fine) {
    |f.todo| == |f.s.threads| == |f.held|
  }

  ghost predicate Unheld(f: Fine, l: Lock) {
    forall u :: 0 <= u < |f.held| ==> l !in f.held[u]
  }

  predicate LocalStep(step: Step, t: int) {
    match step
    case Malloc(u, _) => u == t
    case Refill(u, _, _) => u == t
    case Free(u, _) => u == t
    case FreeDirect(u, _) => u == t
    case Flush(u, _, _) => u == t
    case _ => false
  }

  ghost predicate CanStep(cfg: Config, f: Fine, st: FineStep)
    requires Typed(cfg, f.s) && Shaped(f)
  {
    && 0 <= st.t < |f.todo|
    && var ops := f.todo[st.t];
       match st
       case Local(t, step) => ops == [] && LocalStep(step, t) && Enabled(cfg, f.s, step)
       case Start(t, e) =>
         && ops == [] && f.s.threads[t].pc.Idle? && !e.System?
         && (e.Peek? ==> e.l == PageHeapLock || e.l == SlowTlsLock || (e.l.ClassLock? && 0 <= e.l.cl < |cfg|))
       case Nested(t, e) =>
         && t !in f.forks && PageHeapLock in f.held[t] && (ops == [] || (ops == [Give(PageHeapLock)] && f.s.threads[t].pc.Idle?))
         && (e.Metadata? || e.System?)
       case TakeNext(t) => ops != [] && ops[0].Take? && Unheld(f, ops[0].l)
       case GiveNext(t) => ops != [] && ops[0].Give?
       case Body(t, ch) => ops == [] && Enabled(cfg, f.s, RunLocked(t, ch))
       case Large(t, step) =>
         && t !in f.forks && ops == [Give(PageHeapLock)] && PageHeapLock in f.held[t] && f.s.threads[t].pc.Idle?
         && match step
            case NewLarge(id, start, length) => id !in f.s.live && Tiled(f.s.live[id := Span(start, length, InUse, 0)])
            case FreeLarge(id) => id in f.s.live && f.s.live[id].sizeclass == 0
            case _ => false
  }

  ghost function ApplyLarge(s: State, step: Step): State {
    match step
    case NewLarge(id, start, length) => s.(live := s.live[id := Span(start, length, InUse, 0)])
    case FreeLarge(id) => s.(live := s.live - {id})
    case _ => s
  }

  /** What a thread must do first at a new place in the code. */
  function Entry(pc: Pc): seq<LockOp> {
    if Wants(pc).Some? then [Take(Wants(pc).value)] else []
  }

  ghost function DoStep(cfg: Config, f: Fine, st: FineStep): Fine
    requires Typed(cfg, f.s) && Shaped(f) && CanStep(cfg, f, st)
  {
    var t, ops := st.t, f.todo[st.t];
    match st
    case Local(_, step) =>
      var s' := Apply(cfg, f.s, step);
      f.(s := s', todo := f.todo[t := if t < |s'.threads| then Entry(s'.threads[t].pc) else []])
    case Start(_, e) => f.(todo := f.todo[t := ErrandOps(|cfg|, e)], forks := if e.Fork? then f.forks + {t} else f.forks)
    case Nested(_, e) => f.(todo := f.todo[t := ErrandOps(|cfg|, e) + ops])
    case TakeNext(_) =>
      f.(held := f.held[t := f.held[t] + {ops[0].l}], todo := f.todo[t := ops[1..]],
         s := if |ops| == 1 then f.s.(threads := f.s.threads[t := f.s.threads[t].(has := true)]) else f.s)
    case GiveNext(_) =>
      f.(held := f.held[t := f.held[t] - {ops[0].l}], todo := f.todo[t := ops[1..]],
         forks := if |ops| == 1 then f.forks - {t} else f.forks)
    case Body(_, ch) =>
      var s' := Run(cfg, f.s, t, ch);
      f.(s := s', todo := f.todo[t := if t < |s'.threads| then Ops(f.s.threads[t].pc, s'.threads[t].pc) else []])
    case Large(_, step) => f.(s := ApplyLarge(f.s, step))
  }

  ghost predicate FineInit(cfg: Config, f: Fine) {
    && Init(cfg, f.s) && Shaped(f) && f.forks == {}
    && forall t :: 0 <= t < |f.todo| ==> f.todo[t] == [] && f.held[t] == {}
  }

  ghost predicate FineNext(cfg: Config, f: Fine, f': Fine) {
    Typed(cfg, f.s) && Shaped(f) && exists st :: CanStep(cfg, f, st) && f' == DoStep(cfg, f, st)
  }

  ghost predicate IsFineRun(cfg: Config, run: seq<Fine>) {
    && |run| >= 1 && FineInit(cfg, run[0])
    && (forall j :: 0 <= j < |run| - 1 ==> FineNext(cfg, run[j], run[j + 1]))
  }

  // ---------------------------------------------------------------- lock order

  function Rank(n: nat, l: Lock): int {
    match l
    case PageHeapLock => 0
    case ClassLock(cl) => cl + 1
    case SlowTlsLock => n + 1
    case MetadataLock => n + 2
    case SystemLock => n + 3
  }

  predicate Known(n: nat, l: Lock) { l.ClassLock? ==> 0 <= l.cl < n }

  ghost predicate Above(n: nat, l: Lock, held: set<Lock>) {
    forall h :: h in held ==> Rank(n, h) < Rank(n, l)
  }

  ghost predicate NoClass(held: set<Lock>) {
    forall h :: h in held ==> !h.ClassLock?
  }

  /** Locks are taken only upwards in rank and only held ones are given back; outside the
      fork handler no class lock is held at a lock call, and none at all when a class lock
      is taken. */
  ghost predicate OpOk(n: nat, fork: bool, held: set<Lock>, op: LockOp) {
    match op
    case Take(l) => Known(n, l) && Above(n, l, held) && (!fork ==> NoClass(held) && (l.ClassLock? ==> held == {}))
    case Give(l) => l in held
  }

  function HeldThen(held: set<Lock>, op: LockOp): set<Lock> {
    match op
    case Take(l) => held + {l}
    case Give(l) => held - {l}
  }

  ghost predicate Safe(n: nat, fork: bool, held: set<Lock>, ops: seq<LockOp>)
    decreases |ops|
  {
    ops == [] || (OpOk(n, fork, held, ops[0]) && Safe(n, fork, HeldThen(held, ops[0]), ops[1..]))
  }

  /** The locks held when the operations are done. */
  ghost function HeldAfter(held: set<Lock>, ops: seq<LockOp>): set<Lock>
    decreases |ops|
  {
    if ops == [] then held else HeldAfter(HeldThen(held, ops[0]), ops[1..])
  }

  function Goal(pc: Pc): set<Lock> {
    if Wants(pc).Some? then {Wants(pc).value} else {}
  }

  ghost predicate Spares(ops: seq<LockOp>, l: Lock) {
    forall i :: 0 <= i < |ops| ==> ops[i].l != l
  }

  /** Whatever a thread has still to do with locks is safe, and ends with the lock its next
      place in the code needs. */
  ghost predicate ThreadOk(n: nat, th: Thread, fork: bool, held: set<Lock>, ops: seq<LockOp>) {
    && Safe(n, fork, held, ops) && HeldAfter(held, ops) == Goal(th.pc)
    && (th.has ==> Wants(th.pc).Some? && Wants(th.pc).value in held && Spares(ops, Wants(th.pc).value))
    && (!th.has && !th.pc.Idle? ==> ops != [] && ops[|ops| - 1] == Take(Wants(th.pc).value))
    && (fork ==> ops != [] && th.pc.Idle?)
  }

  ghost predicate Apart(f: Fine) {
    forall u, v :: 0 <= u < v < |f.held| ==> f.held[u] !! f.held[v]
  }

  ghost predicate FineInv(cfg: Config, f: Fine) {
    && Inv(cfg, f.s) && Shaped(f) && Apart(f)
    && forall t :: 0 <= t < |f.todo| ==> ThreadOk(|cfg|, f.s.threads[t], t in f.forks, f.held[t], f.todo[t])
  }

  // ---------------------------------------------------------------- lists of operations

  lemma {:induction false} SafeAppend(n: nat, fork: bool, held: set<Lock>, a: seq<LockOp>, b: seq<LockOp>)
    requires Safe(n, fork, held, a) && Safe(n, fork, HeldAfter(held, a), b)
    ensures Safe(n, fork, held, a + b) && HeldAfter(held, a + b) == HeldAfter(HeldAfter(held, a), b)
    decreases |a|
  {
    hide OpOk, HeldThen;
    if a == [] {
      assert a + b == b;
    } else {
      assert (a + b)[1..] == a[1..] + b;
      SafeAppend(n, fork, HeldThen(held, a[0]), a[1..], b);
    }
  }

  lemma One(n: nat, fork: bool, held: set<Lock>, op: LockOp)
    requires OpOk(n, fork, held, op)
    ensures Safe(n, fork, held, [op]) && HeldAfter(held, [op]) == HeldThen(held, op)
  {
    hide OpOk, HeldThen;
  }

  lemma Two(n: nat, fork: bool, held: set<Lock>, a: LockOp, b: LockOp)
    requires OpOk(n, fork, held, a) && OpOk(n, fork, HeldThen(held, a), b)
    ensures Safe(n, fork, held, [a, b]) && HeldAfter(held, [a, b]) == HeldThen(HeldThen(held, a), b)
  {
    hide OpOk, HeldThen;
    One(n, fork, held, a);
    One(n, fork, HeldThen(held, a), b);
    SafeAppend(n, fork, held, [a], [b]);
    assert [a] + [b] == [a, b];
  }

  ghost function ClassesFrom(k: int, n: nat): set<Lock> {
    set i: int | k <= i < n :: ClassLock(i)
  }

  lemma {:induction false} TakesClasses(n: nat, k: nat)
    requires k <= n
    ensures Safe(n, true, {PageHeapLock} + ClassesFrom(0, k), TakeClasses(n)[k..])
    ensures HeldAfter({PageHeapLock} + ClassesFrom(0, k), TakeClasses(n)[k..]) == {PageHeapLock} + ClassesFrom(0, n)
    decreases n - k
  {
    if k < n {
      TakesClasses(n, k + 1);
      assert TakeClasses(n)[k..][1..] == TakeClasses(n)[k + 1..];
      assert {PageHeapLock} + ClassesFrom(0, k) + {ClassLock(k)} == {PageHeapLock} + ClassesFrom(0, k + 1);
    }
  }

  lemma {:induction false} GivesClasses(n: nat, k: nat)
    requires k <= n
    ensures Safe(n, true, {PageHeapLock} + ClassesFrom(k, n), GiveClasses(n)[k..])
    ensures HeldAfter({PageHeapLock} + ClassesFrom(k, n), GiveClasses(n)[k..]) == {PageHeapLock}
    decreases n - k
  {
    if k < n {
      GivesClasses(n, k + 1);
      assert GiveClasses(n)[k..][1..] == GiveClasses(n)[k + 1..];
      assert {PageHeapLock} + ClassesFrom(k, n) - {ClassLock(k)} == {PageHeapLock} + ClassesFrom(k + 1, n);
    }
  }

  ghost function AllOf(n: nat): set<Lock> { {PageHeapLock} + ClassesFrom(0, n) + {SlowTlsLock, SystemLock} }

  lemma LocksAll(n: nat)
    ensures Safe(n, true, {}, LockAll(n)) && HeldAfter({}, LockAll(n)) == AllOf(n)
  {
    hide Safe, HeldAfter;
    var h := {PageHeapLock} + ClassesFrom(0, n);
    assert {PageHeapLock} + ClassesFrom(0, 0) == {PageHeapLock} == HeldThen({}, Take(PageHeapLock));
    TakesClasses(n, 0);
    assert TakeClasses(n)[0..] == TakeClasses(n);
    One(n, true, {}, Take(PageHeapLock));
    SafeAppend(n, true, {}, [Take(PageHeapLock)], TakeClasses(n));
    Two(n, true, h, Take(SlowTlsLock), Take(SystemLock));
    SafeAppend(n, true, {}, [Take(PageHeapLock)] + TakeClasses(n), [Take(SlowTlsLock), Take(SystemLock)]);
    assert h + {SlowTlsLock} + {SystemLock} == AllOf(n);
  }

  lemma UnlocksAll(n: nat)
    ensures Safe(n, true, AllOf(n), UnlockAll(n)) && HeldAfter(AllOf(n), UnlockAll(n)) == {}
  {
    hide Safe, HeldAfter;
    var h, first := {PageHeapLock} + ClassesFrom(0, n), [Give(SystemLock), Give(SlowTlsLock)];
    assert AllOf(n) - {SystemLock} - {SlowTlsLock} == h;
    Two(n, true, AllOf(n), Give(SystemLock), Give(SlowTlsLock));
    GivesClasses(n, 0);
    assert GiveClasses(n)[0..] == GiveClasses(n);
    SafeAppend(n, true, AllOf(n), first, GiveClasses(n));
    One(n, true, {PageHeapLock}, Give(PageHeapLock));
    SafeAppend(n, true, AllOf(n), first + GiveClasses(n), [Give(PageHeapLock)]);
  }

  /** Every errand ends with the locks it started with. */
  lemma ErrandSafe(n: nat, e: Errand, held: set<Lock>)
    requires held <= {PageHeapLock} && (e.Fork? || e.Peek? ==> held == {}) && (e.Peek? ==> Known(n, e.l))
    ensures Safe(n, e.Fork?, held, ErrandOps(n, e)) && HeldAfter(held, ErrandOps(n, e)) == held && ErrandOps(n, e) != []
  {
    hide Safe, HeldAfter;
    match e
    case Peek(l) => Two(n, false, {}, Take(l), Give(l));
    case Metadata(grow) =>
      if grow {
        Two(n, false, held, Take(MetadataLock), Take(SystemLock));
        Two(n, false, held + {MetadataLock} + {SystemLock}, Give(SystemLock), Give(MetadataLock));
        SafeAppend(n, false, held, [Take(MetadataLock), Take(SystemLock)], [Give(SystemLock), Give(MetadataLock)]);
        assert held + {MetadataLock} + {SystemLock} - {SystemLock} - {MetadataLock} == held;
        assert ErrandOps(n, e) == [Take(MetadataLock), Take(SystemLock)] + [Give(SystemLock), Give(MetadataLock)];
      } else {
        Two(n, false, held, Take(MetadataLock), Give(MetadataLock));
        assert held + {MetadataLock} - {MetadataLock} == held;
      }
    case System =>
      Two(n, false, held, Take(SystemLock), Give(SystemLock));
      assert held + {SystemLock} - {SystemLock} == held;
    case Fork =>
      LocksAll(n);
      UnlocksAll(n);
      SafeAppend(n, true, {}, LockAll(n), UnlockAll(n));
  }

  // ---------------------------------------------------------------- what follows what

  ghost predicate OnwardFrom(cfg: Config, cl: int, next: Pc) {
    match next
    case Idle => true
    case Evict(k, _, victim, _) => k == cl && 0 <= victim < |cfg| && victim != cl
    case Drain(k, _, _, _, _) => k == cl
    case _ => false
  }

  /** Where a thread can stand next. */
  ghost predicate Follows(cfg: Config, pc: Pc, next: Pc) {
    match pc
    case Idle => true
    case Remove(cl, n) => IsClass(cfg, cl) && (next == Idle || next == Ask(cl, n))
    case Ask(cl, _) => IsClass(cfg, cl) && next.Carry? && next.cl == cl
    case Carry(cl, _, _) => IsClass(cfg, cl) && next == Idle
    case Insert(cl, _) => IsClass(cfg, cl) && OnwardFrom(cfg, cl, next)
    case Evict(cl, _, victim, _) =>
      && IsClass(cfg, cl) && 0 <= victim < |cfg| && victim != cl
      && ((next.Back? && next.cl == cl) || (next.Drain? && next.cl == victim))
    case Back(cl, _, _, _) => IsClass(cfg, cl) && OnwardFrom(cfg, cl, next)
    case Drop(cl, _, after) =>
      && IsClass(cfg, cl) && (after.Resume? ==> IsClass(cfg, after.cl))
      && ((next.Drain? && next.cl == cl) || next == Finish(after))
    case Drain(cl, _, _, _, _) => IsClass(cfg, cl) && next.Drop? && next.cl == cl
  }

  ghost predicate OnlyThread(s: State, s': State, t: int)
    requires 0 <= t < |s.threads|
  {
    |s'.threads| == |s.threads| && forall u :: 0 <= u < |s.threads| && u != t ==> s'.threads[u] == s.threads[u]
  }

  lemma DropFollows(cfg: Config, s: State, t: int, cl: int, chain: seq<Addr>, after: After)
    requires ConfigOk(cfg) && 0 <= t < |s.threads| && 0 <= cl < |cfg| == |s.central|
    ensures var s' := DropRun(cfg, s, t, cl, chain, after);
      && OnlyThread(s, s', t) && !s'.threads[t].has
      && ((s'.threads[t].pc.Drain? && s'.threads[t].pc.cl == cl) || s'.threads[t].pc == Finish(after))
  {
    hide ReleaseListToSpans, ConfigOk;
  }

  lemma EvictFollows(cfg: Config, s: State, t: int)
    requires Inv(cfg, s) && 0 <= t < |s.threads| && s.threads[t].pc.Evict?
    ensures var pc := s.threads[t].pc; PcOk(cfg, s, pc) && 0 <= pc.victim < |s.central|
    ensures var pc := s.threads[t].pc;
      var s' := RunEvict(cfg, s, t, pc.cl, pc.chain, pc.victim, pc.force);
      OnlyThread(s, s', t) && !s'.threads[t].has && Follows(cfg, pc, s'.threads[t].pc)
  {
    hide SpansOk, Balanced, CentralsOk, PcsOk, Homed, Mutex, DropRun;
    InvPc(cfg, s, t);
    var pc := s.threads[t].pc;
    var c := s.central[pc.victim];
    if c.cacheSize != 0 && |c.slots| == c.cacheSize && pc.force {
      assert pc.victim != 0;
      var (slot, c') := PopSlot(c);
      DropFollows(cfg, WithCentral(s, pc.victim, c'.(cacheSize := c.cacheSize - 1)), t, pc.victim, slot, Resume(pc.cl, pc.chain, pc.force));
    }
  }

  lemma RunFollows(cfg: Config, s: State, t: int, ch: Choice)
    requires Inv(cfg, s) && 0 <= t < |s.threads| && s.threads[t].has && ChoiceOk(cfg, s, s.threads[t].pc, ch)
    ensures var s' := Run(cfg, s, t, ch);
      OnlyThread(s, s', t) && !s'.threads[t].has && Follows(cfg, s.threads[t].pc, s'.threads[t].pc)
  {
    hide SpansOk, Balanced, CentralsOk, PcsOk, Homed, DropRun, FetchMany, CellsOf, Tiled, Linked, RunEvict;
    InvPc(cfg, s, t);
    match s.threads[t].pc
    case Idle =>
    case Remove(cl, n) =>
    case Ask(cl, n) =>
    case Carry(cl, n, got) =>
    case Insert(cl, chain) => DropFollows(cfg, s, t, cl, chain, Done);
    case Evict(cl, chain, victim, force) => EvictFollows(cfg, s, t);
    case Back(cl, chain, force, ok) => DropFollows(cfg, s, t, cl, chain, Done);
    case Drop(cl, rest, after) => DropFollows(cfg, s, t, cl, rest, after);
    case Drain(cl, id, gone, rest, after) =>
  }

  /** The operations on the way give the lock held and leave the one wanted next. */
  lemma OpsSafe(cfg: Config, pc: Pc, next: Pc)
    requires Follows(cfg, pc, next) && !pc.Idle?
    ensures Safe(|cfg|, false, Goal(pc), Ops(pc, next)) && HeldAfter(Goal(pc), Ops(pc, next)) == Goal(next)
    ensures Ops(pc, next) != []
    ensures !next.Idle? ==> Ops(pc, next)[|Ops(pc, next)| - 1] == Take(Wants(next).value)
  {
    hide Safe, HeldAfter;
    var ops := Ops(pc, next);
    if |ops| == 1 {
      One(|cfg|, false, Goal(pc), ops[0]);
      assert ops == [ops[0]];
    } else {
      Two(|cfg|, false, Goal(pc), ops[0], ops[1]);
      assert ops == [ops[0], ops[1]];
    }
  }

  // ---------------------------------------------------------------- every step keeps it

  ghost predicate OnlyEntry(f: Fine, f': Fine, t: int)
    requires Shaped(f) && 0 <= t < |f.todo|
  {
    && Shaped(f') && OnlyThread(f.s, f'.s, t)
    && forall u :: 0 <= u < |f.todo| && u != t ==>
         f'.todo[u] == f.todo[u] && f'.held[u] == f.held[u] && (u in f'.forks <==> u in f.forks)
  }

  lemma EntryKeeps(cfg: Config, f: Fine, f': Fine, t: int)
    requires FineInv(cfg, f) && 0 <= t < |f.todo| && OnlyEntry(f, f', t) && Inv(cfg, f'.s)
    requires ThreadOk(|cfg|, f'.s.threads[t], t in f'.forks, f'.held[t], f'.todo[t])
    requires forall u :: 0 <= u < |f.todo| && u != t ==> f'.held[t] !! f.held[u]
    ensures FineInv(cfg, f')
  {
    hide Inv, ThreadOk;
    forall u | 0 <= u < |f'.todo| ensures ThreadOk(|cfg|, f'.s.threads[u], u in f'.forks, f'.held[u], f'.todo[u]) {
      if u != t { assert ThreadOk(|cfg|, f.s.threads[u], u in f.forks, f.held[u], f.todo[u]); }
    }
  }

  lemma LocalKeepsFine(cfg: Config, f: Fine, t: int, step: Step)
    requires FineInv(cfg, f) && CanStep(cfg, f, Local(t, step))
    ensures FineInv(cfg, DoStep(cfg, f, Local(t, step))) && Next(cfg, f.s, DoStep(cfg, f, Local(t, step)).s)
  {
    hide SpansOk, Balanced, CentralsOk, PcsOk, Homed, Mutex, ZeroOk, ClassAt;
    var f' := DoStep(cfg, f, Local(t, step));
    IdleHasNot(cfg, f.s, t);
    StepKeeps(cfg, f.s, step);
    InvPc(cfg, f'.s, t);
    var pc := f'.s.threads[t].pc;
    if Wants(pc).Some? { One(|cfg|, false, {}, Take(Wants(pc).value)); }
    EntryKeeps(cfg, f, f', t);
  }

  lemma StartKeeps(cfg: Config, f: Fine, t: int, e: Errand)
    requires FineInv(cfg, f) && CanStep(cfg, f, Start(t, e))
    ensures FineInv(cfg, DoStep(cfg, f, Start(t, e)))
  {
    hide SpansOk, Balanced, CentralsOk, PcsOk, Homed, Mutex, ZeroOk, ErrandOps;
    IdleHasNot(cfg, f.s, t);
    ErrandSafe(|cfg|, e, {});
    EntryKeeps(cfg, f, DoStep(cfg, f, Start(t, e)), t);
  }

  lemma NestedKeeps(cfg: Config, f: Fine, t: int, e: Errand)
    requires FineInv(cfg, f) && CanStep(cfg, f, Nested(t, e))
    ensures FineInv(cfg, DoStep(cfg, f, Nested(t, e)))
  {
    hide SpansOk, Balanced, CentralsOk, PcsOk, Homed, Mutex, ZeroOk;
    var ops := f.todo[t];
    assert f.held[t] == {PageHeapLock} by {
      assert ThreadOk(|cfg|, f.s.threads[t], t in f.forks, f.held[t], ops);
      if ops != [] {
        One(|cfg|, false, f.held[t], Give(PageHeapLock));
        assert f.held[t] - {PageHeapLock} == {};
      }
    }
    ErrandSafe(|cfg|, e, {PageHeapLock});
    SafeAppend(|cfg|, false, f.held[t], ErrandOps(|cfg|, e), ops);
    EntryKeeps(cfg, f, DoStep(cfg, f, Nested(t, e)), t);
  }

  lemma TakeKeeps(cfg: Config, f: Fine, t: int)
    requires FineInv(cfg, f) && CanStep(cfg, f, TakeNext(t))
    ensures FineInv(cfg, DoStep(cfg, f, TakeNext(t)))
    ensures var s' := DoStep(cfg, f, TakeNext(t)).s; s' == f.s || Next(cfg, f.s, s')
  {
    hide SpansOk, Balanced, CentralsOk, PcsOk, Homed, Mutex, ZeroOk;
    var f' := DoStep(cfg, f, TakeNext(t));
    var ops, th := f.todo[t], f.s.threads[t];
    assert ThreadOk(|cfg|, th, t in f.forks, f.held[t], ops);
    if |ops| == 1 {
      assert HeldAfter(f.held[t], ops) == f.held[t] + {ops[0].l};
      assert !th.has && Wants(th.pc) == Some(ops[0].l);
      assert LockFree(f.s, ops[0].l);
      assert Enabled(cfg, f.s, Acquire(t));
      StepKeeps(cfg, f.s, Acquire(t));
      assert f'.s == Apply(cfg, f.s, Acquire(t));
    }
    EntryKeeps(cfg, f, f', t);
  }

  lemma GiveKeeps(cfg: Config, f: Fine, t: int)
    requires FineInv(cfg, f) && CanStep(cfg, f, GiveNext(t))
    ensures FineInv(cfg, DoStep(cfg, f, GiveNext(t)))
  {
    hide SpansOk, Balanced, CentralsOk, PcsOk, Homed, Mutex, ZeroOk;
    assert ThreadOk(|cfg|, f.s.threads[t], t in f.forks, f.held[t], f.todo[t]);
    EntryKeeps(cfg, f, DoStep(cfg, f, GiveNext(t)), t);
  }

  lemma BodyKeeps(cfg: Config, f: Fine, t: int, ch: Choice)
    requires FineInv(cfg, f) && CanStep(cfg, f, Body(t, ch))
    ensures FineInv(cfg, DoStep(cfg, f, Body(t, ch))) && Next(cfg, f.s, DoStep(cfg, f, Body(t, ch)).s)
  {
    hide SpansOk, Balanced, CentralsOk, PcsOk, Homed, Mutex, ZeroOk, Run, Ops, ChoiceOk, Follows;
    var f' := DoStep(cfg, f, Body(t, ch));
    assert f'.s == Apply(cfg, f.s, RunLocked(t, ch));
    StepKeeps(cfg, f.s, RunLocked(t, ch));
    RunFollows(cfg, f.s, t, ch);
    OpsSafe(cfg, f.s.threads[t].pc, f'.s.threads[t].pc);
    assert f.held[t] == Goal(f.s.threads[t].pc);
    EntryKeeps(cfg, f, f', t);
  }

  lemma LargeKeeps(cfg: Config, f: Fine, t: int, step: Step)
    requires FineInv(cfg, f) && CanStep(cfg, f, Large(t, step))
    ensures FineInv(cfg, DoStep(cfg, f, Large(t, step))) && Next(cfg, f.s, DoStep(cfg, f, Large(t, step)).s)
  {
    hide SpansOk, Balanced, CentralsOk, PcsOk, Homed, Mutex, ZeroOk, Tiled;
    var f' := DoStep(cfg, f, Large(t, step));
    forall u | 0 <= u < |f.s.threads| ensures !Holds(f.s.threads[u], PageHeapLock) {
      assert ThreadOk(|cfg|, f.s.threads[u], u in f.forks, f.held[u], f.todo[u]);
    }
    assert LockFree(f.s, PageHeapLock);
    assert Enabled(cfg, f.s, step) && f'.s == Apply(cfg, f.s, step);
    StepKeeps(cfg, f.s, step);
    EntryKeeps(cfg, f, f', t);
  }

  /** Each step keeps the invariant, and is a step of `Allocator` or leaves its state alone. */
  lemma FineKeeps(cfg: Config, f: Fine, st: FineStep)
    requires FineInv(cfg, f) && CanStep(cfg, f, st)
    ensures FineInv(cfg, DoStep(cfg, f, st))
    ensures DoStep(cfg, f, st).s == f.s || Next(cfg, f.s, DoStep(cfg, f, st).s)
  {
    hide FineInv, CanStep, Next;
    match st
    case Local(t, step) => LocalKeepsFine(cfg, f, t, step);
    case Start(t, e) => StartKeeps(cfg, f, t, e);
    case Nested(t, e) => NestedKeeps(cfg, f, t, e);
    case TakeNext(t) => TakeKeeps(cfg, f, t);
    case GiveNext(t) => GiveKeeps(cfg, f, t);
    case Body(t, ch) => BodyKeeps(cfg, f, t, ch);
    case Large(t, step) => LargeKeeps(cfg, f, t, step);
  }

  // ---------------------------------------------------------------- over whole runs

  lemma FineInitHolds(cfg: Config, f: Fine)
    requires FineInit(cfg, f)
    ensures FineInv(cfg, f)
  {
    hide Inv;
    InitHolds(cfg, f.s);
  }

  lemma {:induction false} FineAlways(cfg: Config, run: seq<Fine>, j: int)
    requires IsFineRun(cfg, run) && 0 <= j < |run|
    ensures FineInv(cfg, run[j])
    decreases j
  {
    hide FineInit, CanStep, DoStep, FineInv;
    if j == 0 {
      FineInitHolds(cfg, run[0]);
    } else {
      FineAlways(cfg, run, j - 1);
      assert FineNext(cfg, run[j - 1], run[j - 1 + 1]);
      var st :| CanStep(cfg, run[j - 1], st) && run[j] == DoStep(cfg, run[j - 1], st);
      FineKeeps(cfg, run[j - 1], st);
    }
  }

  /** Without its lock operations a run is a run of `Allocator`, the steps that only move
      locks apart. */
  lemma RunProjects(cfg: Config, run: seq<Fine>, j: int)
    requires IsFineRun(cfg, run) && 0 <= j < |run| - 1
    ensures Init(cfg, run[0].s) && Inv(cfg, run[j].s)
    ensures run[j + 1].s == run[j].s || Next(cfg, run[j].s, run[j + 1].s)
  {
    hide Init, CanStep, DoStep, Inv, Next;
    FineAlways(cfg, run, j);
    assert FineNext(cfg, run[j], run[j + 1]);
    var st :| CanStep(cfg, run[j], st) && run[j + 1] == DoStep(cfg, run[j], st);
    FineKeeps(cfg, run[j], st);
  }

  /** Thread `t` is at a call that locks `l`. */
  ghost predicate AtLock(f: Fine, t: int, l: Lock) {
    0 <= t < |f.todo| && f.todo[t] != [] && f.todo[t][0] == Take(l)
  }

  /** At every lock call of every run: outside the fork handler the thread holds no class
      lock, and no lock at all if it asks for a class lock; everywhere, the locks it holds
      come before the one it asks for. */
  lemma LockOrder(cfg: Config, run: seq<Fine>, j: int, t: int, l: Lock)
    requires IsFineRun(cfg, run) && 0 <= j < |run| && AtLock(run[j], t, l)
    ensures t < |run[j].held| && Above(|cfg|, l, run[j].held[t])
    ensures t !in run[j].forks ==> NoClass(run[j].held[t]) && (l.ClassLock? ==> run[j].held[t] == {})
  {
    hide FineInit, FineNext, Inv;
    FineAlways(cfg, run, j);
    assert ThreadOk(|cfg|, run[j].s.threads[t], t in run[j].forks, run[j].held[t], run[j].todo[t]);
  }

  // ---------------------------------------------------------------- no deadlock

  /** `x` is at a call for a lock that `y` holds. */
  ghost predicate Blocks(f: Fine, x: int, y: int) {
    0 <= y < |f.held| && exists l :: AtLock(f, x, l) && l in f.held[y]
  }

  /** `q` is a chain of threads, each waiting for the next. */
  ghost predicate WaitChain(f: Fine, q: seq<int>) {
    forall i :: 0 <= i < |q| - 1 ==> Blocks(f, q[i], q[i + 1])
  }

  /** Along a chain the locks waited for rise in rank. */
  lemma {:induction false} ChainRises(cfg: Config, f: Fine, q: seq<int>, last: Lock)
    requires FineInv(cfg, f) && |q| >= 2 && WaitChain(f, q) && AtLock(f, q[|q| - 1], last)
    ensures exists l :: AtLock(f, q[0], l) && Rank(|cfg|, l) < Rank(|cfg|, last)
    decreases |q|
  {
    hide Inv;
    var x, y := q[0], q[1];
    assert Blocks(f, q[0], q[0 + 1]);
    var l :| AtLock(f, x, l) && l in f.held[y];
    var next := last;
    if |q| > 2 {
      var r := q[1..];
      forall i | 0 <= i < |r| - 1 ensures Blocks(f, r[i], r[i + 1]) {
        assert Blocks(f, q[i + 1], q[i + 1 + 1]);
      }
      ChainRises(cfg, f, r, last);
      next :| AtLock(f, y, next) && Rank(|cfg|, next) < Rank(|cfg|, last);
    }
    assert ThreadOk(|cfg|, f.s.threads[y], y in f.forks, f.held[y], f.todo[y]);
    assert Above(|cfg|, next, f.held[y]);
  }

  /** No lock has two holders, and a thread that computes under a lock holds it. */
  lemma Exclusive(cfg: Config, run: seq<Fine>, j: int, t: int)
    requires IsFineRun(cfg, run) && 0 <= j < |run| && 0 <= t < |run[j].todo|
    ensures Shaped(run[j]) && Apart(run[j])
    ensures forall l :: Holds(run[j].s.threads[t], l) ==> l in run[j].held[t]
  {
    hide FineInit, FineNext, Inv;
    FineAlways(cfg, run, j);
    assert ThreadOk(|cfg|, run[j].s.threads[t], t in run[j].forks, run[j].held[t], run[j].todo[t]);
  }

  /** In no run is there a cycle of threads waiting for each other, even while threads are in
      the fork handler. */
  lemma NoDeadlock(cfg: Config, run: seq<Fine>, j: int, q: seq<int>)
    requires IsFineRun(cfg, run) && 0 <= j < |run| && |q| >= 2 && WaitChain(run[j], q)
    ensures q[0] != q[|q| - 1]
  {
    hide FineInit, FineNext, Inv;
    var f := run[j];
    FineAlways(cfg, run, j);
    if q[0] == q[|q| - 1] {
      assert Blocks(f, q[0], q[0 + 1]);
      var l :| AtLock(f, q[0], l);
      ChainRises(cfg, f, q, l);
    }
  }

  /** Whoever waits, some thread can go on with the code it is in. */
  lemma {:induction false} SomeoneAdvances(cfg: Config, f: Fine, x: int, l: Lock) returns (st: FineStep)
    requires FineInv(cfg, f) && AtLock(f, x, l)
    ensures (st.TakeNext? || st.GiveNext? || st.Body?) && CanStep(cfg, f, st)
    decreases |cfg| + 4 - Rank(|cfg|, l)
  {
    hide SpansOk, Balanced, CentralsOk, PcsOk, Homed, Mutex, ZeroOk;
    assert ThreadOk(|cfg|, f.s.threads[x], x in f.forks, f.held[x], f.todo[x]);
    if Unheld(f, l) {
      st := TakeNext(x);
    } else {
      var y :| 0 <= y < |f.held| && l in f.held[y];
      assert ThreadOk(|cfg|, f.s.threads[y], y in f.forks, f.held[y], f.todo[y]);
      if f.todo[y] == [] {
        var ch := Choice(None, None, None);
        NothingChosen(cfg, f.s, f.s.threads[y].pc);
        st := Body(y, ch);
      } else if f.todo[y][0].Give? {
        st := GiveNext(y);
      } else {
        st := SomeoneAdvances(cfg, f, y, f.todo[y][0].l);
      }
    }
  }

  lemma NothingChosen(cfg: Config, s: State, pc: Pc)
    requires ConfigOk(cfg)
    ensures ChoiceOk(cfg, s, pc, Choice(None, None, None))
  {
  }
}
