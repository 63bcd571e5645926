/** The byte counts reported for the heap, and what they add up to when no operation is under way. */
module Stats {
  import opened Spans
  import opened Cells
  import opened Central
  import opened Allocator
  import opened AllocatorProof

  // ---------------------------------------------------------------- sums over size classes

  ghost function SumTo(n: int, f: int -> int): int
    decreases n
  {
    if n <= 1 then 0 else SumTo(n - 1, f) + f(n - 1)
  }

  lemma {:induction false} SumToAdd(n: int, f: int -> int, g: int -> int, h: int -> int)
    requires forall k :: 1 <= k < n ==> h(k) == f(k) + g(k)
    ensures SumTo(n, h) == SumTo(n, f) + SumTo(n, g)
    decreases n
  {
    if n > 1 { SumToAdd(n - 1, f, g, h); }
  }

  lemma {:induction false} SumToSpike(n: int, f: int -> int, h: int -> int, c: int, x: int)
    requires forall k :: 1 <= k < n ==> h(k) == f(k) + (if k == c then x else 0)
    ensures SumTo(n, h) == SumTo(n, f) + (if 1 <= c < n then x else 0)
    decreases n
  {
    if n > 1 { SumToSpike(n - 1, f, h, c, x); }
  }

  lemma {:induction false} SumToZero(n: int, f: int -> int)
    requires forall k :: 1 <= k < n ==> f(k) == 0
    ensures SumTo(n, f) == 0
    decreases n
  {
    if n > 1 { SumToZero(n - 1, f); }
  }

  // ---------------------------------------------------------------- the reported counts

  function ListTerm(cfg: Config, th: Thread, k: int): int
    requires |th.lists| == |cfg|
  {
    if IsClass(cfg, k) then |th.lists[k]| * cfg[k].size else 0
  }

  /** Bytes of class `k` on all thread lists. */
  ghost function ListsTerm(cfg: Config, threads: seq<Thread>, k: int): int {
    if IsClass(cfg, k) then |ThreadSum(threads, k)| * cfg[k].size else 0
  }

  /** size_ of one thread cache. */
  ghost function ThreadSize(cfg: Config, th: Thread): int
    requires |th.lists| == |cfg|
  {
    SumTo(|cfg|, k => ListTerm(cfg, th, k))
  }

  ghost function ThreadBytes(cfg: Config, threads: seq<Thread>): int
    requires forall u :: 0 <= u < |threads| ==> |threads[u].lists| == |cfg|
  {
    if threads == [] then 0 else ThreadSize(cfg, threads[0]) + ThreadBytes(cfg, threads[1..])
  }

  function Overhead(c: Class): int
    requires c.Ok()
  {
    (c.pages * PageSize) % c.size
  }

  ghost function CentralBytes(cfg: Config, s: State): int
    requires Sized(cfg, s)
  {
    SumTo(|cfg|, k => if IsClass(cfg, k)
                      then s.central[k].counter * cfg[k].size + s.central[k].numSpans * Overhead(cfg[k]) else 0)
  }

  ghost function TransferBytes(cfg: Config, s: State): int
    requires Sized(cfg, s)
  {
    SumTo(|cfg|, k => if IsClass(cfg, k) then (|s.central[k].slots| * cfg[k].batch) * cfg[k].size else 0)
  }

  /** What clients hold: small blocks at their class size, large ones at span length. */
  ghost function SmallBytes(cfg: Config, s: State): int
    requires Sized(cfg, s)
  {
    SumTo(|cfg|, k => if IsClass(cfg, k) then |s.client[k]| * cfg[k].size else 0)
  }

  ghost function PagesWith(live: Table, k: int): int
    decreases |live|
  {
    if live == map[] then 0 else
      var i := Pick(live);
      (if live[i].sizeclass == k then live[i].length else 0) + PagesWith(live - {i}, k)
  }

  ghost function CountWith(live: Table, k: int): int
    decreases |live|
  {
    if live == map[] then 0 else
      var i := Pick(live);
      (if live[i].sizeclass == k then 1 else 0) + CountWith(live - {i}, k)
  }

  ghost predicate Quiescent(s: State) {
    forall u :: 0 <= u < |s.threads| ==> s.threads[u].pc == Idle
  }

  // ---------------------------------------------------------------- spans by class

  /** The pages in use are those of the large blocks and those of each size class. */
  lemma {:induction false} PagesByClass(cfg: Config, live: Table)
    requires forall i :: i in live ==> live[i].location == InUse && (live[i].sizeclass == 0 || IsClass(cfg, live[i].sizeclass))
    ensures Pages(live, InUse) == PagesWith(live, 0) + SumTo(|cfg|, k => PagesWith(live, k))
    decreases |live|
  {
    if live == map[] {
      SumToZero(|cfg|, k => PagesWith(live, k));
    } else {
      var i := Pick(live);
      PagesByClass(cfg, live - {i});
      SumToSpike(|cfg|, k => PagesWith(live - {i}, k), k => PagesWith(live, k), live[i].sizeclass, live[i].length);
    }
  }

  lemma {:induction false} PagesOfCount(live: Table, k: int, pages: int)
    requires forall i :: i in live && live[i].sizeclass == k ==> live[i].length == pages
    ensures PagesWith(live, k) == CountWith(live, k) * pages
    decreases |live|
  {
    if live != map[] {
      var i := Pick(live);
      PagesOfCount(live - {i}, k, pages);
      assert (CountWith(live - {i}, k) + 1) * pages == CountWith(live - {i}, k) * pages + pages;
    }
  }

  lemma Succ(n: int, c: int)
    ensures (n + 1) * c == n * c + c
  {
  }

  lemma FullEmpty(cfg: Config, k: int)
    requires ConfigOk(cfg) && IsClass(cfg, k)
    ensures Full(cfg, map[], k) == multiset{}
  {
  }

  lemma {:induction false} FullOfCount(cfg: Config, live: Table, k: int, per: int)
    requires ConfigOk(cfg) && IsClass(cfg, k) && forall start :: |CellsOf(cfg[k], start)| == per
    ensures |Full(cfg, live, k)| == CountWith(live, k) * per
    decreases |live|
  {
    hide CellsOf, Full;
    if live == map[] {
      FullEmpty(cfg, k);
    } else {
      var i := Pick(live);
      var rest := live - {i};
      FullOfCount(cfg, rest, k, per);
      FullRemove(cfg, live, i, k);
      Succ(CountWith(rest, k), per);
    }
  }

  // ---------------------------------------------------------------- the central lists when nothing is in hand

  lemma {:induction false} DistinctCard(q: seq<SpanId>)
    requires Distinct(q)
    ensures |set i | i in q| == |q|
  {
    if q != [] {
      var tail := q[1..];
      DistinctCard(tail);
      assert q[0] !in tail;
      assert (set i | i in q) == {q[0]} + (set i | i in tail);
    }
  }

  lemma ListsCount(c: CentralList)
    requires ListsOk(c)
    ensures |c.nonempty| + |c.empty| == |c.cuts.Keys|
  {
    DistinctCard(c.nonempty);
    DistinctCard(c.empty);
    var a, b := (set i | i in c.nonempty), (set i | i in c.empty);
    assert a * b == {} && a + b == c.cuts.Keys;
  }

  lemma {:induction false} CountIsCard(live: Table, k: int)
    ensures CountWith(live, k) == |set i | i in live && live[i].sizeclass == k|
    decreases |live|
  {
    var a := set j | j in live && live[j].sizeclass == k;
    if live == map[] {
      assert a == {};
    } else {
      var i := Pick(live);
      CountIsCard(live - {i}, k);
      var b := set j | j in live - {i} && (live - {i})[j].sizeclass == k;
      assert a == b + (if live[i].sizeclass == k then {i} else {});
      assert i !in b;
    }
  }

  /** With no operation under way every sized span is on the lists of its class. */
  lemma SpansCounted(cfg: Config, s: State, k: int)
    requires Inv(cfg, s) && Quiescent(s) && IsClass(cfg, k)
    ensures s.central[k].numSpans == CountWith(s.live, k)
  {
    hide SpansOk, Balanced, CentralsOk, PcsOk, Mutex, CutsOk, SlotsOk, AllOut, CellsOf;
    InvCentral(cfg, s, k);
    var c := s.central[k];
    forall i | i in c.cuts ensures i in s.live && s.live[i].sizeclass == k { KnownSpans(cfg, s, k, i); }
    assert c.cuts.Keys == set i | i in s.live && s.live[i].sizeclass == k;
    CountIsCard(s.live, k);
    hide ListsOk;
    ListsCount(c);
  }

  lemma {:induction false} SlotCount(slots: seq<seq<Addr>>, batch: int)
    requires forall j :: 0 <= j < |slots| ==> |slots[j]| == batch
    ensures |SlotSum(slots)| == |slots| * batch
  {
    if slots != [] {
      SlotCount(slots[..|slots| - 1], batch);
      Succ(|slots| - 1, batch);
    }
  }

  // ---------------------------------------------------------------- the total

  lemma {:induction false} SumToScale(n: int, f: int -> int, g: int -> int)
    requires forall k :: 1 <= k < n ==> g(k) == f(k) * PageSize
    ensures SumTo(n, g) == SumTo(n, f) * PageSize
    decreases n
  {
    if n > 1 { SumToScale(n - 1, f, g); }
  }

  lemma TermSplit(cfg: Config, threads: seq<Thread>, k: int)
    requires threads != [] && |threads[0].lists| == |cfg| && threads[0].pc == Idle
    ensures ListsTerm(cfg, threads, k) == ListTerm(cfg, threads[0], k) + ListsTerm(cfg, threads[1..], k)
  {
    if IsClass(cfg, k) {
      assert |ThreadSum(threads, k)| == |threads[0].lists[k]| + |ThreadSum(threads[1..], k)|;
      Distribute(|threads[0].lists[k]|, |ThreadSum(threads[1..], k)|, cfg[k].size);
    }
  }

  lemma {:induction false} ThreadBytesByClass(cfg: Config, threads: seq<Thread>)
    requires forall u :: 0 <= u < |threads| ==> |threads[u].lists| == |cfg| && threads[u].pc == Idle
    ensures ThreadBytes(cfg, threads) == SumTo(|cfg|, k => ListsTerm(cfg, threads, k))
  {
    if threads == [] {
      SumToZero(|cfg|, k => ListsTerm(cfg, threads, k));
    } else {
      hide ListsTerm, ListTerm;
      ThreadBytesByClass(cfg, threads[1..]);
      forall k ensures ListsTerm(cfg, threads, k) == ListTerm(cfg, threads[0], k) + ListsTerm(cfg, threads[1..], k) {
        TermSplit(cfg, threads, k);
      }
      SumToAdd(|cfg|, k => ListTerm(cfg, threads[0], k), k => ListsTerm(cfg, threads[1..], k), k => ListsTerm(cfg, threads, k));
    }
  }

  lemma Distribute(a: int, b: int, c: int)
    ensures (a + b) * c == a * c + b * c
  {
  }

  lemma SpanBytes(n: int, pages: int, size: int)
    requires size >= 1
    ensures (n * pages) * PageSize == (n * ((pages * PageSize) / size)) * size + n * ((pages * PageSize) % size)
  {
    var total := pages * PageSize;
    var q, r := total / size, total % size;
    assert total == size * q + r;
    assert (n * pages) * PageSize == n * total;
    assert n * (size * q + r) == n * (size * q) + n * r;
    assert n * (size * q) == (n * q) * size;
  }

  /** The bytes of one size class: client blocks, thread lists, free objects, slots and overhead. */
  lemma ClassBytes(cfg: Config, s: State, k: int)
    requires Inv(cfg, s) && Quiescent(s) && IsClass(cfg, k)
    ensures var c, size := s.central[k], cfg[k].size;
      PagesWith(s.live, k) * PageSize ==
        |s.client[k]| * size + |ThreadSum(s.threads, k)| * size
        + (c.counter * size + c.numSpans * Overhead(cfg[k])) + (|c.slots| * cfg[k].batch) * size
  {
    hide SpansOk, Balanced, CentralsOk, PcsOk, Homed, Mutex, CutsOk, ListsOk, AllOut, CellsOf, Full, ThreadSum, Sum, SlotSum;
    var c, size := s.central[k], cfg[k].size;
    var per := (cfg[k].pages * PageSize) / size;
    InvBalance(cfg, s, k);
    InvCentral(cfg, s, k);
    SpansCounted(cfg, s, k);
    ClassPages(cfg, s, k);
    forall start ensures |CellsOf(cfg[k], start)| == per { CellsCount(cfg[k], start); }
    FullOfCount(cfg, s.live, k, per);
    SlotCount(c.slots, cfg[k].batch);
    HeldCount(s, k);
    SpanBytes(c.numSpans, cfg[k].pages, size);
    var a, b, d, e := |s.client[k]|, |ThreadSum(s.threads, k)|, c.counter, |c.slots| * cfg[k].batch;
    assert c.numSpans * per == a + b + d + e;
    Spread(a, b, d, e, size);
  }

  lemma Spread(a: int, b: int, d: int, e: int, size: int)
    ensures (a + b + d + e) * size == a * size + b * size + d * size + e * size
  {
  }

  lemma HeldCount(s: State, k: int)
    requires 0 <= k < |s.client| && 0 <= k < |s.central|
    ensures |Held(s, k)| == |s.client[k]| + |ThreadSum(s.threads, k)| + |Sum(s.central[k].cuts, ObjectsOf)| + |SlotSum(s.central[k].slots)|
  {
    hide ThreadSum, Sum, SlotSum;
  }

  lemma ClassPages(cfg: Config, s: State, k: int)
    requires Inv(cfg, s) && IsClass(cfg, k)
    ensures PagesWith(s.live, k) == CountWith(s.live, k) * cfg[k].pages
  {
    hide Balanced, CentralsOk, PcsOk, Homed, Mutex, Tiled;
    PagesOfCount(s.live, k, cfg[k].pages);
  }

  lemma LivePages(cfg: Config, s: State)
    requires Inv(cfg, s)
    ensures Pages(s.live, InUse) == PagesWith(s.live, 0) + SumTo(|cfg|, k => PagesWith(s.live, k))
  {
    hide Balanced, CentralsOk, PcsOk, Homed, Mutex, Tiled;
    PagesByClass(cfg, s.live);
  }

  /** In every run, whenever no operation is under way, the pages in use minus the bytes
      reported for thread caches, central lists and transfer caches are exactly what clients hold. */
  lemma ReportedBytes(cfg: Config, run: seq<State>, j: int)
    requires IsRun(cfg, run) && 0 <= j < |run| && Quiescent(run[j])
    ensures Sized(cfg, run[j])
    ensures var s := run[j];
      Pages(s.live, InUse) * PageSize - ThreadBytes(cfg, s.threads) - CentralBytes(cfg, s) - TransferBytes(cfg, s)
      == SmallBytes(cfg, s) + PagesWith(s.live, 0) * PageSize
  {
    hide SpansOk, Balanced, CentralsOk, PcsOk, Homed, Mutex, Init, Next, PagesWith, ThreadBytes, CentralBytes, TransferBytes, SmallBytes, Pages;
    InvAlways(cfg, run, j);
    QuietBytes(cfg, run[j]);
  }

  lemma QuietBytes(cfg: Config, s: State)
    requires Inv(cfg, s) && Quiescent(s)
    ensures Pages(s.live, InUse) * PageSize - ThreadBytes(cfg, s.threads) - CentralBytes(cfg, s) - TransferBytes(cfg, s)
      == SmallBytes(cfg, s) + PagesWith(s.live, 0) * PageSize
  {
    hide SpansOk, Balanced, CentralsOk, PcsOk, Homed, Mutex, Init, Next, ThreadSum, PagesWith;
    var n := |cfg|;
    LivePages(cfg, s);
    ThreadBytesByClass(cfg, s.threads);
    var pages := (k: int) => PagesWith(s.live, k);
    var bytes := (k: int) => PagesWith(s.live, k) * PageSize;
    var client := (k: int) => if IsClass(cfg, k) then |s.client[k]| * cfg[k].size else 0;
    var lists := (k: int) => ListsTerm(cfg, s.threads, k);
    var central := (k: int) => if IsClass(cfg, k)
                               then s.central[k].counter * cfg[k].size + s.central[k].numSpans * Overhead(cfg[k]) else 0;
    var slots := (k: int) => if IsClass(cfg, k) then (|s.central[k].slots| * cfg[k].batch) * cfg[k].size else 0;
    var cl := (k: int) => client(k) + lists(k);
    var cs := (k: int) => central(k) + slots(k);
    forall k | 1 <= k < n ensures bytes(k) == cl(k) + cs(k) { ClassBytes(cfg, s, k); }
    SumToScale(n, pages, bytes);
    SumToAdd(n, client, lists, cl);
    SumToAdd(n, central, slots, cs);
    SumToAdd(n, cl, cs, bytes);
    SumToSame(n, pages, k => PagesWith(s.live, k));
    SumToSame(n, client, k => if IsClass(cfg, k) then |s.client[k]| * cfg[k].size else 0);
    SumToSame(n, lists, k => ListsTerm(cfg, s.threads, k));
    SumToSame(n, central, k => if IsClass(cfg, k)
                               then s.central[k].counter * cfg[k].size + s.central[k].numSpans * Overhead(cfg[k]) else 0);
    SumToSame(n, slots, k => if IsClass(cfg, k) then (|s.central[k].slots| * cfg[k].batch) * cfg[k].size else 0);
  }

  lemma {:induction false} SumToSame(n: int, f: int -> int, g: int -> int)
    requires forall k :: 1 <= k < n ==> f(k) == g(k)
    ensures SumTo(n, f) == SumTo(n, g)
    decreases n
  {
    if n > 1 { SumToSame(n - 1, f, g); }
  }
}
