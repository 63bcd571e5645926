/** What the invariant means for clients, for the transfer caches and for locking. */
module AllocatorTheorems {
  import opened Spans
  import opened Cells
  import opened Central
  import opened Allocator
  import opened AllocatorProof

  // ---------------------------------------------------------------- exactly one place

  /** The places an object of one class can be in. */
  datatype Place = WithClient | OnList(t: int) | InHand(t: int) | InSlot(j: int) | InSpan(i: SpanId)

  /** How often object `o` of class `k` occurs at a place. */
  ghost function CountAt(s: State, k: int, o: Addr, p: Place): int
    requires 0 <= k < |s.client| && 0 <= k < |s.central|
  {
    match p
    case WithClient => s.client[k][o]
    case OnList(t) => if 0 <= t < |s.threads| && k < |s.threads[t].lists| then multiset(s.threads[t].lists[k])[o] else 0
    case InHand(t) => if 0 <= t < |s.threads| then Hand(s.threads[t].pc, k)[o] else 0
    case InSlot(j) => if 0 <= j < |s.central[k].slots| then multiset(s.central[k].slots[j])[o] else 0
    case InSpan(i) => if i in s.central[k].cuts then multiset(s.central[k].cuts[i].objects)[o] else 0
  }

  lemma {:induction false} SlotTwo(slots: seq<seq<Addr>>, a: int, b: int, o: Addr)
    requires 0 <= a < b < |slots|
    ensures multiset(slots[a])[o] + multiset(slots[b])[o] <= SlotSum(slots)[o]
    decreases |slots|
  {
    var front := slots[..|slots| - 1];
    if b < |slots| - 1 { SlotTwo(front, a, b, o); } else { SlotHas(front, a, o); }
  }

  lemma {:induction false} SlotFind(slots: seq<seq<Addr>>, o: Addr) returns (j: int)
    requires o in SlotSum(slots)
    ensures 0 <= j < |slots| && multiset(slots[j])[o] >= 1
    decreases |slots|
  {
    var last := |slots| - 1;
    if multiset(slots[last])[o] >= 1 { j := last; } else { j := SlotFind(slots[..last], o); }
  }

  lemma SpanTwo(cuts: map<SpanId, Cut>, a: SpanId, b: SpanId, o: Addr)
    requires a in cuts && b in cuts && a != b
    ensures multiset(cuts[a].objects)[o] + multiset(cuts[b].objects)[o] <= Sum(cuts, ObjectsOf)[o]
  {
    SumSplit(cuts, ObjectsOf, a);
    SumHas(cuts - {a}, ObjectsOf, b, o);
  }

  lemma SpanFind(cuts: map<SpanId, Cut>, o: Addr) returns (i: SpanId)
    requires o in Sum(cuts, ObjectsOf)
    ensures i in cuts && multiset(cuts[i].objects)[o] >= 1
  {
    if forall j :: j in cuts ==> o !in ObjectsOf(cuts[j]) { SumNone(cuts, ObjectsOf, o); }
    i :| i in cuts && o in ObjectsOf(cuts[i]);
  }

  lemma {:induction false} ThreadFind(threads: seq<Thread>, k: int, o: Addr) returns (t: int)
    requires o in ThreadSum(threads, k)
    ensures 0 <= t < |threads| && ThreadHeld(threads[t], k)[o] >= 1
    decreases |threads|
  {
    hide ThreadHeld;
    if o in ThreadHeld(threads[0], k) {
      t := 0;
    } else {
      var u := ThreadFind(threads[1..], k, o);
      t := u + 1;
    }
  }

  /** Where an object is in the four parts of the total. */
  function PartOf(p: Place): int {
    match p
    case WithClient => 0
    case OnList(_) => 1
    case InHand(_) => 1
    case InSlot(_) => 2
    case InSpan(_) => 3
  }

  ghost function PartCount(s: State, k: int, o: Addr, part: int): int
    requires 0 <= k < |s.client| && 0 <= k < |s.central|
  {
    if part == 0 then s.client[k][o]
    else if part == 1 then ThreadSum(s.threads, k)[o]
    else if part == 2 then SlotSum(s.central[k].slots)[o]
    else Sum(s.central[k].cuts, ObjectsOf)[o]
  }

  lemma PartsMakeHeld(s: State, k: int, o: Addr)
    requires 0 <= k < |s.client| && 0 <= k < |s.central|
    ensures Held(s, k)[o] == PartCount(s, k, o, 0) + PartCount(s, k, o, 1) + PartCount(s, k, o, 2) + PartCount(s, k, o, 3)
  {
    hide ThreadSum, SlotSum, Sum;
  }

  lemma PlaceInPart(s: State, k: int, o: Addr, p: Place)
    requires 0 <= k < |s.client| && 0 <= k < |s.central|
    ensures 0 <= CountAt(s, k, o, p) <= PartCount(s, k, o, PartOf(p))
  {
    hide ThreadSum, SlotSum, Sum, Hand;
    match p
    case WithClient =>
    case OnList(t) => if 0 <= t < |s.threads| { ThreadSumHas(s.threads, t, k); }
    case InHand(t) => if 0 <= t < |s.threads| { ThreadSumHas(s.threads, t, k); }
    case InSlot(j) => if 0 <= j < |s.central[k].slots| { SlotHas(s.central[k].slots, j, o); }
    case InSpan(i) => if i in s.central[k].cuts { SumHas(s.central[k].cuts, ObjectsOf, i, o); }
  }

  lemma TwoPlacesInPart(s: State, k: int, o: Addr, p: Place, q: Place)
    requires 0 <= k < |s.client| && 0 <= k < |s.central| && p != q && PartOf(p) == PartOf(q)
    requires CountAt(s, k, o, p) >= 1 && CountAt(s, k, o, q) >= 1
    ensures PartCount(s, k, o, PartOf(p)) >= 2
  {
    hide ThreadSum, SlotSum, Sum, Hand;
    if p.InSlot? {
      SlotTwo(s.central[k].slots, if p.j < q.j then p.j else q.j, if p.j < q.j then q.j else p.j, o);
    } else if p.InSpan? {
      SpanTwo(s.central[k].cuts, p.i, q.i, o);
    } else {
      ThreadTwo(s, k, o, p, q);
    }
  }

  lemma ThreadTwo(s: State, k: int, o: Addr, p: Place, q: Place)
    requires 0 <= k < |s.client| && 0 <= k < |s.central| && p != q && PartOf(p) == PartOf(q) == 1
    requires CountAt(s, k, o, p) >= 1 && CountAt(s, k, o, q) >= 1
    ensures ThreadSum(s.threads, k)[o] >= 2
  {
    hide ThreadSum, Hand;
    var a, b := p.t, q.t;
    if a == b {
      ThreadSumHas(s.threads, a, k);
      assert ThreadHeld(s.threads[a], k)[o] >= 2;
    } else {
      ThreadSumTwo(s.threads, if a < b then a else b, if a < b then b else a, k);
    }
  }

  /** In every state of every run each cell of a live sized span is in exactly one
      place, once; and the places hold nothing that is not such a cell. */
  lemma ExactlyOnePlace(cfg: Config, run: seq<State>, j: int, k: int, o: Addr)
    requires IsRun(cfg, run) && 0 <= j < |run| && IsClass(cfg, k)
    ensures |run[j].client| == |run[j].central| == |cfg| && ConfigOk(cfg)
    ensures (exists i :: SpanOk(cfg[k], run[j].live, k, i) && o in CellsOf(cfg[k], run[j].live[i].start))
       <==> (exists p :: CountAt(run[j], k, o, p) >= 1)
    ensures forall p, q :: CountAt(run[j], k, o, p) >= 1 && CountAt(run[j], k, o, q) >= 1 ==> p == q
    ensures forall p :: CountAt(run[j], k, o, p) <= 1
  {
    hide SpansOk, Balanced, CentralsOk, PcsOk, Homed, Mutex, Held, CountAt, PartCount, CellsOf, Init, Next, Full, SpanOk;
    InvAlways(cfg, run, j);
    var s := run[j];
    InvOnce(cfg, s, k, o);
    PartsMakeHeld(s, k, o);
    PartsPositive(s, k, o);
    forall p ensures CountAt(s, k, o, p) <= 1 && (CountAt(s, k, o, p) >= 1 ==> Held(s, k)[o] == 1) {
      PlaceInPart(s, k, o, p);
      assert PartOf(p) == 0 || PartOf(p) == 1 || PartOf(p) == 2 || PartOf(p) == 3;
    }
    forall p, q | CountAt(s, k, o, p) >= 1 && CountAt(s, k, o, q) >= 1 ensures p == q {
      PlaceInPart(s, k, o, p);
      PlaceInPart(s, k, o, q);
      if p != q && PartOf(p) == PartOf(q) { TwoPlacesInPart(s, k, o, p, q); }
    }
    if Held(s, k)[o] >= 1 { var p := FindPlace(s, k, o); assert CountAt(s, k, o, p) >= 1; }
    HeldIffCell(cfg, s, k, o);
  }

  lemma PartsPositive(s: State, k: int, o: Addr)
    requires 0 <= k < |s.client| && 0 <= k < |s.central|
    ensures forall part :: PartCount(s, k, o, part) >= 0
  {
  }

  lemma FindPlace(s: State, k: int, o: Addr) returns (p: Place)
    requires 0 <= k < |s.client| && 0 <= k < |s.central| && Held(s, k)[o] >= 1
    ensures CountAt(s, k, o, p) >= 1
  {
    hide ThreadSum, SlotSum, Sum, Held, Hand;
    PartsMakeHeld(s, k, o);
    if s.client[k][o] >= 1 {
      p := WithClient;
    } else if ThreadSum(s.threads, k)[o] >= 1 {
      var t := ThreadFind(s.threads, k, o);
      p := if Hand(s.threads[t].pc, k)[o] >= 1 then InHand(t) else OnList(t);
    } else if SlotSum(s.central[k].slots)[o] >= 1 {
      var j := SlotFind(s.central[k].slots, o);
      p := InSlot(j);
    } else {
      var i := SpanFind(s.central[k].cuts, o);
      p := InSpan(i);
    }
  }

  lemma HeldIffCell(cfg: Config, s: State, k: int, o: Addr)
    requires Inv(cfg, s) && IsClass(cfg, k)
    ensures Held(s, k)[o] >= 1 <==> exists i :: SpanOk(cfg[k], s.live, k, i) && o in CellsOf(cfg[k], s.live[i].start)
  {
    hide Balanced, CentralsOk, PcsOk, Homed, Mutex, Held, CellsOf, Tiled;
    InvBalance(cfg, s, k);
    if Held(s, k)[o] >= 1 { FullHome(cfg, s.live, k, o); }
    if i :| SpanOk(cfg[k], s.live, k, i) && o in CellsOf(cfg[k], s.live[i].start) {
      SumHas(s.live, CellsIn(cfg, k), i, o);
      assert o in multiset(CellsOf(cfg[k], s.live[i].start));
    }
  }

  // ---------------------------------------------------------------- live blocks do not overlap

  /** A block a client holds: an object of a size class, or a large span. */
  datatype Block = Small(k: int, o: Addr) | Large(i: SpanId)

  ghost predicate LiveBlock(cfg: Config, s: State, b: Block)
    requires |s.client| == |cfg|
  {
    match b
    case Small(k, o) => IsClass(cfg, k) && o in s.client[k]
    case Large(i) => i in s.live && s.live[i].sizeclass == 0
  }

  function FirstByte(cfg: Config, s: State, b: Block): Addr
    requires b.Large? ==> b.i in s.live
  {
    match b
    case Small(_, o) => o
    case Large(i) => s.live[i].start * PageSize
  }

  function EndByte(cfg: Config, s: State, b: Block): Addr
    requires b.Large? ==> b.i in s.live
    requires b.Small? ==> IsClass(cfg, b.k)
  {
    match b
    case Small(k, o) => o + cfg[k].size
    case Large(i) => s.live[i].End() * PageSize
  }

  /** The span a live block lies in. */
  lemma BlockHome(cfg: Config, s: State, b: Block) returns (i: SpanId)
    requires Inv(cfg, s) && LiveBlock(cfg, s, b)
    ensures i in s.live && (b.Large? ==> i == b.i)
    ensures s.live[i].start * PageSize <= FirstByte(cfg, s, b) && EndByte(cfg, s, b) <= s.live[i].End() * PageSize
    ensures b.Small? ==> SpanOk(cfg[b.k], s.live, b.k, i) && b.o in CellsOf(cfg[b.k], s.live[i].start)
    ensures b.Large? ==> s.live[i].sizeclass == 0
  {
    hide SpansOk, Balanced, CentralsOk, PcsOk, Homed, Mutex, Held, CellsOf;
    match b
    case Large(id) => i := id;
    case Small(k, o) =>
      ClientInHeld(s, k, o);
      HeldIffCell(cfg, s, k, o);
      i :| SpanOk(cfg[k], s.live, k, i) && o in CellsOf(cfg[k], s.live[i].start);
      CellsFacts(cfg[k], s.live[i].start);
  }

  lemma CellsApart(c: Class, start: PageId, a: Addr, b: Addr)
    requires c.Ok() && a in CellsOf(c, start) && b in CellsOf(c, start) && a != b
    ensures a + c.size <= b || b + c.size <= a
  {
    CellsFacts(c, start);
    var q := CellsOf(c, start);
    var x :| 0 <= x < |q| && q[x] == a;
    var y :| 0 <= y < |q| && q[y] == b;
    assert x < y || y < x;
  }

  /** In every run, two different blocks that clients hold share no byte, and
      no client holds a block twice. */
  lemma BlocksDisjoint(cfg: Config, run: seq<State>, j: int, a: Block, b: Block)
    requires IsRun(cfg, run) && 0 <= j < |run| && |run[j].client| == |cfg|
    requires LiveBlock(cfg, run[j], a) && LiveBlock(cfg, run[j], b)
    ensures a.Small? ==> run[j].client[a.k][a.o] == 1
    ensures a != b ==> EndByte(cfg, run[j], a) <= FirstByte(cfg, run[j], b) || EndByte(cfg, run[j], b) <= FirstByte(cfg, run[j], a)
  {
    hide Balanced, CentralsOk, PcsOk, Homed, Mutex, Held, CellsOf, Init, Next, LiveBlock;
    InvAlways(cfg, run, j);
    var s := run[j];
    var ia := BlockHome(cfg, s, a);
    var ib := BlockHome(cfg, s, b);
    LiveSmall(cfg, s, a);
    LiveSmall(cfg, s, b);
    if a.Small? { InvOnce(cfg, s, a.k, a.o); ClientCount(s, a.k, a.o); }
    if a != b {
      if ia != ib {
        assert Apart(s.live[ia], s.live[ib]);
      } else if a.Small? && b.Small? {
        CellsApart(cfg[a.k], s.live[ia].start, a.o, b.o);
      }
    }
  }

  lemma LiveSmall(cfg: Config, s: State, b: Block)
    requires |s.client| == |cfg| && LiveBlock(cfg, s, b)
    ensures b.Small? ==> IsClass(cfg, b.k) && b.o in s.client[b.k]
  {
  }

  lemma ClientCount(s: State, k: int, o: Addr)
    requires 0 <= k < |s.client| && 0 <= k < |s.central|
    ensures s.client[k][o] <= Held(s, k)[o]
  {
    hide Kept, ThreadSum;
  }

  // ---------------------------------------------------------------- central lists between lock periods

  /** Reference counts, lists and counters agree in every state of every run. */
  lemma CentralAlways(cfg: Config, run: seq<State>, j: int, k: int)
    requires IsRun(cfg, run) && 0 <= j < |run| && IsClass(cfg, k)
    ensures |run[j].central| == |cfg| && cfg[k].Ok() && CentralOk(cfg[k], run[j].live, k, run[j].central[k])
    ensures var c := run[j].central[k];
      forall i :: i in c.cuts ==>
        && c.cuts[i].refcount >= 1
        && c.cuts[i].refcount + |c.cuts[i].objects| == (cfg[k].pages * PageSize) / cfg[k].size
  {
    hide SpansOk, Balanced, CentralsOk, PcsOk, Homed, Mutex, Init, Next, CellsOf, ListsOk, CountsOk, SlotsOk;
    InvAlways(cfg, run, j);
    var s := run[j];
    InvCentral(cfg, s, k);
    var c := s.central[k];
    forall i | i in c.cuts ensures c.cuts[i].refcount + |c.cuts[i].objects| == (cfg[k].pages * PageSize) / cfg[k].size {
      assert CutOk(cfg[k], s.live, k, i, c.cuts[i]);
      CellsCount(cfg[k], s.live[i].start);
    }
  }
}
