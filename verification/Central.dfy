/** One size class of the central cache: spans cut into objects, and the
    transfer cache of whole batches.  Each function is what runs while the
    lock of the class is held. */
module Central {
  import opened Spans
  import opened Cells

  /** The object list and reference count of one span. */
  datatype Cut = Cut(objects: seq<Addr>, refcount: int)

  datatype CentralList = CentralList(
    cuts: map<SpanId, Cut>,        // the spans on the two lists
    nonempty: seq<SpanId>,
    empty: seq<SpanId>,
    numSpans: int,
    counter: int,
    slots: seq<seq<Addr>>,         // the used slots of the transfer cache
    cacheSize: int,
    maxCache: int)

  function ObjectsOf(c: Cut): multiset<Addr> { multiset(c.objects) }

  ghost function SlotSum(slots: seq<seq<Addr>>): multiset<Addr> {
    if slots == [] then multiset{} else SlotSum(slots[..|slots| - 1]) + multiset(slots[|slots| - 1])
  }

  /** All objects this class of the central cache holds. */
  ghost function Kept(c: CentralList): multiset<Addr> {
    Sum(c.cuts, ObjectsOf) + SlotSum(c.slots)
  }

  /** A span of the class is on the list that tells whether it has free objects. */
  ghost predicate ListsOk(c: CentralList) {
    && Distinct(c.nonempty) && Distinct(c.empty)
    && (forall i :: i in c.nonempty <==> i in c.cuts && c.cuts[i].objects != [])
    && (forall i :: i in c.empty <==> i in c.cuts && c.cuts[i].objects == [])
  }

  ghost predicate SpanOk(k: Class, t: Table, cl: int, i: SpanId)
    requires k.Ok()
  {
    i in t && t[i].sizeclass == cl && t[i].location == InUse && t[i].length == k.pages
  }

  /** Free objects are cells of the span; together with the reference count they make up the span. */
  ghost predicate CutOk(k: Class, t: Table, cl: int, i: SpanId, cut: Cut)
    requires k.Ok()
  {
    && SpanOk(k, t, cl, i)
    && (forall o :: o in cut.objects ==> o in CellsOf(k, t[i].start))
    && cut.refcount + |cut.objects| == |CellsOf(k, t[i].start)|
  }

  ghost predicate CutsOk(k: Class, t: Table, cl: int, cuts: map<SpanId, Cut>)
    requires k.Ok()
  {
    forall i :: i in cuts ==> CutOk(k, t, cl, i, cuts[i])
  }

  /** Between lock periods every listed span has an object out. */
  ghost predicate AllOut(cuts: map<SpanId, Cut>) {
    forall i :: i in cuts ==> cuts[i].refcount >= 1
  }

  ghost predicate CountsOk(c: CentralList) {
    c.numSpans == |c.nonempty| + |c.empty| && c.counter == |Sum(c.cuts, ObjectsOf)|
  }

  ghost predicate SlotsOk(k: Class, c: CentralList) {
    && |c.slots| <= c.cacheSize <= c.maxCache
    && (forall j :: 0 <= j < |c.slots| ==> |c.slots[j]| == k.batch)
  }

  /** What holds while the lock is held, between the parts of an operation. */
  ghost predicate Sound(k: Class, t: Table, cl: int, c: CentralList)
    requires k.Ok()
  {
    CutsOk(k, t, cl, c.cuts) && ListsOk(c) && CountsOk(c) && SlotsOk(k, c)
  }

  /** What holds whenever the lock is free. */
  ghost predicate CentralOk(k: Class, t: Table, cl: int, c: CentralList)
    requires k.Ok()
  {
    Sound(k, t, cl, c) && AllOut(c.cuts)
  }

  lemma {:induction false} SlotHas(slots: seq<seq<Addr>>, j: int, o: Addr)
    requires 0 <= j < |slots|
    ensures multiset(slots[j])[o] <= SlotSum(slots)[o]
    decreases |slots|
  {
    if j < |slots| - 1 { SlotHas(slots[..|slots| - 1], j, o); }
  }

  // ---------------------------------------------------------------- taking objects

  predicate Linked(c: CentralList) {
    forall i :: i in c.nonempty ==> i in c.cuts
  }

  /** `c'` is `c` after the objects of `chain` were taken out of its spans. */
  ghost predicate Fetched(c: CentralList, c': CentralList, chain: seq<Addr>) {
    && Kept(c') + multiset(chain) == Kept(c)
    && c'.cuts.Keys == c.cuts.Keys && c'.slots == c.slots && c'.cacheSize == c.cacheSize && c'.maxCache == c.maxCache
    && (forall i :: i in c.cuts ==> c'.cuts[i].refcount >= c.cuts[i].refcount)
  }

  lemma FetchedTrans(c: CentralList, c1: CentralList, c2: CentralList, a: seq<Addr>, b: seq<Addr>)
    requires Fetched(c, c1, a) && Fetched(c1, c2, b)
    ensures Fetched(c, c2, b + a)
  {
    hide Kept;
    assert multiset(b + a) == multiset(b) + multiset(a);
    assert Kept(c2) + (multiset(b) + multiset(a)) == Kept(c1) + multiset(a);
  }

  /** Takes up to `n` objects from the first non-empty span. */
  function FetchFromOneSpans(c: CentralList, n: int): (r: (seq<Addr>, CentralList))
    requires n >= 1 && Linked(c)
    ensures Linked(r.1) && |r.0| <= n
  {
    if c.nonempty == [] then ([], c) else
      assert c.nonempty[0] in c.nonempty;
      var i := c.nonempty[0];
      var cut := c.cuts[i];
      var take := if n < |cut.objects| then n else |cut.objects|;
      var rest := cut.objects[take..];
      var c1 := c.(cuts := c.cuts[i := Cut(rest, cut.refcount + take)], counter := c.counter - take);
      (cut.objects[..take], if rest == [] then c1.(nonempty := c.nonempty[1..], empty := [i] + c.empty) else c1)
  }

  /** What a fetch of `n` objects takes from the first span. */
  function Take(all: seq<Addr>, n: int): int { if n < |all| then n else |all| }

  lemma FetchShape(c: CentralList, n: int)
    requires ListsOk(c) && Linked(c) && c.nonempty != [] && n >= 1
    ensures c.nonempty[0] in c.cuts
    ensures var (q, c') := FetchFromOneSpans(c, n);
      var i, all := c.nonempty[0], c.cuts[c.nonempty[0]].objects;
      && all != [] && q == all[..Take(all, n)] && q != [] && c'.slots == c.slots
      && c'.cuts == c.cuts[i := Cut(all[Take(all, n)..], c.cuts[i].refcount + |q|)]
      && c'.nonempty == (if |q| == |all| then c.nonempty[1..] else c.nonempty)
      && c'.empty == (if |q| == |all| then [i] + c.empty else c.empty)
      && c'.counter == c.counter - |q| && c'.numSpans == c.numSpans && c'.cacheSize == c.cacheSize && c'.maxCache == c.maxCache
  {
    assert c.nonempty[0] in c.nonempty;
  }

  lemma FetchOneLists(c: CentralList, n: int)
    requires n >= 1 && ListsOk(c) && Linked(c) && c.nonempty != []
    ensures var (chain, c') := FetchFromOneSpans(c, n);
      ListsOk(c') && |c'.nonempty| + |c'.empty| == |c.nonempty| + |c.empty| && 1 <= |chain| <= n
  {
    hide FetchFromOneSpans, ListsOk, Linked;
    FetchShape(c, n);
    var (chain, c') := FetchFromOneSpans(c, n);
    if c'.cuts[c.nonempty[0]].objects == [] {
      FirstEmpties(c, c');
    } else {
      FirstStays(c, c');
    }
  }

  lemma FirstStays(c: CentralList, c': CentralList)
    requires ListsOk(c) && c.nonempty != [] && c.nonempty[0] in c.cuts && c'.cuts.Keys == c.cuts.Keys
    requires c'.cuts[c.nonempty[0]].objects != [] && c'.nonempty == c.nonempty && c'.empty == c.empty
    requires forall j :: j in c.cuts && j != c.nonempty[0] ==> c'.cuts[j] == c.cuts[j]
    ensures ListsOk(c')
  {
    assert c.nonempty[0] in c.nonempty;
  }

  lemma FirstEmpties(c: CentralList, c': CentralList)
    requires ListsOk(c) && c.nonempty != [] && c.nonempty[0] in c.cuts && c'.cuts.Keys == c.cuts.Keys
    requires c'.cuts[c.nonempty[0]].objects == [] && c'.nonempty == c.nonempty[1..] && c'.empty == [c.nonempty[0]] + c.empty
    requires forall j :: j in c.cuts && j != c.nonempty[0] ==> c'.cuts[j] == c.cuts[j]
    ensures ListsOk(c')
  {
    var i := c.nonempty[0];
    assert c.nonempty == [i] + c'.nonempty;
    assert i in c.nonempty && i !in c'.nonempty && i !in c.empty;
    assert forall j :: j in c.nonempty <==> j == i || j in c'.nonempty;
    assert forall j :: j in c'.empty <==> j == i || j in c.empty;
  }

  lemma FetchOneSum(c: CentralList, n: int)
    requires n >= 1 && ListsOk(c) && Linked(c) && c.nonempty != []
    ensures var (chain, c') := FetchFromOneSpans(c, n);
      Sum(c'.cuts, ObjectsOf) + multiset(chain) == Sum(c.cuts, ObjectsOf)
  {
    hide ListsOk, FetchFromOneSpans, Sum, Linked;
    FetchShape(c, n);
    var i := c.nonempty[0];
    var (chain, c') := FetchFromOneSpans(c, n);
    SumAdd(c.cuts, ObjectsOf, i, c'.cuts[i]);
    assert c.cuts[i].objects == chain + c'.cuts[i].objects;
    Cancel(Sum(c'.cuts, ObjectsOf), Sum(c.cuts, ObjectsOf), multiset(chain), ObjectsOf(c'.cuts[i]));
  }

  lemma FetchOneCuts(k: Class, t: Table, cl: int, c: CentralList, n: int)
    requires k.Ok() && n >= 1 && CutsOk(k, t, cl, c.cuts) && ListsOk(c) && Linked(c) && c.nonempty != []
    ensures var (chain, c') := FetchFromOneSpans(c, n);
      && CutsOk(k, t, cl, c'.cuts)
      && c'.cuts.Keys == c.cuts.Keys
      && c.nonempty[0] in c'.cuts && c'.cuts[c.nonempty[0]].refcount == c.cuts[c.nonempty[0]].refcount + |chain|
      && (forall i :: i in c.cuts && i != c.nonempty[0] ==> c'.cuts[i] == c.cuts[i])
  {
    hide ListsOk, CellsOf, SpanOk, FetchFromOneSpans, Linked;
    FetchShape(c, n);
    var i := c.nonempty[0];
    var (chain, c') := FetchFromOneSpans(c, n);
    assert c.cuts[i].objects == chain + c'.cuts[i].objects;
    assert CutOk(k, t, cl, i, c.cuts[i]);
    assert forall o :: o in c'.cuts[i].objects ==> o in c.cuts[i].objects;
  }

  lemma FetchOneKeeps(k: Class, t: Table, cl: int, c: CentralList, n: int)
    requires k.Ok() && n >= 1 && Sound(k, t, cl, c) && c.nonempty != [] && Linked(c)
    ensures var (chain, c') := FetchFromOneSpans(c, n);
      && Sound(k, t, cl, c') && 1 <= |chain| <= n && Fetched(c, c', chain)
      && c.nonempty[0] in c.cuts && c'.cuts[c.nonempty[0]].refcount > c.cuts[c.nonempty[0]].refcount
  {
    hide CellsOf, CutsOk, Sum, SlotSum, ListsOk, Linked, FetchFromOneSpans;
    FetchShape(c, n);
    FetchOneLists(c, n);
    FetchOneSum(c, n);
    FetchOneCuts(k, t, cl, c, n);
  }

  /** Takes objects from span after span until it has `n` or the lists run dry. */
  function FetchMany(c: CentralList, n: int): (r: (seq<Addr>, CentralList))
    requires n >= 0 && Linked(c)
    ensures |r.0| <= n
    decreases n
  {
    if n == 0 then ([], c) else
      var (first, c1) := FetchFromOneSpans(c, n);
      if first == [] then (first, c1) else
        var (more, c2) := FetchMany(c1, n - |first|);
        (more + first, c2)
  }

  lemma {:induction false} FetchManyKeeps(k: Class, t: Table, cl: int, c: CentralList, n: int)
    requires k.Ok() && n >= 0 && Sound(k, t, cl, c) && Linked(c)
    ensures var (chain, c') := FetchMany(c, n);
      && Sound(k, t, cl, c') && Fetched(c, c', chain)
      && (chain == [] <==> n == 0 || c.nonempty == [])
      && (|chain| < n ==> c'.nonempty == [])
      && (n > 0 && c.nonempty != [] ==>
            c.nonempty[0] in c.cuts && c.nonempty[0] in c'.cuts && c'.cuts[c.nonempty[0]].refcount > c.cuts[c.nonempty[0]].refcount)
    decreases n
  {
    hide Kept, Sound, FetchFromOneSpans, Linked;
    FetchedNone(c);
    if n > 0 {
      var (first, c1) := FetchFromOneSpans(c, n);
      if c.nonempty == [] {
        FetchOneNone(c, n);
      } else {
        FetchOneKeeps(k, t, cl, c, n);
        FetchManyKeeps(k, t, cl, c1, n - |first|);
        var (more, c2) := FetchMany(c1, n - |first|);
        FetchedTrans(c, c1, c2, first, more);
      }
    }
  }

  lemma FetchOneNone(c: CentralList, n: int)
    requires n >= 1 && Linked(c)
    ensures c.nonempty == [] ==> FetchFromOneSpans(c, n) == ([], c)
  {
  }

  lemma FetchedNone(c: CentralList)
    ensures Fetched(c, c, [])
  {
    hide Kept;
  }

  // ---------------------------------------------------------------- giving objects back

  /** The span a page belongs to, as its page-map entry tells. */
  ghost function Owner(t: Table, p: PageId): Option<SpanId> {
    if exists i :: i in t && t[i].Covers(p) then
      var i :| i in t && t[i].Covers(p); Some(i)
    else None
  }

  lemma OwnerIs(t: Table, i: SpanId, p: PageId)
    requires Tiled(t) && i in t && t[i].Covers(p)
    ensures Owner(t, p) == Some(i)
  {
    forall j | j in t && t[j].Covers(p) ensures j == i {
      assert j != i ==> Apart(t[i], t[j]);
    }
  }

  /** Puts object `o` back into its span `i`.  If that was the last object out, the
      span leaves the lists; its chain of objects is the second result. */
  function ReleaseToSpans(k: Class, c: CentralList, o: Addr, i: SpanId): (r: (CentralList, Option<seq<Addr>>))
    requires k.Ok() && i in c.cuts
  {
    var cut := c.cuts[i];
    var c1 := if cut.objects == [] then c.(empty := Unlink(c.empty, i), nonempty := [i] + c.nonempty) else c;
    var back := [o] + cut.objects;
    if cut.refcount - 1 == 0 then
      (c1.(cuts := c.cuts - {i}, nonempty := Unlink(c1.nonempty, i), numSpans := c.numSpans - 1,
           counter := c.counter + 1 - (k.pages * PageSize) / k.size),
       Some(back))
    else
      (c1.(cuts := c.cuts[i := Cut(back, cut.refcount - 1)], counter := c.counter + 1), None)
  }

  lemma ReleaseOneLists(k: Class, c: CentralList, o: Addr, i: SpanId)
    requires k.Ok() && i in c.cuts && ListsOk(c)
    ensures var (c', gone) := ReleaseToSpans(k, c, o, i);
      && ListsOk(c')
      && |c'.nonempty| + |c'.empty| == |c.nonempty| + |c.empty| - (if gone.Some? then 1 else 0)
  {
    var (c', gone) := ReleaseToSpans(k, c, o, i);
    UnlinkFacts(c.empty, i);
    var front := if c.cuts[i].objects == [] then [i] + c.nonempty else c.nonempty;
    assert Distinct(front) && i in front;
    UnlinkFacts(front, i);
    assert forall j :: j in front <==> j == i || j in c.nonempty;
  }

  /** As many different cells as there are make all the cells. */
  lemma AllCells(k: Class, start: PageId, q: seq<Addr>)
    requires k.Ok() && |q| == |CellsOf(k, start)|
    requires forall o :: o in q ==> o in CellsOf(k, start)
    requires forall o :: multiset(q)[o] <= 1
    ensures multiset(q) == multiset(CellsOf(k, start))
  {
    var all := multiset(CellsOf(k, start));
    forall o ensures multiset(q)[o] <= all[o] {
      CellOnce(k, start, o);
      assert o in multiset(q) ==> o in q;
    }
    assert multiset(q) <= all;
    assert all == multiset(q) + (all - multiset(q));
    assert |all - multiset(q)| == 0;
  }

  lemma ReleaseOneSum(k: Class, c: CentralList, o: Addr, i: SpanId)
    requires k.Ok() && i in c.cuts
    ensures var (c', gone) := ReleaseToSpans(k, c, o, i);
      && (gone.None? ==> Sum(c'.cuts, ObjectsOf) == Sum(c.cuts, ObjectsOf) + multiset{o})
      && (gone.Some? ==> Sum(c'.cuts, ObjectsOf) + multiset(gone.value) == Sum(c.cuts, ObjectsOf) + multiset{o})
  {
    hide Sum, Unlink;
    var (c', gone) := ReleaseToSpans(k, c, o, i);
    var back := [o] + c.cuts[i].objects;
    assert multiset(back) == multiset{o} + ObjectsOf(c.cuts[i]);
    SumSplit(c.cuts, ObjectsOf, i);
    if gone.None? {
      SumAdd(c.cuts, ObjectsOf, i, c'.cuts[i]);
      Cancel(Sum(c.cuts, ObjectsOf), Sum(c'.cuts, ObjectsOf), multiset{o}, ObjectsOf(c.cuts[i]));
    }
  }

  lemma ReleaseOneCuts(k: Class, t: Table, cl: int, c: CentralList, o: Addr, i: SpanId)
    requires k.Ok() && i in c.cuts && CutsOk(k, t, cl, c.cuts) && AllOut(c.cuts)
    requires i in t && o in CellsOf(k, t[i].start)
    ensures var (c', gone) := ReleaseToSpans(k, c, o, i);
      && CutsOk(k, t, cl, c'.cuts) && AllOut(c'.cuts)
      && c'.cuts.Keys == (if gone.Some? then c.cuts.Keys - {i} else c.cuts.Keys)
      && (gone.Some? ==> |gone.value| == |CellsOf(k, t[i].start)|)
  {
    hide CellsOf, Unlink, SpanOk;
    assert CutOk(k, t, cl, i, c.cuts[i]);
    var (c', gone) := ReleaseToSpans(k, c, o, i);
    var back := [o] + c.cuts[i].objects;
    assert forall x :: x in back ==> x == o || x in c.cuts[i].objects;
  }

  lemma ReleaseOneKeeps(k: Class, t: Table, cl: int, c: CentralList, o: Addr, i: SpanId)
    requires k.Ok() && i in c.cuts && CentralOk(k, t, cl, c)
    requires i in t && o in CellsOf(k, t[i].start)
    requires forall x :: (Kept(c) + multiset{o})[x] <= 1
    ensures var (c', gone) := ReleaseToSpans(k, c, o, i);
      && CentralOk(k, t, cl, c')
      && c'.slots == c.slots && c'.cacheSize == c.cacheSize && c'.maxCache == c.maxCache
      && (gone.None? ==> Kept(c') == Kept(c) + multiset{o} && c'.cuts.Keys == c.cuts.Keys)
      && (gone.Some? ==> Kept(c') + multiset(gone.value) == Kept(c) + multiset{o} && c'.cuts.Keys == c.cuts.Keys - {i})
      && (gone.Some? ==> multiset(gone.value) == multiset(CellsOf(k, t[i].start)))
  {
    hide CutsOk, AllOut, ListsOk, CellsOf, Sum, SlotSum, ReleaseToSpans;
    var (c', gone) := ReleaseToSpans(k, c, o, i);
    ReleaseOneShape(k, c, o, i);
    ReleaseOneLists(k, c, o, i);
    ReleaseOneCuts(k, t, cl, c, o, i);
    if gone.Some? {
      BackIsCells(k, t, cl, c, o, i);
      CellsCount(k, t[i].start);
    }
    ReleaseOneCounts(k, c, o, i);
  }

  lemma ReleaseOneShape(k: Class, c: CentralList, o: Addr, i: SpanId)
    requires k.Ok() && i in c.cuts
    ensures var (c', gone) := ReleaseToSpans(k, c, o, i);
      && c'.slots == c.slots && c'.cacheSize == c.cacheSize && c'.maxCache == c.maxCache
      && c'.numSpans == c.numSpans - (if gone.Some? then 1 else 0)
      && c'.counter == c.counter + 1 - (if gone.Some? then (k.pages * PageSize) / k.size else 0)
      && (gone.Some? ==> gone.value == [o] + c.cuts[i].objects && c.cuts[i].refcount == 1)
  {
  }

  lemma ReleaseOneCounts(k: Class, c: CentralList, o: Addr, i: SpanId)
    requires k.Ok() && i in c.cuts
    ensures var (c', gone) := ReleaseToSpans(k, c, o, i);
      && |Sum(c'.cuts, ObjectsOf)| + (if gone.Some? then |gone.value| else 0) == |Sum(c.cuts, ObjectsOf)| + 1
      && (gone.None? ==> Kept(c') == Kept(c) + multiset{o})
      && (gone.Some? ==> Kept(c') + multiset(gone.value) == Kept(c) + multiset{o})
  {
    hide Sum, SlotSum, ReleaseToSpans;
    ReleaseOneSum(k, c, o, i);
    ReleaseOneShape(k, c, o, i);
    var (c', gone) := ReleaseToSpans(k, c, o, i);
    var a, b, s := Sum(c'.cuts, ObjectsOf), Sum(c.cuts, ObjectsOf), SlotSum(c.slots);
    if gone.Some? {
      assert |a + multiset(gone.value)| == |b + multiset{o}|;
      assert (a + s) + multiset(gone.value) == (a + multiset(gone.value)) + s;
    }
    assert (b + s) + multiset{o} == (b + multiset{o}) + s;
  }

  lemma CellsCount(k: Class, start: PageId)
    requires k.Ok()
    ensures 1 <= |CellsOf(k, start)| == (k.pages * PageSize) / k.size
  {
    CellsFacts(k, start);
  }

  lemma BackIsCells(k: Class, t: Table, cl: int, c: CentralList, o: Addr, i: SpanId)
    requires k.Ok() && i in c.cuts && CutsOk(k, t, cl, c.cuts)
    requires i in t && o in CellsOf(k, t[i].start) && c.cuts[i].refcount == 1
    requires forall x :: (Kept(c) + multiset{o})[x] <= 1
    ensures var back := [o] + c.cuts[i].objects; multiset(back) == multiset(CellsOf(k, t[i].start))
  {
    hide CellsOf, SpanOk;
    assert CutOk(k, t, cl, i, c.cuts[i]);
    var back := [o] + c.cuts[i].objects;
    SumSplit(c.cuts, ObjectsOf, i);
    hide Sum, CutsOk;
    assert multiset(back) == multiset{o} + ObjectsOf(c.cuts[i]);
    assert forall x :: multiset(back)[x] <= (Kept(c) + multiset{o})[x];
    AllCells(k, t[i].start, back);
  }

  /** Outcome of releasing a chain: it stops early when a span has to go back to the page heap. */
  datatype Released = Released(list: CentralList, rest: seq<Addr>, freed: Option<(SpanId, seq<Addr>)>)

  ghost function ReleaseListToSpans(k: Class, t: Table, c: CentralList, chain: seq<Addr>): (r: Released)
    requires k.Ok()
    decreases |chain|
  {
    if chain == [] then Released(c, [], None) else
      var i := Owner(t, PageOf(chain[0]));
      if i.None? || i.value !in c.cuts then Released(c, chain, None) else
        var (c', gone) := ReleaseToSpans(k, c, chain[0], i.value);
        if gone.Some? then Released(c', chain[1..], Some((i.value, gone.value)))
        else ReleaseListToSpans(k, t, c', chain[1..])
  }

  /** Object `o` is a cell of a span on the lists of `c`. */
  ghost predicate HomeIn(k: Class, t: Table, c: CentralList, o: Addr)
    requires k.Ok()
  {
    exists i :: i in c.cuts && i in t && o in CellsOf(k, t[i].start)
  }

  ghost predicate Once(m: multiset<Addr>) {
    forall x :: m[x] <= 1
  }

  lemma OwnerOfCell(k: Class, t: Table, cl: int, i: SpanId, o: Addr)
    requires k.Ok() && Tiled(t) && SpanOk(k, t, cl, i) && o in CellsOf(k, t[i].start)
    ensures Owner(t, PageOf(o)) == Some(i)
  {
    CellsFacts(k, t[i].start);
    OwnerIs(t, i, PageOf(o));
  }

  lemma HomeOwner(k: Class, t: Table, cl: int, c: CentralList, o: Addr)
    requires k.Ok() && Tiled(t) && CutsOk(k, t, cl, c.cuts) && HomeIn(k, t, c, o)
    ensures Owner(t, PageOf(o)).Some?
    ensures var i := Owner(t, PageOf(o)).value;
      i in c.cuts && i in t && o in CellsOf(k, t[i].start) && SpanOk(k, t, cl, i)
  {
    hide CellsOf, Tiled;
    var i :| i in c.cuts && i in t && o in CellsOf(k, t[i].start);
    assert CutOk(k, t, cl, i, c.cuts[i]);
    OwnerOfCell(k, t, cl, i, o);
  }

  ghost predicate ReleaseOk(k: Class, t: Table, cl: int, c: CentralList, chain: seq<Addr>, r: Released)
    requires k.Ok()
  {
    && CentralOk(k, t, cl, r.list)
    && r.list.slots == c.slots && r.list.cacheSize == c.cacheSize && r.list.maxCache == c.maxCache
    && (r.freed.None? ==>
          r.rest == [] && Kept(r.list) == Kept(c) + multiset(chain) && r.list.cuts.Keys == c.cuts.Keys)
    && (r.freed.Some? ==>
          var (i, gone) := r.freed.value;
          && i in c.cuts && SpanOk(k, t, cl, i) && r.list.cuts.Keys == c.cuts.Keys - {i}
          && multiset(gone) == multiset(CellsOf(k, t[i].start))
          && Kept(r.list) + multiset(gone) + multiset(r.rest) == Kept(c) + multiset(chain))
  }

  lemma {:induction false} ReleaseListKeeps(k: Class, t: Table, cl: int, c: CentralList, chain: seq<Addr>)
    requires k.Ok() && Tiled(t) && CentralOk(k, t, cl, c)
    requires forall o :: o in chain ==> HomeIn(k, t, c, o)
    requires Once(Kept(c) + multiset(chain))
    ensures ReleaseOk(k, t, cl, c, chain, ReleaseListToSpans(k, t, c, chain))
    decreases |chain|
  {
    hide CellsOf, Kept, CutsOk, ListsOk, CountsOk, SlotsOk, AllOut, Tiled, ReleaseToSpans, Owner;
    if chain != [] {
      var o, tail := chain[0], chain[1..];
      assert chain == [o] + tail;
      assert multiset(chain) == multiset{o} + multiset(tail);
      assert o in chain && forall x :: x in tail ==> x in chain;
      HomeOwner(k, t, cl, c, o);
      var i := Owner(t, PageOf(o)).value;
      assert forall x :: (Kept(c) + multiset{o})[x] <= (Kept(c) + multiset(chain))[x];
      ReleaseOneKeeps(k, t, cl, c, o, i);
      var (c', gone) := ReleaseToSpans(k, c, o, i);
      assert Kept(c) + multiset(chain) == (Kept(c) + multiset{o}) + multiset(tail);
      if gone.None? {
        forall x | x in tail ensures HomeIn(k, t, c', x) {
          assert HomeIn(k, t, c, x);
        }
        ReleaseListKeeps(k, t, cl, c', tail);
      }
    }
  }

  // ---------------------------------------------------------------- new spans

  /** Puts a freshly carved span in front of the non-empty spans. */
  function AddSpan(c: CentralList, i: SpanId, cells: seq<Addr>): CentralList {
    c.(cuts := c.cuts[i := Cut(cells, 0)], nonempty := [i] + c.nonempty,
       numSpans := c.numSpans + 1, counter := c.counter + |cells|)
  }

  lemma AddSpanLists(c: CentralList, i: SpanId, cells: seq<Addr>)
    requires ListsOk(c) && i !in c.cuts && cells != []
    ensures ListsOk(AddSpan(c, i, cells))
  {
    assert forall j :: j in [i] + c.nonempty <==> j == i || j in c.nonempty;
  }

  lemma AddSpanKeeps(k: Class, t: Table, cl: int, c: CentralList, i: SpanId, cells: seq<Addr>)
    requires k.Ok() && CentralOk(k, t, cl, c) && i !in c.cuts && SpanOk(k, t, cl, i) && cells == CellsOf(k, t[i].start)
    ensures var c' := AddSpan(c, i, cells);
      Sound(k, t, cl, c') && Kept(c') == Kept(c) + multiset(cells) && Linked(c')
  {
    hide CellsOf, Sum, SlotSum, ListsOk, Linked;
    CellsCount(k, t[i].start);
    AddSpanLists(c, i, cells);
    LinkedOk(AddSpan(c, i, cells));
    SumAdd(c.cuts, ObjectsOf, i, Cut(cells, 0));
    assert CutsOk(k, t, cl, AddSpan(c, i, cells).cuts) by {
      assert CutOk(k, t, cl, i, Cut(cells, 0));
    }
  }

  lemma LinkedOk(c: CentralList)
    requires ListsOk(c)
    ensures Linked(c)
  {
  }

  /** The locked tail of Populate followed by the fetch: the new span, being first, loses an object at once. */
  lemma PopulateKeeps(k: Class, t: Table, cl: int, c: CentralList, i: SpanId, cells: seq<Addr>, n: int)
    requires k.Ok() && CentralOk(k, t, cl, c) && i !in c.cuts && SpanOk(k, t, cl, i) && cells == CellsOf(k, t[i].start) && n >= 1
    requires Linked(AddSpan(c, i, cells))
    ensures var (chain, c') := FetchMany(AddSpan(c, i, cells), n);
      && CentralOk(k, t, cl, c') && chain != []
      && Kept(c') + multiset(chain) == Kept(c) + multiset(cells)
      && c'.cuts.Keys == c.cuts.Keys + {i}
      && c'.slots == c.slots && c'.cacheSize == c.cacheSize && c'.maxCache == c.maxCache
  {
    hide CellsOf, Kept, CutsOk, ListsOk, CountsOk, SlotsOk, SpanOk, FetchMany, Linked;
    AddSpanKeeps(k, t, cl, c, i, cells);
    var c1 := AddSpan(c, i, cells);
    FetchManyKeeps(k, t, cl, c1, n);
    var (chain, c') := FetchMany(c1, n);
    forall j | j in c'.cuts ensures c'.cuts[j].refcount >= 1 {
      assert j in c1.cuts;
      if j != i { assert c1.cuts[j] == c.cuts[j]; }
    }
  }

  lemma FetchKeeps(k: Class, t: Table, cl: int, c: CentralList, n: int)
    requires k.Ok() && CentralOk(k, t, cl, c) && n >= 1 && Linked(c)
    ensures var (chain, c') := FetchMany(c, n);
      && CentralOk(k, t, cl, c') && Fetched(c, c', chain)
      && (chain == [] ==> c' == c)
  {
    hide CellsOf, Kept, CutsOk, ListsOk, CountsOk, SlotsOk, Linked, FetchFromOneSpans;
    FetchManyKeeps(k, t, cl, c, n);
    FetchOneNone(c, n);
    var (chain, c') := FetchMany(c, n);
    forall j | j in c'.cuts ensures c'.cuts[j].refcount >= 1 {
      assert j in c.cuts;
    }
  }

  // ---------------------------------------------------------------- transfer cache

  function PushSlot(c: CentralList, chain: seq<Addr>): CentralList {
    c.(slots := c.slots + [chain])
  }

  function PopSlot(c: CentralList): (r: (seq<Addr>, CentralList))
    requires c.slots != []
  {
    (c.slots[|c.slots| - 1], c.(slots := c.slots[..|c.slots| - 1]))
  }

  lemma PushSlotKeeps(k: Class, t: Table, cl: int, c: CentralList, chain: seq<Addr>)
    requires k.Ok() && CentralOk(k, t, cl, c) && |chain| == k.batch && |c.slots| < c.cacheSize
    ensures CentralOk(k, t, cl, PushSlot(c, chain)) && Kept(PushSlot(c, chain)) == Kept(c) + multiset(chain)
  {
    hide CutsOk, Sum, AllOut;
    var c' := PushSlot(c, chain);
    assert c'.slots[..|c'.slots| - 1] == c.slots;
  }

  lemma PopSlotKeeps(k: Class, t: Table, cl: int, c: CentralList)
    requires k.Ok() && CentralOk(k, t, cl, c) && c.slots != []
    ensures var (chain, c') := PopSlot(c);
      CentralOk(k, t, cl, c') && Kept(c') + multiset(chain) == Kept(c) && |chain| == k.batch
  {
    hide CutsOk, Sum, AllOut;
  }

  lemma ResizeKeeps(k: Class, t: Table, cl: int, c: CentralList, size: int)
    requires k.Ok() && CentralOk(k, t, cl, c) && |c.slots| <= size <= c.maxCache
    ensures CentralOk(k, t, cl, c.(cacheSize := size)) && Kept(c.(cacheSize := size)) == Kept(c)
  {
    hide CutsOk, Sum, AllOut;
  }

  // ---------------------------------------------------------------- what runs under the lock

  /** RemoveRange: a whole batch from the transfer cache if that is what is asked for, else from the spans. */
  function RemoveLocked(k: Class, c: CentralList, n: int): (seq<Addr>, CentralList)
    requires n >= 1 && Linked(c)
  {
    if n == k.batch && c.slots != [] then PopSlot(c) else FetchMany(c, n)
  }

  /** How InsertRange begins: the batch is in a slot, must go to the spans, or first needs space. */
  datatype Inserted = Slotted(list: CentralList) | ToSpans | NoRoom

  function InsertLocked(k: Class, c: CentralList, chain: seq<Addr>): Inserted {
    if |chain| != k.batch then ToSpans
    else if |c.slots| < c.cacheSize then Slotted(PushSlot(c, chain))
    else if c.cacheSize == c.maxCache then ToSpans
    else NoRoom
  }

  /** ShrinkCache under the lock of the victim: no slot, or one slot with the batch it held. */
  datatype Shrinking = Refused | Shrunk(list: CentralList, evicted: Option<seq<Addr>>)

  function ShrinkLocked(c: CentralList, force: bool): Shrinking {
    if c.cacheSize == 0 then Refused
    else if |c.slots| != c.cacheSize then Shrunk(c.(cacheSize := c.cacheSize - 1), None)
    else if !force || c.slots == [] then Refused
    else Shrunk(PopSlot(c).1.(cacheSize := c.cacheSize - 1), Some(PopSlot(c).0))
  }

  /** The end of MakeCacheSpace and InsertRange with a slot taken from another class. */
  function GrowLocked(c: CentralList, chain: seq<Addr>): Option<CentralList> {
    if c.cacheSize < c.maxCache then Some(PushSlot(c.(cacheSize := c.cacheSize + 1), chain)) else None
  }
}
