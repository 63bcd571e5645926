/** Spans: runs of pages, and the table of span descriptors.

    A `SpanId` stands for the address of a descriptor, so two records that hold
    the same id alias the same span.  The table holds every live descriptor. */
module Spans {
  datatype SpanId = SpanAt(address: int)
  type PageId = int

  datatype Option<+T> = None | Some(value: T)

  datatype Location = InUse | Normal | Returned

  datatype Span = Span(start: PageId, length: int, location: Location, sizeclass: int) {
    function End(): PageId { start + length }
    predicate Covers(p: PageId) { start <= p < start + length }
    predicate Within(s: Span) { s.start <= start && End() <= s.End() }
    predicate Free() { !location.InUse? }
  }

  type Table = map<SpanId, Span>

  predicate Apart(a: Span, b: Span) {
    a.End() <= b.start || b.End() <= a.start
  }

  /** One more than the last page number of a 64-bit address space with 8 KiB pages. */
  const PageLimit: int := 0x8_0000_0000_0000

  /** Spans are non-empty, lie in the address space above page 0, do not overlap,
      and a free span has no size class. */
  ghost predicate Tiled(t: Table) {
    && (forall i :: i in t ==> t[i].start >= 1 && t[i].length >= 1 && t[i].End() <= PageLimit)
    && (forall i :: i in t && t[i].Free() ==> t[i].sizeclass == 0)
    && (forall i, j :: i in t && j in t && i != j ==> Apart(t[i], t[j]))
  }

  /** The spans handed out to callers of the page heap. */
  ghost function Live(t: Table): Table {
    map i | i in t && t[i].location.InUse? :: t[i]
  }

  // ---------------------------------------------------------------- page map

  ghost predicate Covered(t: Table, p: PageId) {
    exists i :: i in t && t[i].Covers(p)
  }

  ghost predicate MapsTo(pm: map<PageId, SpanId>, p: PageId, i: SpanId) {
    p in pm && pm[p] == i
  }

  /** First and last page lead to the descriptor; for a sized span every page does. */
  ghost predicate TagsOf(s: Span, i: SpanId, pm: map<PageId, SpanId>) {
    && MapsTo(pm, s.start, i)
    && MapsTo(pm, s.End() - 1, i)
    && (s.sizeclass != 0 ==> forall p :: s.Covers(p) ==> MapsTo(pm, p, i))
  }

  ghost predicate Tags(t: Table, pm: map<PageId, SpanId>) {
    forall i :: i in t ==> t[i].length >= 1 && TagsOf(t[i], i, pm)
  }

  ghost predicate NoStray(t: Table, pm: map<PageId, SpanId>) {
    forall p {:trigger Covered(t, p)} :: p in pm ==> Covered(t, p)
  }

  /** Boundary tags agree with the table.  Entries inside a span may be stale
      (they may even name a deleted descriptor), but no entry lies outside all spans. */
  ghost predicate Tagged(t: Table, pm: map<PageId, SpanId>) {
    Tags(t, pm) && NoStray(t, pm)
  }

  /** What coalescing relies on: the entry just before a span is unset, or is
      the true left neighbour, whatever stale entries the map holds. */
  lemma LeftNeighbour(t: Table, pm: map<PageId, SpanId>, i: SpanId)
    requires Tiled(t) && Tagged(t, pm) && i in t && t[i].start - 1 in pm
    ensures pm[t[i].start - 1] in t
    ensures t[pm[t[i].start - 1]].End() == t[i].start
  {
    var p := t[i].start - 1;
    assert Covered(t, p);
    var k :| k in t && t[k].Covers(p);
    assert Apart(t[i], t[k]);
    assert TagsOf(t[k], k, pm);
  }

  lemma RightNeighbour(t: Table, pm: map<PageId, SpanId>, i: SpanId)
    requires Tiled(t) && Tagged(t, pm) && i in t && t[i].End() in pm
    ensures pm[t[i].End()] in t
    ensures t[pm[t[i].End()]].start == t[i].End()
  {
    var p := t[i].End();
    assert Covered(t, p);
    var k :| k in t && t[k].Covers(p);
    assert Apart(t[i], t[k]);
    assert TagsOf(t[k], k, pm);
  }

  // ---------------------------------------------------------------- page counts

  function Weight(s: Span, l: Location): int {
    if s.location == l then s.length else 0
  }

  ghost function Pick<V>(m: map<SpanId, V>): (i: SpanId)
    requires m != map[]
    ensures i in m
  {
    assert (forall i :: i !in m) ==> m == map[];
    var i :| i in m; i
  }

  /** Total length of the spans of `t` whose location is `l`. */
  ghost function Pages(t: Table, l: Location): int
    decreases |t|
  {
    if t == map[] then 0 else
      var i := Pick(t);
      Weight(t[i], l) + Pages(t - {i}, l)
  }

  lemma {:induction false} PagesSplit(t: Table, l: Location, i: SpanId)
    requires i in t
    ensures Pages(t, l) == Weight(t[i], l) + Pages(t - {i}, l)
    decreases |t|
  {
    var k := Pick(t);
    if k != i {
      PagesSplit(t - {k}, l, i);
      PagesSplit(t - {i}, l, k);
      assert t - {k} - {i} == t - {i} - {k};
    }
  }

  lemma PagesUpdate(t: Table, l: Location, i: SpanId, s: Span)
    ensures i in t ==> Pages(t[i := s], l) + Weight(t[i], l) == Pages(t, l) + Weight(s, l)
    ensures i !in t ==> Pages(t[i := s], l) == Pages(t, l) + Weight(s, l)
  {
    PagesSplit(t[i := s], l, i);
    if i in t {
      PagesSplit(t, l, i);
      assert t[i := s] - {i} == t - {i};
    } else {
      assert t[i := s] - {i} == t;
    }
  }

  lemma {:induction false} PagesZero(t: Table, l: Location)
    requires forall i :: i in t ==> t[i].length >= 1
    ensures Pages(t, l) >= 0
    ensures Pages(t, l) == 0 <==> forall i :: i in t ==> t[i].location != l
    decreases |t|
  {
    if t != map[] {
      var i := Pick(t);
      PagesZero(t - {i}, l);
      assert forall k :: k in t && k != i ==> k in t - {i};
    }
  }

  // ---------------------------------------------------------------- coalescing

  /** No two touching spans of `t` are both at location `l`; spans in `hole` do not count. */
  ghost predicate Coalesced(t: Table, hole: set<SpanId>, l: Location) {
    forall i, j :: i in t && j in t && i !in hole && j !in hole && t[i].location == l && t[j].location == l ==>
      t[i].End() != t[j].start
  }

  lemma CoalescedMono(t: Table, hole: set<SpanId>, more: set<SpanId>, l: Location)
    requires Coalesced(t, hole, l) && hole <= more
    ensures Coalesced(t, more, l)
  {
  }

  /** No span of `t` outside `hole` at location `l` ends, or starts, at page `p`. */
  ghost predicate NoneEndsAt(t: Table, hole: set<SpanId>, l: Location, p: PageId) {
    forall i :: i in t && i !in hole && t[i].location == l ==> t[i].End() != p
  }

  ghost predicate NoneStartsAt(t: Table, hole: set<SpanId>, l: Location, p: PageId) {
    forall i :: i in t && i !in hole && t[i].location == l ==> t[i].start != p
  }

  lemma CoalescedInsert(t: Table, hole: set<SpanId>, l: Location, i: SpanId)
    requires Tiled(t) && i in t && Coalesced(t, hole, l)
    requires t[i].location == l ==> NoneEndsAt(t, hole, l, t[i].start) && NoneStartsAt(t, hole, l, t[i].End())
    ensures Coalesced(t, hole - {i}, l)
  {
  }

  /** `u` is `t` after some coalescing: every free span of `t` lies inside a free span of `u`. */
  ghost predicate Absorbed(t: Table, u: Table) {
    forall i :: i in t && t[i].Free() ==> Engulfed(t[i], u)
  }

  ghost predicate Engulfed(s: Span, u: Table) {
    exists k :: k in u && u[k].Free() && s.Within(u[k])
  }

  lemma AbsorbedTrans(t: Table, u: Table, v: Table)
    requires Absorbed(t, u) && Absorbed(u, v)
    ensures Absorbed(t, v)
  {
    forall i | i in t && t[i].Free() ensures Engulfed(t[i], v) {
      var k :| k in u && u[k].Free() && t[i].Within(u[k]);
      assert Engulfed(u[k], v);
      var m :| m in v && v[m].Free() && u[k].Within(v[m]);
      assert t[i].Within(v[m]);
    }
  }

  /** Some free span of at least `n` pages exists. */
  ghost predicate Fits(t: Table, n: int) {
    exists i :: i in t && t[i].Free() && t[i].length >= n
  }

  // ---------------------------------------------------------------- table edits

  /** The two halves of span `i` cut after `n` pages; `j` describes the second half. */
  ghost function CutAt(t: Table, i: SpanId, n: int, j: SpanId, first: Location, second: Location): Table
    requires i in t && n <= t[i].length
  {
    var s := t[i];
    t[i := s.(length := n, location := first)][j := Span(s.start + n, s.length - n, second, 0)]
  }

  lemma CutTiled(t: Table, i: SpanId, n: int, j: SpanId, first: Location, second: Location)
    requires Tiled(t) && i in t && j !in t && 1 <= n < t[i].length
    requires t[i].sizeclass == 0
    ensures Tiled(CutAt(t, i, n, j, first, second))
  {
    var u := CutAt(t, i, n, j, first, second);
    forall a, b | a in u && b in u && a != b ensures Apart(u[a], u[b]) {
      var a' := if a == j then i else a;
      var b' := if b == j then i else b;
      assert a' != b' ==> Apart(t[a'], t[b']);
    }
  }

  ghost function CutMap(pm: map<PageId, SpanId>, s: Span, i: SpanId, n: int, j: SpanId): map<PageId, SpanId> {
    pm[s.start + n := j][s.End() - 1 := j][s.start + n - 1 := i]
  }

  lemma CutTagged(t: Table, pm: map<PageId, SpanId>, i: SpanId, n: int, j: SpanId, first: Location, second: Location)
    requires Tiled(t) && Tagged(t, pm) && i in t && j !in t && 1 <= n < t[i].length
    requires t[i].sizeclass == 0
    ensures Tagged(CutAt(t, i, n, j, first, second), CutMap(pm, t[i], i, n, j))
  {
    var s := t[i];
    var u, qm := CutAt(t, i, n, j, first, second), CutMap(pm, s, i, n, j);
    assert Tags(u, qm) by {
      forall k | k in u ensures u[k].length >= 1 && TagsOf(u[k], k, qm) {
        if k != i && k != j {
          assert Apart(t[i], t[k]) && TagsOf(t[k], k, pm);
        } else {
          assert TagsOf(t[i], i, pm);
        }
      }
    }
    forall p {:trigger Covered(u, p)} | p in qm ensures Covered(u, p) {
      if s.Covers(p) {
        assert u[i].Covers(p) || u[j].Covers(p);
      } else {
        assert Covered(t, p);
        var k :| k in t && t[k].Covers(p);
        assert u[k].Covers(p);
      }
    }
  }

  /** Span `i` after it has swallowed its neighbour `k`. */
  ghost function Joined(t: Table, i: SpanId, k: SpanId): Span
    requires i in t && k in t
  {
    t[i].(start := if t[k].start < t[i].start then t[k].start else t[i].start,
          length := t[i].length + t[k].length)
  }

  ghost predicate Touch(t: Table, i: SpanId, k: SpanId)
    requires i in t && k in t
  {
    i != k && (t[k].End() == t[i].start || t[i].End() == t[k].start)
  }

  lemma JoinTiled(t: Table, i: SpanId, k: SpanId)
    requires Tiled(t) && i in t && k in t && Touch(t, i, k)
    ensures Tiled((t - {k})[i := Joined(t, i, k)])
  {
    var u := (t - {k})[i := Joined(t, i, k)];
    forall a, b | a in u && b in u && a != b ensures Apart(u[a], u[b]) {
      if a != i { assert Apart(t[a], t[i]) && Apart(t[a], t[k]); }
      if b != i { assert Apart(t[b], t[i]) && Apart(t[b], t[k]); }
      assert Apart(t[a], t[b]);
    }
  }

  lemma JoinTagged(t: Table, pm: map<PageId, SpanId>, i: SpanId, k: SpanId)
    requires Tiled(t) && Tagged(t, pm) && i in t && k in t && Touch(t, i, k) && t[i].sizeclass == 0
    ensures var s := Joined(t, i, k);
      Tagged((t - {k})[i := s], pm[s.start := i][s.End() - 1 := i])
  {
    var s := Joined(t, i, k);
    var u, qm := (t - {k})[i := s], pm[s.start := i][s.End() - 1 := i];
    assert Tags(u, qm) by {
      forall a | a in u ensures u[a].length >= 1 && TagsOf(u[a], a, qm) {
        if a != i {
          assert Apart(t[a], t[i]) && Apart(t[a], t[k]) && TagsOf(t[a], a, pm);
        }
      }
    }
    forall p {:trigger Covered(u, p)} | p in qm ensures Covered(u, p) {
      if s.Covers(p) {
        assert u[i].Covers(p);
      } else {
        assert Covered(t, p);
        var a :| a in t && t[a].Covers(p);
        assert u[a].Covers(p);
      }
    }
  }

  /** Changing where a span is (but not which pages it holds) keeps tiling and tags. */
  lemma MoveTiled(t: Table, pm: map<PageId, SpanId>, i: SpanId, s: Span)
    requires Tiled(t) && Tagged(t, pm) && i in t
    requires s.start == t[i].start && s.length == t[i].length && s.sizeclass == 0
    ensures Tiled(t[i := s]) && Tagged(t[i := s], pm)
  {
    var u := t[i := s];
    forall a, b | a in u && b in u && a != b ensures Apart(u[a], u[b]) {
      assert Apart(t[a], t[b]);
    }
    assert Tags(u, pm) by {
      forall a | a in u ensures u[a].length >= 1 && TagsOf(u[a], a, pm) {
        assert TagsOf(t[a], a, pm);
      }
    }
    forall p {:trigger Covered(u, p)} | p in pm ensures Covered(u, p) {
      assert Covered(t, p);
      var a :| a in t && t[a].Covers(p);
      assert u[a].Covers(p);
    }
  }

  /** Adding a span that overlaps nothing, with its boundary tags. */
  lemma AddTiled(t: Table, pm: map<PageId, SpanId>, i: SpanId, s: Span)
    requires Tiled(t) && Tagged(t, pm) && i !in t
    requires s.start >= 1 && s.length >= 1 && s.End() <= PageLimit && s.sizeclass == 0
    requires forall k :: k in t ==> Apart(t[k], s)
    ensures Tiled(t[i := s]) && Tagged(t[i := s], pm[s.start := i][s.End() - 1 := i])
  {
    var u, qm := t[i := s], pm[s.start := i][s.End() - 1 := i];
    assert Tags(u, qm) by {
      forall a | a in u ensures u[a].length >= 1 && TagsOf(u[a], a, qm) {
        if a != i { assert TagsOf(t[a], a, pm) && Apart(t[a], s); }
      }
    }
    forall p {:trigger Covered(u, p)} | p in qm ensures Covered(u, p) {
      if s.Covers(p) {
        assert u[i].Covers(p);
      } else {
        assert Covered(t, p);
        var a :| a in t && t[a].Covers(p);
        assert u[a].Covers(p);
      }
    }
  }

  // ---------------------------------------------------------------- one span swallows its neighbours

  /** `u` is `t` after span `i` has swallowed some of its free neighbours. */
  ghost predicate Swallowed(t: Table, u: Table, i: SpanId) {
    && i in t && i in u && t[i].Within(u[i]) && u[i].Free()
    && (forall k :: k in u && k != i ==> k in t && u[k] == t[k])
    && (forall k :: k in t && k !in u ==> t[k].Free() && t[k].Within(u[i]))
  }

  lemma SwallowedFacts(t: Table, u: Table, i: SpanId)
    requires Swallowed(t, u, i)
    ensures Live(u) == Live(t) - {i}
    ensures Absorbed(t, u)
    ensures Engulfed(t[i], u)
  {
    forall k | k in t && t[k].Free() ensures Engulfed(t[k], u) {
      if k in u && k != i { assert t[k].Within(u[k]); } else { assert t[k].Within(u[i]); }
    }
    assert t[i].Within(u[i]);
  }

  lemma SwallowedTrans(t: Table, u: Table, v: Table, i: SpanId)
    requires Swallowed(t, u, i) && Swallowed(u, v, i)
    ensures Swallowed(t, v, i)
  {
  }

  lemma SwallowedNone(t: Table, u: Table, i: SpanId, l: Location, p: PageId)
    requires Swallowed(t, u, i)
    ensures NoneEndsAt(t, {i}, l, p) ==> NoneEndsAt(u, {i}, l, p)
    ensures NoneStartsAt(t, {i}, l, p) ==> NoneStartsAt(u, {i}, l, p)
  {
  }

  /** A finite table leaves some descriptor address unused. */
  lemma {:induction false} FreshId(keys: set<SpanId>) returns (i: SpanId)
    ensures i !in keys && forall k :: k in keys ==> k.address < i.address
    decreases keys
  {
    if keys == {} {
      i := SpanAt(0);
    } else {
      var k :| k in keys;
      var j := FreshId(keys - {k});
      i := SpanAt(if j.address > k.address then j.address else k.address + 1);
    }
  }

  // ---------------------------------------------------------------- lists of spans

  ghost predicate Distinct(q: seq<SpanId>) {
    forall a, b :: 0 <= a < b < |q| ==> q[a] != q[b]
  }

  /** `q` with the node `i` unlinked. */
  function Unlink(q: seq<SpanId>, i: SpanId): (r: seq<SpanId>)
  {
    if q == [] then [] else if q[0] == i then q[1..] else [q[0]] + Unlink(q[1..], i)
  }

  lemma {:induction false} UnlinkFacts(q: seq<SpanId>, i: SpanId)
    requires Distinct(q)
    ensures Distinct(Unlink(q, i)) && (forall k :: k in Unlink(q, i) <==> k in q && k != i)
    ensures |Unlink(q, i)| == if i in q then |q| - 1 else |q|
  {
    if q != [] {
      var tail := q[1..];
      assert q == [q[0]] + tail;
      assert q[0] !in tail;
      if q[0] != i {
        UnlinkFacts(tail, i);
        var r := Unlink(q, i);
        assert r == [q[0]] + Unlink(tail, i);
        assert forall b :: 0 < b < |r| ==> r[b] in Unlink(tail, i);
      }
    }
  }
}
